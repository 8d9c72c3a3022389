/**
  The tree builder of `src/myst_spec_py/mdit_to_mdast.py` (`MditToMdastTransform`): one
  left-to-right pass over a markdown-it token list that merges runs of text, turns each
  terminal token into a leaf, and gives each opening token the tokens up to its matching
  close as children, built recursively.

  `BuildSeq` and `BuildChild` state what the pass produces; the methods `TransformTokens`
  (`__call__`) and `AddChild` (`_add_child`) carry out the source's loops and are proved
  to produce exactly that.

  The source builds each node with a pointer to the node it is appended to, and a hidden
  paragraph reaches through two such pointers to set `spread` to false on a list that is
  still being built. Here every built node comes with a `Trace` of which of its
  descendants are hidden paragraphs, and a list takes its `spread` from the traces of its
  grandchildren once they are built.
*/
module MditToMdast {
  import opened Wrappers
  import opened Mdast
  import opened MditTransforms

  /** Per built node: was it made from a hidden `paragraph_open`; the same for its children. */
  datatype Trace = Trace(hiddenParagraph: bool, children: seq<Trace>)

  /** A built node together with its trace. */
  datatype Built = Built(node: Node, trace: Trace)

  function Nodes(bs: seq<Built>): (ns: seq<Node>)
    ensures |ns| == |bs| && forall i :: 0 <= i < |bs| ==> ns[i] == bs[i].node
  {
    seq(|bs|, i requires 0 <= i < |bs| => bs[i].node)
  }

  function Traces(bs: seq<Built>): (ts: seq<Trace>)
    ensures |ts| == |bs| && forall i :: 0 <= i < |bs| ==> ts[i] == bs[i].trace
  {
    seq(|bs|, i requires 0 <= i < |bs| => bs[i].trace)
  }

  /** The built child in front of the rest, the first error raised winning. */
  function Cons(x: Result<Built, BuildError>, r: Result<seq<Built>, BuildError>): Result<seq<Built>, BuildError> {
    match x
    case Err(e) => Err(e)
    case Ok(b) => (match r case Err(e) => Err(e) case Ok(bs) => Ok([b] + bs))
  }

  /** The children already appended in front of what the rest of the pass appends. */
  function Prepend(done: seq<Built>, r: Result<seq<Built>, BuildError>): Result<seq<Built>, BuildError> {
    match r
    case Err(e) => Err(e)
    case Ok(bs) => Ok(done + bs)
  }

  // ---------------------------------------------------------------------------------
  // Runs of text

  /** The tokens a leading `text` token absorbs. */
  predicate IsRunPiece(t: Token) {
    t.ttype == "text" || t.ttype == "softbreak"
  }

  /** The end of the run of `text`/`softbreak` tokens that starts at `i`. */
  function RunEnd(ts: seq<Token>, i: nat): (j: nat)
    requires i <= |ts|
    ensures i <= j <= |ts| && (j < |ts| ==> !IsRunPiece(ts[j]))
    ensures forall k :: i <= k < j ==> IsRunPiece(ts[k])
    decreases |ts| - i
  {
    if i < |ts| && IsRunPiece(ts[i]) then RunEnd(ts, i + 1) else i
  }

  /** What a run adds to the text: each `text` token its content, each `softbreak` a newline. */
  function Joined(run: seq<Token>): string {
    if run == [] then ""
    else Joined(run[..|run| - 1]) + (if run[|run| - 1].ttype == "text" then run[|run| - 1].content else "\n")
  }

  /** The number of tokens the first token of `ts` takes with it when it is a `text` token. */
  function MergeEnd(ts: seq<Token>): (e: nat)
    requires ts != []
    ensures 1 <= e <= |ts|
  {
    if ts[0].ttype == "text" then RunEnd(ts, 1) else 1
  }

  /** The first token of `ts`, a copy with the run's text appended when it is a `text` token. */
  function Merged(ts: seq<Token>): Token
    requires ts != []
  {
    if ts[0].ttype == "text" then ts[0].(content := ts[0].content + Joined(ts[1..MergeEnd(ts)])) else ts[0]
  }

  // ---------------------------------------------------------------------------------
  // Nesting

  /** The running nesting sum over `ts`. */
  function NestSum(ts: seq<Token>): int {
    if ts == [] then 0 else NestSum(ts[..|ts| - 1]) + ts[|ts| - 1].nesting
  }

  /**
    The nesting loop of `__call__`: from position `i` with running sum `nesting`, the
    position after the token at which the sum is back at 0; None if the tokens run out first.
  */
  function CloseAt(ts: seq<Token>, i: nat, nesting: int): (r: Option<nat>)
    requires i <= |ts|
    ensures r.Some? ==> i <= r.value <= |ts| && (nesting != 0 ==> i < r.value)
    decreases |ts| - i
  {
    if nesting == 0 then Some(i)
    else if i == |ts| then None
    else CloseAt(ts, i + 1, nesting + ts[i].nesting)
  }

  /** One lone `inline` token stands for its own children. */
  function InlineBypass(inner: seq<Token>): (r: seq<Token>)
    ensures Size(r) <= Size(inner)
  {
    if |inner| == 1 && inner[0].ttype == "inline" then
      SizeChildren(inner, 0);
      inner[0].children
    else inner
  }

  /** Some grandchild was made from a hidden paragraph. */
  predicate GrandchildHidden(traces: seq<Trace>) {
    exists i, j :: 0 <= i < |traces| && 0 <= j < |traces[i].children| && traces[i].children[j].hiddenParagraph
  }

  /** A list one of whose grandchildren is a hidden paragraph is not spread. */
  function Tighten(k: Kind, traces: seq<Trace>): Kind {
    if k.List? && GrandchildHidden(traces) then k.(spread := false) else k
  }

  /** The dummy position `_add_child` writes from the token's line map. */
  function PositionOf(t: Token): (p: Option<Position>)
    ensures p.Some? <==> t.sourceMap.Some?
    ensures p.Some? ==>
      p.value.start == Point(t.sourceMap.value.begin + 1, 1) && p.value.end == Point(t.sourceMap.value.end + 1, 1)
  {
    match t.sourceMap
    case None => None
    case Some(m) => Some(Position(Point(m.begin + 1, 1), Point(m.end + 1, 1)))
  }

  // ---------------------------------------------------------------------------------
  // What the pass builds

  /** The nodes `__call__` appends, in order, for the tokens `ts`. */
  function BuildSeq(ts: seq<Token>): Result<seq<Built>, BuildError>
    decreases Size(ts), 1
  {
    if ts == [] then Ok([])
    else
      var t := Merged(ts);
      var rest := ts[MergeEnd(ts)..];
      SizeSuffix(ts, MergeEnd(ts));
      if t.nesting == 0 then Cons(BuildChild(t, []), BuildSeq(rest))
      else if t.nesting != 1 then Err(InvalidNesting(t.nesting))
      else
        match CloseAt(rest, 0, 1)
        case None => Err(Unclosed(t))
        case Some(c) =>
          SizePrefix(rest, c - 1);
          SizeSuffix(rest, c);
          Cons(BuildChild(t, rest[..c - 1]), BuildSeq(rest[c..]))
  }

  lemma SizeSuffix(ts: seq<Token>, a: nat)
    requires a <= |ts|
    ensures Size(ts[a..]) + a <= Size(ts)
  {
    SizeSlice(ts, a, |ts|);
    assert ts[a..|ts|] == ts[a..];
  }

  lemma SizePrefix(ts: seq<Token>, b: nat)
    requires b <= |ts|
    ensures Size(ts[..b]) <= Size(ts)
  {
    SizeSlice(ts, 0, b);
    assert ts[0..b] == ts[..b];
  }

  /** The node `_add_child` builds from `t` and the tokens between it and its close. */
  function BuildChild(t: Token, inner: seq<Token>): Result<Built, BuildError>
    decreases Size(inner), 2
  {
    match TransformToken(t)
    case Err(e) => Err(e)
    case Ok(kind) =>
      var kids := if t.ttype == "image" then [] else InlineBypass(inner);
      match BuildSeq(kids)
      case Err(e) => Err(e)
      case Ok(bs) =>
        Ok(Built(Node(Tighten(kind, Traces(bs)), PositionOf(t), Nodes(bs)),
                 Trace(t.ttype == "paragraph_open" && t.hidden, Traces(bs))))
  }

  // ---------------------------------------------------------------------------------
  // The imperative pass

  /** `__call__`: pops the tokens front to back, building and appending one child at a time. */
  method TransformTokens(tokens: seq<Token>) returns (r: Result<seq<Built>, BuildError>)
    ensures r == BuildSeq(tokens)
    decreases Size(tokens), 2
  {
    var children: seq<Built> := [];
    var pending := tokens;
    if BuildSeq(tokens).Ok? {
      assert children + BuildSeq(tokens).value == BuildSeq(tokens).value;
    }
    while pending != []
      invariant Size(pending) <= Size(tokens)
      invariant Prepend(children, BuildSeq(pending)) == BuildSeq(tokens)
      decreases |pending|
    {
      var child, rest := TakeChild(pending);
      if child.Err? {
        return Err(child.error);
      }
      PrependStep(children, child.value, BuildSeq(rest));
      children := children + [child.value];
      pending := rest;
    }
    assert children + [] == children;
    return Ok(children);
  }

  /**
    One round of the loop of `__call__`: pops a token (merging a run of text into it, or
    collecting the tokens up to its close) and builds the child it is appended as.
  */
  method TakeChild(pending: seq<Token>) returns (child: Result<Built, BuildError>, rest: seq<Token>)
    requires pending != []
    ensures |rest| < |pending| && Size(rest) <= Size(pending)
    ensures child.Err? ==> BuildSeq(pending) == Err(child.error)
    ensures child.Ok? ==> BuildSeq(pending) == Cons(child, BuildSeq(rest))
    decreases Size(pending), 1
  {
    var token := pending[0];
    rest := pending[1..];
    assert pending == [token] + rest;
    if token.ttype == "text" && rest != [] {
      token, rest := MergeRun(token, rest);
    } else if token.ttype == "text" {
      assert pending[1..1] == [];
    }
    assert token == Merged(pending) && rest == pending[MergeEnd(pending)..];
    SizeSuffix(pending, MergeEnd(pending));
    if token.nesting == 0 {
      child := AddChild(token, []);
      return;
    }
    if token.nesting != 1 {
      return Err(InvalidNesting(token.nesting)), rest;
    }
    ghost var after := rest;
    var nested, nesting;
    nested, rest, nesting := CollectNested(token, rest);
    if nesting != 0 {
      return Err(Unclosed(nested[0])), [];
    }
    SizePrefix(after, CloseAt(after, 0, 1).value - 1);
    SizeSuffix(after, CloseAt(after, 0, 1).value);
    child := AddChild(nested[0], nested[1..|nested| - 1]);
  }

  lemma PrependStep(done: seq<Built>, b: Built, r: Result<seq<Built>, BuildError>)
    ensures Prepend(done, Cons(Ok(b), r)) == Prepend(done + [b], r)
  {
    if r.Ok? {
      assert done + ([b] + r.value) == done + [b] + r.value;
    }
  }

  /** The text-merging loop of `__call__`: appends the contents of the run that follows. */
  method MergeRun(token: Token, pending: seq<Token>) returns (merged: Token, rest: seq<Token>)
    requires token.ttype == "text"
    ensures merged == Merged([token] + pending) && rest == ([token] + pending)[MergeEnd([token] + pending)..]
  {
    ghost var ts := [token] + pending;
    ghost var j := 1;
    var content := token.content;
    rest := pending;
    assert rest == ts[1..];
    while rest != []
      invariant 1 <= j <= |ts| && rest == ts[j..]
      invariant forall k :: 1 <= k < j ==> IsRunPiece(ts[k])
      invariant content == token.content + Joined(ts[1..j])
      decreases |rest|
    {
      var next := rest[0];
      if next.ttype == "text" {
        content := content + next.content;
      } else if next.ttype == "softbreak" {
        content := content + "\n";
      } else {
        break;
      }
      JoinedStep(ts, j);
      rest := rest[1..];
      j := j + 1;
    }
    RunEndAt(ts, 1, j);
    merged := token.(content := content);
  }

  /** Joining one more token of the run appends that token's piece. */
  lemma JoinedStep(ts: seq<Token>, j: nat)
    requires 1 <= j < |ts|
    ensures Joined(ts[1..j + 1]) == Joined(ts[1..j]) + (if ts[j].ttype == "text" then ts[j].content else "\n")
  {
    var run := ts[1..j + 1];
    assert run[..|run| - 1] == ts[1..j] && run[|run| - 1] == ts[j];
  }

  lemma RunEndAt(ts: seq<Token>, i: nat, j: nat)
    requires i <= j <= |ts|
    requires forall k :: i <= k < j ==> IsRunPiece(ts[k])
    requires j < |ts| ==> !IsRunPiece(ts[j])
    ensures RunEnd(ts, i) == j
    decreases j - i
  {
    if i < j {
      RunEndAt(ts, i + 1, j);
    }
  }

  /** The nesting loop of `__call__`: takes tokens until the running sum is back at 0. */
  method CollectNested(token: Token, pending: seq<Token>) returns (nested: seq<Token>, rest: seq<Token>, nesting: int)
    requires token.nesting == 1
    ensures |nested| >= 1 && nested[0] == token
    ensures nesting == 0 <==> CloseAt(pending, 0, 1).Some?
    ensures nesting == 0 ==>
      var c := CloseAt(pending, 0, 1).value;
      |nested| == c + 1 && nested[1..|nested| - 1] == pending[..c - 1] && rest == pending[c..]
  {
    nested := [token];
    nesting := 1;
    rest := pending;
    while rest != [] && nesting != 0
      invariant |nested| >= 1 && nested[0] == token
      invariant |nested| - 1 <= |pending| && rest == pending[|nested| - 1..]
      invariant nested[1..] == pending[..|nested| - 1]
      invariant CloseAt(pending, |nested| - 1, nesting) == CloseAt(pending, 0, 1)
      decreases |rest|
    {
      var t := rest[0];
      rest := rest[1..];
      nested := nested + [t];
      nesting := nesting + t.nesting;
    }
  }

  /** `_add_child`: transforms the token, then builds and attaches the node's children. */
  method AddChild(token: Token, children: seq<Token>) returns (r: Result<Built, BuildError>)
    ensures r == BuildChild(token, children)
    decreases Size(children), 3
  {
    var kind: Result<Kind, BuildError>;
    if token.ttype == "image" {
      var alt := RenderInlineAsText(token.children);
      kind := TransformImage(token, alt);
    } else {
      kind := TransformToken(token);
    }
    if kind.Err? {
      return Err(kind.error);
    }
    var position := PositionOf(token);
    var kids := children;
    if |kids| == 1 && kids[0].ttype == "inline" {
      kids := kids[0].children;
    }
    assert kids == InlineBypass(children);
    var built: seq<Built> := [];
    if kids != [] && token.ttype != "image" {
      var sub := TransformTokens(kids);
      if sub.Err? {
        return Err(sub.error);
      }
      built := sub.value;
    }
    var traces := Traces(built);
    var k := kind.value;
    if k.List? && GrandchildHidden(traces) {
      k := k.(spread := false);
    }
    r := Ok(Built(Node(k, position, Nodes(built)), Trace(token.ttype == "paragraph_open" && token.hidden, traces)));
  }

  // ---------------------------------------------------------------------------------
  // Properties of the pass

  /**
    A `text` token and the run of `text`/`softbreak` tokens after it make one text node
    whose value is the contents joined, a newline for each softbreak; building goes on
    after the run.
  */
  lemma {:induction false} TextRunMerged(ts: seq<Token>, e: nat)
    requires 1 <= e <= |ts| && ts[0].ttype == "text" && ts[0].nesting == 0
    requires forall k :: 1 <= k < e ==> IsRunPiece(ts[k])
    requires e < |ts| ==> !IsRunPiece(ts[e])
    ensures BuildSeq(ts) ==
      Cons(Ok(Built(Node(Text(ts[0].content + Joined(ts[1..e])), PositionOf(ts[0]), []), Trace(false, []))),
           BuildSeq(ts[e..]))
  {
    RunEndAt(ts, 1, e);
    var t := Merged(ts);
    assert BuildSeq([]) == Ok([]);
    assert BuildChild(t, []) == Ok(Built(Node(Text(t.content), PositionOf(t), []), Trace(false, [])));
  }

  /** A token that neither opens nor is terminal raises. */
  lemma InvalidNestingRaises(ts: seq<Token>)
    requires ts != [] && ts[0].nesting != 0 && ts[0].nesting != 1
    ensures BuildSeq(ts) == Err(InvalidNesting(ts[0].nesting))
  {
  }

  /** A terminal token other than `text` makes one childless node, the rest following it. */
  lemma TerminalToken(ts: seq<Token>)
    requires ts != [] && ts[0].nesting == 0 && ts[0].ttype != "text"
    ensures BuildSeq(ts) == Cons(BuildChild(ts[0], []), BuildSeq(ts[1..]))
    ensures BuildChild(ts[0], []).Ok? ==> BuildChild(ts[0], []).value.node.children == []
  {
    assert BuildSeq([]) == Ok([]);
  }

  lemma {:induction false} NestSumCons(x: Token, s: seq<Token>)
    ensures NestSum([x] + s) == x.nesting + NestSum(s)
  {
    if s != [] {
      assert ([x] + s)[..|s|] == [x] + s[..|s| - 1];
      NestSumCons(x, s[..|s| - 1]);
    }
  }

  /**
    `CloseAt` stops at the first position, from `i` on, where the running sum
    (1 for the opening token, plus the nestings taken so far) is 0.
  */
  lemma {:induction false} CloseAtFirstZero(rs: seq<Token>, i: nat, n: int)
    requires i <= |rs| && n == 1 + NestSum(rs[..i])
    ensures CloseAt(rs, i, n).Some? ==>
      var c := CloseAt(rs, i, n).value;
      1 + NestSum(rs[..c]) == 0 && forall k :: i <= k < c ==> 1 + NestSum(rs[..k]) != 0
    ensures CloseAt(rs, i, n).None? ==> forall k :: i <= k <= |rs| ==> 1 + NestSum(rs[..k]) != 0
    decreases |rs| - i
  {
    if n != 0 && i < |rs| {
      assert rs[..i + 1][..i] == rs[..i];
      CloseAtFirstZero(rs, i + 1, n + rs[i].nesting);
    } else if n != 0 {
      assert rs[..|rs|] == rs;
    }
  }

  /** The running sum over `ts`, opening token included, at `k` and from 1 on. */
  lemma NestSumShift(ts: seq<Token>, k: nat)
    requires 1 <= k <= |ts|
    ensures NestSum(ts[..k]) == ts[0].nesting + NestSum(ts[1..][..k - 1])
  {
    assert ts[..k] == [ts[0]] + ts[1..][..k - 1];
    NestSumCons(ts[0], ts[1..][..k - 1]);
  }

  /**
    An opening token takes the tokens up to the first point at which the running nesting
    sum is 0: the tokens strictly between become its children, the closing token makes no
    node, and building goes on after it.
  */
  lemma {:induction false} OpeningToken(ts: seq<Token>, c: nat)
    requires ts != [] && ts[0].ttype != "text" && ts[0].nesting == 1
    requires 2 <= c <= |ts| && NestSum(ts[..c]) == 0
    requires forall k :: 1 <= k < c ==> NestSum(ts[..k]) != 0
    ensures BuildSeq(ts) == Cons(BuildChild(ts[0], ts[1..c - 1]), BuildSeq(ts[c..]))
  {
    var rs := ts[1..];
    CloseAtFirstZero(rs, 0, 1);
    NestSumShift(ts, c);
    assert rs[..0] == [];
    match CloseAt(rs, 0, 1)
    case None =>
      assert false;
    case Some(d) =>
      NestSumShift(ts, d + 1);
      if d + 1 < c {
        assert false;
      } else if d + 1 > c {
        assert false;
      }
      assert rs[..d - 1] == ts[1..c - 1] && rs[d..] == ts[c..];
  }

  /** An opening token whose running nesting sum never returns to 0 raises. */
  lemma {:induction false} UnclosedRaises(ts: seq<Token>)
    requires ts != [] && ts[0].ttype != "text" && ts[0].nesting == 1
    requires forall k :: 1 <= k <= |ts| ==> NestSum(ts[..k]) != 0
    ensures BuildSeq(ts) == Err(Unclosed(ts[0]))
  {
    var rs := ts[1..];
    CloseAtFirstZero(rs, 0, 1);
    assert rs[..0] == [];
    if CloseAt(rs, 0, 1).Some? {
      var d := CloseAt(rs, 0, 1).value;
      NestSumShift(ts, d + 1);
      assert false;
    }
  }

  /** The "no transform" error names exactly a token type that has no `transform_<type>`. */
  lemma {:induction false} NoTransformOnlyUnknown(ts: seq<Token>, x: string)
    ensures BuildSeq(ts) == Err(NoTransform(x)) ==> x !in TransformTypes
    decreases Size(ts), 1
  {
    if ts != [] {
      var t := Merged(ts);
      var rest := ts[MergeEnd(ts)..];
      SizeSuffix(ts, MergeEnd(ts));
      if t.nesting == 0 {
        NoTransformOnlyUnknownChild(t, [], x);
        NoTransformOnlyUnknown(rest, x);
      } else if t.nesting == 1 && CloseAt(rest, 0, 1).Some? {
        var c := CloseAt(rest, 0, 1).value;
        SizePrefix(rest, c - 1);
        SizeSuffix(rest, c);
        NoTransformOnlyUnknownChild(t, rest[..c - 1], x);
        NoTransformOnlyUnknown(rest[c..], x);
      }
    }
  }

  lemma {:induction false} NoTransformOnlyUnknownChild(t: Token, inner: seq<Token>, x: string)
    ensures BuildChild(t, inner) == Err(NoTransform(x)) ==> x !in TransformTypes
    decreases Size(inner), 2
  {
    if TransformToken(t).Ok? {
      NoTransformOnlyUnknown(if t.ttype == "image" then [] else InlineBypass(inner), x);
    }
  }

  /** `_add_child` raises "no transform" for a token exactly when its type has none. */
  lemma NoTransformRaises(t: Token, inner: seq<Token>)
    ensures BuildChild(t, inner) == Err(NoTransform(t.ttype)) <==> t.ttype !in TransformTypes
  {
    NoTransformOnlyUnknownChild(t, inner, t.ttype);
  }

  /**
    A built node keeps its token's transform and position, a list apart from `spread`,
    and it is traced as a hidden paragraph exactly when the token is a hidden `paragraph_open`.
  */
  lemma BuiltFromToken(t: Token, inner: seq<Token>)
    ensures BuildChild(t, inner).Ok? ==>
      var b := BuildChild(t, inner).value;
      && b.trace.hiddenParagraph == (t.ttype == "paragraph_open" && t.hidden)
      && b.node.position == PositionOf(t)
      && |b.trace.children| == |b.node.children|
      && (b.node.kind.List? ==> TransformToken(t) == Ok(b.node.kind.(spread := true)))
      && (!b.node.kind.List? ==> TransformToken(t) == Ok(b.node.kind))
  {
  }

  /**
    The record the builder keeps of a node agrees with the node, all the way down: a
    node traced as a hidden paragraph is a paragraph, and a list is spread exactly when
    none of its items has a hidden paragraph among its children.
  */
  predicate Consistent(n: Node, tr: Trace)
    decreases n
  {
    && |n.children| == |tr.children|
    && (tr.hiddenParagraph ==> n.kind == Paragraph)
    && (n.kind.List? ==> (n.kind.spread <==> !GrandchildHidden(tr.children)))
    && forall i :: 0 <= i < |n.children| ==> Consistent(n.children[i], tr.children[i])
  }

  lemma {:induction false} BuildSeqConsistent(ts: seq<Token>)
    ensures BuildSeq(ts).Ok? ==>
      forall i :: 0 <= i < |BuildSeq(ts).value| ==> Consistent(BuildSeq(ts).value[i].node, BuildSeq(ts).value[i].trace)
    decreases Size(ts), 1
  {
    if ts != [] {
      var t := Merged(ts);
      var rest := ts[MergeEnd(ts)..];
      SizeSuffix(ts, MergeEnd(ts));
      if t.nesting == 0 {
        BuildChildConsistent(t, []);
        BuildSeqConsistent(rest);
      } else if t.nesting == 1 && CloseAt(rest, 0, 1).Some? {
        var c := CloseAt(rest, 0, 1).value;
        SizePrefix(rest, c - 1);
        SizeSuffix(rest, c);
        BuildChildConsistent(t, rest[..c - 1]);
        BuildSeqConsistent(rest[c..]);
      }
    }
  }

  lemma {:induction false} BuildChildConsistent(t: Token, inner: seq<Token>)
    ensures BuildChild(t, inner).Ok? ==> Consistent(BuildChild(t, inner).value.node, BuildChild(t, inner).value.trace)
    decreases Size(inner), 2
  {
    if BuildChild(t, inner).Ok? {
      BuildSeqConsistent(if t.ttype == "image" then [] else InlineBypass(inner));
    }
  }

  /**
    A list built from tokens is tight (`spread` false) exactly when a hidden paragraph
    sits directly inside one of its items, and every list and paragraph below it agrees.
  */
  lemma ListSpread(t: Token, inner: seq<Token>)
    requires t.ttype == "bullet_list_open" || t.ttype == "ordered_list_open"
    ensures BuildChild(t, inner).Ok? ==>
      var b := BuildChild(t, inner).value;
      && b.node.kind.List?
      && (b.node.kind.spread <==> !GrandchildHidden(b.trace.children))
      && Consistent(b.node, b.trace)
  {
    BuildChildConsistent(t, inner);
  }

  /** An image gets no child nodes; its `alt` is the text beneath it, flattened. */
  lemma ImageFlattened(t: Token, inner: seq<Token>)
    requires t.ttype == "image"
    ensures BuildChild(t, inner).Ok? ==>
      var n := BuildChild(t, inner).value.node;
      && n.children == []
      && (n.kind.Image? || n.kind.ImageReference?)
      && n.kind.alt == InlineText(t.children)
    ensures BuildChild(t, inner).Err? ==> BuildChild(t, inner).error == Malformed("image", "src")
  {
    assert BuildSeq([]) == Ok([]);
  }

  /** The children of a lone `inline` token stand in for it. */
  lemma InlineBypassed(t: Token, inline: Token)
    requires inline.ttype == "inline" && t.ttype != "image"
    ensures BuildChild(t, [inline]).Ok? ==>
      && BuildSeq(inline.children).Ok?
      && BuildChild(t, [inline]).value.node.children == Nodes(BuildSeq(inline.children).value)
  {
  }

  // ---------------------------------------------------------------------------------
  // `parse`: the root and its definitions table

  /** One entry of markdown-it's `env["references"]`. */
  datatype EnvReference = EnvReference(href: string, title: string)

  /** The `root.data.definitions` table: each label with its `href` as `url` and its `title`. */
  function Definitions(refs: map<string, EnvReference>): (d: map<string, RefTarget>)
    ensures d.Keys == refs.Keys
    ensures forall k :: k in d ==> d[k] == RefTarget(refs[k].href, refs[k].title)
  {
    map k | k in refs :: RefTarget(refs[k].href, refs[k].title)
  }

  /**
    `parse` after tokenizing: the root node with the built children, and the definitions
    table when the tokenizer collected references (`references` is None where its
    environment has no "references" key).
  */
  method Parse(tokens: seq<Token>, references: Option<map<string, EnvReference>>) returns (r: Result<Node, BuildError>)
    ensures r.Ok? <==> BuildSeq(tokens).Ok?
    ensures r.Err? ==> r.error == BuildSeq(tokens).error
    ensures r.Ok? ==>
      && r.value.kind.Root?
      && r.value.position.None?
      && r.value.children == Nodes(BuildSeq(tokens).value)
      && (r.value.kind.definitions.Some? <==> references.Some?)
      && (references.Some? ==> r.value.kind.definitions.value == Definitions(references.value))
  {
    var built := TransformTokens(tokens);
    if built.Err? {
      return Err(built.error);
    }
    var definitions := None;
    if references.Some? {
      definitions := Some(Definitions(references.value));
    }
    r := Ok(Node(Root(definitions), None, Nodes(built.value)));
  }
}
