/**
  The HTML renderer of `src/myst_spec_py/mdast_to_html.py` (`MdastToHtmlTransform`): a
  walk over the tree whose enter and exit callbacks append each node's opening and
  closing markup, with newlines placed by a few fixed rules, to one output string.

  The tree is rendered from its top node, which has no parent; a node is named by its
  path from the top. `EnterStep` and `ExitStep` are what the two callbacks append for a
  node (or the error they raise); `RenderAt` puts them together along the tree's
  structure, and the class `HtmlRenderer` runs the callbacks along `Walk`, as the source
  does, and is proved to produce `RenderAt` of the top node.
*/
module MdastToHtml {
  import opened Wrappers
  import opened Mdast
  import Numerals
  import opened HtmlEscape

  /** `skip_missing_enter` and `skip_missing_exit`. */
  datatype Options = Options(skipMissingEnter: bool, skipMissingExit: bool)

  /** The defaults of `__call__`: a missing enter handler raises, a missing exit handler does not. */
  const Defaults: Options := Options(false, true)

  /** The errors the renderer raises. */
  datatype RenderError =
    | NoEnter(nodeType: string)        // no `enter_<type>` and missing ones are not skipped
    | NoExit(nodeType: string)         // no `exit_<type>` and missing ones are not skipped
    | NoDefinition(identifier: string) // a reference whose label the root does not define

  /** A result made of two parts in order; the first error raised wins. */
  function Then(a: Result<string, RenderError>, b: Result<string, RenderError>): Result<string, RenderError> {
    match a
    case Err(e) => Err(e)
    case Ok(x) => (match b case Err(e) => Err(e) case Ok(y) => Ok(x + y))
  }

  // ---------------------------------------------------------------------------------
  // Context: `node.parent.parent`, `node.root`, `node.next_sibling`

  /** `node.parent.parent`, a "null" node above the top. */
  function Grandparent(t: Node, p: seq<nat>): Node
    requires ValidPath(t, p)
  {
    Deref(t, Parent(t, Parent(t, At(p))))
  }

  /** A list whose items' paragraphs are shown without `<p>` tags. */
  predicate Tight(n: Node) {
    n.kind.List? && !n.kind.spread
  }

  /** `_hidden_paragraph`: a paragraph whose grandparent is a list that is not spread. */
  predicate Hidden(t: Node, p: seq<nat>)
    requires ValidPath(t, p)
  {
    NodeAt(t, p).kind.Paragraph? && Tight(Grandparent(t, p))
  }

  /** `node.next_sibling` is a node (a node's dict is never empty, so it is truthy). */
  predicate HasNextSibling(t: Node, p: seq<nat>)
    requires ValidPath(t, p)
  {
    NextSibling(t, At(p)).Ok? && NextSibling(t, At(p)).value.Some?
  }

  /** `node.root.get("data", {}).get("definitions", {})`, the top node being the root. */
  function RootDefinitions(t: Node): map<string, RefTarget> {
    match t.kind
    case Root(Some(d)) => d
    case _ => map[]
  }

  // ---------------------------------------------------------------------------------
  // The handlers

  predicate NonEmpty(s: Option<string>) {
    s.Some? && s.value != ""
  }

  /** ` title="…"` with the title escaped, present only for a non-empty title. */
  function TitleAttr(title: Option<string>): string {
    if NonEmpty(title) then " title=\"" + EscapeHtml(title.value) + "\"" else ""
  }

  /** The opening `<a>` tag: `<a href="…" title="…">`, the url escaped. */
  function Anchor(url: string, title: Option<string>): string {
    "<a href=\"" + EscapeHtml(url) + "\"" + (TitleAttr(title) + ">")
  }

  /** The `<img />` tag: `<img src="…" alt="…" title="…" />`, url and alt escaped. */
  function Img(url: string, alt: string, title: Option<string>): string {
    "<img src=\"" + EscapeHtml(url) + "\"" + (" alt=\"" + EscapeHtml(alt) + "\"" + (TitleAttr(title) + " />"))
  }

  /** `enter_<type>` for the node at `p`; None for a type without one. */
  function EnterHandler(t: Node, p: seq<nat>): Option<Result<string, RenderError>>
    requires ValidPath(t, p)
  {
    match NodeAt(t, p).kind
    case Root(_) => Some(Ok(""))
    case Paragraph => Some(Ok(if Hidden(t, p) then "" else "<p>"))
    case Text(v) => Some(Ok(EscapeHtml(v)))
    case Break => Some(Ok("<br />\n"))
    case Html(v) => Some(Ok(v))
    case Heading(d, _) => Some(Ok("<h" + Numerals.FormatInt(d) + ">"))
    case List(ordered, _, start, _) =>
      Some(Ok(if !ordered then "<ul>"
              else if start.Some? then "<ol start=\"" + Numerals.FormatInt(start.value) + "\">"
              else "<ol>"))
    case ListItem(_) => Some(Ok("<li>"))
    case InlineCode(v, _) => Some(Ok("<code>" + EscapeHtml(v) + "</code>"))
    case Code(v, lang, _, _) =>
      Some(Ok(if NonEmpty(lang) then "<pre><code class=\"language-" + lang.value + "\">" + EscapeHtml(v) + "</code></pre>"
              else "<pre><code>" + EscapeHtml(v) + "</code></pre>"))
    case Blockquote(_) => Some(Ok("<blockquote>"))
    case Definition(_, _, _, _) => Some(Ok(""))
    case ThematicBreak(_) => Some(Ok("<hr />\n"))
    case Emphasis(_) => Some(Ok("<em>"))
    case Strong(_) => Some(Ok("<strong>"))
    case Link(url, title) => Some(Ok(Anchor(url, title)))
    case LinkReference(id) =>
      var defs := RootDefinitions(t);
      Some(if id !in defs then Err(NoDefinition(id)) else Ok(Anchor(defs[id].url, Some(defs[id].title))))
    case Image(url, alt, title) => Some(Ok(Img(url, alt, title)))
    case ImageReference(alt, id) =>
      var defs := RootDefinitions(t);
      Some(if id !in defs then Err(NoDefinition(id)) else Ok(Img(defs[id].url, alt, Some(defs[id].title))))
    case Other(_) => None
  }

  /** `exit_<type>` for the node at `p`; None for a type without one. */
  function ExitHandler(t: Node, p: seq<nat>): Option<string>
    requires ValidPath(t, p)
  {
    match NodeAt(t, p).kind
    case Paragraph => Some(if Hidden(t, p) then "" else "</p>")
    case Heading(d, _) => Some("</h" + Numerals.FormatInt(d) + ">")
    case List(ordered, _, _, _) => Some(if ordered then "</ol>" else "</ul>")
    case ListItem(_) => Some("</li>")
    case Blockquote(_) => Some("</blockquote>")
    case Emphasis(_) => Some("</em>")
    case Strong(_) => Some("</strong>")
    case Link(_, _) => Some("</a>")
    case LinkReference(_) => Some("</a>")
    case _ => None
  }

  /** A block that holds other blocks gets a newline after its opening markup. */
  predicate EnterNewline(t: Node, p: seq<nat>)
    requires ValidPath(t, p)
  {
    var n := NodeAt(t, p);
    && (n.kind.Blockquote? || n.kind.Code? || n.kind.List? || n.kind.ListItem?)
    && !(n.kind.ListItem? && n.children == [])
    && !(n.children != [] && (ChildAt(t, p, 0); Hidden(t, p + [0])))
  }

  /** The newline after a closing tag: between a hidden paragraph and what follows, or after a block. */
  function ExitNewline(t: Node, p: seq<nat>): string
    requires ValidPath(t, p)
  {
    var k := NodeAt(t, p).kind;
    if Hidden(t, p) && HasNextSibling(t, p) then "\n"
    else if (k.Blockquote? || k.Code? || k.Heading? || k.Html? || k.List? || k.ListItem? || k.Paragraph?) && !Hidden(t, p) then "\n"
    else ""
  }

  /** The enter handler's output; a missing handler is skipped or raises. */
  function EnterMarkup(t: Node, p: seq<nat>, o: Options): Result<string, RenderError>
    requires ValidPath(t, p)
  {
    match EnterHandler(t, p)
    case None => if o.skipMissingEnter then Ok("") else Err(NoEnter(TypeName(NodeAt(t, p).kind)))
    case Some(r) => r
  }

  /** `_callback_enter_node`: what entering the node at `p` appends, or the error it raises. */
  function EnterStep(t: Node, p: seq<nat>, o: Options): Result<string, RenderError>
    requires ValidPath(t, p)
  {
    Then(EnterMarkup(t, p, o), Ok(if EnterNewline(t, p) then "\n" else ""))
  }

  /** `_callback_exit_node`: what exiting the node at `p` appends, or the error it raises. */
  function ExitStep(t: Node, p: seq<nat>, o: Options): Result<string, RenderError>
    requires ValidPath(t, p)
  {
    match ExitHandler(t, p)
    case None => if o.skipMissingExit then Ok("") else Err(NoExit(TypeName(NodeAt(t, p).kind)))
    case Some(s) => Ok(s + ExitNewline(t, p))
  }

  // ---------------------------------------------------------------------------------
  // The whole output

  /** What one callback appends (a visit off the tree appends nothing; the walk makes none). */
  function Step(t: Node, o: Options, v: Visit): Result<string, RenderError> {
    if !ValidPath(t, v.path) then Ok("")
    else match v
      case Enter(p) => EnterStep(t, p, o)
      case Exit(p) => ExitStep(t, p, o)
  }

  function StepOf(t: Node, o: Options): Visit -> Result<string, RenderError> {
    v => Step(t, o, v)
  }

  /** The output of a run of callbacks, made one after the other until one raises. */
  function Fold(step: Visit -> Result<string, RenderError>, vs: seq<Visit>): Result<string, RenderError> {
    if vs == [] then Ok("")
    else Then(Fold(step, vs[..|vs| - 1]), step(vs[|vs| - 1]))
  }

  /** Output made along the tree's shape: a node's enter, its children's output in order, its exit. */
  function Nested(step: Visit -> Result<string, RenderError>, t: Node, p: seq<nat>): Result<string, RenderError>
    requires ValidPath(t, p)
    decreases NodeAt(t, p), 1, 0
  {
    Then(Then(step(Enter(p)), NestedFrom(step, t, p, 0)), step(Exit(p)))
  }

  /** The output of the children of the node at `p`, from child `i` on. */
  function NestedFrom(step: Visit -> Result<string, RenderError>, t: Node, p: seq<nat>, i: nat): Result<string, RenderError>
    requires ValidPath(t, p) && i <= |NodeAt(t, p).children|
    decreases NodeAt(t, p), 0, |NodeAt(t, p).children| - i
  {
    if i == |NodeAt(t, p).children| then Ok("")
    else
      ChildAt(t, p, i);
      Then(Nested(step, t, p + [i]), NestedFrom(step, t, p, i + 1))
  }

  /** The HTML for the subtree at `p`, or the first error its callbacks raise. */
  function RenderAt(t: Node, p: seq<nat>, o: Options): Result<string, RenderError>
    requires ValidPath(t, p)
  {
    Nested(StepOf(t, o), t, p)
  }

  // ---------------------------------------------------------------------------------
  // The renderer object

  class HtmlRenderer {
    /** `self._string`, the output so far. */
    var out: string
    var skipMissingEnter: bool
    var skipMissingExit: bool

    constructor ()
      ensures out == "" && skipMissingEnter == Defaults.skipMissingEnter && skipMissingExit == Defaults.skipMissingExit
    {
      out := "";
      skipMissingEnter := Defaults.skipMissingEnter;
      skipMissingExit := Defaults.skipMissingExit;
    }

    /** `__call__`: resets the output, then runs the callbacks along the walk of `root`. */
    method Render(root: Node, skipEnter: bool, skipExit: bool) returns (r: Result<string, RenderError>)
      modifies this
      ensures skipMissingEnter == skipEnter && skipMissingExit == skipExit
      ensures r == RenderAt(root, [], Options(skipEnter, skipExit))
      ensures r.Ok? ==> out == r.value
    {
      out := "";
      skipMissingEnter := skipEnter;
      skipMissingExit := skipExit;
      var visits := Walk(root, []);
      WalkStaysInSubtree(root, []);
      FoldWalk(StepOf(root, Options(skipEnter, skipExit)), root, []);
      r := RunVisits(root, visits);
    }

    /** The callbacks of a walk, made in order onto the output until one raises. */
    method RunVisits(root: Node, visits: seq<Visit>) returns (r: Result<string, RenderError>)
      requires out == ""
      requires forall v :: v in visits ==> ValidPath(root, v.path)
      modifies this`out
      ensures r == Fold(StepOf(root, Options(skipMissingEnter, skipMissingExit)), visits)
      ensures r.Ok? ==> out == r.value
    {
      ghost var step := StepOf(root, Options(skipMissingEnter, skipMissingExit));
      for i := 0 to |visits|
        invariant Fold(step, visits[..i]) == Ok(out)
      {
        assert visits[i] in visits;
        FoldStep(step, visits, i);
        var err: Option<RenderError>;
        match visits[i] {
          case Enter(p) =>
            err := EnterNode(root, p);
          case Exit(p) =>
            err := ExitNode(root, p);
        }
        if err.Some? {
          FoldFailed(step, visits, i + 1);
          return Err(err.value);
        }
      }
      assert visits[..|visits|] == visits;
      return Ok(out);
    }

    /** `_callback_enter_node`: appends the enter handler's markup and the newline rule's. */
    method EnterNode(root: Node, p: seq<nat>) returns (err: Option<RenderError>)
      requires ValidPath(root, p)
      modifies this`out
      ensures err.None? <==> EnterStep(root, p, Options(skipMissingEnter, skipMissingExit)).Ok?
      ensures err.Some? ==> err.value == EnterStep(root, p, Options(skipMissingEnter, skipMissingExit)).error && out == old(out)
      ensures err.None? ==> out == old(out) + EnterStep(root, p, Options(skipMissingEnter, skipMissingExit)).value
    {
      var markup := EnterMarkup(root, p, Options(skipMissingEnter, skipMissingExit));
      var newline := EnterNewline(root, p);
      ghost var step := EnterStep(root, p, Options(skipMissingEnter, skipMissingExit));
      assert step == Then(markup, Ok(if newline then "\n" else ""));
      if markup.Err? {
        return Some(markup.error);
      }
      out := out + markup.value;
      if newline {
        out := out + "\n";
      }
      return None;
    }

    /** `_callback_exit_node`: appends the exit handler's markup and the newline rules'. */
    method ExitNode(root: Node, p: seq<nat>) returns (err: Option<RenderError>)
      requires ValidPath(root, p)
      modifies this`out
      ensures err.None? <==> ExitStep(root, p, Options(skipMissingEnter, skipMissingExit)).Ok?
      ensures err.Some? ==> err.value == ExitStep(root, p, Options(skipMissingEnter, skipMissingExit)).error && out == old(out)
      ensures err.None? ==> out == old(out) + ExitStep(root, p, Options(skipMissingEnter, skipMissingExit)).value
    {
      var handler := ExitHandler(root, p);
      if handler.None? {
        if !skipMissingExit {
          return Some(NoExit(TypeName(NodeAt(root, p).kind)));
        }
      } else {
        out := out + handler.value;
        if Hidden(root, p) && HasNextSibling(root, p) {
          out := out + "\n";
        } else if ExitNewline(root, p) == "\n" {
          out := out + "\n";
        }
      }
      return None;
    }
  }

  /** `render`: a fresh renderer with the default options. */
  method RenderHtml(root: Node) returns (r: Result<string, RenderError>)
    ensures r == RenderAt(root, [], Defaults)
  {
    var renderer := new HtmlRenderer();
    r := renderer.Render(root, Defaults.skipMissingEnter, Defaults.skipMissingExit);
  }

  // ---------------------------------------------------------------------------------
  // The walk makes the structural output

  lemma ThenAssoc(a: Result<string, RenderError>, b: Result<string, RenderError>, c: Result<string, RenderError>)
    ensures Then(Then(a, b), c) == Then(a, Then(b, c))
  {
    if a.Ok? && b.Ok? && c.Ok? {
      assert a.value + b.value + c.value == a.value + (b.value + c.value);
    }
  }

  lemma ThenUnit(a: Result<string, RenderError>)
    ensures Then(a, Ok("")) == a && Then(Ok(""), a) == a
  {
    if a.Ok? {
      assert a.value + "" == a.value && "" + a.value == a.value;
    }
  }

  lemma {:induction false} FoldConcat(step: Visit -> Result<string, RenderError>, a: seq<Visit>, b: seq<Visit>)
    ensures Fold(step, a + b) == Then(Fold(step, a), Fold(step, b))
    decreases |b|
  {
    if b == [] {
      assert a + b == a;
      ThenUnit(Fold(step, a));
    } else {
      var b' := b[..|b| - 1];
      assert (a + b)[..|a + b| - 1] == a + b';
      assert (a + b)[|a + b| - 1] == b[|b| - 1];
      FoldConcat(step, a, b');
      ThenAssoc(Fold(step, a), Fold(step, b'), step(b[|b| - 1]));
    }
  }

  lemma FoldOne(step: Visit -> Result<string, RenderError>, v: Visit)
    ensures Fold(step, [v]) == step(v)
  {
    assert [v][..0] == [];
    ThenUnit(step(v));
  }

  /**
    Running the callbacks along `walk` makes the node's enter output, then each child's
    output in list order, then its exit output.
  */
  lemma {:induction false} FoldWalk(step: Visit -> Result<string, RenderError>, t: Node, p: seq<nat>)
    requires ValidPath(t, p)
    ensures Fold(step, Walk(t, p)) == Nested(step, t, p)
    decreases NodeAt(t, p), 1, 0
  {
    FoldWalkFrom(step, t, p, 0);
    FoldOne(step, Enter(p));
    FoldOne(step, Exit(p));
    FoldConcat(step, [Enter(p)], WalkFrom(t, p, 0));
    FoldConcat(step, [Enter(p)] + WalkFrom(t, p, 0), [Exit(p)]);
  }

  lemma {:induction false} FoldWalkFrom(step: Visit -> Result<string, RenderError>, t: Node, p: seq<nat>, i: nat)
    requires ValidPath(t, p) && i <= |NodeAt(t, p).children|
    ensures Fold(step, WalkFrom(t, p, i)) == NestedFrom(step, t, p, i)
    decreases NodeAt(t, p), 0, |NodeAt(t, p).children| - i
  {
    if i < |NodeAt(t, p).children| {
      ChildAt(t, p, i);
      var head := Walk(t, p + [i]);
      var tail := WalkFrom(t, p, i + 1);
      assert WalkFrom(t, p, i) == head + tail;
      assert NestedFrom(step, t, p, i) == Then(Nested(step, t, p + [i]), NestedFrom(step, t, p, i + 1));
      FoldWalk(step, t, p + [i]);
      FoldWalkFrom(step, t, p, i + 1);
      FoldConcat(step, head, tail);
    }
  }

  lemma FoldStep(step: Visit -> Result<string, RenderError>, vs: seq<Visit>, i: nat)
    requires i < |vs|
    ensures Fold(step, vs[..i + 1]) == Then(Fold(step, vs[..i]), step(vs[i]))
  {
    assert vs[..i + 1][..i] == vs[..i] && vs[..i + 1][i] == vs[i];
  }

  /** Once a callback raises, the whole run raises that error. */
  lemma FoldFailed(step: Visit -> Result<string, RenderError>, vs: seq<Visit>, k: nat)
    requires k <= |vs| && Fold(step, vs[..k]).Err?
    ensures Fold(step, vs) == Fold(step, vs[..k])
  {
    FoldConcat(step, vs[..k], vs[k..]);
    assert vs[..k] + vs[k..] == vs;
  }

  // ---------------------------------------------------------------------------------
  // Errors

  lemma {:induction false} FoldOkIff(step: Visit -> Result<string, RenderError>, vs: seq<Visit>)
    ensures Fold(step, vs).Ok? <==> forall i :: 0 <= i < |vs| ==> step(vs[i]).Ok?
    decreases |vs|
  {
    if vs != [] {
      var n := |vs| - 1;
      FoldOkIff(step, vs[..n]);
      assert forall i :: 0 <= i < n ==> vs[..n][i] == vs[i];
    }
  }

  /** A failed run raises the error of the first callback that raises. */
  lemma {:induction false} FoldFirstError(step: Visit -> Result<string, RenderError>, vs: seq<Visit>)
    requires Fold(step, vs).Err?
    ensures exists k :: 0 <= k < |vs| && step(vs[k]).Err? && Fold(step, vs).error == step(vs[k]).error &&
                        forall i :: 0 <= i < k ==> step(vs[i]).Ok?
    decreases |vs|
  {
    var n := |vs| - 1;
    assert forall i :: 0 <= i < n ==> vs[..n][i] == vs[i];
    if Fold(step, vs[..n]).Err? {
      FoldFirstError(step, vs[..n]);
      var k :| 0 <= k < n && step(vs[..n][k]).Err? && Fold(step, vs[..n]).error == step(vs[..n][k]).error &&
        forall i :: 0 <= i < k ==> step(vs[..n][i]).Ok?;
      assert step(vs[k]).Err?;
    } else {
      FoldOkIff(step, vs[..n]);
      assert step(vs[n]).Err?;
    }
  }

  /** A reference whose identifier the root defines, or a node that is not a reference. */
  predicate Resolved(t: Node, p: seq<nat>)
    requires ValidPath(t, p)
  {
    match NodeAt(t, p).kind
    case LinkReference(id) => id in RootDefinitions(t)
    case ImageReference(_, id) => id in RootDefinitions(t)
    case _ => true
  }

  /** Entering fails exactly for a type without a handler (unless skipped) and for an unresolved reference. */
  lemma EnterStepFails(t: Node, p: seq<nat>, o: Options)
    requires ValidPath(t, p)
    ensures EnterStep(t, p, o).Err? <==> (NodeAt(t, p).kind.Other? && !o.skipMissingEnter) || !Resolved(t, p)
    ensures EnterStep(t, p, o).Err? && NodeAt(t, p).kind.Other? ==>
      EnterStep(t, p, o).error == NoEnter(NodeAt(t, p).kind.name)
    ensures EnterStep(t, p, o).Err? && NodeAt(t, p).kind.LinkReference? ==>
      EnterStep(t, p, o).error == NoDefinition(NodeAt(t, p).kind.identifier)
    ensures EnterStep(t, p, o).Err? && NodeAt(t, p).kind.ImageReference? ==>
      EnterStep(t, p, o).error == NoDefinition(NodeAt(t, p).kind.identifier)
  {
    EnterHandlerFails(t, p);
    var m := EnterMarkup(t, p, o);
    assert EnterStep(t, p, o).Err? <==> m.Err?;
    assert m.Err? ==> EnterStep(t, p, o).error == m.error;
  }

  /** Only a type without a handler has none, and only an unresolved reference's handler raises. */
  lemma EnterHandlerFails(t: Node, p: seq<nat>)
    requires ValidPath(t, p)
    ensures EnterHandler(t, p).None? <==> NodeAt(t, p).kind.Other?
    ensures EnterHandler(t, p).Some? ==> (EnterHandler(t, p).value.Err? <==> !Resolved(t, p))
    ensures EnterHandler(t, p).Some? && EnterHandler(t, p).value.Err? ==>
      EnterHandler(t, p).value.error == NoDefinition(NodeAt(t, p).kind.identifier)
  {
  }

  /** Exiting fails exactly for a type without an exit handler, and only when missing ones are not skipped. */
  lemma ExitStepFails(t: Node, p: seq<nat>, o: Options)
    requires ValidPath(t, p)
    ensures var k := NodeAt(t, p).kind;
      ExitStep(t, p, o).Err? <==>
        !o.skipMissingExit && !(k.Paragraph? || k.Heading? || k.List? || k.ListItem? || k.Blockquote? || k.Emphasis? || k.Strong? || k.Link? || k.LinkReference?)
    ensures ExitStep(t, p, o).Err? ==> ExitStep(t, p, o).error == NoExit(TypeName(NodeAt(t, p).kind))
  {
  }

  /** Rendering succeeds exactly when entering and exiting every node of the tree succeed. */
  lemma RenderOkIff(t: Node, o: Options)
    ensures RenderAt(t, [], o).Ok? <==> forall q :: ValidPath(t, q) ==> EnterStep(t, q, o).Ok? && ExitStep(t, q, o).Ok?
  {
    var step := StepOf(t, o);
    var vs := Walk(t, []);
    FoldWalk(step, t, []);
    FoldOkIff(step, vs);
    WalkStaysInSubtree(t, []);
    if RenderAt(t, [], o).Ok? {
      forall q | ValidPath(t, q) ensures EnterStep(t, q, o).Ok? && ExitStep(t, q, o).Ok? {
        WalkReachesSubtree(t, [], q);
        var i :| 0 <= i < |vs| && vs[i] == Enter(q);
        var j :| 0 <= j < |vs| && vs[j] == Exit(q);
        assert step(vs[i]) == EnterStep(t, q, o);
        assert step(vs[j]) == ExitStep(t, q, o);
      }
    } else {
      var i :| 0 <= i < |vs| && step(vs[i]).Err?;
      assert vs[i] in vs;
      assert ValidPath(t, vs[i].path);
    }
  }

  /**
    With the default options rendering succeeds exactly when every node has a known type
    and every reference is defined by the root.
  */
  lemma DefaultRenderOk(t: Node)
    ensures RenderAt(t, [], Defaults).Ok? <==> forall q :: ValidPath(t, q) ==> !NodeAt(t, q).kind.Other? && Resolved(t, q)
  {
    RenderOkIff(t, Defaults);
    forall q | ValidPath(t, q)
      ensures EnterStep(t, q, Defaults).Ok? && ExitStep(t, q, Defaults).Ok? <==> !NodeAt(t, q).kind.Other? && Resolved(t, q)
    {
      EnterStepFails(t, q, Defaults);
      ExitStepFails(t, q, Defaults);
    }
  }

  /** A failed render raises the error of the first callback of the walk that raises. */
  lemma RenderFirstError(t: Node, o: Options)
    requires RenderAt(t, [], o).Err?
    ensures exists k :: 0 <= k < |Walk(t, [])| && ValidPath(t, Walk(t, [])[k].path) &&
                        Step(t, o, Walk(t, [])[k]) == Err(RenderAt(t, [], o).error) &&
                        forall i :: 0 <= i < k ==> Step(t, o, Walk(t, [])[i]).Ok?
  {
    var step := StepOf(t, o);
    var vs := Walk(t, []);
    FoldWalk(step, t, []);
    FoldFirstError(step, vs);
    var k :| 0 <= k < |vs| && step(vs[k]).Err? && Fold(step, vs).error == step(vs[k]).error &&
      forall i :: 0 <= i < k ==> step(vs[i]).Ok?;
    assert vs[k] in vs;
    WalkStaysInSubtree(t, []);
  }

  /** A node of a type without a handler makes the whole render raise, unless missing handlers are skipped. */
  lemma UnknownTypeRaises(t: Node, q: seq<nat>, o: Options)
    requires ValidPath(t, q) && NodeAt(t, q).kind.Other? && !o.skipMissingEnter
    ensures RenderAt(t, [], o).Err?
  {
    RenderOkIff(t, o);
    EnterStepFails(t, q, o);
  }

  /** A reference the root does not define makes the whole render raise, whatever the options. */
  lemma UndefinedReferenceRaises(t: Node, q: seq<nat>, o: Options)
    requires ValidPath(t, q) && !Resolved(t, q)
    ensures RenderAt(t, [], o).Err?
  {
    RenderOkIff(t, o);
    EnterStepFails(t, q, o);
  }

  // ---------------------------------------------------------------------------------
  // Hidden paragraphs and newlines

  /** The node `k` levels above the one at `p`. */
  function Up(t: Node, p: seq<nat>, k: nat): Node
    requires ValidPath(t, p) && k <= |p|
  {
    PrefixValid(t, p, |p| - k);
    NodeAt(t, p[..|p| - k])
  }

  /** A paragraph is hidden exactly when it sits two levels below a list that is not spread. */
  lemma HiddenIff(t: Node, p: seq<nat>)
    requires ValidPath(t, p)
    ensures Hidden(t, p) <==> NodeAt(t, p).kind.Paragraph? && |p| >= 2 && Tight(Up(t, p, 2))
  {
    if |p| >= 1 {
      var q := Parent(t, At(p));
      assert q.path == p[..|p| - 1] by { assert p == q.path + [p[|p| - 1]]; }
      if |p| >= 2 {
        var g := Parent(t, q);
        assert g.path == p[..|p| - 2] by {
          assert q.path == g.path + [q.path[|q.path| - 1]];
          assert p[..|p| - 1][..|p| - 2] == p[..|p| - 2];
        }
      }
    }
  }

  /** Every paragraph directly inside an item of a list is hidden exactly when the list is not spread. */
  lemma ListParagraphsHidden(t: Node, p: seq<nat>)
    requires ValidPath(t, p) && NodeAt(t, p).kind.List?
    ensures forall q :: ValidPath(t, q) && |q| == |p| + 2 && p <= q && NodeAt(t, q).kind.Paragraph? ==>
      (Hidden(t, q) <==> !NodeAt(t, p).kind.spread)
  {
    forall q | ValidPath(t, q) && |q| == |p| + 2 && p <= q && NodeAt(t, q).kind.Paragraph?
      ensures Hidden(t, q) <==> !NodeAt(t, p).kind.spread
    {
      HiddenIff(t, q);
      assert q[..|q| - 2] == p;
    }
  }

  /** A hidden paragraph writes no tags; it ends with a newline only when a sibling follows it. */
  lemma HiddenParagraphSilent(t: Node, p: seq<nat>, o: Options)
    requires ValidPath(t, p) && Hidden(t, p)
    ensures EnterStep(t, p, o) == Ok("")
    ensures ExitStep(t, p, o) == Ok(if HasNextSibling(t, p) then "\n" else "")
  {
    assert NodeAt(t, p).kind == Paragraph;
    assert EnterHandler(t, p) == Some(Ok(""));
    assert EnterMarkup(t, p, o) == Ok("");
    assert !EnterNewline(t, p);
    assert "" + "" == "";
    assert ExitHandler(t, p) == Some("");
    assert ExitNewline(t, p) == if HasNextSibling(t, p) then "\n" else "";
    assert "" + "\n" == "\n";
  }

  /** A paragraph that is not hidden is wrapped in `<p>` and `</p>` and followed by a newline. */
  lemma ShownParagraph(t: Node, p: seq<nat>, o: Options)
    requires ValidPath(t, p) && NodeAt(t, p).kind.Paragraph? && !Hidden(t, p)
    ensures EnterStep(t, p, o) == Ok("<p>")
    ensures ExitStep(t, p, o) == Ok("</p>\n")
  {
    assert "<p>" + "" == "<p>" && "</p>" + "\n" == "</p>\n";
  }

  /**
    A list item opens with `<li>` and a newline, except when it is empty or its first
    child is a paragraph of a list that is not spread.
  */
  lemma ListItemOpening(t: Node, p: seq<nat>, o: Options)
    requires ValidPath(t, p) && NodeAt(t, p).kind.ListItem?
    ensures NodeAt(t, p).children == [] ==> EnterStep(t, p, o) == Ok("<li>")
    ensures NodeAt(t, p).children != [] && NodeAt(t, p).children[0].kind.Paragraph? && p != [] && Tight(Up(t, p, 1)) ==>
      EnterStep(t, p, o) == Ok("<li>")
    ensures NodeAt(t, p).children != [] && !(NodeAt(t, p).children[0].kind.Paragraph? && p != [] && Tight(Up(t, p, 1))) ==>
      EnterStep(t, p, o) == Ok("<li>\n")
    ensures ExitStep(t, p, o) == Ok("</li>\n")
  {
    assert EnterMarkup(t, p, o) == Ok("<li>");
    assert !Hidden(t, p) && ExitHandler(t, p) == Some("</li>") && ExitNewline(t, p) == "\n";
    if NodeAt(t, p).children != [] {
      FirstChildHidden(t, p);
    }
    assert "<li>" + "" == "<li>" && "<li>" + "\n" == "<li>\n" && "</li>" + "\n" == "</li>\n";
  }

  /** The first child is a hidden paragraph exactly when it is a paragraph and the parent sits in a tight list. */
  lemma FirstChildHidden(t: Node, p: seq<nat>)
    requires ValidPath(t, p) && NodeAt(t, p).children != []
    ensures ValidPath(t, p + [0])
    ensures Hidden(t, p + [0]) <==> NodeAt(t, p).children[0].kind.Paragraph? && p != [] && Tight(Up(t, p, 1))
  {
    ChildAt(t, p, 0);
    HiddenIff(t, p + [0]);
    if p != [] {
      assert (p + [0])[..|p + [0]| - 2] == p[..|p| - 1];
    }
  }

  /** A blockquote opens with a newline unless its first child is a paragraph of a list that is not spread. */
  lemma BlockquoteOpening(t: Node, p: seq<nat>, o: Options)
    requires ValidPath(t, p) && NodeAt(t, p).kind.Blockquote?
    ensures NodeAt(t, p).children != [] && NodeAt(t, p).children[0].kind.Paragraph? && p != [] && Tight(Up(t, p, 1)) ==>
      EnterStep(t, p, o) == Ok("<blockquote>")
    ensures !(NodeAt(t, p).children != [] && NodeAt(t, p).children[0].kind.Paragraph? && p != [] && Tight(Up(t, p, 1))) ==>
      EnterStep(t, p, o) == Ok("<blockquote>\n")
    ensures ExitStep(t, p, o) == Ok("</blockquote>\n")
  {
    assert EnterMarkup(t, p, o) == Ok("<blockquote>");
    assert !Hidden(t, p) && ExitHandler(t, p) == Some("</blockquote>") && ExitNewline(t, p) == "\n";
    if NodeAt(t, p).children != [] {
      FirstChildHidden(t, p);
    }
    assert "<blockquote>" + "" == "<blockquote>" && "<blockquote>" + "\n" == "<blockquote>\n";
    assert "</blockquote>" + "\n" == "</blockquote>\n";
  }

  /**
    A code block without children ends its opening markup with a newline; having no exit
    handler it adds nothing on exit, so neither code nor raw html gets a closing newline.
  */
  lemma CodeAndHtmlClosing(t: Node, p: seq<nat>)
    requires ValidPath(t, p) && (NodeAt(t, p).kind.Code? || NodeAt(t, p).kind.Html?)
    ensures NodeAt(t, p).kind.Code? && NodeAt(t, p).children == [] ==>
      EnterStep(t, p, Defaults).Ok? && EnterStep(t, p, Defaults).value[|EnterStep(t, p, Defaults).value| - 1] == '\n'
    ensures NodeAt(t, p).kind.Html? ==> EnterStep(t, p, Defaults) == Ok(NodeAt(t, p).kind.value)
    ensures ExitStep(t, p, Defaults) == Ok("")
    ensures ExitStep(t, p, Options(false, false)) == Err(NoExit(TypeName(NodeAt(t, p).kind)))
  {
    ThenUnit(EnterMarkup(t, p, Defaults));
  }

  /**
    A code block opens `<pre><code>`, with a `language-` class only for a non-empty
    `lang`, then its escaped value and `</code></pre>`; a newline follows unless its first
    child is hidden.
  */
  lemma CodeOpening(t: Node, p: seq<nat>, o: Options)
    requires ValidPath(t, p) && NodeAt(t, p).kind.Code?
    ensures var k := NodeAt(t, p).kind;
      var nl := if NodeAt(t, p).children != [] && NodeAt(t, p).children[0].kind.Paragraph? && p != [] && Tight(Up(t, p, 1)) then "" else "\n";
      EnterStep(t, p, o) ==
        Ok((if NonEmpty(k.lang) then "<pre><code class=\"language-" + k.lang.value + "\">" else "<pre><code>") +
           EscapeHtml(k.value) + "</code></pre>" + nl)
    ensures EscapesTo(EscapeHtml(NodeAt(t, p).kind.value), NodeAt(t, p).kind.value)
  {
    var k := NodeAt(t, p).kind;
    var open := if NonEmpty(k.lang) then "<pre><code class=\"language-" + k.lang.value + "\">" else "<pre><code>";
    assert EnterMarkup(t, p, o) == Ok(open + EscapeHtml(k.value) + "</code></pre>");
    if NodeAt(t, p).children != [] {
      FirstChildHidden(t, p);
    }
    Escapes(k.value);
  }

  // ---------------------------------------------------------------------------------
  // Tags and attributes

  /** List tags: `<ol start="n">` reads back as the list's start, and the closing tag matches the opening one. */
  lemma ListTags(t: Node, p: seq<nat>, o: Options)
    requires ValidPath(t, p) && NodeAt(t, p).kind.List?
    ensures var k := NodeAt(t, p).kind;
      EnterMarkup(t, p, o).Ok? &&
      (k.ordered && k.start.Some? ==>
        var m := EnterMarkup(t, p, o).value;
        |m| >= 13 && m[..11] == "<ol start=\"" && m[|m| - 2..] == "\">" &&
        Numerals.ParseInt(m[11..|m| - 2]) == Some(k.start.value)) &&
      (k.ordered && k.start.None? ==> EnterMarkup(t, p, o).value == "<ol>") &&
      (k.ordered ==> EnterMarkup(t, p, o).value[..3] == "<ol" && ExitHandler(t, p) == Some("</ol>")) &&
      (!k.ordered ==> EnterMarkup(t, p, o).value == "<ul>" && ExitHandler(t, p) == Some("</ul>"))
    ensures NodeAt(t, p).children != [] && NodeAt(t, p).children[0].kind.Paragraph? && p != [] && Tight(Up(t, p, 1)) ==>
      EnterStep(t, p, o) == EnterMarkup(t, p, o)
    ensures !(NodeAt(t, p).children != [] && NodeAt(t, p).children[0].kind.Paragraph? && p != [] && Tight(Up(t, p, 1))) ==>
      EnterStep(t, p, o) == Ok(EnterMarkup(t, p, o).value + "\n")
    ensures ExitStep(t, p, o) == Ok((if NodeAt(t, p).kind.ordered then "</ol>" else "</ul>") + "\n")
  {
    ListSteps(t, p, o);
    var k := NodeAt(t, p).kind;
    if k.ordered && k.start.Some? {
      var s := Numerals.FormatInt(k.start.value);
      assert EnterMarkup(t, p, o) == Ok("<ol start=\"" + s + "\">");
      OlStart(s);
      Numerals.ParseFormatRoundTrip(k.start.value);
    } else {
      assert EnterMarkup(t, p, o) == Ok(if k.ordered then "<ol>" else "<ul>");
    }
  }

  /** A list's opening gets a newline unless its first child is hidden; its closing always gets one. */
  lemma ListSteps(t: Node, p: seq<nat>, o: Options)
    requires ValidPath(t, p) && NodeAt(t, p).kind.List?
    ensures EnterMarkup(t, p, o).Ok?
    ensures NodeAt(t, p).children != [] && NodeAt(t, p).children[0].kind.Paragraph? && p != [] && Tight(Up(t, p, 1)) ==>
      EnterStep(t, p, o) == EnterMarkup(t, p, o)
    ensures !(NodeAt(t, p).children != [] && NodeAt(t, p).children[0].kind.Paragraph? && p != [] && Tight(Up(t, p, 1))) ==>
      EnterStep(t, p, o) == Ok(EnterMarkup(t, p, o).value + "\n")
    ensures ExitStep(t, p, o) == Ok((if NodeAt(t, p).kind.ordered then "</ol>" else "</ul>") + "\n")
  {
    assert EnterMarkup(t, p, o).Ok?;
    ThenUnit(EnterMarkup(t, p, o));
    assert !Hidden(t, p) && ExitNewline(t, p) == "\n";
    if NodeAt(t, p).children != [] {
      FirstChildHidden(t, p);
    }
  }

  lemma OlStart(s: string)
    requires |s| >= 1
    ensures var m := "<ol start=\"" + s + "\">";
      |m| >= 13 && m[..11] == "<ol start=\"" && m[|m| - 2..] == "\">" && m[11..|m| - 2] == s && m[..3] == "<ol"
  {
    var m := "<ol start=\"" + s + "\">";
    assert m[..11] == "<ol start=\"";
    assert m[..3] == m[..11][..3];
  }

  /** Heading tags: the opening and closing tags carry the same number, which reads back as the depth. */
  lemma HeadingTags(t: Node, p: seq<nat>, o: Options)
    requires ValidPath(t, p) && NodeAt(t, p).kind.Heading?
    ensures exists s :: s == Numerals.FormatInt(NodeAt(t, p).kind.depth) && Numerals.ParseInt(s) == Some(NodeAt(t, p).kind.depth) &&
                        EnterStep(t, p, o) == Ok("<h" + s + ">") && ExitStep(t, p, o) == Ok("</h" + s + ">\n")
  {
    var s := Numerals.FormatInt(NodeAt(t, p).kind.depth);
    Numerals.ParseFormatRoundTrip(NodeAt(t, p).kind.depth);
    ThenUnit(EnterMarkup(t, p, o));
    assert EnterStep(t, p, o) == Ok("<h" + s + ">");
    assert ExitStep(t, p, o) == Ok("</h" + s + ">" + "\n");
    assert "</h" + s + ">" + "\n" == "</h" + s + ">\n";
  }

  /** What the escaped text holds: no `<`, `>` or `"`, and the entities read back to the text. */
  predicate EscapesTo(e: string, s: string) {
    Unescape(e) == s && forall i :: 0 <= i < |e| ==> e[i] != '<' && e[i] != '>' && e[i] != '"'
  }

  lemma Escapes(s: string)
    ensures EscapesTo(EscapeHtml(s), s)
  {
    UnescapeEscape(s);
    EscapeHtmlSafe(s);
  }

  /** A text node writes its value escaped, so it opens no tag and reads back to the value. */
  lemma TextEscaped(t: Node, p: seq<nat>, o: Options)
    requires ValidPath(t, p) && NodeAt(t, p).kind.Text?
    ensures EnterStep(t, p, o).Ok? && EscapesTo(EnterStep(t, p, o).value, NodeAt(t, p).kind.value)
  {
    Escapes(NodeAt(t, p).kind.value);
    assert EnterStep(t, p, o).value == EscapeHtml(NodeAt(t, p).kind.value);
  }

  /** Inline code is its escaped value between `<code>` and `</code>`. */
  lemma InlineCodeEscaped(t: Node, p: seq<nat>, o: Options)
    requires ValidPath(t, p) && NodeAt(t, p).kind.InlineCode?
    ensures EnterStep(t, p, o).Ok?
    ensures var m := EnterStep(t, p, o).value;
      |m| >= 13 && m[..6] == "<code>" && m[|m| - 7..] == "</code>" && EscapesTo(m[6..|m| - 7], NodeAt(t, p).kind.value)
  {
    var e := EscapeHtml(NodeAt(t, p).kind.value);
    Escapes(NodeAt(t, p).kind.value);
    var m := "<code>" + e + "</code>";
    assert m[6..|m| - 7] == e;
    ThenUnit(EnterMarkup(t, p, o));
  }

  /** The text of `s` before its first `"`. */
  function UpToQuote(s: string): (r: string)
    ensures |r| <= |s| && r == s[..|r|]
  {
    if s == [] || s[0] == '"' then "" else [s[0]] + UpToQuote(s[1..])
  }

  lemma {:induction false} UpToQuoteOf(e: string, rest: string)
    requires forall i :: 0 <= i < |e| ==> e[i] != '"'
    requires rest != [] && rest[0] == '"'
    ensures UpToQuote(e + rest) == e
  {
    if e != [] {
      assert (e + rest)[1..] == e[1..] + rest;
      UpToQuoteOf(e[1..], rest);
      assert e == [e[0]] + e[1..];
    } else {
      assert e + rest == rest;
    }
  }

  /**
    Reads an attribute back from the front of `s`: `prefix`, then an escaped value up to
    its closing `"`. Gives the value unescaped and what follows the closing quote.
  */
  function ReadAttr(s: string, prefix: string): Option<(string, string)> {
    if |prefix| <= |s| && s[..|prefix|] == prefix then
      var v := UpToQuote(s[|prefix|..]);
      if |prefix| + |v| < |s| then Some((Unescape(v), s[|prefix| + |v| + 1..])) else None
    else None
  }

  /** An escaped value between `prefix` and a closing quote reads back as the value. */
  lemma ReadAttrOf(prefix: string, x: string, rest: string)
    ensures ReadAttr(prefix + EscapeHtml(x) + "\"" + rest, prefix) == Some((x, rest))
  {
    var e := EscapeHtml(x);
    var s := prefix + e + "\"" + rest;
    Escapes(x);
    assert s[..|prefix|] == prefix;
    assert s[|prefix|..] == e + ("\"" + rest);
    UpToQuoteOf(e, "\"" + rest);
    assert s[|prefix| + |e| + 1..] == rest;
  }

  /** The opening `<a>` tag reads back as the url, then the title exactly when it is non-empty. */
  lemma AnchorReadsBack(url: string, title: Option<string>)
    ensures var r := ReadAttr(Anchor(url, title), "<a href=\"");
      r.Some? && r.value.0 == url &&
      (NonEmpty(title) ==> ReadAttr(r.value.1, " title=\"") == Some((title.value, ">"))) &&
      (!NonEmpty(title) ==> r.value.1 == ">")
  {
    ReadAttrOf("<a href=\"", url, TitleAttr(title) + ">");
    if NonEmpty(title) {
      ReadAttrOf(" title=\"", title.value, ">");
    } else {
      assert "" + ">" == ">";
    }
  }

  /** The `<img />` tag reads back as the url, the alt text, then the title exactly when it is non-empty. */
  lemma ImgReadsBack(url: string, alt: string, title: Option<string>)
    ensures var r := ReadAttr(Img(url, alt, title), "<img src=\"");
      r.Some? && r.value.0 == url &&
      var a := ReadAttr(r.value.1, " alt=\"");
      a.Some? && a.value.0 == alt &&
      (NonEmpty(title) ==> ReadAttr(a.value.1, " title=\"") == Some((title.value, " />"))) &&
      (!NonEmpty(title) ==> a.value.1 == " />")
  {
    var tail := TitleAttr(title) + " />";
    ReadAttrOf("<img src=\"", url, " alt=\"" + EscapeHtml(alt) + "\"" + tail);
    ReadAttrOf(" alt=\"", alt, tail);
    if NonEmpty(title) {
      ReadAttrOf(" title=\"", title.value, " />");
    } else {
      assert "" + " />" == " />";
    }
  }

  /** A link reference to a defined identifier renders as a link with the definition's url and title would. */
  lemma LinkReferenceResolves(t: Node, p: seq<nat>, o: Options)
    requires ValidPath(t, p) && NodeAt(t, p).kind.LinkReference?
    ensures var id := NodeAt(t, p).kind.identifier;
      (id !in RootDefinitions(t) ==> EnterStep(t, p, o) == Err(NoDefinition(id))) &&
      (id in RootDefinitions(t) ==>
        var d := RootDefinitions(t)[id];
        var link := Node(Link(d.url, Some(d.title)), None, NodeAt(t, p).children);
        EnterStep(t, p, o) == EnterStep(link, [], o) && ExitStep(t, p, o) == ExitStep(link, [], o))
  {
    var id := NodeAt(t, p).kind.identifier;
    if id in RootDefinitions(t) {
      var d := RootDefinitions(t)[id];
      var link := Node(Link(d.url, Some(d.title)), None, NodeAt(t, p).children);
      assert EnterMarkup(t, p, o) == Ok(Anchor(d.url, Some(d.title))) == EnterMarkup(link, [], o);
      assert !EnterNewline(t, p) && !EnterNewline(link, []);
    }
  }

  /** An image reference to a defined identifier renders as an image with the definition's url and title would. */
  lemma ImageReferenceResolves(t: Node, p: seq<nat>, o: Options)
    requires ValidPath(t, p) && NodeAt(t, p).kind.ImageReference?
    ensures var k := NodeAt(t, p).kind;
      (k.identifier !in RootDefinitions(t) ==> EnterStep(t, p, o) == Err(NoDefinition(k.identifier))) &&
      (k.identifier in RootDefinitions(t) ==>
        var d := RootDefinitions(t)[k.identifier];
        var image := Node(Image(d.url, k.alt, Some(d.title)), None, NodeAt(t, p).children);
        EnterStep(t, p, o) == EnterStep(image, [], o) &&
        (o.skipMissingExit ==> ExitStep(t, p, o) == ExitStep(image, [], o) == Ok("")))
  {
    var k := NodeAt(t, p).kind;
    if k.identifier in RootDefinitions(t) {
      var d := RootDefinitions(t)[k.identifier];
      var image := Node(Image(d.url, k.alt, Some(d.title)), None, NodeAt(t, p).children);
      assert EnterMarkup(t, p, o) == Ok(Img(d.url, k.alt, Some(d.title))) == EnterMarkup(image, [], o);
      assert !EnterNewline(t, p) && !EnterNewline(image, []);
      assert ExitHandler(t, p).None? && ExitHandler(image, []).None?;
    }
  }

  // ---------------------------------------------------------------------------------
  // A worked document

  lemma NestedLeaf(step: Visit -> Result<string, RenderError>, t: Node, p: seq<nat>)
    requires ValidPath(t, p) && NodeAt(t, p).children == []
    ensures Nested(step, t, p) == Then(step(Enter(p)), step(Exit(p)))
  {
    ThenUnit(step(Enter(p)));
  }

  /** A text leaf renders as its escaped value. */
  lemma TextLeaf(t: Node, p: seq<nat>, o: Options)
    requires ValidPath(t, p) && NodeAt(t, p).kind.Text? && NodeAt(t, p).children == [] && o.skipMissingExit
    ensures RenderAt(t, p, o) == Ok(EscapeHtml(NodeAt(t, p).kind.value))
  {
    NestedLeaf(StepOf(t, o), t, p);
    ThenUnit(EnterMarkup(t, p, o));
    ThenUnit(EnterStep(t, p, o));
  }

  /** With `foo` defined as `/x` without a title, a reference to `foo` opens `<a href="/x">`; one to `bar` raises. */
  lemma ReferenceExample(t: Node, p: seq<nat>, o: Options)
    requires RootDefinitions(t) == map["foo" := RefTarget("/x", "")]
    requires ValidPath(t, p) && NodeAt(t, p).kind.LinkReference?
    ensures NodeAt(t, p).kind.identifier == "foo" ==> EnterStep(t, p, o) == Ok("<a href=\"/x\">")
    ensures NodeAt(t, p).kind.identifier == "bar" ==> EnterStep(t, p, o) == Err(NoDefinition("bar"))
  {
    EscapeHtmlCons('/', "x");
    EscapeHtmlCons('x', "");
    assert EscapeHtml("/x") == "/x";
    assert Anchor("/x", Some("")) == "<a href=\"/x\">";
    ThenUnit(EnterMarkup(t, p, o));
  }
}
