/**
  The markdown-it token stream the tree builder consumes, and the per-type `transform_*`
  functions of `src/myst_spec_py/mdit_to_mdast.py` that turn one token into the type and
  attributes of one mdast node.
*/
module MditTransforms {
  import opened Wrappers
  import opened Mdast
  import Numerals

  /** `token.map`: the source lines the token covers. */
  datatype LineRange = LineRange(begin: int, end: int)

  /**
    A markdown-it token. `ttype` is the token type name ("paragraph_open", "inline", ...);
    `children` are the inline tokens of an `inline` or `image` token (the empty sequence
    where markdown-it has None); `attrs` and `meta` hold string values; `info` is the fence
    info string, taken as already unescaped.
  */
  datatype Token = Token(
    ttype: string,
    tag: string,
    nesting: int,
    content: string,
    markup: string,
    info: string,
    hidden: bool,
    sourceMap: Option<LineRange>,
    attrs: map<string, string>,
    meta: map<string, string>,
    children: seq<Token>)

  /** The errors the tree builder raises. */
  datatype BuildError =
    | InvalidNesting(nesting: int)          // a token that neither opens nor is terminal
    | Unclosed(opening: Token)              // the stream ends inside an opened token
    | NoTransform(tokenType: string)        // no `transform_<type>` for the token
    | Malformed(tokenType: string, field: string)  // a transform found a key or value missing

  /** The token types that have a `transform_<type>` function. */
  const TransformTypes: set<string> := {
    "paragraph_open", "text", "heading_open", "hr", "blockquote_open", "bullet_list_open",
    "ordered_list_open", "list_item_open", "html_inline", "html_block", "fence", "code_block",
    "definition", "em_open", "strong_open", "code_inline", "hardbreak", "softbreak",
    "link_open", "image"}

  /** `transform_<type>` dispatch: the node type and attributes made from one token. */
  function TransformToken(t: Token): (r: Result<Kind, BuildError>)
    ensures r == Err(NoTransform(t.ttype)) <==> t.ttype !in TransformTypes
    ensures r.Err? && r.error.NoTransform? ==> r.error.tokenType == t.ttype
    ensures r.Ok? && r.value.List? ==> r.value.spread
    ensures r.Ok? ==> !r.value.Other? && !r.value.Root?
  {
    match t.ttype
    case "paragraph_open" => Ok(Paragraph)
    case "text" => Ok(Text(t.content))
    case "heading_open" =>
      (match HeadingDepth(t.tag)
       case None => Err(Malformed(t.ttype, "tag"))
       case Some(d) => Ok(Heading(d, t.markup)))
    case "hr" => Ok(ThematicBreak(t.markup))
    case "blockquote_open" => Ok(Blockquote(t.markup))
    case "bullet_list_open" => Ok(List(false, true, None, t.markup))
    case "ordered_list_open" =>
      if "start" in t.attrs then
        (match Numerals.ParseInt(t.attrs["start"])
         case None => Err(Malformed(t.ttype, "start"))
         case Some(n) => Ok(List(true, true, Some(n), t.markup)))
      else Ok(List(true, true, None, t.markup))
    case "list_item_open" => Ok(ListItem(t.markup))
    case "html_inline" => Ok(Html(t.content))
    case "html_block" => Ok(Html(t.content))
    case "fence" =>
      var parts := SplitOnce(t.info);
      Ok(Code(t.content,
              if |parts| >= 1 then Some(parts[0]) else None,
              if |parts| >= 2 then Some(parts[1]) else None,
              Some(t.markup)))
    case "code_block" => Ok(Code(t.content, None, None, None))
    case "definition" => TransformDefinition(t)
    case "em_open" => Ok(Emphasis(t.markup))
    case "strong_open" => Ok(Strong(t.markup))
    case "code_inline" => Ok(InlineCode(t.content, t.markup))
    case "hardbreak" => Ok(Break)
    case "softbreak" => Ok(Text("\n"))
    case "link_open" =>
      if "label" in t.meta then Ok(LinkReference(t.meta["label"]))
      else if "href" !in t.attrs then Err(Malformed(t.ttype, "href"))
      else Ok(Link(t.attrs["href"], if "title" in t.attrs then Some(t.attrs["title"]) else None))
    case "image" => TransformImage(t, InlineText(t.children))
    case _ => Err(NoTransform(t.ttype))
  }

  /** `int(tag[1])`: the digit after the `h` of a heading tag; None where Python raises. */
  function HeadingDepth(tag: string): (d: Option<int>)
    ensures d.Some? <==> |tag| >= 2 && Numerals.IsDigit(tag[1])
    ensures d.Some? ==> 0 <= d.value <= 9 && Numerals.FormatInt(d.value) == [tag[1]]
  {
    if |tag| >= 2 && Numerals.IsDigit(tag[1]) then Some(Numerals.DigitValue(tag[1])) else None
  }

  /** `transform_definition`: the four `meta` keys, read in order; a missing one raises. */
  function TransformDefinition(t: Token): Result<Kind, BuildError> {
    if "id" !in t.meta then Err(Malformed(t.ttype, "id"))
    else if "label" !in t.meta then Err(Malformed(t.ttype, "label"))
    else if "url" !in t.meta then Err(Malformed(t.ttype, "url"))
    else if "title" !in t.meta then Err(Malformed(t.ttype, "title"))
    else Ok(Definition(t.meta["id"], t.meta["label"], t.meta["url"], t.meta["title"]))
  }

  /** `transform_image`, given the `alt` text already flattened from the token's children. */
  function TransformImage(t: Token, alt: string): Result<Kind, BuildError> {
    if "label" in t.meta then Ok(ImageReference(alt, t.meta["label"]))
    else if "src" !in t.attrs then Err(Malformed(t.ttype, "src"))
    else Ok(Image(t.attrs["src"], alt, if "title" in t.attrs then Some(t.attrs["title"]) else None))
  }

  // ---------------------------------------------------------------------------------
  // The fence info string: `info.split(maxsplit=1)`

  /** Python's `str.isspace` for one character. */
  predicate IsSpace(c: char) {
    c == ' ' || ('\t' <= c <= '\r') || ('\U{1c}' <= c <= '\U{1f}') || c == '\U{85}' || c == '\U{a0}'
    || c == '\U{1680}' || ('\U{2000}' <= c <= '\U{200a}') || c == '\U{2028}' || c == '\U{2029}'
    || c == '\U{202f}' || c == '\U{205f}' || c == '\U{3000}'
  }

  predicate AllSpace(s: string) {
    forall i :: 0 <= i < |s| ==> IsSpace(s[i])
  }

  predicate NoSpace(s: string) {
    forall i :: 0 <= i < |s| ==> !IsSpace(s[i])
  }

  /** The end of the run of whitespace that starts at `i`. */
  function SkipSpace(s: string, i: nat): (r: nat)
    requires i <= |s|
    ensures i <= r <= |s| && (r < |s| ==> !IsSpace(s[r]))
    ensures forall j :: i <= j < r ==> IsSpace(s[j])
    decreases |s| - i
  {
    if i < |s| && IsSpace(s[i]) then SkipSpace(s, i + 1) else i
  }

  /** The end of the run of non-whitespace that starts at `i`. */
  function SkipWord(s: string, i: nat): (r: nat)
    requires i <= |s|
    ensures i <= r <= |s| && (r < |s| ==> IsSpace(s[r]))
    ensures forall j :: i <= j < r ==> !IsSpace(s[j])
    decreases |s| - i
  {
    if i < |s| && !IsSpace(s[i]) then SkipWord(s, i + 1) else i
  }

  /** Python's `s.split(maxsplit=1)`: the first whitespace-separated word and the rest. */
  function SplitOnce(s: string): seq<string> {
    var a := SkipSpace(s, 0);
    if a == |s| then []
    else
      var b := SkipWord(s, a);
      var c := SkipSpace(s, b);
      if c == |s| then [s[a..b]] else [s[a..b], s[c..]]
  }

  /**
    The fence `lang` is the first whitespace-separated word of the info string and `meta`
    is what follows it after the separating whitespace: no part at all exactly when the
    info string is all whitespace, the first part free of whitespace, the second starting
    with a non-whitespace character, and nothing but whitespace dropped.
  */
  lemma SplitOnceParts(s: string)
    ensures |SplitOnce(s)| <= 2
    ensures SplitOnce(s) == [] <==> AllSpace(s)
    ensures |SplitOnce(s)| >= 1 ==> SplitOnce(s)[0] != [] && NoSpace(SplitOnce(s)[0])
    ensures |SplitOnce(s)| == 2 ==> SplitOnce(s)[1] != [] && !IsSpace(SplitOnce(s)[1][0])
    ensures |SplitOnce(s)| == 1 ==>
      exists lead, tail :: AllSpace(lead) && AllSpace(tail) && s == lead + SplitOnce(s)[0] + tail
    ensures |SplitOnce(s)| == 2 ==>
      exists lead, gap :: AllSpace(lead) && AllSpace(gap) && gap != [] && s == lead + SplitOnce(s)[0] + gap + SplitOnce(s)[1]
  {
    var a := SkipSpace(s, 0);
    if a == |s| {
      SpaceRun(s, 0, a);
      assert s[..a] == s;
    } else {
      assert !IsSpace(s[a]);
      var b := SkipWord(s, a);
      if SkipSpace(s, b) == |s| {
        SplitOne(s, a, b);
      } else {
        SplitTwo(s, a, b, SkipSpace(s, b));
      }
    }
  }

  /** A single word, with whitespace around it. */
  lemma SplitOne(s: string, a: nat, b: nat)
    requires a == SkipSpace(s, 0) < |s| && b == SkipWord(s, a) && SkipSpace(s, b) == |s|
    ensures SplitOnce(s) == [s[a..b]] && s[a..b] != [] && NoSpace(s[a..b])
    ensures AllSpace(s[..a]) && AllSpace(s[b..]) && s == s[..a] + s[a..b] + s[b..]
  {
    SpaceRun(s, 0, a);
    WordRun(s, a, b);
    SpaceRun(s, b, |s|);
    assert s[b..|s|] == s[b..];
    Pieces(s, a, b, |s|);
  }

  lemma Pieces(s: string, a: nat, b: nat, c: nat)
    requires a <= b <= c <= |s|
    ensures s == s[..a] + s[a..b] + s[b..c] + s[c..]
    ensures c == |s| ==> s == s[..a] + s[a..b] + s[b..]
  {
    assert s[..c] == s[..a] + s[a..b] + s[b..c];
    assert s == s[..c] + s[c..];
  }

  /** A word, the whitespace after it, and a rest that starts with a non-whitespace character. */
  lemma SplitTwo(s: string, a: nat, b: nat, c: nat)
    requires a == SkipSpace(s, 0) < |s| && b == SkipWord(s, a) && c == SkipSpace(s, b) < |s|
    ensures SplitOnce(s) == [s[a..b], s[c..]] && s[a..b] != [] && NoSpace(s[a..b])
    ensures s[c..] != [] && !IsSpace(s[c..][0])
    ensures AllSpace(s[..a]) && AllSpace(s[b..c]) && s[b..c] != [] && s == s[..a] + s[a..b] + s[b..c] + s[c..]
  {
    assert IsSpace(s[b]);
    SpaceRun(s, 0, a);
    WordRun(s, a, b);
    SpaceRun(s, b, c);
    Pieces(s, a, b, c);
  }

  /** A stretch that `SkipSpace` passed over is all whitespace. */
  lemma SpaceRun(s: string, i: nat, j: nat)
    requires i <= j <= |s| && forall k :: i <= k < j ==> IsSpace(s[k])
    ensures AllSpace(s[i..j]) && (i == 0 ==> AllSpace(s[..j]))
  {
    forall k | 0 <= k < j - i ensures IsSpace(s[i..j][k]) {
      assert s[i..j][k] == s[i + k];
    }
    if i == 0 {
      assert s[..j] == s[0..j];
    }
  }

  /** A stretch that `SkipWord` passed over, starting at a non-space, is a word. */
  lemma WordRun(s: string, i: nat, j: nat)
    requires i < j <= |s| && forall k :: i <= k < j ==> !IsSpace(s[k])
    ensures NoSpace(s[i..j]) && s[i..j] != []
  {
    forall k | 0 <= k < j - i ensures !IsSpace(s[i..j][k]) {
      assert s[i..j][k] == s[i + k];
    }
  }

  /**
    `transform_fence`: `lang` is the first word of the info string and `meta` the rest
    after the whitespace that follows it; each is absent when there is nothing to fill it.
  */
  lemma FenceInfo(t: Token)
    requires t.ttype == "fence"
    ensures TransformToken(t).Ok? && TransformToken(t).value.Code?
    ensures var k := TransformToken(t).value;
      && k.value == t.content && k.fenceMarkup == Some(t.markup)
      && (k.lang.None? <==> AllSpace(t.info))
      && (k.lang.Some? ==> k.lang.value != [] && NoSpace(k.lang.value))
      && (k.meta.Some? ==> k.lang.Some? && k.meta.value != [] && !IsSpace(k.meta.value[0]))
      && (k.lang.Some? && k.meta.None? ==>
            exists lead, tail :: AllSpace(lead) && AllSpace(tail) && t.info == lead + k.lang.value + tail)
      && (k.meta.Some? ==>
            exists lead, gap :: AllSpace(lead) && AllSpace(gap) && gap != [] && t.info == lead + k.lang.value + gap + k.meta.value)
  {
    SplitOnceParts(t.info);
  }

  /** `transform_heading_open`: the depth is the digit after the `h` of the tag; any other tag raises. */
  lemma HeadingFromTag(t: Token)
    requires t.ttype == "heading_open"
    ensures TransformToken(t).Ok? <==> |t.tag| >= 2 && Numerals.IsDigit(t.tag[1])
    ensures TransformToken(t).Ok? ==>
      TransformToken(t).value.Heading? && Numerals.FormatInt(TransformToken(t).value.depth) == [t.tag[1]] &&
      TransformToken(t).value.markup == t.markup
    ensures TransformToken(t).Err? ==> TransformToken(t).error == Malformed("heading_open", "tag")
  {
  }

  // ---------------------------------------------------------------------------------
  // `renderInlineAsText`

  /**
    The image `alt` text: the contents of the `text` tokens, depth first, where every other
    token contributes the text of its own children and nothing of its markup or content.
  */
  function InlineText(ts: seq<Token>): string {
    if ts == [] then ""
    else (if ts[0].ttype == "text" then ts[0].content else InlineText(ts[0].children)) + InlineText(ts[1..])
  }

  lemma {:induction false} InlineTextConcat(a: seq<Token>, b: seq<Token>)
    ensures InlineText(a + b) == InlineText(a) + InlineText(b)
  {
    if a != [] {
      assert (a + b)[1..] == a[1..] + b;
      InlineTextConcat(a[1..], b);
    } else {
      assert a + b == b;
    }
  }

  /** Tokens with no `text` token anywhere among them flatten to the empty string. */
  predicate NoTextWithin(ts: seq<Token>) {
    forall i :: 0 <= i < |ts| ==> ts[i].ttype != "text" && NoTextWithin(ts[i].children)
  }

  lemma {:induction false} InlineTextOfMarkupOnly(ts: seq<Token>)
    requires NoTextWithin(ts)
    ensures InlineText(ts) == ""
  {
    if ts != [] {
      InlineTextOfMarkupOnly(ts[0].children);
      assert NoTextWithin(ts[1..]) by {
        forall i | 0 <= i < |ts[1..]| ensures ts[1..][i].ttype != "text" && NoTextWithin(ts[1..][i].children) {
          assert ts[1..][i] == ts[i + 1];
        }
      }
      InlineTextOfMarkupOnly(ts[1..]);
    }
  }

  /** The total number of tokens, nested children included. */
  function Size(ts: seq<Token>): nat {
    if ts == [] then 0 else 1 + Size(ts[0].children) + Size(ts[1..])
  }

  lemma {:induction false} SizeConcat(a: seq<Token>, b: seq<Token>)
    ensures Size(a + b) == Size(a) + Size(b)
  {
    if a == [] {
      assert a + b == b;
    } else {
      assert (a + b)[1..] == a[1..] + b;
      SizeConcat(a[1..], b);
    }
  }

  lemma {:induction false} SizeAtLeastLength(ts: seq<Token>)
    ensures Size(ts) >= |ts|
  {
    if ts != [] {
      SizeAtLeastLength(ts[1..]);
    }
  }

  /** A slice that leaves out the first `a` tokens is at least `a` smaller. */
  lemma SizeSlice(ts: seq<Token>, a: nat, b: nat)
    requires a <= b <= |ts|
    ensures Size(ts[a..b]) + a <= Size(ts)
  {
    var x, y, z := ts[..a], ts[a..b], ts[b..];
    assert ts == x + y + z;
    SizeConcat(x + y, z);
    SizeConcat(x, y);
    SizeAtLeastLength(x);
  }

  lemma SizeChildren(ts: seq<Token>, i: nat)
    requires i < |ts|
    ensures Size(ts[i].children) < Size(ts)
  {
    SizeSlice(ts, i, |ts|);
    assert ts[i..][0] == ts[i];
  }

  /** `renderInlineAsText`: accumulates the `alt` text token by token. */
  method RenderInlineAsText(tokens: seq<Token>) returns (result: string)
    ensures result == InlineText(tokens)
    decreases Size(tokens)
  {
    result := "";
    for i := 0 to |tokens|
      invariant result == InlineText(tokens[..i])
    {
      assert tokens[..i + 1] == tokens[..i] + [tokens[i]];
      InlineTextConcat(tokens[..i], [tokens[i]]);
      if tokens[i].ttype == "text" {
        result := result + tokens[i].content;
      } else {
        SizeChildren(tokens, i);
        var inner := RenderInlineAsText(tokens[i].children);
        result := result + inner;
      }
    }
    assert tokens[..|tokens|] == tokens;
  }
}
