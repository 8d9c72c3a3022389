/**
  The tree builder and the renderer together: what the renderer does with the trees that
  `parse` (`src/myst_spec_py/mdit_to_mdast.py`) makes. A tree made by `parse` is a root
  whose children are the built nodes (the `ensures` of `MditToMdast.Parse`).
*/
module Pipeline {
  import opened Wrappers
  import opened Mdast
  import opened MditTransforms
  import opened MditToMdast
  import opened MdastToHtml

  /** A tree as `parse` returns it for `tokens` and the tokenizer's `references`. */
  predicate Parsed(t: Node, tokens: seq<Token>, references: Option<map<string, EnvReference>>) {
    && BuildSeq(tokens).Ok?
    && t.kind == Root(if references.Some? then Some(Definitions(references.value)) else None)
    && t.children == Nodes(BuildSeq(tokens).value)
  }

  /** Every node of a parsed tree agrees with some record of how it was built. */
  lemma {:induction false} ParsedConsistentAt(t: Node, tokens: seq<Token>, references: Option<map<string, EnvReference>>, p: seq<nat>)
    requires Parsed(t, tokens, references) && ValidPath(t, p)
    ensures exists tr :: Consistent(NodeAt(t, p), tr)
    decreases |p|
  {
    var bs := BuildSeq(tokens).value;
    BuildSeqConsistent(tokens);
    if p == [] {
      var tr := Trace(false, Traces(bs));
      assert Consistent(t, tr) && NodeAt(t, p) == t;
    } else {
      var q := p[..|p| - 1];
      ParsedConsistentAt(t, tokens, references, q);
      var tr :| Consistent(NodeAt(t, q), tr);
      assert Consistent(NodeAt(t, p), tr.children[p[|p| - 1]]);
    }
  }

  /** Every node below `n`, `n` included, has a type of the mdast vocabulary other than root. */
  predicate Known(n: Node)
    decreases n
  {
    !n.kind.Other? && !n.kind.Root? && forall i :: 0 <= i < |n.children| ==> Known(n.children[i])
  }

  /** The builder makes only nodes of known types. */
  lemma {:induction false} BuildSeqKnown(ts: seq<Token>)
    ensures BuildSeq(ts).Ok? ==> forall i :: 0 <= i < |BuildSeq(ts).value| ==> Known(BuildSeq(ts).value[i].node)
    decreases Size(ts), 1
  {
    if ts != [] {
      var t := Merged(ts);
      var rest := ts[MergeEnd(ts)..];
      SizeSuffix(ts, MergeEnd(ts));
      if t.nesting == 0 {
        BuildChildKnown(t, []);
        BuildSeqKnown(rest);
      } else if t.nesting == 1 && CloseAt(rest, 0, 1).Some? {
        var c := CloseAt(rest, 0, 1).value;
        SizePrefix(rest, c - 1);
        SizeSuffix(rest, c);
        BuildChildKnown(t, rest[..c - 1]);
        BuildSeqKnown(rest[c..]);
      }
    }
  }

  lemma {:induction false} BuildChildKnown(t: Token, inner: seq<Token>)
    ensures BuildChild(t, inner).Ok? ==> Known(BuildChild(t, inner).value.node)
    decreases Size(inner), 2
  {
    if BuildChild(t, inner).Ok? {
      BuildSeqKnown(if t.ttype == "image" then [] else InlineBypass(inner));
    }
  }

  /** Below the root, every node of a parsed tree has a known type. */
  lemma {:induction false} ParsedKnownAt(t: Node, tokens: seq<Token>, references: Option<map<string, EnvReference>>, p: seq<nat>)
    requires Parsed(t, tokens, references) && ValidPath(t, p) && p != []
    ensures Known(NodeAt(t, p))
    decreases |p|
  {
    BuildSeqKnown(tokens);
    var q := p[..|p| - 1];
    if q != [] {
      ParsedKnownAt(t, tokens, references, q);
    }
  }

  /**
    In a parsed tree a list is tight only because one of its items holds a paragraph, and
    then every paragraph directly inside its items is rendered without `<p>` tags; in a
    spread list every such paragraph keeps them.
  */
  lemma ParsedListParagraphs(t: Node, tokens: seq<Token>, references: Option<map<string, EnvReference>>, q: seq<nat>)
    requires Parsed(t, tokens, references) && ValidPath(t, q) && NodeAt(t, q).kind.List?
    ensures !NodeAt(t, q).kind.spread ==>
      exists i, j :: 0 <= i < |NodeAt(t, q).children| && 0 <= j < |NodeAt(t, q).children[i].children| &&
                     NodeAt(t, q).children[i].children[j].kind == Paragraph
    ensures forall r :: ValidPath(t, r) && |r| == |q| + 2 && q <= r && NodeAt(t, r).kind.Paragraph? ==>
      (Hidden(t, r) <==> !NodeAt(t, q).kind.spread)
  {
    ParsedConsistentAt(t, tokens, references, q);
    var tr :| Consistent(NodeAt(t, q), tr);
    var n := NodeAt(t, q);
    if !n.kind.spread {
      var i, j :| 0 <= i < |tr.children| && 0 <= j < |tr.children[i].children| && tr.children[i].children[j].hiddenParagraph;
      assert Consistent(n.children[i], tr.children[i]);
      assert Consistent(n.children[i].children[j], tr.children[i].children[j]);
    }
    ListParagraphsHidden(t, q);
  }

  /** In a parsed tree a reference resolves exactly when the tokenizer collected its label. */
  lemma ParsedReferences(t: Node, tokens: seq<Token>, references: Option<map<string, EnvReference>>, q: seq<nat>)
    requires Parsed(t, tokens, references) && ValidPath(t, q)
    requires NodeAt(t, q).kind.LinkReference? || NodeAt(t, q).kind.ImageReference?
    ensures Resolved(t, q) <==> references.Some? && NodeAt(t, q).kind.identifier in references.value
  {
  }

  /**
    Rendering a parsed tree with the default options fails exactly when it holds a
    reference whose label the tokenizer did not collect.
  */
  lemma ParsedRenderOk(t: Node, tokens: seq<Token>, references: Option<map<string, EnvReference>>)
    requires Parsed(t, tokens, references)
    ensures RenderAt(t, [], Defaults).Ok? <==>
      forall q :: ValidPath(t, q) && (NodeAt(t, q).kind.LinkReference? || NodeAt(t, q).kind.ImageReference?) ==>
        references.Some? && NodeAt(t, q).kind.identifier in references.value
  {
    DefaultRenderOk(t);
    forall q | ValidPath(t, q)
      ensures !NodeAt(t, q).kind.Other?
      ensures NodeAt(t, q).kind.LinkReference? || NodeAt(t, q).kind.ImageReference? ==>
        (Resolved(t, q) <==> references.Some? && NodeAt(t, q).kind.identifier in references.value)
    {
      if q != [] {
        ParsedKnownAt(t, tokens, references, q);
      }
      if NodeAt(t, q).kind.LinkReference? || NodeAt(t, q).kind.ImageReference? {
        ParsedReferences(t, tokens, references, q);
      }
    }
  }

  /** A heading built from a token with tag `hN` renders as `<hN>` and `</hN>`. */
  lemma HeadingTagRendered(t: Token, inner: seq<Token>, tree: Node, p: seq<nat>, o: Options)
    requires t.ttype == "heading_open" && BuildChild(t, inner).Ok?
    requires ValidPath(tree, p) && NodeAt(tree, p) == BuildChild(t, inner).value.node
    ensures |t.tag| >= 2
    ensures EnterStep(tree, p, o) == Ok("<h" + [t.tag[1]] + ">")
    ensures ExitStep(tree, p, o) == Ok("</h" + [t.tag[1]] + ">\n")
  {
    HeadingFromTag(t);
    BuiltFromToken(t, inner);
    ThenUnit(EnterMarkup(tree, p, o));
    assert "</h" + [t.tag[1]] + ">" + "\n" == "</h" + [t.tag[1]] + ">\n";
  }
}
