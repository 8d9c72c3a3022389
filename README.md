# myst-spec: token stream to mdast to HTML, in Dafny

This project models the Python reference implementation of myst-spec. The
implementation turns CommonMark into HTML in two stages:

- `MditToMdastTransform` builds an mdast syntax tree from markdown-it's token stream.
- `parse` attaches the reference definitions the tokenizer collected to the root.
- `MdastToHtmlTransform` walks the tree, and its enter and exit callbacks write HTML
  into one string.

Both stages rely on the node type of `common.py`, which is a dictionary with a parent
pointer, navigation (`parent`, `root`, `index`, the siblings) and a depth-first `walk`.

Modules:

- `Mdast` (`mdast.dfy`): the node datatype. A node is named by its path from the top of
  its tree. The module also holds parent, root, children, index, siblings and the walk,
  with the walk's properties: it stays inside the subtree, it reaches every node, it
  visits each node once, and it enters a node before its descendants and exits it
  after them.
- `Numerals` (`numerals.dfy`): `str(int)` and `int(str)` for the heading depth and the
  list start, with their round trip.
- `MditTransforms` (`mdit_transforms.dfy`): the token datatype and the `transform_*`
  functions, including the fence info split and `renderInlineAsText`.
- `MditToMdast` (`mdit_to_mdast.dfy`): the builder.
  - `BuildSeq` and `BuildChild` are the specification of one pass and of `_add_child`.
  - The methods `TransformTokens`, `MergeRun`, `CollectNested`, `AddChild` and `Parse`
    carry the source's loops and are proved equal to that specification.
  - The lemmas state:
    - the text-run merging;
    - the nesting errors;
    - the missing-transform error;
    - the dummy positions;
    - the inline bypass;
    - the image flattening;
    - that a list is tight exactly when an item holds a hidden paragraph.
- `HtmlEscape` (`html_escape.dfy`): `escape_html`.
  - It is defined as a character map.
  - It is proved equal to `html.escape` followed by the apostrophe replacement.
  - It is proved reversible, and its output is free of `<`, `>` and `"`.
- `MdastToHtml` (`mdast_to_html.dfy`): the renderer.
  - `EnterStep` and `ExitStep` are what each callback appends, or the error it raises.
  - The class `HtmlRenderer` holds the output string and the two skip flags. It runs the
    callbacks along the walk, and it is proved to produce `RenderAt`, the output put
    together along the tree's structure.
  - The lemmas state when rendering fails and with which error, the hidden-paragraph
    and newline rules, the tags written per type, escaping, read-back of attributes,
    and reference resolution.
- `Pipeline` (`pipeline.dfy`): the two stages together. A tree made by the builder
  contains only known types. Rendering it with the defaults fails exactly when a
  reference label was not collected. Heading tags carry the token's digit.
- `Wrappers` (`wrappers.dfy`): `Option` and `Result`.

Where the builder raises an exception, and where the renderer raises its `ValueError`s,
the model returns a `Result` error with the same cause:

- `BuildError`: invalid nesting, unclosed token, no transform, or a missing key or value.
- `RenderError`: no enter, no exit, or no definition, the renderer's three `ValueError`s.

Code and html blocks get no newline after them on exit. The exit callback writes the
exit newline only inside the branch taken when an exit handler exists
(`src/myst_spec_py/mdast_to_html.py:70-91`), and `code` and `html` have no exit handler.
So with the default options nothing follows them on exit, and with
`skip_missing_exit=False` their exit raises (`MdastToHtml.CodeAndHtmlClosing`). A code
block still ends in a newline, because `code` is in the set of types that get a newline on
enter.

## Model

| member | source | states |
|---|---|---|
| Mdast.Parent | src/myst_spec_py/common.py:16-21 | a node with a parent gets that node (its path minus the last step); the top gets a fresh childless node of type "null" |
| Mdast.Root | src/myst_spec_py/common.py:23-28 | from any node of a tree the root is the top node; the "null" node is its own root |
| Mdast.ChildAt | src/myst_spec_py/common.py:30-33 | the i-th of a node's children is the node at its path extended by i |
| Mdast.Index | src/myst_spec_py/common.py:35-38 | `index`: the first position among the parent's children holding a node equal to this one, None for the top node; its properties are stated by `Mdast.FirstIndexSpec`, `Mdast.IndexOfChild`, `Mdast.IndexOfRepeatedChild`, `Mdast.IndexOfDistinct` and `Mdast.IndexOfTop` |
| Mdast.FirstIndexSpec | src/myst_spec_py/common.py:35-38 | `list.index`: the first position holding an equal element, and None exactly when there is none |
| Mdast.IndexOfChild | src/myst_spec_py/common.py:35-38 | a node with a parent has an index, at or before its own position, and the parent's child at that index equals the node |
| Mdast.IndexOfRepeatedChild | src/myst_spec_py/common.py:35-38 | a child equal to an earlier sibling reports an index at or before that sibling's position, as dictionary equality makes `index` do |
| Mdast.IndexOfTop | src/myst_spec_py/common.py:35-53 | the top node has no index, and asking for its siblings raises |
| Mdast.IndexOfDistinct | src/myst_spec_py/common.py:35-38 | among pairwise different siblings the index is the node's own position |
| Mdast.SiblingsAt | src/myst_spec_py/common.py:40-53 | for the position `index` reports, the previous sibling is None at position 0 and otherwise the child before, and the next sibling is the child after or None past the last child |
| Mdast.PreviousSibling | src/myst_spec_py/common.py:40-45 | a sibling found is a node of the same tree |
| Mdast.NextSibling | src/myst_spec_py/common.py:47-53 | a sibling found is a node of the same tree |
| Mdast.Walk | src/myst_spec_py/common.py:55-66 | `walk` with both callbacks, as the sequence of their calls: the node's enter, its children's walks in order, its exit; its properties are stated by `Mdast.WalkStaysInSubtree`, `Mdast.WalkReachesSubtree`, `Mdast.WalkOnce` and `Mdast.EnterBeforeExitAfter` |
| Mdast.WalkFrom | src/myst_spec_py/common.py:63-64 | the loop over the children: the walks of the children from the i-th on, in order; it appears in the same lemmas as `Mdast.Walk` |
| Mdast.WalkStaysInSubtree | src/myst_spec_py/common.py:55-66 | every callback of a node's walk is on a node of its subtree |
| Mdast.WalkReachesSubtree | src/myst_spec_py/common.py:55-66 | every node of the subtree is entered and exited during the walk |
| Mdast.WalkOnce | src/myst_spec_py/common.py:55-66 | no node is entered twice or exited twice |
| Mdast.EnterBeforeExitAfter | src/myst_spec_py/common.py:55-66 | the walk begins by entering the node and ends by exiting it, with every descendant's enter and exit strictly between |
| Numerals.ParseFormatRoundTrip | src/myst_spec_py/mdit_to_mdast.py:177-178 | `int(str(n)) == n` for every integer, so a list start or heading depth written into the HTML reads back |
| MditTransforms.TransformToken | src/myst_spec_py/mdit_to_mdast.py:95-97 | a token type without a transform gives the no-transform error naming that type, and only such a type does; a transform makes a list spread and never a root or unknown type |
| MditTransforms.HeadingDepth | src/myst_spec_py/mdit_to_mdast.py:133-140 | `int(tag[1])` succeeds exactly when the tag's second character is an ASCII digit, and the depth prints back as that digit |
| MditTransforms.HeadingFromTag | src/myst_spec_py/mdit_to_mdast.py:133-140 | a heading token gives a heading, whose depth prints as the tag's digit and which keeps the markup, exactly when that ASCII digit exists; otherwise it gives the missing-tag error |
| MditTransforms.SplitOnceParts | src/myst_spec_py/mdit_to_mdast.py:211 | `split(maxsplit=1)` gives no part exactly for all-whitespace text, a first part that is a non-empty whitespace-free word, a second that starts with a non-space, and drops nothing but whitespace |
| MditTransforms.FenceInfo | src/myst_spec_py/mdit_to_mdast.py:203-216 | a fence becomes a code node with the token's content and markup; `lang` is absent exactly when the info string is blank; `meta` is present only after a `lang` and is the rest after the separating whitespace |
| MditTransforms.InlineText | src/myst_spec_py/mdit_to_mdast.py:281-289 | `renderInlineAsText`: a text token gives its content, any other token the text of its children, concatenated in order; its properties are stated by `MditTransforms.InlineTextConcat` and `MditTransforms.InlineTextOfMarkupOnly`, and `MditTransforms.RenderInlineAsText` is the loop proved equal to it |
| MditTransforms.InlineTextConcat | src/myst_spec_py/mdit_to_mdast.py:281-289 | the text of a concatenation is the concatenation of the texts |
| MditTransforms.InlineTextOfMarkupOnly | src/myst_spec_py/mdit_to_mdast.py:281-289 | tokens with no `text` token anywhere inside render as the empty string |
| MditTransforms.RenderInlineAsText | src/myst_spec_py/mdit_to_mdast.py:281-289 | the loop's result is the `text` contents in document order, children of other tokens included |
| MditToMdast.BuildSeq | src/myst_spec_py/mdit_to_mdast.py:43-90 | one pass of `__call__` over a token list: the children built, or the first error raised; `MditToMdast.TransformTokens` is the loop proved equal to it, and `MditToMdast.TextRunMerged`, `MditToMdast.TerminalToken`, `MditToMdast.InvalidNestingRaises`, `MditToMdast.OpeningToken` and `MditToMdast.UnclosedRaises` state its cases |
| MditToMdast.BuildChild | src/myst_spec_py/mdit_to_mdast.py:92-120 | `_add_child`: the node the transform makes, with its position, its children built from the inner tokens (through an inline token, none for an image) and a list made tight by a hidden paragraph; `MditToMdast.AddChild` is the method proved equal to it, and `MditToMdast.NoTransformRaises`, `MditToMdast.PositionOf`, `MditToMdast.BuiltFromToken`, `MditToMdast.InlineBypassed`, `MditToMdast.ImageFlattened` and `MditToMdast.ListSpread` state its properties |
| MditToMdast.TransformTokens | src/myst_spec_py/mdit_to_mdast.py:43-90 | the pop loop over the reversed tokens appends exactly the children `BuildSeq` specifies, or raises its error |
| MditToMdast.TakeChild | src/myst_spec_py/mdit_to_mdast.py:52-88 | one turn of the pop loop takes off a strictly shorter rest and yields the child `BuildSeq` puts first, or the error `BuildSeq` raises |
| MditToMdast.MergeRun | src/myst_spec_py/mdit_to_mdast.py:56-69 | the loop merges a `text` token with the following `text`/`softbreak` tokens and leaves the rest |
| MditToMdast.CollectNested | src/myst_spec_py/mdit_to_mdast.py:78-86 | the nesting loop ends with nesting 0 exactly when the running sum returns to 0, and then yields the tokens strictly between the opening and its closing, leaving what follows |
| MditToMdast.AddChild | src/myst_spec_py/mdit_to_mdast.py:92-120 | `_add_child` makes exactly the child that `BuildChild` specifies, or raises its error |
| MditToMdast.TextRunMerged | src/myst_spec_py/mdit_to_mdast.py:55-69 | a `text` token followed by a run of `text`/`softbreak` tokens becomes one text node with the contents joined, each softbreak as "\n" |
| MditToMdast.TerminalToken | src/myst_spec_py/mdit_to_mdast.py:71-74 | a non-text token of nesting 0 becomes one childless node, built by itself |
| MditToMdast.InvalidNestingRaises | src/myst_spec_py/mdit_to_mdast.py:75-76 | a first token whose nesting is neither 0 nor 1 raises the invalid-nesting error with that value |
| MditToMdast.OpeningToken | src/myst_spec_py/mdit_to_mdast.py:78-88 | an opening token takes as children exactly the tokens before the first point where the nesting sum is back to 0, and the pass goes on after the closing token |
| MditToMdast.UnclosedRaises | src/myst_spec_py/mdit_to_mdast.py:81-86 | when the nesting sum never returns to 0 the pass raises the unclosed error naming the opening token |
| MditToMdast.NoTransformRaises | src/myst_spec_py/mdit_to_mdast.py:95-96 | adding a token raises the no-transform error for its own type exactly when the type has no transform |
| MditToMdast.NoTransformOnlyUnknown | src/myst_spec_py/mdit_to_mdast.py:95-96 | any no-transform error raised anywhere in a pass names a type without a transform |
| MditToMdast.PositionOf | src/myst_spec_py/mdit_to_mdast.py:99-104 | a position exists exactly when the token has a line map, starting and ending at column 1 of the lines one past the map's entries |
| MditToMdast.BuiltFromToken | src/myst_spec_py/mdit_to_mdast.py:95-104 | a built node has the token's transform as its type (a list possibly tightened), the token's position, and is recorded as a hidden paragraph exactly for a hidden `paragraph_open` |
| MditToMdast.InlineBypassed | src/myst_spec_py/mdit_to_mdast.py:105-107 | a lone `inline` child is replaced by its own children |
| MditToMdast.ImageFlattened | src/myst_spec_py/mdit_to_mdast.py:115-119 | an image token yields a childless image or image reference whose `alt` is the inline text of its children; it fails only for a missing `src` |
| MditToMdast.ListSpread | src/myst_spec_py/mdit_to_mdast.py:108-114 | a built list is spread exactly when none of its items holds a hidden paragraph |
| MditToMdast.BuildSeqConsistent | src/myst_spec_py/mdit_to_mdast.py:108-114 | every built tree agrees with its build record: each list's spread flag matches its hidden grandchildren, at every depth |
| MditToMdast.Definitions | src/myst_spec_py/mdit_to_mdast.py:23-27 | the definitions table has the collected labels as keys, and each maps to that reference's href and title |
| MditToMdast.Parse | src/myst_spec_py/mdit_to_mdast.py:12-29 | `parse` succeeds exactly when the pass does, with the pass's error otherwise; the root, without position, holds the built children and has definitions exactly when references were collected |
| HtmlEscape.EscapeHtml | src/myst_spec_py/mdast_to_html.py:13-14 | `escape_html` as a map over the characters; `HtmlEscape.EscapeHtmlIsPythonEscape` proves it equal to `html.escape` followed by the apostrophe replacement, and `HtmlEscape.UnescapeEscape`, `HtmlEscape.EscapeHtmlSafe` and `HtmlEscape.EscapeHtmlConcat` state its properties |
| HtmlEscape.EscapeHtmlIsPythonEscape | src/myst_spec_py/mdast_to_html.py:13-14 | the character map equals `html.escape` followed by replacing `&#x27;` with `'` |
| HtmlEscape.UnescapeEscape | src/myst_spec_py/mdast_to_html.py:13-14 | the escaped text reads back to the original |
| HtmlEscape.EscapeHtmlSafe | src/myst_spec_py/mdast_to_html.py:13-14 | the escaped text contains no `<`, `>` or `"` |
| HtmlEscape.EscapeHtmlConcat | src/myst_spec_py/mdast_to_html.py:13-14 | escaping distributes over concatenation |
| HtmlEscape.EscapeExample | src/myst_spec_py/mdast_to_html.py:13-14 | `<a>`, ` & ` and `'b'` escape to `&lt;a&gt;`, ` &amp; ` and `'b'`: the apostrophes are kept |
| MdastToHtml.Hidden | src/myst_spec_py/mdast_to_html.py:96-102 | `_hidden_paragraph`: a paragraph whose grandparent is a list that is not spread; `MdastToHtml.HiddenIff` restates it on paths, and `MdastToHtml.ListParagraphsHidden`, `MdastToHtml.HiddenParagraphSilent` and `MdastToHtml.ShownParagraph` state what follows from it |
| MdastToHtml.EnterHandler | src/myst_spec_py/mdast_to_html.py:93-223 | the `enter_*` handler of the node's type, None for a type without one; `MdastToHtml.EnterHandlerFails` states when it fails, and the tag lemmas (`MdastToHtml.ListTags`, `MdastToHtml.HeadingTags`, `MdastToHtml.CodeOpening`, `MdastToHtml.TextEscaped`, `MdastToHtml.InlineCodeEscaped`, `MdastToHtml.AnchorReadsBack`, `MdastToHtml.ImgReadsBack`) state what it writes |
| MdastToHtml.ExitHandler | src/myst_spec_py/mdast_to_html.py:104-221 | the `exit_*` handler of the node's type, None for a type without one; its output is stated with the exit newline by `MdastToHtml.ListTags`, `MdastToHtml.HeadingTags`, `MdastToHtml.ListItemOpening`, `MdastToHtml.BlockquoteOpening`, `MdastToHtml.ShownParagraph` and `MdastToHtml.CodeAndHtmlClosing` |
| MdastToHtml.EnterStep | src/myst_spec_py/mdast_to_html.py:44-64 | `_callback_enter_node`: the handler's output and the block newline, or the error raised; `MdastToHtml.EnterStepFails` states its errors and `MdastToHtml.HtmlRenderer.EnterNode` is the method proved to append it |
| MdastToHtml.ExitStep | src/myst_spec_py/mdast_to_html.py:66-91 | `_callback_exit_node`: the handler's output and the exit newline, or the error raised; `MdastToHtml.ExitStepFails` states its errors and `MdastToHtml.HtmlRenderer.ExitNode` is the method proved to append it |
| MdastToHtml.RenderAt | src/myst_spec_py/mdast_to_html.py:34-42 | the output of the callbacks over the subtree, put together along its structure; `MdastToHtml.FoldWalk` proves it equal to the callbacks run along `walk`, `MdastToHtml.HtmlRenderer.Render` is the method proved to produce it, and `MdastToHtml.RenderOkIff` and `MdastToHtml.RenderFirstError` state its errors |
| MdastToHtml.HtmlRenderer.constructor | src/myst_spec_py/mdast_to_html.py:34-39 | a new renderer has empty output and the default skip flags |
| MdastToHtml.HtmlRenderer.Render | src/myst_spec_py/mdast_to_html.py:34-42 | `__call__` stores the skip flags, and returns the output put together along the tree or the first error raised; on success the output field holds the same string |
| MdastToHtml.HtmlRenderer.RunVisits | src/myst_spec_py/mdast_to_html.py:40-41 | running the callbacks over a sequence of visits appends each one's output in order and stops at the first error |
| MdastToHtml.HtmlRenderer.EnterNode | src/myst_spec_py/mdast_to_html.py:44-64 | the enter callback appends exactly the enter step's output, or raises that step's error and leaves the output alone |
| MdastToHtml.HtmlRenderer.ExitNode | src/myst_spec_py/mdast_to_html.py:66-91 | the exit callback appends exactly the exit step's output, or raises that step's error and leaves the output alone |
| MdastToHtml.RenderHtml | src/myst_spec_py/mdast_to_html.py:8-10 | `render` is the renderer with the default options |
| MdastToHtml.FoldWalk | src/myst_spec_py/mdast_to_html.py:40-41 | running callbacks along the walk is the same as a node's enter, then its children's output in order, then its exit |
| MdastToHtml.FoldOkIff | src/myst_spec_py/mdast_to_html.py:40-41 | a run of callbacks succeeds exactly when every callback in it succeeds |
| MdastToHtml.FoldFirstError | src/myst_spec_py/mdast_to_html.py:40-41 | a failed run reports the error of the first callback that fails, with all callbacks before it succeeding |
| MdastToHtml.EnterHandlerFails | src/myst_spec_py/mdast_to_html.py:93-223 | exactly the unknown types lack an enter method, and an enter method raises only for a reference whose identifier the root does not define, with the no-definition error naming it |
| MdastToHtml.EnterStepFails | src/myst_spec_py/mdast_to_html.py:44-49 | entering fails exactly for a type without an enter handler when those are not skipped (the no-enter error with its type), or for a reference missing from the root's definitions (the no-definition error with its identifier) |
| MdastToHtml.ExitStepFails | src/myst_spec_py/mdast_to_html.py:66-71 | exiting fails exactly when missing handlers are not skipped and the type is none of the nine with an exit handler, with the no-exit error naming the type |
| MdastToHtml.RenderOkIff | src/myst_spec_py/mdast_to_html.py:34-91 | rendering succeeds exactly when every node's enter and exit callbacks succeed |
| MdastToHtml.DefaultRenderOk | src/myst_spec_py/mdast_to_html.py:8-10 | with the defaults, rendering succeeds exactly when every node has a known type and every reference resolves |
| MdastToHtml.RenderFirstError | src/myst_spec_py/mdast_to_html.py:34-42 | a failed render reports the error of the first failing callback in walk order |
| MdastToHtml.UnknownTypeRaises | src/myst_spec_py/mdast_to_html.py:45-47 | a node of an unknown type anywhere in the tree makes rendering raise unless missing enter handlers are skipped |
| MdastToHtml.UndefinedReferenceRaises | src/myst_spec_py/mdast_to_html.py:191-194 | a reference whose identifier the root does not define makes rendering raise, whatever the options |
| MdastToHtml.HiddenIff | src/myst_spec_py/mdast_to_html.py:96-102 | a paragraph is hidden exactly when it has a grandparent and that grandparent is a list that is not spread |
| MdastToHtml.ListParagraphsHidden | src/myst_spec_py/mdast_to_html.py:96-102 | the paragraphs directly inside a list's items are all hidden when it is not spread and all shown when it is |
| MdastToHtml.HiddenParagraphSilent | src/myst_spec_py/mdast_to_html.py:73-75 | a hidden paragraph writes nothing on enter, and on exit writes only a newline, and that only when a sibling follows it |
| MdastToHtml.ShownParagraph | src/myst_spec_py/mdast_to_html.py:104-112 | a paragraph that is not hidden writes `<p>` and `</p>` followed by a newline |
| MdastToHtml.ListItemOpening | src/myst_spec_py/mdast_to_html.py:53-64 | a list item opens with `<li>` plus a newline, unless it is empty or starts with a hidden paragraph, and closes with `</li>` plus a newline |
| MdastToHtml.BlockquoteOpening | src/myst_spec_py/mdast_to_html.py:53-64 | a blockquote opens with `<blockquote>` plus a newline unless it starts with a hidden paragraph, and closes with `</blockquote>` plus a newline |
| MdastToHtml.CodeAndHtmlClosing | src/myst_spec_py/mdast_to_html.py:66-91 | code and html have no exit handler: with the defaults nothing is written on exit, and with missing exits not skipped the exit raises; a childless code block's opening ends in a newline, and html writes its raw value |
| MdastToHtml.ListTags | src/myst_spec_py/mdast_to_html.py:53-91 | an ordered list opens `<ol` (with a `start` attribute that reads back as the start number when there is one) and closes `</ol>`; an unordered one uses `<ul>` and `</ul>`; the opening is followed by a newline unless the first child is a hidden paragraph, and the closing always is |
| MdastToHtml.CodeOpening | src/myst_spec_py/mdast_to_html.py:150-156 | a code block's enter step is `<pre><code>`, or `<pre><code class="language-L">` exactly when `lang` L is non-empty, then its escaped value, which reads back to the value, then `</code></pre>` and the block newline unless its first child is a hidden paragraph |
| MdastToHtml.HeadingTags | src/myst_spec_py/mdast_to_html.py:123-127 | a heading opens `<hN>` and closes `</hN>` plus a newline, where N is `str(depth)` and reads back as its depth |
| MdastToHtml.Escapes | src/myst_spec_py/mdast_to_html.py:13-14 | escaped text reads back to the original and holds no markup characters |
| MdastToHtml.TextEscaped | src/myst_spec_py/mdast_to_html.py:114-115 | text is written escaped: it reads back to the node's value and cannot open a tag |
| MdastToHtml.InlineCodeEscaped | src/myst_spec_py/mdast_to_html.py:147-148 | inline code is `<code>`, its escaped value, then `</code>` |
| MdastToHtml.UpToQuoteOf | src/myst_spec_py/mdast_to_html.py:182-186 | reading an escaped value up to the next quote stops exactly at the attribute's closing quote |
| MdastToHtml.ReadAttrOf | src/myst_spec_py/mdast_to_html.py:182-186 | an attribute written as prefix, escaped value and quote reads back as the value and what follows |
| MdastToHtml.AnchorReadsBack | src/myst_spec_py/mdast_to_html.py:181-189 | the `<a>` tag's `href` reads back as the url, and a `title` attribute is present exactly for a non-empty title and reads back as it |
| MdastToHtml.ImgReadsBack | src/myst_spec_py/mdast_to_html.py:205-211 | the `<img />` tag's `src` and `alt` read back as the url and the alt text, and a `title` attribute is present exactly for a non-empty title and reads back as it |
| MdastToHtml.LinkReferenceResolves | src/myst_spec_py/mdast_to_html.py:191-203 | an undefined reference raises the no-definition error; a defined one renders exactly as a link with the definition's url and title |
| MdastToHtml.ImageReferenceResolves | src/myst_spec_py/mdast_to_html.py:213-223 | an undefined image reference raises; a defined one opens exactly as an image with the definition's url and title and its own alt |
| MdastToHtml.NestedLeaf | src/myst_spec_py/common.py:61-66 | a childless node's output is its enter output followed by its exit output |
| MdastToHtml.TextLeaf | src/myst_spec_py/mdast_to_html.py:114-115 | rendering a lone text node gives its escaped value and nothing else |
| MdastToHtml.ReferenceExample | src/myst_spec_py/mdast_to_html.py:191-200 | with `foo` defined as `/x` and an empty title, a reference to `foo` opens `<a href="/x">` and a reference to `bar` raises naming `bar` |
| Pipeline.ParsedConsistentAt | src/myst_spec_py/mdit_to_mdast.py:108-114 | every node of a parsed tree agrees with a build record |
| Pipeline.BuildSeqKnown | src/myst_spec_py/mdit_to_mdast.py:95-97 | the builder makes only nodes of types in the mdast vocabulary, never a root, at every depth |
| Pipeline.ParsedKnownAt | src/myst_spec_py/mdit_to_mdast.py:12-29 | below the root every node of a parsed tree has a known type |
| Pipeline.ParsedListParagraphs | src/myst_spec_py/mdit_to_mdast.py:108-114 | in a parsed tree a list that is not spread has a paragraph in one of its items, and all paragraphs directly in its items are hidden exactly when it is not spread |
| Pipeline.ParsedReferences | src/myst_spec_py/mdit_to_mdast.py:23-28 | in a parsed tree a reference resolves exactly when the tokenizer collected its label |
| Pipeline.ParsedRenderOk | src/myst_spec_py/mdast_to_html.py:8-10 | rendering a parsed tree with the defaults succeeds exactly when every reference's label was collected |
| Pipeline.HeadingTagRendered | src/myst_spec_py/mdit_to_mdast.py:133-140 | a heading built from tag `hN` renders `<hN>` and `</hN>` plus a newline |

## Left out

- Parent pointers. The source's nodes hold a pointer to their parent object. Here a tree
  is a value and a node is named by its path, so sharing one node object between two
  parents, and changing a node after it was attached, are not modelled.
- In-place appends. `_add_child` mutates the parent's `children` and the list node's
  `spread` key on the heap. The builder methods return the appended children as a
  sequence instead. The list's `spread` flag is set once all of its children are built:
  the value is the same, the moment differs.
- `MditToMdast.Parse`: it takes the token stream and the tokenizer's `references` as
  parameters. The markdown-it tokenizer is not part of this model.
- `unescapeAll` over the fence info string is not modelled. The token's `info` is taken
  as already unescaped.
- `Numerals.ParseInt`: it accepts an optional sign and ASCII digits. Python's `int()`
  also accepts surrounding whitespace, `_` separators and non-ASCII digits.
  markdown-it writes `start` as plain digits, so this difference never shows for its
  tokens.
- MditTransforms.HeadingDepth: it reads the tag's second character as an ASCII digit
  `0`-`9`. Python's `int(token.tag[1])` also reads any other Unicode decimal digit.
  markdown-it only writes the tags `h1` to `h6`, so this difference never shows for its
  tokens.
- MditTransforms.HeadingFromTag: as for `MditTransforms.HeadingDepth`, a non-ASCII
  decimal digit in the tag raises `Malformed` here, where Python would read it.
- Token `attrs` and `meta` are maps to strings. The markdown-it objects can hold other
  value types.
- Two keys the builder writes and the renderer never reads are not kept:
  - the constant `referenceType: "full"` of link and image references;
  - a list item's constant `ordered: False`.
- The `markup` the builder nests under a `data` key is a field of the node's kind. No
  node of the model has a `data` key of its own; the top node's `data.definitions` is
  the `definitions` field of `Root`.
- The renderer's `KeyError` on a node that lacks a key its handler reads is not
  modelled. Each kind carries every field its type requires (`value`, `depth`, `url`,
  `alt`, `identifier`, and a definition's `url`), because the builder always writes
  them. So a hand-made tree missing one of them, for which `node["value"]`,
  `node['depth']`, `node["url"]`, `node["alt"]`, `node["identifier"]` or `data["url"]`
  would raise, cannot be written in the model.
- `spread` is always present on a list node. The builder always writes it, so the
  renderer's `get("spread", False)` default never applies.
- `Other(name)` stands for any node type outside the mdast vocabulary. Its name is
  assumed to be none of the known type names.
- `MdastToHtml.HtmlRenderer.Render`: it renders from the top of a tree, which has no
  parent, and takes reference definitions from that top node. Rendering a node that is
  still attached to a parent outside the tree is not modelled. Its `ensures` uses
  `modifies`, so it is stated as a relation to `RenderAt`.
- The code-block `lang` is written into the class attribute without escaping, as in the
  source.
- Dispatch by method name (`inspect.getmembers` over `transform_`, `enter_` and `exit_`)
  is written as a `match` over the node kinds. The set of handled types is the same.
- The command-line entry point, the documentation build and the test-suite runner are
  not part of this model.
- No whole document is traced from tokens to HTML. The properties are proved per node
  and per tree, for all trees.
