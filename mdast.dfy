/**
  The mdast node of `src/myst_spec_py/common.py`: a node with a type, its attributes and
  ordered children, and navigation to its parent, its root and its siblings.

  A node object there carries a pointer to its parent. Here a tree is a value, and a node
  is named by the tree it sits in and its path from the top (the child positions taken
  on the way down): the parent of the node at `p + [i]` is the node at `p`. A node
  without a parent reports as its parent a fresh node of type "null" (`NullNode`), whose
  own parent is again such a node.
*/
module Mdast {
  import opened Wrappers

  datatype Point = Point(line: int, column: int)

  datatype Position = Position(start: Point, end: Point)

  /** One entry of the root's `data.definitions` table. */
  datatype RefTarget = RefTarget(url: string, title: string)

  /**
    The node `type` with that type's attributes. `Other` stands for any `type` string
    outside the mdast vocabulary the builder produces (the "null" parent among them).
  */
  datatype Kind =
    | Root(definitions: Option<map<string, RefTarget>>)
    | Paragraph
    | Text(value: string)
    | Heading(depth: int, markup: string)
    | ThematicBreak(markup: string)
    | Blockquote(markup: string)
    | List(ordered: bool, spread: bool, start: Option<int>, markup: string)
    | ListItem(markup: string)
    | Html(value: string)
    | Code(value: string, lang: Option<string>, meta: Option<string>, fenceMarkup: Option<string>)
    | Definition(identifier: string, definitionLabel: string, url: string, definitionTitle: string)
    | Emphasis(markup: string)
    | Strong(markup: string)
    | InlineCode(value: string, markup: string)
    | Break
    | Link(url: string, title: Option<string>)
    | LinkReference(identifier: string)
    | Image(url: string, alt: string, title: Option<string>)
    | ImageReference(alt: string, identifier: string)
    | Other(name: string)

  /** A node; a node whose `children` key is absent has `children == []`. */
  datatype Node = Node(kind: Kind, position: Option<Position>, children: seq<Node>)

  /** The stand-in parent of a parentless node. */
  const NullNode: Node := Node(Other("null"), None, [])

  /** The node's `type` string. */
  function TypeName(k: Kind): string {
    match k
    case Root(_) => "root"
    case Paragraph => "paragraph"
    case Text(_) => "text"
    case Heading(_, _) => "heading"
    case ThematicBreak(_) => "thematicBreak"
    case Blockquote(_) => "blockquote"
    case List(_, _, _, _) => "list"
    case ListItem(_) => "listItem"
    case Html(_) => "html"
    case Code(_, _, _, _) => "code"
    case Definition(_, _, _, _) => "definition"
    case Emphasis(_) => "emphasis"
    case Strong(_) => "strong"
    case InlineCode(_, _) => "inlineCode"
    case Break => "break"
    case Link(_, _) => "link"
    case LinkReference(_) => "linkReference"
    case Image(_, _, _) => "image"
    case ImageReference(_, _) => "imageReference"
    case Other(name) => name
  }

  // ---------------------------------------------------------------------------------
  // Paths

  /** `p` leads from the top of `t` to one of its nodes. */
  predicate ValidPath(t: Node, p: seq<nat>)
    decreases |p|, 0
  {
    p == [] || (ValidPath(t, p[..|p| - 1]) && p[|p| - 1] < |NodeAt(t, p[..|p| - 1]).children|)
  }

  function NodeAt(t: Node, p: seq<nat>): Node
    requires ValidPath(t, p)
    decreases |p|, 1
  {
    if p == [] then t else NodeAt(t, p[..|p| - 1]).children[p[|p| - 1]]
  }

  lemma ChildAt(t: Node, p: seq<nat>, i: nat)
    requires ValidPath(t, p) && i < |NodeAt(t, p).children|
    ensures ValidPath(t, p + [i]) && NodeAt(t, p + [i]) == NodeAt(t, p).children[i]
  {
    assert (p + [i])[..|p|] == p;
  }

  lemma {:induction false} PrefixValid(t: Node, p: seq<nat>, k: nat)
    requires ValidPath(t, p) && k <= |p|
    ensures ValidPath(t, p[..k])
    decreases |p|
  {
    if k < |p| {
      assert p[..|p| - 1][..k] == p[..k];
      PrefixValid(t, p[..|p| - 1], k);
    } else {
      assert p[..k] == p;
    }
  }

  // ---------------------------------------------------------------------------------
  // Navigation (common.py, `MdastNode` properties)

  /** A node of a tree, or a "null" node standing for the parent of a parentless node. */
  datatype NodeRef = NullRef | At(path: seq<nat>)

  predicate ValidRef(t: Node, r: NodeRef) {
    r.At? ==> ValidPath(t, r.path)
  }

  function Deref(t: Node, r: NodeRef): Node
    requires ValidRef(t, r)
  {
    match r
    case NullRef => NullNode
    case At(p) => NodeAt(t, p)
  }

  /** `parent`: the enclosing node, or a "null" node when there is none. */
  function Parent(t: Node, r: NodeRef): (q: NodeRef)
    requires ValidRef(t, r)
    ensures ValidRef(t, q)
    ensures q.At? <==> r.At? && r.path != []
    ensures q.At? ==> r.path == q.path + [r.path[|r.path| - 1]]
    ensures q.NullRef? ==> Deref(t, q).kind == Other("null") && Deref(t, q).children == []
  {
    match r
    case NullRef => NullRef
    case At(p) =>
      if p == [] then NullRef
      else
        PrefixValid(t, p, |p| - 1);
        At(p[..|p| - 1])
  }

  /** `root`: a node without a parent is its own root; otherwise the parent's root. */
  function Root(t: Node, r: NodeRef): (q: NodeRef)
    requires ValidRef(t, r)
    ensures r.At? ==> q == At([])
    ensures r.NullRef? ==> q == NullRef
    decreases if r.At? then |r.path| else 0
  {
    if r.NullRef? || r.path == [] then r else Root(t, Parent(t, r))
  }

  /** `children`: the stored list (empty where the key is absent). */
  function Children(t: Node, r: NodeRef): seq<Node>
    requires ValidRef(t, r)
  {
    Deref(t, r).children
  }

  /** Python's `list.index`: the first position holding an element equal to `x`. */
  function FirstIndex<T(==)>(s: seq<T>, x: T): (r: Option<nat>)
    ensures r.Some? ==> r.value < |s|
  {
    if s == [] then None
    else if s[0] == x then Some(0)
    else match FirstIndex(s[1..], x)
      case None => None
      case Some(j) => Some(j + 1)
  }

  /** `list.index` finds the first equal element, and raises exactly when there is none. */
  lemma {:induction false} FirstIndexSpec<T>(s: seq<T>, x: T)
    ensures FirstIndex(s, x).None? <==> x !in s
    ensures FirstIndex(s, x).Some? ==>
      s[FirstIndex(s, x).value] == x && forall k :: 0 <= k < FirstIndex(s, x).value ==> s[k] != x
  {
    if s != [] && s[0] != x {
      FirstIndexSpec(s[1..], x);
      assert s == [s[0]] + s[1..];
    }
  }

  /**
    `index`: the first position in the parent's children holding a node EQUAL to this one.
    None where Python's `index` raises: a node whose parent is the "null" node.
  */
  function Index(t: Node, r: NodeRef): Option<nat>
    requires ValidRef(t, r)
  {
    FirstIndex(Children(t, Parent(t, r)), Deref(t, r))
  }

  /** The error `index` raises for a node that is not among its parent's children. */
  datatype NavError = NotInParent

  /** `previous_sibling`: None at position 0, otherwise the child before. */
  function PreviousSibling(t: Node, r: NodeRef): (s: Result<Option<NodeRef>, NavError>)
    requires ValidRef(t, r)
    ensures s.Ok? && s.value.Some? ==> ValidRef(t, s.value.value) && s.value.value.At?
  {
    SiblingBefore(t, r, Index(t, r))
  }

  /** The sibling before position `index` of the node's parent. */
  function SiblingBefore(t: Node, r: NodeRef, index: Option<nat>): (s: Result<Option<NodeRef>, NavError>)
    requires ValidRef(t, r) && (index.Some? ==> index.value < |Children(t, Parent(t, r))|)
    ensures s.Ok? && s.value.Some? ==> ValidRef(t, s.value.value) && s.value.value.At?
  {
    match index
    case None => Err(NotInParent)
    case Some(j) =>
      if j == 0 then Ok(None)
      else
        var q := Parent(t, r);
        ChildAt(t, q.path, j - 1);
        Ok(Some(At(q.path + [j - 1])))
  }

  /** `next_sibling`: the child after, or None for the last child. */
  function NextSibling(t: Node, r: NodeRef): (s: Result<Option<NodeRef>, NavError>)
    requires ValidRef(t, r)
    ensures s.Ok? && s.value.Some? ==> ValidRef(t, s.value.value) && s.value.value.At?
  {
    SiblingAfter(t, r, Index(t, r))
  }

  /** The sibling after position `index` of the node's parent. */
  function SiblingAfter(t: Node, r: NodeRef, index: Option<nat>): (s: Result<Option<NodeRef>, NavError>)
    requires ValidRef(t, r)
    ensures s.Ok? && s.value.Some? ==> ValidRef(t, s.value.value) && s.value.value.At?
  {
    match index
    case None => Err(NotInParent)
    case Some(j) =>
      var q := Parent(t, r);
      if j + 1 < |Children(t, q)| then
        ChildAt(t, q.path, j + 1);
        Ok(Some(At(q.path + [j + 1])))
      else Ok(None)
  }

  /** Every node that has a parent is found among its parent's children, at or before its own position. */
  lemma IndexOfChild(t: Node, p: seq<nat>)
    requires ValidPath(t, p) && p != []
    ensures Index(t, At(p)).Some?
    ensures Index(t, At(p)).value <= p[|p| - 1]
    ensures Children(t, Parent(t, At(p)))[Index(t, At(p)).value] == NodeAt(t, p)
  {
    ParentPath(t, p);
    var kids := Children(t, Parent(t, At(p)));
    assert kids == NodeAt(t, p[..|p| - 1]).children;
    assert kids[p[|p| - 1]] == NodeAt(t, p) == Deref(t, At(p));
    FirstIndexSpec(kids, NodeAt(t, p));
  }

  /** The parentless top node and the "null" node are not anyone's child: `index` raises. */
  lemma IndexOfTop(t: Node)
    ensures Index(t, At([])).None? && Index(t, NullRef).None?
    ensures NextSibling(t, At([])).Err? && PreviousSibling(t, At([])).Err?
  {
  }

  /** Siblings that are pairwise different: `index` is the node's own position. */
  predicate DistinctChildren(n: Node) {
    forall i, j :: 0 <= i < j < |n.children| ==> n.children[i] != n.children[j]
  }

  lemma IndexOfDistinct(t: Node, p: seq<nat>)
    requires ValidPath(t, p) && p != []
    requires DistinctChildren(NodeAt(t, p[..|p| - 1]))
    ensures Index(t, At(p)) == Some(p[|p| - 1])
  {
    var q, i := p[..|p| - 1], p[|p| - 1];
    ParentPath(t, p);
    var kids := NodeAt(t, q).children;
    assert Children(t, Parent(t, At(p))) == kids;
    assert Deref(t, At(p)) == kids[i];
    FirstIndexDistinct(kids, i);
  }

  /** The siblings are the neighbours of the position `index` reports. */
  lemma SiblingsAt(t: Node, p: seq<nat>, j: nat)
    requires ValidPath(t, p) && p != [] && Index(t, At(p)) == Some(j)
    ensures NextSibling(t, At(p)) ==
      if j + 1 < |NodeAt(t, p[..|p| - 1]).children| then Ok(Some(At(p[..|p| - 1] + [j + 1]))) else Ok(None)
    ensures PreviousSibling(t, At(p)) ==
      if j == 0 then Ok(None) else Ok(Some(At(p[..|p| - 1] + [j - 1])))
  {
    SiblingAfterAt(t, p, j);
    SiblingBeforeAt(t, p, j);
  }

  lemma SiblingAfterAt(t: Node, p: seq<nat>, j: nat)
    requires ValidPath(t, p) && p != []
    ensures SiblingAfter(t, At(p), Some(j)) ==
      if j + 1 < |NodeAt(t, p[..|p| - 1]).children| then Ok(Some(At(p[..|p| - 1] + [j + 1]))) else Ok(None)
  {
    ParentPath(t, p);
  }

  lemma SiblingBeforeAt(t: Node, p: seq<nat>, j: nat)
    requires ValidPath(t, p) && p != [] && j < |Children(t, Parent(t, At(p)))|
    ensures SiblingBefore(t, At(p), Some(j)) ==
      if j == 0 then Ok(None) else Ok(Some(At(p[..|p| - 1] + [j - 1])))
  {
    ParentPath(t, p);
  }

  lemma ParentPath(t: Node, p: seq<nat>)
    requires ValidPath(t, p) && p != []
    ensures Parent(t, At(p)) == At(p[..|p| - 1])
  {
  }

  /** In a sequence without repeats, each element is first found at its own position. */
  lemma FirstIndexDistinct<T>(s: seq<T>, i: nat)
    requires i < |s| && forall j, k :: 0 <= j < k < |s| ==> s[j] != s[k]
    ensures FirstIndex(s, s[i]) == Some(i)
  {
    FirstIndexSpec(s, s[i]);
  }

  /** Two equal siblings: `index` of the second reports the first one's position. */
  lemma IndexOfRepeatedChild(t: Node, p: seq<nat>, i: nat, j: nat)
    requires ValidPath(t, p) && i < j < |NodeAt(t, p).children|
    requires NodeAt(t, p).children[i] == NodeAt(t, p).children[j]
    ensures ValidPath(t, p + [j]) && Index(t, At(p + [j])).Some? && Index(t, At(p + [j])).value <= i
  {
    ChildAt(t, p, j);
    assert (p + [j])[..|p|] == p;
    ParentPath(t, p + [j]);
    var kids := NodeAt(t, p).children;
    assert Children(t, Parent(t, At(p + [j]))) == kids && Deref(t, At(p + [j])) == kids[j];
    FirstIndexSpec(kids, kids[j]);
  }

  // ---------------------------------------------------------------------------------
  // walk

  /** One callback made by `walk`: `enter_callback` or `exit_callback` on the node at `path`. */
  datatype Visit = Enter(path: seq<nat>) | Exit(path: seq<nat>)

  /** The callbacks `walk` makes on the subtree at `p`, in the order it makes them. */
  function Walk(t: Node, p: seq<nat>): seq<Visit>
    requires ValidPath(t, p)
    decreases NodeAt(t, p), 1, 0
  {
    [Enter(p)] + WalkFrom(t, p, 0) + [Exit(p)]
  }

  /** The walks of the children of the node at `p` from child `i` onwards, in list order. */
  function WalkFrom(t: Node, p: seq<nat>, i: nat): seq<Visit>
    requires ValidPath(t, p) && i <= |NodeAt(t, p).children|
    decreases NodeAt(t, p), 0, |NodeAt(t, p).children| - i
  {
    if i == |NodeAt(t, p).children| then []
    else
      ChildAt(t, p, i);
      Walk(t, p + [i]) + WalkFrom(t, p, i + 1)
  }

  /** Every callback is made on a node of the subtree at `p`. */
  lemma {:induction false} WalkStaysInSubtree(t: Node, p: seq<nat>)
    requires ValidPath(t, p)
    ensures forall v :: v in Walk(t, p) ==> ValidPath(t, v.path) && p <= v.path
    decreases NodeAt(t, p), 1, 0
  {
    WalkFromStaysInSubtree(t, p, 0);
  }

  lemma {:induction false} WalkFromStaysInSubtree(t: Node, p: seq<nat>, i: nat)
    requires ValidPath(t, p) && i <= |NodeAt(t, p).children|
    ensures forall v :: v in WalkFrom(t, p, i) ==>
      ValidPath(t, v.path) && |v.path| > |p| && p <= v.path && v.path[|p|] >= i
    decreases NodeAt(t, p), 0, |NodeAt(t, p).children| - i
  {
    if i < |NodeAt(t, p).children| {
      ChildAt(t, p, i);
      WalkStaysInSubtree(t, p + [i]);
      WalkFromStaysInSubtree(t, p, i + 1);
      forall v | v in Walk(t, p + [i])
        ensures |v.path| > |p| && p <= v.path && v.path[|p|] == i
      {
        assert (p + [i]) <= v.path;
        assert v.path[|p|] == (p + [i])[|p|];
      }
    }
  }

  /** Every node of the subtree at `p` is entered and exited by its walk. */
  lemma {:induction false} WalkReachesSubtree(t: Node, p: seq<nat>, q: seq<nat>)
    requires ValidPath(t, q) && p <= q
    ensures ValidPath(t, p)
    ensures Enter(q) in Walk(t, p) && Exit(q) in Walk(t, p)
    decreases |q| - |p|
  {
    if q != p {
      var i := q[|p|];
      ChildOnPath(t, p, q);
      WalkReachesSubtree(t, p + [i], q);
      WalkFromContains(t, p, 0, i);
    }
  }

  /** Below `p` on the way to `q`: the child of `p` that `q` passes through. */
  lemma ChildOnPath(t: Node, p: seq<nat>, q: seq<nat>)
    requires ValidPath(t, q) && p <= q && p != q
    ensures ValidPath(t, p) && |p| < |q| && q[|p|] < |NodeAt(t, p).children| && p + [q[|p|]] <= q
  {
    PrefixStep(p, q);
    PrefixValid(t, q, |p| + 1);
    ChildOnPathStep(t, p, q[|p|]);
  }

  lemma PrefixStep(p: seq<nat>, q: seq<nat>)
    requires p <= q && p != q
    ensures |p| < |q| && q[..|p| + 1] == p + [q[|p|]] && p + [q[|p|]] <= q
  {
    assert q[..|p|] == p;
  }

  lemma ChildOnPathStep(t: Node, p: seq<nat>, i: nat)
    requires ValidPath(t, p + [i])
    ensures ValidPath(t, p) && i < |NodeAt(t, p).children|
  {
    assert (p + [i])[..|p|] == p;
  }

  lemma {:induction false} WalkFromContains(t: Node, p: seq<nat>, j: nat, i: nat)
    requires ValidPath(t, p) && j <= i < |NodeAt(t, p).children|
    ensures ValidPath(t, p + [i])
    ensures forall v :: v in Walk(t, p + [i]) ==> v in WalkFrom(t, p, j)
    decreases i - j
  {
    ChildAt(t, p, i);
    ChildAt(t, p, j);
    if j < i {
      WalkFromContains(t, p, j + 1, i);
    }
  }

  predicate NoDuplicates<T(==)>(s: seq<T>) {
    forall i, j :: 0 <= i < j < |s| ==> s[i] != s[j]
  }

  lemma NoDuplicatesConcat<T>(a: seq<T>, b: seq<T>)
    requires NoDuplicates(a) && NoDuplicates(b)
    requires forall x :: x in a ==> x !in b
    ensures NoDuplicates(a + b)
  {
    forall i, j | 0 <= i < j < |a + b| ensures (a + b)[i] != (a + b)[j] {
      if j >= |a| && i < |a| {
        assert (a + b)[i] in a && (a + b)[j] in b;
      }
    }
  }

  /** `walk` enters and exits each node exactly once. */
  lemma {:induction false} WalkOnce(t: Node, p: seq<nat>)
    requires ValidPath(t, p)
    ensures NoDuplicates(Walk(t, p))
    decreases NodeAt(t, p), 1, 0
  {
    WalkFromOnce(t, p, 0);
    WalkFromStaysInSubtree(t, p, 0);
    var mid := WalkFrom(t, p, 0);
    NoDuplicatesConcat([Enter(p)], mid);
    NoDuplicatesConcat([Enter(p)] + mid, [Exit(p)]);
  }

  lemma {:induction false} WalkFromOnce(t: Node, p: seq<nat>, i: nat)
    requires ValidPath(t, p) && i <= |NodeAt(t, p).children|
    ensures NoDuplicates(WalkFrom(t, p, i))
    decreases NodeAt(t, p), 0, |NodeAt(t, p).children| - i
  {
    if i < |NodeAt(t, p).children| {
      ChildAt(t, p, i);
      WalkOnce(t, p + [i]);
      WalkFromOnce(t, p, i + 1);
      WalkChildDisjoint(t, p, i);
      NoDuplicatesConcat(Walk(t, p + [i]), WalkFrom(t, p, i + 1));
    }
  }

  /** The walk of child `i` shares no visit with the walks of the children after it. */
  lemma WalkChildDisjoint(t: Node, p: seq<nat>, i: nat)
    requires ValidPath(t, p) && i < |NodeAt(t, p).children|
    ensures ValidPath(t, p + [i])
    ensures forall v :: v in Walk(t, p + [i]) ==> v !in WalkFrom(t, p, i + 1)
  {
    WalkChildPaths(t, p, i);
    WalkFromStaysInSubtree(t, p, i + 1);
    PositionsDisjoint(Walk(t, p + [i]), WalkFrom(t, p, i + 1), |p|, i);
  }

  /** Every visit of the walk of child `i` is below position `i`. */
  lemma WalkChildPaths(t: Node, p: seq<nat>, i: nat)
    requires ValidPath(t, p) && i < |NodeAt(t, p).children|
    ensures ValidPath(t, p + [i])
    ensures forall v :: v in Walk(t, p + [i]) ==> |v.path| > |p| && v.path[|p|] == i
  {
    ChildAt(t, p, i);
    WalkStaysInSubtree(t, p + [i]);
    forall v | v in Walk(t, p + [i]) ensures |v.path| > |p| && v.path[|p|] == i {
      assert (p + [i]) <= v.path;
      assert v.path[|p|] == (p + [i])[|p|];
    }
  }

  lemma PositionsDisjoint(a: seq<Visit>, b: seq<Visit>, d: nat, i: nat)
    requires forall v :: v in a ==> |v.path| > d && v.path[d] == i
    requires forall v :: v in b ==> |v.path| > d && v.path[d] > i
    ensures forall v :: v in a ==> v !in b
  {
  }

  /**
    A node is entered before every one of its descendants is entered or exited, and exited
    after all of them: the walk of a subtree opens with the node's enter, closes with its
    exit, and every other visit in it is on a strict descendant.
  */
  lemma EnterBeforeExitAfter(t: Node, p: seq<nat>, q: seq<nat>)
    requires ValidPath(t, q) && p < q
    ensures ValidPath(t, p)
    ensures var w := Walk(t, p);
      w[0] == Enter(p) && w[|w| - 1] == Exit(p) &&
      (exists i :: 0 < i < |w| - 1 && w[i] == Enter(q)) &&
      (exists i :: 0 < i < |w| - 1 && w[i] == Exit(q))
  {
    WalkReachesSubtree(t, p, q);
    var w := Walk(t, p);
    var a :| 0 <= a < |w| && w[a] == Enter(q);
    var b :| 0 <= b < |w| && w[b] == Exit(q);
    assert a != 0 && a != |w| - 1 && b != 0 && b != |w| - 1;
  }
}
