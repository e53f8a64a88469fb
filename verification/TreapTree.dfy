/** Binary trees of frames, places in them, and how an array of linked nodes spells
    them out. Everything here is a value; `Treap` holds the array. */
module TreapTree {
  import opened Types

  datatype Node = Node(key: nat, left: Link, right: Link, parent: Link, linked: bool)

  datatype Tree = Leaf | Fork(left: Tree, frame: FrameId, right: Tree)

  /** A tree with one subtree left out: the way from the hole up to the root. */
  datatype Context =
    | Top
    | LeftOf(parent: FrameId, right: Tree, up: Context)
    | RightOf(left: Tree, parent: FrameId, up: Context)

  function Plug(c: Context, t: Tree): Tree {
    match c
    case Top => t
    case LeftOf(p, right, up) => Plug(up, Fork(t, p, right))
    case RightOf(left, p, up) => Plug(up, Fork(left, p, t))
  }

  // Members in order

  function Inorder(t: Tree): seq<FrameId> {
    if t.Leaf? then [] else Inorder(t.left) + [t.frame] + Inorder(t.right)
  }

  function Before(c: Context): seq<FrameId> {
    match c
    case Top => []
    case LeftOf(_, _, up) => Before(up)
    case RightOf(left, p, up) => Before(up) + Inorder(left) + [p]
  }

  function After(c: Context): seq<FrameId> {
    match c
    case Top => []
    case LeftOf(p, right, up) => [p] + Inorder(right) + After(up)
    case RightOf(_, _, up) => After(up)
  }

  lemma {:induction false} InorderPlug(c: Context, t: Tree)
    ensures Inorder(Plug(c, t)) == Before(c) + Inorder(t) + After(c)
  {
    match c {
      case Top =>
      case LeftOf(p, right, up) => InorderPlug(up, Fork(t, p, right));
      case RightOf(left, p, up) => InorderPlug(up, Fork(left, p, t));
    }
  }

  // Frames of a tree and of a context

  function Frames(t: Tree): set<FrameId> {
    if t.Leaf? then {} else Frames(t.left) + {t.frame} + Frames(t.right)
  }

  function FramesUp(c: Context): set<FrameId> {
    match c
    case Top => {}
    case LeftOf(p, right, up) => {p} + Frames(right) + FramesUp(up)
    case RightOf(left, p, up) => {p} + Frames(left) + FramesUp(up)
  }

  predicate Distinct(t: Tree) {
    t.Leaf? || (&& t.frame !in Frames(t.left) && t.frame !in Frames(t.right) && Frames(t.left) !! Frames(t.right)
                && Distinct(t.left) && Distinct(t.right))
  }

  predicate DistinctUp(c: Context) {
    match c
    case Top => true
    case LeftOf(p, right, up) =>
      p !in Frames(right) && p !in FramesUp(up) && Frames(right) !! FramesUp(up) && Distinct(right) && DistinctUp(up)
    case RightOf(left, p, up) =>
      p !in Frames(left) && p !in FramesUp(up) && Frames(left) !! FramesUp(up) && Distinct(left) && DistinctUp(up)
  }

  predicate DistinctAt(c: Context, t: Tree) {
    Distinct(t) && DistinctUp(c) && Frames(t) !! FramesUp(c)
  }

  lemma {:induction false} PlugDistinct(c: Context, t: Tree)
    ensures Frames(Plug(c, t)) == Frames(t) + FramesUp(c)
    ensures Distinct(Plug(c, t)) <==> DistinctAt(c, t)
  {
    match c {
      case Top =>
      case LeftOf(p, right, up) => PlugDistinct(up, Fork(t, p, right));
      case RightOf(left, p, up) => PlugDistinct(up, Fork(left, p, t));
    }
  }

  lemma {:induction false} InorderFrames(t: Tree, f: FrameId)
    ensures f in Inorder(t) <==> f in Frames(t)
  {
    if t.Fork? {
      InorderFrames(t.left, f);
      InorderFrames(t.right, f);
    }
  }

  lemma {:induction false} InorderDistinct(t: Tree)
    requires Distinct(t)
    ensures forall i, j :: 0 <= i < j < |Inorder(t)| ==> Inorder(t)[i] != Inorder(t)[j]
  {
    if t.Fork? {
      InorderDistinct(t.left);
      InorderDistinct(t.right);
      forall f ensures f in Inorder(t.left) <==> f in Frames(t.left) {
        InorderFrames(t.left, f);
      }
      forall f ensures f in Inorder(t.right) <==> f in Frames(t.right) {
        InorderFrames(t.right, f);
      }
      var l, r := Inorder(t.left), Inorder(t.right);
      assert forall i :: 0 <= i < |l| ==> l[i] in l;
      assert forall i :: 0 <= i < |r| ==> r[i] in r;
      assert forall i :: |l| < i < |Inorder(t)| ==> Inorder(t)[i] == r[i - |l| - 1];
    }
  }

  // Linked nodes

  function RootLink(t: Tree): Link { if t.Leaf? then None else Some(t.frame) }

  function ParentLink(c: Context): Link { if c.Top? then None else Some(c.parent) }

  /** The root when the hole of the context holds `hole`. */
  function RootOf(c: Context, hole: Link): Link
    decreases c
  {
    if c.Top? then hole else RootOf(c.up, Some(c.parent))
  }

  predicate Links(n: Node, left: Link, right: Link, parent: Link) {
    n.left == left && n.right == right && n.parent == parent && n.linked
  }

  predicate Rep(nodes: seq<Node>, parent: Link, t: Tree)
    decreases t
  {
    t.Leaf? ||
    (&& t.frame < |nodes| && Links(nodes[t.frame], RootLink(t.left), RootLink(t.right), parent)
     && Rep(nodes, Some(t.frame), t.left) && Rep(nodes, Some(t.frame), t.right))
  }

  predicate RepUp(nodes: seq<Node>, hole: Link, c: Context)
    decreases c
  {
    match c
    case Top => true
    case LeftOf(p, right, up) =>
      && p < |nodes| && Links(nodes[p], hole, RootLink(right), ParentLink(up))
      && Rep(nodes, Some(p), right) && RepUp(nodes, Some(p), up)
    case RightOf(left, p, up) =>
      && p < |nodes| && Links(nodes[p], RootLink(left), hole, ParentLink(up))
      && Rep(nodes, Some(p), left) && RepUp(nodes, Some(p), up)
  }

  /** The nodes hold the tree, seen from the place between `c` and `t`. */
  predicate RepAt(nodes: seq<Node>, root: Link, c: Context, t: Tree) {
    && DistinctAt(c, t)
    && Rep(nodes, ParentLink(c), t) && RepUp(nodes, RootLink(t), c) && root == RootOf(c, RootLink(t))
  }

  /** The place may be moved one level up or down. */
  lemma MoveUp(nodes: seq<Node>, root: Link, c: Context, t: Tree)
    requires !c.Top?
    ensures RepAt(nodes, root, c, t) <==>
            RepAt(nodes, root, c.up, if c.LeftOf? then Fork(t, c.parent, c.right) else Fork(c.left, c.parent, t))
  {
  }

  lemma {:induction false} RepPlug(nodes: seq<Node>, root: Link, c: Context, t: Tree)
    ensures RepAt(nodes, root, c, t) <==> RepAt(nodes, root, Top, Plug(c, t))
    decreases c
  {
    match c {
      case Top =>
      case LeftOf(p, right, up) =>
        MoveUp(nodes, root, c, t);
        RepPlug(nodes, root, up, Fork(t, p, right));
      case RightOf(left, p, up) =>
        MoveUp(nodes, root, c, t);
        RepPlug(nodes, root, up, Fork(left, p, t));
    }
  }

  lemma {:induction false} RepSame(nodes: seq<Node>, nodes': seq<Node>, parent: Link, t: Tree)
    requires Rep(nodes, parent, t) && |nodes| == |nodes'|
    requires forall f :: f in Frames(t) && f < |nodes| ==> nodes'[f] == nodes[f]
    ensures Rep(nodes', parent, t)
    decreases t
  {
    if t.Fork? {
      RepSame(nodes, nodes', Some(t.frame), t.left);
      RepSame(nodes, nodes', Some(t.frame), t.right);
    }
  }

  lemma {:induction false} RepUpSame(nodes: seq<Node>, nodes': seq<Node>, hole: Link, c: Context)
    requires RepUp(nodes, hole, c) && |nodes| == |nodes'|
    requires forall f :: f in FramesUp(c) && f < |nodes| ==> nodes'[f] == nodes[f]
    ensures RepUp(nodes', hole, c)
    decreases c
  {
    match c {
      case Top =>
      case LeftOf(p, right, up) =>
        RepSame(nodes, nodes', Some(p), right);
        RepUpSame(nodes, nodes', Some(p), up);
      case RightOf(left, p, up) =>
        RepSame(nodes, nodes', Some(p), left);
        RepUpSame(nodes, nodes', Some(p), up);
    }
  }

  lemma {:induction false} RepInPool(nodes: seq<Node>, parent: Link, t: Tree, f: FrameId)
    requires Rep(nodes, parent, t) && f in Frames(t)
    ensures f < |nodes| && nodes[f].linked
    decreases t
  {
    if f in Frames(t.left) {
      RepInPool(nodes, Some(t.frame), t.left, f);
    } else if f in Frames(t.right) {
      RepInPool(nodes, Some(t.frame), t.right, f);
    }
  }

  // Replace: what hangs at a place

  /** Sets the link that the parent of the place (or the root) holds, and the parent
      of what is put there. */
  function Hung(nodes: seq<Node>, frame: FrameId, replacement: Link): seq<Node>
    requires frame < |nodes|
    requires nodes[frame].parent.Some? ==> nodes[frame].parent.value < |nodes|
    requires replacement.Some? ==> replacement.value < |nodes|
    ensures |Hung(nodes, frame, replacement)| == |nodes|
  {
    var parent := nodes[frame].parent;
    var linked :=
      if parent == None then nodes
      else if nodes[parent.value].left == Some(frame) then
        nodes[parent.value := nodes[parent.value].(left := replacement)]
      else nodes[parent.value := nodes[parent.value].(right := replacement)];
    if replacement == None then linked
    else linked[replacement.value := linked[replacement.value].(parent := parent)]
  }

  function HungRoot(nodes: seq<Node>, root: Link, frame: FrameId, replacement: Link): Link
    requires frame < |nodes|
  {
    if nodes[frame].parent == None then replacement else root
  }

  /** The context keeps its shape and now holds the replacement. */
  lemma HungUp(nodes: seq<Node>, root: Link, c: Context, t: Tree, replacement: Link)
    requires RepAt(nodes, root, c, t) && t.Fork?
    requires replacement.Some? ==> replacement.value < |nodes| && replacement.value !in FramesUp(c)
    ensures nodes[t.frame].parent == ParentLink(c) && (!c.Top? ==> c.parent < |nodes|)
    ensures RepUp(Hung(nodes, t.frame, replacement), replacement, c)
    ensures HungRoot(nodes, root, t.frame, replacement) == RootOf(c, replacement)
    ensures forall f :: 0 <= f < |nodes| && ParentLink(c) != Some(f) && replacement != Some(f) ==>
      Hung(nodes, t.frame, replacement)[f] == nodes[f]
  {
    if !c.Top? {
      HungContext(nodes, root, c, t, replacement);
    }
  }

  lemma HungContext(nodes: seq<Node>, root: Link, c: Context, t: Tree, replacement: Link)
    requires RepAt(nodes, root, c, t) && t.Fork? && !c.Top?
    requires replacement.Some? ==> replacement.value < |nodes| && replacement.value !in FramesUp(c)
    ensures nodes[t.frame].parent == ParentLink(c) && c.parent < |nodes|
    ensures RepUp(Hung(nodes, t.frame, replacement), replacement, c)
  {
    var nodes' := Hung(nodes, t.frame, replacement);
    match c {
      case LeftOf(p, right, up) =>
        RepSame(nodes, nodes', Some(p), right);
        RepUpSame(nodes, nodes', Some(p), up);
      case RightOf(left, p, up) =>
        assert left.Fork? ==> left.frame != t.frame;
        RepSame(nodes, nodes', Some(p), left);
        RepUpSame(nodes, nodes', Some(p), up);
    }
  }

  // Rotate: a node changes places with its parent

  /** The node under `frame` on the inner side gets `parent` above it. */
  function Adopted(nodes: seq<Node>, inner: Link, parent: FrameId): seq<Node>
    requires inner.Some? ==> inner.value < |nodes|
    ensures |Adopted(nodes, inner, parent)| == |nodes|
  {
    if inner == None then nodes else nodes[inner.value := nodes[inner.value].(parent := Some(parent))]
  }

  predicate CanRotate(nodes: seq<Node>, f: FrameId) {
    && f < |nodes| && nodes[f].parent.Some? && nodes[f].parent.value < |nodes| && nodes[f].parent.value != f
    && (nodes[nodes[f].parent.value].parent.Some? ==> nodes[nodes[f].parent.value].parent.value < |nodes|)
    && (nodes[f].left.Some? ==> nodes[f].left.value < |nodes|)
    && (nodes[f].right.Some? ==> nodes[f].right.value < |nodes|)
    && nodes[nodes[f].parent.value].parent != Some(f)
  }

  function Rotated(nodes: seq<Node>, f: FrameId): seq<Node>
    requires CanRotate(nodes, f)
    ensures |Rotated(nodes, f)| == |nodes|
  {
    var p := nodes[f].parent.value;
    var hung := Hung(nodes, p, Some(f));
    var inner := if hung[p].left == Some(f) then nodes[f].right else nodes[f].left;
    var swapped :=
      if hung[p].left == Some(f) then
        var cut := Adopted(hung[p := hung[p].(left := inner)], inner, p);
        cut[f := cut[f].(right := Some(p))]
      else
        var cut := Adopted(hung[p := hung[p].(right := inner)], inner, p);
        cut[f := cut[f].(left := Some(p))];
    swapped[p := swapped[p].(parent := Some(f))]
  }

  lemma AdoptedRep(nodes: seq<Node>, nodes': seq<Node>, parent: Link, t: Tree, p: FrameId)
    requires Rep(nodes, parent, t) && Distinct(t) && |nodes'| == |nodes|
    requires forall f :: f in Frames(t) && f < |nodes| ==>
      nodes'[f] == if RootLink(t) == Some(f) then nodes[f].(parent := Some(p)) else nodes[f]
    ensures Rep(nodes', Some(p), t)
  {
    if t.Fork? {
      RepSame(nodes, nodes', Some(t.frame), t.left);
      RepSame(nodes, nodes', Some(t.frame), t.right);
    }
  }

  lemma RepCanRotate(nodes: seq<Node>, root: Link, c: Context, t: Tree)
    requires RepAt(nodes, root, c, t) && !c.Top? && t.Fork?
    ensures CanRotate(nodes, t.frame) && nodes[t.frame].parent == Some(c.parent)
  {
    assert RepUp(nodes, Some(c.parent), c.up) && Rep(nodes, Some(t.frame), t.left)
      && Rep(nodes, Some(t.frame), t.right);
    assert !c.up.Top? ==> c.up.parent in FramesUp(c.up);
  }

  /** What a rotation stores in each node it touches. */
  predicate RotationStores(nodes: seq<Node>, nodes': seq<Node>, f: FrameId, p: FrameId, inner: Link, fIsLeft: bool)
    requires CanRotate(nodes, f) && nodes[f].parent == Some(p)
  {
    && |nodes'| == |nodes|
    && nodes'[f] == (if fIsLeft then nodes[f].(right := Some(p), parent := nodes[p].parent)
                     else nodes[f].(left := Some(p), parent := nodes[p].parent))
    && nodes'[p] ==
      (if fIsLeft then nodes[p].(left := inner, parent := Some(f)) else nodes[p].(right := inner, parent := Some(f)))
    && (forall g :: 0 <= g < |nodes| && g != f && g != p ==>
          nodes'[g] == if inner == Some(g) then nodes[g].(parent := Some(p)) else Hung(nodes, p, Some(f))[g])
  }

  lemma RotatedStores(nodes: seq<Node>, f: FrameId, p: FrameId, inner: Link, fIsLeft: bool)
    requires CanRotate(nodes, f) && nodes[f].parent == Some(p) && nodes[p].parent != Some(p)
    requires fIsLeft <==> nodes[p].left == Some(f)
    requires inner == (if fIsLeft then nodes[f].right else nodes[f].left)
    requires inner != Some(f) && inner != Some(p) && (inner.Some? ==> inner != nodes[p].parent)
    ensures RotationStores(nodes, Rotated(nodes, f), f, p, inner, fIsLeft)
  {
    var hung := Hung(nodes, p, Some(f));
    assert hung[p] == nodes[p] && hung[f] == nodes[f].(parent := nodes[p].parent);
  }

  predicate PartsApart(up: Context, f: FrameId, p: FrameId, outer: Tree, inner: Tree, sibling: Tree) {
    && f != p && {f, p} !! Frames(outer) + Frames(inner) + Frames(sibling)
    && Frames(outer) !! Frames(inner) && Frames(inner) !! Frames(sibling) && Frames(outer) !! Frames(sibling)
    && Distinct(outer) && Distinct(inner) && Distinct(sibling)
    && DistinctUp(up) && FramesUp(up) !! Frames(outer) + Frames(inner) + Frames(sibling) + {f, p}
  }

  lemma RightParts(up: Context, p: FrameId, right: Tree, a: Tree, f: FrameId, b: Tree)
    requires DistinctAt(LeftOf(p, right, up), Fork(a, f, b))
    ensures PartsApart(up, f, p, a, b, right) && DistinctAt(up, Fork(a, f, Fork(b, p, right)))
  {
    assert Frames(Fork(a, f, b)) == Frames(a) + {f} + Frames(b);
  }

  lemma LeftParts(up: Context, p: FrameId, left: Tree, a: Tree, f: FrameId, b: Tree)
    requires DistinctAt(RightOf(left, p, up), Fork(a, f, b))
    ensures PartsApart(up, f, p, b, a, left) && DistinctAt(up, Fork(Fork(left, p, a), f, b))
  {
    assert Frames(Fork(a, f, b)) == Frames(a) + {f} + Frames(b);
  }

  /** The parts of the two trees keep their nodes, up to the inner one's parent. */
  lemma RotationRep(nodes: seq<Node>, nodes': seq<Node>, root: Link, up: Context, f: FrameId, p: FrameId, fIsLeft: bool,
                    outer: Tree, inner: Tree, sibling: Tree)
    requires CanRotate(nodes, f) && nodes[f].parent == Some(p)
    requires RotationStores(nodes, nodes', f, p, RootLink(inner), fIsLeft)
    requires Rep(nodes, Some(f), outer) && Rep(nodes, Some(f), inner) && Rep(nodes, Some(p), sibling)
    requires PartsApart(up, f, p, outer, inner, sibling)
    requires forall g :: g in Frames(outer) + Frames(inner) + Frames(sibling) && g < |nodes| ==>
      Hung(nodes, p, Some(f))[g] == nodes[g]
    requires RepUp(Hung(nodes, p, Some(f)), Some(f), up)
    ensures Rep(nodes', Some(f), outer) && Rep(nodes', Some(p), inner) && Rep(nodes', Some(p), sibling)
    ensures RepUp(nodes', Some(f), up)
  {
    assert inner.Fork? ==> inner.frame in Frames(inner);
    RepUpSame(Hung(nodes, p, Some(f)), nodes', Some(f), up);
    RepSame(nodes, nodes', Some(f), outer);
    RepSame(nodes, nodes', Some(p), sibling);
    AdoptedRep(nodes, nodes', Some(f), inner, p);
  }

  /** A right rotation: the left child goes above its parent. */
  lemma RotateRight(nodes: seq<Node>, root: Link, up: Context, p: FrameId, right: Tree, a: Tree, f: FrameId, b: Tree)
    requires RepAt(nodes, root, LeftOf(p, right, up), Fork(a, f, b)) && CanRotate(nodes, f)
    requires nodes[f].parent == Some(p)
    ensures RepAt(Rotated(nodes, f), HungRoot(nodes, root, p, Some(f)), up, Fork(a, f, Fork(b, p, right)))
  {
    RightParts(up, p, right, a, f, b);
    RightHung(nodes, root, up, p, right, a, f, b);
    InnerApart(up, f, p, b);
    RotatedStores(nodes, f, p, RootLink(b), true);
    RotationRep(nodes, Rotated(nodes, f), root, up, f, p, true, a, b, right);
  }

  /** The child takes its parent's place in the tree above. */
  lemma RightHung(nodes: seq<Node>, root: Link, up: Context, p: FrameId, right: Tree, a: Tree, f: FrameId, b: Tree)
    requires RepAt(nodes, root, LeftOf(p, right, up), Fork(a, f, b)) && CanRotate(nodes, f)
    requires nodes[f].parent == Some(p)
    requires PartsApart(up, f, p, a, b, right)
    ensures RepUp(Hung(nodes, p, Some(f)), Some(f), up) && HungRoot(nodes, root, p, Some(f)) == RootOf(up, Some(f))
    ensures forall g :: g in Frames(a) + Frames(b) + Frames(right) && g < |nodes| ==>
      Hung(nodes, p, Some(f))[g] == nodes[g]
    ensures ParentLink(up) == nodes[p].parent
  {
    MoveUp(nodes, root, LeftOf(p, right, up), Fork(a, f, b));
    HungUp(nodes, root, up, Fork(Fork(a, f, b), p, right), Some(f));
    assert !up.Top? ==> up.parent in FramesUp(up);
  }

  lemma LeftHung(nodes: seq<Node>, root: Link, up: Context, p: FrameId, left: Tree, a: Tree, f: FrameId, b: Tree)
    requires RepAt(nodes, root, RightOf(left, p, up), Fork(a, f, b)) && CanRotate(nodes, f)
    requires nodes[f].parent == Some(p)
    requires PartsApart(up, f, p, b, a, left)
    ensures RepUp(Hung(nodes, p, Some(f)), Some(f), up) && HungRoot(nodes, root, p, Some(f)) == RootOf(up, Some(f))
    ensures forall g :: g in Frames(b) + Frames(a) + Frames(left) && g < |nodes| ==>
      Hung(nodes, p, Some(f))[g] == nodes[g]
    ensures ParentLink(up) == nodes[p].parent
  {
    MoveUp(nodes, root, RightOf(left, p, up), Fork(a, f, b));
    HungUp(nodes, root, up, Fork(left, p, Fork(a, f, b)), Some(f));
    assert !up.Top? ==> up.parent in FramesUp(up);
  }

  lemma InnerApart(up: Context, f: FrameId, p: FrameId, inner: Tree)
    requires f !in Frames(inner) && p !in Frames(inner) && FramesUp(up) !! Frames(inner) && p !in FramesUp(up)
    ensures RootLink(inner) != Some(f) && RootLink(inner) != Some(p)
    ensures ParentLink(up) != Some(p) && (inner.Fork? ==> RootLink(inner) != ParentLink(up))
  {
    assert inner.Fork? ==> inner.frame in Frames(inner);
    assert !up.Top? ==> up.parent in FramesUp(up);
  }

  /** A left rotation: the right child goes above its parent. */
  lemma RotateLeft(nodes: seq<Node>, root: Link, up: Context, p: FrameId, left: Tree, a: Tree, f: FrameId, b: Tree)
    requires RepAt(nodes, root, RightOf(left, p, up), Fork(a, f, b)) && CanRotate(nodes, f)
    requires nodes[f].parent == Some(p)
    ensures RepAt(Rotated(nodes, f), HungRoot(nodes, root, p, Some(f)), up, Fork(Fork(left, p, a), f, b))
  {
    LeftParts(up, p, left, a, f, b);
    LeftHung(nodes, root, up, p, left, a, f, b);
    InnerApart(up, f, p, a);
    InnerApart(up, f, p, left);
    RotatedStores(nodes, f, p, RootLink(a), false);
    RotationRep(nodes, Rotated(nodes, f), root, up, f, p, false, b, a, left);
  }
}
