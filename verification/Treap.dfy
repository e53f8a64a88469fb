/** An ordered set of frames keyed by (key, frame): a treap over an array of linked
    nodes with parent links. The array may be shared with other sets over other
    frames. Priorities come from any function of the frame. */
module Treap {
  import opened TreapTree
  import opened Types

  // Search order

  predicate Less(nodes: seq<Node>, a: FrameId, b: FrameId)
    requires a < |nodes| && b < |nodes|
  {
    nodes[a].key < nodes[b].key || (nodes[a].key == nodes[b].key && a < b)
  }

  predicate InPool(nodes: seq<Node>, s: seq<FrameId>) { forall i :: 0 <= i < |s| ==> s[i] < |nodes| }

  /** Strictly increasing, so every member occurs once. */
  ghost predicate Sorted(nodes: seq<Node>, s: seq<FrameId>) {
    InPool(nodes, s) && forall i, j :: 0 <= i < j < |s| ==> Less(nodes, s[i], s[j])
  }

  /** A sequence with one frame put in, or taken out, somewhere. */
  ghost predicate PutIn(s: seq<FrameId>, f: FrameId, s': seq<FrameId>) {
    exists i :: 0 <= i <= |s| && s' == s[..i] + [f] + s[i..]
  }

  lemma PutBetween(before: seq<FrameId>, f: FrameId, after: seq<FrameId>)
    ensures PutIn(before + after, f, before + [f] + after)
  {
    var s := before + after;
    assert s[..|before|] == before && s[|before|..] == after;
  }

  predicate SameKeys(nodes: seq<Node>, nodes': seq<Node>) {
    |nodes'| == |nodes| && forall f :: 0 <= f < |nodes| ==> nodes'[f].key == nodes[f].key
  }

  lemma SortedSame(nodes: seq<Node>, nodes': seq<Node>, s: seq<FrameId>)
    requires Sorted(nodes, s) && |nodes'| == |nodes|
    requires forall i :: 0 <= i < |s| ==> nodes'[s[i]].key == nodes[s[i]].key
    ensures Sorted(nodes', s)
  {
  }

  /** Where a new frame belongs among the others. */
  ghost predicate FitsBetween(nodes: seq<Node>, before: seq<FrameId>, f: FrameId, after: seq<FrameId>) {
    && f < |nodes| && InPool(nodes, before) && InPool(nodes, after)
    && (forall i :: 0 <= i < |before| ==> Less(nodes, before[i], f))
    && (forall i :: 0 <= i < |after| ==> Less(nodes, f, after[i]))
  }

  lemma SortedInsert(nodes: seq<Node>, before: seq<FrameId>, f: FrameId, after: seq<FrameId>)
    requires Sorted(nodes, before + after) && FitsBetween(nodes, before, f, after)
    ensures Sorted(nodes, before + [f] + after)
  {
    var s, old' := before + [f] + after, before + after;
    assert forall i :: 0 <= i < |before| ==> s[i] == before[i] && old'[i] == before[i];
    assert forall i :: |before| < i < |s| ==> s[i] == after[i - |before| - 1] && old'[i - 1] == s[i];
  }

  lemma SortedErase(nodes: seq<Node>, before: seq<FrameId>, f: FrameId, after: seq<FrameId>)
    requires Sorted(nodes, before + [f] + after)
    ensures Sorted(nodes, before + after)
  {
    var s, s' := before + [f] + after, before + after;
    forall i | 0 <= i < |s'| ensures s'[i] < |nodes| {
      assert s'[i] == s[if i < |before| then i else i + 1];
    }
    forall i, j | 0 <= i < j < |s'| ensures Less(nodes, s'[i], s'[j]) {
      assert s'[i] == s[if i < |before| then i else i + 1];
      assert s'[j] == s[if j < |before| then j else j + 1];
    }
  }

  // Heap order

  predicate Under(priority: FrameId -> nat, t: Tree, bound: nat) { t.Leaf? || priority(t.frame) <= bound }

  predicate Heap(priority: FrameId -> nat, t: Tree) {
    t.Leaf? || (&& Under(priority, t.left, priority(t.frame)) && Under(priority, t.right, priority(t.frame))
                && Heap(priority, t.left) && Heap(priority, t.right))
  }

  /** The hole of the context may hold a root of this priority. */
  predicate Admits(priority: FrameId -> nat, c: Context, p: nat) { c.Top? || p <= priority(c.parent) }

  predicate AdmitsTree(priority: FrameId -> nat, c: Context, t: Tree) {
    t.Leaf? || Admits(priority, c, priority(t.frame))
  }

  predicate HeapUp(priority: FrameId -> nat, c: Context) {
    match c
    case Top => true
    case LeftOf(p, right, up) =>
      Heap(priority, right) && Under(priority, right, priority(p)) && Admits(priority, up, priority(p))
        && HeapUp(priority, up)
    case RightOf(left, p, up) =>
      Heap(priority, left) && Under(priority, left, priority(p)) && Admits(priority, up, priority(p))
        && HeapUp(priority, up)
  }

  lemma {:induction false} HeapPlug(priority: FrameId -> nat, c: Context, t: Tree)
    ensures Heap(priority, Plug(c, t)) <==> HeapUp(priority, c) && Heap(priority, t) && AdmitsTree(priority, c, t)
    decreases c
  {
    match c {
      case Top =>
      case LeftOf(p, right, up) => HeapPlug(priority, up, Fork(t, p, right));
      case RightOf(left, p, up) => HeapPlug(priority, up, Fork(left, p, t));
    }
  }

  /** A place whose root may be out of order with its parent, or with its children,
      but nothing else is: its children would fit under its parent. */
  predicate HeapAround(priority: FrameId -> nat, c: Context, a: Tree, b: Tree) {
    && HeapUp(priority, c) && Heap(priority, a) && Heap(priority, b)
    && AdmitsTree(priority, c, a) && AdmitsTree(priority, c, b)
  }

  /** The place of a member. */
  ghost function Locate(c: Context, t: Tree, f: FrameId): (place: (Context, Tree))
    requires f in Frames(t)
    ensures Plug(place.0, place.1) == Plug(c, t) && place.1.Fork? && place.1.frame == f
    decreases t
  {
    if t.frame == f then (c, t)
    else if f in Frames(t.left) then Locate(LeftOf(t.frame, t.right, c), t.left, f)
    else Locate(RightOf(t.left, t.frame, c), t.right, f)
  }

  // A new leaf

  function Attached(nodes: seq<Node>, parent: Link, goLeft: bool, f: FrameId): seq<Node>
    requires f < |nodes| && (parent.Some? ==> parent.value < |nodes|)
    ensures |Attached(nodes, parent, goLeft, f)| == |nodes|
  {
    var linked :=
      if parent == None then nodes
      else if goLeft then nodes[parent.value := nodes[parent.value].(left := Some(f))]
      else nodes[parent.value := nodes[parent.value].(right := Some(f))];
    linked[f := linked[f].(parent := parent)]
  }

  lemma AttachedRep(nodes: seq<Node>, root: Link, c: Context, f: FrameId)
    requires RepAt(nodes, root, c, Leaf) && f < |nodes| && f !in FramesUp(c)
    requires Links(nodes[f], None, None, None)
    ensures !c.Top? ==> c.parent < |nodes| && c.parent != f
    ensures RepAt(Attached(nodes, ParentLink(c), c.LeftOf?, f), RootOf(c, Some(f)), c, Fork(Leaf, f, Leaf))
  {
    var nodes' := Attached(nodes, ParentLink(c), c.LeftOf?, f);
    match c {
      case Top =>
      case LeftOf(p, right, up) =>
        RepSame(nodes, nodes', Some(p), right);
        RepUpSame(nodes, nodes', Some(p), up);
      case RightOf(left, p, up) =>
        RepSame(nodes, nodes', Some(p), left);
        RepUpSame(nodes, nodes', Some(p), up);
    }
  }

  lemma RotatedSameKeys(nodes: seq<Node>, f: FrameId)
    requires CanRotate(nodes, f)
    ensures SameKeys(nodes, Rotated(nodes, f))
  {
  }

  lemma RotatedElsewhere(nodes: seq<Node>, f: FrameId, g: FrameId)
    requires CanRotate(nodes, f) && g < |nodes| && g != f && nodes[f].parent != Some(g)
    requires nodes[f].left != Some(g) && nodes[f].right != Some(g) && nodes[nodes[f].parent.value].parent != Some(g)
    ensures Rotated(nodes, f)[g] == nodes[g]
  {
  }

  /** No key changes, and no node outside of `frames`. */
  ghost predicate Within(nodes: seq<Node>, nodes': seq<Node>, frames: set<FrameId>) {
    SameKeys(nodes, nodes') && forall f :: 0 <= f < |nodes| && f !in frames ==> nodes'[f] == nodes[f]
  }

  /** Rotations change links of members only, and no key. */
  lemma RotatedKeeps(nodes: seq<Node>, root: Link, c: Context, t: Tree)
    requires RepAt(nodes, root, c, t) && !c.Top? && t.Fork? && CanRotate(nodes, t.frame)
    requires nodes[t.frame].parent == Some(c.parent)
    ensures Within(nodes, Rotated(nodes, t.frame), Frames(t) + FramesUp(c))
  {
    RotatedSameKeys(nodes, t.frame);
    assert !c.up.Top? ==> c.up.parent in FramesUp(c.up);
    assert t.left.Fork? ==> t.left.frame in Frames(t.left);
    assert t.right.Fork? ==> t.right.frame in Frames(t.right);
    forall f | 0 <= f < |nodes| && f !in Frames(t) && f !in FramesUp(c) ensures Rotated(nodes, t.frame)[f] == nodes[f] {
      RotatedElsewhere(nodes, t.frame, f);
    }
  }

  // The rotation loops, one turn

  /** A new frame on its way up: only its parent may have too low a priority. */
  predicate Lifting(nodes: seq<Node>, root: Link, c: Context, a: Tree, f: FrameId, b: Tree, priority: FrameId -> nat) {
    && RepAt(nodes, root, c, Fork(a, f, b)) && HeapAround(priority, c, a, b)
    && Under(priority, a, priority(f)) && Under(priority, b, priority(f))
  }

  /** A new frame goes one level up. */
  lemma RotateUp(nodes: seq<Node>, root: Link, c: Context, a: Tree, f: FrameId, b: Tree, priority: FrameId -> nat)
    returns (a': Tree, b': Tree)
    requires Lifting(nodes, root, c, a, f, b, priority) && !c.Top? && priority(c.parent) < priority(f)
    ensures CanRotate(nodes, f) && nodes[f].parent == Some(c.parent)
    ensures Lifting(Rotated(nodes, f), HungRoot(nodes, root, c.parent, Some(f)), c.up, a', f, b', priority)
    ensures Inorder(Plug(c.up, Fork(a', f, b'))) == Inorder(Plug(c, Fork(a, f, b)))
    ensures Frames(Plug(c.up, Fork(a', f, b'))) == Frames(Plug(c, Fork(a, f, b)))
    ensures Within(nodes, Rotated(nodes, f), Frames(Plug(c, Fork(a, f, b))))
  {
    RepCanRotate(nodes, root, c, Fork(a, f, b));
    RotatedKeeps(nodes, root, c, Fork(a, f, b));
    PlugDistinct(c, Fork(a, f, b));
    var p, up := c.parent, c.up;
    if c.LeftOf? {
      RotateRight(nodes, root, up, p, c.right, a, f, b);
      a', b' := a, Fork(b, p, c.right);
      RotationInorder(up, a, f, b, p, c.right);
    } else {
      RotateLeft(nodes, root, up, p, c.left, a, f, b);
      a', b' := Fork(c.left, p, a), b;
      RotationInorder(up, c.left, p, a, f, b);
    }
    RotatedFrames(c, a, f, b, a', b');
  }

  lemma RotatedFrames(c: Context, a: Tree, f: FrameId, b: Tree, a': Tree, b': Tree)
    requires !c.Top? && Inorder(Plug(c.up, Fork(a', f, b'))) == Inorder(Plug(c, Fork(a, f, b)))
    ensures Frames(Plug(c.up, Fork(a', f, b'))) == Frames(Plug(c, Fork(a, f, b)))
  {
    forall g ensures g in Frames(Plug(c.up, Fork(a', f, b'))) <==> g in Frames(Plug(c, Fork(a, f, b))) {
      InorderFrames(Plug(c.up, Fork(a', f, b')), g);
      InorderFrames(Plug(c, Fork(a, f, b)), g);
    }
  }

  lemma RotationInorder(up: Context, a: Tree, f: FrameId, b: Tree, p: FrameId, right: Tree)
    ensures Inorder(Plug(up, Fork(a, f, Fork(b, p, right)))) == Inorder(Plug(up, Fork(Fork(a, f, b), p, right)))
  {
    InorderPlug(up, Fork(a, f, Fork(b, p, right)));
    InorderPlug(up, Fork(Fork(a, f, b), p, right));
    assert Inorder(Fork(a, f, Fork(b, p, right))) == Inorder(Fork(Fork(a, f, b), p, right));
  }

  /** A frame on its way down: only its own priority may be too low. */
  predicate Sinking(nodes: seq<Node>, root: Link, c: Context, a: Tree, f: FrameId, b: Tree, priority: FrameId -> nat) {
    RepAt(nodes, root, c, Fork(a, f, b)) && HeapAround(priority, c, a, b)
  }

  /** The child with the higher priority. */
  predicate PicksLeft(priority: FrameId -> nat, a: Tree, b: Tree) {
    b.Leaf? || (a.Fork? && priority(a.frame) > priority(b.frame))
  }

  function HigherChild(n: Node, priority: FrameId -> nat): FrameId
    requires n.left.Some? || n.right.Some?
  {
    if n.left == None then n.right.value
    else if n.right == None then n.left.value
    else if priority(n.left.value) > priority(n.right.value) then n.left.value else n.right.value
  }

  /** A place in a tree for a frame: what is above it and its two subtrees. */
  datatype Spot = Spot(up: Context, left: Tree, right: Tree)

  /** The place one level down, below the child of higher priority. */
  function Sunk(priority: FrameId -> nat, c: Context, a: Tree, b: Tree): Spot
    requires a.Fork? || b.Fork?
  {
    if PicksLeft(priority, a, b) then Spot(RightOf(a.left, a.frame, c), a.right, b)
    else Spot(LeftOf(b.frame, b.right, c), a, b.left)
  }

  /** A frame to be erased goes one level down. */
  lemma RotateDown(nodes: seq<Node>, root: Link, c: Context, a: Tree, f: FrameId, b: Tree, child: FrameId,
    priority: FrameId -> nat)
    requires Sinking(nodes, root, c, a, f, b, priority)
    requires (nodes[f].left.Some? || nodes[f].right.Some?) && child == HigherChild(nodes[f], priority)
    ensures (a.Fork? || b.Fork?) && CanRotate(nodes, child) && nodes[child].parent == Some(f)
    ensures var spot := Sunk(priority, c, a, b);
      Sinking(Rotated(nodes, child), HungRoot(nodes, root, f, Some(child)), spot.up, spot.left, f, spot.right, priority)
    ensures Within(nodes, Rotated(nodes, child), FramesUp(c) + Frames(a) + Frames(b) + {f})
  {
    if PicksLeft(priority, a, b) {
      LeftChildUp(nodes, root, c, a, f, b);
      LeftChildOrder(c, a, b, priority);
      LeftChildFrames(c, a, f, b);
    } else {
      RightChildUp(nodes, root, c, a, f, b);
      RightChildOrder(c, a, b, priority);
      RightChildFrames(c, a, f, b);
    }
  }

  /** What is before and after the frame stays, and it comes closer to having no children. */
  lemma SunkOrder(priority: FrameId -> nat, c: Context, a: Tree, f: FrameId, b: Tree)
    requires HeapAround(priority, c, a, b) && (a.Fork? || b.Fork?)
    ensures var spot := Sunk(priority, c, a, b);
      && Before(spot.up) + Inorder(spot.left) == Before(c) + Inorder(a)
      && Inorder(spot.right) + After(spot.up) == Inorder(b) + After(c)
      && Size(spot.left) + Size(spot.right) < Size(a) + Size(b)
      && FramesUp(spot.up) + Frames(spot.left) + Frames(spot.right) == FramesUp(c) + Frames(a) + Frames(b)
  {
    if PicksLeft(priority, a, b) {
      LeftChildOrder(c, a, b, priority);
      LeftChildFrames(c, a, f, b);
    } else {
      RightChildOrder(c, a, b, priority);
      RightChildFrames(c, a, f, b);
    }
  }

  lemma LeftChildFrames(c: Context, a: Tree, f: FrameId, b: Tree)
    requires a.Fork?
    ensures FramesUp(RightOf(a.left, a.frame, c)) + Frames(a.right) + Frames(b) == FramesUp(c) + Frames(a) + Frames(b)
    ensures Frames(a) + FramesUp(LeftOf(f, b, c)) == FramesUp(c) + Frames(a) + Frames(b) + {f}
  {
  }

  lemma RightChildFrames(c: Context, a: Tree, f: FrameId, b: Tree)
    requires b.Fork?
    ensures FramesUp(LeftOf(b.frame, b.right, c)) + Frames(a) + Frames(b.left) == FramesUp(c) + Frames(a) + Frames(b)
    ensures Frames(b) + FramesUp(RightOf(a, f, c)) == FramesUp(c) + Frames(a) + Frames(b) + {f}
  {
  }

  lemma LeftChildOrder(c: Context, a: Tree, b: Tree, priority: FrameId -> nat)
    requires HeapAround(priority, c, a, b) && a.Fork? && PicksLeft(priority, a, b)
    ensures HeapAround(priority, RightOf(a.left, a.frame, c), a.right, b)
    ensures Before(RightOf(a.left, a.frame, c)) + Inorder(a.right) == Before(c) + Inorder(a)
    ensures After(RightOf(a.left, a.frame, c)) == After(c) && Size(a.right) < Size(a)
  {
    assert Before(c) + (Inorder(a.left) + [a.frame] + Inorder(a.right)) ==
      Before(c) + Inorder(a.left) + [a.frame] + Inorder(a.right);
  }

  lemma RightChildOrder(c: Context, a: Tree, b: Tree, priority: FrameId -> nat)
    requires HeapAround(priority, c, a, b) && b.Fork? && !PicksLeft(priority, a, b)
    ensures HeapAround(priority, LeftOf(b.frame, b.right, c), a, b.left)
    ensures Inorder(b.left) + After(LeftOf(b.frame, b.right, c)) == Inorder(b) + After(c)
    ensures Before(LeftOf(b.frame, b.right, c)) == Before(c) && Size(b.left) < Size(b)
  {
    assert Inorder(b.left) + ([b.frame] + Inorder(b.right) + After(c)) ==
      Inorder(b.left) + [b.frame] + Inorder(b.right) + After(c);
  }

  lemma LeftChildUp(nodes: seq<Node>, root: Link, c: Context, a: Tree, f: FrameId, b: Tree)
    requires RepAt(nodes, root, c, Fork(a, f, b)) && a.Fork?
    ensures CanRotate(nodes, a.frame) && nodes[a.frame].parent == Some(f)
    ensures RepAt(Rotated(nodes, a.frame), HungRoot(nodes, root, f, Some(a.frame)), RightOf(a.left, a.frame, c),
      Fork(a.right, f, b))
    ensures Within(nodes, Rotated(nodes, a.frame), Frames(a) + FramesUp(LeftOf(f, b, c)))
  {
    MoveUp(nodes, root, LeftOf(f, b, c), a);
    RepCanRotate(nodes, root, LeftOf(f, b, c), a);
    RotatedKeeps(nodes, root, LeftOf(f, b, c), a);
    RotateRight(nodes, root, c, f, b, a.left, a.frame, a.right);
    MoveUp(Rotated(nodes, a.frame), HungRoot(nodes, root, f, Some(a.frame)), RightOf(a.left, a.frame, c),
      Fork(a.right, f, b));
  }

  lemma RightChildUp(nodes: seq<Node>, root: Link, c: Context, a: Tree, f: FrameId, b: Tree)
    requires RepAt(nodes, root, c, Fork(a, f, b)) && b.Fork?
    ensures CanRotate(nodes, b.frame) && nodes[b.frame].parent == Some(f)
    ensures RepAt(Rotated(nodes, b.frame), HungRoot(nodes, root, f, Some(b.frame)), LeftOf(b.frame, b.right, c),
      Fork(a, f, b.left))
    ensures Within(nodes, Rotated(nodes, b.frame), Frames(b) + FramesUp(RightOf(a, f, c)))
  {
    MoveUp(nodes, root, RightOf(a, f, c), b);
    RepCanRotate(nodes, root, RightOf(a, f, c), b);
    RotatedKeeps(nodes, root, RightOf(a, f, c), b);
    RotateLeft(nodes, root, c, f, a, b.left, b.frame, b.right);
    MoveUp(Rotated(nodes, b.frame), HungRoot(nodes, root, f, Some(b.frame)), LeftOf(b.frame, b.right, c),
      Fork(a, f, b.left));
  }

  function Size(t: Tree): nat { if t.Leaf? then 0 else Size(t.left) + 1 + Size(t.right) }

  /** The last step of an erase: a childless node is cut off. */
  lemma CutOff(nodes: seq<Node>, root: Link, c: Context, f: FrameId)
    requires RepAt(nodes, root, c, Fork(Leaf, f, Leaf))
    ensures f < |nodes| && nodes[f].parent == ParentLink(c) && (!c.Top? ==> c.parent < |nodes|)
    ensures var hung := Hung(nodes, f, None);
      RepAt(hung[f := hung[f].(linked := false)], HungRoot(nodes, root, f, None), c, Leaf)
    ensures var hung := Hung(nodes, f, None); Within(nodes, hung[f := hung[f].(linked := false)], {f} + FramesUp(c))
  {
    HungUp(nodes, root, c, Fork(Leaf, f, Leaf), None);
    var hung := Hung(nodes, f, None);
    assert f in Frames(Fork(Leaf, f, Leaf));
    RepUpSame(hung, hung[f := hung[f].(linked := false)], None, c);
    assert !c.Top? ==> c.parent in FramesUp(c);
  }

  // The descent of an insert

  lemma LessIsTotal(nodes: seq<Node>, a: FrameId, b: FrameId, c: FrameId)
    requires a < |nodes| && b < |nodes| && c < |nodes|
    ensures a != b ==> Less(nodes, a, b) || Less(nodes, b, a)
    ensures Less(nodes, a, b) && Less(nodes, b, c) ==> Less(nodes, a, c)
  {
  }

  lemma DescendLeft(nodes: seq<Node>, c: Context, t: Tree, f: FrameId)
    requires Sorted(nodes, Before(c) + Inorder(t) + After(c)) && t.Fork?
    requires FitsBetween(nodes, Before(c), f, After(c)) && t.frame < |nodes| && Less(nodes, f, t.frame)
    ensures FitsBetween(nodes, Before(c), f, After(LeftOf(t.frame, t.right, c)))
  {
    var s, k := Before(c) + Inorder(t) + After(c), |Before(c)| + |Inorder(t.left)|;
    var after := After(LeftOf(t.frame, t.right, c));
    assert s[k] == t.frame;
    assert s[k..] == after;
    forall i | 0 <= i < |after| ensures after[i] < |nodes| && Less(nodes, f, after[i]) {
      assert after[i] == s[k + i];
      LessIsTotal(nodes, f, t.frame, after[i]);
    }
  }

  lemma DescendRight(nodes: seq<Node>, c: Context, t: Tree, f: FrameId)
    requires Sorted(nodes, Before(c) + Inorder(t) + After(c)) && t.Fork? && f != t.frame
    requires FitsBetween(nodes, Before(c), f, After(c)) && t.frame < |nodes| && !Less(nodes, f, t.frame)
    ensures FitsBetween(nodes, Before(RightOf(t.left, t.frame, c)), f, After(c))
  {
    var s, k := Before(c) + Inorder(t) + After(c), |Before(c)| + |Inorder(t.left)|;
    var before := Before(RightOf(t.left, t.frame, c));
    assert s[k] == t.frame;
    assert s[..k + 1] == before;
    LessIsTotal(nodes, f, t.frame, f);
    forall i | 0 <= i < |before| ensures before[i] < |nodes| && Less(nodes, before[i], f) {
      assert before[i] == s[i];
      LessIsTotal(nodes, before[i], t.frame, f);
    }
  }

  ghost function Members(s: seq<FrameId>): set<FrameId> { set f | f in s }

  lemma MembersUp(c: Context)
    ensures Members(Before(c) + After(c)) == FramesUp(c)
  {
    InorderPlug(c, Leaf);
    PlugDistinct(c, Leaf);
    assert Before(c) + After(c) == Inorder(Plug(c, Leaf));
    forall f ensures f in Before(c) + After(c) <==> f in FramesUp(c) {
      InorderFrames(Plug(c, Leaf), f);
    }
  }

  lemma AttachedFits(start: seq<Node>, blank: seq<Node>, nodes: seq<Node>, c: Context, f: FrameId)
    requires f < |start| && |blank| == |start| && blank == start[f := blank[f]] && f !in FramesUp(c)
    requires FitsBetween(blank, Before(c), f, After(c)) && (!c.Top? ==> c.parent < |blank|)
    requires nodes == Attached(blank, ParentLink(c), c.LeftOf?, f)
    ensures FitsBetween(nodes, Before(c), f, After(c)) && Within(start[f := nodes[f]], nodes, FramesUp(c))
  {
    assert !c.Top? ==> c.parent in FramesUp(c);
    assert SameKeys(blank, nodes);
  }

  lemma InsertOrder(start: seq<Node>, attached: seq<Node>, nodes: seq<Node>, c: Context, f: FrameId,
    members: seq<FrameId>)
    requires Sorted(start, members) && members == Inorder(Plug(c, Leaf))
    requires FitsBetween(attached, Before(c), f, After(c))
    requires f < |start| == |attached| && f !in members
    requires Within(start[f := attached[f]], attached, FramesUp(c)) && Within(attached, nodes, {f} + FramesUp(c))
    ensures Sorted(nodes, Before(c) + [f] + After(c)) && PutIn(members, f, Before(c) + [f] + After(c))
  {
    InorderPlug(c, Leaf);
    assert members == Before(c) + After(c);
    InsertSorted(start, attached, nodes, Before(c), f, After(c));
    PutBetween(Before(c), f, After(c));
  }

  lemma InsertWithin(start: seq<Node>, attached: seq<Node>, nodes: seq<Node>, c: Context, f: FrameId,
    members: seq<FrameId>)
    requires members == Inorder(Plug(c, Leaf)) && f < |start| == |attached|
    requires Within(start[f := attached[f]], attached, FramesUp(c)) && Within(attached, nodes, {f} + FramesUp(c))
    ensures nodes[f].key == attached[f].key && Within(start[f := nodes[f]], nodes, Members(members))
  {
    InorderPlug(c, Leaf);
    assert members == Before(c) + After(c);
    MembersUp(c);
  }

  lemma InsertSorted(start: seq<Node>, attached: seq<Node>, nodes: seq<Node>, before: seq<FrameId>, f: FrameId,
    after: seq<FrameId>)
    requires Sorted(start, before + after) && FitsBetween(attached, before, f, after) && |start| == |attached|
    requires f !in before + after
    requires (forall g :: 0 <= g < |start| && g != f ==> attached[g].key == start[g].key) && SameKeys(attached, nodes)
    ensures Sorted(nodes, before + [f] + after)
  {
    SortedSame(start, attached, before + after);
    SortedInsert(attached, before, f, after);
    SortedSame(attached, nodes, before + [f] + after);
  }

  lemma EraseOrder(start: seq<Node>, sunk: seq<Node>, nodes: seq<Node>, c: Context, f: FrameId, members: seq<FrameId>)
    requires Sorted(start, members) && members == Before(c) + [f] + After(c)
    requires Within(start, sunk, FramesUp(c) + {f}) && Within(sunk, nodes, FramesUp(c) + {f})
    ensures Sorted(nodes, Inorder(Plug(c, Leaf))) && PutIn(Inorder(Plug(c, Leaf)), f, members)
  {
    assert Inorder(Plug(c, Leaf)) == Before(c) + After(c) by {
      InorderPlug(c, Leaf);
    }
    SortedErase(start, Before(c), f, After(c));
    assert SameKeys(start, nodes);
    SortedSame(start, nodes, Before(c) + After(c));
    PutBetween(Before(c), f, After(c));
  }

  lemma EraseWithin(start: seq<Node>, sunk: seq<Node>, nodes: seq<Node>, c: Context, f: FrameId, members: seq<FrameId>)
    requires members == Before(c) + [f] + After(c)
    requires Within(start, sunk, FramesUp(c) + {f}) && Within(sunk, nodes, FramesUp(c) + {f})
    ensures Within(start, nodes, Members(members))
  {
    MembersUp(c);
    forall g ensures g in FramesUp(c) + {f} <==> g in members {
      assert g in FramesUp(c) <==> g in Before(c) + After(c);
    }
  }

  lemma SinkEnds(nodes: seq<Node>, root: Link, c: Context, a: Tree, f: FrameId, b: Tree, priority: FrameId -> nat)
    requires Sinking(nodes, root, c, a, f, b, priority) && nodes[f].left == None && nodes[f].right == None
    ensures a == Leaf && b == Leaf && Before(c) + Inorder(a) == Before(c) && Inorder(b) + After(c) == After(c)
    ensures FramesUp(c) + Frames(a) + Frames(b) == FramesUp(c)
  {
  }

  /** The place of a member, ready to sink. */
  lemma SinkingFrom(nodes: seq<Node>, root: Link, tree: Tree, f: FrameId, priority: FrameId -> nat)
    returns (c: Context, a: Tree, b: Tree)
    requires RepAt(nodes, root, Top, tree) && Heap(priority, tree) && f in Inorder(tree)
    ensures Sinking(nodes, root, c, a, f, b, priority)
    ensures Inorder(tree) == Before(c) + Inorder(a) + [f] + (Inorder(b) + After(c))
  {
    InorderFrames(tree, f);
    var (place, t) := Locate(Top, tree, f);
    RepPlug(nodes, root, place, t);
    HeapPlug(priority, place, t);
    c, a, b := place, t.left, t.right;
    InorderAt(place, t);
  }

  lemma InorderAt(c: Context, t: Tree)
    requires t.Fork?
    ensures Inorder(Plug(c, t)) == (Before(c) + Inorder(t.left)) + [t.frame] + (Inorder(t.right) + After(c))
  {
    InorderPlug(c, t);
    Regroup(Before(c), Inorder(t.left), [t.frame], Inorder(t.right), After(c));
  }

  lemma Regroup(s: seq<FrameId>, t: seq<FrameId>, u: seq<FrameId>, v: seq<FrameId>, w: seq<FrameId>)
    ensures s + (t + u + v) + w == (s + t) + u + (v + w)
  {
  }

  // Walking in order

  /** The first or the last of a sequence. */
  function End(s: seq<FrameId>, first: bool): Link {
    if s == [] then None else if first then Some(s[0]) else Some(s[|s| - 1])
  }

  /** The element after index `i`, or before it. */
  function Neighbour(s: seq<FrameId>, i: nat, forward: bool): Link
    requires i < |s|
  {
    if forward then (if i + 1 < |s| then Some(s[i + 1]) else None)
    else (if i > 0 then Some(s[i - 1]) else None)
  }

  lemma ExtremeChild(t: Tree, leftmost: bool)
    requires t.Fork?
    ensures var child := if leftmost then t.left else t.right;
      End(Inorder(t), leftmost) == if child.Leaf? then Some(t.frame) else End(Inorder(child), leftmost)
  {
    assert t.left.Fork? ==> |Inorder(t.left)| > 0;
    assert t.right.Fork? ==> |Inorder(t.right)| > 0;
  }

  lemma PlaceOf(nodes: seq<Node>, root: Link, tree: Tree, f: FrameId) returns (c: Context, t: Tree)
    requires RepAt(nodes, root, Top, tree) && f in Inorder(tree)
    ensures RepAt(nodes, root, c, t) && t.Fork? && t.frame == f && Plug(c, t) == tree
    ensures |Before(c)| + |Inorder(t.left)| < |Inorder(tree)| && Inorder(tree)[|Before(c)| + |Inorder(t.left)|] == f
  {
    InorderFrames(tree, f);
    var place := Locate(Top, tree, f);
    c, t := place.0, place.1;
    RepPlug(nodes, root, c, t);
    InorderAt(c, t);
  }

  lemma IndexIsUnique(tree: Tree, f: FrameId, k: nat)
    requires Distinct(tree) && k < |Inorder(tree)| && Inorder(tree)[k] == f
    ensures forall i :: 0 <= i < |Inorder(tree)| && Inorder(tree)[i] == f ==> i == k
  {
    InorderDistinct(tree);
  }

  lemma ChildNeighbour(c: Context, t: Tree, forward: bool)
    requires t.Fork? && (if forward then t.right.Fork? else t.left.Fork?)
    ensures var s, k := Inorder(Plug(c, t)), |Before(c)| + |Inorder(t.left)|;
      k < |s| && Neighbour(s, k, forward) == End(Inorder(if forward then t.right else t.left), forward)
  {
    InorderAt(c, t);
    assert t.left.Fork? ==> |Inorder(t.left)| > 0;
    assert t.right.Fork? ==> |Inorder(t.right)| > 0;
  }

  /** On the way up, a frame is on the side of its parent that its context says. */
  lemma ClimbSide(nodes: seq<Node>, root: Link, c: Context, t: Tree, forward: bool)
    requires RepAt(nodes, root, c, t) && t.Fork? && !c.Top?
    ensures c.parent < |nodes|
    ensures c.RightOf? ==> nodes[c.parent].right == Some(t.frame) && nodes[c.parent].left != Some(t.frame)
    ensures c.LeftOf? ==> nodes[c.parent].left == Some(t.frame) && nodes[c.parent].right != Some(t.frame)
    ensures nodes[c.parent].parent == ParentLink(c.up)
    ensures c.RightOf? ==> RepAt(nodes, root, c.up, Fork(c.left, c.parent, t))
    ensures c.LeftOf? ==> RepAt(nodes, root, c.up, Fork(t, c.parent, c.right))
  {
    MoveUp(nodes, root, c, t);
    if c.RightOf? {
      assert c.left.Fork? ==> c.left.frame in Frames(c.left);
    } else {
      assert c.right.Fork? ==> c.right.frame in Frames(c.right);
    }
  }

  lemma ParentNeighbour(nodes: seq<Node>, root: Link, c: Context, t: Tree, forward: bool, k: nat)
    requires RepAt(nodes, root, c, t) && t.Fork?
    requires if forward then |Before(c)| + |Inorder(t)| == k + 1 else |Before(c)| == k
    requires c.Top? || c.parent >= |nodes|
      || Some(t.frame) != (if forward then nodes[c.parent].right else nodes[c.parent].left)
    ensures k < |Inorder(Plug(c, t))| && ParentLink(c) == Neighbour(Inorder(Plug(c, t)), k, forward)
  {
    InorderPlug(c, t);
    assert |Inorder(t)| > 0;
    if !c.Top? {
      ClimbSide(nodes, root, c, t, forward);
      assert forward ==> After(c)[0] == c.parent;
      assert !forward ==> Before(c)[|Before(c)| - 1] == c.parent;
    }
  }

  class OrderedSet {
    const nodes: array<Node>
    const priority: FrameId -> nat
    var root: Link
    ghost var tree: Tree

    ghost predicate Valid()
      reads this, nodes
    {
      RepAt(nodes[..], root, Top, tree) && Sorted(nodes[..], Inorder(tree)) && Heap(priority, tree)
    }

    /** The members in order. */
    ghost function Elements(): seq<FrameId>
      reads this
    {
      Inorder(tree)
    }

    constructor (nodes: array<Node>, priority: FrameId -> nat)
      ensures Valid() && Elements() == [] && this.nodes == nodes && this.priority == priority
    {
      this.nodes, this.priority, root, tree := nodes, priority, None, Leaf;
    }

    method Replace(frame: FrameId, replacement: Link)
      requires frame < nodes.Length && (replacement.Some? ==> replacement.value < nodes.Length)
      requires nodes[frame].parent.Some? ==> nodes[frame].parent.value < nodes.Length
      modifies this`root, nodes
      ensures nodes[..] == Hung(old(nodes[..]), frame, replacement)
      ensures root == HungRoot(old(nodes[..]), old(root), frame, replacement)
    {
      var parent := nodes[frame].parent;
      if parent == None {
        root := replacement;
      } else if nodes[parent.value].left == Some(frame) {
        nodes[parent.value] := nodes[parent.value].(left := replacement);
      } else {
        nodes[parent.value] := nodes[parent.value].(right := replacement);
      }
      if replacement.Some? {
        nodes[replacement.value] := nodes[replacement.value].(parent := parent);
      }
    }

    /** Rotates a node above its parent. */
    method Rotate(frame: FrameId)
      requires CanRotate(nodes[..], frame)
      modifies this`root, nodes
      ensures nodes[..] == Rotated(old(nodes[..]), frame)
      ensures root == HungRoot(old(nodes[..]), old(root), old(nodes[frame].parent.value), Some(frame))
    {
      var parent := nodes[frame].parent.value;
      Replace(parent, Some(frame));
      if nodes[parent].left == Some(frame) {
        var inner := nodes[frame].right;
        nodes[parent] := nodes[parent].(left := inner);
        if inner.Some? {
          nodes[inner.value] := nodes[inner.value].(parent := Some(parent));
        }
        nodes[frame] := nodes[frame].(right := Some(parent));
      } else {
        var inner := nodes[frame].left;
        nodes[parent] := nodes[parent].(right := inner);
        if inner.Some? {
          nodes[inner.value] := nodes[inner.value].(parent := Some(parent));
        }
        nodes[frame] := nodes[frame].(left := Some(parent));
      }
      nodes[parent] := nodes[parent].(parent := Some(frame));
    }

    /** Walks down to the free place of a frame that is not yet a member. */
    method Descend(frame: FrameId) returns (parent: Link, goLeft: bool, ghost c: Context)
      requires frame < nodes.Length && RepAt(nodes[..], root, Top, tree) && Sorted(nodes[..], Inorder(tree))
      requires frame !in Frames(tree)
      ensures RepAt(nodes[..], root, c, Leaf) && Plug(c, Leaf) == tree && parent == ParentLink(c) && goLeft == c.LeftOf?
      ensures FitsBetween(nodes[..], Before(c), frame, After(c))
    {
      var link := root;
      parent, goLeft, c := None, false, Top;
      ghost var t := tree;
      while link.Some?
        invariant RepAt(nodes[..], root, c, t) && Plug(c, t) == tree && link == RootLink(t)
        invariant parent == ParentLink(c) && goLeft == c.LeftOf?
        invariant FitsBetween(nodes[..], Before(c), frame, After(c))
        decreases t
      {
        InorderPlug(c, t);
        PlugDistinct(c, t);
        var p := link.value;
        goLeft := Less(nodes[..], frame, p);
        if goLeft {
          DescendLeft(nodes[..], c, t, frame);
          link := nodes[p].left;
          c, t := LeftOf(p, t.right, c), t.left;
        } else {
          DescendRight(nodes[..], c, t, frame);
          link := nodes[p].right;
          c, t := RightOf(t.left, p, c), t.right;
        }
        MoveUp(nodes[..], root, c, t);
        parent := Some(p);
      }
    }

    /** Rotates a new leaf up until its parent's priority is high enough. */
    method Lift(frame: FrameId, ghost c0: Context)
      requires Lifting(nodes[..], root, c0, Leaf, frame, Leaf, priority)
      modifies this, nodes
      ensures RepAt(nodes[..], root, Top, tree) && Heap(priority, tree)
      ensures Inorder(tree) == Before(c0) + [frame] + After(c0)
      ensures Within(old(nodes[..]), nodes[..], {frame} + FramesUp(c0))
    {
      ghost var c, a, b := c0, Leaf, Leaf;
      InorderPlug(c, Fork(a, frame, b));
      PlugDistinct(c, Fork(a, frame, b));
      while nodes[frame].parent.Some? && priority(frame) > priority(nodes[frame].parent.value)
        invariant Lifting(nodes[..], root, c, a, frame, b, priority)
        invariant Inorder(Plug(c, Fork(a, frame, b))) == Before(c0) + [frame] + After(c0)
        invariant Frames(Plug(c, Fork(a, frame, b))) == {frame} + FramesUp(c0)
        invariant Within(old(nodes[..]), nodes[..], {frame} + FramesUp(c0))
        decreases c
      {
        ghost var a', b' := RotateUp(nodes[..], root, c, a, frame, b, priority);
        Rotate(frame);
        c, a, b := c.up, a', b';
      }
      HeapPlug(priority, c, Fork(a, frame, b));
      RepPlug(nodes[..], root, c, Fork(a, frame, b));
      tree := Plug(c, Fork(a, frame, b));
    }

    /** Hangs a new leaf at its place in the search order. */
    method Attach(frame: FrameId, key: nat) returns (ghost c: Context)
      requires Valid() && frame < nodes.Length && frame !in Elements()
      modifies this`root, nodes
      ensures Lifting(nodes[..], root, c, Leaf, frame, Leaf, priority) && Plug(c, Leaf) == tree
      ensures nodes[frame].key == key && FitsBetween(nodes[..], Before(c), frame, After(c))
      ensures Within(old(nodes[..])[frame := nodes[frame]], nodes[..], FramesUp(c))
    {
      ghost var start := nodes[..];
      ghost var blank := nodes[..][frame := Node(key, None, None, None, true)];
      InorderFrames(tree, frame);
      RepSame(start, blank, None, tree);
      SortedSame(start, blank, Inorder(tree));
      nodes[frame] := Node(key, None, None, None, true);
      assert nodes[..] == blank;
      var parent, goLeft;
      parent, goLeft, c := Descend(frame);
      PlugDistinct(c, Leaf);
      HeapPlug(priority, c, Leaf);
      AttachedRep(blank, root, c, frame);
      Hang(frame, parent, goLeft);
      AttachedFits(start, blank, nodes[..], c, frame);
    }

    method Hang(frame: FrameId, parent: Link, goLeft: bool)
      requires frame < nodes.Length && (parent.Some? ==> parent.value < nodes.Length)
      modifies this`root, nodes
      ensures nodes[..] == Attached(old(nodes[..]), parent, goLeft, frame)
      ensures root == if parent == None then Some(frame) else old(root)
    {
      if parent == None {
        root := Some(frame);
      } else if goLeft {
        nodes[parent.value] := nodes[parent.value].(left := Some(frame));
      } else {
        nodes[parent.value] := nodes[parent.value].(right := Some(frame));
      }
      nodes[frame] := nodes[frame].(parent := parent);
    }

    /** Adds a frame that is not yet a member. */
    method Insert(frame: FrameId, key: nat)
      requires Valid() && frame < nodes.Length && frame !in Elements()
      modifies this, nodes
      ensures Valid() && PutIn(old(Elements()), frame, Elements()) && nodes[frame].key == key
      ensures Within(old(nodes[..])[frame := nodes[frame]], nodes[..], Members(old(Elements())))
    {
      ghost var start, members := nodes[..], Elements();
      ghost var c := Attach(frame, key);
      ghost var attached := nodes[..];
      Lift(frame, c);
      InsertOrder(start, attached, nodes[..], c, frame, members);
      InsertWithin(start, attached, nodes[..], c, frame, members);
    }

    /** Rotates a frame down until it has no children. */
    method Sink(frame: FrameId, ghost c0: Context, ghost a0: Tree, ghost b0: Tree) returns (ghost c: Context)
      requires Sinking(nodes[..], root, c0, a0, frame, b0, priority)
      modifies this`root, nodes
      ensures Sinking(nodes[..], root, c, Leaf, frame, Leaf, priority)
      ensures Before(c) == Before(c0) + Inorder(a0) && After(c) == Inorder(b0) + After(c0)
      ensures FramesUp(c) == FramesUp(c0) + Frames(a0) + Frames(b0)
      ensures Within(old(nodes[..]), nodes[..], FramesUp(c) + {frame})
    {
      c := c0;
      ghost var a, b := a0, b0;
      while nodes[frame].left.Some? || nodes[frame].right.Some?
        invariant Sinking(nodes[..], root, c, a, frame, b, priority)
        invariant Before(c) + Inorder(a) == Before(c0) + Inorder(a0) && Inorder(b) + After(c) == Inorder(b0) + After(c0)
        invariant FramesUp(c) + Frames(a) + Frames(b) == FramesUp(c0) + Frames(a0) + Frames(b0)
        invariant Within(old(nodes[..]), nodes[..], FramesUp(c) + Frames(a) + Frames(b) + {frame})
        decreases Size(a) + Size(b)
      {
        var child := HigherChild(nodes[frame], priority);
        RotateDown(nodes[..], root, c, a, frame, b, child, priority);
        SunkOrder(priority, c, a, frame, b);
        Rotate(child);
        ghost var spot := Sunk(priority, c, a, b);
        c, a, b := spot.up, spot.left, spot.right;
      }
      SinkEnds(nodes[..], root, c, a, frame, b, priority);
    }

    /** Cuts off a childless member. */
    method Detach(frame: FrameId, ghost c: Context)
      requires Sinking(nodes[..], root, c, Leaf, frame, Leaf, priority)
      modifies this, nodes
      ensures RepAt(nodes[..], root, Top, tree) && Heap(priority, tree) && tree == Plug(c, Leaf)
      ensures Within(old(nodes[..]), nodes[..], FramesUp(c) + {frame}) && frame < nodes.Length && !nodes[frame].linked
    {
      CutOff(nodes[..], root, c, frame);
      Replace(frame, None);
      nodes[frame] := nodes[frame].(linked := false);
      RepPlug(nodes[..], root, c, Leaf);
      HeapPlug(priority, c, Leaf);
      tree := Plug(c, Leaf);
    }

    /** Removes a member; a frame that is not linked is left alone. */
    method Erase(frame: FrameId)
      requires Valid() && frame < nodes.Length && (nodes[frame].linked ==> frame in Elements())
      modifies this, nodes
      ensures Valid() && !nodes[frame].linked
      ensures old(nodes[frame].linked) ==> PutIn(Elements(), frame, old(Elements()))
      ensures !old(nodes[frame].linked) ==> Elements() == old(Elements())
      ensures Within(old(nodes[..]), nodes[..], Members(old(Elements())))
    {
      if nodes[frame].linked {
        ghost var start, members := nodes[..], Elements();
        ghost var c0, a, b := SinkingFrom(start, root, tree, frame, priority);
        ghost var c := Sink(frame, c0, a, b);
        ghost var sunk := nodes[..];
        Detach(frame, c);
        EraseOrder(start, sunk, nodes[..], c, frame, members);
        EraseWithin(start, sunk, nodes[..], c, frame, members);
      }
    }

    /** The first or last frame of a subtree. */
    method Extreme(from: Link, leftmost: bool, ghost c0: Context, ghost t0: Tree) returns (end: Link)
      requires RepAt(nodes[..], root, c0, t0) && from == RootLink(t0)
      ensures end == End(Inorder(t0), leftmost)
    {
      if from == None {
        return None;
      }
      var frame := from.value;
      ghost var c, t := c0, t0;
      while true
        invariant RepAt(nodes[..], root, c, t) && t.Fork? && t.frame == frame
        invariant End(Inorder(t), leftmost) == End(Inorder(t0), leftmost)
        decreases t
      {
        ExtremeChild(t, leftmost);
        var child := if leftmost then nodes[frame].left else nodes[frame].right;
        if child == None {
          return Some(frame);
        }
        frame := child.value;
        c, t := if leftmost then LeftOf(t.frame, t.right, c) else RightOf(t.left, t.frame, c),
                if leftmost then t.left else t.right;
        MoveUp(nodes[..], root, c, t);
      }
    }

    method First() returns (first: Link)
      requires Valid()
      ensures first == End(Elements(), true)
    {
      first := Extreme(root, true, Top, tree);
    }

    method Last() returns (last: Link)
      requires Valid()
      ensures last == End(Elements(), false)
    {
      last := Extreme(root, false, Top, tree);
    }

    /** The member after a frame, or before it. */
    method Step(start: FrameId, forward: bool) returns (found: Link)
      requires Valid() && start in Elements()
      ensures forall i :: 0 <= i < |Elements()| && Elements()[i] == start ==> found == Neighbour(Elements(), i, forward)
    {
      ghost var c, t := PlaceOf(nodes[..], root, tree, start);
      ghost var k := |Before(c)| + |Inorder(t.left)|;
      IndexIsUnique(tree, start, k);
      var child := if forward then nodes[start].right else nodes[start].left;
      if child.Some? {
        ghost var inner := if forward then RightOf(t.left, t.frame, c) else LeftOf(t.frame, t.right, c);
        ghost var sub := if forward then t.right else t.left;
        MoveUp(nodes[..], root, inner, sub);
        found := Extreme(child, forward, inner, sub);
        ChildNeighbour(c, t, forward);
      } else {
        var frame := start;
        found := nodes[start].parent;
        while found.Some? && Some(frame) == (if forward then nodes[found.value].right else nodes[found.value].left)
          invariant RepAt(nodes[..], root, c, t) && t.Fork? && t.frame == frame && found == ParentLink(c)
          invariant Plug(c, t) == tree
          invariant if forward then |Before(c)| + |Inorder(t)| == k + 1 else |Before(c)| == k
          decreases c
        {
          ClimbSide(nodes[..], root, c, t, forward);
          frame := found.value;
          c, t := c.up, if forward then Fork(c.left, c.parent, t) else Fork(t, c.parent, c.right);
          found := nodes[found.value].parent;
        }
        ParentNeighbour(nodes[..], root, c, t, forward, k);
      }
    }

    method Next(frame: FrameId) returns (next: Link)
      requires Valid() && frame in Elements()
      ensures forall i :: 0 <= i < |Elements()| && Elements()[i] == frame ==> next == Neighbour(Elements(), i, true)
    {
      next := Step(frame, true);
    }

    method Previous(frame: FrameId) returns (previous: Link)
      requires Valid() && frame in Elements()
      ensures forall i :: 0 <= i < |Elements()| && Elements()[i] == frame ==>
        previous == Neighbour(Elements(), i, false)
    {
      previous := Step(frame, false);
    }
  }
}
