/** An intrusive doubly linked list of frames over arrays of links. */
module FrameList {
  import opened Chains
  import opened Types

  datatype Links = Links(frontToBack: seq<Link>, backToFront: seq<Link>, linked: seq<bool>, front: Link, back: Link)

  /** The members are in the pool, once each, and the ends are those of the order. */
  ghost predicate Bounded(l: Links, order: seq<FrameId>) {
    && |l.frontToBack| == |l.backToFront| == |l.linked| && NoRepeats(order)
    && l.front == LinkTo(order, 0) && l.back == LinkTo(order, |order| - 1)
    && (forall i :: 0 <= i < |order| ==> order[i] < |l.linked|)
  }

  /** The links spell out the order both ways. */
  ghost predicate Threaded(l: Links, order: seq<FrameId>)
    requires Bounded(l, order)
  {
    && (forall i {:trigger l.frontToBack[order[i]]} :: 0 <= i < |order| ==>
      l.frontToBack[order[i]] == LinkTo(order, i + 1))
    && (forall i {:trigger l.backToFront[order[i]]} :: 0 <= i < |order| ==>
      l.backToFront[order[i]] == LinkTo(order, i - 1))
  }

  ghost predicate Marked(l: Links, order: seq<FrameId>) {
    forall f :: 0 <= f < |l.linked| ==> (l.linked[f] <==> f in order)
  }

  /** The list is the order from front to back. */
  ghost predicate Chained(l: Links, order: seq<FrameId>) {
    Bounded(l, order) && Threaded(l, order) && Marked(l, order)
  }

  function Pushed(l: Links, f: FrameId): Links
    requires f < |l.frontToBack| == |l.backToFront| == |l.linked| && (l.front.Some? ==> l.front.value < |l.linked|)
  {
    var backToFront := l.backToFront[f := None];
    Links(l.frontToBack[f := l.front],
          if l.front.Some? then backToFront[l.front.value := Some(f)] else backToFront,
          l.linked[f := true], Some(f), if l.back == None then Some(f) else l.back)
  }

  lemma PushKeeps(l: Links, order: seq<FrameId>, f: FrameId)
    requires Chained(l, order) && f < |l.linked| && !l.linked[f]
    ensures l.front.Some? ==> l.front.value < |l.linked|
    ensures Chained(Pushed(l, f), [f] + order)
  {
    var l', order' := Pushed(l, f), [f] + order;
    assert f !in order;
    assert forall i :: 0 < i < |order'| ==> order'[i] == order[i - 1];
    forall i | 0 <= i < |order'|
      ensures l'.frontToBack[order'[i]] == LinkTo(order', i + 1) && l'.backToFront[order'[i]] == LinkTo(order', i - 1)
    {
      PushNeighbours(l, order, f, i);
    }
  }

  lemma PushNeighbours(l: Links, order: seq<FrameId>, f: FrameId, i: nat)
    requires Chained(l, order) && f < |l.linked| && f !in order && i <= |order|
    requires l.front.Some? ==> l.front.value < |l.linked|
    ensures var l', order' := Pushed(l, f), [f] + order;
      order'[i] < |l.linked| && l'.frontToBack[order'[i]] == LinkTo(order', i + 1)
        && l'.backToFront[order'[i]] == LinkTo(order', i - 1)
  {
    var order' := [f] + order;
    if i == 0 {
      assert LinkTo(order', 1) == LinkTo(order, 0);
    } else {
      assert order'[i] == order[i - 1] && order[i - 1] in order;
      NeighboursOf(l, order, i - 1);
      assert LinkTo(order', i + 1) == LinkTo(order, i);
      assert i > 1 ==> LinkTo(order', i - 1) == LinkTo(order, i - 2) && order[i - 1] != order[0];
    }
  }

  function Unlinked(l: Links, f: FrameId): Links
    requires f < |l.frontToBack| == |l.backToFront| == |l.linked|
    requires l.frontToBack[f].Some? ==> l.frontToBack[f].value < |l.linked|
    requires l.backToFront[f].Some? ==> l.backToFront[f].value < |l.linked|
  {
    var towardBack, towardFront := l.frontToBack[f], l.backToFront[f];
    Links(if towardFront.Some? then l.frontToBack[towardFront.value := towardBack] else l.frontToBack,
          if towardBack.Some? then l.backToFront[towardBack.value := towardFront] else l.backToFront,
          l.linked[f := false],
          if towardFront.Some? then l.front else towardBack,
          if towardBack.Some? then l.back else towardFront)
  }

  lemma NeighboursOf(l: Links, order: seq<FrameId>, k: nat)
    requires Chained(l, order) && k < |order|
    ensures l.frontToBack[order[k]] == LinkTo(order, k + 1) && l.backToFront[order[k]] == LinkTo(order, k - 1)
  {
  }

  lemma UnlinkKeeps(l: Links, order: seq<FrameId>, k: nat)
    requires Chained(l, order) && k < |order|
    ensures var f := order[k];
      && (l.frontToBack[f].Some? ==> l.frontToBack[f].value < |l.linked|)
      && (l.backToFront[f].Some? ==> l.backToFront[f].value < |l.linked|)
      && Chained(Unlinked(l, f), Cut(order, k))
  {
    NeighboursOf(l, order, k);
    CutBounded(l, order, k);
    CutThreaded(l, order, k);
    CutMarked(l, order, k);
  }

  /** What the stores of an unlink need to know of the node. */
  ghost predicate Between(l: Links, order: seq<FrameId>, k: nat) {
    && Bounded(l, order) && k < |order|
    && l.frontToBack[order[k]] == LinkTo(order, k + 1) && l.backToFront[order[k]] == LinkTo(order, k - 1)
  }

  lemma CutBounded(l: Links, order: seq<FrameId>, k: nat)
    requires Between(l, order, k)
    ensures Bounded(Unlinked(l, order[k]), Cut(order, k))
  {
    CutKeeps(order, k);
  }

  lemma CutMarked(l: Links, order: seq<FrameId>, k: nat)
    requires Between(l, order, k) && Marked(l, order)
    ensures Marked(Unlinked(l, order[k]), Cut(order, k))
  {
    forall g | 0 <= g < |l.linked| ensures Unlinked(l, order[k]).linked[g] <==> g in Cut(order, k) {
      InCut(order, k, g);
    }
  }

  lemma CutThreaded(l: Links, order: seq<FrameId>, k: nat)
    requires Between(l, order, k) && Threaded(l, order) && Bounded(Unlinked(l, order[k]), Cut(order, k))
    ensures Threaded(Unlinked(l, order[k]), Cut(order, k))
  {
    var l', cut := Unlinked(l, order[k]), Cut(order, k);
    forall i | 0 <= i < |cut|
      ensures l'.frontToBack[cut[i]] == LinkTo(cut, i + 1) && l'.backToFront[cut[i]] == LinkTo(cut, i - 1)
    {
      CutNeighbours(l, order, k, i);
    }
  }

  lemma CutNeighbours(l: Links, order: seq<FrameId>, k: nat, i: nat)
    requires Between(l, order, k) && Threaded(l, order) && i < |order| - 1
    ensures var l', cut := Unlinked(l, order[k]), Cut(order, k);
      cut[i] < |l.linked| && l'.frontToBack[cut[i]] == LinkTo(cut, i + 1)
        && l'.backToFront[cut[i]] == LinkTo(cut, i - 1)
  {
    var cut, j := Cut(order, k), if i < k then i else i + 1;
    assert cut[i] == order[j];
    assert l.frontToBack[order[j]] == LinkTo(order, j + 1) && l.backToFront[order[j]] == LinkTo(order, j - 1);
    assert LinkTo(cut, i + 1) == if i + 1 == k then LinkTo(order, k + 1) else LinkTo(order, j + 1);
    assert LinkTo(cut, i - 1) == if i == k then LinkTo(order, k - 1) else LinkTo(order, j - 1);
  }

  class List {
    const frontToBack: array<Link>
    const backToFront: array<Link>
    const linked: array<bool>
    var front: Link
    var back: Link
    /** The members from front to back. */
    ghost var order: seq<FrameId>

    ghost function Now(): Links
      reads this, frontToBack, backToFront, linked
    {
      Links(frontToBack[..], backToFront[..], linked[..], front, back)
    }

    ghost predicate Valid()
      reads this, frontToBack, backToFront, linked
    {
      frontToBack != backToFront && Chained(Now(), order)
    }

    constructor (capacity: nat)
      ensures Valid() && order == [] && linked.Length == capacity
      ensures fresh(frontToBack) && fresh(backToFront) && fresh(linked)
    {
      frontToBack := new Link[capacity](_ => None);
      backToFront := new Link[capacity](_ => None);
      linked := new bool[capacity](_ => false);
      front, back, order := None, None, [];
    }

    method PushFront(f: FrameId)
      requires Valid() && f < linked.Length && !linked[f]
      modifies this, frontToBack, backToFront, linked
      ensures Valid() && order == [f] + old(order)
    {
      PushKeeps(Now(), order, f);
      ghost var pushed := Pushed(Now(), f);
      frontToBack[f] := front;
      backToFront[f] := None;
      if front.Some? {
        backToFront[front.value] := Some(f);
      }
      front := Some(f);
      if back == None {
        back := Some(f);
      }
      linked[f] := true;
      order := [f] + order;
      assert Now() == pushed;
    }

    method Unlink(f: FrameId)
      requires Valid() && f < linked.Length && linked[f]
      modifies this, frontToBack, backToFront, linked
      ensures Valid() && !linked[f]
      ensures forall k :: 0 <= k < |old(order)| && old(order)[k] == f ==> order == Cut(old(order), k)
      ensures exists k :: 0 <= k < |old(order)| && old(order)[k] == f && order == Cut(old(order), k)
    {
      ghost var k :| 0 <= k < |order| && order[k] == f;
      UnlinkKeeps(Now(), order, k);
      ghost var unlinked := Unlinked(Now(), f);
      var towardBack, towardFront := frontToBack[f], backToFront[f];
      if towardFront.Some? {
        frontToBack[towardFront.value] := towardBack;
      } else {
        front := towardBack;
      }
      if towardBack.Some? {
        backToFront[towardBack.value] := towardFront;
      } else {
        back := towardFront;
      }
      linked[f] := false;
      assert Now() == unlinked;
      order := Cut(order, k);
    }
  }
}
