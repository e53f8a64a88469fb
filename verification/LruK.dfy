/** LRU-K: ring histories of the last K accesses, and two treaps over one array of
    nodes that order the frames for eviction. */
module LruK {
  import opened Arithmetic
  import opened TreapTree
  import opened Treap
  import opened Types

  // Ring histories

  datatype History = History(tracked: bool, count: nat, oldest: nat)

  /** The last `k` of a log. */
  function Recent(log: seq<nat>, k: nat): seq<nat> {
    if |log| <= k then log else log[|log| - k..]
  }

  lemma Wraps(i: nat, k: nat)
    requires 0 < k && i < 2 * k
    ensures i % k == if i < k then i else i - k
  {
    if i < k {
      DivisionIsUnique(i / k, i % k, 0, i, k);
    } else {
      DivisionIsUnique(i / k, i % k, 1, i - k, k);
    }
  }

  ghost predicate RingOk(h: History, ring: seq<nat>, log: seq<nat>) {
    var k := |ring|;
    && 0 < k && h.oldest < k && h.count == |Recent(log, k)|
    && forall age :: 0 <= age < h.count ==> ring[(h.oldest + age) % k] == Recent(log, k)[age]
  }

  function Appended(h: History, ring: seq<nat>, now: nat): (History, seq<nat>)
    requires 0 < |ring| && h.oldest < |ring|
  {
    if h.count < |ring| then
      (h.(count := h.count + 1), ring[(h.oldest + h.count) % |ring| := now])
    else
      (h.(oldest := (h.oldest + 1) % |ring|), ring[h.oldest := now])
  }

  /** Overwriting the oldest slot is appending to the log. */
  lemma AppendKeeps(h: History, ring: seq<nat>, log: seq<nat>, now: nat)
    requires RingOk(h, ring, log)
    ensures RingOk(Appended(h, ring, now).0, Appended(h, ring, now).1, log + [now])
  {
    if h.count < |ring| {
      FillKeeps(h, ring, log, now);
    } else {
      OverwriteKeeps(h, ring, log, now);
    }
  }

  lemma FillKeeps(h: History, ring: seq<nat>, log: seq<nat>, now: nat)
    requires RingOk(h, ring, log) && h.count < |ring|
    ensures RingOk(Appended(h, ring, now).0, Appended(h, ring, now).1, log + [now])
  {
    var k, ring' := |ring|, Appended(h, ring, now).1;
    Wraps(h.oldest + h.count, k);
    forall age | 0 <= age < h.count + 1 ensures ring'[(h.oldest + age) % k] == Recent(log + [now], k)[age] {
      Wraps(h.oldest + age, k);
    }
  }

  lemma OverwriteKeeps(h: History, ring: seq<nat>, log: seq<nat>, now: nat)
    requires RingOk(h, ring, log) && h.count >= |ring|
    ensures RingOk(Appended(h, ring, now).0, Appended(h, ring, now).1, log + [now])
  {
    var k := |ring|;
    var (h', ring') := Appended(h, ring, now);
    Wraps(h.oldest + 1, k);
    forall age | 0 <= age < k ensures ring'[(h'.oldest + age) % k] == Recent(log + [now], k)[age] {
      Wraps(h'.oldest + age, k);
      if age < k - 1 {
        Wraps(h.oldest + age + 1, k);
        assert Recent(log + [now], k)[age] == Recent(log, k)[age + 1];
      }
    }
  }

  // Two queues over one node array

  /** The key a frame waits under: its latest access while it has fewer than `k`,
      its `k`-th most recent access after that. */
  function KeyOf(log: seq<nat>, k: nat): nat
    requires log != [] && k > 0
  {
    if |log| < k then log[|log| - 1] else log[|log| - k]
  }

  /** The key is in the ring: in its latest slot while it fills, in its oldest after. */
  lemma KeyInRing(h: History, ring: seq<nat>, log: seq<nat>)
    requires RingOk(h, ring, log) && log != []
    ensures h.count > 0 && (h.count < |ring| <==> |log| < |ring|)
    ensures h.count < |ring| ==>
      0 <= (h.oldest + (h.count - 1)) % |ring| < |ring|
        && ring[(h.oldest + (h.count - 1)) % |ring|] == KeyOf(log, |ring|)
    ensures h.count >= |ring| ==> 0 <= h.oldest % |ring| < |ring| && ring[h.oldest % |ring|] == KeyOf(log, |ring|)
  {
    if h.count < |ring| {
      assert ring[(h.oldest + (h.count - 1)) % |ring|] == Recent(log, |ring|)[h.count - 1];
    } else {
      assert ring[(h.oldest + 0) % |ring|] == Recent(log, |ring|)[0];
    }
  }

  /** A change outside of a set's members leaves the set alone. */
  lemma SetUntouched(nodes: seq<Node>, nodes': seq<Node>, root: Link, tree: Tree)
    requires RepAt(nodes, root, Top, tree) && Sorted(nodes, Inorder(tree)) && |nodes'| == |nodes|
    requires forall f :: f in Inorder(tree) && f < |nodes| ==> nodes'[f] == nodes[f]
    ensures RepAt(nodes', root, Top, tree) && Sorted(nodes', Inorder(tree))
  {
    forall f | f in Frames(tree) ensures f in Inorder(tree) {
      InorderFrames(tree, f);
    }
    RepSame(nodes, nodes', None, tree);
    SortedSame(nodes, nodes', Inorder(tree));
  }

  lemma PutInMembers(s: seq<FrameId>, f: FrameId, s': seq<FrameId>, g: FrameId)
    requires PutIn(s, f, s')
    ensures g in s' <==> g in s || g == f
  {
    var i :| 0 <= i <= |s| && s' == s[..i] + [f] + s[i..];
    assert s == s[..i] + s[i..];
  }

  lemma MembersLinked(nodes: seq<Node>, root: Link, tree: Tree, g: FrameId)
    requires RepAt(nodes, root, Top, tree) && g in Inorder(tree)
    ensures g < |nodes| && nodes[g].linked
  {
    InorderFrames(tree, g);
    RepInPool(nodes, None, tree, g);
  }

  /** The first member that may be evicted, in queue order. */
  method PickFrom(queue: OrderedSet, evictable: FrameId -> bool) returns (picked: Link)
    requires queue.Valid()
    ensures picked == None ==> forall g :: g in queue.Elements() ==> !evictable(g)
    ensures picked.Some? ==>
      picked.value in queue.Elements() && evictable(picked.value) && picked.value < queue.nodes.Length
    ensures picked.Some? ==>
      forall g :: g in queue.Elements() && evictable(g) && g != picked.value && g < queue.nodes.Length ==>
      Less(queue.nodes[..], picked.value, g)
  {
    picked := queue.First();
    ghost var members, i := queue.Elements(), 0;
    while picked.Some?
      invariant i <= |members| && picked == if i < |members| then Some(members[i]) else None
      invariant forall j :: 0 <= j < i ==> !evictable(members[j])
      decreases |members| - i
    {
      if evictable(picked.value) {
        return;
      }
      var candidate := picked.value;
      picked := queue.Next(candidate);
      assert queue.Elements()[i] == candidate;
      i := i + 1;
    }
  }

  // The state of the replacer as a value

  datatype View = View(
    k: nat,
    clock: nat,
    histories: seq<History>,
    rings: seq<seq<nat>>,
    /** The times of all accesses of each frame since it was last loaded. */
    log: seq<seq<nat>>,
    nodes: seq<Node>,
    incomplete: seq<FrameId>,
    complete: seq<FrameId>)

  ghost predicate Shape(v: View) {
    |v.histories| == |v.rings| == |v.log| == |v.nodes| && v.k > 0 && forall f :: 0 <= f < |v.rings| ==>
      |v.rings[f]| == v.k
  }

  /** The frame's history, its queue and its key agree. */
  ghost predicate FrameOk(v: View, f: FrameId)
    requires Shape(v) && f < |v.nodes|
  {
    var h := v.histories[f];
    && (h.tracked ==> && v.log[f] != [] && RingOk(h, v.rings[f], v.log[f]) && v.nodes[f].key == KeyOf(v.log[f], v.k)
                      && forall i :: 0 <= i < |v.log[f]| ==> v.log[f][i] <= v.clock)
    && v.nodes[f].linked == h.tracked
    && (f in v.incomplete <==> h.tracked && |v.log[f]| < v.k)
    && (f in v.complete <==> h.tracked && |v.log[f]| >= v.k)
  }

  ghost predicate Dequeued(v: View, f: FrameId)
    requires f < |v.nodes|
  {
    !v.nodes[f].linked && f !in v.incomplete && f !in v.complete
  }

  /** All frames are in order, except that `out` is in neither queue. */
  ghost predicate AllOk(v: View, out: Link) {
    Shape(v) && forall f: FrameId :: f < |v.nodes| ==> if Some(f) == out then Dequeued(v, f) else FrameOk(v, f)
  }

  /** One queue gives up the frame. */
  lemma ErasedOk(v: View, v': View, f: FrameId, queue: seq<FrameId>, queue': seq<FrameId>)
    requires AllOk(v, None) && f < |v.nodes| && f in queue && |v'.nodes| == |v.nodes|
    requires if queue == v.incomplete && f !in v.complete then v' == v.(nodes := v'.nodes, incomplete := queue')
             else queue == v.complete && f !in v.incomplete && v' == v.(nodes := v'.nodes, complete := queue')
    requires PutIn(queue', f, queue) && f !in queue' && !v'.nodes[f].linked && Within(v.nodes, v'.nodes, Members(queue))
    requires forall g :: g in queue' && g < |v'.nodes| ==> v'.nodes[g].linked
    ensures AllOk(v', Some(f))
  {
    forall g: FrameId | g < |v'.nodes| ensures if g == f then Dequeued(v', g) else FrameOk(v', g) {
      assert FrameOk(v, g);
      PutInMembers(queue', f, queue, g);
    }
  }

  /** One queue takes the frame in, under the key of its history. */
  lemma InsertedOk(v: View, v': View, f: FrameId, queue: seq<FrameId>, queue': seq<FrameId>)
    requires AllOk(v, Some(f)) && f < |v.nodes| && |v'.nodes| == |v.nodes| && v.histories[f].tracked && v.log[f] != []
    requires RingOk(v.histories[f], v.rings[f], v.log[f])
    requires forall i :: 0 <= i < |v.log[f]| ==> v.log[f][i] <= v.clock
    requires if |v.log[f]| < v.k then queue == v.incomplete && v' == v.(nodes := v'.nodes, incomplete := queue')
             else queue == v.complete && v' == v.(nodes := v'.nodes, complete := queue')
    requires PutIn(queue, f, queue') && v'.nodes[f].key == KeyOf(v.log[f], v.k)
    requires Within(v.nodes[f := v'.nodes[f]], v'.nodes, Members(queue))
    requires forall g :: g in queue' && g < |v'.nodes| ==> v'.nodes[g].linked
    ensures AllOk(v', None)
  {
    assert Dequeued(v, f);
    forall g: FrameId | g < |v'.nodes| ensures FrameOk(v', g) {
      assert g != f ==> FrameOk(v, g);
      PutInMembers(queue, f, queue', g);
    }
  }

  lemma QueuesApart(v: View)
    requires AllOk(v, None)
    ensures forall g: FrameId :: g < |v.nodes| && g in v.incomplete ==> g !in v.complete
  {
    forall g: FrameId | g < |v.nodes| && g in v.incomplete ensures g !in v.complete {
      assert FrameOk(v, g);
    }
  }

  lemma QueueAfterErase(nodes: seq<Node>, root: Link, tree: Tree, queue: seq<FrameId>, f: FrameId)
    requires RepAt(nodes, root, Top, tree) && PutIn(Inorder(tree), f, queue) && f < |nodes| && !nodes[f].linked
    ensures f !in Inorder(tree) && forall g :: g in Inorder(tree) && g < |nodes| ==> nodes[g].linked
  {
    forall g | g in Inorder(tree) ensures g < |nodes| && nodes[g].linked {
      MembersLinked(nodes, root, tree, g);
    }
  }

  lemma QueueLinked(nodes: seq<Node>, root: Link, tree: Tree)
    requires RepAt(nodes, root, Top, tree)
    ensures forall g :: g in Inorder(tree) && g < |nodes| ==> nodes[g].linked
  {
    forall g | g in Inorder(tree) ensures g < |nodes| && nodes[g].linked {
      MembersLinked(nodes, root, tree, g);
    }
  }

  lemma UntouchedByInsert(v: View, nodes: seq<Node>, f: FrameId, queue: seq<FrameId>, other: seq<FrameId>, root: Link,
    tree: Tree)
    requires AllOk(v, Some(f)) && f < |v.nodes| == |nodes| && Within(v.nodes[f := nodes[f]], nodes, Members(queue))
    requires (queue == v.incomplete && other == v.complete) || (queue == v.complete && other == v.incomplete)
    requires other == Inorder(tree) && RepAt(v.nodes, root, Top, tree) && Sorted(v.nodes, Inorder(tree))
    ensures RepAt(nodes, root, Top, tree) && Sorted(nodes, Inorder(tree))
  {
    assert Dequeued(v, f);
    forall g | g in Inorder(tree) && g < |nodes| ensures nodes[g] == v.nodes[g] {
      assert g != f && FrameOk(v, g);
    }
    SetUntouched(v.nodes, nodes, root, tree);
  }

  lemma LoadedLog(log: seq<seq<nat>>, f: FrameId, now: nat)
    requires f < |log|
    ensures log[f := []][f := log[f := []][f] + [now]] == log[f := [now]]
  {
    var empty: seq<nat> := [];
    assert empty + [now] == [now];
    assert log[f := empty][f] == empty;
  }

  lemma UntrackedIsOut(v: View, f: FrameId)
    requires AllOk(v, None) && f < |v.nodes| && !v.histories[f].tracked
    ensures AllOk(v, Some(f))
  {
    assert FrameOk(v, f);
    forall g: FrameId | g < |v.nodes| && g != f ensures FrameOk(v, g) {
      assert FrameOk(v, g);
    }
  }

  lemma ForgottenOk(v: View, f: FrameId)
    requires AllOk(v, Some(f)) && f < |v.nodes| && !v.histories[f].tracked
    ensures AllOk(v, None)
  {
    assert Dequeued(v, f);
    forall g: FrameId | g < |v.nodes| ensures FrameOk(v, g) {
      assert g != f ==> FrameOk(v, g);
    }
  }

  /** A frame out of both queues may change its history. */
  lemma HistoryOk(v: View, v': View, f: FrameId)
    requires AllOk(v, Some(f)) && f < |v.nodes| && v'.clock >= v.clock
    requires |v'.histories| == |v.histories| && |v'.rings| == |v.rings| && |v'.log| == |v.log|
    requires v' ==
      v.(clock := v'.clock, histories := v.histories[f := v'.histories[f]], rings := v.rings[f := v'.rings[f]],
                      log := v.log[f := v'.log[f]])
    requires |v'.rings[f]| == v.k
    ensures AllOk(v', Some(f))
  {
    forall g: FrameId | g < |v'.nodes| ensures if g == f then Dequeued(v', g) else FrameOk(v', g) {
      assert if g == f then Dequeued(v, g) else FrameOk(v, g);
    }
  }

  // The policy

  predicate Tracked(v: View, f: FrameId) { f < |v.histories| && v.histories[f].tracked }

  /** The victim the policy asks for: among the frames that may be evicted, one with
      fewer than `k` accesses whose latest access is oldest; if there is none, the
      one whose `k`-th most recent access is oldest. */
  ghost predicate IsVictim(v: View, evictable: FrameId -> bool, victim: FrameId)
    requires |v.log| == |v.histories| && v.k > 0
  {
    && Tracked(v, victim) && evictable(victim) && v.log[victim] != []
    && forall f: FrameId :: Tracked(v, f) && evictable(f) && v.log[f] != [] ==>
         if |v.log[victim]| < v.k then |v.log[f]| < v.k ==>
            v.log[victim][|v.log[victim]| - 1] <= v.log[f][|v.log[f]| - 1]
         else |v.log[f]| >= v.k && v.log[victim][|v.log[victim]| - v.k] <= v.log[f][|v.log[f]| - v.k]
  }

  lemma PickedIsVictim(v: View, evictable: FrameId -> bool, queue: seq<FrameId>, picked: FrameId)
    requires AllOk(v, None) && picked in queue && evictable(picked) && picked < |v.nodes|
    requires forall g :: g in queue && evictable(g) && g != picked && g < |v.nodes| ==> Less(v.nodes, picked, g)
    requires queue == v.incomplete || (queue == v.complete && forall g :: g in v.incomplete ==> !evictable(g))
    ensures IsVictim(v, evictable, picked)
  {
    assert FrameOk(v, picked);
    forall f: FrameId | Tracked(v, f) && evictable(f) && v.log[f] != []
      ensures if |v.log[picked]| < v.k then |v.log[f]| < v.k ==>
        v.log[picked][|v.log[picked]| - 1] <= v.log[f][|v.log[f]| - 1]
              else |v.log[f]| >= v.k && v.log[picked][|v.log[picked]| - v.k] <= v.log[f][|v.log[f]| - v.k]
    {
      assert FrameOk(v, f);
    }
  }

  class Replacer {
    const capacity: nat
    const k: nat
    const nodes: array<Node>
    const histories: array<History>
    /** The ring of timestamps of each frame. */
    const rings: array<seq<nat>>
    const incomplete: OrderedSet
    const complete: OrderedSet
    var clock: nat
    ghost var log: seq<seq<nat>>

    ghost function Now(): View
      reads this, incomplete, complete, nodes, histories, rings
    {
      View(k, clock, histories[..], rings[..], log, nodes[..], incomplete.Elements(), complete.Elements())
    }

    ghost predicate Sets()
      reads this, incomplete, complete, nodes
    {
      && nodes.Length == histories.Length == rings.Length == capacity
      && incomplete != complete && incomplete.nodes == nodes && complete.nodes == nodes
      && incomplete.Valid() && complete.Valid()
    }

    ghost predicate ValidBut(out: Link)
      reads this, incomplete, complete, nodes, histories, rings
    {
      Sets() && AllOk(Now(), out)
    }

    ghost predicate Valid()
      reads this, incomplete, complete, nodes, histories, rings
    {
      ValidBut(None)
    }

    /** A history length of zero counts as one. */
    constructor (capacity: nat, historyLength: nat, priority: FrameId -> nat)
      ensures Valid() && this.capacity == capacity && k == (if historyLength == 0 then 1 else historyLength)
      ensures clock == 0 && forall f :: 0 <= f < capacity ==> !histories[f].tracked
    {
      var length := if historyLength == 0 then 1 else historyLength;
      var blank := new Node[capacity](_ => Node(0, None, None, None, false));
      this.capacity, k, nodes, clock, log := capacity, length, blank, 0, seq(capacity, _ => []);
      histories := new History[capacity](_ => History(false, 0, 0));
      rings := new seq<nat>[capacity](_ => seq(length, _ => 0));
      incomplete := new OrderedSet(blank, priority);
      complete := new OrderedSet(blank, priority);
      new;
      assert forall f: FrameId :: f < capacity ==> FrameOk(Now(), f);
    }

    /** Takes a tracked frame out of its queue. */
    method Dequeue(f: FrameId)
      requires Valid() && f < capacity && histories[f].tracked
      modifies incomplete, complete, nodes
      ensures ValidBut(Some(f))
    {
      assert FrameOk(Now(), f);
      if histories[f].count < k {
        DequeueIncomplete(f);
      } else {
        DequeueComplete(f);
      }
    }

    method DequeueIncomplete(f: FrameId)
      requires Valid() && f in incomplete.Elements() && f < capacity
      modifies incomplete, nodes
      ensures ValidBut(Some(f))
    {
      ghost var v := Now();
      QueuesApart(v);
      assert FrameOk(v, f);
      incomplete.Erase(f);
      SetUntouched(v.nodes, nodes[..], complete.root, complete.tree);
      QueueAfterErase(nodes[..], incomplete.root, incomplete.tree, v.incomplete, f);
      assert Now() == v.(nodes := nodes[..], incomplete := incomplete.Elements());
      ErasedOk(v, Now(), f, v.incomplete, incomplete.Elements());
    }

    method DequeueComplete(f: FrameId)
      requires Valid() && f in complete.Elements() && f < capacity
      modifies complete, nodes
      ensures ValidBut(Some(f))
    {
      ghost var v := Now();
      QueuesApart(v);
      assert FrameOk(v, f);
      complete.Erase(f);
      SetUntouched(v.nodes, nodes[..], incomplete.root, incomplete.tree);
      QueueAfterErase(nodes[..], complete.root, complete.tree, v.complete, f);
      assert Now() == v.(nodes := nodes[..], complete := complete.Elements());
      ErasedOk(v, Now(), f, v.complete, complete.Elements());
    }

    /** The history of a frame that is out of both queues. */
    ghost predicate HistoryReady(f: FrameId)
      requires f < histories.Length && f < rings.Length && f < |log|
      reads this, histories, rings
    {
      RingOk(histories[f], rings[f], log[f]) && forall i :: 0 <= i < |log[f]| ==> log[f][i] <= clock
    }

    /** Puts a frame into the queue its history calls for. */
    method Enqueue(f: FrameId)
      requires ValidBut(Some(f)) && f < capacity && histories[f].tracked && log[f] != [] && HistoryReady(f)
      modifies incomplete, complete, nodes
      ensures Valid()
    {
      var h := histories[f];
      KeyInRing(h, rings[f], log[f]);
      if h.count < k {
        EnqueueIncomplete(f, rings[f][(h.oldest + (h.count - 1)) % k]);
      } else {
        EnqueueComplete(f, rings[f][h.oldest % k]);
      }
    }

    method EnqueueIncomplete(f: FrameId, key: nat)
      requires ValidBut(Some(f)) && f < capacity && histories[f].tracked && log[f] != [] && HistoryReady(f)
      requires |log[f]| < k && key == KeyOf(log[f], k)
      modifies incomplete, nodes
      ensures Valid()
    {
      ghost var v := Now();
      assert Dequeued(v, f);
      incomplete.Insert(f, key);
      UntouchedByInsert(v, nodes[..], f, v.incomplete, v.complete, complete.root, complete.tree);
      QueueLinked(nodes[..], incomplete.root, incomplete.tree);
      assert Now() == v.(nodes := nodes[..], incomplete := incomplete.Elements());
      InsertedOk(v, Now(), f, v.incomplete, incomplete.Elements());
    }

    method EnqueueComplete(f: FrameId, key: nat)
      requires ValidBut(Some(f)) && f < capacity && histories[f].tracked && log[f] != [] && HistoryReady(f)
      requires |log[f]| >= k && key == KeyOf(log[f], k)
      modifies complete, nodes
      ensures Valid()
    {
      ghost var v := Now();
      assert Dequeued(v, f);
      complete.Insert(f, key);
      UntouchedByInsert(v, nodes[..], f, v.complete, v.incomplete, incomplete.root, incomplete.tree);
      QueueLinked(nodes[..], complete.root, complete.tree);
      assert Now() == v.(nodes := nodes[..], complete := complete.Elements());
      InsertedOk(v, Now(), f, v.complete, complete.Elements());
    }

    /** Records an access of a frame that is out of both queues. */
    method Append(f: FrameId)
      requires ValidBut(Some(f)) && f < capacity && HistoryReady(f)
      modifies this, histories, rings
      ensures ValidBut(Some(f)) && HistoryReady(f) && histories[f].tracked == old(histories[f].tracked)
      ensures clock == old(clock) + 1 && log == old(log)[f := old(log)[f] + [clock]]
      ensures forall g :: 0 <= g < capacity && g != f ==> histories[g] == old(histories[g])
    {
      ghost var v := Now();
      clock := clock + 1;
      AppendKeeps(histories[f], rings[f], log[f], clock);
      StoreTime(f, clock);
      log := log[f := log[f] + [clock]];
      HistoryOk(v, Now(), f);
    }

    /** Writes a timestamp into the ring of a frame. */
    method StoreTime(f: FrameId, now: nat)
      requires f < histories.Length && f < rings.Length && k == |rings[f]| > 0 && histories[f].oldest < k
      modifies histories, rings
      ensures histories[..] == old(histories[..])[f := Appended(old(histories[f]), old(rings[f]), now).0]
      ensures rings[..] == old(rings[..])[f := Appended(old(histories[f]), old(rings[f]), now).1]
    {
      var h := histories[f];
      if h.count < k {
        rings[f] := rings[f][(h.oldest + h.count) % k := now];
        histories[f] := h.(count := h.count + 1);
      } else {
        rings[f] := rings[f][h.oldest := now];
        histories[f] := h.(oldest := (h.oldest + 1) % k);
      }
    }

    /** An access of a tracked frame; any other access is ignored. */
    method Touch(f: FrameId)
      requires Valid()
      modifies this, incomplete, complete, nodes, histories, rings
      ensures Valid() && forall g :: 0 <= g < capacity ==> histories[g].tracked == old(histories[g].tracked)
      ensures if f < capacity && old(histories[f].tracked)
              then clock == old(clock) + 1 && log == old(log)[f := old(log)[f] + [clock]]
              else clock == old(clock) && log == old(log)
    {
      if f >= capacity || !histories[f].tracked {
        return;
      }
      assert FrameOk(Now(), f);
      Dequeue(f);
      Record(f);
    }

    method Record(f: FrameId)
      requires ValidBut(Some(f)) && f < capacity && HistoryReady(f) && histories[f].tracked
      modifies this, incomplete, complete, nodes, histories, rings
      ensures Valid() && clock == old(clock) + 1 && log == old(log)[f := old(log)[f] + [clock]]
      ensures forall g :: 0 <= g < capacity ==> histories[g].tracked == old(histories[g].tracked)
    {
      Append(f);
      Enqueue(f);
    }

    /** Starts the history of a frame afresh with its first access. */
    method RecordLoad(f: FrameId)
      requires Valid()
      modifies this, incomplete, complete, nodes, histories, rings
      ensures Valid() && forall g :: 0 <= g < capacity && g != f ==> histories[g].tracked == old(histories[g].tracked)
      ensures if f < capacity then histories[f].tracked && clock == old(clock) + 1 && log == old(log)[f := [clock]]
              else clock == old(clock) && log == old(log)
    {
      if f >= capacity {
        return;
      }
      ghost var before := log;
      TakeOut(f);
      Restart(f, true);
      Record(f);
      LoadedLog(before, f, clock);
    }

    method TakeOut(f: FrameId)
      requires Valid() && f < capacity
      modifies incomplete, complete, nodes
      ensures ValidBut(Some(f))
    {
      if histories[f].tracked {
        Dequeue(f);
      } else {
        UntrackedIsOut(Now(), f);
      }
    }

    method Restart(f: FrameId, tracked: bool)
      requires ValidBut(Some(f)) && f < capacity
      modifies this`log, histories
      ensures ValidBut(Some(f)) && HistoryReady(f) && histories[f].tracked == tracked && log == old(log)[f := []]
      ensures forall g :: 0 <= g < capacity && g != f ==> histories[g] == old(histories[g])
    {
      ghost var v := Now();
      histories[f] := History(tracked, 0, 0);
      log := log[f := []];
      HistoryOk(v, Now(), f);
    }

    /** Forgets a frame. */
    method Remove(f: FrameId)
      requires Valid()
      modifies this, incomplete, complete, nodes, histories, rings
      ensures Valid() && clock == old(clock)
      ensures forall g :: 0 <= g < capacity ==> histories[g].tracked == (old(histories[g].tracked) && g != f)
      ensures forall g :: 0 <= g < capacity && g != f ==> log[g] == old(log[g])
    {
      if f >= capacity || !histories[f].tracked {
        return;
      }
      Dequeue(f);
      Restart(f, false);
      ForgottenOk(Now(), f);
    }

    /** The victim is the one the policy asks for, and there is one exactly when a
        tracked frame may be evicted. */
    method Victim(evictable: FrameId -> bool) returns (victim: Link)
      requires Valid()
      ensures victim.Some? ==> IsVictim(Now(), evictable, victim.value)
      ensures victim == None ==> forall f: FrameId :: Tracked(Now(), f) ==> !evictable(f)
    {
      victim := PickFrom(incomplete, evictable);
      if victim.Some? {
        PickedIsVictim(Now(), evictable, incomplete.Elements(), victim.value);
        return;
      }
      victim := PickFrom(complete, evictable);
      if victim.Some? {
        PickedIsVictim(Now(), evictable, complete.Elements(), victim.value);
        return;
      }
      forall f: FrameId | Tracked(Now(), f) ensures !evictable(f) {
        assert FrameOk(Now(), f);
      }
    }
  }
}
