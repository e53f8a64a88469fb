/** LRU with accesses collected in batches, as one thread sees it. It is specified
    by the recency order that plain LRU would have, in which every access moves its
    frame to the front at once. */
module BatchedLru {
  import opened Chains
  import opened FrameList
  import opened Types

  const BATCH_SIZE: nat := 64

  // Plain LRU on the order of frames from front to back

  function Without(order: seq<FrameId>, f: FrameId): seq<FrameId> {
    if order == [] then [] else if order[0] == f then order[1..] else [order[0]] + Without(order[1..], f)
  }

  function Touched(order: seq<FrameId>, f: FrameId): seq<FrameId> {
    if f in order then [f] + Without(order, f) else order
  }

  function TouchedAll(order: seq<FrameId>, batch: seq<FrameId>): seq<FrameId> {
    if batch == [] then order else Touched(TouchedAll(order, batch[..|batch| - 1]), batch[|batch| - 1])
  }

  /** The frame nearest the back that may be evicted. */
  function LastEvictable(order: seq<FrameId>, evictable: set<FrameId>): Option<FrameId> {
    if order == [] then None
    else if order[|order| - 1] in evictable then Some(order[|order| - 1])
    else LastEvictable(order[..|order| - 1], evictable)
  }

  lemma {:induction false} WithoutIsCut(order: seq<FrameId>, k: nat)
    requires NoRepeats(order) && k < |order|
    ensures Without(order, order[k]) == Cut(order, k)
  {
    if k > 0 {
      WithoutIsCut(order[1..], k - 1);
      assert [order[0]] + Cut(order[1..], k - 1) == Cut(order, k);
    }
  }

  lemma {:induction false} WithoutAbsent(order: seq<FrameId>, f: FrameId)
    requires f !in order
    ensures Without(order, f) == order
  {
    if order != [] {
      WithoutAbsent(order[1..], f);
    }
  }

  lemma TouchedAllOneMore(order: seq<FrameId>, batch: seq<FrameId>, f: FrameId)
    ensures TouchedAll(order, batch + [f]) == Touched(TouchedAll(order, batch), f)
  {
    assert (batch + [f])[..|batch|] == batch;
  }

  class Replacer {
    const list: List
    const slot: array<FrameId>
    var count: nat
    /** Every access recorded so far, and those already applied to the list. */
    ghost var recorded: seq<FrameId>
    ghost var applied: seq<FrameId>

    ghost predicate Valid()
      reads this, list, list.frontToBack, list.backToFront, list.linked, slot
    {
      && list.Valid() && slot.Length == BATCH_SIZE && count < BATCH_SIZE
      && recorded == applied + slot[..count]
    }

    /** The order that plain LRU would have: nothing recorded is left out. */
    ghost function Recency(): seq<FrameId>
      requires count <= slot.Length
      reads this, list, slot
    {
      TouchedAll(list.order, slot[..count])
    }

    constructor (capacity: nat)
      ensures Valid() && Recency() == [] && list.linked.Length == capacity && recorded == []
      ensures fresh(list) && fresh(list.frontToBack) && fresh(list.backToFront) && fresh(list.linked) && fresh(slot)
    {
      list := new List(capacity);
      slot := new FrameId[BATCH_SIZE](_ => 0);
      count, recorded, applied := 0, [], [];
    }

    method Touch(f: FrameId)
      requires list.Valid()
      modifies list, list.frontToBack, list.backToFront, list.linked
      ensures list.Valid() && list.order == Touched(old(list.order), f)
    {
      if f < list.linked.Length && list.linked[f] {
        MoveToFront(f);
      }
    }

    method MoveToFront(f: FrameId)
      requires list.Valid() && f < list.linked.Length && list.linked[f]
      modifies list, list.frontToBack, list.backToFront, list.linked
      ensures list.Valid() && list.order == [f] + Without(old(list.order), f)
    {
      Unlink(f);
      list.PushFront(f);
    }

    method Unlink(f: FrameId)
      requires list.Valid() && f < list.linked.Length && list.linked[f]
      modifies list, list.frontToBack, list.backToFront, list.linked
      ensures list.Valid() && list.order == Without(old(list.order), f) && !list.linked[f]
    {
      ghost var k :| 0 <= k < |list.order| && list.order[k] == f;
      WithoutIsCut(list.order, k);
      list.Unlink(f);
    }

    /** Applies the accesses waiting in the slot, oldest first, each once. */
    method Drain()
      requires list.Valid() && slot.Length == BATCH_SIZE && count <= BATCH_SIZE && recorded == applied + slot[..count]
      modifies this, list, list.frontToBack, list.backToFront, list.linked
      ensures Valid() && count == 0 && list.order == old(Recency()) && recorded == old(recorded)
    {
      ghost var order, batch := list.order, slot[..count];
      for entry := 0 to count
        invariant list.Valid() && count == |batch| && slot[..count] == batch
        invariant list.order == TouchedAll(order, batch[..entry])
        invariant recorded == old(recorded) && applied == old(applied)
      {
        TouchedAllOneMore(order, batch[..entry], slot[entry]);
        assert batch[..entry] + [slot[entry]] == batch[..entry + 1];
        Touch(slot[entry]);
      }
      assert batch[..count] == batch;
      applied := applied + batch;
      count := 0;
      assert slot[..0] == [];
    }

    method RecordAccess(f: FrameId)
      requires Valid()
      modifies this, list, list.frontToBack, list.backToFront, list.linked, slot
      ensures Valid() && Recency() == Touched(old(Recency()), f) && recorded == old(recorded) + [f]
    {
      TouchedAllOneMore(list.order, slot[..count], f);
      slot[count] := f;
      count := count + 1;
      recorded := recorded + [f];
      assert slot[..count] == old(slot[..count]) + [f];
      if count == BATCH_SIZE {
        Drain();
      }
    }

    method RecordLoad(f: FrameId)
      requires Valid()
      modifies this, list, list.frontToBack, list.backToFront, list.linked
      ensures Valid() && Recency() ==
        if f < list.linked.Length then [f] + Without(old(Recency()), f) else old(Recency())
      ensures recorded == old(recorded)
    {
      if f >= list.linked.Length {
        return;
      }
      Drain();
      if list.linked[f] {
        MoveToFront(f);
      } else {
        WithoutAbsent(list.order, f);
        list.PushFront(f);
      }
    }

    method Remove(f: FrameId)
      requires Valid()
      modifies this, list, list.frontToBack, list.backToFront, list.linked
      ensures Valid() && Recency() == if f < list.linked.Length then Without(old(Recency()), f) else old(Recency())
      ensures recorded == old(recorded)
    {
      if f >= list.linked.Length {
        return;
      }
      Drain();
      if list.linked[f] {
        Unlink(f);
      } else {
        WithoutAbsent(list.order, f);
      }
    }

    /** Walks from the back to the first frame that may be evicted. */
    method FromBack(evictable: set<FrameId>) returns (found: Option<FrameId>)
      requires list.Valid()
      ensures found == LastEvictable(list.order, evictable)
    {
      found := list.back;
      ghost var order, i := list.order, |list.order|;
      assert order[..i] == order;
      while found.Some?
        invariant 0 <= i <= |order| && found == LinkTo(order, i - 1)
        invariant LastEvictable(order[..i], evictable) == LastEvictable(order, evictable)
        decreases i
      {
        if found.value in evictable {
          return;
        }
        NeighboursOf(list.Now(), order, i - 1);
        found := list.backToFront[found.value];
        assert order[..i][..i - 1] == order[..i - 1];
        i := i - 1;
      }
    }

    /** The victim is the one that plain LRU picks. */
    method Victim(evictable: set<FrameId>) returns (victim: Option<FrameId>)
      requires Valid()
      modifies this, list, list.frontToBack, list.backToFront, list.linked
      ensures Valid() && Recency() == old(Recency()) && victim == LastEvictable(old(Recency()), evictable)
      ensures recorded == old(recorded)
    {
      Drain();
      victim := FromBack(evictable);
    }

    /** One call, answered as plain LRU answers it. */
    method Answer(call: Call) returns (victims: seq<Option<FrameId>>)
      requires Valid()
      modifies this, list, list.frontToBack, list.backToFront, list.linked, slot
      ensures Valid() && Recency() == Plain(old(Recency()), call, list.linked.Length)
      ensures victims == PlainAnswer(old(Recency()), call)
    {
      victims := [];
      match call {
        case Access(f) => RecordAccess(f);
        case Load(f) => RecordLoad(f);
        case Forget(f) => Remove(f);
        case Evict(evictable) =>
          var victim := Victim(evictable);
          victims := [victim];
      }
    }
  }

  // Whole sequences of calls

  datatype Call = Access(f: FrameId) | Load(f: FrameId) | Forget(f: FrameId) | Evict(evictable: set<FrameId>)

  /** The order after a call to plain LRU over `capacity` frames. */
  function Plain(order: seq<FrameId>, call: Call, capacity: nat): seq<FrameId> {
    match call
    case Access(f) => Touched(order, f)
    case Load(f) => if f < capacity then [f] + Without(order, f) else order
    case Forget(f) => if f < capacity then Without(order, f) else order
    case Evict(_) => order
  }

  function PlainAnswer(order: seq<FrameId>, call: Call): seq<Option<FrameId>> {
    if call.Evict? then [LastEvictable(order, call.evictable)] else []
  }

  /** The answers of plain LRU to the `Evict` calls of a sequence. */
  function PlainVictims(order: seq<FrameId>, calls: seq<Call>, capacity: nat): seq<Option<FrameId>>
    decreases |calls|
  {
    if calls == [] then []
    else PlainAnswer(order, calls[0]) + PlainVictims(Plain(order, calls[0], capacity), calls[1..], capacity)
  }

  /** For every sequence of calls the batched replacer returns the victims of plain
      LRU. */
  method Replay(capacity: nat, calls: seq<Call>) returns (victims: seq<Option<FrameId>>)
    ensures victims == PlainVictims([], calls, capacity)
  {
    var lru := new Replacer(capacity);
    victims := [];
    assert calls[0..] == calls;
    for i := 0 to |calls|
      invariant lru.Valid() && lru.list.linked.Length == capacity
      invariant fresh(lru) && fresh(lru.list) && fresh(lru.slot)
      invariant fresh(lru.list.frontToBack) && fresh(lru.list.backToFront) && fresh(lru.list.linked)
      invariant victims + PlainVictims(lru.Recency(), calls[i..], capacity) == PlainVictims([], calls, capacity)
    {
      ghost var order, soFar := lru.Recency(), victims;
      var more := lru.Answer(calls[i]);
      victims := victims + more;
      OneAnswer(order, calls, i, capacity, soFar);
    }
  }

  lemma OneAnswer(order: seq<FrameId>, calls: seq<Call>, i: nat, capacity: nat, victims: seq<Option<FrameId>>)
    requires i < |calls|
    ensures victims + PlainVictims(order, calls[i..], capacity)
            == victims + PlainAnswer(order, calls[i])
               + PlainVictims(Plain(order, calls[i], capacity), calls[i + 1..], capacity)
  {
    assert calls[i..][1..] == calls[i + 1..] && calls[i..][0] == calls[i];
  }
}
