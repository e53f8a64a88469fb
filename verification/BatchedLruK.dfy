/** LRU-K with accesses recorded in a batch slot and applied later, seen as plain LRU-K
    on the histories of its frames. One thread records, so one slot is in use. */
module BatchedLruK {
  import BatchedLru
  import LruK
  import opened Types

  // Plain LRU-K

  /** The accesses of each tracked frame, oldest first. */
  datatype Histories = Histories(clock: nat, logs: seq<Option<seq<nat>>>)

  predicate IsTracked(h: Histories, f: FrameId) { f < |h.logs| && h.logs[f].Some? }

  function Touched(h: Histories, f: FrameId): Histories {
    if IsTracked(h, f) then Histories(h.clock + 1, h.logs[f := Some(h.logs[f].value + [h.clock + 1])]) else h
  }

  function TouchedAll(h: Histories, batch: seq<FrameId>): Histories {
    if batch == [] then h else Touched(TouchedAll(h, batch[..|batch| - 1]), batch[|batch| - 1])
  }

  lemma TouchedOneMore(h: Histories, batch: seq<FrameId>, f: FrameId)
    ensures TouchedAll(h, batch + [f]) == Touched(TouchedAll(h, batch), f)
  {
    assert (batch + [f])[..|batch|] == batch;
  }

  lemma {:induction false} TouchedSize(h: Histories, batch: seq<FrameId>)
    ensures |TouchedAll(h, batch).logs| == |h.logs|
  {
    if batch != [] {
      TouchedSize(h, batch[..|batch| - 1]);
    }
  }

  function Loaded(h: Histories, f: FrameId): Histories {
    if f < |h.logs| then Histories(h.clock + 1, h.logs[f := Some([h.clock + 1])]) else h
  }

  function Forgotten(h: Histories, f: FrameId): Histories {
    if f < |h.logs| then h.(logs := h.logs[f := None]) else h
  }

  /** The histories that the structure holds. */
  ghost function Held(v: LruK.View): Histories
    requires |v.log| == |v.histories|
  {
    Histories(v.clock,
      seq(|v.log|, f requires 0 <= f < |v.log| => if v.histories[f].tracked then Some(v.log[f]) else None))
  }

  ghost predicate SameTracks(v: LruK.View, v': LruK.View, but: Link) {
    && |v.log| == |v.histories| == |v'.histories| == |v'.log|
    && forall g: FrameId :: g < |v.histories| && but != Some(g) ==> v'.histories[g].tracked == v.histories[g].tracked
  }

  lemma HeldTouched(v: LruK.View, v': LruK.View, f: FrameId)
    requires SameTracks(v, v', None)
    requires
      if LruK.Tracked(v, f) then v'.clock == v.clock + 1 && v'.log == v.log[f := v.log[f] + [v'.clock]]
      else v'.clock == v.clock && v'.log == v.log
    ensures Held(v') == Touched(Held(v), f)
  {
  }

  lemma HeldLoaded(v: LruK.View, v': LruK.View, f: FrameId)
    requires SameTracks(v, v', Some(f)) && f < |v.histories| && v'.histories[f].tracked && v'.clock == v.clock + 1
    requires v'.log == v.log[f := [v'.clock]]
    ensures Held(v') == Loaded(Held(v), f)
  {
  }

  lemma HeldForgotten(v: LruK.View, v': LruK.View, f: FrameId)
    requires SameTracks(v, v', Some(f)) && f < |v.histories| && !v'.histories[f].tracked && v'.clock == v.clock
    requires forall g :: 0 <= g < |v.log| && g != f ==> v'.log[g] == v.log[g]
    ensures Held(v') == Forgotten(Held(v), f)
  {
  }

  class Replacer {
    const core: LruK.Replacer
    const slot: array<FrameId>
    var count: nat

    ghost predicate Ready()
      reads this, core, core.incomplete, core.complete, core.nodes, core.histories, core.rings
    {
      core.Valid() && slot.Length == BatchedLru.BATCH_SIZE && count <= slot.Length
    }

    ghost predicate Valid()
      reads this, core, core.incomplete, core.complete, core.nodes, core.histories, core.rings
    {
      Ready() && count < slot.Length
    }

    ghost function Now(): Histories
      requires Ready()
      reads this, core, core.incomplete, core.complete, core.nodes, core.histories, core.rings
    {
      Held(core.Now())
    }

    /** The histories that plain LRU-K would have: nothing recorded is left out. */
    ghost function Plain(): Histories
      requires Ready()
      reads this, core, core.incomplete, core.complete, core.nodes, core.histories, core.rings, slot
    {
      TouchedAll(Now(), slot[..count])
    }

    constructor (capacity: nat, historyLength: nat, priority: FrameId -> nat)
      ensures Valid() && Plain() == Histories(0, seq(capacity, _ => None)) && core.capacity == capacity
      ensures core.k == if historyLength == 0 then 1 else historyLength
    {
      core := new LruK.Replacer(capacity, historyLength, priority);
      slot := new FrameId[BatchedLru.BATCH_SIZE](_ => 0);
      count := 0;
      new;
      assert slot[..0] == [] && Now().logs == seq(capacity, _ => None);
    }

    method Touch(f: FrameId)
      requires Ready()
      modifies core, core.incomplete, core.complete, core.nodes, core.histories, core.rings
      ensures Ready() && Now() == Touched(old(Now()), f)
    {
      ghost var v := core.Now();
      core.Touch(f);
      HeldTouched(v, core.Now(), f);
    }

    method ApplyEntry(entry: nat, ghost before: Histories)
      requires Ready() && entry < count && Now() == TouchedAll(before, slot[..entry])
      modifies core, core.incomplete, core.complete, core.nodes, core.histories, core.rings
      ensures Ready() && Now() == TouchedAll(before, slot[..entry + 1])
    {
      TouchedOneMore(before, slot[..entry], slot[entry]);
      assert slot[..entry] + [slot[entry]] == slot[..entry + 1];
      Touch(slot[entry]);
    }

    /** Applies the accesses waiting in the slot, oldest first, each once. */
    method Drain()
      requires Ready()
      modifies this, core, core.incomplete, core.complete, core.nodes, core.histories, core.rings
      ensures Valid() && count == 0 && Now() == old(Plain())
    {
      ghost var before := Now();
      for entry := 0 to count
        invariant Ready() && count == old(count) && Now() == TouchedAll(before, slot[..entry])
      {
        ApplyEntry(entry, before);
      }
      count := 0;
    }

    /** An access counts at once for plain LRU-K, and for the structure with its batch. */
    method RecordAccess(f: FrameId)
      requires Valid()
      modifies this, core, core.incomplete, core.complete, core.nodes, core.histories, core.rings, slot
      ensures Valid() && Plain() == Touched(old(Plain()), f)
    {
      TouchedOneMore(Now(), slot[..count], f);
      slot[count] := f;
      count := count + 1;
      assert slot[..count] == old(slot[..count]) + [f];
      if count == slot.Length {
        Drain();
        assert slot[..0] == [];
      }
    }

    method RecordLoad(f: FrameId)
      requires Valid()
      modifies this, core, core.incomplete, core.complete, core.nodes, core.histories, core.rings
      ensures Valid() && Plain() == Loaded(old(Plain()), f)
    {
      if f >= core.capacity {
        TouchedSize(Now(), slot[..count]);
        return;
      }
      Drain();
      ghost var v := core.Now();
      core.RecordLoad(f);
      HeldLoaded(v, core.Now(), f);
      assert slot[..0] == [];
    }

    method Remove(f: FrameId)
      requires Valid()
      modifies this, core, core.incomplete, core.complete, core.nodes, core.histories, core.rings
      ensures Valid() && Plain() == Forgotten(old(Plain()), f)
    {
      if f >= core.capacity {
        TouchedSize(Now(), slot[..count]);
        return;
      }
      Drain();
      ghost var v := core.Now();
      core.Remove(f);
      HeldForgotten(v, core.Now(), f);
      assert slot[..0] == [];
    }

    /** The victim is the one that plain LRU-K picks: every recorded access counts. */
    method Victim(evictable: FrameId -> bool) returns (victim: Link)
      requires Valid()
      modifies this, core, core.incomplete, core.complete, core.nodes, core.histories, core.rings
      ensures Valid() && Plain() == old(Plain()) && Held(core.Now()) == old(Plain())
      ensures victim.Some? ==> LruK.IsVictim(core.Now(), evictable, victim.value)
      ensures victim == None ==> forall f: FrameId :: IsTracked(old(Plain()), f) ==> !evictable(f)
    {
      Drain();
      victim := core.Victim(evictable);
      assert slot[..0] == [];
      if victim == None {
        forall f: FrameId | IsTracked(Now(), f) ensures !evictable(f) {
          assert LruK.Tracked(core.Now(), f);
        }
      }
    }
  }
}
