/** The clock and clock-sweep replacers. A frame has a usage count up to a maximum
    (1 for the clock's reference bit, 5 for clock-sweep), or none while it is not
    tracked. A hand walks round the frames and lowers the counts of those that may be
    evicted; the first one it finds at zero is the victim. */
module Sweep {
  import opened Arithmetic
  import opened Types

  /** How far ahead of `start` a frame is when walking round `n` frames. */
  function Distance(start: nat, f: nat, n: nat): int { if f >= start then f - start else f - start + n }

  /** The length of `laps` rounds. */
  function Rounds(laps: nat, n: nat): nat { if laps == 0 then 0 else Rounds(laps - 1, n) + n }

  lemma {:induction false} RoundsAre(laps: nat, n: nat)
    ensures Rounds(laps, n) == laps * n
  {
    if laps > 0 {
      RoundsAre(laps - 1, n);
      assert laps * n == (laps - 1) * n + n;
    }
  }

  /** A walk of as many steps as `laps` rounds has made `laps` rounds. */
  lemma {:induction false} RoundsDone(lap: nat, pos: nat, laps: nat, n: nat)
    requires pos < n && Rounds(lap, n) + pos == Rounds(laps, n)
    ensures lap == laps && pos == 0
  {
    if lap > 0 && laps > 0 {
      RoundsDone(lap - 1, pos, laps - 1, n);
    }
  }

  /** How often a walk of `lap` rounds and `pos` steps has visited a frame. */
  function Visits(lap: nat, pos: nat, distance: int): nat { if distance < pos then lap + 1 else lap }

  predicate Candidate(usage: seq<Option<nat>>, evictable: FrameId -> bool, f: FrameId) {
    f < |usage| && usage[f].Some? && evictable(f)
  }

  /** The victim: lowest usage, and nearest ahead of the hand among those. */
  ghost predicate IsVictim(usage: seq<Option<nat>>, evictable: FrameId -> bool, start: nat, victim: FrameId) {
    && Candidate(usage, evictable, victim)
    && forall f: FrameId :: Candidate(usage, evictable, f) && f != victim ==>
         || usage[victim].value < usage[f].value
         || (usage[victim].value == usage[f].value && Distance(start, victim, |usage|) < Distance(start, f, |usage|))
  }

  /** Every candidate has lost one count for each visit. */
  ghost predicate Lowered(before: seq<Option<nat>>, after: seq<Option<nat>>, evictable: FrameId -> bool, start: nat,
    lap: nat, pos: nat) {
    && |after| == |before|
    && forall f :: 0 <= f < |before| ==>
         if Candidate(before, evictable, f) then
           var visits := Visits(lap, pos, Distance(start, f, |before|));
           visits <= before[f].value && after[f] == Some(before[f].value - visits)
         else after[f] == before[f]
  }

  /** The walk stands at a frame that is `pos` ahead of where it began. */
  predicate StandsAt(start: nat, pos: nat, n: nat, at: nat) {
    start < n && pos < n && at == if start + pos < n then start + pos else start + pos - n
  }

  /** The walk goes on to the next frame. */
  lemma WalkOn(start: nat, pos: nat, n: nat, at: nat)
    requires StandsAt(start, pos, n, at)
    ensures StandsAt(start, if pos + 1 == n then 0 else pos + 1, n, if at + 1 == n then 0 else at + 1)
    ensures forall f :: 0 <= f < n ==> (Distance(start, f, n) == pos <==> f == at)
  {
  }

  lemma Lowers(before: seq<Option<nat>>, now: seq<Option<nat>>, evictable: FrameId -> bool, start: nat, lap: nat,
    pos: nat, at: nat)
    requires Lowered(before, now, evictable, start, lap, pos) && StandsAt(start, pos, |before|, at)
    requires Candidate(now, evictable, at) ==> now[at].value > 0
    ensures var next := if Candidate(now, evictable, at) then now[at := Some(now[at].value - 1)] else now;
      if pos + 1 == |before| then Lowered(before, next, evictable, start, lap + 1, 0)
      else Lowered(before, next, evictable, start, lap, pos + 1)
  {
    WalkOn(start, pos, |before|, at);
  }

  lemma FoundIsVictim(before: seq<Option<nat>>, now: seq<Option<nat>>, evictable: FrameId -> bool, start: nat, lap: nat,
    pos: nat, at: nat)
    requires Lowered(before, now, evictable, start, lap, pos) && StandsAt(start, pos, |before|, at)
    requires Candidate(now, evictable, at) && now[at].value == 0
    ensures IsVictim(before, evictable, start, at)
  {
    WalkOn(start, pos, |before|, at);
    forall f: FrameId | Candidate(before, evictable, f) && f != at
      ensures before[at].value < before[f].value
              || (before[at].value == before[f].value && Distance(start, at, |before|) < Distance(start, f, |before|))
    {
    }
  }

  /** Where the sweep is, and what it has done to the counts. */
  ghost predicate Sweeping(before: seq<Option<nat>>, now: seq<Option<nat>>, evictable: FrameId -> bool, start: nat,
    lap: nat, pos: nat, at: nat) {
    Lowered(before, now, evictable, start, lap, pos) && StandsAt(start, pos, |before|, at)
  }

  function Visited(now: seq<Option<nat>>, evictable: FrameId -> bool, at: nat): seq<Option<nat>> {
    if Candidate(now, evictable, at) && now[at].value > 0 then now[at := Some(now[at].value - 1)] else now
  }

  lemma SweepsOn(before: seq<Option<nat>>, now: seq<Option<nat>>, evictable: FrameId -> bool, start: nat, lap: nat,
    pos: nat, at: nat)
    requires Sweeping(before, now, evictable, start, lap, pos, at)
    requires Candidate(now, evictable, at) ==> now[at].value > 0
    ensures Sweeping(before, Visited(now, evictable, at), evictable, start,
                     if pos + 1 == |before| then lap + 1 else lap,
                     if pos + 1 == |before| then 0 else pos + 1, if at + 1 == |before| then 0 else at + 1)
  {
    Lowers(before, now, evictable, start, lap, pos, at);
    WalkOn(start, pos, |before|, at);
  }

  /** After more rounds than the counts go up to, no frame may be evicted. */
  lemma NoneLeft(before: seq<Option<nat>>, now: seq<Option<nat>>, evictable: FrameId -> bool, start: nat, laps: nat)
    requires Lowered(before, now, evictable, start, laps, 0) && start < |before|
    requires forall f :: 0 <= f < |before| && before[f].Some? ==> before[f].value < laps
    ensures forall f: FrameId :: !Candidate(before, evictable, f)
  {
    forall f: FrameId ensures !Candidate(before, evictable, f) {
      assert f < |before| ==> Visits(laps, 0, Distance(start, f, |before|)) == laps;
    }
  }

  class Replacer {
    const maximum: nat
    const usage: array<Option<nat>>
    var hand: nat

    /** Counts stay in range. */
    ghost predicate Valid()
      reads this, usage
    {
      maximum > 0 && forall f :: 0 <= f < usage.Length && usage[f].Some? ==> usage[f].value <= maximum
    }

    constructor (capacity: nat, maximum: nat)
      requires maximum > 0
      ensures Valid() && usage.Length == capacity && this.maximum == maximum && forall f :: 0 <= f < capacity ==>
        usage[f] == None
    {
      this.maximum, hand := maximum, 0;
      usage := new Option<nat>[capacity](_ => None);
    }

    /** An access counts up to the maximum; a frame that is not tracked stays so. */
    method RecordAccess(f: FrameId)
      requires Valid()
      modifies usage
      ensures Valid()
      ensures usage[..] == if f < usage.Length && old(usage[f]).Some? && old(usage[f]).value < maximum
                           then old(usage[..])[f := Some(old(usage[f]).value + 1)] else old(usage[..])
    {
      if f < usage.Length && usage[f].Some? && usage[f].value < maximum {
        usage[f] := Some(usage[f].value + 1);
      }
    }

    method RecordLoad(f: FrameId)
      requires Valid()
      modifies usage
      ensures Valid() && usage[..] == if f < usage.Length then old(usage[..])[f := Some(1)] else old(usage[..])
    {
      if f < usage.Length {
        usage[f] := Some(1);
      }
    }

    method Remove(f: FrameId)
      requires Valid()
      modifies usage
      ensures Valid() && usage[..] == if f < usage.Length then old(usage[..])[f := None] else old(usage[..])
    {
      if f < usage.Length {
        usage[f] := None;
      }
    }

    /** Visits one frame; reports whether it is the victim. */
    method Visit(at: FrameId, evictable: FrameId -> bool) returns (found: bool)
      requires Valid() && at < usage.Length
      modifies usage
      ensures Valid() && found == (Candidate(old(usage[..]), evictable, at) && old(usage[at]) == Some(0))
      ensures usage[..] == Visited(old(usage[..]), evictable, at)
    {
      if usage[at] == None || !evictable(at) {
        return false;
      }
      if usage[at].value > 0 {
        usage[at] := Some(usage[at].value - 1);
        return false;
      }
      return true;
    }

    /** Within `maximum + 1` rounds the sweep finds a victim exactly when a tracked
        frame may be evicted, and it is the one with the lowest count. On the way each
        frame that may be evicted loses one count per visit, and nothing else changes. */
    method Victim(evictable: FrameId -> bool) returns (victim: Option<FrameId>)
      requires Valid()
      modifies this`hand, usage
      ensures Valid()
      ensures victim.Some? <==> exists f: FrameId :: Candidate(old(usage[..]), evictable, f)
      ensures victim.Some? ==> IsVictim(old(usage[..]), evictable, old(hand) % usage.Length, victim.value)
      ensures victim.Some? ==> exists lap, pos ::
        && Sweeping(old(usage[..]), usage[..], evictable, old(hand) % usage.Length, lap, pos, victim.value)
        && hand == old(hand) + Rounds(lap, usage.Length) + pos + 1 <= old(hand) + (maximum + 1) * usage.Length
      ensures victim == None ==> usage[..] == old(usage[..]) && hand == old(hand) + (maximum + 1) * usage.Length
    {
      var capacity := usage.Length;
      if capacity == 0 {
        return None;
      }
      ghost var before, start := usage[..], hand % capacity;
      ghost var lap, pos := 0, 0;
      var scanned, bound := 0, (maximum + 1) * capacity;
      RoundsAre(maximum + 1, capacity);
      while scanned < bound
        invariant Valid() && 0 <= scanned <= bound && hand == old(hand) + scanned
        invariant scanned == Rounds(lap, capacity) + pos
        invariant Sweeping(before, usage[..], evictable, start, lap, pos, hand % capacity)
      {
        var candidate := hand % capacity;
        NextMod(hand, capacity);
        hand, scanned := hand + 1, scanned + 1;
        ghost var now := usage[..];
        var found := Visit(candidate, evictable);
        if found {
          FoundIsVictim(before, now, evictable, start, lap, pos, candidate);
          return Some(candidate);
        }
        SweepsOn(before, now, evictable, start, lap, pos, candidate);
        lap, pos := if pos + 1 == capacity then lap + 1 else lap, if pos + 1 == capacity then 0 else pos + 1;
      }
      RoundsDone(lap, pos, maximum + 1, capacity);
      NoneLeft(before, usage[..], evictable, start, maximum + 1);
      assert usage[..] == before;
      return None;
    }
  }
}
