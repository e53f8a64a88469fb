/** The SIEVE replacer: frames in the order they were loaded, a visited flag each,
    and a hand that walks from the oldest to the newest and round again. */
module Sieve {
  import opened Chains
  import opened FrameList
  import opened Types
  import Sweep

  /** The members from oldest to newest. */
  function Aged(order: seq<FrameId>): (aged: seq<FrameId>)
    ensures |aged| == |order|
  {
    seq(|order|, j requires 0 <= j < |order| => order[|order| - 1 - j])
  }

  /** The visited flags by age, as counts of at most one. */
  function Counts(aged: seq<FrameId>, visited: seq<bool>): (counts: seq<Option<nat>>)
    requires forall j :: 0 <= j < |aged| ==> aged[j] < |visited|
    ensures |counts| == |aged|
  {
    seq(|aged|, j requires 0 <= j < |aged| => Some(if visited[aged[j]] then 1 else 0))
  }

  function ByAge(aged: seq<FrameId>, evictable: FrameId -> bool): nat -> bool {
    (j: nat) => j < |aged| && evictable(aged[j])
  }

  lemma MemberHasAge(order: seq<FrameId>, f: FrameId)
    requires f in order
    ensures exists j :: 0 <= j < |order| && Aged(order)[j] == f
  {
    var i :| 0 <= i < |order| && order[i] == f;
    assert Aged(order)[|order| - 1 - i] == f;
  }

  /** Clearing the flag of the frame at one age lowers that count alone. */
  lemma ClearedCounts(order: seq<FrameId>, visited: seq<bool>, at: nat)
    requires NoRepeats(order) && (forall i :: 0 <= i < |order| ==> order[i] < |visited|)
    requires at < |order| && visited[Aged(order)[at]]
    ensures Counts(Aged(order), visited[Aged(order)[at] := false]) == Counts(Aged(order), visited)[at := Some(0)]
  {
    var aged := Aged(order);
    var cleared := Counts(aged, visited[aged[at] := false]);
    forall j | 0 <= j < |aged| ensures cleared[j] == Counts(aged, visited)[at := Some(0)][j] {
      assert j != at ==> aged[j] != aged[at];
    }
  }

  /** After two rounds without a victim, none of the members may be evicted. */
  lemma TwoRoundsSuffice(order: seq<FrameId>, visited: seq<bool>, now: seq<Option<nat>>, evictable: FrameId -> bool,
    start: nat)
    requires forall i :: 0 <= i < |order| ==> order[i] < |visited|
    requires Sweep.Lowered(Counts(Aged(order), visited), now, ByAge(Aged(order), evictable), start, 2, 0)
    ensures forall f :: f in order ==> !evictable(f)
  {
    var aged := Aged(order);
    forall f | f in order ensures !evictable(f) {
      MemberHasAge(order, f);
      var j :| 0 <= j < |aged| && aged[j] == f;
      assert Counts(aged, visited)[j].value <= 1;
      assert Sweep.Candidate(Counts(aged, visited), ByAge(aged, evictable), j) <==> evictable(f);
    }
  }

  /** Where a walk round the members is, and what it has done to their flags. */
  ghost predicate Walking(order: seq<FrameId>, flags: seq<bool>, visited: seq<bool>, evictable: FrameId -> bool,
                          start: nat, lap: nat, pos: nat, at: nat) {
    && NoRepeats(order) && |visited| == |flags| && (forall i :: 0 <= i < |order| ==> order[i] < |flags|)
    && Sweep.StandsAt(start, pos, |order|, at)
    && Sweep.Lowered(Counts(Aged(order), flags), Counts(Aged(order), visited), ByAge(Aged(order), evictable), start,
      lap, pos)
  }

  function Turned(i: nat, n: nat): nat { if i + 1 == n then 0 else i + 1 }

  lemma AgedMember(order: seq<FrameId>, at: nat)
    requires at < |order|
    ensures Aged(order)[at] in order
  {
    assert Aged(order)[at] == order[|order| - 1 - at];
  }

  lemma WalkOn(order: seq<FrameId>, flags: seq<bool>, visited: seq<bool>, evictable: FrameId -> bool,
               start: nat, lap: nat, pos: nat, at: nat)
    requires Walking(order, flags, visited, evictable, start, lap, pos, at)
    requires evictable(Aged(order)[at]) ==> visited[Aged(order)[at]]
    ensures Walking(order, flags,
                    if evictable(Aged(order)[at]) then visited[Aged(order)[at] := false] else visited, evictable,
                    start, if pos + 1 == |order| then lap + 1 else lap, Turned(pos, |order|), Turned(at, |order|))
  {
    Sweep.WalkOn(start, pos, |order|, at);
    Sweep.Lowers(Counts(Aged(order), flags), Counts(Aged(order), visited), ByAge(Aged(order), evictable), start, lap,
      pos, at);
    if evictable(Aged(order)[at]) {
      ClearedCounts(order, visited, at);
    }
  }

  /** The victim is the first by visited flag and then by distance from the frame the
      walk begins with; the walk has cleared the flags of the members it passed that
      may be evicted, and the hand is left at the member after the victim. */
  ghost predicate Picks(order: seq<FrameId>, flags: seq<bool>, visited: seq<bool>, evictable: FrameId -> bool,
                        first: FrameId, victim: FrameId, hand: Link)
    requires forall i :: 0 <= i < |order| ==> order[i] < |flags|
  {
    exists start: nat, lap: nat, pos: nat, at: nat ::
      && Walking(order, flags, visited, evictable, start, lap, pos, at)
      && Aged(order)[start] == first && Aged(order)[at] == victim
      && Sweep.IsVictim(Counts(Aged(order), flags), ByAge(Aged(order), evictable), start, at)
      && hand == Some(Aged(order)[Turned(at, |order|)])
  }

  lemma Found(order: seq<FrameId>, flags: seq<bool>, visited: seq<bool>, evictable: FrameId -> bool,
              start: nat, lap: nat, pos: nat, at: nat)
    requires Walking(order, flags, visited, evictable, start, lap, pos, at)
    requires evictable(Aged(order)[at]) && !visited[Aged(order)[at]]
    ensures Aged(order)[at] in order
    ensures Picks(order, flags, visited, evictable, Aged(order)[start], Aged(order)[at],
      Some(Aged(order)[Turned(at, |order|)]))
  {
    var counts := Counts(Aged(order), visited);
    assert Sweep.Candidate(counts, ByAge(Aged(order), evictable), at);
    Sweep.FoundIsVictim(Counts(Aged(order), flags), counts, ByAge(Aged(order), evictable), start, lap, pos, at);
  }

  lemma WalkBegins(order: seq<FrameId>, flags: seq<bool>, evictable: FrameId -> bool, first: FrameId)
    returns (start: nat)
    requires NoRepeats(order) && (forall i :: 0 <= i < |order| ==> order[i] < |flags|) && first in order
    ensures Walking(order, flags, flags, evictable, start, 0, 0, start) && Aged(order)[start] == first
  {
    MemberHasAge(order, first);
    start :| 0 <= start < |order| && Aged(order)[start] == first;
  }

  /** Flags of frames outside of the order stand still, and all do when no member may
      be evicted. */
  ghost predicate Aside(order: seq<FrameId>, flags: seq<bool>, visited: seq<bool>, evictable: FrameId -> bool) {
    && |visited| == |flags| && (forall f :: 0 <= f < |flags| && f !in order ==> visited[f] == flags[f])
    && ((forall f :: f in order ==> !evictable(f)) ==> visited == flags)
  }

  lemma AsideKept(order: seq<FrameId>, flags: seq<bool>, visited: seq<bool>, evictable: FrameId -> bool, f: FrameId)
    requires Aside(order, flags, visited, evictable) && f in order && f < |visited| && evictable(f)
    ensures Aside(order, flags, visited[f := false], evictable)
  {
  }

  /** How many members a walk has visited. */
  predicate Scanned(scanned: nat, lap: nat, pos: nat, n: nat) {
    lap <= 2 && scanned == (if lap == 0 then 0 else if lap == 1 then n else 2 * n) + pos && scanned <= 2 * n
  }

  /** The flags once the walk has passed a member. */
  function Passed(visited: seq<bool>, f: FrameId, evictable: FrameId -> bool): seq<bool>
    requires f < |visited|
  {
    if evictable(f) then visited[f := false] else visited
  }

  /** All that the loop keeps. */
  ghost predicate WalkInv(order: seq<FrameId>, flags: seq<bool>, visited: seq<bool>, evictable: FrameId -> bool,
                          start: nat, lap: nat, pos: nat, at: nat, scanned: nat) {
    Walking(order, flags, visited, evictable, start, lap, pos, at) && Scanned(scanned, lap, pos, |order|)
      && Aside(order, flags, visited, evictable)
  }

  /** One turn of the walk. */
  lemma WalkTurns(order: seq<FrameId>, flags: seq<bool>, visited: seq<bool>, evictable: FrameId -> bool,
                  start: nat, lap: nat, pos: nat, at: nat, scanned: nat)
    requires WalkInv(order, flags, visited, evictable, start, lap, pos, at, scanned) && scanned < 2 * |order|
    requires evictable(Aged(order)[at]) ==> visited[Aged(order)[at]]
    ensures Aged(order)[at] < |visited|
    ensures WalkInv(order, flags, Passed(visited, Aged(order)[at], evictable), evictable, start,
                    if pos + 1 == |order| then lap + 1 else lap, Turned(pos, |order|), Turned(at, |order|), scanned + 1)
  {
    var f := Aged(order)[at];
    AgedMember(order, at);
    WalkOn(order, flags, visited, evictable, start, lap, pos, at);
    if evictable(f) {
      AsideKept(order, flags, visited, evictable, f);
    }
  }

  /** Two rounds of a walk that found nothing. */
  lemma WalkEnds(order: seq<FrameId>, flags: seq<bool>, visited: seq<bool>, evictable: FrameId -> bool,
                 start: nat, lap: nat, pos: nat, at: nat, scanned: nat)
    requires WalkInv(order, flags, visited, evictable, start, lap, pos, at, scanned) && scanned == 2 * |order|
    ensures (forall f :: f in order ==> !evictable(f)) && visited == flags && at == start
  {
    TwoRoundsSuffice(order, flags, Counts(Aged(order), visited), evictable, start);
  }

  class Replacer {
    const list: List
    const visited: array<bool>
    var hand: Link
    var linkedCount: nat

    ghost predicate Valid()
      reads this, list, list.frontToBack, list.backToFront, list.linked, visited
    {
      && list.Valid() && visited.Length == list.linked.Length && visited != list.linked
      && linkedCount == |list.order| && (hand.Some? ==> hand.value in list.order)
    }

    constructor (capacity: nat)
      ensures Valid() && list.order == [] && visited.Length == capacity
    {
      list := new List(capacity);
      visited := new bool[capacity](_ => false);
      hand, linkedCount := None, 0;
    }

    /** The hand steps off a frame that leaves. */
    method Unlink(f: FrameId)
      requires Valid() && f in list.order && f < visited.Length
      modifies this, list, list.frontToBack, list.backToFront, list.linked
      ensures Valid()
      ensures (forall k :: 0 <= k < |old(list.order)| && old(list.order)[k] == f ==>
        list.order == Cut(old(list.order), k))
      ensures f !in list.order && visited[..] == old(visited[..])
      ensures old(hand) != Some(f) ==> hand == old(hand)
      ensures forall k :: 0 <= k < |old(list.order)| && old(list.order)[k] == f && old(hand) == Some(f) ==>
        hand == LinkTo(old(list.order), k - 1)
    {
      ghost var order := list.order;
      ghost var k :| 0 <= k < |order| && order[k] == f;
      NeighboursOf(list.Now(), order, k);
      if hand == Some(f) {
        hand := list.backToFront[f];
      }
      list.Unlink(f);
      linkedCount := linkedCount - 1;
      if hand.Some? {
        InCut(order, k, hand.value);
      }
    }

    method RecordAccess(f: FrameId)
      requires Valid()
      modifies visited
      ensures Valid() && visited[..] == if f < visited.Length then old(visited[..])[f := true] else old(visited[..])
    {
      if f < visited.Length {
        visited[f] := true;
      }
    }

    /** A loaded frame becomes the newest, not visited. */
    method RecordLoad(f: FrameId)
      requires Valid()
      modifies this, list, list.frontToBack, list.backToFront, list.linked, visited
      ensures Valid()
      ensures f < visited.Length ==>
        list.order != [] && list.order[0] == f && visited[..] == old(visited[..])[f := false]
      ensures f < visited.Length && f !in old(list.order) ==> list.order == [f] + old(list.order)
      ensures forall k :: f < visited.Length && 0 <= k < |old(list.order)| && old(list.order)[k] == f ==>
        list.order == [f] + Cut(old(list.order), k)
      ensures f >= visited.Length ==> list.order == old(list.order) && visited[..] == old(visited[..])
    {
      if f >= visited.Length {
        return;
      }
      if list.linked[f] {
        Unlink(f);
      }
      visited[f] := false;
      list.PushFront(f);
      linkedCount := linkedCount + 1;
    }

    method Remove(f: FrameId)
      requires Valid()
      modifies this, list, list.frontToBack, list.backToFront, list.linked, visited
      ensures Valid() && f !in list.order
      ensures f !in old(list.order) ==> list.order == old(list.order)
      ensures forall k :: 0 <= k < |old(list.order)| && old(list.order)[k] == f ==>
        list.order == Cut(old(list.order), k)
      ensures visited[..] == if f < visited.Length then old(visited[..])[f := false] else old(visited[..])
    {
      if f >= visited.Length {
        return;
      }
      if list.linked[f] {
        Unlink(f);
      }
      visited[f] := false;
    }

    /** The newer neighbour, or the oldest after the newest. */
    method NextOf(candidate: FrameId, ghost j: nat) returns (next: FrameId)
      requires Valid() && j < |list.order| && Aged(list.order)[j] == candidate
      ensures next == Aged(list.order)[Turned(j, |list.order|)]
    {
      ghost var n := |list.order|;
      NeighboursOf(list.Now(), list.order, n - 1 - j);
      next := if list.backToFront[candidate].Some? then list.backToFront[candidate].value else list.back.value;
    }

    /** Clears the flag of a member that may be evicted. */
    method Pass(candidate: FrameId, evictable: FrameId -> bool)
      requires Valid() && candidate < visited.Length
      modifies visited
      ensures Valid() && visited[..] == Passed(old(visited[..]), candidate, evictable)
    {
      if evictable(candidate) {
        visited[candidate] := false;
      }
    }

    /** One turn of the walk: stops at a member that may be evicted and is not visited,
        or passes on. */
    method Turn(candidate: FrameId, evictable: FrameId -> bool, ghost flags: seq<bool>,
                ghost start: nat, ghost lap: nat, ghost pos: nat, ghost at: nat, ghost scanned: nat)
      returns (stop: bool, next: FrameId)
      requires Valid() && WalkInv(list.order, flags, visited[..], evictable, start, lap, pos, at, scanned)
      requires scanned < 2 * |list.order|
      requires candidate == Aged(list.order)[at]
      modifies visited
      ensures Valid() && next == Aged(list.order)[Turned(at, |list.order|)]
      ensures stop ==>
        evictable(candidate) && candidate in list.order && next in list.order
          && Aside(list.order, flags, visited[..], evictable)
      ensures stop ==> Picks(list.order, flags, visited[..], evictable, Aged(list.order)[start], candidate, Some(next))
      ensures !stop ==> WalkInv(list.order, flags, visited[..], evictable, start,
        if pos + 1 == |list.order| then lap + 1 else lap,
        Turned(pos, |list.order|), Turned(at, |list.order|), scanned + 1)
    {
      next := NextOf(candidate, at);
      stop := evictable(candidate) && !visited[candidate];
      if stop {
        Found(list.order, flags, visited[..], evictable, start, lap, pos, at);
        AgedMember(list.order, Turned(at, |list.order|));
      } else {
        WalkTurns(list.order, flags, visited[..], evictable, start, lap, pos, at, scanned);
        Pass(candidate, evictable);
      }
    }

    /** Walks at most two rounds from `first`, clearing flags, and stops at the first
        member that may be evicted and is not marked as visited. */
    method Walk(first: FrameId, evictable: FrameId -> bool) returns (victim: Link, next: FrameId)
      requires Valid() && first in list.order
      modifies visited
      ensures Valid() && next in list.order && Aside(list.order, old(visited[..]), visited[..], evictable)
      ensures victim == None ==> next == first && forall f :: f in list.order ==> !evictable(f)
      ensures victim.Some? ==> victim.value in list.order && evictable(victim.value)
      ensures victim.Some? ==>
        Picks(list.order, old(visited[..]), visited[..], evictable, first, victim.value, Some(next))
    {
      var candidate, scanned := first, 0;
      ghost var flags := visited[..];
      ghost var start := WalkBegins(list.order, flags, evictable, first);
      ghost var lap, pos, at := 0, 0, start;
      while scanned < 2 * linkedCount
        invariant Valid() && WalkInv(list.order, flags, visited[..], evictable, start, lap, pos, at, scanned)
        invariant candidate == Aged(list.order)[at]
      {
        var stop;
        stop, next := Turn(candidate, evictable, flags, start, lap, pos, at, scanned);
        if stop {
          return Some(candidate), next;
        }
        candidate, scanned := next, scanned + 1;
        lap, pos, at :=
          if pos + 1 == |list.order| then lap + 1 else lap, Turned(pos, |list.order|), Turned(at, |list.order|);
      }
      WalkEnds(list.order, flags, visited[..], evictable, start, lap, pos, at, scanned);
      return None, candidate;
    }

    /** The hand finds a victim exactly when some member may be evicted: the first one
        not visited, or if all are, the first one. */
    method Victim(evictable: FrameId -> bool) returns (victim: Link)
      requires Valid()
      modifies this`hand, visited
      ensures Valid() && list.order == old(list.order)
      ensures victim.Some? <==> exists f :: f in list.order && evictable(f)
      ensures victim.Some? ==>
        Picks(list.order, old(visited[..]), visited[..], evictable,
              if old(hand).Some? then old(hand).value else list.back.value, victim.value, hand)
      ensures victim == None ==>
        visited[..] == old(visited[..]) && hand == if old(hand).Some? then old(hand) else list.back
      ensures forall f :: 0 <= f < visited.Length && f !in list.order ==> visited[f] == old(visited[f])
    {
      if list.back == None {
        hand := None;
        return None;
      }
      var next;
      victim, next := Walk(if hand.Some? then hand.value else list.back.value, evictable);
      hand := Some(next);
    }
  }
}
