/** Every step keeps the invariant, whatever the interleaving. */
module ProtocolProof {
  import opened Arithmetic
  import opened ControlWord
  import opened Protocol
  import opened ProtocolInvariant
  import opened ProtocolLocal
  import opened Types

  // Claims and their holders

  lemma OneHolder(s: State, c: Claim, f: FrameId, a: AgentId)
    requires Counts(s) && f < |s.frames| && Has(c, At(s, a), f)
    ensures Expected(s.frames[f].word, c, f in s.free) >= 1
  {
    assert a in Holders(s.agents, c, f);
  }

  lemma TwoHolders(s: State, c: Claim, f: FrameId, a: AgentId, b: AgentId)
    requires Counts(s) && f < |s.frames| && a != b && Has(c, At(s, a), f) && Has(c, At(s, b), f)
    ensures Expected(s.frames[f].word, c, f in s.free) >= 2
  {
    var holders := Holders(s.agents, c, f);
    assert {a, b} <= holders;
    assert |holders - {a, b}| == |holders| - |{a, b}|;
  }

  lemma ClaimsHold(s: State, a: AgentId)
    requires Counts(s) && OnPool(s, At(s, a))
    ensures ClaimsOk(At(s, a), s.frames[At(s, a).f].word)
    ensures HasFree(At(s, a), At(s, a).f) ==> At(s, a).f !in s.free
  {
    var ag := At(s, a);
    forall c: Claim | Has(c, ag, ag.f) ensures Expected(s.frames[ag.f].word, c, ag.f in s.free) >= 1 {
      OneHolder(s, c, ag.f, a);
    }
    assert Has(Pin, ag, ag.f) == HasPin(ag, ag.f) && Has(Shared, ag, ag.f) == HasShared(ag, ag.f);
    assert Has(Exclusive, ag, ag.f) == HasExclusive(ag, ag.f) && Has(Claim.Load, ag, ag.f) == HasLoad(ag, ag.f);
    assert Has(FreeFrame, ag, ag.f) == HasFree(ag, ag.f) && Has(WriteBack, ag, ag.f) == HasFlush(ag, ag.f);
  }

  /** Two agents never hold conflicting claims on one frame. */
  lemma Exclusion(s: State, a: AgentId, b: AgentId, f: FrameId)
    requires Counts(s) && f < |s.frames| && WordOk(s.frames[f].word) && a != b && At(s, b).On? && At(s, b).f == f
    ensures Apart(At(s, a), At(s, b), f, s.frames[f].word)
  {
    var ag, other := At(s, a), At(s, b);
    ClaimsHold(s, b);
    if ag.On? && ag.f == f {
      ClaimsHold(s, a);
    }
    forall c: Claim | Has(c, ag, f) && Has(c, other, f) ensures Expected(s.frames[f].word, c, f in s.free) >= 2 {
      TwoHolders(s, c, f, a, b);
    }
    assert Has(Pin, ag, f) == HasPin(ag, f) && Has(Pin, other, f) == HasPin(other, f);
    assert Has(Exclusive, ag, f) == HasExclusive(ag, f) && Has(Exclusive, other, f) == HasExclusive(other, f);
    assert Has(Claim.Load, ag, f) == HasLoad(ag, f) && Has(Claim.Load, other, f) == HasLoad(other, f);
    assert Has(FreeFrame, ag, f) == HasFree(ag, f) && Has(FreeFrame, other, f) == HasFree(other, f);
    assert Has(WriteBack, ag, f) == HasFlush(ag, f) && Has(WriteBack, other, f) == HasFlush(other, f);
  }

  // One step on one frame

  /** The step changes agent `a` and frame `f`, and no other agent or frame. */
  ghost predicate Touches(s: State, s': State, a: AgentId, f: FrameId) {
    && f < |s.frames| == |s'.frames| && s'.pageSize == s.pageSize
    && (At(s, a).Idle? || (At(s, a).On? && At(s, a).f == f))
    && (At(s', a).Idle? || (At(s', a).On? && At(s', a).f == f))
    && (forall b :: b != a ==> At(s', b) == At(s, b))
    && (forall g :: 0 <= g < |s.frames| && g != f ==> s'.frames[g] == s.frames[g])
  }

  ghost predicate CountsMove(s: State, s': State, a: AgentId, f: FrameId)
    requires Touches(s, s', a, f)
  {
    && (forall c: Claim :: Expected(s'.frames[f].word, c, f in s'.free) - Expected(s.frames[f].word, c, f in s.free)
                           == Bit(Has(c, At(s', a), f)) - Bit(Has(c, At(s, a), f)))
    && (forall g :: g != f ==> (g in s'.free <==> g in s.free))
  }

  ghost predicate CounterMoves(s: State, s': State, a: AgentId, f: FrameId)
    requires Touches(s, s', a, f)
  {
    var ag, ag' := At(s, a), At(s', a);
    Bit(s'.frames[f].word.dirty) - Bit(s.frames[f].word.dirty)
    == s'.dirtyCount - s.dirtyCount
       + Bit(CountsUpNext(ag')) - Bit(CountsUpNext(ag)) - Bit(CountsDownNext(ag')) + Bit(CountsDownNext(ag))
  }

  /** The disk changes only where a writeback of the frame writes. */
  ghost predicate DiskMoves(s: State, s': State, a: AgentId, f: FrameId)
    requires Touches(s, s', a, f)
  {
    forall t :: Disk(s', t) == Disk(s, t) || (t == s.frames[f].tag && HasFlush(At(s, a), f))
  }

  /** The frame comes under a tag only with the tag locked and no other frame there. */
  ghost predicate PlaceMoves(s: State, s': State, a: AgentId, f: FrameId)
    requires Touches(s, s', a, f)
  {
    var fr, fr' := s.frames[f], s'.frames[f];
    Placed(fr') ==>
      || (Placed(fr) && fr'.tag == fr.tag)
      || (fr'.tag in s.locks && s.locks[fr'.tag] == a
          && forall g :: 0 <= g < |s.frames| && g != f && Placed(s.frames[g]) ==> s.frames[g].tag != fr'.tag)
  }

  ghost predicate LocksMove(s: State, s': State, a: AgentId) {
    forall t :: t in s.locks && s.locks[t] != a ==> t in s'.locks && s'.locks[t] == s.locks[t]
  }

  /** New changes are logged with the step; a change leaves the frame only when it
      is written or dropped. */
  ghost predicate ChangesMove(s: State, s': State, f: FrameId)
    requires f < |s.frames| == |s'.frames|
  {
    var fr, fr' := s.frames[f], s'.frames[f];
    && (forall id :: id in s.logged ==> id in s'.logged && s'.logged[id] == s.logged[id])
    && (forall id :: id in s'.logged ==> id in s.logged || id in fr'.pending)
    && s.written <= s'.written && s.dropped <= s'.dropped
    && (forall id :: id in fr'.pending ==>
          if id in fr.pending then fr'.pending[id] == fr.pending[id]
          else id !in s.logged && id in s'.logged && s'.logged[id] == fr'.pending[id])
    && (forall id :: id in fr.pending ==> id in fr'.pending || id in s'.written || id in s'.dropped)
    && fr'.covered <= fr.covered + fr.pending.Keys
  }

  ghost predicate Works(s: State, s': State, a: AgentId, f: FrameId) {
    && Touches(s, s', a, f)
    && FrameOk(s'.frames[f])
    && AgentOk(s', a)
    && Guarantee(At(s, a), f, s.frames[f], s'.frames[f])
    && CountsMove(s, s', a, f) && CounterMoves(s, s', a, f) && DiskMoves(s, s', a, f) && PlaceMoves(s, s', a, f)
    && LocksMove(s, s', a) && ChangesMove(s, s', f)
  }

  ghost predicate Moves(s: State, s': State, a: AgentId, f: FrameId) {
    Works(s, s', a, f) && FreeListOk(s')
  }

  lemma CountsKept(s: State, s': State, a: AgentId, f: FrameId)
    requires Counts(s) && Touches(s, s', a, f) && CountsMove(s, s', a, f)
    ensures Counts(s')
  {
    forall c: Claim, g: FrameId | g < |s'.frames|
      ensures |Holders(s'.agents, c, g)| == Expected(s'.frames[g].word, c, g in s'.free)
    {
      HoldersStep(s, s', a, c, g);
    }
  }

  lemma HoldersStep(s: State, s': State, a: AgentId, c: Claim, g: FrameId)
    requires forall b :: b != a ==> At(s', b) == At(s, b)
    ensures |Holders(s'.agents, c, g)| ==
      |Holders(s.agents, c, g)| - Bit(Has(c, At(s, a), g)) + Bit(Has(c, At(s', a), g))
  {
    var before, after := Holders(s.agents, c, g), Holders(s'.agents, c, g);
    assert forall b :: b in before <==> Has(c, At(s, b), g);
    assert forall b :: b in after <==> Has(c, At(s', b), g);
    CountStep(before, after, a);
  }

  lemma CounterKept(s: State, s': State, a: AgentId, f: FrameId)
    requires Counter(s) && Touches(s, s', a, f) && CounterMoves(s, s', a, f)
    ensures Counter(s')
  {
    var up, up' := UpAgents(s.agents), UpAgents(s'.agents);
    assert forall b :: b in up <==> CountsUpNext(At(s, b));
    assert forall b :: b in up' <==> CountsUpNext(At(s', b));
    CountStep(up, up', a);
    var down, down' := DownAgents(s.agents), DownAgents(s'.agents);
    assert forall b :: b in down <==> CountsDownNext(At(s, b));
    assert forall b :: b in down' <==> CountsDownNext(At(s', b));
    CountStep(down, down', a);
    CountStep(DirtyFrames(s), DirtyFrames(s'), f);
  }

  /** A frame placed elsewhere does not see the write. */
  lemma DiskElsewhere(s: State, s': State, a: AgentId, f: FrameId, g: FrameId)
    requires Counts(s) && Frames(s) && Placement(s) && Touches(s, s', a, f) && DiskMoves(s, s', a, f)
    requires g < |s.frames| && g != f && Placed(s.frames[g])
    ensures Disk(s', s.frames[g].tag) == Disk(s, s.frames[g].tag)
  {
    if HasFlush(At(s, a), f) {
      ClaimsHold(s, a);
      assert FrameOk(s.frames[f]);
      assert Placed(s.frames[f]);
    }
  }

  lemma FramesKept(s: State, s': State, a: AgentId, f: FrameId)
    requires Counts(s) && Frames(s) && Placement(s) && Touches(s, s', a, f) && DiskMoves(s, s', a, f)
    requires FrameOk(s'.frames[f])
    ensures Frames(s')
  {
    forall g | 0 <= g < |s'.frames| ensures FrameOk(s'.frames[g]) {
      if g != f {
        assert FrameOk(s.frames[g]);
        if Placed(s.frames[g]) {
          DiskElsewhere(s, s', a, f, g);
        }
      }
    }
  }

  lemma PlacementKept(s: State, s': State, a: AgentId, f: FrameId)
    requires Placement(s) && Touches(s, s', a, f) && PlaceMoves(s, s', a, f)
    ensures Placement(s')
  {
  }

  lemma ChangesKept(s: State, s': State, a: AgentId, f: FrameId)
    requires Changes(s) && Touches(s, s', a, f) && ChangesMove(s, s', f)
    ensures Changes(s')
  {
    forall id | id in s'.logged
      ensures id in s'.written || id in s'.dropped || exists g :: 0 <= g < |s'.frames| && id in s'.frames[g].pending
    {
      if id in s.logged && id !in s.written && id !in s.dropped {
        var g :| 0 <= g < |s.frames| && id in s.frames[g].pending;
        assert g != f ==> id in s'.frames[g].pending;
      }
    }
  }

  // The other agents

  /** An agent whose frame the step does not touch. */
  lemma ElsewhereKept(other: Agent, fr: Frame, disk: Bytes, disk': Bytes)
    requires other.On? && OnOk(other, fr, disk) && ClaimsOk(other, fr.word) && FrameOk(fr)
    requires Placed(fr) ==> disk' == disk
    ensures OnOk(other, fr, disk')
  {
  }

  lemma OnKept(s: State, s': State, a: AgentId, f: FrameId, b: AgentId)
    requires Inv(s) && Moves(s, s', a, f) && b != a && At(s, b).On?
    ensures At(s, b).f < |s.frames|
    ensures OnOk(At(s, b), s'.frames[At(s, b).f], Disk(s', s'.frames[At(s, b).f].tag))
  {
    var other := At(s, b);
    assert AgentOk(s, b);
    var g := other.f;
    ClaimsHold(s, b);
    assert FrameOk(s.frames[g]);
    if g == f {
      Exclusion(s, a, b, f);
      if At(s, a).On? {
        ClaimsHold(s, a);
      }
      OthersKeep(At(s, a), other, s.frames[f], s'.frames[f], Disk(s, s.frames[f].tag), Disk(s', s'.frames[f].tag));
    } else {
      if Placed(s.frames[g]) {
        DiskElsewhere(s, s', a, f, g);
      }
      ElsewhereKept(other, s.frames[g], Disk(s, s.frames[g].tag), Disk(s', s.frames[g].tag));
    }
  }

  lemma InstallKept(s: State, s': State, a: AgentId, f: FrameId, b: AgentId)
    requires Inv(s) && Moves(s, s', a, f) && b != a && OnPool(s, At(s, b))
    ensures InstallOk(s', b, At(s, b))
  {
    var other := At(s, b);
    if Installs(other) {
      assert AgentOk(s, b);
      ClaimsHold(s, b);
      assert FrameOk(s.frames[other.f]);
      if other.f == f {
        Exclusion(s, a, b, f);
      }
      assert s'.frames[other.f].key == s.frames[other.f].key;
      assert other.tag in LockSet(s.frames[other.f], other.tag);
      forall g | g in other.op.load.checked && g < |s'.frames| && s'.frames[g].key == Some(other.tag)
        ensures !Placed(s'.frames[g])
      {
      }
    }
  }

  lemma ScanKept(s: State, s': State, a: AgentId, f: FrameId, watch: map<ChangeId, Lsn>)
    requires Watches(s, watch) && Touches(s, s', a, f) && ChangesMove(s, s', f)
    requires Guarantee(At(s, a), f, s.frames[f], s'.frames[f])
    ensures Watches(s', watch)
    ensures forall g, id :: 0 <= g < |s.frames| && id in watch && id in s'.frames[g].pending ==>
      id in s.frames[g].pending
    ensures forall g, id :: 0 <= g < |s.frames| && id in s'.frames[g].pending && id in s.frames[g].covered ==>
      id in s'.frames[g].covered
  {
  }

  lemma OtherKept(s: State, s': State, a: AgentId, f: FrameId, b: AgentId)
    requires Inv(s) && Moves(s, s', a, f) && b != a
    ensures AgentOk(s', b)
  {
    assert AgentOk(s, b);
    var other := At(s, b);
    if other.On? {
      OnKept(s, s', a, f, b);
      InstallKept(s, s', a, f, b);
    } else if !other.Idle? {
      ScannerKept(s, s', a, f, b);
    }
  }

  lemma ScannerKept(s: State, s': State, a: AgentId, f: FrameId, b: AgentId)
    requires Touches(s, s', a, f) && ChangesMove(s, s', f) && Guarantee(At(s, a), f, s.frames[f], s'.frames[f])
    requires b != a && AgentOk(s, b) && !At(s, b).On? && !At(s, b).Idle?
    ensures AgentOk(s', b)
  {
    ScanKept(s, s', a, f, At(s, b).watch);
  }

  lemma MovesKeep(s: State, s': State, a: AgentId, f: FrameId)
    requires Inv(s) && Moves(s, s', a, f)
    ensures Inv(s')
  {
    CountsKept(s, s', a, f);
    CounterKept(s, s', a, f);
    FramesKept(s, s', a, f);
    PlacementKept(s, s', a, f);
    ChangesKept(s, s', a, f);
    forall b: AgentId ensures AgentOk(s', b) {
      if b != a {
        OtherKept(s, s', a, f, b);
      }
    }
  }
}
