/** Clean pages are what the disk holds, as long as clients heed the rule for pages that
    were filled with zeros instead of being read. */
module ProtocolStored {
  import opened ControlWord
  import opened Protocol
  import opened ProtocolInvariant
  import opened ProtocolLocal
  import opened ProtocolProof
  import opened ProtocolSteps
  import opened Types

  /** A clean page that nobody holds exclusively is what the disk holds. */
  predicate StoredPage(fr: Frame, disk: Bytes) {
    fr.word.state.Resident? && !fr.word.dirty && !fr.word.exclusive ==> fr.bytes == disk
  }

  ghost predicate Stored(s: State) {
    forall f :: 0 <= f < |s.frames| ==> StoredPage(s.frames[f], Disk(s, s.frames[f].tag))
  }

  /** The agent holds the frame with a page of zeros that it has not marked. */
  predicate Blank(ag: Agent, f: FrameId) {
    ag.On? && ag.f == f && ag.hold.ExclusiveHold? && ag.hold.zeroed.Some? && !ag.hold.marked
  }

  predicate Clean(fr: Frame) { fr.word.state.Resident? && !fr.word.dirty }

  /** A clean page is what the disk holds, or its holder still has to mark it. */
  ghost predicate FaithfulAt(s: State, f: FrameId)
    requires f < |s.frames|
  {
    Clean(s.frames[f]) ==> s.frames[f].bytes == Disk(s, s.frames[f].tag) || exists a: AgentId :: Blank(At(s, a), f)
  }

  ghost predicate Faithful(s: State) { forall f :: 0 <= f < |s.frames| ==> FaithfulAt(s, f) }

  lemma FaithfulStored(s: State)
    requires Inv(s) && Faithful(s)
    ensures Stored(s)
  {
    forall f | 0 <= f < |s.frames| ensures StoredPage(s.frames[f], Disk(s, s.frames[f].tag)) {
      assert FaithfulAt(s, f);
      if a: AgentId :| Blank(At(s, a), f) {
        ClaimsHold(s, a);
      }
    }
  }

  /** Where a clean page on the frame of a step comes from: it was there before, or it is
      what the disk holds, or it is a page of zeros still to be marked. */
  predicate Brings(ag: Agent, ag': Agent, f: FrameId, fr: Frame, fr': Frame, disk': Bytes) {
    Clean(fr') ==>
      && fr'.tag == fr.tag
      && (fr'.bytes == disk' || Blank(ag', f) || (Clean(fr) && fr'.bytes == fr.bytes && !Blank(ag, f)))
  }

  /** The rule for releasing a zero-filled page, seen from its frame. */
  predicate Minds(ag: Agent, st: LocalStep, fr: Frame, disk: Bytes) {
    st == ByHandle(ReleaseExclusive) && HoldsUnmarked(ag) ==> fr.bytes == disk
  }

  lemma HandleBrings(f: FrameId, fr: Frame, ag: Agent, st: HandleStep, fr': Frame, ag': Agent, disk: Bytes)
    requires BeforeOk(ag, f, fr, disk) && HandleLocal(f, fr, ag, st) == Some((fr', ag'))
    requires Minds(ag, ByHandle(st), fr, disk)
    ensures Brings(ag, ag', f, fr, fr', disk)
  {
  }

  lemma LoadBrings(f: FrameId, fr: Frame, ag: Agent, st: LoadStep, fr': Frame, ag': Agent, disk: Bytes)
    requires BeforeOk(ag, f, fr, disk) && LoadLocal(f, fr, ag, st) == Some((fr', ag'))
    ensures Brings(ag, ag', f, fr, fr', disk)
  {
  }

  lemma FlushBrings(f: FrameId, fr: Frame, ag: Agent, st: FlushStep, fr': Frame, ag': Agent, disk: Bytes)
    requires BeforeOk(ag, f, fr, disk) && FlushLocal(f, fr, ag, st) == Some((fr', ag'))
    ensures Brings(ag, ag', f, fr, fr', disk)
  {
  }

  lemma LocalBrings(f: FrameId, fr: Frame, ag: Agent, st: LocalStep, fr': Frame, ag': Agent, disk: Bytes)
    requires BeforeOk(ag, f, fr, disk) && Local(f, fr, ag, st) == Some((fr', ag')) && Minds(ag, st, fr, disk)
    ensures Brings(ag, ag', f, fr, fr', disk)
  {
    match st {
      case ByHandle(st) => HandleBrings(f, fr, ag, st, fr', ag', disk);
      case ByLoad(st) => LoadBrings(f, fr, ag, st, fr', ag', disk);
      case ByFlush(st) => FlushBrings(f, fr, ag, st, fr', ag', disk);
    }
  }

  lemma LocalStepBrings(s: State, s': State, a: AgentId, f: FrameId, local: LocalStep)
    requires Known(s, a, f) && ApplyLocal(s, a, At(s, a), f, local) == Some(s') && Heeds(s, a, OnFrame(f, local))
    ensures |s'.frames| == |s.frames|
    ensures Brings(At(s, a), At(s', a), f, s.frames[f], s'.frames[f], Disk(s', s'.frames[f].tag))
  {
    LocalBrings(f, s.frames[f], At(s, a), local, s'.frames[f], At(s', a), Disk(s, s.frames[f].tag));
  }

  /** Steps on the counter, the free list and the locks leave frames alone. */
  lemma CountStepBrings(s: State, s': State, a: AgentId, st: Step)
    requires Apply(s, a, st) == Some(s') && Known(s, a, FrameOf(s, a, st))
    requires st.CountUp? || st.CountDown? || st.Pop? || st.Push? || st.LockTags? || st.CheckLive?
    ensures |s'.frames| == |s.frames|
    ensures var f := FrameOf(s, a, st);
      Brings(At(s, a), At(s', a), f, s.frames[f], s'.frames[f], Disk(s', s'.frames[f].tag))
  {
    assert s'.frames == s.frames;
  }

  /** Steps on the page table and the log leave pages alone. */
  lemma TableStepBrings(s: State, s': State, a: AgentId, st: Step)
    requires Apply(s, a, st) == Some(s') && Known(s, a, FrameOf(s, a, st))
    requires st.LogChange? || st.Install? || st.Conflict? || st.Unmap?
    ensures |s'.frames| == |s.frames|
    ensures var f := FrameOf(s, a, st);
      Brings(At(s, a), At(s', a), f, s.frames[f], s'.frames[f], Disk(s', s'.frames[f].tag))
  {
  }

  lemma DiskStepBrings(s: State, s': State, a: AgentId, st: Step)
    requires Apply(s, a, st) == Some(s') && Known(s, a, FrameOf(s, a, st))
    requires st.ReadOk? || st.TearWrite? || st.WriteOk? || st.Discard?
    ensures |s'.frames| == |s.frames|
    ensures var f := FrameOf(s, a, st);
      Brings(At(s, a), At(s', a), f, s.frames[f], s'.frames[f], Disk(s', s'.frames[f].tag))
  {
  }

  lemma FaithfulElsewhere(s: State, s': State, a: AgentId, f: FrameId, g: FrameId)
    requires Inv(s) && Moves(s, s', a, f) && g < |s.frames| && g != f && FaithfulAt(s, g)
    ensures FaithfulAt(s', g)
  {
    assert FrameOk(s.frames[g]);
    if Clean(s.frames[g]) {
      DiskElsewhere(s, s', a, f, g);
      if b: AgentId :| Blank(At(s, b), g) {
        assert Blank(At(s', b), g);
      }
    }
  }

  lemma FaithfulHere(s: State, s': State, a: AgentId, f: FrameId)
    requires Inv(s) && Moves(s, s', a, f) && FaithfulAt(s, f)
    requires Brings(At(s, a), At(s', a), f, s.frames[f], s'.frames[f], Disk(s', s'.frames[f].tag))
    ensures FaithfulAt(s', f)
  {
    if Clean(s.frames[f]) && Clean(s'.frames[f]) && !Blank(At(s, a), f) {
      assert FrameOk(s.frames[f]);
      if HasFlush(At(s, a), f) {
        ClaimsHold(s, a);
      }
      if b: AgentId :| Blank(At(s, b), f) {
        assert Blank(At(s', b), f);
      }
    }
  }

  /** A step of a client that heeds the rule keeps every clean page what the disk holds. */
  lemma StepStaysFaithful(s: State, s': State, a: AgentId, st: Step)
    requires Inv(s) && Faithful(s) && Apply(s, a, st) == Some(s') && Heeds(s, a, st)
    ensures Faithful(s')
  {
    if st.ByScan? || st.ByCheckpoint? {
      ScanStaysFaithful(s, s', a, st);
    } else {
      var f := FrameOf(s, a, st);
      StepMoves(s, s', a, st);
      StepBrings(s, s', a, st);
      forall g | 0 <= g < |s'.frames| ensures FaithfulAt(s', g) {
        assert FaithfulAt(s, g);
        if g == f {
          FaithfulHere(s, s', a, f);
        } else {
          FaithfulElsewhere(s, s', a, f, g);
        }
      }
    }
  }

  lemma StepBrings(s: State, s': State, a: AgentId, st: Step)
    requires Inv(s) && Apply(s, a, st) == Some(s') && Heeds(s, a, st) && !st.ByScan? && !st.ByCheckpoint?
    requires Touches(s, s', a, FrameOf(s, a, st))
    ensures var f := FrameOf(s, a, st);
      Brings(At(s, a), At(s', a), f, s.frames[f], s'.frames[f], Disk(s', s'.frames[f].tag))
  {
    InvKnows(s, a, FrameOf(s, a, st));
    if st.OnFrame? {
      LocalStepBrings(s, s', a, st.f, st.local);
    } else if st.ReadOk? || st.TearWrite? || st.WriteOk? || st.Discard? {
      DiskStepBrings(s, s', a, st);
    } else if st.LogChange? || st.Install? || st.Conflict? || st.Unmap? {
      TableStepBrings(s, s', a, st);
    } else {
      CountStepBrings(s, s', a, st);
    }
  }

  lemma ScanSame(s: State, s': State, a: AgentId, scan: ScanStep)
    requires ApplyScan(s, a, At(s, a), scan) == Some(s')
    ensures s' == s.(agents := s'.agents) && !At(s, a).On? && forall b :: b != a ==> At(s', b) == At(s, b)
  {
  }

  lemma CheckpointSame(s: State, s': State, a: AgentId, check: CheckpointStep)
    requires ApplyCheckpoint(s, a, At(s, a), check) == Some(s')
    ensures s' == s.(agents := s'.agents) && !At(s, a).On? && forall b :: b != a ==> At(s', b) == At(s, b)
  {
  }

  lemma ScanStaysFaithful(s: State, s': State, a: AgentId, st: Step)
    requires Faithful(s) && Apply(s, a, st) == Some(s') && (st.ByScan? || st.ByCheckpoint?)
    ensures Faithful(s')
  {
    if st.ByScan? {
      ScanSame(s, s', a, st.scan);
    } else {
      CheckpointSame(s, s', a, st.check);
    }
    forall f | 0 <= f < |s'.frames| ensures FaithfulAt(s', f) {
      assert FaithfulAt(s, f);
      if b: AgentId :| Blank(At(s, b), f) {
        assert Blank(At(s', b), f);
      }
    }
  }

  lemma InitFaithful(s: State)
    requires Init(s)
    ensures Faithful(s)
  {
  }
}
