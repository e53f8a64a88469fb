/** Each step of the protocol moves one agent and one frame as `Moves` allows, so
    the invariant holds in every state of every run. */
module ProtocolSteps {
  import opened Arithmetic
  import opened ControlWord
  import opened Protocol
  import opened ProtocolInvariant
  import opened ProtocolLocal
  import opened ProtocolProof
  import opened Types

  /** What the invariant says of the agent and the frame that a step is about. */
  ghost predicate Known(s: State, a: AgentId, f: FrameId) {
    && f < |s.frames| && (At(s, a).Idle? || (At(s, a).On? && At(s, a).f == f)) && AgentOk(s, a)
    && BeforeOk(At(s, a), f, s.frames[f], Disk(s, s.frames[f].tag))
  }

  lemma InvKnows(s: State, a: AgentId, f: FrameId)
    requires Inv(s) && f < |s.frames| && (At(s, a).Idle? || (At(s, a).On? && At(s, a).f == f))
    ensures Known(s, a, f)
  {
    assert AgentOk(s, a);
    if At(s, a).On? {
      ClaimsHold(s, a);
    }
  }

  /** A listed frame has no owner, so its page table entry stays empty. */
  lemma FreeKept(s: State, s': State, a: AgentId, f: FrameId)
    requires Inv(s) && Touches(s, s', a, f) && s'.free == s.free
    requires Guarantee(At(s, a), f, s.frames[f], s'.frames[f])
    ensures FreeListOk(s')
  {
    if f in s.free {
      assert FrameOk(s.frames[f]);
      assert |Holders(s.agents, FreeFrame, f)| == Expected(s.frames[f].word, FreeFrame, true);
      if At(s, a).On? {
        assert AgentOk(s, a);
        ClaimsHold(s, a);
      }
    }
  }

  lemma BalancedMoves(s: State, s': State, a: AgentId, f: FrameId)
    requires Touches(s, s', a, f) && s'.free == s.free
    requires LatchesBalanced(At(s, a), At(s', a), f, s.frames[f].word, s'.frames[f].word)
    requires OwnersBalanced(At(s, a), At(s', a), f, s.frames[f].word, s'.frames[f].word)
    ensures CountsMove(s, s', a, f)
  {
    var ag, ag', w, w' := At(s, a), At(s', a), s.frames[f].word, s'.frames[f].word;
    forall c: Claim
      ensures Expected(w', c, f in s'.free) - Expected(w, c, f in s.free) == Bit(Has(c, ag', f)) - Bit(Has(c, ag, f))
    {
      ClaimMoves(c, ag, ag', f, w, w', f in s.free);
    }
  }

  lemma ClaimMoves(c: Claim, ag: Agent, ag': Agent, f: FrameId, w: Word, w': Word, listed: bool)
    requires LatchesBalanced(ag, ag', f, w, w') && OwnersBalanced(ag, ag', f, w, w')
    ensures Expected(w', c, listed) - Expected(w, c, listed) == Bit(Has(c, ag', f)) - Bit(Has(c, ag, f))
  {
  }

  /** A step that leaves the free list, the disk, the locks, the counter and the log
      as they are. */
  lemma QuietWorks(s: State, s': State, a: AgentId, ag': Agent, f: FrameId, fr': Frame)
    requires Known(s, a, f) && s' == PutFrame(s, a, ag', f, fr')
    requires AfterOk(At(s, a), ag', f, s.frames[f], fr', Disk(s, fr'.tag))
    requires fr'.pending == s.frames[f].pending && fr'.covered <= s.frames[f].covered + s.frames[f].pending.Keys
    requires SizeOk(s, ag')
    ensures Works(s, s', a, f)
  {
    assert Disk(s', fr'.tag) == Disk(s, fr'.tag);
    assert Touches(s, s', a, f);
    BalancedMoves(s, s', a, f);
  }

  lemma HandleSize(s: State, f: FrameId, fr: Frame, ag: Agent, st: HandleStep, fr': Frame, ag': Agent)
    requires HandleLocal(f, fr, ag, st) == Some((fr', ag')) && SizeOk(s, ag)
    ensures SizeOk(s, ag')
  {
  }

  lemma LoadSize(s: State, f: FrameId, fr: Frame, ag: Agent, st: LoadStep, fr': Frame, ag': Agent)
    requires LoadLocal(f, fr, ag, st) == Some((fr', ag')) && SizeOk(s, ag) && (st.ZeroFill? ==> st.zeros == s.pageSize)
    ensures SizeOk(s, ag')
  {
  }

  lemma FlushSize(s: State, f: FrameId, fr: Frame, ag: Agent, st: FlushStep, fr': Frame, ag': Agent)
    requires FlushLocal(f, fr, ag, st) == Some((fr', ag')) && SizeOk(s, ag)
    ensures SizeOk(s, ag')
  {
  }

  lemma LocalSize(s: State, f: FrameId, fr: Frame, ag: Agent, local: LocalStep, fr': Frame, ag': Agent)
    requires Local(f, fr, ag, local) == Some((fr', ag')) && SizeOk(s, ag)
    requires local.ByLoad? && local.load.ZeroFill? ==> local.load.zeros == s.pageSize
    ensures SizeOk(s, ag')
  {
    match local {
      case ByHandle(st) => HandleSize(s, f, fr, ag, st, fr', ag');
      case ByLoad(st) => LoadSize(s, f, fr, ag, st, fr', ag');
      case ByFlush(st) => FlushSize(s, f, fr, ag, st, fr', ag');
    }
  }

  lemma LocalWorks(s: State, s': State, a: AgentId, f: FrameId, local: LocalStep)
    requires Known(s, a, f) && ApplyLocal(s, a, At(s, a), f, local) == Some(s')
    ensures Works(s, s', a, f) && s'.free == s.free
  {
    var ag, fr := At(s, a), s.frames[f];
    var next := Local(f, fr, ag, local);
    var fr', ag' := next.value.0, next.value.1;
    LocalKeeps(f, fr, ag, local, fr', ag', Disk(s, fr.tag), Disk(s, fr'.tag));
    LocalPending(f, fr, ag, local, fr', ag');
    LocalSize(s, f, fr, ag, local, fr', ag');
    QuietWorks(s, s', a, ag', f, fr');
  }

  lemma ReadWorks(s: State, s': State, a: AgentId)
    requires At(s, a).On? && Known(s, a, At(s, a).f) && ApplyReadOk(s, a, At(s, a)) == Some(s')
    ensures Works(s, s', a, At(s, a).f) && s'.free == s.free
  {
    QuietWorks(s, s', a, At(s', a), At(s, a).f, s'.frames[At(s, a).f]);
  }

  // Steps that leave the frame as it is

  lemma StayGuarantee(ag: Agent, f: FrameId, fr: Frame)
    ensures Guarantee(ag, f, fr, fr)
  {
  }

  lemma StayWorks(s: State, s': State, a: AgentId, f: FrameId)
    requires Known(s, a, f) && Touches(s, s', a, f) && s'.frames == s.frames && s'.disk == s.disk
    requires s'.logged == s.logged && s'.written == s.written && s'.dropped == s.dropped
    requires AgentOk(s', a) && CountsMove(s, s', a, f) && CounterMoves(s, s', a, f) && LocksMove(s, s', a)
    ensures Works(s, s', a, f)
  {
    StayGuarantee(At(s, a), f, s.frames[f]);
    assert forall t :: Disk(s', t) == Disk(s, t);
  }

  lemma CountUpWorks(s: State, s': State, a: AgentId)
    requires At(s, a).On? && Known(s, a, At(s, a).f) && ApplyCountUp(s, a, At(s, a)) == Some(s')
    ensures Works(s, s', a, At(s, a).f) && s'.free == s.free
  {
    BalancedMoves(s, s', a, At(s, a).f);
    StayWorks(s, s', a, At(s, a).f);
  }

  lemma CountDownOk(s: State, s': State, a: AgentId)
    requires At(s, a).On? && Known(s, a, At(s, a).f) && ApplyCountDown(s, a, At(s, a)) == Some(s')
    ensures AgentOk(s', a)
  {
    var ag, ag' := At(s, a), At(s', a);
    if ag'.On? {
      CountedOk(ag, ag', s.frames[ag.f], Disk(s, s.frames[ag.f].tag));
      AgentStays(s, s', a);
    }
  }

  /** An agent that is right for its frame, in a state with the same frames and disk. */
  lemma AgentStays(s: State, s': State, a: AgentId)
    requires OnPool(s, At(s', a)) && s'.frames == s.frames && s'.disk == s.disk && s'.pageSize == s.pageSize
    requires OnOk(At(s', a), s.frames[At(s', a).f], Disk(s, s.frames[At(s', a).f].tag))
    requires SizeOk(s, At(s', a)) && !Installs(At(s', a))
    ensures AgentOk(s', a)
  {
  }

  lemma CountedOk(ag: Agent, ag': Agent, fr: Frame, disk: Bytes)
    requires ag.On? && OnOk(ag, fr, disk)
    requires (ag.op.FlushCount? && ag' == AfterFlush(ag) && ag'.On?)
      || (ag.op.Frees? && ag.op.free.DropCount? && ag' == ag.(op := Frees(DropRec)))
    ensures OnOk(ag', fr, disk)
  {
  }

  lemma FlushCountWorks(s: State, s': State, a: AgentId)
    requires AtOp(At(s, a), FlushCount) && Known(s, a, At(s, a).f) && ApplyCountDown(s, a, At(s, a)) == Some(s')
    ensures Works(s, s', a, At(s, a).f) && s'.free == s.free
  {
    CountDownOk(s, s', a);
    BalancedMoves(s, s', a, At(s, a).f);
    StayWorks(s, s', a, At(s, a).f);
  }

  lemma DropCountWorks(s: State, s': State, a: AgentId)
    requires At(s, a).On? && At(s, a).op.Frees?
    requires Known(s, a, At(s, a).f) && ApplyCountDown(s, a, At(s, a)) == Some(s')
    ensures Works(s, s', a, At(s, a).f) && s'.free == s.free
  {
    CountDownOk(s, s', a);
    BalancedMoves(s, s', a, At(s, a).f);
    StayWorks(s, s', a, At(s, a).f);
  }

  lemma PopWorks(s: State, s': State, a: AgentId)
    requires FreeListOk(s) && s.free != [] && s.free[0] in s.free
    requires Known(s, a, s.free[0]) && ApplyPop(s, a, At(s, a)) == Some(s')
    ensures Works(s, s', a, s.free[0]) && FreeListOk(s')
  {
    var f := s.free[0];
    assert forall g :: g in s'.free <==> g in s.free && g != f;
    StayWorks(s, s', a, f);
  }

  lemma PushWorks(s: State, s': State, a: AgentId)
    requires FreeListOk(s) && At(s, a).On? && At(s, a).f !in s.free
    requires Known(s, a, At(s, a).f) && ApplyPush(s, a, At(s, a)) == Some(s')
    ensures Works(s, s', a, At(s, a).f) && FreeListOk(s')
  {
    var f := At(s, a).f;
    assert forall g :: g in s'.free <==> g in s.free || g == f;
    StayWorks(s, s', a, f);
  }

  lemma LockWorks(s: State, s': State, a: AgentId)
    requires At(s, a).On? && Known(s, a, At(s, a).f) && ApplyLockTags(s, a, At(s, a)) == Some(s')
    ensures Works(s, s', a, At(s, a).f) && s'.free == s.free
  {
    BalancedMoves(s, s', a, At(s, a).f);
    StayWorks(s, s', a, At(s, a).f);
  }

  lemma CheckWorks(s: State, s': State, a: AgentId, g: FrameId)
    requires At(s, a).On? && Known(s, a, At(s, a).f) && ApplyCheckLive(s, a, At(s, a), g) == Some(s')
    ensures Works(s, s', a, At(s, a).f) && s'.free == s.free
  {
    BalancedMoves(s, s', a, At(s, a).f);
    StayWorks(s, s', a, At(s, a).f);
  }

  // Steps on the page table

  /** A change of the page table entry of a frame that the agent owns. */
  lemma MappedWorks(s: State, s': State, a: AgentId, ag': Agent, f: FrameId, key: Option<Tag>)
    requires Known(s, a, f) && (HasLoad(At(s, a), f) || HasFree(At(s, a), f))
    requires s' == PutFrame(s, a, ag', f, s.frames[f].(key := key)).(locks := s'.locks)
    requires ag'.On? && ag'.f == f && Balanced(At(s, a), ag', f, s.frames[f].word, s.frames[f].word)
    requires AgentOk(s', a) && LocksMove(s, s', a)
    requires key == None || (key == Some(s.frames[f].tag) && key.value in s.locks && s.locks[key.value] == a
                             && forall g :: 0 <= g < |s.frames| && g != f && Placed(s.frames[g]) ==>
                               s.frames[g].tag != key.value)
    ensures Works(s, s', a, f)
  {
    assert forall t :: Disk(s', t) == Disk(s, t);
    BalancedMoves(s, s', a, f);
  }

  lemma InstallWorks(s: State, s': State, a: AgentId)
    requires At(s, a).On? && Known(s, a, At(s, a).f) && ApplyInstall(s, a, At(s, a)) == Some(s')
    ensures Works(s, s', a, At(s, a).f) && s'.free == s.free
  {
    var ag := At(s, a);
    assert ag.tag in LockSet(s.frames[ag.f], ag.tag);
    MappedWorks(s, s', a, At(s', a), ag.f, Some(ag.tag));
  }

  lemma ConflictWorks(s: State, s': State, a: AgentId)
    requires At(s, a).On? && Known(s, a, At(s, a).f) && ApplyConflict(s, a, At(s, a)) == Some(s')
    ensures Works(s, s', a, At(s, a).f) && s'.free == s.free
  {
    MappedWorks(s, s', a, At(s', a), At(s, a).f, None);
  }

  lemma UnmapWorks(s: State, s': State, a: AgentId)
    requires At(s, a).On? && Known(s, a, At(s, a).f) && ApplyUnmap(s, a, At(s, a)) == Some(s')
    ensures Works(s, s', a, At(s, a).f) && s'.free == s.free
  {
    MappedWorks(s, s', a, At(s', a), At(s, a).f, None);
  }

  // Steps on the log and the disk

  lemma LogGuarantee(ag: Agent, f: FrameId, fr: Frame, fr': Frame, id: ChangeId, disk: Bytes)
    requires BeforeOk(ag, f, fr, disk) && ag.On? && ag.op.MarkLower? && ag.op.lsn != 0
    requires id !in fr.pending && id !in fr.covered
    requires fr' == fr.(rec := Lower(fr.rec, ag.op.lsn), pending := fr.pending[id := ag.op.lsn])
    ensures Guarantee(ag, f, fr, fr') && FrameOk(fr')
    ensures OnOk(ag.(op := MarkCount(ag.op.became)), fr', disk)
  {
    LowerKeeps(fr.rec, ag.op.lsn);
  }

  /** A change without an LSN is not logged. */
  lemma UnloggedWorks(s: State, s': State, a: AgentId, id: ChangeId)
    requires At(s, a).On? && Known(s, a, At(s, a).f) && ApplyLogChange(s, a, At(s, a), id) == Some(s')
    requires At(s, a).op.lsn == 0
    ensures Works(s, s', a, At(s, a).f) && s'.free == s.free
  {
    BalancedMoves(s, s', a, At(s, a).f);
    StayWorks(s, s', a, At(s, a).f);
  }

  lemma LoggedWorks(s: State, s': State, a: AgentId, id: ChangeId)
    requires At(s, a).On? && Known(s, a, At(s, a).f) && ApplyLogChange(s, a, At(s, a), id) == Some(s')
    requires At(s, a).op.lsn != 0
    requires id !in s.frames[At(s, a).f].pending && id !in s.frames[At(s, a).f].covered
    ensures Works(s, s', a, At(s, a).f) && s'.free == s.free
  {
    var ag := At(s, a);
    BalancedMoves(s, s', a, ag.f);
    LogGuarantee(ag, ag.f, s.frames[ag.f], s'.frames[ag.f], id, Disk(s, s.frames[ag.f].tag));
    assert forall t :: Disk(s', t) == Disk(s, t);
  }

  lemma LogWorks(s: State, s': State, a: AgentId, id: ChangeId)
    requires At(s, a).On? && Known(s, a, At(s, a).f) && ApplyLogChange(s, a, At(s, a), id) == Some(s')
    requires id !in s.logged ==> id !in s.frames[At(s, a).f].pending && id !in s.frames[At(s, a).f].covered
    ensures Works(s, s', a, At(s, a).f) && s'.free == s.free
  {
    if At(s, a).op.lsn == 0 {
      UnloggedWorks(s, s', a, id);
    } else {
      LoggedWorks(s, s', a, id);
    }
  }

  lemma TearWorks(s: State, s': State, a: AgentId, torn: Bytes)
    requires At(s, a).On? && Known(s, a, At(s, a).f) && ApplyTearWrite(s, At(s, a), torn) == Some(s')
    ensures Works(s, s', a, At(s, a).f) && s'.free == s.free
  {
    var f := At(s, a).f;
    StayGuarantee(At(s, a), f, s.frames[f]);
    BalancedMoves(s, s', a, f);
    assert forall t :: t != s.frames[f].tag ==> Disk(s', t) == Disk(s, t);
  }

  lemma WriteGuarantee(ag: Agent, f: FrameId, fr: Frame, fr': Frame, disk: Bytes)
    requires BeforeOk(ag, f, fr, disk) && Writes(ag)
    requires fr' == fr.(pending := fr.pending - ag.op.flush.ids)
    ensures Guarantee(ag, f, fr, fr') && FrameOk(fr')
    ensures OnOk(Flushing(ag, Finishing(ag.op.flush.bytes, true)), fr', ag.op.flush.bytes)
  {
  }

  lemma WriteWorks(s: State, s': State, a: AgentId)
    requires At(s, a).On? && Known(s, a, At(s, a).f) && ApplyWriteOk(s, a, At(s, a)) == Some(s')
    ensures Works(s, s', a, At(s, a).f) && s'.free == s.free
  {
    var f := At(s, a).f;
    WriteGuarantee(At(s, a), f, s.frames[f], s'.frames[f], Disk(s, s.frames[f].tag));
    WriteDisk(s, s', a);
    BalancedMoves(s, s', a, f);
  }

  lemma WriteDisk(s: State, s': State, a: AgentId)
    requires At(s, a).On? && Known(s, a, At(s, a).f) && ApplyWriteOk(s, a, At(s, a)) == Some(s')
    ensures Disk(s', At(s, a).tag) == At(s, a).op.flush.bytes && At(s, a).tag == s.frames[At(s, a).f].tag
    ensures forall t :: t != At(s, a).tag ==> Disk(s', t) == Disk(s, t)
  {
  }

  lemma DiscardWorks(s: State, s': State, a: AgentId)
    requires At(s, a).On? && Known(s, a, At(s, a).f) && ApplyDiscard(s, a, At(s, a)) == Some(s')
    ensures Works(s, s', a, At(s, a).f) && s'.free == s.free
  {
    var f := At(s, a).f;
    DiscardGuarantee(At(s, a), f, s.frames[f], Disk(s, s.frames[f].tag));
    assert forall t :: Disk(s', t) == Disk(s, t);
    BalancedMoves(s, s', a, f);
  }

  lemma DiscardGuarantee(ag: Agent, f: FrameId, fr: Frame, disk: Bytes)
    requires BeforeOk(ag, f, fr, disk) && Holds(ag, PinHold) && TryDiscardPinned(fr.word) == Discarded
    ensures var fr' := fr.(word := EMPTY_WORD, pending := map[]);
      && Guarantee(ag, f, fr, fr') && FrameOk(fr')
      && OnOk(ag.(hold := NoHold, op := Frees(DropCount(fr.word.dirty))), fr', disk)
  {
  }

  // Scans

  lemma PutCounts(s: State, a: AgentId, ag': Agent)
    requires !At(s, a).On? && !ag'.On?
    ensures Counts(s) ==> Counts(Put(s, a, ag'))
    ensures Counter(s) ==> Counter(Put(s, a, ag'))
  {
    var s' := Put(s, a, ag');
    forall c: Claim, f: FrameId ensures Holders(s'.agents, c, f) == Holders(s.agents, c, f) {
    }
    assert UpAgents(s'.agents) == UpAgents(s.agents) && DownAgents(s'.agents) == DownAgents(s.agents);
    assert DirtyFrames(s') == DirtyFrames(s);
  }

  lemma PutOther(s: State, a: AgentId, ag': Agent, b: AgentId)
    requires b != a && AgentOk(s, b)
    ensures AgentOk(Put(s, a, ag'), b)
  {
  }

  lemma PutKeeps(s: State, a: AgentId, ag': Agent)
    requires Inv(s) && !At(s, a).On? && !ag'.On? && AgentOk(Put(s, a, ag'), a)
    ensures Inv(Put(s, a, ag'))
  {
    PutCounts(s, a, ag');
    PutAgents(s, a, ag');
    PutFrames(s, a, ag');
  }

  lemma PutAgents(s: State, a: AgentId, ag': Agent)
    requires Agents(s) && AgentOk(Put(s, a, ag'), a)
    ensures Agents(Put(s, a, ag'))
  {
    forall b: AgentId ensures AgentOk(Put(s, a, ag'), b) {
      if b != a {
        PutOther(s, a, ag', b);
      }
    }
  }

  lemma PutFrames(s: State, a: AgentId, ag': Agent)
    requires Frames(s) && Placement(s) && FreeListOk(s) && Changes(s)
    ensures Frames(Put(s, a, ag')) && Placement(Put(s, a, ag')) && FreeListOk(Put(s, a, ag')) && Changes(Put(s, a, ag'))
  {
    assert forall t :: Disk(Put(s, a, ag'), t) == Disk(s, t);
  }

  /** The first load: what `rec_lsn` does not cover, `writeback_rec_lsn` does. */
  lemma HalfwayStarts(s: State, index: nat, watch: map<ChangeId, Lsn>)
    requires Frames(s) && Changes(s) && Watches(s, watch) && index < |s.frames|
    ensures Halfway(s, index, watch, s.frames[index].rec)
  {
    assert FrameOk(s.frames[index]);
  }

  /** The second load: the two together cover every watched change. */
  lemma HalfwayEnds(s: State, index: nat, watch: map<ChangeId, Lsn>, pending: Lsn, id: ChangeId)
    requires Frames(s) && Changes(s) && Watches(s, watch) && index < |s.frames| && Halfway(s, index, watch, pending)
    requires id in watch && id in s.frames[index].pending
    ensures Covers(FrameRecLsn(pending, s.frames[index].wbRec), watch[id])
  {
    assert FrameOk(s.frames[index]);
  }

  lemma ScanKeeps(s: State, s': State, a: AgentId, scan: ScanStep)
    requires Inv(s) && ApplyScan(s, a, At(s, a), scan) == Some(s')
    ensures Inv(s')
  {
    var ag := At(s, a);
    assert AgentOk(s, a);
    if scan.ScanPending? {
      HalfwayStarts(s, ag.index, ag.watch);
    } else if scan.ScanWriting? {
      var bound := FrameRecLsn(ag.pending, s.frames[ag.index].wbRec);
      LowerKeeps(ag.oldest, bound);
      forall id | id in ag.watch && id in s.frames[ag.index].pending ensures Covers(bound, ag.watch[id]) {
        HalfwayEnds(s, ag.index, ag.watch, ag.pending, id);
      }
    }
    PutKeeps(s, a, At(s', a));
  }

  /** Both loads together say that nothing below `lsn` is left in the frame. */
  lemma CheckpointPasses(s: State, index: nat, watch: map<ChangeId, Lsn>, pending: Lsn, lsn: Lsn)
    requires Frames(s) && Changes(s) && Watches(s, watch) && index < |s.frames| && Halfway(s, index, watch, pending)
    requires Passed(s, index, watch, lsn) && !IsBefore(pending, s.frames[index].wbRec, lsn)
    ensures Passed(s, index + 1, watch, lsn)
  {
    forall id | id in watch && id in s.frames[index].pending ensures lsn <= watch[id] {
      HalfwayEnds(s, index, watch, pending, id);
    }
  }

  /** A frame that is not dirty has no change left. */
  lemma CleanPasses(s: State, index: nat, watch: map<ChangeId, Lsn>, lsn: Lsn)
    requires Frames(s) && index < |s.frames| && Passed(s, index, watch, lsn)
    requires TryQueueWriteback(s.frames[index].word, false) == NotDirty
    ensures Passed(s, index + 1, watch, lsn)
  {
    assert FrameOk(s.frames[index]);
  }

  lemma CheckpointOk(s: State, s': State, a: AgentId, check: CheckpointStep)
    requires Frames(s) && Changes(s) && AgentOk(s, a) && ApplyCheckpoint(s, a, At(s, a), check) == Some(s')
    ensures s' == Put(s, a, At(s', a)) && !At(s, a).On? && !At(s', a).On? && AgentOk(s', a)
  {
    var ag := At(s, a);
    match check {
      case CheckpointPending => HalfwayStarts(s, ag.index, ag.watch);
      case CheckpointWriting =>
        if !IsBefore(ag.pending, s.frames[ag.index].wbRec, ag.lsn) {
          CheckpointPasses(s, ag.index, ag.watch, ag.pending, ag.lsn);
        }
      case CheckpointClean => CleanPasses(s, ag.index, ag.watch, ag.lsn);
      case _ =>
    }
  }

  lemma CheckpointKeeps(s: State, s': State, a: AgentId, check: CheckpointStep)
    requires Inv(s) && ApplyCheckpoint(s, a, At(s, a), check) == Some(s')
    ensures Inv(s')
  {
    assert AgentOk(s, a);
    CheckpointOk(s, s', a, check);
    PutKeeps(s, a, At(s', a));
  }

  // Runs

  lemma OnKnown(s: State, a: AgentId)
    requires Inv(s) && At(s, a).On?
    ensures OnPool(s, At(s, a)) && Known(s, a, At(s, a).f)
    ensures HasFree(At(s, a), At(s, a).f) ==> At(s, a).f !in s.free
  {
    assert AgentOk(s, a);
    InvKnows(s, a, At(s, a).f);
    ClaimsHold(s, a);
  }

  /** The frame that a step is about. */
  function FrameOf(s: State, a: AgentId, st: Step): FrameId {
    if st.OnFrame? then st.f
    else if st.Pop? && s.free != [] then s.free[0]
    else if At(s, a).On? then At(s, a).f
    else 0
  }

  lemma LocalStepMoves(s: State, s': State, a: AgentId, f: FrameId, local: LocalStep)
    requires Inv(s) && ApplyLocal(s, a, At(s, a), f, local) == Some(s')
    ensures Moves(s, s', a, f)
  {
    InvKnows(s, a, f);
    LocalWorks(s, s', a, f, local);
    FreeKept(s, s', a, f);
  }

  lemma LogStepMoves(s: State, s': State, a: AgentId, id: ChangeId)
    requires Inv(s) && ApplyLogChange(s, a, At(s, a), id) == Some(s')
    ensures At(s, a).On? && Moves(s, s', a, At(s, a).f)
  {
    OnKnown(s, a);
    assert Changes(s);
    LogWorks(s, s', a, id);
    FreeKept(s, s', a, At(s, a).f);
  }

  /** One step of the counter, or a discard. */
  lemma CountStepMoves(s: State, s': State, a: AgentId, st: Step)
    requires Inv(s) && Apply(s, a, st) == Some(s') && (st.CountUp? || st.CountDown? || st.Discard?)
    ensures At(s, a).On? && Moves(s, s', a, At(s, a).f)
  {
    OnKnown(s, a);
    match st {
      case CountUp => CountUpWorks(s, s', a);
      case CountDown => if At(s, a).op.Frees? { DropCountWorks(s, s', a); } else { FlushCountWorks(s, s', a); }
      case Discard => DiscardWorks(s, s', a);
    }
    FreeKept(s, s', a, At(s, a).f);
  }

  lemma TableStepMoves(s: State, s': State, a: AgentId, st: Step)
    requires Inv(s) && Apply(s, a, st) == Some(s')
    requires st.LockTags? || st.CheckLive? || st.Install? || st.Conflict? || st.Unmap?
    ensures At(s, a).On? && Moves(s, s', a, At(s, a).f)
  {
    OnKnown(s, a);
    match st {
      case LockTags => LockWorks(s, s', a);
      case CheckLive(g) => CheckWorks(s, s', a, g);
      case Install => InstallWorks(s, s', a);
      case Conflict => ConflictWorks(s, s', a);
      case Unmap => UnmapWorks(s, s', a);
    }
    FreeKept(s, s', a, At(s, a).f);
  }

  lemma DiskStepMoves(s: State, s': State, a: AgentId, st: Step)
    requires Inv(s) && Apply(s, a, st) == Some(s') && (st.ReadOk? || st.TearWrite? || st.WriteOk?)
    ensures At(s, a).On? && Moves(s, s', a, At(s, a).f)
  {
    OnKnown(s, a);
    match st {
      case ReadOk => ReadWorks(s, s', a);
      case TearWrite(torn) => TearWorks(s, s', a, torn);
      case WriteOk => WriteWorks(s, s', a);
    }
    FreeKept(s, s', a, At(s, a).f);
  }

  lemma ListStepMoves(s: State, s': State, a: AgentId, st: Step)
    requires Inv(s) && Apply(s, a, st) == Some(s') && (st.Pop? || st.Push?)
    ensures Moves(s, s', a, FrameOf(s, a, st))
  {
    if st.Pop? {
      assert s.free[0] in s.free;
      InvKnows(s, a, s.free[0]);
      PopWorks(s, s', a);
    } else {
      OnKnown(s, a);
      PushWorks(s, s', a);
    }
  }

  predicate OnItsFrame(st: Step) { !st.OnFrame? && !st.Pop? && !st.Push? && !st.ByScan? && !st.ByCheckpoint? }

  lemma OnStepMoves(s: State, s': State, a: AgentId, st: Step)
    requires Inv(s) && Apply(s, a, st) == Some(s') && OnItsFrame(st)
    ensures At(s, a).On? && Moves(s, s', a, At(s, a).f)
  {
    match st {
      case LogChange(id) => LogStepMoves(s, s', a, id);
      case CountUp => CountStepMoves(s, s', a, st);
      case CountDown => CountStepMoves(s, s', a, st);
      case Discard => CountStepMoves(s, s', a, st);
      case ReadOk => DiskStepMoves(s, s', a, st);
      case TearWrite(_) => DiskStepMoves(s, s', a, st);
      case WriteOk => DiskStepMoves(s, s', a, st);
      case _ => TableStepMoves(s, s', a, st);
    }
  }

  /** Every step that is not part of a scan changes one agent and one frame, within
      the agent's claims on the frame. */
  lemma StepMoves(s: State, s': State, a: AgentId, st: Step)
    requires Inv(s) && Apply(s, a, st) == Some(s') && !st.ByScan? && !st.ByCheckpoint?
    ensures Moves(s, s', a, FrameOf(s, a, st))
  {
    if st.OnFrame? {
      LocalStepMoves(s, s', a, st.f, st.local);
    } else if st.Pop? || st.Push? {
      ListStepMoves(s, s', a, st);
    } else {
      OnStepMoves(s, s', a, st);
    }
  }

  /** Every step of every agent keeps the invariant. */
  lemma StepKeeps(s: State, s': State, a: AgentId, st: Step)
    requires Inv(s) && Apply(s, a, st) == Some(s')
    ensures Inv(s')
  {
    if st.ByScan? {
      ScanKeeps(s, s', a, st.scan);
    } else if st.ByCheckpoint? {
      CheckpointKeeps(s, s', a, st.check);
    } else {
      StepMoves(s, s', a, st);
      MovesKeep(s, s', a, FrameOf(s, a, st));
    }
  }

  lemma InitInv(s: State)
    requires Init(s)
    ensures Inv(s)
  {
    forall f: FrameId | f < |s.frames| ensures f in s.free {
      assert s.free[|s.frames| - 1 - f] == f;
    }
    forall c: Claim, f: FrameId | f < |s.frames|
      ensures |Holders(s.agents, c, f)| == Expected(s.frames[f].word, c, f in s.free)
    {
      assert Holders(s.agents, c, f) == {};
    }
    assert UpAgents(s.agents) == {} && DownAgents(s.agents) == {} && DirtyFrames(s) == {};
  }

  /** The invariant holds in every state of every run. */
  lemma {:induction false} RunInv(run: seq<State>, i: nat)
    requires IsRun(run) && i < |run|
    ensures Inv(run[i])
  {
    if i == 0 {
      InitInv(run[0]);
    } else {
      RunInv(run, i - 1);
      assert Next(run[i - 1], run[i - 1 + 1]);
      var a: AgentId, st: Step :| Apply(run[i - 1], a, st) == Some(run[i]);
      StepKeeps(run[i - 1], run[i], a, st);
    }
  }
}
