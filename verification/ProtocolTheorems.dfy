/** What the buffer pool promises, over every run of the frame protocol. */
module ProtocolTheorems {
  import opened Arithmetic
  import opened ControlWord
  import opened Protocol
  import opened ProtocolInvariant
  import opened ProtocolLocal
  import opened ProtocolProof
  import opened ProtocolSteps
  import opened ProtocolStored
  import opened Types

  // One copy of a page

  /** At most one frame is resident for a tag, and it is mapped under that tag. */
  lemma OneResidentCopy(run: seq<State>, i: nat, f: FrameId, g: FrameId)
    requires IsRun(run) && i < |run| && f < |run[i].frames| && g < |run[i].frames|
    requires run[i].frames[f].word.state.Resident?
    ensures run[i].frames[f].key == Some(run[i].frames[f].tag)
    ensures run[i].frames[g].word.state.Resident? && run[i].frames[g].tag == run[i].frames[f].tag ==> g == f
  {
    RunInv(run, i);
    var s := run[i];
    assert FrameOk(s.frames[f]) && FrameOk(s.frames[g]);
  }

  // A plain block store

  predicate ResidentFor(fr: Frame, tag: Tag) { fr.word.state.Resident? && fr.tag == tag }

  /** What a reader of the block sees. */
  ghost function Value(s: State, tag: Tag): Bytes {
    if exists f :: 0 <= f < |s.frames| && ResidentFor(s.frames[f], tag) then
      var f :| 0 <= f < |s.frames| && ResidentFor(s.frames[f], tag);
      s.frames[f].bytes
    else Disk(s, tag)
  }

  datatype BlockOp =
    | KeepBlocks
    | PutBlock(tag: Tag, bytes: Bytes)
    | ZeroBlock(tag: Tag)
    | RevertBlock(tag: Tag)

  /** The block store operation that a step performs. */
  function BlockOpOf(s: State, a: AgentId, st: Step): BlockOp {
    if !At(s, a).On? then KeepBlocks
    else if st.OnFrame? && st.local.ByHandle? && st.local.handle.WriteBytes? then
      PutBlock(At(s, a).tag, st.local.handle.bytes)
    else if st.OnFrame? && st.local.ByLoad? && st.local.load.ZeroPublish? then ZeroBlock(At(s, a).tag)
    else if st.Discard? then RevertBlock(At(s, a).tag)
    else KeepBlocks
  }

  lemma ResidentValue(s: State, f: FrameId)
    requires Frames(s) && Placement(s) && f < |s.frames| && s.frames[f].word.state.Resident?
    ensures Value(s, s.frames[f].tag) == s.frames[f].bytes
  {
    assert ResidentFor(s.frames[f], s.frames[f].tag);
    assert forall g :: 0 <= g < |s.frames| ==> FrameOk(s.frames[g]);
  }

  /** What the step does to the page of its frame when it leaves the store alone. */
  predicate Carries(fr: Frame, fr': Frame, disk: Bytes) {
    && (fr.word.state.Resident? && fr'.word.state.Resident? ==> fr'.tag == fr.tag && fr'.bytes == fr.bytes)
    && (fr.word.state.Resident? && !fr'.word.state.Resident? ==> fr.bytes == disk)
    && (!fr.word.state.Resident? && fr'.word.state.Resident? ==> fr'.tag == fr.tag && fr'.bytes == disk)
  }

  lemma HandleCarries(f: FrameId, fr: Frame, ag: Agent, st: HandleStep, fr': Frame, ag': Agent, disk: Bytes)
    requires BeforeOk(ag, f, fr, disk) && HandleLocal(f, fr, ag, st) == Some((fr', ag')) && !st.WriteBytes?
    requires StoredPage(fr, disk)
    ensures Carries(fr, fr', disk)
  {
  }

  lemma LoadCarries(f: FrameId, fr: Frame, ag: Agent, st: LoadStep, fr': Frame, ag': Agent, disk: Bytes)
    requires BeforeOk(ag, f, fr, disk) && LoadLocal(f, fr, ag, st) == Some((fr', ag')) && !st.ZeroPublish?
    requires StoredPage(fr, disk)
    ensures Carries(fr, fr', disk)
  {
  }

  lemma FlushCarries(f: FrameId, fr: Frame, ag: Agent, st: FlushStep, fr': Frame, ag': Agent, disk: Bytes)
    requires BeforeOk(ag, f, fr, disk) && FlushLocal(f, fr, ag, st) == Some((fr', ag'))
    ensures Carries(fr, fr', disk)
  {
  }

  lemma LocalCarries(f: FrameId, fr: Frame, ag: Agent, st: LocalStep, fr': Frame, ag': Agent, disk: Bytes)
    requires BeforeOk(ag, f, fr, disk) && Local(f, fr, ag, st) == Some((fr', ag')) && StoredPage(fr, disk)
    requires !(st.ByHandle? && st.handle.WriteBytes?) && !(st.ByLoad? && st.load.ZeroPublish?)
    ensures Carries(fr, fr', disk)
  {
    match st {
      case ByHandle(st) => HandleCarries(f, fr, ag, st, fr', ag', disk);
      case ByLoad(st) => LoadCarries(f, fr, ag, st, fr', ag', disk);
      case ByFlush(st) => FlushCarries(f, fr, ag, st, fr', ag', disk);
    }
  }

  /** The page is carried over, and the disk copy changes only under a page that
      stays resident. */
  ghost predicate StoreSafe(s: State, s': State, f: FrameId)
    requires f < |s.frames| == |s'.frames|
  {
    var fr, fr' := s.frames[f], s'.frames[f];
    && Carries(fr, fr', Disk(s, fr.tag))
    && s'.pageSize == s.pageSize
    && (s'.disk == s.disk || (fr'.word == fr.word && fr'.tag == fr.tag))
  }

  lemma LocalSafe(s: State, s': State, a: AgentId, f: FrameId, local: LocalStep)
    requires Known(s, a, f) && ApplyLocal(s, a, At(s, a), f, local) == Some(s') && Stored(s)
    requires !(local.ByHandle? && local.handle.WriteBytes?) && !(local.ByLoad? && local.load.ZeroPublish?)
    ensures |s'.frames| == |s.frames| && StoreSafe(s, s', f)
  {
    LocalCarries(f, s.frames[f], At(s, a), local, s'.frames[f], At(s', a), Disk(s, s.frames[f].tag));
  }

  lemma PageSafe(s: State, s': State, a: AgentId, st: Step)
    requires st.LogChange? || st.ReadOk?
    requires Apply(s, a, st) == Some(s') && Known(s, a, FrameOf(s, a, st))
    ensures |s'.frames| == |s.frames| && StoreSafe(s, s', FrameOf(s, a, st))
  {
  }

  lemma WriteSafe(s: State, s': State, a: AgentId, st: Step)
    requires st.TearWrite? || st.WriteOk?
    requires Apply(s, a, st) == Some(s') && FrameOf(s, a, st) < |s.frames|
    ensures |s'.frames| == |s.frames| && StoreSafe(s, s', FrameOf(s, a, st))
  {
  }

  /** Steps on the page table, the counter and the free list. */
  lemma CountSafe(s: State, s': State, a: AgentId, st: Step)
    requires st.CountUp? || st.CountDown? || st.Pop? || st.Push? || st.LockTags? || st.CheckLive?
    requires Apply(s, a, st) == Some(s') && FrameOf(s, a, st) < |s.frames|
    ensures |s'.frames| == |s.frames| && StoreSafe(s, s', FrameOf(s, a, st))
  {
    assert s'.frames == s.frames && s'.disk == s.disk && s'.pageSize == s.pageSize;
  }

  lemma TableSafe(s: State, s': State, a: AgentId, st: Step)
    requires st.Install? || st.Conflict? || st.Unmap?
    requires Apply(s, a, st) == Some(s') && FrameOf(s, a, st) < |s.frames|
    ensures |s'.frames| == |s.frames| && StoreSafe(s, s', FrameOf(s, a, st))
  {
  }

  /** The value of a block changes with its frame and its disk copy only. */
  lemma ValueElsewhere(s: State, s': State, a: AgentId, f: FrameId, tag: Tag)
    requires Frames(s) && Placement(s) && Frames(s') && Placement(s') && Touches(s, s', a, f)
    requires !ResidentFor(s.frames[f], tag) && !ResidentFor(s'.frames[f], tag) && Disk(s', tag) == Disk(s, tag)
    ensures Value(s', tag) == Value(s, tag)
  {
    if g :| 0 <= g < |s.frames| && ResidentFor(s.frames[g], tag) {
      assert ResidentFor(s'.frames[g], tag);
      ResidentValue(s, g);
      ResidentValue(s', g);
    }
  }

  lemma AbsentValue(s: State, tag: Tag)
    requires forall f :: 0 <= f < |s.frames| ==> !ResidentFor(s.frames[f], tag)
    ensures Value(s, tag) == Disk(s, tag)
  {
  }

  lemma OnlyFrame(s: State, f: FrameId, tag: Tag)
    requires Frames(s) && Placement(s) && f < |s.frames| && ResidentFor(s.frames[f], tag)
    ensures forall g :: 0 <= g < |s.frames| && g != f ==> !ResidentFor(s.frames[g], tag)
  {
    assert forall g :: 0 <= g < |s.frames| ==> FrameOk(s.frames[g]);
  }

  lemma ValueKept(s: State, s': State, a: AgentId, f: FrameId, tag: Tag)
    requires Frames(s) && Placement(s) && Frames(s') && Placement(s') && Touches(s, s', a, f)
    requires Carries(s.frames[f], s'.frames[f], Disk(s, s.frames[f].tag))
    requires Disk(s', tag) == Disk(s, tag) || (ResidentFor(s.frames[f], tag) && ResidentFor(s'.frames[f], tag))
    ensures Value(s', tag) == Value(s, tag)
  {
    if ResidentFor(s.frames[f], tag) {
      ResidentValue(s, f);
      OnlyFrame(s, f, tag);
      if ResidentFor(s'.frames[f], tag) {
        ResidentValue(s', f);
      } else {
        AbsentValue(s', tag);
      }
    } else if ResidentFor(s'.frames[f], tag) {
      ResidentValue(s', f);
      OnlyFrame(s', f, tag);
      AbsentValue(s, tag);
    } else {
      ValueElsewhere(s, s', a, f, tag);
    }
  }

  lemma ScanValue(s: State, s': State, tag: Tag)
    requires Inv(s) && Inv(s') && s' == s.(agents := s'.agents)
    ensures Value(s', tag) == Value(s, tag)
  {
    if f :| 0 <= f < |s.frames| && ResidentFor(s.frames[f], tag) {
      ResidentValue(s, f);
      assert ResidentFor(s'.frames[f], tag);
      ResidentValue(s', f);
    }
  }

  lemma SafeValue(s: State, s': State, a: AgentId, f: FrameId, tag: Tag)
    requires Frames(s) && Placement(s) && Frames(s') && Placement(s') && Touches(s, s', a, f) && DiskMoves(s, s', a, f)
    requires StoreSafe(s, s', f) && (HasFlush(At(s, a), f) ==> s.frames[f].word.state.Resident?)
    ensures Value(s', tag) == Value(s, tag)
  {
    ValueKept(s, s', a, f, tag);
  }

  lemma KeepStep(s: State, s': State, a: AgentId, st: Step)
    requires Known(s, a, FrameOf(s, a, st)) && Apply(s, a, st) == Some(s') && !st.ByScan? && !st.ByCheckpoint?
    requires BlockOpOf(s, a, st) == KeepBlocks && Stored(s)
    ensures |s'.frames| == |s.frames| && StoreSafe(s, s', FrameOf(s, a, st))
    ensures HasFlush(At(s, a), FrameOf(s, a, st)) ==> s.frames[FrameOf(s, a, st)].word.state.Resident?
  {
    if st.OnFrame? {
      LocalSafe(s, s', a, st.f, st.local);
    } else if st.LogChange? || st.ReadOk? {
      PageSafe(s, s', a, st);
    } else if st.TearWrite? || st.WriteOk? {
      WriteSafe(s, s', a, st);
    } else if st.Install? || st.Conflict? || st.Unmap? {
      TableSafe(s, s', a, st);
    } else {
      CountSafe(s, s', a, st);
    }
  }

  /** The page of the step's frame, when the step is an operation on the store. */
  lemma OpStep(s: State, s': State, a: AgentId, st: Step)
    requires At(s, a).On? && Known(s, a, At(s, a).f) && Apply(s, a, st) == Some(s') && BlockOpOf(s, a, st) != KeepBlocks
    ensures var f, op := At(s, a).f, BlockOpOf(s, a, st);
      && s'.disk == s.disk && s'.frames == s.frames[f := s'.frames[f]] && FrameOf(s, a, st) == f
      && s.frames[f].tag == s'.frames[f].tag == op.tag
      && (op.PutBlock? ==>
        HasExclusive(At(s, a), f) && ResidentFor(s'.frames[f], op.tag) && s'.frames[f].bytes == op.bytes)
      && (op.ZeroBlock? ==> ResidentFor(s'.frames[f], op.tag) && s'.frames[f].bytes == Zeros(s.pageSize))
      && (op.RevertBlock? ==> ResidentFor(s.frames[f], op.tag) && s'.frames[f].word.state.Free?)
  {
  }

  lemma WriterAlone(s: State, a: AgentId)
    requires Inv(s) && OnPool(s, At(s, a)) && HasExclusive(At(s, a), At(s, a).f)
    ensures forall b :: b != a ==> !HasShared(At(s, b), At(s, a).f) && !HasExclusive(At(s, b), At(s, a).f)
  {
    var f := At(s, a).f;
    forall b | b != a ensures !HasShared(At(s, b), f) && !HasExclusive(At(s, b), f) {
      if At(s, b).On? && At(s, b).f == f {
        assert FrameOk(s.frames[f]);
        Exclusion(s, a, b, f);
      }
    }
  }

  ghost predicate Performs(s: State, s': State, op: BlockOp, tag: Tag) {
    match op
    case KeepBlocks => Value(s', tag) == Value(s, tag)
    case PutBlock(t, bytes) => Value(s', tag) == if tag == t then bytes else Value(s, tag)
    case ZeroBlock(t) => Value(s', tag) == if tag == t then Zeros(s.pageSize) else Value(s, tag)
    case RevertBlock(t) => Value(s', tag) == if tag == t then Disk(s, tag) else Value(s, tag)
  }

  lemma OpValue(s: State, s': State, a: AgentId, f: FrameId, op: BlockOp, tag: Tag)
    requires Frames(s) && Placement(s) && Frames(s') && Placement(s') && Touches(s, s', a, f) && op != KeepBlocks
    requires s'.disk == s.disk && s.frames[f].tag == s'.frames[f].tag == op.tag
    requires op.PutBlock? ==> ResidentFor(s'.frames[f], op.tag) && s'.frames[f].bytes == op.bytes
    requires op.ZeroBlock? ==> ResidentFor(s'.frames[f], op.tag) && s'.frames[f].bytes == Zeros(s.pageSize)
    requires op.RevertBlock? ==> ResidentFor(s.frames[f], op.tag) && s'.frames[f].word.state.Free?
    ensures Performs(s, s', op, tag)
  {
    if tag != op.tag {
      ValueElsewhere(s, s', a, f, tag);
    } else if op.RevertBlock? {
      OnlyFrame(s, f, tag);
      AbsentValue(s', tag);
    } else {
      ResidentValue(s', f);
    }
  }

  lemma KeepPerforms(s: State, s': State, a: AgentId, st: Step, tag: Tag)
    requires Inv(s) && Inv(s') && Apply(s, a, st) == Some(s') && Moves(s, s', a, FrameOf(s, a, st))
    requires BlockOpOf(s, a, st) == KeepBlocks && !st.ByScan? && !st.ByCheckpoint? && Stored(s)
    ensures Value(s', tag) == Value(s, tag)
  {
    var f := FrameOf(s, a, st);
    InvKnows(s, a, f);
    KeepStep(s, s', a, st);
    SafeValue(s, s', a, f, tag);
  }

  lemma OpPerforms(s: State, s': State, a: AgentId, st: Step, tag: Tag)
    requires Inv(s) && Inv(s') && Apply(s, a, st) == Some(s') && Moves(s, s', a, FrameOf(s, a, st))
    requires BlockOpOf(s, a, st) != KeepBlocks
    ensures Performs(s, s', BlockOpOf(s, a, st), tag)
  {
    OnKnown(s, a);
    OpStep(s, s', a, st);
    OpValue(s, s', a, At(s, a).f, BlockOpOf(s, a, st), tag);
  }

  /** While clean pages are what the disk holds, every step is one operation of a plain
      block store or leaves it alone: pins, latches, snapshots, failed and torn writes,
      evictions and loads are invisible, whatever they interleave with. */
  lemma StepRefinesBlockStore(s: State, s': State, a: AgentId, st: Step, tag: Tag)
    requires Inv(s) && Stored(s) && Apply(s, a, st) == Some(s')
    ensures Performs(s, s', BlockOpOf(s, a, st), tag)
  {
    StepKeeps(s, s', a, st);
    if st.ByScan? {
      ScanSame(s, s', a, st.scan);
      ScanValue(s, s', tag);
    } else if st.ByCheckpoint? {
      CheckpointSame(s, s', a, st.check);
      ScanValue(s, s', tag);
    } else {
      StepMoves(s, s', a, st);
      if BlockOpOf(s, a, st) == KeepBlocks {
        KeepPerforms(s, s', a, st, tag);
      } else {
        OpPerforms(s, s', a, st, tag);
      }
    }
  }

  /** A block is put only by a thread that no reader or writer of the page runs
      beside. */
  lemma WritersExclude(s: State, s': State, a: AgentId, st: Step, b: AgentId)
    requires Inv(s) && Apply(s, a, st) == Some(s') && BlockOpOf(s, a, st).PutBlock? && b != a
    ensures At(s, a).f < |s.frames| && ResidentFor(s.frames[At(s, a).f], BlockOpOf(s, a, st).tag)
    ensures !HasShared(At(s, b), At(s, a).f) && !HasExclusive(At(s, b), At(s, a).f)
  {
    OnKnown(s, a);
    OpStep(s, s', a, st);
    WriterAlone(s, a);
  }

  // Whole runs

  datatype Event = Event(agent: AgentId, step: Step)

  /** A run together with the step taken from each of its states. */
  ghost predicate IsTrace(run: seq<State>, events: seq<Event>) {
    && run != [] && Init(run[0]) && |events| == |run| - 1
    && forall i :: 0 <= i < |events| ==> Apply(run[i], events[i].agent, events[i].step) == Some(run[i + 1])
  }

  /** The first `n` steps heed the rule for zero-filled pages. */
  ghost predicate Heedful(run: seq<State>, events: seq<Event>, n: nat)
    requires n <= |events| && |events| <= |run|
  {
    forall k :: 0 <= k < n ==> Heeds(run[k], events[k].agent, events[k].step)
  }

  lemma {:induction false} TraceInv(run: seq<State>, events: seq<Event>, i: nat)
    requires IsTrace(run, events) && i < |run|
    ensures Inv(run[i])
  {
    if i == 0 {
      InitInv(run[0]);
    } else {
      TraceInv(run, events, i - 1);
      StepKeeps(run[i - 1], run[i], events[i - 1].agent, events[i - 1].step);
    }
  }

  lemma {:induction false} TraceFaithful(run: seq<State>, events: seq<Event>, i: nat)
    requires IsTrace(run, events) && i < |run| && Heedful(run, events, i)
    ensures Inv(run[i]) && Faithful(run[i]) && Stored(run[i])
  {
    TraceInv(run, events, i);
    if i == 0 {
      InitFaithful(run[0]);
    } else {
      TraceInv(run, events, i - 1);
      TraceFaithful(run, events, i - 1);
      StepStaysFaithful(run[i - 1], run[i], events[i - 1].agent, events[i - 1].step);
    }
    FaithfulStored(run[i]);
  }

  /** A resident page that is neither dirty nor held exclusively equals the disk, as long
      as clients have heeded the rule. */
  lemma CleanPageIsStored(run: seq<State>, events: seq<Event>, i: nat, f: FrameId)
    requires IsTrace(run, events) && i < |run| && Heedful(run, events, i) && f < |run[i].frames|
    requires run[i].frames[f].word.state.Resident? && !run[i].frames[f].word.dirty && !run[i].frames[f].word.exclusive
    ensures run[i].frames[f].bytes == Disk(run[i], run[i].frames[f].tag)
  {
    TraceFaithful(run, events, i);
    assert StoredPage(run[i].frames[f], Disk(run[i], run[i].frames[f].tag));
  }

  predicate LeavesAlone(op: BlockOp, tag: Tag) { op.KeepBlocks? || op.tag != tag }

  lemma {:induction false} ValueChain(run: seq<State>, i: nat, j: nat, tag: Tag)
    requires i <= j < |run| && forall k :: i <= k < j ==> Value(run[k + 1], tag) == Value(run[k], tag)
    ensures Value(run[j], tag) == Value(run[i], tag)
    decreases j
  {
    if i < j {
      ValueChain(run, i, j - 1, tag);
      assert Value(run[j - 1 + 1], tag) == Value(run[j - 1], tag);
    }
  }

  /** A block keeps its value over any stretch of a run in which no thread puts,
      zeroes or drops it: no update is lost and none appears. */
  lemma NoLostUpdate(run: seq<State>, events: seq<Event>, i: nat, j: nat, tag: Tag)
    requires IsTrace(run, events) && i <= j < |run| && Heedful(run, events, j)
    requires forall k :: i <= k < j ==> LeavesAlone(BlockOpOf(run[k], events[k].agent, events[k].step), tag)
    ensures Value(run[j], tag) == Value(run[i], tag)
  {
    forall k | i <= k < j ensures Value(run[k + 1], tag) == Value(run[k], tag) {
      TraceFaithful(run, events, k);
      assert LeavesAlone(BlockOpOf(run[k], events[k].agent, events[k].step), tag);
      StepRefinesBlockStore(run[k], run[k + 1], events[k].agent, events[k].step, tag);
    }
    ValueChain(run, i, j, tag);
  }

  // Log sequence numbers

  predicate Scanning(ag: Agent) { ag.Scan? || ag.ScanHalf? }

  predicate Checkpointing(ag: Agent) { ag.Checkpoint? || ag.CheckpointHalf? || ag.CheckpointRound? }

  lemma OwnScanStep(s: State, s': State, b: AgentId, scan: ScanStep, a: AgentId)
    requires ApplyScan(s, b, At(s, b), scan) == Some(s')
    ensures Scanning(At(s, a)) && Scanning(At(s', a)) ==> At(s', a).watch == At(s, a).watch
    ensures Checkpointing(At(s, a)) ==> At(s', a) == At(s, a)
  {
  }

  lemma OwnCheckpointStep(s: State, s': State, b: AgentId, check: CheckpointStep, a: AgentId)
    requires ApplyCheckpoint(s, b, At(s, b), check) == Some(s')
    ensures Scanning(At(s, a)) ==> At(s', a) == At(s, a)
    ensures Checkpointing(At(s, a)) && Checkpointing(At(s', a)) ==>
      At(s', a).watch == At(s, a).watch && At(s', a).lsn == At(s, a).lsn
  {
  }

  /** A scan keeps the changes it watches. */
  ghost predicate KeepsWatch(s: State, s': State, a: AgentId) {
    && (Scanning(At(s, a)) && Scanning(At(s', a)) ==> At(s', a).watch == At(s, a).watch)
    && (Checkpointing(At(s, a)) && Checkpointing(At(s', a)) ==>
          At(s', a).watch == At(s, a).watch && At(s', a).lsn == At(s, a).lsn)
  }

  lemma StepKeepsWatch(s: State, s': State, b: AgentId, st: Step, a: AgentId)
    requires Inv(s) && Apply(s, b, st) == Some(s')
    ensures KeepsWatch(s, s', a)
  {
    if st.ByScan? {
      OwnScanStep(s, s', b, st.scan, a);
    } else if st.ByCheckpoint? {
      OwnCheckpointStep(s, s', b, st.check, a);
    } else {
      StepMoves(s, s', b, st);
      TouchKeepsWatch(s, s', b, FrameOf(s, b, st), a);
    }
  }

  lemma TouchKeepsWatch(s: State, s': State, b: AgentId, f: FrameId, a: AgentId)
    requires Touches(s, s', b, f)
    ensures KeepsWatch(s, s', a)
  {
  }

  ghost predicate Steady(run: seq<State>, a: AgentId) {
    forall k :: 0 <= k < |run| - 1 ==> KeepsWatch(run[k], run[k + 1], a)
  }

  lemma RunIsSteady(run: seq<State>, a: AgentId)
    requires IsRun(run)
    ensures Steady(run, a)
  {
    forall k | 0 <= k < |run| - 1 ensures KeepsWatch(run[k], run[k + 1], a) {
      RunInv(run, k);
      assert Next(run[k], run[k + 1]);
      var b: AgentId, st: Step :| Apply(run[k], b, st) == Some(run[k + 1]);
      StepKeepsWatch(run[k], run[k + 1], b, st, a);
    }
  }

  /** Agent `a` starts a scan at `i` and is still in it at `j`. */
  ghost predicate ScansFrom(run: seq<State>, a: AgentId, i: nat, j: nat) {
    && i < j < |run| && At(run[i], a).Idle? && At(run[i + 1], a) == Scan(0, 0, run[i].logged)
    && forall k :: i < k <= j ==> Scanning(At(run[k], a))
  }

  lemma {:induction false} ScanWatches(run: seq<State>, a: AgentId, i: nat, j: nat)
    requires Steady(run, a) && ScansFrom(run, a, i, j)
    ensures Scanning(At(run[j], a)) && At(run[j], a).watch == run[i].logged
    decreases j
  {
    assert Scanning(At(run[j], a));
    if i + 1 < j {
      ScanWatches(run, a, i, j - 1);
      assert KeepsWatch(run[j - 1], run[j - 1 + 1], a);
    }
  }

  /** A change that sits in no frame has been written or dropped. */
  lemma Unwritten(s: State, id: ChangeId) returns (f: FrameId)
    requires Changes(s) && id in s.logged && id !in s.written && id !in s.dropped
    ensures f < |s.frames| && id in s.frames[f].pending
  {
    f :| 0 <= f < |s.frames| && id in s.frames[f].pending;
  }

  /** When MinRecLsn ends, its result is not above the LSN of any change that was
      logged before it began and is still neither written nor dropped. */
  lemma MinRecLsnIsSafe(run: seq<State>, a: AgentId, i: nat, j: nat, id: ChangeId)
    requires IsRun(run) && ScansFrom(run, a, i, j)
    requires At(run[j], a).Scan? && At(run[j], a).index >= |run[j].frames|
    requires id in run[i].logged && id !in run[j].written && id !in run[j].dropped
    ensures At(run[j], a).oldest != 0 && At(run[j], a).oldest <= run[i].logged[id]
  {
    RunIsSteady(run, a);
    ScanWatches(run, a, i, j);
    RunInv(run, j);
    assert AgentOk(run[j], a);
    var f := Unwritten(run[j], id);
  }

  /** Agent `a` starts a checkpoint up to `lsn` at `i` and is still in it at `j`. */
  ghost predicate ChecksFrom(run: seq<State>, a: AgentId, lsn: Lsn, i: nat, j: nat) {
    && i < j < |run| && At(run[i], a).Idle? && At(run[i + 1], a) == Checkpoint(0, lsn, run[i].logged)
    && forall k :: i < k <= j ==> Checkpointing(At(run[k], a))
  }

  lemma {:induction false} CheckpointWatches(run: seq<State>, a: AgentId, lsn: Lsn, i: nat, j: nat)
    requires Steady(run, a) && ChecksFrom(run, a, lsn, i, j)
    ensures Checkpointing(At(run[j], a)) && At(run[j], a).watch == run[i].logged && At(run[j], a).lsn == lsn
    decreases j
  {
    assert Checkpointing(At(run[j], a));
    if i + 1 < j {
      CheckpointWatches(run, a, lsn, i, j - 1);
      assert KeepsWatch(run[j - 1], run[j - 1 + 1], a);
    }
  }

  /** When the loop of CheckpointBuffers(lsn) ends, every change logged below `lsn`
      before it began is in a completed write or was dropped. */
  lemma CheckpointIsComplete(run: seq<State>, a: AgentId, lsn: Lsn, i: nat, j: nat, id: ChangeId)
    requires IsRun(run) && ChecksFrom(run, a, lsn, i, j)
    requires At(run[j], a).Checkpoint? && At(run[j], a).index >= |run[j].frames|
    requires id in run[i].logged && run[i].logged[id] < lsn
    ensures id in run[j].written || id in run[j].dropped
  {
    RunIsSteady(run, a);
    CheckpointWatches(run, a, lsn, i, j);
    RunInv(run, j);
    assert AgentOk(run[j], a);
    if id !in run[j].written && id !in run[j].dropped {
      assert false;
    }
  }

  // Ownership

  /** Every frame is listed as free once, or free and in the hands of one agent, or
      loading with one loader, or resident with none of these. */
  lemma FrameOwnership(run: seq<State>, i: nat, f: FrameId)
    requires IsRun(run) && i < |run| && f < |run[i].frames|
    ensures var s, w := run[i], run[i].frames[f].word;
      var owners, loaders := |Holders(s.agents, FreeFrame, f)|, |Holders(s.agents, Claim.Load, f)|;
      && owners + Bit(f in s.free) == Bit(w.state.Free?) && loaders == Bit(w.state.Loading?)
    ensures forall p, q :: 0 <= p < |run[i].free| && 0 <= q < |run[i].free| && run[i].free[p] == run[i].free[q] == f ==>
      p == q
  {
    RunInv(run, i);
    assert Counts(run[i]);
    assert |Holders(run[i].agents, FreeFrame, f)| == Expected(run[i].frames[f].word, FreeFrame, f in run[i].free);
    assert |Holders(run[i].agents, Claim.Load, f)| == Expected(run[i].frames[f].word, Claim.Load, f in run[i].free);
  }

  /** Pin and shared counts are the numbers of holders and fit their fields; an
      exclusive holder is alone, and it excludes shared holders. */
  lemma HoldersAreCounted(run: seq<State>, i: nat, f: FrameId)
    requires IsRun(run) && i < |run| && f < |run[i].frames|
    ensures var s, w := run[i], run[i].frames[f].word;
      && |Holders(s.agents, Pin, f)| == w.pins <= MAX_PINS
      && |Holders(s.agents, Shared, f)| == w.shared <= MAX_SHARED
      && |Holders(s.agents, Exclusive, f)| == Bit(w.exclusive)
      && (Holders(s.agents, Exclusive, f) != {} ==> Holders(s.agents, Shared, f) == {})
      && |Holders(s.agents, WriteBack, f)| == Bit(w.HasWriteback())
  {
    RunInv(run, i);
    var s := run[i];
    assert FrameOk(s.frames[f]);
    assert forall c: Claim :: |Holders(s.agents, c, f)| == Expected(s.frames[f].word, c, f in s.free);
  }

  /** Whoever gives up a pin or a latch is counted, so the subtraction that the code
      makes without a check is always possible. */
  lemma ReleasesNeverBlock(run: seq<State>, i: nat, a: AgentId)
    requires IsRun(run) && i < |run| && At(run[i], a).On?
    ensures At(run[i], a).f < |run[i].frames| && CanRelease(At(run[i], a), run[i].frames[At(run[i], a).f])
  {
    RunInv(run, i);
    OnKnown(run[i], a);
    var ag := At(run[i], a);
    ClaimsRelease(ag, run[i].frames[ag.f]);
  }

  /** Whatever the agent holds, the step that gives it up is possible. */
  predicate CanRelease(ag: Agent, fr: Frame)
    requires ag.On?
  {
    && (Holds(ag, SharedHold) ==> HandleLocal(ag.f, fr, ag, ReleaseShared).Some?)
    && (Holds(ag, PinHold) || AtOp(ag, UnpinWrong) ==> HandleLocal(ag.f, fr, ag, Unpin).Some?)
    && (AtLoad(ag, Filled) ==> LoadLocal(ag.f, fr, ag, Publish(true)).Some?)
    && (ag.op.FlushStart? ==> FlushLocal(ag.f, fr, ag, FlushSkip).Some?)
    && (InFlush(ag) && ag.op.flush.Task? && ag.op.own ==> FlushLocal(ag.f, fr, ag, FlushUnlatch).Some?)
  }

  lemma ClaimsRelease(ag: Agent, fr: Frame)
    requires ag.On? && ClaimsOk(ag, fr.word)
    ensures CanRelease(ag, fr)
  {
  }

  // The dirty counter

  lemma {:induction false} DistinctFrames(agents: map<AgentId, Agent>, who: set<AgentId>)
    requires forall a :: a in who ==> a in agents && agents[a].On?
    requires forall a, b :: a in who && b in who && a != b ==> agents[a].f != agents[b].f
    ensures |set a | a in who :: agents[a].f| == |who|
  {
    var frames := set a | a in who :: agents[a].f;
    if who == {} {
      assert frames == {};
    } else {
      var a :| a in who;
      DistinctFrames(agents, who - {a});
      assert frames == (set b | b in who - {a} :: agents[b].f) + {agents[a].f};
    }
  }

  lemma RaisersHoldDirtyFrames(s: State, a: AgentId, b: AgentId)
    requires Inv(s) && CountsUpNext(At(s, a)) && CountsUpNext(At(s, b))
    ensures At(s, a).f in DirtyFrames(s) && (a != b ==> At(s, a).f != At(s, b).f)
  {
    OnKnown(s, a);
    OnKnown(s, b);
    if a != b && At(s, a).f == At(s, b).f {
      Exclusion(s, a, b, At(s, a).f);
    }
  }

  lemma RaisersAreFewer(s: State)
    requires Inv(s)
    ensures |UpAgents(s.agents)| <= |DirtyFrames(s)|
  {
    var up := UpAgents(s.agents);
    forall a, b | a in up && b in up ensures At(s, a).f in DirtyFrames(s) && (a != b ==> At(s, a).f != At(s, b).f) {
      RaisersHoldDirtyFrames(s, a, b);
    }
    SubsetIsSmaller(s.agents, up, DirtyFrames(s));
  }

  lemma SubsetIsSmaller(agents: map<AgentId, Agent>, who: set<AgentId>, frames: set<FrameId>)
    requires forall a :: a in who ==> a in agents && agents[a].On? && agents[a].f in frames
    requires forall a, b :: a in who && b in who && a != b ==> agents[a].f != agents[b].f
    ensures |who| <= |frames|
  {
    DistinctFrames(agents, who);
    var theirs := set a | a in who :: agents[a].f;
    assert theirs <= frames;
    assert |frames - theirs| == |frames| - |theirs|;
  }

  /** The dirty page counter plus the increments still owed, minus the decrements
      still owed, is the number of dirty frames; it never underflows, because it is
      at least the number of decrements owed. */
  lemma CounterIsConserved(run: seq<State>, i: nat)
    requires IsRun(run) && i < |run|
    ensures var s := run[i];
      && s.dirtyCount + |UpAgents(s.agents)| - |DownAgents(s.agents)| == |DirtyFrames(s)|
      && s.dirtyCount >= |DownAgents(s.agents)|
  {
    RunInv(run, i);
    RaisersAreFewer(run[i]);
  }
}
