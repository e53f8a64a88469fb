/** The frame protocol of the buffer manager as a step relation.

    Agents are the activities of threads: one handle, one load, one flush, one
    drop, one scan each. Every load, store or compare-and-swap that another
    thread can interfere with is one step; steps of different agents interleave
    freely and all steps are sequentially consistent. The replacer and page table
    lookups only suggest frames, so an agent may try any frame at any time. */
module Protocol {
  import opened ControlWord
  import opened Types

  type AgentId = nat
  type ChangeId = nat
  /** Zero is `kInvalidLsn`. */
  type Lsn = nat
  type Bytes = seq<Byte>
  const NO_TAG := Tag(0, 0)

  // Log sequence numbers

  function Lower(rec: Lsn, lsn: Lsn): Lsn {
    if lsn != 0 && (rec == 0 || lsn < rec) then lsn else rec
  }

  predicate Covers(rec: Lsn, lsn: Lsn) { rec != 0 && rec <= lsn }

  function FrameRecLsn(pending: Lsn, writing: Lsn): Lsn {
    if pending == 0 then writing
    else if writing == 0 then pending
    else if pending < writing then pending else writing
  }

  // Frames

  /** A descriptor, its page and its page table entry. `pending` holds the logged
      changes of the page that no completed write contains, `covered` those that
      `wbRec` accounts for; both only record history. */
  datatype Frame = Frame(
    word: Word,
    tag: Tag,
    rec: Lsn,
    wbRec: Lsn,
    bytes: Bytes,
    key: Option<Tag>,
    pending: map<ChangeId, Lsn>,
    covered: set<ChangeId>)

  /** The frame is mapped under the tag it carries and is not free. */
  predicate Placed(fr: Frame) {
    !fr.word.state.Free? && fr.key == Some(fr.tag)
  }

  // Agents

  datatype Hold =
    | NoHold
    | PinHold
    | SharedHold
    /** `marked`: `MarkDirty` was called; `zeroed`: the size that this agent filled with
        zeros. */
    | ExclusiveHold(marked: bool, zeroed: Option<nat>)

  /** TryReserveFrameForTag, CompleteReservation and their failure paths. */
  datatype LoadPhase =
    | Claimed | Tagged | Installing(checked: set<FrameId>) | Installed | Filled | Zeroed(size: nat)
    | ZeroLatched(size: nat)
    | AbortUnlink | LostUntag | LostRelease

  /** A frame popped from the free list or on its way back, and DropFileBuffers
      after the discard. */
  datatype FreePhase =
    | Popped | Owned | DropCount(wasDirty: bool) | DropRec | DropWriteback | DropUnlink | DropUntag

  /** PrepareFlushTask once queued, its snapshot, its rollback, its write and
      FinalizeFlushTask. */
  datatype FlushPhase =
    | LoadLsn | StoreLsn(rec: Lsn) | ResetLsn | TakeCopy
    | Task(bytes: Bytes, ids: set<ChangeId>) | Cancelling
    | WriteOut(bytes: Bytes, ids: set<ChangeId>) | Finishing(bytes: Bytes, ok: bool)
    | Completing(bytes: Bytes, ok: bool)

  /** What the agent does next with its frame. `own`: a flush holds a shared latch
      of its own. */
  datatype Op =
    | Ready
    | CheckTag | UnpinWrong
    | MarkLower(lsn: Lsn, became: bool) | MarkCount(became: bool)
    | Loads(load: LoadPhase)
    | Frees(free: FreePhase)
    | FlushStart(own: bool) | Flushes(own: bool, flush: FlushPhase) | FlushCount

  datatype Agent =
    | Idle
    | On(f: FrameId, tag: Tag, hold: Hold, op: Op)
    // MinRecLsn, between the two loads of a frame and around them
    | Scan(index: nat, oldest: Lsn, watch: map<ChangeId, Lsn>)
    | ScanHalf(index: nat, oldest: Lsn, watch: map<ChangeId, Lsn>, pending: Lsn)
    // CheckpointBuffers, its last loop
    | Checkpoint(index: nat, lsn: Lsn, watch: map<ChangeId, Lsn>)
    | CheckpointHalf(index: nat, lsn: Lsn, watch: map<ChangeId, Lsn>, pending: Lsn)
    | CheckpointRound(index: nat, lsn: Lsn, watch: map<ChangeId, Lsn>)

  datatype State = State(
    frames: seq<Frame>,
    agents: map<AgentId, Agent>,
    /** The abstract LIFO that `FreeList` implements. */
    free: seq<FrameId>,
    /** Who holds the page table lock that guards a tag. */
    locks: map<Tag, AgentId>,
    disk: map<Tag, Bytes>,
    pageSize: nat,
    dirtyCount: int,
    logged: map<ChangeId, Lsn>,
    written: set<ChangeId>,
    dropped: set<ChangeId>)

  function At(s: State, a: AgentId): Agent {
    if a in s.agents then s.agents[a] else Idle
  }

  function Zeros(n: nat): Bytes { seq(n, _ => 0) }

  /** A read past the end of the backing file is zero-filled. */
  function Disk(s: State, tag: Tag): Bytes {
    if tag in s.disk then s.disk[tag] else Zeros(s.pageSize)
  }

  function Default(): Frame {
    Frame(EMPTY_WORD, NO_TAG, 0, 0, [], None, map[], {})
  }

  ghost predicate Init(s: State) {
    && (forall f :: 0 <= f < |s.frames| ==> s.frames[f] == Default().(bytes := s.frames[f].bytes))
    && |s.free| == |s.frames|
    && (forall i :: 0 <= i < |s.free| ==> s.free[i] == |s.frames| - 1 - i)
    && s.agents == map[] && s.locks == map[]
    && s.dirtyCount == 0 && s.logged == map[] && s.written == {} && s.dropped == {}
  }

  // Steps that touch one frame and one agent

  /** Pins, handles and what their holders do. */
  datatype HandleStep =
    | TryPin(tag: Tag) | CompareTag | Unpin
    | AcquireShared | ReleaseShared | AcquireExclusive | ReleaseExclusive
    | MarkDirty(lsn: Lsn) | WriteBytes(bytes: Bytes)
    | SetWaiters

  /** Reserving, filling, publishing and freeing a frame. */
  datatype LoadStep =
    | GiveBack | ReservePopped(tag: Tag) | ReserveVictim(tag: Tag)
    | StoreTag | ReadPartly(bytes: Bytes) | ReadFail
    | Publish(releasePin: bool) | ZeroFill(zeros: nat) | ZeroLatch | ZeroPublish
    | ClearTag | ReleaseToFree | DropRecLsn | DropWritebackLsn

  /** Writing a page back. */
  datatype FlushStep =
    | FlushLatch | FlushWithHandle | FlushSkip
    | Queue(skipIfPinned: bool) | LoadRec | StoreWriteback | ResetRec | CopyPage | FlushUnlatch
    | RollBack | Cancel | Begin | WriteFail | FinishLsn | Complete

  datatype LocalStep = ByHandle(handle: HandleStep) | ByLoad(load: LoadStep) | ByFlush(flush: FlushStep)

  /** The agent after a flush it ran, with or without a handle. */
  function AfterFlush(ag: Agent): Agent
    requires ag.On?
  {
    if ag.hold.NoHold? then Idle else ag.(op := Ready)
  }

  predicate AtOp(ag: Agent, op: Op) { ag.On? && ag.op == op }

  predicate AtLoad(ag: Agent, load: LoadPhase) { ag.On? && ag.op == Loads(load) }

  predicate AtFree(ag: Agent, free: FreePhase) { ag.On? && ag.op == Frees(free) }

  predicate InFlush(ag: Agent) { ag.On? && ag.op.Flushes? }

  function Flushing(ag: Agent, flush: FlushPhase): Agent
    requires InFlush(ag)
  {
    ag.(op := Flushes(ag.op.own, flush))
  }

  predicate Holds(ag: Agent, hold: Hold) { ag.On? && ag.op.Ready? && ag.hold == hold }

  predicate HoldsExclusive(ag: Agent) { ag.On? && ag.op.Ready? && ag.hold.ExclusiveHold? }

  /** The new frame and agent, or `None` when the step is not possible. An idle
      agent enters frame `f`. */
  function HandleLocal(f: FrameId, fr: Frame, ag: Agent, st: HandleStep): Option<(Frame, Agent)> {
    var w := fr.word;
    match st
    // TryPinResidentFrame and ReleaseFrame
    case TryPin(tag) =>
      if ag.Idle? && TryPinResident(w).Some? then
        Some((fr.(word := TryPinResident(w).value), On(f, tag, NoHold, CheckTag)))
      else None
    case CompareTag =>
      if AtOp(ag, CheckTag) then
        Some((fr, if fr.tag == ag.tag then ag.(hold := PinHold, op := Ready) else ag.(op := UnpinWrong)))
      else None
    case Unpin =>
      if (AtOp(ag, UnpinWrong) || Holds(ag, PinHold)) && TryUnpin(w).Some? then
        Some((fr.(word := TryUnpin(w).value), Idle))
      else None
    // MakeSharedHandle, MakeExclusiveHandle and their release
    case AcquireShared =>
      if Holds(ag, PinHold) && TryAcquireShared(w).Some? then
        Some((fr.(word := TryAcquireShared(w).value), ag.(hold := SharedHold)))
      else None
    case ReleaseShared =>
      if Holds(ag, SharedHold) && w.shared > 0 then
        Some((fr.(word := ControlWord.ReleaseShared(w)), ag.(hold := PinHold)))
      else None
    case AcquireExclusive =>
      if Holds(ag, PinHold) && TryAcquireExclusive(w).Some? then
        Some((fr.(word := TryAcquireExclusive(w).value), ag.(hold := ExclusiveHold(false, None))))
      else None
    case ReleaseExclusive =>
      if HoldsExclusive(ag) then
        Some((fr.(word := ControlWord.ReleaseExclusive(w)), ag.(hold := PinHold)))
      else None
    // MarkHandleDirty and writes through mutable_data()
    case MarkDirty(lsn) =>
      if HoldsExclusive(ag) && ControlWord.MarkDirty(w).Some? then
        Some((fr.(word := ControlWord.MarkDirty(w).value),
              ag.(hold := ExclusiveHold(true, ag.hold.zeroed), op := MarkLower(lsn, !w.dirty))))
      else None
    case WriteBytes(bytes) =>
      if HoldsExclusive(ag) && ag.hold.marked then Some((fr.(bytes := bytes), ag)) else None
    // WaitWhile
    case SetWaiters => if ag.Idle? then Some((fr.(word := ControlWord.SetWaiters(w)), Idle)) else None
  }

  /** Steps on a frame that is reserved, being loaded or free. */
  function LoadLocal(f: FrameId, fr: Frame, ag: Agent, st: LoadStep): Option<(Frame, Agent)> {
    var w := fr.word;
    match st
    // TryReserveFrameForTag
    case GiveBack => if AtFree(ag, Popped) then Some((fr, ag.(op := Frees(Owned)))) else None
    case ReservePopped(tag) =>
      if AtFree(ag, Popped) && TryReserve(w, true).Reserved? then
        Some((fr.(word := TryReserve(w, true).next), ag.(tag := tag, op := Loads(Claimed))))
      else None
    case ReserveVictim(tag) =>
      if ag.Idle? && TryReserve(w, false).Reserved? then
        Some((fr.(word := TryReserve(w, false).next), On(f, tag, NoHold, Loads(Claimed))))
      else None
    case StoreTag => if AtLoad(ag, Claimed) then Some((fr.(tag := ag.tag), ag.(op := Loads(Tagged)))) else None
    // CompleteReservation
    case ReadPartly(bytes) => if AtLoad(ag, Installed) then Some((fr.(bytes := bytes), ag)) else None
    case ReadFail => if AtLoad(ag, Installed) then Some((fr, ag.(op := Loads(AbortUnlink)))) else None
    case Publish(releasePin) =>
      if AtLoad(ag, Filled) && w.pins > 0 then
        Some((fr.(word := PublishResident(w, releasePin)),
              if releasePin then Idle else ag.(hold := PinHold, op := Ready)))
      else None
    case ZeroFill(zeros) =>
      if AtLoad(ag, Installed) then Some((fr.(bytes := Zeros(zeros)), ag.(op := Loads(Zeroed(zeros))))) else None
    case ZeroLatch =>
      if ag.On? && ag.op.Loads? && ag.op.load.Zeroed? && TryAcquireExclusive(w).Some? then
        Some((fr.(word := TryAcquireExclusive(w).value), ag.(op := Loads(ZeroLatched(ag.op.load.size)))))
      else None
    case ZeroPublish =>
      if ag.On? && ag.op.Loads? && ag.op.load.ZeroLatched? then
        Some((fr.(word := PublishResident(w, false)),
          ag.(hold := ExclusiveHold(false, Some(ag.op.load.size)), op := Ready)))
      else None
    // AbortLoadReservation and the end of a drop
    case ClearTag =>
      if AtLoad(ag, LostUntag) then Some((fr.(tag := NO_TAG), ag.(op := Loads(LostRelease))))
      else if AtFree(ag, DropUntag) then Some((fr.(tag := NO_TAG), ag.(op := Frees(Owned))))
      else None
    case ReleaseToFree =>
      if AtLoad(ag, LostRelease) then Some((fr.(word := ControlWord.ReleaseToFree(w)), ag.(op := Frees(Owned))))
      else None
    case DropRecLsn => if AtFree(ag, DropRec) then Some((fr.(rec := 0), ag.(op := Frees(DropWriteback)))) else None
    case DropWritebackLsn =>
      if AtFree(ag, DropWriteback) then Some((fr.(wbRec := 0), ag.(op := Frees(DropUnlink)))) else None
  }

  /** Steps of a flush, except those that reach the disk or the counter. */
  function FlushLocal(f: FrameId, fr: Frame, ag: Agent, st: FlushStep): Option<(Frame, Agent)> {
    var w := fr.word;
    match st
    // PrepareFlushTask
    case FlushLatch =>
      if (ag.Idle? || Holds(ag, PinHold)) && TryAcquireShared(w).Some? then
        Some((fr.(word := TryAcquireShared(w).value),
              if ag.Idle? then On(f, NO_TAG, NoHold, FlushStart(true)) else ag.(op := FlushStart(true))))
      else None
    case FlushWithHandle =>
      if Holds(ag, SharedHold) || HoldsExclusive(ag) then Some((fr, ag.(op := FlushStart(false)))) else None
    case FlushSkip =>
      if ag.On? && ag.op.FlushStart? && (ag.op.own ==> w.shared > 0) then
        Some((if ag.op.own then fr.(word := ControlWord.ReleaseShared(w)) else fr, AfterFlush(ag)))
      else None
    case Queue(skipIfPinned) =>
      if ag.On? && ag.op.FlushStart? && TryQueueWriteback(w, skipIfPinned).Queued? then
        Some((fr.(word := TryQueueWriteback(w, skipIfPinned).next), ag.(op := Flushes(ag.op.own, LoadLsn))))
      else None
    case LoadRec =>
      if InFlush(ag) && ag.op.flush.LoadLsn? then Some((fr, Flushing(ag, StoreLsn(fr.rec)))) else None
    case StoreWriteback =>
      if InFlush(ag) && ag.op.flush.StoreLsn? then
        Some((fr.(wbRec := ag.op.flush.rec, covered := fr.pending.Keys), Flushing(ag, ResetLsn)))
      else None
    case ResetRec =>
      if InFlush(ag) && ag.op.flush.ResetLsn? then Some((fr.(rec := 0), Flushing(ag, TakeCopy))) else None
    case CopyPage =>
      if InFlush(ag) && ag.op.flush.TakeCopy? then
        Some((fr, Flushing(ag, Task(fr.bytes, fr.pending.Keys)).(tag := fr.tag)))
      else None
    case FlushUnlatch =>
      if InFlush(ag) && ag.op.flush.Task? && ag.op.own && w.shared > 0 then
        Some((fr.(word := ControlWord.ReleaseShared(w)), ag.(op := Flushes(false, ag.op.flush))))
      else None
    // RollBackFlushTask
    case RollBack =>
      if InFlush(ag) && ag.op.flush.Task? && !ag.op.own then
        Some((fr.(rec := Lower(fr.rec, fr.wbRec)), Flushing(ag, Cancelling)))
      else None
    case Cancel =>
      if InFlush(ag) && ag.op.flush.Cancelling? then Some((fr.(word := CancelQueuedWriteback(w)), AfterFlush(ag)))
      else None
    // BeginFlushTask and FinalizeFlushTask
    case Begin =>
      if InFlush(ag) && ag.op.flush.Task? && !ag.op.own then
        Some((fr.(word := BeginWriteback(w)), Flushing(ag, WriteOut(ag.op.flush.bytes, ag.op.flush.ids))))
      else None
    case WriteFail =>
      if InFlush(ag) && ag.op.flush.WriteOut? then Some((fr, Flushing(ag, Finishing(ag.op.flush.bytes, false))))
      else None
    case FinishLsn =>
      if InFlush(ag) && ag.op.flush.Finishing? then
        Some((if ag.op.flush.ok then fr.(wbRec := 0, covered := {}) else fr.(rec := Lower(fr.rec, fr.wbRec)),
              Flushing(ag, Completing(ag.op.flush.bytes, ag.op.flush.ok))))
      else None
    case Complete =>
      if InFlush(ag) && ag.op.flush.Completing? then
        Some((fr.(word := CompleteWriteback(w, ag.op.flush.ok)),
              if ClearsDirty(w, ag.op.flush.ok) then ag.(op := FlushCount) else AfterFlush(ag)))
      else None
  }

  function Local(f: FrameId, fr: Frame, ag: Agent, st: LocalStep): Option<(Frame, Agent)> {
    match st
    case ByHandle(handle) => HandleLocal(f, fr, ag, handle)
    case ByLoad(load) => LoadLocal(f, fr, ag, load)
    case ByFlush(flush) => FlushLocal(f, fr, ag, flush)
  }

  // All steps

  datatype ScanStep = ScanStart | ScanPending | ScanWriting | ScanEnd

  datatype CheckpointStep =
    | CheckpointStart(lsn: Lsn) | CheckpointPending | CheckpointWriting | CheckpointAgain | CheckpointClean
    | CheckpointEnd

  datatype Step =
    | OnFrame(f: FrameId, local: LocalStep)
    // MarkHandleDirty after the dirty bit: LowerRecLsn logs the change
    | LogChange(id: ChangeId)
    | CountUp | CountDown
    | Pop | Push
    // ReplaceUnlessLive under the page table locks
    | LockTags | CheckLive(other: FrameId) | Install | Conflict
    | Unmap
    | ReadOk | TearWrite(torn: Bytes) | WriteOk
    | Discard
    | ByScan(scan: ScanStep) | ByCheckpoint(check: CheckpointStep)

  function Put(s: State, a: AgentId, ag: Agent): State {
    s.(agents := s.agents[a := ag])
  }

  function PutFrame(s: State, a: AgentId, ag: Agent, f: FrameId, fr: Frame): State
    requires f < |s.frames|
  {
    s.(agents := s.agents[a := ag], frames := s.frames[f := fr])
  }

  /** The tags whose locks an install needs: the new one and the one the frame is
      mapped under. */
  function LockSet(fr: Frame, tag: Tag): set<Tag> {
    if fr.key.Some? then {tag, fr.key.value} else {tag}
  }

  function Locked(locks: map<Tag, AgentId>, tags: set<Tag>, a: AgentId): map<Tag, AgentId> {
    locks + map t | t in tags :: a
  }

  /** The agent works on a frame of the pool. */
  predicate OnPool(s: State, ag: Agent) { ag.On? && ag.f < |s.frames| }

  predicate Installs(ag: Agent) { ag.On? && ag.op.Loads? && ag.op.load.Installing? }

  predicate Writes(ag: Agent) { InFlush(ag) && ag.op.flush.WriteOut? }

  function ApplyLocal(s: State, a: AgentId, ag: Agent, f: FrameId, local: LocalStep): Option<State> {
    if f < |s.frames| && (ag.Idle? || (ag.On? && ag.f == f)) then
      var next := Local(f, s.frames[f], ag, local);
      if next.None? || (local.ByLoad? && local.load.ZeroFill? && local.load.zeros != s.pageSize) then None
      else Some(PutFrame(s, a, next.value.1, f, next.value.0))
    else None
  }

  /** `LowerRecLsn`; from this step on the change counts as logged. */
  function ApplyLogChange(s: State, a: AgentId, ag: Agent, id: ChangeId): Option<State> {
    if !OnPool(s, ag) || !ag.op.MarkLower? then None
    else if ag.op.lsn == 0 then Some(Put(s, a, ag.(op := MarkCount(ag.op.became))))
    else if id in s.logged then None
    else
      var fr, lsn := s.frames[ag.f], ag.op.lsn;
      Some(PutFrame(s, a, ag.(op := MarkCount(ag.op.became)), ag.f,
                    fr.(rec := Lower(fr.rec, lsn), pending := fr.pending[id := lsn])).(logged := s.logged[id := lsn]))
  }

  function Mapped(s: State, a: AgentId, ag: Agent, key: Option<Tag>): State
    requires OnPool(s, ag)
  {
    PutFrame(s, a, ag, ag.f, s.frames[ag.f].(key := key))
  }

  predicate IsBefore(pending: Lsn, writing: Lsn, lsn: Lsn) {
    FrameRecLsn(pending, writing) != 0 && FrameRecLsn(pending, writing) < lsn
  }

  // MarkHandleDirty and FinalizeFlushTask

  function ApplyCountUp(s: State, a: AgentId, ag: Agent): Option<State> {
    if ag.On? && ag.op.MarkCount? then
      Some(Put(s, a, ag.(op := Ready)).(dirtyCount := s.dirtyCount + if ag.op.became then 1 else 0))
    else None
  }

  function ApplyCountDown(s: State, a: AgentId, ag: Agent): Option<State> {
    if AtOp(ag, FlushCount) then Some(Put(s, a, AfterFlush(ag)).(dirtyCount := s.dirtyCount - 1))
    else if ag.On? && ag.op.Frees? && ag.op.free.DropCount? then
      Some(Put(s, a, ag.(op := Frees(DropRec))).(dirtyCount := s.dirtyCount - if ag.op.free.wasDirty then 1 else 0))
    else None
  }

  // The free list

  function ApplyPop(s: State, a: AgentId, ag: Agent): Option<State> {
    if ag.Idle? && s.free != [] then
      Some(Put(s, a, On(s.free[0], NO_TAG, NoHold, Frees(Popped))).(free := s.free[1..]))
    else None
  }

  function ApplyPush(s: State, a: AgentId, ag: Agent): Option<State> {
    if AtFree(ag, Owned) then Some(Put(s, a, Idle).(free := [ag.f] + s.free)) else None
  }

  // The page table: ReplaceUnlessLive under its locks, and Remove

  function ApplyLockTags(s: State, a: AgentId, ag: Agent): Option<State> {
    if AtLoad(ag, Tagged) && OnPool(s, ag) && LockSet(s.frames[ag.f], ag.tag) !! s.locks.Keys then
      Some(Put(s, a, ag.(op := Loads(Installing({})))).(locks := Locked(s.locks, LockSet(s.frames[ag.f], ag.tag), a)))
    else None
  }

  /** IsLiveFor answered no: the state was Free or the tag differed at that moment. */
  function ApplyCheckLive(s: State, a: AgentId, ag: Agent, g: FrameId): Option<State> {
    if OnPool(s, ag) && Installs(ag) && g < |s.frames| && g != ag.f
       && (s.frames[g].word.state.Free? || s.frames[g].tag != ag.tag) then
      Some(Put(s, a, ag.(op := Loads(Installing(ag.op.load.checked + {g})))))
    else None
  }

  function ApplyInstall(s: State, a: AgentId, ag: Agent): Option<State> {
    if OnPool(s, ag) && Installs(ag)
       && (forall g :: 0 <= g < |s.frames| && g != ag.f && s.frames[g].key == Some(ag.tag) ==>
         g in ag.op.load.checked) then
      Some(Mapped(s, a, ag.(op := Loads(Installed)), Some(ag.tag)).(locks := s.locks - LockSet(s.frames[ag.f], ag.tag)))
    else None
  }

  /** IsLiveFor may answer yes spuriously when it reads a tag being replaced. */
  function ApplyConflict(s: State, a: AgentId, ag: Agent): Option<State> {
    if OnPool(s, ag) && Installs(ag) then
      Some(Mapped(s, a, ag.(op := Loads(LostUntag)), None).(locks := s.locks - LockSet(s.frames[ag.f], ag.tag)))
    else None
  }

  function ApplyUnmap(s: State, a: AgentId, ag: Agent): Option<State> {
    if OnPool(s, ag) && (AtLoad(ag, AbortUnlink) || AtFree(ag, DropUnlink)) && ag.tag !in s.locks then
      Some(Mapped(s, a, ag.(op := if ag.op.Loads? then Loads(LostUntag) else Frees(DropUntag)),
                  if s.frames[ag.f].key == Some(ag.tag) then None else s.frames[ag.f].key))
    else None
  }

  // The disk

  function ApplyReadOk(s: State, a: AgentId, ag: Agent): Option<State> {
    if OnPool(s, ag) && AtLoad(ag, Installed) then
      Some(PutFrame(s, a, ag.(op := Loads(Filled)), ag.f, s.frames[ag.f].(bytes := Disk(s, ag.tag))))
    else None
  }

  /** A write in flight may leave anything on the disk until it succeeds. */
  function ApplyTearWrite(s: State, ag: Agent, torn: Bytes): Option<State> {
    if OnPool(s, ag) && Writes(ag) then Some(s.(disk := s.disk[ag.tag := torn])) else None
  }

  /** The disk has the copied page: the changes it contains are written. */
  function ApplyWriteOk(s: State, a: AgentId, ag: Agent): Option<State> {
    if OnPool(s, ag) && Writes(ag) then
      var fr, copy := s.frames[ag.f], ag.op.flush;
      Some(PutFrame(s, a, Flushing(ag, Finishing(copy.bytes, true)), ag.f, fr.(pending := fr.pending - copy.ids))
           .(disk := s.disk[ag.tag := copy.bytes], written := s.written + copy.ids))
    else None
  }

  /** TryDiscardPinned */
  function ApplyDiscard(s: State, a: AgentId, ag: Agent): Option<State> {
    if OnPool(s, ag) && Holds(ag, PinHold) && TryDiscardPinned(s.frames[ag.f].word) == Discarded then
      var fr := s.frames[ag.f];
      Some(PutFrame(s, a, ag.(hold := NoHold, op := Frees(DropCount(fr.word.dirty))), ag.f,
                    fr.(word := EMPTY_WORD, pending := map[]))
           .(dropped := s.dropped + fr.pending.Keys))
    else None
  }

  /** MinRecLsn loads each frame's `rec_lsn` before its `writeback_rec_lsn`. */
  function ApplyScan(s: State, a: AgentId, ag: Agent, scan: ScanStep): Option<State> {
    match scan
    case ScanStart => if ag.Idle? then Some(Put(s, a, Scan(0, 0, s.logged))) else None
    case ScanPending =>
      if ag.Scan? && ag.index < |s.frames| then
        Some(Put(s, a, ScanHalf(ag.index, ag.oldest, ag.watch, s.frames[ag.index].rec)))
      else None
    case ScanWriting =>
      if ag.ScanHalf? && ag.index < |s.frames| then
        Some(Put(s, a,
          Scan(ag.index + 1, Lower(ag.oldest, FrameRecLsn(ag.pending, s.frames[ag.index].wbRec)), ag.watch)))
      else None
    case ScanEnd => if ag.Scan? && ag.index >= |s.frames| then Some(Put(s, a, Idle)) else None
  }

  /** The last loop of CheckpointBuffers. The writebacks it starts are flush
      agents; the loop leaves a frame when its recLSN is not below `lsn` or when
      a flush round finds it not dirty. */
  function ApplyCheckpoint(s: State, a: AgentId, ag: Agent, check: CheckpointStep): Option<State> {
    match check
    case CheckpointStart(lsn) => if ag.Idle? then Some(Put(s, a, Checkpoint(0, lsn, s.logged))) else None
    case CheckpointPending =>
      if ag.Checkpoint? && ag.index < |s.frames| then
        Some(Put(s, a, CheckpointHalf(ag.index, ag.lsn, ag.watch, s.frames[ag.index].rec)))
      else None
    case CheckpointWriting =>
      if ag.CheckpointHalf? && ag.index < |s.frames| then
        Some(Put(s, a,
          if IsBefore(ag.pending, s.frames[ag.index].wbRec, ag.lsn) then CheckpointRound(ag.index, ag.lsn, ag.watch)
                       else Checkpoint(ag.index + 1, ag.lsn, ag.watch)))
      else None
    case CheckpointAgain =>
      if ag.CheckpointRound? then Some(Put(s, a, Checkpoint(ag.index, ag.lsn, ag.watch))) else None
    case CheckpointClean =>
      if ag.CheckpointRound? && ag.index < |s.frames|
         && TryQueueWriteback(s.frames[ag.index].word, false) == NotDirty then
        Some(Put(s, a, Checkpoint(ag.index + 1, ag.lsn, ag.watch)))
      else None
    case CheckpointEnd => if ag.Checkpoint? && ag.index >= |s.frames| then Some(Put(s, a, Idle)) else None
  }

  function Apply(s: State, a: AgentId, st: Step): Option<State> {
    var ag := At(s, a);
    match st
    case OnFrame(f, local) => ApplyLocal(s, a, ag, f, local)
    case LogChange(id) => ApplyLogChange(s, a, ag, id)
    case CountUp => ApplyCountUp(s, a, ag)
    case CountDown => ApplyCountDown(s, a, ag)
    case Pop => ApplyPop(s, a, ag)
    case Push => ApplyPush(s, a, ag)
    case LockTags => ApplyLockTags(s, a, ag)
    case CheckLive(other) => ApplyCheckLive(s, a, ag, other)
    case Install => ApplyInstall(s, a, ag)
    case Conflict => ApplyConflict(s, a, ag)
    case Unmap => ApplyUnmap(s, a, ag)
    case ReadOk => ApplyReadOk(s, a, ag)
    case TearWrite(torn) => ApplyTearWrite(s, ag, torn)
    case WriteOk => ApplyWriteOk(s, a, ag)
    case Discard => ApplyDiscard(s, a, ag)
    case ByScan(scan) => ApplyScan(s, a, ag, scan)
    case ByCheckpoint(check) => ApplyCheckpoint(s, a, ag, check)
  }

  /** The holder of a zero-filled page that it has not marked. */
  predicate HoldsUnmarked(ag: Agent) { HoldsExclusive(ag) && ag.hold.zeroed.Some? && !ag.hold.marked }

  predicate IsRelease(st: Step) { st.OnFrame? && st.local == ByHandle(ReleaseExclusive) }

  /** What the pool asks of its clients: a page that was filled with zeros instead of
      being read is marked before it is released, unless the block is zero anyway. */
  predicate Heeds(s: State, a: AgentId, st: Step) {
    IsRelease(st) && HoldsUnmarked(At(s, a)) ==> Disk(s, At(s, a).tag) == Zeros(s.pageSize)
  }

  ghost predicate Next(s: State, s': State) {
    exists a: AgentId, st: Step :: Apply(s, a, st) == Some(s')
  }

  /** A run: a sequence of states from an initial one, each reached from the one
      before by one step. */
  ghost predicate IsRun(run: seq<State>) {
    && run != [] && Init(run[0])
    && forall i :: 0 <= i < |run| - 1 ==> Next(run[i], run[i + 1])
  }
}
