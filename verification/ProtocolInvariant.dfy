/** The inductive invariant of the frame protocol.

    Claims on a frame (pins, latches, ownership of a load, of a free frame, of a
    writeback) are counted against the control word. Everything else is local: a
    condition on one frame, or on one agent and its frame. */
module ProtocolInvariant {
  import opened Arithmetic
  import opened ControlWord
  import opened Protocol
  import opened Types

  // Claims

  datatype Claim = Pin | Shared | Exclusive | Load | FreeFrame | WriteBack

  /** A flush that has not yet copied the page. */
  predicate Early(flush: FlushPhase) { flush.LoadLsn? || flush.StoreLsn? || flush.ResetLsn? || flush.TakeCopy? }

  predicate OwnLatch(op: Op) { (op.FlushStart? || op.Flushes?) && op.own }

  predicate HasPin(ag: Agent, f: FrameId) {
    ag.On? && ag.f == f && (!ag.hold.NoHold? || ag.op.CheckTag? || ag.op.UnpinWrong? || ag.op.Loads?)
  }

  predicate HasShared(ag: Agent, f: FrameId) { ag.On? && ag.f == f && (ag.hold.SharedHold? || OwnLatch(ag.op)) }

  predicate HasExclusive(ag: Agent, f: FrameId) {
    ag.On? && ag.f == f && (ag.hold.ExclusiveHold? || (ag.op.Loads? && ag.op.load.ZeroLatched?))
  }

  predicate HasLoad(ag: Agent, f: FrameId) { ag.On? && ag.f == f && ag.op.Loads? }

  predicate HasFree(ag: Agent, f: FrameId) { ag.On? && ag.f == f && ag.op.Frees? }

  predicate HasFlush(ag: Agent, f: FrameId) { ag.On? && ag.f == f && ag.op.Flushes? }

  predicate Has(c: Claim, ag: Agent, f: FrameId) {
    match c
    case Pin => HasPin(ag, f)
    case Shared => HasShared(ag, f)
    case Exclusive => HasExclusive(ag, f)
    case Load => HasLoad(ag, f)
    case FreeFrame => HasFree(ag, f)
    case WriteBack => HasFlush(ag, f)
  }

  ghost function Holders(agents: map<AgentId, Agent>, c: Claim, f: FrameId): set<AgentId> {
    set a | a in agents && Has(c, agents[a], f)
  }

  /** What the control word and the free list say about a frame's claims. */
  function Expected(w: Word, c: Claim, listed: bool): int {
    match c
    case Pin => w.pins
    case Shared => w.shared
    case Exclusive => Bit(w.exclusive)
    case Load => Bit(w.state.Loading?)
    case FreeFrame => Bit(w.state.Free?) - Bit(listed)
    case WriteBack => Bit(w.HasWriteback())
  }

  ghost predicate Counts(s: State) {
    forall c: Claim, f: FrameId :: f < |s.frames| ==>
      |Holders(s.agents, c, f)| == Expected(s.frames[f].word, c, f in s.free)
  }

  // Frames

  ghost predicate AllCovered(pending: map<ChangeId, Lsn>, rec: Lsn) {
    forall id :: id in pending ==> Covers(rec, pending[id])
  }

  predicate WordOk(w: Word) {
    && w.InRange()
    && !(w.queued && w.active)
    && (w.HasWriteback() ==> w.dirty)
    && (w.redirtied ==> w.HasWriteback())
    && (w.dirty ==> w.state.Resident?)
    && (w.exclusive ==> w.shared == 0)
    && (w.state.Free? ==> w.pins == 0)
    && (w.state.Loading? ==> w.pins == 1)
  }

  ghost predicate FrameOk(fr: Frame) {
    var w := fr.word;
    && WordOk(w)
    && (w.state.Resident? ==> fr.key == Some(fr.tag))
    && (!w.dirty ==> fr.pending == map[])
    && (forall id :: id in fr.pending ==> Covers(fr.rec, fr.pending[id]) || id in fr.covered)
    && (forall id :: id in fr.pending && id in fr.covered ==> Covers(fr.wbRec, fr.pending[id]))
    && (!w.HasWriteback() ==> AllCovered(fr.pending, fr.rec))
  }

  // Agents

  predicate HoldFits(hold: Hold, op: Op) {
    if op.Ready? then !hold.NoHold?
    else if op.MarkLower? || op.MarkCount? then hold.ExclusiveHold? && hold.marked
    else if op.FlushStart? || op.Flushes? then
      if op.own then (hold.NoHold? || hold.PinHold?) && (op.Flushes? ==> Early(op.flush) || op.flush.Task?)
      else (op.Flushes? && !Early(op.flush)) || hold.SharedHold? || hold.ExclusiveHold?
    else if op.FlushCount? then true
    else hold.NoHold?
  }

  /** What a held pin or latch guarantees. */
  ghost predicate HoldOk(ag: Agent, fr: Frame)
    requires ag.On?
  {
    var w := fr.word;
    && (!ag.hold.NoHold? ==> w.state.Resident? && fr.tag == ag.tag)
    && (ag.hold.ExclusiveHold? ==>
          && (ag.hold.marked ==> w.dirty)
          && (!ag.hold.marked && ag.hold.zeroed.Some? ==> !w.dirty && fr.bytes == Zeros(ag.hold.zeroed.value))
          && (ag.hold.marked && !ag.op.Flushes? && w.HasWriteback() ==> w.redirtied))
  }

  /** The copy taken by a flush is current unless the page was touched since. */
  ghost predicate CopyOk(ag: Agent, fr: Frame, bytes: Bytes, ids: set<ChangeId>)
    requires ag.On?
  {
    && ag.tag == fr.tag
    && (!fr.word.redirtied ==> fr.bytes == bytes && fr.pending.Keys <= ids)
    && fr.covered * fr.pending.Keys <= ids
  }

  ghost predicate LoadOk(load: LoadPhase, tag: Tag, fr: Frame, disk: Bytes) {
    match load
    case Claimed => fr.key == None || fr.key == Some(fr.tag)
    case Tagged => fr.tag == tag
    case Installing(_) => fr.tag == tag
    case Installed => fr.tag == tag && fr.key == Some(tag)
    case Filled => fr.tag == tag && fr.key == Some(tag) && fr.bytes == disk
    case Zeroed(size) => fr.tag == tag && fr.key == Some(tag) && fr.bytes == Zeros(size)
    case ZeroLatched(size) => fr.tag == tag && fr.key == Some(tag) && fr.bytes == Zeros(size)
    case AbortUnlink => fr.tag == tag && fr.key == Some(tag)
    case LostUntag => fr.key == None
    case LostRelease => fr.key == None
  }

  predicate FreeOk(free: FreePhase, tag: Tag, fr: Frame) {
    if free.Popped? || free.Owned? || free.DropUntag? then fr.key == None
    else fr.tag == tag && fr.key == Some(tag)
  }

  ghost predicate FlushOk(ag: Agent, flush: FlushPhase, fr: Frame, disk: Bytes)
    requires ag.On?
  {
    && (if flush.WriteOut? || flush.Finishing? || flush.Completing? then fr.word.active else fr.word.queued)
    && match flush
       case LoadLsn => AllCovered(fr.pending, fr.rec)
       case StoreLsn(rec) => AllCovered(fr.pending, rec) && AllCovered(fr.pending, fr.rec)
       case ResetLsn => fr.pending.Keys <= fr.covered
       case TakeCopy => fr.pending.Keys <= fr.covered
       case Task(bytes, ids) => CopyOk(ag, fr, bytes, ids)
       case WriteOut(bytes, ids) => CopyOk(ag, fr, bytes, ids)
       case Cancelling => AllCovered(fr.pending, fr.rec)
       case Finishing(bytes, ok) => ag.tag == fr.tag && (ok ==> disk == bytes && CopyOk(ag, fr, bytes, {}))
       case Completing(bytes, ok) =>
         && ag.tag == fr.tag && AllCovered(fr.pending, fr.rec)
         && (ok ==> disk == bytes && (!fr.word.redirtied ==> fr.bytes == bytes && fr.pending == map[]))
  }

  /** `disk` is what the disk holds for the frame's tag. */
  ghost predicate OpOk(ag: Agent, fr: Frame, disk: Bytes)
    requires ag.On?
  {
    && (ag.op.CheckTag? || ag.op.UnpinWrong? ==> fr.word.state.Resident?)
    && (ag.op.Loads? ==> LoadOk(ag.op.load, ag.tag, fr, disk))
    && (ag.op.Frees? ==> FreeOk(ag.op.free, ag.tag, fr))
    && (ag.op.Flushes? ==> FlushOk(ag, ag.op.flush, fr, disk))
  }

  /** The claims of an agent, as its frame's control word shows them. */
  predicate ClaimsOk(ag: Agent, w: Word)
    requires ag.On?
  {
    && (HasPin(ag, ag.f) ==> w.pins > 0)
    && (HasShared(ag, ag.f) ==> w.shared > 0)
    && (HasExclusive(ag, ag.f) ==> w.exclusive)
    && (HasLoad(ag, ag.f) ==> w.state.Loading?)
    && (HasFree(ag, ag.f) ==> w.state.Free?)
    && (HasFlush(ag, ag.f) ==> w.HasWriteback())
  }

  ghost predicate OnOk(ag: Agent, fr: Frame, disk: Bytes)
    requires ag.On?
  {
    HoldFits(ag.hold, ag.op) && HoldOk(ag, fr) && OpOk(ag, fr, disk)
  }

  /** An install in progress: its locks, and the frames it found not live. */
  ghost predicate InstallOk(s: State, a: AgentId, ag: Agent)
    requires ag.On? && ag.f < |s.frames|
  {
    Installs(ag) ==>
      && (forall t :: t in LockSet(s.frames[ag.f], ag.tag) ==> t in s.locks && s.locks[t] == a)
      && (forall g :: g in ag.op.load.checked && g < |s.frames| && s.frames[g].key == Some(ag.tag) ==>
        !Placed(s.frames[g]))
  }

  /** A zeroed page has the size of a page. */
  predicate SizeOk(s: State, ag: Agent) {
    && (ag.On? && ag.op.Loads? && (ag.op.load.Zeroed? || ag.op.load.ZeroLatched?) ==> ag.op.load.size == s.pageSize)
    && (ag.On? && ag.hold.ExclusiveHold? && ag.hold.zeroed.Some? ==> ag.hold.zeroed.value == s.pageSize)
  }

  /** A change the scan watches is behind it only if the result covers it. */
  ghost predicate Behind(s: State, index: nat, watch: map<ChangeId, Lsn>, bound: Lsn) {
    forall f, id :: 0 <= f < index && f < |s.frames| && id in watch && id in s.frames[f].pending ==>
      Covers(bound, watch[id])
  }

  ghost predicate Halfway(s: State, index: nat, watch: map<ChangeId, Lsn>, pending: Lsn) {
    index < |s.frames| ==>
      forall id :: id in watch && id in s.frames[index].pending ==>
        Covers(pending, watch[id]) || id in s.frames[index].covered
  }

  /** No watched change below `lsn` is left in the frames already passed. */
  ghost predicate Passed(s: State, index: nat, watch: map<ChangeId, Lsn>, lsn: Lsn) {
    forall f, id :: 0 <= f < index && f < |s.frames| && id in watch && id in s.frames[f].pending ==> lsn <= watch[id]
  }

  ghost predicate Watches(s: State, watch: map<ChangeId, Lsn>) {
    forall id :: id in watch ==> id in s.logged && s.logged[id] == watch[id]
  }

  ghost predicate AgentOk(s: State, a: AgentId) {
    match At(s, a)
    case Idle => true
    case On(f, _, _, _) =>
      f < |s.frames| && OnOk(At(s, a), s.frames[f], Disk(s, s.frames[f].tag)) && InstallOk(s, a, At(s, a))
        && SizeOk(s, At(s, a))
    case Scan(i, oldest, watch) => Watches(s, watch) && Behind(s, i, watch, oldest)
    case ScanHalf(i, oldest, watch, pending) =>
      Watches(s, watch) && Behind(s, i, watch, oldest) && Halfway(s, i, watch, pending)
    case Checkpoint(i, lsn, watch) => Watches(s, watch) && Passed(s, i, watch, lsn)
    case CheckpointHalf(i, lsn, watch, pending) =>
      Watches(s, watch) && Passed(s, i, watch, lsn) && Halfway(s, i, watch, pending)
    case CheckpointRound(i, lsn, watch) => Watches(s, watch) && Passed(s, i, watch, lsn)
  }

  // The whole state

  ghost predicate Frames(s: State) {
    forall f :: 0 <= f < |s.frames| ==> FrameOk(s.frames[f])
  }

  ghost predicate Agents(s: State) {
    forall a: AgentId :: AgentOk(s, a)
  }

  ghost predicate Placement(s: State) {
    forall f, g | 0 <= f < |s.frames| && 0 <= g < |s.frames| && f != g ::
      Placed(s.frames[f]) && Placed(s.frames[g]) ==> s.frames[f].tag != s.frames[g].tag
  }

  ghost predicate FreeListOk(s: State) {
    && (forall i, j :: 0 <= i < j < |s.free| ==> s.free[i] != s.free[j])
    && (forall f :: f in s.free ==> f < |s.frames| && s.frames[f].key == None)
  }

  /** Every logged change is in a frame, in a completed write, or dropped. */
  ghost predicate Changes(s: State) {
    && (forall f, id :: 0 <= f < |s.frames| && id in s.frames[f].pending ==>
          id in s.logged && s.logged[id] == s.frames[f].pending[id])
    && (forall f, id :: 0 <= f < |s.frames| && id in s.frames[f].covered ==> id in s.logged)
    && (forall id :: id in s.logged ==>
          id in s.written || id in s.dropped || exists f :: 0 <= f < |s.frames| && id in s.frames[f].pending)
  }

  ghost function DirtyFrames(s: State): set<FrameId> {
    set f | 0 <= f < |s.frames| && s.frames[f].word.dirty
  }

  /** The dirty bit is set but the counter not yet raised, and the reverse. */
  predicate CountsUpNext(ag: Agent) {
    ag.On? && ((ag.op.MarkLower? && ag.op.became) || (ag.op.MarkCount? && ag.op.became))
  }

  predicate CountsDownNext(ag: Agent) {
    ag.On? && (ag.op.FlushCount? || (ag.op.Frees? && ag.op.free.DropCount? && ag.op.free.wasDirty))
  }

  ghost function UpAgents(agents: map<AgentId, Agent>): set<AgentId> {
    set a | a in agents && CountsUpNext(agents[a])
  }

  ghost function DownAgents(agents: map<AgentId, Agent>): set<AgentId> {
    set a | a in agents && CountsDownNext(agents[a])
  }

  ghost predicate Counter(s: State) {
    s.dirtyCount + |UpAgents(s.agents)| - |DownAgents(s.agents)| == |DirtyFrames(s)|
  }

  ghost predicate Inv(s: State) {
    Counts(s) && Frames(s) && Agents(s) && Placement(s) && FreeListOk(s) && Changes(s) && Counter(s)
  }
}
