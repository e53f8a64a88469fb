/** One step seen from one frame: what it guarantees to every other agent on the
    frame, and what it keeps of the frame and of the agent that takes it. */
module ProtocolLocal {
  import opened Arithmetic
  import opened ControlWord
  import opened Protocol
  import opened ProtocolInvariant
  import opened Types

  /** No other agent has a pin on the frame or owns its load, its writeback or it
      as a free frame. */
  predicate Alone(ag: Agent, f: FrameId, w: Word) {
    || HasLoad(ag, f) || HasFree(ag, f)
    || (w.state.Resident? && !w.HasWriteback() && (w.pins == 0 || (w.pins == 1 && HasPin(ag, f))))
  }

  ghost predicate StillCovers(rec: Lsn, rec': Lsn) {
    forall lsn: Lsn :: Covers(rec, lsn) ==> Covers(rec', lsn)
  }

  /** What a step that leaves residency alone may change, by the claims of the
      agent that takes it. */
  ghost predicate Careful(ag: Agent, f: FrameId, fr: Frame, fr': Frame) {
    var w, w' := fr.word, fr'.word;
    var exclusive, writeback := HasExclusive(ag, f), HasFlush(ag, f);
    var latched := exclusive || HasShared(ag, f);
    && w'.state == w.state && fr'.tag == fr.tag && fr'.key == fr.key
    && (fr'.bytes != fr.bytes ==> exclusive && w.state.Resident? && (w'.HasWriteback() ==> w'.redirtied))
    && (w'.dirty != w.dirty ==> exclusive || (writeback && !w.exclusive))
    && (w'.HasWriteback() && !w.HasWriteback() ==> latched)
    && (w.HasWriteback() && !w'.HasWriteback() ==> writeback)
    && (w.HasWriteback() && w'.HasWriteback() ==>
          (w.redirtied ==> w'.redirtied) && (writeback || (w'.queued == w.queued && w'.active == w.active)))
    && (fr'.pending.Keys <= fr.pending.Keys || (exclusive && (w'.HasWriteback() ==> w'.redirtied)))
    && (forall id :: id in fr'.pending && id !in fr.pending ==> Covers(fr'.rec, fr'.pending[id]) && id !in fr.covered)
    && (StillCovers(fr.rec, fr'.rec) || (writeback && latched))
    && ((fr'.wbRec == fr.wbRec && fr'.covered == fr.covered) || writeback)
  }

  ghost predicate Guarantee(ag: Agent, f: FrameId, fr: Frame, fr': Frame) {
    && (forall id :: id in fr.covered && id in fr'.pending ==> id in fr'.covered)
    && (forall id :: id in fr'.pending && id in fr.pending ==> fr'.pending[id] == fr.pending[id])
    && (Alone(ag, f, fr.word) || Careful(ag, f, fr, fr'))
  }

  /** The claims of two different agents on one frame exclude each other. */
  predicate Apart(ag: Agent, other: Agent, f: FrameId, w: Word) {
    && (HasExclusive(ag, f) ==> !HasExclusive(other, f) && !HasShared(other, f))
    && (HasShared(ag, f) ==> !HasExclusive(other, f))
    && (HasFlush(ag, f) ==> !HasFlush(other, f))
    && (Alone(ag, f, w) ==>
          !HasPin(other, f) && !HasLoad(other, f) && !HasFree(other, f) && !HasFlush(other, f))
  }

  /** A guaranteed step keeps the condition of every other agent on the frame. */
  lemma OthersKeep(ag: Agent, other: Agent, fr: Frame, fr': Frame, disk: Bytes, disk': Bytes)
    requires other.On? && OnOk(other, fr, disk) && ClaimsOk(other, fr.word)
    requires FrameOk(fr)
    requires Guarantee(ag, other.f, fr, fr') && Apart(ag, other, other.f, fr.word)
    requires Alone(ag, other.f, fr.word) || disk' == disk || (HasFlush(ag, other.f) && fr.word.HasWriteback())
    ensures OnOk(other, fr', disk')
  {
    if Alone(ag, other.f, fr.word) {
      assert other.op.FlushStart? || other.op.FlushCount?;
    } else if HasFlush(other, other.f) {
      OwnerKeeps(ag, other, fr, fr', disk);
    }
  }

  lemma OwnerKeeps(ag: Agent, other: Agent, fr: Frame, fr': Frame, disk: Bytes)
    requires other.On? && OnOk(other, fr, disk) && ClaimsOk(other, fr.word) && HasFlush(other, other.f)
    requires FrameOk(fr)
    requires Guarantee(ag, other.f, fr, fr') && Careful(ag, other.f, fr, fr') && Apart(ag, other, other.f, fr.word)
    ensures OnOk(other, fr', disk)
  {
    assert StillCovers(fr.rec, fr'.rec);
    if Early(other.op.flush) {
      assert fr'.pending.Keys <= fr.pending.Keys;
    }
  }

  // The agent that takes the step

  /** The step takes and gives up exactly the pins and latches that the word gains
      and loses. */
  predicate LatchesBalanced(ag: Agent, ag': Agent, f: FrameId, w: Word, w': Word) {
    && w'.pins - w.pins == Bit(HasPin(ag', f)) - Bit(HasPin(ag, f))
    && w'.shared - w.shared == Bit(HasShared(ag', f)) - Bit(HasShared(ag, f))
    && Bit(w'.exclusive) - Bit(w.exclusive) == Bit(HasExclusive(ag', f)) - Bit(HasExclusive(ag, f))
  }

  /** The same for ownership. */
  predicate OwnersBalanced(ag: Agent, ag': Agent, f: FrameId, w: Word, w': Word) {
    && Bit(w'.state.Loading?) - Bit(w.state.Loading?) == Bit(HasLoad(ag', f)) - Bit(HasLoad(ag, f))
    && Bit(w'.state.Free?) - Bit(w.state.Free?) == Bit(HasFree(ag', f)) - Bit(HasFree(ag, f))
    && Bit(w'.HasWriteback()) - Bit(w.HasWriteback()) == Bit(HasFlush(ag', f)) - Bit(HasFlush(ag, f))
  }

  /** The same for the dirty count that the agent still owes. */
  predicate CountBalanced(ag: Agent, ag': Agent, w: Word, w': Word) {
    Bit(w'.dirty) - Bit(w.dirty)
    == Bit(CountsUpNext(ag')) - Bit(CountsUpNext(ag)) - Bit(CountsDownNext(ag')) + Bit(CountsDownNext(ag))
  }

  predicate Balanced(ag: Agent, ag': Agent, f: FrameId, w: Word, w': Word) {
    LatchesBalanced(ag, ag', f, w, w') && OwnersBalanced(ag, ag', f, w, w') && CountBalanced(ag, ag', w, w')
  }

  /** What a balanced step needs to know of the agent and the word. */
  predicate WordBefore(ag: Agent, f: FrameId, w: Word) {
    && WordOk(w)
    && (ag.Idle? || (ag.On? && ag.f == f && HoldFits(ag.hold, ag.op) && ClaimsOk(ag, w)
                     && (!ag.hold.NoHold? ==> w.state.Resident?)
                     && (ag.op.Flushes? && ag.op.flush.Cancelling? ==> w.queued)))
  }

  ghost predicate BeforeOk(ag: Agent, f: FrameId, fr: Frame, disk: Bytes) {
    && FrameOk(fr)
    && (ag.Idle? || (ag.On? && ag.f == f && OnOk(ag, fr, disk) && ClaimsOk(ag, fr.word)))
  }

  ghost predicate FrameAfter(fr: Frame, fr': Frame) {
    FrameOk(fr') && (Placed(fr') ==> Placed(fr) && fr'.tag == fr.tag)
  }

  ghost predicate AgentAfter(ag': Agent, f: FrameId, fr': Frame, disk': Bytes) {
    ag'.Idle? || (ag'.On? && ag'.f == f && !Installs(ag') && OnOk(ag', fr', disk'))
  }

  ghost predicate AfterOk(ag: Agent, ag': Agent, f: FrameId, fr: Frame, fr': Frame, disk': Bytes) {
    && FrameAfter(fr, fr')
    && AgentAfter(ag', f, fr', disk')
    && Guarantee(ag, f, fr, fr')
    && Balanced(ag, ag', f, fr.word, fr'.word)
  }

  lemma LowerKeeps(rec: Lsn, lsn: Lsn)
    ensures StillCovers(rec, Lower(rec, lsn))
  {
  }

  predicate Reserves(st: LoadStep) {
    st.GiveBack? || st.ReservePopped? || st.ReserveVictim? || st.StoreTag? || st.ReadPartly? || st.ReadFail?
  }

  predicate Prepares(st: FlushStep) {
    st.FlushLatch? || st.FlushWithHandle? || st.FlushSkip? || st.Queue? || st.LoadRec? || st.StoreWriteback?
      || st.ResetRec? || st.CopyPage?
  }

  lemma WrittenKeeps(fr: Frame)
    requires FrameOk(fr) && fr.covered * fr.pending.Keys == {}
    ensures AllCovered(fr.pending, fr.rec)
    ensures fr.pending.Keys == {} ==> fr.pending == map[]
  {
    assert forall id :: id in fr.pending && id in fr.covered ==> id in fr.covered * fr.pending.Keys;
  }

  lemma HandleFrame(f: FrameId, fr: Frame, ag: Agent, st: HandleStep, fr': Frame, ag': Agent, disk: Bytes)
    requires BeforeOk(ag, f, fr, disk)
    requires HandleLocal(f, fr, ag, st) == Some((fr', ag'))
    ensures FrameAfter(fr, fr')
  {
  }

  lemma HandleAgent(f: FrameId, fr: Frame, ag: Agent, st: HandleStep, fr': Frame, ag': Agent, disk: Bytes, disk': Bytes)
    requires BeforeOk(ag, f, fr, disk) && (fr'.tag == fr.tag ==> disk' == disk)
    requires HandleLocal(f, fr, ag, st) == Some((fr', ag'))
    ensures AgentAfter(ag', f, fr', disk')
  {
  }

  lemma HandleGuarantee(f: FrameId, fr: Frame, ag: Agent, st: HandleStep, fr': Frame, ag': Agent, disk: Bytes,
    disk': Bytes)
    requires BeforeOk(ag, f, fr, disk) && (fr'.tag == fr.tag ==> disk' == disk)
    requires HandleLocal(f, fr, ag, st) == Some((fr', ag'))
    ensures Guarantee(ag, f, fr, fr')
  {
  }

  lemma HandleLatches(f: FrameId, fr: Frame, ag: Agent, st: HandleStep, fr': Frame, ag': Agent)
    requires WordBefore(ag, f, fr.word)
    requires HandleLocal(f, fr, ag, st) == Some((fr', ag'))
    ensures LatchesBalanced(ag, ag', f, fr.word, fr'.word)
  {
  }

  lemma HandleOwners(f: FrameId, fr: Frame, ag: Agent, st: HandleStep, fr': Frame, ag': Agent)
    requires WordBefore(ag, f, fr.word)
    requires HandleLocal(f, fr, ag, st) == Some((fr', ag'))
    ensures OwnersBalanced(ag, ag', f, fr.word, fr'.word)
  {
  }

  lemma HandleCount(f: FrameId, fr: Frame, ag: Agent, st: HandleStep, fr': Frame, ag': Agent)
    requires WordBefore(ag, f, fr.word)
    requires HandleLocal(f, fr, ag, st) == Some((fr', ag'))
    ensures CountBalanced(ag, ag', fr.word, fr'.word)
  {
  }

  lemma LoadFrame(f: FrameId, fr: Frame, ag: Agent, st: LoadStep, fr': Frame, ag': Agent, disk: Bytes)
    requires BeforeOk(ag, f, fr, disk)
    requires LoadLocal(f, fr, ag, st) == Some((fr', ag'))
    ensures FrameAfter(fr, fr')
  {
  }

  lemma LoadAgentFirst(f: FrameId, fr: Frame, ag: Agent, st: LoadStep, fr': Frame, ag': Agent, disk: Bytes,
    disk': Bytes)
    requires BeforeOk(ag, f, fr, disk) && (fr'.tag == fr.tag ==> disk' == disk)
    requires Reserves(st)
    requires LoadLocal(f, fr, ag, st) == Some((fr', ag'))
    ensures AgentAfter(ag', f, fr', disk')
  {
  }

  lemma LoadAgentLast(f: FrameId, fr: Frame, ag: Agent, st: LoadStep, fr': Frame, ag': Agent, disk: Bytes, disk': Bytes)
    requires BeforeOk(ag, f, fr, disk) && (fr'.tag == fr.tag ==> disk' == disk)
    requires !Reserves(st)
    requires LoadLocal(f, fr, ag, st) == Some((fr', ag'))
    ensures AgentAfter(ag', f, fr', disk')
  {
  }

  lemma LoadGuarantee(f: FrameId, fr: Frame, ag: Agent, st: LoadStep, fr': Frame, ag': Agent, disk: Bytes, disk': Bytes)
    requires BeforeOk(ag, f, fr, disk) && (fr'.tag == fr.tag ==> disk' == disk)
    requires LoadLocal(f, fr, ag, st) == Some((fr', ag'))
    ensures Guarantee(ag, f, fr, fr')
  {
  }

  lemma LoadLatches(f: FrameId, fr: Frame, ag: Agent, st: LoadStep, fr': Frame, ag': Agent)
    requires WordBefore(ag, f, fr.word)
    requires LoadLocal(f, fr, ag, st) == Some((fr', ag'))
    ensures LatchesBalanced(ag, ag', f, fr.word, fr'.word)
  {
  }

  lemma LoadOwners(f: FrameId, fr: Frame, ag: Agent, st: LoadStep, fr': Frame, ag': Agent)
    requires WordBefore(ag, f, fr.word)
    requires LoadLocal(f, fr, ag, st) == Some((fr', ag'))
    ensures OwnersBalanced(ag, ag', f, fr.word, fr'.word)
  {
  }

  lemma LoadCount(f: FrameId, fr: Frame, ag: Agent, st: LoadStep, fr': Frame, ag': Agent)
    requires WordBefore(ag, f, fr.word)
    requires LoadLocal(f, fr, ag, st) == Some((fr', ag'))
    ensures CountBalanced(ag, ag', fr.word, fr'.word)
  {
  }

  lemma FlushFrame(f: FrameId, fr: Frame, ag: Agent, st: FlushStep, fr': Frame, ag': Agent, disk: Bytes)
    requires BeforeOk(ag, f, fr, disk)
    requires FlushLocal(f, fr, ag, st) == Some((fr', ag'))
    ensures FrameAfter(fr, fr')
  {
    LowerKeeps(fr.rec, fr.wbRec);
  }

  lemma FlushAgentFirst(f: FrameId, fr: Frame, ag: Agent, st: FlushStep, fr': Frame, ag': Agent, disk: Bytes,
    disk': Bytes)
    requires BeforeOk(ag, f, fr, disk) && (fr'.tag == fr.tag ==> disk' == disk)
    requires Prepares(st)
    requires FlushLocal(f, fr, ag, st) == Some((fr', ag'))
    ensures AgentAfter(ag', f, fr', disk')
  {
  }

  lemma FlushAgentLast(f: FrameId, fr: Frame, ag: Agent, st: FlushStep, fr': Frame, ag': Agent, disk: Bytes,
    disk': Bytes)
    requires BeforeOk(ag, f, fr, disk) && (fr'.tag == fr.tag ==> disk' == disk)
    requires !Prepares(st)
    requires FlushLocal(f, fr, ag, st) == Some((fr', ag'))
    ensures AgentAfter(ag', f, fr', disk')
  {
    LowerKeeps(fr.rec, fr.wbRec);
    if st.FinishLsn? && ag.op.flush.ok {
      WrittenKeeps(fr);
    }
  }

  lemma FlushGuarantee(f: FrameId, fr: Frame, ag: Agent, st: FlushStep, fr': Frame, ag': Agent, disk: Bytes,
    disk': Bytes)
    requires BeforeOk(ag, f, fr, disk) && (fr'.tag == fr.tag ==> disk' == disk)
    requires FlushLocal(f, fr, ag, st) == Some((fr', ag'))
    ensures Guarantee(ag, f, fr, fr')
  {
    LowerKeeps(fr.rec, fr.wbRec);
  }

  lemma FlushLatchesFirst(f: FrameId, fr: Frame, ag: Agent, st: FlushStep, fr': Frame, ag': Agent)
    requires WordBefore(ag, f, fr.word)
    requires Prepares(st)
    requires FlushLocal(f, fr, ag, st) == Some((fr', ag'))
    ensures LatchesBalanced(ag, ag', f, fr.word, fr'.word)
  {
  }

  lemma FlushLatchesLast(f: FrameId, fr: Frame, ag: Agent, st: FlushStep, fr': Frame, ag': Agent)
    requires WordBefore(ag, f, fr.word)
    requires !Prepares(st)
    requires FlushLocal(f, fr, ag, st) == Some((fr', ag'))
    ensures LatchesBalanced(ag, ag', f, fr.word, fr'.word)
  {
  }

  lemma FlushOwners(f: FrameId, fr: Frame, ag: Agent, st: FlushStep, fr': Frame, ag': Agent)
    requires WordBefore(ag, f, fr.word)
    requires FlushLocal(f, fr, ag, st) == Some((fr', ag'))
    ensures OwnersBalanced(ag, ag', f, fr.word, fr'.word)
  {
  }

  lemma FlushCount(f: FrameId, fr: Frame, ag: Agent, st: FlushStep, fr': Frame, ag': Agent)
    requires WordBefore(ag, f, fr.word)
    requires FlushLocal(f, fr, ag, st) == Some((fr', ag'))
    ensures CountBalanced(ag, ag', fr.word, fr'.word)
  {
  }

  lemma WordBeforeOk(ag: Agent, f: FrameId, fr: Frame, disk: Bytes)
    requires BeforeOk(ag, f, fr, disk)
    ensures WordBefore(ag, f, fr.word)
  {
  }

  lemma LocalKeeps(f: FrameId, fr: Frame, ag: Agent, st: LocalStep, fr': Frame, ag': Agent, disk: Bytes, disk': Bytes)
    requires BeforeOk(ag, f, fr, disk) && (fr'.tag == fr.tag ==> disk' == disk)
    requires Local(f, fr, ag, st) == Some((fr', ag'))
    ensures AfterOk(ag, ag', f, fr, fr', disk')
  {
    WordBeforeOk(ag, f, fr, disk);
    match st {
      case ByHandle(st) =>
        HandleFrame(f, fr, ag, st, fr', ag', disk);
        HandleAgent(f, fr, ag, st, fr', ag', disk, disk');
        HandleGuarantee(f, fr, ag, st, fr', ag', disk, disk');
        HandleLatches(f, fr, ag, st, fr', ag');
        HandleOwners(f, fr, ag, st, fr', ag');
        HandleCount(f, fr, ag, st, fr', ag');
      case ByLoad(st) =>
        LoadFrame(f, fr, ag, st, fr', ag', disk);
        if Reserves(st) {
          LoadAgentFirst(f, fr, ag, st, fr', ag', disk, disk');
        } else {
          LoadAgentLast(f, fr, ag, st, fr', ag', disk, disk');
        }
        LoadGuarantee(f, fr, ag, st, fr', ag', disk, disk');
        LoadLatches(f, fr, ag, st, fr', ag');
        LoadOwners(f, fr, ag, st, fr', ag');
        LoadCount(f, fr, ag, st, fr', ag');
      case ByFlush(st) =>
        FlushFrame(f, fr, ag, st, fr', ag', disk);
        if Prepares(st) {
          FlushAgentFirst(f, fr, ag, st, fr', ag', disk, disk');
          FlushLatchesFirst(f, fr, ag, st, fr', ag');
        } else {
          FlushAgentLast(f, fr, ag, st, fr', ag', disk, disk');
          FlushLatchesLast(f, fr, ag, st, fr', ag');
        }
        FlushGuarantee(f, fr, ag, st, fr', ag', disk, disk');
        FlushOwners(f, fr, ag, st, fr', ag');
        FlushCount(f, fr, ag, st, fr', ag');
    }
  }

  /** No local step adds or removes a change, and only changes at hand become covered. */
  lemma LocalPending(f: FrameId, fr: Frame, ag: Agent, st: LocalStep, fr': Frame, ag': Agent)
    requires Local(f, fr, ag, st) == Some((fr', ag'))
    ensures fr'.pending == fr.pending
    ensures fr'.covered <= fr.covered + fr.pending.Keys
  {
  }
}
