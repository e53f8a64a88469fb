/** The frame protocol on packed words: along every run the 32-bit word of every
    frame moves exactly as the code computes it, with no carry or borrow between
    fields, because whoever subtracts from a count is one of those it counts. */
module PackedRuns {
  import opened ControlWord
  import opened PackedWord
  import P = Protocol
  import opened ProtocolInvariant
  import opened ProtocolLocal
  import opened ProtocolProof
  import opened ProtocolSteps
  import opened ProtocolStored
  import opened ProtocolTheorems
  import opened Types

  /** What the code computes for each step on a handle. */
  function HandleBits(w: nat, st: P.HandleStep): nat {
    match st
    case TryPin(_) => if TryPinResidentBits(w).Some? then TryPinResidentBits(w).value else w
    case CompareTag => w
    case Unpin => if TryUnpinBits(w).Some? then TryUnpinBits(w).value else w
    case AcquireShared => if TryAcquireSharedBits(w).Some? then TryAcquireSharedBits(w).value else w
    case ReleaseShared => ReleaseSharedBits(w)
    case AcquireExclusive => if TryAcquireExclusiveBits(w).Some? then TryAcquireExclusiveBits(w).value else w
    case ReleaseExclusive => ReleaseExclusiveBits(w)
    case MarkDirty(_) => if MarkDirtyBits(w).Some? then MarkDirtyBits(w).value else w
    case WriteBytes(_) => w
    case SetWaiters => SetWaitersBits(w)
  }

  function LoadBits(w: nat, st: P.LoadStep): nat {
    match st
    case ReservePopped(_) => if TryReserveBits(w, true).ReservedBits? then TryReserveBits(w, true).next else w
    case ReserveVictim(_) => if TryReserveBits(w, false).ReservedBits? then TryReserveBits(w, false).next else w
    case Publish(releasePin) => PublishResidentBits(w, releasePin)
    case ZeroLatch => if TryAcquireExclusiveBits(w).Some? then TryAcquireExclusiveBits(w).value else w
    case ZeroPublish => PublishResidentBits(w, false)
    case ReleaseToFree => ReleaseToFreeBits(w)
    case _ => w
  }

  /** `own`: the flush holds a shared latch of its own. */
  function FlushBits(w: nat, st: P.FlushStep, own: bool, ok: bool): nat {
    match st
    case FlushLatch => if TryAcquireSharedBits(w).Some? then TryAcquireSharedBits(w).value else w
    case FlushSkip => if own then ReleaseSharedBits(w) else w
    case Queue(skip) => if TryQueueWritebackBits(w, skip).QueuedBits? then TryQueueWritebackBits(w, skip).next else w
    case FlushUnlatch => ReleaseSharedBits(w)
    case Cancel => CancelQueuedWritebackBits(w)
    case Begin => BeginWritebackBits(w)
    case Complete => CompleteWritebackBits(w, ok)
    case _ => w
  }

  predicate OwnLatchOf(ag: P.Agent) { ag.On? && OwnLatch(ag.op) }

  predicate OutcomeOf(ag: P.Agent) { ag.On? && ag.op.Flushes? && ag.op.flush.Completing? && ag.op.flush.ok }

  function LocalBits(w: nat, st: P.LocalStep, ag: P.Agent): nat {
    match st
    case ByHandle(handle) => HandleBits(w, handle)
    case ByLoad(load) => LoadBits(w, load)
    case ByFlush(flush) => FlushBits(w, flush, OwnLatchOf(ag), OutcomeOf(ag))
  }

  lemma HandlePacks(f: FrameId, fr: P.Frame, ag: P.Agent, st: P.HandleStep, fr': P.Frame, ag': P.Agent)
    requires fr.word.InRange() && P.HandleLocal(f, fr, ag, st) == Some((fr', ag'))
    ensures Pack(fr'.word) == HandleBits(Pack(fr.word), st)
  {
    var r := fr.word;
    match st {
      case TryPin(_) => PinRefines(r);
      case CompareTag =>
      case Unpin => UnpinRefines(r);
      case AcquireShared => AcquireSharedRefines(r);
      case ReleaseShared => ReleaseSharedRefines(r);
      case AcquireExclusive => AcquireExclusiveRefines(r);
      case ReleaseExclusive => ReleaseExclusiveRefines(r);
      case MarkDirty(_) => MarkDirtyRefines(r);
      case WriteBytes(_) =>
      case SetWaiters => SetWaitersRefines(r);
    }
  }

  lemma LoadPacks(f: FrameId, fr: P.Frame, ag: P.Agent, st: P.LoadStep, fr': P.Frame, ag': P.Agent)
    requires fr.word.InRange() && P.LoadLocal(f, fr, ag, st) == Some((fr', ag'))
    ensures Pack(fr'.word) == LoadBits(Pack(fr.word), st)
  {
    var r := fr.word;
    match st {
      case ReservePopped(_) => ReserveRefines(r, true);
      case ReserveVictim(_) => ReserveRefines(r, false);
      case Publish(releasePin) => PublishRefines(r, releasePin);
      case ZeroLatch => AcquireExclusiveRefines(r);
      case ZeroPublish => PublishRefines(r, false);
      case ReleaseToFree => ReleaseToFreeRefines(r);
      case _ =>
    }
  }

  lemma FlushPacks(f: FrameId, fr: P.Frame, ag: P.Agent, st: P.FlushStep, fr': P.Frame, ag': P.Agent)
    requires fr.word.InRange() && P.FlushLocal(f, fr, ag, st) == Some((fr', ag'))
    ensures Pack(fr'.word) == FlushBits(Pack(fr.word), st, OwnLatchOf(ag), OutcomeOf(ag))
  {
    var r := fr.word;
    match st {
      case FlushLatch => AcquireSharedRefines(r);
      case FlushSkip => if ag.op.own { ReleaseSharedRefines(r); }
      case Queue(skip) => QueueRefines(r, skip);
      case FlushUnlatch => ReleaseSharedRefines(r);
      case Cancel => CancelRefines(r);
      case Begin => BeginRefines(r);
      case Complete => CompleteRefines(r, ag.op.flush.ok);
      case _ =>
    }
  }

  /** What the code computes for the word of frame `f` when the step is taken. */
  function StepBits(s: P.State, a: P.AgentId, st: P.Step, f: FrameId, w: nat): nat {
    if st.OnFrame? && st.f == f then LocalBits(w, st.local, P.At(s, a))
    else if st.Discard? && P.At(s, a).On? && P.At(s, a).f == f then TryDiscardPinnedBits(w).1
    else w
  }

  lemma LocalPacks(s: P.State, s': P.State, a: P.AgentId, f: FrameId, local: P.LocalStep)
    requires f < |s.frames| && s.frames[f].word.InRange() && P.ApplyLocal(s, a, P.At(s, a), f, local) == Some(s')
    ensures f < |s'.frames| && Pack(s'.frames[f].word) == LocalBits(Pack(s.frames[f].word), local, P.At(s, a))
  {
    match local {
      case ByHandle(handle) => HandlePacks(f, s.frames[f], P.At(s, a), handle, s'.frames[f], P.At(s', a));
      case ByLoad(load) => LoadPacks(f, s.frames[f], P.At(s, a), load, s'.frames[f], P.At(s', a));
      case ByFlush(flush) => FlushPacks(f, s.frames[f], P.At(s, a), flush, s'.frames[f], P.At(s', a));
    }
  }

  lemma PageWords(s: P.State, s': P.State, a: P.AgentId, st: P.Step, f: FrameId)
    requires P.Apply(s, a, st) == Some(s') && f < |s.frames|
    requires st.LogChange? || st.ReadOk? || st.TearWrite? || st.WriteOk?
    ensures f < |s'.frames| && s'.frames[f].word == s.frames[f].word
  {
  }

  lemma TableWords(s: P.State, s': P.State, a: P.AgentId, st: P.Step, f: FrameId)
    requires P.Apply(s, a, st) == Some(s') && f < |s.frames|
    requires st.CountUp? || st.CountDown? || st.Pop? || st.Push? || st.LockTags? || st.CheckLive? || st.Install?
      || st.Conflict? || st.Unmap?
    ensures f < |s'.frames| && s'.frames[f].word == s.frames[f].word
  {
  }

  lemma DiscardPacks(s: P.State, s': P.State, a: P.AgentId, f: FrameId)
    requires P.ApplyDiscard(s, a, P.At(s, a)) == Some(s') && f < |s.frames| && s.frames[f].word.InRange()
    ensures f < |s'.frames| && Pack(s'.frames[f].word) == StepBits(s, a, P.Discard, f, Pack(s.frames[f].word))
  {
    DiscardRefines(s.frames[f].word);
  }

  /** Along every run, every packed word is what the code computes from the one
      before, and reads back as the record. */
  lemma PackedRunRefines(run: seq<P.State>, events: seq<Event>, i: nat, f: FrameId)
    requires IsTrace(run, events) && i < |events| && f < |run[i].frames|
    ensures f < |run[i + 1].frames|
    ensures Pack(run[i + 1].frames[f].word) ==
      StepBits(run[i], events[i].agent, events[i].step, f, Pack(run[i].frames[f].word))
    ensures Pack(run[i].frames[f].word) < 0x1_0000_0000
    ensures Pins(Pack(run[i].frames[f].word)) == |Holders(run[i].agents, Pin, f)|
    ensures SharedHolders(Pack(run[i].frames[f].word)) == |Holders(run[i].agents, Shared, f)|
  {
    TraceInv(run, events, i);
    WordInRange(run[i], f);
    Reads(run[i].frames[f].word);
    StepPacks(run[i], run[i + 1], events[i].agent, events[i].step, f);
  }

  lemma WordInRange(s: P.State, f: FrameId)
    requires Inv(s) && f < |s.frames|
    ensures s.frames[f].word.InRange()
    ensures |Holders(s.agents, Pin, f)| == s.frames[f].word.pins
    ensures |Holders(s.agents, Shared, f)| == s.frames[f].word.shared
  {
    assert FrameOk(s.frames[f]);
    assert forall c: Claim :: |Holders(s.agents, c, f)| == Expected(s.frames[f].word, c, f in s.free);
  }

  lemma StepPacks(s: P.State, s': P.State, a: P.AgentId, st: P.Step, f: FrameId)
    requires P.Apply(s, a, st) == Some(s') && f < |s.frames| && s.frames[f].word.InRange()
    ensures f < |s'.frames| && Pack(s'.frames[f].word) == StepBits(s, a, st, f, Pack(s.frames[f].word))
  {
    if st.OnFrame? {
      if st.f == f {
        LocalPacks(s, s', a, f, st.local);
      }
    } else if st.Discard? {
      DiscardPacks(s, s', a, f);
    } else if st.ByScan? {
      ScanSame(s, s', a, st.scan);
    } else if st.ByCheckpoint? {
      CheckpointSame(s, s', a, st.check);
    } else if st.LogChange? || st.ReadOk? || st.TearWrite? || st.WriteOk? {
      PageWords(s, s', a, st, f);
    } else {
      TableWords(s, s', a, st, f);
    }
  }
}
