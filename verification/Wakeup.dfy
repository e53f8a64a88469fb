/** Sleeping and waking on a control word: the loops `WaitWhile` and
    `UpdateAndWake`, one atomic action a step, with any number of threads. */
module Wakeup {
  import opened ControlWord
  import opened Types

  type ThreadId = nat

  /** Why a thread waits. A load waiter does not decide by the word it loads first: it
      loads the word again, and the tag. `first` is the state of the first word. */
  datatype Reason = ForShared | ForExclusive | ForWriteback | ForLoad(first: FrameState)

  predicate BlocksShared(w: Word) { w.exclusive || w.shared >= MAX_SHARED }

  /** The word keeps the thread waiting. Of a load waiter that first saw a word that was
      not loading this claims nothing. */
  predicate Blocked(reason: Reason, w: Word) {
    match reason
    case ForShared => BlocksShared(w)
    case ForExclusive => w.Latched()
    case ForWriteback => w.HasWriteback()
    case ForLoad(first) => first.Loading? ==> w.state.Loading?
  }

  datatype Phase =
    | Running
    | MustCheck(seen: Word)
    | MustSetBit(reason: Reason, seen: Word)
    | MustSleep(reason: Reason, seen: Word)
    | Asleep(reason: Reason)
    | MustWake

  datatype State = State(word: Word, threads: map<ThreadId, Phase>)

  function At(s: State, t: ThreadId): Phase { if t in s.threads then s.threads[t] else Running }

  function Goes(s: State, t: ThreadId, phase: Phase): State { s.(threads := s.threads[t := phase]) }

  /** Every change of the word that some thread makes. */
  datatype Change =
    | Pin | Unpin | Reserve(popped: bool) | Publish(releasePin: bool) | Free | Discard | Dirty
    | TakeShared | LeaveShared | TakeExclusive | LeaveExclusive
    | Queue(skipIfPinned: bool) | Begin | Cancel | Complete(succeeded: bool)

  function Changed(w: Word, change: Change): Option<Word> {
    match change
    case Pin => TryPinResident(w)
    case Unpin => TryUnpin(w)
    case Reserve(popped) => if TryReserve(w, popped).Reserved? then Some(TryReserve(w, popped).next) else None
    case Publish(releasePin) => if releasePin && w.pins == 0 then None else Some(PublishResident(w, releasePin))
    case Free => Some(ReleaseToFree(w))
    case Discard => if TryDiscardPinned(w) == Discarded then Some(EMPTY_WORD) else None
    case Dirty => MarkDirty(w)
    case TakeShared => TryAcquireShared(w)
    case LeaveShared => if w.shared > 0 then Some(ReleaseShared(w)) else None
    case TakeExclusive => TryAcquireExclusive(w)
    case LeaveExclusive => Some(ReleaseExclusive(w))
    case Queue(skip) => if TryQueueWriteback(w, skip).Queued? then Some(TryQueueWriteback(w, skip).next) else None
    case Begin => Some(BeginWriteback(w))
    case Cancel => Some(CancelQueuedWriteback(w))
    case Complete(succeeded) => Some(CompleteWriteback(w, succeeded))
  }

  datatype Step =
    // WaitWhile: load the word, set the bit, sleep if the word is still the same
    | Look(reason: Reason) | LookForLoad | Check(sameTag: bool) | SetBit | Sleep | GiveUp
    // UpdateAndWake and the plain CAS loops
    | Apply(change: Change) | WakeAll

  /** The thread has to wait, by the word it has seen. */
  function Waits(reason: Reason, seen: Word): Phase {
    if seen.waiters then MustSleep(reason, seen) else MustSetBit(reason, seen)
  }

  function Next(s: State, t: ThreadId, st: Step): Option<State> {
    var phase := At(s, t);
    match st
    case Look(reason) =>
      if !phase.Running? || reason.ForLoad? then None
      else Some(if Blocked(reason, s.word) then Goes(s, t, Waits(reason, s.word)) else s)
    // WaitForLoad asks about the word and the tag of this moment.
    case LookForLoad => if phase.Running? then Some(Goes(s, t, MustCheck(s.word))) else None
    case Check(sameTag) =>
      if phase.MustCheck? then
        Some(Goes(s, t, if s.word.state.Loading? && sameTag then Waits(ForLoad(phase.seen.state), phase.seen)
                        else Running))
      else None
    case SetBit =>
      if phase.MustSetBit? && s.word == phase.seen then
        Some(Goes(s, t, MustSleep(phase.reason, SetWaiters(s.word))).(word := SetWaiters(s.word)))
      else None
    case Sleep =>
      if phase.MustSleep? && s.word == phase.seen then Some(Goes(s, t, Asleep(phase.reason))) else None
    case GiveUp =>
      // A failed exchange, a futex value that differs, or a spurious return.
      if phase.MustSetBit? || phase.MustSleep? || phase.Asleep? then Some(Goes(s, t, Running)) else None
    case Apply(change) =>
      if phase.Running? && Changed(s.word, change).Some? then
        var word := Changed(s.word, change).value;
        Some(Goes(s, t, if s.word.waiters && !word.waiters then MustWake else Running).(word := word))
      else None
    case WakeAll =>
      if phase.MustWake? then
        Some(s.(threads := map u | u in s.threads :: if u == t || s.threads[u].Asleep? then Running else s.threads[u]))
      else None
  }

  ghost predicate Waking(s: State) { exists t :: At(s, t).MustWake? }

  /** A sleeper can still be found and still has to wait, or is about to be woken. */
  ghost predicate SleeperOk(s: State, t: ThreadId) {
    At(s, t).Asleep? ==> Waking(s) || (s.word.waiters && Blocked(At(s, t).reason, s.word))
  }

  /** A thread goes to sleep only over a word that blocks it. */
  predicate PhaseOk(phase: Phase) {
    && (phase.MustSleep? ==> phase.seen.waiters && Blocked(phase.reason, phase.seen))
    && (phase.MustSetBit? ==> Blocked(phase.reason, phase.seen))
    && ((phase.MustSleep? || phase.MustSetBit?) && phase.reason.ForLoad? ==> phase.reason.first == phase.seen.state)
  }

  ghost predicate Inv(s: State) {
    forall t :: SleeperOk(s, t) && PhaseOk(At(s, t))
  }

  lemma LatchChange(w: Word, change: Change)
    requires Changed(w, change).Some? && w.waiters
    ensures var w' := Changed(w, change).value; w'.waiters ==>
      (BlocksShared(w) ==> BlocksShared(w')) && (w.Latched() ==> w'.Latched())
  {
  }

  lemma WritebackChange(w: Word, change: Change)
    requires Changed(w, change).Some? && w.waiters && w.HasWriteback()
    ensures var w' := Changed(w, change).value; w'.waiters ==> w'.HasWriteback()
  {
  }

  lemma LoadChange(w: Word, change: Change)
    requires Changed(w, change).Some? && w.waiters && w.state.Loading?
    ensures var w' := Changed(w, change).value; w'.waiters ==> w'.state.Loading?
  {
  }

  /** A change that frees somebody who waits takes the waiter bit with it. */
  lemma ChangeKeepsWaiters(w: Word, change: Change, reason: Reason)
    requires Changed(w, change).Some? && w.waiters && Blocked(reason, w)
    ensures var w' := Changed(w, change).value; w'.waiters ==> Blocked(reason, w')
  {
    match reason {
      case ForWriteback => WritebackChange(w, change);
      case ForLoad(first) => if first.Loading? { LoadChange(w, change); }
      case _ => LatchChange(w, change);
    }
  }

  lemma StepKeeps(s: State, t: ThreadId, st: Step, s': State)
    requires Inv(s) && Next(s, t, st) == Some(s')
    ensures Inv(s')
  {
    forall u ensures SleeperOk(s', u) && PhaseOk(At(s', u)) {
      assert SleeperOk(s, u) && PhaseOk(At(s, u));
      if At(s', u).Asleep? {
        if st.Apply? {
          ApplyKeeps(s, t, st.change, s', u);
        } else {
          assert !st.WakeAll?;
          assert forall x :: At(s, x).MustWake? ==> At(s', x).MustWake?;
        }
      }
    }
  }

  lemma ApplyKeeps(s: State, t: ThreadId, change: Change, s': State, u: ThreadId)
    requires SleeperOk(s, u) && Next(s, t, Apply(change)) == Some(s') && At(s', u).Asleep?
    ensures SleeperOk(s', u)
  {
    if x :| At(s, x).MustWake? {
      assert At(s', x).MustWake?;
    } else {
      ChangeKeepsWaiters(s.word, change, At(s, u).reason);
      assert s.word.waiters && !s'.word.waiters ==> At(s', t).MustWake?;
    }
  }

  datatype Event = Event(thread: ThreadId, step: Step)

  /** A run starts with no thread waiting and takes one step at a time. */
  ghost predicate IsRun(run: seq<State>, events: seq<Event>) {
    && |run| == |events| + 1 && run[0].threads == map[]
    && forall i :: 0 <= i < |events| ==> Next(run[i], events[i].thread, events[i].step) == Some(run[i + 1])
  }

  lemma {:induction false} RunInv(run: seq<State>, events: seq<Event>, i: nat)
    requires IsRun(run, events) && i < |run|
    ensures Inv(run[i])
  {
    if i > 0 {
      RunInv(run, events, i - 1);
      StepKeeps(run[i - 1], events[i - 1].thread, events[i - 1].step, run[i - 1 + 1]);
    }
  }

  /** In every state of every run a sleeping thread has the waiter bit set or a wake
      on its way, and when what it waits for is already gone the wake is on its way: a
      latch, a writeback, or a load that the waiter saw in its first word. */
  lemma NoLostWakeup(run: seq<State>, events: seq<Event>, i: nat, t: ThreadId)
    requires IsRun(run, events) && i < |run| && At(run[i], t).Asleep?
    ensures run[i].word.waiters || Waking(run[i])
    ensures !Blocked(At(run[i], t).reason, run[i].word) ==> Waking(run[i])
  {
    RunInv(run, events, i);
    assert SleeperOk(run[i], t);
  }

  /** A load waiter goes to sleep over the word it loaded first: over a loading word
      exactly when that one was loading. */
  lemma SleepsOverFirstWord(run: seq<State>, events: seq<Event>, i: nat)
    requires IsRun(run, events) && i < |events| && events[i].step.Sleep? && At(run[i + 1], events[i].thread).Asleep?
    requires At(run[i + 1], events[i].thread).reason.ForLoad?
    ensures At(run[i + 1], events[i].thread).reason.first == run[i + 1].word.state
  {
    RunInv(run, events, i);
    assert PhaseOk(At(run[i], events[i].thread));
  }

  function Two(word: Word, first: Phase, second: Phase): State { State(word, map[0 := first, 1 := second]) }

  lemma TwoGoes(word: Word, first: Phase, second: Phase, next: Phase)
    ensures Goes(Two(word, first, second), 0, next) == Two(word, next, second)
    ensures Goes(Two(word, first, second), 1, next) == Two(word, first, next)
    ensures Goes(State(word, map[0 := first]), 1, next) == Two(word, first, next)
  {
    assert map[0 := first, 1 := second][0 := next] == map[0 := next, 1 := second];
    assert map[0 := first, 1 := second][1 := next] == map[0 := first, 1 := next];
    assert map[0 := first][1 := next] == map[0 := first, 1 := next];
  }

  const RESIDENT := EMPTY_WORD.(state := Resident)
  const LOADING := EMPTY_WORD.(state := Loading, pins := 1)
  const MARKED := RESIDENT.(waiters := true)
  const FIRST_RESIDENT := ForLoad(Resident)

  lemma MissBegins()
    ensures Next(State(RESIDENT, map[]), 0, LookForLoad) == Some(State(RESIDENT, map[0 := MustCheck(RESIDENT)]))
    ensures Next(State(RESIDENT, map[0 := MustCheck(RESIDENT)]), 1, Apply(Reserve(false))) ==
      Some(Two(LOADING, MustCheck(RESIDENT), Running))
    ensures Next(Two(LOADING, MustCheck(RESIDENT), Running), 0, Check(true)) ==
      Some(Two(LOADING, MustSetBit(FIRST_RESIDENT, RESIDENT), Running))
  {
    TwoGoes(RESIDENT, MustCheck(RESIDENT), Running, Running);
    TwoGoes(LOADING, MustCheck(RESIDENT), Running, MustSetBit(FIRST_RESIDENT, RESIDENT));
  }

  lemma MissEnds()
    ensures Next(Two(LOADING, MustSetBit(FIRST_RESIDENT, RESIDENT), Running), 1, Apply(Publish(true)))
            == Some(Two(RESIDENT, MustSetBit(FIRST_RESIDENT, RESIDENT), Running))
    ensures Next(Two(RESIDENT, MustSetBit(FIRST_RESIDENT, RESIDENT), Running), 0, SetBit) ==
      Some(Two(MARKED, MustSleep(FIRST_RESIDENT, MARKED), Running))
    ensures Next(Two(MARKED, MustSleep(FIRST_RESIDENT, MARKED), Running), 0, Sleep) ==
      Some(Two(MARKED, Asleep(FIRST_RESIDENT), Running))
  {
    TwoGoes(LOADING, MustSetBit(FIRST_RESIDENT, RESIDENT), Running, Running);
    TwoGoes(RESIDENT, MustSetBit(FIRST_RESIDENT, RESIDENT), Running, MustSleep(FIRST_RESIDENT, MARKED));
    TwoGoes(MARKED, MustSleep(FIRST_RESIDENT, MARKED), Running, Asleep(FIRST_RESIDENT));
  }

  lemma RunGoesOn(run: seq<State>, events: seq<Event>, t: ThreadId, st: Step, s': State)
    requires IsRun(run, events) && Next(run[|run| - 1], t, st) == Some(s')
    ensures IsRun(run + [s'], events + [Event(t, st)])
  {
  }

  /** A load waiter can sleep over a resident word with no wake on its way: it loads a
      resident word first, asks while the frame is loading, and the frame is back at the
      first word when it sets its bit. */
  lemma LoadWaiterCanMiss() returns (run: seq<State>, events: seq<Event>)
    ensures IsRun(run, events)
    ensures var s := run[|run| - 1];
      At(s, 0).Asleep? && At(s, 0).reason.ForLoad? && s.word.state.Resident? && !Waking(s)
  {
    MissBegins();
    MissEnds();
    run, events := [State(RESIDENT, map[])], [];
    run, events := Extended(run, events, 0, LookForLoad);
    run, events := Extended(run, events, 1, Apply(Reserve(false)));
    run, events := Extended(run, events, 0, Check(true));
    run, events := Extended(run, events, 1, Apply(Publish(true)));
    run, events := Extended(run, events, 0, SetBit);
    run, events := Extended(run, events, 0, Sleep);
  }

  lemma Extended(run: seq<State>, events: seq<Event>, t: ThreadId, st: Step)
    returns (run': seq<State>, events': seq<Event>)
    requires IsRun(run, events) && Next(run[|run| - 1], t, st).Some?
    ensures IsRun(run', events') && run'[|run'| - 1] == Next(run[|run| - 1], t, st).value
  {
    RunGoesOn(run, events, t, st, Next(run[|run| - 1], t, st).value);
    run', events' := run + [Next(run[|run| - 1], t, st).value], events + [Event(t, st)];
  }

  /** Only the thread that owes a wake moves itself on. */
  lemma {:induction false} OwesUntilThen(run: seq<State>, events: seq<Event>, i: nat, j: nat, t: ThreadId)
    requires IsRun(run, events) && i <= j < |run| && At(run[i], t).MustWake?
    requires forall k :: i <= k < j ==> events[k].thread != t
    ensures At(run[j], t).MustWake?
    decreases j
  {
    if i < j {
      OwesUntilThen(run, events, i, j - 1, t);
      assert Next(run[j - 1], events[j - 1].thread, events[j - 1].step) == Some(run[j - 1 + 1]);
    }
  }

  /** A wake on its way arrives: whatever the others do, the next step of the thread
      that owes it leaves nobody asleep. */
  lemma WakeArrives(run: seq<State>, events: seq<Event>, i: nat, j: nat, t: ThreadId, u: ThreadId)
    requires IsRun(run, events) && i <= j < |events| && At(run[i], t).MustWake?
    requires events[j].thread == t && forall k :: i <= k < j ==> events[k].thread != t
    ensures !At(run[j + 1], u).Asleep?
  {
    OwesUntilThen(run, events, i, j, t);
  }
}
