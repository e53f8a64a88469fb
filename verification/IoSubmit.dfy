/** A call of the submitter among all threads: whatever interleaves with it, it deals with
    its list as the loop of `IoEngine` does for the answers that it gets. */
module IoSubmit {
  import E = IoEngine
  import opened IoThreads
  import opened Types

  datatype Event = Event(thread: ThreadId, step: Step)

  /** A run together with the step taken from each of its states. */
  ghost predicate IsTrace(run: seq<State>, events: seq<Event>) {
    && |run| == |events| + 1 && Init(run[0])
    && forall i :: 0 <= i < |events| ==> Next(run[i], events[i].thread, events[i].step) == Some(run[i + 1])
  }

  /** What a submitter has heard from the backend and the engine so far, and what it has
      handed over and completed. */
  datatype Log = Log(answers: seq<SubmitStep>, taken: seq<RequestId>, completed: seq<RequestId>)

  predicate Answers(st: SubmitStep) { st.Take? || st.Refuse? || st.SeeStop? }

  /** One more answer, for a list whose first requests it is about. */
  function Logged(log: Log, list: seq<RequestId>, st: SubmitStep): Log {
    var answers := log.answers + [st];
    match st
    case Take(k) => Log(answers, log.taken + (if k <= |list| then list[..k] else list), log.completed)
    case Refuse(_) => Log(answers, log.taken, log.completed + if list == [] then [] else list[..1])
    case SeeStop(_) => Log(answers, log.taken, log.completed + list)
    case _ => log
  }

  /** The answer that thread `t` gets in a step. */
  function AnswerTo(event: Event, t: ThreadId): Option<SubmitStep> {
    if event.thread == t && event.step.BySubmitter? && Answers(event.step.submit) then Some(event.step.submit) else None
  }

  /** The log of thread `t` from state `i` to state `j` of a run. */
  function LogOf(run: seq<State>, events: seq<Event>, t: ThreadId, i: nat, j: nat): Log
    requires |run| == |events| + 1 && i <= j < |run|
    decreases j
  {
    if i == j then Log([], [], [])
    else
      var log, answer := LogOf(run, events, t, i, j - 1), AnswerTo(events[j - 1], t);
      if answer.Some? then Logged(log, ListOf(At(run[j - 1], t)), answer.value) else log
  }

  /** The answers as the loop sees them. */
  function Backend(answers: seq<SubmitStep>): nat -> E.Answer {
    (call: nat) =>
      if call < |answers| && answers[call].Take? then E.Took(answers[call].k)
      else if call < |answers| && answers[call].Refuse? then E.Refused(answers[call].code)
      else E.Took(0)
  }

  function Stops(answers: seq<SubmitStep>): nat -> bool { (call: nat) => call < |answers| && answers[call].SeeStop? }

  /** The loop, with all answers that the call is to get, has come as far as the log. */
  ghost predicate Follows(list: seq<RequestId>, marks: seq<bool>, log: Log, answers: seq<SubmitStep>) {
    E.Handled(list, marks, |log.answers|, Backend(answers), Stops(answers), log.taken, log.completed,
              E.Marks(|list|, 0, Backend(answers), Stops(answers)))
  }

  lemma FollowsTake(list: seq<RequestId>, marks: seq<bool>, log: Log, answers: seq<SubmitStep>, k: nat)
    requires Follows(list, marks, log, answers) && |log.answers| < |answers| && answers[|log.answers|] == Take(k)
    requires 0 < k <= |list| - |marks|
    ensures Follows(list, marks + seq(k, _ => true), Logged(log, list[|marks|..], Take(k)), answers)
  {
    var all := E.Marks(|list|, 0, Backend(answers), Stops(answers));
    E.Accepts(list, marks, |log.answers|, Backend(answers), Stops(answers), log.taken, log.completed, all, k);
    assert list[|marks|..][..k] == list[|marks|..|marks| + k];
  }

  lemma FollowsRefuse(list: seq<RequestId>, marks: seq<bool>, log: Log, answers: seq<SubmitStep>, st: SubmitStep)
    requires Follows(list, marks, log, answers) && |log.answers| < |answers| && answers[|log.answers|] == st
    requires st.Refuse? && |marks| < |list|
    ensures Follows(list, marks + [false], Logged(log, list[|marks|..], st), answers)
  {
    var all := E.Marks(|list|, 0, Backend(answers), Stops(answers));
    E.Refuses(list, marks, |log.answers|, Backend(answers), Stops(answers), log.taken, log.completed, all);
    assert list[|marks|..][..1] == [list[|marks|]];
  }

  lemma FollowsStop(list: seq<RequestId>, marks: seq<bool>, log: Log, answers: seq<SubmitStep>, st: SubmitStep)
    requires Follows(list, marks, log, answers) && |log.answers| < |answers| && answers[|log.answers|] == st
    requires st.SeeStop? && |marks| <= |list|
    ensures Follows(list, marks + seq(|list| - |marks|, _ => false), Logged(log, list[|marks|..], st), answers)
  {
    E.SelectRest(list, marks);
    var marks' := marks + seq(|list| - |marks|, _ => false);
    assert marks' + [] == marks';
  }

  /** One answer takes the loop as far as the thread. */
  lemma FollowsOn(list: seq<RequestId>, marks: seq<bool>, log: Log, answers: seq<SubmitStep>, st: SubmitStep)
    returns (marks': seq<bool>)
    requires Follows(list, marks, log, answers) && |log.answers| < |answers| && answers[|log.answers|] == st
    requires Answers(st) && (st.Take? ==> 0 < st.k <= |list| - |marks|) && (st.Refuse? ==> |marks| < |list|)
    ensures |marks| <= |list| && Follows(list, marks', Logged(log, list[|marks|..], st), answers)
    ensures |marks'| == if st.Take? then |marks| + st.k else if st.Refuse? then |marks| + 1 else |list|
  {
    if st.Take? {
      FollowsTake(list, marks, log, answers, st.k);
      marks' := marks + seq(st.k, _ => true);
    } else if st.Refuse? {
      FollowsRefuse(list, marks, log, answers, st);
      marks' := marks + [false];
    } else {
      FollowsStop(list, marks, log, answers, st);
      marks' := marks + seq(|list| - |marks|, _ => false);
    }
  }

  // The thread along a run

  predicate InCall(th: Thread) { th.task.Submitting? }

  /** What becomes of the list of a thread in a call. */
  predicate ListMoves(list: seq<RequestId>, list': seq<RequestId>, answer: Option<SubmitStep>) {
    match answer
    case None => list' == list
    case Some(Take(k)) => 0 < k <= |list| && list' == list[k..]
    case Some(Refuse(_)) => list != [] && list' == list[1..]
    case Some(_) => list' == []
  }

  lemma OwnSubmit(s: State, t: ThreadId, st: SubmitStep, s': State)
    requires Submitter(s, t, At(s, t), st) == Some(s') && InCall(At(s, t)) && InCall(At(s', t))
    ensures Answers(st) && ListMoves(ListOf(At(s, t)), ListOf(At(s', t)), Some(st))
  {
  }

  /** The requests that an answer is about go to the backend, or into the batch that the
      thread completes next. */
  lemma AnswerActs(s: State, t: ThreadId, st: SubmitStep, s': State)
    requires Submitter(s, t, At(s, t), st) == Some(s') && Answers(st)
    ensures var list, log := ListOf(At(s, t)), Logged(Log([], [], []), ListOf(At(s, t)), st);
      s'.accepted == s.accepted + Ids(log.taken) && BatchIds(At(s', t).batch) == log.completed
  {
  }

  lemma OwnOther(s: State, t: ThreadId, st: Step, s': State)
    requires Next(s, t, st) == Some(s') && InCall(At(s, t)) && !st.BySubmitter?
    ensures At(s', t).task == At(s, t).task
  {
  }

  lemma SubmitElsewhere(s: State, u: ThreadId, st: SubmitStep, s': State, t: ThreadId)
    requires Submitter(s, u, At(s, u), st) == Some(s') && u != t
    ensures At(s', t) == At(s, t)
  {
  }

  lemma ReapElsewhere(s: State, u: ThreadId, st: ReapStep, s': State, t: ThreadId)
    requires ReaperOrWaiter(s, u, At(s, u), st) == Some(s') && u != t
    ensures At(s', t) == At(s, t)
  {
  }

  lemma DeliverElsewhere(s: State, u: ThreadId, st: DeliverStep, s': State, t: ThreadId)
    requires Deliverer(s, u, At(s, u), st) == Some(s') && u != t
    ensures At(s', t) == At(s, t)
  {
  }

  lemma EngineElsewhere(s: State, st: EngineStep, s': State, t: ThreadId)
    requires Engine(s, st) == Some(s')
    ensures At(s', t) == At(s, t)
  {
  }

  lemma Elsewhere(s: State, u: ThreadId, st: Step, s': State, t: ThreadId)
    requires Next(s, u, st) == Some(s') && u != t
    ensures At(s', t) == At(s, t)
  {
    match st {
      case BySubmitter(st) => SubmitElsewhere(s, u, st, s', t);
      case ByReaper(st) => ReapElsewhere(s, u, st, s', t);
      case ByDelivery(st) => DeliverElsewhere(s, u, st, s', t);
      case ByEngine(st) => EngineElsewhere(s, st, s', t);
    }
  }

  /** While a thread submits, only its own answers shorten its list. */
  lemma StepMovesList(s: State, event: Event, s': State, t: ThreadId)
    requires Next(s, event.thread, event.step) == Some(s') && InCall(At(s, t)) && InCall(At(s', t))
    ensures ListMoves(ListOf(At(s, t)), ListOf(At(s', t)), AnswerTo(event, t))
  {
    if event.thread != t {
      Elsewhere(s, event.thread, event.step, s', t);
    } else if event.step.BySubmitter? {
      OwnSubmit(s, t, event.step.submit, s');
    } else {
      OwnOther(s, t, event.step, s');
    }
  }

  lemma {:induction false} LogGrows(run: seq<State>, events: seq<Event>, t: ThreadId, i: nat, j: nat, k: nat)
    requires |run| == |events| + 1 && i <= j <= k < |run|
    ensures LogOf(run, events, t, i, j).answers <= LogOf(run, events, t, i, k).answers
    decreases k
  {
    if j < k {
      LogGrows(run, events, t, i, j, k - 1);
    }
  }

  /** Thread `t` is in one call from state `i` to state `j`. */
  ghost predicate Submits(run: seq<State>, t: ThreadId, i: nat, j: nat) {
    i <= j < |run| && forall k :: i <= k <= j ==> InCall(At(run[k], t))
  }

  /** From each state of a call to the next, the list moves as the answer says. */
  ghost predicate Steps(run: seq<State>, events: seq<Event>, t: ThreadId, i: nat, j: nat)
    requires |run| == |events| + 1 && i <= j < |run|
  {
    forall k :: i <= k < j ==> ListMoves(ListOf(At(run[k], t)), ListOf(At(run[k + 1], t)), AnswerTo(events[k], t))
  }

  lemma CallSteps(run: seq<State>, events: seq<Event>, t: ThreadId, i: nat, j: nat)
    requires IsTrace(run, events) && Submits(run, t, i, j)
    ensures Steps(run, events, t, i, j)
  {
    forall k | i <= k < j
      ensures ListMoves(ListOf(At(run[k], t)), ListOf(At(run[k + 1], t)), AnswerTo(events[k], t))
    {
      StepMovesList(run[k], events[k], run[k + 1], t);
    }
  }

  lemma {:induction false} CallFollows(run: seq<State>, events: seq<Event>, t: ThreadId, i: nat, j: nat, end: nat)
    returns (marks: seq<bool>)
    requires |run| == |events| + 1 && i <= j <= end < |run| && Steps(run, events, t, i, j)
    ensures var list := ListOf(At(run[i], t));
      && Follows(list, marks, LogOf(run, events, t, i, j), LogOf(run, events, t, i, end).answers)
      && ListOf(At(run[j], t)) == list[|marks|..]
    decreases j
  {
    if i == j {
      marks := [];
    } else {
      var before := CallFollows(run, events, t, i, j - 1, end);
      var list, answers := ListOf(At(run[i], t)), LogOf(run, events, t, i, end).answers;
      var answer, log := AnswerTo(events[j - 1], t), LogOf(run, events, t, i, j - 1);
      assert ListMoves(ListOf(At(run[j - 1], t)), ListOf(At(run[j - 1 + 1], t)), answer);
      if answer == None {
        marks := before;
      } else {
        LogGrows(run, events, t, i, j, end);
        marks := FollowsOn(list, before, log, answers, answer.value);
      }
    }
  }

  /** Whatever other threads do meanwhile, when a call has dealt with its whole list, the
      requests that it handed to the backend and those that it completed itself are the
      ones that the loop of `E.SubmitTagged` promises for the answers it got. */
  lemma CallIsLoop(run: seq<State>, events: seq<Event>, t: ThreadId, i: nat, j: nat)
    requires IsTrace(run, events) && Submits(run, t, i, j) && ListOf(At(run[j], t)) == []
    ensures var list, log := ListOf(At(run[i], t)), LogOf(run, events, t, i, j);
      var marks := E.Marks(|list|, 0, Backend(log.answers), Stops(log.answers));
      |marks| == |list| && log.taken == E.Select(list, marks, true) && log.completed == E.Select(list, marks, false)
  {
    CallSteps(run, events, t, i, j);
    var marks := CallFollows(run, events, t, i, j, j);
    assert marks + [] == marks;
  }
}
