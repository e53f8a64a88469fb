/** The threads of the I/O engine: submitters that retry after a partial accept, a
    refusal or a stop, waiters that reap and dispatch batches themselves, the reaper,
    the shutdown, and a backend that hands every accepted request back once. One atomic
    action, or one call of the backend, is one step; threads interleave freely. */
module IoThreads {
  import opened Arithmetic
  import opened Types

  type ThreadId = nat
  type RequestId = nat
  type WaiterId = nat
  type ErrorCode = nat

  datatype Completion = Completion(r: RequestId, error: Option<ErrorCode>)

  datatype Task =
    | Free
    /** Requests counted into their waiters but not yet submitted. */
    | Preparing(list: seq<RequestId>)
    | Submitting(list: seq<RequestId>)
    | Waiting(w: WaiterId, asleep: bool)
    | Reaping
    | Ended

  /** The delivery under way: `Complete` stores its error, counts down, and `Deliver`
      gives up the demand. */
  datatype Doing = Nothing | Storing(c: Completion) | Counting(c: Completion) | Ending(c: Completion)

  datatype Thread = Thread(task: Task, batch: seq<Completion>, doing: Doing)

  datatype Place =
    | Listed(t: ThreadId) | Accepted | Ready | Batched(t: ThreadId)
    | Stores(t: ThreadId) | Counts(t: ThreadId) | Ends(t: ThreadId) | Done

  /** `runs` counts the calls of `Complete` and `error` is what it was called with;
      `place` only records where the request is. */
  datatype Request = Request(waiter: WaiterId, isAsync: bool, place: Place, runs: nat, error: Option<ErrorCode>)

  datatype Waiter = Waiter(pending: int, claimed: bool, error: Option<ErrorCode>)

  datatype Reaper = NotStarted | Running(t: ThreadId) | Stopped
  datatype Shutdown = NotShut | Stopping | BackendShut | DemandAdded | Over

  datatype State = State(
    requests: seq<Request>,
    waiters: seq<Waiter>,
    threads: map<ThreadId, Thread>,
    accepted: set<RequestId>,
    ready: map<RequestId, Option<ErrorCode>>,
    demand: int,
    reaper: Reaper,
    shutdown: Shutdown,
    stopped: bool,
    /** The reaper met an error other than the end of a backend that was shut down. */
    fatal: bool)

  const FREE := Thread(Free, [], Nothing)

  function At(s: State, t: ThreadId): Thread { if t in s.threads then s.threads[t] else FREE }

  predicate Idle(th: Thread) { th.batch == [] && th.doing.Nothing? }

  function ListOf(th: Thread): seq<RequestId> {
    if th.task.Preparing? || th.task.Submitting? then th.task.list else []
  }

  function Ids(list: seq<RequestId>): set<RequestId> { set r | r in list }

  function BatchIds(batch: seq<Completion>): seq<RequestId> { seq(|batch|, i requires 0 <= i < |batch| => batch[i].r) }

  predicate BackendClosed(s: State) { s.shutdown.BackendShut? || s.shutdown.DemandAdded? || s.shutdown.Over? }

  predicate Init(s: State) {
    && s.requests == [] && s.threads == map[] && s.accepted == {} && s.ready == map[] && s.demand == 0
    && s.reaper.NotStarted? && s.shutdown.NotShut? && !s.stopped && !s.fatal
    && forall w :: 0 <= w < |s.waiters| ==> s.waiters[w] == Waiter(0, false, None)
  }

  // Steps

  datatype SubmitStep =
    | Prepare(w: WaiterId) | Submit(isAsync: bool)
    | Take(k: nat) | Refuse(code: ErrorCode) | SeeStop(code: ErrorCode) | SubmitEnd
  datatype ReapStep =
    | WaitStart(w: WaiterId) | FallAsleep | WaitDone | WaitStopped | StartReaper | Reap(ids: seq<RequestId>)
    | ReapFail(lost: bool)
  datatype DeliverStep = Complete | StoreError | CountDown | EndDelivery
  datatype EngineStep =
    | Finish(r: RequestId, outcome: Option<ErrorCode>) | BeginShutdown | ShutBackend | AddDemand | EndShutdown

  datatype Step =
    | BySubmitter(submit: SubmitStep) | ByReaper(reap: ReapStep) | ByDelivery(deliver: DeliverStep)
    | ByEngine(engine: EngineStep)

  function Placed(requests: seq<Request>, ids: set<RequestId>, p: Place): seq<Request> {
    seq(|requests|, r requires 0 <= r < |requests| => if r in ids then requests[r].(place := p) else requests[r])
  }

  function Tagged(requests: seq<Request>, ids: set<RequestId>): seq<Request> {
    seq(|requests|, r requires 0 <= r < |requests| => if r in ids then requests[r].(isAsync := true) else requests[r])
  }

  function Put(s: State, t: ThreadId, th: Thread): State { s.(threads := s.threads[t := th]) }

  function Failed(list: seq<RequestId>, code: ErrorCode): seq<Completion> {
    seq(|list|, i requires 0 <= i < |list| => Completion(list[i], Some(code)))
  }

  /** Submit and SubmitTagged. */
  function Submitter(s: State, t: ThreadId, th: Thread, st: SubmitStep): Option<State> {
    match st
    case Prepare(w) =>
      if (th.task.Free? || th.task.Preparing?) && Idle(th) && w < |s.waiters| then
        Some(Put(s, t, th.(task := Preparing(ListOf(th) + [|s.requests|])))
             .(requests := s.requests + [Request(w, false, Listed(t), 0, None)],
               waiters := s.waiters[w := s.waiters[w].(pending := s.waiters[w].pending + 1)]))
      else None
    case Submit(isAsync) =>
      if th.task.Preparing? && Idle(th) then
        var list := th.task.list;
        var s' := Put(s, t, th.(task := Submitting(list)));
        Some(if isAsync then s'.(requests := Tagged(s.requests, Ids(list)), demand := s.demand + |list|) else s')
      else None
    case Take(k) =>
      if th.task.Submitting? && Idle(th) && 0 < k <= |th.task.list| && !BackendClosed(s) then
        var taken := Ids(th.task.list[..k]);
        Some(Put(s, t, th.(task := Submitting(th.task.list[k..])))
             .(requests := Placed(s.requests, taken, Accepted), accepted := s.accepted + taken))
      else None
    case Refuse(code) =>
      if th.task.Submitting? && Idle(th) && th.task.list != [] then
        var r := th.task.list[0];
        Some(Put(s, t, th.(task := Submitting(th.task.list[1..]), batch := [Completion(r, Some(code))]))
             .(requests := Placed(s.requests, {r}, Batched(t))))
      else None
    case SeeStop(code) =>
      if th.task.Submitting? && Idle(th) && s.stopped then
        Some(Put(s, t, th.(task := Submitting([]), batch := Failed(th.task.list, code)))
             .(requests := Placed(s.requests, Ids(th.task.list), Batched(t))))
      else None
    case SubmitEnd => if th.task == Submitting([]) && Idle(th) then Some(Put(s, t, th.(task := Free))) else None
  }

  predicate Distinct(ids: seq<RequestId>) { forall i, j :: 0 <= i < j < |ids| ==> ids[i] != ids[j] }

  /** Wait, ReapReady and the reaper's Run. */
  function ReaperOrWaiter(s: State, t: ThreadId, th: Thread, st: ReapStep): Option<State> {
    match st
    case WaitStart(w) =>
      if th.task.Free? && Idle(th) && w < |s.waiters| then Some(Put(s, t, th.(task := Waiting(w, false)))) else None
    case FallAsleep =>
      if th.task.Waiting? && !th.task.asleep && Idle(th) then
        Some(Put(s, t, th.(task := Waiting(th.task.w, true))).(demand := s.demand + 1))
      else None
    case WaitDone =>
      if th.task.Waiting? && Idle(th) && th.task.w < |s.waiters| && s.waiters[th.task.w].pending == 0 then
        Some(Put(s, t, th.(task := Free)).(demand := s.demand - Bit(th.task.asleep)))
      else None
    case WaitStopped =>
      if th.task.Waiting? && Idle(th) && s.stopped then
        Some(Put(s, t, th.(task := Free)).(demand := s.demand - Bit(th.task.asleep)))
      else None
    case StartReaper =>
      if th.task.Free? && Idle(th) && s.reaper.NotStarted? then
        Some(Put(s, t, th.(task := Reaping)).(reaper := Running(t)))
      else None
    case Reap(ids) =>
      if (th.task.Waiting? || th.task.Reaping?) && Idle(th) && Distinct(ids)
         && (forall i :: 0 <= i < |ids| ==> ids[i] in s.ready) then
        Some(Put(s, t, th.(batch := seq(|ids|, i requires 0 <= i < |ids| => Completion(ids[i], s.ready[ids[i]]))))
             .(requests := Placed(s.requests, Ids(ids), Batched(t)), ready := s.ready - Ids(ids)))
      else None
    case ReapFail(lost) =>
      if th.task.Reaping? && Idle(th) && (lost || (BackendClosed(s) && s.accepted == {} && s.ready == map[])) then
        Some(Put(s, t, th.(task := Ended)).(reaper := Stopped, stopped := true, fatal := s.fatal || lost))
      else None
  }

  function PutRequest(s: State, r: RequestId, request: Request): State
    requires r < |s.requests|
  {
    s.(requests := s.requests[r := request])
  }

  /** Dispatch, Deliver and IoWaiter::Complete. */
  function Deliverer(s: State, t: ThreadId, th: Thread, st: DeliverStep): Option<State> {
    match st
    case Complete =>
      if th.batch != [] && th.doing.Nothing? && th.batch[0].r < |s.requests|
         && s.requests[th.batch[0].r].waiter < |s.waiters| then
        var c := th.batch[0];
        var request := s.requests[c.r].(runs := s.requests[c.r].runs + 1, error := c.error);
        var waiter := s.waiters[request.waiter];
        var rest := th.(batch := th.batch[1..]);
        Some(if c.error.Some? && !waiter.claimed then
               PutRequest(Put(s, t, rest.(doing := Storing(c))), c.r, request.(place := Stores(t)))
               .(waiters := s.waiters[request.waiter := waiter.(claimed := true)])
             else PutRequest(Put(s, t, rest.(doing := Counting(c))), c.r, request.(place := Counts(t))))
      else None
    case StoreError =>
      if th.doing.Storing? && th.doing.c.r < |s.requests| && s.requests[th.doing.c.r].waiter < |s.waiters| then
        var c := th.doing.c;
        var request := s.requests[c.r];
        Some(PutRequest(Put(s, t, th.(doing := Counting(c))), c.r, request.(place := Counts(t)))
             .(waiters := s.waiters[request.waiter := s.waiters[request.waiter].(error := c.error)]))
      else None
    case CountDown =>
      if th.doing.Counting? && th.doing.c.r < |s.requests| && s.requests[th.doing.c.r].waiter < |s.waiters| then
        var c := th.doing.c;
        var request := s.requests[c.r];
        var waiter := s.waiters[request.waiter];
        Some(PutRequest(Put(s, t, th.(doing := Ending(c))), c.r, request.(place := Ends(t)))
             .(waiters := s.waiters[request.waiter := waiter.(pending := waiter.pending - 1)]))
      else None
    case EndDelivery =>
      if th.doing.Ending? && th.doing.c.r < |s.requests| then
        var c := th.doing.c;
        Some(PutRequest(Put(s, t, th.(doing := Nothing)), c.r, s.requests[c.r].(place := Done))
             .(demand := s.demand - Bit(s.requests[c.r].isAsync)))
      else None
  }

  /** The backend and Shutdown. */
  function Engine(s: State, st: EngineStep): Option<State> {
    match st
    case Finish(r, outcome) =>
      if r in s.accepted then
        Some(s.(requests := Placed(s.requests, {r}, Ready), accepted := s.accepted - {r},
                ready := s.ready[r := outcome]))
      else None
    case BeginShutdown => if s.shutdown.NotShut? then Some(s.(shutdown := Stopping)) else None
    case ShutBackend => if s.shutdown.Stopping? then Some(s.(shutdown := BackendShut)) else None
    case AddDemand =>
      if s.shutdown.BackendShut? then Some(s.(shutdown := DemandAdded, demand := s.demand + 1)) else None
    case EndShutdown =>
      if s.shutdown.DemandAdded? && !s.reaper.Running? then Some(s.(shutdown := Over, stopped := true)) else None
  }

  function Next(s: State, t: ThreadId, st: Step): Option<State> {
    match st
    case BySubmitter(submit) => Submitter(s, t, At(s, t), submit)
    case ByReaper(reap) => ReaperOrWaiter(s, t, At(s, t), reap)
    case ByDelivery(deliver) => Deliverer(s, t, At(s, t), deliver)
    case ByEngine(engine) => Engine(s, engine)
  }

  ghost predicate StepTo(s: State, s': State) {
    exists t: ThreadId, st: Step :: Next(s, t, st) == Some(s')
  }

  ghost predicate IsRun(run: seq<State>) {
    && run != [] && Init(run[0])
    && forall i :: 0 <= i < |run| - 1 ==> StepTo(run[i], run[i + 1])
  }
}
