/** What the I/O engine promises over all runs of its threads. */
module IoRuns {
  import opened Arithmetic
  import opened IoDelivery
  import opened IoThreads
  import opened Types

  // Waiters

  ghost function PendingOf(requests: seq<Request>, w: WaiterId): set<RequestId> {
    set r: nat | r < |requests| && requests[r].waiter == w && !Counted(requests[r].place)
  }

  ghost predicate HasError(requests: seq<Request>, w: WaiterId, error: Option<ErrorCode>) {
    exists r :: 0 <= r < |requests| && requests[r].waiter == w && requests[r].error == error
  }

  ghost predicate IsStoring(requests: seq<Request>, w: WaiterId) {
    exists r :: 0 <= r < |requests| && requests[r].waiter == w && requests[r].place.Stores?
  }

  /** The waiter counts its requests that have not counted down. Its error is that of
      one of them, and while it is claimed but not stored the claimer is still at it. */
  ghost predicate WaiterOk(requests: seq<Request>, waiter: Waiter, w: WaiterId) {
    && waiter.pending == |PendingOf(requests, w)|
    && (waiter.error.Some? ==> waiter.claimed && HasError(requests, w, waiter.error))
    && (waiter.claimed && waiter.error == None ==> IsStoring(requests, w))
  }

  /** The step changes no waiter, counts nothing down and ends no delivery. */
  ghost predicate Uncounted(s: State, s': State) {
    && s'.waiters == s.waiters && |s'.requests| == |s.requests|
    && forall r :: 0 <= r < |s.requests| ==>
         var q, q' := s.requests[r], s'.requests[r];
         q'.waiter == q.waiter && q'.error == q.error && q'.place.Stores? == q.place.Stores?
           && Counted(q'.place) == Counted(q.place) && q'.place.Done? == q.place.Done?
  }

  lemma UncountedWaiter(s: State, s': State, w: WaiterId)
    requires Uncounted(s, s') && w < |s.waiters| && WaiterOk(s.requests, s.waiters[w], w)
    ensures WaiterOk(s'.requests, s'.waiters[w], w)
  {
    assert PendingOf(s'.requests, w) == PendingOf(s.requests, w);
    if s.waiters[w].error.Some? {
      var r :| 0 <= r < |s.requests| && s.requests[r].waiter == w && s.requests[r].error == s.waiters[w].error;
      assert s'.requests[r].waiter == w;
    }
    if IsStoring(s.requests, w) {
      var r :| 0 <= r < |s.requests| && s.requests[r].waiter == w && s.requests[r].place.Stores?;
      assert s'.requests[r].waiter == w;
    }
  }

  lemma PlacedUncounted(requests: seq<Request>, ids: set<RequestId>, p: Place)
    requires !Ran(p) && forall r :: r in ids ==> r < |requests| && !Ran(requests[r].place)
    ensures forall r :: 0 <= r < |requests| ==>
      var q, q' := requests[r], Placed(requests, ids, p)[r];
      q' == q.(place := q'.place) && q'.place.Stores? == q.place.Stores? && Counted(q'.place) == Counted(q.place)
        && q'.place.Done? == q.place.Done?
  {
  }

  /** Requests of a thread's list, or of the backend, have not run. */
  lemma ListNotRun(s: State, t: ThreadId, ids: set<RequestId>)
    requires ThreadOk(s.requests, At(s, t), t) && forall r :: r in ids ==> r in ListOf(At(s, t))
    ensures forall r :: r in ids ==> r < |s.requests| && !Ran(s.requests[r].place)
  {
  }

  lemma SubmitterUncounted(s: State, t: ThreadId, st: SubmitStep, s': State)
    requires ThreadOk(s.requests, At(s, t), t) && Submitter(s, t, At(s, t), st) == Some(s') && !st.Prepare?
    ensures Uncounted(s, s')
  {
    match st {
      case Take(k) =>
        var taken := Ids(At(s, t).task.list[..k]);
        ListNotRun(s, t, taken);
        PlacedUncounted(s.requests, taken, Accepted);
      case Refuse(_) =>
        var r := At(s, t).task.list[0];
        ListNotRun(s, t, {r});
        PlacedUncounted(s.requests, {r}, Batched(t));
      case SeeStop(_) =>
        ListNotRun(s, t, Ids(At(s, t).task.list));
        PlacedUncounted(s.requests, Ids(At(s, t).task.list), Batched(t));
      case _ =>
    }
  }

  lemma ReaperUncounted(s: State, t: ThreadId, st: ReapStep, s': State)
    requires BackendOk(s) && ReaperOrWaiter(s, t, At(s, t), st) == Some(s')
    ensures Uncounted(s, s')
  {
    if st.Reap? {
      PlacedUncounted(s.requests, Ids(st.ids), Batched(t));
    }
  }

  lemma EngineUncounted(s: State, st: EngineStep, s': State)
    requires BackendOk(s) && Engine(s, st) == Some(s')
    ensures Uncounted(s, s')
  {
    if st.Finish? {
      PlacedUncounted(s.requests, {st.r}, Ready);
    }
  }

  /** One request changes, and the waiter it belongs to. */
  lemma PendingStep(before: seq<Request>, after: seq<Request>, r: RequestId, w: WaiterId)
    requires |before| <= |after| && forall q :: 0 <= q < |after| && q != r ==> q < |before| && after[q] == before[q]
    ensures |PendingOf(after, w)| ==
      |PendingOf(before, w)| - Bit(r in PendingOf(before, w)) + Bit(r in PendingOf(after, w))
  {
    CountStep(PendingOf(before, w), PendingOf(after, w), r);
  }

  lemma PrepareWaiter(s: State, t: ThreadId, v: WaiterId, s': State, w: WaiterId)
    requires Submitter(s, t, At(s, t), Prepare(v)) == Some(s') && w < |s.waiters|
    requires WaiterOk(s.requests, s.waiters[w], w)
    ensures WaiterOk(s'.requests, s'.waiters[w], w)
  {
    PendingStep(s.requests, s'.requests, |s.requests|, w);
    if s.waiters[w].error.Some? {
      var r :| 0 <= r < |s.requests| && s.requests[r].waiter == w && s.requests[r].error == s.waiters[w].error;
      assert s'.requests[r] == s.requests[r];
    }
    if IsStoring(s.requests, w) {
      var r :| 0 <= r < |s.requests| && s.requests[r].waiter == w && s.requests[r].place.Stores?;
      assert s'.requests[r] == s.requests[r];
    }
  }

  /** How a delivery step changes its request and its waiter. */
  ghost predicate Delivers(q: Request, q': Request, v: Waiter, v': Waiter) {
    && q'.waiter == q.waiter && !q.place.Done?
    && v'.pending == v.pending - (if Counted(q'.place) then 1 else 0) + (if Counted(q.place) then 1 else 0)
    && (q.error.Some? ==> q'.error == q.error)
    && (v.claimed ==> v'.claimed)
    && (if v'.error != v.error then v'.error == q'.error && v'.error.Some? && v'.claimed
        else
          || v.error.Some? || (v'.claimed == v.claimed && q'.place.Stores? == q.place.Stores?)
          || (!v.claimed && v'.claimed && q'.place.Stores?))
  }

  /** The step is about request `r` and its waiter. */
  ghost predicate DeliversOne(s: State, s': State, r: RequestId) {
    && r < |s.requests| == |s'.requests| && s'.requests == s.requests[r := s'.requests[r]]
    && var w := s.requests[r].waiter;
       && w < |s.waiters| == |s'.waiters| && s'.waiters == s.waiters[w := s'.waiters[w]]
       && Delivers(s.requests[r], s'.requests[r], s.waiters[w], s'.waiters[w])
  }

  lemma CompleteDelivers(s: State, t: ThreadId, s': State, r: RequestId)
    requires Deliverer(s, t, At(s, t), Complete) == Some(s') && r < |s.requests| && RequestOk(s, r)
    requires r == At(s, t).batch[0].r && s.requests[r].place == Batched(t)
    ensures DeliversOne(s, s', r)
  {
  }

  lemma DoingDelivers(s: State, t: ThreadId, st: DeliverStep, s': State, r: RequestId)
    requires !st.Complete? && Deliverer(s, t, At(s, t), st) == Some(s') && r < |s.requests| && RequestOk(s, r)
    requires !At(s, t).doing.Nothing? && r == At(s, t).doing.c.r && DoingOk(s.requests, At(s, t).doing, t)
    ensures DeliversOne(s, s', r)
  {
  }

  lemma DeliverWaiter(before: seq<Request>, after: seq<Request>, r: RequestId, v: Waiter, v': Waiter, w: WaiterId)
    requires r < |before| == |after| && after == before[r := after[r]] && after[r].waiter == before[r].waiter
    requires WaiterOk(before, v, w)
    requires if before[r].waiter == w then Delivers(before[r], after[r], v, v') else v' == v
    ensures WaiterOk(after, v', w)
  {
    PendingStep(before, after, r, w);
    if v'.error.Some? {
      if v'.error != v.error {
        assert after[r].waiter == w && after[r].error == v'.error;
      } else {
        var q :| 0 <= q < |before| && before[q].waiter == w && before[q].error == v.error;
        assert after[q].waiter == w && after[q].error == v'.error;
      }
    } else if v'.claimed {
      if v.claimed {
        var q :| 0 <= q < |before| && before[q].waiter == w && before[q].place.Stores?;
        assert after[q].waiter == w && after[q].place.Stores?;
      } else {
        assert after[r].waiter == w && after[r].place.Stores?;
      }
    }
  }

  ghost predicate Waiters(s: State) {
    forall w :: 0 <= w < |s.waiters| ==> WaiterOk(s.requests, s.waiters[w], w)
  }

  function DeliveredBy(th: Thread, st: DeliverStep): RequestId
    requires if st.Complete? then th.batch != [] else !th.doing.Nothing?
  {
    if st.Complete? then th.batch[0].r else th.doing.c.r
  }

  lemma DeliveryDelivers(s: State, t: ThreadId, st: DeliverStep, s': State)
    requires Places(s) && Deliverer(s, t, At(s, t), st) == Some(s')
    ensures DeliversOne(s, s', DeliveredBy(At(s, t), st))
  {
    var th := At(s, t);
    assert ThreadOk(s.requests, th, t);
    if st.Complete? {
      assert BatchIds(th.batch)[0] == th.batch[0].r;
      CompleteDelivers(s, t, s', th.batch[0].r);
    } else {
      DoingDelivers(s, t, st, s', th.doing.c.r);
    }
  }

  lemma DeliveryWaiters(s: State, t: ThreadId, st: DeliverStep, s': State)
    requires Places(s) && Waiters(s) && Deliverer(s, t, At(s, t), st) == Some(s')
    ensures Waiters(s')
  {
    var r := DeliveredBy(At(s, t), st);
    DeliveryDelivers(s, t, st, s');
    forall w | 0 <= w < |s'.waiters| ensures WaiterOk(s'.requests, s'.waiters[w], w) {
      DeliverWaiter(s.requests, s'.requests, r, s.waiters[w], s'.waiters[w], w);
    }
  }

  lemma UncountedWaiters(s: State, s': State)
    requires Uncounted(s, s') && Waiters(s)
    ensures Waiters(s')
  {
    forall w | 0 <= w < |s'.waiters| ensures WaiterOk(s'.requests, s'.waiters[w], w) {
      UncountedWaiter(s, s', w);
    }
  }

  lemma StepWaiters(s: State, t: ThreadId, st: Step, s': State)
    requires Places(s) && Waiters(s) && Next(s, t, st) == Some(s')
    ensures Waiters(s')
  {
    assert ThreadOk(s.requests, At(s, t), t);
    match st {
      case BySubmitter(submit) =>
        if submit.Prepare? {
          forall w | 0 <= w < |s'.waiters| ensures WaiterOk(s'.requests, s'.waiters[w], w) {
            PrepareWaiter(s, t, submit.w, s', w);
          }
        } else {
          SubmitterUncounted(s, t, submit, s');
          UncountedWaiters(s, s');
        }
      case ByReaper(reap) =>
        ReaperUncounted(s, t, reap, s');
        UncountedWaiters(s, s');
      case ByDelivery(deliver) => DeliveryWaiters(s, t, deliver, s');
      case ByEngine(engine) =>
        EngineUncounted(s, engine, s');
        UncountedWaiters(s, s');
    }
  }

  // Demand

  ghost function AsyncRequests(requests: seq<Request>): set<RequestId> {
    set r: nat | r < |requests| && requests[r].isAsync && !requests[r].place.Done?
  }

  predicate Sleeps(th: Thread) { th.task.Waiting? && th.task.asleep }

  ghost function Sleepers(s: State): set<ThreadId> { set t | t in s.threads && Sleeps(s.threads[t]) }

  predicate DemandShut(s: State) { s.shutdown.DemandAdded? || s.shutdown.Over? }

  ghost predicate DemandOk(s: State) {
    s.demand == |AsyncRequests(s.requests)| + |Sleepers(s)| + Bit(DemandShut(s))
  }

  /** A request becomes asynchronous only when it is submitted. */
  predicate Plain(requests: seq<Request>, th: Thread) {
    th.task.Preparing? ==> forall i :: 0 <= i < |th.task.list| ==>
      th.task.list[i] < |requests| && !requests[th.task.list[i]].isAsync
  }

  ghost predicate Fresh(s: State) { forall t: ThreadId :: Plain(s.requests, At(s, t)) }

  lemma SleepersStep(s: State, s': State, t: ThreadId)
    requires s'.threads == s.threads[t := At(s', t)]
    ensures |Sleepers(s')| == |Sleepers(s)| - Bit(Sleeps(At(s, t))) + Bit(Sleeps(At(s', t)))
  {
    CountStep(Sleepers(s), Sleepers(s'), t);
  }

  lemma {:induction false} IdsCount(list: seq<RequestId>)
    requires Distinct(list)
    ensures |Ids(list)| == |list|
  {
    if list != [] {
      var rest := list[..|list| - 1];
      IdsCount(rest);
      assert Ids(list) == Ids(rest) + {list[|list| - 1]};
    }
  }

  lemma TaggedAsync(requests: seq<Request>, list: seq<RequestId>, t: ThreadId)
    requires Distinct(list) && AllAt(requests, list, Listed(t)) && forall i :: 0 <= i < |list| ==>
      !requests[list[i]].isAsync
    ensures |AsyncRequests(Tagged(requests, Ids(list)))| == |AsyncRequests(requests)| + |list|
  {
    IdsCount(list);
    assert AsyncRequests(Tagged(requests, Ids(list))) == AsyncRequests(requests) + Ids(list);
    assert AsyncRequests(requests) !! Ids(list);
  }

  lemma SubmitDemand(s: State, t: ThreadId, isAsync: bool, s': State)
    requires ThreadOk(s.requests, At(s, t), t) && Plain(s.requests, At(s, t)) && DemandOk(s)
    requires Submitter(s, t, At(s, t), Submit(isAsync)) == Some(s')
    ensures DemandOk(s')
  {
    SleepersStep(s, s', t);
    if isAsync {
      assert AllAt(s.requests, At(s, t).task.list, Listed(t));
      TaggedAsync(s.requests, At(s, t).task.list, t);
    }
  }

  lemma SameAsync(s: State, s': State)
    requires Uncounted(s, s') && forall r :: 0 <= r < |s.requests| ==> s'.requests[r].isAsync == s.requests[r].isAsync
    ensures AsyncRequests(s'.requests) == AsyncRequests(s.requests)
  {
  }

  lemma SubmitterDemand(s: State, t: ThreadId, st: SubmitStep, s': State)
    requires ThreadOk(s.requests, At(s, t), t) && Plain(s.requests, At(s, t)) && DemandOk(s)
    requires Submitter(s, t, At(s, t), st) == Some(s')
    ensures DemandOk(s')
  {
    if st.Submit? {
      SubmitDemand(s, t, st.isAsync, s');
    } else if st.Prepare? {
      SleepersStep(s, s', t);
      assert AsyncRequests(s'.requests) == AsyncRequests(s.requests);
    } else {
      SleepersStep(s, s', t);
      SubmitterUncounted(s, t, st, s');
      SameAsync(s, s');
    }
  }

  /** The demand moves with the thread's sleep and with nothing else. */
  ghost predicate SleepMoves(s: State, s': State, t: ThreadId) {
    && s'.threads == s.threads[t := At(s', t)] && s'.shutdown == s.shutdown
    && s'.demand == s.demand - Bit(Sleeps(At(s, t))) + Bit(Sleeps(At(s', t)))
    && |s'.requests| == |s.requests|
    && forall r :: 0 <= r < |s.requests| ==> s'.requests[r].isAsync == s.requests[r].isAsync
  }

  lemma ReapSleeps(s: State, t: ThreadId, st: ReapStep, s': State)
    requires st.Reap? && ReaperOrWaiter(s, t, At(s, t), st) == Some(s')
    ensures SleepMoves(s, s', t)
  {
  }

  lemma WaitSleeps(s: State, t: ThreadId, st: ReapStep, s': State)
    requires !st.Reap? && ReaperOrWaiter(s, t, At(s, t), st) == Some(s')
    ensures SleepMoves(s, s', t)
  {
  }

  lemma SleepDemand(s: State, t: ThreadId, s': State)
    requires DemandOk(s) && SleepMoves(s, s', t) && Uncounted(s, s')
    ensures DemandOk(s')
  {
    SleepersStep(s, s', t);
    SameAsync(s, s');
  }

  lemma ReaperDemand(s: State, t: ThreadId, st: ReapStep, s': State)
    requires BackendOk(s) && DemandOk(s) && ReaperOrWaiter(s, t, At(s, t), st) == Some(s')
    ensures DemandOk(s')
  {
    ReaperUncounted(s, t, st, s');
    if st.Reap? {
      ReapSleeps(s, t, st, s');
    } else {
      WaitSleeps(s, t, st, s');
    }
    SleepDemand(s, t, s');
  }

  lemma AsyncStep(before: seq<Request>, after: seq<Request>, r: RequestId)
    requires r < |before| == |after| && after == before[r := after[r]]
    ensures |AsyncRequests(after)| ==
      |AsyncRequests(before)| - Bit(r in AsyncRequests(before)) + Bit(r in AsyncRequests(after))
  {
    CountStep(AsyncRequests(before), AsyncRequests(after), r);
  }

  /** Demand and the thread's task after a delivery step. */
  ghost predicate DemandMoves(s: State, s': State, t: ThreadId, r: RequestId, ends: bool) {
    && r < |s.requests| == |s'.requests| && s'.demand == s.demand - Bit(s.requests[r].isAsync && ends)
    && s'.shutdown == s.shutdown
    && s'.requests[r].isAsync == s.requests[r].isAsync && (s'.requests[r].place.Done? <==> ends)
    && s'.threads == s.threads[t := At(s', t)] && At(s', t).task == At(s, t).task
  }

  lemma CompleteDemand(s: State, t: ThreadId, s': State)
    requires Deliverer(s, t, At(s, t), Complete) == Some(s')
    ensures DemandMoves(s, s', t, At(s, t).batch[0].r, false)
  {
  }

  lemma DoingDemand(s: State, t: ThreadId, st: DeliverStep, s': State)
    requires !st.Complete? && Deliverer(s, t, At(s, t), st) == Some(s')
    ensures DemandMoves(s, s', t, At(s, t).doing.c.r, st.EndDelivery?)
  {
  }

  lemma DeliveryDemand(s: State, t: ThreadId, st: DeliverStep, s': State)
    requires Places(s) && DemandOk(s) && Deliverer(s, t, At(s, t), st) == Some(s')
    ensures DemandOk(s')
  {
    var r := DeliveredBy(At(s, t), st);
    DeliveryDelivers(s, t, st, s');
    if st.Complete? {
      CompleteDemand(s, t, s');
    } else {
      DoingDemand(s, t, st, s');
    }
    SleepersStep(s, s', t);
    AsyncStep(s.requests, s'.requests, r);
  }

  lemma EngineDemand(s: State, st: EngineStep, s': State)
    requires BackendOk(s) && DemandOk(s) && Engine(s, st) == Some(s')
    ensures DemandOk(s')
  {
    EngineUncounted(s, st, s');
    SameAsync(s, s');
    assert Sleepers(s') == Sleepers(s);
  }

  lemma StepDemand(s: State, t: ThreadId, st: Step, s': State)
    requires Places(s) && Fresh(s) && DemandOk(s) && Next(s, t, st) == Some(s')
    ensures DemandOk(s')
  {
    assert ThreadOk(s.requests, At(s, t), t) && Plain(s.requests, At(s, t));
    match st {
      case BySubmitter(submit) => SubmitterDemand(s, t, submit, s');
      case ByReaper(reap) => ReaperDemand(s, t, reap, s');
      case ByDelivery(deliver) => DeliveryDemand(s, t, deliver, s');
      case ByEngine(engine) => EngineDemand(s, engine, s');
    }
  }

  /** Requests keep their tags, except for those a `Submit` tags. */
  ghost predicate TagsKept(s: State, s': State, tagged: set<RequestId>) {
    |s.requests| <= |s'.requests| && forall r :: 0 <= r < |s.requests| && r !in tagged ==>
      s'.requests[r].isAsync == s.requests[r].isAsync
  }

  lemma PlainKept(s: State, s': State, th: Thread, tagged: set<RequestId>)
    requires TagsKept(s, s', tagged) && Plain(s.requests, th)
    requires th.task.Preparing? ==> forall i :: 0 <= i < |th.task.list| ==> th.task.list[i] !in tagged
    ensures Plain(s'.requests, th)
  {
  }

  ghost function TaggedBy(s: State, t: ThreadId, st: Step): set<RequestId> {
    if st == BySubmitter(Submit(true)) then Ids(ListOf(At(s, t))) else {}
  }

  lemma SubmitterTags(s: State, t: ThreadId, st: SubmitStep, s': State)
    requires Submitter(s, t, At(s, t), st) == Some(s')
    ensures TagsKept(s, s', TaggedBy(s, t, BySubmitter(st))) && s'.threads == s.threads[t := At(s', t)]
    ensures Plain(s.requests, At(s, t)) ==> Plain(s'.requests, At(s', t))
  {
    if st.Prepare? {
      assert Plain(s.requests, At(s, t)) ==> Plain(s'.requests, At(s', t)) by {
        var list, list' := ListOf(At(s, t)), At(s', t).task.list;
        assert forall i :: 0 <= i < |list'| ==> (i < |list| && list'[i] == list[i]) || list'[i] == |s.requests|;
      }
    }
  }

  lemma ReaperTags(s: State, t: ThreadId, st: ReapStep, s': State)
    requires ReaperOrWaiter(s, t, At(s, t), st) == Some(s')
    ensures TagsKept(s, s', {}) && !At(s', t).task.Preparing? && s'.threads == s.threads[t := At(s', t)]
  {
  }

  lemma DeliveryTags(s: State, t: ThreadId, st: DeliverStep, s': State)
    requires Deliverer(s, t, At(s, t), st) == Some(s')
    ensures TagsKept(s, s', {}) && At(s', t).task == At(s, t).task && s'.threads == s.threads[t := At(s', t)]
  {
  }

  lemma EngineTags(s: State, st: EngineStep, s': State)
    requires Engine(s, st) == Some(s')
    ensures TagsKept(s, s', {}) && s'.threads == s.threads
  {
  }

  lemma StepTags(s: State, t: ThreadId, st: Step, s': State)
    requires Plain(s.requests, At(s, t)) && Next(s, t, st) == Some(s')
    ensures TagsKept(s, s', TaggedBy(s, t, st)) && Plain(s'.requests, At(s', t))
    ensures forall u: ThreadId :: u != t ==> At(s', u) == At(s, u)
  {
    match st {
      case BySubmitter(submit) => SubmitterTags(s, t, submit, s');
      case ByReaper(reap) => ReaperTags(s, t, reap, s');
      case ByDelivery(deliver) => DeliveryTags(s, t, deliver, s');
      case ByEngine(engine) => EngineTags(s, engine, s');
    }
  }

  lemma StepFresh(s: State, t: ThreadId, st: Step, s': State)
    requires Places(s) && Fresh(s) && Next(s, t, st) == Some(s')
    ensures Fresh(s')
  {
    assert Plain(s.requests, At(s, t));
    StepTags(s, t, st, s');
    forall u: ThreadId ensures Plain(s'.requests, At(s', u)) {
      assert Plain(s.requests, At(s, u));
      if u != t {
        assert ThreadOk(s.requests, At(s, u), u) && ThreadOk(s.requests, At(s, t), t);
        ListsApart(s.requests, ListOf(At(s, u)), u, ListOf(At(s, t)), t);
        PlainKept(s, s', At(s, u), TaggedBy(s, t, st));
      }
    }
  }

  lemma ListsApart(requests: seq<Request>, list: seq<RequestId>, u: ThreadId, other: seq<RequestId>, t: ThreadId)
    requires u != t && AllAt(requests, list, Listed(u)) && AllAt(requests, other, Listed(t))
    ensures forall i :: 0 <= i < |list| ==> list[i] !in Ids(other)
  {
  }

  // The end of the reaper

  /** A reaper that ended without a failure left the backend closed and empty. */
  predicate Orderly(s: State) {
    s.reaper.Stopped? && !s.fatal ==> BackendClosed(s) && s.accepted == {} && s.ready == map[]
  }

  lemma SubmitterOrderly(s: State, t: ThreadId, st: SubmitStep, s': State)
    requires Orderly(s) && Submitter(s, t, At(s, t), st) == Some(s')
    ensures Orderly(s')
  {
  }

  lemma ReaperOrderly(s: State, t: ThreadId, st: ReapStep, s': State)
    requires Orderly(s) && ReaperOrWaiter(s, t, At(s, t), st) == Some(s')
    ensures Orderly(s')
  {
  }

  lemma DeliveryOrderly(s: State, t: ThreadId, st: DeliverStep, s': State)
    requires Orderly(s) && Deliverer(s, t, At(s, t), st) == Some(s')
    ensures Orderly(s')
  {
  }

  lemma StepOrderly(s: State, t: ThreadId, st: Step, s': State)
    requires Orderly(s) && Next(s, t, st) == Some(s')
    ensures Orderly(s')
  {
    match st {
      case BySubmitter(submit) => SubmitterOrderly(s, t, submit, s');
      case ByReaper(reap) => ReaperOrderly(s, t, reap, s');
      case ByDelivery(deliver) => DeliveryOrderly(s, t, deliver, s');
      case ByEngine(engine) =>
    }
  }

  // Runs

  ghost predicate Inv(s: State) { Places(s) && Waiters(s) && Fresh(s) && DemandOk(s) && Orderly(s) }

  lemma InitInv(s: State)
    requires Init(s)
    ensures Inv(s)
  {
    assert forall t: ThreadId :: At(s, t) == FREE;
    forall w | 0 <= w < |s.waiters| ensures WaiterOk(s.requests, s.waiters[w], w) {
      assert PendingOf(s.requests, w) == {};
    }
    assert AsyncRequests(s.requests) == {} && Sleepers(s) == {};
  }

  lemma StepKeeps(s: State, t: ThreadId, st: Step, s': State)
    requires Inv(s) && Next(s, t, st) == Some(s')
    ensures Inv(s')
  {
    StepPlaces(s, t, st, s');
    StepWaiters(s, t, st, s');
    StepFresh(s, t, st, s');
    StepDemand(s, t, st, s');
    StepOrderly(s, t, st, s');
  }

  lemma {:induction false} RunInv(run: seq<State>, i: nat)
    requires IsRun(run) && i < |run|
    ensures Inv(run[i])
  {
    if i == 0 {
      InitInv(run[0]);
    } else {
      RunInv(run, i - 1);
      assert StepTo(run[i - 1], run[i - 1 + 1]);
      var t: ThreadId, st :| Next(run[i - 1], t, st) == Some(run[i]);
      StepKeeps(run[i - 1], t, st, run[i]);
    }
  }

  // Theorems

  /** Every request is in exactly one place: in the list of one submitter, with the
      backend, in the batch of one thread, in delivery by one thread, or delivered. */
  lemma OnePlace(run: seq<State>, i: nat, r: RequestId, p: Place)
    requires IsRun(run) && i < |run| && r < |run[i].requests|
    ensures IsAt(run[i], run[i].requests[r].place, r)
    ensures !p.Done? && IsAt(run[i], p, r) ==> p == run[i].requests[r].place
  {
    RunInv(run, i);
    var s := run[i];
    assert RequestOk(s, r);
    match p {
      case Listed(t) => assert ThreadOk(s.requests, At(s, t), t);
      case Batched(t) => assert ThreadOk(s.requests, At(s, t), t);
      case Stores(t) => assert ThreadOk(s.requests, At(s, t), t);
      case Counts(t) => assert ThreadOk(s.requests, At(s, t), t);
      case Ends(t) => assert ThreadOk(s.requests, At(s, t), t);
      case _ =>
    }
  }

  /** A completion runs at most once, and a request without one is still in the list of
      a submitter, with the backend or in the batch of a thread. */
  lemma CompletionRunsOnce(run: seq<State>, i: nat, r: RequestId)
    requires IsRun(run) && i < |run| && r < |run[i].requests|
    ensures run[i].requests[r].runs <= 1
    ensures run[i].requests[r].runs == 0 <==>
      || r in run[i].accepted || r in run[i].ready
      || exists t: ThreadId :: r in ListOf(At(run[i], t)) || r in BatchIds(At(run[i], t).batch)
  {
    RunInv(run, i);
    var s := run[i];
    assert RequestOk(s, r);
    forall t: ThreadId | r in ListOf(At(s, t)) || r in BatchIds(At(s, t).batch) ensures s.requests[r].runs == 0 {
      assert ThreadOk(s.requests, At(s, t), t);
    }
  }

  /** No thread has anything left to submit or to deliver. */
  ghost predicate LoopsEnded(s: State) { forall t: ThreadId :: ListOf(At(s, t)) == [] && Idle(At(s, t)) }

  /** What a stop loses: once all loops have ended, exactly the requests that the
      backend still has are the ones whose completion never ran. After a shutdown
      without a failure of the backend there are none. */
  lemma StopLosesTheBackend(run: seq<State>, i: nat, r: RequestId)
    requires IsRun(run) && i < |run| && r < |run[i].requests| && LoopsEnded(run[i])
    ensures run[i].requests[r].runs == (if r in run[i].accepted || r in run[i].ready then 0 else 1)
    ensures run[i].reaper.Stopped? && !run[i].fatal ==> run[i].requests[r].runs == 1
  {
    RunInv(run, i);
    CompletionRunsOnce(run, i, r);
  }

  lemma RunGoesOn(run: seq<State>, t: ThreadId, st: Step, s': State)
    requires IsRun(run) && Next(run[|run| - 1], t, st) == Some(s')
    ensures IsRun(run + [s'])
  {
    assert StepTo(run[|run| - 1], s');
  }

  /** One thread with one request, and no other thread. */
  predicate Lone(s: State, task: Task) {
    && s.threads == map[0 := Thread(task, [], Nothing)] && |s.requests| == 1 && s.requests[0].runs == 0
    && s.reaper.NotStarted? && s.shutdown.NotShut? && !s.stopped
  }

  lemma LoneSubmit(s: State) returns (s': State)
    requires Lone(s, Preparing([0]))
    ensures Next(s, 0, BySubmitter(Submit(false))) == Some(s') && Lone(s', Submitting([0]))
  {
    s' := Submitter(s, 0, At(s, 0), Submit(false)).value;
  }

  lemma LoneTake(s: State) returns (s': State)
    requires Lone(s, Submitting([0]))
    ensures Next(s, 0, BySubmitter(Take(1))) == Some(s') && Lone(s', Submitting([]))
  {
    s' := Submitter(s, 0, At(s, 0), Take(1)).value;
    assert At(s, 0).task.list[1..] == [];
  }

  /** One request, taken by the backend. */
  lemma TakenRun() returns (run: seq<State>)
    ensures IsRun(run) && Lone(run[|run| - 1], Submitting([]))
  {
    var s0 := State([], [Waiter(0, false, None)], map[], {}, map[], 0, NotStarted, NotShut, false, false);
    var s1 := Submitter(s0, 0, At(s0, 0), Prepare(0)).value;
    assert ListOf(FREE) + [|s0.requests|] == [0];
    assert Lone(s1, Preparing([0]));
    var s2 := LoneSubmit(s1);
    var s3 := LoneTake(s2);
    run := [s0];
    RunGoesOn(run, 0, BySubmitter(Prepare(0)), s1);
    RunGoesOn(run + [s1], 0, BySubmitter(Submit(false)), s2);
    RunGoesOn(run + [s1] + [s2], 0, BySubmitter(Take(1)), s3);
    run := run + [s1] + [s2] + [s3];
  }

  /** A run that loses a request: the backend takes it, and then fails the reaper. */
  lemma StopCanLose() returns (run: seq<State>)
    ensures IsRun(run) && LoopsEnded(run[|run| - 1]) && run[|run| - 1].stopped
    ensures |run[|run| - 1].requests| == 1 && run[|run| - 1].requests[0].runs == 0
  {
    run := TakenRun();
    var s0 := run[|run| - 1];
    var s1 := ReaperOrWaiter(s0, 1, FREE, StartReaper).value;
    var th := Thread(Reaping, [], Nothing);
    assert At(s0, 1) == FREE && At(s1, 1) == th;
    var s2 := ReaperOrWaiter(s1, 1, th, ReapFail(true)).value;
    RunGoesOn(run, 1, ByReaper(StartReaper), s1);
    run := run + [s1];
    RunGoesOn(run, 1, ByReaper(ReapFail(true)), s2);
    run := run + [s2];
    forall t: ThreadId ensures ListOf(At(s2, t)) == [] && Idle(At(s2, t)) {
      assert t != 1 ==> At(s2, t) == At(s0, t);
    }
  }

  /** A waiter that has counted down reports an error exactly when one of its requests
      failed, and the error is that of such a request. */
  lemma WaiterReportsErrors(run: seq<State>, i: nat, w: WaiterId)
    requires IsRun(run) && i < |run| && w < |run[i].waiters| && run[i].waiters[w].pending == 0
    ensures var s := run[i];
      && (s.waiters[w].error.Some? <==>
        exists r :: 0 <= r < |s.requests| && s.requests[r].waiter == w && s.requests[r].error.Some?)
      && (s.waiters[w].error.Some? ==> HasError(s.requests, w, s.waiters[w].error))
  {
    RunInv(run, i);
    var s := run[i];
    assert WaiterOk(s.requests, s.waiters[w], w);
    assert PendingOf(s.requests, w) == {};
    forall r | 0 <= r < |s.requests| && s.requests[r].waiter == w ensures Counted(s.requests[r].place) {
      assert r !in PendingOf(s.requests, w);
    }
    if r :| 0 <= r < |s.requests| && s.requests[r].waiter == w && s.requests[r].error.Some? {
      assert RequestOk(s, r);
    }
  }

  /** A waiter counts exactly its requests that have not counted down. */
  lemma PendingIsExact(run: seq<State>, i: nat, w: WaiterId)
    requires IsRun(run) && i < |run| && w < |run[i].waiters|
    ensures run[i].waiters[w].pending == |PendingOf(run[i].requests, w)|
  {
    RunInv(run, i);
    assert WaiterOk(run[i].requests, run[i].waiters[w], w);
  }

  /** `demand` is the number of asynchronous requests not yet delivered, plus the
      sleeping waiters, plus one once the shutdown has added its own. */
  lemma DemandIsExact(run: seq<State>, i: nat)
    requires IsRun(run) && i < |run|
    ensures run[i].demand == |AsyncRequests(run[i].requests)| + |Sleepers(run[i])| + Bit(DemandShut(run[i]))
  {
    RunInv(run, i);
  }
}
