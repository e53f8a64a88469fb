/** Where requests are, what waiters report and what demand counts, over all runs of
    the I/O engine's threads. */
module IoDelivery {
  import opened Arithmetic
  import opened IoThreads
  import opened Types

  // The invariant

  /** The place is in the hands of thread `t`. */
  predicate Own(p: Place, t: ThreadId) {
    p == Listed(t) || p == Batched(t) || p == Stores(t) || p == Counts(t) || p == Ends(t)
  }

  /** `Complete` was called. */
  predicate Ran(p: Place) { p.Stores? || p.Counts? || p.Ends? || p.Done? }

  predicate Counted(p: Place) { p.Ends? || p.Done? }

  predicate AllAt(requests: seq<Request>, ids: seq<RequestId>, p: Place) {
    forall i :: 0 <= i < |ids| ==> ids[i] < |requests| && requests[ids[i]].place == p
  }

  predicate DoingOk(requests: seq<Request>, doing: Doing, t: ThreadId) {
    doing.Nothing? ||
    (doing.c.r < |requests| &&
     match doing
     case Storing(c) => requests[c.r].place == Stores(t) && c.error.Some? && requests[c.r].error == c.error
     case Counting(c) => requests[c.r].place == Counts(t)
     case Ending(c) => requests[c.r].place == Ends(t)
     case Nothing => true)
  }

  /** What a thread has is nowhere else, and it has it once. */
  predicate ThreadOk(requests: seq<Request>, th: Thread, t: ThreadId) {
    && Distinct(ListOf(th)) && AllAt(requests, ListOf(th), Listed(t))
    && Distinct(BatchIds(th.batch)) && AllAt(requests, BatchIds(th.batch), Batched(t))
    && DoingOk(requests, th.doing, t)
  }

  predicate BackendOk(s: State) {
    && (forall r :: r in s.accepted ==> r < |s.requests| && s.requests[r].place == Accepted)
    && (forall r :: r in s.ready ==> r < |s.requests| && s.requests[r].place == Ready)
  }

  /** The request is where its place says. */
  predicate IsAt(s: State, p: Place, r: RequestId) {
    match p
    case Listed(t) => r in ListOf(At(s, t))
    case Accepted => r in s.accepted
    case Ready => r in s.ready
    case Batched(t) => r in BatchIds(At(s, t).batch)
    case Stores(t) => At(s, t).doing.Storing? && At(s, t).doing.c.r == r
    case Counts(t) => At(s, t).doing.Counting? && At(s, t).doing.c.r == r
    case Ends(t) => At(s, t).doing.Ending? && At(s, t).doing.c.r == r
    case Done => true
  }

  predicate RequestOk(s: State, r: RequestId)
    requires r < |s.requests|
  {
    var request := s.requests[r];
    && request.waiter < |s.waiters| && IsAt(s, request.place, r)
    && request.runs == Bit(Ran(request.place)) && (!Ran(request.place) ==> request.error == None)
    && (request.error.Some? ==> s.waiters[request.waiter].claimed) && (request.place.Stores? ==> request.error.Some?)
  }

  ghost predicate Places(s: State) {
    && (forall t: ThreadId :: ThreadOk(s.requests, At(s, t), t))
    && BackendOk(s)
    && (forall r :: 0 <= r < |s.requests| ==> RequestOk(s, r))
  }

  // One step moves some requests between one thread and the backend

  /** Only the requests `ids` move, and none of them out of another thread's hands. */
  ghost predicate Shifts(s: State, s': State, t: ThreadId, ids: set<RequestId>) {
    && |s.requests| <= |s'.requests| && |s'.waiters| == |s.waiters|
    && (forall r :: 0 <= r < |s'.requests| && r !in ids ==>
      r < |s.requests| && s'.requests[r].(isAsync := false) == s.requests[r].(isAsync := false))
    && (forall r :: r in ids && r < |s.requests| ==>
      Own(s.requests[r].place, t) || s.requests[r].place == Accepted || s.requests[r].place == Ready)
    && (forall r :: r !in ids ==> (r in s'.accepted <==> r in s.accepted) && (r in s'.ready <==> r in s.ready))
    && (forall u: ThreadId :: u != t ==> At(s', u) == At(s, u))
    && (forall w :: 0 <= w < |s.waiters| && s.waiters[w].claimed ==> s'.waiters[w].claimed)
  }

  /** The thread still has what it had and did not pass on. */
  predicate Keeps(th: Thread, th': Thread, ids: set<RequestId>) {
    && (forall r :: r in ListOf(th) ==> r in ids || r in ListOf(th'))
    && (forall r :: r in BatchIds(th.batch) ==> r in ids || r in BatchIds(th'.batch))
    && (th.doing.Nothing? || th.doing.c.r in ids || th'.doing == th.doing)
  }

  lemma OtherThread(s: State, s': State, t: ThreadId, ids: set<RequestId>, u: ThreadId)
    requires Shifts(s, s', t, ids) && u != t && ThreadOk(s.requests, At(s, u), u)
    ensures ThreadOk(s'.requests, At(s', u), u)
  {
    var th := At(s, u);
    assert forall i :: 0 <= i < |ListOf(th)| ==> ListOf(th)[i] !in ids;
    assert forall i :: 0 <= i < |BatchIds(th.batch)| ==> BatchIds(th.batch)[i] !in ids;
  }

  lemma OtherRequest(s: State, s': State, t: ThreadId, ids: set<RequestId>, r: RequestId)
    requires Shifts(s, s', t, ids) && Keeps(At(s, t), At(s', t), ids) && r !in ids && r < |s'.requests|
    requires r < |s.requests| ==> RequestOk(s, r)
    ensures RequestOk(s', r)
  {
  }

  /** A step that moves `ids` and leaves them in order. */
  ghost predicate Moves(s: State, s': State, t: ThreadId, ids: set<RequestId>) {
    && Shifts(s, s', t, ids) && Keeps(At(s, t), At(s', t), ids)
    && ThreadOk(s'.requests, At(s', t), t) && BackendOk(s')
    && forall r :: r in ids && r < |s'.requests| ==> RequestOk(s', r)
  }

  lemma MovesKeep(s: State, s': State, t: ThreadId, ids: set<RequestId>)
    requires Places(s) && Moves(s, s', t, ids)
    ensures Places(s')
  {
    forall u: ThreadId ensures ThreadOk(s'.requests, At(s', u), u) {
      if u != t {
        OtherThread(s, s', t, ids, u);
      }
    }
    forall r | 0 <= r < |s'.requests| ensures RequestOk(s', r) {
      if r !in ids {
        OtherRequest(s, s', t, ids, r);
      }
    }
  }

  // Steps that move requests as a whole

  /** The requests `ids` go to one place; the thread and the backend follow. */
  lemma Relocated(s: State, s': State, t: ThreadId, ids: set<RequestId>, p: Place)
    requires s'.requests == Placed(s.requests, ids, p) && s'.waiters == s.waiters && !Ran(p)
    requires forall u: ThreadId :: u != t ==> At(s', u) == At(s, u)
    requires forall r :: r !in ids ==> (r in s'.accepted <==> r in s.accepted) && (r in s'.ready <==> r in s.ready)
    requires forall r :: r in ids ==> r < |s.requests| && RequestOk(s, r) && !Ran(s.requests[r].place) && IsAt(s', p, r)
    requires forall r :: r in ids ==>
      Own(s.requests[r].place, t) || s.requests[r].place == Accepted || s.requests[r].place == Ready
    ensures Shifts(s, s', t, ids) && forall r :: r in ids && r < |s'.requests| ==> RequestOk(s', r)
  {
  }

  /** A list of a thread whose requests stay, or all arrive. */
  lemma ListStays(requests: seq<Request>, ids: set<RequestId>, p: Place, list: seq<RequestId>, q: Place)
    requires forall i :: 0 <= i < |list| ==>
      list[i] < |requests| && if list[i] in ids then p == q else requests[list[i]].place == q
    ensures AllAt(Placed(requests, ids, p), list, q)
  {
  }

  lemma SplitList(list: seq<RequestId>, k: nat)
    requires Distinct(list) && k <= |list|
    ensures Distinct(list[k..]) && Distinct(list[..k]) && Ids(list) == Ids(list[..k]) + Ids(list[k..])
    ensures Ids(list[..k]) !! Ids(list[k..])
  {
    assert list == list[..k] + list[k..];
    forall r | r in list[..k] ensures r !in list[k..] {
      var i :| 0 <= i < k && list[..k][i] == r;
      assert list[i] == r;
    }
  }

  lemma OneMoreListed(requests: seq<Request>, request: Request, list: seq<RequestId>, p: Place)
    requires AllAt(requests, list, p) && Distinct(list)
    ensures AllAt(requests + [request], list, p)
    ensures request.place == p ==> AllAt(requests + [request], list + [|requests|], p) && Distinct(list + [|requests|])
  {
  }

  lemma PrepareMoves(s: State, t: ThreadId, w: WaiterId, s': State)
    requires ThreadOk(s.requests, At(s, t), t) && BackendOk(s) && Submitter(s, t, At(s, t), Prepare(w)) == Some(s')
    ensures Moves(s, s', t, {|s.requests|})
  {
    var th, th', r := At(s, t), At(s', t), |s.requests|;
    assert ListOf(th') == ListOf(th) + [r] && BatchIds(th'.batch) == BatchIds(th.batch) == [];
    OneMoreListed(s.requests, s'.requests[r], ListOf(th), Listed(t));
    assert ThreadOk(s'.requests, th', t);
    assert RequestOk(s', r) by {
      assert ListOf(th')[|ListOf(th)|] == r;
    }
  }

  /** A step that moves no request. */
  lemma Stays(s: State, s': State, t: ThreadId)
    requires |s'.requests| == |s.requests| && forall r :: 0 <= r < |s.requests| ==>
      s'.requests[r].(isAsync := false) == s.requests[r].(isAsync := false)
    requires s'.waiters == s.waiters && s'.accepted == s.accepted && s'.ready == s.ready && BackendOk(s)
    requires forall u: ThreadId :: u != t ==> At(s', u) == At(s, u)
    requires ListOf(At(s', t)) == ListOf(At(s, t)) && At(s', t).batch == At(s, t).batch
    requires At(s', t).doing == At(s, t).doing
    requires ThreadOk(s.requests, At(s, t), t)
    ensures Moves(s, s', t, {})
  {
  }

  lemma SubmitMoves(s: State, t: ThreadId, isAsync: bool, s': State)
    requires ThreadOk(s.requests, At(s, t), t) && BackendOk(s) && Submitter(s, t, At(s, t), Submit(isAsync)) == Some(s')
    ensures Moves(s, s', t, {})
  {
    Stays(s, s', t);
  }

  /** The head of a submitter's list goes elsewhere, the rest stays. */
  lemma HeadLeaves(s: State, t: ThreadId, k: nat)
    requires Places(s) && At(s, t).task.Submitting? && k <= |At(s, t).task.list|
    ensures var list := At(s, t).task.list;
      && Distinct(list[k..]) && Distinct(list[..k]) && Ids(list) == Ids(list[..k]) + Ids(list[k..])
      && Ids(list[..k]) !! Ids(list[k..])
      && (forall i :: 0 <= i < |list| ==> list[i] < |s.requests| && s.requests[list[i]].place == Listed(t))
      && (forall r :: r in Ids(list[..k]) ==> r < |s.requests| && RequestOk(s, r) && s.requests[r].place == Listed(t))
  {
    var list := At(s, t).task.list;
    assert ThreadOk(s.requests, At(s, t), t);
    SplitList(list, k);
    forall r | r in Ids(list[..k]) ensures r < |s.requests| && RequestOk(s, r) && s.requests[r].place == Listed(t) {
      assert r in Ids(list);
      var i :| 0 <= i < |list| && list[i] == r;
    }
  }

  /** What the backend takes is in its hands. */
  lemma TakeArrives(s: State, s': State, t: ThreadId, ids: set<RequestId>)
    requires BackendOk(s)
    requires s' ==
      s.(threads := s'.threads, requests := Placed(s.requests, ids, Accepted), accepted := s.accepted + ids)
    requires forall u: ThreadId :: u != t ==> At(s', u) == At(s, u)
    requires forall r :: r in ids ==> r < |s.requests| && RequestOk(s, r) && s.requests[r].place == Listed(t)
    ensures Shifts(s, s', t, ids) && BackendOk(s') && forall r :: r in ids && r < |s'.requests| ==> RequestOk(s', r)
  {
    Relocated(s, s', t, ids, Accepted);
  }

  lemma TakeMoves(s: State, t: ThreadId, k: nat, s': State)
    requires Places(s) && Submitter(s, t, At(s, t), Take(k)) == Some(s')
    ensures Moves(s, s', t, Ids(At(s, t).task.list[..k]))
  {
    HeadLeaves(s, t, k);
    TakeArrives(s, s', t, Ids(At(s, t).task.list[..k]));
    RestStays(s, s', t, k, Accepted);
    EmptyHands(s'.requests, At(s', t), t);
  }

  /** A thread without a batch and a delivery is in order when its list is. */
  lemma EmptyHands(requests: seq<Request>, th: Thread, t: ThreadId)
    requires Idle(th) && Distinct(ListOf(th)) && AllAt(requests, ListOf(th), Listed(t))
    ensures ThreadOk(requests, th, t)
  {
    assert BatchIds(th.batch) == [];
  }

  lemma RestStays(s: State, s': State, t: ThreadId, k: nat, p: Place)
    requires Places(s) && At(s, t).task.Submitting? && k <= |At(s, t).task.list| && Idle(At(s, t)) && p != Listed(t)
    requires ListOf(At(s', t)) == At(s, t).task.list[k..] && At(s', t).doing.Nothing?
    requires s'.requests == Placed(s.requests, Ids(At(s, t).task.list[..k]), p)
    ensures Keeps(At(s, t), At(s', t), Ids(At(s, t).task.list[..k]))
    ensures Distinct(ListOf(At(s', t))) && AllAt(s'.requests, ListOf(At(s', t)), Listed(t))
  {
    var list := At(s, t).task.list;
    HeadLeaves(s, t, k);
    forall r | r in list ensures r in Ids(list[..k]) || r in list[k..] {
      assert r in Ids(list);
    }
    forall i | 0 <= i < |list[k..]| ensures list[k..][i] !in Ids(list[..k]) {
      assert list[k..][i] in Ids(list[k..]);
    }
  }

  lemma RefuseMoves(s: State, t: ThreadId, code: ErrorCode, s': State)
    requires Places(s) && Submitter(s, t, At(s, t), Refuse(code)) == Some(s')
    ensures Moves(s, s', t, Ids(At(s, t).task.list[..1]))
  {
    var list := At(s, t).task.list;
    HeadLeaves(s, t, 1);
    assert list[..1] == [list[0]] && Ids(list[..1]) == {list[0]};
    RestStays(s, s', t, 1, Batched(t));
    RefuseArrives(s, t, list[0], s');
  }

  lemma RefuseArrives(s: State, t: ThreadId, r: RequestId, s': State)
    requires r < |s.requests| && s.requests[r].place == Listed(t) && RequestOk(s, r) && BackendOk(s)
    requires s' == s.(threads := s'.threads, requests := Placed(s.requests, {r}, Batched(t)))
    requires forall u: ThreadId :: u != t ==> At(s', u) == At(s, u)
    requires |At(s', t).batch| == 1 && At(s', t).batch[0].r == r
    ensures Shifts(s, s', t, {r}) && RequestOk(s', r) && BackendOk(s')
    ensures Distinct(BatchIds(At(s', t).batch)) && AllAt(s'.requests, BatchIds(At(s', t).batch), Batched(t))
  {
    assert BatchIds(At(s', t).batch) == [r];
    Relocated(s, s', t, {r}, Batched(t));
  }

  lemma FailedIds(list: seq<RequestId>, code: ErrorCode)
    ensures BatchIds(Failed(list, code)) == list
  {
  }

  lemma StopArrives(s: State, s': State, t: ThreadId, list: seq<RequestId>)
    requires BackendOk(s) && s' == s.(threads := s'.threads, requests := Placed(s.requests, Ids(list), Batched(t)))
    requires (forall u: ThreadId :: u != t ==> At(s', u) == At(s, u)) && BatchIds(At(s', t).batch) == list
    requires forall r :: r in Ids(list) ==> r < |s.requests| && RequestOk(s, r) && s.requests[r].place == Listed(t)
    ensures Shifts(s, s', t, Ids(list)) && BackendOk(s') && AllAt(s'.requests, list, Batched(t))
    ensures forall r :: r in Ids(list) && r < |s'.requests| ==> RequestOk(s', r)
  {
    assert forall i :: 0 <= i < |list| ==> list[i] in Ids(list);
    ListStays(s.requests, Ids(list), Batched(t), list, Batched(t));
    Relocated(s, s', t, Ids(list), Batched(t));
  }

  lemma SeeStopMoves(s: State, t: ThreadId, code: ErrorCode, s': State)
    requires Places(s) && Submitter(s, t, At(s, t), SeeStop(code)) == Some(s')
    ensures Moves(s, s', t, Ids(At(s, t).task.list))
  {
    var list := At(s, t).task.list;
    HeadLeaves(s, t, |list|);
    assert list[..|list|] == list;
    FailedIds(list, code);
    StopArrives(s, s', t, list);
    RestStays(s, s', t, |list|, Batched(t));
  }

  lemma SubmitterPlaces(s: State, t: ThreadId, st: SubmitStep, s': State)
    requires Places(s) && Submitter(s, t, At(s, t), st) == Some(s')
    ensures Places(s')
  {
    assert ThreadOk(s.requests, At(s, t), t);
    var ids := {};
    match st {
      case Prepare(w) => ids := {|s.requests|}; PrepareMoves(s, t, w, s');
      case Submit(isAsync) => SubmitMoves(s, t, isAsync, s');
      case Take(k) => ids := Ids(At(s, t).task.list[..k]); TakeMoves(s, t, k, s');
      case Refuse(code) => ids := Ids(At(s, t).task.list[..1]); RefuseMoves(s, t, code, s');
      case SeeStop(code) => ids := Ids(At(s, t).task.list); SeeStopMoves(s, t, code, s');
      case SubmitEnd => Stays(s, s', t);
    }
    MovesKeep(s, s', t, ids);
  }

  lemma ReapArrives(s: State, s': State, t: ThreadId, reaped: seq<RequestId>)
    requires BackendOk(s)
    requires s' ==
      s.(threads := s'.threads, requests := Placed(s.requests, Ids(reaped), Batched(t)), ready := s.ready - Ids(reaped))
    requires forall u: ThreadId :: u != t ==> At(s', u) == At(s, u)
    requires BatchIds(At(s', t).batch) == reaped
    requires forall r :: r in Ids(reaped) ==> r < |s.requests| && RequestOk(s, r) && s.requests[r].place == Ready
    ensures Shifts(s, s', t, Ids(reaped)) && BackendOk(s') && forall r :: r in Ids(reaped) && r < |s'.requests| ==>
      RequestOk(s', r)
  {
    Relocated(s, s', t, Ids(reaped), Batched(t));
  }

  lemma ReapMoves(s: State, t: ThreadId, reaped: seq<RequestId>, s': State)
    requires ThreadOk(s.requests, At(s, t), t) && BackendOk(s)
    requires ReaperOrWaiter(s, t, At(s, t), Reap(reaped)) == Some(s')
    requires forall r :: r in Ids(reaped) ==> r < |s.requests| && RequestOk(s, r) && s.requests[r].place == Ready
    ensures Moves(s, s', t, Ids(reaped))
  {
    var th, th' := At(s, t), At(s', t);
    assert BatchIds(th'.batch) == reaped;
    assert forall u: ThreadId :: u != t ==> At(s', u) == At(s, u);
    ReapArrives(s, s', t, reaped);
    ReapHands(s.requests, th, th', t, reaped);
  }

  lemma ReapHands(requests: seq<Request>, th: Thread, th': Thread, t: ThreadId, reaped: seq<RequestId>)
    requires Idle(th) && ListOf(th) == ListOf(th') == [] && BatchIds(th'.batch) == reaped && Distinct(reaped)
    requires th'.doing.Nothing?
    requires forall r :: r in Ids(reaped) ==> r < |requests|
    ensures Keeps(th, th', Ids(reaped)) && ThreadOk(Placed(requests, Ids(reaped), Batched(t)), th', t)
  {
    assert BatchIds(th.batch) == [];
    assert forall i :: 0 <= i < |reaped| ==> reaped[i] in Ids(reaped);
    ListStays(requests, Ids(reaped), Batched(t), reaped, Batched(t));
  }

  lemma ReaperPlaces(s: State, t: ThreadId, st: ReapStep, s': State)
    requires Places(s) && ReaperOrWaiter(s, t, At(s, t), st) == Some(s')
    ensures Places(s')
  {
    assert ThreadOk(s.requests, At(s, t), t);
    if st.Reap? {
      forall r | r in Ids(st.ids) ensures r < |s.requests| && RequestOk(s, r) && s.requests[r].place == Ready {
        assert r in s.ready;
      }
      ReapMoves(s, t, st.ids, s');
      MovesKeep(s, s', t, Ids(st.ids));
    } else {
      Stays(s, s', t);
      MovesKeep(s, s', t, {});
    }
  }

  lemma BatchRest(batch: seq<Completion>)
    requires batch != []
    ensures BatchIds(batch[1..]) == BatchIds(batch)[1..]
    ensures forall r :: r in BatchIds(batch) ==> r == batch[0].r || r in BatchIds(batch[1..])
  {
    forall r | r in BatchIds(batch) ensures r == batch[0].r || r in BatchIds(batch[1..]) {
      var i :| 0 <= i < |batch| && BatchIds(batch)[i] == r;
      assert i > 0 ==> BatchIds(batch[1..])[i - 1] == r;
    }
  }

  /** One request in the hands of the thread changes, outside of its list. */
  ghost predicate OneChanges(s: State, s': State, t: ThreadId, r: RequestId) {
    && r < |s.requests| == |s'.requests| && s'.requests == s.requests[r := s'.requests[r]]
    && Own(s.requests[r].place, t) && !s.requests[r].place.Listed?
    && s'.accepted == s.accepted && s'.ready == s.ready && s'.threads == s.threads[t := At(s', t)]
    && |s'.waiters| == |s.waiters|
    && (forall w :: 0 <= w < |s.waiters| && s.waiters[w].claimed ==> s'.waiters[w].claimed)
    && ListOf(At(s', t)) == ListOf(At(s, t))
  }

  lemma OneShifts(s: State, s': State, t: ThreadId, r: RequestId)
    requires OneChanges(s, s', t, r) && BackendOk(s)
    ensures Shifts(s, s', t, {r}) && BackendOk(s')
  {
  }

  lemma OneListStays(requests: seq<Request>, r: RequestId, request: Request, list: seq<RequestId>, p: Place)
    requires AllAt(requests, list, p) && r < |requests| && r !in list
    ensures AllAt(requests[r := request], list, p)
  {
  }

  lemma NotIn(requests: seq<Request>, r: RequestId, list: seq<RequestId>, p: Place)
    requires AllAt(requests, list, p) && r < |requests| && requests[r].place != p
    ensures r !in list
  {
  }

  lemma CompleteMoves(s: State, t: ThreadId, r: RequestId, s': State)
    requires ThreadOk(s.requests, At(s, t), t) && BackendOk(s) && OneChanges(s, s', t, r)
    requires At(s, t).doing.Nothing? && At(s, t).batch != [] && At(s, t).batch[0].r == r
    requires At(s', t).batch == At(s, t).batch[1..]
    requires DoingOk(s'.requests, At(s', t).doing, t) && RequestOk(s', r)
    ensures Moves(s, s', t, {r})
  {
    var th, th' := At(s, t), At(s', t);
    OneShifts(s, s', t, r);
    BatchRest(th.batch);
    assert BatchIds(th.batch)[0] == r;
    NotIn(s.requests, r, ListOf(th), Listed(t));
    OneListStays(s.requests, r, s'.requests[r], ListOf(th), Listed(t));
    OneListStays(s.requests, r, s'.requests[r], BatchIds(th.batch)[1..], Batched(t));
  }

  lemma DoingMoves(s: State, t: ThreadId, r: RequestId, s': State)
    requires ThreadOk(s.requests, At(s, t), t) && BackendOk(s) && OneChanges(s, s', t, r)
    requires !At(s, t).doing.Nothing? && At(s, t).doing.c.r == r && At(s', t).batch == At(s, t).batch
    requires DoingOk(s'.requests, At(s', t).doing, t) && RequestOk(s', r)
    ensures Moves(s, s', t, {r})
  {
    var th := At(s, t);
    OneShifts(s, s', t, r);
    NotIn(s.requests, r, ListOf(th), Listed(t));
    NotIn(s.requests, r, BatchIds(th.batch), Batched(t));
    OneListStays(s.requests, r, s'.requests[r], ListOf(th), Listed(t));
    OneListStays(s.requests, r, s'.requests[r], BatchIds(th.batch), Batched(t));
  }

  /** What `Complete` finds: the request is the first of the thread's batch. */
  predicate Completes(s: State, t: ThreadId, r: RequestId) {
    At(s, t).batch != [] && At(s, t).batch[0].r == r && r < |s.requests| && s.requests[r].place == Batched(t)
      && RequestOk(s, r)
  }

  predicate ClaimsError(s: State, t: ThreadId, r: RequestId)
    requires Completes(s, t, r)
  {
    At(s, t).batch[0].error.Some? && !s.waiters[s.requests[r].waiter].claimed
  }

  lemma CompleteClaims(s: State, t: ThreadId, r: RequestId, s': State)
    requires Completes(s, t, r) && ClaimsError(s, t, r) && Deliverer(s, t, At(s, t), Complete) == Some(s')
    ensures OneChanges(s, s', t, r) && DoingOk(s'.requests, At(s', t).doing, t) && RequestOk(s', r)
  {
    var c := At(s, t).batch[0];
    assert At(s', t).doing == Storing(c)
      && s'.requests[r] == s.requests[r].(runs := 1, error := c.error, place := Stores(t));
  }

  lemma CompleteCounts(s: State, t: ThreadId, r: RequestId, s': State)
    requires Completes(s, t, r) && !ClaimsError(s, t, r) && Deliverer(s, t, At(s, t), Complete) == Some(s')
    ensures OneChanges(s, s', t, r) && DoingOk(s'.requests, At(s', t).doing, t) && RequestOk(s', r)
  {
    var c := At(s, t).batch[0];
    assert At(s', t).doing == Counting(c)
      && s'.requests[r] == s.requests[r].(runs := 1, error := c.error, place := Counts(t));
  }

  lemma CompletePlaces(s: State, t: ThreadId, s': State)
    requires Places(s) && Deliverer(s, t, At(s, t), Complete) == Some(s')
    ensures Places(s')
  {
    var r := At(s, t).batch[0].r;
    assert ThreadOk(s.requests, At(s, t), t) && BatchIds(At(s, t).batch)[0] == r;
    if ClaimsError(s, t, r) {
      CompleteClaims(s, t, r, s');
    } else {
      CompleteCounts(s, t, r, s');
    }
    CompleteMoves(s, t, r, s');
    MovesKeep(s, s', t, {r});
  }

  lemma DoingPlaces(s: State, t: ThreadId, st: DeliverStep, s': State)
    requires Places(s) && !st.Complete? && Deliverer(s, t, At(s, t), st) == Some(s')
    ensures Places(s')
  {
    var r := At(s, t).doing.c.r;
    assert ThreadOk(s.requests, At(s, t), t);
    assert RequestOk(s, r);
    DoingMoves(s, t, r, s');
    MovesKeep(s, s', t, {r});
  }

  lemma FinishArrives(s: State, s': State, t: ThreadId, r: RequestId, outcome: Option<ErrorCode>)
    requires BackendOk(s) && r in s.accepted && RequestOk(s, r)
    requires s' ==
      s.(requests := Placed(s.requests, {r}, Ready), accepted := s.accepted - {r}, ready := s.ready[r := outcome])
    ensures Shifts(s, s', t, {r}) && BackendOk(s') && RequestOk(s', r)
  {
    Relocated(s, s', t, {r}, Ready);
  }

  lemma FinishMoves(s: State, t: ThreadId, r: RequestId, outcome: Option<ErrorCode>, s': State)
    requires ThreadOk(s.requests, At(s, t), t) && BackendOk(s) && r in s.accepted && RequestOk(s, r)
    requires Engine(s, Finish(r, outcome)) == Some(s')
    ensures Moves(s, s', t, {r})
  {
    FinishArrives(s, s', t, r, outcome);
    FinishHands(s.requests, At(s, t), t, r);
  }

  lemma FinishHands(requests: seq<Request>, th: Thread, t: ThreadId, r: RequestId)
    requires ThreadOk(requests, th, t) && r < |requests| && requests[r].place == Accepted
    ensures ThreadOk(Placed(requests, {r}, Ready), th, t)
  {
    NotIn(requests, r, ListOf(th), Listed(t));
    NotIn(requests, r, BatchIds(th.batch), Batched(t));
    ListStays(requests, {r}, Ready, ListOf(th), Listed(t));
    ListStays(requests, {r}, Ready, BatchIds(th.batch), Batched(t));
  }

  lemma EnginePlaces(s: State, t: ThreadId, st: EngineStep, s': State)
    requires Places(s) && Engine(s, st) == Some(s')
    ensures Places(s')
  {
    assert ThreadOk(s.requests, At(s, t), t);
    if st.Finish? {
      assert RequestOk(s, st.r);
      FinishMoves(s, t, st.r, st.outcome, s');
      MovesKeep(s, s', t, {st.r});
    } else {
      Stays(s, s', t);
      MovesKeep(s, s', t, {});
    }
  }

  /** Every step keeps every request in exactly one place. */
  lemma StepPlaces(s: State, t: ThreadId, st: Step, s': State)
    requires Places(s) && Next(s, t, st) == Some(s')
    ensures Places(s')
  {
    match st {
      case BySubmitter(submit) => SubmitterPlaces(s, t, submit, s');
      case ByReaper(reap) => ReaperPlaces(s, t, reap, s');
      case ByDelivery(deliver) =>
        if deliver.Complete? {
          CompletePlaces(s, t, s');
        } else {
          DoingPlaces(s, t, deliver, s');
        }
      case ByEngine(engine) => EnginePlaces(s, t, engine, s');
    }
  }
}
