/** The flush scheduler: a foreground and a background queue, workers that take
    batches from them, and a limit on how many foreground tasks a worker takes in a
    row while background tasks wait. */
module FlushScheduler {
  import opened Types

  type WorkerId = nat
  datatype Task = Task(id: nat, background: bool)

  datatype Queues = Queues(foreground: seq<Task>, background: seq<Task>)

  predicate IsEmpty(q: Queues) { q.foreground == [] && q.background == [] }

  /** The choice for one place of a batch, after `streak` foreground tasks. */
  function TakesBackground(q: Queues, streak: nat, limit: nat): bool {
    q.background != [] && (streak >= limit || q.foreground == [])
  }

  function NextTask(q: Queues, streak: nat, limit: nat): Task
    requires !IsEmpty(q)
  {
    if TakesBackground(q, streak, limit) then q.background[0] else q.foreground[0]
  }

  function Taken(q: Queues, streak: nat, limit: nat): Queues
    requires !IsEmpty(q)
  {
    if TakesBackground(q, streak, limit) then q.(background := q.background[1..])
    else q.(foreground := q.foreground[1..])
  }

  function Streak(q: Queues, streak: nat, limit: nat): nat {
    if TakesBackground(q, streak, limit) then 0 else streak + 1
  }

  /** Up to `n` choices in a row. */
  function TakenMany(q: Queues, streak: nat, limit: nat, n: nat): (seq<Task>, Queues, nat)
    decreases n
  {
    if n == 0 || IsEmpty(q) then ([], q, streak)
    else
      var (tasks, rest, last) := TakenMany(Taken(q, streak, limit), Streak(q, streak, limit), limit, n - 1);
      ([NextTask(q, streak, limit)] + tasks, rest, last)
  }

  class Scheduler {
    const batchSize: nat
    const burstLimit: nat
    var foreground: seq<Task>
    var background: seq<Task>
    var shutdown: bool

    constructor (batchSize: nat, burstLimit: nat)
      ensures this.batchSize == batchSize && this.burstLimit == burstLimit && IsEmpty(Now()) && !shutdown
    {
      this.batchSize, this.burstLimit, foreground, background, shutdown := batchSize, burstLimit, [], [], false;
    }

    function Now(): Queues
      reads this
    {
      Queues(foreground, background)
    }

    /** Each queue takes tasks at its end; none once the scheduler shuts down. */
    method Enqueue(task: Task) returns (accepted: bool)
      modifies this
      ensures accepted == !old(shutdown) && shutdown == old(shutdown)
      ensures foreground == if accepted && !task.background then old(foreground) + [task] else old(foreground)
      ensures background == if accepted && task.background then old(background) + [task] else old(background)
    {
      if shutdown {
        return false;
      }
      if task.background {
        background := background + [task];
      } else {
        foreground := foreground + [task];
      }
      return true;
    }

    /** The tasks of one batch, in the order they are picked. */
    method TakeNextBatch(streak: nat) returns (batch: seq<Task>, last: nat)
      modifies this
      ensures var taken := TakenMany(old(Now()), streak, burstLimit, batchSize);
        batch == taken.0 && Now() == taken.1 && last == taken.2
      ensures shutdown == old(shutdown)
    {
      batch, last := [], streak;
      ghost var all := TakenMany(Now(), streak, burstLimit, batchSize);
      while |batch| < batchSize
        invariant |batch| <= batchSize && shutdown == old(shutdown)
        invariant LeadsTo(Now(), last, burstLimit, batchSize - |batch|, batch, all)
        decreases batchSize - |batch|
      {
        ghost var q, before, streakBefore := Now(), batch, last;
        if background != [] && last >= burstLimit {
          batch, background, last := batch + [background[0]], background[1..], 0;
        } else if foreground != [] {
          batch, foreground, last := batch + [foreground[0]], foreground[1..], last + 1;
        } else if background == [] {
          break;
        } else {
          batch, background, last := batch + [background[0]], background[1..], 0;
        }
        assert batch == before + [NextTask(q, streakBefore, burstLimit)];
        assert Now() == Taken(q, streakBefore, burstLimit) && last == Streak(q, streakBefore, burstLimit);
        OneTaken(q, streakBefore, burstLimit, batchSize - |before|, before, all);
      }
    }
  }

  /** From here the choices complete the batch to `all`. */
  ghost predicate LeadsTo(q: Queues, streak: nat, limit: nat, n: nat, batch: seq<Task>, all: (seq<Task>, Queues, nat)) {
    var more := TakenMany(q, streak, limit, n);
    batch + more.0 == all.0 && more.1 == all.1 && more.2 == all.2
  }

  lemma OneTaken(q: Queues, streak: nat, limit: nat, n: nat, batch: seq<Task>, all: (seq<Task>, Queues, nat))
    requires n > 0 && !IsEmpty(q) && LeadsTo(q, streak, limit, n, batch, all)
    ensures LeadsTo(Taken(q, streak, limit), Streak(q, streak, limit), limit, n - 1,
      batch + [NextTask(q, streak, limit)], all)
  {
    var task, more :=
      NextTask(q, streak, limit), TakenMany(Taken(q, streak, limit), Streak(q, streak, limit), limit, n - 1);
    assert batch + ([task] + more.0) == batch + [task] + more.0;
  }

  // Workers over whole runs

  /** One pick, and whether a background task was waiting at that moment. */
  datatype Pick = Pick(task: Task, backgroundWaiting: bool)

  /** `working`: the batch is closed and its tasks are being completed. */
  datatype Worker = Worker(streak: nat, held: seq<Task>, working: bool, stopped: bool, picks: seq<Pick>)

  datatype State = State(
    queues: Queues,
    shutdown: bool,
    workers: seq<Worker>,
    limit: nat,
    batchSize: nat,
    accepted: seq<Task>,
    picked: seq<Task>,
    completed: seq<Task>)

  predicate Init(s: State) {
    && IsEmpty(s.queues) && !s.shutdown && s.accepted == [] && s.picked == [] && s.completed == []
    && forall w :: 0 <= w < |s.workers| ==> s.workers[w] == Worker(0, [], false, false, [])
  }

  datatype Step =
    | Enqueue(task: Task) | TakeOne(w: WorkerId) | CloseBatch(w: WorkerId) | CompleteOne(w: WorkerId)
    | Stop(w: WorkerId) | Shutdown

  function Next(s: State, st: Step): Option<State> {
    match st
    case Enqueue(task) =>
      // A task object is handed in once.
      if s.shutdown || task in s.accepted then None
      else Some(s.(accepted := s.accepted + [task],
                   queues := if task.background then s.queues.(background := s.queues.background + [task])
                             else s.queues.(foreground := s.queues.foreground + [task])))
    case TakeOne(w) =>
      if w < |s.workers| && !s.workers[w].stopped && !s.workers[w].working && |s.workers[w].held| < s.batchSize
         && !IsEmpty(s.queues) then
        var worker, task := s.workers[w], NextTask(s.queues, s.workers[w].streak, s.limit);
        Some(s.(queues := Taken(s.queues, worker.streak, s.limit), picked := s.picked + [task],
                workers := s.workers[w := worker.(streak := Streak(s.queues, worker.streak, s.limit),
                                                  held := worker.held + [task],
                                                  picks := worker.picks + [Pick(task, s.queues.background != [])])]))
      else None
    case CloseBatch(w) =>
      if w < |s.workers| && s.workers[w].held != [] then
        Some(s.(workers := s.workers[w := s.workers[w].(working := true)]))
      else None
    case CompleteOne(w) =>
      if w < |s.workers| && s.workers[w].working && s.workers[w].held != [] then
        var worker := s.workers[w];
        Some(s.(completed := s.completed + [worker.held[0]],
                workers := s.workers[w := worker.(held := worker.held[1..], working := |worker.held| > 1)]))
      else None
    case Stop(w) =>
      if w < |s.workers| && !s.workers[w].working && s.workers[w].held == [] && IsEmpty(s.queues) && s.shutdown then
        Some(s.(workers := s.workers[w := s.workers[w].(stopped := true)]))
      else None
    case Shutdown => Some(s.(shutdown := true))
  }

  /** The worker picks `n` times in a row. */
  function Takes(s: State, w: WorkerId, n: nat): Option<State>
    decreases n
  {
    if n == 0 then Some(s)
    else if Next(s, TakeOne(w)) == None then None
    else Takes(Next(s, TakeOne(w)).value, w, n - 1)
  }

  /** What a batch does to the worker, the queues and the order of picks. */
  ghost predicate HasBatch(s: State, s': State, w: WorkerId, taken: (seq<Task>, Queues, nat)) {
    && w < |s.workers| == |s'.workers| && s'.queues == taken.1 && s'.picked == s.picked + taken.0
    && s'.workers[w].held == s.workers[w].held + taken.0 && s'.workers[w].streak == taken.2
    && (forall v :: 0 <= v < |s.workers| && v != w ==> s'.workers[v] == s.workers[v])
    && s'.accepted == s.accepted && s'.completed == s.completed && s'.shutdown == s.shutdown
  }

  /** A batch is the picks that the worker makes while it holds the lock: they are all
      possible, they have the effect of the batch, and no further one is possible. */
  lemma {:induction false} BatchIsPicks(s: State, w: WorkerId, n: nat)
    requires w < |s.workers| && !s.workers[w].stopped && !s.workers[w].working
    requires |s.workers[w].held| + n == s.batchSize
    ensures var taken := TakenMany(s.queues, s.workers[w].streak, s.limit, n);
      && Takes(s, w, |taken.0|).Some? && HasBatch(s, Takes(s, w, |taken.0|).value, w, taken)
      && Next(Takes(s, w, |taken.0|).value, TakeOne(w)) == None
    decreases n
  {
    if n > 0 && !IsEmpty(s.queues) {
      var s', worker := Next(s, TakeOne(w)).value, s.workers[w];
      BatchIsPicks(s', w, n - 1);
      var task, more :=
        NextTask(s.queues, worker.streak, s.limit), TakenMany(s'.queues, s'.workers[w].streak, s.limit, n - 1);
      assert s.picked + [task] + more.0 == s.picked + ([task] + more.0);
      assert worker.held + [task] + more.0 == worker.held + ([task] + more.0);
    } else {
      assert TakenMany(s.queues, s.workers[w].streak, s.limit, n).0 == [];
      assert s.picked + [] == s.picked && s.workers[w].held + [] == s.workers[w].held;
    }
  }

  // First in, first out; nothing lost, nothing twice

  function Kind(tasks: seq<Task>, background: bool): seq<Task> {
    if tasks == [] then []
    else
      var last := tasks[|tasks| - 1];
      Kind(tasks[..|tasks| - 1], background) + if last.background == background then [last] else []
  }

  lemma KindOneMore(tasks: seq<Task>, task: Task, background: bool)
    ensures Kind(tasks + [task], background) == Kind(tasks, background) +
      if task.background == background then [task] else []
  {
    assert (tasks + [task])[..|tasks|] == tasks;
  }

  /** How often a task occurs. */
  function Count(tasks: seq<Task>, task: Task): nat {
    if tasks == [] then 0 else Count(tasks[1..], task) + if tasks[0] == task then 1 else 0
  }

  lemma {:induction false} CountJoined(a: seq<Task>, b: seq<Task>, task: Task)
    ensures Count(a + b, task) == Count(a, task) + Count(b, task)
  {
    if a == [] {
      assert a + b == b;
    } else {
      assert (a + b)[1..] == a[1..] + b;
      CountJoined(a[1..], b, task);
    }
  }

  lemma {:induction false} CountDistinct(tasks: seq<Task>, task: Task)
    requires Distinct(tasks)
    ensures Count(tasks, task) == if task in tasks then 1 else 0
  {
    if tasks != [] {
      CountDistinct(tasks[1..], task);
    }
  }

  function Held(workers: seq<Worker>, task: Task): nat {
    if workers == [] then 0 else Count(workers[0].held, task) + Held(workers[1..], task)
  }

  lemma {:induction false} HeldChanges(workers: seq<Worker>, w: nat, worker: Worker, task: Task)
    requires w < |workers|
    ensures Held(workers[w := worker], task) ==
      Held(workers, task) - Count(workers[w].held, task) + Count(worker.held, task)
  {
    var changed := workers[w := worker];
    if w == 0 {
      assert changed[1..] == workers[1..];
    } else {
      assert changed[1..] == workers[1..][w - 1 := worker];
      HeldChanges(workers[1..], w - 1, worker, task);
    }
  }

  lemma {:induction false} NothingHeld(workers: seq<Worker>, task: Task)
    requires forall w :: 0 <= w < |workers| ==> workers[w].held == []
    ensures Held(workers, task) == 0
  {
    if workers != [] {
      NothingHeld(workers[1..], task);
    }
  }

  /** How many foreground tasks the picks end with. */
  function Trailing(picks: seq<Pick>): nat {
    if picks == [] || picks[|picks| - 1].task.background then 0 else Trailing(picks[..|picks| - 1]) + 1
  }

  /** After `limit` foreground tasks in a row a waiting background task comes first. */
  ghost predicate Fair(picks: seq<Pick>, limit: nat) {
    forall k :: 0 <= k < |picks| && picks[k].backgroundWaiting && Trailing(picks[..k]) >= limit ==>
      picks[k].task.background
  }

  /** `drained`: nothing is queued and nothing more will be. */
  ghost predicate WorkerOk(worker: Worker, limit: nat, drained: bool) {
    && worker.streak == Trailing(worker.picks) && Fair(worker.picks, limit)
    && (worker.stopped ==> worker.held == [] && drained)
  }

  predicate Drained(s: State) { s.shutdown && IsEmpty(s.queues) }

  predicate Kinds(q: Queues) {
    && (forall i :: 0 <= i < |q.background| ==> q.background[i].background)
    && (forall i :: 0 <= i < |q.foreground| ==> !q.foreground[i].background)
  }

  function Waiting(q: Queues, background: bool): seq<Task> { if background then q.background else q.foreground }

  ghost predicate Fifo(s: State) {
    forall b :: Kind(s.accepted, b) == Kind(s.picked, b) + Waiting(s.queues, b)
  }

  function Places(s: State, task: Task): nat {
    Count(s.queues.foreground, task) + Count(s.queues.background, task)
    + Held(s.workers, task) + Count(s.completed, task)
  }

  /** Every accepted task is in one place. */
  ghost predicate Conserved(s: State) {
    forall task :: Count(s.accepted, task) == Places(s, task)
  }

  ghost predicate Crew(s: State) {
    forall w :: 0 <= w < |s.workers| ==> WorkerOk(s.workers[w], s.limit, Drained(s))
  }

  ghost predicate Distinct(tasks: seq<Task>) {
    forall i, j :: 0 <= i < j < |tasks| ==> tasks[i] != tasks[j]
  }

  ghost predicate Inv(s: State) {
    Kinds(s.queues) && Fifo(s) && Conserved(s) && Crew(s) && Distinct(s.accepted)
  }

  lemma FairOneMore(picks: seq<Pick>, pick: Pick, limit: nat)
    requires Fair(picks, limit) && (pick.backgroundWaiting && Trailing(picks) >= limit ==> pick.task.background)
    ensures Fair(picks + [pick], limit)
    ensures Trailing(picks + [pick]) == if pick.task.background then 0 else Trailing(picks) + 1
  {
    var more := picks + [pick];
    assert more[..|picks|] == picks;
    forall k | 0 <= k < |more| && more[k].backgroundWaiting && Trailing(more[..k]) >= limit
      ensures more[k].task.background
    {
      assert k < |picks| ==> more[..k] == picks[..k];
    }
  }

  /** The picking worker stays fair. */
  lemma TakeFair(q: Queues, worker: Worker, limit: nat)
    requires !IsEmpty(q) && Kinds(q) && worker.streak == Trailing(worker.picks) && Fair(worker.picks, limit)
    ensures var picks := worker.picks + [Pick(NextTask(q, worker.streak, limit), q.background != [])];
      Fair(picks, limit) && Trailing(picks) == Streak(q, worker.streak, limit)
  {
    var task := NextTask(q, worker.streak, limit);
    assert task.background <==> TakesBackground(q, worker.streak, limit);
    FairOneMore(worker.picks, Pick(task, q.background != []), limit);
  }

  lemma TakeCrew(s: State, w: WorkerId, s': State)
    requires Kinds(s.queues) && Crew(s) && Next(s, TakeOne(w)) == Some(s')
    ensures Crew(s')
  {
    assert WorkerOk(s.workers[w], s.limit, Drained(s));
    TakeFair(s.queues, s.workers[w], s.limit);
    assert !Drained(s) && s'.limit == s.limit;
    forall v | 0 <= v < |s'.workers| ensures WorkerOk(s'.workers[v], s'.limit, Drained(s')) {
      assert WorkerOk(s.workers[v], s.limit, Drained(s));
    }
  }

  lemma OtherCrew(s: State, st: Step, s': State)
    requires Crew(s) && Next(s, st) == Some(s') && !st.TakeOne?
    ensures Crew(s')
  {
    forall v | 0 <= v < |s'.workers| ensures WorkerOk(s'.workers[v], s'.limit, Drained(s')) {
      assert WorkerOk(s.workers[v], s.limit, Drained(s));
    }
  }

  lemma EnqueueFifo(s: State, task: Task, s': State)
    requires Kinds(s.queues) && Fifo(s) && Next(s, Enqueue(task)) == Some(s')
    ensures Fifo(s') && Kinds(s'.queues)
  {
    forall b ensures Kind(s'.accepted, b) == Kind(s'.picked, b) + Waiting(s'.queues, b) {
      KindOneMore(s.accepted, task, b);
      assert Waiting(s'.queues, b) == Waiting(s.queues, b) + if task.background == b then [task] else [];
    }
  }

  lemma TakeFifo(s: State, w: WorkerId, s': State)
    requires Kinds(s.queues) && Fifo(s) && Next(s, TakeOne(w)) == Some(s')
    ensures Fifo(s') && Kinds(s'.queues)
  {
    var worker := s.workers[w];
    var task := NextTask(s.queues, worker.streak, s.limit);
    forall b ensures Kind(s'.accepted, b) == Kind(s'.picked, b) + Waiting(s'.queues, b) {
      KindOneMore(s.picked, task, b);
      TakenFirst(s.queues, worker.streak, s.limit, b);
      Regroup(Kind(s.picked, b), if task.background == b then [task] else [], Waiting(s'.queues, b));
    }
    TakenFirst(s.queues, worker.streak, s.limit, true);
  }

  lemma Regroup(a: seq<Task>, b: seq<Task>, c: seq<Task>)
    ensures a + (b + c) == a + b + c
  {
  }

  lemma TakenFirst(q: Queues, streak: nat, limit: nat, b: bool)
    requires Kinds(q) && !IsEmpty(q)
    ensures Kinds(Taken(q, streak, limit))
    ensures var task := NextTask(q, streak, limit);
      Waiting(q, b) == (if task.background == b then [task] else []) + Waiting(Taken(q, streak, limit), b)
  {
  }

  lemma EnqueueConserves(s: State, task: Task, s': State, t: Task)
    requires Count(s.accepted, t) == Places(s, t) && Next(s, Enqueue(task)) == Some(s')
    ensures Count(s'.accepted, t) == Places(s', t)
  {
    CountJoined(s.accepted, [task], t);
    CountJoined(Waiting(s.queues, task.background), [task], t);
  }

  lemma TakeConserves(s: State, w: WorkerId, s': State, t: Task)
    requires Count(s.accepted, t) == Places(s, t) && Next(s, TakeOne(w)) == Some(s')
    ensures Count(s'.accepted, t) == Places(s', t)
  {
    var worker := s.workers[w];
    var task := NextTask(s.queues, worker.streak, s.limit);
    HeldChanges(s.workers, w, s'.workers[w], t);
    CountJoined(worker.held, [task], t);
  }

  lemma CompleteConserves(s: State, w: WorkerId, s': State, t: Task)
    requires Count(s.accepted, t) == Places(s, t) && Next(s, CompleteOne(w)) == Some(s')
    ensures Count(s'.accepted, t) == Places(s', t)
  {
    HeldChanges(s.workers, w, s'.workers[w], t);
    CountJoined(s.completed, [s.workers[w].held[0]], t);
  }

  lemma StepConserves(s: State, st: Step, s': State, t: Task)
    requires Count(s.accepted, t) == Places(s, t) && Next(s, st) == Some(s')
    ensures Count(s'.accepted, t) == Places(s', t)
  {
    match st {
      case Enqueue(task) => EnqueueConserves(s, task, s', t);
      case TakeOne(w) => TakeConserves(s, w, s', t);
      case CompleteOne(w) => CompleteConserves(s, w, s', t);
      case Shutdown =>
      case _ => HeldChanges(s.workers, st.w, s'.workers[st.w], t);
    }
  }

  lemma StepKeeps(s: State, st: Step, s': State)
    requires Inv(s) && Next(s, st) == Some(s')
    ensures Inv(s')
  {
    forall t ensures Count(s'.accepted, t) == Places(s', t) {
      StepConserves(s, st, s', t);
    }
    if st.Enqueue? {
      EnqueueFifo(s, st.task, s');
      OtherCrew(s, st, s');
    } else if st.TakeOne? {
      TakeFifo(s, st.w, s');
      TakeCrew(s, st.w, s');
    } else {
      OtherCrew(s, st, s');
    }
  }

  ghost predicate IsRun(run: seq<State>) {
    && run != [] && Init(run[0])
    && forall i :: 0 <= i < |run| - 1 ==> exists st :: Next(run[i], st) == Some(run[i + 1])
  }

  lemma {:induction false} RunInv(run: seq<State>, i: nat)
    requires IsRun(run) && i < |run|
    ensures Inv(run[i])
  {
    if i == 0 {
      forall t ensures Count(run[0].accepted, t) == Places(run[0], t) {
        NothingHeld(run[0].workers, t);
      }
    } else {
      RunInv(run, i - 1);
      var st :| Next(run[i - 1], st) == Some(run[i - 1 + 1]);
      StepKeeps(run[i - 1], st, run[i]);
    }
  }

  /** Each queue is served in the order its tasks were accepted. */
  lemma QueuesAreFifo(run: seq<State>, i: nat, background: bool)
    requires IsRun(run) && i < |run|
    ensures Kind(run[i].picked, background) <= Kind(run[i].accepted, background)
  {
    RunInv(run, i);
  }

  /** When all workers have stopped, every accepted task has been completed exactly
      once; before that none is completed twice. */
  lemma CompletedExactlyOnce(run: seq<State>, i: nat, task: Task)
    requires IsRun(run) && i < |run| && |run[i].workers| > 0
    ensures Count(run[i].completed, task) <= if task in run[i].accepted then 1 else 0
    ensures (forall w :: 0 <= w < |run[i].workers| ==> run[i].workers[w].stopped) ==>
      Count(run[i].completed, task) == if task in run[i].accepted then 1 else 0
  {
    var s := run[i];
    RunInv(run, i);
    CountDistinct(s.accepted, task);
    assert Count(s.accepted, task) == Places(s, task);
    if forall w :: 0 <= w < |s.workers| ==> s.workers[w].stopped {
      forall w | 0 <= w < |s.workers| ensures s.workers[w].held == [] {
        assert WorkerOk(s.workers[w], s.limit, Drained(s));
      }
      NothingHeld(s.workers, task);
      assert WorkerOk(s.workers[0], s.limit, Drained(s));
    }
  }

  /** Among `limit + 1` picks of a worker in a row, with a background task waiting at
      each, one is a background task. */
  lemma BackgroundIsServed(run: seq<State>, i: nat, w: WorkerId, first: nat)
    requires IsRun(run) && i < |run| && w < |run[i].workers| && first + run[i].limit < |run[i].workers[w].picks|
    requires forall k :: first <= k <= first + run[i].limit ==> run[i].workers[w].picks[k].backgroundWaiting
    ensures exists k :: first <= k <= first + run[i].limit && run[i].workers[w].picks[k].task.background
  {
    RunInv(run, i);
    var picks, limit := run[i].workers[w].picks, run[i].limit;
    assert WorkerOk(run[i].workers[w], run[i].limit, Drained(run[i]));
    if forall k :: first <= k < first + limit ==> !picks[k].task.background {
      LongStreak(picks, first, first + limit);
      assert picks[first + limit].backgroundWaiting;
    }
  }

  lemma {:induction false} LongStreak(picks: seq<Pick>, first: nat, end: nat)
    requires first <= end <= |picks| && forall k :: first <= k < end ==> !picks[k].task.background
    ensures Trailing(picks[..end]) >= end - first
    decreases end
  {
    if first < end {
      LongStreak(picks, first, end - 1);
      assert picks[..end][..end - 1] == picks[..end - 1];
    }
  }
}
