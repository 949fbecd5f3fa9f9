/** The database thread pool: keyed tasks go to the worker of their key, other tasks go round robin, every worker
    runs its own queue first in first out, and the destructor lets each worker empty its queue. A critical section
    under a worker's mutex is one step: putting a task in, setting stop, and the worker's check of its wait condition
    together with taking a task, leaving, or falling asleep. The notify that follows a critical section is a step of
    its own. */
module DbThreadPool {
  import opened Options

  const SIZE_T := 0x1_0000_0000_0000_0000

  datatype Task = Task(key: Option<nat>, id: nat)

  datatype WorkerPc =
    | Checking                 // about to look at stop and queue under the mutex
    | Asleep                   // in the condition variable
    | HoldTask(task: Task)     // took it from the queue; connecting or about to run it
    | Exited

  // One worker. `owed` counts the callers that have left its mutex and not yet notified it. Two histories: every task
  // ever put into its queue and every task it has run.
  datatype Worker = Worker(queue: seq<Task>, pc: WorkerPc, stop: bool, owed: nat, routed: seq<Task>, done: seq<Task>)

  datatype Pool = Pool(
    workers: seq<Worker>,
    nextWorker: nat,           // a size_t: wraps
    closing: bool,             // the destructor has begun: nobody pushes any more
    pushed: seq<Task>,         // history
    gaveUp: bool)              // history: some worker dropped work because the database was unreachable

  datatype Action =
    | PushKeyed(key: nat, id: nat)
    | PushRoundRobin(id: nat)
    | Notify(w: nat)
    | WakeByItself(w: nat)     // condition variables may
    | Check(w: nat)
    | RunTask(w: nat)          // also when the task throws: the worker catches and goes on
    | GiveUp(w: nat)           // no connection while stopping: the remaining tasks are dropped
    | BeginDestructor
    | SignalStop(w: nat)

  function Init(threadCount: nat): Pool {
    var n := if threadCount == 0 then 1 else threadCount;
    Pool(seq(n, _ => Worker([], Checking, false, 0, [], [])), 0, false, [], false)
  }

  // The worker that gets the n-th round-robin task, or the tasks of key n.
  function Route(n: nat, workers: nat): (w: nat)
    requires workers > 0
    ensures w < workers
  {
    n % workers
  }

  function Enqueue(s: Pool, w: nat, task: Task): Pool
    requires w < |s.workers|
  {
    var x := s.workers[w];
    s.(workers := s.workers[w := x.(queue := x.queue + [task], routed := x.routed + [task], owed := x.owed + 1)],
       pushed := s.pushed + [task])
  }

  function WorkerMove(s: Pool, w: nat, x: Worker): Pool
    requires w < |s.workers|
  {
    s.(workers := s.workers[w := x])
  }

  function Woken(x: Worker): Worker {
    if x.pc.Asleep? then x.(pc := Checking) else x
  }

  // The wait condition, and what comes after it, in one critical section.
  function Checked(x: Worker): Worker {
    if x.queue != [] then x.(queue := x.queue[1..], pc := HoldTask(x.queue[0]))
    else if x.stop then x.(pc := Exited)
    else x.(pc := Asleep)
  }

  // What a step makes of one worker, when it is a step of that worker or of somebody notifying or stopping it.
  function WorkerStep(x: Worker, a: Action, closing: bool): Option<Worker> {
    match a
    case Notify(_) => if x.owed == 0 then None else Some(Woken(x.(owed := x.owed - 1)))
    case WakeByItself(_) => if x.pc.Asleep? then Some(x.(pc := Checking)) else None
    case Check(_) => if x.pc.Checking? then Some(Checked(x)) else None
    case RunTask(_) => if x.pc.HoldTask? then Some(x.(pc := Checking, done := x.done + [x.pc.task])) else None
    case GiveUp(_) => if x.pc.HoldTask? && x.stop then Some(x.(pc := Exited)) else None
    case SignalStop(_) => if closing && !x.stop then Some(x.(stop := true, owed := x.owed + 1)) else None
    case _ => None
  }

  function Step(s: Pool, a: Action): Option<Pool> {
    if |s.workers| == 0 then None else
    match a
    case PushKeyed(key, id) => if s.closing then None
      else Some(Enqueue(s, Route(key, |s.workers|), Task(Some(key), id)))
    case PushRoundRobin(id) =>
      if s.closing then None
      else Some(Enqueue(s, Route(s.nextWorker, |s.workers|),
        Task(None, id)).(nextWorker := (s.nextWorker + 1) % SIZE_T))
    case BeginDestructor => Some(s.(closing := true))
    case _ =>
      if a.w >= |s.workers| then None
      else match WorkerStep(s.workers[a.w], a, s.closing)
        case None => None
        case Some(y) => Some(WorkerMove(s, a.w, y).(gaveUp := s.gaveUp || a.GiveUp?))
  }

  function Run(s: Pool, schedule: seq<Action>): Option<Pool>
    decreases |schedule|
  {
    if schedule == [] then Some(s)
    else match Step(s, schedule[0])
      case None => None
      case Some(next) => Run(next, schedule[1..])
  }

  // ------------------------------------------------------------------------------------------------ invariant

  // The tasks with key k, in order.
  function WithKey(tasks: seq<Task>, k: nat): seq<Task> {
    if tasks == [] then []
    else WithKey(tasks[..|tasks| - 1], k)
         + if tasks[|tasks| - 1].key == Some(k) then [tasks[|tasks| - 1]] else []
  }

  lemma {:induction false} WithKeyConcat(a: seq<Task>, b: seq<Task>, k: nat)
    ensures WithKey(a + b, k) == WithKey(a, k) + WithKey(b, k)
  {
    if b == [] {
      assert a + b == a;
    } else {
      var last := |b| - 1;
      WithKeyConcat(a, b[..last], k);
      assert (a + b)[..|a + b| - 1] == a + b[..last];
    }
  }

  function Held(x: Worker): seq<Task> {
    if x.pc.HoldTask? then [x.pc.task] else []
  }

  ghost predicate WorkerInv(x: Worker, w: nat, workers: nat, gaveUp: bool)
    requires workers > 0
  {
    && (x.pc.Exited? && !gaveUp ==> x.queue == [])
    && (if x.pc.Exited? && gaveUp then x.done <= x.routed else x.routed == x.done + Held(x) + x.queue)
    && (forall t | t in x.routed && t.key.Some? :: Route(t.key.value, workers) == w)
  }

  ghost predicate Inv(s: Pool) {
    && |s.workers| > 0
    && (forall w | 0 <= w < |s.workers| :: WorkerInv(s.workers[w], w, |s.workers|, s.gaveUp))
    && (forall k: nat :: WithKey(s.pushed, k) == WithKey(s.workers[Route(k, |s.workers|)].routed, k))
  }

  lemma WithKeySnoc(tasks: seq<Task>, task: Task, k: nat)
    ensures WithKey(tasks + [task], k) == WithKey(tasks, k) + if task.key == Some(k) then [task] else []
  {
    assert (tasks + [task])[..|tasks|] == tasks;
  }

  lemma EnqueueKeepsInv(s: Pool, w: nat, task: Task)
    requires Inv(s) && w < |s.workers| && (task.key.Some? ==> Route(task.key.value, |s.workers|) == w)
    requires !s.workers[w].pc.Exited?
    ensures Inv(Enqueue(s, w, task))
  {
    var n := |s.workers|;
    var next := Enqueue(s, w, task);
    var x, y := s.workers[w], next.workers[w];
    assert WorkerInv(y, w, n, s.gaveUp) by {
      assert x.done + Held(x) + (x.queue + [task]) == (x.done + Held(x) + x.queue) + [task];
    }
    forall k: nat ensures WithKey(next.pushed, k) == WithKey(next.workers[Route(k, n)].routed, k) {
      WithKeySnoc(s.pushed, task, k);
      WithKeySnoc(x.routed, task, k);
      assert WithKey(s.pushed, k) == WithKey(s.workers[Route(k, n)].routed, k);
    }
  }

  ghost predicate StopInv(s: Pool) {
    forall w | 0 <= w < |s.workers| :: (s.workers[w].stop ==> s.closing)
      && (s.workers[w].pc.Exited? ==> s.workers[w].stop)
  }

  // A worker that moves without anything new being routed to it.
  lemma WorkerMoveKeepsInv(s: Pool, w: nat, y: Worker, gaveUp: bool)
    requires Inv(s) && w < |s.workers| && y.routed == s.workers[w].routed
    requires WorkerInv(y, w, |s.workers|, gaveUp) && (s.gaveUp ==> gaveUp)
    ensures Inv(WorkerMove(s, w, y).(gaveUp := gaveUp))
  {
    var next := WorkerMove(s, w, y).(gaveUp := gaveUp);
    forall v | 0 <= v < |s.workers| ensures WorkerInv(next.workers[v], v, |s.workers|, gaveUp) {
      assert WorkerInv(s.workers[v], v, |s.workers|, s.gaveUp);
    }
    forall k: nat ensures WithKey(next.pushed, k) == WithKey(next.workers[Route(k, |s.workers|)].routed, k) {
      assert WithKey(s.pushed, k) == WithKey(s.workers[Route(k, |s.workers|)].routed, k);
    }
  }

  lemma WorkerStepKeepsInv(x: Worker, a: Action, closing: bool, w: nat, workers: nat, gaveUp: bool)
    requires workers > 0 && WorkerInv(x, w, workers, gaveUp) && WorkerStep(x, a, closing).Some?
    ensures WorkerInv(WorkerStep(x, a, closing).value, w, workers, gaveUp || a.GiveUp?)
    ensures WorkerStep(x, a, closing).value.routed == x.routed
  {
    if a.Check? && x.queue != [] {
      assert x.done + Held(x) + x.queue == x.done + [x.queue[0]] + x.queue[1..];
    }
  }

  lemma StepKeepsInv(s: Pool, a: Action)
    requires Inv(s) && StopInv(s) && Step(s, a).Some?
    ensures Inv(Step(s, a).value)
  {
    hide WorkerInv, WorkerStep;
    match a
    case PushKeyed(key, id) => EnqueueKeepsInv(s, Route(key, |s.workers|), Task(Some(key), id));
    case PushRoundRobin(id) => EnqueueKeepsInv(s, Route(s.nextWorker, |s.workers|), Task(None, id));
    case BeginDestructor =>
    case _ =>
      var y := WorkerStep(s.workers[a.w], a, s.closing).value;
      WorkerStepKeepsInv(s.workers[a.w], a, s.closing, a.w, |s.workers|, s.gaveUp);
      WorkerMoveKeepsInv(s, a.w, y, s.gaveUp || a.GiveUp?);
  }

  // A worker that sleeps on a task, or on stop, is owed a notify.
  ghost predicate WakeInv(s: Pool) {
    forall w | 0 <= w < |s.workers| :: IsOwed(s.workers[w])
  }

  predicate IsOwed(x: Worker) {
    x.pc.Asleep? && (x.queue != [] || x.stop) ==> x.owed > 0
  }

  lemma StepKeepsStopInv(s: Pool, a: Action)
    requires StopInv(s) && WakeInv(s) && Step(s, a).Some?
    ensures StopInv(Step(s, a).value) && WakeInv(Step(s, a).value)
  {
  }

  lemma {:induction false} RunKeepsInv(s: Pool, schedule: seq<Action>)
    requires Inv(s) && StopInv(s) && WakeInv(s) && Run(s, schedule).Some?
    ensures var end := Run(s, schedule).value; Inv(end) && StopInv(end) && WakeInv(end)
    decreases |schedule|
  {
    if schedule != [] {
      StepKeepsInv(s, schedule[0]);
      StepKeepsStopInv(s, schedule[0]);
      RunKeepsInv(Step(s, schedule[0]).value, schedule[1..]);
    }
  }

  // ------------------------------------------------------------------------------------------------ theorems

  // What one worker has run, holds and has queued of a key's tasks.
  lemma KeyOfWorker(x: Worker, w: nat, workers: nat, gaveUp: bool, k: nat)
    requires workers > 0 && WorkerInv(x, w, workers, gaveUp)
    ensures WithKey(x.done, k) <= WithKey(x.routed, k)
    ensures !gaveUp ==> WithKey(x.routed, k) == WithKey(x.done, k) + WithKey(Held(x), k) + WithKey(x.queue, k)
    ensures w != Route(k, workers) ==> WithKey(x.done, k) == []
  {
    assert x.done <= x.routed;
    assert x.routed == x.done + x.routed[|x.done|..];
    WithKeyConcat(x.done, x.routed[|x.done|..], k);
    WithKeyConcat(x.done + Held(x), x.queue, k);
    WithKeyConcat(x.done, Held(x), k);
    if w != Route(k, workers) {
      NoneWithKey(x.done, k);
    }
  }

  // Whatever else is pushed in between, the tasks of one key run in push order: those that have run are a prefix of
  // those pushed, and all of them ran on the one worker of that key.
  lemma KeyedTasksRunInPushOrder(s: Pool, threadCount: nat, schedule: seq<Action>, k: nat)
    requires Run(Init(threadCount), schedule) == Some(s)
    ensures |s.workers| > 0
    ensures WithKey(s.workers[Route(k, |s.workers|)].done, k) <= WithKey(s.pushed, k)
    ensures forall w | 0 <= w < |s.workers| && w != Route(k, |s.workers|) :: WithKey(s.workers[w].done, k) == []
    ensures !s.gaveUp ==> var x := s.workers[Route(k, |s.workers|)];
              WithKey(s.pushed, k) == WithKey(x.done, k) + WithKey(Held(x), k) + WithKey(x.queue, k)
  {
    RunKeepsInv(Init(threadCount), schedule);
    hide Run, Step, WorkerInv, WithKey, Route, Held;
    forall w | 0 <= w < |s.workers|
      ensures WithKey(s.workers[w].done, k) <= WithKey(s.workers[w].routed, k)
      ensures !s.gaveUp ==> var x := s.workers[w];
                WithKey(x.routed, k) == WithKey(x.done, k) + WithKey(Held(x), k) + WithKey(x.queue, k)
      ensures w != Route(k, |s.workers|) ==> WithKey(s.workers[w].done, k) == []
    {
      KeyOfWorker(s.workers[w], w, |s.workers|, s.gaveUp, k);
    }
  }

  lemma {:induction false} NoneWithKey(tasks: seq<Task>, k: nat)
    requires forall t | t in tasks :: t.key != Some(k)
    ensures WithKey(tasks, k) == []
  {
    if tasks != [] {
      assert tasks[|tasks| - 1] in tasks;
      NoneWithKey(tasks[..|tasks| - 1], k);
    }
  }

  // Two tasks of one key are never in hand at the same time.
  lemma OneTaskPerKeyAtATime(s: Pool, threadCount: nat, schedule: seq<Action>, v: nat, w: nat)
    requires Run(Init(threadCount), schedule) == Some(s)
    requires v < |s.workers| && w < |s.workers| && s.workers[v].pc.HoldTask? && s.workers[w].pc.HoldTask?
    requires s.workers[v].pc.task.key.Some? && s.workers[v].pc.task.key == s.workers[w].pc.task.key
    ensures v == w
  {
    RunKeepsInv(Init(threadCount), schedule);
    assert s.workers[v].pc.task in s.workers[v].done + Held(s.workers[v]) + s.workers[v].queue;
    assert s.workers[w].pc.task in s.workers[w].done + Held(s.workers[w]) + s.workers[w].queue;
  }

  // No lost wakeup: whenever nothing is left to do but for spurious wakeups and new calls, every queue is empty, nobody
  // holds a task, and a worker that was told to stop has left.
  ghost predicate IsStuck(s: Pool) {
    forall w | 0 <= w < |s.workers| ::
      Step(s, Notify(w)).None? && Step(s, Check(w)).None? && Step(s, RunTask(w)).None?
  }

  lemma StuckMeansDone(s: Pool, threadCount: nat, schedule: seq<Action>)
    requires Run(Init(threadCount), schedule) == Some(s) && IsStuck(s) && !s.gaveUp
    ensures forall w | 0 <= w < |s.workers| ::
              var x := s.workers[w];
              x.queue == [] && x.done == x.routed && (if x.stop then x.pc.Exited? else x.pc.Asleep?)
  {
    RunKeepsInv(Init(threadCount), schedule);
    forall w | 0 <= w < |s.workers|
      ensures var x := s.workers[w];
              x.queue == [] && x.done == x.routed && (if x.stop then x.pc.Exited? else x.pc.Asleep?)
    {
      assert Step(s, Notify(w)).None? && Step(s, Check(w)).None? && Step(s, RunTask(w)).None?;
      assert WorkerInv(s.workers[w], w, |s.workers|, s.gaveUp);
      assert IsOwed(s.workers[w]);
    }
  }

  // How much the workers still have to do.
  function Work(x: Worker): nat {
    3 * |x.queue| + 2 * x.owed + (if x.pc.HoldTask? then 2 else if x.pc.Checking? then 1 else 0)
  }

  function WorkOf(workers: seq<Worker>): nat {
    if workers == [] then 0 else Work(workers[0]) + WorkOf(workers[1..])
  }

  lemma {:induction false} WorkOfUpdate(workers: seq<Worker>, w: nat, y: Worker)
    requires w < |workers|
    ensures WorkOf(workers[w := y]) == WorkOf(workers) - Work(workers[w]) + Work(y)
    decreases |workers|
  {
    if w == 0 {
      assert workers[w := y][1..] == workers[1..];
    } else {
      WorkOfUpdate(workers[1..], w - 1, y);
      assert workers[w := y][1..] == workers[1..][w - 1 := y];
    }
  }

  predicate IsProgress(a: Action) {
    a.Notify? || a.Check? || a.RunTask?
  }

  lemma ProgressWorksOff(s: Pool, a: Action)
    requires IsProgress(a) && Step(s, a).Some?
    ensures WorkOf(Step(s, a).value.workers) < WorkOf(s.workers)
  {
    WorkOfUpdate(s.workers, a.w, Step(s, a).value.workers[a.w]);
  }

  // Left to themselves the workers come to an end: no run of their steps is longer than the work there is.
  lemma {:induction false} ProgressEnds(s: Pool, schedule: seq<Action>)
    requires Run(s, schedule).Some? && forall i | 0 <= i < |schedule| :: IsProgress(schedule[i])
    ensures |schedule| <= WorkOf(s.workers)
    decreases |schedule|
  {
    if schedule != [] {
      ProgressWorksOff(s, schedule[0]);
      ProgressEnds(Step(s, schedule[0]).value, schedule[1..]);
    }
  }

  lemma ProgressKeepsStop(s: Pool, a: Action)
    requires IsProgress(a) && Step(s, a).Some?
    ensures var next := Step(s, a).value;
            && next.gaveUp == s.gaveUp && next.pushed == s.pushed && |next.workers| == |s.workers|
            && forall w | 0 <= w < |s.workers| :: next.workers[w].stop == s.workers[w].stop
  {
  }

  // A worker that can do something, if there is one.
  lemma SomeoneCanGoOn(s: Pool) returns (a: Action)
    requires !IsStuck(s)
    ensures IsProgress(a) && Step(s, a).Some?
  {
    var w :| 0 <= w < |s.workers|
      && !(Step(s, Notify(w)).None? && Step(s, Check(w)).None? && Step(s, RunTask(w)).None?);
    a := if Step(s, Notify(w)).Some? then Notify(w) else if Step(s, Check(w)).Some? then Check(w) else RunTask(w);
  }

  lemma {:induction false} RunSnoc(s: Pool, schedule: seq<Action>, a: Action)
    requires Run(s, schedule).Some?
    ensures Run(s, schedule + [a]) == Step(Run(s, schedule).value, a)
    decreases |schedule|
  {
    if schedule == [] {
      assert schedule + [a] == [a] && [a][1..] == [];
    } else {
      RunSnoc(Step(s, schedule[0]).value, schedule[1..], a);
      assert (schedule + [a])[1..] == schedule[1..] + [a];
    }
  }

  // Once every worker has been told to stop, and with the database reachable, the workers do exit, each having run
  // exactly the tasks it was given, in order: however they take turns, they end there and nowhere else.
  lemma {:induction false} ShutdownRunsEverything(s: Pool, threadCount: nat, schedule: seq<Action>)
    returns (rest: seq<Action>, end: Pool)
    requires Run(Init(threadCount), schedule) == Some(s) && !s.gaveUp
    requires forall w | 0 <= w < |s.workers| :: s.workers[w].stop
    ensures (forall i | 0 <= i < |rest| :: IsProgress(rest[i])) && Run(Init(threadCount), schedule + rest) == Some(end)
    ensures AllRan(end) && end.pushed == s.pushed
    decreases WorkOf(s.workers)
  {
    if IsStuck(s) {
      EveryShutdownRunsEverything(s, threadCount, schedule);
      rest, end := [], s;
      assert schedule + rest == schedule;
    } else {
      var a := SomeoneCanGoOn(s);
      var next := Step(s, a).value;
      ProgressWorksOff(s, a);
      ProgressKeepsStop(s, a);
      hide Step, Run, AllRan;
      RunSnoc(Init(threadCount), schedule, a);
      rest, end := ShutdownRunsEverything(next, threadCount, schedule + [a]);
      assert schedule + [a] + rest == schedule + ([a] + rest);
      rest := [a] + rest;
    }
  }

  // Everybody has left, and every task pushed has been run by its worker.
  ghost predicate AllRan(s: Pool) {
    && |s.workers| > 0
    && (forall w | 0 <= w < |s.workers| :: s.workers[w].pc.Exited? && s.workers[w].done == s.workers[w].routed)
    && forall k: nat :: WithKey(s.workers[Route(k, |s.workers|)].done, k) == WithKey(s.pushed, k)
  }

  // Whoever takes which turn: when no worker can go on any more, all is run.
  lemma EveryShutdownRunsEverything(s: Pool, threadCount: nat, schedule: seq<Action>)
    requires Run(Init(threadCount), schedule) == Some(s) && !s.gaveUp && IsStuck(s)
    requires forall w | 0 <= w < |s.workers| :: s.workers[w].stop
    ensures AllRan(s)
  {
    StuckMeansDone(s, threadCount, schedule);
    RunKeepsInv(Init(threadCount), schedule);
  }
  // ------------------------------------------------------------------------------------------------ who gets what

  // The tasks that the calls of a schedule send to worker w of n: those of its keys, and every n-th of the others,
  // beginning with number `turn`; the number is a size_t.
  function SentTo(schedule: seq<Action>, w: nat, n: nat, turn: nat): seq<Task>
    requires n > 0
    decreases |schedule|
  {
    if schedule == [] then []
    else match schedule[0]
      case PushKeyed(key, id) =>
        (if key % n == w then [Task(Some(key), id)] else []) + SentTo(schedule[1..], w, n, turn)
      case PushRoundRobin(id) =>
        (if turn % n == w then [Task(None, id)] else []) + SentTo(schedule[1..], w, n, (turn + 1) % SIZE_T)
      case _ => SentTo(schedule[1..], w, n, turn)
  }

  lemma StepRoutes(s: Pool, a: Action, w: nat)
    requires Step(s, a).Some? && w < |s.workers|
    ensures var next := Step(s, a).value;
            && |next.workers| == |s.workers|
            && next.nextWorker == (if a.PushRoundRobin? then (s.nextWorker + 1) % SIZE_T else s.nextWorker)
            && next.workers[w].routed == s.workers[w].routed + SentTo([a], w, |s.workers|, s.nextWorker)
  {
    assert [a][1..] == [];
    if !a.PushKeyed? && !a.PushRoundRobin? && !a.BeginDestructor? {
      assert s.workers[a.w].routed == WorkerStep(s.workers[a.w], a, s.closing).value.routed;
    }
  }

  lemma {:induction false} RunKeepsSize(s: Pool, schedule: seq<Action>)
    requires Run(s, schedule).Some?
    ensures |Run(s, schedule).value.workers| == |s.workers|
    decreases |schedule|
  {
    if schedule != [] {
      RunKeepsSize(Step(s, schedule[0]).value, schedule[1..]);
    }
  }

  lemma {:induction false} RunRoutes(s: Pool, schedule: seq<Action>, w: nat)
    requires Run(s, schedule).Some? && w < |s.workers|
    ensures var end := Run(s, schedule).value;
            && |end.workers| == |s.workers|
            && end.workers[w].routed == s.workers[w].routed + SentTo(schedule, w, |s.workers|, s.nextWorker)
    decreases |schedule|
  {
    hide Step;
    if schedule != [] {
      var a := schedule[0];
      StepRoutes(s, a, w);
      assert [a][1..] == [];
      RunRoutes(Step(s, a).value, schedule[1..], w);
    }
  }

  // Every task goes to the worker that its key or its turn names, in the order of the calls, and no other; what is
  // round robin goes round.
  lemma EveryTaskIsRouted(s: Pool, threadCount: nat, schedule: seq<Action>, w: nat)
    requires Run(Init(threadCount), schedule) == Some(s) && w < |s.workers|
    ensures |s.workers| == (if threadCount == 0 then 1 else threadCount)
    ensures s.workers[w].routed == SentTo(schedule, w, |s.workers|, 0)
  {
    RunKeepsSize(Init(threadCount), schedule);
    RunRoutes(Init(threadCount), schedule, w);
  }
}
