/** What the workers of the pool get done: a search looks everywhere and finds what there is, a worker with nothing to
    do goes to sleep, and after Stop every worker leaves. */
module WorkStealingProgress {
  import opened Counting
  import opened Options
  import opened WorkStealingQueues
  import opened WorkStealingPool

  // ---------------------------------------------------------------------------------------------- runs, piece by piece

  lemma {:induction false} RunSnoc(s: Pool, schedule: seq<Action>, a: Action)
    ensures Run(s, schedule + [a])
         == match Run(s, schedule)
            case None => None
            case Some(t) => Step(t, a)
    decreases |schedule|
  {
    hide Step;
    if schedule == [] {
      assert [] + [a] == [a] && [a][1..] == [];
    } else {
      assert (schedule + [a])[1..] == schedule[1..] + [a];
      if Step(s, schedule[0]).Some? {
        RunSnoc(Step(s, schedule[0]).value, schedule[1..], a);
      }
    }
  }

  lemma {:induction false} RunConcat(s: Pool, a: seq<Action>, b: seq<Action>)
    requires Run(s, a).Some?
    ensures Run(s, a + b) == Run(Run(s, a).value, b)
    decreases |a|
  {
    hide Step;
    if a == [] {
      assert a + b == b;
    } else {
      assert (a + b)[1..] == a[1..] + b;
      RunConcat(Step(s, a[0]).value, a[1..], b);
    }
  }

  lemma {:induction false} RunOne(s: Pool, a: Action, b: seq<Action>)
    requires Step(s, a).Some?
    ensures Run(s, [a] + b) == Run(Step(s, a).value, b)
  {
    assert ([a] + b)[1..] == b;
  }

  // A worker that has the machine to itself.
  function Alone(w: nat, steps: nat): seq<Action> {
    seq(steps, _ => StepWorker(w))
  }

  lemma AloneAdds(w: nat, m: nat, n: nat)
    ensures Alone(w, m) + Alone(w, n) == Alone(w, m + n)
  {
  }

  // ------------------------------------------------------------------------------------------------ searching

  // Every queue is somewhere in the order in which a worker looks, its own at the beginning.
  lemma EveryQueueIsVisited(w: nat, q: nat, threads: nat) returns (offset: nat)
    requires w < threads && q < threads
    ensures offset < threads && Victim(w, offset, threads) == q && Victim(w, 0, threads) == w
  {
    assert w % threads == w;
    offset := if w <= q then q - w else q + threads - w;
    if w <= q {
      assert (w + offset) % threads == q;
    } else {
      assert w + offset == threads + q && (threads + q) % threads == q;
    }
  }

  // The first place from `offset` on where a job is queued, or the number of queues if there is none.
  function FirstJob(queues: seq<seq<Job>>, w: nat, offset: nat): (k: nat)
    requires offset <= |queues|
    ensures offset <= k <= |queues|
    ensures forall o | offset <= o < k :: queues[Victim(w, o, |queues|)] == []
    ensures k < |queues| ==> queues[Victim(w, k, |queues|)] != []
    decreases |queues| - offset
  {
    if offset == |queues| || queues[Victim(w, offset, |queues|)] != [] then offset
    else FirstJob(queues, w, offset + 1)
  }

  // What a search brings that nobody disturbs: the job it finds first, taken off its queue, or nothing.
  function Found(s: Pool, w: nat, k: nat): Pool
    requires w < |s.workers| && k <= |s.sh.queues|
  {
    if k == |s.sh.queues| then s.(workers := s.workers[w := s.workers[w].(pc := ScanFailed)])
    else
      var victim := Victim(w, k, |s.sh.queues|);
      var t := TakeFrom(s.sh.queues[victim], k);
      if t.job.None? then s
      else s.(sh := s.sh.(queues := s.sh.queues[victim := t.rest]),
              workers := s.workers[w := s.workers[w].(pc := Taken(t.job.value))])
  }

  lemma {:induction false} SearchAlone(s: Pool, w: nat, offset: nat)
    requires w < |s.workers| && offset < |s.sh.queues| && s.workers[w].pc == Scan(offset)
    ensures var n, k := |s.sh.queues|, FirstJob(s.sh.queues, w, offset);
            Run(s, Alone(w, (if k < n then k + 1 else n) - offset)) == Some(Found(s, w, k))
    decreases |s.sh.queues| - offset
  {
    hide Victim, Run;
    var n, k := |s.sh.queues|, FirstJob(s.sh.queues, w, offset);
    var steps := (if k < n then k + 1 else n) - offset;
    var t := Step(s, StepWorker(w)).value;
    assert Alone(w, steps) == [StepWorker(w)] + Alone(w, steps - 1);
    RunOne(s, StepWorker(w), Alone(w, steps - 1));
    if k == offset || offset + 1 == n {
      assert Alone(w, 0) == [];
      RunNothing(t);
      assert t.workers == Found(s, w, k).workers;
    } else {
      assert t == s.(workers := s.workers[w := s.workers[w].(pc := Scan(offset + 1))]);
      SearchAlone(t, w, offset + 1);
      SameFind(s, t, w, k, offset + 1);
    }
  }

  lemma RunNothing(s: Pool)
    ensures Run(s, []) == Some(s)
  {
  }

  lemma SameFind(s: Pool, t: Pool, w: nat, k: nat, offset: nat)
    requires w < |s.workers| && k <= |s.sh.queues|
    requires k < |s.sh.queues| ==> s.sh.queues[Victim(w, k, |s.sh.queues|)] != []
    requires t == s.(workers := s.workers[w := s.workers[w].(pc := Scan(offset))])
    ensures Found(t, w, k) == Found(s, w, k)
  {
    hide Victim;
    SameSearcher(s.workers, w, Scan(offset), ScanFailed);
    if k < |s.sh.queues| {
      var job := TakeFrom(s.sh.queues[Victim(w, k, |s.sh.queues|)], k).job;
      SameSearcher(s.workers, w, Scan(offset), Taken(job.value));
    }
  }

  lemma SameSearcher(workers: seq<Worker>, w: nat, a: WorkerPc, b: WorkerPc)
    requires w < |workers|
    ensures var other := workers[w := workers[w].(pc := a)];
            other[w := other[w].(pc := b)] == workers[w := workers[w].(pc := b)]
  {
  }

  // In every reachable state with a job queued anywhere, a worker that begins to search and is left to itself has a job
  // in hand after at most as many looks as there are queues: the newest of its own if it has any, and otherwise the
  // oldest of the first queue in its order that holds one.
  lemma SearchFindsAJob(s: Pool, threadCount: nat, schedule: seq<Action>, w: nat, q: nat) returns (steps: nat)
    requires Reachable(s, threadCount, schedule) && w < |s.workers| && s.workers[w].pc == Scan(0)
    requires q < |s.sh.queues| && s.sh.queues[q] != []
    ensures 0 < steps <= |s.sh.queues| && Run(s, Alone(w, steps)).Some?
    ensures var t := Run(s, Alone(w, steps)).value;
            var victim := Victim(w, steps - 1, |s.sh.queues|);
            var queue := s.sh.queues[victim];
            && queue != [] && w < |t.workers| && (steps == 1 ==> victim == w)
            && t.workers[w].pc == Taken(if steps == 1 then queue[|queue| - 1] else queue[0])
            && forall o | 0 <= o < steps - 1 :: s.sh.queues[Victim(w, o, |s.sh.queues|)] == []
  {
    ReachableInv(s, threadCount, schedule);
    hide Victim, Run;
    var offset := EveryQueueIsVisited(w, q, |s.sh.queues|);
    var k := FirstJob(s.sh.queues, w, 0);
    assert k <= offset;
    SearchAlone(s, w, 0);
    steps := k + 1;
  }

  // ------------------------------------------------------------------------------------------------ failing to find

  ghost function At(s: Pool, schedule: seq<Action>, k: nat): Pool
    requires k <= |schedule|
  {
    if Run(s, schedule[..k]).Some? then Run(s, schedule[..k]).value else s
  }

  // At step k worker w looks into queue q, and it is empty.
  ghost predicate LooksInVain(s: Pool, schedule: seq<Action>, w: nat, q: nat, k: nat) {
    && k < |schedule| && schedule[k] == StepWorker(w)
    && var t := At(s, schedule, k);
       && w < |t.workers| && t.workers[w].pc.Scan? && q < |t.sh.queues|
       && Victim(w, t.workers[w].pc.offset, |t.sh.queues|) == q && t.sh.queues[q] == []
  }

  ghost predicate LookedInto(s: Pool, schedule: seq<Action>, w: nat, q: nat, from: nat) {
    exists k | from < k < |schedule| :: LooksInVain(s, schedule, w, q, k)
  }

  // Step `from` took worker w from the top of its loop into a search; it has not been back, and it has looked in vain
  // at the first `looks` places of its order.
  ghost predicate Searching(s: Pool, schedule: seq<Action>, w: nat, from: nat, looks: nat) {
    && from < |schedule| && schedule[from] == StepWorker(w)
    && w < |At(s, schedule, from).workers| && At(s, schedule, from).workers[w].pc.LoopTop?
    && |s.sh.queues| > 0
    && (forall k | from < k <= |schedule| ::
          w < |At(s, schedule, k).workers| && !At(s, schedule, k).workers[w].pc.LoopTop?)
    && forall o | 0 <= o < looks :: LookedInto(s, schedule, w, Victim(w, o, |s.sh.queues|), from)
  }

  lemma AtEarlier(s: Pool, schedule: seq<Action>, a: Action, k: nat)
    requires k <= |schedule|
    ensures At(s, schedule + [a], k) == At(s, schedule, k)
  {
    assert (schedule + [a])[..k] == schedule[..k];
  }

  lemma VainStays(s: Pool, schedule: seq<Action>, a: Action, w: nat, q: nat, k: nat)
    requires LooksInVain(s, schedule, w, q, k)
    ensures LooksInVain(s, schedule + [a], w, q, k)
  {
    AtEarlier(s, schedule, a, k);
    hide At, Victim;
  }

  // Any step that leaves the worker off the top of its loop leaves the search what it was.
  lemma SearchStays(s: Pool, schedule: seq<Action>, a: Action, w: nat, from: nat, looks: nat)
    requires Searching(s, schedule, w, from, looks)
    requires var t := At(s, schedule + [a], |schedule| + 1); w < |t.workers| && !t.workers[w].pc.LoopTop?
    ensures Searching(s, schedule + [a], w, from, looks)
  {
    hide At, Victim, LooksInVain;
    AtEarlier(s, schedule, a, from);
    forall k | from < k <= |schedule| + 1
      ensures w < |At(s, schedule + [a], k).workers| && !At(s, schedule + [a], k).workers[w].pc.LoopTop?
    {
      if k <= |schedule| {
        AtEarlier(s, schedule, a, k);
      }
    }
    forall o | 0 <= o < looks
      ensures LookedInto(s, schedule + [a], w, Victim(w, o, |s.sh.queues|), from)
    {
      assert LookedInto(s, schedule, w, Victim(w, o, |s.sh.queues|), from);
      var k :| from < k < |schedule| && LooksInVain(s, schedule, w, Victim(w, o, |s.sh.queues|), k);
      VainStays(s, schedule, a, w, Victim(w, o, |s.sh.queues|), k);
    }
  }

  // How far a search has come.
  function LooksOf(s: Pool, x: Worker): nat {
    if x.pc.Scan? then x.pc.offset else |s.sh.queues|
  }

  predicate InSearch(x: Worker) {
    x.pc.Scan? || x.pc.ScanFailed?
  }

  // Only a worker's own steps take it into a search and on in it.
  lemma OthersLeaveSearch(s: Pool, a: Action, t: Pool, w: nat)
    requires Step(s, a) == Some(t) && a != StepWorker(w) && w < |t.workers| && InSearch(t.workers[w])
    ensures w < |s.workers| && t.workers[w] == s.workers[w]
  {
    hide Victim, WorkerMove, PosterMove;
  }

  lemma OwnStepInSearch(s: Pool, t: Pool, w: nat)
    requires Step(s, StepWorker(w)) == Some(t) && InSearch(t.workers[w]) && |s.sh.queues| > 0
    ensures w < |s.workers|
    ensures || (s.workers[w].pc.LoopTop? && t.workers[w].pc == Scan(0))
            || (s.workers[w].pc.Scan?
                && s.sh.queues[Victim(w, s.workers[w].pc.offset, |s.sh.queues|)] == []
                && LooksOf(t, t.workers[w]) <= s.workers[w].pc.offset + 1)
  {
    hide Victim;
  }

  lemma {:induction false} SearchSoFar(s: Pool, schedule: seq<Action>, w: nat) returns (from: nat)
    requires Inv(s) && Run(s, schedule).Some?
    requires w < |s.workers| && !InSearch(s.workers[w])
    requires w < |Run(s, schedule).value.workers| && InSearch(Run(s, schedule).value.workers[w])
    ensures var t := Run(s, schedule).value;
            |t.sh.queues| == |s.sh.queues| && Searching(s, schedule, w, from, LooksOf(t, t.workers[w]))
    decreases |schedule|
  {
    hide Victim, Step, Inv;
    var last := |schedule| - 1;
    if schedule == [] {
      assert false;
    }
    var front, a := schedule[..last], schedule[last];
    assert schedule == front + [a] && schedule[..|schedule|] == schedule;
    RunSnoc(s, front, a);
    var before, t := Run(s, front).value, Run(s, schedule).value;
    QueuesStay(s, front);
    QueuesStay(s, schedule);
    assert At(s, schedule, last) == before && At(s, schedule, |schedule|) == t;
    if a == StepWorker(w) {
      OwnStepInSearch(before, t, w);
      if before.workers[w].pc.LoopTop? {
        from := last;
      } else {
        from := SearchSoFar(s, front, w);
        SearchStays(s, front, a, w, from, before.workers[w].pc.offset);
        OneMoreLook(s, schedule, w, from, before.workers[w].pc.offset, LooksOf(t, t.workers[w]));
      }
    } else {
      OthersLeaveSearch(before, a, t, w);
      from := SearchSoFar(s, front, w);
      SearchStays(s, front, a, w, from, LooksOf(t, t.workers[w]));
    }
  }

  lemma QueuesStay(s: Pool, schedule: seq<Action>)
    requires Inv(s) && Run(s, schedule).Some?
    ensures |Run(s, schedule).value.sh.queues| == |s.sh.queues| > 0
  {
    RunKeepsInv(s, schedule);
    RunKeepsQueues(s, schedule);
  }

  lemma {:induction false} RunKeepsQueues(s: Pool, schedule: seq<Action>)
    requires Run(s, schedule).Some?
    ensures |Run(s, schedule).value.sh.queues| == |s.sh.queues|
    decreases |schedule|
  {
    if schedule != [] {
      RunKeepsQueues(Step(s, schedule[0]).value, schedule[1..]);
      StepKeepsQueues(s, schedule[0]);
    }
  }

  lemma StepKeepsQueues(s: Pool, a: Action)
    requires Step(s, a).Some?
    ensures |Step(s, a).value.sh.queues| == |s.sh.queues|
  {
    hide Victim;
  }

  lemma OneMoreLook(s: Pool, schedule: seq<Action>, w: nat, from: nat, offset: nat, looks: nat)
    requires Searching(s, schedule, w, from, offset) && looks <= offset + 1
    requires from < |schedule| - 1
    requires LooksInVain(s, schedule, w, Victim(w, offset, |s.sh.queues|), |schedule| - 1)
    ensures Searching(s, schedule, w, from, looks)
  {
    hide At, Victim, LooksInVain;
    assert LookedInto(s, schedule, w, Victim(w, offset, |s.sh.queues|), from);
  }

  // A worker whose search has failed has looked into every queue since it was last at the top of its loop, and has
  // found each of them empty at the moment it looked.
  lemma FailedSearchLookedEverywhere(s: Pool, threadCount: nat, schedule: seq<Action>, w: nat) returns (from: nat)
    requires Reachable(s, threadCount, schedule) && w < |s.workers| && s.workers[w].pc.ScanFailed?
    ensures from < |schedule| && schedule[from] == StepWorker(w)
    ensures var start := At(Init(threadCount), schedule, from);
            w < |start.workers| && start.workers[w].pc.LoopTop?
    ensures forall k | from < k <= |schedule| ::
              var t := At(Init(threadCount), schedule, k); w < |t.workers| && !t.workers[w].pc.LoopTop?
    ensures forall q | 0 <= q < |s.sh.queues| :: LookedInto(Init(threadCount), schedule, w, q, from)
  {
    var start := Init(threadCount);
    InitInv(threadCount);
    ReachableInv(s, threadCount, schedule);
    QueuesStay(start, schedule);
    from := SearchSoFar(start, schedule, w);
    hide At, Victim, LookedInto, Inv, Run;
    forall q | 0 <= q < |s.sh.queues| ensures LookedInto(start, schedule, w, q, from) {
      var offset := EveryQueueIsVisited(w, q, |s.sh.queues|);
      assert LookedInto(start, schedule, w, Victim(w, offset, |s.sh.queues|), from);
    }
  }
  // ------------------------------------------------------------------------------------------------ falling asleep

  ghost predicate NothingToDo(s: Pool) {
    s.sh.pending <= 0 && s.sh.isRunning && s.sh.mutex.Free? && forall q | 0 <= q < |s.sh.queues| :: s.sh.queues[q] == []
  }

  lemma AloneConcat(s: Pool, w: nat, m: nat, n: nat)
    requires Run(s, Alone(w, m)).Some?
    ensures Run(s, Alone(w, m + n)) == Run(Run(s, Alone(w, m)).value, Alone(w, n))
  {
    hide Run;
    AloneAdds(w, m, n);
    RunConcat(s, Alone(w, m), Alone(w, n));
  }

  // The pool with its worker w and what the threads share as given.
  function With(s: Pool, w: nat, sh: Shared, x: Worker): (t: Pool)
    requires w < |s.workers|
  {
    s.(sh := sh, workers := s.workers[w := x])
  }

  lemma WithItself(s: Pool, w: nat)
    requires w < |s.workers|
    ensures With(s, w, s.sh, s.workers[w]) == s
  {
  }

  lemma WithTwice(s: Pool, w: nat, sh: Shared, x: Worker, sh': Shared, x': Worker)
    requires w < |s.workers|
    ensures With(With(s, w, sh, x), w, sh', x') == With(s, w, sh', x')
  {
  }

  // One more move of a worker left to itself.
  lemma OneMoreMove(s: Pool, w: nat, steps: nat, sh: Shared, x: Worker, sh': Shared, x': Worker)
    requires w < |s.workers| && Run(s, Alone(w, steps)) == Some(With(s, w, sh, x))
    requires WorkerMove(sh, w, x) == Some((sh', x'))
    ensures Run(s, Alone(w, steps + 1)) == Some(With(s, w, sh', x'))
  {
    hide WorkerMove;
    assert Alone(w, steps + 1) == Alone(w, steps) + [StepWorker(w)];
    RunSnoc(s, Alone(w, steps), StepWorker(w));
    WithTwice(s, w, sh, x, sh', x');
  }

  lemma SearchInVain(s: Pool, w: nat, spins: nat)
    requires NothingToDo(s) && w < |s.workers| && |s.sh.queues| > 0 && s.workers[w] == Worker(LoopTop, spins)
    ensures Run(s, Alone(w, |s.sh.queues| + 1)) == Some(With(s, w, s.sh, Worker(ScanFailed, spins)))
  {
    hide Victim, Run, WorkerMove;
    var n, searching := |s.sh.queues|, With(s, w, s.sh, Worker(Scan(0), spins));
    StartsSearch(s, w, spins);
    assert FirstJob(searching.sh.queues, w, 0) == n;
    SearchAlone(searching, w, 0);
    WithTwice(s, w, s.sh, Worker(Scan(0), spins), s.sh, Worker(ScanFailed, spins));
    AloneConcat(s, w, 1, n);
  }

  lemma StartsSearch(s: Pool, w: nat, spins: nat)
    requires s.sh.isRunning && w < |s.workers| && s.workers[w] == Worker(LoopTop, spins)
    ensures Run(s, Alone(w, 1)) == Some(With(s, w, s.sh, Worker(Scan(0), spins)))
  {
    assert Alone(w, 0) == [];
    RunNothing(s);
    WithItself(s, w);
    OneMoreMove(s, w, 0, s.sh, s.workers[w], s.sh, Worker(Scan(0), spins));
  }

  // One turn of the loop that finds nothing.
  lemma TurnInVain(s: Pool, w: nat)
    requires NothingToDo(s) && w < |s.workers| && |s.sh.queues| > 0 && s.workers[w].pc.LoopTop?
    ensures var spins := s.workers[w].idleSpins + 1;
            Run(s, Alone(w, |s.sh.queues| + 2))
            == Some(With(s, w, s.sh, Worker(if spins < SPIN_BEFORE_SLEEP then LoopTop else AwaitSleepLock, spins)))
  {
    hide NothingToDo, Run, WorkerMove, With, Victim;
    var n, spins := |s.sh.queues|, s.workers[w].idleSpins;
    var next := Worker(if spins + 1 < SPIN_BEFORE_SLEEP then LoopTop else AwaitSleepLock, spins + 1);
    SearchInVain(s, w, spins);
    GivesUpSearch(s.sh, w, spins);
    OneMoreMove(s, w, n + 1, s.sh, Worker(ScanFailed, spins), s.sh, next);
  }

  lemma GivesUpSearch(sh: Shared, w: nat, spins: nat)
    ensures WorkerMove(sh, w, Worker(ScanFailed, spins))
         == Some((sh, Worker(if spins + 1 < SPIN_BEFORE_SLEEP then LoopTop else AwaitSleepLock, spins + 1)))
  {
    hide Victim, ScanMove;
  }

  lemma GoesToSleep(s: Pool, w: nat)
    requires NothingToDo(s) && w < |s.workers| && s.workers[w].pc.AwaitSleepLock?
    ensures Run(s, Alone(w, 5))
         == Some(With(s, w, s.sh.(sleepers := s.sh.sleepers + 1), s.workers[w].(pc := Waiting)))
  {
    hide Run, With;
    var sh, x := s.sh, s.workers[w];
    var locked, counted := sh.(mutex := HeldByWorker(w)), sh.(sleepers := sh.sleepers + 1);
    var both := counted.(mutex := HeldByWorker(w));
    assert Alone(w, 0) == [];
    RunNothing(s);
    WithItself(s, w);
    OneMoreMove(s, w, 0, sh, x, locked, x.(pc := SleepLocked));
    OneMoreMove(s, w, 1, locked, x.(pc := SleepLocked), both, x.(pc := CheckPending));
    OneMoreMove(s, w, 2, both, x.(pc := CheckPending), both, x.(pc := CheckRunning));
    OneMoreMove(s, w, 3, both, x.(pc := CheckRunning), both, x.(pc := Blocking));
    OneMoreMove(s, w, 4, both, x.(pc := Blocking), counted, x.(pc := Waiting));
  }

  // A worker that finds no job goes to sleep after 64 searches in a row, counting those it has made, and not before.
  lemma {:induction false} IdleWorkerSleeps(s: Pool, w: nat)
    requires NothingToDo(s) && w < |s.workers| && |s.sh.queues| > 0 && s.workers[w].pc.LoopTop?
    requires s.workers[w].idleSpins < SPIN_BEFORE_SLEEP
    ensures var turns := SPIN_BEFORE_SLEEP - s.workers[w].idleSpins;
            Run(s, Alone(w, turns * (|s.sh.queues| + 2) + 5))
            == Some(With(s, w, s.sh.(sleepers := s.sh.sleepers + 1), Worker(Waiting, SPIN_BEFORE_SLEEP)))
    decreases SPIN_BEFORE_SLEEP - s.workers[w].idleSpins
  {
    hide Run;
    var turn, spins := |s.sh.queues| + 2, s.workers[w].idleSpins;
    var turns := SPIN_BEFORE_SLEEP - spins;
    TurnInVain(s, w);
    var next := Run(s, Alone(w, turn)).value;
    WithTwice(s, w, s.sh, next.workers[w], s.sh.(sleepers := s.sh.sleepers + 1), Worker(Waiting, SPIN_BEFORE_SLEEP));
    if turns == 1 {
      GoesToSleep(next, w);
      AloneConcat(s, w, turn, 5);
    } else {
      IdleWorkerSleeps(next, w);
      AloneConcat(s, w, turn, (turns - 1) * turn + 5);
      assert turn + ((turns - 1) * turn + 5) == turns * turn + 5;
    }
  }

  // How many searches of worker w have failed in a row: since its last job, and since it last slept.
  ghost function FailedInARow(s: Pool, schedule: seq<Action>, w: nat): nat
    decreases |schedule|
  {
    if schedule == [] then 0
    else
      var k := |schedule| - 1;
      var before, failed := At(s, schedule, k), FailedInARow(s, schedule[..k], w);
      if schedule[k] != StepWorker(w) || w >= |before.workers| then failed
      else match before.workers[w].pc
        case ScanFailed => failed + 1
        case Running(_) => 0
        case LeavingSleep => 0
        case _ => failed
  }

  lemma StepCounts(s: Pool, a: Action, t: Pool, w: nat, failed: nat)
    requires Step(s, a) == Some(t) && w < |s.workers| && s.workers[w].idleSpins == failed
    ensures w < |t.workers|
    ensures t.workers[w].idleSpins == if a != StepWorker(w) then failed
                                      else match s.workers[w].pc
                                        case ScanFailed => failed + 1
                                        case Running(_) => 0
                                        case LeavingSleep => 0
                                        case _ => failed
  {
    hide Victim, PosterMove;
  }

  lemma {:induction false} SpinsAreCounted(s: Pool, schedule: seq<Action>, w: nat)
    requires Run(s, schedule).Some? && w < |s.workers| && s.workers[w].idleSpins == 0
    ensures w < |Run(s, schedule).value.workers|
    ensures Run(s, schedule).value.workers[w].idleSpins == FailedInARow(s, schedule, w)
    decreases |schedule|
  {
    hide Step;
    if schedule != [] {
      var k := |schedule| - 1;
      assert schedule == schedule[..k] + [schedule[k]];
      RunSnoc(s, schedule[..k], schedule[k]);
      SpinsAreCounted(s, schedule[..k], w);
      StepCounts(Run(s, schedule[..k]).value, schedule[k], Run(s, schedule).value, w,
                 FailedInARow(s, schedule[..k], w));
    }
  }

  predicate IsTired(x: Worker) {
    x.pc.AwaitSleepLock? || x.pc.SleepLocked? || CountsAsSleeper(x)
  }

  ghost predicate TiredAfterMany(s: Pool) {
    forall w | 0 <= w < |s.workers| ::
      if IsTired(s.workers[w]) then s.workers[w].idleSpins >= SPIN_BEFORE_SLEEP
      else s.workers[w].idleSpins < SPIN_BEFORE_SLEEP
  }

  lemma StepKeepsTired(s: Pool, a: Action)
    requires TiredAfterMany(s) && Step(s, a).Some?
    ensures TiredAfterMany(Step(s, a).value)
  {
    hide Victim, PosterMove;
  }

  lemma {:induction false} RunKeepsTired(s: Pool, schedule: seq<Action>)
    requires TiredAfterMany(s) && Run(s, schedule).Some?
    ensures TiredAfterMany(Run(s, schedule).value)
    decreases |schedule|
  {
    hide Step, TiredAfterMany;
    if schedule != [] {
      StepKeepsTired(s, schedule[0]);
      RunKeepsTired(Step(s, schedule[0]).value, schedule[1..]);
    }
  }

  // In every reachable state a worker is on its way to sleep, or asleep, exactly if 64 searches in a row have failed.
  lemma SleepsExactlyWhenTired(s: Pool, threadCount: nat, schedule: seq<Action>, w: nat)
    requires Reachable(s, threadCount, schedule) && w < |s.workers|
    ensures IsTired(s.workers[w]) <==> FailedInARow(Init(threadCount), schedule, w) >= SPIN_BEFORE_SLEEP
  {
    InitInv(threadCount);
    RunKeepsTired(Init(threadCount), schedule);
    RunKeepsWorkers(Init(threadCount), schedule);
    SpinsAreCounted(Init(threadCount), schedule, w);
  }

  lemma {:induction false} RunKeepsWorkers(s: Pool, schedule: seq<Action>)
    requires Run(s, schedule).Some?
    ensures |Run(s, schedule).value.workers| == |s.workers|
    decreases |schedule|
  {
    hide Victim;
    if schedule != [] {
      RunKeepsWorkers(Step(s, schedule[0]).value, schedule[1..]);
    }
  }

  // ------------------------------------------------------------------------------------------------ stopping

  // How many more steps of its own a worker has before it once the pool is stopped.
  function StepsLeft(x: Worker, queues: nat): nat {
    match x.pc
    case Exited => 0
    case LoopTop => 1
    case Running(_) => 2
    case SleepUnlock => 2
    case Taken(_) => 3
    case LeavingSleep => 3
    case CheckRunning => 4
    case CheckPending => 5
    case Notified => 6
    case Waiting => 7
    case SleepLocked => 6
    case AwaitSleepLock => 7
    case Blocking => 8
    case ScanFailed => 8
    case Scan(offset) => 9 + if offset < queues then queues - offset else 0
  }

  function OwnSteps(schedule: seq<Action>, w: nat): nat
    decreases |schedule|
  {
    if schedule == [] then 0 else (if schedule[0] == StepWorker(w) then 1 else 0) + OwnSteps(schedule[1..], w)
  }

  lemma StoppedMove(sh: Shared, w: nat, x: Worker)
    requires !sh.isRunning && WorkerMove(sh, w, x).Some?
    ensures var (sh', x') := WorkerMove(sh, w, x).value;
            && !sh'.isRunning && |sh'.queues| == |sh.queues|
            && StepsLeft(x', |sh.queues|) < StepsLeft(x, |sh.queues|)
  {
    hide Victim;
  }

  lemma StoppedStep(s: Pool, a: Action, t: Pool, w: nat)
    requires Step(s, a) == Some(t) && !s.sh.isRunning && !s.stopper.NotStopped? && w < |s.workers|
    ensures !t.sh.isRunning && !t.stopper.NotStopped? && |t.workers| == |s.workers| && |t.sh.queues| == |s.sh.queues|
    ensures StepsLeft(t.workers[w], |s.sh.queues|) + (if a == StepWorker(w) then 1 else 0)
         <= StepsLeft(s.workers[w], |s.sh.queues|)
  {
    hide Victim, WorkerMove;
    if a.StepWorker? {
      StoppedMove(s.sh, a.w, s.workers[a.w]);
    }
  }

  // Once the pool is stopped a worker takes only so many more steps of its own, whatever else happens.
  lemma {:induction false} StoppedWorkerFinishes(s: Pool, schedule: seq<Action>, w: nat)
    requires !s.sh.isRunning && !s.stopper.NotStopped? && w < |s.workers| && Run(s, schedule).Some?
    ensures var t := Run(s, schedule).value;
            && w < |t.workers|
            && OwnSteps(schedule, w) + StepsLeft(t.workers[w], |s.sh.queues|) <= StepsLeft(s.workers[w], |s.sh.queues|)
    decreases |schedule|
  {
    hide Step, StepsLeft;
    if schedule != [] {
      var t := Step(s, schedule[0]).value;
      StoppedStep(s, schedule[0], t, w);
      StoppedWorkerFinishes(t, schedule[1..], w);
    }
  }

  // And where no thread can go on after a Stop has returned, every worker has left: joining them does not block.
  lemma StopEndsEveryWorker(s: Pool, threadCount: nat, schedule: seq<Action>)
    requires Reachable(s, threadCount, schedule) && s.stopper.AllNotified? && Stuck(s)
    ensures forall w | 0 <= w < |s.workers| :: s.workers[w].pc.Exited?
  {
    StuckMeansIdle(s, threadCount, schedule);
    StopWakesEverybody(s, threadCount, schedule);
  }
  // ------------------------------------------------------------------------------------------------ every call arrives

  // How often a schedule calls Post with a job.
  function Calls(schedule: seq<Action>, job: Job): nat
    decreases |schedule|
  {
    if schedule == [] then 0
    else (if schedule[0].CallPost? && schedule[0].job == job then 1 else 0) + Calls(schedule[1..], job)
  }

  predicate IsOnItsWay(x: Poster, job: Job) {
    x.ReadyToPush? && x.job == job
  }

  function OnItsWay(job: Job): Poster -> bool {
    (x: Poster) => IsOnItsWay(x, job)
  }

  // Copies of a job that have been pushed, or are about to be.
  ghost function TakenOn(s: Pool, job: Job): nat {
    s.sh.accepted[job] + Count(s.posters, OnItsWay(job))
  }

  lemma PosterTakes(sh: Shared, p: nat, x: Poster, job: Job)
    requires PosterMove(sh, p, x).Some?
    ensures var (sh', x') := PosterMove(sh, p, x).value;
            sh'.accepted[job] + Weight(IsOnItsWay(x', job)) == sh.accepted[job] + Weight(IsOnItsWay(x, job))
  {
  }

  lemma WorkerAcceptsNothing(sh: Shared, w: nat, x: Worker)
    requires WorkerMove(sh, w, x).Some?
    ensures WorkerMove(sh, w, x).value.0.accepted == sh.accepted
  {
    hide Victim;
  }

  lemma StepTakes(s: Pool, a: Action, job: Job)
    requires Step(s, a).Some?
    ensures TakenOn(Step(s, a).value, job) == TakenOn(s, job) + if a.CallPost? && a.job == job then 1 else 0
  {
    hide Victim, WorkerMove, PosterMove, Count;
    match a
    case CallPost(j, queue) => CountAppend(s.posters, ReadyToPush(j, queue), OnItsWay(job));
    case StepPoster(p, wake) =>
      if s.posters[p].HoldNotifyLock? {
        CountUpdate(s.posters, p, NotifyUnlock, OnItsWay(job));
      } else {
        PosterTakes(s.sh, p, s.posters[p], job);
        CountUpdate(s.posters, p, PosterMove(s.sh, p, s.posters[p]).value.1, OnItsWay(job));
      }
    case StepWorker(w) => WorkerAcceptsNothing(s.sh, w, s.workers[w]);
    case _ =>
  }

  lemma {:induction false} RunTakes(s: Pool, schedule: seq<Action>, job: Job)
    requires Run(s, schedule).Some?
    ensures TakenOn(Run(s, schedule).value, job) == TakenOn(s, job) + Calls(schedule, job)
    decreases |schedule|
  {
    hide Step, TakenOn;
    if schedule != [] {
      StepTakes(s, schedule[0], job);
      RunTakes(Step(s, schedule[0]).value, schedule[1..], job);
    }
  }

  // Every call of Post pushes its job, once: when no call is still about to, the jobs pushed are those posted. With
  // NoJobLostOrRunTwice, each is then queued, in hand, or has run.
  lemma EveryPostArrives(s: Pool, threadCount: nat, schedule: seq<Action>, job: Job)
    requires Reachable(s, threadCount, schedule)
    ensures s.sh.accepted[job] + Count(s.posters, OnItsWay(job)) == Calls(schedule, job)
    ensures (forall p | 0 <= p < |s.posters| :: !s.posters[p].ReadyToPush?) ==>
              Queued(s.sh.queues, job) + InHand(s.workers, job) + s.sh.finished[job] == Calls(schedule, job)
  {
    RunTakes(Init(threadCount), schedule, job);
    NoJobLostOrRunTwice(s, threadCount, schedule);
    if forall p | 0 <= p < |s.posters| :: !s.posters[p].ReadyToPush? {
      CountNone(s.posters, OnItsWay(job));
    }
  }
}
