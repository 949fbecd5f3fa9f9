/** JobQueue and JobSerializer: any number of threads post, any number of pool workers drain, and the queue's jobs
    still run one at a time, once each, in push order. A transition system of atomic steps; the queue mutex is held
    across steps. `scheduled` counts the drains handed to the worker pool that no worker has started yet. */
module JobSerializer {
  import opened Counting
  import opened Options

  datatype Job = Job(id: nat)

  // One call of JobSerializer.Post.
  datatype Poster =
    | AwaitQueueLock(job: Job)
    | HoldQueueLock(job: Job)
    | UnlockPushed             // the job is in jobs_, the mutex is still held
    | MustSchedule             // about to hand a drain to the pool
    | Posted

  // One drain: a call of JobQueue.Execute.
  datatype Drain =
    | Entering                 // about to exchange isExecuting_
    | AwaitJobs                // about to lock the queue
    | HoldJobs                 // holds the mutex, about to look at jobs_
    | Releasing                // jobs_ was empty; holds the mutex, about to store isExecuting_ = false
    | UnlockReleased           // isExecuting_ is false; about to unlock
    | UnlockSwapped(batch: seq<Job>)
    | RunJobs(batch: seq<Job>) // runs batch[0] next, without the mutex
    | Returned

  datatype Mutex = Free | HeldByPoster(p: nat) | HeldByDrain(d: nat)

  datatype Shared = Shared(
    jobs: seq<Job>,
    isExecuting: bool,
    mutex: Mutex,
    scheduled: nat,
    pushed: seq<Job>,          // history
    executed: seq<Job>,        // history
    owner: Option<nat>)        // history: the drain whose exchange returned false last and has not stored false since

  datatype Queue = Queue(sh: Shared, posters: seq<Poster>, drains: seq<Drain>)

  datatype Action =
    | CallPost(job: Job)
    | StepPoster(p: nat)
    | StartDrain               // a pool worker takes a scheduled drain
    | StepDrain(d: nat)

  const INIT := Queue(Shared([], false, Free, 0, [], [], None), [], [])

  function PosterMove(sh: Shared, p: nat, x: Poster): Option<(Shared, Poster)> {
    match x
    case AwaitQueueLock(job) => if sh.mutex.Free? then Some((sh.(mutex := HeldByPoster(p)), HoldQueueLock(job)))
      else None
    case HoldQueueLock(job) => Some((sh.(jobs := sh.jobs + [job], pushed := sh.pushed + [job]), UnlockPushed))
    case UnlockPushed => Some((sh.(mutex := Free), MustSchedule))
    case MustSchedule => Some((sh.(scheduled := sh.scheduled + 1), Posted))
    case Posted => None
  }

  function DrainMove(sh: Shared, d: nat, x: Drain): Option<(Shared, Drain)> {
    match x
    case Entering =>
      if sh.isExecuting then Some((sh, Returned)) else Some((sh.(isExecuting := true, owner := Some(d)), AwaitJobs))
    case AwaitJobs => if sh.mutex.Free? then Some((sh.(mutex := HeldByDrain(d)), HoldJobs)) else None
    case HoldJobs => if sh.jobs == [] then Some((sh, Releasing)) else Some((sh.(jobs := []), UnlockSwapped(sh.jobs)))
    case Releasing => Some((sh.(isExecuting := false, owner := None), UnlockReleased))
    case UnlockReleased => Some((sh.(mutex := Free), Returned))
    case UnlockSwapped(batch) => Some((sh.(mutex := Free), RunJobs(batch)))
    case RunJobs(batch) =>
      if batch == [] then Some((sh, AwaitJobs))
      else Some((sh.(executed := sh.executed + [batch[0]]), RunJobs(batch[1..])))
    case Returned => None
  }

  function Step(s: Queue, a: Action): Option<Queue> {
    match a
    case CallPost(job) => Some(s.(posters := s.posters + [AwaitQueueLock(job)]))
    case StepPoster(p) =>
      if p >= |s.posters| then None else
      (match PosterMove(s.sh, p, s.posters[p])
       case Some((sh, x)) => Some(s.(sh := sh, posters := s.posters[p := x]))
       case None => None)
    case StartDrain =>
      if s.sh.scheduled == 0 then None
      else Some(s.(sh := s.sh.(scheduled := s.sh.scheduled - 1), drains := s.drains + [Entering]))
    case StepDrain(d) =>
      if d >= |s.drains| then None else
      (match DrainMove(s.sh, d, s.drains[d])
       case Some((sh, x)) => Some(s.(sh := sh, drains := s.drains[d := x]))
       case None => None)
  }

  function Run(s: Queue, schedule: seq<Action>): Option<Queue>
    decreases |schedule|
  {
    if schedule == [] then Some(s)
    else match Step(s, schedule[0])
      case None => None
      case Some(next) => Run(next, schedule[1..])
  }

  // ------------------------------------------------------------------------------------------------ invariant

  predicate PosterHoldsMutex(x: Poster) { x.HoldQueueLock? || x.UnlockPushed? }
  predicate DrainHoldsMutex(x: Drain) { x.HoldJobs? || x.Releasing? || x.UnlockReleased? || x.UnlockSwapped? }
  // Between the exchange that returned false and the store of false.
  predicate Owns(x: Drain) { x.AwaitJobs? || x.HoldJobs? || x.Releasing? || x.UnlockSwapped? || x.RunJobs? }
  // Will look at jobs_ again before it gives the flag back.
  predicate WillRecheck(x: Drain) { Owns(x) && !x.Releasing? }
  predicate WillSchedule(x: Poster) { x.UnlockPushed? || x.MustSchedule? }

  // What the drain that owns the queue has taken and not run yet.
  function Batch(x: Drain): seq<Job> {
    if x.UnlockSwapped? || x.RunJobs? then x.batch else []
  }

  ghost predicate OwnerKnown(s: Queue) {
    && (s.sh.isExecuting <==> s.sh.owner.Some?)
    && (s.sh.owner.Some? ==> s.sh.owner.value < |s.drains|)
    && (forall d | 0 <= d < |s.drains| :: Owns(s.drains[d]) <==> s.sh.owner == Some(d))
  }

  ghost predicate MutexOwned(s: Queue) {
    && (forall p | 0 <= p < |s.posters| :: PosterHoldsMutex(s.posters[p]) <==> s.sh.mutex == HeldByPoster(p))
    && (forall d | 0 <= d < |s.drains| :: DrainHoldsMutex(s.drains[d]) <==> s.sh.mutex == HeldByDrain(d))
    && (s.sh.mutex.HeldByPoster? ==> s.sh.mutex.p < |s.posters|)
    && (s.sh.mutex.HeldByDrain? ==> s.sh.mutex.d < |s.drains|)
    && (forall d | 0 <= d < |s.drains| :: s.drains[d].Releasing? || s.drains[d].UnlockReleased? ==> s.sh.jobs == [])
  }

  function InFlight(s: Queue): seq<Job> {
    if s.sh.owner.Some? && s.sh.owner.value < |s.drains| then Batch(s.drains[s.sh.owner.value]) else []
  }

  // Nothing is lost, duplicated or reordered between push and run.
  ghost predicate InOrder(s: Queue) {
    s.sh.pushed == s.sh.executed + InFlight(s) + s.sh.jobs
  }

  ghost predicate SomeoneWillCome(s: Queue) {
    || s.sh.scheduled > 0
    || (exists p | 0 <= p < |s.posters| :: WillSchedule(s.posters[p]))
    || (exists d | 0 <= d < |s.drains| :: s.drains[d].Entering? || WillRecheck(s.drains[d]))
  }

  ghost predicate Inv(s: Queue) {
    OwnerKnown(s) && MutexOwned(s) && InOrder(s) && (s.sh.jobs != [] ==> SomeoneWillCome(s))
  }

  // ------------------------------------------------------------------------------------------------ steps

  lemma PosterKeepsInv(s: Queue, p: nat)
    requires Inv(s) && Step(s, StepPoster(p)).Some?
    ensures Inv(Step(s, StepPoster(p)).value)
  {
    var next := Step(s, StepPoster(p)).value;
    assert next.drains == s.drains;
    assert InFlight(next) == InFlight(s);
    if next.sh.jobs != [] {
      if WillSchedule(next.posters[p]) || next.sh.scheduled > 0 {
      } else if exists q | 0 <= q < |s.posters| :: WillSchedule(s.posters[q]) {
        var q :| 0 <= q < |s.posters| && WillSchedule(s.posters[q]);
        assert WillSchedule(next.posters[q]);
      }
    }
  }

  // Who comes for the jobs after one drain has moved: the drain itself, or whoever would have come before.
  lemma DrainKeepsSomeoneComing(s: Queue, d: nat)
    requires Inv(s) && Step(s, StepDrain(d)).Some? && s.sh.jobs != [] && Step(s, StepDrain(d)).value.sh.jobs != []
    ensures SomeoneWillCome(Step(s, StepDrain(d)).value)
  {
    var next := Step(s, StepDrain(d)).value;
    if s.drains[d].Entering? && s.sh.isExecuting {
      var o := s.sh.owner.value;
      assert Owns(s.drains[o]) && WillRecheck(next.drains[o]);
    } else {
      assert WillRecheck(next.drains[d]);
    }
  }

  lemma DrainKeepsOwnership(s: Queue, d: nat)
    requires OwnerKnown(s) && MutexOwned(s) && Step(s, StepDrain(d)).Some?
    ensures OwnerKnown(Step(s, StepDrain(d)).value) && MutexOwned(Step(s, StepDrain(d)).value)
  {
  }

  lemma DrainKeepsOrder(s: Queue, d: nat)
    requires OwnerKnown(s) && InOrder(s) && Step(s, StepDrain(d)).Some?
    ensures InOrder(Step(s, StepDrain(d)).value)
  {
    var next := Step(s, StepDrain(d)).value;
    if Owns(s.drains[d]) {
      assert InFlight(s) == Batch(s.drains[d]);
    }
  }

  lemma StepKeepsInv(s: Queue, a: Action)
    requires Inv(s) && Step(s, a).Some?
    ensures Inv(Step(s, a).value)
  {
    match a
    case CallPost(job) =>
      var next := Step(s, a).value;
      assert forall p | 0 <= p < |s.posters| :: next.posters[p] == s.posters[p];
    case StepPoster(p) => PosterKeepsInv(s, p);
    case StartDrain =>
      var next := Step(s, a).value;
      assert next.drains[|s.drains|].Entering?;
      assert forall d | 0 <= d < |s.drains| :: next.drains[d] == s.drains[d];
    case StepDrain(d) =>
      DrainKeepsOwnership(s, d);
      DrainKeepsOrder(s, d);
      if s.sh.jobs != [] && Step(s, a).value.sh.jobs != [] {
        DrainKeepsSomeoneComing(s, d);
      }
  }

  lemma {:induction false} RunKeepsInv(s: Queue, schedule: seq<Action>)
    requires Inv(s) && Run(s, schedule).Some?
    ensures Inv(Run(s, schedule).value)
    decreases |schedule|
  {
    if schedule != [] {
      StepKeepsInv(s, schedule[0]);
      RunKeepsInv(Step(s, schedule[0]).value, schedule[1..]);
    }
  }

  // ------------------------------------------------------------------------------------------------ theorems

  // At most one thread runs jobs of the queue, however many drains the pool runs at once.
  lemma OneExecutor(s: Queue, schedule: seq<Action>, d: nat, e: nat)
    requires Run(INIT, schedule) == Some(s)
    requires d < |s.drains| && e < |s.drains| && s.drains[d].RunJobs? && s.drains[e].RunJobs?
    ensures d == e
  {
    RunKeepsInv(INIT, schedule);
  }

  // Jobs run exactly once and in push order: what has run is always a prefix of what was pushed, and what is
  // missing is the rest of the owner's batch followed by the queue.
  lemma RunsInPushOrder(s: Queue, schedule: seq<Action>)
    requires Run(INIT, schedule) == Some(s)
    ensures s.sh.executed <= s.sh.pushed
    ensures s.sh.pushed == s.sh.executed + InFlight(s) + s.sh.jobs
  {
    RunKeepsInv(INIT, schedule);
  }

  // A queued job always has somebody coming for it.
  lemma NoJobStranded(s: Queue, schedule: seq<Action>)
    requires Run(INIT, schedule) == Some(s) && s.sh.jobs != []
    ensures SomeoneWillCome(s)
  {
    RunKeepsInv(INIT, schedule);
  }

  // When every Post and every drain has returned and no drain is left in the pool, every pushed job has run.
  lemma QuiescentMeansAllRun(s: Queue, schedule: seq<Action>)
    requires Run(INIT, schedule) == Some(s) && s.sh.scheduled == 0
    requires forall p | 0 <= p < |s.posters| :: s.posters[p].Posted?
    requires forall d | 0 <= d < |s.drains| :: s.drains[d].Returned?
    ensures s.sh.executed == s.sh.pushed && s.sh.jobs == [] && !s.sh.isExecuting
  {
    RunKeepsInv(INIT, schedule);
  }

  // While anything is left to do, somebody can take a step: the mutex cannot deadlock.
  lemma NeverStuckWithWork(s: Queue, schedule: seq<Action>)
    requires Run(INIT, schedule) == Some(s) && s.sh.executed != s.sh.pushed
    ensures s.sh.scheduled > 0
         || (exists p | 0 <= p < |s.posters| :: PosterMove(s.sh, p, s.posters[p]).Some?)
         || (exists d | 0 <= d < |s.drains| :: DrainMove(s.sh, d, s.drains[d]).Some?)
  {
    RunKeepsInv(INIT, schedule);
    if s.sh.mutex.HeldByPoster? {
      assert PosterMove(s.sh, s.sh.mutex.p, s.posters[s.sh.mutex.p]).Some?;
    } else if s.sh.mutex.HeldByDrain? {
      assert DrainMove(s.sh, s.sh.mutex.d, s.drains[s.sh.mutex.d]).Some?;
    } else if s.sh.owner.Some? {
      assert DrainMove(s.sh, s.sh.owner.value, s.drains[s.sh.owner.value]).Some?;
    } else if s.sh.scheduled == 0 {
      WaiterCanStep(s);
    }
  }

  lemma WaiterCanStep(s: Queue)
    requires Inv(s) && s.sh.mutex.Free? && s.sh.owner.None? && s.sh.scheduled == 0 && s.sh.jobs != []
    ensures (exists p | 0 <= p < |s.posters| :: PosterMove(s.sh, p, s.posters[p]).Some?)
         || (exists d | 0 <= d < |s.drains| :: DrainMove(s.sh, d, s.drains[d]).Some?)
  {
    if exists p | 0 <= p < |s.posters| :: WillSchedule(s.posters[p]) {
      var p :| 0 <= p < |s.posters| && WillSchedule(s.posters[p]);
      assert PosterMove(s.sh, p, s.posters[p]).Some?;
    } else {
      var d :| 0 <= d < |s.drains| && (s.drains[d].Entering? || WillRecheck(s.drains[d]));
      assert DrainMove(s.sh, d, s.drains[d]).Some?;
    }
  }
  // ------------------------------------------------------------------------------------------------ every call arrives

  // How often a schedule calls Post with a job.
  function Calls(schedule: seq<Action>, job: Job): nat
    decreases |schedule|
  {
    if schedule == [] then 0
    else (if schedule[0] == CallPost(job) then 1 else 0) + Calls(schedule[1..], job)
  }

  predicate IsOnItsWay(x: Poster, job: Job) {
    x == AwaitQueueLock(job) || x == HoldQueueLock(job)
  }

  function OnItsWay(job: Job): Poster -> bool {
    (x: Poster) => IsOnItsWay(x, job)
  }

  ghost function TakenOn(s: Queue, job: Job): nat {
    multiset(s.sh.pushed)[job] + Count(s.posters, OnItsWay(job))
  }

  lemma StepTakes(s: Queue, a: Action, job: Job)
    requires Step(s, a).Some?
    ensures TakenOn(Step(s, a).value, job) == TakenOn(s, job) + if a == CallPost(job) then 1 else 0
  {
    hide Count;
    match a
    case CallPost(j) => CountAppend(s.posters, AwaitQueueLock(j), OnItsWay(job));
    case StepPoster(p) =>
      CountUpdate(s.posters, p, PosterMove(s.sh, p, s.posters[p]).value.1, OnItsWay(job));
      assert OnItsWay(job)(s.posters[p]) == IsOnItsWay(s.posters[p], job);
    case _ =>
  }

  lemma {:induction false} RunTakes(s: Queue, schedule: seq<Action>, job: Job)
    requires Run(s, schedule).Some?
    ensures TakenOn(Run(s, schedule).value, job) == TakenOn(s, job) + Calls(schedule, job)
    decreases |schedule|
  {
    hide Step, TakenOn;
    if schedule != [] {
      StepTakes(s, schedule[0], job);
      RunTakes(Step(s, schedule[0]).value, schedule[1..], job);
    }
  }

  // Every call of Post pushes its job, once.
  lemma EveryPostIsPushed(s: Queue, schedule: seq<Action>, job: Job)
    requires Run(INIT, schedule) == Some(s)
    ensures multiset(s.sh.pushed)[job] + Count(s.posters, OnItsWay(job)) == Calls(schedule, job)
    ensures (forall p | 0 <= p < |s.posters| :: s.posters[p].Posted?) ==>
              multiset(s.sh.pushed)[job] == Calls(schedule, job)
  {
    RunTakes(INIT, schedule, job);
    if forall p | 0 <= p < |s.posters| :: s.posters[p].Posted? {
      CountNone(s.posters, OnItsWay(job));
    }
  }

  // ------------------------------------------------------------------------------------------------ coming to an end

  // How many more steps a call of Post can cause, and a drain, and a job that is queued.
  function PostWork(x: Poster): nat {
    match x
    case AwaitQueueLock(_) => 15
    case HoldQueueLock(_) => 14
    case UnlockPushed => 8
    case MustSchedule => 7
    case Posted => 0
  }

  function DrainWork(x: Drain): nat {
    match x
    case Entering => 5
    case AwaitJobs => 4
    case HoldJobs => 3
    case Releasing => 2
    case UnlockReleased => 1
    case UnlockSwapped(batch) => 6 + |batch|
    case RunJobs(batch) => 5 + |batch|
    case Returned => 0
  }

  ghost function Work(s: Queue): nat {
    5 * |s.sh.jobs| + 6 * s.sh.scheduled + Sum(s.posters, PostWork) + Sum(s.drains, DrainWork)
  }

  lemma StepWorksOff(s: Queue, a: Action)
    requires Step(s, a).Some? && !a.CallPost?
    ensures Work(Step(s, a).value) < Work(s)
  {
    hide Sum;
    match a
    case StepPoster(p) => SumUpdate(s.posters, p, PosterMove(s.sh, p, s.posters[p]).value.1, PostWork);
    case StartDrain => SumAppend(s.drains, Entering, DrainWork);
    case StepDrain(d) => SumUpdate(s.drains, d, DrainMove(s.sh, d, s.drains[d]).value.1, DrainWork);
  }

  // Without new calls the threads come to an end, however they take turns: no run is longer than the work there is.
  lemma {:induction false} WorkEnds(s: Queue, schedule: seq<Action>)
    requires Run(s, schedule).Some? && forall i | 0 <= i < |schedule| :: !schedule[i].CallPost?
    ensures |schedule| <= Work(s)
    decreases |schedule|
  {
    hide Step, Work;
    if schedule != [] {
      StepWorksOff(s, schedule[0]);
      WorkEnds(Step(s, schedule[0]).value, schedule[1..]);
    }
  }

  // And where they end every job that was posted has run, once, and the queue is free for the next.
  lemma EveryEndIsDone(s: Queue, schedule: seq<Action>)
    requires Run(INIT, schedule) == Some(s) && forall a | Step(s, a).Some? :: a.CallPost?
    ensures s.sh.executed == s.sh.pushed && s.sh.jobs == [] && !s.sh.isExecuting
    ensures forall job :: multiset(s.sh.executed)[job] == Calls(schedule, job)
  {
    RunKeepsInv(INIT, schedule);
    MutexIsFree(s);
    assert Step(s, StartDrain).None?;
    forall p | 0 <= p < |s.posters| ensures s.posters[p].Posted? {
      assert Step(s, StepPoster(p)).None?;
    }
    forall d | 0 <= d < |s.drains| ensures s.drains[d].Returned? {
      assert Step(s, StepDrain(d)).None?;
    }
    QuiescentMeansAllRun(s, schedule);
    forall job ensures multiset(s.sh.executed)[job] == Calls(schedule, job) {
      EveryPostIsPushed(s, schedule, job);
    }
  }

  lemma MutexIsFree(s: Queue)
    requires Inv(s) && forall a | Step(s, a).Some? :: a.CallPost?
    ensures s.sh.mutex.Free?
  {
    assert s.sh.mutex.HeldByPoster? ==> Step(s, StepPoster(s.sh.mutex.p)).None?;
    assert s.sh.mutex.HeldByDrain? ==> Step(s, StepDrain(s.sh.mutex.d)).None?;
  }
}
