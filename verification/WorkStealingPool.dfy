/** The deque each pool worker owns: the owner pushes and pops at the back, a thief steals from the front. */
module WorkStealingQueues {
  import opened Options

  // What a take leaves behind and what it hands out.
  datatype Take<T> = Take(rest: seq<T>, job: Option<T>)

  function PopBack<T>(deque: seq<T>): Take<T> {
    if deque == [] then Take(deque, None) else Take(deque[..|deque| - 1], Some(deque[|deque| - 1]))
  }

  function StealFront<T>(deque: seq<T>): Take<T> {
    if deque == [] then Take(deque, None) else Take(deque[1..], Some(deque[0]))
  }

  // A take at either end fails only on an empty deque, and otherwise removes one job: nothing is lost or duplicated.
  lemma TakeConserves<T>(deque: seq<T>, t: Take<T>)
    requires t == PopBack(deque) || t == StealFront(deque)
    ensures t.job.None? <==> deque == []
    ensures t.job.None? ==> t.rest == deque
    ensures t.job.Some? ==>
              && |t.rest| == |deque| - 1
              && multiset(deque) == multiset(t.rest) + multiset{t.job.value}
  {
    if deque != [] {
      assert deque == deque[..|deque| - 1] + [deque[|deque| - 1]];
      assert deque == [deque[0]] + deque[1..];
    }
  }

  // The owner sees its own pushes last in first out; a thief gets the oldest job.
  lemma OwnerLifoThiefFifo<T>(deque: seq<T>, job: T)
    ensures PopBack(deque + [job]) == Take(deque, Some(job))
    ensures deque != [] ==> StealFront(deque + [job]) == Take(deque[1..] + [job], Some(deque[0]))
  {
    assert (deque + [job])[..|deque|] == deque;
    if deque != [] {
      assert (deque + [job])[1..] == deque[1..] + [job];
    }
  }

  class WorkStealingQueue<T> {
    var deque: seq<T>

    constructor ()
      ensures deque == []
    {
      deque := [];
    }

    method Push(job: T)
      modifies this
      ensures deque == old(deque) + [job]
    {
      deque := deque + [job];
    }

    method Pop() returns (job: Option<T>)
      modifies this
      ensures Take(deque, job) == PopBack(old(deque))
    {
      if deque == [] {
        return None;
      }
      job := Some(deque[|deque| - 1]);
      deque := deque[..|deque| - 1];
    }

    method Steal() returns (job: Option<T>)
      modifies this
      ensures Take(deque, job) == StealFront(old(deque))
    {
      if deque == [] {
        return None;
      }
      job := Some(deque[0]);
      deque := deque[1..];
    }
  }
}

/** The shared worker pool as a transition system. One program counter per worker, per call of Post and for Stop;
    every action is one atomic step of one thread. The queue mutexes guard single operations, so a queue operation
    is one step; the sleep mutex is held across steps and is part of the state. Atomics are sequentially consistent. */
module WorkStealingPool {
  import opened Options
  import opened Counting
  import opened WorkStealingQueues

  const SPIN_BEFORE_SLEEP := 64

  datatype Job = Job(id: nat)

  datatype WorkerPc =
    | LoopTop                 // about to read isRunning_
    | Scan(offset: nat)       // about to look into the queue `offset` places after its own
    | Taken(job: Job)         // has a job, has not decremented pending_ yet
    | Running(job: Job)
    | ScanFailed              // found nothing anywhere
    | AwaitSleepLock
    | SleepLocked             // holds the sleep mutex, has not incremented sleepers_ yet
    | CheckPending            // evaluating the wait predicate: about to read pending_
    | CheckRunning            // pending_ was not positive: about to read isRunning_
    | Blocking                // the predicate was false: about to release the mutex and block
    | Waiting
    | Notified                // woken, has not got the mutex back yet
    | LeavingSleep            // the predicate was true: about to decrement sleepers_
    | SleepUnlock             // about to release the mutex
    | Exited

  datatype Worker = Worker(pc: WorkerPc, idleSpins: nat)

  datatype Poster =
    | ReadyToPush(job: Job, queue: nat)
    | Pushed
    | Incremented
    | AwaitNotifyLock
    | HoldNotifyLock
    | NotifyUnlock
    | Posted

  datatype Stopper = NotStopped | RunningCleared | StopLocked | StopUnlocked | AllNotified

  datatype Mutex = Free | HeldByWorker(w: nat) | HeldByPoster(p: nat) | HeldByStopper

  // What the threads share, with two histories: every job ever pushed and every job run to its end.
  datatype Shared = Shared(
    queues: seq<seq<Job>>,
    isRunning: bool,
    pending: int,
    sleepers: int,
    mutex: Mutex,
    accepted: multiset<Job>,
    finished: multiset<Job>)

  datatype Pool = Pool(sh: Shared, workers: seq<Worker>, posters: seq<Poster>, stopper: Stopper)

  datatype Action =
    | CallPost(job: Job, queue: nat)        // a new call of Post
    | StepPoster(p: nat, wake: nat)         // `wake` is the worker notify_one picks
    | StepWorker(w: nat)
    | SpuriousWake(w: nat)                  // condition variables may wake by themselves
    | StepStop

  function Init(threadCount: nat): Pool {
    Pool(Shared(seq(threadCount, _ => []), true, 0, 0, Free, multiset{}, multiset{}),
         seq(threadCount, _ => Worker(LoopTop, 0)), [], NotStopped)
  }

  // One look into one queue: the owner pops its own, every other queue is stolen from.
  function Victim(w: nat, offset: nat, threads: nat): (v: nat)
    requires threads > 0
    ensures v < threads
  {
    (w + offset) % threads
  }

  function TakeFrom(queue: seq<Job>, offset: nat): Take<Job> {
    if offset == 0 then PopBack(queue) else StealFront(queue)
  }

  function AfterTake(sh: Shared, x: Worker, offset: nat, victim: nat, t: Take<Job>): (Shared, Worker)
    requires victim < |sh.queues|
  {
    match t.job
    case Some(job) => (sh.(queues := sh.queues[victim := t.rest]), x.(pc := Taken(job)))
    case None => (sh, x.(pc := if offset + 1 < |sh.queues| then Scan(offset + 1) else ScanFailed))
  }

  function ScanMove(sh: Shared, w: nat, x: Worker, offset: nat): (Shared, Worker)
    requires |sh.queues| > 0
  {
    var victim := Victim(w, offset, |sh.queues|);
    AfterTake(sh, x, offset, victim, TakeFrom(sh.queues[victim], offset))
  }

  // The next move of worker w in state x; None when it is blocked or has exited.
  function WorkerMove(sh: Shared, w: nat, x: Worker): Option<(Shared, Worker)> {
    match x.pc
    case LoopTop => Some((sh, x.(pc := if sh.isRunning then Scan(0) else Exited)))
    case Scan(offset) => if |sh.queues| == 0 then None else Some(ScanMove(sh, w, x, offset))
    case Taken(job) => Some((sh.(pending := sh.pending - 1), x.(pc := Running(job))))
    case Running(job) => Some((sh.(finished := sh.finished + multiset{job}), Worker(LoopTop, 0)))
    case ScanFailed =>
      var spins := x.idleSpins + 1;
      Some((sh, Worker(if spins < SPIN_BEFORE_SLEEP then LoopTop else AwaitSleepLock, spins)))
    case AwaitSleepLock =>
      if sh.mutex.Free? then Some((sh.(mutex := HeldByWorker(w)), x.(pc := SleepLocked))) else None
    case SleepLocked => Some((sh.(sleepers := sh.sleepers + 1), x.(pc := CheckPending)))
    case CheckPending => Some((sh, x.(pc := if sh.pending > 0 then LeavingSleep else CheckRunning)))
    case CheckRunning => Some((sh, x.(pc := if !sh.isRunning then LeavingSleep else Blocking)))
    case Blocking => Some((sh.(mutex := Free), x.(pc := Waiting)))
    case Waiting => None
    case Notified =>
      if sh.mutex.Free? then Some((sh.(mutex := HeldByWorker(w)), x.(pc := CheckPending))) else None
    case LeavingSleep => Some((sh.(sleepers := sh.sleepers - 1), Worker(SleepUnlock, 0)))
    case SleepUnlock => Some((sh.(mutex := Free), x.(pc := LoopTop)))
    case Exited => None
  }

  // The next move of one call of Post, apart from notify_one.
  function PosterMove(sh: Shared, p: nat, x: Poster): Option<(Shared, Poster)> {
    match x
    case ReadyToPush(job, queue) =>
      if queue < |sh.queues|
      then Some((sh.(queues := sh.queues[queue := sh.queues[queue] + [job]], accepted := sh.accepted + multiset{job}),
                 Pushed))
      else None
    case Pushed => Some((sh.(pending := sh.pending + 1), Incremented))
    case Incremented => Some((sh, if sh.sleepers > 0 then AwaitNotifyLock else Posted))
    case AwaitNotifyLock => if sh.mutex.Free? then Some((sh.(mutex := HeldByPoster(p)), HoldNotifyLock)) else None
    case HoldNotifyLock => None
    case NotifyUnlock => Some((sh.(mutex := Free), Posted))
    case Posted => None
  }

  predicate NobodyWaits(s: Pool) {
    forall w | 0 <= w < |s.workers| :: s.workers[w].pc != Waiting
  }

  function Wake(s: Pool, w: nat): Pool
    requires w < |s.workers|
  {
    s.(workers := s.workers[w := s.workers[w].(pc := Notified)])
  }

  // notify_one: wakes the chosen waiting worker, or nobody when nobody waits.
  function NotifyOne(s: Pool, wake: nat): Option<Pool> {
    if wake < |s.workers| && s.workers[wake].pc == Waiting then Some(Wake(s, wake))
    else if NobodyWaits(s) then Some(s)
    else None
  }

  function PosterStep(s: Pool, p: nat, wake: nat): Option<Pool>
    requires p < |s.posters|
  {
    if s.posters[p].HoldNotifyLock? then
      match NotifyOne(s, wake)
      case Some(next) => Some(next.(posters := s.posters[p := NotifyUnlock]))
      case None => None
    else
      match PosterMove(s.sh, p, s.posters[p])
      case Some((sh, x)) => Some(s.(sh := sh, posters := s.posters[p := x]))
      case None => None
  }

  function WorkerStep(s: Pool, w: nat): Option<Pool>
    requires w < |s.workers|
  {
    match WorkerMove(s.sh, w, s.workers[w])
    case Some((sh, x)) => Some(s.(sh := sh, workers := s.workers[w := x]))
    case None => None
  }

  function WakeAll(workers: seq<Worker>): (woken: seq<Worker>)
    ensures |woken| == |workers|
    ensures forall w | 0 <= w < |workers| ::
              woken[w] == if workers[w].pc == Waiting then workers[w].(pc := Notified) else workers[w]
  {
    seq(|workers|, w requires 0 <= w < |workers| =>
      if workers[w].pc == Waiting then workers[w].(pc := Notified) else workers[w])
  }

  function StopStep(s: Pool): Option<Pool> {
    match s.stopper
    case NotStopped => Some(s.(stopper := RunningCleared, sh := s.sh.(isRunning := false)))
    case RunningCleared =>
      if s.sh.mutex.Free? then Some(s.(stopper := StopLocked, sh := s.sh.(mutex := HeldByStopper))) else None
    case StopLocked => Some(s.(stopper := StopUnlocked, sh := s.sh.(mutex := Free)))
    case StopUnlocked => Some(s.(stopper := AllNotified, workers := WakeAll(s.workers)))
    case AllNotified => None
  }

  function Step(s: Pool, a: Action): Option<Pool> {
    match a
    case CallPost(job, queue) =>
      if queue < |s.sh.queues| then Some(s.(posters := s.posters + [ReadyToPush(job, queue)])) else None
    case StepPoster(p, wake) => if p < |s.posters| then PosterStep(s, p, wake) else None
    case StepWorker(w) => if w < |s.workers| then WorkerStep(s, w) else None
    case SpuriousWake(w) => if w < |s.workers| && s.workers[w].pc == Waiting then Some(Wake(s, w)) else None
    case StepStop => StopStep(s)
  }

  // A schedule is any list of actions; Run gives the state it ends in if every action was enabled.
  function Run(s: Pool, schedule: seq<Action>): Option<Pool>
    decreases |schedule|
  {
    if schedule == [] then Some(s)
    else match Step(s, schedule[0])
      case None => None
      case Some(next) => Run(next, schedule[1..])
  }

  // ------------------------------------------------------------------------------------------------ invariants

  ghost function Total(queues: seq<seq<Job>>): nat {
    if queues == [] then 0 else Total(queues[..|queues| - 1]) + |queues[|queues| - 1]|
  }

  // Copies of one job in the queues, and in the hands of the workers.
  ghost function Queued(queues: seq<seq<Job>>, job: Job): nat {
    if queues == [] then 0 else Queued(queues[..|queues| - 1], job) + multiset(queues[|queues| - 1])[job]
  }

  ghost function InHand(workers: seq<Worker>, job: Job): nat {
    Count(workers, HoldsJob(job))
  }

  predicate Holds(w: Worker, job: Job) { w.pc == Taken(job) || w.pc == Running(job) }

  function HoldsJob(job: Job): Worker -> bool {
    (w: Worker) => Holds(w, job)
  }

  predicate HasTaken(w: Worker) { w.pc.Taken? }
  predicate CountsAsSleeper(w: Worker) {
    w.pc.CheckPending? || w.pc.CheckRunning? || w.pc.Blocking? || w.pc.Waiting? || w.pc.Notified? || w.pc.LeavingSleep?
  }
  predicate HoldsMutex(w: Worker) {
    w.pc.SleepLocked? || w.pc.CheckPending? || w.pc.CheckRunning? || w.pc.Blocking? || w.pc.LeavingSleep?
      || w.pc.SleepUnlock?
  }
  // Has seen pending_ <= 0 under the mutex and will block, or is blocked.
  predicate Asleep(w: Worker) { w.pc.CheckRunning? || w.pc.Blocking? || w.pc.Waiting? }

  predicate BeforeIncrement(p: Poster) { p.Pushed? }
  predicate PosterHoldsMutex(p: Poster) { p.HoldNotifyLock? || p.NotifyUnlock? }
  // Has incremented pending_ and has not finished waking somebody.
  predicate MidNotify(p: Poster) { p.Incremented? || p.AwaitNotifyLock? || p.HoldNotifyLock? }
  predicate MidPost(p: Poster) { BeforeIncrement(p) || MidNotify(p) }

  ghost predicate AllAsleep(workers: seq<Worker>) {
    forall w | 0 <= w < |workers| :: Asleep(workers[w])
  }

  ghost predicate SomeoneMidNotify(posters: seq<Poster>) {
    exists p | 0 <= p < |posters| :: MidNotify(posters[p])
  }

  ghost predicate Counters(s: Pool) {
    && s.sh.pending == Total(s.sh.queues) - Count(s.posters, BeforeIncrement) + Count(s.workers, HasTaken)
    && s.sh.sleepers == Count(s.workers, CountsAsSleeper)
  }

  ghost predicate MutexOwned(s: Pool) {
    && (forall w | 0 <= w < |s.workers| :: HoldsMutex(s.workers[w]) <==> s.sh.mutex == HeldByWorker(w))
    && (forall p | 0 <= p < |s.posters| :: PosterHoldsMutex(s.posters[p]) <==> s.sh.mutex == HeldByPoster(p))
    && (s.stopper.StopLocked? <==> s.sh.mutex.HeldByStopper?)
    && (s.sh.mutex.HeldByWorker? ==> s.sh.mutex.w < |s.workers|)
    && (s.sh.mutex.HeldByPoster? ==> s.sh.mutex.p < |s.posters|)
  }

  // Work that everybody slept through is about to be announced.
  ghost predicate WakeupOwed(s: Pool) {
    s.sh.pending > 0 && AllAsleep(s.workers) ==> SomeoneMidNotify(s.posters)
  }

  ghost predicate StopProgress(s: Pool) {
    && (s.sh.isRunning <==> s.stopper.NotStopped?)
    && (s.sh.isRunning ==> forall w | 0 <= w < |s.workers| :: !s.workers[w].pc.Exited?)
    && (s.stopper.StopLocked? || s.stopper.StopUnlocked? || s.stopper.AllNotified? ==>
          forall w | 0 <= w < |s.workers| :: !s.workers[w].pc.Blocking?)
    && (s.stopper.AllNotified? ==> NobodyWaits(s))
  }

  ghost predicate JobsConserved(s: Pool) {
    forall job :: s.sh.accepted[job] == Queued(s.sh.queues, job) + InHand(s.workers, job) + s.sh.finished[job]
  }

  ghost predicate Inv(s: Pool) {
    && |s.workers| == |s.sh.queues| > 0
    && (forall p | 0 <= p < |s.posters| :: s.posters[p].ReadyToPush? ==> s.posters[p].queue < |s.sh.queues|)
    && Counters(s) && MutexOwned(s) && WakeupOwed(s) && StopProgress(s) && JobsConserved(s)
  }

  // ------------------------------------------------------------------------------------------------ counting jobs

  lemma {:induction false} TotalUpdate(queues: seq<seq<Job>>, i: nat, q: seq<Job>)
    requires i < |queues|
    ensures Total(queues[i := q]) == Total(queues) - |queues[i]| + |q|
  {
    var last := |queues| - 1;
    if i == last {
      assert queues[i := q][..last] == queues[..last];
    } else {
      TotalUpdate(queues[..last], i, q);
      assert queues[i := q][..last] == queues[..last][i := q];
    }
  }

  lemma {:induction false} QueuedUpdate(queues: seq<seq<Job>>, i: nat, q: seq<Job>, job: Job)
    requires i < |queues|
    ensures Queued(queues[i := q], job) == Queued(queues, job) - multiset(queues[i])[job] + multiset(q)[job]
  {
    var last := |queues| - 1;
    if i == last {
      assert queues[i := q][..last] == queues[..last];
    } else {
      QueuedUpdate(queues[..last], i, q, job);
      assert queues[i := q][..last] == queues[..last][i := q];
    }
  }

  lemma {:induction false} TotalPositive(queues: seq<seq<Job>>, i: nat)
    requires i < |queues| && queues[i] != []
    ensures Total(queues) > 0
  {
    if i < |queues| - 1 {
      TotalPositive(queues[..|queues| - 1], i);
    }
  }

  lemma {:induction false} InitQueues(n: nat, job: Job)
    ensures Total(Init(n).sh.queues) == 0 && Queued(Init(n).sh.queues, job) == 0
  {
    if n > 0 {
      InitQueues(n - 1, job);
      assert Init(n).sh.queues[..n - 1] == Init(n - 1).sh.queues;
    }
  }

  lemma InitInv(n: nat)
    requires n > 0
    ensures Inv(Init(n))
  {
    InitQueues(n, Job(0));
    CountNone(Init(n).workers, HasTaken);
    CountNone(Init(n).workers, CountsAsSleeper);
    forall job ensures Queued(Init(n).sh.queues, job) == 0 && InHand(Init(n).workers, job) == 0 {
      InitQueues(n, job);
      CountNone(Init(n).workers, HoldsJob(job));
    }
  }

  // ------------------------------------------------------------------------------------------------ worker steps

  // What one move of one worker does to each of the balances the invariant keeps.
  ghost predicate WorkerEffect(sh: Shared, w: nat, x: Worker, sh': Shared, x': Worker) {
    && |sh'.queues| == |sh.queues| && sh'.isRunning == sh.isRunning && sh'.accepted == sh.accepted
    && sh'.pending - Total(sh'.queues) - Weight(HasTaken(x')) == sh.pending - Total(sh.queues) - Weight(HasTaken(x))
    && sh'.sleepers - Weight(CountsAsSleeper(x')) == sh.sleepers - Weight(CountsAsSleeper(x))
    && (forall job :: Queued(sh'.queues, job) + Weight(Holds(x', job)) + sh'.finished[job]
                   == Queued(sh.queues, job) + Weight(Holds(x, job)) + sh.finished[job])
    && (if HoldsMutex(x) == HoldsMutex(x') then sh'.mutex == sh.mutex
        else if HoldsMutex(x) then sh'.mutex.Free?
        else sh.mutex.Free? && sh'.mutex == HeldByWorker(w))
    && (x'.pc.Exited? ==> !sh.isRunning)
    && (x'.pc.Blocking? ==> sh.isRunning)
    && (x'.pc.Waiting? ==> x.pc.Blocking?)
    && (Asleep(x') && sh'.pending > 0 ==> Asleep(x) && sh.pending > 0)
  }

  // A look into a queue moves one job from the queue to the worker, or moves nothing.
  lemma TakeHasEffect(sh: Shared, w: nat, x: Worker, offset: nat, victim: nat, t: Take<Job>)
    requires victim < |sh.queues| && x.pc == Scan(offset)
    requires t.job.Some? ==> |t.rest| == |sh.queues[victim]| - 1
                             && multiset(sh.queues[victim]) == multiset(t.rest) + multiset{t.job.value}
    ensures var (sh', x') := AfterTake(sh, x, offset, victim, t); WorkerEffect(sh, w, x, sh', x')
  {
    hide Total, Queued;
    if t.job.Some? {
      var (sh', x') := AfterTake(sh, x, offset, victim, t);
      TotalUpdate(sh.queues, victim, t.rest);
      forall job ensures Queued(sh'.queues, job) + Weight(Holds(x', job)) == Queued(sh.queues, job) {
        QueuedUpdate(sh.queues, victim, t.rest, job);
      }
    }
  }

  lemma ScanHasEffect(sh: Shared, w: nat, x: Worker, offset: nat)
    requires |sh.queues| > 0 && x.pc == Scan(offset)
    ensures var (sh', x') := ScanMove(sh, w, x, offset); WorkerEffect(sh, w, x, sh', x')
  {
    var victim := Victim(w, offset, |sh.queues|);
    var t := TakeFrom(sh.queues[victim], offset);
    TakeConserves(sh.queues[victim], t);
    TakeHasEffect(sh, w, x, offset, victim, t);
  }

  predicate InSleepProtocol(x: Worker) {
    HoldsMutex(x) || x.pc.AwaitSleepLock? || x.pc.Notified?
  }

  // On its way into the wait, or back into it after a wakeup.
  predicate IsEnteringSleep(x: Worker) {
    x.pc.AwaitSleepLock? || x.pc.SleepLocked? || x.pc.Notified?
  }

  lemma EnteringSleepHasEffect(sh: Shared, w: nat, x: Worker)
    requires IsEnteringSleep(x) && WorkerMove(sh, w, x).Some?
    ensures var (sh', x') := WorkerMove(sh, w, x).value; WorkerEffect(sh, w, x, sh', x')
  {
    hide Total, Queued, ScanMove, Victim, HoldsJob;
  }

  lemma SleepMoveHasEffect(sh: Shared, w: nat, x: Worker)
    requires InSleepProtocol(x) && WorkerMove(sh, w, x).Some?
    ensures var (sh', x') := WorkerMove(sh, w, x).value; WorkerEffect(sh, w, x, sh', x')
  {
    if IsEnteringSleep(x) {
      EnteringSleepHasEffect(sh, w, x);
    } else {
      hide Total, Queued, ScanMove, Victim, HoldsJob;
      var (sh', x') := WorkerMove(sh, w, x).value;
      assert sh'.queues == sh.queues && sh'.finished == sh.finished && sh'.pending == sh.pending;
    }
  }

  lemma RunningHasEffect(sh: Shared, w: nat, x: Worker)
    requires x.pc.Running?
    ensures var (sh', x') := WorkerMove(sh, w, x).value; WorkerEffect(sh, w, x, sh', x')
  {
  }

  lemma WorkMoveHasEffect(sh: Shared, w: nat, x: Worker)
    requires !InSleepProtocol(x) && !x.pc.Scan? && !x.pc.Running? && WorkerMove(sh, w, x).Some?
    ensures var (sh', x') := WorkerMove(sh, w, x).value; WorkerEffect(sh, w, x, sh', x')
  {
    var (sh', x') := WorkerMove(sh, w, x).value;
    assert sh'.queues == sh.queues && sh'.mutex == sh.mutex && sh'.sleepers == sh.sleepers
      && sh'.finished == sh.finished;
  }

  lemma WorkerMoveHasEffect(sh: Shared, w: nat, x: Worker)
    requires WorkerMove(sh, w, x).Some?
    ensures var (sh', x') := WorkerMove(sh, w, x).value; WorkerEffect(sh, w, x, sh', x')
  {
    if x.pc.Scan? {
      ScanHasEffect(sh, w, x, x.pc.offset);
    } else if InSleepProtocol(x) {
      SleepMoveHasEffect(sh, w, x);
    } else if x.pc.Running? {
      RunningHasEffect(sh, w, x);
    } else {
      WorkMoveHasEffect(sh, w, x);
    }
  }

  lemma WorkerEffectKeepsBalances(s: Pool, w: nat, sh': Shared, x': Worker)
    requires Counters(s) && JobsConserved(s) && w < |s.workers| && WorkerEffect(s.sh, w, s.workers[w], sh', x')
    ensures Counters(s.(sh := sh', workers := s.workers[w := x']))
    ensures JobsConserved(s.(sh := sh', workers := s.workers[w := x']))
  {
    var workers' := s.workers[w := x'];
    CountUpdate(s.workers, w, x', HasTaken);
    CountUpdate(s.workers, w, x', CountsAsSleeper);
    forall job ensures sh'.accepted[job] == Queued(sh'.queues, job) + InHand(workers', job) + sh'.finished[job] {
      CountUpdate(s.workers, w, x', HoldsJob(job));
      assert HoldsJob(job)(x') == Holds(x', job) && HoldsJob(job)(s.workers[w]) == Holds(s.workers[w], job);
    }
  }

  lemma WorkerEffectKeepsInv(s: Pool, w: nat, sh': Shared, x': Worker)
    requires Inv(s) && w < |s.workers| && WorkerEffect(s.sh, w, s.workers[w], sh', x')
    ensures Inv(s.(sh := sh', workers := s.workers[w := x']))
  {
    var next := s.(sh := sh', workers := s.workers[w := x']);
    WorkerEffectKeepsBalances(s, w, sh', x');
    if sh'.pending > 0 && AllAsleep(next.workers) {
      assert Asleep(next.workers[w]);
      forall v | 0 <= v < |s.workers| ensures Asleep(s.workers[v]) {
        assert Asleep(next.workers[v]);
      }
    }
  }

  lemma WorkerKeepsInv(s: Pool, w: nat)
    requires Inv(s) && w < |s.workers| && WorkerStep(s, w).Some?
    ensures Inv(WorkerStep(s, w).value)
  {
    var (sh', x') := WorkerMove(s.sh, w, s.workers[w]).value;
    WorkerMoveHasEffect(s.sh, w, s.workers[w]);
    WorkerEffectKeepsInv(s, w, sh', x');
  }

  // ------------------------------------------------------------------------------------------------ poster steps

  ghost predicate PosterEffect(sh: Shared, p: nat, x: Poster, sh': Shared, x': Poster) {
    && |sh'.queues| == |sh.queues| && sh'.isRunning == sh.isRunning && sh'.finished == sh.finished
    && sh'.sleepers == sh.sleepers && !x'.ReadyToPush?
    && sh'.pending - Total(sh'.queues) + Weight(BeforeIncrement(x'))
       == sh.pending - Total(sh.queues) + Weight(BeforeIncrement(x))
    && (forall job :: sh'.accepted[job] - Queued(sh'.queues, job) == sh.accepted[job] - Queued(sh.queues, job))
    && (if PosterHoldsMutex(x) == PosterHoldsMutex(x') then sh'.mutex == sh.mutex
        else if PosterHoldsMutex(x) then sh'.mutex.Free?
        else sh.mutex.Free? && sh'.mutex == HeldByPoster(p))
    && (MidNotify(x) && !MidNotify(x') ==> sh.sleepers <= 0)
    && (sh'.pending > sh.pending ==> MidNotify(x'))
  }

  lemma PushHasEffect(sh: Shared, p: nat, x: Poster)
    requires x.ReadyToPush? && PosterMove(sh, p, x).Some?
    ensures var (sh', x') := PosterMove(sh, p, x).value; PosterEffect(sh, p, x, sh', x')
  {
    var (sh', x') := PosterMove(sh, p, x).value;
    TotalUpdate(sh.queues, x.queue, sh.queues[x.queue] + [x.job]);
    forall job ensures sh'.accepted[job] - Queued(sh'.queues, job) == sh.accepted[job] - Queued(sh.queues, job) {
      QueuedUpdate(sh.queues, x.queue, sh.queues[x.queue] + [x.job], job);
    }
  }

  lemma PosterMoveHasEffect(sh: Shared, p: nat, x: Poster)
    requires PosterMove(sh, p, x).Some?
    ensures var (sh', x') := PosterMove(sh, p, x).value; PosterEffect(sh, p, x, sh', x')
  {
    if x.ReadyToPush? {
      PushHasEffect(sh, p, x);
    } else {
      var (sh', x') := PosterMove(sh, p, x).value;
      assert sh'.queues == sh.queues && sh'.accepted == sh.accepted && sh'.finished == sh.finished;
    }
  }

  // A poster that sees no sleeper leaves without waking anybody: then some worker is not asleep.
  lemma SleeplessMeansSomeoneAwake(s: Pool)
    requires Inv(s) && s.sh.sleepers <= 0
    ensures !AllAsleep(s.workers)
  {
    if Asleep(s.workers[0]) {
      CountWitness(s.workers, 0, CountsAsSleeper);
    }
  }

  lemma PosterEffectKeepsInv(s: Pool, p: nat, sh': Shared, x': Poster)
    requires Inv(s) && p < |s.posters| && PosterEffect(s.sh, p, s.posters[p], sh', x')
    ensures Inv(s.(sh := sh', posters := s.posters[p := x']))
  {
    var next := s.(sh := sh', posters := s.posters[p := x']);
    CountUpdate(s.posters, p, x', BeforeIncrement);
    if s.sh.sleepers <= 0 {
      SleeplessMeansSomeoneAwake(s);
    } else if MidNotify(x') {
      assert MidNotify(next.posters[p]);
    } else if SomeoneMidNotify(s.posters) {
      var i :| 0 <= i < |s.posters| && MidNotify(s.posters[i]);
      assert MidNotify(next.posters[i]);
    }
  }

  // Waking one worker changes no count.
  lemma WakeKeepsCounts(s: Pool, w: nat)
    requires w < |s.workers| && s.workers[w].pc.Waiting?
    ensures Count(Wake(s, w).workers, HasTaken) == Count(s.workers, HasTaken)
    ensures Count(Wake(s, w).workers, CountsAsSleeper) == Count(s.workers, CountsAsSleeper)
    ensures forall job :: InHand(Wake(s, w).workers, job) == InHand(s.workers, job)
  {
    var x' := s.workers[w].(pc := Notified);
    CountUpdate(s.workers, w, x', HasTaken);
    CountUpdate(s.workers, w, x', CountsAsSleeper);
    forall job ensures InHand(Wake(s, w).workers, job) == InHand(s.workers, job) {
      CountUpdate(s.workers, w, x', HoldsJob(job));
    }
  }

  lemma WakeKeepsInv(s: Pool, w: nat)
    requires Inv(s) && w < |s.workers| && s.workers[w].pc.Waiting?
    ensures Inv(Wake(s, w)) && !AllAsleep(Wake(s, w).workers)
  {
    WakeKeepsCounts(s, w);
    assert !Asleep(Wake(s, w).workers[w]);
  }

  // The last step of announcing a job: somebody is awake afterwards, whether or not anybody was waiting.
  lemma NotifyKeepsInv(s: Pool, p: nat, wake: nat)
    requires Inv(s) && p < |s.posters| && s.posters[p].HoldNotifyLock? && NotifyOne(s, wake).Some?
    ensures Inv(NotifyOne(s, wake).value.(posters := s.posters[p := NotifyUnlock]))
  {
    hide Total, Queued, Count;
    var woken := NotifyOne(s, wake).value;
    if woken != s {
      WakeKeepsInv(s, wake);
    } else {
      assert s.sh.mutex == HeldByPoster(p);
      assert !HoldsMutex(s.workers[0]) && !Asleep(s.workers[0]);
    }
    CountUpdate(s.posters, p, NotifyUnlock, BeforeIncrement);
  }

  lemma PosterKeepsInv(s: Pool, p: nat, wake: nat)
    requires Inv(s) && p < |s.posters| && PosterStep(s, p, wake).Some?
    ensures Inv(PosterStep(s, p, wake).value)
  {
    if s.posters[p].HoldNotifyLock? {
      NotifyKeepsInv(s, p, wake);
    } else {
      var (sh', x') := PosterMove(s.sh, p, s.posters[p]).value;
      PosterMoveHasEffect(s.sh, p, s.posters[p]);
      PosterEffectKeepsInv(s, p, sh', x');
    }
  }

  // ------------------------------------------------------------------------------------------------ all steps

  lemma {:induction false} WakeAllKeepsCount(workers: seq<Worker>, p: Worker -> bool)
    requires forall x: Worker | x.pc.Waiting? :: p(x) == p(x.(pc := Notified))
    ensures Count(WakeAll(workers), p) == Count(workers, p)
  {
    if workers != [] {
      var front := workers[..|workers| - 1];
      WakeAllKeepsCount(front, p);
      assert WakeAll(workers)[..|workers| - 1] == WakeAll(front);
    }
  }

  lemma WakeAllKeepsInv(s: Pool)
    requires Inv(s) && s.stopper.StopUnlocked?
    ensures Inv(StopStep(s).value)
  {
    hide Total, Queued, Count;
    var next := StopStep(s).value;
    WakeAllKeepsCount(s.workers, HasTaken);
    WakeAllKeepsCount(s.workers, CountsAsSleeper);
    forall job ensures InHand(next.workers, job) == InHand(s.workers, job) {
      WakeAllKeepsCount(s.workers, HoldsJob(job));
    }
    if AllAsleep(next.workers) {
      assert forall w | 0 <= w < |s.workers| :: Asleep(next.workers[w]) ==> Asleep(s.workers[w]);
    }
  }

  lemma StopKeepsInv(s: Pool)
    requires Inv(s) && StopStep(s).Some?
    ensures Inv(StopStep(s).value)
  {
    if s.stopper.StopUnlocked? {
      WakeAllKeepsInv(s);
    }
  }

  lemma CallPostKeepsInv(s: Pool, job: Job, queue: nat)
    requires Inv(s) && queue < |s.sh.queues|
    ensures Inv(s.(posters := s.posters + [ReadyToPush(job, queue)]))
  {
    var next := s.(posters := s.posters + [ReadyToPush(job, queue)]);
    CountAppend(s.posters, ReadyToPush(job, queue), BeforeIncrement);
    assert forall i | 0 <= i < |s.posters| :: next.posters[i] == s.posters[i];
  }

  lemma StepKeepsInv(s: Pool, a: Action)
    requires Inv(s) && Step(s, a).Some?
    ensures Inv(Step(s, a).value)
  {
    match a
    case CallPost(job, queue) => CallPostKeepsInv(s, job, queue);
    case StepPoster(p, wake) => PosterKeepsInv(s, p, wake);
    case StepWorker(w) => WorkerKeepsInv(s, w);
    case SpuriousWake(w) => WakeKeepsInv(s, w);
    case StepStop => StopKeepsInv(s);
  }

  lemma {:induction false} RunKeepsInv(s: Pool, schedule: seq<Action>)
    requires Inv(s) && Run(s, schedule).Some?
    ensures Inv(Run(s, schedule).value)
    decreases |schedule|
  {
    if schedule != [] {
      StepKeepsInv(s, schedule[0]);
      RunKeepsInv(Step(s, schedule[0]).value, schedule[1..]);
    }
  }

  // ------------------------------------------------------------------------------------------------ theorems

  ghost predicate Reachable(s: Pool, threadCount: nat, schedule: seq<Action>) {
    threadCount > 0 && Run(Init(threadCount), schedule) == Some(s)
  }

  lemma ReachableInv(s: Pool, threadCount: nat, schedule: seq<Action>)
    requires Reachable(s, threadCount, schedule)
    ensures Inv(s)
  {
    InitInv(threadCount);
    RunKeepsInv(Init(threadCount), schedule);
  }

  // The counter the sleepers trust is exact up to the threads that are between two instructions.
  lemma PendingIsExact(s: Pool, threadCount: nat, schedule: seq<Action>)
    requires Reachable(s, threadCount, schedule)
    ensures s.sh.pending == Total(s.sh.queues) - Count(s.posters, BeforeIncrement) + Count(s.workers, HasTaken)
  {
    ReachableInv(s, threadCount, schedule);
  }

  // No lost wakeup: while the pool runs, a queued job with no Post in flight means some worker is neither
  // blocked, nor about to block, nor gone.
  lemma NoLostWakeup(s: Pool, threadCount: nat, schedule: seq<Action>, q: nat)
    requires Reachable(s, threadCount, schedule) && s.sh.isRunning
    requires q < |s.sh.queues| && s.sh.queues[q] != []
    requires forall p | 0 <= p < |s.posters| :: !MidPost(s.posters[p])
    ensures exists w | 0 <= w < |s.workers| :: !Asleep(s.workers[w]) && !s.workers[w].pc.Exited?
  {
    ReachableInv(s, threadCount, schedule);
    CountNone(s.posters, BeforeIncrement);
    TotalPositive(s.sh.queues, q);
    assert s.sh.pending > 0;
    assert !AllAsleep(s.workers);
  }

  // No worker, no Post and no Stop under way can take a step by itself.
  ghost predicate Stuck(s: Pool) {
    && (forall w | 0 <= w < |s.workers| :: WorkerStep(s, w).None?)
    && (forall p, wake | 0 <= p < |s.posters| && 0 <= wake <= |s.workers| :: PosterStep(s, p, wake).None?)
    && (s.stopper.NotStopped? || StopStep(s).None?)
  }

  // notify_one always has a worker to pick, or nobody to wake.
  lemma NotifyIsEnabled(s: Pool, p: nat) returns (wake: nat)
    requires p < |s.posters| && s.posters[p].HoldNotifyLock?
    ensures wake <= |s.workers| && PosterStep(s, p, wake).Some?
  {
    if NobodyWaits(s) {
      wake := |s.workers|;
    } else {
      wake :| 0 <= wake < |s.workers| && s.workers[wake].pc == Waiting;
    }
  }

  lemma StuckPost(s: Pool, p: nat)
    requires Inv(s) && Stuck(s) && p < |s.posters|
    ensures s.posters[p].Posted? || (s.posters[p].AwaitNotifyLock? && !s.sh.mutex.Free?)
  {
    if s.posters[p].HoldNotifyLock? {
      var wake := NotifyIsEnabled(s, p);
      assert false;
    }
    assert PosterStep(s, p, 0).None?;
  }

  lemma StuckMutexIsFree(s: Pool)
    requires Inv(s) && Stuck(s)
    ensures s.sh.mutex.Free?
  {
    forall w | 0 <= w < |s.workers| ensures !HoldsMutex(s.workers[w]) {
      assert WorkerStep(s, w).None?;
    }
    forall p | 0 <= p < |s.posters| ensures !PosterHoldsMutex(s.posters[p]) {
      StuckPost(s, p);
    }
  }

  // Deadlock freedom: when nothing can move, every worker sleeps or has exited, every Post has returned,
  // and while the pool runs every queue is empty.
  lemma StuckMeansIdle(s: Pool, threadCount: nat, schedule: seq<Action>)
    requires Reachable(s, threadCount, schedule) && Stuck(s)
    ensures forall w | 0 <= w < |s.workers| :: s.workers[w].pc.Waiting? || s.workers[w].pc.Exited?
    ensures forall p | 0 <= p < |s.posters| :: s.posters[p].Posted?
    ensures s.sh.isRunning ==> forall q | 0 <= q < |s.sh.queues| :: s.sh.queues[q] == []
  {
    ReachableInv(s, threadCount, schedule);
    StuckMutexIsFree(s);
    forall w | 0 <= w < |s.workers| ensures s.workers[w].pc.Waiting? || s.workers[w].pc.Exited? {
      assert WorkerStep(s, w).None?;
    }
    forall p | 0 <= p < |s.posters| ensures s.posters[p].Posted? {
      StuckPost(s, p);
    }
    if s.sh.isRunning {
      forall q | 0 <= q < |s.sh.queues| ensures s.sh.queues[q] == [] {
        if s.sh.queues[q] != [] { NoLostWakeup(s, threadCount, schedule, q); }
      }
    }
  }

  // After Stop has passed its notify, no worker is blocked or about to block, in any later state either.
  lemma StopWakesEverybody(s: Pool, threadCount: nat, schedule: seq<Action>)
    requires Reachable(s, threadCount, schedule) && s.stopper.AllNotified?
    ensures forall w | 0 <= w < |s.workers| :: !s.workers[w].pc.Waiting? && !s.workers[w].pc.Blocking?
  {
    ReachableInv(s, threadCount, schedule);
  }

  // Every pushed job is in exactly one place: queued, in one worker's hands, or run to its end once.
  lemma NoJobLostOrRunTwice(s: Pool, threadCount: nat, schedule: seq<Action>)
    requires Reachable(s, threadCount, schedule)
    ensures forall job :: s.sh.accepted[job] == Queued(s.sh.queues, job) + InHand(s.workers, job) + s.sh.finished[job]
  {
    ReachableInv(s, threadCount, schedule);
  }
}
