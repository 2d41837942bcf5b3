/** Background jobs of one type: producers and readers share a job list and a counter with a single
    worker, under a mutex and two condition variables. Each access to shared data is a step of its
    own, so that every interleaving of the threads is a run. */
module Bio {
  import opened Sequences
  import opened Wrappers

  type Thread = nat

  datatype Holder = Free | TheWorker | Other(t: Thread)

  datatype Call = Create | Pending | WaitStep

  /** Where a thread other than the worker stands. */
  datatype Pc =
    | Out
    | Wants(call: Call)           // about to lock
    | Adding | Added | Signalling // bioCreateBackgroundJob, holding the lock
    | Reading                     // bioPendingJobsOfType, holding the lock
    | Checking                    // bioWaitStepOfType, holding the lock
    | StepSleep(signalled: bool)  // in pthread_cond_wait, the lock released
    | WantsAgain | Rereading
    | Leaving(result: Option<int>)

  datatype WorkerPc =
    | AtLock | AtCheck
    | Sleeping(signalled: bool)   // in pthread_cond_wait, the lock released
    | Running(job: nat)           // the lock released, the job's node still in the list
    | Ran(job: nat)
    | Deleting(job: nat) | Counting

  /** Jobs are numbered in the order they enter the list. */
  datatype State = State(lock: Holder, jobs: seq<nat>, pending: int, created: nat,
                         worker: WorkerPc, threads: map<Thread, Pc>, finished: seq<nat>)

  datatype Step =
    | Begin(t: Thread, call: Call) | Acquire(t: Thread) | Act(t: Thread) | Wake(t: Thread) | Unlock(t: Thread)
    | WorkerAcquire | WorkerCheck | WorkerWake | WorkerRun | WorkerDelete | WorkerCount

  predicate Holds(pc: Pc) {
    pc.Adding? || pc.Added? || pc.Signalling? || pc.Reading? || pc.Checking? || pc.Rereading? || pc.Leaving?
  }

  predicate WorkerHolds(pc: WorkerPc) {
    pc.AtCheck? || pc.Deleting? || pc.Counting?
  }

  predicate Enabled(s: State, step: Step) {
    match step
    case Begin(t, call) => t in s.threads && s.threads[t].Out?
    case Acquire(t) => t in s.threads && (s.threads[t].Wants? || s.threads[t].WantsAgain?) && s.lock.Free?
    case Act(t) => t in s.threads && Holds(s.threads[t]) && !s.threads[t].Leaving?
    case Wake(t) => t in s.threads && s.threads[t].StepSleep?   // signalled, or spuriously
    case Unlock(t) => t in s.threads && s.threads[t].Leaving?
    case WorkerAcquire => (s.worker.AtLock? || s.worker.Ran?) && s.lock.Free?
    case WorkerCheck => s.worker.AtCheck?
    case WorkerWake => s.worker.Sleeping?      // signalled, or spuriously
    case WorkerRun => s.worker.Running?
    case WorkerDelete => s.worker.Deleting?
    case WorkerCount => s.worker.Counting?
  }

  function At(s: State, t: Thread, pc: Pc): State {
    s.(threads := s.threads[t := pc])
  }

  /** What a thread does with the shared data while it holds the lock. */
  function Perform(s: State, t: Thread): State
    requires t in s.threads && Holds(s.threads[t]) && !s.threads[t].Leaving?
  {
    match s.threads[t]
    case Adding => At(s.(jobs := s.jobs + [s.created], created := s.created + 1), t, Added)
    case Added => At(s.(pending := s.pending + 1), t, Signalling)
    case Signalling => At(s.(worker := if s.worker.Sleeping? then Sleeping(true) else s.worker), t, Leaving(None))
    case Checking => if s.pending != 0 then At(s.(lock := Free), t, StepSleep(false)) else At(s, t, Leaving(Some(0)))
    case _ => At(s, t, Leaving(Some(s.pending)))
  }

  /** Every thread that waits for the next job to be done is woken. */
  function Broadcast(s: State): State {
    s.(threads := map t | t in s.threads :: if s.threads[t].StepSleep? then StepSleep(true) else s.threads[t])
  }

  function Next(s: State, step: Step): State
    requires Enabled(s, step)
  {
    match step
    case Begin(t, call) => At(s, t, Wants(call))
    case Acquire(t) =>
      var pc := s.threads[t];
      At(s.(lock := Other(t)), t,
         if pc.WantsAgain? then Rereading
         else match pc.call
           case Create => Adding
           case Pending => Reading
           case WaitStep => Checking)
    case Act(t) => Perform(s, t)
    case Wake(t) => At(s, t, WantsAgain)
    case Unlock(t) => At(s.(lock := Free), t, Out)
    case WorkerAcquire => s.(lock := TheWorker, worker := if s.worker.Ran? then Deleting(s.worker.job) else AtCheck)
    case WorkerCheck =>
      if s.jobs == [] then s.(lock := Free, worker := Sleeping(false))
      else s.(lock := Free, worker := Running(s.jobs[0]))
    case WorkerWake => s.(worker := AtLock)
    case WorkerRun => s.(finished := s.finished + [s.worker.job], worker := Ran(s.worker.job))
    case WorkerDelete => s.(jobs := Without(s.jobs, s.worker.job), worker := Counting)
    case WorkerCount => Broadcast(s.(pending := s.pending - 1, worker := AtCheck))
  }

  // --------------------------------------------------------------- invariant

  /** Exactly the thread that holds the lock is inside its critical section. */
  predicate Exclusive(s: State) {
    && (forall t | t in s.threads :: Holds(s.threads[t]) <==> s.lock == Other(t))
    && (WorkerHolds(s.worker) <==> s.lock.TheWorker?)
    && (s.lock.Other? ==> s.lock.t in s.threads)
  }

  /** Who holds the lock may be between changing the list and changing the counter. */
  function Between(s: State): int {
    if s.lock.TheWorker? && s.worker.Counting? then 1
    else if s.lock.Other? && s.lock.t in s.threads && s.threads[s.lock.t].Added? then -1
    else 0
  }

  predicate HasJob(pc: WorkerPc) {
    pc.Running? || pc.Ran? || pc.Deleting?
  }

  /** The list holds the latest jobs in order; the worker's job is its head, also while the lock is
      released; the finished jobs are all earlier ones, in order, each once. */
  predicate InOrder(s: State) {
    && |s.jobs| <= s.created
    && (forall i | 0 <= i < |s.jobs| :: s.jobs[i] == s.created - |s.jobs| + i)
    && (forall i | 0 <= i < |s.finished| :: s.finished[i] == i)
    && |s.finished| == s.created - |s.jobs| + (if s.worker.Ran? || s.worker.Deleting? then 1 else 0)
    && (HasJob(s.worker) ==> s.jobs != [] && s.jobs[0] == s.worker.job)
  }

  predicate Counted(s: State) {
    s.pending == |s.jobs| + Between(s)
  }

  /** A worker that sleeps without having been signalled has nothing to do, unless a producer is
      just about to signal it. */
  predicate Awake(s: State) {
    s.worker == Sleeping(false) && s.jobs != [] ==>
      s.lock.Other? && s.lock.t in s.threads && (s.threads[s.lock.t].Added? || s.threads[s.lock.t].Signalling?)
  }

  /** A result is the number of jobs left, as long as its reader holds the lock; and who waits without
      having been woken has a job to wait for. */
  predicate Told(s: State) {
    && (forall t | t in s.threads && s.threads[t].Leaving? && s.threads[t].result.Some? ::
          s.threads[t].result.value == |s.jobs|)
    && (forall t | t in s.threads && s.threads[t] == StepSleep(false) :: s.pending > 0)
  }

  predicate Inv(s: State) {
    Exclusive(s) && InOrder(s) && Counted(s) && Awake(s) && Told(s)
  }

  lemma PerformInv(s: State, t: Thread)
    requires Inv(s) && t in s.threads && Holds(s.threads[t]) && !s.threads[t].Leaving?
    ensures Inv(Perform(s, t))
  {
  }

  predicate IsWorkers(step: Step) {
    step.WorkerAcquire? || step.WorkerCheck? || step.WorkerWake? || step.WorkerRun? || step.WorkerDelete?
  }

  lemma WorkerInv(s: State, step: Step)
    requires Inv(s) && Enabled(s, step) && IsWorkers(step)
    ensures Inv(Next(s, step))
  {
    if step.WorkerDelete? { assert Without(s.jobs, s.worker.job) == s.jobs[1..]; }
  }

  lemma CountInv(s: State)
    requires Inv(s) && Enabled(s, WorkerCount)
    ensures Inv(Next(s, WorkerCount))
  {
  }

  /** Every step of every thread keeps the invariant. */
  lemma StepInv(s: State, step: Step)
    requires Inv(s) && Enabled(s, step)
    ensures Inv(Next(s, step))
  {
    hide InOrder;
    if IsWorkers(step) {
      WorkerInv(s, step);
    } else if step.WorkerCount? {
      CountInv(s);
    } else if step.Act? {
      PerformInv(s, step.t);
    } else {
      assert InOrder(Next(s, step)) by { SameOrder(s, Next(s, step)); }
    }
  }

  lemma SameOrder(s: State, r: State)
    requires InOrder(s) && r == s.(lock := r.lock, threads := r.threads)
    ensures InOrder(r)
  {
  }

  ghost predicate CanRun(s: State, steps: seq<Step>)
    decreases |steps|
  {
    steps == [] || (Enabled(s, steps[0]) && CanRun(Next(s, steps[0]), steps[1..]))
  }

  ghost function End(s: State, steps: seq<Step>): State
    requires CanRun(s, steps)
    decreases |steps|
  {
    if steps == [] then s else End(Next(s, steps[0]), steps[1..])
  }

  lemma {:induction false} RunInv(s: State, steps: seq<Step>)
    requires Inv(s) && CanRun(s, steps)
    ensures Inv(End(s, steps))
    decreases |steps|
  {
    hide Inv, Next, Enabled;
    if steps != [] {
      StepInv(s, steps[0]);
      RunInv(Next(s, steps[0]), steps[1..]);
    }
  }

  function Start(threads: set<Thread>): State {
    State(Free, [], 0, 0, AtLock, map t | t in threads :: Out, [])
  }

  /** In every run: jobs finish exactly once in creation order; whenever the lock is free the
      counter is the length of the list; the worker's node is the head of the list; and a thread
      about to read a count of zero finds every job created so far finished. */
  lemma JobsFinishInOrder(threads: set<Thread>, steps: seq<Step>)
    requires CanRun(Start(threads), steps)
    ensures var s := End(Start(threads), steps);
            && (forall i | 0 <= i < |s.finished| :: s.finished[i] == i)
            && (s.lock.Free? ==> s.pending == |s.jobs|)
            && (HasJob(s.worker) ==> s.jobs != [] && s.jobs[0] == s.worker.job)
            && (forall t | t in s.threads && s.pending == 0
                         && (s.threads[t].Reading? || s.threads[t].Checking? || s.threads[t].Rereading?) ::
                  |s.finished| == s.created)
  {
    hide Next, Enabled, CanRun, End;
    RunInv(Start(threads), steps);
  }

  /** A thread that is told a number of jobs left finds all the others finished, none of them twice; told
      zero, all that were created. */
  lemma ToldIsLeft(threads: set<Thread>, steps: seq<Step>, t: Thread)
    requires CanRun(Start(threads), steps)
    requires var s := End(Start(threads), steps);
             t in s.threads && s.threads[t].Leaving? && s.threads[t].result.Some?
    ensures var s := End(Start(threads), steps);
            var left := s.threads[t].result.value;
            && 0 <= left <= s.created && left == |s.jobs| == s.pending
            && |s.finished| >= s.created - left && (forall i | 0 <= i < |s.finished| :: s.finished[i] == i)
            && (left == 0 ==> |s.finished| == s.created)
  {
    hide Next, Enabled, CanRun, End;
    RunInv(Start(threads), steps);
  }

  /** Nobody waits for the next job to be done when there is none, unless it has been woken. */
  lemma NobodyWaitsForNothing(threads: set<Thread>, steps: seq<Step>, t: Thread)
    requires CanRun(Start(threads), steps)
    requires var s := End(Start(threads), steps);
             t in s.threads && s.threads[t] == StepSleep(false) && s.lock.Free?
    ensures var s := End(Start(threads), steps);
            s.jobs != [] && s.worker != Sleeping(false)
  {
    hide Next, Enabled, CanRun, End;
    RunInv(Start(threads), steps);
  }

  /** A thread waits for one job only: once woken and given the lock, it leaves with the number of jobs then
      left, whatever that is. So does one that only asks, and one that finds nothing to wait for. */
  lemma OneStepOnly(s: State, t: Thread)
    requires Inv(s) && t in s.threads && s.lock.Free?
    requires || s.threads[t].WantsAgain? || s.threads[t] == Wants(Pending)
             || (s.threads[t] == Wants(WaitStep) && s.pending == 0)
    ensures var a := Next(s, Acquire(t));
            && Enabled(a, Act(t))
            && Next(a, Act(t)) == s.(lock := Other(t), threads := s.threads[t := Leaving(Some(|s.jobs|))])
  {
  }

  /** A created job is the last of the list, is counted, and wakes a sleeping worker. */
  lemma CreateQueues(s: State, t: Thread)
    requires Inv(s) && t in s.threads && s.threads[t] == Wants(Create) && s.lock.Free?
    ensures var a := Next(s, Acquire(t));
            && Enabled(a, Act(t)) && Enabled(Next(a, Act(t)), Act(t)) && Enabled(Next(Next(a, Act(t)), Act(t)), Act(t))
            && var r := Next(Next(Next(a, Act(t)), Act(t)), Act(t));
            && r.jobs == s.jobs + [s.created] && r.created == s.created + 1 && r.pending == s.pending + 1
            && r.threads == s.threads[t := Leaving(None)] && r.finished == s.finished
            && r.worker == if s.worker.Sleeping? then Sleeping(true) else s.worker
  {
  }

  /** No job is left behind: if the lock is free and there are jobs, the worker is busy with one,
      on its way to look for one, or has been signalled. */
  lemma NoJobForgotten(threads: set<Thread>, steps: seq<Step>)
    requires CanRun(Start(threads), steps)
    ensures var s := End(Start(threads), steps);
            s.lock.Free? && s.jobs != [] ==> s.worker != Sleeping(false)
  {
    hide Next, Enabled, CanRun, End;
    RunInv(Start(threads), steps);
  }
}
