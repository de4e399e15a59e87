/** The thread pool of examples/thread_pool/main.cpp as an interleaving of atomic steps.

    A step is one block executed under `mu_`, one notification, one join or the end of one job.
    `Apply` says what a step does to the shared state; `ThreadPool` is the same code written on fields.
    `wait` with a predicate is a loop, so a woken or spuriously woken worker re-tests the predicate. */
module ThreadPools {
  import opened Options
  import opened Sequences
  import opened Sums

  /** What `packaged_task` stores in the shared state: a value, or the exception the job threw. */
  datatype Outcome = Value(value: int) | Exception(error: int)

  /** A submitted job; `id` is the position of its submission, `outcome` what running it produces. */
  datatype Task = Task(id: nat, outcome: Outcome)

  /** `Fresh` and `Notified` workers are about to lock the mutex and test the wait predicate. */
  datatype Worker = Fresh | Asleep | Notified | Running(task: Task) | Exited

  datatype Submitter = Idle | OwesNotify

  datatype Destructor = NotCalled | OwesBroadcast | Joining(joined: nat)

  /** `queue`, `stopping` and `workers` are the object's members; `submitters` and `destructor` are the
      program counters of its callers; `accepted` and `started` record the pushes and the pops. */
  datatype Pool = Pool(
    queue: seq<Task>,
    stopping: bool,
    workers: seq<Worker>,
    submitters: seq<Submitter>,
    destructor: Destructor,
    accepted: seq<Task>,
    started: seq<Task>,
    futures: map<nat, Outcome>)

  datatype Step =
    | SubmitPush(s: nat, outcome: Outcome)  // the locked block of `submit`
    | SubmitNotify(s: nat, wake: nat)       // its `notify_one`, after the unlock; `wake` is the scheduler's choice
    | Stop                                  // the locked block of the destructor
    | Broadcast                             // its `notify_all`
    | Join                                  // `join` of the next worker returns
    | CheckQueue(w: nat)                    // a worker holds the lock: sleep, exit or pop
    | Finish(w: nat)                        // a worker's job ends and fulfils its future
    | Spurious(w: nat)                      // a sleeping worker wakes without a notification

  predicate AnyAsleep(ws: seq<Worker>) {
    exists w | 0 <= w < |ws| :: ws[w].Asleep?
  }

  predicate Awake(w: Worker) { w.Fresh? || w.Notified? }

  predicate Enabled(p: Pool, step: Step) {
    match step
    case SubmitPush(s, _) => s < |p.submitters| && p.submitters[s].Idle?
    case SubmitNotify(s, wake) =>
      && s < |p.submitters| && p.submitters[s].OwesNotify?
      && (AnyAsleep(p.workers) ==> wake < |p.workers| && p.workers[wake].Asleep?)
    case Stop => p.destructor.NotCalled?
    case Broadcast => p.destructor.OwesBroadcast?
    case Join =>
      p.destructor.Joining? && p.destructor.joined < |p.workers| && p.workers[p.destructor.joined].Exited?
    case CheckQueue(w) => w < |p.workers| && Awake(p.workers[w])
    case Finish(w) => w < |p.workers| && p.workers[w].Running?
    case Spurious(w) => w < |p.workers| && p.workers[w].Asleep?
  }

  function Submitted(p: Pool, s: nat, outcome: Outcome): Pool
    requires s < |p.submitters|
  {
    if p.stopping then p  // throws "submit on stopped ThreadPool"
    else
      var task := Task(|p.accepted|, outcome);
      p.(queue := p.queue + [task], accepted := p.accepted + [task],
         submitters := p.submitters[s := OwesNotify])
  }

  function WakeAll(ws: seq<Worker>): seq<Worker> {
    seq(|ws|, i requires 0 <= i < |ws| => if ws[i].Asleep? then Notified else ws[i])
  }

  /** One pass through the locked block of `worker_loop`. */
  function Checked(p: Pool, w: nat): Pool
    requires w < |p.workers|
  {
    if !p.stopping && p.queue == [] then
      p.(workers := p.workers[w := Asleep])
    else if p.queue == [] then
      p.(workers := p.workers[w := Exited])
    else
      p.(workers := p.workers[w := Running(p.queue[0])],
         queue := p.queue[1..], started := p.started + [p.queue[0]])
  }

  function Apply(p: Pool, step: Step): Pool
    requires Enabled(p, step)
  {
    match step
    case SubmitPush(s, outcome) => Submitted(p, s, outcome)
    case SubmitNotify(s, wake) =>
      p.(submitters := p.submitters[s := Idle],
         workers := if AnyAsleep(p.workers) then p.workers[wake := Notified] else p.workers)
    case Stop => p.(stopping := true, destructor := OwesBroadcast)
    case Broadcast => p.(workers := WakeAll(p.workers), destructor := Joining(0))
    case Join => p.(destructor := Joining(p.destructor.joined + 1))
    case CheckQueue(w) => Checked(p, w)
    case Finish(w) =>
      var task := p.workers[w].task;
      p.(workers := p.workers[w := Fresh], futures := p.futures[task.id := task.outcome])
    case Spurious(w) => p.(workers := p.workers[w := Notified])
  }

  function Init(threads: nat, submitters: nat): Pool {
    Pool([], false, seq(threads, _ => Fresh), seq(submitters, _ => Idle), NotCalled, [], [], map[])
  }

  predicate Executable(p: Pool, steps: seq<Step>)
    decreases |steps|
  {
    steps == [] || (Enabled(p, steps[0]) && Executable(Apply(p, steps[0]), steps[1..]))
  }

  function Run(p: Pool, steps: seq<Step>): Pool
    requires Executable(p, steps)
    decreases |steps|
  {
    if steps == [] then p else Run(Apply(p, steps[0]), steps[1..])
  }

  /** A run can be continued by exactly the steps enabled at its end. */
  lemma {:induction false} RunExtends(p: Pool, steps: seq<Step>, step: Step)
    requires Executable(p, steps)
    ensures Executable(p, steps + [step]) <==> Enabled(Run(p, steps), step)
    ensures Enabled(Run(p, steps), step) ==> Run(p, steps + [step]) == Apply(Run(p, steps), step)
    decreases |steps|
  {
    if steps != [] {
      RunExtends(Apply(p, steps[0]), steps[1..], step);
      assert (steps + [step])[1..] == steps[1..] + [step];
    }
  }

  /** The scheduler and the clients are free: an idle client may submit any job, the destructor may be called,
      a notification may wake any sleeper, a sleeper may wake by itself, and an awake worker or a job may go on. */
  lemma SchedulerIsFree(p: Pool)
    ensures forall s: nat, outcome | s < |p.submitters| && p.submitters[s] == Idle :: Enabled(p, SubmitPush(s, outcome))
    ensures forall s: nat, w: nat | s < |p.submitters| && p.submitters[s] == OwesNotify
                                    && w < |p.workers| && p.workers[w] == Asleep :: Enabled(p, SubmitNotify(s, w))
    ensures forall w: nat | w < |p.workers| && p.workers[w] == Asleep :: Enabled(p, Spurious(w))
    ensures forall w: nat | w < |p.workers| && p.workers[w] in {Fresh, Notified} :: Enabled(p, CheckQueue(w))
    ensures forall w: nat | w < |p.workers| && p.workers[w].Running? :: Enabled(p, Finish(w))
    ensures p.destructor == NotCalled ==> Enabled(p, Stop)
    ensures p.destructor == OwesBroadcast ==> Enabled(p, Broadcast)
  {
  }

  // ---------- The jobs submitted ----------

  /** The outcomes of the jobs that clients submit before the destructor is called, in order. */
  function Submissions(steps: seq<Step>): seq<Outcome> {
    if steps == [] || steps[0].Stop? then []
    else (if steps[0].SubmitPush? then [steps[0].outcome] else []) + Submissions(steps[1..])
  }

  function Outcomes(tasks: seq<Task>): seq<Outcome> {
    seq(|tasks|, i requires 0 <= i < |tasks| => tasks[i].outcome)
  }

  lemma AcceptedByStep(p: Pool, step: Step)
    requires Enabled(p, step)
    ensures Outcomes(Apply(p, step).accepted)
         == Outcomes(p.accepted) + if step.SubmitPush? && !p.stopping then [step.outcome] else []
    ensures Apply(p, step).stopping <==> p.stopping || step.Stop?
  {
  }

  /** Every job submitted before the destructor is called is accepted, in order, and nothing else is. */
  lemma {:induction false} AcceptedAreSubmissions(p: Pool, steps: seq<Step>)
    requires Executable(p, steps)
    ensures Outcomes(Run(p, steps).accepted) == Outcomes(p.accepted) + if p.stopping then [] else Submissions(steps)
    decreases |steps|
  {
    if steps != [] {
      var q := Apply(p, steps[0]);
      AcceptedByStep(p, steps[0]);
      AcceptedAreSubmissions(q, steps[1..]);
      if steps[0].SubmitPush? && !p.stopping {
        Regroup(Outcomes(p.accepted), [steps[0].outcome], Submissions(steps[1..]));
      }
    }
  }

  // ---------- Job accounting ----------

  ghost predicate RunsTask(p: Pool, w: nat, id: nat) {
    w < |p.workers| && p.workers[w].Running? && p.workers[w].task.id == id
  }

  ghost predicate AccountsInv(p: Pool) {
    && p.accepted == p.started + p.queue
    && (forall k | 0 <= k < |p.accepted| :: p.accepted[k].id == k)
    && (forall id | id in p.futures :: id < |p.started| && p.futures[id] == p.started[id].outcome)
    && (forall w | 0 <= w < |p.workers| && p.workers[w].Running? ::
          && p.workers[w].task.id < |p.started|
          && p.workers[w].task == p.started[p.workers[w].task.id]
          && p.workers[w].task.id !in p.futures)
    && (forall v, w | 0 <= v < w < |p.workers| && p.workers[v].Running? && p.workers[w].Running? ::
          p.workers[v].task.id != p.workers[w].task.id)
  }

  /** Accepted jobs are the started ones followed by the queued ones, and every started job is
      either running on exactly one worker or finished, with its own outcome in its future. */
  ghost predicate JobsInv(p: Pool) {
    && AccountsInv(p)
    && (forall id: nat | id < |p.started| && id !in p.futures :: exists w: nat :: RunsTask(p, w, id))
  }

  lemma PopAccounts(p: Pool, w: nat)
    requires AccountsInv(p) && Enabled(p, CheckQueue(w)) && p.queue != []
    ensures AccountsInv(Checked(p, w))
  {
    assert p.accepted[|p.started|] == p.queue[0];
  }

  lemma PushAccounts(p: Pool, s: nat, outcome: Outcome)
    requires AccountsInv(p) && s < |p.submitters|
    ensures AccountsInv(Submitted(p, s, outcome))
  {
  }

  lemma NotifyAccounts(p: Pool, s: nat, wake: nat)
    requires AccountsInv(p) && Enabled(p, SubmitNotify(s, wake))
    ensures AccountsInv(Apply(p, SubmitNotify(s, wake)))
  {
  }

  lemma FinishAccounts(p: Pool, w: nat)
    requires AccountsInv(p) && Enabled(p, Finish(w))
    ensures AccountsInv(Apply(p, Finish(w)))
  {
  }

  lemma AccountsInvStep(p: Pool, step: Step)
    requires AccountsInv(p) && Enabled(p, step)
    ensures AccountsInv(Apply(p, step))
  {
    match step
    case CheckQueue(w) => if p.queue != [] { PopAccounts(p, w); }
    case Finish(w) => FinishAccounts(p, w);
    case SubmitPush(s, outcome) => PushAccounts(p, s, outcome);
    case SubmitNotify(s, wake) => NotifyAccounts(p, s, wake);
    case _ =>
  }

  /** A started job that has not finished still runs after the step. */
  lemma StillRuns(p: Pool, step: Step, id: nat) returns (w: nat)
    requires JobsInv(p) && Enabled(p, step)
    requires id < |p.started| && id !in Apply(p, step).futures
    ensures RunsTask(Apply(p, step), w, id)
  {
    w :| RunsTask(p, w, id);
  }

  lemma JobsInvStep(p: Pool, step: Step)
    requires JobsInv(p) && Enabled(p, step)
    ensures JobsInv(Apply(p, step))
  {
    AccountsInvStep(p, step);
    var q := Apply(p, step);
    forall id: nat | id < |q.started| && id !in q.futures
      ensures exists w: nat :: RunsTask(q, w, id)
    {
      if id < |p.started| {
        var w := StillRuns(p, step, id);
      } else {
        assert p.accepted[id] == p.queue[0];
        assert RunsTask(q, step.w, id);
      }
    }
  }

  // ---------- Wakeups ----------

  function IsNotified(w: Worker): int { if w.Notified? then 1 else 0 }

  function Owes(s: Submitter): int { if s.OwesNotify? then 1 else 0 }

  ghost predicate WakeInv(p: Pool) {
    && (p.stopping <==> !p.destructor.NotCalled?)
    && (!p.stopping && AnyAsleep(p.workers) ==>
          |p.queue| <= Sum(p.workers, IsNotified) + Sum(p.submitters, Owes))
    && (p.stopping && AnyAsleep(p.workers) ==> p.destructor.OwesBroadcast?)
    && (forall w | 0 <= w < |p.workers| && p.workers[w].Exited? :: p.stopping && p.queue == [])
    && (p.destructor.Joining? ==>
          && p.destructor.joined <= |p.workers|
          && forall w | 0 <= w < p.destructor.joined :: p.workers[w].Exited?)
  }

  lemma CheckQueueWakes(p: Pool, w: nat)
    requires WakeInv(p) && Enabled(p, CheckQueue(w))
    ensures WakeInv(Checked(p, w))
  {
    SumLower(p.submitters, Owes, 0);
    SumLower(Checked(p, w).workers, IsNotified, 0);
    SumUpdate(p.workers, w, Checked(p, w).workers[w], IsNotified);
  }

  lemma WakeInvStep(p: Pool, step: Step)
    requires WakeInv(p) && Enabled(p, step)
    ensures WakeInv(Apply(p, step))
  {
    match step
    case SubmitPush(s, _) => SumUpdate(p.submitters, s, OwesNotify, Owes);
    case SubmitNotify(s, wake) =>
      SumUpdate(p.submitters, s, Idle, Owes);
      if AnyAsleep(p.workers) {
        SumUpdate(p.workers, wake, Notified, IsNotified);
      }
    case CheckQueue(w) => CheckQueueWakes(p, w);
    case Finish(w) => SumUpdate(p.workers, w, Fresh, IsNotified);
    case Spurious(w) => SumUpdate(p.workers, w, Notified, IsNotified);
    case _ =>
  }

  // ---------- Invariants over all runs ----------

  /** A state some run of a pool with at least one worker reaches. */
  ghost predicate Reachable(p: Pool) {
    exists threads: nat, submitters: nat, steps: seq<Step> ::
      threads > 0 && Executable(Init(threads, submitters), steps) && p == Run(Init(threads, submitters), steps)
  }

  ghost predicate Inv(p: Pool) {
    JobsInv(p) && WakeInv(p) && |p.workers| > 0
  }

  lemma {:induction false} RunInv(p: Pool, steps: seq<Step>)
    requires Inv(p) && Executable(p, steps)
    ensures Inv(Run(p, steps))
    decreases |steps|
  {
    if steps != [] {
      JobsInvStep(p, steps[0]);
      WakeInvStep(p, steps[0]);
      RunInv(Apply(p, steps[0]), steps[1..]);
    }
  }

  lemma ReachableInv(p: Pool)
    requires Reachable(p)
    ensures Inv(p)
  {
    var threads: nat, submitters: nat, steps: seq<Step> :|
      threads > 0 && Executable(Init(threads, submitters), steps) && p == Run(Init(threads, submitters), steps);
    RunInv(Init(threads, submitters), steps);
  }

  /** Main result: notifying outside the lock loses no wakeup. While a worker sleeps un-notified, every
      queued job is covered by a worker already notified or by a submitter that still owes its notify. */
  lemma NoLostWakeup(p: Pool, w: nat)
    requires Reachable(p) && !p.stopping && w < |p.workers| && p.workers[w] == Asleep
    ensures |p.queue| <= Sum(p.workers, IsNotified) + Sum(p.submitters, Owes)
  {
    ReachableInv(p);
  }

  /** Steps the pool takes on its own: not a call by a client and not a spurious wakeup. */
  predicate PoolStep(step: Step) {
    !step.SubmitPush? && !step.Stop? && !step.Spurious?
  }

  ghost predicate CanProgress(p: Pool) {
    exists step: Step :: PoolStep(step) && Enabled(p, step)
  }

  lemma ActiveWorkerProgresses(p: Pool, w: nat)
    requires w < |p.workers| && !p.workers[w].Asleep? && !p.workers[w].Exited?
    ensures CanProgress(p)
  {
    if p.workers[w].Running? {
      assert Enabled(p, Finish(w));
    } else {
      assert Enabled(p, CheckQueue(w));
    }
  }

  lemma OwedNotifyProgresses(p: Pool)
    requires Sum(p.submitters, Owes) > 0
    ensures CanProgress(p)
  {
    var s := PositiveTerm(p.submitters, Owes);
    if AnyAsleep(p.workers) {
      var w :| 0 <= w < |p.workers| && p.workers[w].Asleep?;
      assert Enabled(p, SubmitNotify(s, w));
    } else {
      assert Enabled(p, SubmitNotify(s, 0));
    }
  }

  /** Before shutdown a queued or running job always leaves a non-spurious step; so a pool that can
      make no step on its own has run everything it accepted. */
  lemma NoStuckJob(p: Pool)
    requires Reachable(p) && !p.stopping
    requires forall step: Step | !step.SubmitPush? && !step.Stop? && !step.Spurious? :: !Enabled(p, step)
    ensures p.queue == [] && p.started == p.accepted
    ensures forall id: nat | id < |p.accepted| :: id in p.futures && p.futures[id] == p.accepted[id].outcome
  {
    ReachableInv(p);
    forall w | 0 <= w < |p.workers| ensures p.workers[w].Asleep? {
      if !p.workers[w].Asleep? {
        ActiveWorkerProgresses(p, w);
      }
    }
    assert p.workers[0].Asleep?;
    SumUpper(p.workers, IsNotified, 0);
    if Sum(p.submitters, Owes) > 0 {
      OwedNotifyProgresses(p);
    }
    assert forall w: nat, id: nat :: !RunsTask(p, w, id);
  }

  // ---------- Draining shutdown ----------

  /** Once every worker has exited, the jobs popped are exactly the jobs accepted, in that order and
      each once, and each future holds its own job's outcome. */
  lemma DrainedWhenAllExited(p: Pool)
    requires Reachable(p) && forall w | 0 <= w < |p.workers| :: p.workers[w].Exited?
    ensures p.stopping && p.started == p.accepted
    ensures p.futures == map k | 0 <= k < |p.accepted| :: p.accepted[k].outcome
  {
    ReachableInv(p);
    assert p.workers[0].Exited?;
    assert forall w: nat, id: nat :: !RunsTask(p, w, id);
  }

  /** `q` comes after `p`: histories only grow, futures keep their outcomes, and a stopped pool accepts nothing. */
  ghost predicate Continues(p: Pool, q: Pool) {
    && p.accepted <= q.accepted && p.started <= q.started
    && (p.stopping ==> q.stopping && q.accepted == p.accepted)
    && (forall id | id in p.futures :: id in q.futures && q.futures[id] == p.futures[id])
  }

  lemma StepContinues(p: Pool, step: Step)
    requires Inv(p) && Enabled(p, step)
    ensures Inv(Apply(p, step)) && Continues(p, Apply(p, step))
  {
    JobsInvStep(p, step);
    WakeInvStep(p, step);
  }

  lemma {:induction false} RunContinues(p: Pool, steps: seq<Step>)
    requires Inv(p) && Executable(p, steps)
    ensures Inv(Run(p, steps)) && Continues(p, Run(p, steps))
    decreases |steps|
  {
    if steps != [] {
      StepContinues(p, steps[0]);
      RunContinues(Apply(p, steps[0]), steps[1..]);
    }
  }

  /** Nothing is accepted after `stopping` is set, and jobs always start in acceptance order. */
  lemma RunKeepsOrder(p: Pool, steps: seq<Step>)
    requires Reachable(p) && Executable(p, steps)
    ensures p.accepted <= Run(p, steps).accepted && p.started <= Run(p, steps).started
    ensures Run(p, steps).started <= Run(p, steps).accepted
    ensures p.stopping ==> Run(p, steps).stopping && Run(p, steps).accepted == p.accepted
    ensures forall id | id in p.futures ::
              id in Run(p, steps).futures && Run(p, steps).futures[id] == p.futures[id]
  {
    ReachableInv(p);
    RunContinues(p, steps);
  }

  // ---------- Termination ----------

  function ActiveWeight(w: Worker): int {
    match w
    case Asleep => 0
    case Exited => 0
    case Running(_) => 2
    case _ => 1
  }

  function StoppingWeight(w: Worker): int { if w.Asleep? then 2 else ActiveWeight(w) }

  function DestructorWeight(d: Destructor, n: nat): int {
    match d
    case NotCalled => 3 * n + 2
    case OwesBroadcast => n + 1
    case Joining(joined) => n - joined
  }

  function Weight(p: Pool): Worker -> int { if p.stopping then StoppingWeight else ActiveWeight }

  function Potential(p: Pool): int {
    Sum(p.workers, Weight(p))
    + 2 * |p.queue| + 2 * Sum(p.submitters, Owes) + DestructorWeight(p.destructor, |p.workers|)
  }

  lemma PotentialNonNegative(p: Pool)
    requires WakeInv(p)
    ensures Potential(p) >= 0
  {
    SumLower(p.workers, StoppingWeight, 0);
    SumLower(p.workers, ActiveWeight, 0);
    SumLower(p.submitters, Owes, 0);
  }

  /** How one step changes the potential: a submission adds 4, a spurious wakeup before shutdown adds 1,
      and every other step, spurious wakeups during shutdown included, takes at least 1. */
  lemma StepPotential(p: Pool, step: Step)
    requires WakeInv(p) && Enabled(p, step)
    ensures step.SubmitPush? ==>
              Potential(Apply(p, step)) == Potential(p) + 4 * (|Apply(p, step).accepted| - |p.accepted|)
    ensures step.Spurious? && !p.stopping ==> Potential(Apply(p, step)) == Potential(p) + 1
    ensures !step.SubmitPush? && (step.Spurious? ==> p.stopping) ==> Potential(Apply(p, step)) < Potential(p)
    ensures !step.SubmitPush? ==> Apply(p, step).accepted == p.accepted
  {
    match step
    case SubmitPush(s, _) => SumUpdate(p.submitters, s, OwesNotify, Owes);
    case SubmitNotify(s, wake) => NotifyPotential(p, s, wake);
    case CheckQueue(w) => WorkerPotential(p, step, w);
    case Finish(w) => WorkerPotential(p, step, w);
    case Spurious(w) => WorkerPotential(p, step, w);
    case Stop => StopPotential(p.workers);
    case Broadcast => BroadcastPotential(p);
    case Join =>
  }

  lemma NotifyPotential(p: Pool, s: nat, wake: nat)
    requires Enabled(p, SubmitNotify(s, wake))
    ensures Potential(Apply(p, SubmitNotify(s, wake))) < Potential(p)
  {
    SumUpdate(p.submitters, s, Idle, Owes);
    if AnyAsleep(p.workers) {
      SumUpdate(p.workers, wake, Notified, Weight(p));
    }
  }

  /** A worker's own step, or its spurious wakeup, changes only its own term and the queue's. */
  lemma WorkerPotential(p: Pool, step: Step, w: nat)
    requires Enabled(p, step) && (step == CheckQueue(w) || step == Finish(w) || step == Spurious(w))
    requires WakeInv(p)
    ensures step.Spurious? && !p.stopping ==> Potential(Apply(p, step)) == Potential(p) + 1
    ensures (step.Spurious? ==> p.stopping) ==> Potential(Apply(p, step)) < Potential(p)
  {
    SumUpdate(p.workers, w, Apply(p, step).workers[w], Weight(p));
  }

  lemma BroadcastPotential(p: Pool)
    requires Enabled(p, Broadcast)
    ensures WakeInv(p) ==> Potential(Apply(p, Broadcast)) < Potential(p)
  {
    SumMonotone(WakeAll(p.workers), p.workers, StoppingWeight, StoppingWeight);
  }

  lemma {:induction false} StopPotential(ws: seq<Worker>)
    ensures Sum(ws, StoppingWeight) <= Sum(ws, ActiveWeight) + 2 * |ws|
  {
    if ws != [] {
      StopPotential(ws[1..]);
    }
  }

  predicate IsSpurious(step: Step) { step.Spurious? }

  predicate NotSubmit(step: Step) { !step.SubmitPush? }

  /** What one step adds to and takes from the account that `RunIsPaid` keeps. */
  lemma StepIsPaid(p: Pool, step: Step)
    requires Inv(p) && Enabled(p, step)
    ensures var q := Apply(p, step);
            && Inv(q)
            && (if PoolStep(step) then 1 else 0) + Potential(q)
               <= Potential(p) + 4 * (|q.accepted| - |p.accepted|) + if IsSpurious(step) then 1 else 0
  {
    StepPotential(p, step);
    JobsInvStep(p, step);
    WakeInvStep(p, step);
  }

  lemma {:induction false} RunIsPaid(p: Pool, steps: seq<Step>)
    requires Inv(p) && Executable(p, steps)
    ensures Count(steps, PoolStep) + Potential(Run(p, steps))
            <= Potential(p) + 4 * (|Run(p, steps).accepted| - |p.accepted|) + Count(steps, IsSpurious)
    decreases |steps|
  {
    if steps != [] {
      StepIsPaid(p, steps[0]);
      RunIsPaid(Apply(p, steps[0]), steps[1..]);
    }
  }

  /** Main result: from any reachable state, a run makes at most `Potential` steps of its own plus four for
      each job it accepts plus one for each spurious wakeup. */
  lemma RunIsBounded(p: Pool, steps: seq<Step>)
    requires Inv(p) && Executable(p, steps)
    ensures Count(steps, PoolStep)
            <= Potential(p) + 4 * (|Run(p, steps).accepted| - |p.accepted|) + Count(steps, IsSpurious)
  {
    RunIsPaid(p, steps);
    RunInv(p, steps);
    PotentialNonNegative(Run(p, steps));
  }

  /** The bound from construction, in numbers of threads, jobs and steps: all steps that are neither a call by a
      client nor a spurious wakeup. */
  lemma RunFromStartIsBounded(threads: nat, submitters: nat, steps: seq<Step>)
    requires threads > 0 && Executable(Init(threads, submitters), steps)
    ensures |set i: nat | i < |steps| && !steps[i].SubmitPush? && !steps[i].Stop? && !steps[i].Spurious?|
            <= 4 * threads + 2 + 4 * |Submissions(steps)| + |set i: nat | i < |steps| && steps[i].Spurious?|
  {
    var p := Init(threads, submitters);
    RunInv(p, steps);
    RunIsBounded(p, steps);
    SumUpper(p.workers, ActiveWeight, 1);
    SumUpper(p.submitters, Owes, 0);
    AcceptedFromStart(threads, submitters, steps);
    assert |Outcomes(Run(p, steps).accepted)| == |Submissions(steps)|;
    StepCounts(steps);
  }

  lemma StepCounts(steps: seq<Step>)
    ensures Count(steps, PoolStep)
         == |set i: nat | i < |steps| && !steps[i].SubmitPush? && !steps[i].Stop? && !steps[i].Spurious?|
    ensures Count(steps, IsSpurious) == |set i: nat | i < |steps| && steps[i].Spurious?|
    ensures Count(steps, NotSubmit) == |set i: nat | i < |steps| && !steps[i].SubmitPush?|
  {
    CountIsCardinality(steps, PoolStep);
    CountIsCardinality(steps, IsSpurious);
    CountIsCardinality(steps, NotSubmit);
    assert Positions(steps, PoolStep)
        == set i: nat | i < |steps| && !steps[i].SubmitPush? && !steps[i].Stop? && !steps[i].Spurious?;
    assert Positions(steps, IsSpurious) == set i: nat | i < |steps| && steps[i].Spurious?;
    assert Positions(steps, NotSubmit) == set i: nat | i < |steps| && !steps[i].SubmitPush?;
  }

  lemma StoppingStepIsPaid(p: Pool, step: Step)
    requires Inv(p) && p.stopping && Enabled(p, step)
    ensures var q := Apply(p, step);
            Inv(q) && q.stopping && (if NotSubmit(step) then 1 else 0) + Potential(q) <= Potential(p)
  {
    StepPotential(p, step);
    JobsInvStep(p, step);
    WakeInvStep(p, step);
  }

  lemma {:induction false} ShutdownIsPaid(p: Pool, steps: seq<Step>)
    requires Inv(p) && p.stopping && Executable(p, steps)
    ensures Count(steps, NotSubmit) <= Potential(p)
    decreases |steps|
  {
    if steps == [] {
      PotentialNonNegative(p);
    } else {
      StoppingStepIsPaid(p, steps[0]);
      ShutdownIsPaid(Apply(p, steps[0]), steps[1..]);
    }
  }

  /** Main result: once `stopping` is set, only so many steps that are not rejected submissions can follow,
      however the scheduler behaves and however many of them are spurious wakeups. */
  lemma ShutdownTerminates(p: Pool, steps: seq<Step>)
    requires Reachable(p) && p.stopping && Executable(p, steps)
    ensures |set i: nat | i < |steps| && !steps[i].SubmitPush?|
            <= 3 * |p.workers| + 2 * |p.queue| + 2 * |p.submitters| + 1
  {
    ReachableInv(p);
    ShutdownIsPaid(p, steps);
    StepCounts(steps);
    SumUpper(p.workers, StoppingWeight, 2);
    SumUpper(p.submitters, Owes, 1);
  }

  /** During shutdown the pool can always make a step of its own until the last join has returned. */
  lemma ShutdownNeverStuck(p: Pool)
    requires Reachable(p) && p.stopping
    ensures || p.destructor == Joining(|p.workers|)
            || exists step: Step :: !step.SubmitPush? && !step.Stop? && !step.Spurious? && Enabled(p, step)
  {
    ReachableInv(p);
    if p.destructor.OwesBroadcast? {
      assert Enabled(p, Broadcast);
    } else if p.destructor.joined < |p.workers| {
      var w := p.destructor.joined;
      if p.workers[w].Exited? {
        assert Enabled(p, Join);
      } else {
        ActiveWorkerProgresses(p, w);
      }
    }
  }

  /** Main result: the destructor returns only after every job submitted before it was called has run, in the
      order of submission, and has fulfilled its own future. */
  lemma DestructorReturnsDrained(threads: nat, submitters: nat, steps: seq<Step>)
    requires threads > 0 && Executable(Init(threads, submitters), steps)
    requires Run(Init(threads, submitters), steps).destructor == Joining(threads)
    ensures var p, jobs := Run(Init(threads, submitters), steps), Submissions(steps);
            && p.started == p.accepted && Outcomes(p.started) == jobs
            && p.futures == map k | 0 <= k < |jobs| :: jobs[k]
  {
    var p := Run(Init(threads, submitters), steps);
    RunKeepsWorkers(Init(threads, submitters), steps);
    ReachableInv(p);
    DrainedWhenAllExited(p);
    AcceptedFromStart(threads, submitters, steps);
    FuturesOf(p.accepted, Submissions(steps));
  }

  lemma AcceptedFromStart(threads: nat, submitters: nat, steps: seq<Step>)
    requires Executable(Init(threads, submitters), steps)
    ensures Outcomes(Run(Init(threads, submitters), steps).accepted) == Submissions(steps)
  {
    AcceptedAreSubmissions(Init(threads, submitters), steps);
    assert Outcomes([]) + Submissions(steps) == Submissions(steps);
  }

  lemma FuturesOf(tasks: seq<Task>, jobs: seq<Outcome>)
    requires Outcomes(tasks) == jobs
    ensures (map k | 0 <= k < |tasks| :: tasks[k].outcome) == map k | 0 <= k < |jobs| :: jobs[k]
  {
    assert |tasks| == |jobs| && forall k | 0 <= k < |jobs| :: jobs[k] == tasks[k].outcome;
  }

  lemma {:induction false} RunKeepsWorkers(p: Pool, steps: seq<Step>)
    requires Executable(p, steps)
    ensures |Run(p, steps).workers| == |p.workers|
    decreases |steps|
  {
    if steps != [] {
      RunKeepsWorkers(Apply(p, steps[0]), steps[1..]);
    }
  }

  // ---------- The class ----------

  class ThreadPool {
    var queue: seq<Task>
    var stopping: bool
    var workers: seq<Worker>
    var submitters: seq<Submitter>
    var destructor: Destructor
    var accepted: seq<Task>
    var started: seq<Task>
    var futures: map<nat, Outcome>

    ghost function View(): Pool
      reads this
    {
      Pool(queue, stopping, workers, submitters, destructor, accepted, started, futures)
    }

    constructor (threads: nat, submitters: nat)
      requires threads > 0
      ensures View() == Init(threads, submitters)
      ensures queue == [] && !stopping && workers == seq(threads, _ => Fresh)
      ensures this.submitters == seq(submitters, _ => Idle) && destructor == NotCalled
      ensures accepted == started == [] && futures == map[]
    {
      queue, stopping, workers := [], false, [];
      this.submitters, destructor := seq(submitters, _ => Idle), NotCalled;
      accepted, started, futures := [], [], map[];
      new;
      for i := 0 to threads
        invariant View() == Init(i, submitters)
      {
        workers := workers + [Fresh];
      }
    }

    /** The constructor throws `invalid_argument` for zero threads. */
    static method Make(threads: nat, submitters: nat) returns (pool: Option<ThreadPool>)
      ensures pool.None? <==> threads == 0
      ensures pool.Some? ==>
                && fresh(pool.value) && pool.value.View() == Init(threads, submitters)
                && pool.value.workers == seq(threads, _ => Fresh) && pool.value.queue == [] && !pool.value.stopping
    {
      if threads == 0 {
        return None;
      }
      var made := new ThreadPool(threads, submitters);
      pool := Some(made);
    }

    /** The locked block of `submit`; the call throws when it is not accepted. */
    method SubmitLocked(s: nat, outcome: Outcome) returns (ok: bool)
      requires Enabled(View(), SubmitPush(s, outcome))
      modifies this`queue, this`accepted, this`submitters
      ensures View() == Apply(old(View()), SubmitPush(s, outcome))
      ensures ok == !stopping
      ensures ok ==>
                var task := Task(|old(accepted)|, outcome);
                && queue == old(queue) + [task] && accepted == old(accepted) + [task]
                && submitters == old(submitters)[s := OwesNotify]
      ensures !ok ==> queue == old(queue) && accepted == old(accepted) && submitters == old(submitters)
    {
      if stopping {
        return false;
      }
      var task := Task(|accepted|, outcome);
      queue := queue + [task];
      accepted := accepted + [task];
      submitters := submitters[s := OwesNotify];
      ok := true;
    }

    /** `cv_.notify_one()` after the unlock. */
    method NotifyOne(s: nat, wake: nat)
      requires Enabled(View(), SubmitNotify(s, wake))
      modifies this`workers, this`submitters
      ensures View() == Apply(old(View()), SubmitNotify(s, wake))
      ensures submitters == old(submitters)[s := Idle]
      ensures workers == if Asleep in old(workers) then old(workers)[wake := Notified] else old(workers)
    {
      if AnyAsleep(workers) {
        workers := workers[wake := Notified];
      }
      submitters := submitters[s := Idle];
    }

    /** The locked block of the destructor. */
    method StopLocked()
      requires Enabled(View(), Stop)
      modifies this`stopping, this`destructor
      ensures View() == Apply(old(View()), Stop)
      ensures stopping && destructor == OwesBroadcast
    {
      stopping := true;
      destructor := OwesBroadcast;
    }

    /** `cv_.notify_all()` of the destructor. */
    method NotifyAll()
      requires Enabled(View(), Broadcast)
      modifies this`workers, this`destructor
      ensures View() == Apply(old(View()), Broadcast)
      ensures destructor == Joining(0) && |workers| == |old(workers)|
      ensures forall w | 0 <= w < |workers| ::
                workers[w] == if old(workers[w]) == Asleep then Notified else old(workers[w])
    {
      workers := WakeAll(workers);
      destructor := Joining(0);
    }

    /** One turn of the loop of the destructor that joins the workers. */
    method JoinNext()
      requires Enabled(View(), Join)
      modifies this`destructor
      ensures View() == Apply(old(View()), Join)
      ensures old(destructor.joined) < |workers| && workers[old(destructor.joined)] == Exited
      ensures destructor == Joining(old(destructor.joined) + 1)
    {
      destructor := Joining(destructor.joined + 1);
    }

    /** The locked block of `worker_loop`: the wait predicate, the exit test, and the pop. */
    method CheckQueueLocked(w: nat)
      requires Enabled(View(), CheckQueue(w))
      modifies this`workers, this`queue, this`started
      ensures View() == Apply(old(View()), CheckQueue(w))
      ensures old(queue) == [] ==>
                && queue == [] && started == old(started)
                && workers == old(workers)[w := if stopping then Exited else Asleep]
      ensures old(queue) != [] ==>
                && old(queue) == [old(queue[0])] + queue && started == old(started) + [old(queue[0])]
                && workers == old(workers)[w := Running(old(queue[0]))]
    {
      if !(stopping || queue != []) {
        workers := workers[w := Asleep];
        return;
      }
      if stopping && queue == [] {
        workers := workers[w := Exited];
        return;
      }
      var job := queue[0];
      queue := queue[1..];
      started := started + [job];
      workers := workers[w := Running(job)];
    }

    /** `job()`, run outside the lock: the packaged task stores its outcome in the future. */
    method RunJob(w: nat)
      requires Enabled(View(), Finish(w))
      modifies this`workers, this`futures
      ensures View() == Apply(old(View()), Finish(w))
      ensures old(workers[w]).Running? && workers == old(workers)[w := Fresh]
      ensures futures == old(futures)[old(workers[w]).task.id := old(workers[w]).task.outcome]
    {
      var job := workers[w].task;
      futures := futures[job.id := job.outcome];
      workers := workers[w := Fresh];
    }

    /** Executes a step by calling the member that makes it; a spurious wakeup is made by the system. */
    method Execute(step: Step)
      requires Enabled(View(), step)
      modifies this
      ensures View() == Apply(old(View()), step)
    {
      match step
      case SubmitPush(s, outcome) => var ok := SubmitLocked(s, outcome);
      case SubmitNotify(s, wake) => NotifyOne(s, wake);
      case Stop => StopLocked();
      case Broadcast => NotifyAll();
      case Join => JoinNext();
      case CheckQueue(w) => CheckQueueLocked(w);
      case Finish(w) => RunJob(w);
      case Spurious(w) => workers := workers[w := Notified];
    }

    /** Executes a whole schedule, so the theorems about `Run` are theorems about the object. */
    method ExecuteAll(steps: seq<Step>)
      requires Executable(View(), steps)
      modifies this
      ensures View() == Run(old(View()), steps)
      decreases |steps|
    {
      if steps != [] {
        Execute(steps[0]);
        ExecuteAll(steps[1..]);
      }
    }
  }
}
