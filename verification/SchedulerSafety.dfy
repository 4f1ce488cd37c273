/** What every step of the scheduler keeps, without assumptions on the containers. */
module SchedulerSafety {
  import opened JobStates
  import opened Manifests
  import opened Wrappers
  import opened Scheduler

  // How a job's status, stage and messages hang together, given the runner.
  ghost predicate JobOk(runner: Runner, id: Uuid, spec: JobSpec, job: Job) {
    && StageOk(runner, id, job)
    && MessagesOk(runner, id, spec, job)
  }

  ghost predicate StageOk(runner: Runner, id: Uuid, job: Job) {
    && (job.stage.Queued? ==> job.status.Rank() <= 3)
    && (job.stage.Queued? && job.status.Starting? <==> runner.Acquiring? && runner.job == id)
    && (job.stage.Launching? ==> job.status.Starting?)
    && (job.stage.Created? ==> job.status.Running?)
    && (job.stage.Watching? || job.logOpen || job.waitOpen ==> job.status.Rank() >= 4)
    && (!job.stage.Queued? ==> job.status.Rank() >= 3)
    && (job.logOpen ==> job.stage.Watching?)
    && (job.waitOpen ==> !job.stage.Queued? && !job.stage.Launching? && !job.stage.Created?)
  }

  ghost predicate MessagesOk(runner: Runner, id: Uuid, spec: JobSpec, job: Job) {
    && !job.added.Unsent?
    && (job.status.Submitted? ==> job.added.Blocked? || (runner.Updating? && id in runner.todo))
    && (job.status.Pending? ==> spec.dependsOn != [])
    && (!job.wake.Unsent? || id in runner.Owed() ==> job.status.Rank() >= 2 && spec.dependsOn != [])
    && (!job.wake.Unsent? ==> id !in runner.Owed())
    && (runner.Updating? && id in runner.freed ==> job.status.Runnable?)
    && (!job.finished.Unsent? <==> job.stage.Released?)
  }

  ghost predicate RunnerOk(jobs: Jobs, runner: Runner) {
    && (runner.Updating? ==> runner.todo <= jobs.Keys)
    && (runner.Acquiring? ==> runner.job in jobs)
    && (runner.Waking? ==> runner.freed != [])
    && (forall id | id in runner.Owed() :: id in jobs)
    && (forall i, j | 0 <= i < j < |runner.Owed()| :: runner.Owed()[i] != runner.Owed()[j])
  }

  ghost predicate Inv(plan: Plan, concurrency: nat, s: State) {
    && ValidPlan(plan)
    && s.jobs.Keys <= plan.specs.Keys
    && RunnerOk(s.jobs, s.runner)
    && (forall id | id in s.jobs :: JobOk(s.runner, id, plan.specs[id], s.jobs[id]))
  }

  // -------- one step, job by job --------

  lemma WorkedOnOk(concurrency: nat, s: State, spec: JobSpec, job: Job, step: Step)
    requires WorkerStep(step) && EnabledFor(concurrency, s, job, step)
    requires JobOk(s.runner, step.id, spec, job)
    ensures JobOk(s.runner, step.id, spec, WorkedOn(job, step))
    ensures job.status.Rank() <= WorkedOn(job, step).status.Rank()
  {
  }

  lemma HandledOk(plan: Plan, concurrency: nat, s: State, step: Step)
    requires RunnerStep(step) && !step.NoneRunnable? && Enabled(plan, concurrency, s, step)
    requires RunnerOk(s.jobs, s.runner)
    requires JobOk(s.runner, step.id, plan.specs[step.id], s.jobs[step.id])
    ensures JobOk(RunnerAfter(plan, concurrency, s, step), step.id, plan.specs[step.id],
                  Handled(plan.specs, StatusesOf(s.jobs), s.jobs[step.id], step))
    ensures s.jobs[step.id].status.Rank() <= JobAfter(plan, s, step).status.Rank()
  {
  }

  lemma OtherJobOk(plan: Plan, concurrency: nat, s: State, step: Step, id: Uuid)
    requires Enabled(plan, concurrency, s, step) && id in s.jobs && id in plan.specs
    requires RunnerOk(s.jobs, s.runner)
    requires !step.NoneRunnable? ==> step.id != id
    requires JobOk(s.runner, id, plan.specs[id], s.jobs[id])
    ensures JobOk(RunnerAfter(plan, concurrency, s, step), id, plan.specs[id], s.jobs[id])
  {
  }

  lemma RunnerStaysOk(plan: Plan, concurrency: nat, s: State, step: Step)
    requires Inv(plan, concurrency, s) && Enabled(plan, concurrency, s, step)
    ensures RunnerOk(Apply(plan, concurrency, s, step).jobs, RunnerAfter(plan, concurrency, s, step))
  {
    if step.Visit? {
      assert JobOk(s.runner, step.id, plan.specs[step.id], s.jobs[step.id]);
    }
  }

  // -------- every reachable state --------

  ghost predicate WithinLimit(concurrency: nat, s: State) {
    |Holders(s.jobs)| <= concurrency
  }

  lemma InvStep(plan: Plan, concurrency: nat, s: State, step: Step)
    requires Inv(plan, concurrency, s) && Enabled(plan, concurrency, s, step)
    ensures Inv(plan, concurrency, Apply(plan, concurrency, s, step))
  {
    var t := Apply(plan, concurrency, s, step);
    RunnerStaysOk(plan, concurrency, s, step);
    forall id | id in t.jobs
      ensures JobOk(t.runner, id, plan.specs[id], t.jobs[id])
    {
      if id in s.jobs && (step.NoneRunnable? || step.id != id) {
        assert JobOk(s.runner, id, plan.specs[id], s.jobs[id]);
        OtherJobOk(plan, concurrency, s, step, id);
      } else if !step.Submit? {
        TouchedJobOk(plan, concurrency, s, step);
      } else {
        NewJobOk(s.runner, id, plan.specs[id], s.jobs);
      }
    }
  }

  lemma TouchedJobOk(plan: Plan, concurrency: nat, s: State, step: Step)
    requires Inv(plan, concurrency, s) && Enabled(plan, concurrency, s, step)
    requires !step.Submit? && !step.NoneRunnable?
    ensures JobOk(RunnerAfter(plan, concurrency, s, step), step.id, plan.specs[step.id], JobAfter(plan, s, step))
    ensures s.jobs[step.id].status.Rank() <= JobAfter(plan, s, step).status.Rank()
  {
    assert JobOk(s.runner, step.id, plan.specs[step.id], s.jobs[step.id]);
    if WorkerStep(step) {
      WorkedOnOk(concurrency, s, plan.specs[step.id], s.jobs[step.id], step);
    } else {
      HandledOk(plan, concurrency, s, step);
    }
  }

  lemma NewJobOk(runner: Runner, id: Uuid, spec: JobSpec, jobs: Jobs)
    requires RunnerOk(jobs, runner) && id !in jobs
    ensures JobOk(runner, id, spec, NEW_JOB)
  {
  }

  // What one step does to the set of slot holders.
  lemma HoldersStep(plan: Plan, concurrency: nat, s: State, step: Step)
    requires Inv(plan, concurrency, s) && Enabled(plan, concurrency, s, step)
    ensures var t := Apply(plan, concurrency, s, step);
            Holders(t.jobs) == if step.Acquire? then Holders(s.jobs) + {step.id}
                               else if step.Release? then Holders(s.jobs) - {step.id}
                               else Holders(s.jobs)
    ensures step.Acquire? ==> step.id !in Holders(s.jobs)
  {
    var t := Apply(plan, concurrency, s, step);
    if !step.Submit? && !step.NoneRunnable? {
      assert JobOk(s.runner, step.id, plan.specs[step.id], s.jobs[step.id]);
      HoldingStep(plan, concurrency, s, step);
      HoldersAfter(s.jobs, step.id, JobAfter(plan, s, step));
    } else if step.Submit? {
      HoldersAfter(s.jobs, step.id, NEW_JOB);
    }
  }

  lemma HoldersAfter(jobs: Jobs, id: Uuid, job: Job)
    ensures Holders(jobs[id := job]) == if Holding(job) then Holders(jobs) + {id} else Holders(jobs) - {id}
  {
  }

  lemma HoldingStep(plan: Plan, concurrency: nat, s: State, step: Step)
    requires Enabled(plan, concurrency, s, step) && !step.Submit? && !step.NoneRunnable?
    requires StageOk(s.runner, step.id, s.jobs[step.id])
    ensures Holding(JobAfter(plan, s, step)) <==>
              step.Acquire? || (Holding(s.jobs[step.id]) && !step.Release?)
    ensures step.Acquire? ==> !Holding(s.jobs[step.id])
    ensures step.Release? ==> Holding(s.jobs[step.id])
  {
  }

  /**
   No step lowers a status, so a finished job stays finished.
   */
  lemma RankNeverFalls(plan: Plan, concurrency: nat, s: State, step: Step, id: Uuid)
    requires Inv(plan, concurrency, s) && Enabled(plan, concurrency, s, step) && id in s.jobs
    ensures var t := Apply(plan, concurrency, s, step);
            id in t.jobs && s.jobs[id].status.Rank() <= t.jobs[id].status.Rank()
  {
    if !step.Submit? && !step.NoneRunnable? {
      TouchedJobOk(plan, concurrency, s, step);
    }
  }

  ghost predicate RanksGrow(before: Jobs, after: Jobs) {
    forall id | id in before :: id in after && before[id].status.Rank() <= after[id].status.Rank()
  }

  lemma StepGrows(plan: Plan, concurrency: nat, s: State, step: Step)
    requires Inv(plan, concurrency, s) && Enabled(plan, concurrency, s, step)
    ensures RanksGrow(s.jobs, Apply(plan, concurrency, s, step).jobs)
  {
    var after := Apply(plan, concurrency, s, step).jobs;
    forall id | id in s.jobs
      ensures id in after && s.jobs[id].status.Rank() <= after[id].status.Rank()
    {
      RankNeverFalls(plan, concurrency, s, step, id);
    }
  }

  lemma StepWithinLimit(plan: Plan, concurrency: nat, s: State, step: Step)
    requires Inv(plan, concurrency, s) && Enabled(plan, concurrency, s, step) && WithinLimit(concurrency, s)
    ensures WithinLimit(concurrency, Apply(plan, concurrency, s, step))
  {
    HoldersStep(plan, concurrency, s, step);
  }

  lemma NextInv(plan: Plan, concurrency: nat, s: State, t: State)
    requires Inv(plan, concurrency, s) && WithinLimit(concurrency, s) && Next(plan, concurrency, s, t)
    ensures Inv(plan, concurrency, t) && WithinLimit(concurrency, t) && RanksGrow(s.jobs, t.jobs)
  {
    var step :| Enabled(plan, concurrency, s, step) && t == Apply(plan, concurrency, s, step);
    InvStep(plan, concurrency, s, step);
    StepWithinLimit(plan, concurrency, s, step);
    StepGrows(plan, concurrency, s, step);
  }

  lemma {:induction false} RunInv(plan: Plan, concurrency: nat, run: seq<State>, n: nat)
    requires ValidPlan(plan) && IsRun(plan, concurrency, run) && n < |run|
    ensures Inv(plan, concurrency, run[n]) && WithinLimit(concurrency, run[n])
  {
    if n == 0 {
      assert Holders(INITIAL.jobs) == {};
    } else {
      RunInv(plan, concurrency, run, n - 1);
      NextInv(plan, concurrency, run[n - 1], run[n]);
    }
  }

  // The step that a run takes before moment n.
  lemma StepBefore(plan: Plan, concurrency: nat, run: seq<State>, n: nat) returns (step: Step)
    requires ValidPlan(plan) && IsRun(plan, concurrency, run) && 0 < n < |run|
    ensures Inv(plan, concurrency, run[n - 1])
    ensures Enabled(plan, concurrency, run[n - 1], step) && run[n] == Apply(plan, concurrency, run[n - 1], step)
  {
    RunInv(plan, concurrency, run, n - 1);
    assert Next(plan, concurrency, run[n - 1], run[n]);
    step :| Enabled(plan, concurrency, run[n - 1], step) && run[n] == Apply(plan, concurrency, run[n - 1], step);
  }

  lemma RunGrows(plan: Plan, concurrency: nat, run: seq<State>, n: nat)
    requires ValidPlan(plan) && IsRun(plan, concurrency, run) && 0 < n < |run|
    ensures RanksGrow(run[n - 1].jobs, run[n].jobs)
  {
    RunInv(plan, concurrency, run, n - 1);
    NextInv(plan, concurrency, run[n - 1], run[n]);
  }

  lemma GrowthAdds(a: Jobs, b: Jobs, c: Jobs)
    requires RanksGrow(a, b) && RanksGrow(b, c)
    ensures RanksGrow(a, c)
  {
  }

  // Between two moments of a run no status falls.
  lemma {:induction false} RunRanks(plan: Plan, concurrency: nat, run: seq<State>, m: nat, n: nat)
    requires ValidPlan(plan) && IsRun(plan, concurrency, run) && m <= n < |run|
    ensures RanksGrow(run[m].jobs, run[n].jobs)
    decreases n
  {
    if m == n {
    } else {
      RunRanks(plan, concurrency, run, m, n - 1);
      RunGrows(plan, concurrency, run, n);
      GrowthAdds(run[m].jobs, run[n - 1].jobs, run[n].jobs);
    }
  }

  // The run takes job id from the queue between moment n and the next.
  ghost predicate StartsAt(run: seq<State>, n: nat, id: Uuid) {
    && n + 1 < |run| && id in run[n].jobs && id in run[n + 1].jobs
    && run[n].jobs[id].status.Rank() < 3 <= run[n + 1].jobs[id].status.Rank()
  }

  /**
   Each job is started at most once.
   */
  lemma StartedOnce(plan: Plan, concurrency: nat, run: seq<State>, m: nat, n: nat, id: Uuid)
    requires ValidPlan(plan) && IsRun(plan, concurrency, run)
    requires StartsAt(run, m, id) && StartsAt(run, n, id)
    ensures m == n
  {
    if m < n {
      RunRanks(plan, concurrency, run, m + 1, n);
    } else if n < m {
      RunRanks(plan, concurrency, run, n + 1, m);
    }
  }

  // Jobs taken from the queue whose slot has not been given back.
  ghost function TakenNotReleased(jobs: Jobs): set<Uuid> {
    set id | id in jobs && jobs[id].status.Rank() >= 3 && !jobs[id].stage.Released?
  }

  /**
   The limiter: at most concurrency goroutines hold a slot, at most one more job
   is taken and unreleased, and the runner is stuck on the limiter exactly when
   every slot is held.
   */
  lemma Limiter(plan: Plan, concurrency: nat, run: seq<State>, n: nat)
    requires ValidPlan(plan) && IsRun(plan, concurrency, run) && n < |run|
    ensures var s := run[n];
            && |Holders(s.jobs)| <= concurrency
            && |TakenNotReleased(s.jobs)| <= concurrency + 1
            && (s.runner.Acquiring? ==>
                  (!Enabled(plan, concurrency, s, Acquire(s.runner.job)) <==> |Holders(s.jobs)| == concurrency))
  {
    RunInv(plan, concurrency, run, n);
    TakenHolds(plan, concurrency, run[n]);
    if run[n].runner.Acquiring? {
      AcquireIsBlocked(plan, concurrency, run[n]);
    }
  }

  lemma TakenHolds(plan: Plan, concurrency: nat, s: State)
    requires Inv(plan, concurrency, s)
    ensures |TakenNotReleased(s.jobs)| <= |Holders(s.jobs)| + 1
  {
    forall id | id in TakenNotReleased(s.jobs)
      ensures id in Holders(s.jobs) || (s.runner.Acquiring? && id == s.runner.job)
    {
      assert JobOk(s.runner, id, plan.specs[id], s.jobs[id]);
    }
    var bound := Holders(s.jobs) + if s.runner.Acquiring? then {s.runner.job} else {};
    SubsetSize(TakenNotReleased(s.jobs), bound);
  }

  lemma AcquireIsBlocked(plan: Plan, concurrency: nat, s: State)
    requires Inv(plan, concurrency, s) && WithinLimit(concurrency, s) && s.runner.Acquiring?
    ensures !Enabled(plan, concurrency, s, Acquire(s.runner.job)) <==> |Holders(s.jobs)| == concurrency
  {
  }

  lemma {:induction false} SubsetSize<T>(a: set<T>, b: set<T>)
    requires a <= b
    ensures |a| <= |b|
  {
    if a == {} {
    } else {
      var x :| x in a;
      SubsetSize(a - {x}, b - {x});
    }
  }
}
