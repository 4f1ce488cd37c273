/** Wake-up conservation: no runnable job is ever left without a message that will start it. */
module WakeUps {
  import opened JobStates
  import opened Manifests
  import opened Wrappers
  import opened Scheduler
  import opened SchedulerSafety
  import opened Totals

  // A job that some future message must pick up.
  predicate NeedsMessage(spec: JobSpec, job: Job) {
    job.status.Runnable? || (job.status.Submitted? && spec.dependsOn == [])
  }

  function OneIf(b: bool): int {
    if b then 1 else 0
  }

  function BlockedCount(job: Job): int {
    OneIf(job.added.Blocked?) + OneIf(job.wake.Blocked?) + OneIf(job.finished.Blocked?)
  }

  // Blocked senders of a job, less its need for a message.
  function Slack(spec: JobSpec, job: Job): int {
    BlockedCount(job) - OneIf(NeedsMessage(spec, job))
  }

  ghost function Slacks(specs: Specs, jobs: Jobs): map<Uuid, int>
    requires jobs.Keys <= specs.Keys
  {
    map id | id in jobs :: Slack(specs[id], jobs[id])
  }

  // The message being handled, and the wake-ups whose senders do not exist yet.
  function RunnerOwes(runner: Runner): int {
    OneIf(runner.Updating?) + |runner.Owed()|
  }

  ghost predicate Conserved(plan: Plan, s: State)
    requires s.jobs.Keys <= plan.specs.Keys
  {
    Total(Slacks(plan.specs, s.jobs)) + RunnerOwes(s.runner) >= 0
  }

  lemma SlackWorkedOn(concurrency: nat, s: State, spec: JobSpec, job: Job, step: Step)
    requires WorkerStep(step) && EnabledFor(concurrency, s, job, step)
    requires JobOk(s.runner, step.id, spec, job)
    ensures Slack(spec, WorkedOn(job, step)) >= Slack(spec, job)
  {
  }

  lemma SlackHandled(plan: Plan, concurrency: nat, s: State, step: Step)
    requires RunnerStep(step) && !step.NoneRunnable? && Enabled(plan, concurrency, s, step)
    requires JobOk(s.runner, step.id, plan.specs[step.id], s.jobs[step.id])
    ensures Slack(plan.specs[step.id], Handled(plan.specs, StatusesOf(s.jobs), s.jobs[step.id], step))
              + RunnerOwes(RunnerAfter(plan, concurrency, s, step))
         >= Slack(plan.specs[step.id], s.jobs[step.id]) + RunnerOwes(s.runner)
  {
  }

  lemma SettledJobHasSlack(runner: Runner, id: Uuid, spec: JobSpec, job: Job)
    requires PassMade(runner) && JobOk(runner, id, spec, job) && !job.status.Runnable?
    ensures Slack(spec, job) >= 0 && id !in runner.freed
  {
  }

  lemma FirstOwed(jobs: Jobs, runner: Runner) returns (id: Uuid)
    requires RunnerOk(jobs, runner) && runner.Updating? && runner.freed != []
    ensures id in jobs && id in runner.freed
  {
    id := runner.freed[0];
    assert id in runner.Owed();
  }

  // When the pass is over and found nothing runnable, no wake-up is dropped
  // with it, and every job that still needs a message has its own.
  lemma ContinueDropsNothing(plan: Plan, concurrency: nat, s: State)
    requires Inv(plan, concurrency, s) && Enabled(plan, concurrency, s, NoneRunnable)
    ensures s.runner.freed == []
    ensures Total(Slacks(plan.specs, s.jobs)) >= 0
  {
    forall id | id in s.jobs
      ensures Slack(plan.specs[id], s.jobs[id]) >= 0 && id !in s.runner.freed
    {
      assert JobOk(s.runner, id, plan.specs[id], s.jobs[id]);
      SettledJobHasSlack(s.runner, id, plan.specs[id], s.jobs[id]);
    }
    TotalNonNegative(Slacks(plan.specs, s.jobs));
    if s.runner.freed != [] {
      var id := FirstOwed(s.jobs, s.runner);
    }
  }

  // The touched job and the runner together lose nothing.
  lemma SlackStep(plan: Plan, concurrency: nat, s: State, step: Step)
    requires Inv(plan, concurrency, s) && Enabled(plan, concurrency, s, step)
    requires !step.Submit? && !step.NoneRunnable?
    ensures Slack(plan.specs[step.id], JobAfter(plan, s, step)) + RunnerOwes(RunnerAfter(plan, concurrency, s, step))
         >= Slack(plan.specs[step.id], s.jobs[step.id]) + RunnerOwes(s.runner)
  {
    assert JobOk(s.runner, step.id, plan.specs[step.id], s.jobs[step.id]);
    if WorkerStep(step) {
      SlackWorkedOn(concurrency, s, plan.specs[step.id], s.jobs[step.id], step);
    } else {
      SlackHandled(plan, concurrency, s, step);
    }
  }

  lemma SlacksUpdate(specs: Specs, jobs: Jobs, id: Uuid, job: Job)
    requires jobs.Keys <= specs.Keys && id in specs
    ensures Total(Slacks(specs, jobs[id := job]))
         == Total(Slacks(specs, jobs)) + Slack(specs[id], job) - if id in jobs then Slack(specs[id], jobs[id]) else 0
  {
    assert Slacks(specs, jobs[id := job]) == Slacks(specs, jobs)[id := Slack(specs[id], job)];
    TotalUpdate(Slacks(specs, jobs), id, Slack(specs[id], job));
  }

  lemma ConservedStep(plan: Plan, concurrency: nat, s: State, step: Step)
    requires Inv(plan, concurrency, s) && Enabled(plan, concurrency, s, step)
    requires Conserved(plan, s)
    ensures Apply(plan, concurrency, s, step).jobs.Keys <= plan.specs.Keys
    ensures Conserved(plan, Apply(plan, concurrency, s, step))
  {
    if step.NoneRunnable? {
      ContinueDropsNothing(plan, concurrency, s);
    } else if step.Submit? {
      SlacksUpdate(plan.specs, s.jobs, step.id, NEW_JOB);
    } else {
      SlackStep(plan, concurrency, s, step);
      SlacksUpdate(plan.specs, s.jobs, step.id, JobAfter(plan, s, step));
    }
  }

  lemma {:induction false} RunConserved(plan: Plan, concurrency: nat, run: seq<State>, n: nat)
    requires ValidPlan(plan) && IsRun(plan, concurrency, run) && n < |run|
    ensures run[n].jobs.Keys <= plan.specs.Keys && Conserved(plan, run[n])
  {
    if n == 0 {
    } else {
      RunConserved(plan, concurrency, run, n - 1);
      var step := StepBefore(plan, concurrency, run, n);
      ConservedStep(plan, concurrency, run[n - 1], step);
    }
  }

  // -------- the same, by counting --------

  ghost function Needy(specs: Specs, jobs: Jobs): set<Uuid>
    requires jobs.Keys <= specs.Keys
  {
    set id | id in jobs && NeedsMessage(specs[id], jobs[id])
  }

  ghost function Senders(jobs: Jobs, kind: Kind): set<Uuid> {
    set id | id in jobs && MessageOf(jobs[id], kind).Blocked?
  }

  // Blocked senders, the message being handled, and the wake-ups not yet sent.
  ghost function InFlight(s: State): int {
    |Senders(s.jobs, AddedMsg)| + |Senders(s.jobs, WakeMsg)| + |Senders(s.jobs, FinishedMsg)| + RunnerOwes(s.runner)
  }

  // Blocked ADDED and wake-up senders, job by job.
  function AddedAndWakeCounts(jobs: Jobs): map<Uuid, int> {
    map id | id in jobs :: OneIf(jobs[id].added.Blocked?) + OneIf(jobs[id].wake.Blocked?)
  }

  function BlockedCounts(jobs: Jobs): map<Uuid, int> {
    map id | id in jobs :: BlockedCount(jobs[id])
  }

  lemma CountsAre(jobs: Jobs)
    ensures Total(AddedAndWakeCounts(jobs)) == |Senders(jobs, AddedMsg)| + |Senders(jobs, WakeMsg)|
    ensures Total(BlockedCounts(jobs)) == Total(AddedAndWakeCounts(jobs)) + |Senders(jobs, FinishedMsg)|
  {
    TotalOfIndicator(jobs.Keys, Senders(jobs, AddedMsg));
    TotalOfIndicator(jobs.Keys, Senders(jobs, WakeMsg));
    TotalOfIndicator(jobs.Keys, Senders(jobs, FinishedMsg));
    TotalAdds(AddedAndWakeCounts(jobs),
              Indicator(jobs.Keys, Senders(jobs, AddedMsg)), Indicator(jobs.Keys, Senders(jobs, WakeMsg)));
    TotalAdds(BlockedCounts(jobs), AddedAndWakeCounts(jobs), Indicator(jobs.Keys, Senders(jobs, FinishedMsg)));
  }

  lemma SlacksCount(specs: Specs, jobs: Jobs)
    requires jobs.Keys <= specs.Keys
    ensures Total(Slacks(specs, jobs))
         == |Senders(jobs, AddedMsg)| + |Senders(jobs, WakeMsg)| + |Senders(jobs, FinishedMsg)| - |Needy(specs, jobs)|
  {
    CountsAre(jobs);
    TotalOfIndicator(jobs.Keys, Needy(specs, jobs));
    TotalAdds(BlockedCounts(jobs), Slacks(specs, jobs), Indicator(jobs.Keys, Needy(specs, jobs)));
  }

  /**
   In every reachable state the runnable jobs and the submitted jobs without
   dependencies are at most as many as the messages in flight, and a submitted
   job has its own ADDED message outstanding or is about to be visited.
   */
  lemma WakeUpConservation(plan: Plan, concurrency: nat, run: seq<State>, n: nat)
    requires ValidPlan(plan) && IsRun(plan, concurrency, run) && n < |run|
    ensures run[n].jobs.Keys <= plan.specs.Keys
    ensures |Needy(plan.specs, run[n].jobs)| <= InFlight(run[n])
    ensures forall id | id in run[n].jobs && run[n].jobs[id].status.Submitted? ::
              run[n].jobs[id].added.Blocked? || (run[n].runner.Updating? && id in run[n].runner.todo)
  {
    var s := run[n];
    RunInv(plan, concurrency, run, n);
    RunConserved(plan, concurrency, run, n);
    SlacksCount(plan.specs, s.jobs);
    forall id | id in s.jobs && s.jobs[id].status.Submitted?
      ensures s.jobs[id].added.Blocked? || (s.runner.Updating? && id in s.runner.todo)
    {
      assert JobOk(s.runner, id, plan.specs[id], s.jobs[id]);
    }
  }

  /**
   The runner goes back to waiting without starting a job only when no wake-up
   would be lost by that.
   */
  lemma ContinueIsHarmless(plan: Plan, concurrency: nat, run: seq<State>, n: nat)
    requires ValidPlan(plan) && IsRun(plan, concurrency, run) && n < |run|
    requires Enabled(plan, concurrency, run[n], NoneRunnable)
    ensures run[n].runner.freed == []
  {
    RunInv(plan, concurrency, run, n);
    ContinueDropsNothing(plan, concurrency, run[n]);
  }
}
