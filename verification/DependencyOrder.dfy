/** No job is started before the jobs it depends on have finished. */
module DependencyOrder {
  import opened JobStates
  import opened Manifests
  import opened Scheduler
  import opened SchedulerSafety

  ghost predicate Finished(jobs: Jobs, id: Uuid) {
    id in jobs && jobs[id].status.Done()
  }

  // Whatever the job depends on has finished.
  ghost predicate Cleared(plan: Plan, jobs: Jobs, id: Uuid) {
    forall k | DependencyOf(plan.specs, id, k) :: Finished(jobs, k)
  }

  // Submission order is kept, and only cleared jobs have left the waiting statuses.
  ghost predicate InOrder(plan: Plan, jobs: Jobs) {
    && (forall id, k | id in jobs && id in plan.earlier && k in plan.earlier[id] :: k in jobs)
    && (forall id | id in jobs && jobs[id].status.Rank() >= 2 :: Cleared(plan, jobs, id))
  }

  // Only a visit that waits for nothing lets a job leave the waiting statuses.
  lemma LeavingIsCleared(plan: Plan, concurrency: nat, s: State, step: Step)
    requires Inv(plan, concurrency, s) && Enabled(plan, concurrency, s, step)
    requires !step.Submit? && !step.NoneRunnable?
    requires s.jobs[step.id].status.Rank() < 2 <= JobAfter(plan, s, step).status.Rank()
    ensures plan.specs[step.id].dependsOn == [] || !Waits(plan.specs, StatusesOf(s.jobs), step.id)
  {
    assert JobOk(s.runner, step.id, plan.specs[step.id], s.jobs[step.id]);
    WorkedOnHasLeft(concurrency, s, plan.specs[step.id], s.jobs[step.id], step);
  }

  // The goroutines of a job work only on jobs that have been taken from the queue.
  lemma WorkedOnHasLeft(concurrency: nat, s: State, spec: JobSpec, job: Job, step: Step)
    requires !step.Submit? && !step.NoneRunnable? && EnabledFor(concurrency, s, job, step)
    requires JobOk(s.runner, step.id, spec, job)
    ensures WorkerStep(step) ==> job.status.Rank() >= 2
  {
  }

  lemma LeftIsCleared(plan: Plan, concurrency: nat, s: State, step: Step)
    requires Inv(plan, concurrency, s) && Enabled(plan, concurrency, s, step)
    requires DependsOnEarlier(plan) && InOrder(plan, s.jobs)
    requires !step.Submit? && !step.NoneRunnable? && JobAfter(plan, s, step).status.Rank() >= 2
    ensures Cleared(plan, s.jobs, step.id)
  {
    if s.jobs[step.id].status.Rank() < 2 {
      LeavingIsCleared(plan, concurrency, s, step);
      forall k | DependencyOf(plan.specs, step.id, k)
        ensures Finished(s.jobs, k)
      {
        assert k in plan.earlier[step.id];
        assert k in StatusesOf(s.jobs);
      }
    }
  }

  lemma ClearedStays(plan: Plan, before: Jobs, after: Jobs, id: Uuid)
    requires RanksGrow(before, after) && Cleared(plan, before, id)
    ensures Cleared(plan, after, id)
  {
    forall k | DependencyOf(plan.specs, id, k)
      ensures Finished(after, k)
    {
      assert Finished(before, k);
    }
  }

  lemma InOrderStep(plan: Plan, concurrency: nat, s: State, step: Step)
    requires Inv(plan, concurrency, s) && Enabled(plan, concurrency, s, step)
    requires DependsOnEarlier(plan) && InOrder(plan, s.jobs)
    ensures InOrder(plan, Apply(plan, concurrency, s, step).jobs)
  {
    var t := Apply(plan, concurrency, s, step);
    StepGrows(plan, concurrency, s, step);
    forall id | id in t.jobs && t.jobs[id].status.Rank() >= 2
      ensures Cleared(plan, t.jobs, id)
    {
      if !step.NoneRunnable? && !step.Submit? && id == step.id {
        LeftIsCleared(plan, concurrency, s, step);
      }
      ClearedStays(plan, s.jobs, t.jobs, id);
    }
  }

  lemma StartedIsCleared(plan: Plan, jobs: Jobs, id: Uuid)
    requires InOrder(plan, jobs) && id in jobs && jobs[id].status.Rank() >= 2
    ensures Cleared(plan, jobs, id)
  {
  }

  lemma EmptyQueueInOrder(plan: Plan)
    ensures InOrder(plan, INITIAL.jobs)
  {
  }

  lemma {:induction false} RunInOrder(plan: Plan, concurrency: nat, run: seq<State>, n: nat)
    requires ValidPlan(plan) && DependsOnEarlier(plan)
    requires IsRun(plan, concurrency, run) && n < |run|
    ensures InOrder(plan, run[n].jobs)
  {
    if n == 0 {
      EmptyQueueInOrder(plan);
    } else {
      RunInOrder(plan, concurrency, run, n - 1);
      var step := StepBefore(plan, concurrency, run, n);
      InOrderStep(plan, concurrency, run[n - 1], step);
    }
  }

  /**
   Safety over whole runs: once a job is started, every job it depends on has
   finished, and stays finished.
   */
  lemma StartsAfterDependencies(plan: Plan, concurrency: nat, run: seq<State>, m: nat, n: nat, id: Uuid, k: Uuid)
    requires ValidPlan(plan) && DependsOnEarlier(plan)
    requires IsRun(plan, concurrency, run) && m <= n < |run|
    requires id in run[m].jobs && run[m].jobs[id].status.Rank() >= 3
    requires DependencyOf(plan.specs, id, k)
    ensures Finished(run[m].jobs, k) && Finished(run[n].jobs, k)
  {
    RunInOrder(plan, concurrency, run, m);
    StartedIsCleared(plan, run[m].jobs, id);
    RunRanks(plan, concurrency, run, m, n);
    ClearedStays(plan, run[m].jobs, run[n].jobs, id);
  }
}
