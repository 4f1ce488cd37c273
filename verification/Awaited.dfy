/**
 Why a pending job is not forgotten: a visit is due, somebody it waits for will be
 heard of, a job is about to start or to finish, or a submission is still ahead.
 */
module Awaited {
  import opened JobStates
  import opened Manifests
  import opened Wrappers
  import opened Scheduler
  import opened SchedulerSafety
  import opened Liveness
  import opened Quiescence
  import opened WakeUps

  // All the given jobs were submitted and visited.
  ghost predicate Settled(cast: set<Uuid>, jobs: Jobs) {
    forall j | j in cast :: j in jobs && !jobs[j].status.Submitted?
  }

  ghost predicate NotYetHeard(jobs: Jobs, k: Uuid) {
    k in jobs ==> !jobs[k].added.Received?
  }

  // The runner has yet to hear that one of the given jobs was added.
  ghost predicate Ahead(cast: set<Uuid>, jobs: Jobs) {
    exists k :: k in cast && NotYetHeard(jobs, k)
  }

  ghost predicate Launched(jobs: Jobs) {
    exists k :: k in jobs && !jobs[k].stage.Queued?
  }

  ghost predicate Busy(s: State) {
    s.runner.Acquiring? || exists k :: k in s.jobs && Holding(s.jobs[k])
  }

  predicate WillFinish(job: Job) {
    Holding(job) || job.finished.Blocked?
  }

  // A FINISHED message is still to come.
  ghost predicate Coming(s: State) {
    s.runner.Acquiring? || exists k :: k in s.jobs && WillFinish(s.jobs[k])
  }

  // Waits for no job at all.
  ghost predicate WaitsForNone(plan: Plan, id: Uuid) {
    forall k :: !DependencyOf(plan.specs, id, k)
  }

  // The pass will end with this job, or another one, being started.
  ghost predicate WillStart(plan: Plan, s: State, k: Uuid) {
    && s.runner.Updating? && k in s.jobs
    && (s.jobs[k].status.Runnable? || (s.jobs[k].status.Pending? && k in s.runner.todo && WaitsForNone(plan, k)))
  }

  ghost predicate Hope(plan: Plan, s: State) {
    Coming(s) || exists k :: WillStart(plan, s, k)
  }

  ghost predicate StaysBusy(cast: set<Uuid>, s: State) {
    Settled(cast, s.jobs) || !Launched(s.jobs) || Busy(s)
  }

  ghost predicate NotForgotten(plan: Plan, cast: set<Uuid>, s: State, id: Uuid) {
    HeldOrDue(plan, s, id) || Hope(plan, s) || Ahead(cast, s.jobs)
  }

  predicate IsPending(jobs: Jobs, id: Uuid) {
    id in jobs && jobs[id].status.Pending?
  }

  ghost predicate NoneForgotten(plan: Plan, cast: set<Uuid>, s: State) {
    forall id | IsPending(s.jobs, id) :: NotForgotten(plan, cast, s, id)
  }

  predicate IsNew(job: Job) {
    job.status.Submitted? && job.added.Received?
  }

  // At most one job was heard of and not yet visited.
  ghost predicate OneNew(jobs: Jobs) {
    forall j, k | j in jobs && k in jobs && IsNew(jobs[j]) && IsNew(jobs[k]) :: j == k
  }

  lemma NewBefore(plan: Plan, concurrency: nat, s: State, step: Step, id: Uuid)
    requires Inv(plan, concurrency, s) && Enabled(plan, concurrency, s, step)
    requires var t := Apply(plan, concurrency, s, step); id in t.jobs && IsNew(t.jobs[id])
    ensures step.Receive? ==> step.id == id
    ensures !step.Receive? ==> id in s.jobs && IsNew(s.jobs[id])
  {
    if id in s.jobs {
      RankNeverFalls(plan, concurrency, s, step, id);
      if step.Receive? && s.jobs[id].added.Received? {
        HeardIsVisited(plan, concurrency, s, id);
      }
    }
  }

  lemma OneNewStep(plan: Plan, concurrency: nat, s: State, step: Step)
    requires Inv(plan, concurrency, s) && Enabled(plan, concurrency, s, step) && OneNew(s.jobs)
    ensures OneNew(Apply(plan, concurrency, s, step).jobs)
  {
    var t := Apply(plan, concurrency, s, step);
    forall j, k | j in t.jobs && k in t.jobs && IsNew(t.jobs[j]) && IsNew(t.jobs[k])
      ensures j == k
    {
      NewBefore(plan, concurrency, s, step, j);
      NewBefore(plan, concurrency, s, step, k);
    }
  }

  lemma SettledStays(cast: set<Uuid>, before: Jobs, after: Jobs)
    requires RanksGrow(before, after) && Settled(cast, before)
    ensures Settled(cast, after)
  {
  }

  // Only the receipt of a message makes a job heard of.
  lemma AheadStays(plan: Plan, concurrency: nat, cast: set<Uuid>, s: State, step: Step)
    requires Enabled(plan, concurrency, s, step) && !step.Receive? && Ahead(cast, s.jobs)
    ensures Ahead(cast, Apply(plan, concurrency, s, step).jobs)
  {
    var k :| k in cast && NotYetHeard(s.jobs, k);
    assert NotYetHeard(Apply(plan, concurrency, s, step).jobs, k);
  }

  // -------- somebody stays at work --------

  // Only Release ends the holding of a slot.
  lemma HolderStays(plan: Plan, concurrency: nat, s: State, step: Step, k: Uuid)
    requires Inv(plan, concurrency, s) && Enabled(plan, concurrency, s, step)
    requires k in s.jobs && Holding(s.jobs[k]) && step != Release(k)
    ensures var t := Apply(plan, concurrency, s, step); k in t.jobs && Holding(t.jobs[k])
  {
    if !step.Submit? && !step.NoneRunnable? && step.id == k {
      assert JobOk(s.runner, k, plan.specs[k], s.jobs[k]);
      HoldingStep(plan, concurrency, s, step);
    }
  }

  // The runner is blocked on the limiter until the job it took is launched.
  lemma AcquiringStays(plan: Plan, concurrency: nat, s: State, step: Step)
    requires Inv(plan, concurrency, s) && Enabled(plan, concurrency, s, step) && s.runner.Acquiring?
    ensures Busy(Apply(plan, concurrency, s, step))
  {
    var t := Apply(plan, concurrency, s, step);
    if step.Acquire? {
      assert step.id in t.jobs && Holding(t.jobs[step.id]);
    }
  }

  lemma BusyStep(plan: Plan, concurrency: nat, s: State, step: Step)
    requires Inv(plan, concurrency, s) && Enabled(plan, concurrency, s, step)
    requires Busy(s) && (step.Release? ==> s.runner.Acquiring?)
    ensures Busy(Apply(plan, concurrency, s, step))
  {
    if s.runner.Acquiring? {
      AcquiringStays(plan, concurrency, s, step);
    } else {
      var k :| k in s.jobs && Holding(s.jobs[k]);
      HolderStays(plan, concurrency, s, step, k);
    }
  }

  // The first launch makes the scheduler busy.
  lemma LaunchIsBusy(plan: Plan, concurrency: nat, s: State, step: Step)
    requires Inv(plan, concurrency, s) && Enabled(plan, concurrency, s, step)
    requires !Launched(s.jobs) && Launched(Apply(plan, concurrency, s, step).jobs)
    ensures step.Acquire? && Busy(Apply(plan, concurrency, s, step))
  {
    var t := Apply(plan, concurrency, s, step);
    var k :| k in t.jobs && !t.jobs[k].stage.Queued?;
    if !step.Submit? && !step.NoneRunnable? {
      assert k in s.jobs && s.jobs[k].stage.Queued?;
      assert JobOk(s.runner, k, plan.specs[k], s.jobs[k]);
      LaunchIsHolding(plan, concurrency, s, step);
    }
  }

  // The goroutine of a job begins with a slot.
  lemma LaunchIsHolding(plan: Plan, concurrency: nat, s: State, step: Step)
    requires Enabled(plan, concurrency, s, step) && !step.Submit? && !step.NoneRunnable?
    requires StageOk(s.runner, step.id, s.jobs[step.id]) && s.jobs[step.id].stage.Queued?
    requires !JobAfter(plan, s, step).stage.Queued?
    ensures step.Acquire? && Holding(JobAfter(plan, s, step))
  {
  }

  lemma StaysBusyStep(plan: Plan, concurrency: nat, cast: set<Uuid>, s: State, step: Step)
    requires Inv(plan, concurrency, s) && Enabled(plan, concurrency, s, step)
    requires step.Release? ==> s.runner.Acquiring? || Settled(cast, s.jobs)
    requires StaysBusy(cast, s)
    ensures StaysBusy(cast, Apply(plan, concurrency, s, step))
  {
    var t := Apply(plan, concurrency, s, step);
    if Settled(cast, s.jobs) {
      StepGrows(plan, concurrency, s, step);
      SettledStays(cast, s.jobs, t.jobs);
    } else if Launched(s.jobs) {
      BusyStep(plan, concurrency, s, step);
    } else if Launched(t.jobs) {
      LaunchIsBusy(plan, concurrency, s, step);
    }
  }

  // -------- hope lasts until the next message --------

  lemma WillFinishStays(plan: Plan, concurrency: nat, s: State, step: Step, k: Uuid)
    requires Inv(plan, concurrency, s) && Enabled(plan, concurrency, s, step) && !step.Receive?
    requires k in s.jobs && WillFinish(s.jobs[k])
    ensures Coming(Apply(plan, concurrency, s, step))
  {
    var t := Apply(plan, concurrency, s, step);
    if Holding(s.jobs[k]) && step != Release(k) {
      HolderStays(plan, concurrency, s, step, k);
    }
    assert k in t.jobs && WillFinish(t.jobs[k]);
  }

  lemma ComingStays(plan: Plan, concurrency: nat, s: State, step: Step)
    requires Inv(plan, concurrency, s) && Enabled(plan, concurrency, s, step) && !step.Receive?
    requires Coming(s)
    ensures Coming(Apply(plan, concurrency, s, step))
  {
    if s.runner.Acquiring? {
      AcquiringStays(plan, concurrency, s, step);
      BusyIsComing(Apply(plan, concurrency, s, step));
    } else {
      var k :| k in s.jobs && WillFinish(s.jobs[k]);
      WillFinishStays(plan, concurrency, s, step, k);
    }
  }

  lemma BusyIsComing(s: State)
    requires Busy(s)
    ensures Coming(s)
  {
    if !s.runner.Acquiring? {
      var k :| k in s.jobs && Holding(s.jobs[k]);
      assert WillFinish(s.jobs[k]);
    }
  }

  // A visit frees a pending job that waits for nobody.
  lemma VisitStarts(plan: Plan, concurrency: nat, s: State, k: Uuid)
    requires Enabled(plan, concurrency, s, Visit(k)) && WillStart(plan, s, k)
    requires JobOk(s.runner, k, plan.specs[k], s.jobs[k])
    ensures JobAfter(plan, s, Visit(k)).status.Runnable?
  {
    if s.jobs[k].status.Pending? {
      assert !Waits(plan.specs, StatusesOf(s.jobs), k);
    }
  }

  lemma WaitingIsNotWorkedOn(concurrency: nat, s: State, spec: JobSpec, job: Job, step: Step)
    requires !step.Submit? && !step.NoneRunnable? && EnabledFor(concurrency, s, job, step)
    requires JobOk(s.runner, step.id, spec, job)
    ensures WorkerStep(step) ==> job.status.Rank() >= 3
  {
  }

  lemma WillStartStays(plan: Plan, concurrency: nat, s: State, step: Step, k: Uuid)
    requires Inv(plan, concurrency, s) && Enabled(plan, concurrency, s, step) && WillStart(plan, s, k)
    requires !step.Pick?
    ensures WillStart(plan, Apply(plan, concurrency, s, step), k)
  {
    if !step.Submit? && !step.NoneRunnable? && step.id == k {
      assert JobOk(s.runner, k, plan.specs[k], s.jobs[k]);
      WaitingIsNotWorkedOn(concurrency, s, plan.specs[k], s.jobs[k], step);
      if step.Visit? {
        VisitStarts(plan, concurrency, s, k);
      }
    }
  }

  lemma HopeStays(plan: Plan, concurrency: nat, s: State, step: Step)
    requires Inv(plan, concurrency, s) && Enabled(plan, concurrency, s, step) && !step.Receive?
    requires Hope(plan, s)
    ensures Hope(plan, Apply(plan, concurrency, s, step))
  {
    if Coming(s) {
      ComingStays(plan, concurrency, s, step);
    } else if !step.Pick? {
      var k :| WillStart(plan, s, k);
      WillStartStays(plan, concurrency, s, step, k);
    }
  }

  // -------- a job that turns pending --------

  lemma NoneAfterNew(plan: Plan, s: State, z: Uuid, w: Uuid)
    requires Looking(plan, s) && z in s.jobs && s.jobs[z].status.Submitted?
    requires w in s.jobs && s.jobs[w].added.Received?
    ensures !Later(plan, z, w)
  {
    assert LookedAgain(plan, s, z);
    assert Later(plan, z, w) ==> HeardAfter(plan, s.jobs, z, w);
  }

  // Up the dependencies from w, to a job that has none.
  lemma {:induction false} FirstOfChain(plan: Plan, s: State, z: Uuid, w: Uuid) returns (r: Uuid)
    requires ValidPlan(plan) && DependsOnEarlier(plan) && Looking(plan, s)
    requires z in s.jobs && s.jobs[z].status.Submitted?
    requires s.jobs.Keys <= plan.specs.Keys && forall j | j in s.jobs :: s.jobs[j].added.Received?
    requires w in s.jobs && w != z
    ensures r in s.jobs && r != z && WaitsForNone(plan, r)
    decreases plan.earlier[w]
  {
    NoneAfterNew(plan, s, z, w);
    if k :| DependencyOf(plan.specs, w, k) {
      assert Later(plan, k, w);
      r := FirstOfChain(plan, s, z, k);
    } else {
      r := w;
    }
  }

  // Before anything was launched the jobs that have been visited wait in the queue.
  lemma VisitedIsPending(plan: Plan, concurrency: nat, s: State, j: Uuid)
    requires Inv(plan, concurrency, s) && s.runner.Updating? && !Launched(s.jobs)
    requires j in s.jobs && !s.jobs[j].status.Submitted?
    ensures s.jobs[j].status.Pending? || WillStart(plan, s, j)
  {
    assert JobOk(s.runner, j, plan.specs[j], s.jobs[j]);
    assert s.jobs[j].stage.Queued?;
  }

  // The last job heard of: another one is at work, or about to start.
  lemma LastHeardHasHope(plan: Plan, concurrency: nat, cast: set<Uuid>, s: State, z: Uuid, w: Uuid)
    requires Inv(plan, concurrency, s) && DependsOnEarlier(plan) && s.runner.Updating?
    requires Looking(plan, s) && OneNew(s.jobs) && StaysBusy(cast, s) && NoneForgotten(plan, cast, s)
    requires s.jobs.Keys <= cast && !Ahead(cast, s.jobs)
    requires z in s.jobs && s.jobs[z].status.Submitted? && w in cast && w != z
    ensures Hope(plan, s)
  {
    assert !Settled(cast, s.jobs);
    if Launched(s.jobs) {
      BusyIsComing(s);
    } else {
      forall j | j in s.jobs
        ensures s.jobs[j].added.Received?
      {
        assert !NotYetHeard(s.jobs, j);
      }
      assert !NotYetHeard(s.jobs, w);
      var r := FirstOfChain(plan, s, z, w);
      assert !IsNew(s.jobs[r]) by {
        assert IsNew(s.jobs[z]);
      }
      VisitedIsPending(plan, concurrency, s, r);
      if s.jobs[r].status.Pending? && !Hope(plan, s) {
        assert IsPending(s.jobs, r) && NotForgotten(plan, cast, s, r);
        FreeOfJobsIsDue(plan, s, r);
        assert WillStart(plan, s, r);
      }
    }
  }

  lemma FreeOfJobsIsDue(plan: Plan, s: State, id: Uuid)
    requires WaitsForNone(plan, id) && HeldOrDue(plan, s, id)
    ensures s.runner.Updating? && id in s.runner.todo
  {
  }

  // -------- nobody is forgotten --------

  ghost predicate AtLeastTwo(cast: set<Uuid>) {
    exists v, w :: v in cast && w in cast && v != w
  }

  // A job with dependencies is not alone in the cast.
  ghost predicate InCompany(plan: Plan, cast: set<Uuid>) {
    && cast <= plan.specs.Keys
    && (AtLeastTwo(cast) || forall z | z in cast :: plan.specs[z].dependsOn == [])
  }

  lemma OtherOf(cast: set<Uuid>, x: Uuid) returns (y: Uuid)
    requires AtLeastTwo(cast)
    ensures y in cast && y != x
  {
    var v, w :| v in cast && w in cast && v != w;
    y := if v == x then w else v;
  }

  lemma TurningPending(plan: Plan, concurrency: nat, cast: set<Uuid>, s: State, id: Uuid)
    requires Inv(plan, concurrency, s) && DependsOnEarlier(plan) && Enabled(plan, concurrency, s, Visit(id))
    requires Looking(plan, s) && OneNew(s.jobs) && StaysBusy(cast, s) && NoneForgotten(plan, cast, s)
    requires s.jobs.Keys <= cast && InCompany(plan, cast)
    requires s.jobs[id].status.Submitted? && plan.specs[id].dependsOn != []
    ensures NotForgotten(plan, cast, Apply(plan, concurrency, s, Visit(id)), id)
  {
    if Ahead(cast, s.jobs) {
      AheadStays(plan, concurrency, cast, s, Visit(id));
    } else {
      var w := OtherOf(cast, id);
      LastHeardHasHope(plan, concurrency, cast, s, id, w);
      HopeStays(plan, concurrency, s, Visit(id));
    }
  }

  lemma PendingBefore(plan: Plan, concurrency: nat, s: State, step: Step, id: Uuid)
    requires Inv(plan, concurrency, s) && Enabled(plan, concurrency, s, step) && id in s.jobs
    requires Apply(plan, concurrency, s, step).jobs[id].status.Pending?
    ensures s.jobs[id].status.Pending? ||
            (step == Visit(id) && s.jobs[id].status.Submitted? && plan.specs[id].dependsOn != [])
  {
    if !step.Submit? && !step.NoneRunnable? && step.id == id && !step.Visit? {
      assert JobOk(s.runner, id, plan.specs[id], s.jobs[id]);
      PendingComesFromVisit(plan, concurrency, s, step);
    }
  }

  lemma NotForgottenStep(plan: Plan, concurrency: nat, cast: set<Uuid>, s: State, step: Step, id: Uuid)
    requires Inv(plan, concurrency, s) && Enabled(plan, concurrency, s, step) && AllAttended(s)
    requires DependsOnEarlier(plan) && InCompany(plan, cast) && s.jobs.Keys <= cast
    requires Looking(plan, s) && OneNew(s.jobs) && StaysBusy(cast, s) && NoneForgotten(plan, cast, s)
    requires id in s.jobs && Apply(plan, concurrency, s, step).jobs[id].status.Pending?
    ensures NotForgotten(plan, cast, Apply(plan, concurrency, s, step), id)
  {
    PendingBefore(plan, concurrency, s, step, id);
    if step.Receive? {
      ReceiveIsDue(plan, concurrency, s, step, id);
    } else if s.jobs[id].status.Submitted? {
      TurningPending(plan, concurrency, cast, s, id);
    } else if Ahead(cast, s.jobs) {
      AheadStays(plan, concurrency, cast, s, step);
    } else if Hope(plan, s) {
      HopeStays(plan, concurrency, s, step);
    } else {
      assert IsPending(s.jobs, id) && NotForgotten(plan, cast, s, id);
      PendingStays(plan, concurrency, s, step, id);
    }
  }

  lemma NewIsNotPending(plan: Plan, concurrency: nat, s: State, step: Step, id: Uuid)
    requires Enabled(plan, concurrency, s, step) && id !in s.jobs
    ensures var t := Apply(plan, concurrency, s, step);
            id in t.jobs ==> step == Submit(id) && t.jobs[id].status.Submitted?
  {
  }

  lemma NoneForgottenStep(plan: Plan, concurrency: nat, cast: set<Uuid>, s: State, step: Step)
    requires Inv(plan, concurrency, s) && Enabled(plan, concurrency, s, step) && AllAttended(s)
    requires DependsOnEarlier(plan) && InCompany(plan, cast) && s.jobs.Keys <= cast
    requires Looking(plan, s) && OneNew(s.jobs) && StaysBusy(cast, s) && NoneForgotten(plan, cast, s)
    ensures NoneForgotten(plan, cast, Apply(plan, concurrency, s, step))
  {
    var t := Apply(plan, concurrency, s, step);
    forall id | IsPending(t.jobs, id)
      ensures NotForgotten(plan, cast, t, id)
    {
      if id in s.jobs {
        NotForgottenStep(plan, concurrency, cast, s, step, id);
      } else {
        NewIsNotPending(plan, concurrency, s, step, id);
      }
    }
  }

  lemma QuietHasNoHope(plan: Plan, s: State)
    requires Quiet(s)
    ensures !Hope(plan, s)
  {
    forall k | k in s.jobs
      ensures !WillFinish(s.jobs[k])
    {
      assert !Holding(s.jobs[k]) && BlockedCount(s.jobs[k]) == 0;
    }
  }

  // When nothing goes on and all jobs were heard of, every job has finished.
  lemma QuietIsDone(plan: Plan, concurrency: nat, cast: set<Uuid>, s: State)
    requires Inv(plan, concurrency, s) && Conserved(plan, s) && AllAttended(s)
    requires DependsOnEarlier(plan) && NoneForgotten(plan, cast, s)
    requires Quiet(s) && s.jobs.Keys == cast
    ensures forall id | id in s.jobs :: s.jobs[id].status.Done()
  {
    AllAddedHeard(plan, concurrency, s);
    QuietHasNoHope(plan, s);
    forall id | Unfinished(s.jobs, id)
      ensures HeldUp(plan, s.jobs, id)
    {
      QuietLeavesPending(plan, concurrency, s, id);
      assert IsPending(s.jobs, id) && NotForgotten(plan, cast, s, id);
      HeldWhenQuiet(plan, concurrency, s, id);
    }
    forall id | id in s.jobs
      ensures s.jobs[id].status.Done()
    {
      NobodyIsFirst(plan, s.jobs, id);
    }
  }
}
