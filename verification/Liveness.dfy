/**
 The plans on which every job is sure to finish, part one: it is enough that each
 job with dependencies is followed by another one of the same submission.
 */
module Liveness {
  import opened JobStates
  import opened Manifests
  import opened Wrappers
  import opened Scheduler
  import opened SchedulerSafety
  import opened Quiescence
  import opened WakeUps

  // k is submitted after id, by the same loop.
  ghost predicate Later(plan: Plan, id: Uuid, k: Uuid) {
    k in plan.specs && k in plan.earlier && id in plan.earlier[k]
  }

  ghost predicate HasLater(plan: Plan, id: Uuid) {
    exists k :: Later(plan, id, k)
  }

  ghost predicate HasDependencies(plan: Plan, id: Uuid) {
    id in plan.specs && plan.specs[id].dependsOn != []
  }

  // No submission ends with a job that has dependencies.
  ghost predicate EndsFree(plan: Plan) {
    forall id | HasDependencies(plan, id) :: HasLater(plan, id)
  }

  // -------- jobs are heard in submission order --------

  ghost predicate EarlierHeard(plan: Plan, jobs: Jobs) {
    forall id, k | k in jobs && Later(plan, id, k) :: id in jobs && jobs[id].added.Received?
  }

  lemma HeardStays(plan: Plan, concurrency: nat, s: State, step: Step, id: Uuid)
    requires Enabled(plan, concurrency, s, step) && id in s.jobs && s.jobs[id].added.Received?
    ensures var t := Apply(plan, concurrency, s, step); id in t.jobs && t.jobs[id].added.Received?
  {
  }

  lemma EarlierHeardStep(plan: Plan, concurrency: nat, s: State, step: Step)
    requires Enabled(plan, concurrency, s, step) && EarlierHeard(plan, s.jobs)
    ensures EarlierHeard(plan, Apply(plan, concurrency, s, step).jobs)
  {
    var t := Apply(plan, concurrency, s, step);
    forall id, k | k in t.jobs && Later(plan, id, k)
      ensures id in t.jobs && t.jobs[id].added.Received?
    {
      assert id in s.jobs && s.jobs[id].added.Received?;
      HeardStays(plan, concurrency, s, step, id);
    }
  }

  // -------- a job with a successor is looked at again --------

  // The pass will visit id, or somebody it waits for will be heard of.
  ghost predicate HeldOrDue(plan: Plan, s: State, id: Uuid) {
    (s.runner.Updating? && id in s.runner.todo) || exists k :: HeldUpBy(plan, s.jobs, id, k)
  }

  ghost predicate HeardAfter(plan: Plan, jobs: Jobs, id: Uuid, k: Uuid) {
    Later(plan, id, k) && k in jobs && jobs[k].added.Received?
  }

  // Once a later job was heard of, id was visited, and does not wait in vain.
  ghost predicate LookedAgain(plan: Plan, s: State, id: Uuid) {
    id in s.jobs && (exists k :: HeardAfter(plan, s.jobs, id, k)) ==>
      !s.jobs[id].status.Submitted? && (s.jobs[id].status.Pending? ==> HeldOrDue(plan, s, id))
  }

  ghost predicate AllLookedAgain(plan: Plan, s: State) {
    forall id :: LookedAgain(plan, s, id)
  }

  lemma DueStays(plan: Plan, concurrency: nat, s: State, step: Step, id: Uuid)
    requires Inv(plan, concurrency, s) && Enabled(plan, concurrency, s, step) && AllAttended(s)
    requires !step.Receive? && step != Visit(id) && HeldOrDue(plan, s, id)
    ensures HeldOrDue(plan, Apply(plan, concurrency, s, step), id)
  {
    if k :| HeldUpBy(plan, s.jobs, id, k) {
      HeldUpStays(plan, concurrency, s, step, id, k);
    }
  }

  // A visit that leaves a pending job pending has found somebody to wait for.
  lemma StillPendingIsHeldUp(plan: Plan, concurrency: nat, s: State, id: Uuid)
    requires Inv(plan, concurrency, s) && Enabled(plan, concurrency, s, Visit(id)) && AllAttended(s)
    requires s.jobs[id].status.Pending? && JobAfter(plan, s, Visit(id)).status.Pending?
    ensures HeldOrDue(plan, Apply(plan, concurrency, s, Visit(id)), id)
  {
    var statuses := StatusesOf(s.jobs);
    assert JobOk(s.runner, id, plan.specs[id], s.jobs[id]);
    var k :| k in statuses && DependencyOf(plan.specs, id, k) && !statuses[k].Done();
    assert HeldUpBy(plan, s.jobs, id, k);
    HeldUpStays(plan, concurrency, s, Visit(id), id, k);
  }

  // What holds a pending job up before a step, unless it turns pending by it,
  // holds it up afterwards.
  lemma PendingStays(plan: Plan, concurrency: nat, s: State, step: Step, id: Uuid)
    requires Inv(plan, concurrency, s) && Enabled(plan, concurrency, s, step) && AllAttended(s)
    requires !step.Receive? && id in s.jobs && !s.jobs[id].status.Submitted?
    requires s.jobs[id].status.Pending? ==> HeldOrDue(plan, s, id)
    ensures var t := Apply(plan, concurrency, s, step);
            id in t.jobs && (t.jobs[id].status.Pending? ==> HeldOrDue(plan, t, id))
  {
    RankNeverFalls(plan, concurrency, s, step, id);
    if Apply(plan, concurrency, s, step).jobs[id].status.Pending? {
      if step == Visit(id) {
        StillPendingIsHeldUp(plan, concurrency, s, id);
      } else {
        DueStays(plan, concurrency, s, step, id);
      }
    }
  }

  lemma ReceiveIsDue(plan: Plan, concurrency: nat, s: State, step: Step, id: Uuid)
    requires Enabled(plan, concurrency, s, step) && step.Receive? && id in s.jobs
    ensures HeldOrDue(plan, Apply(plan, concurrency, s, step), id)
    ensures Apply(plan, concurrency, s, step).jobs[id].status == s.jobs[id].status
  {
  }

  // A job whose own message was received has been visited when the next is.
  lemma HeardIsVisited(plan: Plan, concurrency: nat, s: State, id: Uuid)
    requires Inv(plan, concurrency, s) && s.runner.Selecting?
    requires id in s.jobs && s.jobs[id].added.Received?
    ensures !s.jobs[id].status.Submitted?
  {
    assert JobOk(s.runner, id, plan.specs[id], s.jobs[id]);
  }

  // A message that was not received before is being received.
  lemma NewlyHeard(plan: Plan, concurrency: nat, s: State, step: Step, id: Uuid, k: Uuid)
    requires Enabled(plan, concurrency, s, step) && !step.Receive?
    requires HeardAfter(plan, Apply(plan, concurrency, s, step).jobs, id, k)
    ensures HeardAfter(plan, s.jobs, id, k)
  {
  }

  lemma LookedAgainByReceipt(plan: Plan, concurrency: nat, s: State, step: Step, id: Uuid)
    requires Inv(plan, concurrency, s) && Enabled(plan, concurrency, s, step) && step.Receive?
    requires id in s.jobs && s.jobs[id].added.Received?
    ensures LookedAgain(plan, Apply(plan, concurrency, s, step), id)
  {
    HeardIsVisited(plan, concurrency, s, id);
    ReceiveIsDue(plan, concurrency, s, step, id);
  }

  lemma LookedAgainStays(plan: Plan, concurrency: nat, s: State, step: Step, id: Uuid)
    requires Inv(plan, concurrency, s) && Enabled(plan, concurrency, s, step) && !step.Receive? && AllAttended(s)
    requires id in s.jobs && !s.jobs[id].status.Submitted?
    requires s.jobs[id].status.Pending? ==> HeldOrDue(plan, s, id)
    ensures LookedAgain(plan, Apply(plan, concurrency, s, step), id)
  {
    RankNeverFalls(plan, concurrency, s, step, id);
    PendingStays(plan, concurrency, s, step, id);
  }

  lemma LookedAgainStep(plan: Plan, concurrency: nat, s: State, step: Step, id: Uuid)
    requires Inv(plan, concurrency, s) && Enabled(plan, concurrency, s, step) && AllAttended(s)
    requires EarlierHeard(plan, s.jobs) && AllLookedAgain(plan, s)
    requires id in Apply(plan, concurrency, s, step).jobs
    ensures LookedAgain(plan, Apply(plan, concurrency, s, step), id)
  {
    var t := Apply(plan, concurrency, s, step);
    if k :| HeardAfter(plan, t.jobs, id, k) {
      assert k in s.jobs;
      assert id in s.jobs && s.jobs[id].added.Received?;
      if step.Receive? {
        LookedAgainByReceipt(plan, concurrency, s, step, id);
      } else {
        NewlyHeard(plan, concurrency, s, step, id, k);
        assert LookedAgain(plan, s, id);
        LookedAgainStays(plan, concurrency, s, step, id);
      }
    }
  }

  ghost predicate Looking(plan: Plan, s: State) {
    EarlierHeard(plan, s.jobs) && AllLookedAgain(plan, s)
  }

  lemma LookingStep(plan: Plan, concurrency: nat, s: State, step: Step)
    requires Inv(plan, concurrency, s) && Enabled(plan, concurrency, s, step) && AllAttended(s)
    requires Looking(plan, s)
    ensures Looking(plan, Apply(plan, concurrency, s, step))
  {
    var t := Apply(plan, concurrency, s, step);
    EarlierHeardStep(plan, concurrency, s, step);
    forall id
      ensures LookedAgain(plan, t, id)
    {
      if id in t.jobs {
        LookedAgainStep(plan, concurrency, s, step, id);
      }
    }
  }

  lemma LookingNext(plan: Plan, concurrency: nat, s: State, t: State)
    requires Inv(plan, concurrency, s) && AllAttended(s) && Looking(plan, s)
    requires FaithfulNext(plan, concurrency, s, t)
    ensures Looking(plan, t)
  {
    var step :| Enabled(plan, concurrency, s, step) && Faithful(s, step) && t == Apply(plan, concurrency, s, step);
    LookingStep(plan, concurrency, s, step);
  }

  lemma {:induction false} RunLooking(plan: Plan, concurrency: nat, run: seq<State>, n: nat)
    requires ValidPlan(plan) && IsFaithfulRun(plan, concurrency, run) && n < |run|
    ensures Looking(plan, run[n])
  {
    if n == 0 {
    } else {
      RunLooking(plan, concurrency, run, n - 1);
      RunFaithful(plan, concurrency, run, n - 1);
      RunInv(plan, concurrency, run, n - 1);
      LookingNext(plan, concurrency, run[n - 1], run[n]);
    }
  }

  // -------- nobody is left behind --------

  // Every job that has not finished waits for an earlier one that has not either.
  ghost predicate AllHeldUp(plan: Plan, jobs: Jobs) {
    forall id | Unfinished(jobs, id) :: HeldUp(plan, jobs, id)
  }

  lemma {:induction false} NobodyIsFirst(plan: Plan, jobs: Jobs, id: Uuid)
    requires AllHeldUp(plan, jobs) && id in plan.earlier
    ensures !Unfinished(jobs, id)
    decreases plan.earlier[id]
  {
    if Unfinished(jobs, id) {
      assert HeldUp(plan, jobs, id);
      var k :| HeldByEarlier(plan, jobs, id, k);
      NobodyIsFirst(plan, jobs, k);
    }
  }

  lemma NobodyIsLeft(plan: Plan, jobs: Jobs)
    requires AllHeldUp(plan, jobs) && jobs.Keys == plan.specs.Keys == plan.earlier.Keys
    ensures AllDone(plan, jobs)
  {
    forall id | id in jobs
      ensures jobs[id].status.Done()
    {
      NobodyIsFirst(plan, jobs, id);
    }
  }

  lemma HeldWhenQuiet(plan: Plan, concurrency: nat, s: State, id: Uuid)
    requires Inv(plan, concurrency, s) && DependsOnEarlier(plan) && Quiet(s)
    requires id in s.jobs && HeldOrDue(plan, s, id)
    ensures HeldUp(plan, s.jobs, id)
  {
    var k :| HeldUpBy(plan, s.jobs, id, k);
    assert k in plan.earlier[id];
    assert HeldByEarlier(plan, s.jobs, id, k);
  }

  lemma QuietIsHeldUp(plan: Plan, concurrency: nat, s: State, id: Uuid)
    requires Inv(plan, concurrency, s) && DependsOnEarlier(plan) && EndsFree(plan)
    requires Quiet(s) && Looking(plan, s) && s.jobs.Keys == plan.specs.Keys
    requires id in s.jobs && s.jobs[id].status.Pending?
    ensures HeldUp(plan, s.jobs, id)
  {
    assert JobOk(s.runner, id, plan.specs[id], s.jobs[id]);
    assert HasDependencies(plan, id) && HasLater(plan, id);
    var k :| Later(plan, id, k);
    AllAddedHeard(plan, concurrency, s);
    assert HeardAfter(plan, s.jobs, id, k);
    assert LookedAgain(plan, s, id);
    HeldWhenQuiet(plan, concurrency, s, id);
  }

  // The run can go no further within the premises.
  ghost predicate Final(plan: Plan, concurrency: nat, s: State) {
    forall step :: Enabled(plan, concurrency, s, step) ==> !Faithful(s, step)
  }

  ghost predicate AllDone(plan: Plan, jobs: Jobs) {
    jobs.Keys == plan.specs.Keys && forall id | id in jobs :: jobs[id].status.Done()
  }

  /**
   If every job with dependencies is followed by another of its submission, a run
   that has come to its end has finished every job.
   */
  lemma EndsFreeFinishes(plan: Plan, concurrency: nat, run: seq<State>)
    requires ValidPlan(plan) && DependsOnEarlier(plan) && concurrency >= 1 && EndsFree(plan)
    requires IsFaithfulRun(plan, concurrency, run) && Final(plan, concurrency, run[|run| - 1])
    ensures AllDone(plan, run[|run| - 1].jobs)
  {
    var n := |run| - 1;
    var s := run[n];
    FinalState(plan, concurrency, run);
    RunFaithful(plan, concurrency, run, n);
    RunInv(plan, concurrency, run, n);
    RunConserved(plan, concurrency, run, n);
    RunLooking(plan, concurrency, run, n);
    forall id | Unfinished(s.jobs, id)
      ensures HeldUp(plan, s.jobs, id)
    {
      QuietLeavesPending(plan, concurrency, s, id);
      QuietIsHeldUp(plan, concurrency, s, id);
    }
    NobodyIsLeft(plan, s.jobs);
  }
}
