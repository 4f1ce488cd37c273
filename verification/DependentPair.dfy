/**
 Two jobs that both have dependencies: whichever is heard of first is freed by the
 message of the other one, so both always finish.
 */
module DependentPair {
  import opened Manifests
  import opened JobStates
  import opened Scheduler
  import opened SchedulerSafety
  import opened Awaited
  import opened LastJob
  import opened Liveness
  import opened Quiescence
  import opened WakeUps

  ghost predicate IsPair(plan: Plan, a: Uuid, b: Uuid) {
    && a != b && plan.specs.Keys == {a, b}
    && plan.specs[a].dependsOn != [] && plan.specs[b].dependsOn != []
  }

  // Just two jobs, and both have dependencies.
  ghost predicate TwoDependent(plan: Plan) {
    exists a, b :: IsPair(plan, a, b)
  }

  lemma NotAPair(plan: Plan, id: Uuid)
    requires id in plan.specs && plan.specs[id].dependsOn == []
    ensures !TwoDependent(plan)
  {
    assert id in plan.specs.Keys;
    assert forall a: Uuid, b: Uuid | IsPair(plan, a, b) :: id in {a, b};
  }

  lemma PairInCompany(plan: Plan)
    requires TwoDependent(plan)
    ensures InCompany(plan, plan.specs.Keys)
  {
    var a, b :| IsPair(plan, a, b);
    assert a in plan.specs.Keys && b in plan.specs.Keys;
  }

  predicate IsHeard(jobs: Jobs, k: Uuid) {
    k in jobs && jobs[k].added.Received?
  }

  ghost predicate AnyHeard(jobs: Jobs) {
    exists k :: IsHeard(jobs, k)
  }

  ghost predicate AllSubmitted(jobs: Jobs) {
    forall k | k in jobs :: jobs[k].status.Submitted?
  }

  ghost predicate NoneFreed(jobs: Jobs) {
    forall k | k in jobs :: jobs[k].status.Rank() <= 1
  }

  // One message at most was received: nothing can be runnable.
  ghost predicate Waiting(s: State) {
    || (s.runner.Selecting? && AllSubmitted(s.jobs))
    || (NoneFreed(s.jobs) && AnyHeard(s.jobs) && (s.runner.Selecting? || FirstPass(s)))
  }

  ghost predicate FirstPass(s: State) {
    && s.runner.Updating? && s.runner.freed == []
    && forall k | k in s.runner.todo :: k in s.jobs && s.jobs[k].status.Submitted?
  }

  // Nothing is started before both jobs were heard of and visited.
  ghost predicate Early(plan: Plan, s: State) {
    var both := plan.specs.Keys;
    if Ahead(both, s.jobs) then Waiting(s)
    else Settled(both, s.jobs) || (!Launched(s.jobs) && !s.runner.Acquiring?)
  }

  lemma WaitingSteps(plan: Plan, concurrency: nat, s: State, step: Step)
    requires Inv(plan, concurrency, s) && Enabled(plan, concurrency, s, step) && Waiting(s)
    ensures step.Submit? || step.NoneRunnable? || step.Visit? || (step.Receive? && step.kind.AddedMsg?)
  {
    if !step.Submit? && !step.NoneRunnable? {
      assert JobOk(s.runner, step.id, plan.specs[step.id], s.jobs[step.id]);
      WaitingIsNotWorkedOn(concurrency, s, plan.specs[step.id], s.jobs[step.id], step);
    }
  }

  // The first message received starts the first pass.
  lemma FirstReceipt(a: Uuid, b: Uuid, s: State, id: Uuid, job: Job)
    requires s.jobs.Keys <= {a, b} && Waiting(s)
    requires id in s.jobs && !s.jobs[id].added.Received?
    requires job == s.jobs[id].(added := Received) && Ahead({a, b}, s.jobs[id := job])
    ensures Waiting(State(s.jobs[id := job], Updating(s.jobs.Keys, [])))
  {
    var jobs := s.jobs[id := job];
    var other :| other in {a, b} && NotYetHeard(jobs, other);
    assert IsHeard(jobs, id);
    assert forall k :: !IsHeard(s.jobs, k);
  }

  // The pass makes the jobs pending.
  lemma FirstVisit(s: State, id: Uuid, job: Job)
    requires Waiting(s) && s.runner.Updating? && id in s.runner.todo
    requires job.status.Pending? && job.added == s.jobs[id].added
    ensures Waiting(State(s.jobs[id := job], Updating(s.runner.todo - {id}, [])))
  {
    var k :| IsHeard(s.jobs, k);
    assert IsHeard(s.jobs[id := job], k);
  }

  lemma FirstVisitApplied(plan: Plan, concurrency: nat, s: State, id: Uuid)
    requires Waiting(s) && Enabled(plan, concurrency, s, Visit(id)) && plan.specs[id].dependsOn != []
    ensures Waiting(Apply(plan, concurrency, s, Visit(id)))
  {
    var job := JobAfter(plan, s, Visit(id));
    assert Apply(plan, concurrency, s, Visit(id)) == State(s.jobs[id := job], Updating(s.runner.todo - {id}, []));
    FirstVisit(s, id, job);
  }

  lemma NothingHappens(s: State, jobs: Jobs, runner: Runner)
    requires Waiting(s) && (runner == s.runner || (runner.Selecting? && s.runner.Updating?))
    requires jobs == s.jobs || exists id: Uuid :: id !in s.jobs && jobs == s.jobs[id := NEW_JOB]
    ensures Waiting(State(jobs, runner))
  {
    if k :| IsHeard(s.jobs, k) {
      assert IsHeard(jobs, k);
    }
  }

  lemma WaitingStep(plan: Plan, concurrency: nat, s: State, step: Step, a: Uuid, b: Uuid)
    requires Inv(plan, concurrency, s) && Enabled(plan, concurrency, s, step) && IsPair(plan, a, b)
    requires Waiting(s)
    ensures var t := Apply(plan, concurrency, s, step);
            Ahead(plan.specs.Keys, t.jobs) ==> Waiting(t)
  {
    WaitingSteps(plan, concurrency, s, step);
    if step.Receive? {
      FirstReceiptApplied(plan, concurrency, s, step.id, a, b);
    } else if step.Visit? {
      FirstVisitApplied(plan, concurrency, s, step.id);
    } else {
      NothingApplied(plan, concurrency, s, step);
    }
  }

  lemma FirstReceiptApplied(plan: Plan, concurrency: nat, s: State, id: Uuid, a: Uuid, b: Uuid)
    requires Enabled(plan, concurrency, s, Receive(id, AddedMsg)) && s.jobs.Keys <= {a, b} && Waiting(s)
    ensures var t := Apply(plan, concurrency, s, Receive(id, AddedMsg));
            Ahead({a, b}, t.jobs) ==> Waiting(t)
  {
    if Ahead({a, b}, Apply(plan, concurrency, s, Receive(id, AddedMsg)).jobs) {
      FirstReceipt(a, b, s, id, s.jobs[id].(added := Received));
    }
  }

  lemma NothingApplied(plan: Plan, concurrency: nat, s: State, step: Step)
    requires Enabled(plan, concurrency, s, step) && Waiting(s) && (step.Submit? || step.NoneRunnable?)
    ensures Waiting(Apply(plan, concurrency, s, step))
  {
    var t := Apply(plan, concurrency, s, step);
    assert step.Submit? ==> step.id !in s.jobs && t.jobs == s.jobs[step.id := NEW_JOB];
    NothingHappens(s, t.jobs, t.runner);
  }

  lemma SecondReceipt(plan: Plan, concurrency: nat, s: State, step: Step)
    requires Inv(plan, concurrency, s) && Enabled(plan, concurrency, s, step) && step.Receive? && Waiting(s)
    ensures var t := Apply(plan, concurrency, s, step); !Launched(t.jobs) && !t.runner.Acquiring?
  {
    var t := Apply(plan, concurrency, s, step);
    forall k | k in t.jobs
      ensures t.jobs[k].stage.Queued?
    {
      assert JobOk(s.runner, k, plan.specs[k], s.jobs[k]);
    }
  }

  lemma UnvisitedIsDue(plan: Plan, concurrency: nat, s: State, id: Uuid)
    requires Inv(plan, concurrency, s) && id in s.jobs && IsNew(s.jobs[id])
    ensures s.runner.Updating? && id in s.runner.todo
  {
    assert JobOk(s.runner, id, plan.specs[id], s.jobs[id]);
  }

  // While a job is yet to be visited none is picked.
  lemma StaysUnlaunched(plan: Plan, concurrency: nat, s: State, step: Step, z: Uuid)
    requires Inv(plan, concurrency, s) && Enabled(plan, concurrency, s, step)
    requires s.runner.Updating? && z in s.runner.todo
    ensures var t := Apply(plan, concurrency, s, step);
            !Launched(s.jobs) ==> !Launched(t.jobs) && !t.runner.Acquiring?
  {
    if !Launched(s.jobs) && Launched(Apply(plan, concurrency, s, step).jobs) {
      LaunchIsBusy(plan, concurrency, s, step);
    }
  }

  lemma NeverAheadAgain(plan: Plan, concurrency: nat, cast: set<Uuid>, s: State, step: Step)
    requires Enabled(plan, concurrency, s, step) && !Ahead(cast, s.jobs)
    ensures !Ahead(cast, Apply(plan, concurrency, s, step).jobs)
  {
    forall k | k in cast
      ensures !NotYetHeard(Apply(plan, concurrency, s, step).jobs, k)
    {
      assert !NotYetHeard(s.jobs, k);
      HeardStays(plan, concurrency, s, step, k);
    }
  }

  lemma EarlyStep(plan: Plan, concurrency: nat, s: State, step: Step)
    requires TwoDependent(plan) && Inv(plan, concurrency, s) && Enabled(plan, concurrency, s, step)
    requires Early(plan, s)
    ensures Early(plan, Apply(plan, concurrency, s, step))
  {
    var both, t := plan.specs.Keys, Apply(plan, concurrency, s, step);
    if Ahead(both, t.jobs) {
      if !Ahead(both, s.jobs) {
        NeverAheadAgain(plan, concurrency, both, s, step);
      } else {
        var a, b :| IsPair(plan, a, b);
        WaitingStep(plan, concurrency, s, step, a, b);
      }
    } else if Ahead(both, s.jobs) {
      if step.Receive? {
        SecondReceipt(plan, concurrency, s, step);
      } else {
        AheadStays(plan, concurrency, both, s, step);
      }
    } else {
      HeardStep(plan, concurrency, s, step);
    }
  }

  // Once both were heard of, nothing starts before both were visited.
  lemma HeardStep(plan: Plan, concurrency: nat, s: State, step: Step)
    requires Inv(plan, concurrency, s) && Enabled(plan, concurrency, s, step)
    requires Early(plan, s) && !Ahead(plan.specs.Keys, s.jobs)
    ensures var t := Apply(plan, concurrency, s, step);
            Settled(plan.specs.Keys, t.jobs) || (!Launched(t.jobs) && !t.runner.Acquiring?)
  {
    var both := plan.specs.Keys;
    if Settled(both, s.jobs) {
      StepGrows(plan, concurrency, s, step);
      SettledStays(both, s.jobs, Apply(plan, concurrency, s, step).jobs);
    } else {
      var z :| z in both && (z in s.jobs ==> s.jobs[z].status.Submitted?);
      assert !NotYetHeard(s.jobs, z);
      UnvisitedIsDue(plan, concurrency, s, z);
      StaysUnlaunched(plan, concurrency, s, step, z);
    }
  }

  lemma EarlyIsBusy(plan: Plan, concurrency: nat, s: State)
    requires Inv(plan, concurrency, s) && Early(plan, s)
    ensures StaysBusy(plan.specs.Keys, s)
  {
    forall k | k in s.jobs && s.jobs[k].status.Rank() <= 1
      ensures s.jobs[k].stage.Queued?
    {
      assert JobOk(s.runner, k, plan.specs[k], s.jobs[k]);
    }
  }

  ghost predicate PairKept(plan: Plan, s: State) {
    Early(plan, s) && OneNew(s.jobs) && NoneForgotten(plan, plan.specs.Keys, s)
  }

  lemma PairNext(plan: Plan, concurrency: nat, s: State, t: State)
    requires TwoDependent(plan) && Inv(plan, concurrency, s) && FaithfulNext(plan, concurrency, s, t)
    requires DependsOnEarlier(plan) && AllAttended(s) && Looking(plan, s) && PairKept(plan, s)
    ensures PairKept(plan, t)
  {
    var step :| Enabled(plan, concurrency, s, step) && Faithful(s, step) && t == Apply(plan, concurrency, s, step);
    PairInCompany(plan);
    EarlyIsBusy(plan, concurrency, s);
    EarlyStep(plan, concurrency, s, step);
    OneNewStep(plan, concurrency, s, step);
    NoneForgottenStep(plan, concurrency, plan.specs.Keys, s, step);
  }

  lemma PairStarts(plan: Plan)
    requires TwoDependent(plan)
    ensures PairKept(plan, INITIAL)
  {
    var a, b :| IsPair(plan, a, b);
    assert a in plan.specs.Keys && NotYetHeard(INITIAL.jobs, a);
  }

  lemma {:induction false} RunPair(plan: Plan, concurrency: nat, run: seq<State>, n: nat)
    requires TwoDependent(plan) && InSubmissionOrder(plan)
    requires IsFaithfulRun(plan, concurrency, run) && n < |run|
    ensures PairKept(plan, run[n])
  {
    if n == 0 {
      PairStarts(plan);
    } else {
      RunPair(plan, concurrency, run, n - 1);
      RunFaithful(plan, concurrency, run, n - 1);
      RunInv(plan, concurrency, run, n - 1);
      RunLooking(plan, concurrency, run, n - 1);
      PairNext(plan, concurrency, run[n - 1], run[n]);
    }
  }

  /**
   Two jobs with dependencies always finish, whatever order they are submitted in.
   */
  lemma PairFinishes(plan: Plan, concurrency: nat, run: seq<State>)
    requires InSubmissionOrder(plan) && concurrency >= 1 && TwoDependent(plan)
    requires IsFaithfulRun(plan, concurrency, run) && Final(plan, concurrency, run[|run| - 1])
    ensures AllDone(plan, run[|run| - 1].jobs)
  {
    var n := |run| - 1;
    FinalState(plan, concurrency, run);
    RunFaithful(plan, concurrency, run, n);
    RunInv(plan, concurrency, run, n);
    RunConserved(plan, concurrency, run, n);
    RunPair(plan, concurrency, run, n);
    QuietIsDone(plan, concurrency, plan.specs.Keys, run[n]);
  }
}
