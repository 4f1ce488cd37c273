/**
 Patient runs: all jobs but one are submitted and finish, whatever their
 dependencies are.
 */
module LastJob {
  import opened JobStates
  import opened Manifests
  import opened Wrappers
  import opened Scheduler
  import opened SchedulerSafety
  import opened Awaited
  import opened Liveness
  import opened Progress
  import opened Quiescence
  import opened WakeUps

  ghost function Others(plan: Plan, last: Uuid): set<Uuid> {
    plan.specs.Keys - {last}
  }

  // Within the premises, without the last job, and slots are given back only when
  // that is needed.
  ghost predicate Patient(plan: Plan, last: Uuid, s: State, step: Step) {
    && Faithful(s, step)
    && step != Submit(last)
    && (step.Release? ==> s.runner.Acquiring? || Settled(Others(plan, last), s.jobs))
  }

  ghost predicate Kept(plan: Plan, cast: set<Uuid>, s: State) {
    && s.jobs.Keys <= cast
    && Looking(plan, s) && OneNew(s.jobs)
    && StaysBusy(cast, s) && NoneForgotten(plan, cast, s)
  }

  lemma OnlyOthers(plan: Plan, concurrency: nat, last: Uuid, s: State, step: Step)
    requires Enabled(plan, concurrency, s, step) && step != Submit(last)
    requires s.jobs.Keys <= Others(plan, last)
    ensures Apply(plan, concurrency, s, step).jobs.Keys <= Others(plan, last)
  {
  }

  lemma KeptStep(plan: Plan, concurrency: nat, last: Uuid, s: State, step: Step)
    requires Inv(plan, concurrency, s) && AllAttended(s)
    requires Enabled(plan, concurrency, s, step) && Patient(plan, last, s, step)
    requires DependsOnEarlier(plan) && InCompany(plan, Others(plan, last)) && Kept(plan, Others(plan, last), s)
    ensures Kept(plan, Others(plan, last), Apply(plan, concurrency, s, step))
  {
    var cast := Others(plan, last);
    OnlyOthers(plan, concurrency, last, s, step);
    LookingStep(plan, concurrency, s, step);
    OneNewStep(plan, concurrency, s, step);
    StaysBusyStep(plan, concurrency, cast, s, step);
    NoneForgottenStep(plan, concurrency, cast, s, step);
  }

  ghost predicate InSubmissionOrder(plan: Plan) {
    ValidPlan(plan) && DependsOnEarlier(plan)
  }

  // The last job is followed by none, and leaves no other one with dependencies alone.
  ghost predicate MayBeLast(plan: Plan, last: Uuid) {
    && InSubmissionOrder(plan) && last in plan.specs
    && !HasLater(plan, last)
    && InCompany(plan, Others(plan, last))
  }

  ghost predicate Good(plan: Plan, concurrency: nat, last: Uuid, s: State) {
    && Inv(plan, concurrency, s) && WithinLimit(concurrency, s)
    && Conserved(plan, s) && AllAttended(s) && Kept(plan, Others(plan, last), s)
  }

  lemma GoodStep(plan: Plan, concurrency: nat, last: Uuid, s: State, step: Step)
    requires MayBeLast(plan, last) && Good(plan, concurrency, last, s) && Enabled(plan, concurrency, s, step)
    ensures Patient(plan, last, s, step) ==> Good(plan, concurrency, last, Apply(plan, concurrency, s, step))
  {
    if Patient(plan, last, s, step) {
      InvStep(plan, concurrency, s, step);
      StepWithinLimit(plan, concurrency, s, step);
      ConservedStep(plan, concurrency, s, step);
      AttendedStep(plan, concurrency, s, step);
      KeptStep(plan, concurrency, last, s, step);
    }
  }

  // Nothing goes on, no monitor is left, and only the last job is to be submitted.
  ghost predicate AtRest(plan: Plan, last: Uuid, s: State) {
    && Quiet(s)
    && s.jobs.Keys == Others(plan, last)
    && forall id | id in s.jobs :: !s.jobs[id].waitOpen
  }

  ghost predicate AllHeard(jobs: Jobs) {
    forall k | k in jobs :: BlockedCount(jobs[k]) == 0
  }

  lemma HeardAll(plan: Plan, concurrency: nat, s: State)
    requires Inv(plan, concurrency, s) && AllHeard(s.jobs)
    ensures forall k | k in s.jobs :: s.jobs[k].added.Received?
    ensures s.runner.Selecting? ==> forall k | k in s.jobs :: !s.jobs[k].status.Submitted?
  {
    forall k | k in s.jobs
      ensures s.jobs[k].added.Received?
      ensures s.runner.Selecting? ==> !s.jobs[k].status.Submitted?
    {
      assert JobOk(s.runner, k, plan.specs[k], s.jobs[k]);
    }
  }

  lemma {:induction false} NextButLast(plan: Plan, concurrency: nat, last: Uuid, s: State, id: Uuid)
    returns (next: Uuid)
    requires Inv(plan, concurrency, s) && forall k | k in s.jobs :: s.jobs[k].added.Received?
    requires id in plan.specs && id !in s.jobs && id != last && !HasLater(plan, last)
    ensures Enabled(plan, concurrency, s, Submit(next)) && next != last
    decreases plan.earlier[id]
  {
    if k :| k in plan.earlier[id] && k !in s.jobs {
      assert k == last ==> Later(plan, last, id);
      next := NextButLast(plan, concurrency, last, s, k);
    } else {
      next := id;
    }
  }

  lemma PatientMoves(plan: Plan, concurrency: nat, last: Uuid, s: State) returns (step: Step)
    requires MayBeLast(plan, last) && Good(plan, concurrency, last, s) && concurrency >= 1
    requires !AtRest(plan, last, s)
    ensures Enabled(plan, concurrency, s, step) && Patient(plan, last, s, step)
  {
    if !s.runner.Selecting? {
      step := RunnerMoves(plan, concurrency, s);
    } else if !AllHeard(s.jobs) {
      step := SomeReceipt(plan, concurrency, s);
    } else {
      step := SilentMoves(plan, concurrency, last, s);
    }
  }

  lemma SomeReceipt(plan: Plan, concurrency: nat, s: State) returns (step: Step)
    requires Inv(plan, concurrency, s) && s.runner.Selecting? && !AllHeard(s.jobs)
    ensures Enabled(plan, concurrency, s, step) && step.Receive?
  {
    var id :| id in s.jobs && BlockedCount(s.jobs[id]) != 0;
    var job := s.jobs[id];
    var kind := if job.added.Blocked? then AddedMsg else if job.wake.Blocked? then WakeMsg else FinishedMsg;
    step := Receive(id, kind);
  }

  lemma SilentMoves(plan: Plan, concurrency: nat, last: Uuid, s: State) returns (step: Step)
    requires MayBeLast(plan, last) && Good(plan, concurrency, last, s)
    requires s.runner.Selecting? && AllHeard(s.jobs) && !AtRest(plan, last, s)
    ensures Enabled(plan, concurrency, s, step) && Patient(plan, last, s, step)
  {
    HeardAll(plan, concurrency, s);
    if id :| id in plan.specs && id != last && id !in s.jobs {
      var next := NextButLast(plan, concurrency, last, s, id);
      step := Submit(next);
    } else {
      step := LastMoves(plan, concurrency, last, s);
    }
  }

  lemma LastMoves(plan: Plan, concurrency: nat, last: Uuid, s: State) returns (step: Step)
    requires Good(plan, concurrency, last, s) && s.runner.Selecting? && AllHeard(s.jobs)
    requires Settled(Others(plan, last), s.jobs) && !AtRest(plan, last, s)
    ensures Enabled(plan, concurrency, s, step) && Patient(plan, last, s, step)
  {
    if id :| id in s.jobs && Holding(s.jobs[id]) {
      step := HolderMoves(plan, concurrency, s, id);
    } else {
      var id :| id in s.jobs && s.jobs[id].waitOpen;
      step := ContainerEnds(id, Some(Succeeded));
    }
  }

  lemma Extend(plan: Plan, concurrency: nat, run: seq<State>, step: Step) returns (longer: seq<State>)
    requires IsFaithfulRun(plan, concurrency, run)
    requires Enabled(plan, concurrency, run[|run| - 1], step) && Faithful(run[|run| - 1], step)
    ensures IsFaithfulRun(plan, concurrency, longer)
    ensures longer[|longer| - 1] == Apply(plan, concurrency, run[|run| - 1], step)
  {
    longer := run + [Apply(plan, concurrency, run[|run| - 1], step)];
    assert FaithfulNext(plan, concurrency, run[|run| - 1], longer[|run|]);
    forall i | 0 < i < |longer|
      ensures FaithfulNext(plan, concurrency, longer[i - 1], longer[i])
    {
      assert i < |run| ==> longer[i] == run[i];
    }
  }

  lemma {:induction false} RunToRest(plan: Plan, concurrency: nat, last: Uuid, run: seq<State>)
    returns (longer: seq<State>)
    requires MayBeLast(plan, last) && concurrency >= 1
    requires IsFaithfulRun(plan, concurrency, run) && Good(plan, concurrency, last, run[|run| - 1])
    ensures IsFaithfulRun(plan, concurrency, longer)
    ensures Good(plan, concurrency, last, longer[|longer| - 1]) && AtRest(plan, last, longer[|longer| - 1])
    decreases Measure(plan, run[|run| - 1])
  {
    var s := run[|run| - 1];
    if AtRest(plan, last, s) {
      return run;
    }
    var step := PatientMoves(plan, concurrency, last, s);
    GoodStep(plan, concurrency, last, s, step);
    longer := Extend(plan, concurrency, run, step);
    MeasureFalls(plan, concurrency, s, step);
    PotentialIsNatural(plan, s);
    PotentialIsNatural(plan, longer[|longer| - 1]);
    longer := RunToRest(plan, concurrency, last, longer);
  }

  lemma InitialIsGood(plan: Plan, concurrency: nat, last: Uuid)
    requires ValidPlan(plan)
    ensures Good(plan, concurrency, last, INITIAL)
  {
    assert Holders(INITIAL.jobs) == {};
  }

  // At rest every job has finished.
  lemma RestIsDone(plan: Plan, concurrency: nat, last: Uuid, s: State)
    requires InSubmissionOrder(plan) && Good(plan, concurrency, last, s) && AtRest(plan, last, s)
    ensures forall id | id in s.jobs :: s.jobs[id].status.Done()
  {
    QuietIsDone(plan, concurrency, Others(plan, last), s);
  }
}
