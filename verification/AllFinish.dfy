/**
 When every job is sure to finish: exactly when no submission ends with a job that
 has dependencies, a pair of such jobs excepted.
 */
module AllFinish {
  import opened JobStates
  import opened Manifests
  import opened Wrappers
  import opened Scheduler
  import opened SchedulerSafety
  import opened Awaited
  import opened DependentPair
  import opened LastJob
  import opened Liveness
  import opened Quiescence
  import opened WakeUps

  // A job with nothing left to do.
  predicate Over(job: Job) {
    job.status.Done() && job.stage.Released? && !job.logOpen && !job.waitOpen && BlockedCount(job) == 0
  }

  ghost predicate AllOver(jobs: Jobs) {
    forall id | id in jobs :: Over(jobs[id])
  }

  lemma RestIsOver(plan: Plan, concurrency: nat, last: Uuid, s: State)
    requires InSubmissionOrder(plan) && Good(plan, concurrency, last, s) && AtRest(plan, last, s)
    ensures AllOver(s.jobs)
  {
    RestIsDone(plan, concurrency, last, s);
    forall id | id in s.jobs
      ensures Over(s.jobs[id])
    {
      assert JobOk(s.runner, id, plan.specs[id], s.jobs[id]);
    }
  }

  // The last job as the runner first sees it, and as the pass leaves it.
  const SEEN := Job(Submitted, Queued, false, false, Received, Unsent, Unsent, false)
  const LATE := Job(Pending, Queued, false, false, Received, Unsent, Unsent, true)

  // All other jobs are over, and the pass has the given jobs still to visit.
  ghost function Closing(jobs: Jobs, last: Uuid, todo: set<Uuid>): State {
    State(jobs[last := if last in todo then SEEN else LATE], Updating(todo, []))
  }

  lemma VisitOver(plan: Plan, concurrency: nat, s: State, id: Uuid)
    requires Enabled(plan, concurrency, s, Visit(id)) && Over(s.jobs[id])
    ensures Apply(plan, concurrency, s, Visit(id)) == State(s.jobs, Updating(s.runner.todo - {id}, s.runner.freed))
  {
    assert JobAfter(plan, s, Visit(id)) == s.jobs[id];
  }

  lemma NotOnItself(plan: Plan, id: Uuid)
    requires InSubmissionOrder(plan)
    ensures !DependencyOf(plan.specs, id, id)
  {
  }

  lemma VisitLast(plan: Plan, concurrency: nat, s: State, last: Uuid)
    requires InSubmissionOrder(plan) && Enabled(plan, concurrency, s, Visit(last))
    requires s.jobs[last] == SEEN && plan.specs[last].dependsOn != []
    requires forall id | id in s.jobs && id != last :: Over(s.jobs[id])
    ensures Apply(plan, concurrency, s, Visit(last))
         == State(s.jobs[last := LATE], Updating(s.runner.todo - {last}, s.runner.freed))
  {
    NotOnItself(plan, last);
    assert !Waits(plan.specs, StatusesOf(s.jobs), last);
    assert JobAfter(plan, s, Visit(last)) == LATE;
  }

  lemma ClosingIsOver(jobs: Jobs, last: Uuid, todo: set<Uuid>)
    requires AllOver(jobs)
    ensures forall id | id in Closing(jobs, last, todo).jobs && id != last :: Over(Closing(jobs, last, todo).jobs[id])
  {
  }

  lemma ClosingVisitsLast(plan: Plan, concurrency: nat, jobs: Jobs, last: Uuid, todo: set<Uuid>)
    requires InSubmissionOrder(plan) && AllOver(jobs)
    requires last in plan.specs && plan.specs[last].dependsOn != [] && last in todo
    ensures Enabled(plan, concurrency, Closing(jobs, last, todo), Visit(last))
    ensures Apply(plan, concurrency, Closing(jobs, last, todo), Visit(last)) == Closing(jobs, last, todo - {last})
  {
    var s := Closing(jobs, last, todo);
    ClosingIsOver(jobs, last, todo);
    VisitLast(plan, concurrency, s, last);
    assert s.jobs[last := LATE] == jobs[last := LATE];
  }

  lemma ClosingVisitsOther(plan: Plan, concurrency: nat, jobs: Jobs, last: Uuid, todo: set<Uuid>, id: Uuid)
    requires AllOver(jobs) && id in todo && id in jobs && id in plan.specs && id != last
    ensures Enabled(plan, concurrency, Closing(jobs, last, todo), Visit(id))
    ensures Apply(plan, concurrency, Closing(jobs, last, todo), Visit(id)) == Closing(jobs, last, todo - {id})
  {
    var s := Closing(jobs, last, todo);
    ClosingIsOver(jobs, last, todo);
    VisitOver(plan, concurrency, s, id);
    assert last in todo <==> last in todo - {id};
  }

  // The pass may begin: what it is to visit is in the queue, all over but the last.
  ghost predicate CanClose(plan: Plan, jobs: Jobs, last: Uuid) {
    && InSubmissionOrder(plan) && AllOver(jobs)
    && jobs.Keys <= plan.specs.Keys && last in plan.specs && plan.specs[last].dependsOn != []
  }

  lemma ClosingRun(plan: Plan, concurrency: nat, jobs: Jobs, last: Uuid, todo: set<Uuid>, run: seq<State>, id: Uuid)
    returns (longer: seq<State>)
    requires CanClose(plan, jobs, last) && id in todo && todo <= jobs.Keys + {last}
    requires IsFaithfulRun(plan, concurrency, run) && run[|run| - 1] == Closing(jobs, last, todo)
    ensures IsFaithfulRun(plan, concurrency, longer) && longer[|longer| - 1] == Closing(jobs, last, todo - {id})
  {
    if id == last {
      ClosingVisitsLast(plan, concurrency, jobs, last, todo);
    } else {
      ClosingVisitsOther(plan, concurrency, jobs, last, todo, id);
    }
    longer := Extend(plan, concurrency, run, Visit(id));
  }

  lemma {:induction false} FinishPass(plan: Plan, concurrency: nat, jobs: Jobs, last: Uuid, todo: set<Uuid>,
                                      run: seq<State>) returns (longer: seq<State>)
    requires CanClose(plan, jobs, last) && todo <= jobs.Keys + {last}
    requires IsFaithfulRun(plan, concurrency, run) && run[|run| - 1] == Closing(jobs, last, todo)
    ensures IsFaithfulRun(plan, concurrency, longer) && longer[|longer| - 1] == Closing(jobs, last, {})
    decreases |todo|
  {
    longer := run;
    if todo == {} {
    } else {
      var id :| id in todo;
      longer := ClosingRun(plan, concurrency, jobs, last, todo, run, id);
      longer := FinishPass(plan, concurrency, jobs, last, todo - {id}, longer);
    }
  }

  // The state in which the last job is left.
  ghost function Left(jobs: Jobs, last: Uuid): State {
    State(jobs[last := LATE], Selecting)
  }

  lemma NothingRunnable(plan: Plan, concurrency: nat, jobs: Jobs, last: Uuid)
    requires AllOver(jobs)
    ensures Enabled(plan, concurrency, Closing(jobs, last, {}), NoneRunnable)
    ensures Apply(plan, concurrency, Closing(jobs, last, {}), NoneRunnable) == Left(jobs, last)
  {
  }

  lemma SubmitLast(plan: Plan, concurrency: nat, jobs: Jobs, last: Uuid)
    requires ValidPlan(plan) && AllOver(jobs)
    requires forall id | id in jobs :: jobs[id].added.Received?
    requires last in plan.specs && jobs.Keys == plan.specs.Keys - {last}
    ensures Enabled(plan, concurrency, State(jobs, Selecting), Submit(last))
    ensures var t := Apply(plan, concurrency, State(jobs, Selecting), Submit(last));
            && Enabled(plan, concurrency, t, Receive(last, AddedMsg))
            && Apply(plan, concurrency, t, Receive(last, AddedMsg)) == Closing(jobs, last, jobs.Keys + {last})
  {
    var t := Apply(plan, concurrency, State(jobs, Selecting), Submit(last));
    assert t == State(jobs[last := NEW_JOB], Selecting);
    assert t.jobs.Keys == jobs.Keys + {last};
    assert t.jobs[last := SEEN] == jobs[last := SEEN];
  }

  ghost predicate Ended(plan: Plan, concurrency: nat, s: State) {
    forall step :: !Enabled(plan, concurrency, s, step)
  }

  lemma LeftIsEnded(plan: Plan, concurrency: nat, jobs: Jobs, last: Uuid)
    requires AllOver(jobs) && last in plan.specs && jobs.Keys == plan.specs.Keys - {last}
    ensures Ended(plan, concurrency, Left(jobs, last))
    ensures var s := Left(jobs, last);
            && s.jobs.Keys == plan.specs.Keys && s.jobs[last].status.Pending?
            && forall id | id in s.jobs && id != last :: s.jobs[id].status.Done()
  {
    var s := Left(jobs, last);
    forall step
      ensures !Enabled(plan, concurrency, s, step)
    {
      if !step.Submit? && !step.NoneRunnable? && step.id in s.jobs {
        assert step.id != last ==> Over(s.jobs[step.id]);
      }
    }
  }

  /**
   A job with dependencies that no other one follows can be left pending for ever:
   some run within the premises ends there, with no step left.
   */
  lemma LastCanBeLeft(plan: Plan, concurrency: nat, last: Uuid) returns (run: seq<State>)
    requires MayBeLast(plan, last) && plan.specs[last].dependsOn != [] && concurrency >= 1
    ensures IsFaithfulRun(plan, concurrency, run)
    ensures var s := run[|run| - 1];
            && s.jobs.Keys == plan.specs.Keys && Ended(plan, concurrency, s)
            && s.jobs[last].status.Pending?
            && forall id | id in s.jobs && id != last :: s.jobs[id].status.Done()
  {
    InitialIsGood(plan, concurrency, last);
    run := RunToRest(plan, concurrency, last, [INITIAL]);
    var s := run[|run| - 1];
    RestIsOver(plan, concurrency, last, s);
    HeardAll(plan, concurrency, s);
    run := LeaveLast(plan, concurrency, s.jobs, last, run);
    LeftIsEnded(plan, concurrency, s.jobs, last);
  }

  // The last job comes when all others are over, and is left.
  lemma LeaveLast(plan: Plan, concurrency: nat, jobs: Jobs, last: Uuid, rest: seq<State>) returns (run: seq<State>)
    requires CanClose(plan, jobs, last) && jobs.Keys == plan.specs.Keys - {last}
    requires forall id | id in jobs :: jobs[id].added.Received?
    requires IsFaithfulRun(plan, concurrency, rest) && rest[|rest| - 1] == State(jobs, Selecting)
    ensures IsFaithfulRun(plan, concurrency, run) && run[|run| - 1] == Left(jobs, last)
  {
    SubmitLast(plan, concurrency, jobs, last);
    run := Extend(plan, concurrency, rest, Submit(last));
    run := Extend(plan, concurrency, run, Receive(last, AddedMsg));
    run := FinishPass(plan, concurrency, jobs, last, jobs.Keys + {last}, run);
    NothingRunnable(plan, concurrency, jobs, last);
    run := Extend(plan, concurrency, run, NoneRunnable);
  }

  // Whatever the interleaving, a run that has come to its end has finished every job.
  ghost predicate AlwaysFinishes(plan: Plan, concurrency: nat) {
    forall run: seq<State> | IsFaithfulRun(plan, concurrency, run) && Final(plan, concurrency, run[|run| - 1]) ::
      AllDone(plan, run[|run| - 1].jobs)
  }

  // Unless two jobs free each other, one that ends its submission can be the last.
  lemma SomeMayBeLast(plan: Plan) returns (last: Uuid)
    requires InSubmissionOrder(plan) && !EndsFree(plan) && !TwoDependent(plan)
    ensures MayBeLast(plan, last) && plan.specs[last].dependsOn != []
  {
    last :| HasDependencies(plan, last) && !HasLater(plan, last);
    OthersInCompany(plan, last);
  }

  lemma OthersInCompany(plan: Plan, last: Uuid)
    requires HasDependencies(plan, last) && !TwoDependent(plan)
    ensures InCompany(plan, Others(plan, last))
  {
    var others := Others(plan, last);
    if z :| z in others && plan.specs[z].dependsOn != [] && !AtLeastTwo(others) {
      forall id | id in plan.specs.Keys
        ensures id in {last, z}
      {
        assert id != last ==> id in others;
      }
      assert plan.specs.Keys == {last, z};
      assert IsPair(plan, last, z);
    }
  }

  // A run that has come to its end without finishing every job.
  lemma StuckRun(plan: Plan, concurrency: nat) returns (run: seq<State>)
    requires InSubmissionOrder(plan) && !EndsFree(plan) && !TwoDependent(plan) && concurrency >= 1
    ensures IsFaithfulRun(plan, concurrency, run) && Final(plan, concurrency, run[|run| - 1])
    ensures !AllDone(plan, run[|run| - 1].jobs)
  {
    var last := SomeMayBeLast(plan);
    run := LastCanBeLeft(plan, concurrency, last);
    EndedIsFinal(plan, concurrency, run[|run| - 1]);
  }

  /**
   Every job is sure to finish exactly if no submission ends with a job that has
   dependencies, or there are just two jobs and both have some.
   */
  lemma AlwaysFinishesIff(plan: Plan, concurrency: nat)
    requires InSubmissionOrder(plan) && concurrency >= 1
    ensures AlwaysFinishes(plan, concurrency) <==> EndsFree(plan) || TwoDependent(plan)
  {
    if EndsFree(plan) || TwoDependent(plan) {
      forall run: seq<State> | IsFaithfulRun(plan, concurrency, run) && Final(plan, concurrency, run[|run| - 1])
        ensures AllDone(plan, run[|run| - 1].jobs)
      {
        if EndsFree(plan) {
          EndsFreeFinishes(plan, concurrency, run);
        } else {
          PairFinishes(plan, concurrency, run);
        }
      }
    } else {
      var run := StuckRun(plan, concurrency);
    }
  }

  lemma EndedIsFinal(plan: Plan, concurrency: nat, s: State)
    requires Ended(plan, concurrency, s)
    ensures Final(plan, concurrency, s)
  {
  }
}
