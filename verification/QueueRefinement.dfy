/**
 The queue's methods and the scheduler's steps agree: an undisturbed pass of
 visits does to the statuses what UpdateJobs is proved to do, and the other
 queue operations are single steps.
 */
module QueueRefinement {
  import opened JobStates
  import opened Manifests
  import opened Scheduler
  import opened Wrappers

  ghost predicate ReadyForPass(plan: Plan, s: State, order: seq<Uuid>) {
    && s.runner.Updating? && s.jobs.Keys <= plan.specs.Keys
    && (forall i, j | 0 <= i < j < |order| :: order[i] != order[j])
    && (forall id :: id in order <==> id in s.runner.todo)
    && s.runner.todo <= s.jobs.Keys
  }

  // The visits of one pass, made in the given order with nothing in between.
  ghost function AfterVisits(plan: Plan, concurrency: nat, s: State, order: seq<Uuid>): State
    requires ReadyForPass(plan, s, order)
    decreases |order|
  {
    if order == [] then s
    else
      assert order[0] in s.runner.todo;
      var t := Apply(plan, concurrency, s, Visit(order[0]));
      OneVisit(plan, concurrency, s, order);
      AfterVisits(plan, concurrency, t, order[1..])
  }

  lemma OneVisit(plan: Plan, concurrency: nat, s: State, order: seq<Uuid>)
    requires ReadyForPass(plan, s, order) && order != []
    ensures Enabled(plan, concurrency, s, Visit(order[0]))
    ensures ReadyForPass(plan, Apply(plan, concurrency, s, Visit(order[0])), order[1..])
  {
    assert order[0] in s.runner.todo;
    assert order == [order[0]] + order[1..];
  }

  lemma VisitedStatuses(plan: Plan, concurrency: nat, s: State, id: Uuid)
    requires Enabled(plan, concurrency, s, Visit(id)) && s.jobs.Keys <= plan.specs.Keys
    ensures StatusesOf(Apply(plan, concurrency, s, Visit(id)).jobs)
         == StatusesOf(s.jobs)[id := Visited(plan.specs, StatusesOf(s.jobs), id)]
  {
  }

  lemma {:induction false} PassFrom(plan: Plan, concurrency: nat, s: State, before: Statuses, order: seq<Uuid>)
    requires ReadyForPass(plan, s, order) && before.Keys <= plan.specs.Keys
    requires MidPass(plan.specs, before, StatusesOf(s.jobs), s.runner.todo)
    requires FreedSoFar(plan.specs, before, s.runner.todo, s.runner.freed)
    ensures var t := AfterVisits(plan, concurrency, s, order);
            && PassMade(t.runner)
            && StatusesOf(t.jobs) == UpdatedAtOnce(plan.specs, before)
            && FreedSoFar(plan.specs, before, {}, t.runner.freed)
    decreases |order|
  {
    if order == [] {
      assert s.runner.todo == {};
    } else {
      OneVisit(plan, concurrency, s, order);
      VisitedStatuses(plan, concurrency, s, order[0]);
      VisitsCommute(plan.specs, before, StatusesOf(s.jobs), s.runner.todo, order[0]);
      PassFrom(plan, concurrency, Apply(plan, concurrency, s, Visit(order[0])), before, order[1..]);
    }
  }

  /**
   From the moment a message was received: whatever order the visits take, the
   statuses and the freed jobs are those that UpdateJobs returns.
   */
  lemma PassRefinesUpdateJobs(plan: Plan, concurrency: nat, s: State, order: seq<Uuid>)
    requires ReadyForPass(plan, s, order) && s.runner == Updating(s.jobs.Keys, [])
    ensures var t := AfterVisits(plan, concurrency, s, order);
            && PassMade(t.runner)
            && StatusesOf(t.jobs) == UpdatedAtOnce(plan.specs, StatusesOf(s.jobs))
            && FreedSoFar(plan.specs, StatusesOf(s.jobs), {}, t.runner.freed)
  {
    PassFrom(plan, concurrency, s, StatusesOf(s.jobs), order);
  }

  // The step that GetNextRunnable amounts to, by what it returns.
  function TakingStep(taken: Option<Uuid>): Step {
    match taken
    case None => NoneRunnable
    case Some(id) => Pick(id)
  }

  /**
   After the pass, what the contract of GetNextRunnable allows is what an enabled step
   does, and the other way round.
   */
  lemma TakingRefinesNextRunnable(plan: Plan, concurrency: nat, s: State, after: Statuses, taken: Option<Uuid>)
    requires PassMade(s.runner) && s.jobs.Keys <= plan.specs.Keys
    ensures TakesRunnable(StatusesOf(s.jobs), after, taken) <==>
              && Enabled(plan, concurrency, s, TakingStep(taken))
              && StatusesOf(Apply(plan, concurrency, s, TakingStep(taken)).jobs) == after
  {
    var statuses := StatusesOf(s.jobs);
    assert forall id | id in s.jobs :: statuses[id] == s.jobs[id].status;
  }

  /**
   A submission does to the statuses what AddJob is proved to do.
   */
  lemma SubmittingRefinesAddJob(plan: Plan, concurrency: nat, s: State, id: Uuid, after: Statuses)
    requires Enabled(plan, concurrency, s, Submit(id))
    ensures AddsSubmitted(StatusesOf(s.jobs), after, id) <==>
            StatusesOf(Apply(plan, concurrency, s, Submit(id)).jobs) == after
  {
  }
}
