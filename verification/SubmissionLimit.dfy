/**
 How many events may be submitted at once decides which runs there are. With limit 1
 the jobs of an event come after all jobs of the events before it.
 */
module SubmissionLimit {
  import opened JobStates
  import opened Manifests
  import opened Wrappers
  import opened Scheduler
  import opened SchedulerSafety
  import opened AllFinish
  import opened Batches
  import opened DependentPair
  import opened LastJob
  import opened Liveness
  import opened Quiescence
  import opened Submission

  // -------- runs that respect the limit --------

  // The last AddJob of the event has returned.
  ghost predicate Closed(b: Batch, jobs: Jobs)
    requires WellSized(b)
  {
    forall i | 0 <= i < b.count :: b.requests[i].id in jobs && jobs[b.requests[i].id].added.Received?
  }

  ghost predicate AllSized(batches: seq<Batch>) {
    forall b | 0 <= b < |batches| :: WellSized(batches[b])
  }

  // Events are dispatched in order; these still occupy a slot of the callback limiter.
  ghost function OpenBefore(batches: seq<Batch>, b: nat, jobs: Jobs): set<nat>
    requires AllSized(batches) && b <= |batches|
  {
    set c: nat | c < b && !Closed(batches[c], jobs)
  }

  // The callback that submits the job has a slot beside the earlier ones.
  ghost predicate MaySubmit(batches: seq<Batch>, limit: nat, jobs: Jobs, id: Uuid)
    requires AllSized(batches)
  {
    forall b: nat, i: nat | At(batches, b, i, id) :: |OpenBefore(batches, b, jobs)| < limit
  }

  ghost predicate Allowed(batches: seq<Batch>, limit: nat, s: State, step: Step)
    requires AllSized(batches)
  {
    step.Submit? ==> MaySubmit(batches, limit, s.jobs, step.id)
  }

  ghost predicate LimitedNext(plan: Plan, batches: seq<Batch>, limit: nat, concurrency: nat, s: State, t: State)
    requires AllSized(batches)
  {
    exists step :: Enabled(plan, concurrency, s, step) && Faithful(s, step) && Allowed(batches, limit, s, step)
                && t == Apply(plan, concurrency, s, step)
  }

  ghost predicate IsLimitedRun(plan: Plan, batches: seq<Batch>, limit: nat, concurrency: nat, run: seq<State>)
    requires AllSized(batches)
  {
    && run != [] && run[0] == INITIAL
    && forall i | 0 < i < |run| :: LimitedNext(plan, batches, limit, concurrency, run[i - 1], run[i])
  }

  ghost predicate LimitedFinal(plan: Plan, batches: seq<Batch>, limit: nat, concurrency: nat, s: State)
    requires AllSized(batches)
  {
    forall step :: Enabled(plan, concurrency, s, step) && Allowed(batches, limit, s, step) ==> !Faithful(s, step)
  }

  // Whatever the interleaving, a run that has come to its end has finished every job.
  ghost predicate LimitedAlwaysFinishes(plan: Plan, batches: seq<Batch>, limit: nat, concurrency: nat)
    requires AllSized(batches)
  {
    forall run: seq<State> |
      && IsLimitedRun(plan, batches, limit, concurrency, run)
      && LimitedFinal(plan, batches, limit, concurrency, run[|run| - 1]) ::
      AllDone(plan, run[|run| - 1].jobs)
  }

  lemma LimitedRunIsFaithful(plan: Plan, batches: seq<Batch>, limit: nat, concurrency: nat, run: seq<State>)
    requires AllSized(batches) && IsLimitedRun(plan, batches, limit, concurrency, run)
    ensures IsFaithfulRun(plan, concurrency, run)
  {
    forall i | 0 < i < |run|
      ensures FaithfulNext(plan, concurrency, run[i - 1], run[i])
    {
      assert LimitedNext(plan, batches, limit, concurrency, run[i - 1], run[i]);
    }
  }

  // -------- the limit never blocks for good --------

  // The first job of the batch that is not in the queue.
  lemma {:induction false} FirstMissing(b: Batch, jobs: Jobs, n: nat) returns (i: nat)
    requires WellSized(b) && n < b.count && b.requests[n].id !in jobs
    ensures i < b.count && b.requests[i].id !in jobs
    ensures forall j | 0 <= j < i :: b.requests[j].id in jobs
  {
    if m :| 0 <= m < n && b.requests[m].id !in jobs {
      i := FirstMissing(b, jobs, m);
    } else {
      i := n;
    }
  }

  lemma {:induction false} FirstOpen(batches: seq<Batch>, jobs: Jobs, b: nat) returns (c: nat)
    requires AllSized(batches) && b < |batches| && !Closed(batches[b], jobs)
    ensures c < |batches| && !Closed(batches[c], jobs) && OpenBefore(batches, c, jobs) == {}
  {
    if d :| d in OpenBefore(batches, b, jobs) {
      c := FirstOpen(batches, jobs, d);
    } else {
      c := b;
    }
  }

  lemma PlannedSubmit(plan: Plan, batches: seq<Batch>, concurrency: nat, s: State, c: nat, i: nat)
    requires MadeBy(plan, batches) && c < |batches| && i < batches[c].count
    requires forall k | k in s.jobs :: s.jobs[k].added.Received?
    requires batches[c].requests[i].id !in s.jobs
    requires forall j | 0 <= j < i :: batches[c].requests[j].id in s.jobs
    ensures Enabled(plan, concurrency, s, Submit(batches[c].requests[i].id))
  {
    assert Planned(plan, batches[c], i);
  }

  lemma AllowedSubmit(plan: Plan, batches: seq<Batch>, limit: nat, jobs: Jobs, c: nat, i: nat)
    requires MadeBy(plan, batches) && AllSized(batches) && c < |batches| && i < batches[c].count
    requires |OpenBefore(batches, c, jobs)| < limit
    ensures MaySubmit(batches, limit, jobs, batches[c].requests[i].id)
  {
    var id := batches[c].requests[i].id;
    assert At(batches, c, i, id);
    forall b: nat, l: nat | At(batches, b, l, id)
      ensures |OpenBefore(batches, b, jobs)| < limit
    {
      assert b == c;
    }
  }

  // While a batch is open and nothing goes on, the first open one may submit.
  lemma OpenMaySubmit(plan: Plan, batches: seq<Batch>, limit: nat, concurrency: nat, s: State, b: nat)
    returns (step: Step)
    requires MadeBy(plan, batches) && AllSized(batches) && limit >= 1 && b < |batches|
    requires !Closed(batches[b], s.jobs) && forall k | k in s.jobs :: s.jobs[k].added.Received?
    ensures step.Submit? && Enabled(plan, concurrency, s, step) && Allowed(batches, limit, s, step)
  {
    var c := FirstOpen(batches, s.jobs, b);
    var n :| 0 <= n < batches[c].count && batches[c].requests[n].id !in s.jobs;
    var i := FirstMissing(batches[c], s.jobs, n);
    PlannedSubmit(plan, batches, concurrency, s, c, i);
    AllowedSubmit(plan, batches, limit, s.jobs, c, i);
    step := Submit(batches[c].requests[i].id);
  }

  // At the end of a limited run every job was submitted.
  lemma LimitedEnd(plan: Plan, batches: seq<Batch>, limit: nat, concurrency: nat, run: seq<State>)
    requires MadeBy(plan, batches) && AllSized(batches) && limit >= 1 && concurrency >= 1
    requires IsLimitedRun(plan, batches, limit, concurrency, run)
    requires LimitedFinal(plan, batches, limit, concurrency, run[|run| - 1])
    ensures run[|run| - 1].jobs.Keys == plan.specs.Keys
  {
    var n := |run| - 1;
    var s := run[n];
    MadePlanDependsOnEarlier(plan, batches);
    LimitedRunIsFaithful(plan, batches, limit, concurrency, run);
    RunFaithful(plan, concurrency, run, n);
    RunInv(plan, concurrency, run, n);
    if !Quiet(s) {
      var step := NoDeadlock(plan, concurrency, run, n);
    }
    AllAddedHeard(plan, concurrency, s);
    forall id | id in plan.specs
      ensures id in s.jobs
    {
      var b: nat, i: nat :| At(batches, b, i, id);
      if id !in s.jobs {
        var step := OpenMaySubmit(plan, batches, limit, concurrency, s, b);
        assert Faithful(s, step);
      }
    }
  }

  lemma AllSubmittedIsFinal(plan: Plan, batches: seq<Batch>, limit: nat, concurrency: nat, s: State)
    requires AllSized(batches) && s.jobs.Keys == plan.specs.Keys
    ensures LimitedFinal(plan, batches, limit, concurrency, s) <==> Final(plan, concurrency, s)
  {
    forall step | Enabled(plan, concurrency, s, step)
      ensures Allowed(batches, limit, s, step)
    {
    }
  }

  // -------- plans that realise a limit --------

  // The jobs submitted for the batches before b, all but batch d.
  ghost function SubmittedBefore(batches: seq<Batch>, d: nat, b: nat): set<Uuid>
    requires AllSized(batches) && b <= |batches|
  {
    set c: nat, i: nat | c < b && c != d && i < batches[c].count :: batches[c].requests[i].id
  }

  ghost predicate Place(batches: seq<Batch>, id: Uuid, place: (nat, nat)) {
    At(batches, place.0, place.1, id)
  }

  ghost function PlaceOf(batches: seq<Batch>, id: Uuid): (place: (nat, nat))
    requires exists place :: Place(batches, id, place)
    ensures Place(batches, id, place)
  {
    var place :| Place(batches, id, place);
    place
  }

  lemma HasPlace(plan: Plan, batches: seq<Batch>, id: Uuid)
    requires MadeBy(plan, batches) && id in plan.specs
    ensures exists place :: Place(batches, id, place)
  {
    var b: nat, i: nat :| At(batches, b, i, id);
    assert Place(batches, id, (b, i));
  }

  ghost predicate EachHasPlace(plan: Plan, batches: seq<Batch>) {
    forall id | id in plan.specs :: exists place :: Place(batches, id, place)
  }

  ghost function EarlierAtPlace(batches: seq<Batch>, d: nat, place: (nat, nat)): set<Uuid>
    requires AllSized(batches) && place.0 < |batches| && place.1 < batches[place.0].count
  {
    SubmittedBefore(batches, d, place.0) + IdsBefore(batches[place.0].requests, place.1)
  }

  // One batch after another, only that none waits for batch d; d may be no batch at all.
  ghost function Sequential(plan: Plan, batches: seq<Batch>, d: nat): Plan
    requires AllSized(batches) && EachHasPlace(plan, batches)
  {
    Plan(plan.specs, map id | id in plan.specs :: EarlierAtPlace(batches, d, PlaceOf(batches, id)))
  }

  lemma SequentialAt(plan: Plan, batches: seq<Batch>, d: nat, b: nat, i: nat, id: Uuid)
    requires MadeBy(plan, batches) && AllSized(batches) && EachHasPlace(plan, batches) && At(batches, b, i, id)
    ensures id in plan.specs && Sequential(plan, batches, d).earlier[id] == EarlierAtPlace(batches, d, (b, i))
    ensures plan.earlier[id] == IdsBefore(batches[b].requests, i)
  {
    assert Planned(plan, batches[b], i);
    var place := PlaceOf(batches, id);
    assert At(batches, place.0, place.1, id);
  }

  // Where a job stands that comes before another one.
  lemma PlaceBefore(plan: Plan, batches: seq<Batch>, d: nat, b: nat, i: nat, k: Uuid) returns (c: nat, j: nat)
    requires MadeBy(plan, batches) && AllSized(batches) && b < |batches| && i < batches[b].count
    requires k in EarlierAtPlace(batches, d, (b, i))
    ensures At(batches, c, j, k) && ((c < b && c != d) || (c == b && j < i))
  {
    if k in IdsBefore(batches[b].requests, i) {
      var l: nat :| l < i && batches[b].requests[l].id == k;
      c, j := b, l;
    } else {
      var e: nat, l: nat :| e < b && e != d && l < batches[e].count && batches[e].requests[l].id == k;
      c, j := e, l;
    }
  }

  lemma BeforeIsEarlier(batches: seq<Batch>, d: nat, b: nat, i: nat, c: nat, j: nat, k: Uuid)
    requires AllSized(batches) && b < |batches| && i < batches[b].count && At(batches, c, j, k)
    requires (c < b && c != d) || (c == b && j < i)
    ensures k in EarlierAtPlace(batches, d, (b, i))
  {
  }

  // What comes before k comes before id.
  ghost predicate Inherits(q: Plan, k: Uuid, id: Uuid) {
    && k in q.specs && k in q.earlier && id in q.earlier
    && k != id && q.earlier[k] <= q.earlier[id]
  }

  lemma SequentialGrows(plan: Plan, batches: seq<Batch>, d: nat, id: Uuid, k: Uuid)
    requires MadeBy(plan, batches) && AllSized(batches) && EachHasPlace(plan, batches)
    requires Later(Sequential(plan, batches, d), k, id)
    ensures Inherits(Sequential(plan, batches, d), k, id)
  {
    var b: nat, i: nat :| At(batches, b, i, id);
    SequentialAt(plan, batches, d, b, i, id);
    var c, j := PlaceBefore(plan, batches, d, b, i, k);
    SequentialAt(plan, batches, d, c, j, k);
    forall l | l in Sequential(plan, batches, d).earlier[k]
      ensures l in Sequential(plan, batches, d).earlier[id]
    {
      var e, m := PlaceBefore(plan, batches, d, c, j, l);
      BeforeIsEarlier(batches, d, b, i, e, m, l);
    }
  }

  lemma SequentialIsValid(plan: Plan, batches: seq<Batch>, d: nat)
    requires MadeBy(plan, batches) && AllSized(batches) && EachHasPlace(plan, batches)
    ensures ValidPlan(Sequential(plan, batches, d))
  {
    var q := Sequential(plan, batches, d);
    MadePlanIsValid(plan, batches);
    forall id, k | Later(q, k, id)
      ensures Inherits(q, k, id)
    {
      SequentialGrows(plan, batches, d, id, k);
    }
    OrderIsValid(plan, q);
  }

  lemma OrderIsValid(plan: Plan, q: Plan)
    requires ValidPlan(plan) && q.specs == plan.specs && q.earlier.Keys == q.specs.Keys
    requires forall id, k | Later(q, k, id) :: Inherits(q, k, id)
    ensures ValidPlan(q)
  {
    forall id, k | id in q.specs && k in q.earlier[id]
      ensures Inherits(q, k, id)
    {
      assert Later(q, k, id);
    }
  }

  lemma SequentialIsInOrder(plan: Plan, batches: seq<Batch>, d: nat)
    requires MadeBy(plan, batches) && AllSized(batches) && EachHasPlace(plan, batches)
    ensures InSubmissionOrder(Sequential(plan, batches, d))
  {
    var q := Sequential(plan, batches, d);
    SequentialIsValid(plan, batches, d);
    forall id, k | DependencyOf(q.specs, id, k)
      ensures k in q.earlier[id]
    {
      DependencyIsEarlier(plan, batches, id, k);
      var b: nat, i: nat :| At(batches, b, i, id);
      SequentialAt(plan, batches, d, b, i, id);
    }
  }

  // -------- their runs are limited runs --------

  // Only submissions read the order of a plan.
  lemma SameStep(p: Plan, q: Plan, concurrency: nat, s: State, step: Step)
    requires p.specs == q.specs && Enabled(p, concurrency, s, step)
    requires step.Submit? ==> Enabled(q, concurrency, s, step)
    ensures Enabled(q, concurrency, s, step) && Apply(p, concurrency, s, step) == Apply(q, concurrency, s, step)
  {
  }

  // Enough slots for the sequence, and for batch d beside it.
  ghost predicate Realises(batches: seq<Batch>, d: nat, limit: nat) {
    limit >= 2 || (limit == 1 && d >= |batches|)
  }

  lemma SequenceIsOpen(batches: seq<Batch>, d: nat, b: nat, i: nat, jobs: Jobs)
    requires AllSized(batches) && b < |batches| && i < batches[b].count
    requires forall k | k in EarlierAtPlace(batches, d, (b, i)) :: k in jobs && jobs[k].added.Received?
    ensures OpenBefore(batches, b, jobs) <= if d < |batches| then {d} else {}
  {
    forall c: nat | c < b && c != d
      ensures Closed(batches[c], jobs)
    {
      EarlierIsClosed(batches, d, b, i, c, jobs);
    }
  }

  lemma EarlierIsClosed(batches: seq<Batch>, d: nat, b: nat, i: nat, c: nat, jobs: Jobs)
    requires AllSized(batches) && b < |batches| && i < batches[b].count && c < b && c != d
    requires forall k | k in EarlierAtPlace(batches, d, (b, i)) :: k in jobs && jobs[k].added.Received?
    ensures Closed(batches[c], jobs)
  {
    forall j: nat | j < batches[c].count
      ensures batches[c].requests[j].id in EarlierAtPlace(batches, d, (b, i))
    {
      BeforeIsEarlier(batches, d, b, i, c, j, batches[c].requests[j].id);
    }
  }

  lemma SequentialSubmit(plan: Plan, batches: seq<Batch>, d: nat, limit: nat, concurrency: nat, s: State, id: Uuid)
    requires MadeBy(plan, batches) && AllSized(batches) && EachHasPlace(plan, batches)
    requires Realises(batches, d, limit)
    requires Enabled(Sequential(plan, batches, d), concurrency, s, Submit(id))
    ensures Enabled(plan, concurrency, s, Submit(id)) && MaySubmit(batches, limit, s.jobs, id)
  {
    var b: nat, i: nat :| At(batches, b, i, id);
    SequentialAt(plan, batches, d, b, i, id);
    SequenceIsOpen(batches, d, b, i, s.jobs);
    SubsetSize(OpenBefore(batches, b, s.jobs), if d < |batches| then {d} else {});
    AllowedSubmit(plan, batches, limit, s.jobs, b, i);
  }

  lemma SequentialNext(plan: Plan, batches: seq<Batch>, d: nat, limit: nat, concurrency: nat, s: State, t: State)
    requires MadeBy(plan, batches) && AllSized(batches) && EachHasPlace(plan, batches)
    requires Realises(batches, d, limit) && FaithfulNext(Sequential(plan, batches, d), concurrency, s, t)
    ensures LimitedNext(plan, batches, limit, concurrency, s, t)
  {
    var q := Sequential(plan, batches, d);
    var step :| Enabled(q, concurrency, s, step) && Faithful(s, step) && t == Apply(q, concurrency, s, step);
    if step.Submit? {
      SequentialSubmit(plan, batches, d, limit, concurrency, s, step.id);
    }
    SameStep(q, plan, concurrency, s, step);
  }

  lemma SequentialRunIsLimited(plan: Plan, batches: seq<Batch>, d: nat, limit: nat, concurrency: nat, run: seq<State>)
    requires MadeBy(plan, batches) && AllSized(batches) && EachHasPlace(plan, batches)
    requires Realises(batches, d, limit) && IsFaithfulRun(Sequential(plan, batches, d), concurrency, run)
    ensures IsLimitedRun(plan, batches, limit, concurrency, run)
  {
    forall i | 0 < i < |run|
      ensures LimitedNext(plan, batches, limit, concurrency, run[i - 1], run[i])
    {
      assert FaithfulNext(Sequential(plan, batches, d), concurrency, run[i - 1], run[i]);
      SequentialNext(plan, batches, d, limit, concurrency, run[i - 1], run[i]);
    }
  }

  // With limit 1 there are no other runs.
  lemma OneByOneSubmit(plan: Plan, batches: seq<Batch>, concurrency: nat, s: State, id: Uuid)
    requires MadeBy(plan, batches) && AllSized(batches) && EachHasPlace(plan, batches)
    requires Enabled(plan, concurrency, s, Submit(id)) && MaySubmit(batches, 1, s.jobs, id)
    ensures Enabled(Sequential(plan, batches, |batches|), concurrency, s, Submit(id))
  {
    var b: nat, i: nat :| At(batches, b, i, id);
    SequentialAt(plan, batches, |batches|, b, i, id);
    assert OpenBefore(batches, b, s.jobs) == {};
    forall k | k in EarlierAtPlace(batches, |batches|, (b, i))
      ensures k in s.jobs && s.jobs[k].added.Received?
    {
      var c, j := PlaceBefore(plan, batches, |batches|, b, i, k);
      if c < b {
        assert c !in OpenBefore(batches, b, s.jobs);
      }
    }
  }

  lemma OneByOneNext(plan: Plan, batches: seq<Batch>, concurrency: nat, s: State, t: State)
    requires MadeBy(plan, batches) && AllSized(batches) && EachHasPlace(plan, batches)
    requires LimitedNext(plan, batches, 1, concurrency, s, t)
    ensures FaithfulNext(Sequential(plan, batches, |batches|), concurrency, s, t)
  {
    var q := Sequential(plan, batches, |batches|);
    var step :| Enabled(plan, concurrency, s, step) && Faithful(s, step) && Allowed(batches, 1, s, step)
             && t == Apply(plan, concurrency, s, step);
    if step.Submit? {
      OneByOneSubmit(plan, batches, concurrency, s, step.id);
    }
    SameStep(plan, q, concurrency, s, step);
  }

  /**
   With limit 1 the runs are those of the plan that puts each event's jobs after all
   jobs of the events before it.
   */
  lemma OneByOneRuns(plan: Plan, batches: seq<Batch>, concurrency: nat, run: seq<State>)
    requires MadeBy(plan, batches) && AllSized(batches) && EachHasPlace(plan, batches)
    ensures IsLimitedRun(plan, batches, 1, concurrency, run)
       <==> IsFaithfulRun(Sequential(plan, batches, |batches|), concurrency, run)
  {
    var q := Sequential(plan, batches, |batches|);
    if IsFaithfulRun(q, concurrency, run) {
      SequentialRunIsLimited(plan, batches, |batches|, 1, concurrency, run);
    }
    if IsLimitedRun(plan, batches, 1, concurrency, run) {
      forall i | 0 < i < |run|
        ensures FaithfulNext(q, concurrency, run[i - 1], run[i])
      {
        assert LimitedNext(plan, batches, 1, concurrency, run[i - 1], run[i]);
        OneByOneNext(plan, batches, concurrency, run[i - 1], run[i]);
      }
    }
  }

  // -------- when every job is sure to finish --------

  // The last submitted job of the batch, if any, has no dependencies.
  ghost predicate LastIsFree(b: Batch)
    requires WellSized(b)
  {
    b.count > 0 ==> b.requests[b.count - 1].dependencies == []
  }

  // No batch after b submits anything.
  ghost predicate NoneAfter(batches: seq<Batch>, b: nat) {
    forall c | b < c < |batches| :: batches[c].count == 0
  }

  // What the submitted lists must end with, by the limit.
  ghost predicate ListsEndFree(batches: seq<Batch>, limit: nat)
    requires AllSized(batches)
  {
    forall b | 0 <= b < |batches| && (limit >= 2 || NoneAfter(batches, b)) :: LastIsFree(batches[b])
  }

  lemma LaterIsNext(plan: Plan, batches: seq<Batch>, b: nat, i: nat, id: Uuid)
    requires MadeBy(plan, batches) && At(batches, b, i, id)
    ensures HasLater(plan, id) <==> i + 1 < batches[b].count
  {
    var batch := batches[b];
    if i + 1 < batch.count {
      assert Planned(plan, batch, i + 1);
      assert Later(plan, id, batch.requests[i + 1].id);
    }
    if k :| Later(plan, id, k) {
      var c: nat, j: nat :| At(batches, c, j, k);
      assert Planned(plan, batches[c], j);
      var l: nat :| l < j && batches[c].requests[l].id == id;
      assert At(batches, c, l, id);
    }
  }

  // In a sequence, later batches come after too, unless this is the one beside it.
  lemma LaterInSequence(plan: Plan, batches: seq<Batch>, d: nat, b: nat, i: nat, id: Uuid)
    requires MadeBy(plan, batches) && AllSized(batches) && EachHasPlace(plan, batches) && At(batches, b, i, id)
    ensures HasLater(Sequential(plan, batches, d), id)
       <==> i + 1 < batches[b].count || (b != d && !NoneAfter(batches, b))
  {
    if i + 1 < batches[b].count {
      PrecedesInSequence(plan, batches, d, b, i, id, b, i + 1);
    }
    if b != d && !NoneAfter(batches, b) {
      var c :| b < c < |batches| && batches[c].count > 0;
      PrecedesInSequence(plan, batches, d, b, i, id, c, 0);
    }
    if k :| Later(Sequential(plan, batches, d), id, k) {
      var c: nat, j: nat :| At(batches, c, j, k);
      SequentialAt(plan, batches, d, c, j, k);
      var e, l := PlaceBefore(plan, batches, d, c, j, id);
      assert e == b && l == i;
    }
  }

  lemma PrecedesInSequence(plan: Plan, batches: seq<Batch>, d: nat, b: nat, i: nat, id: Uuid, c: nat, j: nat)
    requires MadeBy(plan, batches) && AllSized(batches) && EachHasPlace(plan, batches) && At(batches, b, i, id)
    requires c < |batches| && j < batches[c].count && ((b < c && b != d) || (b == c && i < j))
    ensures Later(Sequential(plan, batches, d), id, batches[c].requests[j].id)
  {
    var k := batches[c].requests[j].id;
    assert At(batches, c, j, k);
    SequentialAt(plan, batches, d, c, j, k);
    BeforeIsEarlier(batches, d, c, j, b, i, id);
  }

  lemma DependsIff(plan: Plan, batches: seq<Batch>, b: nat, i: nat, id: Uuid)
    requires MadeBy(plan, batches) && At(batches, b, i, id)
    ensures id in plan.specs && (plan.specs[id].dependsOn == [] <==> batches[b].requests[i].dependencies == [])
  {
    assert Planned(plan, batches[b], i);
  }

  // Batches that overlap freely: every list must end free.
  lemma EndsFreeIff(plan: Plan, batches: seq<Batch>)
    requires MadeBy(plan, batches) && AllSized(batches)
    ensures EndsFree(plan) <==> ListsEndFree(batches, 2)
  {
    if EndsFree(plan) {
      forall b | 0 <= b < |batches|
        ensures LastIsFree(batches[b])
      {
        if batches[b].count > 0 {
          var i := batches[b].count - 1;
          var id := batches[b].requests[i].id;
          DependsIff(plan, batches, b, i, id);
          LaterIsNext(plan, batches, b, i, id);
        }
      }
    }
    if ListsEndFree(batches, 2) {
      forall id | HasDependencies(plan, id)
        ensures HasLater(plan, id)
      {
        var b: nat, i: nat :| At(batches, b, i, id);
        DependsIff(plan, batches, b, i, id);
        assert LastIsFree(batches[b]);
        LaterIsNext(plan, batches, b, i, id);
      }
    }
  }

  lemma SequenceEnd(plan: Plan, batches: seq<Batch>, b: nat)
    requires MadeBy(plan, batches) && AllSized(batches) && EachHasPlace(plan, batches)
    requires EndsFree(Sequential(plan, batches, |batches|)) && b < |batches| && NoneAfter(batches, b)
    ensures LastIsFree(batches[b])
  {
    if batches[b].count > 0 {
      var i := batches[b].count - 1;
      var id := batches[b].requests[i].id;
      DependsIff(plan, batches, b, i, id);
      LaterInSequence(plan, batches, |batches|, b, i, id);
    }
  }

  lemma SequenceLater(plan: Plan, batches: seq<Batch>, b: nat, i: nat, id: Uuid)
    requires MadeBy(plan, batches) && AllSized(batches) && EachHasPlace(plan, batches)
    requires At(batches, b, i, id) && HasDependencies(plan, id)
    requires NoneAfter(batches, b) ==> LastIsFree(batches[b])
    ensures HasLater(Sequential(plan, batches, |batches|), id)
  {
    DependsIff(plan, batches, b, i, id);
    LaterInSequence(plan, batches, |batches|, b, i, id);
  }

  // One batch after another: only the last list that submits anything must.
  lemma SequenceEndsFreeIff(plan: Plan, batches: seq<Batch>)
    requires MadeBy(plan, batches) && AllSized(batches) && EachHasPlace(plan, batches)
    ensures EndsFree(Sequential(plan, batches, |batches|)) <==> ListsEndFree(batches, 1)
  {
    var q := Sequential(plan, batches, |batches|);
    if EndsFree(q) {
      forall b | 0 <= b < |batches| && NoneAfter(batches, b)
        ensures LastIsFree(batches[b])
      {
        SequenceEnd(plan, batches, b);
      }
    }
    if ListsEndFree(batches, 1) {
      forall id | HasDependencies(q, id)
        ensures HasLater(q, id)
      {
        var b: nat, i: nat :| At(batches, b, i, id);
        SequenceLater(plan, batches, b, i, id);
      }
    }
  }

  // A list that does not end free, delayed beside the others.
  lemma DelayedMayNotFinish(plan: Plan, batches: seq<Batch>, b: nat)
    requires MadeBy(plan, batches) && AllSized(batches) && EachHasPlace(plan, batches)
    requires b < |batches| && !LastIsFree(batches[b])
    ensures !EndsFree(Sequential(plan, batches, b))
  {
    var i := batches[b].count - 1;
    var id := batches[b].requests[i].id;
    DependsIff(plan, batches, b, i, id);
    LaterInSequence(plan, batches, b, b, i, id);
  }

  // -------- from plans to limited runs --------

  lemma SamePair(p: Plan, q: Plan)
    requires p.specs == q.specs
    ensures TwoDependent(p) <==> TwoDependent(q)
  {
    if a, b :| IsPair(p, a, b) {
      assert IsPair(q, a, b);
    }
    if a, b :| IsPair(q, a, b) {
      assert IsPair(p, a, b);
    }
  }

  lemma StuckSequence(plan: Plan, batches: seq<Batch>, d: nat, limit: nat, concurrency: nat)
    requires MadeBy(plan, batches) && AllSized(batches) && EachHasPlace(plan, batches) && concurrency >= 1
    requires Realises(batches, d, limit)
    requires !EndsFree(Sequential(plan, batches, d)) && !TwoDependent(plan)
    ensures !LimitedAlwaysFinishes(plan, batches, limit, concurrency)
  {
    var q := Sequential(plan, batches, d);
    SequentialIsInOrder(plan, batches, d);
    SamePair(plan, q);
    var run := StuckRun(q, concurrency);
    FinalState(q, concurrency, run);
    SequentialRunIsLimited(plan, batches, d, limit, concurrency, run);
    var s := run[|run| - 1];
    SequentialIsFinal(plan, q, concurrency, s);
    AllSubmittedIsFinal(plan, batches, limit, concurrency, s);
  }

  lemma SequentialIsFinal(p: Plan, q: Plan, concurrency: nat, s: State)
    requires p.specs == q.specs && s.jobs.Keys == p.specs.Keys
    ensures Final(p, concurrency, s) <==> Final(q, concurrency, s)
  {
    forall step
      ensures Enabled(p, concurrency, s, step) <==> Enabled(q, concurrency, s, step)
    {
    }
  }

  lemma FinishesUnlimited(plan: Plan, batches: seq<Batch>, limit: nat, concurrency: nat)
    requires MadeBy(plan, batches) && AllSized(batches) && limit >= 1 && concurrency >= 1
    requires AlwaysFinishes(plan, concurrency)
    ensures LimitedAlwaysFinishes(plan, batches, limit, concurrency)
  {
    forall run: seq<State> |
      && IsLimitedRun(plan, batches, limit, concurrency, run)
      && LimitedFinal(plan, batches, limit, concurrency, run[|run| - 1])
      ensures AllDone(plan, run[|run| - 1].jobs)
    {
      LimitedRunIsFaithful(plan, batches, limit, concurrency, run);
      LimitedEnd(plan, batches, limit, concurrency, run);
      AllSubmittedIsFinal(plan, batches, limit, concurrency, run[|run| - 1]);
    }
  }

  lemma FinishesOneByOne(plan: Plan, batches: seq<Batch>, concurrency: nat)
    requires MadeBy(plan, batches) && AllSized(batches) && EachHasPlace(plan, batches) && concurrency >= 1
    requires AlwaysFinishes(Sequential(plan, batches, |batches|), concurrency)
    ensures LimitedAlwaysFinishes(plan, batches, 1, concurrency)
  {
    var q := Sequential(plan, batches, |batches|);
    forall run: seq<State> |
      && IsLimitedRun(plan, batches, 1, concurrency, run)
      && LimitedFinal(plan, batches, 1, concurrency, run[|run| - 1])
      ensures AllDone(plan, run[|run| - 1].jobs)
    {
      var s := run[|run| - 1];
      OneByOneRuns(plan, batches, concurrency, run);
      LimitedEnd(plan, batches, 1, concurrency, run);
      AllSubmittedIsFinal(plan, batches, 1, concurrency, s);
      SequentialIsFinal(plan, q, concurrency, s);
      assert AllDone(q, s.jobs);
    }
  }

  /**
   Every job of the submitted events is sure to finish exactly if the submitted list
   of every event ends with a job that has no dependencies; with limit 1 only that of
   the last event that submits anything has to. Two jobs that both have dependencies
   are the one exception.
   */
  lemma LimitedFinishesIff(plan: Plan, batches: seq<Batch>, limit: nat, concurrency: nat)
    requires MadeBy(plan, batches) && AllSized(batches) && limit >= 1 && concurrency >= 1
    ensures LimitedAlwaysFinishes(plan, batches, limit, concurrency)
       <==> ListsEndFree(batches, limit) || TwoDependent(plan)
  {
    forall id | id in plan.specs
      ensures exists place :: Place(batches, id, place)
    {
      HasPlace(plan, batches, id);
    }
    var all := |batches|;
    MadePlanDependsOnEarlier(plan, batches);
    AlwaysFinishesIff(plan, concurrency);
    if TwoDependent(plan) {
      FinishesUnlimited(plan, batches, limit, concurrency);
    } else if limit == 1 {
      SequentialIsInOrder(plan, batches, all);
      AlwaysFinishesIff(Sequential(plan, batches, all), concurrency);
      SequenceEndsFreeIff(plan, batches);
      if ListsEndFree(batches, 1) {
        FinishesOneByOne(plan, batches, concurrency);
      } else {
        StuckSequence(plan, batches, all, 1, concurrency);
      }
    } else if ListsEndFree(batches, limit) {
      EndsFreeIff(plan, batches);
      FinishesUnlimited(plan, batches, limit, concurrency);
    } else {
      var b :| 0 <= b < |batches| && !LastIsFree(batches[b]);
      DelayedMayNotFinish(plan, batches, b);
      StuckSequence(plan, batches, b, limit, concurrency);
    }
  }
}
