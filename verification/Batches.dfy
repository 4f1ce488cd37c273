/** The plan that submissions make: what the jobs of several events wait for. */
module Batches {
  import opened JobStates
  import opened Manifests
  import opened Scheduler
  import opened Submission

  // One call of SubmitJobs, of which the first `count` jobs are submitted.
  datatype Batch = Batch(requests: seq<Request>, sids: seq<string>, count: nat)

  ghost function IdsBefore(requests: seq<Request>, i: nat): set<Uuid>
    requires i <= |requests|
  {
    set j | 0 <= j < i :: requests[j].id
  }

  ghost predicate WellSized(b: Batch) {
    b.count <= |b.requests| == |b.sids|
  }

  // Job i of the batch, as the scheduler gets it.
  ghost predicate Planned(plan: Plan, b: Batch, i: nat)
    requires WellSized(b) && i < b.count
  {
    var id := b.requests[i].id;
    && id in plan.specs && id in plan.earlier
    && plan.specs[id] == JobSpec(b.sids[i], ResolveAll(b.requests, b.sids, i))
    && plan.earlier[id] == IdsBefore(b.requests, i)
  }

  ghost predicate At(batches: seq<Batch>, b: nat, i: nat, id: Uuid) {
    b < |batches| && WellSized(batches[b]) && i < batches[b].count && batches[b].requests[i].id == id
  }

  ghost predicate SidAt(batches: seq<Batch>, b: nat, i: nat, sid: string) {
    b < |batches| && WellSized(batches[b]) && i < batches[b].count && batches[b].sids[i] == sid
  }

  // The plan is what the given submissions make; ids are never reused.
  ghost predicate MadeBy(plan: Plan, batches: seq<Batch>) {
    && plan.earlier.Keys == plan.specs.Keys
    && (forall b | 0 <= b < |batches| :: WellSized(batches[b]))
    && (forall b, i | 0 <= b < |batches| && 0 <= i < batches[b].count :: Planned(plan, batches[b], i))
    && (forall id | id in plan.specs :: exists b: nat, i: nat :: At(batches, b, i, id))
    && DistinctPlaces(batches)
  }

  // No id and no submitted id is used twice.
  ghost predicate DistinctPlaces(batches: seq<Batch>) {
    && (forall b: nat, i: nat, c: nat, j: nat, id | At(batches, b, i, id) && At(batches, c, j, id) :: b == c && i == j)
    && (forall b: nat, i: nat, c: nat, j: nat, sid |
          SidAt(batches, b, i, sid) && SidAt(batches, c, j, sid) :: b == c && i == j)
    && (forall b: nat, i: nat, sid | SidAt(batches, b, i, sid) :: sid != "")
  }

  lemma EarlierIsSmaller(plan: Plan, batches: seq<Batch>, id: Uuid, k: Uuid)
    requires MadeBy(plan, batches) && id in plan.specs && k in plan.earlier[id]
    ensures k in plan.specs && plan.earlier[k] < plan.earlier[id]
  {
    var b: nat, i: nat :| At(batches, b, i, id);
    assert Planned(plan, batches[b], i);
    var j: nat :| j < i && batches[b].requests[j].id == k;
    assert Planned(plan, batches[b], j);
    assert At(batches, b, j, k);
    assert forall l: nat | l < j :: At(batches, b, l, batches[b].requests[l].id);
  }

  lemma SubmittedIdIsUnique(plan: Plan, batches: seq<Batch>, j: Uuid, k: Uuid)
    requires MadeBy(plan, batches) && j in plan.specs && k in plan.specs
    requires plan.specs[j].submittedId == plan.specs[k].submittedId
    ensures j == k
  {
    var b: nat, i: nat :| At(batches, b, i, j);
    var c: nat, l: nat :| At(batches, c, l, k);
    assert Planned(plan, batches[b], i) && Planned(plan, batches[c], l);
    var sid := plan.specs[j].submittedId;
    assert SidAt(batches, b, i, sid) && SidAt(batches, c, l, sid);
  }

  lemma MadePlanIsValid(plan: Plan, batches: seq<Batch>)
    requires MadeBy(plan, batches)
    ensures ValidPlan(plan)
  {
    forall id, k | id in plan.specs && k in plan.earlier[id]
      ensures k in plan.specs && plan.earlier[k] < plan.earlier[id]
    {
      EarlierIsSmaller(plan, batches, id, k);
    }
    forall j, k | j in plan.specs && k in plan.specs && plan.specs[j].submittedId == plan.specs[k].submittedId
      ensures j == k
    {
      SubmittedIdIsUnique(plan, batches, j, k);
    }
  }

  lemma DependencyIsEarlier(plan: Plan, batches: seq<Batch>, id: Uuid, k: Uuid)
    requires MadeBy(plan, batches) && DependencyOf(plan.specs, id, k)
    ensures id in plan.earlier && k in plan.earlier[id]
  {
    var b: nat, i: nat :| At(batches, b, i, id);
    var c: nat, l: nat :| At(batches, c, l, k);
    var batch := batches[b];
    assert Planned(plan, batch, i) && Planned(plan, batches[c], l);
    var sid := plan.specs[k].submittedId;
    assert SidAt(batches, c, l, sid);
    var ids := ResolveAll(batch.requests, batch.sids, i);
    var n :| 0 <= n < |ids| && ids[n] == sid;
    var j := LastBefore(batch.requests, i, batch.requests[i].dependencies[n]);
    assert j.Some? && SidAt(batches, b, j.value, sid);
  }

  /**
   Submission makes plans in which dependencies point to earlier jobs only.
   */
  lemma MadePlanDependsOnEarlier(plan: Plan, batches: seq<Batch>)
    requires MadeBy(plan, batches)
    ensures ValidPlan(plan) && DependsOnEarlier(plan)
  {
    MadePlanIsValid(plan, batches);
    forall id, k | DependencyOf(plan.specs, id, k)
      ensures k in plan.earlier[id]
    {
      DependencyIsEarlier(plan, batches, id, k);
    }
  }

  ghost predicate Position(requests: seq<Request>, count: nat, i: nat, id: Uuid) {
    i < count <= |requests| && requests[i].id == id
  }

  ghost function EarlierIn(requests: seq<Request>, count: nat, id: Uuid): set<Uuid>
    requires exists i: nat :: Position(requests, count, i, id)
  {
    var i: nat :| Position(requests, count, i, id);
    IdsBefore(requests, i)
  }

  lemma PositionIsUnique(specs: Specs, requests: seq<Request>, sids: seq<string>, count: nat,
                         i: nat, j: nat, id: Uuid)
    requires UnusedIds(specs, requests, sids)
    requires Position(requests, count, i, id) && Position(requests, count, j, id)
    ensures i == j
  {
  }

  lemma EarlierAt(specs: Specs, requests: seq<Request>, sids: seq<string>, count: nat, i: nat)
    requires i < count <= |requests| && UnusedIds(specs, requests, sids)
    ensures Position(requests, count, i, requests[i].id)
    ensures EarlierIn(requests, count, requests[i].id) == IdsBefore(requests, i)
  {
    assert Position(requests, count, i, requests[i].id);
    var j: nat :| Position(requests, count, j, requests[i].id)
               && EarlierIn(requests, count, requests[i].id) == IdsBefore(requests, j);
    PositionIsUnique(specs, requests, sids, count, i, j, requests[i].id);
  }

  // Where the jobs of the extended list stand.
  lemma AtExtended(batches: seq<Batch>, batch: Batch, b: nat, i: nat, id: Uuid)
    ensures At(batches + [batch], b, i, id) <==>
            if b == |batches| then At([batch], 0, i, id) else At(batches, b, i, id)
  {
  }

  lemma SidAtExtended(batches: seq<Batch>, batch: Batch, b: nat, i: nat, sid: string)
    ensures SidAt(batches + [batch], b, i, sid) <==>
            if b == |batches| then SidAt([batch], 0, i, sid) else SidAt(batches, b, i, sid)
  {
  }

  lemma NewIdsAreNew(plan: Plan, batches: seq<Batch>, batch: Batch, b: nat, i: nat, j: nat)
    requires MadeBy(plan, batches) && WellSized(batch) && UnusedIds(plan.specs, batch.requests, batch.sids)
    requires b < |batches| && i < batches[b].count && j < batch.count
    ensures batches[b].requests[i].id != batch.requests[j].id
    ensures batches[b].sids[i] != batch.sids[j]
  {
    assert Planned(plan, batches[b], i);
  }

  lemma ExtendedIdsAreDistinct(plan: Plan, batches: seq<Batch>, batch: Batch,
                               b: nat, i: nat, c: nat, j: nat, id: Uuid)
    requires MadeBy(plan, batches) && WellSized(batch) && UnusedIds(plan.specs, batch.requests, batch.sids)
    requires At(batches + [batch], b, i, id) && At(batches + [batch], c, j, id)
    ensures b == c && i == j
  {
    AtExtended(batches, batch, b, i, id);
    AtExtended(batches, batch, c, j, id);
    if b < |batches| && c == |batches| {
      NewIdsAreNew(plan, batches, batch, b, i, j);
    } else if b == |batches| && c < |batches| {
      NewIdsAreNew(plan, batches, batch, c, j, i);
    }
  }

  lemma ExtendedSidsAreDistinct(plan: Plan, batches: seq<Batch>, batch: Batch,
                                b: nat, i: nat, c: nat, j: nat, sid: string)
    requires MadeBy(plan, batches) && WellSized(batch) && UnusedIds(plan.specs, batch.requests, batch.sids)
    requires SidAt(batches + [batch], b, i, sid) && SidAt(batches + [batch], c, j, sid)
    ensures b == c && i == j && sid != ""
  {
    SidAtExtended(batches, batch, b, i, sid);
    SidAtExtended(batches, batch, c, j, sid);
    if b < |batches| && c == |batches| {
      NewIdsAreNew(plan, batches, batch, b, i, j);
    } else if b == |batches| && c < |batches| {
      NewIdsAreNew(plan, batches, batch, c, j, i);
    }
  }

  lemma ExtendedIsDistinct(plan: Plan, batches: seq<Batch>, batch: Batch)
    requires MadeBy(plan, batches) && WellSized(batch) && UnusedIds(plan.specs, batch.requests, batch.sids)
    ensures DistinctPlaces(batches + [batch])
  {
    var all := batches + [batch];
    forall b: nat, i: nat, c: nat, j: nat, id | At(all, b, i, id) && At(all, c, j, id)
      ensures b == c && i == j
    {
      ExtendedIdsAreDistinct(plan, batches, batch, b, i, c, j, id);
    }
    forall b: nat, i: nat, c: nat, j: nat, sid | SidAt(all, b, i, sid) && SidAt(all, c, j, sid)
      ensures b == c && i == j
    {
      ExtendedSidsAreDistinct(plan, batches, batch, b, i, c, j, sid);
    }
    forall b: nat, i: nat, sid | SidAt(all, b, i, sid)
      ensures sid != ""
    {
      ExtendedSidsAreDistinct(plan, batches, batch, b, i, b, i, sid);
    }
  }

  // The plan with the jobs of one more batch.
  ghost function Extended(plan: Plan, specs: Specs, batch: Batch): Plan
    requires plan.earlier.Keys == plan.specs.Keys
    requires forall id | id in specs && id !in plan.specs ::
               exists i: nat :: Position(batch.requests, batch.count, i, id)
  {
    Plan(specs, map id | id in specs ::
           if id in plan.specs then plan.earlier[id] else EarlierIn(batch.requests, batch.count, id))
  }

  lemma NewHasPosition(plan: Plan, specs: Specs, batch: Batch)
    requires WellSized(batch) && SpecsAfter(specs, plan.specs, batch.requests, batch.sids, batch.count)
    ensures forall id | id in specs && id !in plan.specs ::
              exists i: nat :: Position(batch.requests, batch.count, i, id)
  {
    forall id | id in specs && id !in plan.specs
      ensures exists i: nat :: Position(batch.requests, batch.count, i, id)
    {
      var i :| 0 <= i < batch.count && batch.requests[i].id == id;
      assert Position(batch.requests, batch.count, i, id);
    }
  }

  /**
   One more event: what the submission loop leaves in a queue that holds the jobs of
   a plan is the plan with that event's jobs.
   */
  lemma NextEventExtendsPlan(plan: Plan, batches: seq<Batch>, specs: Specs, batch: Batch) returns (next: Plan)
    requires MadeBy(plan, batches) && WellSized(batch)
    requires UnusedIds(plan.specs, batch.requests, batch.sids)
    requires SpecsAfter(specs, plan.specs, batch.requests, batch.sids, batch.count)
    ensures next.specs == specs && MadeBy(next, batches + [batch])
  {
    var all := batches + [batch];
    NewHasPosition(plan, specs, batch);
    next := Extended(plan, specs, batch);
    ExtendedIsDistinct(plan, batches, batch);
    forall b, i | 0 <= b < |all| && 0 <= i < all[b].count
      ensures Planned(next, all[b], i)
    {
      if b < |batches| {
        assert Planned(plan, batches[b], i);
      } else {
        assert Submission.Submitted(specs, batch.requests, batch.sids, i);
        EarlierAt(plan.specs, batch.requests, batch.sids, batch.count, i);
      }
    }
    forall id | id in specs
      ensures exists b: nat, i: nat :: At(all, b, i, id)
    {
      ExtendedHasPlace(plan, batches, specs, batch, id);
    }
  }

  lemma ExtendedHasPlace(plan: Plan, batches: seq<Batch>, specs: Specs, batch: Batch, id: Uuid)
    requires MadeBy(plan, batches) && WellSized(batch) && id in specs
    requires SpecsAfter(specs, plan.specs, batch.requests, batch.sids, batch.count)
    ensures exists b: nat, i: nat :: At(batches + [batch], b, i, id)
  {
    if id in plan.specs {
      var b: nat, i: nat :| At(batches, b, i, id);
      assert At(batches + [batch], b, i, id);
    } else {
      var i: nat :| i < batch.count && batch.requests[i].id == id;
      assert At(batches + [batch], |batches|, i, id);
    }
  }

  // The first event, in an empty queue.
  lemma FirstEventMakesPlan(specs: Specs, batch: Batch) returns (plan: Plan)
    requires WellSized(batch) && UnusedIds(map[], batch.requests, batch.sids)
    requires SpecsAfter(specs, map[], batch.requests, batch.sids, batch.count)
    ensures plan.specs == specs && MadeBy(plan, [batch])
  {
    plan := NextEventExtendsPlan(Plan(map[], map[]), [], specs, batch);
    assert [] + [batch] == [batch];
  }
}
