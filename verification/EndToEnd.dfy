/**
 From the manifests of an event to the runs of the scheduler: sorting, job
 construction, submission and execution order, put together.
 */
module EndToEnd {
  import opened AllFinish
  import opened Batches
  import opened DependencyOrder
  import opened DependentPair
  import opened EventOrder
  import opened EventSort
  import opened JobStates
  import opened LastJob
  import opened Liveness
  import opened Manifests
  import opened Scheduler
  import opened SchedulerSafety
  import opened SubmissionLimit
  import opened Submission

  // -------- one event, as RunParallel handles it --------

  // The job carries the id it was given, and the manifest's id, dependencies and plugin.
  ghost predicate IsMadeFor(request: Request, m: Manifest, id: Uuid) {
    && request.id == id
    && request.manifestId == m.id
    && request.dependencies == m.dependencies
    && request.definition == m.plugin
  }

  // One job per manifest, in order.
  ghost predicate MadeFrom(requests: seq<Request>, ms: seq<Manifest>, ids: seq<Uuid>) {
    && |requests| == |ms| == |ids|
    && forall i | 0 <= i < |ms| :: IsMadeFor(requests[i], ms[i], ids[i])
  }

  method BuildJobs(ms: seq<Manifest>, ids: seq<Uuid>) returns (jobs: seq<Submission.Job>, ghost requests: seq<Request>)
    requires |ids| == |ms|
    ensures MadeFrom(requests, ms, ids)
    ensures |jobs| == |ms| && forall i | 0 <= i < |jobs| :: fresh(jobs[i]) && jobs[i].request == requests[i]
    ensures forall i | 0 <= i < |jobs| ::
              && IsMadeFor(jobs[i].request, ms[i], ids[i])
              && jobs[i].request.id == ids[i] && jobs[i].request.manifestId == ms[i].id
              && jobs[i].request.dependencies == ms[i].dependencies && jobs[i].request.definition == ms[i].plugin
  {
    jobs, requests := [], [];
    for i := 0 to |ms|
      invariant |jobs| == |requests| == i
      invariant forall j | 0 <= j < i ::
                  fresh(jobs[j]) && IsMadeFor(requests[j], ms[j], ids[j]) && jobs[j].request == requests[j]
    {
      var job := new Submission.Job(Request(ids[i], ms[i].id, ms[i].dependencies, ms[i].plugin));
      jobs, requests := jobs + [job], requests + [job.request];
    }
  }

  lemma DefinitionsOnManifests(registry: set<string>, requests: seq<Request>, ms: seq<Manifest>, ids: seq<Uuid>,
                               n: nat)
    requires MadeFrom(requests, ms, ids) && n <= |requests|
    requires forall i | 0 <= i < n :: requests[i].definition in registry
    requires n < |requests| ==> requests[n].definition !in registry
    ensures forall i | 0 <= i < n :: ms[i].plugin in registry
    ensures n < |ms| ==> ms[n].plugin !in registry
  {
    forall i | 0 <= i < n
      ensures ms[i].plugin in registry
    {
      assert IsMadeFor(requests[i], ms[i], ids[i]);
    }
  }

  // Which jobs are queued and with what status, said of the ids that were handed out.
  lemma StatusesOnIds(specs: Specs, before: Statuses, specs': Specs, now: Statuses, requests: seq<Request>,
                      sids: seq<string>, ms: seq<Manifest>, ids: seq<Uuid>, n: nat)
    requires MadeFrom(requests, ms, ids) && n <= |requests| == |sids|
    requires specs.Keys == before.Keys && specs'.Keys == now.Keys
    requires forall i | 0 <= i < |ids| :: ids[i] !in specs
    requires SpecsAfter(specs', specs, requests, sids, n) && OnlyAddsSubmitted(before, now)
    ensures now.Keys == before.Keys + set i | 0 <= i < n :: ids[i]
    ensures forall i | 0 <= i < n :: ids[i] in now && now[ids[i]] == Status.Submitted
    ensures forall k | k in before :: k in now && now[k] == before[k]
  {
    forall i | 0 <= i < n
      ensures ids[i] in now && ids[i] !in before
    {
      assert IsMadeFor(requests[i], ms[i], ids[i]) && Submission.Submitted(specs', requests, sids, i);
    }
    forall k | k in now && k !in before
      ensures k in set i | 0 <= i < n :: ids[i]
    {
      var i :| 0 <= i < n && requests[i].id == k;
      assert IsMadeFor(requests[i], ms[i], ids[i]);
    }
  }

  /**
   The callback of RunParallel for one event: sort, whatever the outcome build
   one job per manifest of the list it leaves, and submit them in that order.
   */
  method RunEvent(event: Event, provider: DockerProvider, ids: seq<Uuid>, sids: seq<string>)
    returns (outcome: SortOutcome, ghost requests: seq<Request>, submitted: nat)
    requires |ids| == |sids| == |event.manifests|
    requires provider.queue.Valid() && Fresh(sids)
    requires forall i, j | 0 <= i < j < |ids| :: ids[i] != ids[j]
    requires forall i | 0 <= i < |ids| :: ids[i] !in provider.queue.SpecsOf()
    requires forall k, i | k in provider.queue.SpecsOf() && 0 <= i < |sids| ::
               provider.queue.SpecsOf()[k].submittedId != sids[i]
    modifies event, provider.queue
    ensures SortResult(old(event.manifests), event.manifests, outcome)
    ensures MadeFrom(requests, event.manifests, ids)
    ensures submitted == provider.Registered(requests, 0) <= |requests|
    ensures forall i | 0 <= i < submitted :: event.manifests[i].plugin in provider.registry
    ensures submitted < |event.manifests| ==> event.manifests[submitted].plugin !in provider.registry
    ensures SpecsAfter(provider.queue.SpecsOf(), old(provider.queue.SpecsOf()), requests, sids, submitted)
    ensures provider.queue.Valid()
    ensures forall i | 0 <= i < submitted ::
              ids[i] in provider.queue.StatusesOf() && provider.queue.StatusesOf()[ids[i]] == Status.Submitted
    ensures forall k | k in old(provider.queue.StatusesOf()) ::
              && k in provider.queue.StatusesOf()
              && provider.queue.StatusesOf()[k] == old(provider.queue.StatusesOf())[k]
    ensures provider.queue.StatusesOf().Keys
         == old(provider.queue.StatusesOf().Keys) + set i | 0 <= i < submitted :: ids[i]
  {
    ghost var specs, before := provider.queue.SpecsOf(), provider.queue.StatusesOf();
    outcome := event.SortManifests();
    var jobs;
    jobs, requests := BuildJobs(event.manifests, ids);
    assert provider.queue.StatusesOf() == before;
    submitted := provider.SubmitJobs(jobs, sids, requests);
    DefinitionsOnManifests(provider.registry, requests, event.manifests, ids, submitted);
    StatusesOnIds(specs, before, provider.queue.SpecsOf(), provider.queue.StatusesOf(), requests,
                  sids, event.manifests, ids, submitted);
  }

  // -------- the theorem --------

  // A dependency of the i-th manifest becomes a dependency of the i-th job.
  lemma DependencyBecomesJob(plan: Plan, batches: seq<Batch>, b: nat, ms: seq<Manifest>, ids: seq<Uuid>,
                             i: nat, d: Uuid) returns (j: nat)
    requires MadeBy(plan, batches) && b < |batches| && i < batches[b].count
    requires MadeFrom(batches[b].requests, ms, ids) && DependenciesFirst(ms)
    requires i < |ms| && d in ms[i].dependencies
    ensures j < i && ms[j].id == d
    ensures DependencyOf(plan.specs, batches[b].requests[i].id, batches[b].requests[j].id)
  {
    var batch := batches[b];
    var requests := batch.requests;
    assert Planned(plan, batch, i);
    var k :| 0 <= k < |ms[i].dependencies| && ms[i].dependencies[k] == d;
    var m :| m in ms[..i] && m.id == d;
    var l :| 0 <= l < i && ms[l] == m;
    assert IsMadeFor(requests[l], ms[l], ids[l]) && IsMadeFor(requests[i], ms[i], ids[i]);
    assert requests[l].manifestId == d && requests[i].dependencies[k] == d;
    var last := LastBefore(requests, i, d);
    j := last.value;
    assert ResolveAll(requests, batch.sids, i)[k] == batch.sids[j];
    assert Planned(plan, batch, j);
  }

  /**
   End to end: sort an event with closed acyclic dependencies, submit it among
   any other submissions, and run the scheduler in any interleaving. No job
   starts before every manifest it depends on has a job that has finished, and
   those jobs stay finished.
   */
  lemma EventRunsInOrder(ms: seq<Manifest>, sorted: seq<Manifest>, outcome: SortOutcome,
                         plan: Plan, batches: seq<Batch>, b: nat, ids: seq<Uuid>,
                         concurrency: nat, run: seq<State>, m: nat, n: nat, i: nat, d: Uuid)
    requires SortResult(ms, sorted, outcome) && EventSort.Closed(ms) && Acyclic(ms)
    requires MadeBy(plan, batches) && b < |batches| && i < batches[b].count
    requires MadeFrom(batches[b].requests, sorted, ids)
    requires IsRun(plan, concurrency, run) && m <= n < |run|
    requires ids[i] in run[m].jobs && run[m].jobs[ids[i]].status.Rank() >= 3
    requires d in sorted[i].dependencies
    ensures exists j :: 0 <= j < i && sorted[j].id == d
                     && Finished(run[m].jobs, ids[j]) && Finished(run[n].jobs, ids[j])
  {
    SortedEventIsInOrder(ms, sorted, outcome);
    MadePlanDependsOnEarlier(plan, batches);
    var j := DependencyBecomesJob(plan, batches, b, sorted, ids, i, d);
    assert IsMadeFor(batches[b].requests[i], sorted[i], ids[i]);
    assert IsMadeFor(batches[b].requests[j], sorted[j], ids[j]);
    StartsAfterDependencies(plan, concurrency, run, m, n, ids[i], ids[j]);
  }

  // -------- dependencies resolve --------

  // Each submitted job depends on manifests that have an earlier job.
  ghost predicate Ordered(b: Batch)
    requires WellSized(b)
  {
    forall i, d | 0 <= i < b.count && d in b.requests[i].dependencies :: RequestedBefore(b.requests, i, d)
  }

  // A sorted event is submitted that way.
  lemma SortedIsOrdered(b: Batch, ms: seq<Manifest>, ids: seq<Uuid>)
    requires WellSized(b) && MadeFrom(b.requests, ms, ids) && DependenciesFirst(ms)
    ensures Ordered(b)
  {
    forall i, d | 0 <= i < b.count && d in b.requests[i].dependencies
      ensures RequestedBefore(b.requests, i, d)
    {
      assert IsMadeFor(b.requests[i], ms[i], ids[i]);
      var m :| m in ms[..i] && m.id == d;
      var j :| 0 <= j < i && ms[j] == m;
      assert IsMadeFor(b.requests[j], ms[j], ids[j]);
    }
  }

  // The id is that of a job submitted earlier in the batch.
  ghost predicate SuppliedBefore(plan: Plan, b: Batch, i: nat, text: string)
    requires WellSized(b) && i < b.count
  {
    exists j :: 0 <= j < i && b.sids[j] == text && SubmittedAs(plan, b.requests[j].id, text)
  }

  ghost predicate SubmittedAs(plan: Plan, id: Uuid, text: string) {
    id in plan.specs && plan.specs[id].submittedId == text
  }

  ghost predicate DependsOnText(plan: Plan, id: Uuid, text: string) {
    id in plan.specs && text in plan.specs[id].dependsOn
  }

  lemma OrderedIsResolved(plan: Plan, batches: seq<Batch>, b: nat, i: nat, text: string)
    requires MadeBy(plan, batches) && b < |batches| && Ordered(batches[b])
    requires i < batches[b].count && DependsOnText(plan, batches[b].requests[i].id, text)
    ensures text != "" && SuppliedBefore(plan, batches[b], i, text)
  {
    var batch := batches[b];
    assert Planned(plan, batch, i);
    var ids := plan.specs[batch.requests[i].id].dependsOn;
    var n :| 0 <= n < |ids| && ids[n] == text;
    var dependency := batch.requests[i].dependencies[n];
    assert dependency in batch.requests[i].dependencies;
    assert RequestedBefore(batch.requests, i, dependency);
    var j := LastBefore(batch.requests, i, dependency).value;
    assert Planned(plan, batch, j) && SidAt(batches, b, j, text);
    assert SubmittedAs(plan, batch.requests[j].id, text);
  }

  /**
   A sorted event leaves no dependency unresolved: each is the submitted id of an
   earlier job of the same event, and none is empty.
   */
  lemma SortedIsResolved(ms: seq<Manifest>, sorted: seq<Manifest>, outcome: SortOutcome,
                         plan: Plan, batches: seq<Batch>, b: nat, ids: seq<Uuid>, i: nat, text: string)
    requires SortResult(ms, sorted, outcome) && EventSort.Closed(ms) && Acyclic(ms)
    requires MadeBy(plan, batches) && b < |batches| && MadeFrom(batches[b].requests, sorted, ids)
    requires i < batches[b].count && DependsOnText(plan, ids[i], text)
    ensures text != "" && SuppliedBefore(plan, batches[b], i, text)
  {
    SortedEventIsInOrder(ms, sorted, outcome);
    assert IsMadeFor(batches[b].requests[i], sorted[i], ids[i]);
    SortedIsOrdered(batches[b], sorted, ids);
    OrderedIsResolved(plan, batches, b, i, text);
  }

  // -------- when all events are sure to finish --------

  /**
   An event with dependencies and no isolated manifest, sorted and submitted whole,
   may be left unfinished: always with a limit above 1, and with limit 1 if no later
   event submits anything.
   */
  lemma SortedEventMayNotFinish(ms: seq<Manifest>, sorted: seq<Manifest>, outcome: SortOutcome,
                                plan: Plan, batches: seq<Batch>, b: nat, ids: seq<Uuid>,
                                limit: nat, concurrency: nat)
    requires SortResult(ms, sorted, outcome) && |ms| > 1
    requires UniqueIds(ms) && EventSort.Closed(ms) && Acyclic(ms) && AllDependencies(ms) != {}
    requires forall m | m in ms :: !Isolated(ms, m)
    requires MadeBy(plan, batches) && AllSized(batches) && b < |batches| && limit >= 1 && concurrency >= 1
    requires MadeFrom(batches[b].requests, sorted, ids) && batches[b].count == |sorted|
    requires limit >= 2 || NoneAfter(batches, b)
    ensures !LimitedAlwaysFinishes(plan, batches, limit, concurrency)
  {
    SortedEventEndsDependent(ms, sorted, outcome);
    var last := |sorted| - 1;
    assert IsMadeFor(batches[b].requests[last], sorted[last], ids[last]);
    assert !LastIsFree(batches[b]);
    SortedEventIsInOrder(ms, sorted, outcome);
    FirstIsFree(sorted);
    assert IsMadeFor(batches[b].requests[0], sorted[0], ids[0]);
    DependsIff(plan, batches, b, 0, batches[b].requests[0].id);
    NotAPair(plan, batches[b].requests[0].id);
    LimitedFinishesIff(plan, batches, limit, concurrency);
  }

  lemma FirstIsFree(ms: seq<Manifest>)
    requires DependenciesFirst(ms) && ms != []
    ensures ms[0].dependencies == []
  {
    var deps := ms[0].dependencies;
    assert forall d | d in deps :: d in Ids(ms[..0]);
    HasMember(deps);
  }

  lemma HasMember<T>(s: seq<T>)
    ensures s == [] || exists x :: x in s
  {
    assert s == [] || s[0] in s;
  }
}
