/**
 Submission of an event's jobs: the Docker provider's loop, and the dependency
 mapping that the Argo provider makes by scanning the job list.
 */
module Submission {
  import opened JobQueue
  import opened JobStates
  import opened Manifests
  import opened Wrappers
  import UuidText

  // What RunParallel copies from a manifest into its job.
  datatype Request = Request(id: Uuid, manifestId: Uuid, dependencies: seq<Uuid>, definition: string)

  class Job {
    const request: Request
    var dependsOn: seq<string>
    var submittedId: Option<string>

    constructor (request: Request)
      ensures this.request == request && dependsOn == [] && submittedId == None
    {
      this.request := request;
      dependsOn, submittedId := [], None;
    }
  }

  // -------- what the loop resolves dependencies to --------

  // The last of the first n requests that was made for manifest d.
  function LastBefore(requests: seq<Request>, n: nat, d: Uuid): (j: Option<nat>)
    requires n <= |requests|
    ensures j.Some? ==> j.value < n && requests[j.value].manifestId == d
    ensures j.Some? ==> forall i | j.value < i < n :: requests[i].manifestId != d
    ensures j.None? ==> forall i | 0 <= i < n :: requests[i].manifestId != d
  {
    if n == 0 then None
    else if requests[n - 1].manifestId == d then Some(n - 1)
    else LastBefore(requests, n - 1, d)
  }

  function Resolve(requests: seq<Request>, sids: seq<string>, n: nat, d: Uuid): string
    requires n <= |requests| && n <= |sids|
  {
    var j := LastBefore(requests, n, d);
    if j.Some? then sids[j.value] else ""
  }

  // The submitted ids that request n waits for.
  function ResolveAll(requests: seq<Request>, sids: seq<string>, n: nat): (ids: seq<string>)
    requires n < |requests| && n <= |sids|
    ensures |ids| == |requests[n].dependencies|
    ensures forall k | 0 <= k < |ids| :: ids[k] == Resolve(requests, sids, n, requests[n].dependencies[k])
  {
    var deps := requests[n].dependencies;
    seq(|deps|, k requires 0 <= k < |deps| => Resolve(requests, sids, n, deps[k]))
  }

  ghost predicate Fresh(sids: seq<string>) {
    && (forall i | 0 <= i < |sids| :: sids[i] != "")
    && (forall i, j | 0 <= i < j < |sids| :: sids[i] != sids[j])
  }

  // -------- MapDependencies --------

  // The id map after the first n jobs were submitted.
  ghost predicate MapsSubmitted(idMap: map<Uuid, string>, requests: seq<Request>, sids: seq<string>, n: nat)
    requires n <= |requests| && n <= |sids|
  {
    forall d ::
      var j := LastBefore(requests, n, d);
      (d in idMap <==> j.Some?) && (j.Some? ==> idMap[d] == sids[j.value])
  }

  method MapDependencies(dependencies: seq<Uuid>, idMap: map<Uuid, string>) returns (sdeps: seq<string>)
    ensures |sdeps| == |dependencies|
    ensures forall k | 0 <= k < |sdeps| ::
              sdeps[k] == if dependencies[k] in idMap then idMap[dependencies[k]] else ""
  {
    var slots := new string[|dependencies|](_ => "");
    for i := 0 to |dependencies|
      invariant forall k | 0 <= k < i ::
                  slots[k] == if dependencies[k] in idMap then idMap[dependencies[k]] else ""
      invariant forall k | i <= k < slots.Length :: slots[k] == ""
    {
      if dependencies[i] in idMap {
        slots[i] := idMap[dependencies[i]];
      }
    }
    sdeps := slots[..];
  }

  // -------- SubmitJobs of the Docker provider --------

  ghost function Requests(jobs: seq<Job>): seq<Request> {
    seq(|jobs|, i requires 0 <= i < |jobs| => jobs[i].request)
  }

  ghost predicate Submitted(now: Specs, requests: seq<Request>, sids: seq<string>, i: nat)
    requires i < |requests| && i < |sids|
  {
    requests[i].id in now && now[requests[i].id] == JobSpec(sids[i], ResolveAll(requests, sids, i))
  }

  // now holds what was there before and the first n jobs, and nothing else.
  ghost predicate SpecsAfter(now: Specs, specs: Specs, requests: seq<Request>, sids: seq<string>, n: nat)
    requires n <= |requests| && n <= |sids|
  {
    && (forall k | k in specs :: k in now && now[k] == specs[k])
    && (forall i | 0 <= i < n :: Submitted(now, requests, sids, i))
    && (forall k | k in now && k !in specs :: exists i :: 0 <= i < n && requests[i].id == k)
  }

  // Ids as the UUID source gives them: never used before.
  ghost predicate UnusedIds(specs: Specs, requests: seq<Request>, sids: seq<string>) {
    && Fresh(sids)
    && (forall i, j | 0 <= i < j < |requests| :: requests[i].id != requests[j].id)
    && (forall i | 0 <= i < |requests| :: requests[i].id !in specs)
    && (forall k, i | k in specs && 0 <= i < |sids| :: specs[k].submittedId != sids[i])
  }

  lemma NextIsUnused(now: Specs, specs: Specs, requests: seq<Request>, sids: seq<string>, n: nat)
    requires n < |requests| && n < |sids| && UnusedIds(specs, requests, sids)
    requires SpecsAfter(now, specs, requests, sids, n)
    ensures requests[n].id !in now
    ensures forall k | k in now :: now[k].submittedId != sids[n]
  {
    forall k | k in now
      ensures now[k].submittedId != sids[n]
    {
      if k !in specs {
        var i :| 0 <= i < n && requests[i].id == k;
        assert Submitted(now, requests, sids, i);
      }
    }
  }

  lemma SpecsGrow(now: Specs, specs: Specs, requests: seq<Request>, sids: seq<string>, n: nat)
    requires n < |requests| && n < |sids| && UnusedIds(specs, requests, sids)
    requires SpecsAfter(now, specs, requests, sids, n)
    ensures SpecsAfter(now[requests[n].id := JobSpec(sids[n], ResolveAll(requests, sids, n))],
                       specs, requests, sids, n + 1)
  {
    var next := now[requests[n].id := JobSpec(sids[n], ResolveAll(requests, sids, n))];
    forall i | 0 <= i < n + 1
      ensures Submitted(next, requests, sids, i)
    {
      assert i < n ==> Submitted(now, requests, sids, i);
    }
  }

  lemma MapGrows(idMap: map<Uuid, string>, requests: seq<Request>, sids: seq<string>, n: nat)
    requires n < |requests| && n < |sids| && MapsSubmitted(idMap, requests, sids, n)
    ensures MapsSubmitted(idMap[requests[n].manifestId := sids[n]], requests, sids, n + 1)
  {
  }

  // The job carries its resolved dependencies and its submitted id.
  ghost predicate FilledJob(job: Job, requests: seq<Request>, sids: seq<string>, i: nat)
    requires i < |requests| && i < |sids|
    reads job
  {
    job.dependsOn == ResolveAll(requests, sids, i) && job.submittedId == Some(sids[i])
  }

  ghost predicate Filled(jobs: seq<Job>, requests: seq<Request>, sids: seq<string>, n: nat)
    requires n <= |jobs| <= |requests| && n <= |sids|
    reads jobs
  {
    forall i | 0 <= i < n :: FilledJob(jobs[i], requests, sids, i)
  }

  ghost predicate DistinctJobs(jobs: seq<Job>) {
    forall i, j | 0 <= i < j < |jobs| :: jobs[i] != jobs[j]
  }

  lemma DistinctByRequest(specs: Specs, jobs: seq<Job>, requests: seq<Request>, sids: seq<string>)
    requires |jobs| == |requests| && forall i | 0 <= i < |jobs| :: requests[i] == jobs[i].request
    requires UnusedIds(specs, requests, sids)
    ensures DistinctJobs(jobs)
  {
  }

  // Whatever was queued before has the status it had, and the rest is submitted.
  ghost predicate OnlyAddsSubmitted(before: Statuses, now: Statuses) {
    && before.Keys <= now.Keys
    && forall k | k in now :: now[k] == if k in before then before[k] else Status.Submitted
  }

  lemma OneMoreSubmitted(before: Statuses, now: Statuses, id: Uuid)
    requires OnlyAddsSubmitted(before, now) && id !in now
    ensures OnlyAddsSubmitted(before, now[id := Status.Submitted])
  {
  }

  class DockerProvider {
    const registry: set<string>
    const queue: InMemoryJobQueue

    constructor (registry: set<string>)
      ensures this.registry == registry && queue.Valid() && queue.queue == map[] && fresh(queue)
    {
      this.registry := registry;
      queue := new InMemoryJobQueue();
    }

    // The dependencies and the new id of one job.
    method FillIn(jobs: seq<Job>, n: nat, sid: string, idMap: map<Uuid, string>,
                  ghost requests: seq<Request>, ghost sids: seq<string>)
      requires n < |jobs| <= |requests| && n < |sids| && requests[n] == jobs[n].request && sids[n] == sid
      requires DistinctJobs(jobs) && Filled(jobs, requests, sids, n)
      requires MapsSubmitted(idMap, requests, sids, n)
      modifies jobs[n]
      ensures Filled(jobs, requests, sids, n + 1)
    {
      var dependsOn := MapDependencies(jobs[n].request.dependencies, idMap);
      assert dependsOn == ResolveAll(requests, sids, n);
      jobs[n].dependsOn := dependsOn;
      jobs[n].submittedId := Some(sid);
    }

    // The queue's part of AddJob.
    method AddJob(id: Uuid, submittedId: string, dependsOn: seq<string>)
      requires queue.Valid() && id !in queue.SpecsOf()
      requires forall k | k in queue.SpecsOf() :: queue.SpecsOf()[k].submittedId != submittedId
      modifies queue
      ensures queue.Valid()
      ensures queue.SpecsOf() == old(queue.SpecsOf())[id := JobSpec(submittedId, dependsOn)]
      ensures AddsSubmitted(old(queue.StatusesOf()), queue.StatusesOf(), id)
    {
      var docker := new DockerJob(id, submittedId, dependsOn);
      assert forall k | k in queue.queue :: queue.SpecsOf()[k].submittedId == queue.queue[k].submittedId;
      queue.Add(docker);
    }

    // The jobs in front of n have been submitted.
    ghost predicate Progressed(specs: Specs, requests: seq<Request>, sids: seq<string>, n: nat,
                               idMap: map<Uuid, string>)
      reads queue
    {
      && n <= |requests| && n <= |sids|
      && queue.Valid()
      && UnusedIds(specs, requests, sids)
      && SpecsAfter(queue.SpecsOf(), specs, requests, sids, n)
      && MapsSubmitted(idMap, requests, sids, n)
    }

    // The filled-in job goes to the queue and into the id map.
    method Enqueue(jobs: seq<Job>, n: nat, sid: string, idMap: map<Uuid, string>,
                   ghost specs: Specs, ghost requests: seq<Request>, ghost sids: seq<string>)
      returns (idMap': map<Uuid, string>)
      requires n < |jobs| <= |requests| && n < |sids| && requests[n] == jobs[n].request && sids[n] == sid
      requires Progressed(specs, requests, sids, n, idMap)
      requires Filled(jobs, requests, sids, n + 1)
      modifies queue
      ensures Progressed(specs, requests, sids, n + 1, idMap')
      ensures Filled(jobs, requests, sids, n + 1)
      ensures jobs[n].request.id !in old(queue.StatusesOf())
      ensures queue.StatusesOf() == old(queue.StatusesOf())[jobs[n].request.id := Status.Submitted]
    {
      NextIsUnused(queue.SpecsOf(), specs, requests, sids, n);
      SpecsGrow(queue.SpecsOf(), specs, requests, sids, n);
      MapGrows(idMap, requests, sids, n);
      assert FilledJob(jobs[n], requests, sids, n);
      idMap' := idMap[jobs[n].request.manifestId := sid];
      AddJob(jobs[n].request.id, sid, jobs[n].dependsOn);
    }

    method SubmitNext(jobs: seq<Job>, n: nat, sid: string, idMap: map<Uuid, string>,
                      ghost specs: Specs, ghost requests: seq<Request>, ghost sids: seq<string>)
      returns (idMap': map<Uuid, string>)
      requires n < |jobs| <= |requests| && n < |sids| && requests[n] == jobs[n].request && sids[n] == sid
      requires DistinctJobs(jobs) && Filled(jobs, requests, sids, n)
      requires Progressed(specs, requests, sids, n, idMap)
      modifies queue, jobs[n]
      ensures Progressed(specs, requests, sids, n + 1, idMap')
      ensures Filled(jobs, requests, sids, n + 1)
      ensures jobs[n].request.id !in old(queue.StatusesOf())
      ensures queue.StatusesOf() == old(queue.StatusesOf())[jobs[n].request.id := Status.Submitted]
    {
      FillIn(jobs, n, sid, idMap, requests, sids);
      idMap' := Enqueue(jobs, n, sid, idMap, specs, requests, sids);
    }

    // The number of requests in front of the first unregistered definition.
    ghost function Registered(requests: seq<Request>, n: nat): (stop: nat)
      requires n <= |requests|
      ensures n <= stop <= |requests|
      decreases |requests| - n
    {
      if n == |requests| || requests[n].definition !in registry then n else Registered(requests, n + 1)
    }

    lemma {:induction false} RegisteredStops(requests: seq<Request>, n: nat)
      requires n <= |requests|
      ensures forall i | n <= i < Registered(requests, n) :: requests[i].definition in registry
      ensures Registered(requests, n) < |requests| ==> requests[Registered(requests, n)].definition !in registry
      decreases |requests| - n
    {
      if n < |requests| && requests[n].definition in registry {
        RegisteredStops(requests, n + 1);
      }
    }

    /**
     The submission loop. An unregistered definition ends it early; the jobs in
     front of that one are submitted, with their dependencies resolved among the
     jobs submitted before them.
     */
    method SubmitJobs(jobs: seq<Job>, sids: seq<string>, ghost requests: seq<Request>) returns (n: nat)
      requires |jobs| == |sids| == |requests| && forall i | 0 <= i < |jobs| :: requests[i] == jobs[i].request
      requires queue.Valid() && UnusedIds(queue.SpecsOf(), requests, sids)
      modifies queue, jobs
      ensures n == Registered(requests, 0) <= |jobs|
      ensures forall i | 0 <= i < n :: jobs[i].request.definition in registry
      ensures n < |jobs| ==> jobs[n].request.definition !in registry
      ensures queue.Valid() && SpecsAfter(queue.SpecsOf(), old(queue.SpecsOf()), requests, sids, n)
      ensures Filled(jobs, requests, sids, n)
      ensures forall i | n <= i < |jobs| :: unchanged(jobs[i])
      ensures OnlyAddsSubmitted(old(queue.StatusesOf()), queue.StatusesOf())
    {
      ghost var specs, statuses := queue.SpecsOf(), queue.StatusesOf();
      DistinctByRequest(specs, jobs, requests, sids);
      var idMap := map[];
      n := 0;
      while n < |jobs|
        invariant n <= |jobs|
        invariant Progressed(specs, requests, sids, n, idMap)
        invariant forall i | 0 <= i < n :: jobs[i].request.definition in registry
        invariant Registered(requests, n) == Registered(requests, 0)
        invariant OnlyAddsSubmitted(statuses, queue.StatusesOf())
        invariant Filled(jobs, requests, sids, n)
        invariant forall i | n <= i < |jobs| :: unchanged(jobs[i])
      {
        if jobs[n].request.definition !in registry {
          return;
        }
        ghost var now := queue.StatusesOf();
        idMap := SubmitNext(jobs, n, sids[n], idMap, specs, requests, sids);
        OneMoreSubmitted(statuses, now, requests[n].id);
        n := n + 1;
      }
    }
  }

  // -------- what the mapping means --------

  ghost predicate RequestedBefore(requests: seq<Request>, n: nat, d: Uuid)
    requires n <= |requests|
  {
    exists j :: 0 <= j < n && requests[j].manifestId == d
  }

  /**
   A dependency is left empty exactly when its manifest has no job strictly
   before this one.
   */
  lemma EmptyWhenNotBefore(requests: seq<Request>, sids: seq<string>, n: nat, k: nat)
    requires n < |requests| == |sids| && Fresh(sids) && k < |requests[n].dependencies|
    ensures ResolveAll(requests, sids, n)[k] == "" <==> !RequestedBefore(requests, n, requests[n].dependencies[k])
  {
    var d := requests[n].dependencies[k];
    var j := LastBefore(requests, n, d);
    if j.Some? {
      assert requests[j.value].manifestId == d;
    }
  }

  /**
   Otherwise it is the submitted id of the last such job.
   */
  lemma LastBeforeIsTaken(requests: seq<Request>, sids: seq<string>, n: nat, k: nat, j: nat)
    requires n < |requests| == |sids| && k < |requests[n].dependencies| && j < n
    requires requests[j].manifestId == requests[n].dependencies[k]
    requires forall i | j < i < n :: requests[i].manifestId != requests[n].dependencies[k]
    ensures ResolveAll(requests, sids, n)[k] == sids[j]
  {
    assert LastBefore(requests, n, requests[n].dependencies[k]) == Some(j);
  }

  // The Argo provider scans the whole list and takes the first match.
  function FirstFor(requests: seq<Request>, d: Uuid): (j: Option<nat>)
    ensures j.Some? ==> j.value < |requests| && requests[j.value].manifestId == d
    ensures j.Some? ==> forall i | 0 <= i < j.value :: requests[i].manifestId != d
    ensures j.None? ==> forall i | 0 <= i < |requests| :: requests[i].manifestId != d
  {
    if requests == [] then None
    else if requests[0].manifestId == d then Some(0)
    else
      var j := FirstFor(requests[1..], d);
      if j.Some? then Some(j.value + 1) else None
  }

  // Job j is the first of the list made for manifest d.
  ghost predicate IsFirstFor(jobs: seq<Job>, j: nat, d: Uuid) {
    && j < |jobs| && jobs[j].request.manifestId == d
    && forall i | 0 <= i < j :: jobs[i].request.manifestId != d
  }

  // The text names the first job made for manifest d, and is empty if there is none.
  ghost predicate NamesFirstFor(jobs: seq<Job>, text: string, d: Uuid) {
    && (forall j: nat | IsFirstFor(jobs, j, d) :: text == UuidText.Text(jobs[j].request.id))
    && (text == "" <==> forall j | 0 <= j < |jobs| :: jobs[j].request.manifestId != d)
  }

  lemma FirstForIsFirst(jobs: seq<Job>, d: Uuid, j: nat)
    ensures FirstFor(Requests(jobs), d) == Some(j) <==> IsFirstFor(jobs, j, d)
  {
    var requests := Requests(jobs);
    if IsFirstFor(jobs, j, d) {
      assert requests[j].manifestId == d;
      assert forall i | 0 <= i < j :: requests[i].manifestId != d;
    }
    if FirstFor(requests, d) == Some(j) {
      forall i | 0 <= i < j
        ensures jobs[i].request.manifestId != d
      {
        assert requests[i].manifestId != d;
      }
    }
  }

  lemma TextOfFirst(jobs: seq<Job>, j: nat, d: Uuid)
    requires IsFirstFor(jobs, j, d)
    ensures NamesFirstFor(jobs, UuidText.Text(jobs[j].request.id), d)
  {
  }

  method GetJobIdFromManifestId(manifestId: Uuid, jobs: seq<Job>) returns (id: string)
    ensures NamesFirstFor(jobs, id, manifestId)
    ensures forall j: nat | IsFirstFor(jobs, j, manifestId) :: id == UuidText.Text(jobs[j].request.id)
    ensures id == "" <==> forall j | 0 <= j < |jobs| :: jobs[j].request.manifestId != manifestId
  {
    for i := 0 to |jobs|
      invariant forall j | 0 <= j < i :: jobs[j].request.manifestId != manifestId
    {
      if jobs[i].request.manifestId == manifestId {
        TextOfFirst(jobs, i, manifestId);
        return UuidText.Text(jobs[i].request.id);
      }
    }
    return "";
  }

  method ScanAll(dependencies: seq<Uuid>, jobs: seq<Job>) returns (ids: seq<string>)
    ensures |ids| == |dependencies|
    ensures forall k | 0 <= k < |ids| :: NamesFirstFor(jobs, ids[k], dependencies[k])
  {
    ids := [];
    for k := 0 to |dependencies|
      invariant |ids| == k
      invariant forall j | 0 <= j < k :: NamesFirstFor(jobs, ids[j], dependencies[j])
    {
      var id := GetJobIdFromManifestId(dependencies[k], jobs);
      ids := ids + [id];
    }
  }

  method ManifestDepsToJobDeps(jobs: seq<Job>)
    requires DistinctJobs(jobs)
    modifies jobs
    ensures forall i | 0 <= i < |jobs| && jobs[i].request.dependencies == [] ::
              jobs[i].dependsOn == old(jobs[i].dependsOn)
    ensures forall i | 0 <= i < |jobs| && jobs[i].request.dependencies != [] ::
              && |jobs[i].dependsOn| == |jobs[i].request.dependencies|
              && forall k | 0 <= k < |jobs[i].dependsOn| ::
                   NamesFirstFor(jobs, jobs[i].dependsOn[k], jobs[i].request.dependencies[k])
    ensures forall i, k, j: nat | 0 <= i < |jobs| && 0 <= k < |jobs[i].request.dependencies|
                               && IsFirstFor(jobs, j, jobs[i].request.dependencies[k]) ::
              |jobs[i].dependsOn| > k && jobs[i].dependsOn[k] == UuidText.Text(jobs[j].request.id)
    ensures forall i, k | 0 <= i < |jobs| && 0 <= k < |jobs[i].request.dependencies| ::
              && |jobs[i].dependsOn| > k
              && (jobs[i].dependsOn[k] == "" <==>
                  forall j | 0 <= j < |jobs| :: jobs[j].request.manifestId != jobs[i].request.dependencies[k])
  {
    for i := 0 to |jobs|
      invariant forall j | 0 <= j < |jobs| && (i <= j || jobs[j].request.dependencies == []) ::
                  jobs[j].dependsOn == old(jobs[j].dependsOn)
      invariant forall j | 0 <= j < i && jobs[j].request.dependencies != [] ::
                  && |jobs[j].dependsOn| == |jobs[j].request.dependencies|
                  && forall k | 0 <= k < |jobs[j].dependsOn| ::
                       NamesFirstFor(jobs, jobs[j].dependsOn[k], jobs[j].request.dependencies[k])
    {
      if |jobs[i].request.dependencies| > 0 {
        var ids := ScanAll(jobs[i].request.dependencies, jobs);
        jobs[i].dependsOn := ids;
      }
    }
  }

  /**
   Where the dependency does have an earlier job, both mappings name the same job
   exactly when it has only one; unique manifest ids are enough for that.
   */
  lemma MappingsAgree(requests: seq<Request>, n: nat, d: Uuid)
    requires n <= |requests| && RequestedBefore(requests, n, d)
    ensures var docker, argo := LastBefore(requests, n, d), FirstFor(requests, d);
            && docker.Some? && argo.Some?
            && (docker == argo <==>
                forall i, j | 0 <= i < j < n :: requests[i].manifestId != d || requests[j].manifestId != d)
  {
  }
}
