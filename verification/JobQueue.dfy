/** The in-memory job queue: status pass, dependency lookup and the next runnable job. */
module JobQueue {
  import opened Manifests
  import opened JobStates
  import opened Wrappers

  class DockerJob {
    const id: Uuid
    const submittedId: string
    const dependsOn: seq<string>
    var status: Status

    constructor (id: Uuid, submittedId: string, dependsOn: seq<string>)
      ensures this.id == id && this.submittedId == submittedId && this.dependsOn == dependsOn
      ensures status == Submitted
    {
      this.id, this.submittedId, this.dependsOn := id, submittedId, dependsOn;
      status := Submitted;
    }

    ghost function Spec(): JobSpec {
      JobSpec(submittedId, dependsOn)
    }
  }

  ghost function IdsOf(jobs: seq<DockerJob>): set<Uuid> {
    set job | job in jobs :: job.id
  }

  lemma IdsLeft(jobs: seq<DockerJob>, n: nat)
    requires n < |jobs| && forall i, j | 0 <= i < j < |jobs| :: jobs[i].id != jobs[j].id
    ensures jobs[n].id in IdsOf(jobs[n..])
    ensures IdsOf(jobs[n..]) - {jobs[n].id} == IdsOf(jobs[n + 1..])
  {
    assert jobs[n..] == [jobs[n]] + jobs[n + 1..];
  }

  ghost function SpecsIn(queue: map<Uuid, DockerJob>): Specs {
    map k | k in queue :: queue[k].Spec()
  }

  lemma SpecsWith(queue: map<Uuid, DockerJob>, job: DockerJob)
    ensures SpecsIn(queue[job.id := job]) == SpecsIn(queue)[job.id := job.Spec()]
  {
  }

  ghost function StatusesIn(queue: map<Uuid, DockerJob>): Statuses
    reads queue.Values
  {
    map k | k in queue :: queue[k].status
  }

  lemma StatusesWith(queue: map<Uuid, DockerJob>, job: DockerJob)
    ensures StatusesIn(queue[job.id := job]) == StatusesIn(queue)[job.id := job.status]
  {
  }

  class InMemoryJobQueue {
    var queue: map<Uuid, DockerJob>
    ghost var Repr: set<DockerJob>  // the queued jobs

    constructor ()
      ensures Valid() && queue == map[]
    {
      queue, Repr := map[], {};
    }

    // Keyed by job id; submitted ids, like job ids, come from a UUID source.
    ghost predicate Valid()
      reads this
    {
      && (forall k | k in queue :: queue[k].id == k && queue[k] in Repr)
      && (forall job | job in Repr :: job.id in queue && queue[job.id] == job)
      && (forall j, k | j in queue && k in queue && queue[j].submittedId == queue[k].submittedId :: j == k)
    }

    ghost function SpecsOf(): Specs
      reads this
    {
      SpecsIn(queue)
    }

    ghost function StatusesOf(): Statuses
      reads this, Repr
      requires Valid()
    {
      StatusesIn(queue)
    }

    method Add(job: DockerJob)
      requires Valid()
      requires forall k | k in queue && k != job.id :: queue[k].submittedId != job.submittedId
      modifies this
      ensures Valid()
      ensures queue == old(queue)[job.id := job]
      ensures SpecsOf() == old(SpecsOf())[job.id := job.Spec()]
      ensures StatusesOf() == old(StatusesOf())[job.id := job.status]
    {
      ghost var before := queue;
      Repr := (if job.id in queue then Repr - {queue[job.id]} else Repr) + {job};
      queue := queue[job.id := job];
      assert Valid() by {
        assert forall k | k in queue :: queue[k].id == k && queue[k] in Repr;
        assert forall j | j in Repr :: j.id in queue && queue[j.id] == j;
      }
      SpecsWith(before, job);
      StatusesWith(before, job);
    }

    // One lookup: the last match in map order, of which there is at most one.
    method FindSubmitted(submittedId: string) returns (job: DockerJob?)
      requires Valid()
      ensures job != null ==> job in Repr && job.submittedId == submittedId
      ensures job == null ==> forall k | k in queue :: queue[k].submittedId != submittedId
    {
      job := null;
      var unread := queue.Keys;
      while unread != {}
        invariant unread <= queue.Keys
        invariant job != null ==> job in Repr && job.submittedId == submittedId
        invariant job == null ==> forall k | k in queue && k !in unread :: queue[k].submittedId != submittedId
      {
        var k :| k in unread;
        if queue[k].submittedId == submittedId {
          job := queue[k];
        }
        unread := unread - {k};
      }
    }

    method GetJobDeps(submittedIds: seq<string>) returns (jobs: seq<DockerJob?>)
      requires Valid()
      ensures |jobs| == |submittedIds|
      ensures forall i | 0 <= i < |jobs| && jobs[i] != null ::
                jobs[i] in Repr && jobs[i].submittedId == submittedIds[i]
      ensures forall i, k | 0 <= i < |jobs| && k in queue && queue[k].submittedId == submittedIds[i] ::
                jobs[i] == queue[k]
    {
      jobs := [];
      for i := 0 to |submittedIds|
        invariant |jobs| == i
        invariant forall j | 0 <= j < i && jobs[j] != null ::
                    jobs[j] in Repr && jobs[j].submittedId == submittedIds[j]
        invariant forall j, k | 0 <= j < i && k in queue && queue[k].submittedId == submittedIds[j] ::
                    jobs[j] == queue[k]
      {
        var job := FindSubmitted(submittedIds[i]);
        jobs := jobs + [job];
      }
    }

    method HasUnfinishedDependencies(jobs: seq<DockerJob?>) returns (unfinished: bool)
      ensures unfinished <==> exists i :: 0 <= i < |jobs| && jobs[i] != null && !jobs[i].status.Done()
    {
      for i := 0 to |jobs|
        invariant forall j | 0 <= j < i && jobs[j] != null :: jobs[j].status.Done()
      {
        if jobs[i] != null && !jobs[i].status.Done() {
          return true;
        }
      }
      return false;
    }

    ghost predicate Holds(job: DockerJob)
      reads this
    {
      job.id in queue && queue[job.id] == job
    }

    method IsWaiting(job: DockerJob) returns (waits: bool)
      requires Valid() && Holds(job)
      ensures waits <==> Waits(SpecsOf(), StatusesOf(), job.id)
    {
      var deps := GetJobDeps(job.dependsOn);
      waits := HasUnfinishedDependencies(deps);
      ghost var specs, jobs := SpecsOf(), StatusesOf();
      if waits {
        var i :| 0 <= i < |deps| && deps[i] != null && !deps[i].status.Done();
        var k :| k in queue && queue[k] == deps[i];
        assert k in jobs && DependencyOf(specs, job.id, k) && !jobs[k].Done();
      }
      if k :| k in jobs && DependencyOf(specs, job.id, k) && !jobs[k].Done() {
        var i :| 0 <= i < |job.dependsOn| && job.dependsOn[i] == queue[k].submittedId;
        assert deps[i] == queue[k];
      }
    }

    method SetStatus(job: DockerJob, status: Status)
      requires Valid() && Holds(job)
      modifies job`status
      ensures StatusesOf() == old(StatusesOf())[job.id := status]
    {
      job.status := status;
    }

    // One visit of the status pass.
    method VisitJob(job: DockerJob) returns (freed: bool)
      requires Valid() && Holds(job)
      modifies job`status
      ensures StatusesOf() == old(StatusesOf())[job.id := Visited(SpecsOf(), old(StatusesOf()), job.id)]
      ensures freed <==> Freed(SpecsOf(), old(StatusesOf()), job.id)
    {
      freed := false;
      if |job.dependsOn| == 0 && job.status == Submitted {
        SetStatus(job, Runnable);
        return;
      }
      if |job.dependsOn| > 0 {
        match job.status
        case Submitted =>
          SetStatus(job, Pending);
          return;
        case Pending =>
          var waits := IsWaiting(job);
          if waits {
            SetStatus(job, Pending);
          } else {
            SetStatus(job, Runnable);
            freed := true;
          }
          return;
        case _ =>
      }
      assert StatusesOf() == old(StatusesOf())[job.id := job.status];
    }

    ghost predicate ListsQueue(jobs: seq<DockerJob>)
      reads this
    {
      && (forall i | 0 <= i < |jobs| :: Holds(jobs[i]))
      && (forall i, j | 0 <= i < j < |jobs| :: jobs[i].id != jobs[j].id)
      && (forall k | k in queue :: queue[k] in jobs)
    }

    method CollectJobs() returns (jobs: seq<DockerJob>)
      requires Valid()
      ensures ListsQueue(jobs)
    {
      jobs := [];
      var unread := queue.Keys;
      while unread != {}
        invariant unread <= queue.Keys
        invariant forall i | 0 <= i < |jobs| ::
                    jobs[i].id in queue && jobs[i].id !in unread && queue[jobs[i].id] == jobs[i]
        invariant forall i, j | 0 <= i < j < |jobs| :: jobs[i].id != jobs[j].id
        invariant forall k | k in queue && k !in unread :: queue[k] in jobs
      {
        var k :| k in unread;
        jobs := jobs + [queue[k]];
        unread := unread - {k};
      }
    }

    method VisitNext(job: DockerJob, freed0: seq<Uuid>, ghost before: Statuses, ghost todo: set<Uuid>)
      returns (freed: seq<Uuid>)
      requires Valid() && Holds(job) && job.id in todo
      requires MidPass(SpecsOf(), before, StatusesOf(), todo)
      requires FreedSoFar(SpecsOf(), before, todo, freed0)
      modifies job`status
      ensures MidPass(SpecsOf(), before, StatusesOf(), todo - {job.id})
      ensures FreedSoFar(SpecsOf(), before, todo - {job.id}, freed)
    {
      VisitsCommute(SpecsOf(), before, StatusesOf(), todo, job.id);
      var now := VisitJob(job);
      freed := if now then freed0 + [job.id] else freed0;
    }

    method VisitAll(jobs: seq<DockerJob>) returns (freed: seq<Uuid>)
      requires Valid() && ListsQueue(jobs)
      modifies Repr`status
      ensures MidPass(SpecsOf(), old(StatusesOf()), StatusesOf(), {})
      ensures FreedSoFar(SpecsOf(), old(StatusesOf()), {}, freed)
    {
      freed := [];
      ghost var before := StatusesOf();
      ListedIds(jobs);
      for n := 0 to |jobs|
        invariant MidPass(SpecsOf(), before, StatusesOf(), IdsOf(jobs[n..]))
        invariant FreedSoFar(SpecsOf(), before, IdsOf(jobs[n..]), freed)
      {
        IdsLeft(jobs, n);
        freed := VisitNext(jobs[n], freed, before, IdsOf(jobs[n..]));
      }
      assert IdsOf(jobs[|jobs|..]) == {};
    }

    lemma ListedIds(jobs: seq<DockerJob>)
      requires Valid() && ListsQueue(jobs)
      ensures IdsOf(jobs[0..]) == queue.Keys
    {
      forall k | k in queue
        ensures k in IdsOf(jobs)
      {
        assert queue[k] in jobs && queue[k].id == k;
      }
      assert jobs[0..] == jobs;
    }

    /**
     The whole pass. It equals the simultaneous update of the statuses it found,
     and the ids it returns are, once each, the pending jobs that waited for
     nothing when it started.
     */
    method UpdateJobs() returns (pendingThatCanStart: seq<Uuid>)
      requires Valid()
      modifies Repr`status
      ensures Valid() && queue == old(queue) && Repr == old(Repr)
      ensures StatusesOf() == UpdatedAtOnce(SpecsOf(), old(StatusesOf()))
      ensures forall i, j | 0 <= i < j < |pendingThatCanStart| :: pendingThatCanStart[i] != pendingThatCanStart[j]
      ensures forall id :: id in pendingThatCanStart <==> id in queue && Freed(SpecsOf(), old(StatusesOf()), id)
    {
      var jobsToUpdate := CollectJobs();
      pendingThatCanStart := VisitAll(jobsToUpdate);
      WholePass(SpecsOf(), old(StatusesOf()), StatusesOf());
    }

    // Takes some runnable job, when there is one.
    method GetNextRunnable() returns (job: DockerJob?)
      requires Valid()
      modifies Repr`status
      ensures Valid() && queue == old(queue) && Repr == old(Repr)
      ensures TakesRunnable(old(StatusesOf()), StatusesOf(), if job == null then None else Some(job.id))
      ensures job == null ==> StatusesOf() == old(StatusesOf())
      ensures job == null <==> forall k | k in queue :: old(queue[k].status) != Runnable
      ensures job != null ==>
                && job.id in queue && queue[job.id] == job && old(job.status) == Runnable
                && StatusesOf() == old(StatusesOf())[job.id := Starting]
    {
      var unread := queue.Keys;
      while unread != {}
        invariant unread <= queue.Keys
        invariant StatusesOf() == old(StatusesOf())
        invariant forall k | k in queue :: queue[k].status == old(queue[k].status)
        invariant forall k | k in queue && k !in unread :: queue[k].status != Runnable
      {
        var k :| k in unread;
        if queue[k].status == Runnable {
          queue[k].status := Starting;
          return queue[k];
        }
        unread := unread - {k};
      }
      return null;
    }
  }
}
