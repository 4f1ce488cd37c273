/** Job statuses and the status pass that the queue and the scheduler share. */
module JobStates {
  import opened Manifests
  import opened Wrappers

  datatype Status = Submitted | Pending | Runnable | Starting | Running | Succeeded | Failed {
    // The complement of the unfinished list of job-queue.go.
    predicate Done() {
      Succeeded? || Failed?
    }

    function Rank(): nat {
      match this
      case Submitted => 0
      case Pending => 1
      case Runnable => 2
      case Starting => 3
      case Running => 4
      case Succeeded => 5
      case Failed => 5
    }
  }

  // What the provider knows of a job: its own submitted id, and the submitted
  // ids it waits for. An unresolved dependency is the empty string.
  datatype JobSpec = JobSpec(submittedId: string, dependsOn: seq<string>)

  type Specs = map<Uuid, JobSpec>
  type Statuses = map<Uuid, Status>

  ghost predicate DependencyOf(specs: Specs, id: Uuid, k: Uuid) {
    id in specs && k in specs && specs[k].submittedId in specs[id].dependsOn
  }

  // Some queued job that id depends on has not finished.
  ghost predicate Waits(specs: Specs, jobs: Statuses, id: Uuid) {
    exists k :: k in jobs && DependencyOf(specs, id, k) && !jobs[k].Done()
  }

  // The status that one visit of the pass gives to a job.
  ghost function Visited(specs: Specs, jobs: Statuses, id: Uuid): Status
    requires id in jobs && id in specs
  {
    if specs[id].dependsOn == [] then
      if jobs[id].Submitted? then Runnable else jobs[id]
    else
      match jobs[id]
      case Submitted => Pending
      case Pending => if Waits(specs, jobs, id) then Pending else Runnable
      case other => other
  }

  // The visit frees the job: a wake-up will be sent for it.
  ghost predicate Freed(specs: Specs, jobs: Statuses, id: Uuid)
    requires id in jobs && id in specs
  {
    specs[id].dependsOn != [] && jobs[id].Pending? && !Waits(specs, jobs, id)
  }

  // All visits at once, every one of them reading the statuses before the pass.
  ghost function UpdatedAtOnce(specs: Specs, jobs: Statuses): Statuses
    requires jobs.Keys <= specs.Keys
  {
    map id | id in jobs :: Visited(specs, jobs, id)
  }

  // Part of the pass has been made.
  ghost predicate MidPass(specs: Specs, before: Statuses, now: Statuses, todo: set<Uuid>) {
    && now.Keys == before.Keys <= specs.Keys
    && forall id | id in now :: now[id] == if id in todo then before[id] else Visited(specs, before, id)
  }

  /**
   A pass never finishes a job, so what a visit reads does not depend on which
   visits were made before it.
   */
  lemma VisitsCommute(specs: Specs, before: Statuses, now: Statuses, todo: set<Uuid>, id: Uuid)
    requires MidPass(specs, before, now, todo) && id in todo && id in now
    ensures Waits(specs, now, id) <==> Waits(specs, before, id)
    ensures Visited(specs, now, id) == Visited(specs, before, id)
    ensures Freed(specs, now, id) <==> Freed(specs, before, id)
    ensures MidPass(specs, before, now[id := Visited(specs, now, id)], todo - {id})
  {
    assert forall k | k in now :: now[k].Done() <==> before[k].Done();
    if k :| k in now && DependencyOf(specs, id, k) && !now[k].Done() {
      assert k in before && !before[k].Done();
    }
    if k :| k in before && DependencyOf(specs, id, k) && !before[k].Done() {
      assert k in now && !now[k].Done();
    }
  }

  // The visits made one after another, in a given order.
  ghost function UpdatedInOrder(specs: Specs, jobs: Statuses, order: seq<Uuid>): Statuses
    requires jobs.Keys <= specs.Keys && forall id | id in order :: id in jobs
  {
    if order == [] then jobs
    else UpdatedInOrder(specs, jobs[order[0] := Visited(specs, jobs, order[0])], order[1..])
  }

  lemma {:induction false} FinishPass(specs: Specs, before: Statuses, now: Statuses, order: seq<Uuid>)
    requires MidPass(specs, before, now, set id | id in order)
    requires forall id | id in order :: id in now
    requires forall i, j | 0 <= i < j < |order| :: order[i] != order[j]
    ensures UpdatedInOrder(specs, now, order) == UpdatedAtOnce(specs, before)
    decreases |order|
  {
    if order == [] {
    } else {
      var todo := set id | id in order;
      VisitsCommute(specs, before, now, todo, order[0]);
      assert todo - {order[0]} == set id | id in order[1..];
      FinishPass(specs, before, now[order[0] := Visited(specs, now, order[0])], order[1..]);
    }
  }

  /**
   The pass rewrites statuses in place while it reads them, and still equals the
   simultaneous update, whatever order the map is read in.
   */
  lemma PassIsOrderIndependent(specs: Specs, jobs: Statuses, order: seq<Uuid>)
    requires jobs.Keys <= specs.Keys
    requires forall i, j | 0 <= i < j < |order| :: order[i] != order[j]
    requires forall id :: id in order <==> id in jobs
    ensures UpdatedInOrder(specs, jobs, order) == UpdatedAtOnce(specs, jobs)
  {
    assert MidPass(specs, jobs, jobs, set id | id in order);
    FinishPass(specs, jobs, jobs, order);
  }

  // What taking the next runnable job does to the statuses: some runnable one starts,
  // or there is none and nothing changes.
  ghost predicate TakesRunnable(before: Statuses, after: Statuses, taken: Option<Uuid>) {
    match taken
    case None => after == before && forall id | id in before :: !before[id].Runnable?
    case Some(id) => id in before && before[id].Runnable? && after == before[id := Starting]
  }

  // What adding a job does to the statuses.
  ghost predicate AddsSubmitted(before: Statuses, after: Statuses, id: Uuid) {
    id !in before && after == before[id := Submitted]
  }

  lemma WholePass(specs: Specs, before: Statuses, now: Statuses)
    requires MidPass(specs, before, now, {})
    ensures now == UpdatedAtOnce(specs, before)
  {
  }

  // freed lists, once each, the jobs freed by the visits made so far.
  ghost predicate FreedSoFar(specs: Specs, before: Statuses, todo: set<Uuid>, freed: seq<Uuid>)
    requires before.Keys <= specs.Keys
  {
    && (forall i, j | 0 <= i < j < |freed| :: freed[i] != freed[j])
    && (forall id :: id in freed <==> id in before && id !in todo && Freed(specs, before, id))
  }
}
