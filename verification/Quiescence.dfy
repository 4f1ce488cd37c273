/**
 What the scheduler has done when nothing more can happen, for containers whose
 outcome is always recorded before their slot is given back.
 */
module Quiescence {
  import opened JobStates
  import opened Manifests
  import opened Wrappers
  import opened Scheduler
  import opened SchedulerSafety
  import opened DependencyOrder
  import opened WakeUps

  // -------- the premises --------

  // A step of a run in which statuses are final before FINISHED is sent and
  // containers stop with an exit code. The code allows the other steps too: the
  // early error returns write no status, and the wait for the log monitor can be
  // over before the container monitor has written one.
  ghost predicate Faithful(s: State, step: Step) {
    && (step.LaunchFails? ==> step.wrote)
    && (step.Return? && step.id in s.jobs ==> s.jobs[step.id].status.Done())
    && (step.ContainerEnds? ==> step.write.Some?)
  }

  ghost predicate FaithfulNext(plan: Plan, concurrency: nat, s: State, t: State) {
    exists step :: Enabled(plan, concurrency, s, step) && Faithful(s, step) && t == Apply(plan, concurrency, s, step)
  }

  ghost predicate IsFaithfulRun(plan: Plan, concurrency: nat, run: seq<State>) {
    && run != [] && run[0] == INITIAL
    && forall i | 0 < i < |run| :: FaithfulNext(plan, concurrency, run[i - 1], run[i])
  }

  // -------- what faithful runs keep --------

  // Unfinished started jobs are still being worked on.
  predicate Attended(job: Job) {
    && (job.stage.Returned? || job.stage.Released? ==> job.status.Done())
    && (job.stage.Watching? && !job.status.Done() ==> job.waitOpen)
  }

  // The runner still has to hear that the job has finished.
  predicate Unheard(job: Job) {
    !job.status.Done() || Holding(job) || job.finished.Blocked?
  }

  ghost predicate HeldUpBy(plan: Plan, jobs: Jobs, id: Uuid, k: Uuid) {
    k in jobs && DependencyOf(plan.specs, id, k) && Unheard(jobs[k])
  }

  // A pending job that was held up when it became pending will be visited again.
  ghost predicate WillBeVisited(plan: Plan, s: State, id: Uuid) {
    id in s.jobs && s.jobs[id].status.Pending? && !s.jobs[id].late ==>
      (s.runner.Updating? && id in s.runner.todo) || exists k :: HeldUpBy(plan, s.jobs, id, k)
  }

  ghost predicate AllAttended(s: State) {
    forall id | id in s.jobs :: Attended(s.jobs[id])
  }

  ghost predicate AllWillBeVisited(plan: Plan, s: State) {
    forall id :: WillBeVisited(plan, s, id)
  }

  lemma AttendedStep(plan: Plan, concurrency: nat, s: State, step: Step)
    requires Inv(plan, concurrency, s) && Enabled(plan, concurrency, s, step) && Faithful(s, step)
    requires AllAttended(s)
    ensures AllAttended(Apply(plan, concurrency, s, step))
  {
    if !step.Submit? && !step.NoneRunnable? {
      assert JobOk(s.runner, step.id, plan.specs[step.id], s.jobs[step.id]);
      AttendedJob(plan, concurrency, s, step);
    }
  }

  lemma AttendedJob(plan: Plan, concurrency: nat, s: State, step: Step)
    requires Enabled(plan, concurrency, s, step) && Faithful(s, step)
    requires !step.Submit? && !step.NoneRunnable?
    requires JobOk(s.runner, step.id, plan.specs[step.id], s.jobs[step.id]) && Attended(s.jobs[step.id])
    ensures Attended(JobAfter(plan, s, step))
  {
  }

  // Only the receipt of FINISHED makes a job heard of.
  lemma UnheardStep(plan: Plan, concurrency: nat, s: State, step: Step)
    requires Enabled(plan, concurrency, s, step) && !step.Submit? && !step.NoneRunnable? && !step.Receive?
    requires JobOk(s.runner, step.id, plan.specs[step.id], s.jobs[step.id]) && Attended(s.jobs[step.id])
    requires Unheard(s.jobs[step.id])
    ensures Unheard(JobAfter(plan, s, step))
  {
  }

  lemma HeldUpStays(plan: Plan, concurrency: nat, s: State, step: Step, id: Uuid, k: Uuid)
    requires Inv(plan, concurrency, s) && Enabled(plan, concurrency, s, step) && !step.Receive?
    requires AllAttended(s) && HeldUpBy(plan, s.jobs, id, k)
    ensures HeldUpBy(plan, Apply(plan, concurrency, s, step).jobs, id, k)
  {
    if !step.Submit? && !step.NoneRunnable? && step.id == k {
      assert JobOk(s.runner, k, plan.specs[k], s.jobs[k]);
      UnheardStep(plan, concurrency, s, step);
    }
  }

  // The visited job itself: left pending and not late, it waits for somebody.
  lemma VisitedIsHeldUp(plan: Plan, concurrency: nat, s: State, id: Uuid)
    requires Inv(plan, concurrency, s) && Enabled(plan, concurrency, s, Visit(id))
    requires JobAfter(plan, s, Visit(id)).status.Pending? && !JobAfter(plan, s, Visit(id)).late
    ensures exists k :: HeldUpBy(plan, s.jobs, id, k)
  {
    var statuses := StatusesOf(s.jobs);
    assert JobOk(s.runner, id, plan.specs[id], s.jobs[id]);
    var k :| k in statuses && DependencyOf(plan.specs, id, k) && !statuses[k].Done();
    assert HeldUpBy(plan, s.jobs, id, k);
  }

  lemma PendingComesFromVisit(plan: Plan, concurrency: nat, s: State, step: Step)
    requires Enabled(plan, concurrency, s, step)
    requires !step.Submit? && !step.NoneRunnable? && !step.Visit?
    requires JobOk(s.runner, step.id, plan.specs[step.id], s.jobs[step.id])
    requires JobAfter(plan, s, step).status.Pending?
    ensures s.jobs[step.id].status.Pending? && JobAfter(plan, s, step).late == s.jobs[step.id].late
  {
  }

  lemma VisitingStep(plan: Plan, concurrency: nat, s: State, step: Step, id: Uuid)
    requires Inv(plan, concurrency, s) && Enabled(plan, concurrency, s, step)
    requires AllAttended(s) && AllWillBeVisited(plan, s)
    requires id in Apply(plan, concurrency, s, step).jobs
    ensures WillBeVisited(plan, Apply(plan, concurrency, s, step), id)
  {
    var t := Apply(plan, concurrency, s, step);
    if t.jobs[id].status.Pending? && !t.jobs[id].late && !step.Receive? {
      if step.Visit? && step.id == id {
        VisitedIsHeldUp(plan, concurrency, s, id);
      } else {
        if !step.Submit? && !step.NoneRunnable? && step.id == id {
          assert JobOk(s.runner, id, plan.specs[id], s.jobs[id]);
          PendingComesFromVisit(plan, concurrency, s, step);
        }
        assert WillBeVisited(plan, s, id);
      }
      if k :| HeldUpBy(plan, s.jobs, id, k) {
        HeldUpStays(plan, concurrency, s, step, id, k);
      }
    }
  }

  lemma {:induction false} RunFaithful(plan: Plan, concurrency: nat, run: seq<State>, n: nat)
    requires ValidPlan(plan) && IsFaithfulRun(plan, concurrency, run) && n < |run|
    ensures IsRun(plan, concurrency, run)
    ensures AllAttended(run[n]) && AllWillBeVisited(plan, run[n])
  {
    FaithfulRunIsRun(plan, concurrency, run);
    if n == 0 {
    } else {
      RunFaithful(plan, concurrency, run, n - 1);
      RunInv(plan, concurrency, run, n - 1);
      var s := run[n - 1];
      assert FaithfulNext(plan, concurrency, s, run[n]);
      var step :| Enabled(plan, concurrency, s, step) && Faithful(s, step)
               && run[n] == Apply(plan, concurrency, s, step);
      AttendedStep(plan, concurrency, s, step);
      forall id
        ensures WillBeVisited(plan, run[n], id)
      {
        if id in run[n].jobs {
          VisitingStep(plan, concurrency, s, step, id);
        }
      }
    }
  }

  lemma FaithfulRunIsRun(plan: Plan, concurrency: nat, run: seq<State>)
    requires IsFaithfulRun(plan, concurrency, run)
    ensures IsRun(plan, concurrency, run)
  {
    forall i | 0 < i < |run|
      ensures Next(plan, concurrency, run[i - 1], run[i])
    {
      assert FaithfulNext(plan, concurrency, run[i - 1], run[i]);
    }
  }

  // -------- there is always a next step --------

  // Nothing is going on: no sender, no runner activity, no slot holder.
  ghost predicate Quiet(s: State) {
    && s.runner.Selecting?
    && forall id | id in s.jobs :: !Holding(s.jobs[id]) && BlockedCount(s.jobs[id]) == 0
  }

  // A slot holder can always move towards giving its slot back.
  lemma HolderMoves(plan: Plan, concurrency: nat, s: State, id: Uuid) returns (step: Step)
    requires id in s.jobs && id in plan.specs && Holding(s.jobs[id])
    ensures Enabled(plan, concurrency, s, step) && !step.Submit?
    ensures Attended(s.jobs[id]) ==> Faithful(s, step)
  {
    var job := s.jobs[id];
    match job.stage
    case Launching => step := Create(id);
    case Created => step := Attach(id);
    case Returned => step := Release(id);
    case Watching =>
      if job.logOpen {
        step := LogEnds(id, None);
      } else if job.waitOpen && !job.status.Done() {
        step := ContainerEnds(id, Some(Succeeded));
      } else {
        step := Return(id);
      }
  }

  lemma RunnerMoves(plan: Plan, concurrency: nat, s: State) returns (step: Step)
    requires Inv(plan, concurrency, s) && WithinLimit(concurrency, s) && concurrency >= 1
    requires !s.runner.Selecting?
    ensures Enabled(plan, concurrency, s, step) && !step.Submit?
    ensures step.Release? ==> s.runner.Acquiring?
    ensures AllAttended(s) ==> Faithful(s, step)
  {
    match s.runner
    case Updating(todo, _) =>
      if todo != {} {
        var id :| id in todo;
        step := Visit(id);
      } else if id :| id in s.jobs && s.jobs[id].status.Runnable? {
        step := Pick(id);
      } else {
        step := NoneRunnable;
      }
    case Acquiring(job, _) =>
      if |Holders(s.jobs)| < concurrency {
        step := Acquire(job);
      } else {
        var id :| id in Holders(s.jobs);
        step := HolderMoves(plan, concurrency, s, id);
      }
    case Waking(freed) =>
      assert freed[0] in s.runner.Owed();
      step := Wake(freed[0]);
  }

  /**
   Deadlock freedom: while a message is owed, the runner is busy or a slot is
   held, some step other than a submission is possible, and a faithful one is
   possible in a faithful run.
   */
  lemma NoDeadlock(plan: Plan, concurrency: nat, run: seq<State>, n: nat) returns (step: Step)
    requires ValidPlan(plan) && concurrency >= 1
    requires IsRun(plan, concurrency, run) && n < |run| && !Quiet(run[n])
    ensures Enabled(plan, concurrency, run[n], step) && !step.Submit?
    ensures IsFaithfulRun(plan, concurrency, run) ==> Faithful(run[n], step)
  {
    RunInv(plan, concurrency, run, n);
    if IsFaithfulRun(plan, concurrency, run) {
      RunFaithful(plan, concurrency, run, n);
    }
    step := SomeMove(plan, concurrency, run[n]);
  }

  lemma SomeMove(plan: Plan, concurrency: nat, s: State) returns (step: Step)
    requires Inv(plan, concurrency, s) && WithinLimit(concurrency, s) && concurrency >= 1 && !Quiet(s)
    ensures Enabled(plan, concurrency, s, step) && !step.Submit?
    ensures AllAttended(s) ==> Faithful(s, step)
  {
    if s.runner.Selecting? {
      var id :| id in s.jobs && (Holding(s.jobs[id]) || BlockedCount(s.jobs[id]) != 0);
      if Holding(s.jobs[id]) {
        step := HolderMoves(plan, concurrency, s, id);
      } else {
        var job := s.jobs[id];
        var kind := if job.added.Blocked? then AddedMsg else if job.wake.Blocked? then WakeMsg else FinishedMsg;
        step := Receive(id, kind);
      }
    } else {
      step := RunnerMoves(plan, concurrency, s);
    }
  }

  // -------- what is left at the end --------

  // From id down to a late job, each waiting for the next.
  ghost predicate StuckBehind(plan: Plan, jobs: Jobs, p: seq<Uuid>) {
    && p != []
    && (forall i | 0 <= i < |p| :: p[i] in jobs && jobs[p[i]].status.Pending?)
    && (forall i | 0 < i < |p| :: DependencyOf(plan.specs, p[i - 1], p[i]))
    && jobs[p[|p| - 1]].late
  }

  lemma NobodySends(jobs: Jobs, kind: Kind)
    requires forall id | id in jobs :: BlockedCount(jobs[id]) == 0
    ensures Senders(jobs, kind) == {}
  {
  }

  lemma QuietNeedsNothing(plan: Plan, s: State)
    requires s.jobs.Keys <= plan.specs.Keys && Conserved(plan, s) && Quiet(s)
    ensures Needy(plan.specs, s.jobs) == {}
  {
    SlacksCount(plan.specs, s.jobs);
    NobodySends(s.jobs, AddedMsg);
    NobodySends(s.jobs, WakeMsg);
    NobodySends(s.jobs, FinishedMsg);
  }

  lemma QuietLeavesPending(plan: Plan, concurrency: nat, s: State, id: Uuid)
    requires Inv(plan, concurrency, s) && Conserved(plan, s) && AllAttended(s) && Quiet(s)
    requires id in s.jobs && !s.jobs[id].status.Done()
    ensures s.jobs[id].status.Pending?
  {
    assert JobOk(s.runner, id, plan.specs[id], s.jobs[id]);
    QuietNeedsNothing(plan, s);
    assert id !in Needy(plan.specs, s.jobs);
  }

  // A pending job that is not late waits for an unfinished job before it.
  lemma WaitsForEarlier(plan: Plan, concurrency: nat, s: State, id: Uuid) returns (k: Uuid)
    requires Inv(plan, concurrency, s) && DependsOnEarlier(plan)
    requires AllWillBeVisited(plan, s) && Quiet(s)
    requires id in s.jobs && s.jobs[id].status.Pending? && !s.jobs[id].late
    ensures k in s.jobs && DependencyOf(plan.specs, id, k) && !s.jobs[k].status.Done()
    ensures k in plan.earlier && id in plan.earlier && k in plan.earlier[id] && k !in plan.earlier[k]
    ensures plan.earlier[k] <= plan.earlier[id]
  {
    assert WillBeVisited(plan, s, id);
    k :| HeldUpBy(plan, s.jobs, id, k);
    assert !Holding(s.jobs[k]) && BlockedCount(s.jobs[k]) == 0;
  }

  lemma StuckBehindNext(plan: Plan, jobs: Jobs, id: Uuid, rest: seq<Uuid>)
    requires id in jobs && jobs[id].status.Pending?
    requires StuckBehind(plan, jobs, rest) && DependencyOf(plan.specs, id, rest[0])
    ensures StuckBehind(plan, jobs, [id] + rest)
  {
  }

  ghost predicate Unfinished(jobs: Jobs, id: Uuid) {
    id in jobs && !jobs[id].status.Done()
  }

  ghost predicate HeldUp(plan: Plan, jobs: Jobs, id: Uuid) {
    exists k :: HeldByEarlier(plan, jobs, id, k)
  }

  // Pending, and late or held up by an earlier job.
  ghost predicate Stuck(plan: Plan, jobs: Jobs, id: Uuid)
    requires id in jobs
  {
    jobs[id].status.Pending? && id in plan.earlier && (jobs[id].late || HeldUp(plan, jobs, id))
  }

  ghost predicate HeldOrLate(plan: Plan, jobs: Jobs) {
    forall id | Unfinished(jobs, id) :: Stuck(plan, jobs, id)
  }

  ghost predicate HeldByEarlier(plan: Plan, jobs: Jobs, id: Uuid, k: Uuid) {
    && k in jobs && DependencyOf(plan.specs, id, k) && !jobs[k].status.Done()
    && k in plan.earlier && id in plan.earlier && k in plan.earlier[id] && k !in plan.earlier[k]
    && plan.earlier[k] <= plan.earlier[id]
  }

  lemma QuietIsHeldOrLate(plan: Plan, concurrency: nat, s: State)
    requires Inv(plan, concurrency, s) && Conserved(plan, s) && DependsOnEarlier(plan)
    requires AllAttended(s) && AllWillBeVisited(plan, s) && Quiet(s)
    ensures HeldOrLate(plan, s.jobs)
  {
    forall id | Unfinished(s.jobs, id)
      ensures Stuck(plan, s.jobs, id)
    {
      QuietLeavesPending(plan, concurrency, s, id);
      if !s.jobs[id].late {
        var k := WaitsForEarlier(plan, concurrency, s, id);
        assert HeldByEarlier(plan, s.jobs, id, k);
      }
    }
  }

  lemma {:induction false} ChainToLate(plan: Plan, jobs: Jobs, id: Uuid) returns (p: seq<Uuid>)
    requires HeldOrLate(plan, jobs) && Unfinished(jobs, id) && id in plan.earlier
    ensures StuckBehind(plan, jobs, p) && p[0] == id
    decreases plan.earlier[id]
  {
    assert Stuck(plan, jobs, id);
    if jobs[id].late {
      return [id];
    }
    var k :| HeldByEarlier(plan, jobs, id, k);
    var rest := ChainToLate(plan, jobs, k);
    StuckBehindNext(plan, jobs, id, rest);
    p := [id] + rest;
  }

  /**
   Quiescence: when nothing is going on, every job that has not finished is, or
   waits through a chain of pending jobs for, one that was made pending late.
   */
  lemma QuietRun(plan: Plan, concurrency: nat, run: seq<State>, n: nat, id: Uuid) returns (p: seq<Uuid>)
    requires ValidPlan(plan) && DependsOnEarlier(plan)
    requires IsFaithfulRun(plan, concurrency, run) && n < |run| && Quiet(run[n])
    requires id in run[n].jobs && !run[n].jobs[id].status.Done()
    ensures StuckBehind(plan, run[n].jobs, p) && p[0] == id
  {
    RunFaithful(plan, concurrency, run, n);
    RunInv(plan, concurrency, run, n);
    RunConserved(plan, concurrency, run, n);
    QuietIsHeldOrLate(plan, concurrency, run[n]);
    p := ChainToLate(plan, run[n].jobs, id);
  }

  /**
   A run that has come to its end has submitted every job, and has finished every
   job exactly when none that was made pending late is still pending.
   */
  lemma FinalState(plan: Plan, concurrency: nat, run: seq<State>)
    requires ValidPlan(plan) && DependsOnEarlier(plan) && concurrency >= 1
    requires IsFaithfulRun(plan, concurrency, run)
    requires var s := run[|run| - 1];
             forall step :: Enabled(plan, concurrency, s, step) ==> !Faithful(s, step)
    ensures var s := run[|run| - 1];
            && Quiet(s)
            && s.jobs.Keys == plan.specs.Keys
            && ((forall id | id in s.jobs :: s.jobs[id].status.Done()) <==>
                forall id | id in s.jobs && s.jobs[id].late :: !s.jobs[id].status.Pending?)
  {
    var n := |run| - 1;
    var s := run[n];
    FaithfulRunIsRun(plan, concurrency, run);
    if !Quiet(s) {
      var step := NoDeadlock(plan, concurrency, run, n);
    }
    RunInv(plan, concurrency, run, n);
    if id :| id in plan.specs && id !in s.jobs {
      var next := NextSubmission(plan, concurrency, s, id);
      assert Faithful(s, Submit(next));
    }
    if forall id | id in s.jobs && s.jobs[id].late :: !s.jobs[id].status.Pending? {
      forall id | id in s.jobs
        ensures s.jobs[id].status.Done()
      {
        if !s.jobs[id].status.Done() {
          var p := QuietRun(plan, concurrency, run, n, id);
        }
      }
    }
  }

  // In a quiet state the first job not yet submitted can be submitted.
  lemma {:induction false} NextSubmission(plan: Plan, concurrency: nat, s: State, id: Uuid) returns (next: Uuid)
    requires Inv(plan, concurrency, s) && Quiet(s)
    requires id in plan.specs && id !in s.jobs
    ensures Enabled(plan, concurrency, s, Submit(next))
    decreases plan.earlier[id]
  {
    if k :| k in plan.earlier[id] && k !in s.jobs {
      next := NextSubmission(plan, concurrency, s, k);
    } else {
      next := id;
      AllAddedHeard(plan, concurrency, s);
    }
  }

  lemma AllAddedHeard(plan: Plan, concurrency: nat, s: State)
    requires Inv(plan, concurrency, s) && Quiet(s)
    ensures forall k | k in s.jobs :: s.jobs[k].added.Received?
  {
    forall k | k in s.jobs
      ensures s.jobs[k].added.Received?
    {
      assert JobOk(s.runner, k, plan.specs[k], s.jobs[k]);
    }
  }
}
