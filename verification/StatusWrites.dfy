/** Which steps of a run write a job's status, what they write, and when a monitor is open. */
module StatusWrites {
  import opened JobStates
  import opened Manifests
  import opened Wrappers
  import opened Scheduler
  import opened SchedulerSafety
  import opened Progress

  // -------- one step --------

  // What a step makes of the status of job id.
  predicate StatusStep(step: Step, id: Uuid, before: Status, after: Status) {
    match step
    case Pick(k) => after == if k == id then Starting else before
    case Create(k) => after == if k == id then Running else before
    case StartFails(k) => after == if k == id then Failed else before
    case LaunchFails(k, wrote) => after == if k == id && wrote then Failed else before
    case LogEnds(k, write) => after == if k == id && write.Some? then write.value else before
    case ContainerEnds(k, write) => after == if k == id && write.Some? then write.value else before
    case Visit(k) => after == before || (k == id && before.Rank() <= 1 <= after.Rank() <= 2)
    case _ => after == before
  }

  lemma StepWrites(plan: Plan, concurrency: nat, s: State, step: Step, id: Uuid)
    requires Enabled(plan, concurrency, s, step) && id in s.jobs
    ensures id in Apply(plan, concurrency, s, step).jobs
    ensures StatusStep(step, id, s.jobs[id].status, Apply(plan, concurrency, s, step).jobs[id].status)
  {
  }

  // A job that was not there before is being submitted.
  lemma NewIsSubmitted(plan: Plan, concurrency: nat, s: State, step: Step, id: Uuid)
    requires Enabled(plan, concurrency, s, step) && id !in s.jobs
    requires id in Apply(plan, concurrency, s, step).jobs
    ensures step == Submit(id) && Apply(plan, concurrency, s, step).jobs[id].status == Submitted
  {
  }

  // -------- final statuses --------

  // The step records a final status of the job.
  predicate Records(step: Step, id: Uuid, status: Status) {
    || step == LogEnds(id, Some(status))
    || step == ContainerEnds(id, Some(status))
    || (status == Failed && (step == StartFails(id) || step == LaunchFails(id, true)))
  }

  predicate RecordsSome(step: Step, id: Uuid) {
    Records(step, id, Succeeded) || Records(step, id, Failed)
  }

  // The last record made for the job before moment n.
  ghost predicate LastRecord(steps: seq<Step>, n: nat, m: nat, id: Uuid, status: Status) {
    && m < n <= |steps| && Records(steps[m], id, status)
    && forall k | m < k < n :: !RecordsSome(steps[k], id)
  }

  ghost predicate Recorded(steps: seq<Step>, n: nat, id: Uuid, status: Status) {
    exists m: nat :: LastRecord(steps, n, m, id, status)
  }

  // A finished job is not taken up again.
  lemma NotTakenUpAgain(plan: Plan, concurrency: nat, s: State, step: Step, id: Uuid)
    requires Enabled(plan, concurrency, s, step) && id in s.jobs
    requires StageOk(s.runner, id, s.jobs[id]) && s.jobs[id].status.Done()
    ensures step != Pick(id) && step != Create(id)
  {
  }

  // The status written by a monitor is final.
  lemma WritesAreFinal(plan: Plan, concurrency: nat, s: State, step: Step)
    requires Enabled(plan, concurrency, s, step)
    ensures step.LogEnds? && step.write.Some? ==> step.write.value.Done()
    ensures step.ContainerEnds? && step.write.Some? ==> step.write.value.Done()
  {
  }

  lemma StatusRecorded(step: Step, id: Uuid, before: Status, after: Status, status: Status)
    requires StatusStep(step, id, before, after) && status.Done()
    requires step.LogEnds? && step.write.Some? ==> step.write.value.Done()
    requires step.ContainerEnds? && step.write.Some? ==> step.write.value.Done()
    requires before.Done() ==> step != Pick(id) && step != Create(id)
    ensures after == status <==> if RecordsSome(step, id) then Records(step, id, status) else before == status
  {
  }

  ghost predicate HasStatus(s: State, id: Uuid, status: Status) {
    id in s.jobs && s.jobs[id].status == status
  }

  lemma PresentRecords(plan: Plan, concurrency: nat, s: State, step: Step, id: Uuid, status: Status)
    requires Enabled(plan, concurrency, s, step) && id in s.jobs && StageOk(s.runner, id, s.jobs[id])
    requires status.Done()
    ensures HasStatus(Apply(plan, concurrency, s, step), id, status)
       <==> if RecordsSome(step, id) then Records(step, id, status) else HasStatus(s, id, status)
  {
    StepWrites(plan, concurrency, s, step, id);
    WritesAreFinal(plan, concurrency, s, step);
    if s.jobs[id].status.Done() {
      NotTakenUpAgain(plan, concurrency, s, step, id);
    }
    StatusRecorded(step, id, s.jobs[id].status, Apply(plan, concurrency, s, step).jobs[id].status, status);
  }

  lemma AbsentRecords(plan: Plan, concurrency: nat, s: State, step: Step, id: Uuid, status: Status)
    requires Enabled(plan, concurrency, s, step) && id !in s.jobs && status.Done()
    ensures !RecordsSome(step, id) && !HasStatus(Apply(plan, concurrency, s, step), id, status)
  {
  }

  lemma RecordingStep(plan: Plan, concurrency: nat, s: State, step: Step, id: Uuid, status: Status)
    requires Enabled(plan, concurrency, s, step) && (id in s.jobs ==> StageOk(s.runner, id, s.jobs[id]))
    requires status.Done()
    ensures HasStatus(Apply(plan, concurrency, s, step), id, status)
       <==> if RecordsSome(step, id) then Records(step, id, status) else HasStatus(s, id, status)
  {
    if id in s.jobs {
      PresentRecords(plan, concurrency, s, step, id, status);
    } else {
      AbsentRecords(plan, concurrency, s, step, id, status);
    }
  }

  lemma RecordedStep(steps: seq<Step>, n: nat, id: Uuid, status: Status)
    requires n < |steps| && status.Done()
    ensures Recorded(steps, n + 1, id, status) <==>
              if RecordsSome(steps[n], id) then Records(steps[n], id, status) else Recorded(steps, n, id, status)
  {
    var next := n + 1;
    if Records(steps[n], id, status) {
      assert LastRecord(steps, next, n, id, status);
    }
    if m: nat :| LastRecord(steps, next, m, id, status) {
      assert m < n ==> LastRecord(steps, n, m, id, status);
    }
    if m: nat :| LastRecord(steps, n, m, id, status) {
      assert !RecordsSome(steps[n], id) ==> LastRecord(steps, next, m, id, status);
    }
  }

  /**
   In every run a job has a final status exactly if one was recorded for it, and
   then it is the last one recorded.
   */
  lemma {:induction false} FinalStatusIsLastRecord(plan: Plan, concurrency: nat, run: seq<State>, steps: seq<Step>,
                                                   n: nat, id: Uuid, status: Status)
    requires ValidPlan(plan) && Takes(plan, concurrency, run, steps) && n < |run| && status.Done()
    ensures HasStatus(run[n], id, status) <==> Recorded(steps, n, id, status)
  {
    if n == 0 {
    } else {
      FinalStatusIsLastRecord(plan, concurrency, run, steps, n - 1, id, status);
      TakenStep(plan, concurrency, run, steps, n - 1, id);
      RecordedStep(steps, n - 1, id, status);
      RecordingStep(plan, concurrency, run[n - 1], steps[n - 1], id, status);
    }
  }

  lemma TakenStep(plan: Plan, concurrency: nat, run: seq<State>, steps: seq<Step>, n: nat, id: Uuid)
    requires ValidPlan(plan) && Takes(plan, concurrency, run, steps) && n < |steps|
    ensures Enabled(plan, concurrency, run[n], steps[n])
    ensures id in run[n].jobs ==> StageOk(run[n].runner, id, run[n].jobs[id])
    ensures run[n + 1] == Apply(plan, concurrency, run[n], steps[n])
  {
    TakesIsRun(plan, concurrency, run, steps);
    RunInv(plan, concurrency, run, n);
    assert id in run[n].jobs ==> JobOk(run[n].runner, id, plan.specs[id], run[n].jobs[id]);
  }

  /**
   A job is never seen as succeeded unless one of its monitors said so.
   */
  lemma SucceededWasReported(plan: Plan, concurrency: nat, run: seq<State>, steps: seq<Step>, n: nat, id: Uuid)
    requires ValidPlan(plan) && Takes(plan, concurrency, run, steps) && n < |run|
    requires id in run[n].jobs && run[n].jobs[id].status == Succeeded
    ensures exists m :: 0 <= m < n
                     && (steps[m] == LogEnds(id, Some(Succeeded)) || steps[m] == ContainerEnds(id, Some(Succeeded)))
  {
    FinalStatusIsLastRecord(plan, concurrency, run, steps, n, id, Succeeded);
    var m: nat :| LastRecord(steps, n, m, id, Succeeded);
    assert Records(steps[m], id, Succeeded);
  }

  // -------- a failed start --------

  // Run has returned without any monitor: nothing is left that could write.
  predicate FailedToStart(job: Job) {
    job.status.Failed? && (job.stage.Returned? || job.stage.Released?) && !job.logOpen && !job.waitOpen
  }

  lemma WorkedOnFailed(concurrency: nat, s: State, job: Job, step: Step)
    requires WorkerStep(step) && EnabledFor(concurrency, s, job, step) && StageOk(s.runner, step.id, job)
    requires step.StartFails? || (step.LaunchFails? && step.wrote) || FailedToStart(job)
    ensures FailedToStart(WorkedOn(job, step))
  {
  }

  lemma HandledFailed(plan: Plan, concurrency: nat, s: State, step: Step)
    requires RunnerStep(step) && !step.NoneRunnable? && Enabled(plan, concurrency, s, step)
    requires StageOk(s.runner, step.id, s.jobs[step.id]) && FailedToStart(s.jobs[step.id])
    ensures FailedToStart(JobAfter(plan, s, step))
  {
  }

  lemma FailedToStartStep(plan: Plan, concurrency: nat, s: State, step: Step, id: Uuid)
    requires Enabled(plan, concurrency, s, step) && id in s.jobs && StageOk(s.runner, id, s.jobs[id])
    requires step == StartFails(id) || step == LaunchFails(id, true) || FailedToStart(s.jobs[id])
    ensures id in Apply(plan, concurrency, s, step).jobs
    ensures FailedToStart(Apply(plan, concurrency, s, step).jobs[id])
  {
    if !step.NoneRunnable? && !step.Submit? && step.id == id {
      if WorkerStep(step) {
        WorkedOnFailed(concurrency, s, s.jobs[id], step);
      } else {
        HandledFailed(plan, concurrency, s, step);
      }
    }
  }

  ghost predicate NeverStarts(s: State, id: Uuid) {
    id in s.jobs && FailedToStart(s.jobs[id])
  }

  lemma TakenFailure(plan: Plan, concurrency: nat, run: seq<State>, steps: seq<Step>, n: nat, id: Uuid)
    requires ValidPlan(plan) && Takes(plan, concurrency, run, steps) && n < |steps|
    requires steps[n] == StartFails(id) || steps[n] == LaunchFails(id, true) || NeverStarts(run[n], id)
    ensures NeverStarts(run[n + 1], id)
  {
    TakenStep(plan, concurrency, run, steps, n, id);
    FailedToStartStep(plan, concurrency, run[n], steps[n], id);
  }

  lemma {:induction false} NeverStartsAfter(plan: Plan, concurrency: nat, run: seq<State>, steps: seq<Step>,
                                            m: nat, n: nat, id: Uuid)
    requires ValidPlan(plan) && Takes(plan, concurrency, run, steps) && m < n < |run|
    requires steps[m] == StartFails(id) || steps[m] == LaunchFails(id, true)
    ensures NeverStarts(run[n], id)
    decreases n
  {
    if m < n - 1 {
      NeverStartsAfter(plan, concurrency, run, steps, m, n - 1, id);
    }
    TakenFailure(plan, concurrency, run, steps, n - 1, id);
  }

  /**
   Once creating or starting its container has failed, a job is failed for good.
   */
  lemma FailureStays(plan: Plan, concurrency: nat, run: seq<State>, steps: seq<Step>, m: nat, n: nat, id: Uuid)
    requires ValidPlan(plan) && Takes(plan, concurrency, run, steps) && m < n < |run|
    requires steps[m] == StartFails(id) || steps[m] == LaunchFails(id, true)
    ensures id in run[n].jobs && run[n].jobs[id].status == Failed
  {
    NeverStartsAfter(plan, concurrency, run, steps, m, n, id);
  }

  // -------- the monitors --------

  predicate EndsLog(step: Step, id: Uuid) {
    step.LogEnds? && step.id == id
  }

  predicate EndsWait(step: Step, id: Uuid) {
    step.ContainerEnds? && step.id == id
  }

  // The monitors of the job were started before moment n, and this one has not ended since.
  ghost predicate LogSince(steps: seq<Step>, n: nat, m: nat, id: Uuid) {
    m < n <= |steps| && steps[m] == Attach(id) && forall k | m < k < n :: !EndsLog(steps[k], id)
  }

  ghost predicate WaitSince(steps: seq<Step>, n: nat, m: nat, id: Uuid) {
    m < n <= |steps| && steps[m] == Attach(id) && forall k | m < k < n :: !EndsWait(steps[k], id)
  }

  ghost predicate LogRuns(steps: seq<Step>, n: nat, id: Uuid) {
    exists m: nat :: LogSince(steps, n, m, id)
  }

  ghost predicate WaitRuns(steps: seq<Step>, n: nat, id: Uuid) {
    exists m: nat :: WaitSince(steps, n, m, id)
  }

  ghost predicate LogIsOpen(s: State, id: Uuid) {
    id in s.jobs && s.jobs[id].logOpen
  }

  ghost predicate WaitIsOpen(s: State, id: Uuid) {
    id in s.jobs && s.jobs[id].waitOpen
  }

  lemma TouchedMonitors(plan: Plan, concurrency: nat, s: State, step: Step)
    requires Enabled(plan, concurrency, s, step) && !step.Submit? && !step.NoneRunnable?
    ensures var before, after := s.jobs[step.id], JobAfter(plan, s, step);
            && (after.logOpen <==> step.Attach? || (before.logOpen && !step.LogEnds?))
            && (after.waitOpen <==> step.Attach? || (before.waitOpen && !step.ContainerEnds?))
  {
  }

  lemma MonitorStep(plan: Plan, concurrency: nat, s: State, step: Step, id: Uuid)
    requires Enabled(plan, concurrency, s, step)
    ensures var t := Apply(plan, concurrency, s, step);
            && (LogIsOpen(t, id) <==> step == Attach(id) || (LogIsOpen(s, id) && !EndsLog(step, id)))
            && (WaitIsOpen(t, id) <==> step == Attach(id) || (WaitIsOpen(s, id) && !EndsWait(step, id)))
  {
    if !step.Submit? && !step.NoneRunnable? {
      TouchedMonitors(plan, concurrency, s, step);
    }
  }

  lemma LogRunsOn(steps: seq<Step>, n: nat, id: Uuid)
    requires n < |steps|
    ensures LogRuns(steps, n + 1, id) <==>
              steps[n] == Attach(id) || (LogRuns(steps, n, id) && !EndsLog(steps[n], id))
  {
    var next := n + 1;
    if steps[n] == Attach(id) {
      assert LogSince(steps, next, n, id);
    }
    if m: nat :| LogSince(steps, next, m, id) {
      assert m < n ==> LogSince(steps, n, m, id);
    }
    if m: nat :| LogSince(steps, n, m, id) {
      assert !EndsLog(steps[n], id) ==> LogSince(steps, next, m, id);
    }
  }

  lemma WaitRunsOn(steps: seq<Step>, n: nat, id: Uuid)
    requires n < |steps|
    ensures WaitRuns(steps, n + 1, id) <==>
              steps[n] == Attach(id) || (WaitRuns(steps, n, id) && !EndsWait(steps[n], id))
  {
    var next := n + 1;
    if steps[n] == Attach(id) {
      assert WaitSince(steps, next, n, id);
    }
    if m: nat :| WaitSince(steps, next, m, id) {
      assert m < n ==> WaitSince(steps, n, m, id);
    }
    if m: nat :| WaitSince(steps, n, m, id) {
      assert !EndsWait(steps[n], id) ==> WaitSince(steps, next, m, id);
    }
  }

  /**
   In every run a monitor is open exactly from the moment both were started until
   its own end.
   */
  lemma {:induction false} MonitorsRun(plan: Plan, concurrency: nat, run: seq<State>, steps: seq<Step>,
                                       n: nat, id: Uuid)
    requires Takes(plan, concurrency, run, steps) && n < |run|
    ensures LogIsOpen(run[n], id) <==> LogRuns(steps, n, id)
    ensures WaitIsOpen(run[n], id) <==> WaitRuns(steps, n, id)
  {
    if n == 0 {
    } else {
      MonitorsRun(plan, concurrency, run, steps, n - 1, id);
      LogRunsOn(steps, n - 1, id);
      WaitRunsOn(steps, n - 1, id);
      assert Enabled(plan, concurrency, run[n - 1], steps[n - 1]);
      MonitorStep(plan, concurrency, run[n - 1], steps[n - 1], id);
    }
  }
}
