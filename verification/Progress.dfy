/** Every run is finite, with an explicit bound, and sends a bounded number of messages. */
module Progress {
  import opened JobStates
  import opened Manifests
  import opened Wrappers
  import opened Scheduler
  import opened SchedulerSafety
  import opened Totals
  import opened WakeUps

  // -------- the measure --------

  // What a job may still cause: its own steps, and the messages it will send.
  function JobWeight(job: Job): int {
    StageWeight(job) + OneIf(job.logOpen) + OneIf(job.waitOpen) + 2 * BlockedCount(job)
  }

  function StageWeight(job: Job): int {
    match job.stage
    case Launching => 8
    case Created => 7
    case Watching => 4
    case Returned => 3
    case Released => 0
    case Queued =>
      match job.status
      case Submitted => 13
      case Pending => 12
      case Runnable => 9
      case _ => 0
  }

  function RunnerWeight(runner: Runner): int {
    3 * |runner.Owed()| + OneIf(runner.Updating?) + 9 * OneIf(runner.Acquiring?)
  }

  // Jobs not yet submitted weigh most.
  ghost function Weights(plan: Plan, jobs: Jobs): map<Uuid, int> {
    map id | id in plan.specs :: if id in jobs then JobWeight(jobs[id]) else 16
  }

  ghost function Potential(plan: Plan, s: State): int {
    Total(Weights(plan, s.jobs)) + RunnerWeight(s.runner)
  }

  function TodoSize(runner: Runner): nat {
    if runner.Updating? then |runner.todo| else 0
  }

  ghost function Measure(plan: Plan, s: State): int {
    Potential(plan, s) * (|plan.specs| + 1) + TodoSize(s.runner)
  }

  lemma WorkedOnIsLighter(concurrency: nat, s: State, job: Job, step: Step)
    requires WorkerStep(step) && EnabledFor(concurrency, s, job, step)
    requires StageOk(s.runner, step.id, job) && (job.stage.Returned? ==> job.finished.Unsent?)
    ensures JobWeight(WorkedOn(job, step)) < JobWeight(job)
  {
  }

  lemma HandledIsLighter(plan: Plan, concurrency: nat, s: State, step: Step)
    requires RunnerStep(step) && !step.NoneRunnable? && !step.Visit? && Enabled(plan, concurrency, s, step)
    requires JobOk(s.runner, step.id, plan.specs[step.id], s.jobs[step.id])
    ensures JobWeight(Handled(plan.specs, StatusesOf(s.jobs), s.jobs[step.id], step))
              + RunnerWeight(RunnerAfter(plan, concurrency, s, step))
          < JobWeight(s.jobs[step.id]) + RunnerWeight(s.runner)
  {
  }

  lemma VisitIsNoHeavier(plan: Plan, concurrency: nat, s: State, id: Uuid)
    requires Enabled(plan, concurrency, s, Visit(id))
    requires JobOk(s.runner, id, plan.specs[id], s.jobs[id])
    ensures JobWeight(Handled(plan.specs, StatusesOf(s.jobs), s.jobs[id], Visit(id)))
              + RunnerWeight(RunnerAfter(plan, concurrency, s, Visit(id)))
         <= JobWeight(s.jobs[id]) + RunnerWeight(s.runner)
  {
  }

  lemma WeightsUpdate(plan: Plan, jobs: Jobs, id: Uuid, job: Job)
    requires id in plan.specs
    ensures Total(Weights(plan, jobs[id := job]))
         == Total(Weights(plan, jobs)) + JobWeight(job) - if id in jobs then JobWeight(jobs[id]) else 16
  {
    assert Weights(plan, jobs[id := job]) == Weights(plan, jobs)[id := JobWeight(job)];
    TotalUpdate(Weights(plan, jobs), id, JobWeight(job));
  }

  lemma PotentialFalls(plan: Plan, concurrency: nat, s: State, step: Step)
    requires Inv(plan, concurrency, s) && Enabled(plan, concurrency, s, step)
    ensures var t := Apply(plan, concurrency, s, step);
            if step.Visit? then Potential(plan, t) <= Potential(plan, s)
            else Potential(plan, t) < Potential(plan, s)
  {
    if step.Submit? {
      WeightsUpdate(plan, s.jobs, step.id, NEW_JOB);
    } else if !step.NoneRunnable? {
      WeightsUpdate(plan, s.jobs, step.id, JobAfter(plan, s, step));
      assert JobOk(s.runner, step.id, plan.specs[step.id], s.jobs[step.id]);
      if WorkerStep(step) {
        WorkedOnIsLighter(concurrency, s, s.jobs[step.id], step);
      } else if step.Visit? {
        VisitIsNoHeavier(plan, concurrency, s, step.id);
      } else {
        HandledIsLighter(plan, concurrency, s, step);
      }
    }
  }

  lemma Lexicographic(a: int, b: int, n: nat, x: nat, y: nat)
    requires x <= n && y <= n && (b < a || (b == a && y < x))
    ensures b * (n + 1) + y < a * (n + 1) + x
  {
    if b < a {
      assert b * (n + 1) <= (a - 1) * (n + 1) == a * (n + 1) - (n + 1);
    }
  }

  lemma TodoFits(plan: Plan, concurrency: nat, s: State)
    requires Inv(plan, concurrency, s)
    ensures TodoSize(s.runner) <= |plan.specs|
  {
    if s.runner.Updating? {
      SubsetSize(s.runner.todo, plan.specs.Keys);
    }
  }

  // Less potential, or as much of it and fewer jobs to visit.
  ghost predicate Lighter(plan: Plan, t: State, s: State) {
    || Potential(plan, t) < Potential(plan, s)
    || (Potential(plan, t) == Potential(plan, s) && TodoSize(t.runner) < TodoSize(s.runner))
  }

  lemma LighterIsSmaller(plan: Plan, t: State, s: State)
    requires Lighter(plan, t, s)
    requires TodoSize(t.runner) <= |plan.specs| && TodoSize(s.runner) <= |plan.specs|
    ensures Measure(plan, t) < Measure(plan, s)
  {
    Lexicographic(Potential(plan, s), Potential(plan, t), |plan.specs|, TodoSize(s.runner), TodoSize(t.runner));
  }

  lemma StepIsLighter(plan: Plan, concurrency: nat, s: State, step: Step)
    requires Inv(plan, concurrency, s) && Enabled(plan, concurrency, s, step)
    ensures Lighter(plan, Apply(plan, concurrency, s, step), s)
  {
    PotentialFalls(plan, concurrency, s, step);
  }

  /**
   Every step, submissions included, makes the measure smaller.
   */
  lemma MeasureFalls(plan: Plan, concurrency: nat, s: State, step: Step)
    requires Inv(plan, concurrency, s) && Enabled(plan, concurrency, s, step)
    ensures Measure(plan, Apply(plan, concurrency, s, step)) < Measure(plan, s)
  {
    var t := Apply(plan, concurrency, s, step);
    InvStep(plan, concurrency, s, step);
    StepIsLighter(plan, concurrency, s, step);
    TodoFits(plan, concurrency, s);
    TodoFits(plan, concurrency, t);
    LighterIsSmaller(plan, t, s);
  }

  lemma PotentialIsNatural(plan: Plan, s: State)
    ensures Potential(plan, s) >= 0 && Measure(plan, s) >= 0
  {
    TotalNonNegative(Weights(plan, s.jobs));
  }

  lemma {:induction false} RunMeasure(plan: Plan, concurrency: nat, run: seq<State>, n: nat)
    requires ValidPlan(plan) && IsRun(plan, concurrency, run) && n < |run|
    ensures Measure(plan, run[n]) + n <= Measure(plan, INITIAL)
  {
    if n == 0 {
    } else {
      RunMeasure(plan, concurrency, run, n - 1);
      var step := StepBefore(plan, concurrency, run, n);
      MeasureFalls(plan, concurrency, run[n - 1], step);
    }
  }

  ghost function Sixteens(keys: set<Uuid>): map<Uuid, int> {
    map k | k in keys :: 16
  }

  lemma {:induction false} TotalOfSixteens(keys: set<Uuid>)
    ensures Total(Sixteens(keys)) == 16 * |keys|
  {
    if keys == {} {
    } else {
      var k :| k in keys;
      TotalSplit(Sixteens(keys), k);
      TotalOfSixteens(keys - {k});
      assert Sixteens(keys) - {k} == Sixteens(keys - {k});
    }
  }

  lemma InitialMeasure(plan: Plan)
    ensures Measure(plan, INITIAL) == 16 * |plan.specs| * (|plan.specs| + 1)
  {
    TotalOfSixteens(plan.specs.Keys);
    assert Weights(plan, INITIAL.jobs) == Sixteens(plan.specs.Keys);
    assert |plan.specs.Keys| == |plan.specs|;
  }

  /**
   A run that submits n jobs takes at most 16 n (n + 1) steps.
   */
  lemma RunsAreFinite(plan: Plan, concurrency: nat, run: seq<State>)
    requires ValidPlan(plan) && IsRun(plan, concurrency, run)
    ensures |run| - 1 <= 16 * |plan.specs| * (|plan.specs| + 1)
  {
    RunMeasure(plan, concurrency, run, |run| - 1);
    PotentialIsNatural(plan, run[|run| - 1]);
    InitialMeasure(plan);
  }

  // -------- messages --------

  function SentCount(job: Job): int {
    OneIf(!job.added.Unsent?) + OneIf(!job.wake.Unsent?) + OneIf(!job.finished.Unsent?)
  }

  function SentCounts(jobs: Jobs): map<Uuid, int> {
    map id | id in jobs :: SentCount(jobs[id])
  }

  predicate SendingStep(step: Step) {
    step.Submit? || step.Wake? || step.Release?
  }

  lemma SentByJob(plan: Plan, concurrency: nat, s: State, step: Step)
    requires Enabled(plan, concurrency, s, step) && !step.Submit? && !step.NoneRunnable?
    requires JobOk(s.runner, step.id, plan.specs[step.id], s.jobs[step.id])
    ensures SentCount(JobAfter(plan, s, step)) == SentCount(s.jobs[step.id]) + OneIf(SendingStep(step))
  {
  }

  lemma SentUpdate(jobs: Jobs, id: Uuid, job: Job)
    ensures Total(SentCounts(jobs[id := job]))
         == Total(SentCounts(jobs)) + SentCount(job) - if id in jobs then SentCount(jobs[id]) else 0
  {
    assert SentCounts(jobs[id := job]) == SentCounts(jobs)[id := SentCount(job)];
    TotalUpdate(SentCounts(jobs), id, SentCount(job));
  }

  // A message is counted once, when its sending begins, and never sent again.
  lemma SentStep(plan: Plan, concurrency: nat, s: State, step: Step)
    requires Inv(plan, concurrency, s) && Enabled(plan, concurrency, s, step)
    ensures Total(SentCounts(Apply(plan, concurrency, s, step).jobs))
         == Total(SentCounts(s.jobs)) + OneIf(SendingStep(step))
  {
    if !step.NoneRunnable? {
      SentUpdate(s.jobs, step.id, Apply(plan, concurrency, s, step).jobs[step.id]);
      if !step.Submit? {
        assert JobOk(s.runner, step.id, plan.specs[step.id], s.jobs[step.id]);
        SentByJob(plan, concurrency, s, step);
      }
    }
  }

  // The sending steps of a run, given by the steps it takes.
  ghost predicate Takes(plan: Plan, concurrency: nat, run: seq<State>, steps: seq<Step>) {
    && |run| == |steps| + 1 && run[0] == INITIAL
    && forall i | 0 <= i < |steps| ::
         Enabled(plan, concurrency, run[i], steps[i]) && run[i + 1] == Apply(plan, concurrency, run[i], steps[i])
  }

  function Sends(steps: seq<Step>): int {
    if steps == [] then 0 else Sends(steps[..|steps| - 1]) + OneIf(SendingStep(steps[|steps| - 1]))
  }

  lemma TakesIsRun(plan: Plan, concurrency: nat, run: seq<State>, steps: seq<Step>)
    requires Takes(plan, concurrency, run, steps)
    ensures IsRun(plan, concurrency, run)
  {
    forall i | 0 < i < |run|
      ensures Next(plan, concurrency, run[i - 1], run[i])
    {
      assert Enabled(plan, concurrency, run[i - 1], steps[i - 1]);
    }
  }

  lemma {:induction false} SendsAreCounted(plan: Plan, concurrency: nat, run: seq<State>, steps: seq<Step>)
    requires ValidPlan(plan) && Takes(plan, concurrency, run, steps)
    ensures Sends(steps) == Total(SentCounts(run[|steps|].jobs))
    decreases |steps|
  {
    if steps == [] {
    } else {
      var n := |steps| - 1;
      assert Takes(plan, concurrency, run[..n + 1], steps[..n]);
      SendsAreCounted(plan, concurrency, run[..n + 1], steps[..n]);
      TakesIsRun(plan, concurrency, run, steps);
      RunInv(plan, concurrency, run, n);
      SentStep(plan, concurrency, run[n], steps[n]);
    }
  }

  ghost function WithDependencies(plan: Plan): set<Uuid> {
    set id | id in plan.specs && plan.specs[id].dependsOn != []
  }

  // The most messages a submitted job can account for.
  ghost function Allowance(plan: Plan, id: Uuid): int
    requires id in plan.specs
  {
    2 + OneIf(id in WithDependencies(plan))
  }

  ghost function Allowances(plan: Plan, keys: set<Uuid>): map<Uuid, int>
    requires keys <= plan.specs.Keys
  {
    map id | id in keys :: Allowance(plan, id)
  }

  lemma {:induction false} AllowancesTotal(plan: Plan, keys: set<Uuid>)
    requires keys <= plan.specs.Keys
    ensures Total(Allowances(plan, keys)) == 2 * |keys| + |WithDependencies(plan) * keys|
  {
    if keys == {} {
    } else {
      var k :| k in keys;
      TotalSplit(Allowances(plan, keys), k);
      AllowancesTotal(plan, keys - {k});
      assert Allowances(plan, keys) - {k} == Allowances(plan, keys - {k});
      CommonWithout(WithDependencies(plan), keys, k);
    }
  }

  lemma CommonWithout(d: set<Uuid>, keys: set<Uuid>, k: Uuid)
    requires k in keys
    ensures |d * keys| == |d * (keys - {k})| + OneIf(k in d)
    ensures |keys| == |keys - {k}| + 1
  {
    if k in d {
      assert d * keys == d * (keys - {k}) + {k};
    } else {
      assert d * keys == d * (keys - {k});
    }
  }

  lemma {:induction false} TotalMonotone(m: map<Uuid, int>, bound: map<Uuid, int>)
    requires m.Keys <= bound.Keys
    requires forall k | k in m :: m[k] <= bound[k]
    requires forall k | k in bound :: bound[k] >= 0
    ensures Total(m) <= Total(bound)
    decreases |bound|
  {
    if bound == map[] {
    } else {
      var k :| k in bound;
      TotalSplit(bound, k);
      if k in m {
        TotalSplit(m, k);
      } else {
        assert m - {k} == m;
      }
      TotalMonotone(m - {k}, bound - {k});
    }
  }

  lemma SentByJobIsBounded(plan: Plan, runner: Runner, id: Uuid, job: Job)
    requires id in plan.specs && JobOk(runner, id, plan.specs[id], job)
    ensures SentCount(job) <= Allowance(plan, id)
  {
  }

  lemma EachSentIsBounded(plan: Plan, concurrency: nat, s: State)
    requires Inv(plan, concurrency, s)
    ensures forall id | id in s.jobs :: id in plan.specs && SentCount(s.jobs[id]) <= Allowance(plan, id)
  {
    forall id | id in s.jobs
      ensures SentCount(s.jobs[id]) <= Allowance(plan, id)
    {
      assert JobOk(s.runner, id, plan.specs[id], s.jobs[id]);
      SentByJobIsBounded(plan, s.runner, id, s.jobs[id]);
    }
  }

  lemma SentIsBounded(plan: Plan, jobs: Jobs)
    requires forall id | id in jobs :: id in plan.specs && SentCount(jobs[id]) <= Allowance(plan, id)
    ensures Total(SentCounts(jobs)) <= 2 * |plan.specs| + |WithDependencies(plan)|
  {
    TotalMonotone(SentCounts(jobs), Allowances(plan, plan.specs.Keys));
    AllowancesTotal(plan, plan.specs.Keys);
    assert WithDependencies(plan) * plan.specs.Keys == WithDependencies(plan);
    assert |plan.specs.Keys| == |plan.specs|;
  }

  /**
   Over a whole run of n jobs, d of them with dependencies, at most 2 n + d
   messages are ever sent.
   */
  lemma MessagesAreBounded(plan: Plan, concurrency: nat, run: seq<State>, steps: seq<Step>)
    requires ValidPlan(plan) && Takes(plan, concurrency, run, steps)
    ensures Sends(steps) <= 2 * |plan.specs| + |WithDependencies(plan)|
  {
    TakesIsRun(plan, concurrency, run, steps);
    RunInv(plan, concurrency, run, |steps|);
    SendsAreCounted(plan, concurrency, run, steps);
    EachSentIsBounded(plan, concurrency, run[|steps|]);
    SentIsBounded(plan, run[|steps|].jobs);
  }
}
