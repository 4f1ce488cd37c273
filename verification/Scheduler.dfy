/**
 The Docker scheduler as a step system: submitting goroutines, the runner loop,
 one goroutine per started job, and the two monitors of a running container.
 Any enabled step may come next.
 */
module Scheduler {
  import opened JobStates
  import opened Manifests
  import opened Wrappers

  // The life of one message on the unbuffered event channel: its sender is
  // blocked from the moment it begins to send until the runner receives.
  datatype Message = Unsent | Blocked | Received

  // How far a job's own goroutine has come. It holds a limiter slot from
  // Launching to Returned.
  datatype Stage =
    | Queued     // not started
    | Launching  // no container yet
    | Created    // container created
    | Watching   // waiting for the log monitor
    | Returned   // Run has returned
    | Released   // slot given back

  datatype Job = Job(
    status: Status,
    stage: Stage,
    logOpen: bool,      // the log monitor has not ended
    waitOpen: bool,     // the container monitor has not ended
    added: Message,     // sent by AddJob
    wake: Message,      // sent for a job that a pass freed
    finished: Message,  // sent by the job's goroutine
    late: bool)         // history: was made pending when nothing held it up

  const NEW_JOB := Job(Submitted, Queued, false, false, Blocked, Unsent, Unsent, false)

  type Jobs = map<Uuid, Job>

  datatype Kind = AddedMsg | WakeMsg | FinishedMsg

  // Where the runner goroutine stands. freed are the wake-ups still to be sent.
  datatype Runner =
    | Selecting
    | Updating(todo: set<Uuid>, freed: seq<Uuid>)
    | Acquiring(job: Uuid, freed: seq<Uuid>)
    | Waking(freed: seq<Uuid>)
  {
    function Owed(): seq<Uuid> {
      if Selecting? then [] else freed
    }
  }

  datatype State = State(jobs: Jobs, runner: Runner)

  // The jobs to be submitted. earlier[id] are the jobs that the same submission
  // loop adds before id; each AddJob returns before the next one starts.
  datatype Plan = Plan(specs: Specs, earlier: map<Uuid, set<Uuid>>)

  ghost predicate ValidPlan(plan: Plan) {
    && plan.earlier.Keys == plan.specs.Keys
    && (forall id | id in plan.specs :: plan.earlier[id] <= plan.specs.Keys)
    && (forall id | id in plan.specs :: id !in plan.earlier[id])
    && (forall id, k | id in plan.specs && k in plan.earlier[id] :: plan.earlier[k] <= plan.earlier[id])
    && (forall j, k | j in plan.specs && k in plan.specs && plan.specs[j].submittedId == plan.specs[k].submittedId ::
          j == k)
  }

  // Dependencies point to earlier submissions only.
  ghost predicate DependsOnEarlier(plan: Plan)
    requires ValidPlan(plan)
  {
    forall id, k | DependencyOf(plan.specs, id, k) :: k in plan.earlier[id]
  }

  const INITIAL := State(map[], Selecting)

  function StatusesOf(jobs: Jobs): Statuses {
    map id | id in jobs :: jobs[id].status
  }

  predicate Holding(job: Job) {
    job.stage.Launching? || job.stage.Created? || job.stage.Watching? || job.stage.Returned?
  }

  // The goroutines that occupy the limiter.
  function Holders(jobs: Jobs): set<Uuid> {
    set id | id in jobs && Holding(jobs[id])
  }

  function MessageOf(job: Job, kind: Kind): Message {
    match kind
    case AddedMsg => job.added
    case WakeMsg => job.wake
    case FinishedMsg => job.finished
  }

  function Deliver(job: Job, kind: Kind): Job {
    match kind
    case AddedMsg => job.(added := Received)
    case WakeMsg => job.(wake := Received)
    case FinishedMsg => job.(finished := Received)
  }

  datatype Step =
    | Submit(id: Uuid)                                   // AddJob: queued, then sending
    | Receive(id: Uuid, kind: Kind)                      // the runner takes a message
    | Visit(id: Uuid)                                    // UpdateJobs looks at one job
    | Pick(id: Uuid)                                     // GetNextRunnable finds one
    | NoneRunnable                                       // GetNextRunnable finds none
    | Acquire(id: Uuid)                                  // the limiter has room: the goroutine starts
    | Wake(id: Uuid)                                     // a wake-up sender starts
    | LaunchFails(id: Uuid, wrote: bool)                 // Run returns before a container exists
    | Create(id: Uuid)                                   // container created, status written
    | StartFails(id: Uuid)
    | Attach(id: Uuid)                                   // both monitors start
    | LogEnds(id: Uuid, write: Option<Status>)
    | ContainerEnds(id: Uuid, write: Option<Status>)
    | Return(id: Uuid)                                   // the wait for the log monitor is over
    | Release(id: Uuid)                                  // slot freed, FINISHED being sent

  ghost predicate Enabled(plan: Plan, concurrency: nat, s: State, step: Step) {
    match step
    case Submit(id) =>
      && id in plan.specs && id !in s.jobs && id in plan.earlier
      && forall k | k in plan.earlier[id] :: k in s.jobs && s.jobs[k].added.Received?
    case NoneRunnable => PassMade(s.runner) && forall id | id in s.jobs :: !s.jobs[id].status.Runnable?
    case _ => step.id in s.jobs && step.id in plan.specs && EnabledFor(concurrency, s, s.jobs[step.id], step)
  }

  predicate EnabledFor(concurrency: nat, s: State, job: Job, step: Step)
    requires !step.Submit? && !step.NoneRunnable?
  {
    match step
    case Receive(id, kind) => s.runner.Selecting? && MessageOf(job, kind).Blocked?
    case Visit(id) => s.runner.Updating? && id in s.runner.todo
    case Pick(id) => PassMade(s.runner) && job.status.Runnable?
    case Acquire(id) => s.runner.Acquiring? && s.runner.job == id && |Holders(s.jobs)| < concurrency
    case Wake(id) => s.runner.Waking? && s.runner.freed != [] && s.runner.freed[0] == id
    case LaunchFails(id, _) => job.stage.Launching?
    case Create(id) => job.stage.Launching?
    case StartFails(id) => job.stage.Created?
    case Attach(id) => job.stage.Created?
    case LogEnds(id, write) => job.logOpen && (write.Some? ==> write.value.Done())
    case ContainerEnds(id, write) => job.waitOpen && (write.Some? ==> write.value.Done())
    case Return(id) => job.stage.Watching? && !job.logOpen
    case Release(id) => job.stage.Returned?
  }

  // UpdateJobs is over and GetNextRunnable comes next.
  predicate PassMade(runner: Runner) {
    runner.Updating? && runner.todo == {}
  }

  function AfterStart(freed: seq<Uuid>): Runner {
    if freed == [] then Selecting else Waking(freed)
  }

  function Written(status: Status, write: Option<Status>): Status {
    if write.Some? then write.value else status
  }

  // The visit makes a submitted job pending although none of its dependencies
  // is unfinished: no message need ever come to release it.
  ghost predicate TurnsLate(specs: Specs, jobs: Statuses, id: Uuid)
    requires id in jobs && id in specs
  {
    jobs[id].Submitted? && specs[id].dependsOn != [] && !Waits(specs, jobs, id)
  }

  // The steps of the runner goroutine; the others belong to the goroutines of a job.
  predicate RunnerStep(step: Step) {
    step.Receive? || step.Visit? || step.Pick? || step.NoneRunnable? || step.Acquire? || step.Wake?
  }

  predicate WorkerStep(step: Step) {
    !step.Submit? && !RunnerStep(step)
  }

  // What the step makes of the one job it touches.
  ghost function JobAfter(plan: Plan, s: State, step: Step): Job
    requires !step.Submit? && !step.NoneRunnable?
    requires step.id in s.jobs && step.id in plan.specs
  {
    if WorkerStep(step) then WorkedOn(s.jobs[step.id], step)
    else Handled(plan.specs, StatusesOf(s.jobs), s.jobs[step.id], step)
  }

  function WorkedOn(job: Job, step: Step): Job
    requires WorkerStep(step)
  {
    match step
    case LaunchFails(_, wrote) => job.(stage := Returned, status := if wrote then Failed else job.status)
    case Create(_) => job.(stage := Created, status := Running)
    case StartFails(_) => job.(stage := Returned, status := Failed)
    case Attach(_) => job.(stage := Watching, logOpen := true, waitOpen := true)
    case LogEnds(_, write) => job.(logOpen := false, status := Written(job.status, write))
    case ContainerEnds(_, write) => job.(waitOpen := false, status := Written(job.status, write))
    case Return(_) => job.(stage := Returned)
    case Release(_) => job.(stage := Released, finished := Blocked)
  }

  ghost function Handled(specs: Specs, statuses: Statuses, job: Job, step: Step): Job
    requires RunnerStep(step) && !step.NoneRunnable?
    requires step.id in statuses && step.id in specs
  {
    match step
    case Receive(_, kind) => Deliver(job, kind)
    case Visit(id) =>
      job.(status := Visited(specs, statuses, id), late := job.late || TurnsLate(specs, statuses, id))
    case Pick(_) => job.(status := Starting)
    case Acquire(_) => job.(stage := Launching)
    case Wake(_) => job.(wake := Blocked)
  }

  ghost function RunnerAfter(plan: Plan, concurrency: nat, s: State, step: Step): Runner
    requires Enabled(plan, concurrency, s, step)
  {
    match step
    case Receive(_, _) => Updating(s.jobs.Keys, [])
    case Visit(id) =>
      Updating(s.runner.todo - {id},
               if Freed(plan.specs, StatusesOf(s.jobs), id) then s.runner.freed + [id] else s.runner.freed)
    case Pick(id) => Acquiring(id, s.runner.freed)
    case NoneRunnable => Selecting
    case Acquire(id) => AfterStart(s.runner.freed)
    case Wake(id) => AfterStart(s.runner.freed[1..])
    case _ => s.runner
  }

  ghost function Apply(plan: Plan, concurrency: nat, s: State, step: Step): State
    requires Enabled(plan, concurrency, s, step)
  {
    var runner := RunnerAfter(plan, concurrency, s, step);
    match step
    case Submit(id) => State(s.jobs[id := NEW_JOB], runner)
    case NoneRunnable => State(s.jobs, runner)
    case _ => State(s.jobs[step.id := JobAfter(plan, s, step)], runner)
  }

  ghost predicate Next(plan: Plan, concurrency: nat, s: State, t: State) {
    exists step :: Enabled(plan, concurrency, s, step) && t == Apply(plan, concurrency, s, step)
  }

  // A run: the states visited from the start on.
  ghost predicate IsRun(plan: Plan, concurrency: nat, run: seq<State>) {
    && run != [] && run[0] == INITIAL
    && forall i | 0 < i < |run| :: Next(plan, concurrency, run[i - 1], run[i])
  }
}
