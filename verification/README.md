# Verification model of cloudcompute

This project models how cloudcompute turns an event into jobs and runs them, and proves
what the ordering, submission, scheduling and naming code promises. `dafny verify
dfyconfig.toml` checks all of it.

| modules | what they model |
|---|---|
| `Digraph`, `TopologicalSort` | Kahn's algorithm of `sort.go` over a map read in any order, proved against paths and cycles |
| `Manifests`, `EventSort`, `EventOrder` | the dependency graph of an event, `TopoSort`, `SortManifests`, and what a sort keeps and loses |
| `JobStates`, `JobQueue` | the in-memory job queue of the Docker provider: status pass, dependency lookup, next runnable job |
| `Scheduler`, `SchedulerSafety`, `WakeUps`, `DependencyOrder`, `Progress`, `StatusWrites`, `Quiescence`, `Liveness`, `Awaited`, `LastJob`, `DependentPair`, `AllFinish`, `QueueRefinement`, `Totals` | the Docker scheduler as a step system, and safety, conservation, termination and liveness over all its runs |
| `Submission`, `Batches`, `SubmissionLimit`, `EndToEnd` | submission and dependency mapping, the plans that several events make, the limit on events submitted at once, and the theorems that join sorting, submission and scheduling |
| `Generators`, `Streaming`, `SplitAt`, `Barrier` | event sources, the driver loop of `RunParallel`, the delimiter split, and the semaphore of `ConcurrentRunner` |
| `KeyValues`, `Decimal`, `Slugs`, `WorkflowNames` | environment lists, and the names of Argo workflows |
| `UuidText`, `JobNames` | UUID text (RFC 9562, section 4), the job-name format and its two parsers |

## How the scheduler is modelled

A state holds one record per submitted job (status, stage of its goroutine, the two
monitors, and the life of each message it may send on the unbuffered event channel) and the
position of the runner loop. Any enabled step may come next: a submission; the receipt of a
message; one visit of the status pass (the pass is *not* atomic: container goroutines may
write statuses between two visits, and so may submissions); taking a runnable job; acquiring
the limiter; starting a wake-up sender; every status write of the runner and of the two
container monitors; releasing the slot. A job blocked in a send is a sender `Blocked`.

A plan gives the jobs to be submitted and, for each, the jobs that the same submission loop
adds before it, because `AddJob` returns only after its message was received. How loops of
different events may overlap is a limit on runs (`SubmissionLimit.IsLimitedRun`): events are
dispatched in order, and a job may be submitted only if fewer than `limit` earlier events still
have an `AddJob` to come. Safety is proved for all runs, with or without a limit.

All results rest on one premise that the code does not enforce: `NewRunner` succeeds and
`Terminate` is not called. The steps that would break it are not in the model. Safety needs it
too: a `Terminate` before `providers/docker/docker-runner.go:109` writes a final status that the
next line takes back.

Beyond that, safety (`SchedulerSafety`, `WakeUps`, `DependencyOrder`, `Progress`, `StatusWrites`,
`EndToEnd.EventRunsInOrder`) assumes nothing about containers. Liveness (`Quiescence`, `Liveness`,
`Awaited`, `LastJob`, `DependentPair`, `AllFinish`, `SubmissionLimit`) needs two more premises that
the code does not always meet, stated as the predicate `Quiescence.Faithful`:

- a failing image pull or configuration records a final status (it does not at
  `providers/docker/docker-runner.go:86-99`), and the log monitor does not end before the
  container monitor has recorded one (`providers/docker/docker-monitor.go:56-107`);
- containers stop, with an exit code.

## Findings

- **A job can stay pending for ever.** The status pass makes a submitted job with
  dependencies `Pending` without looking at them. If they have all finished by then, only
  another message can release it, and the last job of a submission may not get one. Every job is
  sure to finish exactly if each job with dependencies is followed by another of its submission,
  or there are just two jobs and both have some (`AllFinish.AlwaysFinishesIff`, for all plans,
  with resolved and unresolved dependencies). `AllFinish.LastCanBeLeft` builds the run, within
  the premises, in which a job is left.
- **For events this depends on how many are submitted at once.** `Run` is `RunParallel(1)`
  (`cloudcompute.go:58-60`): the jobs of an event come after all jobs of the events before it,
  so only the last event that submits anything has to end with a job without dependencies. With
  a limit above 1 every event has to (`SubmissionLimit.LimitedFinishesIff`; two jobs in all are
  excepted again). An event with
  dependencies that `SortManifests` orders without loss always ends with a job that has some;
  so with `Run` it can be left unfinished if no later event submits anything, and with a limit
  above 1 in any case (`EndToEnd.SortedEventMayNotFinish`).
- **SortManifests loses isolated manifests.** A manifest that depends on nothing and that
  nothing depends on is replaced by a zero value, and success is reported.
  `EventOrder.SortIsPermutation` gives the exact condition and `EventOrder.IsolatedManifestIsLost`
  an event of three manifests. An event in which no manifest names a dependency is reported as an
  error and left as it was.
- **A stream whose last token is blank makes the driver spin.** `continue` skips the break
  (`cloudcompute.go:79-82`, `cloudcompute.go:212-215`). `Streaming.LoopEndsIffLastTokenIsNotBlank`
  is exact; `Streaming.TrailingNewlineSpins` is a file `1,\n` split at commas.
- **Workflow names of an array can collide.** The slug drops the sign of the identifier, so a
  range that holds a number and its negation gives equal names; `WorkflowNames.ArrayNamesDistinct`
  shows that no other range does.
- **Job names parse exactly when the profile holds no UUID text of its own** (`JobNames.ParseRoundTrip`).
- The two dependency mappings differ when several jobs of an event were made for one manifest id:
  one takes the last before the job, the other the first of all (`Submission.MappingsAgree`).

## Reading conventions

UUIDs are natural numbers of which equality and the zero value matter; `UuidText.Text` is their
text. Fresh ids, which the code draws with `uuid.New`, are parameters required never to have been
used. Every map iteration takes an arbitrary remaining key. Go bytes are characters here: the slug,
the split function and the parser compare single bytes only, and a run of bytes outside ASCII gives
one hyphen whether it is read as bytes or as characters. The names of two environment variables that
matter (`CC_EVENT_IDENTIFIER`, `CC_MANIFEST_ID`) and of three others are declared in the cc-go-sdk
module, which is not part of this model; only that they differ is used.

## Model

| member | source | states |
|---|---|---|
| TopologicalSort.Sort | sort.go:85-121 | for every reading order of the map: no duplicates, tails before heads, the order holds exactly the nodes that lie neither on nor below a cycle, and the error is returned exactly if there is a directed cycle (self-loops included) |
| TopologicalSort.CountIndegrees | sort.go:86-93 | the table has a key exactly for each node some edge enters, with the number of edges, repeated ones counted |
| TopologicalSort.FindSources | sort.go:95-100 | the first work list holds, once each, the nodes with a list that no edge enters |
| TopologicalSort.PayEdges | sort.go:107-112 | paying the edges of a popped node queues each head once, when its last owed edge is paid, and no count is taken below what is owed |
| TopologicalSort.PopAndPay | sort.go:103-113 | each pop keeps the order tails-first, moves one new node into it, and leaves fewer nodes to order |
| TopologicalSort.SortingEnds | sort.go:102-120 | when the work list is empty, a positive count remains exactly if the graph has a cycle |
| Digraph.FinishedOrder | sort.go:102-120 | any duplicate-free tails-first list that can no longer grow holds exactly the nodes no cycle reaches, and all nodes exactly if the graph is acyclic |
| Digraph.ListedIsClearOfCycles | sort.go:102-113 | a tails-first list holds nothing on or below a cycle |
| Digraph.UnlistedIsOnOrBelowCycle | sort.go:115-119 | what an exhausted list leaves out lies on or below a cycle |
| Manifests.DepsToGraph | sort.go:69-81 | the graph built in place maps each id depended on to the manifests naming it, in list order, once per naming |
| Manifests.GraphEdges | sort.go:69-81 | its edges are exactly the declared dependencies |
| Manifests.GraphNodes | sort.go:69-81 | its nodes are the ids depended on and the manifests with dependencies: isolated manifests are no nodes, dangling ids are |
| Manifests.DependentsReadOff | sort.go:69-81 | the list of an id has one entry for each place in a dependency list that names it, with the id of the manifest there, from the first place to the last |
| EventSort.GetManifest | eventgenerator.go:374-381 | the first manifest of the list with the id, or none exactly if no manifest has it |
| EventSort.Lookup | eventgenerator.go:374-381 | a manifest found belongs to the list and has the id; none is found exactly if no manifest has it |
| EventSort.SlotExists | sort.go:55-61 | the slice write is in range for every event, duplicate and unknown ids included |
| EventSort.Event.TopoSort | sort.go:32-38 | refused exactly if no manifest names a dependency; otherwise the order of the event's graph, with the error exactly on a cycle |
| EventSort.Event.SortManifests | sort.go:48-65 | every outcome decided by the manifests: unchanged on each error, an error at an index below the manifest count for each acyclic event with a dangling dependency, else an arrangement |
| EventSort.Event.Reorder | sort.go:55-63 | given an order, the filled slice lists the ordered manifests and then zero values, or the first unknown id ends it with the event unchanged |
| EventOrder.SortedEventIsInOrder | sort.go:48-65 | on closed acyclic dependencies the event is left with every dependency before its dependents, whatever is answered |
| EventOrder.ArrangedDependenciesFirst | sort.go:55-62 | an arranged list has every dependency before its dependents |
| EventOrder.ArrangedParts | sort.go:55-62 | with unique ids: the non-isolated manifests, then exactly as many zero values (id zero, no dependencies, empty plugin) as there are isolated ones |
| EventOrder.SortIsPermutation | sort.go:48-65 | a successful sort keeps the manifests exactly if every isolated one already was the zero value |
| EventOrder.SortedEventEndsDependent | sort.go:48-65 | a sorted event that loses nothing ends with a manifest that has dependencies |
| EventOrder.IsolatedManifestIsLost | sort.go:48-65 | a concrete event that loses a manifest while success is reported |
| JobStates.VisitsCommute | providers/docker/job-queue.go:67-88 | a visit reads the same dependency state whichever visits were made before it in the pass |
| JobStates.PassIsOrderIndependent | providers/docker/job-queue.go:56-90 | the in-place pass equals one simultaneous update, in any order of the map |
| JobQueue.InMemoryJobQueue.Add | providers/docker/job-queue.go:37-42 | the queue gains or replaces the entry of the job's id and nothing else |
| JobQueue.InMemoryJobQueue.FindSubmitted | providers/docker/job-queue.go:129-133 | the queued job with the submitted id, or none if no queued job has it |
| JobQueue.InMemoryJobQueue.GetJobDeps | providers/docker/job-queue.go:123-136 | position by position the queued job with that submitted id, nil exactly where there is none |
| JobQueue.InMemoryJobQueue.HasUnfinishedDependencies | providers/docker/job-queue.go:147-162 | true exactly if some resolved dependency is neither succeeded nor failed |
| JobQueue.InMemoryJobQueue.IsWaiting | providers/docker/job-queue.go:77-79 | the lookup and the scan together decide whether some queued dependency is unfinished |
| JobQueue.InMemoryJobQueue.VisitJob | providers/docker/job-queue.go:68-87 | one visit changes this job's status only, and reports it freed exactly if it was pending with nothing unfinished |
| JobQueue.InMemoryJobQueue.CollectJobs | providers/docker/job-queue.go:59-65 | every queued job once |
| JobQueue.InMemoryJobQueue.VisitAll | providers/docker/job-queue.go:67-88 | the loop of visits, tied to the state it started from |
| JobQueue.InMemoryJobQueue.UpdateJobs | providers/docker/job-queue.go:56-90 | the statuses become the simultaneous update of those found; the ids returned are, once each, the pending jobs that waited for nothing when it started |
| JobQueue.InMemoryJobQueue.GetNextRunnable | providers/docker/job-queue.go:92-102 | nil exactly if no job was runnable; otherwise a runnable job, now starting, and nothing else changed |
| QueueRefinement.PassRefinesUpdateJobs | providers/docker/docker-compute-manager.go:80-82 | undisturbed visits of the step system, in any order, do what UpdateJobs is proved to do |
| QueueRefinement.TakingRefinesNextRunnable | providers/docker/docker-compute-manager.go:84-87 | after the pass, the outcomes that the contract of GetNextRunnable allows are exactly those of the enabled pick and continue steps |
| QueueRefinement.SubmittingRefinesAddJob | providers/docker/docker-compute-manager.go:71-74 | the outcome that the contract of AddJob allows is exactly that of the submission step |
| SchedulerSafety.InvStep | providers/docker/docker-compute-manager.go:71-128 | every step keeps the agreement of status, stage, messages and runner position of every job |
| SchedulerSafety.RankNeverFalls | providers/docker/docker-runner.go:85-124 | no step of any goroutine takes a job back to an earlier status rank; which final status a step writes is stated by the `StatusWrites` rows |
| SchedulerSafety.RunRanks | providers/docker/docker-compute-manager.go:71-128 | between any two moments of a run no job is lost and no rank falls, so a finished job stays finished |
| SchedulerSafety.RunInv | providers/docker/docker-compute-manager.go:71-128 | the invariant, and at most `concurrency` slot holders, in every reachable state |
| SchedulerSafety.HoldersStep | providers/docker/docker-compute-manager.go:88-93 | the slot holders change only by one on acquire and one on release |
| SchedulerSafety.StartedOnce | providers/docker/docker-compute-manager.go:84-114 | each job is started at most once in a run |
| SchedulerSafety.Limiter | providers/docker/docker-compute-manager.go:88-93 | at most `concurrency` holders, at most `concurrency` + 1 jobs taken and unreleased, and the runner is blocked on the limiter exactly if all slots are held |
| WakeUps.ConservedStep | providers/docker/docker-compute-manager.go:76-120 | no step loses a wake-up: senders, owed wake-ups and the message in hand always cover the jobs that need one |
| WakeUps.ContinueDropsNothing | providers/docker/docker-compute-manager.go:82-87 | when the pass finds nothing runnable the list of freed ids is empty |
| WakeUps.WakeUpConservation | providers/docker/docker-compute-manager.go:71-120 | in every reachable state the runnable jobs and the dependency-free submitted jobs are at most the messages in flight, and every submitted job has its own message outstanding or its visit due |
| WakeUps.ContinueIsHarmless | providers/docker/docker-compute-manager.go:85-87 | over whole runs, the continue is taken only when no pending wake-up would be dropped |
| DependencyOrder.LeavingIsCleared | providers/docker/job-queue.go:76-85 | only a job without dependencies, or one whose queued dependencies have all finished, leaves the waiting statuses |
| DependencyOrder.InOrderStep | providers/docker/docker-compute-manager.go:71-128 | every step keeps: whatever has left the waiting statuses has all its dependencies finished |
| DependencyOrder.StartsAfterDependencies | providers/docker/docker-compute-manager.go:71-128 | once a job is started in a run, every job it depends on has finished, then and later |
| Progress.PotentialFalls | providers/docker/docker-compute-manager.go:76-120 | each step except a visit lowers the weighted sum of job stages and messages, and a visit does not raise it |
| Progress.MeasureFalls | providers/docker/docker-compute-manager.go:76-120 | every step, submissions included, lowers the measure |
| Progress.RunsAreFinite | providers/docker/docker-compute-manager.go:71-128 | a run over n jobs has at most 16 n (n + 1) steps |
| Progress.SendsAreCounted | providers/docker/docker-compute-manager.go:73-119 | the sends of a run are counted by the message states of its jobs: none is sent twice |
| Progress.MessagesAreBounded | providers/docker/docker-compute-manager.go:73-119 | at most 2n + d messages over a run of n jobs, d of them with dependencies |
| StatusWrites.StepWrites | providers/docker/docker-runner.go:85-124 | the status of every job after a step, read off the step: running on creation, failed on a failed creation or start, what a monitor writes at its end, starting when picked, and otherwise only the pass takes a waiting job on |
| StatusWrites.NewIsSubmitted | providers/docker/docker-compute-provider.go:116-121 | a job enters the queue only by its own submission, as submitted |
| StatusWrites.FinalStatusIsLastRecord | providers/docker/docker-monitor.go:56-107 | over every run: a job has a final status exactly if a monitor's end or a failed start recorded one for it, and then it is the one recorded last |
| StatusWrites.SucceededWasReported | providers/docker/docker-monitor.go:56-107 | a job that is succeeded at a moment of a run has an earlier end of its log or container monitor that wrote succeeded |
| StatusWrites.FailureStays | providers/docker/docker-runner.go:101-120 | after a recorded failure to create or start the container the job is failed at every later moment |
| StatusWrites.MonitorsRun | providers/docker/docker-monitor.go:50-107 | over every run: the log monitor and the container monitor are open exactly from the moment both were started until the end of each |
| Quiescence.AttendedStep | providers/docker/docker-monitor.go:56-117 | under the premises, a job whose goroutine has returned is final and an unfinished watched one still has its container monitor |
| Quiescence.VisitingStep | providers/docker/job-queue.go:72-87 | under the premises, a pending job that was held up when it became pending will be visited again after its last dependency finishes |
| Quiescence.NoDeadlock | providers/docker/docker-compute-manager.go:76-120 | while a message is owed, the runner is busy or a slot is held, some step other than a submission is enabled, and one within the premises in a run within them |
| Quiescence.QuietRun | providers/docker/docker-compute-manager.go:71-128 | when nothing is going on, every unfinished job is pending and waits through a chain of pending jobs for one that was made pending when nothing held it up |
| Quiescence.FinalState | providers/docker/docker-compute-manager.go:71-128 | a run that can go no further within the premises has submitted every job, and has finished every job exactly if no late job is still pending |
| Liveness.LookingStep | providers/docker/job-queue.go:67-88 | every step keeps: once a later job of the same submission was heard of, an earlier one has been visited and, if pending, waits for somebody or is about to be visited again |
| Liveness.EndsFreeFinishes | providers/docker/docker-compute-manager.go:71-128 | if every job with dependencies is followed by another of its submission, a run within the premises that can go no further has finished every job |
| Awaited.LastHeardHasHope | providers/docker/job-queue.go:67-88 | in the pass after the last of several jobs was heard of, another job is at work, or will be started at the end of the pass |
| Awaited.TurningPending | providers/docker/job-queue.go:72-75 | a job made pending is not forgotten, if it is not the only one and somebody stays at work: a message of a job it waits for, of a job started or about to start, or of a job yet to be added is still to come |
| LastJob.KeptStep | providers/docker/docker-compute-manager.go:71-128 | steps that give slots back only when needed keep: no pending job is forgotten, and the scheduler stays busy until all other jobs have been visited |
| LastJob.RunToRest | providers/docker/docker-compute-manager.go:71-128 | for a job that none follows, unless the only other one has dependencies too, there is a run within the premises up to a moment where only this job is still to be submitted and nothing goes on |
| LastJob.RestIsDone | providers/docker/docker-compute-manager.go:71-128 | at that moment every submitted job has finished |
| DependentPair.PairFinishes | providers/docker/job-queue.go:72-85 | two jobs that both have dependencies always finish: the message of the second frees the first |
| AllFinish.LastCanBeLeft | providers/docker/job-queue.go:72-75 | a job with dependencies that none follows, unless the only other one has dependencies too, can be left pending for ever, with every other job finished and no step left |
| AllFinish.AlwaysFinishesIff | providers/docker/docker-compute-manager.go:71-128 | every interleaving finishes every job exactly if no submission ends with a job that has dependencies, or there are just two jobs and both have some |
| Submission.MapDependencies | compute-provider.go:84-92 | position by position the mapped id, empty exactly where the manifest has none |
| Submission.LastBefore | providers/docker/docker-compute-provider.go:99-122 | the last job before a position that was made for a manifest, which is the one the id map holds there |
| Submission.DockerProvider.FillIn | providers/docker/docker-compute-provider.go:107-112 | the job is given its id and the ids of the last earlier jobs made for its dependencies, and no other job changes |
| Submission.DockerProvider.AddJob | providers/docker/docker-compute-provider.go:116-121 | one more job in the queue, submitted, with that id and those dependencies |
| Submission.DockerProvider.Enqueue | providers/docker/docker-compute-provider.go:114-121 | the id map and the queue both grow by this job |
| Submission.DockerProvider.SubmitNext | providers/docker/docker-compute-provider.go:107-122 | the job is filled in and queued under its id as submitted, with every other status as it was |
| Submission.DockerProvider.RegisteredStops | providers/docker/docker-compute-provider.go:102-105 | the loop stops at the first unregistered definition and not before |
| Submission.DockerProvider.SubmitJobs | providers/docker/docker-compute-provider.go:96-124 | the jobs before the first unregistered one, and no others, are queued as submitted and filled in, what was queued before keeps its status, and dependencies are resolved among strictly earlier jobs |
| Submission.EmptyWhenNotBefore | compute-provider.go:84-92 | a dependency is left empty exactly if its manifest has no job strictly earlier in the list |
| Submission.LastBeforeIsTaken | providers/docker/docker-compute-provider.go:107-114 | a dependency whose manifest has an earlier job becomes the submitted id of the last such job |
| Submission.FirstFor | providers/k8sargo/k8sargo.go:665-672 | the first job of the whole list made for a manifest |
| Submission.FirstForIsFirst | providers/k8sargo/k8sargo.go:665-672 | the position found in the requests is that of the first job the loop meets |
| Submission.GetJobIdFromManifestId | providers/k8sargo/k8sargo.go:665-672 | the text of the id of the first job in the list made for the manifest; empty exactly if no job was made for it |
| Submission.ManifestDepsToJobDeps | providers/k8sargo/k8sargo.go:652-663 | every job with dependencies gets one text for each: the id of the first job made for that manifest, empty exactly if there is none; the other jobs are left alone |
| Submission.MappingsAgree | providers/k8sargo/k8sargo.go:652-672 | where an earlier job exists, both mappings name the same one exactly if it is the only earlier one |
| EndToEnd.BuildJobs | cloudcompute.go:107-182 | one new job per manifest, in order: the i-th id, and the id, dependencies and plugin of the i-th manifest |
| EndToEnd.RunEvent | cloudcompute.go:84-199 | sorting, job construction and submission of one event: the queue gains exactly the jobs of the list that sorting left, in that order and as submitted, up to the first manifest whose plugin is not registered; what was queued before keeps its status |
| Batches.MadePlanDependsOnEarlier | providers/docker/docker-compute-provider.go:99-122 | whatever events are submitted, dependencies point to jobs submitted earlier by the same loop |
| Batches.NextEventExtendsPlan | providers/docker/docker-compute-provider.go:96-124 | what the submission loop leaves in a queue that holds the jobs of a plan is the plan with the jobs of one more event |
| Batches.FirstEventMakesPlan | providers/docker/docker-compute-provider.go:96-124 | what it leaves in an empty queue is the plan of that event |
| EndToEnd.DependencyBecomesJob | providers/docker/docker-compute-provider.go:107-114 | in a list in dependency order each manifest dependency becomes a dependency on the job of that manifest |
| EndToEnd.SortedIsResolved | compute-provider.go:84-92 | a sorted event with closed acyclic dependencies leaves none unresolved: each is the submitted id of an earlier job of the event |
| SubmissionLimit.LimitedEnd | cloudcompute.go:474-482 | the limit never blocks for good: a run that can go no further has submitted every job |
| SubmissionLimit.OneByOneRuns | cloudcompute.go:58-60 | with limit 1 the runs are exactly those in which an event's jobs come after all jobs of the events before it |
| SubmissionLimit.LimitedFinishesIff | cloudcompute.go:58-84 | every job of the submitted events is sure to finish exactly if the list submitted for each event ends with a job without dependencies, with limit 1 only that of the last event that submits anything; two jobs that both have dependencies are the one exception |
| EndToEnd.SortedEventMayNotFinish | cloudcompute.go:84-199 | an event with dependencies and without isolated manifests, sorted and submitted whole, can be left unfinished: with a limit above 1 always, with limit 1 if no later event submits anything |
| EndToEnd.EventRunsInOrder | providers/docker/docker-compute-manager.go:71-128 | for an event with closed acyclic dependencies, sorted, submitted among any others and run in any interleaving: no job starts before each manifest it depends on has a finished job, which stays finished |
| Generators.PerEventLooper.Next | eventgenerator.go:146-156 | the entries in turn, the round reported complete at the last one |
| Generators.ArrayEventGenerator.NextEvent | eventgenerator.go:211-231 | the number, the loop position and the loop entry at that position (none without loop data), and the successor flag, from how many rounds and entries are behind |
| Generators.RunArray | cloudcompute.go:72-217 | the driver ends after max(1, end - start + 1) times max(1, L) dispatches; dispatch k carries number start + k div M, loop number k mod M and loop entry k mod M |
| Streaming.TrimIsCore | eventgenerator.go:86-90 | the identifier is the token without the white space at its ends |
| Streaming.StreamingEventGenerator.constructor | eventgenerator.go:46-61 | the first token is read ahead |
| Streaming.StreamingEventGenerator.ScanNext | eventgenerator.go:86-90 | the next token is read and trimmed, or the exhausted state is reached, and the index advanced |
| Streaming.StreamingEventGenerator.NextEvent | eventgenerator.go:92-118 | an error exactly on a blank look-ahead; otherwise the token with its loop position and the entry at it, the next token being read only at the end of a round |
| Streaming.AfterOnCourse | cloudcompute.go:72-217 | after any number of iterations the dispatches are those of the tokens behind, and of the current one up to its loop position |
| Streaming.LoopEndsIffLastTokenIsNotBlank | cloudcompute.go:72-217 | the loop reaches its break exactly if the last token is not blank, with every non-blank token dispatched in order once per loop entry |
| Streaming.ExhaustedSourceSpins | cloudcompute.go:74-82 | otherwise the exhausted source fails with no successor for ever and nothing more is dispatched |
| Streaming.TrailingNewlineSpins | eventgenerator.go:86-118 | a concrete file on which the driver never stops |
| Streaming.TokenEventsAt | cloudcompute.go:72-217 | event k of a stream: the token at the (k div M)-th place that is not blank, with loop number k mod M and the loop entry k mod M, and nothing else |
| Streaming.RunStream | cloudcompute.go:72-217 | the loop over the real generator object, on a stream where it ends, dispatches exactly those events, each with the loop entry of its loop number |
| SplitAt.IndexIsLeftmost | eventgenerator.go:395 | the search finds the leftmost match, or none exactly if there is none |
| SplitAt.MatchIsFinal | eventgenerator.go:394-397 | a match found in a part of the stream is the leftmost in all of it |
| SplitAt.Emit | eventgenerator.go:383-407 | every token emitted from a buffer is the next one of the one-shot split, and makes progress |
| SplitAt.ScanAll | eventgenerator.go:383-407 | under any division of the stream into buffers and any moment of learning its end, the tokens are those of the one-shot split |
| SplitAt.JoinGivesStream | eventgenerator.go:383-407 | joining the tokens with the delimiter gives the stream back, up to one delimiter at its end, and without that one the last token is not empty |
| SplitAt.TokensAreLeftmost | eventgenerator.go:394-397 | a token that a delimiter follows reaches up to the first place where one begins |
| SplitAt.TokensAreClear | eventgenerator.go:395-397 | no token contains the delimiter |
| Barrier.InvStep | cloudcompute.go:474-488 | every step keeps: occupied slots are unreleased callbacks and slots taken by Wait, and there is one callback per dispatch |
| Barrier.BarrierHolds | cloudcompute.go:474-488 | at most `limit` callbacks are active at any moment, and when Wait has returned every dispatched event's callback has ended |
| Barrier.EndsOnce | cloudcompute.go:476-481 | each callback runs once |
| Barrier.AlwaysMoves | cloudcompute.go:484-488 | with a positive limit, until Wait has returned some step is possible |
| Barrier.WaitReturnsAtLast | cloudcompute.go:70-218 | every run is bounded, and one that cannot go on has returned from Wait |
| KeyValues.FirstMatchIsRewritten | compute-provider.go:312-324 | setting a value rewrites the first match in place, or adds a pair at the end |
| KeyValues.Environment.SetVal | compute-provider.go:312-324 | the receiver's list becomes that list |
| KeyValues.Environment.Merge | compute-provider.go:326-330 | the receiver's list has every given pair set in turn |
| KeyValues.GetAfterSet | compute-provider.go:303-324 | a value set is read back and no other name is affected |
| KeyValues.GetAfterMerge | compute-provider.go:326-330 | after a merge a name has the last value given for it, else its old one |
| KeyValues.LastValIsLast | compute-provider.go:326-330 | the value in force after a merge is that of the last pair with the name |
| KeyValues.GetValIsFirst | compute-provider.go:303-310 | a name reads as the value of its first pair |
| KeyValues.EnvironmentReads | cloudcompute.go:127-149 | any name: the last override of the event, else the manifest's preset, else what the driver gives it; a preset identifier also keeps the event number out |
| KeyValues.BuildEnvironment | cloudcompute.go:127-149 | any name in the environment built for a job: the last pair of the event for it, else the manifest's first, else the driver's own value, which for the event number is withheld if the manifest presets the identifier |
| KeyValues.IdentifierSeen | cloudcompute.go:127-149 | the identifier a provider reads: the last per-event override, else the manifest's preset, else the identifier of the event |
| Decimal.DigitsInjective | eventgenerator.go:224 | different numbers have different decimal texts |
| Decimal.ItoaReads | eventgenerator.go:224 | a minus exactly for negative numbers, then digits worth the magnitude, without a leading zero |
| Slugs.ToSlugFast | providers/k8sargo/k8sargo.go:696-728 | the loop and the trimming give the lower-case words of the name with single hyphens between them |
| Slugs.SlugIsSlug | providers/k8sargo/k8sargo.go:696-728 | only lower-case letters, digits and hyphens, none at an end, none beside another |
| Slugs.SlugFixedPoints | providers/k8sargo/k8sargo.go:696-728 | such texts are exactly those left unchanged, hence idempotence |
| Slugs.SlugKeepsLetters | providers/k8sargo/k8sargo.go:705-728 | letter by letter: each letter or digit of the name is kept in order, the k-th capital as the k-th small letter, side by side where they are so in the name and with one hyphen between them elsewhere, and nothing else is there |
| Slugs.LowerByAlphabet | providers/k8sargo/k8sargo.go:707-711 | the k-th letter of A to Z becomes the k-th of a to z; small letters and digits stay |
| Slugs.SameSlugIffSameWords | providers/k8sargo/k8sargo.go:696-728 | two names collide exactly if they have the same words |
| WorkflowNames.SameNameIff | providers/k8sargo/k8sargo.go:105-110 | within one event id, workflow names are equal exactly if the identifiers have the same words and the loop numbers are equal |
| WorkflowNames.NameParts | providers/k8sargo/k8sargo.go:105-110 | split at its dots, a name gives the event id, the slug of the identifier, and the loop number unless it is zero |
| WorkflowNames.WordsOfNumber | providers/k8sargo/k8sargo.go:105-106 | the slug of a number is its digits: the sign is lost |
| WorkflowNames.ArrayNamesDistinct | cloudcompute.go:188-190 | without a preset or overriding identifier, the workflow names of all events of an array compute differ exactly if start is not negative or end is not positive |
| JobNames.FindAllIsLeftmost | compute-provider.go:275-276 | the search finds non-overlapping matches from left to right, with no match beginning between them |
| JobNames.MatchesAreUnique | compute-provider.go:275-276 | only one list of positions is like that |
| JobNames.Parse | compute-provider.go:274-284 | the parts are the texts at the leftmost, non-overlapping matches if there are three, and there is an error for any other number |
| JobNames.FindAllInJobName | compute-provider.go:275-276 | the leftmost non-overlapping matches in a formatted name are those in the profile and then the three parts |
| JobNames.ParseRoundTrip | compute-provider.go:274-284 | whatever Parse gives for a formatted name is its three parts, or the error exactly if the profile holds a UUID text; at most 35 characters hold none |
| JobNames.SplitAgreesWithParse | providers/k8ssimple/k8s-simple.go:61-71 | for a profile without underscores the pieces are the profile, c, the compute text, e, the event text, j and the job text |
| UuidText.TextIsUuid | cloudcompute.go:169 | the text of every id has the 8-4-4-4-12 form |
| UuidText.TextInjective | cloudcompute.go:169 | different 128-bit ids have different texts |
| UuidText.TextReadsBack | cloudcompute.go:169 | the digits of the text, in small letters, read as a hexadecimal number give the id back |

## Left out

- Docker, AWS, Argo and Kubernetes client calls, image pulling, log streaming and container removal: a container is a step that ends with success, failure or nothing written.
- `Terminate`, the control channel, and the paths on which a nil runner or nil monitor is used: they end the process or need I/O.
- The close-once protocol of the log reader: the two monitors appear as the order of their status writes only.
- The receipt of a message and the copying of the queue's entries at the start of the status pass are one step; nothing the runner does lies between them.
- JobQueue.InMemoryJobQueue.Add: requires the job's submitted id to be unused, because it is a fresh UUID; the source does not check it.
- Submission.DockerProvider.AddJob: requires the job id and the submitted id to be unused, for the same reason.
- Submission.DockerProvider.SubmitJobs: requires unused job and submitted ids, which the source draws from a UUID generator; the queued job holds copies of the fields the queue reads instead of sharing the job.
- SubmissionLimit.LimitedFinishesIff: is about one call of `RunParallel`; several computes that share a provider are not limited against each other. What a callback does after its last `AddJob` only delays the next event.
- Streaming.RunStream: is stated for streams whose last token is not blank, because on the others the loop does not end; those are covered by `Streaming.ExhaustedSourceSpins`.
- SplitAt.ScanAll: does not model the token size limit and the empty-token limit of `bufio.Scanner`, and requires a delimiter that is not empty.
- WorkflowNames.NameParts: requires an event id without a dot; the event id is a UUID text, which has none.
- WorkflowNames.ArrayNamesDistinct: the base event of the generator has loop number 0 and no variables of its own; with loop data both are overwritten.
- Generators.ArrayEventGenerator.NextEvent: the position is unbounded, so the wrap-around of `int64` beyond the end of the range is not modelled.
- Payload writing, event post-processing, tags, job parameters, the job store and the `sorted` flag of an event: copied or external data with no part in the order.
- `BatchEventGenerator`, whose successor flag is still set on its last entry, and `EventList`, which only walks a slice.
- The sort inside the array generator's constructor, which continues after errors.
- Sharing of backing arrays between environment lists that `append` may cause.
- Argo task names: dependency and task names are built with different prefixes (`providers/k8sargo/k8sargo.go:212`, `providers/k8sargo/k8sargo.go:647`), so the model stops at `DependsOn`.
- The order in which a map of loop variables is turned into pairs, the texts of log lines and of queue messages, and the status monitor.
- Pod-spec patches, `deepcopy`, the merging of plugins, the plugin registry beyond whether a definition is known, and the secrets manager.
