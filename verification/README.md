# Ranking plan engine: model and proofs

The repository runs *ranking plans*: directed acyclic graphs of tasks over row sets, written in a TypeScript
DSL and executed by a C++ engine on one of three interchangeable executors. This project models the parts
whose correctness depends on more than one function, and proves it for every plan, every input and every run.

Run `dafny verify dfyconfig.toml` to check it.

## How it is organised

| files | subject |
|---|---|
| `Wrappers`, `KeySets` | results and options, the pigeonhole facts, ascending key lists |
| `DependencyGraph`, `PlanMeaning`, `SequentialExecutor`, `Executors` | dependency multigraphs and Kahn's algorithm; the one meaning of a plan as the unique solution of "a node's result is its task applied to its dependencies' results"; plan validation and the sequential executor; the three executors side by side |
| `NodeTracking`, `ParallelScheduler`, `SchedulerState` | the mutex/condition-variable scheduler as interleaved steps, the object whose critical sections are those steps, and the call that drives it |
| `AsyncSteps`, `AsyncScheduler`, `Timeouts` | the coroutine scheduler: sections of code as state changes, and the object whose methods call one another the way node coroutines re-enter the scheduler |
| `EventLoopProtocol`, `EventLoop` | `Post`, `Stop` and the draining of the callback queue, over all interleavings |
| `InflightLimiter`, `RedisCommands`, `RedisClient` | the FIFO permit limiter, the reply/timeout race of Redis commands over it, and the callbacks that nest inside one another |
| `AsyncTimeout`, `OffloadTimeout` | the two "first one wins" awaitables |
| `RowSets`, `Sorting`, `RowTasks`, `Concat`, `ColumnTasks`, `OutputContract` | column batches, selection/order views, the tasks filter, sort, take, concat, vm and fixed source, and the output contracts |
| `WritesEffect`, `SchemaDelta` | the static writes analysis in both languages, and the columns observed at run time |
| `Predicates`, `RegexCache` | the expression and predicate compilers, null-aware evaluation, and the regex table cache |
| `Rewriting`, `IdTables`, `Extraction` | splicing placeholders into the source, table ids and their merge, and the path from a source span to the node that uses it |

Two forms recur. A concurrent or re-entrant protocol is a datatype `State`, a datatype of steps, `Enabled` and
`DoStep`; theorems speak of every sequence of enabled steps. Beside it stands a class with the source's own
fields. Each of its methods is one callback or one critical section; the object keeps a ghost `trace` (or
`history`) of them, and its `Valid()` says that the trace is a run of the protocol that leads to the object's
fields, so the theorems hold of it. Methods such as `Execute` and `Interleave` carry out arbitrary turns and state
the outcome in terms of the fields. Where callbacks run inside one another (`AsyncSchedulerState`,
`AsyncInflightLimiter.RunCoroutine`, `RedisClient`), the methods call one another in the same way.

Task bodies, the regular-expression matcher and replies are parameters; the clock moves forward by any amount
whenever it is read. Where the source may go
either way for reasons outside the model (a task suspends, `Post` is refused, hiredis
refuses a command), the model leaves the choice open.

## Findings

- The parallel loop's done test does not look at `first_error`. A job can fail while the lock is down, and the
  loop then breaks with a result missing. `ParallelScheduler.GapIff`: some run of a plan does so if and only if
  some node of the plan has no value, whatever the bound; `ParallelScheduler.EveryRunIsSafe`: at a break, all
  slots are full if and only if no error is recorded. An error that is recorded when the caller is back at the top of
  its loop is always thrown (`ParallelScheduler.RecordedErrorIsThrown`), so every such plan also has a run that throws
  (`ParallelScheduler.ThrowIff`). The async scheduler has no such gap.
- The async scheduler does not look at whether the loop took the post that resumes its main coroutine. Main goes on if
  and only if nothing is in flight when it gets to its await or that post is taken
  (`AsyncScheduler.AsyncSchedulerState.Execute`); `AsyncSteps.LastNodeEnds` is the sequence of sections that loses it
  when the loop stops before the last node ends.
- Stopping the loop closes every open timer without its owner knowing. An owner that is decided afterwards, by a
  callback still to run in that iteration, closes its timer again. `AsyncTimeout.ClosedTwiceIff`,
  `OffloadTimeout.ClosedTwiceIff` and `RedisCommands.NeverTwice` say exactly when, `ClosedTwice` in each module is
  a run; in every other run a timer is closed at most once.
- `OffloadCpuWithTimeout` resumes its waiter if and only if the completion is accepted or the deadline passes
  while the timer is still open (`OffloadTimeout.ResumedIff`). `OffloadTimeout.LostCompletion` gives two runs after
  which nothing can resume it: one without a deadline, one whose timer the stop has closed.
- `toVector(0)` returns one row when there is one, because the row is pushed before the test: `RowSets.ToVector`.
  The tasks never pass 0.
- The contract checks ask for as many rows as the batch has, so they do not see all of a view that repeats rows. They
  decide their relations when neither input nor output has more active rows than the batch (`OutputContract.AcceptsIsMeets`).
  Against inputs that fit in this sense they are right about exactly the outputs that fit, up to a prefix shorter than the
  batch (`OutputContract.RightForOutputIff`); against outputs that fit, about exactly the inputs that fit, up to a
  prefix no longer than the batch and subsequences of a view of one row (`OutputContract.RightForInputIff`). An overfull
  output or input can be accepted wrongly (`RepeatedRowAccepted`, `RepeatedInputAccepted`), and an output can be
  rejected wrongly because of an overfull input (`UnseenRowRejected`).
- Parentheses are not transparent to the predicate compiler. Its null check sees them: `Key.x < null` is refused and
  `Key.x < (null)` is not. `regex` sees them in its arguments and names are compared by their text: `regex((Key.x), "p")`
  and `(Key).x < 1` are refused. `Predicates.StripAcceptedIff` says for every predicate that is accepted with or without
  its parentheses when it is accepted the other way; where both are, evaluation is the same (`Predicates.ParenthesesTransparent`).
- Binding a parameter to a value that a consulted switch does not list turns a bounded writes effect into an
  unknown one. `WritesEffect.ExtendRefinesIff`: knowing more refines a bounded effect if and only if the switches
  evaluation goes through list the values that were added.
- A comment in engine/include/expr_eval.h says that evaluation throws on a non-finite result; the code does not, and
  the model follows the code.

## Model

| member | source | states |
|---|---|---|
| DependencyGraph.BuildSuccessors | engine/src/dag_scheduler.cpp:68-93 | each countdown is the number of dependency occurrences, repeats counted, and each node is in its dependency's successor list as often as it depends on it |
| DependencyGraph.WakeCountsDown | engine/src/dag_scheduler.cpp:188-195 | counting down a finished node's successors keeps every countdown equal to the occurrences not yet finished, and queues exactly the nodes that become unblocked |
| DependencyGraph.KahnOrder | engine/src/executor.cpp:193-240 | the order lists each node once with all its dependencies earlier, and it is complete if and only if the multigraph has no cycle, whatever the order of the initial scan |
| DependencyGraph.KahnComplete | engine/src/executor.cpp:238-240 | if the queue runs dry early, what is left contains a cycle, and only then |
| DependencyGraph.AcyclicIsRanked | engine/src/executor.cpp:193-240 | a graph the plan check accepts can be ranked: every node above its dependencies |
| PlanMeaning.MeaningExists | engine/src/executor.cpp:303-352 | on every acyclic plan the equations "result = task of the dependencies' results" have a solution |
| PlanMeaning.MeaningUnique | engine/src/executor.cpp:303-352 | they have only one, so a plan means one thing whatever executes it |
| PlanMeaning.ExecutorsAgree | engine/src/executor.cpp:303-352 | two outcomes that are right for the same plan are both the same outputs or both errors, and they are outputs exactly when no node's own task fails |
| SequentialExecutor.WellFormedHasMeaning | engine/src/executor.cpp:31-240 | a plan that passes the check has exactly one meaning |
| Executors.RunParallel | engine/src/dag_scheduler.cpp:209-297 | on an accepted plan the parallel call agrees with the meaning, or has left its loop with an error recorded, which only a plan with a node that has no value allows |
| Executors.ValidateAndRun | engine/src/executor.cpp:362-368 | for every accepted plan: the sequential result is right; every parallel run without a gap and every async run that returns before a deadline has passed succeeds exactly when the sequential one does, with the same outputs and the same value left by every node; an async run that succeeds later returns them too; an async run does not return only if its loop was stopped |
| Executors.DeltasOfMeaning | engine/src/executor.cpp:336-349 | computing schema deltas beside the rows does not change what the plan means, and each delta is that of the node's inputs and rows in the meaning, so the executors agree on every node's delta |
| Executors.ReportedMeans | engine/src/executor.cpp:354-357 | what is reported are the outputs, each the node of that id and in the plan's order, and then every node once |
| SequentialExecutor.ValidatePlan | engine/src/executor.cpp:31-240 | a plan is accepted if and only if its version is 1, its capabilities and ops are known, its parameters are valid, its table entries, endpoints and nodes referred to exist, its ids are distinct and its dependency graph has no cycle |
| SequentialExecutor.BuildNodeIndex | engine/src/executor.cpp:47-57 | the index is built exactly when no id occurs twice, and it then finds every node |
| SequentialExecutor.ResolveMeans | engine/src/executor.cpp:303-320 | node i keeps its task, and its inputs and refs are the nodes it names, in the order in which it names them |
| SequentialExecutor.ExecuteSequential | engine/src/executor.cpp:243-360 | the nodes asked for have the values of the plan's meaning, or the error is that of a node that itself fails |
| ParallelScheduler.EveryRunIsSafe | engine/src/dag_scheduler.cpp:209-297 | in every interleaving: a throw carries the error of a node that failed itself; at a break all slots are full if and only if no error is recorded, and then the outputs are the plan's meaning; nothing is in flight in either case |
| ParallelScheduler.NoFailureNoError | engine/src/dag_scheduler.cpp:201-206 | if every node has a value, no run records an error or throws |
| ParallelScheduler.EveryReachableState | engine/src/dag_scheduler.cpp:182-278 | the in-flight count is the number of jobs and never above the bound, the countdowns are exact, a queued or running node finds all its inputs, and the caller never waits beside a node it could dispatch |
| ParallelScheduler.EnqueuedAtMostOnce | engine/src/dag_scheduler.cpp:188-195 | along any run no node enters the ready queue twice |
| ParallelScheduler.StepInv | engine/src/dag_scheduler.cpp:182-278 | every step of either thread keeps the scheduler's invariant |
| ParallelScheduler.NeverStuck | engine/src/dag_scheduler.cpp:269-278 | until the call returns some thread can move: the bare wait is entered only with a job in flight or a notification coming |
| ParallelScheduler.EveryRunEnds | engine/src/dag_scheduler.cpp:231-278 | without spurious wake-ups a run has at most 10n+2 steps and can be continued until it breaks or throws |
| ParallelScheduler.GapIff | engine/src/dag_scheduler.cpp:255-274 | for every plan and every bound of at least one: some run breaks with a result missing if and only if some node has no value |
| ParallelScheduler.RecordedErrorIsThrown | engine/src/dag_scheduler.cpp:231-241 | once an error is recorded and the caller is at the top of its loop, or in a wait, no continuation dispatches a node or breaks: when it has ended it has thrown that error |
| ParallelScheduler.BreakNeverCameBack | engine/src/dag_scheduler.cpp:231-274 | a break with an error recorded is reached only if the caller was never back at the top of its loop, nor waited, since the error was recorded |
| ParallelScheduler.ThrowIff | engine/src/dag_scheduler.cpp:231-241 | for every plan and every bound of at least one: some run throws if and only if some node has no value |
| ParallelScheduler.FirstErrorStays | engine/src/dag_scheduler.cpp:201-206 | along any run the first recorded error is never replaced |
| ParallelScheduler.BreakCanMissAResult | engine/src/dag_scheduler.cpp:255-274 | the shortest such run, on a plan of one failing node |
| SchedulerState.SchedulerState.constructor | engine/src/dag_scheduler.cpp:50-127 | the initial state is that of the protocol, and exactly the nodes without dependencies are queued |
| SchedulerState.SchedulerState.Reachable | engine/src/dag_scheduler.cpp:182-278 | whatever sections have run, the in-flight field counts the jobs and respects the bound, and queued and running nodes find their inputs |
| SchedulerState.SchedulerState.Turn | engine/src/dag_scheduler.cpp:231-278 | until the call returns some thread can take a turn, any that is possible may be the next, and the trace stays a run |
| SchedulerState.SchedulerState.MainTurn | engine/src/dag_scheduler.cpp:231-278 | with an error recorded the turn from the top of the loop throws or waits for the jobs; otherwise it dispatches the front of the queue below the bound, and without such a node it leaves when nothing is queued or in flight and waits when something is |
| SchedulerState.SchedulerState.RecordFailure | engine/src/dag_scheduler.cpp:201-208 | a failed job records its error only if none is recorded, fills no slot and wakes nobody's successors |
| SchedulerState.SchedulerState.Execute | engine/src/dag_scheduler.cpp:209-297 | for every interleaving and any spurious wake-ups the call ends with no job left: it throws the error of a node that failed itself, or breaks with no error and returns the plan's meaning, or breaks with an error and an empty slot; it always throws if it was ever at the top of its loop, or waiting, with an error recorded |
| SchedulerState.SchedulerState.RunTask | engine/src/dag_scheduler.cpp:129-150 | a job outside the lock computes the task from the slots and publishes nothing |
| SchedulerState.SchedulerState.StoreResult | engine/src/dag_scheduler.cpp:182-199 | the success section, with its loop over the successors, fills the node's slot and is one step of the protocol |
| SchedulerState.SchedulerState.GapMeansFailure | engine/src/dag_scheduler.cpp:201-208 | leaving the loop with an error recorded means that the plan has a node with no value |
| AsyncSteps.SucceedGood | engine/src/async_dag_scheduler.cpp:247-265 | recording a success keeps the invariant and starts nothing twice |
| AsyncSteps.FailGood | engine/src/async_dag_scheduler.cpp:272-279 | recording a failure keeps the invariant, and the error recorded is a genuine one |
| AsyncSteps.QuietIsComplete | engine/src/async_dag_scheduler.cpp:523-548 | with nothing in flight and the queue drained, no recorded error means every slot is full and the outputs are the plan's meaning: this scheduler has no gap |
| AsyncSteps.LastNodeEnds | engine/src/async_dag_scheduler.cpp:475-481 | sections after which main waits with one node in flight, and then with none: the single post made in between is all that can resume it |
| AsyncScheduler.AsyncSchedulerState.SpawnReadyNodes | engine/src/async_dag_scheduler.cpp:486-506 | whatever starts, finishes and starts again inside it, the invariant holds and afterwards the queue is empty or an error is recorded; with an error recorded or the request's deadline passed nothing is started; the first error is kept |
| AsyncScheduler.AsyncSchedulerState.RunNode | engine/src/async_dag_scheduler.cpp:287-481 | a node coroutine up to its first suspension keeps the invariant, whether it suspends, ends or has missed its deadline; its task is not run when the request's deadline has passed |
| AsyncScheduler.AsyncSchedulerState.AwaitTask | engine/src/async_dag_scheduler.cpp:385-452 | a node whose deadline has passed when its task is awaited is not run and ends with a timeout |
| AsyncScheduler.AsyncSchedulerState.WakeWith | engine/src/async_dag_scheduler.cpp:385-452 | a suspended node ends with the timeout if its timer fired for its deadline, and otherwise with its task's outcome |
| AsyncScheduler.AsyncSchedulerState.Complete | engine/src/async_dag_scheduler.cpp:462-481 | the end of a node posts the main coroutine's resumption exactly when it was the last in flight and main is waiting, and that post is lost exactly when the loop takes none |
| AsyncScheduler.AsyncSchedulerState.Execute | engine/src/async_dag_scheduler.cpp:462-548 | for any order of completions, failures and suspensions, any nesting, any passing of time, and a loop that may stop at any moment: main goes on if and only if nothing is in flight at its await or the one post of its resumption is taken, always while the loop takes posts; then nothing is in flight, and the call returns the plan's meaning, the error of a node that failed itself, or the timeout of a deadline that has passed; while none has passed it succeeds exactly if every node has a value |
| AsyncScheduler.AsyncSchedulerState.OnNodeFailure | engine/src/async_dag_scheduler.cpp:272-279 | the first error is kept, and the next one only if there was none |
| Timeouts.EffectiveIsEarlier | engine/include/deadline.h:44-62 | a node's deadline is the earlier of the request's and its start plus the node timeout, whichever there are |
| Timeouts.OnTimeNeverLate | engine/include/deadline.h:17-30 | before any deadline of the run no timeout text is justified |
| EventLoopProtocol.StepInv | engine/src/event_loop.cpp:81-253 | every atomic step of any thread keeps the invariant of the queue, the lock and the life cycle |
| EventLoopProtocol.AcceptedRunExactlyOnce | engine/src/event_loop.cpp:143-253 | when the loop thread has exited, exactly the callbacks that were pushed have run, each once, and in the order pushed unless a callback itself stopped the loop |
| EventLoopProtocol.NothingPushedAfterDrain | engine/src/event_loop.cpp:221-236 | once the stopping drain has taken the queue nothing is ever pushed again, although the state change is made outside the lock |
| EventLoopProtocol.AcceptedIff | engine/src/event_loop.cpp:221-236 | a call of `Post` that has returned was accepted if and only if the loop was running at both of its checks, and refused if and only if it was not at one of them |
| EventLoopProtocol.PostCanSucceed | engine/src/event_loop.cpp:221-236 | while the loop runs and nobody holds the lock, a new call can go through to true with its callback at the end of the queue |
| EventLoopProtocol.RunningCanStop | engine/src/event_loop.cpp:143-219 | a running loop can be stopped, from another thread or from a callback, and carried through to the exit of its thread |
| EventLoopProtocol.LoopCanRun | engine/src/event_loop.cpp:81-141 | two steps from the beginning the loop is running |
| EventLoopProtocol.NeverStuck | engine/src/event_loop.cpp:143-253 | while a callback is pending, or a stop is under way, something already started can move on |
| EventLoopProtocol.EveryRunEnds | engine/src/event_loop.cpp:81-253 | a run has at most 12 steps, 6 more per call of `Post`, besides those of timers; it can only stop with every accepted callback run and, once a stop is under way, with the thread exited |
| EventLoop.EventLoop.CheckUnderLock | engine/src/event_loop.cpp:226-232 | a post passes the second check if and only if the loop is running, and then holds the lock before the stopping drain, which cannot begin until it has pushed; one that fails it never pushes |
| EventLoop.EventLoop.BeginPost | engine/src/event_loop.cpp:221-224 | the first check goes on if and only if the loop is running, and otherwise the call is refused |
| EventLoop.EventLoop.RunFront | engine/src/event_loop.cpp:243-253 | what the drain runs has not been run before |
| EventLoop.EventLoop.Interleave | engine/src/event_loop.cpp:81-253 | any number of threads in any order: once the loop thread has exited, every accepted callback has run, once, and in order unless a callback stopped the loop; and a post is accepted exactly if it found the loop running twice |
| EventLoop.EventLoop.RunDoStop | engine/src/event_loop.cpp:204-219 | the stopping drain runs everything queued, in order, then closes every open timer, and only then does the loop count as stopped |
| InflightLimiter.EveryRunIsFair | engine/include/async_inflight_limiter.h:83-165 | over every run live guards equal the count and never exceed the bound, somebody waits only when no permit is free, and grants follow the order of requests |
| InflightLimiter.ServedAfterReleases | engine/include/async_inflight_limiter.h:156-165 | a waiter with k others ahead has its permit after k+1 releases, whoever comes meanwhile |
| InflightLimiter.AsyncInflightLimiter.TryAcquire | engine/include/async_inflight_limiter.h:142-148 | succeeds exactly when a permit is free, and is one step of the protocol |
| InflightLimiter.AsyncInflightLimiter.PassPermit | engine/include/async_inflight_limiter.h:156-165 | the permit goes straight to the first waiter, or back |
| InflightLimiter.AsyncInflightLimiter.RunCoroutine | engine/include/async_inflight_limiter.h:39-165 | however releases nest inside resumed coroutines, the limiter got where it is by a sequence of single steps, so the theorems about runs hold |
| RedisCommands.ActInv | engine/src/async_redis_client.cpp:73-158 | submission, execution, issue, reply, timeout and destruction keep the invariant of every command and of the limiter |
| RedisCommands.IssueMeans | engine/src/async_redis_client.cpp:263-305 | the three outcomes of issuing a permitted command, field by field |
| RedisCommands.NeverTwice | engine/src/async_redis_client.cpp:86-158 | at any time no coroutine was resumed twice and no callback record freed twice; a timer was closed twice exactly if the stop closed it while its command was in flight and the command has been decided since, and never before the handles are walked |
| RedisCommands.ClosedTwice | engine/src/async_redis_client.cpp:109-115 | such a history |
| RedisCommands.AllPermitsReturn | engine/src/async_redis_client.cpp:73-158 | when all states are gone and hiredis holds no record, every coroutine was resumed once, every record freed once, every timer closed by its owner once, no permit is out and nobody waits |
| RedisCommands.FirstEventDecides | engine/src/async_redis_client.cpp:103-146 | the outcome set by the first of reply, timeout and failure never changes |
| RedisCommands.EveryHistoryEnds | engine/src/async_redis_client.cpp:187-305 | apart from new submissions at most eight actions per command are possible, and two of the stopping loop |
| RedisCommands.NeverStuck | engine/src/async_redis_client.cpp:187-305 | until everything is settled some action is possible, waiters included |
| RedisClient.RedisClient.Suspend | engine/src/async_redis_client.cpp:187-201 | the coroutine stays suspended exactly while the loop takes posts, and else goes on with an error, and no other command is touched |
| RedisClient.RedisClient.LoopStops | engine/src/event_loop.cpp:204-219 | the stop's walk closes every command's timer and decides no command |
| RedisClient.RedisClient.ExecuteOnLoop | engine/src/async_redis_client.cpp:218-261 | a posted command is issued or queued, and the history of the object is one of the protocol's |
| RedisClient.RedisClient.IssueNow | engine/src/async_redis_client.cpp:263-305 | a queued command is in flight, with a timer exactly if it has a timeout; one that cannot be queued resumes its coroutine on the spot with the error, its record freed and no timer left, whatever that lets happen inside it |
| RedisClient.RedisClient.OnReply | engine/src/async_redis_client.cpp:86-131 | the record is freed, and the coroutine resumed if and only if nothing had completed the command before |
| RedisClient.RedisClient.OnTimeout | engine/src/async_redis_client.cpp:133-158 | the permit is gone before the coroutine is resumed, once, with the timeout error, although the permit's next owner may run, fail and release in between |
| AsyncTimeout.ResumedExactlyOnce | engine/include/cpu_offload.h:392-595 | once the task or the timer has fired the waiter is resumed, or queued to be, exactly once, with the first event's result; a timer that was made is closed, by this wait once; a task that ends after the timer is counted late once |
| AsyncTimeout.ClosedTwiceIff | engine/include/cpu_offload.h:369-378 | a timer is closed twice exactly if the stop closed it during the wait and the task ended afterwards |
| AsyncTimeout.ClosedTwice | engine/src/event_loop.cpp:34-45 | such a run |
| AsyncTimeout.NotForgotten | engine/include/cpu_offload.h:519-550 | a suspended waiter has its resumption queued, or its task has not ended and then its timer is running, unless it has no deadline or the stop closed the timer |
| AsyncTimeout.ResultStays | engine/include/cpu_offload.h:431-520 | the result is decided once |
| AsyncTimeout.SharedState.TaskCompletes | engine/include/cpu_offload.h:431-514 | a task that ends too late is only counted; in time, its outcome is the result, no timer is left, and exactly one resumption is queued, carried out or left to `await_suspend`, whether or not the loop takes posts |
| AsyncTimeout.SharedState.EndSuspending | engine/include/cpu_offload.h:519-550 | a timer exists afterwards exactly if there is a deadline and the task has not ended; the coroutine stays suspended unless it is owed its resumption, and then that was the one |
| AsyncTimeout.SharedState.OnTimeout | engine/include/cpu_offload.h:575-595 | the timer fires on an undecided wait only, is closed for the first time, and exactly one resumption follows |
| AsyncTimeout.SharedState.Interleave | engine/include/cpu_offload.h:335-595 | with things happening in any order the waiter is resumed at most once, and once the wait is decided and the queue delivered exactly once, with the result of what came first |
| OffloadTimeout.ResumedAtMostOnce | engine/include/cpu_offload.h:158-284 | never resumed twice; what the waiter gets is the job's own result or the timeout |
| OffloadTimeout.ResumedIff | engine/include/cpu_offload.h:193-284 | with nothing queued the waiter has been resumed if and only if the completion was accepted or the deadline passed while the timer was open; while the loop is up, always once the job has ended |
| OffloadTimeout.LostForGood | engine/include/cpu_offload.h:193-212 | a waiter whose completion was refused and whose timer cannot fire is never resumed, whatever still happens |
| OffloadTimeout.LostCompletion | engine/include/cpu_offload.h:193-239 | two runs that lead there: without a deadline, and with one whose timer the stop closes |
| OffloadTimeout.ClosedTwiceIff | engine/include/cpu_offload.h:194-211 | a timer is closed twice exactly if the stop closed it during the wait and a completion accepted before then ran |
| OffloadTimeout.ClosedTwice | engine/src/event_loop.cpp:34-45 | such a run |
| OffloadTimeout.SharedState.RunFront | engine/include/cpu_offload.h:193-239 | a completion leaves the wait decided and no timer open; one that comes after the timeout changes neither the result nor the number of resumptions |
| OffloadTimeout.SharedState.OnTimeout | engine/include/cpu_offload.h:265-284 | the timer fires on an undecided wait only, is closed for the first time, and the one resumption is queued or, if posts are refused, carried out |
| OffloadTimeout.SharedState.Interleave | engine/include/cpu_offload.h:133-284 | with things happening in any order the waiter is resumed at most once, and with nothing queued exactly if the completion was accepted or the timer fired |
| RowSets.ActiveOk | engine/include/rowset.h:20-114 | the active rows of a well-formed view are distinct rows of its batch, so there are at most as many as the batch has |
| RowSets.ActiveMembers | engine/include/rowset.h:31-73 | a row is active if and only if the order lists it and the selection has it, as far as there are any |
| RowSets.ActiveOrdered | engine/include/rowset.h:31-73 | the active rows come in the order of the order list, else of the selection, else ascending |
| RowSets.ForEachIndex | engine/include/rowset.h:31-73 | the callback sees exactly the active rows, in order, until it stops, in all four combinations of selection and order |
| RowSets.ToVector | engine/include/rowset.h:76-86 | the first `limit` active rows, for a limit of 0 the first one; so the limit is respected if and only if it is positive or nothing is active |
| RowSets.AllRows | engine/include/rowset.h:76-86 | asking for as many rows as the batch has drops nothing |
| RowSets.Size | engine/include/rowset.h:89-109 | the size is the number of rows iteration visits |
| RowSets.WithOrderActive | engine/include/rowset.h:172-177 | an order made of the active rows becomes the view, whatever selection stays in place |
| RowSets.TruncateTo | engine/include/rowset.h:181-187 | the view becomes the first active rows and stays well-formed |
| Sorting.StableSortIs | engine/src/tasks/core/sort.cpp:117-184 | the sort is a rearrangement in comparator order in which ties keep their positions |
| Sorting.StableSortUnique | engine/src/tasks/core/sort.cpp:117-184 | any two stable sorts agree, so the library's is this one |
| Sorting.ByKeyIsStrictWeak | engine/src/tasks/core/sort.cpp:81-182 | the null-last comparators are fit for the library's stable sort |
| Sorting.SortedByKey | engine/src/tasks/core/sort.cpp:81-184 | values come in the direction asked for, nulls last in both directions, ties and nulls in the order they came |
| Sorting.LexIsStrictTotal | engine/src/tasks/core/sort.cpp:166-182 | the byte-wise order of strings is a strict total order |
| Sorting.LexLessIs | engine/src/tasks/core/sort.cpp:150-184 | one string is less than another if and only if at their first difference it has the smaller character or ends |
| Sorting.FilterSortCommute | engine/src/tasks/core/sort.cpp:79-195 | filtering a sorted list equals sorting the filtered list |
| RowTasks.RunFilter | engine/src/tasks/core/filter.cpp:30-65 | the view becomes the rows the predicate accepts, in order, or the first error |
| RowTasks.FilterKeeps | engine/src/tasks/core/filter.cpp:54-60 | filtering succeeds if and only if no evaluation throws, and keeps exactly the accepted rows |
| RowTasks.FilterTaskMeans | engine/src/tasks/core/filter.cpp:30-65 | the filter succeeds exactly if its id names a predicate of the table that throws on no row, and keeps, in order, the rows on which that predicate is true |
| RowTasks.RunSort | engine/src/tasks/core/sort.cpp:38-195 | the view becomes the stable null-last sort of the rows, with the same rows, or the task's error |
| RowTasks.SortTaskMeans | engine/src/tasks/core/sort.cpp:44-184 | on the columns: of two rows of the result a null id, float or string comes last in either direction, otherwise the first has the smaller value ascending and the greater one descending, strings by the first place where they differ, and rows with equal values keep their order |
| RowTasks.SortRunsIff | engine/src/tasks/core/sort.cpp:38-112 | a sort is carried out exactly for a positive key that is registered, readable, not blocked and of the id, a float or a string column that exists, and for the orders asc, desc or none |
| RowTasks.TakeTaskMeans | engine/src/tasks/core/take.cpp:27-43 | take succeeds exactly for a positive count, and keeps that many rows, or all, from the front |
| RowTasks.RunTake | engine/src/tasks/core/take.cpp:27-43 | the view becomes the first `count` rows; a count that is not positive is an error |
| RowTasks.RunPipeline | engine/src/tasks/core/filter.cpp:30-65 | a pipeline of filter, sort and take on views refines the same pipeline on lists of rows, errors included, and keeps the view well-formed |
| RowTasks.PipelineShrinks | engine/src/tasks/core/take.cpp:27-43 | no pipeline invents or repeats a row |
| RowTasks.SortFilterExchange | engine/src/tasks/core/sort.cpp:38-195 | a sort and a filter that does not throw may be exchanged |
| Concat.MergeDicts | engine/src/tasks/core/concat.cpp:156-181 | the merged dictionary is the left one followed by the right one's other strings, each once, and every old right code goes to a code of the same string, duplicates in either dictionary included |
| Concat.ConcatStrings | engine/src/tasks/core/concat.cpp:106-204 | on all dictionary paths each output row decodes to what its source row decoded to, or is null as it was, and codes stay inside the dictionary |
| Concat.ConcatFloats | engine/src/tasks/core/concat.cpp:73-95 | each output row has its source row's value or null |
| Concat.ConcatViews | engine/src/tasks/core/concat.cpp:47-206 | output row i has the id, every float and every decoded string of the i-th left active row, then of the right ones; the output is dense and well-formed and has the columns of both sides |
| Concat.RunConcat | engine/src/tasks/core/concat.cpp:32-206 | it succeeds exactly with one input and a right-hand side, and its output meets the concat contract |
| OutputContract.IsDenseActive | engine/src/output_contract.cpp:30-43 | decides whether the active rows are 0 to N-1 in order, repeated rows or not |
| OutputContract.IsSubsequence | engine/src/output_contract.cpp:54-66 | on the rows it sees, the greedy pass succeeds if and only if some order-preserving embedding exists |
| OutputContract.IsPrefix | engine/src/output_contract.cpp:68-84 | decides whether the rows seen of the output are the first of those seen of the input |
| OutputContract.IsPermutation | engine/src/output_contract.cpp:86-97 | sorting and comparing decides equality of multisets of the rows seen, repeated rows included |
| OutputContract.ValidateTaskOutput | engine/src/output_contract.cpp:99-236 | an output is accepted if and only if the rows seen of it and of the inputs are related as its pattern says |
| OutputContract.RightForOutputIff | engine/src/output_contract.cpp:46-97 | the check is right about an output against every input that fits if and only if the output fits, or is checked for a prefix shorter than the batch |
| OutputContract.RightForInputIff | engine/src/output_contract.cpp:46-97 | the check is right about an input against every output that fits if and only if the input fits, or the prefix asked for is no longer than the batch, or a subsequence is asked for of a view that is one row repeated |
| OutputContract.RepeatedRowAccepted | engine/src/output_contract.cpp:86-97 | rows 0, 1, 1 pass for rows 0, 1 under all four relating patterns |
| OutputContract.RepeatedInputAccepted | engine/src/output_contract.cpp:46-97 | rows 0, 1 pass for rows 0, 1, 1 unchanged, as a permutation and as the first three |
| OutputContract.UnseenRowRejected | engine/src/output_contract.cpp:54-66 | row 1 is refused as a subsequence of rows 0, 0, 1 |
| OutputContract.NeverRejected | engine/src/output_contract.cpp:147-206 | what filter, sort and take return from a well-formed input always meets their contracts |
| OutputContract.RunChecked | engine/src/executor.cpp:320-334 | running filter, sort or take and then checking its output gives what the task means on lists of rows, errors included: the check changes nothing |
| WritesEffect.EvalWrites | engine/src/writes_effect.cpp:40-125 | the engine's evaluator, with its early exits and null children, computes the meaning of the expression |
| WritesEffect.EvalWritesTs | dsl/packages/runtime/src/writes-effect.ts:102-179 | the compiler's evaluator computes the same meaning on trees without null children |
| WritesEffect.SameTreeSameEffect | engine/src/writes_effect.cpp:62-103 | the order in which cases are visited and repeats in key lists do not matter |
| WritesEffect.EvaluatorsAgree | dsl/packages/runtime/src/writes-effect.ts:102-179 | on the two forms of one tree, cases in whatever order, both evaluators return the same effect |
| WritesEffect.KeysAscend | engine/src/writes_effect.cpp:14-20 | key lists are strictly ascending |
| WritesEffect.SwitchEffect | engine/src/writes_effect.cpp:62-103 | a switch on a bound enum is the first case of that name, or unknown; on anything else it may write exactly what its cases write, is unknown if a case is, and without cases writes nothing |
| WritesEffect.UnionEffect | engine/src/writes_effect.cpp:105-125 | a union is unknown exactly if an item is null or unknown, exact exactly if all items are, and writes exactly what they write |
| WritesEffect.LeafEffect | engine/src/writes_effect.cpp:40-61 | a key list writes its keys, a key parameter the key it is bound to or something unknown |
| WritesEffect.ExtendRefinesIff | engine/src/writes_effect.cpp:40-125 | binding more parameters keeps an exact effect and makes a May effect exact or smaller if and only if the switches that evaluation goes through list the values added; otherwise the effect becomes unknown |
| WritesEffect.ExtendRefines | engine/src/writes_effect.cpp:40-125 | for values listed by every switch that looks at them it always does |
| WritesEffect.UnlistedValueLosesBound | engine/src/writes_effect.cpp:62-80 | a two-case switch that loses its bound to an unlisted value |
| WritesEffect.BuildParamBindings | engine/src/executor.cpp:13-29 | bound are exactly the strings, to enum values, and the positive integers of other names, to the key of that number or its remainder modulo 2^32 |
| WritesEffect.EffectiveWritesMean | engine/src/task_registry.cpp:31-66 | static writes alone are exactly those keys, and with a dynamic expression the effect is their combination |
| SchemaDelta.CollectKeys | engine/include/schema_delta.h:29-45 | exactly the float and string columns, ascending, without repeats |
| SchemaDelta.ComputeSchemaDelta | engine/include/schema_delta.h:73-106 | in all four arities, and in ascending order: the new keys are exactly the float and string columns of the output that no input has, the removed ones those of some input that the output lacks, and the two other lists all of the inputs' and all of the output's |
| SchemaDelta.NodeDelta | engine/src/executor.cpp:336-349 | the same-batch short cut gives the same delta as the full computation |
| SchemaDelta.DeltaTellsColumns | engine/include/schema_delta.h:73-106 | the same of the sets of columns, for any inputs and output |
| SchemaDelta.VmAddsItsKey | engine/src/tasks/core/vm.cpp:28-121 | a vm run that writes a key its input lacks reports exactly that key, and one that overwrites a column reports nothing |
| SchemaDelta.ViewTasksAddNothing | engine/src/tasks/core/filter.cpp:30-65 | filter, sort and take add and remove no column |
| SchemaDelta.ConcatAddsNothing | engine/src/tasks/core/concat.cpp:66-206 | concat adds and removes none either |
| ColumnTasks.RunVm | engine/src/tasks/core/vm.cpp:32-121 | it succeeds exactly on a writable float key, a known expression and no null for a key that takes none; the view is kept, and the new column holds the expression's value in the active rows and null elsewhere |
| ColumnTasks.RunFixedSource | engine/src/tasks/test/fixed_source.cpp:46-65 | rows 1 to n and no column |
| SchemaDelta.EvaluateNode | engine/src/executor.cpp:176-183 | the effect kept for a node is the meaning of its effective writes under its bindings |
| SchemaDelta.DeclaredEffects | engine/src/executor.cpp:176-183 | filter, sort, take, concat and the fixed source evaluate to no writes, vm to its output key |
| SchemaDelta.AddsAtMostDeclared | engine/src/tasks/core/vm.cpp:28-121 | each modelled task returns a well-formed output and adds at most the columns of its evaluated effect |
| SchemaDelta.RunTask | engine/src/executor.cpp:320-334 | the modelled tasks behave as the run theorems take them to |
| SchemaDelta.NewKeysDeclared | engine/src/executor.cpp:336-349 | over a whole run the columns a node is seen to add are among the keys evaluated for it at validation, with nothing assumed of the modelled tasks |
| SchemaDelta.ColumnHasWriter | engine/src/executor.cpp:176-183 | every column of a node's output was declared by the node or by one it depends on along a path of dependencies, or such a path leads to a node with an unknown effect |
| Predicates.CompiledExprMeans | dsl/packages/compiler/src/expr-compiler.ts:38-179 | a compiled expression evaluates on every row to the number the source stands for |
| Predicates.ArithmeticMeans | engine/include/expr_eval.h:96-130 | addition, subtraction, multiplication, negation and coalesce compute the operators on numbers, and null exactly where an operand makes them null |
| Predicates.ReadsMean | engine/include/expr_eval.h:39-94 | a key reads the id or its float column where valid, a parameter its integer or float value; everything else is null |
| Predicates.ExprAcceptedIff | dsl/packages/compiler/src/expr-compiler.ts:38-179 | the expression compiler accepts exactly finite numbers, null, known names, signs, sums, differences, products and two-argument coalesce, in any parentheses |
| Predicates.TermIsExpr | dsl/packages/compiler/src/pred-compiler.ts:56-124 | operands of comparisons are compiled as expressions are |
| Predicates.CompiledPredMeans | dsl/packages/compiler/src/pred-compiler.ts:146-280 | whenever a predicate compiles, its IR evaluates on every row to what the source means, errors included |
| Predicates.PredAcceptedIff | dsl/packages/compiler/src/pred-compiler.ts:146-383 | the predicate compiler accepts exactly its grammar: connectives of predicates, comparisons of numbers, names and nulls, bare nulls only in (in)equalities, and `regex` on a known key with a text or known parameter |
| Predicates.CompareMeans | engine/include/pred_eval.h:163-225 | each comparison of two operands that are not literal nulls is that of the numbers, and false if one is null |
| Predicates.InMeans | engine/include/pred_eval.h:227-280 | an in-list holds exactly if the number, or the decoded string of the key's column, is one of those listed; a null is in none, and a string list on anything but a key is an error |
| Predicates.RegexEvalMeans | engine/include/pred_eval.h:282-318 | a null matches nothing; otherwise the decoded string is tested against the literal or the parameter's string, and a missing string or a pattern that is not well-formed is an error |
| Predicates.NeverUnknown | engine/include/pred_eval.h:98-325 | an evaluation that returns never returns "unknown" |
| Predicates.Classical | engine/include/pred_eval.h:104-152 | so and, or and not are classical wherever their operands return |
| Predicates.NullChecksAgree | engine/include/pred_eval.h:154-198 | is_null and not_null agree with comparison to a literal null, on either side |
| Predicates.ParenthesesTransparent | dsl/packages/compiler/src/pred-compiler.ts:160-162 | a predicate accepted with and without its parentheses evaluates the same on every row |
| Predicates.StripAcceptedIff | dsl/packages/compiler/src/pred-compiler.ts:146-383 | for every predicate: accepted as written, it is accepted without parentheses if and only if it orders nothing against null; accepted without, it is accepted as written if and only if no name and no argument of `regex` is in parentheses |
| Predicates.StripExprIff | dsl/packages/compiler/src/expr-compiler.ts:38-179 | an expression is accepted if and only if it is without its parentheses and no name is in parentheses, and it then compiles to the same |
| Predicates.ParenthesesReachNull | dsl/packages/compiler/src/pred-compiler.ts:217-239 | `Key.x < null` is refused and `Key.x < (null)` compiles |
| Predicates.ParenthesesReachRegex | dsl/packages/compiler/src/pred-compiler.ts:286-383 | `regex((Key.x), "p")` is refused and `regex(Key.x, "p")` compiles |
| RegexCache.RegexCache.GetOrBuild | engine/include/pred_eval.h:46-78 | whether cached or built, the table holds the direct match of every dictionary entry; a bad pattern is an error and leaves no trace |
| RegexCache.RegexCache.EvalPredCached | engine/include/pred_eval.h:98-325 | evaluating with the cache gives what evaluating without any cache gives, as long as addresses keep naming one dictionary |
| RegexCache.RegexCache.CallsCounted | engine/include/pred_eval.h:46-78 | since the last clear the matcher was called once per dictionary entry of every distinct key used |
| RegexCache.SizeSumSame | engine/include/pred_eval.h:46-78 | the order in which keys were first used does not matter to that number |
| Rewriting.ApplyReplacements | dsl/packages/compiler/src/ast-extractor.ts:397-410 | splicing disjoint spans from the last to the first equals replacing all of them at once, in whatever order they were found |
| Rewriting.RoundTrip | dsl/packages/compiler/src/ast-extractor.ts:397-410 | putting the original spans back over the placeholders gives the original text |
| Rewriting.TextsInPlace | dsl/packages/compiler/src/ast-extractor.ts:397-410 | in the rewritten text each placeholder stands where its span was |
| IdTables.DecimalInjective | dsl/packages/runtime/src/plan.ts:107-117 | different numbers give different ids |
| IdTables.DecimalReads | dsl/packages/runtime/src/plan.ts:107-117 | the numeral of a number reads as that number, in digits and without a leading zero |
| IdTables.PlanCtx.AddIR | dsl/packages/runtime/src/plan.ts:107-117 | the id handed out is new and names the entry just added |
| IdTables.PlanCtx.AddNode | dsl/packages/generated/task-impl.ts:447-455 | a node carries the id of its own entry, or the name of its placeholder, and earlier entries stay |
| IdTables.MergeExtracted | dsl/packages/compiler/src/cli.ts:240-283 | every placeholder's node resolves to the IR extracted under its number, and ids and entries made by the builder stay as they were |
| Extraction.NothingCompilableSkipped | dsl/packages/compiler/src/ast-extractor.ts:125-203 | the extractor passes over nothing that would have compiled |
| Extraction.NaturalExprIff | dsl/packages/compiler/src/ast-extractor.ts:125-154 | what is extracted as an expression, inside any parentheses: numbers, null, prefixes, binary operations, names and coalesce; everything else is left alone |
| Extraction.NaturalPredIff | dsl/packages/compiler/src/ast-extractor.ts:160-203 | what is extracted as a predicate; everything else is left alone |
| Extraction.ExtractAll | dsl/packages/compiler/src/ast-extractor.ts:253-310 | no error exactly when every natural argument compiles, and then each has one placement with its span and its own IR |
| Extraction.ExtractExpressions | dsl/packages/compiler/src/ast-extractor.ts:386-417 | with an error the source stays as it is, otherwise all spans are replaced at once |
| Extraction.PlaceholderTells | dsl/packages/compiler/src/ast-extractor.ts:397-410 | a placeholder names the table of expressions or of predicates, and its number reads back |
| Extraction.ExprReachesNode | dsl/packages/compiler/src/cli.ts:240-283 | after the merge a node finds, under its id, IR that evaluates on every row to the number its source span stands for |
| Extraction.PredReachesNode | dsl/packages/compiler/src/cli.ts:296-339 | the same for predicates |

## Left out

- SequentialExecutor.ValidatePlan: whether a node's parameters fit its task's schema is a verdict given with the node.
- ParallelScheduler.EveryRunEnds: spurious wake-ups are excluded from the bound on the number of steps, because their number is unbounded; they are allowed everywhere else.
- AsyncScheduler.AsyncSchedulerState.RunNode: a task's run is one choice between finishing at once and suspending; suspending again later changes nothing in the scheduler and is a turn of the loop.
- Executors.ValidateAndRun: the order in which schema deltas are listed follows each executor's own topological order and is not compared.
- Timeouts.OnTimeNeverLate: a timer may fire before its deadline by the part of a millisecond that is cut off when it is started and by the age of the loop's reading of the clock; `early` bounds both, and what it is is not derived.
- EventLoopProtocol.StepInv: failures of `uv_async_init` and of thread creation, which return the loop to idle, are not modelled, and a stop runs at most once because only one compare-and-swap can succeed.
- RedisCommands.EveryHistoryEnds: a stop made from inside a nested callback is a step between callbacks; that hiredis calls back exactly once for every command it accepts is an assumption, built into the actions.
- RowTasks.RunSort: the library's stable sort is represented by its contract, which is shown to have one result; the exception for a code outside the dictionary cannot occur on a well-formed batch.
- Concat.ConcatStrings: the comparison of dictionary pointers is merged into the comparison of their contents, which gives the same output; codes are unbounded integers, so a merged dictionary of more than 2^31 strings is not modelled.
- SchemaDelta.NodeDelta: the comparison of batch pointers is a flag, with the assumption that equal pointers mean equal batches.
- WritesEffect.EvalWritesTs: case names that JavaScript objects inherit (`constructor`, `toString`) are not modelled.
- RegexCache.RegexCache.EvalPredCached: addresses are numbers and the dictionaries they name are given; freeing and reuse of memory appear only as what `Clear` may change.
- Extraction.ExtractExpressions: the visit of the syntax tree and the lookup of which task takes which argument are given as the list of sites; the spans of natural sites are assumed not to overlap when all of them compile.
- Predicates.CompiledExprMeans: numbers are reals; NaN, infinities and rounding are not modelled, and an id is read exactly.
- The counter of nodes remaining in the async scheduler, which is counted but never read, and the choice between the CPU and the IO pool.
- The lifetimes of coroutine frames, handles and shared pointers; `ThreadPool::wait_idle`; the notification after unlocking in the parallel scheduler touching a state that may be gone.
- NodeRef parameters have no defaults, as in every task of the repository; a default would not be counted as a dependency.
- A bound of zero or less on the nodes in flight, which the parallel executor replaces by the size of its pool.
- SchemaDelta.NewKeysDeclared: of the tasks viewer, follow, media and recommendation, which are not modelled, it is assumed that they add at most their declared writes and return well-formed row sets.
- AsyncTimeout.ResumedExactlyOnce: handles made after the stop's walk may fire or not; what libuv does with a handle that is closed twice is not modelled.
- libuv, hiredis, RE2, QuickJS, the TypeScript parser and JSON: they appear as events, functions and trees.
- Digests, command-line handling, code generators, benchmarks and the visualizer.
