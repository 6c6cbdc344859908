# Verified model of the stream runtime's ownership protocols

The runtime moves messages through streams whose requests, assignments and background tasks are
owned by somebody at every moment: a request session belongs to its lifecycle until its one
`end_request`, a shutdown job to the shutdown that launched it, a Kafka partition context to the
table that issued it, a cron run to the scheduler's join set. This project models those protocols
and proves what they keep in every interleaving, together with the pure algorithms beside them
(cron catch-up, interval parsing, configuration merge, configuration tables).

Layout. A protocol is a labelled step system: a step is the code between two awaits, its label
carries every choice the step makes, and a run is any sequence of enabled labels (`Runs.dfy`). So
callers are dropped at any await, contexts are cancelled at any time, handlers and native calls
return in any order with any result. Theorems are about all runs. Beside each step system stands a
class in the form of the code: fields updated in place, methods with the code's branches and loops,
and an `Await` at every await. The class keeps the sequence of its steps as a ghost log, and
`Valid()` says that the fields are what that run leads to, so every theorem about runs is a theorem
about the class. An await is `Yield`, which promises only that some run of foreign steps has
happened, followed by a proof (`ForeignRunKeeps`) of what every such run leaves alone. What the environment decides (whether a
caller is dropped or runs out of time, what a handler or a native call returns) is an input, so a
contract says which outcome there is for which input. Waiting that need not end (a loop over
wakeups, a lock that is not free) is followed for a number of turns given by a parameter, or
reported together with what is being waited for, so the contracts hold for every prefix of an
activation.

Counters and histories in the states are there to state the theorems. For each system a lemma
(`...AreTold`, `...TakesItsCourse`) ties them, and the position of every actor, to the labels of the
run, so that the theorems speak about what the run did.

| step system or functions | class in the form of the code | subject |
|---|---|---|
| `GrpcSource` | `GrpcEndpoint.Endpoint` | request sessions of the gRPC source |
| `GrpcSink` | `GrpcSinkEndpoint.Sink` | sessions of the client-streaming and bidi gRPC sinks |
| `HttpSource` | `HttpEndpoint.Endpoint` | request sessions of the HTTP source |
| `RotatingMap` | `RotatingMap.RotatingMap` | the pending-request table the sessions are kept in |
| `ServiceShutdown` | `ServiceAppStop.ServiceApp` | resumable shutdown |
| `ParallelRegistry` | `ParallelDrain.Registry` | parallel graph tasks and their drain |
| `KafkaAssignments`, `KafkaCounterexamples` | `KafkaCheckpoint.Assignments` | assignment fencing |
| `KafkaDataSource` | `KafkaLifecycle.DataSource` | start, rollback and stop of the Kafka source |
| `SubStream` | `SubStreamCall.CallState` | one SubStream call |
| `UnarySender` | `UnarySlot.Slot` | the unary response slot |
| `CronSchedule`, `CronScheduler` | `CronLoop.Scheduler` | cron catch-up and the scheduler loop |
| `ConfigMerge`, `RuntimeConfig` | `ConfigReload.ConfigLoader` | layered configuration and its tables |
| - | `PendingQueue.Queue` | the FIFO queue of the task pools |

Five promises do not hold on all inputs. The model keeps the code as it is, gives a run or an
input that breaks each, and proves the exact boundary:

- a drain of the parallel registry is complete exactly when no other drainer holds unfinished
  tasks (`ConcurrentDrainMissesTasks`, `DrainReturnsWhenAllDone`);
- the division used for interval catch-up agrees with stepping exactly when the first occurrence
  lies on a millisecond, nothing after it is due, or the clock's range is left
  (`UnalignedStartDiffers`, `DivisionNeedsAlignment`); the scheduler only ever has aligned ones;
- three configuration layers may be regrouped exactly when they are `Regroupable`
  (`SeparatedLayersDiffer`, `MergeAssociates`);
- in the gRPC sinks, dropping an initializer after `begin_request` leaks its request
  (`DroppedInitializerLeaks`); requests of one ID overlap exactly when a leaked one has another
  leaked or the live one beside it (`OverlapNeedsLeak`);
- a Kafka acknowledgement is accepted for exactly the stamps whose assignment was made a multiple
  of 2^64 changes before the one in force (`AcknowledgedExactly`), so fewer than 2^64 changes since
  are safe and 2^64 are not (`WrappedGenerationIsReused`).

The Kafka fence after a failure begins when `fail` has cancelled the contexts, not when it has
recorded the error (`RecordedErrorStillAcknowledges`, `RecordFencesNothing`).

`dafny verify dfyconfig.toml` checks everything.

## Model

| member | source | states |
|---|---|---|
| GrpcSource.NothingOverlapsEnd | src/datasource/grpc/mod.rs:711-902 | in every run, while a future is inside a session's `end_request` no result callback of that session runs, no other future owns it, and it is the only entry ever |
| GrpcSource.NothingFollowsEnd | src/datasource/grpc/mod.rs:711-902 | after `end_request` of a session was entered, by its finalizer or by the rejection of a duplicate, no later step of the run enters any handler code of that session |
| GrpcSource.EndIsOwedOnce | src/datasource/grpc/mod.rs:68-106 | whatever await the caller is dropped at, a successful `begin_request` has had exactly one `end_request` or exactly one future still owes it |
| GrpcSource.ReservedUntilEnded | src/datasource/grpc/mod.rs:599-644 | an accepted session holds its stream ID exactly until `end_request` has returned, so accepted sessions with one ID never overlap |
| GrpcSource.FinalizingShrinksWork | src/datasource/grpc/mod.rs:711-782 | a closing session's remaining work never grows and each finalizing step reduces it |
| GrpcSource.FinalizingIsEnabled | src/datasource/grpc/mod.rs:711-782 | a closing session that has not ended always has an enabled finalizing step |
| GrpcSource.NoSessionIsStranded | src/datasource/grpc/mod.rs:433-503 | in every run, a session that has not ended has an enabled step towards its end |
| GrpcSource.SessionTakesItsCourse | src/datasource/grpc/mod.rs:433-503 | in every run the last step of a session and the drop of its caller determine its owner: the handler in progress by name, the caller until it is dropped, a finalizer from then on, each stage of the finalization, the counts of its ends and whether it is closing |
| GrpcSource.OpenUntilFinished | src/datasource/grpc/mod.rs:465-503 | a session whose caller is there and has not finished it is open, holds its ID and is with its caller or a handler |
| GrpcSource.ResultTakesItsCourse | src/datasource/grpc/mod.rs:784-902 | in every run the last act of a delivery determines its stage |
| GrpcSource.ResultReachesOpenSession | src/datasource/grpc/mod.rs:816-831 | the recheck lets a result into handler code exactly when the session is open and holds its ID |
| GrpcSource.ActKeepsSession | src/runtime/common.rs:680-744 | every act on a session, drop of the caller included, keeps single ownership and the count of ends |
| GrpcSource.StepKeepsInv | src/datasource/grpc/mod.rs:505-644 | every step keeps that a session has one owner until its end has returned, that callbacks run only before the end, and that the pending table holds exactly the accepted sessions not yet ended |
| GrpcEndpoint.ForeignRunKeeps | src/datasource/grpc/mod.rs:433-503 | what a future may rely on across an await: its own position, and that closing and ends are not undone |
| GrpcEndpoint.Endpoint.BeginOwned | src/datasource/grpc/mod.rs:433-464 | begin_request failing is reported exactly when it fails; an accepted begin leaves the caller as sole owner with the ID reserved, one whose caller was dropped a finalizer, and a duplicate is over after one `end_request` |
| GrpcEndpoint.Endpoint.Admission | src/datasource/grpc/mod.rs:584-644 | rejected exactly when the ID is taken; otherwise reserved and handed to the caller, or to a finalizer when the caller has gone |
| GrpcEndpoint.Endpoint.Reject | src/datasource/grpc/mod.rs:599-639 | a duplicate's session is over after one `end_request`, with no owner left |
| GrpcEndpoint.Endpoint.RunHandler | src/datasource/grpc/mod.rs:466-490 | the named handler is called and returns; the lifecycle comes back armed exactly when the caller was not dropped, otherwise a finalizer is the sole owner |
| GrpcEndpoint.Endpoint.DropLifecycle | src/datasource/grpc/mod.rs:96-106 | dropping an armed lifecycle closes admission and leaves one detached finalizer as sole owner |
| GrpcEndpoint.Endpoint.FinishOwned | src/datasource/grpc/mod.rs:492-503 | done means one `end_request`, no owner and the ID free; not done means a callback still holds its guard |
| GrpcEndpoint.Endpoint.Finish | src/datasource/grpc/mod.rs:711-782 | the same for `finish` itself: closing, draining, ending, releasing in this order |
| GrpcEndpoint.Endpoint.Recheck | src/datasource/grpc/mod.rs:816-831 | a callback is entered exactly when the session is open and still holds the ID, and then its end has not begun; the step is the recheck of the run |
| GrpcEndpoint.Endpoint.ConsumeResult | src/datasource/grpc/mod.rs:784-902 | each outcome has its reason: no session under the ID on arrival, closing, dropped, a writer in the lock, no longer open or in the table at the recheck; otherwise the callback of the session that held the ID was entered |
| GrpcEndpoint.Endpoint.TakeReadGuard | src/datasource/grpc/mod.rs:801-815 | the biased select: late exactly when closing, otherwise the guard unless dropped or a writer holds the lock |
| GrpcSink.OpenRequestsAreDisjoint | src/datasink/grpc/clientstreaming.rs:278-439 | with no initializer dropped, begin-to-end intervals of one stream ID are disjoint, in one cell and across cells, for both sinks |
| GrpcSink.OpenRequestsAreCounted | src/datasink/grpc/bidistreaming.rs:282-442 | the requests begun and not ended in a cell are exactly the live one and the leaked ones |
| GrpcSink.LiveIsUnique | src/datasink/grpc/clientstreaming.rs:290-297 | over all cells of an ID at most one request is begun and will still be ended, whatever was dropped |
| GrpcSink.OpenAcrossCells | src/datasink/grpc/clientstreaming.rs:278-439 | the requests open over any cells of an ID number exactly the leaked ones plus at most one live one |
| GrpcSink.OverlapNeedsLeak | src/datasink/grpc/clientstreaming.rs:278-439 | two requests of an ID are open at once exactly when a leaked one has another leaked or the live one beside it |
| GrpcSink.DroppedInitializerLeaks | src/datasink/grpc/clientstreaming.rs:290-390 | a run in which a dropped initializer leaves a request open beside the next one |
| GrpcSink.NoMessageAtEnd | src/datasink/grpc/clientstreaming.rs:171-262 | no `consume_message` runs inside or after `end_request`, and the recheck turns late ones away |
| GrpcSink.NothingAdmittedAfterClosing | src/datasink/grpc/bidistreaming.rs:405-426 | after closing, no later step of the run admits a message |
| GrpcSink.ReservationIsNeverStolen | src/datasink/grpc/bidistreaming.rs:265-265 | a removed reservation was that of the acting cell, which no longer stands for the ID; no other cell loses one |
| GrpcSink.OpenIsReserved | src/datasink/grpc/clientstreaming.rs:290-297 | while its request is open, a cell holds its stream ID |
| GrpcSink.FinalizingShrinksWork | src/datasink/grpc/clientstreaming.rs:168-262 | a closing session never gets more work and each finalizing step, in both sinks, removes some |
| GrpcSink.NoRequestIsStranded | src/datasink/grpc/bidistreaming.rs:190-267 | in every run, a begun request that was not leaked has an enabled step that leaves less work until its end |
| GrpcSink.CellTakesItsCourse | src/datasink/grpc/clientstreaming.rs:168-262 | in every run the acts on a cell are those of its course: a response received by the client sink is handled exactly once, after the drain and before `end_request`, and without one nothing is; the bidirectional sink handles every response up to the first bad one, then closes, drains and ends |
| GrpcSink.CountersAreTold | src/datasink/grpc/bidistreaming.rs:282-442 | the counters of a cell are its successful begin_request and its returned end_request calls |
| GrpcSink.StepKeepsInv | src/datasink/grpc/clientstreaming.rs:156-264 | every step, in both sinks, keeps the balance of begins, ends and leaks, admission only before the drain, and that every cell that can still begin or has a request open holds its ID |
| GrpcSinkEndpoint.ForeignRunKeeps | src/datasink/grpc/clientstreaming.rs:278-439 | across an await, consumer, initializer and finalizer each keep their own position on the cell |
| GrpcSinkEndpoint.Sink.Consume | src/datasink/grpc/clientstreaming.rs:278-439 | the message goes through the cell that stood for its ID on arrival; a consumed one was admitted by a recheck of the run, a rejected one found the session closing, one without a session found the cell failed and not holding the ID, an unfinished one found another task initializing |
| GrpcSinkEndpoint.Sink.Initialize | src/datasink/grpc/clientstreaming.rs:297-389 | the consumer goes on with a session exactly when begin_request and the call both succeed, otherwise without one |
| GrpcSinkEndpoint.Sink.Admit | src/datasink/grpc/clientstreaming.rs:402-413 | a message is admitted only while the session is open, otherwise its consumer leaves |
| GrpcSinkEndpoint.Sink.UpdateAndPop | src/datasink/grpc/clientstreaming.rs:393-399 | the pop frees the cell's own ID and leaves every other reservation in place |
| GrpcSinkEndpoint.Sink.FinalizeClient | src/datasink/grpc/clientstreaming.rs:156-264 | done exactly when no admitted message runs; its acts are then closing, receiving unless cancelled, draining, handling a response if one was received, and ending, with the ID free |
| GrpcSinkEndpoint.Sink.FinalizeBidi | src/datasink/grpc/bidistreaming.rs:190-267 | every response of the stream is handled up to the first bad one; then admission closes, messages drain and the request ends; not done only while an admitted message runs |
| GrpcSinkEndpoint.Sink.EndRequest | src/datasink/grpc/bidistreaming.rs:254-265 | after it every begun request of the cell that was not leaked has ended |
| HttpSource.NoCallbackAtEnd | src/datasource/http/axum.rs:949-990 | no result callback overlaps or follows a request's `end_request`, even when its ID is reused, and that is entered once |
| HttpSource.ResultReachesHolder | src/datasource/http/axum.rs:1009-1082 | a result enters handler code exactly for the request that holds the ID at the recheck, which has not begun to end |
| HttpSource.PopRemovesOwnEntry | src/datasource/http/axum.rs:949-959 | the unconditional pop removes exactly the request's own entry, so its own lock is drained |
| HttpSource.HoldersAreDistinct | src/datasource/http/axum.rs:877-913 | requests that still hold their ID never share it |
| HttpSource.IdIsReusedWhileDraining | src/datasource/http/axum.rs:949-959 | a run in which the ID is taken again before the first request has ended |
| HttpSource.NoRequestIsStranded | src/datasource/http/axum.rs:877-990 | in every run, a request that has not ended has an enabled step, its own or of a callback it admitted, that leaves less work |
| HttpSource.FreedShrinksWork | src/datasource/http/axum.rs:949-990 | once a request has freed its ID, every step on it, its own or of a result, strictly reduces the work left |
| HttpSource.RequestTakesItsCourse | src/datasource/http/axum.rs:877-990 | in every run the steps of a request are exactly those of its course up to its stage: begin, consume, the wait if a result is expected, free, drain, end; a duplicate only begins and ends |
| HttpSource.ResultIsAwaited | src/datasource/http/axum.rs:938-955 | with a result stream, a message consumed well is followed by the wait before the ID is freed, and no other request waits; the ID is held exactly until it is freed |
| HttpSource.EndGetsOutcome | src/datasource/http/axum.rs:960-990 | `end_request` is given success exactly when the message was consumed well and, with a result stream, `done` was called before the drain, however the wait ended |
| HttpSource.SignalsAreTold | src/datasource/http/axum.rs:938-948 | the done and cancellation tokens are set exactly by their signals |
| HttpSource.StepKeepsInv | src/datasource/http/axum.rs:877-1082 | every step keeps that a request drains the lock of its own entry, that no guard is read-held while it ends, and that the table holds exactly the requests that have not freed their ID |
| HttpEndpoint.Endpoint.Serve | src/datasource/http/axum.rs:877-990 | the request takes all its steps and returns its result, or is seen waiting for a result that has neither come nor been cancelled, or for callbacks that hold their guards; a duplicate fails at once |
| HttpEndpoint.Endpoint.Drain | src/datasource/http/axum.rs:956-959 | the write guard is obtained exactly when no callback holds a read guard, and then the result is settled by what was consumed and whether `done` was called |
| HttpEndpoint.Endpoint.WaitForResult | src/datasource/http/axum.rs:938-948 | the wait ends exactly when `done` was called or the context cancelled |
| HttpEndpoint.Endpoint.Free | src/datasource/http/axum.rs:949-955 | the removed entry is the request's own and the ID is free afterwards |
| HttpEndpoint.Endpoint.Recheck | src/datasource/http/axum.rs:1027-1041 | a callback is entered exactly when the entry is still the table's, and then the end has not begun |
| HttpEndpoint.Endpoint.ConsumeResult | src/datasource/http/axum.rs:1009-1082 | each outcome has its reason: no request on arrival, dropped, a writer in the lock, the ID no longer held at the recheck; otherwise the callback of the request that held the ID was entered |
| HttpEndpoint.ForeignRunKeeps | src/datasource/http/axum.rs:877-1082 | what the request and its deliverers may rely on across an await |
| RotatingMap.RotatingMap.Set | src/runtime/store/rotatingmap.rs:102-109 | the sharded two-generation map behaves as one map: inserts exactly when the key is absent |
| RotatingMap.RotatingMap.GetOrCreate | src/runtime/store/rotatingmap.rs:111-123 | returns the present value or inserts the created one |
| RotatingMap.RotatingMap.Get | src/runtime/store/rotatingmap.rs:125-136 | is the lookup in that one map |
| RotatingMap.RotatingMap.Pop | src/runtime/store/rotatingmap.rs:138-147 | removes the key and nothing else |
| RotatingMap.RotatingMap.PopIf | src/runtime/store/rotatingmap.rs:149-168 | removes the key exactly when its value passes the test |
| RotatingMap.RotatingMap.Rotate | src/runtime/store/rotatingmap.rs:170-182 | rotation never loses, adds or changes an entry, and treats every shard by the high-water rule |
| RotatingMap.Fit | src/runtime/store/rotatingmap.rs:184-209 | a shard is rotated exactly when it reached the minimum capacity and is new or has shrunk to less than a quarter of its mark |
| RotatingMap.RotationKeeps | src/runtime/store/rotatingmap.rs:199-209 | rotating a shard, or leaving it, keeps its entries and the disjointness of its generations |
| ServiceShutdown.LaunchIsOrdered | src/runtime/serviceapp.rs:835-868 | in every run of stops that time out, are dropped, race or retry, a job is launched only with both servers drained, all earlier phases returned Ok and no task of its own alive |
| ServiceShutdown.LaunchesAreBounded | src/runtime/serviceapp.rs:835-868 | a job never has two live tasks and is launched at most once more than its own tasks returned ContextCancelled |
| ServiceShutdown.FailureIsFinal | src/runtime/serviceapp.rs:808-868 | after a recorded failure nothing is launched or completed and Stopped is out of reach |
| ServiceShutdown.FailedRunStaysFailed | src/runtime/serviceapp.rs:808-821 | a recorded failure is never forgotten |
| ServiceShutdown.StoppedMeansDrained | src/runtime/serviceapp.rs:797-872 | Stopped implies that every job returned Ok and nothing runs |
| ServiceShutdown.OkMakesProgress | src/runtime/serviceapp.rs:835-872 | (phases left, incomplete jobs of the phase) never grows and strictly decreases with each job that returned Ok |
| ServiceShutdown.EveryResourceHasItsJob | src/runtime/serviceapp.rs:722-795 | after the phases were built, in every run, there are eight phases and each source, component, pool, storage, sink and telemetry engine has exactly one job at its seat, with the sizes spelled out |
| ServiceShutdown.ProducersStopFirst | src/runtime/serviceapp.rs:722-868 | when the stop of a resource is launched, those of all resources of earlier phases have returned Ok; so sinks outlive sources, components, pools, storages and the parallel drain |
| ServiceShutdown.StoppedStopsEverything | src/runtime/serviceapp.rs:797-872 | a service stopped after its phases were built has stopped every one of its resources |
| ServiceShutdown.RecordsAreTold | src/runtime/serviceapp.rs:835-868 | the launches, cancellations and success recorded for a job are those of the run |
| ServiceShutdown.FailureIsTold | src/runtime/serviceapp.rs:824-868 | the failure is recorded exactly when a failed server was drained or a job was seen to return an error other than cancellation |
| ServiceShutdown.ServersAreTold | src/runtime/serviceapp.rs:175-191 | a server that was started is in its slot until it has exited and been drained |
| ServiceShutdown.ServersDrainFirst | src/runtime/serviceapp.rs:824-868 | no job is launched before every server that was started has exited and been drained |
| ServiceShutdown.StepKeepsInv | src/runtime/serviceapp.rs:722-872 | every step keeps that finished phases hold only retired jobs, later ones none launched, and that task handles, live tasks and recorded outcomes of a job agree |
| ServiceAppStop.ForeignRunKeeps | src/runtime/serviceapp.rs:797-872 | steps of other tasks leave the phase cursor, the job handles and the failure alone |
| ServiceAppStop.ServiceApp.Stop | src/runtime/serviceapp.rs:797-872 | Ok only when everything is drained and every resource of the service has been stopped; a failure is reported and stays; otherwise the caller was dropped, ran out of time, saw a job that did, or waits for a server or job that runs |
| ServiceAppStop.ServiceApp.EnterStop | src/runtime/serviceapp.rs:804-821 | who is admitted to shut down, and what the refused callers are told, with other `stop` callers acting freely until the progress lock is given |
| ServiceAppStop.ServiceApp.DrainServer | src/runtime/serviceapp.rs:175-191 | Ok leaves the slot empty, a failure is recorded exactly when the server task failed, pending means the server still serves |
| ServiceAppStop.ServiceApp.RunPhase | src/runtime/serviceapp.rs:835-868 | Ok means every job of the phase is completed; pending means one of them still runs; the cursor does not move |
| ServiceAppStop.ServiceApp.AwaitJob | src/runtime/serviceapp.rs:846-866 | the loop goes on exactly past a job that returned Ok; a cancelled or failed one ends it with the matching answer |
| ServiceAppStop.ServiceApp.RunPhases | src/runtime/serviceapp.rs:835-868 | Ok means the cursor passed the last phase; a failure is recorded exactly when it is returned |
| ParallelRegistry.DrainReturnsWhenAllDone | src/runtime/environment/mod.rs:193-209 | when a drain returns, every task ever registered, transitively too, has finished exactly if no other drainer holds unfinished ones |
| ParallelRegistry.SingleDrainIsComplete | src/runtime/environment/mod.rs:193-209 | with one undropped drain, all work is finished at its return |
| ParallelRegistry.EmptyStaysEmpty | src/runtime/environment/mod.rs:169-209 | from then on, if only registered tasks spawn, the registry stays empty |
| ParallelRegistry.TasksAreTold | src/runtime/environment/mod.rs:169-191 | the registered tasks are those the run spawned, and the live ones those that have not finished |
| ParallelRegistry.SingleDrainFinishesAll | src/runtime/environment/mod.rs:193-209 | when a single drain returns, every task the run spawned has finished |
| ParallelRegistry.ConcurrentDrainMissesTasks | src/runtime/environment/mod.rs:193-209 | a run in which a second drain returns while a task still runs |
| ParallelRegistry.StepKeepsInv | src/runtime/environment/mod.rs:169-209 | every step keeps that a live task is registered, held by a drainer or lost with one |
| ParallelDrain.ForeignRunKeeps | src/runtime/environment/mod.rs:193-209 | across an await a drainer keeps its handles, and finished tasks stay finished |
| ParallelDrain.Registry.DrainParallel | src/runtime/environment/mod.rs:193-209 | the loop returns with an empty registry and the exact completeness above; otherwise it waits for a task that runs |
| ParallelDrain.Registry.SpawnParallel | src/runtime/environment/mod.rs:169-191 | the task is live and registered after the earlier ones |
| KafkaAssignments.AcknowledgedMeansUninterrupted | src/datasource/kafka/checkpoint.rs:31-45 | with fewer than 2^64 changes since the assignment was made, a stamped acknowledgement takes effect only if it was in force, uncancelled, at every moment since the stamp |
| KafkaAssignments.AcknowledgedExactly | src/datasource/kafka/checkpoint.rs:39-45 | a stamp is accepted exactly when nothing failed, the entry in force is uncancelled and it was made a multiple of 2^64 changes after the stamped one |
| KafkaAssignments.StaleOnlyAfterWrap | src/datasource/kafka/checkpoint.rs:34-45 | a stamp is accepted under another assignment only when the two were made a positive multiple of 2^64 changes apart |
| KafkaAssignments.SameChangeSameEntry | src/datasource/kafka/checkpoint.rs:87-109 | entries of a partition at two points of a run are the same exactly when the same change made them |
| KafkaCounterexamples.WrappedGenerationIsReused | src/datasource/kafka/checkpoint.rs:96-109 | a run in which a stamp of a revoked assignment is accepted, exactly 2^64 changes after that was made |
| KafkaAssignments.GenerationOutlives | src/datasource/kafka/checkpoint.rs:87-109 | from any point of any run on, a partition's entry is untouched or its assignment has passed for good |
| KafkaAssignments.PassedStaysPassed | src/datasource/kafka/checkpoint.rs:96-109 | an assignment that has passed never comes back: later entries are of later changes, without any bound on their number |
| KafkaAssignments.IssuedIsCurrentOrCancelled | src/datasource/kafka/checkpoint.rs:87-109 | every context ever issued is the table's entry for its partition or cancelled |
| KafkaAssignments.Plan | src/datasource/kafka/checkpoint.rs:72-86 | the checks pass exactly when every assigned partition can be restored, and plan exactly the restored offsets |
| KafkaAssignments.NativeAssignIsRestorable | src/datasource/kafka/checkpoint.rs:71-97 | a failed restore performs no native assign |
| KafkaAssignments.FailureFencesEverything | src/datasource/kafka/checkpoint.rs:39-52 | once `fail` has cancelled the contexts no acknowledgement succeeds, even before the failure token is raised |
| KafkaAssignments.RecordFencesNothing | src/datasource/kafka/checkpoint.rs:47-51 | between the record of the error and the cancellation, exactly the stamps accepted before are still accepted, unless the owner is cancelled |
| KafkaCounterexamples.RecordedErrorStillAcknowledges | src/datasource/kafka/checkpoint.rs:39-51 | a run in which an acknowledgement succeeds after the error was recorded |
| KafkaAssignments.FirstErrorIsTakenFirst | src/datasource/kafka/checkpoint.rs:46-52 | the first error taken is the first one recorded |
| KafkaAssignments.StepOutlives | src/datasource/kafka/checkpoint.rs:68-114 | one step leaves a partition's entry untouched or ends its assignment, for every mix of eager and cooperative events |
| KafkaAssignments.RevokeTakesAway | src/datasource/kafka/checkpoint.rs:99-110 | an eager revoke leaves no partition, a cooperative one exactly those not listed, untouched; exactly the contexts of what is gone are cancelled |
| KafkaAssignments.AssignRebuilds | src/datasource/kafka/checkpoint.rs:87-97 | an assign replaces its items in one new generation with contexts never issued before; the cooperative protocol keeps all other entries, the eager one none; a failed native call enters nothing |
| KafkaAssignments.RevokedStampIsRefused | src/datasource/kafka/checkpoint.rs:39-45 | a stamp is refused after its partition was revoked, for the next 2^64 changes, whatever is assigned meanwhile |
| KafkaAssignments.OwnerCancellationFences | src/datasource/kafka/checkpoint.rs:34-45 | once the owner is cancelled nothing is stamped or acknowledged |
| KafkaAssignments.RecordsAreTold | src/datasource/kafka/checkpoint.rs:39-126 | the recorded changes, errors and native assigns are those of the run |
| KafkaAssignments.StepKeepsInv | src/datasource/kafka/checkpoint.rs:68-126 | every step keeps that issued contexts are current or cancelled, that a generation is the number of its change modulo 2^64, and that `fail` has cancelled what it fenced |
| KafkaCheckpoint.Assignments.Acknowledge | src/datasource/kafka/checkpoint.rs:39-45 | applied exactly when there is no failure and the stamp is the partition's entry in force |
| KafkaCheckpoint.Assignments.TakeError | src/datasource/kafka/checkpoint.rs:46-46 | takes what is recorded and empties the slot |
| KafkaCheckpoint.Assignments.Fail | src/datasource/kafka/checkpoint.rs:47-52 | recorded, cancelled and raised in this order, with acknowledgements running in between; the first error stays in the slot until the token is raised |
| KafkaCheckpoint.Assignments.RecordFailure | src/datasource/kafka/checkpoint.rs:48-49 | the slot keeps its first error, in a step of its own |
| KafkaCheckpoint.Assignments.CancelForFailure | src/datasource/kafka/checkpoint.rs:50-50 | the locked loop is the cancelling step |
| KafkaCheckpoint.ForeignRunKeeps | src/datasource/kafka/checkpoint.rs:47-52 | where the partition lock is not held, others change nothing but the error slot and the owner, and not the slot while `fail` runs |
| KafkaCheckpoint.Assignments.CancelContexts | src/datasource/kafka/checkpoint.rs:50-50 | the loop cancels exactly the contexts of the table, in any order |
| KafkaCheckpoint.Assignments.CancelListed | src/datasource/kafka/checkpoint.rs:92-94 | the loop removes the listed partitions and cancels exactly their contexts |
| KafkaCheckpoint.Assignments.InsertListed | src/datasource/kafka/checkpoint.rs:96-97 | the loop enters every listed partition under one generation with a new context each |
| KafkaCheckpoint.Assignments.CheckAssign | src/datasource/kafka/checkpoint.rs:72-86 | planned exactly when owner and table are healthy and the request restorable |
| KafkaCheckpoint.Assignments.AssignLocked | src/datasource/kafka/checkpoint.rs:87-97 | the locked part is one commit step with newly numbered contexts, and rebuilds the table as stated, whether or not the native assign succeeds |
| KafkaCheckpoint.Assignments.RevokeLocked | src/datasource/kafka/checkpoint.rs:99-110 | the locked part is one revoke step, which takes exactly the revoked partitions and their contexts away |
| KafkaCheckpoint.Assignments.Rebalance | src/datasource/kafka/checkpoint.rs:120-125 | a success has done to the table what its event says; a failure has one of the reasons there are and has been recorded, cancelled and raised by `fail` |
| KafkaDataSource.AttemptedIsOwned | src/datasource/kafka/rdkafka.rs:499-590 | with calls dropped at any await, the active list holds exactly the endpoints started and not seen to stop; state 2 owns nothing |
| KafkaDataSource.StartedAtMostOnce | src/datasource/kafka/rdkafka.rs:527-571 | endpoints are started at most once, in order of registration |
| KafkaDataSource.StoppedStaysStopped | src/datasource/kafka/rdkafka.rs:502-522 | an endpoint seen to stop is never stopped again |
| KafkaDataSource.GateHolderTakesItsCourse | src/datasource/kafka/rdkafka.rs:527-589 | in every run the last step of the gate holder determines where it is; in particular a failed start goes on to stop everything active |
| KafkaDataSource.CleanupEnds | src/datasource/kafka/rdkafka.rs:518-522 | a cleanup ends in state 2 exactly when no stop of it failed, and then nothing is owned |
| KafkaDataSource.RecordsAreTold | src/datasource/kafka/rdkafka.rs:499-590 | the recorded calls and successful stops are those of the run |
| KafkaDataSource.StepKeepsInv | src/datasource/kafka/rdkafka.rs:499-590 | every step keeps the active list equal to what was started and not seen to stop, and the caller's cleanup snapshot within it |
| KafkaLifecycle.DataSource.AddEndpoint | src/datasource/kafka/rdkafka.rs:357-389 | accepted exactly in state 0 with a new endpoint; nothing else changes |
| KafkaLifecycle.DataSource.StopActiveEndpoints | src/datasource/kafka/rdkafka.rs:502-522 | every active endpoint is stopped, last first; exactly those whose stop fails stay active |
| KafkaLifecycle.DataSource.Start | src/datasource/kafka/rdkafka.rs:527-571 | without a drop or expiry it succeeds from state 0 exactly when topics and all endpoints do; failed topics leave state 0 with nothing started, a failed endpoint has everything started so far stopped again |
| KafkaLifecycle.DataSource.Stop | src/datasource/kafka/rdkafka.rs:573-589 | Ok means state 2 and nothing active; a failure leaves exactly the endpoints whose stop failed; stops are called once for each active one, last first |
| SubStream.CollectorIsSerialized | src/operators/substream.rs:42-65 | collector calls never overlap and return false any number of times, then at most one true |
| SubStream.OutcomeIsExact | src/operators/substream.rs:189-214 | the call returns Ok exactly when a collector call returned true, and an error only with the context cancelled |
| SubStream.NothingCollectedAfterReturn | src/operators/substream.rs:205-214 | no collector call runs, starts or returns after the call has returned |
| SubStream.CallerCanDecide | src/operators/substream.rs:201-214 | a caller that waits for the gate can return once the call in progress has |
| SubStream.CallTakesItsCourse | src/operators/substream.rs:154-214 | in every run the steps determine where caller and deliveries are, what the collector returned and whether the context was cancelled |
| SubStream.GateLetsIn | src/operators/substream.rs:43-60 | a delivery given the gate is collected exactly when the call is open and not cancelled, and a cancelled call is closed by it |
| SubStream.StepKeepsInv | src/operators/substream.rs:33-75 | every step keeps that the collector runs only under the gate with the call not completed, that only the last result is true, and that done, slot and completion agree |
| SubStreamCall.CallState.Dispatch | src/operators/substream.rs:189-214 | the returned outcome has its meaning in the collector's results, with nothing collecting any more; it has not returned only while there is neither completion nor cancellation, or while a collector call runs |
| SubStreamCall.CallState.Deliver | src/operators/substream.rs:42-65 | each outcome has its reason: the gate held, the task dropped before or inside the collector, the call closed; otherwise the collector's result is the last one recorded |
| SubStreamCall.CallState.EnterGate | src/operators/substream.rs:43-59 | the collector is entered exactly when the call is open and not cancelled |
| SubStreamCall.CallState.Collect | src/operators/substream.rs:61-64 | the collector's result is recorded while the gate is held, and a true completes the call |
| SubStreamCall.ForeignRunKeeps | src/operators/substream.rs:42-65 | across an await caller and deliveries keep their places, and results stay while the gate is held |
| UnarySender.NoLostWakeup | src/datasource/grpc/nostreaming.rs:38-64 | with a value in the slot and the receiver asleep, a wakeup is stored or owed, and an owed one does wake it |
| UnarySender.ValuesAreConserved | src/datasource/grpc/nostreaming.rs:31-92 | accepted values are received once and in order or are in the slot; a value present when cancellation is observed is returned |
| UnarySender.StepKeepsInv | src/datasource/grpc/nostreaming.rs:31-92 | every step keeps that a registered waiter beside a full slot has a notification owed to it, and that accepted values are received or in the slot |
| UnarySender.ValueIsHandedOver | src/datasource/grpc/nostreaming.rs:38-92 | at most three steps hand the value to the sleeping receiver |
| UnarySender.SlotTakesItsCourse | src/datasource/grpc/nostreaming.rs:31-92 | in every run the steps determine what was stored and received, who owes a notification and where the receiver is |
| UnarySlot.Slot.Receive | src/datasource/grpc/nostreaming.rs:38-64 | hands over the slot's value; fails only when cancelled with everything accepted received; still waits only where it is neither woken nor cancelled, and then a value in the slot has its notification owed |
| UnarySlot.Slot.Send | src/datasource/grpc/nostreaming.rs:72-92 | accepted exactly when the slot is empty, and then the owed notification is made |
| UnarySlot.ForeignRunKeeps | src/datasource/grpc/nostreaming.rs:38-92 | across an await the receiver keeps its place and its value, and a sender its owed notification |
| CronSchedule.IntervalsAreCanonical | src/datasource/cron/croner.rs:37-58 | the parser accepts exactly the canonical decimal intervals from 10 ms to one day, with their value |
| CronSchedule.NumberOfDecimal | src/datasource/cron/croner.rs:48-52 | reading a printed number gives the number back |
| CronSchedule.DecimalOfNumber | src/datasource/cron/croner.rs:48-52 | printing a number read from canonical digits gives the digits back |
| CronSchedule.DueByStepping | src/datasource/cron/croner.rs:112-121 | the loop computes the stepping function on every schedule |
| CronSchedule.SteppedIsInForce | src/datasource/cron/croner.rs:112-121 | stepping answers exactly with the last occurrence not after the reading, its successor, and whether any was missed |
| CronSchedule.InForceIsUnique | src/datasource/cron/croner.rs:105-121 | there is only one such occurrence |
| CronSchedule.SteppedClosed | src/datasource/cron/croner.rs:72-79 | stepping an interval in closed form, aligned or not, with the end of the clock's range |
| CronSchedule.DivisionMeetsStepping | src/datasource/cron/croner.rs:105-111 | on a millisecond-aligned start the constant-time catch-up equals the stepping loop, out-of-range errors included |
| CronSchedule.DivisionNeedsAlignment | src/datasource/cron/croner.rs:105-111 | on any start the two agree exactly when it is aligned, nothing after it is due, or the division leaves the clock's range |
| CronSchedule.UnalignedStartDiffers | src/datasource/cron/croner.rs:105-111 | a start one nanosecond past a millisecond for which the division announces an occurrence already due |
| CronScheduler.AttemptIsLatest | src/datasource/cron/croner.rs:365-377 | for every sequence of clock readings each attempt, the first included, is at the latest occurrence not after its reading, and fired exactly when that alone is due or the policy fires once |
| CronScheduler.AttemptsRise | src/datasource/cron/croner.rs:334-387 | a job's attempts strictly increase, backward jumps of the clock included |
| CronScheduler.OccurrencesArePartitioned | src/datasource/cron/croner.rs:365-377 | every occurrence before the pending one was due in exactly one catch-up |
| CronScheduler.AcceptedExactly | src/datasource/cron/croner.rs:123-140 | an attempt is accepted exactly when fired, the owner is not cancelled and no run of a non-overlapping job is live |
| CronScheduler.OverlapIsSkipped | src/datasource/cron/croner.rs:132-140 | a job that skips overlaps has at most one live run |
| CronScheduler.CancelledExitWaits | src/datasource/cron/croner.rs:379-387 | at an exit by cancellation every accepted run has ended; only a schedule error aborts runs, and then none is live |
| CronScheduler.AdmissionStops | src/datasource/cron/croner.rs:379-387 | once the loop is left nothing more is caught up or accepted |
| CronScheduler.TicksAreTold | src/datasource/cron/croner.rs:365-377 | the ticks of a job are its catch-ups in the run, with their clock readings |
| CronScheduler.RunsComeFromTicks | src/datasource/cron/croner.rs:123-164 | every accepted run was accepted by a tick of its job |
| CronScheduler.EndsAreTold | src/datasource/cron/croner.rs:123-173 | a run has ended, and the owner is cancelled, exactly when the run of labels says so |
| CronScheduler.StepKeepsInv | src/datasource/cron/croner.rs:334-387 | every step keeps that catch-ups follow each other without gap, that an overlap flag says exactly whether a run is live, and that every accepted run is live, ended or aborted |
| CronLoop.Scheduler.DueAt | src/datasource/cron/croner.rs:105-121 | both branches of `due` compute the same function of the job's next occurrence and the reading |
| CronLoop.Scheduler.Dispatch | src/datasource/cron/croner.rs:123-164 | the run is spawned and the flag taken, or nothing changes |
| CronLoop.Scheduler.Pass | src/datasource/cron/croner.rs:365-377 | exactly the due jobs are caught up, in order; afterwards every next occurrence lies after the reading, and jobs that were not due are untouched |
| CronLoop.Scheduler.CatchUpDue | src/datasource/cron/croner.rs:370-376 | a due job is caught up once, past the reading, and fails exactly when its schedule ends |
| CronLoop.Scheduler.RunScheduler | src/datasource/cron/croner.rs:334-387 | while it loops, every wake from a sleep has caught up exactly the jobs due then and nothing pending was due at any wake; it returns by cancellation only with every accepted run ended, and by error exactly when a schedule failed |
| ConfigMerge.MergeYaml | src/runtime/config/loader.rs:368-382 | the in-place merge computes one function whatever the order of the override's entries |
| ConfigMerge.MergeAt | src/runtime/config/loader.rs:368-382 | the merge path by path: the override decides where it says something or has taken over, the base shows through everywhere else |
| ConfigMerge.PathsDetermine | src/runtime/config/loader.rs:368-382 | values that agree on all paths are equal, so the path description determines the merge |
| ConfigMerge.MergeIdempotent | src/runtime/config/loader.rs:368-382 | applying an override twice is applying it once |
| ConfigMerge.CoveredAddsNothing | src/runtime/config/loader.rs:368-382 | a base adds nothing to an override exactly when the override covers it |
| ConfigMerge.MergeAssociates | src/runtime/config/loader.rs:341-352 | three layers may be merged in either grouping exactly when they are regroupable |
| ConfigMerge.UnseparatedLayersRegroup | src/runtime/config/loader.rs:341-352 | in particular when no path has mappings in the outer layers and a scalar in the middle one |
| ConfigMerge.SeparatedLayersDiffer | src/runtime/config/loader.rs:368-382 | three layers for which the groupings differ |
| ConfigMerge.LastLayerWins | src/runtime/config/loader.rs:341-352 | a scalar of the last layer is kept, and where it is silent the lower layers decide |
| ConfigMerge.LoadLayers | src/runtime/config/loader.rs:341-352 | the optional base and override are merged over the defaults in this order |
| ConfigReload.ConfigLoader.Reload | src/runtime/config/loader.rs:199-221 | succeeds exactly when reading, decoding, table building and the hook do; then configuration and tables match, otherwise both are unchanged |
| ConfigReload.ConfigLoader.LoadSnapshot | src/runtime/config/loader.rs:341-361 | the candidate is the decoding of the layered files, or nothing when one is unreadable |
| ConfigReload.ConfigLoader.OverrideReachesDecoder | src/runtime/config/loader.rs:346-351 | a scalar of the override reaches the decoder, whatever base and defaults say |
| ConfigReload.ConfigLoader.BaseReachesDecoder | src/runtime/config/loader.rs:346-351 | a scalar of the base reaches the decoder where the override is silent and has not taken over |
| ConfigReload.ConfigLoader.DefaultsReachDecoder | src/runtime/config/loader.rs:346-351 | the defaults reach the decoder where both files are silent and have not taken over |
| RuntimeConfig.FromParts | src/runtime/config/runtime.rs:63-211 | succeeds exactly when IDs, names and links are unique and endpoints resolve to connectors of their type with allowed timezones; then the tables hold exactly the inputs, otherwise the reported fault is there |
| RuntimeConfig.IndexEntries | src/runtime/config/runtime.rs:73-87 | both indexes hold exactly the items, or a repeated key is named |
| RuntimeConfig.IndexUnique | src/runtime/config/runtime.rs:169-178 | the same for pools and links |
| RuntimeConfig.IndexEndpoints | src/runtime/config/runtime.rs:124-168 | endpoints are indexed exactly when unique, resolved and allowed |
| RuntimeConfig.CheckEndpoint | src/runtime/config/runtime.rs:133-164 | accepted exactly when the connector exists, has the endpoint's type and the timezone is allowed; each refusal names its true reason |
| RuntimeConfig.CompletePools | src/runtime/config/runtime.rs:179-209 | explicit pools are unchanged, every referenced pool resolves, and added ones have one executor and capacity zero |
| RuntimeConfig.IndexesAgree | src/runtime/config/runtime.rs:213-251 | the ID and name indexes hold the same entries, each found under both its keys |
| RuntimeConfig.TablesAreDetermined | src/runtime/config/runtime.rs:63-211 | the input lists determine the tables, independent of any hash order |
| RuntimeConfig.AcceptableByFields | src/runtime/config/runtime.rs:73-178 | acceptance in the fields themselves: distinct IDs, names and link ends, a connector of the endpoint's kind, UTC for cron and scheduled Temporal endpoints |
| RuntimeConfig.FoundByFields | src/runtime/config/runtime.rs:213-270 | every item is found under its own ID, name, or pair of link ends |
| RuntimeConfig.PoolsByName | src/runtime/config/runtime.rs:179-209 | a pool resolves exactly when it is explicit or named by the default, a service or a link; an added one has one executor and capacity zero |
| PendingQueue.Queue.Push | src/runtime/pool/queuedpool.rs:189-217 | the linked table represents the old order followed by the task |
| PendingQueue.Queue.Pop | src/runtime/pool/queuedpool.rs:218-241 | returns the first task with its entry and represents the rest |
| PendingQueue.Queue.Promote | src/runtime/pool/queuedpool.rs:242-279 | promotes exactly a queued task that is not first; the others keep their order and entries |

## Left out

- Tracing, metrics, logging, the status web and the contents of messages: they do not take part in the protocols.
- Panics in handlers, lock poisoning and fairness of locks: a lock is given to some waiter, and the theorems say which steps are enabled, not which are taken.
- Steps are the code between two awaits; interleavings inside such a stretch on several threads are covered only where the model splits it (the recheck after a guard, the three writes of `fail`, the store and the notification of a send).
- Outcome values of the gRPC source and sinks: the result passed to `end_request` and its override by a late `done` (the HTTP source has them); the message-ID callback table of the result contexts.
- What makes a sink's finalizer start: `done`, cancellation or the peer may come at any time.
- The transport of the gRPC and HTTP sources before a session begins, and the send side of the bidirectional call (`close_send`).
- GrpcSink.OpenRequestsAreDisjoint: holds for cells none of whose initializers was dropped after `begin_request`, because dropping one breaks it (`DroppedInitializerLeaks`); `OverlapNeedsLeak` is the exact statement.
- KafkaAssignments.AcknowledgedMeansUninterrupted: needs fewer than 2^64 changes since the assignment was made, because later a generation comes back (`WrappedGenerationIsReused`); `AcknowledgedExactly` is the exact statement.
- KafkaAssignments.FailureFencesEverything: starts at the cancellation of the contexts, because acknowledgements do pass between the record of the error and it (`RecordedErrorStillAcknowledges`).
- Kafka lanes, message decoding and the concurrency limiter; that a message received just before a rebalance may be stamped just after it is part of the model, since the stamp is a step of its own.
- ServiceShutdown.FailureIsFinal: a failure is one that `stop` has observed; a job that failed while nobody waits for it is recorded by the next `stop`.
- Dropping the start of a `ServiceApp`: start is taken to run to completion; the set of shutdown jobs is given by the resources.
- The croner and timezone libraries: a calendar is given by its next-occurrence function, and the filtering of spring gaps and repeated fall hours happens inside it; the range of representable instants is a parameter.
- The length of the scheduler's sleep: a wake may come at any reading of the clock; starting and stopping the cron source around the loop.
- Serialization, `apply_environment` and `validate`: one decoding function given to the loader; the order of entries in a YAML mapping, which the merge does not promise.
- Concurrent reloads: a reload publishes the configuration and then its tables in two stores, and the model runs one reload at a time.
- The module and type tables of `RuntimeConfig::new`: the same unique index as pools.
- ContextKey chains, child contexts and deadlines: easy members; cancellation appears as a step of its own in every protocol.
- Priority queues, the actor of the task pools, the delay pool and join storage; the start and stop of the rotation task.
- SubStream build errors and nested calls: each call is its own instance.
- UnarySlot.Slot.Receive: followed for a given number of turns, as are `DrainParallel`, `FinalizeBidi` and `RunScheduler`, because none of these loops promises to end.
