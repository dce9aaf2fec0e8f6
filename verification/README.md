# Verification of the runtime-local request engine

This project models the runtime-local request engine of a peer-to-peer agent runtime and proves what it is for.

- **The engine.** A bounded first-come-first-served policy (`RoutingPolicies`), a task store with deadlines and timers (`TaskStores`), a dedupe store with a retention window (`DedupeStores`) and the router that composes the three (`MessageRouters`). Each is a class that updates its fields as the program does. Each method is proved against a function over a plain value (`PolicySpec`, `TaskStoreSpec`, `DedupeSpec`, `RouterSpec`), what those functions decide is stated case by case in the terms of the state before the call (`PolicyLaws`, `TaskStoreLaws`, `DedupeLaws`, `RouterAnswers`, `RouterReplies`, `RouterAuthority`), and whole runs of those values carry the theorems (`PolicyRuns`, `TaskStoreRuns`, `RouterInv`, `RouterRuns`, `RouterSteps`, `RouterService`, `RouterGuarantees`, `RouterReuse`, `RouterRetention`, `RouterTasks`, `RouterDedupe`, `RouterReplay`, `RouterOutbound`, with `RouterFrames` for what draining leaves alone). A run is a sequence of inbound envelopes, executor completions, timers and delivery outcomes in any order, with a clock that does not go back.
- **JSON.** Compact and canonical text, structural equality and the byte measurer (`JsonValues`, `JsonTexts`, `JsonCanon`, `JsonEquality`, `JsonMeasure`), written against the grammar in its own characters (`JsonLaws`), and the metered schema evaluator against its unmetered meaning (`Schemas`, `SchemaEvaluation`, `SchemaMeaning`, `SchemaNesting`), each keyword by its law (`SchemaLaws`).
- **Frames.** The streaming decoder against a one-shot parser (`Frames`).
- **Publication.** Lease renewals, metadata updates and shutdown on two promise chains: an interleaving protocol (`Publications`) and the classes whose methods are the stretches of code between two awaits (`AgentCardRegistries`).
- **Task records.** The fold cache over an append-only session tree (`TaskRecords`).

Identifiers are numbers: the modelled code only compares them. Fresh names (`randomUUID`) are parameters that must not be in use. A callback is a value that answers for one step, or an entry in a ghost log. One reading of the clock serves a router step; the policy on its own takes two readings per operation.

## How the main results fit together

Two invariants carry the runs of the router. `RouterService.InService` holds in every run with any retention of terminal tasks: leases go out in arrival order, nobody waits while a slot is free, and every running task and every entry of the lease table has an active record. `RouterInv.EngineInv` says more, namely what queue, leases, inbound records, tasks and logs say about each other; every step keeps it but the purge of a task (`RouterSteps.StepEngine`). Draining and dispatching call each other with the queue length as measure, and `RouterRuns.DrainEngine` and `RouterService.DrainServes` follow that recursion. `Traces.RunsKeep` carries both over runs and the theorems of `RouterGuarantees` read them off. `RouterSteps.RequestOutcomes` gives the three things an arriving request can do in any state, from which rollback follows.

Four promises need terminal tasks to be retained without limit, which is the router's default: a request id is executed at most once, it is answered at most once, leases and active records match one for one, and no open request is forgotten. `RouterRetention` proves of each that it holds in every run exactly with that retention. With a finite one a sender can reuse the id of a purged task, and the failing runs are built there: a request served, purged and served again; a slot whose lease is overwritten because its task expired by the store's own timer; and a queued request whose inbound record is deleted by the late delivery of an earlier answer. The first of them also holds when there is no executor. Arrival order, work conservation, the bound on running tasks, rollback and deduplication hold with every retention.

`RouterTasks.StepMoves` and `RouterDedupe.StepUses` say of every step which calls of the task store and of the dedupe store it makes. So what holds of those stores in every run holds in every run of the router: `RouterTasks` lifts the lives of tasks and their deadlines, `RouterDedupe` single commits, and `RouterReplay` shows that a request delivered again gets the same answer and changes nothing, and that a notification is handled once.

Functions that a method and its specification share are pinned from outside. `RouterAnswers.RequestAnswer`, `RouterAuthority.ReplyIsAnswered` and `RouterAuthority.CancelIsAnswered` are full tables of the answers to requests, replies and cancellations, written in the fields of the state before the call. `RouterReplies.RepliesAnswerRequests` says over whole runs to whom a terminal reply goes and what it carries. The stores, the policy, the schema keywords, the texts, the frames and the publications have their tables and laws in the same way.

The schema evaluator's verdict is independent of its depth bound where no evaluation reaches the bound. `SchemaNesting` says for which schemas that is so whatever the value: those whose chains of subschemas and references are no longer than the bound. A chain of references that is longer than the bound and stands under `not` is accepted with every value until the bound reaches its end (`SchemaNesting.ChainUnderNot`). A schema that negates itself has no bound at which it settles: `SchemaMeaning.CutOffUnderNot` computes its verdict, which turns round with every two levels. That last lemma is about the evaluator taken by itself: the library validator that runs before it is not part of this model and would have to get past the same reference first; a chain of references is an input both can be given.

## Model

| member | source | states |
|---|---|---|
| TaskStates.PathsClimb | src/protocol/task-state.ts:50-63 | along any path of the transition table every step climbs, so no state repeats, nothing follows a terminal state and five transitions are the most there are |
| TaskStates.TerminalIffStuck | src/protocol/task-state.ts:67-73 | terminal states are exactly those without a successor, and every other state can expire |
| PolicyRuns.RunsKeepInvariant | src/router/policy.ts:423-610 | in every run of a new policy its invariant holds and no record's expiry is notified twice; between any two points of the run time and tokens only grow |
| PolicyRuns.StepGrows | src/router/policy.ts:637-647 | observed time never goes back whatever the clock says, and only a release gives up an active slot, expired or not |
| PolicyRuns.KeepFilters | src/router/policy.ts:589-600 | what stays in the queue is exactly its runnable records, in their order |
| PolicyRuns.BackwardTimes | src/router/policy.ts:589-600 | the backward scan notifies each due queued record once and no other |
| PolicyRuns.ForwardTimes | src/router/policy.ts:601-607 | an active record is notified once, when it is first seen due |
| PolicyRuns.ClaimTakesFirst | src/router/policy.ts:502-525 | the dequeue loop stops at the first record that can run, drops those before it and leaves those after it |
| PolicyRuns.DequeueIsFirstComeFirstServed | src/router/policy.ts:494-527 | dequeue hands over the lowest token among the records that can run, unexpired at hand-over; an empty answer means a full house or nobody able to run |
| PolicyRuns.AdmittedLeaseIsLive | src/router/policy.ts:423-477 | a lease given on admission expires later than the time observed at hand-over |
| PolicyShapes.ReleaseUndoesAdmission | src/router/policy.ts:534-546 | releasing what was just admitted gives back exactly the state before, for a lease and for a queue place |
| PolicyLaws.AdmissionTable | src/router/policy.ts:423-477 | who is admitted, by the candidate's own fields: expired or cancelled, no slot free, the queue full of entries that can run, a lease, or the end of the queue |
| PolicyLaws.HandOverTable | src/router/policy.ts:494-527 | what is handed over can run by its own fields and nothing that can run came before it |
| PolicyLaws.ExpiryKeepsTheAble | src/router/policy.ts:585-610 | expiry keeps exactly the queued entries that can run and marks the active ones that are due |
| PolicyLaws.QueuedCancelTable | src/router/policy.ts:906-949 | a queued record is removed whatever is said, and the outcome is expired, cancelled or not cancelable by its entry |
| PolicyLaws.ActiveCancelTable | src/router/policy.ts:880-904 | an active record keeps its slot, and is marked expired, left alone or asked to stop |
| TicketIndexes.BucketIsScan | src/router/policy.ts:679-706 | a lookup in the entry, id or request index answers as a scan of queue and active leases |
| RoutingPolicies.RoutingPolicy.ReadMonotonicNow | src/router/policy.ts:637-647 | observed time becomes the larger of itself and the sample |
| RoutingPolicies.RoutingPolicy.RegisterRecord | src/router/policy.ts:679-706 | after registration all indexes are the inverse images of one ticket more |
| RoutingPolicies.RoutingPolicy.RemoveRecord | src/router/policy.ts:818-866 | removal takes the record out of queue or active set and out of every index, leaving no empty bucket |
| RoutingPolicies.RoutingPolicy.ExpireQueued | src/router/policy.ts:589-600 | the backward splice loop equals the order-preserving filter, with its notices |
| RoutingPolicies.RoutingPolicy.ExpireActive | src/router/policy.ts:601-607 | due active leases are marked and notified once and keep their slot |
| RoutingPolicies.RoutingPolicy.Expire | src/router/policy.ts:585-610 | expiry as a whole, with every index exact again afterwards |
| RoutingPolicies.RoutingPolicy.ClaimHead | src/router/policy.ts:502-525 | one turn of the dequeue loop: the head becomes an active lease or is dropped |
| RoutingPolicies.RoutingPolicy.Dequeue | src/router/policy.ts:494-527 | dequeue: the new state and the lease, indexes exact |
| RoutingPolicies.RoutingPolicy.Admit | src/router/policy.ts:423-477 | admission, immediate or queued: the decision and the new state in every case, indexes exact |
| RoutingPolicies.RoutingPolicy.FindRecord | src/router/policy.ts:751-800 | lookup answers found, ambiguous or not found exactly as a linear scan over the retained records |
| RoutingPolicies.RoutingPolicy.LookupEntryRecords | src/router/policy.ts:802-816 | one candidate is found, several are ambiguous, none is not found |
| RoutingPolicies.RoutingPolicy.Release | src/router/policy.ts:534-546 | exactly the one named record is removed; a missing or ambiguous target changes nothing |
| RoutingPolicies.RoutingPolicy.Cancel | src/router/policy.ts:554-564 | the one named record is cancelled; a missing or ambiguous target changes nothing |
| RoutingPolicies.RoutingPolicy.CancelByRequestId | src/router/policy.ts:567-578 | cancellation by request id acts only when one record carries it |
| RoutingPolicies.RoutingPolicy.CancelFound | src/router/policy.ts:878-949 | the outcome and new state of cancelling a queued, active or expired record |
| RoutingPolicies.RoutingPolicy.MarkExpired | src/router/policy.ts:868-876 | a record is marked, and notified if it was not before |
| TaskStoreRuns.EveryRunIsFaithful | src/router/task-store.ts:803-875 | in every run of a new store each record's events are a path of the table with at most one terminal step; between any two points of the run flags, aborts and timestamps do not go back; cancelling has its flag and its abort |
| TaskStoreRuns.PathsAreLives | src/router/task-store.ts:803-875 | a faithful log gives every record a life: a path on which only the last state can be terminal |
| TaskStoreRuns.StepGrows | src/router/task-store.ts:1248-1275 | no call lowers a cancellation flag, an update time or an abort, or touches a terminal task |
| TaskStoreRuns.DeadlineWins | src/router/task-store.ts:808-856 | from its monotonic deadline on a task can only become expired, and any call that looks at it makes it so |
| TaskStoreRuns.DeadlineWinsInRuns | src/router/task-store.ts:808-856 | over whole runs: after the deadline the last event of the record is the one it had or its expiry, even if it is purged and its id used again, and it is the expiry once a call has looked |
| TaskStoreLaws.WhoMayCancel | src/router/task-store.ts:1162-1185 | without an authorization hook a cancellation is unauthorized exactly when its caller names an unknown task or one that belongs neither to it nor to the local runtime |
| TaskStoreLaws.CancelTable | src/router/task-store.ts:996-1057 | what a permitted cancellation makes of each of the ten states, and what it records |
| TaskStoreLaws.TransitionTable | src/router/task-store.ts:794-875 | when a transition is refused and why, and where the task is afterwards |
| TaskStoreLaws.CommitStores | src/router/task-store.ts:826-860 | which content, error, request time, abort and update time a committed transition leaves |
| TaskStoreLaws.CreationTable | src/router/task-store.ts:487-583 | when a task is created and every field it is born with |
| TaskStoreLaws.BeginTable | src/router/task-store.ts:739-761 | execution begins on an accepted or queued task, goes on for a working one, and on no other |
| TaskStoreLaws.ExpiryTable | src/router/task-store.ts:976-985 | forced expiry ends every open task and no other |
| TaskStores.TaskStore.CreateTask | src/router/task-store.ts:487-583 | creation: duplicates and bad input refused, late tasks born expired, timers armed |
| TaskStores.TaskStore.GetTask | src/router/task-store.ts:591-609 | reading a task expires it first when it is due |
| TaskStores.TaskStore.TryTransition | src/router/task-store.ts:794-875 | a transition commits or is refused with its reason; queued set and timers follow |
| TaskStores.TaskStore.BeginExecution | src/router/task-store.ts:739-761 | a task already working is handed out again, any other only by a legal transition |
| TaskStores.TaskStore.CancelTask | src/router/task-store.ts:996-1057 | who may cancel, and what cancelling makes of each state; case by case in `TaskStoreLaws.WhoMayCancel` and `TaskStoreLaws.CancelTable` |
| TaskStores.TaskStore.ExpireTask | src/router/task-store.ts:976-985 | forced expiry |
| TaskStores.TaskStore.PurgeTask | src/router/task-store.ts:1074-1082 | only a terminal task is purged, with its timers |
| TaskStores.TaskStore.CommitRecord | src/router/task-store.ts:826-860 | the committed record; the queued set is exactly the queued ids and the timers are those the new state needs |
| TaskStores.TaskStore.Fire | src/router/task-store.ts:1281-1342 | an armed timer always finds the record it was armed for, so none can hit a later task with the same id |
| DedupeKeys.KeysAreInjective | src/router/dedupe.ts:64-66 | without a NUL in the sender two pairs of ids share a key only when they are equal |
| DedupeKeys.NulBreaksInjectivity | src/router/dedupe.ts:64-66 | with a NUL in the sender two different pairs share a key |
| DedupeSpec.EffectsCommitOnce | src/router/dedupe.ts:442-557 | in every run of a new store in which only valid envelopes are reserved, one sender, operation id and content commits at most once |
| DedupeSpec.CommittedRecordsAreFixed | src/router/dedupe.ts:784-829 | whatever is called before its retention ends, a committed record stays as it is, every delivery of its content replays the committed outcome, and any other content is a duplicate |
| DedupeSpec.LiveKeysKeepTheirFingerprint | src/router/dedupe.ts:696-720 | a live key keeps its fingerprint; only a release or a busy commit of a matching reservation drops it |
| DedupeLaws.InspectionTable | src/router/dedupe.ts:390-404 | duplicate before pending before replay, by the record under the key, and only while it is retained |
| DedupeLaws.ReservationTable | src/router/dedupe.ts:442-471 | a new operation is pending until its deadline plus grace, anything else is answered as inspection answers |
| DedupeLaws.CommitTable | src/router/dedupe.ts:481-557 | which commit is stored, given back or refused, and what is stored |
| DedupeLaws.ReleaseTable | src/router/dedupe.ts:696-720 | exactly a pending reservation of the same content is taken back |
| DedupeStores.DedupeStore.Prune | src/router/dedupe.ts:727-740 | the loop removes exactly the records whose retention has run out and counts them |
| DedupeStores.DedupeStore.Inspect | src/router/dedupe.ts:390-404 | what is known about an operation |
| DedupeStores.DedupeStore.Reserve | src/router/dedupe.ts:442-471 | a new operation is reserved until its deadline plus grace |
| DedupeStores.DedupeStore.Release | src/router/dedupe.ts:696-720 | only a pending record with the same fingerprint is released |
| DedupeStores.DedupeStore.Commit | src/router/dedupe.ts:481-557 | a busy outcome releases, a missing or foreign reservation is refused, a pending one is committed |
| RouterGuarantees.ExecutedAtMostOnce | src/router/router.ts:1012-1074 | with terminal tasks retained without limit, in every run from creation each request id reaches the executor at most once |
| RouterRetention.AtMostOnceIffRetained | src/router/router.ts:1358-1387 | at most one execution of each request id in every run holds exactly when terminal tasks are retained without limit or there is no executor |
| RouterRetention.AnsweredOnceIffRetained | src/router/router.ts:1430-1456 | at most one answer to each request id in every run, the stored one, holds exactly with that retention |
| RouterRetention.OneLeaseEachIffRetained | src/router/router.ts:1068-1073 | one lease for each active record and one record for each request id in every run holds exactly with that retention |
| RouterRetention.NobodyForgottenIffRetained | src/router/router.ts:1464-1478 | every open request leased or queued in every run holds exactly with that retention |
| RouterRetention.ServedTwice | src/router/task-store.ts:1074-1082 | the run that breaks the first two: a request is answered, its task purged, and its id used again by another sender |
| RouterRetention.LeaseLost | src/router/router.ts:1068-1073 | the run that breaks the third: a task that expired by the store's timer is purged and the new request with its id overwrites the lease |
| RouterRetention.RequestForgotten | src/router/router.ts:1530-1534 | the run that breaks the fourth: a late delivery deletes the inbound record of a queued request that reuses the id, and draining throws it out |
| RouterService.StepServes | src/router/router.ts:972-1478 | with any retention, every step keeps arrival order, work conservation, and an active record behind every running task and every lease |
| RouterService.DrainServes | src/router/router.ts:1464-1478 | draining keeps that too, even when the queue holds records of requests no longer known |
| RouterReuse.DropsStrangers | src/router/router.ts:1469-1474 | draining a queue of unknown requests drops them all and gives every slot back |
| RouterGuarantees.FirstComeFirstServed | src/router/router.ts:1458-1478 | in every run with any retention leases are granted in arrival order, everyone granted arrived before everyone waiting, and nobody waits while a slot is free |
| RouterGuarantees.LeasesAreTheActiveSet | src/router/router.ts:1068-1073 | with terminal tasks retained without limit the router's leases are the policy's active set one for one, belong to inbound requests, and no request has two records |
| RouterGuarantees.RunningWithinCapacity | src/router/router.ts:1349-1356 | in every run with any retention inbound tasks working or cancelling never exceed the active capacity |
| RouterGuarantees.NobodyIsForgotten | src/router/router.ts:1464-1478 | with terminal tasks retained without limit every open inbound task before its deadline is leased or waits in the queue |
| RouterGuarantees.AnsweredAtMostOnce | src/router/router.ts:1430-1456 | with terminal tasks retained without limit one terminal reply for each request and one resolution for each completion, carrying the stored terminal state |
| RouterReplies.RepliesAnswerRequests | src/router/router.ts:1480-1534 | in every run with any retention each reply goes to the sender of a request taken earlier under its id and says what the store then held: content of a completed task, error of any other; every inbound task belongs to such a sender |
| RouterReplies.FinishReplies | src/router/router.ts:1430-1456 | finishing sends one reply before the request's own deadline and forgets the record after it, and its timer is gone |
| RouterReplies.ExecutorEnds | src/router/router.ts:1389-1407 | a request being worked on ends as its executor says, with that content or error in store and reply; invalid content changes nothing |
| RouterReplies.ExecutorEndsCancelling | src/router/router.ts:1389-1407 | a request being cancelled can still complete or fail, and is not rejected any more |
| RouterReplies.ThrowEnds | src/router/router.ts:1409-1428 | an executor that throws fails the task or ends its cancellation |
| RouterReplies.TimerEnds | src/router/router.ts:1537-1553 | a timer that finds the task open expires it and tells the sender while the request is still valid |
| RouterReplies.CancelEnds | src/router/router.ts:871-877 | a cancellation that takes effect at once tells the sender with the error of a cancellation |
| RouterGuarantees.FailedAdmissionLeavesNoTrace | src/router/router.ts:1012-1054 | in every run with any retention, every error answer to a request leaves all stores and maps as they were, but for what expired or was pruned |
| RouterSteps.RequestOutcomes | src/router/router.ts:972-1075 | whenever the policy's invariant holds, an arriving request is answered from the dedupe store, refused without a trace, or recorded, acknowledged and started |
| RouterAnswers.RequestAnswer | src/router/router.ts:972-1060 | the answer to every arriving request: on record, too much tracked, cancelled, no slot and a queue full of entries that can run, id taken, or success |
| RouterAnswers.RequestIsTaken | src/router/router.ts:1035-1075 | what a request that is taken leaves: its record, its task with owner and deadline, its timer, and a lease or the end of the queue |
| RouterSteps.RollBack | src/router/router.ts:1563-1569 | releasing a failed admission gives the policy back as it was before the ticket |
| RouterSteps.StepEngine | src/router/router.ts:972-1478 | every step of the router but the purge of a task keeps the joint invariant and leaves nobody waiting while a slot is free |
| RouterRuns.DrainEngine | src/router/router.ts:1464-1478 | draining keeps the joint invariant and ends with no free slot or an empty queue |
| RouterRuns.DispatchEngine | src/router/router.ts:1358-1387 | dispatching a request that is ready hands it to the executor once and keeps its lease |
| RouterRuns.FinishTaskEngine | src/router/router.ts:1430-1456 | finishing a task frees what it holds, serves whoever is next, replies and resolves |
| RouterTasks.StepMoves | src/router/router.ts:972-1478 | every step of the router moves the task store by the store's own calls at the step's time and executes nothing without an executor |
| RouterTasks.TasksLiveOnceInRuns | src/router/task-store.ts:803-875 | in every run of a new router with any retention each task record lives one path of the table from its birth to its present state, and flags, aborts and times do not go back |
| RouterTasks.DeadlineWinsInRouterRuns | src/router/task-store.ts:808-856 | in every run of a new router a record whose deadline has come keeps its last event or expires, whatever happens after |
| RouterDedupe.StepUses | src/router/router.ts:972-1347 | every step uses the dedupe store in one of four ways: not at all, pruning, reserving and then leaving, releasing or committing what it reserved, or committing a handler's outcome |
| RouterDedupe.EffectsCommitOnceInRuns | src/router/router.ts:1077-1123 | in every run of the router, with any retention, one sender, operation id and content commits its effect at most once |
| RouterReplay.KeysLiveOut | src/router/dedupe.ts:696-720 | in every run of the router a known key keeps its content and deadline until its retention ends, and its record once committed |
| RouterReplay.RetransmissionIsReplayed | src/router/router.ts:972-990 | in every run of a new router a request delivered again before its record's retention ends gets the answer it got before and leaves every map and log as it was |
| RouterReplay.NotifiedOnce | src/router/router.ts:1077-1108 | in every run of the router a notification that was handed to its handler is not handed to it again while it can arrive |
| RouterReplay.HandlerOutcomeIsReplayed | src/router/router.ts:1108-1123 | what a handler came to is what every later delivery of the notification is told |
| RouterOutbound.AckAndReplyCommute | src/router/router.ts:1225-1271 | before the deadline acknowledgement and authorized reply commute: same state, content and error, success carries the stored outcome, one resolution |
| RouterOutbound.DeliveredIsStored | src/router/router.ts:1225-1271 | whatever state a reply finds its task in, a first success answer names the outcome that is stored |
| RouterOutbound.ReplyDelivers | src/router/router.ts:1225-1271 | a reply that finds its task open walks it to the reply's outcome, content and error |
| RouterOutbound.SendingTable | src/router/router.ts:1656-1699 | when a request is sent, and the task, completion and pending acknowledgement it leaves |
| RouterOutbound.AcknowledgementTable | src/router/router.ts:1631-1654 | what an acknowledgement does to a task that waits for it, and that it counts once |
| RouterAuthority.ReplyIsAnswered | src/router/router.ts:1125-1271 | the answer to every reply: the exact error for a wrong target, binding, owner, deadline or content, what is on record, and by the task's state otherwise |
| RouterAuthority.TurnedAwayLeavesNoTrace | src/router/router.ts:1125-1178 | a reply that is turned away changes nothing but an expiry that was due, not the dedupe store either |
| RouterAuthority.OnlyTheTargetReplies | src/router/router.ts:1141-1178 | whatever a reply changes, it came from the request's target, within its deadline, for an outbound task of this runtime, with content that keeps the contract |
| RouterAuthority.CancelIsAnswered | src/router/router.ts:1296-1347 | the answer to every peer's cancellation by sender and state, with the stored task on success |
| RouterAuthority.SendersMayCancel | src/router/router.ts:1296-1347 | in every run the sender of a known request that is open and not yet due may cancel it and is told its new state |
| MessageRouters.MessageRouter.constructor | src/router/router.ts:509-607 | a new router is empty |
| MessageRouters.MessageRouter.ProcessMessageRequest | src/router/router.ts:972-999 | the state and answer of an arriving request up to admission; which answer that is says `RouterAnswers.RequestAnswer` |
| MessageRouters.MessageRouter.RecordRequest | src/router/router.ts:1021-1033 | reservation after admission, undone on any early answer |
| MessageRouters.MessageRouter.TakeRequest | src/router/router.ts:1035-1060 | task creation and commit, undone when the task cannot be created |
| MessageRouters.MessageRouter.StartRequest | src/router/router.ts:1061-1075 | the inbound record, the timer, the lease and the dispatch |
| MessageRouters.MessageRouter.ReleaseAdmission | src/router/router.ts:1563-1569 | the lease or the handle of a failed admission is released |
| MessageRouters.MessageRouter.DispatchLease | src/router/router.ts:1358-1387 | a lease goes to the executor, or back when its task cannot begin or its request is unknown |
| MessageRouters.MessageRouter.ReleaseLease | src/router/router.ts:1458-1462 | the policy's slot and the router's entry go, then the queue is drained |
| MessageRouters.MessageRouter.DrainQueue | src/router/router.ts:1464-1478 | the loop equals the recursive specification; it terminates on the queue length |
| MessageRouters.MessageRouter.FinishTask | src/router/router.ts:1430-1456 | lease or queue place freed, reply sent, completion resolved |
| MessageRouters.MessageRouter.SendTerminalReply | src/router/router.ts:1480-1535 | the reply's outcome, content or error; nothing after the request's own deadline; what it carries and to whom says `RouterReplies.RepliesAnswerRequests` |
| MessageRouters.MessageRouter.FinishOutboundRequest | src/router/router.ts:1701-1712 | a terminal snapshot resolves the completion once |
| MessageRouters.MessageRouter.CompleteTask | src/router/router.ts:855-861 | completion with a contract check |
| MessageRouters.MessageRouter.CancelTask | src/router/router.ts:871-877 | local cancellation and its clean-up |
| MessageRouters.MessageRouter.ApplyExecutorResult | src/router/router.ts:1389-1407 | what an executor's result does to an open or finished task |
| MessageRouters.MessageRouter.HandleExecutorFailure | src/router/router.ts:1409-1428 | what a rejected executor promise does |
| MessageRouters.MessageRouter.ExpiryTimerFires | src/router/router.ts:1537-1553 | the router's timer finishes only a task it finds open |
| MessageRouters.MessageRouter.StartNotification | src/router/router.ts:1077-1112 | a notification is reserved before its handler runs |
| MessageRouters.MessageRouter.FinishNotification | src/router/router.ts:1108-1123 | the handler's outcome is committed |
| MessageRouters.MessageRouter.ProcessTaskCancel | src/router/router.ts:1296-1347 | a peer's cancellation, its refusals and its commit; the answer in each case says `RouterAuthority.CancelIsAnswered` |
| MessageRouters.MessageRouter.ProcessMessageReply | src/router/router.ts:1125-1178 | why a reply is turned away, in the order of the checks; each error and its cause says `RouterAuthority.ReplyIsAnswered` |
| MessageRouters.MessageRouter.AcceptReply | src/router/router.ts:1198-1271 | an authorized reply: reserved, applied to an open task, committed or released |
| MessageRouters.MessageRouter.WalkToOutcome | src/router/router.ts:1225-1254 | the walk of an open task to the reply's outcome |
| MessageRouters.MessageRouter.SendRequest | src/router/router.ts:1656-1699 | an outbound request is registered within the tracking bound |
| MessageRouters.MessageRouter.ApplyResponse | src/router/router.ts:1631-1654 | what a peer's acknowledgement does |
| JsonTexts.SameText | src/protocol/validation.ts:3392-3445 | texts decode uniquely: equal texts, whatever follows them, come from equal values |
| JsonTexts.StringRoundTrip | src/protocol/validation.ts:3399-3401 | a string literal reads back, by section 7 of RFC 8259, as the string it was written for |
| JsonCanon.CanonicalIsNormalText | src/protocol/validation.ts:3392-3445 | the canonical text is the compact text of the value with members in key order |
| JsonEquality.CanonicalIffSame | src/protocol/validation.ts:3392-3450 | canonical texts are equal exactly when the values are the same up to member order |
| JsonEquality.DeepEqualIffSame | src/protocol/validation.ts:2711-2752 | structural equality holds exactly when the values are the same up to member order |
| JsonEquality.OneEquality | src/protocol/validation.ts:2711-2752 | canonical texts, structural equality and sameness agree, so `uniqueItems` and `enum` cannot disagree |
| JsonValues.SortForgetsOrder | src/protocol/validation.ts:3431-3437 | sorting by UTF-16 code units forgets the order of members and nothing else |
| JsonMeasure.JsonStringByteLength | src/protocol/validation.ts:417-456 | the loop adds up the bytes of a string literal |
| JsonMeasure.MeasureContext.Measure | src/protocol/validation.ts:483-592 | success exactly when node count, depth and size are within bounds, and why not otherwise |
| JsonMeasure.MeasureJsonBytes | src/protocol/validation.ts:470-596 | the count is the UTF-8 length of the compact text and of the canonical text |
| JsonMeasure.SizeIsExact | src/protocol/validation.ts:417-456 | what is added up is the UTF-8 length, lone surrogates as six bytes, and sorting members preserves it |
| JsonLaws.TextIsJson | src/protocol/validation.ts:3392-3445 | the compact text of every value spells it in the grammar of RFC 8259, sections 3 to 7 |
| JsonLaws.SortedIsInOrder | src/protocol/validation.ts:3431-3437 | sorted keys come in lexicographic order of code units and are the keys there were |
| JsonLaws.Utf8CountsBytes | src/protocol/validation.ts:417-456 | the length that is bounded is the number of bytes of section 3 of RFC 3629 |
| SchemaEvaluation.EvaluationBudget.Consume | src/protocol/validation.ts:860-870 | exhaustion is sticky and happens exactly when the sum passes the bound |
| SchemaEvaluation.DeepEqualWithin | src/protocol/validation.ts:2711-2752 | metered equality: true only on a live budget, exact when the budget lasts |
| SchemaEvaluation.CanonicalWithin | src/protocol/validation.ts:3392-3454 | metered serialization: the canonical text, or nothing exactly when the budget ran out |
| SchemaEvaluation.ItemsAreUnique | src/protocol/validation.ts:2917-2937 | the signature loop decides whether all canonical texts differ |
| SchemaEvaluation.NumberKeywords | src/protocol/validation.ts:2845-2872 | the number bounds, with the tolerance on multiples |
| SchemaEvaluation.MatchesSchema | src/protocol/validation.ts:2781-2797 | exhaustion is sticky, valid implies not exhausted, and a run that lasts returns the unmetered verdict; self-reference terminates on the depth left; what that verdict asks of items and members says `SchemaLaws.KeywordLaws` |
| SchemaEvaluation.MatchesRules | src/protocol/validation.ts:2799-3275 | the same for all keywords; the table of active references never changes a verdict |
| SchemaEvaluation.EachMatches | src/protocol/validation.ts:2938-2971 | a loop whose every child must be valid stops at the first that is not |
| SchemaEvaluation.CountMatches | src/protocol/validation.ts:2972-3001 | the contains and oneOf loops count valid children on a live budget |
| SchemaEvaluation.SomeMatches | src/protocol/validation.ts:3180-3202 | the anyOf loop finds a valid child if there is one |
| SchemaEvaluation.MatchesPatterns | src/protocol/validation.ts:3047-3069 | every property against every pattern it matches |
| SchemaEvaluation.MatchesAdditional | src/protocol/validation.ts:3070-3115 | every property neither listed nor matched by a pattern |
| SchemaEvaluation.MatchesLogic | src/protocol/validation.ts:3165-3273 | allOf, anyOf, oneOf, not and if |
| SchemaLaws.KeywordLaws | src/protocol/validation.ts:2799-3275 | validity against a schema's keywords is exactly every keyword's law, by item, key and branch: which item meets which schema, how many match, which members are checked by what |
| SchemaLaws.EvaluationLaw | src/protocol/validation.ts:2781-2797 | within the bound `true` accepts, `false` refuses and keywords are asked one level deeper; beyond it nothing is valid |
| SchemaMeaning.VerdictIsStable | src/protocol/validation.ts:2792-2794 | where no evaluation is cut off by the depth bound, no larger bound changes the verdict |
| SchemaMeaning.CutOffUnderNot | src/protocol/validation.ts:3225-3240 | the verdict of a schema that negates a reference to itself, at every depth and bound: valid or not by the distance to the bound modulo four |
| SchemaMeaning.SelfNegationNeverSettles | src/protocol/validation.ts:2792-2794 | no bound is large enough for it: two levels more always turn the verdict round |
| SchemaNesting.NestedSettles | src/protocol/validation.ts:2781-2815 | a schema whose chains of subschemas and references fit under the bound is never cut off, on any value |
| SchemaNesting.ChainUnderNot | src/protocol/validation.ts:2792-2815 | a chain of references under `not` accepts every value exactly while the bound falls short of its end |
| SchemaNesting.ChainFlipsOnce | src/protocol/validation.ts:3225-3240 | at a bound as long as the chain it is accepted and unsettled, at any larger one refused and settled |
| SchemaNesting.ReferenceFreeSettles | src/protocol/validation.ts:488-490 | for a schema without references it is enough that its nesting is within the bound; then no larger bound changes its verdict on any value |
| SchemaMeaning.SelfReferenceIsNeverValid | src/protocol/validation.ts:2799-2815 | a reference to its own schema ends at the bound and nothing satisfies it |
| Frames.ParsesExactlyFrames | src/transport/frame-codec.ts:79-95 | a stream parses to a payload exactly when it is that payload's frame and within the maximum |
| Frames.BrokenForGood | src/transport/frame-codec.ts:131-210 | what has failed stays failed the same way, and a complete frame takes no more bytes |
| Frames.HeaderIsBigEndian | src/transport/frame-codec.ts:79-95 | the length stands in the first four bytes, the most significant first, and the payload follows |
| Frames.StreamTable | src/transport/frame-codec.ts:131-233 | what every whole stream decodes to, by its bytes: cut short, too long, trailing bytes, or the payload |
| Frames.EncodeFrame | src/transport/frame-codec.ts:79-95 | the frame, or the error for a bad maximum or an oversized payload |
| Frames.FrameDecoder.constructor | src/transport/frame-codec.ts:98-111 | a new decoder has been fed nothing and has no body |
| Frames.FrameDecoder.Push | src/transport/frame-codec.ts:131-211 | one chunk: nothing yet, the payload it completes, or the sticky error, as the one-shot parser says of all bytes so far |
| Frames.FrameDecoder.TakeHeader | src/transport/frame-codec.ts:147-184 | a body is allocated only after the declared length was checked, and never above the maximum |
| Frames.FrameDecoder.Finish | src/transport/frame-codec.ts:218-233 | what the one-shot parser says of the whole stream |
| Frames.DecodeChunks | src/transport/frame-codec.ts:259-263 | any cutting of a stream, empty chunks included, decodes as the one-shot parser decodes the whole |
| Frames.EveryChunkingDecodes | src/transport/frame-codec.ts:131-233 | any cutting of an encoded payload decodes to the payload |
| Publications.CardsFollowMetadata | src/discovery/agent-card-registry.ts:1006-1053 | in every interleaving no two publications are in flight, and when none is the current card carries the current metadata |
| Publications.MetadataAreWhatWasWritten | src/discovery/agent-card-registry.ts:1006-1117 | in every interleaving an idle registry's metadata are its first ones with the patches of all written updates applied in order, and its card carries them |
| Publications.NothingAfterShutdown | src/discovery/agent-card-registry.ts:1182-1207 | no renewal begins after stop, no write begins after both waits of shutdown, a removed card stays removed |
| Publications.StepInv | src/discovery/agent-card-registry.ts:1068-1117 | every step of renewals, updates and shutdown keeps the chains, the rollback and the waits in order |
| Publications.LeaseDrainedInv | src/discovery/lease.ts:226-287 | once stop's wait is over no renewal is running |
| Publications.RenewBeginsInv | src/discovery/lease.ts:226-233 | a renewal whose turn has come leaves both chains in order: at most one renewal runs, and it waits for a publication that exists |
| Publications.OneAtATime | src/discovery/agent-card-registry.ts:1006-1013 | no two publications are ever in flight |
| Publications.ReachedIsIdle | src/discovery/agent-card-registry.ts:1006-1042 | when a publication's turn comes all before it are settled and nothing is in flight |
| Publications.PublicationsDrainedInv | src/discovery/agent-card-registry.ts:1182-1188 | once shutdown's second wait is over nothing is in flight |
| Publications.StepSince | src/discovery/agent-card-registry.ts:1182-1207 | no single step begins a renewal after stop, a write after both waits, or brings back a removed card |
| AgentCardRegistries.AgentCardRegistry.PublicationTurn | src/discovery/agent-card-registry.ts:1038-1042 | a publication up to its first await is the only one in flight, with a card of the metadata as they are then, which an update has patched, and never after closing; a refused one leaves metadata and card as they were |
| AgentCardRegistries.AgentCardRegistry.WriteReturns | src/discovery/agent-card-registry.ts:1043-1053 | once a write came back nothing is in flight and the current card carries the current metadata, whether the write succeeded or the update was rolled back |
| AgentCardRegistries.AgentCardRegistry.AwaitPublications | src/discovery/agent-card-registry.ts:1187 | when the wait for the lease is over no renewal runs and none can begin |
| AgentCardRegistries.AgentCardRegistry.BeginRemoval | src/discovery/agent-card-registry.ts:1187-1188 | when both waits are over no renewal and no publication runs, so the file is removed undisturbed |
| AgentCardRegistries.AgentCardRegistry.FinishRemoval | src/discovery/agent-card-registry.ts:1188-1204 | after removal no card is current and nothing is in flight that could write one |
| TaskRecords.OneLifePerRequest | tests/fixtures/task-state.ts:356-493 | along a branch written by the helpers each request has one accepted record, then at most one terminal one of the same origin |
| TaskRecords.FirstRecordTable | tests/fixtures/task-state.ts:356-493 | the first record of a request is its acceptance by the session, with these fields |
| TaskRecords.NextRecordTable | tests/fixtures/task-state.ts:356-493 | exactly which later record is accepted from whom, and what it keeps |
| TaskRecords.TaskSession.FoldLatest | tests/fixtures/task-state.ts:343-354 | the loop is the fold of the current branch |
| TaskRecords.TaskSession.CacheForAppend | tests/fixtures/task-state.ts:282-292 | hit or miss, the answer is the fold of the current branch |
| TaskRecords.TaskSession.AppendEntry | tests/fixtures/task-state.ts:417-419 | an append by anybody extends the current branch only, and a cached fold of any leaf stays right |
| TaskRecords.TaskSession.AppendTaskMetadata | tests/fixtures/task-state.ts:356-493 | the record or the refusal by the latest record of the request, and the cache carried along |
| TaskRecords.TaskSession.SupersedeInherited | tests/fixtures/task-state.ts:558-600 | every live inherited record is superseded and nothing else changes; only a time that moves back can stop it |
| TaskRecords.SupersedingSparesTheOwn | tests/fixtures/task-state.ts:536-550 | superseding takes nothing from what the session recovers, and nobody recovers what was superseded |

## Left out

- Clock: one reading serves a whole router step, and one of the policy's two readings serves both checks of `claimRecord`; the real code samples more often.
- Callbacks: not re-entrant; the `isCancelled` callback of an arriving entry expires its own due task, that of retained entries only looks.
- Identifiers are numbers and records are values known by token or uid, so object identity, freezing and cloning are not captured; the list `expire` returns is the notices log.
- Records of the policy, tasks and leases are held by value and token in `seq` and `map` fields; aliasing between the indexes' record objects is not captured.
- Dedupe timers, which only prune earlier what every call prunes first, and `close`, `clear` and `dispose` of all stores.
- The fingerprint, regular expressions and `$ref` resolution are parameters; numbers are integers with decimal text, so float printing and rounding are not modelled.
- Authorization hooks, bindings, contracts and the field checks of envelopes: a reply carries their verdicts, a request is assumed valid.
- `task.status`, `peer.describe`, aliases of public methods, snapshot projection, diagnostics and reachability reports.
- Cyclic and non-plain JavaScript objects: JSON values are trees, so the serializer's and the measurer's cycle checks have nothing to find.
- Schema shape validation and the regex cache: schemas are taken as already validated and structured.
- Of publication: when timers fire, what a card holds besides its metadata, and file contents; the promise runtime is the rule that a link of a chain runs after the link before it.
- Timers of the task store fire no earlier than they were armed for, except purges, which may come at any time after the task is terminal; delays beyond a timer's range are not modelled there.
- The session manager of the task records is an append-only tree with a leaf and a session id; option shapes and timestamps' text are taken as checked.
- The public `purgeTask` of the task store: with unlimited retention no event of the router purges a task, so the guarantees that need such retention also assume nobody calls it.
- A delivery outcome of a reply may be seen more than once in a run of the model; the program sees it once.
- Publications.NothingAfterShutdown: a registry with `deadlineMs` can settle a publication while its write still runs (src/discovery/filesystem.ts:476-484); here a publication is settled only when its write has ended.
- SchemaEvaluation.NumberKeywords: numbers are integers and division is exact, so a tolerance decided by floating-point rounding is not captured.
- The library validator that runs before the schema evaluator (src/protocol/validation.ts:3300-3308).
- Sockets, endpoint probing, file locks, the deprecated runtime registry, adapters and user interfaces.
- Schema evaluation past the depth bound has no meaning to agree with, since a cut-off under `not` succeeds.
