# A verification model of the Codex Go SDK

The SDK keeps one app-server process per client and talks to it over one pipe. This project models
the parts of it in which the order of steps, a bound or a recursion decides correctness, and proves
what those parts promise.

**The message router** (`RouterState`, `RouterMeaning`, `RouterDelivery`, `RouterMachine`, `RouterLedger`,
`RouterTotals`, `RouterTheorems`, `RouterFifo`, `RouterAcceptance`, `RouterWakeup`, `RouterCounters`,
`MessageRouter`, `RouterClient`, `ResponseMachine`). One reader
distributes the notifications of the process over bounded queues per login, turn, goal and
compaction, a global queue, and one-slot response waiters. `RouterState` holds the critical sections as
functions on a value; route states live in a store and are named by their index, index 0 is the
global queue. `RouterMachine` interleaves them: a consumer looks its route up under the lock,
receives without it and takes the lock again to release, and `FailAll` sets the flag under the lock
and serves the queues one by one afterwards. `MessageRouter` is the same router as a class over
mutable route states; each method's contract equates the new state with the function. A ghost
history per route state records what was accepted, received and credited; no step reads it.
`RouterMeaning` and `RouterDelivery` say what the critical sections mean in counters, contents and ids:
which call is accepted, and where a notification ends up.

**Goals** (`GoalState`, `GoalMachine`, `GoalEnding`, `GoalOperation`, `GoalStream`, `TurnStream`, `GoalPipeline`). Several physical
turns are presented as one logical stream. `GoalMachine` interleaves the notifications of `routeLoop`
with consumers inside `awaitContinuation`, whose two looks at the operation are two steps, and which
wait on the one-slot signal channel. `TurnStream` and `GoalStream` are the pull streams; what the
transport and `awaitContinuation` will return is their input, their `Next` is proved against the story
that is left to tell, and `GoalStreams.ReadGoal` is a consumer that calls it to the end and beyond.
`GoalPipeline` puts the router, the operation's loop, its hand-outs and the stream together.

**Exclusion of turns and goals** (`ThreadTables`, `ThreadExclusion`, `ThreadRoutes`, `ThreadClient`). The
ref-counted lock per thread id, the shared map of goals, the goal route that all operations of a thread
share, and the handles that delete their entry long after the lock was released.

**Redaction and the stderr ring** (`Redaction`, `RedactionTheorems`, `RedactionKeys`,
`RedactSecrets`, `RedactionMeaning`, `JoinedLines`, `StderrRing`). The loops that rewrite the text they search, against recursive
definitions; the ring of redacted lines. Text is ASCII.

**The type generator** (`Schema`, `SchemaMeaning`, `GeneratorRun`, `ProtocolGenerator`, `GeneratorTheorems`, `StringOrder`,
`Strings`). Mutually recursive methods over schemas that refer to each other by name, in cycles too; the
whole run is a function of the bundle, and the class is proved to compute it. Declarations are
structures, not text; `SchemaMeaning` says case by case what a schema's declaration is.

**Versions, configuration, retries** (`RuntimeVersion`, `RuntimeVersionTheorems`, `RuntimeVersionMeaning`,
`ConfigFlatten`, `ConfigTheorems`, `ConfigErrors`, `Retry`).

## What turned out to be false, and what holds instead

- `FailAll` pushes markers that were never reserved, and consumers release them like any item. Byte
  counters stay exact; an event counter is the number of real items less the released markers, so it
  falls below them exactly when a consumer has released one (`RouterCounters.CounterFallsShortIff`;
  `RouterCounters.CounterFallsShort` reaches such a state).
- `FailAll` leaves one marker per queue. On a channel that never has two waiting consumers at once, and
  that is registered when the failure is flagged, no one stays blocked (`RouterWakeup.NoLostWakeup`).
  Both provisos are needed everywhere: from every state with a consumer blocked on an empty channel, a
  second consumer, blocked too or calling later, can take the marker and leave it blocked for good, and
  so can an unregister before the failure (`RouterWakeup.SecondConsumerIsStuck`,
  `RouterWakeup.LaterCallerTakesMarker`, `RouterWakeup.UnregisteredConsumerIsStuck`).
- Turns are handed out and queued exactly once if and only if none is announced again after it was handed
  out and every pop finds the turn that the look before it saw (`GoalMachine.ExactlyOnceIff`). With one
  consumer at a time the second part holds by itself (`GoalMachine.ExactlyOnceForOneConsumer`); two that
  look before either pops both get the turn (`GoalMachine.TwoConsumersTakeOneTurn`,
  `GoalMachine.OneTurnIsTakenTwice`). A turn announced again can block the wait of a complete goal
  (`GoalMachine.SecondAnnouncementBlocks`, `GoalMachine.BlockedStaysBlocked`).
- A complete goal with nothing pending can wait for ever even so, when an update names a turn after its
  end (`GoalMachine.LateUpdateBlocks`). The wait ends if and only if nothing failed, nothing is pending,
  the goal is cleared or terminal, and the turn named last was closed after that (`GoalMachine.EndsIff`;
  `GoalEnding.EndsByReports` reads all of it but the pending turns off the steps of the run).
- Of two consumers that wait on one goal, one misses a notification, from every such state
  (`GoalMachine.SecondWaiterIsLost`); a single one misses none (`GoalMachine.NoLostNotification`).
- A second loop on a thread's goal route, such as a refused `StartGoal`'s, can take an announcement that the
  operation never hears of (`GoalPipeline.AnnouncementIsStolen`, `GoalPipeline.UnheardIsLost`). Every
  announced turn is accounted for if and only if the operation's own loop received an announcement of it
  (`GoalPipeline.AllAccountedIff`).
- A goal can lose its route while its handle is open: a refused `StartGoal` has joined the route and
  unregisters it (`ThreadRoutes.RefusalCutsRunningGoal`), and without any refusal the close of the goal
  before it unregisters the route that the next one has joined (`ThreadRoutes.CloseCutsNextGoal`). It has
  its route if and only if neither has happened since it joined, or another `StartGoal` of the thread is
  just between joining and being refused (`ThreadRoutes.HasRouteIff`).
- A value behind a key ends at the first space, quote or line end. What follows `authorization: Bearer `
  comes out of redaction as it is if and only if it would on its own
  (`RedactSecretsTheorems.BearerCredentialSurvivesIff`; `RedactSecretsTheorems.BearerExample`). Everything
  behind a marker is hidden if and only if there is no such stop (`RedactSecretsTheorems.HiddenIff`).
- `StderrTail` is the newline-joined ring if and only if no retained line but the last leaves a JSON value
  open (`StderrRings.StderrRing.StderrTail`, `JoinedLines.JoinIsFixedIff`). Behind one that does, a line
  without a quote is lost (`JoinedLines.OpenLineSwallows`, `JoinedLines.OpenLineIsOpen`).
- A union's variant is declared under its title, and a name goes to the first schema that asks for it: a
  bundle name can get a variant's declaration, and a variant a bundle name's
  (`GeneratorTheorems.TitleTakesName`, `GeneratorTheorems.NameTakesTitle`). Everyone gets the declaration of
  his schema if and only if no two schemas with different declarations come under one name in the bundle
  and its unions (`GeneratorTheorems.ServedIff`).
- Declarations are filed under names as the bundle spells them, so `foo_bar` and `FooBar` always declare the
  Go type `FooBar` twice (`GeneratorTheorems.SnakeAndCamelClash`). The output is right in both respects if
  and only if there is no clash and different names have different Go names
  (`GeneratorTheorems.OutputIsRightIff`).
- The replacements of a version's words run one after the other, so that `-bet-alpha1` becomes `-beta1`
  and then `b1`. A text is accepted if and only if it is a normal form, a release form, or of this one
  kind (`RuntimeVersionMeaning.NormalizesIff`, `RuntimeVersionMeaning.RefusedIff`;
  `RuntimeVersionMeaning.BetAlphaExample`).
- The backoff formula fails exactly when a delay can be doubled past 2^63 (`Retries.BackoffLawIff`).
- A configuration survives flattening, up to its empty tables, if and only if every key that leads to a
  leaf has neither a dot nor an equals sign, and no empty key at the top holds a table with a leaf
  (`ConfigTheorems.RoundTripIff`; `ConfigTheorems.EmptyKeyMovesUp` is the second kind).

## Model

| member | source | states |
|---|---|---|
| RouterMachine.RunIsSound | internal/router/router.go:315-471 | in every interleaving a tombstoned id has no route, route states never change owner, and FailAll's snapshot covers every registered channel |
| RouterLedger.StepKeepsBalance | internal/router/router.go:400-437 | every step keeps, for each route state, received items plus queue equal to accepted items plus the marker, and the counters equal to what is not yet returned |
| RouterTheorems.Conservation | internal/router/router.go:305-309 | in every reachable state totalEvents and totalBytes equal the global counters plus the sum over all registered routes, and each counter equals the load of its queue and of what consumers hold, less the unreserved markers |
| RouterTheorems.GivenBackOnce | internal/router/router.go:400-410 | each reserved item is credited to the totals once, by its consumer's release or by unregister, never both |
| RouterTheorems.GoneForGood | internal/router/router.go:605-622 | after unregister a route state accepts nothing and a late release credits nothing |
| RouterTheorems.NothingLeaks | internal/router/router.go:463-486 | with all queues drained and all items released the totals are zero |
| RouterTheorems.NoBlockingSend | internal/router/router.go:376-398 | in every reachable state each send under the mutex (replay at registration, scoped, global) finds a free slot |
| RouterTheorems.QueuesWithinCapacity | internal/router/router.go:439-474 | until a failure queue length plus received, unreleased items equal the event count and stay within the channel capacity |
| RouterTheorems.RejectionChargesNothing | internal/router/router.go:439-474 | a rejected routeScoped call changes no counter and no existing route state |
| RouterFifo.FifoWithReplay | internal/router/router.go:376-398 | per id, received items followed by queued or pending ones are exactly those accepted since the last unregister, in order, early ones included, then FailAll's marker if pushed |
| RouterFifo.TombstoneHolds | internal/router/router.go:439-456 | a tombstoned id is not routed and accepts nothing until it is registered again |
| RouterWakeup.NoLostWakeup | internal/router/router.go:315-437 | once FailAll has finished, a consumer of a flagged route is not blocked on an empty queue, in any interleaving, if no two consumers have waited on that route together since FailAll served it |
| RouterWakeup.RegisteredWasFlagged | internal/router/router.go:338-374 | a route still registered after the failure is one FailAll serves |
| RouterWakeup.LaterCallsReturn | internal/router/router.go:412-437 | in every interleaving a call that starts after the failure never blocks: its receive takes the item that is oldest by then, its check returns the error, and nobody else's step moves it |
| RouterWakeup.LookupDecides | internal/router/router.go:412-437 | in every interleaving a consumer of a route that finds its channel empty blocks if and only if there was no failure when it looked the route up, whatever happened since |
| RouterWakeup.LeftoversOnlyShrink | internal/router/router.go:315-374 | after FailAll no step adds to any queue |
| RouterWakeup.StuckOnlyBehindAReceipt | internal/router/router.go:412-437 | without the one-consumer proviso a stuck consumer's channel was received from after it was served |
| RouterWakeup.DetachedStaysStuck | internal/router/router.go:400-437 | a consumer blocked on a route unregistered before the failure stays blocked under every step but its own cancellation |
| RouterWakeup.UnregisteredConsumerIsStuck | internal/router/router.go:400-437 | from every unfailed configuration with a consumer blocked on a live empty route, an unregister and a failure leave it stuck after FailAll |
| RouterWakeup.SecondConsumerIsStuck | internal/router/router.go:338-374 | from every unfailed configuration with two consumers blocked on one live empty channel, a failure and one wake-up leave the other stuck after FailAll |
| RouterWakeup.LaterCallerTakesMarker | internal/router/router.go:412-437 | from every such configuration with one blocked and one idle consumer, the idle one's call after the failure takes the marker and leaves the blocked one stuck |
| RouterWakeup.TwoConsumersBlock | internal/router/router.go:412-437 | a run from the start into a configuration to which the three apply |
| RouterCounters.CounterFallsShortIff | internal/router/router.go:315-374 | in every reachable state a registered route's event count is its queued, pending and held notifications less the released markers; it falls short exactly if a marker was released |
| RouterCounters.CounterFallsShort | internal/router/router.go:412-437 | a run in which one consumer releases the marker while another holds a notification: the count is zero and one item is real |
| RouterState.NormalizeLimits | internal/router/router.go:42-66 | each limit on its own is kept if positive and replaced by its default otherwise |
| MessageRouterImpl.MessageRouter.RegisterRoute | internal/router/router.go:376-398 | the class keeps its representation and becomes the model's Register: the channel is opened and the pending items are replayed into it in order; route objects are the old ones or new |
| MessageRouterImpl.MessageRouter.UnregisterRoute | internal/router/router.go:400-410 | the model's Unregister: the route's counters leave the totals, the id is tombstoned; the other route objects stay |
| MessageRouterImpl.MessageRouter.ReserveTotal | internal/router/router.go:476-486 | both totals are checked before either is charged |
| MessageRouterImpl.MessageRouter.RouteScoped | internal/router/router.go:439-474 | the model's RouteScoped, and in counters: after a failure the failure, nothing for a tombstoned or missing route, otherwise success exactly if one more event and its bytes fit the route's two limits and the two totals, else the error of the first that is exceeded |
| MessageRouterImpl.MessageRouter.RouteGlobal | internal/router/router.go:293-312 | the model's RouteGlobal, with the same exact condition on the global limits and the totals; the send has a free slot |
| MessageRouterImpl.MessageRouter.RouteNotification | internal/router/router.go:259-313 | it succeeds if and only if every route that gets the notification, the global queue if that does, and the totals have room for it, and then, by method and ids: a compaction or login is behind the contents of its one route, any other behind those of its turn's route if it has a turn, of its thread's goal route if there is one and the method is one of five, and of the global queue exactly if it has no turn; no tombstoned route gets it and nothing else changes; else the deliveries stop at the first error |
| MessageRouterImpl.MessageRouter.NextRoute | internal/router/router.go:412-437 | an undisturbed call returns the queue's head and releases it, or the failure, or waits |
| MessageRouterImpl.MessageRouter.FailAll | internal/router/router.go:315-374 | the first call empties the waiter map, gives each waiter the error, and puts the error behind the contents of the global queue and of every open route with a free slot, changing no counter and nothing else; a second call changes nothing |
| RouterMeaning.ScopedAcceptsIff | internal/router/router.go:439-474 | the exact condition for acceptance on the state's counters, and which error otherwise; what is ignored changes nothing |
| RouterMeaning.ScopedEffect | internal/router/router.go:457-473 | an accepted notification is last in its route's channel, or in its buffer before the registration, and is counted once in the route and the totals; a refused one changes no contents and no counter; all other routes stay |
| RouterMeaning.GlobalEffect | internal/router/router.go:293-312 | the same for the global queue |
| RouterMeaning.RegisterMeans | internal/router/router.go:376-398 | registering lifts the tombstone and opens the route with what was pending, with all counters as before; after a failure it returns the failure |
| RouterMeaning.UnregisterMeans | internal/router/router.go:400-410 | unregistering takes the route and its counters out and leaves a tombstone |
| RouterMeaning.ReleaseMeans | internal/router/router.go:605-622 | a release gives one event and the item's bytes back to its route and the totals if the route is still the one in the map, and otherwise nothing |
| RouterMeaning.DefaultLimits | internal/router/router.go:25-35 | the limits of a router that is given none, in numbers |
| RouterAcceptance.AcceptedIffOutstandingFits | internal/router/router.go:439-474 | at every point of every run without a failure: accepted if and only if what was accepted for the id since its last unregister, less what was given back, leaves room for one more in the id's event and byte limits, and the totals do |
| RouterClient.FillRoute | internal/router/router.go:457-486 | notifications of one size for one id are accepted exactly as long as they fit all bounds, so as many as the route's event limit if the others allow that many; the next one is refused with the bound it exceeds |
| RouterDelivery.NotificationEndsUp | internal/router/router.go:259-313 | when all deliveries succeed and where the notification is then, in contents of routes and of the global queue; after a failure nothing changes |
| RouterDelivery.FullTurnRefuses | internal/router/router.go:275-288 | a full turn route refuses the notification with its own error, and then neither the goal's route nor the global queue gets it |
| RouterClient.EarlyAndLate | internal/router/router.go:376-474 | over several calls: a notification before the registration is what the first next call returns if its size fits the limits, there is no second, and one after the unregister is dropped with nothing left on the totals |
| MessageRouterImpl.MessageRouter.CreateResponseWaiter | internal/router/router.go:141-157 | errors exactly after a failure, for an id in use, or at the limit; else a fresh waiter is entered |
| MessageRouterImpl.MessageRouter.DiscardResponseWaiter | internal/router/router.go:159-163 | the id, and nothing else, leaves the map |
| MessageRouterImpl.MessageRouter.RouteResponse | internal/router/router.go:247-256 | the waiter leaves the map and gets exactly this response; all others are untouched |
| ResponseMachine.NoSenderBlocks | internal/router/router.go:247-256 | in every interleaving a response or failure is sent into an empty one-slot channel |
| ResponseMachine.AtMostOneMessage | internal/router/router.go:320-337 | each waiter's channel gets at most one message over its life |
| ResponseMachine.FateIsFinal | internal/router/router.go:141-163 | a waiter leaves the map by exactly one of RouteResponse, DiscardResponseWaiter and FailAll |
| ResponseMachine.CreatedIff | internal/router/router.go:141-157 | a waiter is made exactly if nothing failed, the id has none and there are fewer than the limit |
| ResponseMachine.PendingWithinLimit | internal/router/router.go:148-150 | in every run there are never more waiters in the map than the limit |
| ResponseMachine.DiscardedGetsNothing | internal/router/router.go:159-163 | in every run a discarded waiter is out of the map and nothing is ever sent to it |
| ResponseMachine.FailureReachesEveryWaiter | internal/router/router.go:320-337 | after FailAll every waiter neither answered nor discarded holds exactly the one error |
| ResponseMachine.RequestsGetTheirOwnAnswer | internal/appserver/client.go:209-236 | with request ids numbered afresh, what a request receives is the response to its own id or the failure, in every interleaving |
| GoalState.ConsistentMeansLastIsTheTarget | goal.go:281-288 | the interrupt target is always the last announced turn |
| GoalState.NoteTurnKeepsConsistent | goal.go:146-167 | pending turns stay distinct and never include the logical turn, which is written once |
| GoalMachine.NoTurnSkipped | goal.go:146-167 | in every run every announced turn is the logical turn, pending, or handed out |
| GoalMachine.LogicalTurnIsFirst | goal.go:150-155 | the logical turn is the first one announced and never changes; pending turns are distinct and exclude it |
| GoalMachine.EndMeansAllHandedOut | goal.go:245-279 | when awaitContinuation reports the end every other announced turn has been handed out and none is running |
| GoalMachine.HandedOutOnceInOrder | goal.go:245-279 | with any number of consumers, without re-announcement after hand-out and with every pop finding the turn its look saw, the turns handed out are distinct and a prefix of the first-announcement order |
| GoalMachine.PendingTurnIsNext | goal.go:253-270 | then the oldest pending turn is what the next look returns |
| GoalMachine.ExactlyOnceIff | goal.go:245-279 | over every run, with any number of consumers: no turn is ever handed out or queued twice if and only if none is announced again after it was handed out and every pop finds the turn its look saw |
| GoalMachine.ExactlyOnceForOneConsumer | goal.go:146-167 | over every run with one consumer at a time the first condition alone is exact |
| GoalMachine.TwoConsumersTakeOneTurn | goal.go:263-270 | from every state in which two consumers are about to look at a head that is neither's own turn, both can get it |
| GoalMachine.OneTurnIsTakenTwice | goal.go:263-270 | a run without re-announcement that hands one turn out twice |
| GoalMachine.EndsIff | goal.go:253-270 | over every run the wait ends if and only if nothing failed, nothing is pending, the goal is cleared or terminal, and the turn named last was completed or finished after it was named |
| GoalEnding.EndsByReports | goal.go:253-298 | over every run, from its steps: the wait ends if and only if none failed, nothing is pending, no named turn is left open, and the last update reported paused, blocked, usageLimited, budgetLimited or complete, or the goal was cleared and not updated to active after that |
| GoalEnding.LooksByReports | goal.go:253-271 | over every run the first error is what every look returns; without one a look hands out the oldest pending turn exactly if it is not the caller's own |
| GoalEnding.FirstFailureWins | goal.go:62-72 | over every run the operation has failed exactly if a notification was malformed or its loop failed, with the first such error |
| GoalEnding.StatusDecides | goal.go:290-298 | for every status: once the first turn is over and the status is reported, the wait ends for the five final ones and goes on for any other |
| GoalMachine.LateUpdateBlocks | goal.go:100-106 | a run without re-announcement in which an update names the turn after its end: the goal is complete, nothing is pending, and the consumer waits |
| GoalMachine.NoLostNotification | goal.go:55-60 | with one consumer at a time, a waiting consumer that would find something finds the one-slot signal channel full |
| GoalMachine.SecondWaiterIsLost | goal.go:273-277 | from every state with two waiting consumers a failure and one wake-up leave the other waiting on an empty signal channel |
| GoalMachine.BlockedStaysBlocked | goal.go:259-278 | behind its own re-announced turn the wait ends only by an error or by giving up |
| GoalMachine.SecondAnnouncementBlocks | goal.go:146-167 | a run in which a re-announced turn blocks a goal that is complete |
| GoalOperationImpl.GoalOperation.NoteTurnID | goal.go:146-167 | the fields become the model's NoteTurn of the old ones |
| GoalOperationImpl.GoalOperation.ObserveGoalNotification | goal.go:81-144 | the fields become the model's Observe of the old ones, malformed payloads included; status, cleared and the failure are given field by field |
| GoalOperationImpl.GoalOperation.FinishPhysicalTurn | goal.go:236-243 | only a current turn that equals the finished one is cleared |
| GoalOperationImpl.GoalOperation.AwaitContinuation | goal.go:245-279 | one look and pop, against the model's Look and Pop; and in fields: it ends exactly if nothing failed, nothing is pending, no turn is current and the goal is cleared or in one of the five final statuses |
| GoalOperationImpl.GoalOperation.InterruptTarget | goal.go:281-288 | the current turn, or else the last one |
| GoalStreams.GoalStream.Next | goal.go:548-631 | each call returns the head of the story that is left (or its error, or the end of file, which ends the stream) and leaves the rest, ready for the next call; an error closes the handle |
| GoalStreams.LogicalStreamIsConcatenation | goal.go:548-631 | over every run, failing or not, the story is the events of the handed-out turns in order, under the logical id, without starts of later turns and without all but the last terminal event; it ends with the first error of a stream or of the wait, and then without any terminal event |
| GoalStreams.RewriteMeans | goal.go:699-711 | an event and its turn get the logical id if there is one; kind, item, usage, error and the turn's status stay |
| GoalStreams.ReadAll | goal.go:642-656 | calling Next until it returns no event yields exactly the events of the story, then its error or the end of file |
| GoalStreams.ReadGoal | goal.go:548-631 | from a new stream, over every error-free run: consecutive calls return exactly the joined events of the handed-out turns, and every call after that the end of file |
| GoalStreams.OneTerminalEventAtTheEnd | goal.go:699-711 | the stream ends with its only terminal event, and every event carries the logical turn's id |
| GoalPipeline.NothingIsLost | goal.go:169-201 | with the operation's loop as the only receiver of its route: accepted notifications are what it received and then the queue, and every turn announced by what it observed is accounted for |
| GoalPipeline.AllAccountedIff | goal.go:430-444 | with other receivers too: all announced turns are accounted for if and only if the operation's own loop received an announcement of each |
| GoalPipeline.AnnouncementIsStolen | goal.go:430-444 | a run in which a second loop on the route takes the only accepted notification |
| GoalPipeline.UnheardIsLost | goal.go:169-201 | a turn no notification the loop received announces is not accounted for, in any run of the operation |
| GoalPipeline.StreamTellsAcceptedTurns | goal.go:548-631 | end to end, when the wait has ended, nothing is queued and every turn completes: the stream tells the turns the accepted notifications announce, each once, in the order of first announcement, under the first one's id |
| TurnStreams.TurnStream.Next | turn_api.go:60-95 | the model's Advance; and frame by frame: which of the five stops comes first, otherwise the next frame's event with its kind, turn id, turn, item, usage and error; an error closes and unregisters the stream, a usage is remembered |
| TurnStreams.TurnStream.Close | turn_api.go:98-108 | the route is unregistered on the first call only |
| TurnStreams.TerminalOnceThenEof | turn_api.go:60-95 | in any sequence of calls at most one terminal event is returned, and after it nothing but the end of file |
| TurnStreams.EndIsFinal | turn_api.go:67-69 | the end of file is sticky |
| TurnStreams.FailureIsFinal | turn_api.go:64-66 | a transport or decoding error is sticky |
| TurnStreams.UnregisteredOnce | turn_api.go:98-108 | in any sequence of calls the route is unregistered at most once |
| TurnStreams.FinalAssistantResponse | turn_api.go:597-612 | the last final answer, or else the last non-empty untagged message, or nothing |
| TurnStreams.CollectTurnResult | turn_api.go:140-195 | read off the feed: with k the first frame that is lost, does not decode or ends the turn, the result is that error, or the failed turn's error text, or the turn's id and status with the items of the completed-item frames before k in order, their final response and the last usage reported |
| TurnStreams.ToldOfFrames | turn_api.go:245-389 | the items, the terminal event and the error of an open stream, from the frames of its feed |
| ThreadExclusion.CallersShareOneEntry | client.go:285-304 | all callers between threadLock and releaseThreadLock for a thread share the map's entry, users is their number, and the entry exists iff there are any |
| ThreadExclusion.CallbacksNeverOverlap | client.go:306-312 | two callbacks for one thread id never overlap |
| ThreadExclusion.OneGoalPerThread | goal.go:436-452 | a thread has at most one live goal operation, and a goals entry exactly while it has one |
| ThreadExclusion.TurnStartExcludesGoals | client.go:659-686 | from the check in startTurn until its caller unlocks the thread, turn/start included, the thread has no goal operation and none is entered |
| ThreadExclusion.DeleteRemovesOwnEntry | goal.go:476-485 | each unconditional delete removes the deleting operation's own entry, and nothing else removes or replaces one |
| ThreadRoutes.RouteClosedByOwnerOrRefusal | goal.go:431-441 | a thread's goal route is closed only by the operation in the map or by one refused because of it |
| ThreadRoutes.HasRouteIff | goal.go:431-485 | over every run an operation that is still going has its route exactly if, since it joined, neither the goal before it was closed before it was entered nor another was refused after, or another one has just joined again |
| ThreadRoutes.NoOrphanRoute | goal.go:431-485 | over every run a goal route is there only while an operation of its thread is being started, failing or refused, or has an open handle |
| ThreadRoutes.RefusalCutsRunningGoal | goal.go:431-441 | from every state with an open handle and a free lock a refused StartGoal removes the running goal's route and leaves its entry and handle |
| ThreadRoutes.CloseCutsNextGoal | goal.go:431-485 | from every such state, without any refusal, a StartGoal that overlaps the close of the running goal ends with an open handle, an entry and no route |
| ThreadRoutes.GoalIsOpened | goal.go:418-473 | a run from the start into such a state |
| ThreadClient.Client.ThreadLock | client.go:285-295 | returns the thread's entry, new if there was none, with one more user |
| ThreadClient.Client.ReleaseThreadLock | client.go:297-304 | one user less, and the last one removes the entry |
| ThreadClient.Client.AddGoal | goal.go:436-443 | the operation is entered unless the thread has one |
| ThreadClient.Client.DeleteGoalEntry | goal.go:481-483 | the thread's entry, whatever it is, leaves the map |
| Redaction.RunPass | internal/appserver/client.go:817-856 | the loop that rewrites its own input ends and computes the recursive definition |
| Redaction.RunTokens | internal/appserver/client.go:858-874 | the loop that searches from the start ends, computes the recursive definition, and leaves no "sk-" |
| Redaction.RedactSecrets | internal/appserver/client.go:727-736 | all passes in their order |
| RedactionMeaning.MarkersMean | internal/appserver/client.go:727-736 | the fifteen passes: the twelve keys and three JSON markers in lower case, and which of them skip separators |
| RedactionMeaning.ValueReach | internal/appserver/client.go:817-856 | each pass at its first marker, in any case of letters: behind the marker and, for a key, blanks, colons, equal signs and quotes, the text up to the next stop becomes [REDACTED]; the rest is handled as its own text |
| RedactionMeaning.NoMarkerNoMask | internal/appserver/client.go:817-856 | a pass leaves a text without its marker alone |
| RedactionMeaning.TokenReach | internal/appserver/client.go:858-874 | the first sk- and all letters, digits, dashes and underscores behind it become [REDACTED_API_KEY] |
| RedactionTheorems.MaskKeepsMasked | internal/appserver/client.go:836-856 | a pass leaves behind each occurrence of its own marker only separators, the mark, and a stop or the end, and keeps what another pass has masked |
| RedactionTheorems.MaskedIsFixed | internal/appserver/client.go:836-856 | a pass changes nothing in a text that is masked already |
| RedactionTheorems.MaskReplacesValuesOnly | internal/appserver/client.go:817-856 | a pass replaces values, in order, and keeps every other character |
| RedactionKeys.KeyHarmlessToKey | internal/appserver/client.go:729-731 | no key pass can undo another one or itself |
| RedactionKeys.JsonHarmlessToKey | internal/appserver/client.go:732-734 | no JSON pass can undo a key pass, its own key's included |
| RedactSecretsTheorems.TokensAreMasked | internal/appserver/client.go:858-874 | after the token pass there is no "sk-" |
| RedactSecretsTheorems.OnlyTokensAreReplaced | internal/appserver/client.go:858-874 | whole tokens are replaced and every other character is kept |
| RedactSecretsTheorems.MaskKeepsTokenFree | internal/appserver/client.go:836-856 | no later pass creates a "sk-" |
| RedactSecretsTheorems.RedactedMasksValues | internal/appserver/client.go:727-736 | for every text the output has no "sk-", and behind each of the twelve keys and three JSON markers the value, up to its first stop, is the mark |
| RedactSecretsTheorems.HiddenIff | internal/appserver/client.go:836-856 | behind the first marker a pass hides the text up to the first stop and handles the rest as a text of its own; nothing behind the marker survives exactly if there is no stop |
| RedactSecretsTheorems.BearerCredentialSurvivesIff | internal/appserver/client.go:727-736 | for every text behind "authorization: Bearer ": redactSecrets masks the word Bearer and leaves the text exactly if it would leave it alone on its own |
| RedactSecretsTheorems.BearerExample | internal/appserver/client.go:727-736 | such a text: "abc" |
| RedactSecretsTheorems.RedactedIsFixed | internal/appserver/client.go:727-736 | redacting twice is redacting once |
| RedactSecretsTheorems.PassIsIdempotent | internal/appserver/client.go:836-856 | each single pass is idempotent on any text |
| RedactSecretsTheorems.FixedIffMasked | internal/appserver/client.go:836-856 | a pass leaves a text alone exactly when everything behind its marker is masked |
| StderrRings.RetainedIsLongest | internal/appserver/client.go:622-628 | what is retained is the longest suffix of the history that meets the line bound and the byte bound |
| StderrRings.RetainedMeans | internal/appserver/client.go:622-628 | the same in plain numbers: what is kept has at most so many lines and characters, and one line more would have too many |
| StderrRings.RetainedAppend | internal/appserver/client.go:617-630 | lines dropped before a line arrives would be dropped after it too |
| StderrRings.StderrRing.Take | internal/appserver/client.go:617-630 | after every line the ring is what is retained of the whole redacted history, and stderrBytes is its byte sum |
| StderrRings.StderrRing.DropUntilFits | internal/appserver/client.go:622-628 | the eviction loop ends, with the retained lines and their byte sum |
| StderrRings.StderrRing.StderrTail | internal/appserver/client.go:354-360 | the tail has no API key, behind each marker the value up to its first stop is the mark, and it is the newline-joined ring if and only if no retained line but the last leaves a JSON value open |
| JoinedLines.JoinIsFixedIff | internal/appserver/client.go:354-360 | redacting joined redacted lines changes nothing if and only if no line but the last ends behind a JSON marker and the mark |
| JoinedLines.OpenLineSwallows | internal/appserver/client.go:817-834 | a redacted line without a quote behind one that ends so is lost with its line end |
| JoinedLines.OpenLineIsOpen | internal/appserver/client.go:817-834 | such a line, which redaction leaves as it is |
| Schemas.GoTypeNameIsIdempotent | cmd/codex-sdk-gen/protocolgen.go:1081-1108 | a Go type name is its own Go type name, so a reference is spelled like its target's declaration |
| Schemas.MakeGoTypeName | cmd/codex-sdk-gen/protocolgen.go:1081-1108 | the loop computes the recursive definition |
| Schemas.NullableInner | cmd/codex-sdk-gen/protocolgen.go:871-916 | a nullable schema's inner one is smaller, the rewritten copy included |
| SchemaMeaning.NullableMeans | cmd/codex-sdk-gen/protocolgen.go:871-916 | exactly when a schema is nullable and what is beside its null: a list of two type names, else a two-way anyOf, else a two-way oneOf |
| SchemaMeaning.NodeTypeMeans | cmd/codex-sdk-gen/protocolgen.go:857-869 | a schema's type is the named one, or the first name in its list that is not null |
| SchemaMeaning.ExprIsGoType | cmd/codex-sdk-gen/protocolgen.go:409-455 | the Go type of a schema and whether it is nullable, by cases: reference, nullable, single allOf, string, integer, boolean, array, object, other; the expression has exactly this type |
| SchemaMeaning.FieldsMean | cmd/codex-sdk-gen/protocolgen.go:216-251 | one field per property in order: optional exactly if not required, to be present exactly if required and nullable, a pointer exactly if optional or nullable and no slice, map, any or raw message |
| SchemaMeaning.VariantsMean | cmd/codex-sdk-gen/protocolgen.go:309-407 | one variant per alternative in order: a reference, a type of its own with its name for an enum or an object, or raw |
| SchemaMeaning.DeclOfMeans | cmd/codex-sdk-gen/protocolgen.go:176-199 | an enum with its values, else a union, else a struct, else an alias of a slice, a basic type or any |
| SchemaMeaning.GoTypeNameMeans | cmd/codex-sdk-gen/protocolgen.go:1081-1108 | the name's words in one, with N before a digit, and Unnamed for nothing |
| SchemaMeaning.WordsAreJoined | cmd/codex-sdk-gen/protocolgen.go:1085-1098 | a character that is neither letter nor digit is dropped and starts a new word |
| SchemaMeaning.LookupMeans | cmd/codex-sdk-gen/protocolgen.go:148-160 | the roots' names stand for the roots, other names for the definition, else the supplemental schema |
| ProtocolGen.ProtocolGenerator.EnsureNamedType | cmd/codex-sdk-gen/protocolgen.go:162-174 | ends for every bundle; a name is emitted at most once, everything emitted on the way is declared, nothing is taken back |
| ProtocolGen.ProtocolGenerator.EmitNamedType | cmd/codex-sdk-gen/protocolgen.go:176-199 | the declaration depends on name and schema alone, and the names it needs have been emitted |
| ProtocolGen.ProtocolGenerator.EmitStructType | cmd/codex-sdk-gen/protocolgen.go:201-251 | one field per property, in key order: its key, whether it may be absent, must be present and is a pointer, and its Go type, all by cases on the schema; each field's reference has been emitted |
| ProtocolGen.ProtocolGenerator.EmitUnionType | cmd/codex-sdk-gen/protocolgen.go:309-326 | one entry per variant, and each variant's own type emitted |
| ProtocolGen.ProtocolGenerator.VariantInfo | cmd/codex-sdk-gen/protocolgen.go:372-407 | references are not emitted, string enums and objects are, anything else stays raw |
| ProtocolGen.ProtocolGenerator.GoTypeExpr | cmd/codex-sdk-gen/protocolgen.go:409-455 | the expression depends on the schema alone, and a reference with a schema has been emitted |
| ProtocolGen.GenerateProtocol | cmd/codex-sdk-gen/protocolgen.go:90-118 | for every bundle, cyclic or not, the run is a function of the bundle, whatever order its maps are walked in: order has no duplicates, equals the keys of decls, and has every non-empty bundle name with a schema; every declaration is that of the schema which asked for its name first, and is an enum, union, struct or alias as that schema says, field by field and variant by variant |
| GeneratorTheorems.ServedIff | cmd/codex-sdk-gen/protocolgen.go:162-174 | every schema that the bundle or one of its unions puts under a name has its declaration there, if and only if no two of them under one name have different declarations |
| GeneratorTheorems.BundleNameIff | cmd/codex-sdk-gen/protocolgen.go:162-174 | a bundle name has its own schema's declaration exactly unless a union's variant with another one came first; so in any order if no variant of that name in the bundle's unions has another one |
| GeneratorTheorems.TitleTakesName | cmd/codex-sdk-gen/protocolgen.go:372-407 | running it on a union Alpha with a variant titled Zed and a schema Zed, whatever they are, declares Zed as the variant |
| GeneratorTheorems.NameTakesTitle | cmd/codex-sdk-gen/protocolgen.go:372-407 | running it the other way round declares the variant as the bundle's schema |
| GeneratorTheorems.SnakeAndCamelClash | cmd/codex-sdk-gen/protocolgen.go:1081-1108 | running it on a bundle with foo_bar and FooBar declares the Go type FooBar twice |
| GeneratorTheorems.OutputIsRightIff | cmd/codex-sdk-gen/protocolgen.go:90-118 | everyone has the declaration of his schema and no Go type is declared twice, if and only if the bundle's names and titles have no clash and differ as Go names |
| ProtocolGen.MentionsAreDeclared | cmd/codex-sdk-gen/protocolgen.go:409-455 | after a run every type name a declaration mentions is the name of a declaration, unless it is a reference without a schema |
| StringOrder.SortedIsUnique | config.go:50-56 | there is one sorted order of given strings, so the result does not depend on map iteration |
| StringOrder.BeforeMeans | config.go:50-56 | the order of strings: a beginning comes first, otherwise the first difference decides |
| RuntimeVersions.NormalizeRuntimeVersion | internal/runtimebin/versions.go:15-42 | the loop over the replacements computes the specification, unsupported versions included |
| RuntimeVersionTheorems.ParsePrint | internal/runtimebin/versions.go:9-13 | the parser of normalised versions undoes the printer |
| RuntimeVersionTheorems.NormalizeIsIdempotent | internal/runtimebin/versions.go:15-42 | normalising a normalised version changes nothing |
| RuntimeVersionTheorems.TagRoundTrip | internal/runtimebin/versions.go:44-64 | for every accepted version, normalising its release tag gives its normalised form |
| RuntimeVersionTheorems.TagsAreDistinct | internal/runtimebin/versions.go:44-64 | release tags are equal exactly when the normalised forms are, and rejected versions have none |
| RuntimeVersionMeaning.PrefixIsStripped | internal/runtimebin/versions.go:15-22 | white space around a version is dropped, and then one v or rust-v in front of it |
| RuntimeVersionMeaning.NormalizesIff | internal/runtimebin/versions.go:15-42 | for every text and version: the text normalises to the version if and only if it is its normal form, its release form with or without the dot behind the word, or the unintended -bet-alpha form |
| RuntimeVersionMeaning.RefusedIff | internal/runtimebin/versions.go:38-40 | every text that is none of these for any version is refused, and no other |
| RuntimeVersionMeaning.BetAlphaExample | internal/runtimebin/versions.go:24-36 | 1.0-bet-alpha1 is accepted, as 1.0b1 |
| RuntimeVersionMeaning.TagMeans | internal/runtimebin/versions.go:44-64 | the release tag of every spelling, written out |
| ConfigFlatten.CollectKeys | config.go:50-56 | whatever order the map is walked in, the keys come out in the one sorted order |
| ConfigFlatten.FlattenConfigValue | config.go:40-78 | the recursion computes the specification; the first error in key order wins |
| ConfigFlatten.FlattenConfigOverrides | config.go:18-38 | an empty configuration gives no overrides, any other is flattened key by key |
| ConfigTheorems.FlattensIffEncodable | config.go:40-78 | flattening succeeds exactly when every leaf has a literal |
| ConfigErrors.FirstErrorIsReported | config.go:40-78 | a configuration with a value that has no literal gives the error of the first such value in path order, with its dotted path and its reason |
| ConfigTheorems.RoundTripIff | config.go:18-78 | for every configuration whose values have literals: inserting every override at its dotted path rebuilds the tree without its empty tables if and only if the keys that lead to leaves have no dot or equals sign and no empty top key holds a table with a leaf |
| ConfigTheorems.EmptyKeyMovesUp | config.go:59-63 | the settings in a table under an empty top key come out one level further up |
| ConfigTheorems.OverridesAreOrdered | config.go:18-78 | the overrides of a configuration that survives are ordered by path components, and no path equals or extends another |
| Retries.RetryOnOverload | retry.go:36-84 | unusable options are refused with the first of three errors; otherwise at most maxAttempts calls, ending with the operation's own result, a cancellation before an attempt or an interrupted wait, whichever comes first, never with the fall-through error; the waits are those of the formula |
| Retries.BackoffLaw | retry.go:60-82 | before jitter the k-th wait is min(maxDelay, initialDelay * 2^(k-1)) |
| Retries.BackoffLawIff | retry.go:60-82 | it is for every k exactly when the delays are below 2^62 ns, or the initial delay is zero |
| Retries.JitterIsBounded | retry.go:73-76 | with jitter it stays within the uncapped delay times the ratio of that, up to the truncated fraction |
| Retries.JitterIsExact | retry.go:73-76 | with jitter it is the capped delay plus the swing, truncated; for the middle random number it is the capped delay |

## Left out

- JSON encoding and decoding: a notification is its ids, method, size and payload; a schema is its decoded members.
- The process, its pipes, signals, timers, stdin writes and the workers for server requests.
- `readLoop`'s sorting of a decoded line into request, notification and response: one branch each.
- Timeouts and contexts: cancelling is a step that may be taken at any time, or an input.
- MessageRouterImpl.MessageRouter.RouteNotification: the four route maps of the source are one map keyed by kind and id, and the ids have been extracted from the parameters.
- MessageRouterImpl.MessageRouter.NextRoute: is one undisturbed call; the interleaved one is in `RouterMachine`. `NextGlobal` is in `RouterMachine` only.
- RouterWakeup.NoLostWakeup: assumes that no two consumers wait on this one channel together once it is served, because the claim fails from every state in which they do (`RouterWakeup.SecondConsumerIsStuck`).
- GoalMachine.HandedOutOnceInOrder: assumes no re-announcement after hand-out and no pop that finds another head, because without either turns are duplicated (`GoalMachine.ExactlyOnceIff`).
- GoalOperationImpl.GoalOperation.AwaitContinuation: waiting for the signal channel is a return of "not yet", and is modelled in `GoalMachine`; `awaitStart` and its timeout are left out.
- GoalStreams.GoalStream.Next: what `awaitContinuation` returns is an input, so that a stream is followed through given turns; registering the next turn's route cannot fail.
- GoalPipeline.StreamTellsAcceptedTurns: how a notification decodes is a parameter, and the stream's hand-overs are assumed to be the operation's; each turn's own route is not followed back to the router.
- `collectGoalResult` is the loop of `collectTurnResult` without the turn id in its error.
- ThreadExclusion.TurnStartExcludesGoals: requests succeed or fail by choice; `<-state.done` and the goroutine of `routeLoop` are not steps.
- A compaction notification for an unregistered thread is buffered and replayed to the next registration, like any other kind; nothing is claimed about which compaction it proves.
- Redaction.RunPass: text is ASCII, so that lower-casing keeps positions; `redactKeyValue` and `redactJSONValue` are one method with a flag.
- StderrRings.StderrRing.Drain: is given the lines the scanner delivers; the scanner's own line limit is left out.
- ProtocolGen.ProtocolGenerator.EmitStructType: the fields only, without the marshalling methods.
- ProtocolGen.ProtocolGenerator.EmitUnionType: the variants only, without discriminators and checks.
- ProtocolGen.ProtocolGenerator.VariantInfo: the variant's type and its emission, without its check and discriminator.
- ProtocolGen.GenerateProtocol: emits structures instead of Go text, without checks, discriminators, enum constants and marshalling methods; properties come in key order; error returns of the emitters are left out since none of them originates an error.
- RuntimeVersions.NormalizeRuntimeVersion: the regular expressions are written out as functions on ASCII text.
- ConfigFlatten.FlattenConfigValue: literals are opaque strings and every rejected value is one case with its reason; reflection and number formatting are left out.
- Retries.RetryOnOverload: nil arguments are left out; jitter is computed over reals, and its conversion to a duration does not overflow.
- Accounts, models, thread records, payload builders, runtime download, signatures, archives and packaging.
