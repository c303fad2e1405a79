# Uchi Pulse: a verified model

Uchi Pulse is a home notification system. Nodes on a microcontroller turn button presses into gestures, send each
triggered action to a hub over UDP, and the hub stores it, applies it and acknowledges it. This project models the
parts of that system that carry state from one call to the next, and proves what they keep over every run.

The code that changes fields in place is modelled by classes whose methods change the same fields; each method is
proved against a function on values, and the theorems are about those functions, over all inputs, runs and failures.

| File | Content |
|---|---|
| `Wrappers.dfy`, `Messages.dfy`, `Ordering.dfy` | result types, the message vocabulary, stable sorting and filtering |
| `Gesture.dfy`, `GestureHistory.dfy` | the gesture detector; the offline reading of a whole sampling history and the theorem that both agree; the press ledger |
| `InputController.dfy`, `InputTheorems.dfy` | the controller of all GPIOs as a product of independent detectors |
| `NodeUdp.dfy` | event identifiers, the retry policy, event creation and ACK matching |
| `Delivery.dfy`, `DeliveryProofs.dfy`, `DeliveryTheorems.dfy`, `DeliveryFates.dfy`, `DeliverySenders.dfy` | delivery from node to hub as a transition system: the steps, their invariants, what holds of every run, exactly when an action is lost or an event id clashes, and the life of an event at its sender |
| `HubTables.dfy`, `HubConfig.dfy`, `HubTransaction.dfy`, `HubConfigTheorems.dfy` | the hub's tables and constraints, its configuration, the saving transaction, and the round trip |
| `HubLiveness.dfy`, `HubActions.dfy`, `HubUdp.dfy`, `HubTheorems.dfy` | device liveness, the action engine, datagram processing, and the state as a replay of the event log |
| `HubSystem.dfy` | nodes, network and the processing hub in one run, from the confirmed event to the business state |
| `LineFraming.dfy` | the split of a byte stream at line feeds, and the three decoders that refine it |
| `NodeConfig.dfy`, `NodeStorage.dfy`, `ConfigStore.dfy`, `NodeCdc.dfy` | validation, the flash record, the configuration manager over it, and its serial commands |

## How to read the theorems

**Gestures.** `GestureHistory.Transcript` defines, from a list of readings alone, the debounced level, the presses
(physical start, commit, last sample seen held, release) and the events: long when a sample saw the press held to the
threshold, double when it began within the interval after an unconsumed short release, a click otherwise.
`OnlineEqualsOffline` says that the detector reports exactly this, event for event, for every history with a
non-decreasing clock. `InterleavedRunEqualsOffline` lifts it to one GPIO of a controller over any interleaving.
`PressLedger` needs no fixed timings.

**Delivery.** The network is a multiset of datagrams that may be lost, duplicated, delayed and reordered, but not
forged. Any number of hub callers interleave between lookup, validation, insert and execution; a hub restart keeps only
the event table; nodes reboot, and a boot identifier may or may not be fresh. `ProcessRefinesDelivery` ties the
transition system to `process_datagram`: each call is a run of one caller's steps. `ConfirmedReachesTheState` lifts this
to runs that mix nodes, network, hub and restarts of the hub, down to the values a confirmed event's action wrote.
`EventsFollowPresses` starts a step earlier, at the press, and `InterleavedRunEqualsOffline` at the button. `EventFate`
says how every event ends at its sender, and `UndisturbedExchangeConfirms` that one exchange without losses is enough,
whatever came before.

**The hub's store.** Tables are sequences in insertion order under the declared keys, references and checks. Each
statement may also fail for a reason outside the schema: `Connection.faults` says which. A transaction is a snapshot
put back on failure.

**The node's flash.** An erase or a program operation may fail and leave any bytes, and a program operation that reports
success may still have left any bytes. The JSON text is a codec with `decode(encode(x)) == x`; decoding any other bytes
may give anything that fits the bounded vectors.

## What does not hold

- An acknowledged event has been executed only if the hub has a single caller: with two, the ACK of a duplicate can
  overtake the execution. `ConfirmedMeansExecutedIff` gives both directions.
- A restart loses exactly the rows that some caller had stored and not executed when it struck, while their senders may
  be told that they arrived: `StoredRowFate` and `ConfirmedUnexecutedIff` for every run, `RestartCanLoseAnAction` for one.
- A new event id clashes with an earlier one exactly when some event under the same boot id already had a sequence at
  least as large (`ClashIffOvertaken`, `IdsDistinctIff`); fresh boot ids rule it out, and drawing one again under which
  nothing was created does no harm. `ReusedBootIdSuppresses` is a run in which a clash has a fresh event answered as a
  duplicate.
- After acceptance an action fails if its changes repeat a state type. The primary key rules that out
  (`AppliedIff`, `AcceptedActionsApply`); without the key it happens (`RepeatingTableFails`).
- The in-memory state leaves the replay of the event log at exactly one point: a database failure inside the execution
  of a fresh event whose action would have changed something (`ReplayKeptIff`; one such hub and datagram in
  `LostExecutionLeavesTheReplay`).
- The node's line parser answers Ok although a line is lost only when the feed begins inside an overlong line that was
  reported before (`OkMeansNothingLost`, `DroppedLineIsLost`).
- `validate_config` lets repeated notification targets pass; the primary key then refuses them, so without database
  failures a save succeeds exactly for accepted configurations without such repeats (`SaveConfig`).
- The check after a flash write compares the header only. A set is reported exactly when that header reads back
  (`ReportedIff`), and the next boot finds it exactly when the body the device left still decodes to it, or to nothing
  valid while the defaults equal it (`ReportedSetSurvivesIff`). Garbled cells make the node boot into its defaults, or
  into another valid configuration that nobody set (`GarbledBodyPassesTheCheck`). A write whose final read fails is
  reported as failed and takes effect at the next boot (`FaithfulSet`).
- A second press held to the long press swallows the click that was pending from the first (`PressLedger` counts these).
- The 256th attempt carries the label 0, as the u16 count is cast to u8; the number of attempts is right all the same
  (`ExactlyRetryCountPlusOne`).
- The design documents describe a third target, ALL_FAMILIES; the code has FAMILY and COMMON only, and so has the model.

## Model

| member | source | states |
|---|---|---|
| `Gesture.StepEmitsAtMostThree` | apps/uchi-pulse-node/src/input.rs:80-146 | no sample reports more than a click, an edge with its gesture, and a long press, whatever the state and the clock |
| `Gesture.EventVec.Push` | apps/uchi-pulse-node/src/input.rs:299-301 | a push appends, or drops the event when sixteen are there |
| `Gesture.GestureDetector.constructor` | apps/uchi-pulse-node/src/input.rs:58-68 | a new detector is released, with no press and no pending click |
| `Gesture.GestureDetector.Initialize` | apps/uchi-pulse-node/src/input.rs:70-78 | the initial reading becomes the stable level, and a press held from the start counts from then |
| `Gesture.GestureDetector.ExpirePending` | apps/uchi-pulse-node/src/input.rs:89-102 | the pending click is reported once its interval is over, unless a second press begun in time is being debounced |
| `Gesture.GestureDetector.Debounce` | apps/uchi-pulse-node/src/input.rs:104-136 | the seven fields and the pushed events after the edge logic are those of the specified transition |
| `Gesture.GestureDetector.ReportLongPress` | apps/uchi-pulse-node/src/input.rs:138-145 | a held press is reported long once, at the threshold |
| `Gesture.GestureDetector.Update` | apps/uchi-pulse-node/src/input.rs:80-146 | all seven fields and the reported events of a sample are those of the transition the history theorems are about |
| `GestureHistory.SettledByRunStart` | apps/uchi-pulse-node/src/input.rs:104-109 | the level settles exactly when the run of equal readings is at least the debounce time old and not new |
| `GestureHistory.PressAdded` | apps/uchi-pulse-node/src/input.rs:111-120 | what a new press adds to the transcript: the click it missed, its edge, and a long press at once if due |
| `GestureHistory.PressHeld` | apps/uchi-pulse-node/src/input.rs:138-145 | a sample that still sees the press held adds a long press once and nothing else |
| `GestureHistory.PressReleased` | apps/uchi-pulse-node/src/input.rs:121-135 | a release adds its edge, and a double click exactly for a second, short press |
| `GestureHistory.RiseStep` | apps/uchi-pulse-node/src/input.rs:104-120 | a committed press keeps fields and reports in agreement with the history |
| `GestureHistory.HeldStep` | apps/uchi-pulse-node/src/input.rs:138-145 | a held sample keeps fields and reports in agreement with the history |
| `GestureHistory.FallStep` | apps/uchi-pulse-node/src/input.rs:121-135 | a committed release keeps fields and reports in agreement with the history |
| `GestureHistory.IdleStep` | apps/uchi-pulse-node/src/input.rs:89-109 | a released sample keeps fields and reports in agreement, the expiring click included |
| `GestureHistory.DetectorReadsHistory` | apps/uchi-pulse-node/src/input.rs:80-146 | after every run with a non-decreasing clock each field is a closed-form reading of the sampling history |
| `GestureHistory.OnlineEqualsOffline` | apps/uchi-pulse-node/src/input.rs:80-146 | the events reported online are exactly the offline transcript of the whole history |
| `GestureHistory.NoDeadlineUnnoticed` | apps/uchi-pulse-node/src/input.rs:89-102 | never a pending click and a held press at once, and no click or long-press deadline passes unreported at a sample |
| `GestureHistory.EdgesAreDebounced` | apps/uchi-pulse-node/src/input.rs:104-136 | an edge is reported exactly when the debounced level moves, and then a quiet window of the debounce time precedes it |
| `GestureHistory.EdgesAlternate` | apps/uchi-pulse-node/src/input.rs:104-136 | reported edges strictly alternate from the initial level and end at the stable level |
| `GestureHistory.AtMostTwoEvents` | apps/uchi-pulse-node/src/input.rs:80-146 | with fixed timings and a non-decreasing clock a sample reports at most two events |
| `GestureHistory.StepBalances` | apps/uchi-pulse-node/src/input.rs:89-145 | one sample keeps the balance of releases against reported, owed and swallowed gestures |
| `GestureHistory.PressLedger` | apps/uchi-pulse-node/src/input.rs:89-145 | over every run, even with changing timings: releases = clicks + 2 double clicks + long presses + swallowed + owed |
| `Controller.TooManyEventsUnreachable` | apps/uchi-pulse-node/src/input.rs:245-292 | no sample of a valid controller is refused as too many events, whatever clock and timings |
| `Controller.AtMostOneAction` | apps/uchi-pulse-node/src/input.rs:277-285 | distinct mappings give an event of a GPIO at most one action |
| `Controller.ActionsOfEnabled` | apps/uchi-pulse-node/src/input.rs:277-285 | an event of a GPIO triggers exactly the actions of its enabled mappings; a disabled mapping triggers nothing |
| `Controller.AllActionsOfEnabled` | apps/uchi-pulse-node/src/input.rs:275-286 | the events of a sample trigger exactly the enabled mappings of the GPIO and one of these events |
| `Controller.ExactlyTheMappedAction` | apps/uchi-pulse-node/src/input.rs:277-285 | with distinct mappings an event triggers the one action mapped to it if that mapping is enabled, and nothing otherwise |
| `Controller.CallOnOneChannel` | apps/uchi-pulse-node/src/input.rs:223-292 | a call acts on a GPIO as on a controller of that GPIO alone, or not at all |
| `Controller.ProductOfDetectors` | apps/uchi-pulse-node/src/input.rs:223-292 | over any interleaved run a GPIO has the state and the results of one detector fed only its own calls |
| `Controller.InputController.New` | apps/uchi-pulse-node/src/input.rs:165-204 | succeeds exactly for at most 32 distinct GPIOs with known, distinct mappings; each error names a real defect |
| `Controller.InputController.CheckMappings` | apps/uchi-pulse-node/src/input.rs:181-196 | accepts exactly the tables that name configured GPIOs and no GPIO and event twice |
| `Controller.InputController.HasGpio` | apps/uchi-pulse-node/src/input.rs:215-217 | says whether the GPIO is configured |
| `Controller.InputController.SetGestureTiming` | apps/uchi-pulse-node/src/input.rs:206-213 | changes the two timings and no detector |
| `Controller.InputController.Initialize` | apps/uchi-pulse-node/src/input.rs:223-243 | initialises exactly the named detector, pressed exactly when the raw level is the GPIO's active level, or reports the unknown GPIO |
| `Controller.InputController.Update` | apps/uchi-pulse-node/src/input.rs:245-292 | steps exactly the named detector, with a press exactly where the raw level is the GPIO's active level, and reports its events with the enabled actions, in order |
| `Controller.InputController.Resolve` | apps/uchi-pulse-node/src/input.rs:271-291 | events and actions in detection and table order, refused exactly when a vector overflows |
| `Controller.InputController.Append` | apps/uchi-pulse-node/src/input.rs:277-285 | the enabled actions of one event are appended in table order unless the vector overflows |
| `InputTheorems.SamplesReadLevels` | apps/uchi-pulse-node/src/input.rs:256-260 | on raw levels: what the detector is fed is pressed exactly where the pin reads its active level, active-low pins included |
| `InputTheorems.SoloRun` | apps/uchi-pulse-node/src/input.rs:223-292 | a single-GPIO controller reports what its detector reports over the sampled history, and triggers the mapped actions |
| `InputTheorems.InterleavedRunEqualsOffline` | apps/uchi-pulse-node/src/bin/uchi-pulse-node.rs:187-207 | whatever the interleaving, the events of one GPIO are the offline transcript of its own readings, and its actions are the enabled mappings of that transcript |
| `InputTheorems.SoloLedger` | apps/uchi-pulse-node/src/input.rs:206-292 | a single-GPIO controller with changing timings runs as its detector does over the samples with the timings in force |
| `InputTheorems.ControllerPressLedger` | apps/uchi-pulse-node/src/input.rs:206-292 | the exact press ledger of one GPIO over any interleaved run of the controller, timing changes included |
| `EventIds.EventIdRoundTrip` | apps/uchi-pulse-node/src/udp.rs:87-93 | identifiers have 33 characters and both numbers can be read back |
| `EventIds.EventIdShape` | apps/uchi-pulse-node/src/udp.rs:87-93 | an identifier is two texts of sixteen lower-case hexadecimal digits joined by a dash |
| `EventIds.EventIdInjective` | apps/uchi-pulse-node/src/udp.rs:87-93 | equal identifiers mean equal boot and sequence |
| `EventIds.EventIdOrder` | apps/uchi-pulse-node/src/udp.rs:87-93 | within a boot, identifiers order as text exactly as sequences order as numbers |
| `EventIds.BootOrder` | apps/uchi-pulse-node/src/udp.rs:87-93 | the first halves of two identifiers order as text exactly as their boot ids order as numbers |
| `EventIds.EventIdGenerator.NextEventId` | apps/uchi-pulse-node/src/udp.rs:82-96 | hands out the next identifier, or fails without changing the counter when adding one would overflow |
| `EventIds.SequencesOnceEach` | apps/uchi-pulse-node/src/udp.rs:82-96 | a generator hands out 1 to 2^64-2 once each and then fails for ever with its counter at rest |
| `NodeUdp.RetryPolicy.NextAttempt` | apps/uchi-pulse-node/src/udp.rs:53-59 | counts an attempt while at most the retry count were started, labelled by the count cast to u8 |
| `NodeUdp.ExactlyRetryCountPlusOne` | apps/uchi-pulse-node/src/udp.rs:53-59 | exactly one attempt more than the retry count for every u8; only the 256th label is 0 |
| `NodeUdp.NodeUdpProtocol.New` | apps/uchi-pulse-node/src/udp.rs:130-135 | fails exactly for a device id over its capacity |
| `NodeUdp.NodeUdpProtocol.EventFromAction` | apps/uchi-pulse-node/src/udp.rs:149-160 | an EVENT of this device with a new identifier and the triggered action, or an error when identifiers are used up |
| `DeliveryProofs.SendersStaySound` | apps/uchi-pulse-node/src/bin/uchi-pulse-node.rs:225-264 | every step keeps each sender on the latest event of its node and within its attempts |
| `DeliveryProofs.OriginsKept` | apps/uchi-pulse-hub/src/udp.rs:172-299 | every step keeps EVENTs, rows and ACKs traceable to created events and stored rows |
| `DeliveryProofs.OnceKept` | apps/uchi-pulse-hub/src/udp.rs:254-290 | every step keeps keys stored once and executed at most once, by the caller whose insert succeeded |
| `DeliveryProofs.IdsKept` | apps/uchi-pulse-node/src/udp.rs:82-96 | every step keeps identifiers distinct as long as no boot id is reused |
| `DeliveryProofs.AbsenceKept` | apps/uchi-pulse-hub/src/udp.rs:197-269 | with one caller, what the lookup did not find is still absent at the insert |
| `DeliveryProofs.SerialKept` | apps/uchi-pulse-hub/src/udp.rs:254-299 | with one caller and no restart, rows, answers, ACKs and confirmations all follow an execution |
| `DeliveryProofs.OrderKept` | apps/uchi-pulse-node/src/bin/uchi-pulse-node.rs:225-264 | with one caller, a confirmed event stays executed before every later event of its node |
| `DeliveryProofs.StepKeepsInv` | apps/uchi-pulse-hub/src/udp.rs:172-299 | every step of nodes, network and hub keeps the whole invariant |
| `DeliveryProofs.Reachable` | apps/uchi-pulse-hub/src/udp.rs:172-299 | the invariant holds of every state any run reaches, for any number of callers |
| `DeliveryTheorems.AtMostOneExecution` | apps/uchi-pulse-hub/src/udp.rs:172-299 | over restarts and any interleaving an event is executed at most once, and with distinct ids with its own action |
| `DeliveryTheorems.FreshBootsKeepIdsApart` | apps/uchi-pulse-node/src/udp.rs:82-96 | boot ids that are never reused keep all event ids distinct |
| `DeliveryTheorems.DuplicatesAreTheSameEvent` | apps/uchi-pulse-hub/src/udp.rs:197-216 | with distinct ids whatever is taken for a duplicate is the stored row of the very same event |
| `DeliveryTheorems.AcksAnswerStoredRows` | apps/uchi-pulse-hub/src/udp.rs:265-276 | an ACK on the network, or about to be sent, has its row stored |
| `DeliveryTheorems.StoredRowsNeverChange` | apps/uchi-pulse-hub/src/db/repository.rs:333-348 | the event table only grows and keys stay unique: the first row of a key is final |
| `DeliveryTheorems.SingleCallerInsertSucceeds` | apps/uchi-pulse-hub/src/udp.rs:269-277 | with a single caller the duplicate branch after the insert is unreachable |
| `DeliveryTheorems.SendsBounded` | apps/uchi-pulse-node/src/bin/uchi-pulse-node.rs:242-260 | an event is sent at most retry count plus one times |
| `DeliveryTheorems.SingleCallerConfirms` | apps/uchi-pulse-node/src/bin/uchi-pulse-node.rs:255-259 | with one caller and no restart, every confirmed event has been executed |
| `DeliveryTheorems.ConfirmedEventExecutesFirst` | apps/uchi-pulse-node/src/bin/uchi-pulse-node.rs:225-264 | a confirmed event is stored, was executed exactly once, and before every event its node created later |
| `DeliveryTheorems.ConfirmedMeansExecutedIff` | apps/uchi-pulse-hub/src/udp.rs:197-277 | confirmation implies execution over all restart-free runs exactly when the hub has one caller |
| `DeliveryTheorems.RestartCanLoseAnAction` | apps/uchi-pulse-hub/src/udp.rs:254-290 | a run with one restart in which the third fate of a stored row befalls a confirmed event |
| `DeliveryTheorems.ReusedBootIdSuppresses` | apps/uchi-pulse-hub/src/udp.rs:197-216 | a run in which an overtaken sequence has a fresh event answered as a duplicate |
| `DeliveryFates.StepStrikes` | apps/uchi-pulse-hub/src/udp.rs:254-290 | a step leaves a stored row unserved exactly when it restarts the hub while a caller holds the row |
| `DeliveryFates.StoredRowFate` | apps/uchi-pulse-hub/src/udp.rs:254-290 | a stored row was executed, is still held by a caller, or was struck by a restart while held; exactly one of the three |
| `DeliveryFates.ConfirmedUnexecutedIff` | apps/uchi-pulse-hub/src/udp.rs:254-299 | a confirmed event is unexecuted exactly while its row is held, and for good once a restart struck it |
| `DeliveryFates.RowOrderReached` | apps/uchi-pulse-hub/src/udp.rs:254-263 | for any callers and restarts the rows of confirmed events stand before those of all events their node created later |
| `DeliveryFates.ConfirmedIsStoredFirst` | apps/uchi-pulse-hub/src/udp.rs:254-276 | for any callers and restarts a confirmed event has one row, with its own action, ahead of every later event of its node |
| `DeliveryFates.NoGapsReached` | apps/uchi-pulse-node/src/udp.rs:82-96 | under one device and boot id the sequences handed out have no gaps, over every run |
| `DeliveryFates.ClashIffOvertaken` | apps/uchi-pulse-node/src/udp.rs:82-96 | the next event id of a node is already taken exactly when some event under its boot id has a sequence at least as large |
| `DeliveryFates.IdsDistinctIff` | apps/uchi-pulse-node/src/udp.rs:82-96 | the event ids of a run are distinct exactly when no event was created for an overtaken sequence |
| `DeliveryFates.EventsFollowPresses` | apps/uchi-pulse-node/src/bin/uchi-pulse-node.rs:204-233 | since its last boot a device's events carry its presses in order and without gaps; the rest waits in the channel, and nothing is dropped before the ids are used up |
| `DeliverySenders.NoSenderHoldsConfirmed` | apps/uchi-pulse-node/src/bin/uchi-pulse-node.rs:255-259 | in every reachable state no node is busy with a confirmed event |
| `DeliverySenders.MatchingAckEndsTheWait` | apps/uchi-pulse-node/src/bin/uchi-pulse-node.rs:352-355 | the matching ACK confirms the event and leaves the sender idle |
| `DeliverySenders.OtherDatagramKeepsWaiting` | apps/uchi-pulse-node/src/bin/uchi-pulse-node.rs:355-363 | any other datagram is consumed and leaves the node waiting on the same attempt |
| `DeliverySenders.ConfirmedIsNeverSentAgain` | apps/uchi-pulse-node/src/bin/uchi-pulse-node.rs:244-260 | however a run goes on, the send count of a confirmed event never changes again |
| `DeliverySenders.EventFate` | apps/uchi-pulse-node/src/bin/uchi-pulse-node.rs:225-264 | every event is confirmed, still being sent, or was given up or lost to a reboot by its node; exactly one of the three |
| `DeliverySenders.AttemptsCounted` | apps/uchi-pulse-node/src/bin/uchi-pulse-node.rs:243-252 | over every run the sender's counter is the number of attempts started, the send count that of transmissions, and both stay within the retries |
| `DeliverySenders.GivenUpOnlyAtTheEnd` | apps/uchi-pulse-node/src/bin/uchi-pulse-node.rs:244-248 | an event is given up only after all its attempts were started, or while the node knows no hub |
| `DeliverySenders.KnownIffDiscovered` | apps/uchi-pulse-node/src/bin/uchi-pulse-node.rs:280-285 | a node knows a hub exactly when it discovered one since its last boot |
| `DeliverySenders.NodesRunAsBooted` | apps/uchi-pulse-node/src/bin/uchi-pulse-node.rs:213-243 | a node exists exactly once it booted, with the boot id and retry count of its last boot |
| `DeliverySenders.NodesAreNeverStuck` | apps/uchi-pulse-node/src/bin/uchi-pulse-node.rs:225-264 | in every reachable state a node with work can act: an idle one takes its next action, a ready one sends or gives up, a waiting one hears or times out |
| `HubTables.PerformKeepsSchema` | apps/uchi-pulse-hub/src/db/migrations.rs:15-65 | every statement the constraints allow keeps all keys, references and checks |
| `HubTables.RankOrdersNames` | apps/uchi-pulse-hub/src/db/repository.rs:374-382 | the numeric order of state types is the text order of their stored names |
| `HubConfig.UniqueIds` | apps/uchi-pulse-hub/src/cdc.rs:483-494 | succeeds exactly for distinct identifiers and returns their set, or names the first that repeats |
| `HubConfig.ValidateAction` | apps/uchi-pulse-hub/src/cdc.rs:433-465 | accepts exactly the actions with a fitting known target, distinct state types and known notification targets; a refusal names a real defect |
| `HubConfig.ValidateDestinations` | apps/uchi-pulse-hub/src/cdc.rs:467-479 | accepts exactly known, non-blank destinations; a refusal names a real defect |
| `HubConfig.ValidateConfig` | apps/uchi-pulse-hub/src/cdc.rs:419-481 | accepts exactly the configurations with distinct ids, valid actions and valid destinations; a refusal names a real defect |
| `HubTransaction.Connection.Execute` | apps/uchi-pulse-hub/src/cdc.rs:338-346 | a statement takes effect wholly or not at all, and fails for a broken constraint |
| `HubTransaction.Connection.InsertEvent` | apps/uchi-pulse-hub/src/db/repository.rs:333-348 | a row is added, ignored because its key is there, or refused; the table changes only in the first case |
| `HubTransaction.Connection.DeleteAll` | apps/uchi-pulse-hub/src/cdc.rs:330-337 | the six deletes, in this order, break no reference and empty the tables |
| `HubTransaction.Connection.InsertChanges` | apps/uchi-pulse-hub/src/cdc.rs:362-372 | accepted state changes are inserted in order without breaking a key |
| `HubTransaction.Connection.InsertTargets` | apps/uchi-pulse-hub/src/cdc.rs:385-391 | notification targets are inserted exactly when they are distinct |
| `HubTransaction.Connection.InsertSettings` | apps/uchi-pulse-hub/src/cdc.rs:373-384 | a settings row is written exactly when there is something to say |
| `HubTransaction.Connection.InsertWholeAction` | apps/uchi-pulse-hub/src/cdc.rs:349-391 | an accepted action is inserted with its rows exactly when its notification targets are distinct |
| `HubTransaction.Connection.InsertActions` | apps/uchi-pulse-hub/src/cdc.rs:348-392 | the loop inserts every action with its rows, or stops at a repeated notification target |
| `HubTransaction.Connection.InsertDestinations` | apps/uchi-pulse-hub/src/cdc.rs:393-405 | destinations are inserted in order under increasing ids |
| `HubTransaction.Connection.Rewrite` | apps/uchi-pulse-hub/src/cdc.rs:329-407 | the statements in order: at the end the whole configuration, and the schema is kept whether they all succeed or stop at the first that fails |
| `HubTransaction.Connection.SaveConfig` | apps/uchi-pulse-hub/src/cdc.rs:323-417 | all or nothing; the event history is untouched; a refusal names a real defect; without database failures it succeeds exactly for storable configurations |
| `HubTransaction.Connection.ReadAction` | apps/uchi-pulse-hub/src/cdc.rs:288-321 | an action with its rows, or a failure when a query fails |
| `HubTransaction.Connection.LoadConfig` | apps/uchi-pulse-hub/src/cdc.rs:249-286 | families, actions and destinations in the order of the queries, or a failure when a query fails |
| `HubConfigTheorems.RowsOfOne` | apps/uchi-pulse-hub/src/cdc.rs:348-392 | every table gives an action exactly the rows it contributed, in their order |
| `HubConfigTheorems.ActionLoads` | apps/uchi-pulse-hub/src/cdc.rs:288-321 | an action is read back from among all rows as its own normal form |
| `HubConfigTheorems.DestinationsLoad` | apps/uchi-pulse-hub/src/cdc.rs:267-279 | the destinations of a family are read back in their given order |
| `HubConfigTheorems.SaveThenLoad` | apps/uchi-pulse-hub/src/cdc.rs:249-417 | what was saved is loaded back as exactly its normal form |
| `HubConfigTheorems.SetThenGet` | apps/uchi-pulse-hub/src/cdc.rs:249-417 | reading after a save gives the normal form of what was accepted, or what was there before a refusal |
| `HubConfigTheorems.NormalTwice` | apps/uchi-pulse-hub/src/cdc.rs:249-321 | normalising twice is normalising once |
| `HubConfigTheorems.NormalStorable` | apps/uchi-pulse-hub/src/cdc.rs:419-481 | the normal form of a storable configuration is storable |
| `HubConfigTheorems.NormalFormIsFixed` | apps/uchi-pulse-hub/src/cdc.rs:249-417 | saving a normal form loads it back unchanged |
| `HubConfigTheorems.NormalIsSortedPermutation` | apps/uchi-pulse-hub/src/cdc.rs:249-286 | the normal form is strictly sorted by id, loses and adds nothing, and keeps the order of each family's destinations |
| `HubConfigTheorems.NormalActionIsSortedPermutation` | apps/uchi-pulse-hub/src/cdc.rs:288-321 | the normal form of an action keeps every field and loses and adds nothing; its changes stand in the order of the stored names, its targets by id |
| `HubConfigTheorems.NormalDestinations` | apps/uchi-pulse-hub/src/cdc.rs:267-279 | the destinations of the normal form stand by family, and none is lost or added |
| `HubLiveness.CommunicationStateManager.constructor` | apps/uchi-pulse-hub/src/state.rs:39-62 | exactly the devices it is given wait for their first message from the start time |
| `HubLiveness.CommunicationStateManager.ObserveMessage` | apps/uchi-pulse-hub/src/state.rs:95-120 | only a known device is marked seen, and not by an ACK; a blank id is an error; no device is added |
| `HubLiveness.CommunicationStateManager.MarkOffline` | apps/uchi-pulse-hub/src/state.rs:124-132 | exactly the devices silent for the timeout become offline, whatever order the map is visited in |
| `HubLiveness.StatusExplained` | apps/uchi-pulse-hub/src/state.rs:95-132 | on any clock the status is a closed form of the operations: timed out since last heard, else heard, else waiting |
| `HubLiveness.StatusAfterCheck` | apps/uchi-pulse-hub/src/state.rs:124-132 | on a non-decreasing clock, right after a check a device is offline exactly when silent for the timeout |
| `HubLiveness.NeverOffline` | apps/uchi-pulse-hub/src/state.rs:124-132 | a device whose gaps at the checks stay under the timeout is never offline, and the device set never changes |
| `HubActions.ActionStateManager.ApplyBatch` | apps/uchi-pulse-hub/src/action.rs:57-79 | all changes are applied or none; refused exactly when a state type repeats, naming the first that does |
| `HubActions.MergedValueAt` | apps/uchi-pulse-hub/src/action.rs:69-75 | a batch sets a value to the last change of its type in its scope and leaves every other value alone |
| `HubActions.BatchApplied` | apps/uchi-pulse-hub/src/action.rs:57-79 | a batch without repeats sets every value it names and no other |
| `HubActions.SchemaRulesOutRepeats` | apps/uchi-pulse-hub/src/db/migrations.rs:35-41 | under the primary key the changes of an action never repeat a state type |
| `HubActions.SchemaRulesOutBadTargets` | apps/uchi-pulse-hub/src/action.rs:173-190 | under the schema validation fails only for a missing or disabled action, never for its target |
| `HubActions.ActionEngine.Validate` | apps/uchi-pulse-hub/src/action.rs:155-171 | the plan or the error of the checks in their order, or a database failure |
| `HubActions.ActionEngine.Execute` | apps/uchi-pulse-hub/src/action.rs:195-201 | validates again and applies the batch wholly, or reports the error of either and leaves the state alone |
| `HubUdp.HubUdpProcessor.FromDatabase` | apps/uchi-pulse-hub/src/udp.rs:133-149 | starts with exactly the devices enabled in the table, each waiting since the start, and no action state, or fails when they cannot be listed |
| `HubUdp.HubUdpProcessor.ProcessDatagram` | apps/uchi-pulse-hub/src/udp.rs:172-240 | the whole new hub state and the outcome of a datagram are those of the specified processing, failures included |
| `HubUdp.HubUdpProcessor.AcceptEvent` | apps/uchi-pulse-hub/src/udp.rs:191-224 | lookup, validation and observation of an EVENT in this order, each able to end it |
| `HubUdp.HubUdpProcessor.StoreEvent` | apps/uchi-pulse-hub/src/udp.rs:242-299 | insert, then execution for a new row only, then the ACK in either case |
| `HubTheorems.AcksAnswerRows` | apps/uchi-pulse-hub/src/udp.rs:197-276 | whatever is acknowledged has its row stored |
| `HubTheorems.StoredIffFresh` | apps/uchi-pulse-hub/src/udp.rs:172-263 | up to a database failure on the way, a row is stored exactly for a new EVENT of an enabled device with an executable action |
| `HubTheorems.AnsweredIff` | apps/uchi-pulse-hub/src/udp.rs:172-240 | without database failures, exactly which datagrams are accepted as EVENT, HELLO or HEARTBEAT, and which are ignored |
| `HubTheorems.RefusedIff` | apps/uchi-pulse-hub/src/udp.rs:172-325 | without database failures, exactly which datagrams are refused with which error |
| `HubTheorems.FirstHelloIsAccepted` | apps/uchi-pulse-hub/src/state.rs:43-56 | after a start the first HELLO of an enabled device is accepted and puts it online, and nothing else happens |
| `HubTheorems.OtherDevicesAreIgnored` | apps/uchi-pulse-hub/src/udp.rs:301-312 | after a start whatever a device says that is disabled or not in the table is ignored |
| `HubTheorems.DuplicatesAreAnswered` | apps/uchi-pulse-hub/src/udp.rs:197-216 | a copy of a stored event is acknowledged again, even after its action was changed or removed |
| `HubTheorems.AppliedIff` | apps/uchi-pulse-hub/src/action.rs:62-67 | an accepted action is applied exactly when its changes repeat no state type and the database answers |
| `HubTheorems.AcceptedActionsApply` | apps/uchi-pulse-hub/src/udp.rs:279-290 | under the primary key an accepted action fails only for a database failure at its execution |
| `HubTheorems.RepeatingTableFails` | apps/uchi-pulse-hub/src/action.rs:62-67 | in a table without the primary key an event is stored and acknowledged and its action refused for the repeat |
| `HubTheorems.LastWriterWins` | apps/uchi-pulse-hub/src/action.rs:57-79 | the replay holds, per scope and state type, what the last row that touches it wrote |
| `HubTheorems.ReplayKeptIff` | apps/uchi-pulse-hub/src/udp.rs:242-299 | the state stays the replay of the stored rows unless the execution of a fresh event with an effective action is lost to the database |
| `HubTheorems.LostExecutionLeavesTheReplay` | apps/uchi-pulse-hub/src/udp.rs:279-290 | a hub under a sound schema and a datagram whose lost execution leaves state and replay apart |
| `HubTheorems.StateIsReplay` | apps/uchi-pulse-hub/src/udp.rs:172-299 | over every run of datagrams and checks without such a failure the action state is the replay of the rows inserted since start |
| `HubTheorems.LivenessOfRun` | apps/uchi-pulse-hub/src/udp.rs:167-240 | over every run the liveness table is what the accepted receptions and the checks make of it |
| `HubTheorems.OfflineIffSilent` | apps/uchi-pulse-hub/src/state.rs:95-132 | end to end on a non-decreasing clock: after a check a device is offline exactly when no datagram of it was accepted for the timeout |
| `HubTheorems.ProcessRefinesDelivery` | apps/uchi-pulse-hub/src/udp.rs:172-299 | each processed EVENT is a run of one caller's steps in the delivery system, ACK included |
| `HubSystem.JointRunsDeliver` | apps/uchi-pulse-hub/src/udp.rs:172-299 | every run of nodes, network and the processing hub, restarts between datagrams included, is a run of the delivery system with one caller, and stored rows are executed in turn |
| `HubSystem.JointStateIsReplay` | apps/uchi-pulse-hub/src/action.rs:57-79 | along such a run the business state is the replay of the rows stored since the hub last started |
| `HubSystem.ConfirmedReachesTheState` | apps/uchi-pulse-node/src/bin/uchi-pulse-node.rs:255-259 | a confirmed event is an executed row ahead of all its node created later; if stored since the last start, each key its action writes holds what it wrote or what a later row wrote after it |
| `HubSystem.UndisturbedExchangeConfirms` | apps/uchi-pulse-node/src/bin/uchi-pulse-node.rs:242-264 | after any run, one exchange without losses stores the event of a node with an attempt left unless it already is, confirms it, and frees the node |
| `LineSplit.JoinOfSplit` | apps/uchi-pulse-hub/src/cdc.rs:71-93 | the lines and the rest of a stream join back to the stream and hold no line feed |
| `LineSplit.SplitOfJoin` | apps/uchi-pulse-hub/src/cdc.rs:71-93 | lines without line feeds are recovered exactly from their joined stream |
| `LineSplit.NewLinesConcat` | apps/uchi-pulse-hub/src/cdc.rs:71-93 | the lines completed by two chunks are those completed by their concatenation |
| `HubLines.LineDecoder.FeedByte` | apps/uchi-pulse-hub/src/cdc.rs:73-91 | a byte completes a line exactly when it is LF and the line fits; what is delivered is the line up to its trailing CRs, which it does not end in |
| `HubLines.LineDecoder.Feed` | apps/uchi-pulse-hub/src/cdc.rs:71-93 | for every chunking: the new lines of the pure split with at most 65536 content bytes, each without its trailing CRs |
| `HubLines.TrimEndIsContent` | apps/uchi-pulse-hub/src/cdc.rs:76-79 | the delivered bytes followed by some number of CRs are the line, and do not end in CR |
| `HubLines.ContentIsDelivered` | apps/uchi-pulse-hub/src/cdc.rs:76-79 | content that does not end in CR, followed by any number of CRs that still fits, is delivered byte for byte |
| `HubLines.KeptAt` | apps/uchi-pulse-hub/src/cdc.rs:75-87 | every line that fits is delivered with its own content, at the place that the fitting lines before it leave it |
| `HubLines.CutAnywhere` | apps/uchi-pulse-hub/src/cdc.rs:71-93 | two chunks give what their concatenation gives |
| `HubLines.RecoversAfterOverlong` | apps/uchi-pulse-hub/src/cdc.rs:81-87 | anywhere in a stream an overlong line is lost alone; the lines around it are delivered exactly |
| `ControlLines.LineDecoder.Feed` | apps/uchi-pulse-control/src/protocol.rs:39-70 | for every chunking the reports so far are a function of the stream so far alone |
| `ControlLines.ReportSnoc` | apps/uchi-pulse-control/src/protocol.rs:41-67 | what each byte adds to the report: a line, one error at the 65536th content byte's successor, or nothing |
| `ControlLines.OneFramePerLine` | apps/uchi-pulse-control/src/protocol.rs:49-67 | each line gives one frame, with its content up to one CR or, exactly when overlong, the error; an unfinished line gives an error exactly once it is overlong |
| `NodeLines.CdcLineParser.FeedByte` | apps/uchi-pulse-node/src/cdc.rs:48-70 | a byte queues a line exactly when it completes one that fits while fewer than four are queued; else the error says why |
| `NodeLines.CdcLineParser.Feed` | apps/uchi-pulse-node/src/cdc.rs:46-72 | for every chunking: the queue holds the fitting new lines up to four, and the result is the last error |
| `NodeLines.CdcLineParser.PopLine` | apps/uchi-pulse-node/src/cdc.rs:74-76 | the oldest kept line is returned; accepted lines are the popped ones followed by the queue |
| `NodeLines.QueuedSnoc` | apps/uchi-pulse-node/src/cdc.rs:56-68 | a line is missing exactly when content and LF exceed 4096 bytes or four are queued |
| `NodeLines.ErrorsTellTheTruth` | apps/uchi-pulse-node/src/cdc.rs:56-68 | too long is reported only when no ending makes the line fit, a full queue only when a fitting line completes and four are queued |
| `NodeLines.OkMeansNothingLost` | apps/uchi-pulse-node/src/cdc.rs:46-72 | for every stream fed so far: Ok exactly when every completed line was queued and the rest fits, but for an overlong line already being dropped |
| `NodeLines.DroppedLineIsLost` | apps/uchi-pulse-node/src/cdc.rs:49-54 | a feed that begins inside an overlong line never queues all its lines, and its end alone is answered Ok |
| `NodeLines.CutAnywhere` | apps/uchi-pulse-node/src/cdc.rs:46-72 | without pops two chunks leave the queue and the last error that their concatenation does |
| `Ipv4.ParseIpv4` | apps/uchi-pulse-node/src/config.rs:362-373 | parses exactly four parts that are each a u8, and never stores out of range |
| `Ipv4.U8Exactly` | apps/uchi-pulse-node/src/config.rs:362-373 | a part is accepted exactly when it is decimal digits, perhaps after one plus sign, of a value below 256 |
| `Ipv4.RenderRoundTrip` | apps/uchi-pulse-node/src/config.rs:362-373 | every dotted-decimal rendering parses back to its octets and fits 15 bytes |
| `NodeConfig.Validate` | apps/uchi-pulse-node/src/config.rs:202-282 | accepts exactly the configurations whose identity, network, inputs, mappings and timings are valid; an error names a real defect |
| `NodeConfig.ValidateNetwork` | apps/uchi-pulse-node/src/config.rs:209-229 | DHCP, or a static block with a prefix up to 32 and three parsable addresses; an error names a real defect |
| `NodeConfig.ValidateInputs` | apps/uchi-pulse-node/src/config.rs:230-246 | supported, distinct GPIOs with a debounce time; an error names a real defect |
| `NodeConfig.ValidateMappings` | apps/uchi-pulse-node/src/config.rs:259-280 | mappings name configured GPIOs and no GPIO and event twice; an error names a real defect |
| `NodeConfig.StartInputs` | apps/uchi-pulse-node/src/bin/uchi-pulse-node.rs:182-187 | after validation the input controller is always built, with this configuration's inputs, mappings and timings |
| `NodeConfig.NetworkConfig` | apps/uchi-pulse-node/src/bin/uchi-pulse-node.rs:307-323 | after validation every expect of the network start-up has its value |
| `FlashRecord.ReadsExactly` | apps/uchi-pulse-node/src/bin/uchi-pulse-node.rs:80-102 | a region reads as given bytes exactly when magic, length and those bytes are there |
| `FlashRecord.HeaderBytes` | apps/uchi-pulse-node/src/bin/uchi-pulse-node.rs:108-112 | the eight header bytes: the magic and the length little-endian, then two erased bytes |
| `FlashRecord.RecordRoundTrip` | apps/uchi-pulse-node/src/bin/uchi-pulse-node.rs:103-131 | a record of 1 to 4088 bytes reads back exactly into any buffer that can hold it |
| `FlashRecord.FlashConfigStorage.Read` | apps/uchi-pulse-node/src/bin/uchi-pulse-node.rs:80-101 | copies the stored record to the front of the buffer and nothing else, or reads nothing |
| `FlashRecord.FlashConfigStorage.Save` | apps/uchi-pulse-node/src/bin/uchi-pulse-node.rs:103-131 | the region and the result of a write for every way the device may fail |
| `FlashRecord.FlashConfigStorage.Clear` | apps/uchi-pulse-node/src/bin/uchi-pulse-node.rs:133-138 | a successful erase leaves a blank region |
| `ConfigStore.ActiveConfigAlwaysUsable` | apps/uchi-pulse-node/src/storage.rs:46-90 | for any flash contents and any run of sets, resets, failures and reboots the active configuration is valid and the inputs start on it |
| `ConfigStore.OnlySuccessMovesTheConfig` | apps/uchi-pulse-node/src/storage.rs:66-84 | over any run the active configuration moves only at a successful set or a reboot |
| `ConfigStore.FaithfulSet` | apps/uchi-pulse-node/src/storage.rs:66-84 | on a faithful device a set succeeds exactly when savable and checkable, and the next boot finds it even if the check could not be read |
| `ConfigStore.SetSurvives` | apps/uchi-pulse-node/src/storage.rs:46-84 | after any history a faithful set is what every later readable boot finds, until the next write or clear |
| `ConfigStore.ResetTakesEffectAtBoot` | apps/uchi-pulse-node/src/storage.rs:86-90 | a reset keeps the running configuration and boots into the defaults |
| `ConfigStore.ReportedIff` | apps/uchi-pulse-node/src/bin/uchi-pulse-node.rs:103-131 | a set is reported exactly when it is savable, erase, program and read-back answer, and the header read is the one written |
| `ConfigStore.ReportedSetBoots` | apps/uchi-pulse-node/src/bin/uchi-pulse-node.rs:80-131 | after a reported set the next boot reads the body the device left, as many bytes as were written |
| `ConfigStore.ReportedSetSurvivesIff` | apps/uchi-pulse-node/src/bin/uchi-pulse-node.rs:103-131 | a reported set is what the next boot finds exactly when that body decodes to it, or to nothing valid while the defaults equal it; an exact write always qualifies |
| `ConfigStore.GarbledBodyPassesTheCheck` | apps/uchi-pulse-node/src/bin/uchi-pulse-node.rs:123-131 | whatever garbled cells of the right length stand behind the header, the set is reported; the node boots into the valid record they hold, or into its defaults |
| `ConfigStore.ConfigManager.constructor` | apps/uchi-pulse-node/src/storage.rs:46-58 | anything but a readable, valid record of this version means the defaults |
| `ConfigStore.ConfigManager.SetConfig` | apps/uchi-pulse-node/src/storage.rs:66-84 | validation, encoding and storage in this order; the active configuration changes after all three only; a refusal names a real defect |
| `ConfigStore.ConfigManager.FactoryReset` | apps/uchi-pulse-node/src/storage.rs:88-90 | clears the record and keeps the active configuration |
| `NodeCdc.IntoConfig` | apps/uchi-pulse-node/src/cdc.rs:104-129 | accepts exactly the complete parameters that carry a valid configuration and gives that configuration |
| `NodeCdc.NodeCdcHandler.SetConfig` | apps/uchi-pulse-node/src/cdc.rs:281-324 | answers success exactly when the parameters carry a valid configuration and its set is reported by the store, and then that configuration is running and, on a faithful device, boots; each refusal exactly for its reason, changing nothing but what a failed save left in flash |
| `NodeCdc.NodeCdcHandler.FactoryReset` | apps/uchi-pulse-node/src/cdc.rs:325-347 | clears the record and keeps the running configuration |

## Left out

- JSON text: encoding and decoding are parameters with `decode(encode(x)) == x`; buffers too small for an encoded
  datagram, and the error texts, are not modelled.
- SQLite: tables are sequences under the declared constraints, COMMIT succeeds, and row ids do not run out. Statement
  failures outside the schema are the parameter `faults`; device rows are reduced to their enabled flag.
- Concurrency of the serial worker with the UDP loop: a configuration is fixed while events are processed, and readers of
  the configuration see committed tables only.
- HubConfig.ValidateConfig: a refusal names a defect that is there, not its wording nor that it is the first of several.
- NodeConfig.Validate: likewise, an error names a defect that is there, not that it is the first of several; so do
  NodeConfig.ValidateNetwork, NodeConfig.ValidateInputs, NodeConfig.ValidateMappings and the configuration manager.
- Controller.InputController.New: likewise for the controller's own check of its inputs and mappings.
- Controller.InputController.CheckMappings: likewise for the mapping table.
- HubLines.LineDecoder.Feed: delivers the bytes of a line; their lossy reading as UTF-8 is not modelled.
- Sockets, the firmware executor, Wi-Fi, the USB packet layer, the watchdog and threads: only the loops named above are kept,
  as steps. Discovery is the step that makes the hub known; heartbeats matter only to liveness.
- Two nodes configured with the same device id: a device id names one node.
- Text: device ids, event ids and addresses are sequences of characters; the control decoder's UTF-8 check is a
  parameter.
- Integer widths: clocks, timings and ids are unbounded where the code only compares saturating differences; the sequence
  counter, the attempt label and the record length have their widths.
- `MemoryConfigStorage`, a test double, and the conversion from the compiled-in configuration.
- Dispatch of serial commands other than setting, reading and resetting a configuration: flat branches.
- The desktop programs, the web pages and message services, and the ALL_FAMILIES target, which the code does not have.
- Update and delete of single rows in the repository: no modelled operation uses them.
