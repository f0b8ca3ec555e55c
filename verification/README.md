# bleh: discovery and pairing pipelines in Dafny

This project models the core of `bleh`, an Android library that turns Bluetooth
broadcasts into two finite event pipelines.

- **Discovery.** `SearchApi` bridges discovery broadcasts into search events and
  restarts discovery until `stop()` has been requested. `SearchEngine`
  power-cycles the radio first. `SearchRequest` filters the found devices by
  name prefix and signal strength, keeps an ordered device list keyed by
  address, and arms a 30-second timer operation whenever discovery starts.
- **Pairing.** `PairApi` either reports an existing bond or asks the pairing
  system to pair. It then follows bond, connection and loopback broadcasts for
  the target address until the target reports bonded, turning error broadcasts
  into typed failures. `PairEngine` power-cycles the radio first. `PairRequest`
  arms a 20-second operation when pairing starts, resets it on progress, turns
  a "not done" after progress into an error notification, and cancels the
  operation when the flow ends.
- **Timer.** A `TimerOperation` is a record state machine with tick, increment,
  reset and cancel transitions.

Every stage is a pure function. A flow is a finite sequence of items plus how it
ended: `Pending` while still open, `Completed`, `Failed(reason)` or `Cancelled`.
Every call the core makes on its collaborators becomes one entry of an effect
trace. These collaborators are the adapter, the pairing system, the timer and
the engine's notifications.

The broadcast-to-flow bridge (`FlowCaster.listen`) belongs to an external
library. `Bridge.Listen` models it by the contract its callers rely on:
- the start command's events come first, then the subscribed broadcasts;
- the flow completes at the first event the exit condition accepts;
- that event is emitted unless `emitExit` is false.

Each pipeline layer is written twice:
- as a step function folded over its inputs (`Feed`, `Session`);
- as the composition of bridge and operators that the Kotlin code writes (`Pipeline`).

Lemmas prove the two equal.

Timer operations are identified by how many operations were armed before them.
`CountForSeconds(id, s)` arms operation `id`. An `Expire(id)` input is that
operation reaching its deadline.

Modules: `Common`, `Events`, `Bridge`, `Timer`, `Devices`, `SearchApi`,
`SearchEngine`, `SearchRequest`, `PairApi`, `PairEngine`, `PairRequest`,
`Scenarios` (concrete runs on the device sets of the library's unit tests).

The pairing exit condition (`detectPairCompleted`,
app/src/main/java/dev/amaro/bleh/PairApi.kt:80-89) checks only that the event
carries the target's address and that its bond-state extra is bonded; it does
not check the action. So any subscribed broadcast that carries a bonded extra
for the target ends the flow, emitted as that broadcast's own classification,
and an error broadcast that carries one still fails the flow.
`PairApi.IsPairCompleted` is written as the code reads.

## Model

| member | source | states |
|---|---|---|
| Common.ToShort | app/src/main/java/dev/amaro/bleh/SearchRequest.kt:50-51 | `Int.toShort()` keeps the value modulo 2^16 and leaves every value already in the 16-bit range unchanged |
| Events.ResetRadio | app/src/main/java/dev/amaro/bleh/PairEngine.kt:9-13 | the power cycle turns the radio on exactly once and last, turns it off first exactly when it was on, and leaves the radio on |
| Timer.Start | app/src/main/java/dev/amaro/bleh/Timer.kt:12-16 | `countForSeconds(n)` gives an operation of duration n, nothing elapsed, a listener present, not cancelled |
| Timer.Tick | app/src/main/java/dev/amaro/bleh/TimerOperation.kt:11-20 | a tick on a cancelled operation does nothing; otherwise elapsed grows by one with duration kept; the listener fires iff it is present, the task is not cancelled and elapsed reaches the duration; at the threshold the task is cancelled and the listener dropped |
| Timer.IncrementBy | app/src/main/java/dev/amaro/bleh/TimerOperation.kt:22-24 | duration grows by the given seconds; elapsed and armed state are kept |
| Timer.ResetTime | app/src/main/java/dev/amaro/bleh/TimerOperation.kt:26-28 | elapsed returns to 0; duration and armed state are kept |
| Timer.Cancel | app/src/main/java/dev/amaro/bleh/Timer.kt:18-20 | a cancelled operation is no longer armed; duration and elapsed are kept |
| Timer.FiresAtMostOnce | app/src/main/java/dev/amaro/bleh/TimerOperation.kt:14-18 | over any history of steps the listener is called at most once, and not at all once it has been dropped |
| Timer.StartedFiresAtMostOnce | app/src/main/java/dev/amaro/bleh/Timer.kt:12-16 | a freshly started operation fires at most once, whatever steps follow |
| Timer.CancelledNeverFires | app/src/main/java/dev/amaro/bleh/TimerOperation.kt:11-20 | once cancelled, no sequence of steps makes the listener fire, and the operation stays cancelled |
| Timer.CancelThenTicksNeverFires | app/src/main/java/dev/amaro/bleh/Timer.kt:18-20 | cancelling twice is cancelling once, and cancel followed by any number of ticks never fires |
| Timer.TicksUntilFire | app/src/main/java/dev/amaro/bleh/TimerOperation.kt:11-20 | an armed operation fires on exactly its remaining-th tick, and only once, over any run of ticks |
| Timer.FiresOnNthTick | app/src/main/java/dev/amaro/bleh/TimerOperation.kt:11-14 | with no resets or increments, an operation of n ≥ 1 seconds fires on tick n and not before |
| Timer.IncrementPostpones | app/src/main/java/dev/amaro/bleh/TimerOperation.kt:22-24 | after `incrementBy(s)` the firing tick moves to duration + s − elapsed |
| Timer.OneSecondIncrementedByOne | app/src/main/java/dev/amaro/bleh/TimerOperation.kt:22-24 | duration 1 followed by `incrementBy(1)` does not fire on tick 1 and fires on tick 2 |
| Timer.ResetPostpones | app/src/main/java/dev/amaro/bleh/TimerOperation.kt:26-28 | after `resetTime` the operation waits its whole duration again |
| Bridge.FirstExit | app/src/main/java/dev/amaro/bleh/SearchApi.kt:30 | the position found is the first event the exit condition accepts, and no event is accepted when none is found |
| Bridge.Scan | app/src/main/java/dev/amaro/bleh/SearchApi.kt:30-31 | without an accepted event the flow stays open with every event; otherwise it completes with the events before the first accepted one, plus that event only when `emitExit` holds |
| Bridge.Listen | app/src/main/java/dev/amaro/bleh/PairApi.kt:32-45 | a failing start command fails the flow with no events; otherwise start events then broadcasts, cut at the first exit event, which is kept iff `emitExit` |
| Bridge.StartEventsFirst | app/src/main/java/dev/amaro/bleh/PairApi.kt:41-45 | start events that do not exit are emitted first, in order |
| Bridge.StartEventCanExit | app/src/main/java/dev/amaro/bleh/PairApi.kt:60-67 | a synthetic start event accepted by the exit condition completes the flow at once, with nothing after it |
| Bridge.ExitIgnoresLaterEvents | app/src/main/java/dev/amaro/bleh/PairApi.kt:42 | events arriving after the exit event never change the flow |
| Devices.FromEvent | app/src/main/java/dev/amaro/bleh/Device.kt:9-13 | reading a device fails iff the broadcast has no device extra; otherwise details come from that extra, the name defaults to "" and the signal to -99 |
| Devices.FromFoundBroadcast | app/src/main/java/dev/amaro/bleh/Device.kt:7-13 | a device read back from the found broadcast that carries all its extras is the same device |
| Devices.DefaultsApply | app/src/main/java/dev/amaro/bleh/Device.kt:11-12 | a found broadcast with only a device extra yields name "" and signal -99 |
| SearchApi.Stop | app/src/main/java/dev/amaro/bleh/SearchApi.kt:16-19 | `stop()` sets the stop flag and cancels discovery exactly once |
| SearchApi.StartSearch | app/src/main/java/dev/amaro/bleh/SearchApi.kt:40-45 | the start command starts discovery once and synthesises no event |
| SearchApi.Extract | app/src/main/java/dev/amaro/bleh/SearchApi.kt:55-68 | discovery-started gives the started event; found with a device gives that device as `Device(intent)` reads it; found without one throws; a finished cycle restarts discovery; everything else is dropped |
| SearchApi.Step | app/src/main/java/dev/amaro/bleh/SearchApi.kt:30-68 | on an open flow, a `stop()` call sets the flag and cancels discovery; a broadcast leaves the flag alone, completes the flow iff it is a finished cycle while a stop is requested, fails it iff it is otherwise a found broadcast without a device, and passes on at most one event |
| SearchApi.Drain | app/src/main/java/dev/amaro/bleh/SearchApi.kt:16-19 | after the flow has ended, each `stop()` still cancels discovery once and sets the flag, and nothing is emitted |
| SearchApi.FeedCalls | app/src/main/java/dev/amaro/bleh/SearchApi.kt:16-19 | an open session only starts or cancels discovery, and cancels once per `stop()` call |
| SearchApi.Search | app/src/main/java/dev/amaro/bleh/SearchApi.kt:21-38 | `search()` starts discovery first, ends only open, completed or failed on a deviceless found broadcast, and cancels once per `stop()` |
| SearchApi.FeedIsScan | app/src/main/java/dev/amaro/bleh/SearchApi.kt:23-37 | the step-by-step session emits and ends exactly as the bridge's scan of flag-tagged broadcasts followed by `extractEvent` and `filterNotNull` |
| SearchApi.SearchIsPipeline | app/src/main/java/dev/amaro/bleh/SearchApi.kt:21-38 | `search()` equals the composition of bridge and operators, started with a cleared flag |
| SearchApi.FeedAppend | app/src/main/java/dev/amaro/bleh/SearchApi.kt:47-53 | while the flow is open, a session over two input runs is the first run followed by the second |
| SearchApi.KeepsSearchingWithoutStop | app/src/main/java/dev/amaro/bleh/SearchApi.kt:47-64 | without a stop the flow never completes, and every finished cycle restarts discovery once |
| SearchApi.SearchKeepsSearchingWithoutStop | app/src/main/java/dev/amaro/bleh/SearchApi.kt:21-64 | a session without `stop()` stays open and starts discovery once plus once per finished cycle |
| SearchApi.StopBeforeSearchDoesNotEnd | app/src/main/java/dev/amaro/bleh/SearchApi.kt:21-22 | a `stop()` issued before `search()` does not end the new session |
| SearchApi.StopThenFinishCompletes | app/src/main/java/dev/amaro/bleh/SearchApi.kt:47-53 | a stop followed by a finished cycle completes the flow; that cycle is neither emitted nor restarts discovery |
| SearchApi.CompletesOnlyAfterStop | app/src/main/java/dev/amaro/bleh/SearchApi.kt:47-53 | the flow completes only at a finished cycle preceded by a `stop()` or an already set flag |
| SearchApi.SearchCompletesOnlyAfterStop | app/src/main/java/dev/amaro/bleh/SearchApi.kt:21-53 | `search()` completes only at a finished cycle that a `stop()` in the same session preceded |
| SearchEngine.Search | app/src/main/java/dev/amaro/bleh/SearchEngine.kt:7-20 | the radio is turned on once, turned off first iff it was on, and is on when discovery starts; the API's events and ending are returned unchanged |
| SearchEngine.Stop | app/src/main/java/dev/amaro/bleh/SearchEngine.kt:22-24 | `stop()` is exactly one `stop()` on the API |
| SearchRequest.DefaultFilters | app/src/main/java/dev/amaro/bleh/SearchRequest.kt:91-92 | a Builder with no setter called accepts every device |
| SearchRequest.WithPrefix | app/src/main/java/dev/amaro/bleh/SearchRequest.kt:97-100 | `filterByPrefix` sets the prefix and keeps the signal threshold |
| SearchRequest.WithSignal | app/src/main/java/dev/amaro/bleh/SearchRequest.kt:102-105 | `filterBySignal` sets the threshold and keeps the prefix |
| SearchRequest.Normalise | app/src/main/java/dev/amaro/bleh/SearchRequest.kt:50 | a negative signal s reads as 100 + s, a non-negative one as itself |
| SearchRequest.Keep | app/src/main/java/dev/amaro/bleh/SearchRequest.kt:44-46 | a device is kept iff it was offered and both the prefix and the signal filter accept it |
| SearchRequest.FiltersCompose | app/src/main/java/dev/amaro/bleh/SearchRequest.kt:44-60 | filtering with both settings is filtering by signal, then by prefix |
| SearchRequest.IndexOf | app/src/main/java/dev/amaro/bleh/SearchRequest.kt:36 | `indexOfFirst` by address: the first matching index, or -1 when no entry has the address |
| SearchRequest.Collect | app/src/main/java/dev/amaro/bleh/SearchRequest.kt:34-42 | a new address is appended at the end; a known one replaces its entry in place with the length kept; the address set grows by the device's address; unique addresses stay unique; the device is in the list |
| SearchRequest.CollectAllAppend | app/src/main/java/dev/amaro/bleh/SearchRequest.kt:34-42 | collecting two runs of devices is collecting the first, then the second |
| SearchRequest.CollectAllKeyed | app/src/main/java/dev/amaro/bleh/SearchRequest.kt:34-42 | collecting keeps addresses unique, the address set is the old one plus the collected ones, and the last collected device is in the list |
| SearchRequest.Create | app/src/main/java/dev/amaro/bleh/SearchRequest.kt:93-95 | a new request has the Builder's filters, an empty list and no operation |
| SearchRequest.OnEvent | app/src/main/java/dev/amaro/bleh/SearchRequest.kt:27-31 | a started event arms a 30-second operation, stored as the latest and emits nothing; a found device is emitted and collected iff the filters accept it; nothing else changes |
| SearchRequest.Stop | app/src/main/java/dev/amaro/bleh/SearchRequest.kt:82-85 | `stop()` cancels the stored operation if any, then stops the engine, and leaves the list alone |
| SearchRequest.Step | app/src/main/java/dev/amaro/bleh/SearchRequest.kt:24-32 | a broadcast after the flow has ended changes nothing; the flow completes on an input iff it is open and the input is a finished cycle while a stop is requested; an ending emits nothing; a `stop()` sets the flag and never ends the flow; the filters never change |
| SearchRequest.OnTimeout | app/src/main/java/dev/amaro/bleh/SearchRequest.kt:18-22 | a live operation reaching its deadline stops the engine once; an expired or cancelled one does nothing |
| SearchRequest.SessionAppend | app/src/main/java/dev/amaro/bleh/SearchRequest.kt:24-32 | a session over two input runs is the first followed by the second from where it left off |
| SearchRequest.ClosedSession | app/src/main/java/dev/amaro/bleh/SearchRequest.kt:24-32 | after the flow has ended nothing is emitted, the ending stays, and nothing is armed |
| SearchRequest.ListIsCollected | app/src/main/java/dev/amaro/bleh/SearchRequest.kt:28-31 | the list is the old list with every emitted device collected in emission order |
| SearchRequest.OnlyAcceptedDevices | app/src/main/java/dev/amaro/bleh/SearchRequest.kt:28-31 | every emitted device passes the filters and came from a found broadcast among the inputs |
| SearchRequest.StepKeepsValid | app/src/main/java/dev/amaro/bleh/SearchRequest.kt:71-77 | one input keeps operation ids below the armed count and the list unique, and arms only 30-second operations with the next id |
| SearchRequest.SessionKeepsValid | app/src/main/java/dev/amaro/bleh/SearchRequest.kt:71-77 | over a session the armed count grows by the operations armed, each of 30 seconds with a fresh id, and the list stays unique |
| SearchRequest.SessionFollowsApi | app/src/main/java/dev/amaro/bleh/SearchRequest.kt:24-32 | without expiries, the request ends as the API's flow, emits exactly the accepted found devices of it, and arms once per started event |
| SearchRequest.PerformFollowsEngine | app/src/main/java/dev/amaro/bleh/SearchRequest.kt:24-32 | without expiries, `perform()` makes the engine's power cycle and discovery start, then the engine's discovery calls in order (a restart per finished cycle, a cancel per stop, with equal start and cancel counts), ends as the engine's flow, emits its accepted found devices, and arms once per started event |
| SearchRequest.PerformCallsFollowEngine | app/src/main/java/dev/amaro/bleh/SearchRequest.kt:24-32 | without expiries, `perform()`'s discovery starts and cancels are the engine's, in the same order and number; its other calls are the power cycle and the timer |
| SearchRequest.SessionCallsFollowApi | app/src/main/java/dev/amaro/bleh/SearchRequest.kt:24-32 | without expiries, the request's discovery calls over a session are the API's, including the cancels of `stop()` calls made after the flow has ended |
| SearchRequest.PerformRestartsList | app/src/main/java/dev/amaro/bleh/SearchRequest.kt:26 | after `perform()` the list holds only this session's emitted devices, collected from empty, with unique addresses |
| SearchRequest.ExpiryThenFinishCompletes | app/src/main/java/dev/amaro/bleh/SearchRequest.kt:18-22 | a live operation's expiry followed by a finished cycle completes the open flow |
| SearchRequest.StopSparesEarlierOperations | app/src/main/java/dev/amaro/bleh/SearchRequest.kt:82-85 | `stop()` cancels only the latest operation: an earlier live one still expires and stops the engine a second time |
| PairApi.Delivered | app/src/main/java/dev/amaro/bleh/PairApi.kt:32-40 | only broadcasts of the six subscribed actions reach the flow, never more than arrived |
| PairApi.DeliveredAppend | app/src/main/java/dev/amaro/bleh/PairApi.kt:32-40 | delivery keeps arrival order across runs of broadcasts |
| PairApi.DeliveredMember | app/src/main/java/dev/amaro/bleh/PairApi.kt:32-40 | every delivered broadcast is one that arrived |
| PairApi.TimeoutMessage | app/src/main/java/dev/amaro/bleh/PairApi.kt:19-23 | the timeout loopback is a subscribed broadcast for the address, not reporting a bond |
| PairApi.ErrorMessage | app/src/main/java/dev/amaro/bleh/PairApi.kt:25-29 | the error loopback is a subscribed broadcast for the address, not reporting a bond |
| PairApi.StartPairProcess | app/src/main/java/dev/amaro/bleh/PairApi.kt:53-78 | a bonded target gives one synthetic bonded event and no pairing call; otherwise pairing is called once and either a started event follows or the start fails with a pairing failure |
| PairApi.DetectError | app/src/main/java/dev/amaro/bleh/PairApi.kt:99-111 | failed and disconnected broadcasts fail the flow as a failed pairing; a timeout first cancels the pairing request, then fails as a timeout; other broadcasts pass unchanged |
| PairApi.ExtractEvent | app/src/main/java/dev/amaro/bleh/PairApi.kt:113-132 | the classification table in both directions: bonded state change ⇔ succeeded, none state change ⇔ not done, started ⇔ started, pairing request or connection ⇔ on progress; anything else is dropped |
| PairApi.Step | app/src/main/java/dev/amaro/bleh/PairApi.kt:42-49 | a broadcast for another address changes nothing; emitted events carry the target; the flow completes on a broadcast iff it reports the target bonded and is not an error |
| PairApi.FeedIsScan | app/src/main/java/dev/amaro/bleh/PairApi.kt:42-49 | the step-by-step flow equals the bridge's scan, exit event kept, followed by the filter, `detectError` and `extractEvent` |
| PairApi.Pair | app/src/main/java/dev/amaro/bleh/PairApi.kt:31-51 | `pair()` never ends as cancelled; an already bonded target gives one succeeded event, completion and no call; otherwise the first call pairs the target, and a pairing call that throws fails the flow with no events |
| PairApi.PairIsPipeline | app/src/main/java/dev/amaro/bleh/PairApi.kt:31-51 | `pair()` equals the composition of start command, bridge and operators |
| PairApi.PairAppend | app/src/main/java/dev/amaro/bleh/PairApi.kt:31-51 | while the flow is open, later broadcasts extend it by what they alone produce |
| PairApi.CancelsOnlyOnTimeout | app/src/main/java/dev/amaro/bleh/PairApi.kt:104-106 | the flow asks the pairing system to cancel once iff it failed with a timeout, and otherwise never |
| PairApi.EmitsOnlyTarget | app/src/main/java/dev/amaro/bleh/PairApi.kt:91-97 | every emitted event carries the target device |
| PairApi.FeedIgnoresOthers | app/src/main/java/dev/amaro/bleh/PairApi.kt:91-97 | a broadcast not for the target changes nothing in the flow |
| PairApi.PairIgnoresOthers | app/src/main/java/dev/amaro/bleh/PairApi.kt:91-97 | inserting a broadcast for another address anywhere leaves `pair()` unchanged |
| PairApi.AlreadyBonded | app/src/main/java/dev/amaro/bleh/PairApi.kt:60-68 | a bonded target yields exactly one succeeded event, completes, and makes no call, whatever arrives later |
| PairApi.PairCallFails | app/src/main/java/dev/amaro/bleh/PairApi.kt:69-75 | a rejected pairing call fails the flow with no events after one pairing call |
| PairApi.StartedFirst | app/src/main/java/dev/amaro/bleh/PairApi.kt:69-72 | an accepted pairing call is made exactly once and the first event is started |
| PairApi.BondedBroadcastSucceeds | app/src/main/java/dev/amaro/bleh/PairApi.kt:80-89 | a bonded state change for the target appends succeeded and completes the open flow |
| PairApi.ErrorBroadcastFails | app/src/main/java/dev/amaro/bleh/PairApi.kt:99-103 | a failed or disconnected broadcast for the target fails the open flow as a failed pairing with nothing more emitted |
| PairApi.TimeoutBroadcastFails | app/src/main/java/dev/amaro/bleh/PairApi.kt:104-106 | a timeout broadcast for the target cancels the pairing request and fails the open flow as a timeout |
| PairApi.PairCalls | app/src/main/java/dev/amaro/bleh/PairApi.kt:53-78 | the only calls are pairing the target and cancelling the pairing request |
| PairApi.CompletesOnlyOnBondReport | app/src/main/java/dev/amaro/bleh/PairApi.kt:80-89 | the flow completes only if some event reports the target bonded |
| PairApi.PairCompletesOnlyOnBond | app/src/main/java/dev/amaro/bleh/PairApi.kt:80-89 | `pair()` completes only for a target already bonded or after a subscribed broadcast reporting it bonded |
| PairEngine.Pair | app/src/main/java/dev/amaro/bleh/PairEngine.kt:8-15 | the power cycle comes first and leaves the radio on; the API's events and ending are returned unchanged; later calls are the API's own |
| PairEngine.NotifyTimeout | app/src/main/java/dev/amaro/bleh/PairEngine.kt:18-20 | the notification is the API's timeout broadcast for the address |
| PairEngine.NotifyError | app/src/main/java/dev/amaro/bleh/PairEngine.kt:22-24 | the notification is the API's failure broadcast for the address |
| PairEngine.NotifiedTimeoutFails | app/src/main/java/dev/amaro/bleh/PairEngine.kt:18-20 | a timeout notification fails the open flow as a timeout, adding only the cancel request |
| PairEngine.NotifiedErrorFails | app/src/main/java/dev/amaro/bleh/PairEngine.kt:22-24 | an error notification fails the open flow as a failed pairing, adding nothing |
| PairRequest.Fresh | app/src/main/java/dev/amaro/bleh/PairRequest.kt:28 | each `perform()` starts with no progress seen, no operation and the flow open |
| PairRequest.OnPairEvent | app/src/main/java/dev/amaro/bleh/PairRequest.kt:36-64 | started arms a 20-second operation stored as the latest; not done after progress notifies an error and is dropped; progress resets the stored operation and sets the flag; every other event is passed on with no call |
| PairRequest.StopTimer | app/src/main/java/dev/amaro/bleh/PairRequest.kt:44-47 | completion cancels the stored operation if there is one and changes nothing else |
| PairRequest.Close | app/src/main/java/dev/amaro/bleh/PairRequest.kt:33-47 | when the flow ends, the ending is recorded, nothing is emitted, and the stored operation, if any, is cancelled and no longer live; no other call is made and the rest of the state is kept |
| PairRequest.Deliver | app/src/main/java/dev/amaro/bleh/PairRequest.kt:29-47 | after the flow has ended, or for another address, a broadcast changes nothing; at most one device is passed on; an open flow completes on a broadcast iff it reports the target bonded and is not an error, and when it ends the stored operation is no longer live; no broadcast cancels the flow |
| PairRequest.OnTimeout | app/src/main/java/dev/amaro/bleh/PairRequest.kt:21-25 | a live operation reaching its deadline sends the timeout notification once; otherwise nothing happens |
| PairRequest.KeptOrDropped | app/src/main/java/dev/amaro/bleh/PairRequest.kt:49-64 | every pair event is either passed on or dropped |
| PairRequest.DroppedMeansProgressFirst | app/src/main/java/dev/amaro/bleh/PairRequest.kt:52-54 | with no not-done event after a progress report, nothing is dropped |
| PairRequest.ProgressIsSticky | app/src/main/java/dev/amaro/bleh/PairRequest.kt:55-58 | once set, the progress flag stays set for the rest of the `perform()` |
| PairRequest.DeliverFollowsStep | app/src/main/java/dev/amaro/bleh/PairRequest.kt:29-33 | one broadcast ends the request's flow as the engine's step does, passes on what the progress rule keeps, and notifies once per dropped event |
| PairRequest.DeliverAllFollowsFeed | app/src/main/java/dev/amaro/bleh/PairRequest.kt:27-34 | over a run of broadcasts the request ends as the engine's flow and passes on the devices the progress rule keeps from it |
| PairRequest.SessionDelivers | app/src/main/java/dev/amaro/bleh/PairRequest.kt:27-34 | without expiries or abandonment, a session is the engine's flow over the subscribed broadcasts |
| PairRequest.PerformFollowsEngine | app/src/main/java/dev/amaro/bleh/PairRequest.kt:27-34 | without expiries or abandonment (every input a broadcast), `perform()` ends as the engine's `pair()`, emits the devices of the events it keeps, and notifies once per dropped event |
| PairRequest.SessionAppend | app/src/main/java/dev/amaro/bleh/PairRequest.kt:27-34 | a session over two input runs is the first followed by the second from where it left off |
| PairRequest.ClosedSession | app/src/main/java/dev/amaro/bleh/PairRequest.kt:33 | after the flow has ended nothing is emitted, the ending and stored operation stay, and the only calls are timeouts of operations still live |
| PairRequest.StepNeverArms | app/src/main/java/dev/amaro/bleh/PairRequest.kt:36-42 | no broadcast, expiry or abandonment arms an operation |
| PairRequest.SessionNeverArms | app/src/main/java/dev/amaro/bleh/PairRequest.kt:36-42 | after the start command nothing arms an operation |
| PairRequest.BondedTarget | app/src/main/java/dev/amaro/bleh/PairRequest.kt:27-34 | a target already bonded is emitted once and completes after the power cycle, with no pairing call and no operation |
| PairRequest.PairingStartArmsOnce | app/src/main/java/dev/amaro/bleh/PairRequest.kt:36-42 | an accepted pairing call is followed at once by arming one 20-second operation, and no other is armed |
| PairRequest.CompletionCancelsTimer | app/src/main/java/dev/amaro/bleh/PairRequest.kt:44-47 | whenever the flow ends, the stored operation is cancelled and can no longer fire |
| PairRequest.TimeoutRoundTrip | app/src/main/java/dev/amaro/bleh/PairRequest.kt:21-25 | a live operation's expiry notifies a timeout whose loopback broadcast fails the open flow and cancels the pairing request |
| PairRequest.TimeoutFailsPairing | app/src/main/java/dev/amaro/bleh/PairRequest.kt:21-25 | after any open prefix, expiry of a live operation and its loopback broadcast fail the flow as a timeout, whatever follows |
| Scenarios.SignalFilterKeepsTwo | app/src/main/java/dev/amaro/bleh/SearchRequest.kt:48-54 | threshold 50 over signals -56, -43, 51, 12 keeps the devices with -43 and 51 |
| Scenarios.PrefixFilterKeepsTwo | app/src/main/java/dev/amaro/bleh/SearchRequest.kt:56-60 | prefix "PAX" keeps the two devices named PAX123 and PAX324 |
| Scenarios.BothFiltersKeepOne | app/src/main/java/dev/amaro/bleh/SearchRequest.kt:44-46 | prefix "PAX" with threshold 50 keeps only PAX123 |
| Scenarios.MissingSignalIsWeak | app/src/main/java/dev/amaro/bleh/Device.kt:12 | a found broadcast without a signal reads as -99, which fails every positive threshold |
| Scenarios.RepeatedDevicesAreReplaced | app/src/main/java/dev/amaro/bleh/SearchRequest.kt:34-42 | five sightings of three addresses leave three entries in first-seen order with the latest signals |

## Left out

- FlowCaster internals: subscription, unsubscription and the 1-based event number passed to exit conditions are not modelled. No caller reads the number.
- Radio state waits: `turnBluetoothOn`/`turnBluetoothOff` suspend until the adapter reports the new state. They are modelled as atomic `TurnOn`/`TurnOff` effects, and `isBluetoothOn` is a `radioOn` parameter.
- Timer scheduling: the one-second periodic schedule of `java.util.Timer` is not modelled. `Timer` treats ticks as explicit steps, and the requests see an operation's deadline as an `Expire(id)` input. The link between the two views is not proved.
- Concurrency: the per-operation lock, `runBlocking`, coroutine collection and `AtomicReference` are out. A session is one sequential interleaving of inputs.
- Loopback delivery: the broadcasts that `notifyTimeout`/`notifyError` send reach the flow only when they appear later among the inputs. The lemmas name that input.
- `PairingSystem`: the reflective `createBond` call is an oracle (`Remote.pairAccepted`). `cancelPairRequest` is the `CancelPairRequest` effect.
- Context and wiring: a cleared `WeakReference` context, `getRemoteDevice` address validation, `Intent` parcels, `Injector` and `Logger` are not modelled.
- Effect order across layers: each `perform()` has one trace. Within a single broadcast the engine's calls come first, then the request's, then the completion handler's.
- Timer.IncrementBy: does not model 32-bit overflow of `mDuration` or `mElapsed`; both are unbounded integers.
- SearchRequest state across performs: the filters, the stored operation and the live operations carry over from one `perform()` to the next. Only the list and the API's flag are reset, as in the code. The devices getter is the request's list.
- PairApi.Delivered: states only that delivered broadcasts are subscribed and no more numerous than those that arrived. Order and membership are stated by `PairApi.DeliveredAppend` and `PairApi.DeliveredMember`.
- SearchRequest.PerformFollowsEngine: relates `perform()` to the engine only when no operation expires. A live expiry makes the request stop the engine, and that stop has no counterpart among the engine's inputs; `SearchRequest.ExpiryThenFinishCompletes` and `SearchRequest.StopSparesEarlierOperations` state what an expiry does.
- PairRequest.PerformFollowsEngine: relates `perform()` to the engine only when every input is a broadcast. Expiries are stated by `PairRequest.TimeoutRoundTrip` and `PairRequest.TimeoutFailsPairing`, and every ending, abandonment included, by `PairRequest.CompletionCancelsTimer`.
- Test helpers and the instrumented test are not part of this model.
