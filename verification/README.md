# A verified model of the sensors, USB and init code of the device tree

The project models, in Dafny 4.11, four pieces of the device's native code and proves what holds of them for every
input, every run and every interleaving. `dafny verify dfyconfig.toml` checks all of it.

**Sensors multi-HAL proxy** (`sensors/HalProxy.cpp`, `sensors/HalProxyCallback.cpp`). Sub-HAL threads post batches of
events. A post goes straight to a bounded event queue or, for what does not fit, to a bounded backlog. The
pending-writes thread drains the backlog and lets go of the mutex in the middle of each pass. The wakelock thread
watches a reference count that all sub-HALs share, with time-outs and reset epochs. `SensorPipeline` is a state machine
over the atomic steps of all these threads; `SensorRuns`, `WakelockRuns` and `WakelockCoverage` prove what holds over
every run: order and losses, accounting, draining, stopping, the wake lock, its hand-over, epochs. A wait on a condition
variable is a test, the going to sleep with the mutex still held until then, and a notification that finds the thread
asleep or is lost. `HalProxies.HalProxy` is the object with its fields: each method changes them as the code does and is
proved to take steps of the state machine, whatever the other threads do while the mutex is free. `SensorRouting` and
`EventFiltering` hold the sensor list, the dynamic sensors, the 32-bit handles and the event filter.

**USB gadget** (`usb/UsbGadget.cpp`). A request tears the gadget down, checks the identifiers, and links the functions
asked for; a monitor thread waits for endpoints and pulls the gadget up; the request waits for it. `GadgetProtocol` and
`GadgetRuns` are the requests and monitors in every interleaving, with the unlocked writes of the UDC node by `reset`
and by the data signal of the USB object (`usb/Usb.cpp`), `GadgetPlan` says what is to be linked, and
`UsbGadgets.UsbGadget` is the object, proved to execute runs of the protocol.

**USB Type-C** (`usb/Usb.cpp`). `Uevents` scans kernel messages in their buffer, `TypecPorts` and `TypecStatus` build
the port map and the port status, `RoleSwitch` is the locking protocol of a role switch with the worker thread and the
partners that come, and `UsbTypeC.Usb` is the object.

**Build properties** (`libinit/libinit_utils.cpp`). `Fingerprints` rewrites build fingerprints as descriptions.

Some properties one would expect are false of the code. Each has a lemma with a concrete run that breaks it and
a lemma that says exactly when the code meets it:

- stopping the threads can wait for ever: the flag is cleared and the threads are notified without their mutexes, and a
  notification that comes between a thread's test and its sleep is lost (`SensorRuns.LostWakeup`, and
  `SensorRuns.SleepsOn`: it stays lost; exactly when the joins return: `SensorRuns.StopReturnsExactly`);
- the wake lock can stay held at count zero (`WakelockRuns.LeakHappens`, exactly when: `WakelockRuns.LeaksExactly`);
- a failed blocking write can release the wake lock too early in two ways: a batch partly written gives back too much
  (`WakelockCoverage.FailedWriteUncovers`), and a batch from before a reset gives back references taken after it
  (`WakelockCoverage.OldBatchUncovers`); exactly when: `WakelockCoverage.FailedWriteExactly` for one write and
  `WakelockCoverage.CoverageExactly` for runs from a state without slack, and `WakelockCoverage.CoverageFromStart` for those
  from the first initialization to the first stop; never if each failed batch was announced since the last reset and is
  dropped as a chunk or still holds all it announced: `WakelockCoverage.CarefulRunsAreCovered`;
- with a clock that repeats a reading, a wakelock from before a reset releases a reference taken after it
  (`SharedWakelock.EpochIsolationNeedsStrictClock`, exactly when, over runs: `WakelockRuns.EpochIsolation`);
- handles decode to the sub-HAL that owns them for indices below 128 and for no others (`SensorRouting.TagRoundTrip`);
- a time-out need not clear the count: a stop between the look and the reset keeps it
  (`WakelockRuns.StopKeepsTimedOut`, exactly when: `WakelockRuns.ExpiryExactly`);
- `mCurrentUsbFunctionsApplied` can be set by the monitor of an earlier request (`GadgetRuns.AppliedFlagMisleads`, exactly
  when it is right: `GadgetRuns.AppliedFlagExactly`);
- a teardown that succeeds can leave the gadget up, because the old monitor can write the UDC node before it is joined
  (`GadgetRuns.OldMonitorPublishes`), and so can the data signal when it is turned on (`GadgetRuns.SignalPullsUp`); exactly
  when: `GadgetRuns.TeardownPullsDownExactly`;
- a mode switch can be reported as done although its partner did not come back after the write: on a stale message
  (`RoleSwitch.StaleSignalSucceeds`) or on the partner of another port (`RoleSwitch.OtherPartnerSucceeds`), exactly
  when: `RoleSwitch.OwnPartnerExactly`;
- a failed roll-back leaves sub-HALs in different modes (`HalProxies.HalProxy.SetOperationMode` says exactly when);
- a fingerprint that lacks a delimiter is not taken apart (`Fingerprints.NoDelimiter`, exactly when:
  `Fingerprints.FingerprintsExactly`).

## Model

| member | source | states |
|---|---|---|
| `SensorPipeline.StepKeepsInv` | sensors/HalProxy.cpp:591-741 | every atomic step of posting threads, pending-writes thread, wakelock thread, scoped wakelocks, stop and initialize keeps: backlog size, fates of posted events, thread positions, wake lock held while counted |
| `SensorRuns.InvOverRun` | sensors/HalProxy.cpp:591-741 | the invariant holds after every legal interleaving |
| `SensorRuns.FifoOverRuns` | sensors/HalProxy.cpp:680-709 | over every interleaving since the last initialization, what was written followed by what waits is a subsequence, in mutex order, of what was posted, and what is missing is in hand, overflowed or dropped by a failed write |
| `SensorRuns.LossesOverRuns` | sensors/HalProxy.cpp:591-631 | every posted event has one fate; the events of each fate, in order, are what was written, waits, overflowed and was dropped; an overflow takes a suffix of its post, behind events written at once |
| `SensorRuns.DropsExactly` | sensors/HalProxy.cpp:604-628 | each loss to a failed blocking write is the first chunk of what waited just then, and no other step drops anything |
| `SensorRuns.PostsExactly` | sensors/HalProxy.cpp:680-709 | a post writes at once the lesser of its events and the room there is, but only if nothing waits; what is left joins the backlog as one batch, and wakes the writer, exactly if it does not take the backlog beyond its maximum, and is lost as a whole otherwise |
| `SensorRuns.SingleProducer` | sensors/HalProxy.cpp:595-628 | no post writes the event queue while the pending-writes thread is in its unlocked blocking write |
| `SensorRuns.AccountingOverRuns` | sensors/HalProxy.cpp:699-708 | the recorded size is the number of events queued, never negative, never beyond the maximum, never less than the chunk in flight; the most observed is the peak |
| `SensorRuns.MostIsPeak` | sensors/HalProxy.cpp:704-706 | the recorded maximum is the largest size over the states of the run |
| `SensorRuns.PassShrinks` | sensors/HalProxy.cpp:595-628 | a writer pass strictly shrinks the backlog and uses up one of the passes due, whether its write succeeds or not |
| `SensorRuns.DrainExactly` | sensors/HalProxy.cpp:595-628 | undisturbed, with a positive quantum, the backlog empties after exactly the sum of ceil(length / quantum) passes and not before |
| `SensorRuns.StopReturnsExactly` | sensors/HalProxy.cpp:552-573 | after the flag is cleared and both threads are notified, the joins return in every continuation exactly if neither thread, when it is notified, is between its test and its sleep; whatever happens between the two notifications |
| `SensorRuns.StoppedThreadsEnd` | sensors/HalProxy.cpp:591-660 | once the flag is cleared, the two threads take at most five steps of their own between them, whatever the others do and however their writes and reads are answered |
| `SensorRuns.LostWakeup` | sensors/HalProxy.cpp:552-573 | a reachable state in which stopThreads has notified both threads, both are asleep, no post holds the mutex and neither can ever exit on its own |
| `SensorRuns.SleepsOn` | sensors/HalProxy.cpp:552-573 | a pending-writes thread left asleep stays asleep in every continuation without another post, however long the join waits |
| `SensorRuns.NoWorkForSleepers` | sensors/HalProxy.cpp:591-725 | no post and no increment loses its wake-up: over every run a thread that is asleep or about to sleep has an empty backlog, or no reference, to look at |
| `EventBacklog.PopFrontEffect` | sensors/HalProxy.cpp:620-628 | erasing a chunk or popping the front removes exactly the first events of the backlog and leaves no empty batch |
| `EventBacklog.KeptIsWrittenThenPending` | sensors/HalProxy.cpp:599-628 | as nothing is settled ahead of what waits, the events kept are the written ones followed by the waiting ones |
| `EventBacklog.SettleOrdered` | sensors/HalProxy.cpp:604-618 | a chunk settled by the writer extends what was settled so before, in posting order |
| `EventBacklog.SpillOverflow` | sensors/HalProxy.cpp:699-708 | a post that overflows loses a suffix, after events written at once |
| `WakelockRuns.LockOverRuns` | sensors/HalProxy.cpp:711-741 | over every run a positive count means the lock is held; held exactly then if no increment by zero came at count zero |
| `WakelockRuns.LeaksExactly` | sensors/HalProxy.cpp:711-725 | a step breaks held-iff-counted exactly when it increments a zero count by zero while running |
| `WakelockRuns.LeakHappens` | sensors/HalProxy.cpp:680-686 | a reachable state in which the lock is held at count zero |
| `WakelockCoverage.CoverageExactly` | sensors/HalProxy.cpp:604-741 | while the threads run and posts announce their own wake-up events, from a state in which the count is just what is owed plus the live scoped wakelocks of the epoch, it covers both throughout a run exactly if every acknowledgement takes no more than is owed, every failed write gives back no more than it loses of what was announced since the last reset, and the clock has moved on before a reset; what is owed is read off the run |
| `WakelockCoverage.CoverageFromStart` | sensors/HalProxy.cpp:604-741 | so it is for every run of such posts from the first initialization to the first stop |
| `WakelockCoverage.CoverageOverRuns` | sensors/HalProxy.cpp:604-741 | over such runs, stops and initializations included, the lock is held as long as anything is owed or a current scoped wakelock is alive |
| `WakelockCoverage.CarefulRunsAreCovered` | sensors/HalProxy.cpp:604-631 | failed writes allowed: so it is if the framework acknowledges only what it has seen, the clock moves on before a reset, and each failed batch gives nothing back, or was announced since the last reset and is dropped as a proper chunk or still holds all it announced |
| `WakelockCoverage.PoliteRunsAreCovered` | sensors/HalProxy.cpp:637-741 | so it is without failed blocking writes, with acknowledgements of no more than is owed and a clock that moves on before a reset |
| `WakelockCoverage.StepKeepsCovered` | sensors/HalProxy.cpp:711-741 | every single step that fits keeps the coverage |
| `WakelockCoverage.FailedWriteExactly` | sensors/HalProxy.cpp:604-618 | where coverage has no slack, a failed write keeps it exactly if its batch was announced since the last reset, is a proper chunk or holds all it announced, and what it loses is still owed; or all that is owed goes and no scoped wakelock is alive; or the batch is from before the reset and gives nothing back |
| `WakelockCoverage.StepKeepsAnnounced` | sensors/HalProxyCallback.cpp:41-58 | if posts announce their own wake-up events, every batch always announces at least those it still holds |
| `WakelockCoverage.GivenBackExactly` | sensors/HalProxy.cpp:610-618 | the amount only: a failed write never gives back too little, and gives back as much as it loses exactly when it drops a proper chunk or the batch still holds all it announced |
| `WakelockCoverage.FailedWriteUncovers` | sensors/HalProxy.cpp:610-618 | a reachable state in which a partly written batch gave back too much and the lock is released with an event still owed |
| `WakelockCoverage.OldBatchUncovers` | sensors/HalProxy.cpp:615 | a reachable state in which a batch from before a reset gave back the right amount and the lock is released while a scoped wakelock created after the reset is alive |
| `WakelockRuns.EpochIsolation` | sensors/HalProxy.cpp:727-741 | over every run, with a clock that may repeat a reading: the release of a scoped wakelock takes nothing from the count exactly if the threads do not run, some reset since its creation read a later time than the creation, or the count is zero |
| `SharedWakelock.EpochIsolationNeedsStrictClock` | sensors/HalProxy.cpp:735-736 | with equal readings it does |
| `WakelockRuns.TimeoutOverRuns` | sensors/HalProxy.cpp:637-672 | a look of the wakelock thread more than the timeout after the last increment of the run finds the lock timed out; an earlier one waits between 0 and the timeout; neither changes the lock |
| `WakelockRuns.ExpiryExactly` | sensors/HalProxy.cpp:641-645 | the reset that follows such a look clears the count and releases the lock exactly if no stop came in between; nothing else can touch the count meanwhile |
| `WakelockRuns.StopKeepsTimedOut` | sensors/HalProxy.cpp:641-645 | a reachable state in which the lock timed out and was reset, and is still held and counted, because of a stop in between |
| `HalProxies.HalProxy.constructor` | sensors/HalProxy.cpp:103-128 | the proxy starts with the sensor list built from its sub-HALs, no threads and no references |
| `HalProxies.HalProxy.InitializeSensorList` | sensors/HalProxy.cpp:503-527 | the loops over sub-HALs and sensors build exactly the specified list and choice |
| `HalProxies.HalProxy.SetDirectChannelFlags` | sensors/HalProxy.cpp:743-756 | the first supporter is chosen, others lose the flags |
| `HalProxies.HalProxy.SetOperationMode` | sensors/HalProxy.cpp:152-173 | the result, the mode of every sub-HAL and the current mode; all agree afterwards exactly when nothing failed, nothing was to change, or every undoing call worked |
| `HalProxies.HalProxy.Route` | sensors/HalProxy.cpp:175-181 | for any 32-bit handle no index is out of range; exactly the sub-HAL named is called, with the cleared handle |
| `HalProxies.HalProxy.InjectSensorData` | sensors/HalProxy.cpp:311-329 | refused in normal mode unless additional information, else routed |
| `HalProxies.HalProxy.OnDynamicSensorsConnected` | sensors/HalProxy.cpp:410-428 | the loop computes the specified map and report |
| `HalProxies.HalProxy.OnDynamicSensorsDisconnected` | sensors/HalProxy.cpp:430-450 | likewise |
| `HalProxies.HalProxy.IncrementRefCountAndMaybeAcquireWakelock` | sensors/HalProxy.cpp:711-725 | the new state of the wake lock as the pipeline has it, the notification of the wakelock thread at count zero, and the creation time handed back |
| `HalProxies.HalProxy.CreateScopedWakelock` | sensors/HalProxyCallback.cpp:60-63 | a locked scoped wakelock is the pipeline's, created when mWakelockMutex is free, and is alive only if the threads run |
| `HalProxies.HalProxy.DecrementRefCountAndMaybeReleaseWakelock` | sensors/HalProxy.cpp:727-741 | likewise, nothing while the threads do not run |
| `HalProxies.HalProxy.ResetSharedWakelock` | sensors/HalProxy.cpp:674-678 | likewise |
| `HalProxies.HalProxy.SharedWakelockDidTimeout` | sensors/HalProxy.cpp:662-672 | whether it timed out, and the time left if not |
| `HalProxies.HalProxy.PostEventsToMessageQueue` | sensors/HalProxy.cpp:680-709 | given the room in the queue and how it answers, a run of the pipeline in which the posting thread takes exactly the steps of this post (count, decide, and the return of a write if there is one), whatever the other threads do while it holds the mutex |
| `HalProxies.HalProxy.CountNumWakeupEvents` | sensors/HalProxy.cpp:766-775 | counts the wake-up events of the first n; unknown handles get default entries and no lookup changes |
| `HalProxies.HalProxy.WriterPass` | sensors/HalProxy.cpp:599-628 | given how the queue answers: a run of the pipeline in which this thread takes exactly one pass; the first min(front batch, quantum) events of what waited are appended to the event queue, or else dropped, and are gone from the backlog, whose rest stays ahead of what was posted meanwhile |
| `HalProxies.HalProxy.HandlePendingWrites` | sensors/HalProxy.cpp:591-631 | the loop and its wait are a run of the pipeline in which this thread takes exactly the turns counted, each a pass answered as the queue does or a sleep it was woken from; with a positive quantum the events written and dropped grow by at least the number of passes; it is left asleep only with nothing to do, exits only when stopped |
| `HalProxies.HalProxy.WakelockTurn` | sensors/HalProxy.cpp:641-657 | a run of the pipeline in which this thread takes exactly one look and then the reset, if the timeout has passed since the last increment, or else what the read brings |
| `HalProxies.HalProxy.HandleWakelocks` | sensors/HalProxy.cpp:637-660 | the loop and its wait are a run of the pipeline in which this thread takes exactly the turns counted, each such a look or a sleep it was woken from; it is left asleep only at count zero, exits only when stopped |
| `HalProxies.HalProxy.StopThreads` | sensors/HalProxy.cpp:552-566 | a run of the pipeline in which this thread clears the flag and sends the two notifications, in this order and without the mutexes, whatever the other threads do in between |
| `HalProxies.HalProxy.DisableAllSensors` | sensors/HalProxy.cpp:575-585 | every sub-HAL is told to deactivate each of its sensors once, static ones first, by its own handles |
| `HalProxies.HalProxy.InitializeCommon` | sensors/HalProxy.cpp:234-289 | once the threads are joined: all sensors are disabled, then initialization is the pipeline's; references left over survive it; the first failing sub-HAL decides the result |
| `SensorTypes.HandleIsInt32` | sensors/HalProxy.cpp:57-70 | first byte and other 24 bits represent every int32 handle, sign included |
| `SensorTypes.WakeUpBit` | sensors/HalProxy.cpp:770 | a sensor wakes up exactly if the lowest bit of its flags is set |
| `SensorTypes.DirectBits` | sensors/HalProxy.cpp:745-747 | it supports direct channels exactly if one of bits 7 to 11 is set |
| `SensorTypes.OtherBitsStay` | sensors/HalProxy.cpp:753-754 | losing direct channels clears these five bits and no other |
| `SensorRouting.IndexIsShift` | sensors/HalProxy.cpp:68-70 | decoding is the arithmetic shift of the int32, cast to a 64-bit size_t |
| `SensorRouting.TagIsShift` | sensors/HalProxy.cpp:57-59 | tagging a clear handle adds the index, cast to int32 and shifted |
| `SensorTypes.CountWakeupsAdditive` | sensors/HalProxy.cpp:766-775 | counting is additive over any split |
| `SensorTypes.CountIsNumber` | sensors/HalProxy.cpp:766-775 | the count is the number of events whose sensor is known and has the lowest flag bit set |
| `SensorRouting.TagRoundTrip` | sensors/HalProxy.cpp:57-70 | clearing undoes tagging; decoding undoes it exactly for indices below 128 |
| `SensorRouting.TagInjective` | sensors/HalProxy.cpp:57-59 | distinct pairs of sub-HAL and local handle get distinct handles |
| `SensorRouting.TagIsTheHandle` | sensors/HalProxy.cpp:57-70 | for an index below 128 the tagged handle is the one handle that decodes to the index and has the low bits of the local one |
| `SensorRouting.BuildExactly` | sensors/HalProxy.cpp:503-527 | the list holds exactly the last kept report of each handle, in final form; the sub-HAL chosen for direct channels is the first to offer them |
| `SensorRouting.LastForAt` | sensors/HalProxy.cpp:503-527 | the report a listed sensor is stored for is kept, has its handle, and no later kept one has |
| `SensorRouting.ListedAll` | sensors/HalProxy.cpp:503-527 | every kept report is listed under its handle |
| `SensorRouting.KeptExactly` | sensors/HalProxy.cpp:84-102 | kept are sensors with a clear first byte, those of the type string of the pick-up sensor only with the lowest flag bit |
| `SensorRouting.StoredFields` | sensors/HalProxy.cpp:503-527 | field by field: the tagged handle, the direct-channel bits cleared unless of the chosen sub-HAL, a pick-up sensor as a pick-up gesture with its type string and range 1, all else unchanged |
| `SensorRouting.DirectIsFirst` | sensors/HalProxy.cpp:743-749 | the chosen sub-HAL is that of the first report with a clear first byte and a direct-channel bit |
| `SensorRouting.RoutingRoundTrip` | sensors/HalProxy.cpp:758-783 | up to 128 sub-HALs, every stored key decodes in range to the sub-HAL that reported the sensor and to its local handle |
| `SensorRouting.DirectChannelsHaveOneOwner` | sensors/HalProxy.cpp:743-756 | every stored sensor with direct-channel flags belongs to the one chosen sub-HAL |
| `SensorRouting.ConnectExactly` | sensors/HalProxy.cpp:410-428 | exactly the sensors with a clear first byte are reported, tagged, in order and as often as they came; the map holds the last one reported of each handle, all else stays |
| `SensorRouting.ClearOnesExactly` | sensors/HalProxy.cpp:410-428 | the sensors reported are those whose first byte is clear, in order, unchanged but for the tagged handle |
| `SensorRouting.DisconnectExactly` | sensors/HalProxy.cpp:430-450 | exactly the named sensors that were present are removed, each reported once |
| `SensorRouting.DisconnectUndoesConnect` | sensors/HalProxy.cpp:410-450 | disconnecting what was connected leaves none of it |
| `SensorRouting.SubHalsDoNotInterfere` | sensors/HalProxy.cpp:410-450 | over any run of callbacks, one sub-HAL's entries are what its own callbacks make of them |
| `EventFiltering.ProcessKeepsOrder` | sensors/HalProxyCallback.cpp:65-84 | the events passed on are a subsequence of the retagged ones |
| `EventFiltering.ProcessKeepsExactly` | sensors/HalProxyCallback.cpp:65-84 | each event passes as often as it came in, unless its sensor is of type pick-up gesture and its scalar is not 1; then never |
| `EventFiltering.ProcessExactly` | sensors/HalProxyCallback.cpp:65-84 | for local handles and an index below 128: the events that pass, in order, each decode to this sub-HAL, with the low handle bits, the scalar and the time of the event they come from; exactly those are missing whose sensor, looked up under this sub-HAL, is a pick-up gesture and whose scalar is not 1 |
| `EventFiltering.SameCount` | sensors/HalProxy.cpp:766-775 | sensor maps that answer lookups alike count alike, so inserted defaults do not matter |
| `HalProxyCallbacks.HalProxyCallback.ProcessEvents` | sensors/HalProxyCallback.cpp:65-84 | the loop yields the filtered events, each from its event of the batch with the handle of this sub-HAL, and counts those of them whose sensor has the lowest flag bit set |
| `HalProxyCallbacks.HalProxyCallback.PostEvents` | sensors/HalProxyCallback.cpp:41-58 | nothing for an empty batch or a stopped proxy, else a run that begins with the post of the filtered events with their exact wake-up count, and contains exactly the steps of this post |
| `GadgetProtocol.StepKeepsInv` | usb/UsbGadget.cpp:485-685 | every step of the request thread, of the monitor and of the unlocked writers of the UDC node keeps the lifecycle and report invariants |
| `GadgetProtocol.MonitorStepKeeps` | usb/UsbGadget.cpp:93-185 | every step of a monitor keeps: writes follow full looks, writes alternate with missing endpoints, flags are raised only after a write |
| `GadgetProtocol.LooksExactly` | usb/UsbGadget.cpp:100-173 | a look is recorded with the endpoints it saw; the first leads to a write exactly if every endpoint of the list was among them, a later one exactly if so and the gadget was down; a later one finds it down if one was missing |
| `GadgetRuns.ReportSoundness` | usb/UsbGadget.cpp:605-632 | in every interleaving, success told for a request with endpoints means its own monitor wrote the UDC node right after a look in which it saw each endpoint of this request |
| `GadgetRuns.ReportedExactlyOnce` | usb/UsbGadget.cpp:634-685 | over every sequence of requests, each with a callback is told exactly once, in order, and no other is |
| `GadgetRuns.OneMonitor` | usb/UsbGadget.cpp:259-273 | a monitor is created only when there is none and goes only by being joined after it ended |
| `GadgetRuns.EndpointsStay` | usb/UsbGadget.cpp:100-106 | the endpoint list does not change while a monitor exists |
| `GadgetRuns.JoinCompletes` | usb/UsbGadget.cpp:259-273 | a join holds no lock the monitor needs; however endpoints and writes turn out, the monitor can always go on and, inotify events apart, ends within four steps of its own |
| `GadgetRuns.MonitorWritesAfterFullLooks` | usb/UsbGadget.cpp:100-173 | just before each successful write a monitor saw every endpoint of its list |
| `GadgetRuns.MonitorAlternates` | usb/UsbGadget.cpp:134-173 | between two successful writes of a monitor there was a look that missed an endpoint of its list |
| `GadgetRuns.SetupLinksExactly` | usb/UsbGadget.cpp:485-632 | whatever happened before, a setup leaves exactly function0 to function(n-1), in order, for the mask and the vendor list, and exactly the endpoints of the request |
| `GadgetRuns.TeardownLeavesNone` | usb/UsbGadget.cpp:243-284 | a teardown that succeeds leaves no function link, no endpoint and no monitor |
| `GadgetRuns.OthersUntouched` | usb/UsbGadget.cpp:192-215 | no run touches an entry that is no function |
| `GadgetRuns.AppliedFlagMisleads` | usb/UsbGadget.cpp:640-643 | a reachable state in which the applied flag is set although the request reported an error |
| `GadgetRuns.AppliedFlagExactly` | usb/UsbGadget.cpp:634-685 | for a request with endpoints the applied flag is set only while the pull-up flag is, in every interleaving up to the next call, exactly if no monitor exists when the call arrives |
| `GadgetRuns.OldMonitorPublishes` | usb/UsbGadget.cpp:243-273 | whatever an existing monitor is doing when a call arrives, it can write the UDC node after the pull-down and publish before it is joined, without any help of other writers, so that the gadget is up and the flag set when the teardown has succeeded |
| `GadgetRuns.SignalPullsUp` | usb/Usb.cpp:60 | without a monitor, the data signal turned on after the pull-down leaves the gadget up when the teardown has succeeded |
| `GadgetRuns.TeardownPullsDownExactly` | usb/UsbGadget.cpp:243-284 | a successful teardown whose write of "none" worked leaves the gadget down in every interleaving with the monitor, `reset` and the data signal exactly if no monitor exists when the call arrives and the data signal is not turned on during the request |
| `GadgetPlan.MaskOfFunctions` | usb/UsbGadget.cpp:500-566 | the bits tested lose nothing of the mask a request is called with |
| `GadgetPlan.BitsExactly` | usb/UsbGadget.cpp:500-566 | ADB is the bit of weight 1, accessory 2, MTP 4, MIDI 8, PTP 16, RNDIS 32, audio source 64 |
| `GadgetPlan.EndpointsExactly` | usb/UsbGadget.cpp:500-574 | watched are ep1 to ep3 of MTP, or of PTP without MTP, and ep1 and ep2 of ADB, each once; a request has endpoints exactly if it asks for one of these |
| `GadgetPlan.VendorPartIs` | usb/UsbGadget.cpp:556-561 | diag links diag.diag, serial_cdev cser.dun.0, rmnet_gsi gsi.rmnet, any other token nothing |
| `GadgetPlan.VendorExactly` | usb/UsbGadget.cpp:551-564 | the vendor functions are those of the known tokens, one for each and in their order |
| `GadgetPlan.PlanCounts` | usb/UsbGadget.cpp:496-578 | how often a plan links each function: the vendor functions as often as their token occurs, the others once if asked for, PTP only without MTP |
| `GadgetPlan.PlanInOrder` | usb/UsbGadget.cpp:496-578 | MTP or PTP, MIDI, accessory, audio source, RNDIS, the vendor functions, ADB |
| `GadgetPlan.FunctionNamesExactly` | usb/UsbGadget.cpp:192-206 | unlinking picks the links and every other name that holds "function" |
| `GadgetPlan.TokensOfJoin` | usb/UsbGadget.cpp:551-564 | splitting undoes joining by commas for any non-empty tokens |
| `GadgetPlan.LinkAllExactly` | usb/UsbGadget.cpp:295-309 | linking into a directory without functions leaves exactly the links, and the other entries |
| `UsbGadgets.UsbGadget.UnlinkFunctions` | usb/UsbGadget.cpp:192-215 | succeeds exactly if the directory can be read and every function entry removed; success removes exactly these, in whatever order they are read; failure removes only such |
| `UsbGadgets.UsbGadget.LinkFunction` | usb/UsbGadget.cpp:295-309 | one link more, or nothing |
| `UsbGadgets.UsbGadget.StrTok` | usb/UsbGadget.cpp:554-562 | the next token of the specified split |
| `UsbGadgets.UsbGadget.LinkVendor` | usb/UsbGadget.cpp:551-564 | the loop links the plan of the vendor tokens exactly if each of its links can be made, and a beginning of it otherwise |
| `UsbGadgets.UsbGadget.LinkFunctions` | usb/UsbGadget.cpp:496-578 | links the whole plan and collects its endpoints exactly if each link can be made and what MTP, PTP and ADB need works; a beginning of each otherwise |
| `UsbGadgets.UsbGadget.EndpointsPresent` | usb/UsbGadget.cpp:100-109 | the loop says whether each endpoint of the list is there |
| `UsbGadgets.UsbGadget.MonitorFfs` | usb/UsbGadget.cpp:93-185 | for any results of epoll_wait: the monitor takes only steps of the protocol; its looks are the first one and one for each inotify event before the first order to stop, each write following one of them and ending as it is answered; it stops exactly if that order comes; the flags are raised exactly if a write succeeded |
| `UsbGadgets.FollowsExactly` | usb/UsbGadget.cpp:93-185 | what it means for a trace to follow looks: one record for each, in order, with what was there, and nothing else but at most one write right after each, ending as it was answered |
| `UsbGadgets.UsbGadget.Reset` | usb/UsbGadget.cpp:286-293 | success means the UDC node names no controller, an error leaves it; in any state of the protocol it is the step of the protocol |
| `UsbGadgets.UsbGadget.TearDownGadget` | usb/UsbGadget.cpp:243-284 | from the pull-down on, a run of the protocol to the torn-down state, or to an error, while the old monitor runs and others write the UDC node; it succeeds exactly if the four writes, the reading of the directory and every removal work |
| `UsbGadgets.UsbGadget.SetupFunctions` | usb/UsbGadget.cpp:485-632 | a run of the protocol; it succeeds exactly if everything the request needs works, and leaves the plan linked; the callback is told if and only if it succeeds |
| `UsbGadgets.UsbGadget.SetCurrentUsbFunctions` | usb/UsbGadget.cpp:634-685 | for any mask, a run of the protocol; it succeeds exactly if the teardown, the identifiers and everything the setup needs work, and leaves exactly the plan linked; the callback is told exactly once, the status of the request, but an error if the wait of a request with endpoints ends without the pull-up; a success with endpoints means the own monitor pulled up |
| `Uevents.UeventEvent` | usb/Usb.cpp:623-673 | for any bytes and any received length: the reactions are those of the strings of the message; an overlong message is discarded |
| `Uevents.Scan` | usb/Usb.cpp:636-672 | the pointer loop, given the n bytes and two terminators alone, so that it reads nothing past index n + 1, visits the strings up to the first empty one or the first typec string |
| `Uevents.StringsOfTerminated` | usb/Usb.cpp:638-672 | terminated strings come apart as they were put together, whatever follows an empty one |
| `Uevents.MessageOfStrings` | usb/Usb.cpp:638-672 | every message is its strings, then nothing or an empty string |
| `Uevents.ReactionsExactly` | usb/Usb.cpp:639-668 | one signal for each partner string before the first typec string, in order, then the ports once |
| `Uevents.PartnerAddedExactly` | usb/Usb.cpp:639 | a partner string is "add", anything without a line end, and "-partner" |
| `Uevents.TypeCExactly` | usb/Usb.cpp:645 | a typec string is one that begins with "DEVTYPE=typec_" |
| `Uevents.PortOfPartner` | usb/Usb.cpp:639 | the string that announces the partner of a port names that port |
| `TypecPorts.GetTypeCPortNames` | usb/Usb.cpp:412-438 | the loop yields the map of the listing, error if there is none |
| `TypecPorts.PermutationsAgree` | usb/Usb.cpp:412-438 | every permutation of the listing yields the same map |
| `TypecPorts.PortMapIgnoresOrder` | usb/Usb.cpp:412-438 | neither order nor repetition matters |
| `TypecPorts.ConnectedExactly` | usb/Usb.cpp:412-438 | for every listing, a port is connected exactly if its name is the first token between dashes of some partner entry, and listed as not connected exactly if it has an entry of its own and no such partner entry |
| `TypecPorts.EntriesExactly` | usb/Usb.cpp:418-429 | only links count; those whose names hold "-partner" are partner entries, the others ports |
| `TypecPorts.PartnerOfPort` | usb/Usb.cpp:421-429 | a partner entry leads to the port it is named after |
| `TypecPorts.ExtractRole` | usb/Usb.cpp:163-172 | with the wrap-around of size_t: what stands between the brackets, or after the opening one if the closing one comes first |
| `TypecPorts.BracketedIsSelected` | usb/Usb.cpp:163-172 | of a list of roles the one in brackets is taken |
| `TypecPorts.BracketedExactly` | usb/Usb.cpp:163-172 | whatever their order, what counts is the first opening and the first closing bracket: what stands between them, or all after the opening one if it comes second |
| `TypecPorts.NotBracketed` | usb/Usb.cpp:163-172 | a string without both brackets stays as it is |
| `TypecPorts.FirstLineIsRead` | usb/Usb.cpp:81-102 | what is read of a file is its first line, up to a NUL, whatever follows |
| `TypecStatus.GetCurrentRole` | usb/Usb.cpp:344-410 | succeeds exactly when the port is not connected or its role can be told, and yields that role |
| `TypecStatus.RolesExactly` | usb/Usb.cpp:385-407 | the bracketed word of the role file decides: source and host are 1, sink and device 2 as data roles; as a power role host reads 2 and device 1; none is 0 and any other word cannot be told |
| `TypecStatus.ModesExactly` | usb/Usb.cpp:364-407 | an audio accessory is 4, a debug accessory 8; otherwise the data role decides, host being 2 and device 1 |
| `TypecStatus.FillPort` | usb/Usb.cpp:466-533 | the entry of one port for each version, exactly when its roles can be told |
| `TypecStatus.ReportedFields` | usb/Usb.cpp:466-533 | each field of an entry, by version; a connected port without a data role shows 2, without a mode 1; roles can change exactly if it is connected and its partner file says yes |
| `TypecStatus.GetPortStatus` | usb/Usb.cpp:459-548 | succeeds exactly when the directory and every connected port can be read, and then reports each port once |
| `TypecStatus.ConnectedShows` | usb/Usb.cpp:484-505 | a connected port always has a data role and a mode; others have no role and can change none |
| `TypecStatus.ReportShowsPartners` | usb/Usb.cpp:459-548 | for every listing, in a successful report the ports with a data role, and those with a mode, are exactly those whose name is the first token of a partner entry |
| `RoleSwitch.StepKeepsInv` | usb/Usb.cpp:194-329 | every step of a switch, of the partners that come, and of the worker that matches their messages and later sets the flag keeps the locking invariant |
| `RoleSwitch.OutcomesAreSound` | usb/Usb.cpp:194-247 | in every interleaving a mode switch is reported as done only if the flag was set for some partner after its write and nobody set the port back, and as failed only after it was set back once |
| `RoleSwitch.WakesExactly` | usb/Usb.cpp:221-236 | a wait that wakes up in time ends the switch exactly if the flag was set after the write; one whose time is over fails in any case |
| `RoleSwitch.StaleSignalSucceeds` | usb/Usb.cpp:209-236 | a reachable success due to a partner that came before the write |
| `RoleSwitch.OtherPartnerSucceeds` | usb/Usb.cpp:639-644 | a reachable success due to the partner of another port |
| `RoleSwitch.OwnPartnerExactly` | usb/Usb.cpp:209-236 | success means that this port's partner came after the write, in every continuation, exactly if no message of a partner is pending when the role is written and no partner of another port comes |
| `RoleSwitch.SweepExcludesSwitch` | usb/Usb.cpp:649-666 | the worker never sets ports back while a switch is in progress |
| `UsbTypeC.Usb.HandleUevent` | usb/Usb.cpp:623-673 | what one message, next in line, does to the partner flag, the pending messages and the ports |
| `UsbTypeC.Usb.Sweep` | usb/Usb.cpp:650-666 | exactly the ports without a partner are set back, and none while a switch is in progress |
| `UsbTypeC.Usb.SetBacksExactly` | usb/Usb.cpp:650-666 | the ports set back are those of the listed statuses that are not among the partners, in order |
| `UsbTypeC.Usb.SwitchMode` | usb/Usb.cpp:194-247 | a run of the protocol to a decision, or still waiting: it fails if the role file cannot be opened or written, and otherwise is decided by the first wake-up that is due to the time-out, which fails it, or finds the partner flag set |
| `UsbTypeC.Usb.SwitchRole` | usb/Usb.cpp:274-329 | a switch that ends is reported once, with its outcome. A power or data role is done exactly if its file opens, takes the word of the role and reads back with that word in brackets; a mode as in switchMode, and done only if some partner was signalled after the write. What is written is the word of the role: source and sink, host and device, for a mode sink and source, else none. An unknown role type does nothing |
| `UsbTypeC.RoleNameRoundTrip` | usb/Usb.cpp:146-161 | power and data roles read back as what was written |
| `Fingerprints.FindAndRemove` | libinit/libinit_utils.cpp:46-48 | piece and rest, with nothing removed when the delimiter is missing |
| `Fingerprints.ParseOfFormat` | libinit/libinit_utils.cpp:59-66 | the seven removals give back the fields of every well-formed fingerprint |
| `Fingerprints.FormatExactly` | libinit/libinit_utils.cpp:54-66 | which is brand/product/device:version/id/number:variant/tags |
| `Fingerprints.FingerprintsExactly` | libinit/libinit_utils.cpp:46-66 | the fields put together again give the fingerprint exactly if each of the seven removals in turn finds its delimiter |
| `Fingerprints.NoDelimiter` | libinit/libinit_utils.cpp:46-48 | without delimiters every field is the whole string |
| `Fingerprints.FingerprintToDescription` | libinit/libinit_utils.cpp:54-75 | for every well-formed fingerprint: product, dash, variant, and then version, id, number and tags, each after a blank |
| `Fingerprints.SetRoBuildProp` | libinit/libinit_utils.cpp:22-44 | exactly the names of the sources get the value, all else stays |
| `Fingerprints.NamesExactly` | libinit/libinit_utils.cpp:22-40 | these are ro.product.SOURCEPROP, or ro.SOURCEbuild.PROP, for each of the eight sources |

## Left out

- Headers that are not part of the repository are not part of this model: the mask of the first byte (taken as 0xFF000000), the maximal backlog and the timeouts (parameters), the scoped wakelock (one increment by one when it is created while the threads run, one decrement by one with its creation time when it goes), `getSensorInfo` (a lookup with the defaults of a missing entry).
- Atomicity: the test of `mThreadsRun` and the locked body of the increment and decrement are one step; so are the reset and its own test of `mThreadsRun`, and the test of a wait with the test of the loop around it. Waking up and taking the mutex back are one step.
- SensorRuns.StopReturnsExactly: says when the joins return without spurious wake-ups of condition variables, which may end a wait that no notification ends, and with a wake lock queue and an event queue that answer in the end.
- SensorPipeline.StepKeepsInv: counts are unbounded, so the overflow of the 64-bit reference count and of the backlog size is not modelled.
- HalProxies.HalProxy.StopThreads: the read that drains the event queue and the wake-ups of the two queues' event flags are not modelled, what was written counts as written; it ends with the second notification, and whether the joins return is SensorRuns.StopReturnsExactly.
- HalProxies.HalProxy.InitializeCommon: begins when the threads are joined; sub-HALs are quiet meanwhile.
- HalProxies.HalProxy.HandlePendingWrites: runs for as many turns as it is given answers; the same for the other endless loops. The state machines have no such bound.
- HalProxies.HalProxy.Interference: other threads take whole atomic steps between the statements under a mutex; data races outside the locks are not modelled.
- The event and wake-lock queues, event flags, epoll, inotify and the files under /sys and /config: what they answer is a parameter, with writes that succeed as a whole or not at all.
- Scalars of events are real numbers, so a NaN scalar is not modelled.
- Direct-channel calls, debug dumps, library loading and service start-up: no state worth a property.
- UsbGadgets.UsbGadget.SetCurrentUsbFunctions: the table of vendor and product identifiers is a status given by the caller, as is the list of vendor functions; delays are left out, and so is the length of the wait, which may time out at any time; the write of the stop signal is taken to succeed, as the code goes on to the join either way.
- GadgetRuns.OldMonitorPublishes: takes for granted that removing the link of a function does not make the kernel take the gadget down; what the kernel does then is not in the repository.
- GadgetPlan.LinkAllExactly: functions, endpoints and link names are values of datatypes instead of paths, and the directory made for the rndis function is not modelled.
- UsbTypeC.Usb.SwitchMode: that a switch ends is not claimed, since each wake-up without a partner restarts the deadline.
- RoleSwitch.StepKeepsInv: opening a file, writing it and reading it back are answers; setting a port back counts as done when it is tried. A partner message is read by the worker as a whole; typec messages are not queued with the partner messages.
- TypecStatus.GetCurrentRole: the numbers of roles and modes are those of the USB interface, which is not part of the repository.
- Registering a callback and the start and end of the worker thread; contaminant detection; of the USB data signal only its write of the UDC node is modelled, as a step of GadgetProtocol.
- Fingerprints.SetRoBuildProp: limits on the length of property values are not modelled.
- The tables of the fingerprint service, memory thresholds, variants, power modes and audio: finite data or one-branch code.
