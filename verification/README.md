# Verified models of the libusb core, the EZ-USB loader, the Morse driver and the audio mixer

The project models the parts of the repository that are hardest to get right by reading, and proves what they
keep on every input, in every run or in every interleaving. Each module follows one source file or one
protocol; `dafny verify dfyconfig.toml` checks them all.

**Transfers in libusb (`io.c`).** `IntrusiveList` has the circular pointer lists of `libusbi.h`, `Deadlines` the
time arithmetic and what a queue ordered by deadline is, `TransferState` the flags of one transfer.
`FlyingList` runs the loops of `io.c` on the pointer list itself: several stop early because the list is
ordered, and each is proved to find what a look at the whole list would. `Teardown` completes or drops
the transfers of a device or handle that goes away. `Lifecycle` is a state machine whose actions are the
critical sections of submission, cancellation, timeout, completion and close; `LifecycleProofs` and
`LifecycleTimer` prove what holds after every run of it, `LifecycleReports` and `LifecycleRequests` what the user
is told, and `LifecycleScans` what a timeout scan achieves while others go on.

**Event handling (`io.c`, `core.c`).** `Events` has every critical section of the event data: pending-event
flags, the event that interrupts the handler, announced closes, messages and completed transfers. `Wakeup` is
the protocol of any number of threads that handle events, wait for the one that does, or close devices;
`WakeupProofs` shows that no wake-up is lost, that the lock excludes, and how soon sleepers are woken;
`WakeupDelivery`, what a round of event handling delivers, and who gets in and who waits.

**Descriptors (`descriptor.c`).** `Descriptors` has the loops of the configuration parser and the functions they
compute. `DescriptorProofs` sets a printer against them; `DescriptorRefusal` says which buffers are
refused, and `DescriptorLoss` for every accepted one whether anything passed over is missing from the result.

**Hotplug and reference counts (`hotplug.c`, `core.c`).** `Hotplug` walks the callbacks with the lock released
around each; `RefCounts` has every operation that takes or drops a reference to a device, `References` the theory
of counts that a device tree imposes. `Sequences` has two list functions that several modules share.

**The smaller programs.** `IntelHex` and `IntelHexImage` are the HEX loader of `ezusb.c`, `Morse` the LED driver,
`Mixer` the audio mixer.

## What fails

The following is shown, with the input, and with the exact condition where it goes wrong.

- The timer is not always at the least deadline waited for. `LifecycleProofs.WaitsWithoutTimer` is a run in which
  every timer call succeeds and a transfer ends up waiting with the timer off: it was submitted behind one that had
  timed out and was not yet completed. `LifecycleTimer.WholeListIff` says for each action exactly when it
  leaves the timer right: a submission behind the first place and ahead of the timer does not; nor does the
  end of the wait of the one transfer the timer was set for, unless the timer is set again with it.
- Splicing an empty list leaves the head pointing at the spliced one (`IntrusiveList.ListSpliceFront`); the one
  caller in `io.c` checks first.
- A descriptor cut off at the end of the buffer takes the class and vendor descriptors right before it down with it,
  and leaves an interface that declares endpoints with their number and without them
  (`DescriptorProofs.CutOffLosesExtra`, `DescriptorLoss.NothingLostIff`).
- Where fewer endpoints follow than an interface declares, the parser goes on with those there are; but a buffer that
  ends there is refused (`DescriptorProofs.RoundTrip`, `DescriptorRefusal.RefusedIff`).
- Handles of hotplug callbacks come round after 2147483647 registrations. From then on deregistering a handle can hit a
  newer callback; `Hotplug.HandleFinds` says exactly when.
- An empty data record that opens a chunk sends the data after it to its own address, as does an empty first
  record (`IntelHex.MeaningKeptIff`, `IntelHex.EmptyFirstRecordMisplaces`).
- A load in two stages writes external chunks first, so that where chunks overlap memory may not end up as the file
  has it (`IntelHexImage.SecondStageImageIff`, `IntelHexImage.OverlapClashes`).
- A text without a letter takes both scans of the Morse driver's `trim_spaces` out of its buffer
  (`Morse.StaysInsideIff`).
- The comment at io.c:1053-1055 says that waiting threads are also woken when a transfer completes. The code
  broadcasts only when the events lock is given back (io.c:1857), and the model follows the code.

## Model

| member | source | states |
|---|---|---|
| IntrusiveList.ListInit | work/crosscompile/libusb-1.0.26/libusb/libusbi.h:195-198 | the ring headed by the node is the empty list |
| IntrusiveList.ListAdd | work/crosscompile/libusb-1.0.26/libusb/libusbi.h:200-207 | the ring of `nodes` becomes that of the entry followed by `nodes`, in both directions, and only the four pointers the code writes may change |
| IntrusiveList.ListAddTail | work/crosscompile/libusb-1.0.26/libusb/libusbi.h:209-217 | inserting before the k-th node, or the head, puts the entry at position k and keeps the order of the rest |
| IntrusiveList.ListDel | work/crosscompile/libusb-1.0.26/libusb/libusbi.h:219-224 | the k-th node leaves, the rest keep their order, and the pointers of the node are cleared |
| IntrusiveList.ListCut | work/crosscompile/libusb-1.0.26/libusb/libusbi.h:226-239 | every entry moves to the other head in order, which need not be initialised, and the old head is left an empty list |
| IntrusiveList.ListSpliceFront | work/crosscompile/libusb-1.0.26/libusb/libusbi.h:241-247 | the ring of `head` becomes the spliced entries followed by its own if and only if the spliced list is not empty |
| Deadlines.AfterMeansLater | work/crosscompile/libusb-1.0.26/libusb/libusbi.h:272-275 | on normalised times the comparison macro is the order of the nanoseconds, and equal times are equal fields |
| Deadlines.Subtract | work/crosscompile/libusb-1.0.26/libusb/libusbi.h:276-284 | the difference has exactly the nanoseconds of the difference, and is normalised and set when the first time is later |
| Deadlines.CalculateTimeout | work/crosscompile/libusb-1.0.26/libusb/io.c:1241-1259 | the deadline is normalised, is set if and only if the limit is not 0, and is then exactly that many milliseconds from now |
| Deadlines.InsertionPointIsUnique | work/crosscompile/libusb-1.0.26/libusb/io.c:1422-1443 | a sorted list has one place only where a deadline can join: behind all due no later, ahead of all due later or never |
| Deadlines.InsertKeepsSorted | work/crosscompile/libusb-1.0.26/libusb/io.c:1398-1457 | insertion there keeps the list sorted, infinite deadlines last |
| Deadlines.LeastPendingIsUnique | work/crosscompile/libusb-1.0.26/libusb/io.c:1362-1386 | on a sorted list of normalised deadlines the least one still waited for is unique: the first, in list order, that is set and not handled |
| Deadlines.StopsAtLeast | work/crosscompile/libusb-1.0.26/libusb/io.c:2563-2611 | a scan that skips handled transfers and stops at the first other one has the least deadline waited for, or knows that there is none |
| Deadlines.LeastAfterInsert | work/crosscompile/libusb-1.0.26/libusb/io.c:1398-1457 | what one insertion does to the least deadline waited for, and that a deadline inserted in front is earlier than it |
| FlyingList.Transfer.CancelTransfer | work/crosscompile/libusb-1.0.26/libusb/io.c:1605-1636 | flags and result are those of the pure cancellation: the backend is asked only if the transfer is in flight and not yet being cancelled, and is not asked again whatever it answered |
| FlyingList.Transfer.TimeOut | work/crosscompile/libusb-1.0.26/libusb/io.c:2040-2053 | the transfer is marked as handled; if it was in flight and nobody was cancelling it, the backend has been asked once and it is marked as timed out if and only if the backend agreed; else nothing more happens to it |
| FlyingList.Context.FindPlace | work/crosscompile/libusb-1.0.26/libusb/io.c:1415-1443 | the early-exit search finds the one insertion point by deadline, and says whether it is the front |
| FlyingList.Context.AddToFlyingList | work/crosscompile/libusb-1.0.26/libusb/io.c:1398-1457 | the transfer joins the pointer list at that point, the timer is set to its deadline just when it is first and has one, and if that fails the list is as before |
| FlyingList.Context.RemoveFromFlyingList | work/crosscompile/libusb-1.0.26/libusb/io.c:1459-1474 | the k-th transfer leaves the pointer list; when it was first and had a deadline the timer is set to the least deadline of the whole list still waited for, else it is left alone |
| FlyingList.Context.ArmTimerForNextTimeout | work/crosscompile/libusb-1.0.26/libusb/io.c:1362-1386 | the scan stops early, yet the timer is set to the least deadline of the whole list still waited for, or disarmed if there is none |
| FlyingList.Context.HandleTimeoutsLocked | work/crosscompile/libusb-1.0.26/libusb/io.c:2055-2086 | the scan stops early, yet exactly the transfers due and not handled are timed out, each with one cancel request if it is in flight and nobody is cancelling it, and no other is touched |
| TransferState.HandleTimeoutTimesOut | work/crosscompile/libusb-1.0.26/libusb/io.c:2040-2053 | handle_timeout on the flags alone: handled always, and asked once and marked as timed out as above |
| FlyingList.Context.HandleTimerTrigger | work/crosscompile/libusb-1.0.26/libusb/io.c:2178-2193 | after the timeouts at `now`, the timer is at the least deadline still waited for, and that is after `now` |
| FlyingList.Context.GetNextTimeout | work/crosscompile/libusb-1.0.26/libusb/io.c:2563-2611 | 0 if a timer does it or nothing is waited for; else the time until the least deadline waited for, in whole microseconds, zero if it has come |
| FlyingList.Context.SubmitRefused | work/crosscompile/libusb-1.0.26/libusb/io.c:1490-1568 | a submission that the timer or the backend refuses leaves the list exactly as it was |
| Teardown.HandleDisconnect | work/crosscompile/libusb-1.0.26/libusb/io.c:2804-2853 | exactly the transfers in flight on the handle are completed as NO_DEVICE, each once and in list order, and the others stay in order, although every callback may cancel transfers and resubmit its own in vain |
| Teardown.DropTransfers | work/crosscompile/libusb-1.0.26/libusb/core.c:1387-1429 | everything listed for the handle is dropped and loses its handle, and the others stay in order |
| LifecycleProofs.NextInv | work/crosscompile/libusb-1.0.26/libusb/io.c:1490-1568 | every action of every interleaving of submission, cancellation, timeout, completion and close keeps the invariant of the transfers |
| LifecycleProofs.AlwaysSorted | work/crosscompile/libusb-1.0.26/libusb/io.c:1398-1457 | in every reachable state the list holds exactly the listed transfers, each once, by deadline, ties in the order of submission |
| LifecycleProofs.TimerFollowsHead | work/crosscompile/libusb-1.0.26/libusb/io.c:1445-1474 | in every run in which the timer calls succeed and no handle is closed under flying transfers, the timer is at the deadline of the first transfer if that waits for it |
| LifecycleProofs.FirstCancellerDecides | work/crosscompile/libusb-1.0.26/libusb/io.c:1605-1747 | in every run the backend is asked at most once per submission to cancel; a cancelled transfer is TIMED_OUT if and only if a timeout scan got that accepted after the deadline, CANCELLED if and only if the user did |
| LifecycleRequests.FirstRequestDecides | work/crosscompile/libusb-1.0.26/libusb/io.c:1605-1747 | in every run a completion says cancelled only if the first cancel request since the submission was accepted, and it is TIMED_OUT if a scan made that request, CANCELLED if the user did |
| LifecycleReports.ReportsAreTold | work/crosscompile/libusb-1.0.26/libusb/io.c:1683-1747 | in every run each completion is reported once, in order, with the status with which the transfer was last reaped, or as cancelled if that was a cancellation; accepted submissions are those reported and those still outstanding or closed |
| LifecycleScans.ScanTimesOut | work/crosscompile/libusb-1.0.26/libusb/io.c:2040-2053 | choosing, cancelling and marking in three critical sections is handle_timeout |
| LifecycleScans.ScanLeavesNoneLate | work/crosscompile/libusb-1.0.26/libusb/io.c:2055-2086 | in every run, whatever happens between its steps, a scan that may end has left no transfer unhandled that was due when it began |
| LifecycleScans.ScanGoesOn | work/crosscompile/libusb-1.0.26/libusb/io.c:2055-2086 | in every reachable state a scan can go on in exactly one way, or waits for a transfer that is being submitted |
| LifecycleProofs.TriggerRearms | work/crosscompile/libusb-1.0.26/libusb/io.c:2178-2193 | in every reachable state the end of a timer-triggered scan sets the timer to the least deadline waited for |
| LifecycleProofs.RemovalRearms | work/crosscompile/libusb-1.0.26/libusb/io.c:1459-1474 | in every reachable state taking the first transfer off, when it had a deadline, does the same |
| LifecycleProofs.SubmitKeepsTimerIff | work/crosscompile/libusb-1.0.26/libusb/io.c:1398-1457 | a submission keeps the timer at the least deadline waited for if and only if the new transfer has no deadline, comes first, or is due no sooner than the timer |
| LifecycleTimer.WholeListIff | work/crosscompile/libusb-1.0.26/libusb/io.c:1362-1474 | for every action whose timer calls succeed: once the timer is at the least deadline waited for, the action keeps it there if and only if a submission has no deadline, comes first or is due no sooner than the timer, and what ends the wait of a transfer is not that of the only one the timer is set for, save the removal of the first in the list |
| LifecycleProofs.WaitsWithoutTimer | work/crosscompile/libusb-1.0.26/libusb/io.c:1398-1457 | a run, every timer call of which succeeds, after which a transfer waits for its deadline with the timer off |
| Events.RaiseKeepsAgreement | work/crosscompile/libusb-1.0.26/libusb/io.c:1752-1768 | raising any event, posting, completing, announcing or withdrawing a close keeps the event signalled exactly while a flag is pending and the flags in agreement with what they announce |
| Events.HandlerKeepsAgreement | work/crosscompile/libusb-1.0.26/libusb/io.c:2096-2176 | so do the critical sections of the event handler |
| Events.EventContext.HandleEventTrigger | work/crosscompile/libusb-1.0.26/libusb/io.c:2096-2176 | what was signalled before is handed over in that order, all of it unless the backend fails, and on failure the rest goes back in front of what was signalled meanwhile |
| Events.EventContext.Close | work/crosscompile/libusb-1.0.26/libusb/core.c:1452-1505 | a close loses no completed transfer, and while it is announced the event stays signalled |
| WakeupProofs.NextInv | work/crosscompile/libusb-1.0.26/libusb/io.c:2339-2402 | every step of any number of threads keeps the invariant of the locks, the announced closes, the sleepers and the queues |
| WakeupProofs.NoLostWakeup | work/crosscompile/libusb-1.0.26/libusb/io.c:2339-2402 | in every interleaving, whenever a thread is asleep another one has a broadcast ahead of it |
| WakeupProofs.MutualExclusion | work/crosscompile/libusb-1.0.26/libusb/io.c:1789-1859 | in every interleaving at most one thread is in handle_events or do_close |
| WakeupProofs.FlagsTellTheTruth | work/crosscompile/libusb-1.0.26/libusb/io.c:2096-2176 | in every reachable state the event is signalled if and only if a flag is set, and the flags for closes, messages and completed transfers are set if and only if there are some, a drain in progress counting as such |
| WakeupProofs.DeliveredInOrder | work/crosscompile/libusb-1.0.26/libusb/io.c:2096-2176 | in every run the backend gets the completed transfers and the dispatcher the messages in the order they were signalled, each once, none left out |
| WakeupDelivery.WaitDelivers | work/crosscompile/libusb-1.0.26/libusb/io.c:2198-2282 | in every interleaving, from the return of the wait for events to the end of the round, a handler that meets no error hands over every transfer signalled and delivers every message posted before the wait returned |
| WakeupDelivery.RoundQuiets | work/crosscompile/libusb-1.0.26/libusb/io.c:2198-2282 | a whole such round leaves the event quiet, if nothing is raised and no close announced meanwhile |
| WakeupDelivery.WaitsOnNewSources | work/crosscompile/libusb-1.0.26/libusb/io.c:2212-2236 | a handler waits only with the event sources there are; when they cannot be had it does not wait and the event stays signalled |
| WakeupDelivery.FreeLockIsTaken | work/crosscompile/libusb-1.0.26/libusb/io.c:1789-1830 | a thread that finds the events lock free and no close announced comes to handle events |
| WakeupDelivery.BusyLockIsAwaited | work/crosscompile/libusb-1.0.26/libusb/io.c:2339-2402 | one that finds it taken falls asleep on the condition, and when its time is over leaves everything as it was |
| WakeupDelivery.CloseIsAwaited | work/crosscompile/libusb-1.0.26/libusb/io.c:1911-1928 | so does one that comes while a close is announced, whoever holds the lock |
| WakeupDelivery.CloseKeepsOut | work/crosscompile/libusb-1.0.26/libusb/io.c:1789-1830 | in every interleaving, while a close is announced no thread that has yet to look at device_close gets to handle events |
| WakeupProofs.HolderWakesAll | work/crosscompile/libusb-1.0.26/libusb/io.c:1847-1859 | in every run from every reachable state: once the holder of the events lock has taken more steps than it had left, plus one per transfer signalled meanwhile, it has broadcast and every thread has been awake |
| WakeupProofs.SleeperCanBeWoken | work/crosscompile/libusb-1.0.26/libusb/io.c:2019-2038 | from every state of the invariant, a bounded number of steps of the other threads wakes a sleeper, with no timeout and nobody new entering |
| Descriptors.SkipDescriptors | work/crosscompile/libusb-1.0.26/libusb/descriptor.c:118-146 | the loop over class and vendor descriptors computes the recursive definition, from any position in the buffer |
| Descriptors.ParseEndpointsAt | work/crosscompile/libusb-1.0.26/libusb/descriptor.c:294-318 | the loop over endpoints computes the recursive parser, stopping where it stops |
| Descriptors.ParseInterfaceAt | work/crosscompile/libusb-1.0.26/libusb/descriptor.c:191-332 | the loop over alternate settings does so too |
| Descriptors.ParseConfigurationBuffer | work/crosscompile/libusb-1.0.26/libusb/descriptor.c:347-456 | and the whole parser: result, error and bytes used are those of the recursive definition for every buffer |
| DescriptorProofs.RoundTrip | work/crosscompile/libusb-1.0.26/libusb/descriptor.c:347-456 | for every well-formed configuration: parsing its printed form gives it back, with no byte left, if and only if it does not end where an endpoint is owed, and is refused otherwise |
| DescriptorProofs.NothingLost | work/crosscompile/libusb-1.0.26/libusb/descriptor.c:347-456 | when the parse ends without loss, printing its result gives back every byte it used, skipped descriptors included |
| DescriptorProofs.ParserInvertsPrinter | work/crosscompile/libusb-1.0.26/libusb/descriptor.c:347-456 | a buffer parses in full and without loss to a configuration if and only if that is well-formed, does not end where an endpoint is owed, and the buffer is its printed form |
| DescriptorLoss.NothingLostIff | work/crosscompile/libusb-1.0.26/libusb/descriptor.c:251-318 | an accepted buffer comes back in full from the result if and only if what was used does not end, at a cut-off descriptor, in a class or vendor descriptor or an interface that declares endpoints |
| DescriptorProofs.TiledIsLossless | work/crosscompile/libusb-1.0.26/libusb/descriptor.c:347-456 | a buffer of whole descriptors is refused or parsed without loss |
| DescriptorRefusal.RefusedIff | work/crosscompile/libusb-1.0.26/libusb/descriptor.c:347-456 | a buffer is refused if and only if its header is bad or the parser comes, descriptor by descriptor, upon one shorter than its kind allows, an interface with more than 32 endpoints, or the end where an endpoint is owed |
| DescriptorRefusal.FewerAreAccepted | work/crosscompile/libusb-1.0.26/libusb/descriptor.c:439-449 | a buffer that declares two interfaces and holds one is accepted with one |
| DescriptorRefusal.StopsAtTheEnd | work/crosscompile/libusb-1.0.26/libusb/descriptor.c:394-449 | the parser stops where no class or vendor descriptor can be passed over any more, and with fewer interfaces than declared only where no other begins |
| DescriptorProofs.CutOffLosesExtra | work/crosscompile/libusb-1.0.26/libusb/descriptor.c:394-408 | an accepted buffer whose vendor descriptor is lost because the next one is cut off |
| Hotplug.HotplugContext.Register | work/crosscompile/libusb-1.0.26/libusb/hotplug.c:323-385 | the new callback is in front, its handle is the next one, the handles go on from there, and it matches exactly the messages that its events and filters admit |
| Hotplug.HotplugContext.Deregister | work/crosscompile/libusb-1.0.26/libusb/hotplug.c:407-430 | the first callback with the handle, if any, is flagged, and nothing else changes; it is the one the handle was given out for if and only if no newer one on the list has come round to the same handle |
| Hotplug.HandleFinds | work/crosscompile/libusb-1.0.26/libusb/hotplug.c:369-375 | on a list of numbered callbacks a handle finds its own if and only if it has no namesake there, and always before the handles have come round |
| Hotplug.HotplugContext.Dispatch | work/crosscompile/libusb-1.0.26/libusb/hotplug.c:282-303 | one message is offered in list order to exactly the callbacks that match and are not found flagged, whatever is registered or flagged while the lock is free |
| Hotplug.HotplugContext.Process | work/crosscompile/libusb-1.0.26/libusb/hotplug.c:274-321 | all messages are dispatched in order, the departed devices are released in order, and then exactly the flagged callbacks leave the list |
| Hotplug.OnListIff | work/crosscompile/libusb-1.0.26/libusb/hotplug.c:282-321 | a callback is on the list at a pass if and only if it was not removed in an earlier one |
| Hotplug.CalledIff | work/crosscompile/libusb-1.0.26/libusb/hotplug.c:274-321 | a callback is called for a message if and only if it matches, was never removed and is not found flagged; once flagged before a pass it is never called again |
| References.AliveIff | work/crosscompile/libusb-1.0.26/libusb/core.c:1165-1205 | a device is alive if and only if it or a device below it is referred to from outside the device tree |
| References.ReferencesDecide | work/crosscompile/libusb-1.0.26/libusb/core.c:1165-1205 | the references from outside determine the set of live devices and every count |
| RefCounts.Context.Ref | work/crosscompile/libusb-1.0.26/libusb/core.c:1165-1174 | one more reference, every count in step with the references |
| RefCounts.Context.Unref | work/crosscompile/libusb-1.0.26/libusb/core.c:1180-1205 | one reference less; the devices destroyed are a chain of parents ending at the device, all with count 0, none if the count was above 1 |
| RefCounts.Context.Alloc | work/crosscompile/libusb-1.0.26/libusb/core.c:704-723 | a new device with one reference, which holds one to its parent |
| RefCounts.Context.Connect | work/crosscompile/libusb-1.0.26/libusb/core.c:725-736 | the device list takes over the reference of the backend |
| RefCounts.Context.Disconnect | work/crosscompile/libusb-1.0.26/libusb/core.c:738-749 | the message that the device left takes over the reference of the list |
| RefCounts.Context.MessageDelivered | work/crosscompile/libusb-1.0.26/libusb/hotplug.c:296-303 | delivering the message drops that reference, and destroys something if and only if it was the last |
| RefCounts.Context.Append | work/crosscompile/libusb-1.0.26/libusb/core.c:668-701 | the collection grows by one reference, or is let go of entirely |
| RefCounts.Context.GetDeviceList | work/crosscompile/libusb-1.0.26/libusb/core.c:816-876 | what is left on every path is one reference per device returned, and on failure none; with hotplug support the list is that of the context |
| RefCounts.Context.FreeDeviceList | work/crosscompile/libusb-1.0.26/libusb/core.c:886-900 | exactly the references of the list are dropped, if asked |
| RefCounts.Context.Open | work/crosscompile/libusb-1.0.26/libusb/core.c:1297-1333 | a handle with one reference, or nothing changed, and nothing is opened on a detached device |
| RefCounts.Context.Close | work/crosscompile/libusb-1.0.26/libusb/core.c:1431-1439 | the reference taken by opening is dropped |
| RefCounts.Context.SubmitRef | work/crosscompile/libusb-1.0.26/libusb/io.c:1497-1500 | the transfer refers to the device of its handle instead of that of its last submission, and the device lives on even when they are the same |
| RefCounts.Context.FreeTransfer | work/crosscompile/libusb-1.0.26/libusb/io.c:1332-1354 | the reference of the last submission is dropped |
| RefCounts.Context.ListAndFree | work/crosscompile/libusb-1.0.26/libusb/core.c:816-900 | listing and freeing leaves every count as it was, whether listing succeeds or not |
| RefCounts.Context.OpenAndClose | work/crosscompile/libusb-1.0.26/libusb/core.c:1297-1505 | so does opening and closing |
| RefCounts.Context.SubmitAndFree | work/crosscompile/libusb-1.0.26/libusb/io.c:1332-1500 | and submitting a new transfer and freeing it |
| RefCounts.Context.OpenFirst | work/crosscompile/libusb-1.0.26/libusb/core.c:1352-1385 | the handle opened is of the first wanted device of the list made, there is one if and only if the list was obtained, holds a wanted device and opening that succeeded, and only its reference is left of the list |
| IntelHex.MeaningKeptIff | work/crosscompile/libusb-1.0.26/examples/ezusb.c:296-381 | for all records, the merged chunks write each byte where its record says, in order, if and only if no empty record that opens a chunk is followed by data for another place |
| IntelHex.NoEmptyRecords | work/crosscompile/libusb-1.0.26/examples/ezusb.c:296-381 | a file without empty data records always keeps its meaning |
| IntelHex.EmptyFirstRecordMisplaces | work/crosscompile/libusb-1.0.26/examples/ezusb.c:313-317 | a file whose first record is empty writes its data to the wrong address |
| IntelHex.AllChunkSizes | work/crosscompile/libusb-1.0.26/examples/ezusb.c:340-366 | every chunk has at least one byte and at most what the merge buffer holds |
| IntelHex.ExternalIff | work/crosscompile/libusb-1.0.26/examples/ezusb.c:56-107 | a chunk is external if and only if one of its bytes is outside on-chip memory |
| IntelHex.RamPokeContext.ParseIhex | work/crosscompile/libusb-1.0.26/examples/ezusb.c:250-382 | the loop pokes the chunks of the file in order up to the first failing one, and its status is that of the first line that is wrong |
| IntelHex.FirstBadLine | work/crosscompile/libusb-1.0.26/examples/ezusb.c:250-336 | the status is that of the first line that is neither a comment nor a good data record, and the records are those of the lines before it |
| IntelHex.RamPokeContext.LoadRam | work/crosscompile/libusb-1.0.26/examples/ezusb.c:728-841 | a load succeeds if and only if the file is good, no chunk is refused and no transfer fails; what reaches the device is on every path a beginning, and on success all, of: on-chip memory with the CPU stopped, in the second stage after external memory, and the reset |
| IntelHex.EachInOnePass | work/crosscompile/libusb-1.0.26/examples/ezusb.c:513-570 | the two passes of a second-stage load write every chunk once, external ones in the first, the others in the second |
| IntelHex.FirstStageMeaning | work/crosscompile/libusb-1.0.26/examples/ezusb.c:773-803 | a load in one stage writes what the file means if and only if no empty record misleads the merger |
| IntelHex.SecondStageMeaning | work/crosscompile/libusb-1.0.26/examples/ezusb.c:786-827 | a load in two stages then writes the same bytes to the same places |
| IntelHexImage.SecondStageImageIff | work/crosscompile/libusb-1.0.26/examples/ezusb.c:786-827 | and it leaves the memory that the file means, the last byte for an address winning, if and only if nowhere an on-chip chunk and a later, external one that ends up written before it differ |
| IntelHexImage.OverlapClashes | work/crosscompile/libusb-1.0.26/examples/ezusb.c:786-827 | two overlapping records for which they differ |
| Morse.TableIsMorse | work/morsecode/morsedriver.c:19-46 | each word of the table spells the International Morse code of its letter and keys it with the standard timing |
| Morse.TransmissionDecodes | work/morsecode/morsedriver.c:160-227 | for every text with a letter, decoding what is queued by the Morse tree gives the text in normal form |
| Morse.SignalDecodes | work/morsecode/morsedriver.c:81-227 | so can the LED alone be decoded, by the lengths of its pulses and pauses |
| Morse.NormalIsTidy | work/morsecode/morsedriver.c:160-227 | that normal form is the letters of the text in upper case, with one blank between two that have blanks between them |
| Morse.StaysInsideIff | work/morsecode/morsedriver.c:138-159 | the scans of trim_spaces stay inside the buffer if and only if the text has a letter |
| Morse.Driver.TrimSpaces | work/morsecode/morsedriver.c:138-159 | the range found runs from the first letter to the last |
| Morse.Driver.FlashLeds | work/morsecode/morsedriver.c:81-116 | as many symbols of the word are queued as fit, and with room for all the LED shows exactly its signal |
| Morse.Driver.MyWrite | work/morsecode/morsedriver.c:160-227 | the queue gains the transmission of the text, cut where it is full; the length is returned if and only if it all fits, and then the LED has keyed it with the pauses for letters and words |
| Mixer.Mixer.QueueSound | work/pcmExample/audiomixer.c:169-187 | the sound takes the first free slot, from its beginning, and no other slot changes; -1 is returned if and only if all are taken |
| Mixer.Mixer.FillPlaybackBuffer | work/pcmExample/audiomixer.c:312-346 | slots and output are those of the definition by slot, and the count stays that of the slots taken |
| Mixer.Clip | work/pcmExample/audiomixer.c:302-307 | a sample in range is kept; one out of range becomes the value one inside the limit |
| Mixer.AllReachedIff | work/pcmExample/audiomixer.c:312-346 | every sounding slot gets its turn if and only if the buffer size covers those before the last one |
| Mixer.PlainSum | work/pcmExample/audiomixer.c:312-346 | while no partial sum leaves the range, the output is the plain sum of the sounds |
| Mixer.ClippedSum | work/pcmExample/audiomixer.c:302-346 | a sum that leaves the range at a slot becomes the value one inside the limit passed, whatever came before, and later sounds add up from there while the range is not left again |
| Mixer.FirstClip | work/pcmExample/audiomixer.c:302-346 | so the first time that the plain sum leaves the range |
| Mixer.PlaysOn | work/pcmExample/audiomixer.c:312-346 | over any run, a sound that is not finished has been heard from its position on, without gap or repetition |
| Mixer.PlaysOut | work/pcmExample/audiomixer.c:312-346 | over any run, with the fill that reaches its end, a sound has been heard whole, once, and its slot is free |

## Left out

- The backends, the clock, the OS timer and the wait for events: what they answer, and when, is left open.
- What a round of event handling does besides the event data (the timer, the backend's own event handling) and what a close does under the events lock: in `Wakeup` these are steps without effect. `FlyingList.Context.HandleTimerTrigger` and `Teardown.DropTransfers` model the parts in io.c and core.c.
- Callbacks that handle events themselves, and callbacks that submit transfers the backend accepts while a device is being disconnected; completions that arrive during the submit call of a synchronous backend.
- The SHORT_NOT_OK and FREE_TRANSFER flags of a transfer, stream identifiers, and the data and lengths transferred.
- Races on the plain reads and writes of `timeout_flags`, `event_handler_active` and `device_close`: each access is one atomic step of a sequentially consistent memory.
- libusb_close over several transfers at once: `Lifecycle` drops them one by one, `Teardown` all in one walk.
- `device_close` is a counter without wrap-around, and so are reference counts and addresses; handles of hotplug callbacks do wrap, as in the source.
- Memory allocation failures other than those that `RefCounts`, `Events.PrepareSources` and the timer calls leave open.
- libusb_init, libusb_exit, hotplug_ready, option and log handling, and the poll descriptors.
- Parameter checks of libusb_hotplug_register_callback and its ENUMERATE flag.
- The parent of a device is set once, before the device is used; session identifiers and the lookup by them are a choice of the backend.
- Descriptors other than configuration, interface and endpoint descriptors, string descriptors, and reading descriptors from a device.
- The text of HEX lines: a line comes as a comment, a wrong line or a record. Its fields are taken to be hexadecimal digits; strtoul would also take a sign, and a length of "-1" would wrap past the test at ezusb.c:345.
- IIC, BIX and FX3 images, and EEPROM. The retry loop of ram_poke never repeats, because ezusb_write returns 0 or -1 only; the model sends a chunk at most once.
- Several readers or writers of the Morse queue at a time, and a failing copy_from_user.
- Wave data freed while queued, sounds queued from another thread during a fill, reading WAVE files, and volume, tempo and beat modes.
- Mixer.PlaysOn: supposes that every sounding slot gets its turn in each fill; `Mixer.AllReachedIff` says exactly when that is so.
- WakeupDelivery.WaitDelivers: supposes that the backend reports no error; `Events.EventContext.HandleEventTrigger` says what happens to the rest when it does, and `WakeupProofs.DeliveredInOrder` holds regardless.
- WakeupProofs.SleeperCanBeWoken: shows that some run wakes the sleeper; `WakeupProofs.HolderWakesAll` is the statement about all runs, and supposes that the wait for events of the holder returns.
