# IOManager, modelled and proved in Dafny

IOManager runs reactors (threads with an event loop and a few fibers), passes messages between them, and submits drive I/O
through io_uring, SPDK or plain system calls. This project models its concurrent and stateful core. Each part has a state
machine whose steps are the source's atomic actions, an invariant that every step keeps, theorems about every run, and a
class with the source's fields and loops whose methods are proved against the steps.

| file | part |
|---|---|
| `DriveIocb.dfy` | scatter lists and resuming after a short read |
| `UringChannel.dfy`, `UringOrder.dfy`, `UringDrive.dfy` | the io_uring channel: conservation, retry budget and order, the object itself |
| `SpdkRequests.dfy`, `SpdkWatchdog.dfy` | the life of an SPDK request; the same under the watchdog |
| `WriteZero.dfy`, `Watchdog.dfy` | zeroing a range; the I/O watchdog |
| `Mailbox.dfy`, `FiberChannel.dfy`, `MessageFlow.dfy`, `Multicast.dfy`, `MulticastWait.dfy`, `WaitShortcut.dfy`, `WaitCycles.dfy`, `WaitDeadlocks.dfy`, `MulticastCall.dfy` | messages: wake-up protocol, fiber queues, end to end, targets and ownership, waiting over all reactors, what the same-thread shortcut gives, which waits end, two that do not, the waiting call |
| `SharedMutex.dfy` | the readers-writer lock of fibers |
| `GlobalTimer.dfy`, `OneShotTimer.dfy`, `TimerWakeup.dfy` | SPDK global timers; epoll one-shot timers and what wakes them |
| `DeviceBarrier.dfy`, `Lifecycle.dfy` | adding and removing devices; starting and stopping |
| `Counting.dfy`, `Options.dfy` | helpers |

Where a step keeps its own records, a theorem ties them to the events of the run, so that what is promised does not rest on the
records alone.

Threads interleave freely at the granularity of one shared access, one critical section or one system call. The kernel, SPDK,
the clock, random picks and other threads are parameters or oracle sequences, so a theorem holds for whatever they answer.
"Every schedule is finite and ends with everything served" stands for liveness: a ranking falls with every step that finishes
begun work, and no such step is possible only when nothing is left.

Rows that begin with "Finding" state where the code does not meet a comment, an assertion or an obvious expectation; each
comes with the exact condition under which it does, and with an input or reachable state for which it does not. The code is modelled as it
is, not as its comments describe it. The main ones:

- The io_uring error-retry branch re-queues a request without lowering the in-flight counter; 257 such retries stop the channel.
- All one-shot timers of a thread share one timer fd that each schedule overwrites, so a shorter timer can strand a longer one.
- Requests submitted by the continuation of a completion are admitted before the wait queue is served, which can starve it.
- A message from a reactor's fiber to the reactor's own main fiber is put in a queue nobody reads.
- Fibers that wait for messages to each other's reactors can wait in a circle for ever.
- A global timer's callback can run after its cancel.
- Overlapping removals can close a device twice, and a waiting removal after a non-waiting add can make a later removal close it while reactors still have it.

Run `dafny verify dfyconfig.toml` to check the project.

## Model

| member | source | states |
|---|---|---|
| `DriveIocb.DropIsSuffix` | src/lib/interfaces/drive_iocb.cpp:57-89 | A scatter list without its first n bytes describes exactly the original buffer addresses from the n-th on, in order. |
| `DriveIocb.ResumeSplitsTransfers` | src/lib/interfaces/drive_iocb.cpp:50-94 | One short result: the pairs (buffer byte, disk byte) already exchanged and those of the resumed request are the two halves of the old request, and the resumed request is well sized again. |
| `DriveIocb.PartialReadsPreserveTransfers` | src/lib/interfaces/uring_drive_interface.cpp:485-500 | Whatever sequence of short results the kernel gives, every pair of the original request is transferred exactly once, in order, and nothing else is. |
| `DriveIocb.ResumeNeedsExactSize` | src/lib/interfaces/drive_iocb.cpp:50-94 | Finding: with buffers that do not overlap, a resumed read fills exactly the bytes still missing if and only if the caller passed a size equal to the sum of the entries; a longer list passes the debug assertion. |
| `DriveIocb.LongerListReadsWrongBytes` | src/lib/interfaces/drive_iocb.cpp:71 | Finding: one such list, where a byte asked for is skipped and one not asked for is written. |
| `DriveIocb.OverlapHidesWrongStart` | src/lib/interfaces/drive_iocb.cpp:50-94 | With overlapping entries a wrong start can fill the right byte, so the condition on the buffers is needed. |
| `DriveIocb.ScanFindsDrop` | src/lib/interfaces/drive_iocb.cpp:57-69 | Where the backward scan stops, the rest of that entry and the later entries are exactly the list without its filled front part. |
| `DriveIocb.Iocb.constructor` | src/lib/interfaces/drive_iocb.cpp:20-29 | A new control block has no entries, the given size and offset, and no result yet. |
| `DriveIocb.Iocb.SetIovs` | src/lib/interfaces/drive_iocb.cpp:31-35 | Afterwards the block holds exactly the given list; a new heap array appears if and only if more than four entries are given. |
| `DriveIocb.Iocb.CountUnset` | src/lib/interfaces/drive_iocb.cpp:54-69 | The backward loop finds the one entry whose suffix reaches the missing bytes while the next suffix does not, and how much of it is missing. |
| `DriveIocb.Iocb.CopyUnset` | src/lib/interfaces/drive_iocb.cpp:73-89 | The scratch list is the missing rest of that entry followed by the untouched entries. |
| `DriveIocb.Iocb.UnsetIovs` | src/lib/interfaces/drive_iocb.cpp:53-89 | Scan and copy together yield the list without the bytes already filled. |
| `DriveIocb.Iocb.UpdateIovsOnPartialResult` | src/lib/interfaces/drive_iocb.cpp:50-94 | The in-place surgery turns the request into the resumption that the transfer theorems are about. |
| `UringChannel.SubmitIosKeeps` | src/lib/interfaces/uring_drive_interface.cpp:84-95 | A submit moves a front part of the ring to the kernel: nothing is lost, prepared plus in-flight is unchanged. |
| `UringChannel.SubmitIfNeededKeeps` | src/lib/interfaces/uring_drive_interface.cpp:97-101 | Preparing one entry, submitted or batched, keeps conservation and counters and uses up exactly one unit of depth. |
| `UringChannel.DrainKeeps` | src/lib/interfaces/uring_drive_interface.cpp:134-147 | Draining keeps conservation and counters and ends only with an empty wait queue or a ring as full as it may get. |
| `UringChannel.AcceptKeeps` | src/lib/interfaces/uring_drive_interface.cpp:68-82 | A new request ends in exactly one place whichever of the three branches takes it, and waits only behind a full ring. |
| `UringChannel.DispatchKeepsLedger` | src/lib/interfaces/uring_drive_interface.cpp:478-514 | Each completion branch keeps in-flight equal to what the kernel holds plus one for every error retry so far. |
| `UringChannel.DispatchConserves` | src/lib/interfaces/uring_drive_interface.cpp:478-514 | Before the drain the completed request is done or waiting, and every other request is where it was. |
| `UringChannel.DispatchKeepsData` | src/lib/interfaces/uring_drive_interface.cpp:479-500 | What was transferred and what each live control block still asks for make up the original request. |
| `UringChannel.CallKeeps` | src/lib/interfaces/uring_drive_interface.cpp:214-221 | A submission or batch submit keeps conservation, counters and data also between a completion and its drain, when the wait queue has not been served yet. |
| `UringChannel.NestedKeeps` | src/lib/interfaces/uring_drive_interface.cpp:526-529 | So does everything a continuation does there. |
| `UringChannel.StepKeepsInv` | src/lib/interfaces/uring_drive_interface.cpp:453-517 | Every submit, batch submit and completion, with whatever the continuation of a fulfilled promise submits before the drain, keeps the whole invariant (conservation, counters, occupancy, data). |
| `UringChannel.RunsKeepInv` | src/lib/interfaces/uring_drive_interface.cpp:453-544 | The invariant holds over every run, submissions from continuations included; fulfilled promises keep their result and new ones are only appended. |
| `UringChannel.EachRequestInOnePlace` | src/lib/interfaces/uring_drive_interface.hpp:52-59 | In every reachable state each accepted request is in exactly one of wait queue, ring, kernel and done, once. |
| `UringChannel.SuccessMovedEverything` | src/lib/interfaces/uring_drive_interface.cpp:479-500 | A request reported as a success has had every byte of the original request transferred exactly once and in order. |
| `UringChannel.CountersBounded` | src/lib/interfaces/uring_drive_interface.hpp:56-59 | The unsigned counters never go below zero; kernel plus ring stay within 257; a waiting request means at least 256 are counted. |
| `UringChannel.IdleMeansAllDone` | src/lib/interfaces/uring_drive_interface.cpp:134-147 | With at most 256 error retries behind it, an idle channel has fulfilled every promise and has an empty wait queue. |
| `UringChannel.BatchSubmits` | src/lib/interfaces/uring_drive_interface.cpp:443 | On a reachable channel submit_batch hands a front part of the ring, at least one entry, to the kernel and changes nothing else of the requests. |
| `UringChannel.BatchesEmptyRing` | src/lib/interfaces/uring_drive_interface.cpp:84-95 | As many batch submits as there are batched entries put all of them into the kernel, however few it takes at a time. |
| `UringChannel.EveryAnswerCovered` | src/lib/interfaces/uring_drive_interface.cpp:86-93 | The kernel may take any number of prepared entries from one to all. |
| `UringChannel.AcceptEffect` | src/lib/interfaces/uring_drive_interface.cpp:68-101 | Which of the three branches takes a new request, by load and ring, and what each does to queue, ring and kernel. |
| `UringChannel.SubmittedIsServed` | src/lib/interfaces/uring_drive_interface.cpp:453-544 | From the events alone: every request handed over in a run, by callers or continuations, is in exactly one place, and if reported as a success every byte of what was handed over has been transferred once and in order. |
| `UringChannel.StrandedIffLeaked` | src/lib/interfaces/uring_drive_interface.cpp:501-513 | Finding: a waiting request has nothing left that could wake it if and only if 257 completions went through the error-retry branch, which never lowers m_in_flight_ios. |
| `UringChannel.LeakedIsForever` | src/lib/interfaces/uring_drive_interface.cpp:501-513 | Finding: after that no run ever completes another request. |
| `UringChannel.EagainStrandsChannel` | src/lib/interfaces/uring_drive_interface.cpp:504-512 | Finding: any one request answered EAGAIN 257 times brings the channel there. |
| `UringChannel.OneAboveQueueDepth` | src/lib/interfaces/uring_drive_interface.hpp:73-81 | Finding, against the comment that the check keeps the completion queue from overflowing when both queues are of equal size: the kernel can hold 257 requests. |
| `UringChannel.SubmitAboveDepthIff` | src/lib/interfaces/uring_drive_interface.cpp:130-132 | A submission takes a channel within its depth above it if and only if the load was exactly 256 and the ring had room, and ring and kernel then hold more than 256 requests if and only if no error retry has been counted either. |
| `UringChannel.DrainLoad` | src/lib/interfaces/uring_drive_interface.cpp:134-147 | A drain raises the load by what waits, up to one above the depth, unless the ring is full. |
| `UringChannel.DrainAssertsIff` | src/lib/interfaces/uring_drive_interface.cpp:137-141 | The "never full" assertion in the drain fails if and only if the drain starts with something waiting, a full ring and nothing in flight. |
| `UringChannel.DrainAssertReachable` | src/lib/interfaces/uring_drive_interface.cpp:137-141 | Finding: that state is reachable, with one request in flight and 256 batched. |
| `UringChannel.SyncSlotIff` | src/lib/interfaces/uring_drive_interface.cpp:351-369 | Finding: the slot a synchronous call asserts after can_submit is there if and only if the ring is not full of batched entries. |
| `UringChannel.SyncSlotMissing` | src/lib/interfaces/uring_drive_interface.cpp:351-369 | Finding: with 256 batched entries can_submit holds and every such call is queued instead, so its assertion fails. |
| `UringOrder.StepWithinBudget` | src/lib/interfaces/uring_drive_interface.cpp:501-513 | Each step keeps the retry counter of a request equal to its failures other than EAGAIN. |
| `UringOrder.RetryBudget` | src/lib/interfaces/uring_drive_interface.cpp:501-513 | Over every run, the limit changing between bounds as it may, a request is reported as failed only after at least the lower bound + 2 failures and at the latest with failure upper bound + 2, so under a fixed limit exactly then; EAGAIN and short reads do not count, and the reported result is the last one the kernel gave. |
| `UringOrder.DrainTakesFront` | src/lib/interfaces/uring_drive_interface.cpp:134-147 | A drain removes a front part of the wait queue. |
| `UringOrder.WaitersServedInOrder` | src/lib/interfaces/uring_drive_interface.cpp:134-147 | Over every run requests leave the wait queue in the order they joined it. |
| `UringOrder.OvertakesIff` | src/lib/interfaces/uring_drive_interface.cpp:68-82 | Finding: a new request passes those waiting if and only if, at that moment, the load is at most 256 and the ring is not full. |
| `UringOrder.SubmitOvertakesIff` | src/lib/interfaces/uring_drive_interface.cpp:68-82 | Finding: between two events that is the case if and only if the load is exactly 256 and the ring has room. |
| `UringOrder.ContinuationOvertakesIff` | src/lib/interfaces/uring_drive_interface.cpp:519-530 | Finding: a request submitted by the continuation of a completion, which runs before the drain, passes all those waiting if and only if the ring is not full. |
| `UringOrder.OvertakingReachable` | src/lib/interfaces/uring_drive_interface.cpp:73-79 | Finding: that happens after a full batch has been pushed out by the request that now waits. |
| `UringOrder.CompletionAboveDepthIff` | src/lib/interfaces/uring_drive_interface.cpp:478-515 | A completion leaves the channel above its depth if and only if it and its continuation left it there before the drain, or the ring has room and enough requests wait. |
| `UringOrder.ServesNobodyIff` | src/lib/interfaces/uring_drive_interface.cpp:515-530 | Finding: a completion serves none of those waiting if and only if its continuation has filled the freed place, or the ring is full. |
| `UringOrder.CrowdedReachable` | src/lib/interfaces/uring_drive_interface.cpp:68-82 | Finding: a channel with 257 requests held and one waiting is reachable. |
| `UringOrder.WaiterStarves` | src/lib/interfaces/uring_drive_interface.cpp:515-530 | Finding: from there any number of completions can pass, each continuation submitting one request, without the waiting one being served. |
| `UringDrive.UringDriveChannel.constructor` | src/lib/interfaces/uring_drive_interface.hpp:53-61 | A new channel is the empty one and satisfies the invariant. |
| `UringDrive.UringDriveChannel.SubmitIos` | src/lib/interfaces/uring_drive_interface.cpp:84-95 | Refines the submit step for every answer of io_uring_submit from one to all entries. |
| `UringDrive.UringDriveChannel.SubmitIfNeeded` | src/lib/interfaces/uring_drive_interface.cpp:97-101 | Refines the prepare step, batched or not. |
| `UringDrive.UringDriveChannel.GetSqeOrEnqueue` | src/lib/interfaces/uring_drive_interface.cpp:68-82 | Yields a slot if and only if depth and ring allow it; otherwise the request is queued behind whatever the submit pushed out. |
| `UringDrive.UringDriveChannel.SubmitInThisThread` | src/lib/interfaces/uring_drive_interface.cpp:241-248 | A whole asynchronous submission refines the accept step, from a continuation too, and keeps the invariant where it holds. |
| `UringDrive.UringDriveChannel.RunContinuation` | src/lib/interfaces/uring_drive_interface.cpp:526-529 | Everything a continuation submits refines the nested calls of the completion. |
| `UringDrive.UringDriveChannel.SubmitBatch` | src/lib/interfaces/uring_drive_interface.cpp:443 | Refines the batch step and keeps the invariant where it holds. |
| `UringDrive.UringDriveChannel.PopWaitq` | src/lib/interfaces/uring_drive_interface.hpp:63-68 | Takes the oldest waiting request. |
| `UringDrive.UringDriveChannel.DrainWaitq` | src/lib/interfaces/uring_drive_interface.cpp:134-147 | The loop computes the drain the theorems are about, stopping at each of its three exits. |
| `UringDrive.UringDriveChannel.CompleteIo` | src/lib/interfaces/uring_drive_interface.cpp:519-544 | Settles the promise with the result, drops the control block and lowers in-flight once. |
| `UringDrive.UringDriveChannel.HandleCompletion` | src/lib/interfaces/uring_drive_interface.cpp:474-515 | One completion, its continuation and the drain refine the completion step and keep the invariant. |
| `UringDrive.UringDriveChannel.HandleCompletions` | src/lib/interfaces/uring_drive_interface.cpp:453-517 | The loop over any sequence of completions is the run made of those completions, and keeps the invariant. |
| `UringDrive.UringDriveChannel.OnResult` | src/lib/interfaces/uring_drive_interface.cpp:479-500 | Full and short results: settle, or re-queue the rest and lower in-flight. |
| `UringDrive.UringDriveChannel.OnError` | src/lib/interfaces/uring_drive_interface.cpp:501-513 | Negative results: give up past the limit, or re-queue without lowering in-flight; EAGAIN does not count. |
| `Mailbox.StepKeepsInv` | src/lib/epoll/reactor_epoll.cpp:175-234 | Each atomic step of any producer or the consumer keeps the protocol invariant. |
| `Mailbox.RunsKeepInv` | src/lib/epoll/reactor_epoll.cpp:175-234 | So does every interleaving of any number of producers with the consumer. |
| `Mailbox.NoLostWakeup` | src/lib/epoll/reactor_epoll.cpp:175-234 | In every reachable state messages are handled exactly once in enqueue order, and if any is queued while the consumer is idle the descriptor is raised or a producer is about to raise it. |
| `Mailbox.WritesIffHandlerOff` | src/lib/epoll/reactor_epoll.cpp:186-192 | A producer that finds the handler on writes nothing for its message in any run; one that finds it off goes on to write. |
| `Mailbox.DescriptorMoves` | src/lib/epoll/reactor_epoll.cpp:184-225 | In reachable states the descriptor's counter goes up by one with a producer's write and with a yield, which comes only with messages left; a read sets it to zero, nothing else moves it. |
| `Mailbox.ProcessAlone` | src/lib/epoll/reactor_epoll.cpp:204-234 | Undisturbed, process_messages handles the first messages up to the limit in order, takes the flag down and raises the event again if and only if messages are left. |
| `Mailbox.IdlePollProcesses` | src/lib/epoll/reactor_epoll.cpp:250-255 | The idle poller leads to such a call. |
| `Mailbox.EventProcesses` | src/lib/epoll/reactor_epoll.cpp:195-202 | So does the event, whose counter is read first. |
| `Mailbox.FinishingShrinks` | src/lib/epoll/reactor_epoll.cpp:204-234 | Every step that only finishes begun work lowers a ranking, including the re-raise after a full batch. |
| `Mailbox.StuckOnlyWhenHandled` | src/lib/epoll/reactor_epoll.cpp:195-234 | No finishing step is possible only when everything sent has been handled. |
| `Mailbox.EverythingGetsHandled` | src/lib/epoll/reactor_epoll.cpp:175-234 | Once producers stop, every schedule is finite and ends with all messages handled in order, without the idle poller. |
| `Mailbox.ZeroLimitHandlesNothing` | src/lib/epoll/reactor_epoll.cpp:205-226 | Finding: with max_msgs_before_yield at zero no run handles any message. |
| `Mailbox.EpollReactor.Interfere` | src/lib/epoll/reactor_epoll.cpp:175-193 | Any producers' steps between two accesses of the consumer are a run of the protocol and keep the invariant. |
| `Mailbox.EpollReactor.ProducerStep` | src/lib/epoll/reactor_epoll.cpp:184-192 | One access of put_msg is one step of the protocol. |
| `Mailbox.EpollReactor.ProcessMessages` | src/lib/epoll/reactor_epoll.cpp:204-234 | The nested loops, interrupted by producers anywhere, terminate, are a run of the protocol and keep the invariant. |
| `Mailbox.EpollReactor.OnMsgFdNotification` | src/lib/epoll/reactor_epoll.cpp:195-202 | Reading the raised descriptor and handling messages is a run of the protocol. |
| `Mailbox.EpollReactor.RaiseAndLower` | src/lib/epoll/reactor_epoll.cpp:219-226 | Re-raising before the flag goes down loses no wake-up. |
| `Mailbox.EpollReactor.LowerForRetry` | src/lib/epoll/reactor_epoll.cpp:229-232 | Taking the flag down and looking once more loses no wake-up. |
| `Mailbox.EpollReactor.PullMessages` | src/lib/epoll/reactor_epoll.cpp:212-217 | The inner loop stops at the batch limit or at a queue seen empty, as a run of the protocol. |
| `SharedMutex.StepKeepsInv` | src/lib/reactor/fiber_lib_boost.cpp:33-105 | Every critical section keeps the counters exact and gives every suspended fiber someone to wake it. |
| `SharedMutex.RunsKeepInv` | src/lib/reactor/fiber_lib_boost.cpp:33-105 | So does every interleaving of any number of fibers. |
| `SharedMutex.MutualExclusion` | src/lib/reactor/fiber_lib_boost.cpp:33-81 | In every reachable state a writer excludes readers and other writers. |
| `SharedMutex.CountersExact` | src/lib/reactor/fiber_lib_boost.cpp:33-105 | In every reachable state readers, waiting writers, owner and wait queue are exactly the fibers they stand for. |
| `SharedMutex.ReaderAdmittedIff` | src/lib/reactor/fiber_lib_boost.cpp:38-47 | Readers share: in every reachable state a reader gets the lock if and only if no fiber writes or waits to write, however many read. |
| `SharedMutex.WriterAdmittedIff` | src/lib/reactor/fiber_lib_boost.cpp:56-65 | A writer gets it if and only if no fiber holds it, whoever waits. |
| `SharedMutex.UnlockWakesAll` | src/lib/reactor/fiber_lib_boost.cpp:83-105 | After every unlock no fiber is suspended. |
| `SharedMutex.ManyReadersReachable` | src/lib/reactor/fiber_lib_boost.cpp:44-46 | For every n a state with n fibers reading at once is reachable. |
| `SharedMutex.NoStuckWaiter` | src/lib/reactor/fiber_lib_boost.cpp:83-105 | A suspended fiber always has a holder or an awake waiting writer to wait for. |
| `SharedMutex.SomeoneCanMove` | src/lib/reactor/fiber_lib_boost.cpp:33-105 | Deadlock freedom: while any fiber uses the lock, some fiber can take a step. |
| `SharedMutex.LookShrinks` | src/lib/reactor/fiber_lib_boost.cpp:33-81 | A look at the lock lowers the ranking. |
| `SharedMutex.UnlockShrinks` | src/lib/reactor/fiber_lib_boost.cpp:83-105 | An unlock lowers the ranking although notify_all wakes everyone. |
| `SharedMutex.EveryoneIsServed` | src/lib/reactor/fiber_lib_boost.cpp:33-105 | Once no new calls arrive, every schedule is finite and ends with every reader and writer served and gone. |
| `SharedMutex.WaitingWriterBlocksReaders` | src/lib/reactor/fiber_lib_boost.cpp:38-47 | Writer priority: from when a writer waits, no look of a reader succeeds before one of a writer has. |
| `SharedMutex.ReleaseSoundIff` | src/lib/reactor/fiber_lib_boost.cpp:83-92 | Finding: while someone reads, unlock_shared accepts any caller, and leaves the lock sound if and only if the caller is a reader. |
| `SharedMutex.ForeignUnlockLetsWriterIn` | src/lib/reactor/fiber_lib_boost.cpp:83-92 | Finding: after a stranger's unlock a writer gets the lock while the one reader still reads. |
| `SharedMutex.OneReaderReachable` | src/lib/reactor/fiber_lib_boost.cpp:83-92 | Finding: a reachable state in which that happens. |
| `SharedMutex.FiberSharedMutex.constructor` | src/include/iomgr/fiber_lib.hpp:67-83 | A new lock is free, with nobody counted or waiting. |
| `SharedMutex.FiberSharedMutex.LookShared` | src/lib/reactor/fiber_lib_boost.cpp:37-47 | One turn of the reader loop refines the step: won if and only if no writer owns or waits. |
| `SharedMutex.FiberSharedMutex.Look` | src/lib/reactor/fiber_lib_boost.cpp:55-79 | One turn of the writer loop refines the step and counts a waiting writer once however often it wakes. |
| `SharedMutex.FiberSharedMutex.UnlockShared` | src/lib/reactor/fiber_lib_boost.cpp:83-92 | Refuses, changing nothing, if and only if nobody reads; otherwise the lock stays sound if and only if the caller reads. |
| `SharedMutex.FiberSharedMutex.Unlock` | src/lib/reactor/fiber_lib_boost.cpp:94-105 | Refines the step; refuses, changing nothing, unless the caller owns the lock. |
| `FiberChannel.PushAppends` | src/lib/reactor/fiber_lib_boost.cpp:110-114 | On an open channel a push appends to the combined queue, overflowing or not; on a closed one the message is lost. |
| `FiberChannel.PopRemovesHead` | src/lib/reactor/fiber_lib_boost.cpp:116-131 | A pop removes the head of the combined queue, and the asserted move from overflow to channel always succeeds. |
| `FiberChannel.BlocksOnlyWhenEmpty` | src/lib/reactor/fiber_lib_boost.cpp:116-119 | A fiber blocks if and only if the combined queue is empty. |
| `FiberChannel.RefinesUnboundedQueue` | src/lib/reactor/fiber_lib_boost.cpp:110-131 | Channel and overflow block on exactly the operations on which one plain unbounded first-in first-out queue blocks, and every run returns exactly what that queue returns. |
| `FiberChannel.IOFiber.constructor` | src/lib/reactor/fiber_lib_boost.cpp:108 | A new fiber queue is open and empty. |
| `FiberChannel.IOFiber.PushMsg` | src/lib/reactor/fiber_lib_boost.cpp:110-114 | Appends to the combined queue; the answer tells direct from overflowed. |
| `FiberChannel.IOFiber.PopMsg` | src/lib/reactor/fiber_lib_boost.cpp:116-131 | Returns and removes the oldest message and keeps overflow only behind a full channel. |
| `MessageFlow.StepKeepsInv` | src/lib/reactor/reactor.cpp:196-258 | Sending, the main fiber's turn and a fiber loop's turn each keep conservation and routing. |
| `MessageFlow.RunsKeepInv` | src/lib/reactor/reactor.cpp:196-258 | So does every interleaving. |
| `MessageFlow.EachMessageInOnePlace` | src/lib/reactor/reactor.cpp:237-258 | Every message sent is in exactly one of mailbox, destination queue and executed; it runs once, on its destination fiber; its promise is set if and only if it ran. |
| `MessageFlow.AtRest` | src/lib/reactor/reactor.cpp:82-90 | When neither main fiber nor fiber loops have anything to take, all that is left are stranded messages. |
| `MessageFlow.AllRunIffNoneStranded` | src/lib/reactor/reactor.cpp:237-258 | Finding: once sending stops every schedule is finite, and at its end every message has run if and only if no fiber sent one to its own reactor's main fiber. |
| `MessageFlow.StrandedReachable` | src/lib/reactor/reactor.cpp:237-258 | Finding: one such send brings a reactor with two fibers to rest with the message not run. |
| `MessageFlow.StrandedNeverRuns` | src/lib/reactor/reactor.cpp:82-90 | Finding: such a message never runs, whatever follows, because the main fiber reads no fiber queue. |
| `MessageFlow.ShortcutKeepsOrderIff` | src/lib/reactor/reactor.cpp:240-246 | The same-thread shortcut, which its comment says may reorder, keeps the destination's order if and only if nothing sent earlier is still on its way there. |
| `MessageFlow.StepKeepsOrder` | src/lib/reactor/reactor.cpp:196-258 | No other step disturbs the order in which a fiber gets its messages. |
| `MessageFlow.EndToEndOrder` | src/lib/reactor/reactor.cpp:196-258 | Over runs whose shortcuts overtake nothing, every fiber runs its messages in the order they were sent. |
| `MessageFlow.IOReactor.HandleMsg` | src/lib/reactor/reactor.cpp:249-258 | Runs the message on its own fiber or forwards it, refining the handling step. |
| `MessageFlow.IOReactor.DeliverMsg` | src/lib/reactor/reactor.cpp:237-247 | Refines the two send steps and keeps the invariant. |
| `MessageFlow.IOReactor.MainTurn` | src/lib/epoll/reactor_epoll.cpp:212-217 | One dequeue of the main fiber refines its step. |
| `MessageFlow.IOReactor.FiberTurn` | src/lib/reactor/reactor.cpp:196-206 | One turn of a fiber loop refines its step. |
| `Multicast.SendToRandomWorker` | src/lib/iomgr.cpp:412-420 | Exactly the picked worker gets the original message; a future is taken before it, if and only if a reply is needed. |
| `Multicast.CloneAndDeliver` | src/lib/iomgr.cpp:446-450 | One delivery of a broadcast: the copy is made while the original is alive, the original goes to the reactor, the copy is the one left. |
| `Multicast.DeliverCopies` | src/lib/iomgr.cpp:437-453 | After each slot exactly one copy is alive and every eligible reactor so far has had its own. |
| `Multicast.Broadcast` | src/lib/iomgr.cpp:436-467 | Every eligible reactor gets its own copy once and in slot order; every copy is delivered or freed and none is touched afterwards. |
| `Multicast.FindLeastBusy` | src/lib/iomgr.cpp:439-444 | Finds an eligible slot with the fewest outstanding operations if and only if there is an eligible one. |
| `Multicast.SendToLeastBusy` | src/lib/iomgr.cpp:437-467 | One delivery to such a reactor, or the message is freed. |
| `Multicast.MulticastMsg` | src/lib/iomgr.cpp:407-470 | For every regex: the returned count is the number of deliveries, ownership of every copy is sound, futures are those of delivered copies, and zero is returned if and only if no eligible reactor exists. |
| `Multicast.NoTargetsIff` | src/lib/iomgr.cpp:438-439 | The target list is empty if and only if no slot holds an eligible reactor. |
| `Multicast.WhoIsAddressed` | src/lib/iomgr.cpp:360-369 | For each regex which I/O reactors it addresses, by worker and tight loop. |
| `Multicast.WhoReceives` | src/lib/iomgr.cpp:483-491 | For each broadcasting regex exactly who receives, and from which table. |
| `Multicast.WhoIsLeastBusy` | src/lib/iomgr.cpp:439-444 | The least busy regexes choose a worker of the worker table, or a user, with no more outstanding operations than any other such. |
| `MulticastWait.ActedKeeps` | src/lib/reactor/reactor.cpp:237-258 | A step of any reactor or sender keeps every reactor sound and every message object on one reactor. |
| `MulticastWait.StepKeepsInv` | src/lib/iomgr.cpp:472-481 | So do calls that wait: entering, sending copies and returning, a fiber in a call taking nothing from its queue. |
| `MulticastWait.SettledRan` | src/lib/iomgr.cpp:475-479 | A copy whose future is set has run once, on the fiber and reactor it was sent to, and on no other reactor. |
| `WaitShortcut.OwnFiberRunsAtOnce` | src/lib/reactor/reactor.cpp:240-244 | A copy to the caller's own fiber has run, and its future is set, when the delivery is over. |
| `WaitShortcut.OtherFiberQueuesAtOnce` | src/lib/reactor/reactor.cpp:240-258 | A copy to another fiber of the caller's reactor is then the last in that fiber's queue, the mailbox untouched. |
| `WaitShortcut.ElsewhereGoesToMailbox` | src/lib/reactor/reactor.cpp:244-246 | Any other copy is the last in the receiver's mailbox. |
| `WaitShortcut.NeverWaitsOnItself` | src/lib/reactor/reactor.cpp:240-246 | The reason the source gives for the shortcut: over all reachable worlds no fiber waits for a copy it would have to take itself. |
| `MulticastWait.CountedExecutions` | src/lib/iomgr.cpp:472-481 | Copies that each ran once account for exactly as many executions over all reactors as there are copies. |
| `WaitCycles.CallStuckIff` | src/lib/iomgr.cpp:475-479 | Finding: once nothing is left to do, a call is still under way if and only if following who waits on whom from it leads to a fiber that waits on its own main fiber, or in a circle. |
| `WaitCycles.AllReturnIff` | src/lib/iomgr.cpp:475-479 | Finding: then all calls have returned if and only if no caller awaits a copy to its own reactor's main fiber and no callers wait on each other in a circle. |
| `WaitCycles.SchedulesEnd` | src/lib/iomgr.cpp:472-481 | Once no new messages or calls come, every schedule of reactors and returning callers is finite, and at its end all calls have returned under exactly that condition. |
| `WaitCycles.CycleIsForever` | src/lib/iomgr.cpp:475-479 | Callers that wait on each other in a circle never return, whatever the others do. |
| `WaitCycles.OwnMainIsForever` | src/lib/reactor/reactor.cpp:82-90 | Nor does a caller that awaits a copy to its own reactor's main fiber. |
| `WaitDeadlocks.MutualWaitReachable` | src/include/iomgr/iomgr.hpp:237-243 | Finding, although only main fibers are prohibited from waiting: two reactors' other fibers, each running a message and waiting for a copy in the other's queue, are reachable with nothing left to do. |
| `WaitDeadlocks.OwnMainReachable` | src/include/iomgr/iomgr.hpp:237-245 | Finding: one fiber waiting for a copy to its own main fiber, the default destination, is reachable with nothing left to do. |
| `MulticastCall.Messenger.Interfere` | src/lib/iomgr.cpp:475-479 | Whatever reactors, other senders and other callers do meanwhile keeps the call where it is and loses or reruns no copy. |
| `MulticastCall.Messenger.SendCopy` | src/lib/reactor/reactor.cpp:237-247 | One delivery, on the spot or through the mailbox, refines the sending step. |
| `MulticastCall.Messenger.SendAll` | src/lib/iomgr.cpp:436-460 | All copies are sent while the others go on. |
| `MulticastCall.Messenger.Get` | src/lib/iomgr.cpp:476-478 | Taking a future gives way until it is set. |
| `MulticastCall.Messenger.GetAll` | src/lib/iomgr.cpp:475-479 | The loop ends with all futures set, those taken before staying set. |
| `MulticastCall.Messenger.MulticastMsgAndWait` | src/lib/iomgr.cpp:472-481 | For every regex, caller and behaviour of the others: it returns the number of copies sent, each its own object, only once exactly that many executions have taken place, each on the reactor and fiber addressed; a broadcast addresses exactly the eligible reactors. |
| `GlobalTimer.StepKeepsInv` | src/lib/iomgr_timer.cpp:260-332 | Every step of any worker and the cancel keep the term accounting. |
| `GlobalTimer.RunsKeepInv` | src/lib/iomgr_timer.cpp:260-332 | So does every interleaving. |
| `GlobalTimer.WorkerStepLeads` | src/lib/iomgr_timer.cpp:320-332 | Until a cancel the shared word is the largest number of polls any worker completed. |
| `GlobalTimer.OneCallbackPerTerm` | src/lib/iomgr_timer.cpp:320-332 | In every reachable state the won terms are 1, 2, 3, ... without gap or repetition, each called back once or about to be. |
| `GlobalTimer.TermsFromEvents` | src/lib/iomgr_timer.cpp:322 | From the events alone: a worker's term is the number of its polls since it was registered, won or lost. |
| `GlobalTimer.CallbacksFollowPolls` | src/lib/iomgr_timer.cpp:320-332 | Until a cancel the terms won are at least the polls any worker has finished and at most the polls of some worker: one callback for each round of polls. |
| `GlobalTimer.NoTermWonAfterCancel` | src/lib/iomgr_timer.cpp:260-263 | After the cancel's store no worker wins a term. |
| `GlobalTimer.SilentAfterCancelIff` | src/lib/iomgr_timer.cpp:261-263 | Finding, against the comment that no callback comes once the timer is cancelled: that holds if and only if no worker stands between its exchange and its callback. |
| `GlobalTimer.CallbackAfterCancel` | src/lib/iomgr_timer.cpp:320-328 | Finding: such a state is reachable with one worker. |
| `GlobalTimer.SpdkTimerInfo.RaiseTerm` | src/lib/iomgr_timer.cpp:322 | The local increment refines its step. |
| `GlobalTimer.SpdkTimerInfo.CompareExchange` | src/lib/iomgr_timer.cpp:323-324 | The exchange succeeds if and only if nobody has won this term, and refines its step. |
| `GlobalTimer.SpdkTimerInfo.RunCallback` | src/lib/iomgr_timer.cpp:325-327 | The callback refines its step. |
| `GlobalTimer.SpdkTimerInfo.CancelGlobalTimer` | src/lib/iomgr_timer.cpp:260-263 | The store of the maximal term refines the cancel step. |
| `OneShotTimer.StepKeepsInv` | src/lib/iomgr_timer.cpp:106-172 | Scheduling, cancelling, popping and firing by any threads keep the accounting of entries. |
| `OneShotTimer.RunsKeepInv` | src/lib/iomgr_timer.cpp:106-172 | So does every interleaving. |
| `OneShotTimer.FiresOnceAndNotEarly` | src/lib/iomgr_timer.cpp:152-168 | Over every interleaving an entry fires at most once, not before the expiry it was given, not after it was cancelled, and no entry is lost. |
| `OneShotTimer.ClockIsElapsed` | src/lib/iomgr_timer.cpp:157 | The clock is the time that passed in the run. |
| `OneShotTimer.NotBeforeItsDelay` | src/lib/iomgr_timer.cpp:106-159 | From the events alone: an entry that has fired was fired when at least its delay had passed since the event that scheduled it. |
| `OneShotTimer.FiredWasScheduled` | src/lib/iomgr_timer.cpp:106-108 | Only what an event of the run scheduled fires. |
| `OneShotTimer.NotAfterCancelEvent` | src/lib/iomgr_timer.cpp:133 | What an event of the run has cancelled has not fired at its end. |
| `OneShotTimer.CancelledNeverFires` | src/lib/iomgr_timer.cpp:133 | A cancelled entry never fires, whatever follows. |
| `OneShotTimer.TimerEpoll.Interfere` | src/lib/iomgr_timer.cpp:155-168 | What other threads do while the lock is free is a run of the protocol. |
| `OneShotTimer.TimerEpoll.PopAndFire` | src/lib/iomgr_timer.cpp:157-163 | Pop under the lock and callback outside it are a run of the protocol under any interference. |
| `OneShotTimer.TimerEpoll.OnTimerArmed` | src/lib/iomgr_timer.cpp:152-168 | The drain is a run of the protocol and ends only when a look under the lock found nothing expired; it ends when the others act finitely often, and callbacks that keep scheduling with zero delay can keep it going. |
| `TimerWakeup.RunsKeepInv` | src/lib/iomgr_timer.cpp:97-172 | Over every run of one thread's timers no entry fires twice or after it was cancelled. |
| `TimerWakeup.NotBeforeItsDelay` | src/lib/iomgr_timer.cpp:106-159 | From the events alone: an entry fires when at least its delay has passed since the event that scheduled it. |
| `TimerWakeup.NotAfterCancelEvent` | src/lib/iomgr_timer.cpp:133 | What an event of the run has cancelled has not fired at its end. |
| `TimerWakeup.SureToFireIff` | src/lib/iomgr_timer.cpp:101-117 | Finding: if nothing more is scheduled, an entry is sure to have fired or been cancelled when the thread comes to rest if and only if it is due by the time armed last, or has expired while a drain or wake-up is still to come. |
| `TimerWakeup.ScheduleCoversIff` | src/lib/iomgr_timer.cpp:111-117 | A schedule leaves another entry sure to fire if and only if that entry is due no later than the new one or is about to be fired; a new entry with zero delay disarms the fd. |
| `TimerWakeup.RestIsForever` | src/lib/iomgr_timer.cpp:139-150 | At rest nothing fires any more until something is scheduled. |
| `TimerWakeup.DrainAlone` | src/lib/iomgr_timer.cpp:155-168 | An undisturbed drain fires exactly the expired entries. |
| `TimerWakeup.ShorterStrandsLonger` | src/lib/iomgr_timer.cpp:101-117 | Finding, against the interface's promise of a call after the given time: after any shorter schedule the thread can come to rest with a longer timer in the heap that then never fires. |
| `TimerWakeup.OnTimeIff` | src/lib/iomgr_timer.cpp:101-117 | Finding: if nothing more is scheduled, an entry not yet due can fire on time if and only if the fd is armed for no later. |
| `TimerWakeup.SureAndOnTimeIff` | src/lib/iomgr_timer.cpp:101-117 | Finding: an entry is both sure to fire and able to fire on time if and only if it is due at the very time armed. |
| `TimerWakeup.LongerDelaysShorter` | src/lib/iomgr_timer.cpp:101-117 | Finding: a schedule leaves another entry able to fire on time if and only if the new one is due no later; otherwise that entry fires in no run before the new time. |
| `TimerWakeup.ThreadTimer.Schedule` | src/lib/iomgr_timer.cpp:97-117 | Adds the entry and sets the shared fd anew, disarming it for a zero delay. |
| `TimerWakeup.ThreadTimer.Cancel` | src/lib/iomgr_timer.cpp:133 | Removes the entry and leaves the fd as it is. |
| `TimerWakeup.ThreadTimer.CallBack` | src/lib/iomgr_timer.cpp:160-162 | Pops and calls back once, the callback being free to schedule, cancel and take time. |
| `TimerWakeup.ThreadTimer.OnTimerArmed` | src/lib/iomgr_timer.cpp:152-168 | When the drain ends, which it does once callbacks stop scheduling, nothing expired is left; left alone it fires a front part of the heap in order of expiry. |
| `TimerWakeup.ThreadTimer.OnTimerFdNotification` | src/lib/iomgr_timer.cpp:139-150 | An unreadable fd changes nothing; otherwise exactly the expired entries fire in order of expiry and the fd stays disarmed whatever else waits. |
| `DeviceBarrier.RoundFromZero` | src/include/iomgr/io_device.hpp:73-83 | For every number of reactors and every order of the decrements and the one increment, the callback runs exactly once, by the last operation, and the counter ends at zero. |
| `DeviceBarrier.CallbackLastIff` | src/include/iomgr/io_device.hpp:73-83 | The last operation runs the callback if and only if the round began at zero. |
| `DeviceBarrier.RoundFiresIff` | src/include/iomgr/io_device.hpp:73-83 | From any value of the counter and for any order of the operations: exactly which operation of a round runs the callback. |
| `DeviceBarrier.DebtFiresEarlyIff` | src/include/iomgr/io_device.hpp:73-83 | Finding: from a counter below zero the callback runs if and only if the initiator counts early enough, and then with as many reactors still to come as are owed. |
| `DeviceBarrier.WaitingRemovalDebtIff` | src/lib/interfaces/generic_interface.cpp:112-114 | Finding: a waiting removal leaves the counter at zero, in every order of its events, if and only if no callback is left over from a non-waiting call or no reactor is reached; otherwise it is short by one for each reactor. |
| `DeviceBarrier.RemovalWaitsForAll` | src/lib/interfaces/generic_interface.cpp:112-114 | A waiting removal closes the descriptor if and only if all n reactors have answered and it has gone on, whatever callback is left over. |
| `DeviceBarrier.AddWaitsForAll` | src/lib/interfaces/generic_interface.cpp:58-60 | A waiting add marks the device ready if and only if all n reactors have answered and it has gone on. |
| `DeviceBarrier.RemovalPostsAfterAll` | src/lib/interfaces/generic_interface.cpp:115-119 | Without waiting, the descriptor is closed if and only if all n reactors have counted down and the initiator has counted, in any order. |
| `DeviceBarrier.AddPostsAfterAll` | src/lib/interfaces/generic_interface.cpp:61-65 | Likewise a device added without waiting is marked ready. |
| `DeviceBarrier.DebtClosesEarly` | src/lib/interfaces/generic_interface.cpp:95-99 | Finding: from such a debt a removal can close the descriptor while as many reactors as are owed still have the device. |
| `DeviceBarrier.StaleCallbackClosesEarly` | src/lib/interfaces/generic_interface.cpp:58-119 | Finding: with any number of reactors and calls strictly one after the other, a device is marked ready before any reactor has it and closed while all of them still do. |
| `DeviceBarrier.CarefulStep` | src/lib/interfaces/generic_interface.cpp:58-119 | Each event of careful callers, waiting or not, keeps the counter exact and one call at most under way. |
| `DeviceBarrier.CareNeededIff` | src/lib/interfaces/generic_interface.cpp:58-119 | The care is exact: a call keeps posts alternating and the idle counter at zero, over all that careful callers do afterwards, if and only if it is careful itself. |
| `DeviceBarrier.CarefulRounds` | src/lib/interfaces/generic_interface.cpp:58-122 | Careful callers keep at most one round open, with the counter showing how far it is. |
| `DeviceBarrier.RoundsDoNotOverlap` | src/lib/interfaces/generic_interface.cpp:58-122 | Over every careful run, waiting calls included, post_add and post_remove alternate, so a descriptor is closed once for each time it was added and removed. |
| `DeviceBarrier.SecondRemoveClosesTwice` | src/lib/interfaces/generic_interface.cpp:72-118 | Finding: for any number of reactors, a second removal before the first is through can close the descriptor twice; the ready test does not prevent it. |
| `DeviceBarrier.IODevice.constructor` | src/include/iomgr/io_device.hpp:73-83 | A new device is out, with no callback and nothing pending. |
| `DeviceBarrier.IODevice.DecrementPending` | src/include/iomgr/io_device.hpp:73-77 | Counts only with a callback in place, which runs if and only if the counter reaches zero; refines the count-down. |
| `DeviceBarrier.IODevice.IncrementPending` | src/include/iomgr/io_device.hpp:79-83 | Likewise for the initiator's count. |
| `DeviceBarrier.IODevice.RunRound` | src/lib/interfaces/generic_interface.cpp:61-65 | A whole round in any arrival order runs the callback once and returns the counter to zero. |
| `DeviceBarrier.IODevice.AddIoDevice` | src/lib/interfaces/generic_interface.cpp:30-69 | Refines the beginning of an add, waiting or not, and keeps the invariant if the call is careful. |
| `DeviceBarrier.IODevice.RemoveIoDevice` | src/lib/interfaces/generic_interface.cpp:71-122 | Refines the beginning of a removal, ignored if and only if the device is not ready, and keeps the invariant if the call is careful. |
| `DeviceBarrier.IODevice.OnReactor` | src/lib/interfaces/generic_interface.cpp:31-41 | One reactor's part refines its event and keeps the invariant. |
| `DeviceBarrier.IODevice.CountReactors` | src/lib/interfaces/generic_interface.cpp:62-64 | The initiator's part refines its event and keeps the invariant. |
| `DeviceBarrier.IODevice.OnReactorWaiting` | src/lib/interfaces/generic_interface.cpp:83-93 | One reactor's part of a waiting call refines its event and keeps the invariant. |
| `DeviceBarrier.IODevice.AllAnswered` | src/lib/interfaces/generic_interface.cpp:112-114 | The end of a waiting call, closing the descriptor on a removal, refines its event and keeps the invariant. |
| `Lifecycle.RunsKeepInv` | src/lib/iomgr.cpp:335-357 | Every interleaving of starting and stopping reactors keeps both counters equal to the reactors they count. |
| `Lifecycle.WorkerStepKeepsInv` | src/lib/iomgr.cpp:335-345 | The three accesses of a starting worker, and its stop, keep it. |
| `Lifecycle.OtherStepKeepsInv` | src/lib/iomgr.cpp:176-202 | User reactors and stop's guard keep it. |
| `Lifecycle.StartAndStopOnce` | src/lib/iomgr.cpp:335-357 | sys_init is entered at most once and only with every worker slot filled, stopped at most once and only with every reactor down and the guard released; both are entered once their condition holds, and without workers sys_init never is. |
| `Lifecycle.StartupEnds` | src/lib/iomgr.cpp:335-345 | Every schedule of starting workers is finite and ends with sys_init entered, if there is a worker at all. |
| `Lifecycle.ShutdownEnds` | src/lib/iomgr.cpp:176-202 | From when stop begins every schedule of reactors going down and of stop itself is finite and ends with stopped entered once. |
| `Lifecycle.NotStoppedBeforeUsers` | src/lib/iomgr.cpp:351-357 | From the events alone: the state has not become stopped while a user reactor that was started has not stopped. |
| `Lifecycle.IOManager.CountWorker` | src/lib/iomgr.cpp:336 | Counting a worker in refines its step. |
| `Lifecycle.IOManager.FillSlot` | src/lib/iomgr.cpp:338 | Filling the slot refines its step. |
| `Lifecycle.IOManager.WorkerStarted` | src/lib/iomgr.cpp:342-345 | Enters sys_init if and only if this worker is the last to start. |
| `Lifecycle.IOManager.WorkerDown` | src/lib/iomgr.cpp:351-357 | Enters stopped if and only if this is the last count. |
| `Lifecycle.IOManager.HoldGuard` | src/lib/iomgr.cpp:182-184 | The guard count refines its step. |
| `Lifecycle.IOManager.ReleaseGuard` | src/lib/iomgr.cpp:196-202 | Releasing it enters stopped if and only if every reactor is already down. |
| `SpdkRequests.SubmitKeeps` | src/lib/interfaces/spdk_drive_interface.cpp:467-522 | A submission, with any return codes and the resubmissions they cause, keeps the request's bookkeeping and the outstanding count. |
| `SpdkRequests.CompleteKeeps` | src/lib/interfaces/spdk_drive_interface.cpp:412-445 | So does a completion; a success ends the request and a failure resubmits it until the limit. |
| `SpdkRequests.StepKeepsInv` | src/lib/interfaces/spdk_drive_interface.cpp:391-522 | Every event keeps outstanding_ops equal to the number of requests SPDK owns. |
| `SpdkRequests.RunsKeepInv` | src/lib/interfaces/spdk_drive_interface.cpp:391-522 | So does every run. |
| `SpdkRequests.Lifecycle` | src/lib/interfaces/spdk_drive_interface.cpp:391-522 | Over every run, the limit changing between bounds as it may, a request gets at most the upper bound + 2 attempts besides those refused for memory, its promise is set at most once, it is never submitted twice at a time, and an error is reported only after at least the lower bound + 2 attempts. |
| `SpdkRequests.FinishedForGood` | src/lib/interfaces/spdk_drive_interface.cpp:443-445 | A finished request stays as it is. |
| `SpdkRequests.SubmitOutcome` | src/lib/interfaces/spdk_drive_interface.cpp:509-521 | The first code that is not an outright failure decides: refused for memory, the request waits with attempts and outstanding count as they were; accepted, the device has it. |
| `SpdkRequests.EventOutcome` | src/lib/interfaces/spdk_drive_interface.cpp:412-522 | What every event comes to in a reachable state: finished, with the device or waiting for memory, after how many attempts, and no other request touched. |
| `SpdkRequests.FinishesInsideIff` | src/lib/interfaces/spdk_drive_interface.cpp:467-522 | A request is finished within the call that submits it if and only if every attempt left to it fails outright, and is then reported as an error. |
| `SpdkWatchdog.StepCounts` | src/lib/interfaces/spdk_drive_interface.cpp:532-558 | Each event keeps every unfinished request registered and misses an erasure if and only if a submission fails within its own call. |
| `SpdkWatchdog.ErasesOneIff` | src/lib/watchdog.cpp:32-39 | Finding: over every run on a tight-loop reactor the assertion that one entry is erased holds if and only if no submission fails outright limit + 2 times within its own call, before the request is registered. |
| `SpdkWatchdog.WatchesUnfinished` | src/lib/watchdog.cpp:21-39 | Over runs without such a submission the watchdog watches exactly the unfinished requests. |
| `SpdkWatchdog.MissReachable` | src/lib/interfaces/spdk_drive_interface.cpp:532-558 | Finding: a single request is enough, whatever the limit. |
| `SpdkRequests.SpdkThread.SubmitIo` | src/lib/interfaces/spdk_drive_interface.cpp:467-522 | The mutually recursive code refines the submission function and touches no other request. |
| `SpdkRequests.SpdkThread.CompleteIo` | src/lib/interfaces/spdk_drive_interface.cpp:412-445 | Likewise for completions. |
| `WriteZero.TiledOnce` | src/lib/interfaces/drive_interface.cpp:520-532 | Every byte of the range is in exactly one chunk and no chunk reaches outside it. |
| `WriteZero.BuildIov` | src/lib/interfaces/drive_interface.cpp:551-559 | The list is whole buffers and a remainder, summing to the size, no entry empty, within the kernel's limits. |
| `WriteZero.KernelDrive.BlkZeroOut` | src/lib/interfaces/drive_interface.cpp:522-529 | The kernel's answer: the whole range, or on an error any part of it. |
| `WriteZero.KernelDrive.SyncWritev` | src/lib/interfaces/drive_interface.cpp:443-462 | Retries the whole vector until all is written or the tries run out; success, if and only if one of the tries is full, means the range is zero. |
| `WriteZero.KernelDrive.WriteZeroIoctl` | src/lib/interfaces/drive_interface.cpp:513-536 | Success, if and only if every request of the kernel succeeds: exactly the range is zero, by tiling chunks; failure: a zeroed front part, one chunk in doubt, nothing else changed. An empty range succeeds. |
| `WriteZero.KernelDrive.WriteZeroWritev` | src/lib/interfaces/drive_interface.cpp:538-572 | The same by vectored writes; it succeeds if every write is full and gives up only where all tries of one write were short; finding: an empty range is refused, unlike the ioctl form. |
| `WriteZero.KernelDrive.SyncWriteZero` | src/lib/interfaces/drive_interface.cpp:505-511 | Whichever form is picked, success means the range and nothing else was zeroed. |
| `Watchdog.EarlyExitIff` | src/lib/watchdog.cpp:49-58 | Stopping at the first young request reports what a full scan reports if and only if no timed-out request sits behind a younger one. |
| `Watchdog.OldestFirstIff` | src/lib/watchdog.cpp:47-50 | Under every limit that holds if and only if ages, each read from the clock at its own entry, do not grow along the map; the comment's growing start times alone do not give it. |
| `Watchdog.GrowingStartsNotEnough` | src/lib/watchdog.cpp:47-50 | Finding: two requests started together, of which the scan misses the one that has timed out. |
| `Watchdog.NoneMissedSinceStart` | src/lib/watchdog.cpp:47-58 | They do give this: no request that had timed out when the scan began is missed. |
| `Watchdog.NothingFoundIff` | src/lib/watchdog.cpp:49-58 | A full scan finds nothing if and only if no request has timed out. |
| `Watchdog.IOWatchDog.constructor` | src/lib/watchdog.hpp:30-32 | A new watchdog holds nothing. |
| `Watchdog.IOWatchDog.AddIo` | src/lib/watchdog.cpp:21-30 | The new id is larger than all before, so the asserted insertion always happens, at the end. |
| `Watchdog.IOWatchDog.CompleteIo` | src/lib/watchdog.cpp:32-39 | Erases exactly that id and reports one if and only if it was registered. |
| `Watchdog.IOWatchDog.IoTimer` | src/lib/watchdog.cpp:43-58 | Returns the timed-out requests before the first young one, all of them if requests are oldest first. |

## Left out

- Weak memory: all interleavings are sequentially consistent, though the source uses acquire and release orders.
- Machine integers: counters and offsets are unbounded. The channel's unsigned counters are proved never to go below zero; wrap-around of 64-bit ids, terms and offset plus size is not modelled.
- UringChannel.RunsKeepInv: short results of writes and of scalar buffers are not among the kernel's answers, since the source asserts they are reads of a scatter list.
- UringChannel.SubmitIosKeeps: `io_uring_submit` takes at least one entry, as the source's debug assertion demands; a failed submit is not modelled.
- UringChannel.OneAboveQueueDepth: the completion queue itself and its overflow exception are not modelled, only how many requests the kernel can hold.
- UringDrive.UringDriveChannel.SubmitInThisThread: control blocks are values looked up by request id, so aliasing of a block between queues is not captured; conservation says each id is in one place.
- DriveIocb.Iocb.UpdateIovsOnPartialResult: needs the source's debug assertion that the entries cover the missing bytes; the scratch vector, which the source reserves but does not resize, is taken to have its slots.
- FiberChannel.RefinesUnboundedQueue: covers open channels; a push after close loses its message, as PushAppends states. The capacity is a parameter of at least one.
- Mailbox.EverythingGetsHandled: is about a running reactor; messages dropped after shutdown and descriptor write errors other than a retry are left out.
- Multicast.MulticastMsg: `least_busy_io` broadcasts in the source and does so here; the fiber picked inside a reactor and the random pick of a worker are parameters.
- MulticastCall.Messenger.MulticastMsgAndWait: runs against a finite behaviour of the others and says so when the call is still under way at its end.
- WaitCycles.AllReturnIff: a copy to the caller's own fiber runs on the spot, and a wait made from within it is not modelled. Message methods block for no other reason than such calls. A message's run and the setting of its promise are one step.
- MessageFlow.AllRunIffNoneStranded: every message method returns; methods that wait for other messages are the subject of MulticastWait and WaitCycles.
- UringChannel.NestedKeeps: a continuation acts on its own thread's channel only, and the control block of the completed request is gone before it runs instead of after.
- OneShotTimer.TimerEpoll.OnTimerArmed: ends because what callbacks and other threads do is a finite sequence; the source sets no such bound.
- SpdkRequests.Lifecycle: one event reads the limit once, although a chain of resubmissions within it reads it each time.
- SpdkWatchdog.ErasesOneIff: covers the tight-loop path; on the other paths submission and registration race on two threads. What happens after the failed assertion is left out.
- TimerWakeup.SureToFireIff: is about a thread's own timers; inserting an entry and setting the fd are one step. For timers shared between threads see OneShotTimer, which leaves the fd out.
- WriteZero.KernelDrive.SyncWritev: is the kernel interface's own writev; the io_uring override is not substituted.
- Lifecycle.StartAndStopOnce: user reactors start after the workers are up and nothing starts once stop has begun; the two condition variables are not modelled.
- Recurring epoll timers, timer shutdown, and single-threaded SPDK timers.
- SPDK batches and the choice of SPDK thread for a request.
- Outstanding-I/O gauges per operation type (write-zero raises one gauge and lowers another); only the per-thread count is modelled.
- The limit on partial reads, which only asserts in debug builds and never stops the retries.
- The AIO interface, folly fibers, HTTP and gRPC services, NVMe-oF, drive attribute detection, opening and closing of devices, metrics and logging.
- Fault injection compiled in for pre-release builds.
