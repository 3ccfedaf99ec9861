# ndiswrapper: verified models of its hard parts

ndiswrapper runs Windows network drivers inside the Linux kernel. This project models the parts of
its driver directory whose correctness is not visible from one function, and proves what they
promise: 64-bit division out of 32-bit words, the NT dispatcher objects, the transmit ring and the
handshake that decides who frees a packet, the private workqueue, the DPC queue, image expansion
and relocation, the IRP stack machine and device stacks, the life of URBs and their IRPs, and four
smaller pieces (packet copy, read/write lock, descriptor pools, printf format rewriting).

`dafny verify dfyconfig.toml` checks everything. There is one module per component:

| module | component |
|---|---|
| Basics, Words | options and lists of distinct elements; machine words, shifts, powers of two |
| LongLong, Divdi3 | the C fallback macros of longlong.h; `__udivmoddi4` and its wrappers |
| Dispatcher, DispatcherOrder, DispatcherCounts | events, recursive mutexes, semaphores, single-object waits; the order in which waiters are served; how often an object is given away, and to whom |
| TxRing, TxPath, TxRuns | the transmit ring; the `xchg` handshake on the packet status; runs to the states where its promises fail |
| Workqueue | the single-thread workqueue |
| NtList, DpcQueue | the intrusive circular list; `kdpc_list` on top of it |
| RwLock, Pools, PoolSteps, PacketCopy | the NDIS read/write lock, descriptor pools for one caller and for many, the two-chain copy |
| PeLinker, PeReloc, PeTable | image expansion; base relocation; the relocation table as bytes |
| IrpStack, IrpRoutines, DeviceStack | the slots of an IRP; which completion routines are called; attached devices and their `stack_count` |
| UsbUrb, UsbOrder | allocation, submission, completion and release of URBs; the order of completions |
| StripL | `strip_l_modifier` |

Code that computes is modelled by methods with the same assignments and branches; state changed in
place is a class whose methods are proved against functions on values. A protocol between threads
is a state machine: an action is one critical section, one atomic instruction, or one unlocked
store, and the theorems quantify over every sequence of enabled actions (`Exec`).

## Findings

Where a promise does not hold of the code as it is, the code is kept, a lemma shows the failing case,
for a protocol with a run that reaches it, and another gives the exact condition.

* A packet that is refused with RESOURCES is to be resubmitted, with the rest, when resources become
  available (ndiswrapper/driver/wrapndis.c:641-647, 679-684). This fails in two ways.
  - A packet refused by MiniportSendPackets stays in the ring if and only if nothing sets `tx_ok`
    between the refusal and the end of the worker's loop; a completion of another packet in between
    makes the worker go on and free it, and packets behind it, although the driver has taken none of
    them: `TxPath.Resubmitted`, `TxRuns.RefusedFreedUnsent`. One refused by MiniportSend always stays:
    `TxPath.ResentBySend`.
  - The worker goes on after a completion, which sets `tx_ok`. It is paused with no completion coming
    if and only if a refusal was made while none was owed, for both kinds of drivers: the last one may
    have come just before the refusal cleared `tx_ok`, and then the packets stay in the ring until the
    driver calls NdisMSendResourcesAvailable, if it does: `TxPath.PauseStep`, `TxPath.PauseEnds`,
    `TxPath.StalledForEver`, reached by `TxRuns.StallReached` and `TxRuns.SendStallReached`.
* `tx_worker` moves `tx_ring_start` and clears `is_tx_ring_full` in two stores outside `tx_ring_lock`
  (ndiswrapper/driver/wrapndis.c:728-730). If packets accepted in between fill the ring, the late
  store makes it read as empty; otherwise it is harmless: `TxRing.CommitInTwoStores`.
* The pools test their limits outside the pool's lock, so that the limited count can exceed
  max_descr + 1; with any number of threads it is at most max_descr plus that number, and the free list
  still has at most 16 entries: `PoolSteps.EveryRun`, `PoolSteps.LimitOverrun`.
* A driver that completes a packet inside MiniportSendPackets without storing a status first makes
  both parties free it if and only if the packet had been refused before: `TxPath.UnsetCompletion`,
  `TxRuns.UnsetCompletionFreesTwice`.
* `wrap_free_urb` stores URB_FREE before it clears `irp`, without the cancel lock
  (ndiswrapper/driver/usb.c:206-210). A search of `wrap_alloc_urb` between the two stores gives the
  URB to a second IRP, which the late store then erases: `UsbUrb.ReuseMidClear`,
  `UsbUrb.ReuseMidClearLosesIrp`, reached by `UsbUrb.MidClearReached`.
* Queueing a work item while its cancellation is between `xchg` and `list_del` links it twice:
  `Workqueue.RequeueMidCancel`, reached by `Workqueue.MidCancelReached`.
* `wrap_flush_wq_on` stores its completion without the lock. If the store falls between the worker's
  read of `thread->completion` and its clearing (ndiswrapper/driver/workqueue.c:86-87), it is lost and
  the flush never returns: `Workqueue.FlushMidSettle`, `Workqueue.HangsForEver`, reached by
  `Workqueue.MidSettleReached`.
* `strip_l_modifier` does not know the F conversion, so an `l` behind `%F` can be dropped, and a second
  run can drop another: `StripL.StrippedAsIntended`, `StripL.FConversionBreaks`, `StripL.StripTwice`,
  `StripL.StripTwiceBreaks`.
* `KeReleaseSemaphore` adds two LONGs before it compares with the limit; the count stays in range
  exactly when the sum does not overflow: `Dispatcher.ReleaseInRange`, `Dispatcher.ReleaseOverflow`.
* `fix_pe_image` adds a section's address and size in 32 bits; the test accepts exactly the sections
  that fit if and only if the sum does not wrap into the image: `PeLinker.FitsExactly`,
  `PeLinker.FitsWrapped`.
* A completion routine is called with the device whose driver has set it if every driver prepares the
  slot it enters; a driver that does not can pass on a routine of another one:
  `IrpStack.OwnStep`, `IrpStack.StaleRoutine`, reached by `IrpStack.TopHolds`.
* The comment above `mp_tx_packets` asks for start + n < TX_RING_SIZE
  (ndiswrapper/driver/wrapndis.c:604-607); `tx_worker` passes start + n == TX_RING_SIZE exactly when
  that many packets are there and allowed, as `TxRing.Ring.Snapshot` states.
* `IoDetachDevice` leaves the `attached` link of the device that leaves; the rest of the stack is
  unaffected: `DeviceStack.IoDetachDevice`.

## Model

| member | source | states |
|---|---|---|
| LongLong.SubDdmmss | ndiswrapper/driver/longlong.h:1196-1204 | the two-word difference modulo 2^64, the borrow found by comparison |
| LongLong.UmulPpmm | ndiswrapper/driver/longlong.h:1206-1230 | the exact two-word product of two words |
| LongLong.CarryOut | ndiswrapper/driver/longlong.h:1223-1225 | a wrapped sum is below an addend exactly when it carried |
| LongLong.UdivQrnnd | ndiswrapper/driver/longlong.h:58-65 | the contract of the hardware divide: for n1 < d, exact quotient and remainder |
| LongLong.EstimateBound | ndiswrapper/driver/longlong.h:1247-1249 | the half-word quotient estimate is at most 2^16 + 1, so its product with the low half of the divisor does not overflow a word |
| LongLong.Correct | ndiswrapper/driver/longlong.h:1249-1258 | the estimate is at most two too large: up to two corrections, the second decided by the carry test, give the exact half-word digit and remainder |
| LongLong.QuotientDigit | ndiswrapper/driver/longlong.h:1247-1258 | one digit of the schoolbook division, with no harmful overflow of the product |
| LongLong.UdivQrnndC | ndiswrapper/driver/longlong.h:1240-1275 | for a divisor with its top bit set and n1 < d: exact quotient and remainder of n1 * 2^32 + n0 |
| LongLong.CountLeadingZeros | ndiswrapper/driver/longlong.h:1294-1316 | the shift that brings the highest set bit to the top, for every nonzero word |
| Divdi3.Normalise | ndiswrapper/driver/divdi3.c:239-245 | the three-word shift multiplies the two-word value by 2^bm |
| Divdi3.Denormalise | ndiswrapper/driver/divdi3.c:258-265 | the two-word right shift divides exactly by 2^bm |
| Divdi3.ByWordHardware | ndiswrapper/driver/divdi3.c:76-107 | one-word divisor, hardware divide: n = q * d + r, r < d |
| Divdi3.ByWordNormalising | ndiswrapper/driver/divdi3.c:109-183 | one-word divisor, normalising divide: n = q * d + r, r < d |
| Divdi3.EstimateAtMostOneOver | ndiswrapper/driver/divdi3.c:247-254 | the product of the estimate with the low divisor word does not exceed the divisor |
| Divdi3.EstimateIsQuotientOrOneMore | ndiswrapper/driver/divdi3.c:247-254 | the estimate is the quotient or one more, and the test on the product tells which |
| Divdi3.EstimateAndCorrect | ndiswrapper/driver/divdi3.c:247-261 | estimate, single correction and wrapping subtraction give exact quotient and remainder of the scaled operands |
| Divdi3.ByPair | ndiswrapper/driver/divdi3.c:202-267 | two-word divisor: n = q * d + r, r < d |
| Divdi3.Udivmoddi4 | ndiswrapper/driver/divdi3.c:58-273 | for every n and nonzero d, in both variants: n = q * d + r, r < d, hence n / d and n % d |
| Divdi3.Udivdi3 | ndiswrapper/driver/divdi3.c:316-320 | the unsigned quotient |
| Divdi3.Umoddi3 | ndiswrapper/driver/divdi3.c:322-330 | the unsigned remainder |
| Divdi3.TruncCharacterised | ndiswrapper/driver/divdi3.c:275-314 | truncating quotient and remainder are the only pair with u = q * v + r, a small remainder, and the dividend's sign (section 6.5.5 of ISO/IEC 9899:1999) |
| Divdi3.Divdi3 | ndiswrapper/driver/divdi3.c:275-295 | truncates toward zero, modulo 2^64 |
| Divdi3.Moddi3 | ndiswrapper/driver/divdi3.c:297-314 | the remainder with the dividend's sign |
| Divdi3.DivModRecombine | ndiswrapper/driver/divdi3.c:275-314 | quotient * v + remainder is u modulo 2^64 also for the most negative u; the quotient is exact except for that u and v = -1 |
| Dispatcher.KernelDispatcher.GrabObject | ndiswrapper/driver/ntoskernel.c:998-1028 | succeeds exactly if the thread can have the object, and takes it only if asked |
| Dispatcher.KernelDispatcher.ObjectSignaled | ndiswrapper/driver/ntoskernel.c:1031-1050 | the walk over the wait list wakes exactly the prefix that the object can serve, in FIFO order |
| Dispatcher.ServeOne | ndiswrapper/driver/ntoskernel.c:1037-1048 | one grab in the walk is one more step of the closed form |
| Dispatcher.SignalKeeps | ndiswrapper/driver/ntoskernel.c:1031-1050 | signalling restores the invariant: no queued waiter could still grab the object |
| Dispatcher.KernelDispatcher.KeInitializeObject | ndiswrapper/driver/ntoskernel.c:405-412 | a new object keeps the invariant |
| Dispatcher.KernelDispatcher.KeSetEvent | ndiswrapper/driver/ntoskernel.c:1223-1238 | signals and wakes on the 0 to 1 edge, returns the old state, keeps the invariant |
| Dispatcher.KernelDispatcher.KeResetEvent | ndiswrapper/driver/ntoskernel.c:1240-1256 | stores 0, returns the old state, keeps the invariant |
| Dispatcher.KernelDispatcher.KeReleaseMutex | ndiswrapper/driver/ntoskernel.c:1281-1309 | gives up one level, hands a free mutex to the first waiter, refuses a thread that does not own it |
| Dispatcher.KernelDispatcher.KeReleaseSemaphore | ndiswrapper/driver/ntoskernel.c:1324-1345 | raises the count up to the limit and serves that many waiters, unless the sum overflows, when the wrapped sum is stored and nobody is woken |
| Dispatcher.ReleaseInRange | ndiswrapper/driver/ntoskernel.c:1333-1340 | the new count lies in 0..limit if and only if the sum fits a LONG |
| Dispatcher.ReleaseOverflow | ndiswrapper/driver/ntoskernel.c:1333-1340 | count 1, limit and adjustment LONG_MAX: the count becomes negative |
| Dispatcher.KernelDispatcher.BeginSingleWait | ndiswrapper/driver/ntoskernel.c:1083-1132 | grabs at once, times out at once, or queues the thread; WaitAny and WaitAll agree for one object |
| Dispatcher.KernelDispatcher.ResumeWait | ndiswrapper/driver/ntoskernel.c:1144-1189 | success exactly if the signaller got there first, otherwise the block is unlinked |
| Dispatcher.StepKeeps | ndiswrapper/driver/ntoskernel.c:998-1345 | every step keeps the invariant on objects, owners, wait lists and outcomes |
| Dispatcher.EveryRun | ndiswrapper/driver/ntoskernel.c:998-1345 | in every run: no queued waiter could grab its object; a mutex is free exactly at signal_state 1 and otherwise held by one owner at depth 1 - signal_state; a semaphore stays in 0..limit |
| Dispatcher.EveryOutcome | ndiswrapper/driver/ntoskernel.c:1083-1213 | in every run a wait succeeded exactly if one grab was made for it, and timed out or was alerted exactly if none was |
| Dispatcher.ResumeUnlinks | ndiswrapper/driver/ntoskernel.c:1144-1189 | however timer and signaller race, a thread that comes back has no block left on any object |
| DispatcherOrder.FirstComeFirstServed | ndiswrapper/driver/ntoskernel.c:1031-1124 | in every run, of two unfinished waits on one object of any kind, the one that has been given it began first |
| DispatcherOrder.NobodyOvertakes | ndiswrapper/driver/ntoskernel.c:1083-1097 | a wait that succeeds at once leaves no unserved wait behind, except when the owner of a mutex takes it again |
| DispatcherCounts.GivenAsPutIn | ndiswrapper/driver/ntoskernel.c:998-1345 | over every run a synchronization event, semaphore or mutex is given away exactly as often as its state was raised and not lowered again |
| DispatcherCounts.StepBalances | ndiswrapper/driver/ntoskernel.c:998-1345 | the same for each step; the state of a notification event changes only by KeSetEvent and KeResetEvent |
| DispatcherCounts.ResetHolds | ndiswrapper/driver/ntoskernel.c:1240-1256 | from a reset event nobody gets through before the next KeSetEvent |
| DispatcherCounts.HeldAsGiven | ndiswrapper/driver/ntoskernel.c:1281-1309 | over every run a thread's hold on a mutex changes by what waits gave it and what it released, and the owner is the one with a hold |
| TxRing.RepresentsOneFifo | ndiswrapper/driver/wrapndis.c:698-765 | start, end and full determine the FIFO they represent |
| TxRing.EnqueueRepresents | ndiswrapper/driver/wrapndis.c:738-765 | storing at end appends to the FIFO |
| TxRing.CommitRepresents | ndiswrapper/driver/wrapndis.c:722-733 | moving start by sent removes exactly that prefix |
| TxRing.LateClear | ndiswrapper/driver/wrapndis.c:730 | clearing is_tx_ring_full is harmless if and only if the ring is not full; otherwise it reads as empty |
| TxRing.CommitInTwoStores | ndiswrapper/driver/wrapndis.c:728-730 | with packets accepted between the two stores the ring is right afterwards if and only if they do not fill it; otherwise all in it is lost |
| TxRing.Ring.Enqueue | ndiswrapper/driver/wrapndis.c:738-765 | appends one packet; full exactly at TX_RING_SIZE packets |
| TxRing.Ring.Snapshot | ndiswrapper/driver/wrapndis.c:698-722 | the offered slots are the longest prefix that does not wrap, cut at max_tx_packets; empty exactly if the ring is, up to the end of the array exactly if that many are there and allowed |
| TxRing.Ring.CommitStart | ndiswrapper/driver/wrapndis.c:728-729 | the first store removes exactly the reported prefix |
| TxRing.Ring.ClearFull | ndiswrapper/driver/wrapndis.c:730 | the second store keeps the ring if and only if it was not filled in between |
| TxRing.Ring.Commit | ndiswrapper/driver/wrapndis.c:725-731 | both stores with nothing between: removes exactly the reported prefix, also after enqueues since Snapshot |
| TxPath.AdvanceValue | ndiswrapper/driver/wrapndis.c:641-647 | u8 `sent--` and the loop's `sent++` cancel, also at 0 |
| TxPath.StepKeeps | ndiswrapper/driver/wrapndis.c:608-693 | every step of worker, driver and completion keeps the invariant |
| TxPath.FreedExactlyOnce | ndiswrapper/driver/wrapndis.c:624-693 | in every run no packet is freed twice, one that left the ring is freed unless its completion is still owed, and none at or behind the cursor is freed but one completed from inside MiniportSend |
| TxPath.OwedCompletionFrees | ndiswrapper/driver/ndis.c:2191-2225 | the completion that is owed does free the packet |
| TxPath.NoUseAfterFree | ndiswrapper/driver/wrapndis.c:624-693 | neither party touches a freed packet |
| TxPath.LeavesInOrder | ndiswrapper/driver/wrapndis.c:698-765 | in every run what left the ring and what is in it are the accepted packets in order of acceptance |
| TxPath.Resubmitted | ndiswrapper/driver/wrapndis.c:628-660 | a packet refused by MiniportSendPackets and all behind it stay in the ring if and only if nothing sets tx_ok before the loop ends; otherwise it is freed untaken |
| TxRuns.RefusedFreedUnsent | ndiswrapper/driver/wrapndis.c:628-660 | the failing run: one packet taken, one refused, one left alone, a completion in the loop |
| TxPath.ResentBySend | ndiswrapper/driver/wrapndis.c:664-693 | a packet refused by MiniportSend and all behind it stay in the ring until MiniportSend is called again |
| TxPath.PauseStep | ndiswrapper/driver/wrapndis.c:641-647 | a step keeps it that a paused worker has a completion coming if and only if it is not a refusal made while none is owed |
| TxPath.PauseEnds | ndiswrapper/driver/ndis.c:2211-2222 | in every run without such refusals a paused worker has an owed completion that sets tx_ok, after which what is in the ring can be offered |
| TxPath.StalledStep | ndiswrapper/driver/wrapndis.c:698-733 | paused with nothing owed: only NdisMSendResourcesAvailable ends it |
| TxPath.StalledForEver | ndiswrapper/driver/wrapndis.c:698-733 | without that call no run offers a packet again |
| TxRuns.StallReached | ndiswrapper/driver/wrapndis.c:624-660 | a run to it: the completion comes before MiniportSendPackets returns |
| TxRuns.SendStallReached | ndiswrapper/driver/wrapndis.c:664-693 | a run to it through MiniportSend |
| TxPath.UnsetCompletion | ndiswrapper/driver/ndis.c:2191-2225 | completing inside MiniportSendPackets without a stored status is sound if and only if the packet was not refused before |
| TxRuns.UnsetCompletionFreesTwice | ndiswrapper/driver/ndis.c:2191-2225 | the failing case, in a state that a run reaches: both parties free |
| Workqueue.StepKeeps | ndiswrapper/driver/workqueue.c:66-237 | every step keeps links, order, accounting and wake-ups |
| Workqueue.FlushMidSettle | ndiswrapper/driver/workqueue.c:86-87 | the store of a flush keeps the invariant if and only if it does not fall between the worker's read and clearing of completion; otherwise it is lost |
| Workqueue.HangsForEver | ndiswrapper/driver/workqueue.c:225-237 | after that no run lets the flush return |
| Workqueue.MidSettleReached | ndiswrapper/driver/workqueue.c:72-104 | a run to a worker between the two accesses |
| Workqueue.MidCancelReached | ndiswrapper/driver/workqueue.c:154-166 | a run to an item between xchg and list_del |
| Workqueue.RequeueMidCancel | ndiswrapper/driver/workqueue.c:114-166 | accepting an item keeps the links sound if and only if it is not being cancelled; otherwise it is linked twice |
| Workqueue.EveryRun | ndiswrapper/driver/workqueue.c:66-166 | in every run each accepted queueing ends once, by running or cancellation; FIFO; no item linked twice; no lost wake-up |
| Workqueue.NothingDropped | ndiswrapper/driver/workqueue.c:114-137 | in every run each queueing of an item that was not owned is linked, running, run or cancelled |
| Workqueue.OwnedIsLinked | ndiswrapper/driver/workqueue.c:114-166 | an item is owned exactly while linked and not being cancelled |
| Workqueue.CancelledWasAsked | ndiswrapper/driver/workqueue.c:154-166 | in every run what was cancelled somebody asked to cancel |
| Workqueue.CancelledNeverRuns | ndiswrapper/driver/workqueue.c:154-166 | after a cancellation has won, no run executes that queueing |
| Workqueue.WorkerCanGoOn | ndiswrapper/driver/workqueue.c:66-106 | while work is linked the worker has a step to make |
| Workqueue.FlushWaitsForAll | ndiswrapper/driver/workqueue.c:225-237 | a flush returns only after everything accepted before it began has ended, and leaves no pointer to its completion |
| Workqueue.UnlinkItemIs | ndiswrapper/driver/workqueue.c:154-166 | list_del on an item removes exactly its queueing |
| Workqueue.WorkqThread.WrapQueueWorkOn | ndiswrapper/driver/workqueue.c:114-137 | returns 0 and changes nothing exactly if the item is owned; otherwise returns 1, appends it as the newest queueing, owns it and sets pending |
| Workqueue.WorkqThread.CancelExchange | ndiswrapper/driver/workqueue.c:160-161 | wins exactly if the item was owned |
| Workqueue.WorkqThread.CancelDelete | ndiswrapper/driver/workqueue.c:162-164 | unlinks the item, which then never runs for this queueing |
| Workqueue.WorkqThread.Turn | ndiswrapper/driver/workqueue.c:72-104 | one turn of the worker: runs the head, waits for a canceller, or clears pending and reads completion |
| Workqueue.WorkqThread.SettleCompletion | ndiswrapper/driver/workqueue.c:87-90 | clears completion and releases the flusher that was read |
| Workqueue.WorkqThread.Perform | ndiswrapper/driver/workqueue.c:66-237 | whatever the threads do, the structure follows the state machine and keeps its invariant |
| Workqueue.WorkqThread.FlushStoreCompletion | ndiswrapper/driver/workqueue.c:231-232 | the completion is in place before pending is set; between the worker's read and clearing it is lost, see FlushMidSettle |
| Workqueue.WorkqThread.FlushSetPending | ndiswrapper/driver/workqueue.c:233-235 | wakes the worker |
| NtList.RingByLinks | ndiswrapper/driver/winnt_types.h:1551-1558 | the four stores of an insertion make a ring of the longer list |
| NtList.InitializeListHead | ndiswrapper/driver/winnt_types.h:1506-1509 | the empty ring |
| NtList.IsListEmpty | ndiswrapper/driver/winnt_types.h:1511-1517 | true exactly if the ring has no entries |
| NtList.InsertListEntry | ndiswrapper/driver/winnt_types.h:1551-1558 | a well-formed ring with the entry between its neighbours |
| NtList.InsertHeadList | ndiswrapper/driver/winnt_types.h:1560-1572 | the entry first, the old first entry returned |
| NtList.InsertTailList | ndiswrapper/driver/winnt_types.h:1574-1586 | the entry last, the old last entry returned |
| NtList.RemoveEntryList | ndiswrapper/driver/winnt_types.h:1519-1523 | the ring without that entry |
| NtList.RemoveHeadList | ndiswrapper/driver/winnt_types.h:1525-1536 | the first entry removed and returned, or null |
| DpcQueue.AcceptKeeps | ndiswrapper/driver/ntoskernel.c:647-669 | a queueing keeps accounting and the order of normal DPCs, also when inserted at the head |
| DpcQueue.RunKeeps | ndiswrapper/driver/ntoskernel.c:610-638 | running the head keeps them |
| DpcQueue.RemoveKeeps | ndiswrapper/driver/ntoskernel.c:671-687 | removing any entry keeps them |
| DpcQueue.EndsOnce | ndiswrapper/driver/ntoskernel.c:610-687 | each accepted queueing is linked, run or removed, exactly once; normal DPCs ran in the order of acceptance, with none of them overtaken |
| DpcQueue.Queue.Initialize | ndiswrapper/driver/ntoskernel.c:600-608 | a new DPC is not queued |
| DpcQueue.Queue.QueueKdpc | ndiswrapper/driver/ntoskernel.c:647-669 | refused exactly if queued; otherwise linked at head or tail; linked exactly if `queued` |
| DpcQueue.Queue.DequeueKdpc | ndiswrapper/driver/ntoskernel.c:671-687 | succeeds exactly if queued, and unlinks that entry |
| DpcQueue.Queue.TakeNext | ndiswrapper/driver/ntoskernel.c:619-631 | takes the head, clears its `queued`, and records the queueing of that very DPC as run |
| RwLock.StepKeeps | ndiswrapper/driver/ndis.c:902-933 | every step of any number of threads keeps the count right |
| RwLock.CountIsRight | ndiswrapper/driver/ndis.c:902-933 | in every run the count is -1 with one thread in the lock, which asked to write, or the number of threads in it, which asked to read |
| RwLock.WritersExclude | ndiswrapper/driver/ndis.c:902-922 | in every run who asked to write and is in the lock excludes everyone else |
| RwLock.WriteIsGiven | ndiswrapper/driver/ndis.c:906-913 | a free lock is given to a thread that asks to write |
| RwLock.ReadIsGiven | ndiswrapper/driver/ndis.c:914-921 | a lock without a writer is given to a thread that asks to read |
| RwLock.ReleaseTakesItsBranch | ndiswrapper/driver/ndis.c:924-933 | a holder's release takes the branch of its role, never the warning |
| Pools.TakeBalanced | ndiswrapper/driver/ndis.c:1233-1236 | taking from the free list keeps allocated = outstanding + free |
| Pools.PutBalanced | ndiswrapper/driver/ndis.c:1292-1296 | so does putting back, and the list stays at 16 or fewer |
| Pools.PacketPool.AllocatePacket | ndiswrapper/driver/ndis.c:1527-1577 | one caller: refused exactly over the limit or without memory; used count = outstanding, at most max_descr + 1 |
| Pools.PacketPool.FreePacket | ndiswrapper/driver/ndis.c:1586-1617 | returns one descriptor, to the free list or to the kernel |
| Pools.BufferPool.AllocateBuffer | ndiswrapper/driver/ndis.c:1217-1272 | one caller: as for packets, the limit on the allocated count |
| Pools.BufferPool.FreeBuffer | ndiswrapper/driver/ndis.c:1274-1299 | returns one descriptor, to the free list or to the kernel |
| PoolSteps.StepKeeps | ndiswrapper/driver/ndis.c:1217-1299 | every test, count and list operation of any number of threads keeps the counts exact and the lists apart |
| PoolSteps.EveryRun | ndiswrapper/driver/ndis.c:1527-1617 | in every concurrent run the free list has at most 16 entries, the limited count is at most max_descr plus the number of threads, nothing is free twice or free and held |
| PoolSteps.LimitOverrun | ndiswrapper/driver/ndis.c:1541-1568 | a run that meets this bound and exceeds max_descr + 1 |
| PoolSteps.AloneReleases | ndiswrapper/driver/ndis.c:1586-1617 | a release by a thread that is alone: to the kernel exactly if more than 16 are counted, else to the front of the free list |
| PoolSteps.AloneAllocatesPacket | ndiswrapper/driver/ndis.c:1527-1577 | an allocation of a packet by a thread that is alone: refused exactly over the limit, else the front of the free list or new memory |
| PoolSteps.AloneAllocatesBuffer | ndiswrapper/driver/ndis.c:1217-1272 | an allocation of a buffer: the limit is tested only if none is free |
| PacketCopy.FlatWrite | ndiswrapper/driver/ndis.c:1672-1673 | writing inside one buffer is writing at the matching place of the flat contents |
| PacketCopy.ChunkWritten | ndiswrapper/driver/ndis.c:1672-1699 | one chunk extends the flat copy by its bytes |
| PacketCopy.NextChunk | ndiswrapper/driver/ndis.c:1675-1701 | one turn: ends where a chain ends, otherwise advances, zero-length buffers included |
| PacketCopy.CopyChains | ndiswrapper/driver/ndis.c:1658-1703 | the loop terminates having copied min(requested, source left, destination left) bytes |
| PacketCopy.CopyFromPacketToPacketSafe | ndiswrapper/driver/ndis.c:1645-1704 | equals one flat copy of that many bytes, all other bytes unchanged, the count exact |
| PeLinker.LoadedDisjoint | ndiswrapper/driver/pe_linker.c:445-472 | for disjoint sections each byte is the one its section maps there, a header byte, or zero |
| PeLinker.FitsExactly | ndiswrapper/driver/pe_linker.c:461-466 | the test accepts exactly the sections inside the image if and only if their end does not wrap into the image; for all sizes if and only if it does not wrap |
| PeLinker.FitsWrapped | ndiswrapper/driver/pe_linker.c:461-470 | a section that passes and is copied out of bounds |
| PeLinker.FixPeImage | ndiswrapper/driver/pe_linker.c:404-487 | the expanded image byte by byte; the error cases exactly |
| PeLinker.Expand | ndiswrapper/driver/pe_linker.c:440-476 | zeroes, headers, then sections in order; fails exactly if one does not fit |
| PeReloc.LEofToLE | ndiswrapper/driver/pe_linker.c:356-380 | storing a number little endian and reading it back |
| PeReloc.ApplyFrame | ndiswrapper/driver/pe_linker.c:319-397 | bytes outside the slots do not change |
| PeReloc.RelocatedValue | ndiswrapper/driver/pe_linker.c:356-380 | each slot is its old value plus (load address - ImageBase), modulo 2^32 or 2^64 |
| PeReloc.RelocateTwice | ndiswrapper/driver/pe_linker.c:319-397 | relocating from A to B and on to C is relocating from A to C |
| PeReloc.RelocatedImage | ndiswrapper/driver/pe_linker.c:319-487 | expansion and relocation together: each byte outside the slots |
| PeTable.PageIs | ndiswrapper/driver/pe_linker.c:340-386 | a block encoded as the specification says reads back as its entries, each at page address plus offset |
| PeTable.AcceptedTypes | ndiswrapper/driver/pe_linker.c:352-385 | exactly the types 0, 3 and 10 are known |
| PeTable.TableIs | ndiswrapper/driver/pe_linker.c:332-393 | so does an encoded table: exactly its entries are handled, up to the first unknown type |
| PeTable.MovesWhatIsAsked | ndiswrapper/driver/pe_linker.c:319-397 | with such a table each entry of type 3 has its 32-bit word, and each of type 10 its 64-bit word, moved by delta |
| PeTable.MovesNothingElse | ndiswrapper/driver/pe_linker.c:319-397 | and no other byte changes |
| PeReloc.Patch | ndiswrapper/driver/pe_linker.c:356-380 | the store of one fixup |
| PeReloc.FixupEntry | ndiswrapper/driver/pe_linker.c:349-388 | one entry: applied, or an unknown type reported |
| PeReloc.FixupBlock | ndiswrapper/driver/pe_linker.c:340-389 | the entries of a block in order, up to the first unknown type |
| PeReloc.FixupReloc | ndiswrapper/driver/pe_linker.c:319-397 | applies exactly the entries before the first unknown type of the table as read from the image; fails exactly if there is one; nothing if the directory is empty |
| IrpStack.ConsultedOncePerUse | ndiswrapper/driver/ntoskernel_io.c:396-439 | every use of a slot is consulted exactly once; those from the current one up are still to come |
| IrpStack.ConsultedUpwards | ndiswrapper/driver/ntoskernel_io.c:396-439 | between calls slots are consulted from lower to higher, skipping none |
| IrpStack.FinishedOnce | ndiswrapper/driver/ntoskernel_io.c:396-465 | the final stage runs at most once, last, at current_location == stack_count, with all uses consulted |
| IrpStack.SlotBelow | ndiswrapper/driver/ntoskernel_io.c:354-357 | whoever has a device below has a slot below |
| IrpStack.StepKeeps | ndiswrapper/driver/ntoskernel_io.c:347-514 | every operation keeps the slot discipline, with any completion routine and context |
| IrpStack.EveryRun | ndiswrapper/driver/ntoskernel_io.c:58-514 | in every run of an IRP allocated for n devices: the pointer is slot current_location, inside the IRP; nobody who may forward it meets the error exit; uses and consultations balance |
| IrpStack.OwnStep | ndiswrapper/driver/ntoskernel_io.c:405-427 | routines stay with the device above their slot if and only if no slot is entered with the routine of another device |
| IrpStack.RoutineGetsItsDevice | ndiswrapper/driver/ntoskernel_io.c:405-427 | in every run in which drivers prepare the slots they enter, a routine is called with the device whose driver set it |
| IrpStack.StaleRoutine | ndiswrapper/driver/ntoskernel_io.c:467-471 | set, pass down, call on: the routine is called with the lower device |
| IrpStack.TopHolds | ndiswrapper/driver/ntoskernel_io.c:347-377 | a sent IRP is held by the top device, with a slot for each device below |
| IrpStack.SyncForwardIsRun | ndiswrapper/driver/ntoskernel_io.c:482-503 | IoSyncForwardIrp, its event as context, is a run of any holder to any device below it and prepares its slot |
| IrpStack.AsyncForwardIsRun | ndiswrapper/driver/ntoskernel_io.c:505-514 | so is IoAsyncForwardIrp |
| IrpStack.ForwardedSlot | ndiswrapper/driver/winnt_types.h:1107-1131 | the slot a forward enters: request copied, routine for every outcome or none that could be called; other slots unchanged |
| IrpStack.CompleteClimbs | ndiswrapper/driver/ntoskernel_io.c:396-439 | one IofCompleteRequest consults consecutive slots upwards and finishes unless the last routine kept the IRP |
| IrpStack.PendingPropagates | ndiswrapper/driver/ntoskernel_io.c:403-437 | a pending mark reaches every higher slot up to which no routine is called, set or not |
| IrpStack.SyncForwardRegains | ndiswrapper/driver/ntoskernel_io.c:473-503 | completion from below stops at the slot IoSyncForwardIrp prepared |
| IrpRoutines.SentIsRun | ndiswrapper/driver/winnt_types.h:1117-1131 | setting a routine and sending the IRP down is a run of any holder with a device below |
| IrpRoutines.CalledAsSet | ndiswrapper/driver/ntoskernel_io.c:418-425 | from the arguments of IoSetCompletionRoutine to the consultation, over any run between: the routine is called if and only if it was set for success, error or cancellation and that is what happened |
| IrpRoutines.AsyncCallsNothing | ndiswrapper/driver/ntoskernel_io.c:505-514 | a slot entered by IoAsyncForwardIrp calls nothing |
| IrpRoutines.RoutineMarks | ndiswrapper/driver/winnt_types.h:1133-1134 | a routine's pending mark goes to the slot above its own, and its io_status is kept |
| IrpStack.Irp.constructor | ndiswrapper/driver/ntoskernel_io.c:58-100 | one slot more than the device's stack_count, location past the last |
| IrpStack.Irp.IoCopyCurrentIrpStackLocationToNext | ndiswrapper/driver/winnt_types.h:1107-1115 | the request is copied, the routine is left but disabled |
| IrpStack.Irp.IoSetCompletionRoutine | ndiswrapper/driver/winnt_types.h:1117-1131 | routine, context and flags of the next lower slot |
| IrpStack.Irp.IofCallDriver | ndiswrapper/driver/ntoskernel_io.c:347-377 | fails exactly without a slot; otherwise pointer and location go down together |
| IrpStack.Irp.IofCompleteRequest | ndiswrapper/driver/ntoskernel_io.c:379-465 | the loop with its own slot pointer computes Complete, whose properties are above |
| IrpStack.Irp.IoPassIrpDown | ndiswrapper/driver/ntoskernel_io.c:467-471 | the lower device gets the same slot |
| IrpStack.Irp.IoSyncForwardIrp | ndiswrapper/driver/ntoskernel_io.c:482-503 | copy, set the routine for success, error and cancel, call: SyncForward, whose properties are above |
| IrpStack.Irp.IoAsyncForwardIrp | ndiswrapper/driver/ntoskernel_io.c:505-514 | copy and call: AsyncForward, whose properties are above |
| DeviceStack.CountNamesDevice | ndiswrapper/driver/ntoskernel_io.c:883-903 | in one stack, stack_count and device determine each other |
| DeviceStack.IoGetAttachedDevice | ndiswrapper/driver/ntoskernel_io.c:859-870 | the top of the stack, from any of its devices |
| DeviceStack.IoAttachDeviceToDeviceStack | ndiswrapper/driver/ntoskernel_io.c:883-903 | the new device becomes the top with the next stack_count, and the old top is returned |
| DeviceStack.IoDetachDevice | ndiswrapper/driver/ntoskernel_io.c:835-857 | the stack without that device, counts lowered; nothing without one above |
| UsbUrb.FirstFree | ndiswrapper/driver/usb.c:263-272 | a free URB of the list, or none is free |
| UsbUrb.StepKeeps | ndiswrapper/driver/usb.c:183-478 | every step keeps list, ownership, pointers, completion list and log consistent |
| UsbUrb.HeadListed | ndiswrapper/driver/usb.c:409-423 | the worker finds the IRP of the URB it takes |
| UsbUrb.ReuseMidClear | ndiswrapper/driver/usb.c:206-210 | a search keeps the invariant if and only if it does not hit a URB between the two stores of its release |
| UsbUrb.ReuseMidClearLosesIrp | ndiswrapper/driver/usb.c:206-210 | otherwise the submitted URB loses its IRP, which is not completed |
| UsbUrb.MidClearReached | ndiswrapper/driver/usb.c:183-371 | a run to such a search |
| UsbUrb.EveryRun | ndiswrapper/driver/usb.c:183-478 | in every run num_alloc_urbs is the list length; an IRP is completed at most once, by the worker exactly if STATUS_PENDING was returned |
| UsbUrb.Bijection | ndiswrapper/driver/usb.c:245-478 | URBs in use and the IRPs that hold one correspond one to one |
| UsbUrb.SomebodyCanGoOn | ndiswrapper/driver/usb.c:1139-1190 | while an IRP is not completed some step is possible |
| UsbUrb.StepLowers | ndiswrapper/driver/usb.c:183-478 | every step brings one IRP closer to its completion and leaves the others where they are |
| UsbUrb.RunEnds | ndiswrapper/driver/usb.c:183-478 | without new IRPs the length of a run is bounded |
| UsbUrb.AllCompletedAtRest | ndiswrapper/driver/usb.c:1139-1190 | in every run that cannot go on, each IRP has been completed exactly once |
| UsbOrder.CompletedInOrder | ndiswrapper/driver/usb.c:373-478 | in every run the worker completes IRPs in the order in which the USB core called back |
| UsbUrb.CompleteKeeps | ndiswrapper/driver/pnp.c:228-236 | the dispatcher completes the IRPs that are not pending, the worker the others |
| UsbUrb.FindFree | ndiswrapper/driver/usb.c:263-272 | the loop finds the first free URB |
| UsbUrb.UsbDevice.SearchUrb | ndiswrapper/driver/usb.c:260-306 | takes it for the IRP, as the Search step |
| UsbUrb.UsbDevice.InsertUrb | ndiswrapper/driver/usb.c:273-306 | a new URB at the tail, counted, tied to its IRP |
| UsbUrb.UsbDevice.UndoUrb | ndiswrapper/driver/usb.c:315-324 | without a transfer buffer the URB is free again and the IRP forgets it |
| UsbUrb.UsbDevice.SubmitUrb | ndiswrapper/driver/usb.c:336-371 | pending exactly if the USB core accepts |
| UsbUrb.UsbDevice.UrbComplete | ndiswrapper/driver/usb.c:373-394 | the URB goes to the end of the completion list |
| UsbUrb.UsbDevice.TakeUrb | ndiswrapper/driver/usb.c:409-423 | the head of the completion list, with its IRP |
| UsbUrb.UsbDevice.FreeUrbEnter | ndiswrapper/driver/usb.c:183-199 | the IRP forgets the URB; keep it or not |
| UsbUrb.UsbDevice.FreeUrbRemove | ndiswrapper/driver/usb.c:199-205 | unlinked, uncounted, freed |
| UsbUrb.UsbDevice.FreeUrbStore | ndiswrapper/driver/usb.c:206-207 | free for reuse |
| UsbUrb.UsbDevice.FreeUrbClear | ndiswrapper/driver/usb.c:208-210 | without an IRP |
| StripL.ScanFormat | ndiswrapper/driver/crt.c:27-100 | on a well-formed format the scan drops the single l of integer conversions, and one character more for each trap |
| StripL.StrippedAsIntended | ndiswrapper/driver/crt.c:27-100 | the result is the intended format if and only if no F conversion sets a trap |
| StripL.NoFNoTraps | ndiswrapper/driver/crt.c:27-100 | formats without F conversions come out as intended |
| StripL.Conversions | ndiswrapper/driver/crt.c:44-73 | the letters of the two conversion lists, which share none |
| StripL.FConversionBreaks | ndiswrapper/driver/crt.c:44-89 | a format with F that does not |
| StripL.ScanOutcome | ndiswrapper/driver/crt.c:27-100 | what comes out of any well-formed format, piece by piece, is again a well-formed format |
| StripL.StripTwice | ndiswrapper/driver/crt.c:27-100 | stripping twice is stripping once if and only if no trap leaves another lone l behind; in particular wherever the result is the intended one |
| StripL.StripTwiceBreaks | ndiswrapper/driver/crt.c:44-89 | a format that a second run changes again |
| StripL.FirstPass | ndiswrapper/driver/crt.c:37-91 | after the first pass the buffer with its zeroes purged is the scanned text |
| StripL.SecondPass | ndiswrapper/driver/crt.c:93-100 | the second pass purges the zeroes in place |
| StripL.StripLModifier | ndiswrapper/driver/crt.c:27-100 | the two in-place passes leave exactly the stripped string |

## Left out

- Waits on more than one object, the DISPATCH_LEVEL early return, and LONG overflow of a mutex's recursion depth.
- KeClearEvent and KeResetEvent are one atomic store each, though the code does not take the dispatcher lock for them.
- TxRing.Ring.Snapshot: the reads of start, end and full by the worker are one step; reads outside the lock elsewhere are not modelled.
- TxPath models a driver and a worker as atomic steps on values: deserialized drivers, the teardown drain of the ring, and `set_media_state` and `ndis_net_dev_open` (which stop or wake the queue and clear `tx_ok`) are not part of it; a packet address is not reused within a run.
- TxRing.Ring.Enqueue: requires a ring that is not full, as the network layer calls it only while its queue is not stopped.
- RwLock models each thread's position in the code on values; the 32-bit width of the count is not modelled.
- The steps of RwLock, TxPath, Workqueue and UsbUrb are sequentially consistent; reordering by the processor is not modelled.
- Multi-thread workqueues, the destruction of a workqueue (negative `pending`), and several flushers at a time.
- Pools: the classes make an allocation or release in one step, PoolSteps in its single steps; ALLOW_POOL_OVERFLOW and the contents of descriptors are not modelled.
- PacketCopy.CopyFromPacketToPacketSafe: the two chains are disjoint and each start offset lies within its first buffer.
- PeLinker.FixPeImage: the headers inside both images, and each section that is copied inside the file and the image, are the caller's duty, as the code does not check them; FitsExactly says when the code's own test ensures the latter.
- PeReloc.FixupReloc: up to the first unknown type, a table of blocks of at least 8 bytes inside the image, with slots inside the image and outside the table, is the caller's duty, as the code does not check it; pointers have 64 bits.
- IrpStack: the dispatch routines and completion routines are any sequence of the holder's operations; MDLs, buffers and user status of the final stage, and IoCancelIrp, are not modelled.
- IrpStack.Irp.constructor: stack counts below 127, as the field is a signed char; an IRP that cannot be allocated is not modelled.
- DeviceStack.IoAttachDeviceToDeviceStack: finding the top and linking to it is one step; `attached_to` of devices above one that is detached is not followed.
- UsbUrb: one device that stays present; transfer buffers, pipes, cancellation requests (which only make the USB core call back) and `kill_all_urbs` are not modelled.
- LongLong.CountLeadingZeros: the table `__clz_tab` is not part of this model; its entries are taken to be bit lengths.
- The architecture-specific assembly of longlong.h, of which only the contracts are used.
- Import and export tables of images, the Windows calling conventions, ioctls, procfs, port I/O, timers, DMA, IRQL emulation, suspend and resume, string helpers and memory tracking.
