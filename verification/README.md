# Verified model of a user-space driver layer for Intel DSA

The repository drives Intel's Data Streaming Accelerator from user space. Programs hand it
64-byte descriptors; the device reads them from memory some time later, carries them out and
writes completion records, which the program polls. This project models the four parts where
that is hard to get right, and proves what each of them is for.

* **Descriptor submitters** (`Submission`, `BatchRing`, `MirroredRing`, `RingSubmitters`,
  `RingInflight`, `Reentry`, `FixedRings`, `Staging`, `StagingGate`). Five strategies batch
  descriptors into memory that the device reads asynchronously. Each ring is a machine whose steps are the driver's and the device's,
  and the theorems are about every run of it; a class with the fields of the source performs
  those steps in the order the source does and records them in a ghost log, so the theorems
  hold of every sequence of calls. A spinning wait takes a finite schedule of device
  completions; a call still waiting when the schedule ends says so and says what for.
  `Reentry` adds the callback the engine runs in those waits, which may submit again.
* **Completion queues** (`TicketRing`, `LockFreeList`, `LockFreeVerdicts`, `LockedList`,
  `Links`, `TaskQueues`, `RingBufferQueues`, `RunLoop`). The concurrent protocols are machines over atomic steps of
  any number of producers and one poller, whose polls may nest, or any number of pollers for
  the locked list. The
  four polls, with their intrusive lists, are methods proved against one specification,
  `PolledRight`.
* **Page-fault continuation** (`Memmove`, `PageFault`, `Receiver`, `Backpressure`,
  `WorkQueue`). A faulting operation is resumed where it stopped: by the Rust retry loop, and by the C++ descriptor adjustment with
  resubmission from `notify`. `Receiver` follows all operations from `start` to the signal;
  `Backpressure` has the engine's gate that such a resubmission may wait at, `WorkQueue` what
  that gate is for.
* **Asynchronous session** (`AsyncSession`). One owner, any number of calls through cloned
  handles, one worker thread and a channel, over every interleaving.

Two smaller pieces stand beside them: `Bits` (the 64-bit arithmetic of ring sizes, masks and
aligned pointers) and `Crc16` (the T10 DIF guard checksum as polynomial division).

Where the code and its comments disagree the model follows the code. The submitter concept
describes `drain` as flush plus wait for in-flight work
(`dsa-stdexec/src/dsa/descriptor_submitter.hpp:76`), but the staging submitter's `drain` only
flushes (line 221): `Staging.DrainedIff` says exactly when everything has been read
nevertheless. The lock-free queue announces first-in first-out
processing (`dsa-stdexec/src/dsa/task_queue.hpp:410`), yet notifies the newest operation first:
`TaskQueues.LockFreeTaskQueue.Poll` states the order it really has.

Properties that turned out false in some cases are stated with their exact condition:

* the mirrored ring works if and only if it fills whole pages or batches hold one descriptor
  (`MirroredRing.MirrorWorksIff`);
* re-entry through the wait callback loses no descriptor of the plain ring if and only if
  batches hold one descriptor (`Reentry.ReentryKeepsAllIff`);
* a drain of the staging submitter returns with everything read under the condition of
  `Staging.DrainedIff`, and in all runs if and only if batches hold one descriptor
  (`Staging.DrainWaitsIff`);
* the in-flight counter of the two rings is the number of batches of two or more descriptors in
  flight, in all runs, if and only if there is one batch record or no batch holds two
  (`RingInflight.InflightExactIff`); it is never higher (`RingInflight.InflightWithin`);
* the sequence-numbered ring is safe if and only if it has at least two cells
  (`TicketRing.SafeIffTwoCells`); a push its consumer makes while notifying returns unless tail
  is a whole turn ahead of head (`TicketRing.OwnPushHangsIff`), so that a poll returns, with no
  other thread pushing meanwhile, if and only if it pushes back no more operations than there
  are cells (`RingBufferQueues.RingBufferTaskQueue.Poll`);
* a submit at the engine's gate, with the direct submitter, can return unless the counter has
  reached the capacity and nothing is queued (`Backpressure.SubmitHangsIff`), which is, when
  every operation carries a descriptor, unless the polls in progress hold as many operations as
  the work queue has entries (`Backpressure.PlainSubmitHangsIff`);
* that gate keeps the descriptors with the device within the work queue if and only if no
  operation without a descriptor is pushed (`WorkQueue.NeverOverfullIff`): each of those lets
  one descriptor too many through, and no more than that (`WorkQueue.AtMostWithDevice`);
* with the staging submitter that gate closes for good if and only if single-descriptor
  doorbells and buffers still waited for amount to the capacity (`StagingGate.GateClosesIff`);
* resuming a copy, a dualcast, a fill, a comparison or a copy that worked backwards is right if and only
  if a condition on addresses, progress and contents holds (`PageFault.CopyResumesIff`,
  `DualcastResumesIff`, `FillResumesIff`, `CompareResumesIff`, `CompareValueResumesIff`, `BackwardFaultIff`).

Verify with `dafny verify dfyconfig.toml`.

## Model

| member | source | states |
|---|---|---|
| `Bits.RoundUpPow2` | dsa-stdexec/src/dsa/descriptor_submitter.hpp:51-62 | For every 64-bit size up to 2^63 the smear returns the least power of two at or above it; above 2^63 it returns 0. |
| `Bits.AlignUp` | dsa-stdexec/src/dsa/mirrored_ring.hpp:12-16 | The masked sum is the first multiple of the alignment at or above n. |
| `Bits.AlignedRecordFits` | dsa-stdexec/src/dsa/dsa_operation_base.hpp:43-47 | An aligned record of 2^k bytes lies wholly inside a buffer of 2^(k+1)-1 bytes, wherever the buffer starts. |
| `Bits.OperationRecordsFit` | dsa-stdexec/src/dsa/dsa_operation_base.hpp:31-47 | Descriptor and completion pointers are 64- and 32-byte aligned and inside their 127- and 63-byte buffers, for every buffer address. |
| `Submission.BatchSize` | dsa-stdexec/src/dsa/descriptor_submitter.hpp:433-438 | The batch size is the smaller of the request (or the default) and the work queue's limit, if that reports one; it is at least one. |
| `Submission.Masked` | dsa-stdexec/src/dsa/descriptor_submitter.hpp:569-570 | Masking a position with size-1 is the position modulo the size, for every power of two. |
| `RingSubmitters.Configure` | dsa-stdexec/src/dsa/descriptor_submitter.hpp:429-458 | The geometry computed at initialisation is valid, its sizes are the least powers of two that fit, and the layout is sound for the plain ring always and for the mirrored one, which has to be mappable, exactly under the page condition. |
| `BatchRing.RunInv` | dsa-stdexec/src/dsa/descriptor_submitter.hpp:462-513 | Every run of opening, appending, sealing, reclaiming and device completion keeps the ring invariant and, in a sound layout, the history of what was delivered. |
| `BatchRing.DmaSafety` | dsa-stdexec/src/dsa/descriptor_submitter.hpp:573-626 | After every run, in every layout, each batch in flight is one range of mapped addresses (within the ring, or within ring and mirror) and shares no cell with another live batch; in a sound layout it holds what it was sealed with. |
| `BatchRing.DeliversInOrder` | dsa-stdexec/src/dsa/descriptor_submitter.hpp:593-626 | Refinement of the direct submitter: the doorbells' batches laid end to end and then the open batch are the submitted descriptors in order, and the device fetched what each doorbell named. |
| `BatchRing.CountsAddUp` | dsa-stdexec/src/dsa/descriptor_submitter.hpp:569-591 | After every run, in every layout, the counts of live batches add up to tail minus head, the batch counters are at most the number of records apart, and the space left is between 0 and the ring size. |
| `BatchRing.FullRingIsInFlight` | dsa-stdexec/src/dsa/descriptor_submitter.hpp:462-475 | When no space is left, every record is in flight and every batch is full. |
| `BatchRing.WaitsOnlyOnDevice` | dsa-stdexec/src/dsa/descriptor_submitter.hpp:462-486 | Whenever submission must wait and reclaiming has stopped, the oldest batch is unfinished device work, never the open batch. |
| `BatchRing.SealedRecord` | dsa-stdexec/src/dsa/descriptor_submitter.hpp:593-612 | After sealing, the record that is current next is free or in flight, never filling. |
| `MirroredRing.RegionShape` | dsa-stdexec/src/dsa/mirrored_ring.hpp:25-27 | The mapped region is whole descriptors, at least the ring, and equal to it exactly when the ring fills whole pages. |
| `MirroredRing.MirrorBytes` | dsa-stdexec/src/dsa/mirrored_ring.hpp:48-65 | A byte read through the double mapping is the byte of the cell with that index modulo the region. |
| `MirroredRing.MirrorReads` | dsa-stdexec/src/dsa/mirrored_ring.hpp:48-65 | After every run of the mirrored submitter, in every layout, a batch in flight lies within the two mappings, and each byte the device reads there is that byte of the descriptors the machine's fetch returns. |
| `MirroredRing.MirrorWorksIff` | dsa-stdexec/src/dsa/descriptor_submitter.hpp:658-711 | Every run of the mirrored submitter hands the device exactly the submitted descriptors if and only if the ring fills whole pages or batches hold one descriptor. |
| `MirroredRing.FourKilobytePages` | dsa-stdexec/src/dsa/descriptor_submitter.hpp:645-660 | With 4 KB pages and sixteen batches the condition fails for batch size two and for no other. |
| `RingSubmitters.RingSubmitter.constructor` | dsa-stdexec/src/dsa/descriptor_submitter.hpp:429-458 | A new submitter is the initial state of the machine, with nothing submitted. |
| `RingSubmitters.RingSubmitter.DescAvailable` | dsa-stdexec/src/dsa/descriptor_submitter.hpp:571-571 | The space left is never negative and is what the machine has left. |
| `RingSubmitters.RingSubmitter.SubmitBatch` | dsa-stdexec/src/dsa/descriptor_submitter.hpp:593-612 | Is exactly the machine's sealing step: a single descriptor is marked complete at once, a longer batch goes in flight until the device completes it. |
| `RingSubmitters.RingSubmitter.ReclaimCompleted` | dsa-stdexec/src/dsa/descriptor_submitter.hpp:573-591 | Completed batches are released in order up to the first unfinished one; records only become free. |
| `RingSubmitters.RingSubmitter.SealAndSubmitCurrent` | dsa-stdexec/src/dsa/descriptor_submitter.hpp:614-626 | A batch that holds anything rings one doorbell, of that batch; the record that is current afterwards is free, or it is in flight and nothing reclaimable is left; otherwise nothing changes. |
| `RingSubmitters.RingSubmitter.WaitForSpace` | dsa-stdexec/src/dsa/descriptor_submitter.hpp:462-475 | Ends with room, or still waiting with the oldest batch unfinished by the device. |
| `RingSubmitters.RingSubmitter.SubmitDescriptor` | dsa-stdexec/src/dsa/descriptor_submitter.hpp:462-513 | Adds exactly the given descriptor. One doorbell rings at the ring's end, of the batch open before, or when the descriptor fills its batch, of that full batch, and none in any other case; the size of the open batch afterwards is exact too. The call can be kept waiting only if there was no room, the current record was in flight, or the ring's end was reached; a call still waiting added nothing and waits for an unfinished batch. |
| `RingSubmitters.RingSubmitter.PrePoll` | dsa-stdexec/src/dsa/descriptor_submitter.hpp:517-523 | One doorbell rings, of the open batch, if it holds anything; afterwards nothing is unsealed, so the doorbells are all submitted descriptors, and nothing reclaimable is left. |
| `RingSubmitters.RingSubmitter.Drain` | dsa-stdexec/src/dsa/descriptor_submitter.hpp:525-536 | One doorbell rings, of the open batch, if it holds anything; afterwards every record is free, head meets tail in both rings, and the device has read every descriptor. |
| `RingInflight.InflightWithin` | dsa-stdexec/src/dsa/descriptor_submitter.hpp:573-612 | After every run the in-flight counter is at most the number of batches of two or more descriptors between doorbell and reclaim, and short of it by at most the number of single-descriptor batches reclaimed. |
| `RingInflight.TooLow` | dsa-stdexec/src/dsa/descriptor_submitter.hpp:573-612 | For every ring with two records and batches of two, a run in which such a batch is in flight and the counter is 0, because a single-descriptor batch was taken off twice. |
| `RingInflight.InflightExactIff` | dsa-stdexec/src/dsa/descriptor_submitter.hpp:539-540 | The counter is the number of batches of two or more in flight, in every run, if and only if there is one batch record or batches hold one descriptor. |
| `Reentry.ResetKeepsInvIff` | dsa-stdexec/src/dsa/descriptor_submitter.hpp:498-502 | The unconditional reset after the wait at the ring's end keeps the ring's invariant if and only if the record is empty and cell 0 is next, as when the callback submitted nothing. |
| `Reentry.HarmlessDelivers` | dsa-stdexec/src/dsa/descriptor_submitter.hpp:462-513 | With any amount of re-entry through the callback, runs whose resets are harmless lose nothing. |
| `Reentry.DescriptorLost` | dsa-stdexec/src/dsa/descriptor_submitter.hpp:488-508 | A run, for every plain ring with batches of two or more, in which the callback of that wait submits a descriptor and afterwards nothing is unsealed although the doorbells lack a submitted descriptor. |
| `Reentry.SpaceAfterWait` | dsa-stdexec/src/dsa/descriptor_submitter.hpp:470-508 | Once the current record is neither in flight nor full there is space in the ring: the space the code does not look at again after its second and third wait. |
| `Reentry.ReentryKeepsAllIff` | dsa-stdexec/src/dsa/dsa.ipp:100-103 | Under re-entry no run of the plain ring, with more than one record, loses a descriptor if and only if batches hold one descriptor. |
| `FixedRings.RunInv` | dsa-stdexec/src/dsa/descriptor_submitter.hpp:281-314 | Every run keeps the invariant of the ring of batch buffers. |
| `FixedRings.FixedAccounting` | dsa-stdexec/src/dsa/descriptor_submitter.hpp:357-408 | After every run the in-flight counter is the number of entries in flight, each of them is ahead of the oldest-batch counter and holds what it was sealed with. |
| `FixedRings.FixedDeliversInOrder` | dsa-stdexec/src/dsa/descriptor_submitter.hpp:376-408 | Refinement of the direct submitter for the fixed ring. |
| `FixedRings.FixedRingSubmitter.Inflight` | dsa-stdexec/src/dsa/descriptor_submitter.hpp:332-332 | The counter reported is the number of entries in flight. |
| `FixedRings.FixedRingSubmitter.ReclaimCompleted` | dsa-stdexec/src/dsa/descriptor_submitter.hpp:357-374 | Passes free and completed entries up to the first unfinished one. |
| `FixedRings.FixedRingSubmitter.SubmitDescriptor` | dsa-stdexec/src/dsa/descriptor_submitter.hpp:281-303 | Adds exactly the given descriptor; a doorbell rings exactly when it fills its batch, and is that batch's. It can be kept waiting only if the current entry was in flight, and then has added nothing and waits for an unfinished entry. |
| `FixedRings.FixedRingSubmitter.PrePoll` | dsa-stdexec/src/dsa/descriptor_submitter.hpp:307-314 | One doorbell rings, of the open batch, if it holds anything; afterwards the doorbells are all submitted descriptors and no entry is left to pass. |
| `FixedRings.FixedRingSubmitter.Drain` | dsa-stdexec/src/dsa/descriptor_submitter.hpp:316-329 | One doorbell rings, of the open batch, if it holds anything; afterwards no entry is filling or in flight, the counter is 0, and the device has read everything. |
| `Staging.RunInv` | dsa-stdexec/src/dsa/descriptor_submitter.hpp:169-218 | Every run of staging, doorbells and device reads keeps the double-buffer invariant. |
| `Staging.StagingDelivers` | dsa-stdexec/src/dsa/descriptor_submitter.hpp:178-218 | After every run the buffer being written is not one the device may be reading, a buffer in use holds what its doorbell named, and the doorbells and staged descriptors are the submitted ones in order. |
| `Staging.InflightIs` | dsa-stdexec/src/dsa/descriptor_submitter.hpp:183-213 | After every run the in-flight counter is the number of single-descriptor doorbells, which nothing takes off, plus the number of buffers still waited for. |
| `Staging.DrainedIff` | dsa-stdexec/src/dsa/descriptor_submitter.hpp:221-221 | In every state it may be called in, everything has been read when `drain` returns if and only if one descriptor was staged, or none was and no earlier batch was unread. |
| `Staging.UnreadAfterDrain` | dsa-stdexec/src/dsa/descriptor_submitter.hpp:178-221 | For batches of two or more, a run after which a drain, and a second one, leave two submitted descriptors unread. |
| `Staging.DrainWaitsIff` | dsa-stdexec/src/dsa/descriptor_submitter.hpp:221-221 | A drain returns with everything read in every run if and only if batches hold one descriptor. |
| `Staging.StagingSubmitter.Flush` | dsa-stdexec/src/dsa/descriptor_submitter.hpp:178-221 | The exact state it returns in; then one doorbell has rung, of what was staged, if anything was, nothing is staged, the doorbells are all submitted descriptors, and whether the device has read them is as `DrainedIff` says of the state before; a call still waiting changed nothing and waits for the other buffer. |
| `Staging.StagingSubmitter.SubmitDescriptor` | dsa-stdexec/src/dsa/descriptor_submitter.hpp:169-176 | Adds exactly the given descriptor; a doorbell rings exactly when it fills the buffer, and is that buffer's. It can be kept waiting only then, and only if the other buffer had been handed to the device. |
| `StagingGate.FlushCounted` | dsa-stdexec/src/dsa/descriptor_submitter.hpp:178-218 | A flush changes the counter by nothing, or adds one: it never ends with the counter lower. |
| `StagingGate.GateClosesIff` | dsa-stdexec/src/dsa/dsa.ipp:247-254 | In every run of the engine with the staging submitter the gate is closed for good, to top-level submits too, if and only if single-descriptor doorbells and buffers still waited for amount to at least the capacity. |
| `StagingGate.SinglesClose` | dsa-stdexec/src/dsa/dsa.ipp:247-254 | For every capacity above 0, as many descriptors, each polled for before the next, close the gate for good. |
| `TicketRing.RunInv` | dsa-stdexec/src/dsa/task_queue.hpp:248-265 | Every interleaving of producers with the consumer keeps the sequence-number invariant, for two cells or more. |
| `TicketRing.InvIsSafe` | dsa-stdexec/src/dsa/task_queue.hpp:291-334 | The invariant gives one writer per cell, no unread operation overwritten, only written cells read, and operations taken in ticket order once each. |
| `TicketRing.LeavesAsPushed` | dsa-stdexec/src/dsa/task_queue.hpp:248-334 | In every run with two cells or more, the j-th operation taken out is the one that the j-th push, by a producer or by the consumer itself, was called with. |
| `TicketRing.CountsPublished` | dsa-stdexec/src/dsa/task_queue.hpp:291-305 | In every run the scan goes on exactly while the next operation is published and a turn is not full, so a poll takes out everything from head on up to the first operation that is not published. |
| `TicketRing.SafeIffTwoCells` | dsa-stdexec/src/dsa/task_queue.hpp:231-334 | All runs are safe if and only if the capacity is at least two. |
| `TicketRing.OneCellOverwrites` | dsa-stdexec/src/dsa/task_queue.hpp:248-265 | A run with one cell in which a second producer may overwrite an unread operation. |
| `TicketRing.SpinEndsIff` | dsa-stdexec/src/dsa/task_queue.hpp:253-258 | In every run a producer's spin can end if and only if its ticket is less than one turn ahead of what the consumer released. |
| `TicketRing.OnlyConsumerReleases` | dsa-stdexec/src/dsa/task_queue.hpp:325-330 | A spin that has to wait goes on in every continuation in which the consumer releases no cell. |
| `TicketRing.OwnPushHangsIff` | dsa-stdexec/src/dsa/task_queue.hpp:248-345 | In every run, with any number of producers, a push the consumer makes from inside a notification never returns if and only if, when it draws its ticket, tail is at least one turn of the ring ahead of head. |
| `TicketRing.ProducersGetAhead` | dsa-stdexec/src/dsa/task_queue.hpp:326-342 | A run on two cells in which one operation pushed back is enough, because two producers publish between the release of the cells and the notification. |
| `LockFreeList.RunInv` | dsa-stdexec/src/dsa/task_queue.hpp:391-460 | Every interleaving of compare-and-swap pushes with the poll, and with polls nested in its notifications to any depth, keeps the lists well linked and every operation accounted for. |
| `LockFreeList.CasLinked` | dsa-stdexec/src/dsa/task_queue.hpp:391-399 | A swap that succeeds links the operation in front of the present list, also when the head it read was stolen and put back in between. |
| `LockFreeList.EveryOperationInOnePlace` | dsa-stdexec/src/dsa/task_queue.hpp:391-460 | After every run the shared list is finite without repetitions, and an operation is in exactly one of shared list, the lists of the present and the enclosing polls, and producers' hands when it was pushed once more often than notified, and in none otherwise. |
| `LockFreeList.PollerCanStep` | dsa-stdexec/src/dsa/task_queue.hpp:401-460 | At every point of a poll one of the poller's own steps is possible: it never meets a pointer that leads nowhere. |
| `LockFreeVerdicts.VerdictsObeyed` | dsa-stdexec/src/dsa/task_queue.hpp:421-457 | In every run, polls nested to any depth: an operation was found complete exactly as often as it was notified, once more while a poll has it put aside; pushed is what `push` was called with; and an operation found unfinished is on its way back to the shared list, or in it, until the list is next taken over. |
| `LockFreeVerdicts.AllCompleteNotified` | dsa-stdexec/src/dsa/task_queue.hpp:448-457 | When no poll is under way, every operation has been notified as often as it was found complete. |
| `TaskQueues.SplitCompleted` | dsa-stdexec/src/dsa/task_queue.hpp:152-172 | The in-place pass leaves the unfinished operations in order and collects the completed ones in reverse. |
| `TaskQueues.NotifyAll` | dsa-stdexec/src/dsa/task_queue.hpp:174-183 | Notifies every collected operation from the front, once; those that push themselves back end up in the queue. |
| `TaskQueues.LockedTaskQueue.Push` | dsa-stdexec/src/dsa/task_queue.hpp:140-145 | Puts the operation in front. |
| `TaskQueues.LockedTaskQueue.Poll` | dsa-stdexec/src/dsa/task_queue.hpp:147-184 | With no other thread in between, notifies exactly the completed operations, in push order, keeps the others in order, also when notify pushes the operation back. |
| `LockedList.RunInv` | dsa-stdexec/src/dsa/task_queue.hpp:140-184 | Every interleaving of pushes, locked passes and notifications by any number of threads keeps list, links and polls' lists well formed. |
| `LockedList.EveryPushNotifiedOnce` | dsa-stdexec/src/dsa/task_queue.hpp:140-184 | After every such run the list has no repetitions, no operation is in two places, and an operation is held exactly when it was pushed once more often than notified. |
| `LockedList.VerdictsObeyed` | dsa-stdexec/src/dsa/task_queue.hpp:152-181 | In every run an operation was found complete by the locked passes exactly as often as it was notified, once more while a poll still has it to notify; pushed is what `push` was called with. |
| `LockedList.PassLeavesOthers` | dsa-stdexec/src/dsa/task_queue.hpp:152-172 | A locked pass, in every run, takes out exactly the operations found complete and leaves exactly the others, in the order they were in. |
| `LockedList.NotifiesInPushOrder` | dsa-stdexec/src/dsa/task_queue.hpp:174-181 | In every run each poll notifies next the operation pushed earliest of those it still has to notify. |
| `LockedList.LockedPass` | dsa-stdexec/src/dsa/task_queue.hpp:152-172 | The in-place split is a step of that machine in every reachable state. |
| `TaskQueues.LockFreeTaskQueue.Push` | dsa-stdexec/src/dsa/task_queue.hpp:391-399 | With no other thread in between, puts the operation in front. |
| `TaskQueues.LockFreeTaskQueue.Poll` | dsa-stdexec/src/dsa/task_queue.hpp:401-460 | Notifies exactly the completed operations, newest first, and keeps the others in reversed order. |
| `TaskQueues.IndexedTaskQueue.Push` | dsa-stdexec/src/dsa/task_queue.hpp:500-502 | Appends the operation. |
| `TaskQueues.IndexedTaskQueue.Poll` | dsa-stdexec/src/dsa/task_queue.hpp:504-540 | Swap-and-pop notifies exactly the completed operations and keeps the others, also with pushes from notify. |
| `RingBufferQueues.RingBufferTaskQueue.Push` | dsa-stdexec/src/dsa/task_queue.hpp:248-265 | Appends the operation if the ring has a free cell; otherwise the ticket is drawn and the spin goes on, on a cell that still holds the oldest operation, published. |
| `RingBufferQueues.RingBufferTaskQueue.CountAvailable` | dsa-stdexec/src/dsa/task_queue.hpp:291-305 | The scan of sequence numbers counts exactly the queued operations. |
| `RingBufferQueues.RingBufferTaskQueue.Poll` | dsa-stdexec/src/dsa/task_queue.hpp:267-345 | With no other thread pushing during the poll: it returns if and only if it pushes back no more operations than there are cells, and then notifies exactly the completed ones, once, and keeps the others; otherwise it hangs in its own push, the ring full of operations it pushed itself and the awaited cell one that only it would release. (`TicketRing.OwnPushHangsIff` has the condition with other threads pushing.) |
| `RingBufferQueues.PollWaitsForItself` | dsa-stdexec/src/dsa/task_queue.hpp:267-345 | The smallest case of a poll that does not return: two cells and three operations pushed back. |
| `RunLoop.PollingRunLoop.PushBack` | dsa-stdexec/include/dsa_stdexec/run_loop.hpp:175-179 | The circular list through the sentinel gains the entry at its end. |
| `RunLoop.PollingRunLoop.TryPopFront` | dsa-stdexec/include/dsa_stdexec/run_loop.hpp:181-189 | Takes the oldest entry, or null exactly when empty; everything pushed is what was popped followed by the queue. |
| `Memmove.ForBuffers` | accel-rpc/dsa-ffi/src/validation.rs:64-87 | A request is accepted exactly for 1 to 2^32-1 bytes that fit the destination; it has an invalid length or too small a destination exactly otherwise, length first. |
| `Memmove.RetryIsTheRest` | accel-rpc/dsa-ffi/src/validation.rs:391-454 | The window a retry asks for is exactly what an honest device has not copied, in either direction, and completed plus remaining is what was asked. |
| `Memmove.StopsThere` | accel-rpc/dsa-ffi/src/lib.rs:107-137 | The copy looks at no answer beyond the first that is not a page fault to continue after, nor beyond the last retry, and stops at none before. |
| `Memmove.MemmoveInner` | accel-rpc/dsa-ffi/src/lib.rs:98-140 | All answers before the last one are well-formed page faults, and which error or success is returned, with its fields, is decided by the last one alone: success exactly for status 1, timeout exactly for 0xFF, malformed exactly for a fault without address, with a bad direction or too many bytes, exhausted exactly for a well-formed fault after the last retry, the status itself for any other. However it ends, reported progress plus the last window make up the request and what honest answers completed is in place; success means all of it, and bytes beyond the request are untouched. |
| `Memmove.DoMemmove` | accel-rpc/dsa-ffi/src/lib.rs:72-96 | Ok means destination equals source whatever the device does. Up to maxRetries well-formed faults and then a success end with that success, and with Ok if the answers were honest; any other ending is the error `MemmoveInner` says. A mismatch names the first wrong byte and takes a device that lied; a rejected request changes nothing. |
| `PageFault.HwDescriptor.AdjustForPageFault` | dsa-stdexec/include/dsa_stdexec/operations/operation_base_mixin.hpp:41-89 | Field by field: which addresses move on by the bytes completed, modulo 2^64, the size that shrinks modulo 2^32, the seed that continues a checksum, and that everything else, and an opcode the source does not adjust, stays; this is the adjustment the theorems are about. |
| `PageFault.FaultKeepsMeaning` | dsa-stdexec/include/dsa_stdexec/operations/operation_base_mixin.hpp:48-88 | For every opcode and memory, the completed part followed by the adjusted descriptor leaves memory and flushed lines as the original operation does, and the last completion record alone has the original's comparison and checksum, when the stop can be resumed and a comparison stopped while equal. |
| `PageFault.FaultsKeepMeaning` | dsa-stdexec/include/dsa_stdexec/operations/operation_base_mixin.hpp:187-197 | The same over any number of truthfully reported faults: all completed parts, then the descriptor as adjusted for all of them. |
| `PageFault.CopyResumesIff` | dsa-stdexec/include/dsa_stdexec/operations/operation_base_mixin.hpp:50-60 | A copy, with or without checksum, is resumed correctly in every memory if and only if the bytes stored do not overlap the source still to be read. |
| `PageFault.FillResumesIff` | dsa-stdexec/include/dsa_stdexec/operations/operation_base_mixin.hpp:61-65 | A fill is resumed correctly with every pattern if and only if the stop is a multiple of eight bytes or the end. |
| `PageFault.CompareValueResumesIff` | dsa-stdexec/include/dsa_stdexec/operations/operation_base_mixin.hpp:71-74 | The same condition for comparing memory with a pattern, over all patterns, memories and addresses. |
| `PageFault.CompareResumesIff` | dsa-stdexec/include/dsa_stdexec/operations/operation_base_mixin.hpp:66-70 | A resumed comparison of two buffers reports the verdict on the whole if and only if the part before the fault was equal or the rest differs. |
| `PageFault.BackwardFaultIff` | dsa-stdexec/include/dsa_stdexec/operations/operation_base_mixin.hpp:50-54 | The direction of a fault is ignored: after a backward one a copy between any two places, overlapping or not, is resumed correctly in every memory if and only if nothing or everything was copied, or source and destination are the same. |
| `PageFault.DualcastResumesIff` | dsa-stdexec/include/dsa_stdexec/operations/operation_base_mixin.hpp:75-80 | A dualcast is resumed correctly in every memory if and only if the bytes stored overlap neither the source still to be read nor, from behind, what is still to be stored. |
| `PageFault.DualcastStaysAligned` | dsa-stdexec/include/dsa_stdexec/operations/dualcast.hpp:23-34 | Bits 11:0 of the two destinations agree after an adjustment if and only if they agreed before, with wrap-around. |
| `Receiver.DsaOperation.Start` | dsa-stdexec/include/dsa_stdexec/operations/operation_base_mixin.hpp:123-162 | The engine has the operation exactly if validation passes and the submit does not throw; otherwise the receiver got one signal, rejected for a dualcast whose destinations differ modulo 4096, submission failed if the submit threw. |
| `Receiver.DsaOperation.Notify` | dsa-stdexec/include/dsa_stdexec/operations/operation_base_mixin.hpp:164-202 | Status 1, or 2 for an operation with a result, signals the extracted value; status 3 adjusts the descriptor, clears the record and submits again, with a signal exactly if that throws; any other status is signalled as the error. |
| `Receiver.RunInv` | dsa-stdexec/include/dsa_stdexec/operations/operation_base_mixin.hpp:123-202 | Every run of starts, pushes, device writes, polls and notifications keeps each started operation in exactly one place. |
| `Receiver.ExactlyOnce` | dsa-stdexec/src/dsa/dsa.ipp:241-257 | In every run a receiver is signalled at most once, and an operation not inside start, a poll or notify is queued, once, exactly when its receiver is unsignalled. |
| `Receiver.SignalExplained` | dsa-stdexec/include/dsa_stdexec/operations/operation_base_mixin.hpp:173-201 | A value means a successful status and is what is extracted from the last completion record, an error carries the device's status, and the final descriptor is the original adjusted by the operation's faults, all counted in the retry counter. |
| `Receiver.SubmitFailedIff` | dsa-stdexec/include/dsa_stdexec/operations/operation_base_mixin.hpp:146-161 | In every run a receiver is told that submitting failed if and only if the last submit made for its operation, by start or after a page fault, threw. |
| `Receiver.FaultGoesAround` | dsa-stdexec/include/dsa_stdexec/operations/operation_base_mixin.hpp:187-197 | In every run a notify on a page fault whose submit does not throw puts the operation back between doorbell and queue with its descriptor adjusted, its record cleared and one retry counted; a notify signals the receiver exactly otherwise. |
| `Receiver.SignalIsFinal` | dsa-stdexec/include/dsa_stdexec/operations/operation_base_mixin.hpp:164-202 | No step after the signal touches the operation, in any continuation of the run. |
| `Receiver.SubmittedIsAcceptable` | dsa-stdexec/include/dsa_stdexec/operations/dualcast.hpp:23-34 | Every descriptor the device is given passes validation, also after any number of page faults. |
| `Receiver.ValueIsTheWholeOperation` | dsa-stdexec/include/dsa_stdexec/operations/operation_base_mixin.hpp:176-197 | In every run, if the device reported truthfully, memory and flushed lines are as the started operation leaves them, and the value passed to the receiver is the comparison result or checksum of that operation. |
| `Backpressure.RunInv` | dsa-stdexec/src/dsa/dsa.ipp:241-287 | In every run of the single-threaded engine with the direct submitter the in-flight counter is at most the queued operations plus those taken by polls in progress, and equal to that when every operation carries a descriptor. |
| `Backpressure.SubmitHangsIff` | dsa-stdexec/src/dsa/dsa.ipp:247-253 | In every run, operations without descriptors included, a submit never returns, whatever device and receivers do, if and only if the counter has reached the capacity and nothing is queued. |
| `Backpressure.PlainSubmitHangsIff` | dsa-stdexec/src/dsa/dsa.ipp:247-253 | When every operation carries a descriptor, a submit never returns if and only if the polls in progress around it hold at least as many operations as the work queue has entries. |
| `Backpressure.FaultInFullPoll` | dsa-stdexec/src/dsa/dsa.ipp:282-287 | For every capacity above 0, a run in which a page fault notified in a full poll makes such a submit. |
| `Backpressure.GateIsSafeIff` | dsa-stdexec/src/dsa/descriptor_submitter.hpp:90-123 | Every submit of every run can return if and only if the capacity is 0, that is, there is no gate. |
| `WorkQueue.AtMostWithDevice` | dsa-stdexec/src/dsa/dsa.ipp:247-254 | In every run with a gate, the device has at most as many descriptors as the work queue has entries, and one more for each operation without a descriptor that was pushed. |
| `WorkQueue.Overfull` | dsa-stdexec/src/dsa/dsa.ipp:259-287 | For every capacity and every number k, a run with k operations without descriptors in which the device has k descriptors more than there are entries: polls lower the counter for operations that never raised it. |
| `WorkQueue.NeverOverfullIff` | dsa-stdexec/src/dsa/dsa.ipp:247-287 | All runs with k operations without descriptors keep within the work queue if and only if k is 0. |
| `AsyncSession.RunInv` | accel-rpc/dsa-ffi/src/async_session.rs:184-268 | Every interleaving of owner, worker and calls keeps the protocol's invariant. |
| `AsyncSession.DrainThenStop` | accel-rpc/dsa-ffi/src/async_session.rs:320-328 | In every run finished moves are, in order and once each, an initial part of the requests ahead of Shutdown; the worker stops and `shutdown` returns Ok only when all of them have run, and it fails only after a panic. |
| `AsyncSession.BehindNeverRuns` | accel-rpc/dsa-ffi/src/async_session.rs:223-244 | A request accepted behind Shutdown never executes, in any run, and resolves to nothing but owner_shutdown. |
| `AsyncSession.AnswersAreOwn` | accel-rpc/dsa-ffi/src/async_session.rs:246-268 | A result is that of the call's own execution; owner_shutdown means shutdown was requested and the request did not run; a closed-channel failure means the worker panicked, so it never occurs in a run that ends by shutdown. |
| `AsyncSession.HistoryIs` | accel-rpc/dsa-ffi/src/async_session.rs:320-325 | In every run the accepted commands are those sent before the receiver was dropped, in order, and the k-th finished move has the k-th result the worker computed. |
| `AsyncSession.AnswerIsResult` | accel-rpc/dsa-ffi/src/async_session.rs:240-244 | In every run an answered call has a result if and only if its request ran, and then the k-th result the worker computed, the request being the k-th sent. |
| `AsyncSession.BlameIs` | accel-rpc/dsa-ffi/src/async_session.rs:227-268 | In every run a failed send or reply is blamed on the owner if and only if shutdown was requested before the call looked, and on the closed channel otherwise; a call made after the request is turned away at once, and one made before is not. |
| `AsyncSession.IdleSessionAnswers` | accel-rpc/dsa-ffi/src/async_session.rs:223-244 | From every run that leaves the worker idle and no shutdown requested, a new call can go through and return whatever result the worker computes for it. |
| `AsyncSession.NobodyHangs` | accel-rpc/dsa-ffi/src/async_session.rs:240-243 | Once the worker dropped its receiver every accepted request is answered, with a result exactly if it ran. |
| `AsyncSession.NothingTakenBack` | accel-rpc/dsa-ffi/src/async_session.rs:383-409 | However a run continues, also through a failed join and the drop that repeats shutdown, the lifecycle never moves back, accepted requests and finished moves stay in order, and answers stay. |
| `AsyncSession.AsyncDsaSession.ShutdownInner` | accel-rpc/dsa-ffi/src/async_session.rs:383-402 | Ok from a session with a worker means the worker left after draining; a failure means it panicked; repeated, it only marks completion and returns Ok. |
| `AsyncSession.AsyncDsaSession.Memmove` | accel-rpc/dsa-ffi/src/async_session.rs:223-244 | The call's outcome is recorded and explained by the state, whatever worker, other calls and the owner do in between, a shutdown between test and send included: the worker's result for this very request exactly if it ran, and otherwise owner_shutdown exactly if shutdown has been requested by then; after a shutdown request nothing is enqueued. |
| `Crc16.Crc16T10Dif` | hw-eval/src/iax.rs:123-136 | The byte-wise loops compute the bit-serial register after the message's bits. |
| `Crc16.Crc64T10DifField` | hw-eval/src/iax.rs:138-140 | The guard stands in the top 16 of 64 bits and the others are zero. |
| `Crc16.RegisterDivides` | hw-eval/src/iax.rs:125-134 | For every bit string the register is what is left of the message times x^16 after taking away a multiple of the generator 0x18BB7. |
| `Crc16.GuardIsTheRemainder` | hw-eval/src/iax.rs:123-136 | For every byte string the checksum is the remainder, and nothing else is. |
| `Crc16.GuardVerifies` | hw-eval/src/iax.rs:123-136 | Two bytes appended to a message bring its checksum to zero if and only if they are the message's checksum, high byte first. |
| `Crc16.BurstDetected` | hw-eval/src/iax.rs:123-136 | Messages that differ only within sixteen consecutive bits have equal checksums if and only if they are equal. |

## Left out

- Weak memory: atomics are sequentially consistent steps, and a lock makes its section one step.
- Liveness: spins are not shown to end, only what they wait for; the C++ retry after page faults has no bound in the source.
- Re-entrant submission: `Reentry` has the plain ring with the callback as a machine; the class `RingSubmitter` is without it, and the mirrored ring, which has no reset, needs no more than its machine.
- Counter width: ring positions and tickets are unbounded numbers, not 64-bit words.
- RingSubmitters.Configure: takes ring sizes up to 2^63 descriptors, and for the mirrored ring sizes that can be mapped; beyond that the source's arithmetic wraps and allocation fails.
- FixedRings.FixedRingSubmitter.SubmitDescriptor: the descriptor array of each entry is a sequence value inside the entry, so aliasing between entries is not modelled.
- Ring reclaim: the branch for a free record at the head is not modelled for the plain and mirrored rings, where the invariant makes it unreachable.
- TaskQueues.LockedTaskQueue.Poll: link fields are a map from operations to pointers owned by the queue, not fields of heap objects; the poll sees one set of completed operations, notify pushes at most the operation it is called for, and pushes by other threads in between are the subject of `LockedList`.
- RingBufferQueues.RingBufferTaskQueue.Poll: no other thread pushes during the poll, or while a push of this class spins; `TicketRing` has those interleavings.
- LockFreeList.EveryOperationInOnePlace: the poller's notify does not push; pushes by others, which may be of any operation not in the queue, stand for it.
- RunLoop.PollingRunLoop.PushBack: requires an entry that is not queued already, as intrusive lists do; stop and reset flags and the poll function are not modelled.
- Memmove.DoMemmove: takes disjoint buffers, as Rust's borrows guarantee; device paths and phases in errors, and the polling timeout count, are not modelled.
- PageFault.FaultKeepsMeaning: where the two destinations of a dualcast overlap the second is taken to be stored last; opcodes the source does not adjust have no effect in the model; memory is smaller than the 64-bit address space.
- Touching the faulting page, MOVDIR64B and ENQCMD, mapping and allocation calls and their errors: foreign code and hardware.
- Receiver.ExactlyOnce: submission throws only before the descriptor is handed over, and the device writes a record once per submission; receivers, senders and exception contents are stdexec templates.
- AsyncSession.DrainThenStop: the worker panics only inside a memory move; start-up of the worker (`worker_init_closed`) and error formatting are not modelled.
- Backpressure.SubmitHangsIff: one thread submits and polls, and operations are counted, not named; of the batching submitters only the staging one has its gate modelled (`StagingGate`), with flushes that return.
- BatchOperation, the slot arena, the benchmark drivers, plotting, the gRPC profile and its codec: easy field-by-field code or I/O plumbing.
