# Verified model of the tun-rs-uring core

tun-rs-uring moves packets between a TUN device and an application through io_uring. This project
models its three stateful parts and proves what they are for:

* **Packets** (`src/core/packet.rs`): the Internet checksum, the splitter that cuts a TCP or UDP
  super-packet into segments, and the packet that borrows a ring buffer until it is detached.
  Modules `Bits`, `Checksum`, `Segments`, `SegmentProofs`, `GsoSplit`, `Receiver`, `RxPacket`.
* **Sending** (`src/core/tx.rs`): the batch bookkeeping, the driver that submits, cancels and reaps
  a batch, the user_data codec, and the one-batch slot that senders compete for.
  Modules `TxUserData`, `TxBatch`, `TxKernel`, `TxRuns`, `TxDriver`, `TxSlot`.
* **Receiving** (`src/core/rx.rs`): the provided-buffer ring with its 16-bit tail, the packet queue
  with its waiter, the driver thread, and the auto-resume counter.
  Modules `RxRing`, `RxBuffers`, `RxShared`, `RxDriver`, `RxSystem`, `RxControl`,
  `RxStart`.

Code that updates state in place is a class or a method over arrays whose contract ties the new
state to a function of the old one; the laws are lemmas about those functions, over every input,
every interleaving or every run. `Common` holds the few types that several modules share.

The kernel is a nondeterministic environment. TX: it may act before every queued entry, between the
entries of a submission and while the driver waits; each accepted write completes exactly once; a
linked successor starts only after its predecessor succeeded and is otherwise completed with
ECANCELED; a cancellation acts when it is submitted and may hit any request that carries its
target's user_data. RX: a completion without MORE is the last of its read, a negative read result
is terminal, overflowed completions keep their order, and a read consumes published buffers in ring
order. Poll results and failing system calls are arbitrary at each point. Time runs in rounds: a batch
is given the round in which its deadline is first found passed and the round in which its future is
first found dropped, each possibly never. Whether the system calls of a driver can
fail at all is an input (`reliable`): on a reliable ring every whole-batch claim below holds
unconditionally, and the RX driver fails only on a completion that it refuses.

Findings about the code:

* An acknowledged stop is final until the next start exactly when auto-resume is off or its
  threshold exceeds the number of buffers. For every smaller positive threshold there is a run in
  which the read ends with ENOBUFS while the stop is pending, which arms auto-resume after it had
  been disarmed; the stop is acknowledged, and recycled packets then restart the driver
  (`RxSystem.StopHoldsIff`, `RxSystem.StoppedYetReading`).
* The same condition is exact for `stop` of `RxController`. It fails more simply there: called after
  an ENOBUFS fault, `stop` returns Ok without sending a command, so auto-resume stays armed
  (`RxControl.StopHoldsIff`, `RxControl.StopReturnedYetReading`).
* `start` of `RxController` keeps its promise exactly if no future of `stop` is dropped. After a
  dropped `stop` it may still find the state word Running and return Ok without a command, while the
  queued Stop goes on to stop the driver (`RxStart.StartHoldsIff`, `RxStart.StartedYetStopped`).
* The acknowledgement in the cancel handler (`src/core/rx.rs:1016-1021`) is never reached: a pending
  stop implies an active read at every point (`RxDriver.CancelNeverAcks`).
* user_data carries 40 bits of index; a batch with more entries would decode wrongly
  (`TxUserData.WriteRoundTrip`).
* A UDP super-packet whose checksum offset points at the UDP length field is accepted and yields
  segments that fail the receiver's check (`SegmentProofs.UdpChecksExactly`, with an accepted packet
  in `GsoSplit.MisplacedUdpChecksum`).

## Model

The main theorems over inputs and runs come first, then the operations and the lemmas they rest on,
last the methods whose contract links a field update to the step function that the theorems use.

| member | source | states |
|---|---|---|
| TxDriver.TxDriverThread.RunBatch | src/core/tx.rs:477-535 | ends; returns the caller's buffers with a result for each, on error paths too; with a reliable ring it never reports a failure. Without a ring failure the ring is idle again. Each submitted entry's result is what a completion of its own write says (byte count, error number, or a timeout in place of ECANCELED if it was cancelled), and a success was really executed. Without deadline and dropped future every entry is submitted and none cancelled; otherwise no entry is submitted after the round of the cut, the others end TimedOut or Interrupted according to what was seen first, and if the batch went on after that round, exactly the entries then in flight were cancelled. An ordered batch was executed in strictly increasing index, in consecutive chains of exactly the chunk size (the last one may be shorter), and each chain reads successes, then only errors |
| TxDriver.TxDriverThread.RunBatches | src/core/tx.rs:464-475 | over any sequence of batches, up to the first ring failure (with a reliable ring there is none): each one is answered and has its own report, so batch j is answered from completions of requests with its own epoch and leaves an idle ring |
| RxControl.StopHoldsIff | src/core/rx.rs:155-174 | from the return of stop to the next start call no read is held and no packet is on its way, in every run, if and only if the threshold is 0 or exceeds the buffer count |
| RxStart.StartHoldsIff | src/core/rx.rs:141-174 | once start returned Ok and until the next call the driver runs whenever the state is Running, and leaves Running only by a fault, in every run and for every threshold, if and only if no future of stop is dropped |
| RxSystem.StopHoldsIff | src/core/rx.rs:807-842 | an acknowledged stop holds in every run if and only if the threshold is 0 or exceeds the buffer count |
| RxSystem.StopIsQuiet | src/core/rx.rs:807-817 | from an acknowledged stop, until a Start is handled, no read is held or submitted and no packet is added (auto-resume off or out of reach) |
| RxSystem.PacketsInKernelOrder | src/core/rx.rs:927-990 | in every run delivered, then queued, then completed, then overflowed packets are the kernel's in its order, and every buffer is accounted for |
| RxSystem.OneCheckPerFault | src/core/rx.rs:434-477 | along every run in which a fault stays armed all recycles are counted and exactly one check is queued once the threshold is reached, none before |
| RxSystem.RestartHasBuffers | src/core/rx.rs:825-842 | the driver starts running without a Start only on a check, with at least threshold buffers published |
| RxBuffers.ExactlyOnePlace | src/core/rx.rs:564-654 | in every run without a rejected completion or a deactivated ring each buffer is in exactly one of published window, unreaped completion and live packet |
| RxBuffers.EveryRun | src/core/rx.rs:564-654 | in every run, with a kernel that writes where a descriptor points and reports the id in it, live packets show exactly what the kernel delivered and no buffer is in two places |
| RxRing.MaskedTailIsCounter | src/core/rx.rs:598-600 | for any number of publications the wrapped, masked tail is the unbounded counter modulo the ring size |
| RxDriver.NeverParksOwingAck | src/core/rx.rs:729-842 | in every run, failures included, a driver without a read neither runs nor owes an acknowledgement |
| RxDriver.EveryCallAnswered | src/core/rx.rs:768-817 | over every run, failures included, each Start is answered once and in order, and each Stop is answered once, still owed, or was replaced by a later Stop |
| RxDriver.RxDriverThread.Pass | src/core/rx.rs:729-756 | every pass of the thread, whatever fails, leaves a driver that parks only without debts; with a read it handles the completions that are there; if no system call fails, a pass fails only on a refused completion; the thread ends exactly if, after taking the commands, it was asked to shut down and has no read, or if it parks and every sender is gone |
| RxDriver.RxDriverThread.ProcessCqes | src/core/rx.rs:927-957 | returns normally only with the overflow list empty, having handled everything queued or overflowed at the call in the kernel's order; if no system call fails, it fails only on the next completion of that order, which the handlers refuse |
| GsoSplit.SplitGsoPacket | src/core/packet.rs:347-478 | result, slots, sizes and errors for every packet, slot list and offset |
| Receiver.SplitDelivers | src/core/packet.rs:76-100 | for a packet whose metadata agrees with its own bytes: the packets in the caller's slots are as many as the payload needs, each of at most 65535 bytes is accepted by a receiver that sees nothing else, and the payloads behind their own headers, joined, are the payload behind the packet's own headers |
| Receiver.NothingMissed | src/core/packet.rs:387-475 | such a packet is accepted and cut behind its own headers, read from its IP header length and its TCP data offset; all segments but the last carry gso_size bytes |
| GsoSplit.SegmentsCheck | src/core/packet.rs:399-475 | every segment of every accepted packet passes both of the receiver's checks |
| GsoSplit.PayloadSurvives | src/core/packet.rs:387-475 | the joined segment payloads are the payload of the caller's packet |
| Checksum.Checksum | src/core/packet.rs:563-569 | folding ends and gives the one's-complement sum of section 1 of RFC 1071, for every byte string, odd lengths included, and every initial value that does not overflow the u64 |
| TxSlot.OneHolder | src/core/tx.rs:704-727 | in every reachable state the slot is taken if and only if exactly one holder exists; while a batch runs the channel holds no second batch |
| TxSlot.NoLostWakeup | src/core/tx.rs:316-359 | in every reachable state with an idle slot nobody is registered and every waiting sender has been woken and gets the slot when polled |
| RxShared.NoLostWakeup | src/core/rx.rs:260-333 | in every run a consumer asleep and unwoken is the registered waiter, the queue is empty and the state Running |
| TxUserData.WriteRoundTrip | src/core/tx.rs:874-889 | decoding an encoded write gives the index modulo 2^40, hence the index if and only if it is below 2^40 |
| Checksum.ChecksumNoFold | src/core/packet.rs:571-587 | the loop over 32-bit, 16-bit and 8-bit remainders adds exactly the word sum of the bytes to the initial value, modulo 2^64 |
| Checksum.ReferenceIsNorm | src/core/packet.rs:563-569 | the 16-bit end-around-carry sum is the representative modulo 65535 that is zero only for a zero sum |
| Checksum.OnesSumIsNorm | src/core/packet.rs:563-569 | adding 16-bit words one by one with end-around carry is the same as normalising their integer sum |
| Checksum.OnesDigitsIsNorm | src/core/packet.rs:563-569 | the same for the 16-bit digits of a wide initial value |
| Checksum.Sum32Splits | src/core/packet.rs:571-577 | the sum of 32-bit words exceeds the sum of 16-bit words by a multiple of 65535 |
| Checksum.Sum32IsNorm | src/core/packet.rs:571-587 | 32-bit accumulation folds to the same value as 16-bit accumulation and is zero for the same inputs |
| Checksum.Sum32Bound | src/core/packet.rs:571-587 | how large the accumulator can get |
| Checksum.PacketSizedNeverOverflows | src/core/packet.rs:571-587 | inputs of up to 2^32 bytes with an initial value below 2^63 never overflow the u64 |
| Checksum.FoldStep | src/core/packet.rs:565-567 | one fold keeps the value modulo 65535 (zero only from zero) and makes it smaller |
| Checksum.Sum16Put | src/core/packet.rs:593-595 | rewriting an aligned 16-bit field changes the sum by exactly the difference |
| Checksum.CompleteField | src/core/packet.rs:468-473 | writing the complement of the sum into a summed field makes everything fold to 0xffff if and only if the field was zero, or negative zero next to something else |
| Checksum.GetPut16 | src/core/packet.rs:589-595 | big-endian write and read back |
| Segments.GetPut32 | src/core/packet.rs:597-608 | the same for 32 bits |
| Segments.ValidatedHdrLen | src/core/packet.rs:480-530 | an accepted header ends inside the packet, within 60 bytes of the checksum start, and is at least 8 bytes for UDP and 20 for TCP |
| Segments.ParseShape | src/core/packet.rs:354-386 | everything decided before the first write, with each error; what acceptance guarantees about the header |
| Segments.ClearFinPshBits | src/core/packet.rs:459-462 | the mask clears FIN and PSH and keeps every other flag bit |
| Segments.TcpRewriteFields | src/core/packet.rs:456-462 | sequence number plus advance modulo 2^32; flags cleared unless last |
| SegmentProofs.Ipv4HeaderSums | src/core/packet.rs:446-454 | the header of every IPv4 segment sums to 0xffff (section 3.1 of RFC 791) after all rewrites |
| SegmentProofs.BodyCompletes | src/core/packet.rs:468-473 | transport bytes plus the sender's pseudo-header fold to 0xffff exactly when the checksum field was harmless before |
| SegmentProofs.TransportExact | src/core/packet.rs:468-473 | the receiver's check, with its own pseudo-header read from the segment, passes if and only if the checksum field was harmless |
| SegmentProofs.TransportSums | src/core/packet.rs:399-475 | every emitted TCP or UDP segment passes the receiver's check (section 3.1 of RFC 9293, section 8.1 of RFC 8200) |
| SegmentProofs.SegmentAccepted | src/core/packet.rs:443-473 | the same receiver accepts each single segment |
| Receiver.SegmentsAccepted | src/core/packet.rs:399-475 | a receiver that sees nothing but a segment (version, header length, total length and protocol from its own header) accepts it |
| Receiver.SoundPlan | src/core/packet.rs:354-397 | IP version, protocol and header length of the cut are those in the packet's own bytes |
| Receiver.PartHeaders | src/core/packet.rs:436-466 | every segment has the headers of the packet, TCP options included |
| Receiver.SingleOutput | src/core/packet.rs:85-93 | a packet that is not segmented comes out as it is, or with its checksum field, and nothing else, completed |
| Receiver.SingleDelivers | src/core/packet.rs:85-93 | and fills exactly one slot |
| Segments.RefusedFor | src/core/packet.rs:354-384 | which packets are refused before the header is looked at, and with which error |
| Segments.HeaderLengthExactly | src/core/packet.rs:480-530 | which transport headers are accepted, and their length: 8 bytes of UDP, or as many words as the TCP data offset says |
| GsoSplit.RoomExactly | src/core/packet.rs:424-433 | a slot takes a packet exactly if that many bytes are left behind the offset |
| SegmentProofs.UdpChecksExactly | src/core/packet.rs:463-473 | for UDP the condition on the checksum offset is exact |
| SegmentProofs.PseudoHeaderSum | src/core/packet.rs:551-561 | the sum of the pseudo-header as the receiver builds it |
| SegmentProofs.PseudoSumIsNorm | src/core/packet.rs:551-561 | the code's unfolded 32-bit pseudo sum folds like the receiver's |
| SegmentProofs.LengthField | src/core/packet.rs:443-451 | the IP length field gives the segment's true transport length |
| SegmentProofs.IdentificationField | src/core/packet.rs:447-450 | segment i carries the first identification plus i modulo 2^16 |
| SegmentProofs.TcpFields | src/core/packet.rs:456-462 | sequence number is the first plus the payload offset modulo 2^32; FIN and PSH survive only on the last segment |
| SegmentProofs.UdpLengthField | src/core/packet.rs:463-466 | the UDP length is the length of the datagram in the segment |
| SegmentProofs.AddressesKept | src/core/packet.rs:436-441 | addresses are the input's |
| SegmentProofs.OtherHeaderBytesKept | src/core/packet.rs:436-441 | every header byte outside the rewritten fields is the input's |
| SegmentProofs.PayloadPart | src/core/packet.rs:440-441 | the payload of segment i is the input's from its offset on |
| Segments.SegmentCountIsDivCeil | src/core/packet.rs:392-396 | the number of segments is the payload length divided by gso_size, rounded up |
| SegmentProofs.CountIsExact | src/core/packet.rs:391-396 | it counts exactly the segments that have payload |
| SegmentProofs.PayloadsFrom | src/core/packet.rs:420-441 | the payloads of segments from i on concatenate to what was left |
| SegmentProofs.NothingLost | src/core/packet.rs:387-475 | all payloads concatenate to the original one, and all but the last segment carry exactly gso_size bytes |
| GsoSplit.WriteInSegment | src/core/packet.rs:593-595 | a field write inside a segment changes that field of the window and nothing else in the slot |
| GsoSplit.RewriteIpv4 | src/core/packet.rs:446-454 | identification, total length and header checksum, written in the code's order, equal the specified header |
| GsoSplit.RewriteIp | src/core/packet.rs:443-454 | the in-place header rewrite inside the slot's window equals the specified one; nothing outside the window changes |
| GsoSplit.RewriteTransport | src/core/packet.rs:456-466 | the same for the transport header |
| GsoSplit.PseudoHeaderChecksum | src/core/packet.rs:551-561 | three accumulations give the unfolded pseudo sum, without overflow |
| GsoSplit.FillChecksum | src/core/packet.rs:468-473 | the checksum over the finished segment is written to its field, nothing else changes |
| GsoSplit.WriteSegment | src/core/packet.rs:434-474 | one iteration writes exactly one segment into the window of its slot |
| GsoSplit.WriteSegments | src/core/packet.rs:411-475 | every slot up to the first that is too small holds its segment, with its size; all other slots and sizes are untouched; which error is returned |
| GsoSplit.ClearInput | src/core/packet.rs:399-409 | the two checksum fields of the copy are cleared, nothing else |
| GsoSplit.PlanIsValid | src/core/packet.rs:387-397 | an accepted packet can be cut, and the segment numbers below the count are exactly those with payload |
| GsoSplit.MisplacedUdpChecksum | src/core/packet.rs:480-491 | an accepted UDP packet whose segment fails the receiver's check, because its checksum offset names the length field |
| GsoSplit.GsoNoneChecksum | src/core/packet.rs:542-549 | the field's partial sum is replaced by the complement of the completed sum, in place |
| GsoSplit.CompletedSums | src/core/packet.rs:542-549 | the completed packet plus the partial sum that was in the field folds to 0xffff |
| GsoSplit.CopySingleSegment | src/core/packet.rs:323-345 | succeeds if and only if a slot and a size exist and the packet fits; which error otherwise; touches only its window |
| GsoSplit.SingleInto | src/core/packet.rs:84-93 | the branch without segmentation: result, errors, untouched slots |
| GsoSplit.SegmentsInto | src/core/packet.rs:95-96 | the segmenting branch works on a copy and succeeds if and only if every segment has a slot that takes it |
| GsoSplit.SplitInto | src/core/packet.rs:83-97 | succeeds if and only if the packet is sound and the slots suffice; then the slots hold exactly the specified output |
| GsoSplit.SplitIsDetermined | src/core/packet.rs:76-100 | the output depends on payload, offload information and slots alone |
| RxPacket.HeaderRoundTrip | src/core/packet.rs:216-237 | every virtio header is read back as it was written; ECN and the other flags do not matter |
| RxPacket.Packet.HeaderAndPayload | src/core/packet.rs:208-214 | a packet read with its header shows what the header says and the packet behind it |
| RxPacket.Packet.FromRing | src/core/packet.rs:124-148 | a packet shows the bytes of its ring buffer and owes that buffer |
| RxPacket.Packet.OffloadInfo | src/core/packet.rs:202-237 | the cached answer is the parse of the packet's bytes, whenever it was cached |
| RxPacket.Packet.RecycleNow | src/core/packet.rs:161-166 | gives the buffer back exactly if it is still owed, after which the kernel may write into it |
| RxPacket.Packet.Detach | src/core/packet.rs:62-65 | bytes, offload information and payload stay although the kernel may write into the buffer as soon as it is given back; the buffer is published once |
| RxPacket.Packet.SplitInto | src/core/packet.rs:76-100 | error without offload information, otherwise the split of the payload; the packet itself is unchanged |
| RxPacket.Packet.DetachReuseDrop | src/core/packet.rs:240-266 | after detach the kernel may overwrite any buffers any number of times and the packet may be dropped: same bytes, same split input, one publication |
| TxUserData.CancelRoundTrip | src/core/tx.rs:878-889 | the same for cancellations |
| TxBatch.CqeResult | src/core/tx.rs:891-905 | success exactly for results >= 0; TimedOut exactly for ECANCELED after a cancel request; every other error keeps its number |
| TxBatch.CutHappens | src/core/tx.rs:501-523 | an unfinished batch is cut in the first round that sees a dropped future or a passed deadline; the dropped future decides the reason if both are seen |
| TxBatch.ActiveTxBatch.IsComplete | src/core/tx.rs:782-784 | the counter comparison holds if and only if every entry has a result |
| TxBatch.ActiveTxBatch.CompleteWrite | src/core/tx.rs:790-799 | sets the result of a pending entry once, ignores every other completion, keeps the counters exact, and makes the remaining work fall |
| TxBatch.ActiveTxBatch.MarkUnsubmittedError | src/core/tx.rs:815-824 | exactly the unsubmitted entries without result get the error |
| TxBatch.ActiveTxBatch.MarkDriverError | src/core/tx.rs:826-839 | every missing result gets the error, no existing one changes, nothing stays pending |
| TxBatch.ActiveTxBatch.MarkSubmitted | src/core/tx.rs:562-570 | the next entry becomes submitted and pending; the remaining work falls |
| TxKernel.DropConserves | src/core/tx.rs:648-662 | requests only move between queue, kernel and completion queue: each is answered exactly once |
| TxKernel.RunExecuted | src/core/tx.rs:572-614 | a write that succeeded was started by the kernel, after every kernel step |
| TxKernel.CancelExecuted | src/core/tx.rs:616-633 | and after every cancellation that hits |
| TxKernel.RunOrdered | src/core/tx.rs:572-614 | running a request of a linked chain keeps: one chain in the kernel, writes issued in increasing index, successes before it, errors after it |
| TxKernel.CancelOrdered | src/core/tx.rs:616-633 | so does a cancellation, wherever in the chain it hits |
| TxKernel.FinishedChain | src/core/tx.rs:572-614 | a finished chain reads as successes followed only by errors |
| TxRuns.GoodRun | src/core/tx.rs:572-614 | every kernel step keeps the joint invariant of driver and kernel |
| TxRuns.GoodCancelHit | src/core/tx.rs:616-633 | a cancellation that hits keeps it |
| TxRuns.GoodCancelDone | src/core/tx.rs:616-633 | completing a cancellation keeps it |
| TxRuns.GoodAccept | src/core/tx.rs:537-552 | accepting a queued write keeps it |
| TxRuns.GoodCancelRequest | src/core/tx.rs:501-504 | setting the cancel flag keeps it: from then on ECANCELED reads as a timeout, for the entries in flight and no others |
| TxRuns.GoodPushWrite | src/core/tx.rs:562-570 | queueing a write of an unordered batch keeps it |
| TxRuns.GoodPushCancel | src/core/tx.rs:624-629 | queueing a cancellation keeps it |
| TxRuns.GoodSubmitChain | src/core/tx.rs:554-614 | submitting the next chain, a full chunk or the rest of the batch, keeps it, because nothing is in flight |
| TxRuns.GoodReap | src/core/tx.rs:648-662 | reaping a completion keeps it |
| TxDriver.TxDriverThread.ReapOne | src/core/tx.rs:654-659 | one completion is applied to the entry it decodes to, which is pending; cancellations and foreign user_data change nothing |
| TxDriver.SubmittedEnds | src/core/tx.rs:790-799 | no submitted entry ever ends Interrupted, and one ends TimedOut only if it was cancelled |
| TxRuns.ReapedBelongs | src/core/tx.rs:648-662 | every reaped write completion belongs to the current batch and decodes to the pending entry that submitted it |
| TxRuns.NothingPending | src/core/tx.rs:497-499 | with nothing pending no write of any batch is left in the ring |
| TxDriver.TxDriverThread.SubmitWrite | src/core/tx.rs:562-570 | submits the next entry, or fails and leaves the bookkeeping alone |
| TxDriver.TxDriverThread.SubmitUnordered | src/core/tx.rs:537-552 | exactly a chunk of entries, or what is left, is submitted; afterwards something is in flight or all was submitted |
| TxDriver.TxDriverThread.BuildEntries | src/core/tx.rs:589-594 | consecutive entries, each but the last linked to the next |
| TxDriver.TxDriverThread.SubmitNextOrdered | src/core/tx.rs:554-560 | nothing is submitted while an earlier entry is in flight; otherwise exactly the next chunk that fits the ring |
| TxDriver.TxDriverThread.SubmitOrderedLinked | src/core/tx.rs:572-614 | submits exactly the next chunk as one chain, bounded by the chunk size and the ring, and keeps the order invariant |
| TxDriver.TxDriverThread.Submit | src/core/tx.rs:548 | the whole queue is accepted in order, with the kernel acting before, between and after the entries, or the call fails |
| TxDriver.TxDriverThread.PushCancel | src/core/tx.rs:624-646 | one cancellation is queued after as many submissions as a full queue needs; none is lost or reordered |
| TxDriver.TxDriverThread.SubmitCancels | src/core/tx.rs:616-633 | the kernel accepts one cancellation for each pending entry, in index order, and no request is lost track of |
| TxDriver.TxDriverThread.ProcessCqes | src/core/tx.rs:648-662 | the queue is emptied oldest first with the effect of reaping one by one; no result is overwritten, and a reaped write makes the remaining work fall |
| TxDriver.TxDriverThread.WaitForActivity | src/core/tx.rs:664-702 | called only with a write in flight, and after a cut only with everything in flight cancelled; returns with a write completion unless woken for another reason |
| TxDriver.TxDriverThread.SomethingPending | src/core/tx.rs:486-525 | a batch that is not complete after submitting or cancelling has a write in flight |
| TxDriver.TxDriverThread.CancelBatch | src/core/tx.rs:502-507 | unsubmitted entries get the given error, results stay, and the kernel accepts one cancellation for exactly each entry in flight |
| TxDriver.TxDriverThread.CancelAndCheck | src/core/tx.rs:501-523 | every entry in flight is cancelled, the unsubmitted ones get the reason; says whether the batch is complete; a failing cancellation completes it; no result is overwritten |
| TxDriver.TxDriverThread.CutIfDue | src/core/tx.rs:501-523 | the two checks of a round cut an unfinished batch exactly in its round, for the right reason |
| TxDriver.TxDriverThread.SubmitOrCancel | src/core/tx.rs:486-523 | submits at most a chunk, and nothing once the batch was cut; reaches the wait only with a write in flight, with the batch cut exactly if its round has come and then with everything in flight cancelled; overwrites no result |
| TxDriver.TxDriverThread.Iterate | src/core/tx.rs:486-535 | with a reliable ring it does not fail; no result is overwritten, failures included; an iteration ends the batch, or uses up a spurious wake-up, or lowers twice the unsubmitted plus the in-flight entries |
| TxDriver.TxDriverThread.WaitAndReap | src/core/tx.rs:525-533 | a completed wait uses up a spurious wake-up or lowers the remaining work; a failing wait completes the batch |
| TxDriver.TxDriverThread.ExpireAtOnce | src/core/tx.rs:481-484 | a deadline that has passed before the first submission: nothing is submitted, everything ends TimedOut |
| TxDriver.ChainResults | src/core/tx.rs:572-614 | the shape of a chain's completions carries over to the results returned |
| TxDriver.WriteSomewhere | src/core/tx.rs:525-533 | a pending entry's write is in the kernel or already completed |
| TxSlot.PhaseShows | src/core/tx.rs:68-95 | in every run no waiter is registered twice and the slot shows Cancelling exactly while its batch is being cancelled |
| TxSlot.PhaseMoves | src/core/tx.rs:58-121 | which requests are granted in which phase |
| TxSlot.StepKeeps | src/core/tx.rs:195-289 | every step of any sender, of a timeout, a dropped future or the driver keeps the slot invariant |
| TxSlot.RunKeeps | src/core/tx.rs:195-289 | so does every run |
| RxRing.SlotsDiffer | src/core/rx.rs:598-600 | fewer than a ring's worth of consecutive publications use different entries |
| RxRing.KernelSeesWindow | src/core/rx.rs:623-629 | 16-bit subtraction of the kernel's head from the tail word gives the exact number of published buffers |
| RxRing.ProvidedBuffers.RecycleBuffer | src/core/rx.rs:572-580 | the buffer goes to the entry of the unbounded counter, with its own address and full length; at unlock the shared tail word equals the private tail although entry 0 overlaps it; nothing happens once inactive |
| RxRing.ProvidedBuffers.PublishAll | src/core/rx.rs:564-570 | publishes every buffer once, buffer i in entry i, with its own address and full length |
| RxBuffers.OnePlace | src/core/rx.rs:564-654 | a buffer is in exactly one of: published window, unreaped completion, live packet, given up |
| RxBuffers.ReadKeeps | src/core/packet.rs:251-259 | a kernel read changes no live packet's bytes |
| RxBuffers.RecycleAppends | src/core/rx.rs:572-580 | recycling appends to the window: no descriptor the kernel has not consumed is overwritten |
| RxBuffers.DropKeeps | src/core/rx.rs:649-654 | dropping a packet returns its buffer exactly once |
| RxBuffers.DetachKeeps | src/core/packet.rs:62-65 | detaching keeps the packet's bytes and returns its buffer |
| RxBuffers.ReapKeeps | src/core/rx.rs:963-990 | a reaped completion becomes a packet that owes the same buffer |
| RxBuffers.RejectKeeps | src/core/rx.rs:929-940 | a rejected completion loses exactly the buffers of itself and of those collected with it after it |
| RxBuffers.StepKeeps | src/core/rx.rs:564-654 | every kernel, driver and application step keeps the conservation invariant |
| RxBuffers.StartsWell | src/core/rx.rs:564-570 | a freshly published ring satisfies it |
| RxBuffers.DetachThenDrop | src/core/packet.rs:240-266 | detach plus drop publish the buffer once |
| RxShared.RxSharedState.RecvMany | src/core/rx.rs:294-319 | equals repeated single receives, contents, rest of the output and error included |
| RxShared.NothingToReceive | src/core/rx.rs:282-333 | whoever finds nothing is told WouldBlock exactly while the state is Running and the terminal state otherwise |
| RxShared.StateIsLastSet | src/core/rx.rs:260-292 | in every run the state reported is the one set last |
| RxShared.RepeatTakesPrefix | src/core/rx.rs:282-319 | repeated receives take a prefix of the queue and leave the rest |
| RxDriver.CommandKeepsLoopInv | src/core/rx.rs:768-842 | running implies an active read and an owed acknowledgement implies one, after every command, failures included |
| RxDriver.CqeKeepsLoopInv | src/core/rx.rs:959-1034 | the same after every completion |
| RxDriver.CancelNeverAcks | src/core/rx.rs:1010-1024 | in no run does a cancel completion send the acknowledgement: the end of the read has done it |
| RxDriver.ShutdownRemembered | src/core/rx.rs:780-787 | in every run the driver is asked to shut down exactly if it took a Shutdown command |
| RxDriver.RefusedExactly | src/core/rx.rs:959-1014 | which completions reach fail when every call succeeds |
| RxDriver.FailureShows | src/core/rx.rs:1026-1034 | a failure faults the queue, wakes the waiter, disarms auto-resume and answers an owed acknowledgement with the error |
| RxDriver.StopCancels | src/core/rx.rs:780-817 | a stop or a shutdown that finds a read asks the kernel to cancel it, once |
| RxDriver.RxDriverThread.DrainCommands | src/core/rx.rs:758-766 | a normal return leaves the channel empty with a sender alive, and if no system call fails it does return normally |
| RxDriver.RxDriverThread.ReapAll | src/core/rx.rs:927-940 | the collected completions are all handled, in order, while more may arrive; if no system call fails, only a refused completion stops it |
| RxDriver.RxDriverThread.WaitForActivity | src/core/rx.rs:880-925 | never sleeps on completions that are there but handles all of them first; keeps the order whichever descriptor is signalled; if no system call fails, it fails only on a refused completion |
| RxSystem.StepKeeps | src/core/rx.rs:729-1024 | every step of kernel, driver, channel, consumer and recycling threads keeps the joint invariant |
| RxSystem.RunKeeps | src/core/rx.rs:729-1024 | so does every run |
| RxSystem.StartsWell | src/core/rx.rs:1067-1084 | a spawned driver satisfies it |
| RxSystem.ReapReads | src/core/rx.rs:959-1008 | what the driver believes about its read agrees with what the kernel still has to say |
| RxSystem.CheckAtThreshold | src/core/rx.rs:451-477 | a recycle queues a check if and only if it is the threshold-th since the fault |
| RxSystem.StaleCheck | src/core/rx.rs:825-833 | a check that finds no armed fault changes nothing |
| RxSystem.StoppedYetReading | src/core/rx.rs:819-823 | for every threshold from 1 to the buffer count, a run in which the driver reads again after the acknowledged stop, without a Start |
| RxStart.StepKeeps | src/core/rx.rs:141-174 | every step without a dropped future keeps: a stop is queued, then held, then acknowledged exactly while its call waits, and a driver that shows Running runs or is being stopped |
| RxStart.StartedYetStopped | src/core/rx.rs:141-144 | a run with a dropped stop in which start returned Ok last and the driver stops |
| RxControl.StepKeeps | src/core/rx.rs:141-174 | every step of the controller and of the receive path below it keeps: one Start in the channel exactly while a start call waits, and what the state word lets the controller conclude |
| RxControl.RunKeeps | src/core/rx.rs:141-174 | so does every run |
| RxControl.ObeyEffects | src/core/rx.rs:768-842 | what obeying a command changes as far as the controller sees |
| RxControl.StopReturnedYetReading | src/core/rx.rs:155-159 | for every threshold from 1 to the buffer count, a run in which stop returned Ok and the driver reads again without a start call |
| TxBatch.ActiveTxBatch.constructor | src/core/tx.rs:746-762 | a new batch has no results and nothing pending |
| TxSlot.TxBatchShared.AcquireNow | src/core/tx.rs:58-66 | takes an idle slot, leaves any other alone |
| TxSlot.TxBatchShared.AcquireOrRegister | src/core/tx.rs:68-84 | takes an idle slot or registers the waker once |
| TxSlot.TxBatchShared.Cancel | src/core/tx.rs:86-95 | only a running batch becomes cancelling |
| TxSlot.TxBatchShared.Release | src/core/tx.rs:110-121 | wakes every waiter in order and empties the list, unless already idle |
| RxRing.ProvidedBuffers.WriteBufferDescriptor | src/core/rx.rs:598-621 | writes the masked entry, clearing its reserved word |
| RxRing.ProvidedBuffers.AdvanceLocked | src/core/rx.rs:623-629 | advances the tail with wrap-around and stores it in the shared word |
| RxRing.ProvidedBuffers.Deactivate | src/core/rx.rs:594-596 | the ring takes no more buffers |
| RxShared.RxSharedState.Wake | src/core/rx.rs:1166-1174 | a registered waiter is woken and removed |
| RxShared.RxSharedState.Push | src/core/rx.rs:276-280 | appends the packet and wakes the waiter |
| RxShared.RxSharedState.Stop | src/core/rx.rs:264-268 | terminal state and wake-up |
| RxShared.RxSharedState.Fault | src/core/rx.rs:270-274 | terminal state and wake-up |
| RxShared.RxSharedState.Recv | src/core/rx.rs:282-292 | oldest packet first; otherwise WouldBlock or the terminal error |
| RxShared.RxSharedState.Poll | src/core/rx.rs:321-333 | registers only when there is nothing to report |
| RxDriver.RxDriverThread.SubmitMultishotRead | src/core/rx.rs:844-855 | the read is active exactly if it was submitted |
| RxDriver.RxDriverThread.StartReading | src/core/rx.rs:794-805 | running with a read, or failed and not running |
| RxDriver.RxDriverThread.BeginStopping | src/core/rx.rs:807-817 | acknowledged at once without a read, otherwise owed and the read cancelled |
| RxDriver.RxDriverThread.AutoResume | src/core/rx.rs:825-842 | restarts only while a fault is armed, and disarms it |
| RxDriver.RxDriverThread.FailDriver | src/core/rx.rs:1026-1034 | forgets the read, faults the queue and answers an owed acknowledgement with the error |
| RxDriver.RxDriverThread.Obey | src/core/rx.rs:768-792 | every command with either outcome of the ring |
| RxDriver.RxDriverThread.ReadDone | src/core/rx.rs:959-1008 | every read completion: packet, rejection, ENOBUFS, ECANCELED, other errors, and the end of the read |
| RxDriver.RxDriverThread.CancelDone | src/core/rx.rs:1010-1024 | every cancel completion |
| RxDriver.RxDriverThread.Recycle | src/core/rx.rs:649-654 | a recycle counts, and sends a check exactly if the counter says so |

## Left out

- Foreign calls (eventfd, poll, ioctl, io_uring setup, page-aligned memory, raw pointers): replaced by kernel steps and nondeterministic results.
- TX completion-queue overflow: `src/core/tx.rs` has no flush loop, so every TX completion is taken to become reapable.
- TxDriver.TxDriverThread.RunBatch: requires an idle ring, which every batch without a ring failure restores; after `mark_driver_error` outstanding requests are no longer tracked by the code, and then only the bookkeeping contracts of `ActiveTxBatch` hold. Batches have at most 2^40 entries, the limit of the codec. The `spurious` parameter bounds wake-ups without a completion, which no code bounds.
- TxDriver.TxDriverThread.SubmitOrderedLinked: the retry loop for a full submission queue is not entered, because the queue is empty at the call; the bytes and file descriptor of a write entry are not part of a request, which is identified by its index.
- TxDriver.TxDriverThread.Submit: a successful submit is taken to have consumed the whole queue; the code ignores the count that the call returns. The kernel acts between entries, except inside one linked chain, which it starts only when it has all of it, and except while completions are being applied, which the kernel does not see.
- TxDriver.TxDriverThread.CutIfDue: the phase change of the slot that goes with a cut is a step of `TxSlot`, not of the driver class.
- TxDriver.TxDriverThread.CancelBatch: marks the unsubmitted entries before it sets the flag; the code does it in the other order with nothing in between.
- TxSlot.OneHolder: assumes that the driver thread lives and eventfd signalling succeeds, so the closed-channel branches of `send_many` are not steps; the copying of results into the caller's slice is not modelled.
- GsoSplit.SplitGsoPacket: assumes that the IP header ends at or before csum_start, that the checksum field lies in the transport header and that the slots are distinct arrays; other metadata makes the code panic or overwrite payload.
- GsoSplit.SegmentsInto: makes the same assumption about the metadata.
- GsoSplit.SplitInto: makes the same assumption about the metadata of a packet to be segmented.
- RxPacket.Packet.SplitInto: makes the same assumption about the metadata of a packet to be segmented.
- Receiver.SplitDelivers: assumes that the metadata agrees with the packet (IP version and protocol as the gso type says, csum_start at the end of the IP header without IPv6 extension headers) and that the checksum field is apart from the rewritten fields and the data offset.
- GsoSplit.SegmentsCheck: assumes in addition an even checksum offset away from the rewritten fields and segments of at most 65535 bytes; the replacement of a zero UDP checksum by all ones (RFC 768) is not done by the code and not claimed.
- Checksum.Checksum: says nothing about an accumulator that overflows, where the code panics or wraps by build mode; `Checksum.PacketSizedNeverOverflows` shows that no packet gets there.
- RxPacket.Packet.OffloadInfo: the virtio header is read as little-endian, its length is 10 bytes, and the parse is a plain function.
- RxDriver.RxDriverThread.Pass: a thread that parks with senders alive is left parked; other threads and the kernel act at most `budget` times during one pass; a submission that fails is taken not to reach the kernel, and after a failure completions of a forgotten read are not tracked.
- RxDriver.RxDriverThread.Recycle: counting and sending are one step; the separate atomic operations of `note_recycled`, `arm_enobufs` and `disarm` are not interleaved, and the counter has no upper bound.
- RxSystem.StepKeeps: covers runs in which `fail` is not reached, as the properties need.
- RxStart.StartHoldsIff: covers runs while the driver handle lives, that is without a Shutdown command.
- RxControl.StepKeeps: one controller, as its exclusive borrows enforce; the acknowledgement channels deliver, so the error return of stop, which only `fail` causes, is not a step.
- Handles, spawning and thread joins of the RX driver.
- `src/core/config.rs`, `src/core/mod.rs`, `src/lib.rs`, `src/backend`: configuration checks, forwarding and runtime glue; the power-of-two buffer count and the nonzero chunk size appear as preconditions.
