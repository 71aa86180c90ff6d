# winvhci: the packet rendezvous, the radio lifecycle and their clients

winvhci is a Windows driver that lets a userspace program be a Bluetooth
controller. It connects two parties that run concurrently - the program behind
`\\.\WinVhci` and the Windows Bluetooth stack - through three channels: host to
controller, controller-to-host events, and controller-to-host ACL data. Each
channel pairs a queue of parked reads with an unbounded backlog of packets. This
project models that driver, the bridge that feeds it from a TCP stream, and the
two client libraries' overlapped reads, and proves what they keep.

`dafny verify dfyconfig.toml` checks everything. Nothing here runs the driver.

## How the model is built

**The driver, twice.** `Fdo.dfy` holds the device context as a value and one
function for each region the driver runs under its spinlock. `Driver.dfy` is a
step system over it: any number of callbacks in flight, each with a program
counter, interleaved with the framework, PnP and the one client handle; a step is
one locked region or one completion outside the lock. The theorems are about
every run of that system.

`PacketList.dfy`, `Framework.dfy`, `ChannelFields.dfy`, `FdoContext.dfy`,
`Completion.dfy` and `Callbacks.dfy` are the same driver on the heap: doubly
linked packet lists, manual queues, ULONG counters, output buffers filled by
copying loops. Every region method is proved equal to its region function, and
every callback method - regions, completions and freeing in the code's order - to
what its thread of the step system does when left to run (`RunAlone.dfy`). The
heap classes group the context's list, count, peak and queue of one channel in
one object, `ChannelFields`; the driver has twelve fields instead.

**Histories.** Each channel's value carries the log of what happened on it, in
lock order. `Rendezvous.dfy` says when a log is legal - two FIFOs, never both
non-empty - and derives what legal logs imply without mentioning states in
between. `Channel.dfy` proves that the moves the driver makes, which look only at
its counter and at what the framework answers, keep the log legal. `RadioLife.dfy`
does the same for the log of control packets and D0 transitions.

`Acceptance.dfy` and `WriteLedger.dfy` tie the histories to the calls that made
them: every write from its bytes to its acceptance or its refusal. `ReadBytes.dfy`
says which bytes a read shows, from one side's write to the other side's read, and
`Answers.dfy` what every call may be answered with, told from the call alone.
`Queues.dfy` says when the queues take reads, `RadioAsked.dfy` what `RadioPresent`
means. `Lengths.dfy` writes the driver's ULONG subtractions once more with wrapping
arithmetic and shows that no length wraps, and when a counter does.

**The bridge** (`H4.dfy`, `Reassembly.dfy`, `Bridge.dfy`): H4 framing, a parse of
the whole byte stream as the reference, and the pump with its fixed accumulator,
proved against that reference for every way of cutting the stream into reads.
`BridgeToDriver.dfy` puts it on top of the driver's runs and says where it ends.

**The clients** (`ClientIo.dfy`, `PyDevice.dfy`): the overlapped read and write of
`VhciIo` and the read of `VhciDevice`, each a small machine against a kernel that
may complete, abort or fail the request at any moment.

## What is assumed of the environment

* Manual queues are FIFO. Retrieving fails only on an empty or a purged queue.
  Forwarding may fail at any time. The framework may cancel any parked read and
  completes it itself. A synchronous purge is one step.
* The handle is exclusive. Its close begins when all its reads and writes have
  been completed, and the next open comes after the close has returned.
* A radio's PDO is created only for an id that was reported, enters and leaves D0
  alternately, and is destroyed outside D0. PnP is otherwise free: its events may
  come arbitrarily late.
* Where radio ids must be distinct, fewer than 2^32 control packets have been
  accepted (`RadioRuns.FewControls`).
* The pool may fail any allocation. ULONGs wrap; lengths and depths do not, and
  the counters' agreement with them is stated modulo 2^32.
* A failed forward or AddRadio may answer any failing status.
* The kernel completes a read with at least one byte, as the driver does.
* Windows gives user mode the Win32 error of a status as `BridgeToDriver.Win32Error`
  lists them. After a failed wait whose collect succeeds, the last error found may be
  anything.
* `VhciDevice.close` takes `_handle` in one step (python/winvhci/device.py:565), so
  of several closes one closes the handle.

## Where the code says less than its comments

* The comment on `RadioStarted` (winvhci/winvhci.h:336-352) says it is TRUE while
  the radio PDO is started and in D0. Neither close nor the control packet clears
  it, and a D0 exit of a radio no longer current is ignored, so on a quick reopen
  it stays TRUE before the new radio has entered D0.
  `ReopenRun.QuickReopenInheritsStarted` is such a run;
  `RadioRuns.RadioStartedMeans` is what the flag does mean, and
  `RadioLife.FaithfulExactlyWhenOrderly` says on which histories the comment is
  right.
* `VhciIo.Read` is documented to return 0 when the wait timed out
  (tools/vhci-io.ps1:100). A request completed in time for the cancel returns its
  data: `ClientIo.TimedOutReadReturnsData`. An abort that lands while the call still
  waits is an exception, not a 0: `ClientIo.AbortInsideTheWaitThrows`. The exact
  conditions are `ClientIo.OutcomesAreExact` and `ClientIo.NothingMeansAborted`.
* `VhciDevice.read` promises `b''` once the device is closed
  (python/winvhci/device.py:590). A read raises exactly when a failed, non-aborted
  call of its own is judged while `_closing` is clear (`PyDevice.RaisesExactly`);
  but for a fault of its own that is exactly when, of all the closes and opens begun
  before the judging, the last was an open (`PyDevice.ReopenRaisesExactly`). Three
  runs: a reopen makes the read raise (`PyDevice.ReopenMakesACloseRaise`), so does an
  open that fails while the close is still at work
  (`PyDevice.FailedOpenMakesACloseRaise`), and closing the reopened device before the
  judging quiets it again (`PyDevice.SecondCloseQuietsIt`). It returns `b''` with no close begun exactly when it judges an abort
  (`PyDevice.EmptyUnclosedExactly`); `PyDevice.AbortReturnsEmptyUnclosed` is a run.
* The comments in `VhciIo` say the buffer stays pinned, and the `OVERLAPPED`
  allocated, until the request has been collected (tools/vhci-io.ps1:104-111,
  187-191). The collect's own wait can fail too, and the call then lets go of both
  with the request still in flight: the comments hold of a run if and only if that
  never happens in it (`ClientIo.HeldUntilCollected`). `ClientIo.GivingUpHappens` is
  a run in which it does, and a packet is lost by it.

## Model

| member | source | states |
|---|---|---|
| Rendezvous.NeverBothWaiting | winvhci/user.c:20-32 | A legal history never leaves a packet and a read both waiting, the state the code calls impossible. |
| Rendezvous.PacketsAreFifo | winvhci/user.c:20-41 | The accepted packets, less exactly the whole-backlog runs cut out by purges, are the matched packets in order and then the backlog. |
| Rendezvous.ReadsAreFifo | winvhci/user.c:20-32 | Reads posted at most once each are matched in posting order, apart from those cancelled or purged while they waited. |
| Rendezvous.PacketCounts | winvhci/user.c:254-260 | Every packet accepted is matched, purged or waiting, and likewise every packet queued. |
| Channels.AppendIsSound | winvhci/user.c:254-260 | Queueing where the counter is not 0 or no read could be retrieved is legal; count and peak follow the true depth through the ULONG's wrap. |
| Channels.HandOffIsSound | winvhci/user.c:216-221 | A read retrieved because the counter says 0 may be given the packet: the history stays legal. |
| Channels.TakeHeadIsSound | winvhci/user.c:311-314 | Taking the head for an arriving read keeps the history legal and the count true. |
| Channels.ParkIsSound | winvhci/user.c:314-325 | Parking on an empty backlog keeps the history legal. |
| Channels.FreeAllIsSound | winvhci/user.c:78-89 | Freeing a whole list and zeroing its count keeps the history legal and the peak unchanged. |
| Channels.SoundCountWithinPeak | winvhci/user.c:753-769 | A depth counter never exceeds its peak. |
| Delivery.NoLostWakeup | winvhci/user.c:20-32 | In every reachable state and on every channel, no read is parked beside a waiting packet. |
| Delivery.PacketsInOrder | winvhci/fdo.c:216-319 | On every channel of every run: arrivals less purged runs are the matched packets followed by the backlog. |
| Delivery.CountersTellTheDepth | winvhci/user.c:753-769 | Count is the list's length as a ULONG, peak the greatest length ever (saturating), and no snapshot shows a count above its peak. |
| Acceptance.ArrivalsAreAccepted | winvhci/fdo.c:251-314 | What a channel's history records as arrived is exactly the packets of the writes and control replies accepted for it, each named with its request, in lock order. |
| Acceptance.AcceptedPacketsComeOutInOrder | winvhci/user.c:161-341 | FIFO end to end: accepted packets, less whole backlogs purged, come out in order, whatever the interleaving, cancels and allocation failures. |
| Acceptance.WriterIsTold | winvhci/fdo.c:280-290 | A write fails for want of memory exactly when its packet was not accepted. |
| WriteLedger.EveryWriteIsAccountedFor | winvhci/user.c:513-680 | In every run, a write of a packet, told from its bytes when it was issued, is on its way, accepted into its channel, or lost for want of a radio, a client or memory - as often as it was sent. |
| WriteLedger.SentOnce | winvhci/user.c:543-592 | A request is the write of one packet, and is sent once. |
| WriteLedger.SentAsWritten | winvhci/fdo.c:483-525 | The packet of a write is the bytes its sender wrote: H4 from the client, the context from the stack. |
| WriteLedger.LossesAreTold | winvhci/user.c:623-642 | In every run a request is answered DEVICE_NOT_READY or INSUFFICIENT_RESOURCES, or is about to be, exactly as often as a client's packet of it was lost or the framework failed it - its forward or its AddRadio - with that status. |
| WriteLedger.FailedAreOthers | winvhci/user.c:487-495 | The framework fails so only requests that are not the write of a packet - reads and control packets - and each at most once. |
| WriteLedger.WritesAreToldOfLosses | winvhci/user.c:623-642 | So the write of a packet is answered with one of the two statuses exactly as often as its packet was lost. |
| WriteLedger.CompletedWritesWereToldTheTruth | winvhci/fdo.c:280-290 | Once a client's write of a packet is completed, either the packet was accepted, once, or its sender was told, once, that it was not. |
| MatchLedger.MatchesAreDelivered | winvhci/user.c:264-281 | Every match of a packet to a read is completed exactly once; nothing else completes a read with a packet. |
| MatchLedger.ReadsMatchInOrder | winvhci/user.c:347-395 | On every channel of every run no read is posted twice, and reads are matched in posting order apart from those cancelled or purged. |
| ReadBytes.MatchesAreShown | winvhci/user.c:268-281 | In every run a client's read is completed with given bytes, or is about to be, exactly as often as it was matched to a packet whose type and body they are; a stack's with its length, type and body likewise. |
| ReadBytes.NothingElseIsShown | winvhci/fdo.c:186-214 | A completion with a packet shows one its read was matched to, whole, with its length as Information; if it does not fit, nothing. |
| ReadBytes.WriteSharesItsReadsFate | winvhci/fdo.c:293-314 | A client's write whose packet was handed to a waiting read succeeds, with its whole transfer, if that read had room, and fails as the read does if not. |
| ReadBytes.ClientReadsWhatTheStackWrote | winvhci/fdo.c:483-525 | End to end: a client's read matched to a WRITE_HCI shows that write's type byte and the DataLen bytes behind its header. |
| ReadBytes.StackReadsWhatTheClientWrote | winvhci/user.c:573-642 | And back: a stack's read matched to a client's write shows the bytes written, behind the length of what follows their type. |
| ReadBytes.ClientReadsTheReply | winvhci/user.c:498-507 | A control packet's reply is read as FF FF, the opcode, and the low 16 bits of the radio's id, low byte first. |
| Answers.EveryAnswerIsAllowed | winvhci/user.c:543-680 | In every run each completion has a status and an Information value its own call allows: a client's write the whole transfer on success and the one refusal its bytes call for, a WRITE_HCI its DataLen or INVALID_PARAMETER, a read without a packet never success. |
| Answers.RunsAreLawful | winvhci/fdo.c:533-660 | So too what every callback holds and every queue parks: each stack read waits for, and is given, only the packet type it asked for, or by its room if it asked for neither. |
| Wire.ClientWritesKeepTheirBytes | winvhci/user.c:543-592 | A write goes to the stack exactly when it is an event or ACL packet within its limit, and then as the bytes written. |
| Wire.ClientBytesAreWritable | winvhci/user.c:275-281 | What a read gives a client can be written back and means the same packet exactly if it is an event or ACL packet with at least one byte of body and within its limit. |
| Wire.StackBytesAreWritable | winvhci/fdo.c:203-212 | The context written to a stack's read decodes, as a stack's write, to the same packet; exactly up to 1025 bytes of body. |
| Wire.StackWritesKeepTheirBytes | winvhci/fdo.c:483-525 | A WRITE_HCI is accepted exactly when its header is there and DataLen stays within the buffer and 1025; it is then the packet the header announces, and fits every client's read. |
| Lengths.StackWriteNeverUnderflows | winvhci/fdo.c:483-509 | With wrapping arithmetic, behind the header check, the two DataLen comparisons pass exactly the writes the model accepts, and the copy stays in the buffer. |
| Lengths.HeaderCheckIsNeeded | winvhci/fdo.c:483-509 | Without a whole header the first comparison would pass every DataLen up to 1025. |
| Lengths.StackReadNeverUnderflows | winvhci/fdo.c:533-601 | READ_HCI decides the same with a wrapping capacity, whatever lengths it is posted with. |
| Lengths.CompletionNeverUnderflows | winvhci/fdo.c:186-201 | So does the completion of a stack's read, and what it reports never exceeds the room. |
| Lengths.BodyLengthNeverUnderflows | winvhci/user.c:574 | A write's body length, one less than its transfer, never wraps. |
| Lengths.CountUnderflowsExactly | winvhci/user.c:311-314 | A depth counter is decremented from zero exactly when the depth is a multiple of 2^32, so never below 2^32 packets. |
| SplitPark.SplitDesignLosesAWakeup | winvhci/winvhci.h:479-485 | The old design, looking and parking in two regions, has a run that leaves a packet and a read both waiting. |
| SplitPark.LostUntilNextRead | winvhci/fdo.c:621-629 | There both go on waiting while only packets arrive and pending parks land, however many as long as fewer than 2^32 wait, until another read looks. Cancels, purges and closes are not among these steps. |
| RequestLedger.EveryRequestIsInOnePlace | winvhci/user.c:513-680 | In every run, a request issued is in exactly one place - being dispatched, parked on one queue, held by one deliverer, or completed - and nothing else is anywhere. |
| RequestLedger.NothingCompletesTwice | winvhci/fdo.c:153-214 | No run completes a request twice. |
| RequestLedger.NothingIsForgotten | winvhci/fdo.c:630-672 | Once all callbacks have returned, every request is parked or completed. |
| PoolLedger.EveryPacketIsInOnePlace | winvhci/user.c:53-89 | An allocated packet is on exactly one backlog, in one read's hands, or freed once. |
| PoolLedger.OutstandingIsListedOrInHand | winvhci/user.c:311-340 | Allocations less frees are the three list lengths plus the packets in hand. |
| PoolLedger.NothingIsFreedTwice | winvhci/fdo.c:637-642 | No run frees a packet twice. |
| Closing.ClosedMeansEmpty | winvhci/user.c:186-208 | From the end of a close to the next open all three backlogs are empty, though the old stack goes on reading and writing; RadioPresent and Owner are clear. |
| Closing.ClosedAndIdleLeaksNothing | winvhci/user.c:142-149 | With the handle closed and no callback running, everything allocated has been freed, once. |
| Queues.AcceptsExactly | winvhci/user.c:858-861 | In every run a queue takes reads exactly if no close or cleanup has purged it, or a close has started it since. |
| Queues.AcceptsUnlessClosing | winvhci/user.c:858-861 | Without a cleanup the stack's queues refuse only while a close is between purging and starting them. |
| Queues.StackReadIsPosted | winvhci/user.c:347-395 | In every run a stack's read gets the oldest packet if one waits; else it is parked behind the others exactly if the framework is willing and its queue takes reads; else it is refused and nothing changes. |
| Queues.StackReadsPark | winvhci/user.c:347-395 | With the handle open or closed, and no cleanup, only an unwilling framework refuses one. |
| Queues.ClientReadsPark | winvhci/user.c:309-329 | A client's read is so posted in every run, and only an unwilling framework refuses it. |
| Residue.StackDownResidue | winvhci/user.c:125-135 | While RadioStarted is false, packets waiting for the stack plus admitted, undelivered writes are at most the admitted, undelivered writes when it was last cleared. |
| Residue.PatientClientLeavesLittle | winvhci/user.c:623-642 | A client with at most k writes in flight at a time leaves at most k packets behind; one at a time, at most one. |
| Residue.NothingBeforeFirstD0 | winvhci/user.c:585-609 | Before any radio has entered D0 nothing is queued for the stack. |
| RadioRuns.RadioStartedMeans | winvhci/pdo.c:70-80 | RadioStarted holds exactly if some radio entered D0 while current and none has left D0 while current since. |
| RadioRuns.CurrentRadioInD0IsStarted | winvhci/user.c:102-107 | While the current radio is in D0, RadioStarted holds: an older radio's late D0 exit never makes the newer one refuse writes. |
| RadioRuns.RadioStartedIsInD0OrInherited | winvhci/user.c:471-487 | RadioStarted holds exactly if the current radio is in D0 or it was inherited at the last control packet; no later id has been heard of. |
| RadioRuns.OrderlyRunsAreFaithful | winvhci/pdo.c:75-80 | Where each radio leaves D0 before the next control packet, RadioStarted holds exactly when the current radio is in D0. |
| RadioRuns.RadiosAliveCounts | winvhci/pdo.c:377 | RadiosAlive is the number of radios created and not yet destroyed. |
| RadioAsked.RadioPresentMeans | winvhci/user.c:471-510 | In every run RadioPresent holds exactly if the client has been given a radio since it opened the handle or one is being added for it, and never more than one. |
| RadioAsked.ControlIsRefusedExactly | winvhci/user.c:471-485 | A control packet is refused exactly if the client has a radio or one is being added. |
| RadioAsked.FailedMayAskAgain | winvhci/user.c:487-494 | Once a failed AddRadio has been undone the client has no radio, so a control packet may ask again. |
| RadioAsked.AdmittedExactly | winvhci/user.c:623-642 | A write is let through exactly if the client has a radio and some radio has entered D0 while current and none left it while current since. |
| RadioAsked.RepliesTellTheRadio | winvhci/user.c:498-507 | The reply tells the opcode the client wrote and the id of the radio that is current and has been reported. |
| RadioLife.StartedIsInD0OrInherited | winvhci/winvhci.h:336-366 | On any history with fresh ids: started exactly if the current radio is in D0 or the state was inherited. |
| RadioLife.FaithfulExactlyWhenOrderly | winvhci/winvhci.h:336-366 | The flag has always agreed with the current radio's D0 state if and only if every control packet came after the current radio had left D0. |
| ReopenRun.QuickReopenInheritsStarted | winvhci/user.c:824-828 | A run, open to reopen, that ends with RadioStarted set, radio 2 current and only radio 1 in D0. |
| Sizes.QueuedPacketsFit | winvhci/winvhci.h:99-124 | Every queued packet has a type and length its channel can deliver: 257 bytes of event, 1021 of ACL, 1025 towards the client. |
| Sizes.ClientReadsAlwaysFit | winvhci/user.c:298-307 | A client's read matched to a packet always succeeds: its BUFFER_TOO_SMALL branches are unreachable. |
| Sizes.StackReadsFitWhenRoomy | winvhci/fdo.c:186-201 | If the stack posts reads with room for their channel's limit, none fails for size. |
| Accounts.LossAccounting | winvhci/user.c:204-262 | Modulo 2^32: WritesTotal is matched, waiting and purged packets for the stack; QueuedToUserTotal is taken, waiting and purged ones for the client; each drop counter counts its own outcome. |
| Accounts.EachQueueingEndsOnce | winvhci/user.c:204-262 | Each call of WinVhciQueueToUser ends in exactly one of delivered, queued, no client, no memory. |
| Accounts.EachWriteEndsOnce | winvhci/user.c:626-642 | Each well-sized event or ACL write that reaches an outcome ends in exactly one of accepted, no radio, no memory. |
| Accounts.SnapshotTellsTheRun | winvhci/user.c:757-769 | In every run the statistics snapshot gives the three depths modulo 2^32, the greatest each has been, saturating, and modulo 2^32 how many packets met each outcome. |
| FaultInjection.InjectionIsOneInN | winvhci/winvhci.h:408-419 | With the knob at N, exactly k / N of the first k tries at either allocation site have been failed, for k below 2^32. |
| FaultInjection.DropsAreOneInN | winvhci/fdo.c:280-290 | If the real pool always answers, DropsAllocFailed is k / N after k tries. |
| FaultInjection.TriesFailExactly | winvhci/winvhci.h:408-419 | In every run, below 2^32 tries, a try at memory fails exactly if the pool has none or its number is a multiple of the knob. |
| FaultInjection.PacketsAreQueuedExactly | winvhci/fdo.c:268-314 | So a packet no read waits for is put last on its backlog, and its writer told success, exactly if that try need not fail and, for the client, the handle is open; otherwise the channel is as it was. |
| RunAlone.MovesFinish | winvhci/user.c:516-527 | Every step of a callback brings it nearer its return; but for the lock, which a step takes as it goes, none waits. |
| RunAlone.CallbacksNeverWait | winvhci/user.c:516-527 | In every run, however interleaved, a callback that has not returned has made fewer than six steps. |
| RunAlone.RunOnIsSteps | winvhci/user.c:513-680 | Running a callback to its end is taking its steps in the system: same context, same completions. |
| RunAlone.CloseRuns | winvhci/user.c:807-864 | The close's six steps in a row give the closed context and complete every parked stack read. |
| RunAlone.CloseLeavesItReady | winvhci/user.c:824-864 | That context is empty, every packet freed, without owner or radio, with both stack queues taking reads again; RadioStarted and the ids are what they were. |
| RunAlone.CleanupLeavesItRefusing | winvhci/fdo.c:799-833 | A cleanup's is as empty, with both stack queues refusing. |
| RunAlone.ParkedReadsAreCancelled | winvhci/user.c:858-859 | Either way each parked stack read is completed once, as cancelled. |
| PacketLists.PacketList.InsertTail | winvhci/user.c:254 | InsertTailList on the linked list is appending to the backlog. |
| PacketLists.PacketList.RemoveHead | winvhci/user.c:312 | RemoveHeadList takes exactly the oldest packet off. |
| PacketLists.PacketList.FreeAll | winvhci/user.c:78-89 | The loop empties the list and frees its packets, oldest first, each once. |
| Framework.ManualQueue.Purge | winvhci/user.c:858-859 | A purge cancels every waiting request, once, and leaves the queue refusing. |
| ChannelFieldsOnHeap.ChannelFields.TakeWaitingRead | winvhci/user.c:216-221 | Count and queue on the heap hand off exactly as the channel's move does. |
| ChannelFieldsOnHeap.ChannelFields.AppendPacket | winvhci/user.c:254-260 | List, count and peak on the heap change exactly as the channel's append does. |
| ChannelFieldsOnHeap.ChannelFields.TakeOrPark | winvhci/user.c:311-325 | An arriving read takes the head or parks, exactly as the channel's moves do. |
| FdoContexts.FdoContext.TestFailAlloc | winvhci/winvhci.h:408-419 | The in-place counter gives the knob's verdict and counts the try. |
| FdoContexts.FdoContext.QueueToUserLocked | winvhci/user.c:182-264 | The locked region on the heap does to the context exactly what the step system's region does; the read returned was waiting and is no longer owned. |
| FdoContexts.FdoContext.TakeOrParkForClient | winvhci/user.c:309-329 | Likewise for the region of a client's read. |
| FdoContexts.FdoContext.TakeOrParkForStack | winvhci/user.c:347-395 | Likewise for the region of a stack's read. |
| FdoContexts.FdoContext.AdmitWrite | winvhci/user.c:623-642 | Likewise for the admission check. |
| FdoContexts.FdoContext.DeliverToStackLocked | winvhci/fdo.c:249-314 | Likewise for the delivery of a write. |
| FdoContexts.FdoContext.TakeRadioId | winvhci/user.c:471-485 | A second radio is refused and changes nothing; else a fresh id becomes current before PnP hears of it. |
| FdoContexts.FdoContext.FileCreate | winvhci/user.c:785-805 | The open records the owner and changes nothing else. |
| FdoContexts.FdoContext.D0Entry | winvhci/pdo.c:75-80 | Only the current radio's entry sets RadioStarted. |
| FdoContexts.FdoContext.RadioStackDown | winvhci/user.c:125-135 | Only the current radio's exit clears RadioStarted and frees the two backlogs meant for the stack. |
| FdoContexts.FdoContext.LoseOwner | winvhci/user.c:824-828 | Close clears Owner and RadioPresent and nothing else. |
| FdoContexts.FdoContext.FreeAllLists | winvhci/user.c:138-155 | All three backlogs are freed, every packet once. |
| FdoContexts.FdoContext.TakeSnapshot | winvhci/user.c:757-769 | The snapshot shows the counters of one moment. |
| Completions.CompleteClientRead | winvhci/user.c:268-281 | The read shows type byte and body in its buffer and the right length, or fails without touching it. |
| Completions.CompleteStackRead | winvhci/fdo.c:153-214 | The read shows DataLen, Type and body in the context's layout, or the failure the room calls for. |
| Callbacks.QueuesStaySorted | winvhci/fdo.c:584-601 | In every run each queue holds reads of its own side only. |
| Callbacks.EvtIoRead | winvhci/user.c:284-341 | The whole callback on the heap does what its thread does when it runs to its end: region, completion, freeing. |
| Callbacks.BthxReadHci | winvhci/fdo.c:533-660 | Likewise for READ_HCI, refusals included. |
| Callbacks.BthxWriteHci | winvhci/fdo.c:483-531 | Likewise for WRITE_HCI, completing first the client's read, then itself. |
| Callbacks.SendToStack | winvhci/fdo.c:216-319 | WinVhciDeliverToStack whole: the region, then the read's completion, whose status is the write's. |
| Callbacks.CreateTheRadio | winvhci/user.c:471-510 | The control packet whole: refusal, undone AddRadio, or the reply FF FF opcode id. |
| Callbacks.DispatchWrite | winvhci/user.c:513-680 | Likewise for a client's write: refusals, control packet, admission and delivery. |
| Callbacks.EvtFileClose | winvhci/user.c:807-864 | The whole close on the heap: every parked stack read cancelled, every backlog freed, the queues started again. |
| Callbacks.SelfManagedIoCleanup | winvhci/fdo.c:799-833 | Likewise for the cleanup on the way out. |
| H4.EncodeIsFramed | tools/vhci-io.ps1:373-405 | For all five packet types, an encoded packet is found whole whatever follows it. |
| H4.PrefixNeedsMore | tools/vhci-io.ps1:376-404 | On every proper prefix of one the answer is 0. |
| H4.DecodeInvertsEncode | tools/vhci-io.ps1:373-405 | Decoding a framed packet gives it back. |
| H4.EncodeInvertsDecode | tools/vhci-io.ps1:373-405 | Only encodings of well-sized packets are whole frames. |
| H4.FramingIsStable | tools/vhci-io.ps1:373-405 | Once there is an answer, more bytes do not change it. |
| H4.OnlyUnknownTypesAreErrors | tools/vhci-io.ps1:398-400 | The answer is an error exactly if the first byte is none of the five types, and names that byte. |
| H4.AskingIsBeginning | tools/vhci-io.ps1:376-404 | Bytes that ask for more are the beginning of some packet. |
| H4.EventsAreAccepted | winvhci/user.c:573-584 | Every event frame passes the driver's size check, as the bytes after its type. |
| H4.AclIsAcceptedUpToLimit | winvhci/user.c:573-584 | An ACL frame passes exactly when it carries at most 1017 bytes of data. |
| H4.OthersAreRefused | winvhci/user.c:645-671 | Command, SCO and ISO frames are refused, the latter two as not supported when not over-long. |
| Reassembly.ParseConserves | tools/vhcibridge.ps1:154-214 | The frames and the rest are the stream. |
| Reassembly.FramesAreWhole | tools/vhcibridge.ps1:184-187 | Every frame is one whole packet of at most 1026 bytes. |
| Reassembly.PendingRestIsShort | tools/vhcibridge.ps1:168-177 | Without an error, what is left fits the accumulator with room to spare. |
| Reassembly.ParseContinues | tools/vhcibridge.ps1:154-214 | Parsing what came, then what was left with what came next, is parsing it all. |
| Reassembly.FailureIsFinal | tools/vhcibridge.ps1:168-187 | Once the stream has failed, more bytes change neither the frames before the offending one nor the offence. |
| Reassembly.WellFormedStreams | tools/vhcibridge.ps1:131-152 | Packets of at most 1026 bytes sent one after another and cut off anywhere: exactly the whole ones are found, in order. |
| Reassembly.WellFormedMoments | tools/vhcibridge.ps1:171-177 | At every moment of such a stream fewer than 1026 bytes wait, so neither overflow nor any other error is reachable, and the frames found are the packets sent first. |
| Reassembly.ReadingIsParse | tools/vhcibridge.ps1:166-187 | Whole packets of at most 1026 bytes followed by a reason to end are handed over and end so: part of a packet waits, a byte that is no type is thrown at once, a whole packet of up to 8192 bytes as too big, 8192 bytes of a longer one as no frame. |
| Reassembly.ParseIsReading | tools/vhcibridge.ps1:166-187 | Every byte stream can be read so, and nothing else is handed over. |
| Bridges.WellFormedIsServed | tools/vhcibridge.ps1:154-214 | A bridge served such a stream, cut up anyhow, never throws: it has handed over exactly the whole packets, or the first of them up to a fatal write. |
| Bridges.ReadingIsServed | tools/vhcibridge.ps1:166-214 | Unless a write was fatal the bridge has handed over the packets its stream reads as, and throws exactly what ends the reading. |
| Bridges.Bridge.WellFormedIsCalm | tools/vhcibridge.ps1:171-177 | Whenever what has come of such a stream has been drained, the bridge's accumulator holds less than one packet, what it handed over are the packets sent first, and every byte received is in one or the other. |
| Bridges.Bridge.ReadAvailable | tools/vhcibridge.ps1:157-164 | The capped read loop appends what arrives, loses nothing, and ends. |
| Bridges.Bridge.Drain | tools/vhcibridge.ps1:166-213 | The drain loop hands over exactly the frames of what is held, keeps the rest at the front, and stops at the first offence or fatal write. |
| Bridges.Bridge.Pump | tools/vhcibridge.ps1:154-214 | The do-while loop ends with everything received parsed: frames handed over, rest held, or the stream's own error. |
| Bridges.Bridge.Serve | tools/vhcibridge.ps1:83-214 | What reaches the device and how it ends depend only on the controller's bytes, not on how they were cut up; a fatal write leaves a prefix of the frames, and only the last write's answer was fatal. |
| BridgeToDriver.DeliverableExactly | winvhci/user.c:555-671 | Of whole frames of at most 1026 bytes the driver sends on exactly the events and the ACL packets with at most 1017 bytes of data, and refuses the others for what they are. |
| BridgeToDriver.WritesAreInHand | winvhci/user.c:513-680 | In every run whose stack posts roomy reads and whose memory lasts, however interleaved, a write of a deliverable frame ends in success or, unless the radio stayed up, DEVICE_NOT_READY, and a write of any other in neither. |
| BridgeToDriver.EndsAtFirstRefusal | tools/vhcibridge.ps1:189-208 | Bridge and driver together, in such a run: the bridge ends on a fatal write if and only if the stream has a frame that is not deliverable, having handed over the frames up to the first such; with the radio up every frame before it was accepted. |
| BridgeToDriver.StatusReachesThePump | tools/vhcibridge.ps1:192-208 | In every run of VhciIo's a write the driver ended with a status ends for the pump as it should: it goes on after success, and after an exception exactly for DEVICE_NOT_READY. |
| Bridges.ArrayCopy | tools/vhcibridge.ps1:211 | Moving the rest to the front of the same array is safe in place. |
| ClientIo.HeldUntilCollected | tools/vhci-io.ps1:104-159 | While the kernel has the request the buffer stays pinned, or a write's OVERLAPPED allocated, and a call that has ended has left it nothing - throughout a run if and only if no collect in it failed with the request still in flight. |
| ClientIo.GivingUpLosesThePacket | tools/vhci-io.ps1:145-160 | A call whose collect fails so returns no packet, and the packet its read is completed with afterwards is in no outcome, whether or not it lands in the old buffer. |
| ClientIo.GivingUpHappens | tools/vhci-io.ps1:145-160 | A run in which wait and collect both fail: the request stays in flight, its buffer let go, and whatever packet comes is lost. |
| ClientIo.LeftExactlyByGivingUp | tools/vhci-io.ps1:145-160 | A request is left with the kernel after its call has ended right after a collect gave up, and only then. |
| ClientIo.NoPacketIsLost | tools/vhci-io.ps1:136-152 | As long as no wait fails, in the call or in its collect, every packet the kernel completes a read with is returned by that call, whole and in order, also between timeout and cancel. |
| ClientIo.EveryPacketHasItsFate | tools/vhci-io.ps1:126-158 | In every run the packets the kernel completed reads with are, in order, those got or gone and the one not yet collected: gone if the wait had failed by the collect, or if they came after the call had given up, and the calls return exactly the others. |
| ClientIo.OutcomesAreExact | tools/vhci-io.ps1:112-217 | In every run each call that ends has the outcome, error code included, that its issue, its wait and its request call for, told from the call's own steps; nothing else adds one. |
| ClientIo.CancelledBeforeCollected | tools/vhci-io.ps1:133-146 | A call that timed out, or whose wait failed, collects its request only after asking for it to be cancelled. |
| ClientIo.NothingMeansAborted | tools/vhci-io.ps1:127-157 | A read returns 0 exactly when it was aborted without data, if and only if the abort did not land while it waited. |
| ClientIo.AbortInsideTheWaitThrows | tools/vhci-io.ps1:128-132 | A run in which somebody else's abort ends the wait and the read throws. |
| ClientIo.TimedOutReadReturnsData | tools/vhci-io.ps1:136-152 | A run, for every packet, in which the wait times out and the read returns the packet that came before the cancel. |
| ClientIo.DriverReadsCarryData | winvhci/user.c:275-281 | A read the driver completes successfully carries at least the type byte, as the client's loop assumes. |
| ClientIo.CallsEnd | tools/vhci-io.ps1:173-205 | Each of a call's steps brings it nearer its end; only the kernel keeping a cancelled request can hold it up. |
| PyDevice.ReadsEndQuietly | python/winvhci/device.py:612-645 | Once pended, with no reopen and no fault of its own, a read ends with the kernel's packet, or with b'' because of a close or an abort; it never raises. |
| PyDevice.RaisesExactly | python/winvhci/device.py:612-645 | In every ordering the read raises if and only if some step of it judged a failed, non-aborted call while _closing was clear. |
| PyDevice.ReopenRaisesExactly | python/winvhci/device.py:520-527 | With no fault of its own the read raises if and only if it judged a failed, non-aborted call when, of the closes and opens begun so far, the last was an open. Closes and opens may come any number of times and overlap. |
| PyDevice.ReopenedLastExactly | python/winvhci/device.py:563-564 | That is told by the device from an open having happened and _closing being clear. |
| PyDevice.EmptyUnclosedExactly | python/winvhci/device.py:640-643 | A step ends the read with b'' before any close exactly when it judges an abort, which the kernel then reported. |
| PyDevice.AbortReturnsEmptyUnclosed | python/winvhci/device.py:640-643 | A run in which somebody else's abort makes the read return b'' with the device open. |
| PyDevice.AfterCloseNothingRaises | python/winvhci/device.py:615-637 | Once close has set _closing, nothing that happens to the read - a genuine fault included - raises. |
| PyDevice.ReadEndsSoonAfterClose | python/winvhci/device.py:620-632 | From then on the read takes at most five more steps of its own and always has one to take until it has ended. |
| PyDevice.LeavingReadIsReaped | python/winvhci/device.py:622-627 | A read that looks while _closing is set cancels its request, waits for it and collects it, in that order, before it returns b''; a reopen after the look does not stop it. |
| PyDevice.ReopenMakesACloseRaise | python/winvhci/device.py:524-527 | open clears _closing: a run in which a read outstanding over a reopen raises. |
| PyDevice.SecondCloseQuietsIt | python/winvhci/device.py:563-564 | A run in which the reopened device is closed again before the failure is judged: the read returns b''. |
| PyDevice.FailedOpenMakesACloseRaise | python/winvhci/device.py:520-542 | A run in which an open tried during the close, and refused by the exclusive device, has cleared _closing all the same: the read raises. |

## Left out

- KMDF and PnP internals, PDO construction, the INF, IRP pointer retrieval, `METHOD_NEITHER` probing, IRQL and paging rules: framework behaviour. `WinVhciRemoveRadios` appears only through the PnP steps it may cause, which are free to happen anyway.
- GET_VERSION, SET_VERSION, QUERY_CAPABILITIES, the registry knob, `KdPrint`, the size checks of IOCTL_WINVHCI_GET_STATS: single-branch or I/O.
- The counters PdoRequestCount, IoctlCount, WriteHciCount, PendedEventReads and PendedDataReads: nothing is decided from them.
- Failures of WdfRequestRetrieveInputBuffer and WdfRequestRetrieveOutputBuffer other than for size, which the framework rules out for the requests these callbacks get.
- The heap callbacks are proved one at a time, nothing coming between a callback's regions; interleavings are the step system's subject, over the same regions. Packet bytes in the pool are written at allocation and are a constant sequence there.
- FdoContexts.FdoContext.RadioReported: the set of reported ids is PnP's, kept beside the context so that a PDO is created only for an id that was reported.
- Waiting for the lock: a region is one step, whoever takes it.
- After cleanup the framework's queues stay purged; the model lets a later open happen all the same.
- python/winvhci/bumble_compat.py, python/winvhci/transport.py and tools/bumble-controller.py depend on Bumble classes that are not part of this model.
- A further `VhciIo` call on the shared `OVERLAPPED` while the kernel still has a request that an earlier call gave up collecting.
- A further read on a reopened `VhciDevice` while one of the old handle is still outstanding, which shares its OVERLAPPED, and a handle value that Windows uses again.
- The lifetime of Python's buffer after the bounded reap and on the write timeout path: the code makes a timed best effort there. A close before ReadFile has pended is not covered either.
- The bridge's other direction, its inactivity gap, its statistics output and `vhcictl.ps1`: straight-line I/O.
- ctypes bindings, the ACL, toggle, GATT and scan scripts, timing constants.
