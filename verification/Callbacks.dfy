/** The driver's callbacks whole: region, completions and freeing in the order the
    code has them. Each, left to itself, does to the context and to the requests
    exactly what its thread of the step system does when it runs to its end. */
module Callbacks {
  import opened Hci
  import opened Rendezvous
  import opened Channels
  import opened Fdo
  import opened Driver
  import opened RunAlone
  import opened PacketLists
  import opened Framework
  import opened ChannelFieldsOnHeap
  import opened FdoContexts
  import Completions
  import Sizes

  /** The client's reads wait on the client's queue, the stack's on the other two. */
  ghost predicate QueuesSorted(s: State) {
    && (forall i :: 0 <= i < |s.user.parked| ==> s.user.parked[i].origin.FromClient?)
    && (forall i :: 0 <= i < |s.events.parked| ==> s.events.parked[i].origin.FromStack?)
    && (forall i :: 0 <= i < |s.data.parked| ==> s.data.parked[i].origin.FromStack?)
  }

  /** What the callbacks below ask of the context holds in every run. */
  lemma {:induction false} QueuesStaySorted(knob: ULong, labels: seq<Label>)
    requires Run(knob, labels).Some?
    ensures QueuesSorted(Run(knob, labels).value.fdo)
  {
    Sizes.RunsFit(knob, labels, false);
  }

  /** The requests show what was completed, in order. */
  ghost predicate Show(rs: seq<WdfRequest>, done: seq<Done>)
    reads rs, set q | q in rs :: q.Output
  {
    |rs| == |done| && forall i :: 0 <= i < |rs| ==> Completions.Shows(rs[i], done[i])
  }

  // ---------------------------------------------------------------------------
  // Reads
  // ---------------------------------------------------------------------------

  /** What follows a read's region: complete it with the packet it took and free the
      packet, or fail it if it could not be parked. */
  method EndRead(ctx: FdoContext, r: WdfRequest, p: PoolPacket?, parked: bool, failure: Failure,
                 ghost posted: Posted)
    returns (ghost completed: seq<WdfRequest>)
    requires ctx.Valid() && ctx.Abs() == posted.state && posted.result == PostAnswer(p, parked)
    requires p != null ==> p !in ctx.Owned() && !parked
    requires !parked ==> r !in ctx.Owned() && !r.Completed
    modifies ctx`history, r, r.Output
    ensures ctx.Valid() && ctx.Owned() == old(ctx.Owned())
    ensures var m := PostedEnd(r.View(), posted, failure);
            ctx.Abs() == m.fdo && Show(completed, m.done)
  {
    hide FdoContext.Valid;
    ctx.OwnsNoBuffer(r.Output);
    completed := [];
    if p == null {
      if !parked {
        r.Complete(failure, 0);
        completed := [r];
      }
    } else {
      if r.From.FromClient? {
        Completions.CompleteClientRead(r, p.Kind, p.Data);
      } else {
        var _ := Completions.CompleteStackRead(r, p.Kind, p.Data);
      }
      ctx.FreePacket(p);
      completed := [r];
    }
  }

  /** WinVhciEvtIoRead. */
  method EvtIoRead(ctx: FdoContext, r: WdfRequest, willing: bool, failure: Failure)
    returns (ghost completed: seq<WdfRequest>)
    requires ctx.Valid() && r !in ctx.Owned() && !r.Completed
    modifies ctx, ctx.Owned(), r, r.Output
    ensures ctx.Valid() && fresh(ctx.Owned() - old(ctx.Owned()) - {r})
    ensures var m := RunOn(old(ctx.Abs()), ClientRead(r.View()), Answer(false, willing, false, failure));
            ctx.Abs() == m.fdo && Show(completed, m.done)
  {
    hide RunOn, FdoContext.Valid, PostClientRead, PostedEnd;
    ghost var before, a := ctx.Abs(), Answer(false, willing, false, failure);
    if r.Output.Length < MAX_H4_PACKET {
      ShortReadRuns(before, r.View(), a);
      r.Complete(BufferTooSmall, 0);
      completed := [r];
    } else {
      RoomyReadRuns(before, r.View(), a);
      var p, parked := ctx.TakeOrParkForClient(r, willing);
      completed := EndRead(ctx, r, p, parked, failure, PostClientRead(before, r.View(), willing));
    }
  }

  /** The checks READ_HCI makes of its two buffers, and the queue it picks. */
  method CheckStackRead(posted: StackReadInput) returns (action: StackReadAction)
    ensures action == ClassifyStackRead(posted)
  {
    if posted.requested.None? || posted.room.None? || posted.room.value < CONTEXT_HEADER_SIZE {
      return RefuseRead(InvalidParameter);
    }
    if !posted.adjacent {
      return RefuseRead(InvalidDeviceRequest);
    }
    var capacity := posted.room.value - CONTEXT_HEADER_SIZE;
    var acl := capacity >= MAX_ACL_TRANSFER_IN;
    if posted.requested.value == H4_EVENT {
      acl := false;
    } else if posted.requested.value == H4_ACL {
      acl := true;
    }
    action := Route(acl);
  }

  /** IOCTL_BTHX_READ_HCI. */
  method BthxReadHci(ctx: FdoContext, r: WdfRequest, posted: StackReadInput, willing: bool, failure: Failure)
    returns (ghost completed: seq<WdfRequest>)
    requires ctx.Valid() && r !in ctx.Owned() && !r.Completed
    modifies ctx, ctx.Owned(), r, r.Output
    ensures ctx.Valid() && fresh(ctx.Owned() - old(ctx.Owned()) - {r})
    ensures var m := RunOn(old(ctx.Abs()), StackRead(r.View(), posted), Answer(false, willing, false, failure));
            ctx.Abs() == m.fdo && Show(completed, m.done)
  {
    hide RunOn, FdoContext.Valid, PostStackRead, ClassifyStackRead, PostedEnd;
    ghost var before, a := ctx.Abs(), Answer(false, willing, false, failure);
    var action := CheckStackRead(posted);
    match action
    case RefuseRead(status) =>
      RefusedReadRuns(before, r.View(), posted, status, a);
      r.Complete(status, 0);
      completed := [r];
    case Route(acl) =>
      RoutedReadRuns(before, r.View(), posted, acl, a);
      var p, parked := ctx.TakeOrParkForStack(acl, r, willing);
      completed := EndRead(ctx, r, p, parked, failure, PostStackRead(before, acl, r.View(), willing));
  }

  // ---------------------------------------------------------------------------
  // Stack -> client
  // ---------------------------------------------------------------------------

  /** WinVhciQueueToUser. */
  method SendToClient(ctx: FdoContext, kind: Byte, body: array<Byte>, from: nat, length: nat, poolOk: bool)
    returns (ghost completed: seq<WdfRequest>)
    requires ctx.Valid() && QueuesSorted(ctx.Abs()) && from + length <= body.Length
    requires body !in ctx.user.Buffers()
    modifies ctx, ctx.Owned(), ctx.user.Buffers()
    ensures ctx.Valid() && fresh(ctx.Owned() - old(ctx.Owned()))
    ensures body[..] == old(body[..])
    ensures forall q :: q in completed ==> q in old(ctx.Owned())
    ensures var p := Packet(kind, old(body[from..from + length]));
            var h := QueueToUser(old(ctx.Abs()), p, poolOk);
            && ctx.Abs() == h.state
            && Show(completed, if h.taken.Some? then [CompleteRead(h.taken.value, p)] else [])
  {
    hide FdoContext.Valid;
    ctx.OwnsNoBuffer(body);
    var read := ctx.QueueToUserLocked(kind, body, from, length, poolOk);
    completed := [];
    if read != null {
      ctx.OwnsNoBuffer(read.Output);
      Completions.CompleteClientRead(read, kind, body[from..from + length]);
      completed := [read];
    }
  }

  /** Sends a packet to the client, then completes the request that brought it. */
  method SendThenFinish(ctx: FdoContext, r: WdfRequest, info: nat, kind: Byte, body: array<Byte>, from: nat,
                        length: nat, poolOk: bool)
    returns (ghost completed: seq<WdfRequest>)
    requires ctx.Valid() && QueuesSorted(ctx.Abs()) && from + length <= body.Length
    requires body !in ctx.user.Buffers() && r !in ctx.Owned() && !r.Completed
    modifies ctx, ctx.Owned(), ctx.user.Buffers(), r
    ensures ctx.Valid() && fresh(ctx.Owned() - old(ctx.Owned()))
    ensures var p := Packet(kind, old(body[from..from + length]));
            var m := QueueingEnd(r.View(), p, info, QueueToUser(old(ctx.Abs()), p, poolOk));
            ctx.Abs() == m.fdo && Show(completed, m.done)
  {
    hide FdoContext.Valid, QueueToUser;
    completed := SendToClient(ctx, kind, body, from, length, poolOk);
    r.Complete(Success, info);
    completed := completed + [r];
  }

  /** What an input buffer holds; it is null when it is missing. */
  ghost function Bytes(input: array?<Byte>): Option<seq<Byte>>
    reads input
  {
    if input == null then None else Some(input[..])
  }

  /** Whether the header and DataLen of a WRITE_HCI stand up. */
  method CheckStackWrite(input: array?<Byte>) returns (ok: bool, dataLen: nat)
    ensures ok ==> input != null && CONTEXT_HEADER_SIZE + dataLen <= input.Length
    ensures ok ==> ClassifyStackWrite(Bytes(input))
                   == Accept(Packet(input[4], input[CONTEXT_HEADER_SIZE..CONTEXT_HEADER_SIZE + dataLen]))
    ensures !ok ==> ClassifyStackWrite(Bytes(input)) == RefuseWrite(InvalidParameter)
  {
    if input == null || input.Length < CONTEXT_HEADER_SIZE {
      return false, 0;
    }
    dataLen := input[0] as int + 0x100 * (input[1] as int) + 0x1_0000 * (input[2] as int)
               + 0x100_0000 * (input[3] as int);
    ok := dataLen <= input.Length - CONTEXT_HEADER_SIZE && dataLen <= MAX_BODY;
  }

  /** IOCTL_BTHX_WRITE_HCI. */
  method BthxWriteHci(ctx: FdoContext, r: WdfRequest, input: array?<Byte>, poolOk: bool)
    returns (ghost completed: seq<WdfRequest>)
    requires ctx.Valid() && QueuesSorted(ctx.Abs()) && r !in ctx.Owned() && !r.Completed
    requires input != null ==> input !in ctx.user.Buffers()
    modifies ctx, ctx.Owned(), ctx.user.Buffers(), r
    ensures ctx.Valid() && fresh(ctx.Owned() - old(ctx.Owned()))
    ensures var m := RunOn(old(ctx.Abs()), StackWrite(r.View(), old(Bytes(input))),
                           Answer(poolOk, false, false, Failed(0)));
            ctx.Abs() == m.fdo && Show(completed, m.done)
  {
    hide RunOn, FdoContext.Valid, QueueToUser, QueueingEnd, ClassifyStackWrite, Bytes;
    ghost var before, a := ctx.Abs(), Answer(poolOk, false, false, Failed(0));
    var ok, dataLen := CheckStackWrite(input);
    if ok {
      ghost var p := Packet(input[4], input[CONTEXT_HEADER_SIZE..CONTEXT_HEADER_SIZE + dataLen]);
      AcceptedRuns(before, r.View(), Bytes(input), p, a);
      completed := SendThenFinish(ctx, r, dataLen, input[4], input, CONTEXT_HEADER_SIZE, dataLen, poolOk);
    } else {
      RefusedRuns(before, r.View(), Bytes(input), InvalidParameter, a);
      r.Complete(InvalidParameter, 0);
      completed := [r];
    }
  }

  // ---------------------------------------------------------------------------
  // Client -> stack
  // ---------------------------------------------------------------------------

  /** WinVhciDeliverToStack. */
  method SendToStack(ctx: FdoContext, kind: Byte, input: array<Byte>, poolOk: bool)
    returns (status: Status, ghost completed: seq<WdfRequest>)
    requires ctx.Valid() && QueuesSorted(ctx.Abs()) && 1 <= input.Length
    requires input !in ctx.StackFields(kind == H4_ACL).Buffers()
    modifies ctx, ctx.Owned(), ctx.StackFields(kind == H4_ACL).Buffers()
    ensures ctx.Valid() && fresh(ctx.Owned() - old(ctx.Owned()))
    ensures forall q :: q in completed ==> q in old(ctx.Owned())
    ensures var p := Packet(kind, old(input[1..]));
            var d := DeliverToStack(old(ctx.Abs()), p, poolOk);
            && ctx.Abs() == d.state
            && if d.result.HandTo?
               then status == CompleteRead(d.result.r, p).status && Show(completed, [CompleteRead(d.result.r, p)])
               else status == d.result.status && completed == []
  {
    hide FdoContext.Valid;
    ctx.OwnsNoBuffer(input);
    assert input[1..1 + (input.Length - 1)] == input[1..];
    var read: WdfRequest?;
    read, status := ctx.DeliverToStackLocked(kind, input, 1, input.Length - 1, poolOk);
    completed := [];
    if read != null {
      ctx.OwnsNoBuffer(read.Output);
      status := Completions.CompleteStackRead(read, kind, input[1..]);
      completed := [read];
    }
  }

  /** Delivers a packet, then completes the write that brought it. */
  method SendToStackThenFinish(ctx: FdoContext, r: WdfRequest, kind: Byte, input: array<Byte>, poolOk: bool)
    returns (ghost completed: seq<WdfRequest>)
    requires ctx.Valid() && QueuesSorted(ctx.Abs()) && 1 <= input.Length
    requires r !in ctx.Owned() && !r.Completed && input !in ctx.StackFields(kind == H4_ACL).Buffers()
    modifies ctx, ctx.Owned(), ctx.StackFields(kind == H4_ACL).Buffers(), r
    ensures ctx.Valid() && fresh(ctx.Owned() - old(ctx.Owned()))
    ensures var p := Packet(kind, old(input[1..]));
            var m := DeliveryEnd(r.View(), p, DeliverToStack(old(ctx.Abs()), p, poolOk));
            ctx.Abs() == m.fdo && Show(completed, m.done)
  {
    hide FdoContext.Valid, DeliverToStack, CompleteRead;
    var status;
    status, completed := SendToStack(ctx, kind, input, poolOk);
    r.Complete(status, if status.Success? then input.Length else 0);
    completed := completed + [r];
  }

  /** The admission check and what follows it in WinVhciDispatchWrite. */
  method AdmitThenSend(ctx: FdoContext, r: WdfRequest, kind: Byte, input: array<Byte>, a: Answer)
    returns (ghost completed: seq<WdfRequest>)
    requires ctx.Valid() && QueuesSorted(ctx.Abs()) && 1 <= input.Length
    requires r !in ctx.Owned() && !r.Completed && input !in ctx.StackFields(kind == H4_ACL).Buffers()
    modifies ctx, ctx.Owned(), ctx.StackFields(kind == H4_ACL).Buffers(), r
    ensures ctx.Valid() && fresh(ctx.Owned() - old(ctx.Owned()))
    ensures var m := SendEnd(old(ctx.Abs()), r.View(), Packet(kind, old(input[1..])), a);
            ctx.Abs() == m.fdo && Show(completed, m.done)
  {
    hide FdoContext.Valid, DeliverToStack, DeliveryEnd;
    var ready := ctx.AdmitWrite();
    if ready {
      completed := SendToStackThenFinish(ctx, r, kind, input, a.poolOk);
    } else {
      r.Complete(DeviceNotReady, 0);
      completed := [r];
    }
  }

  /** The control packet's reply, which goes back as a readable packet. */
  method SendReply(ctx: FdoContext, r: WdfRequest, opcode: Byte, id: ULong, poolOk: bool)
    returns (ghost completed: seq<WdfRequest>)
    requires ctx.Valid() && QueuesSorted(ctx.Abs()) && r !in ctx.Owned() && !r.Completed
    modifies ctx, ctx.Owned(), ctx.user.Buffers(), r
    ensures ctx.Valid() && fresh(ctx.Owned() - old(ctx.Owned()))
    ensures var p := ControlReplyPacket(opcode, id);
            var m := QueueingEnd(r.View(), p, 2, QueueToUser(old(ctx.Abs()), p, poolOk));
            ctx.Abs() == m.fdo && Show(completed, m.done)
  {
    hide FdoContext.Valid, QueueToUser, QueueingEnd;
    var reply := new Byte[5] [H4_VENDOR, H4_VENDOR, opcode, id % 0x100, id / 0x100 % 0x100];
    assert reply[1..1 + 4] == ControlReplyPacket(opcode, id).body;
    completed := SendThenFinish(ctx, r, 2, reply[0], reply, 1, 4, poolOk);
  }

  /** What follows the fresh id in WinVhciHandleControl: AddRadio, whose answer the
      environment gives, and the reply or the undoing. */
  method AddTheRadio(ctx: FdoContext, r: WdfRequest, opcode: Byte, id: ULong, a: Answer)
    returns (ghost completed: seq<WdfRequest>)
    requires ctx.Valid() && QueuesSorted(ctx.Abs()) && r !in ctx.Owned() && !r.Completed
    modifies ctx, ctx.Owned(), ctx.user.Buffers(), r
    ensures ctx.Valid() && fresh(ctx.Owned() - old(ctx.Owned()))
    ensures var m := RadioEnd(old(ctx.Abs()), r.View(), opcode, id, a);
            ctx.Abs() == m.fdo && Show(completed, m.done)
  {
    hide FdoContext.Valid, QueueToUser, QueueingEnd;
    if a.addOk {
      ctx.RadioReported(id);
      completed := SendReply(ctx, r, opcode, id, a.poolOk);
    } else {
      ctx.UndoRadio();
      r.Complete(a.failure, 0);
      completed := [r];
    }
  }

  /** WinVhciHandleControl past its argument checks, and the completion of the write. */
  method CreateTheRadio(ctx: FdoContext, r: WdfRequest, opcode: Byte, a: Answer)
    returns (ghost completed: seq<WdfRequest>)
    requires ctx.Valid() && QueuesSorted(ctx.Abs()) && r !in ctx.Owned() && !r.Completed
    modifies ctx, ctx.Owned(), ctx.user.Buffers(), r
    ensures ctx.Valid() && fresh(ctx.Owned() - old(ctx.Owned()))
    ensures var m := ControlEnd(old(ctx.Abs()), r.View(), opcode, a);
            ctx.Abs() == m.fdo && Show(completed, m.done)
  {
    hide FdoContext.Valid, RadioEnd, MakeRadioCurrent;
    var id := ctx.TakeRadioId();
    if id.None? {
      r.Complete(InvalidDeviceState, 0);
      completed := [r];
    } else {
      completed := AddTheRadio(ctx, r, opcode, id.value, a);
    }
  }

  /** The argument checks of WinVhciHandleControl. */
  method CheckControl(input: array<Byte>) returns (action: WriteAction)
    requires input.Length >= 2
    ensures action == ClassifyControl(input[1..])
  {
    if input.Length != 2 {
      return Refuse(InvalidParameter);
    }
    var opcode := input[1];
    if opcode / 4 % 16 != 0 {
      return Refuse(InvalidParameter);
    }
    if opcode / 64 != 0 {
      return Refuse(NotSupported);
    }
    action := CreateRadio(opcode);
  }

  /** The length check, the switch on the type and the size check of
      WinVhciDispatchWrite. */
  method CheckWrite(input: array<Byte>) returns (action: WriteAction)
    ensures action == ClassifyWrite(input[..])
  {
    if input.Length < 2 || input.Length > MAX_H4_PACKET {
      return Refuse(InvalidParameter);
    }
    var kind := input[0];
    assert input[..][1..] == input[1..];
    if kind == H4_VENDOR {
      action := CheckControl(input);
    } else if kind == H4_EVENT || kind == H4_ACL {
      var limit := if kind == H4_ACL then MAX_ACL_TRANSFER_IN else MAX_EVENT_SIZE;
      action := if input.Length - 1 > limit then Refuse(InvalidParameter) else Send(Packet(kind, input[1..]));
    } else if kind == H4_SCO || kind == H4_ISO {
      action := Refuse(NotSupported);
    } else {
      action := Refuse(InvalidParameter);
    }
  }

  /** WinVhciDispatchWrite. */
  method DispatchWrite(ctx: FdoContext, r: WdfRequest, input: array<Byte>, a: Answer)
    returns (ghost completed: seq<WdfRequest>)
    requires ctx.Valid() && QueuesSorted(ctx.Abs()) && r !in ctx.Owned() && !r.Completed
    requires input !in ctx.user.Buffers() + ctx.events.Buffers() + ctx.data.Buffers()
    modifies ctx, ctx.Owned(), ctx.user.Buffers(), ctx.events.Buffers(), ctx.data.Buffers(), r
    ensures ctx.Valid() && fresh(ctx.Owned() - old(ctx.Owned()))
    ensures var m := RunOn(old(ctx.Abs()), ClientWrite(r.View(), old(input[..])), a);
            ctx.Abs() == m.fdo && Show(completed, m.done)
  {
    hide RunOn, FdoContext.Valid, ControlEnd, SendEnd, ClassifyWrite;
    ghost var before, bytes := ctx.Abs(), input[..];
    var action := CheckWrite(input);
    match action
    case Refuse(status) =>
      RefusedWriteRuns(before, r.View(), bytes, status, a);
      r.Complete(status, 0);
      completed := [r];
    case CreateRadio(opcode) =>
      ControlWriteRuns(before, r.View(), bytes, opcode, a);
      completed := CreateTheRadio(ctx, r, opcode, a);
    case Send(p) =>
      PacketWriteRuns(before, r.View(), bytes, p, a);
      assert bytes[1..] == input[1..];
      completed := AdmitThenSend(ctx, r, p.kind, input, a);
  }

  // ---------------------------------------------------------------------------
  // Close and cleanup
  // ---------------------------------------------------------------------------

  lemma CancelledShow(rs: seq<WdfRequest>)
    requires AllCancelled(rs)
    ensures Show(rs, Purged(Views(rs)))
  {
  }

  /** Both stack queues purged: every read on them leaves the context, cancelled. */
  method PurgeBothQueues(ctx: FdoContext) returns (ghost cancelled: seq<WdfRequest>)
    requires ctx.Valid()
    modifies ctx, ctx.Owned()
    ensures ctx.Valid() && ctx.Owned() <= old(ctx.Owned())
    ensures var s := old(ctx.Abs());
            && ctx.Abs() == s.(events := PurgeQueue(s.events), data := PurgeQueue(s.data))
            && Views(cancelled) == s.events.parked + s.data.parked
    ensures AllCancelled(cancelled) && forall r :: r in cancelled ==> r !in ctx.Owned()
  {
    hide FdoContext.Valid, PurgeQueue;
    var fromEvents := ctx.PurgeStackQueue(false);
    var fromData := ctx.PurgeStackQueue(true);
    cancelled := fromEvents + fromData;
  }

  method StartBothQueues(ctx: FdoContext)
    requires ctx.Valid()
    modifies ctx, ctx.Owned()
    ensures ctx.Valid() && ctx.Owned() == old(ctx.Owned())
    ensures var s := old(ctx.Abs());
            ctx.Abs() == s.(events := StartQueue(s.events), data := StartQueue(s.data))
  {
    hide FdoContext.Valid, StartQueue;
    ctx.StartStackQueue(false);
    ctx.StartStackQueue(true);
  }

  lemma PurgedConcat(a: seq<Request>, b: seq<Request>)
    ensures Purged(a + b) == Purged(a) + Purged(b)
  {
  }

  /** WinVhciEvtFileClose; WinVhciRemoveRadios is PnP's business. */
  method EvtFileClose(ctx: FdoContext) returns (hadRadio: bool, ghost completed: seq<WdfRequest>)
    requires ctx.Valid()
    modifies ctx, ctx.Owned()
    ensures ctx.Valid() && ctx.Owned() <= old(ctx.Owned())
    ensures ctx.Abs() == ClosedAlone(old(ctx.Abs())) && hadRadio == old(ctx.RadioPresent)
    ensures Show(completed, Purged(old(ctx.events.Model.parked)) + Purged(old(ctx.data.Model.parked)))
  {
    hide FdoContext.Valid, Purged, PurgeQueue, StartQueue, PurgeBacklogs, Show;
    PurgedConcat(ctx.events.Model.parked, ctx.data.Model.parked);
    hadRadio := ctx.LoseOwner();
    completed := PurgeBothQueues(ctx);
    StartBothQueues(ctx);
    ctx.FreeAllLists();
    CancelledShow(completed);
  }

  /** WinVhciEvtSelfManagedIoCleanup. */
  method SelfManagedIoCleanup(ctx: FdoContext, ghost a: Answer) returns (ghost completed: seq<WdfRequest>)
    requires ctx.Valid()
    modifies ctx, ctx.Owned()
    ensures ctx.Valid() && ctx.Owned() <= old(ctx.Owned())
    ensures var m := RunOn(old(ctx.Abs()), CleanupEvents, a);
            ctx.Abs() == m.fdo && Show(completed, m.done)
  {
    CleanupRuns(ctx.Abs(), a);
    hide RunOn, FdoContext.Valid, Purged, PurgeQueue, PurgeBacklogs, Show;
    PurgedConcat(ctx.events.Model.parked, ctx.data.Model.parked);
    completed := PurgeBothQueues(ctx);
    ctx.FreeAllLists();
    CancelledShow(completed);
  }
}
