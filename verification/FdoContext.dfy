/** The FDO context as the driver keeps it: fields updated in place under one lock,
    packets on linked lists. One method per locked region, each proved to be the
    region function of module Fdo that the step system interleaves. */
module FdoContexts {
  import opened Hci
  import opened Rendezvous
  import opened Channels
  import opened Fdo
  import opened PacketLists
  import opened Framework
  import opened ChannelFieldsOnHeap

  class FdoContext {
    const user: ChannelFields      // HostToCtrlList, its count and peak, UserReadQueue
    const events: ChannelFields    // PendingEventList and so on, ReadEventQueue
    const data: ChannelFields      // PendingDataList and so on, ReadDataQueue
    var Owner: Option<nat>
    var RadioPresent: bool
    var RadioStarted: bool
    var CurrentRadioId: ULong
    var NextRadioId: ULong
    var Reported: set<ULong>
    var DropsNoClient: ULong
    var DropsAllocFailed: ULong
    var WritesTotal: ULong
    var QueuedToUserTotal: ULong
    var WritesNoRadio: ULong
    const FailAllocOneIn: ULong
    var AllocSeq: ULong
    ghost var history: History

    ghost predicate Valid()
      reads user, user.Repr, events, events.Repr, data, data.Repr
    {
      && user.Valid() && events.Valid() && data.Valid()
      && user in user.Repr && events in events.Repr && data in data.Repr
      && this !in user.Repr && this !in events.Repr && this !in data.Repr
      && user.Repr !! events.Repr && user.Repr !! data.Repr && events.Repr !! data.Repr
    }

    /** Everything the context owns besides itself. */
    ghost function Owned(): set<object>
      reads user, events, data
    {
      user.Repr + events.Repr + data.Repr
    }

    ghost function Abs(): State
      reads this, user, events, data
    {
      State(user.Model, events.Model, data.Model, Owner, RadioPresent, RadioStarted, CurrentRadioId, NextRadioId,
            Reported, DropsNoClient, DropsAllocFailed, WritesTotal, QueuedToUserTotal, WritesNoRadio,
            FailAllocOneIn, AllocSeq, history)
    }

    lemma OwnsNoBuffer(a: array<Byte>)
      requires Valid()
      ensures a !in Owned()
    {
      user.OwnsNoBuffer(a);
      events.OwnsNoBuffer(a);
      data.OwnsNoBuffer(a);
    }

    constructor (failAllocOneIn: ULong)
      ensures Valid() && fresh(Owned()) && Abs() == Initial(failAllocOneIn)
    {
      hide ChannelFields.Valid;
      user := new ChannelFields();
      events := new ChannelFields();
      data := new ChannelFields();
      Owner, RadioPresent, RadioStarted, CurrentRadioId, NextRadioId := None, false, false, 0, 1;
      Reported := {};
      DropsNoClient, DropsAllocFailed, WritesTotal, QueuedToUserTotal, WritesNoRadio := 0, 0, 0, 0, 0;
      FailAllocOneIn, AllocSeq := failAllocOneIn, 0;
      history := History(0, [], 0, 0, [], [], 0);
    }

    // -------------------------------------------------------------------------
    // Allocation
    // -------------------------------------------------------------------------

    /** WinVhciTestFailAlloc, counted. */
    method TestFailAlloc() returns (fail: bool)
      modifies this`AllocSeq, this`history
      ensures var t := CountAttempt(old(Abs())); AllocSeq == t.allocSeq && history == t.history
      ensures fail == InjectFailure(old(Abs()))
    {
      fail := false;
      if FailAllocOneIn != 0 {
        AllocSeq := Wrap(AllocSeq + 1);
        fail := AllocSeq % FailAllocOneIn == 0;
      }
      history := history.(attempts := history.attempts + 1, injected := history.injected + if fail then 1 else 0);
    }

    /** One try to allocate a packet holding body; null when it fails. */
    method TryAlloc(kind: Byte, body: array<Byte>, from: nat, length: nat, poolOk: bool) returns (p: PoolPacket?)
      requires from + length <= body.Length
      modifies this`AllocSeq, this`history
      ensures p == null <==> AllocFails(old(Abs()), poolOk)
      ensures p != null ==> fresh(p)
      ensures p != null ==> p.View() == Node(old(history).nextSerial, Packet(kind, body[from..from + length]))
      ensures var t := CountAttempt(old(Abs())); Abs() == if p == null then t else CountAllocated(t)
    {
      p := null;
      var fail := TestFailAlloc();
      if !fail && poolOk {
        p := new PoolPacket(kind, body, from, length, history.nextSerial);
        history := history.(nextSerial := history.nextSerial + 1);
      }
    }

    // -------------------------------------------------------------------------
    // Stack -> client
    // -------------------------------------------------------------------------

    /** Puts a new packet at the end of the client's backlog. */
    method AppendForUser(p: PoolPacket)
      requires Valid() && p !in Owned() && p != this as object
      modifies user.Repr, p
      ensures Valid() && Owned() == old(Owned()) + {p}
      ensures user.Model == Append(old(user.Model), p.View())
      ensures events.Model == old(events.Model) && data.Model == old(data.Model)
    {
      hide ChannelFields.Valid;
      user.AppendPacket(p);
    }

    /** The branch of WinVhciQueueToUser in which no read is waiting. */
    method QueueForUser(kind: Byte, body: array<Byte>, from: nat, length: nat, poolOk: bool)
      requires Valid() && from + length <= body.Length && Owner.Some? && WaitingRead(user.Model).None?
      modifies this`AllocSeq, this`history, this`DropsAllocFailed, this`QueuedToUserTotal, user.Repr
      ensures Valid() && fresh(Owned() - old(Owned()))
      ensures events.Model == old(events.Model) && data.Model == old(data.Model)
      ensures var t := QueueToUser(old(Abs()), Packet(kind, old(body[from..from + length])), poolOk).state;
              && user.Model == t.user && AllocSeq == t.allocSeq && history == t.history
              && DropsAllocFailed == t.dropsAllocFailed && QueuedToUserTotal == t.queuedToUserTotal
    {
      hide ChannelFields.Valid;
      var p := TryAlloc(kind, body, from, length, poolOk);
      if p == null {
        DropsAllocFailed := Wrap(DropsAllocFailed + 1);
        history := history.(outcomes := history.outcomes + [ClientAllocFailed]);
      } else {
        AppendForUser(p);
        QueuedToUserTotal := Wrap(QueuedToUserTotal + 1);
        history := history.(outcomes := history.outcomes + [QueuedForClient]);
      }
    }

    /** The branch of WinVhciQueueToUser taken when the client is gone. */
    method DropForWantOfClient()
      requires Owner.None?
      modifies this`DropsNoClient, this`history
      ensures forall p, poolOk :: QueueToUser(old(Abs()), p, poolOk) == Handing(Abs(), None)
    {
      hide ChannelFields.Valid;
      DropsNoClient := Wrap(DropsNoClient + 1);
      history := history.(outcomes := history.outcomes + [NoClient]);
    }

    /** WinVhciQueueToUser, from taking the lock to releasing it. The caller
        completes the read that is returned, if any. */
    method QueueToUserLocked(kind: Byte, body: array<Byte>, from: nat, length: nat, poolOk: bool)
      returns (request: WdfRequest?)
      requires Valid() && from + length <= body.Length
      modifies this, Owned()
      ensures Valid() && fresh(Owned() - old(Owned()))
      ensures QueueToUser(old(Abs()), Packet(kind, old(body[from..from + length])), poolOk)
              == Handing(Abs(), if request == null then None else Some(request.View()))
      ensures request != null ==>
                && request !in Owned() && request in old(Owned())
                && !request.Completed && request.Output in old(user.Buffers())
    {
      hide ChannelFields.Valid;
      OwnsNoBuffer(body);
      request := null;
      if Owner.None? {
        DropForWantOfClient();
      } else {
        request := user.TakeWaitingRead(Packet(kind, body[from..from + length]));
        if request != null {
          history := history.(outcomes := history.outcomes + [ToClient]);
        } else {
          QueueForUser(kind, body, from, length, poolOk);
        }
      }
    }

    /** The locked region of WinVhciEvtIoRead. */
    method TakeOrParkForClient(r: WdfRequest, willing: bool) returns (taken: PoolPacket?, parked: bool)
      requires Valid() && r !in Owned() && !r.Completed
      modifies this, Owned()
      ensures Valid() && fresh(Owned() - old(Owned()) - {r})
      ensures taken != null ==> taken !in Owned() && !parked
      ensures !parked ==> r !in Owned() && !r.Completed
      ensures Abs() == PostClientRead(old(Abs()), r.View(), willing).state
      ensures PostClientRead(old(Abs()), r.View(), willing).result == PostAnswer(taken, parked)
    {
      hide ChannelFields.Valid;
      taken, parked := user.TakeOrPark(r, willing);
    }

    /** ExFreePoolWithTag on a packet that is on no list any more. */
    method FreePacket(p: PoolPacket)
      requires Valid() && p !in Owned()
      modifies this`history
      ensures Valid() && Abs() == Freed(old(Abs()), [p.View()])
    {
      hide ChannelFields.Valid;
      history := history.(freed := history.freed + Serials([p.View()]));
    }

    // -------------------------------------------------------------------------
    // Client -> stack
    // -------------------------------------------------------------------------

    /** The list, count, peak and queue for one direction of the stack's reads. */
    function StackFields(acl: bool): ChannelFields {
      if acl then data else events
    }

    /** WinVhciTakeOrParkForStack. */
    method TakeOrParkForStack(acl: bool, r: WdfRequest, willing: bool) returns (taken: PoolPacket?, parked: bool)
      requires Valid() && r !in Owned() && !r.Completed
      modifies this, Owned()
      ensures Valid() && fresh(Owned() - old(Owned()) - {r})
      ensures taken != null ==> taken !in Owned() && !parked
      ensures !parked ==> r !in Owned() && !r.Completed
      ensures Abs() == PostStackRead(old(Abs()), acl, r.View(), willing).state
      ensures PostStackRead(old(Abs()), acl, r.View(), willing).result == PostAnswer(taken, parked)
    {
      hide ChannelFields.Valid;
      var c := StackFields(acl);
      taken, parked := c.TakeOrPark(r, willing);
    }

    /** The admission check of WinVhciDispatchWrite. */
    method AdmitWrite() returns (ready: bool)
      requires Valid()
      modifies this`WritesNoRadio, this`history
      ensures Valid()
      ensures Abs() == Admit(old(Abs())) && ready == Admitted(old(Abs()))
    {
      hide ChannelFields.Valid;
      ready := RadioPresent && RadioStarted;
      if !ready {
        WritesNoRadio := Wrap(WritesNoRadio + 1);
        history := history.(outcomes := history.outcomes + [NoRadio]);
      }
    }

    /** No memory for a packet of the client's. */
    method LoseForStack()
      modifies this`DropsAllocFailed, this`history
      ensures var t := old(Abs());
              Abs() == Ended(t.(dropsAllocFailed := Wrap(t.dropsAllocFailed + 1)), StackAllocFailed)
    {
      DropsAllocFailed := Wrap(DropsAllocFailed + 1);
      history := history.(outcomes := history.outcomes + [StackAllocFailed]);
    }

    /** A new packet at the end of a backlog of the stack's. */
    method KeepForStack(acl: bool, p: PoolPacket)
      requires Valid() && p !in Owned()
      modifies this`WritesTotal, this`history, Owned(), p
      ensures Valid() && Owned() == old(Owned()) + {p}
      ensures var t := WithStackChannel(old(Abs()), acl, Append(StackChannel(old(Abs()), acl), p.View()));
              Abs() == Ended(t.(writesTotal := Wrap(t.writesTotal + 1)), QueuedForStack)
    {
      hide ChannelFields.Valid, Append;
      var c := StackFields(acl);
      c.AppendPacket(p);
      WritesTotal := Wrap(WritesTotal + 1);
      history := history.(outcomes := history.outcomes + [QueuedForStack]);
    }

    /** The branch of WinVhciDeliverToStack in which no read is waiting. */
    method QueueForStack(kind: Byte, body: array<Byte>, from: nat, length: nat, poolOk: bool) returns (status: Status)
      requires Valid() && from + length <= body.Length
      modifies this`AllocSeq, this`history, this`DropsAllocFailed, this`WritesTotal, Owned()
      ensures Valid() && fresh(Owned() - old(Owned()))
      ensures Fdo.QueueForStack(old(Abs()), Packet(kind, old(body[from..from + length])), poolOk)
              == Delivered(Abs(), Settled(status))
    {
      hide ChannelFields.Valid, Append;
      var p := TryAlloc(kind, body, from, length, poolOk);
      if p == null {
        LoseForStack();
        status := InsufficientResources;
      } else {
        KeepForStack(kind == H4_ACL, p);
        status := Success;
      }
    }

    /** WinVhciDeliverToStack, from taking the lock to releasing it. The caller
        completes the read that is returned, if any. */
    method DeliverToStackLocked(kind: Byte, body: array<Byte>, from: nat, length: nat, poolOk: bool)
      returns (request: WdfRequest?, status: Status)
      requires Valid() && from + length <= body.Length
      modifies this, Owned()
      ensures Valid() && fresh(Owned() - old(Owned()))
      ensures var d := DeliverToStack(old(Abs()), Packet(kind, old(body[from..from + length])), poolOk);
              Abs() == d.state && d.result == if request == null then Settled(status) else HandTo(request.View())
      ensures request != null ==>
                && request !in Owned() && request in old(Owned()) && !request.Completed
                && request.Output in old(StackFields(kind == H4_ACL).Buffers())
    {
      hide ChannelFields.Valid, Fdo.QueueForStack;
      OwnsNoBuffer(body);
      var c := StackFields(kind == H4_ACL);
      status := Success;
      request := c.TakeWaitingRead(Packet(kind, body[from..from + length]));
      if request != null {
        WritesTotal := Wrap(WritesTotal + 1);
        history := history.(outcomes := history.outcomes + [ToStack]);
      } else {
        status := QueueForStack(kind, body, from, length, poolOk);
      }
    }

    // -------------------------------------------------------------------------
    // Radio lifecycle
    // -------------------------------------------------------------------------

    /** WinVhciHandleControl's first region. */
    method TakeRadioId() returns (id: Option<ULong>)
      requires Valid()
      modifies this`RadioPresent, this`CurrentRadioId, this`NextRadioId, this`history
      ensures Valid()
      ensures old(RadioPresent) ==> id == None && Abs() == old(Abs())
      ensures !old(RadioPresent) ==> id == Some(old(NextRadioId)) && Abs() == MakeRadioCurrent(old(Abs()))
    {
      hide ChannelFields.Valid;
      if RadioPresent {
        return None;
      }
      id := Some(NextRadioId);
      NextRadioId := Wrap(NextRadioId + 1);
      RadioPresent := true;
      CurrentRadioId := id.value;
      history := history.(life := history.life + [BecameCurrent(id.value)], controls := history.controls + 1);
    }

    /** WinVhciAddRadio succeeded: PnP now knows of this radio. */
    method RadioReported(id: ULong)
      requires Valid()
      modifies this`Reported
      ensures Valid()
      ensures Abs() == Apply(old(Abs()), ReportsRadio(id))
    {
      hide ChannelFields.Valid;
      Reported := Reported + {id};
    }

    /** WinVhciHandleControl's second region, entered when AddRadio fails. */
    method UndoRadio()
      requires Valid()
      modifies this`RadioPresent
      ensures Valid()
      ensures Abs() == ForgetRadio(old(Abs()))
    {
      hide ChannelFields.Valid;
      RadioPresent := false;
    }

    /** WinVhciPdoEvtD0Entry. */
    method D0Entry(id: ULong) returns (current: bool)
      requires Valid()
      modifies this`RadioStarted, this`history
      ensures Valid()
      ensures Abs() == RadioEntersD0(old(Abs()), id) && current == (id == CurrentRadioId)
    {
      hide ChannelFields.Valid;
      current := id == CurrentRadioId;
      if current {
        RadioStarted := true;
      }
      history := history.(life := history.life + [EnteredD0(id)]);
    }

    /** Frees the two backlogs that were meant for the stack. */
    method FreeStackLists() returns (ghost freed: seq<Node>)
      requires Valid()
      modifies events.Repr, data.Repr
      ensures Valid() && Owned() <= old(Owned())
      ensures user.Model == old(user.Model)
      ensures events.Model == FreeAll(old(events.Model)) && data.Model == FreeAll(old(data.Model))
      ensures freed == old(events.Model).backlog + old(data.Model).backlog
    {
      hide ChannelFields.Valid;
      ghost var fromEvents := events.FreeList();
      ghost var fromData := data.FreeList();
      freed := fromEvents + fromData;
    }

    /** WinVhciRadioStackDown. */
    method RadioStackDown(id: ULong)
      requires Valid()
      modifies this, Owned()
      ensures Valid() && Owned() <= old(Owned())
      ensures Abs() == RadioLeavesD0(old(Abs()), id)
    {
      hide ChannelFields.Valid;
      if id == CurrentRadioId {
        RadioStarted := false;
        ghost var freed := FreeStackLists();
        history := history.(freed := history.freed + Serials(freed));
      }
      history := history.(life := history.life + [LeftD0(id)]);
    }

    // -------------------------------------------------------------------------
    // Handle lifetime
    // -------------------------------------------------------------------------

    /** WinVhciEvtDeviceFileCreate. */
    method FileCreate(file: nat)
      requires Valid()
      modifies this`Owner
      ensures Valid()
      ensures Abs() == TakeOwnership(old(Abs()), file)
    {
      hide ChannelFields.Valid;
      Owner := Some(file);
    }

    /** The first region of WinVhciEvtFileClose. */
    method LoseOwner() returns (hadRadio: bool)
      requires Valid()
      modifies this`RadioPresent, this`Owner
      ensures Valid()
      ensures Abs() == ReleaseOwnership(old(Abs())) && hadRadio == old(RadioPresent)
    {
      hide ChannelFields.Valid;
      hadRadio := RadioPresent;
      RadioPresent := false;
      Owner := None;
    }

    /** WinVhciPurgeBacklogs. */
    method FreeAllLists()
      requires Valid()
      modifies this, Owned()
      ensures Valid() && Owned() <= old(Owned())
      ensures Abs() == PurgeBacklogs(old(Abs()))
    {
      hide ChannelFields.Valid;
      ghost var fromUser := user.FreeList();
      ghost var fromStack := FreeStackLists();
      history := history.(freed := history.freed + Serials(fromUser + fromStack));
      assert fromUser + fromStack == old(user.Model.backlog) + old(events.Model.backlog) + old(data.Model.backlog);
    }

    /** One synchronous purge of a stack queue, which cancels every read on it. */
    method PurgeStackQueue(acl: bool) returns (cancelled: seq<WdfRequest>)
      requires Valid()
      modifies this, Owned()
      ensures Valid() && Owned() <= old(Owned())
      ensures var q := if acl then DataQueue else EventQueue;
              && Abs() == Apply(old(Abs()), PurgesQueue(q))
              && Views(cancelled) == ChannelOf(old(Abs()), q).parked
      ensures AllCancelled(cancelled) && forall i :: 0 <= i < |cancelled| ==> cancelled[i] in old(Owned()) - Owned()
    {
      hide ChannelFields.Valid;
      var c := StackFields(acl);
      cancelled := c.PurgeReads();
    }

    method StartStackQueue(acl: bool)
      requires Valid()
      modifies this, Owned()
      ensures Valid() && Owned() == old(Owned())
      ensures Abs() == Apply(old(Abs()), StartsQueue(if acl then DataQueue else EventQueue))
    {
      hide ChannelFields.Valid;
      var c := StackFields(acl);
      c.StartReads();
    }

    // -------------------------------------------------------------------------
    // Statistics
    // -------------------------------------------------------------------------

    /** The locked region of IOCTL_WINVHCI_GET_STATS. */
    method TakeSnapshot() returns (stats: Stats)
      requires Valid()
      ensures stats == Snapshot(Abs())
    {
      stats := Stats(DropsNoClient, DropsAllocFailed, user.count, user.peak, events.count, events.peak,
                     data.count, data.peak, WritesTotal, QueuedToUserTotal, WritesNoRadio);
    }
  }

  /** What a read's region answers, told from the packet and the forward. */
  ghost function PostAnswer(taken: PoolPacket?, parked: bool): PostResult {
    if taken != null then Got(taken.View()) else if parked then Waits else Refused
  }
}
