/** Size safety in both directions: what is admitted fits what it is read into.

    roomy says whether the stack gives every read it posts the room of its
    channel's limit. The client side needs no such promise. */
module Sizes {
  import opened Hci
  import opened Rendezvous
  import opened Channels
  import opened Fdo
  import opened Driver

  predicate FitsClient(p: Packet) {
    |p.body| <= MAX_BODY
  }

  function Kind(acl: bool): Byte {
    if acl then H4_ACL else H4_EVENT
  }

  predicate FitsStack(p: Packet, acl: bool) {
    p.kind == Kind(acl) && |p.body| <= BodyLimit(Kind(acl))
  }

  predicate ClientRoom(r: Request) {
    r.origin.FromClient? && r.room >= MAX_H4_PACKET
  }

  predicate StackRoom(r: Request, acl: bool, roomy: bool) {
    && r.origin.FromStack? && r.room >= CONTEXT_HEADER_SIZE
    && (roomy ==> r.room - CONTEXT_HEADER_SIZE >= BodyLimit(Kind(acl)))
  }

  predicate ReadsInto(r: Request, p: Packet, roomy: bool) {
    if r.origin.FromClient? then r.room >= MAX_H4_PACKET && FitsClient(p)
    else r.room >= CONTEXT_HEADER_SIZE && (roomy ==> r.room - CONTEXT_HEADER_SIZE >= |p.body|)
  }

  // ---------------------------------------------------------------------------
  // The invariant
  // ---------------------------------------------------------------------------

  ghost predicate ClientChannelFits(c: Channel) {
    && (forall i :: 0 <= i < |c.backlog| ==> FitsClient(c.backlog[i].packet))
    && (forall i :: 0 <= i < |c.parked| ==> ClientRoom(c.parked[i]))
  }

  ghost predicate StackChannelFits(c: Channel, acl: bool, roomy: bool) {
    && (forall i :: 0 <= i < |c.backlog| ==> FitsStack(c.backlog[i].packet, acl))
    && (forall i :: 0 <= i < |c.parked| ==> StackRoom(c.parked[i], acl, roomy))
  }

  ghost predicate StateFits(s: State, roomy: bool) {
    && ClientChannelFits(s.user)
    && StackChannelFits(s.events, false, roomy)
    && StackChannelFits(s.data, true, roomy)
  }

  /** The room the stack's own limits call for. */
  predicate IsRoomy(i: StackReadInput) {
    match ClassifyStackRead(i)
    case Route(acl) => i.room.Some? && i.room.value - CONTEXT_HEADER_SIZE >= BodyLimit(Kind(acl))
    case _ => true
  }

  predicate ThreadFits(t: Thread, roomy: bool) {
    match t
    case ClientRead(r) => r.origin.FromClient?
    case StackRead(r, posted) =>
      r.origin.FromStack? && (posted.room.Some? ==> r.room == posted.room.value) && (roomy ==> IsRoomy(posted))
    case HasPacket(r, n) => ReadsInto(r, n.packet, roomy)
    case AwaitsAdmission(_, p) => FitsStack(p, p.kind == H4_ACL)
    case AwaitsDelivery(_, p) => FitsStack(p, p.kind == H4_ACL)
    case HoldsStackRead(_, p, read) => read.origin.FromStack? && ReadsInto(read, p, roomy)
    case AwaitsQueueing(_, p) => FitsClient(p)
    case HoldsClientRead(_, p, read, _) => read.origin.FromClient? && ReadsInto(read, p, roomy)
    case _ => true
  }

  predicate DoneFits(d: Done, roomy: bool) {
    d.WithPacket? && (d.r.origin.FromClient? || roomy) ==> d.status.Success?
  }

  ghost predicate SystemFits(s: System, roomy: bool) {
    && StateFits(s.fdo, roomy)
    && (forall i :: 0 <= i < |s.threads| ==> ThreadFits(s.threads[i], roomy))
    && (forall i :: 0 <= i < |s.completed| ==> DoneFits(s.completed[i], roomy))
  }

  ghost predicate MoveFits(m: Moved, roomy: bool) {
    && StateFits(m.fdo, roomy)
    && ThreadFits(m.thread, roomy)
    && (forall i :: 0 <= i < |m.done| ==> DoneFits(m.done[i], roomy))
  }

  // ---------------------------------------------------------------------------
  // Regions
  // ---------------------------------------------------------------------------

  /** The moves that keep a channel of the stack's within its limits. */
  lemma StackMovesFit(c: Channel, acl: bool, roomy: bool)
    requires StackChannelFits(c, acl, roomy)
    ensures StackChannelFits(FreeAll(c), acl, roomy) && StackChannelFits(PurgeQueue(c), acl, roomy)
    ensures StackChannelFits(StartQueue(c), acl, roomy)
    ensures forall k: nat :: k < |c.parked| ==> StackChannelFits(CancelRead(c, k), acl, roomy)
  {
  }

  lemma ClientMovesFit(c: Channel)
    requires ClientChannelFits(c)
    ensures ClientChannelFits(FreeAll(c)) && ClientChannelFits(PurgeQueue(c)) && ClientChannelFits(StartQueue(c))
    ensures forall k: nat :: k < |c.parked| ==> ClientChannelFits(CancelRead(c, k))
  {
  }

  lemma StackHandOffFits(c: Channel, p: Packet, acl: bool, roomy: bool)
    requires StackChannelFits(c, acl, roomy) && WaitingRead(c).Some?
    ensures StackChannelFits(HandOff(c, p), acl, roomy) && StackRoom(WaitingRead(c).value, acl, roomy)
  {
  }

  lemma StackAppendFits(c: Channel, n: Node, acl: bool, roomy: bool)
    requires StackChannelFits(c, acl, roomy) && FitsStack(n.packet, acl)
    ensures StackChannelFits(Append(c, n), acl, roomy)
  {
  }

  lemma ClientHandOffFits(c: Channel, p: Packet)
    requires ClientChannelFits(c) && WaitingRead(c).Some?
    ensures ClientChannelFits(HandOff(c, p)) && ClientRoom(WaitingRead(c).value)
  {
  }

  lemma ClientAppendFits(c: Channel, n: Node)
    requires ClientChannelFits(c) && FitsClient(n.packet)
    ensures ClientChannelFits(Append(c, n))
  {
  }

  lemma QueueingFits(s: State, p: Packet, poolOk: bool, roomy: bool)
    requires StateFits(s, roomy) && FitsClient(p)
    ensures var h := QueueToUser(s, p, poolOk);
            StateFits(h.state, roomy) && (h.taken.Some? ==> ClientRoom(h.taken.value))
  {
    ClientAppendFits(s.user, Node(s.history.nextSerial, p));
    if WaitingRead(s.user).Some? {
      ClientHandOffFits(s.user, p);
    }
    hide ClientChannelFits, StackChannelFits, HandOff, Append, WaitingRead, ClientRoom;
  }

  lemma DeliveryFits(s: State, p: Packet, poolOk: bool, roomy: bool)
    requires StateFits(s, roomy) && FitsStack(p, p.kind == H4_ACL)
    ensures var d := DeliverToStack(s, p, poolOk);
            StateFits(d.state, roomy) && (d.result.HandTo? ==> StackRoom(d.result.r, p.kind == H4_ACL, roomy))
  {
    var acl := p.kind == H4_ACL;
    var c := StackChannel(s, acl);
    StackAppendFits(c, Node(s.history.nextSerial, p), acl, roomy);
    if WaitingRead(c).Some? {
      StackHandOffFits(c, p, acl, roomy);
    }
    hide ClientChannelFits, StackChannelFits, HandOff, Append, WaitingRead, StackRoom;
  }

  /** Any other region but a read's. */
  lemma OtherRegionFits(s: State, r: Region, roomy: bool)
    requires StateFits(s, roomy) && Allowed(s, r)
    requires !r.QueuesToUser? && !r.DeliversToStack? && !r.PostsClientRead? && !r.PostsStackRead?
    ensures StateFits(Apply(s, r), roomy)
  {
    match r
    case LeavesD0(_) | PurgesBacklogs => FreeingFits(s, r, roomy);
    case CancelsRead(_, _) => CancelFits(s, r, roomy);
    case PurgesQueue(_) | StartsQueue(_) => QueueEventFits(s, r, roomy);
    case _ => PlainRegionFits(s, r, roomy);
  }

  lemma FreeingFits(s: State, r: Region, roomy: bool)
    requires StateFits(s, roomy) && (r.LeavesD0? || r.PurgesBacklogs?)
    ensures StateFits(Apply(s, r), roomy)
  {
    ClientMovesFit(s.user);
    StackMovesFit(s.events, false, roomy);
    StackMovesFit(s.data, true, roomy);
    hide ClientChannelFits, StackChannelFits, FreeAll, PurgeQueue, StartQueue, CancelRead;
  }

  lemma CancelFits(s: State, r: Region, roomy: bool)
    requires StateFits(s, roomy) && Allowed(s, r) && r.CancelsRead?
    ensures StateFits(Apply(s, r), roomy)
  {
    ClientMovesFit(s.user);
    StackMovesFit(s.events, false, roomy);
    StackMovesFit(s.data, true, roomy);
    hide ClientChannelFits, StackChannelFits, FreeAll, PurgeQueue, StartQueue, CancelRead;
  }

  lemma QueueEventFits(s: State, r: Region, roomy: bool)
    requires StateFits(s, roomy) && Allowed(s, r) && (r.PurgesQueue? || r.StartsQueue?)
    ensures StateFits(Apply(s, r), roomy)
  {
    ClientMovesFit(s.user);
    StackMovesFit(s.events, false, roomy);
    StackMovesFit(s.data, true, roomy);
    hide ClientChannelFits, StackChannelFits, FreeAll, PurgeQueue, StartQueue, CancelRead;
  }

  lemma PlainRegionFits(s: State, r: Region, roomy: bool)
    requires StateFits(s, roomy) && Allowed(s, r)
    requires !r.QueuesToUser? && !r.DeliversToStack? && !r.PostsClientRead? && !r.PostsStackRead?
    requires !r.LeavesD0? && !r.PurgesBacklogs? && !r.CancelsRead? && !r.PurgesQueue? && !r.StartsQueue?
    ensures StateFits(Apply(s, r), roomy)
  {
    hide ClientChannelFits, StackChannelFits, QueueToUser, DeliverToStack, PostClientRead, PostStackRead, PurgeBacklogs;
  }

  lemma ClientPostFits(s: State, r: Request, forwardOk: bool, roomy: bool)
    requires StateFits(s, roomy) && ClientRoom(r)
    ensures var p := PostClientRead(s, r, forwardOk);
            StateFits(p.state, roomy) && (p.result.Got? ==> FitsClient(p.result.node.packet))
  {
  }

  lemma StackPostFits(s: State, acl: bool, r: Request, forwardOk: bool, roomy: bool)
    requires StateFits(s, roomy) && StackRoom(r, acl, roomy)
    ensures var p := PostStackRead(s, acl, r, forwardOk);
            StateFits(p.state, roomy) && (p.result.Got? ==> FitsStack(p.result.node.packet, acl))
  {
  }

  /** What the admission arguments guarantee of a packet. */
  lemma ClassifiedFits(bytes: seq<Byte>, input: Option<seq<Byte>>)
    ensures ClassifyWrite(bytes).Send? ==> FitsStack(ClassifyWrite(bytes).p, ClassifyWrite(bytes).p.kind == H4_ACL)
    ensures ClassifyStackWrite(input).Accept? ==> FitsClient(ClassifyStackWrite(input).p)
  {
  }

  lemma CompletionFits(r: Request, p: Packet, roomy: bool)
    requires ReadsInto(r, p, roomy)
    ensures DoneFits(CompleteRead(r, p), roomy)
  {
  }

  // ---------------------------------------------------------------------------
  // Callbacks
  // ---------------------------------------------------------------------------

  lemma ReadMoveFits(s: State, t: Thread, a: Answer, roomy: bool)
    requires StateFits(s, roomy) && ThreadFits(t, roomy) && (t.ClientRead? || t.StackRead?)
    ensures MoveFits(Move(s, t, a), roomy)
  {
    if t.ClientRead? {
      ClientReadMoveFits(s, t, a, roomy);
    } else {
      StackReadMoveFits(s, t, a, roomy);
    }
  }

  lemma ClientReadMoveFits(s: State, t: Thread, a: Answer, roomy: bool)
    requires StateFits(s, roomy) && ThreadFits(t, roomy) && t.ClientRead?
    ensures MoveFits(Move(s, t, a), roomy)
  {
    if t.r.room >= MAX_H4_PACKET {
      ClientPostFits(s, t.r, a.forwardOk, roomy);
    }
    hide StateFits, PostClientRead;
  }

  lemma StackReadMoveFits(s: State, t: Thread, a: Answer, roomy: bool)
    requires StateFits(s, roomy) && ThreadFits(t, roomy) && t.StackRead?
    ensures MoveFits(Move(s, t, a), roomy)
  {
    if ClassifyStackRead(t.posted).Route? {
      StackPostFits(s, ClassifyStackRead(t.posted).acl, t.r, a.forwardOk, roomy);
    }
    hide StateFits, PostStackRead;
  }

  lemma QueueingMoveFits(s: State, t: Thread, a: Answer, roomy: bool)
    requires StateFits(s, roomy) && ThreadFits(t, roomy) && (t.Replies? || t.AwaitsQueueing?)
    ensures MoveFits(Move(s, t, a), roomy)
  {
    var p := if t.Replies? then ControlReplyPacket(t.opcode, t.id) else t.p;
    QueueingFits(s, p, a.poolOk, roomy);
    AfterQueueingFits(t.r, p, if t.Replies? then 2 else |p.body|, QueueToUser(s, p, a.poolOk), roomy);
    hide StateFits, QueueToUser, AfterQueueing, MoveFits;
  }

  lemma AfterQueueingFits(r: Request, p: Packet, info: nat, h: Handing, roomy: bool)
    requires StateFits(h.state, roomy) && FitsClient(p) && (h.taken.Some? ==> ClientRoom(h.taken.value))
    ensures MoveFits(AfterQueueing(r, p, info, h), roomy)
  {
    hide StateFits;
  }

  lemma DeliveryMoveFits(s: State, t: Thread, a: Answer, roomy: bool)
    requires StateFits(s, roomy) && ThreadFits(t, roomy) && t.AwaitsDelivery?
    ensures MoveFits(Move(s, t, a), roomy)
  {
    DeliveryFits(s, t.p, a.poolOk, roomy);
    hide StateFits, DeliverToStack;
  }

  lemma CompletionMoveFits(s: State, t: Thread, a: Answer, roomy: bool)
    requires StateFits(s, roomy) && ThreadFits(t, roomy)
    requires t.HasPacket? || t.HoldsStackRead? || t.HoldsClientRead?
    ensures MoveFits(Move(s, t, a), roomy)
  {
    match t
    case HasPacket(r, n) => CompletionFits(r, n.packet, roomy);
    case HoldsStackRead(_, p, read) => CompletionFits(read, p, roomy);
    case HoldsClientRead(_, p, read, _) => CompletionFits(read, p, roomy);
  }

  lemma OtherMoveFits(s: State, t: Thread, a: Answer, roomy: bool)
    requires StateFits(s, roomy) && ThreadFits(t, roomy)
    requires !t.ClientRead? && !t.StackRead? && !t.Replies? && !t.AwaitsQueueing? && !t.AwaitsDelivery?
    requires !t.HasPacket? && !t.HoldsStackRead? && !t.HoldsClientRead?
    ensures MoveFits(Move(s, t, a), roomy)
  {
    MoveAppliesRegion(s, t, a);
    OtherMoveRegion(s, t, a);
    OtherRegionFits(s, RegionOfMove(s, t, a), roomy);
    OtherThreadFits(s, t, a, roomy);
    hide StateFits, Apply, RegionOfMove, Move;
  }

  lemma OtherMoveRegion(s: State, t: Thread, a: Answer)
    requires !t.ClientRead? && !t.StackRead? && !t.Replies? && !t.AwaitsQueueing? && !t.AwaitsDelivery?
    ensures var r := RegionOfMove(s, t, a);
            !r.QueuesToUser? && !r.DeliversToStack? && !r.PostsClientRead? && !r.PostsStackRead?
  {
  }

  lemma OtherThreadFits(s: State, t: Thread, a: Answer, roomy: bool)
    requires ThreadFits(t, roomy)
    requires !t.ClientRead? && !t.StackRead? && !t.Replies? && !t.AwaitsQueueing? && !t.AwaitsDelivery?
    requires !t.HasPacket? && !t.HoldsStackRead? && !t.HoldsClientRead?
    ensures ThreadFits(Move(s, t, a).thread, roomy)
    ensures forall i :: 0 <= i < |Move(s, t, a).done| ==> DoneFits(Move(s, t, a).done[i], roomy)
  {
    match t
    case ClientWrite(_, bytes) => ClassifiedFits(bytes, None);
    case StackWrite(_, input) => ClassifiedFits([], input);
    case _ =>
  }

  lemma EveryMoveFits(s: State, t: Thread, a: Answer, roomy: bool)
    requires StateFits(s, roomy) && ThreadFits(t, roomy)
    ensures MoveFits(Move(s, t, a), roomy)
  {
    hide Move, StateFits, MoveFits;
    match t
    case ClientRead(_) | StackRead(_, _) => ReadMoveFits(s, t, a, roomy);
    case Replies(_, _, _) | AwaitsQueueing(_, _) => QueueingMoveFits(s, t, a, roomy);
    case AwaitsDelivery(_, _) => DeliveryMoveFits(s, t, a, roomy);
    case HasPacket(_, _) | HoldsStackRead(_, _, _) | HoldsClientRead(_, _, _, _) => CompletionMoveFits(s, t, a, roomy);
    case _ => OtherMoveFits(s, t, a, roomy);
  }

  // ---------------------------------------------------------------------------
  // Steps and runs
  // ---------------------------------------------------------------------------

  predicate RoomyLabel(l: Label) {
    l.Issue? && l.a.ReadHci? ==> IsRoomy(l.a.posted)
  }

  predicate RoomyRun(labels: seq<Label>) {
    forall i :: 0 <= i < |labels| ==> RoomyLabel(labels[i])
  }

  lemma GoFits(s: System, i: nat, a: Answer, roomy: bool)
    requires SystemFits(s, roomy) && Enabled(s, Go(i, a))
    ensures SystemFits(Step(s, Go(i, a)), roomy)
  {
    EveryMoveFits(s.fdo, s.threads[i], a, roomy);
    hide Move, StateFits, ThreadFits, DoneFits;
  }

  lemma IssueFits(s: System, a: Incoming, roomy: bool)
    requires SystemFits(s, roomy) && Enabled(s, Issue(a)) && (roomy ==> RoomyLabel(Issue(a)))
    ensures SystemFits(Step(s, Issue(a)), roomy)
  {
  }

  /** Cancels and purges complete requests without a packet. */
  lemma QuietCompletionsFit(s: System, l: Label, roomy: bool)
    requires Enabled(s, l) && !l.Go?
    requires forall i :: 0 <= i < |s.completed| ==> DoneFits(s.completed[i], roomy)
    ensures forall i :: 0 <= i < |Step(s, l).completed| ==> DoneFits(Step(s, l).completed[i], roomy)
  {
  }

  lemma QuietStepRegion(s: System, l: Label)
    requires Enabled(s, l) && !l.Go?
    ensures var r := RegionOf(s, l);
            !r.QueuesToUser? && !r.DeliversToStack? && !r.PostsClientRead? && !r.PostsStackRead?
  {
  }

  lemma QuietStepFits(s: System, l: Label, roomy: bool)
    requires SystemFits(s, roomy) && Enabled(s, l) && !l.Go? && !l.Issue? && !l.DeviceCleanup?
    ensures SystemFits(Step(s, l), roomy)
  {
    StepAppliesRegion(s, l);
    QuietStepRegion(s, l);
    QuietSteps(s, l);
    QuietCompletionsFit(s, l, roomy);
    hide Step, Apply, RegionOf, StateFits, ThreadFits, DoneFits;
    OtherRegionFits(s.fdo, RegionOf(s, l), roomy);
  }

  lemma CleanupArrivalFits(s: System, roomy: bool)
    requires SystemFits(s, roomy)
    ensures SystemFits(Step(s, DeviceCleanup), roomy)
  {
  }

  lemma StepFits(s: System, l: Label, roomy: bool)
    requires SystemFits(s, roomy) && Enabled(s, l) && (roomy ==> RoomyLabel(l))
    ensures SystemFits(Step(s, l), roomy)
  {
    match l
    case Go(i, a) => GoFits(s, i, a, roomy);
    case Issue(a) => IssueFits(s, a, roomy);
    case DeviceCleanup => CleanupArrivalFits(s, roomy);
    case _ => QuietStepFits(s, l, roomy);
  }

  lemma {:induction false} RunsFit(knob: ULong, labels: seq<Label>, roomy: bool)
    requires Run(knob, labels).Some? && (roomy ==> RoomyRun(labels))
    ensures SystemFits(Run(knob, labels).value, roomy)
  {
    if labels != [] {
      var before := labels[..|labels| - 1];
      RunsFit(knob, before, roomy);
      StepFits(Run(knob, before).value, labels[|labels| - 1], roomy);
    }
  }

  // ---------------------------------------------------------------------------
  // What every run guarantees
  // ---------------------------------------------------------------------------

  /** Every queued packet has a type and a length its channel can deliver. */
  lemma {:induction false} QueuedPacketsFit(knob: ULong, labels: seq<Label>)
    requires Run(knob, labels).Some?
    ensures var s := Run(knob, labels).value.fdo;
            && (forall i :: 0 <= i < |s.user.backlog| ==> |s.user.backlog[i].packet.body| <= 1025)
            && (forall i :: 0 <= i < |s.events.backlog| ==>
                  s.events.backlog[i].packet.kind == H4_EVENT && |s.events.backlog[i].packet.body| <= 257)
            && (forall i :: 0 <= i < |s.data.backlog| ==>
                  s.data.backlog[i].packet.kind == H4_ACL && |s.data.backlog[i].packet.body| <= 1021)
  {
    RunsFit(knob, labels, false);
  }

  /** A client's read matched to a packet always succeeds: its BUFFER_TOO_SMALL
      branches are unreachable. */
  lemma {:induction false} ClientReadsAlwaysFit(knob: ULong, labels: seq<Label>, i: nat)
    requires Run(knob, labels).Some? && i < |Run(knob, labels).value.completed|
    requires var d := Run(knob, labels).value.completed[i]; d.WithPacket? && d.r.origin.FromClient?
    ensures Run(knob, labels).value.completed[i].status == Success
  {
    RunsFit(knob, labels, false);
  }

  /** WinVhciCompleteRead never fails for size if the stack posts reads with the
      room of their channel's limit. */
  lemma StackReadsFitWhenRoomy(knob: ULong, labels: seq<Label>, i: nat)
    requires Run(knob, labels).Some? && RoomyRun(labels) && i < |Run(knob, labels).value.completed|
    requires Run(knob, labels).value.completed[i].WithPacket?
    ensures Run(knob, labels).value.completed[i].status == Success
  {
    RunsFit(knob, labels, true);
  }
}
