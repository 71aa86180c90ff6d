/** What each call gets for an answer, told from the call as it was issued: in every
    run each completion has a status, an Information value and, for a read, a packet
    that its own call allows. */
module Answers {
  import opened Hci
  import opened Rendezvous
  import opened Channels
  import opened Fdo
  import opened Driver
  import Sizes

  // ---------------------------------------------------------------------------
  // The calls of a run
  // ---------------------------------------------------------------------------

  /** The calls a run has issued. A request's id is its call's place here. */
  function Calls(labels: seq<Label>): seq<Incoming> {
    if labels == [] then []
    else Calls(labels[..|labels| - 1]) + CallBy(labels[|labels| - 1])
  }

  function CallBy(l: Label): seq<Incoming> {
    if l.Issue? then [l.a] else []
  }

  predicate Issued(calls: seq<Incoming>, r: Request) {
    r.id < |calls| && r == NewRequest(calls[r.id], r.id)
  }

  // ---------------------------------------------------------------------------
  // The answers a call allows
  // ---------------------------------------------------------------------------

  /** A control packet: type FF and an opcode with bits 2 to 7 clear. */
  predicate AsksForRadio(bytes: seq<Byte>) {
    |bytes| == 2 && bytes[0] == 0xFF && bytes[1] < 4
  }

  /** A packet for the stack: an event of up to 257 bytes or ACL of up to 1021, behind
      its type. */
  predicate CarriesPacket(bytes: seq<Byte>) {
    2 <= |bytes| && ((bytes[0] == 4 && |bytes| <= 258) || (bytes[0] == 2 && |bytes| <= 1022))
  }

  /** Well-formed, but nothing Windows has a use for: SCO, ISO, or a control packet that
      asks for one of the two quirks. */
  predicate AsksForTheUnsupported(bytes: seq<Byte>) {
    || (2 <= |bytes| <= 1026 && (bytes[0] == 3 || bytes[0] == 5))
    || (|bytes| == 2 && bytes[0] == 0xFF && bytes[1] % 64 < 4 && bytes[1] >= 64)
  }

  /** What a client's write may be answered with. On success the whole transfer is
      reported, otherwise nothing of it. */
  predicate AllowsWrite(bytes: seq<Byte>, status: Status, info: nat) {
    && info == (if status.Success? then |bytes| else 0)
    && if AsksForRadio(bytes) then true
       else if CarriesPacket(bytes) then
         status.Success? || status.DeviceNotReady? || status.InsufficientResources? || status.BufferTooSmall?
       else if AsksForTheUnsupported(bytes) then status.NotSupported?
       else status.InvalidParameter?
  }

  /** The header is there and DataLen stays within the buffer and 1025. */
  predicate Announces(input: Option<seq<Byte>>, n: nat) {
    input.Some? && |input.value| >= 5 && DataLength(input.value) == n && n <= 1025 && 5 + n <= |input.value|
  }

  predicate AllowsWriteHci(input: Option<seq<Byte>>, status: Status, info: nat) {
    if exists n: nat | n <= 1025 :: Announces(input, n) then status.Success? && Announces(input, info)
    else status.InvalidParameter? && info == 0
  }

  /** A read the driver takes: with both buffers, in the one layout it knows. */
  predicate TakesRead(posted: StackReadInput) {
    posted.requested.Some? && posted.room.Some? && posted.room.value >= 5 && posted.adjacent
  }

  /** The packet type a read is for: the one it asks for, or else by its room. */
  function TypeFor(posted: StackReadInput): Byte
    requires TakesRead(posted)
  {
    if posted.requested.value == 4 then 4
    else if posted.requested.value == 2 then 2
    else if posted.room.value >= 5 + 1021 then 2
    else 4
  }

  /** A read that ends with no packet. */
  predicate AllowsNoPacket(a: Incoming, status: Status) {
    match a
    case ReadFile(length) => if length < 1026 then status.BufferTooSmall? else !status.Success?
    case ReadHci(posted) =>
      if TakesRead(posted) then !status.Success?
      else if posted.requested.Some? && posted.room.Some? && posted.room.value >= 5 then status.InvalidDeviceRequest?
      else status.InvalidParameter?
    case _ => false
  }

  /** A read that was matched to a packet: it shows one whole packet of its type, in
      its side's layout, or fails for want of room. */
  predicate AllowsPacket(a: Incoming, status: Status, output: seq<Byte>, info: nat) {
    && info == |output|
    && match a
       case ReadFile(length) => length >= 1026 && status.Success? && 1 <= info <= 1026
       case ReadHci(posted) =>
         && TakesRead(posted)
         && if !status.Success? then status.BufferTooSmall? && info == 0
            else
              && 5 <= info <= posted.room.value && info <= 5 + (if TypeFor(posted) == 2 then 1021 else 257)
              && output[4] == TypeFor(posted) && DataLength(output) == info - 5
       case _ => false
  }

  predicate Allows(a: Incoming, d: Done) {
    match d
    case WithPacket(_, status, output, info) => AllowsPacket(a, status, output, info)
    case Plain(_, status, info) =>
      match a
      case WriteFile(bytes) => AllowsWrite(bytes, status, info)
      case WriteHci(input) => AllowsWriteHci(input, status, info)
      case _ => info == 0 && AllowsNoPacket(a, status)
  }

  // ---------------------------------------------------------------------------
  // The driver's decisions, against these
  // ---------------------------------------------------------------------------

  lemma WritesAreClassified(bytes: seq<Byte>)
    ensures ClassifyWrite(bytes).CreateRadio? <==> AsksForRadio(bytes)
    ensures ClassifyWrite(bytes).CreateRadio? ==> ClassifyWrite(bytes).opcode == bytes[1]
    ensures ClassifyWrite(bytes).Send? <==> CarriesPacket(bytes)
    ensures ClassifyWrite(bytes).Send? ==> ClassifyWrite(bytes).p == Packet(bytes[0], bytes[1..])
    ensures ClassifyWrite(bytes).Refuse? ==> AllowsWrite(bytes, ClassifyWrite(bytes).status, 0)
  {
  }

  lemma WriteHcisAreClassified(input: Option<seq<Byte>>)
    ensures match ClassifyStackWrite(input)
            case Accept(p) => AllowsWriteHci(input, Success, |p.body|)
            case RefuseWrite(status) => AllowsWriteHci(input, status, 0)
  {
    hide DataLength;
    if ClassifyStackWrite(input).Accept? {
      assert Announces(input, |ClassifyStackWrite(input).p.body|);
    }
  }

  lemma StackReadsAreClassified(posted: StackReadInput)
    ensures match ClassifyStackRead(posted)
            case Route(acl) => TakesRead(posted) && TypeFor(posted) == Sizes.Kind(acl)
            case RefuseRead(status) => AllowsNoPacket(ReadHci(posted), status)
    ensures ClassifyStackRead(posted).Route? <==> TakesRead(posted)
  {
  }

  // ---------------------------------------------------------------------------
  // What each callback holds
  // ---------------------------------------------------------------------------

  /** A read that may be given p. */
  predicate MayGet(calls: seq<Incoming>, r: Request, p: Packet) {
    && Issued(calls, r)
    && match calls[r.id]
       case ReadFile(length) => length >= 1026 && |p.body| <= 1025
       case ReadHci(posted) =>
         TakesRead(posted) && p.kind == TypeFor(posted) && |p.body| <= (if p.kind == 2 then 1021 else 257)
       case _ => false
  }

  predicate WritesFrom(calls: seq<Incoming>, r: Request, p: Packet) {
    && Issued(calls, r) && calls[r.id].WriteFile?
    && CarriesPacket(calls[r.id].bytes) && p == Packet(calls[r.id].bytes[0], calls[r.id].bytes[1..])
  }

  predicate ControlFrom(calls: seq<Incoming>, r: Request) {
    Issued(calls, r) && calls[r.id].WriteFile? && AsksForRadio(calls[r.id].bytes)
  }

  predicate OpcodeFrom(calls: seq<Incoming>, r: Request, opcode: Byte) {
    ControlFrom(calls, r) && opcode == calls[r.id].bytes[1]
  }

  /** A callback that, once the packet is out of its hands, ends in success with info. */
  predicate SucceedsWith(calls: seq<Incoming>, r: Request, info: nat) {
    Issued(calls, r) && Allows(calls[r.id], Plain(r, Success, info))
  }

  predicate Holds(t: Thread, calls: seq<Incoming>) {
    match t
    case ClientRead(r) => Issued(calls, r) && calls[r.id].ReadFile?
    case StackRead(r, posted) => Issued(calls, r) && calls[r.id] == ReadHci(posted)
    case HasPacket(r, n) => MayGet(calls, r, n.packet)
    case ClientWrite(r, bytes) => Issued(calls, r) && calls[r.id] == WriteFile(bytes)
    case AwaitsAdmission(r, p) => WritesFrom(calls, r, p)
    case AwaitsDelivery(r, p) => WritesFrom(calls, r, p)
    case HoldsStackRead(r, p, read) => WritesFrom(calls, r, p) && MayGet(calls, read, p) && calls[read.id].ReadHci?
    case Control(r, opcode) => OpcodeFrom(calls, r, opcode)
    case AddsRadio(r, opcode, _) => OpcodeFrom(calls, r, opcode)
    case ForgetsRadio(r, _) => ControlFrom(calls, r)
    case Replies(r, opcode, _) => OpcodeFrom(calls, r, opcode)
    case StackWrite(r, input) => Issued(calls, r) && calls[r.id] == WriteHci(input)
    case AwaitsQueueing(r, p) => SucceedsWith(calls, r, |p.body|) && |p.body| <= 1025
    case HoldsClientRead(r, p, read, info) =>
      SucceedsWith(calls, r, info) && MayGet(calls, read, p) && calls[read.id].ReadFile?
    case Finishing(r, status, info) => Issued(calls, r) && Allows(calls[r.id], Plain(r, status, info))
    case _ => true
  }

  /** The reads parked on each queue. */
  predicate MayPark(calls: seq<Incoming>, r: Request, q: Which) {
    && Issued(calls, r)
    && match calls[r.id]
       case ReadFile(length) => q.UserQueue? && length >= 1026
       case ReadHci(posted) => TakesRead(posted) && q == if TypeFor(posted) == 2 then DataQueue else EventQueue
       case _ => false
  }

  ghost predicate AllMayPark(calls: seq<Incoming>, rs: seq<Request>, q: Which) {
    forall i :: 0 <= i < |rs| ==> MayPark(calls, rs[i], q)
  }

  ghost predicate ParkedWell(s: State, calls: seq<Incoming>) {
    && AllMayPark(calls, s.user.parked, UserQueue)
    && AllMayPark(calls, s.events.parked, EventQueue)
    && AllMayPark(calls, s.data.parked, DataQueue)
  }

  ghost predicate AllowsAll(calls: seq<Incoming>, ds: seq<Done>) {
    forall i :: 0 <= i < |ds| ==> Issued(calls, ds[i].r) && Allows(calls[ds[i].r.id], ds[i])
  }

  ghost predicate AllHold(ts: seq<Thread>, calls: seq<Incoming>) {
    forall i :: 0 <= i < |ts| ==> Holds(ts[i], calls)
  }

  /** A move's result is lawful. */
  ghost predicate Lawful(m: Moved, calls: seq<Incoming>) {
    ParkedWell(m.fdo, calls) && Holds(m.thread, calls) && AllowsAll(calls, m.done)
  }

  // ---------------------------------------------------------------------------
  // Regions keep the queues so
  // ---------------------------------------------------------------------------

  lemma QueueingParks(s: State, p: Packet, poolOk: bool, calls: seq<Incoming>)
    requires ParkedWell(s, calls)
    ensures ParkedWell(QueueToUser(s, p, poolOk).state, calls)
    ensures var h := QueueToUser(s, p, poolOk); h.taken.Some? ==> MayPark(calls, h.taken.value, UserQueue)
  {
    QueueToUserMeets(s, p, poolOk);
    hide QueueToUser, MayPark;
  }

  lemma DeliveryParks(s: State, p: Packet, poolOk: bool, calls: seq<Incoming>)
    requires ParkedWell(s, calls)
    ensures ParkedWell(DeliverToStack(s, p, poolOk).state, calls)
    ensures var d := DeliverToStack(s, p, poolOk).result;
            match d
            case HandTo(read) => MayPark(calls, read, if p.kind == H4_ACL then DataQueue else EventQueue)
            case Settled(status) => status.Success? || status.InsufficientResources?
  {
    DeliverToStackMeets(s, p, poolOk);
    DeliverySettles(s, p, poolOk);
    hide DeliverToStack, MayPark;
  }

  lemma DeliverySettles(s: State, p: Packet, poolOk: bool)
    ensures match DeliverToStack(s, p, poolOk).result
            case HandTo(_) => true
            case Settled(status) => status.Success? || status.InsufficientResources?
  {
  }

  lemma FitsItsType(p: Packet, acl: bool)
    requires Sizes.FitsStack(p, acl)
    ensures p.kind == Sizes.Kind(acl) && |p.body| <= (if p.kind == 2 then 1021 else 257)
  {
  }

  lemma ClientPostParks(s: State, r: Request, forwardOk: bool, calls: seq<Incoming>)
    requires ParkedWell(s, calls) && MayPark(calls, r, UserQueue) && Sizes.StateFits(s, false)
    ensures var p := PostClientRead(s, r, forwardOk);
            ParkedWell(p.state, calls) && (p.result.Got? ==> MayGet(calls, r, p.result.node.packet))
  {
    hide Issued;
  }

  lemma StackPostParks(s: State, acl: bool, r: Request, forwardOk: bool, calls: seq<Incoming>)
    requires ParkedWell(s, calls) && MayPark(calls, r, if acl then DataQueue else EventQueue)
    requires Sizes.StateFits(s, false)
    ensures var p := PostStackRead(s, acl, r, forwardOk);
            ParkedWell(p.state, calls) && (p.result.Got? ==> MayGet(calls, r, p.result.node.packet))
  {
    var c := StackChannel(s, acl);
    assert Sizes.StackChannelFits(c, acl, false);
    if c.backlog != [] {
      assert Sizes.FitsStack(c.backlog[0].packet, acl);
      FitsItsType(c.backlog[0].packet, acl);
    }
    hide Issued, Sizes.StateFits, Sizes.StackChannelFits;
  }

  lemma CancelParks(c: Channel, k: nat, calls: seq<Incoming>, q: Which)
    requires AllMayPark(calls, c.parked, q) && k < |c.parked|
    ensures AllMayPark(calls, CancelRead(c, k).parked, q)
  {
  }

  // ---------------------------------------------------------------------------
  // Moves
  // ---------------------------------------------------------------------------

  lemma PostedIsLawful(r: Request, p: Posted, failure: Failure, calls: seq<Incoming>)
    requires ParkedWell(p.state, calls) && (p.result.Got? ==> MayGet(calls, r, p.result.node.packet))
    requires Issued(calls, r) && AllowsNoPacket(calls[r.id], failure)
    requires !calls[r.id].WriteFile? && !calls[r.id].WriteHci?
    ensures Lawful(AfterPost(r, p, failure), calls)
  {
    hide ParkedWell, MayGet, Issued, AllowsNoPacket;
  }

  lemma ClientReadIsLawful(s: State, t: Thread, a: Answer, calls: seq<Incoming>)
    requires t.ClientRead? && Holds(t, calls) && ParkedWell(s, calls) && Sizes.StateFits(s, false)
    ensures Lawful(Move(s, t, a), calls)
  {
    if t.r.room >= MAX_H4_PACKET {
      ClientPostParks(s, t.r, a.forwardOk, calls);
      PostedIsLawful(t.r, PostClientRead(s, t.r, a.forwardOk), a.failure, calls);
    }
    hide Lawful, PostClientRead, AfterPost, Sizes.StateFits;
    if t.r.room < MAX_H4_PACKET {
      ShortReadIsLawful(s, t.r, calls);
    }
  }

  lemma ShortReadIsLawful(s: State, r: Request, calls: seq<Incoming>)
    requires Issued(calls, r) && calls[r.id].ReadFile? && r.room < MAX_H4_PACKET && ParkedWell(s, calls)
    ensures Lawful(Moved(s, Finishing(r, BufferTooSmall, 0), []), calls)
  {
    hide ParkedWell;
  }

  lemma StackReadIsLawful(s: State, t: Thread, a: Answer, calls: seq<Incoming>)
    requires t.StackRead? && Holds(t, calls) && ParkedWell(s, calls) && Sizes.StateFits(s, false)
    ensures Lawful(Move(s, t, a), calls)
  {
    StackReadsAreClassified(t.posted);
    match ClassifyStackRead(t.posted)
    case RefuseRead(status) =>
      hide ParkedWell, ClassifyStackRead;
    case Route(acl) =>
      StackPostParks(s, acl, t.r, a.forwardOk, calls);
      PostedIsLawful(t.r, PostStackRead(s, acl, t.r, a.forwardOk), a.failure, calls);
      hide Lawful, PostStackRead, AfterPost, Sizes.StateFits, ClassifyStackRead;
  }

  lemma ShowsClientPacket(calls: seq<Incoming>, r: Request, p: Packet)
    requires MayGet(calls, r, p) && calls[r.id].ReadFile?
    ensures Allows(calls[r.id], CompleteRead(r, p))
  {
  }

  lemma ShowsStackPacket(calls: seq<Incoming>, r: Request, p: Packet)
    requires MayGet(calls, r, p) && calls[r.id].ReadHci?
    ensures Allows(calls[r.id], CompleteRead(r, p))
    ensures CompleteRead(r, p).status.Success? || CompleteRead(r, p).status.BufferTooSmall?
  {
    assert Wrap(|p.body|) == |p.body|;
    assert StackBytes(p)[4] == p.kind;
    assert DataLength(StackBytes(p)) == |p.body|;
    hide DataLength, LittleEndian32, StackBytes;
    StackBytesLength(p);
  }

  lemma StackBytesLength(p: Packet)
    ensures |StackBytes(p)| == 5 + |p.body|
  {
  }

  lemma ShowsPacket(calls: seq<Incoming>, r: Request, p: Packet)
    requires MayGet(calls, r, p)
    ensures AllowsAll(calls, [CompleteRead(r, p)])
  {
    if calls[r.id].ReadFile? {
      ShowsClientPacket(calls, r, p);
    } else {
      ShowsStackPacket(calls, r, p);
    }
    hide Allows;
  }

  lemma HandedIsLawful(s: State, r: Request, p: Packet, read: Request, calls: seq<Incoming>)
    requires WritesFrom(calls, r, p) && MayGet(calls, read, p) && calls[read.id].ReadHci? && ParkedWell(s, calls)
    ensures var d := CompleteRead(read, p);
            Lawful(Moved(s, Finishing(r, d.status, if d.status.Success? then |p.body| + 1 else 0), [d]), calls)
  {
    ShowsPacket(calls, read, p);
    ShowsStackPacket(calls, read, p);
    hide ParkedWell, AllowsAll, CompleteRead, MayGet;
  }

  lemma CompletionIsLawful(s: State, t: Thread, a: Answer, calls: seq<Incoming>)
    requires t.HasPacket? || t.HoldsStackRead? || t.HoldsClientRead? || t.Finishing?
    requires Holds(t, calls) && ParkedWell(s, calls)
    ensures Lawful(Move(s, t, a), calls)
  {
    match t
    case HasPacket(r, n) =>
      ShowsPacket(calls, r, n.packet);
      hide ParkedWell, AllowsAll, CompleteRead;
    case HoldsClientRead(r, p, read, info) =>
      ShowsPacket(calls, read, p);
      hide ParkedWell, AllowsAll, CompleteRead;
    case HoldsStackRead(r, p, read) =>
      HandedIsLawful(s, r, p, read, calls);
      hide Lawful, CompleteRead, ParkedWell;
    case Finishing(_, _, _) =>
      hide ParkedWell;
  }

  lemma WriteDecisionIsLawful(s: State, t: Thread, a: Answer, calls: seq<Incoming>)
    requires t.ClientWrite? || t.StackWrite? || t.AwaitsAdmission?
    requires Holds(t, calls) && ParkedWell(s, calls)
    ensures Lawful(Move(s, t, a), calls)
  {
    match t
    case ClientWrite(_, bytes) =>
      WritesAreClassified(bytes);
      hide ParkedWell, ClassifyWrite;
    case StackWrite(_, input) =>
      WriteHcisAreClassified(input);
      AcceptedIsShort(input);
      hide ParkedWell, ClassifyStackWrite, AllowsWriteHci;
    case AwaitsAdmission(_, _) =>
      assert Admit(s).user == s.user && Admit(s).events == s.events && Admit(s).data == s.data;
      hide Admit, AllMayPark;
  }

  lemma AcceptedIsShort(input: Option<seq<Byte>>)
    ensures ClassifyStackWrite(input).Accept? ==> |ClassifyStackWrite(input).p.body| <= 1025
  {
  }

  lemma ControlIsLawful(s: State, t: Thread, a: Answer, calls: seq<Incoming>)
    requires t.Control? || t.AddsRadio? || t.ForgetsRadio?
    requires Holds(t, calls) && ParkedWell(s, calls)
    ensures Lawful(Move(s, t, a), calls)
  {
    var m := Move(s, t, a);
    assert m.fdo.user == s.user && m.fdo.events == s.events && m.fdo.data == s.data;
    hide AllMayPark, MakeRadioCurrent, ForgetRadio;
  }

  lemma DeliveryIsLawful(s: State, t: Thread, a: Answer, calls: seq<Incoming>)
    requires t.AwaitsDelivery? && Holds(t, calls) && ParkedWell(s, calls)
    ensures Lawful(Move(s, t, a), calls)
  {
    DeliveryParks(s, t.p, a.poolOk, calls);
    hide DeliverToStack, ParkedWell;
    DeliveredIsLawful(t.r, t.p, DeliverToStack(s, t.p, a.poolOk), calls);
    hide Lawful, AfterDelivery;
  }

  lemma DeliveredIsLawful(r: Request, p: Packet, d: Delivered, calls: seq<Incoming>)
    requires WritesFrom(calls, r, p) && ParkedWell(d.state, calls)
    requires match d.result
             case HandTo(read) => MayPark(calls, read, if p.kind == H4_ACL then DataQueue else EventQueue)
             case Settled(status) => status.Success? || status.InsufficientResources?
    ensures Lawful(AfterDelivery(r, p, d), calls)
  {
    hide ParkedWell;
  }

  lemma QueueingIsLawful(s: State, r: Request, p: Packet, info: nat, poolOk: bool, calls: seq<Incoming>)
    requires SucceedsWith(calls, r, info) && ParkedWell(s, calls) && |p.body| <= 1025
    ensures Lawful(AfterQueueing(r, p, info, QueueToUser(s, p, poolOk)), calls)
  {
    QueueingParks(s, p, poolOk, calls);
    hide QueueToUser, ParkedWell;
  }

  lemma OtherMovesAreLawful(s: State, t: Thread, a: Answer, calls: seq<Incoming>)
    requires t.Returned? || t.MustFree? || t.CleanupEvents? || t.CleanupData? || t.CleanupLists?
    requires Holds(t, calls) && ParkedWell(s, calls)
    ensures Lawful(Move(s, t, a), calls)
  {
    PurgesAreAllowed(calls, s.events.parked, EventQueue);
    PurgesAreAllowed(calls, s.data.parked, DataQueue);
  }

  lemma PurgesAreAllowed(calls: seq<Incoming>, rs: seq<Request>, q: Which)
    requires AllMayPark(calls, rs, q)
    ensures AllowsAll(calls, Purged(rs))
  {
    forall i | 0 <= i < |rs| ensures Issued(calls, rs[i]) && Allows(calls[rs[i].id], Plain(rs[i], Cancelled, 0)) {
      assert MayPark(calls, rs[i], q);
    }
  }

  lemma EveryMoveIsLawful(s: State, t: Thread, a: Answer, calls: seq<Incoming>)
    requires Holds(t, calls) && ParkedWell(s, calls) && Sizes.StateFits(s, false)
    ensures Lawful(Move(s, t, a), calls)
  {
    hide Lawful, QueueToUser, AfterQueueing, DeliverToStack, AfterDelivery, PostClientRead, PostStackRead;
    hide Sizes.StateFits, ParkedWell;
    match t
    case ClientRead(_) => ClientReadIsLawful(s, t, a, calls);
    case StackRead(_, _) => StackReadIsLawful(s, t, a, calls);
    case HasPacket(_, _) | HoldsStackRead(_, _, _) | HoldsClientRead(_, _, _, _) | Finishing(_, _, _) =>
      CompletionIsLawful(s, t, a, calls);
    case ClientWrite(_, _) | StackWrite(_, _) | AwaitsAdmission(_, _) => WriteDecisionIsLawful(s, t, a, calls);
    case Control(_, _) | AddsRadio(_, _, _) | ForgetsRadio(_, _) => ControlIsLawful(s, t, a, calls);
    case AwaitsDelivery(_, _) => DeliveryIsLawful(s, t, a, calls);
    case AwaitsQueueing(r, p) =>
      QueueingIsLawful(s, r, p, |p.body|, a.poolOk, calls);
    case Replies(r, opcode, id) =>
      QueueingIsLawful(s, r, ControlReplyPacket(opcode, id), 2, a.poolOk, calls);
    case _ => OtherMovesAreLawful(s, t, a, calls);
  }

  // ---------------------------------------------------------------------------
  // Steps and runs
  // ---------------------------------------------------------------------------

  ghost predicate AllLawful(s: System, calls: seq<Incoming>) {
    && |calls| == |s.issued|
    && ParkedWell(s.fdo, calls) && AllHold(s.threads, calls) && AllowsAll(calls, s.completed)
  }

  lemma GoIsLawful(s: System, i: nat, a: Answer, calls: seq<Incoming>)
    requires AllLawful(s, calls) && Enabled(s, Go(i, a)) && Sizes.StateFits(s.fdo, false)
    ensures AllLawful(Step(s, Go(i, a)), calls)
  {
    EveryMoveIsLawful(s.fdo, s.threads[i], a, calls);
    GoStep(s, i, a);
    hide Step, Move, Holds, Allows, Issued, ParkedWell, Sizes.StateFits;
  }

  lemma IssuedStays(calls: seq<Incoming>, more: seq<Incoming>, r: Request)
    requires Issued(calls, r)
    ensures Issued(calls + more, r) && (calls + more)[r.id] == calls[r.id]
  {
  }

  lemma HoldingStays(t: Thread, calls: seq<Incoming>, more: seq<Incoming>)
    requires Holds(t, calls)
    ensures Holds(t, calls + more)
  {
    hide Allows, AsksForRadio, CarriesPacket, TakesRead;
  }

  lemma ParkingStays(s: State, calls: seq<Incoming>, more: seq<Incoming>)
    requires ParkedWell(s, calls)
    ensures ParkedWell(s, calls + more)
  {
    forall r, q | MayPark(calls, r, q) ensures MayPark(calls + more, r, q) {
      IssuedStays(calls, more, r);
    }
    hide MayPark;
  }

  lemma NewCallHolds(s: System, a: Incoming, calls: seq<Incoming>)
    requires |calls| == |s.issued|
    ensures Holds(Starting(s, Issue(a)), calls + [a])
  {
    assert (calls + [a])[|calls|] == a;
  }

  lemma CallsExtend(s: System, calls: seq<Incoming>, more: seq<Incoming>)
    requires AllLawful(s, calls)
    ensures ParkedWell(s.fdo, calls + more) && AllHold(s.threads, calls + more) && AllowsAll(calls + more, s.completed)
  {
    ParkingStays(s.fdo, calls, more);
    forall i | 0 <= i < |s.threads| ensures Holds(s.threads[i], calls + more) {
      HoldingStays(s.threads[i], calls, more);
    }
    forall i | 0 <= i < |s.completed|
      ensures Issued(calls + more, s.completed[i].r)
      ensures Allows((calls + more)[s.completed[i].r.id], s.completed[i])
    {
      IssuedStays(calls, more, s.completed[i].r);
    }
  }

  lemma ArrivalIsLawful(s: System, l: Label, calls: seq<Incoming>)
    requires AllLawful(s, calls) && Enabled(s, l) && (l.Issue? || l.DeviceCleanup?)
    ensures AllLawful(Step(s, l), calls + CallBy(l))
  {
    ArrivalStep(s, l);
    CallsExtend(s, calls, CallBy(l));
    if l.Issue? {
      NewCallHolds(s, l.a, calls);
    } else {
      assert Holds(Starting(s, l), calls + CallBy(l));
    }
    hide Step, Starting, Holds, Allows, Issued, ParkedWell, AllowsAll;
  }

  lemma CancelIsLawful(s: System, q: Which, k: nat, calls: seq<Incoming>)
    requires AllLawful(s, calls) && Enabled(s, FrameworkCancels(q, k))
    ensures AllLawful(Step(s, FrameworkCancels(q, k)), calls)
  {
    var c := ChannelOf(s.fdo, q);
    assert AllMayPark(calls, c.parked, q);
    CancelParks(c, k, calls, q);
    assert MayPark(calls, c.parked[k], q);
    QuietSteps(s, FrameworkCancels(q, k));
    assert Step(s, FrameworkCancels(q, k)).fdo == WithChannel(s.fdo, q, CancelRead(c, k));
    assert Allows(calls[c.parked[k].id], Plain(c.parked[k], Cancelled, 0));
    hide AllMayPark, Holds, Allows, CancelRead;
  }

  lemma CloseIsLawful(s: System, calls: seq<Incoming>)
    requires AllLawful(s, calls) && Enabled(s, ContinueClose)
    ensures AllLawful(Step(s, ContinueClose), calls)
  {
    PurgesAreAllowed(calls, s.fdo.events.parked, EventQueue);
    PurgesAreAllowed(calls, s.fdo.data.parked, DataQueue);
    hide Holds, Allows, Issued, MayPark, Move;
    assert Step(s, ContinueClose) == CloseStep(s);
    hide Step;
    CloseStepIsLawful(s, calls);
  }

  lemma CloseStepIsLawful(s: System, calls: seq<Incoming>)
    requires AllLawful(s, calls)
    requires AllowsAll(calls, Purged(s.fdo.events.parked)) && AllowsAll(calls, Purged(s.fdo.data.parked))
    ensures AllLawful(CloseStep(s), calls)
  {
    hide Holds, Allows, Issued, MayPark, Purged;
  }

  lemma PnpIsLawful(s: System, l: Label, calls: seq<Incoming>)
    requires AllLawful(s, calls) && Enabled(s, l)
    requires !l.Go? && !l.Issue? && !l.DeviceCleanup? && !l.FrameworkCancels? && !l.ContinueClose?
    ensures AllLawful(Step(s, l), calls)
  {
    QuietSteps(s, l);
    hide Holds, Allows, Issued, MayPark;
  }

  lemma StepIsLawful(s: System, l: Label, calls: seq<Incoming>)
    requires AllLawful(s, calls) && Enabled(s, l) && Sizes.StateFits(s.fdo, false)
    ensures AllLawful(Step(s, l), calls + CallBy(l))
  {
    assert !l.Issue? ==> calls + CallBy(l) == calls;
    hide AllLawful, Step, Sizes.StateFits;
    match l
    case Go(i, a) => GoIsLawful(s, i, a, calls);
    case Issue(_) | DeviceCleanup => ArrivalIsLawful(s, l, calls);
    case FrameworkCancels(q, k) => CancelIsLawful(s, q, k, calls);
    case ContinueClose => CloseIsLawful(s, calls);
    case _ => PnpIsLawful(s, l, calls);
  }

  lemma {:induction false} RunsAreLawful(knob: ULong, labels: seq<Label>)
    requires Run(knob, labels).Some?
    ensures AllLawful(Run(knob, labels).value, Calls(labels))
  {
    if labels != [] {
      var before := labels[..|labels| - 1];
      RunsAreLawful(knob, before);
      Sizes.RunsFit(knob, before, false);
      StepIsLawful(Run(knob, before).value, labels[|labels| - 1], Calls(before));
    }
  }

  /** In every run, each completed request was issued by a call, once, and is answered
      as that call allows. */
  lemma EveryAnswerIsAllowed(knob: ULong, labels: seq<Label>, k: nat)
    requires Run(knob, labels).Some? && k < |Run(knob, labels).value.completed|
    ensures var d, calls := Run(knob, labels).value.completed[k], Calls(labels);
            d.r.id < |calls| && d.r == NewRequest(calls[d.r.id], d.r.id) && Allows(calls[d.r.id], d)
  {
    RunsAreLawful(knob, labels);
  }
}
