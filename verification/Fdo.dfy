/** The FDO context as a value, and one function for each region the driver runs
    under its lock. These functions are the specification that the methods of
    FdoContext implement and that the step system in Driver interleaves. */
module Fdo {
  import opened Hci
  import opened Rendezvous
  import opened Channels

  /** How one packet that reached a decision under the lock ended. */
  datatype Outcome =
    | ToClient | QueuedForClient | NoClient | ClientAllocFailed
    | ToStack | QueuedForStack | StackAllocFailed | NoRadio

  datatype LifeEvent = BecameCurrent(id: ULong) | EnteredD0(id: ULong) | LeftD0(id: ULong)

  /** What has happened so far. Nothing the driver decides depends on it. */
  datatype History = History(
    nextSerial: nat,         // packets allocated so far
    freed: seq<nat>,         // serials given back to the pool, in order
    attempts: nat,           // tries to allocate a packet
    injected: nat,           // tries the test knob failed
    outcomes: seq<Outcome>,
    life: seq<LifeEvent>,
    controls: nat)           // radio ids handed out

  datatype State = State(
    user: Channel,           // host -> controller
    events: Channel,         // controller -> host, events
    data: Channel,           // controller -> host, ACL
    owner: Option<nat>,
    radioPresent: bool,
    radioStarted: bool,
    currentRadioId: ULong,
    nextRadioId: ULong,
    reported: set<ULong>,    // radio ids ever reported to PnP as present
    dropsNoClient: ULong,
    dropsAllocFailed: ULong,
    writesTotal: ULong,
    queuedToUserTotal: ULong,
    writesNoRadio: ULong,
    failAllocOneIn: ULong,
    allocSeq: ULong,
    history: History)

  function Initial(failAllocOneIn: ULong): State {
    State(EMPTY_CHANNEL, EMPTY_CHANNEL, EMPTY_CHANNEL, None, false, false, 0, 1, {},
          0, 0, 0, 0, 0, failAllocOneIn, 0, History(0, [], 0, 0, [], [], 0))
  }

  function Ended(s: State, o: Outcome): State {
    s.(history := s.history.(outcomes := s.history.outcomes + [o]))
  }

  function Lived(s: State, e: LifeEvent): State {
    s.(history := s.history.(life := s.history.life + [e]))
  }

  // ---------------------------------------------------------------------------
  // Allocation
  // ---------------------------------------------------------------------------

  /** The test knob's verdict on the next allocation. */
  function InjectFailure(s: State): bool {
    s.failAllocOneIn != 0 && Wrap(s.allocSeq + 1) % s.failAllocOneIn == 0
  }

  /** One try to allocate. poolOk is what the real pool would answer. */
  function CountAttempt(s: State): State {
    s.(allocSeq := if s.failAllocOneIn == 0 then s.allocSeq else Wrap(s.allocSeq + 1),
       history := s.history.(attempts := s.history.attempts + 1,
                             injected := s.history.injected + if InjectFailure(s) then 1 else 0))
  }

  function AllocFails(s: State, poolOk: bool): bool {
    InjectFailure(s) || !poolOk
  }

  function CountAllocated(s: State): State {
    s.(history := s.history.(nextSerial := s.history.nextSerial + 1))
  }

  function Serials(ns: seq<Node>): seq<nat> {
    seq(|ns|, i requires 0 <= i < |ns| => ns[i].serial)
  }

  function Freed(s: State, ns: seq<Node>): State {
    s.(history := s.history.(freed := s.history.freed + Serials(ns)))
  }

  // ---------------------------------------------------------------------------
  // Stack -> client
  // ---------------------------------------------------------------------------

  datatype Handing = Handing(state: State, taken: Option<Request>)

  /** WinVhciQueueToUser, up to releasing the lock: drop for want of a client,
      take a waiting read, or queue. */
  function QueueToUser(s: State, p: Packet, poolOk: bool): Handing {
    if s.owner.None? then
      Handing(Ended(s.(dropsNoClient := Wrap(s.dropsNoClient + 1)), NoClient), None)
    else if WaitingRead(s.user).Some? then
      Handing(Ended(s.(user := HandOff(s.user, p)), ToClient), WaitingRead(s.user))
    else Handing(QueueForUser(s, p, poolOk), None)
  }

  /** Its branch in which no read is waiting. */
  function QueueForUser(s: State, p: Packet, poolOk: bool): State {
    var t := CountAttempt(s);
    if AllocFails(s, poolOk) then
      Ended(t.(dropsAllocFailed := Wrap(t.dropsAllocFailed + 1)), ClientAllocFailed)
    else
      var u := CountAllocated(t);
      Ended(u.(user := Append(u.user, Node(s.history.nextSerial, p)),
               queuedToUserTotal := Wrap(u.queuedToUserTotal + 1)), QueuedForClient)
  }

  datatype PostResult = Got(node: Node) | Waits | Refused
  datatype Posted = Posted(state: State, result: PostResult)

  /** The locked region of WinVhciEvtIoRead. */
  function PostClientRead(s: State, r: Request, forwardOk: bool): Posted {
    if s.user.backlog != [] then
      Posted(s.(user := TakeHead(s.user, r)), Got(s.user.backlog[0]))
    else if s.user.accepting && forwardOk then
      Posted(s.(user := Park(s.user, r)), Waits)
    else
      Posted(s, Refused)
  }

  // ---------------------------------------------------------------------------
  // Client -> stack
  // ---------------------------------------------------------------------------

  function StackChannel(s: State, acl: bool): Channel {
    if acl then s.data else s.events
  }

  function WithStackChannel(s: State, acl: bool, c: Channel): State {
    if acl then s.(data := c) else s.(events := c)
  }

  /** The locked region of WinVhciTakeOrParkForStack. */
  function PostStackRead(s: State, acl: bool, r: Request, forwardOk: bool): Posted {
    var c := StackChannel(s, acl);
    if c.backlog != [] then
      Posted(WithStackChannel(s, acl, TakeHead(c, r)), Got(c.backlog[0]))
    else if c.accepting && forwardOk then
      Posted(WithStackChannel(s, acl, Park(c, r)), Waits)
    else
      Posted(s, Refused)
  }

  /** The admission check of WinVhciDispatchWrite. */
  function Admitted(s: State): bool {
    s.radioPresent && s.radioStarted
  }

  function Admit(s: State): State {
    if Admitted(s) then s
    else Ended(s.(writesNoRadio := Wrap(s.writesNoRadio + 1)), NoRadio)
  }

  datatype Delivery = HandTo(r: Request) | Settled(status: Status)
  datatype Delivered = Delivered(state: State, result: Delivery)

  /** WinVhciDeliverToStack, up to releasing the lock. */
  function DeliverToStack(s: State, p: Packet, poolOk: bool): Delivered {
    var acl := p.kind == H4_ACL;
    var c := StackChannel(s, acl);
    if WaitingRead(c).Some? then
      var t := WithStackChannel(s, acl, HandOff(c, p));
      Delivered(Ended(t.(writesTotal := Wrap(t.writesTotal + 1)), ToStack), HandTo(WaitingRead(c).value))
    else QueueForStack(s, p, poolOk)
  }

  /** Its branch in which no read is waiting. */
  function QueueForStack(s: State, p: Packet, poolOk: bool): Delivered {
    var acl := p.kind == H4_ACL;
    var t := CountAttempt(s);
    if AllocFails(s, poolOk) then
      Delivered(Ended(t.(dropsAllocFailed := Wrap(t.dropsAllocFailed + 1)), StackAllocFailed),
                Settled(InsufficientResources))
    else
      var c := Append(StackChannel(s, acl), Node(s.history.nextSerial, p));
      var u := WithStackChannel(CountAllocated(t), acl, c);
      Delivered(Ended(u.(writesTotal := Wrap(u.writesTotal + 1)), QueuedForStack), Settled(Success))
  }

  // ---------------------------------------------------------------------------
  // Radio lifecycle
  // ---------------------------------------------------------------------------

  /** The control packet's region: refuse a second radio, else make a fresh id current. */
  function MakeRadioCurrent(s: State): State
    requires !s.radioPresent
  {
    var t := Lived(s, BecameCurrent(s.nextRadioId));
    t.(radioPresent := true,
       currentRadioId := s.nextRadioId,
       nextRadioId := Wrap(s.nextRadioId + 1),
       history := t.history.(controls := t.history.controls + 1))
  }

  /** AddRadio failed: the client has no radio after all. */
  function ForgetRadio(s: State): State {
    s.(radioPresent := false)
  }

  function RadioEntersD0(s: State, id: ULong): State {
    Lived(if id == s.currentRadioId then s.(radioStarted := true) else s, EnteredD0(id))
  }

  /** WinVhciRadioStackDown, called from D0Exit with the leaving radio's id. */
  function RadioLeavesD0(s: State, id: ULong): State {
    Lived(if id == s.currentRadioId then
            Freed(s.(radioStarted := false, events := FreeAll(s.events), data := FreeAll(s.data)),
                  s.events.backlog + s.data.backlog)
          else s, LeftD0(id))
  }

  // ---------------------------------------------------------------------------
  // Handle lifetime
  // ---------------------------------------------------------------------------

  function TakeOwnership(s: State, file: nat): State {
    s.(owner := Some(file))
  }

  function ReleaseOwnership(s: State): State {
    s.(owner := None, radioPresent := false)
  }

  /** WinVhciPurgeBacklogs. */
  function PurgeBacklogs(s: State): State {
    Freed(s.(user := FreeAll(s.user), events := FreeAll(s.events), data := FreeAll(s.data)),
          s.user.backlog + s.events.backlog + s.data.backlog)
  }

  // ---------------------------------------------------------------------------
  // What queueing and delivering do to the channels and to the pool
  // ---------------------------------------------------------------------------

  /** A packet met channel c: it was handed to the waiting read, put at the end of the
      backlog as allocation serial, or went nowhere. */
  predicate Met(c: Channel, c': Channel, p: Packet, taken: Option<Request>, serial: nat, serial': nat) {
    || (taken.Some? && WaitingRead(c) == taken && c' == HandOff(c, p) && serial' == serial)
    || (taken.None? && WaitingRead(c).None? && c' == Append(c, Node(serial, p)) && serial' == serial + 1)
    || (taken.None? && c' == c && serial' == serial)
  }

  lemma QueueForUserMeets(s: State, p: Packet, poolOk: bool)
    requires WaitingRead(s.user).None?
    ensures var t := QueueForUser(s, p, poolOk);
            && Met(s.user, t.user, p, None, s.history.nextSerial, t.history.nextSerial)
            && t.events == s.events && t.data == s.data && t.history.freed == s.history.freed
  {
    hide HandOff, Append, WaitingRead, AllocFails, InjectFailure;
  }

  lemma QueueToUserMeets(s: State, p: Packet, poolOk: bool)
    ensures var h := QueueToUser(s, p, poolOk);
            && Met(s.user, h.state.user, p, h.taken, s.history.nextSerial, h.state.history.nextSerial)
            && h.state.events == s.events && h.state.data == s.data
            && h.state.history.freed == s.history.freed
  {
    hide HandOff, Append, WaitingRead, QueueForUser;
    if WaitingRead(s.user).None? {
      QueueForUserMeets(s, p, poolOk);
    }
  }

  function HandedTo(d: Delivery): Option<Request> {
    if d.HandTo? then Some(d.r) else None
  }

  predicate StackMet(s: State, p: Packet, d: Delivered) {
    var acl := p.kind == H4_ACL;
    && Met(StackChannel(s, acl), StackChannel(d.state, acl), p, HandedTo(d.result), s.history.nextSerial,
           d.state.history.nextSerial)
    && StackChannel(d.state, !acl) == StackChannel(s, !acl) && d.state.user == s.user
    && d.state.history.freed == s.history.freed
  }

  lemma QueueForStackMeets(s: State, p: Packet, poolOk: bool)
    requires WaitingRead(StackChannel(s, p.kind == H4_ACL)).None?
    ensures StackMet(s, p, QueueForStack(s, p, poolOk))
  {
    hide HandOff, Append, WaitingRead, AllocFails, InjectFailure;
  }

  lemma DeliverToStackMeets(s: State, p: Packet, poolOk: bool)
    ensures StackMet(s, p, DeliverToStack(s, p, poolOk))
  {
    hide HandOff, Append, WaitingRead, QueueForStack;
    if WaitingRead(StackChannel(s, p.kind == H4_ACL)).None? {
      QueueForStackMeets(s, p, poolOk);
      hide StackMet;
    }
  }

  // ---------------------------------------------------------------------------
  // All of them
  // ---------------------------------------------------------------------------

  datatype Which = UserQueue | EventQueue | DataQueue

  function ChannelOf(s: State, q: Which): Channel {
    match q
    case UserQueue => s.user
    case EventQueue => s.events
    case DataQueue => s.data
  }

  function WithChannel(s: State, q: Which, c: Channel): State {
    match q
    case UserQueue => s.(user := c)
    case EventQueue => s.(events := c)
    case DataQueue => s.(data := c)
  }

  /** Everything that can change the context in one indivisible step. */
  datatype Region =
    | Nothing
    | QueuesToUser(p: Packet, poolOk: bool)
    | PostsClientRead(r: Request, forwardOk: bool)
    | PostsStackRead(acl: bool, r: Request, forwardOk: bool)
    | Admits
    | DeliversToStack(p: Packet, poolOk: bool)
    | MakesRadioCurrent
    | ReportsRadio(id: ULong)
    | ForgetsTheRadio
    | EntersD0(id: ULong)
    | LeavesD0(id: ULong)
    | TakesOwnership(file: nat)
    | ReleasesOwnership
    | PurgesBacklogs
    | FreesPacket(n: Node)
    | CancelsRead(q: Which, k: nat)
    | PurgesQueue(q: Which)
    | StartsQueue(q: Which)

  predicate Allowed(s: State, r: Region) {
    match r
    case MakesRadioCurrent => !s.radioPresent
    case CancelsRead(q, k) => k < |ChannelOf(s, q).parked|
    case _ => true
  }

  function Apply(s: State, r: Region): State
    requires Allowed(s, r)
  {
    match r
    case Nothing => s
    case QueuesToUser(p, poolOk) => QueueToUser(s, p, poolOk).state
    case PostsClientRead(q, forwardOk) => PostClientRead(s, q, forwardOk).state
    case PostsStackRead(acl, q, forwardOk) => PostStackRead(s, acl, q, forwardOk).state
    case Admits => Admit(s)
    case DeliversToStack(p, poolOk) => DeliverToStack(s, p, poolOk).state
    case MakesRadioCurrent => MakeRadioCurrent(s)
    case ReportsRadio(id) => s.(reported := s.reported + {id})
    case ForgetsTheRadio => ForgetRadio(s)
    case EntersD0(id) => RadioEntersD0(s, id)
    case LeavesD0(id) => RadioLeavesD0(s, id)
    case TakesOwnership(file) => TakeOwnership(s, file)
    case ReleasesOwnership => ReleaseOwnership(s)
    case PurgesBacklogs => PurgeBacklogs(s)
    case FreesPacket(n) => Freed(s, [n])
    case CancelsRead(q, k) => WithChannel(s, q, CancelRead(ChannelOf(s, q), k))
    case PurgesQueue(q) => WithChannel(s, q, PurgeQueue(ChannelOf(s, q)))
    case StartsQueue(q) => WithChannel(s, q, StartQueue(ChannelOf(s, q)))
  }

  /** What a region may add to a channel's history. */
  predicate MayLog(r: Region, e: Event) {
    match r
    case QueuesToUser(p, _) => e == Queued(p) || (e.Handed? && e.p == p)
    case DeliversToStack(p, _) => e == Queued(p) || (e.Handed? && e.p == p)
    case PostsClientRead(q, _) => e == Parked(q) || (e.Taken? && e.r == q)
    case PostsStackRead(_, q, _) => e == Parked(q) || (e.Taken? && e.r == q)
    case LeavesD0(_) | PurgesBacklogs => e.PacketsPurged?
    case CancelsRead(_, _) => e.ReadCancelled?
    case PurgesQueue(_) => e.ReadsPurged?
    case _ => false
  }

  /** What was added to a channel's history, if at most one event was. */
  function Added(before: seq<Event>, after: seq<Event>): seq<Event> {
    if |after| <= |before| then [] else [after[|after| - 1]]
  }

  predicate LogsAtMostOne(before: Channel, after: Channel, r: Region) {
    && after.log == before.log + Added(before.log, after.log)
    && (Added(before.log, after.log) != [] ==> MayLog(r, Added(before.log, after.log)[0]))
  }

  lemma LogsOne(before: Channel, after: Channel, r: Region, e: Event)
    requires after.log == before.log + [e] && MayLog(r, e)
    ensures LogsAtMostOne(before, after, r)
  {
  }

  lemma LogsNone(before: Channel, after: Channel, r: Region)
    requires after.log == before.log
    ensures LogsAtMostOne(before, after, r)
  {
  }

  lemma QueueToUserLogs(s: State, p: Packet, poolOk: bool, q: Which)
    ensures LogsAtMostOne(ChannelOf(s, q), ChannelOf(QueueToUser(s, p, poolOk).state, q), QueuesToUser(p, poolOk))
  {
    var c, c' := ChannelOf(s, q), ChannelOf(QueueToUser(s, p, poolOk).state, q);
    hide LogsAtMostOne;
    if c' == c {
      LogsNone(c, c', QueuesToUser(p, poolOk));
    } else if WaitingRead(s.user).Some? {
      LogsOne(c, c', QueuesToUser(p, poolOk), Handed(p, s.user.parked[0]));
    } else {
      LogsOne(c, c', QueuesToUser(p, poolOk), Queued(p));
    }
  }

  lemma DeliverToStackLogs(s: State, p: Packet, poolOk: bool, q: Which)
    ensures LogsAtMostOne(ChannelOf(s, q), ChannelOf(DeliverToStack(s, p, poolOk).state, q), DeliversToStack(p, poolOk))
  {
    var c, c' := ChannelOf(s, q), ChannelOf(DeliverToStack(s, p, poolOk).state, q);
    hide LogsAtMostOne;
    if c' == c {
      LogsNone(c, c', DeliversToStack(p, poolOk));
    } else if WaitingRead(c).Some? {
      LogsOne(c, c', DeliversToStack(p, poolOk), Handed(p, c.parked[0]));
    } else {
      LogsOne(c, c', DeliversToStack(p, poolOk), Queued(p));
    }
  }

  lemma ReadRegionLogs(s: State, r: Region, q: Which)
    requires r.PostsClientRead? || r.PostsStackRead?
    ensures LogsAtMostOne(ChannelOf(s, q), ChannelOf(Apply(s, r), q), r)
  {
    var c, c' := ChannelOf(s, q), ChannelOf(Apply(s, r), q);
    hide LogsAtMostOne, QueueToUser, DeliverToStack, Admit;
    if c' == c {
      LogsNone(c, c', r);
    } else if c.backlog != [] {
      LogsOne(c, c', r, Taken(c.backlog[0].packet, r.r));
    } else {
      LogsOne(c, c', r, Parked(r.r));
    }
  }

  lemma PurgeRegionLogs(s: State, r: Region, q: Which)
    requires Allowed(s, r) && (r.LeavesD0? || r.PurgesBacklogs? || r.CancelsRead? || r.PurgesQueue?)
    ensures LogsAtMostOne(ChannelOf(s, q), ChannelOf(Apply(s, r), q), r)
  {
    var c, c' := ChannelOf(s, q), ChannelOf(Apply(s, r), q);
    hide LogsAtMostOne, QueueToUser, DeliverToStack, PostClientRead, PostStackRead, Admit;
    if c' == c {
      LogsNone(c, c', r);
    } else {
      match r
      case LeavesD0(_) | PurgesBacklogs => LogsOne(c, c', r, PacketsPurged);
      case CancelsRead(_, k) => LogsOne(c, c', r, ReadCancelled(k, c.parked[k]));
      case PurgesQueue(_) => LogsOne(c, c', r, ReadsPurged);
    }
  }

  lemma PlainRegionLogs(s: State, r: Region, q: Which)
    requires Allowed(s, r)
    requires !r.QueuesToUser? && !r.DeliversToStack? && !r.PostsClientRead? && !r.PostsStackRead?
    requires !r.LeavesD0? && !r.PurgesBacklogs? && !r.CancelsRead? && !r.PurgesQueue?
    ensures LogsAtMostOne(ChannelOf(s, q), ChannelOf(Apply(s, r), q), r)
  {
    hide LogsAtMostOne, QueueToUser, DeliverToStack, PostClientRead, PostStackRead, PurgeBacklogs, RadioLeavesD0;
    LogsNone(ChannelOf(s, q), ChannelOf(Apply(s, r), q), r);
  }

  /** A region adds at most one event to a channel's history. */
  lemma RegionLogs(s: State, r: Region, q: Which)
    requires Allowed(s, r)
    ensures LogsAtMostOne(ChannelOf(s, q), ChannelOf(Apply(s, r), q), r)
  {
    hide LogsAtMostOne, QueueToUser, DeliverToStack;
    match r
    case QueuesToUser(p, poolOk) => QueueToUserLogs(s, p, poolOk, q);
    case DeliversToStack(p, poolOk) => DeliverToStackLogs(s, p, poolOk, q);
    case PostsClientRead(_, _) | PostsStackRead(_, _, _) => ReadRegionLogs(s, r, q);
    case LeavesD0(_) | PurgesBacklogs | CancelsRead(_, _) | PurgesQueue(_) => PurgeRegionLogs(s, r, q);
    case _ => PlainRegionLogs(s, r, q);
  }

  // ---------------------------------------------------------------------------
  // Statistics
  // ---------------------------------------------------------------------------

  datatype Stats = Stats(
    dropsNoClient: ULong, dropsAllocFailed: ULong,
    hostToCtrlCount: ULong, hostToCtrlPeak: ULong,
    pendingEventCount: ULong, pendingEventPeak: ULong,
    pendingDataCount: ULong, pendingDataPeak: ULong,
    writesTotal: ULong, queuedToUserTotal: ULong, writesNoRadio: ULong)

  function Snapshot(s: State): Stats {
    Stats(s.dropsNoClient, s.dropsAllocFailed,
          s.user.count, s.user.peak, s.events.count, s.events.peak, s.data.count, s.data.peak,
          s.writesTotal, s.queuedToUserTotal, s.writesNoRadio)
  }
}
