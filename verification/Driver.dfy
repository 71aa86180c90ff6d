/** The driver as a step system: any number of callbacks in flight, each with a
    program counter, interleaved with the framework, with PnP and with the one
    client handle. A step is one locked region or one completion outside the lock.

    Assumed of the environment: manual queues are FIFO, retrieving fails only on
    an empty or purged queue, forwarding may fail at any time, any parked read may
    be cancelled, a purge is atomic; the handle is exclusive, its close begins
    only after all its requests have completed and the next open comes after the
    close returned; a PDO enters and leaves D0 alternately, between its creation
    and its destruction, and is created only for an id that was reported. */
module Driver {
  import opened Hci
  import opened Rendezvous
  import opened Channels
  import opened Fdo

  // ---------------------------------------------------------------------------
  // Decisions made before any lock is taken
  // ---------------------------------------------------------------------------

  datatype WriteAction = Refuse(status: Status) | CreateRadio(opcode: Byte) | Send(p: Packet)

  /** WinVhciDispatchWrite and the argument checks of WinVhciHandleControl. */
  function ClassifyWrite(bytes: seq<Byte>): WriteAction {
    if |bytes| < 2 || |bytes| > MAX_H4_PACKET then Refuse(InvalidParameter)
    else
      var kind, body := bytes[0], bytes[1..];
      if kind == H4_VENDOR then ClassifyControl(body)
      else if kind == H4_EVENT || kind == H4_ACL then
        if |body| > BodyLimit(kind) then Refuse(InvalidParameter) else Send(Packet(kind, body))
      else if kind == H4_SCO || kind == H4_ISO then Refuse(NotSupported)
      else Refuse(InvalidParameter)
  }

  function BodyLimit(kind: Byte): nat {
    if kind == H4_ACL then MAX_ACL_TRANSFER_IN else MAX_EVENT_SIZE
  }

  /** Opcode bits 2 to 5 are reserved, bits 6 and 7 ask for quirks nobody has. */
  function ClassifyControl(body: seq<Byte>): WriteAction {
    if |body| != 1 then Refuse(InvalidParameter)
    else if body[0] / 4 % 16 != 0 then Refuse(InvalidParameter)
    else if body[0] / 64 != 0 then Refuse(NotSupported)
    else CreateRadio(body[0])
  }

  /** DataLen, the ULONG at the front of the BTHX context. */
  function DataLength(b: seq<Byte>): (n: ULong)
    requires |b| >= 4
  {
    b[0] as int + 0x100 * (b[1] as int) + 0x1_0000 * (b[2] as int) + 0x100_0000 * (b[3] as int)
  }

  datatype StackWriteAction = RefuseWrite(status: Status) | Accept(p: Packet)

  /** The WRITE_HCI arm: DataLen is held to the buffer it came in and to what a
      client can read back. input is the whole buffer, None when it is missing. */
  function ClassifyStackWrite(input: Option<seq<Byte>>): StackWriteAction {
    if input.None? || |input.value| < CONTEXT_HEADER_SIZE then RefuseWrite(InvalidParameter)
    else
      var b := input.value;
      var dataLen := DataLength(b);
      if dataLen > |b| - CONTEXT_HEADER_SIZE || dataLen > MAX_BODY then RefuseWrite(InvalidParameter)
      else Accept(Packet(b[4], b[CONTEXT_HEADER_SIZE..CONTEXT_HEADER_SIZE + dataLen]))
  }

  /** A READ_HCI as posted: the requested type word (None when the input is missing
      or short), the output length (None when the output is missing), and whether
      the two buffers lie side by side. */
  datatype StackReadInput = StackReadInput(requested: Option<ULong>, room: Option<nat>, adjacent: bool)

  datatype StackReadAction = RefuseRead(status: Status) | Route(acl: bool)

  function ClassifyStackRead(i: StackReadInput): StackReadAction {
    if i.requested.None? || i.room.None? || i.room.value < CONTEXT_HEADER_SIZE then
      RefuseRead(InvalidParameter)
    else if !i.adjacent then RefuseRead(InvalidDeviceRequest)
    else if i.requested.value == H4_EVENT then Route(false)
    else if i.requested.value == H4_ACL then Route(true)
    else Route(i.room.value - CONTEXT_HEADER_SIZE >= MAX_ACL_TRANSFER_IN)
  }

  // ---------------------------------------------------------------------------
  // Completions
  // ---------------------------------------------------------------------------

  /** A completed request: its status, what was written to its output buffer (only
      a read matched to a packet has any), and the Information value. */
  datatype Done =
    | WithPacket(r: Request, status: Status, output: seq<Byte>, info: nat)
    | Plain(r: Request, status: Status, info: nat)

  function ClientBytes(p: Packet): seq<Byte> {
    [p.kind] + p.body
  }

  /** The BTHX context: DataLen, a ULONG, then Type, then the body. */
  function StackBytes(p: Packet): seq<Byte> {
    LittleEndian32(Wrap(|p.body|)) + [p.kind] + p.body
  }

  /** Completing a ReadFile with a packet. */
  function CompleteClientRead(r: Request, p: Packet): Done {
    if r.room < |p.body| + 1 then WithPacket(r, BufferTooSmall, [], 0)
    else WithPacket(r, Success, ClientBytes(p), |p.body| + 1)
  }

  /** WinVhciCompleteRead. */
  function CompleteStackRead(r: Request, p: Packet): Done {
    if r.room < CONTEXT_HEADER_SIZE then WithPacket(r, InvalidParameter, [], 0)
    else if r.room - CONTEXT_HEADER_SIZE < |p.body| then WithPacket(r, BufferTooSmall, [], 0)
    else WithPacket(r, Success, StackBytes(p), CONTEXT_HEADER_SIZE + |p.body|)
  }

  function CompleteRead(r: Request, p: Packet): Done {
    if r.origin.FromClient? then CompleteClientRead(r, p) else CompleteStackRead(r, p)
  }

  // ---------------------------------------------------------------------------
  // Callbacks in flight
  // ---------------------------------------------------------------------------

  datatype Thread =
    | Returned
    | ClientRead(r: Request)
    | StackRead(r: Request, posted: StackReadInput)
    | HasPacket(r: Request, n: Node)                     // took n from a backlog; r not completed
    | MustFree(n: Node)                                  // read completed; n still allocated
    | ClientWrite(r: Request, bytes: seq<Byte>)
    | AwaitsAdmission(r: Request, p: Packet)
    | AwaitsDelivery(r: Request, p: Packet)              // admitted, not yet delivered
    | HoldsStackRead(r: Request, p: Packet, read: Request)
    | Control(r: Request, opcode: Byte)
    | AddsRadio(r: Request, opcode: Byte, id: ULong)
    | ForgetsRadio(r: Request, failure: Failure)
    | Replies(r: Request, opcode: Byte, id: ULong)
    | StackWrite(r: Request, input: Option<seq<Byte>>)
    | AwaitsQueueing(r: Request, p: Packet)
    | HoldsClientRead(r: Request, p: Packet, read: Request, info: nat)
    | Finishing(r: Request, status: Status, info: nat)   // completes its own request next
    | CleanupEvents
    | CleanupData
    | CleanupLists

  /** What the environment answers to whatever a step asks of it; failure is the
      status of the forward or AddRadio, if that is what fails. */
  datatype Answer = Answer(poolOk: bool, forwardOk: bool, addOk: bool, failure: Failure)

  datatype Moved = Moved(fdo: State, thread: Thread, done: seq<Done>)

  /** The reply FF FF <opcode> <id_lo> <id_hi>. */
  function ControlReplyPacket(opcode: Byte, id: ULong): Packet {
    Packet(H4_VENDOR, [H4_VENDOR, opcode, id % 0x100, id / 0x100 % 0x100])
  }

  function AfterPost(r: Request, posted: Posted, failure: Failure): Moved {
    match posted.result
    case Got(n) => Moved(posted.state, HasPacket(r, n), [])
    case Waits => Moved(posted.state, Returned, [])
    case Refused => Moved(posted.state, Finishing(r, failure, 0), [])
  }

  function AfterQueueing(r: Request, p: Packet, info: nat, h: Handing): Moved {
    match h.taken
    case Some(read) => Moved(h.state, HoldsClientRead(r, p, read, info), [])
    case None => Moved(h.state, Finishing(r, Success, info), [])
  }

  function AfterDelivery(r: Request, p: Packet, d: Delivered): Moved {
    match d.result
    case HandTo(read) => Moved(d.state, HoldsStackRead(r, p, read), [])
    case Settled(status) =>
      Moved(d.state, Finishing(r, status, if status.Success? then |p.body| + 1 else 0), [])
  }

  /** The next step of one callback. */
  function Move(s: State, t: Thread, a: Answer): Moved {
    match t
    case Returned => Moved(s, t, [])
    case ClientRead(r) =>
      if r.room < MAX_H4_PACKET then Moved(s, Finishing(r, BufferTooSmall, 0), [])
      else AfterPost(r, PostClientRead(s, r, a.forwardOk), a.failure)
    case StackRead(r, posted) => (
      match ClassifyStackRead(posted)
      case RefuseRead(status) => Moved(s, Finishing(r, status, 0), [])
      case Route(acl) => AfterPost(r, PostStackRead(s, acl, r, a.forwardOk), a.failure))
    case HasPacket(r, n) => Moved(s, MustFree(n), [CompleteRead(r, n.packet)])
    case MustFree(n) => Moved(Freed(s, [n]), Returned, [])
    case ClientWrite(r, bytes) => (
      match ClassifyWrite(bytes)
      case Refuse(status) => Moved(s, Finishing(r, status, 0), [])
      case CreateRadio(opcode) => Moved(s, Control(r, opcode), [])
      case Send(p) => Moved(s, AwaitsAdmission(r, p), []))
    case AwaitsAdmission(r, p) =>
      Moved(Admit(s), if Admitted(s) then AwaitsDelivery(r, p) else Finishing(r, DeviceNotReady, 0), [])
    case AwaitsDelivery(r, p) => AfterDelivery(r, p, DeliverToStack(s, p, a.poolOk))
    case HoldsStackRead(r, p, read) =>
      var d := CompleteRead(read, p);
      Moved(s, Finishing(r, d.status, if d.status.Success? then |p.body| + 1 else 0), [d])
    case Control(r, opcode) =>
      if s.radioPresent then Moved(s, Finishing(r, InvalidDeviceState, 0), [])
      else Moved(MakeRadioCurrent(s), AddsRadio(r, opcode, s.nextRadioId), [])
    case AddsRadio(r, opcode, id) =>
      if a.addOk then Moved(s.(reported := s.reported + {id}), Replies(r, opcode, id), [])
      else Moved(s, ForgetsRadio(r, a.failure), [])
    case ForgetsRadio(r, failure) => Moved(ForgetRadio(s), Finishing(r, failure, 0), [])
    case Replies(r, opcode, id) =>
      var p := ControlReplyPacket(opcode, id);
      AfterQueueing(r, p, 2, QueueToUser(s, p, a.poolOk))
    case StackWrite(r, input) => (
      match ClassifyStackWrite(input)
      case RefuseWrite(status) => Moved(s, Finishing(r, status, 0), [])
      case Accept(p) => Moved(s, AwaitsQueueing(r, p), []))
    case AwaitsQueueing(r, p) => AfterQueueing(r, p, |p.body|, QueueToUser(s, p, a.poolOk))
    case HoldsClientRead(r, p, read, info) => Moved(s, Finishing(r, Success, info), [CompleteRead(read, p)])
    case Finishing(r, status, info) => Moved(s, Returned, [Plain(r, status, info)])
    case CleanupEvents => Moved(s.(events := PurgeQueue(s.events)), CleanupData, Purged(s.events.parked))
    case CleanupData => Moved(s.(data := PurgeQueue(s.data)), CleanupLists, Purged(s.data.parked))
    case CleanupLists => Moved(PurgeBacklogs(s), Returned, [])
  }

  /** The completions a queue purge makes: every parked read, cancelled. */
  function Purged(rs: seq<Request>): seq<Done> {
    seq(|rs|, i requires 0 <= i < |rs| => Plain(rs[i], Cancelled, 0))
  }

  // ---------------------------------------------------------------------------
  // The whole system
  // ---------------------------------------------------------------------------

  /** Where WinVhciEvtFileClose has got to. */
  datatype Handle = Closed | Open | PurgesEvents | PurgesData | StartsEvents | StartsData | PurgesLists

  datatype Pnp = Pnp(created: set<ULong>, destroyed: set<ULong>, inD0: set<ULong>, radiosAlive: int)

  datatype System = System(
    fdo: State,
    threads: seq<Thread>,
    handle: Handle,
    pnp: Pnp,
    issued: seq<Request>,    // every request issued so far; a request's id is its place here
    completed: seq<Done>,
    residue: nat)            // admitted writes in flight when RadioStarted was last cleared

  datatype Incoming =
    | ReadFile(length: nat)
    | WriteFile(bytes: seq<Byte>)
    | WriteHci(input: Option<seq<Byte>>)
    | ReadHci(posted: StackReadInput)

  datatype Label =
    | Issue(a: Incoming)
    | Go(i: nat, answer: Answer)
    | FrameworkCancels(q: Which, k: nat)
    | OpenHandle(file: nat)
    | BeginClose
    | ContinueClose
    | CreatePdo(id: ULong)
    | EnterD0(id: ULong)
    | ExitD0(id: ULong)
    | DestroyPdo(id: ULong)
    | DeviceCleanup

  function Start(failAllocOneIn: ULong): System {
    System(Initial(failAllocOneIn), [], Closed, Pnp({}, {}, {}, 0), [], [], 0)
  }

  function FromTheClient(a: Incoming): bool {
    a.ReadFile? || a.WriteFile?
  }

  function NewRequest(a: Incoming, id: nat): Request {
    match a
    case ReadFile(length) => Request(id, FromClient, length)
    case WriteFile(_) => Request(id, FromClient, 0)
    case WriteHci(_) => Request(id, FromStack, 0)
    case ReadHci(posted) => Request(id, FromStack, if posted.room.None? then 0 else posted.room.value)
  }

  function Callback(a: Incoming, r: Request): Thread {
    match a
    case ReadFile(_) => ClientRead(r)
    case WriteFile(bytes) => ClientWrite(r, bytes)
    case WriteHci(input) => StackWrite(r, input)
    case ReadHci(posted) => StackRead(r, posted)
  }

  /** The callback has not yet completed a request of the client's. */
  predicate ServesClient(t: Thread) {
    match t
    case ClientRead(_) | ClientWrite(_, _) | AwaitsAdmission(_, _) | AwaitsDelivery(_, _)
       | HoldsStackRead(_, _, _) | Control(_, _) | AddsRadio(_, _, _) | ForgetsRadio(_, _) | Replies(_, _, _) => true
    case HasPacket(r, _) => r.origin.FromClient?
    case HoldsClientRead(_, _, _, _) => true
    case Finishing(r, _, _) => r.origin.FromClient?
    case _ => false
  }

  predicate ClientIdle(s: System) {
    && s.fdo.user.parked == []
    && forall i :: 0 <= i < |s.threads| ==> !ServesClient(s.threads[i])
  }

  /** The sum of f over all callbacks. */
  function Tally(ts: seq<Thread>, f: Thread -> nat): nat {
    if ts == [] then 0 else Tally(ts[..|ts| - 1], f) + f(ts[|ts| - 1])
  }

  /** 1 for a write past the admission check and not yet through delivery. */
  function Undelivered(t: Thread): nat {
    if t.AwaitsDelivery? then 1 else 0
  }

  predicate Enabled(s: System, l: Label) {
    match l
    case Issue(a) => FromTheClient(a) ==> s.handle.Open?
    case Go(i, _) => i < |s.threads| && !s.threads[i].Returned?
    case FrameworkCancels(q, k) => k < |ChannelOf(s.fdo, q).parked|
    case OpenHandle(_) => s.handle.Closed?
    case BeginClose => s.handle.Open? && ClientIdle(s)
    case ContinueClose => !s.handle.Closed? && !s.handle.Open?
    case CreatePdo(id) => id in s.fdo.reported && id !in s.pnp.created
    case EnterD0(id) => id in s.pnp.created && id !in s.pnp.destroyed && id !in s.pnp.inD0
    case ExitD0(id) => id in s.pnp.inD0
    case DestroyPdo(id) => id in s.pnp.created && id !in s.pnp.destroyed && id !in s.pnp.inD0
    case DeviceCleanup => true
  }

  function CloseStep(s: System): System {
    var f := s.fdo;
    match s.handle
    case PurgesEvents =>
      s.(handle := PurgesData, fdo := f.(events := PurgeQueue(f.events)),
         completed := s.completed + Purged(f.events.parked))
    case PurgesData =>
      s.(handle := StartsEvents, fdo := f.(data := PurgeQueue(f.data)),
         completed := s.completed + Purged(f.data.parked))
    case StartsEvents => s.(handle := StartsData, fdo := f.(events := StartQueue(f.events)))
    case StartsData => s.(handle := PurgesLists, fdo := f.(data := StartQueue(f.data)))
    case PurgesLists => s.(handle := Closed, fdo := PurgeBacklogs(f))
    case _ => s
  }

  function Step(s: System, l: Label): System
    requires Enabled(s, l)
  {
    match l
    case Issue(a) =>
      var r := NewRequest(a, |s.issued|);
      s.(threads := s.threads + [Callback(a, r)], issued := s.issued + [r])
    case Go(i, answer) =>
      var m := Move(s.fdo, s.threads[i], answer);
      s.(fdo := m.fdo, threads := s.threads[i := m.thread], completed := s.completed + m.done)
    case FrameworkCancels(q, k) =>
      var c := ChannelOf(s.fdo, q);
      s.(fdo := WithChannel(s.fdo, q, CancelRead(c, k)),
         completed := s.completed + [Plain(c.parked[k], Cancelled, 0)])
    case OpenHandle(file) => s.(handle := Open, fdo := TakeOwnership(s.fdo, file))
    case BeginClose => s.(handle := PurgesEvents, fdo := ReleaseOwnership(s.fdo))
    case ContinueClose => CloseStep(s)
    case CreatePdo(id) =>
      s.(pnp := s.pnp.(created := s.pnp.created + {id}, radiosAlive := s.pnp.radiosAlive + 1))
    case EnterD0(id) =>
      s.(fdo := RadioEntersD0(s.fdo, id), pnp := s.pnp.(inD0 := s.pnp.inD0 + {id}))
    case ExitD0(id) =>
      s.(fdo := RadioLeavesD0(s.fdo, id), pnp := s.pnp.(inD0 := s.pnp.inD0 - {id}),
         residue := if id == s.fdo.currentRadioId then Tally(s.threads, Undelivered) else s.residue)
    case DestroyPdo(id) =>
      s.(pnp := s.pnp.(destroyed := s.pnp.destroyed + {id}, radiosAlive := s.pnp.radiosAlive - 1))
    case DeviceCleanup => s.(threads := s.threads + [CleanupEvents])
  }

  /** The state a run of labels leads to; None when some label was not enabled. */
  function Run(failAllocOneIn: ULong, labels: seq<Label>): Option<System> {
    if labels == [] then Some(Start(failAllocOneIn))
    else
      match Run(failAllocOneIn, labels[..|labels| - 1])
      case None => None
      case Some(s) =>
        var l := labels[|labels| - 1];
        if Enabled(s, l) then Some(Step(s, l)) else None
  }

  // ---------------------------------------------------------------------------
  // Every step changes the context by one region
  // ---------------------------------------------------------------------------

  function RegionOfMove(s: State, t: Thread, a: Answer): Region {
    match t
    case ClientRead(r) => if r.room < MAX_H4_PACKET then Nothing else PostsClientRead(r, a.forwardOk)
    case StackRead(r, posted) =>
      var action := ClassifyStackRead(posted);
      if action.Route? then PostsStackRead(action.acl, r, a.forwardOk) else Nothing
    case MustFree(n) => FreesPacket(n)
    case AwaitsAdmission(_, _) => Admits
    case AwaitsDelivery(_, p) => DeliversToStack(p, a.poolOk)
    case Control(_, _) => if s.radioPresent then Nothing else MakesRadioCurrent
    case AddsRadio(_, _, id) => if a.addOk then ReportsRadio(id) else Nothing
    case ForgetsRadio(_, _) => ForgetsTheRadio
    case Replies(_, opcode, id) => QueuesToUser(ControlReplyPacket(opcode, id), a.poolOk)
    case AwaitsQueueing(_, p) => QueuesToUser(p, a.poolOk)
    case CleanupEvents => PurgesQueue(EventQueue)
    case CleanupData => PurgesQueue(DataQueue)
    case CleanupLists => PurgesBacklogs
    case _ => Nothing
  }

  lemma MoveAppliesRegion(s: State, t: Thread, a: Answer)
    ensures Allowed(s, RegionOfMove(s, t, a))
    ensures Move(s, t, a).fdo == Apply(s, RegionOfMove(s, t, a))
  {
    hide QueueToUser, DeliverToStack, PostClientRead, PostStackRead, Admit, MakeRadioCurrent, PurgeBacklogs;
    hide CompleteRead, ClassifyWrite, ClassifyStackWrite, ClassifyStackRead, PurgeQueue, Purged, Freed;
  }

  function RegionOf(s: System, l: Label): Region
    requires Enabled(s, l)
  {
    match l
    case Go(i, answer) => RegionOfMove(s.fdo, s.threads[i], answer)
    case FrameworkCancels(q, k) => CancelsRead(q, k)
    case OpenHandle(file) => TakesOwnership(file)
    case BeginClose => ReleasesOwnership
    case ContinueClose => (
      match s.handle
      case PurgesEvents => PurgesQueue(EventQueue)
      case PurgesData => PurgesQueue(DataQueue)
      case StartsEvents => StartsQueue(EventQueue)
      case StartsData => StartsQueue(DataQueue)
      case _ => PurgesBacklogs)
    case EnterD0(id) => EntersD0(id)
    case ExitD0(id) => LeavesD0(id)
    case _ => Nothing
  }

  lemma StepAppliesRegion(s: System, l: Label)
    requires Enabled(s, l)
    ensures Allowed(s.fdo, RegionOf(s, l))
    ensures Step(s, l).fdo == Apply(s.fdo, RegionOf(s, l))
  {
    match l
    case Go(i, answer) => GoAppliesRegion(s, i, answer);
    case ContinueClose => CloseAppliesRegion(s);
    case _ => EventAppliesRegion(s, l);
  }

  lemma GoAppliesRegion(s: System, i: nat, a: Answer)
    requires Enabled(s, Go(i, a))
    ensures Allowed(s.fdo, RegionOf(s, Go(i, a)))
    ensures Step(s, Go(i, a)).fdo == Apply(s.fdo, RegionOf(s, Go(i, a)))
  {
    MoveAppliesRegion(s.fdo, s.threads[i], a);
    hide Move, RegionOfMove, Apply, Allowed;
  }

  lemma CloseAppliesRegion(s: System)
    requires Enabled(s, ContinueClose)
    ensures Allowed(s.fdo, RegionOf(s, ContinueClose))
    ensures Step(s, ContinueClose).fdo == Apply(s.fdo, RegionOf(s, ContinueClose))
  {
    hide QueueToUser, DeliverToStack, PostClientRead, PostStackRead, Admit, MakeRadioCurrent, Move, RegionOfMove;
    hide RadioEntersD0, RadioLeavesD0, CancelRead, Tally, PurgeBacklogs, PurgeQueue, StartQueue, Purged;
    assert Step(s, ContinueClose) == CloseStep(s);
    hide Step;
  }

  lemma EventAppliesRegion(s: System, l: Label)
    requires Enabled(s, l) && !l.Go? && !l.ContinueClose?
    ensures Allowed(s.fdo, RegionOf(s, l))
    ensures Step(s, l).fdo == Apply(s.fdo, RegionOf(s, l))
  {
    hide QueueToUser, DeliverToStack, PostClientRead, PostStackRead, Admit, MakeRadioCurrent, Move, RegionOfMove;
    hide RadioEntersD0, RadioLeavesD0, PurgeBacklogs, PurgeQueue, StartQueue, CancelRead, CloseStep, Tally;
  }

  lemma GoStep(s: System, i: nat, a: Answer)
    requires Enabled(s, Go(i, a))
    ensures var t, m := Step(s, Go(i, a)), Move(s.fdo, s.threads[i], a);
            && t.fdo == m.fdo && t.threads == s.threads[i := m.thread] && t.completed == s.completed + m.done
            && t.handle == s.handle && t.pnp == s.pnp && t.issued == s.issued && t.residue == s.residue
  {
    hide Move;
  }

  /** The callback that an arriving call or the device's cleanup starts. */
  function Starting(s: System, l: Label): Thread
    requires l.Issue? || l.DeviceCleanup?
  {
    if l.Issue? then Callback(l.a, NewRequest(l.a, |s.issued|)) else CleanupEvents
  }

  lemma ArrivalStep(s: System, l: Label)
    requires Enabled(s, l) && (l.Issue? || l.DeviceCleanup?)
    ensures var t := Step(s, l);
            && t.threads == s.threads + [Starting(s, l)] && t.fdo == s.fdo && t.completed == s.completed
            && t.handle == s.handle && t.pnp == s.pnp && t.residue == s.residue
            && t.issued == if l.Issue? then s.issued + [NewRequest(l.a, |s.issued|)] else s.issued
  {
  }

  /** Only callbacks, arrivals and device cleanup touch the callbacks in flight. */
  lemma QuietSteps(s: System, l: Label)
    requires Enabled(s, l) && !l.Go? && !l.Issue? && !l.DeviceCleanup?
    ensures Step(s, l).threads == s.threads && Step(s, l).issued == s.issued
  {
  }
}
