/** Writes over every run, from the bytes sent to the answer given: each write that
    carries a packet is on its way, accepted into a channel, or lost - never two of
    these - and its sender is told which. */
module WriteLedger {
  import opened Hci
  import opened Rendezvous
  import opened Channels
  import opened Fdo
  import opened Driver
  import opened Ledgers
  import opened Acceptance
  import Wire
  import RequestLedger

  // ---------------------------------------------------------------------------
  // Sent, on its way, lost
  // ---------------------------------------------------------------------------

  /** The packet a client's write carries, told from its bytes alone. */
  function ClientEntry(r: Request, bytes: seq<Byte>): Option<Entry> {
    match ClassifyWrite(bytes)
    case Send(p) => Some(Wrote(StackQueueFor(p), r, p))
    case _ => None
  }

  /** The packet a WRITE_HCI carries. */
  function StackEntry(r: Request, input: Option<seq<Byte>>): Option<Entry> {
    match ClassifyStackWrite(input)
    case Accept(p) => Some(Wrote(UserQueue, r, p))
    case _ => None
  }

  /** The write that arriving call a is, if it carries a packet. */
  function EntryOf(a: Incoming, r: Request): Option<Entry> {
    match a
    case WriteFile(bytes) => ClientEntry(r, bytes)
    case WriteHci(input) => StackEntry(r, input)
    case _ => None
  }

  function SentBy(s: System, l: Label): Option<Entry> {
    if l.Issue? then EntryOf(l.a, NewRequest(l.a, |s.issued|)) else None
  }

  /** The write a callback still has to bring to its end. */
  function OnItsWay(t: Thread): Option<Entry> {
    match t
    case ClientWrite(r, bytes) => ClientEntry(r, bytes)
    case AwaitsAdmission(r, p) => Some(Wrote(StackQueueFor(p), r, p))
    case AwaitsDelivery(r, p) => Some(Wrote(StackQueueFor(p), r, p))
    case StackWrite(r, input) => StackEntry(r, input)
    case AwaitsQueueing(r, p) => Some(Wrote(UserQueue, r, p))
    case _ => None
  }

  /** The write a callback's next step loses: refused for want of a radio, or with no
      memory or no client to queue it for. */
  function Loses(s: State, t: Thread, a: Answer): Option<Entry> {
    match t
    case AwaitsAdmission(r, p) => if Admitted(s) then None else Some(Wrote(StackQueueFor(p), r, p))
    case AwaitsDelivery(_, _) | AwaitsQueueing(_, _) =>
      if WhenSettled(s, Settling(t), a.poolOk).None? then Settling(t) else None
    case _ => None
  }

  function LostBy(s: System, l: Label): Option<Entry>
    requires Enabled(s, l)
  {
    if l.Go? then Loses(s.fdo, s.threads[l.i], l.answer) else None
  }

  /** The writes carrying a packet that a run has sent, and those it has lost. */
  function Sent(knob: ULong, labels: seq<Label>): seq<Entry>
    requires Run(knob, labels).Some?
  {
    if labels == [] then []
    else
      var before := labels[..|labels| - 1];
      Sent(knob, before) + Listed(SentBy(Run(knob, before).value, labels[|labels| - 1]))
  }

  function Lost(knob: ULong, labels: seq<Label>): seq<Entry>
    requires Run(knob, labels).Some?
  {
    if labels == [] then []
    else
      var before := labels[..|labels| - 1];
      Lost(knob, before) + Listed(LostBy(Run(knob, before).value, labels[|labels| - 1]))
  }

  function IsIt(o: Option<Entry>, e: Entry): nat {
    if o == Some(e) then 1 else 0
  }

  function Carrying(e: Entry): Thread -> nat {
    t => IsIt(OnItsWay(t), e)
  }

  lemma CountOneMore(es: seq<Entry>, o: Option<Entry>, e: Entry)
    ensures Count(es + Listed(o), e) == Count(es, e) + IsIt(o, e)
  {
    CountConcat(es, Listed(o), e);
    if o.Some? {
      CountOne(o.value, e);
    }
  }

  // ---------------------------------------------------------------------------
  // One step
  // ---------------------------------------------------------------------------

  lemma ClassifyingKeeps(s: State, t: Thread, a: Answer, e: Entry)
    requires t.ClientWrite? || t.StackWrite?
    ensures IsIt(OnItsWay(Move(s, t, a).thread), e) == IsIt(OnItsWay(t), e)
  {
  }

  lemma AdmissionKeeps(s: State, t: Thread, a: Answer, e: Entry)
    requires t.AwaitsAdmission?
    ensures IsIt(OnItsWay(t), e) == IsIt(OnItsWay(Move(s, t, a).thread), e) + IsIt(Loses(s, t, a), e)
  {
  }

  /** What a callback does once it has settled its packet carries no write. */
  lemma SettlingEnds(s: State, t: Thread, a: Answer)
    requires Settling(t).Some?
    ensures OnItsWay(Move(s, t, a).thread).None?
  {
    match t
    case AwaitsDelivery(r, p) => DeliveryEndsWay(r, p, DeliverToStack(s, p, a.poolOk));
    case AwaitsQueueing(r, p) => QueueingEndsWay(r, p, |p.body|, QueueToUser(s, p, a.poolOk));
    case Replies(r, opcode, id) =>
      var p := ControlReplyPacket(opcode, id);
      QueueingEndsWay(r, p, 2, QueueToUser(s, p, a.poolOk));
  }

  lemma DeliveryEndsWay(r: Request, p: Packet, d: Delivered)
    ensures OnItsWay(AfterDelivery(r, p, d).thread).None?
  {
  }

  lemma QueueingEndsWay(r: Request, p: Packet, info: nat, h: Handing)
    ensures OnItsWay(AfterQueueing(r, p, info, h).thread).None?
  {
  }

  lemma OtherMovesCarryNothing(s: State, t: Thread, a: Answer)
    requires Settling(t).None? && !t.ClientWrite? && !t.StackWrite? && !t.AwaitsAdmission?
    ensures OnItsWay(t).None? && OnItsWay(Move(s, t, a).thread).None? && Loses(s, t, a).None?
  {
  }

  lemma MoveKeepsWrite(s: State, t: Thread, a: Answer, e: Entry)
    requires e.Wrote?
    ensures IsIt(OnItsWay(t), e)
         == IsIt(OnItsWay(Move(s, t, a).thread), e) + IsIt(WhenSettled(s, Settling(t), a.poolOk), e)
            + IsIt(Loses(s, t, a), e)
  {
    match t
    case ClientWrite(_, _) | StackWrite(_, _) => ClassifyingKeeps(s, t, a, e);
    case AwaitsAdmission(_, _) => AdmissionKeeps(s, t, a, e);
    case AwaitsDelivery(_, _) | AwaitsQueueing(_, _) | Replies(_, _, _) => SettlingEnds(s, t, a);
    case _ => OtherMovesCarryNothing(s, t, a);
  }

  lemma ArrivalCarries(s: System, l: Label)
    requires l.Issue? || l.DeviceCleanup?
    ensures OnItsWay(Starting(s, l)) == SentBy(s, l)
  {
  }

  lemma ArrivalKeepsWrite(s: System, l: Label, e: Entry)
    requires Enabled(s, l) && (l.Issue? || l.DeviceCleanup?)
    ensures Tally(s.threads, Carrying(e)) + IsIt(SentBy(s, l), e) == Tally(Step(s, l).threads, Carrying(e))
  {
    ArrivalStep(s, l);
    ArrivalCarries(s, l);
    hide Step, Starting, OnItsWay, SentBy;
    TallyAppend(s.threads, Starting(s, l), Carrying(e));
  }

  lemma GoKeepsWrite(s: System, i: nat, a: Answer, e: Entry)
    requires Enabled(s, Go(i, a)) && e.Wrote?
    ensures var l := Go(i, a);
            Tally(s.threads, Carrying(e))
            == Tally(Step(s, l).threads, Carrying(e)) + IsIt(AcceptedBy(s, l), e) + IsIt(LostBy(s, l), e)
  {
    MoveKeepsWrite(s.fdo, s.threads[i], a, e);
    hide Move, OnItsWay, Loses, WhenSettled, Settling;
    TallyUpdate(s.threads, i, Move(s.fdo, s.threads[i], a).thread, Carrying(e));
  }

  /** A step keeps the sum of what is on its way and what has been settled. */
  lemma StepKeepsWrite(s: System, l: Label, e: Entry)
    requires Enabled(s, l) && e.Wrote?
    ensures Tally(s.threads, Carrying(e)) + IsIt(SentBy(s, l), e)
         == Tally(Step(s, l).threads, Carrying(e)) + IsIt(AcceptedBy(s, l), e) + IsIt(LostBy(s, l), e)
  {
    match l
    case Go(i, a) => GoKeepsWrite(s, i, a, e);
    case Issue(_) | DeviceCleanup => ArrivalKeepsWrite(s, l, e);
    case _ => QuietSteps(s, l);
  }

  // ---------------------------------------------------------------------------
  // Every run
  // ---------------------------------------------------------------------------

  /** The ledger of the input side: each write e a run has sent is on its way,
      accepted or lost, as often as it was sent. */
  lemma {:induction false} EveryWriteIsAccountedFor(knob: ULong, labels: seq<Label>, e: Entry)
    requires Run(knob, labels).Some? && e.Wrote?
    ensures Count(Sent(knob, labels), e)
         == Tally(Run(knob, labels).value.threads, Carrying(e))
            + Count(Accepted(knob, labels), e) + Count(Lost(knob, labels), e)
  {
    if labels != [] {
      var before := labels[..|labels| - 1];
      EveryWriteIsAccountedFor(knob, before, e);
      var s, l := Run(knob, before).value, labels[|labels| - 1];
      StepKeepsWrite(s, l, e);
      CountOneMore(Sent(knob, before), SentBy(s, l), e);
      CountOneMore(Accepted(knob, before), AcceptedBy(s, l), e);
      CountOneMore(Lost(knob, before), LostBy(s, l), e);
    }
  }

  /** A request is the write of one packet only, and of one sent once. */
  predicate OneEach(es: seq<Entry>, bound: nat) {
    && (forall i :: 0 <= i < |es| ==> es[i].Wrote? && es[i].r.id < bound)
    && (forall i, j :: 0 <= i < j < |es| ==> es[i].r != es[j].r)
  }

  lemma {:induction false} SentOnce(knob: ULong, labels: seq<Label>)
    requires Run(knob, labels).Some?
    ensures OneEach(Sent(knob, labels), |Run(knob, labels).value.issued|)
  {
    if labels != [] {
      var before := labels[..|labels| - 1];
      SentOnce(knob, before);
      var s, l := Run(knob, before).value, labels[|labels| - 1];
      OneMoreEach(Sent(knob, before), s, l);
    }
  }

  lemma OneMoreEach(es: seq<Entry>, s: System, l: Label)
    requires OneEach(es, |s.issued|) && Enabled(s, l)
    ensures OneEach(es + Listed(SentBy(s, l)), |Step(s, l).issued|)
  {
    if l.Issue? {
      NewIsLast(l.a, |s.issued|);
    } else {
      IssuedStays(s, l);
      assert es + Listed(None) == es;
    }
  }

  lemma NewIsLast(a: Incoming, id: nat)
    ensures NewRequest(a, id).id == id
    ensures var o := EntryOf(a, NewRequest(a, id)); o.Some? ==> o.value.Wrote? && o.value.r.id == id
  {
  }

  lemma IssuedStays(s: System, l: Label)
    requires Enabled(s, l) && !l.Issue?
    ensures Step(s, l).issued == s.issued
  {
  }

  /** A packet that was sent is the bytes its sender wrote: of the client's in their
      H4 layout, of the stack's in its context. */
  lemma SentAsWritten(a: Incoming, r: Request)
    requires EntryOf(a, r).Some?
    ensures var p := EntryOf(a, r).value.p;
            if a.WriteFile? then ClientBytes(p) == a.bytes
            else a.WriteHci? && a.input.Some? && StackBytes(p) <= a.input.value
  {
    if a.WriteFile? {
      Wire.ClientWritesKeepTheirBytes(a.bytes);
    } else {
      Wire.StackWritesKeepTheirBytes(a.input.value);
    }
  }

  // ---------------------------------------------------------------------------
  // The sender is told
  // ---------------------------------------------------------------------------

  /** The statuses that say a client's packet was not taken. */
  predicate SaysNotTaken(status: Status) {
    status.DeviceNotReady? || status.InsufficientResources?
  }

  /** 1 for a callback about to answer x so. */
  function IsTelling(t: Thread, x: Request): nat {
    match t
    case Finishing(r, status, _) => if r == x && SaysNotTaken(status) then 1 else 0
    case ForgetsRadio(r, failure) => if r == x && SaysNotTaken(failure) then 1 else 0
    case _ => 0
  }

  function Telling(x: Request): Thread -> nat {
    t => IsTelling(t, x)
  }

  function Tells(d: Done, x: Request): nat {
    if d.Plain? && d.r == x && SaysNotTaken(d.status) then 1 else 0
  }

  /** How often x has been completed with such a status. */
  function Told(ds: seq<Done>, x: Request): nat {
    if ds == [] then 0 else Told(ds[..|ds| - 1], x) + Tells(ds[|ds| - 1], x)
  }

  /** How many of the entries are client writes of x. */
  function ClientWritesOf(es: seq<Entry>, x: Request): nat {
    if es == [] then 0
    else ClientWritesOf(es[..|es| - 1], x) + IsClientWriteOf(es[|es| - 1], x)
  }

  function IsClientWriteOf(e: Entry, x: Request): nat {
    if e.Wrote? && !e.q.UserQueue? && e.r == x then 1 else 0
  }

  function LosesOf(o: Option<Entry>, x: Request): nat {
    if o.Some? then IsClientWriteOf(o.value, x) else 0
  }

  lemma ClientWritesOneMore(es: seq<Entry>, o: Option<Entry>, x: Request)
    ensures ClientWritesOf(es + Listed(o), x) == ClientWritesOf(es, x) + LosesOf(o, x)
  {
    if o.Some? {
      assert (es + Listed(o))[..|es|] == es;
    } else {
      assert es + Listed(o) == es;
    }
  }

  lemma {:induction false} ToldConcat(a: seq<Done>, b: seq<Done>, x: Request)
    ensures Told(a + b, x) == Told(a, x) + Told(b, x)
  {
    if b == [] {
      assert a + b == a;
    } else {
      assert (a + b)[..|a| + (|b| - 1)] == a + b[..|b| - 1];
      ToldConcat(a, b[..|b| - 1], x);
    }
  }

  lemma ToldOne(d: Done, x: Request)
    ensures Told([d], x) == Tells(d, x)
  {
    assert [d][..0] == [];
  }

  lemma {:induction false} CancelsTellNothing(rs: seq<Request>, x: Request)
    ensures Told(Purged(rs), x) == 0
  {
    if rs != [] {
      assert Purged(rs)[..|rs| - 1] == Purged(rs[..|rs| - 1]);
      CancelsTellNothing(rs[..|rs| - 1], x);
    }
  }

  /** The request a callback's next step fails with such a status of the framework's:
      a read it could not park, or a control packet whose radio it could not add. */
  function Fails(s: State, t: Thread, a: Answer): Option<Request> {
    if !SaysNotTaken(a.failure) then None
    else
      match t
      case ClientRead(r) =>
        if r.room >= MAX_H4_PACKET && PostClientRead(s, r, a.forwardOk).result.Refused? then Some(r) else None
      case StackRead(r, posted) =>
        var action := ClassifyStackRead(posted);
        if action.Route? && PostStackRead(s, action.acl, r, a.forwardOk).result.Refused? then Some(r) else None
      case AddsRadio(r, _, _) => if a.addOk then None else Some(r)
      case _ => None
  }

  function FailedBy(s: System, l: Label): Option<Request>
    requires Enabled(s, l)
  {
    if l.Go? then Fails(s.fdo, s.threads[l.i], l.answer) else None
  }

  function One<T>(o: Option<T>): seq<T> {
    if o.Some? then [o.value] else []
  }

  /** The requests the framework has failed so, in a run. */
  function FailedSo(knob: ULong, labels: seq<Label>): seq<Request>
    requires Run(knob, labels).Some?
  {
    if labels == [] then []
    else
      var before := labels[..|labels| - 1];
      FailedSo(knob, before) + One(FailedBy(Run(knob, before).value, labels[|labels| - 1]))
  }

  function IsOne(o: Option<Request>, x: Request): nat {
    if o == Some(x) then 1 else 0
  }

  lemma RequestsOneMore(rs: seq<Request>, o: Option<Request>, x: Request)
    ensures Count(rs + One(o), x) == Count(rs, x) + IsOne(o, x)
  {
    CountConcat(rs, One(o), x);
    if o.Some? {
      CountOne(o.value, x);
    }
  }

  /** A step answers so what it has lost, or what the framework has failed so. */
  predicate TellsTruly(s: State, t: Thread, a: Answer, x: Request) {
    var m := Move(s, t, a);
    IsTelling(m.thread, x) + Told(m.done, x)
    == IsTelling(t, x) + LosesOf(Loses(s, t, a), x) + IsOne(Fails(s, t, a), x)
  }

  lemma FinishingTells(s: State, t: Thread, a: Answer, x: Request)
    requires t.Finishing?
    ensures TellsTruly(s, t, a, x)
  {
    ToldOne(Plain(t.r, t.status, t.info), x);
  }

  lemma AdmissionTells(s: State, t: Thread, a: Answer, x: Request)
    requires t.AwaitsAdmission?
    ensures TellsTruly(s, t, a, x)
  {
  }

  lemma DeliveryTells(s: State, t: Thread, a: Answer, x: Request)
    requires t.AwaitsDelivery?
    ensures TellsTruly(s, t, a, x)
  {
    hide DeliverToStack, Accepts, WhenSettled, PacketsOn, Listed;
    SettledOrNot(s, Settling(t), a.poolOk);
    WriterIsTold(s, t.p, a.poolOk);
    MoveAccepts(s, t, a, StackQueueFor(t.p));
    OneOnChannel(Wrote(StackQueueFor(t.p), t.r, t.p), StackQueueFor(t.p));
    DeliverySettles(s, t.p, a.poolOk);
  }

  lemma SettledOrNot(s: State, o: Option<Entry>, poolOk: bool)
    ensures WhenSettled(s, o, poolOk).None? || WhenSettled(s, o, poolOk) == o
  {
  }

  lemma DeliverySettles(s: State, p: Packet, poolOk: bool)
    ensures var d := DeliverToStack(s, p, poolOk).result;
            d.HandTo? || d == Settled(Success) || d == Settled(InsufficientResources)
  {
  }

  lemma CompletionTells(s: State, t: Thread, a: Answer, x: Request)
    requires t.HasPacket? || t.HoldsStackRead? || t.HoldsClientRead?
    ensures TellsTruly(s, t, a, x)
  {
    ToldOne(Move(s, t, a).done[0], x);
  }

  lemma ReadTells(s: State, t: Thread, a: Answer, x: Request)
    requires t.ClientRead? || t.StackRead?
    ensures TellsTruly(s, t, a, x)
  {
  }

  lemma QueueingTells(s: State, t: Thread, a: Answer, x: Request)
    requires t.AwaitsQueueing? || t.Replies?
    ensures TellsTruly(s, t, a, x)
  {
  }

  lemma CleanupTells(s: State, t: Thread, a: Answer, x: Request)
    requires t.CleanupEvents? || t.CleanupData? || t.CleanupLists?
    ensures TellsTruly(s, t, a, x)
  {
    CancelsTellNothing(s.events.parked, x);
    CancelsTellNothing(s.data.parked, x);
  }

  lemma OtherMovesTellNothing(s: State, t: Thread, a: Answer, x: Request)
    requires t.Returned? || t.MustFree? || t.ClientWrite? || t.StackWrite? || t.Control?
    ensures TellsTruly(s, t, a, x)
  {
  }

  lemma RadioTells(s: State, t: Thread, a: Answer, x: Request)
    requires t.AddsRadio? || t.ForgetsRadio?
    ensures TellsTruly(s, t, a, x)
  {
  }

  lemma MoveTells(s: State, t: Thread, a: Answer, x: Request)
    ensures TellsTruly(s, t, a, x)
  {
    match t
    case Finishing(_, _, _) => FinishingTells(s, t, a, x);
    case AwaitsAdmission(_, _) => AdmissionTells(s, t, a, x);
    case AwaitsDelivery(_, _) => DeliveryTells(s, t, a, x);
    case HasPacket(_, _) | HoldsStackRead(_, _, _) | HoldsClientRead(_, _, _, _) => CompletionTells(s, t, a, x);
    case ClientRead(_) | StackRead(_, _) => ReadTells(s, t, a, x);
    case AwaitsQueueing(_, _) | Replies(_, _, _) => QueueingTells(s, t, a, x);
    case CleanupEvents | CleanupData | CleanupLists => CleanupTells(s, t, a, x);
    case AddsRadio(_, _, _) | ForgetsRadio(_, _) => RadioTells(s, t, a, x);
    case _ => OtherMovesTellNothing(s, t, a, x);
  }

  lemma GoTells(s: System, i: nat, a: Answer, x: Request)
    requires Enabled(s, Go(i, a))
    ensures var l := Go(i, a);
            var t := Step(s, l);
            Tally(t.threads, Telling(x)) + Told(t.completed, x)
            == Tally(s.threads, Telling(x)) + Told(s.completed, x) + LosesOf(LostBy(s, l), x) + IsOne(FailedBy(s, l), x)
  {
    var m := Move(s.fdo, s.threads[i], a);
    MoveTells(s.fdo, s.threads[i], a, x);
    hide Move, Loses, Fails;
    TallyUpdate(s.threads, i, m.thread, Telling(x));
    ToldConcat(s.completed, m.done, x);
  }

  /** Cancels and purges complete reads, and say nothing about writes. */
  lemma QuietStepTells(s: System, l: Label, x: Request)
    requires Enabled(s, l) && !l.Go?
    ensures Told(Step(s, l).completed, x) == Told(s.completed, x)
  {
    if l.ContinueClose? {
      CancelsTellNothing(s.fdo.events.parked, x);
      CancelsTellNothing(s.fdo.data.parked, x);
      ToldConcat(s.completed, Purged(s.fdo.events.parked), x);
      ToldConcat(s.completed, Purged(s.fdo.data.parked), x);
    } else if l.FrameworkCancels? {
      var d := Plain(ChannelOf(s.fdo, l.q).parked[l.k], Cancelled, 0);
      ToldOne(d, x);
      ToldConcat(s.completed, [d], x);
    }
  }

  lemma ArrivalTellsNothing(s: System, l: Label, x: Request)
    requires Enabled(s, l) && (l.Issue? || l.DeviceCleanup?)
    ensures Tally(Step(s, l).threads, Telling(x)) == Tally(s.threads, Telling(x))
  {
    ArrivalStep(s, l);
    assert IsTelling(Starting(s, l), x) == 0;
    hide Step, Starting, IsTelling;
    TallyAppend(s.threads, Starting(s, l), Telling(x));
  }

  lemma StepTells(s: System, l: Label, x: Request)
    requires Enabled(s, l)
    ensures var t := Step(s, l);
            Tally(t.threads, Telling(x)) + Told(t.completed, x)
            == Tally(s.threads, Telling(x)) + Told(s.completed, x) + LosesOf(LostBy(s, l), x) + IsOne(FailedBy(s, l), x)
  {
    match l
    case Go(i, a) => GoTells(s, i, a, x);
    case Issue(_) | DeviceCleanup =>
      ArrivalTellsNothing(s, l, x);
      QuietStepTells(s, l, x);
    case _ =>
      QuietSteps(s, l);
      QuietStepTells(s, l, x);
  }

  /** A request is answered that its packet was not taken - or is about to be - exactly
      as often as it lost one or the framework failed it with that status. */
  lemma {:induction false} LossesAreTold(knob: ULong, labels: seq<Label>, x: Request)
    requires Run(knob, labels).Some?
    ensures var s := Run(knob, labels).value;
            Tally(s.threads, Telling(x)) + Told(s.completed, x)
            == ClientWritesOf(Lost(knob, labels), x) + Count(FailedSo(knob, labels), x)
  {
    if labels != [] {
      var before := labels[..|labels| - 1];
      LossesAreTold(knob, before, x);
      var s, l := Run(knob, before).value, labels[|labels| - 1];
      StepTells(s, l, x);
      ClientWritesOneMore(Lost(knob, before), LostBy(s, l), x);
      RequestsOneMore(FailedSo(knob, before), FailedBy(s, l), x);
    }
  }

  // ---------------------------------------------------------------------------
  // The framework fails no write of a packet
  // ---------------------------------------------------------------------------

  /** 1 for a callback through which the framework may yet fail x. */
  function IsAtRisk(t: Thread, x: Request): nat {
    match t
    case ClientRead(r) => if r == x then 1 else 0
    case StackRead(r, _) => if r == x then 1 else 0
    case ClientWrite(r, bytes) => if r == x && ClassifyWrite(bytes).CreateRadio? then 1 else 0
    case Control(r, _) => if r == x then 1 else 0
    case AddsRadio(r, _, _) => if r == x then 1 else 0
    case _ => 0
  }

  function AtRisk(x: Request): Thread -> nat {
    t => IsAtRisk(t, x)
  }

  /** The request issued, if it is not the write of a packet. */
  function OtherBy(s: System, l: Label): Option<Request> {
    if l.Issue? && SentBy(s, l).None? then Some(NewRequest(l.a, |s.issued|)) else None
  }

  function Others(knob: ULong, labels: seq<Label>): seq<Request>
    requires Run(knob, labels).Some?
  {
    if labels == [] then []
    else
      var before := labels[..|labels| - 1];
      Others(knob, before) + One(OtherBy(Run(knob, before).value, labels[|labels| - 1]))
  }

  predicate LessAtRisk(s: State, t: Thread, a: Answer, x: Request) {
    IsAtRisk(Move(s, t, a).thread, x) + IsOne(Fails(s, t, a), x) <= IsAtRisk(t, x)
  }

  lemma PostedIsSafe(r: Request, p: Posted, failure: Failure, x: Request)
    ensures IsAtRisk(AfterPost(r, p, failure).thread, x) == 0
  {
  }

  lemma ReadIsLessAtRisk(s: State, t: Thread, a: Answer, x: Request)
    requires t.ClientRead? || t.StackRead?
    ensures LessAtRisk(s, t, a, x)
  {
    hide PostClientRead, PostStackRead, AfterPost, ClassifyStackRead;
    if t.ClientRead? {
      PostedIsSafe(t.r, PostClientRead(s, t.r, a.forwardOk), a.failure, x);
    } else if ClassifyStackRead(t.posted).Route? {
      PostedIsSafe(t.r, PostStackRead(s, ClassifyStackRead(t.posted).acl, t.r, a.forwardOk), a.failure, x);
    }
  }

  lemma SettlingIsSafe(s: State, t: Thread, a: Answer, x: Request)
    requires t.AwaitsDelivery? || t.AwaitsQueueing? || t.Replies?
    ensures LessAtRisk(s, t, a, x)
  {
    hide DeliverToStack, QueueToUser;
  }

  lemma OtherMovesAreLessAtRisk(s: State, t: Thread, a: Answer, x: Request)
    requires !t.ClientRead? && !t.StackRead? && !t.AwaitsDelivery? && !t.AwaitsQueueing? && !t.Replies?
    ensures LessAtRisk(s, t, a, x)
  {
    hide CompleteRead, PurgeQueue, PurgeBacklogs, Purged, Freed, Admit, MakeRadioCurrent, ClassifyStackWrite;
  }

  lemma MoveIsLessAtRisk(s: State, t: Thread, a: Answer, x: Request)
    ensures LessAtRisk(s, t, a, x)
  {
    match t
    case ClientRead(_) | StackRead(_, _) => ReadIsLessAtRisk(s, t, a, x);
    case AwaitsDelivery(_, _) | AwaitsQueueing(_, _) | Replies(_, _, _) => SettlingIsSafe(s, t, a, x);
    case _ => OtherMovesAreLessAtRisk(s, t, a, x);
  }

  lemma ArrivalRisks(s: System, l: Label, x: Request)
    requires Enabled(s, l) && (l.Issue? || l.DeviceCleanup?)
    ensures Tally(Step(s, l).threads, AtRisk(x)) <= Tally(s.threads, AtRisk(x)) + IsOne(OtherBy(s, l), x)
  {
    ArrivalStep(s, l);
    assert IsAtRisk(Starting(s, l), x) <= IsOne(OtherBy(s, l), x);
    hide Step, Starting, IsAtRisk, OtherBy;
    TallyAppend(s.threads, Starting(s, l), AtRisk(x));
  }

  lemma StepRisks(s: System, l: Label, x: Request)
    requires Enabled(s, l)
    ensures Tally(Step(s, l).threads, AtRisk(x)) + IsOne(FailedBy(s, l), x)
         <= Tally(s.threads, AtRisk(x)) + IsOne(OtherBy(s, l), x)
  {
    match l
    case Go(i, a) =>
      MoveIsLessAtRisk(s.fdo, s.threads[i], a, x);
      hide Move, Fails, IsAtRisk;
      TallyUpdate(s.threads, i, Move(s.fdo, s.threads[i], a).thread, AtRisk(x));
    case Issue(_) | DeviceCleanup => ArrivalRisks(s, l, x);
    case _ => QuietSteps(s, l);
  }

  /** Only a request that is not the write of a packet is failed so, and once. */
  lemma {:induction false} FailedAreOthers(knob: ULong, labels: seq<Label>, x: Request)
    requires Run(knob, labels).Some?
    ensures Count(FailedSo(knob, labels), x) + Tally(Run(knob, labels).value.threads, AtRisk(x))
         <= Count(Others(knob, labels), x)
  {
    if labels != [] {
      var before := labels[..|labels| - 1];
      FailedAreOthers(knob, before, x);
      var s, l := Run(knob, before).value, labels[|labels| - 1];
      StepRisks(s, l, x);
      RequestsOneMore(FailedSo(knob, before), FailedBy(s, l), x);
      RequestsOneMore(Others(knob, before), OtherBy(s, l), x);
    }
  }

  predicate Apart(es: seq<Entry>, others: seq<Request>, bound: nat) {
    && (forall i :: 0 <= i < |others| ==> others[i].id < bound)
    && (forall e :: e in es ==> e.r !in others)
  }

  lemma StayApart(es: seq<Entry>, others: seq<Request>, s: System, l: Label)
    requires OneEach(es, |s.issued|) && Apart(es, others, |s.issued|) && Enabled(s, l)
    ensures Apart(es + Listed(SentBy(s, l)), others + One(OtherBy(s, l)), |Step(s, l).issued|)
  {
    if l.Issue? {
      NewIsLast(l.a, |s.issued|);
    } else {
      IssuedStays(s, l);
      assert es + Listed(None) == es && others + [] == others;
    }
  }

  lemma {:induction false} OthersAreApart(knob: ULong, labels: seq<Label>)
    requires Run(knob, labels).Some?
    ensures Apart(Sent(knob, labels), Others(knob, labels), |Run(knob, labels).value.issued|)
  {
    if labels != [] {
      var before := labels[..|labels| - 1];
      OthersAreApart(knob, before);
      SentOnce(knob, before);
      StayApart(Sent(knob, before), Others(knob, before), Run(knob, before).value, labels[|labels| - 1]);
    }
  }

  /** So of the write of a packet the answer tells the truth: it is given, or about to
      be, exactly as often as the packet was lost. */
  lemma WritesAreToldOfLosses(knob: ULong, labels: seq<Label>, e: Entry)
    requires Run(knob, labels).Some? && e in Sent(knob, labels)
    ensures var s := Run(knob, labels).value;
            Tally(s.threads, Telling(e.r)) + Told(s.completed, e.r) == ClientWritesOf(Lost(knob, labels), e.r)
  {
    hide Run, Sent, Lost, Count, Told, ClientWritesOf, Tally, FailedSo, Others;
    LossesAreTold(knob, labels, e.r);
    FailedAreOthers(knob, labels, e.r);
    OthersAreApart(knob, labels);
    CountOnlyMembers(Others(knob, labels), e.r);
  }

  // ---------------------------------------------------------------------------
  // From the bytes to the answer
  // ---------------------------------------------------------------------------

  /** Both tallies look only at callbacks that hold the request. */
  lemma {:induction false} HeldByNone(ts: seq<Thread>, e: Entry)
    requires e.Wrote? && Tally(ts, RequestLedger.Holding(e.r)) == 0
    ensures Tally(ts, Carrying(e)) == 0 && Tally(ts, Telling(e.r)) == 0
  {
    if ts != [] {
      HeldByNone(ts[..|ts| - 1], e);
      HoldsItsOwn(ts[|ts| - 1], e);
    }
  }

  lemma HoldsItsOwn(t: Thread, e: Entry)
    requires e.Wrote? && RequestLedger.Holds(t, e.r) == 0
    ensures IsIt(OnItsWay(t), e) == 0 && IsTelling(t, e.r) == 0
  {
  }

  /** What was lost of a client's write is that write. */
  lemma {:induction false} OneWritePerRequest(es: seq<Entry>, sent: seq<Entry>, bound: nat, e: Entry)
    requires OneEach(sent, bound) && e in sent && e.Wrote? && !e.q.UserQueue?
    requires forall f :: f in es && f.Wrote? ==> f in sent
    ensures ClientWritesOf(es, e.r) == Count(es, e)
  {
    if es != [] {
      OneWritePerRequest(es[..|es| - 1], sent, bound, e);
      var f := es[|es| - 1];
      assert f in es;
      if f.Wrote? && f.r == e.r {
        SameWrite(sent, bound, e, f);
      }
    }
  }

  lemma SameWrite(sent: seq<Entry>, bound: nat, e: Entry, f: Entry)
    requires OneEach(sent, bound) && e in sent && f in sent && e.r == f.r
    ensures e == f
  {
    var i :| 0 <= i < |sent| && sent[i] == e;
    var j :| 0 <= j < |sent| && sent[j] == f;
    assert i == j;
  }

  lemma LostWereSent(knob: ULong, labels: seq<Label>, e: Entry)
    requires Run(knob, labels).Some? && e.Wrote? && e in Lost(knob, labels)
    ensures e in Sent(knob, labels)
  {
    EveryWriteIsAccountedFor(knob, labels, e);
    CountOnlyMembers(Lost(knob, labels), e);
    CountOnlyMembers(Sent(knob, labels), e);
  }

  lemma {:induction false} SentCountsOnce(es: seq<Entry>, bound: nat, e: Entry)
    requires OneEach(es, bound)
    ensures Count(es, e) == if e in es then 1 else 0
  {
    assert NoRepeats(es);
    NoRepeatsCount(es, e);
  }

  /** From end to end: once a client's write of a packet has been completed, either
      the packet - the bytes it wrote - was accepted into its channel, once, or its
      sender was told, once, that there was no radio or no memory for it. */
  lemma {:induction false} CompletedWritesWereToldTheTruth(knob: ULong, labels: seq<Label>, e: Entry)
    requires Run(knob, labels).Some? && e in Sent(knob, labels) && e.Wrote? && !e.q.UserQueue?
    requires e.r in RequestLedger.Requests(Run(knob, labels).value.completed)
    ensures Count(Accepted(knob, labels), e) + Told(Run(knob, labels).value.completed, e.r) == 1
  {
    var s := Run(knob, labels).value;
    hide Run, Sent, Accepted, Lost, Count, Told, ClientWritesOf, Tally, OneEach, RequestLedger.Requests;
    RequestLedger.EveryRequestIsInOnePlace(knob, labels, e.r);
    CountOnlyMembers(RequestLedger.Requests(s.completed), e.r);
    HeldByNone(s.threads, e);
    EveryWriteIsAccountedFor(knob, labels, e);
    SentOnce(knob, labels);
    SentCountsOnce(Sent(knob, labels), |s.issued|, e);
    WritesAreToldOfLosses(knob, labels, e);
    LossesAreTheWrite(knob, labels, e);
  }

  lemma {:induction false} LossesAreTheWrite(knob: ULong, labels: seq<Label>, e: Entry)
    requires Run(knob, labels).Some? && e in Sent(knob, labels) && e.Wrote? && !e.q.UserQueue?
    ensures ClientWritesOf(Lost(knob, labels), e.r) == Count(Lost(knob, labels), e)
  {
    hide Run, Sent, Lost, Count, ClientWritesOf, OneEach;
    SentOnce(knob, labels);
    forall f | f in Lost(knob, labels) && f.Wrote? ensures f in Sent(knob, labels) {
      LostWereSent(knob, labels, f);
    }
    OneWritePerRequest(Lost(knob, labels), Sent(knob, labels), |Run(knob, labels).value.issued|, e);
  }
}
