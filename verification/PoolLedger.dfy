/** Pool conservation over every run: each packet allocated is on exactly one
    backlog, in the hands of exactly one read, or freed - once. */
module PoolLedger {
  import opened Hci
  import opened Rendezvous
  import opened Channels
  import opened Fdo
  import opened Driver
  import opened Ledgers

  /** How many of xs are w; all of them when w is None. One balance therefore
      speaks both of a single allocation and of the totals. */
  function Weight(xs: seq<nat>, w: Option<nat>): nat {
    if w.None? then |xs| else Count(xs, w.value)
  }

  function IsIt(serial: nat, w: Option<nat>): nat {
    if w.None? || w.value == serial then 1 else 0
  }

  lemma WeightConcat(a: seq<nat>, b: seq<nat>, w: Option<nat>)
    ensures Weight(a + b, w) == Weight(a, w) + Weight(b, w)
  {
    if w.Some? {
      CountConcat(a, b, w.value);
    }
  }

  lemma WeightOne(serial: nat, w: Option<nat>)
    ensures Weight([serial], w) == IsIt(serial, w)
  {
    if w.Some? {
      CountOne(serial, w.value);
    }
  }

  function InHand(t: Thread, w: Option<nat>): nat {
    match t
    case HasPacket(_, n) => IsIt(n.serial, w)
    case MustFree(n) => IsIt(n.serial, w)
    case _ => 0
  }

  function Handling(w: Option<nat>): Thread -> nat {
    t => InHand(t, w)
  }

  function Listed(s: State, w: Option<nat>): nat {
    Weight(Serials(s.user.backlog), w) + Weight(Serials(s.events.backlog), w) + Weight(Serials(s.data.backlog), w)
  }

  /** On a backlog, or given back. */
  function Placed(s: State, w: Option<nat>): nat {
    Listed(s, w) + Weight(s.history.freed, w)
  }

  function Allocated(s: State, w: Option<nat>): nat {
    match w
    case None => s.history.nextSerial
    case Some(serial) => if serial < s.history.nextSerial then 1 else 0
  }

  lemma AppendPlaces(b: seq<Node>, n: Node, w: Option<nat>)
    ensures Weight(Serials(b + [n]), w) == Weight(Serials(b), w) + IsIt(n.serial, w)
  {
    assert Serials(b + [n]) == Serials(b) + [n.serial];
    WeightConcat(Serials(b), [n.serial], w);
    WeightOne(n.serial, w);
  }

  lemma HeadPlaces(b: seq<Node>, w: Option<nat>)
    requires b != []
    ensures Weight(Serials(b), w) == IsIt(b[0].serial, w) + Weight(Serials(b[1..]), w)
  {
    assert Serials(b) == [b[0].serial] + Serials(b[1..]);
    WeightConcat([b[0].serial], Serials(b[1..]), w);
    WeightOne(b[0].serial, w);
  }

  lemma ConcatPlaces(a: seq<Node>, b: seq<Node>, w: Option<nat>)
    ensures Weight(Serials(a + b), w) == Weight(Serials(a), w) + Weight(Serials(b), w)
    ensures Weight(Serials([]), w) == 0
  {
    assert Serials(a + b) == Serials(a) + Serials(b);
    WeightConcat(Serials(a), Serials(b), w);
  }

  // ---------------------------------------------------------------------------
  // Regions
  // ---------------------------------------------------------------------------

  /** A fresh allocation put at the end of one backlog. */
  lemma AppendedPlaces(s: State, t: State, q: Which, n: Node, w: Option<nat>)
    requires ChannelOf(t, q).backlog == ChannelOf(s, q).backlog + [n]
    requires q.UserQueue? || t.user.backlog == s.user.backlog
    requires q.EventQueue? || t.events.backlog == s.events.backlog
    requires q.DataQueue? || t.data.backlog == s.data.backlog
    requires t.history.freed == s.history.freed
    requires n.serial == s.history.nextSerial && t.history.nextSerial == s.history.nextSerial + 1
    ensures Placed(t, w) + Allocated(s, w) == Placed(s, w) + Allocated(t, w)
  {
    AppendPlaces(ChannelOf(s, q).backlog, n, w);
  }

  lemma SamePlaces(s: State, t: State, w: Option<nat>)
    requires t.user.backlog == s.user.backlog && t.events.backlog == s.events.backlog
    requires t.data.backlog == s.data.backlog
    requires t.history.freed == s.history.freed && t.history.nextSerial == s.history.nextSerial
    ensures Placed(t, w) == Placed(s, w) && Allocated(t, w) == Allocated(s, w)
  {
  }

  lemma QueueToUserPlaces(s: State, p: Packet, poolOk: bool, w: Option<nat>)
    ensures var t := QueueToUser(s, p, poolOk).state;
            Placed(t, w) + Allocated(s, w) == Placed(s, w) + Allocated(t, w)
  {
    var t := QueueToUser(s, p, poolOk).state;
    QueueToUserMeets(s, p, poolOk);
    hide Placed, Allocated, QueueToUser, WaitingRead;
    if t.user.backlog != s.user.backlog {
      AppendedPlaces(s, t, UserQueue, Node(s.history.nextSerial, p), w);
    } else {
      SamePlaces(s, t, w);
    }
  }

  lemma DeliverToStackPlaces(s: State, p: Packet, poolOk: bool, w: Option<nat>)
    ensures var t := DeliverToStack(s, p, poolOk).state;
            Placed(t, w) + Allocated(s, w) == Placed(s, w) + Allocated(t, w)
  {
    var t := DeliverToStack(s, p, poolOk).state;
    var q := if p.kind == H4_ACL then DataQueue else EventQueue;
    DeliverToStackMeets(s, p, poolOk);
    hide Placed, Allocated, DeliverToStack, WaitingRead;
    if ChannelOf(t, q).backlog != ChannelOf(s, q).backlog {
      AppendedPlaces(s, t, q, Node(s.history.nextSerial, p), w);
    } else {
      SamePlaces(s, t, w);
    }
  }

  function GotIt(p: PostResult, w: Option<nat>): nat {
    if p.Got? then IsIt(p.node.serial, w) else 0
  }

  lemma ClientPostPlaces(s: State, r: Request, forwardOk: bool, w: Option<nat>)
    ensures var p := PostClientRead(s, r, forwardOk);
            Placed(p.state, w) + GotIt(p.result, w) == Placed(s, w) && Allocated(p.state, w) == Allocated(s, w)
  {
    if s.user.backlog != [] {
      HeadPlaces(s.user.backlog, w);
    }
  }

  lemma StackPostPlaces(s: State, acl: bool, r: Request, forwardOk: bool, w: Option<nat>)
    ensures var p := PostStackRead(s, acl, r, forwardOk);
            Placed(p.state, w) + GotIt(p.result, w) == Placed(s, w) && Allocated(p.state, w) == Allocated(s, w)
  {
    if StackChannel(s, acl).backlog != [] {
      HeadPlaces(StackChannel(s, acl).backlog, w);
    }
  }

  lemma FreedPlaces(s: State, ns: seq<Node>, w: Option<nat>)
    ensures Placed(Freed(s, ns), w) == Placed(s, w) + Weight(Serials(ns), w)
    ensures Allocated(Freed(s, ns), w) == Allocated(s, w)
  {
    WeightConcat(s.history.freed, Serials(ns), w);
  }

  lemma PurgePlaces(s: State, w: Option<nat>)
    ensures Placed(PurgeBacklogs(s), w) == Placed(s, w) && Allocated(PurgeBacklogs(s), w) == Allocated(s, w)
  {
    var t := s.(user := FreeAll(s.user), events := FreeAll(s.events), data := FreeAll(s.data));
    FreedPlaces(t, s.user.backlog + s.events.backlog + s.data.backlog, w);
    ConcatPlaces(s.user.backlog + s.events.backlog, s.data.backlog, w);
    ConcatPlaces(s.user.backlog, s.events.backlog, w);
  }

  lemma RadioDownPlaces(s: State, id: ULong, w: Option<nat>)
    ensures Placed(RadioLeavesD0(s, id), w) == Placed(s, w) && Allocated(RadioLeavesD0(s, id), w) == Allocated(s, w)
  {
    var t := s.(radioStarted := false, events := FreeAll(s.events), data := FreeAll(s.data));
    FreedPlaces(t, s.events.backlog + s.data.backlog, w);
    ConcatPlaces(s.events.backlog, s.data.backlog, w);
  }

  // ---------------------------------------------------------------------------
  // Callbacks
  // ---------------------------------------------------------------------------

  /** One callback's step keeps the balance of allocation w. */
  predicate KeepsPacket(s: State, t: Thread, m: Moved, w: Option<nat>) {
    InHand(m.thread, w) + Placed(m.fdo, w) + Allocated(s, w) == InHand(t, w) + Placed(s, w) + Allocated(m.fdo, w)
  }

  lemma PostedKeeps(s: State, t: Thread, p: Posted, failure: Failure, w: Option<nat>)
    requires t.ClientRead? || t.StackRead?
    requires Placed(p.state, w) + GotIt(p.result, w) == Placed(s, w) && Allocated(p.state, w) == Allocated(s, w)
    ensures KeepsPacket(s, t, AfterPost(t.r, p, failure), w)
  {
  }

  lemma ClientReadKeeps(s: State, t: Thread, a: Answer, w: Option<nat>)
    requires t.ClientRead?
    ensures KeepsPacket(s, t, Move(s, t, a), w)
  {
    ClientPostPlaces(s, t.r, a.forwardOk, w);
    PostedKeeps(s, t, PostClientRead(s, t.r, a.forwardOk), a.failure, w);
  }

  lemma StackReadKeeps(s: State, t: Thread, a: Answer, w: Option<nat>)
    requires t.StackRead?
    ensures KeepsPacket(s, t, Move(s, t, a), w)
  {
    var action := ClassifyStackRead(t.posted);
    if action.Route? {
      StackPostPlaces(s, action.acl, t.r, a.forwardOk, w);
      PostedKeeps(s, t, PostStackRead(s, action.acl, t.r, a.forwardOk), a.failure, w);
    }
  }

  lemma QueueingKeeps(s: State, t: Thread, p: Packet, info: nat, poolOk: bool, w: Option<nat>)
    requires t.Replies? || t.AwaitsQueueing?
    ensures KeepsPacket(s, t, AfterQueueing(t.r, p, info, QueueToUser(s, p, poolOk)), w)
  {
    QueueToUserPlaces(s, p, poolOk, w);
  }

  lemma DeliveryKeeps(s: State, t: Thread, p: Packet, poolOk: bool, w: Option<nat>)
    requires t.AwaitsDelivery?
    ensures KeepsPacket(s, t, AfterDelivery(t.r, p, DeliverToStack(s, p, poolOk)), w)
  {
    DeliverToStackPlaces(s, p, poolOk, w);
  }

  lemma FreeingKeeps(s: State, t: Thread, a: Answer, w: Option<nat>)
    requires t.MustFree? || t.CleanupLists?
    ensures KeepsPacket(s, t, Move(s, t, a), w)
  {
    if t.MustFree? {
      FreedPlaces(s, [t.n], w);
      AppendPlaces([], t.n, w);
      assert [t.n] == [] + [t.n];
      ConcatPlaces([], [], w);
    } else {
      PurgePlaces(s, w);
    }
  }

  lemma OtherMovesKeep(s: State, t: Thread, a: Answer, w: Option<nat>)
    requires !t.ClientRead? && !t.StackRead? && !t.AwaitsDelivery? && !t.Replies? && !t.AwaitsQueueing?
          && !t.MustFree? && !t.CleanupLists?
    ensures KeepsPacket(s, t, Move(s, t, a), w)
  {
    hide Weight, Serials, CompleteRead, ClassifyWrite, ClassifyStackWrite;
  }

  lemma MoveKeepsPackets(s: State, t: Thread, a: Answer, w: Option<nat>)
    ensures KeepsPacket(s, t, Move(s, t, a), w)
  {
    hide KeepsPacket, QueueToUser, DeliverToStack, AfterDelivery, AfterQueueing, PostClientRead, PostStackRead;
    match t
    case ClientRead(_) => ClientReadKeeps(s, t, a, w);
    case StackRead(_, _) => StackReadKeeps(s, t, a, w);
    case AwaitsDelivery(_, p) => DeliveryKeeps(s, t, p, a.poolOk, w);
    case Replies(_, opcode, id) => QueueingKeeps(s, t, ControlReplyPacket(opcode, id), 2, a.poolOk, w);
    case AwaitsQueueing(_, p) => QueueingKeeps(s, t, p, |p.body|, a.poolOk, w);
    case MustFree(_) | CleanupLists => FreeingKeeps(s, t, a, w);
    case _ => OtherMovesKeep(s, t, a, w);
  }

  // ---------------------------------------------------------------------------
  // Steps and runs
  // ---------------------------------------------------------------------------

  ghost predicate Balanced(s: System, w: Option<nat>) {
    Tally(s.threads, Handling(w)) + Placed(s.fdo, w) == Allocated(s.fdo, w)
  }

  lemma GoBalances(s: System, i: nat, a: Answer, w: Option<nat>)
    requires Balanced(s, w) && i < |s.threads|
    ensures var m := Move(s.fdo, s.threads[i], a);
            Balanced(s.(fdo := m.fdo, threads := s.threads[i := m.thread], completed := s.completed + m.done), w)
  {
    MoveKeepsPackets(s.fdo, s.threads[i], a, w);
    TallyUpdate(s.threads, i, Move(s.fdo, s.threads[i], a).thread, Handling(w));
  }

  lemma CloseBalances(s: System, w: Option<nat>)
    requires Balanced(s, w)
    ensures Balanced(CloseStep(s), w)
  {
    if s.handle.PurgesLists? {
      PurgePlaces(s.fdo, w);
    } else {
      SamePlaces(s.fdo, CloseStep(s).fdo, w);
    }
  }

  /** A region that moves no packet. */
  lemma IdleRegionPlaces(s: State, r: Region, w: Option<nat>)
    requires Allowed(s, r)
    requires r.Nothing? || r.CancelsRead? || r.TakesOwnership? || r.ReleasesOwnership? || r.EntersD0?
    ensures Placed(Apply(s, r), w) == Placed(s, w) && Allocated(Apply(s, r), w) == Allocated(s, w)
  {
    hide QueueToUser, DeliverToStack, PostClientRead, PostStackRead, Weight, Serials;
    SamePlaces(s, Apply(s, r), w);
  }

  lemma PlainStepRegion(s: System, l: Label)
    requires Enabled(s, l)
    requires l.FrameworkCancels? || l.OpenHandle? || l.BeginClose? || l.CreatePdo? || l.EnterD0? || l.DestroyPdo?
    ensures var r := RegionOf(s, l);
            r.Nothing? || r.CancelsRead? || r.TakesOwnership? || r.ReleasesOwnership? || r.EntersD0?
  {
  }

  lemma PlainStepBalances(s: System, l: Label, w: Option<nat>)
    requires Balanced(s, w) && Enabled(s, l)
    requires l.FrameworkCancels? || l.OpenHandle? || l.BeginClose? || l.CreatePdo? || l.EnterD0? || l.DestroyPdo?
    ensures Balanced(Step(s, l), w)
  {
    StepAppliesRegion(s, l);
    PlainStepRegion(s, l);
    QuietSteps(s, l);
    hide Step, Apply, RegionOf, Placed, Allocated;
    IdleRegionPlaces(s.fdo, RegionOf(s, l), w);
  }

  lemma NewCallbackHasNothing(s: System, l: Label, w: Option<nat>)
    requires l.Issue? || l.DeviceCleanup?
    ensures InHand(Starting(s, l), w) == 0
  {
  }

  lemma ArrivalBalances(s: System, l: Label, w: Option<nat>)
    requires Balanced(s, w) && Enabled(s, l) && (l.Issue? || l.DeviceCleanup?)
    ensures Balanced(Step(s, l), w)
  {
    ArrivalStep(s, l);
    NewCallbackHasNothing(s, l, w);
    hide Step, Starting, InHand, Placed, Allocated;
    TallyAppend(s.threads, Starting(s, l), Handling(w));
  }

  lemma RadioExitBalances(s: System, id: ULong, w: Option<nat>)
    requires Balanced(s, w) && Enabled(s, ExitD0(id))
    ensures Balanced(Step(s, ExitD0(id)), w)
  {
    RadioDownPlaces(s.fdo, id, w);
    QuietSteps(s, ExitD0(id));
    StepAppliesRegion(s, ExitD0(id));
    hide Step, Placed, Allocated, RadioLeavesD0, QueueToUser, DeliverToStack;
  }

  lemma StepBalances(s: System, l: Label, w: Option<nat>)
    requires Balanced(s, w) && Enabled(s, l)
    ensures Balanced(Step(s, l), w)
  {
    hide Balanced;
    match l
    case Issue(_) | DeviceCleanup => ArrivalBalances(s, l, w);
    case Go(i, a) => GoBalances(s, i, a, w);
    case ContinueClose => CloseBalances(s, w);
    case ExitD0(id) => RadioExitBalances(s, id, w);
    case _ => PlainStepBalances(s, l, w);
  }

  lemma {:induction false} RunsBalance(knob: ULong, labels: seq<Label>, w: Option<nat>)
    requires Run(knob, labels).Some?
    ensures Balanced(Run(knob, labels).value, w)
  {
    if labels != [] {
      var before := labels[..|labels| - 1];
      RunsBalance(knob, before, w);
      StepBalances(Run(knob, before).value, labels[|labels| - 1], w);
    }
  }

  // ---------------------------------------------------------------------------
  // What every run guarantees
  // ---------------------------------------------------------------------------

  /** An allocated packet is in exactly one place: one backlog, one read's hands,
      or the pool it was given back to. One never allocated is nowhere. */
  lemma EveryPacketIsInOnePlace(knob: ULong, labels: seq<Label>, serial: nat)
    requires Run(knob, labels).Some?
    ensures var s := Run(knob, labels).value;
            Tally(s.threads, Handling(Some(serial)))
            + Count(Serials(s.fdo.user.backlog), serial)
            + Count(Serials(s.fdo.events.backlog), serial)
            + Count(Serials(s.fdo.data.backlog), serial)
            + Count(s.fdo.history.freed, serial)
            == if serial < s.fdo.history.nextSerial then 1 else 0
  {
    RunsBalance(knob, labels, Some(serial));
  }

  /** Allocations less frees are the three depths plus the packets in hand. */
  lemma {:induction false} OutstandingIsListedOrInHand(knob: ULong, labels: seq<Label>)
    requires Run(knob, labels).Some?
    ensures var s := Run(knob, labels).value;
            s.fdo.history.nextSerial - |s.fdo.history.freed|
            == |s.fdo.user.backlog| + |s.fdo.events.backlog| + |s.fdo.data.backlog|
               + Tally(s.threads, Handling(None))
  {
    RunsBalance(knob, labels, None);
  }

  /** No run frees a packet twice. */
  lemma {:induction false} NothingIsFreedTwice(knob: ULong, labels: seq<Label>)
    requires Run(knob, labels).Some?
    ensures NoRepeats(Run(knob, labels).value.fdo.history.freed)
  {
    var freed := Run(knob, labels).value.fdo.history.freed;
    forall i, j | 0 <= i < j < |freed| ensures freed[i] != freed[j] {
      RunsBalance(knob, labels, Some(freed[j]));
      CountPlace(freed, j, freed[j]);
      var rest := freed[..j] + freed[j + 1..];
      assert rest[i] == freed[i];
      CountPlace(rest, i, freed[j]);
    }
  }
}
