/** Request linearity over every run: each request issued to the driver is, at any
    moment, in exactly one place - held by one callback, parked on one queue, or
    completed - and so no request is ever completed twice or forgotten. */
module RequestLedger {
  import opened Hci
  import opened Rendezvous
  import opened Channels
  import opened Fdo
  import opened Driver
  import opened Ledgers

  /** How often a callback holds x: its own request until completed or parked, and
      any read it took off a queue to complete. */
  function Holds(t: Thread, x: Request): nat {
    match t
    case Returned | MustFree(_) | CleanupEvents | CleanupData | CleanupLists => 0
    case HoldsStackRead(r, _, read) => (if r == x then 1 else 0) + if read == x then 1 else 0
    case HoldsClientRead(r, _, read, _) => (if r == x then 1 else 0) + if read == x then 1 else 0
    case _ => if t.r == x then 1 else 0
  }

  function Holding(x: Request): Thread -> nat {
    t => Holds(t, x)
  }

  function ParkedCount(s: State, x: Request): nat {
    Count(s.user.parked, x) + Count(s.events.parked, x) + Count(s.data.parked, x)
  }

  function Requests(ds: seq<Done>): seq<Request> {
    seq(|ds|, i requires 0 <= i < |ds| => ds[i].r)
  }

  function IsSome(o: Option<Request>, x: Request): nat {
    if o == Some(x) then 1 else 0
  }

  lemma QueueToUserKeepsReads(s: State, p: Packet, poolOk: bool, x: Request)
    ensures var h := QueueToUser(s, p, poolOk);
            ParkedCount(h.state, x) + IsSome(h.taken, x) == ParkedCount(s, x)
  {
    QueueToUserMeets(s, p, poolOk);
    hide QueueToUser, Count;
    if WaitingRead(s.user).Some? {
      CountHead(s.user.parked, x);
    }
  }

  lemma DeliverToStackKeepsReads(s: State, p: Packet, poolOk: bool, x: Request)
    ensures var d := DeliverToStack(s, p, poolOk);
            ParkedCount(d.state, x) + (if d.result == HandTo(x) then 1 else 0) == ParkedCount(s, x)
  {
    var c := StackChannel(s, p.kind == H4_ACL);
    DeliverToStackMeets(s, p, poolOk);
    hide DeliverToStack, Count;
    if WaitingRead(c).Some? {
      CountHead(c.parked, x);
    }
  }

  lemma ClientPostKeepsReads(s: State, r: Request, forwardOk: bool, x: Request)
    ensures var p := PostClientRead(s, r, forwardOk);
            ParkedCount(p.state, x) == ParkedCount(s, x) + if p.result.Waits? && r == x then 1 else 0
  {
    CountConcat(s.user.parked, [r], x);
    CountOne(r, x);
  }

  lemma StackPostKeepsReads(s: State, acl: bool, r: Request, forwardOk: bool, x: Request)
    ensures var p := PostStackRead(s, acl, r, forwardOk);
            ParkedCount(p.state, x) == ParkedCount(s, x) + if p.result.Waits? && r == x then 1 else 0
  {
    CountConcat(StackChannel(s, acl).parked, [r], x);
    CountOne(r, x);
  }

  lemma DoneCounts(d: Done, rs: seq<Request>, x: Request)
    ensures Count(Requests([d]), x) == if d.r == x then 1 else 0
    ensures Count(Requests(Purged(rs)), x) == Count(rs, x)
  {
    assert Requests([d]) == [d.r];
    assert Requests(Purged(rs)) == rs;
  }

  /** One callback's step keeps the balance of request x. */
  predicate KeepsRequest(s: State, t: Thread, m: Moved, x: Request) {
    Holds(m.thread, x) + ParkedCount(m.fdo, x) + Count(Requests(m.done), x) == Holds(t, x) + ParkedCount(s, x)
  }

  lemma AfterPostKeeps(s: State, r: Request, p: Posted, failure: Failure, t: Thread, x: Request)
    requires ParkedCount(p.state, x) == ParkedCount(s, x) + if p.result.Waits? && r == x then 1 else 0
    requires Holds(t, x) == if r == x then 1 else 0
    ensures KeepsRequest(s, t, AfterPost(r, p, failure), x)
  {
  }

  lemma AfterQueueingKeeps(s: State, t: Thread, p: Packet, info: nat, poolOk: bool, x: Request)
    requires t.Replies? || t.AwaitsQueueing?
    ensures KeepsRequest(s, t, AfterQueueing(t.r, p, info, QueueToUser(s, p, poolOk)), x)
  {
    QueueToUserKeepsReads(s, p, poolOk, x);
  }

  lemma AfterDeliveryKeeps(s: State, t: Thread, p: Packet, poolOk: bool, x: Request)
    requires t.AwaitsDelivery?
    ensures KeepsRequest(s, t, AfterDelivery(t.r, p, DeliverToStack(s, p, poolOk)), x)
  {
    DeliverToStackKeepsReads(s, p, poolOk, x);
  }

  lemma ClientReadKeeps(s: State, t: Thread, a: Answer, x: Request)
    requires t.ClientRead?
    ensures KeepsRequest(s, t, Move(s, t, a), x)
  {
    ClientPostKeepsReads(s, t.r, a.forwardOk, x);
    AfterPostKeeps(s, t.r, PostClientRead(s, t.r, a.forwardOk), a.failure, t, x);
  }

  lemma StackReadKeeps(s: State, t: Thread, a: Answer, x: Request)
    requires t.StackRead?
    ensures KeepsRequest(s, t, Move(s, t, a), x)
  {
    var action := ClassifyStackRead(t.posted);
    if action.Route? {
      StackPostKeepsReads(s, action.acl, t.r, a.forwardOk, x);
      AfterPostKeeps(s, t.r, PostStackRead(s, action.acl, t.r, a.forwardOk), a.failure, t, x);
    }
  }

  lemma CompletionKeeps(s: State, t: Thread, a: Answer, x: Request)
    requires t.HasPacket? || t.HoldsStackRead? || t.HoldsClientRead? || t.Finishing?
    ensures KeepsRequest(s, t, Move(s, t, a), x)
  {
    hide Count, Requests, ParkedCount, CompleteRead;
    match t
    case HasPacket(r, n) => CompleteReadCounts(r, n.packet, x);
    case HoldsStackRead(_, p, read) => CompleteReadCounts(read, p, x);
    case HoldsClientRead(_, p, read, _) => CompleteReadCounts(read, p, x);
    case Finishing(r, status, info) => DoneCounts(Plain(r, status, info), [], x);
  }

  lemma CompleteReadCounts(r: Request, p: Packet, x: Request)
    ensures Count(Requests([CompleteRead(r, p)]), x) == if r == x then 1 else 0
  {
    DoneCounts(CompleteRead(r, p), [], x);
  }

  lemma PurgeKeepsReads(s: State, q: Which, x: Request)
    ensures var c := ChannelOf(s, q);
            ParkedCount(WithChannel(s, q, PurgeQueue(c)), x) + Count(Requests(Purged(c.parked)), x) == ParkedCount(s, x)
  {
    assert Requests(Purged(ChannelOf(s, q).parked)) == ChannelOf(s, q).parked;
  }

  lemma CleanupKeeps(s: State, t: Thread, a: Answer, x: Request)
    requires t.CleanupEvents? || t.CleanupData? || t.CleanupLists?
    ensures KeepsRequest(s, t, Move(s, t, a), x)
  {
    PurgeKeepsReads(s, EventQueue, x);
    PurgeKeepsReads(s, DataQueue, x);
  }

  lemma DecisionKeeps(s: State, t: Thread, a: Answer, x: Request)
    requires t.Returned? || t.MustFree? || t.Control? || t.AddsRadio? || t.ForgetsRadio?
    ensures KeepsRequest(s, t, Move(s, t, a), x)
  {
  }

  lemma WriteDecisionKeeps(s: State, t: Thread, a: Answer, x: Request)
    requires t.ClientWrite? || t.AwaitsAdmission? || t.StackWrite?
    ensures KeepsRequest(s, t, Move(s, t, a), x)
  {
    hide ClassifyWrite, ClassifyStackWrite, QueueToUser, DeliverToStack;
  }

  lemma MoveKeepsRequests(s: State, t: Thread, a: Answer, x: Request)
    ensures KeepsRequest(s, t, Move(s, t, a), x)
  {
    hide KeepsRequest, QueueToUser, DeliverToStack, AfterDelivery, AfterQueueing, PostClientRead, PostStackRead;
    match t
    case ClientRead(_) => ClientReadKeeps(s, t, a, x);
    case StackRead(_, _) => StackReadKeeps(s, t, a, x);
    case AwaitsDelivery(_, p) => AfterDeliveryKeeps(s, t, p, a.poolOk, x);
    case Replies(_, opcode, id) => AfterQueueingKeeps(s, t, ControlReplyPacket(opcode, id), 2, a.poolOk, x);
    case AwaitsQueueing(_, p) => AfterQueueingKeeps(s, t, p, |p.body|, a.poolOk, x);
    case CleanupEvents | CleanupData | CleanupLists => CleanupKeeps(s, t, a, x);
    case HasPacket(_, _) | HoldsStackRead(_, _, _) | HoldsClientRead(_, _, _, _) | Finishing(_, _, _) =>
      CompletionKeeps(s, t, a, x);
    case ClientWrite(_, _) | AwaitsAdmission(_, _) | StackWrite(_, _) => WriteDecisionKeeps(s, t, a, x);
    case _ => DecisionKeeps(s, t, a, x);
  }

  // ---------------------------------------------------------------------------
  // Steps and runs
  // ---------------------------------------------------------------------------

  ghost predicate Balanced(s: System, x: Request) {
    Tally(s.threads, Holding(x)) + ParkedCount(s.fdo, x) + Count(Requests(s.completed), x) == Count(s.issued, x)
  }

  lemma RequestsConcat(a: seq<Done>, b: seq<Done>, x: Request)
    ensures Count(Requests(a + b), x) == Count(Requests(a), x) + Count(Requests(b), x)
  {
    assert Requests(a + b) == Requests(a) + Requests(b);
    CountConcat(Requests(a), Requests(b), x);
  }

  lemma NewCallbackHoldsOwn(s: System, l: Label, x: Request)
    requires l.Issue? || l.DeviceCleanup?
    ensures Holds(Starting(s, l), x) == if l.Issue? && NewRequest(l.a, |s.issued|) == x then 1 else 0
  {
  }

  lemma ArrivalBalances(s: System, l: Label, x: Request)
    requires Balanced(s, x) && Enabled(s, l) && (l.Issue? || l.DeviceCleanup?)
    ensures Balanced(Step(s, l), x)
  {
    var t, added := Step(s, l), Starting(s, l);
    ArrivalStep(s, l);
    NewCallbackHoldsOwn(s, l, x);
    hide Step, Starting, Holds, ParkedCount, Tally, Count, Requests, NewRequest, Enabled;
    TallyAppend(s.threads, added, Holding(x));
    assert Tally(t.threads, Holding(x)) == Tally(s.threads, Holding(x)) + Holds(added, x);
    if l.Issue? {
      var r := NewRequest(l.a, |s.issued|);
      CountConcat(s.issued, [r], x);
      CountOne(r, x);
      assert Count(t.issued, x) == Count(s.issued, x) + Holds(added, x);
    } else {
      assert Holds(added, x) == 0;
    }
  }

  lemma GoBalances(s: System, i: nat, a: Answer, x: Request)
    requires Balanced(s, x) && i < |s.threads|
    ensures var m := Move(s.fdo, s.threads[i], a);
            Balanced(s.(fdo := m.fdo, threads := s.threads[i := m.thread], completed := s.completed + m.done), x)
  {
    var m := Move(s.fdo, s.threads[i], a);
    MoveKeepsRequests(s.fdo, s.threads[i], a, x);
    TallyUpdate(s.threads, i, m.thread, Holding(x));
    RequestsConcat(s.completed, m.done, x);
  }

  lemma CancelBalances(s: System, q: Which, k: nat, x: Request)
    requires Balanced(s, x) && k < |ChannelOf(s.fdo, q).parked|
    ensures var c := ChannelOf(s.fdo, q);
            Balanced(s.(fdo := WithChannel(s.fdo, q, CancelRead(c, k)),
                        completed := s.completed + [Plain(c.parked[k], Cancelled, 0)]), x)
  {
    var c := ChannelOf(s.fdo, q);
    CountPlace(c.parked, k, x);
    RequestsConcat(s.completed, [Plain(c.parked[k], Cancelled, 0)], x);
    DoneCounts(Plain(c.parked[k], Cancelled, 0), [], x);
  }

  lemma PurgeBalances(s: System, q: Which, h: Handle, x: Request)
    requires Balanced(s, x)
    ensures var c := ChannelOf(s.fdo, q);
            Balanced(s.(handle := h, fdo := WithChannel(s.fdo, q, PurgeQueue(c)),
                        completed := s.completed + Purged(c.parked)), x)
  {
    PurgeKeepsReads(s.fdo, q, x);
    RequestsConcat(s.completed, Purged(ChannelOf(s.fdo, q).parked), x);
  }

  lemma CloseBalances(s: System, x: Request)
    requires Balanced(s, x)
    ensures Balanced(CloseStep(s), x)
  {
    match s.handle
    case PurgesEvents => PurgeBalances(s, EventQueue, PurgesData, x);
    case PurgesData => PurgeBalances(s, DataQueue, StartsEvents, x);
    case _ =>
  }

  lemma RadioEventBalances(s: System, l: Label, x: Request)
    requires Balanced(s, x) && Enabled(s, l)
    requires l.OpenHandle? || l.BeginClose? || l.CreatePdo? || l.EnterD0? || l.ExitD0? || l.DestroyPdo?
    ensures Balanced(Step(s, l), x)
  {
    hide Count, Requests, Tally;
  }

  lemma StepBalances(s: System, l: Label, x: Request)
    requires Balanced(s, x) && Enabled(s, l)
    ensures Balanced(Step(s, l), x)
  {
    hide Balanced;
    match l
    case Issue(_) | DeviceCleanup => ArrivalBalances(s, l, x);
    case Go(i, a) => GoBalances(s, i, a, x);
    case FrameworkCancels(q, k) => CancelBalances(s, q, k, x);
    case ContinueClose => CloseBalances(s, x);
    case _ => RadioEventBalances(s, l, x);
  }

  lemma {:induction false} RunsBalance(knob: ULong, labels: seq<Label>, x: Request)
    requires Run(knob, labels).Some?
    ensures Balanced(Run(knob, labels).value, x)
  {
    if labels != [] {
      var before := labels[..|labels| - 1];
      RunsBalance(knob, before, x);
      StepBalances(Run(knob, before).value, labels[|labels| - 1], x);
    }
  }

  lemma {:induction false} IdsArePlaces(knob: ULong, labels: seq<Label>)
    requires Run(knob, labels).Some?
    ensures var issued := Run(knob, labels).value.issued;
            forall i :: 0 <= i < |issued| ==> issued[i].id == i
  {
    if labels != [] {
      IdsArePlaces(knob, labels[..|labels| - 1]);
    }
  }

  lemma IssuedAreDistinct(knob: ULong, labels: seq<Label>)
    requires Run(knob, labels).Some?
    ensures NoRepeats(Run(knob, labels).value.issued)
  {
    IdsArePlaces(knob, labels);
  }

  // ---------------------------------------------------------------------------
  // What every run guarantees
  // ---------------------------------------------------------------------------

  /** An issued request is in exactly one place; nothing else is anywhere. */
  lemma {:induction false} EveryRequestIsInOnePlace(knob: ULong, labels: seq<Label>, x: Request)
    requires Run(knob, labels).Some?
    ensures var s := Run(knob, labels).value;
            Tally(s.threads, Holding(x)) + ParkedCount(s.fdo, x) + Count(Requests(s.completed), x)
            == if x in s.issued then 1 else 0
  {
    RunsBalance(knob, labels, x);
    IssuedAreDistinct(knob, labels);
    NoRepeatsCount(Run(knob, labels).value.issued, x);
  }

  /** No run completes a request twice. */
  lemma NothingCompletesTwice(knob: ULong, labels: seq<Label>)
    requires Run(knob, labels).Some?
    ensures NoRepeats(Requests(Run(knob, labels).value.completed))
  {
    var s := Run(knob, labels).value;
    IssuedAreDistinct(knob, labels);
    forall x ensures Count(Requests(s.completed), x) <= Count(s.issued, x) {
      RunsBalance(knob, labels, x);
    }
    CountedOnce(Requests(s.completed), s.issued);
  }

  /** None leaves dispatch neither parked nor completed: once every callback has
      returned, each request issued is parked or has been completed. */
  lemma NothingIsForgotten(knob: ULong, labels: seq<Label>, x: Request)
    requires Run(knob, labels).Some? && x in Run(knob, labels).value.issued
    requires forall t :: t in Run(knob, labels).value.threads ==> t.Returned?
    ensures var s := Run(knob, labels).value;
            || x in Requests(s.completed)
            || x in s.fdo.user.parked || x in s.fdo.events.parked || x in s.fdo.data.parked
  {
    var s := Run(knob, labels).value;
    EveryRequestIsInOnePlace(knob, labels, x);
    ReturnedHoldNothing(s.threads, x);
    CountOnlyMembers(Requests(s.completed), x);
    CountOnlyMembers(s.fdo.user.parked, x);
    CountOnlyMembers(s.fdo.events.parked, x);
    CountOnlyMembers(s.fdo.data.parked, x);
  }

  lemma {:induction false} ReturnedHoldNothing(ts: seq<Thread>, x: Request)
    requires forall t :: t in ts ==> t.Returned?
    ensures Tally(ts, Holding(x)) == 0
  {
    if ts != [] {
      ReturnedHoldNothing(ts[..|ts| - 1], x);
    }
  }
}
