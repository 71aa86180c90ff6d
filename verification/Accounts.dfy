/** The driver's counters, modulo 2^32, against what happened.

    The reference is the list of outcomes - how each packet that reached a
    decision ended - and the channels' histories. */
module Accounts {
  import opened Hci
  import opened Rendezvous
  import opened Channels
  import opened Fdo
  import opened Driver
  import opened Ledgers
  import Delivery

  function Ends(s: State, o: Outcome): nat {
    Count(s.history.outcomes, o)
  }

  function AllocFailures(s: State): nat {
    Ends(s, ClientAllocFailed) + Ends(s, StackAllocFailed)
  }

  function Enqueued(s: State): nat {
    Ends(s, QueuedForClient) + Ends(s, QueuedForStack)
  }

  function ArrivedForStack(s: State): nat {
    |Arrivals(s.events.log)| + |Arrivals(s.data.log)|
  }

  ghost predicate CountersTrue(s: State) {
    && s.dropsNoClient == Wrap(Ends(s, NoClient))
    && s.dropsAllocFailed == Wrap(AllocFailures(s))
    && s.writesNoRadio == Wrap(Ends(s, NoRadio))
    && s.writesTotal == Wrap(ArrivedForStack(s))
    && s.queuedToUserTotal == Wrap(QueuedCount(s.user.log))
  }

  ghost predicate OutcomesTrue(s: State) {
    && Ends(s, ToStack) + Ends(s, QueuedForStack) == ArrivedForStack(s)
    && Ends(s, QueuedForClient) == QueuedCount(s.user.log)
    && Ends(s, ToClient) + Ends(s, QueuedForClient) == |Arrivals(s.user.log)|
    && s.history.attempts == Enqueued(s) + AllocFailures(s)
    && s.history.nextSerial == Enqueued(s)
  }

  ghost predicate Accounted(s: State) {
    CountersTrue(s) && OutcomesTrue(s)
  }

  lemma WrapUp(n: nat)
    ensures Wrap(Wrap(n) + 1) == Wrap(n + 1)
  {
  }

  // ---------------------------------------------------------------------------
  // One more outcome
  // ---------------------------------------------------------------------------

  lemma EndsExtends(s: State, o: Outcome, x: Outcome)
    ensures Count(s.history.outcomes + [o], x) == Ends(s, x) + if o == x then 1 else 0
  {
    CountConcat(s.history.outcomes, [o], x);
    CountOne(o, x);
  }

  /** All the counts at once, after one more outcome. */
  lemma OneMore(s: State, t: State, o: Outcome)
    requires t.history.outcomes == s.history.outcomes + [o]
    ensures forall x :: Ends(t, x) == Ends(s, x) + if o == x then 1 else 0
  {
    forall x ensures Ends(t, x) == Ends(s, x) + if o == x then 1 else 0 {
      EndsExtends(s, o, x);
    }
  }

  lemma LogCounts(log: seq<Event>, e: Event)
    ensures |Arrivals(log + [e])| == |Arrivals(log)| + |Arrival(e)|
    ensures QueuedCount(log + [e]) == QueuedCount(log) + if e.Queued? then 1 else 0
  {
    ProjectionsExtend(log, e);
  }

  /** What outcome o does to the counters and to the channels' histories. */
  predicate CountersRecord(s: State, t: State, o: Outcome) {
    && t.dropsNoClient == (if o.NoClient? then Wrap(s.dropsNoClient + 1) else s.dropsNoClient)
    && t.dropsAllocFailed == (if o.ClientAllocFailed? || o.StackAllocFailed? then Wrap(s.dropsAllocFailed + 1)
                              else s.dropsAllocFailed)
    && t.writesNoRadio == (if o.NoRadio? then Wrap(s.writesNoRadio + 1) else s.writesNoRadio)
    && t.writesTotal == (if o.ToStack? || o.QueuedForStack? then Wrap(s.writesTotal + 1) else s.writesTotal)
    && t.queuedToUserTotal == (if o.QueuedForClient? then Wrap(s.queuedToUserTotal + 1) else s.queuedToUserTotal)
  }

  predicate HistoryRecords(s: State, t: State, o: Outcome) {
    && t.history.outcomes == s.history.outcomes + [o]
    && ArrivedForStack(t) == ArrivedForStack(s) + (if o.ToStack? || o.QueuedForStack? then 1 else 0)
    && QueuedCount(t.user.log) == QueuedCount(s.user.log) + (if o.QueuedForClient? then 1 else 0)
    && |Arrivals(t.user.log)| == |Arrivals(s.user.log)| + (if o.ToClient? || o.QueuedForClient? then 1 else 0)
    && t.history.attempts == s.history.attempts
         + (if o.QueuedForClient? || o.QueuedForStack? || o.ClientAllocFailed? || o.StackAllocFailed? then 1 else 0)
    && t.history.nextSerial == s.history.nextSerial + (if o.QueuedForClient? || o.QueuedForStack? then 1 else 0)
  }

  lemma RecordedCounters(s: State, t: State, o: Outcome)
    requires CountersTrue(s) && CountersRecord(s, t, o) && HistoryRecords(s, t, o)
    ensures CountersTrue(t)
  {
    EndsExtends(s, o, NoClient);
    EndsExtends(s, o, ClientAllocFailed);
    EndsExtends(s, o, StackAllocFailed);
    EndsExtends(s, o, NoRadio);
    hide Wrap, Count, Arrivals, QueuedCount;
    WrapUp(Ends(s, NoClient));
    WrapUp(AllocFailures(s));
    WrapUp(Ends(s, NoRadio));
    WrapUp(ArrivedForStack(s));
    WrapUp(QueuedCount(s.user.log));
  }

  lemma RecordedOutcomes(s: State, t: State, o: Outcome)
    requires OutcomesTrue(s) && HistoryRecords(s, t, o)
    ensures OutcomesTrue(t)
  {
    OneMore(s, t, o);
  }

  function QueueingOutcome(s: State, poolOk: bool): Outcome {
    if s.owner.None? then NoClient
    else if WaitingRead(s.user).Some? then ToClient
    else if AllocFails(s, poolOk) then ClientAllocFailed
    else QueuedForClient
  }

  lemma QueueingRecords(s: State, p: Packet, poolOk: bool)
    ensures var t := QueueToUser(s, p, poolOk).state;
            CountersRecord(s, t, QueueingOutcome(s, poolOk)) && HistoryRecords(s, t, QueueingOutcome(s, poolOk))
  {
    if s.owner.None? || WaitingRead(s.user).Some? {
      UnqueuedRecords(s, p, poolOk);
    } else {
      QueueForUserRecords(s, p, poolOk);
    }
    hide CountersRecord, HistoryRecords, QueueForUser;
  }

  lemma QueueForUserRecords(s: State, p: Packet, poolOk: bool)
    ensures var t := QueueForUser(s, p, poolOk);
            var o := if AllocFails(s, poolOk) then ClientAllocFailed else QueuedForClient;
            CountersRecord(s, t, o) && HistoryRecords(s, t, o)
  {
    LogCounts(s.user.log, Queued(p));
    hide Arrivals, QueuedCount, InjectFailure;
  }

  lemma UnqueuedRecords(s: State, p: Packet, poolOk: bool)
    requires s.owner.None? || WaitingRead(s.user).Some?
    ensures var t := QueueToUser(s, p, poolOk).state;
            CountersRecord(s, t, QueueingOutcome(s, poolOk)) && HistoryRecords(s, t, QueueingOutcome(s, poolOk))
  {
    if s.owner.Some? {
      LogCounts(s.user.log, Handed(p, s.user.parked[0]));
    }
  }

  function DeliveryOutcome(s: State, p: Packet, poolOk: bool): Outcome {
    if WaitingRead(StackChannel(s, p.kind == H4_ACL)).Some? then ToStack
    else if AllocFails(s, poolOk) then StackAllocFailed
    else QueuedForStack
  }

  lemma DeliveryRecords(s: State, p: Packet, poolOk: bool)
    ensures var t, o := DeliverToStack(s, p, poolOk).state, DeliveryOutcome(s, p, poolOk);
            CountersRecord(s, t, o) && HistoryRecords(s, t, o)
  {
    var c := StackChannel(s, p.kind == H4_ACL);
    if WaitingRead(c).Some? {
      HandingRecords(s, p, poolOk);
    } else {
      QueueForStackRecords(s, p, poolOk);
    }
    hide CountersRecord, HistoryRecords, QueueForStack;
  }

  lemma QueueForStackRecords(s: State, p: Packet, poolOk: bool)
    ensures var t := QueueForStack(s, p, poolOk).state;
            var o := if AllocFails(s, poolOk) then StackAllocFailed else QueuedForStack;
            CountersRecord(s, t, o) && HistoryRecords(s, t, o)
  {
    LogCounts(StackChannel(s, p.kind == H4_ACL).log, Queued(p));
    hide Arrivals, QueuedCount, InjectFailure;
  }

  lemma HandingRecords(s: State, p: Packet, poolOk: bool)
    requires WaitingRead(StackChannel(s, p.kind == H4_ACL)).Some?
    ensures var t := DeliverToStack(s, p, poolOk).state;
            CountersRecord(s, t, ToStack) && HistoryRecords(s, t, ToStack)
  {
    var c := StackChannel(s, p.kind == H4_ACL);
    LogCounts(c.log, Handed(p, c.parked[0]));
    hide Arrivals, QueuedCount, QueueForStack;
    assert DeliverToStack(s, p, poolOk).state.history.outcomes == s.history.outcomes + [ToStack];
  }

  lemma SettlingAccounted(s: State, r: Region)
    requires Accounted(s) && Settles(r)
    ensures Accounted(Apply(s, r))
  {
    hide CountersRecord, HistoryRecords, CountersTrue, OutcomesTrue, QueueToUser, DeliverToStack;
    match r
    case QueuesToUser(p, poolOk) =>
      QueueingRecords(s, p, poolOk);
      RecordedCounters(s, Apply(s, r), QueueingOutcome(s, poolOk));
      RecordedOutcomes(s, Apply(s, r), QueueingOutcome(s, poolOk));
    case DeliversToStack(p, poolOk) =>
      DeliveryRecords(s, p, poolOk);
      RecordedCounters(s, Apply(s, r), DeliveryOutcome(s, p, poolOk));
      RecordedOutcomes(s, Apply(s, r), DeliveryOutcome(s, p, poolOk));
    case _ =>
      if !Admitted(s) {
        RefusalRecords(s);
        RecordedCounters(s, Admit(s), NoRadio);
        RecordedOutcomes(s, Admit(s), NoRadio);
      }
  }

  lemma RefusalRecords(s: State)
    requires !Admitted(s)
    ensures CountersRecord(s, Admit(s), NoRadio) && HistoryRecords(s, Admit(s), NoRadio)
  {
  }

  // ---------------------------------------------------------------------------
  // Regions that settle nothing
  // ---------------------------------------------------------------------------

  predicate Settles(r: Region) {
    r.QueuesToUser? || r.DeliversToStack? || r.Admits?
  }

  predicate SameCounters(s: State, t: State) {
    && t.dropsNoClient == s.dropsNoClient && t.dropsAllocFailed == s.dropsAllocFailed
    && t.writesNoRadio == s.writesNoRadio && t.writesTotal == s.writesTotal
    && t.queuedToUserTotal == s.queuedToUserTotal
    && t.history.outcomes == s.history.outcomes && t.history.attempts == s.history.attempts
    && t.history.nextSerial == s.history.nextSerial && t.history.injected == s.history.injected
    && t.allocSeq == s.allocSeq && t.failAllocOneIn == s.failAllocOneIn
  }

  lemma OtherRegionsKeepCounters(s: State, r: Region)
    requires Allowed(s, r) && !Settles(r)
    ensures SameCounters(s, Apply(s, r))
  {
    hide QueueToUser, DeliverToStack, Admit, TakeHead, Park, FreeAll, CancelRead, PurgeQueue, StartQueue;
  }

  lemma OtherRegionsKeepCounts(s: State, r: Region, q: Which)
    requires Allowed(s, r) && !Settles(r)
    ensures |Arrivals(ChannelOf(Apply(s, r), q).log)| == |Arrivals(ChannelOf(s, q).log)|
    ensures QueuedCount(ChannelOf(Apply(s, r), q).log) == QueuedCount(ChannelOf(s, q).log)
  {
    RegionLogs(s, r, q);
    AddedCounts(ChannelOf(s, q), ChannelOf(Apply(s, r), q), r);
  }

  lemma AddedCounts(c: Channel, c': Channel, r: Region)
    requires LogsAtMostOne(c, c', r) && !Settles(r)
    ensures |Arrivals(c'.log)| == |Arrivals(c.log)| && QueuedCount(c'.log) == QueuedCount(c.log)
  {
    if c'.log != c.log {
      LogCounts(c.log, Added(c.log, c'.log)[0]);
    }
  }

  lemma UnchangedAccounted(s: State, t: State)
    requires Accounted(s) && SameCounters(s, t)
    requires |Arrivals(t.user.log)| == |Arrivals(s.user.log)| && QueuedCount(t.user.log) == QueuedCount(s.user.log)
    requires ArrivedForStack(t) == ArrivedForStack(s)
    ensures Accounted(t)
  {
  }

  lemma ApplyAccounted(s: State, r: Region)
    requires Accounted(s) && Allowed(s, r)
    ensures Accounted(Apply(s, r))
  {
    hide Apply, Accounted;
    if Settles(r) {
      SettlingAccounted(s, r);
    } else {
      OtherRegionsKeepCounters(s, r);
      OtherRegionsKeepCounts(s, r, UserQueue);
      OtherRegionsKeepCounts(s, r, EventQueue);
      OtherRegionsKeepCounts(s, r, DataQueue);
      UnchangedAccounted(s, Apply(s, r));
    }
  }

  lemma {:induction false} RunsAccounted(knob: ULong, labels: seq<Label>)
    requires Run(knob, labels).Some?
    ensures Accounted(Run(knob, labels).value.fdo)
  {
    if labels != [] {
      var before := labels[..|labels| - 1];
      RunsAccounted(knob, before);
      var s, l := Run(knob, before).value, labels[|labels| - 1];
      StepAppliesRegion(s, l);
      ApplyAccounted(s.fdo, RegionOf(s, l));
    }
  }

  // ---------------------------------------------------------------------------
  // What every run guarantees
  // ---------------------------------------------------------------------------

  /** The counters as ULONGs: writes accepted are the matched, the waiting and the
      purged; packets queued for the client are the taken, the waiting and the
      purged; and each loss counter counts its own outcomes. */
  ghost predicate LossesBalance(s: State) {
    && s.writesTotal == Wrap(Passed(s.events) + Passed(s.data))
    && s.queuedToUserTotal == Wrap(TakenCount(s.user.log) + |s.user.backlog| + PurgedCount(s.user.log))
    && s.dropsNoClient == Wrap(Ends(s, NoClient))
    && s.dropsAllocFailed == Wrap(AllocFailures(s))
    && s.writesNoRadio == Wrap(Ends(s, NoRadio))
  }

  /** Loss accounting holds in every run. */
  lemma {:induction false} LossAccounting(knob: ULong, labels: seq<Label>)
    requires Run(knob, labels).Some?
    ensures LossesBalance(Run(knob, labels).value.fdo)
  {
    RunsAccounted(knob, labels);
    RunPasses(knob, labels, UserQueue);
    RunPasses(knob, labels, EventQueue);
    RunPasses(knob, labels, DataQueue);
    CountersBalance(Run(knob, labels).value.fdo);
  }

  /** The statistics tell, as ULONGs, the three depths, the greatest each has been, and
      how often each outcome has been met. */
  ghost predicate TellsOutcomes(t: Stats, s: State) {
    && t.hostToCtrlCount == Wrap(|s.user.backlog|) && t.pendingEventCount == Wrap(|s.events.backlog|)
    && t.pendingDataCount == Wrap(|s.data.backlog|)
    && Replay(s.user.log).Some? && Replay(s.events.log).Some? && Replay(s.data.log).Some?
    && t.hostToCtrlPeak as int == Saturated(MaxDepth(s.user.log))
    && t.pendingEventPeak as int == Saturated(MaxDepth(s.events.log))
    && t.pendingDataPeak as int == Saturated(MaxDepth(s.data.log))
    && t.writesTotal == Wrap(Ends(s, ToStack) + Ends(s, QueuedForStack))
    && t.queuedToUserTotal == Wrap(Ends(s, QueuedForClient))
    && t.dropsNoClient == Wrap(Ends(s, NoClient)) && t.writesNoRadio == Wrap(Ends(s, NoRadio))
    && t.dropsAllocFailed == Wrap(Ends(s, ClientAllocFailed) + Ends(s, StackAllocFailed))
  }

  lemma SnapshotTells(s: State)
    requires Accounted(s) && Delivery.AllSound(s)
    ensures TellsOutcomes(Snapshot(s), s)
  {
    hide Replay, MaxDepth, Count, Arrivals, QueuedCount;
  }

  /** So does a snapshot taken in any run. */
  lemma {:induction false} SnapshotTellsTheRun(knob: ULong, labels: seq<Label>)
    requires Run(knob, labels).Some?
    ensures TellsOutcomes(Snapshot(Run(knob, labels).value.fdo), Run(knob, labels).value.fdo)
  {
    RunsAccounted(knob, labels);
    Delivery.RunsAreSound(knob, labels);
    SnapshotTells(Run(knob, labels).value.fdo);
  }

  /** Packets matched, still waiting, or purged. */
  function Passed(c: Channel): int {
    |MatchedPackets(c.log)| + |c.backlog| + PurgedCount(c.log)
  }

  lemma CountersBalance(s: State)
    requires Accounted(s)
    requires |Arrivals(s.events.log)| == Passed(s.events) && |Arrivals(s.data.log)| == Passed(s.data)
    requires QueuedCount(s.user.log) == TakenCount(s.user.log) + PurgedCount(s.user.log) + |s.user.backlog|
    ensures LossesBalance(s)
  {
    hide Wrap, Arrivals, QueuedCount, TakenCount, PurgedCount, MatchedPackets;
  }

  lemma RunPasses(knob: ULong, labels: seq<Label>, q: Which)
    requires Run(knob, labels).Some?
    ensures var c := ChannelOf(Run(knob, labels).value.fdo, q);
            && |Arrivals(c.log)| == Passed(c)
            && QueuedCount(c.log) == TakenCount(c.log) + PurgedCount(c.log) + |c.backlog|
  {
    Delivery.RunsAreSound(knob, labels);
    DepthInLog(ChannelOf(Run(knob, labels).value.fdo, q));
  }

  lemma DepthInLog(c: Channel)
    requires Sound(c)
    ensures |Arrivals(c.log)| == Passed(c)
    ensures QueuedCount(c.log) == TakenCount(c.log) + PurgedCount(c.log) + |c.backlog|
  {
    PacketCounts(c.log);
    assert |Packets(c.backlog)| == |c.backlog|;
  }

  /** How many times the run called WinVhciQueueToUser. */
  function QueueingCalls(knob: ULong, labels: seq<Label>): nat
    requires Run(knob, labels).Some?
  {
    if labels == [] then 0
    else
      var before := labels[..|labels| - 1];
      var s, l := Run(knob, before).value, labels[|labels| - 1];
      QueueingCalls(knob, before) + if RegionOf(s, l).QueuesToUser? then 1 else 0
  }

  /** Each call ends in exactly one of delivered, queued, no client, no memory. */
  lemma {:induction false} EachQueueingEndsOnce(knob: ULong, labels: seq<Label>)
    requires Run(knob, labels).Some?
    ensures var s := Run(knob, labels).value.fdo;
            QueueingCalls(knob, labels)
            == Ends(s, ToClient) + Ends(s, QueuedForClient) + Ends(s, NoClient) + Ends(s, ClientAllocFailed)
  {
    if labels != [] {
      var before := labels[..|labels| - 1];
      EachQueueingEndsOnce(knob, before);
      var s, l := Run(knob, before).value, labels[|labels| - 1];
      StepAppliesRegion(s, l);
      RegionEndsOne(s.fdo, RegionOf(s, l));
    }
  }

  /** The outcomes of queueing, and of writes past the size check. */
  function QueueingEnds(s: State): nat {
    Ends(s, ToClient) + Ends(s, QueuedForClient) + Ends(s, NoClient) + Ends(s, ClientAllocFailed)
  }

  function WriteEnds(s: State): nat {
    Ends(s, ToStack) + Ends(s, QueuedForStack) + Ends(s, StackAllocFailed) + Ends(s, NoRadio)
  }

  lemma OneMoreEnds(s: State, t: State, o: Outcome)
    requires t.history.outcomes == s.history.outcomes + [o]
    ensures QueueingEnds(t) == QueueingEnds(s)
              + if o.ToClient? || o.QueuedForClient? || o.NoClient? || o.ClientAllocFailed? then 1 else 0
    ensures WriteEnds(t) == WriteEnds(s)
              + if o.ToStack? || o.QueuedForStack? || o.StackAllocFailed? || o.NoRadio? then 1 else 0
  {
    OneMore(s, t, o);
  }

  lemma OtherRegionsKeepEnds(s: State, r: Region)
    requires Allowed(s, r) && !Settles(r)
    ensures QueueingEnds(Apply(s, r)) == QueueingEnds(s) && WriteEnds(Apply(s, r)) == WriteEnds(s)
  {
    OtherRegionsKeepCounters(s, r);
    hide Apply, Count;
  }

  lemma RegionEndsOne(s: State, r: Region)
    requires Allowed(s, r)
    ensures QueueingEnds(Apply(s, r)) == QueueingEnds(s) + if r.QueuesToUser? then 1 else 0
    ensures WriteEnds(Apply(s, r))
         == WriteEnds(s) + if r.DeliversToStack? || (r.Admits? && !Admitted(s)) then 1 else 0
  {
    hide CountersRecord, QueueToUser, DeliverToStack, Ends, Arrivals, QueuedCount;
    match r
    case QueuesToUser(p, poolOk) =>
      QueueingRecords(s, p, poolOk);
      OneMoreEnds(s, Apply(s, r), QueueingOutcome(s, poolOk));
    case DeliversToStack(p, poolOk) =>
      DeliveryRecords(s, p, poolOk);
      OneMoreEnds(s, Apply(s, r), DeliveryOutcome(s, p, poolOk));
    case Admits =>
      if !Admitted(s) {
        RefusalRecords(s);
        OneMoreEnds(s, Admit(s), NoRadio);
      }
    case _ => OtherRegionsKeepEnds(s, r);
  }

  /** How many well-sized event and ACL writes the run has looked at. */
  function SizedWrites(knob: ULong, labels: seq<Label>): nat
    requires Run(knob, labels).Some?
  {
    if labels == [] then 0
    else
      var before := labels[..|labels| - 1];
      var s, l := Run(knob, before).value, labels[|labels| - 1];
      SizedWrites(knob, before) + if l.Go? then Sizes(s.threads[l.i]) else 0
  }

  /** 1 for a write whose next step finds it well sized. */
  function Sizes(t: Thread): nat {
    if t.ClientWrite? && ClassifyWrite(t.bytes).Send? then 1 else 0
  }

  /** 1 for a well-sized write that has reached no outcome yet. */
  function Undecided(t: Thread): nat {
    if t.AwaitsAdmission? || t.AwaitsDelivery? then 1 else 0
  }

  lemma MoveDecides(s: State, t: Thread, a: Answer)
    ensures var r := RegionOfMove(s, t, a);
            Undecided(Move(s, t, a).thread) + (if r.DeliversToStack? || (r.Admits? && !Admitted(s)) then 1 else 0)
            == Undecided(t) + Sizes(t)
  {
  }

  /** Each well-sized event or ACL write that reaches an outcome ends in exactly
      one of accepted (handed over or queued), no radio, no memory. */
  lemma {:induction false} EachWriteEndsOnce(knob: ULong, labels: seq<Label>)
    requires Run(knob, labels).Some?
    ensures var s := Run(knob, labels).value;
            SizedWrites(knob, labels)
            == Ends(s.fdo, ToStack) + Ends(s.fdo, QueuedForStack) + Ends(s.fdo, StackAllocFailed)
               + Ends(s.fdo, NoRadio) + Tally(s.threads, Undecided)
  {
    if labels != [] {
      var before := labels[..|labels| - 1];
      EachWriteEndsOnce(knob, before);
      StepDecides(Run(knob, before).value, labels[|labels| - 1]);
    }
  }

  lemma GoDecides(s: System, i: nat, a: Answer)
    requires i < |s.threads| && !s.threads[i].Returned?
    ensures var t := Step(s, Go(i, a));
            WriteEnds(t.fdo) + Tally(t.threads, Undecided)
            == WriteEnds(s.fdo) + Tally(s.threads, Undecided) + Sizes(s.threads[i])
  {
    MoveAppliesRegion(s.fdo, s.threads[i], a);
    RegionEndsOne(s.fdo, RegionOfMove(s.fdo, s.threads[i], a));
    MoveDecides(s.fdo, s.threads[i], a);
    hide Move, Apply, RegionOfMove;
    TallyUpdate(s.threads, i, Move(s.fdo, s.threads[i], a).thread, Undecided);
  }

  lemma ArrivalDecides(s: System, l: Label)
    requires l.Issue? || l.DeviceCleanup?
    requires Enabled(s, l)
    ensures Step(s, l).fdo == s.fdo && Tally(Step(s, l).threads, Undecided) == Tally(s.threads, Undecided)
  {
    ArrivalStep(s, l);
    assert Undecided(Starting(s, l)) == 0;
    hide Step, Starting, Undecided;
    TallyAppend(s.threads, Starting(s, l), Undecided);
  }

  lemma QuietStepDecides(s: System, l: Label)
    requires Enabled(s, l) && !l.Go? && !l.Issue? && !l.DeviceCleanup?
    ensures WriteEnds(Step(s, l).fdo) == WriteEnds(s.fdo) && Step(s, l).threads == s.threads
  {
    QuietRegions(s, l);
    QuietSteps(s, l);
    hide Step, Apply, RegionOf, WriteEnds;
    StepAppliesRegion(s, l);
    RegionEndsOne(s.fdo, RegionOf(s, l));
  }

  lemma QuietRegions(s: System, l: Label)
    requires Enabled(s, l) && !l.Go?
    ensures !Settles(RegionOf(s, l))
  {
  }

  lemma StepDecides(s: System, l: Label)
    requires Enabled(s, l)
    ensures WriteEnds(Step(s, l).fdo) + Tally(Step(s, l).threads, Undecided)
         == WriteEnds(s.fdo) + Tally(s.threads, Undecided) + if l.Go? then Sizes(s.threads[l.i]) else 0
  {
    match l
    case Go(i, a) => GoDecides(s, i, a);
    case Issue(_) | DeviceCleanup => ArrivalDecides(s, l);
    case _ => QuietStepDecides(s, l);
  }
}
