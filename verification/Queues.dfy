/** When the manual queues accept a read: always, but from a purge of a queue until it
    is started again. */
module Queues {
  import opened Hci
  import opened Rendezvous
  import opened Channels
  import opened Fdo
  import opened Driver

  /** Step l purges queue q: a cleanup's or a close's. */
  predicate Purges(s: System, l: Label, q: Which)
    requires Enabled(s, l)
  {
    || (l.Go? && s.threads[l.i] == CleanupEvents && q.EventQueue?)
    || (l.Go? && s.threads[l.i] == CleanupData && q.DataQueue?)
    || (l.ContinueClose? && s.handle.PurgesEvents? && q.EventQueue?)
    || (l.ContinueClose? && s.handle.PurgesData? && q.DataQueue?)
  }

  /** Step l is the close starting queue q again. */
  predicate Starts(s: System, l: Label, q: Which) {
    || (l.ContinueClose? && s.handle.StartsEvents? && q.EventQueue?)
    || (l.ContinueClose? && s.handle.StartsData? && q.DataQueue?)
  }

  /** Queue q has been purged in this run and not started since. */
  predicate PurgedLast(knob: ULong, labels: seq<Label>, q: Which)
    requires Run(knob, labels).Some?
  {
    && labels != []
    && var before, l := labels[..|labels| - 1], labels[|labels| - 1];
    var s := Run(knob, before).value;
    Purges(s, l, q) || (!Starts(s, l, q) && PurgedLast(knob, before, q))
  }

  lemma QueueingKeepsAccepting(s: State, p: Packet, poolOk: bool, q: Which)
    ensures ChannelOf(QueueToUser(s, p, poolOk).state, q).accepting == ChannelOf(s, q).accepting
    ensures ChannelOf(DeliverToStack(s, p, poolOk).state, q).accepting == ChannelOf(s, q).accepting
  {
    QueueToUserMeets(s, p, poolOk);
    DeliverToStackMeets(s, p, poolOk);
    hide QueueToUser, DeliverToStack, WaitingRead;
  }

  lemma OthersKeepAccepting(s: State, r: Region, q: Which)
    requires Allowed(s, r) && !r.QueuesToUser? && !r.DeliversToStack?
    requires r != PurgesQueue(q) && r != StartsQueue(q)
    ensures ChannelOf(Apply(s, r), q).accepting == ChannelOf(s, q).accepting
  {
    hide QueueToUser, DeliverToStack;
  }

  lemma RegionKeepsAccepting(s: State, r: Region, q: Which)
    requires Allowed(s, r) && r != PurgesQueue(q) && r != StartsQueue(q)
    ensures ChannelOf(Apply(s, r), q).accepting == ChannelOf(s, q).accepting
  {
    match r
    case QueuesToUser(p, poolOk) => QueueingKeepsAccepting(s, p, poolOk, q);
    case DeliversToStack(p, poolOk) => QueueingKeepsAccepting(s, p, poolOk, q);
    case _ => OthersKeepAccepting(s, r, q);
  }

  lemma RegionsPurge(s: System, l: Label, q: Which)
    requires Enabled(s, l)
    ensures RegionOf(s, l) == PurgesQueue(q) <==> Purges(s, l, q)
    ensures RegionOf(s, l) == StartsQueue(q) <==> Starts(s, l, q)
  {
    hide ClassifyStackRead;
  }

  lemma StepAccepts(s: System, l: Label, q: Which)
    requires Enabled(s, l)
    ensures ChannelOf(Step(s, l).fdo, q).accepting
         <==> !Purges(s, l, q) && (Starts(s, l, q) || ChannelOf(s.fdo, q).accepting)
  {
    StepAppliesRegion(s, l);
    RegionsPurge(s, l, q);
    var r := RegionOf(s, l);
    hide Step, RegionOf, Purges, Starts;
    if r == PurgesQueue(q) {
      hide PurgeBacklogs;
    } else if r != StartsQueue(q) {
      RegionKeepsAccepting(s.fdo, r, q);
      hide Apply;
    }
  }

  /** In every run a queue accepts reads exactly if it was not purged or has been
      started again since. */
  lemma {:induction false} AcceptsExactly(knob: ULong, labels: seq<Label>, q: Which)
    requires Run(knob, labels).Some?
    ensures ChannelOf(Run(knob, labels).value.fdo, q).accepting <==> !PurgedLast(knob, labels, q)
  {
    if labels != [] {
      var before := labels[..|labels| - 1];
      AcceptsExactly(knob, before, q);
      StepAccepts(Run(knob, before).value, labels[|labels| - 1], q);
      hide Step, Enabled, Purges, Starts;
    }
  }

  predicate IsCleanup(t: Thread) {
    t.CleanupEvents? || t.CleanupData? || t.CleanupLists?
  }

  ghost predicate NoCleanup(s: System) {
    forall i :: 0 <= i < |s.threads| ==> !IsCleanup(s.threads[i])
  }

  predicate WithoutCleanup(labels: seq<Label>) {
    forall i :: 0 <= i < |labels| ==> !labels[i].DeviceCleanup?
  }

  lemma StepNoCleanup(s: System, l: Label)
    requires Enabled(s, l) && NoCleanup(s) && !l.DeviceCleanup?
    ensures NoCleanup(Step(s, l))
  {
    match l
    case Go(i, a) =>
      GoStep(s, i, a);
      MoveNoCleanup(s.fdo, s.threads[i], a);
      hide Step, Move;
    case Issue(_) => ArrivalStep(s, l);
    case _ => QuietSteps(s, l);
  }

  lemma MoveNoCleanup(s: State, t: Thread, a: Answer)
    requires !IsCleanup(t)
    ensures !IsCleanup(Move(s, t, a).thread)
  {
    hide QueueToUser, DeliverToStack, PostClientRead, PostStackRead, CompleteRead, ClassifyWrite, ClassifyStackWrite;
  }

  /** Without a cleanup, the events queue refuses only while a close is between purging
      and starting it, and so the ACL queue. */
  lemma {:induction false} AcceptsUnlessClosing(knob: ULong, labels: seq<Label>)
    requires Run(knob, labels).Some? && WithoutCleanup(labels)
    ensures var s := Run(knob, labels).value;
            && NoCleanup(s)
            && (s.fdo.events.accepting <==> !s.handle.PurgesData? && !s.handle.StartsEvents?)
            && (s.fdo.data.accepting <==> !s.handle.StartsEvents? && !s.handle.StartsData?)
  {
    if labels != [] {
      var before, l := labels[..|labels| - 1], labels[|labels| - 1];
      AcceptsUnlessClosing(knob, before);
      var s := Run(knob, before).value;
      StepNoCleanup(s, l);
      StepAccepts(s, l, EventQueue);
      StepAccepts(s, l, DataQueue);
      HandleGoesOn(s, l);
      hide Step;
    }
  }

  /** The handle's way through a close. */
  lemma HandleGoesOn(s: System, l: Label)
    requires Enabled(s, l)
    ensures !l.OpenHandle? && !l.BeginClose? && !l.ContinueClose? ==> Step(s, l).handle == s.handle
    ensures l.OpenHandle? ==> Step(s, l).handle == Open
    ensures l.BeginClose? ==> Step(s, l).handle == PurgesEvents
    ensures l.ContinueClose? ==>
              match s.handle
              case PurgesEvents => Step(s, l).handle == PurgesData
              case PurgesData => Step(s, l).handle == StartsEvents
              case StartsEvents => Step(s, l).handle == StartsData
              case StartsData => Step(s, l).handle == PurgesLists
              case _ => Step(s, l).handle == Closed
  {
    hide Move;
  }

  /** What posting a read to a channel that takes reads, or does not, comes to. */
  predicate PostedExactly(c: Channel, c': Channel, r: Request, takes: bool, result: PostResult) {
    if c.backlog != [] then result == Got(c.backlog[0]) && c'.backlog == c.backlog[1..] && c'.parked == c.parked
    else if takes then result == Waits && c'.parked == c.parked + [r] && c'.backlog == []
    else result == Refused && c' == c
  }

  function QueueOf(acl: bool): Which {
    if acl then DataQueue else EventQueue
  }

  /** In every run a read of the stack's is given the oldest packet if one waits; else
      it is parked behind the others exactly if the framework is willing and the queue
      was not purged or has been started again since; else refused, changing nothing. */
  lemma StackReadIsPosted(knob: ULong, labels: seq<Label>, acl: bool, r: Request, forwardOk: bool)
    requires Run(knob, labels).Some?
    ensures var s := Run(knob, labels).value.fdo;
            var p := PostStackRead(s, acl, r, forwardOk);
            PostedExactly(StackChannel(s, acl), StackChannel(p.state, acl), r,
                          forwardOk && !PurgedLast(knob, labels, QueueOf(acl)), p.result)
  {
    AcceptsExactly(knob, labels, QueueOf(acl));
    hide Run, PurgedLast;
  }

  /** So with the handle open or closed, and no cleanup, only an unwilling framework
      refuses one. */
  lemma StackReadsPark(knob: ULong, labels: seq<Label>, acl: bool, r: Request, forwardOk: bool)
    requires Run(knob, labels).Some? && WithoutCleanup(labels)
    requires var s := Run(knob, labels).value; s.handle.Open? || s.handle.Closed?
    ensures var s := Run(knob, labels).value.fdo;
            var p := PostStackRead(s, acl, r, forwardOk);
            PostedExactly(StackChannel(s, acl), StackChannel(p.state, acl), r, forwardOk, p.result)
  {
    AcceptsUnlessClosing(knob, labels);
    hide Run;
  }

  lemma {:induction false} UserQueueIsNeverPurged(knob: ULong, labels: seq<Label>)
    requires Run(knob, labels).Some?
    ensures !PurgedLast(knob, labels, UserQueue)
  {
    if labels != [] {
      UserQueueIsNeverPurged(knob, labels[..|labels| - 1]);
    }
  }

  /** A client's read is in every run whatever. */
  lemma ClientReadsPark(knob: ULong, labels: seq<Label>, r: Request, forwardOk: bool)
    requires Run(knob, labels).Some?
    ensures var s := Run(knob, labels).value.fdo;
            var p := PostClientRead(s, r, forwardOk);
            PostedExactly(s.user, p.state.user, r, forwardOk, p.result)
  {
    UserQueueIsNeverPurged(knob, labels);
    AcceptsExactly(knob, labels, UserQueue);
    hide Run, PurgedLast;
  }
}
