/** Closed means empty: from the end of a close until the next open no packet is
    on any backlog, though the old stack may still be reading and writing. */
module Closing {
  import opened Hci
  import opened Rendezvous
  import opened Channels
  import opened Fdo
  import opened Driver
  import opened PoolLedger

  /** A callback's own request comes from the side the callback serves. */
  predicate RightOrigin(t: Thread) {
    match t
    case StackRead(r, _) => r.origin.FromStack?
    case StackWrite(r, _) => r.origin.FromStack?
    case AwaitsQueueing(r, _) => r.origin.FromStack?
    case ClientRead(r) => r.origin.FromClient?
    case _ => true
  }

  ghost predicate AllRightOrigin(ts: seq<Thread>) {
    forall i :: 0 <= i < |ts| ==> RightOrigin(ts[i])
  }

  ghost predicate Quiet(s: System) {
    && AllRightOrigin(s.threads)
    && (s.handle.Open? <==> s.fdo.owner.Some?)
    && (!s.handle.Open? ==> ClientIdle(s) && !s.fdo.radioPresent)
    && (s.handle.Closed? ==> AllEmpty(s.fdo))
  }

  predicate AllEmpty(s: State) {
    s.user.backlog == [] && s.events.backlog == [] && s.data.backlog == []
  }

  // ---------------------------------------------------------------------------
  // With no owner, a callback that does not serve the client adds nothing
  // ---------------------------------------------------------------------------

  lemma OriginsStay(s: State, t: Thread, a: Answer)
    requires RightOrigin(t)
    ensures RightOrigin(Move(s, t, a).thread)
  {
  }

  lemma OwnerlessQueueing(s: State, t: Thread, p: Packet, poolOk: bool)
    requires s.owner.None? && t.AwaitsQueueing? && RightOrigin(t)
    ensures var m := AfterQueueing(t.r, p, |p.body|, QueueToUser(s, p, poolOk));
            && !ServesClient(m.thread) && m.fdo.owner.None? && m.fdo.user.parked == s.user.parked
            && m.fdo.radioPresent == s.radioPresent
            && (AllEmpty(s) ==> AllEmpty(m.fdo))
  {
  }

  lemma StackReadStaysAway(s: State, t: Thread, a: Answer)
    requires t.StackRead? && RightOrigin(t)
    ensures var m := Move(s, t, a);
            && !ServesClient(m.thread) && m.fdo.owner == s.owner && m.fdo.user.parked == s.user.parked
            && m.fdo.radioPresent == s.radioPresent
            && (AllEmpty(s) ==> AllEmpty(m.fdo))
  {
  }

  lemma OwnerlessMove(s: State, t: Thread, a: Answer)
    requires s.owner.None? && !ServesClient(t) && RightOrigin(t)
    ensures var m := Move(s, t, a);
            && !ServesClient(m.thread) && m.fdo.owner.None? && m.fdo.user.parked == s.user.parked
            && m.fdo.radioPresent == s.radioPresent
            && (AllEmpty(s) ==> AllEmpty(m.fdo))
  {
    match t
    case StackRead(_, _) => StackReadStaysAway(s, t, a);
    case AwaitsQueueing(_, p) => OwnerlessQueueing(s, t, p, a.poolOk);
    case _ =>
  }

  lemma OwnerStays(s: State, r: Region)
    requires Allowed(s, r) && !r.TakesOwnership? && !r.ReleasesOwnership?
    ensures Apply(s, r).owner == s.owner
  {
    match r
    case QueuesToUser(p, poolOk) => QueueingKeepsOwner(s, p, poolOk);
    case DeliversToStack(p, poolOk) => DeliveryKeepsOwner(s, p, poolOk);
    case _ =>
  }

  lemma QueueingKeepsOwner(s: State, p: Packet, poolOk: bool)
    ensures QueueToUser(s, p, poolOk).state.owner == s.owner
  {
  }

  lemma DeliveryKeepsOwner(s: State, p: Packet, poolOk: bool)
    ensures DeliverToStack(s, p, poolOk).state.owner == s.owner
  {
  }

  lemma MoveIsNoHandleEvent(s: State, t: Thread, a: Answer)
    ensures !RegionOfMove(s, t, a).TakesOwnership? && !RegionOfMove(s, t, a).ReleasesOwnership?
  {
  }

  // ---------------------------------------------------------------------------
  // Steps and runs
  // ---------------------------------------------------------------------------

  lemma GoStaysQuiet(s: System, i: nat, a: Answer)
    requires Quiet(s) && Enabled(s, Go(i, a))
    ensures Quiet(Step(s, Go(i, a)))
  {
    var t := s.threads[i];
    OriginsStay(s.fdo, t, a);
    MoveAppliesRegion(s.fdo, t, a);
    MoveIsNoHandleEvent(s.fdo, t, a);
    OwnerStays(s.fdo, RegionOfMove(s.fdo, t, a));
    if !s.handle.Open? {
      OwnerlessMove(s.fdo, t, a);
    }
  }

  lemma HandleStepStaysQuiet(s: System, l: Label)
    requires Quiet(s) && Enabled(s, l) && (l.OpenHandle? || l.BeginClose? || l.ContinueClose?)
    ensures Quiet(Step(s, l))
  {
  }

  lemma RadioStepStaysQuiet(s: System, l: Label)
    requires Quiet(s) && Enabled(s, l)
    requires l.EnterD0? || l.ExitD0? || l.CreatePdo? || l.DestroyPdo? || l.FrameworkCancels?
    ensures Quiet(Step(s, l))
  {
  }

  lemma ArrivalStaysQuiet(s: System, l: Label)
    requires Quiet(s) && Enabled(s, l) && (l.Issue? || l.DeviceCleanup?)
    ensures Quiet(Step(s, l))
  {
  }

  lemma StepStaysQuiet(s: System, l: Label)
    requires Quiet(s) && Enabled(s, l)
    ensures Quiet(Step(s, l))
  {
    match l
    case Go(i, a) => GoStaysQuiet(s, i, a);
    case OpenHandle(_) | BeginClose | ContinueClose => HandleStepStaysQuiet(s, l);
    case Issue(_) | DeviceCleanup => ArrivalStaysQuiet(s, l);
    case _ => RadioStepStaysQuiet(s, l);
  }

  lemma {:induction false} RunsStayQuiet(knob: ULong, labels: seq<Label>)
    requires Run(knob, labels).Some?
    ensures Quiet(Run(knob, labels).value)
  {
    if labels != [] {
      var before := labels[..|labels| - 1];
      RunsStayQuiet(knob, before);
      StepStaysQuiet(Run(knob, before).value, labels[|labels| - 1]);
    }
  }

  /** Closed means empty, nobody owns the device or waits for the client, and the
      next client may ask for a radio of its own. */
  lemma {:induction false} ClosedMeansEmpty(knob: ULong, labels: seq<Label>)
    requires Run(knob, labels).Some? && Run(knob, labels).value.handle.Closed?
    ensures var s := Run(knob, labels).value;
            && s.fdo.user.backlog == [] && s.fdo.events.backlog == [] && s.fdo.data.backlog == []
            && s.fdo.user.parked == [] && s.fdo.owner.None? && !s.fdo.radioPresent
  {
    RunsStayQuiet(knob, labels);
  }

  lemma {:induction false} ReturnedHandleNothing(ts: seq<Thread>)
    requires forall t :: t in ts ==> t.Returned?
    ensures Tally(ts, Handling(None)) == 0
  {
    if ts != [] {
      ReturnedHandleNothing(ts[..|ts| - 1]);
    }
  }

  /** So once the handle is closed and every callback has returned, the pool has
      all its packets back: nothing is left to leak at unload. */
  lemma ClosedAndIdleLeaksNothing(knob: ULong, labels: seq<Label>)
    requires Run(knob, labels).Some? && Run(knob, labels).value.handle.Closed?
    requires forall t :: t in Run(knob, labels).value.threads ==> t.Returned?
    ensures var h := Run(knob, labels).value.fdo.history;
            |h.freed| == h.nextSerial && Rendezvous.NoRepeats(h.freed)
  {
    ClosedMeansEmpty(knob, labels);
    OutstandingIsListedOrInHand(knob, labels);
    ReturnedHandleNothing(Run(knob, labels).value.threads);
    NothingIsFreedTwice(knob, labels);
  }
}
