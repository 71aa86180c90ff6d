/** What can still be queued for a stack that has stopped consuming.

    Admission and delivery are two locked regions, so a write admitted before a
    D0Exit may queue after it. Nothing else may. */
module Residue {
  import opened Hci
  import opened Rendezvous
  import opened Channels
  import opened Fdo
  import opened Driver
  import opened Ledgers
  import RadioRuns

  /** Packets waiting for the stack. */
  function Waiting(s: State): nat {
    |s.events.backlog| + |s.data.backlog|
  }

  ghost predicate Bounded(s: System) {
    !s.fdo.radioStarted ==> Waiting(s.fdo) + Tally(s.threads, Undelivered) <= s.residue
  }

  // ---------------------------------------------------------------------------
  // Callbacks: a refused write leaves the sum alone, a delivery moves it along
  // ---------------------------------------------------------------------------

  lemma DeliveryMovesAlong(s: State, p: Packet, poolOk: bool)
    ensures Waiting(DeliverToStack(s, p, poolOk).state) <= Waiting(s) + 1
  {
    DeliverToStackMeets(s, p, poolOk);
    hide DeliverToStack;
  }

  lemma AfterDeliveryIsDelivered(r: Request, p: Packet, d: Delivered)
    ensures Undelivered(AfterDelivery(r, p, d).thread) == 0 && AfterDelivery(r, p, d).fdo == d.state
  {
  }

  lemma QueueingAddsNothing(s: State, p: Packet, poolOk: bool)
    ensures Waiting(QueueToUser(s, p, poolOk).state) == Waiting(s)
  {
    QueueToUserMeets(s, p, poolOk);
    hide QueueToUser;
  }

  lemma OtherRegionsAddNothing(s: State, r: Region)
    requires Allowed(s, r) && !r.DeliversToStack?
    ensures Waiting(Apply(s, r)) <= Waiting(s)
  {
    match r
    case QueuesToUser(p, poolOk) => QueueingAddsNothing(s, p, poolOk);
    case PostsClientRead(_, _) | PostsStackRead(_, _, _) => ReadAddsNothing(s, r);
    case _ => PlainRegionAddsNothing(s, r);
  }

  lemma ReadAddsNothing(s: State, r: Region)
    requires r.PostsClientRead? || r.PostsStackRead?
    ensures Waiting(Apply(s, r)) <= Waiting(s)
  {
    hide QueueToUser, DeliverToStack;
  }

  lemma PlainRegionAddsNothing(s: State, r: Region)
    requires Allowed(s, r)
    requires !r.DeliversToStack? && !r.QueuesToUser? && !r.PostsClientRead? && !r.PostsStackRead?
    ensures Waiting(Apply(s, r)) <= Waiting(s)
  {
    hide QueueToUser, DeliverToStack, PostClientRead, PostStackRead;
  }

  lemma DeliveringMove(s: State, t: Thread, a: Answer)
    requires t.AwaitsDelivery?
    ensures Waiting(Move(s, t, a).fdo) + Undelivered(Move(s, t, a).thread) <= Waiting(s) + Undelivered(t)
  {
    DeliveryMovesAlong(s, t.p, a.poolOk);
    AfterDeliveryIsDelivered(t.r, t.p, DeliverToStack(s, t.p, a.poolOk));
  }

  /** Only an admission makes a write undelivered, and only while started. */
  lemma OnlyAdmissionAdmits(s: State, t: Thread, a: Answer)
    requires !t.AwaitsDelivery? && Undelivered(Move(s, t, a).thread) == 1
    ensures t.AwaitsAdmission? && s.radioStarted
  {
  }

  lemma MoveIsBounded(s: State, t: Thread, a: Answer)
    requires !s.radioStarted
    ensures Waiting(Move(s, t, a).fdo) + Undelivered(Move(s, t, a).thread) <= Waiting(s) + Undelivered(t)
  {
    if t.AwaitsDelivery? {
      DeliveringMove(s, t, a);
    } else {
      MoveAppliesRegion(s, t, a);
      OtherRegionsAddNothing(s, RegionOfMove(s, t, a));
      if Undelivered(Move(s, t, a).thread) == 1 {
        OnlyAdmissionAdmits(s, t, a);
      }
    }
  }

  // ---------------------------------------------------------------------------
  // Steps and runs
  // ---------------------------------------------------------------------------

  lemma GoIsBounded(s: System, i: nat, a: Answer)
    requires Bounded(s) && Enabled(s, Go(i, a))
    ensures Bounded(Step(s, Go(i, a)))
  {
    MoveAppliesRegion(s.fdo, s.threads[i], a);
    RadioRuns.MoveIds(s.fdo, s.threads[i], a);
    MoveKeepsStarted(s.fdo, RegionOfMove(s.fdo, s.threads[i], a));
    if !s.fdo.radioStarted {
      MoveIsBounded(s.fdo, s.threads[i], a);
      TallyUpdate(s.threads, i, Move(s.fdo, s.threads[i], a).thread, Undelivered);
    }
  }

  lemma MoveKeepsStarted(s: State, r: Region)
    requires Allowed(s, r) && !r.EntersD0? && !r.LeavesD0?
    ensures Apply(s, r).radioStarted == s.radioStarted
  {
    if !r.MakesRadioCurrent? {
      RadioRuns.OtherRegionsLeaveRadio(s, r);
    }
  }

  lemma PnpIsBounded(s: System, l: Label)
    requires Bounded(s) && Enabled(s, l) && (l.EnterD0? || l.ExitD0?)
    ensures Bounded(Step(s, l))
  {
  }

  lemma NewCallbackIsBounded(s: System, l: Label)
    requires Bounded(s) && Enabled(s, l) && (l.Issue? || l.DeviceCleanup?)
    ensures Bounded(Step(s, l))
  {
    ArrivalStep(s, l);
    assert Undelivered(Starting(s, l)) == 0;
    hide Step, Starting, Undelivered;
    TallyAppend(s.threads, Starting(s, l), Undelivered);
  }

  lemma QuietStepIsBounded(s: System, l: Label)
    requires Bounded(s) && Enabled(s, l)
    requires !l.Go? && !l.Issue? && !l.DeviceCleanup? && !l.EnterD0? && !l.ExitD0?
    ensures Bounded(Step(s, l))
  {
    StepAppliesRegion(s, l);
    QuietSteps(s, l);
    QuietRegion(s, l);
    hide Step, Apply, RegionOf, Waiting;
    MoveKeepsStarted(s.fdo, RegionOf(s, l));
    OtherRegionsAddNothing(s.fdo, RegionOf(s, l));
  }

  lemma QuietRegion(s: System, l: Label)
    requires Enabled(s, l) && !l.Go? && !l.EnterD0? && !l.ExitD0?
    ensures !RegionOf(s, l).DeliversToStack? && Step(s, l).residue == s.residue
    ensures !RegionOf(s, l).EntersD0? && !RegionOf(s, l).LeavesD0?
  {
  }

  lemma StepIsBounded(s: System, l: Label)
    requires Bounded(s) && Enabled(s, l)
    ensures Bounded(Step(s, l))
  {
    match l
    case Go(i, a) => GoIsBounded(s, i, a);
    case EnterD0(_) | ExitD0(_) => PnpIsBounded(s, l);
    case Issue(_) | DeviceCleanup => NewCallbackIsBounded(s, l);
    case _ => QuietStepIsBounded(s, l);
  }

  /** Stack-down residue: while RadioStarted is false, what waits for the stack
      plus what is admitted and undelivered is at most what was admitted and
      undelivered when RadioStarted was last cleared. */
  lemma {:induction false} StackDownResidue(knob: ULong, labels: seq<Label>)
    requires Run(knob, labels).Some? && !Run(knob, labels).value.fdo.radioStarted
    ensures var s := Run(knob, labels).value;
            |s.fdo.events.backlog| + |s.fdo.data.backlog| + Tally(s.threads, Undelivered) <= s.residue
  {
    RunsAreBounded(knob, labels);
  }

  lemma {:induction false} RunsAreBounded(knob: ULong, labels: seq<Label>)
    requires Run(knob, labels).Some?
    ensures Bounded(Run(knob, labels).value)
  {
    if labels != [] {
      var before := labels[..|labels| - 1];
      RunsAreBounded(knob, before);
      StepIsBounded(Run(knob, before).value, labels[|labels| - 1]);
    }
  }

  // ---------------------------------------------------------------------------
  // Two readings of the bound
  // ---------------------------------------------------------------------------

  /** 1 for a client's event or ACL write from its arrival until it is handed over
      or settled. */
  function Writing(t: Thread): nat {
    if t.ClientWrite? || t.AwaitsAdmission? || t.AwaitsDelivery? || t.HoldsStackRead? then 1 else 0
  }

  lemma {:induction false} UndeliveredAreWriting(ts: seq<Thread>)
    ensures Tally(ts, Undelivered) <= Tally(ts, Writing)
  {
    if ts != [] {
      UndeliveredAreWriting(ts[..|ts| - 1]);
    }
  }

  /** The client never had more than k writes in flight at once. */
  ghost predicate AtMostAtOnce(knob: ULong, labels: seq<Label>, k: nat) {
    forall n :: 0 <= n <= |labels| && Run(knob, labels[..n]).Some? ==>
      Tally(Run(knob, labels[..n]).value.threads, Writing) <= k
  }

  lemma {:induction false} ResidueOfPatientClient(knob: ULong, labels: seq<Label>, k: nat)
    requires Run(knob, labels).Some? && AtMostAtOnce(knob, labels, k)
    ensures Run(knob, labels).value.residue <= k
  {
    if labels != [] {
      var before := labels[..|labels| - 1];
      forall n | 0 <= n <= |before| ensures before[..n] == labels[..n] {}
      ResidueOfPatientClient(knob, before, k);
      UndeliveredAreWriting(Run(knob, before).value.threads);
      assert labels[..|before|] == before;
    }
  }

  /** A client with at most k writes in flight at a time leaves at most k packets
      behind; one that writes one packet at a time leaves at most one. */
  lemma {:induction false} PatientClientLeavesLittle(knob: ULong, labels: seq<Label>, k: nat)
    requires Run(knob, labels).Some? && AtMostAtOnce(knob, labels, k)
    requires !Run(knob, labels).value.fdo.radioStarted
    ensures Waiting(Run(knob, labels).value.fdo) <= k
  {
    StackDownResidue(knob, labels);
    ResidueOfPatientClient(knob, labels, k);
  }

  /** Nothing is queued for the stack before any radio has entered D0. */
  lemma {:induction false} NothingBeforeFirstD0(knob: ULong, labels: seq<Label>)
    requires Run(knob, labels).Some?
    requires forall i :: 0 <= i < |labels| ==> !labels[i].EnterD0?
    ensures var s := Run(knob, labels).value;
            && !s.fdo.radioStarted && s.residue == 0 && s.pnp.inD0 == {}
            && s.fdo.events.backlog == [] && s.fdo.data.backlog == []
  {
    if labels != [] {
      var before := labels[..|labels| - 1];
      NothingBeforeFirstD0(knob, before);
      StaysBeforeD0(Run(knob, before).value, labels[|labels| - 1]);
      StackDownResidue(knob, labels);
    }
  }

  predicate BeforeD0(s: System) {
    !s.fdo.radioStarted && s.residue == 0 && s.pnp.inD0 == {}
  }

  lemma StaysBeforeD0(s: System, l: Label)
    requires BeforeD0(s) && Enabled(s, l) && !l.EnterD0?
    ensures BeforeD0(Step(s, l))
  {
    NoExitBeforeD0(s, l);
    StepAppliesRegion(s, l);
    NoD0Region(s, l);
    hide Step, Apply, RegionOf;
    MoveKeepsStarted(s.fdo, RegionOf(s, l));
  }

  lemma NoExitBeforeD0(s: System, l: Label)
    requires BeforeD0(s) && Enabled(s, l) && !l.EnterD0?
    ensures !l.ExitD0? && Step(s, l).residue == 0 && Step(s, l).pnp.inD0 == {}
  {
  }

  lemma NoD0Region(s: System, l: Label)
    requires Enabled(s, l) && !l.EnterD0? && !l.ExitD0?
    ensures !RegionOf(s, l).EntersD0? && !RegionOf(s, l).LeavesD0?
  {
  }
}
