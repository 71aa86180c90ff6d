/** The radio state of every run agrees with its history. */
module RadioRuns {
  import opened Hci
  import opened Rendezvous
  import opened Channels
  import opened Fdo
  import opened Driver
  import opened RadioLife

  // ---------------------------------------------------------------------------
  // RadioStarted follows the history of control packets and D0 transitions
  // ---------------------------------------------------------------------------

  ghost predicate FollowsLife(s: State) {
    && s.currentRadioId == CurrentOf(s.history.life)
    && (s.radioStarted <==> Started(s.history.life))
    && s.nextRadioId == Wrap(s.history.controls + 1)
  }

  predicate SameRadio(s: State, t: State) {
    && t.radioStarted == s.radioStarted && t.currentRadioId == s.currentRadioId
    && t.nextRadioId == s.nextRadioId && t.history.life == s.history.life
    && t.history.controls == s.history.controls
  }

  lemma QueueingLeavesRadio(s: State, p: Packet, poolOk: bool)
    ensures SameRadio(s, QueueToUser(s, p, poolOk).state) && QueueToUser(s, p, poolOk).state.reported == s.reported
  {
    hide QueueForUser, HandOff, WaitingRead;
    QueueForUserLeavesRadio(s, p, poolOk);
  }

  lemma QueueForUserLeavesRadio(s: State, p: Packet, poolOk: bool)
    ensures var t := QueueForUser(s, p, poolOk); SameRadio(s, t) && t.reported == s.reported
  {
    hide Append, AllocFails, InjectFailure;
  }

  lemma DeliveryLeavesRadio(s: State, p: Packet, poolOk: bool)
    ensures var t := DeliverToStack(s, p, poolOk).state; SameRadio(s, t) && t.reported == s.reported
  {
    hide QueueForStack, HandOff, WaitingRead;
    QueueForStackLeavesRadio(s, p, poolOk);
  }

  lemma QueueForStackLeavesRadio(s: State, p: Packet, poolOk: bool)
    ensures var t := QueueForStack(s, p, poolOk).state; SameRadio(s, t) && t.reported == s.reported
  {
    hide Append, AllocFails, InjectFailure;
  }

  /** Regions that are not about the radio leave its state alone. */
  lemma OtherRegionsLeaveRadio(s: State, r: Region)
    requires Allowed(s, r) && !r.MakesRadioCurrent? && !r.EntersD0? && !r.LeavesD0?
    ensures SameRadio(s, Apply(s, r))
    ensures !r.ReportsRadio? ==> Apply(s, r).reported == s.reported
  {
    match r
    case QueuesToUser(p, poolOk) => QueueingLeavesRadio(s, p, poolOk);
    case DeliversToStack(p, poolOk) => DeliveryLeavesRadio(s, p, poolOk);
    case _ => PlainRegionLeavesRadio(s, r);
  }

  lemma PlainRegionLeavesRadio(s: State, r: Region)
    requires Allowed(s, r) && !r.MakesRadioCurrent? && !r.EntersD0? && !r.LeavesD0?
    requires !r.QueuesToUser? && !r.DeliversToStack?
    ensures SameRadio(s, Apply(s, r))
    ensures !r.ReportsRadio? ==> Apply(s, r).reported == s.reported
  {
    hide QueueToUser, DeliverToStack, TakeHead, Park, FreeAll, CancelRead, PurgeQueue, StartQueue;
  }

  lemma NewRadioFollowsLife(s: State)
    requires FollowsLife(s) && !s.radioPresent
    ensures FollowsLife(MakeRadioCurrent(s))
  {
    StartedExtends(s.history.life, BecameCurrent(s.nextRadioId));
    assert (s.history.life + [BecameCurrent(s.nextRadioId)])[..|s.history.life|] == s.history.life;
  }

  lemma EntryFollowsLife(s: State, id: ULong)
    requires FollowsLife(s)
    ensures FollowsLife(RadioEntersD0(s, id))
  {
    StartedExtends(s.history.life, EnteredD0(id));
    assert (s.history.life + [EnteredD0(id)])[..|s.history.life|] == s.history.life;
  }

  lemma ExitFollowsLife(s: State, id: ULong)
    requires FollowsLife(s)
    ensures FollowsLife(RadioLeavesD0(s, id))
  {
    StartedExtends(s.history.life, LeftD0(id));
    assert (s.history.life + [LeftD0(id)])[..|s.history.life|] == s.history.life;
  }

  lemma ApplyFollowsLife(s: State, r: Region)
    requires FollowsLife(s) && Allowed(s, r)
    ensures FollowsLife(Apply(s, r))
  {
    match r
    case MakesRadioCurrent => NewRadioFollowsLife(s);
    case EntersD0(id) => EntryFollowsLife(s, id);
    case LeavesD0(id) => ExitFollowsLife(s, id);
    case _ => OtherRegionsLeaveRadio(s, r);
  }

  lemma {:induction false} RunsFollowLife(knob: ULong, labels: seq<Label>)
    requires Run(knob, labels).Some?
    ensures FollowsLife(Run(knob, labels).value.fdo)
  {
    if labels != [] {
      var before := labels[..|labels| - 1];
      RunsFollowLife(knob, before);
      var s, l := Run(knob, before).value, labels[|labels| - 1];
      StepAppliesRegion(s, l);
      ApplyFollowsLife(s.fdo, RegionOf(s, l));
    }
  }

  // ---------------------------------------------------------------------------
  // PnP's view of D0 is in the history too
  // ---------------------------------------------------------------------------

  ghost predicate D0InLife(s: System) {
    forall id: ULong :: id in s.pnp.inD0 <==> InD0(s.fdo.history.life, id)
  }

  lemma InD0Extends(life: Life, e: LifeEvent, id: ULong)
    ensures InD0(life + [e], id) <==> if !e.BecameCurrent? && e.id == id then e.EnteredD0? else InD0(life, id)
  {
    assert (life + [e])[..|life|] == life;
  }

  /** How a step changes the history, the D0 set and the PDOs. */
  lemma StepLife(s: System, l: Label)
    requires Enabled(s, l)
    ensures var life, life' := s.fdo.history.life, Step(s, l).fdo.history.life;
            match RegionOf(s, l)
            case MakesRadioCurrent => life' == life + [BecameCurrent(s.fdo.nextRadioId)]
            case EntersD0(id) => life' == life + [EnteredD0(id)]
            case LeavesD0(id) => life' == life + [LeftD0(id)]
            case _ => life' == life
    ensures RegionOf(s, l).EntersD0? <==> l.EnterD0?
    ensures RegionOf(s, l).LeavesD0? <==> l.ExitD0?
  {
    StepAppliesRegion(s, l);
    var r := RegionOf(s, l);
    if !r.MakesRadioCurrent? && !r.EntersD0? && !r.LeavesD0? {
      OtherRegionsLeaveRadio(s.fdo, r);
    }
    hide Apply, RegionOfMove, FreshIds, Move;
  }

  lemma TransitionInLife(life: Life, e: LifeEvent, before: set<ULong>, after: set<ULong>)
    requires forall id: ULong :: id in before <==> InD0(life, id)
    requires after == match e
                      case BecameCurrent(_) => before
                      case EnteredD0(id) => before + {id}
                      case LeftD0(id) => before - {id}
    ensures forall id: ULong :: id in after <==> InD0(life + [e], id)
  {
    forall id: ULong ensures id in after <==> InD0(life + [e], id) {
      InD0Extends(life, e, id);
    }
  }

  lemma StepD0InLife(s: System, l: Label)
    requires D0InLife(s) && Enabled(s, l)
    ensures D0InLife(Step(s, l))
  {
    StepLife(s, l);
    var life, inD0, r := s.fdo.history.life, s.pnp.inD0, RegionOf(s, l);
    if r.EntersD0? {
      TransitionInLife(life, EnteredD0(r.id), inD0, Step(s, l).pnp.inD0);
    } else if r.LeavesD0? {
      TransitionInLife(life, LeftD0(r.id), inD0, Step(s, l).pnp.inD0);
    } else if r.MakesRadioCurrent? {
      TransitionInLife(life, BecameCurrent(s.fdo.nextRadioId), inD0, Step(s, l).pnp.inD0);
    }
  }

  lemma {:induction false} RunsD0InLife(knob: ULong, labels: seq<Label>)
    requires Run(knob, labels).Some?
    ensures D0InLife(Run(knob, labels).value)
  {
    if labels != [] {
      var before := labels[..|labels| - 1];
      RunsD0InLife(knob, before);
      StepD0InLife(Run(knob, before).value, labels[|labels| - 1]);
    }
  }

  // ---------------------------------------------------------------------------
  // Ids are fresh for as long as there have been fewer than 2^32 control packets
  // ---------------------------------------------------------------------------

  predicate FewControls(s: System) {
    s.fdo.history.controls < ULONG_SIZE
  }

  /** Every id anybody knows was handed out already. */
  ghost predicate IdsHandedOut(s: System) {
    var n := s.fdo.history.controls;
    && s.fdo.currentRadioId as int == n
    && s.fdo.nextRadioId == Wrap(n + 1)
    && (forall i :: 0 <= i < |s.fdo.history.life| ==> s.fdo.history.life[i].id as int <= n)
    && (forall id :: id in s.fdo.reported ==> id as int <= n)
    && (forall id :: id in s.pnp.created ==> id as int <= n)
    && (forall id :: id in s.pnp.inD0 ==> id as int <= n)
    && (forall i :: 0 <= i < |s.threads| && s.threads[i].AddsRadio? ==> s.threads[i].id as int <= n)
    && FreshIds(s.fdo.history.life)
  }

  lemma ControlsGrow(s: System, l: Label)
    requires Enabled(s, l)
    ensures Step(s, l).fdo.history.controls
         == s.fdo.history.controls + if RegionOf(s, l).MakesRadioCurrent? then 1 else 0
  {
    StepAppliesRegion(s, l);
    var r := RegionOf(s, l);
    if !r.MakesRadioCurrent? && !r.EntersD0? && !r.LeavesD0? {
      OtherRegionsLeaveRadio(s.fdo, r);
    }
  }

  lemma FreshExtends(life: Life, e: LifeEvent)
    requires FreshIds(life)
    requires e.BecameCurrent? ==> forall i :: 0 <= i < |life| ==> life[i].id != e.id
    ensures FreshIds(life + [e])
  {
  }

  /** A callback's step: a new id, a report of one, or nothing about radios. */
  lemma GoHandsOut(s: System, i: nat, a: Answer)
    requires IdsHandedOut(s) && Enabled(s, Go(i, a)) && FewControls(Step(s, Go(i, a)))
    ensures IdsHandedOut(Step(s, Go(i, a)))
  {
    var t := Step(s, Go(i, a));
    var r := RegionOf(s, Go(i, a));
    var m := Move(s.fdo, s.threads[i], a);
    ControlsGrow(s, Go(i, a));
    StepLife(s, Go(i, a));
    MoveAppliesRegion(s.fdo, s.threads[i], a);
    MoveIds(s.fdo, s.threads[i], a);
    if r.MakesRadioCurrent? {
      FreshExtends(s.fdo.history.life, BecameCurrent(s.fdo.nextRadioId));
    } else {
      OtherRegionsLeaveRadio(s.fdo, r);
    }
    hide Move, FreshIds, Apply, RegionOfMove;
  }

  /** Where the ids a callback's step mentions come from. */
  lemma MoveIds(s: State, t: Thread, a: Answer)
    ensures var r := RegionOfMove(s, t, a);
            && (r.ReportsRadio? ==> t.AddsRadio? && r.id == t.id)
            && !r.EntersD0? && !r.LeavesD0?
            && (Move(s, t, a).thread.AddsRadio? ==> r.MakesRadioCurrent? && Move(s, t, a).thread.id == s.nextRadioId)
  {
  }

  lemma PnpHandsOut(s: System, l: Label)
    requires IdsHandedOut(s) && Enabled(s, l) && (l.EnterD0? || l.ExitD0?)
    ensures IdsHandedOut(Step(s, l))
  {
    ControlsGrow(s, l);
    StepLife(s, l);
    FreshExtends(s.fdo.history.life, if l.EnterD0? then EnteredD0(l.id) else LeftD0(l.id));
  }

  lemma OtherStepsHandOut(s: System, l: Label)
    requires IdsHandedOut(s) && Enabled(s, l) && !l.Go? && !l.EnterD0? && !l.ExitD0?
    ensures IdsHandedOut(Step(s, l))
  {
    StepAppliesRegion(s, l);
    OtherStepRegion(s, l);
    if l.Issue? || l.DeviceCleanup? {
      ArrivalStep(s, l);
      assert !Starting(s, l).AddsRadio?;
    } else {
      QuietSteps(s, l);
    }
    hide Step, Apply, RegionOf, Starting, FreshIds;
    OtherRegionsLeaveRadio(s.fdo, RegionOf(s, l));
  }

  lemma OtherStepRegion(s: System, l: Label)
    requires IdsHandedOut(s) && Enabled(s, l) && !l.Go? && !l.EnterD0? && !l.ExitD0?
    ensures var r := RegionOf(s, l); !r.MakesRadioCurrent? && !r.EntersD0? && !r.LeavesD0? && !r.ReportsRadio?
    ensures var t := Step(s, l);
            && t.pnp.inD0 == s.pnp.inD0
            && forall id :: id in t.pnp.created ==> id in s.pnp.created || id in s.fdo.reported
  {
  }

  lemma StepHandsOut(s: System, l: Label)
    requires IdsHandedOut(s) && Enabled(s, l) && FewControls(Step(s, l))
    ensures IdsHandedOut(Step(s, l))
  {
    match l
    case Go(i, a) => GoHandsOut(s, i, a);
    case EnterD0(_) | ExitD0(_) => PnpHandsOut(s, l);
    case _ => OtherStepsHandOut(s, l);
  }

  lemma {:induction false} RunsHandOut(knob: ULong, labels: seq<Label>)
    requires Run(knob, labels).Some? && FewControls(Run(knob, labels).value)
    ensures IdsHandedOut(Run(knob, labels).value)
  {
    if labels != [] {
      var before := labels[..|labels| - 1];
      var s, l := Run(knob, before).value, labels[|labels| - 1];
      ControlsGrow(s, l);
      RunsHandOut(knob, before);
      StepHandsOut(s, l);
    }
  }

  // ---------------------------------------------------------------------------
  // What every run guarantees
  // ---------------------------------------------------------------------------

  /** The exact meaning of RadioStarted: some radio entered D0 while it was
      current and none has left D0 while current since. */
  lemma {:induction false} RadioStartedMeans(knob: ULong, labels: seq<Label>)
    requires Run(knob, labels).Some?
    ensures var s := Run(knob, labels).value.fdo;
            && (s.radioStarted <==> Started(s.history.life))
            && s.currentRadioId == CurrentOf(s.history.life)
  {
    RunsFollowLife(knob, labels);
  }

  /** Radio identity: while the current radio is in D0, RadioStarted holds. An
      older radio's late D0Exit never makes the newer radio refuse writes. */
  lemma {:induction false} CurrentRadioInD0IsStarted(knob: ULong, labels: seq<Label>)
    requires Run(knob, labels).Some? && FewControls(Run(knob, labels).value)
    ensures var s := Run(knob, labels).value;
            s.fdo.currentRadioId in s.pnp.inD0 ==> s.fdo.radioStarted
  {
    RunsFollowLife(knob, labels);
    RunsD0InLife(knob, labels);
    RunsHandOut(knob, labels);
    StartedIsInD0OrInherited(Run(knob, labels).value.fdo.history.life);
  }

  /** And when it holds without the current radio in D0, it was inherited from an
      earlier radio, one with a smaller id. */
  lemma {:induction false} RadioStartedIsInD0OrInherited(knob: ULong, labels: seq<Label>)
    requires Run(knob, labels).Some? && FewControls(Run(knob, labels).value)
    ensures var s := Run(knob, labels).value;
            && (s.fdo.radioStarted <==> s.fdo.currentRadioId in s.pnp.inD0 || Inherited(s.fdo.history.life))
            && forall i :: 0 <= i < |s.fdo.history.life| ==> s.fdo.history.life[i].id <= s.fdo.currentRadioId
  {
    RunsFollowLife(knob, labels);
    RunsD0InLife(knob, labels);
    RunsHandOut(knob, labels);
    StartedIsInD0OrInherited(Run(knob, labels).value.fdo.history.life);
  }

  /** On runs where each radio leaves D0 before the next control packet,
      RadioStarted holds exactly when the current radio is in D0. */
  lemma {:induction false} OrderlyRunsAreFaithful(knob: ULong, labels: seq<Label>)
    requires Run(knob, labels).Some? && FewControls(Run(knob, labels).value)
    requires Orderly(Run(knob, labels).value.fdo.history.life)
    ensures var s := Run(knob, labels).value;
            s.fdo.radioStarted <==> s.fdo.currentRadioId in s.pnp.inD0
  {
    RunsFollowLife(knob, labels);
    RunsD0InLife(knob, labels);
    RunsHandOut(knob, labels);
    OrderlyIsFaithful(Run(knob, labels).value.fdo.history.life);
  }

  /** RadiosAlive counts the radios created and not yet destroyed. */
  lemma {:induction false} RadiosAliveCounts(knob: ULong, labels: seq<Label>)
    requires Run(knob, labels).Some?
    ensures var pnp := Run(knob, labels).value.pnp;
            && pnp.destroyed <= pnp.created
            && pnp.radiosAlive == |pnp.created - pnp.destroyed|
  {
    if labels != [] {
      var before := labels[..|labels| - 1];
      RadiosAliveCounts(knob, before);
      var s, l := Run(knob, before).value, labels[|labels| - 1];
      var alive := s.pnp.created - s.pnp.destroyed;
      if l.CreatePdo? {
        assert l.id !in s.pnp.destroyed;
        assert (s.pnp.created + {l.id}) - s.pnp.destroyed == alive + {l.id};
      } else if l.DestroyPdo? {
        assert s.pnp.created - (s.pnp.destroyed + {l.id}) == alive - {l.id};
      } else {
        PnpStays(s, l);
      }
    }
  }

  lemma PnpStays(s: System, l: Label)
    requires Enabled(s, l) && !l.CreatePdo? && !l.DestroyPdo?
    ensures Step(s, l).pnp.created == s.pnp.created && Step(s, l).pnp.destroyed == s.pnp.destroyed
    ensures Step(s, l).pnp.radiosAlive == s.pnp.radiosAlive
  {
  }
}
