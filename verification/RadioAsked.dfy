/** What RadioPresent means: the client has been given a radio since it opened the
    handle, or one is being added for it. One handle, one radio - and a client whose
    radio could not be added may ask again. */
module RadioAsked {
  import opened Hci
  import opened Rendezvous
  import opened Channels
  import opened Fdo
  import opened Driver
  import opened Ledgers
  import Acceptance
  import Answers
  import Closing
  import RadioLife
  import RadioRuns

  /** 1 for a callback that is adding a radio, or undoing one that failed. */
  function Adding(t: Thread): nat {
    if t.AddsRadio? || t.ForgetsRadio? then 1 else 0
  }

  function Replying(t: Thread): nat {
    if t.Replies? then 1 else 0
  }

  /** Step l reports a radio to PnP for the client. */
  predicate Gives(s: System, l: Label)
    requires Enabled(s, l)
  {
    l.Go? && s.threads[l.i].AddsRadio? && l.answer.addOk
  }

  /** How many radios the client has been given since the handle was last opened, or
      since its close began. */
  function Given(knob: ULong, labels: seq<Label>): nat
    requires Run(knob, labels).Some?
  {
    if labels == [] then 0
    else
      var before, l := labels[..|labels| - 1], labels[|labels| - 1];
      if l.OpenHandle? || l.BeginClose? then 0
      else Given(knob, before) + if Gives(Run(knob, before).value, l) then 1 else 0
  }

  // ---------------------------------------------------------------------------
  // The invariant
  // ---------------------------------------------------------------------------

  function Bit(b: bool): nat {
    if b then 1 else 0
  }

  /** A callback that has taken an id has the current one. */
  predicate KnowsId(t: Thread, s: State) {
    match t
    case AddsRadio(_, _, id) => id == s.currentRadioId
    case Replies(_, _, id) => id == s.currentRadioId && id in s.reported
    case _ => true
  }

  ghost predicate Told(s: System, given: nat) {
    && Tally(s.threads, Adding) + given == Bit(s.fdo.radioPresent)
    && Tally(s.threads, Replying) <= given
    && (forall i :: 0 <= i < |s.threads| ==> KnowsId(s.threads[i], s.fdo))
    && (given == 1 ==> s.fdo.currentRadioId in s.fdo.reported)
  }

  lemma {:induction false} OneCounts(ts: seq<Thread>, i: nat, f: Thread -> nat)
    requires i < |ts|
    ensures Tally(ts, f) >= f(ts[i])
  {
    if i < |ts| - 1 {
      OneCounts(ts[..|ts| - 1], i, f);
    }
  }

  lemma {:induction false} NoneCounts(ts: seq<Thread>, f: Thread -> nat)
    requires forall i :: 0 <= i < |ts| ==> f(ts[i]) == 0
    ensures Tally(ts, f) == 0
  {
    if ts != [] {
      NoneCounts(ts[..|ts| - 1], f);
    }
  }

  // ---------------------------------------------------------------------------
  // Moves
  // ---------------------------------------------------------------------------

  predicate SameClaim(s: State, t: State) {
    t.radioPresent == s.radioPresent && t.currentRadioId == s.currentRadioId && t.reported == s.reported
  }

  lemma QueueForUserKeepsClaim(s: State, p: Packet, poolOk: bool)
    ensures SameClaim(s, QueueForUser(s, p, poolOk))
  {
    hide Append, AllocFails, InjectFailure;
  }

  lemma QueueingKeepsClaim(s: State, p: Packet, poolOk: bool)
    ensures SameClaim(s, QueueToUser(s, p, poolOk).state)
  {
    QueueForUserKeepsClaim(s, p, poolOk);
    hide QueueForUser, HandOff, WaitingRead;
  }

  lemma QueueForStackKeepsClaim(s: State, p: Packet, poolOk: bool)
    ensures SameClaim(s, QueueForStack(s, p, poolOk).state)
  {
    hide Append, AllocFails, InjectFailure;
  }

  lemma DeliveryKeepsClaim(s: State, p: Packet, poolOk: bool)
    ensures SameClaim(s, DeliverToStack(s, p, poolOk).state)
  {
    QueueForStackKeepsClaim(s, p, poolOk);
    hide QueueForStack, HandOff, WaitingRead;
  }

  predicate IsClaim(r: Region) {
    r.MakesRadioCurrent? || r.ReportsRadio? || r.ForgetsTheRadio? || r.ReleasesOwnership?
  }

  lemma OthersKeepClaim(s: State, r: Region)
    requires Allowed(s, r) && !IsClaim(r)
    ensures SameClaim(s, Apply(s, r))
  {
    match r
    case QueuesToUser(p, poolOk) => QueueingKeepsClaim(s, p, poolOk);
    case DeliversToStack(p, poolOk) => DeliveryKeepsClaim(s, p, poolOk);
    case _ => PlainRegionKeepsClaim(s, r);
  }

  lemma PlainRegionKeepsClaim(s: State, r: Region)
    requires Allowed(s, r) && !IsClaim(r) && !r.QueuesToUser? && !r.DeliversToStack?
    ensures SameClaim(s, Apply(s, r))
  {
    hide QueueToUser, DeliverToStack, TakeHead, Park, FreeAll, CancelRead, PurgeQueue, StartQueue;
  }

  lemma RadioMove(s: State, t: Thread, a: Answer)
    requires t.Control? || t.AddsRadio? || t.ForgetsRadio?
    requires Adding(t) == 1 ==> s.radioPresent
    requires KnowsId(t, s)
    ensures var m := Move(s, t, a); MovesOn(s, t, t.AddsRadio? && a.addOk, m.fdo, m.thread)
  {
  }

  lemma OtherMove(s: State, t: Thread, a: Answer)
    requires !t.Control? && !t.AddsRadio? && !t.ForgetsRadio?
    ensures var m := Move(s, t, a); AddsNothing(m.thread) && SameClaim(s, m.fdo)
  {
    MoveAppliesRegion(s, t, a);
    OtherRegion(s, t, a);
    OthersKeepClaim(s, RegionOfMove(s, t, a));
    OtherThread(s, t, a);
    hide Move, RegionOfMove, Apply, AddsNothing;
  }

  predicate AddsNothing(t: Thread) {
    Adding(t) == 0 && Replying(t) == 0
  }

  lemma OtherRegion(s: State, t: Thread, a: Answer)
    requires !t.Control? && !t.AddsRadio? && !t.ForgetsRadio?
    ensures !IsClaim(RegionOfMove(s, t, a))
  {
  }

  lemma OtherThread(s: State, t: Thread, a: Answer)
    requires !t.Control? && !t.AddsRadio? && !t.ForgetsRadio?
    ensures AddsNothing(Move(s, t, a).thread)
  {
    hide QueueToUser, DeliverToStack, PostClientRead, PostStackRead, CompleteRead, ClassifyStackRead;
    hide ClassifyStackWrite, Admit, PurgeQueue, PurgeBacklogs, Purged, Freed;
  }

  /** What callback i must have done for the rest to stay as it was. */
  predicate MovesOn(s: State, t: Thread, gives: bool, s': State, t': Thread) {
    && Adding(t') + Bit(gives) + Bit(s.radioPresent) == Adding(t) + Bit(s'.radioPresent)
    && Replying(t') <= Bit(gives)
    && KnowsId(t', s') && s.reported <= s'.reported
    && (s.radioPresent ==> s'.currentRadioId == s.currentRadioId)
    && (gives ==> s'.currentRadioId in s'.reported)
  }

  lemma GoMoves(s: State, t: Thread, a: Answer)
    requires (Adding(t) == 1 ==> s.radioPresent) && KnowsId(t, s)
    ensures var m := Move(s, t, a); MovesOn(s, t, t.AddsRadio? && a.addOk, m.fdo, m.thread)
  {
    if t.Control? || t.AddsRadio? || t.ForgetsRadio? {
      RadioMove(s, t, a);
    } else {
      OtherMove(s, t, a);
      hide Move;
    }
  }

  lemma OthersKnowTheirId(s: System, i: nat, s': State, t': Thread, given: nat)
    requires Told(s, given) && i < |s.threads|
    requires s.fdo.reported <= s'.reported && (s.fdo.radioPresent ==> s'.currentRadioId == s.fdo.currentRadioId)
    ensures forall j :: 0 <= j < |s.threads| && j != i ==> KnowsId(s.threads[j], s')
  {
    forall j | 0 <= j < |s.threads| && j != i ensures KnowsId(s.threads[j], s') {
      OneCounts(s.threads, j, Adding);
      OneCounts(s.threads, j, Replying);
      hide Tally;
    }
  }

  lemma GoTells(s: System, i: nat, a: Answer, given: nat)
    requires Told(s, given) && Enabled(s, Go(i, a))
    ensures Told(Step(s, Go(i, a)), given + Bit(Gives(s, Go(i, a))))
  {
    var t, m := s.threads[i], Move(s.fdo, s.threads[i], a);
    GoStep(s, i, a);
    OneCounts(s.threads, i, Adding);
    OneCounts(s.threads, i, Replying);
    hide Step, Move, Tally, KnowsId;
    assert KnowsId(t, s.fdo);
    GoMoves(s.fdo, t, a);
    TallyUpdate(s.threads, i, m.thread, Adding);
    TallyUpdate(s.threads, i, m.thread, Replying);
    OthersKnowTheirId(s, i, m.fdo, m.thread, given);
  }

  lemma HandleTells(s: System, l: Label, given: nat)
    requires Told(s, given) && Closing.Quiet(s) && Enabled(s, l) && (l.OpenHandle? || l.BeginClose?)
    ensures Told(Step(s, l), 0)
  {
    forall i | 0 <= i < |s.threads| ensures Adding(s.threads[i]) == 0 && Replying(s.threads[i]) == 0 {
      assert !ServesClient(s.threads[i]);
    }
    NoneCounts(s.threads, Adding);
    NoneCounts(s.threads, Replying);
    hide Tally;
  }

  lemma ArrivalAddsNothing(s: System, l: Label)
    requires l.Issue? || l.DeviceCleanup?
    ensures AddsNothing(Starting(s, l))
  {
  }

  lemma AddsNothingCounts(t: Thread, s: State)
    requires AddsNothing(t)
    ensures Adding(t) == 0 && Replying(t) == 0 && KnowsId(t, s)
  {
  }

  lemma ArrivalTells(s: System, l: Label, given: nat)
    requires Told(s, given) && Enabled(s, l) && (l.Issue? || l.DeviceCleanup?)
    ensures Told(Step(s, l), given)
  {
    var t := Starting(s, l);
    ArrivalStep(s, l);
    ArrivalAddsNothing(s, l);
    hide Step, Starting, Tally, KnowsId, AddsNothing, Enabled;
    AddsNothingCounts(t, s.fdo);
    TallyAppend(s.threads, t, Adding);
    TallyAppend(s.threads, t, Replying);
  }

  lemma OtherStepTells(s: System, l: Label, given: nat)
    requires Told(s, given) && Enabled(s, l)
    requires !l.Go? && !l.OpenHandle? && !l.BeginClose? && !l.Issue? && !l.DeviceCleanup?
    ensures Told(Step(s, l), given)
  {
    QuietSteps(s, l);
    StepAppliesRegion(s, l);
    assert !IsClaim(RegionOf(s, l));
    OthersKeepClaim(s.fdo, RegionOf(s, l));
    hide Step, RegionOf, Apply, Tally;
  }

  lemma {:induction false} RunsTell(knob: ULong, labels: seq<Label>)
    requires Run(knob, labels).Some?
    ensures Told(Run(knob, labels).value, Given(knob, labels))
  {
    if labels != [] {
      var before, l := labels[..|labels| - 1], labels[|labels| - 1];
      var s, given := Run(knob, before).value, Given(knob, before);
      RunsTell(knob, before);
      Closing.RunsStayQuiet(knob, before);
      hide Told, Step, Closing.Quiet;
      match l
      case Go(i, a) => GoTells(s, i, a, given);
      case OpenHandle(_) | BeginClose => HandleTells(s, l, given);
      case Issue(_) | DeviceCleanup => ArrivalTells(s, l, given);
      case _ => OtherStepTells(s, l, given);
    }
  }

  // ---------------------------------------------------------------------------
  // What every run guarantees
  // ---------------------------------------------------------------------------

  /** The client has a radio, or one is being added. */
  predicate HasRadio(knob: ULong, labels: seq<Label>)
    requires Run(knob, labels).Some?
  {
    Tally(Run(knob, labels).value.threads, Adding) + Given(knob, labels) >= 1
  }

  /** One handle, one radio, and RadioPresent says whether. */
  lemma RadioPresentMeans(knob: ULong, labels: seq<Label>)
    requires Run(knob, labels).Some?
    ensures Tally(Run(knob, labels).value.threads, Adding) + Given(knob, labels) <= 1
    ensures Run(knob, labels).value.fdo.radioPresent <==> HasRadio(knob, labels)
  {
    RunsTell(knob, labels);
  }

  lemma ControlLooks(s: State, t: Thread, a: Answer)
    requires t.Control?
    ensures Move(s, t, a).thread == if s.radioPresent then Finishing(t.r, InvalidDeviceState, 0)
                                    else AddsRadio(t.r, t.opcode, s.nextRadioId)
  {
  }

  /** A control packet is refused exactly if the client has a radio or one is being
      added; otherwise the next id is taken for it. */
  lemma ControlIsRefusedExactly(knob: ULong, labels: seq<Label>, i: nat, a: Answer)
    requires Run(knob, labels).Some? && i < |Run(knob, labels).value.threads|
    requires Run(knob, labels).value.threads[i].Control?
    ensures var s := Run(knob, labels).value;
            var m, t := Move(s.fdo, s.threads[i], a), s.threads[i];
            m.thread == if HasRadio(knob, labels) then Finishing(t.r, InvalidDeviceState, 0)
                        else AddsRadio(t.r, t.opcode, s.fdo.nextRadioId)
  {
    RadioPresentMeans(knob, labels);
    var s, t := Run(knob, labels).value, Run(knob, labels).value.threads[i];
    ControlLooks(s.fdo, t, a);
    hide Run, HasRadio, Move;
  }

  /** Once AddRadio has failed and been undone the client has no radio, so that a
      control packet may ask again. */
  lemma FailedMayAskAgain(knob: ULong, labels: seq<Label>, i: nat, a: Answer)
    requires Run(knob, labels).Some? && i < |Run(knob, labels).value.threads|
    requires Run(knob, labels).value.threads[i].ForgetsRadio?
    ensures Run(knob, labels + [Go(i, a)]).Some? && !HasRadio(knob, labels + [Go(i, a)])
    ensures !Run(knob, labels + [Go(i, a)]).value.fdo.radioPresent
  {
    var s, more := Run(knob, labels).value, labels + [Go(i, a)];
    assert more[..|more| - 1] == labels;
    RunsTell(knob, labels);
    OneCounts(s.threads, i, Adding);
    GoStep(s, i, a);
    TallyUpdate(s.threads, i, Move(s.fdo, s.threads[i], a).thread, Adding);
    RadioPresentMeans(knob, more);
  }

  /** A write is let through exactly if the client has a radio and the stack is up: some
      radio has entered D0 while current and none has left it while current since. */
  lemma AdmittedExactly(knob: ULong, labels: seq<Label>, i: nat, a: Answer)
    requires Run(knob, labels).Some? && i < |Run(knob, labels).value.threads|
    requires Run(knob, labels).value.threads[i].AwaitsAdmission?
    ensures var s := Run(knob, labels).value;
            var m, t := Move(s.fdo, s.threads[i], a), s.threads[i];
            m.thread == if HasRadio(knob, labels) && RadioLife.Started(s.fdo.history.life) then AwaitsDelivery(t.r, t.p)
                        else Finishing(t.r, DeviceNotReady, 0)
  {
    RadioPresentMeans(knob, labels);
    RadioRuns.RadioStartedMeans(knob, labels);
    hide Run, HasRadio, Admit, RadioLife.Started;
  }

  lemma ReplyTells(s: State, t: Thread, calls: seq<Incoming>)
    requires t.Replies? && KnowsId(t, s) && Answers.Holds(t, calls)
    ensures var id := s.currentRadioId;
            && id in s.reported
            && t.r.id < |calls| && calls[t.r.id].WriteFile? && calls[t.r.id].bytes == [0xFF, t.opcode]
            && Acceptance.Settling(t)
               == Some(Acceptance.Replied(t.r, Packet(0xFF, [0xFF, t.opcode, id % 0x100, id / 0x100 % 0x100])))
  {
  }

  /** The reply to a control packet tells its opcode and the id of the radio that is now
      the current one, which PnP has been told of. */
  lemma RepliesTellTheRadio(knob: ULong, labels: seq<Label>, i: nat)
    requires Run(knob, labels).Some? && i < |Run(knob, labels).value.threads|
    requires Run(knob, labels).value.threads[i].Replies?
    ensures var s, calls := Run(knob, labels).value, Answers.Calls(labels);
            var t, id := s.threads[i], s.fdo.currentRadioId;
            && id in s.fdo.reported
            && t.r.id < |calls| && calls[t.r.id].WriteFile? && calls[t.r.id].bytes == [0xFF, t.opcode]
            && Acceptance.Settling(t)
               == Some(Acceptance.Replied(t.r, Packet(0xFF, [0xFF, t.opcode, id % 0x100, id / 0x100 % 0x100])))
  {
    RunsTell(knob, labels);
    Answers.RunsAreLawful(knob, labels);
    var s, calls := Run(knob, labels).value, Answers.Calls(labels);
    assert KnowsId(s.threads[i], s.fdo);
    assert Answers.Holds(s.threads[i], calls);
    hide Run, Answers.Calls, Told, Answers.AllLawful;
    ReplyTells(s.fdo, s.threads[i], calls);
  }
}
