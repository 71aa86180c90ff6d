/** A run, step by step, in which a client closes and reopens before the old
    radio has left D0: the new radio inherits RadioStarted without being in D0. */
module ReopenRun {
  import opened Hci
  import opened Rendezvous
  import opened Fdo
  import opened Driver
  import RadioRuns

  const ANSWER := Answer(true, true, true, Failed(0))
  const CREATE_RADIO: seq<Byte> := [0xFF, 0x00]

  lemma OneMoreStep(labels: seq<Label>, s: System, l: Label)
    requires Run(0, labels) == Some(s) && Enabled(s, l)
    ensures Run(0, labels + [l]) == Some(Step(s, l))
  {
    assert (labels + [l])[..|labels|] == labels;
  }

  /** One more step of callback n. */
  lemma GoesOn(labels: seq<Label>, s: System, n: nat) returns (more: seq<Label>, t: System)
    requires Run(0, labels) == Some(s) && n < |s.threads| && !s.threads[n].Returned?
    ensures Run(0, more) == Some(t)
    ensures var m := Move(s.fdo, s.threads[n], ANSWER);
            && t.fdo == m.fdo && t.threads == s.threads[n := m.thread]
            && t.handle == s.handle && t.pnp == s.pnp
  {
    var go := Go(n, ANSWER);
    t := Step(s, go);
    GoStep(s, n, ANSWER);
    OneMoreStep(labels, s, go);
    more := labels + [go];
  }

  /** The radio's state between the client's two opens. */
  predicate Stage(s: System, handle: Handle, present: bool, started: bool, current: ULong, inD0: set<ULong>) {
    && s.handle == handle && s.fdo.radioPresent == present && s.fdo.radioStarted == started
    && s.fdo.currentRadioId == current && s.fdo.nextRadioId as int == current as int + 1
    && s.pnp.inD0 == inD0 && s.fdo.user.parked == []
  }

  lemma ControlIsClassified()
    ensures ClassifyWrite(CREATE_RADIO) == CreateRadio(0)
  {
    assert CREATE_RADIO[1..] == [0];
  }

  /** From any closed state the client opens and asks for a radio; its control
      packet makes a fresh id current and leaves RadioStarted as it was. */
  lemma OpenAndAsk(labels: seq<Label>, s: System) returns (more: seq<Label>, t: System)
    requires Run(0, labels) == Some(s) && s.handle.Closed? && s.fdo.nextRadioId as int < ULONG_SIZE - 1
    requires Stage(s, Closed, false, s.fdo.radioStarted, s.fdo.currentRadioId, s.pnp.inD0)
    ensures Run(0, more) == Some(t)
    ensures Stage(t, Open, true, s.fdo.radioStarted, s.fdo.nextRadioId, s.pnp.inD0)
    ensures t.pnp == s.pnp && t.fdo.reported == s.fdo.reported
    ensures exists r :: t.threads == s.threads + [AddsRadio(r, 0, s.fdo.nextRadioId)]
  {
    hide Run;
    var r;
    more, t, r := ClientArrives(labels, s);
    var arrived := t.threads;
    more, t := ControlGoes(more, t, |s.threads|, r);
    var adds := AddsRadio(r, 0, s.fdo.nextRadioId);
    assert arrived[|s.threads| := adds] == s.threads + [adds];
  }

  /** The client opens the device and its control packet arrives. */
  lemma ClientArrives(labels: seq<Label>, s: System) returns (more: seq<Label>, t: System, r: Request)
    requires Run(0, labels) == Some(s)
    requires Stage(s, Closed, false, s.fdo.radioStarted, s.fdo.currentRadioId, s.pnp.inD0)
    ensures Run(0, more) == Some(t)
    ensures Stage(t, Open, false, s.fdo.radioStarted, s.fdo.currentRadioId, s.pnp.inD0)
    ensures t.pnp == s.pnp && t.fdo.reported == s.fdo.reported
    ensures t.threads == s.threads + [ClientWrite(r, CREATE_RADIO)]
  {
    var open, ask := OpenHandle(0), Issue(WriteFile(CREATE_RADIO));
    r := NewRequest(WriteFile(CREATE_RADIO), |s.issued|);
    var s1 := Step(s, open);
    OneMoreStep(labels, s, open);
    t := Step(s1, ask);
    ArrivalStep(s1, ask);
    OneMoreStep(labels + [open], s1, ask);
    more := labels + [open] + [ask];
    hide Run;
  }

  /** Its callback finds a control packet and takes a fresh id. */
  lemma ControlGoes(labels: seq<Label>, s: System, n: nat, r: Request) returns (more: seq<Label>, t: System)
    requires Run(0, labels) == Some(s) && n < |s.threads| && s.threads[n] == ClientWrite(r, CREATE_RADIO)
    requires Stage(s, Open, false, s.fdo.radioStarted, s.fdo.currentRadioId, s.pnp.inD0)
    requires s.fdo.nextRadioId as int < ULONG_SIZE - 1
    ensures Run(0, more) == Some(t)
    ensures Stage(t, Open, true, s.fdo.radioStarted, s.fdo.nextRadioId, s.pnp.inD0)
    ensures t.pnp == s.pnp && t.fdo.reported == s.fdo.reported
    ensures t.threads == s.threads[n := AddsRadio(r, 0, s.fdo.nextRadioId)]
  {
    hide Run;
    ClassifiedMove(s.fdo, r);
    ControlMove(s.fdo, r);
    hide Move;
    more, t := GoesOn(labels, s, n);
    more, t := GoesOn(more, t, n);
  }

  lemma ClassifiedMove(s: State, r: Request)
    ensures Move(s, ClientWrite(r, CREATE_RADIO), ANSWER) == Moved(s, Control(r, 0), [])
  {
    ControlIsClassified();
  }

  lemma ControlMove(s: State, r: Request)
    requires !s.radioPresent
    ensures Move(s, Control(r, 0), ANSWER) == Moved(MakeRadioCurrent(s), AddsRadio(r, 0, s.nextRadioId), [])
  {
  }

  /** The first radio is reported, created and enters D0; its control packet
      finishes. */
  lemma RadioComesUp(labels: seq<Label>, s: System, r: Request) returns (more: seq<Label>, t: System)
    requires Run(0, labels) == Some(s) && Stage(s, Open, true, false, 1, {})
    requires s.threads == [AddsRadio(r, 0, 1)] && s.pnp == Pnp({}, {}, {}, 0)
    ensures Run(0, more) == Some(t) && Stage(t, Open, true, true, 1, {1}) && t.threads == [Returned]
  {
    var s1: System;
    more, s1 := GoesOn(labels, s, 0);
    assert s1.threads == [Replies(r, 0, 1)] && 1 in s1.fdo.reported && Stage(s1, Open, true, false, 1, {});
    hide Run, Move;
    more, t := RadioEntersD0First(more, s1, r);
    more, t := ReplyFinishes(more, t, r);
  }

  lemma RadioEntersD0First(labels: seq<Label>, s: System, r: Request) returns (more: seq<Label>, t: System)
    requires Run(0, labels) == Some(s) && Stage(s, Open, true, false, 1, {}) && 1 in s.fdo.reported
    requires s.threads == [Replies(r, 0, 1)] && s.pnp == Pnp({}, {}, {}, 0)
    ensures Run(0, more) == Some(t) && Stage(t, Open, true, true, 1, {1}) && t.threads == s.threads
  {
    var s2 := Step(s, CreatePdo(1));
    OneMoreStep(labels, s, CreatePdo(1));
    t := Step(s2, EnterD0(1));
    OneMoreStep(labels + [CreatePdo(1)], s2, EnterD0(1));
    more := labels + [CreatePdo(1)] + [EnterD0(1)];
    hide Run;
  }

  lemma ReplyFinishes(labels: seq<Label>, s: System, r: Request) returns (more: seq<Label>, t: System)
    requires Run(0, labels) == Some(s) && Stage(s, Open, true, true, 1, {1}) && s.threads == [Replies(r, 0, 1)]
    ensures Run(0, more) == Some(t) && Stage(t, Open, true, true, 1, {1}) && t.threads == [Returned]
  {
    hide Run;
    var s1: System;
    ReplyIsQueued(s.fdo, r);
    FinishingMove(Move(s.fdo, Replies(r, 0, 1), ANSWER).fdo, r);
    hide Move;
    more, s1 := GoesOn(labels, s, 0);
    more, t := GoesOn(more, s1, 0);
  }

  lemma FinishingMove(s: State, r: Request)
    ensures var m := Move(s, Finishing(r, Success, 2), ANSWER); m.fdo == s && m.thread == Returned
  {
  }

  /** With no read waiting, the reply is queued, or lost for want of memory. */
  lemma ReplyIsQueued(s: State, r: Request)
    requires s.user.parked == []
    ensures var m := Move(s, Replies(r, 0, 1), ANSWER);
            && m.thread == Finishing(r, Success, 2)
            && m.fdo.user.parked == [] && m.fdo.radioPresent == s.radioPresent
            && m.fdo.radioStarted == s.radioStarted && m.fdo.currentRadioId == s.currentRadioId
            && m.fdo.nextRadioId == s.nextRadioId && m.fdo.reported == s.reported
  {
    var p := ControlReplyPacket(0, 1);
    QueueToUserMeets(s, p, true);
    RadioRuns.QueueingLeavesRadio(s, p, true);
    hide QueueToUser;
  }

  /** The client closes; the old radio stays in D0 and RadioStarted stays set. */
  lemma ClientCloses(labels: seq<Label>, s: System) returns (more: seq<Label>, t: System)
    requires Run(0, labels) == Some(s) && Stage(s, Open, true, true, 1, {1}) && s.threads == [Returned]
    ensures Run(0, more) == Some(t) && Stage(t, Closed, false, true, 1, {1}) && t.threads == [Returned]
  {
    t := Step(s, BeginClose);
    OneMoreStep(labels, s, BeginClose);
    more := labels + [BeginClose];
    more, t := CloseContinues(more, t);
    more, t := CloseContinues(more, t);
    more, t := CloseContinues(more, t);
    more, t := CloseContinues(more, t);
    more, t := CloseContinues(more, t);
  }

  function NextHandle(h: Handle): Handle {
    match h
    case PurgesEvents => PurgesData
    case PurgesData => StartsEvents
    case StartsEvents => StartsData
    case StartsData => PurgesLists
    case _ => Closed
  }

  lemma CloseContinues(labels: seq<Label>, s: System) returns (more: seq<Label>, t: System)
    requires Run(0, labels) == Some(s) && !s.handle.Open? && !s.handle.Closed?
    requires Stage(s, s.handle, false, true, 1, {1}) && s.threads == [Returned]
    ensures Run(0, more) == Some(t) && Stage(t, NextHandle(s.handle), false, true, 1, {1}) && t.threads == [Returned]
  {
    t := Step(s, ContinueClose);
    OneMoreStep(labels, s, ContinueClose);
    more := labels + [ContinueClose];
  }

  /** So "RadioStarted implies the current radio is in D0" is false of the driver:
      this run ends with it set, a second radio current, and only the first in D0. */
  lemma QuickReopenInheritsStarted() returns (labels: seq<Label>)
    ensures Run(0, labels).Some?
    ensures var s := Run(0, labels).value;
            && s.fdo.radioPresent && s.fdo.radioStarted && s.fdo.currentRadioId == 2
            && s.pnp.inD0 == {1}
  {
    var s: System;
    labels, s := OpenAndAsk([], Start(0));
    var r :| s.threads == [] + [AddsRadio(r, 0, 1)];
    assert s.threads == [AddsRadio(r, 0, 1)];
    labels, s := RadioComesUp(labels, s, r);
    labels, s := ClientCloses(labels, s);
    labels, s := OpenAndAsk(labels, s);
  }
}
