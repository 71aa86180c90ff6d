/** The bridge on top of the driver: which frames the driver refuses for what they
    are, in every run, and that the bridge ends at exactly the first of them. */
module BridgeToDriver {
  import opened Hci
  import opened H4
  import opened Rendezvous
  import opened Channels
  import opened Fdo
  import opened Driver
  import opened Reassembly
  import opened Bridges
  import ClientIo
  import RequestLedger
  import Sizes

  // ---------------------------------------------------------------------------
  // What the driver takes
  // ---------------------------------------------------------------------------

  /** An event frame, or an ACL frame with at most 1017 bytes of data. */
  predicate Deliverable(frame: seq<Byte>) {
    |frame| > 0 && (frame[0] == H4_EVENT || (frame[0] == H4_ACL && |frame| <= 5 + 1017))
  }

  /** Of the frames the bridge hands over the driver sends on these and refuses the
      others; none of them is a control packet. */
  lemma DeliverableExactly(frame: seq<Byte>)
    requires WholeFrame(frame)
    ensures ClassifyWrite(frame).Send? <==> Deliverable(frame)
    ensures ClassifyWrite(frame).Refuse? <==> !Deliverable(frame)
  {
    var p := Decode(frame);
    EncodeInvertsDecode(frame);
    match p
    case Event(_, _) => EventsAreAccepted(p);
    case AclData(_, _, data) => AclIsAcceptedUpToLimit(p);
    case _ => OthersAreRefused(p);
  }

  // ---------------------------------------------------------------------------
  // How a write ends, in every run
  // ---------------------------------------------------------------------------

  /** How a write the driver ended with this status ends for the pump. */
  function AnswerTo(status: Status): WriteAnswer {
    match status
    case Success => Accepted
    case DeviceNotReady => NotReady
    case _ => Broken
  }

  /** The Win32 error a status of the driver's reaches user mode as. */
  function Win32Error(status: Status): nat {
    match status
    case Success => 0
    case InvalidDeviceRequest => 1
    case DeviceNotReady => 21
    case InvalidDeviceState => 22
    case NotSupported => 50
    case InvalidParameter => 87
    case BufferTooSmall => 122
    case Cancelled => 995
    case InsufficientResources => 1450
    case Failed(code) => code
  }

  /** What the pump makes of VhciIo.Write's outcome: it goes on after ERROR_NOT_READY
      and lets everything else out. */
  function PumpAnswer(o: ClientIo.Outcome): WriteAnswer {
    match o
    case Returned(_) => Accepted
    case Threw(code) => if code == 21 then NotReady else Broken
    case _ => Broken
  }

  /** The write's request ended with this status, in the issue or later. */
  ghost predicate EndedWith(call: seq<ClientIo.Label>, status: Status)
    requires call != []
  {
    if status.Success? then exists bytes :: ClientIo.CompletedWith(call, ClientIo.Transferred(bytes))
    else call[|call| - 1] == ClientIo.IssueFails(Win32Error(status))
         || (call[|call| - 1].Collect? && ClientIo.CompletedWith(call, ClientIo.Faulted(Win32Error(status))))
  }

  /** In every run of VhciIo's: a write whose request the driver ended with a status,
      and whose wait did not fail on a success, ends for the pump as that status
      says - with NotReady if and only if it was DEVICE_NOT_READY. */
  lemma StatusReachesThePump(labels: seq<ClientIo.Label>, status: Status)
    requires labels != [] && ClientIo.Run(labels).Some?
    requires var call := ClientIo.ThisCall(labels);
             && call != [] && ClientIo.ReadOrWrite(call, ClientIo.Writing)
             && (labels[|labels| - 1].IssueFails? || labels[|labels| - 1].Collect?)
             && EndedWith(call, status) && !(status.Success? && ClientIo.Failed(call))
    requires status.Failed? ==> Win32Error(status) != 21
    ensures var outcomes := ClientIo.Run(labels).value.outcomes;
            outcomes != [] && PumpAnswer(outcomes[|outcomes| - 1]) == AnswerTo(status)
  {
    ClientIo.OutcomesAreExact(labels);
    var call := ClientIo.ThisCall(labels);
    var outcomes := ClientIo.Run(labels).value.outcomes;
    var o := outcomes[|outcomes| - 1];
    assert call[|call| - 1] == labels[|labels| - 1];
    if status.Success? {
      if labels[|labels| - 1].IssueFails? {
        FailedIssueCompletesNothing(labels);
      }
      var bytes :| ClientIo.CompletedWith(call, ClientIo.Transferred(bytes));
      assert ClientIo.Brings(call, bytes);
    } else {
      assert ClientIo.ThrowsCode(call, Win32Error(status));
    }
  }

  lemma FailedIssueCompletesNothing(labels: seq<ClientIo.Label>)
    requires labels != [] && ClientIo.Run(labels).Some? && labels[|labels| - 1].IssueFails?
    ensures forall result :: !ClientIo.CompletedWith(ClientIo.ThisCall(labels), result)
  {
    var before, l := labels[..|labels| - 1], labels[|labels| - 1];
    ClientIo.LastStep(labels);
    ClientIo.RunsTell(before);
    ClientIo.RunsAreConsistent(before);
    forall result ensures !ClientIo.CompletedWith(ClientIo.ThisCall(labels), result) {
      ClientIo.CallExtends(ClientIo.ThisCall(before), l, result);
      assert !(ClientIo.Run(before).value.io == ClientIo.Done(result));
    }
  }

  /** The status a frame's write may end with, where there is memory; up: the radio
      has been up throughout. */
  predicate EndsSo(frame: seq<Byte>, status: Status, up: bool) {
    if Deliverable(frame) then status.Success? || (!up && status.DeviceNotReady?)
    else AnswerTo(status).Broken?
  }

  predicate CompletedSo(ds: seq<Done>, r: Request, frame: seq<Byte>, up: bool) {
    exists k :: 0 <= k < |ds| && ds[k].Plain? && ds[k].r == r && EndsSo(frame, ds[k].status, up)
  }

  /** Where the write of a frame may stand. */
  predicate InHand(t: Thread, ds: seq<Done>, r: Request, frame: seq<Byte>, up: bool) {
    match t
    case ClientWrite(x, bytes) => x == r && bytes == frame
    case AwaitsAdmission(x, p) => x == r && ClassifyWrite(frame) == Send(p)
    case AwaitsDelivery(x, p) => x == r && ClassifyWrite(frame) == Send(p)
    case HoldsStackRead(x, p, read) =>
      && x == r && ClassifyWrite(frame) == Send(p)
      && read.origin.FromStack? && Sizes.ReadsInto(read, p, true)
    case Finishing(x, status, _) => x == r && EndsSo(frame, status, up)
    case Returned => CompletedSo(ds, r, frame, up)
    case _ => false
  }

  /** If the callback is about to deliver a packet there is memory for it. */
  predicate MemoryHolds(s: State, t: Thread, a: Answer) {
    t.AwaitsDelivery? ==> !AllocFails(s, a.poolOk)
  }

  /** If the callback is about to look, the radio is up. */
  predicate RadioHolds(s: State, t: Thread) {
    t.AwaitsAdmission? ==> Admitted(s)
  }

  lemma ClassifiedInHand(s: State, t: Thread, a: Answer, r: Request, frame: seq<Byte>, up: bool)
    requires WholeFrame(frame) && t == ClientWrite(r, frame)
    ensures InHand(Move(s, t, a).thread, [], r, frame, up)
  {
    DeliverableExactly(frame);
    hide WholeFrame;
  }

  lemma AdmittedInHand(s: State, t: Thread, a: Answer, r: Request, frame: seq<Byte>, up: bool)
    requires WholeFrame(frame) && t.AwaitsAdmission? && InHand(t, [], r, frame, up) && (up ==> RadioHolds(s, t))
    ensures InHand(Move(s, t, a).thread, [], r, frame, up)
  {
    DeliverableExactly(frame);
    hide WholeFrame, ClassifyWrite, Deliverable, Admit;
  }

  /** With memory a packet is queued, or handed to a read that has room for it. */
  lemma DeliveredWell(s: State, p: Packet, poolOk: bool)
    requires Sizes.StateFits(s, true) && !AllocFails(s, poolOk) && Sizes.FitsStack(p, p.kind == H4_ACL)
    ensures var d := DeliverToStack(s, p, poolOk).result;
            if d.HandTo? then d.r.origin.FromStack? && Sizes.ReadsInto(d.r, p, true) else d == Settled(Success)
  {
    var acl := p.kind == H4_ACL;
    var c := StackChannel(s, acl);
    assert Sizes.StackChannelFits(c, acl, true);
    if WaitingRead(c).Some? {
      assert WaitingRead(c).value == c.parked[0];
      assert Sizes.StackRoom(c.parked[0], acl, true);
    }
  }

  lemma DeliveryInHand(s: State, t: Thread, a: Answer, r: Request, frame: seq<Byte>, up: bool)
    requires WholeFrame(frame) && t.AwaitsDelivery? && InHand(t, [], r, frame, up)
    requires Sizes.StateFits(s, true) && MemoryHolds(s, t, a)
    ensures InHand(Move(s, t, a).thread, [], r, frame, up)
  {
    DeliverableExactly(frame);
    Sizes.ClassifiedFits(frame, None);
    DeliveredWell(s, t.p, a.poolOk);
    hide WholeFrame, ClassifyWrite, Deliverable, DeliverToStack, Sizes.StateFits, Sizes.ReadsInto;
  }

  lemma HandedInHand(s: State, t: Thread, a: Answer, r: Request, frame: seq<Byte>, up: bool)
    requires WholeFrame(frame) && t.HoldsStackRead? && InHand(t, [], r, frame, up)
    ensures InHand(Move(s, t, a).thread, [], r, frame, up)
  {
    DeliverableExactly(frame);
    Sizes.CompletionFits(t.read, t.p, true);
    hide WholeFrame, ClassifyWrite, Deliverable, Sizes.ReadsInto;
  }

  lemma CompletedStays(ds: seq<Done>, more: seq<Done>, r: Request, frame: seq<Byte>, up: bool)
    requires CompletedSo(ds, r, frame, up)
    ensures CompletedSo(ds + more, r, frame, up)
  {
    var k :| 0 <= k < |ds| && ds[k].Plain? && ds[k].r == r && EndsSo(frame, ds[k].status, up);
    assert (ds + more)[k] == ds[k];
  }

  lemma CompletedNow(ds: seq<Done>, r: Request, status: Status, info: nat, frame: seq<Byte>, up: bool)
    requires EndsSo(frame, status, up)
    ensures CompletedSo(ds + [Plain(r, status, info)], r, frame, up)
  {
    assert (ds + [Plain(r, status, info)])[|ds|] == Plain(r, status, info);
  }

  lemma OtherwiseInHand(t: Thread, ds: seq<Done>, more: seq<Done>, r: Request, frame: seq<Byte>, up: bool)
    requires InHand(t, ds, r, frame, up)
    ensures InHand(t, ds + more, r, frame, up)
  {
    if t.Returned? {
      CompletedStays(ds, more, r, frame, up);
    }
  }

  lemma MoveInHand(s: State, t: Thread, a: Answer, ds: seq<Done>, r: Request, frame: seq<Byte>, up: bool)
    requires WholeFrame(frame) && !t.Returned? && InHand(t, ds, r, frame, up)
    requires Sizes.StateFits(s, true) && MemoryHolds(s, t, a) && (up ==> RadioHolds(s, t))
    ensures InHand(Move(s, t, a).thread, ds + Move(s, t, a).done, r, frame, up)
  {
    var m := Move(s, t, a);
    if t.Finishing? {
      CompletedNow(ds, t.r, t.status, t.info, frame, up);
    } else {
      match t {
        case ClientWrite(_, _) => ClassifiedInHand(s, t, a, r, frame, up);
        case AwaitsAdmission(_, _) => AdmittedInHand(s, t, a, r, frame, up);
        case AwaitsDelivery(_, _) => DeliveryInHand(s, t, a, r, frame, up);
        case HoldsStackRead(_, _, _) => HandedInHand(s, t, a, r, frame, up);
      }
      NotYetReturned(s, t, a);
      hide Move, WholeFrame, Sizes.StateFits, EndsSo, ClassifyWrite, Sizes.ReadsInto;
    }
  }

  lemma NotYetReturned(s: State, t: Thread, a: Answer)
    requires t.ClientWrite? || t.AwaitsAdmission? || t.AwaitsDelivery? || t.HoldsStackRead?
    ensures !Move(s, t, a).thread.Returned?
  {
    hide Admit, DeliverToStack, CompleteRead, ClassifyWrite;
  }

  // ---------------------------------------------------------------------------
  // Over a run
  // ---------------------------------------------------------------------------

  /** The callback that callback i of a run started as. */
  function Started(knob: ULong, labels: seq<Label>, i: nat): Thread
    requires Run(knob, labels).Some? && i < |Run(knob, labels).value.threads|
  {
    var before, l := labels[..|labels| - 1], labels[|labels| - 1];
    var s := Run(knob, before).value;
    if i < |s.threads| then Started(knob, before, i)
    else if l.Issue? || l.DeviceCleanup? then Starting(s, l)
    else Returned
  }

  predicate StepHolds(s: System, l: Label, up: bool)
    requires l.Go? && Enabled(s, l)
  {
    MemoryHolds(s.fdo, s.threads[l.i], l.answer) && (up ==> RadioHolds(s.fdo, s.threads[l.i]))
  }

  /** Throughout a run there was memory for whatever packet was delivered. */
  predicate MemoryLasts(knob: ULong, labels: seq<Label>)
    requires Run(knob, labels).Some?
  {
    labels == []
    || (var before, l := labels[..|labels| - 1], labels[|labels| - 1];
        MemoryLasts(knob, before) && (l.Go? ==> StepHolds(Run(knob, before).value, l, false)))
  }

  /** Throughout a run the radio was up whenever a write looked. */
  predicate RadioStaysUp(knob: ULong, labels: seq<Label>)
    requires Run(knob, labels).Some?
  {
    labels == []
    || (var before, l := labels[..|labels| - 1], labels[|labels| - 1];
        var s := Run(knob, before).value;
        RadioStaysUp(knob, before) && (l.Go? ==> RadioHolds(s.fdo, s.threads[l.i])))
  }

  lemma StepCompletes(s: System, l: Label) returns (more: seq<Done>)
    requires Enabled(s, l)
    ensures Step(s, l).completed == s.completed + more
  {
    more := Step(s, l).completed[|s.completed|..];
  }

  lemma StepInHand(s: System, l: Label, i: nat, r: Request, frame: seq<Byte>, up: bool)
    requires Enabled(s, l) && i < |s.threads| && WholeFrame(frame) && InHand(s.threads[i], s.completed, r, frame, up)
    requires Sizes.StateFits(s.fdo, true) && (l.Go? ==> StepHolds(s, l, up))
    ensures i < |Step(s, l).threads| && InHand(Step(s, l).threads[i], Step(s, l).completed, r, frame, up)
  {
    if l.Go? {
      GoStep(s, l.i, l.answer);
      var m := Move(s.fdo, s.threads[l.i], l.answer);
      hide Step, Move, InHand, Sizes.StateFits, WholeFrame;
      if l.i == i {
        MoveInHand(s.fdo, s.threads[i], l.answer, s.completed, r, frame, up);
      } else {
        OtherwiseInHand(s.threads[i], s.completed, m.done, r, frame, up);
      }
    } else {
      var more := StepCompletes(s, l);
      if l.Issue? || l.DeviceCleanup? {
        ArrivalStep(s, l);
      } else {
        QuietSteps(s, l);
      }
      hide Step, InHand, Sizes.StateFits, WholeFrame;
      OtherwiseInHand(s.threads[i], s.completed, more, r, frame, up);
    }
  }

  /** In every run whose stack posts roomy reads and whose memory lasts, the write of
      a frame stands where it may stand. */
  lemma {:induction false} WritesAreInHand(knob: ULong, labels: seq<Label>, i: nat)
    requires Run(knob, labels).Some? && Sizes.RoomyRun(labels) && MemoryLasts(knob, labels)
    requires i < |Run(knob, labels).value.threads|
    requires var t := Started(knob, labels, i); t.ClientWrite? && WholeFrame(t.bytes)
    ensures var s, t := Run(knob, labels).value, Started(knob, labels, i);
            InHand(s.threads[i], s.completed, t.r, t.bytes, RadioStaysUp(knob, labels))
  {
    var before, l := labels[..|labels| - 1], labels[|labels| - 1];
    var s, t := Run(knob, before).value, Started(knob, labels, i);
    Sizes.RunsFit(knob, before, true);
    if i < |s.threads| {
      WritesAreInHand(knob, before, i);
      var up := RadioStaysUp(knob, before);
      if RadioStaysUp(knob, labels) != up {
        LessIsKnown(s.threads[i], s.completed, t.r, t.bytes);
      }
      StepInHand(s, l, i, t.r, t.bytes, RadioStaysUp(knob, labels));
    } else {
      NewIsInHand(s, l, t, RadioStaysUp(knob, labels));
    }
  }

  lemma LessIsKnown(t: Thread, ds: seq<Done>, r: Request, frame: seq<Byte>)
    requires InHand(t, ds, r, frame, true)
    ensures InHand(t, ds, r, frame, false)
  {
    if t.Returned? {
      var k :| 0 <= k < |ds| && ds[k].Plain? && ds[k].r == r && EndsSo(frame, ds[k].status, true);
      assert EndsSo(frame, ds[k].status, false);
    }
  }

  lemma NewIsInHand(s: System, l: Label, t: Thread, up: bool)
    requires Enabled(s, l) && (l.Issue? || l.DeviceCleanup?) && t == Starting(s, l) && t.ClientWrite?
    ensures Step(s, l).threads == s.threads + [t]
    ensures InHand(t, Step(s, l).completed, t.r, t.bytes, up)
  {
    ArrivalStep(s, l);
  }

  // ---------------------------------------------------------------------------
  // The bridge ends at the first frame the driver refuses
  // ---------------------------------------------------------------------------

  /** Callback i of a run was the write of this frame, has returned, and its request
      was completed with a status that makes VhciIo.Write answer so. */
  predicate WroteBy(knob: ULong, labels: seq<Label>, i: nat, frame: seq<Byte>, reply: WriteAnswer)
    requires Run(knob, labels).Some?
  {
    var s := Run(knob, labels).value;
    && i < |s.threads| && s.threads[i].Returned?
    && var t := Started(knob, labels, i);
    t.ClientWrite? && t.bytes == frame
    && exists k :: 0 <= k < |s.completed| && s.completed[k].r == t.r && AnswerTo(s.completed[k].status) == reply
  }

  /** Every reply is fatal exactly for a frame the driver does not deliver, and with
      the radio up every other one is accepted. */
  lemma RepliesAreExact(knob: ULong, labels: seq<Label>, i: nat, frame: seq<Byte>, reply: WriteAnswer)
    requires Run(knob, labels).Some? && Sizes.RoomyRun(labels) && MemoryLasts(knob, labels)
    requires WroteBy(knob, labels, i, frame, reply) && WholeFrame(frame)
    ensures reply.Broken? <==> !Deliverable(frame)
    ensures RadioStaysUp(knob, labels) ==> !reply.NotReady?
  {
    var s, t := Run(knob, labels).value, Started(knob, labels, i);
    var up := RadioStaysUp(knob, labels);
    WritesAreInHand(knob, labels, i);
    RequestLedger.NothingCompletesTwice(knob, labels);
    hide Run, Started, MemoryLasts, RadioStaysUp, WholeFrame;
    var j :| 0 <= j < |s.completed| && s.completed[j].r == t.r && AnswerTo(s.completed[j].status) == reply;
    var k :| 0 <= k < |s.completed| && s.completed[k].Plain? && s.completed[k].r == t.r
             && EndsSo(frame, s.completed[k].status, up);
    var rs := RequestLedger.Requests(s.completed);
    assert rs[j] == rs[k];
    assert j == k;
  }

  /** The first frame the driver does not deliver is the n-th, if there is one. */
  predicate RefusedFirst(frames: seq<seq<Byte>>, n: nat) {
    n < |frames| && !Deliverable(frames[n]) && forall k :: 0 <= k < n ==> Deliverable(frames[k])
  }

  lemma ServedInOrder(outcome: Bridges.Outcome, written: seq<seq<Byte>>, bytes: seq<Byte>)
    requires Served(outcome, written, bytes)
    ensures written <= Parse(bytes).frames
    ensures if outcome.WriteFailed? then written != [] else written == Parse(bytes).frames
  {
  }

  predicate Exact(frame: seq<Byte>, reply: WriteAnswer, up: bool) {
    && (reply.Broken? <==> !Deliverable(frame))
    && (up ==> !reply.NotReady?)
  }

  /** If every reply is exact the pump's end is decided by the frames. */
  lemma ExactRepliesDecide(outcome: Bridges.Outcome, written: seq<seq<Byte>>, replies: seq<WriteAnswer>,
                           frames: seq<seq<Byte>>, up: bool)
    requires written <= frames && Answered(outcome, written, replies)
    requires if outcome.WriteFailed? then written != [] else written == frames
    requires forall k :: 0 <= k < |written| ==> Exact(written[k], replies[k], up)
    ensures outcome.WriteFailed? <==> exists k :: 0 <= k < |frames| && !Deliverable(frames[k])
    ensures outcome.WriteFailed? ==> written == frames[..|written|] && RefusedFirst(frames, |written| - 1)
    ensures up ==> forall k :: 0 <= k < |replies| ==> replies[k] == if Deliverable(written[k]) then Accepted else Broken
  {
    hide Deliverable;
    if outcome.WriteFailed? {
      var n := |written| - 1;
      assert Exact(written[n], replies[n], up) && written[n] == frames[n];
      forall k | 0 <= k < n ensures Deliverable(frames[k]) {
        assert replies[..n][k] == replies[k] && Exact(written[k], replies[k], up) && written[k] == frames[k];
      }
    }
  }

  /** Bridge and driver together: with roomy reads and memory, a bridge that has served
      a stream ended on a fatal write if and only if the stream has a frame the driver
      does not deliver, and then it has handed over the frames up to the first of
      them. With the radio up the driver took every frame before it. */
  lemma EndsAtFirstRefusal(outcome: Bridges.Outcome, written: seq<seq<Byte>>, replies: seq<WriteAnswer>,
                           bytes: seq<Byte>, knob: ULong, labels: seq<Label>, ids: seq<nat>)
    requires Served(outcome, written, bytes) && Answered(outcome, written, replies)
    requires Run(knob, labels).Some? && Sizes.RoomyRun(labels) && MemoryLasts(knob, labels)
    requires |ids| == |written|
    requires forall k :: 0 <= k < |written| ==> WroteBy(knob, labels, ids[k], written[k], replies[k])
    ensures var frames := Parse(bytes).frames;
            && (outcome.WriteFailed? <==> exists k :: 0 <= k < |frames| && !Deliverable(frames[k]))
            && (outcome.WriteFailed? ==> written == frames[..|written|] && RefusedFirst(frames, |written| - 1))
    ensures RadioStaysUp(knob, labels) ==>
              forall k :: 0 <= k < |replies| ==> replies[k] == if Deliverable(written[k]) then Accepted else Broken
  {
    var frames := Parse(bytes).frames;
    FramesAreWhole(bytes);
    ServedInOrder(outcome, written, bytes);
    hide Run, Parse, Deliverable, WroteBy, MemoryLasts, RadioStaysUp, WholeFrame, Served, Sizes.RoomyRun;
    forall k | 0 <= k < |written| ensures Exact(written[k], replies[k], RadioStaysUp(knob, labels)) {
      assert written[k] == frames[k] && frames[k] in frames;
      RepliesAreExact(knob, labels, ids[k], written[k], replies[k]);
    }
    ExactRepliesDecide(outcome, written, replies, frames, RadioStaysUp(knob, labels));
  }
}
