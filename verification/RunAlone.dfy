/** A callback left to itself: its moves from where it stands to its return, with
    nothing in between. Each move brings it closer to returning, whatever happens
    between its moves, so no callback ever waits. */
module RunAlone {
  import opened Hci
  import opened Rendezvous
  import opened Channels
  import opened Fdo
  import opened Driver

  /** At most this many more moves. */
  function Remaining(t: Thread): nat {
    match t
    case Returned => 0
    case Finishing(_, _, _) | MustFree(_) | CleanupLists => 1
    case HasPacket(_, _) | HoldsStackRead(_, _, _) | HoldsClientRead(_, _, _, _) | ForgetsRadio(_, _) | CleanupData => 2
    case ClientRead(_) | StackRead(_, _) | AwaitsDelivery(_, _) | Replies(_, _, _) | AwaitsQueueing(_, _)
       | CleanupEvents => 3
    case AwaitsAdmission(_, _) | AddsRadio(_, _, _) | StackWrite(_, _) => 4
    case Control(_, _) => 5
    case ClientWrite(_, _) => 6
  }

  /** Every move is progress: but for the lock, which a step takes as it goes, no
      callback waits for another. */
  lemma MovesFinish(s: State, t: Thread, a: Answer)
    requires !t.Returned?
    ensures Remaining(Move(s, t, a).thread) < Remaining(t) <= 6
  {
    hide QueueToUser, DeliverToStack, PostClientRead, PostStackRead, CompleteRead;
    hide AfterPost, AfterQueueing, AfterDelivery;
    match t
    case ClientRead(r) => AfterPostIsNear(r, PostClientRead(s, r, a.forwardOk), a.failure);
    case StackRead(r, posted) => StackReadFinishes(s, r, posted, a);
    case AwaitsDelivery(r, p) => AfterDeliveryIsNear(r, p, DeliverToStack(s, p, a.poolOk));
    case Replies(r, opcode, id) =>
      var p := ControlReplyPacket(opcode, id);
      AfterQueueingIsNear(r, p, 2, QueueToUser(s, p, a.poolOk));
    case AwaitsQueueing(r, p) => AfterQueueingIsNear(r, p, |p.body|, QueueToUser(s, p, a.poolOk));
    case _ => OtherMovesFinish(s, t, a);
  }

  lemma OtherMovesFinish(s: State, t: Thread, a: Answer)
    requires !t.Returned? && !t.ClientRead? && !t.StackRead? && !t.AwaitsDelivery? && !t.Replies? && !t.AwaitsQueueing?
    ensures Remaining(Move(s, t, a).thread) < Remaining(t)
  {
    hide QueueToUser, DeliverToStack, PostClientRead, PostStackRead, CompleteRead;
    hide AfterPost, AfterQueueing, AfterDelivery;
    hide PurgeBacklogs, PurgeQueue, Purged, Freed, Admit, MakeRadioCurrent;
  }

  lemma StackReadFinishes(s: State, r: Request, posted: StackReadInput, a: Answer)
    ensures Remaining(Move(s, StackRead(r, posted), a).thread) <= 2
  {
    match ClassifyStackRead(posted)
    case RefuseRead(_) =>
    case Route(acl) => AfterPostIsNear(r, PostStackRead(s, acl, r, a.forwardOk), a.failure);
  }

  lemma AfterPostIsNear(r: Request, p: Posted, failure: Failure)
    ensures Remaining(AfterPost(r, p, failure).thread) <= 2
  {
  }

  lemma AfterDeliveryIsNear(r: Request, p: Packet, d: Delivered)
    ensures Remaining(AfterDelivery(r, p, d).thread) <= 2
  {
  }

  lemma AfterQueueingIsNear(r: Request, p: Packet, info: nat, h: Handing)
    ensures Remaining(AfterQueueing(r, p, info, h).thread) <= 2
  {
  }

  /** How many of callback i's moves a run makes. */
  function MovesOf(labels: seq<Label>, i: nat): nat {
    if labels == [] then 0
    else MovesOf(labels[..|labels| - 1], i)
         + if labels[|labels| - 1].Go? && labels[|labels| - 1].i == i then 1 else 0
  }

  /** In every run, every callback has returned once it has made six moves, however
      they were interleaved: a callback in flight has made fewer than six. */
  lemma {:induction false} CallbacksNeverWait(knob: ULong, labels: seq<Label>, i: nat)
    requires Run(knob, labels).Some?
    ensures var ts := Run(knob, labels).value.threads;
            if i < |ts| then MovesOf(labels, i) + Remaining(ts[i]) <= 6 else MovesOf(labels, i) == 0
  {
    if labels != [] {
      var before := labels[..|labels| - 1];
      CallbacksNeverWait(knob, before, i);
      var s, l := Run(knob, before).value, labels[|labels| - 1];
      if l.Go? {
        MovesFinish(s.fdo, s.threads[l.i], l.answer);
      } else if !l.Issue? && !l.DeviceCleanup? {
        QuietSteps(s, l);
      }
    }
  }

  function RunOn(s: State, t: Thread, a: Answer): Moved
    decreases Remaining(t)
  {
    if t.Returned? then Moved(s, t, [])
    else
      MovesFinish(s, t, a);
      var m := Move(s, t, a);
      var rest := RunOn(m.fdo, m.thread, a);
      Moved(rest.fdo, rest.thread, m.done + rest.done)
  }

  lemma RunOnOnce(s: State, t: Thread, a: Answer)
    requires !t.Returned?
    ensures var m := Move(s, t, a);
            && RunOn(s, t, a).fdo == RunOn(m.fdo, m.thread, a).fdo
            && RunOn(s, t, a).done == m.done + RunOn(m.fdo, m.thread, a).done
  {
  }

  /** The system after callback i has taken all its steps in a row. */
  function GoOn(s: System, i: nat, a: Answer): System
    requires i < |s.threads|
    decreases Remaining(s.threads[i])
  {
    if s.threads[i].Returned? then s
    else
      MovesFinish(s.fdo, s.threads[i], a);
      GoOn(Step(s, Go(i, a)), i, a)
  }

  lemma GoOnOnce(s: System, i: nat, a: Answer)
    requires i < |s.threads| && !s.threads[i].Returned?
    ensures GoOn(s, i, a) == GoOn(Step(s, Go(i, a)), i, a)
  {
    hide Move, Step;
  }

  /** Running on is taking steps of the system and nothing else. */
  lemma {:induction false} RunOnIsSteps(s: System, i: nat, a: Answer)
    requires i < |s.threads|
    ensures var m := RunOn(s.fdo, s.threads[i], a);
            && GoOn(s, i, a).fdo == m.fdo
            && GoOn(s, i, a).completed == s.completed + m.done
            && GoOn(s, i, a).threads == s.threads[i := Returned]
    decreases Remaining(s.threads[i])
  {
    if !s.threads[i].Returned? {
      var t, m := Step(s, Go(i, a)), Move(s.fdo, s.threads[i], a);
      MovesFinish(s.fdo, s.threads[i], a);
      RunOnOnce(s.fdo, s.threads[i], a);
      GoOnOnce(s, i, a);
      GoStep(s, i, a);
      hide Move, RunOn, GoOn, Remaining, Step;
      RunOnIsSteps(t, i, a);
      Appended(s.completed, m.done, RunOn(t.fdo, t.threads[i], a).done);
      assert t.threads[i := Returned] == s.threads[i := Returned];
    } else {
      assert s.threads[i := Returned] == s.threads;
    }
  }

  lemma Appended(done: seq<Done>, more: seq<Done>, rest: seq<Done>)
    ensures (done + more) + rest == done + (more + rest)
  {
  }

  lemma FinishingRuns(s: State, r: Request, status: Status, info: nat, a: Answer)
    ensures RunOn(s, Finishing(r, status, info), a) == Moved(s, Returned, [Plain(r, status, info)])
  {
    RunOnOnce(s, Finishing(r, status, info), a);
  }

  /** A read, once its region is behind it. */
  function PostedEnd(r: Request, p: Posted, failure: Failure): Moved {
    match p.result
    case Got(n) => Moved(Freed(p.state, [n]), Returned, [CompleteRead(r, n.packet)])
    case Waits => Moved(p.state, Returned, [])
    case Refused => Moved(p.state, Returned, [Plain(r, failure, 0)])
  }

  lemma PostedRuns(r: Request, p: Posted, a: Answer)
    ensures var m := AfterPost(r, p, a.failure);
            RunOn(m.fdo, m.thread, a) == PostedEnd(r, p, a.failure)
  {
    match p.result
    case Got(n) =>
      var d := [CompleteRead(r, n.packet)];
      RunOnOnce(p.state, HasPacket(r, n), a);
      RunOnOnce(p.state, MustFree(n), a);
      assert d + ([] + []) == d;
    case Waits =>
    case Refused => FinishingRuns(p.state, r, a.failure, 0, a);
  }

  function ClientReadEnd(s: State, r: Request, a: Answer): Moved {
    if r.room < MAX_H4_PACKET then Moved(s, Returned, [Plain(r, BufferTooSmall, 0)])
    else PostedEnd(r, PostClientRead(s, r, a.forwardOk), a.failure)
  }

  lemma ClientReadRuns(s: State, r: Request, a: Answer)
    ensures RunOn(s, ClientRead(r), a) == ClientReadEnd(s, r, a)
  {
    RunOnOnce(s, ClientRead(r), a);
    FinishingRuns(s, r, BufferTooSmall, 0, a);
    PostedRuns(r, PostClientRead(s, r, a.forwardOk), a);
  }

  lemma ShortReadRuns(s: State, r: Request, a: Answer)
    requires r.room < MAX_H4_PACKET
    ensures RunOn(s, ClientRead(r), a) == Moved(s, Returned, [Plain(r, BufferTooSmall, 0)])
  {
    ClientReadRuns(s, r, a);
  }

  lemma RoomyReadRuns(s: State, r: Request, a: Answer)
    requires r.room >= MAX_H4_PACKET
    ensures RunOn(s, ClientRead(r), a) == PostedEnd(r, PostClientRead(s, r, a.forwardOk), a.failure)
  {
    ClientReadRuns(s, r, a);
  }

  function StackReadEnd(s: State, r: Request, posted: StackReadInput, a: Answer): Moved {
    match ClassifyStackRead(posted)
    case RefuseRead(status) => Moved(s, Returned, [Plain(r, status, 0)])
    case Route(acl) => PostedEnd(r, PostStackRead(s, acl, r, a.forwardOk), a.failure)
  }

  lemma StackReadRuns(s: State, r: Request, posted: StackReadInput, a: Answer)
    ensures RunOn(s, StackRead(r, posted), a) == StackReadEnd(s, r, posted, a)
  {
    RunOnOnce(s, StackRead(r, posted), a);
    match ClassifyStackRead(posted)
    case RefuseRead(status) => FinishingRuns(s, r, status, 0, a);
    case Route(acl) => PostedRuns(r, PostStackRead(s, acl, r, a.forwardOk), a);
  }

  lemma RefusedReadRuns(s: State, r: Request, posted: StackReadInput, status: Status, a: Answer)
    requires ClassifyStackRead(posted) == RefuseRead(status)
    ensures RunOn(s, StackRead(r, posted), a) == Moved(s, Returned, [Plain(r, status, 0)])
  {
    StackReadRuns(s, r, posted, a);
  }

  lemma RoutedReadRuns(s: State, r: Request, posted: StackReadInput, acl: bool, a: Answer)
    requires ClassifyStackRead(posted) == Route(acl)
    ensures RunOn(s, StackRead(r, posted), a) == PostedEnd(r, PostStackRead(s, acl, r, a.forwardOk), a.failure)
  {
    StackReadRuns(s, r, posted, a);
  }

  /** Handing a packet to the client, then completing the callback's own request. */
  function QueueingEnd(r: Request, p: Packet, info: nat, h: Handing): Moved {
    match h.taken
    case Some(read) => Moved(h.state, Returned, [CompleteRead(read, p), Plain(r, Success, info)])
    case None => Moved(h.state, Returned, [Plain(r, Success, info)])
  }

  lemma QueueingRuns(r: Request, p: Packet, info: nat, h: Handing, a: Answer)
    ensures var m := AfterQueueing(r, p, info, h);
            RunOn(m.fdo, m.thread, a) == QueueingEnd(r, p, info, h)
  {
    FinishingRuns(h.state, r, Success, info, a);
    if h.taken.Some? {
      RunOnOnce(h.state, HoldsClientRead(r, p, h.taken.value, info), a);
    }
  }

  function StackWriteEnd(s: State, r: Request, input: Option<seq<Byte>>, a: Answer): Moved {
    match ClassifyStackWrite(input)
    case RefuseWrite(status) => Moved(s, Returned, [Plain(r, status, 0)])
    case Accept(p) => QueueingEnd(r, p, |p.body|, QueueToUser(s, p, a.poolOk))
  }

  lemma StackWriteRuns(s: State, r: Request, input: Option<seq<Byte>>, a: Answer)
    ensures RunOn(s, StackWrite(r, input), a) == StackWriteEnd(s, r, input, a)
  {
    RunOnOnce(s, StackWrite(r, input), a);
    match ClassifyStackWrite(input)
    case RefuseWrite(status) => FinishingRuns(s, r, status, 0, a);
    case Accept(p) =>
      RunOnOnce(s, AwaitsQueueing(r, p), a);
      QueueingRuns(r, p, |p.body|, QueueToUser(s, p, a.poolOk), a);
  }

  lemma AcceptedRuns(s: State, r: Request, input: Option<seq<Byte>>, p: Packet, a: Answer)
    requires ClassifyStackWrite(input) == Accept(p)
    ensures RunOn(s, StackWrite(r, input), a) == QueueingEnd(r, p, |p.body|, QueueToUser(s, p, a.poolOk))
  {
    StackWriteRuns(s, r, input, a);
  }

  lemma RefusedRuns(s: State, r: Request, input: Option<seq<Byte>>, status: Status, a: Answer)
    requires ClassifyStackWrite(input) == RefuseWrite(status)
    ensures RunOn(s, StackWrite(r, input), a) == Moved(s, Returned, [Plain(r, status, 0)])
  {
    StackWriteRuns(s, r, input, a);
  }

  /** Delivering a packet to the stack, then completing the write. */
  function DeliveryEnd(r: Request, p: Packet, d: Delivered): Moved {
    match d.result
    case HandTo(read) =>
      var c := CompleteRead(read, p);
      Moved(d.state, Returned, [c, Plain(r, c.status, if c.status.Success? then |p.body| + 1 else 0)])
    case Settled(status) =>
      Moved(d.state, Returned, [Plain(r, status, if status.Success? then |p.body| + 1 else 0)])
  }

  lemma DeliveryRuns(r: Request, p: Packet, d: Delivered, a: Answer)
    ensures var m := AfterDelivery(r, p, d);
            RunOn(m.fdo, m.thread, a) == DeliveryEnd(r, p, d)
  {
    match d.result
    case HandTo(read) =>
      var c := CompleteRead(read, p);
      RunOnOnce(d.state, HoldsStackRead(r, p, read), a);
      FinishingRuns(d.state, r, c.status, if c.status.Success? then |p.body| + 1 else 0, a);
    case Settled(status) =>
      FinishingRuns(d.state, r, status, if status.Success? then |p.body| + 1 else 0, a);
  }

  function SendEnd(s: State, r: Request, p: Packet, a: Answer): Moved {
    if Admitted(s) then DeliveryEnd(r, p, DeliverToStack(s, p, a.poolOk))
    else Moved(Admit(s), Returned, [Plain(r, DeviceNotReady, 0)])
  }

  lemma SendRuns(s: State, r: Request, p: Packet, a: Answer)
    ensures RunOn(s, AwaitsAdmission(r, p), a) == SendEnd(s, r, p, a)
  {
    RunOnOnce(s, AwaitsAdmission(r, p), a);
    if Admitted(s) {
      RunOnOnce(s, AwaitsDelivery(r, p), a);
      DeliveryRuns(r, p, DeliverToStack(s, p, a.poolOk), a);
    } else {
      FinishingRuns(Admit(s), r, DeviceNotReady, 0, a);
    }
  }

  function ControlEnd(s: State, r: Request, opcode: Byte, a: Answer): Moved {
    if s.radioPresent then Moved(s, Returned, [Plain(r, InvalidDeviceState, 0)])
    else RadioEnd(MakeRadioCurrent(s), r, opcode, s.nextRadioId, a)
  }

  lemma ControlRuns(s: State, r: Request, opcode: Byte, a: Answer)
    ensures RunOn(s, Control(r, opcode), a) == ControlEnd(s, r, opcode, a)
  {
    RunOnOnce(s, Control(r, opcode), a);
    if s.radioPresent {
      FinishingRuns(s, r, InvalidDeviceState, 0, a);
    } else {
      AddsRadioRuns(MakeRadioCurrent(s), r, opcode, s.nextRadioId, a);
    }
    hide RunOn, MakeRadioCurrent, ForgetRadio, QueueToUser, QueueingEnd;
  }

  function RadioEnd(s: State, r: Request, opcode: Byte, id: ULong, a: Answer): Moved {
    if !a.addOk then Moved(ForgetRadio(s), Returned, [Plain(r, a.failure, 0)])
    else
      var p := ControlReplyPacket(opcode, id);
      QueueingEnd(r, p, 2, QueueToUser(s.(reported := s.reported + {id}), p, a.poolOk))
  }

  lemma AddsRadioRuns(s: State, r: Request, opcode: Byte, id: ULong, a: Answer)
    ensures RunOn(s, AddsRadio(r, opcode, id), a) == RadioEnd(s, r, opcode, id, a)
  {
    RunOnOnce(s, AddsRadio(r, opcode, id), a);
    if a.addOk {
      var u, p := s.(reported := s.reported + {id}), ControlReplyPacket(opcode, id);
      RunOnOnce(u, Replies(r, opcode, id), a);
      QueueingRuns(r, p, 2, QueueToUser(u, p, a.poolOk), a);
    } else {
      RunOnOnce(s, ForgetsRadio(r, a.failure), a);
      FinishingRuns(ForgetRadio(s), r, a.failure, 0, a);
    }
    hide RunOn, QueueToUser, AfterQueueing, QueueingEnd;
  }

  function ClientWriteEnd(s: State, r: Request, bytes: seq<Byte>, a: Answer): Moved {
    match ClassifyWrite(bytes)
    case Refuse(status) => Moved(s, Returned, [Plain(r, status, 0)])
    case CreateRadio(opcode) => ControlEnd(s, r, opcode, a)
    case Send(p) => SendEnd(s, r, p, a)
  }

  lemma ClientWriteRuns(s: State, r: Request, bytes: seq<Byte>, a: Answer)
    ensures RunOn(s, ClientWrite(r, bytes), a) == ClientWriteEnd(s, r, bytes, a)
  {
    RunOnOnce(s, ClientWrite(r, bytes), a);
    match ClassifyWrite(bytes)
    case Refuse(status) => FinishingRuns(s, r, status, 0, a);
    case CreateRadio(opcode) => ControlRuns(s, r, opcode, a);
    case Send(p) => SendRuns(s, r, p, a);
  }

  lemma RefusedWriteRuns(s: State, r: Request, bytes: seq<Byte>, status: Status, a: Answer)
    requires ClassifyWrite(bytes) == Refuse(status)
    ensures RunOn(s, ClientWrite(r, bytes), a) == Moved(s, Returned, [Plain(r, status, 0)])
  {
    ClientWriteRuns(s, r, bytes, a);
  }

  lemma ControlWriteRuns(s: State, r: Request, bytes: seq<Byte>, opcode: Byte, a: Answer)
    requires ClassifyWrite(bytes) == CreateRadio(opcode)
    ensures RunOn(s, ClientWrite(r, bytes), a) == ControlEnd(s, r, opcode, a)
  {
    ClientWriteRuns(s, r, bytes, a);
  }

  lemma PacketWriteRuns(s: State, r: Request, bytes: seq<Byte>, p: Packet, a: Answer)
    requires ClassifyWrite(bytes) == Send(p)
    ensures RunOn(s, ClientWrite(r, bytes), a) == SendEnd(s, r, p, a)
    ensures |bytes| >= 2 && p == Packet(bytes[0], bytes[1..])
  {
    ClientWriteRuns(s, r, bytes, a);
  }

  // ---------------------------------------------------------------------------
  // Close and cleanup
  // ---------------------------------------------------------------------------

  /** The context after a close that nothing came between. */
  function ClosedAlone(s: State): State {
    var t := ReleaseOwnership(s);
    var u := t.(events := StartQueue(PurgeQueue(t.events)), data := StartQueue(PurgeQueue(t.data)));
    PurgeBacklogs(u)
  }

  /** The close's six steps, one after another. */
  lemma CloseRuns(s: System)
    requires Enabled(s, BeginClose)
    ensures var c := ContinueClose;
            var t := Step(Step(Step(Step(Step(Step(s, BeginClose), c), c), c), c), c);
            && t.handle.Closed? && t.fdo == ClosedAlone(s.fdo)
            && t.completed == s.completed + Purged(s.fdo.events.parked) + Purged(s.fdo.data.parked)
  {
  }

  function CleanedUp(s: State): State {
    PurgeBacklogs(s.(events := PurgeQueue(s.events), data := PurgeQueue(s.data)))
  }

  lemma CleanupDataRuns(s: State, a: Answer)
    ensures RunOn(s, CleanupData, a)
         == Moved(PurgeBacklogs(s.(data := PurgeQueue(s.data))), Returned, Purged(s.data.parked))
  {
    hide PurgeQueue, PurgeBacklogs, Purged;
    var t := s.(data := PurgeQueue(s.data));
    RunOnOnce(t, CleanupLists, a);
    assert RunOn(t, CleanupLists, a) == Moved(PurgeBacklogs(t), Returned, []);
    RunOnOnce(s, CleanupData, a);
    hide RunOn;
  }

  lemma CleanupRuns(s: State, a: Answer)
    ensures RunOn(s, CleanupEvents, a)
         == Moved(CleanedUp(s), Returned, Purged(s.events.parked) + Purged(s.data.parked))
  {
    hide PurgeQueue, PurgeBacklogs;
    RunOnOnce(s, CleanupEvents, a);
    CleanupDataRuns(s.(events := PurgeQueue(s.events)), a);
  }

  /** All packets have been freed and the stack's parked reads are gone. */
  predicate LeftEmpty(s: State, t: State) {
    && t.user.backlog == [] && t.events.backlog == [] && t.data.backlog == []
    && t.user.count == 0 && t.events.count == 0 && t.data.count == 0
    && t.events.parked == [] && t.data.parked == [] && t.user.parked == s.user.parked
    && |t.history.freed| == |s.history.freed| + |s.user.backlog| + |s.events.backlog| + |s.data.backlog|
  }

  /** A close leaves the context ready for the next open: empty, with no owner and no
      radio, and both of the stack's queues taking reads again. What RadioStarted was
      it stays. */
  lemma CloseLeavesItReady(s: State)
    ensures var t := ClosedAlone(s);
            && LeftEmpty(s, t) && t.owner.None? && !t.radioPresent
            && t.events.accepting && t.data.accepting && t.user.accepting == s.user.accepting
            && t.radioStarted == s.radioStarted && t.currentRadioId == s.currentRadioId
            && t.nextRadioId == s.nextRadioId && t.reported == s.reported
  {
  }

  /** A cleanup leaves it just as empty, and the stack's queues refusing. */
  lemma CleanupLeavesItRefusing(s: State, a: Answer)
    ensures var m := RunOn(s, CleanupEvents, a);
            && LeftEmpty(s, m.fdo) && !m.fdo.events.accepting && !m.fdo.data.accepting
            && m.fdo.owner == s.owner && m.fdo.radioPresent == s.radioPresent
            && |m.done| == |s.events.parked| + |s.data.parked|
  {
    CleanupRuns(s, a);
  }

  /** Either way each parked read of the stack's is completed once, as cancelled. */
  lemma ParkedReadsAreCancelled(s: State, k: nat)
    requires k < |s.events.parked| + |s.data.parked|
    ensures var done := Purged(s.events.parked) + Purged(s.data.parked);
            var r := (s.events.parked + s.data.parked)[k];
            |done| == |s.events.parked| + |s.data.parked| && done[k] == Plain(r, Cancelled, 0)
  {
  }
}
