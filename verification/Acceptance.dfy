/** What the histories record is what the callers sent: a channel's arrivals are the
    packets of the writes the driver accepted, in the order it accepted them. */
module Acceptance {
  import opened Hci
  import opened Rendezvous
  import opened Channels
  import opened Fdo
  import opened Driver
  import Delivery

  function StackQueueFor(p: Packet): Which {
    if p.kind == H4_ACL then DataQueue else EventQueue
  }

  /** A packet must be queued on q and there is no memory for it. */
  predicate NoMemory(s: State, q: Which, poolOk: bool) {
    WaitingRead(ChannelOf(s, q)).None? && AllocFails(s, poolOk)
  }

  /** What region r accepts onto channel q: the packet of an admitted write, or of a
      WRITE_HCI or a control reply, unless it is dropped for want of memory or of a
      client. */
  function Accepts(s: State, r: Region, q: Which): seq<Packet> {
    match r
    case DeliversToStack(p, poolOk) => if q == StackQueueFor(p) && !NoMemory(s, q, poolOk) then [p] else []
    case QueuesToUser(p, poolOk) =>
      if q.UserQueue? && s.owner.Some? && !NoMemory(s, q, poolOk) then [p] else []
    case _ => []
  }

  // ---------------------------------------------------------------------------
  // Who sent it
  // ---------------------------------------------------------------------------

  /** A packet on its way to channel q, with the write it came in; or a control
      packet's reply, on its way to the client. */
  datatype Entry = Wrote(q: Which, r: Request, p: Packet) | Replied(r: Request, p: Packet)

  function ChannelFor(e: Entry): Which {
    if e.Wrote? then e.q else UserQueue
  }

  /** What a callback's next step would settle, if it is about to deliver or queue. */
  function Settling(t: Thread): Option<Entry> {
    match t
    case AwaitsDelivery(r, p) => Some(Wrote(StackQueueFor(p), r, p))
    case AwaitsQueueing(r, p) => Some(Wrote(UserQueue, r, p))
    case Replies(r, opcode, id) => Some(Replied(r, ControlReplyPacket(opcode, id)))
    case _ => None
  }

  function WhenSettled(s: State, e: Option<Entry>, poolOk: bool): Option<Entry> {
    if e.None? then None
    else if ChannelFor(e.value).UserQueue? && s.owner.None? then None
    else if NoMemory(s, ChannelFor(e.value), poolOk) then None
    else e
  }

  /** The write or reply whose packet step l lets into a channel. */
  function AcceptedBy(s: System, l: Label): Option<Entry>
    requires Enabled(s, l)
  {
    if l.Go? then WhenSettled(s.fdo, Settling(s.threads[l.i]), l.answer.poolOk) else None
  }

  function Listed(e: Option<Entry>): seq<Entry> {
    if e.Some? then [e.value] else []
  }

  /** The writes and replies whose packets a run has let in, in lock order. */
  function Accepted(knob: ULong, labels: seq<Label>): seq<Entry>
    requires Run(knob, labels).Some?
  {
    if labels == [] then []
    else
      var before := labels[..|labels| - 1];
      Accepted(knob, before) + Listed(AcceptedBy(Run(knob, before).value, labels[|labels| - 1]))
  }

  /** Their packets, for one channel. */
  function PacketsOn(es: seq<Entry>, q: Which): seq<Packet> {
    if es == [] then []
    else
      var e := es[|es| - 1];
      PacketsOn(es[..|es| - 1], q) + if ChannelFor(e) == q then [e.p] else []
  }

  lemma PacketsOnOneMore(es: seq<Entry>, e: Option<Entry>, q: Which)
    ensures PacketsOn(es + Listed(e), q) == PacketsOn(es, q) + PacketsOn(Listed(e), q)
  {
    if e.None? {
      assert es + Listed(e) == es;
    } else {
      assert (es + Listed(e))[..|es|] == es;
      assert Listed(e)[..0] == [];
    }
  }

  lemma OneOnChannel(e: Entry, q: Which)
    ensures PacketsOn(Listed(Some(e)), q) == if ChannelFor(e) == q then [e.p] else []
    ensures PacketsOn(Listed(None), q) == []
  {
    assert Listed(Some(e))[..0] == [];
  }

  /** The step system's threads and the context's regions agree on what is let in. */
  lemma MoveAccepts(s: State, t: Thread, a: Answer, q: Which)
    ensures Accepts(s, RegionOfMove(s, t, a), q) == PacketsOn(Listed(WhenSettled(s, Settling(t), a.poolOk)), q)
  {
    match Settling(t)
    case Some(e) => OneOnChannel(e, q);
    case None => NothingSettles(s, t, a, q);
  }

  lemma NothingSettles(s: State, t: Thread, a: Answer, q: Which)
    requires Settling(t).None?
    ensures Accepts(s, RegionOfMove(s, t, a), q) == []
  {
  }

  lemma StepAccepts(s: System, l: Label, q: Which)
    requires Enabled(s, l)
    ensures Accepts(s.fdo, RegionOf(s, l), q) == PacketsOn(Listed(AcceptedBy(s, l)), q)
  {
    if l.Go? {
      MoveAccepts(s.fdo, s.threads[l.i], l.answer, q);
    }
  }

  // ---------------------------------------------------------------------------
  // Every region adds to a history exactly what it accepts
  // ---------------------------------------------------------------------------

  /** The events that carry an accepted packet in. */
  predicate CarriesIn(es: seq<Event>, ps: seq<Packet>) {
    if ps == [] then es == [] else |ps| == 1 && |es| == 1 && Arrival(es[0]) == ps
  }

  lemma CarriedIn(log: seq<Event>, es: seq<Event>, ps: seq<Packet>)
    requires CarriesIn(es, ps)
    ensures Arrivals(log + es) == Arrivals(log) + ps
  {
    if es != [] {
      assert es == [es[0]];
      ProjectionsExtend(log, es[0]);
    } else {
      assert log + es == log;
    }
  }

  lemma QueueToUserCarries(s: State, p: Packet, poolOk: bool) returns (es: seq<Event>)
    ensures QueueToUser(s, p, poolOk).state.user.log == s.user.log + es
    ensures CarriesIn(es, Accepts(s, QueuesToUser(p, poolOk), UserQueue))
  {
    es := if s.owner.None? || NoMemory(s, UserQueue, poolOk) then []
          else if WaitingRead(s.user).Some? then [Handed(p, s.user.parked[0])]
          else [Queued(p)];
  }

  lemma DeliverToStackCarries(s: State, p: Packet, poolOk: bool) returns (es: seq<Event>)
    ensures var q := StackQueueFor(p);
            && ChannelOf(DeliverToStack(s, p, poolOk).state, q).log == ChannelOf(s, q).log + es
            && CarriesIn(es, Accepts(s, DeliversToStack(p, poolOk), q))
  {
    var c := ChannelOf(s, StackQueueFor(p));
    es := if NoMemory(s, StackQueueFor(p), poolOk) then []
          else if WaitingRead(c).Some? then [Handed(p, c.parked[0])]
          else [Queued(p)];
  }

  /** The writer is told: its write fails for want of memory exactly when its packet
      was not accepted. */
  lemma WriterIsTold(s: State, p: Packet, poolOk: bool)
    ensures DeliverToStack(s, p, poolOk).result == Settled(InsufficientResources)
       <==> Accepts(s, DeliversToStack(p, poolOk), StackQueueFor(p)) == []
  {
  }

  /** A packet for one channel is nothing to the others. */
  lemma OtherChannelsKeep(s: State, p: Packet, poolOk: bool, q: Which)
    ensures !q.UserQueue? ==> ChannelOf(QueueToUser(s, p, poolOk).state, q) == ChannelOf(s, q)
    ensures q != StackQueueFor(p) ==> ChannelOf(DeliverToStack(s, p, poolOk).state, q) == ChannelOf(s, q)
  {
    QueueToUserKeepsOthers(s, p, poolOk);
    DeliverToStackKeepsOthers(s, p, poolOk);
    hide QueueToUser, DeliverToStack;
  }

  lemma QueueToUserKeepsOthers(s: State, p: Packet, poolOk: bool)
    ensures var t := QueueToUser(s, p, poolOk).state; t.events == s.events && t.data == s.data
  {
  }

  lemma DeliverToStackKeepsOthers(s: State, p: Packet, poolOk: bool)
    ensures var t := DeliverToStack(s, p, poolOk).state;
            && t.user == s.user
            && (StackQueueFor(p).EventQueue? ==> t.data == s.data)
            && (StackQueueFor(p).DataQueue? ==> t.events == s.events)
  {
  }

  lemma OtherRegionsBringNothing(s: State, r: Region, q: Which)
    requires Allowed(s, r) && !r.QueuesToUser? && !r.DeliversToStack?
    ensures Arrivals(ChannelOf(Apply(s, r), q).log) == Arrivals(ChannelOf(s, q).log)
  {
    RegionLogs(s, r, q);
    AddedBringsNothing(ChannelOf(s, q), ChannelOf(Apply(s, r), q), r);
  }

  lemma AddedBringsNothing(c: Channel, c': Channel, r: Region)
    requires LogsAtMostOne(c, c', r) && !r.QueuesToUser? && !r.DeliversToStack?
    ensures Arrivals(c'.log) == Arrivals(c.log)
  {
    if c'.log != c.log {
      var e := Added(c.log, c'.log)[0];
      assert c'.log == c.log + [e] && Arrival(e) == [];
      hide Added, MayLog, Arrivals;
      ProjectionsExtend(c.log, e);
    }
  }

  lemma QueueToUserArrives(s: State, p: Packet, poolOk: bool, q: Which)
    ensures Arrivals(ChannelOf(QueueToUser(s, p, poolOk).state, q).log)
         == Arrivals(ChannelOf(s, q).log) + Accepts(s, QueuesToUser(p, poolOk), q)
  {
    OtherChannelsKeep(s, p, poolOk, q);
    hide QueueToUser, DeliverToStack, Arrivals;
    if q.UserQueue? {
      var es := QueueToUserCarries(s, p, poolOk);
      CarriedIn(s.user.log, es, Accepts(s, QueuesToUser(p, poolOk), UserQueue));
    } else {
      CarriedIn(ChannelOf(s, q).log, [], []);
    }
  }

  lemma DeliverToStackArrives(s: State, p: Packet, poolOk: bool, q: Which)
    ensures Arrivals(ChannelOf(DeliverToStack(s, p, poolOk).state, q).log)
         == Arrivals(ChannelOf(s, q).log) + Accepts(s, DeliversToStack(p, poolOk), q)
  {
    OtherChannelsKeep(s, p, poolOk, q);
    hide QueueToUser, DeliverToStack, Arrivals;
    if q == StackQueueFor(p) {
      var es := DeliverToStackCarries(s, p, poolOk);
      CarriedIn(ChannelOf(s, q).log, es, Accepts(s, DeliversToStack(p, poolOk), q));
    } else {
      CarriedIn(ChannelOf(s, q).log, [], []);
    }
  }

  lemma ApplyArrives(s: State, r: Region, q: Which)
    requires Allowed(s, r)
    ensures Arrivals(ChannelOf(Apply(s, r), q).log) == Arrivals(ChannelOf(s, q).log) + Accepts(s, r, q)
  {
    match r
    case QueuesToUser(p, poolOk) => QueueToUserArrives(s, p, poolOk, q);
    case DeliversToStack(p, poolOk) => DeliverToStackArrives(s, p, poolOk, q);
    case _ => OtherRegionsBringNothing(s, r, q);
  }

  // ---------------------------------------------------------------------------
  // What every run guarantees
  // ---------------------------------------------------------------------------

  /** A channel's arrivals are the packets of the writes and replies accepted for it,
      in the order they were accepted. */
  lemma {:induction false} ArrivalsAreAccepted(knob: ULong, labels: seq<Label>, q: Which)
    requires Run(knob, labels).Some?
    ensures Arrivals(ChannelOf(Run(knob, labels).value.fdo, q).log) == PacketsOn(Accepted(knob, labels), q)
  {
    if labels != [] {
      var before := labels[..|labels| - 1];
      ArrivalsAreAccepted(knob, before, q);
      var s, l := Run(knob, before).value, labels[|labels| - 1];
      StepAppliesRegion(s, l);
      StepAccepts(s, l, q);
      ApplyArrives(s.fdo, RegionOf(s, l), q);
      PacketsOnOneMore(Accepted(knob, before), AcceptedBy(s, l), q);
    }
  }

  /** FIFO refinement from end to end: the packets of the accepted writes, in the
      order they were accepted and less exactly the whole-backlog runs that purges
      cut out, are the packets matched to reads so far and then the backlog. */
  lemma {:induction false} AcceptedPacketsComeOutInOrder(knob: ULong, labels: seq<Label>, q: Which)
    requires Run(knob, labels).Some?
    ensures var c := ChannelOf(Run(knob, labels).value.fdo, q);
            Kept(PacketsOn(Accepted(knob, labels), q), Cut(c.log)) == MatchedPackets(c.log) + Packets(c.backlog)
  {
    ArrivalsAreAccepted(knob, labels, q);
    Delivery.PacketsInOrder(knob, labels, q);
  }
}
