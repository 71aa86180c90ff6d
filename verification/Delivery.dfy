/** Every run keeps all three channels sound; so, in every reachable state, each
    channel is a FIFO of packets, none has a packet and a read both waiting, and
    the depth counters tell the truth. */
module Delivery {
  import opened Hci
  import opened Rendezvous
  import opened Channels
  import opened Fdo
  import opened Driver

  ghost predicate AllSound(s: State) {
    Sound(s.user) && Sound(s.events) && Sound(s.data)
  }

  // ---------------------------------------------------------------------------
  // Regions
  // ---------------------------------------------------------------------------

  lemma QueueToUserIsSound(s: State, p: Packet, poolOk: bool)
    requires AllSound(s)
    ensures AllSound(QueueToUser(s, p, poolOk).state)
  {
    QueueToUserMeets(s, p, poolOk);
    hide QueueToUser, Sound, HandOff, Append, WaitingRead;
    if WaitingRead(s.user).Some? {
      HandOffIsSound(s.user, p);
    } else {
      AppendIsSound(s.user, Node(s.history.nextSerial, p));
    }
  }

  lemma PostClientReadIsSound(s: State, r: Request, forwardOk: bool)
    requires AllSound(s)
    ensures AllSound(PostClientRead(s, r, forwardOk).state)
  {
    if s.user.backlog != [] {
      TakeHeadIsSound(s.user, r);
    } else if s.user.accepting {
      ParkIsSound(s.user, r);
    }
  }

  lemma PostStackReadIsSound(s: State, acl: bool, r: Request, forwardOk: bool)
    requires AllSound(s)
    ensures AllSound(PostStackRead(s, acl, r, forwardOk).state)
  {
    var c := StackChannel(s, acl);
    if c.backlog != [] {
      TakeHeadIsSound(c, r);
    } else if c.accepting {
      ParkIsSound(c, r);
    }
  }

  lemma DeliverToStackIsSound(s: State, p: Packet, poolOk: bool)
    requires AllSound(s)
    ensures AllSound(DeliverToStack(s, p, poolOk).state)
  {
    var c := StackChannel(s, p.kind == H4_ACL);
    DeliverToStackMeets(s, p, poolOk);
    hide DeliverToStack, Sound, HandOff, Append, WaitingRead;
    if WaitingRead(c).Some? {
      HandOffIsSound(c, p);
    } else {
      AppendIsSound(c, Node(s.history.nextSerial, p));
    }
  }

  lemma PurgesAreSound(s: State, id: ULong)
    requires AllSound(s)
    ensures AllSound(PurgeBacklogs(s)) && AllSound(RadioLeavesD0(s, id))
  {
    FreeAllIsSound(s.user);
    FreeAllIsSound(s.events);
    FreeAllIsSound(s.data);
  }

  lemma QueueEventsAreSound(s: State, q: Which)
    requires AllSound(s)
    ensures AllSound(WithChannel(s, q, PurgeQueue(ChannelOf(s, q))))
    ensures AllSound(WithChannel(s, q, StartQueue(ChannelOf(s, q))))
    ensures forall k: nat :: k < |ChannelOf(s, q).parked| ==>
              AllSound(WithChannel(s, q, CancelRead(ChannelOf(s, q), k)))
  {
    PurgeQueueIsSound(ChannelOf(s, q));
    forall k: nat | k < |ChannelOf(s, q).parked| ensures Sound(CancelRead(ChannelOf(s, q), k)) {
      CancelReadIsSound(ChannelOf(s, q), k);
    }
  }

  lemma ApplyIsSound(s: State, r: Region)
    requires AllSound(s) && Allowed(s, r)
    ensures AllSound(Apply(s, r))
  {
    match r
    case QueuesToUser(p, poolOk) => QueueToUserIsSound(s, p, poolOk);
    case PostsClientRead(q, forwardOk) => PostClientReadIsSound(s, q, forwardOk);
    case PostsStackRead(acl, q, forwardOk) => PostStackReadIsSound(s, acl, q, forwardOk);
    case DeliversToStack(p, poolOk) => DeliverToStackIsSound(s, p, poolOk);
    case LeavesD0(id) => PurgesAreSound(s, id);
    case PurgesBacklogs => PurgesAreSound(s, 0);
    case CancelsRead(q, _) => QueueEventsAreSound(s, q);
    case PurgesQueue(q) => QueueEventsAreSound(s, q);
    case StartsQueue(q) => QueueEventsAreSound(s, q);
    case _ =>
  }

  // ---------------------------------------------------------------------------
  // Runs
  // ---------------------------------------------------------------------------

  lemma {:induction false} RunsAreSound(knob: ULong, labels: seq<Label>)
    requires Run(knob, labels).Some?
    ensures AllSound(Run(knob, labels).value.fdo)
  {
    if labels == [] {
      assert Packets([]) == [];
    } else {
      var before := labels[..|labels| - 1];
      RunsAreSound(knob, before);
      var s, l := Run(knob, before).value, labels[|labels| - 1];
      StepAppliesRegion(s, l);
      ApplyIsSound(s.fdo, RegionOf(s, l));
    }
  }

  // ---------------------------------------------------------------------------
  // What every run guarantees
  // ---------------------------------------------------------------------------

  /** No lost wakeup: in no reachable state does a read wait beside a packet. */
  lemma {:induction false} NoLostWakeup(knob: ULong, labels: seq<Label>, q: Which)
    requires Run(knob, labels).Some?
    ensures var c := ChannelOf(Run(knob, labels).value.fdo, q);
            c.parked == [] || c.backlog == []
  {
    RunsAreSound(knob, labels);
    SoundNeverBothWaiting(ChannelOf(Run(knob, labels).value.fdo, q));
  }

  /** FIFO refinement: in lock order, the accepted packets less the purged runs
      are the matched packets and then the backlog, byte for byte. */
  lemma {:induction false} PacketsInOrder(knob: ULong, labels: seq<Label>, q: Which)
    requires Run(knob, labels).Some?
    ensures var c := ChannelOf(Run(knob, labels).value.fdo, q);
            Kept(Arrivals(c.log), Cut(c.log)) == MatchedPackets(c.log) + Packets(c.backlog)
  {
    RunsAreSound(knob, labels);
    PacketsAreFifo(ChannelOf(Run(knob, labels).value.fdo, q).log);
  }

  /** Depth counters: the count is the backlog's length as a ULONG, the peak the
      longest it ever was (saturating), and a snapshot never shows one above the
      other. */
  lemma {:induction false} CountersTellTheDepth(knob: ULong, labels: seq<Label>, q: Which)
    requires Run(knob, labels).Some?
    ensures var s := Run(knob, labels).value.fdo;
            var c := ChannelOf(s, q);
            && c.count == Wrap(|c.backlog|)
            && Replay(c.log).Some? && |c.backlog| <= MaxDepth(c.log)
            && c.peak as int == (if MaxDepth(c.log) < ULONG_SIZE then MaxDepth(c.log) else ULONG_SIZE - 1)
            && Snapshot(s).hostToCtrlCount <= Snapshot(s).hostToCtrlPeak
            && Snapshot(s).pendingEventCount <= Snapshot(s).pendingEventPeak
            && Snapshot(s).pendingDataCount <= Snapshot(s).pendingDataPeak
  {
    RunsAreSound(knob, labels);
    var s := Run(knob, labels).value.fdo;
    SoundCountWithinPeak(s.user);
    SoundCountWithinPeak(s.events);
    SoundCountWithinPeak(s.data);
  }
}
