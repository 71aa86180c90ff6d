/** One channel of the driver: a packet backlog with its ULONG depth and peak, the
    framework's manual queue of parked reads, and the history of both.

    The operations are the moves the driver makes under its lock. They look at
    the depth counter and at what the queue answers, never at the history; the
    lemmas say the history stays a legal rendezvous all the same. */
module Channels {
  import opened Hci
  import opened Rendezvous

  /** A pool allocation holding one packet. serial tells allocations apart. */
  datatype Node = Node(serial: nat, packet: Packet)

  datatype Channel = Channel(
    backlog: seq<Node>,
    parked: seq<Request>,
    accepting: bool,         // false from a purge of the queue until it is started
    count: ULong,
    peak: ULong,
    log: seq<Event>)

  const EMPTY_CHANNEL := Channel([], [], true, 0, 0, [])

  function Packets(ns: seq<Node>): seq<Packet> {
    seq(|ns|, i requires 0 <= i < |ns| => ns[i].packet)
  }

  function Saturated(depth: nat): int {
    if depth < ULONG_SIZE then depth else ULONG_SIZE - 1
  }

  /** The history is a legal rendezvous that ends in the present state, and the
      two ULONGs follow the backlog's true depth: the count modulo 2^32, the peak
      saturating at the largest ULONG. */
  ghost predicate Sound(c: Channel) {
    && Replay(c.log) == Some(Fifos(Packets(c.backlog), c.parked))
    && (!c.accepting ==> c.parked == [])
    && c.count == |c.backlog| % ULONG_SIZE
    && c.peak as int == Saturated(MaxDepth(c.log))
  }

  // ---------------------------------------------------------------------------
  // Moves under the lock
  // ---------------------------------------------------------------------------

  /** WdfIoQueueRetrieveNextRequest fails only on an empty or a purged queue. */
  function RetrieveNext(c: Channel): Option<Request> {
    if c.accepting && c.parked != [] then Some(c.parked[0]) else None
  }

  /** The read a packet arriving now is given to, if any. The driver asks the
      queue only when its counter says nothing is queued ahead. */
  function WaitingRead(c: Channel): Option<Request> {
    if c.count == 0 then RetrieveNext(c) else None
  }

  function HandOff(c: Channel, p: Packet): Channel
    requires WaitingRead(c).Some?
  {
    c.(parked := c.parked[1..], log := c.log + [Handed(p, c.parked[0])])
  }

  function Append(c: Channel, n: Node): Channel {
    var count := Wrap(c.count + 1);
    c.(backlog := c.backlog + [n],
       count := count,
       peak := if count > c.peak then count else c.peak,
       log := c.log + [Queued(n.packet)])
  }

  function TakeHead(c: Channel, r: Request): Channel
    requires c.backlog != []
  {
    c.(backlog := c.backlog[1..],
       count := Wrap(c.count - 1),
       log := c.log + [Taken(c.backlog[0].packet, r)])
  }

  function Park(c: Channel, r: Request): Channel {
    c.(parked := c.parked + [r], log := c.log + [Parked(r)])
  }

  function FreeAll(c: Channel): Channel {
    c.(backlog := [], count := 0, log := c.log + [PacketsPurged])
  }

  // ---------------------------------------------------------------------------
  // Moves the framework makes on the queue, without the lock
  // ---------------------------------------------------------------------------

  function CancelRead(c: Channel, k: nat): Channel
    requires k < |c.parked|
  {
    c.(parked := c.parked[..k] + c.parked[k + 1..], log := c.log + [ReadCancelled(k, c.parked[k])])
  }

  function PurgeQueue(c: Channel): Channel {
    c.(parked := [], accepting := false, log := c.log + [ReadsPurged])
  }

  function StartQueue(c: Channel): Channel {
    c.(accepting := true)
  }

  // ---------------------------------------------------------------------------
  // Every move keeps the channel sound
  // ---------------------------------------------------------------------------

  /** The rule the driver rests on: never a packet and a read both waiting. */
  lemma SoundNeverBothWaiting(c: Channel)
    requires Sound(c)
    ensures c.backlog == [] || c.parked == []
  {
    NeverBothWaiting(c.log);
    assert |Packets(c.backlog)| == |c.backlog|;
  }

  /** A snapshot never shows a depth above its peak. */
  lemma SoundCountWithinPeak(c: Channel)
    requires Sound(c)
    ensures c.count <= c.peak
    ensures |c.backlog| <= MaxDepth(c.log)
  {
    assert |Packets(c.backlog)| == |c.backlog|;
  }

  lemma DepthExtends(log: seq<Event>, e: Event)
    requires Replay(log).Some? && Advance(Replay(log).value, e).Some?
    ensures Replay(log + [e]) == Advance(Replay(log).value, e)
    ensures MaxDepth(log + [e]) == Max(MaxDepth(log), |Advance(Replay(log).value, e).value.packets|)
    ensures MaxDepth(log) >= |Replay(log).value.packets|
  {
    ReplayExtend(log, e);
    assert (log + [e])[..|log|] == log;
  }

  lemma HandOffIsSound(c: Channel, p: Packet)
    requires Sound(c) && WaitingRead(c).Some?
    ensures Sound(HandOff(c, p))
  {
    SoundNeverBothWaiting(c);
    DepthExtends(c.log, Handed(p, c.parked[0]));
  }

  lemma AppendReplays(c: Channel, n: Node)
    requires Sound(c) && WaitingRead(c).None?
    ensures c.parked == []
    ensures Replay(c.log + [Queued(n.packet)]) == Some(Fifos(Packets(c.backlog + [n]), []))
    ensures MaxDepth(c.log + [Queued(n.packet)]) == Max(MaxDepth(c.log), |c.backlog| + 1)
  {
    SoundNeverBothWaiting(c);
    assert Packets(c.backlog + [n]) == Packets(c.backlog) + [n.packet];
    DepthExtends(c.log, Queued(n.packet));
  }

  lemma AppendIsSound(c: Channel, n: Node)
    requires Sound(c) && WaitingRead(c).None?
    ensures Sound(Append(c, n))
  {
    hide Replay, MaxDepth;
    AppendReplays(c, n);
    SoundCountWithinPeak(c);
    CountUp(|c.backlog|);
    PeakFollows(|c.backlog|, MaxDepth(c.log));
  }

  lemma CountUp(n: nat)
    ensures Wrap(n % ULONG_SIZE + 1) == (n + 1) % ULONG_SIZE
  {
  }

  /** Raising the peak to a wrapped count leaves it the saturated greatest depth. */
  lemma PeakFollows(n: nat, deepest: nat)
    requires n <= deepest
    ensures Max(Saturated(deepest), Wrap(n % ULONG_SIZE + 1)) == Saturated(Max(deepest, n + 1))
  {
  }

  lemma CountDown(n: int)
    requires n > 0
    ensures Wrap(n % ULONG_SIZE - 1) == (n - 1) % ULONG_SIZE
  {
  }

  lemma TakeHeadIsSound(c: Channel, r: Request)
    requires Sound(c) && c.backlog != []
    ensures Sound(TakeHead(c, r))
  {
    SoundNeverBothWaiting(c);
    assert Packets(c.backlog[1..]) == Packets(c.backlog)[1..];
    DepthExtends(c.log, Taken(c.backlog[0].packet, r));
    CountDown(|c.backlog|);
  }

  lemma ParkIsSound(c: Channel, r: Request)
    requires Sound(c) && c.backlog == [] && c.accepting
    ensures Sound(Park(c, r))
  {
    assert Packets(c.backlog) == [];
    DepthExtends(c.log, Parked(r));
  }

  lemma FreeAllIsSound(c: Channel)
    requires Sound(c)
    ensures Sound(FreeAll(c))
  {
    assert Packets([]) == [];
    DepthExtends(c.log, PacketsPurged);
  }

  lemma CancelReadIsSound(c: Channel, k: nat)
    requires Sound(c) && k < |c.parked|
    ensures Sound(CancelRead(c, k))
  {
    DepthExtends(c.log, ReadCancelled(k, c.parked[k]));
  }

  lemma PurgeQueueIsSound(c: Channel)
    requires Sound(c)
    ensures Sound(PurgeQueue(c))
  {
    DepthExtends(c.log, ReadsPurged);
  }
}
