/** What one rendezvous between a packet backlog and a queue of parked reads may
    do, told as a log of events, and what every legal log implies.

    Replay is the specification: two abstract FIFOs, at most one of them
    non-empty. The lemmas below say what that means for the packets and the
    reads of a whole log without mentioning the FIFOs' intermediate states. */
module Rendezvous {
  import opened Hci

  datatype Origin = FromClient | FromStack

  /** A framework request. room is the length of its output buffer. */
  datatype Request = Request(id: nat, origin: Origin, room: nat)

  datatype Event =
    | Queued(p: Packet)                  // no read waiting: appended to the backlog
    | Handed(p: Packet, r: Request)      // given straight to the oldest parked read
    | Taken(p: Packet, r: Request)       // a new read took the oldest queued packet
    | Parked(r: Request)                 // a new read found the backlog empty
    | ReadCancelled(place: nat, r: Request)
    | ReadsPurged
    | PacketsPurged

  datatype Fifos = Fifos(packets: seq<Packet>, waiting: seq<Request>)

  /** One event on the pair of FIFOs; None when the event is not legal there. */
  function Advance(f: Fifos, e: Event): Option<Fifos> {
    match e
    case Queued(p) =>
      if f.waiting != [] then None else Some(f.(packets := f.packets + [p]))
    case Handed(p, r) =>
      if f.packets != [] || f.waiting == [] || f.waiting[0] != r then None
      else Some(f.(waiting := f.waiting[1..]))
    case Taken(p, r) =>
      if f.packets == [] || f.packets[0] != p || f.waiting != [] then None
      else Some(f.(packets := f.packets[1..]))
    case Parked(r) =>
      if f.packets != [] then None else Some(f.(waiting := f.waiting + [r]))
    case ReadCancelled(k, r) =>
      if k < |f.waiting| && f.waiting[k] == r then Some(f.(waiting := f.waiting[..k] + f.waiting[k + 1..]))
      else None
    case ReadsPurged => Some(f.(waiting := []))
    case PacketsPurged => Some(f.(packets := []))
  }

  function Replay(log: seq<Event>): Option<Fifos> {
    if log == [] then Some(Fifos([], []))
    else
      match Replay(log[..|log| - 1])
      case None => None
      case Some(f) => Advance(f, log[|log| - 1])
  }

  lemma ReplayExtend(log: seq<Event>, e: Event)
    ensures Replay(log).None? ==> Replay(log + [e]).None?
    ensures Replay(log).Some? ==> Replay(log + [e]) == Advance(Replay(log).value, e)
  {
    assert (log + [e])[..|log|] == log;
  }

  /** No lost wakeup: a legal log never leaves a packet and a read both waiting. */
  lemma {:induction false} NeverBothWaiting(log: seq<Event>)
    requires Replay(log).Some?
    ensures Replay(log).value.packets == [] || Replay(log).value.waiting == []
  {
    if log != [] {
      NeverBothWaiting(log[..|log| - 1]);
    }
  }

  // ---------------------------------------------------------------------------
  // Projections of a log
  // ---------------------------------------------------------------------------

  function Arrival(e: Event): seq<Packet> {
    match e
    case Queued(p) => [p]
    case Handed(p, _) => [p]
    case _ => []
  }

  function MatchedPacket(e: Event): seq<Packet> {
    match e
    case Handed(p, _) => [p]
    case Taken(p, _) => [p]
    case _ => []
  }

  function Posting(e: Event): seq<Request> {
    match e
    case Taken(_, r) => [r]
    case Parked(r) => [r]
    case _ => []
  }

  function MatchedRead(e: Event): seq<Request> {
    match e
    case Handed(_, r) => [r]
    case Taken(_, r) => [r]
    case _ => []
  }

  /** Packets accepted into the channel, in lock order. */
  function Arrivals(log: seq<Event>): seq<Packet> {
    if log == [] then [] else Arrivals(log[..|log| - 1]) + Arrival(log[|log| - 1])
  }

  /** Packets matched to a read, in lock order. */
  function MatchedPackets(log: seq<Event>): seq<Packet> {
    if log == [] then [] else MatchedPackets(log[..|log| - 1]) + MatchedPacket(log[|log| - 1])
  }

  /** Reads that parked or took a packet, in lock order. */
  function Postings(log: seq<Event>): seq<Request> {
    if log == [] then [] else Postings(log[..|log| - 1]) + Posting(log[|log| - 1])
  }

  /** Reads matched to a packet, in lock order. */
  function MatchedReads(log: seq<Event>): seq<Request> {
    if log == [] then [] else MatchedReads(log[..|log| - 1]) + MatchedRead(log[|log| - 1])
  }

  /** How many packets went onto the backlog rather than straight to a read. */
  function QueuedCount(log: seq<Event>): nat {
    if log == [] then 0
    else QueuedCount(log[..|log| - 1]) + if log[|log| - 1].Queued? then 1 else 0
  }

  /** How many packets were taken off the backlog by a read. */
  function TakenCount(log: seq<Event>): nat {
    if log == [] then 0
    else TakenCount(log[..|log| - 1]) + if log[|log| - 1].Taken? then 1 else 0
  }

  /** How many packets purges have removed: at each purge, every arrival that has
      not been matched is gone. */
  function PurgedCount(log: seq<Event>): int {
    if log == [] then 0
    else if log[|log| - 1].PacketsPurged? then
      |Arrivals(log[..|log| - 1])| - |MatchedPackets(log[..|log| - 1])|
    else PurgedCount(log[..|log| - 1])
  }

  /** The arrivals purges have cut out, by position: each purge cuts the one run
      that starts after everything already matched or cut and ends at the newest. */
  function Cut(log: seq<Event>): set<int> {
    if log == [] then {}
    else
      var before := log[..|log| - 1];
      if log[|log| - 1].PacketsPurged? then
        Cut(before) + Span(|MatchedPackets(before)| + PurgedCount(before), |Arrivals(before)|)
      else Cut(before)
  }

  function Span(lo: int, hi: int): (s: set<int>)
    ensures forall i :: i in s <==> lo <= i < hi
    decreases hi - lo
  {
    if lo < hi then {lo} + Span(lo + 1, hi) else {}
  }

  /** Reads that left the queue without a packet: cancelled, or purged while waiting. */
  function Gone(log: seq<Event>): set<Request> {
    if log == [] then {}
    else
      var before := log[..|log| - 1];
      match log[|log| - 1]
      case ReadCancelled(_, r) => Gone(before) + {r}
      case ReadsPurged => Gone(before) + ((set r | r in Postings(before)) - set r | r in MatchedReads(before))
      case _ => Gone(before)
  }

  /** The longest the backlog has ever been. */
  function MaxDepth(log: seq<Event>): nat
    requires Replay(log).Some?
  {
    if log == [] then 0
    else Max(MaxDepth(log[..|log| - 1]), |Replay(log).value.packets|)
  }

  function Max(a: int, b: int): int {
    if a < b then b else a
  }

  lemma ProjectionsExtend(log: seq<Event>, e: Event)
    ensures Arrivals(log + [e]) == Arrivals(log) + Arrival(e)
    ensures MatchedPackets(log + [e]) == MatchedPackets(log) + MatchedPacket(e)
    ensures Postings(log + [e]) == Postings(log) + Posting(e)
    ensures MatchedReads(log + [e]) == MatchedReads(log) + MatchedRead(e)
    ensures QueuedCount(log + [e]) == QueuedCount(log) + if e.Queued? then 1 else 0
    ensures TakenCount(log + [e]) == TakenCount(log) + if e.Taken? then 1 else 0
    ensures Arrival(e) == [] ==> Arrivals(log + [e]) == Arrivals(log)
    ensures MatchedPacket(e) == [] ==> MatchedPackets(log + [e]) == MatchedPackets(log)
    ensures Posting(e) == [] ==> Postings(log + [e]) == Postings(log)
    ensures MatchedRead(e) == [] ==> MatchedReads(log + [e]) == MatchedReads(log)
  {
    assert (log + [e])[..|log|] == log;
  }

  /** An event other than a purge moves at most one packet through the line. */
  lemma PacketsMove(f: Fifos, e: Event)
    requires Advance(f, e).Some? && !e.PacketsPurged?
    ensures f.packets + Arrival(e) == MatchedPacket(e) + Advance(f, e).value.packets
  {
  }

  /** An event other than a cancel or a purge moves at most one read through the line. */
  lemma ReadsMove(f: Fifos, e: Event)
    requires Advance(f, e).Some? && !e.ReadCancelled? && !e.ReadsPurged?
    ensures f.waiting + Posting(e) == MatchedRead(e) + Advance(f, e).value.waiting
  {
  }

  // ---------------------------------------------------------------------------
  // FIFO order of packets
  // ---------------------------------------------------------------------------

  /** xs without the positions in cut. */
  function Kept<T>(xs: seq<T>, cut: set<int>): seq<T> {
    if xs == [] then []
    else
      var n := |xs| - 1;
      Kept(xs[..n], cut) + if n in cut then [] else [xs[n]]
  }

  lemma {:induction false} KeptTail<T>(xs: seq<T>, ys: seq<T>, cut: set<int>)
    requires forall i :: |xs| <= i < |xs| + |ys| ==> i !in cut
    ensures Kept(xs + ys, cut) == Kept(xs, cut) + ys
  {
    if ys == [] {
      assert xs + ys == xs;
    } else {
      var n := |ys| - 1;
      KeptTail(xs, ys[..n], cut);
      assert (xs + ys)[..|xs| + n] == xs + ys[..n];
      assert ys == ys[..n] + [ys[n]];
    }
  }

  lemma KeptCutTail<T>(xs: seq<T>, ys: seq<T>, cut: set<int>, more: set<int>)
    requires forall i :: i in more <==> |xs| <= i < |xs| + |ys|
    ensures Kept(xs + ys, cut + more) == Kept(xs, cut)
  {
    KeptAgree(xs, cut, cut + more);
    KeptNothing(xs, ys, cut + more);
  }

  lemma {:induction false} KeptNothing<T>(xs: seq<T>, ys: seq<T>, cut: set<int>)
    requires forall i :: |xs| <= i < |xs| + |ys| ==> i in cut
    ensures Kept(xs + ys, cut) == Kept(xs, cut)
  {
    if ys == [] {
      assert xs + ys == xs;
    } else {
      var n := |ys| - 1;
      KeptNothing(xs, ys[..n], cut);
      assert (xs + ys)[..|xs| + n] == xs + ys[..n];
    }
  }

  lemma {:induction false} KeptAgree<T>(xs: seq<T>, c: set<int>, d: set<int>)
    requires forall i :: 0 <= i < |xs| ==> (i in c <==> i in d)
    ensures Kept(xs, c) == Kept(xs, d)
  {
    if xs != [] {
      KeptAgree(xs[..|xs| - 1], c, d);
    }
  }

  /** What a legal log says about packet counts and about where cuts may lie. */
  lemma {:induction false} PacketCounts(log: seq<Event>)
    requires Replay(log).Some?
    ensures |Arrivals(log)| == |MatchedPackets(log)| + PurgedCount(log) + |Replay(log).value.packets|
    ensures 0 <= PurgedCount(log)
    ensures QueuedCount(log) == TakenCount(log) + PurgedCount(log) + |Replay(log).value.packets|
    ensures forall i :: i in Cut(log) ==> 0 <= i < |Arrivals(log)| - |Replay(log).value.packets|
  {
    if log != [] {
      PacketCounts(log[..|log| - 1]);
    }
  }

  /** FIFO refinement of the packet side: the accepted packets, less exactly the
      whole-backlog runs cut out by purges, are the matched packets in order
      followed by the current backlog. */
  lemma {:induction false} PacketsAreFifo(log: seq<Event>)
    requires Replay(log).Some?
    ensures Kept(Arrivals(log), Cut(log)) == MatchedPackets(log) + Replay(log).value.packets
  {
    if log != [] {
      var before, e := log[..|log| - 1], log[|log| - 1];
      assert log == before + [e];
      PacketsAreFifo(before);
      if e.PacketsPurged? {
        PurgeCuts(before);
      } else {
        PacketMovesOn(before, e);
      }
    }
  }

  lemma PurgeCuts(before: seq<Event>)
    requires Replay(before).Some?
    requires Kept(Arrivals(before), Cut(before)) == MatchedPackets(before) + Replay(before).value.packets
    ensures var log := before + [PacketsPurged];
            Replay(log).Some? && Kept(Arrivals(log), Cut(log)) == MatchedPackets(log) + Replay(log).value.packets
  {
    ReplayExtend(before, PacketsPurged);
    ProjectionsExtend(before, PacketsPurged);
    PacketCounts(before);
    var all, packets := Arrivals(before), Replay(before).value.packets;
    CutBacklog(all, Cut(before), MatchedPackets(before), packets);
    assert Cut(before + [PacketsPurged]) == Cut(before) + Span(|all| - |packets|, |all|) by {
      assert (before + [PacketsPurged])[..|before|] == before;
    }
    assert MatchedPackets(before) + [] == MatchedPackets(before);
  }

  lemma PacketMovesOn(before: seq<Event>, e: Event)
    requires Replay(before).Some? && Replay(before + [e]).Some? && !e.PacketsPurged?
    requires Kept(Arrivals(before), Cut(before)) == MatchedPackets(before) + Replay(before).value.packets
    ensures var log := before + [e];
            Kept(Arrivals(log), Cut(log)) == MatchedPackets(log) + Replay(log).value.packets
  {
    ReplayExtend(before, e);
    ProjectionsExtend(before, e);
    PacketCounts(before);
    PacketsMove(Replay(before).value, e);
    KeptTail(Arrivals(before), Arrival(e), Cut(before));
    MovedAlong(MatchedPackets(before), Replay(before).value.packets, Arrival(e), MatchedPacket(e),
               Replay(before + [e]).value.packets);
    assert (before + [e])[..|before|] == before;
  }

  lemma MovedAlong<T>(done: seq<T>, line: seq<T>, arrived: seq<T>, matched: seq<T>, line': seq<T>)
    requires line + arrived == matched + line'
    ensures done + line + arrived == done + matched + line'
  {
    assert done + line + arrived == done + (line + arrived);
    assert done + matched + line' == done + (matched + line');
  }

  lemma CutBacklog(all: seq<Packet>, cut: set<int>, matched: seq<Packet>, packets: seq<Packet>)
    requires |packets| <= |all| && Kept(all, cut) == matched + packets
    requires forall i :: i in cut ==> i < |all| - |packets|
    ensures Kept(all, cut + Span(|all| - |packets|, |all|)) == matched
  {
    var lo := |all| - |packets|;
    var front, back := all[..lo], all[lo..];
    assert all == front + back;
    KeptTail(front, back, cut);
    KeptCutTail(front, back, cut, Span(lo, |all|));
    assert Kept(front, cut) == (matched + packets)[..|matched|];
  }

  // ---------------------------------------------------------------------------
  // FIFO order of reads
  // ---------------------------------------------------------------------------

  /** xs without the members of gone. */
  function Without<T(==)>(xs: seq<T>, gone: set<T>): seq<T> {
    if xs == [] then []
    else
      var n := |xs| - 1;
      Without(xs[..n], gone) + if xs[n] in gone then [] else [xs[n]]
  }

  predicate NoRepeats<T(==)>(xs: seq<T>) {
    forall i, j :: 0 <= i < j < |xs| ==> xs[i] != xs[j]
  }

  lemma {:induction false} WithoutConcat<T>(xs: seq<T>, ys: seq<T>, gone: set<T>)
    ensures Without(xs + ys, gone) == Without(xs, gone) + Without(ys, gone)
  {
    if ys == [] {
      assert xs + ys == xs;
    } else {
      var n := |ys| - 1;
      WithoutConcat(xs, ys[..n], gone);
      assert (xs + ys)[..|xs| + n] == xs + ys[..n];
    }
  }

  lemma {:induction false} WithoutTwice<T>(xs: seq<T>, a: set<T>, b: set<T>)
    ensures Without(xs, a + b) == Without(Without(xs, a), b)
  {
    if xs != [] {
      var n := |xs| - 1;
      WithoutTwice(xs[..n], a, b);
      WithoutConcat(Without(xs[..n], a), if xs[n] in a then [] else [xs[n]], b);
      assert Without([xs[n]], b) == if xs[n] in b then [] else [xs[n]];
    }
  }

  lemma {:induction false} WithoutNone<T>(xs: seq<T>, gone: set<T>)
    requires forall x :: x in xs ==> x !in gone
    ensures Without(xs, gone) == xs
  {
    if xs != [] {
      WithoutNone(xs[..|xs| - 1], gone);
    }
  }

  lemma {:induction false} WithoutAll<T>(xs: seq<T>, gone: set<T>)
    requires forall x :: x in xs ==> x in gone
    ensures Without(xs, gone) == []
  {
    if xs != [] {
      WithoutAll(xs[..|xs| - 1], gone);
    }
  }

  lemma {:induction false} WithoutOnlyKeeps<T>(xs: seq<T>, gone: set<T>)
    ensures forall x :: x in Without(xs, gone) <==> x in xs && x !in gone
  {
    if xs != [] {
      var n := |xs| - 1;
      WithoutOnlyKeeps(xs[..n], gone);
      assert xs == xs[..n] + [xs[n]];
    }
  }

  lemma {:induction false} WithoutNoRepeats<T>(xs: seq<T>, gone: set<T>)
    requires NoRepeats(xs)
    ensures NoRepeats(Without(xs, gone))
  {
    if xs != [] {
      var n := |xs| - 1;
      WithoutNoRepeats(xs[..n], gone);
      WithoutOnlyKeeps(xs[..n], gone);
    }
  }

  /** FIFO refinement of the read side: the posted reads, less those cancelled or
      purged while waiting, are the matched reads in order followed by the reads
      still parked. So matching follows posting order. */
  lemma {:induction false} ReadsAreFifo(log: seq<Event>)
    requires Replay(log).Some? && NoRepeats(Postings(log))
    ensures ReadsInOrder(log)
  {
    if log != [] {
      var before, e := log[..|log| - 1], log[|log| - 1];
      assert log == before + [e];
      ProjectionsExtend(before, e);
      assert Postings(before) == Postings(log)[..|Postings(before)|];
      ReadsAreFifo(before);
      if e.ReadCancelled? {
        CancelDropsOne(before, e);
      } else if e.ReadsPurged? {
        PurgeDropsAll(before);
      } else {
        ReadMovesOn(before, e);
      }
    }
  }

  predicate ReadsInOrder(log: seq<Event>)
    requires Replay(log).Some?
  {
    && Without(Postings(log), Gone(log)) == MatchedReads(log) + Replay(log).value.waiting
    && Gone(log) <= set r | r in Postings(log)
  }

  lemma CancelDropsOne(before: seq<Event>, e: Event)
    requires Replay(before).Some? && Replay(before + [e]).Some? && e.ReadCancelled?
    requires NoRepeats(Postings(before)) && ReadsInOrder(before)
    ensures ReadsInOrder(before + [e])
  {
    ReplayExtend(before, e);
    ProjectionsExtend(before, e);
    DropOne(Postings(before), Gone(before), MatchedReads(before), Replay(before).value.waiting, e.place);
    assert (before + [e])[..|before|] == before;
  }

  lemma PurgeDropsAll(before: seq<Event>)
    requires Replay(before).Some? && NoRepeats(Postings(before)) && ReadsInOrder(before)
    ensures Replay(before + [ReadsPurged]).Some? && ReadsInOrder(before + [ReadsPurged])
  {
    ReplayExtend(before, ReadsPurged);
    ProjectionsExtend(before, ReadsPurged);
    DropTheRest(Postings(before), Gone(before), MatchedReads(before), Replay(before).value.waiting);
    assert (before + [ReadsPurged])[..|before|] == before;
    assert MatchedReads(before) + [] == MatchedReads(before);
  }

  lemma ReadMovesOn(before: seq<Event>, e: Event)
    requires Replay(before).Some? && Replay(before + [e]).Some? && !e.ReadCancelled? && !e.ReadsPurged?
    requires NoRepeats(Postings(before + [e])) && ReadsInOrder(before)
    ensures ReadsInOrder(before + [e])
  {
    ReplayExtend(before, e);
    ProjectionsExtend(before, e);
    ReadsMove(Replay(before).value, e);
    PostAndMatch(Postings(before), Posting(e), Gone(before));
    MovedAlong(MatchedReads(before), Replay(before).value.waiting, Posting(e), MatchedRead(e),
               Replay(before + [e]).value.waiting);
    assert (before + [e])[..|before|] == before;
  }

  lemma Apart<T>(a: seq<T>, b: seq<T>)
    requires NoRepeats(a + b)
    ensures forall x :: x in a ==> x !in b
  {
    forall i, j | 0 <= i < |a| && 0 <= j < |b| ensures a[i] != b[j] {
      assert (a + b)[i] == a[i] && (a + b)[|a| + j] == b[j];
    }
  }

  lemma PostAndMatch<T>(posted: seq<T>, more: seq<T>, gone: set<T>)
    requires NoRepeats(posted + more) && gone <= set r | r in posted
    ensures Without(posted + more, gone) == Without(posted, gone) + more
  {
    WithoutConcat(posted, more, gone);
    Apart(posted, more);
    WithoutNone(more, gone);
  }

  lemma DropOne<T>(posted: seq<T>, gone: set<T>, matched: seq<T>, line: seq<T>, k: nat)
    requires NoRepeats(posted) && Without(posted, gone) == matched + line && k < |line|
    ensures Without(posted, gone + {line[k]}) == matched + (line[..k] + line[k + 1..])
    ensures line[k] in posted
  {
    var ab := matched + line;
    var n := |matched| + k;
    assert line[k] == ab[n] && NoRepeats(ab) by { WithoutNoRepeats(posted, gone); }
    assert ab[n] in posted by { WithoutOnlyKeeps(posted, gone); }
    WithoutTwice(posted, gone, {ab[n]});
    WithoutPlace(ab, n);
    PlaceInTail(matched, line, k);
  }

  lemma PlaceInTail<T>(a: seq<T>, b: seq<T>, k: nat)
    requires k < |b|
    ensures (a + b)[..|a| + k] + (a + b)[|a| + k + 1..] == a + (b[..k] + b[k + 1..])
  {
  }

  lemma {:induction false} WithoutPlace<T>(xs: seq<T>, n: nat)
    requires n < |xs| && NoRepeats(xs)
    ensures Without(xs, {xs[n]}) == xs[..n] + xs[n + 1..]
  {
    var m := |xs| - 1;
    if n == m {
      WithoutNone(xs[..m], {xs[m]});
    } else {
      WithoutPlace(xs[..m], n);
      assert xs[..m][..n] + xs[..m][n + 1..] + [xs[m]] == xs[..n] + xs[n + 1..];
    }
  }

  lemma DropTheRest<T>(posted: seq<T>, gone: set<T>, matched: seq<T>, line: seq<T>)
    requires NoRepeats(posted) && Without(posted, gone) == matched + line
    ensures var lost := (set r | r in posted) - (set r | r in matched);
            Without(posted, gone + lost) == matched
  {
    var lost := (set r | r in posted) - (set r | r in matched);
    WithoutTwice(posted, gone, lost);
    WithoutConcat(matched, line, lost);
    WithoutNone(matched, lost);
    WithoutNoRepeats(posted, gone);
    WithoutOnlyKeeps(posted, gone);
    Apart(matched, line);
    forall r | r in line ensures r in lost {
      assert r in matched + line;
    }
    WithoutAll(line, lost);
  }
}
