/** What becomes of the matches a channel makes: every read matched to a packet is
    completed, once, with that packet's own bytes; and reads are matched in the
    order they were posted. */
module MatchLedger {
  import opened Hci
  import opened Rendezvous
  import opened Channels
  import opened Fdo
  import opened Driver
  import opened Ledgers
  import Delivery
  import RequestLedger

  // ---------------------------------------------------------------------------
  // Matched reads become completions
  // ---------------------------------------------------------------------------

  /** Which matches to count, and how often. */
  type Weighing = (Request, Packet) -> nat

  /** Counts the matches whose completion is d. */
  function Making(d: Done): Weighing {
    (r, p) => if CompleteRead(r, p) == d then 1 else 0
  }

  function MatchIn(e: Event, f: Weighing): nat {
    match e
    case Handed(p, r) => f(r, p)
    case Taken(p, r) => f(r, p)
    case _ => 0
  }

  /** How often the log matched a read to a packet so, counted by f. */
  function Due(log: seq<Event>, f: Weighing): nat {
    if log == [] then 0 else Due(log[..|log| - 1], f) + MatchIn(log[|log| - 1], f)
  }

  lemma DueExtends(log: seq<Event>, e: Event, f: Weighing)
    ensures Due(log + [e], f) == Due(log, f) + MatchIn(e, f)
  {
    assert (log + [e])[..|log|] == log;
  }

  function AllDue(s: State, f: Weighing): nat {
    Due(s.user.log, f) + Due(s.events.log, f) + Due(s.data.log, f)
  }

  /** Matched, and still to be completed by this callback. */
  function Owes(t: Thread, f: Weighing): nat {
    match t
    case HasPacket(r, n) => f(r, n.packet)
    case HoldsStackRead(_, p, read) => f(read, p)
    case HoldsClientRead(_, p, read, _) => f(read, p)
    case _ => 0
  }

  function Owing(f: Weighing): Thread -> nat {
    t => Owes(t, f)
  }

  lemma QueueToUserDue(s: State, p: Packet, poolOk: bool, f: Weighing)
    ensures var h := QueueToUser(s, p, poolOk);
            AllDue(h.state, f) == AllDue(s, f) + if h.taken.Some? then f(h.taken.value, p) else 0
  {
    QueueToUserMeets(s, p, poolOk);
    hide QueueToUser, Due;
    if WaitingRead(s.user).Some? {
      DueExtends(s.user.log, Handed(p, s.user.parked[0]), f);
    } else {
      DueExtends(s.user.log, Queued(p), f);
    }
  }

  lemma DeliverToStackDue(s: State, p: Packet, poolOk: bool, f: Weighing)
    ensures var v := DeliverToStack(s, p, poolOk);
            AllDue(v.state, f) == AllDue(s, f) + if v.result.HandTo? then f(v.result.r, p) else 0
  {
    var c := StackChannel(s, p.kind == H4_ACL);
    DeliverToStackMeets(s, p, poolOk);
    hide DeliverToStack, Due;
    if WaitingRead(c).Some? {
      DueExtends(c.log, Handed(p, c.parked[0]), f);
    } else {
      DueExtends(c.log, Queued(p), f);
    }
  }

  function GotIt(r: Request, p: PostResult, f: Weighing): nat {
    if p.Got? then f(r, p.node.packet) else 0
  }

  lemma PostDue(c: Channel, r: Request, f: Weighing)
    ensures c.backlog != [] ==> Due(TakeHead(c, r).log, f) == Due(c.log, f) + f(r, c.backlog[0].packet)
    ensures Due(Park(c, r).log, f) == Due(c.log, f)
  {
    if c.backlog != [] {
      DueExtends(c.log, Taken(c.backlog[0].packet, r), f);
    }
    DueExtends(c.log, Parked(r), f);
  }

  lemma ClientPostDue(s: State, r: Request, forwardOk: bool, f: Weighing)
    ensures var p := PostClientRead(s, r, forwardOk);
            AllDue(p.state, f) == AllDue(s, f) + GotIt(r, p.result, f)
  {
    PostDue(s.user, r, f);
  }

  lemma StackPostDue(s: State, acl: bool, r: Request, forwardOk: bool, f: Weighing)
    ensures var p := PostStackRead(s, acl, r, forwardOk);
            AllDue(p.state, f) == AllDue(s, f) + GotIt(r, p.result, f)
  {
    PostDue(StackChannel(s, acl), r, f);
  }

  lemma AddedDue(c: Channel, c': Channel, r: Region, f: Weighing)
    requires LogsAtMostOne(c, c', r)
    requires !r.QueuesToUser? && !r.PostsClientRead? && !r.PostsStackRead? && !r.DeliversToStack?
    ensures Due(c'.log, f) == Due(c.log, f)
  {
    if c'.log != c.log {
      var e := Added(c.log, c'.log)[0];
      assert c'.log == c.log + [e];
      hide Added;
      DueExtends(c.log, e, f);
    }
  }

  lemma QuietRegionDue(s: State, r: Region, q: Which, f: Weighing)
    requires Allowed(s, r)
    requires !r.QueuesToUser? && !r.PostsClientRead? && !r.PostsStackRead? && !r.DeliversToStack?
    ensures Due(ChannelOf(Apply(s, r), q).log, f) == Due(ChannelOf(s, q).log, f)
  {
    RegionLogs(s, r, q);
    AddedDue(ChannelOf(s, q), ChannelOf(Apply(s, r), q), r, f);
  }

  /** Regions that match nothing. */
  lemma OtherRegionsDue(s: State, r: Region, f: Weighing)
    requires Allowed(s, r)
    requires !r.QueuesToUser? && !r.PostsClientRead? && !r.PostsStackRead? && !r.DeliversToStack?
    ensures AllDue(Apply(s, r), f) == AllDue(s, f)
  {
    hide Apply, Due, Allowed;
    QuietRegionDue(s, r, UserQueue, f);
    QuietRegionDue(s, r, EventQueue, f);
    QuietRegionDue(s, r, DataQueue, f);
  }

  /** One callback's step keeps the balance of the matches f counts; made is how
      many of them it completes. */
  predicate KeepsMatch(s: State, t: Thread, m: Moved, f: Weighing, made: nat) {
    Owes(m.thread, f) + made + AllDue(s, f) == Owes(t, f) + AllDue(m.fdo, f)
  }

  lemma PostedKeeps(s: State, t: Thread, p: Posted, failure: Failure, f: Weighing)
    requires t.ClientRead? || t.StackRead?
    requires AllDue(p.state, f) == AllDue(s, f) + GotIt(t.r, p.result, f)
    ensures KeepsMatch(s, t, AfterPost(t.r, p, failure), f, 0) && AfterPost(t.r, p, failure).done == []
  {
  }

  lemma SettledKeeps(s: State, t: Thread, r: Request, status: Status, f: Weighing)
    requires t.ClientRead? || t.StackRead?
    ensures KeepsMatch(s, t, Moved(s, Finishing(r, status, 0), []), f, 0)
  {
  }

  lemma ClientReadKeeps(s: State, t: Thread, a: Answer, f: Weighing)
    requires t.ClientRead?
    ensures KeepsMatch(s, t, Move(s, t, a), f, 0) && Move(s, t, a).done == []
  {
    hide AllDue, Owes, KeepsMatch, PostClientRead, AfterPost;
    if t.r.room < MAX_H4_PACKET {
      SettledKeeps(s, t, t.r, BufferTooSmall, f);
    } else {
      ClientPostDue(s, t.r, a.forwardOk, f);
      PostedKeeps(s, t, PostClientRead(s, t.r, a.forwardOk), a.failure, f);
    }
  }

  lemma StackReadKeeps(s: State, t: Thread, a: Answer, f: Weighing)
    requires t.StackRead?
    ensures KeepsMatch(s, t, Move(s, t, a), f, 0) && Move(s, t, a).done == []
  {
    hide AllDue, Owes, KeepsMatch, PostStackRead, AfterPost, ClassifyStackRead;
    match ClassifyStackRead(t.posted)
    case RefuseRead(status) => SettledKeeps(s, t, t.r, status, f);
    case Route(acl) =>
      StackPostDue(s, acl, t.r, a.forwardOk, f);
      PostedKeeps(s, t, PostStackRead(s, acl, t.r, a.forwardOk), a.failure, f);
  }

  lemma ReadKeeps(s: State, t: Thread, a: Answer, f: Weighing)
    requires t.ClientRead? || t.StackRead?
    ensures KeepsMatch(s, t, Move(s, t, a), f, 0) && Move(s, t, a).done == []
  {
    hide Move, KeepsMatch;
    if t.ClientRead? {
      ClientReadKeeps(s, t, a, f);
    } else {
      StackReadKeeps(s, t, a, f);
    }
  }

  lemma AfterQueueingOwes(r: Request, p: Packet, info: nat, h: Handing, f: Weighing)
    ensures var m := AfterQueueing(r, p, info, h);
            && Owes(m.thread, f) == (if h.taken.Some? then f(h.taken.value, p) else 0)
            && m.done == [] && m.fdo == h.state
  {
  }

  lemma QueueingKeeps(s: State, t: Thread, p: Packet, info: nat, poolOk: bool, f: Weighing)
    requires t.Replies? || t.AwaitsQueueing?
    ensures var m := AfterQueueing(t.r, p, info, QueueToUser(s, p, poolOk));
            KeepsMatch(s, t, m, f, 0) && m.done == []
  {
    QueueToUserDue(s, p, poolOk, f);
    AfterQueueingOwes(t.r, p, info, QueueToUser(s, p, poolOk), f);
  }

  lemma DeliveryKeeps(s: State, t: Thread, p: Packet, poolOk: bool, f: Weighing)
    requires t.AwaitsDelivery?
    ensures var m := AfterDelivery(t.r, p, DeliverToStack(s, p, poolOk));
            KeepsMatch(s, t, m, f, 0) && m.done == []
  {
    DeliverToStackDue(s, p, poolOk, f);
    AfterDeliveryOwes(t.r, p, DeliverToStack(s, p, poolOk), f);
    hide DeliverToStack, AfterDelivery, AllDue;
  }

  lemma AfterDeliveryOwes(r: Request, p: Packet, d: Delivered, f: Weighing)
    ensures var m := AfterDelivery(r, p, d);
            && Owes(m.thread, f) == (if d.result.HandTo? then f(d.result.r, p) else 0)
            && m.done == [] && m.fdo == d.state
  {
  }

  /** A completion pays what was owed. */
  lemma CompletionKeeps(s: State, t: Thread, a: Answer, d: Done)
    requires t.HasPacket? || t.HoldsStackRead? || t.HoldsClientRead? || t.Finishing?
    requires d.WithPacket?
    ensures KeepsMatch(s, t, Move(s, t, a), Making(d), Count(Move(s, t, a).done, d))
  {
    if t.Finishing? {
      CountOne(Plain(t.r, t.status, t.info), d);
      hide AllDue, Count;
    } else {
      ReadCompletionKeeps(s, t, a, d);
    }
  }

  lemma ReadCompletionKeeps(s: State, t: Thread, a: Answer, d: Done)
    requires t.HasPacket? || t.HoldsStackRead? || t.HoldsClientRead?
    ensures KeepsMatch(s, t, Move(s, t, a), Making(d), Count(Move(s, t, a).done, d))
  {
    hide AllDue, Count, CompleteRead;
    match t
    case HasPacket(r, n) => CountOne(CompleteRead(r, n.packet), d);
    case HoldsStackRead(_, p, read) => CountOne(CompleteRead(read, p), d);
    case HoldsClientRead(_, p, read, _) => CountOne(CompleteRead(read, p), d);
  }

  lemma PurgedIsPlain(rs: seq<Request>, d: Done)
    requires d.WithPacket?
    ensures Count(Purged(rs), d) == 0
  {
    CountOnlyMembers(Purged(rs), d);
  }

  lemma OtherMovesOweNothing(s: State, t: Thread, a: Answer, f: Weighing)
    requires !t.ClientRead? && !t.StackRead? && !t.AwaitsDelivery? && !t.Replies? && !t.AwaitsQueueing?
    requires !t.HasPacket? && !t.HoldsStackRead? && !t.HoldsClientRead? && !t.Finishing?
    ensures Owes(t, f) == 0 && Owes(Move(s, t, a).thread, f) == 0
    ensures var r := RegionOfMove(s, t, a);
            !r.QueuesToUser? && !r.PostsClientRead? && !r.PostsStackRead? && !r.DeliversToStack?
  {
  }

  lemma OtherMovesKeep(s: State, t: Thread, a: Answer, f: Weighing)
    requires !t.ClientRead? && !t.StackRead? && !t.AwaitsDelivery? && !t.Replies? && !t.AwaitsQueueing?
    requires !t.HasPacket? && !t.HoldsStackRead? && !t.HoldsClientRead? && !t.Finishing?
    ensures KeepsMatch(s, t, Move(s, t, a), f, 0)
  {
    MoveAppliesRegion(s, t, a);
    OtherMovesOweNothing(s, t, a, f);
    hide Move, Apply, RegionOfMove, Owes, AllDue;
    OtherRegionsDue(s, RegionOfMove(s, t, a), f);
  }

  lemma OtherMovesComplete(s: State, t: Thread, a: Answer, d: Done)
    requires !t.ClientRead? && !t.StackRead? && !t.AwaitsDelivery? && !t.Replies? && !t.AwaitsQueueing?
    requires !t.HasPacket? && !t.HoldsStackRead? && !t.HoldsClientRead? && !t.Finishing?
    requires d.WithPacket?
    ensures Count(Move(s, t, a).done, d) == 0
  {
    PurgedIsPlain(s.events.parked, d);
    PurgedIsPlain(s.data.parked, d);
  }

  lemma MoveKeepsMatches(s: State, t: Thread, a: Answer, d: Done)
    requires d.WithPacket?
    ensures KeepsMatch(s, t, Move(s, t, a), Making(d), Count(Move(s, t, a).done, d))
  {
    hide KeepsMatch, QueueToUser, DeliverToStack, AfterDelivery, AfterQueueing;
    match t
    case ClientRead(_) | StackRead(_, _) => ReadKeeps(s, t, a, Making(d));
    case AwaitsDelivery(_, p) => DeliveryKeeps(s, t, p, a.poolOk, Making(d));
    case Replies(_, opcode, id) => QueueingKeeps(s, t, ControlReplyPacket(opcode, id), 2, a.poolOk, Making(d));
    case AwaitsQueueing(_, p) => QueueingKeeps(s, t, p, |p.body|, a.poolOk, Making(d));
    case HasPacket(_, _) | HoldsStackRead(_, _, _) | HoldsClientRead(_, _, _, _) | Finishing(_, _, _) =>
      CompletionKeeps(s, t, a, d);
    case _ =>
      OtherMovesKeep(s, t, a, Making(d));
      OtherMovesComplete(s, t, a, d);
  }

  ghost predicate Balanced(s: System, d: Done) {
    Tally(s.threads, Owing(Making(d))) + Count(s.completed, d) == AllDue(s.fdo, Making(d))
  }

  lemma GoBalances(s: System, i: nat, a: Answer, d: Done)
    requires d.WithPacket? && Balanced(s, d) && i < |s.threads|
    ensures var m := Move(s.fdo, s.threads[i], a);
            Balanced(s.(fdo := m.fdo, threads := s.threads[i := m.thread], completed := s.completed + m.done), d)
  {
    var m := Move(s.fdo, s.threads[i], a);
    MoveKeepsMatches(s.fdo, s.threads[i], a, d);
    TallyUpdate(s.threads, i, m.thread, Owing(Making(d)));
    CountConcat(s.completed, m.done, d);
  }

  /** A step that is no callback's completes no matched read. */
  lemma QuietStepBalances(s: System, l: Label, d: Done)
    requires d.WithPacket? && Balanced(s, d) && Enabled(s, l) && !l.Go? && !l.Issue? && !l.DeviceCleanup?
    ensures Balanced(Step(s, l), d)
  {
    StepAppliesRegion(s, l);
    OtherRegionsDue(s.fdo, RegionOf(s, l), Making(d));
    QuietSteps(s, l);
    CompletesNoMatch(s, l, d);
  }

  lemma CompletesNoMatch(s: System, l: Label, d: Done)
    requires d.WithPacket? && Enabled(s, l) && !l.Go?
    ensures Count(Step(s, l).completed, d) == Count(s.completed, d)
  {
    if l.ContinueClose? {
      PurgedIsPlain(s.fdo.events.parked, d);
      PurgedIsPlain(s.fdo.data.parked, d);
      CountConcat(s.completed, Purged(s.fdo.events.parked), d);
      CountConcat(s.completed, Purged(s.fdo.data.parked), d);
    } else if l.FrameworkCancels? {
      var done := Plain(ChannelOf(s.fdo, l.q).parked[l.k], Cancelled, 0);
      CountConcat(s.completed, [done], d);
      CountOne(done, d);
    }
  }

  lemma NewCallbackOwesNothing(s: System, l: Label, f: Weighing)
    requires l.Issue? || l.DeviceCleanup?
    ensures Owes(Starting(s, l), f) == 0
  {
  }

  lemma ArrivalBalances(s: System, l: Label, d: Done)
    requires d.WithPacket? && Balanced(s, d) && (l.Issue? || l.DeviceCleanup?)
    requires Enabled(s, l)
    ensures Balanced(Step(s, l), d)
  {
    ArrivalStep(s, l);
    NewCallbackOwesNothing(s, l, Making(d));
    hide Step, Starting, Owes, AllDue;
    TallyAppend(s.threads, Starting(s, l), Owing(Making(d)));
  }

  lemma StepBalances(s: System, l: Label, d: Done)
    requires d.WithPacket? && Balanced(s, d) && Enabled(s, l)
    ensures Balanced(Step(s, l), d)
  {
    hide Balanced;
    match l
    case Go(i, a) => GoBalances(s, i, a, d);
    case Issue(_) | DeviceCleanup => ArrivalBalances(s, l, d);
    case _ => QuietStepBalances(s, l, d);
  }

  /** Every match is delivered exactly once and unchanged: for each completion d
      that carries a packet, those made plus those still in hand are as many as
      the matches that call for d. Nothing else completes a read with a packet. */
  lemma {:induction false} MatchesAreDelivered(knob: ULong, labels: seq<Label>, d: Done)
    requires Run(knob, labels).Some? && d.WithPacket?
    ensures var s, f := Run(knob, labels).value, Making(d);
            Tally(s.threads, Owing(f)) + Count(s.completed, d)
            == Due(s.fdo.user.log, f) + Due(s.fdo.events.log, f) + Due(s.fdo.data.log, f)
  {
    if labels != [] {
      var before := labels[..|labels| - 1];
      MatchesAreDelivered(knob, before, d);
      StepBalances(Run(knob, before).value, labels[|labels| - 1], d);
    }
  }

  // ---------------------------------------------------------------------------
  // Reads are posted at most once, and matched in posting order
  // ---------------------------------------------------------------------------

  function PostedCount(s: State, x: Request): nat {
    Count(Postings(s.user.log), x) + Count(Postings(s.events.log), x) + Count(Postings(s.data.log), x)
  }

  /** 1 if the callback may still post x to a channel. */
  function Unposted(t: Thread, x: Request): nat {
    if (t.ClientRead? || t.StackRead?) && t.r == x then 1 else 0
  }

  function Unposting(x: Request): Thread -> nat {
    t => Unposted(t, x)
  }

  lemma PostingExtends(log: seq<Event>, e: Event, x: Request)
    ensures Count(Postings(log + [e]), x) == Count(Postings(log), x) + Count(Posting(e), x)
  {
    ProjectionsExtend(log, e);
    CountConcat(Postings(log), Posting(e), x);
  }

  lemma PostCounts(c: Channel, r: Request, x: Request)
    ensures c.backlog != [] ==>
              Count(Postings(TakeHead(c, r).log), x) == Count(Postings(c.log), x) + if r == x then 1 else 0
    ensures Count(Postings(Park(c, r).log), x) == Count(Postings(c.log), x) + if r == x then 1 else 0
  {
    CountOne(r, x);
    if c.backlog != [] {
      PostingExtends(c.log, Taken(c.backlog[0].packet, r), x);
    }
    PostingExtends(c.log, Parked(r), x);
  }

  lemma QuietEventPostsNothing(r: Region, e: Event)
    requires MayLog(r, e) && !r.PostsClientRead? && !r.PostsStackRead?
    ensures Posting(e) == []
  {
  }

  lemma AddedPosts(c: Channel, c': Channel, r: Region, x: Request)
    requires LogsAtMostOne(c, c', r) && !r.PostsClientRead? && !r.PostsStackRead?
    ensures Count(Postings(c'.log), x) == Count(Postings(c.log), x)
  {
    if c'.log != c.log {
      var e := Added(c.log, c'.log)[0];
      QuietEventPostsNothing(r, e);
      assert c'.log == c.log + [e];
      hide MayLog, Added, Count, Postings;
      ProjectionsExtend(c.log, e);
    }
  }

  lemma QuietRegionPosts(s: State, r: Region, q: Which, x: Request)
    requires Allowed(s, r) && !r.PostsClientRead? && !r.PostsStackRead?
    ensures Count(Postings(ChannelOf(Apply(s, r), q).log), x) == Count(Postings(ChannelOf(s, q).log), x)
  {
    RegionLogs(s, r, q);
    AddedPosts(ChannelOf(s, q), ChannelOf(Apply(s, r), q), r, x);
  }

  lemma OtherRegionsPostNothing(s: State, r: Region, x: Request)
    requires Allowed(s, r) && !r.PostsClientRead? && !r.PostsStackRead?
    ensures PostedCount(Apply(s, r), x) == PostedCount(s, x)
  {
    QuietRegionPosts(s, r, UserQueue, x);
    QuietRegionPosts(s, r, EventQueue, x);
    QuietRegionPosts(s, r, DataQueue, x);
  }

  lemma ClientPostsOnce(s: State, r: Request, forwardOk: bool, x: Request)
    ensures PostedCount(PostClientRead(s, r, forwardOk).state, x) <= PostedCount(s, x) + if r == x then 1 else 0
  {
    PostCounts(s.user, r, x);
  }

  lemma StackPostsOnce(s: State, acl: bool, r: Request, forwardOk: bool, x: Request)
    ensures PostedCount(PostStackRead(s, acl, r, forwardOk).state, x) <= PostedCount(s, x) + if r == x then 1 else 0
  {
    PostCounts(StackChannel(s, acl), r, x);
  }

  lemma AfterPostIsPosted(r: Request, p: Posted, failure: Failure, x: Request)
    ensures Unposted(AfterPost(r, p, failure).thread, x) == 0 && AfterPost(r, p, failure).fdo == p.state
  {
  }

  lemma ClientReadPostsOnce(s: State, t: Thread, a: Answer, x: Request)
    requires t.ClientRead?
    ensures PostedCount(Move(s, t, a).fdo, x) + Unposted(Move(s, t, a).thread, x) <= PostedCount(s, x) + Unposted(t, x)
  {
    hide PostedCount, PostClientRead, AfterPost;
    ClientPostsOnce(s, t.r, a.forwardOk, x);
    AfterPostIsPosted(t.r, PostClientRead(s, t.r, a.forwardOk), a.failure, x);
  }

  lemma StackReadPostsOnce(s: State, t: Thread, a: Answer, x: Request)
    requires t.StackRead?
    ensures PostedCount(Move(s, t, a).fdo, x) + Unposted(Move(s, t, a).thread, x) <= PostedCount(s, x) + Unposted(t, x)
  {
    var action := ClassifyStackRead(t.posted);
    if action.Route? {
      hide PostedCount, PostStackRead, AfterPost;
      StackPostsOnce(s, action.acl, t.r, a.forwardOk, x);
      AfterPostIsPosted(t.r, PostStackRead(s, action.acl, t.r, a.forwardOk), a.failure, x);
    }
  }

  lemma OtherMovesPostNothing(s: State, t: Thread, a: Answer, x: Request)
    requires !t.ClientRead? && !t.StackRead?
    ensures Unposted(Move(s, t, a).thread, x) == 0
    ensures !RegionOfMove(s, t, a).PostsClientRead? && !RegionOfMove(s, t, a).PostsStackRead?
  {
  }

  lemma MovePostsOnce(s: State, t: Thread, a: Answer, x: Request)
    ensures PostedCount(Move(s, t, a).fdo, x) + Unposted(Move(s, t, a).thread, x) <= PostedCount(s, x) + Unposted(t, x)
  {
    if t.ClientRead? {
      ClientReadPostsOnce(s, t, a, x);
    } else if t.StackRead? {
      StackReadPostsOnce(s, t, a, x);
    } else {
      MoveAppliesRegion(s, t, a);
      OtherMovesPostNothing(s, t, a, x);
      hide Move, Apply, RegionOfMove, PostedCount;
      OtherRegionsPostNothing(s, RegionOfMove(s, t, a), x);
    }
  }

  ghost predicate PostedWithinIssued(s: System, x: Request) {
    PostedCount(s.fdo, x) + Tally(s.threads, Unposting(x)) <= Count(s.issued, x)
  }

  lemma GoPostsOnce(s: System, i: nat, a: Answer, x: Request)
    requires PostedWithinIssued(s, x) && Enabled(s, Go(i, a))
    ensures PostedWithinIssued(Step(s, Go(i, a)), x)
  {
    MovePostsOnce(s.fdo, s.threads[i], a, x);
    TallyUpdate(s.threads, i, Move(s.fdo, s.threads[i], a).thread, Unposting(x));
  }

  lemma NewCallbackPostsOwn(s: System, l: Label, x: Request)
    requires l.Issue? || l.DeviceCleanup?
    ensures Unposted(Starting(s, l), x) <= if l.Issue? && NewRequest(l.a, |s.issued|) == x then 1 else 0
  {
  }

  lemma ArrivalPostsOnce(s: System, l: Label, x: Request)
    requires PostedWithinIssued(s, x) && Enabled(s, l) && (l.Issue? || l.DeviceCleanup?)
    ensures PostedWithinIssued(Step(s, l), x)
  {
    ArrivalStep(s, l);
    NewCallbackPostsOwn(s, l, x);
    hide Step, Starting, Unposted, PostedCount;
    TallyAppend(s.threads, Starting(s, l), Unposting(x));
    if l.Issue? {
      var r := NewRequest(l.a, |s.issued|);
      CountConcat(s.issued, [r], x);
      CountOne(r, x);
    }
  }

  lemma QuietStepPosts(s: System, l: Label, x: Request)
    requires PostedWithinIssued(s, x) && Enabled(s, l) && !l.Go? && !l.Issue? && !l.DeviceCleanup?
    ensures PostedWithinIssued(Step(s, l), x)
  {
    StepAppliesRegion(s, l);
    OtherRegionsPostNothing(s.fdo, RegionOf(s, l), x);
    QuietSteps(s, l);
  }

  lemma StepPostsOnce(s: System, l: Label, x: Request)
    requires PostedWithinIssued(s, x) && Enabled(s, l)
    ensures PostedWithinIssued(Step(s, l), x)
  {
    hide PostedWithinIssued;
    match l
    case Go(i, a) => GoPostsOnce(s, i, a, x);
    case Issue(_) | DeviceCleanup => ArrivalPostsOnce(s, l, x);
    case _ => QuietStepPosts(s, l, x);
  }

  lemma {:induction false} RunsPostOnce(knob: ULong, labels: seq<Label>, x: Request)
    requires Run(knob, labels).Some?
    ensures PostedWithinIssued(Run(knob, labels).value, x)
  {
    if labels != [] {
      var before := labels[..|labels| - 1];
      RunsPostOnce(knob, before, x);
      StepPostsOnce(Run(knob, before).value, labels[|labels| - 1], x);
    }
  }

  /** Reads are matched in posting order, apart from those cancelled or purged
      while they waited. */
  lemma {:induction false} ReadsMatchInOrder(knob: ULong, labels: seq<Label>, q: Which)
    requires Run(knob, labels).Some?
    ensures var c := ChannelOf(Run(knob, labels).value.fdo, q);
            && NoRepeats(Postings(c.log))
            && Without(Postings(c.log), Gone(c.log)) == MatchedReads(c.log) + c.parked
  {
    var s := Run(knob, labels).value;
    var c := ChannelOf(s.fdo, q);
    forall x ensures Count(Postings(c.log), x) <= Count(s.issued, x) {
      RunsPostOnce(knob, labels, x);
    }
    RequestLedger.IssuedAreDistinct(knob, labels);
    CountedOnce(Postings(c.log), s.issued);
    Delivery.RunsAreSound(knob, labels);
    ReadsAreFifo(c.log);
  }
}
