/** Which bytes a read shows: those of the packet it was matched to, in its side's
    layout, and so the very bytes the other side wrote. */
module ReadBytes {
  import opened Hci
  import opened Rendezvous
  import opened Channels
  import opened Fdo
  import opened Driver
  import opened Ledgers
  import opened MatchLedger
  import Answers

  /** A packet as a read of this origin should see it: for the client its type and its
      body; for the stack its length, low byte first, its type and its body. */
  function Layout(o: Origin, p: Packet): seq<Byte> {
    match o
    case FromClient => [p.kind] + p.body
    case FromStack => LittleEndian32(Wrap(|p.body|)) + [p.kind] + p.body
  }

  /** Counts the matches of x to a packet laid out as bs that x has room for. */
  function Showing(x: Request, bs: seq<Byte>): Weighing {
    (r, p) => if r == x && Layout(x.origin, p) == bs && |bs| <= x.room then 1 else 0
  }

  lemma {:induction false} SameDue(log: seq<Event>, f: Weighing, g: Weighing)
    requires forall r, p :: f(r, p) == g(r, p)
    ensures Due(log, f) == Due(log, g)
  {
    if log != [] {
      SameDue(log[..|log| - 1], f, g);
    }
  }

  lemma {:induction false} SameOwed(ts: seq<Thread>, f: Weighing, g: Weighing)
    requires forall r, p :: f(r, p) == g(r, p)
    ensures Tally(ts, Owing(f)) == Tally(ts, Owing(g))
  {
    if ts != [] {
      SameOwed(ts[..|ts| - 1], f, g);
    }
  }

  lemma SuccessIsLayout(r: Request, p: Packet, x: Request, bs: seq<Byte>)
    ensures CompleteRead(r, p) == WithPacket(x, Success, bs, |bs|)
       <==> r == x && Layout(x.origin, p) == bs && |bs| <= x.room
  {
    hide LittleEndian32, Wrap;
    LayoutLength(r.origin, p);
  }

  lemma LayoutLength(o: Origin, p: Packet)
    ensures |Layout(o, p)| == |p.body| + if o.FromClient? then 1 else 5
  {
  }

  /** Matches of x whose layout is bs. */
  function Shows(s: State, x: Request, bs: seq<Byte>): nat {
    AllDue(s, Showing(x, bs))
  }

  /** In every run: a read x is completed with the bytes bs, or is about to be, exactly
      as often as it was matched to a packet that is laid out so and fits. */
  lemma MatchesAreShown(knob: ULong, labels: seq<Label>, x: Request, bs: seq<Byte>)
    requires Run(knob, labels).Some?
    ensures var s := Run(knob, labels).value;
            Tally(s.threads, Owing(Showing(x, bs))) + Count(s.completed, WithPacket(x, Success, bs, |bs|))
            == Shows(s.fdo, x, bs)
  {
    var s, d := Run(knob, labels).value, WithPacket(x, Success, bs, |bs|);
    var f, g := Making(d), Showing(x, bs);
    MatchesAreDelivered(knob, labels, d);
    forall r, p ensures f(r, p) == g(r, p) {
      SuccessIsLayout(r, p, x, bs);
    }
    hide Run, Due, Tally, Count, CompleteRead, Layout;
    SameDue(s.fdo.user.log, f, g);
    SameDue(s.fdo.events.log, f, g);
    SameDue(s.fdo.data.log, f, g);
    SameOwed(s.threads, f, g);
  }

  // ---------------------------------------------------------------------------
  // Nothing else is ever shown
  // ---------------------------------------------------------------------------

  predicate MatchedIn(log: seq<Event>, r: Request, p: Packet) {
    Handed(p, r) in log || Taken(p, r) in log
  }

  predicate Matched(s: State, r: Request, p: Packet) {
    MatchedIn(s.user.log, r, p) || MatchedIn(s.events.log, r, p) || MatchedIn(s.data.log, r, p)
  }

  lemma {:induction false} DueIsMatched(log: seq<Event>, d: Done) returns (r: Request, p: Packet)
    requires Due(log, Making(d)) > 0
    ensures MatchedIn(log, r, p) && CompleteRead(r, p) == d
  {
    var e := log[|log| - 1];
    if MatchIn(e, Making(d)) > 0 {
      r, p := e.r, e.p;
    } else {
      r, p := DueIsMatched(log[..|log| - 1], d);
    }
  }

  lemma FailureIsTooBig(r: Request, p: Packet)
    ensures var d := CompleteRead(r, p);
            && d.r == r && d.WithPacket?
            && (d.status.Success? <==> |Layout(r.origin, p)| <= r.room)
            && d.output == (if d.status.Success? then Layout(r.origin, p) else []) && d.info == |d.output|
  {
    hide LittleEndian32, Wrap;
    LayoutLength(r.origin, p);
  }

  /** What a completion with a packet says. */
  predicate Shown(d: Done, p: Packet) {
    && d.WithPacket? && d.info == |d.output|
    && (d.status.Success? <==> |Layout(d.r.origin, p)| <= d.r.room)
    && d.output == if d.status.Success? then Layout(d.r.origin, p) else []
  }

  /** A completion with a packet shows one its read was matched to, whole, unless that
      does not fit; then it shows nothing. */
  lemma NothingElseIsShown(knob: ULong, labels: seq<Label>, k: nat) returns (p: Packet)
    requires Run(knob, labels).Some? && k < |Run(knob, labels).value.completed|
    requires Run(knob, labels).value.completed[k].WithPacket?
    ensures var s := Run(knob, labels).value; Matched(s.fdo, s.completed[k].r, p) && Shown(s.completed[k], p)
  {
    var s := Run(knob, labels).value;
    var d := s.completed[k];
    MatchesAreDelivered(knob, labels, d);
    CountOnlyMembers(s.completed, d);
    hide Run, Tally, Count, CompleteRead, Layout;
    var r;
    if Due(s.fdo.user.log, Making(d)) > 0 {
      r, p := DueIsMatched(s.fdo.user.log, d);
    } else if Due(s.fdo.events.log, Making(d)) > 0 {
      r, p := DueIsMatched(s.fdo.events.log, d);
    } else {
      r, p := DueIsMatched(s.fdo.data.log, d);
    }
    FailureIsTooBig(r, p);
  }

  /** A client's write whose packet was handed to a waiting read shares that read's
      fate: it succeeds, with its whole transfer, if the read had room for the packet,
      and fails as the read does if not. */
  lemma WriteSharesItsReadsFate(knob: ULong, labels: seq<Label>, i: nat, a: Answer)
    requires Run(knob, labels).Some? && i < |Run(knob, labels).value.threads|
    requires Run(knob, labels).value.threads[i].HoldsStackRead?
    ensures var s, t, calls := Run(knob, labels).value, Run(knob, labels).value.threads[i], Answers.Calls(labels);
            var m := Move(s.fdo, t, a);
            && t.r.id < |calls| && calls[t.r.id].WriteFile? && |calls[t.r.id].bytes| >= 2
            && t.p == Packet(calls[t.r.id].bytes[0], calls[t.r.id].bytes[1..])
            && |m.done| == 1 && m.done[0].r == t.read && Shown(m.done[0], t.p)
            && m.thread == Finishing(t.r, m.done[0].status,
                                     if |Layout(t.read.origin, t.p)| <= t.read.room then |calls[t.r.id].bytes| else 0)
  {
    var s, t, calls := Run(knob, labels).value, Run(knob, labels).value.threads[i], Answers.Calls(labels);
    Answers.RunsAreLawful(knob, labels);
    assert Answers.Holds(t, calls);
    FailureIsTooBig(t.read, t.p);
    HandedMove(s.fdo, t, a);
    hide Run, Answers.Calls, Answers.AllLawful, CompleteRead, Layout, Move;
  }

  lemma HandedMove(s: State, t: Thread, a: Answer)
    requires t.HoldsStackRead?
    ensures var m, d := Move(s, t, a), CompleteRead(t.read, t.p);
            m.done == [d] && m.thread == Finishing(t.r, d.status, if d.status.Success? then |t.p.body| + 1 else 0)
  {
  }

  // ---------------------------------------------------------------------------
  // From the bytes written to the bytes read
  // ---------------------------------------------------------------------------

  /** Counts the matches of x to p that x has room for. */
  function Meeting(x: Request, p: Packet, room: nat): Weighing {
    (r, q) => if r == x && q == p && room <= x.room then 1 else 0
  }

  lemma LayoutIsInjective(o: Origin, p: Packet, q: Packet)
    ensures Layout(o, p) == Layout(o, q) <==> p == q
  {
    var a, b := Layout(o, p), Layout(o, q);
    LayoutLength(o, p);
    LayoutLength(o, q);
    var h := if o.FromClient? then 1 else 5;
    assert a[h - 1] == p.kind && a[h..] == p.body;
    assert b[h - 1] == q.kind && b[h..] == q.body;
  }

  /** x is completed with exactly the bytes bs, or is about to be, as often as it was
      matched to p with room for them. */
  predicate AsMatched(s: System, x: Request, p: Packet, bs: seq<Byte>) {
    Tally(s.threads, Owing(Meeting(x, p, |bs|))) + Count(s.completed, WithPacket(x, Success, bs, |bs|))
    == AllDue(s.fdo, Meeting(x, p, |bs|))
  }

  /** Reads matched to p show p's layout, as often as they are. */
  lemma MeetingsAreShown(knob: ULong, labels: seq<Label>, x: Request, p: Packet, bs: seq<Byte>)
    requires Run(knob, labels).Some? && Layout(x.origin, p) == bs
    ensures AsMatched(Run(knob, labels).value, x, p, bs)
  {
    var s, f, g := Run(knob, labels).value, Showing(x, bs), Meeting(x, p, |bs|);
    MatchesAreShown(knob, labels, x, bs);
    forall r, q ensures f(r, q) == g(r, q) {
      LayoutIsInjective(x.origin, q, p);
    }
    hide Run, Due, Tally, Count, Layout;
    SameDue(s.fdo.user.log, f, g);
    SameDue(s.fdo.events.log, f, g);
    SameDue(s.fdo.data.log, f, g);
    SameOwed(s.threads, f, g);
  }

  /** From the stack to the client, end to end: a client's read matched to the packet of
      a WRITE_HCI shows that write's type byte and the DataLen bytes behind its header. */
  lemma ClientReadsWhatTheStackWrote(knob: ULong, labels: seq<Label>, x: Request, input: seq<Byte>)
    requires Run(knob, labels).Some? && x.origin.FromClient? && ClassifyStackWrite(Some(input)).Accept?
    ensures |input| >= 5 && 5 + DataLength(input) <= |input|
    ensures AsMatched(Run(knob, labels).value, x, ClassifyStackWrite(Some(input)).p,
                      [input[4]] + input[5..5 + DataLength(input)])
  {
    var bs := [input[4]] + input[5..5 + DataLength(input)];
    hide Run, DataLength, AsMatched;
    MeetingsAreShown(knob, labels, x, ClassifyStackWrite(Some(input)).p, bs);
  }

  lemma WriteIsLaidOut(bytes: seq<Byte>)
    requires ClassifyWrite(bytes).Send?
    ensures 2 <= |bytes| <= 1022
    ensures Layout(FromStack, ClassifyWrite(bytes).p) == LittleEndian32(|bytes| - 1) + bytes
  {
    var p := ClassifyWrite(bytes).p;
    hide LittleEndian32;
    assert bytes == [p.kind] + p.body;
    assert Wrap(|p.body|) == |bytes| - 1;
    var length := LittleEndian32(|bytes| - 1);
    assert (length + [p.kind]) + p.body == length + ([p.kind] + p.body);
  }

  /** And back: a stack's read matched to the packet of a client's write shows that
      write's bytes behind the length of what follows its type. */
  lemma StackReadsWhatTheClientWrote(knob: ULong, labels: seq<Label>, x: Request, bytes: seq<Byte>)
    requires Run(knob, labels).Some? && x.origin.FromStack? && ClassifyWrite(bytes).Send?
    ensures 2 <= |bytes| <= 1022
    ensures AsMatched(Run(knob, labels).value, x, ClassifyWrite(bytes).p, LittleEndian32(|bytes| - 1) + bytes)
  {
    WriteIsLaidOut(bytes);
    hide Run, LittleEndian32, Layout, ClassifyWrite, AsMatched;
    MeetingsAreShown(knob, labels, x, ClassifyWrite(bytes).p, LittleEndian32(|bytes| - 1) + bytes);
  }

  /** A control packet's reply is read as FF FF, the opcode, and the radio's id, of
      which it has the low 16 bits, low byte first. */
  lemma ClientReadsTheReply(knob: ULong, labels: seq<Label>, x: Request, opcode: Byte, id: ULong, low: Byte, high: Byte)
    requires Run(knob, labels).Some? && x.origin.FromClient? && id % 0x1_0000 == low + 0x100 * high
    ensures AsMatched(Run(knob, labels).value, x, ControlReplyPacket(opcode, id), [0xFF, 0xFF, opcode, low, high])
  {
    LowBytes(id, low, high);
    hide Run, AsMatched;
    MeetingsAreShown(knob, labels, x, ControlReplyPacket(opcode, id), [0xFF, 0xFF, opcode, low, high]);
  }

  lemma LowBytes(id: ULong, low: Byte, high: Byte)
    requires id % 0x1_0000 == low + 0x100 * high
    ensures id % 0x100 == low && id / 0x100 % 0x100 == high
  {
    var q := id / 0x1_0000;
    assert id == 0x1_0000 * q + low + 0x100 * high;
    assert id / 0x100 == 0x100 * q + high;
  }
}
