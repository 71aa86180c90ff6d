/** What the bridge should make of everything the controller has sent, as one parse
    of the whole byte stream, however the bytes were cut up on the way. */
module Reassembly {
  import opened Hci
  import opened H4

  const ACCUMULATOR_SIZE := 8192
  const MAX_FRAME := 1026

  /** Pending: no error so far. The others are the bridge's three exceptions. */
  datatype Ending = Pending | Unknown(kind: Byte) | NoFrame | TooBig(n: nat)

  /** The frames in order, how the stream ends, and the bytes from there on. */
  datatype Parsed = Parsed(frames: seq<seq<Byte>>, ending: Ending, rest: seq<Byte>)

  function Window(b: seq<Byte>): seq<Byte> {
    if |b| <= ACCUMULATOR_SIZE then b else b[..ACCUMULATOR_SIZE]
  }

  /** What stands at the head of the stream: a frame to hand over, or an ending. */
  datatype Head = Whole(n: nat) | Stop(ending: Ending)

  function HeadOf(b: seq<Byte>): (h: Head)
    ensures h.Whole? ==> 0 < h.n <= |b| && h.n <= MAX_FRAME
  {
    match FrameLength(Window(b))
    case UnknownType(kind) => Stop(Unknown(kind))
    case Length(n) =>
      if n == 0 then (if |b| < ACCUMULATOR_SIZE then Stop(Pending) else Stop(NoFrame))
      else if n > MAX_FRAME then Stop(TooBig(n))
      else Whole(n)
  }

  function Parse(b: seq<Byte>): Parsed {
    match HeadOf(b)
    case Stop(ending) => Parsed([], ending, b)
    case Whole(n) =>
      Prepend(b[..n], Parse(b[n..]))
  }

  function Prepend(frame: seq<Byte>, p: Parsed): Parsed {
    p.(frames := [frame] + p.frames)
  }

  /** p, then q from where p stopped. */
  function Join(p: Parsed, q: Parsed): Parsed {
    q.(frames := p.frames + q.frames)
  }

  lemma PrependWithin(frame: seq<Byte>, p: Parsed, frames: seq<seq<Byte>>)
    requires p.frames <= frames
    ensures Prepend(frame, p).ending == p.ending && Prepend(frame, p).rest == p.rest
    ensures Prepend(frame, p).frames <= [frame] + frames
  {
    assert frames == p.frames + frames[|p.frames|..];
    Associate([frame], p.frames, frames[|p.frames|..]);
  }

  lemma PrependJoin(frame: seq<Byte>, p: Parsed, q: Parsed)
    ensures Prepend(frame, Join(p, q)) == Join(Prepend(frame, p), q)
  {
    Associate([frame], p.frames, q.frames);
  }

  function Flatten(frames: seq<seq<Byte>>): seq<Byte> {
    if frames == [] then [] else frames[0] + Flatten(frames[1..])
  }

  lemma {:induction false} FlattenConcat(a: seq<seq<Byte>>, b: seq<seq<Byte>>)
    ensures Flatten(a + b) == Flatten(a) + Flatten(b)
  {
    if a == [] {
      assert a + b == b;
    } else {
      assert (a + b)[1..] == a[1..] + b;
      FlattenConcat(a[1..], b);
      assert a[0] + (Flatten(a[1..]) + Flatten(b)) == (a[0] + Flatten(a[1..])) + Flatten(b);
    }
  }

  // ---------------------------------------------------------------------------
  // Nothing is lost or invented
  // ---------------------------------------------------------------------------

  lemma FlattenCons(x: seq<Byte>, ys: seq<seq<Byte>>)
    ensures Flatten([x] + ys) == x + Flatten(ys)
  {
    assert ([x] + ys)[1..] == ys;
  }

  lemma ParseStep(b: seq<Byte>, n: nat)
    requires HeadOf(b) == Whole(n)
    ensures Parse(b) == Prepend(b[..n], Parse(b[n..]))
  {
  }

  lemma ParseStop(b: seq<Byte>)
    requires HeadOf(b).Stop?
    ensures Parse(b) == Parsed([], HeadOf(b).ending, b)
  {
  }

  lemma FlattenNone(b: seq<Byte>)
    ensures Flatten([]) + b == b
  {
  }

  lemma Glue(b: seq<Byte>, n: nat, y: seq<Byte>, r: seq<Byte>)
    requires n <= |b| && y + r == b[n..]
    ensures (b[..n] + y) + r == b
  {
    assert (b[..n] + y) + r == b[..n] + (y + r);
  }

  lemma Associate<T>(x: seq<T>, y: seq<T>, z: seq<T>)
    ensures (x + y) + z == x + (y + z)
  {
  }

  lemma SplitBefore(b: seq<Byte>, n: nat, more: seq<Byte>)
    requires n <= |b|
    ensures (b + more)[..n] == b[..n] && (b + more)[n..] == b[n..] + more
  {
  }

  /** The frames and the rest are the stream. */
  lemma {:induction false} ParseConserves(b: seq<Byte>)
    ensures Flatten(Parse(b).frames) + Parse(b).rest == b
    decreases |b|
  {
    if HeadOf(b).Whole? {
      var n := HeadOf(b).n;
      hide Parse, Flatten, HeadOf;
      ParseConserves(b[n..]);
      ParseStep(b, n);
      var after := Parse(b[n..]);
      FlattenCons(b[..n], after.frames);
      Glue(b, n, Flatten(after.frames), after.rest);
    } else {
      ParseStop(b);
      FlattenNone(b);
    }
  }

  lemma HeadIsFrame(b: seq<Byte>)
    requires HeadOf(b).Whole?
    ensures var n := HeadOf(b).n; FrameLength(b[..n]) == Length(n)
  {
    FrameIsWhole(Window(b));
    assert Window(b)[..HeadOf(b).n] == b[..HeadOf(b).n];
  }

  predicate WholeFrame(f: seq<Byte>) {
    0 < |f| <= MAX_FRAME && FrameLength(f) == Length(|f|)
  }

  /** Each frame is one whole H4 packet the device has room for. */
  lemma {:induction false} FramesAreWhole(b: seq<Byte>)
    ensures forall f :: f in Parse(b).frames ==> WholeFrame(f)
    decreases |b|
  {
    if HeadOf(b).Whole? {
      var n := HeadOf(b).n;
      HeadIsFrame(b);
      assert WholeFrame(b[..n]);
      hide HeadOf, WholeFrame, Parse;
      FramesAreWhole(b[n..]);
      ParseStep(b, n);
    }
  }

  /** While there has been no error, what is left fits the accumulator with room to
      spare, and no frame is complete in it. */
  lemma {:induction false} PendingRestIsShort(b: seq<Byte>)
    requires Parse(b).ending.Pending?
    ensures |Parse(b).rest| < ACCUMULATOR_SIZE && FrameLength(Parse(b).rest) == Length(0)
    decreases |b|
  {
    if HeadOf(b).Whole? {
      var n := HeadOf(b).n;
      hide HeadOf, FrameLength, Parse;
      ParseStep(b, n);
      PendingRestIsShort(b[n..]);
    } else {
      ParseStop(b);
    }
  }

  // ---------------------------------------------------------------------------
  // Bytes may come in any pieces
  // ---------------------------------------------------------------------------

  /** More bytes never change what was already decided at the head. */
  lemma HeadIsStable(b: seq<Byte>, more: seq<Byte>)
    requires HeadOf(b) != Stop(Pending)
    ensures HeadOf(b + more) == HeadOf(b)
  {
    if |b| >= ACCUMULATOR_SIZE {
      assert Window(b + more) == Window(b);
    } else {
      var extra := Window(b + more)[|b|..];
      assert Window(b + more) == b + extra;
      FramingIsStable(b, extra);
    }
  }

  lemma ParseStepMore(b: seq<Byte>, more: seq<Byte>, n: nat)
    requires HeadOf(b) == Whole(n)
    ensures Parse(b + more) == Prepend(b[..n], Parse(b[n..] + more))
  {
    HeadIsStable(b, more);
    hide HeadOf, Parse;
    SplitBefore(b, n, more);
    ParseStep(b + more, n);
  }

  lemma NothingJoined(b: seq<Byte>, q: Parsed)
    ensures Join(Parsed([], Pending, b), q) == q
  {
  }

  lemma RestIsLater(b: seq<Byte>, n: nat)
    requires HeadOf(b) == Whole(n)
    ensures Parse(b).ending == Parse(b[n..]).ending && Parse(b).rest == Parse(b[n..]).rest
  {
    ParseStep(b, n);
    hide Parse, HeadOf;
  }

  lemma ContinuesBefore(b: seq<Byte>, n: nat, more: seq<Byte>)
    requires HeadOf(b) == Whole(n)
    requires Parse(b[n..] + more) == Join(Parse(b[n..]), Parse(Parse(b[n..]).rest + more))
    ensures Parse(b + more) == Join(Parse(b), Parse(Parse(b[n..]).rest + more))
  {
    var q := Parse(Parse(b[n..]).rest + more);
    hide HeadOf, Parse, Prepend, Join;
    ParseStep(b, n);
    ParseStepMore(b, more, n);
    PrependJoin(b[..n], Parse(b[n..]), q);
  }

  /** Parsing what came, then what was left with what came next, is parsing it all. */
  lemma {:induction false} ParseContinues(b: seq<Byte>, more: seq<Byte>)
    requires Parse(b).ending.Pending?
    ensures Parse(b + more) == Join(Parse(b), Parse(Parse(b).rest + more))
    decreases |b|
  {
    if HeadOf(b).Whole? {
      var n := HeadOf(b).n;
      RestIsLater(b, n);
      hide Parse, HeadOf, Join;
      ParseContinues(b[n..], more);
      ContinuesBefore(b, n, more);
    } else {
      ParseStop(b);
      hide Parse, HeadOf, Join;
      NothingJoined(b, Parse(b + more));
    }
  }

  /** Once the stream has failed, no more bytes change anything: every frame before
      the offending one stands, and so does the offence. */
  lemma {:induction false} FailureIsFinal(b: seq<Byte>, more: seq<Byte>)
    requires !Parse(b).ending.Pending?
    ensures Parse(b + more) == Parsed(Parse(b).frames, Parse(b).ending, Parse(b).rest + more)
    decreases |b|
  {
    HeadIsStable(b, more);
    if HeadOf(b).Whole? {
      var n := HeadOf(b).n;
      hide Parse, HeadOf;
      ParseStep(b, n);
      ParseStepMore(b, more, n);
      FailureIsFinal(b[n..], more);
    }
  }

  /** The frames found so far are found again, first, whatever comes next. */
  lemma {:induction false} FramesOnlyGrow(b: seq<Byte>, more: seq<Byte>)
    ensures Parse(b).frames <= Parse(b + more).frames
  {
    if Parse(b).ending.Pending? {
      ParseContinues(b, more);
    } else {
      FailureIsFinal(b, more);
    }
  }

  // ---------------------------------------------------------------------------
  // On a well-formed stream
  // ---------------------------------------------------------------------------

  predicate Sendable(p: HciPacket) {
    WellSized(p) && |Encode(p)| <= MAX_FRAME
  }

  predicate AllSendable(ps: seq<HciPacket>) {
    forall i :: 0 <= i < |ps| ==> Sendable(ps[i])
  }

  function EncodeEach(ps: seq<HciPacket>): seq<seq<Byte>>
    requires AllSendable(ps)
  {
    seq(|ps|, i requires 0 <= i < |ps| => Encode(ps[i]))
  }

  lemma EncodeEachCons(ps: seq<HciPacket>)
    requires AllSendable(ps) && ps != []
    ensures Sendable(ps[0]) && AllSendable(ps[1..])
    ensures EncodeEach(ps) == [Encode(ps[0])] + EncodeEach(ps[1..])
  {
    hide Encode, Sendable;
  }

  /** The unfinished packet at the end of what has come: nothing, or some of p. */
  predicate IsPartial(b: seq<Byte>, p: HciPacket) {
    Sendable(p) && |b| < |Encode(p)| && b == Encode(p)[..|b|]
  }

  lemma PartialIsPending(b: seq<Byte>, p: HciPacket)
    requires IsPartial(b, p)
    ensures Parse(b) == Parsed([], Pending, b)
  {
    PrefixNeedsMore(p, |b|);
    ParseStop(b);
  }

  lemma PacketIsHead(p: HciPacket, rest: seq<Byte>)
    requires Sendable(p)
    ensures HeadOf(Encode(p) + rest) == Whole(|Encode(p)|)
  {
    var b := Encode(p) + rest;
    DecodeInvertsEncode(p);
    HeadIsStable(Encode(p), rest);
  }

  lemma SplitAt(x: seq<Byte>, y: seq<Byte>)
    ensures (x + y)[..|x|] == x && (x + y)[|x|..] == y
  {
  }

  lemma ParsePacket(p: HciPacket, after: seq<Byte>)
    requires Sendable(p)
    ensures Parse(Encode(p) + after) == Prepend(Encode(p), Parse(after))
  {
    var e := Encode(p);
    PacketIsHead(p, after);
    hide Encode, Parse, HeadOf;
    SplitAt(e, after);
    ParseStep(e + after, |e|);
  }

  /** Of any packets of at most 1026 bytes, sent one after another and cut off
      anywhere, exactly the whole ones are handed over, in order; what is left is
      less than one packet, so the accumulator never fills. */
  lemma {:induction false} WellFormedStreams(ps: seq<HciPacket>, partial: seq<Byte>, last: HciPacket)
    requires AllSendable(ps) && IsPartial(partial, last)
    ensures Parse(Flatten(EncodeEach(ps)) + partial) == Parsed(EncodeEach(ps), Pending, partial)
    ensures |partial| < MAX_FRAME
  {
    if ps == [] {
      PartialIsPending(partial, last);
      FlattenNone(partial);
    } else {
      EncodeEachCons(ps);
      var e, es := Encode(ps[0]), EncodeEach(ps[1..]);
      var after := Flatten(es) + partial;
      hide Encode, Parse, HeadOf, Flatten, EncodeEach, Sendable, AllSendable, IsPartial;
      FlattenCons(e, es);
      Associate(e, Flatten(es), partial);
      WellFormedStreams(ps[1..], partial, last);
      ParsePacket(ps[0], after);
    }
  }

  lemma CutBefore(x: seq<Byte>, y: seq<Byte>, k: nat)
    requires k <= |x|
    ensures (x + y)[..k] == x[..k]
  {
  }

  lemma CutAfter(x: seq<Byte>, y: seq<Byte>, k: nat)
    requires |x| <= k <= |x| + |y|
    ensures (x + y)[..k] == x + y[..k - |x|]
  {
  }

  /** Parsing b there is no error, less than one packet waits, and what was handed
      over is the first of these frames. */
  predicate Calm(b: seq<Byte>, frames: seq<seq<Byte>>) {
    Parse(b).ending.Pending? && |Parse(b).rest| < MAX_FRAME && Parse(b).frames <= frames
  }

  lemma CalmAtFirst(frames: seq<seq<Byte>>)
    ensures Calm([], frames)
  {
    ParseStop([]);
  }

  lemma CalmInFirst(p: HciPacket, k: nat, frames: seq<seq<Byte>>)
    requires Sendable(p) && k < |Encode(p)|
    ensures Calm(Encode(p)[..k], frames)
  {
    PartialIsPending(Encode(p)[..k], p);
  }

  lemma CalmAfterFirst(p: HciPacket, after: seq<Byte>, frames: seq<seq<Byte>>)
    requires Sendable(p) && Calm(after, frames)
    ensures Calm(Encode(p) + after, [Encode(p)] + frames)
  {
    ParsePacket(p, after);
    PrependWithin(Encode(p), Parse(after), frames);
    hide Parse, Encode, Prepend;
  }

  /** At every moment of a stream of whole packets, with any k bytes of it come. */
  lemma {:induction false} WellFormedMoments(ps: seq<HciPacket>, k: nat)
    requires AllSendable(ps) && k <= |Flatten(EncodeEach(ps))|
    ensures Calm(Flatten(EncodeEach(ps))[..k], EncodeEach(ps))
  {
    if ps == [] {
      assert Flatten(EncodeEach(ps))[..k] == [];
      hide Calm, Flatten, EncodeEach;
      CalmAtFirst(EncodeEach(ps));
    } else {
      EncodeEachCons(ps);
      var e, es := Encode(ps[0]), EncodeEach(ps[1..]);
      FlattenCons(e, es);
      hide Calm, Flatten, EncodeEach;
      if k < |e| {
        CutBefore(e, Flatten(es), k);
        CalmInFirst(ps[0], k, [e] + es);
      } else {
        CutAfter(e, Flatten(es), k);
        WellFormedMoments(ps[1..], k - |e|);
        CalmAfterFirst(ps[0], Flatten(es)[..k - |e|], es);
      }
    }
  }

  // ---------------------------------------------------------------------------
  // The only way to read a stream
  // ---------------------------------------------------------------------------

  predicate Begins(b: seq<Byte>, p: HciPacket, n: nat) {
    WellSized(p) && n <= |b| && n <= |Encode(p)| && b[..n] == Encode(p)[..n]
  }

  /** Why a stream ends as it does with b left of it, told in packets: b is some of a
      packet and the accumulator has room; it starts with no packet type; with a whole
      packet longer than 1026 bytes; or with 8192 bytes of a longer one still. */
  ghost predicate EndsBecause(ending: Ending, b: seq<Byte>) {
    match ending
    case Pending => |b| < 8192 && exists p :: Begins(b, p, |b|) && |b| < |Encode(p)|
    case Unknown(kind) => |b| > 0 && b[0] == kind && !(1 <= kind <= 5)
    case TooBig(n) => 1026 < n <= 8192 && exists p :: Begins(b, p, n) && |Encode(p)| == n
    case NoFrame => |b| >= 8192 && exists p :: Begins(b, p, 8192) && |Encode(p)| > 8192
  }

  lemma WindowIsPrefix(b: seq<Byte>)
    ensures Window(b) == b[..|Window(b)|] && |Window(b)| == if |b| < 8192 then |b| else 8192
  {
  }

  /** A prefix of a packet asks for more, the whole packet does not. */
  lemma BeginningIsFramed(w: seq<Byte>, p: HciPacket)
    requires WellSized(p)
    ensures |w| < |Encode(p)| && w == Encode(p)[..|w|] ==> FrameLength(w) == Length(0)
    ensures |w| >= |Encode(p)| && w[..|Encode(p)|] == Encode(p) ==> FrameLength(w) == Length(|Encode(p)|)
  {
    var e := Encode(p);
    if |w| < |e| && w == e[..|w|] {
      PrefixNeedsMore(p, |w|);
    } else if |w| >= |e| && w[..|e|] == e {
      EncodeIsFramed(p, w[|e|..]);
      assert w == e + w[|e|..];
    }
  }

  lemma EndingIsDecided(ending: Ending, b: seq<Byte>)
    requires EndsBecause(ending, b)
    ensures Parse(b) == Parsed([], ending, b)
  {
    WindowIsPrefix(b);
    match ending {
      case Unknown(_) => OnlyUnknownTypesAreErrors(Window(b));
      case Pending =>
        var p :| Begins(b, p, |b|) && |b| < |Encode(p)|;
        BeginningIsFramed(Window(b), p);
      case TooBig(n) =>
        var p :| Begins(b, p, n) && |Encode(p)| == n;
        BeginningIsFramed(Window(b), p);
        assert Window(b)[..n] == b[..n];
      case NoFrame =>
        var p :| Begins(b, p, 8192) && |Encode(p)| > 8192;
        BeginningIsFramed(Window(b), p);
    }
    hide FrameLength, Window, Encode;
    ParseStop(b);
  }

  lemma {:induction false} FramesThenRest(ps: seq<HciPacket>, ending: Ending, b: seq<Byte>)
    requires AllSendable(ps) && Parse(b) == Parsed([], ending, b)
    ensures Parse(Flatten(EncodeEach(ps)) + b) == Parsed(EncodeEach(ps), ending, b)
  {
    if ps == [] {
      FlattenNone(b);
    } else {
      EncodeEachCons(ps);
      var e, es := Encode(ps[0]), EncodeEach(ps[1..]);
      hide Encode, Parse, HeadOf, Flatten, EncodeEach, Sendable, AllSendable;
      FlattenCons(e, es);
      Associate(e, Flatten(es), b);
      FramesThenRest(ps[1..], ending, b);
      ParsePacket(ps[0], Flatten(es) + b);
    }
  }

  /** Whoever reads a stream as packets of at most 1026 bytes, and a reason to end
      there, reads what the bridge reads. */
  lemma ReadingIsParse(ps: seq<HciPacket>, ending: Ending, rest: seq<Byte>)
    requires AllSendable(ps) && EndsBecause(ending, rest)
    ensures Parse(Flatten(EncodeEach(ps)) + rest) == Parsed(EncodeEach(ps), ending, rest)
  {
    EndingIsDecided(ending, rest);
    FramesThenRest(ps, ending, rest);
  }

  lemma StopHasReason(b: seq<Byte>)
    requires HeadOf(b).Stop?
    ensures EndsBecause(HeadOf(b).ending, b)
  {
    var w := Window(b);
    WindowIsPrefix(b);
    match FrameLength(w)
    case UnknownType(_) => OnlyUnknownTypesAreErrors(w);
    case Length(n) =>
      if n == 0 {
        var p := AskingIsBeginning(w);
        assert Begins(b, p, |w|);
      } else {
        FrameIsWhole(w);
        EncodeInvertsDecode(w[..n]);
        assert Begins(b, Decode(w[..n]), n);
      }
  }

  lemma FrameIsPacket(b: seq<Byte>, n: nat) returns (p: HciPacket)
    requires HeadOf(b) == Whole(n)
    ensures Sendable(p) && Encode(p) == b[..n]
  {
    HeadIsFrame(b);
    p := Decode(b[..n]);
    EncodeInvertsDecode(b[..n]);
  }

  /** And every stream can be read so: what is handed over are whole packets of at most
      1026 bytes, and what is left tells why. */
  lemma {:induction false} ParseIsReading(b: seq<Byte>) returns (ps: seq<HciPacket>)
    ensures AllSendable(ps) && Parse(b).frames == EncodeEach(ps)
    ensures EndsBecause(Parse(b).ending, Parse(b).rest)
    ensures Flatten(EncodeEach(ps)) + Parse(b).rest == b
    decreases |b|
  {
    ParseConserves(b);
    if HeadOf(b).Whole? {
      var n := HeadOf(b).n;
      var p := FrameIsPacket(b, n);
      ParseStep(b, n);
      hide Parse, HeadOf, EndsBecause, Encode, Sendable, AllSendable, Flatten, EncodeEach;
      var qs := ParseIsReading(b[n..]);
      ps := [p] + qs;
      OneMoreSendable(p, qs);
    } else {
      ps := [];
      StopHasReason(b);
      ParseStop(b);
      NoneSendable();
      hide Parse, HeadOf, EndsBecause, Flatten;
    }
  }

  lemma NoneSendable()
    ensures AllSendable([]) && EncodeEach([]) == []
  {
  }

  lemma OneMoreSendable(p: HciPacket, qs: seq<HciPacket>)
    requires Sendable(p) && AllSendable(qs)
    ensures AllSendable([p] + qs) && EncodeEach([p] + qs) == [Encode(p)] + EncodeEach(qs)
  {
    var ps := [p] + qs;
    hide Encode, Sendable;
    assert ps[1..] == qs && ps[0] == p;
    EncodeEachCons(ps);
  }
}
