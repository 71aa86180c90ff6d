/** The bridge's pump from the controller's socket to the device: an accumulator of
    fixed size, filled as bytes arrive and drained frame by frame. */
module Bridges {
  import opened Hci
  import opened H4
  import opened Reassembly
  import opened Ledgers

  // ---------------------------------------------------------------------------
  // The two ends, as the pump sees them
  // ---------------------------------------------------------------------------

  /** Some bytes, a moment with none, or a read that returns nothing. */
  datatype Arrival = Chunk(bytes: seq<Byte>) | Lull | Nothing

  /** All the bytes of a script, cut up no matter how. */
  function BytesOf(script: seq<Arrival>): seq<Byte> {
    if script == [] then []
    else (if script[0].Chunk? then script[0].bytes else []) + BytesOf(script[1..])
  }

  function Weight(script: seq<Arrival>): nat {
    if script == [] then 0
    else Weight(script[1..]) + 1 + if script[0].Chunk? then |script[0].bytes| else 0
  }

  lemma ScriptAdvances(script: seq<Arrival>, got: nat)
    requires script != [] && script[0].Chunk? && got <= |script[0].bytes|
    ensures var chunk := script[0].bytes;
            && chunk[..got] + BytesOf([Chunk(chunk[got..])] + script[1..]) == BytesOf(script)
            && (got > 0 ==> Weight([Chunk(chunk[got..])] + script[1..]) < Weight(script))
            && (got == |chunk| ==> chunk[..got] + BytesOf(script[1..]) == BytesOf(script))
            && Weight(script[1..]) < Weight(script)
  {
    var chunk := script[0].bytes;
    var rest := [Chunk(chunk[got..])] + script[1..];
    assert rest[1..] == script[1..] && rest[0] == Chunk(chunk[got..]);
    assert chunk == chunk[..got] + chunk[got..];
    if got == |chunk| {
      assert chunk[..got] == chunk;
    }
    hide BytesOf, Weight;
    Associate(chunk[..got], chunk[got..], BytesOf(script[1..]));
  }

  /** Bytes into the front of a buffer. */
  method PutBytes(buffer: array<Byte>, bytes: seq<Byte>)
    requires |bytes| <= buffer.Length
    modifies buffer
    ensures buffer[..|bytes|] == bytes
  {
    var k := 0;
    while k < |bytes|
      invariant k <= |bytes| && buffer[..k] == bytes[..k]
    {
      buffer[k] := bytes[k];
      k := k + 1;
    }
  }

  /** The socket. What arrives, in which pieces and when, is the script's to say. */
  class NetworkStream {
    var script: seq<Arrival>

    constructor (arrivals: seq<Arrival>)
      ensures script == arrivals
    {
      script := arrivals;
    }

    method DataAvailable() returns (available: bool)
      modifies this
      ensures BytesOf(script) == BytesOf(old(script)) && Weight(script) <= Weight(old(script))
      ensures available ==> script != [] && !script[0].Lull? && script == old(script)
      ensures !available && old(script) != [] ==> Weight(script) < Weight(old(script))
    {
      if script == [] {
        return false;
      }
      available := !script[0].Lull?;
      if !available {
        script := script[1..];
      }
    }

    /** Up to want bytes, into the front of buffer. */
    method Read(buffer: array<Byte>, want: nat) returns (got: nat)
      requires script != [] && !script[0].Lull? && 0 < want <= buffer.Length
      modifies this, buffer
      ensures got <= want && Weight(script) < Weight(old(script))
      ensures buffer[..got] + BytesOf(script) == BytesOf(old(script))
    {
      if script[0].Nothing? {
        script := script[1..];
        return 0;
      }
      var chunk := script[0].bytes;
      got := if |chunk| < want then |chunk| else want;
      PutBytes(buffer, chunk[..got]);
      ScriptAdvances(script, got);
      hide BytesOf, Weight;
      script := if got == |chunk| then script[1..] else [Chunk(chunk[got..])] + script[1..];
    }
  }

  /** How one VhciIo.Write ends: done, refused with ERROR_NOT_READY, or an exception
      the pump does not catch. */
  datatype WriteAnswer = Accepted | NotReady | Broken

  /** The device writer. What it answers is up to it. */
  class DeviceWriter {
    var answers: seq<WriteAnswer>
    ghost var written: seq<seq<Byte>>   // every frame it was handed, in order
    ghost var replies: seq<WriteAnswer>

    constructor (planned: seq<WriteAnswer>)
      ensures written == [] && replies == []
    {
      answers, written, replies := planned, [], [];
    }

    method Write(frame: array<Byte>) returns (answer: WriteAnswer)
      modifies this
      ensures written == old(written) + [frame[..]] && replies == old(replies) + [answer]
    {
      answer := Accepted;
      if answers != [] {
        answer := answers[0];
        answers := answers[1..];
      }
      written, replies := written + [frame[..]], replies + [answer];
    }
  }

  /** [Array]::Copy; onto itself it only ever moves bytes towards the front. */
  method ArrayCopy(src: array<Byte>, from: nat, dst: array<Byte>, at: nat, n: nat)
    requires from + n <= src.Length && at + n <= dst.Length
    requires src != dst || at <= from
    modifies dst
    ensures dst[..at] == old(dst[..at]) && dst[at + n..] == old(dst[at + n..])
    ensures dst[at..at + n] == old(src[from..from + n])
  {
    ghost var source, target := src[..], dst[..];
    var k := 0;
    while k < n
      invariant k <= n && source == old(src[..]) && target == old(dst[..])
      invariant src != dst ==> src[..] == source
      invariant forall j :: 0 <= j < at ==> dst[j] == target[j]
      invariant forall j :: at <= j < at + k ==> dst[j] == source[from + (j - at)]
      invariant forall j :: at + k <= j < dst.Length ==> dst[j] == target[j]
    {
      assert src[from + k] == source[from + k];
      dst[at + k] := src[from + k];
      k := k + 1;
    }
    assert dst[at..at + n] == source[from..from + n];
  }

  // ---------------------------------------------------------------------------
  // The pump
  // ---------------------------------------------------------------------------

  datatype Outcome = Going | Threw(ending: Ending) | WriteFailed

  predicate Unbroken(replies: seq<WriteAnswer>) {
    forall i :: 0 <= i < |replies| ==> !replies[i].Broken?
  }

  /** Each frame written has had its reply, and only the last one's is fatal, if the
      pump ended on a fatal write. */
  predicate Answered(outcome: Outcome, written: seq<seq<Byte>>, replies: seq<WriteAnswer>) {
    && |replies| == |written|
    && if !outcome.WriteFailed? then Unbroken(replies)
       else replies != [] && replies[|replies| - 1].Broken? && Unbroken(replies[..|replies| - 1])
  }

  /** frames have been handed over out of all, and held is what is left. */
  ghost predicate DrainedTo(all: seq<Byte>, frames: seq<seq<Byte>>, held: seq<Byte>) {
    Parse(all) == Join(Parsed(frames, Pending, held), Parse(held))
  }

  lemma DrainStarts(all: seq<Byte>)
    ensures DrainedTo(all, [], all)
  {
    assert [] + Parse(all).frames == Parse(all).frames;
  }

  lemma NothingPends()
    ensures HeadOf([]) == Stop(Pending)
  {
  }

  lemma DrainStops(all: seq<Byte>, frames: seq<seq<Byte>>, held: seq<Byte>)
    requires DrainedTo(all, frames, held) && HeadOf(held).Stop?
    ensures Parse(all) == Parsed(frames, HeadOf(held).ending, held)
  {
    ParseStop(held);
    assert frames + [] == frames;
  }

  lemma DrainGoesOn(all: seq<Byte>, frames: seq<seq<Byte>>, held: seq<Byte>, n: nat)
    requires DrainedTo(all, frames, held) && HeadOf(held) == Whole(n)
    ensures DrainedTo(all, frames + [held[..n]], held[n..])
    ensures frames + [held[..n]] <= Parse(all).frames
  {
    ParseStep(held, n);
    hide Parse, HeadOf;
    Associate(frames, [held[..n]], Parse(held[n..]).frames);
  }

  /** How a bridge that was sent bytes has ended, and what it handed over. */
  ghost predicate Served(outcome: Outcome, written: seq<seq<Byte>>, bytes: seq<Byte>) {
    var p := Parse(bytes);
    match outcome
    case Going => written == p.frames && p.ending.Pending?
    case Threw(ending) => written == p.frames && p.ending == ending && !ending.Pending?
    case WriteFailed => written != [] && written <= p.frames
  }

  /** A bridge sent packets of at most 1026 bytes one after another, cut off anywhere
      and cut up anyhow, never throws: it has handed over exactly the whole ones, or
      the first of them up to a fatal write. */
  lemma WellFormedIsServed(outcome: Outcome, written: seq<seq<Byte>>, ps: seq<HciPacket>, partial: seq<Byte>,
                           last: HciPacket)
    requires AllSendable(ps) && IsPartial(partial, last)
    requires Served(outcome, written, Flatten(EncodeEach(ps)) + partial)
    ensures !outcome.Threw?
    ensures if outcome.Going? then written == EncodeEach(ps) else written != [] && written <= EncodeEach(ps)
  {
    WellFormedStreams(ps, partial, last);
  }

  /** What a bridge has served, told in packets: unless a write was fatal it has handed
      over the packets the stream reads as, and throws exactly what ends the reading. */
  lemma ReadingIsServed(outcome: Outcome, written: seq<seq<Byte>>, ps: seq<HciPacket>, ending: Ending,
                        rest: seq<Byte>)
    requires AllSendable(ps) && EndsBecause(ending, rest)
    requires Served(outcome, written, Flatten(EncodeEach(ps)) + rest)
    ensures if outcome.WriteFailed? then written != [] && written <= EncodeEach(ps)
            else written == EncodeEach(ps) && outcome == if ending.Pending? then Going else Threw(ending)
  {
    ReadingIsParse(ps, ending, rest);
  }

  lemma CatchUp(before: seq<Byte>, more: seq<Byte>, sent: seq<seq<Byte>>, held: seq<Byte>)
    requires Parse(before) == Parsed(sent, Pending, held)
    ensures Parse(before + more) == Join(Parsed(sent, Pending, held), Parse(held + more))
  {
    ParseContinues(before, more);
  }

  lemma PrefixAfter<T>(x: seq<T>, y: seq<T>, z: seq<T>)
    requires y <= z
    ensures x + y <= x + z
  {
  }

  class Bridge {
    const stream: NetworkStream
    const device: DeviceWriter
    const acc: array<Byte>
    const netBuf: array<Byte>
    var accLen: nat
    var toDriver: nat
    var notReady: nat
    ghost var received: seq<Byte>       // every byte read from the socket, in order

    ghost predicate Valid()
      reads this`accLen
    {
      acc.Length == ACCUMULATOR_SIZE && netBuf.Length == 4096 && acc != netBuf && accLen <= acc.Length
    }

    ghost function Held(): (h: seq<Byte>)
      requires Valid()
      reads this`accLen, acc
      ensures |h| == accLen
    {
      acc[..accLen]
    }

    /** All that was received has been parsed: its frames were handed over and the
        accumulator holds the rest. */
    ghost predicate UpToDate()
      reads this, acc, device
    {
      Valid() && Parse(received) == Parsed(device.written, Pending, Held())
    }

    ghost predicate Tallied()
      reads this`toDriver, this`notReady, device
    {
      && toDriver == Count(device.replies, Accepted) && notReady == Count(device.replies, NotReady)
      && |device.written| == toDriver + notReady
      && Answered(Going, device.written, device.replies)
    }

    /** Nothing read has been lost, and the counters add up. */
    ghost predicate Counted(outcome: Outcome)
      reads this`toDriver, this`notReady, device
    {
      if !outcome.WriteFailed? then Tallied()
      else |device.written| == toDriver + notReady + 1 && Answered(WriteFailed, device.written, device.replies)
    }

    constructor (socket: NetworkStream, writer: DeviceWriter)
      requires writer.written == [] && writer.replies == []
      ensures UpToDate() && Tallied() && received == [] && fresh(acc) && fresh(netBuf)
      ensures stream == socket && device == writer
    {
      stream, device := socket, writer;
      acc := new Byte[ACCUMULATOR_SIZE];
      netBuf := new Byte[4096];
      accLen, toDriver, notReady, received := 0, 0, 0, [];
    }

    /** One read from the socket, copied to the end of what is held. */
    method ReadOnce() returns (got: nat)
      requires Valid() && accLen < acc.Length && stream.script != [] && !stream.script[0].Lull?
      modifies this`accLen, this`received, acc, netBuf, stream
      ensures Valid() && Weight(stream.script) < Weight(old(stream.script))
      ensures accLen == old(accLen) + got && Held()[..old(accLen)] == old(Held())
      ensures received == old(received) + Held()[old(accLen)..]
      ensures received + BytesOf(stream.script) == old(received) + BytesOf(old(stream.script))
    {
      var want := if acc.Length - accLen < netBuf.Length then acc.Length - accLen else netBuf.Length;
      got := stream.Read(netBuf, want);
      ArrayCopy(netBuf, 0, acc, accLen, got);
      received := received + netBuf[..got];
      accLen := accLen + got;
    }

    /** Reads while there is something to read and room for it. */
    method ReadAvailable() returns (progress: bool)
      requires Valid()
      modifies this`accLen, this`received, acc, netBuf, stream
      ensures Valid() && Weight(stream.script) <= Weight(old(stream.script))
      ensures old(accLen) <= accLen && Held()[..old(accLen)] == old(Held())
      ensures received == old(received) + Held()[old(accLen)..]
      ensures received + BytesOf(stream.script) == old(received) + BytesOf(old(stream.script))
      ensures !progress ==> accLen == old(accLen)
      ensures progress || (old(stream.script) != [] && old(accLen) < ACCUMULATOR_SIZE) ==>
                Weight(stream.script) < Weight(old(stream.script))
    {
      hide BytesOf, Weight;
      progress := false;
      var available := stream.DataAvailable();
      while available && accLen < acc.Length
        invariant Valid() && Weight(stream.script) <= Weight(old(stream.script))
        invariant available ==> stream.script != [] && !stream.script[0].Lull?
        invariant old(accLen) <= accLen && Held()[..old(accLen)] == old(Held())
        invariant received == old(received) + Held()[old(accLen)..]
        invariant received + BytesOf(stream.script) == old(received) + BytesOf(old(stream.script))
        invariant Weight(stream.script) < Weight(old(stream.script))
                  || (!progress && (available || old(stream.script) == []))
        invariant !progress ==> accLen == old(accLen)
        decreases Weight(stream.script)
      {
        var got := ReadOnce();
        if got == 0 {
          break;
        }
        progress := true;
        available := stream.DataAvailable();
      }
    }

    /** Moves what follows the first n bytes to the front. */
    method Shift(n: nat)
      requires Valid() && n <= accLen
      modifies this`accLen, acc
      ensures Valid() && Held() == old(Held())[n..]
    {
      ArrayCopy(acc, n, acc, 0, accLen - n);
      accLen := accLen - n;
    }

    /** What stands at the front of the accumulator. */
    method NextHead() returns (head: Head)
      requires Valid()
      ensures head == HeadOf(Held())
    {
      var framing := FrameLength(acc[..accLen]);
      if framing.UnknownType? {
        return Stop(Unknown(framing.kind));
      }
      var frameLen := framing.n;
      if frameLen == 0 {
        return Stop(if accLen == acc.Length then NoFrame else Pending);
      }
      head := if frameLen > MAX_FRAME then Stop(TooBig(frameLen)) else Whole(frameLen);
    }

    /** Hands the first n bytes to the device as one frame. */
    method WriteFrame(n: nat) returns (answer: WriteAnswer)
      requires Valid() && n <= accLen && Tallied()
      modifies this`toDriver, this`notReady, device
      ensures device.written == old(device.written) + [Held()[..n]]
      ensures Counted(if answer.Broken? then WriteFailed else Going)
    {
      var frame := new Byte[n];
      ArrayCopy(acc, 0, frame, 0, n);
      assert frame[..] == Held()[..n];
      answer := device.Write(frame);
      match answer
      case Accepted => toDriver := toDriver + 1;
      case NotReady => notReady := notReady + 1;
      case Broken =>
    }

    /** Hands over every whole frame that is held, or stops at the first thing that
        is none. */
    method Drain() returns (progress: bool, outcome: Outcome, ghost frames: seq<seq<Byte>>)
      requires Valid() && Tallied()
      modifies this`accLen, this`toDriver, this`notReady, acc, device
      ensures Valid() && device.written == old(device.written) + frames
      ensures var p := Parse(old(Held()));
              match outcome
              case Going => p == Parsed(frames, Pending, Held())
              case Threw(ending) => p == Parsed(frames, ending, Held()) && !ending.Pending?
              case WriteFailed => frames != [] && frames <= p.frames
      ensures Counted(outcome)
      ensures progress && outcome.Going? ==> accLen < old(accLen)
      ensures !progress ==> outcome.WriteFailed? || frames == []
    {
      hide Bridge.Tallied, Answered, DrainedTo, Parse, HeadOf;
      progress, frames := false, [];
      ghost var all := Held();
      DrainStarts(all);
      while accLen > 0
        invariant Valid() && Tallied() && device.written == old(device.written) + frames
        invariant DrainedTo(all, frames, Held())
        invariant if progress then accLen < old(accLen) else frames == []
        decreases accLen
      {
        ghost var held := Held();
        var head := NextHead();
        if head.Stop? {
          DrainStops(all, frames, held);
          return progress, if head.ending.Pending? then Going else Threw(head.ending), frames;
        }
        var n := head.n;
        DrainGoesOn(all, frames, held, n);
        frames := frames + [held[..n]];
        var answer := WriteFrame(n);
        if answer.Broken? {
          return progress, WriteFailed, frames;
        }
        Shift(n);
        progress := true;
      }
      NothingPends();
      DrainStops(all, frames, Held());
      return progress, Going, frames;
    }

    /** What the pump has to show for everything received so far. */
    ghost predicate Shows(outcome: Outcome)
      reads this, acc, device
    {
      && Valid()
      && var p := Parse(received);
      match outcome
      case Going => p == Parsed(device.written, Pending, Held())
      case Threw(ending) => p == Parsed(device.written, ending, Held()) && !ending.Pending?
      case WriteFailed => device.written != [] && device.written <= p.frames
    }

    /** One round: read what there is, then drain. */
    method Round() returns (progress: bool, outcome: Outcome)
      requires Shows(Going) && Tallied()
      modifies this`accLen, this`received, this`toDriver, this`notReady, acc, netBuf, stream, device
      ensures Shows(outcome) && Counted(outcome)
      ensures received + BytesOf(stream.script) == old(received) + BytesOf(old(stream.script))
      ensures Weight(stream.script) <= Weight(old(stream.script))
      ensures progress && outcome.Going? ==>
                Weight(stream.script) < Weight(old(stream.script)) || accLen < old(accLen)
      ensures old(stream.script) != [] ==> Weight(stream.script) < Weight(old(stream.script))
    {
      hide Parse, BytesOf, Weight;
      ghost var before, held, sent := received, Held(), device.written;
      PendingRestIsShort(before);
      var read := ReadAvailable();
      ghost var more := Held()[|held|..];
      assert Held() == held + more;
      CatchUp(before, more, sent, held);
      var wrote, result, frames := Drain();
      progress, outcome := read || wrote, result;
      if outcome.WriteFailed? {
        PrefixAfter(sent, frames, Parse(held + more).frames);
      }
    }

    /** The pump proper: rounds until one makes no progress. */
    method Pump() returns (outcome: Outcome)
      requires Shows(Going) && Tallied()
      modifies this`accLen, this`received, this`toDriver, this`notReady, acc, netBuf, stream, device
      ensures Shows(outcome) && Counted(outcome)
      ensures received + BytesOf(stream.script) == old(received) + BytesOf(old(stream.script))
      ensures old(stream.script) != [] ==> Weight(stream.script) < Weight(old(stream.script))
    {
      hide Bridge.Shows, Bridge.Tallied, Bridge.Valid, BytesOf, Weight, Parse;
      var progress;
      progress, outcome := Round();
      while progress && outcome.Going?
        invariant Shows(outcome) && Counted(outcome)
        invariant received + BytesOf(stream.script) == old(received) + BytesOf(old(stream.script))
        invariant old(stream.script) != [] ==> Weight(stream.script) < Weight(old(stream.script))
        invariant Weight(stream.script) <= Weight(old(stream.script))
        decreases Weight(stream.script), if progress && outcome.Going? then accLen + 1 else 0
      {
        progress, outcome := Round();
      }
    }

    /** Whenever what has come of a well-formed stream has been drained, whichever k
        bytes that is, the accumulator holds less than one packet, what was handed over
        are the packets sent first, and every byte received is in one or the other. */
    lemma WellFormedIsCalm(ps: seq<HciPacket>, k: nat)
      requires UpToDate() && AllSendable(ps) && k <= |Flatten(EncodeEach(ps))|
      requires received == Flatten(EncodeEach(ps))[..k]
      ensures accLen < MAX_FRAME && device.written <= EncodeEach(ps)
      ensures Flatten(device.written) + Held() == received
    {
      WellFormedMoments(ps, k);
      ParseConserves(received);
    }

    /** The bridge's main loop, for as long as the controller has anything to say.
        What reaches the device and how it ends depend on the controller's bytes and
        on nothing else: not on how they were cut up, not on when they came. */
    method Serve() returns (outcome: Outcome)
      requires Shows(Going) && Tallied() && received == []
      modifies this`accLen, this`received, this`toDriver, this`notReady, acc, netBuf, stream, device
      ensures Counted(outcome)
      ensures Served(outcome, device.written, BytesOf(old(stream.script)))
    {
      ghost var all := BytesOf(stream.script);
      outcome := Going;
      while stream.script != [] && outcome.Going?
        invariant Shows(outcome) && Counted(outcome) && received + BytesOf(stream.script) == all
        decreases Weight(stream.script)
      {
        outcome := Pump();
      }
      ghost var ahead := BytesOf(stream.script);
      if outcome.Threw? {
        FailureIsFinal(received, ahead);
      } else if outcome.WriteFailed? {
        FramesOnlyGrow(received, ahead);
      } else {
        assert received + ahead == received;
      }
    }
  }
}
