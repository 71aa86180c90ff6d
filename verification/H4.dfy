/** H4 framing: the five packet layouts of sections 5.4.1 to 5.4.5 of Volume 4, Part E
    of the Bluetooth Core Specification behind the type byte of section 2 of Part A,
    and the bridge's frame length function. */
module H4 {
  import opened Hci
  import opened Driver

  /** A packet with its fields. IsoData keeps the two bits above its 14-bit length. */
  datatype HciPacket =
    | Command(opcodeLow: Byte, opcodeHigh: Byte, parameters: seq<Byte>)
    | AclData(handleLow: Byte, handleHigh: Byte, data: seq<Byte>)
    | ScoData(handleLow: Byte, handleHigh: Byte, data: seq<Byte>)
    | Event(code: Byte, parameters: seq<Byte>)
    | IsoData(handleLow: Byte, handleHigh: Byte, data: seq<Byte>, reserved: nat)

  /** The lengths fit the fields that carry them. */
  predicate WellSized(p: HciPacket) {
    match p
    case Command(_, _, parameters) => |parameters| < 0x100
    case AclData(_, _, data) => |data| < 0x1_0000
    case ScoData(_, _, data) => |data| < 0x100
    case Event(_, parameters) => |parameters| < 0x100
    case IsoData(_, _, data, reserved) => |data| < 0x4000 && reserved < 4
  }

  function Encode(p: HciPacket): seq<Byte>
    requires WellSized(p)
  {
    match p
    case Command(low, high, parameters) => [H4_COMMAND, low, high, |parameters|] + parameters
    case AclData(low, high, data) => [H4_ACL, low, high, |data| % 0x100, |data| / 0x100] + data
    case ScoData(low, high, data) => [H4_SCO, low, high, |data|] + data
    case Event(code, parameters) => [H4_EVENT, code, |parameters|] + parameters
    case IsoData(low, high, data, reserved) =>
      [H4_ISO, low, high, |data| % 0x100, |data| / 0x100 + 0x40 * reserved] + data
  }

  // ---------------------------------------------------------------------------
  // Get-H4FrameLength
  // ---------------------------------------------------------------------------

  /** Length(0) asks for more bytes; UnknownType is the exception thrown. */
  datatype Framing = Length(n: nat) | UnknownType(kind: Byte)

  /** The length word of a header, low byte first. */
  function Word(low: Byte, high: Byte): nat {
    low + 0x100 * high
  }

  function WholeOrMore(b: seq<Byte>, need: nat): Framing {
    if |b| < need then Length(0) else Length(need)
  }

  /** Get-H4FrameLength on the first $Count bytes of the buffer. */
  function FrameLength(b: seq<Byte>): Framing {
    if |b| < 1 then Length(0)
    else if b[0] == H4_COMMAND || b[0] == H4_SCO then
      if |b| < 4 then Length(0) else WholeOrMore(b, 4 + b[3] as nat)
    else if b[0] == H4_ACL then
      if |b| < 5 then Length(0) else WholeOrMore(b, 5 + Word(b[3], b[4]))
    else if b[0] == H4_EVENT then
      if |b| < 3 then Length(0) else WholeOrMore(b, 3 + b[2] as nat)
    else if b[0] == H4_ISO then
      if |b| < 5 then Length(0) else WholeOrMore(b, 5 + Word(b[3], b[4]) % 0x4000)
    else UnknownType(b[0])
  }

  // ---------------------------------------------------------------------------
  // Framing inverts encoding
  // ---------------------------------------------------------------------------

  lemma WordOfLength(n: nat)
    requires n < 0x1_0000
    ensures Word(n % 0x100, n / 0x100) == n
  {
  }

  lemma WordOfIsoLength(n: nat, reserved: nat)
    requires n < 0x4000 && reserved < 4
    ensures n / 0x100 + 0x40 * reserved < 0x100
    ensures Word(n % 0x100, n / 0x100 + 0x40 * reserved) % 0x4000 == n
  {
  }

  /** An encoded packet is found whole whatever follows it. */
  lemma EncodeIsFramed(p: HciPacket, rest: seq<Byte>)
    requires WellSized(p)
    ensures FrameLength(Encode(p) + rest) == Length(|Encode(p)|)
  {
    var b := Encode(p) + rest;
    match p
    case AclData(_, _, data) => WordOfLength(|data|);
    case IsoData(_, _, data, reserved) => WordOfIsoLength(|data|, reserved);
    case _ =>
  }

  /** No proper prefix of one is taken for a frame. */
  lemma PrefixNeedsMore(p: HciPacket, k: nat)
    requires WellSized(p) && k < |Encode(p)|
    ensures FrameLength(Encode(p)[..k]) == Length(0)
  {
    match p
    case AclData(_, _, data) => WordOfLength(|data|);
    case IsoData(_, _, data, reserved) => WordOfIsoLength(|data|, reserved);
    case _ =>
  }

  /** The packet a whole frame holds. */
  function Decode(b: seq<Byte>): HciPacket
    requires |b| > 0 && FrameLength(b) == Length(|b|)
  {
    if b[0] == H4_COMMAND then Command(b[1], b[2], b[4..])
    else if b[0] == H4_ACL then AclData(b[1], b[2], b[5..])
    else if b[0] == H4_SCO then ScoData(b[1], b[2], b[4..])
    else if b[0] == H4_EVENT then Event(b[1], b[3..])
    else IsoData(b[1], b[2], b[5..], b[4] / 0x40)
  }

  /** Decoding gives the packet back, and only encodings are whole frames. */
  lemma DecodeInvertsEncode(p: HciPacket)
    requires WellSized(p)
    ensures FrameLength(Encode(p)) == Length(|Encode(p)|) && Decode(Encode(p)) == p
  {
    assert Encode(p) + [] == Encode(p);
    EncodeIsFramed(p, []);
  }

  lemma WordParts(low: Byte, high: Byte)
    ensures Word(low, high) % 0x100 == low && Word(low, high) / 0x100 == high
    ensures Word(low, high) < 0x1_0000
  {
  }

  lemma IsoParts(low: Byte, high: Byte)
    ensures var n := Word(low, high) % 0x4000;
            n % 0x100 == low && n / 0x100 + 0x40 * (high / 0x40) == high
  {
    var q, r := high / 0x40, high % 0x40;
    assert Word(low, high) == Word(low, r) + 0x4000 * q;
    LowBits(Word(low, r), q);
    WordParts(low, r);
    hide Word;
  }

  lemma LowBits(x: nat, q: nat)
    requires x < 0x4000
    ensures (x + 0x4000 * q) % 0x4000 == x
  {
  }

  lemma EncodeInvertsDecode(b: seq<Byte>)
    requires |b| > 0 && FrameLength(b) == Length(|b|)
    ensures WellSized(Decode(b)) && Encode(Decode(b)) == b
  {
    if b[0] == H4_ACL {
      WordParts(b[3], b[4]);
    } else if b[0] == H4_ISO {
      IsoParts(b[3], b[4]);
    }
    hide Word;
    assert Encode(Decode(b)) == b;
  }

  // ---------------------------------------------------------------------------
  // Framing looks no further than the frame
  // ---------------------------------------------------------------------------

  /** More bytes never change an answer once there is one. */
  lemma FramingIsStable(b: seq<Byte>, more: seq<Byte>)
    requires FrameLength(b) != Length(0)
    ensures FrameLength(b + more) == FrameLength(b)
  {
  }

  /** The first frame of any bytes is itself a frame, of that length. */
  lemma FrameIsWhole(b: seq<Byte>)
    requires FrameLength(b).Length? && FrameLength(b).n > 0
    ensures FrameLength(b).n <= |b| && FrameLength(b[..FrameLength(b).n]) == FrameLength(b)
  {
  }

  /** A byte that is no packet type of the five is an error at once, and nothing else
      ever is. */
  lemma OnlyUnknownTypesAreErrors(b: seq<Byte>)
    ensures FrameLength(b).UnknownType? <==> |b| > 0 && !(1 <= b[0] <= 5)
    ensures FrameLength(b).UnknownType? ==> FrameLength(b).kind == b[0]
  {
  }

  function Zeros(n: nat): seq<Byte> {
    seq(n, i requires 0 <= i < n => 0 as Byte)
  }

  /** Bytes that ask for more are the beginning of some packet. */
  lemma AskingIsBeginning(b: seq<Byte>) returns (p: HciPacket)
    requires FrameLength(b) == Length(0)
    ensures WellSized(p) && |b| < |Encode(p)| && b == Encode(p)[..|b|]
  {
    var h := HeaderFrom(b);
    var whole := WholeFrom(h);
    hide FrameLength, Encode, Decode;
    p := Decode(whole);
    EncodeInvertsDecode(whole);
    PrefixOfPrefix(b, h, whole);
  }

  lemma PrefixOfPrefix(x: seq<Byte>, y: seq<Byte>, z: seq<Byte>)
    requires x <= y && y <= z
    ensures x == z[..|x|]
  {
  }

  function HeaderSize(kind: Byte): nat {
    if kind == H4_ACL || kind == H4_ISO then 5 else if kind == H4_EVENT then 3 else 4
  }

  /** Bytes that ask for more, made up to a header with zeros. */
  lemma HeaderFrom(b: seq<Byte>) returns (h: seq<Byte>)
    requires FrameLength(b) == Length(0)
    ensures |h| > 0 && 1 <= h[0] <= 5 && |h| >= HeaderSize(h[0]) && b <= h
    ensures FrameLength(h) == Length(0) || (|h| > |b| && FrameLength(h) == Length(|h|))
  {
    if |b| == 0 {
      h := [H4_EVENT] + Zeros(2);
    } else if |b| < HeaderSize(b[0]) {
      h := b + Zeros(HeaderSize(b[0]) - |b|);
    } else {
      h := b;
    }
  }

  /** Bytes with a whole header, made up to a whole frame with zeros. */
  lemma WholeFrom(h: seq<Byte>) returns (whole: seq<Byte>)
    requires |h| > 0 && 1 <= h[0] <= 5 && |h| >= HeaderSize(h[0])
    requires FrameLength(h) == Length(0) || FrameLength(h) == Length(|h|)
    ensures h <= whole && FrameLength(whole) == Length(|whole|)
    ensures FrameLength(h) == Length(0) ==> |whole| > |h|
  {
    var need :=
      if h[0] == H4_COMMAND || h[0] == H4_SCO then 4 + h[3] as nat
      else if h[0] == H4_ACL then 5 + Word(h[3], h[4])
      else if h[0] == H4_EVENT then 3 + h[2] as nat
      else 5 + Word(h[3], h[4]) % 0x4000;
    whole := if FrameLength(h) == Length(0) then h + Zeros(need - |h|) else h;
  }

  // ---------------------------------------------------------------------------
  // What the driver makes of a frame
  // ---------------------------------------------------------------------------

  /** Every event frame passes the driver's size check. */
  lemma EventsAreAccepted(p: HciPacket)
    requires p.Event? && WellSized(p)
    ensures ClassifyWrite(Encode(p)) == Send(Packet(H4_EVENT, [p.code, |p.parameters|] + p.parameters))
  {
    assert Encode(p)[1..] == [p.code, |p.parameters|] + p.parameters;
  }

  /** An ACL frame passes exactly when it carries at most 1017 bytes of data; the
      others are refused as no packet of theirs travels this way. */
  lemma AclIsAcceptedUpToLimit(p: HciPacket)
    requires p.AclData? && WellSized(p)
    ensures ClassifyWrite(Encode(p)).Send? <==> |p.data| <= 1017
    ensures |p.data| > 1017 ==> ClassifyWrite(Encode(p)) == Refuse(InvalidParameter)
    ensures |p.data| <= 1017 <==> |Encode(p)| - 1 <= MAX_ACL_TRANSFER_IN
  {
    assert |Encode(p)[1..]| == 4 + |p.data|;
  }

  lemma OthersAreRefused(p: HciPacket)
    requires WellSized(p) && !p.Event? && !p.AclData?
    ensures ClassifyWrite(Encode(p)).Refuse?
    ensures !p.Command? && |Encode(p)| <= MAX_H4_PACKET ==> ClassifyWrite(Encode(p)).status == NotSupported
  {
  }
}
