/** The two byte layouts a packet travels in - H4 on the client's side, the BTHX
    context on the stack's - and that each side's writes and reads agree on them. */
module Wire {
  import opened Hci
  import opened Driver

  /** A write is sent on as a packet exactly when it is an event or ACL packet of a
      size the stack can receive, and then the packet is the bytes written. */
  lemma ClientWritesKeepTheirBytes(bytes: seq<Byte>)
    ensures ClassifyWrite(bytes).Send? <==>
              && 2 <= |bytes|
              && (bytes[0] == H4_EVENT || bytes[0] == H4_ACL)
              && |bytes| - 1 <= BodyLimit(bytes[0])
    ensures ClassifyWrite(bytes).Send? ==> ClientBytes(ClassifyWrite(bytes).p) == bytes
  {
    if |bytes| > 0 {
      assert [bytes[0]] + bytes[1..] == bytes;
    }
  }

  /** What a client reads it could write back, and it would be the same packet,
      exactly if it is an event or ACL packet of a size the stack can receive. */
  lemma ClientBytesAreWritable(p: Packet)
    ensures ClassifyWrite(ClientBytes(p)) == Send(p)
       <==> (p.kind == H4_EVENT || p.kind == H4_ACL) && 1 <= |p.body| <= BodyLimit(p.kind)
  {
    assert ClientBytes(p)[1..] == p.body;
  }

  /** The length word reads back as it was laid out, and the other way round. */
  lemma LengthReadsBack(n: ULong, after: seq<Byte>)
    ensures DataLength(LittleEndian32(n) + after) == n
  {
  }

  lemma LengthLaysOut(b: seq<Byte>)
    requires |b| >= 4
    ensures LittleEndian32(DataLength(b)) == b[..4]
  {
    var high2 := b[2] as int + 0x100 * (b[3] as int);
    var high3 := b[1] as int + 0x100 * high2;
    assert DataLength(b) == b[0] as int + 0x100 * high3;
    Split8(b[0], high3);
    Split8(b[1], high2);
    Split8(b[2], b[3]);
  }

  lemma Split8(x: nat, q: nat)
    requires x < 0x100
    ensures (x + 0x100 * q) % 0x100 == x && (x + 0x100 * q) / 0x100 == q
  {
  }

  lemma ContextParts(p: Packet, slack: seq<Byte>)
    ensures var b := StackBytes(p) + slack;
            && |b| == CONTEXT_HEADER_SIZE + |p.body| + |slack|
            && DataLength(b) == Wrap(|p.body|) && b[4] == p.kind
            && b[CONTEXT_HEADER_SIZE..CONTEXT_HEADER_SIZE + |p.body|] == p.body
  {
    var header := LittleEndian32(Wrap(|p.body|));
    LengthReadsBack(Wrap(|p.body|), [p.kind] + p.body + slack);
    hide LittleEndian32;
    assert StackBytes(p) + slack == header + ([p.kind] + p.body + slack);
  }

  /** The BTHX context written to a stack's read is the one a stack's write is read
      from, whatever room is left behind the packet: DataLen, Type, body. */
  lemma StackBytesAreWritable(p: Packet, slack: seq<Byte>)
    ensures ClassifyStackWrite(Some(StackBytes(p) + slack)) == Accept(p) <==> |p.body| <= MAX_BODY
    ensures MAX_BODY < |p.body| < ULONG_SIZE ==>
              ClassifyStackWrite(Some(StackBytes(p) + slack)) == RefuseWrite(InvalidParameter)
  {
    ContextParts(p, slack);
    hide StackBytes, DataLength;
    if |p.body| < ULONG_SIZE {
      assert Wrap(|p.body|) == |p.body|;
    }
  }

  /** A stack's write is accepted exactly when its header is there and its DataLen
      stays within the buffer and within what a client can read back; the packet is
      then the one the header announces. */
  lemma StackWritesKeepTheirBytes(input: seq<Byte>)
    ensures ClassifyStackWrite(Some(input)).Accept?
       <==> |input| >= CONTEXT_HEADER_SIZE && DataLength(input) <= MAX_BODY
            && CONTEXT_HEADER_SIZE + DataLength(input) <= |input|
    ensures ClassifyStackWrite(Some(input)).Accept? ==>
              var p := ClassifyStackWrite(Some(input)).p;
              |ClientBytes(p)| <= MAX_H4_PACKET && StackBytes(p) <= input
  {
    hide DataLength;
    if ClassifyStackWrite(Some(input)).Accept? {
      AcceptedBytes(input, ClassifyStackWrite(Some(input)).p);
    }
  }

  lemma AcceptedBytes(input: seq<Byte>, p: Packet)
    requires ClassifyStackWrite(Some(input)) == Accept(p)
    ensures StackBytes(p) <= input
  {
    LengthLaysOut(input);
    var n := DataLength(input);
    assert Wrap(n) == n;
    hide DataLength, LittleEndian32, Wrap;
    assert input[..4] + [input[4]] + input[CONTEXT_HEADER_SIZE..CONTEXT_HEADER_SIZE + n]
           == input[..CONTEXT_HEADER_SIZE + n];
  }
}
