/** The driver's ULONG subtractions. In C they wrap; here each decision that makes
    one is written once more with wrapping arithmetic and shown to be the decision
    the model makes with numbers that never go below zero. */
module Lengths {
  import opened Hci
  import opened Rendezvous
  import opened Channels
  import opened Driver

  /** a - b as a ULONG. */
  function Minus(a: ULong, b: ULong): ULong {
    Wrap(a - b)
  }

  /** A length that a ULONG holds, as every transfer's does. */
  predicate IsUlong(n: int) {
    0 <= n < ULONG_SIZE
  }

  lemma MinusIsExact(a: ULong, b: ULong)
    ensures Minus(a, b) as int == a - b <==> b <= a
  {
  }

  /** The comparisons a WRITE_HCI of length bytes is held to, header or no header. */
  predicate WrappingFits(length: ULong, dataLen: ULong) {
    dataLen <= Minus(length, CONTEXT_HEADER_SIZE) && dataLen <= MAX_BODY
  }

  /** Behind the check for the header they decide as the model does, and what is then
      copied lies within the buffer. */
  lemma StackWriteNeverUnderflows(input: seq<Byte>)
    requires CONTEXT_HEADER_SIZE <= |input| < ULONG_SIZE
    ensures WrappingFits(|input|, DataLength(input)) <==> ClassifyStackWrite(Some(input)).Accept?
    ensures WrappingFits(|input|, DataLength(input)) ==> CONTEXT_HEADER_SIZE + DataLength(input) <= |input|
  {
    MinusIsExact(|input|, CONTEXT_HEADER_SIZE);
    hide Minus, DataLength;
  }

  /** That check is what keeps them so: without a whole header every DataLen a client
      could read back would pass. */
  lemma HeaderCheckIsNeeded(length: ULong, dataLen: ULong)
    requires length < CONTEXT_HEADER_SIZE
    ensures WrappingFits(length, dataLen) <==> dataLen <= MAX_BODY
  {
  }

  function WrappingStackRead(i: StackReadInput): StackReadAction
    requires i.room.Some? ==> IsUlong(i.room.value)
  {
    if i.requested.None? || i.room.None? || i.room.value < CONTEXT_HEADER_SIZE then
      RefuseRead(InvalidParameter)
    else if !i.adjacent then RefuseRead(InvalidDeviceRequest)
    else if i.requested.value == H4_EVENT then Route(false)
    else if i.requested.value == H4_ACL then Route(true)
    else Route(Minus(i.room.value, CONTEXT_HEADER_SIZE) >= MAX_ACL_TRANSFER_IN)
  }

  /** A READ_HCI's capacity is computed behind its check as well. */
  lemma StackReadNeverUnderflows(i: StackReadInput)
    requires i.room.Some? ==> IsUlong(i.room.value)
    ensures WrappingStackRead(i) == ClassifyStackRead(i)
  {
    if i.room.Some? && i.room.value >= CONTEXT_HEADER_SIZE {
      MinusIsExact(i.room.value, CONTEXT_HEADER_SIZE);
    }
  }

  function WrappingCompletion(r: Request, p: Packet): Done
    requires IsUlong(r.room)
  {
    if r.room < CONTEXT_HEADER_SIZE then WithPacket(r, InvalidParameter, [], 0)
    else if Minus(r.room, CONTEXT_HEADER_SIZE) as int < |p.body| then WithPacket(r, BufferTooSmall, [], 0)
    else WithPacket(r, Success, StackBytes(p), CONTEXT_HEADER_SIZE + |p.body|)
  }

  /** And the room WinVhciCompleteRead compares a packet with. */
  lemma CompletionNeverUnderflows(r: Request, p: Packet)
    requires IsUlong(r.room)
    ensures WrappingCompletion(r, p) == CompleteStackRead(r, p)
    ensures WrappingCompletion(r, p).info <= r.room
  {
    if r.room >= CONTEXT_HEADER_SIZE {
      MinusIsExact(r.room, CONTEXT_HEADER_SIZE);
    }
  }

  /** The body length of a write is one less than its transfer, never 2^32 - 1. */
  lemma BodyLengthNeverUnderflows(bytes: seq<Byte>)
    requires IsUlong(|bytes|)
    ensures !ClassifyWrite(bytes).Refuse? ==> Minus(|bytes|, 1) as int == |bytes| - 1 == |bytes[1..]|
  {
    if |bytes| >= 2 {
      MinusIsExact(|bytes|, 1);
    }
  }

  /** The depth counter is decremented from zero exactly when the backlog's depth is
      a multiple of 2^32; below that depth, never. */
  lemma CountUnderflowsExactly(c: Channel)
    requires Sound(c) && c.backlog != []
    ensures c.count == 0 <==> |c.backlog| % ULONG_SIZE == 0
    ensures |c.backlog| < ULONG_SIZE ==> Minus(c.count, 1) as int == |c.backlog| - 1
  {
  }
}
