/** Completing a read with a packet, outside the lock: the bytes that land in its
    output buffer, and nothing past them. */
module Completions {
  import opened Hci
  import opened Rendezvous
  import Driver
  import opened Framework

  /** r shows to its sender what d says. */
  ghost predicate Shows(r: WdfRequest, d: Driver.Done)
    reads r, r.Output
  {
    && r.Completed && d.r == r.View() && r.Result == d.status && r.Information == d.info
    && (d.WithPacket? ==> d.info <= r.Output.Length && r.Output[..d.info] == d.output)
  }

  /** RtlCopyMemory. */
  method CopyMemory(dst: array<Byte>, at: nat, src: seq<Byte>)
    requires at + |src| <= dst.Length
    modifies dst
    ensures dst[..] == old(dst[..at]) + src + old(dst[at + |src|..])
  {
    var k := 0;
    while k < |src|
      invariant k <= |src|
      invariant dst[..at] == old(dst[..at]) && dst[at..at + k] == src[..k]
      invariant dst[at + k..] == old(dst[at + k..])
    {
      dst[at + k] := src[k];
      k := k + 1;
    }
  }

  /** The end of WinVhciQueueToUser and of WinVhciEvtIoRead. */
  method CompleteClientRead(r: WdfRequest, kind: Byte, body: seq<Byte>)
    requires !r.Completed
    modifies r, r.Output
    ensures Shows(r, Driver.CompleteClientRead(r.View(), Packet(kind, body)))
  {
    if r.Output.Length < |body| + 1 {
      r.Complete(BufferTooSmall, 0);
    } else {
      r.Output[0] := kind;
      CopyMemory(r.Output, 1, body);
      r.Complete(Success, |body| + 1);
      assert r.Output[..|body| + 1] == [kind] + body;
    }
  }

  /** WinVhciCompleteRead. */
  method CompleteStackRead(r: WdfRequest, kind: Byte, body: seq<Byte>) returns (status: Status)
    requires !r.Completed
    modifies r, r.Output
    ensures Shows(r, Driver.CompleteStackRead(r.View(), Packet(kind, body)))
    ensures status == r.Result
  {
    if r.Output.Length < CONTEXT_HEADER_SIZE {
      r.Complete(InvalidParameter, 0);
      return InvalidParameter;
    }
    if r.Output.Length - CONTEXT_HEADER_SIZE < |body| {
      r.Complete(BufferTooSmall, 0);
      return BufferTooSmall;
    }
    r.Output[4] := kind;
    CopyMemory(r.Output, 0, LittleEndian32(Wrap(|body|)));
    CopyMemory(r.Output, CONTEXT_HEADER_SIZE, body);
    r.Complete(Success, CONTEXT_HEADER_SIZE + |body|);
    status := Success;
    assert r.Output[..CONTEXT_HEADER_SIZE + |body|] == LittleEndian32(Wrap(|body|)) + [kind] + body;
  }
}
