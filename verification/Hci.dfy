/** Values shared by the whole model: bytes, ULONGs, HCI packets, statuses and
    the driver's size constants. */
module Hci {

  datatype Option<+T> = None | Some(value: T)

  type Byte = b: int | 0 <= b < 0x100

  const ULONG_SIZE := 0x1_0000_0000

  /** A Windows ULONG. Arithmetic on it wraps; see Wrap. */
  type ULong = n: int | 0 <= n < 0x1_0000_0000

  function Wrap(n: int): ULong {
    n % 0x1_0000_0000
  }

  // H4 packet type bytes.
  const H4_COMMAND: Byte := 0x01
  const H4_ACL: Byte := 0x02
  const H4_SCO: Byte := 0x03
  const H4_EVENT: Byte := 0x04
  const H4_ISO: Byte := 0x05
  const H4_VENDOR: Byte := 0xFF

  // Controller-to-host bounds, and the looser host-to-controller ones.
  const MAX_ACL_TRANSFER_IN := 1021
  const MAX_EVENT_SIZE := 257
  const MAX_BODY := 4 + MAX_ACL_TRANSFER_IN
  const MAX_H4_PACKET := 1 + MAX_BODY

  /** Packed header of the BTHX read/write context: a ULONG and a UCHAR. */
  const CONTEXT_HEADER_SIZE := 5

  /** An HCI packet as the driver stores it: the type travels beside the body. */
  datatype Packet = Packet(kind: Byte, body: seq<Byte>)

  datatype Status =
    | Success
    | InvalidParameter
    | BufferTooSmall
    | DeviceNotReady
    | InvalidDeviceState
    | InsufficientResources
    | NotSupported
    | InvalidDeviceRequest
    | Cancelled
    | Failed(code: nat)

  /** What a call of the framework's that failed may answer: any of these as well. */
  type Failure = s: Status | !s.Success? witness Failed(0)

  /** Low-order byte first, as a ULONG is laid out in the BTHX context. */
  function LittleEndian32(n: ULong): (s: seq<Byte>)
    ensures |s| == 4
    ensures s[0] as int + 0x100 * (s[1] as int) + 0x1_0000 * (s[2] as int) + 0x100_0000 * (s[3] as int) == n
  {
    var high3 := n / 0x100;
    var high2 := high3 / 0x100;
    [n % 0x100, high3 % 0x100, high2 % 0x100, high2 / 0x100]
  }
}
