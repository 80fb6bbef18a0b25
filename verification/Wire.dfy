/** Portable status codes, with the numbers they have on the wire (airusb/core/Status.h). */
module Status {
  type Code = c: int | 0 <= c < 0x1_0000

  const OK: Code := 0x0000
  const BAD_ARGUMENT: Code := 0x0002
  const UNSUPPORTED_VERSION: Code := 0x0003
  const UNSUPPORTED_MESSAGE: Code := 0x0004
  const MALFORMED_FRAME: Code := 0x0005
  const LIMIT_EXCEEDED: Code := 0x0006
  const NOT_PERMITTED: Code := 0x0007
  const NOT_PAIRED: Code := 0x0008
  const AUTH_FAILED: Code := 0x0009
  const NO_RESOURCES: Code := 0x000A
  const BUSY: Code := 0x000B
  const NOT_FOUND: Code := 0x000C
  const ALREADY_EXISTS: Code := 0x000D
  const INTERNAL: Code := 0x000E
  const TRANSPORT_LOST: Code := 0x000F
  const DETACHING: Code := 0x0021
  const EXCLUSIVITY_DENIED: Code := 0x0022
  const MANIFEST_INVALID: Code := 0x0025
  const XFER_TIMEOUT: Code := 0x0041
  const XFER_CANCELLED: Code := 0x0042
  const XFER_SHORT: Code := 0x0043
}

/** Fixed-width integers, and the message bodies once they are off the wire. */
module Wire {
  import Status

  type byte = b: int | 0 <= b < 0x100
  type u16 = n: int | 0 <= n < 0x1_0000
  type u32 = n: int | 0 <= n < 0x1_0000_0000
  type u64 = n: int | 0 <= n < 0x1_0000_0000_0000_0000
  type Bytes = seq<byte>

  datatype Option<+T> = None | Some(value: T)

  const CONTROL: byte := 0
  const ISOCHRONOUS: byte := 1
  const BULK: byte := 2
  const INTERRUPT: byte := 3

  const DIR_OUT: byte := 0
  const DIR_IN: byte := 1

  // Message types the data plane uses.
  const T_ERROR: byte := 0x06
  const T_CTRL_ACK: byte := 0x36
  const T_SUBMIT: byte := 0x40
  const T_COMPLETE: byte := 0x41
  const T_CANCEL: byte := 0x42
  const T_CANCEL_ACK: byte := 0x43
  const T_DATA: byte := 0x44

  const HEADER_SIZE := 32
  const BODY_SUBMIT := 40
  const BODY_COMPLETE := 40
  const TRANSFER_BYTES_DEFAULT := 0x10_0000
  const RECORD_BYTES_FLOOR := 1024
  const RECORD_BYTES_CEILING := 65519


  datatype Header = Header(
    typ: byte, flags: byte, channel: u16, bodyLen: u32, attachId: u32, segOffset: u32,
    requestId: u64, status: u16, deviceEpoch: u16, totalLen: u32)
  {
    predicate SegMore() { flags % 2 == 1 }
    predicate SegFirst() { flags / 2 % 2 == 1 }
  }

  datatype SubmitBody = SubmitBody(
    epAddr: byte, xferType: byte, dir: byte, xflags: byte, bufferLen: u32, timeoutMs: u32,
    isoPktCount: u32, interval: u32, streamId: u32, setup: u64, submitTsNs: u64)

  datatype CompleteBody = CompleteBody(
    epAddr: byte, xferType: byte, dir: byte, cflags: byte, requestedLen: u32, actualLen: u32,
    payloadLen: u32, isoPktCount: u32, errorCount: u32, startFrame: u32, reserved: u32,
    submitTsNs: u64)
  {
    predicate IsShort() { cflags % 2 == 1 }
  }

  function Min(a: nat, b: nat): (m: nat)
    ensures m == a || m == b
    ensures m <= a && m <= b
  {
    if a < b then a else b
  }

  lemma Regrouped<T>(a: seq<T>, b: seq<T>, c: seq<T>)
    ensures a + b + c == a + (b + c)
  {}

  /** A C++ narrowing cast to 32 bits. */
  function Trunc32(n: nat): u32 { n % 0x1_0000_0000 }
}
