/** The rules of airusb/protocol/Validate.cpp that guard the data plane. OK means the rule passed. */
module Validate {
  import opened Wire
  import Status

  predicate IsDataPlane(typ: byte) { 0x40 <= typ <= 0x4F }

  /** The fixed body of a data-plane type; None for a type this version does not know. */
  function FixedBody(typ: byte): Option<nat> {
    if typ == T_SUBMIT || typ == T_COMPLETE then Some(40)
    else if typ == T_CANCEL then Some(16)
    else if typ == T_CANCEL_ACK then Some(8)
    else if typ == T_DATA then Some(0)
    else None
  }

  function TotalLenRule(h: Header, maxTransfer: nat): u16 {
    if h.totalLen > maxTransfer then Status.LIMIT_EXCEEDED
    else if h.segOffset > h.totalLen then Status.MALFORMED_FRAME
    else Status.OK
  }

  function BodyLenRule(h: Header, available: nat): u16
    requires IsDataPlane(h.typ)
  {
    var fixed := FixedBody(h.typ);
    if fixed.None? then Status.UNSUPPORTED_MESSAGE
    else if h.bodyLen < fixed.value || available < h.bodyLen then Status.MALFORMED_FRAME
    else Status.OK
  }

  /** validateHeader, for the data-plane types. */
  function HeaderRule(h: Header, available: nat, maxTransfer: nat): u16
    requires IsDataPlane(h.typ)
  {
    if h.flags >= 0x10 then Status.MALFORMED_FRAME
    else if TotalLenRule(h, maxTransfer) != Status.OK then TotalLenRule(h, maxTransfer)
    else if BodyLenRule(h, available) != Status.OK then BodyLenRule(h, available)
    else if h.status != 0 && h.typ != T_COMPLETE && h.typ != T_CANCEL_ACK then Status.MALFORMED_FRAME
    else if h.status == Status.TRANSPORT_LOST then Status.MALFORMED_FRAME
    else Status.OK
  }

  /** The packet table of an isochronous transfer: with no packets negotiated, any packet is one too many. */
  function IsoRule(xferType: byte, isoPktCount: u32): u16 {
    if xferType == ISOCHRONOUS && isoPktCount != 0 then Status.LIMIT_EXCEEDED else Status.OK
  }

  function SubmitIdentityRule(h: Header, b: SubmitBody): u16 {
    if b.epAddr % 16 != 0 && b.dir != b.epAddr / 128 then Status.MALFORMED_FRAME
    else if b.dir > 1 || b.xferType > INTERRUPT then Status.MALFORMED_FRAME
    else if b.xferType != ISOCHRONOUS && b.isoPktCount != 0 then Status.MALFORMED_FRAME
    else if b.isoPktCount * 16 + (if b.dir == DIR_OUT then b.bufferLen else 0) != h.totalLen then Status.MALFORMED_FRAME
    else Status.OK
  }

  function SubmitRule(h: Header, b: SubmitBody, maxTransfer: nat): u16 {
    if SubmitIdentityRule(h, b) != Status.OK then SubmitIdentityRule(h, b)
    else if b.bufferLen > maxTransfer then Status.LIMIT_EXCEEDED
    else if IsoRule(b.xferType, b.isoPktCount) != Status.OK then IsoRule(b.xferType, b.isoPktCount)
    else if b.streamId != 0 then Status.UNSUPPORTED_MESSAGE
    else Status.OK
  }

  function CompleteIdentityRule(h: Header, b: CompleteBody): u16 {
    if b.dir > 1 || b.xferType > INTERRUPT || b.reserved != 0 then Status.MALFORMED_FRAME
    else if b.xferType != ISOCHRONOUS && b.isoPktCount != 0 then Status.MALFORMED_FRAME
    else if b.isoPktCount * 16 + b.payloadLen != h.totalLen then Status.MALFORMED_FRAME
    else Status.OK
  }

  function ActualLenRule(b: CompleteBody): u16 {
    if b.actualLen > b.requestedLen then Status.MALFORMED_FRAME
    else if b.xferType == ISOCHRONOUS then Status.OK
    else if b.dir == DIR_IN && b.payloadLen != b.actualLen then Status.MALFORMED_FRAME
    else if b.dir != DIR_IN && b.payloadLen != 0 then Status.MALFORMED_FRAME
    else Status.OK
  }

  function CompleteRule(h: Header, b: CompleteBody): u16 {
    if CompleteIdentityRule(h, b) != Status.OK then CompleteIdentityRule(h, b)
    else if ActualLenRule(b) != Status.OK then ActualLenRule(b)
    else IsoRule(b.xferType, b.isoPktCount)
  }

  /** What passing means for a reply to an ordinary transfer: three statements of one length agree. */
  lemma PassedCompleteLengths(h: Header, b: CompleteBody)
    requires CompleteRule(h, b) == Status.OK && b.xferType != ISOCHRONOUS
    ensures h.totalLen == b.payloadLen && b.actualLen <= b.requestedLen
    ensures if b.dir == DIR_IN then b.payloadLen == b.actualLen else b.payloadLen == 0
  {}

  // ------------------------------------------------------------ exactly what passes

  /**
   * A data-plane header passes exactly when it sets no reserved flag, its declared total fits the limit and holds its
   * offset, its body is there and at least as long as its type's fixed part, and it carries a status only where one
   * may be, never TransportLost.
   */
  lemma HeaderPassesExactly(h: Header, available: nat, maxTransfer: nat)
    requires 0x40 <= h.typ <= 0x4F
    ensures HeaderRule(h, available, maxTransfer) == Status.OK <==>
            && h.flags < 16 && h.segOffset <= h.totalLen <= maxTransfer && h.bodyLen <= available
            && (((h.typ == 0x40 || h.typ == 0x41) && h.bodyLen >= 40) || (h.typ == 0x42 && h.bodyLen >= 16)
                || (h.typ == 0x43 && h.bodyLen >= 8) || h.typ == 0x44)
            && (h.status == 0 || ((h.typ == 0x41 || h.typ == 0x43) && h.status != 0x000F))
  {}

  /** A SUBMIT passes exactly when direction, type, lengths and limit agree and it asks for no packets or streams. */
  lemma SubmitPassesExactly(h: Header, b: SubmitBody, maxTransfer: nat)
    ensures SubmitRule(h, b, maxTransfer) == Status.OK <==>
            && b.dir <= 1 && b.xferType <= 3 && (b.epAddr % 16 == 0 || b.dir == b.epAddr / 128)
            && b.isoPktCount == 0 && b.streamId == 0 && b.bufferLen <= maxTransfer
            && h.totalLen == (if b.dir == 0 then b.bufferLen else 0)
  {}

  /**
   * A COMPLETE passes exactly when its direction and type exist, it claims no more than was asked for, and total,
   * payload and actual length are one length: on an IN the bytes carried, on an OUT none.
   */
  lemma CompletePassesExactly(h: Header, b: CompleteBody)
    requires b.xferType != ISOCHRONOUS
    ensures CompleteRule(h, b) == Status.OK <==>
            && b.dir <= 1 && b.xferType <= 3 && b.reserved == 0 && b.isoPktCount == 0 && b.actualLen <= b.requestedLen
            && h.totalLen == b.payloadLen && b.payloadLen == (if b.dir == 1 then b.actualLen else 0)
  {}
}
