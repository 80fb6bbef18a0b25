/**
 * airusb/protocol/Codec.cpp: the byte layout of the record header, SUBMIT and COMPLETE.
 * Encoders grow a byte vector and write into it in place; decoders read at fixed offsets.
 */
module Codec {
  import opened Wire

  // ---------------------------------------------------------------- little-endian integers

  function Le16(n: u16): (b: Bytes)
    ensures |b| == 2
  {
    [n % 0x100, n / 0x100]
  }

  function Le32(n: u32): (b: Bytes)
    ensures |b| == 4
  {
    Le16(n % 0x1_0000) + Le16(n / 0x1_0000)
  }

  function Le64(n: u64): (b: Bytes)
    ensures |b| == 8
  {
    Le32(n % 0x1_0000_0000) + Le32(n / 0x1_0000_0000)
  }

  function Rd16(b: Bytes): u16
    requires |b| == 2
  {
    b[0] as int + 0x100 * b[1] as int
  }

  function Rd32(b: Bytes): u32
    requires |b| == 4
  {
    Rd16(b[..2]) as int + 0x1_0000 * Rd16(b[2..]) as int
  }

  function Rd64(b: Bytes): u64
    requires |b| == 8
  {
    Rd32(b[..4]) as int + 0x1_0000_0000 * Rd32(b[4..]) as int
  }

  lemma Back16(n: u16)
    ensures Rd16(Le16(n)) == n
  {}

  lemma Back32(n: u32)
    ensures Rd32(Le32(n)) == n
  {
    var lo, hi := n % 0x1_0000, n / 0x1_0000;
    Back16(lo);
    Back16(hi);
    assert Le32(n)[..2] == Le16(lo) && Le32(n)[2..] == Le16(hi);
  }

  lemma Back64(n: u64)
    ensures Rd64(Le64(n)) == n
  {
    var lo, hi := n % 0x1_0000_0000, n / 0x1_0000_0000;
    Back32(lo);
    Back32(hi);
    assert Le64(n)[..4] == Le32(lo) && Le64(n)[4..] == Le32(hi);
  }

  lemma Canonical16(b: Bytes)
    requires |b| == 2
    ensures Le16(Rd16(b)) == b
  {}

  lemma Halves32(lo: u16, hi: u16)
    ensures (lo + 0x1_0000 * hi) % 0x1_0000 == lo && (lo + 0x1_0000 * hi) / 0x1_0000 == hi
  {}

  lemma Halves64(lo: u32, hi: u32)
    ensures (lo + 0x1_0000_0000 * hi) % 0x1_0000_0000 == lo && (lo + 0x1_0000_0000 * hi) / 0x1_0000_0000 == hi
  {}

  lemma Canonical32(b: Bytes)
    requires |b| == 4
    ensures Le32(Rd32(b)) == b
  {
    Canonical16(b[..2]);
    Canonical16(b[2..]);
    Halves32(Rd16(b[..2]), Rd16(b[2..]));
    assert b[..2] + b[2..] == b;
  }

  lemma Canonical64(b: Bytes)
    requires |b| == 8
    ensures Le64(Rd64(b)) == b
  {
    Canonical32(b[..4]);
    Canonical32(b[4..]);
    Halves64(Rd32(b[..4]), Rd32(b[4..]));
    assert b[..4] + b[4..] == b;
  }

  // ---------------------------------------------------------------- layouts

  function HeaderBytes(h: Header): (b: Bytes)
    ensures |b| == HEADER_SIZE
  {
    [h.typ, h.flags] + Le16(h.channel) + Le32(h.bodyLen) + Le32(h.attachId) + Le32(h.segOffset)
    + Le64(h.requestId) + Le16(h.status) + Le16(h.deviceEpoch) + Le32(h.totalLen)
  }

  function ParseHeader(b: Bytes): Option<Header> {
    if |b| < HEADER_SIZE then None
    else Some(Header(b[0], b[1], Rd16(b[2..4]), Rd32(b[4..8]), Rd32(b[8..12]), Rd32(b[12..16]),
      Rd64(b[16..24]), Rd16(b[24..26]), Rd16(b[26..28]), Rd32(b[28..32])))
  }

  function SubmitBytes(s: SubmitBody): (b: Bytes)
    ensures |b| == BODY_SUBMIT
  {
    [s.epAddr, s.xferType, s.dir, s.xflags] + Le32(s.bufferLen) + Le32(s.timeoutMs) + Le32(s.isoPktCount)
    + Le32(s.interval) + Le32(s.streamId) + Le64(s.setup) + Le64(s.submitTsNs)
  }

  function ParseSubmit(b: Bytes): Option<SubmitBody> {
    if |b| < BODY_SUBMIT then None
    else Some(SubmitBody(b[0], b[1], b[2], b[3], Rd32(b[4..8]), Rd32(b[8..12]), Rd32(b[12..16]),
      Rd32(b[16..20]), Rd32(b[20..24]), Rd64(b[24..32]), Rd64(b[32..40])))
  }

  function CompleteBytes(c: CompleteBody): (b: Bytes)
    ensures |b| == BODY_COMPLETE
  {
    [c.epAddr, c.xferType, c.dir, c.cflags] + Le32(c.requestedLen) + Le32(c.actualLen) + Le32(c.payloadLen)
    + Le32(c.isoPktCount) + Le32(c.errorCount) + Le32(c.startFrame) + Le32(c.reserved) + Le64(c.submitTsNs)
  }

  function ParseComplete(b: Bytes): Option<CompleteBody> {
    if |b| < BODY_COMPLETE then None
    else Some(CompleteBody(b[0], b[1], b[2], b[3], Rd32(b[4..8]), Rd32(b[8..12]), Rd32(b[12..16]),
      Rd32(b[16..20]), Rd32(b[20..24]), Rd32(b[24..28]), Rd32(b[28..32]), Rd64(b[32..40])))
  }

  // ---------------------------------------------------------------- round trips

  lemma HeaderSlices(f0: Bytes, f1: Bytes, f2: Bytes, f3: Bytes, f4: Bytes, f5: Bytes, f6: Bytes, f7: Bytes, f8: Bytes, rest: Bytes)
    requires |f0| == 2 && |f1| == 2 && |f2| == 4 && |f3| == 4 && |f4| == 4 && |f5| == 8 && |f6| == 2 && |f7| == 2 && |f8| == 4
    ensures var b := f0 + f1 + f2 + f3 + f4 + f5 + f6 + f7 + f8 + rest;
            && b[0..2] == f0
            && b[2..4] == f1
            && b[4..8] == f2
            && b[8..12] == f3
            && b[12..16] == f4
            && b[16..24] == f5
            && b[24..26] == f6
            && b[26..28] == f7
            && b[28..32] == f8
  {}

  lemma HeaderRoundTrip(h: Header, rest: Bytes)
    ensures ParseHeader(HeaderBytes(h) + rest) == Some(h)
  {
    HeaderSlices([h.typ, h.flags], Le16(h.channel), Le32(h.bodyLen), Le32(h.attachId), Le32(h.segOffset),
      Le64(h.requestId), Le16(h.status), Le16(h.deviceEpoch), Le32(h.totalLen), rest);
    Back16(h.channel);
    Back32(h.bodyLen);
    Back32(h.attachId);
    Back32(h.segOffset);
    Back64(h.requestId);
    Back16(h.status);
    Back16(h.deviceEpoch);
    Back32(h.totalLen);
  }

  lemma BodySlices(f0: Bytes, f1: Bytes, f2: Bytes, f3: Bytes, f4: Bytes, f5: Bytes, f6: Bytes, f7: Bytes, rest: Bytes)
    requires |f0| == 4 && |f1| == 4 && |f2| == 4 && |f3| == 4 && |f4| == 4 && |f5| == 4 && |f6| == 8 && |f7| == 8
    ensures var b := f0 + f1 + f2 + f3 + f4 + f5 + f6 + f7 + rest;
            && b[0..4] == f0
            && b[4..8] == f1
            && b[8..12] == f2
            && b[12..16] == f3
            && b[16..20] == f4
            && b[20..24] == f5
            && b[24..32] == f6
            && b[32..40] == f7
  {}

  lemma SubmitRoundTrip(s: SubmitBody, rest: Bytes)
    ensures ParseSubmit(SubmitBytes(s) + rest) == Some(s)
  {
    BodySlices([s.epAddr, s.xferType, s.dir, s.xflags], Le32(s.bufferLen), Le32(s.timeoutMs), Le32(s.isoPktCount),
      Le32(s.interval), Le32(s.streamId), Le64(s.setup), Le64(s.submitTsNs), rest);
    Back32(s.bufferLen);
    Back32(s.timeoutMs);
    Back32(s.isoPktCount);
    Back32(s.interval);
    Back32(s.streamId);
    Back64(s.setup);
    Back64(s.submitTsNs);
  }

  lemma ReplySlices(f0: Bytes, f1: Bytes, f2: Bytes, f3: Bytes, f4: Bytes, f5: Bytes, f6: Bytes, f7: Bytes, f8: Bytes, rest: Bytes)
    requires |f0| == 4 && |f1| == 4 && |f2| == 4 && |f3| == 4 && |f4| == 4 && |f5| == 4 && |f6| == 4 && |f7| == 4 && |f8| == 8
    ensures var b := f0 + f1 + f2 + f3 + f4 + f5 + f6 + f7 + f8 + rest;
            && b[0..4] == f0
            && b[4..8] == f1
            && b[8..12] == f2
            && b[12..16] == f3
            && b[16..20] == f4
            && b[20..24] == f5
            && b[24..28] == f6
            && b[28..32] == f7
            && b[32..40] == f8
  {}

  lemma CompleteRoundTrip(c: CompleteBody, rest: Bytes)
    ensures ParseComplete(CompleteBytes(c) + rest) == Some(c)
  {
    ReplySlices([c.epAddr, c.xferType, c.dir, c.cflags], Le32(c.requestedLen), Le32(c.actualLen), Le32(c.payloadLen),
      Le32(c.isoPktCount), Le32(c.errorCount), Le32(c.startFrame), Le32(c.reserved), Le64(c.submitTsNs), rest);
    Back32(c.requestedLen);
    Back32(c.actualLen);
    Back32(c.payloadLen);
    Back32(c.isoPktCount);
    Back32(c.errorCount);
    Back32(c.startFrame);
    Back32(c.reserved);
    Back64(c.submitTsNs);
  }

  /** Every 32 bytes are the encoding of the header they decode to, so nothing is lost or added. */
  lemma HeaderCanonical(b: Bytes)
    requires |b| >= HEADER_SIZE
    ensures HeaderBytes(ParseHeader(b).value) == b[..HEADER_SIZE]
  {
    Canonical16(b[2..4]);
    Canonical32(b[4..8]);
    Canonical32(b[8..12]);
    Canonical32(b[12..16]);
    Canonical64(b[16..24]);
    Canonical16(b[24..26]);
    Canonical16(b[26..28]);
    Canonical32(b[28..32]);
    var h := ParseHeader(b).value;
    assert HeaderBytes(h) == [b[0], b[1]] + b[2..4] + b[4..8] + b[8..12] + b[12..16] + b[16..24] + b[24..26] + b[26..28] + b[28..32];
  }

  // ---------------------------------------------------------------- the encoders

  function Zeros(n: nat): (z: Bytes)
    ensures |z| == n && forall i :: 0 <= i < n ==> z[i] == 0
  {
    seq(n, _ => 0)
  }

  /** A std::vector<uint8_t>: it grows by zero bytes, which are then written over. */
  class ByteVector {
    var data: Bytes

    constructor ()
      ensures data == []
    {
      data := [];
    }

    method Grow(n: nat) returns (at: nat)
      modifies this
      ensures at == |old(data)| && data == old(data) + Zeros(n)
    {
      at := |data|;
      data := data + Zeros(n);
    }

    /** Write `v` at `at`, where everything from `at` on is still zero. */
    method Write(at: nat, v: Bytes, ghost before: Bytes, ghost left: nat)
      requires data == before + Zeros(left) && at == |before| && |v| <= left
      modifies this
      ensures data == before + v + Zeros(left - |v|)
    {
      data := data[..at] + v + data[at + |v|..];
    }

    method Clear()
      modifies this
      ensures data == []
    {
      data := [];
    }

    method Append(v: Bytes)
      modifies this
      ensures data == old(data) + v
    {
      data := data + v;
    }
  }

  lemma Regroup(base: Bytes, f0: Bytes, f1: Bytes, f2: Bytes, f3: Bytes, f4: Bytes, f5: Bytes, f6: Bytes, f7: Bytes, f8: Bytes)
    ensures base + f0 + f1 + f2 + f3 + f4 + f5 + f6 + f7 + f8 == base + (f0 + f1 + f2 + f3 + f4 + f5 + f6 + f7 + f8)
  {}

  method EncodeHeader(h: Header, out: ByteVector)
    modifies out
    ensures out.data == old(out.data) + HeaderBytes(h)
  {
    ghost var g := out.data;
    Regroup(g, [h.typ, h.flags], Le16(h.channel), Le32(h.bodyLen), Le32(h.attachId), Le32(h.segOffset),
      Le64(h.requestId), Le16(h.status), Le16(h.deviceEpoch), Le32(h.totalLen));
    var p := out.Grow(HEADER_SIZE);
    out.Write(p, [h.typ], g, 32);
    g := g + [h.typ];
    out.Write(p + 1, [h.flags], g, 31);
    g := g + [h.flags];
    assert g == old(out.data) + [h.typ, h.flags];
    out.Write(p + 2, Le16(h.channel), g, 30);
    g := g + Le16(h.channel);
    out.Write(p + 4, Le32(h.bodyLen), g, 28);
    g := g + Le32(h.bodyLen);
    out.Write(p + 8, Le32(h.attachId), g, 24);
    g := g + Le32(h.attachId);
    out.Write(p + 12, Le32(h.segOffset), g, 20);
    g := g + Le32(h.segOffset);
    out.Write(p + 16, Le64(h.requestId), g, 16);
    g := g + Le64(h.requestId);
    out.Write(p + 24, Le16(h.status), g, 8);
    g := g + Le16(h.status);
    out.Write(p + 26, Le16(h.deviceEpoch), g, 6);
    g := g + Le16(h.deviceEpoch);
    out.Write(p + 28, Le32(h.totalLen), g, 4);
  }

  method EncodeSubmit(s: SubmitBody, out: ByteVector)
    modifies out
    ensures out.data == old(out.data) + SubmitBytes(s)
  {
    ghost var g := out.data;
    Regroup(g, [s.epAddr, s.xferType, s.dir, s.xflags], Le32(s.bufferLen), Le32(s.timeoutMs), Le32(s.isoPktCount), Le32(s.interval),
      Le32(s.streamId), Le64(s.setup), Le64(s.submitTsNs), []);
    var p := out.Grow(BODY_SUBMIT);
    out.Write(p, [s.epAddr], g, 40);
    g := g + [s.epAddr];
    out.Write(p + 1, [s.xferType], g, 39);
    g := g + [s.xferType];
    out.Write(p + 2, [s.dir], g, 38);
    g := g + [s.dir];
    out.Write(p + 3, [s.xflags], g, 37);
    g := g + [s.xflags];
    assert g == old(out.data) + [s.epAddr, s.xferType, s.dir, s.xflags];
    out.Write(p + 4, Le32(s.bufferLen), g, 36);
    g := g + Le32(s.bufferLen);
    out.Write(p + 8, Le32(s.timeoutMs), g, 32);
    g := g + Le32(s.timeoutMs);
    out.Write(p + 12, Le32(s.isoPktCount), g, 28);
    g := g + Le32(s.isoPktCount);
    out.Write(p + 16, Le32(s.interval), g, 24);
    g := g + Le32(s.interval);
    out.Write(p + 20, Le32(s.streamId), g, 20);
    g := g + Le32(s.streamId);
    out.Write(p + 24, Le64(s.setup), g, 16);
    g := g + Le64(s.setup);
    out.Write(p + 32, Le64(s.submitTsNs), g, 8);
  }

  method EncodeComplete(c: CompleteBody, out: ByteVector)
    modifies out
    ensures out.data == old(out.data) + CompleteBytes(c)
  {
    ghost var g := out.data;
    Regroup(g, [c.epAddr, c.xferType, c.dir, c.cflags], Le32(c.requestedLen), Le32(c.actualLen), Le32(c.payloadLen), Le32(c.isoPktCount),
      Le32(c.errorCount), Le32(c.startFrame), Le32(c.reserved), Le64(c.submitTsNs));
    var p := out.Grow(BODY_COMPLETE);
    out.Write(p, [c.epAddr], g, 40);
    g := g + [c.epAddr];
    out.Write(p + 1, [c.xferType], g, 39);
    g := g + [c.xferType];
    out.Write(p + 2, [c.dir], g, 38);
    g := g + [c.dir];
    out.Write(p + 3, [c.cflags], g, 37);
    g := g + [c.cflags];
    assert g == old(out.data) + [c.epAddr, c.xferType, c.dir, c.cflags];
    out.Write(p + 4, Le32(c.requestedLen), g, 36);
    g := g + Le32(c.requestedLen);
    out.Write(p + 8, Le32(c.actualLen), g, 32);
    g := g + Le32(c.actualLen);
    out.Write(p + 12, Le32(c.payloadLen), g, 28);
    g := g + Le32(c.payloadLen);
    out.Write(p + 16, Le32(c.isoPktCount), g, 24);
    g := g + Le32(c.isoPktCount);
    out.Write(p + 20, Le32(c.errorCount), g, 20);
    g := g + Le32(c.errorCount);
    out.Write(p + 24, Le32(c.startFrame), g, 16);
    g := g + Le32(c.startFrame);
    out.Write(p + 28, Le32(c.reserved), g, 12);
    g := g + Le32(c.reserved);
    out.Write(p + 32, Le64(c.submitTsNs), g, 8);
  }

  // ------------------------------------------------------------ where the fields are

  /** The `n` bytes from `at` on, read little-endian, are `v`. */
  ghost predicate FieldAt(b: Bytes, at: nat, n: nat, v: nat)
    requires at + n <= |b|
  {
    LittleEndian(b[at..at + n]) == v
  }

  function LittleEndian(b: Bytes): nat { if b == [] then 0 else b[0] + 256 * LittleEndian(b[1..]) }

  lemma OneByte(x: byte)
    ensures LittleEndian([x]) == x
  {
    assert [x][1..] == [];
  }

  lemma TwoBytes(n: u16)
    ensures LittleEndian(Le16(n)) == n
  {
    Back16(n);
    LittleIsRd16(Le16(n));
  }

  lemma {:induction false} LittleJoin(a: Bytes, b: Bytes)
    requires |a| == 2
    ensures LittleEndian(a + b) == LittleEndian(a) + 65536 * LittleEndian(b)
  {
    assert (a + b)[1..] == [a[1]] + b && ([a[1]] + b)[1..] == b;
    assert LittleEndian([a[1]] + b) == a[1] + 256 * LittleEndian(b);
    LittleIsRd16(a);
  }

  lemma FourBytes(n: u32)
    ensures LittleEndian(Le32(n)) == n
  {
    var b := Le32(n);
    assert b == b[..2] + b[2..];
    LittleJoin(b[..2], b[2..]);
    Back32(n);
    LittleIsRd16(b[..2]);
    LittleIsRd16(b[2..]);
  }

  lemma LittleIsRd16(b: Bytes)
    requires |b| == 2
    ensures LittleEndian(b) == Rd16(b)
  {
    assert b[1..] == [b[1]];
    OneByte(b[1]);
  }

  lemma EightBytes(n: u64)
    ensures LittleEndian(Le64(n)) == n
  {
    var b := Le64(n);
    var lo, hi := b[..4], b[4..];
    assert b == lo[..2] + (lo[2..] + hi) && lo == lo[..2] + lo[2..] && hi == hi[..2] + hi[2..];
    LittleJoin(lo[..2], lo[2..] + hi);
    LittleJoin(lo[2..], hi);
    LittleJoin(lo[..2], lo[2..]);
    LittleJoin(hi[..2], hi[2..]);
    Back64(n);
    LittleIsRd16(lo[..2]);
    LittleIsRd16(lo[2..]);
    LittleIsRd16(hi[..2]);
    LittleIsRd16(hi[2..]);
  }

  /** The record header, byte for byte. */
  lemma HeaderLayout(h: Header)
    ensures var b := HeaderBytes(h);
            && |b| == 32 && b[0] == h.typ && b[1] == h.flags && FieldAt(b, 2, 2, h.channel) && FieldAt(b, 4, 4, h.bodyLen)
            && FieldAt(b, 8, 4, h.attachId) && FieldAt(b, 12, 4, h.segOffset) && FieldAt(b, 16, 8, h.requestId)
            && FieldAt(b, 24, 2, h.status) && FieldAt(b, 26, 2, h.deviceEpoch) && FieldAt(b, 28, 4, h.totalLen)
  {
    HeaderSlices([h.typ, h.flags], Le16(h.channel), Le32(h.bodyLen), Le32(h.attachId), Le32(h.segOffset),
      Le64(h.requestId), Le16(h.status), Le16(h.deviceEpoch), Le32(h.totalLen), []);
    assert HeaderBytes(h) + [] == HeaderBytes(h);
    TwoBytes(h.channel);
    FourBytes(h.bodyLen);
    FourBytes(h.attachId);
    FourBytes(h.segOffset);
    EightBytes(h.requestId);
    TwoBytes(h.status);
    TwoBytes(h.deviceEpoch);
    FourBytes(h.totalLen);
  }

  /** A SUBMIT body, byte for byte. */
  lemma SubmitLayout(s: SubmitBody)
    ensures var b := SubmitBytes(s);
            && |b| == 40 && b[0] == s.epAddr && b[1] == s.xferType && b[2] == s.dir && b[3] == s.xflags
            && FieldAt(b, 4, 4, s.bufferLen) && FieldAt(b, 8, 4, s.timeoutMs) && FieldAt(b, 12, 4, s.isoPktCount)
            && FieldAt(b, 16, 4, s.interval) && FieldAt(b, 20, 4, s.streamId) && FieldAt(b, 24, 8, s.setup) && FieldAt(b, 32, 8, s.submitTsNs)
  {
    BodySlices([s.epAddr, s.xferType, s.dir, s.xflags], Le32(s.bufferLen), Le32(s.timeoutMs), Le32(s.isoPktCount),
      Le32(s.interval), Le32(s.streamId), Le64(s.setup), Le64(s.submitTsNs), []);
    assert SubmitBytes(s) + [] == SubmitBytes(s);
    FourBytes(s.bufferLen);
    FourBytes(s.timeoutMs);
    FourBytes(s.isoPktCount);
    FourBytes(s.interval);
    FourBytes(s.streamId);
    EightBytes(s.setup);
    EightBytes(s.submitTsNs);
  }

  /** A COMPLETE body, byte for byte. */
  lemma CompleteLayout(c: CompleteBody)
    ensures var b := CompleteBytes(c);
            && |b| == 40 && b[0] == c.epAddr && b[1] == c.xferType && b[2] == c.dir && b[3] == c.cflags
            && FieldAt(b, 4, 4, c.requestedLen) && FieldAt(b, 8, 4, c.actualLen) && FieldAt(b, 12, 4, c.payloadLen)
            && FieldAt(b, 16, 4, c.isoPktCount) && FieldAt(b, 20, 4, c.errorCount) && FieldAt(b, 24, 4, c.startFrame)
            && FieldAt(b, 28, 4, c.reserved) && FieldAt(b, 32, 8, c.submitTsNs)
  {
    ReplySlices([c.epAddr, c.xferType, c.dir, c.cflags], Le32(c.requestedLen), Le32(c.actualLen), Le32(c.payloadLen),
      Le32(c.isoPktCount), Le32(c.errorCount), Le32(c.startFrame), Le32(c.reserved), Le64(c.submitTsNs), []);
    assert CompleteBytes(c) + [] == CompleteBytes(c);
    FourBytes(c.requestedLen);
    FourBytes(c.actualLen);
    FourBytes(c.payloadLen);
    FourBytes(c.isoPktCount);
    FourBytes(c.errorCount);
    FourBytes(c.startFrame);
    FourBytes(c.reserved);
    EightBytes(c.submitTsNs);
  }
}
