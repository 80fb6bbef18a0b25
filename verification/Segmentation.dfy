/**
 * airusb/protocol/Segmentation.cpp: one logical transfer carried by several records.
 */
module Segmentation {
  import opened Wire
  import Status
  import opened Codec

  // ---------------------------------------------------------------- cutting a transfer up

  datatype Segment = Segment(offset: u32, length: u32, first: bool, more: bool)

  /** The segments from `offset` on. */
  function PlanFrom(offset: u32, total: u32, max: u32): seq<Segment>
    requires max > 0 && offset <= total
    decreases total - offset
  {
    if offset == total then []
    else
      var take := if total - offset < max then total - offset else max;
      [Segment(offset, take, offset == 0, offset + take < total)] + PlanFrom(offset + take, total, max)
  }

  function Plan(total: u32, max: u32): seq<Segment> {
    if max == 0 then [] else if total == 0 then [Segment(0, 0, true, false)] else PlanFrom(0, total, max)
  }

  method PlanSegments(total: u32, max: u32) returns (out: seq<Segment>)
    ensures out == Plan(total, max)
  {
    out := [];
    if max == 0 { return; }
    if total == 0 { return [Segment(0, 0, true, false)]; }
    var offset: u32 := 0;
    while offset < total
      invariant offset <= total
      invariant out + PlanFrom(offset, total, max) == PlanFrom(0, total, max)
      decreases total - offset
    {
      var remaining := total - offset;
      var take := if remaining < max then remaining else max;
      out := out + [Segment(offset, take, offset == 0, offset + take < total)];
      offset := offset + take;
    }
  }

  /** Piece `i` of a cut that starts at `from`: it begins where the one before it ended, and only the last may be short. */
  predicate Fitted(p: seq<Segment>, i: nat, from: u32, max: u32)
    requires i < |p|
  {
    && p[i].offset == (if i == 0 then from else p[i - 1].offset + p[i - 1].length)
    && p[i].first == (p[i].offset == 0)
    && p[i].more == (i < |p| - 1)
    && (if i < |p| - 1 then p[i].length == max else p[i].length <= max)
  }

  /** The segments cut [from, total) into pieces of at most `max`. */
  ghost predicate Covers(p: seq<Segment>, from: u32, total: u32, max: u32) {
    && (forall i :: 0 <= i < |p| ==> Fitted(p, i, from, max))
    && (if p == [] then from == total else p[|p| - 1].offset + p[|p| - 1].length == total)
  }

  predicate NoneEmpty(p: seq<Segment>) { forall i :: 0 <= i < |p| ==> p[i].length > 0 }

  lemma CoverGrows(s: Segment, rest: seq<Segment>, total: u32, max: u32)
    requires 0 < s.length && s.first == (s.offset == 0) && s.more == (rest != []) && NoneEmpty(rest)
    requires if rest != [] then s.length == max else s.length <= max
    requires s.offset + s.length <= total && Covers(rest, s.offset + s.length, total, max)
    ensures Covers([s] + rest, s.offset, total, max) && NoneEmpty([s] + rest)
  {
    var p := [s] + rest;
    forall i | 0 <= i < |p| ensures Fitted(p, i, s.offset, max) {
      if i > 0 { assert p[i] == rest[i - 1] && Fitted(rest, i - 1, s.offset + s.length, max); }
    }
    if rest != [] { assert p[|p| - 1] == rest[|rest| - 1]; }
  }

  lemma {:induction false} PlanFromCovers(offset: u32, total: u32, max: u32)
    requires max > 0 && offset <= total
    ensures Covers(PlanFrom(offset, total, max), offset, total, max) && NoneEmpty(PlanFrom(offset, total, max))
    decreases total - offset
  {
    if offset < total {
      var take := if total - offset < max then total - offset else max;
      PlanFromCovers(offset + take, total, max);
      CoverGrows(Segment(offset, take, offset == 0, offset + take < total), PlanFrom(offset + take, total, max), total, max);
    }
  }

  /** A plan is a gap-free cover of the transfer: one SEG_FIRST, SEG_MORE on all but the last, no empty piece of data. */
  lemma PlanCovers(total: u32, max: u32)
    requires max > 0
    ensures var p := Plan(total, max);
            && |p| > 0 && Covers(p, 0, total, max)
            && (forall i :: 0 <= i < |p| ==> p[i].first == (i == 0))
            && (total > 0 ==> NoneEmpty(p))
  {
    if total > 0 {
      PlanFromCovers(0, total, max);
      var p := Plan(total, max);
      forall i | 0 <= i < |p| ensures p[i].first == (i == 0) {
        assert Fitted(p, i, 0, max);
        if i > 0 { assert p[i - 1].length > 0; }
      }
    }
  }

  // ---------------------------------------------------------------- emitting it

  function SegFlags(s: Segment): byte { (if s.first then 2 else 0) + (if s.more then 1 else 0) }

  /** The header of record `i` of a transfer. */
  function SegmentHeader(base: Header, body: Bytes, total: u32, s: Segment, i: nat): Header {
    if i == 0
    then base.(segOffset := s.offset, totalLen := total, flags := SegFlags(s), bodyLen := Trunc32(Trunc32(|body|) + s.length))
    else base.(segOffset := s.offset, totalLen := total, flags := SegFlags(s), typ := T_DATA, status := 0, bodyLen := s.length)
  }

  predicate Fits(s: Segment, data: Bytes) { s.offset + s.length <= |data| }

  function SegmentRecord(base: Header, body: Bytes, data: Bytes, s: Segment, i: nat): Bytes
    requires Fits(s, data)
  {
    HeaderBytes(SegmentHeader(base, body, Trunc32(|data|), s, i)) + (if i == 0 then body else [])
    + data[s.offset..s.offset + s.length]
  }

  lemma PlanFits(data: Bytes, max: u32)
    ensures forall i :: 0 <= i < |Plan(Trunc32(|data|), max)| ==> Fits(Plan(Trunc32(|data|), max)[i], data)
  {
    var total := Trunc32(|data|);
    var p := Plan(total, max);
    if max > 0 {
      PlanCovers(total, max);
      var i := |p| - 1;
      while i > 0
        invariant 0 <= i < |p|
        invariant forall k :: i <= k < |p| ==> Fits(p[k], data)
      {
        assert Fitted(p, i, 0, max);
        i := i - 1;
      }
    }
  }

  /** Every record of one transfer, framed. */
  ghost function Records(base: Header, body: Bytes, data: Bytes, max: u32): (rs: seq<Bytes>)
    ensures |rs| == |Plan(Trunc32(|data|), max)|
  {
    PlanFits(data, max);
    var p := Plan(Trunc32(|data|), max);
    seq(|p|, (i: int) requires 0 <= i < |p| && Fits(p[i], data) => SegmentRecord(base, body, data, p[i], i))
  }

  lemma RecordsAt(base: Header, body: Bytes, data: Bytes, max: u32, i: nat)
    requires i < |Plan(Trunc32(|data|), max)|
    ensures Fits(Plan(Trunc32(|data|), max)[i], data)
    ensures Records(base, body, data, max)[i] == SegmentRecord(base, body, data, Plan(Trunc32(|data|), max)[i], i)
  {
    PlanFits(data, max);
  }

  /** Frame record `i` into the reused buffer `rec`. */
  method FrameSegment(base: Header, body: Bytes, data: Bytes, s: Segment, i: nat, rec: ByteVector, ghost max: u32)
    requires i < |Plan(Trunc32(|data|), max)| && s == Plan(Trunc32(|data|), max)[i]
    modifies rec
    ensures rec.data == Records(base, body, data, max)[i]
  {
    RecordsAt(base, body, data, max, i);
    rec.Clear();
    EncodeHeader(SegmentHeader(base, body, Trunc32(|data|), s, i), rec);
    if i == 0 { rec.Append(body); }
    rec.Append(data[s.offset..s.offset + s.length]);
  }

  /** `sent` is what a transport that replies `send(i)` to record `i` was given: everything up to its first refusal. */
  ghost predicate SentUntilRefused(rs: seq<Bytes>, sent: seq<Bytes>, st: u16, send: nat -> u16) {
    && 0 < |sent| <= |rs| && sent == rs[..|sent|]
    && (forall i :: 0 <= i < |sent| - 1 ==> send(i) == Status.OK)
    && st == send(|sent| - 1)
    && (st == Status.OK ==> sent == rs)
  }

  method EmitTransfer(base: Header, body: Bytes, data: Bytes, max: u32, send: nat -> u16) returns (st: u16, sent: seq<Bytes>)
    ensures max == 0 ==> st == Status.BAD_ARGUMENT && sent == []
    ensures max > 0 ==> SentUntilRefused(Records(base, body, data, max), sent, st, send)
  {
    if max == 0 { return Status.BAD_ARGUMENT, []; }
    var plan := PlanSegments(Trunc32(|data|), max);
    PlanCovers(Trunc32(|data|), max);
    ghost var rs := Records(base, body, data, max);
    var rec := new ByteVector();
    st, sent := Status.OK, [];
    for i := 0 to |plan|
      invariant fresh(rec)
      invariant |sent| == i && sent == rs[..i] && st == Status.OK
      invariant forall k :: 0 <= k < i ==> send(k) == Status.OK
    {
      FrameSegment(base, body, data, plan[i], i, rec, max);
      sent := sent + [rec.data];
      st := send(i);
      if st != Status.OK { return; }
    }
  }
}
