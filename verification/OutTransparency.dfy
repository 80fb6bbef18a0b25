/** A transfer cut into records by one end is the transfer the other end puts together. */
module SegmentRoundTrip {
  import opened Wire
  import Status
  import opened Codec
  import opened Segmentation
  import opened Reassembly
  import opened Importing

  /** A payload whose length the 32-bit wire fields can say. */
  predicate Sized(data: Bytes) { |data| < 0x1_0000_0000 }

  lemma SizedTrunc(data: Bytes)
    requires Sized(data)
    ensures Trunc32(|data|) == |data|
  {}

  ghost function PieceOf(base: Header, body: Bytes, data: Bytes, s: Segment, i: nat): Piece
    requires Sized(data) && Fits(s, data)
  {
    Piece(SegmentHeader(base, body, |data|, s, i), data[s.offset..s.offset + s.length])
  }

  predicate AllFit(p: seq<Segment>, data: Bytes) { forall i :: 0 <= i < |p| ==> Fits(p[i], data) }

  /** The records of a transfer cut as `p`, as the receiving reassembler sees them. */
  ghost function PiecesFor(base: Header, body: Bytes, data: Bytes, p: seq<Segment>): (ps: seq<Piece>)
    requires Sized(data) && AllFit(p, data)
    ensures |ps| == |p| && forall i :: 0 <= i < |ps| ==> ps[i] == PieceOf(base, body, data, p[i], i)
  {
    seq(|p|, (i: int) requires 0 <= i < |p| => PieceOf(base, body, data, p[i], i))
  }

  /** The plan of a sized transfer, cut into pieces of at most `max`. */
  ghost function PlanOf(data: Bytes, max: u32): (p: seq<Segment>)
    requires Sized(data) && max > 0
    ensures AllFit(p, data) && p != [] && Covers(p, 0, |data|, max) && forall i :: 0 <= i < |p| ==> p[i].first == (i == 0)
  {
    PlanFits(data, max);
    SizedTrunc(data);
    PlanCovers(|data|, max);
    Plan(|data|, max)
  }

  ghost function PiecesOf(base: Header, body: Bytes, data: Bytes, max: u32): seq<Piece>
    requires Sized(data) && max > 0
  {
    PiecesFor(base, body, data, PlanOf(data, max))
  }

  /** Where segment `n` starts; the end of the data when there is no such segment. */
  function StartOf(p: seq<Segment>, data: Bytes, n: nat): nat { if n < |p| then p[n].offset else |data| }

  lemma StartsMeet(p: seq<Segment>, data: Bytes, max: u32, n: nat)
    requires Sized(data) && AllFit(p, data) && Covers(p, 0, |data|, max) && n < |p|
    ensures StartOf(p, data, n + 1) == p[n].offset + p[n].length <= |data| && p[0].offset == 0
  {
    assert Fitted(p, 0, 0, max) && Fits(p[n], data);
    if n + 1 < |p| { assert Fitted(p, n + 1, 0, max); }
  }

  lemma {:induction false} PiecesJoin(base: Header, body: Bytes, data: Bytes, p: seq<Segment>, max: u32, n: nat)
    requires Sized(data) && AllFit(p, data) && Covers(p, 0, |data|, max) && n <= |p| && p != []
    ensures StartOf(p, data, n) <= |data| && Through(PiecesFor(base, body, data, p), n) == data[..StartOf(p, data, n)]
  {
    var ps := PiecesFor(base, body, data, p);
    if n == 0 {
      StartsMeet(p, data, max, 0);
    } else {
      StartsMeet(p, data, max, n - 1);
      PiecesJoin(base, body, data, p, max, n - 1);
      assert ps[n - 1] == PieceOf(base, body, data, p[n - 1], n - 1);
      OneMore(ps, n, data, StartOf(p, data, n - 1), StartOf(p, data, n));
    }
  }

  lemma OneMore(ps: seq<Piece>, n: nat, data: Bytes, i: nat, j: nat)
    requires 0 < n <= |ps| && i <= j <= |data| && Through(ps, n - 1) == data[..i] && ps[n - 1].payload == data[i..j]
    ensures Through(ps, n) == data[..j]
  {
    assert data[..i] + data[i..j] == data[..j];
  }

  lemma FlagsSaySegment(base: Header, body: Bytes, total: u32, s: Segment, i: nat)
    ensures var h := SegmentHeader(base, body, total, s, i); h.SegFirst() == s.first && h.SegMore() == s.more && h.flags < 4
  {}

  /** What emitTransfer sends is well-formed for any reassembler whose limit the data respects. */
  lemma PiecesWellFormed(l: Limits, base: Header, body: Bytes, data: Bytes, max: u32)
    requires Sized(data) && max > 0 && |data| <= l.maxTransferBytes
    ensures WellFormed(l, Key(base.channel, base.requestId), PiecesOf(base, body, data, max), data)
  {
    var p := PlanOf(data, max);
    var ps := PiecesFor(base, body, data, p);
    PiecesJoin(base, body, data, p, max, |ps|);
    assert data[..|data|] == data;
    forall i | 0 <= i < |ps| ensures PieceOk(Key(base.channel, base.requestId), ps, data, i) {
      FlagsSaySegment(base, body, |data|, p[i], i);
      PiecesJoin(base, body, data, p, max, i);
      assert Fitted(p, i, 0, max);
    }
  }

  /** Only `k` is being reassembled. */
  ghost predicate Solo(l: Limits, r: Reasm, k: Key) { Valid(l, r) && forall j :: j in r.partial ==> j == k }

  /** One transfer on its own: each piece is accepted, and the last one completes it. */
  lemma SoloPiece(l: Limits, r: Reasm, k: Key, job: Job, n: nat)
    requires WellFormed(l, k, job.pieces, job.data) && |job.data| <= l.arenaBytes && l.maxInFlight > 0
    requires Solo(l, r, k) && n < |job.pieces| && Tracks(job, n, r.partial, k)
    ensures var a := Accept(l, r, job.pieces[n].h, job.pieces[n].payload);
            && Tracks(job, n + 1, a.r.partial, k) && Solo(l, a.r, k)
            && a.verdict == (if n < |job.pieces| - 1 then NeedMore else Complete)
            && (n == |job.pieces| - 1 ==> a.r.parked == Some(Parked(k, job.data)))
  {
    var piece := job.pieces[n];
    TrackedWithin(l, k, job, n, r);
    SoloRoom(l, r, k, job, |piece.payload|);
    PieceAccepted(l, r, k, job, n);
    AcceptKeepsLimits(l, r, piece.h, piece.payload);
    var a := Accept(l, r, piece.h, piece.payload);
    forall j | j != k ensures j !in a.r.partial { assert Undisturbed(r, a.r, j); }
  }

  lemma SoloRoom(l: Limits, r: Reasm, k: Key, job: Job, more: nat)
    requires Solo(l, r, k) && |job.data| <= l.arenaBytes && l.maxInFlight > 0 && HeldFor(r, k) + more <= |job.data|
    ensures r.held + more <= l.arenaBytes && (k !in r.partial ==> |r.partial| < l.maxInFlight)
  {
    var jobs := map[k := job];
    assert Loads(jobs) == map[k := |job.data|];
    TotalWithout(Loads(jobs), k);
    assert Loads(jobs) - {k} == map[];
    RoomForMore(l, jobs, r, k, more);
  }

  /** The body of record `i`: the fixed body rides on the first one only. */
  function BodyAt(body: Bytes, payload: Bytes, i: nat): Bytes { (if i == 0 then body else []) + payload }

  lemma UnframeOne(h: Header, b: Bytes)
    requires h.bodyLen == |b|
    ensures Unframe(HeaderBytes(h) + b) == Some(Frame(h, |b|, b))
  {
    HeaderRoundTrip(h, b);
    assert (HeaderBytes(h) + b)[HEADER_SIZE..HEADER_SIZE + |b|] == b;
  }

  lemma SegmentIs(base: Header, body: Bytes, data: Bytes, s: Segment, i: nat)
    requires Sized(data) && Fits(s, data) && |body| + s.length < 0x1_0000_0000
    ensures var piece := PieceOf(base, body, data, s, i); var b := BodyAt(body, piece.payload, i);
            SegmentRecord(base, body, data, s, i) == HeaderBytes(piece.h) + b && piece.h.bodyLen == |b|
  {
    SizedTrunc(data);
    var piece := PieceOf(base, body, data, s, i);
    Regrouped(HeaderBytes(piece.h), if i == 0 then body else [], piece.payload);
  }

  lemma SameCount(base: Header, body: Bytes, data: Bytes, max: u32)
    requires Sized(data) && max > 0
    ensures |Records(base, body, data, max)| == |PiecesOf(base, body, data, max)| > 0
  {
    SizedTrunc(data);
  }

  /** Framing loses nothing: record `i` is split again into its header and its body. */
  lemma UnframeSegment(base: Header, body: Bytes, data: Bytes, max: u32, i: nat)
    requires Sized(data) && 0 < max && |body| + max < 0x1_0000_0000
    requires i < |Records(base, body, data, max)| && i < |PiecesOf(base, body, data, max)|
    ensures var piece, rec := PiecesOf(base, body, data, max)[i], Records(base, body, data, max)[i];
            var b := BodyAt(body, piece.payload, i);
            Unframe(rec) == Some(Frame(piece.h, |b|, b)) && |rec| == HEADER_SIZE + |b| && piece.h.bodyLen == |b|
  {
    var p := PlanOf(data, max);
    SizedTrunc(data);
    RecordsAt(base, body, data, max, i);
    assert Fitted(p, i, 0, max);
    SegmentIs(base, body, data, p[i], i);
    var piece := PieceOf(base, body, data, p[i], i);
    UnframeOne(piece.h, BodyAt(body, piece.payload, i));
  }
}

/** Importer to device: what `submit` was given is what the exporter hands to its scheduler, in one piece. */
module OutTransparency {
  import opened Wire
  import Status
  import opened Codec
  import opened Validate
  import opened Segmentation
  import opened Reassembly
  import opened Scheduler
  import opened Importing
  import opened Reception
  import opened SegmentRoundTrip

  /** `recs` are the pieces `ps`, framed; the fixed body rides on the first. */
  ghost predicate Framed(recs: seq<Bytes>, ps: seq<Piece>, body: Bytes) {
    && |recs| == |ps| > 0
    && forall i :: 0 <= i < |ps| ==> FramedAt(recs[i], ps[i], BodyAt(body, ps[i].payload, i))
  }

  ghost predicate FramedAt(rec: Bytes, p: Piece, b: Bytes) {
    Unframe(rec) == Some(Frame(p.h, |b|, b)) && |rec| == HEADER_SIZE + |b| && p.h.bodyLen == |b|
  }

  /** The header fields that do not vary with the cut. */
  ghost predicate Typed(ps: seq<Piece>, first: byte, status: u16, attachId: u32) {
    forall i :: 0 <= i < |ps| ==> TypedAt(ps[i].h, i, first, status, attachId)
  }

  predicate TypedAt(h: Header, i: nat, first: byte, status: u16, attachId: u32) {
    && h.attachId == attachId && h.flags < 4
    && h.typ == (if i == 0 then first else T_DATA) && h.status == (if i == 0 then status else 0)
  }

  lemma RecordsFramed(base: Header, body: Bytes, data: Bytes, max: u32)
    requires Sized(data) && 0 < max && |body| + max < 0x1_0000_0000
    ensures Framed(Records(base, body, data, max), PiecesOf(base, body, data, max), body)
    ensures Typed(PiecesOf(base, body, data, max), base.typ, base.status, base.attachId)
  {
    var recs, ps := Records(base, body, data, max), PiecesOf(base, body, data, max);
    SameCount(base, body, data, max);
    forall i | 0 <= i < |ps|
      ensures FramedAt(recs[i], ps[i], BodyAt(body, ps[i].payload, i)) && TypedAt(ps[i].h, i, base.typ, base.status, base.attachId)
    {
      UnframeSegment(base, body, data, max, i);
      FlagsSaySegment(base, body, |data|, PlanOf(data, max)[i], i);
    }
  }

  /** A record that carries one message is that message. */
  lemma OneMessage(attachId: u32, rx: Rx, rec: Bytes, p: Piece, b: Bytes)
    requires FramedAt(rec, p, b)
    ensures var m := OnMessage(attachId, rx, p.h, |b|, b); var r := OnRecord(attachId, rx, rec);
            r.rx == m.rx && r.taken == m.taken && (m.status == Status.OK ==> r.status == Status.OK)
  {
    assert rec[HEADER_SIZE + |b|..] == [];
  }

  lemma PieceHeaderOk(l: Limits, key: Key, ps: seq<Piece>, data: Bytes, i: nat, attachId: u32, b: Bytes)
    requires WellFormed(l, key, ps, data) && i < |ps| && ps[i].h.bodyLen == |b|
    requires TypedAt(ps[i].h, i, T_SUBMIT, 0, attachId) && (i == 0 ==> |b| >= BODY_SUBMIT)
    ensures HeaderRule(ps[i].h, |b|, l.maxTransferBytes) == Status.OK
  {
    assert PieceOk(key, ps, data, i);
    ThroughWithin(ps, i);
  }

  /** The receiver holds the first `i` pieces of the transfer `ps`. */
  ghost predicate Receiving(rx: Rx, ps: seq<Piece>, data: Bytes, i: nat) {
    && rx.active && WellFormed(DEFAULT_LIMITS, rx.key, ps, data)
    && Solo(DEFAULT_LIMITS, rx.reasm, rx.key) && Tracks(Job(ps, data), i, rx.reasm.partial, rx.key)
  }

  /** Piece `i` moved the receiver on, or was the last and completed the transfer. */
  ghost predicate Advanced(m: Heard, rx: Rx, ps: seq<Piece>, data: Bytes, i: nat) {
    && m.status == Status.OK
    && (i < |ps| - 1 ==> m.taken == [] && m.rx.key == rx.key && m.rx.sb == rx.sb && Receiving(m.rx, ps, data, i + 1))
    && (i == |ps| - 1 ==> m.rx == Reset(rx) && m.taken == [Intake(rx.key.channel, rx.key.requestId, rx.sb, data)])
  }

  lemma ContinueOne(rx: Rx, ps: seq<Piece>, data: Bytes, i: nat)
    requires Receiving(rx, ps, data, i) && i < |ps|
    ensures Advanced(Continue(rx, Accept(DEFAULT_LIMITS, rx.reasm, ps[i].h, ps[i].payload)), rx, ps, data, i)
  {
    SoloPiece(DEFAULT_LIMITS, rx.reasm, rx.key, Job(ps, data), i);
  }

  lemma ContinuationIsOne(attachId: u32, rx: Rx, rec: Bytes, ps: seq<Piece>, data: Bytes, i: nat)
    requires Receiving(rx, ps, data, i) && 0 < i < |ps|
    requires FramedAt(rec, ps[i], ps[i].payload) && TypedAt(ps[i].h, i, T_SUBMIT, 0, attachId)
    ensures Advanced(OnRecord(attachId, rx, rec), rx, ps, data, i)
  {
    OneMessage(attachId, rx, rec, ps[i], ps[i].payload);
    DataContinues(attachId, rx, ps, data, i);
    ContinueOne(rx, ps, data, i);
  }

  lemma DataContinues(attachId: u32, rx: Rx, ps: seq<Piece>, data: Bytes, i: nat)
    requires rx.active && WellFormed(DEFAULT_LIMITS, rx.key, ps, data) && 0 < i < |ps| && ps[i].h.bodyLen == |ps[i].payload|
    requires TypedAt(ps[i].h, i, T_SUBMIT, 0, attachId)
    ensures OnMessage(attachId, rx, ps[i].h, |ps[i].payload|, ps[i].payload)
         == Continue(rx, Accept(DEFAULT_LIMITS, rx.reasm, ps[i].h, ps[i].payload))
  {
    assert PieceOk(rx.key, ps, data, i);
    PieceHeaderOk(DEFAULT_LIMITS, rx.key, ps, data, i, attachId, ps[i].payload);
  }

  lemma RecordsStep(attachId: u32, rx: Rx, recs: seq<Bytes>, i: nat)
    requires i < |recs|
    ensures var m := OnRecord(attachId, rx, recs[i]);
            OnRecords(attachId, rx, recs[i..]) == if IsFatal(m.status) then m else AfterTaking(m.taken, OnRecords(attachId, m.rx, recs[i + 1..]))
  {
    assert recs[i..][0] == recs[i] && recs[i..][1..] == recs[i + 1..];
  }

  /** One continuation: the rest of the records meet the receiver `next`, or the transfer is whole. */
  lemma TailStep(attachId: u32, rx: Rx, recs: seq<Bytes>, ps: seq<Piece>, data: Bytes, i: nat) returns (next: Rx)
    requires Receiving(rx, ps, data, i) && 0 < i < |ps| == |recs|
    requires FramedAt(recs[i], ps[i], ps[i].payload) && TypedAt(ps[i].h, i, T_SUBMIT, 0, attachId)
    ensures i < |ps| - 1 ==>
      && Receiving(next, ps, data, i + 1) && next.key == rx.key && next.sb == rx.sb
      && OnRecords(attachId, rx, recs[i..]) == OnRecords(attachId, next, recs[i + 1..])
    ensures i == |ps| - 1 ==>
      OnRecords(attachId, rx, recs[i..]) == Heard(Reset(rx), [Intake(rx.key.channel, rx.key.requestId, rx.sb, data)], Status.OK)
  {
    ContinuationIsOne(attachId, rx, recs[i], ps, data, i);
    RecordsStep(attachId, rx, recs, i);
    var m := OnRecord(attachId, rx, recs[i]);
    next := m.rx;
    var rest := OnRecords(attachId, m.rx, recs[i + 1..]);
    if i == |ps| - 1 { assert recs[i + 1..] == []; } else { assert [] + rest.taken == rest.taken; }
  }

  /** The continuations of a transfer already begun. */
  lemma {:induction false} OutTail(attachId: u32, rx: Rx, recs: seq<Bytes>, ps: seq<Piece>, body: Bytes, data: Bytes, i: nat)
    requires Framed(recs, ps, body) && Typed(ps, T_SUBMIT, 0, attachId) && Receiving(rx, ps, data, i) && 0 < i < |ps|
    ensures OnRecords(attachId, rx, recs[i..])
         == Heard(Reset(rx), [Intake(rx.key.channel, rx.key.requestId, rx.sb, data)], Status.OK)
    decreases |ps| - i
  {
    assert FramedAt(recs[i], ps[i], BodyAt(body, ps[i].payload, i)) && TypedAt(ps[i].h, i, T_SUBMIT, 0, attachId);
    assert BodyAt(body, ps[i].payload, i) == ps[i].payload;
    var next := TailStep(attachId, rx, recs, ps, data, i);
    if i < |ps| - 1 { OutTail(attachId, next, recs, ps, body, data, i + 1); }
  }

  /** The exporter takes this SUBMIT: its fields agree with each other and with the bytes that follow. */
  predicate Sendable(call: Call) {
    && call.dir <= 1 && call.xferType <= INTERRUPT && call.bufferLen <= TRANSFER_BYTES_DEFAULT
    && (call.epAddr % 16 != 0 ==> call.dir == call.epAddr / 128)
    && (call.dir == DIR_OUT ==> |call.dataOut| == call.bufferLen)
  }

  function IntakeOf(call: Call, key: Key): Intake { Intake(key.channel, key.requestId, BodyOf(call), OutData(call)) }

  /** The importer's call and what the exporter is asked to believe about it. */
  lemma SendableExactly(h: Header, call: Call)
    requires h.totalLen == |OutData(call)|
    ensures SubmitRule(h, BodyOf(call), TRANSFER_BYTES_DEFAULT) == Status.OK <==> Sendable(call)
  {}

  /** The first record of a sendable call. */
  lemma OutHead(attachId: u32, rx: Rx, rec: Bytes, ps: seq<Piece>, call: Call, key: Key)
    requires !rx.active && Sendable(call) && WellFormed(DEFAULT_LIMITS, key, ps, OutData(call)) && (OutData(call) == [] ==> |ps| == 1)
    requires FramedAt(rec, ps[0], SubmitBytes(BodyOf(call)) + ps[0].payload) && TypedAt(ps[0].h, 0, T_SUBMIT, 0, attachId)
    ensures var m := OnRecord(attachId, rx, rec);
            && m.status == Status.OK
            && (|ps| == 1 ==> m.rx == rx && m.taken == [IntakeOf(call, key)])
            && (|ps| > 1 ==> m.taken == [] && m.rx.key == key && m.rx.sb == BodyOf(call) && Receiving(m.rx, ps, OutData(call), 1))
  {
    var b, h := SubmitBytes(BodyOf(call)) + ps[0].payload, ps[0].h;
    assert PieceOk(key, ps, OutData(call), 0);
    OneMessage(attachId, rx, rec, ps[0], b);
    PieceHeaderOk(DEFAULT_LIMITS, key, ps, OutData(call), 0, attachId, b);
    SubmitRoundTrip(BodyOf(call), ps[0].payload);
    assert b[BODY_SUBMIT..] == ps[0].payload;
    SendableExactly(h, call);
    assert OnMessage(attachId, rx, h, |b|, b) == TakeSubmit(rx, h, BodyOf(call), ps[0].payload);
    HeadTaken(rx, ps, call, key);
  }

  lemma HeadTaken(rx: Rx, ps: seq<Piece>, call: Call, key: Key)
    requires !rx.active && Sendable(call) && WellFormed(DEFAULT_LIMITS, key, ps, OutData(call)) && (OutData(call) == [] ==> |ps| == 1)
    ensures var m := TakeSubmit(rx, ps[0].h, BodyOf(call), ps[0].payload);
            && m.status == Status.OK
            && (|ps| == 1 ==> m.rx == rx && m.taken == [IntakeOf(call, key)])
            && (|ps| > 1 ==> m.taken == [] && m.rx.key == key && m.rx.sb == BodyOf(call) && Receiving(m.rx, ps, OutData(call), 1))
  {
    assert PieceOk(key, ps, OutData(call), 0);
    SendableExactly(ps[0].h, call);
    assert Through(ps, 0) == [];
    if |ps| == 1 {
      assert Through(ps, 1) == Through(ps, 0) + ps[0].payload == ps[0].payload;
    } else {
      assert Sizes(EMPTY.partial) == map[];
      SoloPiece(DEFAULT_LIMITS, EMPTY, key, Job(ps, OutData(call)), 0);
    }
  }

  /** The receiver idles through the continuations of a call it refused. */
  lemma {:induction false} RefusedTail(attachId: u32, rx: Rx, recs: seq<Bytes>, ps: seq<Piece>, body: Bytes, i: nat)
    requires Framed(recs, ps, body) && Typed(ps, T_SUBMIT, 0, attachId) && !rx.active && 0 < i <= |ps|
    ensures var m := OnRecords(attachId, rx, recs[i..]); m.taken == [] && m.rx == rx
    decreases |ps| - i
  {
    if i < |ps| {
      var b := BodyAt(body, ps[i].payload, i);
      assert FramedAt(recs[i], ps[i], b) && TypedAt(ps[i].h, i, T_SUBMIT, 0, attachId);
      OneMessage(attachId, rx, recs[i], ps[i], b);
      RecordsStep(attachId, rx, recs, i);
      RefusedTail(attachId, rx, recs, ps, body, i + 1);
    } else {
      assert recs[i..] == [];
    }
  }

  lemma RefusedHead(attachId: u32, rx: Rx, rec: Bytes, p: Piece, call: Call)
    requires !rx.active && !Sendable(call) && p.h.totalLen == |OutData(call)|
    requires FramedAt(rec, p, SubmitBytes(BodyOf(call)) + p.payload) && TypedAt(p.h, 0, T_SUBMIT, 0, attachId)
    ensures var m := OnRecord(attachId, rx, rec); m.taken == [] && m.rx == rx
  {
    var b := SubmitBytes(BodyOf(call)) + p.payload;
    OneMessage(attachId, rx, rec, p, b);
    SubmitRoundTrip(BodyOf(call), p.payload);
    SendableExactly(p.h, call);
  }

  /** An empty transfer is one record. */
  lemma EmptyIsOne(base: Header, body: Bytes, data: Bytes, max: u32)
    requires Sized(data) && max > 0 && data == []
    ensures |PiecesOf(base, body, data, max)| == 1
  {}

  /**
   * The records of one submit, whatever size the link allows, become exactly one transfer with the
   * call's own fields and bytes; the receiver is idle again. A call whose fields contradict each
   * other, or that is too large, becomes none.
   */
  lemma SubmitArrivesWhole(c: Config, rx: Rx, call: Call, key: Key, maxPlain: u32)
    requires !rx.active && Sized(OutData(call)) && maxPlain > HEADER_SIZE + BODY_SUBMIT
    ensures var m := OnRecords(c.attachId, rx, SubmitRecords(c, call, key, maxPlain));
            && !m.rx.active && (Sendable(call) ==> m.status == Status.OK)
            && m.taken == if Sendable(call) then [IntakeOf(call, key)] else []
  {
    var base, body, data, max := SubmitHeader(c, key), SubmitBytes(BodyOf(call)), OutData(call), MaxSegment(maxPlain);
    var recs, ps := Records(base, body, data, max), PiecesOf(base, body, data, max);
    RecordsFramed(base, body, data, max);
    assert recs[0..] == recs;
    assert FramedAt(recs[0], ps[0], BodyAt(body, ps[0].payload, 0)) && TypedAt(ps[0].h, 0, T_SUBMIT, 0, c.attachId);
    if Sendable(call) {
      PiecesWellFormed(DEFAULT_LIMITS, base, body, data, max);
      if data == [] { EmptyIsOne(base, body, data, max); }
      WholeTaken(c.attachId, rx, recs, ps, call, key);
    } else {
      assert ps[0] == PieceOf(base, body, data, PlanOf(data, max)[0], 0);
      RefusedHead(c.attachId, rx, recs[0], ps[0], call);
      RefusedTail(c.attachId, rx, recs, ps, body, 1);
    }
  }

  lemma WholeTaken(attachId: u32, rx: Rx, recs: seq<Bytes>, ps: seq<Piece>, call: Call, key: Key)
    requires !rx.active && Sendable(call) && WellFormed(DEFAULT_LIMITS, key, ps, OutData(call)) && (OutData(call) == [] ==> |ps| == 1)
    requires Framed(recs, ps, SubmitBytes(BodyOf(call))) && Typed(ps, T_SUBMIT, 0, attachId)
    ensures var m := OnRecords(attachId, rx, recs); m.status == Status.OK && !m.rx.active && m.taken == [IntakeOf(call, key)]
  {
    var body := SubmitBytes(BodyOf(call));
    assert FramedAt(recs[0], ps[0], BodyAt(body, ps[0].payload, 0)) && TypedAt(ps[0].h, 0, T_SUBMIT, 0, attachId);
    OutHead(attachId, rx, recs[0], ps, call, key);
    var m := OnRecord(attachId, rx, recs[0]);
    if |ps| > 1 {
      OutTail(attachId, m.rx, recs, ps, body, OutData(call), 1);
    } else {
      assert recs[1..] == [];
    }
  }
}
