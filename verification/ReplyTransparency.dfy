/** Device to importer: the answer the exporter sends is the outcome the caller of `submit` is told. */
module ReplyTransparency {
  import opened Wire
  import Status
  import opened Codec
  import opened Validate
  import opened Segmentation
  import opened Reassembly
  import Scheduler
  import opened Importing
  import opened ImporterAccounting
  import opened SegmentRoundTrip
  import opened OutTransparency

  type Answer = a: Scheduler.Answer | a.Complete? witness Scheduler.Complete(0, 0, 0, 0, CompleteBody(0, 0, 0, 0, 0, 0, 0, 0, 0, 0, 0, 0), [])

  function KeyFor(a: Answer): Key { Key(a.channel, a.requestId) }

  function ReplyHeader(attachId: u32, a: Answer): Header {
    Header(T_COMPLETE, 0, a.channel, 0, attachId, 0, a.requestId, a.status, 0, 0)
  }

  /** emitComplete's records, on a link whose records hold `maxPlain` bytes. */
  ghost function ReplyRecords(attachId: u32, a: Answer, maxPlain: u32): seq<Bytes>
    requires maxPlain > HEADER_SIZE + BODY_COMPLETE
  {
    Records(ReplyHeader(attachId, a), CompleteBytes(a.body), a.payload, maxPlain - HEADER_SIZE - BODY_COMPLETE)
  }

  /** pump(): records are taken until one is fatal. */
  function ReceiveAll(c: Config, s: Importer, recs: seq<Bytes>): Handled
    decreases |recs|
  {
    if recs == [] then Handled(s, Status.OK)
    else
      var m := Receive(c, s, recs[0]);
      if m.status != Status.OK then m else ReceiveAll(c, m.s, recs[1..])
  }

  lemma ReceiveStep(c: Config, s: Importer, recs: seq<Bytes>, i: nat)
    requires i < |recs|
    ensures var m := Receive(c, s, recs[i]);
            ReceiveAll(c, s, recs[i..]) == if m.status != Status.OK then m else ReceiveAll(c, m.s, recs[i + 1..])
  {
    assert recs[i..][0] == recs[i] && recs[i..][1..] == recs[i + 1..];
  }

  lemma ReceiveIsDispatch(c: Config, s: Importer, rec: Bytes, p: Piece, b: Bytes)
    requires FramedAt(rec, p, b)
    ensures Receive(c, s, rec) == Dispatch(c, s, p.h, |b|, b)
  {}

  // ---------------------------------------------------------------- an answer that matches its request

  /** The answer speaks of this request and its three lengths agree. */
  ghost predicate Matching(c: Config, req: Request, a: Answer) {
    var b := a.body;
    && req.key == KeyFor(a) && req.id == Identity(c.attachId, b.epAddr, b.xferType, b.dir, b.requestedLen)
    && b.dir <= 1 && b.xferType <= INTERRUPT && b.reserved == 0 && b.isoPktCount == 0
    && b.payloadLen == |a.payload| && b.actualLen <= b.requestedLen
    && (if b.dir == DIR_IN then b.actualLen == |a.payload| else a.payload == [])
  }

  function DeliveryOf(req: Request, a: Answer): Delivery {
    Delivery(req, a.status, a.body.actualLen, a.body.IsShort(), a.payload, Some(req.id))
  }

  /** Whatever the device reported, an answer that is not the overrun error matches the request behind it. */
  lemma AnswersMatch(c: Config, call: Call, key: Key, now: nat, f: Scheduler.InFlight,
                     st: u16, actualLen: u32, cancelled: bool, zlpSent: bool, payload: Bytes)
    requires Sendable(call) && f.req == IntakeOf(call, key) && Sized(payload)
    requires Scheduler.MakeAnswer(f, st, actualLen, cancelled, zlpSent, payload).Complete?
    ensures var a: Answer := Scheduler.MakeAnswer(f, st, actualLen, cancelled, zlpSent, payload);
            && Matching(c, RequestFor(c, call, key, now), a) && a.status == st
            && a.payload == (if call.dir == DIR_IN then payload else [])
            && a.body.actualLen == (if call.dir == DIR_IN then |payload| else actualLen)
            && a.body.IsShort() == (st == Status.OK && a.body.actualLen < call.bufferLen)
  {
    SizedTrunc(payload);
  }

  lemma MatchingPasses(c: Config, req: Request, a: Answer, h: Header)
    requires Matching(c, req, a) && h.totalLen == |a.payload| && h.attachId == c.attachId
    ensures CompleteRule(h, a.body) == Status.OK && EchoOf(h, a.body) == req.id
  {}

  // ---------------------------------------------------------------- one record

  /** The first record of a reply, before it is known whether it is the only one. */
  lemma FirstRecord(c: Config, s: Importer, rec: Bytes, p: Piece, a: Answer)
    requires KeyFor(a) in s.table && Matching(c, s.table[KeyFor(a)], a)
    requires KeyOf(p.h) == KeyFor(a) && p.h.totalLen == |a.payload| && TypedAt(p.h, 0, T_COMPLETE, a.status, c.attachId)
    requires FramedAt(rec, p, CompleteBytes(a.body) + p.payload)
    ensures Receive(c, s, rec) ==
            if p.h.SegMore() then FirstReply(c, s, p.h, a.body, p.payload)
            else SingleReply(s, s.table[KeyFor(a)], p.h, a.body, p.payload)
  {
    var b := CompleteBytes(a.body) + p.payload;
    ReceiveIsDispatch(c, s, rec, p, b);
    CompleteRoundTrip(a.body, p.payload);
    assert b[BODY_COMPLETE..] == p.payload;
    MatchingPasses(c, s.table[KeyFor(a)], a, p.h);
  }

  // ---------------------------------------------------------------- continuations

  /** Only this reply is under way, and the first `i` pieces of it are in. */
  ghost predicate Awaiting(c: Config, s: Importer, a: Answer, ps: seq<Piece>, i: nat) {
    var key := KeyFor(a);
    && key in s.table && s.table[key].key == key && Matching(c, s.table[key], a)
    && s.replies == map[key := PendingReply(a.status, a.body.actualLen, a.body.IsShort(), s.table[key].id)]
    && Solo(LimitsOf(c), s.reasm, key) && Tracks(Job(ps, a.payload), i, s.reasm.partial, key)
  }

  ghost predicate Roomy(c: Config, a: Answer, ps: seq<Piece>) { WellFormed(LimitsOf(c), KeyFor(a), ps, a.payload) }

  lemma TimesAtLeastOne(m: nat, n: nat)
    requires n > 0
    ensures m * n >= m
  {
    assert m * n == m + m * (n - 1);
    Product(m, n - 1);
  }

  lemma Product(m: nat, n: nat)
    ensures m * n >= 0
  {}

  lemma LimitsHold(c: Config, a: Answer)
    requires |a.payload| <= c.maxTransferBytes
    ensures |a.payload| <= LimitsOf(c).maxTransferBytes <= LimitsOf(c).arenaBytes && LimitsOf(c).maxInFlight > 0
  {
    TimesAtLeastOne(c.maxTransferBytes, if c.maxInFlight == 0 then 1 else c.maxInFlight);
  }

  lemma DataIsContinued(c: Config, s: Importer, a: Answer, rec: Bytes, ps: seq<Piece>, i: nat)
    requires Awaiting(c, s, a, ps, i) && Roomy(c, a, ps) && 0 < i < |ps|
    requires FramedAt(rec, ps[i], ps[i].payload) && TypedAt(ps[i].h, i, T_COMPLETE, a.status, c.attachId)
    ensures Receive(c, s, rec) == Continued(s, KeyFor(a), Accept(LimitsOf(c), s.reasm, ps[i].h, ps[i].payload))
  {
    assert PieceOk(KeyFor(a), ps, a.payload, i);
    ThroughWithin(ps, i);
    ReceiveIsDispatch(c, s, rec, ps[i], ps[i].payload);
    assert KeyFor(a) in s.replies;
  }

  /** The state once the reply has been delivered and nothing is under way. */
  ghost predicate Delivered(c: Config, s: Importer, t: Importer, a: Answer) {
    && KeyFor(a) in s.table && SameBooks(Deliver(s, DeliveryOf(s.table[KeyFor(a)], a)), t) && t.replies == map[]
  }

  lemma ContinuedOne(c: Config, s: Importer, a: Answer, ps: seq<Piece>, i: nat)
    requires Awaiting(c, s, a, ps, i) && Roomy(c, a, ps) && 0 < i < |ps|
    ensures var m := Continued(s, KeyFor(a), Accept(LimitsOf(c), s.reasm, ps[i].h, ps[i].payload));
            && m.status == Status.OK
            && (i < |ps| - 1 ==> SameBooks(s, m.s) && Awaiting(c, m.s, a, ps, i + 1))
            && (i == |ps| - 1 ==> Delivered(c, s, m.s, a))
  {
    LimitsHold(c, a);
    SoloPiece(LimitsOf(c), s.reasm, KeyFor(a), Job(ps, a.payload), i);
    assert s.replies - {KeyFor(a)} == map[];
  }

  /** One continuation: the rest of the records meet `next`, or the reply is delivered. */
  lemma ReplyStep(c: Config, s: Importer, a: Answer, recs: seq<Bytes>, ps: seq<Piece>, i: nat) returns (next: Importer)
    requires Awaiting(c, s, a, ps, i) && Roomy(c, a, ps) && 0 < i < |ps| == |recs|
    requires FramedAt(recs[i], ps[i], ps[i].payload) && TypedAt(ps[i].h, i, T_COMPLETE, a.status, c.attachId)
    ensures i < |ps| - 1 ==>
      && SameBooks(s, next) && Awaiting(c, next, a, ps, i + 1)
      && ReceiveAll(c, s, recs[i..]) == ReceiveAll(c, next, recs[i + 1..])
    ensures i == |ps| - 1 ==>
      Delivered(c, s, next, a) && ReceiveAll(c, s, recs[i..]) == Handled(next, Status.OK)
  {
    DataIsContinued(c, s, a, recs[i], ps, i);
    ContinuedOne(c, s, a, ps, i);
    ReceiveStep(c, s, recs, i);
    next := Receive(c, s, recs[i]).s;
    if i == |ps| - 1 { assert recs[i + 1..] == []; }
  }

  lemma {:induction false} ReplyTail(c: Config, s: Importer, a: Answer, recs: seq<Bytes>, ps: seq<Piece>, i: nat)
    requires Framed(recs, ps, CompleteBytes(a.body)) && Typed(ps, T_COMPLETE, a.status, c.attachId)
    requires Awaiting(c, s, a, ps, i) && Roomy(c, a, ps) && 0 < i < |ps|
    ensures var m := ReceiveAll(c, s, recs[i..]); m.status == Status.OK && Delivered(c, s, m.s, a)
    decreases |ps| - i
  {
    var body := CompleteBytes(a.body);
    assert FramedAt(recs[i], ps[i], BodyAt(body, ps[i].payload, i)) && TypedAt(ps[i].h, i, T_COMPLETE, a.status, c.attachId);
    assert BodyAt(body, ps[i].payload, i) == ps[i].payload;
    var next := ReplyStep(c, s, a, recs, ps, i);
    if i < |ps| - 1 { ReplyTail(c, next, a, recs, ps, i + 1); }
  }

  // ---------------------------------------------------------------- the whole reply

  lemma FirstIsAwaited(c: Config, s: Importer, a: Answer, ps: seq<Piece>)
    requires Wiring(c, s) && s.replies == map[] && Roomy(c, a, ps) && |ps| > 1
    requires KeyFor(a) in s.table && s.table[KeyFor(a)].key == KeyFor(a) && Matching(c, s.table[KeyFor(a)], a)
    requires TypedAt(ps[0].h, 0, T_COMPLETE, a.status, c.attachId)
    ensures var m := FirstReply(c, s, ps[0].h, a.body, ps[0].payload);
            m.status == Status.OK && SameBooks(s, m.s) && Awaiting(c, m.s, a, ps, 1)
  {
    LimitsHold(c, a);
    assert PieceOk(KeyFor(a), ps, a.payload, 0);
    MatchingPasses(c, s.table[KeyFor(a)], a, ps[0].h);
    assert s.reasm.partial.Keys == {};
    assert Tracks(Job(ps, a.payload), 0, s.reasm.partial, KeyFor(a));
    SoloPiece(LimitsOf(c), s.reasm, KeyFor(a), Job(ps, a.payload), 0);
  }

  lemma OnlyIsDelivered(c: Config, s: Importer, a: Answer, ps: seq<Piece>)
    requires s.replies == map[] && Roomy(c, a, ps) && |ps| == 1
    requires KeyFor(a) in s.table && s.table[KeyFor(a)].key == KeyFor(a) && Matching(c, s.table[KeyFor(a)], a)
    requires TypedAt(ps[0].h, 0, T_COMPLETE, a.status, c.attachId)
    ensures var m := SingleReply(s, s.table[KeyFor(a)], ps[0].h, a.body, ps[0].payload);
            m.status == Status.OK && Delivered(c, s, m.s, a)
  {
    assert PieceOk(KeyFor(a), ps, a.payload, 0);
    assert Through(ps, 1) == Through(ps, 0) + ps[0].payload == ps[0].payload;
    assert ps[0].payload[..|a.payload|] == a.payload;
  }

  lemma PiecesDelivered(c: Config, s: Importer, a: Answer, recs: seq<Bytes>, ps: seq<Piece>)
    requires Wiring(c, s) && s.replies == map[] && Roomy(c, a, ps)
    requires KeyFor(a) in s.table && s.table[KeyFor(a)].key == KeyFor(a) && Matching(c, s.table[KeyFor(a)], a)
    requires Framed(recs, ps, CompleteBytes(a.body)) && Typed(ps, T_COMPLETE, a.status, c.attachId)
    ensures var m := ReceiveAll(c, s, recs); m.status == Status.OK && Delivered(c, s, m.s, a)
  {
    assert FramedAt(recs[0], ps[0], BodyAt(CompleteBytes(a.body), ps[0].payload, 0)) && TypedAt(ps[0].h, 0, T_COMPLETE, a.status, c.attachId);
    assert PieceOk(KeyFor(a), ps, a.payload, 0) && recs[0..] == recs;
    FirstRecord(c, s, recs[0], ps[0], a);
    ReceiveStep(c, s, recs, 0);
    if |ps| > 1 {
      FirstIsAwaited(c, s, a, ps);
      ReplyTail(c, Receive(c, s, recs[0]).s, a, recs, ps, 1);
    } else {
      OnlyIsDelivered(c, s, a, ps);
      assert recs[1..] == [];
    }
  }

  /**
   * However many records carried it, an answer to an outstanding request is delivered once, with
   * the device's status, length and bytes, and leaves nothing half-received behind.
   */
  lemma ReplyArrivesWhole(c: Config, s: Importer, a: Answer, maxPlain: u32)
    requires Inv(c, s) && s.replies == map[] && KeyFor(a) in s.table && Matching(c, s.table[KeyFor(a)], a)
    requires |a.payload| <= c.maxTransferBytes && maxPlain > HEADER_SIZE + BODY_COMPLETE
    ensures var m := ReceiveAll(c, s, ReplyRecords(c.attachId, a, maxPlain)); m.status == Status.OK && Delivered(c, s, m.s, a)
  {
    var base, body, max := ReplyHeader(c.attachId, a), CompleteBytes(a.body), maxPlain - HEADER_SIZE - BODY_COMPLETE;
    RecordsFramed(base, body, a.payload, max);
    PiecesWellFormed(LimitsOf(c), base, body, a.payload, max);
    PiecesDelivered(c, s, a, Records(base, body, a.payload, max), PiecesOf(base, body, a.payload, max));
  }

  // ---------------------------------------------------------------- late replies

  /**
   * A reply to a request that is already retired: ignored if it fits one record, fatal to the
   * session if it does not, because its second record continues nothing.
   */
  lemma LateReplyHarmlessExactlyWhenShort(c: Config, s: Importer, req: Request, a: Answer, maxPlain: u32)
    requires KeyFor(a) !in s.table && KeyFor(a) !in s.replies && Matching(c, req, a)
    requires |a.payload| <= c.maxTransferBytes && maxPlain > HEADER_SIZE + BODY_COMPLETE
    ensures ReceiveAll(c, s, ReplyRecords(c.attachId, a, maxPlain))
         == Handled(s, if |a.payload| <= maxPlain - HEADER_SIZE - BODY_COMPLETE then Status.OK else Status.MALFORMED_FRAME)
  {
    var base, body, max := ReplyHeader(c.attachId, a), CompleteBytes(a.body), maxPlain - HEADER_SIZE - BODY_COMPLETE;
    var recs, ps := Records(base, body, a.payload, max), PiecesOf(base, body, a.payload, max);
    RecordsFramed(base, body, a.payload, max);
    PiecesWellFormed(LimitsOf(c), base, body, a.payload, max);
    OnePieceExactly(base, body, a.payload, max);
    LateRecords(c, s, req, a, recs, ps);
  }

  /** A transfer is one record exactly when it fits one. */
  lemma OnePieceExactly(base: Header, body: Bytes, data: Bytes, max: u32)
    requires Sized(data) && max > 0
    ensures |PiecesOf(base, body, data, max)| == 1 <==> |data| <= max
  {
    var p := PlanOf(data, max);
    assert Fitted(p, 0, 0, max);
    if |p| > 1 {
      assert Fitted(p, 1, 0, max);
      PlanCovers(|data|, max);
      if data != [] { assert p[1].length > 0 && Fits(p[1], data); }
    }
  }

  lemma LateRecords(c: Config, s: Importer, req: Request, a: Answer, recs: seq<Bytes>, ps: seq<Piece>)
    requires KeyFor(a) !in s.table && KeyFor(a) !in s.replies && Matching(c, req, a) && Roomy(c, a, ps)
    requires Framed(recs, ps, CompleteBytes(a.body)) && Typed(ps, T_COMPLETE, a.status, c.attachId)
    ensures ReceiveAll(c, s, recs) == Handled(s, if |ps| == 1 then Status.OK else Status.MALFORMED_FRAME)
  {
    assert FramedAt(recs[0], ps[0], BodyAt(CompleteBytes(a.body), ps[0].payload, 0)) && TypedAt(ps[0].h, 0, T_COMPLETE, a.status, c.attachId);
    assert PieceOk(KeyFor(a), ps, a.payload, 0) && recs[0..] == recs;
    LateFirst(c, s, req, a, recs[0], ps[0]);
    ReceiveStep(c, s, recs, 0);
    if |ps| > 1 {
      assert FramedAt(recs[1], ps[1], BodyAt(CompleteBytes(a.body), ps[1].payload, 1)) && TypedAt(ps[1].h, 1, T_COMPLETE, a.status, c.attachId);
      assert BodyAt(CompleteBytes(a.body), ps[1].payload, 1) == ps[1].payload;
      LateSecond(c, s, a, recs[1], ps);
      ReceiveStep(c, s, recs, 1);
    } else {
      assert recs[1..] == [];
    }
  }

  lemma LateSecond(c: Config, s: Importer, a: Answer, rec: Bytes, ps: seq<Piece>)
    requires KeyFor(a) !in s.replies && Roomy(c, a, ps) && |ps| > 1
    requires FramedAt(rec, ps[1], ps[1].payload) && TypedAt(ps[1].h, 1, T_COMPLETE, a.status, c.attachId)
    ensures Receive(c, s, rec) == Handled(s, Status.MALFORMED_FRAME)
  {
    assert PieceOk(KeyFor(a), ps, a.payload, 1);
    ThroughWithin(ps, 1);
    ReceiveIsDispatch(c, s, rec, ps[1], ps[1].payload);
  }

  lemma LateFirst(c: Config, s: Importer, req: Request, a: Answer, rec: Bytes, p: Piece)
    requires KeyFor(a) !in s.table && Matching(c, req, a) && KeyOf(p.h) == KeyFor(a) && p.h.totalLen == |a.payload|
    requires FramedAt(rec, p, CompleteBytes(a.body) + p.payload) && TypedAt(p.h, 0, T_COMPLETE, a.status, c.attachId)
    ensures Receive(c, s, rec) == Handled(s, Status.OK)
  {
    ReceiveIsDispatch(c, s, rec, p, CompleteBytes(a.body) + p.payload);
    CompleteRoundTrip(a.body, p.payload);
    MatchingPasses(c, req, a, p.h);
  }

  // ---------------------------------------------------------------- many replies, and the round trip

  /** Every answer is for a different outstanding request, and matches it. */
  ghost predicate Expected(c: Config, s: Importer, answers: seq<Answer>) {
    && (forall i :: 0 <= i < |answers| ==> ExpectedOne(c, s, answers[i]))
    && (forall i, j :: 0 <= i < j < |answers| ==> KeyFor(answers[i]) != KeyFor(answers[j]))
  }

  ghost predicate ExpectedOne(c: Config, s: Importer, a: Answer) {
    KeyFor(a) in s.table && Matching(c, s.table[KeyFor(a)], a) && |a.payload| <= c.maxTransferBytes
  }

  ghost function StreamOf(attachId: u32, answers: seq<Answer>, maxPlain: u32): seq<Bytes>
    requires maxPlain > HEADER_SIZE + BODY_COMPLETE
  {
    if answers == [] then [] else ReplyRecords(attachId, answers[0], maxPlain) + StreamOf(attachId, answers[1..], maxPlain)
  }

  ghost function DeliveriesOf(s: Importer, answers: seq<Answer>): seq<Delivery>
    requires forall i :: 0 <= i < |answers| ==> KeyFor(answers[i]) in s.table
  {
    if answers == [] then []
    else [DeliveryOf(s.table[KeyFor(answers[0])], answers[0])] + DeliveriesOf(s, answers[1..])
  }

  lemma ReceiveCons(c: Config, s: Importer, rec: Bytes, recs: seq<Bytes>)
    ensures var m := Receive(c, s, rec);
            ReceiveAll(c, s, [rec] + recs) == if m.status != Status.OK then m else ReceiveAll(c, m.s, recs)
  {
    assert ([rec] + recs)[1..] == recs;
  }

  lemma {:induction false} ReceiveConcat(c: Config, s: Importer, a: seq<Bytes>, b: seq<Bytes>)
    requires ReceiveAll(c, s, a).status == Status.OK
    ensures ReceiveAll(c, s, a + b) == ReceiveAll(c, ReceiveAll(c, s, a).s, b)
    decreases |a|
  {
    if a == [] {
      assert a + b == b;
    } else {
      assert [a[0]] + a[1..] == a && [a[0]] + (a[1..] + b) == a + b;
      ReceiveCons(c, s, a[0], a[1..]);
      ReceiveCons(c, s, a[0], a[1..] + b);
      ReceiveConcat(c, Receive(c, s, a[0]).s, a[1..], b);
    }
  }

  lemma {:induction false} SameDeliveries(s: Importer, t: Importer, answers: seq<Answer>)
    requires forall i :: 0 <= i < |answers| ==>
      KeyFor(answers[i]) in s.table && KeyFor(answers[i]) in t.table && t.table[KeyFor(answers[i])] == s.table[KeyFor(answers[i])]
    ensures DeliveriesOf(s, answers) == DeliveriesOf(t, answers)
    decreases |answers|
  {
    if answers != [] { SameDeliveries(s, t, answers[1..]); }
  }

  lemma {:induction false} ReceiveAllInv(c: Config, s: Importer, recs: seq<Bytes>)
    requires Inv(c, s)
    ensures Inv(c, ReceiveAll(c, s, recs).s)
    decreases |recs|
  {
    if recs != [] {
      UnframedInv(c, s, Unframe(recs[0]));
      if Receive(c, s, recs[0]).status == Status.OK { ReceiveAllInv(c, Receive(c, s, recs[0]).s, recs[1..]); }
    }
  }

  /** The first answer of a stream is delivered, and the rest of the stream meets the state `t`. */
  lemma FirstOfStream(c: Config, s: Importer, answers: seq<Answer>, maxPlain: u32) returns (t: Importer)
    requires Inv(c, s) && s.replies == map[] && Expected(c, s, answers) && answers != [] && maxPlain > HEADER_SIZE + BODY_COMPLETE
    ensures Inv(c, t) && t.replies == map[] && Expected(c, t, answers[1..])
    ensures forall i :: 0 <= i < |answers| ==> KeyFor(answers[i]) in s.table
    ensures t.delivered + DeliveriesOf(t, answers[1..]) == s.delivered + DeliveriesOf(s, answers)
    ensures ReceiveAll(c, s, StreamOf(c.attachId, answers, maxPlain)) == ReceiveAll(c, t, StreamOf(c.attachId, answers[1..], maxPlain))
  {
    var recs := ReplyRecords(c.attachId, answers[0], maxPlain);
    assert ExpectedOne(c, s, answers[0]);
    ReplyArrivesWhole(c, s, answers[0], maxPlain);
    ReceiveAllInv(c, s, recs);
    ReceiveConcat(c, s, recs, StreamOf(c.attachId, answers[1..], maxPlain));
    t := ReceiveAll(c, s, recs).s;
    StillExpected(c, s, t, answers);
    SameDeliveries(s, t, answers[1..]);
    assert forall i :: 0 <= i < |answers| ==> ExpectedOne(c, s, answers[i]);
    DeliveriesJoin(s, t, answers);
  }

  lemma DeliveriesJoin(s: Importer, t: Importer, answers: seq<Answer>)
    requires answers != [] && forall i :: 0 <= i < |answers| ==> KeyFor(answers[i]) in s.table
    requires t.delivered == s.delivered + [DeliveryOf(s.table[KeyFor(answers[0])], answers[0])]
    ensures t.delivered + DeliveriesOf(s, answers[1..]) == s.delivered + DeliveriesOf(s, answers)
  {
    var d, rest := DeliveryOf(s.table[KeyFor(answers[0])], answers[0]), DeliveriesOf(s, answers[1..]);
    assert DeliveriesOf(s, answers) == [d] + rest;
    Regrouped(s.delivered, [d], rest);
  }

  /** A whole stream of answers is delivered answer by answer, in order, each to its own request. */
  lemma {:induction false} RepliesArriveInOrder(c: Config, s: Importer, answers: seq<Answer>, maxPlain: u32)
    requires Inv(c, s) && s.replies == map[] && Expected(c, s, answers) && maxPlain > HEADER_SIZE + BODY_COMPLETE
    ensures forall i :: 0 <= i < |answers| ==> KeyFor(answers[i]) in s.table
    ensures var m := ReceiveAll(c, s, StreamOf(c.attachId, answers, maxPlain));
            m.status == Status.OK && m.s.delivered == s.delivered + DeliveriesOf(s, answers)
    decreases |answers|
  {
    if answers != [] {
      var t := FirstOfStream(c, s, answers, maxPlain);
      RepliesArriveInOrder(c, t, answers[1..], maxPlain);
    }
  }

  lemma StillExpected(c: Config, s: Importer, t: Importer, answers: seq<Answer>)
    requires Inv(c, s) && answers != [] && Expected(c, s, answers) && Delivered(c, s, t, answers[0])
    ensures Expected(c, t, answers[1..])
    ensures forall i :: 0 <= i < |answers[1..]| ==>
      KeyFor(answers[1..][i]) in s.table && KeyFor(answers[1..][i]) in t.table
      && t.table[KeyFor(answers[1..][i])] == s.table[KeyFor(answers[1..][i])]
  {
    forall i | 0 <= i < |answers[1..]|
      ensures ExpectedOne(c, t, answers[1..][i])
      ensures KeyFor(answers[1..][i]) in s.table && KeyFor(answers[1..][i]) in t.table
              && t.table[KeyFor(answers[1..][i])] == s.table[KeyFor(answers[1..][i])]
    {
      assert ExpectedOne(c, s, answers[i + 1]) && KeyFor(answers[0]) != KeyFor(answers[i + 1]);
      assert ExpectedOne(c, s, answers[0]) && s.table[KeyFor(answers[0])].key == KeyFor(answers[0]);
    }
  }
}
