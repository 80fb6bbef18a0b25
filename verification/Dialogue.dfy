/**
 * Both machines at once: an importer that submits and listens in any order, and an exporter whose
 * scheduler runs in any legal way over any port.
 */
module Dialogue {
  import opened Wire
  import Status
  import opened Codec
  import opened Segmentation
  import opened Reassembly
  import opened Scheduler
  import opened SchedulerLedger
  import opened SchedulerSafety
  import opened AnswerSources
  import Importing
  import opened ImporterAccounting
  import opened Reception
  import opened SegmentRoundTrip
  import opened OutTransparency
  import opened ReplyTransparency
  import opened EndToEnd

  /** What the exporter answered, and how large the records are each way; `why` is the text of an error. */
  datatype Link = Link(c: Importing.Config, maxUp: u32, answers: seq<Scheduler.Answer>, maxDown: u32, why: Bytes)

  predicate LinkOk(l: Link) {
    l.maxUp > HEADER_SIZE + BODY_SUBMIT && l.maxDown > HEADER_SIZE + BODY_COMPLETE && Sized(l.why)
  }

  /** The importer makes a submit, or takes the next record off the link. */
  datatype Move = Make(o: Offer) | Hear

  /**
   * The importer, the submits it had accepted, and where it is in the exporter's records: `piece`
   * records into answer `at`.
   */
  datatype Talk = Talk(s: Importing.Importer, made: seq<Offer>, at: nat, piece: nat, status: u16)

  const OPENING := Talk(Importing.FRESH, [], 0, 0, Status.OK)

  ghost function RecordsFor(l: Link, a: Scheduler.Answer): seq<Bytes>
    requires LinkOk(l)
  {
    if a.Complete? then ReplyRecords(l.c.attachId, a, l.maxDown) else [ErrorRecord(l.why)]
  }

  /** Request ids have not run out, and an answer is heard only after its submit was made. */
  ghost predicate CanMove(l: Link, t: Talk, m: Move) {
    match m
    case Make(o) => Importing.IdsLast(l.c, t.s, o.call)
    case Hear => t.at < |l.answers| && l.answers[t.at].serial < |t.made|
  }

  ghost function Heard(l: Link, t: Talk, a: Scheduler.Answer): Talk
    requires LinkOk(l)
  {
    var recs := RecordsFor(l, a);
    if t.piece >= |recs| then t
    else
      var r := Importing.Receive(l.c, t.s, recs[t.piece]);
      if r.status != Status.OK then t.(s := r.s, status := r.status)
      else if t.piece + 1 == |recs| then t.(s := r.s, at := t.at + 1, piece := 0)
      else t.(s := r.s, piece := t.piece + 1)
  }

  ghost function Offered(l: Link, t: Talk, o: Offer): Talk
    requires Importing.IdsLast(l.c, t.s, o.call)
  {
    var r := Taking(l.c, t.s, o, l.maxUp);
    t.(s := r.s, made := if r.status == Status.OK then t.made + [o] else t.made)
  }

  /** A fatal record ends the conversation. */
  ghost function Moved(l: Link, t: Talk, m: Move): Talk
    requires LinkOk(l) && CanMove(l, t, m)
  {
    if t.status != Status.OK then t
    else match m
      case Make(o) => Offered(l, t, o)
      case Hear => Heard(l, t, l.answers[t.at])
  }

  ghost predicate CanTalk(l: Link, t: Talk, moves: seq<Move>)
    requires LinkOk(l)
    decreases |moves|
  {
    moves == [] || (CanMove(l, t, moves[0]) && CanTalk(l, Moved(l, t, moves[0]), moves[1..]))
  }

  ghost function Talked(l: Link, t: Talk, moves: seq<Move>): Talk
    requires LinkOk(l) && CanTalk(l, t, moves)
    decreases |moves|
  {
    if moves == [] then t else Talked(l, Moved(l, t, moves[0]), moves[1..])
  }

  /** The accepted submits, each with its key. */
  ghost function SentIn(t: Talk): (r: seq<Sent>)
    ensures |t.made| <= |t.s.accepted| ==>
              |r| == |t.made| && forall n :: 0 <= n < |r| ==> r[n] == Sent(t.made[n].call, t.s.accepted[n].key)
  {
    seq(Min(|t.made|, |t.s.accepted|), (n: int) requires 0 <= n < |t.made| && n < |t.s.accepted| => Sent(t.made[n].call, t.s.accepted[n].key))
  }

  // ---------------------------------------------------------------- what holds while they talk

  /** Request `n` is the one submit `n` made. */
  ghost predicate Requested(c: Importing.Config, accepted: seq<Importing.Request>, made: seq<Offer>, n: nat) {
    && n < |made| && n < |accepted|
    && accepted[n] == Importing.RequestFor(c, made[n].call, accepted[n].key, made[n].now)
  }

  /** `d` goes to the caller of submit `n` and tells the truth. */
  ghost predicate ToldOf(accepted: seq<Importing.Request>, made: seq<Offer>, es: seq<Event>, n: nat, d: Importing.Delivery) {
    n < |made| && n < |accepted| && d.req == accepted[n] && Truthful(es, n, made[n].call, d)
  }

  ghost predicate AnsweredBy(answers: seq<Scheduler.Answer>, at: nat, n: nat) {
    exists i :: 0 <= i < at && i < |answers| && answers[i].serial == n
  }

  ghost predicate Waiting(s: Importing.Importer, n: nat) {
    n < |s.accepted| && s.accepted[n].key in s.table && s.table[s.accepted[n].key] == s.accepted[n]
  }

  /** Every submit is told or still waiting. */
  ghost predicate NobodyLost(s: Importing.Importer, made: seq<Offer>, answers: seq<Scheduler.Answer>, at: nat) {
    forall n: nat :: n < |made| ==> AnsweredBy(answers, at, n) || Waiting(s, n)
  }

  /** The first `at` answers were delivered, one by one. */
  ghost predicate ToldSoFar(s: Importing.Importer, made: seq<Offer>, es: seq<Event>, answers: seq<Scheduler.Answer>, at: nat) {
    && at <= |answers| && |s.delivered| == at
    && forall i :: 0 <= i < at ==> answers[i].Complete? && ToldOf(s.accepted, made, es, answers[i].serial, s.delivered[i])
  }

  ghost function PiecesFor(l: Link, a: ReplyTransparency.Answer): seq<Piece>
    requires LinkOk(l) && Sized(a.payload)
  {
    PiecesOf(ReplyHeader(l.c.attachId, a), CompleteBytes(a.body), a.payload, l.maxDown - HEADER_SIZE - BODY_COMPLETE)
  }

  /** Between answers nothing is half-received; within one, exactly the records heard so far are. */
  ghost predicate InPlace(l: Link, t: Talk)
    requires LinkOk(l)
  {
    if t.piece == 0 then t.s.replies == map[]
    else
      && t.at < |l.answers| && l.answers[t.at].Complete? && Sized(l.answers[t.at].payload)
      && t.piece < |PiecesFor(l, l.answers[t.at])| && Awaiting(l.c, t.s, l.answers[t.at], PiecesFor(l, l.answers[t.at]), t.piece)
  }

  ghost predicate Sane(l: Link, t: Talk) {
    t.status == Status.OK || (t.status == Status.INTERNAL && t.at < |l.answers| && l.answers[t.at].Overrun?)
  }

  /** The books: each submit has its request, and its caller was told or still waits. */
  ghost predicate InOrder(l: Link, es: seq<Event>, t: Talk) {
    && |t.s.accepted| == |t.made| && (forall n: nat :: n < |t.made| ==> Requested(l.c, t.s.accepted, t.made, n))
    && ToldSoFar(t.s, t.made, es, l.answers, t.at) && NobodyLost(t.s, t.made, l.answers, t.at)
  }

  ghost predicate Going(l: Link, es: seq<Event>, t: Talk)
    requires LinkOk(l)
  {
    Inv(l.c, t.s) && InOrder(l, es, t) && InPlace(l, t) && Sane(l, t)
  }

  /** What the exporter took in are the importer's submits, in order. */
  ghost predicate Fed(c: Importing.Config, es: seq<Event>, t: Talk) {
    && AllFair(c, t.made)
    && forall n: nat :: n < |t.made| && n < |t.s.accepted| && n < |Run(INITIAL, es).intakes| ==>
         Run(INITIAL, es).intakes[n] == IntakeOf(t.made[n].call, t.s.accepted[n].key)
  }

  // ---------------------------------------------------------------- a submit

  lemma {:induction false} OfferKeeps(l: Link, es: seq<Event>, t: Talk, o: Offer)
    requires LinkOk(l) && Going(l, es, t) && Importing.IdsLast(l.c, t.s, o.call) && t.status == Status.OK
    ensures Going(l, es, Offered(l, t, o))
  {
    TakenOne(l.c, t.s, o, l.maxUp);
    if Taking(l.c, t.s, o, l.maxUp).status == Status.OK {
      TakenKeeps(l, es, t, o, Taking(l.c, t.s, o, l.maxUp).s, Importing.NewKey(l.c, t.s, o.call));
    }
  }

  lemma {:induction false} TakenKeeps(l: Link, es: seq<Event>, t: Talk, o: Offer, s: Importing.Importer, key: Key)
    requires LinkOk(l) && Going(l, es, t) && TakenTo(l.c, t.s, s, o, key)
    ensures Going(l, es, t.(s := s, made := t.made + [o]))
  {
    TakenInOrder(l, es, t, o, s, key);
    TakenInPlace(l, t, o, s, key);
  }

  lemma {:induction false} TakenInPlace(l: Link, t: Talk, o: Offer, s: Importing.Importer, key: Key)
    requires LinkOk(l) && InPlace(l, t) && TakenTo(l.c, t.s, s, o, key)
    ensures InPlace(l, t.(s := s, made := t.made + [o]))
  {}

  lemma {:induction false} TakenInOrder(l: Link, es: seq<Event>, t: Talk, o: Offer, s: Importing.Importer, key: Key)
    requires InOrder(l, es, t) && TakenTo(l.c, t.s, s, o, key)
    ensures InOrder(l, es, t.(s := s, made := t.made + [o]))
  {
    var made := t.made + [o];
    forall n: nat | n < |made| ensures Requested(l.c, s.accepted, made, n) {
      if n < |t.made| { assert Requested(l.c, t.s.accepted, t.made, n); }
    }
    forall i | 0 <= i < t.at ensures ToldOf(s.accepted, made, es, l.answers[i].serial, s.delivered[i]) {
      assert ToldOf(t.s.accepted, t.made, es, l.answers[i].serial, t.s.delivered[i]);
    }
    forall n: nat | n < |made| ensures AnsweredBy(l.answers, t.at, n) || Waiting(s, n) {
      if n < |t.made| { assert AnsweredBy(l.answers, t.at, n) || Waiting(t.s, n); }
    }
  }

  // ---------------------------------------------------------------- a record

  /** One record of an answer: the reply moves on by one piece, or is delivered. */
  ghost predicate Progress(l: Link, s: Importing.Importer, r: Importing.Handled, a: ReplyTransparency.Answer, i: nat)
    requires LinkOk(l) && Sized(a.payload)
  {
    && r.status == Status.OK
    && (i + 1 < |PiecesFor(l, a)| ==> SameBooks(s, r.s) && Awaiting(l.c, r.s, a, PiecesFor(l, a), i + 1))
    && (i + 1 == |PiecesFor(l, a)| ==> Delivered(l.c, s, r.s, a))
  }

  /** The answer's records, and what they are made of. */
  lemma {:induction false} AnswerFramed(l: Link, a: ReplyTransparency.Answer)
    requires LinkOk(l) && Sized(a.payload)
    ensures var recs, ps := RecordsFor(l, a), PiecesFor(l, a);
            |recs| == |ps| > 0 && Framed(recs, ps, CompleteBytes(a.body)) && Typed(ps, T_COMPLETE, a.status, l.c.attachId)
  {
    FramedAs(ReplyHeader(l.c.attachId, a), CompleteBytes(a.body), a.payload, l.maxDown - HEADER_SIZE - BODY_COMPLETE, RecordsFor(l, a), PiecesFor(l, a));
  }

  lemma {:induction false} FramedAs(base: Header, body: Bytes, data: Bytes, max: u32, recs: seq<Bytes>, ps: seq<Piece>)
    requires Sized(data) && 0 < max && |body| + max < 0x1_0000_0000
    requires recs == Records(base, body, data, max) && ps == PiecesOf(base, body, data, max)
    ensures |recs| == |ps| > 0 && Framed(recs, ps, body) && Typed(ps, base.typ, base.status, base.attachId)
  {
    RecordsFramed(base, body, data, max);
  }

  lemma {:induction false} AnswerRoomy(l: Link, a: ReplyTransparency.Answer)
    requires LinkOk(l) && |a.payload| <= l.c.maxTransferBytes
    ensures Roomy(l.c, a, PiecesFor(l, a))
  {
    PiecesWellFormed(Importing.LimitsOf(l.c), ReplyHeader(l.c.attachId, a), CompleteBytes(a.body), a.payload, l.maxDown - HEADER_SIZE - BODY_COMPLETE);
  }

  lemma {:induction false} FirstHeard(l: Link, s: Importing.Importer, a: ReplyTransparency.Answer)
    requires LinkOk(l) && Inv(l.c, s) && s.replies == map[] && ExpectedOne(l.c, s, a)
    ensures |RecordsFor(l, a)| == |PiecesFor(l, a)| > 0
    ensures Progress(l, s, Importing.Receive(l.c, s, RecordsFor(l, a)[0]), a, 0)
  {
    AnswerFramed(l, a);
    AnswerRoomy(l, a);
    var recs, ps := RecordsFor(l, a), PiecesFor(l, a);
    assert FramedAt(recs[0], ps[0], BodyAt(CompleteBytes(a.body), ps[0].payload, 0)) && TypedAt(ps[0].h, 0, T_COMPLETE, a.status, l.c.attachId);
    assert PieceOk(KeyFor(a), ps, a.payload, 0);
    FirstRecord(l.c, s, recs[0], ps[0], a);
    if |ps| > 1 { FirstIsAwaited(l.c, s, a, ps); } else { OnlyIsDelivered(l.c, s, a, ps); }
  }

  lemma {:induction false} NextHeard(l: Link, s: Importing.Importer, a: ReplyTransparency.Answer, i: nat)
    requires LinkOk(l) && |a.payload| <= l.c.maxTransferBytes && 0 < i < |PiecesFor(l, a)| && Awaiting(l.c, s, a, PiecesFor(l, a), i)
    ensures |RecordsFor(l, a)| == |PiecesFor(l, a)|
    ensures Progress(l, s, Importing.Receive(l.c, s, RecordsFor(l, a)[i]), a, i)
  {
    AnswerFramed(l, a);
    AnswerRoomy(l, a);
    var recs, ps := RecordsFor(l, a), PiecesFor(l, a);
    assert FramedAt(recs[i], ps[i], BodyAt(CompleteBytes(a.body), ps[i].payload, i)) && TypedAt(ps[i].h, i, T_COMPLETE, a.status, l.c.attachId);
    assert BodyAt(CompleteBytes(a.body), ps[i].payload, i) == ps[i].payload;
    DataIsContinued(l.c, s, a, recs[i], ps, i);
    ContinuedOne(l.c, s, a, ps, i);
  }

  /** The answer about to be heard is for a request that waits for it, and will tell its caller the truth. */
  ghost predicate Due(l: Link, es: seq<Event>, t: Talk, a: ReplyTransparency.Answer) {
    && a.serial < |t.made| == |t.s.accepted| && Waiting(t.s, a.serial) && KeyFor(a) == t.s.accepted[a.serial].key
    && ExpectedOne(l.c, t.s, a) && Truthful(es, a.serial, t.made[a.serial].call, DeliveryOf(t.s.accepted[a.serial], a))
  }

  lemma {:induction false} NotYetAnswered(es: seq<Event>, at: nat)
    requires LegalRun(INITIAL, es) && at < |Run(INITIAL, es).answers|
    ensures !AnsweredBy(Run(INITIAL, es).answers, at, Run(INITIAL, es).answers[at].serial)
  {
    NoTwoAnswers(es);
  }

  lemma {:induction false} AnswerIsDue(l: Link, es: seq<Event>, t: Talk, a: ReplyTransparency.Answer)
    requires LinkOk(l) && LegalRun(INITIAL, es) && AllSized(es) && l.answers == Run(INITIAL, es).answers
    requires Going(l, es, t) && Fed(l.c, es, t) && t.at < |l.answers| && a == l.answers[t.at] && a.serial < |t.made|
    ensures Due(l, es, t, a)
  {
    NotYetAnswered(es, t.at);
    assert Waiting(t.s, a.serial) && Requested(l.c, t.s.accepted, t.made, a.serial);
    WellSourced(es, t.at);
    SourcedMatches(l.c, es, a, t.made[a.serial].call, t.s.accepted[a.serial].key, t.made[a.serial].now);
  }

  lemma {:induction false} WellSourced(es: seq<Event>, i: nat)
    requires LegalRun(INITIAL, es) && i < |Run(INITIAL, es).answers|
    ensures AnswerOk(Run(INITIAL, es), Run(INITIAL, es).answers[i]) && HasSource(es, |es|, Run(INITIAL, es).answers[i])
  {
    ExactlyOneAnswer(es);
    AnswersComeFromThePort(es);
  }

  lemma {:induction false} DeliveredTold(l: Link, es: seq<Event>, t: Talk, a: ReplyTransparency.Answer, s: Importing.Importer)
    requires ToldSoFar(t.s, t.made, es, l.answers, t.at) && Due(l, es, t, a) && t.at < |l.answers| && a == l.answers[t.at]
    requires Delivered(l.c, t.s, s, a)
    ensures ToldSoFar(s, t.made, es, l.answers, t.at + 1)
  {
    forall i | 0 <= i < t.at + 1 ensures l.answers[i].Complete? && ToldOf(s.accepted, t.made, es, l.answers[i].serial, s.delivered[i]) {
      if i < t.at { assert ToldOf(t.s.accepted, t.made, es, l.answers[i].serial, t.s.delivered[i]); }
    }
  }

  lemma {:induction false} DeliveredLeavesOthers(l: Link, es: seq<Event>, t: Talk, a: ReplyTransparency.Answer, s: Importing.Importer)
    requires NobodyLost(t.s, t.made, l.answers, t.at) && Due(l, es, t, a) && t.at < |l.answers| && a == l.answers[t.at]
    requires Distinct(t.s.accepted) && Delivered(l.c, t.s, s, a)
    ensures NobodyLost(s, t.made, l.answers, t.at + 1)
  {
    forall n: nat | n < |t.made| ensures AnsweredBy(l.answers, t.at + 1, n) || Waiting(s, n) {
      if n == a.serial {
        assert l.answers[t.at].serial == n;
      } else if AnsweredBy(l.answers, t.at, n) {
        var i :| 0 <= i < t.at && i < |l.answers| && l.answers[i].serial == n;
        assert AnsweredBy(l.answers, t.at + 1, n);
      } else {
        assert Waiting(t.s, n);
        KeysDiffer(t.s.accepted, n, a.serial);
      }
    }
  }

  lemma {:induction false} KeysDiffer(rs: seq<Importing.Request>, i: nat, j: nat)
    requires Distinct(rs) && i < |rs| && j < |rs| && i != j
    ensures rs[i].key != rs[j].key
  {}

  lemma {:induction false} DeliveredInOrder(l: Link, es: seq<Event>, t: Talk, a: ReplyTransparency.Answer, s: Importing.Importer)
    requires InOrder(l, es, t) && Due(l, es, t, a) && t.at < |l.answers| && a == l.answers[t.at]
    requires Distinct(t.s.accepted) && Delivered(l.c, t.s, s, a)
    ensures InOrder(l, es, t.(s := s, at := t.at + 1, piece := 0))
  {
    DeliveredTold(l, es, t, a, s);
    DeliveredLeavesOthers(l, es, t, a, s);
    forall n: nat | n < |t.made| ensures Requested(l.c, s.accepted, t.made, n) { assert Requested(l.c, t.s.accepted, t.made, n); }
  }

  lemma {:induction false} PieceInOrder(l: Link, es: seq<Event>, t: Talk, s: Importing.Importer)
    requires InOrder(l, es, t) && SameBooks(t.s, s)
    ensures InOrder(l, es, t.(s := s, piece := t.piece + 1))
  {
    forall n: nat | n < |t.made| ensures AnsweredBy(l.answers, t.at, n) || Waiting(s, n) {
      assert AnsweredBy(l.answers, t.at, n) || Waiting(t.s, n);
    }
  }

  /** The next record of the answer under way. */
  lemma {:induction false} RecordHeard(l: Link, t: Talk, a: ReplyTransparency.Answer)
    requires LinkOk(l) && Inv(l.c, t.s) && InPlace(l, t) && t.at < |l.answers| && a == l.answers[t.at] && ExpectedOne(l.c, t.s, a)
    ensures t.piece < |RecordsFor(l, a)| == |PiecesFor(l, a)|
    ensures var r := Importing.Receive(l.c, t.s, RecordsFor(l, a)[t.piece]); Progress(l, t.s, r, a, t.piece) && Inv(l.c, r.s)
  {
    if t.piece == 0 { FirstHeard(l, t.s, a); } else { NextHeard(l, t.s, a, t.piece); }
    StepInv(l.c, t.s, Importing.EReceive(RecordsFor(l, a)[t.piece]));
  }

  lemma {:induction false} HeardIs(l: Link, t: Talk, a: Scheduler.Answer, r: Importing.Handled)
    requires LinkOk(l) && t.piece < |RecordsFor(l, a)| && r == Importing.Receive(l.c, t.s, RecordsFor(l, a)[t.piece]) && r.status == Status.OK
    ensures Heard(l, t, a) == if t.piece + 1 == |RecordsFor(l, a)| then t.(s := r.s, at := t.at + 1, piece := 0) else t.(s := r.s, piece := t.piece + 1)
  {}

  lemma {:induction false} PieceKeeps(l: Link, es: seq<Event>, t: Talk, a: ReplyTransparency.Answer, s: Importing.Importer)
    requires LinkOk(l) && Going(l, es, t) && t.at < |l.answers| && a == l.answers[t.at] && t.status == Status.OK && Sized(a.payload)
    requires Inv(l.c, s) && SameBooks(t.s, s) && t.piece + 1 < |PiecesFor(l, a)| && Awaiting(l.c, s, a, PiecesFor(l, a), t.piece + 1)
    ensures Going(l, es, t.(s := s, piece := t.piece + 1))
  {
    PieceInOrder(l, es, t, s);
  }

  lemma {:induction false} DeliveredKeeps(l: Link, es: seq<Event>, t: Talk, a: ReplyTransparency.Answer, s: Importing.Importer)
    requires LinkOk(l) && Going(l, es, t) && Due(l, es, t, a) && t.at < |l.answers| && a == l.answers[t.at] && t.status == Status.OK
    requires Inv(l.c, s) && Delivered(l.c, t.s, s, a)
    ensures Going(l, es, t.(s := s, at := t.at + 1, piece := 0))
  {
    DeliveredInOrder(l, es, t, a, s);
  }

  lemma {:induction false} AnswerKeeps(l: Link, es: seq<Event>, t: Talk, a: ReplyTransparency.Answer)
    requires LinkOk(l) && Going(l, es, t) && Due(l, es, t, a) && t.at < |l.answers| && a == l.answers[t.at] && t.status == Status.OK
    ensures Going(l, es, Heard(l, t, a))
  {
    RecordHeard(l, t, a);
    var r := Importing.Receive(l.c, t.s, RecordsFor(l, a)[t.piece]);
    HeardIs(l, t, a, r);
    if t.piece + 1 < |PiecesFor(l, a)| { PieceKeeps(l, es, t, a, r.s); } else { DeliveredKeeps(l, es, t, a, r.s); }
  }

  lemma {:induction false} HearKeeps(l: Link, es: seq<Event>, t: Talk)
    requires LinkOk(l) && LegalRun(INITIAL, es) && AllSized(es) && l.answers == Run(INITIAL, es).answers
    requires Going(l, es, t) && Fed(l.c, es, t) && CanMove(l, t, Hear) && t.status == Status.OK
    ensures Going(l, es, Heard(l, t, l.answers[t.at]))
  {
    if l.answers[t.at].Overrun? {
      ErrorIsFatal(l.c, t.s, l.why);
    } else {
      AnswerIsDue(l, es, t, l.answers[t.at]);
      AnswerKeeps(l, es, t, l.answers[t.at]);
    }
  }

  // ---------------------------------------------------------------- the whole conversation

  /** What was made and accepted stays. */
  ghost predicate Longer(t: Talk, t': Talk) { t.made <= t'.made && t.s.accepted <= t'.s.accepted }

  lemma {:induction false} MovedIsLonger(l: Link, t: Talk, m: Move)
    requires LinkOk(l) && CanMove(l, t, m)
    ensures Longer(t, Moved(l, t, m))
  {
    if m.Hear? && t.piece < |RecordsFor(l, l.answers[t.at])| {
      ReceiveKeepsAccepted(l.c, t.s, RecordsFor(l, l.answers[t.at])[t.piece]);
    }
  }

  lemma {:induction false} TalkedIsLonger(l: Link, t: Talk, moves: seq<Move>)
    requires LinkOk(l) && CanTalk(l, t, moves)
    ensures Longer(t, Talked(l, t, moves))
    decreases |moves|
  {
    if moves != [] {
      MovedIsLonger(l, t, moves[0]);
      TalkedIsLonger(l, Moved(l, t, moves[0]), moves[1..]);
    }
  }

  lemma {:induction false} FedEarlier(c: Importing.Config, es: seq<Event>, t: Talk, all: Talk)
    requires Fed(c, es, all) && Longer(t, all)
    ensures Fed(c, es, t)
  {
    forall i | 0 <= i < |t.made| ensures Sendable(t.made[i].call) && t.made[i].call.bufferLen <= c.maxTransferBytes {
      assert t.made[i] == all.made[i];
    }
  }

  lemma {:induction false} MoveKeeps(l: Link, es: seq<Event>, t: Talk, m: Move)
    requires LinkOk(l) && LegalRun(INITIAL, es) && AllSized(es) && l.answers == Run(INITIAL, es).answers
    requires Going(l, es, t) && CanMove(l, t, m) && Fed(l.c, es, t)
    ensures Going(l, es, Moved(l, t, m))
  {
    if t.status == Status.OK {
      match m
      case Make(o) => OfferKeeps(l, es, t, o);
      case Hear => HearKeeps(l, es, t);
    }
  }

  lemma {:induction false} TalkKeeps(l: Link, es: seq<Event>, t: Talk, moves: seq<Move>)
    requires LinkOk(l) && LegalRun(INITIAL, es) && AllSized(es) && l.answers == Run(INITIAL, es).answers
    requires Going(l, es, t) && CanTalk(l, t, moves) && Fed(l.c, es, Talked(l, t, moves))
    ensures Going(l, es, Talked(l, t, moves))
    decreases |moves|
  {
    if moves != [] {
      TalkedIsLonger(l, t, moves);
      FedEarlier(l.c, es, t, Talked(l, t, moves));
      MoveKeeps(l, es, t, moves[0]);
      TalkKeeps(l, es, Moved(l, t, moves[0]), moves[1..]);
    }
  }

  lemma {:induction false} OpeningGoes(l: Link, es: seq<Event>)
    requires LinkOk(l)
    ensures Going(l, es, OPENING)
  {
    InitialInv(l.c);
  }

  lemma {:induction false} MadeIsAccepted(l: Link, t: Talk, moves: seq<Move>)
    requires LinkOk(l) && CanTalk(l, t, moves) && |t.made| == |t.s.accepted|
    ensures |Talked(l, t, moves).made| == |Talked(l, t, moves).s.accepted|
    decreases |moves|
  {
    if moves != [] {
      var m := moves[0];
      if m.Hear? && t.piece < |RecordsFor(l, l.answers[t.at])| { ReceiveKeepsAccepted(l.c, t.s, RecordsFor(l, l.answers[t.at])[t.piece]); }
      MadeIsAccepted(l, Moved(l, t, m), moves[1..]);
    }
  }

  /** The exporter's transfers are the first so many of the importer's submits. */
  lemma {:induction false} FedByTheLink(c: Importing.Config, es: seq<Event>, t: Talk, rx: Rx, maxUp: u32)
    requires |t.made| == |t.s.accepted| && AllFair(c, t.made) && !rx.active && maxUp > HEADER_SIZE + BODY_SUBMIT
    requires Run(INITIAL, es).intakes <= OnRecords(c.attachId, rx, UpStream(c, SentIn(t), maxUp)).taken
    ensures Fed(c, es, t)
  {
    var sent := SentIn(t);
    forall i | 0 <= i < |sent| ensures Sendable(sent[i].call) { assert sent[i].call == t.made[i].call; }
    SubmitsArriveInOrder(c, rx, sent, maxUp);
    forall n: nat | n < |t.made| && n < |Run(INITIAL, es).intakes|
      ensures Run(INITIAL, es).intakes[n] == IntakeOf(t.made[n].call, t.s.accepted[n].key)
    {
      assert IntakesOf(sent)[n] == IntakeOf(sent[n].call, sent[n].key);
    }
  }

  /** What the importer's callers have been told after the conversation `t`. */
  ghost predicate Faithfully(es: seq<Event>, t: Talk) {
    var x := Run(INITIAL, es);
    && ToldSoFar(t.s, t.made, es, x.answers, t.at) && NobodyLost(t.s, t.made, x.answers, t.at)
    && (forall i, j :: 0 <= i < j < t.at ==> x.answers[i].serial != x.answers[j].serial)
    && (t.status == Status.OK || (t.status == Status.INTERNAL && t.at < |x.answers| && x.answers[t.at].Overrun?))
    && (t.at == |x.answers| && x.state != Leased && |x.intakes| == |t.made| ==>
          forall n: nat :: n < |t.made| ==> AnsweredBy(x.answers, t.at, n))
  }

  /**
   * There and back. The importer submits and listens in any order, as many submits as its limit lets be
   * outstanding at a time; the submits go up, and the answers come down, in records of any size; the
   * exporter's scheduler runs in any legal way over any port, on the submits that have reached it. Then
   * every answer heard, up to one by which the device claimed more than was asked for, was delivered
   * once, in order, to the request of the very submit it is about, and told its caller the status, length
   * and IN bytes the port reported for that transfer, or a failure with none; every other submit is still
   * waiting; and once the exporter has lost its lease and all its answers are heard, everybody was told.
   */
  lemma {:induction false} ThereAndBack(l: Link, moves: seq<Move>, rx: Rx, es: seq<Event>)
    requires LinkOk(l) && LegalRun(INITIAL, es) && AllSized(es) && l.answers == Run(INITIAL, es).answers
    requires CanTalk(l, OPENING, moves) && AllFair(l.c, Talked(l, OPENING, moves).made)
    requires !rx.active
    requires Run(INITIAL, es).intakes <= OnRecords(l.c.attachId, rx, UpStream(l.c, SentIn(Talked(l, OPENING, moves)), l.maxUp)).taken
    ensures Faithfully(es, Talked(l, OPENING, moves))
  {
    var t := Talked(l, OPENING, moves);
    MadeIsAccepted(l, OPENING, moves);
    FedByTheLink(l.c, es, t, rx, l.maxUp);
    OpeningGoes(l, es);
    TalkKeeps(l, es, OPENING, moves);
    NoTwoAnswers(es);
    AllHeard(es, t);
  }

  lemma {:induction false} AllHeard(es: seq<Event>, t: Talk)
    requires LegalRun(INITIAL, es)
    ensures var x := Run(INITIAL, es);
            t.at == |x.answers| && x.state != Leased && |x.intakes| == |t.made| ==>
              forall n: nat :: n < |t.made| ==> AnsweredBy(x.answers, t.at, n)
  {
    ExactlyOneAnswer(es);
    var x := Run(INITIAL, es);
    if t.at == |x.answers| && x.state != Leased && |x.intakes| == |t.made| {
      forall n: nat | n < |t.made| ensures AnsweredBy(x.answers, t.at, n) { assert AnsweredOnce(x, n); }
    }
  }
}
