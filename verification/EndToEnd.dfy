/** The two directions and the scheduler between them, put together. */
module EndToEnd {
  import opened Wire
  import Status
  import opened Codec
  import opened Segmentation
  import opened Reassembly
  import opened Scheduler
  import opened SchedulerLedger
  import opened SchedulerSafety
  import opened SchedulerBarrier
  import opened AnswerSources
  import Importing
  import opened ImporterAccounting
  import opened Reception
  import opened SegmentRoundTrip
  import opened OutTransparency
  import opened ReplyTransparency

  /** A submit and the key it was given. */
  datatype Sent = Sent(call: Importing.Call, key: Key)

  predicate AllSendable(sent: seq<Sent>) { forall i :: 0 <= i < |sent| ==> Sendable(sent[i].call) }

  ghost function UpStream(c: Importing.Config, sent: seq<Sent>, maxPlain: u32): seq<Bytes>
    requires maxPlain > HEADER_SIZE + BODY_SUBMIT
  {
    if sent == [] then []
    else Importing.SubmitRecords(c, sent[0].call, sent[0].key, maxPlain) + UpStream(c, sent[1..], maxPlain)
  }

  function IntakesOf(sent: seq<Sent>): (r: seq<Intake>)
    ensures |r| == |sent| && forall i :: 0 <= i < |sent| ==> r[i] == IntakeOf(sent[i].call, sent[i].key)
  {
    if sent == [] then [] else [IntakeOf(sent[0].call, sent[0].key)] + IntakesOf(sent[1..])
  }

  /** Hearing `[rec] + recs` and then `b`, when hearing `recs` and then `b` is understood. */
  lemma ConcatStep(attachId: u32, rx: Rx, rec: Bytes, recs: seq<Bytes>, b: seq<Bytes>)
    requires !IsFatal(OnRecord(attachId, rx, rec).status)
    requires var x := OnRecord(attachId, rx, rec).rx; var m := OnRecords(attachId, x, recs);
             OnRecords(attachId, x, recs + b) == AfterTaking(m.taken, OnRecords(attachId, m.rx, b))
    ensures var m := OnRecords(attachId, rx, [rec] + recs);
            OnRecords(attachId, rx, [rec] + (recs + b)) == AfterTaking(m.taken, OnRecords(attachId, m.rx, b))
  {
    RecordsCons(attachId, rx, rec, recs);
    RecordsCons(attachId, rx, rec, recs + b);
    var first := OnRecord(attachId, rx, rec);
    var m := OnRecords(attachId, first.rx, recs);
    Regrouped(first.taken, m.taken, OnRecords(attachId, m.rx, b).taken);
  }

  lemma ConsNotFatal(attachId: u32, rx: Rx, rec: Bytes, recs: seq<Bytes>)
    requires !IsFatal(OnRecords(attachId, rx, [rec] + recs).status)
    ensures var m := OnRecord(attachId, rx, rec); !IsFatal(m.status) && !IsFatal(OnRecords(attachId, m.rx, recs).status)
  {
    RecordsCons(attachId, rx, rec, recs);
  }

  lemma {:induction false} RecordsConcat(attachId: u32, rx: Rx, a: seq<Bytes>, b: seq<Bytes>)
    requires !IsFatal(OnRecords(attachId, rx, a).status)
    ensures var m := OnRecords(attachId, rx, a); OnRecords(attachId, rx, a + b) == AfterTaking(m.taken, OnRecords(attachId, m.rx, b))
    decreases |a|
  {
    if a == [] {
      assert a + b == b;
      assert [] + OnRecords(attachId, rx, b).taken == OnRecords(attachId, rx, b).taken;
    } else {
      var rec, recs := a[0], a[1..];
      assert [rec] + recs == a && [rec] + (recs + b) == a + b;
      ConsNotFatal(attachId, rx, rec, recs);
      RecordsConcat(attachId, OnRecord(attachId, rx, rec).rx, recs, b);
      ConcatStep(attachId, rx, rec, recs, b);
    }
  }

  lemma RecordsCons(attachId: u32, rx: Rx, rec: Bytes, recs: seq<Bytes>)
    ensures var m := OnRecord(attachId, rx, rec);
            OnRecords(attachId, rx, [rec] + recs) == if IsFatal(m.status) then m else AfterTaking(m.taken, OnRecords(attachId, m.rx, recs))
  {
    assert ([rec] + recs)[1..] == recs;
  }

  /** Any number of submits on one link reach the scheduler in order, each as one transfer with its own bytes. */
  lemma {:induction false} SubmitsArriveInOrder(c: Importing.Config, rx: Rx, sent: seq<Sent>, maxPlain: u32)
    requires !rx.active && AllSendable(sent) && maxPlain > HEADER_SIZE + BODY_SUBMIT
    ensures var m := OnRecords(c.attachId, rx, UpStream(c, sent, maxPlain)); m.status == Status.OK && !m.rx.active && m.taken == IntakesOf(sent)
    decreases |sent|
  {
    if sent != [] {
      var recs := Importing.SubmitRecords(c, sent[0].call, sent[0].key, maxPlain);
      SubmitArrivesWhole(c, rx, sent[0].call, sent[0].key, maxPlain);
      SubmitsArriveInOrder(c, OnRecords(c.attachId, rx, recs).rx, sent[1..], maxPlain);
      RecordsConcat(c.attachId, rx, recs, UpStream(c, sent[1..], maxPlain));
    }
  }

  /** The device call a submit amounts to. */
  predicate SameTransfer(t: AsyncTransfer, call: Importing.Call) {
    && t.epAddr == call.epAddr && t.xferType == call.xferType && t.dir == call.dir && t.bufferLen == call.bufferLen
    && (call.xferType == CONTROL ==> t.setup == call.setup)
    && t.dataOut == (if call.dir == DIR_OUT then call.dataOut else [])
  }

  /**
   * Whatever the port, the peer's cancels and the clock do, every call the device port accepts is one of
   * the submits, byte for byte; no submit is issued twice, and on one endpoint they go out in order.
   */
  lemma DeviceGetsTheSubmits(c: Importing.Config, rx: Rx, sent: seq<Sent>, maxPlain: u32, es: seq<Event>)
    requires !rx.active && AllSendable(sent) && maxPlain > HEADER_SIZE + BODY_SUBMIT
    requires LegalRun(INITIAL, es)
    requires Run(INITIAL, es).intakes <= OnRecords(c.attachId, rx, UpStream(c, sent, maxPlain)).taken
    ensures var acc := Run(INITIAL, es).port.accepted;
            && (forall i :: 0 <= i < |acc| ==> acc[i].serial < |sent| && SameTransfer(acc[i].transfer, sent[acc[i].serial].call))
            && (forall i, j :: 0 <= i < j < |acc| ==> acc[i].serial != acc[j].serial)
            && (forall i, j :: 0 <= i < j < |acc| && acc[i].transfer.epAddr == acc[j].transfer.epAddr ==> acc[i].serial < acc[j].serial)
  {
    SubmitsArriveInOrder(c, rx, sent, maxPlain);
    DeviceSeesSubmissionOrder(es);
    var s := Run(INITIAL, es);
    forall i | 0 <= i < |s.port.accepted|
      ensures s.port.accepted[i].serial < |sent| && SameTransfer(s.port.accepted[i].transfer, sent[s.port.accepted[i].serial].call)
    {
      var n := s.port.accepted[i].serial;
      assert s.intakes[n] == IntakeOf(sent[n].call, sent[n].key);
    }
  }

  // ---------------------------------------------------------------- the importer's submits

  /** A call and the time it is made. */
  datatype Offer = Offer(call: Importing.Call, now: nat)

  function Taking(c: Importing.Config, s: Importing.Importer, o: Offer, maxPlain: u32): Importing.Submitted
    requires Importing.IdsLast(c, s, o.call)
  {
    Importing.Submit(c, s, o.call, o.now, true, maxPlain, Status.OK)
  }

  /** A submit that is taken adds one request, under a new key; one that is not changes nothing. */
  lemma {:induction false} TakenOne(c: Importing.Config, s: Importing.Importer, o: Offer, maxPlain: u32)
    requires Inv(c, s) && Importing.IdsLast(c, s, o.call) && maxPlain > HEADER_SIZE + BODY_SUBMIT
    ensures var r := Taking(c, s, o, maxPlain);
            if r.status == Status.OK then TakenTo(c, s, r.s, o, Importing.NewKey(c, s, o.call)) else r.s == s
  {
    SubmitNeverInternal(c, s, o.call, o.now, true, maxPlain, Status.OK);
    StepInv(c, s, Importing.ESubmit(o.call, o.now, true, maxPlain, Status.OK));
  }

  ghost predicate TakenTo(c: Importing.Config, s: Importing.Importer, m: Importing.Importer, o: Offer, key: Key) {
    && Inv(c, m) && key !in s.table && m.table == s.table[key := Importing.RequestFor(c, o.call, key, o.now)]
    && m.replies == s.replies && m.reasm == s.reasm && m.delivered == s.delivered
    && m.accepted == s.accepted + [Importing.RequestFor(c, o.call, key, o.now)]
  }

  // ---------------------------------------------------------------- the exporter's answers

  /** buildError for an overrun: a control record whose status is Internal. */
  function ErrorRecord(why: Bytes): Bytes
    requires Sized(why)
  {
    HeaderBytes(Header(T_ERROR, 6, 0, |why|, 0, 0, 0, Status.INTERNAL, 0, 0)) + why
  }

  lemma {:induction false} ErrorIsFatal(c: Importing.Config, s: Importing.Importer, why: Bytes)
    requires Sized(why)
    ensures Importing.Receive(c, s, ErrorRecord(why)) == Importing.Handled(s, Status.INTERNAL)
  {
    var h := Header(T_ERROR, 6, 0, |why|, 0, 0, 0, Status.INTERNAL, 0, 0);
    HeaderRoundTrip(h, why);
    assert ErrorRecord(why)[HEADER_SIZE..HEADER_SIZE + |why|] == why;
  }

  // ---------------------------------------------------------------- what a caller is told

  /** Device buffers are shorter than 4 GiB, as the wire's length fields are. */
  ghost predicate AllSized(es: seq<Event>) {
    forall k, i :: 0 <= k < |es| && 0 <= i < |OutcomesOf(es[k])| ==> Sized(OutcomesOf(es[k])[i].dataIn)
  }

  /** The port reported outcome `i` of event `k` for the token that runs transfer `n`. */
  ghost predicate PortSaid(es: seq<Event>, k: nat, i: nat, n: nat) {
    k < |es| && i < |OutcomesOf(es[k])| && Runs(Run(INITIAL, es[..k]), OutcomesOf(es[k])[i].token, n)
  }

  /** The delivery tells the caller what the port said: status, length, and on an IN transfer the bytes. */
  ghost predicate TellsOutcome(d: Importing.Delivery, call: Importing.Call, e: Event, o: Outcome) {
    var moved := if call.dir == DIR_IN then |o.dataIn| else o.actualLen;
    && d.status == SaidStatus(e, o) && d.actualLen == moved <= call.bufferLen
    && d.shortXfer == (d.status == Status.OK && moved < call.bufferLen)
    && d.data == if call.dir == DIR_IN then o.dataIn else []
  }

  /** The delivery reports a failure the device had no part in. */
  predicate TellsFailure(d: Importing.Delivery) { d.status != Status.OK && d.actualLen == 0 && d.data == [] && !d.shortXfer }

  ghost predicate Truthful(es: seq<Event>, n: nat, call: Importing.Call, d: Importing.Delivery) {
    TellsFailure(d) || exists k: nat, i: nat :: PortSaid(es, k, i, n) && TellsOutcome(d, call, es[k], OutcomesOf(es[k])[i])
  }

  /** An answer with a source is one the request behind it accepts, and its delivery is truthful. */
  lemma {:induction false} SourcedMatches(c: Importing.Config, es: seq<Event>, a: ReplyTransparency.Answer, call: Importing.Call, key: Key, now: nat)
    requires LegalRun(INITIAL, es) && AllSized(es) && HasSource(es, |es|, a) && Sendable(call)
    requires a.serial < |Run(INITIAL, es).intakes| && Run(INITIAL, es).intakes[a.serial] == IntakeOf(call, key)
    ensures Matching(c, Importing.RequestFor(c, call, key, now), a) && |a.payload| <= call.bufferLen
    ensures Truthful(es, a.serial, call, DeliveryOf(Importing.RequestFor(c, call, key, now), a))
  {
    var k: nat :| k < |es| && SourcedAt(es, k, a);
    var s := Run(INITIAL, es[..k]);
    SameIntake(es, k, a.serial);
    if Local(es[k], Step(s, es[k]).intakes, a) {
      LocalMatches(c, es[k], Step(s, es[k]).intakes, a, call, key, now);
    } else {
      var i: nat :| FromPort(s, es[k], a, i);
      assert PortSaid(es, k, i, a.serial);
      PortMatches(c, es[k], OutcomesOf(es[k])[i], a, call, key, now);
    }
  }

  lemma {:induction false} LocalMatches(c: Importing.Config, e: Event, intakes: seq<Intake>, a: ReplyTransparency.Answer, call: Importing.Call, key: Key, now: nat)
    requires Local(e, intakes, a) && intakes[a.serial] == IntakeOf(call, key) && Sendable(call)
    ensures var req := Importing.RequestFor(c, call, key, now);
            Matching(c, req, a) && |a.payload| <= call.bufferLen && TellsFailure(DeliveryOf(req, a))
  {
    AnswersMatch(c, call, key, now, InFlight(a.serial, intakes[a.serial], Never, false), a.status, 0, IsCancelling(e), false, []);
  }

  lemma {:induction false} PortMatches(c: Importing.Config, e: Event, o: Outcome, a: ReplyTransparency.Answer, call: Importing.Call, key: Key, now: nat)
    requires a == AnswerFor(e, o, a.serial, IntakeOf(call, key)) && Sendable(call) && Sized(o.dataIn)
    ensures var req := Importing.RequestFor(c, call, key, now);
            Matching(c, req, a) && |a.payload| <= call.bufferLen && TellsOutcome(DeliveryOf(req, a), call, e, o)
  {
    AnswersMatch(c, call, key, now, InFlight(a.serial, IntakeOf(call, key), Never, false), SaidStatus(e, o), o.actualLen, SaidCancelled(e, o), o.zlpSent, o.dataIn);
  }

  lemma {:induction false} SameIntake(es: seq<Event>, k: nat, n: nat)
    requires LegalRun(INITIAL, es) && k < |es|
    ensures var s := Run(INITIAL, es[..k]); s.intakes <= Run(INITIAL, es).intakes && Step(s, es[k]).intakes <= Run(INITIAL, es).intakes
  {
    PrefixGrows(es, k, |es|);
    PrefixGrows(es, k + 1, |es|);
    RunPrefix(INITIAL, es, k);
    assert es[..|es|] == es;
  }

  lemma {:induction false} NoTwoAnswers(es: seq<Event>)
    requires LegalRun(INITIAL, es)
    ensures var answers := Run(INITIAL, es).answers; forall i, j :: 0 <= i < j < |answers| ==> answers[i].serial != answers[j].serial
  {
    InitialLedger();
    RunKeepsLedger(INITIAL, es);
  }

  /** The exporter takes every one of these calls, and the importer's limit allows its reply. */
  predicate AllFair(c: Importing.Config, offers: seq<Offer>) {
    forall i :: 0 <= i < |offers| ==> Sendable(offers[i].call) && offers[i].call.bufferLen <= c.maxTransferBytes
  }

  /** A submit's key: the channel is the attach slot and the endpoint, the id one more than the last given out on it, from 1. */
  lemma KeysAreNumbered(c: Importing.Config, s: Importing.Importer, o: Offer, maxPlain: u32)
    requires Inv(c, s) && Importing.IdsLast(c, s, o.call) && Taking(c, s, o, maxPlain).status == Status.OK
    ensures var key := Importing.NewKey(c, s, o.call); var r := Taking(c, s, o, maxPlain).s;
            && key.channel / 256 == c.attachSlot && key.channel % 256 == o.call.epAddr
            && (key.channel !in s.nextId ==> key.requestId == 1)
            && r.nextId == s.nextId[key.channel := key.requestId + 1]
            && (key.channel in s.nextId && s.nextId[key.channel] > 0 ==> key.requestId == s.nextId[key.channel])
  {}
}
