/**
 * What a round of admission hands to the device, endpoint by endpoint, and that a port which takes
 * and finishes everything starves nobody.
 */
module SchedulerProgress {
  import opened Wire
  import Status
  import opened Scheduler
  import opened SchedulerLedger
  import opened SchedulerDevice
  import opened SchedulerSafety
  import opened SchedulerEffects

  /** The device call for a request, field by field. */
  predicate IsCallFor(t: AsyncTransfer, r: Intake) {
    && t.epAddr == r.sb.epAddr && t.xferType == r.sb.xferType && t.dir == r.sb.dir && t.bufferLen == r.sb.bufferLen
    && t.setup == (if r.sb.xferType == CONTROL then r.sb.setup else 0) && t.dataOut == r.dataOut
    && (t.shortNotOk <==> r.sb.xflags % 2 == 1) && (t.zeroPacket <==> r.sb.xflags % 4 >= 2)
    && t.timeoutMs == (if r.sb.xferType == INTERRUPT then 0 else if r.sb.xferType == CONTROL || r.sb.xferType == ISOCHRONOUS then 5_000 else 30_000)
  }

  /** The endpoint may start a transfer: ep0 only with nothing in flight, another one only with no ep0 in flight and itself not reserved. */
  ghost predicate Clear(s: Exporter, ep: byte) {
    if ep == 0x00 || ep == 0x80 then forall t :: t !in s.inFlight
    else ep !in s.busy && forall t :: t in s.inFlight ==> s.inFlight[t].req.sb.epAddr != 0x00 && s.inFlight[t].req.sb.epAddr != 0x80
  }

  /** The head `p` of endpoint `ep`'s queue went to the device under `token`. */
  ghost predicate HandedOut(s: Exporter, r: Exporter, ep: byte, token: Token) {
    var q := Q(s.queues, ep);
    && q != [] && Q(r.queues, ep) == q[1..] && r.answers == s.answers
    && r.inFlight == s.inFlight[token := InFlight(q[0].serial, q[0].req, q[0].deadline, false)]
    && r.busy == s.busy[ep := token]
    && |r.port.accepted| == |s.port.accepted| + 1 && s.port.accepted <= r.port.accepted
    && var h := r.port.accepted[|s.port.accepted|];
       h.serial == q[0].serial && IsCallFor(h.transfer, q[0].req) && r.port.outstanding == s.port.outstanding[token := h]
  }

  /** The port refused the head of the queue: it is answered with the port's own status, and nothing moved. */
  ghost predicate RefusedWith(s: Exporter, r: Exporter, ep: byte, st: u16) {
    var q := Q(s.queues, ep);
    && q != [] && Q(r.queues, ep) == q[1..] && r.inFlight == s.inFlight && r.busy == s.busy && r.port == s.port
    && |r.answers| == |s.answers| + 1 && s.answers <= r.answers
    && var a := r.answers[|s.answers|];
       && a.Complete? && a.serial == q[0].serial && a.channel == q[0].req.channel && a.requestId == q[0].req.requestId
       && a.status == st && a.body.actualLen == 0 && a.payload == []
  }

  /** What visiting endpoint `ep` does to `s`, the port replying `reply(s.nextToken)` if it is asked. */
  ghost predicate VisitSpec(s: Exporter, r: Exporter, ep: byte, reply: Token -> u16) {
    var st := reply(s.nextToken);
    if Q(s.queues, ep) == [] || !Clear(s, ep) then r == s
    else
      && r.nextToken == s.nextToken + 1 && (forall e: byte :: e != ep ==> Q(r.queues, e) == Q(s.queues, e))
      && (if st == Status.OK then HandedOut(s, r, ep, s.nextToken)
          else if st == Status.BUSY then r == s.(nextToken := s.nextToken + 1)
          else RefusedWith(s, r, ep, st))
  }

  lemma ClearIsAdmissible(s: Exporter, ep: byte)
    ensures Clear(s, ep) <==> MayAdmit(s, ep)
  {
    if IsEp0(ep) { assert s.inFlight == map[] <==> forall t :: t !in s.inFlight; }
  }

  lemma VisitIsSpec(s: Exporter, ep: byte, reply: Token -> u16)
    ensures VisitSpec(s, AdmitOne(s, ep, reply), ep, reply)
  {
    ClearIsAdmissible(s, ep);
  }

  lemma {:induction false} AdmitSplits(s: Exporter, a: seq<byte>, b: seq<byte>, reply: Token -> u16)
    ensures AdmitEach(s, a + b, reply) == AdmitEach(AdmitEach(s, a, reply), b, reply)
    decreases |a|
  {
    if a == [] {
      assert a + b == b;
    } else {
      assert (a + b)[0] == a[0] && (a + b)[1..] == a[1..] + b;
      AdmitSplits(AdmitOne(s, a[0], reply), a[1..], b, reply);
    }
  }

  /** Visiting other endpoints leaves this one's queue alone. */
  lemma {:induction false} AdmitKeepsOthers(s: Exporter, eps: seq<byte>, ep: byte, reply: Token -> u16)
    requires ep !in eps
    ensures Q(AdmitEach(s, eps, reply).queues, ep) == Q(s.queues, ep)
    decreases |eps|
  {
    if eps != [] { AdmitKeepsOthers(AdmitOne(s, eps[0], reply), eps[1..], ep, reply); }
  }

  /** The state in which endpoint number `k` is visited. */
  ghost function Reached(s: Exporter, k: nat, reply: Token -> u16): Exporter
    requires k <= 256
  {
    AdmitEach(s, ENDPOINTS[..k], reply)
  }

  lemma ReachedNext(s: Exporter, k: nat, reply: Token -> u16)
    requires k < 256
    ensures Reached(s, k + 1, reply) == AdmitOne(Reached(s, k, reply), ENDPOINTS[k], reply)
  {
    assert ENDPOINTS[..k + 1] == ENDPOINTS[..k] + [ENDPOINTS[k]];
    AdmitSplits(s, ENDPOINTS[..k], [ENDPOINTS[k]], reply);
    assert [ENDPOINTS[k]][1..] == [];
  }

  /**
   * A round visits every endpoint once, in ascending order, and each with the queue it had when the round
   * began. The head of a queue goes to the device exactly when the endpoint is clear as it is visited and
   * the port says OK; Busy leaves the queue as it was; any other reply answers the head with that status.
   * Outside the leased state nothing happens.
   */
  lemma AdmitExactly(s: Exporter, k: byte, reply: Token -> u16)
    requires s.attached
    ensures s.state == Leased ==>
              && Reached(s, 0, reply) == s && Reached(s, 256, reply) == Step(s, EAdmit(reply))
              && VisitSpec(Reached(s, k, reply), Reached(s, k + 1, reply), k, reply)
              && Q(Reached(s, k, reply).queues, k) == Q(s.queues, k)
              && Q(Step(s, EAdmit(reply)).queues, k) == Q(Reached(s, k + 1, reply).queues, k)
    ensures s.state != Leased ==> Step(s, EAdmit(reply)) == s
  {
    if s.state == Leased {
      AllEndpointsListed();
      assert ENDPOINTS[..0] == [] && ENDPOINTS[..256] == ENDPOINTS && ENDPOINTS[k] == k;
      ReachedNext(s, k, reply);
      VisitIsSpec(Reached(s, k, reply), k, reply);
      AdmitKeepsOthers(s, ENDPOINTS[..k], k, reply);
      assert ENDPOINTS == ENDPOINTS[..k + 1] + ENDPOINTS[k + 1..];
      AdmitSplits(s, ENDPOINTS[..k + 1], ENDPOINTS[k + 1..], reply);
      AdmitKeepsOthers(Reached(s, k + 1, reply), ENDPOINTS[k + 1..], k, reply);
    }
  }

  // ------------------------------------------------------------ a round on an idle device

  /** The heads of the queues of `eps`, as device calls. */
  ghost function Heads(queues: map<byte, seq<Pending>>, eps: seq<byte>): seq<Held> {
    if eps == [] then [] else HeadOf(queues, eps[0]) + Heads(queues, eps[1..])
  }

  ghost predicate AlwaysOk(reply: Token -> u16) { forall t: Token :: reply(t) == Status.OK }

  /** No control transfer is queued or in flight, and none of `eps` is reserved. */
  ghost predicate Unhindered(s: Exporter, eps: seq<byte>) {
    && Q(s.queues, 0x00) == [] && Q(s.queues, 0x80) == []
    && (forall t :: t in s.inFlight ==> !IsEp0(s.inFlight[t].req.sb.epAddr)) && (forall e :: e in eps ==> e !in s.busy)
    && (forall i, j :: 0 <= i < j < |eps| ==> eps[i] != eps[j])
  }

  /** The head of `ep`'s queue is on the device and the rest of the queue has moved up. */
  ghost predicate HeadIsOut(s: Exporter, r: Exporter, ep: byte) {
    var q := Q(s.queues, ep);
    q != [] ==> Q(r.queues, ep) == q[1..] && ep in r.busy && r.busy[ep] in r.inFlight && r.inFlight[r.busy[ep]].serial == q[0].serial
  }

  /** A visited endpoint with something queued, and nothing in its way. */
  lemma VisitGoesOut(s: Exporter, ep: byte, reply: Token -> u16)
    requires AlwaysOk(reply) && Unhindered(s, [ep])
    ensures var m := AdmitOne(s, ep, reply); var q := Q(s.queues, ep);
            && HeadIsOut(s, m, ep) && (q != [] ==> HandedOut(s, m, ep, s.nextToken)) && (q == [] ==> m == s)
            && m.port.accepted == s.port.accepted + HeadOf(s.queues, ep)
  {
    assert ep in [ep] && reply(s.nextToken) == Status.OK;
    if Q(s.queues, ep) != [] {
      assert Clear(s, ep);
      VisitIsSpec(s, ep, reply);
    }
  }

  lemma StaysUnhindered(s: Exporter, m: Exporter, eps: seq<byte>)
    requires eps != [] && Unhindered(s, eps) && (m == s || HandedOut(s, m, eps[0], s.nextToken))
    requires forall e: byte :: e != eps[0] ==> Q(m.queues, e) == Q(s.queues, e)
    requires Q(s.queues, eps[0]) != [] ==> Q(s.queues, eps[0])[0].req.sb.epAddr == eps[0]
    ensures Unhindered(m, eps[1..])
  {
    forall e | e in eps[1..] ensures e in eps && e != eps[0] {}
  }

  lemma VisitUnhindered(s: Exporter, eps: seq<byte>, reply: Token -> u16)
    requires Device(s) && s.state == Leased && AlwaysOk(reply) && eps != [] && Unhindered(s, eps)
    ensures var m := AdmitOne(s, eps[0], reply);
            && Device(m) && m.state == Leased && Unhindered(m, eps[1..]) && HeadIsOut(s, m, eps[0])
            && m.port.accepted == s.port.accepted + HeadOf(s.queues, eps[0])
  {
    AdmitOneDevice(s, eps[0], reply);
    assert QueueOk(s, eps[0]) && eps[0] in eps;
    VisitGoesOut(s, eps[0], reply);
    StaysUnhindered(s, AdmitOne(s, eps[0], reply), eps);
  }

  lemma VisitKeepsFlights(s: Exporter, ep: byte, reply: Token -> u16)
    requires forall t :: t in s.inFlight ==> t < s.nextToken
    ensures var r := AdmitOne(s, ep, reply);
            && (forall t :: t in r.inFlight ==> t < r.nextToken)
            && (forall t :: t in s.inFlight ==> t in r.inFlight && r.inFlight[t] == s.inFlight[t])
            && (forall e :: e in s.busy && e != ep ==> e in r.busy && r.busy[e] == s.busy[e])
  {}

  /** A round forgets no transfer that is out, and frees no reservation of an endpoint it does not visit. */
  lemma {:induction false} AdmitKeepsFlights(s: Exporter, eps: seq<byte>, reply: Token -> u16)
    requires forall t :: t in s.inFlight ==> t < s.nextToken
    ensures var r := AdmitEach(s, eps, reply);
            && (forall t :: t in s.inFlight ==> t in r.inFlight && r.inFlight[t] == s.inFlight[t])
            && (forall e :: e in s.busy && e !in eps ==> e in r.busy && r.busy[e] == s.busy[e])
    decreases |eps|
  {
    if eps != [] {
      VisitKeepsFlights(s, eps[0], reply);
      AdmitKeepsFlights(AdmitOne(s, eps[0], reply), eps[1..], reply);
    }
  }

  lemma HeadStaysOut(s: Exporter, m: Exporter, eps: seq<byte>, ep: byte, reply: Token -> u16)
    requires HeadIsOut(s, m, ep) && ep !in eps && forall t :: t in m.inFlight ==> t < m.nextToken
    ensures HeadIsOut(s, AdmitEach(m, eps, reply), ep)
  {
    AdmitKeepsFlights(m, eps, reply);
    AdmitKeepsOthers(m, eps, ep, reply);
  }

  lemma {:induction false} HandsOutHeads(s: Exporter, eps: seq<byte>, reply: Token -> u16)
    requires Device(s) && s.state == Leased && AlwaysOk(reply) && Unhindered(s, eps)
    ensures AdmitEach(s, eps, reply).port.accepted == s.port.accepted + Heads(s.queues, eps)
    decreases |eps|
  {
    if eps != [] {
      var m := AdmitOne(s, eps[0], reply);
      VisitUnhindered(s, eps, reply);
      HandsOutHeads(m, eps[1..], reply);
      HeadsElsewhere(s.queues, m.queues, eps[1..], eps[0]);
      HeadsJoin(s, m, eps);
    }
  }

  ghost function HeadOf(queues: map<byte, seq<Pending>>, ep: byte): seq<Held> {
    var q := Q(queues, ep);
    if q == [] then [] else [Held(q[0].serial, TransferOf(q[0].req))]
  }

  lemma HeadsJoin(s: Exporter, m: Exporter, eps: seq<byte>)
    requires eps != [] && Heads(m.queues, eps[1..]) == Heads(s.queues, eps[1..]) && m.port.accepted == s.port.accepted + HeadOf(s.queues, eps[0])
    ensures m.port.accepted + Heads(m.queues, eps[1..]) == s.port.accepted + Heads(s.queues, eps)
  {
    Regrouped(s.port.accepted, HeadOf(s.queues, eps[0]), Heads(s.queues, eps[1..]));
  }

  lemma {:induction false} HandsOutEach(s: Exporter, eps: seq<byte>, ep: byte, reply: Token -> u16)
    requires Device(s) && s.state == Leased && AlwaysOk(reply) && Unhindered(s, eps) && ep in eps
    ensures HeadIsOut(s, AdmitEach(s, eps, reply), ep)
    decreases |eps|
  {
    var m := AdmitOne(s, eps[0], reply);
    VisitUnhindered(s, eps, reply);
    if ep == eps[0] {
      HeadStaysOut(s, m, eps[1..], ep, reply);
    } else {
      HandsOutEach(m, eps[1..], ep, reply);
      assert Q(m.queues, ep) == Q(s.queues, ep);
    }
  }

  lemma {:induction false} HeadsElsewhere(queues: map<byte, seq<Pending>>, queues': map<byte, seq<Pending>>, eps: seq<byte>, ep: byte)
    requires ep !in eps && forall e: byte :: e != ep ==> Q(queues', e) == Q(queues, e)
    ensures Heads(queues', eps) == Heads(queues, eps)
  {
    if eps != [] { HeadsElsewhere(queues, queues', eps[1..], ep); }
  }

  /**
   * With no control transfer about, nothing reserved and a port that takes everything, one round hands out the
   * head of every queue that has one, in ascending order of endpoints, and nothing else.
   */
  lemma RoundServesEveryEndpoint(s: Exporter, reply: Token -> u16)
    requires Device(s) && s.state == Leased && AlwaysOk(reply) && Unhindered(s, ENDPOINTS)
    ensures var r := Step(s, EAdmit(reply));
            r.port.accepted == s.port.accepted + Heads(s.queues, ENDPOINTS) && forall e: byte :: HeadIsOut(s, r, e)
  {
    AllEndpointsListed();
    assert s.attached && Step(s, EAdmit(reply)) == AdmitEach(s, ENDPOINTS, reply);
    HandsOutHeads(s, ENDPOINTS, reply);
    forall e: byte ensures HeadIsOut(s, AdmitEach(s, ENDPOINTS, reply), e) { HandsOutEach(s, ENDPOINTS, e, reply); }
  }

  // ------------------------------------------------------------ nobody starves

  /** A round of a port that takes what it is offered and finishes it. */
  datatype Round = Round(reply: Token -> u16, outcomes: seq<Outcome>)

  function AfterRound(s: Exporter, r: Round): Exporter { Step(Step(s, EAdmit(r.reply)), ECollect(r.outcomes)) }

  ghost predicate Finishes(s: Exporter, r: Round) {
    && AlwaysOk(r.reply)
    && var p := Step(s, EAdmit(r.reply)).port;
       LegalPoll(p, r.outcomes) && forall t :: t in p.outstanding ==> Named(r.outcomes, t)
  }

  ghost predicate AllFinish(s: Exporter, rs: seq<Round>)
    decreases |rs|
  {
    rs == [] || (Finishes(s, rs[0]) && AllFinish(AfterRound(s, rs[0]), rs[1..]))
  }

  function AfterRounds(s: Exporter, rs: seq<Round>): Exporter
    decreases |rs|
  {
    if rs == [] then s else AfterRounds(AfterRound(s, rs[0]), rs[1..])
  }

  /** Leased, and nothing is on the device. */
  ghost predicate Idling(s: Exporter) { Device(s) && s.state == Leased && s.port.outstanding == map[] }

  lemma IdlingIsClear(s: Exporter)
    requires Idling(s)
    ensures s.inFlight == map[] && s.busy == map[]
  {
    assert forall t :: t !in s.inFlight;
    assert forall e :: e !in s.busy;
  }

  /** On an idle device the first endpoint with anything queued gets its head out. */
  lemma {:induction false} SomebodyGoes(s: Exporter, eps: seq<byte>, ep: byte, reply: Token -> u16)
    requires Idling(s) && AlwaysOk(reply) && ep in eps && Q(s.queues, ep) != []
    ensures AdmitEach(s, eps, reply).inFlight != map[]
    decreases |eps|
  {
    IdlingIsClear(s);
    if Q(s.queues, eps[0]) == [] {
      SomebodyGoes(s, eps[1..], ep, reply);
    } else {
      var m := AdmitOne(s, eps[0], reply);
      assert reply(s.nextToken) == Status.OK && s.nextToken in m.inFlight;
      AdmitOneDevice(s, eps[0], reply);
      AdmitKeepsFlights(m, eps[1..], reply);
    }
  }

  /** A reported transfer is answered. */
  lemma CollectLands(s: Exporter, o: Outcome, t: Token)
    requires Wired(s) && t in s.inFlight
    ensures o.token == t ==> |CollectOne(s, o).answers| == |s.answers| + 1
    ensures o.token != t ==> t in CollectOne(s, o).inFlight && |CollectOne(s, o).answers| >= |s.answers|
  {
    assert t in s.port.outstanding && t !in s.verbs;
  }

  lemma {:induction false} ReportedIsAnswered(s: Exporter, os: seq<Outcome>, t: Token)
    requires Wired(s) && Lifecycle(s) && t in s.inFlight && Named(os, t)
    ensures |CollectAll(s, os).answers| > |s.answers|
    decreases |os|
  {
    CollectGrows(CollectOne(s, os[0]), os[1..]);
    CollectLands(s, os[0], t);
    if t != os[0].token {
      NamedSplit(os, t);
      CollectOneWired(s, os[0]);
      ReportedIsAnswered(CollectOne(s, os[0]), os[1..], t);
    }
  }

  lemma {:induction false} CollectKeepsLease(s: Exporter, os: seq<Outcome>)
    ensures CollectAll(s, os).state == s.state && CollectAll(s, os).attached == s.attached && CollectAll(s, os).intakes == s.intakes
    decreases |os|
  {
    if os != [] { CollectKeepsLease(CollectOne(s, os[0]), os[1..]); }
  }

  lemma {:induction false} AdmitKeepsLease(s: Exporter, eps: seq<byte>, reply: Token -> u16)
    ensures var r := AdmitEach(s, eps, reply); r.state == s.state && r.attached == s.attached && r.intakes == s.intakes
    decreases |eps|
  {
    if eps != [] { AdmitKeepsLease(AdmitOne(s, eps[0], reply), eps[1..], reply); }
  }

  /** Of an idle session's transfers every one not yet answered is queued. */
  lemma UnansweredIsQueued(s: Exporter, n: nat)
    requires Idling(s) && n < |s.intakes| && !IsAnswered(s, n)
    ensures Q(s.queues, s.intakes[n].sb.epAddr) != []
  {
    IdlingIsClear(s);
    assert InQueue(s, n) || Flying(s, n);
  }

  /** The first half of a round, on an idle device. */
  lemma RoundAdmits(s: Exporter, m: Exporter, reply: Token -> u16)
    requires Idling(s) && AlwaysOk(reply) && m == AdmitEach(s, ENDPOINTS, reply)
    ensures Device(m) && m.state == Leased && m.attached && m.intakes == s.intakes && s.answers <= m.answers
  {
    AdmitEachDevice(s, ENDPOINTS, reply);
    AdmitKeepsLease(s, ENDPOINTS, reply);
    AdmitGrows(s, ENDPOINTS, reply);
  }

  lemma RoundStarts(s: Exporter, m: Exporter, reply: Token -> u16, n: nat)
    requires Idling(s) && AlwaysOk(reply) && m == AdmitEach(s, ENDPOINTS, reply) && n < |s.intakes| && !IsAnswered(s, n)
    ensures m.inFlight != map[]
  {
    UnansweredIsQueued(s, n);
    AllEndpointsListed();
    SomebodyGoes(s, ENDPOINTS, s.intakes[n].sb.epAddr, reply);
  }

  /** The second half: everything on the device is reported. */
  lemma RoundCollects(m: Exporter, os: seq<Outcome>)
    requires Device(m) && m.state == Leased && m.attached && forall t :: t in m.port.outstanding ==> Named(os, t)
    ensures var x := Step(m, ECollect(os));
            && Idling(x) && x.intakes == m.intakes && m.answers <= x.answers
            && (m.inFlight != map[] ==> |x.answers| > |m.answers|)
  {
    CollectAllDevice(m, os);
    CollectKeepsLease(m, os);
    CollectGrows(m, os);
    CollectAllReports(m, os);
    assert forall t :: t !in CollectAll(m, os).port.outstanding;
    if m.inFlight != map[] {
      var t :| t in m.inFlight;
      assert t in m.port.outstanding;
      ReportedIsAnswered(m, os, t);
    }
  }

  lemma RoundAnswers(s: Exporter, r: Round)
    requires Idling(s) && Finishes(s, r)
    ensures var x := AfterRound(s, r);
            && Idling(x) && x.intakes == s.intakes && s.answers <= x.answers
            && ((exists n: nat :: n < |s.intakes| && !IsAnswered(s, n)) ==> |x.answers| > |s.answers|)
  {
    var m := AdmitEach(s, ENDPOINTS, r.reply);
    assert Step(s, EAdmit(r.reply)) == m;
    RoundAdmits(s, m, r.reply);
    RoundCollects(m, r.outcomes);
    if n: nat :| n < |s.intakes| && !IsAnswered(s, n) { RoundStarts(s, m, r.reply, n); }
  }

  ghost predicate DistinctBelow(xs: seq<nat>, n: nat) {
    (forall i :: 0 <= i < |xs| ==> xs[i] < n) && forall i, j :: 0 <= i < j < |xs| ==> xs[i] != xs[j]
  }

  lemma TopRemoved(xs: seq<nat>, n: nat, i: nat)
    requires n > 0 && DistinctBelow(xs, n) && i < |xs| && xs[i] == n - 1
    ensures DistinctBelow(xs[..i] + xs[i + 1..], n - 1)
  {
    var ys := xs[..i] + xs[i + 1..];
    forall j | 0 <= j < |ys| ensures ys[j] < n - 1 { assert ys[j] == xs[if j < i then j else j + 1]; }
  }

  /** Different numbers below `n`: no more than `n` of them, and if as many then all. */
  lemma {:induction false} Pigeons(xs: seq<nat>, n: nat)
    requires DistinctBelow(xs, n)
    ensures |xs| <= n && (|xs| == n ==> forall k: nat :: k < n ==> k in xs)
    decreases n
  {
    if xs != [] {
      var first := xs[0];
      if i :| 0 <= i < |xs| && xs[i] == n - 1 {
        var ys := xs[..i] + xs[i + 1..];
        TopRemoved(xs, n, i);
        Pigeons(ys, n - 1);
        forall k: nat | |xs| == n && k < n ensures k in xs { if k < n - 1 { assert k in ys; } else { assert xs[i] == k; } }
      } else {
        assert first < n - 1;
        Pigeons(xs, n - 1);
      }
    }
  }

  lemma AnswersFit(s: Exporter)
    requires Ledger(s)
    ensures |s.answers| <= |s.intakes| && (|s.answers| == |s.intakes| ==> forall n: nat :: n < |s.intakes| ==> IsAnswered(s, n))
  {
    var xs := seq(|s.answers|, (i: int) requires 0 <= i < |s.answers| => s.answers[i].serial);
    forall i | 0 <= i < |xs| ensures xs[i] < |s.intakes| { assert AnswerOk(s, s.answers[i]); }
    Pigeons(xs, |s.intakes|);
    if |s.answers| == |s.intakes| {
      forall n: nat | n < |s.intakes| ensures IsAnswered(s, n) {
        assert n in xs;
        var i :| 0 <= i < |xs| && xs[i] == n;
        assert s.answers[i].serial == n;
      }
    }
  }

  /**
   * Nobody starves. On a port that takes what it is offered and finishes it by the next poll, as many rounds as
   * there are unanswered transfers, control and data mixed in any way, answer every one.
   */
  lemma {:induction false} NobodyStarves(s: Exporter, rs: seq<Round>)
    requires Idling(s) && AllFinish(s, rs) && |s.intakes| <= |s.answers| + |rs|
    ensures var r := AfterRounds(s, rs); r.intakes == s.intakes && forall n: nat :: n < |s.intakes| ==> IsAnswered(r, n)
    decreases |rs|
  {
    AnswersFit(s);
    if rs != [] {
      var x := AfterRound(s, rs[0]);
      RoundAnswers(s, rs[0]);
      AnswersFit(x);
      if forall n: nat :: n < |s.intakes| ==> IsAnswered(s, n) {
        StayAnswered(s, rs);
      } else {
        NobodyStarves(x, rs[1..]);
      }
    }
  }

  lemma {:induction false} StayAnswered(s: Exporter, rs: seq<Round>)
    requires Idling(s) && AllFinish(s, rs)
    ensures var r := AfterRounds(s, rs); r.intakes == s.intakes && forall n: nat :: IsAnswered(s, n) ==> IsAnswered(r, n)
    decreases |rs|
  {
    if rs != [] {
      var x := AfterRound(s, rs[0]);
      RoundAnswers(s, rs[0]);
      StayAnswered(x, rs[1..]);
      forall n: nat | IsAnswered(s, n) ensures IsAnswered(x, n) {
        var i :| 0 <= i < |s.answers| && s.answers[i].serial == n;
        assert x.answers[i] == s.answers[i];
      }
    }
  }

  // ------------------------------------------------------------ a port that finishes at once

  /** A transfer handed out in a pump and reported by the poll behind it is answered within that same pump. */
  lemma AnsweredInTheSamePump(s: Exporter, i: PumpInput, n: nat)
    requires Device(s) && s.state == Leased && n < |s.intakes|
    requires ReportedNow(Scheduler.Admit(Collect(s, i.first), i.maySubmit), i.second, n)
    ensures IsAnswered(Worked(s, i), n)
  {
    var c := CollectAll(s, i.first);
    CollectAllDevice(s, i.first);
    CollectKeepsLease(s, i.first);
    AdmitEachDevice(c, ENDPOINTS, i.maySubmit);
    AdmitKeepsLease(c, ENDPOINTS, i.maySubmit);
    PolledIsAnswered(AdmitEach(c, ENDPOINTS, i.maySubmit), i.second, n);
  }

  lemma PolledIsAnswered(m: Exporter, os: seq<Outcome>, n: nat)
    requires Device(m) && n < |m.intakes| && ReportedNow(m, os, n)
    ensures IsAnswered(CollectAll(m, os), n)
  {
    PolledAll(m, os);
    CollectAllKeeps(m, os);
    PollSettles(m, CollectAll(m, os), os, n);
  }
}
