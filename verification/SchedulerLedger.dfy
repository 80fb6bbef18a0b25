/**
 * Invariant I1: every transfer taken in is, at every moment of every run, in exactly one
 * of three places: its endpoint's queue, the in-flight table, or the log of answers.
 */
module SchedulerLedger {
  import opened Wire
  import Status
  import opened Scheduler

  ghost predicate QueueSorted(q: seq<Pending>) {
    forall i, j :: 0 <= i < j < |q| ==> q[i].serial < q[j].serial
  }

  ghost predicate QueueOk(s: Exporter, ep: byte) {
    && QueueSorted(Q(s.queues, ep))
    && forall i :: 0 <= i < |Q(s.queues, ep)| ==>
         var p := Q(s.queues, ep)[i];
         p.serial < |s.intakes| && p.req == s.intakes[p.serial] && p.req.sb.epAddr == ep
  }

  /** The answer names the request it answers, carries the bytes it claims, and never claims more than was asked for. */
  ghost predicate AnswerOk(s: Exporter, a: Answer) {
    && a.serial < |s.intakes|
    && var r := s.intakes[a.serial];
       && a.channel == r.channel && a.requestId == r.requestId
       && (a.Complete? ==>
             && a.body.epAddr == r.sb.epAddr && a.body.xferType == r.sb.xferType && a.body.dir == r.sb.dir
             && a.body.requestedLen == r.sb.bufferLen && a.body.actualLen <= a.body.requestedLen
             && a.body.submitTsNs == r.sb.submitTsNs
             && a.body.payloadLen == Trunc32(|a.payload|)
             && (if r.sb.dir == DIR_IN then a.body.actualLen == a.body.payloadLen else a.payload == []))
  }

  ghost predicate InQueue(s: Exporter, n: nat) {
    && n < |s.intakes|
    && var q := Q(s.queues, s.intakes[n].sb.epAddr);
       exists i :: 0 <= i < |q| && q[i].serial == n
  }

  ghost predicate Flying(s: Exporter, n: nat) {
    exists t :: t in s.inFlight && s.inFlight[t].serial == n
  }

  ghost predicate IsAnswered(s: Exporter, n: nat) {
    exists i :: 0 <= i < |s.answers| && s.answers[i].serial == n
  }

  ghost predicate Shape(s: Exporter) {
    && (forall ep: byte :: QueueOk(s, ep))
    && (forall t :: t in s.inFlight ==>
          s.inFlight[t].serial < |s.intakes| && s.inFlight[t].req == s.intakes[s.inFlight[t].serial] && t < s.nextToken)
    && (forall t, t' :: t in s.inFlight && t' in s.inFlight && t != t' ==> s.inFlight[t].serial != s.inFlight[t'].serial)
    && (forall i :: 0 <= i < |s.answers| ==> AnswerOk(s, s.answers[i]))
    && (forall i, j :: 0 <= i < j < |s.answers| ==> s.answers[i].serial != s.answers[j].serial)
  }

  /** I1. */
  ghost predicate Ledger(s: Exporter) {
    && Shape(s)
    && (forall n: nat :: !(InQueue(s, n) && Flying(s, n)) && !(InQueue(s, n) && IsAnswered(s, n)) && !(Flying(s, n) && IsAnswered(s, n)))
    && (forall n: nat :: n < |s.intakes| ==> InQueue(s, n) || Flying(s, n) || IsAnswered(s, n))
  }

  lemma MakeAnswerOk(s: Exporter, f: InFlight, st: u16, actualLen: u32, cancelled: bool, zlpSent: bool, payload: Bytes)
    requires f.serial < |s.intakes| && f.req == s.intakes[f.serial]
    ensures AnswerOk(s, MakeAnswer(f, st, actualLen, cancelled, zlpSent, payload))
    ensures MakeAnswer(f, st, actualLen, cancelled, zlpSent, payload).serial == f.serial
  {}

  // ------------------------------------------------------------ the five ways a transfer moves

  /** queue position -> answered */
  lemma RetireAtKeeps(s: Exporter, ep: byte, i: nat, st: u16, cancelled: bool)
    requires Ledger(s) && i < |Q(s.queues, ep)|
    ensures Ledger(RetireAt(s, ep, i, st, cancelled))
  {
    var r := RetireAt(s, ep, i, st, cancelled);
    var q := Q(s.queues, ep);
    var n0 := q[i].serial;
    assert QueueOk(s, ep);
    MakeAnswerOk(s, FlightOf(q[i]), st, 0, cancelled, false, []);
    assert Q(r.queues, ep) == q[..i] + q[i + 1..];
    assert InQueue(s, n0);
    QueuesStayOk(s, r, ep, i);
    forall n: nat ensures InQueue(r, n) <==> InQueue(s, n) && n != n0 { RemovedFromQueue(s, r, ep, i, n); }
    AnsweredGrows(s, r, n0);
    assert forall n: nat :: Flying(r, n) <==> Flying(s, n);
  }

  /** Taking out one element of a sorted queue takes out exactly its serial. */
  lemma SerialRemoved(q: seq<Pending>, i: nat, n: nat)
    requires QueueSorted(q) && i < |q|
    ensures var q' := q[..i] + q[i + 1..];
            (exists k :: 0 <= k < |q'| && q'[k].serial == n) <==>
            (exists k :: 0 <= k < |q| && q[k].serial == n) && n != q[i].serial
  {
    var q' := q[..i] + q[i + 1..];
    if k :| 0 <= k < |q| && q[k].serial == n && n != q[i].serial {
      assert q'[if k < i then k else k - 1].serial == n;
    }
    if k :| 0 <= k < |q'| && q'[k].serial == n {
      assert q[if k < i then k else k + 1].serial == n;
    }
  }

  lemma RemovedFromQueue(s: Exporter, r: Exporter, ep: byte, i: nat, n: nat)
    requires (forall e: byte :: QueueOk(s, e)) && i < |Q(s.queues, ep)|
    requires r.intakes == s.intakes
    requires r.queues == s.queues[ep := Q(s.queues, ep)[..i] + Q(s.queues, ep)[i + 1..]]
    ensures InQueue(r, n) <==> InQueue(s, n) && n != Q(s.queues, ep)[i].serial
  {
    assert QueueOk(s, ep);
    SerialRemoved(Q(s.queues, ep), i, n);
    if n < |s.intakes| && s.intakes[n].sb.epAddr == ep {
      assert Q(r.queues, ep) == Q(s.queues, ep)[..i] + Q(s.queues, ep)[i + 1..];
    } else if n < |s.intakes| {
      assert Q(r.queues, s.intakes[n].sb.epAddr) == Q(s.queues, s.intakes[n].sb.epAddr);
    }
  }

  /** The log gained exactly one answer, for `n0`. */
  lemma AnsweredGrows(s: Exporter, r: Exporter, n0: nat)
    requires |r.answers| == |s.answers| + 1 && r.answers[..|s.answers|] == s.answers
    requires r.answers[|s.answers|].serial == n0
    ensures forall n: nat :: IsAnswered(r, n) <==> IsAnswered(s, n) || n == n0
  {
    forall n: nat ensures IsAnswered(r, n) <==> IsAnswered(s, n) || n == n0 {
      assert forall i :: 0 <= i < |s.answers| ==> r.answers[i] == s.answers[i];
      if n == n0 { assert r.answers[|s.answers|].serial == n; }
    }
  }

  lemma FlyingShrinks(s: Exporter, r: Exporter, t: Token)
    requires Shape(s) && t in s.inFlight && r.inFlight == s.inFlight - {t}
    ensures forall n: nat :: Flying(r, n) <==> Flying(s, n) && n != s.inFlight[t].serial
  {
    forall n: nat ensures Flying(r, n) <==> Flying(s, n) && n != s.inFlight[t].serial {
      if Flying(s, n) && n != s.inFlight[t].serial {
        var u :| u in s.inFlight && s.inFlight[u].serial == n;
        assert u in r.inFlight;
      }
    }
  }

  lemma LandShape(s: Exporter, t: Token, a: Answer, r: Exporter)
    requires Shape(s) && t in s.inFlight && AnswerOk(s, a) && !IsAnswered(s, a.serial)
    requires r.intakes == s.intakes && r.queues == s.queues && r.nextToken == s.nextToken
    requires r.inFlight == s.inFlight - {t} && r.answers == s.answers + [a]
    ensures Shape(r)
  {
    forall e: byte ensures QueueOk(r, e) { assert QueueOk(s, e); }
    forall i | 0 <= i < |r.answers| ensures AnswerOk(r, r.answers[i]) { assert AnswerOk(s, r.answers[i]); }
    forall i | 0 <= i < |s.answers| ensures s.answers[i].serial != a.serial {}
  }

  /** in flight -> answered */
  lemma LandKeeps(s: Exporter, t: Token, st: u16, actualLen: u32, cancelled: bool, zlpSent: bool, payload: Bytes, r: Exporter)
    requires Ledger(s) && t in s.inFlight
    requires r.intakes == s.intakes && r.queues == s.queues && r.nextToken == s.nextToken
    requires r.inFlight == s.inFlight - {t}
    requires r.answers == s.answers + [MakeAnswer(s.inFlight[t], st, actualLen, cancelled, zlpSent, payload)]
    ensures Ledger(r)
  {
    var n0 := s.inFlight[t].serial;
    MakeAnswerOk(s, s.inFlight[t], st, actualLen, cancelled, zlpSent, payload);
    assert Flying(s, n0);
    LandShape(s, t, r.answers[|s.answers|], r);
    AnsweredGrows(s, r, n0);
    FlyingShrinks(s, r, t);
    assert forall n: nat :: InQueue(r, n) <==> InQueue(s, n);
  }

  /** Dropping one element of one queue leaves every queue well formed. */
  lemma QueuesStayOk(s: Exporter, r: Exporter, ep: byte, i: nat)
    requires (forall e: byte :: QueueOk(s, e)) && i < |Q(s.queues, ep)|
    requires r.intakes == s.intakes
    requires r.queues == s.queues[ep := Q(s.queues, ep)[..i] + Q(s.queues, ep)[i + 1..]]
    ensures forall e: byte :: QueueOk(r, e)
  {
    forall e: byte ensures QueueOk(r, e) {
      assert QueueOk(s, e);
      if e != ep { assert Q(r.queues, e) == Q(s.queues, e); }
    }
  }

  lemma FlyingGrows(s: Exporter, r: Exporter, t: Token, f: InFlight)
    requires t !in s.inFlight && r.inFlight == s.inFlight[t := f]
    ensures forall n: nat :: Flying(r, n) <==> Flying(s, n) || n == f.serial
  {
    forall n: nat ensures Flying(r, n) <==> Flying(s, n) || n == f.serial {
      if Flying(s, n) {
        var u :| u in s.inFlight && s.inFlight[u].serial == n;
        assert u in r.inFlight && r.inFlight[u] == s.inFlight[u];
      }
      if n == f.serial { assert t in r.inFlight && r.inFlight[t].serial == n; }
    }
  }

  /** head of the queue -> in flight, under a token never used before */
  lemma LaunchKeeps(s: Exporter, ep: byte, r: Exporter)
    requires Ledger(s) && Q(s.queues, ep) != []
    requires r.intakes == s.intakes && r.answers == s.answers && r.nextToken == s.nextToken + 1
    requires r.queues == s.queues[ep := Q(s.queues, ep)[1..]]
    requires r.inFlight == s.inFlight[s.nextToken := FlightOf(Q(s.queues, ep)[0])]
    ensures Ledger(r)
  {
    var q := Q(s.queues, ep);
    var n0 := q[0].serial;
    assert QueueOk(s, ep) && InQueue(s, n0);
    assert q[..0] + q[1..] == q[1..];
    QueuesStayOk(s, r, ep, 0);
    forall n: nat ensures InQueue(r, n) <==> InQueue(s, n) && n != n0 { RemovedFromQueue(s, r, ep, 0, n); }
    FlyingGrows(s, r, s.nextToken, FlightOf(q[0]));
    assert forall n: nat :: IsAnswered(r, n) <==> IsAnswered(s, n);
    LaunchShape(s, r, FlightOf(q[0]));
  }

  lemma LaunchShape(s: Exporter, r: Exporter, f: InFlight)
    requires Shape(s) && !Flying(s, f.serial)
    requires f.serial < |s.intakes| && f.req == s.intakes[f.serial]
    requires forall e: byte :: QueueOk(r, e)
    requires r.intakes == s.intakes && r.answers == s.answers && r.nextToken == s.nextToken + 1
    requires r.inFlight == s.inFlight[s.nextToken := f]
    ensures Shape(r)
  {
    forall u | u in s.inFlight ensures s.inFlight[u].serial != f.serial { assert Flying(s, s.inFlight[u].serial); }
  }

  // ------------------------------------------------------------ intake

  lemma NewSerialIsNew(s: Exporter)
    requires Ledger(s)
    ensures !InQueue(s, |s.intakes|) && !Flying(s, |s.intakes|) && !IsAnswered(s, |s.intakes|)
  {}

  /** a new transfer, answered at once for lack of credit */
  lemma RefusedKeeps(s: Exporter, req: Intake, r: Exporter)
    requires Ledger(s)
    requires r == s.(intakes := s.intakes + [req],
      answers := s.answers + [MakeAnswer(InFlight(|s.intakes|, req, Never, false), Status.NO_RESOURCES, 0, false, false, [])])
    ensures Ledger(r)
  {
    var n0 := |s.intakes|;
    NewSerialIsNew(s);
    MakeAnswerOk(r, InFlight(n0, req, Never, false), Status.NO_RESOURCES, 0, false, false, []);
    AnsweredGrows(s, r, n0);
    forall e: byte ensures QueueOk(r, e) { assert QueueOk(s, e); }
    forall n: nat ensures InQueue(r, n) <==> InQueue(s, n) {
      if n == n0 { assert QueueOk(s, r.intakes[n].sb.epAddr); }
    }
    assert forall n: nat :: Flying(r, n) <==> Flying(s, n);
    assert forall i :: 0 <= i < |s.answers| ==> AnswerOk(s, s.answers[i]) && AnswerOk(r, s.answers[i]);
    forall i | 0 <= i < |s.answers| ensures s.answers[i].serial != n0 { assert IsAnswered(s, s.answers[i].serial); }
  }

  /** a new transfer -> back of its queue */
  lemma QueuedKeeps(s: Exporter, req: Intake, d: Deadline, r: Exporter)
    requires Ledger(s)
    requires r == s.(intakes := s.intakes + [req],
      queues := s.queues[req.sb.epAddr := Q(s.queues, req.sb.epAddr) + [Pending(|s.intakes|, req, d)]])
    ensures Ledger(r)
  {
    NewSerialIsNew(s);
    forall e: byte ensures QueueOk(r, e) { AppendedQueueOk(s, req, d, r, e); }
    forall n: nat ensures InQueue(r, n) <==> InQueue(s, n) || n == |s.intakes| { AppendedInQueue(s, req, d, r, n); }
    assert forall n: nat :: Flying(r, n) <==> Flying(s, n);
    assert forall n: nat :: IsAnswered(r, n) <==> IsAnswered(s, n);
    assert forall i :: 0 <= i < |s.answers| ==> AnswerOk(s, s.answers[i]) && AnswerOk(r, s.answers[i]);
  }

  lemma AppendedQueueOk(s: Exporter, req: Intake, d: Deadline, r: Exporter, e: byte)
    requires QueueOk(s, e)
    requires r == s.(intakes := s.intakes + [req],
      queues := s.queues[req.sb.epAddr := Q(s.queues, req.sb.epAddr) + [Pending(|s.intakes|, req, d)]])
    ensures QueueOk(r, e)
  {
    if e != req.sb.epAddr { assert Q(r.queues, e) == Q(s.queues, e); }
  }

  lemma AppendedInQueue(s: Exporter, req: Intake, d: Deadline, r: Exporter, n: nat)
    requires r == s.(intakes := s.intakes + [req],
      queues := s.queues[req.sb.epAddr := Q(s.queues, req.sb.epAddr) + [Pending(|s.intakes|, req, d)]])
    ensures InQueue(r, n) <==> InQueue(s, n) || n == |s.intakes|
  {
    var q := Q(s.queues, req.sb.epAddr);
    var q' := q + [Pending(|s.intakes|, req, d)];
    assert Q(r.queues, req.sb.epAddr) == q';
    if n == |s.intakes| {
      assert q'[|q|].serial == n;
    } else if n < |s.intakes| && s.intakes[n].sb.epAddr == req.sb.epAddr {
      if InQueue(s, n) {
        var k :| 0 <= k < |q| && q[k].serial == n;
        assert q'[k].serial == n;
      }
      if InQueue(r, n) {
        var k :| 0 <= k < |q'| && q'[k].serial == n;
        assert q[k].serial == n;
      }
    } else if n < |s.intakes| {
      assert Q(r.queues, s.intakes[n].sb.epAddr) == Q(s.queues, s.intakes[n].sb.epAddr);
    }
  }

  lemma EnqueueKeeps(s: Exporter, now: nat, req: Intake)
    requires Ledger(s)
    ensures Ledger(Enqueue(s, now, req))
  {
    var r := Enqueue(s, now, req);
    if r.queues == s.queues && r.answers != s.answers { RefusedKeeps(s, req, r); }
    else { QueuedKeeps(s, req, AfterMs(now, DeadlineMsFor(req.sb.xferType)), r); }
  }

  // ------------------------------------------------------------ whole steps

  /** Nothing the ledger reads changed. */
  lemma Unmoved(s: Exporter, r: Exporter)
    requires Ledger(s)
    requires forall ep: byte :: Q(r.queues, ep) == Q(s.queues, ep)
    requires r.intakes == s.intakes && r.answers == s.answers && r.nextToken >= s.nextToken
    requires r.inFlight.Keys == s.inFlight.Keys
    requires forall t :: t in s.inFlight ==> r.inFlight[t].serial == s.inFlight[t].serial && r.inFlight[t].req == s.inFlight[t].req
    ensures Ledger(r)
  {
    forall ep: byte ensures QueueOk(r, ep) { assert QueueOk(s, ep); }
    assert forall n: nat :: InQueue(r, n) <==> InQueue(s, n);
    assert forall n: nat :: IsAnswered(r, n) <==> IsAnswered(s, n);
    forall n: nat ensures Flying(r, n) <==> Flying(s, n) {
      if Flying(s, n) {
        var t :| t in s.inFlight && s.inFlight[t].serial == n;
        assert t in r.inFlight && r.inFlight[t].serial == n;
      }
    }
    forall i | 0 <= i < |r.answers| ensures AnswerOk(r, r.answers[i]) { assert AnswerOk(s, s.answers[i]); }
  }

  lemma AdmitOneKeeps(s: Exporter, ep: byte, reply: Token -> u16)
    requires Ledger(s)
    ensures Ledger(AdmitOne(s, ep, reply))
  {
    var r := AdmitOne(s, ep, reply);
    var q := Q(s.queues, ep);
    var v := reply(s.nextToken);
    if q == [] || !MayAdmit(s, ep) {
    } else if v == Status.BUSY {
      Unmoved(s, r);
    } else if v != Status.OK {
      assert q[..0] + q[1..] == q[1..];
      RetireAtKeeps(s, ep, 0, v, false);
      Unmoved(RetireAt(s, ep, 0, v, false), r);
    } else {
      LaunchKeeps(s, ep, r);
    }
  }

  lemma {:induction false} AdmitEachKeeps(s: Exporter, eps: seq<byte>, reply: Token -> u16)
    requires Ledger(s)
    ensures Ledger(AdmitEach(s, eps, reply))
    decreases |eps|
  {
    if eps != [] {
      AdmitOneKeeps(s, eps[0], reply);
      AdmitEachKeeps(AdmitOne(s, eps[0], reply), eps[1..], reply);
    }
  }

  lemma CollectOneKeeps(s: Exporter, o: Outcome)
    requires Ledger(s)
    ensures Ledger(CollectOne(s, o))
  {
    var r := CollectOne(s, o);
    if o.token in s.verbs || o.token !in s.inFlight { Unmoved(s, r); }
    else { LandKeeps(s, o.token, o.status, o.actualLen, o.cancelled, o.zlpSent, o.dataIn, r); }
  }

  lemma {:induction false} CollectAllKeeps(s: Exporter, os: seq<Outcome>)
    requires Ledger(s)
    ensures Ledger(CollectAll(s, os))
    decreases |os|
  {
    if os != [] {
      CollectOneKeeps(s, os[0]);
      CollectAllKeeps(CollectOne(s, os[0]), os[1..]);
    }
  }

  /** Retiring touches one queue and the answers, nothing else. */
  lemma {:induction false} RetireFromKeeps(s: Exporter, ep: byte, i: nat, gone: Pending -> bool, st: u16, cancelled: bool)
    requires Ledger(s)
    ensures var r := RetireFrom(s, ep, i, gone, st, cancelled);
            && Ledger(r)
            && r == s.(queues := r.queues, answers := r.answers)
            && (forall e: byte :: e != ep ==> Q(r.queues, e) == Q(s.queues, e))
    decreases |Q(s.queues, ep)| - i
  {
    var q := Q(s.queues, ep);
    if i >= |q| {
    } else if gone(q[i]) {
      RetireAtKeeps(s, ep, i, st, cancelled);
      RetireFromKeeps(RetireAt(s, ep, i, st, cancelled), ep, i, gone, st, cancelled);
    } else {
      RetireFromKeeps(s, ep, i + 1, gone, st, cancelled);
    }
  }

  lemma {:induction false} RetireEachKeeps(s: Exporter, eps: seq<byte>, gone: Pending -> bool, st: u16, cancelled: bool)
    requires Ledger(s)
    ensures var r := RetireEach(s, eps, gone, st, cancelled);
            Ledger(r) && r == s.(queues := r.queues, answers := r.answers)
    decreases |eps|
  {
    if eps != [] {
      RetireFromKeeps(s, eps[0], 0, gone, st, cancelled);
      RetireEachKeeps(RetireFrom(s, eps[0], 0, gone, st, cancelled), eps[1..], gone, st, cancelled);
    }
  }

  ghost predicate NoneGone(q: seq<Pending>, n: nat, gone: Pending -> bool) {
    forall k :: 0 <= k < n && k < |q| ==> !gone(q[k])
  }

  /** Nothing `gone` picks is left in a queue after a retirement. */
  lemma {:induction false} RetireFromLeaves(s: Exporter, ep: byte, i: nat, gone: Pending -> bool, st: u16, cancelled: bool)
    requires NoneGone(Q(s.queues, ep), i, gone)
    ensures var q := Q(RetireFrom(s, ep, i, gone, st, cancelled).queues, ep); NoneGone(q, |q|, gone)
    decreases |Q(s.queues, ep)| - i
  {
    var q := Q(s.queues, ep);
    if i >= |q| {
    } else if gone(q[i]) {
      var m := RetireAt(s, ep, i, st, cancelled);
      assert NoneGone(Q(m.queues, ep), i, gone);
      RetireFromLeaves(m, ep, i, gone, st, cancelled);
    } else {
      RetireFromLeaves(s, ep, i + 1, gone, st, cancelled);
    }
  }

  /** Outside `eps` no queue holds anything `gone` picks. */
  ghost predicate SparedBut(queues: map<byte, seq<Pending>>, eps: seq<byte>, gone: Pending -> bool) {
    forall e: byte :: e !in eps ==> NoneGone(Q(queues, e), |Q(queues, e)|, gone)
  }

  lemma {:induction false} RetireEachLeaves(s: Exporter, eps: seq<byte>, gone: Pending -> bool, st: u16, cancelled: bool)
    requires Ledger(s) && SparedBut(s.queues, eps, gone)
    ensures SparedBut(RetireEach(s, eps, gone, st, cancelled).queues, [], gone)
    decreases |eps|
  {
    if eps != [] {
      var m := RetireFrom(s, eps[0], 0, gone, st, cancelled);
      RetireFromKeeps(s, eps[0], 0, gone, st, cancelled);
      RetireFromLeaves(s, eps[0], 0, gone, st, cancelled);
      forall e: byte | e !in eps[1..] ensures NoneGone(Q(m.queues, e), |Q(m.queues, e)|, gone) {
        if e != eps[0] { assert e !in eps; }
      }
      RetireEachLeaves(m, eps[1..], gone, st, cancelled);
    }
  }

  lemma AllEndpointsListed()
    ensures forall e: byte :: e in ENDPOINTS
    ensures forall i, j :: 0 <= i < j < |ENDPOINTS| ==> ENDPOINTS[i] < ENDPOINTS[j]
  {
    forall e: byte ensures e in ENDPOINTS { assert ENDPOINTS[e] == e; }
  }

  /** Retiring everything empties the queue. */
  lemma {:induction false} RetireAllEmpties(s: Exporter, ep: byte, st: u16, cancelled: bool)
    ensures Q(RetireFrom(s, ep, 0, (p: Pending) => true, st, cancelled).queues, ep) == []
    decreases |Q(s.queues, ep)|
  {
    if Q(s.queues, ep) != [] { RetireAllEmpties(RetireAt(s, ep, 0, st, cancelled), ep, st, cancelled); }
  }

  ghost predicate EmptyBut(queues: map<byte, seq<Pending>>, eps: seq<byte>) {
    forall e: byte :: e !in eps ==> Q(queues, e) == []
  }

  lemma {:induction false} RetireEachEmpties(s: Exporter, eps: seq<byte>, st: u16, cancelled: bool)
    requires Ledger(s) && EmptyBut(s.queues, eps)
    ensures EmptyBut(RetireEach(s, eps, (p: Pending) => true, st, cancelled).queues, [])
    decreases |eps|
  {
    if eps != [] {
      var m := RetireFrom(s, eps[0], 0, (p: Pending) => true, st, cancelled);
      RetireFromKeeps(s, eps[0], 0, (p: Pending) => true, st, cancelled);
      RetireAllEmpties(s, eps[0], st, cancelled);
      forall e: byte | e !in eps[1..] ensures Q(m.queues, e) == [] {
        if e != eps[0] { assert e !in eps; }
      }
      RetireEachEmpties(m, eps[1..], st, cancelled);
    }
  }

  lemma CancelAtKeeps(s: Exporter, t: Token, hit: InFlight -> bool, reply: Token -> bool)
    requires Ledger(s)
    ensures Ledger(CancelAt(s, t, hit, reply))
  {
    Unmoved(s, CancelAt(s, t, hit, reply));
  }

  lemma {:induction false} CancelFlightsKeeps(s: Exporter, t: Token, hit: InFlight -> bool, reply: Token -> bool)
    requires Ledger(s)
    ensures Ledger(CancelFlights(s, t, hit, reply))
    decreases s.nextToken - t
  {
    if t < s.nextToken {
      CancelAtKeeps(s, t, hit, reply);
      CancelFlightsKeeps(CancelAt(s, t, hit, reply), t + 1, hit, reply);
    }
  }

  lemma CancelKeeps(s: Exporter, whole: bool, ep: byte, target: u64, reply: Token -> bool)
    requires Ledger(s)
    ensures Ledger(Cancel(s, whole, ep, target, reply))
  {
    if s.state == Leased {
      var gone := (p: Pending) => Matches(whole, ep, target, p.req.sb.epAddr, p.req.requestId);
      var flying := (f: InFlight) => Matches(whole, ep, target, f.req.sb.epAddr, f.req.requestId);
      RetireFromKeeps(s, ep, 0, gone, Status.XFER_CANCELLED, true);
      CancelFlightsKeeps(RetireFrom(s, ep, 0, gone, Status.XFER_CANCELLED, true), 0, flying, reply);
    }
  }

  lemma SweepAtKeeps(s: Exporter, t: Token, now: nat, reply: Token -> bool)
    requires Ledger(s)
    ensures Ledger(SweepAt(s, t, now, reply))
  {
    var r := SweepAt(s, t, now, reply);
    if !Overdue(s, t, now) || (s.attached && reply(t)) { Unmoved(s, r); }
    else { LandKeeps(s, t, Status.XFER_TIMEOUT, 0, false, false, [], r); }
  }

  lemma {:induction false} SweepFlightsKeeps(s: Exporter, t: Token, now: nat, reply: Token -> bool)
    requires Ledger(s)
    ensures Ledger(SweepFlights(s, t, now, reply))
    decreases s.nextToken - t
  {
    if t < s.nextToken {
      SweepAtKeeps(s, t, now, reply);
      SweepFlightsKeeps(SweepAt(s, t, now, reply), t + 1, now, reply);
    }
  }

  lemma SweepKeeps(s: Exporter, now: nat, reply: Token -> bool)
    requires Ledger(s)
    ensures Ledger(Sweep(s, now, reply))
  {
    var gone := (p: Pending) => Expired(p.deadline, now);
    RetireEachKeeps(s, ENDPOINTS, gone, Status.XFER_TIMEOUT, false);
    SweepFlightsKeeps(RetireEach(s, ENDPOINTS, gone, Status.XFER_TIMEOUT, false), 0, now, reply);
  }

  lemma {:induction false} AbortAllKeeps(s: Exporter, st: u16, os: seq<Outcome>)
    requires Ledger(s)
    ensures Ledger(AbortAll(s, st, os)) && AbortAll(s, st, os).nextToken == s.nextToken
    decreases |os|
  {
    if os != [] {
      var o := os[0];
      var r := AbortOne(s, st, o);
      if o.token in s.verbs || o.token !in s.inFlight { Unmoved(s, r); }
      else { LandKeeps(s, o.token, if o.status == Status.OK then st else o.status, o.actualLen, true, o.zlpSent, o.dataIn, r); }
      AbortAllKeeps(r, st, os[1..]);
    }
  }

  lemma FailAtKeeps(s: Exporter, t: Token, st: u16)
    requires Ledger(s)
    ensures Ledger(FailAt(s, t, st))
  {
    if t in s.inFlight { LandKeeps(s, t, st, 0, true, false, [], FailAt(s, t, st)); }
  }

  lemma {:induction false} FailFlightsKeeps(s: Exporter, t: Token, st: u16)
    requires Ledger(s)
    ensures Ledger(FailFlights(s, t, st))
    decreases s.nextToken - t
  {
    if t < s.nextToken {
      FailAtKeeps(s, t, st);
      FailFlightsKeeps(FailAt(s, t, st), t + 1, st);
    }
  }

  lemma {:induction false} FailFlightsEmpties(s: Exporter, t: Token, st: u16)
    requires forall u :: u in s.inFlight ==> t <= u < s.nextToken
    ensures var r := FailFlights(s, t, st); r == s.(inFlight := map[], answers := r.answers)
    decreases s.nextToken - t
  {
    if t >= s.nextToken {
      assert s.inFlight == map[];
    } else {
      FailFlightsEmpties(FailAt(s, t, st), t + 1, st);
    }
  }

  /** After the three passes nothing is queued or in flight, so clearing the tables loses nothing. */
  lemma FailEachKeeps(s: Exporter, st: u16, os: seq<Outcome>)
    requires Ledger(s)
    ensures var r := FailEach(s, st, os);
            Ledger(r) && r.inFlight == map[] && EmptyBut(r.queues, []) && r.intakes == s.intakes
  {
    var s1 := if s.attached then AbortAll(s, st, os) else s;
    if s.attached { AbortAllKeeps(s, st, os); AbortAllLogs(s, st, os); }
    var s2 := FailFlights(s1, 0, st);
    FailFlightsKeeps(s1, 0, st);
    FailFlightsEmpties(s1, 0, st);
    RetireEachKeeps(s2, ENDPOINTS, (p: Pending) => true, st, true);
    AllEndpointsListed();
    RetireEachEmpties(s2, ENDPOINTS, st, true);
  }

  lemma FailAllKeeps(s: Exporter, st: u16, os: seq<Outcome>)
    requires Ledger(s)
    ensures Ledger(FailAll(s, st, os)) && FailAll(s, st, os).intakes == s.intakes
  {
    FailEachKeeps(s, st, os);
    Unmoved(FailEach(s, st, os), FailAll(s, st, os));
  }

  lemma {:induction false} AbortAllLogs(s: Exporter, st: u16, os: seq<Outcome>)
    ensures AbortAll(s, st, os).intakes == s.intakes
    decreases |os|
  {
    if os != [] { AbortAllLogs(AbortOne(s, st, os[0]), st, os[1..]); }
  }

  lemma TeardownKeeps(s: Exporter, st: u16, os: seq<Outcome>, r: Exporter)
    requires Ledger(s)
    requires var f := FailAll(s, st, os); r == f.(state := r.state, attached := r.attached)
    ensures Ledger(r)
  {
    FailAllKeeps(s, st, os);
    Unmoved(FailAll(s, st, os), r);
  }

  lemma ClearHaltKeeps(s: Exporter, e: Event)
    requires Ledger(s) && e.EClearHalt?
    ensures Ledger(Step(s, e))
  {
    Unmoved(s, Step(s, e));
  }

  lemma AttachKeeps(s: Exporter, e: Event)
    requires Ledger(s) && e.EAttach?
    ensures Ledger(Step(s, e))
  {
    Unmoved(s, Step(s, e));
  }

  lemma DetachKeeps(s: Exporter, e: Event)
    requires Ledger(s) && e.EDetach?
    ensures Ledger(Step(s, e))
  {
    TeardownKeeps(s, Status.XFER_CANCELLED, e.drained, Step(s, e));
  }

  lemma OrphanKeeps(s: Exporter, e: Event)
    requires Ledger(s) && e.EOrphan?
    ensures Ledger(Step(s, e))
  {
    TeardownKeeps(s, e.orphanStatus, e.lost, Step(s, e));
  }

  lemma CloseKeeps(s: Exporter, e: Event)
    requires Ledger(s) && e.EClose?
    ensures Ledger(Step(s, e))
  {
    if s.attached { TeardownKeeps(s, Status.DETACHING, e.closed, Step(s, e)); }
    else { Unmoved(s, Step(s, e)); }
  }

  lemma StepKeepsLedger(s: Exporter, e: Event)
    requires Ledger(s)
    ensures Ledger(Step(s, e))
  {
    match e
    case EIntake(now, req) => EnqueueKeeps(s, now, req);
    case ECancel(whole, ep, target, reply) => CancelKeeps(s, whole, ep, target, reply);
    case EAdmit(reply) => AdmitEachKeeps(s, ENDPOINTS, reply);
    case ECollect(os) => CollectAllKeeps(s, os);
    case ESweep(now, reply) => SweepKeeps(s, now, reply);
    case EClearHalt(_, _, _) => ClearHaltKeeps(s, e);
    case EAttach => AttachKeeps(s, e);
    case EDetach(_) => DetachKeeps(s, e);
    case EOrphan(_, _) => OrphanKeeps(s, e);
    case EClose(_, _) => CloseKeeps(s, e);
  }

  /**
   * I1 over whole runs. Whatever the peer sends and whatever the port replies, each transfer
   * taken in is queued, in flight or answered, never two of these and never answered twice.
   */
  lemma {:induction false} RunKeepsLedger(s: Exporter, es: seq<Event>)
    requires Ledger(s)
    ensures Ledger(Run(s, es))
    decreases |es|
  {
    if es != [] {
      StepKeepsLedger(s, es[0]);
      RunKeepsLedger(Step(s, es[0]), es[1..]);
    }
  }

  lemma InitialLedger()
    ensures Ledger(INITIAL)
  {}
}
