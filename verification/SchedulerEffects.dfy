/**
 * What each step of the scheduler does, in terms of what the peer and the port see: what is taken in,
 * which transfers a CANCEL and a sweep answer and which they leave, and what a poll settles.
 */
module SchedulerEffects {
  import opened Wire
  import Status
  import opened Scheduler
  import opened SchedulerLedger
  import opened SchedulerDevice
  import opened SchedulerSafety

  // ------------------------------------------------------------ one answer, field by field

  /** The COMPLETE of one retired transfer. */
  predicate Says(a: Answer, serial: nat, req: Intake, st: u16, moved: u32, cancelled: bool, zlpSent: bool, payload: Bytes) {
    && a.Complete? && a.serial == serial && a.channel == req.channel && a.requestId == req.requestId && a.status == st
    && a.payload == payload && a.body.payloadLen == Trunc32(|payload|)
    && a.body.epAddr == req.sb.epAddr && a.body.xferType == req.sb.xferType && a.body.dir == req.sb.dir
    && a.body.requestedLen == req.sb.bufferLen && a.body.actualLen == moved && a.body.submitTsNs == req.sb.submitTsNs
    && a.body.cflags < 8
    && (a.body.cflags % 2 == 1 <==> st == Status.OK && moved < req.sb.bufferLen)
    && (a.body.cflags % 4 >= 2 <==> zlpSent)
    && (a.body.cflags >= 4 <==> cancelled)
  }

  /** A transfer is answered with what it moved, short, zero-packet and cancelled flags included, unless it claims more than was asked for. */
  lemma AnswerSays(f: InFlight, st: u16, actualLen: u32, cancelled: bool, zlpSent: bool, payload: Bytes)
    ensures var a := MakeAnswer(f, st, actualLen, cancelled, zlpSent, payload);
            var moved := if f.req.sb.dir == DIR_IN then Trunc32(|payload|) else actualLen;
            if moved > f.req.sb.bufferLen then a == Overrun(f.serial, f.req.channel, f.req.requestId)
            else Says(a, f.serial, f.req, st, moved, cancelled, zlpSent, if f.req.sb.dir == DIR_IN then payload else [])
  {}

  // ------------------------------------------------------------ intake

  /** When a transfer taken in at `now` is overdue, in nanoseconds. */
  function DueAt(now: nat, xferType: byte): Deadline {
    if xferType == INTERRUPT then Never
    else if xferType == CONTROL || xferType == ISOCHRONOUS then At(now + 5_000_000_000)
    else At(now + 30_000_000_000)
  }

  lemma DueAtIs(now: nat, xferType: byte)
    ensures AfterMs(now, DeadlineMsFor(xferType)) == DueAt(now, xferType)
  {}

  /**
   * A transfer is taken in exactly when fewer than 64 are queued or in flight and its OUT bytes fit the
   * 4 MiB; then it goes to the back of its endpoint's queue with its deadline set. Otherwise it is answered
   * NoResources at once. Nothing else changes.
   */
  lemma IntakeExactly(s: Exporter, now: nat, req: Intake)
    ensures var r := Step(s, EIntake(now, req)); var ep := req.sb.epAddr; var n := |s.intakes|;
            && r.intakes == s.intakes + [req]
            && (if QueuedOn(s.queues, ENDPOINTS) + |s.inFlight| < 64 && BytesOn(s.queues, ENDPOINTS) + |req.dataOut| <= 4 * 1024 * 1024
                then r == s.(intakes := r.intakes, queues := s.queues[ep := Q(s.queues, ep) + [Pending(n, req, DueAt(now, req.sb.xferType))]])
                else && r == s.(intakes := r.intakes, answers := r.answers) && |r.answers| == |s.answers| + 1 && s.answers <= r.answers
                     && Says(r.answers[|s.answers|], n, req, Status.NO_RESOURCES, 0, false, false, []))
  {
    DueAtIs(now, req.sb.xferType);
    AnswerSays(InFlight(|s.intakes|, req, Never, false), Status.NO_RESOURCES, 0, false, false, []);
  }

  // ------------------------------------------------------------ retiring from a queue

  function Spared(q: seq<Pending>, gone: Pending -> bool): seq<Pending> {
    if q == [] then [] else (if gone(q[0]) then [] else [q[0]]) + Spared(q[1..], gone)
  }

  /** Retiring keeps exactly the transfers not picked, in order. */
  lemma {:induction false} RetireSpares(s: Exporter, ep: byte, i: nat, gone: Pending -> bool, st: u16, cancelled: bool)
    requires i <= |Q(s.queues, ep)|
    ensures var q := Q(s.queues, ep); Q(RetireFrom(s, ep, i, gone, st, cancelled).queues, ep) == q[..i] + Spared(q[i..], gone)
    decreases |Q(s.queues, ep)| - i
  {
    var q := Q(s.queues, ep);
    if i >= |q| {
      assert q[i..] == [] && q[..i] + [] == q;
    } else if gone(q[i]) {
      var m := RetireAt(s, ep, i, st, cancelled);
      var q' := q[..i] + q[i + 1..];
      assert Q(m.queues, ep) == q' && q'[..i] == q[..i] && q'[i..] == q[i + 1..];
      RetireSpares(m, ep, i, gone, st, cancelled);
      assert q[i..][1..] == q[i + 1..] && [] + Spared(q[i + 1..], gone) == Spared(q[i + 1..], gone);
    } else {
      RetireSpares(s, ep, i + 1, gone, st, cancelled);
      assert q[i..][1..] == q[i + 1..];
      assert q[..i + 1] + Spared(q[i + 1..], gone) == q[..i] + ([q[i]] + Spared(q[i + 1..], gone));
    }
  }

  lemma {:induction false} SparedHas(q: seq<Pending>, gone: Pending -> bool, p: Pending)
    ensures p in Spared(q, gone) <==> p in q && !gone(p)
  {
    if q != [] { SparedHas(q[1..], gone, p); }
  }

  lemma {:induction false} RetireFromOthers(s: Exporter, ep: byte, i: nat, gone: Pending -> bool, st: u16, cancelled: bool, e: byte)
    requires e != ep
    ensures Q(RetireFrom(s, ep, i, gone, st, cancelled).queues, e) == Q(s.queues, e)
    decreases |Q(s.queues, ep)| - i
  {
    var q := Q(s.queues, ep);
    if i >= |q| {
    } else if gone(q[i]) {
      RetireFromOthers(RetireAt(s, ep, i, st, cancelled), ep, i, gone, st, cancelled, e);
    } else {
      RetireFromOthers(s, ep, i + 1, gone, st, cancelled, e);
    }
  }

  lemma {:induction false} RetireEachSpares(s: Exporter, eps: seq<byte>, gone: Pending -> bool, st: u16, cancelled: bool, e: byte)
    requires forall i, j :: 0 <= i < j < |eps| ==> eps[i] != eps[j]
    ensures Q(RetireEach(s, eps, gone, st, cancelled).queues, e) == if e in eps then Spared(Q(s.queues, e), gone) else Q(s.queues, e)
    decreases |eps|
  {
    if eps != [] {
      var m := RetireFrom(s, eps[0], 0, gone, st, cancelled);
      RetireEachSpares(m, eps[1..], gone, st, cancelled, e);
      if e == eps[0] {
        var q := Q(s.queues, e);
        RetireSpares(s, e, 0, gone, st, cancelled);
        assert q[..0] + Spared(q[0..], gone) == Spared(q, gone) by { assert q[0..] == q; }
        assert e !in eps[1..];
      } else {
        RetireFromOthers(s, eps[0], 0, gone, st, cancelled, e);
      }
    }
  }

  // ------------------------------------------------------------ who is answered

  /** Transfer `n` is queued and `gone` picks it. */
  ghost predicate QueuedAnd(s: Exporter, n: nat, gone: Pending -> bool) {
    && n < |s.intakes|
    && exists p :: p in Q(s.queues, s.intakes[n].sb.epAddr) && p.serial == n && gone(p)
  }

  lemma QueueHas(s: Exporter, n: nat)
    requires n < |s.intakes|
    ensures InQueue(s, n) <==> exists p :: p in Q(s.queues, s.intakes[n].sb.epAddr) && p.serial == n
  {
    var q := Q(s.queues, s.intakes[n].sb.epAddr);
    if p :| p in q && p.serial == n {
      var i :| 0 <= i < |q| && q[i] == p;
      assert q[i].serial == n;
    }
    if InQueue(s, n) {
      var i :| 0 <= i < |q| && q[i].serial == n;
      assert q[i] in q;
    }
  }

  /** A queue names a transfer once. */
  lemma OneEntry(s: Exporter, ep: byte, p: Pending, p': Pending)
    requires QueueOk(s, ep) && p in Q(s.queues, ep) && p' in Q(s.queues, ep) && p.serial == p'.serial
    ensures p == p'
  {
    var q := Q(s.queues, ep);
    var i :| 0 <= i < |q| && q[i] == p;
    var j :| 0 <= j < |q| && q[j] == p';
    assert QueueSorted(q);
  }

  /** After a queue lost exactly what `gone` picks, a transfer is queued exactly when it was and was not picked. */
  lemma StillQueued(s: Exporter, r: Exporter, gone: Pending -> bool, n: nat)
    requires Ledger(s) && r.intakes == s.intakes && n < |s.intakes|
    requires Q(r.queues, s.intakes[n].sb.epAddr) == Spared(Q(s.queues, s.intakes[n].sb.epAddr), gone)
    ensures InQueue(r, n) <==> InQueue(s, n) && !QueuedAnd(s, n, gone)
  {
    var ep := s.intakes[n].sb.epAddr;
    assert QueueOk(s, ep);
    QueueHas(s, n);
    QueueHas(r, n);
    if InQueue(r, n) {
      var p :| p in Q(r.queues, ep) && p.serial == n;
      SparedHas(Q(s.queues, ep), gone, p);
      if QueuedAnd(s, n, gone) {
        var p' :| p' in Q(s.queues, ep) && p'.serial == n && gone(p');
        OneEntry(s, ep, p, p');
      }
    }
    if InQueue(s, n) && !QueuedAnd(s, n, gone) {
      var p :| p in Q(s.queues, ep) && p.serial == n;
      SparedHas(Q(s.queues, ep), gone, p);
    }
  }

  /** Of a session's transfers the unanswered are the queued and the flying. */
  lemma AnsweredOtherwise(s: Exporter, n: nat)
    requires Ledger(s) && n < |s.intakes|
    ensures IsAnswered(s, n) <==> !InQueue(s, n) && !Flying(s, n)
  {}

  /** What leaves the queue or the device is answered, and nothing else is. */
  lemma Settled(s: Exporter, r: Exporter, n: nat, unqueued: bool, landed: bool)
    requires Ledger(s) && Ledger(r) && r.intakes == s.intakes && n < |s.intakes|
    requires (InQueue(r, n) <==> InQueue(s, n) && !unqueued) && (unqueued ==> InQueue(s, n))
    requires (Flying(r, n) <==> Flying(s, n) && !landed) && (landed ==> Flying(s, n))
    ensures IsAnswered(r, n) <==> IsAnswered(s, n) || unqueued || landed
  {
    AnsweredOtherwise(s, n);
    AnsweredOtherwise(r, n);
  }

  // ------------------------------------------------------------ CANCEL

  ghost predicate Targets(wholeEndpoint: bool, ep: byte, target: u64, req: Intake) {
    req.sb.epAddr == ep && (wholeEndpoint || req.requestId == target)
  }

  /** In a leased session a CANCEL answers exactly the queued transfers it names; one on the device is answered only when the port reports it. */
  lemma CancelExactly(s: Exporter, whole: bool, ep: byte, target: u64, reply: Token -> bool, n: nat)
    requires Device(s) && s.state == Leased && n < |s.intakes|
    ensures var r := Step(s, ECancel(whole, ep, target, reply));
            IsAnswered(r, n) <==> IsAnswered(s, n) || (InQueue(s, n) && Targets(whole, ep, target, s.intakes[n]))
  {
    var gone := (p: Pending) => Matches(whole, ep, target, p.req.sb.epAddr, p.req.requestId);
    var flying := (f: InFlight) => Matches(whole, ep, target, f.req.sb.epAddr, f.req.requestId);
    var m := RetireFrom(s, ep, 0, gone, Status.XFER_CANCELLED, true);
    var e := s.intakes[n].sb.epAddr;
    RetireFromDevice(s, ep, gone, Status.XFER_CANCELLED, true);
    RetireFromFrame(s, ep, 0, gone, Status.XFER_CANCELLED, true);
    RetireSpares(s, ep, 0, gone, Status.XFER_CANCELLED, true);
    assert Q(s.queues, ep)[0..] == Q(s.queues, ep) && Q(s.queues, ep)[..0] == [];
    assert QueueOk(s, e);
    if e == ep {
      StillQueued(s, m, gone, n);
    } else {
      RetireFromOthers(s, ep, 0, gone, Status.XFER_CANCELLED, true, e);
      assert InQueue(m, n) <==> InQueue(s, n);
    }
    assert Flying(m, n) <==> Flying(s, n);
    AnsweredOtherwise(s, n);
    AnsweredOtherwise(m, n);
    CancelAnswersNobody(m, 0, flying, reply);
    QueuedIsItself(s, n, gone);
  }

  lemma {:induction false} CancelAnswersNobody(s: Exporter, t: Token, hit: InFlight -> bool, reply: Token -> bool)
    ensures CancelFlights(s, t, hit, reply).answers == s.answers
    decreases s.nextToken - t
  {
    if t < s.nextToken { CancelAnswersNobody(CancelAt(s, t, hit, reply), t + 1, hit, reply); }
  }

  /** A queued transfer is picked or not by what was taken in. */
  lemma QueuedIsItself(s: Exporter, n: nat, gone: Pending -> bool)
    requires Ledger(s) && n < |s.intakes|
    ensures InQueue(s, n) ==>
              exists p :: p in Q(s.queues, s.intakes[n].sb.epAddr) && p.serial == n && p.req == s.intakes[n] && (QueuedAnd(s, n, gone) <==> gone(p))
  {
    if InQueue(s, n) {
      var ep := s.intakes[n].sb.epAddr;
      assert QueueOk(s, ep);
      QueueHas(s, n);
      var p :| p in Q(s.queues, ep) && p.serial == n;
      var i :| 0 <= i < |Q(s.queues, ep)| && Q(s.queues, ep)[i] == p;
      if QueuedAnd(s, n, gone) {
        var p' :| p' in Q(s.queues, ep) && p'.serial == n && gone(p');
        OneEntry(s, ep, p, p');
      }
    }
  }

  // ------------------------------------------------------------ sweep

  /** Transfer `n` is in flight, past its deadline, not being cancelled, and the port will not stop it. */
  ghost predicate GivenUp(s: Exporter, n: nat, now: nat, reply: Token -> bool) {
    exists t :: t in s.inFlight && s.inFlight[t].serial == n && s.inFlight[t].deadline.At? && s.inFlight[t].deadline.ns <= now
      && !s.inFlight[t].cancelRequested && !(s.attached && reply(t))
  }

  ghost predicate QueuedPast(s: Exporter, n: nat, now: nat) {
    && n < |s.intakes|
    && exists p :: p in Q(s.queues, s.intakes[n].sb.epAddr) && p.serial == n && p.deadline.At? && p.deadline.ns <= now
  }

  lemma {:induction false} SweepKeepsSerials(s: Exporter, t: Token, now: nat, reply: Token -> bool)
    ensures var r := SweepFlights(s, t, now, reply);
            forall u :: u in r.inFlight ==> u in s.inFlight && Flagged(s.inFlight[u], r.inFlight[u], r.inFlight[u].cancelRequested)
    decreases s.nextToken - t
  {
    if t < s.nextToken {
      var m := SweepAt(s, t, now, reply);
      SweepKeepsSerials(m, t + 1, now, reply);
      forall u | u in SweepFlights(m, t + 1, now, reply).inFlight
        ensures u in s.inFlight && Flagged(s.inFlight[u], SweepFlights(m, t + 1, now, reply).inFlight[u], SweepFlights(m, t + 1, now, reply).inFlight[u].cancelRequested)
      {
        assert u in m.inFlight;
      }
    }
  }

  /** A sweep in two halves: `m` once the queues are done, `r` once the device is. */
  ghost predicate Halved(s: Exporter, m: Exporter, r: Exporter, gone: Pending -> bool, now: nat, reply: Token -> bool) {
    && Ledger(r) && m == s.(queues := m.queues, answers := m.answers)
    && gone == ((p: Pending) => Expired(p.deadline, now)) && r.queues == m.queues && r.intakes == s.intakes
    && (forall e: byte :: Q(m.queues, e) == Spared(Q(s.queues, e), gone))
    && (forall u :: u in r.inFlight <==> u in s.inFlight && !Forsaken(m, u, now, reply))
    && (forall u :: u in r.inFlight ==> r.inFlight[u].serial == s.inFlight[u].serial)
  }

  lemma SweepHalves(s: Exporter, now: nat, reply: Token -> bool) returns (m: Exporter, gone: Pending -> bool)
    requires Ledger(s)
    ensures Halved(s, m, Sweep(s, now, reply), gone, now, reply)
  {
    gone := (p: Pending) => Expired(p.deadline, now);
    m := RetireEach(s, ENDPOINTS, gone, Status.XFER_TIMEOUT, false);
    AllEndpointsListed();
    RetireEachFrame(s, ENDPOINTS, gone, Status.XFER_TIMEOUT, false);
    forall e: byte ensures Q(m.queues, e) == Spared(Q(s.queues, e), gone) { RetireEachSpares(s, ENDPOINTS, gone, Status.XFER_TIMEOUT, false, e); }
    SweepKeeps(s, now, reply);
    SweepFlightsKeys(m, 0, now, reply);
    SweepKeepsSerials(m, 0, now, reply);
    assert forall t :: t in s.inFlight ==> t < s.nextToken;
  }

  /**
   * A sweep answers a transfer exactly when it is queued past its deadline, or in flight past it, not being
   * cancelled, and the port will not stop it.
   */
  lemma SweepExactly(s: Exporter, now: nat, reply: Token -> bool, n: nat)
    requires Ledger(s) && n < |s.intakes|
    ensures IsAnswered(Step(s, ESweep(now, reply)), n) <==> IsAnswered(s, n) || QueuedPast(s, n, now) || GivenUp(s, n, now, reply)
  {
    SweepAnswers(s, Sweep(s, now, reply), now, reply, n);
  }

  lemma SweepAnswers(s: Exporter, r: Exporter, now: nat, reply: Token -> bool, n: nat)
    requires Ledger(s) && n < |s.intakes| && r == Sweep(s, now, reply)
    ensures IsAnswered(r, n) <==> IsAnswered(s, n) || QueuedPast(s, n, now) || GivenUp(s, n, now, reply)
  {
    var m, gone := SweepHalves(s, now, reply);
    SweepSettles(s, m, r, gone, now, reply, n);
  }

  lemma SweepSettles(s: Exporter, m: Exporter, r: Exporter, gone: Pending -> bool, now: nat, reply: Token -> bool, n: nat)
    requires Ledger(s) && n < |s.intakes| && Halved(s, m, r, gone, now, reply)
    ensures IsAnswered(r, n) <==> IsAnswered(s, n) || QueuedPast(s, n, now) || GivenUp(s, n, now, reply)
  {
    StillQueued(s, m, gone, n);
    SameQueues(m, r, n);
    PastIsQueued(s, n, now, gone);
    FlyingAfterSweep(s, m, r, now, reply, n);
    Settled(s, r, n, QueuedPast(s, n, now), GivenUp(s, n, now, reply));
  }

  lemma SameQueues(m: Exporter, r: Exporter, n: nat)
    requires r.queues == m.queues && r.intakes == m.intakes
    ensures InQueue(r, n) <==> InQueue(m, n)
  {}

  lemma PastIsQueued(s: Exporter, n: nat, now: nat, gone: Pending -> bool)
    requires gone == ((p: Pending) => Expired(p.deadline, now)) && n < |s.intakes|
    ensures (QueuedPast(s, n, now) ==> InQueue(s, n)) && (QueuedPast(s, n, now) <==> QueuedAnd(s, n, gone))
  {
    if QueuedPast(s, n, now) {
      QueueHas(s, n);
      var p :| p in Q(s.queues, s.intakes[n].sb.epAddr) && p.serial == n && p.deadline.At? && p.deadline.ns <= now;
      assert gone(p);
    }
    if QueuedAnd(s, n, gone) {
      var p :| p in Q(s.queues, s.intakes[n].sb.epAddr) && p.serial == n && gone(p);
      assert Expired(p.deadline, now);
    }
  }

  lemma FlyingAfterSweep(s: Exporter, m: Exporter, r: Exporter, now: nat, reply: Token -> bool, n: nat)
    requires Shape(s) && m.inFlight == s.inFlight && m.attached == s.attached
    requires forall u :: u in r.inFlight <==> u in s.inFlight && !Forsaken(m, u, now, reply)
    requires forall u :: u in r.inFlight ==> r.inFlight[u].serial == s.inFlight[u].serial
    ensures Flying(r, n) <==> Flying(s, n) && !GivenUp(s, n, now, reply)
    ensures GivenUp(s, n, now, reply) ==> Flying(s, n)
  {
    if Flying(r, n) {
      var t :| t in r.inFlight && r.inFlight[t].serial == n;
      assert t in s.inFlight && !Forsaken(m, t, now, reply);
    }
    if Flying(s, n) && !GivenUp(s, n, now, reply) {
      var t :| t in s.inFlight && s.inFlight[t].serial == n;
      assert t in r.inFlight;
    }
  }

  // ------------------------------------------------------------ collect

  /** The acknowledgements a poll is due: one for each verb it reports, with the port's status. */
  function AcksFor(verbs: map<Token, Verb>, os: seq<Outcome>): seq<Ack> {
    if os == [] then []
    else (if os[0].token in verbs then [Ack(os[0].token, verbs[os[0].token].requestId, os[0].status)] else []) + AcksFor(verbs, os[1..])
  }

  lemma {:induction false} AcksWithout(verbs: map<Token, Verb>, t: Token, os: seq<Outcome>)
    requires forall i :: 0 <= i < |os| ==> os[i].token != t
    ensures AcksFor(verbs - {t}, os) == AcksFor(verbs, os)
  {
    if os != [] { AcksWithout(verbs, t, os[1..]); }
  }

  ghost predicate NoRepeats(os: seq<Outcome>) { forall i, j :: 0 <= i < j < |os| ==> os[i].token != os[j].token }

  /** What a poll leaves: whatever it does not name, where it was. */
  ghost predicate Polled(s: Exporter, r: Exporter, os: seq<Outcome>) {
    && r.queues == s.queues && r.intakes == s.intakes && r.nextToken == s.nextToken && r.state == s.state && r.attached == s.attached
    && (forall t :: t in r.inFlight <==> t in s.inFlight && !Named(os, t)) && (forall t :: t in r.inFlight ==> r.inFlight[t] == s.inFlight[t])
    && (forall t :: t in r.port.outstanding <==> t in s.port.outstanding && !Named(os, t))
    && (forall e :: e in r.busy <==> e in s.busy && !Named(os, s.busy[e])) && (forall e :: e in r.busy ==> r.busy[e] == s.busy[e])
    && (forall t :: t in r.verbs <==> t in s.verbs && !Named(os, t))
  }

  lemma NamedOne(o: Outcome)
    ensures forall t :: Named([o], t) <==> t == o.token
  {
    forall t ensures Named([o], t) <==> t == o.token { if t == o.token { assert [o][0].token == t; } }
  }

  lemma PolledVerb(s: Exporter, o: Outcome)
    requires VerbsOk(s.verbs, s.port.verbs, s.port.outstanding, s.nextToken) && Reserved(s.port.outstanding, s.busy) && o.token in s.verbs
    requires o.token !in s.inFlight
    ensures Polled(s, CollectOne(s, o), [o])
  {
    NamedOne(o);
    assert o.token !in s.port.outstanding && forall e :: e in s.busy ==> s.busy[e] != o.token;
  }

  lemma PolledTransfer(s: Exporter, o: Outcome)
    requires o.token !in s.verbs
    ensures Polled(s, CollectOne(s, o), [o])
  {
    NamedOne(o);
    if o.token !in s.inFlight { assert s.inFlight - {o.token} == s.inFlight; }
    assert s.verbs - {o.token} == s.verbs;
  }

  lemma PolledOne(s: Exporter, o: Outcome)
    requires Wired(s)
    ensures Polled(s, CollectOne(s, o), [o])
  {
    if o.token in s.verbs {
      assert o.token !in s.port.outstanding;
      PolledVerb(s, o);
    } else {
      PolledTransfer(s, o);
    }
  }

  lemma PolledJoin(s: Exporter, m: Exporter, r: Exporter, os: seq<Outcome>)
    requires os != [] && Polled(s, m, [os[0]]) && Polled(m, r, os[1..])
    ensures Polled(s, r, os)
  {
    forall t ensures Named(os, t) <==> Named([os[0]], t) || Named(os[1..], t) {
      NamedSplit(os, t);
      if t == os[0].token { assert [os[0]][0].token == t; }
    }
  }

  lemma {:induction false} PolledAll(s: Exporter, os: seq<Outcome>)
    requires Wired(s) && Lifecycle(s)
    ensures Polled(s, CollectAll(s, os), os)
    decreases |os|
  {
    if os != [] {
      PolledOne(s, os[0]);
      CollectOneWired(s, os[0]);
      PolledAll(CollectOne(s, os[0]), os[1..]);
      PolledJoin(s, CollectOne(s, os[0]), CollectAll(s, os), os);
    }
  }

  lemma AckOne(s: Exporter, o: Outcome)
    ensures var m := CollectOne(s, o);
            m.acks == s.acks + (if o.token in s.verbs then [Ack(o.token, s.verbs[o.token].requestId, o.status)] else [])
            && m.verbs == s.verbs - {o.token}
  {
    if o.token !in s.verbs { assert s.verbs - {o.token} == s.verbs; }
  }

  lemma {:induction false} AcksAll(s: Exporter, os: seq<Outcome>)
    requires NoRepeats(os)
    ensures CollectAll(s, os).acks == s.acks + AcksFor(s.verbs, os)
    decreases |os|
  {
    if os != [] {
      var o, rest := os[0], os[1..];
      AckOne(s, o);
      forall i | 0 <= i < |rest| ensures rest[i].token != o.token { assert rest[i] == os[i + 1]; }
      AcksAll(CollectOne(s, o), rest);
      AcksWithout(s.verbs, o.token, rest);
      Regrouped(s.acks, if o.token in s.verbs then [Ack(o.token, s.verbs[o.token].requestId, o.status)] else [], AcksFor(s.verbs, rest));
    }
  }

  /** Transfer `n` runs under a token this poll reports. */
  ghost predicate ReportedNow(s: Exporter, os: seq<Outcome>, n: nat) {
    exists t :: t in s.inFlight && s.inFlight[t].serial == n && Named(os, t)
  }

  /**
   * A poll settles exactly what it reports: those transfers are answered and off the device, their endpoints
   * free, their verbs acknowledged in order with the port's status; everything else stays as it was.
   */
  lemma CollectExactly(s: Exporter, os: seq<Outcome>, n: nat)
    requires Device(s) && s.attached && LegalPoll(s.port, os) && n < |s.intakes|
    ensures var r := Step(s, ECollect(os));
            && Polled(s, r, os) && r.acks == s.acks + AcksFor(s.verbs, os)
            && (IsAnswered(r, n) <==> IsAnswered(s, n) || ReportedNow(s, os, n))
  {
    assert Step(s, ECollect(os)) == CollectAll(s, os);
    PolledAll(s, os);
    AcksAll(s, os);
    CollectAllKeeps(s, os);
    PollSettles(s, CollectAll(s, os), os, n);
  }

  lemma PollSettles(s: Exporter, r: Exporter, os: seq<Outcome>, n: nat)
    requires Ledger(s) && Ledger(r) && Polled(s, r, os) && n < |s.intakes|
    ensures IsAnswered(r, n) <==> IsAnswered(s, n) || ReportedNow(s, os, n)
  {
    SameQueues(s, r, n);
    FlyingAfterPoll(s, r, os, n);
    Settled(s, r, n, false, ReportedNow(s, os, n));
  }

  lemma FlyingAfterPoll(s: Exporter, r: Exporter, os: seq<Outcome>, n: nat)
    requires Shape(s) && Polled(s, r, os)
    ensures Flying(r, n) <==> Flying(s, n) && !ReportedNow(s, os, n)
    ensures ReportedNow(s, os, n) ==> Flying(s, n)
  {
    if Flying(r, n) {
      var t :| t in r.inFlight && r.inFlight[t].serial == n;
      assert t in s.inFlight && !Named(os, t);
    }
    if Flying(s, n) && !ReportedNow(s, os, n) {
      var t :| t in s.inFlight && s.inFlight[t].serial == n;
      assert t in r.inFlight;
    }
  }

  // ------------------------------------------------------------ EP_CLEAR_HALT

  /** A clear-halt goes to the port under a token of its own and waits for its outcome, or is acknowledged at once with the port's refusal; unattached, nothing happens. */
  lemma ClearHaltExactly(s: Exporter, rid: u64, ep: byte, halt: u16)
    ensures var r := Step(s, EClearHalt(rid, ep, halt)); var t := s.nextToken;
            if s.state != Leased || !s.attached then r == s
            else if halt == Status.OK
            then r == s.(nextToken := t + 1, verbs := s.verbs[t := Verb(rid, ep)], port := r.port) && r.port == s.port.(verbs := s.port.verbs + {t})
            else r == s.(nextToken := t + 1, acks := s.acks + [Ack(t, rid, halt)])
  {}

  // ------------------------------------------------------------ attach and teardown

  /** Nothing is queued, in flight, reserved or owed. */
  ghost predicate AllSettled(s: Exporter) {
    && (forall ep: byte :: Q(s.queues, ep) == []) && (forall t :: t !in s.inFlight) && (forall e :: e !in s.busy) && (forall t :: t !in s.verbs)
    && (forall t :: t !in s.port.outstanding) && (forall t :: t !in s.port.verbs)
  }

  /**
   * DETACH, a lost or silent peer, and close leave nothing behind: every transfer ever taken in is answered and the
   * device owes nothing. DETACH lets go of the device and idles; a lost peer leaves a leased session orphaned and
   * holding it; close lets go, for good if the peer said goodbye.
   */
  lemma TeardownExactly(s: Exporter, e: Event, n: nat)
    requires Device(s) && Legal(s, e) && (e.EDetach? || e.EOrphan? || e.EClose?) && n < |s.intakes|
    ensures var r := Step(s, e);
            && AllSettled(r) && r.intakes == s.intakes && IsAnswered(r, n)
            && r.attached == (e.EOrphan? && s.attached)
            && r.state == (match e
                           case EDetach(_) => Idle
                           case EOrphan(_, _) => if s.state == Leased then Orphaned else s.state
                           case EClose(goodbye, _) => if goodbye || s.state == Closed then Closed else Idle
                           case _ => s.state)
  {
    TeardownRests(s, e);
    RestingIsSettled(Step(s, e), n);
  }

  ghost predicate TornDown(s: Exporter, e: Event, r: Exporter) {
    && Ledger(r) && Resting(r) && r.intakes == s.intakes && r.attached == (e.EOrphan? && s.attached)
    && r.state == (match e
                   case EDetach(_) => Idle
                   case EOrphan(_, _) => if s.state == Leased then Orphaned else s.state
                   case EClose(goodbye, _) => if goodbye || s.state == Closed then Closed else Idle
                   case _ => s.state)
  }

  lemma DetachRests(s: Exporter, e: Event)
    requires Device(s) && Legal(s, e) && e.EDetach?
    ensures TornDown(s, e, Step(s, e))
  {
    FailAllRests(s, Status.XFER_CANCELLED, e.drained);
    DetachKeeps(s, e);
  }

  lemma OrphanRests(s: Exporter, e: Event)
    requires Device(s) && Legal(s, e) && e.EOrphan?
    ensures TornDown(s, e, Step(s, e))
  {
    FailAllRests(s, e.orphanStatus, e.lost);
    OrphanKeeps(s, e);
  }

  lemma CloseRests(s: Exporter, e: Event)
    requires Device(s) && Legal(s, e) && e.EClose?
    ensures TornDown(s, e, Step(s, e))
  {
    if s.attached { FailAllRests(s, Status.DETACHING, e.closed); }
    CloseKeeps(s, e);
  }

  lemma TeardownRests(s: Exporter, e: Event)
    requires Device(s) && Legal(s, e) && (e.EDetach? || e.EOrphan? || e.EClose?)
    ensures TornDown(s, e, Step(s, e))
  {
    if e.EDetach? { DetachRests(s, e); } else if e.EOrphan? { OrphanRests(s, e); } else { CloseRests(s, e); }
  }

  lemma RestingIsSettled(r: Exporter, n: nat)
    requires Ledger(r) && Resting(r) && n < |r.intakes|
    ensures AllSettled(r) && IsAnswered(r, n)
  {
    assert forall ep: byte :: Q(r.queues, ep) == [];
    assert !InQueue(r, n) && !Flying(r, n);
  }

  /** An attach starts the session on a device that owes nothing, with its logs as they were. */
  lemma AttachStarts(s: Exporter)
    requires Device(s) && s.state == Idle
    ensures var r := Step(s, EAttach);
            && r.state == Leased && r.attached && AllSettled(r) && r.nextToken == s.nextToken
            && r.intakes == s.intakes && r.answers == s.answers && r.acks == s.acks && r.port.accepted == s.port.accepted
  {}
}
