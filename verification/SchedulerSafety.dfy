/**
 * The scheduler's guarantees, stated over every legal run from the initial state: exactly
 * one answer, endpoint exclusivity, queue discipline, credit, and bounded answers.
 */
module SchedulerSafety {
  import opened Wire
  import Status
  import opened Scheduler
  import opened SchedulerLedger
  import opened SchedulerDevice

  // ------------------------------------------------------------ I1

  /** Exactly one answer in the log is for transfer `n`. */
  ghost predicate AnsweredOnce(s: Exporter, n: nat) {
    exists i :: 0 <= i < |s.answers| && s.answers[i].serial == n
      && forall j :: 0 <= j < |s.answers| && s.answers[j].serial == n ==> j == i
  }

  /**
   * I1. Over any run, against any peer and any port that keeps its contract: a transfer taken
   * in is answered exactly once, or it is queued or in flight and not answered at all; and
   * once the lease is gone (detach, lost transport, close) every one has been answered once.
   */
  lemma ExactlyOneAnswer(es: seq<Event>)
    requires LegalRun(INITIAL, es)
    ensures var s := Run(INITIAL, es);
            && (forall i :: 0 <= i < |s.answers| ==> AnswerOk(s, s.answers[i]))
            && (forall n: nat :: n < |s.intakes| && !AnsweredOnce(s, n) ==>
                  (InQueue(s, n) || Flying(s, n)) && !IsAnswered(s, n))
            && (s.state != Leased ==> forall n: nat :: n < |s.intakes| ==> AnsweredOnce(s, n))
  {
    InitialDevice();
    RunKeepsDevice(INITIAL, es);
    var s := Run(INITIAL, es);
    forall n: nat | n < |s.intakes| && IsAnswered(s, n) ensures AnsweredOnce(s, n) {
      var i :| 0 <= i < |s.answers| && s.answers[i].serial == n;
      assert forall j :: 0 <= j < |s.answers| && s.answers[j].serial == n ==> j == i;
    }
    if s.state != Leased {
      forall n: nat | n < |s.intakes| ensures AnsweredOnce(s, n) {
        assert Q(s.queues, s.intakes[n].sb.epAddr) == [];
        assert !InQueue(s, n) && !Flying(s, n);
      }
    }
  }

  // ---- no answer is ever taken back

  ghost predicate Grew(s: Exporter, r: Exporter) { s.answers <= r.answers && s.intakes <= r.intakes }

  lemma {:induction false} AdmitGrows(s: Exporter, eps: seq<byte>, reply: Token -> u16)
    ensures Grew(s, AdmitEach(s, eps, reply))
    decreases |eps|
  {
    if eps != [] { AdmitGrows(AdmitOne(s, eps[0], reply), eps[1..], reply); }
  }

  lemma {:induction false} CollectGrows(s: Exporter, os: seq<Outcome>)
    ensures Grew(s, CollectAll(s, os))
    decreases |os|
  {
    if os != [] { CollectGrows(CollectOne(s, os[0]), os[1..]); }
  }

  lemma {:induction false} RetireGrows(s: Exporter, ep: byte, i: nat, gone: Pending -> bool, st: u16, cancelled: bool)
    ensures Grew(s, RetireFrom(s, ep, i, gone, st, cancelled))
    decreases |Q(s.queues, ep)| - i
  {
    var q := Q(s.queues, ep);
    if i >= |q| {
    } else if gone(q[i]) {
      RetireGrows(RetireAt(s, ep, i, st, cancelled), ep, i, gone, st, cancelled);
    } else {
      RetireGrows(s, ep, i + 1, gone, st, cancelled);
    }
  }

  lemma {:induction false} RetireEachGrows(s: Exporter, eps: seq<byte>, gone: Pending -> bool, st: u16, cancelled: bool)
    ensures Grew(s, RetireEach(s, eps, gone, st, cancelled))
    decreases |eps|
  {
    if eps != [] {
      RetireGrows(s, eps[0], 0, gone, st, cancelled);
      RetireEachGrows(RetireFrom(s, eps[0], 0, gone, st, cancelled), eps[1..], gone, st, cancelled);
    }
  }

  lemma {:induction false} CancelFlightsGrows(s: Exporter, t: Token, hit: InFlight -> bool, reply: Token -> bool)
    ensures Grew(s, CancelFlights(s, t, hit, reply))
    decreases s.nextToken - t
  {
    if t < s.nextToken { CancelFlightsGrows(CancelAt(s, t, hit, reply), t + 1, hit, reply); }
  }

  lemma {:induction false} SweepFlightsGrows(s: Exporter, t: Token, now: nat, reply: Token -> bool)
    ensures Grew(s, SweepFlights(s, t, now, reply))
    decreases s.nextToken - t
  {
    if t < s.nextToken { SweepFlightsGrows(SweepAt(s, t, now, reply), t + 1, now, reply); }
  }

  lemma {:induction false} AbortGrows(s: Exporter, st: u16, os: seq<Outcome>)
    ensures Grew(s, AbortAll(s, st, os))
    decreases |os|
  {
    if os != [] { AbortGrows(AbortOne(s, st, os[0]), st, os[1..]); }
  }

  lemma {:induction false} FailFlightsGrows(s: Exporter, t: Token, st: u16)
    ensures Grew(s, FailFlights(s, t, st))
    decreases s.nextToken - t
  {
    if t < s.nextToken { FailFlightsGrows(FailAt(s, t, st), t + 1, st); }
  }

  lemma FailAllGrows(s: Exporter, st: u16, os: seq<Outcome>)
    ensures Grew(s, FailAll(s, st, os))
  {
    var s1 := if s.attached then AbortAll(s, st, os) else s;
    if s.attached { AbortGrows(s, st, os); }
    FailFlightsGrows(s1, 0, st);
    RetireEachGrows(FailFlights(s1, 0, st), ENDPOINTS, (p: Pending) => true, st, true);
  }

  /** No step takes back an answer or forgets an intake. */
  lemma StepGrows(s: Exporter, e: Event)
    ensures Grew(s, Step(s, e))
  {
    match e
    case EIntake(_, _) =>
    case EClearHalt(_, _, _) =>
    case EAttach =>
    case ECancel(whole, ep, target, reply) => CancelGrows(s, whole, ep, target, reply);
    case EAdmit(reply) => AdmitGrows(s, ENDPOINTS, reply);
    case ECollect(os) => CollectGrows(s, os);
    case ESweep(now, reply) => SweepGrows(s, now, reply);
    case EDetach(_) => DetachGrows(s, e);
    case EOrphan(_, _) => OrphanGrows(s, e);
    case EClose(_, _) => CloseGrows(s, e);
  }

  lemma DetachGrows(s: Exporter, e: Event)
    requires e.EDetach?
    ensures Grew(s, Step(s, e))
  {
    FailAllGrows(s, Status.XFER_CANCELLED, e.drained);
  }

  lemma OrphanGrows(s: Exporter, e: Event)
    requires e.EOrphan?
    ensures Grew(s, Step(s, e))
  {
    FailAllGrows(s, e.orphanStatus, e.lost);
  }

  lemma CloseGrows(s: Exporter, e: Event)
    requires e.EClose?
    ensures Grew(s, Step(s, e))
  {
    FailAllGrows(s, Status.DETACHING, e.closed);
  }

  lemma SweepGrows(s: Exporter, now: nat, reply: Token -> bool)
    ensures Grew(s, Sweep(s, now, reply))
  {
    var gone := (p: Pending) => Expired(p.deadline, now);
    RetireEachGrows(s, ENDPOINTS, gone, Status.XFER_TIMEOUT, false);
    SweepFlightsGrows(RetireEach(s, ENDPOINTS, gone, Status.XFER_TIMEOUT, false), 0, now, reply);
  }

  lemma CancelGrows(s: Exporter, whole: bool, ep: byte, target: u64, reply: Token -> bool)
    ensures Grew(s, Cancel(s, whole, ep, target, reply))
  {
    var gone := (p: Pending) => Matches(whole, ep, target, p.req.sb.epAddr, p.req.requestId);
    var flying := (f: InFlight) => Matches(whole, ep, target, f.req.sb.epAddr, f.req.requestId);
    RetireGrows(s, ep, 0, gone, Status.XFER_CANCELLED, true);
    CancelFlightsGrows(RetireFrom(s, ep, 0, gone, Status.XFER_CANCELLED, true), 0, flying, reply);
  }

  // ------------------------------------------------------------ exclusivity

  /**
   * In every reachable state the port owes at most one transfer on a non-zero endpoint, counting
   * transfers already answered by timeout but still running, and that endpoint is reserved for
   * it; an ep0 transfer is alone in the in-flight table.
   */
  lemma EndpointExclusive(es: seq<Event>)
    requires LegalRun(INITIAL, es)
    ensures var s := Run(INITIAL, es); var owed := s.port.outstanding;
            && (forall t, u | t in owed && u in owed && !IsEp0(owed[t].transfer.epAddr) ::
                  owed[t].transfer.epAddr == owed[u].transfer.epAddr ==> t == u)
            && (forall e: byte :: !IsEp0(e) ==> (e in s.busy <==> exists t :: t in owed && owed[t].transfer.epAddr == e))
            && (forall t, u :: t in s.inFlight && u in s.inFlight && IsEp0(s.inFlight[t].req.sb.epAddr) ==> t == u)
  {
    InitialDevice();
    RunKeepsDevice(INITIAL, es);
  }

  /** The transfers a sweep at `now` abandons: overdue, not yet being cancelled, refused by the port. */
  ghost predicate Forsaken(s: Exporter, t: Token, now: nat, reply: Token -> bool) {
    Overdue(s, t, now) && !(s.attached && reply(t))
  }

  lemma {:induction false} SweepFlightsKeys(s: Exporter, t: Token, now: nat, reply: Token -> bool)
    ensures var r := SweepFlights(s, t, now, reply);
            && r == s.(inFlight := r.inFlight, answers := r.answers, port := r.port)
            && r.port.outstanding == s.port.outstanding
            && forall u :: u in r.inFlight <==> u in s.inFlight && !(t <= u < s.nextToken && Forsaken(s, u, now, reply))
    decreases s.nextToken - t
  {
    if t < s.nextToken {
      var m := SweepAt(s, t, now, reply);
      SweepFlightsKeys(m, t + 1, now, reply);
      forall u | u > t ensures Forsaken(m, u, now, reply) <==> Forsaken(s, u, now, reply) {}
    }
  }

  lemma {:induction false} RetireFromFrame(s: Exporter, ep: byte, i: nat, gone: Pending -> bool, st: u16, cancelled: bool)
    ensures var r := RetireFrom(s, ep, i, gone, st, cancelled); r == s.(queues := r.queues, answers := r.answers)
    decreases |Q(s.queues, ep)| - i
  {
    var q := Q(s.queues, ep);
    if i >= |q| {
    } else if gone(q[i]) {
      RetireFromFrame(RetireAt(s, ep, i, st, cancelled), ep, i, gone, st, cancelled);
    } else {
      RetireFromFrame(s, ep, i + 1, gone, st, cancelled);
    }
  }

  lemma {:induction false} RetireEachFrame(s: Exporter, eps: seq<byte>, gone: Pending -> bool, st: u16, cancelled: bool)
    ensures var r := RetireEach(s, eps, gone, st, cancelled); r == s.(queues := r.queues, answers := r.answers)
    decreases |eps|
  {
    if eps != [] {
      RetireFromFrame(s, eps[0], 0, gone, st, cancelled);
      RetireEachFrame(RetireFrom(s, eps[0], 0, gone, st, cancelled), eps[1..], gone, st, cancelled);
    }
  }

  // ------------------------------------------------------------ queue discipline

  /**
   * Every call the device got is one intake, whole and unaltered; no intake reaches it twice;
   * and on each endpoint the calls are in the order the peer submitted them.
   */
  lemma DeviceSeesSubmissionOrder(es: seq<Event>)
    requires LegalRun(INITIAL, es)
    ensures var s := Run(INITIAL, es); var acc := s.port.accepted;
            && (forall i :: 0 <= i < |acc| ==>
                  acc[i].serial < |s.intakes| && acc[i].transfer == TransferOf(s.intakes[acc[i].serial]))
            && (forall i, j :: 0 <= i < j < |acc| ==> acc[i].serial != acc[j].serial)
            && (forall i, j :: 0 <= i < j < |acc| && acc[i].transfer.epAddr == acc[j].transfer.epAddr ==>
                  acc[i].serial < acc[j].serial)
  {
    InitialDevice();
    RunKeepsDevice(INITIAL, es);
  }

  // ------------------------------------------------------------ bounded answers

  /**
   * After a sweep no queued transfer is past its deadline, and one still in flight past its
   * deadline is one the port accepted a cancel for.
   */
  lemma SweepBounds(s: Exporter, now: nat, reply: Token -> bool)
    requires Device(s)
    ensures var r := Sweep(s, now, reply);
            && (forall ep: byte, k :: 0 <= k < |Q(r.queues, ep)| ==> !Expired(Q(r.queues, ep)[k].deadline, now))
            && (forall t :: t in r.inFlight && Expired(r.inFlight[t].deadline, now) ==>
                  r.inFlight[t].cancelRequested && t in r.port.cancelAccepted)
  {
    var gone := (p: Pending) => Expired(p.deadline, now);
    AllEndpointsListed();
    RetireEachLeaves(s, ENDPOINTS, gone, Status.XFER_TIMEOUT, false);
    RetireEachDevice(s, ENDPOINTS, gone, Status.XFER_TIMEOUT, false);
    var m := RetireEach(s, ENDPOINTS, gone, Status.XFER_TIMEOUT, false);
    SweepFlightsBounds(m, 0, now, reply);
    SweepFlightsDevice(m, 0, now, reply);
    var r := Sweep(s, now, reply);
    forall ep: byte, k | 0 <= k < |Q(r.queues, ep)| ensures !Expired(Q(r.queues, ep)[k].deadline, now) {
      assert NoneGone(Q(m.queues, ep), |Q(m.queues, ep)|, gone);
      assert !gone(Q(m.queues, ep)[k]);
    }
  }

  lemma {:induction false} SweepFlightsBounds(s: Exporter, t: Token, now: nat, reply: Token -> bool)
    requires forall u :: u in s.inFlight ==> u < s.nextToken
    requires forall u :: u in s.inFlight && u < t && Expired(s.inFlight[u].deadline, now) ==> s.inFlight[u].cancelRequested
    ensures var r := SweepFlights(s, t, now, reply);
            && r.queues == s.queues
            && forall u :: u in r.inFlight && Expired(r.inFlight[u].deadline, now) ==> r.inFlight[u].cancelRequested
    decreases s.nextToken - t
  {
    if t < s.nextToken { SweepFlightsBounds(SweepAt(s, t, now, reply), t + 1, now, reply); }
  }

  lemma {:induction false} CancelFlightsFlags(s: Exporter, t: Token, hit: InFlight -> bool, reply: Token -> bool)
    ensures var r := CancelFlights(s, t, hit, reply);
            && r.inFlight.Keys == s.inFlight.Keys
            && forall u :: u in s.inFlight ==>
                 Flagged(s.inFlight[u], r.inFlight[u], t <= u < s.nextToken && hit(s.inFlight[u]) && reply(u))
    decreases s.nextToken - t
  {
    if t < s.nextToken {
      var m := CancelAt(s, t, hit, reply);
      var r := CancelFlights(m, t + 1, hit, reply);
      CancelAtFlags(s, t, hit, reply);
      CancelFlightsFlags(m, t + 1, hit, reply);
      forall u | u in s.inFlight
        ensures Flagged(s.inFlight[u], r.inFlight[u], t <= u < s.nextToken && hit(s.inFlight[u]) && reply(u))
      {
        assert u in m.inFlight && Flagged(s.inFlight[u], m.inFlight[u], u == t && hit(s.inFlight[u]) && reply(u));
        if u != t { assert m.inFlight[u] == s.inFlight[u]; }
      }
    }
  }

  /**
   * A CANCEL answers every queued transfer it names, and no other; one on the device keeps its
   * deadline, and is marked as being cancelled only if the port says yes.
   */
  lemma RefusedCancelKeepsDeadline(s: Exporter, whole: bool, ep: byte, target: u64, reply: Token -> bool)
    requires Device(s)
    ensures var r := Cancel(s, whole, ep, target, reply); var q := Q(r.queues, ep);
            && r.inFlight.Keys == s.inFlight.Keys
            && (forall u :: u in s.inFlight ==>
                  Flagged(s.inFlight[u], r.inFlight[u],
                    s.state == Leased && Matches(whole, ep, target, s.inFlight[u].req.sb.epAddr, s.inFlight[u].req.requestId) && reply(u)))
            && (forall e: byte :: e != ep ==> Q(r.queues, e) == Q(s.queues, e))
            && (s.state == Leased ==> forall k :: 0 <= k < |q| ==> !Matches(whole, ep, target, q[k].req.sb.epAddr, q[k].req.requestId))
  {
    if s.state == Leased {
      var gone := (p: Pending) => Matches(whole, ep, target, p.req.sb.epAddr, p.req.requestId);
      var flying := (f: InFlight) => Matches(whole, ep, target, f.req.sb.epAddr, f.req.requestId);
      var m := RetireFrom(s, ep, 0, gone, Status.XFER_CANCELLED, true);
      RetireFromKeeps(s, ep, 0, gone, Status.XFER_CANCELLED, true);
      RetireFromLeaves(s, ep, 0, gone, Status.XFER_CANCELLED, true);
      CancelFlightsFlags(m, 0, flying, reply);
      CancelFlightsQueues(m, 0, flying, reply);
      forall k | 0 <= k < |Q(m.queues, ep)| ensures !gone(Q(m.queues, ep)[k]) {}
    }
  }

  lemma {:induction false} CancelFlightsQueues(s: Exporter, t: Token, hit: InFlight -> bool, reply: Token -> bool)
    ensures CancelFlights(s, t, hit, reply).queues == s.queues
    decreases s.nextToken - t
  {
    if t < s.nextToken { CancelFlightsQueues(CancelAt(s, t, hit, reply), t + 1, hit, reply); }
  }

  /** `g` is `f`, with a cancel accepted for it if one was before or `now` is. */
  predicate Flagged(f: InFlight, g: InFlight, now: bool) {
    g == f.(cancelRequested := g.cancelRequested) && (g.cancelRequested <==> f.cancelRequested || now)
  }

  lemma CancelAtFlags(s: Exporter, t: Token, hit: InFlight -> bool, reply: Token -> bool)
    ensures var m := CancelAt(s, t, hit, reply);
            && m.inFlight.Keys == s.inFlight.Keys
            && forall u :: u in s.inFlight ==>
                 && Flagged(s.inFlight[u], m.inFlight[u], u == t && hit(s.inFlight[u]) && reply(u))
                 && (u != t ==> m.inFlight[u] == s.inFlight[u])
  {}

  // ------------------------------------------------------------ the barrier that is not one

  function ControlRequest(rid: u64): Intake {
    Intake(0, rid, SubmitBody(0, CONTROL, DIR_IN, 0, 8, 0, 0, 0, 0, 0, 0), [])
  }

  function ControlRound(now: nat, rid: u64): seq<Event> {
    [EIntake(now, ControlRequest(rid)), EAdmit((t: Token) => Status.OK)]
  }

  /** A control transfer times out, the port cannot stop it, and a second one is admitted beside it. */
  function OverlapRun(): seq<Event> {
    [EAttach] + ControlRound(0, 1) + [ESweep(5_000_000_000, (t: Token) => false)] + ControlRound(5_000_000_000, 2)
  }

  lemma {:induction false} NothingOn(queues: map<byte, seq<Pending>>, eps: seq<byte>)
    requires EmptyBut(queues, [])
    ensures QueuedOn(queues, eps) == 0 && BytesOn(queues, eps) == 0
  {
    if eps != [] { NothingOn(queues, eps[1..]); }
  }

  lemma {:induction false} AdmitNothing(s: Exporter, eps: seq<byte>, reply: Token -> u16)
    requires forall e: byte :: e in eps ==> Q(s.queues, e) == []
    ensures AdmitEach(s, eps, reply) == s
    decreases |eps|
  {
    if eps != [] { AdmitNothing(s, eps[1..], reply); }
  }

  lemma {:induction false} RetireNothing(s: Exporter, eps: seq<byte>, gone: Pending -> bool, st: u16, cancelled: bool)
    requires EmptyBut(s.queues, [])
    ensures RetireEach(s, eps, gone, st, cancelled) == s
    decreases |eps|
  {
    if eps != [] { RetireNothing(s, eps[1..], gone, st, cancelled); }
  }

  lemma ControlQueues(s: Exporter, now: nat, rid: u64)
    requires s.inFlight == map[] && EmptyBut(s.queues, [])
    ensures Enqueue(s, now, ControlRequest(rid))
         == s.(intakes := s.intakes + [ControlRequest(rid)],
               queues := s.queues[0 := [Pending(|s.intakes|, ControlRequest(rid), At(now + 5_000_000_000))]])
  {
    NothingOn(s.queues, ENDPOINTS);
    var p := Pending(|s.intakes|, ControlRequest(rid), At(now + 5_000_000_000));
    assert Q(s.queues, 0) == [] && Q(s.queues, 0) + [p] == [p];
  }

  /** ep0 goes first in a round, and takes the device alone. */
  lemma ControlGoesFirst(m: Exporter, p: Pending, ok: Token -> u16)
    requires m.inFlight == map[] && ok(m.nextToken) == Status.OK
    requires Q(m.queues, 0) == [p] && forall e: byte :: e > 0 ==> Q(m.queues, e) == []
    ensures var r := AdmitOne(m, 0, ok);
            && r.inFlight == map[m.nextToken := FlightOf(p)] && r.nextToken == m.nextToken + 1
            && r.state == m.state && r.attached == m.attached && (forall e: byte :: Q(r.queues, e) == [])
            && r.port.outstanding == m.port.outstanding[m.nextToken := Held(p.serial, TransferOf(p.req))]
  {
    var r := AdmitOne(m, 0, ok);
    assert MayAdmit(m, 0) && Q(r.queues, 0) == [];
    forall e: byte | e > 0 ensures Q(r.queues, e) == [] { assert Q(m.queues, e) == []; }
  }

  lemma ControlAdmits(m: Exporter, p: Pending, ok: Token -> u16)
    requires m.state == Leased && m.attached && m.inFlight == map[] && ok(m.nextToken) == Status.OK
    requires Q(m.queues, 0) == [p] && forall e: byte :: e > 0 ==> Q(m.queues, e) == []
    ensures var r := Admit(m, ok);
            && r.inFlight == map[m.nextToken := FlightOf(p)] && r.nextToken == m.nextToken + 1
            && r.state == Leased && r.attached && EmptyBut(r.queues, [])
            && r.port.outstanding == m.port.outstanding[m.nextToken := Held(p.serial, TransferOf(p.req))]
  {
    ControlGoesFirst(m, p, ok);
    AllEndpointsListed();
    assert ENDPOINTS[0] == 0;
    AdmitNothing(AdmitOne(m, 0, ok), ENDPOINTS[1..], ok);
  }

  ghost predicate Quiet(s: Exporter) {
    s.state == Leased && s.attached && s.inFlight == map[] && EmptyBut(s.queues, [])
  }

  /** Exactly `t` is in flight, on ep0, due at `due`. */
  ghost predicate OneControl(s: Exporter, t: Token, due: nat) {
    && s.state == Leased && s.attached && EmptyBut(s.queues, [])
    && s.inFlight.Keys == {t} && s.inFlight[t].deadline == At(due) && !s.inFlight[t].cancelRequested
    && s.nextToken == t + 1
    && t in s.port.outstanding && IsEp0(s.port.outstanding[t].transfer.epAddr)
  }

  /** With nothing queued or in flight, a control transfer goes straight to the device. */
  lemma ControlGoesOut(s: Exporter, now: nat, rid: u64)
    requires Quiet(s)
    ensures LegalRun(s, ControlRound(now, rid))
    ensures var r := Run(s, ControlRound(now, rid));
            && OneControl(r, s.nextToken, now + 5_000_000_000)
            && forall t :: t in s.port.outstanding && t != s.nextToken ==>
                 t in r.port.outstanding && r.port.outstanding[t] == s.port.outstanding[t]
  {
    var intake := EIntake(now, ControlRequest(rid));
    var admit := EAdmit((t: Token) => Status.OK);
    var m := Step(s, intake);
    ControlQueues(s, now, rid);
    var p := Pending(|s.intakes|, ControlRequest(rid), At(now + 5_000_000_000));
    forall e: byte | e > 0 ensures Q(m.queues, e) == [] { assert Q(s.queues, e) == []; }
    ControlAdmits(m, p, admit.maySubmit);
    RunTwo(s, intake, admit);
  }

  lemma RunTwo(s: Exporter, e1: Event, e2: Event)
    requires Legal(s, e1) && Legal(Step(s, e1), e2)
    ensures LegalRun(s, [e1, e2]) && Run(s, [e1, e2]) == Step(Step(s, e1), e2)
  {
    RunOne(Step(s, e1), e2);
    assert [e1, e2][1..] == [e2];
  }

  lemma {:induction false} RunConcat(s: Exporter, a: seq<Event>, b: seq<Event>)
    requires LegalRun(s, a) && LegalRun(Run(s, a), b)
    ensures LegalRun(s, a + b) && Run(s, a + b) == Run(Run(s, a), b)
    decreases |a|
  {
    if a == [] {
      assert a + b == b;
    } else {
      assert (a + b)[0] == a[0] && (a + b)[1..] == a[1..] + b;
      RunConcat(Step(s, a[0]), a[1..], b);
    }
  }

  lemma RunOne(s: Exporter, e: Event)
    requires Legal(s, e)
    ensures LegalRun(s, [e]) && Run(s, [e]) == Step(s, e)
  {
    assert [e][1..] == [] && LegalRun(Step(s, e), []);
  }

  /** The only transfer in flight is overdue and the port refuses to stop it: it is answered and runs on. */
  lemma SweepLeaves(s: Exporter, t: Token, now: nat, no: Token -> bool)
    requires OneControl(s, t, now) && !no(t)
    ensures var r := Sweep(s, now, no);
            Quiet(r) && r.nextToken == t + 1 && r.port.outstanding == s.port.outstanding
  {
    RetireNothing(s, ENDPOINTS, (p: Pending) => Expired(p.deadline, now), Status.XFER_TIMEOUT, false);
    SweepFlightsKeys(s, 0, now, no);
    assert Forsaken(s, t, now, no);
  }

  lemma FirstControlOut()
    ensures var es := [EAttach] + ControlRound(0, 1);
            LegalRun(INITIAL, es) && OneControl(Run(INITIAL, es), 1, 5_000_000_000)
  {
    RunOne(INITIAL, EAttach);
    ControlGoesOut(Step(INITIAL, EAttach), 0, 1);
    RunConcat(INITIAL, [EAttach], ControlRound(0, 1));
  }

  lemma FirstControlAbandoned(sweep: Event)
    requires sweep == ESweep(5_000_000_000, (t: Token) => false)
    ensures var es := [EAttach] + ControlRound(0, 1) + [sweep]; var s := Run(INITIAL, es);
            && LegalRun(INITIAL, es) && Quiet(s) && s.nextToken == 2
            && 1 in s.port.outstanding && IsEp0(s.port.outstanding[1].transfer.epAddr)
  {
    FirstControlOut();
    var s3 := Run(INITIAL, [EAttach] + ControlRound(0, 1));
    RunOne(s3, sweep);
    RunConcat(INITIAL, [EAttach] + ControlRound(0, 1), [sweep]);
    SweepLeaves(s3, 1, 5_000_000_000, sweep.mayStop);
  }

  /** The port can be made to run two ep0 transfers at once. */
  lemma Ep0OverlapReachable()
    ensures LegalRun(INITIAL, OverlapRun())
    ensures var s := Run(INITIAL, OverlapRun());
            && 1 in s.port.outstanding && IsEp0(s.port.outstanding[1].transfer.epAddr)
            && 2 in s.port.outstanding && IsEp0(s.port.outstanding[2].transfer.epAddr)
            && s.inFlight.Keys == {2}
  {
    var sweep := ESweep(5_000_000_000, (t: Token) => false);
    FirstControlAbandoned(sweep);
    var first := [EAttach] + ControlRound(0, 1) + [sweep];
    ControlGoesOut(Run(INITIAL, first), 5_000_000_000, 2);
    RunConcat(INITIAL, first, ControlRound(5_000_000_000, 2));
  }
}
