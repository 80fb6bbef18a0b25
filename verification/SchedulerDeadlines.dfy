/**
 * Deadlines over whole runs, with the numbers written out: when a transfer that was taken in is
 * answered by a sweep, and that an interrupt transfer never is.
 */
module SchedulerDeadlines {
  import opened Wire
  import Status
  import opened Scheduler
  import opened SchedulerLedger
  import opened SchedulerDevice
  import opened SchedulerSafety
  import opened SchedulerBarrier
  import opened SchedulerEffects

  /** When each transfer of the run was taken in. */
  function TimesOf(es: seq<Event>): seq<nat> {
    if es == [] then []
    else
      var e := es[|es| - 1];
      TimesOf(es[..|es| - 1]) + if e.EIntake? then [e.now] else []
  }

  /** The deadline of transfer `n` is the one its type and the time it was taken in give. */
  ghost predicate Due(times: seq<nat>, n: nat, req: Intake, d: Deadline) { n < |times| && d == DueAt(times[n], req.sb.xferType) }

  ghost predicate QueuesDue(queues: map<byte, seq<Pending>>, times: seq<nat>) {
    forall ep: byte, p :: p in Q(queues, ep) ==> Due(times, p.serial, p.req, p.deadline)
  }

  ghost predicate FlightsDue(inFlight: map<Token, InFlight>, times: seq<nat>) {
    forall t :: t in inFlight ==> Due(times, inFlight[t].serial, inFlight[t].req, inFlight[t].deadline)
  }

  ghost predicate Dated(s: Exporter, times: seq<nat>) {
    |times| == |s.intakes| && QueuesDue(s.queues, times) && FlightsDue(s.inFlight, times)
  }

  // ------------------------------------------------------------ every step carries deadlines along

  lemma FewerQueued(queues: map<byte, seq<Pending>>, queues': map<byte, seq<Pending>>, times: seq<nat>)
    requires QueuesDue(queues, times) && forall ep: byte, p :: p in Q(queues', ep) ==> p in Q(queues, ep)
    ensures QueuesDue(queues', times)
  {}

  lemma LaterStillDue(queues: map<byte, seq<Pending>>, inFlight: map<Token, InFlight>, times: seq<nat>, now: nat)
    requires QueuesDue(queues, times) && FlightsDue(inFlight, times)
    ensures QueuesDue(queues, times + [now]) && FlightsDue(inFlight, times + [now])
  {
    forall e: byte, p | p in Q(queues, e) ensures Due(times + [now], p.serial, p.req, p.deadline) {
      assert Due(times, p.serial, p.req, p.deadline);
    }
  }

  lemma QueuedDue(queues: map<byte, seq<Pending>>, times: seq<nat>, ep: byte, p: Pending)
    requires QueuesDue(queues, times) && Due(times, p.serial, p.req, p.deadline)
    ensures QueuesDue(queues[ep := Q(queues, ep) + [p]], times)
  {
    var queues' := queues[ep := Q(queues, ep) + [p]];
    forall e: byte, x | x in Q(queues', e) ensures Due(times, x.serial, x.req, x.deadline) {
      if e != ep || x != p { assert x in Q(queues, e); }
    }
  }

  lemma IntakeDated(s: Exporter, times: seq<nat>, now: nat, req: Intake)
    requires Dated(s, times)
    ensures Dated(Enqueue(s, now, req), times + [now])
  {
    DueAtIs(now, req.sb.xferType);
    LaterStillDue(s.queues, s.inFlight, times, now);
    QueuedDue(s.queues, times + [now], req.sb.epAddr, Pending(|s.intakes|, req, DueAt(now, req.sb.xferType)));
  }

  lemma LaunchDated(inFlight: map<Token, InFlight>, times: seq<nat>, t: Token, p: Pending)
    requires FlightsDue(inFlight, times) && Due(times, p.serial, p.req, p.deadline)
    ensures FlightsDue(inFlight[t := FlightOf(p)], times)
  {}

  lemma AdmitOneDated(s: Exporter, times: seq<nat>, ep: byte, reply: Token -> u16)
    requires Dated(s, times)
    ensures Dated(AdmitOne(s, ep, reply), times)
  {
    if Q(s.queues, ep) != [] { HeadDated(s, times, ep); }
  }

  lemma HeadDated(s: Exporter, times: seq<nat>, ep: byte)
    requires Dated(s, times) && Q(s.queues, ep) != []
    ensures var q := Q(s.queues, ep);
            FlightsDue(s.inFlight[s.nextToken := FlightOf(q[0])], times) && QueuesDue(s.queues[ep := q[1..]], times)
  {
    var q := Q(s.queues, ep);
    assert q[0] in q;
    LaunchDated(s.inFlight, times, s.nextToken, q[0]);
    TailQueued(s.queues, ep);
    FewerQueued(s.queues, s.queues[ep := q[1..]], times);
  }

  lemma TailQueued(queues: map<byte, seq<Pending>>, ep: byte)
    requires Q(queues, ep) != []
    ensures forall e: byte, p :: p in Q(queues[ep := Q(queues, ep)[1..]], e) ==> p in Q(queues, e)
  {}

  lemma {:induction false} AdmitDated(s: Exporter, times: seq<nat>, eps: seq<byte>, reply: Token -> u16)
    requires Dated(s, times)
    ensures Dated(AdmitEach(s, eps, reply), times)
    decreases |eps|
  {
    if eps != [] {
      AdmitOneDated(s, times, eps[0], reply);
      AdmitDated(AdmitOne(s, eps[0], reply), times, eps[1..], reply);
    }
  }

  lemma {:induction false} CollectDated(s: Exporter, times: seq<nat>, os: seq<Outcome>)
    requires Dated(s, times)
    ensures Dated(CollectAll(s, os), times)
    decreases |os|
  {
    if os != [] { CollectDated(CollectOne(s, os[0]), times, os[1..]); }
  }

  lemma RetireFromDated(s: Exporter, times: seq<nat>, ep: byte, gone: Pending -> bool, st: u16, cancelled: bool)
    requires Dated(s, times)
    ensures Dated(RetireFrom(s, ep, 0, gone, st, cancelled), times)
  {
    var r := RetireFrom(s, ep, 0, gone, st, cancelled);
    RetireFromFrame(s, ep, 0, gone, st, cancelled);
    RetireFromWithin(s, ep, 0, gone, st, cancelled);
    forall e: byte, p | p in Q(r.queues, e) ensures p in Q(s.queues, e) {
      if e != ep { RetireFromOthers(s, ep, 0, gone, st, cancelled, e); }
    }
    FewerQueued(s.queues, r.queues, times);
  }

  lemma {:induction false} RetireEachDated(s: Exporter, times: seq<nat>, eps: seq<byte>, gone: Pending -> bool, st: u16, cancelled: bool)
    requires Dated(s, times)
    ensures Dated(RetireEach(s, eps, gone, st, cancelled), times)
    decreases |eps|
  {
    if eps != [] {
      RetireFromDated(s, times, eps[0], gone, st, cancelled);
      RetireEachDated(RetireFrom(s, eps[0], 0, gone, st, cancelled), times, eps[1..], gone, st, cancelled);
    }
  }

  lemma CancelAtDated(s: Exporter, times: seq<nat>, t: Token, hit: InFlight -> bool, reply: Token -> bool)
    requires Dated(s, times)
    ensures Dated(CancelAt(s, t, hit, reply), times)
  {}

  lemma {:induction false} CancelFlightsDated(s: Exporter, times: seq<nat>, t: Token, hit: InFlight -> bool, reply: Token -> bool)
    requires Dated(s, times)
    ensures Dated(CancelFlights(s, t, hit, reply), times)
    decreases s.nextToken - t
  {
    if t < s.nextToken {
      CancelAtDated(s, times, t, hit, reply);
      CancelFlightsDated(CancelAt(s, t, hit, reply), times, t + 1, hit, reply);
    }
  }

  lemma SweepAtDated(s: Exporter, times: seq<nat>, t: Token, now: nat, reply: Token -> bool)
    requires Dated(s, times)
    ensures Dated(SweepAt(s, t, now, reply), times)
  {}

  lemma {:induction false} SweepFlightsDated(s: Exporter, times: seq<nat>, t: Token, now: nat, reply: Token -> bool)
    requires Dated(s, times)
    ensures Dated(SweepFlights(s, t, now, reply), times)
    decreases s.nextToken - t
  {
    if t < s.nextToken {
      SweepAtDated(s, times, t, now, reply);
      SweepFlightsDated(SweepAt(s, t, now, reply), times, t + 1, now, reply);
    }
  }

  lemma CancelStepDated(s: Exporter, times: seq<nat>, e: Event)
    requires Dated(s, times) && e.ECancel?
    ensures Dated(Step(s, e), times)
  {
    var gone := (p: Pending) => Matches(e.wholeEndpoint, e.ep, e.target, p.req.sb.epAddr, p.req.requestId);
    var flying := (f: InFlight) => Matches(e.wholeEndpoint, e.ep, e.target, f.req.sb.epAddr, f.req.requestId);
    RetireFromDated(s, times, e.ep, gone, Status.XFER_CANCELLED, true);
    CancelFlightsDated(RetireFrom(s, e.ep, 0, gone, Status.XFER_CANCELLED, true), times, 0, flying, e.mayCancel);
  }

  lemma SweepDated(s: Exporter, times: seq<nat>, now: nat, reply: Token -> bool)
    requires Dated(s, times)
    ensures Dated(Sweep(s, now, reply), times)
  {
    var gone := (p: Pending) => Expired(p.deadline, now);
    RetireEachDated(s, times, ENDPOINTS, gone, Status.XFER_TIMEOUT, false);
    SweepFlightsDated(RetireEach(s, ENDPOINTS, gone, Status.XFER_TIMEOUT, false), times, 0, now, reply);
  }

  /** A teardown leaves nothing to be due. */
  lemma TeardownDated(s: Exporter, times: seq<nat>, e: Event)
    requires Device(s) && Legal(s, e) && Dated(s, times) && (e.EDetach? || e.EOrphan? || e.EClose?)
    ensures Dated(Step(s, e), times)
  {
    match e
    case EDetach(os) => FailAllRests(s, Status.XFER_CANCELLED, os);
    case EOrphan(st, os) => FailAllRests(s, st, os);
    case EClose(_, os) => if s.attached { FailAllRests(s, Status.DETACHING, os); }
  }

  lemma StepDated(s: Exporter, times: seq<nat>, e: Event)
    requires Device(s) && Legal(s, e) && Dated(s, times)
    ensures Dated(Step(s, e), times + if e.EIntake? then [e.now] else [])
  {
    assert times + [] == times;
    match e
    case EIntake(now, req) => IntakeDated(s, times, now, req);
    case EClearHalt(_, _, _) =>
    case EAttach =>
    case ECancel(_, _, _, _) => CancelStepDated(s, times, e);
    case EAdmit(reply) => AdmitDated(s, times, ENDPOINTS, reply);
    case ECollect(os) => CollectDated(s, times, os);
    case ESweep(now, reply) => SweepDated(s, times, now, reply);
    case EDetach(_) => TeardownDated(s, times, e);
    case EOrphan(_, _) => TeardownDated(s, times, e);
    case EClose(_, _) => TeardownDated(s, times, e);
  }

  lemma {:induction false} RunDated(es: seq<Event>, n: nat)
    requires LegalRun(INITIAL, es) && n <= |es|
    ensures Device(Run(INITIAL, es[..n])) && Dated(Run(INITIAL, es[..n]), TimesOf(es[..n]))
    decreases n
  {
    if n == 0 {
      InitialDevice();
    } else {
      RunDated(es, n - 1);
      RunPrefix(INITIAL, es, n - 1);
      assert es[..n][..n - 1] == es[..n - 1];
      StepKeepsDevice(Run(INITIAL, es[..n - 1]), es[n - 1]);
      StepDated(Run(INITIAL, es[..n - 1]), TimesOf(es[..n - 1]), es[n - 1]);
    }
  }

  // ------------------------------------------------------------ over runs

  /** The transfer that event `k` of the run takes in. */
  ghost function TakenBy(es: seq<Event>, k: nat): nat
    requires k <= |es|
  {
    |Run(INITIAL, es[..k]).intakes|
  }

  lemma {:induction false} TimesGrow(es: seq<Event>, k: nat, n: nat)
    requires k <= n <= |es|
    ensures TimesOf(es[..k]) <= TimesOf(es[..n])
    decreases n - k
  {
    if k < n {
      TimesGrow(es, k, n - 1);
      assert es[..n][..n - 1] == es[..n - 1];
    }
  }

  /** It is the transfer the peer asked for, and it was taken in then. */
  lemma TakenIn(es: seq<Event>, k: nat)
    requires LegalRun(INITIAL, es) && k < |es| && es[k].EIntake?
    ensures var s := Run(INITIAL, es); var n := TakenBy(es, k);
            n < |s.intakes| && s.intakes[n] == es[k].req && Device(s) && Dated(s, TimesOf(es)) && TimesOf(es)[n] == es[k].now
  {
    RunDated(es, k);
    RunDated(es, |es|);
    assert es[..|es|] == es && es[..k + 1][..k] == es[..k];
    RunPrefix(INITIAL, es, k);
    PrefixGrows(es, k + 1, |es|);
    TimesGrow(es, k + 1, |es|);
    assert TimesOf(es[..k + 1]) == TimesOf(es[..k]) + [es[k].now];
  }

  /** A sweep at `t` finds a transfer of this type, taken in at `now`, overdue: 5 s for control, 30 s for bulk, never for interrupt. */
  predicate PastDue(now: nat, xferType: byte, t: nat) {
    xferType != INTERRUPT && t >= now + if xferType == CONTROL || xferType == ISOCHRONOUS then 5_000_000_000 else 30_000_000_000
  }

  /** On the device, not being cancelled, and the port will not stop it. */
  ghost predicate Unstoppable(s: Exporter, n: nat, mayStop: Token -> bool) {
    exists u :: u in s.inFlight && s.inFlight[u].serial == n && !s.inFlight[u].cancelRequested && !(s.attached && mayStop(u))
  }

  lemma QueuedPastExactly(s: Exporter, times: seq<nat>, n: nat, t: nat)
    requires Ledger(s) && Dated(s, times) && n < |s.intakes|
    ensures QueuedPast(s, n, t) <==> InQueue(s, n) && PastDue(times[n], s.intakes[n].sb.xferType, t)
  {
    var q := Q(s.queues, s.intakes[n].sb.epAddr);
    QueueHas(s, n);
    assert QueueOk(s, s.intakes[n].sb.epAddr);
    forall p | p in q && p.serial == n ensures p.req == s.intakes[n] && Due(times, n, s.intakes[n], p.deadline) {
      var i :| 0 <= i < |q| && q[i] == p;
    }
  }

  lemma GivenUpExactly(s: Exporter, times: seq<nat>, n: nat, t: nat, mayStop: Token -> bool)
    requires Ledger(s) && Dated(s, times) && n < |s.intakes|
    ensures SchedulerEffects.GivenUp(s, n, t, mayStop) <==> Unstoppable(s, n, mayStop) && PastDue(times[n], s.intakes[n].sb.xferType, t)
  {
    forall u | u in s.inFlight && s.inFlight[u].serial == n ensures Due(times, n, s.intakes[n], s.inFlight[u].deadline) {
      assert Due(times, s.inFlight[u].serial, s.inFlight[u].req, s.inFlight[u].deadline);
    }
  }

  /**
   * At any point of any run, a sweep answers the transfer that event `k` took in exactly when it is not
   * answered yet, its time is up, and it is queued, or on the device where nothing will stop it. An interrupt
   * transfer's time is never up.
   */
  lemma TimedOutExactly(es: seq<Event>, k: nat, t: nat, mayStop: Token -> bool)
    requires LegalRun(INITIAL, es) && k < |es| && es[k].EIntake?
    ensures var s := Run(INITIAL, es); var n := TakenBy(es, k); var r := Step(s, ESweep(t, mayStop));
            IsAnswered(r, n) <==>
              || IsAnswered(s, n)
              || (PastDue(es[k].now, es[k].req.sb.xferType, t) && (InQueue(s, n) || Unstoppable(s, n, mayStop)))
  {
    TakenIn(es, k);
    var s, n := Run(INITIAL, es), TakenBy(es, k);
    SweepExactly(s, t, mayStop, n);
    QueuedPastExactly(s, TimesOf(es), n, t);
    GivenUpExactly(s, TimesOf(es), n, t, mayStop);
  }

  /** In flight under a token the port has agreed to cancel and still owes. */
  ghost predicate BeingCancelled(s: Exporter, n: nat) {
    exists u :: u in s.inFlight && s.inFlight[u].serial == n && s.inFlight[u].cancelRequested && u in s.port.cancelAccepted && u in s.port.outstanding
  }

  /**
   * The bounded answer. After any sweep 30 s or more past its intake (5 s for control), a bulk transfer is
   * answered, or the port has agreed to cancel it and will report it.
   */
  lemma AnsweredInTime(es: seq<Event>, k: nat, t: nat, mayStop: Token -> bool)
    requires LegalRun(INITIAL, es) && k < |es| && es[k].EIntake? && PastDue(es[k].now, es[k].req.sb.xferType, t)
    ensures var r := Sweep(Run(INITIAL, es), t, mayStop); IsAnswered(r, TakenBy(es, k)) || BeingCancelled(r, TakenBy(es, k))
  {
    TakenIn(es, k);
    LeftIsBeingCancelled(Run(INITIAL, es), Sweep(Run(INITIAL, es), t, mayStop), TimesOf(es), TakenBy(es, k), t, mayStop);
  }

  /** No sweep, however late, answers an interrupt transfer. */
  lemma InterruptsMayIdle(es: seq<Event>, k: nat, t: nat, mayStop: Token -> bool)
    requires LegalRun(INITIAL, es) && k < |es| && es[k].EIntake? && es[k].req.sb.xferType == INTERRUPT
    ensures var s := Run(INITIAL, es); IsAnswered(Step(s, ESweep(t, mayStop)), TakenBy(es, k)) <==> IsAnswered(s, TakenBy(es, k))
  {
    TimedOutExactly(es, k, t, mayStop);
  }

  /** Nothing queued is overdue at `t`, and whatever is overdue on the device is being cancelled. */
  ghost predicate Swept(s: Exporter, t: nat) {
    && (forall ep: byte, p :: p in Q(s.queues, ep) ==> !Expired(p.deadline, t))
    && (forall u :: u in s.inFlight && Expired(s.inFlight[u].deadline, t) ==> s.inFlight[u].cancelRequested && u in s.port.cancelAccepted)
  }

  lemma SweptByIndex(r: Exporter, t: nat)
    requires forall ep: byte, k :: 0 <= k < |Q(r.queues, ep)| ==> !Expired(Q(r.queues, ep)[k].deadline, t)
    requires forall u :: u in r.inFlight && Expired(r.inFlight[u].deadline, t) ==> r.inFlight[u].cancelRequested && u in r.port.cancelAccepted
    ensures Swept(r, t)
  {
    forall ep: byte, p | p in Q(r.queues, ep) ensures !Expired(p.deadline, t) {
      var i :| 0 <= i < |Q(r.queues, ep)| && Q(r.queues, ep)[i] == p;
    }
  }

  lemma SweepSweeps(s: Exporter, t: nat, mayStop: Token -> bool)
    requires Device(s)
    ensures Device(Sweep(s, t, mayStop)) && Swept(Sweep(s, t, mayStop), t)
  {
    SweepDevice(s, t, mayStop);
    SweepBounds(s, t, mayStop);
    SweptByIndex(Sweep(s, t, mayStop), t);
  }

  lemma OverdueIsCancelled(r: Exporter, times: seq<nat>, n: nat, t: nat)
    requires Ledger(r) && Wired(r) && Dated(r, times) && Swept(r, t) && n < |r.intakes| && PastDue(times[n], r.intakes[n].sb.xferType, t)
    ensures IsAnswered(r, n) || BeingCancelled(r, n)
  {
    AnsweredOtherwise(r, n);
    QueuedPastExactly(r, times, n, t);
    assert !QueuedPast(r, n, t);
    if Flying(r, n) {
      var u :| u in r.inFlight && r.inFlight[u].serial == n;
      assert Due(times, r.inFlight[u].serial, r.inFlight[u].req, r.inFlight[u].deadline);
    }
  }

  /** What a sweep leaves: in order, dated, and nothing overdue but what is being cancelled. */
  ghost predicate LeftInOrder(r: Exporter, times: seq<nat>, t: nat) { Ledger(r) && Wired(r) && Dated(r, times) && Swept(r, t) }

  lemma SweepLeavesOrder(s: Exporter, times: seq<nat>, t: nat, mayStop: Token -> bool)
    requires Device(s) && Dated(s, times)
    ensures LeftInOrder(Sweep(s, t, mayStop), times, t) && s.intakes <= Sweep(s, t, mayStop).intakes
  {
    SweepDated(s, times, t, mayStop);
    SweepGrows(s, t, mayStop);
    SweepSweeps(s, t, mayStop);
  }

  lemma LeftIsBeingCancelled(s: Exporter, r: Exporter, times: seq<nat>, n: nat, t: nat, mayStop: Token -> bool)
    requires Device(s) && Dated(s, times) && n < |s.intakes| && PastDue(times[n], s.intakes[n].sb.xferType, t) && r == Sweep(s, t, mayStop)
    ensures IsAnswered(r, n) || BeingCancelled(r, n)
  {
    SweepLeavesOrder(s, times, t, mayStop);
    OverdueIsCancelled(r, times, n, t);
  }
}
