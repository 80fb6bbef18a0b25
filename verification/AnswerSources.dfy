/**
 * Where every answer comes from: over every legal run, what the peer is told of a transfer is what
 * the port reported for that transfer's token, or a local failure with nothing in it.
 */
module AnswerSources {
  import opened Wire
  import Status
  import opened Scheduler
  import opened SchedulerLedger
  import opened SchedulerDevice
  import opened SchedulerSafety
  import opened SchedulerBarrier

  /** What the port reports in an event. */
  function OutcomesOf(e: Event): seq<Outcome> {
    match e
    case ECollect(os) => os
    case EDetach(os) => os
    case EOrphan(_, os) => os
    case EClose(_, os) => os
    case _ => []
  }

  /** The status a reported outcome is answered with: a teardown does not pass a success on. */
  function SaidStatus(e: Event, o: Outcome): u16 {
    match e
    case EDetach(_) => if o.status == Status.OK then Status.XFER_CANCELLED else o.status
    case EOrphan(st, _) => if o.status == Status.OK then st else o.status
    case EClose(_, _) => if o.status == Status.OK then Status.DETACHING else o.status
    case _ => o.status
  }

  predicate SaidCancelled(e: Event, o: Outcome) { !e.ECollect? || o.cancelled }

  /** The answer to transfer `serial`: deadline and cancel flag do not enter it. */
  function AnswerTo(serial: nat, req: Intake, st: u16, actualLen: u32, cancelled: bool, zlpSent: bool, payload: Bytes): Answer {
    MakeAnswer(InFlight(serial, req, Never, false), st, actualLen, cancelled, zlpSent, payload)
  }

  function AnswerFor(e: Event, o: Outcome, serial: nat, req: Intake): Answer {
    AnswerTo(serial, req, SaidStatus(e, o), o.actualLen, SaidCancelled(e, o), o.zlpSent, o.dataIn)
  }

  /** Token `t`, which the port holds, is transfer `n` as it was taken in. */
  ghost predicate Runs(s: Exporter, t: Token, n: nat) {
    n < |s.intakes| && t in s.port.outstanding && s.port.outstanding[t] == Held(n, TransferOf(s.intakes[n]))
  }

  /** `a` is the `i`-th outcome the port reports in `e`, for the token that runs this transfer. */
  ghost predicate FromPort(s: Exporter, e: Event, a: Answer, i: nat) {
    && i < |OutcomesOf(e)| && Runs(s, OutcomesOf(e)[i].token, a.serial)
    && a == AnswerFor(e, OutcomesOf(e)[i], a.serial, s.intakes[a.serial])
  }

  /** Why the session answers a transfer itself: no credit, refused by the port, cancelled, overdue, or torn down. */
  ghost predicate Reason(e: Event, st: u16) {
    && st != Status.OK
    && match e
       case EIntake(_, _) => st == Status.NO_RESOURCES
       case ECancel(_, _, _, _) => st == Status.XFER_CANCELLED
       case EAdmit(reply) => st != Status.BUSY && exists t: Token :: reply(t) == st
       case ESweep(_, _) => st == Status.XFER_TIMEOUT
       case EDetach(_) => st == Status.XFER_CANCELLED
       case EOrphan(lost, _) => st == lost
       case EClose(_, _) => st == Status.DETACHING
       case _ => false
  }

  predicate IsCancelling(e: Event) { e.ECancel? || e.EDetach? || e.EOrphan? || e.EClose? }

  /** A failure the device had no part in: the event's own status, nothing moved, no bytes. */
  ghost predicate Local(e: Event, intakes: seq<Intake>, a: Answer) {
    && a.serial < |intakes| && a.Complete? && Reason(e, a.status)
    && a == AnswerTo(a.serial, intakes[a.serial], a.status, 0, IsCancelling(e), false, [])
  }

  ghost predicate Sourced(s: Exporter, e: Event, intakes: seq<Intake>, a: Answer) {
    Local(e, intakes, a) || exists i :: FromPort(s, e, a, i)
  }

  /** The answers from position `n` on all have their source in event `e`, met in state `s`. */
  ghost predicate AllSourced(s: Exporter, e: Event, intakes: seq<Intake>, n: nat, answers: seq<Answer>) {
    forall i :: n <= i < |answers| ==> Sourced(s, e, intakes, answers[i])
  }

  // ------------------------------------------------------------ local answers

  lemma LocalMade(e: Event, intakes: seq<Intake>, f: InFlight, st: u16, cancelled: bool)
    requires f.serial < |intakes| && f.req == intakes[f.serial] && Reason(e, st) && cancelled == IsCancelling(e)
    ensures Local(e, intakes, MakeAnswer(f, st, 0, cancelled, false, []))
  {}

  lemma {:induction false} RetireSourced(s0: Exporter, e: Event, n: nat, s: Exporter, ep: byte, i: nat, gone: Pending -> bool, st: u16, cancelled: bool)
    requires Ledger(s) && Reason(e, st) && cancelled == IsCancelling(e) && AllSourced(s0, e, s.intakes, n, s.answers)
    ensures AllSourced(s0, e, s.intakes, n, RetireFrom(s, ep, i, gone, st, cancelled).answers)
    decreases |Q(s.queues, ep)| - i
  {
    var q := Q(s.queues, ep);
    if i >= |q| {
    } else if gone(q[i]) {
      assert QueueOk(s, ep);
      LocalMade(e, s.intakes, FlightOf(q[i]), st, cancelled);
      RetireAtKeeps(s, ep, i, st, cancelled);
      RetireSourced(s0, e, n, RetireAt(s, ep, i, st, cancelled), ep, i, gone, st, cancelled);
    } else {
      RetireSourced(s0, e, n, s, ep, i + 1, gone, st, cancelled);
    }
  }

  lemma {:induction false} RetireEachSourced(s0: Exporter, e: Event, n: nat, s: Exporter, eps: seq<byte>, gone: Pending -> bool, st: u16, cancelled: bool)
    requires Ledger(s) && Reason(e, st) && cancelled == IsCancelling(e) && AllSourced(s0, e, s.intakes, n, s.answers)
    ensures AllSourced(s0, e, s.intakes, n, RetireEach(s, eps, gone, st, cancelled).answers)
    decreases |eps|
  {
    if eps != [] {
      RetireSourced(s0, e, n, s, eps[0], 0, gone, st, cancelled);
      RetireFromKeeps(s, eps[0], 0, gone, st, cancelled);
      RetireEachSourced(s0, e, n, RetireFrom(s, eps[0], 0, gone, st, cancelled), eps[1..], gone, st, cancelled);
    }
  }

  lemma {:induction false} AdmitSourced(s0: Exporter, e: Event, n: nat, s: Exporter, eps: seq<byte>, reply: Token -> u16)
    requires e.EAdmit? && e.maySubmit == reply && Ledger(s) && AllSourced(s0, e, s.intakes, n, s.answers)
    ensures AllSourced(s0, e, s.intakes, n, AdmitEach(s, eps, reply).answers)
    decreases |eps|
  {
    if eps != [] {
      AdmitOneSourced(s0, e, n, s, eps[0], reply);
      AdmitOneKeeps(s, eps[0], reply);
      AdmitSourced(s0, e, n, AdmitOne(s, eps[0], reply), eps[1..], reply);
    }
  }

  lemma AdmitOneSourced(s0: Exporter, e: Event, n: nat, s: Exporter, ep: byte, reply: Token -> u16)
    requires e.EAdmit? && e.maySubmit == reply && Ledger(s) && AllSourced(s0, e, s.intakes, n, s.answers)
    ensures AllSourced(s0, e, s.intakes, n, AdmitOne(s, ep, reply).answers) && AdmitOne(s, ep, reply).intakes == s.intakes
  {
    assert QueueOk(s, ep);
    var q := Q(s.queues, ep);
    if q != [] && reply(s.nextToken) != Status.OK && reply(s.nextToken) != Status.BUSY { LocalMade(e, s.intakes, FlightOf(q[0]), reply(s.nextToken), false); }
  }

  lemma {:induction false} SweepSourced(s0: Exporter, e: Event, n: nat, s: Exporter, t: Token, now: nat, reply: Token -> bool)
    requires e.ESweep? && Ledger(s) && AllSourced(s0, e, s.intakes, n, s.answers)
    ensures AllSourced(s0, e, s.intakes, n, SweepFlights(s, t, now, reply).answers)
    decreases s.nextToken - t
  {
    if t < s.nextToken {
      if t in s.inFlight { LocalMade(e, s.intakes, s.inFlight[t], Status.XFER_TIMEOUT, false); }
      SweepAtKeeps(s, t, now, reply);
      SweepSourced(s0, e, n, SweepAt(s, t, now, reply), t + 1, now, reply);
    }
  }

  lemma {:induction false} FailSourced(s0: Exporter, e: Event, n: nat, s: Exporter, t: Token, st: u16)
    requires Ledger(s) && Reason(e, st) && IsCancelling(e) && AllSourced(s0, e, s.intakes, n, s.answers)
    ensures AllSourced(s0, e, s.intakes, n, FailFlights(s, t, st).answers)
    decreases s.nextToken - t
  {
    if t < s.nextToken {
      if t in s.inFlight { LocalMade(e, s.intakes, s.inFlight[t], st, true); }
      FailAtKeeps(s, t, st);
      FailSourced(s0, e, n, FailAt(s, t, st), t + 1, st);
    }
  }

  // ------------------------------------------------------------ answers from the port

  /** Whatever is in flight now ran under the same token when the event began. */
  ghost predicate Traced(s0: Exporter, s: Exporter) {
    && s.intakes == s0.intakes
    && forall t :: t in s.inFlight ==> Runs(s0, t, s.inFlight[t].serial) && s.inFlight[t].req == s0.intakes[s.inFlight[t].serial]
  }

  lemma DeviceTraced(s: Exporter)
    requires Ledger(s) && Wired(s)
    ensures Traced(s, s)
  {}

  /** Landing the `i`-th outcome of the event. */
  lemma LandSourced(s0: Exporter, e: Event, s: Exporter, i: nat, a: Answer)
    requires Traced(s0, s) && i < |OutcomesOf(e)| && OutcomesOf(e)[i].token in s.inFlight
    requires var o := OutcomesOf(e)[i];
             a == MakeAnswer(s.inFlight[o.token], SaidStatus(e, o), o.actualLen, SaidCancelled(e, o), o.zlpSent, o.dataIn)
    ensures FromPort(s0, e, a, i)
  {}

  lemma {:induction false} CollectSourced(s0: Exporter, e: Event, n: nat, s: Exporter, i: nat)
    requires e.ECollect? && i <= |e.polled| && Traced(s0, s) && AllSourced(s0, e, s0.intakes, n, s.answers)
    ensures AllSourced(s0, e, s0.intakes, n, CollectAll(s, e.polled[i..]).answers)
    decreases |e.polled| - i
  {
    if i < |e.polled| {
      CollectOneSourced(s0, e, n, s, i);
      assert e.polled[i..][0] == e.polled[i] && e.polled[i..][1..] == e.polled[i + 1..];
      CollectSourced(s0, e, n, CollectOne(s, e.polled[i]), i + 1);
    } else {
      assert e.polled[i..] == [];
    }
  }

  lemma CollectOneTraced(s0: Exporter, s: Exporter, o: Outcome)
    requires Traced(s0, s)
    ensures Traced(s0, CollectOne(s, o))
  {}

  lemma CollectOneSourced(s0: Exporter, e: Event, n: nat, s: Exporter, i: nat)
    requires e.ECollect? && i < |e.polled| && Traced(s0, s) && AllSourced(s0, e, s0.intakes, n, s.answers)
    ensures var r := CollectOne(s, e.polled[i]); Traced(s0, r) && AllSourced(s0, e, s0.intakes, n, r.answers)
  {
    var o := e.polled[i];
    CollectOneTraced(s0, s, o);
    if o.token in s.verbs || o.token !in s.inFlight {
      assert CollectOne(s, o).answers == s.answers;
    } else {
      var a := MakeAnswer(s.inFlight[o.token], o.status, o.actualLen, o.cancelled, o.zlpSent, o.dataIn);
      LandSourced(s0, e, s, i, a);
      assert CollectOne(s, o).answers == s.answers + [a];
      OneMoreSourced(s0, e, n, s.answers, a);
    }
  }

  lemma {:induction false} AbortSourced(s0: Exporter, e: Event, n: nat, s: Exporter, st: u16, i: nat)
    requires TearsDown(e, st) && i <= |OutcomesOf(e)| && Traced(s0, s) && AllSourced(s0, e, s0.intakes, n, s.answers)
    ensures AllSourced(s0, e, s0.intakes, n, AbortAll(s, st, OutcomesOf(e)[i..]).answers)
    decreases |OutcomesOf(e)| - i
  {
    var os := OutcomesOf(e);
    if i < |os| {
      AbortOneSourced(s0, e, n, s, st, i);
      assert os[i..][0] == os[i] && os[i..][1..] == os[i + 1..];
      AbortSourced(s0, e, n, AbortOne(s, st, os[i]), st, i + 1);
    } else {
      assert os[i..] == [];
    }
  }

  /** The event fails every transfer with `st`. */
  predicate TearsDown(e: Event, st: u16) {
    && st != Status.OK
    && match e
       case EDetach(_) => st == Status.XFER_CANCELLED
       case EOrphan(lost, _) => st == lost
       case EClose(_, _) => st == Status.DETACHING
       case _ => false
  }

  lemma AbortOneTraced(s0: Exporter, s: Exporter, st: u16, o: Outcome)
    requires Traced(s0, s)
    ensures Traced(s0, AbortOne(s, st, o))
  {}

  lemma AbortOneSourced(s0: Exporter, e: Event, n: nat, s: Exporter, st: u16, i: nat)
    requires TearsDown(e, st) && i < |OutcomesOf(e)| && Traced(s0, s) && AllSourced(s0, e, s0.intakes, n, s.answers)
    ensures var r := AbortOne(s, st, OutcomesOf(e)[i]); Traced(s0, r) && AllSourced(s0, e, s0.intakes, n, r.answers)
  {
    var o := OutcomesOf(e)[i];
    AbortOneTraced(s0, s, st, o);
    if o.token in s.verbs || o.token !in s.inFlight {
      assert AbortOne(s, st, o).answers == s.answers;
    } else {
      var a := MakeAnswer(s.inFlight[o.token], if o.status == Status.OK then st else o.status, o.actualLen, true, o.zlpSent, o.dataIn);
      TornDown(e, st, o);
      LandSourced(s0, e, s, i, a);
      assert AbortOne(s, st, o).answers == s.answers + [a];
      OneMoreSourced(s0, e, n, s.answers, a);
    }
  }

  lemma TornDown(e: Event, st: u16, o: Outcome)
    requires TearsDown(e, st)
    ensures SaidStatus(e, o) == (if o.status == Status.OK then st else o.status) && SaidCancelled(e, o)
  {}

  lemma OneMoreSourced(s0: Exporter, e: Event, n: nat, answers: seq<Answer>, a: Answer)
    requires AllSourced(s0, e, s0.intakes, n, answers) && Sourced(s0, e, s0.intakes, a)
    ensures AllSourced(s0, e, s0.intakes, n, answers + [a])
  {}

  lemma FailAllSourced(s: Exporter, e: Event, st: u16)
    requires Device(s) && TearsDown(e, st)
    ensures AllSourced(s, e, s.intakes, |s.answers|, FailAll(s, st, OutcomesOf(e)).answers)
  {
    var os, n := OutcomesOf(e), |s.answers|;
    var s1 := if s.attached then AbortAll(s, st, os) else s;
    if s.attached {
      DeviceTraced(s);
      AbortSourced(s, e, n, s, st, 0);
      assert os[0..] == os;
      AbortAllKeeps(s, st, os);
      AbortAllLogs(s, st, os);
    }
    FailSourced(s, e, n, s1, 0, st);
    FailFlightsKeeps(s1, 0, st);
    FailFlightsEmpties(s1, 0, st);
    RetireEachSourced(s, e, n, FailFlights(s1, 0, st), ENDPOINTS, (p: Pending) => true, st, true);
  }

  // ------------------------------------------------------------ every step

  ghost predicate StepIsSourced(s: Exporter, e: Event) {
    AllSourced(s, e, Step(s, e).intakes, |s.answers|, Step(s, e).answers)
  }

  lemma IntakeSourced(s: Exporter, e: Event)
    requires e.EIntake?
    ensures StepIsSourced(s, e)
  {
    LocalMade(e, s.intakes + [e.req], InFlight(|s.intakes|, e.req, Never, false), Status.NO_RESOURCES, false);
  }

  lemma CancelSourced(s: Exporter, e: Event)
    requires Ledger(s) && e.ECancel?
    ensures StepIsSourced(s, e)
  {
    if s.state == Leased {
      var gone := (p: Pending) => Matches(e.wholeEndpoint, e.ep, e.target, p.req.sb.epAddr, p.req.requestId);
      var flying := (f: InFlight) => Matches(e.wholeEndpoint, e.ep, e.target, f.req.sb.epAddr, f.req.requestId);
      RetireSourced(s, e, |s.answers|, s, e.ep, 0, gone, Status.XFER_CANCELLED, true);
      RetireFromKeeps(s, e.ep, 0, gone, Status.XFER_CANCELLED, true);
      CancelFlightsLogs(RetireFrom(s, e.ep, 0, gone, Status.XFER_CANCELLED, true), 0, flying, e.mayCancel);
    }
  }

  lemma {:induction false} CancelFlightsLogs(s: Exporter, t: Token, hit: InFlight -> bool, reply: Token -> bool)
    ensures var r := CancelFlights(s, t, hit, reply); r.answers == s.answers && r.intakes == s.intakes
    decreases s.nextToken - t
  {
    if t < s.nextToken { CancelFlightsLogs(CancelAt(s, t, hit, reply), t + 1, hit, reply); }
  }

  lemma {:induction false} AdmitLogs(s: Exporter, eps: seq<byte>, reply: Token -> u16)
    ensures AdmitEach(s, eps, reply).intakes == s.intakes
    decreases |eps|
  {
    if eps != [] { AdmitLogs(AdmitOne(s, eps[0], reply), eps[1..], reply); }
  }

  lemma AdmitStepSourced(s: Exporter, e: Event)
    requires Ledger(s) && e.EAdmit?
    ensures StepIsSourced(s, e)
  {
    AdmitSourced(s, e, |s.answers|, s, ENDPOINTS, e.maySubmit);
    AdmitLogs(s, ENDPOINTS, e.maySubmit);
  }

  lemma {:induction false} CollectLogs(s: Exporter, os: seq<Outcome>)
    ensures CollectAll(s, os).intakes == s.intakes
    decreases |os|
  {
    if os != [] { CollectLogs(CollectOne(s, os[0]), os[1..]); }
  }

  lemma CollectStepSourced(s: Exporter, e: Event)
    requires Device(s) && e.ECollect?
    ensures StepIsSourced(s, e)
  {
    DeviceTraced(s);
    CollectSourced(s, e, |s.answers|, s, 0);
    assert e.polled[0..] == e.polled;
    CollectLogs(s, e.polled);
  }

  lemma SweepStepSourced(s: Exporter, e: Event)
    requires Ledger(s) && e.ESweep?
    ensures StepIsSourced(s, e)
  {
    var gone := (p: Pending) => Expired(p.deadline, e.sweptAt);
    var m := RetireEach(s, ENDPOINTS, gone, Status.XFER_TIMEOUT, false);
    RetireEachSourced(s, e, |s.answers|, s, ENDPOINTS, gone, Status.XFER_TIMEOUT, false);
    RetireEachKeeps(s, ENDPOINTS, gone, Status.XFER_TIMEOUT, false);
    SweepSourced(s, e, |s.answers|, m, 0, e.sweptAt, e.mayStop);
    SweepFlightsKeys(m, 0, e.sweptAt, e.mayStop);
  }

  lemma TeardownSourced(s: Exporter, e: Event, st: u16)
    requires Device(s) && TearsDown(e, st) && (e.EClose? ==> s.attached)
    ensures StepIsSourced(s, e)
  {
    FailAllSourced(s, e, st);
    FailAllKeeps(s, st, OutcomesOf(e));
  }

  lemma StepSourced(s: Exporter, e: Event)
    requires Device(s) && Legal(s, e)
    ensures AllSourced(s, e, Step(s, e).intakes, |s.answers|, Step(s, e).answers)
  {
    match e
    case EIntake(_, _) => IntakeSourced(s, e);
    case EClearHalt(_, _, _) =>
    case EAttach =>
    case ECancel(_, _, _, _) => CancelSourced(s, e);
    case EAdmit(_) => AdmitStepSourced(s, e);
    case ECollect(_) => CollectStepSourced(s, e);
    case ESweep(_, _) => SweepStepSourced(s, e);
    case EDetach(_) => TeardownSourced(s, e, Status.XFER_CANCELLED);
    case EOrphan(st, _) => TeardownSourced(s, e, st);
    case EClose(_, _) => if s.attached { TeardownSourced(s, e, Status.DETACHING); }
  }

  // ------------------------------------------------------------ every run

  /** Event `k` of the run is where `a` comes from. */
  ghost predicate SourcedAt(es: seq<Event>, k: nat, a: Answer) {
    k < |es| && Sourced(Run(INITIAL, es[..k]), es[k], Step(Run(INITIAL, es[..k]), es[k]).intakes, a)
  }

  ghost predicate HasSource(es: seq<Event>, n: nat, a: Answer) { exists k: nat :: k < n && SourcedAt(es, k, a) }

  lemma {:induction false} PrefixSourced(es: seq<Event>, n: nat)
    requires LegalRun(INITIAL, es) && n <= |es|
    ensures var s := Run(INITIAL, es[..n]); Device(s) && forall i :: 0 <= i < |s.answers| ==> HasSource(es, n, s.answers[i])
    decreases n
  {
    if n == 0 {
      InitialDevice();
    } else {
      PrefixSourced(es, n - 1);
      RunPrefix(INITIAL, es, n - 1);
      var s := Run(INITIAL, es[..n - 1]);
      var r := Run(INITIAL, es[..n]);
      StepKeepsDevice(s, es[n - 1]);
      StepSourced(s, es[n - 1]);
      StepGrows(s, es[n - 1]);
      forall i | 0 <= i < |r.answers| ensures HasSource(es, n, r.answers[i]) {
        if i < |s.answers| { EarlierSource(es, n - 1, s.answers[i]); } else { assert SourcedAt(es, n - 1, r.answers[i]); }
      }
    }
  }

  lemma EarlierSource(es: seq<Event>, n: nat, a: Answer)
    requires HasSource(es, n, a)
    ensures HasSource(es, n + 1, a)
  {
    var k: nat :| k < n && SourcedAt(es, k, a);
  }

  /**
   * Over every legal run, each answer is what the port reported for the token that ran this very
   * transfer (a success reported at a teardown becomes the teardown's status), or a local failure
   * with no bytes and the status its event gives. So success is never claimed unless the port claimed it.
   */
  lemma AnswersComeFromThePort(es: seq<Event>)
    requires LegalRun(INITIAL, es)
    ensures var s := Run(INITIAL, es); forall i :: 0 <= i < |s.answers| ==> HasSource(es, |es|, s.answers[i])
  {
    PrefixSourced(es, |es|);
    assert es[..|es|] == es;
  }
}
