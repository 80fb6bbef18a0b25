/**
 * The ep0 barrier against the device. `mayAdmit` looks at the in-flight table only, and a sweep
 * takes a transfer out of that table while the device still runs it: when the barrier holds, in
 * terms of what happened in the run.
 */
module SchedulerBarrier {
  import opened Wire
  import Status
  import opened Scheduler
  import opened SchedulerLedger
  import opened SchedulerDevice
  import opened SchedulerSafety

  /** Tokens the port still runs although their transfer has been answered. */
  ghost function Abandoned(s: Exporter): set<Token> { s.port.outstanding.Keys - s.inFlight.Keys }

  /** The port reports `t` in this event: polled, or drained at a teardown. */
  ghost predicate Reports(e: Event, t: Token) {
    match e
    case ECollect(os) => Named(os, t)
    case EDetach(os) => Named(os, t)
    case EOrphan(_, os) => Named(os, t)
    case EClose(_, os) => Named(os, t)
    case _ => false
  }

  /** This event is a sweep that gives `t` up: overdue, not being cancelled, and the port refuses to stop it. */
  ghost predicate GivesUp(s: Exporter, e: Event, t: Token) {
    e.ESweep? && Forsaken(s, t, e.sweptAt, e.mayStop)
  }

  ghost predicate AbandonedAfter(s: Exporter, e: Event, t: Token) {
    (t in Abandoned(s) && !Reports(e, t)) || GivesUp(s, e, t)
  }

  // ------------------------------------------------------------ one lemma per step that matters

  /** A sweep abandons exactly the overdue transfers whose cancel the port refuses. */
  lemma SweepAbandons(s: Exporter, now: nat, reply: Token -> bool)
    requires forall t :: t in s.inFlight ==> t in s.port.outstanding && t < s.nextToken
    ensures forall t :: t in Abandoned(Sweep(s, now, reply)) <==> t in Abandoned(s) || Forsaken(s, t, now, reply)
  {
    var gone := (p: Pending) => Expired(p.deadline, now);
    RetireEachFrame(s, ENDPOINTS, gone, Status.XFER_TIMEOUT, false);
    var m := RetireEach(s, ENDPOINTS, gone, Status.XFER_TIMEOUT, false);
    SweepFlightsKeys(m, 0, now, reply);
    forall t ensures Forsaken(m, t, now, reply) <==> Forsaken(s, t, now, reply) {}
  }

  lemma CollectOneAbandons(s: Exporter, o: Outcome, t: Token)
    requires forall u :: u in s.verbs ==> u !in s.inFlight
    ensures t in Abandoned(CollectOne(s, o)) <==> t in Abandoned(s) && t != o.token
  {}

  lemma {:induction false} CollectAbandons(s: Exporter, os: seq<Outcome>, t: Token)
    requires Wired(s) && Lifecycle(s)
    ensures t in Abandoned(CollectAll(s, os)) <==> t in Abandoned(s) && !Named(os, t)
    decreases |os|
  {
    if os != [] {
      VerbsFly(s);
      CollectOneWired(s, os[0]);
      CollectOneAbandons(s, os[0], t);
      CollectAbandons(CollectOne(s, os[0]), os[1..], t);
      NamedSplit(os, t);
    }
  }

  lemma VerbsFly(s: Exporter)
    requires Wired(s)
    ensures forall u :: u in s.verbs ==> u !in s.inFlight && u !in s.port.outstanding
  {}

  lemma AdmitOneAbandons(s: Exporter, ep: byte, reply: Token -> u16)
    requires s.nextToken !in s.port.outstanding && s.nextToken !in s.inFlight
    ensures Abandoned(AdmitOne(s, ep, reply)) == Abandoned(s)
  {}

  lemma {:induction false} AdmitAbandons(s: Exporter, eps: seq<byte>, reply: Token -> u16)
    requires Device(s) && s.state == Leased
    ensures Abandoned(AdmitEach(s, eps, reply)) == Abandoned(s)
    decreases |eps|
  {
    if eps != [] {
      AdmitOneDevice(s, eps[0], reply);
      AdmitOneAbandons(s, eps[0], reply);
      AdmitAbandons(AdmitOne(s, eps[0], reply), eps[1..], reply);
    }
  }

  lemma {:induction false} CancelFlightsKeys(s: Exporter, t: Token, hit: InFlight -> bool, reply: Token -> bool)
    ensures var r := CancelFlights(s, t, hit, reply);
            r.inFlight.Keys == s.inFlight.Keys && r.port.outstanding == s.port.outstanding
    decreases s.nextToken - t
  {
    if t < s.nextToken { CancelFlightsKeys(CancelAt(s, t, hit, reply), t + 1, hit, reply); }
  }

  lemma CancelAbandons(s: Exporter, whole: bool, ep: byte, target: u64, reply: Token -> bool)
    ensures Abandoned(Cancel(s, whole, ep, target, reply)) == Abandoned(s)
  {
    var gone := (p: Pending) => Matches(whole, ep, target, p.req.sb.epAddr, p.req.requestId);
    var flying := (f: InFlight) => Matches(whole, ep, target, f.req.sb.epAddr, f.req.requestId);
    RetireFromFrame(s, ep, 0, gone, Status.XFER_CANCELLED, true);
    CancelFlightsKeys(RetireFrom(s, ep, 0, gone, Status.XFER_CANCELLED, true), 0, flying, reply);
  }

  ghost predicate Tracks(s: Exporter, e: Event, t: Token) { t in Abandoned(Step(s, e)) <==> AbandonedAfter(s, e, t) }

  lemma DrainedTracks(s: Exporter, r: Exporter, os: seq<Outcome>, t: Token)
    requires Device(s) && Resting(r) && (s.attached ==> LegalAbort(s.port, os))
    ensures t !in Abandoned(r) && (t in Abandoned(s) ==> Named(os, t))
  {
    if s.attached && t in s.port.outstanding { assert Named(os, t); }
  }

  lemma DetachTracks(s: Exporter, e: Event, t: Token)
    requires Device(s) && Legal(s, e) && e.EDetach?
    ensures Tracks(s, e, t)
  {
    FailAllRests(s, Status.XFER_CANCELLED, e.drained);
    DrainedTracks(s, FailAll(s, Status.XFER_CANCELLED, e.drained), e.drained, t);
  }

  lemma OrphanTracks(s: Exporter, e: Event, t: Token)
    requires Device(s) && Legal(s, e) && e.EOrphan?
    ensures Tracks(s, e, t)
  {
    FailAllRests(s, e.orphanStatus, e.lost);
    DrainedTracks(s, FailAll(s, e.orphanStatus, e.lost), e.lost, t);
  }

  lemma CloseTracks(s: Exporter, e: Event, t: Token)
    requires Device(s) && Legal(s, e) && e.EClose?
    ensures Tracks(s, e, t)
  {
    if s.attached { FailAllRests(s, Status.DETACHING, e.closed); }
    DrainedTracks(s, if s.attached then FailAll(s, Status.DETACHING, e.closed) else s, e.closed, t);
  }

  lemma CollectTracks(s: Exporter, e: Event, t: Token)
    requires Device(s) && Legal(s, e) && e.ECollect?
    ensures Tracks(s, e, t)
  {
    CollectAbandons(s, e.polled, t);
  }

  lemma SweepTracks(s: Exporter, e: Event, t: Token)
    requires Device(s) && Legal(s, e) && e.ESweep?
    ensures Tracks(s, e, t)
  {
    SweepAbandons(s, e.sweptAt, e.mayStop);
  }

  lemma AdmitTracks(s: Exporter, e: Event, t: Token)
    requires Device(s) && e.EAdmit?
    ensures Tracks(s, e, t)
  {
    if s.attached && s.state == Leased { AdmitAbandons(s, ENDPOINTS, e.maySubmit); }
  }

  lemma CancelTracks(s: Exporter, e: Event, t: Token)
    requires e.ECancel?
    ensures Tracks(s, e, t)
  {
    CancelAbandons(s, e.wholeEndpoint, e.ep, e.target, e.mayCancel);
  }

  lemma IntakeTracks(s: Exporter, e: Event, t: Token)
    requires e.EIntake?
    ensures Tracks(s, e, t)
  {}

  lemma ClearHaltTracks(s: Exporter, e: Event, t: Token)
    requires e.EClearHalt?
    ensures Tracks(s, e, t)
  {}

  lemma AttachTracks(s: Exporter, e: Event, t: Token)
    requires Lifecycle(s) && Legal(s, e) && e.EAttach?
    ensures Tracks(s, e, t)
  {}

  /** Every legal step: a token is abandoned only by a sweep giving it up, and only until it is reported. */
  lemma StepAbandons(s: Exporter, e: Event, t: Token)
    requires Device(s) && Legal(s, e)
    ensures t in Abandoned(Step(s, e)) <==> (t in Abandoned(s) && !Reports(e, t)) || GivesUp(s, e, t)
  {
    match e
    case EIntake(_, _) => IntakeTracks(s, e, t);
    case EClearHalt(_, _, _) => ClearHaltTracks(s, e, t);
    case EAttach => AttachTracks(s, e, t);
    case ECancel(_, _, _, _) => CancelTracks(s, e, t);
    case EAdmit(_) => AdmitTracks(s, e, t);
    case ECollect(_) => CollectTracks(s, e, t);
    case ESweep(_, _) => SweepTracks(s, e, t);
    case EDetach(_) => DetachTracks(s, e, t);
    case EOrphan(_, _) => OrphanTracks(s, e, t);
    case EClose(_, _) => CloseTracks(s, e, t);
  }

  // ------------------------------------------------------------ over runs

  /** At event `k` of the run a sweep gave `t` up. */
  ghost predicate GivenUpAt(es: seq<Event>, k: nat, t: Token) {
    k < |es| && GivesUp(Run(INITIAL, es[..k]), es[k], t)
  }

  /** One of the events from `k` to before `n` reports `t`. */
  ghost predicate ReportedIn(es: seq<Event>, k: nat, n: nat, t: Token) {
    exists j :: k <= j < n && j < |es| && Reports(es[j], t)
  }

  /** Some sweep among the first `n` events gave `t` up, and the port has not reported it since. */
  ghost predicate StillRunning(es: seq<Event>, n: nat, t: Token) {
    exists k: nat :: k < n && GivenUpAt(es, k, t) && !ReportedIn(es, k + 1, n, t)
  }

  lemma StillRunningStep(es: seq<Event>, n: nat, t: Token)
    requires n < |es|
    ensures StillRunning(es, n + 1, t) <==> (StillRunning(es, n, t) && !Reports(es[n], t)) || GivenUpAt(es, n, t)
  {
    if StillRunning(es, n, t) && !Reports(es[n], t) {
      var k: nat :| k < n && GivenUpAt(es, k, t) && !ReportedIn(es, k + 1, n, t);
      assert !ReportedIn(es, k + 1, n + 1, t);
    }
    if GivenUpAt(es, n, t) { assert !ReportedIn(es, n + 1, n + 1, t); }
    if StillRunning(es, n + 1, t) && !GivenUpAt(es, n, t) {
      var k: nat :| k < n + 1 && GivenUpAt(es, k, t) && !ReportedIn(es, k + 1, n + 1, t);
      assert !ReportedIn(es, k + 1, n, t) && !Reports(es[n], t);
    }
  }

  lemma {:induction false} AbandonedByRun(es: seq<Event>, n: nat, t: Token)
    requires LegalRun(INITIAL, es) && n <= |es|
    ensures Device(Run(INITIAL, es[..n]))
    ensures t in Abandoned(Run(INITIAL, es[..n])) <==> StillRunning(es, n, t)
    decreases n
  {
    if n == 0 {
      InitialDevice();
    } else {
      AbandonedByRun(es, n - 1, t);
      RunPrefix(INITIAL, es, n - 1);
      var s := Run(INITIAL, es[..n - 1]);
      StepKeepsDevice(s, es[n - 1]);
      StepAbandons(s, es[n - 1], t);
      StillRunningStep(es, n - 1, t);
    }
  }

  /** A legal run is legal event by event. */
  lemma {:induction false} RunPrefix(s: Exporter, es: seq<Event>, n: nat)
    requires LegalRun(s, es) && n < |es|
    ensures Legal(Run(s, es[..n]), es[n]) && Run(s, es[..n + 1]) == Step(Run(s, es[..n]), es[n])
    decreases n
  {
    if n == 0 {
      assert es[..1][1..] == [] && es[..0] == [];
    } else {
      RunPrefix(Step(s, es[0]), es[1..], n - 1);
      assert es[..n][1..] == es[1..][..n - 1] && es[..n + 1][1..] == es[1..][..n];
    }
  }

  /** Intakes stay where they were put. */
  lemma {:induction false} PrefixGrows(es: seq<Event>, k: nat, n: nat)
    requires LegalRun(INITIAL, es) && k <= n <= |es|
    ensures Run(INITIAL, es[..k]).intakes <= Run(INITIAL, es[..n]).intakes
    decreases n - k
  {
    if k < n {
      PrefixGrows(es, k, n - 1);
      RunPrefix(INITIAL, es, n - 1);
      StepGrows(Run(INITIAL, es[..n - 1]), es[n - 1]);
    }
  }

  lemma AloneExactly(s: Exporter, t: Token)
    requires Wired(s) && t in s.inFlight && IsEp0(s.inFlight[t].req.sb.epAddr)
    ensures s.port.outstanding.Keys == {t} <==> forall u: Token :: u !in Abandoned(s)
  {
    assert s.inFlight.Keys == {t};
    if forall u: Token :: u !in Abandoned(s) {
      forall u: Token | u in s.port.outstanding ensures u == t { assert u !in Abandoned(s); }
    }
  }

  /**
   * The ep0 barrier, exactly. With an ep0 transfer in flight, it is the only one the device runs
   * if and only if everything a sweep of the run ever gave up (overdue, not being cancelled, stop
   * refused by the port) has since been reported by the port.
   */
  lemma Ep0BarrierExactly(es: seq<Event>, t: Token)
    requires LegalRun(INITIAL, es)
    requires var s := Run(INITIAL, es); t in s.inFlight && IsEp0(s.inFlight[t].req.sb.epAddr)
    ensures Run(INITIAL, es).port.outstanding.Keys == {t} <==>
            forall k: nat, u: Token :: GivenUpAt(es, k, u) ==> ReportedIn(es, k + 1, |es|, u)
  {
    var s := Run(INITIAL, es);
    var n := |es|;
    assert es[..n] == es;
    AbandonedByRun(es, n, t);
    forall u: Token ensures u in Abandoned(s) <==> StillRunning(es, n, u) { AbandonedByRun(es, n, u); }
    AloneExactly(s, t);
    if s.port.outstanding.Keys == {t} {
      forall k: nat, u: Token | GivenUpAt(es, k, u) ensures ReportedIn(es, k + 1, n, u) {
        assert u !in Abandoned(s) && !StillRunning(es, n, u);
      }
    } else {
      var u: Token :| u in Abandoned(s);
      var k: nat :| k < n && GivenUpAt(es, k, u) && !ReportedIn(es, k + 1, n, u);
    }
  }
}
