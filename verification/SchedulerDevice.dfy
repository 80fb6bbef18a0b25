/**
 * What the scheduler keeps true of the device: one unreported transfer per non-zero
 * endpoint, the ep0 barrier, and submission order on each endpoint.
 */
module SchedulerDevice {
  import opened Wire
  import Status
  import opened Scheduler
  import opened SchedulerLedger

  /** The in-flight table against the transfers the port still owes. */
  ghost predicate Tokens(inFlight: map<Token, InFlight>, outstanding: map<Token, Held>, cancelAccepted: set<Token>, nextToken: Token) {
    && (forall t :: t in inFlight ==>
          t in outstanding && outstanding[t] == Held(inFlight[t].serial, TransferOf(inFlight[t].req)))
    && (forall t :: t in outstanding ==> t < nextToken)
    && (forall t :: t in inFlight && inFlight[t].cancelRequested ==> t in cancelAccepted)
  }

  ghost predicate VerbsOk(verbs: map<Token, Verb>, owed: set<Token>, outstanding: map<Token, Held>, nextToken: Token) {
    verbs.Keys == owed && forall t :: t in owed ==> t < nextToken && t !in outstanding
  }

  /** A non-zero endpoint is reserved exactly while the port owes a transfer on it. */
  ghost predicate Reserved(outstanding: map<Token, Held>, busy: map<byte, Token>) {
    && (forall t :: t in outstanding && !IsEp0(outstanding[t].transfer.epAddr) ==>
          outstanding[t].transfer.epAddr in busy && busy[outstanding[t].transfer.epAddr] == t)
    && (forall e :: e in busy ==> busy[e] in outstanding && outstanding[busy[e]].transfer.epAddr == e)
  }

  ghost predicate Ep0Alone(inFlight: map<Token, InFlight>) {
    forall t, u :: t in inFlight && u in inFlight && IsEp0(inFlight[t].req.sb.epAddr) ==> t == u
  }

  /** What the port accepted on one endpoint is in the order the peer submitted it. */
  ghost predicate Ordered(accepted: seq<Held>, intakes: seq<Intake>, queues: map<byte, seq<Pending>>) {
    && (forall i :: 0 <= i < |accepted| ==>
          accepted[i].serial < |intakes| && accepted[i].transfer == TransferOf(intakes[accepted[i].serial]))
    && (forall i, j :: 0 <= i < j < |accepted| && accepted[i].transfer.epAddr == accepted[j].transfer.epAddr ==>
          accepted[i].serial < accepted[j].serial)
    && (forall i, k :: 0 <= i < |accepted| && 0 <= k < |Q(queues, accepted[i].transfer.epAddr)| ==>
          accepted[i].serial < Q(queues, accepted[i].transfer.epAddr)[k].serial)
  }

  ghost predicate Resting(s: Exporter) {
    && s.inFlight == map[] && s.busy == map[] && s.verbs == map[]
    && s.port.outstanding == map[] && s.port.verbs == {}
    && EmptyBut(s.queues, [])
  }

  ghost predicate Lifecycle(s: Exporter) {
    && (s.state == Leased ==> s.attached)
    && (s.state == Idle || s.state == Closed ==> !s.attached)
    && (s.state != Leased ==> Resting(s))
  }

  ghost predicate Wired(s: Exporter) {
    && Tokens(s.inFlight, s.port.outstanding, s.port.cancelAccepted, s.nextToken)
    && VerbsOk(s.verbs, s.port.verbs, s.port.outstanding, s.nextToken)
    && Reserved(s.port.outstanding, s.busy)
    && Ep0Alone(s.inFlight)
    && Ordered(s.port.accepted, s.intakes, s.queues)
  }

  ghost predicate Device(s: Exporter) { Ledger(s) && Wired(s) && Lifecycle(s) }

  // ------------------------------------------------------------ queue-only moves

  ghost predicate Within(q': seq<Pending>, q: seq<Pending>) {
    |q'| <= |q| && forall k :: 0 <= k < |q'| ==> q'[k] in q
  }

  lemma OrderedShrinks(accepted: seq<Held>, intakes: seq<Intake>, queues: map<byte, seq<Pending>>, queues': map<byte, seq<Pending>>)
    requires Ordered(accepted, intakes, queues)
    requires forall ep: byte :: Within(Q(queues', ep), Q(queues, ep))
    ensures Ordered(accepted, intakes, queues')
  {
    forall i, k | 0 <= i < |accepted| && 0 <= k < |Q(queues', accepted[i].transfer.epAddr)|
      ensures accepted[i].serial < Q(queues', accepted[i].transfer.epAddr)[k].serial
    {
      var ep := accepted[i].transfer.epAddr;
      assert Within(Q(queues', ep), Q(queues, ep)) && Q(queues', ep)[k] in Q(queues, ep);
      var k' :| 0 <= k' < |Q(queues, ep)| && Q(queues, ep)[k'] == Q(queues', ep)[k];
      assert accepted[i].serial < Q(queues, ep)[k'].serial;
    }
  }

  lemma OrderedAppends(accepted: seq<Held>, intakes: seq<Intake>, queues: map<byte, seq<Pending>>, req: Intake, p: Pending)
    requires Ordered(accepted, intakes, queues) && p.serial == |intakes|
    ensures Ordered(accepted, intakes + [req], queues)
    ensures Ordered(accepted, intakes + [req], queues[req.sb.epAddr := Q(queues, req.sb.epAddr) + [p]])
  {
    var queues' := queues[req.sb.epAddr := Q(queues, req.sb.epAddr) + [p]];
    forall i, k | 0 <= i < |accepted| && 0 <= k < |Q(queues', accepted[i].transfer.epAddr)|
      ensures accepted[i].serial < Q(queues', accepted[i].transfer.epAddr)[k].serial
    {
      var ep := accepted[i].transfer.epAddr;
      if k < |Q(queues, ep)| { assert Q(queues', ep)[k] == Q(queues, ep)[k]; }
    }
  }

  lemma ShrinkLifecycle(s: Exporter, r: Exporter)
    requires Lifecycle(s) && r == s.(queues := r.queues, answers := r.answers)
    requires forall ep: byte :: Within(Q(r.queues, ep), Q(s.queues, ep))
    ensures Lifecycle(r)
  {
    if s.state != Leased {
      forall ep: byte ensures Q(r.queues, ep) == [] {
        assert Within(Q(r.queues, ep), Q(s.queues, ep)) && Q(s.queues, ep) == [];
      }
    }
  }

  lemma {:induction false} RetireFromWithin(s: Exporter, ep: byte, i: nat, gone: Pending -> bool, st: u16, cancelled: bool)
    ensures Within(Q(RetireFrom(s, ep, i, gone, st, cancelled).queues, ep), Q(s.queues, ep))
    decreases |Q(s.queues, ep)| - i
  {
    var q := Q(s.queues, ep);
    if i >= |q| {
    } else if gone(q[i]) {
      var m := RetireAt(s, ep, i, st, cancelled);
      RetireFromWithin(m, ep, i, gone, st, cancelled);
      var q' := Q(RetireFrom(m, ep, i, gone, st, cancelled).queues, ep);
      forall k | 0 <= k < |q'| ensures q'[k] in q { assert q'[k] in Q(m.queues, ep); }
    } else {
      RetireFromWithin(s, ep, i + 1, gone, st, cancelled);
    }
  }

  lemma RetireFromDevice(s: Exporter, ep: byte, gone: Pending -> bool, st: u16, cancelled: bool)
    requires Device(s)
    ensures Device(RetireFrom(s, ep, 0, gone, st, cancelled))
  {
    var r := RetireFrom(s, ep, 0, gone, st, cancelled);
    RetireFromKeeps(s, ep, 0, gone, st, cancelled);
    RetireFromWithin(s, ep, 0, gone, st, cancelled);
    OrderedShrinks(s.port.accepted, s.intakes, s.queues, r.queues);
    ShrinkLifecycle(s, r);
  }

  lemma {:induction false} RetireEachDevice(s: Exporter, eps: seq<byte>, gone: Pending -> bool, st: u16, cancelled: bool)
    requires Device(s)
    ensures Device(RetireEach(s, eps, gone, st, cancelled))
    decreases |eps|
  {
    if eps != [] {
      RetireFromDevice(s, eps[0], gone, st, cancelled);
      RetireEachDevice(RetireFrom(s, eps[0], 0, gone, st, cancelled), eps[1..], gone, st, cancelled);
    }
  }

  lemma EnqueueDevice(s: Exporter, now: nat, req: Intake)
    requires Device(s) && s.state == Leased
    ensures Device(Enqueue(s, now, req))
  {
    EnqueueKeeps(s, now, req);
    OrderedAppends(s.port.accepted, s.intakes, s.queues, req,
      Pending(|s.intakes|, req, AfterMs(now, DeadlineMsFor(req.sb.xferType))));
  }

  // ------------------------------------------------------------ admit

  lemma LaunchTokens(inFlight: map<Token, InFlight>, outstanding: map<Token, Held>, accepted: set<Token>, n: Token, p: Pending)
    requires Tokens(inFlight, outstanding, accepted, n)
    ensures Tokens(inFlight[n := FlightOf(p)], outstanding[n := Held(p.serial, TransferOf(p.req))], accepted, n + 1)
  {}

  lemma LaunchReserves(outstanding: map<Token, Held>, busy: map<byte, Token>, n: Token, h: Held)
    requires Reserved(outstanding, busy) && n !in outstanding
    requires IsEp0(h.transfer.epAddr) || h.transfer.epAddr !in busy
    ensures Reserved(outstanding[n := h], busy[h.transfer.epAddr := n])
  {}

  lemma LaunchOrders(accepted: seq<Held>, intakes: seq<Intake>, queues: map<byte, seq<Pending>>, ep: byte)
    requires Ordered(accepted, intakes, queues) && Q(queues, ep) != [] && QueueSorted(Q(queues, ep))
    requires var p := Q(queues, ep)[0]; p.serial < |intakes| && p.req == intakes[p.serial] && p.req.sb.epAddr == ep
    ensures var p := Q(queues, ep)[0];
            Ordered(accepted + [Held(p.serial, TransferOf(p.req))], intakes, queues[ep := Q(queues, ep)[1..]])
  {
    var q := Q(queues, ep);
    var a' := accepted + [Held(q[0].serial, TransferOf(q[0].req))];
    var queues' := queues[ep := q[1..]];
    forall i, k | 0 <= i < |a'| && 0 <= k < |Q(queues', a'[i].transfer.epAddr)|
      ensures a'[i].serial < Q(queues', a'[i].transfer.epAddr)[k].serial
    {
      var e := a'[i].transfer.epAddr;
      if e == ep {
        assert Q(queues', e)[k] == q[k + 1];
        if i < |accepted| { assert accepted[i].serial < Q(queues, accepted[i].transfer.epAddr)[k + 1].serial; }
      } else {
        assert accepted[i].serial < Q(queues, accepted[i].transfer.epAddr)[k].serial;
      }
    }
    forall i | 0 <= i < |accepted| && accepted[i].transfer.epAddr == ep ensures accepted[i].serial < q[0].serial {
      assert accepted[i].serial < Q(queues, accepted[i].transfer.epAddr)[0].serial;
    }
  }

  lemma LaunchDevice(s: Exporter, ep: byte, reply: Token -> u16)
    requires Device(s) && s.state == Leased
    requires Q(s.queues, ep) != [] && MayAdmit(s, ep) && reply(s.nextToken) == Status.OK
    ensures Device(AdmitOne(s, ep, reply))
  {
    var p := Q(s.queues, ep)[0];
    AdmitOneKeeps(s, ep, reply);
    assert QueueOk(s, ep);
    LaunchTokens(s.inFlight, s.port.outstanding, s.port.cancelAccepted, s.nextToken, p);
    LaunchReserves(s.port.outstanding, s.busy, s.nextToken, Held(p.serial, TransferOf(p.req)));
    LaunchOrders(s.port.accepted, s.intakes, s.queues, ep);
    LaunchVerbs(s.verbs, s.port.verbs, s.port.outstanding, s.nextToken, Held(p.serial, TransferOf(p.req)));
    LaunchBarrier(s, ep, p);
  }

  lemma LaunchVerbs(verbs: map<Token, Verb>, owed: set<Token>, outstanding: map<Token, Held>, n: Token, h: Held)
    requires VerbsOk(verbs, owed, outstanding, n)
    ensures VerbsOk(verbs, owed, outstanding[n := h], n + 1) && VerbsOk(verbs, owed, outstanding, n + 1)
  {}

  lemma LaunchBarrier(s: Exporter, ep: byte, p: Pending)
    requires Ep0Alone(s.inFlight) && MayAdmit(s, ep) && p.req.sb.epAddr == ep
    ensures Ep0Alone(s.inFlight[s.nextToken := FlightOf(p)])
  {}

  lemma RefusedByPort(s: Exporter, ep: byte, reply: Token -> u16)
    requires Device(s) && s.state == Leased && Q(s.queues, ep) != [] && MayAdmit(s, ep)
    requires reply(s.nextToken) != Status.OK
    ensures Device(AdmitOne(s, ep, reply))
  {
    var q := Q(s.queues, ep);
    var r := AdmitOne(s, ep, reply);
    AdmitOneKeeps(s, ep, reply);
    forall e: byte ensures Within(Q(r.queues, e), Q(s.queues, e)) {}
    OrderedShrinks(s.port.accepted, s.intakes, s.queues, r.queues);
    LaunchVerbs(s.verbs, s.port.verbs, s.port.outstanding, s.nextToken, Held(0, TransferOf(q[0].req)));
  }

  lemma AdmitOneDevice(s: Exporter, ep: byte, reply: Token -> u16)
    requires Device(s) && s.state == Leased
    ensures Device(AdmitOne(s, ep, reply)) && AdmitOne(s, ep, reply).state == Leased
  {
    if Q(s.queues, ep) == [] || !MayAdmit(s, ep) {
    } else if reply(s.nextToken) == Status.OK {
      LaunchDevice(s, ep, reply);
    } else {
      RefusedByPort(s, ep, reply);
    }
  }

  lemma {:induction false} AdmitEachDevice(s: Exporter, eps: seq<byte>, reply: Token -> u16)
    requires Device(s) && s.state == Leased
    ensures Device(AdmitEach(s, eps, reply))
    decreases |eps|
  {
    if eps != [] {
      AdmitOneDevice(s, eps[0], reply);
      AdmitEachDevice(AdmitOne(s, eps[0], reply), eps[1..], reply);
    }
  }

  // ------------------------------------------------------------ collect, cancel, sweep

  lemma ReportTokens(inFlight: map<Token, InFlight>, outstanding: map<Token, Held>, accepted: set<Token>, n: Token, t: Token)
    requires Tokens(inFlight, outstanding, accepted, n)
    ensures Tokens(inFlight - {t}, outstanding - {t}, accepted, n) && Tokens(inFlight - {t}, outstanding, accepted, n)
  {}

  lemma ReportReserves(outstanding: map<Token, Held>, busy: map<byte, Token>, t: Token)
    requires Reserved(outstanding, busy)
    ensures Reserved(outstanding - {t}, FreeEndpoint(busy, t))
  {}

  lemma CollectOneDevice(s: Exporter, o: Outcome)
    requires Device(s)
    ensures Device(CollectOne(s, o))
  {
    CollectOneKeeps(s, o);
    CollectOneWired(s, o);
  }

  lemma CollectOneWired(s: Exporter, o: Outcome)
    requires Wired(s) && Lifecycle(s)
    ensures Wired(CollectOne(s, o)) && Lifecycle(CollectOne(s, o))
  {
    ReportTokens(s.inFlight, s.port.outstanding, s.port.cancelAccepted, s.nextToken, o.token);
    ReportReserves(s.port.outstanding, s.busy, o.token);
    var r := CollectOne(s, o);
    if o.token !in s.inFlight { assert s.inFlight - {o.token} == s.inFlight; }
    if o.token in s.verbs {
      assert FreeEndpoint(s.busy, o.token) == s.busy && o.token !in s.inFlight;
    } else {
      assert s.port.verbs - {o.token} == s.port.verbs;
    }
  }

  lemma {:induction false} CollectAllDevice(s: Exporter, os: seq<Outcome>)
    requires Device(s)
    ensures Device(CollectAll(s, os))
    decreases |os|
  {
    if os != [] {
      CollectOneDevice(s, os[0]);
      CollectAllDevice(CollectOne(s, os[0]), os[1..]);
    }
  }

  lemma FlagDevice(s: Exporter, r: Exporter, t: Token, yes: bool)
    requires Device(s) && t in s.inFlight
    requires r == s.(port := CancelAnswered(s.port, t, yes),
                     inFlight := if yes then s.inFlight[t := s.inFlight[t].(cancelRequested := true)] else s.inFlight)
    ensures Device(r)
  {
    Unmoved(s, r);
    FlagTokens(s.inFlight, s.port.outstanding, s.port.cancelAccepted, s.nextToken, t);
  }

  lemma FlagTokens(inFlight: map<Token, InFlight>, outstanding: map<Token, Held>, accepted: set<Token>, n: Token, t: Token)
    requires Tokens(inFlight, outstanding, accepted, n) && t in inFlight && Ep0Alone(inFlight)
    ensures var fs := inFlight[t := inFlight[t].(cancelRequested := true)]; Tokens(fs, outstanding, accepted + {t}, n) && Ep0Alone(fs)
  {}

  lemma CancelAtDevice(s: Exporter, t: Token, hit: InFlight -> bool, reply: Token -> bool)
    requires Device(s)
    ensures Device(CancelAt(s, t, hit, reply))
  {
    if t in s.inFlight && hit(s.inFlight[t]) { FlagDevice(s, CancelAt(s, t, hit, reply), t, reply(t)); }
  }

  lemma {:induction false} CancelFlightsDevice(s: Exporter, t: Token, hit: InFlight -> bool, reply: Token -> bool)
    requires Device(s)
    ensures Device(CancelFlights(s, t, hit, reply))
    decreases s.nextToken - t
  {
    if t < s.nextToken {
      CancelAtDevice(s, t, hit, reply);
      CancelFlightsDevice(CancelAt(s, t, hit, reply), t + 1, hit, reply);
    }
  }

  lemma CancelDevice(s: Exporter, whole: bool, ep: byte, target: u64, reply: Token -> bool)
    requires Device(s)
    ensures Device(Cancel(s, whole, ep, target, reply))
  {
    if s.state == Leased {
      var gone := (p: Pending) => Matches(whole, ep, target, p.req.sb.epAddr, p.req.requestId);
      var flying := (f: InFlight) => Matches(whole, ep, target, f.req.sb.epAddr, f.req.requestId);
      RetireFromDevice(s, ep, gone, Status.XFER_CANCELLED, true);
      CancelFlightsDevice(RetireFrom(s, ep, 0, gone, Status.XFER_CANCELLED, true), 0, flying, reply);
    }
  }

  lemma SweepAtDevice(s: Exporter, t: Token, now: nat, reply: Token -> bool)
    requires Device(s)
    ensures Device(SweepAt(s, t, now, reply))
  {
    var r := SweepAt(s, t, now, reply);
    if !Overdue(s, t, now) {
    } else if s.attached && reply(t) {
      FlagDevice(s, r, t, true);
    } else {
      SweepAtKeeps(s, t, now, reply);
      ReportTokens(s.inFlight, s.port.outstanding, s.port.cancelAccepted, s.nextToken, t);
    }
  }

  lemma {:induction false} SweepFlightsDevice(s: Exporter, t: Token, now: nat, reply: Token -> bool)
    requires Device(s)
    ensures Device(SweepFlights(s, t, now, reply))
    decreases s.nextToken - t
  {
    if t < s.nextToken {
      SweepAtDevice(s, t, now, reply);
      SweepFlightsDevice(SweepAt(s, t, now, reply), t + 1, now, reply);
    }
  }

  lemma SweepDevice(s: Exporter, now: nat, reply: Token -> bool)
    requires Device(s)
    ensures Device(Sweep(s, now, reply))
  {
    var gone := (p: Pending) => Expired(p.deadline, now);
    RetireEachDevice(s, ENDPOINTS, gone, Status.XFER_TIMEOUT, false);
    SweepFlightsDevice(RetireEach(s, ENDPOINTS, gone, Status.XFER_TIMEOUT, false), 0, now, reply);
  }

  // ------------------------------------------------------------ teardown

  ghost predicate Named(os: seq<Outcome>, t: Token) { exists i :: 0 <= i < |os| && os[i].token == t }

  lemma NamedSplit(os: seq<Outcome>, t: Token)
    requires os != []
    ensures Named(os, t) <==> t == os[0].token || Named(os[1..], t)
  {
    if Named(os, t) && t != os[0].token {
      var i :| 0 <= i < |os| && os[i].token == t;
      assert os[1..][i - 1].token == t;
    }
    if Named(os[1..], t) {
      var i :| 0 <= i < |os[1..]| && os[1..][i].token == t;
      assert os[i + 1].token == t;
    }
  }

  /** After a poll the port no longer owes what it reported. */
  lemma {:induction false} CollectAllReports(s: Exporter, os: seq<Outcome>)
    ensures var r := CollectAll(s, os);
            && r.nextToken == s.nextToken
            && (forall t :: t in r.port.outstanding ==> t in s.port.outstanding && !Named(os, t))
            && (forall t :: t in r.port.verbs ==> t in s.port.verbs && !Named(os, t))
    decreases |os|
  {
    if os != [] {
      CollectAllReports(CollectOne(s, os[0]), os[1..]);
      forall t ensures Named(os, t) <==> t == os[0].token || Named(os[1..], t) { NamedSplit(os, t); }
    }
  }

  /** After abortAll the port owes exactly the tokens it did not name, and the tables follow. */
  lemma {:induction false} AbortAllDrains(s: Exporter, st: u16, os: seq<Outcome>)
    requires Tokens(s.inFlight, s.port.outstanding, s.port.cancelAccepted, s.nextToken)
    requires VerbsOk(s.verbs, s.port.verbs, s.port.outstanding, s.nextToken)
    ensures var r := AbortAll(s, st, os);
            && Tokens(r.inFlight, r.port.outstanding, r.port.cancelAccepted, r.nextToken)
            && r.port.accepted == s.port.accepted && r.attached == s.attached && r.state == s.state
            && (forall t :: t in r.port.outstanding ==> t in s.port.outstanding && !Named(os, t))
            && (forall t :: t in r.port.verbs ==> t in s.port.verbs && !Named(os, t))
    decreases |os|
  {
    if os != [] {
      var m := AbortOne(s, st, os[0]);
      ReportTokens(s.inFlight, s.port.outstanding, s.port.cancelAccepted, s.nextToken, os[0].token);
      if os[0].token !in s.inFlight { assert s.inFlight - {os[0].token} == s.inFlight; }
      if os[0].token in s.verbs { assert os[0].token !in s.inFlight; }
      else { assert s.port.verbs - {os[0].token} == s.port.verbs; }
      AbortAllDrains(m, st, os[1..]);
      forall t ensures Named(os, t) <==> t == os[0].token || Named(os[1..], t) { NamedSplit(os, t); }
    }
  }

  lemma FailAllRests(s: Exporter, st: u16, os: seq<Outcome>)
    requires Device(s) && (s.attached ==> LegalAbort(s.port, os))
    ensures var r := FailAll(s, st, os);
            && Ledger(r) && Resting(r) && r.intakes == s.intakes && r.port.accepted == s.port.accepted
            && r.attached == s.attached && r.state == s.state
  {
    FailAllKeeps(s, st, os);
    var s1 := if s.attached then AbortAll(s, st, os) else s;
    if s.attached {
      AbortAllKeeps(s, st, os);
      AbortAllDrains(s, st, os);
      forall t | t in s.port.outstanding || t in s.port.verbs ensures Named(os, t) {}
      assert s1.port.outstanding == map[] && s1.port.verbs == {};
    }
    FailFlightsKeeps(s1, 0, st);
    FailFlightsEmpties(s1, 0, st);
    RetireEachKeeps(FailFlights(s1, 0, st), ENDPOINTS, (p: Pending) => true, st, true);
  }

  lemma RestingDevice(s: Exporter, r: Exporter)
    requires Wired(s) && Resting(r) && Ledger(r) && r.intakes == s.intakes && r.port.accepted == s.port.accepted
    requires (r.state == Leased ==> r.attached) && (r.state == Idle || r.state == Closed ==> !r.attached)
    ensures Device(r)
  {}

  // ------------------------------------------------------------ every step, every run

  lemma DetachDevice(s: Exporter, e: Event)
    requires Device(s) && Legal(s, e) && e.EDetach?
    ensures Device(Step(s, e))
  {
    FailAllRests(s, Status.XFER_CANCELLED, e.drained);
    DetachKeeps(s, e);
    RestingDevice(s, Step(s, e));
  }

  lemma OrphanDevice(s: Exporter, e: Event)
    requires Device(s) && Legal(s, e) && e.EOrphan?
    ensures Device(Step(s, e))
  {
    FailAllRests(s, e.orphanStatus, e.lost);
    OrphanKeeps(s, e);
    RestingDevice(s, Step(s, e));
  }

  lemma CloseDevice(s: Exporter, e: Event)
    requires Device(s) && Legal(s, e) && e.EClose?
    ensures Device(Step(s, e))
  {
    if s.attached { FailAllRests(s, Status.DETACHING, e.closed); }
    CloseKeeps(s, e);
    RestingDevice(s, Step(s, e));
  }

  lemma ClearHaltDevice(s: Exporter, rid: u64, ep: byte, halt: u16)
    requires Device(s)
    ensures Device(ClearHalt(s, rid, ep, halt))
  {
    ClearHaltKeeps(s, EClearHalt(rid, ep, halt));
    ClearHaltWired(s, rid, ep, halt);
  }

  lemma ClearHaltWired(s: Exporter, rid: u64, ep: byte, halt: u16)
    requires Wired(s) && Lifecycle(s)
    ensures Wired(ClearHalt(s, rid, ep, halt)) && Lifecycle(ClearHalt(s, rid, ep, halt))
  {
    ClearHaltVerbs(s.verbs, s.port.verbs, s.port.outstanding, s.nextToken, Verb(rid, ep));
    var r := ClearHalt(s, rid, ep, halt);
    assert r.inFlight == s.inFlight && r.port.outstanding == s.port.outstanding && r.port.cancelAccepted == s.port.cancelAccepted;
    assert r.busy == s.busy && r.port.accepted == s.port.accepted && r.intakes == s.intakes && r.queues == s.queues;
  }

  lemma ClearHaltVerbs(verbs: map<Token, Verb>, owed: set<Token>, outstanding: map<Token, Held>, n: Token, v: Verb)
    requires VerbsOk(verbs, owed, outstanding, n) && n !in outstanding
    ensures VerbsOk(verbs[n := v], owed + {n}, outstanding, n + 1) && VerbsOk(verbs, owed, outstanding, n + 1)
  {}

  lemma AttachDevice(s: Exporter)
    requires Device(s) && s.state == Idle
    ensures Device(Step(s, EAttach))
  {
    AttachKeeps(s, EAttach);
  }

  lemma StepKeepsDevice(s: Exporter, e: Event)
    requires Device(s) && Legal(s, e)
    ensures Device(Step(s, e))
  {
    match e
    case EIntake(now, req) => EnqueueDevice(s, now, req);
    case ECancel(whole, ep, target, reply) => CancelDevice(s, whole, ep, target, reply);
    case EAdmit(reply) => if s.attached && s.state == Leased { AdmitEachDevice(s, ENDPOINTS, reply); }
    case ECollect(os) => CollectAllDevice(s, os);
    case ESweep(now, reply) => SweepDevice(s, now, reply);
    case EClearHalt(rid, ep, halt) => ClearHaltDevice(s, rid, ep, halt);
    case EAttach => AttachDevice(s);
    case EDetach(_) => DetachDevice(s, e);
    case EOrphan(_, _) => OrphanDevice(s, e);
    case EClose(_, _) => CloseDevice(s, e);
  }

  lemma {:induction false} RunKeepsDevice(s: Exporter, es: seq<Event>)
    requires Device(s) && LegalRun(s, es)
    ensures Device(Run(s, es))
    decreases |es|
  {
    if es != [] {
      StepKeepsDevice(s, es[0]);
      RunKeepsDevice(Step(s, es[0]), es[1..]);
    }
  }

  lemma InitialDevice()
    ensures Device(INITIAL)
  {
    InitialLedger();
  }
}
