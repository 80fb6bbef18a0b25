/**
 * The exporter session as the source writes it: fields changed in place, queues drained and
 * rebuilt by loops. Every method is proved to take exactly the step of module Scheduler.
 *
 * The port's replies are parameters: a function of the token for calls the session makes,
 * a sequence of outcomes for what the port reports.
 */
module Sessions {
  import opened Wire
  import Status
  import opened Scheduler
  import opened SchedulerLedger
  import opened SchedulerDevice
  import opened SchedulerSafety

  class ExporterSession {
    var state: State
    var attached: bool
    var queues: map<byte, seq<Pending>>
    var inFlight: map<Token, InFlight>
    var busy: map<byte, Token>
    var verbs: map<Token, Verb>
    var nextToken: Token

    // What came in and what went out, in order.
    var intakes: seq<Intake>
    var answers: seq<Answer>
    var acks: seq<Ack>
    ghost var port: Port

    ghost function Snapshot(): Exporter
      reads this
    {
      Exporter(state, attached, queues, inFlight, busy, verbs, nextToken, intakes, answers, acks, port)
    }

    constructor ()
      ensures Snapshot() == INITIAL
    {
      state, attached := Idle, false;
      queues, inFlight, busy, verbs := map[], map[], map[], map[];
      nextToken := 1;
      intakes, answers, acks := [], [], [];
      port := FRESH_PORT;
    }

    method EmitComplete(f: InFlight, st: u16, actualLen: u32, cancelled: bool, zlpSent: bool, payload: Bytes)
      modifies this`answers
      ensures answers == old(answers) + [MakeAnswer(f, st, actualLen, cancelled, zlpSent, payload)]
    {
      answers := answers + [MakeAnswer(f, st, actualLen, cancelled, zlpSent, payload)];
    }

    method EnqueueTransfer(now: nat, req: Intake)
      modifies this
      ensures Snapshot() == Enqueue(old(Snapshot()), now, req)
    {
      var queued, bytes := 0, 0;
      for i := 0 to |ENDPOINTS|
        invariant queued + QueuedOn(queues, ENDPOINTS[i..]) == QueuedOn(queues, ENDPOINTS)
        invariant bytes + BytesOn(queues, ENDPOINTS[i..]) == BytesOn(queues, ENDPOINTS)
      {
        var q := Q(queues, ENDPOINTS[i]);
        queued := queued + |q|;
        var k := 0;
        ghost var before := bytes;
        while k < |q|
          invariant k <= |q| && bytes == before + QueueBytes(q[..k])
        {
          bytes := bytes + |q[k].req.dataOut|;
          assert q[..k + 1][..k] == q[..k];
          k := k + 1;
        }
        assert q[..|q|] == q;
        assert ENDPOINTS[i..][1..] == ENDPOINTS[i + 1..];
      }
      var serial := |intakes|;
      intakes := intakes + [req];
      if queued + |inFlight| >= CREDIT_URBS || bytes + |req.dataOut| > CREDIT_BYTES {
        EmitComplete(InFlight(serial, req, Never, false), Status.NO_RESOURCES, 0, false, false, []);
        return;
      }
      var p := Pending(serial, req, AfterMs(now, DeadlineMsFor(req.sb.xferType)));
      queues := queues[req.sb.epAddr := Q(queues, req.sb.epAddr) + [p]];
    }

    method Admit(reply: Token -> u16)
      modifies this
      ensures Snapshot() == Scheduler.Admit(old(Snapshot()), reply)
    {
      if !attached || state != Leased { return; }
      for i := 0 to |ENDPOINTS|
        invariant AdmitEach(Snapshot(), ENDPOINTS[i..], reply) == AdmitEach(old(Snapshot()), ENDPOINTS, reply)
      {
        ghost var here := Snapshot();
        AdmitEndpoint(ENDPOINTS[i], reply);
        assert ENDPOINTS[i..][1..] == ENDPOINTS[i + 1..];
      }
    }

    method AdmitEndpoint(ep: byte, reply: Token -> u16)
      modifies this
      ensures Snapshot() == AdmitOne(old(Snapshot()), ep, reply)
    {
      var q := Q(queues, ep);
      if q == [] { return; }
      var may := IsAdmissible(ep);
      if !may { return; }
      var p := q[0];
      queues := queues[ep := q[1..]];
      var token := nextToken;
      nextToken := nextToken + 1;
      var s := reply(token);
      if s == Status.BUSY {
        queues := queues[ep := [p] + q[1..]];
        assert [p] + q[1..] == q && queues == old(queues);
        return;
      }
      if s != Status.OK {
        EmitComplete(FlightOf(p), s, 0, false, false, []);
        return;
      }
      ghost var held := Held(p.serial, TransferOf(p.req));
      port := port.(outstanding := port.outstanding[token := held], accepted := port.accepted + [held]);
      inFlight := inFlight[token := FlightOf(p)];
      busy := busy[ep := token];
    }

    /** mayAdmit */
    method IsAdmissible(ep: byte) returns (may: bool)
      ensures may == MayAdmit(Snapshot(), ep)
    {
      if IsEp0(ep) { return inFlight == map[]; }
      var left := inFlight.Keys;
      while left != {}
        invariant left <= inFlight.Keys
        invariant forall t :: t in inFlight && t !in left ==> !IsEp0(inFlight[t].req.sb.epAddr)
        decreases |left|
      {
        var t :| t in left;
        if IsEp0(inFlight[t].req.sb.epAddr) { return false; }
        left := left - {t};
      }
      return ep !in busy;
    }

    method Collect(os: seq<Outcome>)
      requires OneEach(busy)
      modifies this
      ensures Snapshot() == Scheduler.Collect(old(Snapshot()), os) && OneEach(busy)
    {
      if !attached { return; }
      for i := 0 to |os|
        invariant OneEach(busy)
        invariant CollectAll(Snapshot(), os[i..]) == CollectAll(old(Snapshot()), os)
      {
        CollectOutcome(os[i]);
        assert os[i..][1..] == os[i + 1..];
      }
    }

    /** One outcome: a verb is acknowledged; a transfer frees its endpoint first and is then answered. */
    method CollectOutcome(o: Outcome)
      requires OneEach(busy)
      modifies this
      ensures Snapshot() == CollectOne(old(Snapshot()), o) && OneEach(busy)
    {
      port := Reported(port, o.token);
      if o.token in verbs {
        var v := verbs[o.token];
        verbs := verbs - {o.token};
        acks := acks + [Ack(o.token, v.requestId, o.status)];
        return;
      }
      FreeEndpointOf(o.token);
      if o.token !in inFlight { return; }
      var f := inFlight[o.token];
      inFlight := inFlight - {o.token};
      EmitComplete(f, o.status, o.actualLen, o.cancelled, o.zlpSent, o.dataIn);
    }

    /** Erase the first reservation that names `token`; there is never a second. */
    method FreeEndpointOf(token: Token)
      requires OneEach(busy)
      modifies this`busy
      ensures busy == FreeEndpoint(old(busy), token) && OneEach(busy)
    {
      for i := 0 to |ENDPOINTS|
        invariant busy == old(busy)
        invariant forall k :: 0 <= k < i && ENDPOINTS[k] in busy ==> busy[ENDPOINTS[k]] != token
      {
        var e := ENDPOINTS[i];
        if e in busy && busy[e] == token {
          busy := busy - {e};
          return;
        }
      }
      AllEndpointsListed();
      forall e | e in busy ensures busy[e] != token { assert e in ENDPOINTS; }
    }

    /** Drain `ep`'s queue, answer every transfer `gone` picks and keep the rest in order. */
    method RetireQueued(ep: byte, gone: Pending -> bool, st: u16, cancelled: bool)
      modifies this`queues, this`answers
      ensures Snapshot() == RetireFrom(old(Snapshot()), ep, 0, gone, st, cancelled)
    {
      if ep !in queues { return; }
      var q, keep := queues[ep], [];
      ghost var was := Snapshot();
      assert keep + q == q && queues[ep := q] == queues;
      while q != []
        invariant queues == was.queues
        invariant RetireFrom(Snapshot().(queues := queues[ep := keep + q]), ep, |keep|, gone, st, cancelled)
               == RetireFrom(was, ep, 0, gone, st, cancelled)
        invariant Snapshot() == was.(answers := answers)
        decreases |q|
      {
        var p := q[0];
        assert (keep + q)[|keep|] == p;
        assert keep + q == keep + [p] + q[1..];
        if gone(p) {
          assert (keep + q)[..|keep|] + (keep + q)[|keep| + 1..] == keep + q[1..];
          assert queues[ep := keep + q][ep := keep + q[1..]] == queues[ep := keep + q[1..]];
          EmitComplete(FlightOf(p), st, 0, cancelled, false, []);
        } else {
          keep := keep + [p];
        }
        q := q[1..];
      }
      assert keep + q == keep;
      queues := queues[ep := keep];
    }

    method HandleCancel(wholeEndpoint: bool, ep: byte, target: u64, reply: Token -> bool)
      modifies this
      ensures Snapshot() == Scheduler.Cancel(old(Snapshot()), wholeEndpoint, ep, target, reply)
    {
      if state != Leased { return; }
      RetireQueued(ep, (p: Pending) => Matches(wholeEndpoint, ep, target, p.req.sb.epAddr, p.req.requestId),
        Status.XFER_CANCELLED, true);
      if !attached { return; }
      ghost var hit := (f: InFlight) => Matches(wholeEndpoint, ep, target, f.req.sb.epAddr, f.req.requestId);
      ghost var was := Snapshot();
      var t := 0;
      while t < nextToken
        invariant nextToken == was.nextToken
        invariant CancelFlights(Snapshot(), t, hit, reply) == CancelFlights(was, 0, hit, reply)
      {
        ghost var here := Snapshot();
        if t in inFlight && Matches(wholeEndpoint, ep, target, inFlight[t].req.sb.epAddr, inFlight[t].req.requestId) {
          if reply(t) { inFlight := inFlight[t := inFlight[t].(cancelRequested := true)]; }
          port := CancelAnswered(port, t, reply(t));
        }
        assert Snapshot() == CancelAt(here, t, hit, reply);
        t := t + 1;
      }
    }

    method SweepDeadlines(now: nat, reply: Token -> bool)
      modifies this
      ensures Snapshot() == Sweep(old(Snapshot()), now, reply)
    {
      RetireEverywhere((p: Pending) => Expired(p.deadline, now), Status.XFER_TIMEOUT, false);
      SweepInFlight(now, reply);
    }

    /** The second half: ask the port to stop what is overdue, or answer for it now. */
    method SweepInFlight(now: nat, reply: Token -> bool)
      modifies this
      ensures Snapshot() == SweepFlights(old(Snapshot()), 0, now, reply)
    {
      ghost var was := Snapshot();
      var t := 0;
      while t < nextToken
        invariant nextToken == was.nextToken
        invariant SweepFlights(Snapshot(), t, now, reply) == SweepFlights(was, 0, now, reply)
      {
        SweepToken(t, now, reply);
        t := t + 1;
      }
    }

    method SweepToken(t: Token, now: nat, reply: Token -> bool)
      modifies this
      ensures Snapshot() == SweepAt(old(Snapshot()), t, now, reply)
    {
      if t in inFlight && Expired(inFlight[t].deadline, now) && !inFlight[t].cancelRequested {
        var f := inFlight[t];
        inFlight := inFlight[t := f.(cancelRequested := true)];
        if attached && reply(t) {
          port := CancelAnswered(port, t, true);
        } else {
          inFlight := inFlight - {t};
          EmitComplete(f, Status.XFER_TIMEOUT, 0, false, false, []);
          assert inFlight == old(inFlight) - {t};
        }
      }
    }

    method RetireEverywhere(gone: Pending -> bool, st: u16, cancelled: bool)
      modifies this`queues, this`answers
      ensures Snapshot() == RetireEach(old(Snapshot()), ENDPOINTS, gone, st, cancelled)
    {
      for i := 0 to |ENDPOINTS|
        invariant RetireEach(Snapshot(), ENDPOINTS[i..], gone, st, cancelled)
               == RetireEach(old(Snapshot()), ENDPOINTS, gone, st, cancelled)
      {
        RetireQueued(ENDPOINTS[i], gone, st, cancelled);
        assert ENDPOINTS[i..][1..] == ENDPOINTS[i + 1..];
      }
    }

    method HandleClearHalt(requestId: u64, ep: byte, reply: u16)
      modifies this
      ensures Snapshot() == ClearHalt(old(Snapshot()), requestId, ep, reply)
    {
      if state != Leased || !attached { return; }
      var token := nextToken;
      nextToken := nextToken + 1;
      if reply != Status.OK {
        acks := acks + [Ack(token, requestId, reply)];
        return;
      }
      verbs := verbs[token := Verb(requestId, ep)];
      port := port.(verbs := port.verbs + {token});
    }

    method FailAllTransfers(st: u16, os: seq<Outcome>)
      modifies this
      ensures Snapshot() == FailAll(old(Snapshot()), st, os)
    {
      FailEachTransfer(st, os);
      inFlight, busy, queues, verbs := map[], map[], map[], map[];
    }

    method FailEachTransfer(st: u16, os: seq<Outcome>)
      modifies this
      ensures Snapshot() == FailEach(old(Snapshot()), st, os)
    {
      if attached { AbortPort(st, os); }
      FailInFlight(st);
      RetireEverywhere((p: Pending) => true, st, true);
    }

    method AbortPort(st: u16, os: seq<Outcome>)
      modifies this
      ensures Snapshot() == AbortAll(old(Snapshot()), st, os)
    {
      for i := 0 to |os|
        invariant AbortAll(Snapshot(), st, os[i..]) == AbortAll(old(Snapshot()), st, os)
      {
        AbortOutcome(st, os[i]);
        assert os[i..][1..] == os[i + 1..];
      }
    }

    method FailInFlight(st: u16)
      modifies this
      ensures Snapshot() == FailFlights(old(Snapshot()), 0, st)
    {
      ghost var was := Snapshot();
      var t := 0;
      while t < nextToken
        invariant nextToken == was.nextToken
        invariant FailFlights(Snapshot(), t, st) == FailFlights(was, 0, st)
      {
        ghost var here := Snapshot();
        if t in inFlight {
          var f := inFlight[t];
          inFlight := inFlight - {t};
          EmitComplete(f, st, 0, true, false, []);
        }
        assert Snapshot() == FailAt(here, t, st);
        t := t + 1;
      }
    }

    method AbortOutcome(st: u16, o: Outcome)
      modifies this
      ensures Snapshot() == AbortOne(old(Snapshot()), st, o)
    {
      port := Reported(port, o.token);
      if o.token in verbs {
        acks := acks + [Ack(o.token, verbs[o.token].requestId, o.status)];
        verbs := verbs - {o.token};
        return;
      }
      if o.token !in inFlight { return; }
      var f := inFlight[o.token];
      inFlight := inFlight - {o.token};
      EmitComplete(f, if o.status == Status.OK then st else o.status, o.actualLen, true, o.zlpSent, o.dataIn);
    }

    method Enter(to: State, holding: bool)
      modifies this`state, this`attached
      ensures Snapshot() == Scheduler.Enter(old(Snapshot()), to, holding)
    {
      state, attached := to, holding;
    }

    /** handle(): one message from the peer. */
    method Handle(e: Event)
      requires IsMessage(e)
      modifies this
      ensures Snapshot() == Step(old(Snapshot()), e)
    {
      match e
      case EIntake(now, req) => EnqueueTransfer(now, req);
      case ECancel(whole, ep, target, reply) => HandleCancel(whole, ep, target, reply);
      case EClearHalt(rid, ep, reply) => HandleClearHalt(rid, ep, reply);
      case EAttach =>
        port := FRESH_PORT.(accepted := port.accepted);
        Enter(Leased, true);
      case EDetach(os) =>
        FailAllTransfers(Status.XFER_CANCELLED, os);
        Enter(Idle, false);
      case EClose(_, os) =>
        if attached { FailAllTransfers(Status.DETACHING, os); }
        Enter(Closed, false);
    }

    /** The session loses its peer: fail everything it holds and keep the device. */
    method GiveUp(st: u16, lost: seq<Outcome>)
      modifies this
      ensures Snapshot() == Step(old(Snapshot()), EOrphan(st, lost))
    {
      var next, holding := if state == Leased then Orphaned else state, attached;
      FailAllTransfers(st, lost);
      Enter(next, holding);
    }

    /** pump(): answer the peer, serve the device, sweep the deadlines, and give a silent peer up. */
    method Pump(i: PumpInput)
      requires Device(Snapshot())
      requires forall k :: 0 <= k < |i.messages| ==> IsMessage(i.messages[k])
      requires LegalRun(Snapshot(), PumpEvents(Snapshot(), i))
      modifies this
      ensures Snapshot() == Run(old(Snapshot()), PumpEvents(old(Snapshot()), i))
    {
      ghost var was := Snapshot();
      PumpPlan(was, i);
      HandleAll(i.messages);
      if i.fatal { return; }
      if i.transportGone {
        GiveUp(Status.TRANSPORT_LOST, i.lost);
        return;
      }
      ServeDevice(i);
      var owed := CountQueued();
      if inFlight == map[] && owed == 0 && state == Leased && i.silent {
        GiveUp(Status.XFER_TIMEOUT, i.lost);
      }
    }

    method HandleAll(es: seq<Event>)
      requires forall k :: 0 <= k < |es| ==> IsMessage(es[k])
      modifies this
      ensures Snapshot() == Run(old(Snapshot()), es)
    {
      for k := 0 to |es|
        invariant Run(Snapshot(), es[k..]) == Run(old(Snapshot()), es)
      {
        Handle(es[k]);
        assert es[k..][1..] == es[k + 1..];
      }
    }

    method ServeDevice(i: PumpInput)
      requires Device(Snapshot())
      modifies this
      ensures Snapshot() == Served(old(Snapshot()), i)
    {
      ReservedOnce(Snapshot());
      ghost var s0 := Snapshot();
      Collect(i.first);
      CollectAllDevice(s0, i.first);
      ghost var s1 := Snapshot();
      Admit(i.maySubmit);
      if s1.attached && s1.state == Leased { AdmitEachDevice(s1, ENDPOINTS, i.maySubmit); }
      ReservedOnce(Snapshot());
      Collect(i.second);
      SweepDeadlines(i.now, i.mayStop);
    }

    /** queuedTransfers() */
    method CountQueued() returns (n: nat)
      ensures n == QueuedOn(queues, ENDPOINTS)
    {
      n := 0;
      for i := 0 to |ENDPOINTS|
        invariant n + QueuedOn(queues, ENDPOINTS[i..]) == QueuedOn(queues, ENDPOINTS)
      {
        n := n + |Q(queues, ENDPOINTS[i])|;
        assert ENDPOINTS[i..][1..] == ENDPOINTS[i + 1..];
      }
    }
  }

  lemma {:induction false} RunAfter(s: Exporter, es: seq<Event>, e: Event)
    ensures Run(s, es + [e]) == Step(Run(s, es), e)
    decreases |es|
  {
    if es == [] {
      assert [e][1..] == [] && [] + [e] == [e];
    } else {
      assert (es + [e])[1..] == es[1..] + [e];
      RunAfter(Step(s, es[0]), es[1..], e);
    }
  }

  lemma {:induction false} LegalPrefix(s: Exporter, es: seq<Event>, all: seq<Event>)
    requires es <= all && LegalRun(s, all)
    ensures LegalRun(s, es)
    decreases |es|
  {
    if es != [] { LegalPrefix(Step(s, es[0]), es[1..], all[1..]); }
  }

  /** Two steps after a run. */
  lemma RunAfterTwo(s: Exporter, es: seq<Event>, e: Event, f: Event)
    ensures Run(s, es + [e, f]) == Step(Step(Run(s, es), e), f)
  {
    assert es + [e, f] == es + [e] + [f];
    RunAfter(s, es, e);
    RunAfter(s, es + [e], f);
  }

  lemma RunAfterFour(s: Exporter, es: seq<Event>, e: Event, f: Event, g: Event, h: Event)
    ensures Run(s, es + [e, f, g, h]) == Step(Step(Step(Step(Run(s, es), e), f), g), h)
  {
    assert es + [e, f, g, h] == es + [e, f] + [g, h];
    RunAfterTwo(s, es, e, f);
    RunAfterTwo(s, es + [e, f], g, h);
  }

  lemma RunServe(s: Exporter, i: PumpInput)
    ensures Run(s, i.messages + [ECollect(i.first), EAdmit(i.maySubmit), ECollect(i.second), ESweep(i.now, i.mayStop)])
         == Served(Run(s, i.messages), i)
  {
    RunAfterFour(s, i.messages, ECollect(i.first), EAdmit(i.maySubmit), ECollect(i.second), ESweep(i.now, i.mayStop));
    ServedIsFourSteps(Run(s, i.messages), i);
  }

  lemma ServedIsFourSteps(s: Exporter, i: PumpInput)
    ensures Step(Step(Step(Step(s, ECollect(i.first)), EAdmit(i.maySubmit)), ECollect(i.second)), ESweep(i.now, i.mayStop)) == Served(s, i)
  {
    CollectIsStep(s, i.first);
    var c := Collect(s, i.first);
    AdmitIsStep(c, i.maySubmit);
    var a := Scheduler.Admit(c, i.maySubmit);
    CollectIsStep(a, i.second);
  }

  lemma CollectIsStep(s: Exporter, os: seq<Outcome>)
    ensures Step(s, ECollect(os)) == Collect(s, os)
  {}

  lemma AdmitIsStep(s: Exporter, reply: Token -> u16)
    ensures Step(s, EAdmit(reply)) == Scheduler.Admit(s, reply)
  {}

  /** What a pump's plan comes to, branch by branch; the device invariant holds after the messages. */
  lemma PumpPlan(s: Exporter, i: PumpInput)
    requires Device(s) && LegalRun(s, PumpEvents(s, i))
    ensures Device(Run(s, i.messages))
    ensures i.fatal ==> PumpEvents(s, i) == i.messages
    ensures !i.fatal && i.transportGone ==>
      Run(s, PumpEvents(s, i)) == Step(Run(s, i.messages), EOrphan(Status.TRANSPORT_LOST, i.lost))
    ensures !i.fatal && !i.transportGone ==>
      var r := Served(Run(s, i.messages), i);
      Run(s, PumpEvents(s, i)) ==
        if !Owes(r) && r.state == Leased && i.silent then Step(r, EOrphan(Status.XFER_TIMEOUT, i.lost)) else r
  {
    LegalPrefix(s, i.messages, PumpEvents(s, i));
    RunKeepsDevice(s, i.messages);
    RunServe(s, i);
    RunAfter(s, i.messages, EOrphan(Status.TRANSPORT_LOST, i.lost));
    RunAfter(s, i.messages + [ECollect(i.first), EAdmit(i.maySubmit), ECollect(i.second), ESweep(i.now, i.mayStop)],
      EOrphan(Status.XFER_TIMEOUT, i.lost));
  }

  /** No two endpoints are reserved by one token. */
  predicate OneEach(busy: map<byte, Token>) {
    forall e, f :: e in busy && f in busy && busy[e] == busy[f] ==> e == f
  }

  lemma ReservedOnce(s: Exporter)
    requires Reserved(s.port.outstanding, s.busy)
    ensures OneEach(s.busy)
  {}
}
