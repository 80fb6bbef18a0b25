/** The credit ATTACH_OK advertises is never exceeded: 64 transfers, 4 MiB of queued OUT data. */
module SchedulerCredit {
  import opened Wire
  import Status
  import opened Scheduler
  import opened SchedulerLedger

  ghost function Load(s: Exporter): nat { QueuedOn(s.queues, ENDPOINTS) + |s.inFlight| }
  ghost function QueuedBytes(s: Exporter): nat { BytesOn(s.queues, ENDPOINTS) }

  ghost predicate Credit(s: Exporter) { Load(s) <= CREDIT_URBS && QueuedBytes(s) <= CREDIT_BYTES }

  /** A step that takes nothing in never raises the load. */
  ghost predicate Lighter(s: Exporter, r: Exporter) { Load(r) <= Load(s) && QueuedBytes(r) <= QueuedBytes(s) }

  ghost predicate Distinct(eps: seq<byte>) { forall i, j :: 0 <= i < j < |eps| ==> eps[i] != eps[j] }

  lemma {:induction false} CountAfterUpdate(queues: map<byte, seq<Pending>>, ep: byte, q: seq<Pending>, eps: seq<byte>)
    requires Distinct(eps)
    ensures QueuedOn(queues[ep := q], eps) == QueuedOn(queues, eps) + if ep in eps then |q| - |Q(queues, ep)| else 0
    ensures BytesOn(queues[ep := q], eps)
         == BytesOn(queues, eps) + if ep in eps then QueueBytes(q) - QueueBytes(Q(queues, ep)) else 0
  {
    if eps != [] {
      CountAfterUpdate(queues, ep, q, eps[1..]);
      if ep == eps[0] { assert ep !in eps[1..]; }
      else { assert Q(queues[ep := q], eps[0]) == Q(queues, eps[0]) && (ep in eps <==> ep in eps[1..]); }
    }
  }

  lemma CountAll(queues: map<byte, seq<Pending>>, ep: byte, q: seq<Pending>)
    ensures QueuedOn(queues[ep := q], ENDPOINTS) == QueuedOn(queues, ENDPOINTS) + |q| - |Q(queues, ep)|
    ensures BytesOn(queues[ep := q], ENDPOINTS)
         == BytesOn(queues, ENDPOINTS) + QueueBytes(q) - QueueBytes(Q(queues, ep))
  {
    AllEndpointsListed();
    CountAfterUpdate(queues, ep, q, ENDPOINTS);
  }

  lemma {:induction false} QueueBytesAppend(a: seq<Pending>, b: seq<Pending>)
    ensures QueueBytes(a + b) == QueueBytes(a) + QueueBytes(b)
    decreases |b|
  {
    if b == [] {
      assert a + b == a;
    } else {
      assert (a + b)[..|a + b| - 1] == a + b[..|b| - 1];
      QueueBytesAppend(a, b[..|b| - 1]);
    }
  }

  lemma QueueBytesDrop(a: seq<Pending>, p: Pending, b: seq<Pending>)
    ensures QueueBytes(a + b) <= QueueBytes(a + [p] + b)
  {
    QueueBytesAppend(a, b);
    QueueBytesAppend(a + [p], b);
    QueueBytesAppend(a, [p]);
  }

  lemma RemoveLightens(s: Exporter, ep: byte, i: nat, r: Exporter)
    requires i < |Q(s.queues, ep)|
    requires r.queues == s.queues[ep := Q(s.queues, ep)[..i] + Q(s.queues, ep)[i + 1..]]
    ensures QueuedOn(r.queues, ENDPOINTS) == QueuedOn(s.queues, ENDPOINTS) - 1 && QueuedBytes(r) <= QueuedBytes(s)
  {
    var q := Q(s.queues, ep);
    CountAll(s.queues, ep, q[..i] + q[i + 1..]);
    QueueBytesDrop(q[..i], q[i], q[i + 1..]);
    assert q == q[..i] + [q[i]] + q[i + 1..];
  }

  lemma DropFlight(fs: map<Token, InFlight>, t: Token)
    ensures |fs - {t}| <= |fs|
  {
    assert (fs - {t}).Keys == fs.Keys - {t};
    assert |(fs - {t}).Keys| == |fs - {t}| && |fs.Keys| == |fs|;
  }

  lemma AppendCounts(queues: map<byte, seq<Pending>>, ep: byte, p: Pending)
    ensures var queues' := queues[ep := Q(queues, ep) + [p]];
            QueuedOn(queues', ENDPOINTS) == QueuedOn(queues, ENDPOINTS) + 1
            && BytesOn(queues', ENDPOINTS) == BytesOn(queues, ENDPOINTS) + |p.req.dataOut|
  {
    CountAll(queues, ep, Q(queues, ep) + [p]);
    QueueBytesAppend(Q(queues, ep), [p]);
    assert QueueBytes([p]) == |p.req.dataOut| by { assert [p][..0] == []; }
  }

  lemma EnqueueCredit(s: Exporter, now: nat, req: Intake)
    requires Credit(s)
    ensures Credit(Enqueue(s, now, req))
  {
    AppendCounts(s.queues, req.sb.epAddr, Pending(|s.intakes|, req, AfterMs(now, DeadlineMsFor(req.sb.xferType))));
  }

  lemma LaunchSize(fs: map<Token, InFlight>, t: Token, f: InFlight)
    ensures |fs[t := f]| <= |fs| + 1
  {
    assert fs[t := f].Keys == fs.Keys + {t};
    assert |fs[t := f].Keys| == |fs[t := f]| && |fs.Keys| == |fs|;
  }

  lemma PopLightens(s: Exporter, ep: byte, r: Exporter)
    requires Q(s.queues, ep) != [] && r.queues == s.queues[ep := Q(s.queues, ep)[1..]]
    requires |r.inFlight| <= |s.inFlight| + 1
    ensures Lighter(s, r)
  {
    assert Q(s.queues, ep)[..0] + Q(s.queues, ep)[1..] == Q(s.queues, ep)[1..];
    RemoveLightens(s, ep, 0, r);
  }

  lemma AdmitOneLighter(s: Exporter, ep: byte, reply: Token -> u16)
    ensures Lighter(s, AdmitOne(s, ep, reply))
  {
    if Q(s.queues, ep) == [] || !MayAdmit(s, ep) || reply(s.nextToken) == Status.BUSY {
    } else {
      LaunchSize(s.inFlight, s.nextToken, FlightOf(Q(s.queues, ep)[0]));
      PopLightens(s, ep, AdmitOne(s, ep, reply));
    }
  }

  lemma {:induction false} AdmitLighter(s: Exporter, eps: seq<byte>, reply: Token -> u16)
    ensures Lighter(s, AdmitEach(s, eps, reply))
    decreases |eps|
  {
    if eps != [] {
      AdmitOneLighter(s, eps[0], reply);
      AdmitLighter(AdmitOne(s, eps[0], reply), eps[1..], reply);
    }
  }

  lemma {:induction false} CollectLighter(s: Exporter, os: seq<Outcome>)
    ensures Lighter(s, CollectAll(s, os))
    decreases |os|
  {
    if os != [] {
      DropFlight(s.inFlight, os[0].token);
      CollectLighter(CollectOne(s, os[0]), os[1..]);
    }
  }

  lemma {:induction false} RetireLighter(s: Exporter, ep: byte, i: nat, gone: Pending -> bool, st: u16, cancelled: bool)
    ensures Lighter(s, RetireFrom(s, ep, i, gone, st, cancelled))
    decreases |Q(s.queues, ep)| - i
  {
    var q := Q(s.queues, ep);
    if i >= |q| {
    } else if gone(q[i]) {
      var m := RetireAt(s, ep, i, st, cancelled);
      RemoveLightens(s, ep, i, m);
      RetireLighter(m, ep, i, gone, st, cancelled);
    } else {
      RetireLighter(s, ep, i + 1, gone, st, cancelled);
    }
  }

  lemma {:induction false} RetireEachLighter(s: Exporter, eps: seq<byte>, gone: Pending -> bool, st: u16, cancelled: bool)
    ensures Lighter(s, RetireEach(s, eps, gone, st, cancelled))
    decreases |eps|
  {
    if eps != [] {
      RetireLighter(s, eps[0], 0, gone, st, cancelled);
      RetireEachLighter(RetireFrom(s, eps[0], 0, gone, st, cancelled), eps[1..], gone, st, cancelled);
    }
  }

  lemma FlagKeepsSize(fs: map<Token, InFlight>, t: Token, f: InFlight)
    requires t in fs
    ensures |fs[t := f]| == |fs|
  {
    assert fs[t := f].Keys == fs.Keys;
    assert |fs[t := f].Keys| == |fs[t := f]| && |fs.Keys| == |fs|;
  }

  lemma {:induction false} CancelFlightsLighter(s: Exporter, t: Token, hit: InFlight -> bool, reply: Token -> bool)
    ensures Lighter(s, CancelFlights(s, t, hit, reply))
    decreases s.nextToken - t
  {
    if t < s.nextToken {
      if t in s.inFlight { FlagKeepsSize(s.inFlight, t, s.inFlight[t].(cancelRequested := true)); }
      CancelFlightsLighter(CancelAt(s, t, hit, reply), t + 1, hit, reply);
    }
  }

  lemma {:induction false} SweepFlightsLighter(s: Exporter, t: Token, now: nat, reply: Token -> bool)
    ensures Lighter(s, SweepFlights(s, t, now, reply))
    decreases s.nextToken - t
  {
    if t < s.nextToken {
      if t in s.inFlight {
        FlagKeepsSize(s.inFlight, t, s.inFlight[t].(cancelRequested := true));
        DropFlight(s.inFlight, t);
      }
      SweepFlightsLighter(SweepAt(s, t, now, reply), t + 1, now, reply);
    }
  }

  lemma {:induction false} NothingQueued(eps: seq<byte>)
    ensures QueuedOn(map[], eps) == 0 && BytesOn(map[], eps) == 0
  {
    if eps != [] { NothingQueued(eps[1..]); }
  }

  lemma CancelCredit(s: Exporter, whole: bool, ep: byte, target: u64, reply: Token -> bool)
    requires Credit(s)
    ensures Credit(Cancel(s, whole, ep, target, reply))
  {
    var gone := (p: Pending) => Matches(whole, ep, target, p.req.sb.epAddr, p.req.requestId);
    var flying := (f: InFlight) => Matches(whole, ep, target, f.req.sb.epAddr, f.req.requestId);
    RetireLighter(s, ep, 0, gone, Status.XFER_CANCELLED, true);
    CancelFlightsLighter(RetireFrom(s, ep, 0, gone, Status.XFER_CANCELLED, true), 0, flying, reply);
  }

  lemma SweepCredit(s: Exporter, now: nat, reply: Token -> bool)
    requires Credit(s)
    ensures Credit(Sweep(s, now, reply))
  {
    var gone := (p: Pending) => Expired(p.deadline, now);
    RetireEachLighter(s, ENDPOINTS, gone, Status.XFER_TIMEOUT, false);
    SweepFlightsLighter(RetireEach(s, ENDPOINTS, gone, Status.XFER_TIMEOUT, false), 0, now, reply);
  }

  lemma RestCredit(r: Exporter)
    requires r.inFlight == map[] && r.queues == map[]
    ensures Credit(r)
  {
    NothingQueued(ENDPOINTS);
  }

  lemma DetachCredit(s: Exporter, e: Event)
    requires e.EDetach?
    ensures Credit(Step(s, e))
  {
    RestCredit(Step(s, e));
  }

  lemma OrphanCredit(s: Exporter, e: Event)
    requires e.EOrphan?
    ensures Credit(Step(s, e))
  {
    RestCredit(Step(s, e));
  }

  lemma CloseCredit(s: Exporter, e: Event)
    requires e.EClose? && Credit(s)
    ensures Credit(Step(s, e))
  {
    if s.attached { RestCredit(Step(s, e)); }
  }

  lemma IntakeCredit(s: Exporter, e: Event)
    requires Credit(s) && e.EIntake?
    ensures Credit(Step(s, e))
  {
    EnqueueCredit(s, e.now, e.req);
  }

  lemma AdmitCredit(s: Exporter, e: Event)
    requires Credit(s) && e.EAdmit?
    ensures Credit(Step(s, e))
  {
    AdmitLighter(s, ENDPOINTS, e.maySubmit);
  }

  lemma CollectCredit(s: Exporter, e: Event)
    requires Credit(s) && e.ECollect?
    ensures Credit(Step(s, e))
  {
    CollectLighter(s, e.polled);
  }

  lemma StepCredit(s: Exporter, e: Event)
    requires Credit(s)
    ensures Credit(Step(s, e))
  {
    match e
    case ECancel(whole, ep, target, reply) => CancelCredit(s, whole, ep, target, reply);
    case ESweep(now, reply) => SweepCredit(s, now, reply);
    case EClearHalt(_, _, _) =>
    case EAttach =>
    case EDetach(_) => DetachCredit(s, e);
    case EOrphan(_, _) => OrphanCredit(s, e);
    case EClose(_, _) => CloseCredit(s, e);
    case EIntake(_, _) => IntakeCredit(s, e);
    case EAdmit(_) => AdmitCredit(s, e);
    case ECollect(_) => CollectCredit(s, e);
  }

  lemma {:induction false} RunCredit(s: Exporter, es: seq<Event>)
    requires Credit(s)
    ensures Credit(Run(s, es))
    decreases |es|
  {
    if es != [] {
      StepCredit(s, es[0]);
      RunCredit(Step(s, es[0]), es[1..]);
    }
  }

  lemma InitialCredit()
    ensures Credit(INITIAL)
  {
    NothingQueued(ENDPOINTS);
  }

  /** queued + in flight <= 64 and queued OUT bytes <= 4 MiB, in every state of every run, whatever the port does. */
  lemma CreditNeverExceeded(es: seq<Event>)
    ensures var s := Run(INITIAL, es);
            && QueuedOn(s.queues, ENDPOINTS) + |s.inFlight| <= 64
            && BytesOn(s.queues, ENDPOINTS) <= 4 * 1024 * 1024
  {
    InitialCredit();
    RunCredit(INITIAL, es);
  }
}
