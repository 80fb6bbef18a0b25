/**
 * airusb/session/InlineAsyncPort.cpp: a synchronous device behind the asynchronous port.
 * `submit` runs the whole transfer and parks its outcome until the next `poll`.
 *
 * The main result is that the contract Scheduler asks of a port can be met: every run of the
 * exporter over this port is a legal run.
 */
module InlinePorts {
  import opened Wire
  import Status
  import opened Scheduler
  import opened SchedulerDevice
  import opened SchedulerSafety

  /** A call on the synchronous device; one transfer is one call, plus at most one terminating ZLP. */
  datatype DeviceCall =
    | ControlTransfer(setup: u64, dataOut: Bytes)
    | BulkIn(epAddr: byte, bufferLen: u32)
    | BulkOut(epAddr: byte, data: Bytes)

  /** What the device says to one call. `data` is what it read, `moved` what it took. */
  datatype Reply = Reply(status: u16, data: Bytes, moved: u32)

  datatype Finished = Finished(token: Token, status: u16, actualLen: u32, zlpSent: bool, data: Bytes)

  function PolledOutcome(f: Finished): Outcome { Outcome(f.token, f.status, f.actualLen, false, f.zlpSent, f.data) }

  function AbortedOutcome(f: Finished, st: u16): Outcome {
    Outcome(f.token, if f.status == Status.OK then Status.OK else st, f.actualLen, false, f.zlpSent, f.data)
  }

  function Polled(fs: seq<Finished>): (os: seq<Outcome>)
    ensures |os| == |fs| && forall i :: 0 <= i < |fs| ==> os[i] == PolledOutcome(fs[i])
  {
    seq(|fs|, (i: int) requires 0 <= i < |fs| => PolledOutcome(fs[i]))
  }

  function Aborted(fs: seq<Finished>, st: u16): (os: seq<Outcome>)
    ensures |os| == |fs| && forall i :: 0 <= i < |fs| ==> os[i] == AbortedOutcome(fs[i], st)
  {
    seq(|fs|, (i: int) requires 0 <= i < |fs| => AbortedOutcome(fs[i], st))
  }

  /** A terminating zero-length packet is due: asked for, and the data ended on a packet boundary. */
  predicate ZlpDue(t: AsyncTransfer, first: Reply, mps: u32) {
    t.xferType != CONTROL && t.dir != DIR_IN && t.zeroPacket
    && first.status == Status.OK && first.moved != 0 && mps != 0 && first.moved % mps == 0
  }

  function FirstCall(t: AsyncTransfer): DeviceCall {
    if t.xferType == CONTROL then ControlTransfer(t.setup, t.dataOut)
    else if t.dir == DIR_IN then BulkIn(t.epAddr, t.bufferLen)
    else BulkOut(t.epAddr, t.dataOut)
  }

  /** How many bytes the guest is told moved. */
  function Moved(t: AsyncTransfer, first: Reply): u32 {
    if t.dir == DIR_IN then Trunc32(|first.data|)
    else if t.xferType != CONTROL then first.moved
    else if first.status == Status.OK then Trunc32(|t.dataOut|) else 0
  }

  /** The device's own verdict, before SHORT_NOT_OK. */
  function Verdict(t: AsyncTransfer, first: Reply, second: Reply, mps: u32): u16 {
    if ZlpDue(t, first, mps) then second.status else first.status
  }

  /** SHORT_NOT_OK turns a successful but short IN into an error. */
  predicate TooShort(t: AsyncTransfer, first: Reply) {
    t.shortNotOk && first.status == Status.OK && t.dir == DIR_IN && Moved(t, first) < t.bufferLen
  }

  function Finish(token: Token, t: AsyncTransfer, first: Reply, second: Reply, mps: u32): Finished {
    Finished(token,
      if TooShort(t, first) then Status.XFER_SHORT else Verdict(t, first, second, mps),
      Moved(t, first),
      ZlpDue(t, first, mps) && second.status == Status.OK,
      if t.xferType != CONTROL && t.dir != DIR_IN then [] else first.data)
  }

  class InlineAsyncPort {
    var done: seq<Finished>
    var calls: seq<DeviceCall>

    constructor ()
      ensures done == [] && calls == []
    {
      done, calls := [], [];
    }

    /** `first` and `second` are what the device replies, should it be called. */
    method Submit(token: Token, t: AsyncTransfer, first: Reply, second: Reply, mps: u32) returns (s: u16)
      modifies this
      ensures s == Status.OK
      ensures done == old(done) + [Finish(token, t, first, second, mps)]
      ensures calls == old(calls) + [FirstCall(t)] + if ZlpDue(t, first, mps) then [BulkOut(t.epAddr, [])] else []
    {
      var f := Finished(token, Status.OK, 0, false, []);
      calls := calls + [FirstCall(t)];
      if t.xferType == CONTROL {
        f := f.(status := first.status, data := first.data);
        if t.dir != DIR_IN {
          if f.status == Status.OK { f := f.(actualLen := Trunc32(|t.dataOut|)); }
        } else {
          f := f.(actualLen := Trunc32(|f.data|));
        }
      } else if t.dir == DIR_IN {
        f := f.(status := first.status, data := first.data, actualLen := Trunc32(|first.data|));
      } else {
        f := f.(status := first.status, actualLen := first.moved);
        if t.zeroPacket && f.status == Status.OK && f.actualLen != 0 {
          if mps != 0 && f.actualLen % mps == 0 {
            calls := calls + [BulkOut(t.epAddr, [])];
            if second.status == Status.OK { f := f.(zlpSent := true); } else { f := f.(status := second.status); }
          }
        }
      }
      if t.shortNotOk && f.status == Status.OK && t.dir == DIR_IN && f.actualLen < t.bufferLen {
        f := f.(status := Status.XFER_SHORT);
      }
      done := done + [f];
      s := Status.OK;
    }

    method Cancel(token: Token) returns (stopped: bool)
      ensures !stopped
    {
      stopped := false;
    }

    method ClearHalt(token: Token, device: u16) returns (s: u16)
      modifies this`done
      ensures s == Status.OK && done == old(done) + [Finished(token, device, 0, false, [])]
    {
      done := done + [Finished(token, device, 0, false, [])];
      s := Status.OK;
    }

    method Poll() returns (os: seq<Outcome>)
      modifies this`done
      ensures done == [] && os == Polled(old(done))
    {
      var batch := done;
      done := [];
      os := [];
      for i := 0 to |batch|
        invariant done == []
        invariant |os| == i && forall k :: 0 <= k < i ==> os[k] == PolledOutcome(batch[k])
      {
        os := os + [PolledOutcome(batch[i])];
      }
    }

    method AbortAll(st: u16) returns (os: seq<Outcome>)
      modifies this`done
      ensures done == [] && os == Aborted(old(done), st)
    {
      var batch := done;
      done := [];
      os := [];
      for i := 0 to |batch|
        invariant done == []
        invariant |os| == i && forall k :: 0 <= k < i ==> os[k] == AbortedOutcome(batch[k], st)
      {
        os := os + [AbortedOutcome(batch[i], st)];
      }
    }
  }

  // ---------------------------------------------------------------- the exporter over this port

  /** The device behind the port: its reply to the first and to the terminating call, and its packet size. */
  datatype UsbDevice = UsbDevice(first: Token -> Reply, second: Token -> Reply, mps: byte -> u32)

  datatype Action =
    | Arrive(now: nat, req: Intake)
    | AskCancel(wholeEndpoint: bool, ep: byte, target: u64)
    | AskClearHalt(requestId: u64, ep: byte, device: u16)
    | DoAdmit(dev: UsbDevice)
    | DoCollect
    | DoSweep(sweptAt: nat)
    | DoAttach
    | DoDetach
    | DoOrphan(with: u16)
    | DoClose(goodbye: bool)

  /** The event the exporter meets when the port underneath holds `done`. */
  function EventOf(done: seq<Finished>, a: Action): Event {
    match a
    case Arrive(now, req) => EIntake(now, req)
    case AskCancel(whole, ep, target) => ECancel(whole, ep, target, (t: Token) => false)
    case AskClearHalt(rid, ep, _) => EClearHalt(rid, ep, Status.OK)
    case DoAdmit(_) => EAdmit((t: Token) => Status.OK)
    case DoCollect => ECollect(Polled(done))
    case DoSweep(now) => ESweep(now, (t: Token) => false)
    case DoAttach => EAttach
    case DoDetach => EDetach(Aborted(done, Status.XFER_CANCELLED))
    case DoOrphan(with) => EOrphan(with, Aborted(done, with))
    case DoClose(goodbye) => EClose(goodbye, Aborted(done, Status.DETACHING))
  }

  /** What the session's own state asks before each step; the port is not mentioned. */
  predicate Timely(s: Exporter, a: Action) {
    match a
    case Arrive(_, _) => s.state == Leased && s.attached
    case DoAttach => s.state == Idle
    case DoDetach => s.state == Leased || s.state == Orphaned
    case DoOrphan(with) => with != Status.OK
    case _ => true
  }

  /** The outcomes of the transfers accepted as tokens `from`, `from + 1`, .. below `upTo`. */
  function FinishEach(out: map<Token, Held>, from: Token, upTo: Token, dev: UsbDevice): seq<Finished>
    decreases upTo - from
  {
    if from >= upTo then []
    else (if from in out
          then [Finish(from, out[from].transfer, dev.first(from), dev.second(from), dev.mps(out[from].transfer.epAddr))]
          else [])
         + FinishEach(out, from + 1, upTo, dev)
  }

  /** What the port holds after the exporter took the step `a` from `s` to `r`. */
  function After(s: Exporter, r: Exporter, done: seq<Finished>, a: Action): seq<Finished> {
    match a
    case Arrive(_, _) => done
    case AskCancel(_, _, _) => done
    case AskClearHalt(_, _, device) =>
      if r.nextToken == s.nextToken then done else done + [Finished(s.nextToken, device, 0, false, [])]
    case DoAdmit(dev) => done + FinishEach(r.port.outstanding, s.nextToken, r.nextToken, dev)
    case DoCollect => if s.attached then [] else done
    case DoSweep(_) => done
    case _ => []
  }

  predicate TimelyRun(s: Exporter, done: seq<Finished>, acts: seq<Action>)
    decreases |acts|
  {
    acts == []
    || (Timely(s, acts[0])
        && var r := Step(s, EventOf(done, acts[0]));
           TimelyRun(r, After(s, r, done, acts[0]), acts[1..]))
  }

  function Events(s: Exporter, done: seq<Finished>, acts: seq<Action>): (es: seq<Event>)
    decreases |acts|
  {
    if acts == [] then []
    else
      var e := EventOf(done, acts[0]);
      var r := Step(s, e);
      [e] + Events(r, After(s, r, done, acts[0]), acts[1..])
  }

  predicate Names(done: seq<Finished>, t: Token) { exists i :: 0 <= i < |done| && done[i].token == t }

  /** The port owes exactly the outcomes it holds, each under its own token. */
  ghost predicate Backed(s: Exporter, done: seq<Finished>) {
    && (forall i, j :: 0 <= i < j < |done| ==> done[i].token != done[j].token)
    && (forall i :: 0 <= i < |done| ==> done[i].token < s.nextToken)
    && (forall t :: Names(done, t) <==> t in s.port.outstanding || t in s.port.verbs)
  }

  /** A port that always says yes takes one transfer per token the round used up. */
  lemma {:induction false} AdmitEachAccepts(s: Exporter, eps: seq<byte>, yes: Token -> u16)
    requires forall t :: yes(t) == Status.OK
    requires forall t :: t in s.port.outstanding ==> t < s.nextToken
    ensures var r := AdmitEach(s, eps, yes);
            && r.nextToken >= s.nextToken && r.port.verbs == s.port.verbs
            && (forall t :: t in r.port.outstanding <==> t in s.port.outstanding || s.nextToken <= t < r.nextToken)
    decreases |eps|
  {
    if eps != [] { AdmitEachAccepts(AdmitOne(s, eps[0], yes), eps[1..], yes); }
  }

  ghost predicate NamesRange(fs: seq<Finished>, from: Token, upTo: Token) {
    && (forall i :: 0 <= i < |fs| ==> from <= fs[i].token < upTo)
    && (forall i, j :: 0 <= i < j < |fs| ==> fs[i].token != fs[j].token)
    && (forall t: Token :: from <= t < upTo ==> Names(fs, t))
  }

  lemma NamesOneMore(f: Finished, rest: seq<Finished>, upTo: Token)
    requires NamesRange(rest, f.token + 1, upTo) && f.token < upTo
    ensures NamesRange([f] + rest, f.token, upTo)
  {
    assert ([f] + rest)[0] == f;
    forall t: Token | f.token <= t < upTo ensures Names([f] + rest, t) {
      if t > f.token {
        assert Names(rest, t);
        var i :| 0 <= i < |rest| && rest[i].token == t;
        assert ([f] + rest)[i + 1].token == t;
      }
    }
  }

  lemma {:induction false} FinishEachNames(out: map<Token, Held>, from: Token, upTo: Token, dev: UsbDevice)
    requires from <= upTo && forall t :: from <= t < upTo ==> t in out
    ensures NamesRange(FinishEach(out, from, upTo, dev), from, upTo)
    decreases upTo - from
  {
    if from < upTo {
      FinishEachNames(out, from + 1, upTo, dev);
      var f := Finish(from, out[from].transfer, dev.first(from), dev.second(from), dev.mps(out[from].transfer.epAddr));
      NamesOneMore(f, FinishEach(out, from + 1, upTo, dev), upTo);
      assert f.token == from;
    }
  }

  lemma NamesConcat(a: seq<Finished>, b: seq<Finished>, t: Token)
    ensures Names(a + b, t) <==> Names(a, t) || Names(b, t)
  {
    if Names(a, t) { var i :| 0 <= i < |a| && a[i].token == t; assert (a + b)[i].token == t; }
    if Names(b, t) { var i :| 0 <= i < |b| && b[i].token == t; assert (a + b)[|a| + i].token == t; }
  }

  lemma {:induction false} CancelFlightsRefused(s: Exporter, t: Token, hit: InFlight -> bool, no: Token -> bool)
    requires forall u :: !no(u)
    ensures CancelFlights(s, t, hit, no) == s
    decreases s.nextToken - t
  {
    if t < s.nextToken { CancelFlightsRefused(s, t + 1, hit, no); }
  }

  lemma CancelLeavesPort(s: Exporter, whole: bool, ep: byte, target: u64, no: Token -> bool)
    requires forall u :: !no(u)
    ensures var r := Cancel(s, whole, ep, target, no); r.port == s.port && r.nextToken == s.nextToken
  {
    if s.state == Leased {
      var gone := (p: Pending) => Matches(whole, ep, target, p.req.sb.epAddr, p.req.requestId);
      RetireFromFrame(s, ep, 0, gone, Status.XFER_CANCELLED, true);
      var r := RetireFrom(s, ep, 0, gone, Status.XFER_CANCELLED, true);
      CancelFlightsRefused(r, 0, (f: InFlight) => Matches(whole, ep, target, f.req.sb.epAddr, f.req.requestId), no);
    }
  }

  lemma {:induction false} SweepFlightsRefused(s: Exporter, t: Token, now: nat, no: Token -> bool)
    requires forall u :: !no(u)
    ensures var r := SweepFlights(s, t, now, no); r.port == s.port && r.nextToken == s.nextToken
    decreases s.nextToken - t
  {
    if t < s.nextToken { SweepFlightsRefused(SweepAt(s, t, now, no), t + 1, now, no); }
  }

  lemma SweepLeavesPort(s: Exporter, now: nat, no: Token -> bool)
    requires forall u :: !no(u)
    ensures var r := Sweep(s, now, no); r.port == s.port && r.nextToken == s.nextToken
  {
    var gone := (p: Pending) => Expired(p.deadline, now);
    RetireEachFrame(s, ENDPOINTS, gone, Status.XFER_TIMEOUT, false);
    SweepFlightsRefused(RetireEach(s, ENDPOINTS, gone, Status.XFER_TIMEOUT, false), 0, now, no);
  }

  lemma PolledNames(done: seq<Finished>, t: Token)
    ensures Named(Polled(done), t) <==> Names(done, t)
  {
    if Names(done, t) { var i :| 0 <= i < |done| && done[i].token == t; assert Polled(done)[i].token == t; }
  }

  /** Every outcome this port reports is owed, and abortAll leaves none. */
  lemma ReportsAreOwed(s: Exporter, done: seq<Finished>, st: u16)
    requires Backed(s, done)
    ensures LegalPoll(s.port, Polled(done)) && LegalAbort(s.port, Aborted(done, st))
  {
    forall i | 0 <= i < |done| ensures done[i].token in s.port.outstanding || done[i].token in s.port.verbs {
      assert Names(done, done[i].token);
    }
    forall t | t in s.port.outstanding || t in s.port.verbs
      ensures exists i :: 0 <= i < |Aborted(done, st)| && Aborted(done, st)[i].token == t
    {
      assert Names(done, t);
      var i :| 0 <= i < |done| && done[i].token == t;
      assert Aborted(done, st)[i].token == t;
    }
  }

  lemma InlineStepIsLegal(s: Exporter, done: seq<Finished>, a: Action)
    requires Backed(s, done) && Timely(s, a)
    ensures Legal(s, EventOf(done, a))
  {
    match a
    case DoCollect => ReportsAreOwed(s, done, 0);
    case DoDetach => ReportsAreOwed(s, done, Status.XFER_CANCELLED);
    case DoOrphan(with) => ReportsAreOwed(s, done, with);
    case DoClose(_) => ReportsAreOwed(s, done, Status.DETACHING);
    case _ =>
  }

  /** Outcomes of `from` and later join those of earlier tokens. */
  lemma MoreBacked(s: Exporter, r: Exporter, done: seq<Finished>, more: seq<Finished>)
    requires Backed(s, done) && r.port.verbs == s.port.verbs && r.nextToken >= s.nextToken
    requires forall t :: t in r.port.outstanding <==> t in s.port.outstanding || s.nextToken <= t < r.nextToken
    requires NamesRange(more, s.nextToken, r.nextToken)
    ensures Backed(r, done + more)
  {
    forall t ensures Names(done + more, t) <==> t in r.port.outstanding || t in r.port.verbs {
      NamesConcat(done, more, t);
    }
  }

  lemma AdmitStaysBacked(s: Exporter, done: seq<Finished>, dev: UsbDevice)
    requires Device(s) && Backed(s, done)
    ensures var r := Step(s, EventOf(done, DoAdmit(dev))); Backed(r, After(s, r, done, DoAdmit(dev)))
  {
    var e := EventOf(done, DoAdmit(dev));
    var r := Step(s, e);
    assert r == Admit(s, e.maySubmit);
    if s.attached && s.state == Leased { AdmitEachAccepts(s, ENDPOINTS, e.maySubmit); }
    FinishEachNames(r.port.outstanding, s.nextToken, r.nextToken, dev);
    MoreBacked(s, r, done, FinishEach(r.port.outstanding, s.nextToken, r.nextToken, dev));
  }

  /** A poll reports everything this port holds. */
  lemma PolledDry(s: Exporter, done: seq<Finished>)
    requires Backed(s, done)
    ensures Backed(CollectAll(s, Polled(done)), [])
  {
    CollectAllReports(s, Polled(done));
    var r := CollectAll(s, Polled(done));
    forall t | t in r.port.outstanding || t in r.port.verbs ensures false {
      PolledNames(done, t);
    }
  }

  lemma CollectStaysBacked(s: Exporter, done: seq<Finished>)
    requires Backed(s, done)
    ensures var r := Step(s, EventOf(done, DoCollect)); Backed(r, After(s, r, done, DoCollect))
  {
    if s.attached { PolledDry(s, done); }
  }

  lemma VerbStaysBacked(s: Exporter, done: seq<Finished>, a: Action)
    requires Device(s) && Backed(s, done) && a.AskClearHalt?
    ensures var r := Step(s, EventOf(done, a)); Backed(r, After(s, r, done, a))
  {
    var r := Step(s, EventOf(done, a));
    var f := Finished(s.nextToken, a.device, 0, false, []);
    if r.nextToken != s.nextToken {
      assert Names([f], s.nextToken) by { assert [f][0].token == s.nextToken; }
      forall t ensures Names(done + [f], t) <==> t in r.port.outstanding || t in r.port.verbs { NamesConcat(done, [f], t); }
    }
  }

  lemma RestIsBacked(r: Exporter)
    requires r.port.outstanding == map[] && r.port.verbs == {}
    ensures Backed(r, [])
  {}

  lemma TeardownStaysBacked(s: Exporter, done: seq<Finished>, a: Action)
    requires Device(s) && Backed(s, done) && Timely(s, a)
    requires a.DoAttach? || a.DoDetach? || a.DoOrphan? || a.DoClose?
    ensures Backed(Step(s, EventOf(done, a)), [])
  {
    InlineStepIsLegal(s, done, a);
    match a
    case DoDetach => FailAllRests(s, Status.XFER_CANCELLED, Aborted(done, Status.XFER_CANCELLED));
    case DoOrphan(with) => FailAllRests(s, with, Aborted(done, with));
    case DoClose(_) => FailAllRests(s, Status.DETACHING, Aborted(done, Status.DETACHING));
    case DoAttach => {}
    RestIsBacked(Step(s, EventOf(done, a)));
  }

  lemma SameBacked(s: Exporter, r: Exporter, done: seq<Finished>)
    requires Backed(s, done) && r.port == s.port && r.nextToken == s.nextToken
    ensures Backed(r, done)
  {}

  lemma CancelStaysBacked(s: Exporter, done: seq<Finished>, a: Action)
    requires Backed(s, done) && a.AskCancel?
    ensures Backed(Step(s, EventOf(done, a)), done)
  {
    var e := EventOf(done, a);
    CancelLeavesPort(s, e.wholeEndpoint, e.ep, e.target, e.mayCancel);
    SameBacked(s, Step(s, e), done);
  }

  lemma SweepStaysBacked(s: Exporter, done: seq<Finished>, a: Action)
    requires Backed(s, done) && a.DoSweep?
    ensures Backed(Step(s, EventOf(done, a)), done)
  {
    var e := EventOf(done, a);
    SweepLeavesPort(s, e.sweptAt, e.mayStop);
    SameBacked(s, Step(s, e), done);
  }

  lemma InlineStepStaysBacked(s: Exporter, done: seq<Finished>, a: Action)
    requires Device(s) && Backed(s, done) && Timely(s, a)
    ensures var r := Step(s, EventOf(done, a)); Backed(r, After(s, r, done, a))
  {
    match a
    case AskClearHalt(_, _, _) => VerbStaysBacked(s, done, a);
    case DoAdmit(dev) => AdmitStaysBacked(s, done, dev);
    case DoCollect => CollectStaysBacked(s, done);
    case DoAttach => TeardownStaysBacked(s, done, a);
    case DoDetach => TeardownStaysBacked(s, done, a);
    case DoOrphan(_) => TeardownStaysBacked(s, done, a);
    case DoClose(_) => TeardownStaysBacked(s, done, a);
    case AskCancel(_, _, _) => CancelStaysBacked(s, done, a);
    case DoSweep(_) => SweepStaysBacked(s, done, a);
    case Arrive(_, _) => SameBacked(s, Step(s, EventOf(done, a)), done);
  }

  lemma {:induction false} BackedRunIsLegal(s: Exporter, done: seq<Finished>, acts: seq<Action>)
    requires Device(s) && Backed(s, done) && TimelyRun(s, done, acts)
    ensures LegalRun(s, Events(s, done, acts))
    decreases |acts|
  {
    if acts != [] {
      InlineStepIsLegal(s, done, acts[0]);
      StepKeepsDevice(s, EventOf(done, acts[0]));
      InlineStepStaysBacked(s, done, acts[0]);
      var r := Step(s, EventOf(done, acts[0]));
      BackedRunIsLegal(r, After(s, r, done, acts[0]), acts[1..]);
      assert Events(s, done, acts)[1..] == Events(r, After(s, r, done, acts[0]), acts[1..]);
    }
  }

  /**
   * The port contract can be met: whatever the peer and the device do, an exporter over this
   * port only ever takes legal steps, so every theorem about legal runs applies to it.
   */
  lemma InlinePortKeepsTheContract(acts: seq<Action>)
    requires TimelyRun(INITIAL, [], acts)
    ensures LegalRun(INITIAL, Events(INITIAL, [], acts))
  {
    InitialDevice();
    BackedRunIsLegal(INITIAL, [], acts);
  }

  // ------------------------------------------------------------ one transfer, case by case

  /** A control transfer: the device's status, its bytes on an IN, and on an OUT all of ours or none. */
  lemma ControlFinishes(token: Token, t: AsyncTransfer, first: Reply, second: Reply, mps: u32)
    requires t.xferType == CONTROL && |t.dataOut| < 0x1_0000_0000 && |first.data| < 0x1_0000_0000
    ensures var f := Finish(token, t, first, second, mps);
            && f.token == token && !f.zlpSent && f.data == first.data
            && f.actualLen == (if t.dir == DIR_IN then |first.data| else if first.status == Status.OK then |t.dataOut| else 0)
            && f.status == (if t.shortNotOk && first.status == Status.OK && t.dir == DIR_IN && |first.data| < t.bufferLen
                            then Status.XFER_SHORT else first.status)
            && FirstCall(t) == ControlTransfer(t.setup, t.dataOut)
  {}

  /** A data IN: the device's status and bytes; SHORT_NOT_OK turns a short success into XferShort. */
  lemma DataInFinishes(token: Token, t: AsyncTransfer, first: Reply, second: Reply, mps: u32)
    requires t.xferType != CONTROL && t.dir == DIR_IN && |first.data| < 0x1_0000_0000
    ensures var f := Finish(token, t, first, second, mps);
            && f.token == token && !f.zlpSent && f.data == first.data && f.actualLen == |first.data|
            && f.status == (if t.shortNotOk && first.status == Status.OK && |first.data| < t.bufferLen then Status.XFER_SHORT else first.status)
            && FirstCall(t) == BulkIn(t.epAddr, t.bufferLen) && !ZlpDue(t, first, mps)
  {}

  /**
   * A data OUT: what the device took, and a terminating empty packet exactly when one was asked for and a
   * success ended on a packet boundary; then it is the empty packet that decides.
   */
  lemma DataOutFinishes(token: Token, t: AsyncTransfer, first: Reply, second: Reply, mps: u32)
    requires t.xferType != CONTROL && t.dir == DIR_OUT
    ensures var f := Finish(token, t, first, second, mps);
            var due := t.zeroPacket && first.status == Status.OK && first.moved > 0 && mps > 0 && first.moved % mps == 0;
            && ZlpDue(t, first, mps) == due && FirstCall(t) == BulkOut(t.epAddr, t.dataOut)
            && f.token == token && f.data == [] && f.actualLen == first.moved
            && f.status == (if due then second.status else first.status) && (f.zlpSent <==> due && second.status == Status.OK)
  {}

  /** A teardown reports a finished success as it was, and anything else with the teardown's status; nothing counts as cancelled. */
  lemma AbortReports(f: Finished, st: u16)
    ensures var o := AbortedOutcome(f, st);
            && o.token == f.token && o.actualLen == f.actualLen && o.dataIn == f.data && o.zlpSent == f.zlpSent && !o.cancelled
            && (o.status == Status.OK <==> f.status == Status.OK || st == Status.OK) && (f.status != Status.OK ==> o.status == st)
  {}
}
