/**
 * The exporter's transfer scheduler as a state machine: what each step of
 * airusb/session/ExporterSession.cpp does to the queues, the in-flight table and the
 * device port, for every reply the port may give under its contract.
 *
 * A transfer is named by its intake number (`serial`), because a peer may repeat a
 * request id. `intakes` and `answers` log what came in and what was answered.
 */
module Scheduler {
  import opened Wire
  import Status

  type Token = nat

  const CREDIT_URBS := 64
  const CREDIT_BYTES := 4 * 1024 * 1024

  datatype Deadline = Never | At(ns: nat)

  predicate Expired(d: Deadline, now: nat) { d.At? && now >= d.ns }

  function AfterMs(now: nat, ms: nat): Deadline { if ms == 0 then Never else At(now + ms * 1_000_000) }

  function DeadlineMsFor(xferType: byte): nat {
    if xferType == INTERRUPT then 0
    else if xferType == CONTROL || xferType == ISOCHRONOUS then 5000
    else 30000
  }

  predicate IsEp0(ep: byte) { ep % 128 == 0 }

  /** What the peer asked for, as `enqueueTransfer` received it. */
  datatype Intake = Intake(channel: u16, requestId: u64, sb: SubmitBody, dataOut: Bytes)

  datatype Pending = Pending(serial: nat, req: Intake, deadline: Deadline)

  datatype InFlight = InFlight(serial: nat, req: Intake, deadline: Deadline, cancelRequested: bool)

  /** One call to the device. */
  datatype AsyncTransfer = AsyncTransfer(
    epAddr: byte, xferType: byte, dir: byte, bufferLen: u32, setup: u64, dataOut: Bytes,
    timeoutMs: nat, zeroPacket: bool, shortNotOk: bool)

  datatype Held = Held(serial: nat, transfer: AsyncTransfer)

  datatype Outcome = Outcome(token: Token, status: u16, actualLen: u32, cancelled: bool, zlpSent: bool, dataIn: Bytes)

  /** The terminal answer the peer gets: a COMPLETE, or the ERROR of the overrun branch. */
  datatype Answer =
    | Complete(serial: nat, channel: u16, requestId: u64, status: u16, body: CompleteBody, payload: Bytes)
    | Overrun(serial: nat, channel: u16, requestId: u64)

  datatype Verb = Verb(requestId: u64, epAddr: byte)
  datatype Ack = Ack(token: Token, requestId: u64, status: u16)

  /**
   * What the device port owes: the tokens it accepted and has not reported, every transfer
   * it ever accepted (in order), and the tokens it accepted a cancel for.
   */
  datatype Port = Port(outstanding: map<Token, Held>, verbs: set<Token>, accepted: seq<Held>, cancelAccepted: set<Token>)

  datatype State = Idle | Leased | Orphaned | Closed

  datatype Exporter = Exporter(
    state: State, attached: bool,
    queues: map<byte, seq<Pending>>, inFlight: map<Token, InFlight>, busy: map<byte, Token>,
    verbs: map<Token, Verb>, nextToken: Token,
    intakes: seq<Intake>, answers: seq<Answer>, acks: seq<Ack>, port: Port)

  const FRESH_PORT := Port(map[], {}, [], {})

  const INITIAL := Exporter(Idle, false, map[], map[], map[], map[], 1, [], [], [], FRESH_PORT)

  // ---------------------------------------------------------------- answers

  function FlightOf(p: Pending): InFlight { InFlight(p.serial, p.req, p.deadline, false) }

  /** emitComplete: the answer a retired transfer gets. */
  function MakeAnswer(f: InFlight, st: u16, actualLen: u32, cancelled: bool, zlpSent: bool, payload: Bytes): Answer {
    var sb := f.req.sb;
    var isIn := sb.dir == DIR_IN;
    var moved: u32 := if isIn then Trunc32(|payload|) else actualLen;
    if moved > sb.bufferLen then Overrun(f.serial, f.req.channel, f.req.requestId)
    else
      var cflags: byte := (if st == Status.OK && moved < sb.bufferLen then 1 else 0)
                          + (if zlpSent then 2 else 0) + (if cancelled then 4 else 0);
      Complete(f.serial, f.req.channel, f.req.requestId, st,
        CompleteBody(sb.epAddr, sb.xferType, sb.dir, cflags, sb.bufferLen, moved,
          if isIn then Trunc32(|payload|) else 0, 0, 0, 0, 0, sb.submitTsNs),
        if isIn then payload else [])
  }

  // ---------------------------------------------------------------- queues

  function Q(queues: map<byte, seq<Pending>>, ep: byte): seq<Pending> {
    if ep in queues then queues[ep] else []
  }

  /** Every endpoint address, in the order a std::map visits them. */
  const ENDPOINTS: seq<byte> := Ascending(256)

  function Ascending(n: nat): (r: seq<byte>)
    requires n <= 256
    ensures |r| == n && forall i :: 0 <= i < n ==> r[i] == i
  {
    seq(n, (i: int) requires 0 <= i < n => i)
  }

  /** How many transfers are queued on the endpoints `eps`. */
  function QueuedOn(queues: map<byte, seq<Pending>>, eps: seq<byte>): nat {
    if eps == [] then 0 else |Q(queues, eps[0])| + QueuedOn(queues, eps[1..])
  }

  function QueueBytes(q: seq<Pending>): nat {
    if q == [] then 0 else QueueBytes(q[..|q| - 1]) + |q[|q| - 1].req.dataOut|
  }

  function BytesOn(queues: map<byte, seq<Pending>>, eps: seq<byte>): nat {
    if eps == [] then 0 else QueueBytes(Q(queues, eps[0])) + BytesOn(queues, eps[1..])
  }

  // ---------------------------------------------------------------- steps

  function Enqueue(s: Exporter, now: nat, req: Intake): Exporter {
    var serial := |s.intakes|;
    if QueuedOn(s.queues, ENDPOINTS) + |s.inFlight| >= CREDIT_URBS
       || BytesOn(s.queues, ENDPOINTS) + |req.dataOut| > CREDIT_BYTES
    then
      var f := InFlight(serial, req, Never, false);
      s.(intakes := s.intakes + [req],
         answers := s.answers + [MakeAnswer(f, Status.NO_RESOURCES, 0, false, false, [])])
    else
      var p := Pending(serial, req, AfterMs(now, DeadlineMsFor(req.sb.xferType)));
      s.(intakes := s.intakes + [req],
         queues := s.queues[req.sb.epAddr := Q(s.queues, req.sb.epAddr) + [p]])
  }

  predicate MayAdmit(s: Exporter, ep: byte) {
    if IsEp0(ep) then s.inFlight == map[]
    else (forall t :: t in s.inFlight ==> !IsEp0(s.inFlight[t].req.sb.epAddr)) && ep !in s.busy
  }

  function TransferOf(req: Intake): AsyncTransfer {
    AsyncTransfer(req.sb.epAddr, req.sb.xferType, req.sb.dir, req.sb.bufferLen,
      if req.sb.xferType == CONTROL then req.sb.setup else 0, req.dataOut,
      DeadlineMsFor(req.sb.xferType), req.sb.xflags / 2 % 2 == 1, req.sb.xflags % 2 == 1)
  }

  /** Hand the head of one endpoint's queue to the port, which replies `reply(token)`. */
  function AdmitOne(s: Exporter, ep: byte, reply: Token -> u16): Exporter {
    var q := Q(s.queues, ep);
    if q == [] || !MayAdmit(s, ep) then s
    else
      var p := q[0];
      var token := s.nextToken;
      if reply(token) == Status.BUSY then s.(nextToken := token + 1)
      else
        var popped := s.(nextToken := token + 1, queues := s.queues[ep := q[1..]]);
        if reply(token) != Status.OK
        then popped.(answers := s.answers + [MakeAnswer(FlightOf(p), reply(token), 0, false, false, [])])
        else
          var held := Held(p.serial, TransferOf(p.req));
          popped.(inFlight := s.inFlight[token := FlightOf(p)], busy := s.busy[ep := token],
            port := s.port.(outstanding := s.port.outstanding[token := held], accepted := s.port.accepted + [held]))
  }

  function AdmitEach(s: Exporter, eps: seq<byte>, reply: Token -> u16): Exporter
    decreases |eps|
  {
    if eps == [] then s else AdmitEach(AdmitOne(s, eps[0], reply), eps[1..], reply)
  }

  function Admit(s: Exporter, reply: Token -> u16): Exporter {
    if !s.attached || s.state != Leased then s else AdmitEach(s, ENDPOINTS, reply)
  }

  /** The port reported `token`, so it no longer owes an outcome for it. */
  function Reported(p: Port, token: Token): Port {
    p.(outstanding := p.outstanding - {token}, verbs := p.verbs - {token})
  }

  function FreeEndpoint(busy: map<byte, Token>, token: Token): map<byte, Token> {
    map e | e in busy && busy[e] != token :: busy[e]
  }

  function PortReported(s: Exporter, token: Token): Exporter { s.(port := Reported(s.port, token)) }

  /** A verb's outcome is acknowledged once and is not a transfer. */
  function AckVerb(s: Exporter, o: Outcome): Exporter
    requires o.token in s.verbs
  {
    s.(verbs := s.verbs - {o.token}, acks := s.acks + [Ack(o.token, s.verbs[o.token].requestId, o.status)])
  }

  /** Retire an in-flight transfer with the answer `a`. */
  function Land(s: Exporter, token: Token, a: Answer): Exporter {
    s.(inFlight := s.inFlight - {token}, answers := s.answers + [a])
  }

  function Freed(s: Exporter, token: Token): Exporter { s.(busy := FreeEndpoint(s.busy, token)) }

  function CollectOne(s: Exporter, o: Outcome): Exporter {
    if o.token in s.verbs then AckVerb(PortReported(s, o.token), o)
    else if o.token !in s.inFlight then Freed(PortReported(s, o.token), o.token)
    else Land(Freed(PortReported(s, o.token), o.token), o.token,
      MakeAnswer(s.inFlight[o.token], o.status, o.actualLen, o.cancelled, o.zlpSent, o.dataIn))
  }

  function CollectAll(s: Exporter, os: seq<Outcome>): Exporter
    decreases |os|
  {
    if os == [] then s else CollectAll(CollectOne(s, os[0]), os[1..])
  }

  function Collect(s: Exporter, os: seq<Outcome>): Exporter {
    if !s.attached then s else CollectAll(s, os)
  }

  /** Retire from position `i` on every queued transfer of `ep` that `gone` picks. */
  function RetireFrom(s: Exporter, ep: byte, i: nat, gone: Pending -> bool, st: u16, cancelled: bool): Exporter
    decreases |Q(s.queues, ep)| - i
  {
    var q := Q(s.queues, ep);
    if i >= |q| then s
    else if gone(q[i]) then
      RetireFrom(RetireAt(s, ep, i, st, cancelled), ep, i, gone, st, cancelled)
    else RetireFrom(s, ep, i + 1, gone, st, cancelled)
  }

  function RetireAt(s: Exporter, ep: byte, i: nat, st: u16, cancelled: bool): Exporter
    requires i < |Q(s.queues, ep)|
  {
    var q := Q(s.queues, ep);
    s.(queues := s.queues[ep := q[..i] + q[i + 1..]],
       answers := s.answers + [MakeAnswer(FlightOf(q[i]), st, 0, cancelled, false, [])])
  }

  function RetireEach(s: Exporter, eps: seq<byte>, gone: Pending -> bool, st: u16, cancelled: bool): Exporter
    decreases |eps|
  {
    if eps == [] then s else RetireEach(RetireFrom(s, eps[0], 0, gone, st, cancelled), eps[1..], gone, st, cancelled)
  }

  /** The port was asked to cancel `token` and answered `yes`. */
  function CancelAnswered(p: Port, token: Token, yes: bool): Port {
    if yes then p.(cancelAccepted := p.cancelAccepted + {token}) else p
  }

  /** CANCEL of one transfer on the device: disarm its deadline only if the port says yes. */
  function CancelAt(s: Exporter, t: Token, hit: InFlight -> bool, reply: Token -> bool): (r: Exporter)
    ensures r.nextToken == s.nextToken
  {
    if t !in s.inFlight || !hit(s.inFlight[t]) then s
    else s.(port := CancelAnswered(s.port, t, reply(t)),
            inFlight := if reply(t) then s.inFlight[t := s.inFlight[t].(cancelRequested := true)] else s.inFlight)
  }

  function CancelFlights(s: Exporter, t: Token, hit: InFlight -> bool, reply: Token -> bool): Exporter
    decreases s.nextToken - t
  {
    if t >= s.nextToken then s else CancelFlights(CancelAt(s, t, hit, reply), t + 1, hit, reply)
  }

  predicate Matches(wholeEndpoint: bool, ep: byte, target: u64, reqEp: byte, rid: u64) {
    reqEp == ep && (wholeEndpoint || rid == target)
  }

  function Cancel(s: Exporter, wholeEndpoint: bool, ep: byte, target: u64, reply: Token -> bool): Exporter {
    if s.state != Leased then s
    else
      var s1 := RetireFrom(s, ep, 0,
        (p: Pending) => Matches(wholeEndpoint, ep, target, p.req.sb.epAddr, p.req.requestId),
        Status.XFER_CANCELLED, true);
      if !s1.attached then s1
      else CancelFlights(s1, 0,
        (f: InFlight) => Matches(wholeEndpoint, ep, target, f.req.sb.epAddr, f.req.requestId), reply)
  }

  /** The second half of sweepDeadlines for one token: ask the port to stop it, or answer now. */
  function SweepAt(s: Exporter, t: Token, now: nat, reply: Token -> bool): (r: Exporter)
    ensures r.nextToken == s.nextToken
  {
    if !Overdue(s, t, now) then s
    else if s.attached && reply(t)
    then s.(port := CancelAnswered(s.port, t, true),
            inFlight := s.inFlight[t := s.inFlight[t].(cancelRequested := true)])
    else s.(inFlight := s.inFlight - {t},
            answers := s.answers + [MakeAnswer(s.inFlight[t], Status.XFER_TIMEOUT, 0, false, false, [])])
  }

  predicate Overdue(s: Exporter, t: Token, now: nat) {
    t in s.inFlight && Expired(s.inFlight[t].deadline, now) && !s.inFlight[t].cancelRequested
  }

  function SweepFlights(s: Exporter, t: Token, now: nat, reply: Token -> bool): Exporter
    decreases s.nextToken - t
  {
    if t >= s.nextToken then s else SweepFlights(SweepAt(s, t, now, reply), t + 1, now, reply)
  }

  function Sweep(s: Exporter, now: nat, reply: Token -> bool): Exporter {
    SweepFlights(
      RetireEach(s, ENDPOINTS, (p: Pending) => Expired(p.deadline, now), Status.XFER_TIMEOUT, false),
      0, now, reply)
  }

  function ClearHalt(s: Exporter, requestId: u64, ep: byte, reply: u16): Exporter {
    if s.state != Leased || !s.attached then s
    else
      var t := s.nextToken;
      if reply != Status.OK
      then s.(nextToken := t + 1, acks := s.acks + [Ack(t, requestId, reply)])
      else s.(nextToken := t + 1, verbs := s.verbs[t := Verb(requestId, ep)],
              port := s.port.(verbs := s.port.verbs + {t}))
  }

  // ---- failAllTransfers

  /** abortAll's callback; a late token is skipped and the endpoint table is left for later. */
  function AbortOne(s: Exporter, st: u16, o: Outcome): Exporter {
    if o.token in s.verbs then AckVerb(PortReported(s, o.token), o)
    else if o.token !in s.inFlight then PortReported(s, o.token)
    else Land(PortReported(s, o.token), o.token,
      MakeAnswer(s.inFlight[o.token], if o.status == Status.OK then st else o.status, o.actualLen, true, o.zlpSent, o.dataIn))
  }

  function AbortAll(s: Exporter, st: u16, os: seq<Outcome>): Exporter
    decreases |os|
  {
    if os == [] then s else AbortAll(AbortOne(s, st, os[0]), st, os[1..])
  }

  /** Answer locally whatever is still in flight once the port has reported everything. */
  function FailAt(s: Exporter, t: Token, st: u16): (r: Exporter)
    ensures r.nextToken == s.nextToken
  {
    if t !in s.inFlight then s
    else s.(inFlight := s.inFlight - {t},
            answers := s.answers + [MakeAnswer(s.inFlight[t], st, 0, true, false, [])])
  }

  function FailFlights(s: Exporter, t: Token, st: u16): Exporter
    decreases s.nextToken - t
  {
    if t >= s.nextToken then s else FailFlights(FailAt(s, t, st), t + 1, st)
  }

  /** The three passes of failAllTransfers: what the port holds, what it does not know, what is queued. */
  function FailEach(s: Exporter, st: u16, os: seq<Outcome>): Exporter {
    RetireEach(FailFlights(if s.attached then AbortAll(s, st, os) else s, 0, st), ENDPOINTS, (p: Pending) => true, st, true)
  }

  function Cleared(s: Exporter): Exporter {
    s.(inFlight := map[], busy := map[], queues := map[], verbs := map[])
  }

  function FailAll(s: Exporter, st: u16, os: seq<Outcome>): Exporter { Cleared(FailEach(s, st, os)) }

  /** The session moves to `state`, still holding the port or not. */
  function Enter(s: Exporter, state: State, attached: bool): Exporter { s.(state := state, attached := attached) }

  // ---------------------------------------------------------------- events and the port's contract

  datatype Event =
    | EIntake(now: nat, req: Intake)
    | ECancel(wholeEndpoint: bool, ep: byte, target: u64, mayCancel: Token -> bool)
    | EClearHalt(requestId: u64, ep: byte, halt: u16)
    | EAdmit(maySubmit: Token -> u16)
    | ECollect(polled: seq<Outcome>)
    | ESweep(sweptAt: nat, mayStop: Token -> bool)
    | EAttach
    | EDetach(drained: seq<Outcome>)
    | EOrphan(orphanStatus: u16, lost: seq<Outcome>)
    | EClose(goodbye: bool, closed: seq<Outcome>)

  /** poll(): tokens the port holds, each reported at most once. */
  ghost predicate LegalPoll(p: Port, os: seq<Outcome>) {
    && (forall i :: 0 <= i < |os| ==> os[i].token in p.outstanding || os[i].token in p.verbs)
    && (forall i, j :: 0 <= i < j < |os| ==> os[i].token != os[j].token)
  }

  /** abortAll(): every token the port holds, exactly once. */
  ghost predicate LegalAbort(p: Port, os: seq<Outcome>) {
    && LegalPoll(p, os)
    && (forall t :: t in p.outstanding || t in p.verbs ==> exists i :: 0 <= i < |os| && os[i].token == t)
  }

  /** cancel(): true only for a token that is outstanding. */
  ghost predicate LegalCancel(p: Port, reply: Token -> bool) {
    forall t :: reply(t) ==> t in p.outstanding
  }

  /** The port keeps its contract, and the session its own: what it hands the scheduler, when, and why it gives up. */
  ghost predicate Legal(s: Exporter, e: Event) {
    match e
    case EIntake(_, req) => s.state == Leased && s.attached
    case ECancel(_, _, _, reply) => LegalCancel(s.port, reply)
    case ECollect(os) => s.attached ==> LegalPoll(s.port, os)
    case ESweep(_, reply) => LegalCancel(s.port, reply)
    case EAttach => s.state == Idle
    case EDetach(os) => (s.state == Leased || s.state == Orphaned) && (s.attached ==> LegalAbort(s.port, os))
    case EOrphan(st, os) => st != Status.OK && (s.attached ==> LegalAbort(s.port, os))
    case EClose(_, os) => s.attached ==> LegalAbort(s.port, os)
    case _ => true
  }

  function Step(s: Exporter, e: Event): Exporter {
    match e
    case EIntake(now, req) => Enqueue(s, now, req)
    case ECancel(whole, ep, target, reply) => Cancel(s, whole, ep, target, reply)
    case EClearHalt(rid, ep, reply) => ClearHalt(s, rid, ep, reply)
    case EAdmit(reply) => Admit(s, reply)
    case ECollect(os) => Collect(s, os)
    case ESweep(now, reply) => Sweep(s, now, reply)
    case EAttach => s.(state := Leased, attached := true, port := FRESH_PORT.(accepted := s.port.accepted))
    case EDetach(os) => Enter(FailAll(s, Status.XFER_CANCELLED, os), Idle, false)
    case EOrphan(st, os) => Enter(FailAll(s, st, os), if s.state == Leased then Orphaned else s.state, s.attached)
    case EClose(goodbye, os) =>
      Enter(if s.attached then FailAll(s, Status.DETACHING, os) else s,
        if goodbye || s.state == Closed then Closed else Idle, false)
  }

  ghost predicate LegalRun(s: Exporter, es: seq<Event>)
    decreases |es|
  {
    es == [] || (Legal(s, es[0]) && LegalRun(Step(s, es[0]), es[1..]))
  }

  function Run(s: Exporter, es: seq<Event>): Exporter
    decreases |es|
  {
    if es == [] then s else Run(Step(s, es[0]), es[1..])
  }

  // ---------------------------------------------------------------- one pump

  /**
   * Everything one call of pump() meets: the peer's messages, up to one that is fatal and ends the
   * pump, and the port's replies. `silent` is what the lease clock says (Ownership.PumpOf).
   */
  datatype PumpInput = PumpInput(
    now: nat, messages: seq<Event>, fatal: bool, transportGone: bool, lost: seq<Outcome>,
    first: seq<Outcome>, maySubmit: Token -> u16, second: seq<Outcome>, mayStop: Token -> bool,
    silent: bool)

  predicate IsMessage(e: Event) {
    e.EIntake? || e.ECancel? || e.EClearHalt? || e.EAttach? || e.EDetach? || (e.EClose? && e.goodbye)
  }

  /** The peer is still owed an answer, so its silence proves nothing. */
  predicate Owes(s: Exporter) { s.inFlight != map[] || QueuedOn(s.queues, ENDPOINTS) != 0 }

  /** The state once the device has been served, before the deadlines: collect, admit, collect again. */
  function Worked(s: Exporter, i: PumpInput): Exporter { Collect(Admit(Collect(s, i.first), i.maySubmit), i.second) }

  /** The state once the device has been served. */
  function Served(s: Exporter, i: PumpInput): Exporter { Sweep(Worked(s, i), i.now, i.mayStop) }

  /** The steps one pump takes, in order. */
  function PumpEvents(s: Exporter, i: PumpInput): seq<Event> {
    if i.fatal then i.messages
    else if i.transportGone then i.messages + [EOrphan(Status.TRANSPORT_LOST, i.lost)]
    else
      var served := i.messages + [ECollect(i.first), EAdmit(i.maySubmit), ECollect(i.second), ESweep(i.now, i.mayStop)];
      var r := Served(Run(s, i.messages), i);
      if !Owes(r) && r.state == Leased && i.silent then served + [EOrphan(Status.XFER_TIMEOUT, i.lost)] else served
  }
}
