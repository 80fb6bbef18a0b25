/**
 * The importer's data plane as a state machine: airusb/session/ImporterDataPlane.cpp over
 * airusb/core/RequestTable.cpp and the Reassembler. The logs at the end of the state say
 * what became of every accepted submit.
 */
module Importing {
  import opened Wire
  import Status
  import opened Codec
  import opened Validate
  import opened Segmentation
  import opened Reassembly
  import opened Scheduler

  datatype Config = Config(attachId: u32, attachSlot: byte, maxInFlight: nat, maxTransferBytes: u32)

  /** The attach, endpoint, type, direction and length that a COMPLETE echoes. */
  datatype Identity = Identity(attachId: u32, epAddr: byte, xferType: byte, dir: byte, requestedLen: u32)

  datatype Request = Request(key: Key, id: Identity, deadline: Deadline)

  /** What a segmented reply's first record said; `echo` is the identity it carried. */
  datatype PendingReply = PendingReply(status: u16, actualLen: u32, shortXfer: bool, echo: Identity)

  /** One call of onComplete. `echo` is the identity of the peer's reply, None for a local outcome. */
  datatype Delivery = Delivery(req: Request, status: u16, actualLen: u32, shortXfer: bool, data: Bytes, echo: Option<Identity>)

  datatype Importer = Importer(
    table: map<Key, Request>, lastSeen: map<u16, nat>, nextId: map<u16, nat>,
    reasm: Reasm, replies: map<Key, PendingReply>,
    accepted: seq<Request>, delivered: seq<Delivery>, cancelled: seq<Key>, dropped: seq<Key>)

  const FRESH := Importer(map[], map[], map[], EMPTY, map[], [], [], [], [])

  /** The arena is bounded by what admission can hold at once. */
  function LimitsOf(c: Config): Limits {
    var n := if c.maxInFlight == 0 then 1 else c.maxInFlight;
    Limits(c.maxTransferBytes, c.maxTransferBytes * n, n)
  }

  // ---------------------------------------------------------------- submit

  datatype Call = Call(epAddr: byte, xferType: byte, dir: byte, bufferLen: u32, setup: u64, dataOut: Bytes, timeoutMs: u32)

  function ChannelFor(slot: byte, ep: byte): u16 { slot * 0x100 + ep }

  function IdAfter(nextId: map<u16, nat>, channel: u16): nat {
    if channel in nextId && nextId[channel] != 0 then nextId[channel] else 1
  }

  function BodyOf(call: Call): SubmitBody {
    SubmitBody(call.epAddr, call.xferType, call.dir, 0, call.bufferLen, call.timeoutMs, 0, 0, 0, call.setup, 0)
  }

  /** The bytes that go out with the SUBMIT: an IN transfer sends none. */
  function OutData(call: Call): Bytes { if call.dir == DIR_OUT then call.dataOut else [] }

  function SubmitHeader(c: Config, key: Key): Header {
    Header(T_SUBMIT, 0, key.channel, 0, c.attachId, 0, key.requestId, 0, 0, 0)
  }

  function MaxSegment(maxPlain: u32): u32
    requires maxPlain > HEADER_SIZE + BODY_SUBMIT
  {
    maxPlain - HEADER_SIZE - BODY_SUBMIT
  }

  /** The records one submit becomes. */
  ghost function SubmitRecords(c: Config, call: Call, key: Key, maxPlain: u32): seq<Bytes>
    requires maxPlain > HEADER_SIZE + BODY_SUBMIT
  {
    Records(SubmitHeader(c, key), SubmitBytes(BodyOf(call)), OutData(call), MaxSegment(maxPlain))
  }

  function RequestFor(c: Config, call: Call, key: Key, now: nat): Request {
    Request(key, Identity(c.attachId, call.epAddr, call.xferType, call.dir, call.bufferLen), AfterMs(now, call.timeoutMs))
  }

  datatype Submitted = Submitted(s: Importer, status: u16)

  /** RequestTable::add would take this request. */
  predicate Addable(s: Importer, key: Key) {
    key !in s.table && (key.channel in s.lastSeen ==> key.requestId > s.lastSeen[key.channel])
  }

  function NewKey(c: Config, s: Importer, call: Call): Key
    requires IdAfter(s.nextId, ChannelFor(c.attachSlot, call.epAddr)) < 0x1_0000_0000_0000_0000
  {
    var channel := ChannelFor(c.attachSlot, call.epAddr);
    Key(channel, IdAfter(s.nextId, channel))
  }

  /** Request ids are 64 bits and have not run out. */
  predicate IdsLast(c: Config, s: Importer, call: Call) {
    IdAfter(s.nextId, ChannelFor(c.attachSlot, call.epAddr)) < 0x1_0000_0000_0000_0000
  }

  /** The id `key` has been handed out and, if `add` took it, seen. */
  function Numbered(s: Importer, key: Key): Importer { s.(nextId := s.nextId[key.channel := key.requestId + 1]) }

  function Seen(s: Importer, key: Key): Importer { s.(lastSeen := s.lastSeen[key.channel := key.requestId]) }

  function Tracked(s: Importer, r: Request): Importer {
    s.(table := s.table[r.key := r], accepted := s.accepted + [r])
  }

  /** submit(); `emitted` is what sending the records came to. */
  function Submit(c: Config, s: Importer, call: Call, now: nat, linkUp: bool, maxPlain: u32, emitted: u16): Submitted
    requires IdsLast(c, s, call)
  {
    if !linkUp then Submitted(s, Status.TRANSPORT_LOST)
    else if |s.table| >= c.maxInFlight then Submitted(s, Status.BUSY)
    else
      var key := NewKey(c, s, call);
      var n := Numbered(s, key);
      if maxPlain <= HEADER_SIZE + BODY_SUBMIT || !Addable(n, key) then Submitted(n, Status.INTERNAL)
      else if emitted != Status.OK then Submitted(Seen(n, key), emitted)
      else Submitted(Tracked(Seen(n, key), RequestFor(c, call, key, now)), Status.OK)
  }

  // ---------------------------------------------------------------- replies

  datatype Handled = Handled(s: Importer, status: u16)

  function Forgotten(s: Importer, key: Key): Importer {
    s.(replies := s.replies - {key}, reasm := Drop(s.reasm, key))
  }

  /** Retire a request and tell its owner. */
  function Deliver(s: Importer, d: Delivery): Importer {
    s.(table := s.table - {d.req.key}, delivered := s.delivered + [d])
  }

  /** drop(): the request leaves the table and nobody is told. */
  function DropRequest(s: Importer, key: Key): Importer {
    var f := Forgotten(s, key);
    if key in s.table then f.(table := s.table - {key}, dropped := s.dropped + [key]) else f
  }

  function EchoOf(h: Header, cb: CompleteBody): Identity {
    Identity(h.attachId, cb.epAddr, cb.xferType, cb.dir, cb.requestedLen)
  }

  /** A whole reply in one record. */
  function SingleReply(s: Importer, req: Request, h: Header, cb: CompleteBody, chunk: Bytes): Handled {
    if req.id.dir == DIR_IN && (cb.payloadLen > req.id.requestedLen || cb.payloadLen > |chunk|)
    then Handled(s, Status.MALFORMED_FRAME)
    else
      var data := if req.id.dir == DIR_IN then chunk[..cb.payloadLen] else [];
      Handled(Deliver(s, Delivery(req, h.status, cb.actualLen, cb.IsShort(), data, Some(EchoOf(h, cb)))), Status.OK)
  }

  function Accepting(s: Importer, a: Accepted): Importer { s.(reasm := a.r) }

  /** The first record of a segmented reply. */
  function FirstReply(c: Config, s: Importer, h: Header, cb: CompleteBody, chunk: Bytes): Handled {
    var key := KeyOf(h);
    var a := Accept(LimitsOf(c), s.reasm, h, chunk);
    var noted := s.(replies := s.replies[key := PendingReply(h.status, cb.actualLen, cb.IsShort(), EchoOf(h, cb))], reasm := a.r);
    if a.verdict.Rejected? then Handled(DropRequest(noted, key), a.verdict.error) else Handled(noted, Status.OK)
  }

  function HandleComplete(c: Config, s: Importer, h: Header, body: Bytes): Handled {
    var parsed := ParseComplete(body);
    if parsed.None? then Handled(s, Status.MALFORMED_FRAME)
    else
      var cb := parsed.value;
      var key := KeyOf(h);
      if CompleteRule(h, cb) != Status.OK then Handled(s, CompleteRule(h, cb))
      else if key !in s.table then Handled(s, Status.OK)
      else if EchoOf(h, cb) != s.table[key].id || cb.actualLen > s.table[key].id.requestedLen
      then Handled(s, Status.MALFORMED_FRAME)
      else if !h.SegMore() then SingleReply(s, s.table[key], h, cb, body[BODY_COMPLETE..])
      else FirstReply(c, s, h, cb, body[BODY_COMPLETE..])
  }

  /** A segmented reply is whole: `full` are its bytes. */
  function WholeReply(s: Importer, key: Key, full: Bytes): Handled
    requires key in s.replies
  {
    var pr := s.replies[key];
    var t := s.(replies := s.replies - {key}, reasm := s.reasm.(parked := None));
    if key !in s.table then Handled(t, Status.OK)
    else
      var req := s.table[key];
      if pr.actualLen > req.id.requestedLen then Handled(t, Status.MALFORMED_FRAME)
      else Handled(Deliver(t, Delivery(req, pr.status, pr.actualLen, pr.shortXfer,
                      if req.id.dir == DIR_IN then full else [], Some(pr.echo))), Status.OK)
  }

  /** A continuation the reassembler took, finished or refused. */
  function Continued(s: Importer, key: Key, a: Accepted): Handled
    requires key in s.replies
  {
    match a.verdict
    case Rejected(error) => Handled(DropRequest(Accepting(s, a), key), error)
    case NeedMore => Handled(Accepting(s, a), Status.OK)
    case Complete => WholeReply(Accepting(s, a), key, Take(a.r, key).0)
  }

  function HandleData(c: Config, s: Importer, h: Header, available: nat, body: Bytes): Handled
    requires h.typ == T_DATA
  {
    var key := KeyOf(h);
    if HeaderRule(h, available, c.maxTransferBytes) != Status.OK
    then Handled(s, HeaderRule(h, available, c.maxTransferBytes))
    else if key !in s.replies then Handled(s, Status.MALFORMED_FRAME)
    else if key in s.table && h.attachId != s.table[key].id.attachId then Handled(s, Status.MALFORMED_FRAME)
    else Continued(s, key, Accept(LimitsOf(c), s.reasm, h, body))
  }

  function Dispatch(c: Config, s: Importer, h: Header, available: nat, body: Bytes): Handled {
    if h.typ == T_COMPLETE then HandleComplete(c, s, h, body)
    else if h.typ == T_DATA then HandleData(c, s, h, available, body)
    else if h.typ == T_ERROR then Handled(s, if h.status == Status.OK then Status.MALFORMED_FRAME else h.status)
    else Handled(s, Status.OK)
  }

  /** A record split at its header; `available` is what follows the header. */
  datatype Frame = Frame(h: Header, available: nat, body: Bytes)

  function Unframe(rec: Bytes): Option<Frame> {
    var parsed := ParseHeader(rec);
    if parsed.None? || |rec| - HEADER_SIZE < parsed.value.bodyLen then None
    else Some(Frame(parsed.value, |rec| - HEADER_SIZE, rec[HEADER_SIZE..HEADER_SIZE + parsed.value.bodyLen]))
  }

  function Unframed(c: Config, s: Importer, f: Option<Frame>): Handled {
    if f.None? then Handled(s, Status.MALFORMED_FRAME) else Dispatch(c, s, f.value.h, f.value.available, f.value.body)
  }

  /** One record off the link. */
  function Receive(c: Config, s: Importer, rec: Bytes): Handled { Unframed(c, s, Unframe(rec)) }

  // ---------------------------------------------------------------- local outcomes

  /** The requests `gone` picks, in the order the table is walked. */
  function Picked(table: map<Key, Request>, order: seq<Key>, gone: Request -> bool): seq<Request> {
    if order == [] then []
    else (if order[0] in table && gone(table[order[0]]) then [table[order[0]]] else []) + Picked(table, order[1..], gone)
  }

  function Without(table: map<Key, Request>, gone: Request -> bool): map<Key, Request> {
    map k | k in table && !gone(table[k]) :: table[k]
  }

  function LocalOutcome(r: Request, st: u16): Delivery { Delivery(r, st, 0, false, [], None) }

  function Told(s: Importer, r: Request, st: u16): Importer { s.(delivered := s.delivered + [LocalOutcome(r, st)]) }

  function TellEach(s: Importer, rs: seq<Request>, st: u16): Importer
    decreases |rs|
  {
    if rs == [] then s else TellEach(Told(Forgotten(s, rs[0].key), rs[0], st), rs[1..], st)
  }

  function Sweep(s: Importer, now: nat, order: seq<Key>): Importer {
    var gone := (r: Request) => Expired(r.deadline, now);
    TellEach(s.(table := Without(s.table, gone)), Picked(s.table, order, gone), Status.XFER_TIMEOUT)
  }

  function Cancel(s: Importer, key: Key): Importer {
    var f := Forgotten(s, key);
    if key in s.table then f.(table := s.table - {key}, cancelled := s.cancelled + [key]) else f
  }

  function CompleteAll(c: Config, s: Importer, with: u16, order: seq<Key>): Importer {
    var gone := (r: Request) => r.id.attachId == c.attachId;
    TellEach(s.(table := Without(s.table, gone), replies := map[], reasm := EMPTY), Picked(s.table, order, gone), with)
  }

  // ---------------------------------------------------------------- runs

  datatype Event =
    | ESubmit(call: Call, now: nat, linkUp: bool, maxPlain: u32, emitted: u16)
    | EReceive(rec: Bytes)
    | ESweep(sweptAt: nat, order: seq<Key>)
    | ECancel(key: Key)
    | ECompleteAll(with: u16, drainOrder: seq<Key>)

  /** A walk over a hash table: every key once, in some order. */
  predicate Walks(order: seq<Key>, table: map<Key, Request>) {
    && (forall k :: k in table ==> k in order) && (forall k :: k in order ==> k in table)
    && forall i, j :: 0 <= i < j < |order| ==> order[i] != order[j]
  }

  predicate Possible(c: Config, s: Importer, e: Event) {
    match e
    case ESubmit(call, _, _, _, _) => IdsLast(c, s, call)
    case ESweep(_, order) => Walks(order, s.table)
    case ECompleteAll(_, order) => Walks(order, s.table)
    case _ => true
  }

  function Step(c: Config, s: Importer, e: Event): Importer
    requires Possible(c, s, e)
  {
    match e
    case ESubmit(call, now, linkUp, maxPlain, emitted) => Submit(c, s, call, now, linkUp, maxPlain, emitted).s
    case EReceive(rec) => Receive(c, s, rec).s
    case ESweep(now, order) => Sweep(s, now, order)
    case ECancel(key) => Cancel(s, key)
    case ECompleteAll(with, order) => CompleteAll(c, s, with, order)
  }

  predicate PossibleRun(c: Config, s: Importer, es: seq<Event>)
    decreases |es|
  {
    es == [] || (Possible(c, s, es[0]) && PossibleRun(c, Step(c, s, es[0]), es[1..]))
  }

  function Run(c: Config, s: Importer, es: seq<Event>): Importer
    requires PossibleRun(c, s, es)
    decreases |es|
  {
    if es == [] then s else Run(c, Step(c, s, es[0]), es[1..])
  }
}
