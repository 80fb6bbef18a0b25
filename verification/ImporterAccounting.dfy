/** What every run of the importer's data plane keeps: who was answered, once, and with what. */
module ImporterAccounting {
  import opened Wire
  import Status
  import opened Codec
  import opened Validate
  import opened Reassembly
  import Scheduler
  import opened Importing

  // ---------------------------------------------------------------- the accounts

  function KeysOf(rs: seq<Request>): seq<Key> {
    seq(|rs|, (i: int) requires 0 <= i < |rs| => rs[i].key)
  }

  function DeliveredKeys(ds: seq<Delivery>): seq<Key> {
    seq(|ds|, (i: int) requires 0 <= i < |ds| => ds[i].req.key)
  }

  predicate Distinct(rs: seq<Request>) {
    forall i, j :: 0 <= i < j < |rs| ==> rs[i].key != rs[j].key
  }

  /** Every accepted submit is in exactly one place. */
  ghost predicate Balanced(accepted: seq<Request>, delivered: seq<Delivery>, cancelled: seq<Key>, dropped: seq<Key>, live: set<Key>) {
    multiset(KeysOf(accepted)) == multiset(DeliveredKeys(delivered)) + multiset(cancelled) + multiset(dropped) + multiset(live)
  }

  /** Requests still waiting, and requests delivered, are ones that were accepted. */
  ghost predicate Genuine(accepted: seq<Request>, delivered: seq<Delivery>, table: map<Key, Request>) {
    && (forall k :: k in table ==> table[k].key == k && table[k] in accepted)
    && (forall i :: 0 <= i < |delivered| ==> delivered[i].req in accepted)
  }

  ghost predicate Accounts(s: Importer) {
    && Distinct(s.accepted)
    && Balanced(s.accepted, s.delivered, s.cancelled, s.dropped, s.table.Keys)
    && Genuine(s.accepted, s.delivered, s.table)
  }

  lemma KeysGrow(rs: seq<Request>, r: Request)
    ensures KeysOf(rs + [r]) == KeysOf(rs) + [r.key]
  {}

  lemma DeliveredGrow(ds: seq<Delivery>, d: Delivery)
    ensures DeliveredKeys(ds + [d]) == DeliveredKeys(ds) + [d.req.key]
  {}

  lemma DeliverBalanced(accepted: seq<Request>, delivered: seq<Delivery>, cancelled: seq<Key>, dropped: seq<Key>, live: set<Key>, d: Delivery)
    requires Balanced(accepted, delivered, cancelled, dropped, live) && d.req.key in live
    ensures Balanced(accepted, delivered + [d], cancelled, dropped, live - {d.req.key})
  {
    DeliveredGrow(delivered, d);
    assert multiset(live) == multiset(live - {d.req.key}) + multiset{d.req.key};
  }

  /** Retiring a request with one delivery keeps the accounts. */
  lemma DeliverAccounts(s: Importer, d: Delivery)
    requires Accounts(s) && d.req.key in s.table && s.table[d.req.key] == d.req
    ensures Accounts(Deliver(s, d))
  {
    DeliverBalanced(s.accepted, s.delivered, s.cancelled, s.dropped, s.table.Keys, d);
    assert Deliver(s, d).table.Keys == s.table.Keys - {d.req.key};
  }

  lemma RemoveBalanced(accepted: seq<Request>, delivered: seq<Delivery>, cancelled: seq<Key>, dropped: seq<Key>, live: set<Key>, key: Key)
    requires Balanced(accepted, delivered, cancelled, dropped, live) && key in live
    ensures Balanced(accepted, delivered, cancelled + [key], dropped, live - {key})
    ensures Balanced(accepted, delivered, cancelled, dropped + [key], live - {key})
  {
    assert multiset(live) == multiset(live - {key}) + multiset{key};
  }

  lemma RemoveGenuine(accepted: seq<Request>, delivered: seq<Delivery>, table: map<Key, Request>, key: Key)
    requires Genuine(accepted, delivered, table)
    ensures Genuine(accepted, delivered, table - {key}) && (table - {key}).Keys == table.Keys - {key}
  {}

  /** The accounts after `key` left the table for the cancelled or the dropped. */
  lemma RemoveAccounts(s: Importer, t: Importer, key: Key)
    requires Accounts(s) && key in s.table && t.table == s.table - {key} && t.accepted == s.accepted && t.delivered == s.delivered
    requires (t.cancelled == s.cancelled + [key] && t.dropped == s.dropped)
             || (t.cancelled == s.cancelled && t.dropped == s.dropped + [key])
    ensures Accounts(t)
  {
    RemoveBalanced(s.accepted, s.delivered, s.cancelled, s.dropped, s.table.Keys, key);
    RemoveGenuine(s.accepted, s.delivered, s.table, key);
  }

  lemma TrackBalanced(accepted: seq<Request>, delivered: seq<Delivery>, cancelled: seq<Key>, dropped: seq<Key>, live: set<Key>, r: Request)
    requires Balanced(accepted, delivered, cancelled, dropped, live) && r.key !in live
    ensures Balanced(accepted + [r], delivered, cancelled, dropped, live + {r.key})
  {
    KeysGrow(accepted, r);
    assert multiset(live + {r.key}) == multiset(live) + multiset{r.key};
  }

  lemma TrackAccounts(s: Importer, r: Request)
    requires Accounts(s) && r.key !in s.table
    requires forall i :: 0 <= i < |s.accepted| ==> s.accepted[i].key != r.key
    ensures Accounts(Tracked(s, r))
  {
    TrackBalanced(s.accepted, s.delivered, s.cancelled, s.dropped, s.table.Keys, r);
    assert s.table[r.key := r].Keys == s.table.Keys + {r.key};
    assert Distinct(s.accepted + [r]);
  }

  // ---------------------------------------------------------------- ids, replies, fidelity

  /** Ids are handed out in order on every channel, so no key comes back. */
  ghost predicate Numbering(c: Config, accepted: seq<Request>, lastSeen: map<u16, nat>, nextId: map<u16, nat>) {
    && (forall i :: 0 <= i < |accepted| ==>
          accepted[i].key.requestId < IdAfter(nextId, accepted[i].key.channel) && accepted[i].id.attachId == c.attachId)
    && (forall ch :: ch in lastSeen ==> lastSeen[ch] < IdAfter(nextId, ch))
  }

  predicate OrdinaryIn(id: Identity) { id.dir == DIR_IN && id.xferType != ISOCHRONOUS }

  /** A reply under reassembly belongs to the request that is still waiting for it. */
  ghost predicate ReplyOk(id: Identity, pr: PendingReply, total: u32) {
    && pr.echo == id && pr.actualLen <= id.requestedLen
    && (OrdinaryIn(id) ==> pr.actualLen == total)
  }

  ghost predicate Replies(table: map<Key, Request>, replies: map<Key, PendingReply>, partial: map<Key, Partial>, nextId: map<u16, nat>) {
    && replies.Keys == partial.Keys
    && (forall k :: k in replies || k in table ==> k.requestId < IdAfter(nextId, k.channel))
    && (forall k :: k in replies && k in table ==> ReplyOk(table[k].id, replies[k], partial[k].totalLen))
  }

  /** What a delivered outcome says of its request. */
  ghost predicate Faithful(d: Delivery) {
    if d.echo.Some? then
      && d.echo.value == d.req.id && d.actualLen <= d.req.id.requestedLen
      && (OrdinaryIn(d.req.id) ==> |d.data| == d.actualLen)
      && (d.req.id.dir != DIR_IN ==> d.data == [])
    else d.data == [] && d.actualLen == 0
  }

  ghost predicate AllFaithful(ds: seq<Delivery>) { forall i :: 0 <= i < |ds| ==> Faithful(ds[i]) }

  /** The logs and the request table. */
  ghost predicate Books(c: Config, s: Importer) {
    Accounts(s) && Numbering(c, s.accepted, s.lastSeen, s.nextId) && AllFaithful(s.delivered)
  }

  /** The replies under reassembly. */
  ghost predicate Wiring(c: Config, s: Importer) {
    Replies(s.table, s.replies, s.reasm.partial, s.nextId) && Reassembly.Valid(LimitsOf(c), s.reasm)
  }

  ghost predicate Inv(c: Config, s: Importer) { Books(c, s) && Wiring(c, s) }

  lemma InitialInv(c: Config)
    ensures Inv(c, FRESH)
  {
    assert Sizes(EMPTY.partial) == map[];
  }

  // ---------------------------------------------------------------- submit

  /** An id taken from a channel is new there: the next one is higher and every other channel is as it was. */
  lemma IdsRise(nextId: map<u16, nat>, key: Key)
    requires key.requestId == IdAfter(nextId, key.channel)
    ensures var n := nextId[key.channel := key.requestId + 1];
            IdAfter(n, key.channel) == key.requestId + 1 && forall ch :: IdAfter(n, ch) >= IdAfter(nextId, ch)
  {}

  lemma NumberedBooks(c: Config, s: Importer, key: Key)
    requires Books(c, s) && key.requestId == IdAfter(s.nextId, key.channel)
    ensures Books(c, Numbered(s, key)) && Books(c, Seen(Numbered(s, key), key))
    ensures Addable(Numbered(s, key), key)
    ensures forall i :: 0 <= i < |s.accepted| ==> s.accepted[i].key != key
  {
    IdsRise(s.nextId, key);
  }

  lemma NumberedWiring(c: Config, s: Importer, key: Key)
    requires Wiring(c, s) && key.requestId == IdAfter(s.nextId, key.channel)
    ensures Wiring(c, Numbered(s, key)) && Wiring(c, Seen(Numbered(s, key), key)) && key !in s.replies
  {
    IdsRise(s.nextId, key);
  }

  lemma TrackedBooks(c: Config, s: Importer, r: Request)
    requires Books(c, s) && r.key !in s.table && r.id.attachId == c.attachId
    requires r.key.requestId < IdAfter(s.nextId, r.key.channel)
    requires forall i :: 0 <= i < |s.accepted| ==> s.accepted[i].key != r.key
    ensures Books(c, Tracked(s, r))
  {
    TrackAccounts(s, r);
  }

  lemma SubmitBooks(c: Config, s: Importer, call: Call, now: nat, linkUp: bool, maxPlain: u32, emitted: u16)
    requires Books(c, s) && IdsLast(c, s, call)
    ensures Books(c, Submit(c, s, call, now, linkUp, maxPlain, emitted).s)
  {
    var key := NewKey(c, s, call);
    NumberedBooks(c, s, key);
    IdsRise(s.nextId, key);
    var n := Seen(Numbered(s, key), key);
    assert n.table == s.table && n.accepted == s.accepted;
    TrackedBooks(c, n, RequestFor(c, call, key, now));
  }

  lemma TrackedWiring(c: Config, s: Importer, r: Request)
    requires Wiring(c, s) && r.key !in s.replies && r.key.requestId < IdAfter(s.nextId, r.key.channel)
    ensures Wiring(c, Tracked(s, r))
  {}

  lemma SubmitWiring(c: Config, s: Importer, call: Call, now: nat, linkUp: bool, maxPlain: u32, emitted: u16)
    requires Wiring(c, s) && IdsLast(c, s, call)
    ensures Wiring(c, Submit(c, s, call, now, linkUp, maxPlain, emitted).s)
  {
    var key := NewKey(c, s, call);
    NumberedWiring(c, s, key);
    IdsRise(s.nextId, key);
    TrackedWiring(c, Seen(Numbered(s, key), key), RequestFor(c, call, key, now));
  }

  /** The id is new, so the table takes it: `submit` never fails on its own numbering. */
  lemma SubmitNeverInternal(c: Config, s: Importer, call: Call, now: nat, linkUp: bool, maxPlain: u32, emitted: u16)
    requires Inv(c, s) && IdsLast(c, s, call)
    ensures Submit(c, s, call, now, linkUp, maxPlain, emitted).status ==
            if !linkUp then Status.TRANSPORT_LOST
            else if |s.table| >= c.maxInFlight then Status.BUSY
            else if maxPlain <= HEADER_SIZE + BODY_SUBMIT then Status.INTERNAL
            else emitted
  {
    NumberedBooks(c, s, NewKey(c, s, call));
  }

  // ---------------------------------------------------------------- replies and the wiring

  /** What the reassembler made of a record that arrived in state `s`. */
  ghost predicate Outcome(c: Config, s: Importer, h: Header, chunk: Bytes, a: Accepted) {
    Effect(LimitsOf(c), s.reasm, h, chunk, a) && Reassembly.Valid(LimitsOf(c), a.r)
  }

  lemma AcceptOutcome(c: Config, s: Importer, h: Header, chunk: Bytes)
    requires Reassembly.Valid(LimitsOf(c), s.reasm)
    ensures Outcome(c, s, h, chunk, Accept(LimitsOf(c), s.reasm, h, chunk))
  {
    AcceptEffect(LimitsOf(c), s.reasm, h, chunk);
    AcceptKeepsLimits(LimitsOf(c), s.reasm, h, chunk);
  }

  /** A COMPLETE that answers the request it names. */
  ghost predicate Answers(s: Importer, h: Header, cb: CompleteBody) {
    && CompleteRule(h, cb) == Status.OK && KeyOf(h) in s.table
    && EchoOf(h, cb) == s.table[KeyOf(h)].id && cb.actualLen <= s.table[KeyOf(h)].id.requestedLen
  }

  function NoteOf(h: Header, cb: CompleteBody): PendingReply {
    PendingReply(h.status, cb.actualLen, cb.IsShort(), EchoOf(h, cb))
  }

  /** The reply table follows the reassembler when a COMPLETE opens or continues a reply. */
  lemma NotedReplies(c: Config, s: Importer, h: Header, cb: CompleteBody, chunk: Bytes, a: Accepted)
    requires Wiring(c, s) && Answers(s, h, cb) && Outcome(c, s, h, chunk, a) && a.verdict == NeedMore
    ensures Replies(s.table, s.replies[KeyOf(h) := NoteOf(h, cb)], a.r.partial, s.nextId)
  {
    var key, replies := KeyOf(h), s.replies[KeyOf(h) := NoteOf(h, cb)];
    forall k ensures k in replies <==> k in a.r.partial {
      if k != key { assert Undisturbed(s.reasm, a.r, k); }
    }
    forall k | k in replies && k in s.table ensures ReplyOk(s.table[k].id, replies[k], a.r.partial[k].totalLen) {
      if k != key { assert Undisturbed(s.reasm, a.r, k); }
    }
  }

  /** Everything about `key` goes; the replies on other keys stay as they are. */
  lemma RepliesShrink(table: map<Key, Request>, replies: map<Key, PendingReply>, r: Reasm, nextId: map<u16, nat>,
                      table': map<Key, Request>, r': Reasm, key: Key)
    requires Replies(table, replies, r.partial, nextId)
    requires forall k :: k in table' ==> k in table && table'[k] == table[k]
    requires key !in r'.partial && forall k :: k != key ==> Undisturbed(r, r', k)
    ensures Replies(table', replies - {key}, r'.partial, nextId)
  {
    forall k ensures k in replies - {key} <==> k in r'.partial {
      if k != key { assert Undisturbed(r, r', k); }
    }
    assert (replies - {key}).Keys == r'.partial.Keys;
    forall k | k in replies - {key} && k in table' ensures ReplyOk(table'[k].id, (replies - {key})[k], r'.partial[k].totalLen) {
      assert Undisturbed(r, r', k) && ReplyOk(table[k].id, replies[k], r.partial[k].totalLen);
    }
  }

  /** A request and its reply are gone. */
  lemma GoneWiring(c: Config, s: Importer, r: Reasm, key: Key, t: Importer)
    requires Wiring(c, s) && Reassembly.Valid(LimitsOf(c), r) && (forall k :: k != key ==> Undisturbed(s.reasm, r, k))
    requires t.replies == s.replies - {key} && t.reasm == Drop(r, key) && t.nextId == s.nextId
    requires forall k :: k in t.table ==> k in s.table && t.table[k] == s.table[k]
    ensures Wiring(c, t)
  {
    DropIsExact(LimitsOf(c), r, key);
    forall k | k != key ensures Undisturbed(s.reasm, t.reasm, k) { assert Undisturbed(s.reasm, r, k); }
    RepliesShrink(s.table, s.replies, s.reasm, s.nextId, t.table, t.reasm, key);
  }

  lemma FirstReplyWiring(c: Config, s: Importer, h: Header, cb: CompleteBody, chunk: Bytes)
    requires Wiring(c, s) && Answers(s, h, cb) && h.SegMore()
    ensures Wiring(c, FirstReply(c, s, h, cb, chunk).s)
  {
    var a := Accept(LimitsOf(c), s.reasm, h, chunk);
    AcceptOutcome(c, s, h, chunk);
    FirstReplyWiringFor(c, s, h, cb, chunk, a);
  }

  /** FirstReply, given what the reassembler made of the record. */
  function Noted(s: Importer, h: Header, cb: CompleteBody, a: Accepted): Importer {
    s.(replies := s.replies[KeyOf(h) := NoteOf(h, cb)], reasm := a.r)
  }

  /** The wiring only cares that the table shrank. */
  lemma ShrunkWiring(c: Config, s: Importer, t: Importer)
    requires Wiring(c, s) && t.replies == s.replies && t.reasm == s.reasm && t.nextId == s.nextId
    requires forall k :: k in t.table ==> k in s.table && t.table[k] == s.table[k]
    ensures Wiring(c, t)
  {}

  lemma RefusedWiring(c: Config, s: Importer, r: Reasm, replies: map<Key, PendingReply>, key: Key)
    requires Wiring(c, s) && Reassembly.Valid(LimitsOf(c), r) && (forall k :: k != key ==> Undisturbed(s.reasm, r, k))
    requires replies - {key} == s.replies - {key}
    ensures Wiring(c, DropRequest(s.(replies := replies, reasm := r), key))
  {
    var t := Forgotten(s.(replies := replies, reasm := r), key);
    GoneWiring(c, s, r, key, t);
    ShrunkWiring(c, t, DropRequest(s.(replies := replies, reasm := r), key));
  }

  lemma FirstReplyWiringFor(c: Config, s: Importer, h: Header, cb: CompleteBody, chunk: Bytes, a: Accepted)
    requires Wiring(c, s) && Answers(s, h, cb) && h.SegMore() && Outcome(c, s, h, chunk, a)
    ensures Wiring(c, if a.verdict.Rejected? then DropRequest(Noted(s, h, cb, a), KeyOf(h)) else Noted(s, h, cb, a))
  {
    if a.verdict.Rejected? {
      RefusedWiring(c, s, a.r, s.replies[KeyOf(h) := NoteOf(h, cb)], KeyOf(h));
    } else {
      NotedReplies(c, s, h, cb, chunk, a);
    }
  }

  lemma HandleCompleteWiring(c: Config, s: Importer, h: Header, body: Bytes)
    requires Wiring(c, s)
    ensures Wiring(c, HandleComplete(c, s, h, body).s)
  {
    var parsed := ParseComplete(body);
    if parsed.Some? && Answers(s, h, parsed.value) && h.SegMore() {
      FirstReplyWiring(c, s, h, parsed.value, body[BODY_COMPLETE..]);
    }
  }

  /** A reply that is still growing stays with its request. */
  lemma GrowingWiring(c: Config, s: Importer, h: Header, body: Bytes, a: Accepted)
    requires Wiring(c, s) && KeyOf(h) in s.replies && Outcome(c, s, h, body, a) && a.verdict == NeedMore
    ensures Wiring(c, Accepting(s, a))
  {
    forall k
      ensures k in a.r.partial <==> k in s.reasm.partial
      ensures k in a.r.partial ==> a.r.partial[k].totalLen == s.reasm.partial[k].totalLen
    {
      if k != KeyOf(h) { assert Undisturbed(s.reasm, a.r, k); }
    }
    assert a.r.partial.Keys == s.reasm.partial.Keys;
  }

  lemma ContinuedWiring(c: Config, s: Importer, h: Header, body: Bytes, a: Accepted)
    requires Wiring(c, s) && KeyOf(h) in s.replies && Outcome(c, s, h, body, a)
    ensures Wiring(c, Continued(s, KeyOf(h), a).s)
  {
    var t := Continued(s, KeyOf(h), a).s;
    match a.verdict
    case Rejected(_) => RefusedWiring(c, s, a.r, s.replies, KeyOf(h));
    case NeedMore => GrowingWiring(c, s, h, body, a);
    case Complete =>
      var r := a.r.(parked := None);
      forall k | k != KeyOf(h) ensures Undisturbed(s.reasm, r, k) { assert Undisturbed(s.reasm, a.r, k); }
      GoneWiring(c, s, r, KeyOf(h), t);
  }

  lemma HandleDataWiring(c: Config, s: Importer, h: Header, available: nat, body: Bytes)
    requires Wiring(c, s) && h.typ == T_DATA
    ensures Wiring(c, HandleData(c, s, h, available, body).s)
  {
    if KeyOf(h) in s.replies {
      AcceptOutcome(c, s, h, body);
      ContinuedWiring(c, s, h, body, Accept(LimitsOf(c), s.reasm, h, body));
    }
  }

  lemma DispatchWiring(c: Config, s: Importer, h: Header, available: nat, body: Bytes)
    requires Wiring(c, s)
    ensures Wiring(c, Dispatch(c, s, h, available, body).s)
  {
    if h.typ == T_COMPLETE { HandleCompleteWiring(c, s, h, body); }
    else if h.typ == T_DATA { HandleDataWiring(c, s, h, available, body); }
  }

  // ---------------------------------------------------------------- replies and the books

  /** Nothing in the books changed. */
  ghost predicate SameBooks(s: Importer, t: Importer) {
    && t.table == s.table && t.lastSeen == s.lastSeen && t.nextId == s.nextId
    && t.accepted == s.accepted && t.delivered == s.delivered && t.cancelled == s.cancelled && t.dropped == s.dropped
  }

  lemma DeliverBooks(c: Config, s: Importer, t: Importer, d: Delivery)
    requires Books(c, s) && d.req.key in s.table && s.table[d.req.key] == d.req && Faithful(d)
    requires SameBooks(Deliver(s, d), t)
    ensures Books(c, t)
  {
    DeliverAccounts(s, d);
  }

  lemma DropBooks(c: Config, s: Importer, t: Importer, key: Key)
    requires Books(c, s) && SameBooks(DropRequest(s, key), t)
    ensures Books(c, t)
  {
    if key in s.table { RemoveAccounts(s, t, key); }
  }

  lemma SingleReplyBooks(c: Config, s: Importer, h: Header, cb: CompleteBody, chunk: Bytes)
    requires Books(c, s) && Answers(s, h, cb)
    ensures Books(c, SingleReply(s, s.table[KeyOf(h)], h, cb, chunk).s)
  {
    var req := s.table[KeyOf(h)];
    if !(req.id.dir == DIR_IN && (cb.payloadLen > req.id.requestedLen || cb.payloadLen > |chunk|)) {
      var data := if req.id.dir == DIR_IN then chunk[..cb.payloadLen] else [];
      var d := Delivery(req, h.status, cb.actualLen, cb.IsShort(), data, Some(EchoOf(h, cb)));
      DeliverBooks(c, s, Deliver(s, d), d);
    }
  }

  lemma FirstReplyBooks(c: Config, s: Importer, h: Header, cb: CompleteBody, chunk: Bytes)
    requires Books(c, s)
    ensures Books(c, FirstReply(c, s, h, cb, chunk).s)
  {
    var a := Accept(LimitsOf(c), s.reasm, h, chunk);
    if a.verdict.Rejected? { DropBooks(c, s, FirstReply(c, s, h, cb, chunk).s, KeyOf(h)); }
  }

  lemma HandleCompleteBooks(c: Config, s: Importer, h: Header, body: Bytes)
    requires Books(c, s)
    ensures Books(c, HandleComplete(c, s, h, body).s)
  {
    var parsed := ParseComplete(body);
    if parsed.Some? && Answers(s, h, parsed.value) {
      if h.SegMore() { FirstReplyBooks(c, s, h, parsed.value, body[BODY_COMPLETE..]); }
      else { SingleReplyBooks(c, s, h, parsed.value, body[BODY_COMPLETE..]); }
    }
  }

  /** The reply that is about to be whole is the one its request waits for. */
  ghost predicate Promised(s: Importer, key: Key) {
    key in s.replies && (key in s.table ==> key in s.reasm.partial && ReplyOk(s.table[key].id, s.replies[key], s.reasm.partial[key].totalLen))
  }

  /** A whole reply is delivered: the length guard behind reassembly never fires. */
  lemma WholeReplyBooks(c: Config, s: Importer, h: Header, body: Bytes, a: Accepted)
    requires Books(c, s) && Promised(s, KeyOf(h)) && Effect(LimitsOf(c), s.reasm, h, body, a) && a.verdict == Complete
    ensures Books(c, Continued(s, KeyOf(h), a).s) && Continued(s, KeyOf(h), a).status == Status.OK
  {
    var key := KeyOf(h);
    if key in s.table {
      var req, pr := s.table[key], s.replies[key];
      var d := Delivery(req, pr.status, pr.actualLen, pr.shortXfer,
        if req.id.dir == DIR_IN then a.r.parked.value.bytes else [], Some(pr.echo));
      assert req.key == key;
      DeliverBooks(c, s, Continued(s, key, a).s, d);
    }
  }

  lemma ContinuedBooks(c: Config, s: Importer, h: Header, body: Bytes, a: Accepted)
    requires Books(c, s) && Promised(s, KeyOf(h)) && Effect(LimitsOf(c), s.reasm, h, body, a)
    ensures Books(c, Continued(s, KeyOf(h), a).s)
  {
    match a.verdict
    case Rejected(_) => DropBooks(c, s, Continued(s, KeyOf(h), a).s, KeyOf(h));
    case NeedMore =>
    case Complete => WholeReplyBooks(c, s, h, body, a);
  }

  lemma HandleDataBooks(c: Config, s: Importer, h: Header, available: nat, body: Bytes)
    requires Books(c, s) && h.typ == T_DATA && (KeyOf(h) in s.replies ==> Promised(s, KeyOf(h)))
    ensures Books(c, HandleData(c, s, h, available, body).s)
  {
    if KeyOf(h) in s.replies {
      AcceptEffect(LimitsOf(c), s.reasm, h, body);
      ContinuedBooks(c, s, h, body, Accept(LimitsOf(c), s.reasm, h, body));
    }
  }

  lemma DispatchBooks(c: Config, s: Importer, h: Header, available: nat, body: Bytes)
    requires Books(c, s) && (KeyOf(h) in s.replies ==> Promised(s, KeyOf(h)))
    ensures Books(c, Dispatch(c, s, h, available, body).s)
  {
    if h.typ == T_COMPLETE { HandleCompleteBooks(c, s, h, body); }
    else if h.typ == T_DATA { HandleDataBooks(c, s, h, available, body); }
  }

  lemma ReplyPromised(c: Config, s: Importer, key: Key)
    requires Wiring(c, s) && key in s.replies
    ensures Promised(s, key)
  {}

  lemma DispatchInv(c: Config, s: Importer, h: Header, available: nat, body: Bytes)
    requires Inv(c, s)
    ensures Inv(c, Dispatch(c, s, h, available, body).s)
  {
    if KeyOf(h) in s.replies { ReplyPromised(c, s, KeyOf(h)); }
    DispatchBooks(c, s, h, available, body);
    DispatchWiring(c, s, h, available, body);
  }

  lemma UnframedInv(c: Config, s: Importer, f: Option<Frame>)
    requires Inv(c, s)
    ensures Inv(c, Unframed(c, s, f).s)
  {
    if f.Some? { DispatchInv(c, s, f.value.h, f.value.available, f.value.body); }
  }

  // ---------------------------------------------------------------- local outcomes

  /** The requests in `rs` left the table and their owners are still to be told. */
  ghost predicate Leaving(accepted: seq<Request>, delivered: seq<Delivery>, cancelled: seq<Key>, dropped: seq<Key>, live: set<Key>, rs: seq<Request>) {
    multiset(KeysOf(accepted))
      == multiset(DeliveredKeys(delivered)) + multiset(cancelled) + multiset(dropped) + multiset(live) + multiset(KeysOf(rs))
  }

  lemma LeavingTold(accepted: seq<Request>, delivered: seq<Delivery>, cancelled: seq<Key>, dropped: seq<Key>, live: set<Key>, rs: seq<Request>, st: u16)
    requires Leaving(accepted, delivered, cancelled, dropped, live, rs) && rs != []
    ensures Leaving(accepted, delivered + [LocalOutcome(rs[0], st)], cancelled, dropped, live, rs[1..])
  {
    DeliveredGrow(delivered, LocalOutcome(rs[0], st));
    assert KeysOf(rs) == [rs[0].key] + KeysOf(rs[1..]);
  }

  /** The books while the owners of `rs` are being told. */
  ghost predicate Telling(c: Config, s: Importer, rs: seq<Request>) {
    && Distinct(s.accepted) && Genuine(s.accepted, s.delivered, s.table)
    && Leaving(s.accepted, s.delivered, s.cancelled, s.dropped, s.table.Keys, rs)
    && (forall i :: 0 <= i < |rs| ==> rs[i] in s.accepted)
    && Numbering(c, s.accepted, s.lastSeen, s.nextId) && AllFaithful(s.delivered)
  }

  lemma {:induction false} TellEachBooks(c: Config, s: Importer, rs: seq<Request>, st: u16)
    requires Telling(c, s, rs)
    ensures Books(c, TellEach(s, rs, st))
    decreases |rs|
  {
    if rs == [] {
      assert KeysOf(rs) == [];
    } else {
      LeavingTold(s.accepted, s.delivered, s.cancelled, s.dropped, s.table.Keys, rs, st);
      TellEachBooks(c, Told(Forgotten(s, rs[0].key), rs[0], st), rs[1..], st);
    }
  }

  lemma {:induction false} TellEachWiring(c: Config, s: Importer, rs: seq<Request>, st: u16)
    requires Wiring(c, s)
    ensures Wiring(c, TellEach(s, rs, st)) && TellEach(s, rs, st).table == s.table
    decreases |rs|
  {
    if rs != [] {
      var t := Told(Forgotten(s, rs[0].key), rs[0], st);
      GoneWiring(c, s, s.reasm, rs[0].key, t);
      TellEachWiring(c, t, rs[1..], st);
    }
  }

  ghost function LeavingKeys(table: map<Key, Request>, order: seq<Key>, gone: Request -> bool): set<Key> {
    set k | k in order && k in table && gone(table[k])
  }

  ghost predicate AllFrom(table: map<Key, Request>, rs: seq<Request>) {
    forall r :: r in rs ==> r.key in table && r == table[r.key]
  }

  lemma {:induction false} PickedFromTable(table: map<Key, Request>, order: seq<Key>, gone: Request -> bool)
    requires forall k :: k in table ==> table[k].key == k
    ensures AllFrom(table, Picked(table, order, gone))
    decreases |order|
  {
    if order != [] { PickedFromTable(table, order[1..], gone); }
  }

  lemma LeavingSplits(table: map<Key, Request>, order: seq<Key>, gone: Request -> bool)
    requires order != [] && order[0] !in order[1..]
    ensures var all, tail := LeavingKeys(table, order, gone), LeavingKeys(table, order[1..], gone);
            && order[0] !in tail
            && all == tail + (if order[0] in table && gone(table[order[0]]) then {order[0]} else {})
  {
    assert order == [order[0]] + order[1..];
  }

  lemma PickedAdds(table: map<Key, Request>, order: seq<Key>, gone: Request -> bool)
    requires order != [] && (order[0] in table ==> table[order[0]].key == order[0])
    ensures var rest := Picked(table, order[1..], gone);
            KeysOf(Picked(table, order, gone)) == (if order[0] in table && gone(table[order[0]]) then [order[0]] else []) + KeysOf(rest)
  {}

  lemma LeavingAdds(tail: set<Key>, k: Key, leaves: bool)
    requires k !in tail
    ensures multiset(tail + (if leaves then {k} else {})) == multiset(if leaves then [k] else []) + multiset(tail)
  {
    if !leaves { assert tail + {} == tail; }
  }

  /** Walking the table once picks exactly the requests that leave it. */
  lemma {:induction false} PickedLeave(table: map<Key, Request>, order: seq<Key>, gone: Request -> bool)
    requires (forall k :: k in table ==> table[k].key == k) && (forall i, j :: 0 <= i < j < |order| ==> order[i] != order[j])
    ensures multiset(KeysOf(Picked(table, order, gone))) == multiset(LeavingKeys(table, order, gone))
    decreases |order|
  {
    if order == [] {
      assert KeysOf(Picked(table, order, gone)) == [] && LeavingKeys(table, order, gone) == {};
    } else {
      PickedLeave(table, order[1..], gone);
      LeavingSplits(table, order, gone);
      PickedAdds(table, order, gone);
      LeavingAdds(LeavingKeys(table, order[1..], gone), order[0], order[0] in table && gone(table[order[0]]));
    }
  }

  lemma TableSplits(table: map<Key, Request>, order: seq<Key>, gone: Request -> bool)
    requires Walks(order, table) && forall k :: k in table ==> table[k].key == k
    ensures multiset(table.Keys) == multiset(Without(table, gone).Keys) + multiset(KeysOf(Picked(table, order, gone)))
  {
    PickedLeave(table, order, gone);
    var stay, left := Without(table, gone).Keys, LeavingKeys(table, order, gone);
    assert table.Keys == stay + left && stay !! left;
    assert multiset(table.Keys) == multiset(stay) + multiset(left);
  }

  lemma LeavingTable(c: Config, s: Importer, order: seq<Key>, gone: Request -> bool, t: Importer)
    requires Books(c, s) && Walks(order, s.table) && t.table == Without(s.table, gone)
    requires SameBooks(s, t.(table := s.table))
    ensures Telling(c, t, Picked(s.table, order, gone))
  {
    var rs := Picked(s.table, order, gone);
    PickedFromTable(s.table, order, gone);
    TableSplits(s.table, order, gone);
    forall i | 0 <= i < |rs| ensures rs[i] in s.accepted { assert rs[i] in rs && s.table[rs[i].key] in s.accepted; }
    assert Leaving(s.accepted, s.delivered, s.cancelled, s.dropped, t.table.Keys, rs);
  }

  lemma SweepInv(c: Config, s: Importer, now: nat, order: seq<Key>)
    requires Inv(c, s) && Walks(order, s.table)
    ensures Inv(c, Importing.Sweep(s, now, order))
  {
    var gone := (r: Request) => Scheduler.Expired(r.deadline, now);
    var t, rs := s.(table := Without(s.table, gone)), Picked(s.table, order, gone);
    LeavingTable(c, s, order, gone, t);
    ShrunkWiring(c, s, t);
    TellEachBooks(c, t, rs, Status.XFER_TIMEOUT);
    TellEachWiring(c, t, rs, Status.XFER_TIMEOUT);
  }

  function Emptied(c: Config, s: Importer): Importer {
    s.(table := Without(s.table, (r: Request) => r.id.attachId == c.attachId), replies := map[], reasm := EMPTY)
  }

  lemma EmptiedWiring(c: Config, s: Importer)
    requires Inv(c, s)
    ensures Wiring(c, Emptied(c, s)) && Emptied(c, s).table == map[]
  {
    forall k | k in s.table ensures s.table[k].id.attachId == c.attachId { assert s.table[k] in s.accepted; }
    assert Sizes(EMPTY.partial) == map[];
  }

  /** completeAll leaves nothing outstanding. */
  lemma CompleteAllInv(c: Config, s: Importer, with: u16, order: seq<Key>)
    requires Inv(c, s) && Walks(order, s.table)
    ensures Inv(c, CompleteAll(c, s, with, order)) && CompleteAll(c, s, with, order).table == map[]
  {
    var gone := (r: Request) => r.id.attachId == c.attachId;
    var rs := Picked(s.table, order, gone);
    EmptiedWiring(c, s);
    LeavingTable(c, s, order, gone, Emptied(c, s));
    TellEachBooks(c, Emptied(c, s), rs, with);
    TellEachWiring(c, Emptied(c, s), rs, with);
  }

  lemma CancelBooks(c: Config, s: Importer, key: Key)
    requires Books(c, s)
    ensures Books(c, Importing.Cancel(s, key))
  {
    if key in s.table { RemoveAccounts(s, Importing.Cancel(s, key), key); }
  }

  lemma CancelWiring(c: Config, s: Importer, key: Key)
    requires Wiring(c, s)
    ensures Wiring(c, Importing.Cancel(s, key))
  {
    GoneWiring(c, s, s.reasm, key, Forgotten(s, key));
    ShrunkWiring(c, Forgotten(s, key), Importing.Cancel(s, key));
  }

  // ---------------------------------------------------------------- what is not a reply

  /** An ERROR ends the session and retires nothing, whatever status it carries; other types that are no reply are passed over. */
  lemma OnlyRepliesCount(c: Config, s: Importer, h: Header, available: nat, body: Bytes)
    requires h.typ != T_COMPLETE && h.typ != T_DATA
    ensures var r := Dispatch(c, s, h, available, body);
            && r.s == s && (r.status != Status.OK <==> h.typ == T_ERROR)
            && (h.typ == T_ERROR && h.status != Status.OK ==> r.status == h.status)
  {}

  // ---------------------------------------------------------------- a record submits nothing

  lemma CompleteKeepsAccepted(c: Config, s: Importer, h: Header, body: Bytes)
    ensures HandleComplete(c, s, h, body).s.accepted == s.accepted
  {}

  lemma DataKeepsAccepted(c: Config, s: Importer, h: Header, available: nat, body: Bytes)
    requires h.typ == T_DATA
    ensures HandleData(c, s, h, available, body).s.accepted == s.accepted
  {}

  lemma ReceiveKeepsAccepted(c: Config, s: Importer, rec: Bytes)
    ensures Receive(c, s, rec).s.accepted == s.accepted
  {
    var f := Unframe(rec);
    if f.Some? {
      CompleteKeepsAccepted(c, s, f.value.h, f.value.body);
      if f.value.h.typ == T_DATA { DataKeepsAccepted(c, s, f.value.h, f.value.available, f.value.body); }
    }
  }

  // ---------------------------------------------------------------- every run

  lemma StepInv(c: Config, s: Importer, e: Event)
    requires Inv(c, s) && Possible(c, s, e)
    ensures Inv(c, Step(c, s, e))
  {
    match e
    case ESubmit(call, now, linkUp, maxPlain, emitted) =>
      SubmitBooks(c, s, call, now, linkUp, maxPlain, emitted);
      SubmitWiring(c, s, call, now, linkUp, maxPlain, emitted);
    case EReceive(rec) => UnframedInv(c, s, Unframe(rec));
    case ESweep(now, order) => SweepInv(c, s, now, order);
    case ECancel(key) =>
      CancelBooks(c, s, key);
      CancelWiring(c, s, key);
    case ECompleteAll(with, order) => CompleteAllInv(c, s, with, order);
  }

  lemma {:induction false} RunInv(c: Config, s: Importer, es: seq<Event>)
    requires Inv(c, s) && PossibleRun(c, s, es)
    ensures Inv(c, Run(c, s, es))
    decreases |es|
  {
    if es != [] {
      StepInv(c, s, es[0]);
      RunInv(c, Step(c, s, es[0]), es[1..]);
    }
  }

  // ---------------------------------------------------------------- what a caller may rely on

  ghost predicate Named(rs: seq<Request>, k: Key) { exists i :: 0 <= i < |rs| && rs[i].key == k }

  lemma NamedGrows(rs: seq<Request>, r: Request, k: Key)
    ensures Named(rs + [r], k) <==> Named(rs, k) || r.key == k
  {
    if Named(rs, k) {
      var i :| 0 <= i < |rs| && rs[i].key == k;
      assert (rs + [r])[i].key == k;
    }
    assert (rs + [r])[|rs|] == r;
  }

  lemma {:induction false} DistinctOnce(rs: seq<Request>, k: Key)
    requires Distinct(rs)
    ensures multiset(KeysOf(rs))[k] == if Named(rs, k) then 1 else 0
    decreases |rs|
  {
    if rs == [] {
      assert KeysOf(rs) == [];
    } else {
      var before, r := rs[..|rs| - 1], rs[|rs| - 1];
      assert rs == before + [r];
      DistinctOnce(before, k);
      KeysGrow(before, r);
      NamedGrows(before, r, k);
    }
  }

  /**
   * Over every run: a submit that was accepted is delivered once, or cancelled, or outstanding,
   * or dropped by a reassembly rejection, and never two of these; nothing else is ever delivered.
   */
  lemma EverySubmitAccountedForOnce(c: Config, es: seq<Event>, k: Key)
    requires PossibleRun(c, FRESH, es)
    ensures var s := Run(c, FRESH, es);
            multiset(DeliveredKeys(s.delivered))[k] + multiset(s.cancelled)[k] + multiset(s.dropped)[k]
              + (if k in s.table then 1 else 0) == if Named(s.accepted, k) then 1 else 0
  {
    InitialInv(c);
    RunInv(c, FRESH, es);
    DistinctOnce(Run(c, FRESH, es).accepted, k);
  }

  /**
   * Over every run, against any records: a peer's reply that is delivered echoes the identity of
   * a request that was really submitted, claims no more than was asked for, and for an ordinary
   * IN transfer carries exactly the bytes it claims, in one record or in many.
   */
  lemma ReplyFidelity(c: Config, es: seq<Event>, i: nat)
    requires PossibleRun(c, FRESH, es) && i < |Run(c, FRESH, es).delivered|
    ensures var s := Run(c, FRESH, es); Faithful(s.delivered[i]) && s.delivered[i].req in s.accepted
  {
    InitialInv(c);
    RunInv(c, FRESH, es);
  }

  lemma {:induction false} TellEachTells(s: Importer, rs: seq<Request>, st: u16)
    ensures var t := TellEach(s, rs, st);
            && |t.delivered| == |s.delivered| + |rs| && t.delivered[..|s.delivered|] == s.delivered
            && (forall i :: 0 <= i < |rs| ==> t.delivered[|s.delivered| + i] == LocalOutcome(rs[i], st))
    decreases |rs|
  {
    if rs != [] {
      var m := Told(Forgotten(s, rs[0].key), rs[0], st);
      TellEachTells(m, rs[1..], st);
      var t := TellEach(m, rs[1..], st);
      assert t.delivered[|s.delivered|] == t.delivered[..|m.delivered|][|s.delivered|];
      assert t.delivered[..|s.delivered|] == t.delivered[..|m.delivered|][..|s.delivered|];
      forall i | 0 < i < |rs| ensures t.delivered[|s.delivered| + i] == LocalOutcome(rs[i], st) {
        assert rs[i] == rs[1..][i - 1];
      }
    }
  }

  lemma {:induction false} PickedHas(table: map<Key, Request>, order: seq<Key>, gone: Request -> bool, k: Key)
    requires k in order && k in table && gone(table[k])
    ensures table[k] in Picked(table, order, gone)
    decreases |order|
  {
    if order[0] != k { PickedHas(table, order[1..], gone, k); }
  }

  /** completeAll empties the outstanding part, and the owner of each request in it is told `with`. */
  lemma CompleteAllAnswersTheRest(c: Config, s: Importer, with: u16, order: seq<Key>, k: Key)
    requires Inv(c, s) && Walks(order, s.table)
    ensures var t := CompleteAll(c, s, with, order);
            && t.table == map[] && s.delivered <= t.delivered
            && (k in s.table ==> LocalOutcome(s.table[k], with) in t.delivered[|s.delivered|..])
  {
    var gone := (r: Request) => r.id.attachId == c.attachId;
    var rs, t := Picked(s.table, order, gone), CompleteAll(c, s, with, order);
    CompleteAllInv(c, s, with, order);
    TellEachTells(Emptied(c, s), rs, with);
    if k in s.table {
      assert s.table[k] in s.accepted;
      PickedHas(s.table, order, gone, k);
      var i :| 0 <= i < |rs| && rs[i] == s.table[k];
      assert t.delivered[|s.delivered|..][i] == LocalOutcome(s.table[k], with);
    }
  }

  // ---------------------------------------------------------------- the arena

  lemma {:induction false} TotalAtMost(sizes: map<Key, nat>, bound: nat)
    requires forall k :: k in sizes ==> sizes[k] <= bound
    ensures Total(sizes) <= |sizes| * bound
    decreases |sizes|
  {
    if sizes != map[] {
      var k :| k in sizes;
      TotalWithout(sizes, k);
      TotalAtMost(sizes - {k}, bound);
      assert |sizes| == |sizes - {k}| + 1;
      Distribute(|sizes - {k}|, bound);
    }
  }

  lemma Distribute(n: nat, bound: nat)
    ensures (n + 1) * bound == n * bound + bound
  {}

  lemma MoreTimes(a: nat, b: nat, bound: nat)
    requires a <= b
    ensures a * bound <= b * bound
  {
    assert b * bound == a * bound + (b - a) * bound;
  }

  /**
   * The importer's arena never binds: whatever is held, a segment that joins on and stays within its
   * transfer's declared length, itself within the limit, always fits. Only the other rules can refuse it.
   */
  lemma ArenaNeverBinds(c: Config, r: Reasm, h: Header, payload: Bytes)
    requires Reassembly.Valid(LimitsOf(c), r) && Joins(r, h) && (h.SegFirst() ==> |r.partial| < LimitsOf(c).maxInFlight)
    requires |Prior(r, h)| + |payload| <= h.totalLen <= c.maxTransferBytes
    ensures r.held + |payload| <= LimitsOf(c).arenaBytes
  {
    var key, sizes, max, n := KeyOf(h), Sizes(r.partial), c.maxTransferBytes, LimitsOf(c).maxInFlight;
    var grown := sizes[key := |Prior(r, h)| + |payload|];
    TotalWith(sizes, key, |Prior(r, h)| + |payload|);
    TotalAtMost(grown, max);
    assert sizes.Keys == r.partial.Keys && |sizes.Keys| == |sizes| && |r.partial.Keys| == |r.partial|;
    assert |grown| <= n by { if key in sizes { assert grown.Keys == sizes.Keys && |grown| == |grown.Keys|; } }
    MoreTimes(|grown|, n, max);
    assert LimitsOf(c).arenaBytes == max * n == n * max;
  }

  // ---------------------------------------------------------------- exactly what is dropped

  /** `n` more bytes after `got` of `total` are too many, or are the last and too few. */
  predicate Misfits(got: nat, n: nat, total: u32, more: bool) { got + n > total || (!more && got + n != total) }

  /** A record of `n` data bytes does not continue, or open, the transfer its header names. */
  predicate Misplaced(c: Config, r: Reasm, h: Header, n: nat) {
    var key := KeyOf(h);
    || h.totalLen > c.maxTransferBytes
    || (if h.SegFirst() then key in r.partial || h.segOffset != 0 || |r.partial| >= LimitsOf(c).maxInFlight || Misfits(0, n, h.totalLen, h.SegMore())
        else if key in r.partial then
          h.totalLen != r.partial[key].totalLen || h.segOffset != |r.partial[key].bytes| || Misfits(|r.partial[key].bytes|, n, h.totalLen, h.SegMore())
        else h.SegMore() || n != h.totalLen)
  }

  /** The reassembler refuses exactly the misplaced records; its arena never makes it refuse one. */
  lemma RefusedExactly(c: Config, r: Reasm, h: Header, payload: Bytes)
    requires Reassembly.Valid(LimitsOf(c), r)
    ensures Accept(LimitsOf(c), r, h, payload).verdict.Rejected? <==> Misplaced(c, r, h, |payload|)
  {
    if !Misplaced(c, r, h, |payload|) && (h.SegFirst() || KeyOf(h) in r.partial) { ArenaNeverBinds(c, r, h, payload); }
  }

  lemma DroppedWhenRefused(c: Config, s: Importer, h: Header, available: nat, body: Bytes)
    ensures var t := Dispatch(c, s, h, available, body).s;
            t.dropped != s.dropped <==>
              && KeyOf(h) in s.table
              && ((h.typ == T_COMPLETE && Opens(s, h, body) && Accept(LimitsOf(c), s.reasm, h, body[BODY_COMPLETE..]).verdict.Rejected?)
                  || (h.typ == T_DATA && Continues(c, s, h, available) && Accept(LimitsOf(c), s.reasm, h, body).verdict.Rejected?))
  {
    assert s.dropped + [KeyOf(h)] != s.dropped;
  }

  /** The body is a COMPLETE for its request that more records follow. */
  ghost predicate Opens(s: Importer, h: Header, body: Bytes) {
    h.SegMore() && |body| >= BODY_COMPLETE && Answers(s, h, ParseComplete(body).value)
  }

  /** A legal header for the reply under way on its key. */
  ghost predicate Continues(c: Config, s: Importer, h: Header, available: nat) {
    && h.typ == T_DATA && HeaderRule(h, available, c.maxTransferBytes) == Status.OK && KeyOf(h) in s.replies && KeyOf(h) in s.table
    && h.attachId == s.table[KeyOf(h)].id.attachId
  }

  /**
   * A request is dropped, answered by nobody, exactly when a record that opens or continues the reply it is
   * being sent has the wrong total, offset or length, or would open one too many.
   */
  lemma DroppedExactly(c: Config, s: Importer, h: Header, available: nat, body: Bytes)
    requires Reassembly.Valid(LimitsOf(c), s.reasm)
    ensures var t := Dispatch(c, s, h, available, body).s;
            t.dropped != s.dropped <==>
              && KeyOf(h) in s.table
              && ((h.typ == T_COMPLETE && Opens(s, h, body) && Misplaced(c, s.reasm, h, |body| - BODY_COMPLETE))
                  || (h.typ == T_DATA && Continues(c, s, h, available) && Misplaced(c, s.reasm, h, |body|)))
  {
    DroppedWhenRefused(c, s, h, available, body);
    RefusedExactly(c, s.reasm, h, body);
    if |body| >= BODY_COMPLETE { RefusedExactly(c, s.reasm, h, body[BODY_COMPLETE..]); }
  }
}
