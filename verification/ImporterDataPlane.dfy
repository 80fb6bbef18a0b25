/**
 * The request table and the data plane as the source writes them, with maps changed in place.
 * Every method is proved to take exactly the step of module Importing.
 */
module DataPlanes {
  import opened Wire
  import Status
  import opened Codec
  import opened Validate
  import opened Segmentation
  import opened Reassembly
  import Scheduler
  import opened Importing

  /** The table once the keys `walked` have been looked at. */
  ghost function Thinned(table: map<Key, Request>, walked: seq<Key>, gone: Request -> bool): map<Key, Request> {
    map k | k in table && !(k in walked && gone(table[k])) :: table[k]
  }

  lemma ThinnedNone(table: map<Key, Request>, gone: Request -> bool)
    ensures Thinned(table, [], gone) == table
  {}

  lemma ThinnedStep(table: map<Key, Request>, walked: seq<Key>, k: Key, gone: Request -> bool)
    requires k in table && k !in walked
    ensures k in Thinned(table, walked, gone) && Thinned(table, walked, gone)[k] == table[k]
    ensures Thinned(table, walked + [k], gone) == if gone(table[k]) then Thinned(table, walked, gone) - {k} else Thinned(table, walked, gone)
  {}

  lemma ThinnedAll(table: map<Key, Request>, walked: seq<Key>, gone: Request -> bool)
    requires forall k :: k in table ==> k in walked
    ensures Thinned(table, walked, gone) == Without(table, gone)
  {}

  lemma {:induction false} PickedStep(table: map<Key, Request>, walked: seq<Key>, k: Key, gone: Request -> bool)
    requires k in table
    ensures Picked(table, walked + [k], gone) == Picked(table, walked, gone) + if gone(table[k]) then [table[k]] else []
    decreases |walked|
  {
    if walked == [] {
      assert [k][1..] == [] && walked + [k] == [k];
    } else {
      assert (walked + [k])[1..] == walked[1..] + [k];
      PickedStep(table, walked[1..], k, gone);
    }
  }

  class RequestTable {
    var byKey: map<Key, Request>
    var lastSeen: map<u16, nat>
    var nextId: map<u16, nat>

    constructor ()
      ensures byKey == map[] && lastSeen == map[] && nextId == map[]
    {
      byKey, lastSeen, nextId := map[], map[], map[];
    }

    method Add(r: Request) returns (st: u16)
      modifies this`byKey, this`lastSeen
      ensures st == if r.key in old(byKey) then Status.ALREADY_EXISTS
                    else if r.key.channel in old(lastSeen) && r.key.requestId <= old(lastSeen)[r.key.channel] then Status.BAD_ARGUMENT
                    else Status.OK
      ensures st == Status.OK ==>
                byKey == old(byKey)[r.key := r] && lastSeen == old(lastSeen)[r.key.channel := r.key.requestId]
      ensures st != Status.OK ==> byKey == old(byKey) && lastSeen == old(lastSeen)
    {
      if r.key in byKey { return Status.ALREADY_EXISTS; }
      if r.key.channel in lastSeen && r.key.requestId <= lastSeen[r.key.channel] { return Status.BAD_ARGUMENT; }
      lastSeen := lastSeen[r.key.channel := r.key.requestId];
      byKey := byKey[r.key := r];
      st := Status.OK;
    }

    method TakeOne(key: Key) returns (was: Option<Request>)
      modifies this`byKey
      ensures was == if key in old(byKey) then Some(old(byKey)[key]) else None
      ensures byKey == old(byKey) - {key}
    {
      if key !in byKey {
        assert byKey - {key} == byKey;
        return None;
      }
      was := Some(byKey[key]);
      byKey := byKey - {key};
    }

    /** Walk the table in `order`, erase what `gone` picks and hand it back. */
    method TakeEach(order: seq<Key>, gone: Request -> bool) returns (out: seq<Request>)
      requires Walks(order, byKey)
      modifies this`byKey
      ensures out == Picked(old(byKey), order, gone) && byKey == Without(old(byKey), gone)
    {
      ghost var was := byKey;
      out := [];
      ThinnedNone(was, gone);
      for i := 0 to |order|
        invariant byKey == Thinned(was, order[..i], gone)
        invariant out == Picked(was, order[..i], gone)
      {
        var k := order[i];
        ThinnedStep(was, order[..i], k, gone);
        PickedStep(was, order[..i], k, gone);
        assert order[..i + 1] == order[..i] + [k];
        if gone(byKey[k]) {
          out := out + [byKey[k]];
          byKey := byKey - {k};
        }
      }
      assert order[..|order|] == order;
      ThinnedAll(was, order, gone);
    }

    method NextRequestId(channel: u16) returns (id: nat)
      modifies this`nextId
      ensures id == IdAfter(old(nextId), channel) && nextId == old(nextId)[channel := id + 1]
    {
      id := if channel in nextId then nextId[channel] else 0;
      if id == 0 { id := 1; }
      nextId := nextId[channel := id + 1];
    }
  }

  class ImporterDataPlane {
    const cfg: Config
    const table: RequestTable
    const reasm: Reassembler
    var replies: map<Key, PendingReply>

    // What became of every submit.
    var accepted: seq<Request>
    var delivered: seq<Delivery>
    var cancelled: seq<Key>
    var dropped: seq<Key>

    ghost predicate Valid()
      reads this
    {
      reasm.limits == LimitsOf(cfg)
    }

    ghost function Snapshot(): Importer
      reads this, table, reasm
    {
      Importer(table.byKey, table.lastSeen, table.nextId, reasm.Snapshot(), replies, accepted, delivered, cancelled, dropped)
    }

    constructor (cfg: Config)
      ensures Valid() && Snapshot() == FRESH && this.cfg == cfg && fresh(table) && fresh(reasm)
    {
      this.cfg := cfg;
      table := new RequestTable();
      reasm := new Reassembler(LimitsOf(cfg));
      replies := map[];
      accepted, delivered, cancelled, dropped := [], [], [], [];
    }

    /** `send(i)` is the link's reply to record `i`; `sent` is what it was given, `emitted` what that came to. */
    method Submit(call: Call, now: nat, linkUp: bool, maxPlain: u32, send: nat -> u16)
        returns (st: u16, emitted: u16, sent: seq<Bytes>)
      requires Valid() && IdsLast(cfg, Snapshot(), call)
      modifies this, table
      ensures Submitted(Snapshot(), st) == Importing.Submit(cfg, old(Snapshot()), call, now, linkUp, maxPlain, emitted)
      ensures st == Status.OK ==>
        maxPlain > HEADER_SIZE + BODY_SUBMIT && sent == SubmitRecords(cfg, call, old(NewKey(cfg, Snapshot(), call)), maxPlain)
    {
      emitted, sent := Status.OK, [];
      if !linkUp { return Status.TRANSPORT_LOST, emitted, sent; }
      if |table.byKey| >= cfg.maxInFlight { return Status.BUSY, emitted, sent; }
      var channel := ChannelFor(cfg.attachSlot, call.epAddr);
      var rid := table.NextRequestId(channel);
      var key := Key(channel, rid);
      if maxPlain <= HEADER_SIZE + BODY_SUBMIT { return Status.INTERNAL, emitted, sent; }
      st, emitted, sent := TrackAndSend(call, RequestFor(cfg, call, key, now), maxPlain, send);
    }

    /** Register the request before its bytes go out; if they do not all go, take it back. */
    method TrackAndSend(call: Call, req: Request, maxPlain: u32, send: nat -> u16) returns (st: u16, emitted: u16, sent: seq<Bytes>)
      requires Valid() && maxPlain > HEADER_SIZE + BODY_SUBMIT
      modifies this`accepted, table`byKey, table`lastSeen
      ensures Submitted(Snapshot(), st) ==
              if !old(Addable(Snapshot(), req.key)) then Submitted(old(Snapshot()), Status.INTERNAL)
              else if emitted != Status.OK then Submitted(Seen(old(Snapshot()), req.key), emitted)
              else Submitted(Tracked(Seen(old(Snapshot()), req.key), req), Status.OK)
      ensures st == Status.OK ==> sent == SubmitRecords(cfg, call, req.key, maxPlain)
    {
      emitted, sent := Status.OK, [];
      var added := table.Add(req);
      if added != Status.OK { return Status.INTERNAL, emitted, sent; }
      emitted, sent := SendSubmit(call, req.key, maxPlain, send);
      if emitted != Status.OK {
        var gone := table.TakeOne(req.key);
        assert old(table.byKey)[req.key := req] - {req.key} == old(table.byKey);
        return emitted, emitted, sent;
      }
      accepted := accepted + [req];
      st := Status.OK;
    }

    method SendSubmit(call: Call, key: Key, maxPlain: u32, send: nat -> u16) returns (emitted: u16, sent: seq<Bytes>)
      requires maxPlain > HEADER_SIZE + BODY_SUBMIT
      ensures emitted == Status.OK ==> sent == SubmitRecords(cfg, call, key, maxPlain)
    {
      emitted, sent := EmitTransfer(SubmitHeader(cfg, key), SubmitBytes(BodyOf(call)), OutData(call), MaxSegment(maxPlain), send);
    }

    method Deliver(d: Delivery)
      modifies this`delivered
      ensures delivered == old(delivered) + [d]
    {
      delivered := delivered + [d];
    }

    method Drop(key: Key)
      requires Valid()
      modifies this, table, reasm
      ensures Snapshot() == DropRequest(old(Snapshot()), key)
    {
      var gone := table.TakeOne(key);
      replies := replies - {key};
      reasm.Discard(key);
      if gone.Some? { dropped := dropped + [key]; } else { assert table.byKey == old(table.byKey); }
    }

    method Cancel(key: Key) returns (was: bool)
      requires Valid()
      modifies this, table, reasm
      ensures Snapshot() == Importing.Cancel(old(Snapshot()), key) && was == (key in old(table.byKey))
    {
      var gone := table.TakeOne(key);
      replies := replies - {key};
      reasm.Discard(key);
      if gone.Some? { cancelled := cancelled + [key]; } else { assert table.byKey == old(table.byKey); }
      was := gone.Some?;
    }

    /** pump(), for one record. */
    method ReceiveRecord(rec: Bytes) returns (st: u16)
      requires Valid()
      modifies this, table, reasm
      ensures Handled(Snapshot(), st) == Receive(cfg, old(Snapshot()), rec)
    {
      var f := Unframe(rec);
      if f.None? { return Status.MALFORMED_FRAME; }
      var h := f.value.h;
      if h.typ == T_COMPLETE {
        st := OnComplete(h, f.value.body);
      } else if h.typ == T_DATA {
        st := OnData(h, f.value.available, f.value.body);
      } else if h.typ == T_ERROR {
        st := if h.status == Status.OK then Status.MALFORMED_FRAME else h.status;
      } else {
        st := Status.OK;
      }
    }

    method OnComplete(h: Header, body: Bytes) returns (st: u16)
      requires Valid()
      modifies this, table, reasm
      ensures Handled(Snapshot(), st) == HandleComplete(cfg, old(Snapshot()), h, body)
    {
      var parsed := ParseComplete(body);
      if parsed.None? { return Status.MALFORMED_FRAME; }
      var cb, chunk, key := parsed.value, body[BODY_COMPLETE..], KeyOf(h);
      if CompleteRule(h, cb) != Status.OK { return CompleteRule(h, cb); }
      if key !in table.byKey { return Status.OK; }
      var req := table.byKey[key];
      if EchoOf(h, cb) != req.id { return Status.MALFORMED_FRAME; }
      if cb.actualLen > req.id.requestedLen { return Status.MALFORMED_FRAME; }
      if !h.SegMore() {
        st := OnSingleReply(req, h, cb, chunk);
      } else {
        st := OnFirstReply(h, cb, chunk);
      }
    }

    method OnSingleReply(req: Request, h: Header, cb: CompleteBody, chunk: Bytes) returns (st: u16)
      requires Valid()
      modifies this, table
      ensures Handled(Snapshot(), st) == SingleReply(old(Snapshot()), req, h, cb, chunk)
    {
      var payload := [];
      if req.id.dir == DIR_IN {
        if cb.payloadLen > req.id.requestedLen { return Status.MALFORMED_FRAME; }
        if cb.payloadLen > |chunk| { return Status.MALFORMED_FRAME; }
        payload := chunk[..cb.payloadLen];
      }
      var _ := table.TakeOne(req.key);
      Deliver(Delivery(req, h.status, cb.actualLen, cb.IsShort(), payload, Some(EchoOf(h, cb))));
      st := Status.OK;
    }

    method OnFirstReply(h: Header, cb: CompleteBody, chunk: Bytes) returns (st: u16)
      requires Valid()
      modifies this, table, reasm
      ensures Handled(Snapshot(), st) == FirstReply(cfg, old(Snapshot()), h, cb, chunk)
    {
      replies := replies[KeyOf(h) := PendingReply(h.status, cb.actualLen, cb.IsShort(), EchoOf(h, cb))];
      var v := reasm.Receive(h, chunk);
      if v.Rejected? {
        Drop(KeyOf(h));
        return v.error;
      }
      st := Status.OK;
    }

    method OnData(h: Header, available: nat, body: Bytes) returns (st: u16)
      requires Valid() && h.typ == T_DATA
      modifies this, table, reasm
      ensures Handled(Snapshot(), st) == HandleData(cfg, old(Snapshot()), h, available, body)
    {
      var key := KeyOf(h);
      var v := HeaderRule(h, available, cfg.maxTransferBytes);
      if v != Status.OK { return v; }
      if key !in replies { return Status.MALFORMED_FRAME; }
      if key in table.byKey && h.attachId != table.byKey[key].id.attachId { return Status.MALFORMED_FRAME; }
      st := OnContinuation(h, body);
    }

    method OnContinuation(h: Header, body: Bytes) returns (st: u16)
      requires Valid() && KeyOf(h) in replies
      modifies this, table, reasm
      ensures Handled(Snapshot(), st) ==
              Continued(old(Snapshot()), KeyOf(h), Accept(LimitsOf(cfg), old(reasm.Snapshot()), h, body))
    {
      var key := KeyOf(h);
      var o := reasm.Receive(h, body);
      if o.Rejected? {
        Drop(key);
        return o.error;
      }
      if o.NeedMore? { return Status.OK; }
      AcceptEffect(LimitsOf(cfg), old(reasm.Snapshot()), h, body);
      var full := reasm.TakeCompleted(key);
      st := OnWholeReply(key, full);
    }

    method OnWholeReply(key: Key, full: Bytes) returns (st: u16)
      requires Valid() && key in replies && !reasm.hasCompleted
      modifies this, table
      ensures Handled(Snapshot(), st) == WholeReply(old(Snapshot()), key, full)
    {
      var pr := replies[key];
      replies := replies - {key};
      if key !in table.byKey { return Status.OK; }
      var req := table.byKey[key];
      if pr.actualLen > req.id.requestedLen { return Status.MALFORMED_FRAME; }
      var _ := table.TakeOne(req.key);
      Deliver(Delivery(req, pr.status, pr.actualLen, pr.shortXfer, if req.id.dir == DIR_IN then full else [], Some(pr.echo)));
      st := Status.OK;
    }

    method SweepDeadlines(now: nat, order: seq<Key>)
      requires Valid() && Walks(order, table.byKey)
      modifies this, table, reasm
      ensures Snapshot() == Importing.Sweep(old(Snapshot()), now, order)
    {
      var expired := table.TakeEach(order, (r: Request) => Scheduler.Expired(r.deadline, now));
      TellOwners(expired, Status.XFER_TIMEOUT);
    }

    method CompleteAll(with: u16, order: seq<Key>)
      requires Valid() && Walks(order, table.byKey)
      modifies this, table, reasm
      ensures Snapshot() == Importing.CompleteAll(cfg, old(Snapshot()), with, order)
    {
      var attachId := cfg.attachId;
      var drained := table.TakeEach(order, (r: Request) => r.id.attachId == attachId);
      replies := map[];
      reasm.Clear();
      TellOwners(drained, with);
    }

    method TellOwners(rs: seq<Request>, st: u16)
      requires Valid()
      modifies this, reasm
      ensures Snapshot() == TellEach(old(Snapshot()), rs, st)
    {
      for i := 0 to |rs|
        invariant TellEach(Snapshot(), rs[i..], st) == TellEach(old(Snapshot()), rs, st)
      {
        replies := replies - {rs[i].key};
        reasm.Discard(rs[i].key);
        Deliver(LocalOutcome(rs[i], st));
        assert rs[i..][1..] == rs[i + 1..];
      }
    }
  }
}
