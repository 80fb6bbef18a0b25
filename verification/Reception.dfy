/**
 * The receiving half of airusb/session/ExporterSession.cpp: SUBMIT and DATA records become
 * transfers for the scheduler, each handed over whole.
 */
module Reception {
  import opened Wire
  import Status
  import opened Codec
  import opened Validate
  import opened Reassembly
  import opened Scheduler
  import opened Importing

  /** The one segmented OUT transfer that may be arriving. */
  datatype Rx = Rx(active: bool, key: Key, sb: SubmitBody, reasm: Reasm)

  /** `taken` is what enqueueTransfer was called with; `status` is OK or why the message was refused. */
  datatype Heard = Heard(rx: Rx, taken: seq<Intake>, status: u16)

  predicate IsFatal(st: u16) { st == Status.MALFORMED_FRAME || st == Status.LIMIT_EXCEEDED || st == Status.AUTH_FAILED }

  function Refuse(rx: Rx, st: u16): Heard { Heard(rx, [], st) }

  function Reset(rx: Rx): Rx { Rx(false, Key(0, 0), rx.sb, EMPTY) }

  /** The first record of a segmented OUT transfer. */
  function Begin(rx: Rx, h: Header, sb: SubmitBody, data: Bytes): Heard {
    if sb.dir != DIR_OUT || rx.active then Refuse(rx, Status.MALFORMED_FRAME)
    else
      var a := Accept(DEFAULT_LIMITS, EMPTY, h, data);
      var begun := Rx(true, KeyOf(h), sb, a.r);
      if a.verdict.Rejected? then Refuse(Reset(begun), a.verdict.error) else Heard(begun, [], Status.OK)
  }

  function OnSubmit(attachId: u32, rx: Rx, h: Header, body: Bytes): Heard {
    if h.attachId != attachId then Heard(rx, [], Status.OK)
    else
      var parsed := ParseSubmit(body);
      if parsed.None? then Refuse(rx, Status.MALFORMED_FRAME)
      else TakeSubmit(rx, h, parsed.value, body[BODY_SUBMIT..])
  }

  function TakeSubmit(rx: Rx, h: Header, sb: SubmitBody, data: Bytes): Heard {
    if SubmitRule(h, sb, TRANSFER_BYTES_DEFAULT) != Status.OK then Refuse(rx, SubmitRule(h, sb, TRANSFER_BYTES_DEFAULT))
    else if h.SegMore() then Begin(rx, h, sb, data)
    else if rx.active then Refuse(rx, Status.MALFORMED_FRAME)
    else Heard(rx, [Intake(h.channel, h.requestId, sb, data)], Status.OK)
  }

  /** What a continuation came to, given what the reassembler made of it. */
  function Continue(rx: Rx, a: Accepted): Heard {
    match a.verdict
    case Rejected(error) => Refuse(Reset(rx), error)
    case NeedMore => Heard(rx.(reasm := a.r), [], Status.OK)
    case Complete => Heard(Reset(rx), [Intake(rx.key.channel, rx.key.requestId, rx.sb, Take(a.r, rx.key).0)], Status.OK)
  }

  function OnData(attachId: u32, rx: Rx, h: Header, body: Bytes): Heard {
    if h.attachId != attachId then Heard(rx, [], Status.OK)
    else if !rx.active || KeyOf(h) != rx.key then Refuse(rx, Status.MALFORMED_FRAME)
    else Continue(rx, Accept(DEFAULT_LIMITS, rx.reasm, h, body))
  }

  /** One message of an attached session. Control messages are none of the receiver's business. */
  function OnMessage(attachId: u32, rx: Rx, h: Header, available: nat, body: Bytes): Heard {
    if h.typ != T_SUBMIT && h.typ != T_DATA then Heard(rx, [], Status.OK)
    else if HeaderRule(h, available, TRANSFER_BYTES_DEFAULT) != Status.OK
    then Refuse(rx, HeaderRule(h, available, TRANSFER_BYTES_DEFAULT))
    else if h.typ == T_SUBMIT then OnSubmit(attachId, rx, h, body)
    else OnData(attachId, rx, h, body)
  }

  predicate HeaderRefused(h: Header, available: nat) {
    (h.typ == T_SUBMIT || h.typ == T_DATA) && HeaderRule(h, available, TRANSFER_BYTES_DEFAULT) != Status.OK
  }

  function AfterTaking(taken: seq<Intake>, m: Heard): Heard { m.(taken := taken + m.taken) }

  /** A record may carry several messages back to back. */
  function OnRecord(attachId: u32, rx: Rx, rec: Bytes): Heard
    decreases |rec|
  {
    if rec == [] then Heard(rx, [], Status.OK)
    else
      var f := Unframe(rec);
      if f.None? then Refuse(rx, Status.MALFORMED_FRAME)
      else
        var m := OnMessage(attachId, rx, f.value.h, f.value.available, f.value.body);
        if IsFatal(m.status) || HeaderRefused(f.value.h, f.value.available) then m
        else
          AfterTaking(m.taken, OnRecord(attachId, m.rx, rec[HEADER_SIZE + |f.value.body|..]))
  }

  /** Records are taken until one is fatal, which ends the session. */
  function OnRecords(attachId: u32, rx: Rx, recs: seq<Bytes>): Heard
    decreases |recs|
  {
    if recs == [] then Heard(rx, [], Status.OK)
    else
      var m := OnRecord(attachId, rx, recs[0]);
      if IsFatal(m.status) then m else AfterTaking(m.taken, OnRecords(attachId, m.rx, recs[1..]))
  }

  /** The receiver as the session keeps it: fields and a Reassembler changed in place. */
  class Receiver {
    const attachId: u32
    const reasm: Reassembler
    var active: bool
    var key: Key
    var sb: SubmitBody

    ghost predicate Valid()
      reads this
    {
      reasm.limits == DEFAULT_LIMITS
    }

    ghost function Snapshot(): Rx
      reads this, reasm
    {
      Rx(active, key, sb, reasm.Snapshot())
    }

    constructor (attachId: u32)
      ensures Valid() && this.attachId == attachId && !active && Snapshot().reasm == EMPTY && fresh(reasm)
    {
      this.attachId := attachId;
      reasm := new Reassembler(DEFAULT_LIMITS);
      active, key, sb := false, Key(0, 0), SubmitBody(0, 0, 0, 0, 0, 0, 0, 0, 0, 0, 0);
    }

    method ResetReassembly()
      modifies this, reasm
      ensures Snapshot() == Reset(old(Snapshot()))
    {
      active, key := false, Key(0, 0);
      reasm.Clear();
    }

    method HandleSubmit(h: Header, body: Bytes) returns (st: u16, got: seq<Intake>)
      requires Valid()
      modifies this, reasm
      ensures OnSubmit(attachId, old(Snapshot()), h, body) == Heard(Snapshot(), got, st)
    {
      got := [];
      if h.attachId != attachId { return Status.OK, got; }
      var parsed := ParseSubmit(body);
      if parsed.None? { return Status.MALFORMED_FRAME, got; }
      var b, data := parsed.value, body[BODY_SUBMIT..];
      var v := SubmitRule(h, b, TRANSFER_BYTES_DEFAULT);
      if v != Status.OK { return v, got; }
      if h.SegMore() {
        if b.dir != DIR_OUT { return Status.MALFORMED_FRAME, got; }
        if active { return Status.MALFORMED_FRAME, got; }
        active, key, sb := true, KeyOf(h), b;
        reasm.Clear();
        var o := reasm.Receive(h, data);
        if o.Rejected? {
          ResetReassembly();
          return o.error, got;
        }
        return Status.OK, got;
      }
      if active { return Status.MALFORMED_FRAME, got; }
      st, got := Status.OK, [Intake(h.channel, h.requestId, b, data)];
    }

    method HandleData(h: Header, body: Bytes) returns (st: u16, got: seq<Intake>)
      requires Valid()
      modifies this, reasm
      ensures OnData(attachId, old(Snapshot()), h, body) == Heard(Snapshot(), got, st)
    {
      got := [];
      if h.attachId != attachId { return Status.OK, got; }
      if !active || KeyOf(h) != key { return Status.MALFORMED_FRAME, got; }
      var o := reasm.Receive(h, body);
      if o.Rejected? {
        ResetReassembly();
        return o.error, got;
      }
      if o.NeedMore? { return Status.OK, got; }
      var full := reasm.TakeCompleted(key);
      var whole := Intake(key.channel, key.requestId, sb, full);
      ResetReassembly();
      st, got := Status.OK, [whole];
    }

    method HandleMessage(h: Header, available: nat, body: Bytes) returns (st: u16, got: seq<Intake>)
      requires Valid()
      modifies this, reasm
      ensures OnMessage(attachId, old(Snapshot()), h, available, body) == Heard(Snapshot(), got, st)
    {
      if h.typ != T_SUBMIT && h.typ != T_DATA { return Status.OK, []; }
      var v := HeaderRule(h, available, TRANSFER_BYTES_DEFAULT);
      if v != Status.OK { return v, []; }
      if h.typ == T_SUBMIT { st, got := HandleSubmit(h, body); } else { st, got := HandleData(h, body); }
    }

    method HandleRecord(rec: Bytes) returns (st: u16, got: seq<Intake>)
      requires Valid()
      modifies this, reasm
      ensures OnRecord(attachId, old(Snapshot()), rec) == Heard(Snapshot(), got, st)
    {
      got := [];
      var left := rec;
      while left != []
        invariant Valid()
        invariant OnRecord(attachId, old(Snapshot()), rec) == AfterTaking(got, OnRecord(attachId, Snapshot(), left))
        decreases |left|
      {
        var f := Unframe(left);
        if f.None? { return Status.MALFORMED_FRAME, got; }
        var s, more := HandleMessage(f.value.h, f.value.available, f.value.body);
        got := got + more;
        if IsFatal(s) || HeaderRefused(f.value.h, f.value.available) { return s, got; }
        left := left[HEADER_SIZE + |f.value.body|..];
      }
      st := Status.OK;
    }
  }

  // ---------------------------------------------------------------- one transfer at a time

  /** While an OUT transfer is arriving, another SUBMIT that passes the rules, segmented or not, and DATA for another key are refused, and it goes on arriving. */
  lemma OneAtATime(attachId: u32, rx: Rx, h: Header, body: Bytes)
    requires rx.active && h.attachId == attachId
    ensures |body| >= BODY_SUBMIT && SubmitRule(h, ParseSubmit(body).value, TRANSFER_BYTES_DEFAULT) == Status.OK ==>
              OnSubmit(attachId, rx, h, body) == Heard(rx, [], Status.MALFORMED_FRAME)
    ensures KeyOf(h) != rx.key ==> OnData(attachId, rx, h, body) == Heard(rx, [], Status.MALFORMED_FRAME)
  {}

  /** DATA with nothing arriving is refused; a SUBMIT whose segments would be an IN transfer's, too. */
  lemma NothingToContinue(attachId: u32, rx: Rx, h: Header, body: Bytes)
    requires h.attachId == attachId && !rx.active
    ensures OnData(attachId, rx, h, body) == Heard(rx, [], Status.MALFORMED_FRAME)
    ensures |body| >= BODY_SUBMIT && SubmitRule(h, ParseSubmit(body).value, TRANSFER_BYTES_DEFAULT) == Status.OK
            && h.SegMore() && ParseSubmit(body).value.dir != DIR_OUT ==>
              OnSubmit(attachId, rx, h, body) == Heard(rx, [], Status.MALFORMED_FRAME)
  {}

  /** What is left over of an earlier attach is ignored: nothing is taken in and nothing changes. */
  lemma StaleAttachIgnored(attachId: u32, rx: Rx, h: Header, body: Bytes)
    requires h.attachId != attachId
    ensures OnSubmit(attachId, rx, h, body) == Heard(rx, [], Status.OK) && OnData(attachId, rx, h, body) == Heard(rx, [], Status.OK)
  {}
}
