/**
 * airusb/session/SecureSession.cpp: the handshake and greeting as two ends drive them over links
 * that may take a record a few bytes at a time.
 *
 * A link is a FIFO of records. `flushed` counts the bytes the socket has taken, `taken` the records
 * the far end has read; a record can be read once its last byte was flushed.
 */
module Greeting {
  import opened Wire

  /** What the two ends have to agree on. Capabilities are sets of bit numbers. */
  datatype Terms = Terms(maxRecord: u32, maxTransfer: u32, caps: set<nat>, keepaliveMs: u32)

  const SEGMENTATION: nat := 1

  datatype Msg = Hs(index: nat) | Hello(offer: Terms) | HelloOk(agreed: Terms)

  datatype Link = Link(sent: seq<Msg>, flushed: nat, taken: nat)

  datatype Phase = Handshaking | Greeted | Established | Failed

  datatype End = End(
    initiator: bool, total: nat, cfg: Terms, phase: Phase, msgIndex: nat, helloSent: bool, greetSent: bool, agreed: Option<Terms>)

  /** The bytes of the first `n` records; `w` is a record's size on the wire. */
  function WireBytes(w: Msg -> nat, sent: seq<Msg>, n: nat): nat
    requires n <= |sent|
  {
    if n == 0 then 0 else WireBytes(w, sent, n - 1) + w(sent[n - 1]) + 1
  }

  function Pending(w: Msg -> nat, l: Link): int { WireBytes(w, l.sent, |l.sent|) - l.flushed }

  predicate Receivable(w: Msg -> nat, l: Link) { l.taken < |l.sent| && WireBytes(w, l.sent, l.taken + 1) <= l.flushed }

  function Sent(l: Link, m: Msg): Link { l.(sent := l.sent + [m]) }

  /** One end with the links it reads from and writes to. */
  datatype View = View(e: End, inn: Link, out: Link)


  /** What this end says in HELLO. */
  function Offer(cfg: Terms): Terms { cfg.(caps := cfg.caps + {SEGMENTATION}) }

  /** What the responder works out: the smaller sizes, the faster keepalive, the common capabilities. */
  function Agree(cfg: Terms, peer: Terms): Terms {
    Terms(Min(cfg.maxRecord, peer.maxRecord), Min(cfg.maxTransfer, peer.maxTransfer),
      (cfg.caps + {SEGMENTATION}) * peer.caps, Min(cfg.keepaliveMs, peer.keepaliveMs))
  }

  predicate Acceptable(t: Terms) { SEGMENTATION in t.caps && RECORD_BYTES_FLOOR <= t.maxRecord <= RECORD_BYTES_CEILING }

  // ---------------------------------------------------------------- what an end does next

  predicate OursToSend(e: End) { (e.msgIndex % 2 == 0) == e.initiator }

  /** The record just read leaves the link. */
  function Read(v: View): View { v.(inn := v.inn.(taken := v.inn.taken + 1)) }

  function HandshakeRead(v: View, m: Msg): View {
    if m != Hs(v.e.msgIndex) then Read(v).(e := v.e.(phase := Failed))
    else Read(v).(e := v.e.(msgIndex := v.e.msgIndex + 1))
  }

  /** driveHandshake(), one move; None while it has to wait. */
  function HandshakeMove(w: Msg -> nat, v: View): Option<View> {
    if v.e.msgIndex < v.e.total then
      if OursToSend(v.e) then Some(v.(out := Sent(v.out, Hs(v.e.msgIndex)), e := v.e.(msgIndex := v.e.msgIndex + 1)))
      else if Receivable(w, v.inn) then Some(HandshakeRead(v, v.inn.sent[v.inn.taken]))
      else None
    else if Pending(w, v.out) != 0 then None
    else Some(v.(e := v.e.(phase := Greeted)))
  }

  function GreetingRead(v: View, m: Msg): View {
    if v.e.initiator then
      if m.HelloOk? && Acceptable(m.agreed) then Read(v).(e := v.e.(agreed := Some(m.agreed), phase := Established))
      else Read(v).(e := v.e.(phase := Failed))
    else if m.Hello? && Acceptable(m.offer) then
      var agreed := Agree(v.e.cfg, m.offer);
      Read(v).(e := v.e.(agreed := Some(agreed), greetSent := true), out := Sent(v.out, HelloOk(agreed)))
    else Read(v).(e := v.e.(phase := Failed))
  }

  /** driveGreeting(), one move. */
  function GreetingMove(w: Msg -> nat, v: View): Option<View> {
    if v.e.initiator && !v.e.helloSent then Some(v.(out := Sent(v.out, Hello(Offer(v.e.cfg))), e := v.e.(helloSent := true)))
    else if v.e.greetSent then if Pending(w, v.out) != 0 then None else Some(v.(e := v.e.(phase := Established)))
    else if Receivable(w, v.inn) then Some(GreetingRead(v, v.inn.sent[v.inn.taken]))
    else None
  }

  function Move(w: Msg -> nat, v: View): Option<View> {
    match v.e.phase
    case Handshaking => HandshakeMove(w, v)
    case Greeted => GreetingMove(w, v)
    case _ => None
  }

  /** The socket takes `k` more bytes of what is buffered. */
  function Flushed(w: Msg -> nat, v: View, k: nat): View {
    if k > Pending(w, v.out) then v else v.(out := v.out.(flushed := v.out.flushed + k))
  }

  datatype Step = Flush(bytes: nat) | Act

  function StepEnd(w: Msg -> nat, v: View, s: Step): View {
    match s
    case Flush(k) => Flushed(w, v, k)
    case Act => var m := Move(w, v); if m.None? then v else m.value
  }

  function RunEnd(w: Msg -> nat, v: View, ss: seq<Step>): View
    decreases |ss|
  {
    if ss == [] then v else RunEnd(w, StepEnd(w, v, ss[0]), ss[1..])
  }

  // ---------------------------------------------------------------- the session object

  class SecureSession {
    const w: Msg -> nat
    var e: End
    var inn: Link
    var out: Link

    ghost function Here(): View
      reads this
    {
      View(e, inn, out)
    }

    constructor (w: Msg -> nat, initiator: bool, total: nat, cfg: Terms)
      ensures this.w == w && e == End(initiator, total, cfg, Handshaking, 0, false, false, None)
      ensures inn == Link([], 0, 0) && out == Link([], 0, 0)
    {
      this.w := w;
      e := End(initiator, total, cfg, Handshaking, 0, false, false, None);
      inn, out := Link([], 0, 0), Link([], 0, 0);
    }

    /** flush(): the socket has room for `room` bytes and takes what it can. */
    method FlushSome(room: nat) returns (left: nat, ghost ss: seq<Step>)
      modifies this`out
      ensures Here() == RunEnd(w, old(Here()), ss)
    {
      var pending := Pending(w, out);
      var k := if pending < 0 then 0 else if pending < room then pending else room;
      ss := [Flush(k)];
      assert ss[1..] == [];
      if k <= pending { out := out.(flushed := out.flushed + k); }
      left := room - k;
    }

    /** driveHandshake(): send and read in turn until the peer has to speak; then change the keys. */
    method DriveHandshake(room: nat) returns (ghost ss: seq<Step>)
      requires e.phase == Handshaking
      modifies this
      ensures Here() == RunEnd(w, old(Here()), ss)
    {
      var left;
      left, ss := FlushSome(room);
      while e.phase == Handshaking && e.msgIndex < e.total
        invariant Here() == RunEnd(w, old(Here()), ss)
        decreases e.total - e.msgIndex, if e.phase == Handshaking then 1 else 0
      {
        if OursToSend(e) {
          RunAfter(w, old(Here()), ss, Act);
          out := Sent(out, Hs(e.msgIndex));
          e := e.(msgIndex := e.msgIndex + 1);
          ss := ss + [Act];
          ghost var more;
          ghost var here := Here();
          left, more := FlushSome(left);
          RunConcat(w, old(Here()), ss, more);
          ss := ss + more;
        } else {
          if !Receivable(w, inn) { return; }
          RunAfter(w, old(Here()), ss, Act);
          var m := inn.sent[inn.taken];
          inn := inn.(taken := inn.taken + 1);
          e := if m != Hs(e.msgIndex) then e.(phase := Failed) else e.(msgIndex := e.msgIndex + 1);
          ss := ss + [Act];
        }
      }
      if e.phase != Handshaking || Pending(w, out) != 0 { return; }
      RunAfter(w, old(Here()), ss, Act);
      e := e.(phase := Greeted);
      ss := ss + [Act];
    }

    method DriveGreeting(room: nat) returns (ghost ss: seq<Step>)
      requires e.phase == Greeted
      modifies this
      ensures Here() == RunEnd(w, old(Here()), ss)
    {
      var left;
      ghost var more;
      left, ss := FlushSome(room);
      if e.initiator && !e.helloSent {
        RunAfter(w, old(Here()), ss, Act);
        out := Sent(out, Hello(Offer(e.cfg)));
        e := e.(helloSent := true);
        ss := ss + [Act];
        left, more := FlushSome(left);
        RunConcat(w, old(Here()), ss, more);
        ss := ss + more;
      }
      if !e.greetSent {
        if !Receivable(w, inn) { return; }
        RunAfter(w, old(Here()), ss, Act);
        ReadGreeting(inn.sent[inn.taken]);
        ss := ss + [Act];
        left, more := FlushSome(left);
        RunConcat(w, old(Here()), ss, more);
        ss := ss + more;
      }
      if e.phase != Greeted || !e.greetSent || Pending(w, out) != 0 { return; }
      RunAfter(w, old(Here()), ss, Act);
      assert e.initiator ==> e.helloSent;
      e := e.(phase := Established);
      ss := ss + [Act];
    }

    method ReadGreeting(m: Msg)
      modifies this
      ensures Here() == GreetingRead(old(Here()), m)
    {
      inn := inn.(taken := inn.taken + 1);
      if e.initiator {
        if m.HelloOk? && Acceptable(m.agreed) { e := e.(agreed := Some(m.agreed), phase := Established); }
        else { e := e.(phase := Failed); }
        return;
      }
      if m.Hello? && Acceptable(m.offer) {
        var agreed := Agree(e.cfg, m.offer);
        out := Sent(out, HelloOk(agreed));
        e := e.(agreed := Some(agreed), greetSent := true);
      } else {
        e := e.(phase := Failed);
      }
    }
  }

  lemma {:induction false} RunConcat(w: Msg -> nat, v: View, a: seq<Step>, b: seq<Step>)
    ensures RunEnd(w, v, a + b) == RunEnd(w, RunEnd(w, v, a), b)
    decreases |a|
  {
    if a == [] {
      assert a + b == b;
    } else {
      assert (a + b)[1..] == a[1..] + b;
      RunConcat(w, StepEnd(w, v, a[0]), a[1..], b);
    }
  }

  lemma RunAfter(w: Msg -> nat, v: View, ss: seq<Step>, s: Step)
    ensures RunEnd(w, v, ss + [s]) == StepEnd(w, RunEnd(w, v, ss), s)
  {
    RunConcat(w, v, ss, [s]);
    assert [s][1..] == [];
  }
}
