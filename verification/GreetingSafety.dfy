/** Two honest ends: they never fail, agree on the same terms, and cannot wait for each other for ever. */
module GreetingSafety {
  import opened Wire
  import opened Greeting

  /** `up` carries what the initiator sends, `down` what the responder sends. */
  datatype System = System(i: End, r: End, up: Link, down: Link)

  datatype SysStep = SysStep(byInitiator: bool, step: Step)

  function ViewOf(s: System, initiator: bool): View { if initiator then View(s.i, s.down, s.up) else View(s.r, s.up, s.down) }

  function WithView(s: System, initiator: bool, v: View): System {
    if initiator then System(v.e, s.r, v.out, v.inn) else System(s.i, v.e, v.inn, v.out)
  }

  function StepSystem(w: Msg -> nat, s: System, x: SysStep): System {
    WithView(s, x.byInitiator, StepEnd(w, ViewOf(s, x.byInitiator), x.step))
  }

  function RunSystem(w: Msg -> nat, s: System, xs: seq<SysStep>): System
    decreases |xs|
  {
    if xs == [] then s else RunSystem(w, StepSystem(w, s, xs[0]), xs[1..])
  }

  function Fresh(total: nat, ci: Terms, cr: Terms): System {
    System(End(true, total, ci, Handshaking, 0, false, false, None), End(false, total, cr, Handshaking, 0, false, false, None),
      Link([], 0, 0), Link([], 0, 0))
  }

  predicate LegalTerms(t: Terms) { RECORD_BYTES_FLOOR <= t.maxRecord <= RECORD_BYTES_CEILING }

  // ---------------------------------------------------------------- the invariant

  /** Handshake messages with even numbers below `n`, and with odd ones: the initiator's and the responder's. */
  function Evens(n: nat): nat { (n + 1) / 2 }
  function Odds(n: nat): nat { n / 2 }
  function One(b: bool): nat { if b then 1 else 0 }

  ghost predicate LinkOk(w: Msg -> nat, l: Link) {
    l.taken <= |l.sent| && WireBytes(w, l.sent, l.taken) <= l.flushed <= WireBytes(w, l.sent, |l.sent|)
  }

  ghost predicate UpOk(up: Link, i: End, r: End) {
    && |up.sent| == Evens(i.msgIndex) + One(i.helloSent) && up.taken == Evens(r.msgIndex) + One(r.greetSent)
    && (forall j :: 0 <= j < Evens(i.msgIndex) ==> up.sent[j] == Hs(2 * j))
    && (i.helloSent ==> up.sent[|up.sent| - 1] == Hello(Offer(i.cfg)))
  }

  ghost predicate DownOk(down: Link, i: End, r: End) {
    && |down.sent| == Odds(r.msgIndex) + One(r.greetSent) && down.taken == Odds(i.msgIndex) + One(i.phase == Established)
    && (forall j :: 0 <= j < Odds(r.msgIndex) ==> down.sent[j] == Hs(2 * j + 1))
    && (r.greetSent ==> down.sent[|down.sent| - 1] == HelloOk(Agree(r.cfg, Offer(i.cfg))))
  }

  ghost predicate EndsOk(i: End, r: End) {
    && i.initiator && !r.initiator && i.total == r.total && i.total > 0 && LegalTerms(i.cfg) && LegalTerms(r.cfg)
    && i.phase != Failed && r.phase != Failed && i.msgIndex <= i.total && r.msgIndex <= r.total
    && (i.phase != Handshaking ==> i.msgIndex == i.total) && (r.phase != Handshaking ==> r.msgIndex == r.total)
    && (i.helloSent ==> i.phase != Handshaking) && !i.greetSent && !r.helloSent && (r.greetSent ==> r.phase != Handshaking)
    && (i.phase == Established ==> i.helloSent && r.greetSent) && (r.phase == Established ==> r.greetSent) && (r.greetSent ==> i.helloSent)
    && i.agreed == (if i.phase == Established then Some(Agree(r.cfg, Offer(i.cfg))) else None)
    && r.agreed == (if r.greetSent then Some(Agree(r.cfg, Offer(i.cfg))) else None)
  }

  /** Nobody is more than one message ahead, and only whoever spoke last is. */
  ghost predicate Turns(i: End, r: End) {
    i.msgIndex == r.msgIndex || (i.msgIndex == r.msgIndex + 1 && r.msgIndex % 2 == 0) || (r.msgIndex == i.msgIndex + 1 && i.msgIndex % 2 == 1)
  }

  ghost predicate Inv(w: Msg -> nat, s: System) {
    && LinkOk(w, s.up) && LinkOk(w, s.down) && EndsOk(s.i, s.r) && Turns(s.i, s.r)
    && UpOk(s.up, s.i, s.r) && DownOk(s.down, s.i, s.r)
    && (s.r.phase == Established ==> Pending(w, s.down) == 0)
  }

  lemma InitialInv(w: Msg -> nat, total: nat, ci: Terms, cr: Terms)
    requires total > 0 && LegalTerms(ci) && LegalTerms(cr)
    ensures Inv(w, Fresh(total, ci, cr))
  {}

  // ---------------------------------------------------------------- bytes

  lemma {:induction false} WireBytesPrefix(w: Msg -> nat, sent: seq<Msg>, m: Msg, n: nat)
    requires n <= |sent|
    ensures WireBytes(w, sent + [m], n) == WireBytes(w, sent, n)
    decreases n
  {
    if n > 0 { WireBytesPrefix(w, sent, m, n - 1); }
  }

  lemma {:induction false} WireBytesRise(w: Msg -> nat, sent: seq<Msg>, a: nat, b: nat)
    requires a <= b <= |sent|
    ensures WireBytes(w, sent, a) <= WireBytes(w, sent, b) && (a < b ==> WireBytes(w, sent, a) < WireBytes(w, sent, b))
    decreases b
  {
    if a < b { WireBytesRise(w, sent, a, b - 1); }
  }

  lemma SentOk(w: Msg -> nat, l: Link, m: Msg)
    requires LinkOk(w, l)
    ensures LinkOk(w, Sent(l, m)) && Pending(w, Sent(l, m)) > Pending(w, l)
  {
    WireBytesPrefix(w, l.sent, m, l.taken);
    WireBytesPrefix(w, l.sent, m, |l.sent|);
  }

  // ---------------------------------------------------------------- every step keeps it

  lemma FlushUp(w: Msg -> nat, s: System, k: nat)
    requires Inv(w, s)
    ensures Inv(w, StepSystem(w, s, SysStep(true, Flush(k))))
  {
    var t := StepSystem(w, s, SysStep(true, Flush(k)));
    assert t.down == s.down && t.i == s.i && t.r == s.r && t.up.sent == s.up.sent && t.up.taken == s.up.taken;
  }

  lemma FlushDown(w: Msg -> nat, s: System, k: nat)
    requires Inv(w, s)
    ensures Inv(w, StepSystem(w, s, SysStep(false, Flush(k))))
  {
    var t := StepSystem(w, s, SysStep(false, Flush(k)));
    assert t.up == s.up && t.i == s.i && t.r == s.r && t.down.sent == s.down.sent && t.down.taken == s.down.taken;
  }

  lemma InitiatorSends(w: Msg -> nat, s: System)
    requires Inv(w, s) && s.i.phase == Handshaking && s.i.msgIndex < s.i.total && OursToSend(s.i)
    ensures Inv(w, StepSystem(w, s, SysStep(true, Act)))
  {
    SentOk(w, s.up, Hs(s.i.msgIndex));
  }

  lemma InitiatorReads(w: Msg -> nat, s: System)
    requires Inv(w, s) && s.i.phase == Handshaking && s.i.msgIndex < s.i.total && !OursToSend(s.i)
    ensures Inv(w, StepSystem(w, s, SysStep(true, Act)))
  {}

  lemma InitiatorFinishes(w: Msg -> nat, s: System)
    requires Inv(w, s) && s.i.phase == Handshaking && s.i.msgIndex == s.i.total
    ensures Inv(w, StepSystem(w, s, SysStep(true, Act)))
  {}

  lemma InitiatorSaysHello(w: Msg -> nat, s: System)
    requires Inv(w, s) && s.i.phase == Greeted && !s.i.helloSent
    ensures Inv(w, StepSystem(w, s, SysStep(true, Act)))
  {
    SentOk(w, s.up, Hello(Offer(s.i.cfg)));
  }

  lemma InitiatorAdopts(w: Msg -> nat, s: System)
    requires Inv(w, s) && s.i.phase == Greeted && s.i.helloSent
    ensures Inv(w, StepSystem(w, s, SysStep(true, Act)))
  {
    assert Receivable(w, s.down) ==> s.down.taken == |s.down.sent| - 1;
  }

  lemma InitiatorActs(w: Msg -> nat, s: System)
    requires Inv(w, s)
    ensures Inv(w, StepSystem(w, s, SysStep(true, Act)))
  {
    if s.i.phase == Greeted {
      if s.i.helloSent { InitiatorAdopts(w, s); } else { InitiatorSaysHello(w, s); }
    }
    else if s.i.phase == Handshaking {
      if s.i.msgIndex == s.i.total { InitiatorFinishes(w, s); }
      else if OursToSend(s.i) { InitiatorSends(w, s); }
      else { InitiatorReads(w, s); }
    }
  }

  lemma ResponderSends(w: Msg -> nat, s: System)
    requires Inv(w, s) && s.r.phase == Handshaking && s.r.msgIndex < s.r.total && OursToSend(s.r)
    ensures Inv(w, StepSystem(w, s, SysStep(false, Act)))
  {
    SentOk(w, s.down, Hs(s.r.msgIndex));
  }

  lemma ResponderReads(w: Msg -> nat, s: System)
    requires Inv(w, s) && s.r.phase == Handshaking && s.r.msgIndex < s.r.total && !OursToSend(s.r)
    ensures Inv(w, StepSystem(w, s, SysStep(false, Act)))
  {}

  lemma ResponderFinishes(w: Msg -> nat, s: System)
    requires Inv(w, s) && s.r.phase == Handshaking && s.r.msgIndex == s.r.total
    ensures Inv(w, StepSystem(w, s, SysStep(false, Act)))
  {}

  lemma DownAnswered(down: Link, i: End, r: End, q: End)
    requires DownOk(down, i, r) && !r.greetSent && q.greetSent && q.msgIndex == r.msgIndex && q.cfg == r.cfg
    ensures DownOk(Sent(down, HelloOk(Agree(r.cfg, Offer(i.cfg)))), i, q)
  {}

  lemma UpHeard(up: Link, i: End, r: End, q: End)
    requires UpOk(up, i, r) && !r.greetSent && q.greetSent && q.msgIndex == r.msgIndex
    ensures UpOk(up.(taken := up.taken + 1), i, q)
  {}

  /** HELLO is read and answered in one move. */
  lemma ResponderAnswers(w: Msg -> nat, s: System)
    requires Inv(w, s) && s.r.phase == Greeted && !s.r.greetSent
    ensures Inv(w, StepSystem(w, s, SysStep(false, Act)))
  {
    if Receivable(w, s.up) {
      var t := StepSystem(w, s, SysStep(false, Act));
      assert s.up.taken == |s.up.sent| - 1 && s.up.sent[s.up.taken] == Hello(Offer(s.i.cfg));
      SentOk(w, s.down, HelloOk(Agree(s.r.cfg, Offer(s.i.cfg))));
      DownAnswered(s.down, s.i, s.r, t.r);
      UpHeard(s.up, s.i, s.r, t.r);
    }
  }

  lemma ResponderSettles(w: Msg -> nat, s: System)
    requires Inv(w, s) && s.r.phase == Greeted && s.r.greetSent
    ensures Inv(w, StepSystem(w, s, SysStep(false, Act)))
  {}

  lemma ResponderActs(w: Msg -> nat, s: System)
    requires Inv(w, s)
    ensures Inv(w, StepSystem(w, s, SysStep(false, Act)))
  {
    if s.r.phase == Greeted {
      if s.r.greetSent { ResponderSettles(w, s); } else { ResponderAnswers(w, s); }
    }
    else if s.r.phase == Handshaking {
      if s.r.msgIndex == s.r.total { ResponderFinishes(w, s); }
      else if OursToSend(s.r) { ResponderSends(w, s); }
      else { ResponderReads(w, s); }
    }
  }

  lemma StepInv(w: Msg -> nat, s: System, x: SysStep)
    requires Inv(w, s)
    ensures Inv(w, StepSystem(w, s, x))
  {
    match x.step
    case Flush(k) => if x.byInitiator { FlushUp(w, s, k); } else { FlushDown(w, s, k); }
    case Act => if x.byInitiator { InitiatorActs(w, s); } else { ResponderActs(w, s); }
  }

  lemma {:induction false} RunInv(w: Msg -> nat, s: System, xs: seq<SysStep>)
    requires Inv(w, s)
    ensures Inv(w, RunSystem(w, s, xs))
    decreases |xs|
  {
    if xs != [] {
      StepInv(w, s, xs[0]);
      RunInv(w, StepSystem(w, s, xs[0]), xs[1..]);
    }
  }

  // ---------------------------------------------------------------- what follows

  /**
   * Over every interleaving and every partial write: no honest end fails; an established initiator has been
   * sent HELLO_OK; nothing is left buffered behind a change of record size; and whoever is established holds
   * the smaller sizes, the faster keepalive and exactly the common capabilities, segmentation among them.
   */
  lemma GreetingAgrees(w: Msg -> nat, total: nat, ci: Terms, cr: Terms, xs: seq<SysStep>)
    requires total > 0 && LegalTerms(ci) && LegalTerms(cr)
    ensures var s := RunSystem(w, Fresh(total, ci, cr), xs); var terms := Agree(s.r.cfg, Offer(s.i.cfg));
            && s.i.phase != Failed && s.r.phase != Failed
            && (s.i.phase == Established ==> s.r.greetSent && s.i.agreed == Some(terms) && Pending(w, s.up) == 0)
            && (s.r.phase == Established ==> s.r.agreed == Some(terms) && Pending(w, s.down) == 0)
            && SEGMENTATION in terms.caps && LegalTerms(terms)
            && (forall x :: x in terms.caps <==> x == SEGMENTATION || (x in s.i.cfg.caps && x in s.r.cfg.caps))
  {
    InitialInv(w, total, ci, cr);
    RunInv(w, Fresh(total, ci, cr), xs);
  }

  /** The terms are those of the two configurations, in either order of speaking. */
  lemma TermsAreTheMinimum(ci: Terms, cr: Terms)
    ensures var t := Agree(cr, Offer(ci));
            && t.maxRecord <= ci.maxRecord && t.maxRecord <= cr.maxRecord && (t.maxRecord == ci.maxRecord || t.maxRecord == cr.maxRecord)
            && t.maxTransfer <= ci.maxTransfer && t.maxTransfer <= cr.maxTransfer && (t.maxTransfer == ci.maxTransfer || t.maxTransfer == cr.maxTransfer)
            && t.keepaliveMs <= ci.keepaliveMs && t.keepaliveMs <= cr.keepaliveMs && (t.keepaliveMs == ci.keepaliveMs || t.keepaliveMs == cr.keepaliveMs)
            && t == Agree(ci, Offer(cr))
  {}

  predicate BothDone(s: System) { s.i.phase == Established && s.r.phase == Established }

  /** With nothing buffered at either end, somebody can move, unless both are done. */
  lemma NeverStuck(w: Msg -> nat, s: System)
    requires Inv(w, s) && !BothDone(s)
    requires Pending(w, s.up) == 0 && Pending(w, s.down) == 0
    ensures Move(w, ViewOf(s, true)).Some? || Move(w, ViewOf(s, false)).Some?
  {
    if s.up.taken < |s.up.sent| { WireBytesRise(w, s.up.sent, s.up.taken + 1, |s.up.sent|); }
    if s.down.taken < |s.down.sent| { WireBytesRise(w, s.down.sent, s.down.taken + 1, |s.down.sent|); }
  }

  function Rank(p: Phase): nat { match p case Handshaking => 2 case Greeted => 1 case _ => 0 }

  /** How much the ends have still to do, messages and changes of phase. */
  function ToDo(s: System): int {
    (s.i.total - s.i.msgIndex) + (s.r.total - s.r.msgIndex) + Rank(s.i.phase) + Rank(s.r.phase) + One(!s.i.helloSent) + One(!s.r.greetSent)
  }

  /** A move leaves less to do. */
  lemma MovesAreProgress(w: Msg -> nat, s: System, who: bool)
    requires EndsOk(s.i, s.r) && Move(w, ViewOf(s, who)).Some?
    ensures ToDo(StepSystem(w, s, SysStep(who, Act))) < ToDo(s)
  {}

  /** A flush of at least one byte leaves less buffered and no more to do. */
  lemma FlushesAreProgress(w: Msg -> nat, s: System, who: bool, k: nat)
    requires 0 < k <= Pending(w, ViewOf(s, who).out)
    ensures var t := StepSystem(w, s, SysStep(who, Flush(k)));
            ToDo(t) == ToDo(s) && Pending(w, t.up) + Pending(w, t.down) < Pending(w, s.up) + Pending(w, s.down)
  {}

  /** A step that does something: a move, or a flush of at least one byte. */
  predicate Effective(w: Msg -> nat, s: System, x: SysStep) {
    if x.step.Act? then Move(w, ViewOf(s, x.byInitiator)).Some? else 0 < x.step.bytes <= Pending(w, ViewOf(s, x.byInitiator).out)
  }

  /**
   * Neither end waits for ever: from every reachable state in which the two are not both established there
   * is a step that does something, and every such step brings them closer, in a well-founded order.
   */
  lemma PairCompletes(w: Msg -> nat, total: nat, ci: Terms, cr: Terms, xs: seq<SysStep>)
    requires total > 0 && LegalTerms(ci) && LegalTerms(cr)
    ensures var s := RunSystem(w, Fresh(total, ci, cr), xs);
            && (BothDone(s) || exists x :: Effective(w, s, x))
            && ToDo(s) >= 0 && Pending(w, s.up) >= 0 && Pending(w, s.down) >= 0
    ensures var s := RunSystem(w, Fresh(total, ci, cr), xs);
            forall x :: Effective(w, s, x) ==> var t := StepSystem(w, s, x); Closer(w, t, s)
  {
    InitialInv(w, total, ci, cr);
    RunInv(w, Fresh(total, ci, cr), xs);
    var s := RunSystem(w, Fresh(total, ci, cr), xs);
    SomeStep(w, s);
    forall x | Effective(w, s, x) ensures Closer(w, StepSystem(w, s, x), s) {
      if x.step.Act? { MovesAreProgress(w, s, x.byInitiator); } else { FlushesAreProgress(w, s, x.byInitiator, x.step.bytes); }
    }
  }

  /** Fewer things to do, or as many and fewer bytes buffered. */
  predicate Closer(w: Msg -> nat, t: System, s: System) {
    ToDo(t) < ToDo(s) || (ToDo(t) == ToDo(s) && Pending(w, t.up) + Pending(w, t.down) < Pending(w, s.up) + Pending(w, s.down))
  }

  lemma SomeStep(w: Msg -> nat, s: System)
    requires Inv(w, s)
    ensures BothDone(s) || exists x :: Effective(w, s, x)
  {
    if Pending(w, s.up) > 0 {
      assert Effective(w, s, SysStep(true, Flush(1)));
    } else if Pending(w, s.down) > 0 {
      assert Effective(w, s, SysStep(false, Flush(1)));
    } else if !BothDone(s) {
      NeverStuck(w, s);
      if Move(w, ViewOf(s, true)).Some? { assert Effective(w, s, SysStep(true, Act)); }
      else { assert Effective(w, s, SysStep(false, Act)); }
    }
  }

  /** An end leaves the handshake for the greeting, where the keys change, exactly when all messages are done and its own are on the wire. */
  lemma GreetsExactly(w: Msg -> nat, v: View)
    requires v.e.phase == Handshaking
    ensures var m := Move(w, v);
            m.Some? && m.value.e.phase == Greeted <==> v.e.msgIndex >= v.e.total && WireBytes(w, v.out.sent, |v.out.sent|) == v.out.flushed
  {}

  /** A handshake goes on exactly on the message whose turn it is. */
  lemma HandshakeRefusedExactly(v: View, m: Msg)
    requires v.e.phase == Handshaking
    ensures var r := HandshakeRead(v, m);
            && (r.e.phase == Failed <==> !(m.Hs? && m.index == v.e.msgIndex))
            && (r.e.phase != Failed ==> r.e.phase == Handshaking && r.e.msgIndex == v.e.msgIndex + 1)
  {}

  /** An end that reads a greeting gives up exactly on the wrong message, an offer without segmentation, or a record size outside 1024 to 65519. */
  lemma GreetingRefusedExactly(v: View, m: Msg)
    requires v.e.phase == Greeted
    ensures GreetingRead(v, m).e.phase == Failed <==>
            !(m.HelloOk? && v.e.initiator && 1 in m.agreed.caps && 1024 <= m.agreed.maxRecord <= 65519)
            && !(m.Hello? && !v.e.initiator && 1 in m.offer.caps && 1024 <= m.offer.maxRecord <= 65519)
  {}
}
