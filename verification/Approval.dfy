/**
 * The pairing core of airusb/control/HubState.cpp: on both roles, a person answers a question about
 * the session on screen, and the answer may pin that session's peer. A ticket names the question.
 */
module Approval {
  import opened Wire
  import Status

  type Peer = nat
  type Ticket = nat

  /** No question is pending. */
  const NO_TICKET: Ticket := 0

  /** An authenticated session: who is at the far end, and this session's six digits. */
  datatype Session = Session(peer: Peer, sas: nat)

  datatype Role = Share | Import

  /** A question put to a person. */
  datatype Question = Question(role: Role, session: Session)

  /** What a person answered, as the window sent it back. */
  datatype Reply = Reply(ticket: Ticket, fingerprint: string, sas: nat, accept: bool)

  /** A peer was trusted on the strength of `reply`. */
  datatype Pin = Pin(role: Role, peer: Peer, reply: Reply)

  datatype ShareState = ShareOff | Listening | Handshaking | ShareAwaiting | Serving

  datatype ImportState = ImportOff | Connecting | ImportAwaiting | WaitingForPeer | Connected

  /** One role's side: its session and what the window shows for it. */
  datatype Sharing = Sharing(state: ShareState, session: Option<Session>, fingerprint: string, sas: nat, ticket: Ticket, listening: bool)

  datatype Importing = Importing(
    state: ImportState, client: Option<Session>, fingerprint: string, sas: nat, ticket: Ticket, pinned: bool, auto: bool)

  /** `asked` remembers every question ever put, under its ticket; `pins` every peer trusted. */
  datatype Hub = Hub(share: Sharing, imp: Importing, asked: map<Ticket, Question>, pins: seq<Pin>)

  const START := Hub(Sharing(ShareOff, None, "", 0, NO_TICKET, false), Importing(ImportOff, None, "", 0, NO_TICKET, false, false), map[], [])

  // ---------------------------------------------------------------- the check

  function CheckApproval(have: Ticket, haveFp: string, haveSas: nat, r: Reply): u16 {
    if have == NO_TICKET || r.ticket != have || r.fingerprint != haveFp || r.sas != haveSas then Status.NOT_PERMITTED else Status.OK
  }

  // ---------------------------------------------------------------- sharing

  function ShareDropped(s: Sharing): Sharing {
    Sharing(if s.listening then Listening else ShareOff, None, "", 0, NO_TICKET, s.listening)
  }

  /** The handshake of an inbound session ended; an unpaired peer becomes a question. */
  function ShareEstablished(h: Hub, fp: Peer -> string, x: Session, paired: bool, begun: bool, minted: Ticket): Hub {
    if h.share.state != Handshaking then h
    else if !begun then h.(share := ShareDropped(h.share))
    else
      var s := h.share.(session := Some(x), fingerprint := fp(x.peer), sas := x.sas);
      if paired then h.(share := s.(state := Serving))
      else h.(share := s.(state := ShareAwaiting, ticket := minted), asked := h.asked[minted := Question(Share, x)])
  }

  function ShareApprove(h: Hub, r: Reply, pinned: bool): Hub {
    var s := h.share;
    if s.state != ShareAwaiting || s.session.None? || CheckApproval(s.ticket, s.fingerprint, s.sas, r) != Status.OK then h
    else if !r.accept then h.(share := ShareDropped(s))
    else if !pinned then h
    else h.(pins := h.pins + [Pin(Share, s.session.value.peer, r)], share := ShareDropped(s))
  }

  // ---------------------------------------------------------------- importing

  function SessionDropped(i: Importing): Importing { i.(client := None, fingerprint := "", sas := 0) }

  function Disconnected(i: Importing): Importing { SessionDropped(i).(pinned := false, auto := false, state := ImportOff) }

  function Opened(i: Importing, fp: Peer -> string, x: Session): Importing { i.(client := Some(x), fingerprint := fp(x.peer), sas := x.sas) }

  /** Ask about the session `x`, just reached. */
  function AskImport(h: Hub, i: Importing, x: Session, minted: Ticket): Hub {
    h.(imp := i.(state := ImportAwaiting, ticket := minted), asked := h.asked[minted := Question(Import, x)])
  }

  /** importConnect; `reached` is the session, if the far end could be reached, `listed` what listing its devices said. */
  function ImportConnect(h: Hub, fp: Peer -> string, reached: Option<Session>, paired: bool, listed: u16, minted: Ticket): Hub {
    var i := if h.imp.state != ImportOff then Disconnected(h.imp) else h.imp;
    var c := i.(state := Connecting, pinned := false, auto := true);
    if reached.None? then h.(imp := c.(state := ImportOff, auto := false))
    else
      var o := Opened(c, fp, reached.value);
      if !paired then AskImport(h, o, reached.value, minted)
      else if listed == Status.NOT_PAIRED || listed == Status.NOT_PERMITTED then h.(imp := o.(pinned := true, state := WaitingForPeer))
      else h.(imp := o.(pinned := true, state := Connected, auto := false))
  }

  /** pumpImportPairing, when its second is up. */
  function ImportTick(h: Hub, fp: Peer -> string, reached: Option<Session>, alive: bool, listed: u16, minted: Ticket): Hub {
    var i := h.imp;
    if !i.auto || !(i.state in {ImportAwaiting, WaitingForPeer, Connecting}) then h
    else if i.client.None? then
      if reached.None? then h
      else
        var o := Opened(i, fp, reached.value);
        if i.pinned then h.(imp := o.(state := WaitingForPeer, ticket := NO_TICKET)) else AskImport(h, o, reached.value, minted)
    else if !alive then h.(imp := SessionDropped(i).(state := Connecting))
    else if i.state == WaitingForPeer && listed == Status.OK then h.(imp := i.(state := Connected))
    else h
  }

  function ImportApprove(h: Hub, r: Reply, recorded: bool, listed: u16): Hub {
    var i := h.imp;
    if i.state != ImportAwaiting || i.client.None? || CheckApproval(i.ticket, i.fingerprint, i.sas, r) != Status.OK then h
    else if !r.accept then h.(imp := Disconnected(i))
    else if !recorded then h
    else
      var p := i.(pinned := true, ticket := NO_TICKET);
      h.(pins := h.pins + [Pin(Import, i.client.value.peer, r)],
         imp := if listed == Status.OK then p.(state := Connected, auto := false) else p.(state := WaitingForPeer))
  }

  // ---------------------------------------------------------------- runs

  datatype Event =
    | EShareStart
    | EShareStop
    | EShareAccept
    | EShareEstablished(x: Session, paired: bool, begun: bool, minted: Ticket)
    | EShareLost
    | EShareApprove(shareReply: Reply, pinned: bool)
    | EImportConnect(reached: Option<Session>, known: bool, listed: u16, ticket: Ticket)
    | EImportTick(reachedAgain: Option<Session>, alive: bool, relisted: u16, next: Ticket)
    | EImportApprove(importReply: Reply, recorded: bool, after: u16)
    | EImportDisconnect

  function Step(fp: Peer -> string, h: Hub, e: Event): Hub {
    match e
    case EShareStart => if h.share.state == ShareOff then h.(share := h.share.(state := Listening, listening := true)) else h
    case EShareStop => h.(share := Sharing(ShareOff, None, "", 0, NO_TICKET, false))
    case EShareAccept =>
      if h.share.state == Listening && h.share.session.None? then h.(share := h.share.(state := Handshaking)) else h
    case EShareEstablished(x, paired, begun, minted) => ShareEstablished(h, fp, x, paired, begun, minted)
    case EShareLost => if h.share.state == ShareOff then h else h.(share := ShareDropped(h.share))
    case EShareApprove(r, pinned) => ShareApprove(h, r, pinned)
    case EImportConnect(reached, known, listed, minted) => ImportConnect(h, fp, reached, known, listed, minted)
    case EImportTick(reached, alive, listed, minted) => ImportTick(h, fp, reached, alive, listed, minted)
    case EImportApprove(r, recorded, listed) => ImportApprove(h, r, recorded, listed)
    case EImportDisconnect => h.(imp := Disconnected(h.imp))
  }

  /** Tickets come out of the random source fresh, and never as the sentinel. */
  predicate Fresh(h: Hub, t: Ticket) { t != NO_TICKET && t !in h.asked }

  predicate Possible(h: Hub, e: Event) {
    match e
    case EShareEstablished(_, _, _, minted) => Fresh(h, minted)
    case EImportConnect(_, _, _, minted) => Fresh(h, minted)
    case EImportTick(_, _, _, minted) => Fresh(h, minted)
    case _ => true
  }

  predicate PossibleRun(fp: Peer -> string, h: Hub, es: seq<Event>)
    decreases |es|
  {
    es == [] || (Possible(h, es[0]) && PossibleRun(fp, Step(fp, h, es[0]), es[1..]))
  }

  function Run(fp: Peer -> string, h: Hub, es: seq<Event>): Hub
    decreases |es|
  {
    if es == [] then h else Run(fp, Step(fp, h, es[0]), es[1..])
  }

  // ---------------------------------------------------------------- what every run keeps

  /** A question on screen is the one that was asked about the live session. */
  ghost predicate OnScreen(fp: Peer -> string, asked: map<Ticket, Question>, role: Role, session: Option<Session>, fingerprint: string, sas: nat, ticket: Ticket) {
    && session.Some? && ticket in asked && ticket != NO_TICKET && asked[ticket] == Question(role, session.value)
    && fingerprint == fp(session.value.peer) && sas == session.value.sas
  }

  /** A pin is for the peer, and on the digits, of the session its ticket was minted for. */
  ghost predicate Bound(fp: Peer -> string, asked: map<Ticket, Question>, p: Pin) {
    && p.reply.accept && p.reply.ticket in asked && asked[p.reply.ticket].role == p.role
    && asked[p.reply.ticket].session == Session(p.peer, p.reply.sas) && p.reply.fingerprint == fp(p.peer)
  }

  ghost predicate Spent(pins: seq<Pin>, t: Ticket) { exists i :: 0 <= i < |pins| && pins[i].reply.ticket == t }

  ghost predicate Inv(fp: Peer -> string, h: Hub) {
    && (h.share.state == ShareAwaiting ==>
          OnScreen(fp, h.asked, Share, h.share.session, h.share.fingerprint, h.share.sas, h.share.ticket) && !Spent(h.pins, h.share.ticket))
    && (h.imp.state == ImportAwaiting && h.imp.client.Some? ==>
          OnScreen(fp, h.asked, Import, h.imp.client, h.imp.fingerprint, h.imp.sas, h.imp.ticket) && !Spent(h.pins, h.imp.ticket))
    && (forall i :: 0 <= i < |h.pins| ==> Bound(fp, h.asked, h.pins[i]))
    && (forall i, j :: 0 <= i < j < |h.pins| ==> h.pins[i].reply.ticket != h.pins[j].reply.ticket)
  }

  lemma SpentGrows(pins: seq<Pin>, p: Pin, t: Ticket)
    ensures Spent(pins + [p], t) <==> Spent(pins, t) || p.reply.ticket == t
  {
    if Spent(pins, t) {
      var i :| 0 <= i < |pins| && pins[i].reply.ticket == t;
      assert (pins + [p])[i].reply.ticket == t;
    }
    assert (pins + [p])[|pins|] == p;
  }

  /** A fresh question changes nothing about the old ones. */
  lemma AskKeepsPins(fp: Peer -> string, asked: map<Ticket, Question>, pins: seq<Pin>, t: Ticket, q: Question)
    requires t !in asked && forall i :: 0 <= i < |pins| ==> Bound(fp, asked, pins[i])
    ensures !Spent(pins, t) && forall i :: 0 <= i < |pins| ==> Bound(fp, asked[t := q], pins[i])
  {
    forall i | 0 <= i < |pins| ensures pins[i].reply.ticket != t && Bound(fp, asked[t := q], pins[i]) {
      assert Bound(fp, asked, pins[i]);
    }
  }

  lemma ShareEstablishedInv(fp: Peer -> string, h: Hub, e: Event)
    requires Inv(fp, h) && Possible(h, e) && e.EShareEstablished?
    ensures Inv(fp, Step(fp, h, e))
  {
    AskKeepsPins(fp, h.asked, h.pins, e.minted, Question(Share, e.x));
  }

  lemma ImportConnectInv(fp: Peer -> string, h: Hub, e: Event)
    requires Inv(fp, h) && Possible(h, e) && e.EImportConnect?
    ensures Inv(fp, Step(fp, h, e))
  {
    if e.reached.Some? { AskKeepsPins(fp, h.asked, h.pins, e.ticket, Question(Import, e.reached.value)); }
  }

  lemma ImportTickInv(fp: Peer -> string, h: Hub, e: Event)
    requires Inv(fp, h) && Possible(h, e) && e.EImportTick?
    ensures Inv(fp, Step(fp, h, e))
  {
    if e.reachedAgain.Some? { AskKeepsPins(fp, h.asked, h.pins, e.next, Question(Import, e.reachedAgain.value)); }
  }

  lemma ShareApproveInv(fp: Peer -> string, h: Hub, e: Event)
    requires Inv(fp, h) && e.EShareApprove?
    ensures Inv(fp, Step(fp, h, e))
  {
    if h.share.session.Some? {
      forall t ensures Spent(h.pins + [Pin(Share, h.share.session.value.peer, e.shareReply)], t) <==> Spent(h.pins, t) || e.shareReply.ticket == t {
        SpentGrows(h.pins, Pin(Share, h.share.session.value.peer, e.shareReply), t);
      }
    }
  }

  lemma ImportApproveInv(fp: Peer -> string, h: Hub, e: Event)
    requires Inv(fp, h) && e.EImportApprove?
    ensures Inv(fp, Step(fp, h, e))
  {
    if h.imp.client.Some? {
      forall t ensures Spent(h.pins + [Pin(Import, h.imp.client.value.peer, e.importReply)], t) <==> Spent(h.pins, t) || e.importReply.ticket == t {
        SpentGrows(h.pins, Pin(Import, h.imp.client.value.peer, e.importReply), t);
      }
    }
  }

  lemma StepInv(fp: Peer -> string, h: Hub, e: Event)
    requires Inv(fp, h) && Possible(h, e)
    ensures Inv(fp, Step(fp, h, e))
  {
    match e
    case EShareEstablished(_, _, _, _) => ShareEstablishedInv(fp, h, e);
    case EShareApprove(_, _) => ShareApproveInv(fp, h, e);
    case EImportConnect(_, _, _, _) => ImportConnectInv(fp, h, e);
    case EImportTick(_, _, _, _) => ImportTickInv(fp, h, e);
    case EImportApprove(_, _, _) => ImportApproveInv(fp, h, e);
    case _ =>
  }

  lemma {:induction false} RunInv(fp: Peer -> string, h: Hub, es: seq<Event>)
    requires Inv(fp, h) && PossibleRun(fp, h, es)
    ensures Inv(fp, Run(fp, h, es))
    decreases |es|
  {
    if es != [] {
      StepInv(fp, h, es[0]);
      RunInv(fp, Step(fp, h, es[0]), es[1..]);
    }
  }

  /**
   * Over every interleaving of connects, drops, reconnects and answers on both roles: each pin records the
   * peer of the very session its ticket was minted for, on that session's digits and that peer's
   * fingerprint; and no ticket authorises two pins.
   */
  lemma PinsAreBound(fp: Peer -> string, es: seq<Event>)
    requires PossibleRun(fp, START, es)
    ensures var h := Run(fp, START, es);
            && (forall i :: 0 <= i < |h.pins| ==> Bound(fp, h.asked, h.pins[i]))
            && (forall i, j :: 0 <= i < j < |h.pins| ==> h.pins[i].reply.ticket != h.pins[j].reply.ticket)
  {
    RunInv(fp, START, es);
  }

  /**
   * Exactly when an answer pins, and whom: the question is on screen, the answer carries its ticket,
   * fingerprint and digits, says yes, and the store takes it; then it is the live session's peer.
   */
  lemma PinsExactly(fp: Peer -> string, h: Hub, e: Event)
    requires Inv(fp, h)
    ensures var r := Step(fp, h, e);
            && (r.pins != h.pins <==>
                  || (e.EShareApprove? && h.share.state == ShareAwaiting && e.pinned && e.shareReply.accept && e.shareReply.ticket == h.share.ticket
                      && e.shareReply.fingerprint == fp(h.share.session.value.peer) && e.shareReply.sas == h.share.session.value.sas)
                  || (e.EImportApprove? && h.imp.state == ImportAwaiting && h.imp.client.Some? && e.recorded && e.importReply.accept
                      && e.importReply.ticket == h.imp.ticket
                      && e.importReply.fingerprint == fp(h.imp.client.value.peer) && e.importReply.sas == h.imp.client.value.sas))
            && (r.pins != h.pins ==>
                  r.pins == h.pins + [if e.EShareApprove? then Pin(Share, h.share.session.value.peer, e.shareReply)
                                      else Pin(Import, h.imp.client.value.peer, e.importReply)])
  {
    assert forall p :: h.pins + [p] != h.pins;
  }

  /** A drop kills the question: an answer to it that arrives later, whatever session is then live, pins nobody. */
  lemma {:induction false} StaleAnswerNeverPins(fp: Peer -> string, h: Hub, es: seq<Event>, r: Reply, pinned: bool)
    requires Inv(fp, h) && h.share.state == ShareAwaiting && r.ticket == h.share.ticket
    requires PossibleRun(fp, Step(fp, h, EShareLost), es)
    ensures var later := Run(fp, Step(fp, h, EShareLost), es); Step(fp, later, EShareApprove(r, pinned)).pins == later.pins
  {
    var lost := Step(fp, h, EShareLost);
    StepInv(fp, h, EShareLost);
    AskedOnce(fp, lost, es, r.ticket);
  }

  /** The importing side asks about `t`, with a session to ask about. */
  predicate AsksImport(h: Hub, t: Ticket) { h.imp.state == ImportAwaiting && h.imp.client.Some? && h.imp.ticket == t }

  lemma {:induction false} AskedImportOnce(fp: Peer -> string, h: Hub, es: seq<Event>, t: Ticket)
    requires PossibleRun(fp, h, es) && t in h.asked && !AsksImport(h, t)
    ensures !AsksImport(Run(fp, h, es), t)
    decreases |es|
  {
    if es != [] { AskedImportOnce(fp, Step(fp, h, es[0]), es[1..], t); }
  }

  /** The same on the importing side: once the session asked about is gone, by whatever event, an answer to that question pins nobody. */
  lemma {:induction false} StaleImportNeverPins(fp: Peer -> string, h: Hub, e: Event, es: seq<Event>, r: Reply, recorded: bool, listed: u16)
    requires Inv(fp, h) && AsksImport(h, r.ticket) && Possible(h, e) && Step(fp, h, e).imp.client.None?
    requires PossibleRun(fp, Step(fp, h, e), es)
    ensures var later := Run(fp, Step(fp, h, e), es); Step(fp, later, EImportApprove(r, recorded, listed)).pins == later.pins
  {
    AskedImportOnce(fp, Step(fp, h, e), es, r.ticket);
  }

  /** On the sharing side only an answer that carries the ticket, fingerprint and digits on screen does anything: a no, or a yes that the store takes, ends the session and its question. */
  lemma ShareAnswerExactly(fp: Peer -> string, h: Hub, r: Reply, pinned: bool)
    ensures var n := Step(fp, h, EShareApprove(r, pinned)); var s := h.share;
            if s.state == ShareAwaiting && s.session.Some? && s.ticket != NO_TICKET && r.ticket == s.ticket
               && r.fingerprint == s.fingerprint && r.sas == s.sas && (!r.accept || pinned)
            then && n.share.session.None? && n.share.ticket == NO_TICKET && n.share.state == (if s.listening then Listening else ShareOff)
                 && n.imp == h.imp && n.asked == h.asked
                 && n.pins == h.pins + (if r.accept then [Pin(Share, s.session.value.peer, r)] else [])
            else n == h
  {}

  /** On the importing side likewise: a no hangs up and stops dialling; a yes that the store takes keeps the session and spends the ticket. */
  lemma ImportAnswerExactly(fp: Peer -> string, h: Hub, r: Reply, recorded: bool, listed: u16)
    ensures var n := Step(fp, h, EImportApprove(r, recorded, listed)); var i := h.imp;
            if i.state == ImportAwaiting && i.client.Some? && i.ticket != NO_TICKET && r.ticket == i.ticket
               && r.fingerprint == i.fingerprint && r.sas == i.sas && (!r.accept || recorded)
            then && n.share == h.share && n.asked == h.asked
                 && (!r.accept ==> n.imp.client.None? && n.imp.state == ImportOff && !n.imp.auto && n.pins == h.pins)
                 && (r.accept ==> && n.imp.client == i.client && n.imp.pinned && n.imp.ticket == NO_TICKET
                                  && n.pins == h.pins + [Pin(Import, i.client.value.peer, r)]
                                  && n.imp.state == if listed == Status.OK then Connected else WaitingForPeer)
            else n == h
  {}

  // ---------------------------------------------------------------- that pairing can succeed

  /** When an inbound handshake ends, a paired peer is served, an unpaired one becomes the question on screen, and a session that could not begin is dropped. */
  lemma EstablishedExactly(fp: Peer -> string, h: Hub, x: Session, paired: bool, begun: bool, minted: Ticket)
    requires h.share.state == Handshaking
    ensures var r := Step(fp, h, EShareEstablished(x, paired, begun, minted));
            && r.imp == h.imp && r.pins == h.pins
            && (begun && paired ==> r.share.state == Serving && r.share.session == Some(x) && r.asked == h.asked)
            && (begun && !paired ==>
                  && r.share.state == ShareAwaiting && r.share.session == Some(x) && r.share.ticket == minted
                  && r.share.fingerprint == fp(x.peer) && r.share.sas == x.sas && r.asked == h.asked[minted := Question(Share, x)])
            && (!begun ==> r.share.state in {Listening, ShareOff} && r.share.session.None? && r.share.ticket == NO_TICKET && r.asked == h.asked)
  {}

  lemma RunTwo(fp: Peer -> string, h: Hub, a: Event, b: Event)
    ensures Run(fp, h, [a, b]) == Step(fp, Step(fp, h, a), b)
  {
    var m := Step(fp, h, a);
    assert [a, b][1..] == [b] && [b][1..] == [];
    assert Run(fp, m, [b]) == Step(fp, m, b);
  }

  /** From the start: share, let an unpaired peer in, and say yes to its question. The peer is pinned, and no other. */
  lemma SharingCanPair(fp: Peer -> string, x: Session, minted: Ticket)
    requires minted != NO_TICKET
    ensures var yes := Reply(minted, fp(x.peer), x.sas, true);
            var h := Run(fp, START, [EShareStart, EShareAccept]);
            var r := Run(fp, h, [EShareEstablished(x, false, true, minted), EShareApprove(yes, true)]);
            r.pins == [Pin(Share, x.peer, yes)] && r.share.session.None?
  {
    var yes := Reply(minted, fp(x.peer), x.sas, true);
    RunTwo(fp, START, EShareStart, EShareAccept);
    var h := Run(fp, START, [EShareStart, EShareAccept]);
    RunTwo(fp, h, EShareEstablished(x, false, true, minted), EShareApprove(yes, true));
  }

  /** From the start on the other side: dial a peer not known yet and say yes. It is pinned, and its device list is asked for. */
  lemma ImportingCanPair(fp: Peer -> string, x: Session, minted: Ticket, listed: u16)
    requires minted != NO_TICKET
    ensures var yes := Reply(minted, fp(x.peer), x.sas, true);
            var r := Run(fp, START, [EImportConnect(Some(x), false, Status.OK, minted), EImportApprove(yes, true, listed)]);
            && r.pins == [Pin(Import, x.peer, yes)] && r.imp.pinned && r.imp.client == Some(x)
            && r.imp.state == if listed == Status.OK then Connected else WaitingForPeer
  {
    RunTwo(fp, START, EImportConnect(Some(x), false, Status.OK, minted), EImportApprove(Reply(minted, fp(x.peer), x.sas, true), true, listed));
  }

  /** A ticket already asked, and not on the sharing screen, never comes back to it. */
  lemma {:induction false} AskedOnce(fp: Peer -> string, h: Hub, es: seq<Event>, t: Ticket)
    requires PossibleRun(fp, h, es) && t in h.asked && t != NO_TICKET && h.share.ticket != t
    ensures Run(fp, h, es).share.ticket != t
    decreases |es|
  {
    if es != [] { AskedOnce(fp, Step(fp, h, es[0]), es[1..], t); }
  }

  // ---------------------------------------------------------------- the object

  class HubState {
    const fp: Peer -> string
    var share: Sharing
    var imp: Importing
    var asked: map<Ticket, Question>
    var pins: seq<Pin>

    ghost function Snapshot(): Hub
      reads this
    {
      Hub(share, imp, asked, pins)
    }

    constructor (fp: Peer -> string)
      ensures Snapshot() == START && this.fp == fp
    {
      this.fp := fp;
      share := Sharing(ShareOff, None, "", 0, NO_TICKET, false);
      imp := Importing(ImportOff, None, "", 0, NO_TICKET, false, false);
      asked, pins := map[], [];
    }

    method ShareDropPeer()
      modifies this`share
      ensures share == ShareDropped(old(share))
    {
      share := share.(session := None);
      share := share.(fingerprint := "", sas := 0);
      share := share.(ticket := NO_TICKET);
      share := share.(state := if share.listening then Listening else ShareOff);
    }

    /** The part of pump() that follows an inbound handshake. */
    method GreetPeer(x: Session, paired: bool, begun: bool, minted: Ticket)
      modifies this`share, this`asked
      ensures Snapshot() == ShareEstablished(old(Snapshot()), fp, x, paired, begun, minted)
    {
      if share.state != Handshaking { return; }
      share := share.(session := Some(x), fingerprint := fp(x.peer), sas := x.sas);
      if !begun {
        ShareDropPeer();
        return;
      }
      if paired {
        share := share.(state := Serving);
      } else {
        share := share.(state := ShareAwaiting);
        share := share.(ticket := minted);
        asked := asked[minted := Question(Share, x)];
      }
    }

    method AnswerShare(r: Reply, pinned: bool) returns (st: u16)
      modifies this`share, this`pins
      ensures Snapshot() == ShareApprove(old(Snapshot()), r, pinned)
      ensures st == Status.OK ==> (old(pins) != pins <==> r.accept)
      ensures st != Status.OK ==> Snapshot() == old(Snapshot())
    {
      if share.state != ShareAwaiting || share.session.None? { return Status.BAD_ARGUMENT; }
      st := CheckApproval(share.ticket, share.fingerprint, share.sas, r);
      if st != Status.OK { return; }
      if !r.accept {
        ShareDropPeer();
        return;
      }
      if !pinned { return Status.INTERNAL; }
      pins := pins + [Pin(Share, share.session.value.peer, r)];
      ShareDropPeer();
    }

    method DropImportSession()
      modifies this`imp
      ensures imp == SessionDropped(old(imp))
    {
      imp := imp.(client := None);
      imp := imp.(fingerprint := "", sas := 0);
    }

    method DisconnectImport()
      modifies this`imp
      ensures imp == Disconnected(old(imp))
    {
      DropImportSession();
      imp := imp.(pinned := false);
      imp := imp.(auto := false);
      imp := imp.(state := ImportOff);
    }

    method Connect(reached: Option<Session>, paired: bool, listed: u16, minted: Ticket)
      modifies this`imp, this`asked
      ensures Snapshot() == ImportConnect(old(Snapshot()), fp, reached, paired, listed, minted)
    {
      if imp.state != ImportOff { DisconnectImport(); }
      imp := imp.(state := Connecting, pinned := false, auto := true);
      if reached.None? {
        imp := imp.(state := ImportOff, auto := false);
        return;
      }
      var x := reached.value;
      imp := imp.(client := Some(x), fingerprint := fp(x.peer), sas := x.sas);
      if !paired {
        imp := imp.(state := ImportAwaiting);
        imp := imp.(ticket := minted);
        asked := asked[minted := Question(Import, x)];
        return;
      }
      imp := imp.(pinned := true);
      if listed == Status.NOT_PAIRED || listed == Status.NOT_PERMITTED {
        imp := imp.(state := WaitingForPeer);
      } else {
        imp := imp.(state := Connected);
        imp := imp.(auto := false);
      }
    }

    method PumpImportPairing(reached: Option<Session>, alive: bool, listed: u16, minted: Ticket)
      modifies this`imp, this`asked
      ensures Snapshot() == ImportTick(old(Snapshot()), fp, reached, alive, listed, minted)
    {
      if !imp.auto { return; }
      if imp.state != ImportAwaiting && imp.state != WaitingForPeer && imp.state != Connecting { return; }
      if imp.client.None? {
        if reached.None? { return; }
        var x := reached.value;
        imp := imp.(client := Some(x), fingerprint := fp(x.peer), sas := x.sas);
        imp := imp.(state := if imp.pinned then WaitingForPeer else ImportAwaiting);
        if imp.pinned {
          imp := imp.(ticket := NO_TICKET);
        } else {
          imp := imp.(ticket := minted);
          asked := asked[minted := Question(Import, x)];
        }
        return;
      }
      if !alive {
        DropImportSession();
        imp := imp.(state := Connecting);
        return;
      }
      if imp.state == WaitingForPeer && listed == Status.OK { imp := imp.(state := Connected); }
    }

    method AnswerImport(r: Reply, recorded: bool, listed: u16) returns (st: u16)
      modifies this`imp, this`pins
      ensures Snapshot() == ImportApprove(old(Snapshot()), r, recorded, listed)
      ensures st == Status.OK ==> (old(pins) != pins <==> r.accept)
      ensures st != Status.OK ==> Snapshot() == old(Snapshot())
    {
      if imp.state != ImportAwaiting || imp.client.None? { return Status.BAD_ARGUMENT; }
      st := CheckApproval(imp.ticket, imp.fingerprint, imp.sas, r);
      if st != Status.OK { return; }
      if !r.accept {
        DisconnectImport();
        return;
      }
      if !recorded { return Status.INTERNAL; }
      pins := pins + [Pin(Import, imp.client.value.peer, r)];
      imp := imp.(pinned := true);
      imp := imp.(ticket := NO_TICKET);
      if listed == Status.OK {
        imp := imp.(state := Connected);
        imp := imp.(auto := false);
      } else {
        imp := imp.(state := WaitingForPeer);
      }
    }
  }
}
