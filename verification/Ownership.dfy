/**
 * Ownership over whole runs: one exporting machine, its lease, its captured devices, and any
 * number of sessions one after another (airusb/session/ExporterSession.cpp attach, detach, close
 * and the end of pump; airusb/control/HubState.cpp reclaim).
 */
module Ownership {
  import Status
  import Wire
  import opened Leases
  import Scheduler
  import opened SchedulerLedger
  import opened SchedulerSafety
  import opened Sessions

  type Work = Scheduler.Exporter

  /**
   * A live session: its peer, the transfers it works on (whose state is the session's), and whether
   * it holds the device port.
   */
  datatype Session = Session(peer: Peer, work: Work, hasPort: bool, uid: Uid, attachId: nat)

  /** `heardAt` logs every moment the owner proved itself: granted, heard from, or owed an answer. */
  datatype House = House(
    books: Books, session: Wire.Option<Session>, captured: set<Uid>, now: nat, granted: seq<nat>, heardAt: seq<nat>)

  const EMPTY_HOUSE := House(NEW_BOOKS, Wire.None, {}, 0, [], [])

  /** How far an ATTACH got once the lease was free. */
  datatype AttachOutcome = ClaimFails | NoUsablePort | ManifestFails | ReplyNotSent | Done

  type Outcomes = seq<Scheduler.Outcome>

  /** What the port says while a pump serves the device. */
  datatype Replies = Replies(
    first: Outcomes, maySubmit: Scheduler.Token -> Wire.u16, second: Outcomes, mayStop: Scheduler.Token -> bool, lost: Outcomes)

  datatype Event =
    | Connect(peer: Peer)
    | Hear
    | Ask(request: Scheduler.Event)
    | Attach(uid: Uid, outcome: AttachOutcome, minted: RecoveryToken)
    | Detach(drained: Outcomes)
    | LoseTransport(lost: Outcomes)
    | EndPump(replies: Replies)
    | Goodbye(closed: Outcomes)
    | DropSession
    | Reclaim
    | Recover(who: Peer, token: RecoveryToken, next: RecoveryToken)
    | Tick(ns: nat)

  // ---------------------------------------------------------------- steps

  function Witnessed(h: House, peer: Peer): House {
    if IsOwner(h.books, peer) then h.(books := Heard(h.books, peer, h.now), heardAt := h.heardAt + [h.now]) else h
  }

  function Granted(h: House, peer: Peer, uid: Uid, minted: RecoveryToken): House {
    h.(books := Grant(h.books, peer, uid, h.now, minted), captured := h.captured + {uid},
       granted := h.granted + [h.books.nextAttachId], heardAt := h.heardAt + [h.now])
  }

  /** Give the lease and the device back after a grant that could not be completed. */
  function RolledBack(h: House, peer: Peer, uid: Uid): House {
    h.(books := Release(h.books, peer, h.now), captured := h.captured - {uid})
  }

  function OnAttach(h: House, s: Session, uid: Uid, outcome: AttachOutcome, minted: RecoveryToken): House {
    if s.work.state != Scheduler.Idle || MayClaim(h.books, s.peer, uid) != Status.OK then h
    else
      var g := Granted(h, s.peer, uid, minted);
      match outcome
      case ClaimFails => h
      case NoUsablePort => h.(captured := h.captured - {uid})
      case ManifestFails => RolledBack(g, s.peer, uid).(session := Wire.Some(s.(hasPort := false, uid := uid, attachId := 0)))
      case ReplyNotSent => g.(session := Wire.Some(s.(hasPort := true, uid := uid, attachId := h.books.nextAttachId)))
      case Done => g.(session := Wire.Some(s.(hasPort := true, uid := uid, attachId := h.books.nextAttachId,
                                              work := Scheduler.Step(s.work, Scheduler.EAttach))))
  }

  /** A SUBMIT, CANCEL or EP_CLEAR_HALT; a SUBMIT is refused unless the session is leased. */
  function OnAsk(h: House, s: Session, request: Scheduler.Event): House {
    if request.ECancel? || request.EClearHalt? || (request.EIntake? && s.work.state == Scheduler.Leased && s.work.attached)
    then h.(session := Wire.Some(s.(work := Scheduler.Step(s.work, request))))
    else h
  }

  function OnDetach(h: House, s: Session, drained: Outcomes): House {
    if s.work.state != Scheduler.Leased && s.work.state != Scheduler.Orphaned then h
    else h.(books := Release(h.books, s.peer, h.now), captured := h.captured - {s.uid},
            session := Wire.Some(s.(hasPort := false, attachId := 0, work := Scheduler.Step(s.work, Scheduler.EDetach(drained)))))
  }

  /** The session gives its peer up: the lease is quarantined if the session was leased. */
  function Orphan(h: House, s: Session, st: Wire.u16, lost: Outcomes): House {
    h.(books := if s.work.state == Scheduler.Leased then Quarantine(h.books, h.now) else h.books,
       session := Wire.Some(s.(work := Scheduler.Step(s.work, Scheduler.EOrphan(st, lost)))))
  }

  /** What the pump of this session meets, its lease clock included. */
  function PumpOf(h: House, s: Session, p: Replies): Scheduler.PumpInput {
    var i := Scheduler.PumpInput(h.now, [], false, false, p.lost, p.first, p.maySubmit, p.second, p.mayStop, false);
    i.(silent := SilenceExpired(Refreshed(h, s, i).books, h.now))
  }

  /** While the session owes its peer an answer, the peer counts as heard from. */
  function Refreshed(h: House, s: Session, i: Scheduler.PumpInput): House {
    if Scheduler.Owes(Scheduler.Worked(s.work, i)) then Witnessed(h, s.peer) else h
  }

  /** The end of pump(): serve the device, refresh the lease if an answer is owed, sweep, and give a silent peer up. */
  function OnEndPump(h: House, s: Session, p: Replies): House {
    var i := PumpOf(h, s, p);
    var served := Scheduler.Served(s.work, i);
    var r := Refreshed(h, s, i).(session := Wire.Some(s.(work := served)));
    if !Scheduler.Owes(served) && served.state == Scheduler.Leased && i.silent
    then Orphan(r, s.(work := served), Status.XFER_TIMEOUT, p.lost)
    else r
  }

  /** close(): the capture ends only if nobody still owns the device. */
  function OnClose(h: House, s: Session, goodbye: bool, closed: Outcomes): House {
    var captured := if s.hasPort && h.books.lease.state == Free then h.captured - {s.uid} else h.captured;
    h.(captured := captured,
       session := Wire.Some(s.(hasPort := false, attachId := 0, work := Scheduler.Step(s.work, Scheduler.EClose(goodbye, closed)))))
  }

  /** The session object goes away; what the port reports while it closes answers nobody. */
  function Dropped(h: House): House {
    if h.session.None? then h else OnClose(h, h.session.value, false, []).(session := Wire.None)
  }

  function OnReclaim(h: House): House {
    if h.books.lease.state == Free then h else Dropped(h.(books := Reclaimed(h.books, h.now)))
  }

  function OnRecover(h: House, who: Peer, token: RecoveryToken, next: RecoveryToken): House {
    if RecoverVerdict(h.books, who, token) != Status.OK then h
    else h.(books := Recovered(h.books, h.now, next), granted := h.granted + [h.books.nextAttachId], heardAt := h.heardAt + [h.now])
  }

  function SessionStep(h: House, s: Session, e: Event): House {
    match e
    case Hear => Witnessed(h, s.peer)
    case Ask(request) => OnAsk(h, s, request)
    case Attach(uid, outcome, minted) => OnAttach(h, s, uid, outcome, minted)
    case Detach(drained) => OnDetach(h, s, drained)
    case LoseTransport(lost) => Orphan(h, s, Status.TRANSPORT_LOST, lost)
    case EndPump(replies) => OnEndPump(h, s, replies)
    case Goodbye(closed) => OnClose(h, s, true, closed)
    case _ => h
  }

  function Step(h: House, e: Event): House {
    match e
    case Connect(peer) => if h.session.None? then h.(session := Wire.Some(Session(peer, Scheduler.INITIAL, false, 0, 0))) else h
    case DropSession => Dropped(h)
    case Reclaim => OnReclaim(h)
    case Recover(who, token, next) => OnRecover(h, who, token, next)
    case Tick(ns) => h.(now := h.now + ns)
    case _ => if h.session.None? then h else SessionStep(h, h.session.value, e)
  }

  function Run(h: House, es: seq<Event>): House
    decreases |es|
  {
    if es == [] then h else Run(Step(h, es[0]), es[1..])
  }

  // ---------------------------------------------------------------- what every run keeps

  predicate Rising(xs: seq<nat>) { forall i, j :: 0 <= i < j < |xs| ==> xs[i] < xs[j] }

  predicate AllAtMost(xs: seq<nat>, n: nat) { forall i :: 0 <= i < |xs| ==> xs[i] <= n }

  ghost predicate LeaseOk(books: Books, captured: set<Uid>) {
    && (books.lease.state == Free <==> !books.lease.hasOwner)
    && (books.lease.state != Free ==> books.lease.uid in captured)
  }

  /** Nothing is queued and nothing is in flight. */
  ghost predicate NoWork(w: Work) { w.inFlight == map[] && EmptyBut(w.queues, []) }

  /** A session works only while it is leased. */
  ghost predicate WorkOk(w: Work) { if w.state == Scheduler.Leased then w.attached else NoWork(w) }

  /** A session that holds the port speaks for the owner of the lease, and a leased one for a live lease. */
  ghost predicate SessionOk(books: Books, session: Wire.Option<Session>) {
    session.Some? ==>
      var s := session.value;
      && WorkOk(s.work)
      && (s.hasPort ==> IsOwner(books, s.peer) && books.lease.state != Free && books.lease.uid == s.uid)
      && (s.work.state == Scheduler.Leased || s.work.state == Scheduler.Orphaned ==> s.hasPort)
      && (s.work.state == Scheduler.Leased ==> books.lease.state == Leased)
  }

  ghost predicate LogsOk(books: Books, now: nat, granted: seq<nat>, heardAt: seq<nat>) {
    && Rising(granted) && (forall i :: 0 <= i < |granted| ==> granted[i] < books.nextAttachId)
    && (books.lease.state != Free ==> granted != [] && granted[|granted| - 1] == books.lease.attachId)
    && AllAtMost(heardAt, now)
    && (books.lease.state != Free ==> heardAt != [] && books.lease.lastHeardNs == heardAt[|heardAt| - 1] && AllAtMost(heardAt, books.lease.lastHeardNs))
  }

  ghost predicate Safe(h: House) {
    LeaseOk(h.books, h.captured) && SessionOk(h.books, h.session) && LogsOk(h.books, h.now, h.granted, h.heardAt)
  }

  // ---- what the scheduler's steps do to a session's state and work

  lemma {:induction false} CollectFrame(w: Work, os: Outcomes)
    ensures var r := Scheduler.CollectAll(w, os);
            r.state == w.state && r.attached == w.attached && r.queues == w.queues && r.inFlight.Keys <= w.inFlight.Keys
    decreases |os|
  {
    if os != [] { CollectFrame(Scheduler.CollectOne(w, os[0]), os[1..]); }
  }

  lemma {:induction false} AdmitFrame(w: Work, eps: seq<Wire.byte>, reply: Scheduler.Token -> Wire.u16)
    ensures var r := Scheduler.AdmitEach(w, eps, reply); r.state == w.state && r.attached == w.attached
    decreases |eps|
  {
    if eps != [] { AdmitFrame(Scheduler.AdmitOne(w, eps[0], reply), eps[1..], reply); }
  }

  lemma SweepFrame(w: Work, now: nat, reply: Scheduler.Token -> bool)
    ensures var r := Scheduler.Sweep(w, now, reply);
            r.state == w.state && r.attached == w.attached && (NoWork(w) ==> NoWork(r))
  {
    var gone := (p: Scheduler.Pending) => Scheduler.Expired(p.deadline, now);
    RetireEachFrame(w, Scheduler.ENDPOINTS, gone, Status.XFER_TIMEOUT, false);
    var m := Scheduler.RetireEach(w, Scheduler.ENDPOINTS, gone, Status.XFER_TIMEOUT, false);
    SweepFlightsKeys(m, 0, now, reply);
    if NoWork(w) {
      RetireNothing(w, Scheduler.ENDPOINTS, gone, Status.XFER_TIMEOUT, false);
      assert Scheduler.Sweep(w, now, reply).inFlight.Keys == {};
    }
  }

  lemma WorkedFrame(w: Work, i: Scheduler.PumpInput)
    requires WorkOk(w)
    ensures var r := Scheduler.Worked(w, i); r.state == w.state && r.attached == w.attached && WorkOk(r)
  {
    CollectFrame(w, i.first);
    var c := Scheduler.Collect(w, i.first);
    AdmitFrame(c, Scheduler.ENDPOINTS, i.maySubmit);
    CollectFrame(Scheduler.Admit(c, i.maySubmit), i.second);
  }

  lemma ServedFrame(w: Work, i: Scheduler.PumpInput)
    requires WorkOk(w)
    ensures var r := Scheduler.Served(w, i); r.state == w.state && r.attached == w.attached && WorkOk(r)
  {
    WorkedFrame(w, i);
    SweepFrame(Scheduler.Worked(w, i), i.now, i.mayStop);
  }

  lemma {:induction false} CancelFlightsFrame(w: Work, t: Scheduler.Token, hit: Scheduler.InFlight -> bool, reply: Scheduler.Token -> bool)
    ensures var r := Scheduler.CancelFlights(w, t, hit, reply); r.state == w.state && r.attached == w.attached
    decreases w.nextToken - t
  {
    if t < w.nextToken { CancelFlightsFrame(Scheduler.CancelAt(w, t, hit, reply), t + 1, hit, reply); }
  }

  lemma AskedFrame(w: Work, e: Scheduler.Event)
    requires WorkOk(w) && (e.ECancel? || e.EClearHalt? || (e.EIntake? && w.state == Scheduler.Leased))
    ensures var r := Scheduler.Step(w, e); r.state == w.state && r.attached == w.attached && WorkOk(r)
  {
    if e.ECancel? && w.state == Scheduler.Leased {
      var gone := (p: Scheduler.Pending) => Scheduler.Matches(e.wholeEndpoint, e.ep, e.target, p.req.sb.epAddr, p.req.requestId);
      var flying := (f: Scheduler.InFlight) => Scheduler.Matches(e.wholeEndpoint, e.ep, e.target, f.req.sb.epAddr, f.req.requestId);
      RetireFromFrame(w, e.ep, 0, gone, Status.XFER_CANCELLED, true);
      CancelFlightsFrame(Scheduler.RetireFrom(w, e.ep, 0, gone, Status.XFER_CANCELLED, true), 0, flying, e.mayCancel);
    }
  }

  // ---- each event

  lemma WitnessedSafe(h: House, peer: Peer)
    requires Safe(h)
    ensures Safe(Witnessed(h, peer))
  {}

  lemma AttachSafe(h: House, s: Session, uid: Uid, outcome: AttachOutcome, minted: RecoveryToken)
    requires Safe(h) && h.session == Wire.Some(s)
    ensures Safe(OnAttach(h, s, uid, outcome, minted))
  {}

  lemma AskSafe(h: House, s: Session, request: Scheduler.Event)
    requires Safe(h) && h.session == Wire.Some(s)
    ensures Safe(OnAsk(h, s, request))
  {
    if request.ECancel? || request.EClearHalt? || (request.EIntake? && s.work.state == Scheduler.Leased) { AskedFrame(s.work, request); }
  }

  lemma OrphanSafe(h: House, s: Session, st: Wire.u16, lost: Outcomes)
    requires Safe(h) && h.session == Wire.Some(s)
    ensures Safe(Orphan(h, s, st, lost))
  {}

  lemma EndPumpSafe(h: House, s: Session, p: Replies)
    requires Safe(h) && h.session == Wire.Some(s)
    ensures Safe(OnEndPump(h, s, p))
  {
    var i := PumpOf(h, s, p);
    ServedFrame(s.work, i);
    WitnessedSafe(h, s.peer);
    var s' := s.(work := Scheduler.Served(s.work, i));
    OrphanSafe(Refreshed(h, s, i).(session := Wire.Some(s')), s', Status.XFER_TIMEOUT, p.lost);
  }

  lemma DetachSafe(h: House, s: Session, drained: Outcomes)
    requires Safe(h) && h.session == Wire.Some(s)
    ensures Safe(OnDetach(h, s, drained))
  {}

  lemma CloseSafe(h: House, s: Session, goodbye: bool, closed: Outcomes)
    requires Safe(h) && h.session == Wire.Some(s)
    ensures Safe(OnClose(h, s, goodbye, closed))
  {}

  lemma SessionStepSafe(h: House, s: Session, e: Event)
    requires Safe(h) && h.session == Wire.Some(s)
    ensures Safe(SessionStep(h, s, e))
  {
    match e
    case Ask(request) => AskSafe(h, s, request);
    case Attach(uid, outcome, minted) => AttachSafe(h, s, uid, outcome, minted);
    case Detach(drained) => DetachSafe(h, s, drained);
    case LoseTransport(lost) => OrphanSafe(h, s, Status.TRANSPORT_LOST, lost);
    case Goodbye(closed) => CloseSafe(h, s, true, closed);
    case Hear => WitnessedSafe(h, s.peer);
    case EndPump(replies) => EndPumpSafe(h, s, replies);
    case _ =>
  }

  predicate IsHouseEvent(e: Event) { e.Connect? || e.DropSession? || e.Reclaim? || e.Recover? || e.Tick? }

  lemma HouseEventSafe(h: House, e: Event)
    requires Safe(h) && IsHouseEvent(e)
    ensures Safe(Step(h, e))
  {}

  lemma StepSafe(h: House, e: Event)
    requires Safe(h)
    ensures Safe(Step(h, e))
  {
    if IsHouseEvent(e) {
      HouseEventSafe(h, e);
    } else if h.session.Some? {
      SessionStepSafe(h, h.session.value, e);
    }
  }

  lemma {:induction false} RunSafe(h: House, es: seq<Event>)
    requires Safe(h)
    ensures Safe(Run(h, es))
    decreases |es|
  {
    if es != [] {
      StepSafe(h, es[0]);
      RunSafe(Step(h, es[0]), es[1..]);
    }
  }

  /** Over every run with any sessions: an owned device is captured, and no attach id is handed out twice. */
  lemma OwnedStaysCaptured(es: seq<Event>)
    ensures var h := Run(EMPTY_HOUSE, es);
            && (h.books.lease.state != Free ==> h.books.lease.uid in h.captured)
            && Rising(h.granted)
  {
    RunSafe(EMPTY_HOUSE, es);
  }

  // ---------------------------------------------------------------- how ownership begins

  /** A new lease on `uid` for `peer`, under the next attach id, with the device captured. */
  ghost predicate LeasedTo(h: House, r: House, peer: Peer, uid: Uid, minted: RecoveryToken) {
    var id := h.books.nextAttachId;
    && r.books.lease.state == Leased && r.books.lease.hasOwner && r.books.lease.owner == peer && r.books.lease.uid == uid
    && r.books.lease.attachId == id && r.books.lease.lastHeardNs == h.now && r.books.lease.sinceNs == h.now
    && r.books.token == minted && r.books.nextAttachId == id + 1
    && r.captured == h.captured + {uid} && r.granted == h.granted + [id] && r.heardAt == h.heardAt + [h.now] && r.now == h.now
  }

  /** The session now holds the port of `uid` under the attach id `id`, and its transfers are in `state`. */
  ghost predicate Holding(was: Session, now: Wire.Option<Session>, uid: Uid, id: nat, state: Scheduler.State) {
    && now.Some? && now.value.peer == was.peer && now.value.hasPort && now.value.uid == uid && now.value.attachId == id
    && now.value.work.state == state && (state == Scheduler.Leased ==> now.value.work.attached)
  }

  /**
   * An ATTACH in a live idle session leases the device to that session's peer and starts the session exactly
   * when the lease was free; otherwise nothing changes, whoever asks and for whatever device.
   */
  lemma AttachExactly(h: House, uid: Uid, minted: RecoveryToken)
    requires Safe(h) && h.session.Some? && h.session.value.work.state == Scheduler.Idle
    ensures var s := h.session.value; var r := Step(h, Attach(uid, Done, minted));
            if h.books.lease.state == Free
            then LeasedTo(h, r, s.peer, uid, minted) && Holding(s, r.session, uid, h.books.nextAttachId, Scheduler.Leased)
            else r == h
  {}

  /** An attach that fails on the way leaves the lease free and the device not captured, unless only its reply was lost. */
  lemma AttachRollsBack(h: House, uid: Uid, outcome: AttachOutcome, minted: RecoveryToken)
    requires Safe(h) && h.session.Some? && h.session.value.work.state == Scheduler.Idle && h.books.lease.state == Free
    ensures var s := h.session.value; var r := Step(h, Attach(uid, outcome, minted));
            && (outcome.ClaimFails? ==> r == h)
            && (outcome.NoUsablePort? ==> r == h.(captured := h.captured - {uid}))
            && (outcome.ManifestFails? ==>
                  && r.books.lease.state == Free && !r.books.lease.hasOwner && r.captured == h.captured - {uid}
                  && r.session.Some? && !r.session.value.hasPort && r.session.value.work == s.work && r.books.nextAttachId == h.books.nextAttachId + 1)
            && (outcome.ReplyNotSent? ==> LeasedTo(h, r, s.peer, uid, minted) && Holding(s, r.session, uid, h.books.nextAttachId, Scheduler.Idle))
  {
    assert h.captured + {uid} - {uid} == h.captured - {uid};
  }

  /** A session that is not idle, and no session at all, attach nothing. */
  lemma AttachNeedsIdle(h: House, uid: Uid, outcome: AttachOutcome, minted: RecoveryToken)
    requires h.session.Some? ==> h.session.value.work.state != Scheduler.Idle
    ensures Step(h, Attach(uid, outcome, minted)) == h
  {}

  /** From nothing at all, the first peer to connect and attach gets the device. */
  lemma FirstComeFirstServed(peer: Peer, uid: Uid, minted: RecoveryToken)
    ensures var r := Run(EMPTY_HOUSE, [Connect(peer), Attach(uid, Done, minted)]);
            && r.books.lease.state == Leased && IsOwner(r.books, peer) && r.books.lease.uid == uid && r.captured == {uid}
            && r.session.Some? && r.session.value.peer == peer && r.session.value.work.state == Scheduler.Leased
  {
    var h := Step(EMPTY_HOUSE, Connect(peer));
    assert [Connect(peer), Attach(uid, Done, minted)][1..] == [Attach(uid, Done, minted)] && [Attach(uid, Done, minted)][1..] == [];
    RunSafe(EMPTY_HOUSE, [Connect(peer)]);
    assert Run(EMPTY_HOUSE, [Connect(peer)]) == h by { assert [Connect(peer)][1..] == []; }
    AttachExactly(h, uid, minted);
    var a := Step(h, Attach(uid, Done, minted));
    assert Run(h, [Attach(uid, Done, minted)]) == a;
  }

  /**
   * A recovery succeeds exactly when the lease is held, the peer owns it and the token is the one last minted:
   * then the lease is Leased to the same owner under a new attach id and a new token, and nothing else moves.
   */
  lemma RecoverExactly(h: House, who: Peer, token: RecoveryToken, next: RecoveryToken)
    requires Safe(h)
    ensures var r := Step(h, Recover(who, token, next)); var was := h.books.lease; var id := h.books.nextAttachId;
            if was.state != Free && was.owner == who && token == h.books.token
            then && r.books.lease == was.(state := Leased, attachId := id, leaseEpoch := was.leaseEpoch + 1, incarnation := was.incarnation + 1,
                                          lastHeardNs := h.now, sinceNs := h.now)
                 && r.books.token == next && r.books.nextAttachId == id + 1
                 && r == h.(books := r.books, granted := h.granted + [id], heardAt := h.heardAt + [h.now])
            else r == h
  {}

  // ---------------------------------------------------------------- how ownership moves

  /** The lease stays with its owner under its ids; it may heal, be refreshed or be quarantined. */
  predicate SameOwnership(b: Books, b': Books) {
    && b' == b.(lease := b.lease.(state := b'.lease.state, lastHeardNs := b'.lease.lastHeardNs, sinceNs := b'.lease.sinceNs))
    && (b'.lease.state == Free <==> b.lease.state == Free)
  }

  lemma EndPumpKeeps(h: House, s: Session, p: Replies)
    ensures SameOwnership(h.books, OnEndPump(h, s, p).books)
  {
    var r := Refreshed(h, s, PumpOf(h, s, p));
    assert SameOwnership(h.books, r.books) && SameOwnership(h.books, Quarantine(r.books, h.now));
  }

  /** Grants, releases and recoveries apart, nothing moves the lease. */
  lemma OthersKeep(h: House, e: Event)
    requires !e.Attach? && !e.Detach? && !e.Reclaim? && !e.Recover?
    ensures SameOwnership(h.books, Step(h, e).books)
  {
    if e.EndPump? && h.session.Some? { EndPumpKeeps(h, h.session.value, e.replies); }
  }

  /** One step never hands the device from one owner to another: it goes through Free. */
  lemma OwnerChangesOnlyThroughFree(h: House, e: Event)
    requires Safe(h) && h.books.lease.state != Free && Step(h, e).books.lease.state != Free
    ensures Step(h, e).books.lease.owner == h.books.lease.owner && Step(h, e).books.lease.uid == h.books.lease.uid
  {
    if !e.Attach? && !e.Detach? && !e.Reclaim? && !e.Recover? { OthersKeep(h, e); }
  }

  /** The lease is freed only by its owner's DETACH or by a person taking the device back: exactly then. */
  lemma FreedExactlyBy(h: House, e: Event)
    requires Safe(h) && h.books.lease.state != Free
    ensures Step(h, e).books.lease.state == Free <==>
            e.Reclaim? || (e.Detach? && h.session.Some? && h.session.value.work.state in {Scheduler.Leased, Scheduler.Orphaned})
    ensures e.Detach? && Step(h, e).books.lease.state == Free ==> IsOwner(h.books, h.session.value.peer)
  {
    if !e.Attach? && !e.Detach? && !e.Reclaim? && !e.Recover? { OthersKeep(h, e); }
  }

  /**
   * At any point of any run, the next event keeps the owner, or frees the lease; and only the owner's
   * DETACH or a person at this machine frees it, from Quarantined as from Leased.
   */
  lemma OwnershipMovesThroughFree(es: seq<Event>, e: Event)
    requires Run(EMPTY_HOUSE, es).books.lease.state != Free
    ensures var h := Run(EMPTY_HOUSE, es); var r := Step(h, e);
            && (r.books.lease.state != Free ==> r.books.lease.owner == h.books.lease.owner && r.books.lease.uid == h.books.lease.uid)
            && (r.books.lease.state == Free ==>
                  e.Reclaim? || (e.Detach? && h.session.Some? && IsOwner(h.books, h.session.value.peer)))
  {
    RunSafe(EMPTY_HOUSE, es);
    var h := Run(EMPTY_HOUSE, es);
    FreedExactlyBy(h, e);
    if Step(h, e).books.lease.state != Free { OwnerChangesOnlyThroughFree(h, e); }
  }

  /** The capture follows: while the lease is held, no step lets go of its device unless it also frees the lease. */
  lemma CaptureEndsOnlyWithTheLease(h: House, e: Event)
    requires Safe(h) && h.books.lease.state != Free && h.books.lease.uid !in Step(h, e).captured
    ensures Step(h, e).books.lease.state == Free
  {
    StepSafe(h, e);
    OwnerIfKept(h, e);
  }

  lemma OwnerIfKept(h: House, e: Event)
    requires Safe(h) && h.books.lease.state != Free
    ensures Step(h, e).books.lease.state != Free ==> Step(h, e).books.lease.uid == h.books.lease.uid
  {
    if Step(h, e).books.lease.state != Free { OwnerChangesOnlyThroughFree(h, e); }
  }

  lemma NothingOwedStays(m: Work, now: nat, reply: Scheduler.Token -> bool)
    requires !Scheduler.Owes(m)
    ensures !Scheduler.Owes(Scheduler.Sweep(m, now, reply))
  {
    NoneQueued(m.queues, Scheduler.ENDPOINTS);
    AllEndpointsListed();
    SweepFrame(m, now, reply);
    NothingOn(Scheduler.Sweep(m, now, reply).queues, Scheduler.ENDPOINTS);
  }

  /** With nothing owed before the deadlines are swept, nothing is owed after. */
  lemma SweepOwesLess(w: Work, i: Scheduler.PumpInput)
    ensures Scheduler.Owes(Scheduler.Served(w, i)) ==> Scheduler.Owes(Scheduler.Worked(w, i))
  {
    if !Scheduler.Owes(Scheduler.Worked(w, i)) { NothingOwedStays(Scheduler.Worked(w, i), i.now, i.mayStop); }
  }

  lemma {:induction false} NoneQueued(queues: map<Wire.byte, seq<Scheduler.Pending>>, eps: seq<Wire.byte>)
    requires Scheduler.QueuedOn(queues, eps) == 0
    ensures forall e: Wire.byte :: e in eps ==> Scheduler.Q(queues, e) == []
  {
    if eps != [] { NoneQueued(queues, eps[1..]); }
  }

  /**
   * A session gives its peer up for silence exactly when, once the device has been served, no transfer
   * is queued or in flight, and every proof of life logged for the lease is at least the whole lease
   * period old. The session is orphaned with it.
   */
  lemma SilenceQuarantinesExactly(h: House, p: Replies)
    requires Safe(h) && h.session.Some? && h.session.value.work.state == Scheduler.Leased
    ensures var s := h.session.value; var r := Step(h, EndPump(p));
            && (r.books.lease.state == Quarantined <==>
                  && !Scheduler.Owes(Scheduler.Worked(s.work, PumpOf(h, s, p)))
                  && Silent(h.heardAt, h.now))
            && (r.books.lease.state == Quarantined <==> r.session.value.work.state == Scheduler.Orphaned)
  {
    var s := h.session.value;
    PumpStep(h, s, p);
    SilentExactly(h, s, p);
    EndPumpGivesUp(h, s, p);
  }

  lemma PumpStep(h: House, s: Session, p: Replies)
    requires h.session == Wire.Some(s)
    ensures Step(h, EndPump(p)) == OnEndPump(h, s, p)
  {
    SessionPump(h, s, p);
  }

  lemma SessionPump(h: House, s: Session, p: Replies)
    ensures SessionStep(h, s, EndPump(p)) == OnEndPump(h, s, p)
  {}

  /** Nothing was heard for 20 seconds. */
  predicate Silent(heardAt: seq<nat>, now: nat) { forall i :: 0 <= i < |heardAt| ==> heardAt[i] + 20_000_000_000 <= now }

  /** The lease clock has run out exactly when nothing is owed and nothing was heard for the whole period. */
  lemma SilentExactly(h: House, s: Session, p: Replies)
    requires Safe(h) && h.session == Wire.Some(s) && s.work.state == Scheduler.Leased
    ensures PumpOf(h, s, p).silent <==> !Scheduler.Owes(Scheduler.Worked(s.work, PumpOf(h, s, p))) && Silent(h.heardAt, h.now)
  {
    assert h.heardAt[|h.heardAt| - 1] == h.books.lease.lastHeardNs;
    var i := PumpOf(h, s, p);
    assert Scheduler.Worked(s.work, i) == Scheduler.Worked(s.work, i.(silent := false));
  }

  lemma EndPumpGivesUp(h: House, s: Session, p: Replies)
    requires Safe(h) && h.session == Wire.Some(s) && s.work.state == Scheduler.Leased
    requires PumpOf(h, s, p).silent ==> !Scheduler.Owes(Scheduler.Worked(s.work, PumpOf(h, s, p)))
    ensures var r := OnEndPump(h, s, p);
            && (r.books.lease.state == Quarantined <==> PumpOf(h, s, p).silent)
            && r.session.Some? && (r.session.value.work.state == Scheduler.Orphaned <==> PumpOf(h, s, p).silent)
  {
    var i := PumpOf(h, s, p);
    ServedFrame(s.work, i);
    SweepOwesLess(s.work, i);
    OrphanBooks(Refreshed(h, s, i).(session := Wire.Some(s.(work := Scheduler.Served(s.work, i)))), s.(work := Scheduler.Served(s.work, i)), p.lost);
  }

  lemma OrphanBooks(h: House, s: Session, lost: Outcomes)
    requires s.work.state == Scheduler.Leased
    ensures var r := Orphan(h, s, Status.XFER_TIMEOUT, lost);
            r.books == Quarantine(h.books, h.now) && r.session.Some? && r.session.value.work.state == Scheduler.Orphaned
  {}

  /** The session's transfers meanwhile take exactly the steps of the scheduler's own pump, under this lease clock. */
  lemma EndPumpIsPump(h: House, s: Session, p: Replies)
    requires h.session == Wire.Some(s)
    ensures Step(h, EndPump(p)) == OnEndPump(h, s, p)
    ensures OnEndPump(h, s, p).session == Wire.Some(s.(work := Scheduler.Run(s.work, Scheduler.PumpEvents(s.work, PumpOf(h, s, p)))))
  {
    PumpStep(h, s, p);
    PumpRuns(s.work, PumpOf(h, s, p));
  }

  lemma PumpRuns(w: Work, i: Scheduler.PumpInput)
    requires i.messages == [] && !i.fatal && !i.transportGone
    ensures var r := Scheduler.Served(w, i);
            Scheduler.Run(w, Scheduler.PumpEvents(w, i)) ==
            if !Scheduler.Owes(r) && r.state == Scheduler.Leased && i.silent then Scheduler.Step(r, Scheduler.EOrphan(Status.XFER_TIMEOUT, i.lost)) else r
  {
    RunServe(w, i);
    var serve := [Scheduler.ECollect(i.first), Scheduler.EAdmit(i.maySubmit), Scheduler.ECollect(i.second), Scheduler.ESweep(i.now, i.mayStop)];
    assert i.messages + serve == [] + serve && Scheduler.Run(w, []) == w;
    RunAfter(w, i.messages + serve, Scheduler.EOrphan(Status.XFER_TIMEOUT, i.lost));
  }

  /** Taking the device back lets go of it exactly when a session still held its port. */
  lemma ReclaimReleasesExactly(h: House)
    requires Safe(h) && h.books.lease.state != Free
    ensures var r := Step(h, Reclaim);
            && r.books.lease.state == Free && r.session.None?
            && (h.books.lease.uid !in r.captured <==> h.session.Some? && h.session.value.hasPort)
  {}

  /** A record from the owner is logged and restarts the lease's clock, and heals a quarantine; from anybody else it does nothing. */
  lemma HearExactly(h: House)
    requires Safe(h) && h.session.Some?
    ensures var r := Step(h, Hear); var was := h.books.lease;
            if was.state != Free && was.owner == h.session.value.peer
            then && r.heardAt == h.heardAt + [h.now] && r == h.(books := r.books, heardAt := r.heardAt)
                 && r.books == h.books.(lease := r.books.lease)
                 && r.books.lease == was.(state := Leased, lastHeardNs := h.now, sinceNs := if was.state == Quarantined then h.now else was.sinceNs)
            else r == h
  {}

  /** DETACH from the session that attached frees the lease, lets go of the device and leaves the session idle without it; from any other it does nothing. */
  lemma DetachExactly(h: House, drained: Outcomes)
    requires Safe(h) && h.session.Some?
    ensures var s := h.session.value; var r := Step(h, Detach(drained));
            if s.work.state == Scheduler.Leased || s.work.state == Scheduler.Orphaned
            then && r.books.lease.state == Free && !r.books.lease.hasOwner && r.books.nextAttachId == h.books.nextAttachId
                 && r.captured == h.captured - {h.books.lease.uid}
                 && r.session.Some? && r.session.value.peer == s.peer && !r.session.value.hasPort && r.session.value.work.state == Scheduler.Idle
            else r == h
  {}

  /** A lost transport quarantines the lease of a leased session, which keeps the device; the lease of any other it leaves alone. */
  lemma LossExactly(h: House, lost: Outcomes)
    requires Safe(h) && h.session.Some?
    ensures var s := h.session.value; var r := Step(h, LoseTransport(lost));
            && r.captured == h.captured && r.session.Some? && r.session.value.hasPort == s.hasPort && r.heardAt == h.heardAt
            && r.books == (if s.work.state == Scheduler.Leased
                           then h.books.(lease := h.books.lease.(state := Quarantined, sinceNs := h.now)) else h.books)
            && r.session.value.work.state == if s.work.state == Scheduler.Leased then Scheduler.Orphaned else s.work.state
  {}

  // ---------------------------------------------------------------- an owner without a session

  /** The lease is held and no live session holds the port for it. */
  ghost predicate Stranded(h: House) {
    Safe(h) && h.books.lease.state != Free && (h.session.Some? ==> !h.session.value.hasPort)
  }

  lemma StrandedStep(h: House, e: Event)
    requires Stranded(h) && !e.Reclaim?
    ensures Stranded(Step(h, e)) && Step(h, e).books.lease.owner == h.books.lease.owner
    ensures h.books.lease.state == Leased ==> Step(h, e).books.lease.state == Leased
  {
    StepSafe(h, e);
    if e.EndPump? && h.session.Some? { StrandedPump(h, h.session.value, e.replies); }
  }

  /** A session without the port is not leased, so its pump leaves the lease alone. */
  lemma StrandedPump(h: House, s: Session, p: Replies)
    requires WorkOk(s.work) && s.work.state != Scheduler.Leased
    ensures var r := OnEndPump(h, s, p); r == h.(session := r.session) && r.session.Some? && r.session.value.hasPort == s.hasPort
  {
    var i := PumpOf(h, s, p);
    WorkedFrame(s.work, i);
    ServedFrame(s.work, i);
    NothingOn(Scheduler.Worked(s.work, i).queues, Scheduler.ENDPOINTS);
  }

  /**
   * Once the session that attached is gone, nobody gets the device back over the wire, its owner
   * included: no later session can attach or detach, for ever, until a person reclaims it, and a
   * recovery does not help. And a lease that is Leased again never times out.
   */
  lemma {:induction false} StrandedUntilReclaimed(h: House, es: seq<Event>)
    requires Stranded(h) && forall i :: 0 <= i < |es| ==> !es[i].Reclaim?
    ensures Stranded(Run(h, es)) && Run(h, es).books.lease.owner == h.books.lease.owner
    ensures h.books.lease.state == Leased ==> Run(h, es).books.lease.state == Leased
    decreases |es|
  {
    if es != [] {
      StrandedStep(h, es[0]);
      StrandedUntilReclaimed(Step(h, es[0]), es[1..]);
    }
  }

  /**
   * A quarantine heals exactly when the owner is heard from on any session, or recovers the lease; an
   * answer owed never heals it, since a session that owes one is leased. The comment's "the session that
   * reaches here is the same one" holds exactly when the live session holds the port: otherwise the
   * healed lease is stranded.
   */
  lemma QuarantineHealsExactly(h: House, e: Event)
    requires Safe(h) && h.books.lease.state == Quarantined
    ensures Step(h, e).books.lease.state == Leased <==>
            || (e.Hear? && h.session.Some? && IsOwner(h.books, h.session.value.peer))
            || (e.Recover? && RecoverVerdict(h.books, e.who, e.token) == Status.OK)
    ensures Step(h, e).books.lease.state == Leased ==>
            (Stranded(Step(h, e)) <==> !(h.session.Some? && h.session.value.hasPort))
  {
    StepSafe(h, e);
    if e.EndPump? && h.session.Some? { StrandedPump(h, h.session.value, e.replies); }
  }

  // ---------------------------------------------------------------- epochs

  /** A step frees the lease, or grants or recovers it, or leaves it with its owner. */
  predicate Frees(h: House, e: Event) { h.books.lease.state != Free && Step(h, e).books.lease.state == Free }

  predicate DetachesHere(h: House, e: Event) {
    e.Detach? && h.session.Some? && h.session.value.work.state in {Scheduler.Leased, Scheduler.Orphaned}
  }

  predicate Renews(h: House, e: Event) { Step(h, e).books.lease.state != Free && Step(h, e).books.lease.attachId != h.books.lease.attachId }

  ghost predicate EpochsOk(books: Books) {
    && books.lease.leaseEpoch == books.lease.incarnation && (books.lease.state == Free <==> books.lease.leaseEpoch == 0)
    && books.lease.attachId < books.nextAttachId
  }

  lemma EpochStep(h: House, e: Event)
    requires Safe(h) && EpochsOk(h.books)
    ensures EpochsOk(Step(h, e).books)
    ensures Step(h, e).books.lease.leaseEpoch ==
            if Frees(h, e) then 0 else if Renews(h, e) then h.books.lease.leaseEpoch + 1 else h.books.lease.leaseEpoch
  {
    match e
    case Attach(_, _, _) => AttachEpoch(h, e);
    case Detach(_) =>
    case Reclaim =>
    case Recover(_, _, _) =>
    case _ => OthersKeep(h, e);
  }

  lemma AttachEpoch(h: House, e: Event)
    requires Safe(h) && EpochsOk(h.books) && e.Attach?
    ensures EpochsOk(Step(h, e).books)
    ensures Step(h, e).books.lease.leaseEpoch == if Renews(h, e) then h.books.lease.leaseEpoch + 1 else h.books.lease.leaseEpoch
  {}

  lemma {:induction false} RunEpochs(h: House, es: seq<Event>)
    requires Safe(h) && EpochsOk(h.books)
    ensures Safe(Run(h, es)) && EpochsOk(Run(h, es).books)
    decreases |es|
  {
    if es != [] {
      EpochStep(h, es[0]);
      StepSafe(h, es[0]);
      RunEpochs(Step(h, es[0]), es[1..]);
    }
  }

  /**
   * At any point of any run the lease epoch and the incarnation fall exactly when the step frees the
   * lease, which only a DETACH from the session that attached or a person does; they rise by one exactly
   * when it hands out a new attach id.
   */
  lemma EpochsFallExactly(es: seq<Event>, e: Event)
    ensures var h := Run(EMPTY_HOUSE, es); var before, after := h.books.lease, Step(h, e).books.lease;
            && (after.leaseEpoch < before.leaseEpoch <==> Frees(h, e))
            && (after.incarnation < before.incarnation <==> Frees(h, e))
            && (Frees(h, e) <==> before.state != Free && (e.Reclaim? || DetachesHere(h, e)))
            && (after.leaseEpoch == before.leaseEpoch + 1 <==> Renews(h, e))
  {
    RunEpochs(EMPTY_HOUSE, es);
    var h := Run(EMPTY_HOUSE, es);
    EpochStep(h, e);
    if h.books.lease.state != Free { FreedExactlyBy(h, e); }
  }

  /** Losing the session strands the lease; one record from the owner's next session then un-quarantines it. */
  lemma NewSessionRevivesQuarantine(h: House, peer: Peer)
    requires Safe(h) && h.session.Some? && h.session.value.work.state == Scheduler.Leased && h.session.value.peer == peer
    ensures var lost := Run(h, [LoseTransport([]), DropSession]);
            var back := Run(lost, [Connect(peer), Hear]);
            && Stranded(lost) && lost.books.lease.state == Quarantined
            && Stranded(back) && back.books.lease.state == Leased && back.session.Some? && back.session.value.work.state == Scheduler.Idle
  {
    RunSafe(h, [LoseTransport([]), DropSession]);
    var lost := Run(h, [LoseTransport([]), DropSession]);
    RunSafe(lost, [Connect(peer), Hear]);
    assert [LoseTransport([]), DropSession][1..] == [DropSession] && [DropSession][1..] == [];
    assert [Connect(peer), Hear][1..] == [Hear] && [Hear][1..] == [];
    assert lost == Step(Step(h, LoseTransport([])), DropSession) by {
      assert Run(Step(h, LoseTransport([])), [DropSession]) == Step(Step(h, LoseTransport([])), DropSession);
    }
    assert Run(lost, [Connect(peer), Hear]) == Step(Step(lost, Connect(peer)), Hear) by {
      assert Run(Step(lost, Connect(peer)), [Hear]) == Step(Step(lost, Connect(peer)), Hear);
    }
  }
}
