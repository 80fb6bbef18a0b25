/**
 * The gap in the importer's promise: drop() retires a request and tells nobody. A run that ends in
 * one, and what completeAll can then no longer do.
 */
module ImporterDrop {
  import opened Wire
  import Status
  import opened Codec
  import opened Validate
  import opened Reassembly
  import opened Importing
  import opened ImporterAccounting
  import opened SegmentRoundTrip

  const CONFIG := Config(1, 0, 1, 0x10_0000)
  const READ := Call(0x81, BULK, DIR_IN, 2, 0, [], 0)
  const KEY := Key(0x81, 1)

  /** The first half of a two-byte reply, and a second half that repeats offset 0. */
  const OPENING := Header(T_COMPLETE, 3, 0x81, 41, 1, 0, 1, 0, 0, 2)
  const BODY := CompleteBody(0x81, BULK, DIR_IN, 0, 2, 2, 2, 0, 0, 0, 0, 0)
  const REPEAT := Header(T_DATA, 0, 0x81, 1, 1, 0, 1, 0, 0, 2)

  function DropRun(): seq<Event> {
    [ESubmit(READ, 0, true, 1024, Status.OK), EReceive(HeaderBytes(OPENING) + (CompleteBytes(BODY) + [7])), EReceive(HeaderBytes(REPEAT) + [8])]
  }

  function AfterSubmit(): Importer { Submit(CONFIG, FRESH, READ, 0, true, 1024, Status.OK).s }

  lemma SubmitTracks()
    ensures var s := AfterSubmit();
            && IdsLast(CONFIG, FRESH, READ)
            && s == FRESH.(table := map[KEY := RequestFor(CONFIG, READ, KEY, 0)], lastSeen := map[0x81 := 1], nextId := map[0x81 := 2],
                           accepted := [RequestFor(CONFIG, READ, KEY, 0)])
  {}

  /** A COMPLETE that opens a reply to the request it names. */
  lemma OpeningHandled(s: Importer, h: Header, cb: CompleteBody, chunk: Bytes)
    requires h.typ == T_COMPLETE && h.bodyLen == |CompleteBytes(cb) + chunk| && h.SegMore() && Answers(s, h, cb)
    ensures Receive(CONFIG, s, HeaderBytes(h) + (CompleteBytes(cb) + chunk)) == FirstReply(CONFIG, s, h, cb, chunk)
  {
    UnframeOne(h, CompleteBytes(cb) + chunk);
    CompleteRoundTrip(cb, chunk);
    assert (CompleteBytes(cb) + chunk)[BODY_COMPLETE..] == chunk;
  }

  lemma OpeningAccepted(l: Limits, h: Header, chunk: Bytes)
    requires h.SegFirst() && h.SegMore() && h.segOffset == 0 && |chunk| <= h.totalLen <= l.maxTransferBytes
    requires l.maxInFlight > 0 && |chunk| <= l.arenaBytes
    ensures Accept(l, EMPTY, h, chunk) == Accepted(Reasm(map[KeyOf(h) := Partial(h.totalLen, chunk)], |chunk|, None), NeedMore)
  {
    assert [] + chunk == chunk;
    assert map[KeyOf(h) := Partial(h.totalLen, [])][KeyOf(h) := Partial(h.totalLen, chunk)] == map[KeyOf(h) := Partial(h.totalLen, chunk)];
  }

  lemma OpeningIsAwaited(s: Importer, h: Header, cb: CompleteBody, chunk: Bytes)
    requires h.typ == T_COMPLETE && h.bodyLen == |CompleteBytes(cb) + chunk| && Answers(s, h, cb)
    requires h.SegFirst() && h.SegMore() && h.segOffset == 0 && |chunk| <= h.totalLen <= CONFIG.maxTransferBytes && s.reasm == EMPTY
    ensures var m := Receive(CONFIG, s, HeaderBytes(h) + (CompleteBytes(cb) + chunk));
            && m.status == Status.OK && SameBooks(s, m.s) && KeyOf(h) in m.s.replies
            && m.s.reasm.partial == map[KeyOf(h) := Partial(h.totalLen, chunk)]
  {
    OpeningHandled(s, h, cb, chunk);
    OpeningAccepted(LimitsOf(CONFIG), h, chunk);
  }

  /** Any continuation that does not start where the reply's first half ended takes the request with it. */
  lemma BadContinuationDrops(c: Config, s: Importer, h: Header, b: Bytes, total: u32, got: Bytes)
    requires h.typ == T_DATA && h.bodyLen == |b| && h.flags == 0 && h.status == 0 && h.segOffset <= h.totalLen == total <= c.maxTransferBytes
    requires KeyOf(h) in s.table && KeyOf(h) in s.replies && s.table[KeyOf(h)].id.attachId == h.attachId
    requires KeyOf(h) in s.reasm.partial && s.reasm.partial[KeyOf(h)] == Partial(total, got) && h.segOffset != |got|
    ensures var m := Receive(c, s, HeaderBytes(h) + b);
            && m.status == Status.MALFORMED_FRAME && m.s.dropped == s.dropped + [KeyOf(h)]
            && m.s.table == s.table - {KeyOf(h)} && m.s.delivered == s.delivered && m.s.accepted == s.accepted
  {
    UnframeOne(h, b);
  }

  /** Three steps in a row. */
  lemma RunThree(c: Config, s: Importer, e1: Event, e2: Event, e3: Event, s1: Importer, s2: Importer, s3: Importer)
    requires Possible(c, s, e1) && s1 == Step(c, s, e1) && Possible(c, s1, e2) && s2 == Step(c, s1, e2)
    requires Possible(c, s2, e3) && s3 == Step(c, s2, e3)
    ensures PossibleRun(c, s, [e1, e2, e3]) && Run(c, s, [e1, e2, e3]) == s3
  {
    assert [e1, e2, e3][1..] == [e2, e3] && [e2, e3][1..] == [e3] && [e3][1..] == [];
    assert PossibleRun(c, s2, [e3]) && Run(c, s2, [e3]) == s3;
    assert PossibleRun(c, s1, [e2, e3]) && Run(c, s1, [e2, e3]) == s3;
  }

  /** A bad continuation makes the importer forget the request; completeAll then has nothing to answer. */
  lemma DropEvaporates()
    ensures PossibleRun(CONFIG, FRESH, DropRun())
    ensures var s := Run(CONFIG, FRESH, DropRun()); var t := CompleteAll(CONFIG, s, Status.TRANSPORT_LOST, []);
            s.accepted != [] && s.dropped == [KEY] && s.table == map[] && t.delivered == []
  {
    SubmitTracks();
    DropFrom(AfterSubmit(), HeaderBytes(OPENING) + (CompleteBytes(BODY) + [7]), HeaderBytes(REPEAT) + [8]);
  }

  lemma DropFrom(s1: Importer, r1: Bytes, r2: Bytes)
    requires s1 == AfterSubmit() && IdsLast(CONFIG, FRESH, READ)
    requires s1 == FRESH.(table := map[KEY := RequestFor(CONFIG, READ, KEY, 0)], lastSeen := s1.lastSeen, nextId := s1.nextId,
                          accepted := [RequestFor(CONFIG, READ, KEY, 0)])
    requires r1 == HeaderBytes(OPENING) + (CompleteBytes(BODY) + [7]) && r2 == HeaderBytes(REPEAT) + [8]
    ensures var es := [ESubmit(READ, 0, true, 1024, Status.OK), EReceive(r1), EReceive(r2)];
            && PossibleRun(CONFIG, FRESH, es)
            && var s := Run(CONFIG, FRESH, es);
               s.accepted != [] && s.dropped == [KEY] && s.table == map[] && CompleteAll(CONFIG, s, Status.TRANSPORT_LOST, []).delivered == []
  {
    OpeningIsAwaited(s1, OPENING, BODY, [7]);
    var s2 := Receive(CONFIG, s1, r1).s;
    BadContinuationDrops(CONFIG, s2, REPEAT, [8], 2, [7]);
    var s3 := Receive(CONFIG, s2, r2).s;
    RunThree(CONFIG, FRESH, ESubmit(READ, 0, true, 1024, Status.OK), EReceive(r1), EReceive(r2), s1, s2, s3);
  }

  /** For good: once dropped, in no continuation of any run is the request ever delivered. */
  lemma DroppedIsNeverDelivered(c: Config, es: seq<Event>, k: Key)
    requires PossibleRun(c, FRESH, es) && k in Run(c, FRESH, es).dropped
    ensures forall i :: 0 <= i < |Run(c, FRESH, es).delivered| ==> Run(c, FRESH, es).delivered[i].req.key != k
  {
    var s := Run(c, FRESH, es);
    EverySubmitAccountedForOnce(c, es, k);
    forall i | 0 <= i < |s.delivered| ensures s.delivered[i].req.key != k {
      assert DeliveredKeys(s.delivered)[i] == s.delivered[i].req.key;
    }
  }
}
