/** The Reassembler of airusb/protocol/Segmentation.cpp: putting one transfer back together under any input. */
module Reassembly {
  import opened Wire
  import Status

  datatype Key = Key(channel: u16, requestId: u64)

  function KeyOf(h: Header): Key { Key(h.channel, h.requestId) }

  datatype Partial = Partial(totalLen: u32, bytes: Bytes)

  datatype Limits = Limits(maxTransferBytes: nat, arenaBytes: nat, maxInFlight: nat)

  const DEFAULT_LIMITS := Limits(0x10_0000, 0x80_0000, 64)

  /** The finished payload, parked between Complete and take(). */
  datatype Parked = Parked(key: Key, bytes: Bytes)

  datatype Reasm = Reasm(partial: map<Key, Partial>, held: int, parked: Option<Parked>)

  const EMPTY := Reasm(map[], 0, None)

  datatype Verdict = NeedMore | Complete | Rejected(error: u16)

  datatype Accepted = Accepted(r: Reasm, verdict: Verdict)

  // ---------------------------------------------------------------- accept

  function Reject(r: Reasm, error: u16): Accepted { Accepted(r, Rejected(error)) }

  /** Release what is held for `key`. */
  function Drop(r: Reasm, key: Key): Reasm {
    if key in r.partial then r.(partial := r.partial - {key}, held := r.held - |r.partial[key].bytes|) else r
  }

  /** A message that was never segmented. */
  function Single(l: Limits, r: Reasm, h: Header, payload: Bytes): Accepted {
    if h.totalLen > l.maxTransferBytes then Reject(r, Status.LIMIT_EXCEEDED)
    else if |payload| != h.totalLen then Reject(r, Status.MALFORMED_FRAME)
    else Accepted(r.(parked := Some(Parked(KeyOf(h), payload))), Complete)
  }

  /** Append a segment to the transfer open on its key. */
  function Extend(l: Limits, r: Reasm, h: Header, payload: Bytes): Accepted
    requires KeyOf(h) in r.partial
  {
    var key := KeyOf(h);
    var p := r.partial[key];
    if h.segOffset != |p.bytes| || |p.bytes| + |payload| > p.totalLen then Reject(Drop(r, key), Status.MALFORMED_FRAME)
    else if r.held + |payload| > l.arenaBytes then Reject(Drop(r, key), Status.LIMIT_EXCEEDED)
    else if h.SegMore() then
      Accepted(r.(partial := r.partial[key := Partial(p.totalLen, p.bytes + payload)], held := r.held + |payload|), NeedMore)
    else if |p.bytes| + |payload| != p.totalLen then Reject(Drop(r, key), Status.MALFORMED_FRAME)
    else Accepted(Drop(r, key).(parked := Some(Parked(key, p.bytes + payload))), Complete)
  }

  function Open(r: Reasm, h: Header): Reasm { r.(partial := r.partial[KeyOf(h) := Partial(h.totalLen, [])]) }

  function Accept(l: Limits, was: Reasm, h: Header, payload: Bytes): Accepted {
    var r := was.(parked := None);
    var known := KeyOf(h) in r.partial;
    if !h.SegFirst() && !h.SegMore() && !known then Single(l, r, h, payload)
    else if h.totalLen > l.maxTransferBytes then Reject(r, Status.LIMIT_EXCEEDED)
    else if h.SegFirst() then
      if known || h.segOffset != 0 then Reject(r, Status.MALFORMED_FRAME)
      else if |r.partial| >= l.maxInFlight then Reject(r, Status.LIMIT_EXCEEDED)
      else Extend(l, Open(r, h), h, payload)
    else if !known || h.totalLen != r.partial[KeyOf(h)].totalLen then Reject(r, Status.MALFORMED_FRAME)
    else Extend(l, r, h, payload)
  }

  /** take(): the transfer that just completed, once. */
  function Take(r: Reasm, key: Key): (Bytes, Reasm) {
    if r.parked.None? || r.parked.value.key != key then ([], r) else (r.parked.value.bytes, r.(parked := None))
  }

  function ForgetChannel(r: Reasm, channel: u16, keys: seq<Key>): Reasm
    decreases |keys|
  {
    if keys == [] then r
    else ForgetChannel(if keys[0].channel == channel then Drop(r, keys[0]) else r, channel, keys[1..])
  }

  // ---------------------------------------------------------------- the arena is exact and bounded

  ghost function Total(sizes: map<Key, nat>): nat
    decreases |sizes|
  {
    if sizes == map[] then 0 else var k :| k in sizes; sizes[k] + Total(sizes - {k})
  }

  lemma {:induction false} TotalWithout(sizes: map<Key, nat>, k: Key)
    requires k in sizes
    ensures Total(sizes) == sizes[k] + Total(sizes - {k})
    decreases |sizes|
  {
    var c :| c in sizes && Total(sizes) == sizes[c] + Total(sizes - {c});
    if c != k {
      TotalWithout(sizes - {c}, k);
      TotalWithout(sizes - {k}, c);
      assert sizes - {c} - {k} == sizes - {k} - {c};
    }
  }

  lemma TotalWith(sizes: map<Key, nat>, k: Key, n: nat)
    ensures Total(sizes[k := n]) == Total(sizes) + n - if k in sizes then sizes[k] else 0
  {
    TotalWithout(sizes[k := n], k);
    assert sizes[k := n] - {k} == sizes - {k};
    if k in sizes { TotalWithout(sizes, k); } else { assert sizes - {k} == sizes; }
  }

  lemma {:induction false} TotalMonotone(a: map<Key, nat>, b: map<Key, nat>)
    requires forall k :: k in a ==> k in b && a[k] <= b[k]
    ensures Total(a) <= Total(b)
    decreases |a|
  {
    if a != map[] {
      var k :| k in a;
      TotalWithout(a, k);
      TotalWithout(b, k);
      TotalMonotone(a - {k}, b - {k});
    }
  }

  ghost function Sizes(partial: map<Key, Partial>): map<Key, nat> {
    map k | k in partial :: |partial[k].bytes|
  }

  ghost predicate Valid(l: Limits, r: Reasm) {
    && r.held == Total(Sizes(r.partial)) <= l.arenaBytes
    && |r.partial| <= l.maxInFlight
    && forall k :: k in r.partial ==> |r.partial[k].bytes| <= r.partial[k].totalLen <= l.maxTransferBytes
  }

  lemma DropIsExact(l: Limits, r: Reasm, key: Key)
    requires Valid(l, r)
    ensures Valid(l, Drop(r, key))
  {
    if key in r.partial {
      TotalWithout(Sizes(r.partial), key);
      assert Sizes(r.partial - {key}) == Sizes(r.partial) - {key};
    }
  }

  lemma OpenIsExact(l: Limits, r: Reasm, h: Header)
    requires Valid(l, r) && KeyOf(h) !in r.partial && |r.partial| < l.maxInFlight && h.totalLen <= l.maxTransferBytes
    ensures Valid(l, Open(r, h))
  {
    TotalWith(Sizes(r.partial), KeyOf(h), 0);
    assert Sizes(Open(r, h).partial) == Sizes(r.partial)[KeyOf(h) := 0];
    assert |Open(r, h).partial| == |r.partial| + 1;
  }

  lemma GrowIsExact(l: Limits, r: Reasm, key: Key, payload: Bytes)
    requires Valid(l, r) && key in r.partial
    requires |r.partial[key].bytes| + |payload| <= r.partial[key].totalLen && r.held + |payload| <= l.arenaBytes
    ensures var p := r.partial[key];
            Valid(l, r.(partial := r.partial[key := Partial(p.totalLen, p.bytes + payload)], held := r.held + |payload|))
  {
    var p := r.partial[key];
    var sizes := Sizes(r.partial);
    TotalWith(sizes, key, |p.bytes + payload|);
    assert Sizes(r.partial[key := Partial(p.totalLen, p.bytes + payload)]) == sizes[key := |p.bytes + payload|];
  }

  lemma ExtendIsExact(l: Limits, r: Reasm, h: Header, payload: Bytes)
    requires Valid(l, r) && KeyOf(h) in r.partial
    ensures Valid(l, Extend(l, r, h, payload).r)
  {
    var p := r.partial[KeyOf(h)];
    DropIsExact(l, r, KeyOf(h));
    if |p.bytes| + |payload| <= p.totalLen && r.held + |payload| <= l.arenaBytes { GrowIsExact(l, r, KeyOf(h), payload); }
  }

  /** Whatever a peer sends, the arena counter is the exact sum of what is held, and no limit is passed. */
  lemma AcceptKeepsLimits(l: Limits, r: Reasm, h: Header, payload: Bytes)
    requires Valid(l, r)
    ensures Valid(l, Accept(l, r, h, payload).r)
  {
    var c := r.(parked := None);
    if KeyOf(h) in c.partial {
      ExtendIsExact(l, c, h, payload);
    } else if h.SegFirst() && |c.partial| < l.maxInFlight && h.totalLen <= l.maxTransferBytes {
      OpenIsExact(l, c, h);
      ExtendIsExact(l, Open(c, h), h, payload);
    } else {
      assert Accept(l, r, h, payload).r.partial == c.partial;
    }
  }

  lemma {:induction false} ForgetChannelKeepsLimits(l: Limits, r: Reasm, channel: u16, keys: seq<Key>)
    requires Valid(l, r)
    ensures Valid(l, ForgetChannel(r, channel, keys))
    ensures forall k :: k in ForgetChannel(r, channel, keys).partial
              <==> k in r.partial && !(k in keys && k.channel == channel)
    decreases |keys|
  {
    if keys != [] {
      DropIsExact(l, r, keys[0]);
      ForgetChannelKeepsLimits(l, if keys[0].channel == channel then Drop(r, keys[0]) else r, channel, keys[1..]);
    }
  }

  // ---------------------------------------------------------------- the class

  class Reassembler {
    const limits: Limits
    var partial: map<Key, Partial>
    var held: int
    var completed: Bytes
    var hasCompleted: bool
    var completedKey: Key

    ghost function Snapshot(): Reasm
      reads this
    {
      Reasm(partial, held, if hasCompleted then Some(Parked(completedKey, completed)) else None)
    }

    constructor (limits: Limits)
      ensures Snapshot() == EMPTY && this.limits == limits
    {
      this.limits := limits;
      partial, held, completed, hasCompleted, completedKey := map[], 0, [], false, Key(0, 0);
    }

    method Discard(key: Key)
      modifies this
      ensures Snapshot() == Drop(old(Snapshot()), key)
    {
      if key in partial {
        held := held - |partial[key].bytes|;
        partial := partial - {key};
      }
    }

    method Receive(h: Header, payload: Bytes) returns (v: Verdict)
      modifies this
      ensures Accepted(Snapshot(), v) == Accept(limits, old(Snapshot()), h, payload)
    {
      hasCompleted, completed := false, [];
      var first, more, key := h.SegFirst(), h.SegMore(), KeyOf(h);
      if !first && !more && key !in partial {
        if h.totalLen > limits.maxTransferBytes { return Rejected(Status.LIMIT_EXCEEDED); }
        if |payload| != h.totalLen { return Rejected(Status.MALFORMED_FRAME); }
        completed, completedKey, hasCompleted := payload, key, true;
        return Complete;
      }
      if h.totalLen > limits.maxTransferBytes { return Rejected(Status.LIMIT_EXCEEDED); }
      if first {
        if key in partial { return Rejected(Status.MALFORMED_FRAME); }
        if h.segOffset != 0 { return Rejected(Status.MALFORMED_FRAME); }
        if |partial| >= limits.maxInFlight { return Rejected(Status.LIMIT_EXCEEDED); }
        partial := partial[key := Partial(h.totalLen, [])];
      } else {
        if key !in partial { return Rejected(Status.MALFORMED_FRAME); }
        if h.totalLen != partial[key].totalLen { return Rejected(Status.MALFORMED_FRAME); }
      }
      v := AppendSegment(h, payload);
    }

    /** The second half of accept(): the segment must begin exactly where the last one ended. */
    method AppendSegment(h: Header, payload: Bytes) returns (v: Verdict)
      requires KeyOf(h) in partial && !hasCompleted
      modifies this
      ensures Accepted(Snapshot(), v) == Extend(limits, old(Snapshot()), h, payload)
    {
      var key := KeyOf(h);
      var p := partial[key];
      if h.segOffset != |p.bytes| {
        Discard(key);
        return Rejected(Status.MALFORMED_FRAME);
      }
      if |p.bytes| + |payload| > p.totalLen {
        Discard(key);
        return Rejected(Status.MALFORMED_FRAME);
      }
      if held + |payload| > limits.arenaBytes {
        Discard(key);
        return Rejected(Status.LIMIT_EXCEEDED);
      }
      p := p.(bytes := p.bytes + payload);
      partial := partial[key := p];
      held := held + |payload|;
      if h.SegMore() { return NeedMore; }
      Discard(key);
      assert partial == old(partial) - {key};
      if |p.bytes| != p.totalLen { return Rejected(Status.MALFORMED_FRAME); }
      completed, completedKey, hasCompleted := p.bytes, key, true;
      v := Complete;
    }

    method TakeCompleted(key: Key) returns (bytes: Bytes)
      modifies this
      ensures (bytes, Snapshot()) == Take(old(Snapshot()), key)
    {
      if !hasCompleted { return []; }
      if key != completedKey { return []; }
      hasCompleted := false;
      bytes, completed := completed, [];
    }

    /** `keys` are the keys held, in the order the map visits them. */
    method DiscardChannel(channel: u16, keys: seq<Key>)
      modifies this
      ensures Snapshot() == ForgetChannel(old(Snapshot()), channel, keys)
    {
      for i := 0 to |keys|
        invariant ForgetChannel(Snapshot(), channel, keys[i..]) == ForgetChannel(old(Snapshot()), channel, keys)
      {
        if keys[i].channel == channel { Discard(keys[i]); }
        assert keys[i..][1..] == keys[i + 1..];
      }
    }

    method Clear()
      modifies this
      ensures Snapshot() == EMPTY
    {
      partial, held, completed, hasCompleted := map[], 0, [], false;
    }
  }

  // ---------------------------------------------------------------- a completed payload has no gap

  datatype Op =
    | Arrive(h: Header, payload: Bytes)
    | Forget(key: Key)
    | ForgetAll(channel: u16, keys: seq<Key>)
    | TakeOut(taken: Key)
    | ClearOut

  function Apply(l: Limits, r: Reasm, op: Op): Reasm {
    match op
    case Arrive(h, payload) => Accept(l, r, h, payload).r
    case Forget(key) => Drop(r, key)
    case ForgetAll(channel, keys) => ForgetChannel(r, channel, keys)
    case TakeOut(key) => Take(r, key).1
    case ClearOut => EMPTY
  }

  function After(l: Limits, ops: seq<Op>): Reasm {
    if ops == [] then EMPTY else Apply(l, After(l, ops[..|ops| - 1]), ops[|ops| - 1])
  }

  lemma {:induction false} EveryRunKeepsLimits(l: Limits, ops: seq<Op>)
    ensures Valid(l, After(l, ops))
  {
    if ops == [] {
      assert Sizes(EMPTY.partial) == map[];
    } else {
      var was := After(l, ops[..|ops| - 1]);
      EveryRunKeepsLimits(l, ops[..|ops| - 1]);
      assert Sizes(EMPTY.partial) == map[];
      match ops[|ops| - 1]
      case Arrive(h, payload) => AcceptKeepsLimits(l, was, h, payload);
      case Forget(key) => DropIsExact(l, was, key);
      case ForgetAll(channel, keys) => ForgetChannelKeepsLimits(l, was, channel, keys);
      case _ =>
    }
  }

  predicate Indices(ops: seq<Op>, at: seq<nat>) {
    && (forall j :: 0 <= j < |at| ==> at[j] < |ops| && ops[at[j]].Arrive?)
    && (forall i, j :: 0 <= i < j < |at| ==> at[i] < at[j])
  }

  /** The payloads of the records `at`, end to end. */
  function Joined(ops: seq<Op>, at: seq<nat>): Bytes
    requires Indices(ops, at)
  {
    if at == [] then [] else Joined(ops, at[..|at| - 1]) + ops[at[|at| - 1]].payload
  }

  /** Segment `j` of a transfer, which starts at `offset`. */
  predicate Link(h: Header, j: nat, key: Key, total: u32, offset: nat) {
    KeyOf(h) == key && h.totalLen == total && h.SegFirst() == (j == 0) && h.segOffset == offset
  }

  /** The records `at` are segments of one transfer on `key`, each starting where the ones before it end. */
  ghost predicate Chain(ops: seq<Op>, at: seq<nat>, key: Key, total: u32) {
    && Indices(ops, at) && at != []
    && forall j :: 0 <= j < |at| ==> Link(ops[at[j]].h, j, key, total, |Joined(ops, at[..j])|)
  }

  predicate AllMore(ops: seq<Op>, at: seq<nat>)
    requires Indices(ops, at)
  {
    forall j :: 0 <= j < |at| ==> ops[at[j]].h.SegMore()
  }

  /** What is held for a key is the join of a chain that all said "more". */
  ghost predicate Explained(ops: seq<Op>, key: Key, p: Partial) {
    exists at :: Chain(ops, at, key, p.totalLen) && Joined(ops, at) == p.bytes && AllMore(ops, at)
  }

  lemma {:induction false} JoinedStable(ops: seq<Op>, op: Op, at: seq<nat>)
    requires Indices(ops, at)
    ensures Indices(ops + [op], at) && Joined(ops + [op], at) == Joined(ops, at)
    decreases |at|
  {
    if at != [] { JoinedStable(ops, op, at[..|at| - 1]); }
  }

  lemma ChainStable(ops: seq<Op>, op: Op, at: seq<nat>, key: Key, total: u32)
    requires Chain(ops, at, key, total)
    ensures Chain(ops + [op], at, key, total) && Joined(ops + [op], at) == Joined(ops, at)
  {
    JoinedStable(ops, op, at);
    forall j | 0 <= j < |at| ensures Joined(ops + [op], at[..j]) == Joined(ops, at[..j]) {
      JoinedStable(ops, op, at[..j]);
    }
  }

  lemma ExplainedStable(ops: seq<Op>, op: Op, key: Key, p: Partial)
    requires Explained(ops, key, p)
    ensures Explained(ops + [op], key, p)
  {
    var at :| Chain(ops, at, key, p.totalLen) && Joined(ops, at) == p.bytes && AllMore(ops, at);
    ChainStable(ops, op, at, key, p.totalLen);
    assert AllMore(ops + [op], at);
  }

  lemma IndicesGrow(ops: seq<Op>, op: Op, at: seq<nat>)
    requires op.Arrive? && Indices(ops, at)
    ensures Indices(ops + [op], at + [|ops|])
  {}

  /** A chain takes one more link, to a record behind all of its own. */
  lemma LinkAdded(ops: seq<Op>, at: seq<nat>, n: nat, key: Key, total: u32)
    requires Chain(ops, at, key, total) && Indices(ops, at + [n]) && n < |ops| && ops[n].Arrive?
    requires Link(ops[n].h, |at|, key, total, |Joined(ops, at)|)
    ensures Chain(ops, at + [n], key, total)
  {
    var at' := at + [n];
    forall j | 0 <= j < |at'| ensures Link(ops[at'[j]].h, j, key, total, |Joined(ops, at'[..j])|) {
      if j < |at| {
        assert at'[..j] == at[..j];
      } else {
        assert at'[..j] == at;
      }
    }
  }

  /** A chain grows by a segment that starts where it ends. */
  lemma ChainGrows(ops: seq<Op>, op: Op, at: seq<nat>, key: Key, total: u32)
    requires op.Arrive? && KeyOf(op.h) == key && op.h.totalLen == total && !op.h.SegFirst()
    requires Chain(ops, at, key, total) && op.h.segOffset == |Joined(ops, at)|
    ensures Chain(ops + [op], at + [|ops|], key, total)
    ensures Joined(ops + [op], at + [|ops|]) == Joined(ops, at) + op.payload
  {
    ChainStable(ops, op, at, key, total);
    IndicesGrow(ops, op, at);
    LinkAdded(ops + [op], at, |ops|, key, total);
    assert (at + [|ops|])[..|at|] == at;
  }

  lemma ChainStarts(ops: seq<Op>, op: Op)
    requires op.Arrive? && op.h.SegFirst() && op.h.segOffset == 0
    ensures Chain(ops + [op], [|ops|], KeyOf(op.h), op.h.totalLen)
    ensures Joined(ops + [op], [|ops|]) == op.payload
  {
    assert [|ops|][..0] == [];
  }

  /** A segment that starts a transfer, or starts exactly where the one open on its key ends. */
  predicate Joins(r: Reasm, h: Header) {
    if h.SegFirst() then h.segOffset == 0 && KeyOf(h) !in r.partial
    else KeyOf(h) in r.partial && h.totalLen == r.partial[KeyOf(h)].totalLen && h.segOffset == |r.partial[KeyOf(h)].bytes|
  }

  function Prior(r: Reasm, h: Header): Bytes
    requires Joins(r, h)
  {
    if h.SegFirst() then [] else r.partial[KeyOf(h)].bytes
  }

  predicate Undisturbed(r: Reasm, r': Reasm, k: Key) {
    (k in r'.partial <==> k in r.partial) && (k in r.partial ==> r'.partial[k] == r.partial[k])
  }

  /** All that accept() can do, by verdict. */
  ghost predicate Effect(l: Limits, r: Reasm, h: Header, payload: Bytes, a: Accepted) {
    var key := KeyOf(h);
    && (forall k :: k != key ==> Undisturbed(r, a.r, k))
    && (a.verdict.Rejected? ==> a.r.parked == None && (key in a.r.partial ==> Undisturbed(r, a.r, key)))
    && (a.verdict == NeedMore ==>
          Joins(r, h) && h.SegMore() && key in a.r.partial && a.r.partial[key] == Partial(h.totalLen, Prior(r, h) + payload))
    && (a.verdict == Complete ==>
          && !h.SegMore() && key !in a.r.partial && h.totalLen <= l.maxTransferBytes
          && a.r.parked.Some? && a.r.parked.value.key == key && |a.r.parked.value.bytes| == h.totalLen)
    && (a.verdict == Complete && (h.SegFirst() || key in r.partial) ==>
          Joins(r, h) && a.r.parked.value.bytes == Prior(r, h) + payload)
    && (a.verdict == Complete && !h.SegFirst() && key !in r.partial ==> a.r.parked.value.bytes == payload)
  }

  lemma AcceptEffect(l: Limits, r: Reasm, h: Header, payload: Bytes)
    ensures Effect(l, r, h, payload, Accept(l, r, h, payload))
  {}

  /** `bytes` is the join of a chain of segments: the last record, after segments that all said "more". */
  ghost predicate GapFree(ops: seq<Op>, key: Key, total: u32, bytes: Bytes) {
    exists at :: EndsHere(ops, at, key, total, bytes)
  }

  ghost predicate EndsHere(ops: seq<Op>, at: seq<nat>, key: Key, total: u32, bytes: Bytes) {
    && Chain(ops, at, key, total) && at[|at| - 1] == |ops| - 1 && Joined(ops, at) == bytes
    && AllMore(ops, at[..|at| - 1])
  }

  lemma FirstIsGapFree(ops: seq<Op>, op: Op)
    requires op.Arrive? && op.h.SegFirst() && op.h.segOffset == 0
    ensures GapFree(ops + [op], KeyOf(op.h), op.h.totalLen, op.payload)
  {
    ChainStarts(ops, op);
    assert EndsHere(ops + [op], [|ops|], KeyOf(op.h), op.h.totalLen, op.payload);
  }

  lemma NextIsGapFree(ops: seq<Op>, op: Op, p: Partial)
    requires op.Arrive? && !op.h.SegFirst() && op.h.totalLen == p.totalLen && op.h.segOffset == |p.bytes|
    requires Explained(ops, KeyOf(op.h), p)
    ensures GapFree(ops + [op], KeyOf(op.h), p.totalLen, p.bytes + op.payload)
  {
    var at :| Chain(ops, at, KeyOf(op.h), p.totalLen) && Joined(ops, at) == p.bytes && AllMore(ops, at);
    ChainEnds(ops, op, at, KeyOf(op.h), p);
  }

  lemma ChainEnds(ops: seq<Op>, op: Op, at: seq<nat>, key: Key, p: Partial)
    requires op.Arrive? && KeyOf(op.h) == key && op.h.totalLen == p.totalLen && !op.h.SegFirst()
    requires Chain(ops, at, key, p.totalLen) && Joined(ops, at) == p.bytes && AllMore(ops, at)
    requires op.h.segOffset == |p.bytes|
    ensures EndsHere(ops + [op], at + [|ops|], key, p.totalLen, p.bytes + op.payload)
  {
    ChainGrows(ops, op, at, key, p.totalLen);
    assert (at + [|ops|])[..|at|] == at;
    assert AllMore(ops + [op], at);
  }

  lemma SegmentExtendsChain(ops: seq<Op>, op: Op, r: Reasm)
    requires op.Arrive? && Joins(r, op.h)
    requires !op.h.SegFirst() ==> Explained(ops, KeyOf(op.h), r.partial[KeyOf(op.h)])
    ensures GapFree(ops + [op], KeyOf(op.h), op.h.totalLen, Prior(r, op.h) + op.payload)
  {
    if op.h.SegFirst() {
      assert Prior(r, op.h) + op.payload == op.payload;
      FirstIsGapFree(ops, op);
    } else {
      NextIsGapFree(ops, op, r.partial[KeyOf(op.h)]);
    }
  }

  lemma GapFreeExplains(ops: seq<Op>, key: Key, p: Partial)
    requires ops != [] && GapFree(ops, key, p.totalLen, p.bytes) && ops[|ops| - 1].Arrive? && ops[|ops| - 1].h.SegMore()
    ensures Explained(ops, key, p)
  {
    var at :| EndsHere(ops, at, key, p.totalLen, p.bytes);
    forall j | 0 <= j < |at| ensures ops[at[j]].h.SegMore() {
      if j < |at| - 1 { assert at[..|at| - 1][j] == at[j]; }
    }
    assert AllMore(ops, at);
  }

  lemma ArrivalIsExplained(l: Limits, ops: seq<Op>, op: Op, r: Reasm)
    requires op.Arrive? && forall k :: k in r.partial ==> Explained(ops, k, r.partial[k])
    ensures forall k :: k in Apply(l, r, op).partial ==> Explained(ops + [op], k, Apply(l, r, op).partial[k])
  {
    AcceptEffect(l, r, op.h, op.payload);
    var a := Accept(l, r, op.h, op.payload);
    forall k | k in a.r.partial ensures Explained(ops + [op], k, a.r.partial[k]) {
      if k == KeyOf(op.h) && a.verdict == NeedMore {
        SegmentExtendsChain(ops, op, r);
        GapFreeExplains(ops + [op], k, a.r.partial[k]);
      } else {
        assert Undisturbed(r, a.r, k);
        ExplainedStable(ops, op, k, r.partial[k]);
      }
    }
  }

  lemma RemovalIsExplained(l: Limits, ops: seq<Op>, op: Op, r: Reasm)
    requires !op.Arrive? && forall k :: k in r.partial ==> Explained(ops, k, r.partial[k])
    ensures forall k :: k in Apply(l, r, op).partial ==> Explained(ops + [op], k, Apply(l, r, op).partial[k])
  {
    forall k | k in Apply(l, r, op).partial ensures Explained(ops + [op], k, Apply(l, r, op).partial[k]) {
      if op.ForgetAll? { ForgetChannelLeaves(r, op.channel, op.keys, k); }
      ExplainedStable(ops, op, k, r.partial[k]);
    }
  }

  lemma {:induction false} HeldIsExplained(l: Limits, ops: seq<Op>)
    ensures forall k :: k in After(l, ops).partial ==> Explained(ops, k, After(l, ops).partial[k])
  {
    if ops != [] {
      var before, op := ops[..|ops| - 1], ops[|ops| - 1];
      HeldIsExplained(l, before);
      assert ops == before + [op];
      if op.Arrive? { ArrivalIsExplained(l, before, op, After(l, before)); }
      else { RemovalIsExplained(l, before, op, After(l, before)); }
    }
  }

  lemma {:induction false} ForgetChannelLeaves(r: Reasm, channel: u16, keys: seq<Key>, k: Key)
    requires k in ForgetChannel(r, channel, keys).partial
    ensures k in r.partial && ForgetChannel(r, channel, keys).partial[k] == r.partial[k]
    decreases |keys|
  {
    if keys != [] { ForgetChannelLeaves(if keys[0].channel == channel then Drop(r, keys[0]) else r, channel, keys[1..], k); }
  }

  /**
   * Whatever records came before, a completed payload has exactly the declared length and is
   * either one unsegmented record or the gap-free join of that key's own segments.
   */
  lemma CompletedIsGapFree(l: Limits, ops: seq<Op>, op: Op)
    requires op.Arrive? && Accept(l, After(l, ops), op.h, op.payload).verdict == Complete
    ensures var r := Accept(l, After(l, ops), op.h, op.payload).r; var h := op.h;
            && r.parked.Some? && r.parked.value.key == KeyOf(h) && !h.SegMore()
            && KeyOf(h) !in r.partial && |r.parked.value.bytes| == h.totalLen <= l.maxTransferBytes
            && ((!h.SegFirst() && KeyOf(h) !in After(l, ops).partial && r.parked.value.bytes == op.payload)
                || GapFree(ops + [op], KeyOf(h), h.totalLen, r.parked.value.bytes))
  {
    HeldIsExplained(l, ops);
    AcceptEffect(l, After(l, ops), op.h, op.payload);
    if op.h.SegFirst() || KeyOf(op.h) in After(l, ops).partial { SegmentExtendsChain(ops, op, After(l, ops)); }
  }

  // ---------------------------------------------------------------- interleaving

  /** One record of a transfer as the Reassembler sees it. */
  datatype Piece = Piece(h: Header, payload: Bytes)

  function Through(pieces: seq<Piece>, n: nat): Bytes
    requires n <= |pieces|
  {
    if n == 0 then [] else Through(pieces, n - 1) + pieces[n - 1].payload
  }

  /** Piece `i` of a transfer of `data` on `key`: it starts where the ones before it end. */
  ghost predicate PieceOk(key: Key, pieces: seq<Piece>, data: Bytes, i: nat)
    requires i < |pieces|
  {
    var h := pieces[i].h;
    && KeyOf(h) == key && h.totalLen == |data|
    && h.SegFirst() == (i == 0) && h.SegMore() == (i < |pieces| - 1)
    && h.segOffset == |Through(pieces, i)|
  }

  /** The records of one transfer of `data` on `key`, as a well-behaved sender cuts it. */
  ghost predicate WellFormed(l: Limits, key: Key, pieces: seq<Piece>, data: Bytes) {
    && pieces != [] && |data| <= l.maxTransferBytes && Through(pieces, |pieces|) == data
    && forall i :: 0 <= i < |pieces| ==> PieceOk(key, pieces, data, i)
  }

  datatype Job = Job(pieces: seq<Piece>, data: Bytes)

  /** How often `k` was named: the number of its pieces fed so far. */
  function Count(order: seq<Key>, k: Key): nat {
    if order == [] then 0 else Count(order[..|order| - 1], k) + if order[|order| - 1] == k then 1 else 0
  }

  lemma CountStep(order: seq<Key>, k: Key)
    ensures forall j :: Count(order + [k], j) == Count(order, j) + if j == k then 1 else 0
  {
    assert (order + [k])[..|order|] == order;
  }

  ghost predicate Schedule(jobs: map<Key, Job>, order: seq<Key>) {
    && (forall k :: k in order ==> k in jobs)
    && forall k :: k in jobs ==> Count(order, k) <= |jobs[k].pieces|
  }

  /** Feed the next piece of each key named in `order`, in that order. */
  ghost function Fed(l: Limits, jobs: map<Key, Job>, order: seq<Key>): (r: Reasm)
    requires Schedule(jobs, order)
  {
    if order == [] then EMPTY
    else
      Shorter(jobs, order);
      var last := |order| - 1;
      var piece := jobs[order[last]].pieces[Count(order[..last], order[last])];
      Accept(l, Fed(l, jobs, order[..last]), piece.h, piece.payload).r
  }

  lemma Shorter(jobs: map<Key, Job>, order: seq<Key>)
    requires order != [] && Schedule(jobs, order)
    ensures var last := |order| - 1;
            && Schedule(jobs, order[..last]) && order[last] in jobs
            && Count(order, order[last]) == Count(order[..last], order[last]) + 1
            && (forall k :: k in jobs && k != order[last] ==> Count(order, k) == Count(order[..last], k))
            && Count(order[..last], order[last]) < |jobs[order[last]].pieces|
  {}

  ghost function Loads(jobs: map<Key, Job>): map<Key, nat> { map k | k in jobs :: |jobs[k].data| }

  /** Every transfer is well-formed, and all of them together fit. */
  ghost predicate Fit(l: Limits, jobs: map<Key, Job>) {
    && |jobs| <= l.maxInFlight && Total(Loads(jobs)) <= l.arenaBytes
    && forall k :: k in jobs ==> WellFormed(l, k, jobs[k].pieces, jobs[k].data)
  }

  /** After `n` pieces of a transfer, what is held for it is those pieces, end to end. */
  ghost predicate Tracks(job: Job, n: nat, partial: map<Key, Partial>, k: Key) {
    && n <= |job.pieces|
    && (k in partial <==> 0 < n < |job.pieces|)
    && (k in partial ==> partial[k].totalLen == |job.data| && partial[k].bytes == Through(job.pieces, n))
  }

  ghost predicate Following(jobs: map<Key, Job>, order: seq<Key>, r: Reasm) {
    && (forall k :: k in r.partial ==> k in jobs)
    && forall k :: k in jobs ==> Tracks(jobs[k], Count(order, k), r.partial, k)
  }

  lemma {:induction false} ThroughWithin(pieces: seq<Piece>, n: nat)
    requires n <= |pieces|
    ensures |Through(pieces, n)| <= |Through(pieces, |pieces|)|
    decreases |pieces| - n
  {
    if n < |pieces| { ThroughWithin(pieces, n + 1); }
  }

  function HeldFor(r: Reasm, k: Key): nat { if k in r.partial then |r.partial[k].bytes| else 0 }

  lemma LoadGrown(sizes: map<Key, nat>, k: Key, n: nat, more: nat, loads: map<Key, nat>)
    requires forall j :: j in sizes ==> j in loads && sizes[j] <= loads[j]
    requires k in loads && n + more <= loads[k] && n == if k in sizes then sizes[k] else 0
    ensures Total(sizes) + more <= Total(loads)
  {
    TotalMonotone(sizes[k := n + more], loads);
    TotalWith(sizes, k, n + more);
  }

  lemma OneFewer(partial: map<Key, Partial>, jobs: map<Key, Job>, k: Key)
    requires k in jobs && k !in partial && forall j :: j in partial ==> j in jobs
    ensures |partial| < |jobs|
  {
    assert partial.Keys <= jobs.Keys - {k};
    Subset(partial.Keys, jobs.Keys - {k});
    assert |partial.Keys| == |partial| && |jobs.Keys| == |jobs|;
  }

  /** There is room for `more` bytes of `k`, because everything held and they are part of the whole load. */
  lemma RoomForMore(l: Limits, jobs: map<Key, Job>, r: Reasm, k: Key, more: nat)
    requires Valid(l, r) && |jobs| <= l.maxInFlight && Total(Loads(jobs)) <= l.arenaBytes && k in jobs
    requires forall j :: j in r.partial ==> j in jobs && HeldFor(r, j) <= |jobs[j].data|
    requires HeldFor(r, k) + more <= |jobs[k].data|
    ensures r.held + more <= l.arenaBytes
    ensures k !in r.partial ==> |r.partial| < l.maxInFlight
  {
    var sizes, loads := Sizes(r.partial), Loads(jobs);
    assert forall j :: j in sizes ==> sizes[j] == HeldFor(r, j);
    LoadGrown(sizes, k, HeldFor(r, k), more, loads);
    if k !in r.partial { OneFewer(r.partial, jobs, k); }
  }

  lemma TrackedWithin(l: Limits, k: Key, job: Job, n: nat, r: Reasm)
    requires Tracks(job, n, r.partial, k) && WellFormed(l, k, job.pieces, job.data)
    ensures HeldFor(r, k) <= |job.data|
    ensures n < |job.pieces| ==> HeldFor(r, k) + |job.pieces[n].payload| <= |job.data|
    ensures n == |job.pieces| - 1 ==> HeldFor(r, k) + |job.pieces[n].payload| == |job.data|
  {
    ThroughWithin(job.pieces, n);
    if n < |job.pieces| { ThroughWithin(job.pieces, n + 1); }
  }

  /** The next piece is accepted. */
  lemma NextPieceFits(l: Limits, jobs: map<Key, Job>, order: seq<Key>, r: Reasm, k: Key)
    requires Fit(l, jobs) && Valid(l, r) && Following(jobs, order, r)
    requires k in jobs && Count(order, k) < |jobs[k].pieces|
    ensures r.held + |jobs[k].pieces[Count(order, k)].payload| <= l.arenaBytes
    ensures k !in r.partial ==> |r.partial| < l.maxInFlight
  {
    forall j | j in jobs ensures j in r.partial ==> HeldFor(r, j) <= |jobs[j].data| {
      TrackedWithin(l, j, jobs[j], Count(order, j), r);
    }
    TrackedWithin(l, k, jobs[k], Count(order, k), r);
    RoomForMore(l, jobs, r, k, |jobs[k].pieces[Count(order, k)].payload|);
  }

  lemma {:induction false} Subset(a: set<Key>, b: set<Key>)
    requires a <= b
    ensures |a| <= |b|
    decreases |a|
  {
    if a != {} {
      var x :| x in a;
      Subset(a - {x}, b - {x});
    }
  }

  /** A segment that joins on, is within the limits, and ends the transfer only when it is whole. */
  lemma AcceptJoining(l: Limits, r: Reasm, h: Header, payload: Bytes)
    requires Joins(r, h) && h.totalLen <= l.maxTransferBytes && (h.SegFirst() ==> |r.partial| < l.maxInFlight)
    requires |Prior(r, h)| + |payload| <= h.totalLen && r.held + |payload| <= l.arenaBytes
    requires !h.SegMore() ==> |Prior(r, h)| + |payload| == h.totalLen
    ensures var a := Accept(l, r, h, payload);
            && a.verdict == (if h.SegMore() then NeedMore else Complete)
  {}

  lemma PieceJoins(l: Limits, r: Reasm, k: Key, job: Job, n: nat)
    requires WellFormed(l, k, job.pieces, job.data) && n < |job.pieces| && Tracks(job, n, r.partial, k)
    ensures var h := job.pieces[n].h;
            && KeyOf(h) == k && h.totalLen == |job.data| && h.SegMore() == (n < |job.pieces| - 1)
            && Joins(r, h) && Prior(r, h) == Through(job.pieces, n)
  {
    assert PieceOk(k, job.pieces, job.data, n);
    assert n == 0 ==> Through(job.pieces, n) == [];
  }

  /** Piece `n` of one transfer, when there is room for it. */
  lemma PieceAccepted(l: Limits, r: Reasm, k: Key, job: Job, n: nat)
    requires WellFormed(l, k, job.pieces, job.data) && n < |job.pieces| && Tracks(job, n, r.partial, k)
    requires r.held + |job.pieces[n].payload| <= l.arenaBytes && (k !in r.partial ==> |r.partial| < l.maxInFlight)
    ensures var a := Accept(l, r, job.pieces[n].h, job.pieces[n].payload);
            && Tracks(job, n + 1, a.r.partial, k)
            && (forall j :: j != k ==> Undisturbed(r, a.r, j))
            && a.verdict == (if n < |job.pieces| - 1 then NeedMore else Complete)
            && (n == |job.pieces| - 1 ==> a.r.parked == Some(Parked(k, job.data)))
  {
    var piece := job.pieces[n];
    TrackedWithin(l, k, job, n, r);
    PieceJoins(l, r, k, job, n);
    assert |Prior(r, piece.h)| == HeldFor(r, k);
    AcceptJoining(l, r, piece.h, piece.payload);
    AcceptEffect(l, r, piece.h, piece.payload);
    assert Through(job.pieces, n + 1) == Through(job.pieces, n) + piece.payload;
  }

  /** One more piece, fed in turn. */
  lemma FeedOne(l: Limits, jobs: map<Key, Job>, order: seq<Key>, r: Reasm, k: Key)
    requires Fit(l, jobs) && Valid(l, r) && Following(jobs, order, r)
    requires k in jobs && Count(order, k) < |jobs[k].pieces|
    ensures var n := Count(order, k); var pieces := jobs[k].pieces;
            var a := Accept(l, r, pieces[n].h, pieces[n].payload);
            && Following(jobs, order + [k], a.r)
            && a.verdict == (if n < |pieces| - 1 then NeedMore else Complete)
            && (n == |pieces| - 1 ==> a.r.parked == Some(Parked(k, jobs[k].data)))
  {
    var n := Count(order, k);
    var piece := jobs[k].pieces[n];
    NextPieceFits(l, jobs, order, r, k);
    PieceAccepted(l, r, k, jobs[k], n);
    var r' := Accept(l, r, piece.h, piece.payload).r;
    CountStep(order, k);
    forall j | j in jobs ensures Tracks(jobs[j], Count(order + [k], j), r'.partial, j) {
      if j != k {
        assert Undisturbed(r, r', j) && Tracks(jobs[j], Count(order, j), r.partial, j);
      }
    }
    forall j | j in r'.partial ensures j in jobs {
      if j != k { assert Undisturbed(r, r', j); }
    }
  }

  lemma FedStep(l: Limits, jobs: map<Key, Job>, order: seq<Key>, k: Key)
    requires Schedule(jobs, order + [k])
    ensures Schedule(jobs, order) && k in jobs && Count(order, k) < |jobs[k].pieces|
    ensures var piece := jobs[k].pieces[Count(order, k)];
            Fed(l, jobs, order + [k]) == Accept(l, Fed(l, jobs, order), piece.h, piece.payload).r
  {
    Shorter(jobs, order + [k]);
    assert (order + [k])[..|order|] == order;
  }

  lemma {:induction false} FedFollows(l: Limits, jobs: map<Key, Job>, order: seq<Key>)
    requires Fit(l, jobs) && Schedule(jobs, order)
    ensures Following(jobs, order, Fed(l, jobs, order)) && Valid(l, Fed(l, jobs, order))
    decreases |order|
  {
    if order == [] {
      assert Sizes(EMPTY.partial) == map[];
    } else {
      var before, k := order[..|order| - 1], order[|order| - 1];
      assert before + [k] == order;
      FedStep(l, jobs, before, k);
      FedFollows(l, jobs, before);
      FeedOne(l, jobs, before, Fed(l, jobs, before), k);
      var piece := jobs[k].pieces[Count(before, k)];
      AcceptKeepsLimits(l, Fed(l, jobs, before), piece.h, piece.payload);
    }
  }

  /**
   * Any interleaving of well-formed transfers on distinct keys, all within the limits: the
   * last piece of each transfer completes it, with that transfer's own bytes.
   */
  lemma InterleavingCompletesEach(l: Limits, jobs: map<Key, Job>, order: seq<Key>)
    requires Fit(l, jobs) && Schedule(jobs, order) && order != []
    ensures Schedule(jobs, order[..|order| - 1])
    ensures var k := order[|order| - 1];
            var n := Count(order[..|order| - 1], k);
            && n < |jobs[k].pieces|
            && var a := Accept(l, Fed(l, jobs, order[..|order| - 1]), jobs[k].pieces[n].h, jobs[k].pieces[n].payload);
               && (n < |jobs[k].pieces| - 1 ==> a.verdict == NeedMore)
               && (n == |jobs[k].pieces| - 1 ==> a.verdict == Complete && a.r.parked == Some(Parked(k, jobs[k].data)))
  {
    Shorter(jobs, order);
    FedFollows(l, jobs, order[..|order| - 1]);
    FeedOne(l, jobs, order[..|order| - 1], Fed(l, jobs, order[..|order| - 1]), order[|order| - 1]);
  }
}
