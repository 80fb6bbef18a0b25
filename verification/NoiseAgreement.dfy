/** Two honest ends of a Noise handshake, over messages nobody touched, stay in the same state. */
module NoiseAgreement {
  import opened Wire
  import Status
  import opened Noise

  /** `seen` is the public half of what the other end holds, once it has sent it. */
  ghost predicate Learned(z: Suite, secret: Option<Bytes>, seen: Option<Bytes>) {
    (seen.Some? <==> secret.Some?) && (secret.Some? ==> seen.value == z.pub(secret.value))
  }

  ghost predicate Knows(z: Suite, s: Bytes, seen: Option<Bytes>) { seen.Some? ==> seen.value == z.pub(s) }

  /** Same transcript, same keys; each end's picture of the other is true. */
  ghost predicate InStep(z: Suite, a: Hs, b: Hs) {
    && a.pattern == b.pattern && a.initiator != b.initiator && a.sym == b.sym
    && a.msgIndex == b.msgIndex && a.started && b.started && a.complete == b.complete
    && Learned(z, a.e, b.re) && Learned(z, b.e, a.re)
    && Knows(z, a.s, b.rs) && Knows(z, b.s, a.rs)
  }

  /** The writer has what the token needs, and a static is not sent twice in XX. */
  ghost predicate Ready(w: Hs, r: Hs, t: Token) {
    match t
    case E => true
    case S => w.pattern == XX ==> r.rs.None?
    case EE => w.e.Some? && w.re.Some?
    case ES => if w.initiator then w.e.Some? && w.rs.Some? && r.re.Some? else w.re.Some? && r.e.Some? && r.rs.Some?
    case SE => if w.initiator then w.re.Some? && r.e.Some? && r.rs.Some? else w.e.Some? && w.rs.Some? && r.re.Some?
    case SS => w.rs.Some? && r.rs.Some?
  }

  /** A Diffie-Hellman token gives both ends the same key, from opposite halves. */
  lemma MixAgrees(z: Suite, w: Hs, r: Hs, t: Token)
    requires Lawful(z) && InStep(z, w, r) && Ready(w, r, t) && t != E && t != S
    ensures var a, b := MixToken(z, w, t), MixToken(z, r, t);
            a.status == b.status && (a.status == Status.OK ==> InStep(z, a.hs, b.hs))
            && a.hs == w.(sym := a.hs.sym) && b.hs == r.(sym := b.hs.sym)
  {}

  /** What one token writes the same token reads back, and the ends stay in step. */
  lemma TokenAgrees(z: Suite, w: Hs, r: Hs, t: Token, ephemeral: Bytes, rest: Bytes)
    requires Lawful(z) && InStep(z, w, r) && Ready(w, r, t) && (t == E ==> w.e.None?)
    requires WriteToken(z, w, t, ephemeral).status == Status.OK
    ensures var p := WriteToken(z, w, t, ephemeral); var q := ReadToken(z, r, t, p.bytes + rest);
            q.status == Status.OK && q.bytes == rest && InStep(z, p.hs, q.hs)
  {
    var p := WriteToken(z, w, t, ephemeral);
    if t == E {
      assert (p.bytes + rest)[..DH_LEN] == p.bytes && (p.bytes + rest)[DH_LEN..] == rest;
    } else if t == S {
      SealedOpens(z, w.sym, z.pub(w.s));
      assert (p.bytes + rest)[..|p.bytes|] == p.bytes && (p.bytes + rest)[|p.bytes|..] == rest;
    } else {
      MixAgrees(z, w, r, t);
      assert p.bytes + rest == rest;
    }
  }

  // ---------------------------------------------------------------- who has what, token by token

  /** Which ephemerals exist and which statics have been learned. */
  datatype Known = Known(iE: bool, iRs: bool, rE: bool, rRs: bool)

  ghost function KnownTo(i: Hs, r: Hs): Known { Known(i.e.Some?, i.rs.Some?, r.e.Some?, r.rs.Some?) }

  ghost function KnownBetween(w: Hs, r: Hs): Known { if w.initiator then KnownTo(w, r) else KnownTo(r, w) }

  predicate MaySend(k: Known, p: Pattern, t: Token, byInitiator: bool) {
    match t
    case E => if byInitiator then !k.iE else !k.rE
    case S => p == XX ==> if byInitiator then !k.rRs else !k.iRs
    case EE => k.iE && k.rE
    case ES => k.iE && k.iRs
    case SE => k.rE && k.rRs
    case SS => k.iRs && k.rRs
  }

  function After(k: Known, t: Token, byInitiator: bool): Known {
    match t
    case E => if byInitiator then k.(iE := true) else k.(rE := true)
    case S => if byInitiator then k.(rRs := true) else k.(iRs := true)
    case _ => k
  }

  predicate MaySendAll(k: Known, p: Pattern, ts: seq<Token>, byInitiator: bool)
    decreases |ts|
  {
    ts == [] || (MaySend(k, p, ts[0], byInitiator) && MaySendAll(After(k, ts[0], byInitiator), p, ts[1..], byInitiator))
  }

  function AfterAll(k: Known, ts: seq<Token>, byInitiator: bool): Known
    decreases |ts|
  {
    if ts == [] then k else AfterAll(After(k, ts[0], byInitiator), ts[1..], byInitiator)
  }

  /** What both ends know before message `n`. */
  function KnownAt(p: Pattern, n: nat): Known {
    match p
    case XX => Known(n > 0, n > 1, n > 1, n > 2)
    case IK => Known(n > 0, true, n > 1, n > 0)
  }

  /** The patterns are well-formed: every message may be sent with what is known by then. */
  lemma PatternsFit(p: Pattern, n: nat)
    requires n < |Messages(p)|
    ensures MaySendAll(KnownAt(p, n), p, Messages(p)[n], n % 2 == 0)
    ensures AfterAll(KnownAt(p, n), Messages(p)[n], n % 2 == 0) == KnownAt(p, n + 1)
    ensures Weight(Messages(p)[n]) <= DH_LEN + DH_LEN + TAG_LEN && |Messages(p)[n]| <= 4
  {
    var ts := Messages(p)[n];
    if |ts| > 1 { assert ts[1..][0] == ts[1]; }
    if |ts| > 2 { assert ts[1..][1..][0] == ts[2] && ts[1..][1..] == ts[2..]; }
    if |ts| > 3 { assert ts[2..][1..][0] == ts[3] && ts[2..][1..] == ts[3..] && ts[3..][1..] == []; }
  }

  /** The most bytes the tokens can take. */
  function Weight(ts: seq<Token>): nat {
    if ts == [] then 0 else (match ts[0] case E => DH_LEN case S => DH_LEN + TAG_LEN case _ => 0) + Weight(ts[1..])
  }

  lemma ReadyWhenKnown(z: Suite, w: Hs, r: Hs, t: Token)
    requires InStep(z, w, r) && MaySend(KnownBetween(w, r), w.pattern, t, w.initiator)
    ensures Ready(w, r, t) && (t == E ==> w.e.None?)
  {}

  /** Between honest keys a Diffie-Hellman never comes out refused. */
  ghost predicate Willing(z: Suite) { forall a, b :: z.dh(a, z.pub(b)).Some? }

  /** The ends `p` and `q` after `w` wrote and `r` read: in step, knowing `k`, with `rest` still unread. */
  ghost predicate Passed(z: Suite, w: Hs, r: Hs, p: Part, q: Part, rest: Bytes, k: Known, n: nat, weight: nat) {
    && p.status == Status.OK && q.status == Status.OK && q.bytes == rest && InStep(z, p.hs, q.hs) && KnownBetween(p.hs, q.hs) == k
    && p.hs.initiator == w.initiator && p.hs.pattern == w.pattern && p.hs.msgIndex == w.msgIndex && p.hs.complete == w.complete
    && p.hs.s == w.s && q.hs.s == r.s && p.hs.sym.cipher.n <= n && |p.bytes| <= weight
  }

  /** A token that may be sent is sent, read back, and leaves both ends in step and better informed. */
  lemma TokenGoesThrough(z: Suite, w: Hs, r: Hs, t: Token, ephemeral: Bytes, rest: Bytes, n: nat)
    requires Lawful(z) && Willing(z) && InStep(z, w, r) && MaySend(KnownBetween(w, r), w.pattern, t, w.initiator)
    requires w.sym.cipher.n <= n < MAX_NONCE
    ensures var p := WriteToken(z, w, t, ephemeral);
            Passed(z, w, r, p, ReadToken(z, r, t, p.bytes + rest), rest, After(KnownBetween(w, r), t, w.initiator), n + 1, Weight([t]))
  {
    ReadyWhenKnown(z, w, r, t);
    var p := WriteToken(z, w, t, ephemeral);
    if t == S { SealedOpens(z, w.sym, z.pub(w.s)); }
    else if t != E { MixGoesThrough(z, w, r, t); MixAgrees(z, w, r, t); }
    TokenAgrees(z, w, r, t, ephemeral, rest);
    assert Weight([t][1..]) == 0;
  }

  lemma MixGoesThrough(z: Suite, w: Hs, r: Hs, t: Token)
    requires Willing(z) && InStep(z, w, r) && Ready(w, r, t) && t != E && t != S
    ensures MixToken(z, w, t).status == Status.OK && MixToken(z, w, t).hs.sym.cipher.n == 0
  {}

  /** Writing and reading a list of tokens starts with its head. */
  lemma TokensUnfold(z: Suite, w: Hs, r: Hs, ts: seq<Token>, ephemeral: Bytes, rest: Bytes)
    requires ts != [] && WriteToken(z, w, ts[0], ephemeral).status == Status.OK
    ensures var p := WriteToken(z, w, ts[0], ephemeral); var tail := WriteTokens(z, p.hs, ts[1..], ephemeral);
            && WriteTokens(z, w, ts, ephemeral) == Part(tail.hs, tail.status, p.bytes + tail.bytes)
            && var q := ReadToken(z, r, ts[0], p.bytes + (tail.bytes + rest));
               ReadTokens(z, r, ts, WriteTokens(z, w, ts, ephemeral).bytes + rest)
                 == if q.status != Status.OK then q else ReadTokens(z, q.hs, ts[1..], q.bytes)
  {
    var p := WriteToken(z, w, ts[0], ephemeral);
    var tail := WriteTokens(z, p.hs, ts[1..], ephemeral);
    assert p.bytes + (tail.bytes + rest) == (p.bytes + tail.bytes) + rest;
  }

  lemma {:induction false} TokensGoThrough(z: Suite, w: Hs, r: Hs, ts: seq<Token>, ephemeral: Bytes, rest: Bytes, n: nat)
    requires Lawful(z) && Willing(z) && InStep(z, w, r) && MaySendAll(KnownBetween(w, r), w.pattern, ts, w.initiator)
    requires w.sym.cipher.n <= n && n + |ts| < MAX_NONCE
    ensures var p := WriteTokens(z, w, ts, ephemeral);
            Passed(z, w, r, p, ReadTokens(z, r, ts, p.bytes + rest), rest, AfterAll(KnownBetween(w, r), ts, w.initiator), n + |ts|, Weight(ts))
    decreases |ts|
  {
    if ts == [] {
      assert [] + rest == rest;
    } else {
      var p0 := WriteToken(z, w, ts[0], ephemeral);
      var tail := WriteTokens(z, p0.hs, ts[1..], ephemeral);
      TokenGoesThrough(z, w, r, ts[0], ephemeral, tail.bytes + rest, n);
      var q0 := ReadToken(z, r, ts[0], p0.bytes + (tail.bytes + rest));
      TokensUnfold(z, w, r, ts, ephemeral, rest);
      TokensGoThrough(z, p0.hs, q0.hs, ts[1..], ephemeral, rest, n + 1);
      assert Weight([ts[0]]) + Weight(ts[1..]) == Weight(ts) by { assert [ts[0]][1..] == []; }
    }
  }

  // ---------------------------------------------------------------- messages

  const MAX_PAYLOAD := MAX_MESSAGE - DH_LEN - DH_LEN - TAG_LEN - TAG_LEN

  /** Both ends before message `n`, in step and knowing exactly what the pattern says. */
  ghost predicate AgreeAt(z: Suite, i: Hs, r: Hs, n: nat) {
    && i.initiator && InStep(z, i, r) && i.msgIndex == n && i.complete == (n >= |Messages(i.pattern)|)
    && KnownTo(i, r) == KnownAt(i.pattern, n) && i.sym.cipher.n <= 5 * n
  }

  /** The payload behind the tokens, sealed by one end and opened by the other. */
  lemma FinishGoesThrough(z: Suite, p: Part, q: Part, payload: Bytes)
    requires Lawful(z) && InStep(z, p.hs, q.hs) && p.hs.sym.cipher.n < MAX_NONCE
    requires q.bytes == EncryptAndHash(z, p.hs.sym, payload).bytes
    requires |p.bytes| + |payload| + TAG_LEN <= MAX_MESSAGE
    ensures var a, b := FinishWrite(z, p, payload), FinishRead(z, q);
            && a.status == Status.OK && b.status == Status.OK && b.bytes == payload
            && a.bytes == p.bytes + q.bytes && |a.bytes| <= MAX_MESSAGE
            && a.hs == Advanced(p.hs).(sym := a.hs.sym) && b.hs == Advanced(q.hs).(sym := a.hs.sym)
            && a.hs.sym.cipher.n <= p.hs.sym.cipher.n + 1
  {
    SealedOpens(z, p.hs.sym, payload);
  }

  lemma AdvancedInStep(z: Suite, a: Hs, b: Hs, sym: Sym)
    requires InStep(z, a, b)
    ensures InStep(z, Advanced(a).(sym := sym), Advanced(b).(sym := sym))
  {}

  /** One message from `w` to `r`. */
  lemma MessageGoesThrough(z: Suite, w: Hs, r: Hs, payload: Bytes, ephemeral: Bytes, n: nat)
    requires Lawful(z) && Willing(z) && InStep(z, w, r) && w.msgIndex == n < |Messages(w.pattern)| && !w.complete
    requires w.initiator == (n % 2 == 0) && KnownBetween(w, r) == KnownAt(w.pattern, n) && w.sym.cipher.n <= 5 * n
    requires |payload| <= MAX_PAYLOAD
    ensures var p := WriteMessage(z, w, payload, ephemeral); var q := ReadMessage(z, r, p.bytes);
            && p.status == Status.OK && q.status == Status.OK && q.bytes == payload && InStep(z, p.hs, q.hs)
            && KnownBetween(p.hs, q.hs) == KnownAt(w.pattern, n + 1) && p.hs.initiator == w.initiator && p.hs.pattern == w.pattern
            && p.hs.msgIndex == n + 1 && p.hs.complete == (n + 1 >= |Messages(w.pattern)|)
            && p.hs.s == w.s && q.hs.s == r.s && p.hs.sym.cipher.n <= 5 * (n + 1)
  {
    var ts := Messages(w.pattern)[n];
    PatternsFit(w.pattern, n);
    var p := WriteTokens(z, w, ts, ephemeral);
    var e := EncryptAndHash(z, p.hs.sym, payload);
    TokensGoThrough(z, w, r, ts, ephemeral, e.bytes, 5 * n);
    var q := ReadTokens(z, r, ts, p.bytes + e.bytes);
    FinishGoesThrough(z, p, q, payload);
    AdvancedInStep(z, p.hs, q.hs, FinishWrite(z, p, payload).hs.sym);
    assert WriteMessage(z, w, payload, ephemeral) == FinishWrite(z, p, payload);
    assert ReadMessage(z, r, p.bytes + e.bytes) == FinishRead(z, q);
  }

  /** One message of the handshake, from whoever's turn it is; `wire` is what was sent. */
  datatype Pair = Pair(i: Hs, r: Hs, status: u16, got: Bytes, wire: Bytes)

  function Exchange(z: Suite, i: Hs, r: Hs, payload: Bytes, ephemeral: Bytes): Pair {
    if i.msgIndex % 2 == 0 then
      var p := WriteMessage(z, i, payload, ephemeral);
      if p.status != Status.OK then Pair(p.hs, r, p.status, [], p.bytes)
      else var q := ReadMessage(z, r, p.bytes); Pair(p.hs, q.hs, q.status, q.bytes, p.bytes)
    else
      var p := WriteMessage(z, r, payload, ephemeral);
      if p.status != Status.OK then Pair(i, p.hs, p.status, [], p.bytes)
      else var q := ReadMessage(z, i, p.bytes); Pair(q.hs, p.hs, q.status, q.bytes, p.bytes)
  }

  lemma ExchangeAgrees(z: Suite, i: Hs, r: Hs, n: nat, payload: Bytes, ephemeral: Bytes)
    requires Lawful(z) && Willing(z) && AgreeAt(z, i, r, n) && n < |Messages(i.pattern)| && |payload| <= MAX_PAYLOAD
    ensures var x := Exchange(z, i, r, payload, ephemeral);
            && x.status == Status.OK && x.got == payload && AgreeAt(z, x.i, x.r, n + 1)
            && x.i.pattern == i.pattern && x.i.s == i.s && x.r.s == r.s
  {
    if n % 2 == 0 { MessageGoesThrough(z, i, r, payload, ephemeral, n); } else { MessageGoesThrough(z, r, i, payload, ephemeral, n); }
  }

  /** The handshake from message `i.msgIndex` on, payload by payload; `got` collects what was read. */
  function Handshake(z: Suite, i: Hs, r: Hs, payloads: seq<Bytes>, ephemerals: seq<Bytes>): (Pair, seq<Bytes>)
    requires |payloads| == |ephemerals|
    decreases |payloads|
  {
    if payloads == [] then (Pair(i, r, Status.OK, [], []), [])
    else
      var x := Exchange(z, i, r, payloads[0], ephemerals[0]);
      if x.status != Status.OK then (x, [])
      else
        var (y, got) := Handshake(z, x.i, x.r, payloads[1..], ephemerals[1..]);
        (y, [x.got] + got)
  }

  lemma HandshakeStep(z: Suite, i: Hs, r: Hs, payloads: seq<Bytes>, ephemerals: seq<Bytes>)
    requires |payloads| == |ephemerals| > 0 && Exchange(z, i, r, payloads[0], ephemerals[0]).status == Status.OK
    ensures var x := Exchange(z, i, r, payloads[0], ephemerals[0]);
            var rest := Handshake(z, x.i, x.r, payloads[1..], ephemerals[1..]);
            Handshake(z, i, r, payloads, ephemerals) == (rest.0, [x.got] + rest.1)
  {}

  lemma {:induction false} HandshakeAgrees(z: Suite, i: Hs, r: Hs, n: nat, payloads: seq<Bytes>, ephemerals: seq<Bytes>)
    requires Lawful(z) && Willing(z) && AgreeAt(z, i, r, n) && |payloads| == |ephemerals| && n + |payloads| <= |Messages(i.pattern)|
    requires forall k :: 0 <= k < |payloads| ==> |payloads[k]| <= MAX_PAYLOAD
    ensures var (x, got) := Handshake(z, i, r, payloads, ephemerals);
            && x.status == Status.OK && got == payloads && AgreeAt(z, x.i, x.r, n + |payloads|)
            && x.i.pattern == i.pattern && x.i.s == i.s && x.r.s == r.s
    decreases |payloads|
  {
    if payloads != [] {
      ExchangeAgrees(z, i, r, n, payloads[0], ephemerals[0]);
      var x := Exchange(z, i, r, payloads[0], ephemerals[0]);
      HandshakeAgrees(z, x.i, x.r, n + 1, payloads[1..], ephemerals[1..]);
      HandshakeStep(z, i, r, payloads, ephemerals);
      assert payloads == [payloads[0]] + payloads[1..];
    }
  }

  /** Equal prologues, and for IK the responder's true static, start both ends in step. */
  lemma StartAgrees(z: Suite, p: Pattern, si: Bytes, sr: Bytes, prologue: Bytes, wasI: Hs, wasR: Hs)
    ensures var i := Start(z, p, true, si, if p == IK then Some(z.pub(sr)) else None, prologue, wasI);
            var r := Start(z, p, false, sr, None, prologue, wasR);
            i.status == Status.OK && r.status == Status.OK && AgreeAt(z, i.hs, r.hs, 0) && i.hs.pattern == p && i.hs.s == si && r.hs.s == sr
  {}

  /** Two ends that are done: complete, mutually known, and keyed for each other. */
  ghost predicate Met(z: Suite, i: Hs, r: Hs) {
    && i.complete && r.complete && i.rs == Some(z.pub(r.s)) && r.rs == Some(z.pub(i.s))
    && Split(z, i).Some? && Split(z, r).Some?
    && Split(z, i).value.send == Split(z, r).value.recv && Split(z, r).value.send == Split(z, i).value.recv
  }

  lemma LastMessageMeets(z: Suite, i: Hs, r: Hs)
    requires AgreeAt(z, i, r, |Messages(i.pattern)|)
    ensures Met(z, i, r)
  {}

  /**
   * For XX and IK, with untouched messages, from two ends started alike: after every message they have
   * the same chaining key, hash, cipher key and nonce; after the last, both are complete, each holds the
   * other's static key, every payload came through, and each sends with the key the other receives with.
   */
  lemma NoiseAgrees(z: Suite, i: Hs, r: Hs, payloads: seq<Bytes>, ephemerals: seq<Bytes>)
    requires Lawful(z) && Willing(z) && AgreeAt(z, i, r, 0) && |payloads| == |ephemerals| <= |Messages(i.pattern)|
    requires forall k :: 0 <= k < |payloads| ==> |payloads[k]| <= MAX_PAYLOAD
    ensures var (x, got) := Handshake(z, i, r, payloads, ephemerals);
            && x.status == Status.OK && got == payloads && x.i.sym == x.r.sym && x.i.msgIndex == x.r.msgIndex == |payloads|
            && x.i.s == i.s && x.r.s == r.s && (|payloads| == |Messages(i.pattern)| ==> Met(z, x.i, x.r))
  {
    HandshakeAgrees(z, i, r, 0, payloads, ephemerals);
    var (x, got) := Handshake(z, i, r, payloads, ephemerals);
    if |payloads| == |Messages(i.pattern)| { LastMessageMeets(z, x.i, x.r); }
  }

  /** The assumptions can be met, so nothing above is vacuous. */
  lemma LawfulSuiteExists()
    ensures exists z :: Lawful(z) && Willing(z)
  {
    var z := Suite(
      (b: Bytes) => ZeroKey(), (a: Bytes, b: Bytes) => (ZeroKey(), ZeroKey()), (a: Bytes) => ZeroKey(),
      (a: Bytes, b: Bytes) => Some(ZeroKey()),
      (k: Bytes, n: nat, ad: Bytes, p: Bytes) => p + seq(TAG_LEN, _ => 0),
      (k: Bytes, n: nat, ad: Bytes, b: Bytes) => if |b| < TAG_LEN then None else Some(b[..|b| - TAG_LEN]));
    forall k: Bytes, n: nat, ad: Bytes, p: Bytes ensures z.open(k, n, ad, z.seal(k, n, ad, p)) == Some(p) {
      assert (p + seq(TAG_LEN, _ => 0 as byte))[..|p|] == p;
    }
    assert Lawful(z) && Willing(z);
  }
}
