/**
 * What an XX or IK handshake between two honest ends puts on the wire and what keys it ends with,
 * written out in terms of the suite's functions alone (sections 5.2, 5.3 and 7.5 of the Noise Protocol
 * Framework, revision 34): every Diffie-Hellman secret enters the keys, and every byte sent enters the
 * hash that authenticates the next.
 */
module NoiseKeys {
  import opened Wire
  import Status
  import opened Noise
  import opened NoiseAgreement

  /** The secret shared by a private and a public key. */
  function Secret(z: Suite, a: Bytes, b: Bytes): Bytes {
    var d := z.dh(a, b);
    if d.Some? then d.value else []
  }

  /** The messages of a handshake, and the chaining key and hash it ends with. */
  datatype Script = Script(messages: seq<Bytes>, ck: Bytes, h: Bytes)

  /** XX, with static keys `si`, `sr`, ephemerals `ei`, `er` and three payloads. */
  function XxScript(z: Suite, prologue: Bytes, si: Bytes, sr: Bytes, ei: Bytes, er: Bytes, p0: Bytes, p1: Bytes, p2: Bytes): Script {
    var h0 := z.hash(Ascii("Noise_XX_25519_ChaChaPoly_BLAKE2s"));
    var h1 := z.hash(h0 + prologue);
    // -> e
    var h2 := z.hash(h1 + z.pub(ei));
    var h3 := z.hash(h2 + p0);
    // <- e, ee, s, es
    var h4 := z.hash(h3 + z.pub(er));
    var (ck1, k1) := z.hkdf(h0, Secret(z, ei, z.pub(er)));
    var c1 := z.seal(k1, 0, h4, z.pub(sr));
    var h5 := z.hash(h4 + c1);
    var (ck2, k2) := z.hkdf(ck1, Secret(z, ei, z.pub(sr)));
    var c2 := z.seal(k2, 0, h5, p1);
    var h6 := z.hash(h5 + c2);
    // -> s, se
    var c3 := z.seal(k2, 1, h6, z.pub(si));
    var h7 := z.hash(h6 + c3);
    var (ck3, k3) := z.hkdf(ck2, Secret(z, si, z.pub(er)));
    var c4 := z.seal(k3, 0, h7, p2);
    Script([z.pub(ei) + p0, z.pub(er) + c1 + c2, c3 + c4], ck3, z.hash(h7 + c4))
  }

  /** IK, with two payloads; the initiator knows the responder's static key beforehand. */
  function IkScript(z: Suite, prologue: Bytes, si: Bytes, sr: Bytes, ei: Bytes, er: Bytes, p0: Bytes, p1: Bytes): Script {
    var h0 := z.hash(Ascii("Noise_IK_25519_ChaChaPoly_BLAKE2s"));
    var h1 := z.hash(h0 + prologue);
    var h2 := z.hash(h1 + z.pub(sr));
    // -> e, es, s, ss
    var h3 := z.hash(h2 + z.pub(ei));
    var (ck1, k1) := z.hkdf(h0, Secret(z, ei, z.pub(sr)));
    var c1 := z.seal(k1, 0, h3, z.pub(si));
    var h4 := z.hash(h3 + c1);
    var (ck2, k2) := z.hkdf(ck1, Secret(z, si, z.pub(sr)));
    var c2 := z.seal(k2, 0, h4, p0);
    var h5 := z.hash(h4 + c2);
    // <- e, ee, se
    var h6 := z.hash(h5 + z.pub(er));
    var (ck3, k3) := z.hkdf(ck2, Secret(z, ei, z.pub(er)));
    var (ck4, k4) := z.hkdf(ck3, Secret(z, si, z.pub(er)));
    var c3 := z.seal(k4, 0, h6, p1);
    Script([z.pub(ei) + c1 + c2, z.pub(er) + c3], ck4, z.hash(h6 + c3))
  }

  // ---------------------------------------------------------------- writing, token by token

  lemma WriteCons(z: Suite, hs: Hs, t: Token, ts: seq<Token>, ephemeral: Bytes)
    ensures var p := WriteToken(z, hs, t, ephemeral);
            WriteTokens(z, hs, [t] + ts, ephemeral) ==
            if p.status != Status.OK then p
            else Part(WriteTokens(z, p.hs, ts, ephemeral).hs, WriteTokens(z, p.hs, ts, ephemeral).status, p.bytes + WriteTokens(z, p.hs, ts, ephemeral).bytes)
  {
    assert ([t] + ts)[1..] == ts;
  }

  /** A keyed symmetric state seals under its hash and hashes what it sealed. */
  lemma SealsUnderHash(z: Suite, ck: Bytes, h: Bytes, k: Bytes, n: nat, p: Bytes)
    requires n < MAX_NONCE
    ensures var c := z.seal(k, n, h, p);
            EncryptAndHash(z, Sym(ck, h, Cipher(k, true, n)), p) == Hashed(Sym(ck, z.hash(h + c), Cipher(k, true, n + 1)), Status.OK, c)
  {}

  /** A Diffie-Hellman token folds the secret into the chaining key, and the key that comes out seals next. */
  lemma FoldsSecret(z: Suite, hs: Hs, sk: Bytes, pk: Bytes)
    requires z.dh(sk, pk).Some?
    ensures var (ck, k) := z.hkdf(hs.sym.ck, Secret(z, sk, pk));
            MixDh(z, hs, sk, pk) == Turn(hs.(sym := Sym(ck, hs.sym.h, Cipher(k, true, 0))), Status.OK)
  {}

  /** Writing an S token under a key. */
  lemma WritesStatic(z: Suite, hs: Hs, ephemeral: Bytes, ck: Bytes, h: Bytes, k: Bytes, n: nat)
    requires hs.sym == Sym(ck, h, Cipher(k, true, n)) && n < MAX_NONCE
    ensures var c := z.seal(k, n, h, z.pub(hs.s));
            WriteToken(z, hs, S, ephemeral) == Part(hs.(sym := Sym(ck, z.hash(h + c), Cipher(k, true, n + 1))), Status.OK, c)
  {
    SealsUnderHash(z, ck, h, k, n, z.pub(hs.s));
  }

  /** The payload, sealed behind the tokens. */
  lemma FinishesUnderKey(z: Suite, p: Part, payload: Bytes, ck: Bytes, h: Bytes, k: Bytes, n: nat)
    requires p.hs.sym == Sym(ck, h, Cipher(k, true, n)) && n < MAX_NONCE
    requires |p.bytes| + |z.seal(k, n, h, payload)| <= MAX_MESSAGE
    ensures var c := z.seal(k, n, h, payload);
            FinishWrite(z, p, payload) == Part(Advanced(p.hs.(sym := Sym(ck, z.hash(h + c), Cipher(k, true, n + 1)))), Status.OK, p.bytes + c)
  {
    SealsUnderHash(z, ck, h, k, n, payload);
  }

  /** XX, first message: the ephemeral and the payload in the clear, both hashed. */
  lemma XxFirst(z: Suite, w: Hs, ephemeral: Bytes, payload: Bytes)
    requires Lawful(z) && MayWrite(w) && w.pattern == XX && w.msgIndex == 0 && !w.sym.cipher.hasKey && |payload| <= MAX_PAYLOAD
    ensures var h := z.hash(w.sym.h + z.pub(ephemeral));
            WriteMessage(z, w, payload, ephemeral)
            == Part(w.(e := Some(ephemeral), msgIndex := 1, sym := w.sym.(h := z.hash(h + payload))), Status.OK, z.pub(ephemeral) + payload)
  {
    WriteCons(z, w, E, [], ephemeral);
    assert Messages(XX)[0] == [E] + [];
    assert z.pub(ephemeral) + [] == z.pub(ephemeral);
  }

  /** A responder's S and ES, under a key. */
  lemma XxStaticTokens(z: Suite, w: Hs, pk: Bytes, ephemeral: Bytes, ck: Bytes, h: Bytes, k: Bytes)
    requires w.sym == Sym(ck, h, Cipher(k, true, 0)) && !w.initiator && w.re == Some(pk) && z.dh(w.s, pk).Some?
    ensures var c := z.seal(k, 0, h, z.pub(w.s));
            var (ck2, k2) := z.hkdf(ck, Secret(z, w.s, pk));
            WriteTokens(z, w, [S, ES], ephemeral) == Part(w.(sym := Sym(ck2, z.hash(h + c), Cipher(k2, true, 0))), Status.OK, c)
  {
    var c := z.seal(k, 0, h, z.pub(w.s));
    var w1 := w.(sym := Sym(ck, z.hash(h + c), Cipher(k, true, 1)));
    WritesStatic(z, w, ephemeral, ck, h, k, 0);
    FoldsSecret(z, w1, w.s, pk);
    WriteCons(z, w, S, [ES], ephemeral);
    WriteCons(z, w1, ES, [], ephemeral);
    assert [S, ES] == [S] + [ES] && [ES] == [ES] + [];
    assert c + ([] + []) == c;
  }

  /** The tokens of the second XX message. */
  lemma XxSecondTokens(z: Suite, w: Hs, pk: Bytes, ephemeral: Bytes)
    requires !w.sym.cipher.hasKey && !w.initiator && w.re == Some(pk) && z.dh(ephemeral, pk).Some? && z.dh(w.s, pk).Some?
    ensures var h4 := z.hash(w.sym.h + z.pub(ephemeral));
            var (ck1, k1) := z.hkdf(w.sym.ck, Secret(z, ephemeral, pk));
            var c1 := z.seal(k1, 0, h4, z.pub(w.s));
            var (ck2, k2) := z.hkdf(ck1, Secret(z, w.s, pk));
            WriteTokens(z, w, Messages(XX)[1], ephemeral)
            == Part(w.(e := Some(ephemeral), sym := Sym(ck2, z.hash(h4 + c1), Cipher(k2, true, 0))), Status.OK, z.pub(ephemeral) + c1)
  {
    var h4 := z.hash(w.sym.h + z.pub(ephemeral));
    var w1 := w.(e := Some(ephemeral), sym := w.sym.(h := h4));
    var (ck1, k1) := z.hkdf(w.sym.ck, Secret(z, ephemeral, pk));
    var w2 := w1.(sym := Sym(ck1, h4, Cipher(k1, true, 0)));
    var c1 := z.seal(k1, 0, h4, z.pub(w.s));
    FoldsSecret(z, w1, ephemeral, pk);
    XxStaticTokens(z, w2, pk, ephemeral, ck1, h4, k1);
    WriteCons(z, w, E, [EE, S, ES], ephemeral);
    WriteCons(z, w1, EE, [S, ES], ephemeral);
    assert Messages(XX)[1] == [E] + [EE, S, ES] && [EE, S, ES] == [EE] + [S, ES];
    assert [] + c1 == c1;
  }

  /** XX, second message, from the responder. */
  lemma XxSecond(z: Suite, w: Hs, pk: Bytes, ephemeral: Bytes, payload: Bytes)
    requires Lawful(z) && MayWrite(w) && w.pattern == XX && w.msgIndex == 1 && !w.sym.cipher.hasKey && !w.initiator && w.re == Some(pk)
    requires z.dh(ephemeral, pk).Some? && z.dh(w.s, pk).Some? && |payload| <= MAX_PAYLOAD
    ensures var h4 := z.hash(w.sym.h + z.pub(ephemeral));
            var (ck1, k1) := z.hkdf(w.sym.ck, Secret(z, ephemeral, pk));
            var c1 := z.seal(k1, 0, h4, z.pub(w.s));
            var h5 := z.hash(h4 + c1);
            var (ck2, k2) := z.hkdf(ck1, Secret(z, w.s, pk));
            var c2 := z.seal(k2, 0, h5, payload);
            var o := WriteMessage(z, w, payload, ephemeral);
            && o.status == Status.OK && o.bytes == z.pub(ephemeral) + c1 + c2
            && o.hs.sym == Sym(ck2, z.hash(h5 + c2), Cipher(k2, true, 1)) && o.hs.e == Some(ephemeral)
  {
    XxSecondTokens(z, w, pk, ephemeral);
    var p := WriteTokens(z, w, Messages(XX)[1], ephemeral);
    FinishesUnderKey(z, p, payload, p.hs.sym.ck, p.hs.sym.h, p.hs.sym.cipher.key, 0);
  }

  /** XX, third message, from the initiator. */
  lemma XxThird(z: Suite, w: Hs, pk: Bytes, ephemeral: Bytes, payload: Bytes, ck: Bytes, h: Bytes, k: Bytes)
    requires Lawful(z) && MayWrite(w) && w.pattern == XX && w.msgIndex == 2 && w.initiator && w.re == Some(pk)
    requires w.sym == Sym(ck, h, Cipher(k, true, 1)) && z.dh(w.s, pk).Some? && |payload| <= MAX_PAYLOAD
    ensures var c3 := z.seal(k, 1, h, z.pub(w.s));
            var h7 := z.hash(h + c3);
            var (ck3, k3) := z.hkdf(ck, Secret(z, w.s, pk));
            var c4 := z.seal(k3, 0, h7, payload);
            var o := WriteMessage(z, w, payload, ephemeral);
            o.status == Status.OK && o.bytes == c3 + c4 && o.hs.sym == Sym(ck3, z.hash(h7 + c4), Cipher(k3, true, 1))
  {
    var c3 := z.seal(k, 1, h, z.pub(w.s));
    var h7 := z.hash(h + c3);
    var w1 := w.(sym := Sym(ck, h7, Cipher(k, true, 2)));
    var (ck3, k3) := z.hkdf(ck, Secret(z, w.s, pk));
    var w2 := w1.(sym := Sym(ck3, h7, Cipher(k3, true, 0)));
    WritesStatic(z, w, ephemeral, ck, h, k, 1);
    FoldsSecret(z, w1, w.s, pk);
    WriteCons(z, w, S, [SE], ephemeral);
    WriteCons(z, w1, SE, [], ephemeral);
    assert Messages(XX)[2] == [S] + [SE] && [SE] == [SE] + [];
    assert c3 + ([] + []) == c3;
    FinishesUnderKey(z, Part(w2, Status.OK, c3), payload, ck3, h7, k3, 0);
  }

  /** IK, first message, from the initiator. */
  lemma IkFirst(z: Suite, w: Hs, pk: Bytes, ephemeral: Bytes, payload: Bytes)
    requires Lawful(z) && MayWrite(w) && w.pattern == IK && w.msgIndex == 0 && w.initiator && w.rs == Some(pk)
    requires z.dh(ephemeral, pk).Some? && z.dh(w.s, pk).Some? && |payload| <= MAX_PAYLOAD
    ensures var h3 := z.hash(w.sym.h + z.pub(ephemeral));
            var (ck1, k1) := z.hkdf(w.sym.ck, Secret(z, ephemeral, pk));
            var c1 := z.seal(k1, 0, h3, z.pub(w.s));
            var h4 := z.hash(h3 + c1);
            var (ck2, k2) := z.hkdf(ck1, Secret(z, w.s, pk));
            var c2 := z.seal(k2, 0, h4, payload);
            var o := WriteMessage(z, w, payload, ephemeral);
            && o.status == Status.OK && o.bytes == z.pub(ephemeral) + c1 + c2
            && o.hs.sym == Sym(ck2, z.hash(h4 + c2), Cipher(k2, true, 1)) && o.hs.e == Some(ephemeral)
  {
    var h3 := z.hash(w.sym.h + z.pub(ephemeral));
    var w1 := w.(e := Some(ephemeral), sym := w.sym.(h := h3));
    var (ck1, k1) := z.hkdf(w.sym.ck, Secret(z, ephemeral, pk));
    var w2 := w1.(sym := Sym(ck1, h3, Cipher(k1, true, 0)));
    var c1 := z.seal(k1, 0, h3, z.pub(w.s));
    var h4 := z.hash(h3 + c1);
    var w3 := w2.(sym := Sym(ck1, h4, Cipher(k1, true, 1)));
    var (ck2, k2) := z.hkdf(ck1, Secret(z, w.s, pk));
    var w4 := w3.(sym := Sym(ck2, h4, Cipher(k2, true, 0)));
    FoldsSecret(z, w1, ephemeral, pk);
    WritesStatic(z, w2, ephemeral, ck1, h3, k1, 0);
    FoldsSecret(z, w3, w.s, pk);
    WriteCons(z, w, E, [ES, S, SS], ephemeral);
    WriteCons(z, w1, ES, [S, SS], ephemeral);
    WriteCons(z, w2, S, [SS], ephemeral);
    WriteCons(z, w3, SS, [], ephemeral);
    assert Messages(IK)[0] == [E] + [ES, S, SS] && [ES, S, SS] == [ES] + [S, SS] && [S, SS] == [S] + [SS] && [SS] == [SS] + [];
    assert z.pub(ephemeral) + ([] + (c1 + ([] + []))) == z.pub(ephemeral) + c1;
    FinishesUnderKey(z, Part(w4, Status.OK, z.pub(ephemeral) + c1), payload, ck2, h4, k2, 0);
  }

  /** IK, second message, from the responder. */
  lemma IkSecond(z: Suite, w: Hs, pe: Bytes, ps: Bytes, ephemeral: Bytes, payload: Bytes)
    requires Lawful(z) && MayWrite(w) && w.pattern == IK && w.msgIndex == 1 && !w.initiator && w.re == Some(pe) && w.rs == Some(ps)
    requires z.dh(ephemeral, pe).Some? && z.dh(ephemeral, ps).Some? && |payload| <= MAX_PAYLOAD
    ensures var h6 := z.hash(w.sym.h + z.pub(ephemeral));
            var (ck3, k3) := z.hkdf(w.sym.ck, Secret(z, ephemeral, pe));
            var (ck4, k4) := z.hkdf(ck3, Secret(z, ephemeral, ps));
            var c3 := z.seal(k4, 0, h6, payload);
            var o := WriteMessage(z, w, payload, ephemeral);
            o.status == Status.OK && o.bytes == z.pub(ephemeral) + c3 && o.hs.sym == Sym(ck4, z.hash(h6 + c3), Cipher(k4, true, 1))
  {
    var h6 := z.hash(w.sym.h + z.pub(ephemeral));
    var w1 := w.(e := Some(ephemeral), sym := w.sym.(h := h6));
    var (ck3, k3) := z.hkdf(w.sym.ck, Secret(z, ephemeral, pe));
    var w2 := w1.(sym := Sym(ck3, h6, Cipher(k3, true, 0)));
    var (ck4, k4) := z.hkdf(ck3, Secret(z, ephemeral, ps));
    var w3 := w2.(sym := Sym(ck4, h6, Cipher(k4, true, 0)));
    FoldsSecret(z, w1, ephemeral, pe);
    FoldsSecret(z, w2, ephemeral, ps);
    WriteCons(z, w, E, [EE, SE], ephemeral);
    WriteCons(z, w1, EE, [SE], ephemeral);
    WriteCons(z, w2, SE, [], ephemeral);
    assert Messages(IK)[1] == [E] + [EE, SE] && [EE, SE] == [EE] + [SE] && [SE] == [SE] + [];
    assert z.pub(ephemeral) + ([] + ([] + [])) == z.pub(ephemeral);
    FinishesUnderKey(z, Part(w3, Status.OK, z.pub(ephemeral)), payload, ck4, h6, k4, 0);
  }

  // ---------------------------------------------------------------- whole handshakes

  /** Both halves of an exchange give one secret. */
  lemma SecretsMeet(z: Suite, a: Bytes, b: Bytes)
    requires Lawful(z)
    ensures Secret(z, a, z.pub(b)) == Secret(z, b, z.pub(a))
  {}

  /** Both ends hold the script's chaining key and hash, and the transport keys it gives: the initiator sends with the first. */
  ghost predicate EndsAs(z: Suite, x: Pair, sc: Script) {
    && x.status == Status.OK && x.i.complete && x.r.complete
    && x.i.sym.ck == sc.ck && x.r.sym.ck == sc.ck && x.i.sym.h == sc.h && x.r.sym.h == sc.h
    && var (k1, k2) := z.hkdf(sc.ck, []);
       && Split(z, x.i) == Some(Transport(Cipher(k1, true, 0), Cipher(k2, true, 0)))
       && Split(z, x.r) == Some(Transport(Cipher(k2, true, 0), Cipher(k1, true, 0)))
  }

  /** The first XX message, sent and read. */
  lemma XxFirstExchange(z: Suite, i: Hs, r: Hs, ei: Bytes, p0: Bytes)
    requires Lawful(z) && Willing(z) && AgreeAt(z, i, r, 0) && i.pattern == XX && !i.sym.cipher.hasKey && |p0| <= MAX_PAYLOAD
    ensures var x := Exchange(z, i, r, p0, ei);
            && x.status == Status.OK && x.got == p0 && x.wire == z.pub(ei) + p0 && AgreeAt(z, x.i, x.r, 1) && x.i.pattern == XX
            && x.i.s == i.s && x.r.s == r.s && x.r.re == Some(z.pub(ei))
            && x.r.sym == i.sym.(h := z.hash(z.hash(i.sym.h + z.pub(ei)) + p0))
  {
    ExchangeAgrees(z, i, r, 0, p0, ei);
    XxFirst(z, i, ei, p0);
  }

  /** The second. */
  lemma XxSecondExchange(z: Suite, i: Hs, r: Hs, ei: Bytes, er: Bytes, p1: Bytes)
    requires Lawful(z) && Willing(z) && AgreeAt(z, i, r, 1) && i.pattern == XX && !r.sym.cipher.hasKey && |p1| <= MAX_PAYLOAD
    requires r.re == Some(z.pub(ei))
    ensures var h4 := z.hash(r.sym.h + z.pub(er));
            var (ck1, k1) := z.hkdf(r.sym.ck, Secret(z, ei, z.pub(er)));
            var c1 := z.seal(k1, 0, h4, z.pub(r.s));
            var h5 := z.hash(h4 + c1);
            var (ck2, k2) := z.hkdf(ck1, Secret(z, ei, z.pub(r.s)));
            var c2 := z.seal(k2, 0, h5, p1);
            var x := Exchange(z, i, r, p1, er);
            && x.status == Status.OK && x.got == p1 && x.wire == z.pub(er) + c1 + c2 && AgreeAt(z, x.i, x.r, 2) && x.i.pattern == XX
            && x.i.s == i.s && x.r.s == r.s && x.i.re == Some(z.pub(er))
            && x.i.sym == Sym(ck2, z.hash(h5 + c2), Cipher(k2, true, 1))
  {
    ExchangeAgrees(z, i, r, 1, p1, er);
    XxSecond(z, r, z.pub(ei), er, p1);
    SecretsMeet(z, er, ei);
    SecretsMeet(z, r.s, ei);
  }

  /** The third. */
  lemma XxThirdExchange(z: Suite, i: Hs, r: Hs, er: Bytes, e2: Bytes, p2: Bytes, ck: Bytes, h: Bytes, k: Bytes)
    requires Lawful(z) && Willing(z) && AgreeAt(z, i, r, 2) && i.pattern == XX && |p2| <= MAX_PAYLOAD
    requires i.re == Some(z.pub(er)) && i.sym == Sym(ck, h, Cipher(k, true, 1))
    ensures var c3 := z.seal(k, 1, h, z.pub(i.s));
            var h7 := z.hash(h + c3);
            var (ck3, k3) := z.hkdf(ck, Secret(z, i.s, z.pub(er)));
            var c4 := z.seal(k3, 0, h7, p2);
            var x := Exchange(z, i, r, p2, e2);
            && x.wire == c3 + c4 && x.got == p2 && EndsAs(z, x, Script([], ck3, z.hash(h7 + c4)))
  {
    ExchangeAgrees(z, i, r, 2, p2, e2);
    XxThird(z, i, z.pub(er), e2, p2, ck, h, k);
  }

  /**
   * XX between honest ends, whatever their keys, prologue and payloads: the three messages on the wire, the
   * hash, and the transport keys are the script's. So the keys are folded from dh(ei, er), dh(ei, sr) and
   * dh(si, er), in that order, and every message is sealed under the hash of all that went before.
   */
  lemma XxIsTheScript(z: Suite, prologue: Bytes, si: Bytes, sr: Bytes, ei: Bytes, er: Bytes, e2: Bytes, p0: Bytes, p1: Bytes, p2: Bytes, wasI: Hs, wasR: Hs)
    requires Lawful(z) && Willing(z) && |p0| <= MAX_PAYLOAD && |p1| <= MAX_PAYLOAD && |p2| <= MAX_PAYLOAD
    ensures var i := Start(z, XX, true, si, None, prologue, wasI).hs; var r := Start(z, XX, false, sr, None, prologue, wasR).hs;
            var x1 := Exchange(z, i, r, p0, ei);
            var x2 := Exchange(z, x1.i, x1.r, p1, er);
            var x3 := Exchange(z, x2.i, x2.r, p2, e2);
            var sc := XxScript(z, prologue, si, sr, ei, er, p0, p1, p2);
            [x1.wire, x2.wire, x3.wire] == sc.messages && [x1.got, x2.got, x3.got] == [p0, p1, p2] && EndsAs(z, x3, sc)
  {
    StartAgrees(z, XX, si, sr, prologue, wasI, wasR);
    var i, r := Start(z, XX, true, si, None, prologue, wasI).hs, Start(z, XX, false, sr, None, prologue, wasR).hs;
    XxFirstExchange(z, i, r, ei, p0);
    var x1 := Exchange(z, i, r, p0, ei);
    XxSecondExchange(z, x1.i, x1.r, ei, er, p1);
    var x2 := Exchange(z, x1.i, x1.r, p1, er);
    XxThirdExchange(z, x2.i, x2.r, er, e2, p2, x2.i.sym.ck, x2.i.sym.h, x2.i.sym.cipher.key);
  }

  lemma IkFirstExchange(z: Suite, i: Hs, r: Hs, ei: Bytes, p0: Bytes)
    requires Lawful(z) && Willing(z) && AgreeAt(z, i, r, 0) && i.pattern == IK && |p0| <= MAX_PAYLOAD
    ensures var h3 := z.hash(i.sym.h + z.pub(ei));
            var (ck1, k1) := z.hkdf(i.sym.ck, Secret(z, ei, z.pub(r.s)));
            var c1 := z.seal(k1, 0, h3, z.pub(i.s));
            var h4 := z.hash(h3 + c1);
            var (ck2, k2) := z.hkdf(ck1, Secret(z, i.s, z.pub(r.s)));
            var c2 := z.seal(k2, 0, h4, p0);
            var x := Exchange(z, i, r, p0, ei);
            && x.status == Status.OK && x.got == p0 && x.wire == z.pub(ei) + c1 + c2 && AgreeAt(z, x.i, x.r, 1) && x.i.pattern == IK
            && x.i.s == i.s && x.r.s == r.s && x.r.re == Some(z.pub(ei)) && x.r.rs == Some(z.pub(i.s))
            && x.r.sym == Sym(ck2, z.hash(h4 + c2), Cipher(k2, true, 1))
  {
    ExchangeAgrees(z, i, r, 0, p0, ei);
    IkFirst(z, i, z.pub(r.s), ei, p0);
  }

  lemma IkSecondExchange(z: Suite, i: Hs, r: Hs, ei: Bytes, er: Bytes, p1: Bytes)
    requires Lawful(z) && Willing(z) && AgreeAt(z, i, r, 1) && i.pattern == IK && |p1| <= MAX_PAYLOAD
    requires r.re == Some(z.pub(ei)) && r.rs == Some(z.pub(i.s))
    ensures var h6 := z.hash(r.sym.h + z.pub(er));
            var (ck3, k3) := z.hkdf(r.sym.ck, Secret(z, ei, z.pub(er)));
            var (ck4, k4) := z.hkdf(ck3, Secret(z, i.s, z.pub(er)));
            var c3 := z.seal(k4, 0, h6, p1);
            var x := Exchange(z, i, r, p1, er);
            x.wire == z.pub(er) + c3 && x.got == p1 && EndsAs(z, x, Script([], ck4, z.hash(h6 + c3)))
  {
    ExchangeAgrees(z, i, r, 1, p1, er);
    IkSecond(z, r, z.pub(ei), z.pub(i.s), er, p1);
    SecretsMeet(z, er, ei);
    SecretsMeet(z, er, i.s);
  }

  /**
   * IK likewise, the responder's static key hashed beforehand: the keys are folded from dh(ei, sr), dh(si, sr),
   * dh(ei, er) and dh(si, er), in that order.
   */
  lemma IkIsTheScript(z: Suite, prologue: Bytes, si: Bytes, sr: Bytes, ei: Bytes, er: Bytes, p0: Bytes, p1: Bytes, wasI: Hs, wasR: Hs)
    requires Lawful(z) && Willing(z) && |p0| <= MAX_PAYLOAD && |p1| <= MAX_PAYLOAD
    ensures var i := Start(z, IK, true, si, Some(z.pub(sr)), prologue, wasI).hs; var r := Start(z, IK, false, sr, None, prologue, wasR).hs;
            var x1 := Exchange(z, i, r, p0, ei);
            var x2 := Exchange(z, x1.i, x1.r, p1, er);
            var sc := IkScript(z, prologue, si, sr, ei, er, p0, p1);
            [x1.wire, x2.wire] == sc.messages && [x1.got, x2.got] == [p0, p1] && EndsAs(z, x2, sc)
  {
    StartAgrees(z, IK, si, sr, prologue, wasI, wasR);
    var i, r := Start(z, IK, true, si, Some(z.pub(sr)), prologue, wasI).hs, Start(z, IK, false, sr, None, prologue, wasR).hs;
    IkFirstExchange(z, i, r, ei, p0);
    var x1 := Exchange(z, i, r, p0, ei);
    IkSecondExchange(z, x1.i, x1.r, ei, er, p1);
  }

  /** What arrives is opened under the hash of all that went before, or refused with nothing changed. */
  lemma OpensUnderHash(z: Suite, ck: Bytes, h: Bytes, k: Bytes, n: nat, b: Bytes)
    requires n < MAX_NONCE
    ensures var s := Sym(ck, h, Cipher(k, true, n)); var p := z.open(k, n, h, b);
            DecryptAndHash(z, s, b) ==
            if p.None? then Hashed(s, Status.AUTH_FAILED, []) else Hashed(Sym(ck, z.hash(h + b), Cipher(k, true, n + 1)), Status.OK, p.value)
  {}

  // ---------------------------------------------------------------- whose turn it is

  /** A handshake starts exactly when a remote static key is given to an IK initiator and to nobody else. */
  lemma StartsExactly(z: Suite, p: Pattern, initiator: bool, s: Bytes, remote: Option<Bytes>, prologue: Bytes, was: Hs)
    ensures var t := Start(z, p, initiator, s, remote, prologue, was);
            && (t.status == Status.OK <==> (remote.Some? <==> p == IK && initiator))
            && (t.status == Status.OK ==> t.hs.started && !t.hs.complete && t.hs.msgIndex == 0 && t.hs.rs == remote)
  {}

  /** Even messages are the initiator's to write and the responder's to read, odd ones the other way; out of turn nothing happens. */
  lemma OutOfTurn(z: Suite, hs: Hs, payload: Bytes, ephemeral: Bytes, msg: Bytes)
    requires hs.started && !hs.complete && |payload| <= 65519 && |msg| <= 65535
    ensures (hs.msgIndex % 2 == 0) != hs.initiator ==> WriteMessage(z, hs, payload, ephemeral) == Part(hs, Status.BAD_ARGUMENT, [])
    ensures (hs.msgIndex % 2 == 0) == hs.initiator ==> ReadMessage(z, hs, msg) == Part(hs, Status.BAD_ARGUMENT, [])
  {}
}
