/**
 * airusb/protocol/Noise.cpp: CipherState, SymmetricState and HandshakeState of the Noise Protocol
 * Framework, revision 34 (sections 5.1 to 5.3 and 7.5), for the patterns XX and IK.
 *
 * Hash, key derivation, Diffie-Hellman and AEAD are function values; what is assumed of them is
 * the predicate `Lawful` and nothing else.
 */
module Noise {
  import opened Wire
  import Status

  const DH_LEN := 32
  const TAG_LEN := 16
  const MAX_MESSAGE := 65535
  const MAX_PLAINTEXT := 65519
  const MAX_NONCE: nat := 0xFFFF_FFFF_FFFF_FFFF

  datatype Suite = Suite(
    hash: Bytes -> Bytes,
    hkdf: (Bytes, Bytes) -> (Bytes, Bytes),
    pub: Bytes -> Bytes,
    dh: (Bytes, Bytes) -> Option<Bytes>,
    seal: (Bytes, nat, Bytes, Bytes) -> Bytes,
    open: (Bytes, nat, Bytes, Bytes) -> Option<Bytes>)

  /** Both halves of a key exchange meet, and what was sealed opens. */
  ghost predicate Lawful(z: Suite) {
    && (forall a, b :: z.dh(a, z.pub(b)) == z.dh(b, z.pub(a)))
    && (forall a :: |z.pub(a)| == DH_LEN)
    && (forall k, n, ad, p :: z.open(k, n, ad, z.seal(k, n, ad, p)) == Some(p))
    && (forall k, n, ad, p :: |z.seal(k, n, ad, p)| == |p| + TAG_LEN)
  }

  // ---------------------------------------------------------------- CipherState

  datatype Cipher = Cipher(key: Bytes, hasKey: bool, n: nat)

  datatype Sealed = Sealed(c: Cipher, status: u16, bytes: Bytes)

  function KeyedWith(k: Bytes): Cipher { Cipher(k, true, 0) }

  function EncryptWithAd(z: Suite, c: Cipher, ad: Bytes, p: Bytes): Sealed {
    if !c.hasKey then Sealed(c, Status.OK, p)
    else if c.n == MAX_NONCE then Sealed(c, Status.LIMIT_EXCEEDED, [])
    else Sealed(c.(n := c.n + 1), Status.OK, z.seal(c.key, c.n, ad, p))
  }

  function DecryptWithAd(z: Suite, c: Cipher, ad: Bytes, b: Bytes): Sealed {
    if !c.hasKey then Sealed(c, Status.OK, b)
    else if c.n == MAX_NONCE then Sealed(c, Status.LIMIT_EXCEEDED, [])
    else
      var p := z.open(c.key, c.n, ad, b);
      if p.None? then Sealed(c, Status.AUTH_FAILED, []) else Sealed(c.(n := c.n + 1), Status.OK, p.value)
  }

  /** The only use of the reserved nonce. The counter is not reset. */
  function Rekeyed(z: Suite, c: Cipher): Cipher {
    if !c.hasKey then c
    else
      var out := z.seal(c.key, MAX_NONCE, [], ZeroKey());
      if |out| >= DH_LEN then c.(key := out[..DH_LEN]) else c
  }

  function ZeroKey(): Bytes { seq(DH_LEN, _ => 0) }

  // ---------------------------------------------------------------- SymmetricState

  datatype Sym = Sym(ck: Bytes, h: Bytes, cipher: Cipher)

  function MixKey(z: Suite, s: Sym, ikm: Bytes): Sym {
    var (ck, k) := z.hkdf(s.ck, ikm);
    Sym(ck, s.h, KeyedWith(k))
  }

  function MixHash(z: Suite, s: Sym, data: Bytes): Sym { s.(h := z.hash(s.h + data)) }

  datatype Hashed = Hashed(s: Sym, status: u16, bytes: Bytes)

  function EncryptAndHash(z: Suite, s: Sym, p: Bytes): Hashed {
    var e := EncryptWithAd(z, s.cipher, s.h, p);
    if e.status != Status.OK then Hashed(s, e.status, [])
    else Hashed(MixHash(z, s.(cipher := e.c), e.bytes), Status.OK, e.bytes)
  }

  function DecryptAndHash(z: Suite, s: Sym, b: Bytes): Hashed {
    var d := DecryptWithAd(z, s.cipher, s.h, b);
    if d.status != Status.OK then Hashed(s, d.status, [])
    else Hashed(MixHash(z, s.(cipher := d.c), b), Status.OK, d.bytes)
  }

  /** The two transport keys, the initiator's sending key first. */
  function SplitKeys(z: Suite, s: Sym): (Cipher, Cipher) {
    var (k1, k2) := z.hkdf(s.ck, []);
    (KeyedWith(k1), KeyedWith(k2))
  }

  /** What one end seals the other end, in the same state, opens; and both are then in the same state. */
  lemma SealedOpens(z: Suite, s: Sym, p: Bytes)
    requires Lawful(z) && EncryptAndHash(z, s, p).status == Status.OK
    ensures var e := EncryptAndHash(z, s, p);
            && DecryptAndHash(z, s, e.bytes) == Hashed(e.s, Status.OK, p)
            && |e.bytes| == |p| + if s.cipher.hasKey then TAG_LEN else 0
  {}

  // ---------------------------------------------------------------- HandshakeState

  datatype Pattern = XX | IK

  datatype Token = E | S | EE | ES | SE | SS

  function Messages(p: Pattern): seq<seq<Token>> {
    match p
    case XX => [[E], [E, EE, S, ES], [S, SE]]
    case IK => [[E, ES, S, SS], [E, EE, SE]]
  }

  function ProtocolName(p: Pattern): string {
    match p
    case XX => "Noise_XX_25519_ChaChaPoly_BLAKE2s"
    case IK => "Noise_IK_25519_ChaChaPoly_BLAKE2s"
  }

  datatype Hs = Hs(
    pattern: Pattern, initiator: bool, started: bool, complete: bool, msgIndex: nat,
    s: Bytes, e: Option<Bytes>, re: Option<Bytes>, rs: Option<Bytes>, sym: Sym)

  /** initializeSymmetric: both names are longer than a hash, so they are hashed. */
  function NameHash(z: Suite, name: string): Bytes { z.hash(Ascii(name)) }

  function Ascii(name: string): Bytes { seq(|name|, (i: int) requires 0 <= i < |name| => name[i] as int % 0x100) }

  function InitialSym(z: Suite, p: Pattern, prologue: Bytes): Sym {
    var h := NameHash(z, ProtocolName(p));
    MixHash(z, Sym(h, h, Cipher([], false, 0)), prologue)
  }

  datatype Turn = Turn(hs: Hs, status: u16)

  /** start(): only an IK initiator knows the responder's static in advance, and it must. */
  function Start(z: Suite, p: Pattern, initiator: bool, s: Bytes, remote: Option<Bytes>, prologue: Bytes, was: Hs): Turn {
    var base := Hs(p, initiator, was.started, false, 0, s, None, None, None, was.sym);
    var needs := p == IK && initiator;
    if needs != remote.Some? then Turn(base, Status.BAD_ARGUMENT)
    else
      var sym := InitialSym(z, p, prologue);
      var sym2 := if p == IK then MixHash(z, sym, if initiator then remote.value else z.pub(s)) else sym;
      Turn(base.(started := true, rs := if needs then remote else None, sym := sym2), Status.OK)
  }

  function MixDh(z: Suite, hs: Hs, sk: Bytes, pk: Bytes): Turn {
    var shared := z.dh(sk, pk);
    if shared.None? then Turn(hs, Status.AUTH_FAILED) else Turn(hs.(sym := MixKey(z, hs.sym, shared.value)), Status.OK)
  }

  function MixIf(z: Suite, hs: Hs, sk: Option<Bytes>, pk: Option<Bytes>): Turn {
    if sk.None? || pk.None? then Turn(hs, Status.INTERNAL) else MixDh(z, hs, sk.value, pk.value)
  }

  /** The Diffie-Hellman tokens, named from the initiator's point of view. */
  function MixToken(z: Suite, hs: Hs, t: Token): Turn {
    match t
    case EE => MixIf(z, hs, hs.e, hs.re)
    case ES => if hs.initiator then MixIf(z, hs, hs.e, hs.rs) else MixIf(z, hs, Some(hs.s), hs.re)
    case SE => if hs.initiator then MixIf(z, hs, Some(hs.s), hs.re) else MixIf(z, hs, hs.e, hs.rs)
    case SS => MixIf(z, hs, Some(hs.s), hs.rs)
    case _ => Turn(hs, Status.OK)
  }

  /** A step of writing: the bytes it appends. A step of reading: the bytes it leaves. */
  datatype Part = Part(hs: Hs, status: u16, bytes: Bytes)

  function WriteToken(z: Suite, hs: Hs, t: Token, ephemeral: Bytes): Part {
    if t == E then
      var pk := z.pub(ephemeral);
      Part(hs.(e := Some(ephemeral), sym := MixHash(z, hs.sym, pk)), Status.OK, pk)
    else if t == S then
      var e := EncryptAndHash(z, hs.sym, z.pub(hs.s));
      Part(hs.(sym := e.s), e.status, e.bytes)
    else
      var m := MixToken(z, hs, t);
      Part(m.hs, m.status, [])
  }

  function ReadStatic(z: Suite, hs: Hs, msg: Bytes): Part {
    var len := if hs.sym.cipher.hasKey then DH_LEN + TAG_LEN else DH_LEN;
    if |msg| < len then Part(hs, Status.MALFORMED_FRAME, msg)
    else
      var d := DecryptAndHash(z, hs.sym, msg[..len]);
      var after := hs.(sym := d.s);
      if d.status != Status.OK then Part(after, d.status, msg)
      else if |d.bytes| != DH_LEN || (hs.rs.Some? && hs.pattern == XX) then Part(after, Status.MALFORMED_FRAME, msg)
      else Part(after.(rs := Some(d.bytes)), Status.OK, msg[len..])
  }

  function ReadToken(z: Suite, hs: Hs, t: Token, msg: Bytes): Part {
    if t == E then
      if |msg| < DH_LEN then Part(hs, Status.MALFORMED_FRAME, msg)
      else Part(hs.(re := Some(msg[..DH_LEN]), sym := MixHash(z, hs.sym, msg[..DH_LEN])), Status.OK, msg[DH_LEN..])
    else if t == S then ReadStatic(z, hs, msg)
    else
      var m := MixToken(z, hs, t);
      Part(m.hs, m.status, msg)
  }

  function WriteTokens(z: Suite, hs: Hs, ts: seq<Token>, ephemeral: Bytes): Part
    decreases |ts|
  {
    if ts == [] then Part(hs, Status.OK, [])
    else
      var p := WriteToken(z, hs, ts[0], ephemeral);
      if p.status != Status.OK then p
      else
        var rest := WriteTokens(z, p.hs, ts[1..], ephemeral);
        rest.(bytes := p.bytes + rest.bytes)
  }

  function ReadTokens(z: Suite, hs: Hs, ts: seq<Token>, msg: Bytes): Part
    decreases |ts|
  {
    if ts == [] then Part(hs, Status.OK, msg)
    else
      var p := ReadToken(z, hs, ts[0], msg);
      if p.status != Status.OK then p else ReadTokens(z, p.hs, ts[1..], p.bytes)
  }

  function Advanced(hs: Hs): Hs { hs.(msgIndex := hs.msgIndex + 1, complete := hs.msgIndex + 1 >= |Messages(hs.pattern)|) }

  predicate MayWrite(hs: Hs) {
    hs.started && !hs.complete && hs.msgIndex < |Messages(hs.pattern)| && (hs.msgIndex % 2 == 0) == hs.initiator
  }

  predicate MayRead(hs: Hs) {
    hs.started && !hs.complete && hs.msgIndex < |Messages(hs.pattern)| && (hs.msgIndex % 2 == 0) != hs.initiator
  }

  /** Seal the payload behind the tokens and move on. */
  function FinishWrite(z: Suite, p: Part, payload: Bytes): Part {
    var e := EncryptAndHash(z, p.hs.sym, payload);
    var out := p.bytes + e.bytes;
    if e.status != Status.OK then Part(p.hs, e.status, out)
    else if |out| > MAX_MESSAGE then Part(p.hs.(sym := e.s), Status.LIMIT_EXCEEDED, out)
    else Part(Advanced(p.hs.(sym := e.s)), Status.OK, out)
  }

  function WriteMessage(z: Suite, hs: Hs, payload: Bytes, ephemeral: Bytes): Part {
    if !hs.started || hs.complete then Part(hs, Status.BAD_ARGUMENT, [])
    else if |payload| > MAX_PLAINTEXT then Part(hs, Status.LIMIT_EXCEEDED, [])
    else if !MayWrite(hs) then Part(hs, Status.BAD_ARGUMENT, [])
    else
      var p := WriteTokens(z, hs, Messages(hs.pattern)[hs.msgIndex], ephemeral);
      if p.status != Status.OK then p else FinishWrite(z, p, payload)
  }

  /** On success `bytes` is the payload. */
  function FinishRead(z: Suite, p: Part): Part {
    var d := DecryptAndHash(z, p.hs.sym, p.bytes);
    if d.status != Status.OK then Part(p.hs, d.status, []) else Part(Advanced(p.hs.(sym := d.s)), Status.OK, d.bytes)
  }

  function ReadMessage(z: Suite, hs: Hs, msg: Bytes): Part {
    if !hs.started || hs.complete then Part(hs, Status.BAD_ARGUMENT, [])
    else if |msg| > MAX_MESSAGE then Part(hs, Status.LIMIT_EXCEEDED, [])
    else if !MayRead(hs) then Part(hs, Status.BAD_ARGUMENT, [])
    else
      var p := ReadTokens(z, hs, Messages(hs.pattern)[hs.msgIndex], msg);
      if p.status != Status.OK then Part(p.hs, p.status, []) else FinishRead(z, p)
  }

  datatype Transport = Transport(send: Cipher, recv: Cipher)

  function Split(z: Suite, hs: Hs): Option<Transport> {
    if !hs.complete then None
    else
      var (c1, c2) := SplitKeys(z, hs.sym);
      Some(if hs.initiator then Transport(c1, c2) else Transport(c2, c1))
  }

  // ---------------------------------------------------------------- the class

  class HandshakeState {
    const z: Suite
    var hs: Hs

    constructor (z: Suite)
      ensures this.z == z && !hs.started
    {
      this.z := z;
      hs := Hs(XX, false, false, false, 0, [], None, None, None, Sym([], [], Cipher([], false, 0)));
    }

    method Begin(p: Pattern, initiator: bool, s: Bytes, remote: Option<Bytes>, prologue: Bytes) returns (st: u16)
      modifies this
      ensures Turn(hs, st) == Start(z, p, initiator, s, remote, prologue, old(hs))
    {
      hs := hs.(pattern := p, initiator := initiator, msgIndex := 0, complete := false, e := None, re := None, rs := None, s := s);
      var needs := p == IK && initiator;
      if needs && remote.None? { return Status.BAD_ARGUMENT; }
      if !needs && remote.Some? { return Status.BAD_ARGUMENT; }
      if needs { hs := hs.(rs := remote); }
      hs := hs.(sym := InitialSym(z, p, prologue));
      if p == IK { hs := hs.(sym := MixHash(z, hs.sym, if initiator then remote.value else z.pub(s))); }
      hs := hs.(started := true);
      st := Status.OK;
    }

    method Write(payload: Bytes, ephemeral: Bytes) returns (st: u16, out: Bytes)
      modifies this
      ensures Part(hs, st, out) == WriteMessage(z, old(hs), payload, ephemeral)
    {
      out := [];
      if !hs.started || hs.complete { return Status.BAD_ARGUMENT, out; }
      if |payload| > MAX_PLAINTEXT { return Status.LIMIT_EXCEEDED, out; }
      if !MayWrite(hs) { return Status.BAD_ARGUMENT, out; }
      var ts := Messages(hs.pattern)[hs.msgIndex];
      st, out := WriteParts(ts, ephemeral);
      if st != Status.OK { return; }
      st, out := SealPayload(payload, out);
    }

    /** The payload goes behind the tokens already in `before`. */
    method SealPayload(payload: Bytes, before: Bytes) returns (st: u16, out: Bytes)
      modifies this
      ensures Part(hs, st, out) == FinishWrite(z, Part(old(hs), Status.OK, before), payload)
    {
      var e := EncryptAndHash(z, hs.sym, payload);
      out := before + e.bytes;
      if e.status != Status.OK { return e.status, out; }
      hs := hs.(sym := e.s);
      if |out| > MAX_MESSAGE { return Status.LIMIT_EXCEEDED, out; }
      hs := hs.(msgIndex := hs.msgIndex + 1);
      hs := hs.(complete := hs.msgIndex >= |Messages(hs.pattern)|);
      st := Status.OK;
    }

    method WriteParts(ts: seq<Token>, ephemeral: Bytes) returns (st: u16, out: Bytes)
      modifies this
      ensures Part(hs, st, out) == WriteTokens(z, old(hs), ts, ephemeral)
    {
      out := [];
      for i := 0 to |ts|
        invariant Prefixed(out, WriteTokens(z, hs, ts[i..], ephemeral)) == WriteTokens(z, old(hs), ts, ephemeral)
      {
        var p := WriteToken(z, hs, ts[i], ephemeral);
        assert ts[i..][1..] == ts[i + 1..];
        hs := p.hs;
        out := out + p.bytes;
        if p.status != Status.OK { return p.status, out; }
      }
      st := Status.OK;
    }

    method Read(msg: Bytes) returns (st: u16, payload: Bytes)
      modifies this
      ensures Part(hs, st, payload) == ReadMessage(z, old(hs), msg)
    {
      payload := [];
      if !hs.started || hs.complete { return Status.BAD_ARGUMENT, payload; }
      if |msg| > MAX_MESSAGE { return Status.LIMIT_EXCEEDED, payload; }
      if !MayRead(hs) { return Status.BAD_ARGUMENT, payload; }
      var left;
      st, left := ReadParts(Messages(hs.pattern)[hs.msgIndex], msg);
      if st != Status.OK { return; }
      var d := DecryptAndHash(z, hs.sym, left);
      if d.status != Status.OK { return d.status, payload; }
      hs := hs.(sym := d.s);
      payload := d.bytes;
      hs := hs.(msgIndex := hs.msgIndex + 1);
      hs := hs.(complete := hs.msgIndex >= |Messages(hs.pattern)|);
    }

    method ReadParts(ts: seq<Token>, msg: Bytes) returns (st: u16, left: Bytes)
      modifies this
      ensures Part(hs, st, left) == ReadTokens(z, old(hs), ts, msg)
    {
      left := msg;
      for i := 0 to |ts|
        invariant ReadTokens(z, hs, ts[i..], left) == ReadTokens(z, old(hs), ts, msg)
      {
        var p := ReadToken(z, hs, ts[i], left);
        assert ts[i..][1..] == ts[i + 1..];
        hs, left := p.hs, p.bytes;
        if p.status != Status.OK { return p.status, left; }
      }
      st := Status.OK;
    }
  }

  function Prefixed(b: Bytes, p: Part): Part { p.(bytes := b + p.bytes) }
}
