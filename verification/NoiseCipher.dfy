/** airusb/transport/NoiseCipher.cpp: the record cipher, with its rekey counters. */
module NoiseRecords {
  import opened Wire
  import Status
  import opened Noise

  /** One direction of a connection at one end: its cipher and how many records went through it. */
  datatype Half = Half(c: Cipher, count: nat)

  datatype Outcome = Outcome(half: Half, status: u16, bytes: Bytes)

  /** One record more; every `interval` records both ends replace the key. */
  function Counted(z: Suite, c: Cipher, count: nat, interval: nat): Half {
    Half(if interval != 0 && count % interval == 0 then Rekeyed(z, c) else c, count)
  }

  function SealOne(z: Suite, h: Half, interval: nat, p: Bytes): Outcome {
    if |p| > MAX_PLAINTEXT then Outcome(h, Status.LIMIT_EXCEEDED, [])
    else
      var e := EncryptWithAd(z, h.c, [], p);
      if e.status != Status.OK then Outcome(h, e.status, []) else Outcome(Counted(z, e.c, h.count + 1, interval), Status.OK, e.bytes)
  }

  function OpenOne(z: Suite, h: Half, interval: nat, b: Bytes): Outcome {
    if |b| > MAX_MESSAGE then Outcome(h, Status.LIMIT_EXCEEDED, [])
    else
      var d := DecryptWithAd(z, h.c, [], b);
      if d.status != Status.OK then Outcome(h, d.status, []) else Outcome(Counted(z, d.c, h.count + 1, interval), Status.OK, d.bytes)
  }

  class NoiseCipher {
    const z: Suite
    const interval: nat
    var send: Cipher
    var recv: Cipher
    var sealedCount: nat
    var openedCount: nat

    constructor (z: Suite, t: Transport, interval: nat)
      ensures this.z == z && this.interval == interval && send == t.send && recv == t.recv && sealedCount == 0 && openedCount == 0
    {
      this.z, this.interval := z, interval;
      send, recv, sealedCount, openedCount := t.send, t.recv, 0, 0;
    }

    method Seal(p: Bytes) returns (st: u16, out: Bytes)
      modifies this`send, this`sealedCount
      ensures Outcome(Half(send, sealedCount), st, out) == SealOne(z, old(Half(send, sealedCount)), interval, p)
    {
      if |p| > MAX_PLAINTEXT { return Status.LIMIT_EXCEEDED, []; }
      var e := EncryptWithAd(z, send, [], p);
      if e.status != Status.OK { return e.status, []; }
      send := e.c;
      sealedCount := sealedCount + 1;
      if interval != 0 && sealedCount % interval == 0 { send := Rekeyed(z, send); }
      st, out := Status.OK, e.bytes;
    }

    method Open(b: Bytes) returns (st: u16, out: Bytes)
      modifies this`recv, this`openedCount
      ensures Outcome(Half(recv, openedCount), st, out) == OpenOne(z, old(Half(recv, openedCount)), interval, b)
    {
      if |b| > MAX_MESSAGE { return Status.LIMIT_EXCEEDED, []; }
      var d := DecryptWithAd(z, recv, [], b);
      if d.status != Status.OK { return d.status, []; }
      recv := d.c;
      openedCount := openedCount + 1;
      if interval != 0 && openedCount % interval == 0 { recv := Rekeyed(z, recv); }
      st, out := Status.OK, d.bytes;
    }
  }

  // ---------------------------------------------------------------- lockstep

  /** A whole stream through one half, until something is refused. */
  datatype Stream = Stream(half: Half, status: u16, out: seq<Bytes>)

  function SealAll(z: Suite, h: Half, interval: nat, ps: seq<Bytes>): Stream
    decreases |ps|
  {
    if ps == [] then Stream(h, Status.OK, [])
    else
      var o := SealOne(z, h, interval, ps[0]);
      if o.status != Status.OK then Stream(o.half, o.status, [])
      else var rest := SealAll(z, o.half, interval, ps[1..]); rest.(out := [o.bytes] + rest.out)
  }

  function OpenAll(z: Suite, h: Half, interval: nat, bs: seq<Bytes>): Stream
    decreases |bs|
  {
    if bs == [] then Stream(h, Status.OK, [])
    else
      var o := OpenOne(z, h, interval, bs[0]);
      if o.status != Status.OK then Stream(o.half, o.status, [])
      else var rest := OpenAll(z, o.half, interval, bs[1..]); rest.(out := [o.bytes] + rest.out)
  }

  lemma RecordOpens(z: Suite, h: Half, interval: nat, p: Bytes)
    requires Lawful(z) && SealOne(z, h, interval, p).status == Status.OK
    ensures var o := SealOne(z, h, interval, p); OpenOne(z, h, interval, o.bytes) == Outcome(o.half, Status.OK, p)
  {}

  /**
   * However many records, and however many rekeys among them: an opener that starts level with the
   * sealer ends level with it, in key, nonce and count, and has every plaintext back.
   */
  lemma {:induction false} Lockstep(z: Suite, h: Half, interval: nat, ps: seq<Bytes>)
    requires Lawful(z) && SealAll(z, h, interval, ps).status == Status.OK
    ensures var s := SealAll(z, h, interval, ps); OpenAll(z, h, interval, s.out) == Stream(s.half, Status.OK, ps)
    decreases |ps|
  {
    if ps != [] {
      var o := SealOne(z, h, interval, ps[0]);
      RecordOpens(z, h, interval, ps[0]);
      Lockstep(z, o.half, interval, ps[1..]);
      var s, rest := SealAll(z, h, interval, ps), SealAll(z, o.half, interval, ps[1..]);
      assert s.out == [o.bytes] + rest.out && s.out[1..] == rest.out;
      assert ps == [ps[0]] + ps[1..];
    }
  }

  /** A keyed sealer refuses a record exactly when it is too long or the nonces have run out. */
  lemma SealRefusesExactly(z: Suite, h: Half, interval: nat, p: Bytes)
    ensures SealOne(z, h, interval, p).status != Status.OK <==> |p| > MAX_PLAINTEXT || (h.c.hasKey && h.c.n == MAX_NONCE)
    ensures SealOne(z, h, interval, p).status != Status.OK ==> SealOne(z, h, interval, p).half == h
  {}

  /** A record that does not open moves nothing: not the key, not the nonce, not the count. */
  lemma FailedOpenChangesNothing(z: Suite, h: Half, interval: nat, b: Bytes)
    requires OpenOne(z, h, interval, b).status != Status.OK
    ensures OpenOne(z, h, interval, b).half == h && OpenOne(z, h, interval, b).bytes == []
  {}

  // ---------------------------------------------------------------- nonces

  /** One call of the AEAD for sealing. */
  datatype Use = Use(key: Bytes, nonce: nat, rekey: bool)

  /** Every AEAD sealing behind a stream of records, in order. */
  function Uses(z: Suite, h: Half, interval: nat, ps: seq<Bytes>): seq<Use>
    decreases |ps|
  {
    if ps == [] || SealOne(z, h, interval, ps[0]).status != Status.OK || !h.c.hasKey then []
    else
      var next := SealOne(z, h, interval, ps[0]).half;
      [Use(h.c.key, h.c.n, false)]
      + (if interval != 0 && (h.count + 1) % interval == 0 then [Use(h.c.key, MAX_NONCE, true)] else [])
      + Uses(z, next, interval, ps[1..])
  }

  /** Records count up from `n`; only a rekey touches the reserved nonce. */
  ghost predicate Counting(us: seq<Use>, n: nat) {
    && (forall i :: 0 <= i < |us| ==> if us[i].rekey then us[i].nonce == MAX_NONCE else n <= us[i].nonce < MAX_NONCE)
    && (forall i, j :: 0 <= i < j < |us| && !us[i].rekey && !us[j].rekey ==> us[i].nonce < us[j].nonce)
  }

  lemma CountingGrows(first: Use, mid: seq<Use>, rest: seq<Use>)
    requires !first.rekey && first.nonce < MAX_NONCE && Counting(rest, first.nonce + 1)
    requires forall i :: 0 <= i < |mid| ==> mid[i].rekey && mid[i].nonce == MAX_NONCE
    ensures Counting([first] + mid + rest, first.nonce)
  {
    var us := [first] + mid + rest;
    forall i, j | 0 <= i < j < |us| && !us[i].rekey && !us[j].rekey ensures us[i].nonce < us[j].nonce {
      if i > 0 { assert us[i] == rest[i - 1 - |mid|] && us[j] == rest[j - 1 - |mid|]; }
      else if j > |mid| { assert us[j] == rest[j - 1 - |mid|]; }
    }
    forall i | 0 <= i < |us| ensures if us[i].rekey then us[i].nonce == MAX_NONCE else first.nonce <= us[i].nonce < MAX_NONCE {
      if i > |mid| { assert us[i] == rest[i - 1 - |mid|]; }
    }
  }

  /** No nonce encrypts twice, whatever the rekeys do, and the reserved one never encrypts a record. */
  lemma {:induction false} NoncesNeverRepeat(z: Suite, h: Half, interval: nat, ps: seq<Bytes>)
    requires h.c.n <= MAX_NONCE
    ensures Counting(Uses(z, h, interval, ps), h.c.n)
    decreases |ps|
  {
    if ps != [] && SealOne(z, h, interval, ps[0]).status == Status.OK && h.c.hasKey {
      var next := SealOne(z, h, interval, ps[0]).half;
      NoncesNeverRepeat(z, next, interval, ps[1..]);
      CountingGrows(Use(h.c.key, h.c.n, false),
        if interval != 0 && (h.count + 1) % interval == 0 then [Use(h.c.key, MAX_NONCE, true)] else [],
        Uses(z, next, interval, ps[1..]));
    }
  }

  // ---------------------------------------------------------------- rekeys

  /** The key after a rekey: the first 32 bytes of 32 zero bytes sealed under the old key and the reserved nonce. */
  function NextKey(z: Suite, k: Bytes): Bytes
    requires Lawful(z)
  {
    z.seal(k, 0xFFFF_FFFF_FFFF_FFFF, [], seq(32, _ => 0))[..32]
  }

  /**
   * After each record whose number is a multiple of the interval, and after no other, the key is replaced by
   * the one derived from it; the nonce counts on. With interval 0 the key never changes.
   */
  lemma RekeysExactly(z: Suite, h: Half, interval: nat, p: Bytes)
    requires Lawful(z) && h.c.hasKey && SealOne(z, h, interval, p).status == Status.OK
    ensures var o := SealOne(z, h, interval, p); var due := interval != 0 && (h.count + 1) % interval == 0;
            && o.half == Half(Cipher(if due then NextKey(z, h.c.key) else h.c.key, true, h.c.n + 1), h.count + 1)
            && o.bytes == z.seal(h.c.key, h.c.n, [], p)
  {}

  /** The key after `n` records. */
  function KeyAfter(z: Suite, k: Bytes, count: nat, interval: nat, n: nat): Bytes
    requires Lawful(z)
    decreases n
  {
    if n == 0 then k
    else KeyAfter(z, if interval != 0 && (count + 1) % interval == 0 then NextKey(z, k) else k, count + 1, interval, n - 1)
  }

  /** Over a whole stream: record `i` is sealed under the key `i` records have led to and nonce number `i`, nothing else. */
  lemma {:induction false} StreamIsSealedUnder(z: Suite, h: Half, interval: nat, ps: seq<Bytes>, i: nat)
    requires Lawful(z) && h.c.hasKey && SealAll(z, h, interval, ps).status == Status.OK && i < |ps|
    ensures |SealAll(z, h, interval, ps).out| == |ps|
    ensures SealAll(z, h, interval, ps).out[i] == z.seal(KeyAfter(z, h.c.key, h.count, interval, i), h.c.n + i, [], ps[i])
    decreases |ps|
  {
    RekeysExactly(z, h, interval, ps[0]);
    var o := SealOne(z, h, interval, ps[0]);
    var rest := SealAll(z, o.half, interval, ps[1..]);
    if |ps| > 1 { StreamIsSealedUnder(z, o.half, interval, ps[1..], if i == 0 then 0 else i - 1); }
    assert SealAll(z, h, interval, ps).out == [o.bytes] + rest.out;
  }

  /** A record opens exactly when it is not too long, the nonces have not run out, and the cipher opens it at this nonce: then to that plaintext. */
  lemma OpensExactly(z: Suite, h: Half, interval: nat, b: Bytes)
    requires h.c.hasKey
    ensures var o := OpenOne(z, h, interval, b); var p := z.open(h.c.key, h.c.n, [], b);
            && (o.status == Status.OK <==> |b| <= 65535 && h.c.n != 0xFFFF_FFFF_FFFF_FFFF && p.Some?)
            && (o.status == Status.OK ==> o.bytes == p.value && o.half.count == h.count + 1 && o.half.c.n == h.c.n + 1)
  {}
}
