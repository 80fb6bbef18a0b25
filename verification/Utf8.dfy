/** isValidUtf8 of airusb/protocol/Validate.cpp, against the encoding of sections 3 and 4 of RFC 3629. */
module Utf8 {
  import opened Wire

  // ---------------------------------------------------------------- the standard

  /** A Unicode scalar value other than U+0000. */
  predicate Scalar(cp: nat) { 0 < cp <= 0x10_FFFF && !(0xD800 <= cp <= 0xDFFF) }

  /** The bytes of one scalar value, shortest form. */
  function EncodeScalar(cp: nat): Bytes
    requires Scalar(cp)
  {
    if cp < 0x80 then [cp]
    else if cp < 0x800 then [0xC0 + cp / 64, 0x80 + cp % 64]
    else if cp < 0x1_0000 then [0xE0 + cp / 4096, 0x80 + cp / 64 % 64, 0x80 + cp % 64]
    else [0xF0 + cp / 262144, 0x80 + cp / 4096 % 64, 0x80 + cp / 64 % 64, 0x80 + cp % 64]
  }

  function EncodeAll(cps: seq<nat>): Bytes
    requires forall i :: 0 <= i < |cps| ==> Scalar(cps[i])
  {
    if cps == [] then [] else EncodeScalar(cps[0]) + EncodeAll(cps[1..])
  }

  ghost predicate AllScalars(cps: seq<nat>) { forall i :: 0 <= i < |cps| ==> Scalar(cps[i]) }

  /** The byte string is a concatenation of encodings. */
  ghost predicate IsUtf8(s: Bytes) { exists cps :: AllScalars(cps) && EncodeAll(cps) == s }

  // ---------------------------------------------------------------- the code

  /** What a lead byte announces: continuation bytes, its own payload bits, and the least value allowed. */
  datatype Lead = Lead(extra: nat, bits: nat, min: nat)

  function LeadOf(c: byte): Option<Lead> {
    if c < 0x80 then Some(Lead(0, c, 1))
    else if c / 32 == 6 then Some(Lead(1, c % 32, 0x80))
    else if c / 16 == 14 then Some(Lead(2, c % 16, 0x800))
    else if c / 8 == 30 then Some(Lead(3, c % 8, 0x1_0000))
    else None
  }

  /** `cp` with the six payload bits of the continuation byte `c` behind it. */
  function Push(cp: nat, c: byte): nat { cp * 64 + c as int % 64 }

  predicate Continues(c: byte) { c / 64 == 2 }

  /** Six more bits from every continuation byte; None if one is not a continuation. */
  function Gather(cp: nat, bs: Bytes): Option<nat>
    decreases |bs|
  {
    if bs == [] then Some(cp) else if !Continues(bs[0]) then None else Gather(Push(cp, bs[0]), bs[1..])
  }

  /** The first character: its value and its length, if the code accepts it. */
  datatype Char = Char(cp: nat, len: nat)

  function FirstChar(s: Bytes): (r: Option<Char>)
    requires s != []
    ensures r.Some? ==> 0 < r.value.len <= |s|
  {
    var lead := LeadOf(s[0]);
    if lead.None? || |s| - 1 < lead.value.extra then None
    else
      var cp := Gather(lead.value.bits, s[1..1 + lead.value.extra]);
      if cp.None? || cp.value < lead.value.min || !Scalar(cp.value) then None
      else Some(Char(cp.value, 1 + lead.value.extra))
  }

  predicate ValidFrom(s: Bytes)
    decreases |s|
  {
    s == [] || (FirstChar(s).Some? && ValidFrom(s[FirstChar(s).value.len..]))
  }

  method GatherBits(s: Bytes, at: nat, extra: nat, bits: nat) returns (cp: Option<nat>)
    requires at + extra <= |s|
    ensures cp == Gather(bits, s[at..at + extra])
  {
    var v: nat := bits;
    var k := 0;
    while k < extra
      invariant k <= extra && Gather(v, s[at + k..at + extra]) == Gather(bits, s[at..at + extra])
    {
      var c := s[at + k];
      if !Continues(c) { return None; }
      assert s[at + k..at + extra][1..] == s[at + k + 1..at + extra];
      v := Push(v, c);
      k := k + 1;
    }
    cp := Some(v);
  }

  /** One step of the walk: what is valid from `i` on, given the character there. */
  lemma ValidStep(s: Bytes, i: nat, len: nat)
    requires i < |s| && FirstChar(s[i..]).Some? && FirstChar(s[i..]).value.len == len
    ensures i + len <= |s| && ValidFrom(s[i..]) == ValidFrom(s[i + len..])
  {
    assert s[i..][len..] == s[i + len..];
  }

  method IsValidUtf8(s: Bytes) returns (ok: bool)
    ensures ok <==> IsUtf8(s)
  {
    var i := 0;
    ValidExactly(s);
    assert s[0..] == s;
    while i < |s|
      invariant i <= |s| && ValidFrom(s[i..]) == ValidFrom(s)
    {
      var c := s[i];
      if c == 0 { return false; }
      if c < 0x80 {
        assert s[i..][1..1] == [];
        ValidStep(s, i, 1);
        i := i + 1;
        continue;
      }
      var lead := LeadOf(c);
      if lead.None? { return false; }
      var extra := lead.value.extra;
      if |s| - i - 1 < extra { return false; }
      var cp := GatherBits(s, i + 1, extra, lead.value.bits);
      assert s[i..][1..1 + extra] == s[i + 1..i + 1 + extra];
      if cp.None? { return false; }
      if cp.value < lead.value.min { return false; }
      if cp.value > 0x10_FFFF { return false; }
      if 0xD800 <= cp.value <= 0xDFFF { return false; }
      ValidStep(s, i, extra + 1);
      i := i + extra + 1;
    }
    assert s[i..] == [];
    ok := true;
  }

  // ---------------------------------------------------------------- they agree

  lemma Gather1(cp: nat, a: byte)
    ensures Gather(cp, [a]) == if Continues(a) then Some(Push(cp, a)) else None
  {
    assert [a][1..] == [];
  }

  lemma Gather2(cp: nat, a: byte, b: byte)
    ensures Gather(cp, [a, b]) == if Continues(a) && Continues(b) then Some(Push(Push(cp, a), b)) else None
  {
    assert [a, b][1..] == [b];
    Gather1(Push(cp, a), b);
  }

  lemma Gather3(cp: nat, a: byte, b: byte, c: byte)
    ensures Gather(cp, [a, b, c]) == if Continues(a) && Continues(b) && Continues(c) then Some(Push(Push(Push(cp, a), b), c)) else None
  {
    assert [a, b, c][1..] == [b, c];
    Gather2(Push(cp, a), b, c);
  }

  /** Pushing six bits and splitting them off again are inverse. */
  lemma PushSplits(cp: nat, c: byte)
    requires Continues(c)
    ensures Push(cp, c) / 64 == cp && 0x80 + Push(cp, c) % 64 == c as int
  {}

  lemma SplitPushes(cp: nat)
    ensures Push(cp / 64, 0x80 + cp % 64) == cp && Continues(0x80 + cp % 64)
  {}

  lemma QuotientsNest(cp: nat)
    ensures cp / 4096 == cp / 64 / 64 && cp / 262144 == cp / 64 / 64 / 64
  {}

  /** Four bytes are lead bits and three continuations; likewise three and two. */
  lemma TwoBytes(a: byte, b: byte)
    requires a / 32 == 6 && Continues(b) && Push(a % 32, b) >= 0x80
    ensures Scalar(Push(a % 32, b)) && EncodeScalar(Push(a % 32, b)) == [a, b]
  {
    PushSplits(a % 32, b);
  }

  lemma ThreeBytes(a: byte, b: byte, c: byte)
    requires a / 16 == 14 && Continues(b) && Continues(c)
    requires var cp := Push(Push(a % 16, b), c); cp >= 0x800 && Scalar(cp)
    ensures EncodeScalar(Push(Push(a % 16, b), c)) == [a, b, c]
  {
    var x := Push(a % 16, b);
    PushSplits(a % 16, b);
    PushSplits(x, c);
    QuotientsNest(Push(x, c));
  }

  lemma FourBytes(a: byte, b: byte, c: byte, d: byte)
    requires a / 8 == 30 && Continues(b) && Continues(c) && Continues(d)
    requires var cp := Push(Push(Push(a % 8, b), c), d); cp >= 0x1_0000 && Scalar(cp)
    ensures EncodeScalar(Push(Push(Push(a % 8, b), c), d)) == [a, b, c, d]
  {
    var x, y := Push(a % 8, b), Push(Push(a % 8, b), c);
    PushSplits(a % 8, b);
    PushSplits(x, c);
    PushSplits(y, d);
    QuotientsNest(Push(y, d));
  }

  /** What the code accepts as a character is the standard's encoding of it. */
  lemma AcceptedIsEncoding(s: Bytes)
    requires s != [] && FirstChar(s).Some?
    ensures var ch := FirstChar(s).value; Scalar(ch.cp) && s[..ch.len] == EncodeScalar(ch.cp)
  {
    var extra := LeadOf(s[0]).value.extra;
    if extra == 0 {
      assert s[1..1] == [] && s[..1] == [s[0]];
    } else if extra == 1 {
      assert s[1..2] == [s[1]] && s[..2] == [s[0], s[1]];
      Gather1(s[0] % 32, s[1]);
      TwoBytes(s[0], s[1]);
    } else if extra == 2 {
      assert s[1..3] == [s[1], s[2]] && s[..3] == [s[0], s[1], s[2]];
      Gather2(s[0] % 16, s[1], s[2]);
      ThreeBytes(s[0], s[1], s[2]);
    } else {
      assert s[1..4] == [s[1], s[2], s[3]] && s[..4] == [s[0], s[1], s[2], s[3]];
      Gather3(s[0] % 8, s[1], s[2], s[3]);
      FourBytes(s[0], s[1], s[2], s[3]);
    }
  }

  /** The lead byte of an encoding announces it, and the continuations give the value back. */
  lemma EncodingGathers(cp: nat)
    requires Scalar(cp)
    ensures var e := EncodeScalar(cp); var lead := LeadOf(e[0]);
            && lead.Some? && lead.value.extra == |e| - 1 && lead.value.min <= cp && Gather(lead.value.bits, e[1..]) == Some(cp)
  {
    var e := EncodeScalar(cp);
    SplitPushes(cp);
    SplitPushes(cp / 64);
    SplitPushes(cp / 64 / 64);
    QuotientsNest(cp);
    if cp < 0x80 {
      assert e[1..] == [];
    } else if cp < 0x800 {
      assert e[1..] == [e[1]];
      Gather1(cp / 64, e[1]);
    } else if cp < 0x1_0000 {
      assert e[1..] == [e[1], e[2]];
      Gather2(cp / 4096, e[1], e[2]);
    } else {
      assert e[1..] == [e[1], e[2], e[3]];
      Gather3(cp / 262144, e[1], e[2], e[3]);
    }
  }

  /** The standard's encoding of a scalar value is accepted as that value. */
  lemma EncodingIsAccepted(cp: nat, rest: Bytes)
    requires Scalar(cp)
    ensures FirstChar(EncodeScalar(cp) + rest) == Some(Char(cp, |EncodeScalar(cp)|))
  {
    var e := EncodeScalar(cp);
    EncodingGathers(cp);
    assert (e + rest)[1..|e|] == e[1..] && (e + rest)[0] == e[0];
  }

  lemma {:induction false} ValidIsUtf8(s: Bytes) returns (cps: seq<nat>)
    requires ValidFrom(s)
    ensures AllScalars(cps) && EncodeAll(cps) == s
    decreases |s|
  {
    if s == [] {
      cps := [];
    } else {
      var ch := FirstChar(s).value;
      AcceptedIsEncoding(s);
      var rest := ValidIsUtf8(s[ch.len..]);
      cps := [ch.cp] + rest;
      assert cps[1..] == rest && s == s[..ch.len] + s[ch.len..];
    }
  }

  lemma {:induction false} Utf8IsValid(cps: seq<nat>)
    requires AllScalars(cps)
    ensures ValidFrom(EncodeAll(cps))
  {
    if cps != [] {
      var e, rest := EncodeScalar(cps[0]), EncodeAll(cps[1..]);
      EncodingIsAccepted(cps[0], rest);
      assert (e + rest)[|e|..] == rest;
      Utf8IsValid(cps[1..]);
    }
  }

  lemma ValidExactly(s: Bytes)
    ensures ValidFrom(s) <==> IsUtf8(s)
  {
    if ValidFrom(s) {
      var cps := ValidIsUtf8(s);
    }
    if IsUtf8(s) {
      var cps :| AllScalars(cps) && EncodeAll(cps) == s;
      Utf8IsValid(cps);
    }
  }
}
