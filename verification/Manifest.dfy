/** Tagged values, as airusb/protocol/Codec.cpp appends and walks them. */
module Tlvs {
  import opened Wire
  import opened Codec

  datatype TlvView = TlvView(typ: u16, value: Bytes)

  /** appendTlv: the length field is 16 bits wide, whatever the value's size. */
  function TlvBytes(t: TlvView): Bytes { Le16(t.typ) + Le16(|t.value| % 0x1_0000) + t.value }

  function JoinTlvs(ts: seq<TlvView>): Bytes {
    if ts == [] then [] else TlvBytes(ts[0]) + JoinTlvs(ts[1..])
  }

  /** The value is short enough for its length field. */
  predicate FitsTlv(t: TlvView) { |t.value| < 0x1_0000 }

  /** The first tagged value and what follows it; None when the bytes are cut short. */
  datatype Cut = Cut(t: TlvView, rest: Bytes)

  function FirstTlv(b: Bytes): (r: Option<Cut>)
    ensures r.Some? ==> |r.value.rest| < |b|
  {
    if |b| < 4 then None
    else
      var len := Rd16(b[2..4]);
      if |b| - 4 < len then None else Some(Cut(TlvView(Rd16(b[..2]), b[4..4 + len]), b[4 + len..]))
  }

  lemma FirstTlvReads(t: TlvView, rest: Bytes)
    requires FitsTlv(t)
    ensures FirstTlv(TlvBytes(t) + rest) == Some(Cut(t, rest))
  {
    var b := TlvBytes(t) + rest;
    Back16(t.typ);
    Back16(|t.value|);
    assert b[..2] == Le16(t.typ) && b[2..4] == Le16(|t.value|);
    assert b[4..4 + |t.value|] == t.value && b[4 + |t.value|..] == rest;
  }

  lemma {:induction false} JoinConcat(a: seq<TlvView>, b: seq<TlvView>)
    ensures JoinTlvs(a + b) == JoinTlvs(a) + JoinTlvs(b)
    decreases |a|
  {
    if a == [] {
      assert a + b == b;
    } else {
      assert (a + b)[1..] == a[1..] + b;
      JoinConcat(a[1..], b);
      assert TlvBytes(a[0]) + (JoinTlvs(a[1..]) + JoinTlvs(b)) == TlvBytes(a[0]) + JoinTlvs(a[1..]) + JoinTlvs(b);
    }
  }
}

/** airusb/core/DeviceManifest.cpp: a device's descriptors, how they are looked up and what makes them valid. */
module Manifests {
  import opened Wire
  import opened Codec

  const DESC_DEVICE: byte := 1
  const DESC_CONFIGURATION: byte := 2
  const DESC_STRING: byte := 3
  const DESC_BOS: byte := 15

  // Speeds, numbered as on the wire.
  const SPEED_FULL: byte := 1
  const SPEED_LOW: byte := 2
  const SPEED_HIGH: byte := 3
  const SPEED_SUPER: byte := 4
  const SPEED_SUPER_PLUS_BY2: byte := 6
  const SPEED_OTHER: byte := 7

  const MANIFEST_BYTES_MAX := 256 * 1024

  datatype StringEntry = StringEntry(index: byte, langId: u16, blob: Bytes)

  /** `langs` is what setLangIds was last given, if anything. */
  datatype DeviceManifest = DeviceManifest(
    speed: byte, device: Bytes, configs: seq<Bytes>, bos: Bytes, qualifier: Bytes, otherSpeed: Bytes,
    langs: Option<seq<u16>>, strings: seq<StringEntry>)

  const BLANK := DeviceManifest(0, [], [], [], [], [], None, [])

  function LangBytes(ids: seq<u16>): (b: Bytes)
    ensures |b| == 2 * |ids|
  {
    if ids == [] then [] else Le16(ids[0]) + LangBytes(ids[1..])
  }

  /** The LANGID table, string descriptor 0. */
  function LangIdTable(m: DeviceManifest): Bytes {
    if m.langs.None? then [] else [(2 + 2 * |m.langs.value|) % 0x100, DESC_STRING] + LangBytes(m.langs.value)
  }

  // ---------------------------------------------------------------- lookups

  function ConfigurationByIndex(m: DeviceManifest, index: byte): Bytes { if index < |m.configs| then m.configs[index] else [] }

  /** The first configuration whose bConfigurationValue is `value`. */
  function ConfigNamed(configs: seq<Bytes>, value: byte): Bytes {
    if configs == [] then []
    else if |configs[0]| >= 9 && configs[0][5] == value then configs[0]
    else ConfigNamed(configs[1..], value)
  }

  function ConfigurationByValue(m: DeviceManifest, value: byte): Bytes { ConfigNamed(m.configs, value) }

  function StringNamed(strings: seq<StringEntry>, index: byte, langId: u16): Bytes {
    if strings == [] then []
    else if strings[0].index == index && strings[0].langId == langId then strings[0].blob
    else StringNamed(strings[1..], index, langId)
  }

  function StringDescriptor(m: DeviceManifest, index: byte, langId: u16): Bytes {
    if index == 0 then LangIdTable(m) else StringNamed(m.strings, index, langId)
  }

  method FindConfiguration(m: DeviceManifest, value: byte) returns (r: Bytes)
    ensures r == ConfigurationByValue(m, value)
  {
    for i := 0 to |m.configs|
      invariant ConfigNamed(m.configs[i..], value) == ConfigNamed(m.configs, value)
    {
      if |m.configs[i]| >= 9 && m.configs[i][5] == value { return m.configs[i]; }
      assert m.configs[i..][1..] == m.configs[i + 1..];
    }
    r := [];
  }

  method FindString(m: DeviceManifest, index: byte, langId: u16) returns (r: Bytes)
    ensures r == StringDescriptor(m, index, langId)
  {
    if index == 0 { return LangIdTable(m); }
    for i := 0 to |m.strings|
      invariant StringNamed(m.strings[i..], index, langId) == StringNamed(m.strings, index, langId)
    {
      if m.strings[i].index == index && m.strings[i].langId == langId { return m.strings[i].blob; }
      assert m.strings[i..][1..] == m.strings[i + 1..];
    }
    r := [];
  }

  // ---------------------------------------------------------------- validity

  /** forEachDescriptor with a callback that never stops: every bLength is at least 2 and stays inside. */
  predicate WellWalked(blob: Bytes)
    decreases |blob|
  {
    blob == [] || (|blob| >= 2 && 2 <= blob[0] <= |blob| && WellWalked(blob[blob[0]..]))
  }

  method WalkDescriptors(blob: Bytes) returns (ok: bool)
    ensures ok == WellWalked(blob)
  {
    var at := 0;
    while at < |blob|
      invariant at <= |blob| && WellWalked(blob[at..]) == WellWalked(blob)
    {
      if |blob| - at < 2 { return false; }
      var len := blob[at];
      if len < 2 || |blob| - at < len { return false; }
      assert blob[at..][len..] == blob[at + len..];
      at := at + len;
    }
    ok := true;
  }

  function SumSizes(bs: seq<Bytes>): nat { if bs == [] then 0 else |bs[0]| + SumSizes(bs[1..]) }

  function StringSizes(ss: seq<StringEntry>): nat { if ss == [] then 0 else |ss[0].blob| + 4 + StringSizes(ss[1..]) }

  function ByteSize(m: DeviceManifest): nat {
    |m.device| + |m.bos| + |m.qualifier| + |m.otherSpeed| + |LangIdTable(m)| + SumSizes(m.configs) + StringSizes(m.strings)
  }

  predicate DeviceOk(d: Bytes, configCount: nat) {
    |d| >= 18 && d[0] == |d| && d[1] == DESC_DEVICE && d[17] != 0 && configCount == d[17]
  }

  predicate ConfigOk(c: Bytes) { |c| >= 9 && c[1] == DESC_CONFIGURATION && Rd16(c[2..4]) == |c| && WellWalked(c) }

  predicate SpeedOk(speed: byte, d: Bytes, bos: Bytes)
    requires |d| >= 18
  {
    if SPEED_SUPER <= speed <= SPEED_SUPER_PLUS_BY2 then d[7] == 9 && Rd16(d[2..4]) >= 0x300 && bos != []
    else if speed == SPEED_HIGH then d[7] == 64
    else if speed == SPEED_FULL || speed == SPEED_LOW then d[7] in {8, 16, 32, 64}
    else false
  }

  predicate BosOk(b: Bytes) { b == [] || (|b| >= 5 && b[1] == DESC_BOS && Rd16(b[2..4]) == |b|) }

  predicate LangsOk(m: DeviceManifest) {
    m.langs.Some? ==> |LangIdTable(m)| >= 4 && LangIdTable(m)[0] == |LangIdTable(m)|
  }

  /** A string names a language of the table. */
  predicate StringOk(langs: Option<seq<u16>>, s: StringEntry) {
    |s.blob| >= 2 && s.blob[1] == DESC_STRING && s.blob[0] == |s.blob| && langs.Some? && s.langId in langs.value
  }

  /** validate() */
  predicate Valid(m: DeviceManifest) {
    && DeviceOk(m.device, |m.configs|)
    && (forall i :: 0 <= i < |m.configs| ==> ConfigOk(m.configs[i]))
    && SpeedOk(m.speed, m.device, m.bos) && BosOk(m.bos) && LangsOk(m)
    && (forall i :: 0 <= i < |m.strings| ==> StringOk(m.langs, m.strings[i]))
    && ByteSize(m) <= MANIFEST_BYTES_MAX
  }
}
