/** airusb/protocol/ManifestCodec.cpp: a manifest on the wire, and back. */
module ManifestCodec {
  import opened Wire
  import Status
  import opened Codec
  import opened Tlvs
  import opened Manifests

  const HEADER := 32
  const MAX_CONFIGS := 8
  const MAX_STRINGS := 128
  const MAX_LANGS := 16
  const HASH_LEN := 32

  const TLV_HASH: u16 := 0x07
  const TLV_DEVICE: u16 := 0x0A
  const TLV_CONFIG: u16 := 0x0B
  const TLV_BOS: u16 := 0x0C
  const TLV_STRING: u16 := 0x0D
  const TLV_LANGS: u16 := 0x0E
  const TLV_QUALIFIER: u16 := 0x0F
  const TLV_OTHER_SPEED: u16 := 0x10

  /** Every string index a descriptor may name, in the order the encoder asks for them. */
  const INDICES: seq<byte> := AllIndices(255)

  function AllIndices(n: nat): (r: seq<byte>)
    requires n <= 255
    ensures |r| == n && forall i :: 0 <= i < n ==> r[i] == i + 1
  {
    seq(n, (i: int) requires 0 <= i < n => i + 1)
  }

  // ---------------------------------------------------------------- encode

  /** The strings of one language, over the indices `idxs`. */
  function EntriesOf(m: DeviceManifest, lang: u16, idxs: seq<byte>): seq<StringEntry> {
    if idxs == [] then []
    else
      var s := StringDescriptor(m, idxs[0], lang);
      (if s == [] then [] else [StringEntry(idxs[0], lang, s)]) + EntriesOf(m, lang, idxs[1..])
  }

  function EntriesFor(m: DeviceManifest, langs: seq<u16>): seq<StringEntry> {
    if langs == [] then [] else EntriesOf(m, langs[0], INDICES) + EntriesFor(m, langs[1..])
  }

  function LangsOf(m: DeviceManifest): seq<u16> { if m.langs.None? then [] else m.langs.value }

  function StringTlv(s: StringEntry): TlvView {
    TlvView(TLV_STRING, [s.index] + Le16(s.langId) + Le16(|s.blob| % 0x1_0000) + s.blob)
  }

  function ConfigTlvs(cs: seq<Bytes>): (ts: seq<TlvView>)
    ensures |ts| == |cs|
  {
    if cs == [] then [] else [TlvView(TLV_CONFIG, cs[0])] + ConfigTlvs(cs[1..])
  }

  function StringTlvs(ss: seq<StringEntry>): (ts: seq<TlvView>)
    ensures |ts| == |ss|
  {
    if ss == [] then [] else [StringTlv(ss[0])] + StringTlvs(ss[1..])
  }

  function OptionalTlv(typ: u16, blob: Bytes): seq<TlvView> { if blob == [] then [] else [TlvView(typ, blob)] }

  /** The blob sections ahead of the strings. */
  function FixedSections(m: DeviceManifest): seq<TlvView> {
    [TlvView(TLV_DEVICE, m.device)] + ConfigTlvs(m.configs) + OptionalTlv(TLV_BOS, m.bos) + OptionalTlv(TLV_QUALIFIER, m.qualifier)
    + OptionalTlv(TLV_OTHER_SPEED, m.otherSpeed) + OptionalTlv(TLV_LANGS, LangIdTable(m))
  }

  function Sections(m: DeviceManifest): seq<TlvView> { FixedSections(m) + StringTlvs(EntriesFor(m, LangsOf(m))) }

  datatype ManifestHeader = ManifestHeader(
    version: u32, configCount: u32, stringCount: u32, langidCount: u32, speed: u16, dflags: u16, totalBlobBytes: u32, currentConfig: byte)

  /** The 32 header bytes; the last seven are reserved. */
  function HeaderBytesOf(h: ManifestHeader): (b: Bytes)
    ensures |b| == HEADER
  {
    Le32(h.version) + Le32(h.configCount) + Le32(h.stringCount) + Le32(h.langidCount) + Le16(h.speed) + Le16(h.dflags)
    + Le32(h.totalBlobBytes) + ([h.currentConfig] + Zeros(7))
  }

  function HeaderFor(m: DeviceManifest, cur: byte, blobs: nat): ManifestHeader {
    ManifestHeader(1, Trunc32(|m.configs|), Trunc32(|EntriesFor(m, LangsOf(m))|), Trunc32(|LangsOf(m)|), m.speed, 0, Trunc32(blobs), cur)
  }

  datatype Encoded = Encoded(status: u16, bytes: Bytes)

  function Encode(hash: Bytes -> Bytes, m: DeviceManifest, cur: byte): Encoded {
    if !Valid(m) || |m.configs| > MAX_CONFIGS || |LangsOf(m)| > MAX_LANGS || |EntriesFor(m, LangsOf(m))| > MAX_STRINGS
    then Encoded(Status.MANIFEST_INVALID, [])
    else
      var blobs := JoinTlvs(Sections(m));
      if |blobs| > MANIFEST_BYTES_MAX then Encoded(Status.LIMIT_EXCEEDED, [])
      else Encoded(Status.OK, HeaderBytesOf(HeaderFor(m, cur, |blobs|)) + blobs + TlvBytes(TlvView(TLV_HASH, hash(blobs))))
  }

  // ---------------------------------------------------------------- decode

  function ParseManifestHeader(b: Bytes): ManifestHeader
    requires |b| >= HEADER
  {
    ManifestHeader(Rd32(b[..4]), Rd32(b[4..8]), Rd32(b[8..12]), Rd32(b[12..16]), Rd16(b[16..18]), Rd16(b[18..20]), Rd32(b[20..24]), b[24])
  }

  /** The counts a header may declare. */
  function HeaderStatus(h: ManifestHeader): u16 {
    if h.version != 1 then Status.UNSUPPORTED_VERSION
    else if h.configCount == 0 || h.configCount > MAX_CONFIGS || h.stringCount > MAX_STRINGS || h.langidCount > MAX_LANGS then Status.MANIFEST_INVALID
    else if h.totalBlobBytes > MANIFEST_BYTES_MAX then Status.LIMIT_EXCEEDED
    else if h.speed > SPEED_OTHER then Status.MANIFEST_INVALID
    else Status.OK
  }

  /** A manifest under construction. */
  datatype Build = Build(m: DeviceManifest, seenDevice: bool, configs: nat, strings: nat, structureOk: bool)

  function Started(speed: byte): Build { Build(BLANK.(speed := speed), false, 0, 0, true) }

  /** What the callback says of one tagged value, and what it leaves behind. */
  datatype Told = Told(goOn: bool, b: Build)

  function Fault(b: Build): Told { Told(false, b.(structureOk := false)) }

  function ParseLangs(b: Bytes): seq<u16>
    requires |b| % 2 == 0
    decreases |b|
  {
    if b == [] then [] else [Rd16(b[..2])] + ParseLangs(b[2..])
  }

  function AbsorbLangs(h: ManifestHeader, b: Build, v: Bytes): Told {
    if |v| < 2 || (|v| - 2) % 2 != 0 then Fault(b)
    else
      var ids := ParseLangs(v[2..]);
      if |ids| != h.langidCount then Fault(b) else Told(true, b.(m := b.m.(langs := Some(ids))))
  }

  function AbsorbString(h: ManifestHeader, b: Build, v: Bytes): Told {
    if |v| < 5 || |v| != 5 + Rd16(v[3..5]) then Fault(b)
    else
      var counted := b.(strings := b.strings + 1);
      if counted.strings > h.stringCount then Fault(counted)
      else Told(true, counted.(m := b.m.(strings := b.m.strings + [StringEntry(v[0], Rd16(v[1..3]), v[5..])])))
  }

  function AbsorbConfig(h: ManifestHeader, b: Build, v: Bytes): Told {
    var counted := b.(configs := b.configs + 1);
    if counted.configs > h.configCount then Fault(counted)
    else Told(true, counted.(m := b.m.(configs := b.m.configs + [v])))
  }

  /** One tagged value; a fault stops the walk. Unknown ones are ignored. */
  function Absorb(h: ManifestHeader, b: Build, t: TlvView): Told {
    if t.typ == TLV_DEVICE then
      if b.seenDevice || |t.value| < 18 then Fault(b) else Told(true, b.(m := b.m.(device := t.value), seenDevice := true))
    else if t.typ == TLV_CONFIG then AbsorbConfig(h, b, t.value)
    else if t.typ == TLV_BOS then Told(true, b.(m := b.m.(bos := t.value)))
    else if t.typ == TLV_QUALIFIER then Told(true, b.(m := b.m.(qualifier := t.value)))
    else if t.typ == TLV_OTHER_SPEED then Told(true, b.(m := b.m.(otherSpeed := t.value)))
    else if t.typ == TLV_LANGS then AbsorbLangs(h, b, t.value)
    else if t.typ == TLV_STRING then AbsorbString(h, b, t.value)
    else Told(true, b)
  }

  /** forEachTlv over the blob sections: false if a value is cut short or the callback says stop. */
  function Walk(h: ManifestHeader, b: Build, bytes: Bytes): Told
    decreases |bytes|
  {
    if bytes == [] then Told(true, b)
    else
      var f := FirstTlv(bytes);
      if f.None? then Told(false, b)
      else
        var next := Absorb(h, b, f.value.t);
        if !next.goOn then next else Walk(h, next.b, f.value.rest)
  }

  /** The first MANIFEST_HASH of the trailer. */
  function FindHash(bytes: Bytes): Option<Bytes>
    decreases |bytes|
  {
    var f := FirstTlv(bytes);
    if f.None? then None
    else if f.value.t.typ == TLV_HASH then Some(f.value.t.value)
    else FindHash(f.value.rest)
  }

  datatype Decoded = Decoded(status: u16, m: DeviceManifest, header: Option<ManifestHeader>)

  function Refused(st: u16): Decoded { Decoded(st, BLANK, None) }

  /** What the structure flag, the counters, the hash, the core's own rules and the current configuration say of a finished build. */
  function Judge(hash: Bytes -> Bytes, h: ManifestHeader, b: Build, blobs: Bytes, trailer: Bytes): Decoded {
    if !b.structureOk then Refused(Status.MANIFEST_INVALID)
    else if !b.seenDevice || b.configs != h.configCount || b.strings != h.stringCount then Refused(Status.MANIFEST_INVALID)
    else
      var found := FindHash(trailer);
      if found.None? || |found.value| != HASH_LEN || found.value != hash(blobs) || !Valid(b.m) then Refused(Status.MANIFEST_INVALID)
      else if h.currentConfig != 0 && ConfigurationByValue(b.m, h.currentConfig) == [] then Refused(Status.MANIFEST_INVALID)
      else Decoded(Status.OK, b.m, Some(h))
  }

  function DecodeSections(hash: Bytes -> Bytes, h: ManifestHeader, blobs: Bytes, trailer: Bytes): Decoded {
    var w := Walk(h, Started(h.speed % 0x100), blobs);
    if !w.goOn then Refused(Status.MALFORMED_FRAME) else Judge(hash, h, w.b, blobs, trailer)
  }

  function DecodeBody(hash: Bytes -> Bytes, h: ManifestHeader, tlvs: Bytes): Decoded {
    if |tlvs| < h.totalBlobBytes then Refused(Status.MALFORMED_FRAME)
    else DecodeSections(hash, h, tlvs[..h.totalBlobBytes], tlvs[h.totalBlobBytes..])
  }

  function Decode(hash: Bytes -> Bytes, body: Bytes): Decoded {
    if |body| < HEADER then Refused(Status.MALFORMED_FRAME)
    else
      var h := ParseManifestHeader(body);
      if HeaderStatus(h) != Status.OK then Refused(HeaderStatus(h)) else DecodeBody(hash, h, body[HEADER..])
  }

  // ---------------------------------------------------------------- the loops

  method EncodeManifest(hash: Bytes -> Bytes, m: DeviceManifest, cur: byte) returns (st: u16, out: Bytes)
    ensures Encoded(st, out) == Encode(hash, m, cur)
  {
    out := [];
    if !Valid(m) { return Status.MANIFEST_INVALID, out; }
    if |m.configs| == 0 || |m.configs| > MAX_CONFIGS { return Status.MANIFEST_INVALID, out; }
    var blobs := AppendFixed(m);
    var langs := LangsOf(m);
    if |langs| > MAX_LANGS { return Status.MANIFEST_INVALID, out; }
    var ok, strings, count := AppendStrings(m, langs);
    if !ok { return Status.MANIFEST_INVALID, out; }
    JoinConcat(FixedSections(m), StringTlvs(EntriesFor(m, langs)));
    blobs := blobs + strings;
    if |blobs| > MANIFEST_BYTES_MAX { return Status.LIMIT_EXCEEDED, out; }
    out := HeaderBytesOf(HeaderFor(m, cur, |blobs|)) + blobs + TlvBytes(TlvView(TLV_HASH, hash(blobs)));
    st := Status.OK;
  }

  lemma JoinSnoc(ts: seq<TlvView>, t: TlvView)
    ensures JoinTlvs(ts + [t]) == JoinTlvs(ts) + TlvBytes(t)
  {
    JoinConcat(ts, [t]);
    assert [t][1..] == [] && JoinTlvs([t]) == TlvBytes(t) + [] == TlvBytes(t);
  }

  /** Append one blob section unless it is empty. */
  method AppendOptional(blobs: Bytes, typ: u16, blob: Bytes, ghost ts: seq<TlvView>) returns (out: Bytes)
    requires blobs == JoinTlvs(ts)
    ensures out == JoinTlvs(ts + OptionalTlv(typ, blob))
  {
    out := blobs;
    if blob != [] {
      JoinSnoc(ts, TlvView(typ, blob));
      out := out + TlvBytes(TlvView(typ, blob));
    } else {
      assert ts + [] == ts;
    }
  }

  method AppendFixed(m: DeviceManifest) returns (blobs: Bytes)
    ensures blobs == JoinTlvs(FixedSections(m))
  {
    ghost var ts := [TlvView(TLV_DEVICE, m.device)];
    blobs := TlvBytes(TlvView(TLV_DEVICE, m.device));
    JoinSnoc([], ts[0]);
    assert [] + [ts[0]] == ts;
    for i := 0 to |m.configs|
      invariant blobs == JoinTlvs(ts) && ts + ConfigTlvs(m.configs[i..]) == [TlvView(TLV_DEVICE, m.device)] + ConfigTlvs(m.configs)
    {
      JoinSnoc(ts, TlvView(TLV_CONFIG, m.configs[i]));
      blobs := blobs + TlvBytes(TlvView(TLV_CONFIG, m.configs[i]));
      ts := ts + [TlvView(TLV_CONFIG, m.configs[i])];
      assert m.configs[i..][1..] == m.configs[i + 1..];
    }
    assert ts == [TlvView(TLV_DEVICE, m.device)] + ConfigTlvs(m.configs);
    blobs := AppendOptional(blobs, TLV_BOS, m.bos, ts);
    ts := ts + OptionalTlv(TLV_BOS, m.bos);
    blobs := AppendOptional(blobs, TLV_QUALIFIER, m.qualifier, ts);
    ts := ts + OptionalTlv(TLV_QUALIFIER, m.qualifier);
    blobs := AppendOptional(blobs, TLV_OTHER_SPEED, m.otherSpeed, ts);
    ts := ts + OptionalTlv(TLV_OTHER_SPEED, m.otherSpeed);
    blobs := AppendOptional(blobs, TLV_LANGS, LangIdTable(m), ts);
  }

  /** Every index of every language; more than the limit is refused as soon as it is passed. */
  method AppendStrings(m: DeviceManifest, langs: seq<u16>) returns (ok: bool, blobs: Bytes, count: nat)
    ensures ok == (|EntriesFor(m, langs)| <= MAX_STRINGS)
    ensures ok ==> blobs == JoinTlvs(StringTlvs(EntriesFor(m, langs))) && count == |EntriesFor(m, langs)|
  {
    var entries, left := [], langs;
    while left != []
      invariant entries + EntriesFor(m, left) == EntriesFor(m, langs) && |entries| <= MAX_STRINGS
      decreases |left|
    {
      var fits, more := CollectLanguage(m, left[0], INDICES, MAX_STRINGS - |entries|);
      Regrouped(entries, EntriesOf(m, left[0], INDICES), EntriesFor(m, left[1..]));
      if !fits { return false, [], 0; }
      entries, left := entries + more, left[1..];
    }
    assert entries == EntriesFor(m, langs);
    ok, blobs, count := true, JoinTlvs(StringTlvs(entries)), |entries|;
  }

  lemma EntriesStep(m: DeviceManifest, lang: u16, idxs: seq<byte>)
    requires idxs != []
    ensures var s, rest := StringDescriptor(m, idxs[0], lang), EntriesOf(m, lang, idxs[1..]);
            EntriesOf(m, lang, idxs) == if s == [] then rest else [StringEntry(idxs[0], lang, s)] + rest
  {}

  /** One language's strings, if there are no more than `room` of them. */
  method CollectLanguage(m: DeviceManifest, lang: u16, idxs: seq<byte>, room: nat) returns (fits: bool, out: seq<StringEntry>)
    ensures fits == (|EntriesOf(m, lang, idxs)| <= room)
    ensures fits ==> out == EntriesOf(m, lang, idxs)
  {
    out := [];
    var left := idxs;
    while left != []
      invariant out + EntriesOf(m, lang, left) == EntriesOf(m, lang, idxs) && |out| <= room
      decreases |left|
    {
      var s := FindString(m, left[0], lang);
      EntriesStep(m, lang, left);
      if s != [] {
        Regrouped(out, [StringEntry(left[0], lang, s)], EntriesOf(m, lang, left[1..]));
        if |out| + 1 > room { return false, out; }
        out := out + [StringEntry(left[0], lang, s)];
      }
      left := left[1..];
    }
    fits := true;
  }

  method DecodeManifest(hash: Bytes -> Bytes, body: Bytes) returns (r: Decoded)
    ensures r == Decode(hash, body)
  {
    if |body| < HEADER { return Refused(Status.MALFORMED_FRAME); }
    var h := ParseManifestHeader(body);
    if HeaderStatus(h) != Status.OK { return Refused(HeaderStatus(h)); }
    var tlvs := body[HEADER..];
    if |tlvs| < h.totalBlobBytes { return Refused(Status.MALFORMED_FRAME); }
    var blobs, trailer := tlvs[..h.totalBlobBytes], tlvs[h.totalBlobBytes..];
    var walked, b := WalkSections(h, Started(h.speed % 0x100), blobs);
    if !walked { return Refused(Status.MALFORMED_FRAME); }
    r := Judge(hash, h, b, blobs, trailer);
  }

  method WalkSections(h: ManifestHeader, start: Build, bytes: Bytes) returns (walked: bool, b: Build)
    ensures Told(walked, b) == Walk(h, start, bytes)
  {
    b := start;
    var left := bytes;
    while left != []
      invariant Walk(h, b, left) == Walk(h, start, bytes)
      decreases |left|
    {
      var f := FirstTlv(left);
      if f.None? { return false, b; }
      var next := Absorb(h, b, f.value.t);
      b, left := next.b, f.value.rest;
      if !next.goOn { return false, b; }
    }
    walked := true;
  }

  /** A manifest is encoded exactly when it is valid, has at most 8 configurations, 16 languages and 128 strings, and its sections fit 256 KiB. */
  lemma EncodesExactly(hash: Bytes -> Bytes, m: DeviceManifest, cur: byte)
    ensures Encode(hash, m, cur).status == Status.OK <==>
            && Valid(m) && |m.configs| <= 8 && |LangsOf(m)| <= 16 && |EntriesFor(m, LangsOf(m))| <= 128 && |JoinTlvs(Sections(m))| <= 262144
  {}

  /** The counts of a header are bounded by the same figures before anything is read by them. */
  lemma HeaderBoundsExactly(h: ManifestHeader)
    ensures HeaderStatus(h) == Status.OK <==>
            && h.version == 1 && 1 <= h.configCount <= 8 && h.stringCount <= 128 && h.langidCount <= 16 && h.totalBlobBytes <= 262144 && h.speed <= 7
  {}
}
