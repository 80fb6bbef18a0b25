/** A manifest that was encoded decodes to one that answers every lookup the same way. */
module ManifestRoundTrip {
  import opened Wire
  import Status
  import opened Codec
  import opened Tlvs
  import opened Manifests
  import opened ManifestCodec

  // ---------------------------------------------------------------- walking what was joined

  function AbsorbAll(h: ManifestHeader, b: Build, ts: seq<TlvView>): Told
    decreases |ts|
  {
    if ts == [] then Told(true, b)
    else
      var next := Absorb(h, b, ts[0]);
      if !next.goOn then next else AbsorbAll(h, next.b, ts[1..])
  }

  predicate AllFit(ts: seq<TlvView>) { forall i :: 0 <= i < |ts| ==> FitsTlv(ts[i]) }

  lemma {:induction false} WalkJoined(h: ManifestHeader, b: Build, ts: seq<TlvView>)
    requires AllFit(ts)
    ensures Walk(h, b, JoinTlvs(ts)) == AbsorbAll(h, b, ts)
    decreases |ts|
  {
    if ts != [] {
      FirstTlvReads(ts[0], JoinTlvs(ts[1..]));
      var next := Absorb(h, b, ts[0]);
      if next.goOn { WalkJoined(h, next.b, ts[1..]); }
    }
  }

  lemma {:induction false} AbsorbConcat(h: ManifestHeader, b: Build, xs: seq<TlvView>, ys: seq<TlvView>)
    requires AbsorbAll(h, b, xs).goOn
    ensures AbsorbAll(h, b, xs + ys) == AbsorbAll(h, AbsorbAll(h, b, xs).b, ys)
    decreases |xs|
  {
    if xs == [] {
      assert xs + ys == ys;
    } else {
      assert (xs + ys)[1..] == xs[1..] + ys;
      AbsorbConcat(h, Absorb(h, b, xs[0]).b, xs[1..], ys);
    }
  }

  lemma AbsorbOne(h: ManifestHeader, b: Build, t: TlvView)
    ensures AbsorbAll(h, b, [t]) == Absorb(h, b, t)
  {
    assert [t][1..] == [];
  }

  lemma {:induction false} AbsorbConfigs(h: ManifestHeader, b: Build, cs: seq<Bytes>)
    requires b.configs + |cs| <= h.configCount
    ensures AbsorbAll(h, b, ConfigTlvs(cs)) == Told(true, b.(m := b.m.(configs := b.m.configs + cs), configs := b.configs + |cs|))
    decreases |cs|
  {
    if cs == [] {
      assert b.m.configs + cs == b.m.configs;
    } else {
      var next := b.(m := b.m.(configs := b.m.configs + [cs[0]]), configs := b.configs + 1);
      assert Absorb(h, b, TlvView(TLV_CONFIG, cs[0])) == Told(true, next);
      AbsorbConfigs(h, next, cs[1..]);
      assert b.m.configs + [cs[0]] + cs[1..] == b.m.configs + cs;
    }
  }

  /** A string entry short enough for its TLV. */
  predicate StringFits(s: StringEntry) { |s.blob| + 5 < 0x1_0000 }

  lemma AbsorbStringTlv(h: ManifestHeader, b: Build, s: StringEntry)
    requires StringFits(s) && b.strings + 1 <= h.stringCount
    ensures Absorb(h, b, StringTlv(s)) == Told(true, b.(strings := b.strings + 1, m := b.m.(strings := b.m.strings + [s])))
  {
    var v := StringTlv(s).value;
    assert v[1..3] == Le16(s.langId) && v[3..5] == Le16(|s.blob|) && v[5..] == s.blob;
    Back16(s.langId);
    Back16(|s.blob|);
  }

  lemma {:induction false} AbsorbStrings(h: ManifestHeader, b: Build, ss: seq<StringEntry>)
    requires b.strings + |ss| <= h.stringCount && forall i :: 0 <= i < |ss| ==> StringFits(ss[i])
    ensures AbsorbAll(h, b, StringTlvs(ss)) == Told(true, b.(strings := b.strings + |ss|, m := b.m.(strings := b.m.strings + ss)))
    decreases |ss|
  {
    if ss == [] {
      assert b.m.strings + ss == b.m.strings;
    } else {
      AbsorbStringTlv(h, b, ss[0]);
      AbsorbStrings(h, b.(strings := b.strings + 1, m := b.m.(strings := b.m.strings + [ss[0]])), ss[1..]);
      assert b.m.strings + [ss[0]] + ss[1..] == b.m.strings + ss;
    }
  }

  lemma {:induction false} LangsRead(ids: seq<u16>)
    ensures ParseLangs(LangBytes(ids)) == ids
  {
    if ids != [] {
      var b := LangBytes(ids);
      assert b[..2] == Le16(ids[0]) && b[2..] == LangBytes(ids[1..]);
      Back16(ids[0]);
      LangsRead(ids[1..]);
    }
  }

  lemma AbsorbLangTable(h: ManifestHeader, b: Build, m: DeviceManifest)
    requires h.langidCount == |LangsOf(m)| && b.m.langs.None?
    ensures AbsorbAll(h, b, OptionalTlv(TLV_LANGS, LangIdTable(m))) == Told(true, b.(m := b.m.(langs := m.langs)))
  {
    if m.langs.Some? {
      var ids := m.langs.value;
      AbsorbOne(h, b, TlvView(TLV_LANGS, LangIdTable(m)));
      assert LangIdTable(m)[2..] == LangBytes(ids);
      LangsRead(ids);
    } else {
      assert b.(m := b.m.(langs := m.langs)) == b;
    }
  }

  // ---------------------------------------------------------------- the whole walk

  /** What the wire keeps of a manifest: everything, with the strings as the encoder listed them. */
  function Rebuilt(m: DeviceManifest): DeviceManifest { m.(strings := EntriesFor(m, LangsOf(m))) }

  lemma AbsorbBlob(h: ManifestHeader, b: Build, typ: u16, blob: Bytes, next: Build)
    requires typ == TLV_BOS || typ == TLV_QUALIFIER || typ == TLV_OTHER_SPEED
    requires next == if typ == TLV_BOS then b.(m := b.m.(bos := blob))
                     else if typ == TLV_QUALIFIER then b.(m := b.m.(qualifier := blob))
                     else b.(m := b.m.(otherSpeed := blob))
    requires blob == [] ==> next == b
    ensures AbsorbAll(h, b, OptionalTlv(typ, blob)) == Told(true, next)
  {
    if blob != [] { AbsorbOne(h, b, TlvView(typ, blob)); }
  }

  /** The device, the configurations and the optional blobs, in the order they are written. */
  lemma AbsorbFixed(h: ManifestHeader, m: DeviceManifest)
    requires |m.device| >= 18 && h.configCount == |m.configs| && h.langidCount == |LangsOf(m)|
    ensures AbsorbAll(h, Started(m.speed), FixedSections(m))
         == Told(true, Build(m.(strings := []), true, |m.configs|, 0, true))
  {
    var b0 := Started(m.speed);
    var d := [TlvView(TLV_DEVICE, m.device)];
    var b1 := b0.(m := b0.m.(device := m.device), seenDevice := true);
    AbsorbOne(h, b0, d[0]);
    var cs := ConfigTlvs(m.configs);
    var b2 := b1.(m := b1.m.(configs := m.configs), configs := |m.configs|);
    AbsorbConfigs(h, b1, m.configs);
    assert [] + m.configs == m.configs;
    AbsorbConcat(h, b0, d, cs);
    var o1, o2, o3 := OptionalTlv(TLV_BOS, m.bos), OptionalTlv(TLV_QUALIFIER, m.qualifier), OptionalTlv(TLV_OTHER_SPEED, m.otherSpeed);
    var b3 := b2.(m := b2.m.(bos := m.bos));
    AbsorbBlob(h, b2, TLV_BOS, m.bos, b3);
    AbsorbConcat(h, b0, d + cs, o1);
    var b4 := b3.(m := b3.m.(qualifier := m.qualifier));
    AbsorbBlob(h, b3, TLV_QUALIFIER, m.qualifier, b4);
    AbsorbConcat(h, b0, d + cs + o1, o2);
    var b5 := b4.(m := b4.m.(otherSpeed := m.otherSpeed));
    AbsorbBlob(h, b4, TLV_OTHER_SPEED, m.otherSpeed, b5);
    AbsorbConcat(h, b0, d + cs + o1 + o2, o3);
    AbsorbLangTable(h, b5, m);
    AbsorbConcat(h, b0, d + cs + o1 + o2 + o3, OptionalTlv(TLV_LANGS, LangIdTable(m)));
  }

  lemma AbsorbSections(h: ManifestHeader, m: DeviceManifest)
    requires |m.device| >= 18 && h.configCount == |m.configs| && h.langidCount == |LangsOf(m)|
    requires var es := EntriesFor(m, LangsOf(m)); h.stringCount == |es| && forall i :: 0 <= i < |es| ==> StringFits(es[i])
    ensures AbsorbAll(h, Started(m.speed), Sections(m))
         == Told(true, Build(Rebuilt(m), true, |m.configs|, |EntriesFor(m, LangsOf(m))|, true))
  {
    var b0, es := Started(m.speed), EntriesFor(m, LangsOf(m));
    AbsorbFixed(h, m);
    AbsorbConcat(h, b0, FixedSections(m), StringTlvs(es));
    AbsorbStrings(h, Build(m.(strings := []), true, |m.configs|, 0, true), es);
    assert [] + es == es;
  }

  // ---------------------------------------------------------------- the strings answer alike

  lemma {:induction false} StringNamedConcat(a: seq<StringEntry>, b: seq<StringEntry>, index: byte, lang: u16)
    requires forall i :: 0 <= i < |a| ==> a[i].blob != []
    ensures StringNamed(a + b, index, lang) == if StringNamed(a, index, lang) != [] then StringNamed(a, index, lang) else StringNamed(b, index, lang)
    decreases |a|
  {
    if a == [] {
      assert a + b == b;
    } else {
      assert (a + b)[1..] == a[1..] + b;
      StringNamedConcat(a[1..], b, index, lang);
    }
  }

  /** Every listed entry is the manifest's own answer for its index and language. */
  ghost predicate Listed(m: DeviceManifest, es: seq<StringEntry>, langs: seq<u16>) {
    forall i :: 0 <= i < |es| ==> ListedOne(m, es[i], langs)
  }

  ghost predicate ListedOne(m: DeviceManifest, e: StringEntry, langs: seq<u16>) {
    e.index != 0 && e.langId in langs && e.blob != [] && e.blob == StringNamed(m.strings, e.index, e.langId)
  }

  lemma {:induction false} EntriesOfListed(m: DeviceManifest, lang: u16, idxs: seq<byte>)
    requires forall i :: 0 <= i < |idxs| ==> idxs[i] != 0
    ensures Listed(m, EntriesOf(m, lang, idxs), [lang])
    decreases |idxs|
  {
    if idxs != [] {
      EntriesStep(m, lang, idxs);
      EntriesOfListed(m, lang, idxs[1..]);
    }
  }

  lemma {:induction false} EntriesOfAnswer(m: DeviceManifest, lang: u16, idxs: seq<byte>, index: byte, l: u16)
    requires forall i :: 0 <= i < |idxs| ==> idxs[i] != 0
    ensures StringNamed(EntriesOf(m, lang, idxs), index, l)
         == if l == lang && index in idxs then StringNamed(m.strings, index, l) else []
    decreases |idxs|
  {
    if idxs != [] {
      EntriesStep(m, lang, idxs);
      EntriesOfAnswer(m, lang, idxs[1..], index, l);
      var s, rest := StringDescriptor(m, idxs[0], lang), EntriesOf(m, lang, idxs[1..]);
      if s != [] {
        var e := StringEntry(idxs[0], lang, s);
        assert ([e] + rest)[0] == e && ([e] + rest)[1..] == rest;
      }
    }
  }

  lemma IndicesAreAll(index: byte)
    ensures index in INDICES <==> index != 0
  {
    if index != 0 { assert INDICES[index - 1] == index; }
  }

  lemma {:induction false} EntriesForAnswer(m: DeviceManifest, langs: seq<u16>, index: byte, l: u16)
    requires index != 0
    ensures StringNamed(EntriesFor(m, langs), index, l) == if l in langs then StringNamed(m.strings, index, l) else []
    ensures Listed(m, EntriesFor(m, langs), langs)
    decreases |langs|
  {
    if langs != [] {
      var a, b := EntriesOf(m, langs[0], INDICES), EntriesFor(m, langs[1..]);
      EntriesOfListed(m, langs[0], INDICES);
      EntriesForAnswer(m, langs[1..], index, l);
      EntriesOfAnswer(m, langs[0], INDICES, index, l);
      IndicesAreAll(index);
      ListedConcat(m, a, b, langs);
      StringNamedConcat(a, b, index, l);
    }
  }

  lemma ListedConcat(m: DeviceManifest, a: seq<StringEntry>, b: seq<StringEntry>, langs: seq<u16>)
    requires langs != [] && Listed(m, a, [langs[0]]) && Listed(m, b, langs[1..])
    ensures Listed(m, a + b, langs) && forall i :: 0 <= i < |a| ==> a[i].blob != []
  {
    forall i | 0 <= i < |a + b| ensures ListedOne(m, (a + b)[i], langs) {
      if i < |a| { assert ListedOne(m, a[i], [langs[0]]); } else { assert ListedOne(m, b[i - |a|], langs[1..]); }
    }
    forall i | 0 <= i < |a| ensures a[i].blob != [] { assert ListedOne(m, a[i], [langs[0]]); }
  }

  /** A lookup that finds something finds an entry of the manifest. */
  lemma {:induction false} StringNamedFrom(strings: seq<StringEntry>, index: byte, lang: u16)
    requires StringNamed(strings, index, lang) != []
    ensures exists i :: 0 <= i < |strings| && strings[i].langId == lang && strings[i].blob == StringNamed(strings, index, lang)
    decreases |strings|
  {
    if strings[0].index == index && strings[0].langId == lang {
    } else {
      StringNamedFrom(strings[1..], index, lang);
      var i :| 0 <= i < |strings[1..]| && strings[1..][i].langId == lang && strings[1..][i].blob == StringNamed(strings[1..], index, lang);
      assert strings[i + 1] == strings[1..][i];
    }
  }

  lemma {:induction false} UnknownLanguage(strings: seq<StringEntry>, langs: Option<seq<u16>>, index: byte, lang: u16)
    requires forall i :: 0 <= i < |strings| ==> StringOk(langs, strings[i])
    requires langs.None? || lang !in langs.value
    ensures StringNamed(strings, index, lang) == []
    decreases |strings|
  {
    if strings != [] { UnknownLanguage(strings[1..], langs, index, lang); }
  }

  /** Same bytes for every descriptor, configuration and string, whatever the index and language. */
  ghost predicate SameAnswers(a: DeviceManifest, b: DeviceManifest) {
    && a.speed == b.speed && a.device == b.device && a.bos == b.bos && a.qualifier == b.qualifier && a.otherSpeed == b.otherSpeed
    && (forall i: byte :: ConfigurationByIndex(a, i) == ConfigurationByIndex(b, i))
    && (forall v: byte :: ConfigurationByValue(a, v) == ConfigurationByValue(b, v))
    && (forall i: byte, l: u16 :: StringDescriptor(a, i, l) == StringDescriptor(b, i, l))
  }

  lemma RebuiltAnswersAlike(m: DeviceManifest)
    requires Valid(m)
    ensures SameAnswers(Rebuilt(m), m)
  {
    forall i: byte, l: u16 ensures StringDescriptor(Rebuilt(m), i, l) == StringDescriptor(m, i, l) {
      if i != 0 {
        EntriesForAnswer(m, LangsOf(m), i, l);
        if l !in LangsOf(m) { UnknownLanguage(m.strings, m.langs, i, l); }
      }
    }
  }

  // ---------------------------------------------------------------- and are valid again

  lemma ListedAreValid(m: DeviceManifest)
    requires Valid(m)
    ensures forall i :: 0 <= i < |EntriesFor(m, LangsOf(m))| ==>
              StringOk(m.langs, EntriesFor(m, LangsOf(m))[i]) && StringFits(EntriesFor(m, LangsOf(m))[i])
  {
    var es := EntriesFor(m, LangsOf(m));
    EntriesForAnswer(m, LangsOf(m), 1, 0);
    forall i | 0 <= i < |es| ensures StringOk(m.langs, es[i]) && StringFits(es[i]) {
      assert ListedOne(m, es[i], LangsOf(m));
      StringNamedFrom(m.strings, es[i].index, es[i].langId);
      var j :| 0 <= j < |m.strings| && m.strings[j].langId == es[i].langId && m.strings[j].blob == es[i].blob;
      assert StringOk(m.langs, m.strings[j]);
    }
  }

  lemma {:induction false} ConfigsTakeRoom(cs: seq<Bytes>)
    ensures SumSizes(cs) <= |JoinTlvs(ConfigTlvs(cs))|
  {
    if cs != [] { ConfigsTakeRoom(cs[1..]); assert ConfigTlvs(cs)[1..] == ConfigTlvs(cs[1..]); }
  }

  lemma {:induction false} StringsTakeRoom(ss: seq<StringEntry>)
    ensures StringSizes(ss) <= |JoinTlvs(StringTlvs(ss))|
  {
    if ss != [] { StringsTakeRoom(ss[1..]); assert StringTlvs(ss)[1..] == StringTlvs(ss[1..]); }
  }

  lemma OptionalTakesRoom(typ: u16, blob: Bytes)
    ensures |blob| <= |JoinTlvs(OptionalTlv(typ, blob))|
  {
    if blob != [] { JoinSnoc([], TlvView(typ, blob)); assert [] + [TlvView(typ, blob)] == [TlvView(typ, blob)]; }
  }

  /** What was decoded is no larger than the bytes it came in. */
  lemma RebuiltFits(m: DeviceManifest)
    ensures ByteSize(Rebuilt(m)) <= |JoinTlvs(Sections(m))|
  {
    var d, cs := [TlvView(TLV_DEVICE, m.device)], ConfigTlvs(m.configs);
    var o1, o2, o3 := OptionalTlv(TLV_BOS, m.bos), OptionalTlv(TLV_QUALIFIER, m.qualifier), OptionalTlv(TLV_OTHER_SPEED, m.otherSpeed);
    var o4, ss := OptionalTlv(TLV_LANGS, LangIdTable(m)), EntriesFor(m, LangsOf(m));
    JoinSnoc([], d[0]);
    assert [] + d == d;
    ConfigsTakeRoom(m.configs);
    StringsTakeRoom(ss);
    OptionalTakesRoom(TLV_BOS, m.bos);
    OptionalTakesRoom(TLV_QUALIFIER, m.qualifier);
    OptionalTakesRoom(TLV_OTHER_SPEED, m.otherSpeed);
    OptionalTakesRoom(TLV_LANGS, LangIdTable(m));
    JoinConcat(d, cs);
    JoinConcat(d + cs, o1);
    JoinConcat(d + cs + o1, o2);
    JoinConcat(d + cs + o1 + o2, o3);
    JoinConcat(d + cs + o1 + o2 + o3, o4);
    JoinConcat(FixedSections(m), StringTlvs(ss));
  }

  lemma RebuiltIsValid(m: DeviceManifest)
    requires Valid(m) && |JoinTlvs(Sections(m))| <= MANIFEST_BYTES_MAX
    ensures Valid(Rebuilt(m))
  {
    ListedAreValid(m);
    RebuiltFits(m);
  }

  // ---------------------------------------------------------------- the round trip

  lemma {:induction false} ConfigTlvsFit(cs: seq<Bytes>)
    requires forall i :: 0 <= i < |cs| ==> ConfigOk(cs[i])
    ensures AllFit(ConfigTlvs(cs))
  {
    if cs != [] { ConfigTlvsFit(cs[1..]); }
  }

  lemma {:induction false} StringTlvsFit(ss: seq<StringEntry>)
    requires forall i :: 0 <= i < |ss| ==> StringFits(ss[i])
    ensures AllFit(StringTlvs(ss))
  {
    if ss != [] { StringTlvsFit(ss[1..]); }
  }

  /** Only the two blobs that no rule looks at can be too long for a TLV. */
  predicate Carriable(m: DeviceManifest) { |m.qualifier| < 0x1_0000 && |m.otherSpeed| < 0x1_0000 }

  lemma SectionsFit(m: DeviceManifest)
    requires Valid(m) && Carriable(m)
    ensures AllFit(Sections(m))
  {
    ListedAreValid(m);
    ConfigTlvsFit(m.configs);
    StringTlvsFit(EntriesFor(m, LangsOf(m)));
    assert AllFit(FixedSections(m));
  }

  lemma ManifestHeaderSlices(f0: Bytes, f1: Bytes, f2: Bytes, f3: Bytes, f4: Bytes, f5: Bytes, f6: Bytes, f7: Bytes, rest: Bytes)
    requires |f0| == 4 && |f1| == 4 && |f2| == 4 && |f3| == 4 && |f4| == 2 && |f5| == 2 && |f6| == 4 && |f7| == 8
    ensures var b := f0 + f1 + f2 + f3 + f4 + f5 + f6 + f7 + rest;
            && b[..4] == f0 && b[4..8] == f1 && b[8..12] == f2 && b[12..16] == f3 && b[16..18] == f4 && b[18..20] == f5 && b[20..24] == f6
            && b[24] == f7[0] && b[32..] == rest
  {}

  lemma HeaderReads(h: ManifestHeader, rest: Bytes)
    ensures var b := HeaderBytesOf(h) + rest; ParseManifestHeader(b) == h && b[HEADER..] == rest
  {
    ManifestHeaderSlices(Le32(h.version), Le32(h.configCount), Le32(h.stringCount), Le32(h.langidCount), Le16(h.speed), Le16(h.dflags),
      Le32(h.totalBlobBytes), [h.currentConfig] + Zeros(7), rest);
    Back32(h.version);
    Back32(h.configCount);
    Back32(h.stringCount);
    Back32(h.langidCount);
    Back16(h.speed);
    Back16(h.dflags);
    Back32(h.totalBlobBytes);
  }

  /** The header's counts are the manifest's own. */
  ghost predicate Counts(h: ManifestHeader, m: DeviceManifest, blobs: nat) {
    && h.version == 1 && h.configCount == |m.configs| && h.stringCount == |EntriesFor(m, LangsOf(m))| && h.langidCount == |LangsOf(m)|
    && h.speed == m.speed && h.totalBlobBytes == blobs
  }

  lemma SmallTrunc(n: nat)
    requires n < 0x1_0000_0000
    ensures Trunc32(n) == n
  {}

  lemma SpeedInRange(m: DeviceManifest)
    requires Valid(m)
    ensures m.speed <= SPEED_OTHER && |m.configs| > 0 && |m.device| >= 18
  {}

  lemma HeaderCounts(m: DeviceManifest, cur: byte, blobs: nat)
    requires m.speed <= SPEED_OTHER && 0 < |m.configs| <= MAX_CONFIGS && |LangsOf(m)| <= MAX_LANGS
    requires |EntriesFor(m, LangsOf(m))| <= MAX_STRINGS && blobs <= MANIFEST_BYTES_MAX
    ensures var h := HeaderFor(m, cur, blobs); Counts(h, m, blobs) && h.currentConfig == cur && HeaderStatus(h) == Status.OK
  {
    SmallTrunc(|m.configs|);
    SmallTrunc(|EntriesFor(m, LangsOf(m))|);
    SmallTrunc(|LangsOf(m)|);
    SmallTrunc(blobs);
  }

  lemma SectionsWalk(h: ManifestHeader, m: DeviceManifest, blobs: nat)
    requires Valid(m) && Carriable(m) && Counts(h, m, blobs)
    ensures Walk(h, Started(m.speed), JoinTlvs(Sections(m)))
         == Told(true, Build(Rebuilt(m), true, |m.configs|, |EntriesFor(m, LangsOf(m))|, true))
  {
    SectionsFit(m);
    ListedAreValid(m);
    WalkJoined(h, Started(m.speed), Sections(m));
    AbsorbSections(h, m);
  }

  lemma HashIsFound(digest: Bytes)
    requires |digest| == HASH_LEN
    ensures FindHash(TlvBytes(TlvView(TLV_HASH, digest))) == Some(digest)
  {
    FirstTlvReads(TlvView(TLV_HASH, digest), []);
    assert TlvBytes(TlvView(TLV_HASH, digest)) + [] == TlvBytes(TlvView(TLV_HASH, digest));
  }

  lemma {:induction false} BodyIsSections(hash: Bytes -> Bytes, h: ManifestHeader, blobs: Bytes, trailer: Bytes)
    requires h.totalBlobBytes == |blobs|
    ensures DecodeBody(hash, h, blobs + trailer) == DecodeSections(hash, h, blobs, trailer)
  {
    var tlvs := blobs + trailer;
    assert tlvs[..|blobs|] == blobs && tlvs[|blobs|..] == trailer;
  }

  lemma {:induction false} SectionsDecode(hash: Bytes -> Bytes, h: ManifestHeader, blobs: Bytes, trailer: Bytes, b: Build)
    requires h.speed < 0x100 && Walk(h, Started(h.speed), blobs) == Told(true, b)
    ensures DecodeSections(hash, h, blobs, trailer) == Judge(hash, h, b, blobs, trailer)
  {}

  /** Judged from its parts: the walk of the sections, and the hash that follows them. */
  lemma {:induction false} BodyDecodes(hash: Bytes -> Bytes, m: DeviceManifest, h: ManifestHeader, blobs: Bytes)
    requires Valid(m) && Carriable(m) && blobs == JoinTlvs(Sections(m)) && |blobs| <= MANIFEST_BYTES_MAX && |hash(blobs)| == HASH_LEN
    requires Counts(h, m, |blobs|)
    ensures DecodeBody(hash, h, blobs + TlvBytes(TlvView(TLV_HASH, hash(blobs))))
         == if h.currentConfig == 0 || ConfigurationByValue(m, h.currentConfig) != [] then Decoded(Status.OK, Rebuilt(m), Some(h))
            else Refused(Status.MANIFEST_INVALID)
  {
    SectionsWalk(h, m, |blobs|);
    RebuiltIsValid(m);
    BuildDecodes(hash, h, Build(Rebuilt(m), true, |m.configs|, |EntriesFor(m, LangsOf(m))|, true), blobs);
  }

  lemma {:induction false} BuildDecodes(hash: Bytes -> Bytes, h: ManifestHeader, b: Build, blobs: Bytes)
    requires h.totalBlobBytes == |blobs| && h.speed < 0x100 && |hash(blobs)| == HASH_LEN
    requires Walk(h, Started(h.speed), blobs) == Told(true, b)
    requires b.structureOk && b.seenDevice && b.configs == h.configCount && b.strings == h.stringCount && Valid(b.m)
    ensures DecodeBody(hash, h, blobs + TlvBytes(TlvView(TLV_HASH, hash(blobs))))
         == if h.currentConfig == 0 || ConfigurationByValue(b.m, h.currentConfig) != [] then Decoded(Status.OK, b.m, Some(h))
            else Refused(Status.MANIFEST_INVALID)
  {
    var trailer := TlvBytes(TlvView(TLV_HASH, hash(blobs)));
    HashIsFound(hash(blobs));
    BodyIsSections(hash, h, blobs, trailer);
    SectionsDecode(hash, h, blobs, trailer, b);
    JudgedOk(hash, h, b, blobs, trailer);
  }

  lemma {:induction false} JudgedOk(hash: Bytes -> Bytes, h: ManifestHeader, b: Build, blobs: Bytes, trailer: Bytes)
    requires b.structureOk && b.seenDevice && b.configs == h.configCount && b.strings == h.stringCount && Valid(b.m)
    requires |hash(blobs)| == HASH_LEN && FindHash(trailer) == Some(hash(blobs))
    ensures Judge(hash, h, b, blobs, trailer)
         == if h.currentConfig == 0 || ConfigurationByValue(b.m, h.currentConfig) != [] then Decoded(Status.OK, b.m, Some(h))
            else Refused(Status.MANIFEST_INVALID)
  {}

  lemma CarriedRoundTrips(hash: Bytes -> Bytes, m: DeviceManifest, cur: byte)
    requires Encode(hash, m, cur).status == Status.OK && Carriable(m)
    requires |hash(JoinTlvs(Sections(m)))| == HASH_LEN
    ensures var d := Decode(hash, Encode(hash, m, cur).bytes);
            if cur == 0 || ConfigurationByValue(m, cur) != []
            then d.status == Status.OK && SameAnswers(d.m, m) && d.header.Some? && d.header.value.currentConfig == cur
            else d.status == Status.MANIFEST_INVALID
  {
    var blobs := JoinTlvs(Sections(m));
    var h, trailer := HeaderFor(m, cur, |blobs|), TlvBytes(TlvView(TLV_HASH, hash(blobs)));
    SpeedInRange(m);
    HeaderCounts(m, cur, |blobs|);
    FrameDecodes(hash, h, blobs, trailer);
    BodyDecodes(hash, m, h, blobs);
    RebuiltAnswersAlike(m);
  }

  /** Whatever the bytes, a value read off the wire is shorter than 64 KiB. */
  lemma {:induction false} WalkedIsCarriable(h: ManifestHeader, b: Build, bytes: Bytes)
    requires Carriable(b.m)
    ensures Carriable(Walk(h, b, bytes).b.m)
    decreases |bytes|
  {
    if bytes != [] && FirstTlv(bytes).Some? {
      var f := FirstTlv(bytes).value;
      assert |f.t.value| < 0x1_0000;
      if Absorb(h, b, f.t).goOn { WalkedIsCarriable(h, Absorb(h, b, f.t).b, f.rest); }
    }
  }

  lemma {:induction false} DecodedIsCarriable(hash: Bytes -> Bytes, body: Bytes)
    ensures Carriable(Decode(hash, body).m)
  {
    if |body| >= HEADER {
      var h, tlvs := ParseManifestHeader(body), body[HEADER..];
      if |tlvs| >= h.totalBlobBytes { WalkedIsCarriable(h, Started(h.speed % 0x100), tlvs[..h.totalBlobBytes]); }
    }
  }

  /**
   * Decoding what was encoded gives a manifest that answers every descriptor, configuration and string
   * lookup as the original does exactly when the current configuration is 0 or one the manifest has, and
   * the two blobs no rule bounds fit a tagged value. The first alone decides whether a fitting one decodes.
   */
  lemma ManifestRoundTrips(hash: Bytes -> Bytes, m: DeviceManifest, cur: byte)
    requires Encode(hash, m, cur).status == Status.OK && |hash(JoinTlvs(Sections(m)))| == HASH_LEN
    ensures var d := Decode(hash, Encode(hash, m, cur).bytes);
            && (d.status == Status.OK && SameAnswers(d.m, m) <==> Carriable(m) && (cur == 0 || ConfigurationByValue(m, cur) != []))
            && (Carriable(m) ==> d.status == if cur == 0 || ConfigurationByValue(m, cur) != [] then Status.OK else Status.MANIFEST_INVALID)
            && (Carriable(m) && d.status == Status.OK ==> d.header.Some? && d.header.value.currentConfig == cur)
  {
    if Carriable(m) { CarriedRoundTrips(hash, m, cur); }
    DecodedIsCarriable(hash, Encode(hash, m, cur).bytes);
  }

  /** A valid full-speed device whose qualifier is 64 KiB of zeros. */
  function LongQualifier(): DeviceManifest {
    DeviceManifest(SPEED_FULL, [18, DESC_DEVICE, 0, 2, 0, 0, 0, 64, 0, 0, 0, 0, 0, 0, 0, 0, 0, 1],
      [[9, DESC_CONFIGURATION, 9, 0, 0, 1, 0, 0, 0]], [], Zeros(0x1_0000), [], None, [])
  }

  lemma LongQualifierIsValid()
    ensures Valid(LongQualifier())
  {
    var m := LongQualifier();
    var c := m.configs[0];
    assert c[9..] == [] && WellWalked(c);
    assert Rd16(c[2..4]) == 9;
    assert SumSizes(m.configs) == |c| + SumSizes(m.configs[1..]);
  }

  lemma LongQualifierSections()
    ensures var m := LongQualifier(); EntriesFor(m, LangsOf(m)) == [] && |JoinTlvs(Sections(m))| <= 0x1_0100
  {
    var m := LongQualifier();
    var d, c, q := TlvView(TLV_DEVICE, m.device), TlvView(TLV_CONFIG, m.configs[0]), TlvView(TLV_QUALIFIER, m.qualifier);
    assert ConfigTlvs(m.configs) == [c] by { assert m.configs[1..] == []; }
    assert Sections(m) == [d, c, q];
    assert [d, c, q] == [] + [d] + [c] + [q];
    JoinSnoc([], d);
    JoinSnoc([] + [d], c);
    JoinSnoc([] + [d] + [c], q);
  }

  /** It encodes, and its qualifier does not come back. */
  lemma LongQualifierIsLost(hash: Bytes -> Bytes)
    requires forall b: Bytes :: |hash(b)| == HASH_LEN
    ensures var m := LongQualifier(); var e := Encode(hash, m, 0);
            e.status == Status.OK && !(Decode(hash, e.bytes).status == Status.OK && SameAnswers(Decode(hash, e.bytes).m, m))
  {
    LongQualifierIsValid();
    LongQualifierSections();
    ManifestRoundTrips(hash, LongQualifier(), 0);
  }

  lemma {:induction false} FrameDecodes(hash: Bytes -> Bytes, h: ManifestHeader, blobs: Bytes, trailer: Bytes)
    requires HeaderStatus(h) == Status.OK
    ensures Decode(hash, HeaderBytesOf(h) + blobs + trailer) == DecodeBody(hash, h, blobs + trailer)
  {
    HeaderReads(h, blobs + trailer);
    assert HeaderBytesOf(h) + blobs + trailer == HeaderBytesOf(h) + (blobs + trailer);
  }

  // ---------------------------------------------------------------- which faults are reported how

  /** The tagged values that can be read one after another, and whether they use the bytes up. */
  datatype Cuts = Cuts(ts: seq<TlvView>, whole: bool)

  function CutUp(bytes: Bytes): Cuts
    decreases |bytes|
  {
    if bytes == [] then Cuts([], true)
    else
      var f := FirstTlv(bytes);
      if f.None? then Cuts([], false)
      else
        var rest := CutUp(f.value.rest);
        Cuts([f.value.t] + rest.ts, rest.whole)
  }

  /** How many of `ts` are of type `typ`. */
  function Count(ts: seq<TlvView>, typ: u16): nat {
    if ts == [] then 0 else Count(ts[..|ts| - 1], typ) + if ts[|ts| - 1].typ == typ then 1 else 0
  }

  /** A structural fault: this value cannot follow those before it. */
  predicate Faulty(h: ManifestHeader, before: seq<TlvView>, t: TlvView) {
    || (t.typ == TLV_DEVICE && (Count(before, TLV_DEVICE) > 0 || |t.value| < 18))
    || (t.typ == TLV_CONFIG && Count(before, TLV_CONFIG) >= h.configCount)
    || (t.typ == TLV_LANGS && |t.value| != 2 + 2 * h.langidCount)
    || (t.typ == TLV_STRING && (|t.value| < 5 || |t.value| != 5 + Rd16(t.value[3..5]) || Count(before, TLV_STRING) >= h.stringCount))
  }

  predicate FaultAt(h: ManifestHeader, ts: seq<TlvView>, k: nat) { k < |ts| && Faulty(h, ts[..k], ts[k]) }

  /** The counters agree with the values taken so far. */
  ghost predicate Tallied(b: Build, before: seq<TlvView>) {
    && b.structureOk && (b.seenDevice <==> Count(before, TLV_DEVICE) > 0)
    && b.configs == Count(before, TLV_CONFIG) && b.strings == Count(before, TLV_STRING)
  }

  lemma {:induction false} LangsCounted(b: Bytes)
    requires |b| % 2 == 0
    ensures |ParseLangs(b)| == |b| / 2
    decreases |b|
  {
    if b != [] { LangsCounted(b[2..]); }
  }

  lemma CountNext(before: seq<TlvView>, t: TlvView, typ: u16)
    ensures Count(before + [t], typ) == Count(before, typ) + if t.typ == typ then 1 else 0
  {
    assert (before + [t])[..|before|] == before;
  }

  ghost predicate AbsorbsAs(h: ManifestHeader, b: Build, before: seq<TlvView>, t: TlvView) {
    var n := Absorb(h, b, t);
    && (n.goOn <==> !Faulty(h, before, t)) && n.b.structureOk == n.goOn
    && (n.goOn ==> Tallied(n.b, before + [t]))
  }

  lemma AbsorbsDevice(h: ManifestHeader, b: Build, before: seq<TlvView>, t: TlvView)
    requires Tallied(b, before) && t.typ == TLV_DEVICE
    ensures AbsorbsAs(h, b, before, t)
  {
    CountNext(before, t, TLV_DEVICE);
    CountNext(before, t, TLV_CONFIG);
    CountNext(before, t, TLV_STRING);
  }

  lemma AbsorbsConfig(h: ManifestHeader, b: Build, before: seq<TlvView>, t: TlvView)
    requires Tallied(b, before) && t.typ == TLV_CONFIG
    ensures AbsorbsAs(h, b, before, t)
  {
    CountNext(before, t, TLV_DEVICE);
    CountNext(before, t, TLV_CONFIG);
    CountNext(before, t, TLV_STRING);
  }

  lemma AbsorbsString(h: ManifestHeader, b: Build, before: seq<TlvView>, t: TlvView)
    requires Tallied(b, before) && t.typ == TLV_STRING
    ensures AbsorbsAs(h, b, before, t)
  {
    CountNext(before, t, TLV_DEVICE);
    CountNext(before, t, TLV_CONFIG);
    CountNext(before, t, TLV_STRING);
  }

  lemma AbsorbsLangs(h: ManifestHeader, b: Build, before: seq<TlvView>, t: TlvView)
    requires Tallied(b, before) && t.typ == TLV_LANGS
    ensures AbsorbsAs(h, b, before, t)
  {
    CountNext(before, t, TLV_DEVICE);
    CountNext(before, t, TLV_CONFIG);
    CountNext(before, t, TLV_STRING);
    if |t.value| >= 2 && |t.value| % 2 == 0 { LangsCounted(t.value[2..]); }
  }

  lemma AbsorbsOther(h: ManifestHeader, b: Build, before: seq<TlvView>, t: TlvView)
    requires Tallied(b, before) && t.typ != TLV_DEVICE && t.typ != TLV_CONFIG && t.typ != TLV_STRING && t.typ != TLV_LANGS
    ensures AbsorbsAs(h, b, before, t)
  {
    CountNext(before, t, TLV_DEVICE);
    CountNext(before, t, TLV_CONFIG);
    CountNext(before, t, TLV_STRING);
  }

  /** One value is taken exactly when it is no fault, and a fault is the only thing that spoils the structure. */
  lemma AbsorbsExactly(h: ManifestHeader, b: Build, before: seq<TlvView>, t: TlvView)
    requires Tallied(b, before)
    ensures AbsorbsAs(h, b, before, t)
  {
    if t.typ == TLV_DEVICE { AbsorbsDevice(h, b, before, t); }
    else if t.typ == TLV_CONFIG { AbsorbsConfig(h, b, before, t); }
    else if t.typ == TLV_STRING { AbsorbsString(h, b, before, t); }
    else if t.typ == TLV_LANGS { AbsorbsLangs(h, b, before, t); }
    else { AbsorbsOther(h, b, before, t); }
  }

  /** From position `at` on, no value is a fault. */
  ghost predicate NoFaultFrom(h: ManifestHeader, ts: seq<TlvView>, at: nat) { forall k: nat :: at <= k ==> !FaultAt(h, ts, k) }

  lemma FirstThenRest(h: ManifestHeader, before: seq<TlvView>, t: TlvView, rest: seq<TlvView>)
    ensures NoFaultFrom(h, before + ([t] + rest), |before|) <==>
            !Faulty(h, before, t) && NoFaultFrom(h, before + [t] + rest, |before + [t]|)
  {
    var all := before + ([t] + rest);
    assert before + [t] + rest == all;
    assert all[..|before|] == before && all[|before|] == t;
    assert FaultAt(h, all, |before|) <==> Faulty(h, before, t);
  }

  /** The walk goes through exactly when the framing is whole and no value is a fault; the flag is false only on a walk that stopped. */
  lemma {:induction false} WalksExactly(h: ManifestHeader, b: Build, before: seq<TlvView>, bytes: Bytes)
    requires Tallied(b, before)
    ensures var w := Walk(h, b, bytes); var c := CutUp(bytes);
            && (w.goOn <==> c.whole && NoFaultFrom(h, before + c.ts, |before|))
            && (!w.b.structureOk ==> !w.goOn)
            && (w.goOn ==> Tallied(w.b, before + c.ts))
    decreases |bytes|
  {
    assert before + [] == before;
    if bytes != [] && FirstTlv(bytes).Some? {
      var f := FirstTlv(bytes).value;
      var rest := CutUp(f.rest);
      AbsorbsExactly(h, b, before, f.t);
      FirstThenRest(h, before, f.t, rest.ts);
      assert before + ([f.t] + rest.ts) == before + [f.t] + rest.ts;
      var next := Absorb(h, b, f.t);
      if next.goOn { WalksExactly(h, next.b, before + [f.t], f.rest); }
    }
  }

  /** The branch that would name a structural fault is never taken: with the flag down the walk has stopped. */
  lemma NamedFaultNeverReported(h: ManifestHeader, blobs: Bytes)
    ensures var w := Walk(h, Started(h.speed % 0x100), blobs); w.b.structureOk || !w.goOn
  {
    WalksExactly(h, Started(h.speed % 0x100), [], blobs);
  }

  /** What the source calls a malformed frame: too short, sections cut short, or any structural fault in them. */
  ghost predicate MalformedBody(body: Bytes) {
    |body| < HEADER ||
    (var h := ParseManifestHeader(body); var tlvs := body[HEADER..];
     HeaderStatus(h) == Status.OK &&
     (|tlvs| < h.totalBlobBytes || (var c := CutUp(tlvs[..h.totalBlobBytes]); !c.whole || exists k: nat :: FaultAt(h, c.ts, k))))
  }

  /**
   * A body is answered as a malformed frame exactly when it is too short, its framing overruns or any of
   * its values is a structural fault, whatever the fault and wherever it stands.
   */
  lemma {:induction false} MalformedExactly(hash: Bytes -> Bytes, body: Bytes)
    ensures Decode(hash, body).status == Status.MALFORMED_FRAME <==> MalformedBody(body)
  {
    if |body| >= HEADER && HeaderStatus(ParseManifestHeader(body)) == Status.OK {
      var h, tlvs := ParseManifestHeader(body), body[HEADER..];
      if |tlvs| >= h.totalBlobBytes {
        var blobs, trailer := tlvs[..h.totalBlobBytes], tlvs[h.totalBlobBytes..];
        WalksExactly(h, Started(h.speed % 0x100), [], blobs);
        assert [] + CutUp(blobs).ts == CutUp(blobs).ts;
        JudgeIsNotMalformed(hash, h, Walk(h, Started(h.speed % 0x100), blobs).b, blobs, trailer);
      }
    }
  }

  lemma {:induction false} JudgeIsNotMalformed(hash: Bytes -> Bytes, h: ManifestHeader, b: Build, blobs: Bytes, trailer: Bytes)
    ensures Judge(hash, h, b, blobs, trailer).status in {Status.OK, Status.MANIFEST_INVALID}
  {}

  // ---------------------------------------------------------------- what is accepted

  /** The trailer's first MANIFEST_HASH is `digest`. */
  ghost predicate HashFirst(trailer: Bytes, digest: Bytes) {
    var ts := CutUp(trailer).ts;
    exists k :: 0 <= k < |ts| && ts[k] == TlvView(0x07, digest) && forall j :: 0 <= j < k ==> ts[j].typ != 0x07
  }

  lemma {:induction false} FindsFirst(trailer: Bytes, digest: Bytes)
    ensures FindHash(trailer) == Some(digest) <==> HashFirst(trailer, digest)
    decreases |trailer|
  {
    var ts := CutUp(trailer).ts;
    if trailer != [] && FirstTlv(trailer).Some? {
      var f := FirstTlv(trailer).value;
      var rest := CutUp(f.rest).ts;
      assert ts == [f.t] + rest;
      if f.t.typ == 0x07 {
        if HashFirst(trailer, digest) {
          var k :| 0 <= k < |ts| && ts[k] == TlvView(0x07, digest) && forall j :: 0 <= j < k ==> ts[j].typ != 0x07;
          assert ts[0].typ == 0x07;
        }
        if f.t.value == digest { assert ts[0] == TlvView(0x07, digest); }
      } else {
        FindsFirst(f.rest, digest);
        FirstMovesUp(f.t, rest, digest);
      }
    }
  }

  ghost predicate FirstIn(ts: seq<TlvView>, digest: Bytes) {
    exists k :: 0 <= k < |ts| && ts[k] == TlvView(0x07, digest) && forall j :: 0 <= j < k ==> ts[j].typ != 0x07
  }

  lemma FirstMovesUp(t: TlvView, rest: seq<TlvView>, digest: Bytes)
    requires t.typ != 0x07
    ensures FirstIn([t] + rest, digest) <==> FirstIn(rest, digest)
  {
    var ts := [t] + rest;
    if FirstIn(rest, digest) {
      var k :| 0 <= k < |rest| && rest[k] == TlvView(0x07, digest) && forall j :: 0 <= j < k ==> rest[j].typ != 0x07;
      assert ts[k + 1] == TlvView(0x07, digest);
      forall j | 0 <= j < k + 1 ensures ts[j].typ != 0x07 { if j > 0 { assert ts[j] == rest[j - 1]; } }
    }
    if FirstIn(ts, digest) {
      var k :| 0 <= k < |ts| && ts[k] == TlvView(0x07, digest) && forall j :: 0 <= j < k ==> ts[j].typ != 0x07;
      assert k > 0 && rest[k - 1] == TlvView(0x07, digest);
      forall j | 0 <= j < k - 1 ensures rest[j].typ != 0x07 { assert ts[j + 1] == rest[j]; }
    }
  }

  /**
   * A body is accepted exactly when its header is within bounds, its sections are whole and free of faults, hold
   * the device and as many configurations and strings as declared, are followed by their own hash, and what they
   * describe is valid and has the current configuration.
   */
  ghost predicate AcceptedBody(hash: Bytes -> Bytes, body: Bytes) {
    |body| >= HEADER &&
    (var h := ParseManifestHeader(body); var tlvs := body[HEADER..];
     HeaderStatus(h) == Status.OK && |tlvs| >= h.totalBlobBytes &&
     (var blobs := tlvs[..h.totalBlobBytes]; var c := CutUp(blobs); var m := Walk(h, Started(h.speed % 0x100), blobs).b.m;
      && c.whole && (forall k: nat :: !FaultAt(h, c.ts, k))
      && Count(c.ts, TLV_DEVICE) == 1 && Count(c.ts, TLV_CONFIG) == h.configCount && Count(c.ts, TLV_STRING) == h.stringCount
      && |hash(blobs)| == 32 && HashFirst(tlvs[h.totalBlobBytes..], hash(blobs))
      && Valid(m) && (h.currentConfig == 0 || ConfigurationByValue(m, h.currentConfig) != [])))
  }

  /** Without a fault there is at most one device descriptor. */
  lemma {:induction false} OneDevice(h: ManifestHeader, ts: seq<TlvView>)
    requires forall k: nat :: !FaultAt(h, ts, k)
    ensures Count(ts, TLV_DEVICE) <= 1
    decreases |ts|
  {
    if ts != [] {
      var front := ts[..|ts| - 1];
      forall k: nat ensures !FaultAt(h, front, k) {
        assert !FaultAt(h, ts, k);
        if k < |front| { assert front[..k] == ts[..k]; }
      }
      OneDevice(h, front);
      assert !FaultAt(h, ts, |ts| - 1);
    }
  }

  lemma {:induction false} DecodesExactly(hash: Bytes -> Bytes, body: Bytes)
    ensures Decode(hash, body).status == Status.OK <==> AcceptedBody(hash, body)
  {
    if |body| >= HEADER && HeaderStatus(ParseManifestHeader(body)) == Status.OK {
      var h, tlvs := ParseManifestHeader(body), body[HEADER..];
      if |tlvs| >= h.totalBlobBytes { SectionsAccepted(hash, h, tlvs[..h.totalBlobBytes], tlvs[h.totalBlobBytes..]); }
    }
  }

  lemma {:induction false} SectionsAccepted(hash: Bytes -> Bytes, h: ManifestHeader, blobs: Bytes, trailer: Bytes)
    ensures var c := CutUp(blobs); var m := Walk(h, Started(h.speed % 0x100), blobs).b.m;
            DecodeSections(hash, h, blobs, trailer).status == Status.OK <==>
              && c.whole && (forall k: nat :: !FaultAt(h, c.ts, k))
              && Count(c.ts, TLV_DEVICE) == 1 && Count(c.ts, TLV_CONFIG) == h.configCount && Count(c.ts, TLV_STRING) == h.stringCount
              && |hash(blobs)| == 32 && HashFirst(trailer, hash(blobs))
              && Valid(m) && (h.currentConfig == 0 || ConfigurationByValue(m, h.currentConfig) != [])
  {
    var c, w := CutUp(blobs), Walk(h, Started(h.speed % 0x100), blobs);
    WalksExactly(h, Started(h.speed % 0x100), [], blobs);
    assert [] + c.ts == c.ts;
    if w.goOn { OneDevice(h, c.ts); }
    FindsFirst(trailer, hash(blobs));
    JudgedExactly(hash, h, w.b, blobs, trailer);
  }

  lemma {:induction false} JudgedExactly(hash: Bytes -> Bytes, h: ManifestHeader, b: Build, blobs: Bytes, trailer: Bytes)
    ensures Judge(hash, h, b, blobs, trailer).status == Status.OK <==>
            && b.structureOk && b.seenDevice && b.configs == h.configCount && b.strings == h.stringCount
            && |hash(blobs)| == 32 && FindHash(trailer) == Some(hash(blobs))
            && Valid(b.m) && (h.currentConfig == 0 || ConfigurationByValue(b.m, h.currentConfig) != [])
  {}
}
