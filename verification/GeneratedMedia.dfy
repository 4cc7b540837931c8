/** The detector that reads the extracted regions, and what its coverage claim is worth. */
module GeneratedMedia {
  import opened Basics
  import opened Identifiers
  import opened Provenance
  import opened ProvenanceExtraction
  import opened ProvenanceWriter

  const MARKERS: seq<string> := [
    "trainedAlgorithmicMedia", "compositeWithTrainedAlgorithmicMedia", "gpt-image", "OpenAI Media Service",
    "dall-e", "midjourney", "stable-diffusion", "firefly", "imagen"
  ]

  const C2PA_ITEM_DECLARATION := "application/c2pa"

  /** A marker found in a structure, by name. */
  datatype Match = Match(marker: string, structure: string)

  datatype Coverage = Full | MetaOnly | Nothing

  datatype Finding = Finding(
    container: string,
    coverage: Coverage,
    structures: seq<string>,
    unparsedPayload: bool,
    matches: seq<Match>,
    knownHash: bool,
    isGenerated: bool
  )

  // ------------------------------------------------------- the container format

  /** Upper case of a Latin-1 character. */
  function UpperChar(c: char): string {
    if 'a' <= c <= 'z' then [c - 32 as char]
    else if c == 0xB5 as char then [0x39C as char]
    else if c == 0xDF as char then "SS"
    else if (0xE0 as char) <= c <= 0xFE as char && c != 0xF7 as char then [c - 32 as char]
    else if c == 0xFF as char then [0x178 as char]
    else [c]
  }

  function Upper(s: string): string {
    if s == "" then "" else UpperChar(s[0]) + Upper(s[1..])
  }

  predicate HasPngMagic(raw: seq<Byte>) { |raw| >= 4 && raw[..4] == PNG_MAGIC }

  predicate HasJpegMagic(raw: seq<Byte>) { |raw| >= 3 && raw[..3] == JPEG_MAGIC }

  /** The brand of an ISO-BMFF file as the detector names it. */
  function BrandOf(raw: seq<Byte>): string
    requires |raw| >= 12
  {
    var brand := Upper(Strip(Latin1(raw[8..12])));
    if brand == "" then "ISOBMFF" else brand
  }

  /** The detector tries JPEG before `ftyp`; the parser tries it after. */
  function ContainerOf(raw: seq<Byte>): string {
    if HasPngMagic(raw) then "PNG"
    else if HasJpegMagic(raw) then "JPEG"
    else if |raw| > 12 && raw[4..8] == FTYP then BrandOf(raw)
    else "UNKNOWN"
  }

  lemma UpperFour(s: string)
    requires |s| == 4
    ensures Upper(s) == UpperChar(s[0]) + (UpperChar(s[1]) + (UpperChar(s[2]) + UpperChar(s[3])))
  {
    hide UpperChar;
    assert s[1..][1..] == s[2..] && s[2..][1..] == s[3..] && s[3..][1..] == "";
    assert Upper(s[3..]) == UpperChar(s[3]) + Upper("");
    assert Upper(s[2..]) == UpperChar(s[2]) + Upper(s[3..]);
    assert Upper(s[1..]) == UpperChar(s[1]) + Upper(s[2..]);
  }

  /** A brand in lower-case letters is reported in upper case, letter by letter. */
  lemma BrandIsUpperCased(raw: seq<Byte>)
    requires |raw| >= 12 && forall i :: 8 <= i < 12 ==> 97 <= raw[i] <= 122
    ensures |BrandOf(raw)| == 4 && forall i :: 0 <= i < 4 ==> BrandOf(raw)[i] as int == raw[8 + i] - 32
  {
    var s := Latin1(raw[8..12]);
    assert |s| == 4 && forall i :: 0 <= i < 4 ==> s[i] as int == raw[8 + i];
    StripExactly(s);
    UpperFour(s);
    hide Strip, Upper, Latin1;
  }

  lemma BlankBrand(raw: seq<Byte>)
    requires |raw| >= 12 && forall i :: 8 <= i < 12 ==> raw[i] == 32
    ensures BrandOf(raw) == "ISOBMFF"
  {
    var s := Latin1(raw[8..12]);
    assert forall i :: 0 <= i < |s| ==> s[i] == ' ';
    var lo, hi := StripCuts(s);
    hide Strip, Latin1;
  }

  function CoverageOf(container: string, regions: seq<Region>): Coverage {
    if container in {"PNG", "JPEG"} then Full
    else if regions != [] then MetaOnly
    else Nothing
  }

  // ------------------------------------------------------- markers

  predicate ReadsAt(payload: seq<Byte>, k: nat, marker: string) {
    k + |marker| <= |payload| && Latin1(payload[k..k + |marker|]) == marker
  }

  predicate Contains(payload: seq<Byte>, marker: string) {
    exists k :: 0 <= k <= |payload| && ReadsAt(payload, k, marker)
  }

  /** Some recognized structure of the file names `marker`. */
  predicate Names(regions: seq<Region>, marker: string) {
    exists i :: 0 <= i < |regions| && Contains(regions[i].payload, marker)
  }

  /** The markers of `markers` that a structure contains, in their order. */
  function MatchesAmong(r: Region, markers: seq<string>): seq<Match> {
    if markers == [] then []
    else
      var last := markers[|markers| - 1];
      MatchesAmong(r, markers[..|markers| - 1]) + (if Contains(r.payload, last) then [Match(last, r.name)] else [])
  }

  /** All matches, structure by structure. */
  function AllMatches(regions: seq<Region>): seq<Match> {
    if regions == [] then []
    else AllMatches(regions[..|regions| - 1]) + MatchesAmong(regions[|regions| - 1], MARKERS)
  }

  predicate Hit(r: Region, x: Match) {
    x.structure == r.name && Contains(r.payload, x.marker)
  }

  lemma {:induction false} MatchesAmongExactly(r: Region, markers: seq<string>, x: Match)
    ensures x in MatchesAmong(r, markers) <==> x.marker in markers && Hit(r, x)
  {
    hide Contains;
    if markers != [] {
      MatchesAmongExactly(r, markers[..|markers| - 1], x);
      assert markers == markers[..|markers| - 1] + [markers[|markers| - 1]];
    }
  }

  /** Every marker in a recognized structure is found, under the name of its structure, and nothing else is. */
  lemma {:induction false} AllMatchesExactly(regions: seq<Region>, x: Match)
    ensures x in AllMatches(regions) <==> x.marker in MARKERS && exists r :: r in regions && Hit(r, x)
  {
    hide Hit, MatchesAmong;
    if regions != [] {
      var shorter, last := regions[..|regions| - 1], regions[|regions| - 1];
      AllMatchesExactly(shorter, x);
      MatchesAmongExactly(last, MARKERS, x);
      assert regions == shorter + [last];
    }
  }

  lemma AnyMatchExactly(regions: seq<Region>)
    ensures AllMatches(regions) != [] <==> exists m :: m in MARKERS && Names(regions, m)
  {
    hide Contains, AllMatches;
    if AllMatches(regions) != [] {
      var x := AllMatches(regions)[0];
      AllMatchesExactly(regions, x);
      var r :| r in regions && Hit(r, x);
      assert Names(regions, x.marker);
    }
    forall m | m in MARKERS && Names(regions, m) ensures AllMatches(regions) != [] {
      var i :| 0 <= i < |regions| && Contains(regions[i].payload, m);
      AllMatchesExactly(regions, Match(m, regions[i].name));
      assert Hit(regions[i], Match(m, regions[i].name));
    }
  }

  method MatchesIn(r: Region) returns (found: seq<Match>)
    ensures found == MatchesAmong(r, MARKERS)
  {
    hide Contains;
    found := [];
    for i := 0 to |MARKERS|
      invariant found == MatchesAmong(r, MARKERS[..i])
    {
      assert MARKERS[..i + 1][..i] == MARKERS[..i];
      if Contains(r.payload, MARKERS[i]) {
        found := found + [Match(MARKERS[i], r.name)];
      }
    }
    assert MARKERS[..|MARKERS|] == MARKERS;
  }

  // ------------------------------------------------------- the detector

  method DetectGeneratedMedia(raw: seq<Byte>, knownHash: bool) returns (finding: Finding)
    ensures finding.isGenerated <==> knownHash || exists m :: m in MARKERS && Names(Regions(raw), m)
    ensures finding.unparsedPayload <==> Names(Regions(raw), C2PA_ITEM_DECLARATION)
    ensures |finding.structures| == |Regions(raw)|
    ensures forall i :: 0 <= i < |Regions(raw)| ==> finding.structures[i] == Regions(raw)[i].name
    ensures finding.matches == AllMatches(Regions(raw)) && finding.knownHash == knownHash
    ensures finding.container == ContainerOf(raw) && finding.coverage == CoverageOf(ContainerOf(raw), Regions(raw))
  {
    var container := ContainerOf(raw);
    var regions := ExtractProvenanceRegions(raw);
    hide Regions, Contains, ContainerOf, MatchesAmong, MARKERS;
    var structures := [];
    var unparsed := false;
    var matches: seq<Match> := [];
    for i := 0 to |regions|
      invariant |structures| == i && forall j :: 0 <= j < i ==> structures[j] == regions[j].name
      invariant unparsed <==> Names(regions[..i], C2PA_ITEM_DECLARATION)
      invariant matches == AllMatches(regions[..i])
    {
      NamesGrows(regions, i, C2PA_ITEM_DECLARATION);
      assert regions[..i + 1][..i] == regions[..i];
      structures := structures + [regions[i].name];
      unparsed := unparsed || Contains(regions[i].payload, C2PA_ITEM_DECLARATION);
      var found := MatchesIn(regions[i]);
      matches := matches + found;
    }
    assert regions[..|regions|] == regions;
    AnyMatchExactly(regions);
    finding := Finding(container, CoverageOf(container, regions), structures, unparsed, matches, knownHash,
                       knownHash || matches != []);
  }

  lemma NamesGrows(regions: seq<Region>, i: nat, marker: string)
    requires i < |regions|
    ensures Names(regions[..i + 1], marker) <==> Names(regions[..i], marker) || Contains(regions[i].payload, marker)
  {
    hide Contains;
    var longer, shorter := regions[..i + 1], regions[..i];
    if Names(longer, marker) {
      var j :| 0 <= j < |longer| && Contains(longer[j].payload, marker);
      assert j < i ==> shorter[j] == longer[j];
    }
    if Names(shorter, marker) {
      var j :| 0 <= j < |shorter| && Contains(shorter[j].payload, marker);
      assert longer[j] == shorter[j];
    }
    assert longer[i] == regions[i];
  }

  // ------------------------------------------------------- what counts as naming a marker

  predicate Plain(text: string) { forall i :: 0 <= i < |text| ==> text[i] as int < 128 }

  /** A payload contains a marker exactly when the marker's bytes lie somewhere in it. */
  lemma ContainsExactly(payload: seq<Byte>, marker: string)
    requires Plain(marker)
    ensures Contains(payload, marker) <==> exists pre, post :: payload == pre + Ascii(marker) + post
  {
    var bytes := Ascii(marker);
    if Contains(payload, marker) {
      var k :| 0 <= k <= |payload| && ReadsAt(payload, k, marker);
      var slice := payload[k..k + |marker|];
      forall i | 0 <= i < |marker| ensures slice[i] == bytes[i] {
        assert Latin1(slice)[i] == marker[i];
      }
      assert slice == bytes;
      assert payload == payload[..k] + bytes + payload[k + |marker|..];
    }
    forall pre, post | payload == pre + bytes + post ensures Contains(payload, marker) {
      var slice := payload[|pre|..|pre| + |marker|];
      assert slice == bytes;
      assert forall i :: 0 <= i < |marker| ==> Latin1(slice)[i] == marker[i];
      assert Latin1(slice) == marker;
      assert ReadsAt(payload, |pre|, marker);
    }
  }

  /** The markers that decide a verdict, one by one. */
  lemma MarkersAre(marker: string)
    ensures marker in MARKERS <==>
            marker in {"imagen", "firefly", "stable-diffusion", "midjourney", "dall-e", "OpenAI Media Service", "gpt-image",
                       "compositeWithTrainedAlgorithmicMedia", "trainedAlgorithmicMedia"}
  {
    assert MARKERS[0] == "trainedAlgorithmicMedia" && MARKERS[1] == "compositeWithTrainedAlgorithmicMedia";
    assert MARKERS[2] == "gpt-image" && MARKERS[3] == "OpenAI Media Service" && MARKERS[4] == "dall-e";
    assert MARKERS[5] == "midjourney" && MARKERS[6] == "stable-diffusion" && MARKERS[7] == "firefly" && MARKERS[8] == "imagen";
  }

  /** No end marker before the `k`-th chunk. */
  predicate Reached(cs: seq<Chunk>, k: nat)
    requires k <= |cs|
  {
    forall j :: 0 <= j < k ==> cs[j].kind != Ascii("IEND")
  }

  predicate ChunkNames(cs: seq<Chunk>, k: nat, marker: string)
    requires k < |cs|
  {
    Reached(cs, k) && ChunkListing(cs[k].kind).Some? && Contains(cs[k].data, marker)
  }

  lemma {:induction false} ListedChunksName(cs: seq<Chunk>, marker: string)
    ensures Names(ListedChunks(cs), marker) <==> exists k :: 0 <= k < |cs| && ChunkNames(cs, k, marker)
  {
    hide Contains, ChunkListing, Ascii;
    if cs != [] {
      var rest := cs[1..];
      ListedChunksName(rest, marker);
      var head := if ChunkListing(cs[0].kind).Some? then [Region(ChunkListing(cs[0].kind).value, cs[0].data)] else [];
      var tail := if cs[0].kind == Ascii("IEND") then [] else ListedChunks(rest);
      assert ListedChunks(cs) == head + tail;
      NamesOfBoth(head, tail, marker);
      assert ChunkNames(cs, 0, marker) <==> Names(head, marker) by {
        assert head != [] ==> head[0].payload == cs[0].data;
      }
      forall k | 0 <= k < |rest| ensures ChunkNames(cs, k + 1, marker) <==> cs[0].kind != Ascii("IEND") && ChunkNames(rest, k, marker) {
        ReachedShifts(cs, k);
      }
      if k :| 0 <= k < |cs| && ChunkNames(cs, k, marker) && k > 0 {
        assert ChunkNames(rest, k - 1, marker);
      }
    }
  }

  lemma ReachedShifts(cs: seq<Chunk>, k: nat)
    requires k + 1 < |cs|
    ensures Reached(cs, k + 1) <==> cs[0].kind != Ascii("IEND") && Reached(cs[1..], k)
  {
    hide Ascii;
    if Reached(cs, k + 1) {
      assert forall j :: 0 <= j < k ==> cs[1..][j] == cs[j + 1];
    }
    if cs[0].kind != Ascii("IEND") && Reached(cs[1..], k) {
      forall j | 0 <= j < k + 1 ensures cs[j].kind != Ascii("IEND") {
        assert j > 0 ==> cs[j] == cs[1..][j - 1];
      }
    }
  }

  lemma NamesOfBoth(a: seq<Region>, b: seq<Region>, marker: string)
    ensures Names(a + b, marker) <==> Names(a, marker) || Names(b, marker)
  {
    hide Contains;
    if i :| 0 <= i < |a| && Contains(a[i].payload, marker) {
      assert (a + b)[i] == a[i];
    }
    if i :| 0 <= i < |b| && Contains(b[i].payload, marker) {
      assert (a + b)[|a| + i] == b[i];
    }
  }

  /** A PNG names a marker exactly when a chunk of a listed type, before the end marker, contains it. */
  lemma PngNamesExactly(cs: seq<Chunk>, trailer: seq<Byte>, marker: string)
    requires NoChunk(trailer) || Ended(cs)
    ensures Names(Regions(PngFile(cs, trailer)), marker) <==> exists k :: 0 <= k < |cs| && ChunkNames(cs, k, marker)
  {
    hide Regions, Contains, NoChunk;
    PngRoundTrip(cs, trailer);
    ListedChunksName(cs, marker);
  }

  /** Producer names written into pixels, checksums, unlisted chunks or a trailer change no verdict. */
  lemma PixelsNeverAccuse(a: seq<Byte>, b: seq<Byte>, marker: string)
    requires SameWhereSignificant(a, b)
    requires FormatOf(a).Jpeg? ==> !SpellsFtyp(b)
    ensures Names(Regions(a), marker) <==> Names(Regions(b), marker)
  {
    InsignificantBytesDoNotMatter(a, b);
  }

  /** Cutting a file can lose an accusation, never add one. */
  lemma TruncationNeverAccuses(raw: seq<Byte>, cut: nat, marker: string)
    requires cut <= |raw|
    requires Names(Regions(raw[..cut]), marker)
    ensures Names(Regions(raw), marker)
  {
    TruncationNeverInvents(raw, cut);
    var part := Regions(raw[..cut]);
    hide Regions, Contains;
    var i :| 0 <= i < |part| && Contains(part[i].payload, marker);
    assert Regions(raw)[i] == part[i];
  }

  // ------------------------------------------------------- what FULL coverage means

  /** What reading the file by its own signature finds, to the end of its metadata. */
  function OwnWalk(raw: seq<Byte>): seq<Region> {
    if HasPngMagic(raw) then (if |raw| >= 8 then Walk(Png, raw[8..]) else [])
    else if HasJpegMagic(raw) then Walk(Jpeg, raw[2..])
    else []
  }

  /** Every structure that the file's own format lists was found, and the file is of a format read whole. */
  predicate ReadWhole(raw: seq<Byte>) {
    (HasPngMagic(raw) || HasJpegMagic(raw)) && Regions(raw) == OwnWalk(raw)
  }

  /** For every file below about 4 GB: it is reported FULL without having been read whole exactly when it is a JPEG
      that spells `ftyp` and lists something, or an ISO-BMFF file whose brand spells one of the two names. */
  lemma FullCoverageExactly(raw: seq<Byte>)
    requires |raw| < 0xFFD8_FF00
    ensures CoverageOf(ContainerOf(raw), Regions(raw)).Full? && !ReadWhole(raw) <==>
            || (HasJpegMagic(raw) && SpellsFtyp(raw) && OwnWalk(raw) != [])
            || (!HasPngMagic(raw) && !HasJpegMagic(raw) && |raw| > 12 && raw[4..8] == FTYP && BrandOf(raw) in {"PNG", "JPEG"})
  {
    hide Walk, BrandOf;
    SignaturesApart(raw);
    UnknownIsNeither();
    if HasJpegMagic(raw) && SpellsFtyp(raw) {
      JpegAsBoxesIsSilent(raw);
    }
  }

  lemma PngStarts(raw: seq<Byte>)
    requires HasPngMagic(raw)
    ensures raw[0] == 0x89
  {
    assert raw[0] == raw[..4][0];
  }

  lemma JpegStarts(raw: seq<Byte>)
    requires HasJpegMagic(raw)
    ensures raw[0] == 0xFF
  {
    assert raw[0] == raw[..3][0];
  }

  lemma SignaturesApart(raw: seq<Byte>)
    ensures !(HasPngMagic(raw) && HasJpegMagic(raw))
  {
    hide HasPngMagic, HasJpegMagic;
    if HasPngMagic(raw) {
      PngStarts(raw);
    }
    if HasJpegMagic(raw) {
      JpegStarts(raw);
    }
  }

  lemma UnknownIsNeither()
    ensures "UNKNOWN" !in {"PNG", "JPEG"}
  {
    assert |"UNKNOWN"| == 7 && |"PNG"| == 3 && |"JPEG"| == 4;
  }

  lemma {:induction false} ListedBoxesExist(bs: seq<Box>)
    ensures ListedBoxes(bs) != [] <==> exists b :: b in bs && b.kind in {Ascii("meta"), Ascii("uuid")}
  {
    hide Ascii;
    if bs != [] {
      ListedBoxesExist(bs[1..]);
      assert bs == [bs[0]] + bs[1..];
    }
  }

  /** An ISO-BMFF file whose brand claims nothing else is reported META_ONLY exactly when it has a `meta` or `uuid`
      box, and NONE otherwise. */
  lemma IsoCoverageExactly(bs: seq<Box>)
    requires IsoBoxes(bs) && |bs[0].data| > 4 && 8 + |bs[0].data| != PNG_MAGIC_SIZE && 8 + |bs[0].data| < 0xFFD8_FF00
    requires |IsoFile(bs)| >= 12 && BrandOf(IsoFile(bs)) !in {"PNG", "JPEG"}
    ensures CoverageOf(ContainerOf(IsoFile(bs)), Regions(IsoFile(bs)))
            == if exists b :: b in bs && b.kind in {Ascii("meta"), Ascii("uuid")} then MetaOnly else Nothing
  {
    var raw := IsoFile(bs);
    if HasJpegMagic(raw) && |raw| >= 4 {
      JpegSize(raw);
    }
    IsoRoundTrip(bs, []);
    IsoHeader(bs, []);
    assert IsoFile(bs) + [] == IsoFile(bs);
    OtherSizeIsNotMagic(raw);
    ListedBoxesExist(bs);
    UnknownIsNeither();
    IsoLength(bs);
    hide Regions, BrandOf, IsoFile, ListedBoxes;
  }

  lemma JpegSize(raw: seq<Byte>)
    requires HasJpegMagic(raw) && |raw| >= 4
    ensures BigEndian32(raw) >= 0xFFD8_FF00
  {
    assert raw[0] == raw[..3][0] && raw[1] == raw[..3][1] && raw[2] == raw[..3][2];
  }

  lemma IsoLength(bs: seq<Box>)
    requires bs != []
    ensures |IsoFile(bs)| >= 8 + |bs[0].data|
  {
  }

  /** Read as a box size, a JPEG signature overruns any file below about 4 GB. */
  lemma JpegAsBoxesIsSilent(raw: seq<Byte>)
    requires HasJpegMagic(raw) && SpellsFtyp(raw) && |raw| < 0xFFD8_FF00
    ensures Regions(raw) == []
  {
    assert raw[0] == raw[..3][0] && raw[1] == raw[..3][1] && raw[2] == raw[..3][2];
    if |raw| >= 4 {
      assert raw[..4][0] == 0xFF;
    }
    assert raw[0..] == raw && BigEndian32(raw) >= 0xFFD8_FF00;
    assert Walk(IsoBmff, raw) == [];
  }

  /** An ISO-BMFF file with the brand `png ` is reported FULL, though its coded data is never resolved. */
  lemma BrandCanClaimFull()
    ensures var raw := [0, 0, 0, 16] + FTYP + [0x70, 0x6E, 0x67, 0x20] + [0, 0, 0, 0];
            CoverageOf(ContainerOf(raw), Regions(raw)).Full? && !ReadWhole(raw)
  {
    var raw := [0, 0, 0, 16] + FTYP + [0x70, 0x6E, 0x67, 0x20] + [0, 0, 0, 0];
    assert raw[..4] == [0, 0, 0, 16] && raw[..3][0] == 0 && raw[..4][0] == 0;
    assert raw[4..8] == FTYP && raw[8..12] == [0x70, 0x6E, 0x67, 0x20];
    assert Latin1(raw[8..12]) == "png ";
    assert "png "[..3] == "png";
    assert Strip("png ") == "png";
    assert "png"[1..] == "ng" && "ng"[1..] == "g" && "g"[1..] == "";
    assert Upper("g") == "G";
    assert Upper("ng") == "NG";
    assert Upper("png") == "PNG";
  }
}
