/** The container metadata parser of the capture probe.

    `Regions` is the reference reading of a file: a walk over the bytes from the current
    offset on (the "view"), one chunk, box or segment at a time. The extraction loops are
    proved against it in `ProvenanceExtraction`. */
module Provenance {
  import opened Basics

  datatype Format = Png | IsoBmff | Jpeg | Unrecognized

  /** A recognized metadata structure and its exact payload bytes. */
  datatype Region = Region(name: string, payload: seq<Byte>)

  /** Where a region lies in the file. */
  datatype Span = Span(name: string, lo: nat, hi: nat)

  /** What the structure at the front of a view amounts to. */
  datatype Step =
    | Halt
    | Advance(name: Option<string>, lo: nat, hi: nat, size: nat, last: bool)

  const PNG_MAGIC: seq<Byte> := [0x89, 0x50, 0x4E, 0x47]
  const JPEG_MAGIC: seq<Byte> := [0xFF, 0xD8, 0xFF]
  const FTYP: seq<Byte> := [0x66, 0x74, 0x79, 0x70]
  const IEND: seq<Byte> := [0x49, 0x45, 0x4E, 0x44]
  const CABX: seq<Byte> := [0x63, 0x61, 0x42, 0x58]
  const EXIF: seq<Byte> := [0x65, 0x58, 0x49, 0x66]
  const ITXT: seq<Byte> := [0x69, 0x54, 0x58, 0x74]
  const TEXT: seq<Byte> := [0x74, 0x45, 0x58, 0x74]
  const ZTXT: seq<Byte> := [0x7A, 0x54, 0x58, 0x74]
  const META: seq<Byte> := [0x6D, 0x65, 0x74, 0x61]
  const UUID: seq<Byte> := [0x75, 0x75, 0x69, 0x64]

  function Latin1(bytes: seq<Byte>): string {
    seq(|bytes|, i requires 0 <= i < |bytes| => bytes[i] as char)
  }

  /** Big-endian value of the first two or four bytes of a view. */
  function BigEndian16(view: seq<Byte>): nat
    requires |view| >= 2
  {
    var b0: nat, b1: nat := view[0], view[1];
    b0 * 0x100 + b1
  }

  function BigEndian32(view: seq<Byte>): nat
    requires |view| >= 4
  {
    var b0: nat, b1: nat, b2: nat, b3: nat := view[0], view[1], view[2], view[3];
    b0 * 0x100_0000 + b1 * 0x1_0000 + b2 * 0x100 + b3
  }

  function PngName(kind: seq<Byte>): Option<string> {
    if kind in [CABX, EXIF, ITXT, TEXT, ZTXT] then Some("PNG_" + Latin1(kind)) else None
  }

  function BoxName(kind: seq<Byte>): Option<string> {
    if kind in [META, UUID] then Some("ISOBMFF_" + Latin1(kind)) else None
  }

  function SegmentName(marker: Byte): Option<string> {
    if marker == 0xE1 then Some("APP1_EXIF_OR_XMP")
    else if marker == 0xEB then Some("APP11_JUMBF_C2PA")
    else if marker == 0xED then Some("APP13_IPTC")
    else None
  }

  /** Bytes 4 to 8 spell `ftyp`, which the dispatch tries before the JPEG signature. */
  predicate SpellsFtyp(raw: seq<Byte>) {
    |raw| > 8 && raw[4..8] == FTYP
  }

  function FormatOf(raw: seq<Byte>): Format {
    if |raw| >= 4 && raw[..4] == PNG_MAGIC then Png
    else if SpellsFtyp(raw) then IsoBmff
    else if |raw| >= 3 && raw[..3] == JPEG_MAGIC then Jpeg
    else Unrecognized
  }

  /** The offset the walk of a format starts from. */
  function StartOf(f: Format): nat {
    match f
    case Png => 8
    case IsoBmff => 0
    case Jpeg => 2
    case Unrecognized => 0
  }

  function ProbePng(view: seq<Byte>): (s: Step)
    ensures s.Advance? ==> 0 < s.size <= |view| && s.lo <= s.hi <= s.size
  {
    if |view| < 8 then Halt
    else
      var length := BigEndian32(view);
      if 12 + length > |view| then Halt
      else Advance(PngName(view[4..8]), 8, 8 + length, 12 + length, view[4..8] == IEND)
  }

  function ProbeBox(view: seq<Byte>): (s: Step)
    ensures s.Advance? ==> 0 < s.size <= |view| && s.lo <= s.hi <= s.size
  {
    if |view| < 8 then Halt
    else
      var size := BigEndian32(view);
      if size < 8 || size > |view| then Halt
      else Advance(BoxName(view[4..8]), 8, size, size, false)
  }

  function ProbeSegment(view: seq<Byte>): (s: Step)
    ensures s.Advance? ==> 0 < s.size <= |view| && s.lo <= s.hi <= s.size
  {
    if |view| < 4 || view[0] != 0xFF || view[1] == 0xDA then Halt
    else if view[1] == 0xD8 || view[1] == 0xD9 then Advance(None, 2, 2, 2, false)
    else
      var length := BigEndian16(view[2..]);
      if length < 2 || 2 + length > |view| then Halt
      else Advance(SegmentName(view[1]), 4, 2 + length, 2 + length, false)
  }

  function Probe(f: Format, view: seq<Byte>): (s: Step)
    ensures s.Advance? ==> 0 < s.size <= |view| && s.lo <= s.hi <= s.size
  {
    match f
    case Png => ProbePng(view)
    case IsoBmff => ProbeBox(view)
    case Jpeg => ProbeSegment(view)
    case Unrecognized => Halt
  }

  function Emit(s: Step, view: seq<Byte>): seq<Region>
    requires s.Advance? && s.lo <= s.hi <= |view|
  {
    if s.name.Some? then [Region(s.name.value, view[s.lo..s.hi])] else []
  }

  function Walk(f: Format, view: seq<Byte>): seq<Region>
    decreases |view|
  {
    var s := Probe(f, view);
    if s.Halt? then []
    else Emit(s, view) + (if s.last then [] else Walk(f, view[s.size..]))
  }

  /** Everything that may supply generator evidence, in file order. */
  function Regions(raw: seq<Byte>): seq<Region> {
    var f := FormatOf(raw);
    if StartOf(f) <= |raw| then Walk(f, raw[StartOf(f)..]) else []
  }

  // ------------------------------------------------------- truncation

  lemma ProbeOfPrefix(f: Format, view: seq<Byte>, cut: nat)
    requires cut <= |view|
    ensures Probe(f, view[..cut]).Halt? || Probe(f, view[..cut]) == Probe(f, view)
  {
    var p := view[..cut];
    if f.Png? && cut >= 8 {
      assert p[4..8] == view[4..8];
    } else if f.IsoBmff? && cut >= 8 {
      assert p[4..8] == view[4..8];
    } else if f.Jpeg? && cut >= 4 {
      assert p[2..][..2] == view[2..][..2];
    }
  }

  lemma SliceOfPrefix<T>(s: seq<T>, cut: nat, lo: nat, hi: nat)
    requires lo <= hi <= cut <= |s|
    ensures s[..cut][lo..hi] == s[lo..hi]
    ensures s[..cut][lo..] == s[lo..][..cut - lo]
  {
  }

  lemma {:induction false} WalkOfPrefix(f: Format, view: seq<Byte>, cut: nat)
    requires cut <= |view|
    ensures Walk(f, view[..cut]) <= Walk(f, view)
    decreases |view|
  {
    hide Probe;
    var p := view[..cut];
    ProbeOfPrefix(f, view, cut);
    var s := Probe(f, p);
    if s.Advance? {
      SliceOfPrefix(view, cut, s.lo, s.hi);
      assert Emit(s, p) == Emit(s, view);
      if !s.last {
        SliceOfPrefix(view, cut, s.size, cut);
        WalkOfPrefix(f, view[s.size..], cut - s.size);
      }
    }
  }

  /** Cutting a file anywhere leaves a prefix of its evidence: nothing is invented. */
  lemma TruncationNeverInvents(raw: seq<Byte>, cut: nat)
    requires cut <= |raw|
    ensures Regions(raw[..cut]) <= Regions(raw)
  {
    hide FormatOf, Walk;
    var p := raw[..cut];
    var f, g := FormatOf(raw), FormatOf(p);
    if g == f {
      if StartOf(f) <= cut {
        WalkOfPrefix(f, raw[StartOf(f)..], cut - StartOf(f));
        assert p[StartOf(f)..] == raw[StartOf(f)..][..cut - StartOf(f)];
      }
    } else {
      ShortPrefixIsSilent(raw, cut);
    }
  }

  lemma LongPrefixDispatchesAlike(raw: seq<Byte>, cut: nat)
    requires 8 < cut <= |raw|
    ensures FormatOf(raw[..cut]) == FormatOf(raw)
  {
    var p := raw[..cut];
    assert p[..4] == raw[..4] && p[..3] == raw[..3] && p[4..8] == raw[4..8];
  }

  /** A JPEG-looking prefix of at most 8 bytes whose bytes 4 and 5 spell `ft` holds no segment. */
  lemma ShortJpegIsSilent(p: seq<Byte>)
    requires FormatOf(p).Jpeg? && |p| <= 8
    requires |p| > 4 ==> p[4] == 0x66
    ensures Regions(p) == []
  {
    var view := p[2..];
    if Probe(Jpeg, view).Advance? {
      assert view[2] == p[4];
      var rest := view[2..];
      assert BigEndian16(rest) >= 0x6600;
      assert |rest| >= 4 ==> rest[0] == p[4];
      assert Probe(Jpeg, rest).Halt?;
      assert Walk(Jpeg, rest) == [];
      assert Walk(Jpeg, view) == [];
    }
  }

  /** A prefix too short to be dispatched as the whole file is yields no region at all. */
  lemma ShortPrefixIsSilent(raw: seq<Byte>, cut: nat)
    requires cut <= |raw|
    requires FormatOf(raw[..cut]) != FormatOf(raw)
    ensures Regions(raw[..cut]) == []
  {
    var p := raw[..cut];
    if cut > 8 { LongPrefixDispatchesAlike(raw, cut); }
    if cut >= 4 { assert p[..4] == raw[..4]; }
    if FormatOf(p).Jpeg? {
      assert p[..3] == raw[..3];
      assert raw[0] == raw[..3][0];
      assert |raw| >= 4 ==> raw[..4][0] == 0xFF;
      assert SpellsFtyp(raw);
      assert raw[4] == raw[4..8][0];
      ShortJpegIsSilent(p);
    }
  }

  // ------------------------------------------------------- positions

  function StepSpans(s: Step, at: nat): seq<Span>
    requires s.Advance?
  {
    if s.name.Some? then [Span(s.name.value, at + s.lo, at + s.hi)] else []
  }

  function SpansFrom(f: Format, view: seq<Byte>, at: nat): seq<Span>
    decreases |view|
  {
    var s := Probe(f, view);
    if s.Halt? then []
    else StepSpans(s, at) + (if s.last then [] else SpansFrom(f, view[s.size..], at + s.size))
  }

  function Spans(raw: seq<Byte>): seq<Span> {
    var f := FormatOf(raw);
    if StartOf(f) <= |raw| then SpansFrom(f, raw[StartOf(f)..], StartOf(f)) else []
  }

  ghost predicate InOrder(spans: seq<Span>, lo: nat, hi: nat) {
    && (forall i :: 0 <= i < |spans| ==> lo <= spans[i].lo <= spans[i].hi <= hi)
    && (forall i, j :: 0 <= i < j < |spans| ==> spans[i].hi <= spans[j].lo)
  }

  /** The regions are the slices of the file that the spans name, from offset `lo` on. */
  ghost predicate Located(raw: seq<Byte>, spans: seq<Span>, regions: seq<Region>, lo: nat) {
    && |spans| == |regions|
    && InOrder(spans, lo, |raw|)
    && (forall i :: 0 <= i < |spans| ==>
          regions[i] == Region(spans[i].name, raw[spans[i].lo..spans[i].hi]))
  }

  lemma LocatedNil(raw: seq<Byte>, lo: nat)
    ensures Located(raw, [], [], lo)
  {
  }

  lemma LocatedFrom(raw: seq<Byte>, spans: seq<Span>, regions: seq<Region>, lo: nat, next: nat)
    requires lo <= next && Located(raw, spans, regions, next)
    ensures Located(raw, spans, regions, lo)
  {
  }

  lemma LocatedPrepend(raw: seq<Byte>, sp: Span, spans: seq<Span>, regions: seq<Region>, lo: nat, next: nat)
    requires Located(raw, spans, regions, next)
    requires lo <= sp.lo <= sp.hi <= next <= |raw|
    ensures Located(raw, [sp] + spans, [Region(sp.name, raw[sp.lo..sp.hi])] + regions, lo)
  {
    var all := [sp] + spans;
    forall i, j | 0 <= i < j < |all| ensures all[i].hi <= all[j].lo {
      assert all[j] == spans[j - 1];
    }
  }

  /** One step of the walk prepends its span and its region alike. */
  lemma StepLocated(raw: seq<Byte>, at: nat, s: Step, spans: seq<Span>, regions: seq<Region>)
    requires at <= |raw| && s.Advance? && s.lo <= s.hi <= s.size <= |raw| - at
    requires Located(raw, spans, regions, at + s.size)
    ensures Located(raw, StepSpans(s, at) + spans, Emit(s, raw[at..]) + regions, at)
  {
    hide Located;
    if s.name.Some? {
      var sp := Span(s.name.value, at + s.lo, at + s.hi);
      assert raw[at..][s.lo..s.hi] == raw[sp.lo..sp.hi];
      LocatedPrepend(raw, sp, spans, regions, at, at + s.size);
    } else {
      assert [] + spans == spans && [] + regions == regions;
      LocatedFrom(raw, spans, regions, at, at + s.size);
    }
  }

  lemma {:induction false} SpansLocateWalk(f: Format, raw: seq<Byte>, at: nat)
    requires at <= |raw|
    ensures Located(raw, SpansFrom(f, raw[at..], at), Walk(f, raw[at..]), at)
    decreases |raw| - at
  {
    hide Probe, Located, Emit, StepSpans;
    LocatedNil(raw, at);
    var view := raw[at..];
    var s := Probe(f, view);
    if s.Advance? {
      LocatedNil(raw, at + s.size);
      if s.last {
        StepLocated(raw, at, s, [], []);
      } else {
        SpansLocateWalk(f, raw, at + s.size);
        assert view[s.size..] == raw[at + s.size..];
        StepLocated(raw, at, s, SpansFrom(f, view[s.size..], at + s.size), Walk(f, view[s.size..]));
      }
    }
  }

  /** Every region is a slice of the file; the slices are in bounds, disjoint and in file order. */
  lemma RegionsAreDisjointSlices(raw: seq<Byte>)
    ensures Located(raw, Spans(raw), Regions(raw), 0)
  {
    var f := FormatOf(raw);
    if StartOf(f) <= |raw| {
      SpansLocateWalk(f, raw, StartOf(f));
    }
  }

  // ------------------------------------------------------- non-interference

  /** How many bytes at the front of a view the walk looks at before deciding. */
  function HeaderLength(f: Format): nat {
    match f
    case Png => 8
    case IsoBmff => 8
    case Jpeg => 4
    case Unrecognized => 0
  }

  /** Position `i` of the view is read: it lies in a header the walk visits, or in a listed payload. */
  ghost predicate Reads(f: Format, view: seq<Byte>, i: int)
    decreases |view|
  {
    var s := Probe(f, view);
    || 0 <= i < HeaderLength(f)
    || (s.Advance? && s.name.Some? && s.lo <= i < s.hi)
    || (s.Advance? && !s.last && Reads(f, view[s.size..], i - s.size))
  }

  /** Position `i` of the file can influence what is extracted from it. */
  ghost predicate Significant(raw: seq<Byte>, i: int) {
    match FormatOf(raw)
    case Png => 0 <= i < 4 || (|raw| >= 8 && Reads(Png, raw[8..], i - 8))
    case IsoBmff => Reads(IsoBmff, raw, i)
    case Jpeg => 0 <= i < 3 || Reads(Jpeg, raw[2..], i - 2)
    case Unrecognized => 0 <= i < 8
  }

  /** `b` is `a` with only insignificant bytes overwritten, any number of them at once. */
  ghost predicate SameWhereSignificant(a: seq<Byte>, b: seq<Byte>) {
    |a| == |b| && forall i :: 0 <= i < |a| && Significant(a, i) ==> a[i] == b[i]
  }

  lemma SameHeaderSameStep(f: Format, a: seq<Byte>, b: seq<Byte>)
    requires |a| == |b|
    requires forall i :: 0 <= i < HeaderLength(f) && i < |a| ==> a[i] == b[i]
    ensures Probe(f, a) == Probe(f, b)
  {
    if f.Jpeg? && |a| >= 4 {
      assert a[2..][..2] == b[2..][..2];
    } else if |a| >= 8 && !f.Unrecognized? && !f.Jpeg? {
      assert a[4..8] == b[4..8];
    }
  }

  lemma SameSlice(f: Format, a: seq<Byte>, b: seq<Byte>, s: Step)
    requires |a| == |b| && s == Probe(f, a) && s.Advance? && s.name.Some?
    requires forall i :: 0 <= i < |a| && Reads(f, a, i) ==> a[i] == b[i]
    ensures Emit(s, a) == Emit(s, b)
  {
    hide Probe;
    forall i | s.lo <= i < s.hi ensures a[i] == b[i] {
      assert Reads(f, a, i);
    }
    assert a[s.lo..s.hi] == b[s.lo..s.hi];
  }

  lemma {:induction false} UnreadBytesDoNotMatter(f: Format, a: seq<Byte>, b: seq<Byte>)
    requires |a| == |b|
    requires forall i :: 0 <= i < |a| && Reads(f, a, i) ==> a[i] == b[i]
    ensures Walk(f, a) == Walk(f, b)
    decreases |a|
  {
    hide Probe;
    forall i | 0 <= i < HeaderLength(f) && i < |a| ensures a[i] == b[i] {
      assert Reads(f, a, i);
    }
    SameHeaderSameStep(f, a, b);
    var s := Probe(f, a);
    if s.Advance? {
      if s.name.Some? {
        SameSlice(f, a, b, s);
      }
      if !s.last {
        var a', b' := a[s.size..], b[s.size..];
        forall i | 0 <= i < |a'| && Reads(f, a', i)
          ensures a'[i] == b'[i]
        {
          assert Reads(f, a, i + s.size);
        }
        UnreadBytesDoNotMatter(f, a', b');
      }
    }
  }

  /** Overwriting any set of insignificant bytes at once leaves the dispatch as it was,
      except that a JPEG may come to spell `ftyp` at bytes 4 to 8. */
  lemma OverwriteKeepsFormat(a: seq<Byte>, b: seq<Byte>)
    requires SameWhereSignificant(a, b)
    ensures FormatOf(b) == FormatOf(a) || (FormatOf(a).Jpeg? && FormatOf(b).IsoBmff?)
  {
    match FormatOf(a)
    case Png =>
      assert b[..4] == a[..4];
    case IsoBmff =>
      forall i | 0 <= i < 8 ensures a[i] == b[i] { assert Reads(IsoBmff, a, i); }
      assert b[4..8] == a[4..8] && b[..4] == a[..4];
    case Jpeg =>
      assert b[..3] == a[..3];
      assert a[..3][0] == 0xFF;
      assert b[0] == b[..3][0];
    case Unrecognized =>
      assert |a| >= 4 ==> b[..4] == a[..4];
      assert |a| > 8 ==> b[4..8] == a[4..8];
      assert |a| >= 3 ==> b[..3] == a[..3];
  }

  /** Non-interference: bytes outside visited headers and listed payloads carry no weight. */
  lemma InsignificantBytesDoNotMatter(a: seq<Byte>, b: seq<Byte>)
    requires SameWhereSignificant(a, b)
    requires FormatOf(a).Jpeg? ==> !SpellsFtyp(b)
    ensures Regions(a) == Regions(b)
  {
    OverwriteKeepsFormat(a, b);
    var f := FormatOf(a);
    var start := StartOf(f);
    if start <= |a| && !f.Unrecognized? {
      forall i | 0 <= i < |a[start..]| && Reads(f, a[start..], i)
        ensures a[start..][i] == b[start..][i]
      {
        if f.IsoBmff? { assert a[start..] == a; }
        assert Significant(a, i + start);
      }
      UnreadBytesDoNotMatter(f, a[start..], b[start..]);
    }
  }

  /** The exact condition for a JPEG: an overwrite that spells `ftyp` silences the file, so the
      regions survive it exactly when there were none. */
  lemma JpegOverwriteExactly(a: seq<Byte>, b: seq<Byte>)
    requires SameWhereSignificant(a, b)
    requires FormatOf(a).Jpeg? && |a| < 0xFFD8_FF00
    ensures Regions(b) == Regions(a) <==> (SpellsFtyp(b) ==> Regions(a) == [])
  {
    OverwriteKeepsFormat(a, b);
    if SpellsFtyp(b) {
      assert b[..3] == a[..3];
      assert b[0] == b[..3][0] && b[1] == b[..3][1] && b[2] == b[..3][2];
      assert b[0..] == b;
      assert BigEndian32(b) >= 0xFFD8_FF00;
      assert Walk(IsoBmff, b) == [];
    } else {
      InsignificantBytesDoNotMatter(a, b);
    }
  }
}
