/** Writers for the three containers, from the PNG Specification section 5.3, ISO/IEC 14496-12
    section 4.2 and ITU-T T.81 section B.1.1.4, and the proof that extraction undoes them. */
module ProvenanceWriter {
  import opened Basics
  import opened Provenance

  type Tag = t: seq<Byte> | |t| == 4 witness [0, 0, 0, 0]

  /** Payloads whose length fits the container's own length field. */
  type ChunkData = d: seq<Byte> | |d| < 0x1_0000_0000 witness []
  type BoxData = d: seq<Byte> | 8 + |d| < 0x1_0000_0000 witness []
  type SegmentData = d: seq<Byte> | |d| + 2 < 0x1_0000 witness []

  /** A marker that carries a length and may precede start of scan. */
  type LengthMarker = m: Byte | m != 0xDA && m != 0xD8 && m != 0xD9 witness 0xE0

  datatype Chunk = Chunk(kind: Tag, data: ChunkData, crc: Tag)
  datatype Box = Box(kind: Tag, data: BoxData)

  /** A segment with a length, or one of the two markers that stand alone: start and end of image. */
  datatype Segment = Segment(marker: LengthMarker, data: SegmentData) | StartOfImage | EndOfImage

  /** The bytes of an ASCII text. */
  function Ascii(text: string): (bytes: seq<Byte>)
    requires forall i :: 0 <= i < |text| ==> text[i] as int < 128
    ensures |bytes| == |text|
  {
    seq(|text|, i requires 0 <= i < |text| => text[i] as int)
  }

  // ------------------------------------------------------- what is listed

  /** The chunk types that carry provenance, and the name each goes by. The parser has tables of its own. */
  function ChunkListing(kind: seq<Byte>): Option<string> {
    if kind == Ascii("caBX") then Some("PNG_caBX")
    else if kind == Ascii("eXIf") then Some("PNG_eXIf")
    else if kind == Ascii("iTXt") then Some("PNG_iTXt")
    else if kind == Ascii("tEXt") then Some("PNG_tEXt")
    else if kind == Ascii("zTXt") then Some("PNG_zTXt")
    else None
  }

  function BoxListing(kind: seq<Byte>): Option<string> {
    if kind == Ascii("meta") then Some("ISOBMFF_meta")
    else if kind == Ascii("uuid") then Some("ISOBMFF_uuid")
    else None
  }

  function SegmentListing(marker: Byte): Option<string> {
    match marker as int
    case 225 => Some("APP1_EXIF_OR_XMP")
    case 235 => Some("APP11_JUMBF_C2PA")
    case 237 => Some("APP13_IPTC")
    case _ => None
  }

  /** The parser's tables say the same, type by type. */
  lemma ChunkNamesAgree(kind: seq<Byte>)
    ensures PngName(kind) == ChunkListing(kind)
  {
    assert Ascii("caBX") == CABX && Latin1(CABX) == "caBX";
    assert Ascii("eXIf") == EXIF && Latin1(EXIF) == "eXIf";
    assert Ascii("iTXt") == ITXT && Latin1(ITXT) == "iTXt";
    assert Ascii("tEXt") == TEXT && Latin1(TEXT) == "tEXt";
    assert Ascii("zTXt") == ZTXT && Latin1(ZTXT) == "zTXt";
    hide Ascii, Latin1;
    assert "PNG_" + "caBX" == "PNG_caBX" && "PNG_" + "eXIf" == "PNG_eXIf" && "PNG_" + "iTXt" == "PNG_iTXt";
    assert "PNG_" + "tEXt" == "PNG_tEXt" && "PNG_" + "zTXt" == "PNG_zTXt";
  }

  lemma BoxNamesAgree(kind: seq<Byte>)
    ensures BoxName(kind) == BoxListing(kind)
  {
    assert Ascii("meta") == META && Latin1(META) == "meta";
    assert Ascii("uuid") == UUID && Latin1(UUID) == "uuid";
    hide Ascii, Latin1;
    assert "ISOBMFF_" + "meta" == "ISOBMFF_meta" && "ISOBMFF_" + "uuid" == "ISOBMFF_uuid";
  }

  lemma SegmentNamesAgree(marker: Byte)
    ensures SegmentName(marker) == SegmentListing(marker)
  {
  }

  /** The signatures and types that steer the parser, as the standards spell them. */
  lemma SignaturesAgree()
    ensures PNG_MAGIC == [137] + Ascii("PNG") && FTYP == Ascii("ftyp") && IEND == Ascii("IEND")
    ensures JPEG_MAGIC == [255, 216, 255]
  {
  }

  function Encode16(n: nat): (bytes: seq<Byte>)
    requires n < 0x1_0000
    ensures |bytes| == 2
  {
    [n / 0x100, n % 0x100]
  }

  function Encode32(n: nat): (bytes: seq<Byte>)
    requires n < 0x1_0000_0000
    ensures |bytes| == 4
  {
    [n / 0x100_0000, n / 0x1_0000 % 0x100, n / 0x100 % 0x100, n % 0x100]
  }

  lemma Decode16(n: nat, rest: seq<Byte>)
    requires n < 0x1_0000
    ensures BigEndian16(Encode16(n) + rest) == n
  {
  }

  lemma Decode32(n: nat, rest: seq<Byte>)
    requires n < 0x1_0000_0000
    ensures BigEndian32(Encode32(n) + rest) == n
  {
    var q := n / 0x100;
    var r := q / 0x100;
    assert n / 0x1_0000 == r && n / 0x100_0000 == r / 0x100;
    assert n == q * 0x100 + n % 0x100 && q == r * 0x100 + q % 0x100 && r == r / 0x100 * 0x100 + r % 0x100;
  }

  /** The value of the first bytes, written again, gives the first bytes. */
  lemma Encoded16(view: seq<Byte>)
    requires |view| >= 2
    ensures BigEndian16(view) < 0x1_0000 && Encode16(BigEndian16(view)) == view[..2]
  {
  }

  lemma Encoded32(view: seq<Byte>)
    requires |view| >= 4
    ensures BigEndian32(view) < 0x1_0000_0000 && Encode32(BigEndian32(view)) == view[..4]
  {
    var n := BigEndian32(view);
    var b0: nat, b1: nat, b2: nat, b3: nat := view[0], view[1], view[2], view[3];
    assert n / 0x100 == b0 * 0x1_0000 + b1 * 0x100 + b2 && n % 0x100 == b3;
    assert n / 0x1_0000 == b0 * 0x100 + b1 && n / 0x100_0000 == b0;
  }

  /** Slicing a view that was written as header, payload and rest. */
  lemma Slices<T>(head: seq<T>, body: seq<T>, foot: seq<T>, rest: seq<T>)
    ensures (head + body + foot + rest)[|head|..|head| + |body|] == body
    ensures (head + body + foot + rest)[|head| + |body| + |foot|..] == rest
  {
  }

  /** Which format a file is read as, by its first bytes and in this order; any other file has nothing listed. */
  lemma FormatExactly(raw: seq<Byte>)
    ensures var png := |raw| >= 4 && raw[..4] == [137] + Ascii("PNG");
            var iso := |raw| > 8 && raw[4..8] == Ascii("ftyp");
            var jpeg := |raw| >= 3 && raw[..3] == [255, 216, 255];
            && (FormatOf(raw).Png? <==> png)
            && (FormatOf(raw).IsoBmff? <==> !png && iso)
            && (FormatOf(raw).Jpeg? <==> !png && !iso && jpeg)
            && (!png && !iso && !jpeg ==> Regions(raw) == [])
  {
    SignaturesAgree();
    UnrecognizedIsSilent(raw);
    assert raw[0..] == raw;
    hide Ascii, Walk;
  }

  // ------------------------------------------------------- PNG

  function ChunkBytes(c: Chunk): (bytes: seq<Byte>)
    ensures |bytes| >= 12
  {
    Encode32(|c.data|) + c.kind + c.data + c.crc
  }

  function ChunksBytes(cs: seq<Chunk>): seq<Byte>
  {
    if cs == [] then [] else ChunkBytes(cs[0]) + ChunksBytes(cs[1..])
  }

  function PngFile(cs: seq<Chunk>, trailer: seq<Byte>): seq<Byte>
  {
    [137] + Ascii("PNG") + [13, 10, 26, 10] + (ChunksBytes(cs) + trailer)
  }

  /** No whole chunk stands in front. */
  ghost predicate NoChunk(tail: seq<Byte>) {
    forall c: Chunk :: !(ChunkBytes(c) <= tail)
  }

  /** The parser steps over whole chunks only. */
  lemma WholeChunk(view: seq<Byte>)
    requires Probe(Png, view).Advance?
    ensures exists c: Chunk :: ChunkBytes(c) <= view
  {
    Encoded32(view);
    var n := BigEndian32(view);
    var c := Chunk(view[4..8], view[8..8 + n], view[8 + n..12 + n]);
    assert ChunkBytes(c) == view[..12 + n];
  }

  lemma NoChunkHalts(tail: seq<Byte>)
    requires NoChunk(tail)
    ensures Probe(Png, tail).Halt?
  {
    hide Probe, ChunkBytes;
    if Probe(Png, tail).Advance? {
      WholeChunk(tail);
    }
  }

  predicate Ended(cs: seq<Chunk>) { exists c :: c in cs && c.kind == Ascii("IEND") }

  /** The listed chunks up to the end marker, with their exact data. */
  function ListedChunks(cs: seq<Chunk>): seq<Region> {
    if cs == [] then []
    else
      var name := ChunkListing(cs[0].kind);
      (if name.Some? then [Region(name.value, cs[0].data)] else []) +
      (if cs[0].kind == Ascii("IEND") then [] else ListedChunks(cs[1..]))
  }

  lemma ProbeChunk(c: Chunk, rest: seq<Byte>)
    ensures var n := |c.data|;
            var view := ChunkBytes(c) + rest;
            && Probe(Png, view) == Advance(PngName(c.kind), 8, 8 + n, 12 + n, c.kind == IEND)
            && view[8..8 + n] == c.data && view[12 + n..] == rest
  {
    var n := |c.data|;
    var size := Encode32(n);
    var view := ChunkBytes(c) + rest;
    assert view == size + (c.kind + c.data + c.crc + rest);
    Decode32(n, c.kind + c.data + c.crc + rest);
    assert view[4..8] == c.kind;
    Slices(size + c.kind, c.data, c.crc, rest);
  }

  lemma {:induction false} WalkChunks(cs: seq<Chunk>, trailer: seq<Byte>)
    requires NoChunk(trailer) || Ended(cs)
    ensures Walk(Png, ChunksBytes(cs) + trailer) == ListedChunks(cs)
  {
    hide Probe, ChunkBytes, NoChunk;
    if cs == [] {
      assert ChunksBytes(cs) + trailer == trailer;
      NoChunkHalts(trailer);
    } else {
      var rest := ChunksBytes(cs[1..]) + trailer;
      assert ChunksBytes(cs) + trailer == ChunkBytes(cs[0]) + rest;
      ProbeChunk(cs[0], rest);
      ChunkNamesAgree(cs[0].kind);
      SignaturesAgree();
      hide PngName, ChunkListing, Ascii;
      if cs[0].kind != IEND {
        WalkChunks(cs[1..], trailer);
      }
    }
  }

  /** Any bytes at all are whole chunks and something that is none, so the round trip speaks of every file. */
  lemma {:induction false} ChunksDecompose(view: seq<Byte>)
    ensures exists cs: seq<Chunk>, tail: seq<Byte> :: view == ChunksBytes(cs) + tail && NoChunk(tail)
    decreases |view|
  {
    hide ChunkBytes;
    if NoChunk(view) {
      assert view == ChunksBytes([]) + view;
    } else {
      var first: Chunk :| ChunkBytes(first) <= view;
      var rest := view[|ChunkBytes(first)|..];
      ChunksDecompose(rest);
      var cs: seq<Chunk>, tail: seq<Byte> :| rest == ChunksBytes(cs) + tail && NoChunk(tail);
      assert ([first] + cs)[1..] == cs;
      assert view == ChunksBytes([first] + cs) + tail;
    }
  }

  /** Every list of PNG chunks, with anything at all after the end marker, and without one with anything that is no
      whole chunk: nothing, a chunk that was cut, or bytes of another kind. */
  lemma PngRoundTrip(cs: seq<Chunk>, trailer: seq<Byte>)
    requires NoChunk(trailer) || Ended(cs)
    ensures Regions(PngFile(cs, trailer)) == ListedChunks(cs)
  {
    SignaturesAgree();
    var raw := PngFile(cs, trailer);
    assert raw[..4] == PNG_MAGIC;
    assert raw[8..] == ChunksBytes(cs) + trailer;
    WalkChunks(cs, trailer);
  }

  // ------------------------------------------------------- ISO base media

  function BoxBytes(b: Box): (bytes: seq<Byte>)
    ensures |bytes| >= 8
  {
    Encode32(8 + |b.data|) + b.kind + b.data
  }

  function IsoFile(bs: seq<Box>): seq<Byte>
  {
    if bs == [] then [] else BoxBytes(bs[0]) + IsoFile(bs[1..])
  }

  function ListedBoxes(bs: seq<Box>): seq<Region> {
    if bs == [] then []
    else
      var name := BoxListing(bs[0].kind);
      (if name.Some? then [Region(name.value, bs[0].data)] else []) + ListedBoxes(bs[1..])
  }

  predicate IsoBoxes(bs: seq<Box>) {
    bs != [] && bs[0].kind == Ascii("ftyp")
  }

  lemma ProbeBoxBytes(b: Box, rest: seq<Byte>)
    ensures var n := 8 + |b.data|;
            var view := BoxBytes(b) + rest;
            && Probe(IsoBmff, view) == Advance(BoxName(b.kind), 8, n, n, false)
            && view[8..n] == b.data && view[n..] == rest
  {
    var n := 8 + |b.data|;
    var size := Encode32(n);
    var view := BoxBytes(b) + rest;
    assert view == size + (b.kind + b.data + rest);
    Decode32(n, b.kind + b.data + rest);
    assert view[4..8] == b.kind;
    Slices(size + b.kind, b.data, [], rest);
    assert view == size + b.kind + b.data + [] + rest;
  }

  /** No whole box stands in front; a box that declares less than its own header is none. */
  ghost predicate NoBox(tail: seq<Byte>) {
    forall b: Box :: !(BoxBytes(b) <= tail)
  }

  lemma WholeBox(view: seq<Byte>)
    requires Probe(IsoBmff, view).Advance?
    ensures exists b: Box :: BoxBytes(b) <= view
  {
    Encoded32(view);
    var n := BigEndian32(view);
    var b := Box(view[4..8], view[8..n]);
    assert BoxBytes(b) == view[..n];
  }

  lemma NoBoxHalts(tail: seq<Byte>)
    requires NoBox(tail)
    ensures Probe(IsoBmff, tail).Halt?
  {
    hide Probe, BoxBytes;
    if Probe(IsoBmff, tail).Advance? {
      WholeBox(tail);
    }
  }

  lemma {:induction false} WalkBoxes(bs: seq<Box>, tail: seq<Byte>)
    requires NoBox(tail)
    ensures Walk(IsoBmff, IsoFile(bs) + tail) == ListedBoxes(bs)
  {
    hide Probe, BoxBytes, NoBox;
    if bs == [] {
      assert IsoFile(bs) + tail == tail;
      NoBoxHalts(tail);
    } else {
      var rest := IsoFile(bs[1..]) + tail;
      assert IsoFile(bs) + tail == BoxBytes(bs[0]) + rest;
      ProbeBoxBytes(bs[0], rest);
      BoxNamesAgree(bs[0].kind);
      hide BoxName, BoxListing;
      WalkBoxes(bs[1..], tail);
    }
  }

  const PNG_MAGIC_SIZE: nat := 0x8950_4E47

  lemma OtherSizeIsNotMagic(raw: seq<Byte>)
    requires |raw| >= 4 && BigEndian32(raw) != PNG_MAGIC_SIZE
    ensures raw[..4] != PNG_MAGIC
  {
    var m := raw[..4];
    assert raw[0] == m[0] && raw[1] == m[1] && raw[2] == m[2] && raw[3] == m[3];
  }

  lemma IsoHeader(bs: seq<Box>, tail: seq<Byte>)
    requires IsoBoxes(bs)
    ensures var raw := IsoFile(bs) + tail;
            |raw| >= 8 && BigEndian32(raw) == 8 + |bs[0].data| && raw[4..8] == FTYP
    ensures |IsoFile(bs) + tail| == 8 ==> |bs| == 1 && bs[0].data == [] && tail == []
  {
    SignaturesAgree();
    var raw := IsoFile(bs) + tail;
    var n := 8 + |bs[0].data|;
    var others := IsoFile(bs[1..]);
    var rest := bs[0].kind + bs[0].data + others + tail;
    assert IsoFile(bs) == Encode32(n) + bs[0].kind + bs[0].data + others;
    assert |bs| > 1 ==> |others| >= 8;
    hide IsoFile, Ascii;
    assert raw == Encode32(n) + rest;
    Decode32(n, rest);
    assert raw[4..8] == FTYP;
  }

  /** Any bytes at all are whole boxes and something that is none, so the round trip speaks of every file. */
  lemma {:induction false} BoxesDecompose(view: seq<Byte>)
    ensures exists bs: seq<Box>, tail: seq<Byte> :: view == IsoFile(bs) + tail && NoBox(tail)
    decreases |view|
  {
    hide BoxBytes;
    if NoBox(view) {
      assert view == IsoFile([]) + view;
    } else {
      var first: Box :| BoxBytes(first) <= view;
      var rest := view[|BoxBytes(first)|..];
      BoxesDecompose(rest);
      var bs: seq<Box>, tail: seq<Byte> :| rest == IsoFile(bs) + tail && NoBox(tail);
      assert ([first] + bs)[1..] == bs;
      assert view == IsoFile([first] + bs) + tail;
    }
  }

  /** Every list of boxes led by `ftyp`, whatever follows that is no whole box, unless the size of the first spells the
      PNG signature. */
  lemma IsoRoundTrip(bs: seq<Box>, tail: seq<Byte>)
    requires IsoBoxes(bs) && NoBox(tail)
    requires 8 + |bs[0].data| != PNG_MAGIC_SIZE
    ensures Regions(IsoFile(bs) + tail) == ListedBoxes(bs)
  {
    hide Walk, ListedBoxes, IsoFile, NoBox;
    var raw := IsoFile(bs) + tail;
    IsoHeader(bs, tail);
    OtherSizeIsNotMagic(raw);
    if |raw| > 8 {
      assert FormatOf(raw).IsoBmff?;
      assert raw[0..] == raw;
      WalkBoxes(bs, tail);
    } else {
      assert raw == IsoFile(bs);
      LoneFtypIsSilent(bs);
    }
  }

  lemma UnrecognizedIsSilent(view: seq<Byte>)
    ensures Walk(Unrecognized, view) == []
  {
  }

  /** An empty `ftyp` box alone is too short to be dispatched, and lists nothing. */
  lemma LoneFtypIsSilent(bs: seq<Box>)
    requires IsoBoxes(bs) && |bs| == 1 && bs[0].data == []
    ensures Regions(IsoFile(bs)) == ListedBoxes(bs)
  {
    SignaturesAgree();
    BoxNamesAgree(FTYP);
    hide Walk, Ascii, BoxListing;
    var raw := IsoFile(bs);
    assert bs[1..] == [];
    assert raw == BoxBytes(bs[0]) + [] == [0, 0, 0, 8] + FTYP;
    assert raw[..3][0] == 0 && raw[..4][0] == 0;
    assert FormatOf(raw).Unrecognized? && raw[0..] == raw;
    UnrecognizedIsSilent(raw);
    assert BoxName(FTYP).None?;
  }

  /** A file whose one `ftyp` box hides a PNG text chunk behind a size spelling the PNG signature. */
  function MisreadBox(): Box {
    Box(FTYP, [0, 0, 0, 0] + TEXT + Repeat(0, PNG_MAGIC_SIZE - 16))
  }

  lemma SingleBox(b: Box)
    ensures IsoFile([b]) == Encode32(8 + |b.data|) + b.kind + b.data
  {
    assert [b][1..] == [];
    assert IsoFile([b]) == BoxBytes(b) + [];
  }

  lemma MisreadBoxIsMisread()
    ensures IsoBoxes([MisreadBox()])
    ensures Regions(IsoFile([MisreadBox()])) != ListedBoxes([MisreadBox()])
  {
    SignaturesAgree();
    BoxNamesAgree(FTYP);
    hide Ascii, BoxListing;
    var b := MisreadBox();
    assert |b.data| == PNG_MAGIC_SIZE - 8;
    var raw := IsoFile([b]);
    SingleBox(b);
    assert Encode32(PNG_MAGIC_SIZE) == PNG_MAGIC;
    assert raw[..4] == PNG_MAGIC;
    var view := raw[8..];
    assert view == b.data;
    assert view[4..8] == TEXT;
    assert BigEndian32(view) == 0;
    assert view[8..8] == [];
    assert Walk(Png, view)[0] == Region("PNG_" + Latin1(TEXT), []);
    assert ListedBoxes([b]) == [];
  }

  /** Exactly when a first box size is safe: every file it leads is read back as written. */
  lemma IsoRoundTripExactly(n: nat)
    requires 8 <= n < 0x1_0000_0000
    ensures (forall bs: seq<Box>, tail: seq<Byte> :: IsoBoxes(bs) && NoBox(tail) && 8 + |bs[0].data| == n ==>
               Regions(IsoFile(bs) + tail) == ListedBoxes(bs))
            <==> n != PNG_MAGIC_SIZE
  {
    if n == PNG_MAGIC_SIZE {
      var bs := [MisreadBox()];
      MisreadBoxIsMisread();
      assert |bs[0].data| == PNG_MAGIC_SIZE - 8;
      assert IsoFile(bs) + [] == IsoFile(bs) && NoBox([]);
    } else {
      forall bs: seq<Box>, tail: seq<Byte> | IsoBoxes(bs) && NoBox(tail) && 8 + |bs[0].data| == n
        ensures Regions(IsoFile(bs) + tail) == ListedBoxes(bs)
      {
        IsoRoundTrip(bs, tail);
      }
    }
  }

  // ------------------------------------------------------- JPEG

  function SegmentBytes(s: Segment): (bytes: seq<Byte>)
    ensures |bytes| >= 2 && bytes[0] == 0xFF
  {
    match s
    case Segment(marker, data) => [0xFF, marker] + Encode16(|data| + 2) + data
    case StartOfImage => [0xFF, 0xD8]
    case EndOfImage => [0xFF, 0xD9]
  }

  function SegmentsBytes(ss: seq<Segment>): seq<Byte>
  {
    if ss == [] then [] else SegmentBytes(ss[0]) + SegmentsBytes(ss[1..])
  }

  /** No whole segment stands in front: start of scan and whatever follows it, a segment that was cut, or no marker. */
  ghost predicate NoSegment(scan: seq<Byte>) {
    forall s: Segment :: !(SegmentBytes(s) <= scan)
  }

  lemma WholeSegment(view: seq<Byte>)
    requires Probe(Jpeg, view).Advance?
    ensures exists s: Segment :: SegmentBytes(s) <= view
  {
    if view[1] == 0xD8 {
      assert SegmentBytes(StartOfImage) == view[..2];
    } else if view[1] == 0xD9 {
      assert SegmentBytes(EndOfImage) == view[..2];
    } else {
      Encoded16(view[2..]);
      var n := BigEndian16(view[2..]);
      var s := Segment(view[1], view[4..2 + n]);
      assert view[2..][..2] == view[2..4];
      assert SegmentBytes(s) == view[..2 + n];
    }
  }

  lemma ScanHalts(scan: seq<Byte>)
    requires NoSegment(scan)
    ensures Probe(Jpeg, scan).Halt?
  {
    hide Probe, SegmentBytes;
    if Probe(Jpeg, scan).Advance? {
      WholeSegment(scan);
    }
  }

  /** Start of scan, and anything after it, is such. */
  lemma ScanIsNoSegment(scan: seq<Byte>)
    requires scan == [] || (|scan| >= 2 && scan[0] == 0xFF && scan[1] == 0xDA)
    ensures NoSegment(scan)
  {
    forall s: Segment ensures !(SegmentBytes(s) <= scan) {
      assert SegmentBytes(s)[1] != 0xDA;
    }
  }

  function JpegFile(ss: seq<Segment>, scan: seq<Byte>): seq<Byte>
  {
    [0xFF, 0xD8] + (SegmentsBytes(ss) + scan)
  }

  function ListedSegments(ss: seq<Segment>): seq<Region> {
    if ss == [] then []
    else
      var name := if ss[0].Segment? then SegmentListing(ss[0].marker) else None;
      (if name.Some? then [Region(name.value, ss[0].data)] else []) + ListedSegments(ss[1..])
  }

  lemma ProbeSegmentBytes(s: Segment, rest: seq<Byte>)
    requires s.Segment?
    ensures var n := 4 + |s.data|;
            var view := SegmentBytes(s) + rest;
            && Probe(Jpeg, view) == Advance(SegmentName(s.marker), 4, n, n, false)
            && view[4..n] == s.data && view[n..] == rest
  {
    var n := |s.data| + 2;
    var size := Encode16(n);
    var view := SegmentBytes(s) + rest;
    assert view[2..] == size + (s.data + rest);
    Decode16(n, s.data + rest);
    Slices([0xFF, s.marker] + size, s.data, [], rest);
    assert view == [0xFF, s.marker] + size + s.data + [] + rest;
  }

  lemma {:induction false} WalkSegments(ss: seq<Segment>, scan: seq<Byte>)
    requires NoSegment(scan)
    ensures Walk(Jpeg, SegmentsBytes(ss) + scan) == ListedSegments(ss)
  {
    hide Walk, SegmentBytes, SegmentName, SegmentListing, NoSegment, Probe;
    if ss == [] {
      assert SegmentsBytes(ss) + scan == scan;
      ScanHalts(scan);
      WalkUnfolds(Jpeg, scan);
    } else {
      WalkSegments(ss[1..], scan);
      if ss[0].Segment? {
        SegmentNamesAgree(ss[0].marker);
        WalkSegmentStep(ss, scan);
      } else {
        WalkStandaloneStep(ss, scan);
      }
    }
  }

  lemma WalkSegmentStep(ss: seq<Segment>, scan: seq<Byte>)
    requires ss != [] && ss[0].Segment?
    ensures Walk(Jpeg, SegmentsBytes(ss) + scan) ==
            (if SegmentName(ss[0].marker).Some? then [Region(SegmentName(ss[0].marker).value, ss[0].data)] else [])
            + Walk(Jpeg, SegmentsBytes(ss[1..]) + scan)
  {
    hide Probe, SegmentBytes;
    var rest := SegmentsBytes(ss[1..]) + scan;
    assert SegmentsBytes(ss) + scan == SegmentBytes(ss[0]) + rest;
    ProbeSegmentBytes(ss[0], rest);
  }

  /** A marker that stands alone is stepped over; with nothing after it there is nothing left to find. */
  lemma WalkStandaloneStep(ss: seq<Segment>, scan: seq<Byte>)
    requires ss != [] && !ss[0].Segment?
    ensures Walk(Jpeg, SegmentsBytes(ss) + scan) == Walk(Jpeg, SegmentsBytes(ss[1..]) + scan)
  {
    hide Walk, SegmentsBytes;
    var marker := if ss[0].StartOfImage? then 0xD8 else 0xD9;
    SegmentsUnfold(ss, scan);
    StandaloneIsSkipped(marker, SegmentsBytes(ss[1..]) + scan);
  }

  lemma SegmentsUnfold(ss: seq<Segment>, scan: seq<Byte>)
    requires ss != []
    ensures SegmentsBytes(ss) + scan == SegmentBytes(ss[0]) + (SegmentsBytes(ss[1..]) + scan)
  {
    hide SegmentBytes;
  }

  lemma ProbeStandalone(marker: Byte, rest: seq<Byte>)
    requires marker in {0xD8, 0xD9}
    ensures Probe(Jpeg, [0xFF, marker] + rest) == if |rest| < 2 then Halt else Advance(None, 2, 2, 2, false)
  {
  }

  lemma WalkUnfolds(f: Format, view: seq<Byte>)
    ensures Walk(f, view) ==
            if Probe(f, view).Halt? then []
            else Emit(Probe(f, view), view) + (if Probe(f, view).last then [] else Walk(f, view[Probe(f, view).size..]))
  {
    hide Probe, Emit;
  }

  lemma StandaloneIsSkipped(marker: Byte, rest: seq<Byte>)
    requires marker in {0xD8, 0xD9}
    ensures Walk(Jpeg, [0xFF, marker] + rest) == Walk(Jpeg, rest)
  {
    var short := |rest| < 2 ==> Probe(Jpeg, rest).Halt?;
    assert short;
    hide Probe, Walk;
    var view := [0xFF, marker] + rest;
    ProbeStandalone(marker, rest);
    WalkUnfolds(Jpeg, view);
    WalkUnfolds(Jpeg, rest);
    assert view[2..] == rest;
  }

  /** Any bytes at all are whole segments and something that is none, so the round trip speaks of every file. */
  lemma {:induction false} SegmentsDecompose(view: seq<Byte>)
    ensures exists ss: seq<Segment>, tail: seq<Byte> :: view == SegmentsBytes(ss) + tail && NoSegment(tail)
    decreases |view|
  {
    hide SegmentBytes;
    if NoSegment(view) {
      assert view == SegmentsBytes([]) + view;
    } else {
      var first: Segment :| SegmentBytes(first) <= view;
      var rest := view[|SegmentBytes(first)|..];
      SegmentsDecompose(rest);
      var ss: seq<Segment>, tail: seq<Byte> :| rest == SegmentsBytes(ss) + tail && NoSegment(tail);
      assert ([first] + ss)[1..] == ss;
      assert view == SegmentsBytes([first] + ss) + tail;
    }
  }

  /** Every list of segments, markers that stand alone among them, and whatever follows that is no whole segment, as
      long as the file does not spell `ftyp`. */
  lemma JpegRoundTrip(ss: seq<Segment>, scan: seq<Byte>)
    requires NoSegment(scan) && !SpellsFtyp(JpegFile(ss, scan))
    ensures Regions(JpegFile(ss, scan)) == ListedSegments(ss)
  {
    var raw := JpegFile(ss, scan);
    var view := SegmentsBytes(ss) + scan;
    assert raw[2..] == view;
    WalkSegments(ss, scan);
    hide Walk, NoSegment, SegmentBytes;
    assert |raw| >= 4 ==> raw[..4][0] == 0xFF;
    if view != [] && view[0] == 0xFF {
      assert raw[..3] == JPEG_MAGIC;
    } else {
      assert ss == [];
      assert |raw| >= 3 ==> raw[..3][2] != 0xFF;
      UnrecognizedIsSilent(raw[0..]);
    }
  }

  /** Exactly when a JPEG is read back as written: one that spells `ftyp` is read as nothing. */
  lemma JpegRoundTripExactly(ss: seq<Segment>, scan: seq<Byte>)
    requires NoSegment(scan) && |JpegFile(ss, scan)| < 0xFFD8_0000
    ensures Regions(JpegFile(ss, scan)) == ListedSegments(ss)
            <==> (SpellsFtyp(JpegFile(ss, scan)) ==> ListedSegments(ss) == [])
  {
    var raw := JpegFile(ss, scan);
    if SpellsFtyp(raw) {
      assert raw[..4][0] == 0xFF;
      assert raw[0..] == raw && BigEndian32(raw) >= 0xFFD8_0000;
      assert Walk(IsoBmff, raw) == [];
    } else {
      JpegRoundTrip(ss, scan);
    }
  }

  /** Such files exist: a first segment of 26228 bytes whose data starts with `yp`. */
  lemma JpegSpellingFtypLosesItsExif()
    ensures var ss := [Segment(0xE0, [0x79, 0x70] + Repeat(0, 0x6670)), Segment(0xE1, [])];
            Regions(JpegFile(ss, [])) == []
            && ListedSegments(ss) == [Region("APP1_EXIF_OR_XMP", [])]
  {
    var filler := Repeat(0, 0x6670);
    var first := Segment(0xE0, [0x79, 0x70] + filler);
    var ss := [first, Segment(0xE1, [])];
    assert ss[1..] == [Segment(0xE1, [])] && ss[1..][1..] == [];
    var raw := JpegFile(ss, []);
    assert SegmentsBytes(ss[1..]) == SegmentBytes(Segment(0xE1, [])) + [];
    assert raw == [0xFF, 0xD8] + (SegmentBytes(first) + SegmentsBytes(ss[1..]) + []);
    assert SegmentBytes(first) == [0xFF, 0xE0, 0x66, 0x74, 0x79, 0x70] + filler;
    assert raw[4..8] == FTYP;
    assert ListedSegments(ss[1..]) == [Region("APP1_EXIF_OR_XMP", [])];
    ScanIsNoSegment([]);
    JpegRoundTripExactly(ss, []);
    assert raw[0..] == raw && raw[..4][0] == 0xFF;
    assert Walk(IsoBmff, raw) == [];
  }
}
