/** The extraction loops, proved against `Regions`. */
module ProvenanceExtraction {
  import opened Basics
  import opened Provenance

  /** A loop stopping at `offset` is done when the rest of the walk yields nothing more. */
  lemma WalkStep(f: Format, raw: seq<Byte>, offset: nat)
    requires offset <= |raw|
    ensures Probe(f, raw[offset..]).Halt? ==> Walk(f, raw[offset..]) == []
    ensures var s := Probe(f, raw[offset..]);
            s.Advance? ==>
              && offset + s.size <= |raw|
              && Walk(f, raw[offset..]) ==
                 (if s.name.Some? then [Region(s.name.value, raw[offset + s.lo..offset + s.hi])] else [])
                 + (if s.last then [] else Walk(f, raw[offset + s.size..]))
  {
    hide Probe;
    var s := Probe(f, raw[offset..]);
    if s.Advance? {
      assert raw[offset..][s.lo..s.hi] == raw[offset + s.lo..offset + s.hi];
      assert raw[offset..][s.size..] == raw[offset + s.size..];
    }
  }

  method ExtractPng(raw: seq<Byte>) returns (regions: seq<Region>)
    requires |raw| >= 4
    ensures regions == if |raw| < 8 then [] else Walk(Png, raw[8..])
  {
    hide Walk;
    regions := [];
    var offset := 8;
    while offset + 8 <= |raw|
      invariant 8 <= offset
      invariant |raw| < 8 ==> regions == [] && offset == 8
      invariant |raw| >= 8 ==> offset <= |raw| && regions + Walk(Png, raw[offset..]) == Walk(Png, raw[8..])
      decreases |raw| - offset
    {
      WalkStep(Png, raw, offset);
      var view := raw[offset..];
      assert view[4..8] == raw[offset + 4..offset + 8];
      var length := BigEndian32(raw[offset..offset + 4]);
      assert length == BigEndian32(view);
      var kind := raw[offset + 4..offset + 8];
      if offset + 12 + length > |raw| {
        break;
      }
      var name := PngName(kind);
      if name.Some? {
        regions := regions + [Region(name.value, raw[offset + 8..offset + 8 + length])];
      }
      if kind == IEND {
        break;
      }
      offset := offset + 12 + length;
    }
    if |raw| >= 8 && offset + 8 > |raw| {
      WalkStep(Png, raw, offset);
    }
  }

  method ExtractIsoBmff(raw: seq<Byte>) returns (regions: seq<Region>)
    ensures regions == Walk(IsoBmff, raw)
  {
    hide Walk;
    regions := [];
    var offset := 0;
    assert raw[0..] == raw;
    while offset + 8 <= |raw|
      invariant offset <= |raw|
      invariant regions + Walk(IsoBmff, raw[offset..]) == Walk(IsoBmff, raw)
      decreases |raw| - offset
    {
      WalkStep(IsoBmff, raw, offset);
      var view := raw[offset..];
      assert view[4..8] == raw[offset + 4..offset + 8];
      var size := BigEndian32(raw[offset..offset + 4]);
      assert size == BigEndian32(view);
      var kind := raw[offset + 4..offset + 8];
      if size < 8 || offset + size > |raw| {
        break;
      }
      var name := BoxName(kind);
      if name.Some? {
        regions := regions + [Region(name.value, raw[offset + 8..offset + size])];
      }
      offset := offset + size;
    }
    if offset + 8 > |raw| {
      WalkStep(IsoBmff, raw, offset);
    }
  }

  method ExtractJpeg(raw: seq<Byte>) returns (regions: seq<Region>)
    requires |raw| >= 3
    ensures regions == Walk(Jpeg, raw[2..])
  {
    hide Walk;
    regions := [];
    var offset := 2;
    while offset + 4 <= |raw|
      invariant 2 <= offset <= |raw|
      invariant regions + Walk(Jpeg, raw[offset..]) == Walk(Jpeg, raw[2..])
      decreases |raw| - offset
    {
      WalkStep(Jpeg, raw, offset);
      var view := raw[offset..];
      if raw[offset] != 0xFF {
        break;
      }
      var marker := raw[offset + 1];
      if marker == 0xDA {
        break;
      }
      if marker in {0xD8, 0xD9} {
        offset := offset + 2;
        continue;
      }
      var length := BigEndian16(raw[offset + 2..offset + 4]);
      assert length == BigEndian16(view[2..]);
      if length < 2 || offset + 2 + length > |raw| {
        break;
      }
      var name := SegmentName(marker);
      if name.Some? {
        regions := regions + [Region(name.value, raw[offset + 4..offset + 2 + length])];
      }
      offset := offset + 2 + length;
    }
    if offset + 4 > |raw| {
      WalkStep(Jpeg, raw, offset);
    }
  }

  method ExtractProvenanceRegions(raw: seq<Byte>) returns (regions: seq<Region>)
    ensures regions == Regions(raw)
  {
    hide Walk;
    if |raw| >= 4 && raw[..4] == PNG_MAGIC {
      regions := ExtractPng(raw);
    } else if |raw| > 8 && raw[4..8] == FTYP {
      assert raw[0..] == raw;
      regions := ExtractIsoBmff(raw);
    } else if |raw| >= 3 && raw[..3] == JPEG_MAGIC {
      regions := ExtractJpeg(raw);
    } else {
      regions := [];
      WalkStep(Unrecognized, raw, 0);
    }
  }
}
