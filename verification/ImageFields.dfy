/** What images say in their bytes: dimensions, formats, names and limits, by number and table. */
module ImageFields {
  import opened Optional
  import opened ImagePng
  import opened ImageJpeg
  import opened ImageJpegGrammar

  // ---- PNG -----------------------------------------------------------------------------------------------

  /** Four bytes as a number, which fits 32 bits. */
  ghost function Weighted(p: Bytes, i: nat): bv32
    requires i + 4 <= |p|
  {
    16777216 * (p[i] as bv32) + 65536 * (p[i + 1] as bv32) + 256 * (p[i + 2] as bv32) + (p[i + 3] as bv32)
  }

  lemma OrIsSum(a: bv32, b: bv32, c: bv32, d: bv32)
    requires a < 256 && b < 256 && c < 256 && d < 256
    ensures (a << 24) | (b << 16) | (c << 8) | d == 16777216 * a + 65536 * b + 256 * c + d
  {
  }

  lemma BackAgain(x: bv32)
    ensures (x as nat) as bv32 == x
  {
  }

  lemma NumberIs(p: Bytes, i: nat)
    requires i + 4 <= |p|
    ensures Number(p[i..i + 4]) as bv32 == Weighted(p, i) && BE32(p[i..i + 4]) == Weighted(p, i)
  {
    var b := p[i..i + 4];
    assert b[0] == p[i] && b[1] == p[i + 1] && b[2] == p[i + 2] && b[3] == p[i + 3];
    BackAgain(BE32(b));
    OrIsSum(b[0] as bv32, b[1] as bv32, b[2] as bv32, b[3] as bv32);
    hide Number;
  }

  /** Table 11.1 of the PNG Specification: the depths of each colour type; and the only methods there are. */
  const DEPTHS: set<(int, int)> := {
    (0, 1), (0, 2), (0, 4), (0, 8), (0, 16), (2, 8), (2, 16), (3, 1), (3, 2), (3, 4), (3, 8), (4, 8), (4, 16), (6, 8), (6, 16)}

  lemma SupportedExact(depth: bv8, color: bv8, compression: bv8, filter: bv8, interlace: bv8)
    ensures SupportedHeader(depth, color, compression, filter, interlace) <==>
      (color as int, depth as int) in DEPTHS && compression == 0 && filter == 0 && interlace in {0, 1}
  {
  }

  lemma Names()
    ensures SIGNATURE == [0x89, 0x50, 0x4e, 0x47, 0x0d, 0x0a, 0x1a, 0x0a]
    ensures IHDR == [0x49, 0x48, 0x44, 0x52] && IDAT == [0x49, 0x44, 0x41, 0x54] && IEND == [0x49, 0x45, 0x4e, 0x44]
  {
  }

  /** An accepted PNG begins with the signature and a header of thirteen bytes, says its dimensions in
      them, is of an allowed kind, and is not larger than the policy allows. */
  lemma PngFields(policy: Policy, p: Bytes, shape: Shape)
    requires IsPng(p) && Png(policy, p) == Accepted(shape)
    ensures |p| >= 33 + 12 && p[..8] == [0x89, 0x50, 0x4e, 0x47, 0x0d, 0x0a, 0x1a, 0x0a]
    ensures Weighted(p, 8) == 13 && p[12..16] == [0x49, 0x48, 0x44, 0x52]
    ensures shape.width as bv32 == Weighted(p, 16) && shape.height as bv32 == Weighted(p, 20) && !shape.jpeg
    ensures (p[25] as int, p[24] as int) in DEPTHS && p[26] == 0 && p[27] == 0 && p[28] in {0, 1}
    ensures 1 <= shape.width <= 2147483647 && 1 <= shape.height <= 2147483647
    ensures shape.width * shape.height <= policy.pixels && 3 * (shape.width * shape.height) <= policy.bgr
  {
    PngParts(policy, p, shape);
    hide *;
    LengthThirteen(p);
    WeightIs(p, 16, shape.width);
    WeightIs(p, 20, shape.height);
    SupportedExact(p[24], p[25], p[26], p[27], p[28]);
    Budget(policy, shape.width, shape.height);
    Names();
    assert p[..8] == SIGNATURE;
  }

  lemma WeightIs(p: Bytes, i: nat, n: nat)
    requires i + 4 <= |p| && n == Number(p[i..i + 4])
    ensures n < 0x1_0000_0000 && n as bv32 == Weighted(p, i)
  {
    hide Weighted;
    NumberIs(p, i);
  }

  lemma Budget(policy: Policy, w: nat, h: nat)
    requires Fits(policy, w, h)
    ensures 1 <= w <= 2147483647 && 1 <= h <= 2147483647 && w * h <= policy.pixels && 3 * (w * h) <= policy.bgr
  {
  }

  lemma PngParts(policy: Policy, p: Bytes, shape: Shape)
    requires IsPng(p) && Png(policy, p) == Accepted(shape)
    ensures |p| >= 33 + 12 && p[..8] == SIGNATURE && Number(p[8..12]) == 13 && p[12..16] == IHDR
    ensures shape == Shape(Number(p[16..20]), Number(p[20..24]), false) && Fits(policy, shape.width, shape.height)
    ensures SupportedHeader(p[24], p[25], p[26], p[27], p[28])
  {
    CheckShapeExact(policy, Number(p[16..20]), Number(p[20..24]));
    WalkLong(p[33..]);
    hide Number, CheckShape, Fits, Walk, SupportedHeader, Crc32.CRC, BE32;
  }

  lemma LengthThirteen(p: Bytes)
    requires |p| >= 12 && Number(p[8..12]) == 13
    ensures Weighted(p, 8) == 13
  {
    hide *;
    WeightIs(p, 8, 13);
    Thirteen(13);
  }

  lemma Thirteen(n: nat)
    requires n == 13
    ensures n as bv32 == 13
  {
  }

  lemma WalkLong(rest: Bytes)
    requires Walk(rest, false).None?
    ensures |rest| >= 12
  {
  }

  // ---- JPEG ------------------------------------------------------------------------------------------------

  ghost function Pair(s: Bytes, i: nat): nat
    requires i + 2 <= |s|
  {
    256 * (s[i] as nat) + (s[i + 1] as nat)
  }

  lemma OrIsPair(a: bv16, b: bv16)
    requires a < 256 && b < 256
    ensures ((a << 8) | b) as int == 256 * (a as int) + (b as int)
  {
  }

  lemma Widened(a: bv8)
    ensures (a as bv16) as int == a as int
  {
  }

  lemma LengthIs(s: Bytes)
    requires |s| >= 2
    ensures Length(s) == Pair(s, 0)
  {
    OrIsPair(s[0] as bv16, s[1] as bv16);
    Widened(s[0]);
    Widened(s[1]);
  }

  /** ITU-T T.81, Table B.1: start of frame. */
  lemma FrameMarkers(marker: bv8)
    ensures FrameMarker(marker) <==>
      marker in {0xc0, 0xc1, 0xc2, 0xc3, 0xc5, 0xc6, 0xc7, 0xc9, 0xca, 0xcb, 0xcd, 0xce, 0xcf}
  {
  }

  /** Markers without a segment: stuffing, fill, restarts, start and end of image. */
  lemma ProperMarkers(marker: bv8)
    ensures Proper(marker) <==>
      marker !in {0x00, 0xff, 0xd0, 0xd1, 0xd2, 0xd3, 0xd4, 0xd5, 0xd6, 0xd7, 0xd8, 0xd9}
    ensures Stuffing(marker) <==> marker in {0x00, 0xd0, 0xd1, 0xd2, 0xd3, 0xd4, 0xd5, 0xd6, 0xd7}
  {
  }

  /** Baseline, extended and progressive frames of eight bits and one, three or four components, whose
      length counts eight bytes and three a component. */
  lemma FrameExact(marker: bv8, segment: Bytes)
    requires |segment| >= 8
    ensures SupportedFrame(marker, segment) <==>
      && marker in {0xc0, 0xc1, 0xc2} && segment[2] == 8 && segment[7] in {1, 3, 4}
      && |segment| == 8 + 3 * (segment[7] as int)
    ensures FrameShape(segment) == Shape(Pair(segment, 5), Pair(segment, 3), true)
  {
    LengthIs(segment[5..7]);
    LengthIs(segment[3..5]);
    assert segment[5..7][0] == segment[5] && segment[5..7][1] == segment[6];
    assert segment[3..5][0] == segment[3] && segment[3..5][1] == segment[4];
    hide Length;
  }

  /** An accepted JPEG has one frame segment, which says its dimensions, and a scan segment after it whose
      length counts six bytes and two a component. */
  lemma JpegFields(policy: Policy, p: Bytes, shape: Shape) returns (segments: seq<Segment>, frame: nat, scan: nat, fill: nat, tail: Bytes)
    requires IsJpeg(p) && Jpeg(policy, p) == Accepted(shape)
    ensures JpegFormed(policy, p, segments, frame, shape, fill, tail) && frame < scan < |segments|
    ensures var s := segments[frame].payload;
      && |s| >= 8 && Pair(s, 0) == |s| && shape == Shape(Pair(s, 5), Pair(s, 3), true)
      && segments[frame].marker in {0xc0, 0xc1, 0xc2} && s[2] == 8 && s[7] in {1, 3, 4} && |s| == 8 + 3 * (s[7] as int)
    ensures var s := segments[scan].payload;
      segments[scan].marker == 0xda && |s| >= 6 && Pair(s, 0) == |s| && |s| == 6 + 2 * (s[2] as int)
    ensures 1 <= shape.width <= 65535 && 1 <= shape.height <= 65535
    ensures shape.width * shape.height <= policy.pixels && 3 * (shape.width * shape.height) <= policy.bgr
  {
    segments, frame, fill, tail := ImageJpegGrammar.AcceptedFormed(policy, p);
    hide Jpeg, IsJpeg;
    var g := segments[frame];
    assert SegmentFormed(policy, g) && FrameShape(g.payload) == shape;
    scan :| 0 <= scan < |segments| && segments[scan].marker == 218;
    assert SegmentFormed(policy, segments[scan]) && frame < scan;
    hide JpegFormed, SegmentsFormed;
    FrameExact(g.marker, g.payload);
    LengthIs(g.payload);
    LengthIs(segments[scan].payload);
    hide Length, Entropy, FrameShape, Proper;
  }

  // ---- The preflight ------------------------------------------------------------------------------------------

  /** A PNG of the grammar whose header says this shape. */
  ghost predicate PngOf(policy: Policy, p: Bytes, shape: Shape) {
    exists h, chunks ::
      PngFormed(policy, p, h, chunks) && shape == Shape(Number(h.body[..4]), Number(h.body[4..8]), false)
  }

  ghost predicate JpegOf(policy: Policy, p: Bytes, shape: Shape) {
    exists segments, frame, fill, tail :: JpegFormed(policy, p, segments, frame, shape, fill, tail)
  }

  /** The preflight accepts exactly the files of the two grammars that are not empty and within the encoded
      limit, with the shape they show. */
  lemma PreflightDecides(policy: Policy, p: Bytes, shape: Shape)
    ensures PreflightOf(policy, p) == Accepted(shape) <==>
      0 < |p| <= policy.encoded && if shape.jpeg then JpegOf(policy, p, shape) else PngOf(policy, p, shape)
  {
    JpegDecides(policy, p, shape);
    hide JpegFormed, PngOf, Jpeg, Png;
    if shape.jpeg {
      if IsPng(p) && Png(policy, p) == Accepted(shape) { PngShape(policy, p, shape); assert false; }
      NotBoth(p);
    } else {
      PngExact(policy, p, shape);
      if IsJpeg(p) && Jpeg(policy, p) == Accepted(shape) { JpegShape(policy, p, shape); assert false; }
    }
  }

  lemma NotBoth(p: Bytes)
    ensures !(IsPng(p) && IsJpeg(p))
  {
    if IsPng(p) { assert p[0] == p[..8][0]; }
  }

  lemma PngShape(policy: Policy, p: Bytes, shape: Shape)
    requires IsPng(p) && Png(policy, p) == Accepted(shape)
    ensures !shape.jpeg
  {
    PngParts(policy, p, shape);
  }

  lemma JpegShape(policy: Policy, p: Bytes, shape: Shape)
    requires IsJpeg(p) && Jpeg(policy, p) == Accepted(shape)
    ensures shape.jpeg
  {
    var segments, frame, scan, fill, tail := JpegFields(policy, p, shape);
  }

  lemma PngExact(policy: Policy, p: Bytes, shape: Shape)
    ensures IsPng(p) && Png(policy, p) == Accepted(shape) <==> PngOf(policy, p, shape)
  {
    hide Number;
    if IsPng(p) && Png(policy, p) == Accepted(shape) {
      var h, chunks := ImagePng.AcceptedFormed(policy, p);
      ImagePng.FormedAccepted(policy, p, h, chunks);
    }
    hide Png;
    if PngOf(policy, p, shape) {
      var h, chunks :| PngFormed(policy, p, h, chunks) && shape == Shape(Number(h.body[..4]), Number(h.body[4..8]), false);
      ImagePng.FormedAccepted(policy, p, h, chunks);
    }
  }

  // ---- What is refused, and how ------------------------------------------------------------------------------

  /** Status 413 is for what is too large, status 400 for everything else that is refused. */
  lemma StatusExact(policy: Policy, width: nat, height: nat, size: nat)
    ensures var e := CheckShape(policy, width, height); var sane := 1 <= width <= 2147483647 && 1 <= height <= 2147483647;
      && (e.Some? && e.value.status == 413 <==> sane && (width * height > policy.pixels || 3 * (width * height) > policy.bgr))
      && (e.Some? && e.value.status == 400 <==> !sane) && (e.Some? ==> e.value.status in {400, 413})
    ensures var e := CheckEncoded(policy, size);
      && (e.Some? && e.value.status == 413 <==> size > policy.encoded)
      && (e.Some? && e.value.status == 400 <==> size == 0) && (e.Some? ==> e.value.status in {400, 413})
  {
    CheckShapeExact(policy, width, height);
  }
}
