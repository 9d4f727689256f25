/** Resource policy, image dimensions, and the walk over a PNG's chunks, proved to decide a grammar. */
module ImagePng {
  import opened Optional
  import opened Crc32
  import opened HttpText

  type Bytes = seq<bv8>

  // ---- Policy and dimensions ---------------------------------------------------------------------------------------------

  datatype Policy = Policy(encoded: nat, pixels: nat, bgr: nat, jobs: nat)

  datatype Error = Error(status: nat, message: string)

  datatype Shape = Shape(width: nat, height: nat, jpeg: bool)

  datatype Verdict = Accepted(shape: Shape) | Rejected(error: Error)

  const INT_MAX: nat := 0x7fff_ffff
  const SIZE_MAX: nat := 0xffff_ffff_ffff_ffff

  /** One number of the configuration, `value` being the environment variable if set: None throws. */
  method Setting(value: Option<string>, fallback: nat) returns (r: Option<nat>)
    ensures value.None? ==> r == Some(fallback)
    ensures value.Some? ==>
      && (r.Some? <==> value.value != "" && AllDigits(value.value) && 0 < Value(value.value) <= SIZE_MAX)
      && (r.Some? ==> r.value == Value(value.value))
  {
    if value.None? { return Some(fallback); }
    if value.value == "" { return None; }
    var result := ParseBounded(value.value, SIZE_MAX);
    if result == Some(0) { return None; }
    return result;
  }

  function CheckEncoded(policy: Policy, size: nat): Option<Error> {
    if size > policy.encoded then Some(Error(413, "Encoded image exceeds resource budget"))
    else if size == 0 then Some(Error(400, "Image data is empty"))
    else None
  }

  function CheckShape(policy: Policy, width: nat, height: nat): Option<Error> {
    if width == 0 || height == 0 || width > INT_MAX || height > INT_MAX then Some(Error(400, "Invalid image dimensions"))
    else if width > policy.pixels / height || width > policy.bgr / 3 / height then
      Some(Error(413, "Original decoded image exceeds resource budget"))
    else None
  }

  lemma Quotient(w: nat, h: nat, limit: nat)
    requires h > 0
    ensures w <= limit / h <==> w * h <= limit
  {
    var q, r := limit / h, limit % h;
    assert limit == q * h + r;
    if w <= q {
      Monotone(w, q, h);
    } else {
      Monotone(q + 1, w, h);
      assert (q + 1) * h == q * h + h;
    }
  }

  lemma Monotone(a: nat, b: nat, h: nat)
    requires a <= b
    ensures a * h <= b * h
  {
    assert b * h == a * h + (b - a) * h;
  }

  predicate Fits(policy: Policy, width: nat, height: nat) {
    1 <= width <= INT_MAX && 1 <= height <= INT_MAX && width * height <= policy.pixels && 3 * (width * height) <= policy.bgr
  }

  /** The quotients stand for the products, which are never formed. */
  lemma CheckShapeExact(policy: Policy, width: nat, height: nat)
    ensures CheckShape(policy, width, height).None? <==> Fits(policy, width, height)
  {
    if height > 0 {
      Quotient(width, height, policy.pixels);
      Quotient(width, height, policy.bgr / 3);
      var area := width * height;
      assert area <= policy.bgr / 3 <==> 3 * area <= policy.bgr;
    }
  }

  // ---- The chunk walk ------------------------------------------------------------------------------------------------------

  /** Four bytes, the most significant first. */
  function BE32(b: Bytes): bv32
    requires |b| == 4
  {
    ((b[0] as bv32) << 24) | ((b[1] as bv32) << 16) | ((b[2] as bv32) << 8) | (b[3] as bv32)
  }

  function Number(b: Bytes): (n: nat)
    requires |b| == 4
    ensures n < 0x1_0000_0000
  {
    BE32(b) as nat
  }

  const SIGNATURE: Bytes := [137, 80, 78, 71, 13, 10, 26, 10]
  const IHDR: Bytes := [73, 72, 68, 82]
  const IDAT: Bytes := [73, 68, 65, 84]
  const IEND: Bytes := [73, 69, 78, 68]

  function Bad(message: string): Option<Error> { Some(Error(400, message)) }

  /** The chunks after the header; `data` says whether an IDAT was seen. */
  function Walk(rest: Bytes, data: bool): Option<Error>
    decreases |rest|
  {
    if rest == [] then Bad("Truncated PNG image")
    else if |rest| < 12 then Bad("Truncated PNG chunk")
    else
      var len, kind := Number(rest[..4]), rest[4..8];
      if len > |rest| - 12 then Bad("Invalid PNG chunk length")
      else if kind == IHDR then Bad("Duplicate PNG header")
      else if kind == IEND then
        if len != 0 || !data || |rest| != 12 then Bad("Invalid PNG end") else None
      else Walk(rest[len + 12..], data || kind == IDAT)
  }

  /** Bit depth and colour type in an allowed combination; compression, filter and interlace method. */
  predicate SupportedHeader(depth: bv8, color: bv8, compression: bv8, filter: bv8, interlace: bv8) {
    && ((color == 0 && (depth == 1 || depth == 2 || depth == 4 || depth == 8 || depth == 16)) ||
        (color == 3 && (depth == 1 || depth == 2 || depth == 4 || depth == 8)) ||
        ((color == 2 || color == 4 || color == 6) && (depth == 8 || depth == 16)))
    && compression == 0 && filter == 0 && interlace <= 1
  }

  predicate IsPng(p: Bytes) { |p| >= 8 && p[..8] == SIGNATURE }

  function Png(policy: Policy, p: Bytes): Verdict {
    if |p| < 33 || Number(p[8..12]) != 13 || p[12..16] != IHDR || CRC(p[12..29]) != BE32(p[29..33])
    then Rejected(Error(400, "Invalid PNG header"))
    else
      var width, height := Number(p[16..20]), Number(p[20..24]);
      if !SupportedHeader(p[24], p[25], p[26], p[27], p[28]) then Rejected(Error(400, "Unsupported PNG header"))
      else if CheckShape(policy, width, height).Some? then Rejected(CheckShape(policy, width, height).value)
      else
        match Walk(p[33..], false)
        case Some(e) => Rejected(e)
        case None => Accepted(Shape(width, height, false))
  }

  /** Slices of what is left. */
  lemma Dropped(p: Bytes, a: nat, i: nat, j: nat)
    requires a <= |p| && i <= j <= |p| - a
    ensures p[a..][i..j] == p[a + i..a + j]
  {
    var u, v := p[a..][i..j], p[a + i..a + j];
    assert |u| == |v| && forall k :: 0 <= k < |u| ==> u[k] == v[k];
  }

  lemma Beyond(p: Bytes, a: nat, i: nat)
    requires a <= |p| && i <= |p| - a
    ensures p[a..][i..] == p[a + i..]
  {
    var u, v := p[a..][i..], p[a + i..];
    assert |u| == |v| && forall k :: 0 <= k < |u| ==> u[k] == v[k];
  }

  /** The loop over the chunks: every read is in bounds, and it ends. */
  method WalkChunks(p: Bytes) returns (error: Option<Error>)
    requires |p| >= 33
    ensures error == Walk(p[33..], false)
  {
    hide Number;
    var data := false;
    var pos := 33;
    while pos < |p|
      invariant 33 <= pos <= |p| && Walk(p[pos..], data) == Walk(p[33..], false)
      decreases |p| - pos
    {
      if |p| - pos < 12 { return Bad("Truncated PNG chunk"); }
      Dropped(p, pos, 0, 4);
      Dropped(p, pos, 4, 8);
      var len := Number(p[pos..pos + 4]);
      if len > |p| - pos - 12 { return Bad("Invalid PNG chunk length"); }
      var kind := p[pos + 4..pos + 8];
      if kind == IHDR { return Bad("Duplicate PNG header"); }
      if kind == IEND {
        if len != 0 || !data || pos + 12 != |p| { return Bad("Invalid PNG end"); }
        return None;
      }
      if kind == IDAT { data := true; }
      Beyond(p, pos, len + 12);
      pos := pos + len + 12;
    }
    return Bad("Truncated PNG image");
  }

  method PreflightPng(policy: Policy, p: Bytes) returns (v: Verdict)
    ensures v == Png(policy, p)
  {
    if |p| < 33 || Number(p[8..12]) != 13 || p[12..16] != IHDR { return Rejected(Error(400, "Invalid PNG header")); }
    var crc := ComputeCRC(p[12..29]);
    if crc != BE32(p[29..33]) { return Rejected(Error(400, "Invalid PNG header")); }
    var width, height := Number(p[16..20]), Number(p[20..24]);
    if !SupportedHeader(p[24], p[25], p[26], p[27], p[28]) { return Rejected(Error(400, "Unsupported PNG header")); }
    var shape := CheckShape(policy, width, height);
    if shape.Some? { return Rejected(shape.value); }
    var end := WalkChunks(p);
    if end.Some? { return Rejected(end.value); }
    return Accepted(Shape(width, height, false));
  }

  // ---- The grammar -----------------------------------------------------------------------------------------------------------

  /** Length field, type, data and checksum as they stand in the file. */
  datatype Chunk = Chunk(length: Bytes, kind: Bytes, body: Bytes, crc: Bytes)

  predicate ChunkFormed(c: Chunk) { |c.length| == 4 && |c.kind| == 4 && |c.crc| == 4 && Number(c.length) == |c.body| }

  function ChunkBytes(c: Chunk): Bytes { c.length + c.kind + c.body + c.crc }

  function AllBytes(chunks: seq<Chunk>): Bytes { if chunks == [] then [] else ChunkBytes(chunks[0]) + AllBytes(chunks[1..]) }

  /** No second header; an empty IEND last and only last. */
  predicate ChunksFormed(chunks: seq<Chunk>) {
    && (forall i :: 0 <= i < |chunks| ==> ChunkFormed(chunks[i]) && chunks[i].kind != IHDR)
    && (forall i :: 0 <= i < |chunks| - 1 ==> chunks[i].kind != IEND)
    && chunks != [] && chunks[|chunks| - 1].kind == IEND && chunks[|chunks| - 1].body == []
  }

  predicate HasData(chunks: seq<Chunk>) { exists i :: 0 <= i < |chunks| && chunks[i].kind == IDAT }

  /** The header chunk: its checksum is right and its fields are supported and within the budget. */
  predicate HeaderFormed(policy: Policy, h: Chunk) {
    && ChunkFormed(h) && h.kind == IHDR && |h.body| == 13 && CRC(h.kind + h.body) == BE32(h.crc)
    && SupportedHeader(h.body[8], h.body[9], h.body[10], h.body[11], h.body[12])
    && Fits(policy, Number(h.body[..4]), Number(h.body[4..8]))
  }

  predicate PngFormed(policy: Policy, p: Bytes, h: Chunk, chunks: seq<Chunk>) {
    p == SIGNATURE + ChunkBytes(h) + AllBytes(chunks) && HeaderFormed(policy, h) && ChunksFormed(chunks) && HasData(chunks)
  }

  /** The first chunk of the walk. */
  lemma ChunkAt(c: Chunk, tail: Bytes)
    requires ChunkFormed(c)
    ensures var rest := ChunkBytes(c) + tail;
      && |rest| >= 12 && rest[..4] == c.length && rest[4..8] == c.kind
      && |c.body| <= |rest| - 12 && rest[|c.body| + 12..] == tail && (|rest| == 12 <==> c.body == [] && tail == [])
  {
    var rest := ChunkBytes(c) + tail;
    assert rest[..4] == c.length;
    assert rest[4..8] == c.kind;
    assert rest[|c.body| + 12..] == tail;
  }

  /** The chunks of a formed list are walked to the end. */
  lemma {:induction false} FormedWalks(chunks: seq<Chunk>, data: bool)
    requires ChunksFormed(chunks) && (data || HasData(chunks))
    ensures Walk(AllBytes(chunks), data).None?
    decreases |chunks|
  {
    var c, rest := chunks[0], chunks[1..];
    ChunkAt(c, AllBytes(rest));
    if |chunks| > 1 {
      assert forall i :: 0 <= i < |rest| ==> rest[i] == chunks[i + 1];
      assert ChunksFormed(rest);
      assert data || c.kind == IDAT || HasData(rest) by {
        if !data {
          var i :| 0 <= i < |chunks| && chunks[i].kind == IDAT;
          if i > 0 { assert rest[i - 1].kind == IDAT; }
        }
      }
      hide Number, ChunkBytes;
      FormedWalks(rest, data || c.kind == IDAT);
    } else {
      assert data;
    }
  }

  lemma Slices(s: Bytes, a: nat, b: nat, c: nat)
    requires a <= b <= c <= |s|
    ensures s == s[..a] + s[a..b] + s[b..c] + s[c..]
  {
    var u, v := s, s[..a] + s[a..b] + s[b..c] + s[c..];
    assert |u| == |v| && forall k :: 0 <= k < |u| ==> u[k] == v[k];
  }

  /** The chunk whose bytes these are, with a body of `len` bytes. */
  function Cut(rest: Bytes, len: nat): (c: Chunk)
    requires |rest| == len + 12
    ensures |c.body| == len && |c.length| == 4 && |c.kind| == 4 && |c.crc| == 4 && ChunkBytes(c) == rest
  {
    Slices(rest, 4, 8, 8 + len);
    Chunk(rest[..4], rest[4..8], rest[8..8 + len], rest[8 + len..])
  }

  /** The chunk at the front of what is left. */
  lemma FirstChunk(rest: Bytes) returns (c: Chunk)
    requires |rest| >= 12 && Number(rest[..4]) <= |rest| - 12
    ensures var len := Number(rest[..4]);
      && ChunkFormed(c) && rest == ChunkBytes(c) + rest[len + 12..] && |c.body| == len
      && c.length == rest[..4] && c.kind == rest[4..8]
  {
    hide Number;
    var len := Number(rest[..4]);
    var front := rest[..len + 12];
    c := Cut(front, len);
    assert front[..4] == rest[..4] && front[4..8] == rest[4..8];
    assert c.length == front[..4] && c.kind == front[4..8];
    assert rest == front + rest[len + 12..];
  }

  lemma Prepended(c: Chunk, more: seq<Chunk>, data: bool)
    requires ChunkFormed(c) && c.kind != IHDR && c.kind != IEND
    requires ChunksFormed(more) && (data || c.kind == IDAT || HasData(more))
    ensures ChunksFormed([c] + more) && (data || HasData([c] + more))
    ensures AllBytes([c] + more) == ChunkBytes(c) + AllBytes(more)
  {
    var chunks := [c] + more;
    assert chunks[1..] == more && chunks[0] == c;
    assert forall i :: 1 <= i < |chunks| ==> chunks[i] == more[i - 1];
    if !data && c.kind != IDAT {
      var i :| 0 <= i < |more| && more[i].kind == IDAT;
      assert chunks[i + 1].kind == IDAT;
    }
  }

  /** What the walk accepts is the text of a formed list. */
  lemma {:induction false} WalkForms(rest: Bytes, data: bool) returns (chunks: seq<Chunk>)
    requires Walk(rest, data).None?
    ensures rest == AllBytes(chunks) && ChunksFormed(chunks) && (data || HasData(chunks))
    decreases |rest|
  {
    var c := FirstChunk(rest);
    var tail := rest[|c.body| + 12..];
    hide Number, ChunkBytes;
    if c.kind == IEND {
      chunks := [c];
      assert tail == [] && AllBytes(chunks) == ChunkBytes(c) + AllBytes(chunks[1..]) && chunks[1..] == [];
    } else {
      var more := WalkForms(tail, data || c.kind == IDAT);
      hide Walk, AllBytes, HasData, ChunksFormed;
      Prepended(c, more, data);
      chunks := [c] + more;
    }
  }

  /** The first 33 bytes and the header chunk. */
  lemma HeaderAt(policy: Policy, h: Chunk, tail: Bytes)
    requires HeaderFormed(policy, h)
    ensures var p := SIGNATURE + ChunkBytes(h) + tail;
      && |p| >= 33 && IsPng(p) && p[8..12] == h.length && p[12..16] == h.kind && p[12..29] == h.kind + h.body
      && p[29..33] == h.crc && p[16..20] == h.body[..4] && p[20..24] == h.body[4..8] && p[24..29] == h.body[8..]
      && p[33..] == tail
  {
    var p := SIGNATURE + ChunkBytes(h) + tail;
    assert p[..8] == SIGNATURE;
    assert p[8..12] == h.length;
    assert p[12..16] == h.kind;
    assert p[12..29] == h.kind + h.body;
    assert p[16..20] == h.body[..4];
    assert p[20..24] == h.body[4..8];
    assert p[24..29] == h.body[8..];
    assert p[29..33] == h.crc;
    assert p[33..] == tail;
  }

  /** A formed file is accepted, with the dimensions of its header. */
  lemma FormedAccepted(policy: Policy, p: Bytes, h: Chunk, chunks: seq<Chunk>)
    requires PngFormed(policy, p, h, chunks)
    ensures IsPng(p) && Png(policy, p) == Accepted(Shape(Number(h.body[..4]), Number(h.body[4..8]), false))
  {
    HeaderAt(policy, h, AllBytes(chunks));
    FormedWalks(chunks, false);
    CheckShapeExact(policy, Number(h.body[..4]), Number(h.body[4..8]));
    assert p[24] == p[24..29][0] && p[25] == p[24..29][1] && p[26] == p[24..29][2] && p[27] == p[24..29][3] && p[28] == p[24..29][4];
    hide BE32, CRC, CheckShape, Walk, SupportedHeader, ChunkBytes, AllBytes;
  }

  /** The header chunk of an accepted file. */
  lemma AcceptedHeader(policy: Policy, p: Bytes) returns (h: Chunk)
    requires IsPng(p) && Png(policy, p).Accepted?
    ensures HeaderFormed(policy, h) && p == SIGNATURE + ChunkBytes(h) + p[33..] && Walk(p[33..], false).None?
  {
    h := Cut(p[8..33], 13);
    HeaderParts(p);
    CheckShapeExact(policy, Number(p[16..20]), Number(p[20..24]));
    ThreeParts(p, 8, 33);
    hide Number, BE32, CRC, CheckShape, Walk, SupportedHeader, ChunkBytes, Cut;
  }

  lemma ThreeParts(p: Bytes, a: nat, b: nat)
    requires a <= b <= |p|
    ensures p == p[..a] + p[a..b] + p[b..]
  {
    var u, v := p, p[..a] + p[a..b] + p[b..];
    assert |u| == |v| && forall k :: 0 <= k < |u| ==> u[k] == v[k];
  }

  /** A slice of a slice. */
  lemma Sliced(p: Bytes, a: nat, b: nat, i: nat, j: nat)
    requires a <= b <= |p| && i <= j <= b - a
    ensures p[a..b][i..j] == p[a + i..a + j]
  {
    var u, v := p[a..b][i..j], p[a + i..a + j];
    assert |u| == |v| && forall k :: 0 <= k < |u| ==> u[k] == v[k];
  }

  lemma HeaderParts(p: Bytes)
    requires |p| >= 33
    ensures var h := Cut(p[8..33], 13);
      && h.length == p[8..12] && h.kind == p[12..16] && h.crc == p[29..33] && h.kind + h.body == p[12..29]
      && h.body[..4] == p[16..20] && h.body[4..8] == p[20..24]
      && h.body[8] == p[24] && h.body[9] == p[25] && h.body[10] == p[26] && h.body[11] == p[27] && h.body[12] == p[28]
  {
    var header := p[8..33];
    var h := Cut(header, 13);
    assert h.length == header[0..4] && h.kind == header[4..8] && h.body == header[8..21] && h.crc == header[21..25];
    hide *;
    Sliced(p, 8, 33, 0, 4);
    Sliced(p, 8, 33, 4, 8);
    Sliced(p, 8, 33, 8, 21);
    Sliced(p, 8, 33, 21, 25);
    Sliced(p, 16, 29, 0, 4);
    Sliced(p, 16, 29, 4, 8);
    assert h.body == p[16..29];
    assert p[12..16] + p[16..29] == p[12..29];
  }

  lemma AcceptedFormed(policy: Policy, p: Bytes) returns (h: Chunk, chunks: seq<Chunk>)
    requires IsPng(p) && Png(policy, p).Accepted?
    ensures PngFormed(policy, p, h, chunks)
  {
    h := AcceptedHeader(policy, p);
    chunks := WalkForms(p[33..], false);
  }

  /** A PNG passes if and only if it is the signature, a valid header within the budget, and chunks
      with an IDAT, no second header and an empty IEND as the last. */
  lemma PngDecides(policy: Policy, p: Bytes)
    ensures IsPng(p) && Png(policy, p).Accepted? <==> exists h, chunks :: PngFormed(policy, p, h, chunks)
  {
    if IsPng(p) && Png(policy, p).Accepted? {
      var h, chunks := AcceptedFormed(policy, p);
    }
    hide Png, IsPng;
    if h, chunks :| PngFormed(policy, p, h, chunks) {
      FormedAccepted(policy, p, h, chunks);
    }
  }

  /** No change confined to four neighbouring bytes of an accepted header's type and fields, its
      checksum left alone, passes. */
  lemma HeaderTamperDetected(policy: Policy, p: Bytes, q: Bytes, at: nat)
    requires Png(policy, p).Accepted? && |q| == |p| >= 33 && 12 <= at && at + 4 <= 29
    requires q[..at] == p[..at] && q[at + 4..] == p[at + 4..] && q != p
    ensures Png(policy, q).Rejected?
  {
    hide Png, IsPng;
    TamperParts(p, q, at);
    WindowDetected(p[12..29], q[12..29], at - 12);
    BadChecksum(policy, p, q);
  }

  lemma TamperParts(p: Bytes, q: Bytes, at: nat)
    requires |q| == |p| >= 33 && 12 <= at && at + 4 <= 29
    requires q[..at] == p[..at] && q[at + 4..] == p[at + 4..] && q != p
    ensures var s, t := p[12..29], q[12..29]; var i := at - 12;
      s[..i] == t[..i] && s[i + 4..] == t[i + 4..] && s != t && q[29..33] == p[29..33]
  {
    var s, t := p[12..29], q[12..29];
    var i := at - 12;
    forall j | 0 <= j < |p| && !(at <= j < at + 4) ensures p[j] == q[j] {
      if j < at {
        assert p[..at][j] == q[..at][j];
      } else {
        assert p[at + 4..][j - at - 4] == q[at + 4..][j - at - 4];
      }
    }
    var j :| 0 <= j < |p| && p[j] != q[j];
    assert s[j - 12] != t[j - 12];
  }

  lemma BadChecksum(policy: Policy, p: Bytes, q: Bytes)
    requires Png(policy, p).Accepted? && |q| == |p|
    requires |p| >= 33 && q[29..33] == p[29..33] && CRC(q[12..29]) != CRC(p[12..29])
    ensures Png(policy, q).Rejected?
  {
    hide CRC, BE32, Walk, CheckShape;
  }
}
