/** The walk over a JPEG's markers, proved to decide a grammar, and the preflight of both formats. */
module ImageJpeg {
  import opened Optional
  import opened ImagePng

  // ---- The marker walk ------------------------------------------------------------------------------------------------------

  /** Drops leading fill bytes. */
  function SkipFill(s: Bytes): (r: Bytes)
    ensures |r| <= |s| && r == s[|s| - |r|..] && (r != [] ==> r[0] != 255)
    ensures forall i :: 0 <= i < |s| - |r| ==> s[i] == 255
  {
    if s != [] && s[0] == 255 then SkipFill(s[1..]) else s
  }

  predicate Restart(marker: bv8) { 208 <= marker <= 215 }

  /** A stuffed byte or a restart marker inside entropy-coded data. */
  predicate Stuffing(marker: bv8) { marker == 0 || Restart(marker) }

  /** Entropy-coded data up to the next marker proper, or to the end. */
  function SkipScan(s: Bytes): (r: Bytes)
    ensures |r| <= |s| && (r != [] ==> r[0] == 255 && SkipFill(r) != [] && !Stuffing(SkipFill(r)[0]))
    decreases |s|
  {
    if s == [] then []
    else if s[0] != 255 then SkipScan(s[1..])
    else
      var next := SkipFill(s);
      if next == [] then []
      else if Stuffing(next[0]) then SkipScan(next[1..])
      else s
  }

  predicate FrameMarker(marker: bv8) { 192 <= marker <= 207 && marker != 196 && marker != 200 && marker != 204 }

  /** The two length bytes at the front of a segment, which they count. */
  function Length(s: Bytes): (n: nat)
    requires |s| >= 2
    ensures n < 0x1_0000
  {
    ((s[0] as bv16 << 8) | s[1] as bv16) as nat
  }

  /** Baseline, extended or progressive, eight bits, one, three or four components. */
  predicate SupportedFrame(marker: bv8, segment: Bytes)
    requires |segment| >= 2
  {
    && (marker == 192 || marker == 193 || marker == 194)
    && |segment| >= 8 && segment[2] == 8 && (segment[7] == 1 || segment[7] == 3 || segment[7] == 4)
    && |segment| == 8 + 3 * (segment[7] as nat)
  }

  function FrameShape(segment: Bytes): Shape
    requires |segment| >= 8
  {
    Shape(Length(segment[5..7]), Length(segment[3..5]), true)
  }

  predicate SupportedScan(segment: Bytes)
    requires |segment| >= 2
  {
    |segment| >= 6 && |segment| == 6 + 2 * (segment[2] as nat)
  }

  function Fault(message: string): Verdict { Rejected(Error(400, message)) }

  const TRUNCATED := Fault("Truncated JPEG image")

  /** What a segment does to the frame seen so far; an error ends the walk. */
  datatype Seen = Seen(frame: Option<Shape>) | Stop(verdict: Verdict)

  function TakeSegment(policy: Policy, marker: bv8, segment: Bytes, frame: Option<Shape>): Seen
    requires |segment| >= 2
  {
    if FrameMarker(marker) then
      if frame.Some? || !SupportedFrame(marker, segment) then Stop(Fault("Unsupported JPEG frame"))
      else
        var shape := FrameShape(segment);
        match CheckShape(policy, shape.width, shape.height)
        case Some(e) => Stop(Rejected(e))
        case None => Seen(Some(shape))
    else if marker == 218 && (frame.None? || !SupportedScan(segment)) then Stop(Fault("Invalid JPEG scan"))
    else Seen(frame)
  }

  /** The walk ends, or goes on after one marker with what has been seen. */
  datatype Turned = Ended(verdict: Verdict) | More(rest: Bytes, frame: Option<Shape>, scan: bool)

  function TakeRest(policy: Policy, marker: bv8, rest: Bytes, frame: Option<Shape>, scan: bool): (t: Turned)
    ensures t.More? ==> |t.rest| <= |rest|
  {
    if |rest| < 2 then Ended(TRUNCATED)
    else
      var len := Length(rest);
      if len < 2 || len > |rest| then Ended(Fault("Invalid JPEG segment length"))
      else
        match TakeSegment(policy, marker, rest[..len], frame)
        case Stop(v) => Ended(v)
        case Seen(f) => if marker == 218 then More(SkipScan(rest[len..]), f, true) else More(rest[len..], f, scan)
  }

  function TakeMarker(policy: Policy, marker: bv8, rest: Bytes, frame: Option<Shape>, scan: bool): (t: Turned)
    ensures t.More? ==> |t.rest| <= |rest|
  {
    if marker == 217 then Ended(if frame.Some? && scan then Accepted(frame.value) else TRUNCATED)
    else if marker == 0 || marker == 216 || Restart(marker) then Ended(Fault("Invalid JPEG marker sequence"))
    else TakeRest(policy, marker, rest, frame, scan)
  }

  /** From a marker on: `frame` and `scan` say what has been seen. */
  function Markers(policy: Policy, s: Bytes, frame: Option<Shape>, scan: bool): Verdict
    decreases |s|
  {
    if s == [] then TRUNCATED
    else if s[0] != 255 then Fault("Invalid JPEG marker")
    else
      var next := SkipFill(s);
      if next == [] then TRUNCATED
      else
        match TakeMarker(policy, next[0], next[1..], frame, scan)
        case Ended(v) => v
        case More(rest, f, sc) => Markers(policy, rest, f, sc)
  }

  predicate IsJpeg(p: Bytes) { |p| >= 2 && p[0] == 255 && p[1] == 216 }

  function Jpeg(policy: Policy, p: Bytes): Verdict
    requires IsJpeg(p)
  {
    Markers(policy, p[2..], None, false)
  }

  /** The preflight: the encoded size, then whichever format the signature shows. */
  function PreflightOf(policy: Policy, p: Bytes): Verdict {
    if CheckEncoded(policy, |p|).Some? then Rejected(CheckEncoded(policy, |p|).value)
    else if IsPng(p) then Png(policy, p)
    else if IsJpeg(p) then Jpeg(policy, p)
    else Fault("Only JPEG and PNG images are supported")
  }

  // ---- The loops ------------------------------------------------------------------------------------------------------------

  method FillEnd(p: Bytes, pos: nat) returns (next: nat)
    requires pos <= |p|
    ensures pos <= next <= |p| && p[next..] == SkipFill(p[pos..])
  {
    next := pos;
    while next < |p| && p[next] == 255
      invariant pos <= next <= |p| && SkipFill(p[next..]) == SkipFill(p[pos..])
    {
      assert p[next..][1..] == p[next + 1..];
      next := next + 1;
    }
  }

  lemma ScanSkip(s: Bytes)
    requires s != [] && s[0] != 255
    ensures SkipScan(s) == SkipScan(s[1..])
  {
  }

  lemma ScanFill(s: Bytes, next: Bytes)
    requires s != [] && s[0] == 255 && next == SkipFill(s)
    ensures SkipScan(s) == if next == [] then [] else if Stuffing(next[0]) then SkipScan(next[1..]) else s
  {
  }

  method ScanEnd(p: Bytes, start: nat) returns (pos: nat)
    requires start <= |p|
    ensures start <= pos <= |p| && p[pos..] == SkipScan(p[start..])
  {
    hide SkipFill, SkipScan, Stuffing;
    pos := start;
    while pos < |p|
      invariant start <= pos <= |p| && SkipScan(p[pos..]) == SkipScan(p[start..])
      decreases |p| - pos
    {
      if p[pos] != 255 {
        ScanSkip(p[pos..]);
        assert p[pos..][1..] == p[pos + 1..];
        pos := pos + 1;
      } else {
        var next := FillEnd(p, pos);
        ScanFill(p[pos..], p[next..]);
        if next == |p| { return |p|; }
        if !Stuffing(p[next]) { return; }
        assert p[next..][1..] == p[next + 1..];
        pos := next + 1;
      }
    }
    assert SkipScan([]) == [] by { SkipNothing(); }
  }

  lemma SkipNothing()
    ensures SkipScan([]) == []
  {
  }

  /** What the segment at `at` leads to: a verdict, or the position, frame and scan flag to go on with. */
  method TurnSegment(policy: Policy, p: Bytes, marker: bv8, at: nat, frame: Option<Shape>, scan: bool)
    returns (v: Option<Verdict>, pos: nat, newFrame: Option<Shape>, newScan: bool)
    requires at <= |p|
    ensures at <= pos <= |p|
    ensures TakeRest(policy, marker, p[at..], frame, scan) ==
      if v.Some? then Ended(v.value) else More(p[pos..], newFrame, newScan)
  {
    hide TakeSegment, SkipScan, Length;
    v, pos, newFrame, newScan := None, at, frame, scan;
    if |p| - at < 2 { return Some(TRUNCATED), at, frame, scan; }
    var rest := p[at..];
    var len := Length(rest);
    if len < 2 || len > |rest| { return Some(Fault("Invalid JPEG segment length")), at, frame, scan; }
    var seen := TakeSegment(policy, marker, rest[..len], frame);
    if seen.Stop? { return Some(seen.verdict), at, frame, scan; }
    newFrame := seen.frame;
    pos := at + len;
    assert rest[len..] == p[pos..];
    if marker == 218 {
      newScan := true;
      pos := ScanEnd(p, pos);
    }
  }

  method TurnMarker(policy: Policy, p: Bytes, at: nat, frame: Option<Shape>, scan: bool)
    returns (v: Option<Verdict>, pos: nat, newFrame: Option<Shape>, newScan: bool)
    requires at < |p|
    ensures at < pos <= |p|
    ensures TakeMarker(policy, p[at], p[at + 1..], frame, scan) ==
      if v.Some? then Ended(v.value) else More(p[pos..], newFrame, newScan)
  {
    hide TakeRest;
    var marker := p[at];
    if marker == 217 {
      return Some(if frame.Some? && scan then Accepted(frame.value) else TRUNCATED), at + 1, frame, scan;
    }
    if marker == 0 || marker == 216 || Restart(marker) {
      return Some(Fault("Invalid JPEG marker sequence")), at + 1, frame, scan;
    }
    v, pos, newFrame, newScan := TurnSegment(policy, p, marker, at + 1, frame, scan);
  }

  /** The loop over the markers: every read is in bounds, and it ends. */
  method WalkMarkers(policy: Policy, p: Bytes) returns (v: Verdict)
    requires |p| >= 2
    ensures v == Markers(policy, p[2..], None, false)
  {
    hide TakeMarker, SkipFill;
    var frame: Option<Shape> := None;
    var scan := false;
    var pos := 2;
    while pos < |p|
      invariant 2 <= pos <= |p| && Markers(policy, p[pos..], frame, scan) == Markers(policy, p[2..], None, false)
      decreases |p| - pos
    {
      if p[pos] != 255 { return Fault("Invalid JPEG marker"); }
      var at := FillEnd(p, pos);
      if at == |p| { return TRUNCATED; }
      assert p[at..][1..] == p[at + 1..] && p[at..][0] == p[at];
      var end, next, f, sc := TurnMarker(policy, p, at, frame, scan);
      if end.Some? { return end.value; }
      pos, frame, scan := next, f, sc;
    }
    return TRUNCATED;
  }

  method Preflight(policy: Policy, p: Bytes) returns (v: Verdict)
    ensures v == PreflightOf(policy, p)
  {
    var size := CheckEncoded(policy, |p|);
    if size.Some? { return Rejected(size.value); }
    if |p| >= 8 && p[..8] == SIGNATURE {
      v := PreflightPng(policy, p);
    } else if |p| >= 2 && p[0] == 255 && p[1] == 216 {
      v := WalkMarkers(policy, p);
    } else {
      v := Fault("Only JPEG and PNG images are supported");
    }
  }

  // ---- The grammar ------------------------------------------------------------------------------------------------------------

  /** A marker with extra fill bytes before it, its payload with the length bytes, and the entropy-coded
      data that follows a scan header. */
  datatype Segment = Segment(fill: nat, marker: bv8, payload: Bytes, entropy: Bytes)

  function Fill(n: nat): (s: Bytes)
    ensures |s| == n && forall i :: 0 <= i < n ==> s[i] == 255
  {
    if n == 0 then [] else [255] + Fill(n - 1)
  }

  function MarkerBytes(fill: nat, marker: bv8): Bytes { Fill(fill + 1) + [marker] }

  function SegmentBytes(g: Segment): Bytes { MarkerBytes(g.fill, g.marker) + g.payload + g.entropy }

  function AllSegments(segments: seq<Segment>): Bytes {
    if segments == [] then [] else SegmentBytes(segments[0]) + AllSegments(segments[1..])
  }

  /** Every run of 255s is followed by a zero or a restart marker. */
  predicate Entropy(e: Bytes)
    decreases |e|
  {
    e == [] ||
    if e[0] != 255 then Entropy(e[1..])
    else
      var next := SkipFill(e);
      next != [] && Stuffing(next[0]) && Entropy(next[1..])
  }

  predicate Proper(marker: bv8) { marker != 255 && marker != 216 && marker != 217 && !Stuffing(marker) }

  predicate SegmentFormed(policy: Policy, g: Segment) {
    && Proper(g.marker) && |g.payload| >= 2 && Length(g.payload) == |g.payload|
    && (FrameMarker(g.marker) ==>
          SupportedFrame(g.marker, g.payload) &&
          Fits(policy, FrameShape(g.payload).width, FrameShape(g.payload).height))
    && (g.marker == 218 ==> SupportedScan(g.payload) && Entropy(g.entropy))
    && (g.marker != 218 ==> g.entropy == [])
  }

  predicate HasScan(segments: seq<Segment>) { exists i :: 0 <= i < |segments| && segments[i].marker == 218 }

  /** One frame of this shape, before any scan; and a scan. */
  predicate SegmentsFormed(policy: Policy, segments: seq<Segment>, frame: nat, shape: Shape) {
    && (forall i :: 0 <= i < |segments| ==> SegmentFormed(policy, segments[i]))
    && frame < |segments| && FrameMarker(segments[frame].marker) && FrameShape(segments[frame].payload) == shape
    && (forall i :: 0 <= i < |segments| && FrameMarker(segments[i].marker) ==> i == frame)
    && (forall i :: 0 <= i < |segments| && segments[i].marker == 218 ==> frame < i)
    && HasScan(segments)
  }

  /** Start of image, the segments, end of image; what follows it is not looked at. */
  predicate JpegFormed(policy: Policy, p: Bytes, segments: seq<Segment>, frame: nat, shape: Shape, fill: nat, tail: Bytes) {
    p == [255, 216] + (AllSegments(segments) + (MarkerBytes(fill, 217) + tail)) &&
    SegmentsFormed(policy, segments, frame, shape)
  }

  /** The same, segment by segment, from a point where `frame` and `scan` have been seen. */
  predicate Runs(policy: Policy, segments: seq<Segment>, frame: Option<Shape>, scan: bool, shape: Shape)
    decreases |segments|
  {
    if segments == [] then frame == Some(shape) && scan
    else
      var g, rest := segments[0], segments[1..];
      SegmentFormed(policy, g) &&
      if FrameMarker(g.marker) then frame.None? && Runs(policy, rest, Some(FrameShape(g.payload)), scan, shape)
      else if g.marker == 218 then frame.Some? && Runs(policy, rest, frame, true, shape)
      else Runs(policy, rest, frame, scan, shape)
  }

  // ---- Fill and entropy -------------------------------------------------------------------------------------------------------

  lemma {:induction false} SkipFillAt(n: nat, marker: bv8, rest: Bytes)
    requires marker != 255
    ensures SkipFill(Fill(n) + [marker] + rest) == [marker] + rest
  {
    var s := Fill(n) + [marker] + rest;
    if n > 0 {
      SkipFillAt(n - 1, marker, rest);
      assert s[1..] == Fill(n - 1) + [marker] + rest;
    } else {
      assert s == [marker] + rest;
    }
  }

  lemma {:induction false} SkipFillMore(s: Bytes, rest: Bytes)
    requires SkipFill(s) != []
    ensures SkipFill(s + rest) == SkipFill(s) + rest
  {
    if s[0] == 255 {
      assert (s + rest)[1..] == s[1..] + rest;
      SkipFillMore(s[1..], rest);
    }
  }

  /** Where a marker proper stands. */
  predicate AtMarker(s: Bytes) { s != [] && s[0] == 255 && SkipFill(s) != [] && !Stuffing(SkipFill(s)[0]) }

  /** Entropy-coded data is skipped up to the marker after it... */
  lemma {:induction false} EntropySkipped(e: Bytes, rest: Bytes)
    requires Entropy(e) && AtMarker(rest)
    ensures SkipScan(e + rest) == rest
    decreases |e|
  {
    if e == [] {
      assert e + rest == rest;
    } else if e[0] != 255 {
      assert (e + rest)[1..] == e[1..] + rest;
      EntropySkipped(e[1..], rest);
    } else {
      var next := SkipFill(e);
      SkipFillMore(e, rest);
      assert (next + rest)[1..] == next[1..] + rest;
      EntropySkipped(next[1..], rest);
    }
  }

  /** ...and what is skipped before a marker is entropy-coded data. */
  lemma {:induction false} SkippedEntropy(s: Bytes) returns (e: Bytes)
    requires SkipScan(s) != []
    ensures s == e + SkipScan(s) && Entropy(e)
    decreases |s|
  {
    hide SkipFill, SkipScan, Entropy, Stuffing;
    if s[0] != 255 {
      ScanSkip(s);
      var f := SkippedEntropy(s[1..]);
      e := [s[0]] + f;
      Plain(s[0], f);
      Reassociate([], s, f, SkipScan(s));
      assert [] + s == s && [] + [s[0]] + f == e;
    } else {
      var next := SkipFill(s);
      ScanFill(s, next);
      if Stuffing(next[0]) {
        var f := SkippedEntropy(next[1..]);
        e := Restuff(s, f);
      } else {
        e := NoEntropy();
        assert [] + s == s;
      }
    }
  }

  lemma Plain(b: bv8, f: Bytes)
    requires b != 255 && Entropy(f)
    ensures Entropy([b] + f)
  {
    assert ([b] + f)[1..] == f;
  }

  lemma NoEntropy() returns (e: Bytes)
    ensures e == [] && Entropy(e)
  {
    e := [];
  }

  /** Fill bytes, then what remains after skipping them. */
  lemma FillSplit(s: Bytes) returns (fill: Bytes)
    ensures s == fill + SkipFill(s) && forall i :: 0 <= i < |fill| ==> fill[i] == 255
    ensures s != [] && s[0] == 255 ==> fill != []
  {
    fill := s[..|s| - |SkipFill(s)|];
    hide SkipFill;
  }

  lemma Restuff(s: Bytes, f: Bytes) returns (e: Bytes)
    requires s != [] && s[0] == 255 && SkipFill(s) != [] && Stuffing(SkipFill(s)[0]) && Entropy(f)
    requires SkipFill(s)[1..] == f + SkipScan(SkipFill(s)[1..])
    ensures s == e + SkipScan(s) && Entropy(e)
  {
    hide *;
    var next := SkipFill(s);
    var fill := FillSplit(s);
    ScanFill(s, next);
    StuffedEntropy(fill, next[0], f);
    Reassociate(fill, next, f, SkipScan(s));
    e := fill + [next[0]] + f;
  }

  lemma Reassociate(fill: Bytes, next: Bytes, f: Bytes, r: Bytes)
    requires next != [] && next[1..] == f + r
    ensures fill + next == (fill + [next[0]] + f) + r
  {
    assert next == [next[0]] + (f + r);
  }

  lemma {:induction false} FillIs(fill: Bytes)
    requires forall i :: 0 <= i < |fill| ==> fill[i] == 255
    ensures fill == Fill(|fill|)
  {
  }

  lemma StuffedEntropy(fill: Bytes, marker: bv8, rest: Bytes)
    requires fill != [] && forall i :: 0 <= i < |fill| ==> fill[i] == 255
    requires Stuffing(marker) && Entropy(rest)
    ensures Entropy(fill + [marker] + rest)
  {
    FillIs(fill);
    SkipFillAt(|fill|, marker, rest);
    assert ([marker] + rest)[1..] == rest;
  }
}
