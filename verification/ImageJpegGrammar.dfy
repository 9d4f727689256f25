/** The JPEG walk accepts exactly the files of the grammar. */
module ImageJpegGrammar {
  import opened Optional
  import opened ImagePng
  import opened ImageJpeg

  // ---- One segment ------------------------------------------------------------------------------------------------------------

  lemma MarkerHere(fill: nat, marker: bv8, tail: Bytes)
    requires marker != 255
    ensures var s := MarkerBytes(fill, marker) + tail;
      s != [] && s[0] == 255 && SkipFill(s) == [marker] + tail
      && (!Stuffing(marker) ==> AtMarker(s))
  {
    var s := MarkerBytes(fill, marker) + tail;
    assert s == Fill(fill + 1) + [marker] + tail;
    SkipFillAt(fill + 1, marker, tail);
    assert ([marker] + tail)[0] == marker;
  }

  lemma LengthAt(payload: Bytes, more: Bytes)
    requires |payload| >= 2
    ensures Length(payload + more) == Length(payload)
  {
    assert (payload + more)[0] == payload[0] && (payload + more)[1] == payload[1];
    hide *;
    LengthOf(payload + more, payload);
  }

  lemma LengthOf(s: Bytes, t: Bytes)
    requires |s| >= 2 && |t| >= 2 && s[0] == t[0] && s[1] == t[1]
    ensures Length(s) == Length(t)
  {
  }

  /** What a formed segment does to the frame seen. */
  function NextFrame(g: Segment, frame: Option<Shape>): Option<Shape>
    requires FrameMarker(g.marker) ==> |g.payload| >= 8
  {
    if FrameMarker(g.marker) then Some(FrameShape(g.payload)) else frame
  }

  /** A formed segment may stand here: a frame only if there was none, a scan only after one. */
  predicate Fitting(policy: Policy, g: Segment, frame: Option<Shape>) {
    SegmentFormed(policy, g) && (FrameMarker(g.marker) ==> frame.None?) && (g.marker == 218 ==> frame.Some?)
  }

  lemma SegmentTaken(policy: Policy, g: Segment, frame: Option<Shape>)
    requires Fitting(policy, g, frame)
    ensures TakeSegment(policy, g.marker, g.payload, frame) == Seen(NextFrame(g, frame))
  {
    hide Length, Entropy, Proper;
    if FrameMarker(g.marker) {
      var shape := FrameShape(g.payload);
      CheckShapeExact(policy, shape.width, shape.height);
    }
  }

  lemma RestTaken(policy: Policy, g: Segment, frame: Option<Shape>, scan: bool, tail: Bytes)
    requires Fitting(policy, g, frame) && (g.marker == 218 ==> AtMarker(tail))
    ensures TakeRest(policy, g.marker, g.payload + (g.entropy + tail), frame, scan) ==
      More(tail, NextFrame(g, frame), scan || g.marker == 218)
  {
    var rest := g.payload + (g.entropy + tail);
    LengthAt(g.payload, g.entropy + tail);
    SegmentTaken(policy, g, frame);
    if g.marker == 218 { EntropySkipped(g.entropy, tail); }
    hide TakeSegment, SkipScan, SkipFill, Length, Entropy, FrameMarker, NextFrame, Stuffing, SupportedFrame, SupportedScan, FrameShape;
    var len := |g.payload|;
    assert rest[..len] == g.payload && rest[len..] == g.entropy + tail;
    assert g.entropy == [] ==> [] + tail == tail;
  }

  lemma ProperTaken(policy: Policy, marker: bv8, rest: Bytes, frame: Option<Shape>, scan: bool)
    requires Proper(marker)
    ensures TakeMarker(policy, marker, rest, frame, scan) == TakeRest(policy, marker, rest, frame, scan)
  {
    hide TakeRest;
  }

  lemma SegmentSplit(g: Segment, tail: Bytes)
    ensures SegmentBytes(g) + tail == MarkerBytes(g.fill, g.marker) + (g.payload + (g.entropy + tail))
  {
    hide MarkerBytes;
  }

  lemma MarkersStep(policy: Policy, s: Bytes, marker: bv8, rest: Bytes, frame: Option<Shape>, scan: bool)
    requires s != [] && s[0] == 255 && SkipFill(s) == [marker] + rest
    ensures var t := TakeMarker(policy, marker, rest, frame, scan);
      Markers(policy, s, frame, scan) == if t.Ended? then t.verdict else Markers(policy, t.rest, t.frame, t.scan)
  {
    hide TakeMarker, SkipFill;
    assert ([marker] + rest)[0] == marker && ([marker] + rest)[1..] == rest;
  }

  lemma SegmentWalked(policy: Policy, g: Segment, frame: Option<Shape>, scan: bool, tail: Bytes)
    requires Fitting(policy, g, frame) && (g.marker == 218 ==> AtMarker(tail))
    ensures Markers(policy, SegmentBytes(g) + tail, frame, scan) ==
      Markers(policy, tail, NextFrame(g, frame), scan || g.marker == 218)
  {
    FirstProper(policy, g, frame);
    assert g.marker != 255;
    hide *;
    var rest := g.payload + (g.entropy + tail);
    SegmentSplit(g, tail);
    MarkerHere(g.fill, g.marker, rest);
    RestTaken(policy, g, frame, scan, tail);
    ProperTaken(policy, g.marker, rest, frame, scan);
    MarkersStep(policy, SegmentBytes(g) + tail, g.marker, rest, frame, scan);
  }

  // ---- Formed files are accepted ------------------------------------------------------------------------------------------------

  /** Segments up to the end of image, and what follows. */
  function UpToEnd(segments: seq<Segment>, fill: nat, tail: Bytes): Bytes {
    AllSegments(segments) + (MarkerBytes(fill, 217) + tail)
  }

  lemma UpToEndSplit(segments: seq<Segment>, fill: nat, tail: Bytes)
    requires segments != []
    ensures UpToEnd(segments, fill, tail) == SegmentBytes(segments[0]) + UpToEnd(segments[1..], fill, tail)
  {
    hide SegmentBytes, MarkerBytes;
    assert AllSegments(segments) == SegmentBytes(segments[0]) + AllSegments(segments[1..]);
  }

  lemma UpToEndAtMarker(segments: seq<Segment>, fill: nat, tail: Bytes)
    requires forall i :: 0 <= i < |segments| ==> Proper(segments[i].marker)
    ensures AtMarker(UpToEnd(segments, fill, tail))
  {
    if segments == [] {
      assert UpToEnd(segments, fill, tail) == MarkerBytes(fill, 217) + tail;
      MarkerHere(fill, 217, tail);
    } else {
      var g := segments[0];
      assert Proper(g.marker) && g.marker != 255 && !Stuffing(g.marker);
      hide *;
      var more := UpToEnd(segments[1..], fill, tail);
      UpToEndSplit(segments, fill, tail);
      SegmentSplit(g, more);
      MarkerHere(g.fill, g.marker, g.payload + (g.entropy + more));
    }
  }

  lemma EndWalked(policy: Policy, fill: nat, tail: Bytes, shape: Shape)
    ensures Markers(policy, UpToEnd([], fill, tail), Some(shape), true) == Accepted(shape)
  {
    assert UpToEnd([], fill, tail) == MarkerBytes(fill, 217) + tail;
    MarkerHere(fill, 217, tail);
    hide SkipFill, MarkerBytes;
    assert ([217 as bv8] + tail)[0] == 217;
  }

  lemma {:induction false} RunsProper(policy: Policy, segments: seq<Segment>, frame: Option<Shape>, scan: bool, shape: Shape)
    requires Runs(policy, segments, frame, scan, shape)
    ensures forall i :: 0 <= i < |segments| ==> Proper(segments[i].marker)
    decreases |segments|
  {
    if segments != [] {
      RunsNext(policy, segments, frame, scan, shape);
      hide *;
      var g := segments[0];
      RunsProper(policy, segments[1..], NextFrame(g, frame), scan || g.marker == 218, shape);
      FirstProper(policy, g, frame);
      assert forall i :: 1 <= i < |segments| ==> segments[i] == segments[1..][i - 1];
    }
  }

  lemma FirstProper(policy: Policy, g: Segment, frame: Option<Shape>)
    requires Fitting(policy, g, frame)
    ensures Proper(g.marker)
  {
  }

  /** One step of the state machine in terms of the fitting segment. */
  lemma RunsNext(policy: Policy, segments: seq<Segment>, frame: Option<Shape>, scan: bool, shape: Shape)
    requires segments != []
    ensures var g := segments[0];
      Runs(policy, segments, frame, scan, shape) <==>
        Fitting(policy, g, frame) && Runs(policy, segments[1..], NextFrame(g, frame), scan || g.marker == 218, shape)
  {
    var g := segments[0];
    assert FrameMarker(g.marker) ==> g.marker != 218;
    hide Length, Entropy, Proper, SupportedScan, FrameMarker, FrameShape, Fits;
  }

  lemma {:induction false} RunsAccepted(policy: Policy, segments: seq<Segment>, frame: Option<Shape>, scan: bool, shape: Shape,
                                        fill: nat, tail: Bytes)
    requires Runs(policy, segments, frame, scan, shape)
    ensures Markers(policy, UpToEnd(segments, fill, tail), frame, scan) == Accepted(shape)
    decreases |segments|
  {
    if segments == [] {
      EndWalked(policy, fill, tail, shape);
    } else {
      RunsNext(policy, segments, frame, scan, shape);
      hide *;
      var g, rest := segments[0], segments[1..];
      RunsProper(policy, rest, NextFrame(g, frame), scan || g.marker == 218, shape);
      UpToEndAtMarker(rest, fill, tail);
      UpToEndSplit(segments, fill, tail);
      SegmentWalked(policy, g, frame, scan, UpToEnd(rest, fill, tail));
      RunsAccepted(policy, rest, NextFrame(g, frame), scan || g.marker == 218, shape, fill, tail);
    }
  }

  // ---- Accepted files are formed --------------------------------------------------------------------------------------------------

  lemma AcceptedSegment(policy: Policy, marker: bv8, payload: Bytes, frame: Option<Shape>, entropy: Bytes, fill: nat)
    requires Proper(marker) && |payload| >= 2 && Length(payload) == |payload|
    requires TakeSegment(policy, marker, payload, frame).Seen?
    requires Entropy(entropy) && (marker != 218 ==> entropy == [])
    ensures var g := Segment(fill, marker, payload, entropy);
      Fitting(policy, g, frame) && TakeSegment(policy, marker, payload, frame) == Seen(NextFrame(g, frame))
  {
    if FrameMarker(marker) && SupportedFrame(marker, payload) {
      var shape := FrameShape(payload);
      CheckShapeExact(policy, shape.width, shape.height);
    }
    hide Length, Entropy, Proper, CheckShape, Fits, SupportedScan;
  }

  /** A marker the walk goes on from is the front of a fitting segment. */
  lemma MoreSegment(policy: Policy, marker: bv8, rest: Bytes, frame: Option<Shape>, scan: bool, fill: nat)
    returns (g: Segment)
    requires marker != 255
    requires TakeMarker(policy, marker, rest, frame, scan).More? && TakeMarker(policy, marker, rest, frame, scan).rest != []
    ensures var t := TakeMarker(policy, marker, rest, frame, scan);
      && g.fill == fill && g.marker == marker && Fitting(policy, g, frame)
      && t.frame == NextFrame(g, frame) && t.scan == (scan || marker == 218)
      && rest == g.payload + (g.entropy + t.rest)
  {
    assert Proper(marker);
    ProperTaken(policy, marker, rest, frame, scan);
    hide TakeMarker, TakeSegment, SkipScan, Proper, Entropy;
    var len := Length(rest);
    var payload, more := rest[..len], rest[len..];
    assert rest == payload + more;
    LengthAt(payload, more);
    var entropy: Bytes := NoEntropy();
    if marker == 218 {
      entropy := SkippedEntropy(more);
    } else {
      assert [] + more == more;
    }
    AcceptedSegment(policy, marker, payload, frame, entropy, fill);
    g := Segment(fill, marker, payload, entropy);
  }

  lemma FillMarker(s: Bytes) returns (fill: nat)
    requires s != [] && s[0] == 255 && SkipFill(s) != []
    ensures SkipFill(s)[0] != 255
    ensures s == MarkerBytes(fill, SkipFill(s)[0]) + SkipFill(s)[1..]
  {
    var next := SkipFill(s);
    hide SkipFill;
    var f := FillSplit(s);
    FillIs(f);
    fill := |f| - 1;
    assert next == [next[0]] + next[1..];
  }

  lemma {:induction false} AcceptedRuns(policy: Policy, s: Bytes, frame: Option<Shape>, scan: bool)
    returns (segments: seq<Segment>, fill: nat, tail: Bytes)
    requires Markers(policy, s, frame, scan).Accepted?
    ensures s == UpToEnd(segments, fill, tail)
    ensures Runs(policy, segments, frame, scan, Markers(policy, s, frame, scan).shape)
    decreases |s|
  {
    var next := SkipFill(s);
    var k := FillMarker(s);
    var marker, rest := next[0], next[1..];
    assert next == [marker] + rest;
    MarkersStep(policy, s, marker, rest, frame, scan);
    var t := TakeMarker(policy, marker, rest, frame, scan);
    if t.Ended? {
      EndedAtEnd(policy, marker, rest, frame, scan);
      segments, fill, tail := [], k, rest;
      hide MarkerBytes;
      assert UpToEnd([], k, rest) == MarkerBytes(k, 217) + rest;
    } else {
      assert t.rest != [];
      hide *;
      var g := MoreSegment(policy, marker, rest, frame, scan, k);
      var more, f, e := AcceptedRuns(policy, t.rest, t.frame, t.scan);
      segments, fill, tail := [g] + more, f, e;
      assert segments[0] == g && segments[1..] == more;
      UpToEndSplit(segments, fill, tail);
      SegmentSplit(g, t.rest);
      RunsNext(policy, segments, frame, scan, Markers(policy, s, frame, scan).shape);
    }
  }

  lemma EndedAtEnd(policy: Policy, marker: bv8, rest: Bytes, frame: Option<Shape>, scan: bool)
    requires TakeMarker(policy, marker, rest, frame, scan).Ended?
    requires TakeMarker(policy, marker, rest, frame, scan).verdict.Accepted?
    ensures marker == 217 && scan && frame == Some(TakeMarker(policy, marker, rest, frame, scan).verdict.shape)
  {
    hide Length, SkipScan, SupportedFrame, SupportedScan, CheckShape, FrameShape, FrameMarker;
  }

  // ---- One frame, then scans --------------------------------------------------------------------------------------------------------

  /** After the frame: formed segments without another frame, and a scan unless there was one. */
  predicate Later(policy: Policy, segments: seq<Segment>, scan: bool) {
    && (forall i :: 0 <= i < |segments| ==> SegmentFormed(policy, segments[i]) && !FrameMarker(segments[i].marker))
    && (scan || HasScan(segments))
  }

  lemma ScanNext(segments: seq<Segment>)
    requires segments != []
    ensures HasScan(segments) <==> segments[0].marker == 218 || HasScan(segments[1..])
  {
    if HasScan(segments) && segments[0].marker != 218 {
      var i :| 0 <= i < |segments| && segments[i].marker == 218;
      assert segments[1..][i - 1].marker == 218;
    }
    if HasScan(segments[1..]) {
      var i :| 0 <= i < |segments[1..]| && segments[1..][i].marker == 218;
      assert segments[i + 1].marker == 218;
    }
  }

  lemma LaterNext(policy: Policy, segments: seq<Segment>, scan: bool)
    requires segments != []
    ensures var g := segments[0];
      Later(policy, segments, scan) <==>
        SegmentFormed(policy, g) && !FrameMarker(g.marker) && Later(policy, segments[1..], scan || g.marker == 218)
  {
    ScanNext(segments);
    hide SegmentFormed, FrameMarker, HasScan;
    var rest := segments[1..];
    assert forall i :: 0 <= i < |rest| ==> rest[i] == segments[i + 1];
    assert forall i :: 1 <= i < |segments| ==> segments[i] == rest[i - 1];
  }

  lemma {:induction false} RunsLater(policy: Policy, segments: seq<Segment>, seen: Shape, scan: bool, shape: Shape)
    ensures Runs(policy, segments, Some(seen), scan, shape) <==> seen == shape && Later(policy, segments, scan)
    decreases |segments|
  {
    if segments != [] {
      var g := segments[0];
      LaterNext(policy, segments, scan);
      RunsNext(policy, segments, Some(seen), scan, shape);
      RunsLater(policy, segments[1..], seen, scan || g.marker == 218, shape);
      hide Later, Runs, SegmentFormed, FrameMarker;
    }
  }

  lemma FrameFirst(policy: Policy, segments: seq<Segment>, shape: Shape)
    requires segments != []
    ensures var g, rest := segments[0], segments[1..];
      SegmentsFormed(policy, segments, 0, shape) <==>
        SegmentFormed(policy, g) && FrameMarker(g.marker) && FrameShape(g.payload) == shape && Later(policy, rest, false)
  {
    var g, rest := segments[0], segments[1..];
    assert FrameMarker(g.marker) ==> g.marker != 218;
    ScanNext(segments);
    hide SegmentFormed, FrameMarker, FrameShape, HasScan;
    assert forall i :: 0 <= i < |rest| ==> rest[i] == segments[i + 1];
    assert forall i :: 1 <= i < |segments| ==> segments[i] == rest[i - 1];
  }

  lemma OtherFirst(policy: Policy, segments: seq<Segment>, frame: nat, shape: Shape)
    requires segments != [] && frame > 0
    ensures var g, rest := segments[0], segments[1..];
      SegmentsFormed(policy, segments, frame, shape) <==>
        SegmentFormed(policy, g) && !FrameMarker(g.marker) && g.marker != 218 && SegmentsFormed(policy, rest, frame - 1, shape)
  {
    var g, rest := segments[0], segments[1..];
    ScanNext(segments);
    hide SegmentFormed, FrameMarker, FrameShape, HasScan;
    assert forall i :: 0 <= i < |rest| ==> rest[i] == segments[i + 1];
    assert forall i :: 1 <= i < |segments| ==> segments[i] == rest[i - 1];
    assert frame < |segments| ==> segments[frame] == rest[frame - 1];
  }

  /** The frame's position in a formed list. */
  lemma FormedFirst(policy: Policy, segments: seq<Segment>, frame: nat, shape: Shape)
    requires segments != []
    ensures var g, rest := segments[0], segments[1..];
      SegmentsFormed(policy, segments, frame, shape) <==>
        SegmentFormed(policy, g) &&
        if frame == 0 then FrameMarker(g.marker) && FrameShape(g.payload) == shape && Later(policy, rest, false)
        else !FrameMarker(g.marker) && g.marker != 218 && SegmentsFormed(policy, rest, frame - 1, shape)
  {
    hide *;
    if frame == 0 {
      FrameFirst(policy, segments, shape);
    } else {
      OtherFirst(policy, segments, frame, shape);
    }
  }

  lemma {:induction false} FormedRuns(policy: Policy, segments: seq<Segment>, frame: nat, shape: Shape)
    requires SegmentsFormed(policy, segments, frame, shape)
    ensures Runs(policy, segments, None, false, shape)
    decreases |segments|
  {
    var g, rest := segments[0], segments[1..];
    FormedFirst(policy, segments, frame, shape);
    RunsNext(policy, segments, None, false, shape);
    if frame == 0 {
      RunsLater(policy, rest, shape, false, shape);
    } else {
      FormedRuns(policy, rest, frame - 1, shape);
    }
    assert FrameMarker(g.marker) ==> g.marker != 218;
    hide Later, Runs, SegmentFormed, SegmentsFormed, FrameMarker, FrameShape;
  }

  lemma {:induction false} RunsFormed(policy: Policy, segments: seq<Segment>, shape: Shape) returns (frame: nat)
    requires Runs(policy, segments, None, false, shape)
    ensures SegmentsFormed(policy, segments, frame, shape)
    decreases |segments|
  {
    var g, rest := segments[0], segments[1..];
    RunsNext(policy, segments, None, false, shape);
    assert FrameMarker(g.marker) ==> g.marker != 218;
    if FrameMarker(g.marker) {
      RunsLater(policy, rest, FrameShape(g.payload), false, shape);
      frame := 0;
    } else {
      var f := RunsFormed(policy, rest, shape);
      frame := f + 1;
    }
    FormedFirst(policy, segments, frame, shape);
    hide Later, Runs, SegmentFormed, SegmentsFormed, FrameMarker, FrameShape;
  }

  // ---- The decision -------------------------------------------------------------------------------------------------------------------

  lemma FormedAccepted(policy: Policy, p: Bytes, segments: seq<Segment>, frame: nat, shape: Shape, fill: nat, tail: Bytes)
    requires JpegFormed(policy, p, segments, frame, shape, fill, tail)
    ensures IsJpeg(p) && Jpeg(policy, p) == Accepted(shape)
  {
    var rest := UpToEnd(segments, fill, tail);
    assert p[0] == 255 && p[1] == 216 && p[2..] == rest;
    FormedRuns(policy, segments, frame, shape);
    RunsAccepted(policy, segments, None, false, shape, fill, tail);
  }

  lemma StartAndRest(p: Bytes)
    requires IsJpeg(p)
    ensures p == [255, 216] + p[2..]
  {
  }

  lemma UpToEndIs(segments: seq<Segment>, fill: nat, tail: Bytes)
    ensures UpToEnd(segments, fill, tail) == AllSegments(segments) + (MarkerBytes(fill, 217) + tail)
  {
  }

  lemma AcceptedFormed(policy: Policy, p: Bytes)
    returns (segments: seq<Segment>, frame: nat, fill: nat, tail: Bytes)
    requires IsJpeg(p) && Jpeg(policy, p).Accepted?
    ensures JpegFormed(policy, p, segments, frame, Jpeg(policy, p).shape, fill, tail)
  {
    hide Markers, Runs, SegmentsFormed, UpToEnd;
    segments, fill, tail := AcceptedRuns(policy, p[2..], None, false);
    frame := RunsFormed(policy, segments, Jpeg(policy, p).shape);
    StartAndRest(p);
    UpToEndIs(segments, fill, tail);
  }

  /** A JPEG passes if and only if it is the start of image, formed segments with exactly one supported
      frame within the budget, no scan before it and some scan after it, and the end of image; its
      shape is the frame's. */
  lemma JpegDecides(policy: Policy, p: Bytes, shape: Shape)
    ensures IsJpeg(p) && Jpeg(policy, p) == Accepted(shape) <==>
      exists segments, frame, fill, tail :: JpegFormed(policy, p, segments, frame, shape, fill, tail)
  {
    if IsJpeg(p) && Jpeg(policy, p) == Accepted(shape) {
      var segments, frame, fill, tail := AcceptedFormed(policy, p);
    }
    hide Jpeg, IsJpeg, JpegFormed;
    if segments, frame, fill, tail :| JpegFormed(policy, p, segments, frame, shape, fill, tail) {
      FormedAccepted(policy, p, segments, frame, shape, fill, tail);
    }
  }

  /** What passes the preflight is not empty, within the encoded limit, of one of the two grammars,
      and has dimensions within the budget. */
  lemma PreflightSound(policy: Policy, p: Bytes)
    requires PreflightOf(policy, p).Accepted?
    ensures 0 < |p| <= policy.encoded
    ensures var shape := PreflightOf(policy, p).shape; Fits(policy, shape.width, shape.height)
    ensures PreflightOf(policy, p).shape.jpeg <==> IsJpeg(p)
  {
    if IsPng(p) {
      var h, chunks := ImagePng.AcceptedFormed(policy, p);
      ImagePng.FormedAccepted(policy, p, h, chunks);
      assert p[0] == SIGNATURE[0];
    } else {
      var segments, frame, fill, tail := AcceptedFormed(policy, p);
      assert SegmentFormed(policy, segments[frame]);
    }
  }
}
