/**
 * `visualize(image, results, print_results, fps)`: copy the frame, draw on
 * the copy, print the report, return the copy.
 */
module Visualize {
  import opened Results
  import Int32
  import opened Detections
  import opened Drawing
  import opened Reporting
  import opened Blocks

  /**
   * An image buffer: its pixels as they were before any annotation, and the
   * OpenCV drawing calls made on it since, oldest first. How a call changes
   * the pixels is OpenCV's business and is kept abstract.
   */
  class Frame {
    var pixels: seq<bv8>
    var strokes: seq<DrawCommand>

    constructor (pixels: seq<bv8>)
      ensures this.pixels == pixels && strokes == []
    {
      this.pixels := pixels;
      strokes := [];
    }

    /** `image.copy()`: a new buffer with the same contents. */
    method Copy() returns (c: Frame)
      ensures fresh(c)
      ensures c.pixels == pixels && c.strokes == strokes
    {
      c := new Frame(pixels);
      c.strokes := strokes;
    }

    /** `cv.putText(self, ...)` */
    method PutText(text: Label, org: Point, font: Font, scale: real, color: Color)
      modifies this
      ensures pixels == old(pixels)
      ensures strokes == old(strokes) + [DrawCommand.PutText(text, org, font, scale, color)]
    {
      strokes := strokes + [DrawCommand.PutText(text, org, font, scale, color)];
    }

    /** `cv.rectangle(self, ...)` */
    method Rectangle(pt1: Point, pt2: Point, color: Color, thickness: int)
      modifies this
      ensures pixels == old(pixels)
      ensures strokes == old(strokes) + [DrawCommand.Rectangle(pt1, pt2, color, thickness)]
    {
      strokes := strokes + [DrawCommand.Rectangle(pt1, pt2, color, thickness)];
    }

    /** `cv.circle(self, ...)` */
    method Circle(center: Point, radius: int, color: Color, thickness: int)
      modifies this
      ensures pixels == old(pixels)
      ensures strokes == old(strokes) + [DrawCommand.Circle(center, radius, color, thickness)]
    {
      strokes := strokes + [DrawCommand.Circle(center, radius, color, thickness)];
    }
  }

  /** The body of the loop over palms that draws: score label, box, then the inner loop over landmarks. */
  method DrawPalm(out: Frame, palm: Detection)
    modifies out
    ensures out.pixels == old(out.pixels)
    ensures out.strokes == old(out.strokes) + PalmCommands(palm)
  {
    var palmBox := CastBox(palm.box);
    // put score
    out.PutText(ScoreLabel(palm.score), Point(palmBox.x1, Int32.Wrap(palmBox.y1 + 12)), HersheyDuplex, 0.5, Green);
    // draw box
    out.Rectangle(Point(palmBox.x1, palmBox.y1), Point(palmBox.x2, palmBox.y2), Green, 2);
    // draw points
    var palmLandmarks := CastLandmarks(palm.landmarks);
    var i := 0;
    while i < |palmLandmarks|
      invariant i <= |palmLandmarks|
      invariant out.pixels == old(out.pixels)
      invariant out.strokes == old(out.strokes) + [ScoreText(palmBox, palm.score), BoxOutline(palmBox)] + Markers(palmLandmarks[..i])
    {
      assert palmLandmarks[..i + 1][..i] == palmLandmarks[..i];
      out.Circle(palmLandmarks[i], 2, Red, 2);
      i := i + 1;
    }
    assert palmLandmarks[..i] == palmLandmarks;
  }

  /** The lines the loop over palms prints for the palm numbered `number`. */
  method PrintPalm(number: nat, palm: Detection) returns (lines: seq<ReportLine>)
    ensures lines == PalmReport(number, palm)
  {
    var palmBox := CastBox(palm.box);
    var palmLandmarks := CastLandmarks(palm.landmarks);
    lines := [PalmHeader(number), ScoreLine(palm.score), BoxLine(palmBox), LandmarksHeader];
    var j := 0;
    while j < |palmLandmarks|
      invariant j <= |palmLandmarks|
      invariant lines == [PalmHeader(number), ScoreLine(palm.score), BoxLine(palmBox), LandmarksHeader]
                         + LandmarkLines(palmLandmarks[..j])
    {
      assert palmLandmarks[..j + 1][..j] == palmLandmarks[..j];
      lines := lines + [LandmarkLine(palmLandmarks[j])];
      j := j + 1;
    }
    assert palmLandmarks[..j] == palmLandmarks;
  }

  /** One turn of the loop over palms, after the row was split: draw, then print if asked to. */
  method AnnotatePalm(out: Frame, palm: Detection, number: nat, printResults: bool) returns (lines: seq<ReportLine>)
    modifies out
    ensures out.pixels == old(out.pixels)
    ensures out.strokes == old(out.strokes) + PalmCommands(palm)
    ensures lines == if printResults then PalmReport(number, palm) else []
  {
    DrawPalm(out, palm);
    lines := [];
    if printResults {
      lines := PrintPalm(number, palm);
    }
  }

  /** Before the loop over palms nothing has been drawn or printed. */
  lemma NothingDrawnYet()
    ensures PalmsCommands([]) == [] && Report([]) == []
  {
    assert PalmBlocks([]) == [] && ReportBlocks([]) == [];
  }

  /** What one more palm adds to the strokes and to the printed lines. */
  lemma Advance(strokes: seq<DrawCommand>, done: seq<Detection>, palm: Detection)
    ensures (strokes + PalmsCommands(done)) + PalmCommands(palm) == strokes + PalmsCommands(done + [palm])
    ensures Report(done) + PalmReport(|done| + 1, palm) == Report(done + [palm])
  {
    PalmsCommandsSnoc(done, palm);
    ReportSnoc(done, palm);
  }

  /**
   * The loop `for idx, palm in enumerate(results)`: splits each row, draws
   * the palm on `out` and collects what it prints, until a row raises.
   */
  method AnnotatePalms(out: Frame, results: seq<seq<real>>, printResults: bool)
    returns (failure: Option<RowFailure>, printed: seq<ReportLine>)
    modifies out
    ensures failure == SplitRows(results).failure
    ensures out.pixels == old(out.pixels)
    ensures failure.None? ==> out.strokes == old(out.strokes) + PalmsCommands(SplitRows(results).detections)
    ensures printed == if printResults then Report(SplitRows(results).detections) else []
  {
    printed := [];
    ghost var start := out.strokes;
    ghost var done: seq<Detection> := [];
    NothingDrawnYet();
    var idx := 0;
    while idx < |results|
      invariant idx <= |results| && |done| == idx
      invariant SplitRows(results[..idx]) == Split(done, None)
      invariant out.pixels == old(out.pixels)
      invariant out.strokes == start + PalmsCommands(done)
      invariant printResults ==> printed == Report(done)
      invariant !printResults ==> printed == []
    {
      SplitRowsStep(results, idx);
      var split := SplitRow(results[idx]);
      if split.Err? {
        SplitRowsStopsAtFailure(results, idx + 1);
        return Some(RowFailure(idx, split.error)), printed;
      }
      var palm := split.value;
      var lines := AnnotatePalm(out, palm, idx + 1, printResults);
      printed := printed + lines;
      Advance(start, done, palm);
      done := done + [palm];
      idx := idx + 1;
    }
    assert results[..idx] == results;
    failure := None;
  }

  /**
   * Annotates a copy of `image` with the detections in `results` and returns
   * it, together with the report lines printed on the way. A row that cannot
   * be split raises (`Err`), after the lines of the rows before it were
   * printed. `image` itself is left as it was: the method may modify nothing
   * but the copy it allocates.
   */
  method Visualize(image: Frame, results: seq<seq<real>>, printResults: bool := false, fps: Option<real> := None)
    returns (output: Result<Frame, RowFailure>, printed: seq<ReportLine>)
    ensures unchanged(image)
    ensures output.Ok? <==> SplitRows(results).failure.None?
    ensures output.Err? ==> output.error == SplitRows(results).failure.value
    ensures output.Ok? ==> fresh(output.value) && output.value.pixels == image.pixels &&
                           output.value.strokes == image.strokes + Commands(fps, SplitRows(results).detections)
    ensures printed == if printResults then Report(SplitRows(results).detections) else []
  {
    var out := image.Copy();
    if fps.Some? {
      out.PutText(FpsLabel(fps.value), Point(0, 15), HersheySimplex, 0.5, Red);
    }
    var failure;
    failure, printed := AnnotatePalms(out, results, printResults);
    if failure.Some? {
      return Err(failure.value), printed;
    }
    output := Ok(out);
  }
}
