/**
 * The OpenCV calls `visualize` makes, as abstract commands, and the command
 * list it produces for a frame: an optional FPS label, then per palm a score
 * label, a box outline and one marker per landmark.
 */
module Drawing {
  import opened Results
  import Int32
  import opened Detections
  import opened Blocks

  /** An integer pixel position as OpenCV receives it. */
  datatype Point = Point(x: int, y: int)

  /** A colour in OpenCV's (blue, green, red) order. */
  datatype Color = Color(b: int, g: int, r: int)

  datatype Font = HersheySimplex | HersheyDuplex

  /** The text of a label: `'FPS: {:.2f}'.format(fps)` or `'{:.4f}'.format(score)`. */
  datatype Label = FpsLabel(fps: real) | ScoreLabel(score: real)

  /** `cv.putText`, `cv.rectangle` and `cv.circle` with the arguments the demo passes. */
  datatype DrawCommand =
    | PutText(text: Label, org: Point, font: Font, scale: real, color: Color)
    | Rectangle(pt1: Point, pt2: Point, color: Color, thickness: int)
    | Circle(center: Point, radius: int, color: Color, thickness: int)

  /** A box after `astype(np.int32)`. */
  datatype PixelBox = PixelBox(x1: int, y1: int, x2: int, y2: int)

  const Red: Color := Color(0, 0, 255)
  const Green: Color := Color(0, 255, 0)
  const FpsOrigin: Point := Point(0, 15)
  const TextScale: real := 0.5
  const ScoreBaseline: int := 12
  const BoxThickness: int := 2
  const MarkerRadius: int := 2
  const MarkerThickness: int := 2

  /** Number of commands drawn for one palm with seven landmarks. */
  const PalmCommandCount: nat := 2 + LandmarkCount

  /** `palm_box.astype(np.int32)` */
  function CastBox(b: Box): (r: PixelBox)
    ensures Int32.InRange(r.x1) && Int32.InRange(r.y1) && Int32.InRange(r.x2) && Int32.InRange(r.y2)
  {
    PixelBox(Int32.CastInt32(b.x1), Int32.CastInt32(b.y1), Int32.CastInt32(b.x2), Int32.CastInt32(b.y2))
  }

  /** One row of `palm_landmarks.astype(np.int32)` */
  function CastLandmark(l: Landmark): Point {
    Point(Int32.CastInt32(l.x), Int32.CastInt32(l.y))
  }

  /** The 7x2 landmark array after `astype(np.int32)`, row by row. */
  function CastLandmarks(ls: seq<Landmark>): (r: seq<Point>)
    ensures |r| == |ls|
  {
    seq(|ls|, i requires 0 <= i < |ls| => CastLandmark(ls[i]))
  }

  function FpsText(fps: real): DrawCommand {
    PutText(FpsLabel(fps), FpsOrigin, HersheySimplex, TextScale, Red)
  }

  /** The score label, anchored 12 pixels below the box's top-left corner (int32 addition). */
  function ScoreText(b: PixelBox, score: real): DrawCommand {
    PutText(ScoreLabel(score), Point(b.x1, Int32.Wrap(b.y1 + ScoreBaseline)), HersheyDuplex, TextScale, Green)
  }

  function BoxOutline(b: PixelBox): DrawCommand {
    Rectangle(Point(b.x1, b.y1), Point(b.x2, b.y2), Green, BoxThickness)
  }

  function Marker(p: Point): DrawCommand {
    Circle(p, MarkerRadius, Red, MarkerThickness)
  }

  /** The circles of the inner loop, one per landmark, in landmark order. */
  function Markers(ps: seq<Point>): (r: seq<DrawCommand>)
    ensures |r| == |ps|
    ensures forall i :: 0 <= i < |ps| ==> r[i] == Marker(ps[i])
  {
    if ps == [] then [] else Markers(ps[..|ps| - 1]) + [Marker(ps[|ps| - 1])]
  }

  /** The commands one palm contributes. */
  function PalmCommands(d: Detection): (r: seq<DrawCommand>)
    ensures |r| == 2 + |d.landmarks|
  {
    var b := CastBox(d.box);
    [ScoreText(b, d.score), BoxOutline(b)] + Markers(CastLandmarks(d.landmarks))
  }

  /** One block of commands per palm, in input order. */
  function PalmBlocks(ds: seq<Detection>): (r: seq<seq<DrawCommand>>)
    ensures |r| == |ds|
  {
    seq(|ds|, i requires 0 <= i < |ds| => PalmCommands(ds[i]))
  }

  /** The commands of all palms, in input order. */
  function PalmsCommands(ds: seq<Detection>): seq<DrawCommand> {
    Concat(PalmBlocks(ds))
  }

  function FpsCommands(fps: Option<real>): seq<DrawCommand> {
    if fps.Some? then [FpsText(fps.value)] else []
  }

  /** Every command `visualize` draws on its output, in drawing order. */
  function Commands(fps: Option<real>, ds: seq<Detection>): seq<DrawCommand> {
    FpsCommands(fps) + PalmsCommands(ds)
  }

  /** Drawing one more palm appends its commands to the list. */
  lemma PalmsCommandsSnoc(ds: seq<Detection>, d: Detection)
    ensures PalmsCommands(ds + [d]) == PalmsCommands(ds) + PalmCommands(d)
  {
    var bs, bs' := PalmBlocks(ds), PalmBlocks(ds + [d]);
    forall i | 0 <= i < |bs'| ensures bs'[i] == (bs + [PalmCommands(d)])[i] {
      if i < |ds| {
        assert (ds + [d])[i] == ds[i];
      }
    }
    assert bs' == bs + [PalmCommands(d)];
    ConcatSnoc(PalmBlocks(ds), PalmCommands(d));
  }

  lemma PalmCommandsLength(d: Detection)
    ensures |PalmCommands(d)| == 2 + |d.landmarks|
  {
  }

  lemma PalmBlocksUniform(ds: seq<Detection>)
    requires AllWellShaped(ds)
    ensures forall i :: 0 <= i < |ds| ==> |PalmBlocks(ds)[i]| == PalmCommandCount
  {
    forall i | 0 <= i < |ds| ensures |PalmBlocks(ds)[i]| == PalmCommandCount {
      PalmCommandsLength(ds[i]);
    }
  }

  /** Nine commands per palm. */
  lemma PalmsCommandsLength(ds: seq<Detection>)
    requires AllWellShaped(ds)
    ensures |PalmsCommands(ds)| == PalmCommandCount * |ds|
  {
    PalmBlocksUniform(ds);
    ConcatUniformLength(PalmBlocks(ds), PalmCommandCount);
  }

  /** Palm k's commands occupy positions 9k to 9k + 8 of the palms' list. */
  lemma PalmsCommandsAt(ds: seq<Detection>, k: nat, j: nat)
    requires AllWellShaped(ds)
    requires k < |ds| && j < PalmCommandCount
    ensures |PalmsCommands(ds)| == PalmCommandCount * |ds|
    ensures PalmsCommands(ds)[PalmCommandCount * k + j] == PalmCommands(ds[k])[j]
  {
    var bs := PalmBlocks(ds);
    PalmBlocksUniform(ds);
    PalmsCommandsLength(ds);
    ConcatAt(bs, k, j);
    assert forall i :: 0 <= i < k ==> |bs[..k][i]| == PalmCommandCount;
    ConcatUniformLength(bs[..k], PalmCommandCount);
  }

  /** The total count: one FPS label if and only if fps is given, and nine commands per palm. */
  lemma CommandCount(fps: Option<real>, ds: seq<Detection>)
    requires AllWellShaped(ds)
    ensures |Commands(fps, ds)| == (if fps.Some? then 1 else 0) + 9 * |ds|
    ensures fps.None? && ds == [] ==> Commands(fps, ds) == []
  {
    PalmsCommandsLength(ds);
  }

  /** No palm command is an FPS label. */
  lemma PalmsCommandsHaveNoFps(ds: seq<Detection>)
    ensures forall c :: c in PalmsCommands(ds) ==> !(c.PutText? && c.text.FpsLabel?)
  {
    forall c | c in PalmsCommands(ds) ensures !(c.PutText? && c.text.FpsLabel?) {
      ConcatMember(PalmBlocks(ds), c);
      var i :| 0 <= i < |ds| && c in PalmBlocks(ds)[i];
      var d := ds[i];
      var ms := Markers(CastLandmarks(d.landmarks));
      assert forall m :: m in ms ==> m.Circle?;
      assert c in PalmCommands(d);
    }
  }

  /**
   * An FPS label is drawn if and only if fps is given, and then it is the
   * first command, at (0, 15).
   */
  lemma FpsLabelIff(fps: Option<real>, ds: seq<Detection>)
    ensures (exists c :: c in Commands(fps, ds) && c.PutText? && c.text.FpsLabel?) <==> fps.Some?
    ensures fps.Some? ==> Commands(fps, ds)[0] == PutText(FpsLabel(fps.value), Point(0, 15), HersheySimplex, 0.5, Red)
  {
    PalmsCommandsHaveNoFps(ds);
    if fps.Some? {
      assert Commands(fps, ds)[0] == FpsText(fps.value);
    }
  }

  /**
   * Where each palm's commands stand in the full list: for palm k, the score
   * label at (x1, y1 + 12), then the rectangle from (x1, y1) to (x2, y2), then
   * a radius-2 circle at each truncated landmark, all after the FPS label.
   */
  lemma CommandLayout(fps: Option<real>, ds: seq<Detection>, k: nat)
    requires AllWellShaped(ds)
    requires k < |ds|
    ensures var base := (if fps.Some? then 1 else 0) + 9 * k;
            var b := CastBox(ds[k].box);
            var cs := Commands(fps, ds);
            base + 9 <= |cs| &&
            cs[base] == PutText(ScoreLabel(ds[k].score), Point(b.x1, Int32.Wrap(b.y1 + 12)), HersheyDuplex, 0.5, Green) &&
            cs[base + 1] == Rectangle(Point(b.x1, b.y1), Point(b.x2, b.y2), Green, 2) &&
            forall i :: 0 <= i < 7 ==> cs[base + 2 + i] == Circle(CastLandmark(ds[k].landmarks[i]), 2, Red, 2)
  {
    var off := |FpsCommands(fps)|;
    var cs := Commands(fps, ds);
    PalmsCommandsAt(ds, k, 0);
    PalmsCommandsAt(ds, k, 1);
    forall i | 0 <= i < 7
      ensures cs[off + 9 * k + 2 + i] == Circle(CastLandmark(ds[k].landmarks[i]), 2, Red, 2)
    {
      PalmsCommandsAt(ds, k, 2 + i);
    }
  }
}
