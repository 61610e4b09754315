/**
 * The text report `visualize` prints when `print_results` is set, one
 * record per printed line.
 */
module Reporting {
  import opened Detections
  import opened Drawing
  import opened Blocks

  datatype ReportLine =
    | PalmHeader(index: nat)      // '-----------palm {}-----------' with the 1-based palm number
    | ScoreLine(score: real)      // 'score: {:.2f}'
    | BoxLine(box: PixelBox)      // 'palm box: {}' of the int32 box
    | LandmarksHeader             // 'palm landmarks: '
    | LandmarkLine(point: Point)  // '\t{}' of one int32 landmark

  /** Number of lines printed for one palm with seven landmarks. */
  const PalmLineCount: nat := 4 + LandmarkCount

  /** The tab-indented lines of the inner print loop, one per landmark. */
  function LandmarkLines(ps: seq<Point>): (r: seq<ReportLine>)
    ensures |r| == |ps|
    ensures forall i :: 0 <= i < |ps| ==> r[i] == LandmarkLine(ps[i])
  {
    if ps == [] then [] else LandmarkLines(ps[..|ps| - 1]) + [LandmarkLine(ps[|ps| - 1])]
  }

  /** The block printed for the palm numbered `number`. */
  function PalmReport(number: nat, d: Detection): (r: seq<ReportLine>)
    ensures |r| == 4 + |d.landmarks|
    ensures r[0] == PalmHeader(number)
  {
    [PalmHeader(number), ScoreLine(d.score), BoxLine(CastBox(d.box)), LandmarksHeader]
      + LandmarkLines(CastLandmarks(d.landmarks))
  }

  /** One block per palm, numbered from 1 in input order. */
  function ReportBlocks(ds: seq<Detection>): (r: seq<seq<ReportLine>>)
    ensures |r| == |ds|
  {
    seq(|ds|, i requires 0 <= i < |ds| => PalmReport(i + 1, ds[i]))
  }

  /** The whole report. */
  function Report(ds: seq<Detection>): seq<ReportLine> {
    Concat(ReportBlocks(ds))
  }

  /** Printing one more palm appends its block, numbered one past the palms before it. */
  lemma ReportSnoc(ds: seq<Detection>, d: Detection)
    ensures Report(ds + [d]) == Report(ds) + PalmReport(|ds| + 1, d)
  {
    var bs, bs' := ReportBlocks(ds), ReportBlocks(ds + [d]);
    forall i | 0 <= i < |bs'| ensures bs'[i] == (bs + [PalmReport(|ds| + 1, d)])[i] {
      if i < |ds| {
        assert (ds + [d])[i] == ds[i];
      }
    }
    assert bs' == bs + [PalmReport(|ds| + 1, d)];
    ConcatSnoc(bs, PalmReport(|ds| + 1, d));
  }

  lemma PalmReportLength(number: nat, d: Detection)
    ensures |PalmReport(number, d)| == 4 + |d.landmarks|
  {
  }

  lemma ReportBlocksUniform(ds: seq<Detection>)
    requires AllWellShaped(ds)
    ensures forall i :: 0 <= i < |ds| ==> |ReportBlocks(ds)[i]| == PalmLineCount
  {
    forall i | 0 <= i < |ds| ensures |ReportBlocks(ds)[i]| == PalmLineCount {
      PalmReportLength(i + 1, ds[i]);
    }
  }

  /** Eleven lines per palm. */
  lemma ReportLength(ds: seq<Detection>)
    requires AllWellShaped(ds)
    ensures |Report(ds)| == 11 * |ds|
  {
    ReportBlocksUniform(ds);
    ConcatUniformLength(ReportBlocks(ds), PalmLineCount);
  }

  /** Line 11k + j of the report is line j of palm k's block, which is numbered k + 1. */
  lemma ReportAt(ds: seq<Detection>, k: nat, j: nat)
    requires AllWellShaped(ds)
    requires k < |ds| && j < PalmLineCount
    ensures |Report(ds)| == PalmLineCount * |ds|
    ensures Report(ds)[PalmLineCount * k + j] == PalmReport(k + 1, ds[k])[j]
  {
    var bs := ReportBlocks(ds);
    ReportBlocksUniform(ds);
    ReportLength(ds);
    ConcatAt(bs, k, j);
    assert forall i :: 0 <= i < k ==> |bs[..k][i]| == PalmLineCount;
    ConcatUniformLength(bs[..k], PalmLineCount);
  }

  /**
   * Palm k's block, as printed: its 1-based header, its score, its integer box,
   * the landmarks heading, and one line per integer landmark.
   */
  lemma ReportLayout(ds: seq<Detection>, k: nat)
    requires AllWellShaped(ds)
    requires k < |ds|
    ensures var r := Report(ds);
            11 * k + 11 <= |r| &&
            r[11 * k] == PalmHeader(k + 1) &&
            r[11 * k + 1] == ScoreLine(ds[k].score) &&
            r[11 * k + 2] == BoxLine(CastBox(ds[k].box)) &&
            r[11 * k + 3] == LandmarksHeader &&
            forall i :: 0 <= i < 7 ==> r[11 * k + 4 + i] == LandmarkLine(CastLandmark(ds[k].landmarks[i]))
  {
    ReportAt(ds, k, 0);
    ReportAt(ds, k, 1);
    ReportAt(ds, k, 2);
    ReportAt(ds, k, 3);
    forall i | 0 <= i < 7
      ensures Report(ds)[11 * k + 4 + i] == LandmarkLine(CastLandmark(ds[k].landmarks[i]))
    {
      ReportAt(ds, k, 4 + i);
    }
  }
}
