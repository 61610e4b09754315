/**
 * The detector's output rows and how `visualize` takes one apart by
 * position: `palm[0:4]` is the box, `palm[4:-1].reshape(7, 2)` the
 * landmarks and `palm[-1]` the score.
 */
module Detections {
  import opened Results

  /** What the slicing of one row can raise. */
  datatype RowError =
    | IndexError    // `palm[-1]` of an empty row
    | ReshapeError  // `reshape(7, 2)` of a slice that does not hold 14 values

  /** The row index at which splitting stopped, and why. */
  datatype RowFailure = RowFailure(index: nat, error: RowError)

  /** Box corners (x1, y1) and (x2, y2), as the detector produced them. */
  datatype Box = Box(x1: real, y1: real, x2: real, y2: real)

  /** One landmark: one row of the 7x2 reshaped array. */
  datatype Landmark = Landmark(x: real, y: real)

  datatype Detection = Detection(box: Box, landmarks: seq<Landmark>, score: real)

  const RowLength: nat := 19
  const LandmarkCount: nat := 7

  predicate WellShaped(d: Detection) {
    |d.landmarks| == LandmarkCount
  }

  predicate AllWellShaped(ds: seq<Detection>) {
    forall k :: 0 <= k < |ds| ==> WellShaped(ds[k])
  }

  /** The rows of an n x 2 reshape of a flat sequence, in row-major order. */
  function Pairs(s: seq<real>): (r: seq<Landmark>)
    requires |s| % 2 == 0
    ensures |r| == |s| / 2
    ensures forall i :: 0 <= i < |r| ==> r[i] == Landmark(s[2 * i], s[2 * i + 1])
    decreases |s|
  {
    if s == [] then []
    else
      var rest := Pairs(s[2..]);
      assert forall i :: 1 <= i < |s| / 2 ==> rest[i - 1] == Landmark(s[2 * i], s[2 * i + 1]);
      [Landmark(s[0], s[1])] + rest
  }

  /** The flat row-major values of a list of landmarks. */
  function Unpairs(ps: seq<Landmark>): (r: seq<real>)
    ensures |r| == 2 * |ps|
  {
    if ps == [] then [] else [ps[0].x, ps[0].y] + Unpairs(ps[1..])
  }

  /** `reshape(7, 2)`: fails unless the slice holds exactly 14 values. */
  function Reshape7x2(s: seq<real>): (r: Result<seq<Landmark>, RowError>)
    ensures r.Ok? <==> |s| == 2 * LandmarkCount
  {
    if |s| != 2 * LandmarkCount then Err(ReshapeError) else Ok(Pairs(s))
  }

  /** Splitting of one row in the order the code does it: score, box, landmarks. */
  function SplitRow(row: seq<real>): (r: Result<Detection, RowError>)
    ensures r == Err(IndexError) <==> |row| == 0
    ensures r == Err(ReshapeError) <==> |row| != 0 && |row| != RowLength
    ensures r.Ok? ==> WellShaped(r.value)
  {
    if |row| == 0 then Err(IndexError)
    else
      var last := |row| - 1;
      var score := row[last];
      // `palm[4:-1]` is empty when the row is too short to reach index 4
      var lo := if last < 4 then last else 4;
      match Reshape7x2(row[lo..last])
      case Err(e) => Err(e)
      case Ok(landmarks) => Ok(Detection(Box(row[0], row[1], row[2], row[3]), landmarks, score))
  }

  /**
   * A row of 19 values splits by position: values 0 to 3 are the box, values
   * 4 + 2i and 5 + 2i the i-th landmark, value 18 the score.
   */
  lemma SplitRowFields(row: seq<real>)
    requires |row| == RowLength
    ensures SplitRow(row).Ok?
    ensures var d := SplitRow(row).value;
            d.box == Box(row[0], row[1], row[2], row[3]) && d.score == row[18] &&
            |d.landmarks| == LandmarkCount &&
            forall i :: 0 <= i < LandmarkCount ==> d.landmarks[i] == Landmark(row[4 + 2 * i], row[5 + 2 * i])
  {
    var lm := SplitRow(row).value.landmarks;
    assert lm == Pairs(row[4..18]);
    forall i | 0 <= i < LandmarkCount ensures lm[i] == Landmark(row[4 + 2 * i], row[5 + 2 * i]) {
      assert row[4..18][2 * i] == row[4 + 2 * i] && row[4..18][2 * i + 1] == row[5 + 2 * i];
    }
  }

  /** The row a well-shaped detection came from. */
  function Flatten(d: Detection): (r: seq<real>)
    ensures |r| == 5 + 2 * |d.landmarks|
  {
    [d.box.x1, d.box.y1, d.box.x2, d.box.y2] + Unpairs(d.landmarks) + [d.score]
  }

  lemma {:induction false} PairsUnpairs(ps: seq<Landmark>)
    ensures Pairs(Unpairs(ps)) == ps
  {
    if ps != [] {
      PairsUnpairs(ps[1..]);
      assert Unpairs(ps)[2..] == Unpairs(ps[1..]);
    }
  }

  lemma {:induction false} UnpairsPairs(s: seq<real>)
    requires |s| % 2 == 0
    ensures Unpairs(Pairs(s)) == s
    decreases |s|
  {
    if s != [] {
      UnpairsPairs(s[2..]);
      assert Pairs(s)[1..] == Pairs(s[2..]);
    }
  }

  /** Flattening a well-shaped detection gives a row that splits back into it. */
  lemma SplitFlatten(d: Detection)
    requires WellShaped(d)
    ensures SplitRow(Flatten(d)) == Ok(d)
  {
    var row := Flatten(d);
    assert row[4..18] == Unpairs(d.landmarks);
    PairsUnpairs(d.landmarks);
    assert SplitRow(row).value.landmarks == Pairs(row[4..18]);
  }

  /** Every row that splits is the flattening of what it split into. */
  lemma FlattenSplit(row: seq<real>)
    requires SplitRow(row).Ok?
    ensures Flatten(SplitRow(row).value) == row
  {
    UnpairsPairs(row[4..18]);
    assert SplitRow(row).value.landmarks == Pairs(row[4..18]);
    assert row == row[..4] + row[4..18] + [row[18]];
  }

  /** The outcome of splitting every row: the detections of the rows before the first bad row, and that row. */
  datatype Split = Split(detections: seq<Detection>, failure: Option<RowFailure>)

  /**
   * The detections `visualize` takes in, in order, before the first row whose
   * slicing raises.
   */
  function SplitRows(rows: seq<seq<real>>): (r: Split)
    ensures r.failure.None? ==> |r.detections| == |rows|
    ensures r.failure.Some? ==> r.failure.value.index == |r.detections| < |rows|
    decreases |rows|
  {
    if rows == [] then Split([], None)
    else
      var n := |rows| - 1;
      var prior := SplitRows(rows[..n]);
      if prior.failure.Some? then prior
      else match SplitRow(rows[n])
        case Err(e) => Split(prior.detections, Some(RowFailure(n, e)))
        case Ok(d) => Split(prior.detections + [d], None)
  }

  /**
   * Splitting stops at the first row that raises: the detections are the
   * rows before it, split one by one, and the failure names that row and its
   * error; without a failure every row was split.
   */
  lemma {:induction false} SplitRowsSpec(rows: seq<seq<real>>)
    ensures var r := SplitRows(rows);
            (r.failure.None? ==> |r.detections| == |rows|) &&
            (r.failure.Some? ==>
               r.failure.value.index < |rows| && |r.detections| == r.failure.value.index &&
               SplitRow(rows[r.failure.value.index]) == Err(r.failure.value.error)) &&
            forall k :: 0 <= k < |r.detections| ==> SplitRow(rows[k]) == Ok(r.detections[k])
    decreases |rows|
  {
    if rows != [] {
      var n := |rows| - 1;
      SplitRowsSpec(rows[..n]);
      assert forall k :: 0 <= k < n ==> rows[..n][k] == rows[k];
    }
  }

  /** Every detection that splitting produces has seven landmarks. */
  lemma SplitRowsWellShaped(rows: seq<seq<real>>)
    ensures AllWellShaped(SplitRows(rows).detections)
  {
    var ds := SplitRows(rows).detections;
    SplitRowsSpec(rows);
    forall k | 0 <= k < |ds| ensures WellShaped(ds[k]) {
      assert SplitRow(rows[k]) == Ok(ds[k]);
    }
  }

  /** Once a prefix of the rows has failed, the rows after it are never looked at. */
  lemma {:induction false} SplitRowsStopsAtFailure(rows: seq<seq<real>>, n: nat)
    requires n <= |rows|
    requires SplitRows(rows[..n]).failure.Some?
    ensures SplitRows(rows) == SplitRows(rows[..n])
    decreases |rows| - n
  {
    if n < |rows| {
      assert rows[..n + 1][..n] == rows[..n];
      assert SplitRows(rows[..n + 1]) == SplitRows(rows[..n]);
      SplitRowsStopsAtFailure(rows, n + 1);
    } else {
      assert rows[..n] == rows;
    }
  }

  /** The detections of a prefix that has not failed grow by one per well-formed row. */
  lemma SplitRowsStep(rows: seq<seq<real>>, k: nat)
    requires k < |rows|
    requires SplitRows(rows[..k]).failure.None?
    ensures SplitRow(rows[k]).Ok? ==>
              SplitRows(rows[..k + 1]) == Split(SplitRows(rows[..k]).detections + [SplitRow(rows[k]).value], None)
    ensures SplitRow(rows[k]).Err? ==>
              SplitRows(rows[..k + 1]) == Split(SplitRows(rows[..k]).detections, Some(RowFailure(k, SplitRow(rows[k]).error)))
  {
    assert rows[..k + 1][..k] == rows[..k];
  }
}
