/** The desktop test script (codigo_python/teste_final.py): classify with
    the range test first, sort the leaves by area, and measure the largest
    leaf against the first square, whose real area is 1 cm². Image
    reading and the printed report are not modelled. */
module FinalScript {
  import opened Numeric
  import opened Geometry
  import opened Classifier
  import Sorting

  const RealAreaSquareCm := 1.0

  datatype Measurement = Measurement(width: real, length: real, area: real, perimeter: real)

  datatype ScriptOutcome =
    | ImageNotFound   // cv2.imread returned None
    | Incomplete      // no square or no leaf
    | Measured(linear: real, areal: real, result: Measurement)

  /** The last block of the script, on the square list and the leaves
      already sorted by area. */
  function Measure(squares: seq<Contour>, sortedLeaves: seq<Contour>, sqrt: real -> real): (o: ScriptOutcome)
    requires 0 < |squares| ==> 0.0 < squares[0].perimeter && 0.0 < squares[0].area
    ensures o != ImageNotFound
    ensures o == Incomplete <==> |squares| == 0 || |sortedLeaves| == 0
  {
    if |squares| == 0 || |sortedLeaves| == 0 then Incomplete
    else
      var reference := squares[0];
      var leaf := sortedLeaves[0];
      var linear := sqrt(RealAreaSquareCm) / (reference.perimeter / 4.0);
      var areal := RealAreaSquareCm / reference.area;
      var w, l := leaf.pcaWidth as real, leaf.pcaHeight as real;
      Measured(linear, areal,
        Measurement(Min(w, l) * linear, Max(w, l) * linear, leaf.area * areal, leaf.perimeter * linear))
  }

  /** The script's outcome for the traced contours of its image. */
  function Outcome(contours: seq<Contour>, sqrt: real -> real): (o: ScriptOutcome)
    requires forall i :: 0 <= i < |contours| ==> Traced(contours[i])
    ensures o != ImageNotFound
    ensures o == Incomplete <==> |Squares(contours, ScriptRule, sqrt)| == 0 || |Leaves(contours, ScriptRule, sqrt)| == 0
  {
    var squares := Squares(contours, ScriptRule, sqrt);
    SquaresCalibrate(contours, sqrt);
    Measure(squares, Sorting.SortDesc(Leaves(contours, ScriptRule, sqrt), AreaKey), sqrt)
  }

  /** Every square found is traced and in range, so the first one has a
      positive area and perimeter. */
  lemma SquaresCalibrate(contours: seq<Contour>, sqrt: real -> real)
    requires forall i :: 0 <= i < |contours| ==> Traced(contours[i])
    ensures var squares := Squares(contours, ScriptRule, sqrt);
      0 < |squares| ==> 0.0 < squares[0].perimeter && 0.0 < squares[0].area
  {
    var squares := Squares(contours, ScriptRule, sqrt);
    if 0 < |squares| {
      Partition(contours, ScriptRule, sqrt);
      assert squares[0] in squares;
      var i :| 0 <= i < |contours| && contours[i] == squares[0];
      DroppedIffOutOfRange(ScriptRule, squares[0], sqrt);
    }
  }

  /** The script body. `imageFound` stands for cv2.imread returning an
      image. */
  method Run(imageFound: bool, contours: seq<Contour>, sqrt: real -> real) returns (o: ScriptOutcome)
    requires forall i :: 0 <= i < |contours| ==> Traced(contours[i])
    ensures !imageFound ==> o == ImageNotFound
    ensures imageFound ==> o == Outcome(contours, sqrt)
  {
    if !imageFound {
      return ImageNotFound;
    }
    var squares, leaves := FindObjects(contours, ScriptRule, sqrt);
    leaves := Sorting.SortDesc(leaves, AreaKey);
    SquaresCalibrate(contours, sqrt);
    o := Measure(squares, leaves, sqrt);
  }

  /** The measurement block on a leaf list sorted by area: calibrated so
      that the reference square measures 1 cm² with sides of 1 cm, it
      measures a leaf of largest area, with width at most length. */
  lemma MeasureFacts(squares: seq<Contour>, leaves: seq<Contour>, sqrt: real -> real)
    requires IsSqrt(sqrt)
    requires 0 < |squares| ==> 0.0 < squares[0].perimeter && 0.0 < squares[0].area
    requires forall c :: c in leaves ==> Traced(c)
    ensures Calibrated(Measure(squares, Sorting.SortDesc(leaves, AreaKey), sqrt), squares)
    ensures MeasuresLargest(Measure(squares, Sorting.SortDesc(leaves, AreaKey), sqrt), leaves)
  {
    if 0 < |squares| && 0 < |leaves| {
      LargestFirst(leaves);
      assert Traced(Sorting.SortDesc(leaves, AreaKey)[0]);
      LargestMeasured(squares, leaves, sqrt);
    } else {
      assert Measure(squares, Sorting.SortDesc(leaves, AreaKey), sqrt) == Incomplete;
    }
  }

  /** The measuring case of MeasureFacts. */
  lemma LargestMeasured(squares: seq<Contour>, leaves: seq<Contour>, sqrt: real -> real)
    requires IsSqrt(sqrt)
    requires 0 < |squares| && 0.0 < squares[0].perimeter && 0.0 < squares[0].area
    requires 0 < |leaves|
    requires Traced(Sorting.SortDesc(leaves, AreaKey)[0])
    requires IsLargest(Sorting.SortDesc(leaves, AreaKey)[0], leaves)
    ensures Calibrated(Measure(squares, Sorting.SortDesc(leaves, AreaKey), sqrt), squares)
    ensures MeasuresLargest(Measure(squares, Sorting.SortDesc(leaves, AreaKey), sqrt), leaves)
  {
    MeasuredLeaf(squares, Sorting.SortDesc(leaves, AreaKey), sqrt);
  }

  /** A measuring outcome gives the reference square a perimeter of 4 cm
      and an area of 1 cm². */
  ghost predicate Calibrated(o: ScriptOutcome, squares: seq<Contour>) {
    o.Measured? ==>
      && 0 < |squares|
      && squares[0].perimeter * o.linear == 4.0
      && squares[0].area * o.areal == 1.0
  }

  /** The measurement of the first sorted leaf, with its facts. */
  lemma MeasuredLeaf(squares: seq<Contour>, sorted: seq<Contour>, sqrt: real -> real)
    requires IsSqrt(sqrt)
    requires 0 < |squares| && 0.0 < squares[0].perimeter && 0.0 < squares[0].area
    requires 0 < |sorted| && Traced(sorted[0])
    ensures Calibrated(Measure(squares, sorted, sqrt), squares)
    ensures MeasuresLeaf(Measure(squares, sorted, sqrt), sorted[0])
  {
    var reference, leaf := squares[0], sorted[0];
    var linear := sqrt(RealAreaSquareCm) / (reference.perimeter / 4.0);
    UnitSquareScales(reference.perimeter, reference.area, sqrt);
    SidesScaled(leaf.pcaWidth as real, leaf.pcaHeight as real, linear);
  }

  /** With the square's real area 1 cm², the square measures a perimeter
      of 4 cm and an area of 1 cm², and the linear factor is
      non-negative. */
  lemma UnitSquareScales(perimeter: real, area: real, sqrt: real -> real)
    requires IsSqrt(sqrt) && 0.0 < perimeter && 0.0 < area
    ensures perimeter * (sqrt(RealAreaSquareCm) / (perimeter / 4.0)) == 4.0
    ensures area * (RealAreaSquareCm / area) == 1.0
    ensures 0.0 <= sqrt(RealAreaSquareCm) / (perimeter / 4.0)
  {
    SqrtUnique(sqrt, 1.0, 1.0);
    var q := perimeter / 4.0;
    assert perimeter == 4.0 * q;
    assert 1.0 / q * q == 1.0;
  }

  /** Scaling by a non-negative factor keeps the shorter side shorter. */
  lemma SidesScaled(w: real, l: real, linear: real)
    requires 0.0 <= w && 0.0 <= l && 0.0 <= linear
    ensures 0.0 <= Min(w, l) * linear <= Max(w, l) * linear
  {
    ScaleMonotone(0.0, Min(w, l), linear);
    ScaleMonotone(Min(w, l), Max(w, l), linear);
  }

  /** What a measuring outcome promises about the leaves it was given:
      width at most length, and the leaf measured is one of largest area. */
  ghost predicate MeasuresLargest(o: ScriptOutcome, leaves: seq<Contour>) {
    o.Measured? ==>
      && 0 < |leaves|
      && IsLargest(Sorting.SortDesc(leaves, AreaKey)[0], leaves)
      && MeasuresLeaf(o, Sorting.SortDesc(leaves, AreaKey)[0])
  }

  /** A measuring outcome for `leaf`: its area scaled by the area factor,
      its width at most its length. */
  ghost predicate MeasuresLeaf(o: ScriptOutcome, leaf: Contour) {
    && o.Measured?
    && 0.0 <= o.result.width <= o.result.length
    && o.result.area == leaf.area * o.areal
  }

  /** `leaf` is one of `leaves`, and none of them has a larger area. */
  ghost predicate IsLargest(leaf: Contour, leaves: seq<Contour>) {
    && leaf in leaves
    && forall other :: other in leaves ==> other.area <= leaf.area
  }

  /** When the script measures, the leaf it measures is one of largest
      area, and its width is at most its length. */
  lemma OutcomeFacts(contours: seq<Contour>, sqrt: real -> real)
    requires IsSqrt(sqrt)
    requires forall i :: 0 <= i < |contours| ==> Traced(contours[i])
    ensures MeasuresLargest(Outcome(contours, sqrt), Leaves(contours, ScriptRule, sqrt))
  {
    OutcomeIsMeasure(contours, sqrt);
    LeavesTraced(contours, sqrt);
    MeasureFacts(Squares(contours, ScriptRule, sqrt), Leaves(contours, ScriptRule, sqrt), sqrt);
  }

  lemma OutcomeIsMeasure(contours: seq<Contour>, sqrt: real -> real)
    requires forall i :: 0 <= i < |contours| ==> Traced(contours[i])
    ensures var squares := Squares(contours, ScriptRule, sqrt);
      0 < |squares| ==> 0.0 < squares[0].perimeter && 0.0 < squares[0].area
    ensures Outcome(contours, sqrt)
         == Measure(Squares(contours, ScriptRule, sqrt),
                    Sorting.SortDesc(Leaves(contours, ScriptRule, sqrt), AreaKey), sqrt)
  {
    SquaresCalibrate(contours, sqrt);
  }

  /** After `leaves.sort(key=contourArea, reverse=True)` the first leaf
      is one of largest area. */
  lemma LargestFirst(leaves: seq<Contour>)
    requires 0 < |leaves|
    ensures IsLargest(Sorting.SortDesc(leaves, AreaKey)[0], leaves)
  {
    Sorting.SortDescHeadIsMax(leaves, AreaKey);
  }

  lemma LeavesTraced(contours: seq<Contour>, sqrt: real -> real)
    requires forall i :: 0 <= i < |contours| ==> Traced(contours[i])
    ensures forall c :: c in Leaves(contours, ScriptRule, sqrt) ==> Traced(c)
  {
    Partition(contours, ScriptRule, sqrt);
    forall c | c in Leaves(contours, ScriptRule, sqrt)
      ensures Traced(c)
    {
      var i :| 0 <= i < |contours| && contours[i] == c;
    }
  }
}
