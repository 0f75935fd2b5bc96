/** The browser analysis service (`ImageAnalysisService.processImageDirect`):
    classify the traced contours, calibrate on the largest square, measure
    every leaf, aggregate, and draw the result. OpenCV's raster work is
    replaced by the traced contours it would return. */
module ImageAnalysis {
  import opened Wrappers
  import opened Numeric
  import opened Geometry
  import opened Classifier
  import opened Metrics
  import opened Drawing
  import Sorting
  import Seqs

  datatype AnalysisResult = AnalysisResult(
    leaves: seq<LeafMetric>,
    aggregatedMetrics: AggregatedMetrics,
    processedImage: Option<Picture>,
    numberOfLeaves: int,
    error: Option<string>)

  /** How the returned promise settles. */
  datatype Outcome = Resolve(result: AnalysisResult) | Reject(message: string)

  const NotLoadedError := "OpenCV.js is not loaded."
  const NoSquareError := "No reference object (square) found."

  /** The result resolved when no reference square is found. */
  const NoSquareResult := AnalysisResult([], NoMetrics, None, 0, Some(NoSquareError))

  /** `squares.sort((a, b) => area(b) - area(a))[0]`. */
  function Reference(squares: seq<Contour>): Contour
    requires 0 < |squares|
  {
    Sorting.SortDesc(squares, AreaKey)[0]
  }

  /** Real length per pixel: the real side sqrt(A) over the square's
      perimeter / 4. */
  function LinearScale(realAreaSquare: real, reference: Contour, sqrt: real -> real): real
    requires 0.0 < reference.perimeter
  {
    sqrt(realAreaSquare) / (reference.perimeter / 4.0)
  }

  /** Real area per square pixel. */
  function AreaScale(realAreaSquare: real, reference: Contour): real
    requires 0.0 < reference.area
  {
    realAreaSquare / reference.area
  }

  /** The metrics of leaf i (from 0): minAreaRect's shorter side is the
      width, the longer the length. */
  function MeasureLeaf(leaf: Contour, i: int, linear: real, areal: real, uid: nat -> string): LeafMetric
    requires 0 <= i
  {
    var widthCm := Min(leaf.rectWidth, leaf.rectHeight) * linear;
    var lengthCm := Max(leaf.rectWidth, leaf.rectHeight) * linear;
    LeafMetric(
      i + 1,
      leaf.area * areal,
      leaf.perimeter * linear,
      lengthCm,
      widthCm,
      if lengthCm > 0.0 then widthCm / lengthCm else 0.0,
      Some(CentroidCoord(leaf.m10, leaf.m00)),
      Some(CentroidCoord(leaf.m01, leaf.m00)),
      Some(Flatten(leaf.points)),
      Some(uid(i)))
  }

  function Measured(leaves: seq<Contour>, linear: real, areal: real, uid: nat -> string): (r: seq<LeafMetric>)
    ensures |r| == |leaves|
  {
    seq(|leaves|, i requires 0 <= i < |leaves| => MeasureLeaf(leaves[i], i, linear, areal, uid))
  }

  /** The leaf measurement loop. */
  method MeasureLeaves(leaves: seq<Contour>, linear: real, areal: real, uid: nat -> string)
      returns (leafMetrics: seq<LeafMetric>)
    ensures leafMetrics == Measured(leaves, linear, areal, uid)
  {
    leafMetrics := [];
    for i := 0 to |leaves|
      invariant leafMetrics == Measured(leaves[..i], linear, areal, uid)
    {
      MeasuredStep(leaves, i, linear, areal, uid);
      leafMetrics := leafMetrics + [MeasureLeaf(leaves[i], i, linear, areal, uid)];
    }
    assert leaves[..|leaves|] == leaves;
  }

  lemma MeasuredStep(leaves: seq<Contour>, i: nat, linear: real, areal: real, uid: nat -> string)
    requires i < |leaves|
    ensures Measured(leaves[..i + 1], linear, areal, uid)
         == Measured(leaves[..i], linear, areal, uid) + [MeasureLeaf(leaves[i], i, linear, areal, uid)]
  {
    var a := Measured(leaves[..i + 1], linear, areal, uid);
    var b := Measured(leaves[..i], linear, areal, uid) + [MeasureLeaf(leaves[i], i, linear, areal, uid)];
    assert |a| == |b|;
    forall k | 0 <= k < |a|
      ensures a[k] == b[k]
    {
    }
  }

  /** The settled result of a run whose OpenCV runtime is loaded. */
  function Analysis(image: string, contours: seq<Contour>, realAreaSquare: real,
                    sqrt: real -> real, uid: nat -> string): (r: AnalysisResult)
    requires IsSqrt(sqrt)
    requires forall i :: 0 <= i < |contours| ==> Traced(contours[i])
    ensures r.error.Some? <==> |Squares(contours, ServiceRule, sqrt)| == 0
    ensures r.error.Some? ==> r.leaves == [] && r.aggregatedMetrics == NoMetrics
                              && r.processedImage.None? && r.numberOfLeaves == 0
    ensures r.numberOfLeaves == |r.leaves|
    ensures r.error.None? ==> |r.leaves| == |Leaves(contours, ServiceRule, sqrt)|
    ensures forall i :: 0 <= i < |r.leaves| ==> r.leaves[i].id == i + 1
    ensures r.error.None? ==>
      var reference := Reference(Squares(contours, ServiceRule, sqrt));
      && 0.0 < reference.perimeter && 0.0 < reference.area
      && r.leaves == Measured(Leaves(contours, ServiceRule, sqrt),
                           LinearScale(realAreaSquare, reference, sqrt),
                           AreaScale(realAreaSquare, reference), uid)
    ensures r.error.None? ==> r.aggregatedMetrics == Aggregate(r.leaves, sqrt)
  {
    var squares := Squares(contours, ServiceRule, sqrt);
    var leaves := Leaves(contours, ServiceRule, sqrt);
    if |squares| == 0 then NoSquareResult
    else
      KeptAreTraced(contours, sqrt);
      var sorted := Sorting.SortDesc(squares, AreaKey);
      var reference := Reference(squares);
      var linear := LinearScale(realAreaSquare, reference, sqrt);
      var areal := AreaScale(realAreaSquare, reference);
      var leafMetrics := Measured(leaves, linear, areal, uid);
      AnalysisResult(
        leafMetrics,
        Aggregate(leafMetrics, sqrt),
        Some(Picture(image, SquareMarks(sorted) + LeafMarks(leaves))),
        |leafMetrics|,
        None)
  }

  /** Every square and leaf is a traced in-range contour, so the reference
      has positive area and perimeter and every leaf has a centroid. */
  lemma KeptAreTraced(contours: seq<Contour>, sqrt: real -> real)
    requires forall i :: 0 <= i < |contours| ==> Traced(contours[i])
    ensures forall c :: c in Squares(contours, ServiceRule, sqrt) ==> Traced(c) && InRange(c.area)
    ensures forall i :: 0 <= i < |Leaves(contours, ServiceRule, sqrt)| ==>
      var c := Leaves(contours, ServiceRule, sqrt)[i]; Traced(c) && InRange(c.area) && HasArea(c)
    ensures 0 < |Squares(contours, ServiceRule, sqrt)| ==>
      var reference := Sorting.SortDesc(Squares(contours, ServiceRule, sqrt), AreaKey)[0];
      Traced(reference) && InRange(reference.area) && 0.0 < reference.perimeter
  {
    var squares := Squares(contours, ServiceRule, sqrt);
    var leaves := Leaves(contours, ServiceRule, sqrt);
    Partition(contours, ServiceRule, sqrt);
    forall c | c in contours
      ensures Traced(c)
    {
      var i :| 0 <= i < |contours| && contours[i] == c;
    }
    forall c | c in squares
      ensures Traced(c) && InRange(c.area)
    {
      DroppedIffOutOfRange(ServiceRule, c, sqrt);
    }
    forall i | 0 <= i < |leaves|
      ensures Traced(leaves[i]) && InRange(leaves[i].area) && HasArea(leaves[i])
    {
      assert leaves[i] in leaves;
      DroppedIffOutOfRange(ServiceRule, leaves[i], sqrt);
    }
    if 0 < |squares| {
      Sorting.SortDescHeadIsMax(squares, AreaKey);
      var reference := Sorting.SortDesc(squares, AreaKey)[0];
      assert reference in squares;
    }
  }

  /** processImageDirect, from the classification loop to the resolved
      result. `cvLoaded` stands for the `cv` runtime being present. */
  method ProcessImageDirect(cvLoaded: bool, image: string, contours: seq<Contour>,
                            realAreaSquare: real, sqrt: real -> real, uid: nat -> string)
      returns (r: Outcome)
    requires IsSqrt(sqrt)
    requires forall i :: 0 <= i < |contours| ==> Traced(contours[i])
    ensures !cvLoaded ==> r == Reject(NotLoadedError)
    ensures cvLoaded ==> r == Resolve(Analysis(image, contours, realAreaSquare, sqrt, uid))
  {
    if !cvLoaded {
      return Reject(NotLoadedError);
    }
    var squares, leaves := FindObjects(contours, ServiceRule, sqrt);
    if |squares| == 0 {
      return Resolve(NoSquareResult);
    }
    KeptAreTraced(contours, sqrt);
    squares := Sorting.SortDesc(squares, AreaKey);
    var referenceSquare := squares[0];
    var scalingFactorLinear := LinearScale(realAreaSquare, referenceSquare, sqrt);
    var scalingFactorArea := AreaScale(realAreaSquare, referenceSquare);
    var leafMetrics := MeasureLeaves(leaves, scalingFactorLinear, scalingFactorArea, uid);
    var aggregatedMetrics := Aggregate(leafMetrics, sqrt);
    var processed := DrawAnalysis(image, squares, leaves);
    r := Resolve(AnalysisResult(leafMetrics, aggregatedMetrics, Some(processed), |leafMetrics|, None));
  }

  /** The reference square has the largest area of all squares. */
  lemma ReferenceIsLargest(squares: seq<Contour>)
    requires 0 < |squares|
    ensures Reference(squares) in squares
    ensures forall c :: c in squares ==> c.area <= Reference(squares).area
  {
    Sorting.SortDescHeadIsMax(squares, AreaKey);
  }

  /** Calibration: measured with the two factors, the reference square
      has the given real area and a perimeter of four real sides; doubling
      the real area doubles the areal factor and multiplies the linear
      one by sqrt(2). */
  lemma Calibration(realAreaSquare: real, reference: Contour, sqrt: real -> real)
    requires IsSqrt(sqrt) && 0.0 <= realAreaSquare
    requires 0.0 < reference.perimeter && 0.0 < reference.area
    ensures reference.area * AreaScale(realAreaSquare, reference) == realAreaSquare
    ensures reference.perimeter * LinearScale(realAreaSquare, reference, sqrt) == 4.0 * sqrt(realAreaSquare)
    ensures 0.0 <= LinearScale(realAreaSquare, reference, sqrt) && 0.0 <= AreaScale(realAreaSquare, reference)
    ensures 0.0 < realAreaSquare ==>
      0.0 < LinearScale(realAreaSquare, reference, sqrt) && 0.0 < AreaScale(realAreaSquare, reference)
    ensures AreaScale(2.0 * realAreaSquare, reference) == 2.0 * AreaScale(realAreaSquare, reference)
    ensures LinearScale(2.0 * realAreaSquare, reference, sqrt)
         == sqrt(2.0) * LinearScale(realAreaSquare, reference, sqrt)
  {
    var side := sqrt(realAreaSquare);
    var quarter := reference.perimeter / 4.0;
    assert 0.0 <= side;
    if 0.0 < realAreaSquare {
      SqrtPositive(sqrt, realAreaSquare);
    }
    SqrtOfProduct(sqrt, 2.0, realAreaSquare);
  }

  /** A measured leaf: id i + 1, width <= length, ratio in [0, 1] and
      zero exactly when the length is. */
  lemma MeasuredLeafShape(leaf: Contour, i: int, linear: real, areal: real, uid: nat -> string)
    requires 0 <= i && Traced(leaf) && 0.0 <= linear
    ensures var m := MeasureLeaf(leaf, i, linear, areal, uid);
      && m.id == i + 1
      && 0.0 <= m.largura <= m.comprimento
      && 0.0 <= m.relacaoLarguraComprimento <= 1.0
      && (m.comprimento == 0.0 ==> m.relacaoLarguraComprimento == 0.0)
      && (0.0 < m.comprimento ==> m.relacaoLarguraComprimento * m.comprimento == m.largura)
  {
    var lo, hi := Min(leaf.rectWidth, leaf.rectHeight), Max(leaf.rectWidth, leaf.rectHeight);
    ScaleMonotone(0.0, lo, linear);
    ScaleMonotone(lo, hi, linear);
    var w, l := lo * linear, hi * linear;
    var m := MeasureLeaf(leaf, i, linear, areal, uid);
    assert m.largura == w && m.comprimento == l;
    if 0.0 < l {
      FractionBounds(w, l);
      assert m.relacaoLarguraComprimento == w / l;
    }
  }

  lemma MeasuredPrefix(leaves: seq<Contour>, n: nat, linear: real, areal: real, uid: nat -> string)
    requires n <= |leaves|
    ensures Measured(leaves[..n], linear, areal, uid) == Measured(leaves, linear, areal, uid)[..n]
  {
    var a := Measured(leaves[..n], linear, areal, uid);
    var b := Measured(leaves, linear, areal, uid)[..n];
    assert |a| == |b|;
    forall k | 0 <= k < |a|
      ensures a[k] == b[k]
    {
    }
  }

  /** Redrawing the stored results reproduces the leaf marks of the first
      drawing: the snapshot gives back the contour, the stored centroid is
      the one the first drawing computed, and entry i is numbered i + 1. */
  lemma {:induction false} RedrawMatchesFirstDrawing(leaves: seq<Contour>, linear: real, areal: real,
                                                      uid: nat -> string)
    requires forall i :: 0 <= i < |leaves| ==> HasArea(leaves[i]) && |leaves[i].points| > 0
    ensures RedrawMarks(Measured(leaves, linear, areal, uid)) == LeafMarks(leaves)
  {
    var n := |leaves|;
    if n > 0 {
      var init := leaves[..n - 1];
      var ms := Measured(leaves, linear, areal, uid);
      RedrawMatchesFirstDrawing(init, linear, areal, uid);
      MeasuredPrefix(leaves, n - 1, linear, areal, uid);
      assert ms[..n - 1] == Measured(init, linear, areal, uid);
      var leaf := leaves[n - 1];
      UnflattenFlatten(leaf.points);
      assert init == leaves[..|leaves| - 1];
    }
  }

  /** In a successful analysis every stored leaf is well shaped, and a
      redraw from the stored results draws exactly the leaf marks of the
      processed image. */
  lemma AnalysisLeaves(image: string, contours: seq<Contour>, realAreaSquare: real,
                       sqrt: real -> real, uid: nat -> string)
    requires IsSqrt(sqrt) && 0.0 <= realAreaSquare
    requires forall i :: 0 <= i < |contours| ==> Traced(contours[i])
    ensures var r := Analysis(image, contours, realAreaSquare, sqrt, uid);
      r.error.None? ==>
        && (forall i :: 0 <= i < |r.leaves| ==>
              0.0 <= r.leaves[i].largura <= r.leaves[i].comprimento
              && 0.0 <= r.leaves[i].relacaoLarguraComprimento <= 1.0)
        && r.processedImage.Some?
        && r.processedImage.value.marks[|r.processedImage.value.marks| - |RedrawMarks(r.leaves)|..]
           == RedrawMarks(r.leaves)
  {
    var squares := Squares(contours, ServiceRule, sqrt);
    var leaves := Leaves(contours, ServiceRule, sqrt);
    if |squares| > 0 {
      KeptAreTraced(contours, sqrt);
      var reference := Sorting.SortDesc(squares, AreaKey)[0];
      var linear := LinearScale(realAreaSquare, reference, sqrt);
      var areal := AreaScale(realAreaSquare, reference);
      Calibration(realAreaSquare, reference, sqrt);
      var ms := Measured(leaves, linear, areal, uid);
      forall i | 0 <= i < |ms|
        ensures 0.0 <= ms[i].largura <= ms[i].comprimento
             && 0.0 <= ms[i].relacaoLarguraComprimento <= 1.0
      {
        MeasuredLeafShape(leaves[i], i, linear, areal, uid);
      }
      RedrawMatchesFirstDrawing(leaves, linear, areal, uid);
      var marks := SquareMarks(Sorting.SortDesc(squares, AreaKey)) + LeafMarks(leaves);
      assert marks[|marks| - |LeafMarks(leaves)|..] == LeafMarks(leaves);
    }
  }
}
