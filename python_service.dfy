/** The bundled Python analysis service (`analyze_image` of the assets
    service): the same classification as every other variant, calibration
    on the FIRST square found, measurement of every leaf with a PCA box
    (or minAreaRect for very short contours) and NumPy aggregates that are
    zero without leaves. Decoding, drawing and the JSON/base64 envelope
    are not modelled. */
module PythonService {
  import opened Numeric
  import opened Geometry
  import opened Classifier
  import opened Metrics

  datatype PyLeafMetric = PyLeafMetric(
    id: int,
    area: real,
    perimeter: real,
    width: real,
    length: real,
    widthToLengthRatio: real)

  datatype PyAnalysis = PyAnalysis(
    numberOfLeaves: int,
    leaves: seq<PyLeafMetric>,
    aggregatedMetrics: NumberMetrics)

  /** The JSON document returned: an analysis, or `{"error": ...}`. */
  datatype PyResponse = Analysed(result: PyAnalysis) | Failed(error: string)

  const DecodeError := "Não foi possível decodificar a imagem"

  datatype Factors = Factors(linear: real, areal: real)

  /** Both factors start at 1.0. With a square, squares[0] is the
      reference: the linear factor is the real side over a quarter of its
      perimeter, and the areal factor is replaced only when the pixel area
      is positive. */
  function Calibrate(squares: seq<Contour>, realAreaSquare: real, sqrt: real -> real): Factors
    requires 0 < |squares| ==> 0.0 < squares[0].perimeter
  {
    if |squares| == 0 then Factors(1.0, 1.0)
    else
      var reference := squares[0];
      var linear := sqrt(realAreaSquare) / (reference.perimeter / 4.0);
      Factors(linear, if reference.area > 0.0 then realAreaSquare / reference.area else 1.0)
  }

  lemma CalibrationFacts(squares: seq<Contour>, realAreaSquare: real, sqrt: real -> real)
    requires IsSqrt(sqrt) && 0.0 <= realAreaSquare
    requires 0 < |squares| ==> 0.0 < squares[0].perimeter
    ensures var f := Calibrate(squares, realAreaSquare, sqrt);
      && 0.0 <= f.linear
      && (|squares| == 0 ==> f == Factors(1.0, 1.0))
      && (0 < |squares| ==> squares[0].perimeter * f.linear == 4.0 * sqrt(realAreaSquare))
      && (0 < |squares| && 0.0 < squares[0].area ==> squares[0].area * f.areal == realAreaSquare)
      && (0 < |squares| && squares[0].area <= 0.0 ==> f.areal == 1.0)
  {
    if 0 < |squares| {
      assert 0.0 <= sqrt(realAreaSquare);
    }
  }

  /** The two pixel sides: the bounding box of the PCA-rotated points when
      the contour has at least five points, minAreaRect otherwise. */
  function SidesPx(leaf: Contour): (real, real) {
    if |leaf.points| >= 5 then (leaf.pcaWidth as real, leaf.pcaHeight as real)
    else (leaf.rectWidth, leaf.rectHeight)
  }

  /** Leaf i (from 0), measured with the factors. */
  function PyMeasure(leaf: Contour, i: int, f: Factors): PyLeafMetric {
    var (w, l) := SidesPx(leaf);
    var widthCm := Min(w, l) * f.linear;
    var lengthCm := Max(w, l) * f.linear;
    PyLeafMetric(
      i + 1,
      leaf.area * f.areal,
      leaf.perimeter * f.linear,
      widthCm,
      lengthCm,
      if lengthCm != 0.0 then widthCm / lengthCm else 0.0)
  }

  function PyMeasured(leaves: seq<Contour>, f: Factors): (r: seq<PyLeafMetric>)
    ensures |r| == |leaves|
  {
    seq(|leaves|, i requires 0 <= i < |leaves| => PyMeasure(leaves[i], i, f))
  }

  function PyAreas(ms: seq<PyLeafMetric>): seq<real> { Column(ms, (m: PyLeafMetric) => m.area) }
  function PyPerimeters(ms: seq<PyLeafMetric>): seq<real> { Column(ms, (m: PyLeafMetric) => m.perimeter) }
  function PyWidths(ms: seq<PyLeafMetric>): seq<real> { Column(ms, (m: PyLeafMetric) => m.width) }
  function PyLengths(ms: seq<PyLeafMetric>): seq<real> { Column(ms, (m: PyLeafMetric) => m.length) }
  function PyRatios(ms: seq<PyLeafMetric>): seq<real> { Column(ms, (m: PyLeafMetric) => m.widthToLengthRatio) }

  /** The measurement loop: one metric record per leaf, and the five
      column lists the aggregates are computed from. */
  method MeasureLeaves(leaves: seq<Contour>, f: Factors)
      returns (leafMetrics: seq<PyLeafMetric>, allAreas: seq<real>, allPerimeters: seq<real>,
               allWidths: seq<real>, allLengths: seq<real>, allRatios: seq<real>)
    ensures leafMetrics == PyMeasured(leaves, f)
    ensures allAreas == PyAreas(leafMetrics) && allPerimeters == PyPerimeters(leafMetrics)
    ensures allWidths == PyWidths(leafMetrics) && allLengths == PyLengths(leafMetrics)
    ensures allRatios == PyRatios(leafMetrics)
  {
    leafMetrics, allAreas, allPerimeters, allWidths, allLengths, allRatios := [], [], [], [], [], [];
    for i := 0 to |leaves|
      invariant leafMetrics == PyMeasured(leaves[..i], f)
      invariant allAreas == PyAreas(leafMetrics) && allPerimeters == PyPerimeters(leafMetrics)
      invariant allWidths == PyWidths(leafMetrics) && allLengths == PyLengths(leafMetrics)
      invariant allRatios == PyRatios(leafMetrics)
    {
      var m := PyMeasure(leaves[i], i, f);
      MeasuredStep(leaves, i, f);
      allAreas := allAreas + [m.area];
      allPerimeters := allPerimeters + [m.perimeter];
      allWidths := allWidths + [m.width];
      allLengths := allLengths + [m.length];
      allRatios := allRatios + [m.widthToLengthRatio];
      leafMetrics := leafMetrics + [m];
    }
    assert leaves[..|leaves|] == leaves;
  }

  lemma MeasuredStep(leaves: seq<Contour>, i: nat, f: Factors)
    requires i < |leaves|
    ensures PyMeasured(leaves[..i + 1], f) == PyMeasured(leaves[..i], f) + [PyMeasure(leaves[i], i, f)]
  {
    var a := PyMeasured(leaves[..i + 1], f);
    var b := PyMeasured(leaves[..i], f) + [PyMeasure(leaves[i], i, f)];
    assert |a| == |b|;
    forall k | 0 <= k < |a|
      ensures a[k] == b[k]
    {
    }
  }

  /** The analysis document for a decoded image whose traced contours are
      given. */
  function Analyze(contours: seq<Contour>, realAreaSquare: real, sqrt: real -> real): (r: PyAnalysis)
    requires IsSqrt(sqrt)
    requires forall i :: 0 <= i < |contours| ==> Traced(contours[i])
    ensures r.numberOfLeaves == |r.leaves| == |Leaves(contours, PythonRule, sqrt)|
    ensures forall i :: 0 <= i < |r.leaves| ==> r.leaves[i].id == i + 1
    ensures r.aggregatedMetrics.totalArea == Sum(PyAreas(r.leaves))
    ensures |r.leaves| == 0 ==> r.aggregatedMetrics == ZeroMetrics
    ensures var squares := Squares(contours, PythonRule, sqrt);
      && (0 < |squares| ==> 0.0 < squares[0].perimeter)
      && r.leaves == PyMeasured(Leaves(contours, PythonRule, sqrt), Calibrate(squares, realAreaSquare, sqrt))
    ensures r.aggregatedMetrics == NumPyAggregate(PyAreas(r.leaves), PyPerimeters(r.leaves), PyWidths(r.leaves),
                                                  PyLengths(r.leaves), PyRatios(r.leaves), sqrt)
  {
    var squares := Squares(contours, PythonRule, sqrt);
    var leaves := Leaves(contours, PythonRule, sqrt);
    FirstSquareTraced(contours, sqrt);
    var f := Calibrate(squares, realAreaSquare, sqrt);
    var ms := PyMeasured(leaves, f);
    PyAnalysis(|leaves|, ms,
      NumPyAggregate(PyAreas(ms), PyPerimeters(ms), PyWidths(ms), PyLengths(ms), PyRatios(ms), sqrt))
  }

  /** Every square and leaf is a traced contour, and the first square has
      a positive perimeter. */
  lemma FirstSquareTraced(contours: seq<Contour>, sqrt: real -> real)
    requires forall i :: 0 <= i < |contours| ==> Traced(contours[i])
    ensures forall c :: c in Squares(contours, PythonRule, sqrt) ==> Traced(c)
    ensures forall c :: c in Leaves(contours, PythonRule, sqrt) ==> Traced(c)
    ensures 0 < |Squares(contours, PythonRule, sqrt)| ==> 0.0 < Squares(contours, PythonRule, sqrt)[0].perimeter
  {
    var squares := Squares(contours, PythonRule, sqrt);
    Partition(contours, PythonRule, sqrt);
    forall c | c in contours
      ensures Traced(c)
    {
      var i :| 0 <= i < |contours| && contours[i] == c;
    }
    if 0 < |squares| {
      assert squares[0] in squares;
      DroppedIffOutOfRange(PythonRule, squares[0], sqrt);
    }
  }

  /** The calibration block of analyze_image: both factors start at 1.0
      and are overwritten from the first square. */
  method CalibrationStep(squares: seq<Contour>, realAreaSquare: real, sqrt: real -> real)
      returns (f: Factors)
    requires 0 < |squares| ==> 0.0 < squares[0].perimeter
    ensures f == Calibrate(squares, realAreaSquare, sqrt)
  {
    var scalingFactorArea := 1.0;
    var scalingFactorLinear := 1.0;
    if |squares| > 0 {
      var referenceSquare := squares[0];
      var pixelsPerSquare := referenceSquare.perimeter;
      var realSideSquare := sqrt(realAreaSquare);
      scalingFactorLinear := realSideSquare / (pixelsPerSquare / 4.0);
      var pixelsAreaSquare := referenceSquare.area;
      if pixelsAreaSquare > 0.0 {
        scalingFactorArea := realAreaSquare / pixelsAreaSquare;
      }
    }
    f := Factors(scalingFactorLinear, scalingFactorArea);
  }

  /** analyze_image. `decoded` stands for cv2.imdecode returning an image. */
  method AnalyzeImage(decoded: bool, contours: seq<Contour>, realAreaSquare: real, sqrt: real -> real)
      returns (r: PyResponse)
    requires IsSqrt(sqrt)
    requires forall i :: 0 <= i < |contours| ==> Traced(contours[i])
    ensures !decoded ==> r == Failed(DecodeError)
    ensures decoded ==> r == Analysed(Analyze(contours, realAreaSquare, sqrt))
  {
    if !decoded {
      return Failed(DecodeError);
    }
    var squares, leaves := FindObjects(contours, PythonRule, sqrt);
    FirstSquareTraced(contours, sqrt);
    var f := CalibrationStep(squares, realAreaSquare, sqrt);
    var leafMetrics, allAreas, allPerimeters, allWidths, allLengths, allRatios := MeasureLeaves(leaves, f);
    var aggregated := NumPyAggregate(allAreas, allPerimeters, allWidths, allLengths, allRatios, sqrt);
    r := Analysed(PyAnalysis(|leaves|, leafMetrics, aggregated));
  }

  /** A measured leaf: width = shorter side <= length = longer side, the
      ratio in [0, 1] and zero when the length is. */
  lemma PyLeafShape(leaf: Contour, i: int, f: Factors)
    requires Traced(leaf) && 0.0 <= f.linear
    ensures var m := PyMeasure(leaf, i, f);
      && m.id == i + 1
      && 0.0 <= m.width <= m.length
      && 0.0 <= m.widthToLengthRatio <= 1.0
      && (m.length == 0.0 ==> m.widthToLengthRatio == 0.0)
      && (m.length != 0.0 ==> m.widthToLengthRatio * m.length == m.width)
  {
    var (w, l) := SidesPx(leaf);
    var lo, hi := Min(w, l), Max(w, l);
    ScaleMonotone(0.0, lo, f.linear);
    ScaleMonotone(lo, hi, f.linear);
    var m := PyMeasure(leaf, i, f);
    assert m.width == lo * f.linear && m.length == hi * f.linear;
    if m.length != 0.0 {
      FractionBounds(m.width, m.length);
    }
  }

  /** Without a reference square the analysis goes on in pixels: leaf
      areas and perimeters are the traced ones. With one, the first square
      found calibrates, and every leaf is well shaped. */
  lemma AnalyzeFacts(contours: seq<Contour>, realAreaSquare: real, sqrt: real -> real)
    requires IsSqrt(sqrt) && 0.0 <= realAreaSquare
    requires forall i :: 0 <= i < |contours| ==> Traced(contours[i])
    ensures var r := Analyze(contours, realAreaSquare, sqrt);
      var leaves := Leaves(contours, PythonRule, sqrt);
      && (|Squares(contours, PythonRule, sqrt)| == 0 ==>
            forall i :: 0 <= i < |r.leaves| ==>
              r.leaves[i].area == leaves[i].area && r.leaves[i].perimeter == leaves[i].perimeter)
      && (forall i :: 0 <= i < |r.leaves| ==>
            0.0 <= r.leaves[i].width <= r.leaves[i].length
            && 0.0 <= r.leaves[i].widthToLengthRatio <= 1.0)
  {
    var squares := Squares(contours, PythonRule, sqrt);
    var leaves := Leaves(contours, PythonRule, sqrt);
    FirstSquareTraced(contours, sqrt);
    CalibrationFacts(squares, realAreaSquare, sqrt);
    var f := Calibrate(squares, realAreaSquare, sqrt);
    var ms := PyMeasured(leaves, f);
    forall i | 0 <= i < |ms|
      ensures 0.0 <= ms[i].width <= ms[i].length && 0.0 <= ms[i].widthToLengthRatio <= 1.0
    {
      assert leaves[i] in leaves;
      PyLeafShape(leaves[i], i, f);
    }
  }
}
