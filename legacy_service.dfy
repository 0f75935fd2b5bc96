/** The oldest Python service (`analyze_image` of the top-level
    python_service.py): classification with 1e-10 inside the square root,
    no calibration square. Leaf areas are multiplied by `scale_area`;
    perimeters, widths and lengths stay in pixels, widths and lengths taken
    from the upright bounding box. Decoding, drawing and the JSON envelope
    are not modelled. */
module LegacyService {
  import opened Numeric
  import opened Geometry
  import opened Classifier
  import opened Metrics

  datatype LegacyLeafMetric = LegacyLeafMetric(
    area: real,
    perimeter: real,
    width: int,
    length: int,
    widthToLengthRatio: real)

  datatype LegacyAnalysis = LegacyAnalysis(
    numberOfLeaves: int,
    leaves: seq<LegacyLeafMetric>,
    aggregatedMetrics: NumberMetrics)

  datatype LegacyResponse = Analysed(result: LegacyAnalysis) | Failed(error: string)

  const DecodeError := "Não foi possível decodificar a imagem"

  /** One leaf: the scaled area, the pixel perimeter and the shorter and
      longer side of boundingRect, with the guarded ratio. */
  function LegacyMeasure(leaf: Contour, scaleArea: real): LegacyLeafMetric {
    var w, l := leaf.boxWidth, leaf.boxHeight;
    var width := if w < l then w else l;
    var length := if w < l then l else w;
    LegacyLeafMetric(
      leaf.area * scaleArea,
      leaf.perimeter,
      width,
      length,
      if length != 0 then width as real / length as real else 0.0)
  }

  function LegacyMeasured(leaves: seq<Contour>, scaleArea: real): (r: seq<LegacyLeafMetric>)
    ensures |r| == |leaves|
  {
    seq(|leaves|, i requires 0 <= i < |leaves| => LegacyMeasure(leaves[i], scaleArea))
  }

  function LegacyAreas(ms: seq<LegacyLeafMetric>): seq<real> {
    Column(ms, (m: LegacyLeafMetric) => m.area)
  }
  function LegacyPerimeters(ms: seq<LegacyLeafMetric>): seq<real> {
    Column(ms, (m: LegacyLeafMetric) => m.perimeter)
  }
  function LegacyWidths(ms: seq<LegacyLeafMetric>): seq<real> {
    Column(ms, (m: LegacyLeafMetric) => m.width as real)
  }
  function LegacyLengths(ms: seq<LegacyLeafMetric>): seq<real> {
    Column(ms, (m: LegacyLeafMetric) => m.length as real)
  }
  function LegacyRatios(ms: seq<LegacyLeafMetric>): seq<real> {
    Column(ms, (m: LegacyLeafMetric) => m.widthToLengthRatio)
  }

  /** The measurement loop, appending one record and one entry per column
      for every leaf. */
  method MeasureLeaves(leaves: seq<Contour>, scaleArea: real)
      returns (leafMetrics: seq<LegacyLeafMetric>, areas: seq<real>, perimeters: seq<real>,
               widths: seq<real>, lengths: seq<real>, ratios: seq<real>)
    ensures leafMetrics == LegacyMeasured(leaves, scaleArea)
    ensures areas == LegacyAreas(leafMetrics) && perimeters == LegacyPerimeters(leafMetrics)
    ensures widths == LegacyWidths(leafMetrics) && lengths == LegacyLengths(leafMetrics)
    ensures ratios == LegacyRatios(leafMetrics)
  {
    leafMetrics, areas, perimeters, widths, lengths, ratios := [], [], [], [], [], [];
    for i := 0 to |leaves|
      invariant leafMetrics == LegacyMeasured(leaves[..i], scaleArea)
      invariant areas == LegacyAreas(leafMetrics) && perimeters == LegacyPerimeters(leafMetrics)
      invariant widths == LegacyWidths(leafMetrics) && lengths == LegacyLengths(leafMetrics)
      invariant ratios == LegacyRatios(leafMetrics)
    {
      var m := LegacyMeasure(leaves[i], scaleArea);
      MeasuredStep(leaves, i, scaleArea);
      areas := areas + [m.area];
      perimeters := perimeters + [m.perimeter];
      widths := widths + [m.width as real];
      lengths := lengths + [m.length as real];
      ratios := ratios + [m.widthToLengthRatio];
      leafMetrics := leafMetrics + [m];
    }
    assert leaves[..|leaves|] == leaves;
  }

  lemma MeasuredStep(leaves: seq<Contour>, i: nat, scaleArea: real)
    requires i < |leaves|
    ensures LegacyMeasured(leaves[..i + 1], scaleArea)
         == LegacyMeasured(leaves[..i], scaleArea) + [LegacyMeasure(leaves[i], scaleArea)]
  {
    var a := LegacyMeasured(leaves[..i + 1], scaleArea);
    var b := LegacyMeasured(leaves[..i], scaleArea) + [LegacyMeasure(leaves[i], scaleArea)];
    assert |a| == |b|;
    forall k | 0 <= k < |a|
      ensures a[k] == b[k]
    {
    }
  }

  /** The analysis document of a decoded image. */
  function Analyze(contours: seq<Contour>, scaleArea: real, sqrt: real -> real): (r: LegacyAnalysis)
    requires IsSqrt(sqrt)
    ensures r.numberOfLeaves == |r.leaves| == |Leaves(contours, LegacyRule, sqrt)|
    ensures r.aggregatedMetrics.totalArea == Sum(LegacyAreas(r.leaves))
    ensures |r.leaves| == 0 ==> r.aggregatedMetrics == ZeroMetrics
    ensures r.leaves == LegacyMeasured(Leaves(contours, LegacyRule, sqrt), scaleArea)
    ensures r.aggregatedMetrics == NumPyAggregate(LegacyAreas(r.leaves), LegacyPerimeters(r.leaves),
                                                  LegacyWidths(r.leaves), LegacyLengths(r.leaves),
                                                  LegacyRatios(r.leaves), sqrt)
  {
    var leaves := Leaves(contours, LegacyRule, sqrt);
    var ms := LegacyMeasured(leaves, scaleArea);
    LegacyAnalysis(|leaves|, ms,
      NumPyAggregate(LegacyAreas(ms), LegacyPerimeters(ms), LegacyWidths(ms), LegacyLengths(ms),
                     LegacyRatios(ms), sqrt))
  }

  method AnalyzeImage(decoded: bool, contours: seq<Contour>, scaleArea: real, sqrt: real -> real)
      returns (r: LegacyResponse)
    requires IsSqrt(sqrt)
    ensures !decoded ==> r == Failed(DecodeError)
    ensures decoded ==> r == Analysed(Analyze(contours, scaleArea, sqrt))
  {
    if !decoded {
      return Failed(DecodeError);
    }
    var squares, leaves := FindObjects(contours, LegacyRule, sqrt);
    var leafMetrics, areas, perimeters, widths, lengths, ratios := MeasureLeaves(leaves, scaleArea);
    var aggregated := NumPyAggregate(areas, perimeters, widths, lengths, ratios, sqrt);
    r := Analysed(LegacyAnalysis(|leaves|, leafMetrics, aggregated));
  }

  /** A measured leaf keeps the traced perimeter in pixels, scales only the
      area, and has width <= length with the ratio in [0, 1], zero when
      the length is. */
  lemma LegacyLeafShape(leaf: Contour, scaleArea: real)
    requires Traced(leaf)
    ensures var m := LegacyMeasure(leaf, scaleArea);
      && m.area == leaf.area * scaleArea && m.perimeter == leaf.perimeter
      && 0 <= m.width <= m.length
      && {m.width, m.length} == {leaf.boxWidth, leaf.boxHeight}
      && 0.0 <= m.widthToLengthRatio <= 1.0
      && (m.length == 0 ==> m.widthToLengthRatio == 0.0)
  {
    var m := LegacyMeasure(leaf, scaleArea);
    if m.length != 0 {
      FractionBounds(m.width as real, m.length as real);
    }
  }

  /** The squares found play no part: two contour lists with the same
      leaves give the same analysis. */
  lemma SquaresUnused(contours: seq<Contour>, others: seq<Contour>, scaleArea: real, sqrt: real -> real)
    requires IsSqrt(sqrt)
    requires Leaves(contours, LegacyRule, sqrt) == Leaves(others, LegacyRule, sqrt)
    ensures Analyze(contours, scaleArea, sqrt) == Analyze(others, scaleArea, sqrt)
  {
  }
}
