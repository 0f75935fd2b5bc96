/** Per-leaf results and their summary statistics: sum, arithmetic mean and
    population standard deviation over the leaves of one analysis. */
module Metrics {
  import opened Wrappers
  import opened Numeric

  /** One measured leaf as the browser service reports it. `cx`, `cy`,
      `contour` and `uid` are optional in the record type. */
  datatype LeafMetric = LeafMetric(
    id: int,
    area: real,
    perimetro: real,
    comprimento: real,
    largura: real,
    relacaoLarguraComprimento: real,
    cx: Option<int>,
    cy: Option<int>,
    contour: Option<seq<int>>,
    uid: Option<string>)

  /** Every field is optional; an absent field is None. */
  datatype AggregatedMetrics = AggregatedMetrics(
    totalArea: Option<real>,
    averageArea: Option<real>,
    standardDeviationArea: Option<real>,
    averagePerimeter: Option<real>,
    standardDeviationPerimeter: Option<real>,
    averageWidth: Option<real>,
    standardDeviationWidth: Option<real>,
    averageLength: Option<real>,
    standardDeviationLength: Option<real>,
    averageWidthToLengthRatio: Option<real>)

  /** The `{}` object. */
  const NoMetrics := AggregatedMetrics(None, None, None, None, None, None, None, None, None, None)

  // ---------------------------------------------------------------------
  // Statistics over a list of numbers.

  /** Left-to-right sum, as `reduce((sum, val) => sum + val, 0)`. */
  function Sum(xs: seq<real>): real {
    if |xs| == 0 then 0.0 else Sum(xs[..|xs| - 1]) + xs[|xs| - 1]
  }

  function Mean(xs: seq<real>): real
    requires 0 < |xs|
  {
    Sum(xs) / |xs| as real
  }

  /** `average` is the mean of `count` values adding up to `total`. */
  predicate AverageOf(average: real, total: real, count: nat) {
    average * count as real == total
  }

  /** `deviation` is the population standard deviation of `xs` around the
      reported mean: sqrt(Σ(x - mean)² / n). */
  predicate DeviationOf(deviation: real, xs: seq<real>, mean: real, sqrt: real -> real)
    requires 0 < |xs|
  {
    deviation == sqrt(SquaredDeviation(xs, mean) / |xs| as real)
  }

  /** A column's reported mean is Σ/n and its reported deviation is the
      population deviation around that mean. */
  predicate ColumnStats(average: real, deviation: real, xs: seq<real>, sqrt: real -> real)
    requires 0 < |xs|
  {
    AverageOf(average, Sum(xs), |xs|) && DeviationOf(deviation, xs, average, sqrt)
  }

  /** The same for optional fields, which must both be present. */
  predicate OptionalStats(average: Option<real>, deviation: Option<real>, xs: seq<real>, sqrt: real -> real)
    requires 0 < |xs|
  {
    average.Some? && deviation.Some? && ColumnStats(average.value, deviation.value, xs, sqrt)
  }

  /** Sum of squared deviations from m. */
  function SquaredDeviation(xs: seq<real>, m: real): real {
    if |xs| == 0 then 0.0
    else SquaredDeviation(xs[..|xs| - 1], m) + Sq(xs[|xs| - 1] - m)
  }

  /** Population standard deviation (divides by n), as both getStdDev and
      np.std compute it. */
  function StdDev(xs: seq<real>, sqrt: real -> real): real
    requires 0 < |xs|
  {
    sqrt(SquaredDeviation(xs, Mean(xs)) / |xs| as real)
  }

  lemma {:induction false} SumBounds(xs: seq<real>, lo: real, hi: real)
    requires forall i :: 0 <= i < |xs| ==> lo <= xs[i] <= hi
    ensures |xs| as real * lo <= Sum(xs) <= |xs| as real * hi
  {
    if |xs| > 0 {
      SumBounds(xs[..|xs| - 1], lo, hi);
    }
  }

  /** The mean lies between any lower and upper bound of the values. */
  lemma MeanBetween(xs: seq<real>, lo: real, hi: real)
    requires 0 < |xs|
    requires forall i :: 0 <= i < |xs| ==> lo <= xs[i] <= hi
    ensures lo <= Mean(xs) <= hi
  {
    SumBounds(xs, lo, hi);
    var n := |xs| as real;
    assert Mean(xs) * n == Sum(xs);
    ScaleStrict(Mean(xs), lo, n);
    ScaleStrict(hi, Mean(xs), n);
  }

  /** Squared deviations are non-negative and vanish when every value is m. */
  lemma {:induction false} SquaredDeviationBounds(xs: seq<real>, m: real)
    ensures 0.0 <= SquaredDeviation(xs, m)
    ensures (forall i :: 0 <= i < |xs| ==> xs[i] == m) ==> SquaredDeviation(xs, m) == 0.0
  {
    if |xs| > 0 {
      var init := xs[..|xs| - 1];
      SquaredDeviationBounds(init, m);
      assert forall i :: 0 <= i < |init| ==> init[i] == xs[i];
    }
  }

  /** The standard deviation is non-negative, and zero when every value is
      the same; in particular it is zero for a single value, whose mean is
      that value. */
  lemma StdDevBounds(xs: seq<real>, sqrt: real -> real)
    requires IsSqrt(sqrt) && 0 < |xs|
    ensures 0.0 <= StdDev(xs, sqrt)
    ensures (forall i :: 0 <= i < |xs| ==> xs[i] == xs[0]) ==> Mean(xs) == xs[0] && StdDev(xs, sqrt) == 0.0
  {
    var n := |xs| as real;
    SquaredDeviationBounds(xs, Mean(xs));
    if forall i :: 0 <= i < |xs| ==> xs[i] == xs[0] {
      SumConstant(xs, xs[0]);
      assert Mean(xs) * n == n * xs[0];
      SqrtOfZero(sqrt);
    }
  }

  lemma {:induction false} SumConstant(xs: seq<real>, c: real)
    requires forall i :: 0 <= i < |xs| ==> xs[i] == c
    ensures Sum(xs) == |xs| as real * c
  {
    if |xs| > 0 {
      SumConstant(xs[..|xs| - 1], c);
    }
  }

  // ---------------------------------------------------------------------
  // Columns of a result list.

  /** One numeric field of every metric, in order. */
  function Column<M>(ms: seq<M>, field: M -> real): (r: seq<real>)
    ensures |r| == |ms| && forall i :: 0 <= i < |ms| ==> r[i] == field(ms[i])
  {
    seq(|ms|, i requires 0 <= i < |ms| => field(ms[i]))
  }

  function Areas(ls: seq<LeafMetric>): seq<real> { Column(ls, (m: LeafMetric) => m.area) }
  function Perimeters(ls: seq<LeafMetric>): seq<real> { Column(ls, (m: LeafMetric) => m.perimetro) }
  function Widths(ls: seq<LeafMetric>): seq<real> { Column(ls, (m: LeafMetric) => m.largura) }
  function Lengths(ls: seq<LeafMetric>): seq<real> { Column(ls, (m: LeafMetric) => m.comprimento) }
  function Ratios(ls: seq<LeafMetric>): seq<real> {
    Column(ls, (m: LeafMetric) => m.relacaoLarguraComprimento)
  }

  /** All ten statistics over five equally long, non-empty columns. */
  function Summary(areas: seq<real>, perimeters: seq<real>, widths: seq<real>,
                   lengths: seq<real>, ratios: seq<real>, sqrt: real -> real): AggregatedMetrics
    requires 0 < |areas| && |perimeters| == |widths| == |lengths| == |ratios| == |areas|
  {
    AggregatedMetrics(
      Some(Sum(areas)),
      Some(Mean(areas)),
      Some(StdDev(areas, sqrt)),
      Some(Mean(perimeters)),
      Some(StdDev(perimeters, sqrt)),
      Some(Mean(widths)),
      Some(StdDev(widths, sqrt)),
      Some(Mean(lengths)),
      Some(StdDev(lengths, sqrt)),
      Some(Mean(ratios)))
  }

  /** The standard-deviation fields of a summary. */
  function Deviations(a: AggregatedMetrics): seq<Option<real>> {
    [a.standardDeviationArea, a.standardDeviationPerimeter,
     a.standardDeviationWidth, a.standardDeviationLength]
  }

  /** Every average of `r` is Σ/n of its column of `ls`, and every
      standard deviation the population deviation around that average. */
  predicate Summarises(r: AggregatedMetrics, ls: seq<LeafMetric>, sqrt: real -> real)
    requires 0 < |ls|
  {
    && OptionalStats(r.averageArea, r.standardDeviationArea, Areas(ls), sqrt)
    && OptionalStats(r.averagePerimeter, r.standardDeviationPerimeter, Perimeters(ls), sqrt)
    && OptionalStats(r.averageWidth, r.standardDeviationWidth, Widths(ls), sqrt)
    && OptionalStats(r.averageLength, r.standardDeviationLength, Lengths(ls), sqrt)
    && r.averageWidthToLengthRatio.Some?
    && AverageOf(r.averageWidthToLengthRatio.value, Sum(Ratios(ls)), |ls|)
  }

  /** The aggregate block of an analysis: `{}` without leaves, otherwise
      every field present, the total the sum of the areas, every average
      Σ/n of its column and every standard deviation the population one
      around that average (so non-negative); for a single leaf the averages
      equal that leaf's values and every deviation is zero. */
  function Aggregate(ls: seq<LeafMetric>, sqrt: real -> real): (r: AggregatedMetrics)
    requires IsSqrt(sqrt)
    ensures |ls| == 0 <==> r == NoMetrics
    ensures 0 < |ls| ==>
      r.totalArea == Some(Sum(Areas(ls)))
      && r.averageArea.Some? && AverageOf(r.averageArea.value, r.totalArea.value, |ls|)
    ensures 0 < |ls| ==> Summarises(r, ls, sqrt)
    ensures 0 < |ls| ==> forall d :: d in Deviations(r) ==> d.Some? && 0.0 <= d.value
    ensures |ls| == 1 ==>
      r.averageArea == Some(ls[0].area) && r.averagePerimeter == Some(ls[0].perimetro)
      && r.averageWidth == Some(ls[0].largura) && r.averageLength == Some(ls[0].comprimento)
      && r.averageWidthToLengthRatio == Some(ls[0].relacaoLarguraComprimento)
      && forall d :: d in Deviations(r) ==> d == Some(0.0)
  {
    if |ls| == 0 then NoMetrics
    else
      SummaryFacts(Areas(ls), Perimeters(ls), Widths(ls), Lengths(ls), Ratios(ls), sqrt);
      SummaryStats(ls, sqrt);
      Summary(Areas(ls), Perimeters(ls), Widths(ls), Lengths(ls), Ratios(ls), sqrt)
  }

  /** Mean and StdDev report a column's Σ/n and population deviation. */
  lemma MeanAndDeviation(xs: seq<real>, sqrt: real -> real)
    requires 0 < |xs|
    ensures ColumnStats(Mean(xs), StdDev(xs, sqrt), xs, sqrt)
  {
    var n := |xs| as real;
    assert Mean(xs) * n == Sum(xs);
  }

  /** The summary of a result list's columns summarises the list. */
  lemma SummaryStats(ls: seq<LeafMetric>, sqrt: real -> real)
    requires 0 < |ls|
    ensures Summarises(Summary(Areas(ls), Perimeters(ls), Widths(ls), Lengths(ls), Ratios(ls), sqrt), ls, sqrt)
  {
    var areas, ratios := Areas(ls), Ratios(ls);
    MeanAndDeviation(areas, sqrt);
    MeanAndDeviation(Perimeters(ls), sqrt);
    MeanAndDeviation(Widths(ls), sqrt);
    MeanAndDeviation(Lengths(ls), sqrt);
    assert AverageOf(Mean(ratios), Sum(ratios), |ratios|) by {
      assert Mean(ratios) * |ratios| as real == Sum(ratios);
    }
  }

  lemma SummaryFacts(areas: seq<real>, perimeters: seq<real>, widths: seq<real>,
                     lengths: seq<real>, ratios: seq<real>, sqrt: real -> real)
    requires IsSqrt(sqrt)
    requires 0 < |areas| && |perimeters| == |widths| == |lengths| == |ratios| == |areas|
    ensures ColumnStats(Mean(areas), StdDev(areas, sqrt), areas, sqrt)
    ensures ColumnStats(Mean(perimeters), StdDev(perimeters, sqrt), perimeters, sqrt)
    ensures ColumnStats(Mean(widths), StdDev(widths, sqrt), widths, sqrt)
    ensures ColumnStats(Mean(lengths), StdDev(lengths, sqrt), lengths, sqrt)
    ensures AverageOf(Mean(ratios), Sum(ratios), |ratios|)
    ensures 0.0 <= StdDev(areas, sqrt) && 0.0 <= StdDev(perimeters, sqrt)
         && 0.0 <= StdDev(widths, sqrt) && 0.0 <= StdDev(lengths, sqrt)
    ensures |areas| == 1 ==>
      Mean(areas) == areas[0] && Mean(perimeters) == perimeters[0] && Mean(widths) == widths[0]
      && Mean(lengths) == lengths[0] && Mean(ratios) == ratios[0]
      && StdDev(areas, sqrt) == 0.0 && StdDev(perimeters, sqrt) == 0.0
      && StdDev(widths, sqrt) == 0.0 && StdDev(lengths, sqrt) == 0.0
  {
    MeanAndDeviation(areas, sqrt);
    MeanAndDeviation(perimeters, sqrt);
    MeanAndDeviation(widths, sqrt);
    MeanAndDeviation(lengths, sqrt);
    assert AverageOf(Mean(ratios), Sum(ratios), |ratios|) by {
      assert Mean(ratios) * |ratios| as real == Sum(ratios);
    }
    StdDevBounds(areas, sqrt);
    StdDevBounds(perimeters, sqrt);
    StdDevBounds(widths, sqrt);
    StdDevBounds(lengths, sqrt);
    StdDevBounds(ratios, sqrt);
  }

  // ---------------------------------------------------------------------
  // The Python services' aggregate block: plain numbers, zero without
  // leaves (`np.mean(xs) if n > 0 else 0`).

  datatype NumberMetrics = NumberMetrics(
    totalArea: real,
    averageArea: real,
    standardDeviationArea: real,
    averagePerimeter: real,
    standardDeviationPerimeter: real,
    averageWidth: real,
    standardDeviationWidth: real,
    averageLength: real,
    standardDeviationLength: real,
    averageWidthToLengthRatio: real)

  const ZeroMetrics := NumberMetrics(0.0, 0.0, 0.0, 0.0, 0.0, 0.0, 0.0, 0.0, 0.0, 0.0)

  /** The aggregates over five equally long columns: the total is the sum
      (0 for no leaves), every field is 0 without leaves, otherwise the
      averages are Σ/n of their columns and every deviation is the
      population one (np.std's default) around its average, so
      non-negative; a single leaf gives its own values as averages and zero
      deviations. */
  function NumPyAggregate(areas: seq<real>, perimeters: seq<real>, widths: seq<real>,
                          lengths: seq<real>, ratios: seq<real>, sqrt: real -> real): (r: NumberMetrics)
    requires IsSqrt(sqrt)
    requires |perimeters| == |widths| == |lengths| == |ratios| == |areas|
    ensures |areas| == 0 ==> r == ZeroMetrics
    ensures r.totalArea == Sum(areas)
    ensures 0 < |areas| ==> AverageOf(r.averageArea, r.totalArea, |areas|)
    ensures 0 < |areas| ==>
      && ColumnStats(r.averageArea, r.standardDeviationArea, areas, sqrt)
      && ColumnStats(r.averagePerimeter, r.standardDeviationPerimeter, perimeters, sqrt)
      && ColumnStats(r.averageWidth, r.standardDeviationWidth, widths, sqrt)
      && ColumnStats(r.averageLength, r.standardDeviationLength, lengths, sqrt)
      && AverageOf(r.averageWidthToLengthRatio, Sum(ratios), |ratios|)
    ensures 0.0 <= r.standardDeviationArea && 0.0 <= r.standardDeviationPerimeter
         && 0.0 <= r.standardDeviationWidth && 0.0 <= r.standardDeviationLength
    ensures |areas| == 1 ==>
      r.averageArea == areas[0] && r.averagePerimeter == perimeters[0] && r.averageWidth == widths[0]
      && r.averageLength == lengths[0] && r.averageWidthToLengthRatio == ratios[0]
      && r.standardDeviationArea == 0.0 && r.standardDeviationPerimeter == 0.0
      && r.standardDeviationWidth == 0.0 && r.standardDeviationLength == 0.0
  {
    if |areas| == 0 then ZeroMetrics
    else
      SummaryFacts(areas, perimeters, widths, lengths, ratios, sqrt);
      NumberMetrics(
        Sum(areas), Mean(areas), StdDev(areas, sqrt),
        Mean(perimeters), StdDev(perimeters, sqrt),
        Mean(widths), StdDev(widths, sqrt),
        Mean(lengths), StdDev(lengths, sqrt),
        Mean(ratios))
  }
}
