/** The contour classifier: keep a contour only when its area lies strictly
    between 1000 and 1e10, then call it a reference square when its polygon
    approximation has four vertices, is convex and has near-right corners,
    and a leaf otherwise. The rule exists in several nestings; each is
    written out here and related to the others. */
module Classifier {
  import opened Numeric
  import opened Geometry
  import Seqs

  const MinArea: real := 1000.0
  const MaxArea: real := 10000000000.0
  const CosineLimit: real := 0.3
  const Epsilon: real := 0.0000000001

  datatype Kind = Square | Leaf | Dropped

  /** Which copy of the cosine formula a classifier uses. */
  datatype Formula =
    | TypeScript   // cosineAngle: epsilon added to the root, guard |d| < 1e-10
    | NumPy        // cosine_angle with np.int64: epsilon added to the root, guard d == 0
    | Legacy       // cosine_angle in the oldest service: epsilon inside the root

  predicate InRange(a: real) {
    MinArea < a < MaxArea
  }

  /** d1 . d2 for d1 = pt1 - pt0 and d2 = pt2 - pt0. */
  function Dot(pt1: Point, pt2: Point, pt0: Point): int {
    (pt1.x - pt0.x) * (pt2.x - pt0.x) + (pt1.y - pt0.y) * (pt2.y - pt0.y)
  }

  /** |d1|^2 * |d2|^2. */
  function NormProduct(pt1: Point, pt2: Point, pt0: Point): int {
    var dx1, dy1 := pt1.x - pt0.x, pt1.y - pt0.y;
    var dx2, dy2 := pt2.x - pt0.x, pt2.y - pt0.y;
    (dx1 * dx1 + dy1 * dy1) * (dx2 * dx2 + dy2 * dy2)
  }

  function CosineAngle(pt1: Point, pt2: Point, pt0: Point, sqrt: real -> real): real {
    var denominator := sqrt(NormProduct(pt1, pt2, pt0) as real) + Epsilon;
    if Abs(denominator) < Epsilon then 1.0
    else Dot(pt1, pt2, pt0) as real / denominator
  }

  function CosineAngleNumPy(pt1: Point, pt2: Point, pt0: Point, sqrt: real -> real): real {
    var denominator := sqrt(NormProduct(pt1, pt2, pt0) as real) + Epsilon;
    if denominator == 0.0 then 1.0
    else Dot(pt1, pt2, pt0) as real / denominator
  }

  /** The source divides without a guard; a zero root cannot occur (see
      LegacyDenominatorPositive), and the model returns 0 there only because
      Dafny's division needs a non-zero divisor. */
  function CosineAngleLegacy(pt1: Point, pt2: Point, pt0: Point, sqrt: real -> real): real {
    var denominator := sqrt(NormProduct(pt1, pt2, pt0) as real + Epsilon);
    if denominator == 0.0 then 0.0
    else Dot(pt1, pt2, pt0) as real / denominator
  }

  function Cosine(f: Formula, pt1: Point, pt2: Point, pt0: Point, sqrt: real -> real): real {
    match f
    case TypeScript => CosineAngle(pt1, pt2, pt0, sqrt)
    case NumPy => CosineAngleNumPy(pt1, pt2, pt0, sqrt)
    case Legacy => CosineAngleLegacy(pt1, pt2, pt0, sqrt)
  }

  /** |cosine| of the corner at vertex j - 1, between the edges towards
      vertices j % 4 and j - 2. */
  function Corner(v: seq<Point>, j: int, f: Formula, sqrt: real -> real): real
    requires |v| == 4 && 2 <= j <= 4
  {
    Abs(Cosine(f, v[j % 4], v[j - 2], v[j - 1], sqrt))
  }

  /** The running maximum after the corners j = 2 .. k - 1, starting from 0. */
  function MaxCornerUpTo(v: seq<Point>, k: int, f: Formula, sqrt: real -> real): real
    requires |v| == 4 && 2 <= k <= 5
  {
    if k == 2 then 0.0 else Max(MaxCornerUpTo(v, k - 1, f, sqrt), Corner(v, k - 1, f, sqrt))
  }

  function MaxCornerCosine(v: seq<Point>, f: Formula, sqrt: real -> real): real
    requires |v| == 4
  {
    MaxCornerUpTo(v, 5, f, sqrt)
  }

  /** The `for j in 2..4` loop that keeps the largest |cosine|. */
  method MaxCosine(v: seq<Point>, f: Formula, sqrt: real -> real) returns (maxCosine: real)
    requires |v| == 4
    ensures maxCosine == MaxCornerCosine(v, f, sqrt)
    ensures 0.0 <= maxCosine
    ensures Corner(v, 2, f, sqrt) <= maxCosine && Corner(v, 3, f, sqrt) <= maxCosine
         && Corner(v, 4, f, sqrt) <= maxCosine
    ensures maxCosine == 0.0 || maxCosine == Corner(v, 2, f, sqrt)
         || maxCosine == Corner(v, 3, f, sqrt) || maxCosine == Corner(v, 4, f, sqrt)
  {
    maxCosine := 0.0;
    var j := 2;
    while j < 5
      invariant 2 <= j <= 5
      invariant maxCosine == MaxCornerUpTo(v, j, f, sqrt)
    {
      var cosine := Abs(Cosine(f, v[j % 4], v[j - 2], v[j - 1], sqrt));
      maxCosine := Max(maxCosine, cosine);
      j := j + 1;
    }
    MaxCornerIsMax(v, f, sqrt);
  }

  /** The maximum is below a positive limit iff each checked corner is. */
  lemma MaxCornerBelow(v: seq<Point>, f: Formula, sqrt: real -> real, limit: real)
    requires |v| == 4 && 0.0 < limit
    ensures MaxCornerCosine(v, f, sqrt) < limit
        <==> Corner(v, 2, f, sqrt) < limit && Corner(v, 3, f, sqrt) < limit && Corner(v, 4, f, sqrt) < limit
  {
    MaxCornerIsMax(v, f, sqrt);
  }

  /** The running maximum is the largest of the three corners (and 0). */
  lemma MaxCornerIsMax(v: seq<Point>, f: Formula, sqrt: real -> real)
    requires |v| == 4
    ensures MaxCornerCosine(v, f, sqrt)
         == Max(Max(Max(0.0, Corner(v, 2, f, sqrt)), Corner(v, 3, f, sqrt)), Corner(v, 4, f, sqrt))
  {
    assert MaxCornerUpTo(v, 3, f, sqrt) == Max(0.0, Corner(v, 2, f, sqrt));
    assert MaxCornerUpTo(v, 4, f, sqrt) == Max(MaxCornerUpTo(v, 3, f, sqrt), Corner(v, 3, f, sqrt));
  }

  // ---------------------------------------------------------------------
  // The classification rule in each of its nestings.

  /** The five copies of find_objects: the browser service, the current
      Python service (identical in src/assets/python/python_service.py and
      codigo_python/MainWindow.py), the oldest Python service and the
      desktop test script. */
  datatype Rule = ServiceRule | PythonRule | LegacyRule | ScriptRule

  function FormulaOf(r: Rule): Formula {
    match r
    case ServiceRule => TypeScript
    case PythonRule => NumPy
    case LegacyRule => Legacy
    case ScriptRule => NumPy
  }

  /** The corner test: a quadrilateral whose three checked corners all have
      |cosine| below 0.3. */
  predicate RightAngled(v: seq<Point>, f: Formula, sqrt: real -> real) {
    |v| == 4 && MaxCornerCosine(v, f, sqrt) < CosineLimit
  }

  /** Each rule's nesting of the tests, given the outcome of the corner test
      (which every nesting evaluates only on a convex quadrilateral). */
  function Decide(r: Rule, c: Contour, rightAngled: bool): Kind {
    match r
    // image-analysis.service.ts: range on contourArea as returned, then
    // 4 vertices and convexity, then corners.
    case ServiceRule =>
      if InRange(c.area) then
        if |c.approx| == 4 && c.convex then (if rightAngled then Square else Leaf)
        else Leaf
      else Dropped
    // Python services: 4 vertices, range on |area| and convexity together;
    // the range test repeated in the `elif`.
    case PythonRule | LegacyRule =>
      if |c.approx| == 4 && InRange(Abs(c.area)) && c.convex then
        (if rightAngled then Square else Leaf)
      else if InRange(Abs(c.area)) then Leaf
      else Dropped
    // teste_final.py: range on |area| first.
    case ScriptRule =>
      if InRange(Abs(c.area)) then
        if |c.approx| == 4 && c.convex then (if rightAngled then Square else Leaf)
        else Leaf
      else Dropped
  }

  function KindOf(r: Rule, c: Contour, sqrt: real -> real): Kind {
    Decide(r, c, RightAngled(c.approx, FormulaOf(r), sqrt))
  }

  /** One pass of find_objects: the classification loop over the contours
      in extraction order, appending to the square and leaf lists. */
  method FindObjects(contours: seq<Contour>, r: Rule, sqrt: real -> real)
      returns (squares: seq<Contour>, leaves: seq<Contour>)
    ensures squares == Squares(contours, r, sqrt)
    ensures leaves == Leaves(contours, r, sqrt)
  {
    squares, leaves := [], [];
    var i := 0;
    while i < |contours|
      invariant 0 <= i <= |contours|
      invariant squares == Squares(contours[..i], r, sqrt)
      invariant leaves == Leaves(contours[..i], r, sqrt)
    {
      var cnt := contours[i];
      var rightAngled := false;
      if |cnt.approx| == 4 {
        var maxCosine := MaxCosine(cnt.approx, FormulaOf(r), sqrt);
        rightAngled := maxCosine < CosineLimit;
      }
      var kind := Decide(r, cnt, rightAngled);
      PartitionStep(contours, i, r, sqrt);
      if kind == Square {
        squares := squares + [cnt];
      } else if kind == Leaf {
        leaves := leaves + [cnt];
      }
      i := i + 1;
    }
    assert contours[..i] == contours;
  }

  /** The two output lists of a find_objects pass, in extraction order. */
  function Squares(cs: seq<Contour>, r: Rule, sqrt: real -> real): seq<Contour> {
    Seqs.Filter(cs, c => KindOf(r, c, sqrt) == Square)
  }

  function Leaves(cs: seq<Contour>, r: Rule, sqrt: real -> real): seq<Contour> {
    Seqs.Filter(cs, c => KindOf(r, c, sqrt) == Leaf)
  }

  function Kept(cs: seq<Contour>, r: Rule, sqrt: real -> real): seq<Contour> {
    Seqs.Filter(cs, c => KindOf(r, c, sqrt) != Dropped)
  }

  /** Appending one contour to the scanned prefix extends the lists by at
      most that contour: the step of every find_objects loop. */
  lemma PartitionStep(cs: seq<Contour>, i: nat, r: Rule, sqrt: real -> real)
    requires i < |cs|
    ensures Squares(cs[..i + 1], r, sqrt)
         == Squares(cs[..i], r, sqrt) + (if KindOf(r, cs[i], sqrt) == Square then [cs[i]] else [])
    ensures Leaves(cs[..i + 1], r, sqrt)
         == Leaves(cs[..i], r, sqrt) + (if KindOf(r, cs[i], sqrt) == Leaf then [cs[i]] else [])
  {
    assert cs[..i + 1] == cs[..i] + [cs[i]];
    Seqs.FilterAppend(cs[..i], cs[i], c => KindOf(r, c, sqrt) == Square);
    Seqs.FilterAppend(cs[..i], cs[i], c => KindOf(r, c, sqrt) == Leaf);
  }

  // ---------------------------------------------------------------------
  // Properties of the cosine.

  lemma CauchySchwarz(pt1: Point, pt2: Point, pt0: Point)
    ensures Dot(pt1, pt2, pt0) * Dot(pt1, pt2, pt0) <= NormProduct(pt1, pt2, pt0)
  {
    CauchySchwarz2(pt1.x - pt0.x, pt1.y - pt0.y, pt2.x - pt0.x, pt2.y - pt0.y);
  }

  /** |d1 . d2| <= sqrt(|d1|^2 |d2|^2). */
  lemma DotBelowRoot(pt1: Point, pt2: Point, pt0: Point, sqrt: real -> real)
    requires IsSqrt(sqrt)
    ensures Abs(Dot(pt1, pt2, pt0) as real) <= sqrt(NormProduct(pt1, pt2, pt0) as real)
  {
    CauchySchwarz(pt1, pt2, pt0);
    RootBound(Dot(pt1, pt2, pt0), NormProduct(pt1, pt2, pt0), sqrt);
  }

  /** The `return 1.0` guard of cosineAngle never fires, the two guarded
      formulas agree, and the result is strictly inside (-1, 1). */
  lemma CosineBounded(pt1: Point, pt2: Point, pt0: Point, sqrt: real -> real)
    requires IsSqrt(sqrt)
    ensures sqrt(NormProduct(pt1, pt2, pt0) as real) + Epsilon >= Epsilon
    ensures CosineAngle(pt1, pt2, pt0, sqrt)
         == Dot(pt1, pt2, pt0) as real / (sqrt(NormProduct(pt1, pt2, pt0) as real) + Epsilon)
    ensures CosineAngleNumPy(pt1, pt2, pt0, sqrt) == CosineAngle(pt1, pt2, pt0, sqrt)
    ensures Abs(CosineAngle(pt1, pt2, pt0, sqrt)) < 1.0
  {
    var p := NormProduct(pt1, pt2, pt0);
    CauchySchwarz(pt1, pt2, pt0);
    DotBelowRoot(pt1, pt2, pt0, sqrt);
    QuotientBelowOne(Dot(pt1, pt2, pt0) as real, sqrt(p as real) + Epsilon);
  }

  /** A zero-length side gives cosine 0. */
  lemma CosineZeroSide(pt1: Point, pt2: Point, pt0: Point, f: Formula, sqrt: real -> real)
    requires IsSqrt(sqrt)
    requires pt1 == pt0 || pt2 == pt0
    ensures Cosine(f, pt1, pt2, pt0, sqrt) == 0.0
  {
    assert NormProduct(pt1, pt2, pt0) == 0;
    SqrtOfZero(sqrt);
  }

  /** The unguarded division of the oldest formula never divides by zero. */
  lemma LegacyDenominatorPositive(pt1: Point, pt2: Point, pt0: Point, sqrt: real -> real)
    requires IsSqrt(sqrt)
    ensures 0.0 < sqrt(NormProduct(pt1, pt2, pt0) as real + Epsilon)
  {
    CauchySchwarz(pt1, pt2, pt0);
    SqrtPositive(sqrt, NormProduct(pt1, pt2, pt0) as real + Epsilon);
  }

  /** The oldest formula is also strictly inside (-1, 1). */
  lemma LegacyCosineBounded(pt1: Point, pt2: Point, pt0: Point, sqrt: real -> real)
    requires IsSqrt(sqrt)
    ensures Abs(CosineAngleLegacy(pt1, pt2, pt0, sqrt)) < 1.0
  {
    var p := NormProduct(pt1, pt2, pt0) as real;
    LegacyDenominatorPositive(pt1, pt2, pt0, sqrt);
    DotBelowRoot(pt1, pt2, pt0, sqrt);
    CauchySchwarz(pt1, pt2, pt0);
    SqrtStrictMonotone(sqrt, p, p + Epsilon);
    QuotientBelowOne(Dot(pt1, pt2, pt0) as real, sqrt(p + Epsilon));
  }

  /** The oldest formula never reports a smaller |cosine| than the NumPy one:
      its denominator sqrt(P + eps) is at most sqrt(P) + eps once P >= 1,
      and P == 0 forces a zero dot product. */
  lemma LegacyDominatesNumPy(pt1: Point, pt2: Point, pt0: Point, sqrt: real -> real)
    requires IsSqrt(sqrt)
    ensures Abs(CosineAngleNumPy(pt1, pt2, pt0, sqrt)) <= Abs(CosineAngleLegacy(pt1, pt2, pt0, sqrt))
  {
    var dot, p := Dot(pt1, pt2, pt0), NormProduct(pt1, pt2, pt0);
    CauchySchwarz(pt1, pt2, pt0);
    CosineBounded(pt1, pt2, pt0, sqrt);
    LegacyDenominatorPositive(pt1, pt2, pt0, sqrt);
    if p == 0 {
      ZeroSquare(dot);
    } else {
      ShiftedRootDominates(dot as real, p as real, sqrt);
    }
  }

  /** Adding the epsilon under the root gives a smaller divisor than adding
      it after the root, once the radicand is at least one. */
  lemma ShiftedRootDominates(n: real, radicand: real, sqrt: real -> real)
    requires IsSqrt(sqrt) && 1.0 <= radicand
    ensures 0.0 < sqrt(radicand + Epsilon) <= sqrt(radicand) + Epsilon
    ensures Abs(n / (sqrt(radicand) + Epsilon)) <= Abs(n / sqrt(radicand + Epsilon))
  {
    var root, dN, dL := sqrt(radicand), sqrt(radicand) + Epsilon, sqrt(radicand + Epsilon);
    assert 1.0 <= root by {
      SqrtUnique(sqrt, 1.0, 1.0);
      SqrtMonotone(sqrt, 1.0, radicand);
    }
    SqrtPositive(sqrt, radicand + Epsilon);
    assert dL <= dN by {
      assert dL * dL == radicand + Epsilon;
      assert root * root == radicand;
      assert dN * dN == radicand + 2.0 * Epsilon * root + Epsilon * Epsilon;
      SquareLeSquare(dL, dN);
    }
    AbsQuotient(n, dN);
    AbsQuotient(n, dL);
    QuotientAntitone(Abs(n), dL, dN);
  }

  /** Under a true square root the guarded TypeScript and NumPy formulas
      give the same corner maximum. */
  lemma TypeScriptNumPyAgree(v: seq<Point>, sqrt: real -> real)
    requires IsSqrt(sqrt) && |v| == 4
    ensures MaxCornerCosine(v, TypeScript, sqrt) == MaxCornerCosine(v, NumPy, sqrt)
  {
    CosineBounded(v[2], v[0], v[1], sqrt);
    CosineBounded(v[3], v[1], v[2], sqrt);
    CosineBounded(v[0], v[2], v[3], sqrt);
    MaxCornerIsMax(v, TypeScript, sqrt);
    MaxCornerIsMax(v, NumPy, sqrt);
  }

  /** A quadrilateral that passes the oldest corner test passes the NumPy one. */
  lemma LegacyCornersPassNumPy(v: seq<Point>, sqrt: real -> real)
    requires IsSqrt(sqrt) && |v| == 4
    ensures MaxCornerCosine(v, NumPy, sqrt) <= MaxCornerCosine(v, Legacy, sqrt)
  {
    LegacyDominatesNumPy(v[2], v[0], v[1], sqrt);
    LegacyDominatesNumPy(v[3], v[1], v[2], sqrt);
    LegacyDominatesNumPy(v[0], v[2], v[3], sqrt);
    MaxCornerIsMax(v, NumPy, sqrt);
    MaxCornerIsMax(v, Legacy, sqrt);
  }

  // ---------------------------------------------------------------------
  // The nestings agree.

  /** Testing the range first or repeating it in the `elif` classifies
      every contour the same way. */
  lemma PythonMatchesScript(c: Contour, sqrt: real -> real)
    ensures KindOf(PythonRule, c, sqrt) == KindOf(ScriptRule, c, sqrt)
  {
  }

  /** The browser service and the desktop script agree on every contour
      OpenCV can produce (contourArea without orientation is never negative). */
  lemma ServiceMatchesScript(c: Contour, sqrt: real -> real)
    requires IsSqrt(sqrt) && Traced(c)
    ensures KindOf(ServiceRule, c, sqrt) == KindOf(ScriptRule, c, sqrt)
  {
    if |c.approx| == 4 {
      TypeScriptNumPyAgree(c.approx, sqrt);
    }
  }

  /** The oldest service finds a subset of the squares of the current one and
      drops the same contours. */
  lemma LegacyRefinesPython(c: Contour, sqrt: real -> real)
    requires IsSqrt(sqrt)
    ensures KindOf(LegacyRule, c, sqrt) == Square ==> KindOf(PythonRule, c, sqrt) == Square
    ensures KindOf(PythonRule, c, sqrt) == Leaf ==> KindOf(LegacyRule, c, sqrt) == Leaf
    ensures KindOf(LegacyRule, c, sqrt) == Dropped <==> KindOf(PythonRule, c, sqrt) == Dropped
  {
    if |c.approx| == 4 {
      LegacyCornersPassNumPy(c.approx, sqrt);
    }
  }

  /** Every rule drops exactly the contours whose area is out of range. */
  lemma DroppedIffOutOfRange(r: Rule, c: Contour, sqrt: real -> real)
    requires Traced(c)
    ensures KindOf(r, c, sqrt) == Dropped <==> !InRange(c.area)
  {
  }

  /** Every rule calls a contour a square exactly when its area is in range,
      its approximation is a convex quadrilateral and each of the three
      checked corners has |cosine| below 0.3. */
  lemma SquareIff(r: Rule, c: Contour, sqrt: real -> real)
    requires Traced(c)
    ensures KindOf(r, c, sqrt) == Square
        <==> InRange(c.area) && |c.approx| == 4 && c.convex
             && Corner(c.approx, 2, FormulaOf(r), sqrt) < CosineLimit
             && Corner(c.approx, 3, FormulaOf(r), sqrt) < CosineLimit
             && Corner(c.approx, 4, FormulaOf(r), sqrt) < CosineLimit
  {
    if |c.approx| == 4 {
      MaxCornerBelow(c.approx, FormulaOf(r), sqrt, CosineLimit);
    }
  }

  /** The squares and leaves are in extraction order, do not overlap, and
      together hold exactly the in-range contours. */
  lemma Partition(cs: seq<Contour>, r: Rule, sqrt: real -> real)
    ensures Seqs.IsSubsequence(Squares(cs, r, sqrt), cs)
    ensures Seqs.IsSubsequence(Leaves(cs, r, sqrt), cs)
    ensures multiset(Squares(cs, r, sqrt)) + multiset(Leaves(cs, r, sqrt)) == multiset(Kept(cs, r, sqrt))
    ensures forall c :: c in Squares(cs, r, sqrt) ==> c in cs && KindOf(r, c, sqrt) == Square
    ensures forall c :: c in Leaves(cs, r, sqrt) ==> c in cs && KindOf(r, c, sqrt) == Leaf
  {
    var isSquare := c => KindOf(r, c, sqrt) == Square;
    var isLeaf := c => KindOf(r, c, sqrt) == Leaf;
    Seqs.FilterIsSubsequence(cs, isSquare);
    Seqs.FilterIsSubsequence(cs, isLeaf);
    Seqs.FilterSplit(cs, isSquare, isLeaf, c => KindOf(r, c, sqrt) != Dropped);
    forall c | c in Squares(cs, r, sqrt)
      ensures c in cs && KindOf(r, c, sqrt) == Square
    {
      Seqs.FilterMembership(cs, isSquare, c);
    }
    forall c | c in Leaves(cs, r, sqrt)
      ensures c in cs && KindOf(r, c, sqrt) == Leaf
    {
      Seqs.FilterMembership(cs, isLeaf, c);
    }
  }

  /** A reference square has a positive area and perimeter, so the scale
      computed from it never divides by zero. */
  lemma SquareHasPositiveSize(r: Rule, c: Contour, sqrt: real -> real)
    requires Traced(c) && KindOf(r, c, sqrt) == Square
    ensures MinArea < c.area && 0.0 < c.perimeter && 0 < |c.points|
  {
  }
}
