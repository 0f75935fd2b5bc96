/** What the browser service draws on a result image: which contours are
    outlined, which numbers are written and where. Pixels, fonts and the
    PNG encoding are not modelled; an image is its base picture plus the
    ordered list of marks drawn over it. */
module Drawing {
  import opened Wrappers
  import opened Numeric
  import opened Geometry
  import opened Metrics
  import Seqs

  /** A cv.Scalar colour, channel order as written in the source. */
  datatype Color = Color(c0: int, c1: int, c2: int, c3: int)

  const SquareColor := Color(0, 255, 0, 255)
  const SquareThickness := 3
  const LeafColor := Color(0, 0, 255, 255)
  const LeafThickness := 4
  const TextColor := Color(255, 0, 0, 255)
  const TextThickness := 6
  /** The number is written 25 pixels left of and 25 below the centroid. */
  const TextShift := 25

  datatype Mark =
    | Outline(points: seq<Point>, color: Color, thickness: int)   // drawContours
    | Number(number: int, origin: Point, color: Color, thickness: int) // putText
    | Badge(number: int, center: Point)                              // canvas circle + text

  datatype Picture = Picture(base: string, marks: seq<Mark>)

  /** Outcome of an asynchronous drawing call. */
  datatype Drawn = Resolved(image: Option<Picture>) | Rejected(message: string)

  const ContoursLoadError := "Falha ao carregar imagem para desenhar contours com OpenCV"
  const LabelsLoadError := "Falha ao carregar imagem para desenhar labels"

  function NumberAt(number: int, cx: int, cy: int): Mark {
    Number(number, Point(cx - TextShift, cy + TextShift), TextColor, TextThickness)
  }

  // ---------------------------------------------------------------------
  // processImageDirect: the first drawing of an analysis.

  function SquareMarks(squares: seq<Contour>): (r: seq<Mark>)
    ensures |r| == |squares|
    ensures forall i :: 0 <= i < |squares| ==> r[i] == Outline(squares[i].points, SquareColor, SquareThickness)
  {
    seq(|squares|, i requires 0 <= i < |squares| => Outline(squares[i].points, SquareColor, SquareThickness))
  }

  /** A leaf whose moments give a centroid (m00 != 0, which every leaf kept
      by the classifier has). */
  predicate HasArea(c: Contour) {
    c.m00 != 0.0
  }

  /** Leaf i (from 0) is outlined and numbered i + 1 at its rounded
      centroid, shifted by TextShift. */
  function LeafMarks(leaves: seq<Contour>): (r: seq<Mark>)
    requires forall i :: 0 <= i < |leaves| ==> HasArea(leaves[i])
    ensures |r| == 2 * |leaves|
  {
    if |leaves| == 0 then []
    else
      var n := |leaves|;
      var leaf := leaves[n - 1];
      assert HasArea(leaf);
      LeafMarks(leaves[..n - 1])
        + [Outline(leaf.points, LeafColor, LeafThickness), CentroidNumber(leaf, n)]
  }

  /** The number written for leaf `n` (from 1) at its rounded centroid. */
  function CentroidNumber(leaf: Contour, n: int): Mark
    requires HasArea(leaf)
  {
    NumberAt(n, RoundHalfUp(leaf.m10 / leaf.m00), RoundHalfUp(leaf.m01 / leaf.m00))
  }

  /** Leaf i's outline sits at 2i and its number i + 1 at 2i + 1. */
  lemma {:induction false} LeafMarksAt(leaves: seq<Contour>, i: int)
    requires forall j :: 0 <= j < |leaves| ==> HasArea(leaves[j])
    requires 0 <= i < |leaves|
    ensures LeafMarks(leaves)[2 * i] == Outline(leaves[i].points, LeafColor, LeafThickness)
    ensures LeafMarks(leaves)[2 * i + 1] == CentroidNumber(leaves[i], i + 1)
  {
    var n := |leaves|;
    if i < n - 1 {
      var init := leaves[..n - 1];
      assert init[i] == leaves[i];
      LeafMarksAt(init, i);
    }
  }

  /** The squares first (in the order given), then every leaf. */
  method DrawAnalysis(image: string, squares: seq<Contour>, leaves: seq<Contour>) returns (p: Picture)
    requires forall i :: 0 <= i < |leaves| ==> HasArea(leaves[i])
    ensures p == Picture(image, SquareMarks(squares) + LeafMarks(leaves))
    ensures p.base == image && |p.marks| == |squares| + 2 * |leaves|
    ensures forall k :: 0 <= k < |squares| ==>
      p.marks[k] == Outline(squares[k].points, SquareColor, SquareThickness)
    ensures forall i :: 0 <= i < |leaves| ==>
      && p.marks[|squares| + 2 * i] == Outline(leaves[i].points, LeafColor, LeafThickness)
      && p.marks[|squares| + 2 * i + 1] == CentroidNumber(leaves[i], i + 1)
  {
    var marks: seq<Mark> := [];
    for k := 0 to |squares|
      invariant marks == SquareMarks(squares[..k])
    {
      assert squares[..k + 1][..k] == squares[..k];
      marks := marks + [Outline(squares[k].points, SquareColor, SquareThickness)];
    }
    assert squares[..|squares|] == squares;
    var i := 0;
    while i < |leaves|
      invariant 0 <= i <= |leaves|
      invariant marks == SquareMarks(squares) + LeafMarks(leaves[..i])
    {
      var leaf := leaves[i];
      var cX := RoundHalfUp(leaf.m10 / leaf.m00);
      var cY := RoundHalfUp(leaf.m01 / leaf.m00);
      assert leaves[..i + 1][..i] == leaves[..i];
      marks := marks + [Outline(leaf.points, LeafColor, LeafThickness), NumberAt(i + 1, cX, cY)];
      i := i + 1;
    }
    assert leaves[..i] == leaves;
    p := Picture(image, marks);
    forall i | 0 <= i < |leaves|
      ensures p.marks[|squares| + 2 * i] == Outline(leaves[i].points, LeafColor, LeafThickness)
      ensures p.marks[|squares| + 2 * i + 1] == CentroidNumber(leaves[i], i + 1)
    {
      LeafMarksAt(leaves, i);
    }
  }

  // ---------------------------------------------------------------------
  // drawContoursAndLabelsOnImage: redraw from stored snapshots.

  /** A result entry that still carries a non-empty contour snapshot. */
  predicate HasContour(lf: LeafMetric) {
    lf.contour.Some? && |lf.contour.value| > 0
  }

  /** Entry i (from 0) with a snapshot: its outline and the number i + 1
      at (cx ?? 0, cy ?? 0) shifted as in the first drawing. */
  function RedrawOne(lf: LeafMetric, i: int): seq<Mark> {
    if !HasContour(lf) then []
    else [Outline(Unflatten(lf.contour.value), LeafColor, LeafThickness),
          NumberAt(i + 1, lf.cx.GetOr(0), lf.cy.GetOr(0))]
  }

  function RedrawMarks(ls: seq<LeafMetric>): (r: seq<Mark>)
    ensures |r| <= 2 * |ls|
  {
    if |ls| == 0 then [] else RedrawMarks(ls[..|ls| - 1]) + RedrawOne(ls[|ls| - 1], |ls| - 1)
  }

  method DrawContoursAndLabels(image: string, loads: bool, ls: seq<LeafMetric>) returns (r: Drawn)
    ensures image == "" ==> r == Resolved(None)
    ensures image != "" && !loads ==> r == Rejected(ContoursLoadError)
    ensures image != "" && loads ==> r == Resolved(Some(Picture(image, RedrawMarks(ls))))
  {
    if image == "" {
      return Resolved(None);
    }
    if !loads {
      return Rejected(ContoursLoadError);
    }
    var marks: seq<Mark> := [];
    var i := 0;
    while i < |ls|
      invariant 0 <= i <= |ls|
      invariant marks == RedrawMarks(ls[..i])
    {
      var lf := ls[i];
      assert ls[..i + 1][..i] == ls[..i];
      if lf.contour.Some? && |lf.contour.value| != 0 {
        var pts := Unflatten(lf.contour.value);
        var cX := lf.cx.GetOr(0);
        var cY := lf.cy.GetOr(0);
        marks := marks + [Outline(pts, LeafColor, LeafThickness), NumberAt(i + 1, cX, cY)];
      }
      i := i + 1;
    }
    assert ls[..i] == ls;
    r := Resolved(Some(Picture(image, marks)));
  }

  /** The redraw outlines exactly the entries with a snapshot, two marks
      each; RedrawAt says which marks they are. */
  lemma {:induction false} RedrawCount(ls: seq<LeafMetric>)
    ensures |RedrawMarks(ls)| == 2 * |Seqs.Filter(ls, HasContour)|
  {
    if |ls| > 0 {
      RedrawCount(ls[..|ls| - 1]);
    }
  }

  /** Where entry i's marks start in the redraw: after two marks for each
      earlier entry that has a contour. */
  function RedrawStart(ls: seq<LeafMetric>, i: nat): nat
    requires i <= |ls|
  {
    2 * |Seqs.Filter(ls[..i], HasContour)|
  }

  /** Entry i with a contour is redrawn right after the entries before it
      that have one: its own outline, then the number i + 1, whatever id
      it stores. */
  lemma {:induction false} RedrawAt(ls: seq<LeafMetric>, i: nat)
    requires i < |ls| && HasContour(ls[i])
    ensures RedrawStart(ls, i) + 2 <= |RedrawMarks(ls)|
    ensures RedrawMarks(ls)[RedrawStart(ls, i)..RedrawStart(ls, i) + 2] == RedrawOne(ls[i], i)
  {
    var n := |ls|;
    var init := ls[..n - 1];
    var before := RedrawMarks(init);
    var last := RedrawOne(ls[n - 1], n - 1);
    assert RedrawMarks(ls) == before + last;
    if i == n - 1 {
      assert ls[..i] == init;
      RedrawCount(init);
      assert RedrawStart(ls, i) == |before|;
    } else {
      assert init[..i] == ls[..i] && init[i] == ls[i];
      assert RedrawStart(init, i) == RedrawStart(ls, i);
      RedrawAt(init, i);
      Seqs.SliceOfLeft(before, last, RedrawStart(ls, i), 2);
    }
  }

  // ---------------------------------------------------------------------
  // drawLabelsOnImage: the fallback that only writes numbers.

  predicate HasCentroid(lf: LeafMetric) {
    lf.cx.Some? && lf.cy.Some?
  }

  function BadgeOf(lf: LeafMetric): Mark
    requires HasCentroid(lf)
  {
    Badge(lf.id, Point(lf.cx.value, lf.cy.value))
  }

  function LabelMarks(ls: seq<LeafMetric>): (r: seq<Mark>)
    ensures |r| <= |ls|
  {
    if |ls| == 0 then []
    else
      var lf := ls[|ls| - 1];
      LabelMarks(ls[..|ls| - 1]) + (if HasCentroid(lf) then [BadgeOf(lf)] else [])
  }

  method DrawLabels(image: string, loads: bool, ls: seq<LeafMetric>) returns (r: Drawn)
    ensures image == "" ==> r == Resolved(None)
    ensures image != "" && !loads ==> r == Rejected(LabelsLoadError)
    ensures image != "" && loads ==> r == Resolved(Some(Picture(image, LabelMarks(ls))))
  {
    if image == "" {
      return Resolved(None);
    }
    if !loads {
      return Rejected(LabelsLoadError);
    }
    var marks: seq<Mark> := [];
    for i := 0 to |ls|
      invariant marks == LabelMarks(ls[..i])
    {
      var lf := ls[i];
      assert ls[..i + 1][..i] == ls[..i];
      if lf.cx.None? || lf.cy.None? {
        continue;
      }
      marks := marks + [Badge(lf.id, Point(lf.cx.value, lf.cy.value))];
    }
    assert ls[..|ls|] == ls;
    r := Resolved(Some(Picture(image, marks)));
  }

  /** The fallback draws one badge per entry with a centroid, in list order,
      labelled with the entry's own id. */
  lemma {:induction false} LabelsAreFilteredIds(ls: seq<LeafMetric>)
    ensures var kept := Seqs.Filter(ls, HasCentroid);
      |LabelMarks(ls)| == |kept|
      && forall k :: 0 <= k < |kept| ==> HasCentroid(kept[k]) && LabelMarks(ls)[k] == BadgeOf(kept[k])
  {
    if |ls| > 0 {
      var init := ls[..|ls| - 1];
      LabelsAreFilteredIds(init);
      Seqs.FilterAppend(init, ls[|ls| - 1], HasCentroid);
      assert init + [ls[|ls| - 1]] == ls;
    }
  }
}
