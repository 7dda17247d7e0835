/**
 * Grid geometry of the dashboard: a 4-column grid whose rows are 80 px high and
 * whose cells are separated by a 16 px gap.  Spans are converted to pixel
 * extents, and a live pixel size is converted back to the nearest span by a
 * linear scan in increasing span order in which only a strictly smaller
 * distance replaces the best so far.  Pixel quantities are exact reals.
 */
module GridGeometry {

  const ROW_HEIGHT: int := 80
  const GAP: int := 16

  /** Number of columns a widget covers. */
  type ColumnSpan = s: int | 1 <= s <= 4 witness 1

  /** Number of rows a widget covers. */
  type RowSpan = s: int | 1 <= s <= 6 witness 1

  /** Width of one column of a grid `gridWidth` pixels wide: four columns and three gaps fill the grid. */
  function ColumnWidth(gridWidth: real): (w: real)
    ensures 4.0 * w + (GAP * 3) as real == gridWidth
  {
    (gridWidth - (GAP * 3) as real) / 4.0
  }

  /** Pixel width of a widget covering `span` columns: a column and a gap per column, less the last gap. */
  function WidthForSpan(gridWidth: real, span: ColumnSpan): real
  {
    ColumnWidth(gridWidth) * span as real + (GAP * (span - 1)) as real
  }

  /** Pixel height of a widget covering `span` rows: a row and a gap per row, less the last gap. */
  function HeightForSpan(span: RowSpan): real
  {
    (ROW_HEIGHT * span + GAP * (span - 1)) as real
  }

  /** `Math.abs(x - e)`. */
  function Diff(x: real, e: real): (d: real)
    ensures d >= 0.0
    ensures d == x - e || d == e - x
  {
    if x - e < 0.0 then e - x else x - e
  }

  /** The extents of spans 1..4, in scan order: entry `s - 1` belongs to span `s`. */
  function ColumnExtents(gridWidth: real): (e: seq<real>)
    ensures |e| == 4
    ensures forall s: ColumnSpan :: e[s - 1] == WidthForSpan(gridWidth, s)
  {
    [WidthForSpan(gridWidth, 1), WidthForSpan(gridWidth, 2),
     WidthForSpan(gridWidth, 3), WidthForSpan(gridWidth, 4)]
  }

  /** The extents of spans 1..6, in scan order: entry `s - 1` belongs to span `s`. */
  function RowExtents(): (e: seq<real>)
    ensures |e| == 6
    ensures forall s: RowSpan :: e[s - 1] == HeightForSpan(s)
  {
    [HeightForSpan(1), HeightForSpan(2), HeightForSpan(3),
     HeightForSpan(4), HeightForSpan(5), HeightForSpan(6)]
  }

  /**
   * Span `k` (1-based) is the answer of the scan over `extents` for `x`: no
   * candidate is strictly closer to `x`, and every lower candidate is strictly
   * farther (ties go to the lower span).
   */
  predicate IsNearest(extents: seq<real>, x: real, k: int)
  {
    && 1 <= k <= |extents|
    && (forall j :: 0 <= j < |extents| ==> Diff(x, extents[k - 1]) <= Diff(x, extents[j]))
    && (forall j :: 0 <= j < k - 1 ==> Diff(x, extents[j]) > Diff(x, extents[k - 1]))
  }

  /**
   * The scan as a left fold: the answer for all candidates is the answer for
   * all but the last, unless the last is strictly closer.
   */
  function Closest(extents: seq<real>, x: real): (k: int)
    requires |extents| > 0
    ensures IsNearest(extents, x, k)
    decreases |extents|
  {
    if |extents| == 1 then 1
    else
      var k := Closest(extents[..|extents| - 1], x);
      if Diff(x, extents[|extents| - 1]) < Diff(x, extents[k - 1]) then |extents| else k
  }

  /** One more step of the scan: the prefix of length `i + 1` extends the prefix of length `i`. */
  lemma ClosestStep(extents: seq<real>, x: real, i: nat)
    requires 0 < i < |extents|
    ensures var k := Closest(extents[..i], x);
      Closest(extents[..i + 1], x) == if Diff(x, extents[i]) < Diff(x, extents[k - 1]) then i + 1 else k
  {
    assert extents[..i + 1][..i] == extents[..i];
  }

  /**
   * The scan loop's state after the first `i` candidates: `hasMin` says
   * whether any candidate has been seen (`minDiff` is still `Infinity`
   * otherwise), and then `best` is the scan's answer so far and `minDiff` its
   * distance.
   */
  predicate ScanState(extents: seq<real>, x: real, i: nat, best: int, minDiff: real, hasMin: bool)
    requires i <= |extents|
  {
    && (hasMin <==> i > 0)
    && (i > 0 ==> best == Closest(extents[..i], x) && minDiff == Diff(x, extents[best - 1]))
  }

  /**
   * One iteration of the scan loop: the update `if (diff < minDiff)` takes the
   * state over `i` candidates to the state over `i + 1`.
   */
  lemma ScanStep(extents: seq<real>, x: real, i: nat, best: int, minDiff: real, hasMin: bool)
    requires i < |extents| && ScanState(extents, x, i, best, minDiff, hasMin)
    ensures var diff := Diff(x, extents[i]);
      if !hasMin || diff < minDiff then ScanState(extents, x, i + 1, i + 1, diff, true)
      else ScanState(extents, x, i + 1, best, minDiff, true)
  {
    if i > 0 {
      ClosestStep(extents, x, i);
    }
  }

  /** At most one span is the answer of a scan. */
  lemma NearestUnique(extents: seq<real>, x: real, k1: int, k2: int)
    requires IsNearest(extents, x, k1) && IsNearest(extents, x, k2)
    ensures k1 == k2
  {
    var d1, d2 := Diff(x, extents[k1 - 1]), Diff(x, extents[k2 - 1]);
    assert k1 < k2 ==> d2 < d1;
    assert k2 < k1 ==> d1 < d2;
  }

  /** `Closest` is characterised by `IsNearest`, in both directions. */
  lemma ClosestIff(extents: seq<real>, x: real, k: int)
    requires |extents| > 0
    ensures Closest(extents, x) == k <==> IsNearest(extents, x, k)
  {
    if IsNearest(extents, x, k) {
      NearestUnique(extents, x, k, Closest(extents, x));
    }
  }

  /** The column span nearest to a live width (`getColSpanFromWidth`). */
  function NearestColSpan(gridWidth: real, width: real): (span: ColumnSpan)
    ensures IsNearest(ColumnExtents(gridWidth), width, span)
  {
    Closest(ColumnExtents(gridWidth), width)
  }

  /** The row span nearest to a live height (`getRowSpanFromHeight`). */
  function NearestRowSpan(height: real): (span: RowSpan)
    ensures IsNearest(RowExtents(), height, span)
  {
    Closest(RowExtents(), height)
  }

  /**
   * The scan of `getColSpanFromWidth`.  `hasMin == false` stands for the
   * initial `minDiff = Infinity`: the first candidate always replaces it.
   */
  method ColSpanFromWidth(gridWidth: real, width: real) returns (closestSpan: ColumnSpan)
    ensures closestSpan == NearestColSpan(gridWidth, width)
    ensures forall s: ColumnSpan ::
      Diff(width, WidthForSpan(gridWidth, closestSpan)) <= Diff(width, WidthForSpan(gridWidth, s))
    ensures forall s: ColumnSpan :: s < closestSpan ==>
      Diff(width, WidthForSpan(gridWidth, s)) > Diff(width, WidthForSpan(gridWidth, closestSpan))
  {
    var spans: seq<ColumnSpan> := [1, 2, 3, 4];
    ghost var extents := ColumnExtents(gridWidth);
    assert forall j :: 0 <= j < |spans| ==> spans[j] == j + 1;
    closestSpan := 1;
    var minDiff := 0.0;
    var hasMin := false;
    for i := 0 to |spans|
      invariant forall j :: 0 <= j < |spans| ==> spans[j] == j + 1
      invariant ScanState(extents, width, i, closestSpan, minDiff, hasMin)
    {
      var span := spans[i];
      var spanWidth := WidthForSpan(gridWidth, span);
      var diff := Diff(width, spanWidth);
      assert extents[i] == spanWidth;
      ScanStep(extents, width, i, closestSpan, minDiff, hasMin);
      if !hasMin || diff < minDiff {
        minDiff := diff;
        closestSpan := span;
        hasMin := true;
      }
    }
    assert extents[..4] == extents;
  }

  /** The scan of `getRowSpanFromHeight`; its initial span 2 is always replaced. */
  method RowSpanFromHeight(height: real) returns (closestSpan: RowSpan)
    ensures closestSpan == NearestRowSpan(height)
    ensures forall s: RowSpan ::
      Diff(height, HeightForSpan(closestSpan)) <= Diff(height, HeightForSpan(s))
    ensures forall s: RowSpan :: s < closestSpan ==>
      Diff(height, HeightForSpan(s)) > Diff(height, HeightForSpan(closestSpan))
  {
    var spans: seq<RowSpan> := [1, 2, 3, 4, 5, 6];
    ghost var extents := RowExtents();
    assert forall j :: 0 <= j < |spans| ==> spans[j] == j + 1;
    closestSpan := 2;
    var minDiff := 0.0;
    var hasMin := false;
    for i := 0 to |spans|
      invariant forall j :: 0 <= j < |spans| ==> spans[j] == j + 1
      invariant ScanState(extents, height, i, closestSpan, minDiff, hasMin)
    {
      var span := spans[i];
      var spanHeight := HeightForSpan(span);
      var diff := Diff(height, spanHeight);
      assert extents[i] == spanHeight;
      ScanStep(extents, height, i, closestSpan, minDiff, hasMin);
      if !hasMin || diff < minDiff {
        minDiff := diff;
        closestSpan := span;
        hasMin := true;
      }
    }
    assert extents[..6] == extents;
  }

  // ---------------------------------------------------------------------------
  // Properties of the geometry

  /** A widget spanning all four columns is exactly as wide as the grid. */
  lemma FullSpanIsGridWidth(gridWidth: real)
    ensures WidthForSpan(gridWidth, 4) == gridWidth
  {
  }

  /** Widths grow strictly with the span exactly when the grid is wider than -16 px. */
  lemma WidthsIncreasingIff(gridWidth: real)
    ensures (forall a: ColumnSpan, b: ColumnSpan :: a < b ==>
               WidthForSpan(gridWidth, a) < WidthForSpan(gridWidth, b))
            <==> gridWidth > -16.0
  {
    if gridWidth > -16.0 {
      forall a: ColumnSpan, b: ColumnSpan | a < b
        ensures WidthForSpan(gridWidth, a) < WidthForSpan(gridWidth, b)
      {
        WidthStep(gridWidth, a, b);
      }
    } else {
      assert !(WidthForSpan(gridWidth, 1) < WidthForSpan(gridWidth, 2));
    }
  }

  /** The difference of two span widths, in closed form. */
  lemma WidthStep(gridWidth: real, a: ColumnSpan, b: ColumnSpan)
    ensures WidthForSpan(gridWidth, b) - WidthForSpan(gridWidth, a)
            == (b - a) as real * ((gridWidth + 16.0) / 4.0)
  {
  }

  /** Heights grow strictly with the span, whatever the grid width. */
  lemma HeightsIncreasing(a: RowSpan, b: RowSpan)
    requires a < b
    ensures HeightForSpan(a) < HeightForSpan(b)
  {
  }

  /** Three rows are 272 px high. */
  lemma HeightOfThreeRows()
    ensures HeightForSpan(3) == 272.0
  {
  }

  /** Span widths are pairwise distinct unless the grid is exactly -16 px wide. */
  lemma WidthsDistinct(gridWidth: real, a: ColumnSpan, b: ColumnSpan)
    requires gridWidth != -16.0 && a != b
    ensures WidthForSpan(gridWidth, a) != WidthForSpan(gridWidth, b)
  {
    WidthStep(gridWidth, a, b);
    var d := (gridWidth + 16.0) / 4.0;
    assert d != 0.0;
    assert (b - a) as real != 0.0;
    assert (b - a) as real * d != 0.0;
  }

  /** Converting a span to its width and back gives the same span. */
  lemma ColumnRoundTrip(gridWidth: real, k: ColumnSpan)
    requires gridWidth != -16.0
    ensures NearestColSpan(gridWidth, WidthForSpan(gridWidth, k)) == k
  {
    var e := ColumnExtents(gridWidth);
    var x := WidthForSpan(gridWidth, k);
    forall j | 0 <= j < 4 && j != k - 1
      ensures Diff(x, e[j]) > 0.0
    {
      WidthsDistinct(gridWidth, j + 1, k);
    }
    assert IsNearest(e, x, k);
    ClosestIff(e, x, k);
  }

  /** On a grid exactly -16 px wide all spans are 16 px wide, so every width maps to span 1. */
  lemma ColumnsCollapse(gridWidth: real, width: real)
    requires gridWidth == -16.0
    ensures NearestColSpan(gridWidth, width) == 1
  {
    var e := ColumnExtents(gridWidth);
    assert e == [-16.0, -16.0, -16.0, -16.0];
    assert IsNearest(e, width, 1);
    ClosestIff(e, width, 1);
  }

  /** Converting a row span to its height and back gives the same span. */
  lemma RowRoundTrip(k: RowSpan)
    ensures NearestRowSpan(HeightForSpan(k)) == k
  {
    var e := RowExtents();
    var x := HeightForSpan(k);
    forall j | 0 <= j < 6 && j != k - 1
      ensures Diff(x, e[j]) > 0.0
    {
      assert e[j] == HeightForSpan(j + 1);
    }
    assert IsNearest(e, x, k);
    ClosestIff(e, x, k);
  }

  /**
   * A point half a step past a grid point is at least half a step from every
   * grid point up to three steps away, and strictly farther when that point
   * lies behind it.
   */
  lemma HalfStepOffset(t: real, m: int)
    requires t != 0.0 && -3 <= m <= 3
    ensures Diff(m as real * t + t / 2.0, 0.0) >= Diff(t / 2.0, 0.0)
    ensures m > 0 ==> Diff(m as real * t + t / 2.0, 0.0) > Diff(t / 2.0, 0.0)
  {
    if m == -3 {
      assert m as real * t == -3.0 * t;
    } else if m == -2 {
      assert m as real * t == -2.0 * t;
    } else if m == -1 {
      assert m as real * t == -t;
    } else if m == 1 {
      assert m as real * t == t;
    } else if m == 2 {
      assert m as real * t == 2.0 * t;
    } else if m == 3 {
      assert m as real * t == 3.0 * t;
    }
  }

  /** A width exactly halfway between two neighbouring span widths maps to the lower span. */
  lemma ColumnTieGoesLow(gridWidth: real, k: ColumnSpan)
    requires gridWidth != -16.0 && k < 4
    ensures NearestColSpan(gridWidth, (WidthForSpan(gridWidth, k) + WidthForSpan(gridWidth, k + 1)) / 2.0) == k
  {
    var e := ColumnExtents(gridWidth);
    var x := (WidthForSpan(gridWidth, k) + WidthForSpan(gridWidth, k + 1)) / 2.0;
    var t := (gridWidth + 16.0) / 4.0;
    WidthStep(gridWidth, k, k + 1);
    assert x == e[k - 1] + t / 2.0;
    forall j | 0 <= j < 4
      ensures Diff(x, e[k - 1]) <= Diff(x, e[j])
      ensures j < k - 1 ==> Diff(x, e[j]) > Diff(x, e[k - 1])
    {
      WidthStep(gridWidth, j + 1, k);
      var m := k - 1 - j;
      assert x - e[j] == m as real * t + t / 2.0;
      HalfStepOffset(t, m);
    }
    assert IsNearest(e, x, k);
    ClosestIff(e, x, k);
  }

  /** A height exactly halfway between two neighbouring span heights maps to the lower span. */
  lemma RowTieGoesLow(k: RowSpan)
    requires k < 6
    ensures NearestRowSpan((HeightForSpan(k) + HeightForSpan(k + 1)) / 2.0) == k
  {
    var e := RowExtents();
    var x := (HeightForSpan(k) + HeightForSpan(k + 1)) / 2.0;
    assert IsNearest(e, x, k);
    ClosestIff(e, x, k);
  }

  /** Strictly increasing extents. */
  predicate Increasing(extents: seq<real>)
  {
    forall i, j :: 0 <= i < j < |extents| ==> extents[i] < extents[j]
  }

  /**
   * If `x` is strictly closer to the higher of two extents, so is every `y >= x`.
   */
  lemma StrictPreferenceKept(lo: real, hi: real, x: real, y: real)
    requires lo < hi && x <= y
    requires Diff(x, lo) > Diff(x, hi)
    ensures Diff(y, lo) > Diff(y, hi)
  {
  }

  /** Over increasing extents the scan's answer never decreases as the input grows. */
  lemma ClosestMonotone(extents: seq<real>, x: real, y: real)
    requires |extents| > 0 && Increasing(extents) && x <= y
    ensures Closest(extents, x) <= Closest(extents, y)
  {
    var k := Closest(extents, x);
    var m := Closest(extents, y);
    forall j | 0 <= j < k - 1
      ensures Diff(y, extents[j]) > Diff(y, extents[k - 1])
    {
      StrictPreferenceKept(extents[j], extents[k - 1], x, y);
    }
  }

  /** A wider live width never gives fewer columns (for a grid wider than -16 px). */
  lemma NearestColSpanMonotone(gridWidth: real, w1: real, w2: real)
    requires gridWidth > -16.0 && w1 <= w2
    ensures NearestColSpan(gridWidth, w1) <= NearestColSpan(gridWidth, w2)
  {
    WidthsIncreasingIff(gridWidth);
    var e := ColumnExtents(gridWidth);
    assert Increasing(e) by {
      forall i, j | 0 <= i < j < 4 ensures e[i] < e[j] {
        assert WidthForSpan(gridWidth, i + 1) < WidthForSpan(gridWidth, j + 1);
      }
    }
    ClosestMonotone(e, w1, w2);
  }

  /** A taller live height never gives fewer rows. */
  lemma NearestRowSpanMonotone(h1: real, h2: real)
    requires h1 <= h2
    ensures NearestRowSpan(h1) <= NearestRowSpan(h2)
  {
    var e := RowExtents();
    assert Increasing(e) by {
      forall i, j | 0 <= i < j < 6 ensures e[i] < e[j] {
        HeightsIncreasing(i + 1, j + 1);
      }
    }
    ClosestMonotone(e, h1, h2);
  }
}
