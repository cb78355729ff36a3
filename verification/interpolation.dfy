/** The performance interpolation engine: a takeoff or landing chart indexed by
    pressure altitude and temperature, read at an arbitrary point by clamping the
    point to the chart, bracketing it between grid lines, refusing when a corner
    of the bracketing cell is not printed, and interpolating bilinearly. */
module Interpolation {
  import opened Basics

  /** One printed chart entry: ground roll and total distance over a 50 ft
      obstacle, both in feet. */
  datatype Distances = Distances(roll: real, clear50: real)

  /** A chart: pressure-altitude grid lines (ft), temperature grid lines (deg C),
      and `data[altitude index][temperature index]`, `None` where the chart
      prints no value (outside the certified envelope). */
  datatype Table = Table(alts: seq<real>, temps: seq<real>, data: seq<seq<Option<Distances>>>)

  predicate StrictlyIncreasing(g: seq<real>) {
    forall i, j :: 0 <= i < j < |g| ==> g[i] < g[j]
  }

  /** The charts the engine is written for: at least two grid lines on each
      axis, both axes strictly increasing, one cell per (altitude, temperature). */
  predicate WellFormed(t: Table) {
    && |t.alts| >= 2
    && |t.temps| >= 2
    && StrictlyIncreasing(t.alts)
    && StrictlyIncreasing(t.temps)
    && |t.data| == |t.alts|
    && forall i :: 0 <= i < |t.data| ==> |t.data[i]| == |t.temps|
  }

  function Min4(a: real, b: real, c: real, d: real): real { Min(Min(a, b), Min(c, d)) }

  function Max4(a: real, b: real, c: real, d: real): real { Max(Max(a, b), Max(c, d)) }

  /** `Math.max(lo, Math.min(hi, v))`: saturate `v` to the closed interval [lo, hi]. */
  function Clamp(v: real, lo: real, hi: real): (r: real)
    ensures lo <= hi ==> lo <= r <= hi
    ensures lo <= v <= hi ==> r == v
    ensures v <= lo ==> r == lo
    ensures lo <= hi <= v ==> r == hi
  {
    Max(lo, Min(hi, v))
  }

  /** A query value saturated to the first and last grid line of an axis. */
  function ClampToGrid(g: seq<real>, v: real): real
    requires |g| >= 1
  {
    Clamp(v, g[0], g[|g| - 1])
  }

  /** Interval `i` of a grid is [g[i-1], g[i]]. `Encloses(g, v, i)` says that the
      bracketing rule assigns `v` to interval `i`: `v` lies in it, and it is the
      first interval containing `v`, so a value on an interior grid line belongs
      to the interval that ends there, and the first grid line to interval 1. */
  predicate Encloses(g: seq<real>, v: real, i: int) {
    && 1 <= i < |g|
    && g[i - 1] <= v <= g[i]
    && (i == 1 || g[i - 1] < v)
  }

  /** On a strictly increasing grid at most one interval encloses a value. */
  lemma EnclosingIntervalUnique(g: seq<real>, v: real, i: int, j: int)
    requires StrictlyIncreasing(g)
    requires Encloses(g, v, i) && Encloses(g, v, j)
    ensures i == j
  {
  }

  /** The source's bracketing rule: the first grid index whose line is at or
      above `v`; -1 (nothing found) becomes the last index, and 0 becomes 1, so
      the bracket never degenerates to a single line. */
  function BracketIndex(g: seq<real>, v: real): (idx: int)
    requires |g| >= 2
    ensures 1 <= idx < |g|
    ensures StrictlyIncreasing(g) && g[0] <= v <= g[|g| - 1] ==> Encloses(g, v, idx)
    ensures v <= g[0] ==> idx == 1
    ensures (forall i :: 0 <= i < |g| ==> g[i] < v) ==> idx == |g| - 1
  {
    var k := FindIndex(g, a => a >= v);
    var k' := if k == -1 then |g| - 1 else k;
    if k' == 0 then 1 else k'
  }

  /** Where `v` sits within interval `i`: 0 at its lower line, 1 at its upper line. */
  function Fraction(g: seq<real>, i: int, v: real): (f: real)
    requires StrictlyIncreasing(g) && 1 <= i < |g|
    ensures g[i - 1] <= v <= g[i] ==> 0.0 <= f <= 1.0
    ensures v == g[i - 1] ==> f == 0.0
    ensures v == g[i] ==> f == 1.0
    ensures f * (g[i] - g[i - 1]) == v - g[i - 1]
  {
    var w := g[i] - g[i - 1];
    assert w > 0.0;
    var f := (v - g[i - 1]) / w;
    assert f * w == v - g[i - 1];
    f
  }

  /** Linear interpolation from `a` (at f = 0) to `b` (at f = 1). */
  function Lerp(a: real, b: real, f: real): (r: real)
    ensures r - a == f * (b - a)
  {
    var r := a * (1.0 - f) + b * f;
    assert r - a == f * (b - a);
    r
  }

  lemma LerpEnds(a: real, b: real, f: real)
    ensures f == 0.0 ==> Lerp(a, b, f) == a
    ensures f == 1.0 ==> Lerp(a, b, f) == b
  {
  }

  /** For a fraction in [0, 1] a linear blend never leaves its two ends. */
  lemma LerpStaysBetween(a: real, b: real, f: real)
    requires 0.0 <= f <= 1.0
    ensures Min(a, b) <= Lerp(a, b, f) <= Max(a, b)
  {
    var d := b - a;
    assert a * (1.0 - f) + b * f == a + f * d;
    if d >= 0.0 {
      ProductNonNegative(f, d);
      ProductNonNegative(1.0 - f, d);
      assert d - f * d == (1.0 - f) * d;
    } else {
      ProductNonNegative(f, -d);
      ProductNonNegative(1.0 - f, -d);
      assert f * d - d == (1.0 - f) * (-d);
    }
  }

  /** The source's `bilinear`: interpolate along the altitude axis on both
      temperature lines, then along the temperature axis. `q11` sits at the
      lower altitude and lower temperature, `q12` at the lower altitude and
      upper temperature, `q21` at the upper altitude and lower temperature. */
  function Bilinear(q11: real, q12: real, q21: real, q22: real, fx: real, fy: real): (r: real)
    ensures fx == 0.0 && fy == 0.0 ==> r == q11
    ensures fx == 1.0 && fy == 0.0 ==> r == q21
    ensures fx == 0.0 && fy == 1.0 ==> r == q12
    ensures fx == 1.0 && fy == 1.0 ==> r == q22
    ensures 0.0 <= fx <= 1.0 && 0.0 <= fy <= 1.0 ==>
      Min4(q11, q12, q21, q22) <= r <= Max4(q11, q12, q21, q22)
  {
    var low := Lerp(q11, q21, fx);
    var high := Lerp(q12, q22, fx);
    var r := Lerp(low, high, fy);
    LerpEnds(q11, q21, fx);
    LerpEnds(q12, q22, fx);
    LerpEnds(low, high, fy);
    assert 0.0 <= fx <= 1.0 && 0.0 <= fy <= 1.0 ==>
      Min4(q11, q12, q21, q22) <= r <= Max4(q11, q12, q21, q22) by {
      if 0.0 <= fx <= 1.0 && 0.0 <= fy <= 1.0 {
        LerpStaysBetween(q11, q21, fx);
        LerpStaysBetween(q12, q22, fx);
        LerpStaysBetween(low, high, fy);
        CornerSpread(q11, q12, q21, q22, low, high);
      }
    }
    r
  }

  /** Values between each pair of opposite corners keep their own spread
      within the spread of all four corners. */
  lemma CornerSpread(q11: real, q12: real, q21: real, q22: real, low: real, high: real)
    requires Min(q11, q21) <= low <= Max(q11, q21)
    requires Min(q12, q22) <= high <= Max(q12, q22)
    ensures Min4(q11, q12, q21, q22) <= Min(low, high)
    ensures Max(low, high) <= Max4(q11, q12, q21, q22)
  {
  }

  /** A cell of the chart by altitude row and temperature column. */
  function Cell(t: Table, row: int, col: int): Option<Distances>
    requires WellFormed(t) && 0 <= row < |t.alts| && 0 <= col < |t.temps|
  {
    t.data[row][col]
  }

  /** All four corners of the grid cell spanned by intervals `i` (altitude) and `j` (temperature) are printed. */
  predicate CornersPresent(t: Table, i: int, j: int)
    requires WellFormed(t) && 1 <= i < |t.alts| && 1 <= j < |t.temps|
  {
    && Cell(t, i - 1, j - 1).Some?
    && Cell(t, i - 1, j).Some?
    && Cell(t, i, j - 1).Some?
    && Cell(t, i, j).Some?
  }

  /** Both outputs interpolated within the grid cell (i, j) at (alt, temp), with
      one pair of fractions shared by ground roll and 50 ft distance. */
  function Blend(t: Table, i: int, j: int, alt: real, temp: real): (d: Distances)
    requires WellFormed(t) && 1 <= i < |t.alts| && 1 <= j < |t.temps|
    requires CornersPresent(t, i, j)
    ensures alt == t.alts[i - 1] && temp == t.temps[j - 1] ==> d == Cell(t, i - 1, j - 1).value
    ensures alt == t.alts[i - 1] && temp == t.temps[j] ==> d == Cell(t, i - 1, j).value
    ensures alt == t.alts[i] && temp == t.temps[j - 1] ==> d == Cell(t, i, j - 1).value
    ensures alt == t.alts[i] && temp == t.temps[j] ==> d == Cell(t, i, j).value
    ensures t.alts[i - 1] <= alt <= t.alts[i] && t.temps[j - 1] <= temp <= t.temps[j] ==>
      WithinCorners(t, i, j, d)
  {
    var fx := Fraction(t.alts, i, alt);
    var fy := Fraction(t.temps, j, temp);
    var q11 := Cell(t, i - 1, j - 1).value;
    var q12 := Cell(t, i - 1, j).value;
    var q21 := Cell(t, i, j - 1).value;
    var q22 := Cell(t, i, j).value;
    Distances(Bilinear(q11.roll, q12.roll, q21.roll, q22.roll, fx, fy),
              Bilinear(q11.clear50, q12.clear50, q21.clear50, q22.clear50, fx, fy))
  }

  /** What a reading of chart `t` at (pAlt, temp) must be: with the point
      clamped to the chart and (i, j) the grid cell enclosing it, the answer is
      available exactly when all four corners of that cell are printed, and is
      then the bilinear blend of those corners. */
  ghost predicate Answers(t: Table, pAlt: real, temp: real, r: Option<Distances>)
    requires WellFormed(t)
  {
    var a := ClampToGrid(t.alts, pAlt);
    var b := ClampToGrid(t.temps, temp);
    forall i, j | Encloses(t.alts, a, i) && Encloses(t.temps, b, j) ::
      && (r.Some? <==> CornersPresent(t, i, j))
      && (r.Some? ==> r.value == Blend(t, i, j, a, b))
  }

  /** The source's `getInterpolatedPerformance`: `None` for a missing chart
      and for a query whose bracketing cell has an unprinted corner. */
  function Interpolate(table: Option<Table>, pAlt: real, temp: real): (r: Option<Distances>)
    requires table.Some? ==> WellFormed(table.value)
    ensures table.None? ==> r.None?
    ensures table.Some? ==> Answers(table.value, pAlt, temp, r)
  {
    match table
    case None => None
    case Some(t) =>
      var a := ClampToGrid(t.alts, pAlt);
      var b := ClampToGrid(t.temps, temp);
      var i := BracketIndex(t.alts, a);
      var j := BracketIndex(t.temps, b);
      assert forall i', j' | Encloses(t.alts, a, i') && Encloses(t.temps, b, j') :: i' == i && j' == j by {
        forall i', j' | Encloses(t.alts, a, i') && Encloses(t.temps, b, j')
          ensures i' == i && j' == j
        {
          EnclosingIntervalUnique(t.alts, a, i, i');
          EnclosingIntervalUnique(t.temps, b, j, j');
        }
      }
      if CornersPresent(t, i, j) then Some(Blend(t, i, j, a, b)) else None
  }

  // ---------------------------------------------------------------------------
  // Properties of a reading

  /** A reading of a well-formed chart, restated at the cell the bracketing rule picks. */
  lemma ReadingAtBracket(t: Table, pAlt: real, temp: real)
    requires WellFormed(t)
    ensures var a := ClampToGrid(t.alts, pAlt);
      var b := ClampToGrid(t.temps, temp);
      var i := BracketIndex(t.alts, a);
      var j := BracketIndex(t.temps, b);
      && Encloses(t.alts, a, i) && Encloses(t.temps, b, j)
      && Interpolate(Some(t), pAlt, temp)
         == if CornersPresent(t, i, j) then Some(Blend(t, i, j, a, b)) else None
  {
    assert t.alts[0] < t.alts[|t.alts| - 1];
    assert t.temps[0] < t.temps[|t.temps| - 1];
  }

  /** A reading of a query already inside the chart, at the cell enclosing it. */
  lemma ReadingInCell(t: Table, a: real, b: real, i: int, j: int)
    requires WellFormed(t)
    requires ClampToGrid(t.alts, a) == a && ClampToGrid(t.temps, b) == b
    requires Encloses(t.alts, a, i) && Encloses(t.temps, b, j)
    ensures Interpolate(Some(t), a, b) == if CornersPresent(t, i, j) then Some(Blend(t, i, j, a, b)) else None
  {
    assert Answers(t, a, b, Interpolate(Some(t), a, b));
  }

  /** Clamping: the chart is read at the clamped point, so a query beyond an
      edge of the chart reads the same as one on that edge. */
  lemma ClampedQueryReadsBoundary(t: Table, pAlt: real, temp: real)
    requires WellFormed(t)
    ensures Interpolate(Some(t), pAlt, temp)
         == Interpolate(Some(t), ClampToGrid(t.alts, pAlt), ClampToGrid(t.temps, temp))
    ensures pAlt <= t.alts[0] ==>
      Interpolate(Some(t), pAlt, temp) == Interpolate(Some(t), t.alts[0], temp)
    ensures t.alts[|t.alts| - 1] <= pAlt ==>
      Interpolate(Some(t), pAlt, temp) == Interpolate(Some(t), t.alts[|t.alts| - 1], temp)
    ensures temp <= t.temps[0] ==>
      Interpolate(Some(t), pAlt, temp) == Interpolate(Some(t), pAlt, t.temps[0])
    ensures t.temps[|t.temps| - 1] <= temp ==>
      Interpolate(Some(t), pAlt, temp) == Interpolate(Some(t), pAlt, t.temps[|t.temps| - 1])
  {
    var aLo, aHi := t.alts[0], t.alts[|t.alts| - 1];
    var bLo, bHi := t.temps[0], t.temps[|t.temps| - 1];
    assert aLo < aHi && bLo < bHi;
    ReadsAtClampedPoint(t, pAlt, temp);
    if pAlt <= aLo {
      SameClampedPoint(t, pAlt, temp, aLo, temp);
    }
    if aHi <= pAlt {
      SameClampedPoint(t, pAlt, temp, aHi, temp);
    }
    if temp <= bLo {
      SameClampedPoint(t, pAlt, temp, pAlt, bLo);
    }
    if bHi <= temp {
      SameClampedPoint(t, pAlt, temp, pAlt, bHi);
    }
  }

  /** Two queries that clamp to the same point read the same. */
  lemma SameClampedPoint(t: Table, p1: real, q1: real, p2: real, q2: real)
    requires WellFormed(t)
    requires ClampToGrid(t.alts, p1) == ClampToGrid(t.alts, p2)
    requires ClampToGrid(t.temps, q1) == ClampToGrid(t.temps, q2)
    ensures Interpolate(Some(t), p1, q1) == Interpolate(Some(t), p2, q2)
  {
    ReadsAtClampedPoint(t, p1, q1);
    ReadsAtClampedPoint(t, p2, q2);
  }

  lemma ReadsAtClampedPoint(t: Table, pAlt: real, temp: real)
    requires WellFormed(t)
    ensures Interpolate(Some(t), pAlt, temp)
         == Interpolate(Some(t), ClampToGrid(t.alts, pAlt), ClampToGrid(t.temps, temp))
  {
    assert t.alts[0] < t.alts[|t.alts| - 1];
    assert t.temps[0] < t.temps[|t.temps| - 1];
  }

  /** The interval a grid line is assigned to: interval 1 for the first line,
      otherwise the interval that ends on it. */
  function IntervalOfLine(i: nat): nat { if i == 0 then 1 else i }

  lemma GridLineEnclosed(g: seq<real>, i: nat)
    requires |g| >= 2 && StrictlyIncreasing(g) && i < |g|
    ensures Encloses(g, g[i], IntervalOfLine(i))
    ensures ClampToGrid(g, g[i]) == g[i]
    ensures Fraction(g, IntervalOfLine(i), g[i]) == if i == 0 then 0.0 else 1.0
  {
    assert g[0] <= g[i] <= g[|g| - 1] by {
      if 0 < i { assert g[0] < g[i]; }
      if i < |g| - 1 { assert g[i] < g[|g| - 1]; }
    }
  }

  /** Exactness at grid points: on a pair of grid lines the reading is the
      printed cell itself, whenever the cell it brackets into is complete. */
  lemma GridPointExact(t: Table, i: nat, j: nat)
    requires WellFormed(t) && i < |t.alts| && j < |t.temps|
    ensures var r := Interpolate(Some(t), t.alts[i], t.temps[j]);
      && (r.Some? <==> CornersPresent(t, IntervalOfLine(i), IntervalOfLine(j)))
      && (r.Some? ==> r == t.data[i][j])
  {
    GridLineEnclosed(t.alts, i);
    GridLineEnclosed(t.temps, j);
  }

  /** Both outputs of a reading lie within the corresponding outputs of the
      four corners of the enclosing cell. */
  predicate WithinCorners(t: Table, i: int, j: int, d: Distances)
    requires WellFormed(t) && 1 <= i < |t.alts| && 1 <= j < |t.temps|
    requires CornersPresent(t, i, j)
  {
    var q11 := Cell(t, i - 1, j - 1).value;
    var q12 := Cell(t, i - 1, j).value;
    var q21 := Cell(t, i, j - 1).value;
    var q22 := Cell(t, i, j).value;
    && Min4(q11.roll, q12.roll, q21.roll, q22.roll) <= d.roll <= Max4(q11.roll, q12.roll, q21.roll, q22.roll)
    && Min4(q11.clear50, q12.clear50, q21.clear50, q22.clear50) <= d.clear50
    && d.clear50 <= Max4(q11.clear50, q12.clear50, q21.clear50, q22.clear50)
  }

  /** Bounds: an available reading never leaves the range of the four corners
      it was interpolated from (no extrapolation). */
  lemma ReadingWithinCorners(t: Table, pAlt: real, temp: real, i: int, j: int)
    requires WellFormed(t)
    requires Encloses(t.alts, ClampToGrid(t.alts, pAlt), i)
    requires Encloses(t.temps, ClampToGrid(t.temps, temp), j)
    requires Interpolate(Some(t), pAlt, temp).Some?
    ensures CornersPresent(t, i, j)
    ensures WithinCorners(t, i, j, Interpolate(Some(t), pAlt, temp).value)
  {
  }

  // ---------------------------------------------------------------------------
  // Monotonicity along altitude

  /** The two outputs of a chart cell, named so one proof covers both. */
  datatype Channel = GroundRoll | Over50ft

  function Pick(d: Distances, c: Channel): real {
    match c
    case GroundRoll => d.roll
    case Over50ft => d.clear50
  }

  /** In every temperature column, of any two printed cells the one at the
      higher altitude has both outputs at least those of the lower (true of
      both C150N charts). */
  predicate RisesWithAltitude(t: Table)
    requires WellFormed(t)
  {
    forall i1, i2, j, c: Channel ::
      0 <= i1 < i2 < |t.alts| && 0 <= j < |t.temps| && t.data[i1][j].Some? && t.data[i2][j].Some? ==>
        Pick(t.data[i1][j].value, c) <= Pick(t.data[i2][j].value, c)
  }

  /** Every cell of the chart is printed (true of the C150N landing chart). */
  predicate FullyPrinted(t: Table)
    requires WellFormed(t)
  {
    forall i, j :: 0 <= i < |t.alts| && 0 <= j < |t.temps| ==> t.data[i][j].Some?
  }

  /** If cell (i, j) is printed, so is the one below it, and output `c` does
      not drop from row i-1 to row i. */
  predicate ColumnStep(t: Table, i: int, j: int, c: Channel)
    requires WellFormed(t) && 1 <= i < |t.alts| && 0 <= j < |t.temps|
  {
    t.data[i][j].Some? ==>
      && t.data[i - 1][j].Some?
      && Pick(t.data[i - 1][j].value, c) <= Pick(t.data[i][j].value, c)
  }

  /** Each column's printed cells run up from sea level without a gap and rise
      between neighbouring rows. */
  predicate RisesRowByRow(t: Table)
    requires WellFormed(t)
  {
    forall i, j, c: Channel :: 1 <= i < |t.alts| && 0 <= j < |t.temps| ==> ColumnStep(t, i, j, c)
  }

  lemma {:induction false} ColumnRises(t: Table, j: int, c: Channel, i1: int, i2: int)
    requires WellFormed(t) && RisesRowByRow(t)
    requires 0 <= j < |t.temps| && 0 <= i1 <= i2 < |t.alts| && t.data[i2][j].Some?
    ensures t.data[i1][j].Some?
    ensures Pick(t.data[i1][j].value, c) <= Pick(t.data[i2][j].value, c)
    decreases i2 - i1
  {
    if i1 < i2 {
      assert ColumnStep(t, i2, j, c);
      ColumnRises(t, j, c, i1, i2 - 1);
    }
  }

  /** Neighbouring rows suffice: rising row by row is rising between any two rows. */
  lemma RowByRowSuffices(t: Table)
    requires WellFormed(t) && RisesRowByRow(t)
    ensures RisesWithAltitude(t)
  {
    forall i1, i2, j, c: Channel | 0 <= i1 < i2 < |t.alts| && 0 <= j < |t.temps| && t.data[i1][j].Some? && t.data[i2][j].Some?
      ensures Pick(t.data[i1][j].value, c) <= Pick(t.data[i2][j].value, c)
    {
      ColumnRises(t, j, c, i1, i2);
    }
  }

  /** Row `k` of a complete chart interpolated along temperature interval `j`. */
  function RowValue(t: Table, k: int, j: int, fy: real, c: Channel): real
    requires WellFormed(t) && 0 <= k < |t.alts| && 1 <= j < |t.temps|
    requires t.data[k][j - 1].Some? && t.data[k][j].Some?
  {
    Lerp(Pick(t.data[k][j - 1].value, c), Pick(t.data[k][j].value, c), fy)
  }

  lemma LerpMonotoneInFraction(a: real, b: real, f1: real, f2: real)
    requires a <= b && f1 <= f2
    ensures Lerp(a, b, f1) <= Lerp(a, b, f2)
  {
    ProductNonNegative(f2 - f1, b - a);
    assert Lerp(a, b, f2) - Lerp(a, b, f1) == (f2 - f1) * (b - a);
  }

  lemma LerpMonotoneInEnds(a: real, b: real, a': real, b': real, f: real)
    requires a <= a' && b <= b' && 0.0 <= f <= 1.0
    ensures Lerp(a, b, f) <= Lerp(a', b', f)
  {
    ProductNonNegative(1.0 - f, a' - a);
    ProductNonNegative(f, b' - b);
    assert Lerp(a', b', f) - Lerp(a, b, f) == (1.0 - f) * (a' - a) + f * (b' - b);
  }

  lemma FractionMonotone(g: seq<real>, i: int, v1: real, v2: real)
    requires StrictlyIncreasing(g) && 1 <= i < |g| && v1 <= v2
    ensures Fraction(g, i, v1) <= Fraction(g, i, v2)
  {
    var w := g[i] - g[i - 1];
    assert w > 0.0;
    assert Fraction(g, i, v2) - Fraction(g, i, v1) == (v2 - v1) / w;
    QuotientNonNegative(v2 - v1, w);
  }

  lemma EnclosingIntervalMonotone(g: seq<real>, v1: real, v2: real, i1: int, i2: int)
    requires StrictlyIncreasing(g) && v1 <= v2
    requires Encloses(g, v1, i1) && Encloses(g, v2, i2)
    ensures i1 <= i2
  {
  }

  /** Bilinear interpolation is the same whichever axis is interpolated first. */
  lemma BilinearByRows(q11: real, q12: real, q21: real, q22: real, fx: real, fy: real)
    ensures Bilinear(q11, q12, q21, q22, fx, fy) == Lerp(Lerp(q11, q12, fy), Lerp(q21, q22, fy), fx)
  {
    var d1, e1 := q21 - q11, q12 - q11;
    var twist := (q22 - q12) - (q21 - q11);
    // Altitude first.
    var l1, l2 := Lerp(q11, q21, fx), Lerp(q12, q22, fx);
    LerpFrom(q11, q21, fx, d1);
    LerpDifference(q11, q21, q12, q22, fx, twist);
    LerpFrom(l1, l2, fy, e1 + fx * twist);
    // Temperature first.
    var m1, m2 := Lerp(q11, q12, fy), Lerp(q21, q22, fy);
    LerpFrom(q11, q12, fy, e1);
    LerpDifference(q11, q12, q21, q22, fy, twist);
    LerpFrom(m1, m2, fx, d1 + fy * twist);
    var byAlt, byTemp := Lerp(l1, l2, fy), Lerp(m1, m2, fx);
    BothOrders(q11, fx, fy, d1, e1, twist, l1, m1, byAlt, byTemp);
    assert Bilinear(q11, q12, q21, q22, fx, fy) == byAlt;
  }

  /** A linear blend moves from its start by the fraction of a given span. */
  lemma LerpFrom(a: real, b: real, f: real, span: real)
    requires b - a == span
    ensures Lerp(a, b, f) == a + f * span
  {
  }

  /** Two linear blends with one fraction differ by the difference of their
      starts plus that fraction of the change `w` in their spans. */
  lemma LerpDifference(a: real, b: real, c: real, d: real, f: real, w: real)
    requires (d - c) - (b - a) == w
    ensures Lerp(c, d, f) - Lerp(a, b, f) == (c - a) + f * w
  {
    Distributes(f, d - c, b - a);
  }

  /** The two orders of expanding a bilinear blend agree: from `q`, `x` of `d`
      then `y` of the rest, against `y` of `e` then `x` of the rest. */
  lemma BothOrders(q: real, x: real, y: real, d: real, e: real, w: real,
                   l: real, m: real, byX: real, byY: real)
    requires l == q + x * d && byX == l + y * (e + x * w)
    requires m == q + y * e && byY == m + x * (d + y * w)
    ensures byX == byY
  {
    Distributes(y, e, x * w);
    Distributes(x, d, y * w);
    Commutes(x, y, w);
  }

  lemma Distributes(x: real, a: real, b: real)
    ensures x * (a - b) == x * a - x * b
    ensures x * (a + b) == x * a + x * b
  {
  }

  lemma Commutes(x: real, y: real, z: real)
    ensures x * (y * z) == y * (x * z)
  {
  }

  lemma BlendByRows(t: Table, i: int, j: int, a: real, b: real, c: Channel)
    requires WellFormed(t) && 1 <= i < |t.alts| && 1 <= j < |t.temps|
    requires CornersPresent(t, i, j)
    ensures Pick(Blend(t, i, j, a, b), c)
         == Lerp(RowValue(t, i - 1, j, Fraction(t.temps, j, b), c),
                 RowValue(t, i, j, Fraction(t.temps, j, b), c),
                 Fraction(t.alts, i, a))
  {
    var q11 := Cell(t, i - 1, j - 1).value;
    var q12 := Cell(t, i - 1, j).value;
    var q21 := Cell(t, i, j - 1).value;
    var q22 := Cell(t, i, j).value;
    BilinearByRows(Pick(q11, c), Pick(q12, c), Pick(q21, c), Pick(q22, c),
                   Fraction(t.alts, i, a), Fraction(t.temps, j, b));
  }

  lemma RowsRise(t: Table, k1: int, k2: int, j: int, fy: real, c: Channel)
    requires WellFormed(t) && RisesWithAltitude(t)
    requires 0 <= k1 <= k2 < |t.alts| && 1 <= j < |t.temps| && 0.0 <= fy <= 1.0
    requires t.data[k1][j - 1].Some? && t.data[k1][j].Some?
    requires t.data[k2][j - 1].Some? && t.data[k2][j].Some?
    ensures RowValue(t, k1, j, fy, c) <= RowValue(t, k2, j, fy, c)
  {
    if k1 < k2 {
      LerpMonotoneInEnds(Pick(t.data[k1][j - 1].value, c), Pick(t.data[k1][j].value, c),
                         Pick(t.data[k2][j - 1].value, c), Pick(t.data[k2][j].value, c), fy);
    }
  }

  /** In a chart rising with altitude, the blend in interval `i1` at `a1` is at
      most the blend in interval `i2` at `a2` for `a1 <= a2`, at one
      temperature, whenever both cells have their corners printed. */
  lemma BlendRises(t: Table, i1: int, i2: int, j: int, a1: real, a2: real, b: real, c: Channel)
    requires WellFormed(t) && RisesWithAltitude(t)
    requires Encloses(t.alts, a1, i1) && Encloses(t.alts, a2, i2) && a1 <= a2
    requires Encloses(t.temps, b, j)
    requires CornersPresent(t, i1, j) && CornersPresent(t, i2, j)
    ensures Pick(Blend(t, i1, j, a1, b), c) <= Pick(Blend(t, i2, j, a2, b), c)
  {
    EnclosingIntervalMonotone(t.alts, a1, a2, i1, i2);
    if i1 == i2 {
      BlendRisesInCell(t, i1, j, a1, a2, b, c);
    } else {
      BlendRisesAcrossCells(t, i1, i2, j, a1, a2, b, c);
    }
  }

  lemma BlendRisesInCell(t: Table, i: int, j: int, a1: real, a2: real, b: real, c: Channel)
    requires WellFormed(t) && RisesWithAltitude(t)
    requires 1 <= i < |t.alts| && 1 <= j < |t.temps| && a1 <= a2
    requires Encloses(t.temps, b, j) && CornersPresent(t, i, j)
    ensures Pick(Blend(t, i, j, a1, b), c) <= Pick(Blend(t, i, j, a2, b), c)
  {
    var fy := Fraction(t.temps, j, b);
    BlendByRows(t, i, j, a1, b, c);
    BlendByRows(t, i, j, a2, b, c);
    RowsRise(t, i - 1, i, j, fy, c);
    FractionMonotone(t.alts, i, a1, a2);
    LerpMonotoneInFraction(RowValue(t, i - 1, j, fy, c), RowValue(t, i, j, fy, c),
      Fraction(t.alts, i, a1), Fraction(t.alts, i, a2));
  }

  lemma BlendRisesAcrossCells(t: Table, i1: int, i2: int, j: int, a1: real, a2: real, b: real, c: Channel)
    requires WellFormed(t) && RisesWithAltitude(t)
    requires Encloses(t.alts, a1, i1) && Encloses(t.alts, a2, i2) && i1 < i2
    requires Encloses(t.temps, b, j)
    requires CornersPresent(t, i1, j) && CornersPresent(t, i2, j)
    ensures Pick(Blend(t, i1, j, a1, b), c) <= Pick(Blend(t, i2, j, a2, b), c)
  {
    var fy := Fraction(t.temps, j, b);
    var lo1 := RowValue(t, i1 - 1, j, fy, c);
    var hi1 := RowValue(t, i1, j, fy, c);
    var lo2 := RowValue(t, i2 - 1, j, fy, c);
    var hi2 := RowValue(t, i2, j, fy, c);
    var fx1, fx2 := Fraction(t.alts, i1, a1), Fraction(t.alts, i2, a2);
    assert lo1 <= hi1 <= lo2 <= hi2 by {
      RowsRise(t, i1 - 1, i1, j, fy, c);
      RowsRise(t, i1, i2 - 1, j, fy, c);
      RowsRise(t, i2 - 1, i2, j, fy, c);
    }
    assert Pick(Blend(t, i1, j, a1, b), c) == Lerp(lo1, hi1, fx1) by {
      BlendByRows(t, i1, j, a1, b, c);
    }
    assert Pick(Blend(t, i2, j, a2, b), c) == Lerp(lo2, hi2, fx2) by {
      BlendByRows(t, i2, j, a2, b, c);
    }
    LerpAcrossCells(lo1, hi1, lo2, hi2, fx1, fx2);
  }

  /** A point of a lower interval lies below a point of a higher one when the
      top of the lower interval is at most the bottom of the higher. */
  lemma LerpAcrossCells(lo1: real, hi1: real, lo2: real, hi2: real, f1: real, f2: real)
    requires lo1 <= hi1 <= lo2 <= hi2
    requires 0.0 <= f1 <= 1.0 && 0.0 <= f2 <= 1.0
    ensures Lerp(lo1, hi1, f1) <= Lerp(lo2, hi2, f2)
  {
    LerpStaysBetween(lo1, hi1, f1);
    LerpStaysBetween(lo2, hi2, f2);
  }

  /** Monotonic interpolation where the chart answers: in a chart whose
      columns rise with altitude, blanks or not, of two available readings at
      one temperature the one at the higher altitude is at least the other. */
  lemma MonotoneWhereAvailable(t: Table, p1: real, p2: real, temp: real, c: Channel)
    requires WellFormed(t) && RisesWithAltitude(t) && p1 <= p2
    requires Interpolate(Some(t), p1, temp).Some? && Interpolate(Some(t), p2, temp).Some?
    ensures Pick(Interpolate(Some(t), p1, temp).value, c) <= Pick(Interpolate(Some(t), p2, temp).value, c)
  {
    var a1 := ClampToGrid(t.alts, p1);
    var a2 := ClampToGrid(t.alts, p2);
    var b := ClampToGrid(t.temps, temp);
    ReadingAtBracket(t, p1, temp);
    ReadingAtBracket(t, p2, temp);
    BlendRises(t, BracketIndex(t.alts, a1), BracketIndex(t.alts, a2), BracketIndex(t.temps, b), a1, a2, b, c);
  }

  /** Monotonic interpolation: on a fully printed chart whose columns rise with
      altitude, every reading is available, and both outputs are non-decreasing
      in the queried altitude at any fixed temperature, across cell boundaries
      as well as within a cell. */
  lemma MonotoneInAltitude(t: Table, p1: real, p2: real, temp: real, c: Channel)
    requires WellFormed(t) && RisesWithAltitude(t) && FullyPrinted(t) && p1 <= p2
    ensures Interpolate(Some(t), p1, temp).Some? && Interpolate(Some(t), p2, temp).Some?
    ensures Pick(Interpolate(Some(t), p1, temp).value, c) <= Pick(Interpolate(Some(t), p2, temp).value, c)
  {
    AlwaysAnswers(t, p1, temp);
    AlwaysAnswers(t, p2, temp);
    MonotoneWhereAvailable(t, p1, p2, temp, c);
  }

  /** A fully printed chart answers every query. */
  lemma AlwaysAnswers(t: Table, pAlt: real, temp: real)
    requires WellFormed(t) && FullyPrinted(t)
    ensures Interpolate(Some(t), pAlt, temp).Some?
  {
    ReadingAtBracket(t, pAlt, temp);
  }

  // ---------------------------------------------------------------------------
  // Worked examples

  /** A two-by-two chart: 0 and 1000 ft, 0 and 10 deg C. */
  const Square: Table := Table(
    [0.0, 1000.0], [0.0, 10.0],
    [[Some(Distances(100.0, 200.0)), Some(Distances(110.0, 210.0))],
     [Some(Distances(120.0, 220.0)), Some(Distances(130.0, 230.0))]])

  /** The same chart with its (1000 ft, 10 deg C) corner unprinted. */
  const SquareMissingCorner: Table := Square.(data := Square.data[1 := [Square.data[1][0], None]])

  /** The mean of four corner values. */
  function Mean4(q11: real, q12: real, q21: real, q22: real): real {
    (q11 + q12 + q21 + q22) / 4.0
  }

  /** Halfway along both axes, bilinear interpolation gives the corners' mean. */
  lemma BilinearAtCentre(q11: real, q12: real, q21: real, q22: real)
    ensures Bilinear(q11, q12, q21, q22, 0.5, 0.5) == Mean4(q11, q12, q21, q22)
  {
    assert Lerp(q11, q21, 0.5) == (q11 + q21) / 2.0;
    assert Lerp(q12, q22, 0.5) == (q12 + q22) / 2.0;
  }

  /** The middle of interval `i`. */
  function Midpoint(g: seq<real>, i: int): real
    requires 1 <= i < |g|
  {
    (g[i - 1] + g[i]) / 2.0
  }

  /** The midpoint of an interval sits at fraction one half and belongs to
      that interval alone. */
  lemma MidpointOfInterval(g: seq<real>, i: int)
    requires StrictlyIncreasing(g) && 1 <= i < |g|
    ensures var m := Midpoint(g, i);
      && Encloses(g, m, i)
      && ClampToGrid(g, m) == m
      && BracketIndex(g, m) == i
      && Fraction(g, i, m) == 0.5
  {
    var m := Midpoint(g, i);
    assert g[i - 1] < m < g[i];
    assert g[0] <= g[i - 1] && g[i] <= g[|g| - 1] by {
      if 1 < i {
        assert g[0] < g[i - 1];
      }
      if i < |g| - 1 {
        assert g[i] < g[|g| - 1];
      }
    }
    assert BracketIndex(g, m) == i by {
      EnclosingIntervalUnique(g, m, i, BracketIndex(g, m));
    }
    MidpointFraction(g, i);
  }

  lemma MidpointFraction(g: seq<real>, i: int)
    requires StrictlyIncreasing(g) && 1 <= i < |g|
    ensures Fraction(g, i, Midpoint(g, i)) == 0.5
  {
    var w := g[i] - g[i - 1];
    var f := Fraction(g, i, Midpoint(g, i));
    assert w > 0.0;
    assert Midpoint(g, i) - g[i - 1] == 0.5 * w;
    assert f * w == Midpoint(g, i) - g[i - 1];
    CancelPositive(f, 0.5, w);
  }

  lemma CancelPositive(x: real, y: real, w: real)
    requires w > 0.0 && x * w == y * w
    ensures x == y
  {
    assert (x - y) * w == 0.0;
  }

  /** The corners' mean on both outputs. */
  function CornerMean(t: Table, i: int, j: int): Distances
    requires WellFormed(t) && 1 <= i < |t.alts| && 1 <= j < |t.temps|
    requires CornersPresent(t, i, j)
  {
    var q11, q12 := Cell(t, i - 1, j - 1).value, Cell(t, i - 1, j).value;
    var q21, q22 := Cell(t, i, j - 1).value, Cell(t, i, j).value;
    Distances(Mean4(q11.roll, q12.roll, q21.roll, q22.roll),
              Mean4(q11.clear50, q12.clear50, q21.clear50, q22.clear50))
  }

  /** At the centre of a cell with all four corners printed, both outputs are
      the mean of the four corners. */
  lemma CentreIsCornerMean(t: Table, i: int, j: int)
    requires WellFormed(t) && 1 <= i < |t.alts| && 1 <= j < |t.temps|
    requires CornersPresent(t, i, j)
    ensures Interpolate(Some(t), Midpoint(t.alts, i), Midpoint(t.temps, j)) == Some(CornerMean(t, i, j))
  {
    var a, b := Midpoint(t.alts, i), Midpoint(t.temps, j);
    MidpointOfInterval(t.alts, i);
    MidpointOfInterval(t.temps, j);
    ReadingInCell(t, a, b, i, j);
    BlendAtCentre(t, i, j);
  }

  lemma BlendAtCentre(t: Table, i: int, j: int)
    requires WellFormed(t) && 1 <= i < |t.alts| && 1 <= j < |t.temps|
    requires CornersPresent(t, i, j)
    requires Fraction(t.alts, i, Midpoint(t.alts, i)) == 0.5
    requires Fraction(t.temps, j, Midpoint(t.temps, j)) == 0.5
    ensures Blend(t, i, j, Midpoint(t.alts, i), Midpoint(t.temps, j)) == CornerMean(t, i, j)
  {
    var q11, q12 := Cell(t, i - 1, j - 1).value, Cell(t, i - 1, j).value;
    var q21, q22 := Cell(t, i, j - 1).value, Cell(t, i, j).value;
    BilinearAtCentre(q11.roll, q12.roll, q21.roll, q22.roll);
    BilinearAtCentre(q11.clear50, q12.clear50, q21.clear50, q22.clear50);
  }

  /** At the centre of the square both outputs are the mean of the four corners. */
  lemma SquareCentre()
    ensures Interpolate(Some(Square), 500.0, 5.0) == Some(Distances(115.0, 215.0))
  {
    assert WellFormed(Square);
    assert CornersPresent(Square, 1, 1);
    assert Midpoint(Square.alts, 1) == 500.0 && Midpoint(Square.temps, 1) == 5.0;
    assert CornerMean(Square, 1, 1) == Distances(115.0, 215.0);
    CentreIsCornerMean(Square, 1, 1);
  }

  /** One missing corner makes the centre unavailable although three corners are printed. */
  lemma CentreUnavailableWithMissingCorner()
    ensures Interpolate(Some(SquareMissingCorner), 500.0, 5.0) == None
  {
    assert WellFormed(SquareMissingCorner);
    ReadingAtBracket(SquareMissingCorner, 500.0, 5.0);
    assert BracketIndex(SquareMissingCorner.alts, 500.0) == 1;
    assert BracketIndex(SquareMissingCorner.temps, 5.0) == 1;
  }
}
