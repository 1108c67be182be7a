/** The cubic spline voltage interpolator, over real numbers: a tridiagonal solve by elimination and
    back substitution, and the piecewise cubic it yields. */
module CubicSpline {
  import opened Wrappers

  datatype CalibrationData = CalibrationData(voltage: real, value: real)

  // ----- what a natural cubic spline is -----

  /** A cubic in the distance from the left end of its interval. */
  datatype Cubic = Cubic(a: real, b: real, c: real, d: real)
  {
    function Value(x: real): real { a + b * x + c * x * x + d * x * x * x }

    function Slope(x: real): real { b + 2.0 * c * x + 3.0 * d * x * x }

    function Bend(x: real): real { 2.0 * c + 6.0 * d * x }
  }

  predicate Increasing(t: seq<CalibrationData>) {
    forall i :: 0 <= i < |t| - 1 ==> Width(t, i) > 0.0
  }

  /** At least two points, with voltages that strictly increase. */
  predicate Table(t: seq<CalibrationData>) {
    |t| >= 2 && Increasing(t)
  }

  function Width(t: seq<CalibrationData>, i: nat): real
    requires i < |t| - 1
  {
    t[i + 1].voltage - t[i].voltage
  }

  predicate Interpolates(t: seq<CalibrationData>, s: seq<Cubic>, j: nat)
    requires |s| == |t| - 1 && j < |s|
  {
    s[j].Value(0.0) == t[j].value && s[j].Value(Width(t, j)) == t[j + 1].value
  }

  predicate Smooth(t: seq<CalibrationData>, s: seq<Cubic>, j: nat)
    requires |s| == |t| - 1 && j < |s| - 1
  {
    s[j].Slope(Width(t, j)) == s[j + 1].Slope(0.0) && s[j].Bend(Width(t, j)) == s[j + 1].Bend(0.0)
  }

  /** One cubic per interval, through the points, with slopes and second derivatives that meet at the
      inner points and no second derivative at the ends. */
  ghost predicate NaturalSpline(t: seq<CalibrationData>, s: seq<Cubic>) {
    Table(t) && |s| == |t| - 1 &&
    (forall j :: 0 <= j < |s| ==> Interpolates(t, s, j)) &&
    (forall j :: 0 <= j < |s| - 1 ==> Smooth(t, s, j)) &&
    s[0].Bend(0.0) == 0.0 && s[|s| - 1].Bend(Width(t, |s| - 1)) == 0.0
  }

  // ----- the tridiagonal system -----

  function Alpha(t: seq<CalibrationData>, i: nat): real
    requires Table(t) && 1 <= i < |t| - 1
  {
    (3.0 / Width(t, i)) * (t[i + 1].value - t[i].value) -
    (3.0 / Width(t, i - 1)) * (t[i].value - t[i - 1].value)
  }

  predicate Row(t: seq<CalibrationData>, c: seq<real>, i: nat)
    requires Table(t) && |c| == |t| && 1 <= i < |t| - 1
  {
    Width(t, i - 1) * c[i - 1] + 2.0 * (Width(t, i - 1) + Width(t, i)) * c[i] + Width(t, i) * c[i + 1] == Alpha(t, i)
  }

  predicate Solves(t: seq<CalibrationData>, c: seq<real>)
    requires Table(t)
  {
    |c| == |t| && c[0] == 0.0 && c[|t| - 1] == 0.0 && forall i :: 1 <= i < |t| - 1 ==> Row(t, c, i)
  }

  /** A pivot row: the pivot exceeds the row's width, so the multiplier lies in [0, 1). */
  predicate Pivot(t: seq<CalibrationData>, l: seq<real>, mu: seq<real>, z: seq<real>, i: nat)
    requires Table(t) && |l| == |mu| == |z| == |t| && 1 <= i < |t| - 1
  {
    l[i] == 2.0 * (t[i + 1].voltage - t[i - 1].voltage) - Width(t, i - 1) * mu[i - 1] &&
    mu[i] * l[i] == Width(t, i) && z[i] * l[i] == Alpha(t, i) - Width(t, i - 1) * z[i - 1] &&
    l[i] > Width(t, i) && 0.0 <= mu[i] < 1.0
  }

  function StepBack(z: real, mu: real, next: real): real { z - mu * next }

  function PivotValue(span: real, before: real, mu: real): real { 2.0 * span - before * mu }

  function Ratio(x: real, y: real): real
    requires y != 0.0
  {
    x / y
  }

  function Blank(n: nat): seq<real> { seq(n, _ => 0.0) }

  /** The pivot that follows from the row before. */
  lemma PivotStep(t: seq<CalibrationData>, i: nat, mu: real, z: real)
    requires Table(t) && 1 <= i < |t| - 1 && 0.0 <= mu < 1.0
    ensures var l := PivotValue(t[i + 1].voltage - t[i - 1].voltage, Width(t, i - 1), mu);
            l > Width(t, i) > 0.0 && 0.0 <= Ratio(Width(t, i), l) < 1.0
  {
    var l := PivotValue(t[i + 1].voltage - t[i - 1].voltage, Width(t, i - 1), mu);
    PivotDominates(Width(t, i - 1), Width(t, i), mu);
    Quotient(Width(t, i), l);
    ProperFraction(Ratio(Width(t, i), l), Width(t, i), l);
  }

  lemma PivotIs(t: seq<CalibrationData>, l: seq<real>, mu: seq<real>, z: seq<real>, i: nat)
    requires Table(t) && |l| == |mu| == |z| == |t| && 1 <= i < |t| - 1 && l[i] > Width(t, i)
    requires l[i] == PivotValue(t[i + 1].voltage - t[i - 1].voltage, Width(t, i - 1), mu[i - 1])
    requires mu[i] == Ratio(Width(t, i), l[i]) && 0.0 <= mu[i] < 1.0
    requires z[i] == Ratio(StepBack(Alpha(t, i), Width(t, i - 1), z[i - 1]), l[i])
    ensures Pivot(t, l, mu, z, i)
  {
    hide Alpha;
    Quotient(Width(t, i), l[i]);
    Quotient(StepBack(Alpha(t, i), Width(t, i - 1), z[i - 1]), l[i]);
  }

  lemma PivotStays(t: seq<CalibrationData>, l: seq<real>, mu: seq<real>, z: seq<real>, l1: seq<real>,
                   mu1: seq<real>, z1: seq<real>, i: nat)
    requires Table(t) && |l| == |mu| == |z| == |l1| == |mu1| == |z1| == |t| && 1 <= i < |t| - 1
    requires Pivot(t, l, mu, z, i) && l1[i] == l[i] && mu1[i] == mu[i] && mu1[i - 1] == mu[i - 1]
    requires z1[i] == z[i] && z1[i - 1] == z[i - 1]
    ensures Pivot(t, l1, mu1, z1, i)
  {
    hide Alpha;
  }

  /** The rows before k have been eliminated. */
  predicate Eliminated(t: seq<CalibrationData>, l: seq<real>, mu: seq<real>, z: seq<real>, k: nat)
    requires Table(t) && k <= |t| - 1
  {
    |l| == |mu| == |z| == |t| && mu[0] == 0.0 && z[0] == 0.0 &&
    forall i :: 1 <= i < k ==> Pivot(t, l, mu, z, i)
  }

  /** Diagonal dominance carries over from one pivot to the next. */
  lemma PivotDominates(before: real, width: real, mu: real)
    requires before > 0.0 && width > 0.0 && 0.0 <= mu < 1.0
    ensures 2.0 * (before + width) - before * mu > width
  {
    assert before * mu <= before;
  }

  lemma Quotient(x: real, y: real)
    requires y != 0.0
    ensures (x / y) * y == x
  {
  }

  lemma ProperFraction(q: real, x: real, y: real)
    requires 0.0 < x < y && q * y == x
    ensures 0.0 <= q < 1.0
  {
    if q >= 1.0 {
      ProductGrows(q - 1.0, y);
      assert false;
    }
  }

  lemma ProductGrows(e: real, y: real)
    requires e >= 0.0 && y > 0.0
    ensures e * y >= 0.0 && (e + 1.0) * y >= y
  {
  }

  /** Back substitution through the eliminated rows solves the system. */
  lemma SubstitutionSolves(t: seq<CalibrationData>, l: seq<real>, mu: seq<real>, z: seq<real>, c: seq<real>)
    requires Table(t) && Eliminated(t, l, mu, z, |t| - 1) && |c| == |t| && c[|t| - 1] == 0.0
    requires forall j :: 0 <= j < |t| - 1 ==> c[j] == StepBack(z[j], mu[j], c[j + 1])
    ensures Solves(t, c)
  {
    hide Alpha;
    assert c[0] == StepBack(z[0], mu[0], c[0 + 1]);
    forall i | 1 <= i < |t| - 1
      ensures Row(t, c, i)
    {
      assert Pivot(t, l, mu, z, i);
      assert c[i - 1] == StepBack(z[i - 1], mu[i - 1], c[i - 1 + 1]);
      RowBalances(Width(t, i - 1), Width(t, i), c[i - 1], c[i], c[i + 1], z[i - 1], z[i], mu[i - 1], mu[i], l[i],
                  Alpha(t, i));
    }
  }

  lemma RowBalances(h0: real, h1: real, c0: real, c1: real, c2: real, z0: real, z1: real, m0: real, m1: real,
                    l: real, alpha: real)
    requires c0 == z0 - m0 * c1 && c1 == z1 - m1 * c2
    requires l == 2.0 * (h0 + h1) - h0 * m0 && m1 * l == h1 && z1 * l == alpha - h0 * z0
    ensures h0 * c0 + 2.0 * (h0 + h1) * c1 + h1 * c2 == alpha
  {
    calc {
      h0 * c0 + 2.0 * (h0 + h1) * c1 + h1 * c2;
    ==
      h0 * z0 - h0 * m0 * c1 + 2.0 * (h0 + h1) * c1 + h1 * c2;
    ==
      h0 * z0 + l * c1 + h1 * c2;
    ==
      h0 * z0 + z1 * l - (m1 * l) * c2 + h1 * c2;
    ==
      alpha;
    }
  }

  /** Every table can be eliminated. */
  lemma {:induction false} EliminationExists(t: seq<CalibrationData>, k: nat)
    returns (l: seq<real>, mu: seq<real>, z: seq<real>)
    requires Table(t) && 1 <= k <= |t| - 1
    ensures Eliminated(t, l, mu, z, k) && 0.0 <= mu[k - 1] < 1.0
  {
    hide Alpha, PivotValue, Ratio, StepBack, Pivot;
    if k == 1 {
      l, mu, z := Blank(|t|), Blank(|t|), Blank(|t|);
    } else {
      var i := k - 1;
      var l0, mu0, z0 := EliminationExists(t, i);
      PivotStep(t, i, mu0[i - 1], z0[i - 1]);
      l := l0[i := PivotValue(t[i + 1].voltage - t[i - 1].voltage, Width(t, i - 1), mu0[i - 1])];
      mu := mu0[i := Ratio(Width(t, i), l[i])];
      z := z0[i := Ratio(StepBack(Alpha(t, i), Width(t, i - 1), z0[i - 1]), l[i])];
      PivotIs(t, l, mu, z, i);
      forall j | 1 <= j < i
        ensures Pivot(t, l, mu, z, j)
      {
        PivotStays(t, l0, mu0, z0, l, mu, z, j);
      }
    }
  }

  /** The system of a table has at most one solution. */
  lemma SolutionIsUnique(t: seq<CalibrationData>, c: seq<real>, e: seq<real>)
    requires Table(t) && Solves(t, c) && Solves(t, e)
    ensures c == e
  {
    hide Eliminated, Solves;
    var l, mu, z := EliminationExists(t, |t| - 1);
    assert |c| == |e| == |t| by { SolutionLength(t, c); SolutionLength(t, e); }
    forall i | 0 <= i < |t|
      ensures c[i] == e[i]
    {
      DifferenceVanishes(t, l, mu, z, c, e, i);
    }
  }

  lemma SolutionLength(t: seq<CalibrationData>, c: seq<real>)
    requires Table(t) && Solves(t, c)
    ensures |c| == |t|
  {
  }

  lemma {:induction false} DifferenceShrinks(t: seq<CalibrationData>, l: seq<real>, mu: seq<real>, z: seq<real>,
                                             c: seq<real>, e: seq<real>, i: nat)
    requires Table(t) && Eliminated(t, l, mu, z, |t| - 1) && Solves(t, c) && Solves(t, e) && i < |t| - 1
    ensures c[i] - e[i] == -mu[i] * (c[i + 1] - e[i + 1])
  {
    hide Alpha, Eliminated, Solves, Table;
    if i == 0 {
      FirstDifference(t, l, mu, z, c, e);
    } else {
      DifferenceShrinks(t, l, mu, z, c, e, i - 1);
      RowFacts(t, l, mu, z, c, e, i);
      var h0, h1 := Width(t, i - 1), Width(t, i);
      RowsDiffer(h0, h1, c[i - 1], c[i], c[i + 1], e[i - 1], e[i], e[i + 1], Alpha(t, i));
      RowDifference(h0, h1, c[i - 1] - e[i - 1], c[i] - e[i], c[i + 1] - e[i + 1], mu[i - 1], mu[i], l[i]);
    }
  }

  lemma FirstDifference(t: seq<CalibrationData>, l: seq<real>, mu: seq<real>, z: seq<real>, c: seq<real>,
                        e: seq<real>)
    requires Table(t) && Eliminated(t, l, mu, z, |t| - 1) && Solves(t, c) && Solves(t, e)
    ensures |t| == |c| == |e| == |mu| == |l|
    ensures c[0] - e[0] == -mu[0] * (c[1] - e[1])
  {
  }

  lemma RowFacts(t: seq<CalibrationData>, l: seq<real>, mu: seq<real>, z: seq<real>, c: seq<real>, e: seq<real>,
                 i: nat)
    requires Table(t) && Eliminated(t, l, mu, z, |t| - 1) && Solves(t, c) && Solves(t, e) && 1 <= i < |t| - 1
    ensures |t| == |c| == |e| == |mu| == |l| && Row(t, c, i) && Row(t, e, i)
    ensures l[i] == 2.0 * (Width(t, i - 1) + Width(t, i)) - Width(t, i - 1) * mu[i - 1]
    ensures mu[i] * l[i] == Width(t, i) && l[i] > 0.0
  {
    assert Pivot(t, l, mu, z, i);
  }

  lemma RowsDiffer(h0: real, h1: real, c0: real, c1: real, c2: real, e0: real, e1: real, e2: real, alpha: real)
    requires h0 * c0 + 2.0 * (h0 + h1) * c1 + h1 * c2 == alpha
    requires h0 * e0 + 2.0 * (h0 + h1) * e1 + h1 * e2 == alpha
    ensures h0 * (c0 - e0) + 2.0 * (h0 + h1) * (c1 - e1) + h1 * (c2 - e2) == 0.0
  {
  }

  lemma RowDifference(h0: real, h1: real, x0: real, x1: real, x2: real, m0: real, m1: real, l: real)
    requires h0 * x0 + 2.0 * (h0 + h1) * x1 + h1 * x2 == 0.0 && x0 == -m0 * x1
    requires l == 2.0 * (h0 + h1) - h0 * m0 && m1 * l == h1 && l > 0.0
    ensures x1 == -m1 * x2
  {
    assert l * x1 == -h1 * x2;
    assert l * (x1 + m1 * x2) == 0.0;
  }

  lemma {:induction false} DifferenceVanishes(t: seq<CalibrationData>, l: seq<real>, mu: seq<real>, z: seq<real>,
                                              c: seq<real>, e: seq<real>, i: nat)
    requires Table(t) && Eliminated(t, l, mu, z, |t| - 1) && Solves(t, c) && Solves(t, e) && i < |t|
    ensures c[i] == e[i]
    decreases |t| - i
  {
    if i < |t| - 1 {
      DifferenceVanishes(t, l, mu, z, c, e, i + 1);
      DifferenceShrinks(t, l, mu, z, c, e, i);
    }
  }

  // ----- the coefficients -----

  function Linear(y0: real, y1: real, h: real, c0: real, c1: real): real
    requires h != 0.0
  {
    (y1 - y0) / h - h * (c1 + 2.0 * c0) / 3.0
  }

  function Cubed(c0: real, c1: real, h: real): real
    requires h != 0.0
  {
    (c1 - c0) / (3.0 * h)
  }

  /** The cubics that go with a solution. */
  predicate Fitted(t: seq<CalibrationData>, c: seq<real>, b: seq<real>, d: seq<real>, j: nat)
    requires Table(t) && |c| == |t| && |b| == |d| == |t| - 1 && j < |t| - 1
  {
    b[j] == Linear(t[j].value, t[j + 1].value, Width(t, j), c[j], c[j + 1]) &&
    d[j] == Cubed(c[j], c[j + 1], Width(t, j))
  }

  lemma IsFitted(t: seq<CalibrationData>, c: seq<real>, b: seq<real>, d: seq<real>, j: nat)
    requires Table(t) && |c| == |t| && |b| == |d| == |t| - 1 && j < |t| - 1
    requires b[j] == Linear(t[j].value, t[j + 1].value, Width(t, j), c[j], c[j + 1])
    requires d[j] == Cubed(c[j], c[j + 1], Width(t, j))
    ensures Fitted(t, c, b, d, j)
  {
    hide Linear, Cubed;
  }

  lemma FittedStays(t: seq<CalibrationData>, c: seq<real>, b: seq<real>, d: seq<real>, c1: seq<real>, b1: seq<real>,
                    d1: seq<real>, j: nat)
    requires Table(t) && |c| == |c1| == |t| && |b| == |d| == |b1| == |d1| == |t| - 1 && j < |t| - 1
    requires Fitted(t, c, b, d, j) && c1[j] == c[j] && c1[j + 1] == c[j + 1] && b1[j] == b[j] && d1[j] == d[j]
    ensures Fitted(t, c1, b1, d1, j)
  {
    hide Linear, Cubed;
  }

  function Cubics(t: seq<CalibrationData>, b: seq<real>, c: seq<real>, d: seq<real>): (s: seq<Cubic>)
    requires |t| >= 2 && |c| == |t| && |b| == |d| == |t| - 1
  {
    seq(|t| - 1, j requires 0 <= j < |t| - 1 => Cubic(t[j].value, b[j], c[j], d[j]))
  }

  lemma CubicEnds(y0: real, y1: real, h: real, b: real, c0: real, c1: real, d: real)
    requires h > 0.0
    requires b == (y1 - y0) / h - h * (c1 + 2.0 * c0) / 3.0 && d == (c1 - c0) / (3.0 * h)
    ensures b * h == y1 - y0 - h * h * (c1 + 2.0 * c0) / 3.0 && 3.0 * d * h == c1 - c0
    ensures Cubic(y0, b, c0, d).Value(h) == y1
    ensures Cubic(y0, b, c0, d).Slope(h) == (y1 - y0) / h + h * (c0 + 2.0 * c1) / 3.0
    ensures Cubic(y0, b, c0, d).Bend(h) == 2.0 * c1
  {
    var m := (y1 - y0) / h;
    Quotient(y1 - y0, h);
    Quotient(c1 - c0, 3.0 * h);
    assert 3.0 * d * h == c1 - c0;
    assert 3.0 * d * h * h == (c1 - c0) * h;
    assert 3.0 * d * h * h * h == (c1 - c0) * h * h;
    assert b * h == m * h - h * (c1 + 2.0 * c0) / 3.0 * h;
  }

  /** The row equation says that the slopes meet. */
  lemma RowMeansSlope(h0: real, h1: real, m0: real, m1: real, c0: real, c1: real, c2: real, alpha: real)
    requires alpha == 3.0 * m1 - 3.0 * m0
    ensures h0 * c0 + 2.0 * (h0 + h1) * c1 + h1 * c2 == alpha <==>
            m0 + h0 * (c0 + 2.0 * c1) / 3.0 == m1 - h1 * (c2 + 2.0 * c1) / 3.0
  {
  }

  function SlopeBetween(t: seq<CalibrationData>, j: nat): real
    requires Table(t) && j < |t| - 1
  {
    (t[j + 1].value - t[j].value) / Width(t, j)
  }

  lemma AlphaIsSlopes(t: seq<CalibrationData>, i: nat)
    requires Table(t) && 1 <= i < |t| - 1
    ensures Alpha(t, i) == 3.0 * SlopeBetween(t, i) - 3.0 * SlopeBetween(t, i - 1)
  {
    ThreeOver(t[i + 1].value - t[i].value, Width(t, i));
    ThreeOver(t[i].value - t[i - 1].value, Width(t, i - 1));
  }

  lemma ThreeOver(x: real, y: real)
    requires y > 0.0
    ensures (3.0 / y) * x == 3.0 * (x / y)
  {
    Quotient(x, y);
    Quotient(3.0, y);
    var q, r := x / y, 3.0 / y;
    assert (r * x - 3.0 * q) * y == 0.0;
  }

  /** A solution and the cubics fitted to it are a natural cubic spline. */
  lemma SolutionIsSpline(t: seq<CalibrationData>, b: seq<real>, c: seq<real>, d: seq<real>)
    requires Table(t) && Solves(t, c) && |b| == |d| == |t| - 1
    requires forall j :: 0 <= j < |t| - 1 ==> Fitted(t, c, b, d, j)
    ensures NaturalSpline(t, Cubics(t, b, c, d))
  {
    hide Alpha, Fitted;
    var s := Cubics(t, b, c, d);
    forall j | 0 <= j < |s|
      ensures Interpolates(t, s, j) && s[j].Bend(Width(t, j)) == 2.0 * c[j + 1]
    {
      IntervalEnds(t, b, c, d, j);
    }
    forall j | 0 <= j < |s| - 1
      ensures Smooth(t, s, j)
    {
      SlopesMeet(t, b, c, d, j);
    }
  }

  lemma IntervalEnds(t: seq<CalibrationData>, b: seq<real>, c: seq<real>, d: seq<real>, j: nat)
    requires Table(t) && |c| == |t| && |b| == |d| == |t| - 1 && j < |t| - 1 && Fitted(t, c, b, d, j)
    ensures var s := Cubics(t, b, c, d);
            Interpolates(t, s, j) && s[j].Bend(Width(t, j)) == 2.0 * c[j + 1] &&
            s[j].Slope(Width(t, j)) == SlopeBetween(t, j) + Width(t, j) * (c[j] + 2.0 * c[j + 1]) / 3.0 &&
            s[j].Slope(0.0) == SlopeBetween(t, j) - Width(t, j) * (c[j + 1] + 2.0 * c[j]) / 3.0
  {
    CubicEnds(t[j].value, t[j + 1].value, Width(t, j), b[j], c[j], c[j + 1], d[j]);
  }

  lemma SlopesMeet(t: seq<CalibrationData>, b: seq<real>, c: seq<real>, d: seq<real>, j: nat)
    requires Table(t) && Solves(t, c) && |b| == |d| == |t| - 1 && j < |t| - 2
    requires Fitted(t, c, b, d, j) && Fitted(t, c, b, d, j + 1)
    ensures Smooth(t, Cubics(t, b, c, d), j)
  {
    hide Alpha, Fitted, SlopeBetween;
    IntervalEnds(t, b, c, d, j);
    IntervalEnds(t, b, c, d, j + 1);
    AlphaIsSlopes(t, j + 1);
    assert Row(t, c, j + 1);
    RowMeansSlope(Width(t, j), Width(t, j + 1), SlopeBetween(t, j), SlopeBetween(t, j + 1), c[j], c[j + 1], c[j + 2],
                  Alpha(t, j + 1));
  }

  /** Half the second derivatives of a spline at the points. */
  function Bends(s: seq<Cubic>): seq<real> {
    seq(|s|, j requires 0 <= j < |s| => s[j].c) + [0.0]
  }

  /** A cubic is determined by its values and second derivatives at both ends. */
  lemma CubicFromEnds(q: Cubic, y0: real, y1: real, h: real, c1: real)
    requires h > 0.0 && q.Value(0.0) == y0 && q.Value(h) == y1 && q.Bend(h) == 2.0 * c1
    ensures q.a == y0 && q.b == (y1 - y0) / h - h * (c1 + 2.0 * q.c) / 3.0 && q.d == (c1 - q.c) / (3.0 * h)
  {
    var m := (y1 - y0) / h;
    Quotient(y1 - y0, h);
    assert 3.0 * q.d * h == c1 - q.c;
    Divides(q.d, 3.0 * h, c1 - q.c);
    assert 3.0 * q.d * h * h * h == (c1 - q.c) * h * h;
    assert (q.b + h * (c1 + 2.0 * q.c) / 3.0) * h == y1 - y0;
    Divides(q.b + h * (c1 + 2.0 * q.c) / 3.0, h, y1 - y0);
  }

  lemma Divides(q: real, y: real, x: real)
    requires y > 0.0 && q * y == x
    ensures q == x / y
  {
    Quotient(x, y);
    assert (q - x / y) * y == 0.0;
  }

  /** The second derivatives of any natural cubic spline solve the system. */
  lemma SplineSolves(t: seq<CalibrationData>, s: seq<Cubic>)
    requires NaturalSpline(t, s)
    ensures Solves(t, Bends(s))
    ensures forall j :: 0 <= j < |s| ==>
              s[j].a == t[j].value && FittedCubic(t, Bends(s), s, j)
  {
    hide Alpha, FittedCubic, SlopeBetween;
    var c := Bends(s);
    forall j | 0 <= j < |s|
      ensures s[j].a == t[j].value && FittedCubic(t, c, s, j)
    {
      IntervalFits(t, s, j);
    }
    forall i | 1 <= i < |t| - 1
      ensures Row(t, c, i)
    {
      SlopesGiveRow(t, s, i);
    }
  }

  predicate FittedCubic(t: seq<CalibrationData>, c: seq<real>, s: seq<Cubic>, j: nat)
    requires Table(t) && |c| == |t| && |s| == |t| - 1 && j < |s|
  {
    s[j].b == SlopeBetween(t, j) - Width(t, j) * (c[j + 1] + 2.0 * c[j]) / 3.0 &&
    s[j].d == (c[j + 1] - c[j]) / (3.0 * Width(t, j))
  }

  lemma IntervalFits(t: seq<CalibrationData>, s: seq<Cubic>, j: nat)
    requires NaturalSpline(t, s) && j < |s|
    ensures s[j].a == t[j].value && FittedCubic(t, Bends(s), s, j)
    ensures s[j].Slope(Width(t, j)) == SlopeBetween(t, j) + Width(t, j) * (s[j].c + 2.0 * Bends(s)[j + 1]) / 3.0
    ensures s[j].Slope(0.0) == SlopeBetween(t, j) - Width(t, j) * (Bends(s)[j + 1] + 2.0 * s[j].c) / 3.0
  {
    assert Interpolates(t, s, j);
    if j < |s| - 1 { assert Smooth(t, s, j); }
    var c1 := Bends(s)[j + 1];
    CubicFromEnds(s[j], t[j].value, t[j + 1].value, Width(t, j), c1);
    CubicEnds(t[j].value, t[j + 1].value, Width(t, j), s[j].b, s[j].c, c1, s[j].d);
  }

  lemma SlopesGiveRow(t: seq<CalibrationData>, s: seq<Cubic>, i: nat)
    requires NaturalSpline(t, s) && 1 <= i < |t| - 1
    ensures Row(t, Bends(s), i)
  {
    hide Alpha, FittedCubic, SlopeBetween;
    IntervalFits(t, s, i - 1);
    IntervalFits(t, s, i);
    assert Smooth(t, s, i - 1);
    AlphaIsSlopes(t, i);
    var c := Bends(s);
    RowMeansSlope(Width(t, i - 1), Width(t, i), SlopeBetween(t, i - 1), SlopeBetween(t, i), c[i - 1], c[i], c[i + 1],
                  Alpha(t, i));
  }

  /** There is only one natural cubic spline through a table. */
  lemma SplineIsUnique(t: seq<CalibrationData>, s: seq<Cubic>, r: seq<Cubic>)
    requires Table(t) && NaturalSpline(t, s) && NaturalSpline(t, r)
    ensures s == r
  {
    hide Alpha, NaturalSpline, SlopeBetween, Eliminated, Solves;
    SplineSolves(t, s);
    SplineSolves(t, r);
    assert |s| == |r| == |t| - 1 by { SplineLength(t, s); SplineLength(t, r); }
    SolutionIsUnique(t, Bends(s), Bends(r));
    forall j | 0 <= j < |s|
      ensures s[j] == r[j]
    {
      assert Bends(s)[j] == Bends(r)[j];
    }
  }

  lemma SplineLength(t: seq<CalibrationData>, s: seq<Cubic>)
    requires NaturalSpline(t, s)
    ensures |s| == |t| - 1
  {
  }

  // ----- the interpolator -----

  lemma {:induction false} VoltagesIncrease(t: seq<CalibrationData>, i: nat, j: nat)
    requires Increasing(t) && i < j < |t|
    ensures t[i].voltage < t[j].voltage
    decreases j
  {
    assert Width(t, j - 1) > 0.0;
    if i < j - 1 { VoltagesIncrease(t, i, j - 1); }
  }

  class Interpolator {
    const table: seq<CalibrationData>
    var h: seq<real>
    var alpha: seq<real>
    var l: seq<real>
    var mu: seq<real>
    var z: seq<real>
    var b: seq<real>
    var c: seq<real>
    var d: seq<real>

    predicate Sized()
      reads this
    {
      Table(table) && |h| == |alpha| == |b| == |d| == |table| - 1 && |l| == |mu| == |z| == |c| == |table|
    }

    function Spline(): seq<Cubic>
      requires Sized()
      reads this
    {
      Cubics(table, b, c, d)
    }

    ghost predicate Valid()
      reads this
    {
      Sized() && NaturalSpline(table, Spline())
    }

    /** Refuses tables of fewer than two points. The divisions need increasing voltages. */
    static method Create(t: seq<CalibrationData>) returns (r: Option<Interpolator>)
      requires Increasing(t)
      ensures r.None? <==> |t| < 2
      ensures r.Some? ==> fresh(r.value) && r.value.table == t && r.value.Valid()
      ensures r.Some? ==> forall s :: NaturalSpline(t, s) ==> s == r.value.Spline()
    {
      if |t| < 2 {
        return None;
      }
      var s := new Interpolator(t);
      r := Some(s);
    }

    constructor (t: seq<CalibrationData>)
      requires Table(t)
      ensures table == t && Valid()
      ensures forall s :: NaturalSpline(t, s) ==> s == Spline()
    {
      table := t;
      h, alpha, b, d := Blank(|t| - 1), Blank(|t| - 1), Blank(|t| - 1), Blank(|t| - 1);
      l, mu, z, c := Blank(|t|), Blank(|t|), Blank(|t|), Blank(|t|);
      new;
      Differences();
      Eliminate();
      Substitute();
      SubstitutionSolves(t, l, mu, z, c);
      SolutionIsSpline(t, b, c, d);
      forall s | NaturalSpline(t, s)
        ensures s == Spline()
      {
        SplineIsUnique(t, s, Spline());
      }
    }

    method Differences()
      requires Sized()
      modifies this`h, this`alpha
      ensures Sized()
      ensures forall i :: 0 <= i < |h| ==> h[i] == Width(table, i)
      ensures forall i :: 1 <= i < |h| ==> alpha[i] == Alpha(table, i)
    {
      var n := |table|;
      var i := 0;
      while i < n - 1
        invariant 0 <= i <= n - 1 && Sized()
        invariant forall j :: 0 <= j < i ==> h[j] == Width(table, j)
      {
        h := h[i := table[i + 1].voltage - table[i].voltage];
        i := i + 1;
      }
      i := 1;
      while i < n - 1
        invariant 1 <= i <= n - 1 && Sized()
        invariant forall j :: 0 <= j < |h| ==> h[j] == Width(table, j)
        invariant forall j :: 1 <= j < i ==> alpha[j] == Alpha(table, j)
      {
        alpha := alpha[i := (3.0 / h[i]) * (table[i + 1].value - table[i].value) -
                            (3.0 / h[i - 1]) * (table[i].value - table[i - 1].value)];
        i := i + 1;
      }
    }

    /** Forward elimination. */
    method Eliminate()
      requires Sized()
      requires forall i :: 0 <= i < |h| ==> h[i] == Width(table, i)
      requires forall i :: 1 <= i < |h| ==> alpha[i] == Alpha(table, i)
      modifies this`l, this`mu, this`z
      ensures Sized() && Eliminated(table, l, mu, z, |table| - 1)
    {
      hide Alpha, PivotValue, Ratio, StepBack, Pivot;
      var n := |table|;
      l, mu, z := l[0 := 1.0], mu[0 := 0.0], z[0 := 0.0];
      var i := 1;
      while i < n - 1
        invariant 1 <= i <= n - 1 && Sized() && 0.0 <= mu[i - 1] < 1.0
        invariant Eliminated(table, l, mu, z, i)
      {
        ghost var l0, mu0, z0 := l, mu, z;
        PivotStep(table, i, mu[i - 1], z[i - 1]);
        l := l[i := PivotValue(table[i + 1].voltage - table[i - 1].voltage, h[i - 1], mu[i - 1])];
        mu := mu[i := Ratio(h[i], l[i])];
        z := z[i := Ratio(StepBack(alpha[i], h[i - 1], z[i - 1]), l[i])];
        PivotIs(table, l, mu, z, i);
        forall j | 1 <= j < i
          ensures Pivot(table, l, mu, z, j)
        {
          PivotStays(table, l0, mu0, z0, l, mu, z, j);
        }
        i := i + 1;
      }
      ghost var l0, z0 := l, z;
      l, z := l[n - 1 := 1.0], z[n - 1 := 0.0];
      forall j | 1 <= j < n - 1
        ensures Pivot(table, l, mu, z, j)
      {
        PivotStays(table, l0, mu, z0, l, mu, z, j);
      }
    }

    /** Back substitution, from the last interval to the first. */
    method Substitute()
      requires Sized()
      requires forall i :: 0 <= i < |h| ==> h[i] == Width(table, i)
      modifies this`b, this`c, this`d
      ensures Sized() && c[|table| - 1] == 0.0
      ensures forall j :: 0 <= j < |table| - 1 ==> c[j] == StepBack(z[j], mu[j], c[j + 1])
      ensures forall j :: 0 <= j < |table| - 1 ==> Fitted(table, c, b, d, j)
    {
      hide Fitted, StepBack, Linear, Cubed;
      var n := |table|;
      c := c[n - 1 := 0.0];
      var j := n - 2;
      while j >= 0
        invariant -1 <= j <= n - 2 && Sized() && c[n - 1] == 0.0
        invariant forall k :: j < k < n - 1 ==> c[k] == StepBack(z[k], mu[k], c[k + 1])
        invariant forall k :: j < k < n - 1 ==> Fitted(table, c, b, d, k)
      {
        ghost var b0, c0, d0 := b, c, d;
        c := c[j := StepBack(z[j], mu[j], c[j + 1])];
        b := b[j := Linear(table[j].value, table[j + 1].value, h[j], c[j], c[j + 1])];
        d := d[j := Cubed(c[j], c[j + 1], h[j])];
        IsFitted(table, c, b, d, j);
        forall k | j < k < n - 1
          ensures Fitted(table, c, b, d, k)
        {
          FittedStays(table, c0, b0, d0, c, b, d, k);
        }
        j := j - 1;
      }
    }

    /** The first point above the voltage. */
    method UpperBound(voltage: real) returns (it: nat)
      requires Table(table)
      ensures it <= |table|
      ensures forall k :: 0 <= k < it ==> table[k].voltage <= voltage
      ensures forall k :: it <= k < |table| ==> voltage < table[k].voltage
    {
      it := 0;
      var high := |table|;
      while it < high
        invariant 0 <= it <= high <= |table|
        invariant forall k :: 0 <= k < it ==> table[k].voltage <= voltage
        invariant forall k :: high <= k < |table| ==> voltage < table[k].voltage
      {
        var mid := (it + high) / 2;
        if voltage < table[mid].voltage {
          forall k | mid < k < |table|
            ensures voltage < table[k].voltage
          {
            VoltagesIncrease(table, mid, k);
          }
          high := mid;
        } else {
          forall k | 0 <= k < mid
            ensures table[k].voltage <= voltage
          {
            VoltagesIncrease(table, k, mid);
          }
          it := mid + 1;
        }
      }
    }

    /** Evaluates the spline. Without clamping, a voltage outside the table indexes past its ends. */
    method Interpolate(voltage: real, clampToEnds: bool) returns (r: real)
      requires Valid()
      requires clampToEnds || table[0].voltage <= voltage < table[|table| - 1].voltage
      ensures voltage < table[0].voltage ==> r == table[0].value
      ensures voltage >= table[|table| - 1].voltage ==> r == table[|table| - 1].value
      ensures forall k :: 0 <= k < |table| - 1 && table[k].voltage <= voltage <= table[k + 1].voltage ==>
                r == Spline()[k].Value(voltage - table[k].voltage)
      ensures forall k :: 0 <= k < |table| && voltage == table[k].voltage ==> r == table[k].value
    {
      var n := |table|;
      VoltagesIncrease(table, 0, n - 1);
      if clampToEnds {
        if voltage <= table[0].voltage {
          AtPoint(0, voltage, table[0].value);
          return table[0].value;
        }
        if voltage >= table[n - 1].voltage {
          AtPoint(n - 1, voltage, table[n - 1].value);
          return table[n - 1].value;
        }
      }
      var it := UpperBound(voltage);
      var i := it - 1;
      var dx := voltage - table[i].voltage;
      r := Cubic(table[i].value, b[i], c[i], d[i]).Value(dx);
      Inside(i, voltage, r);
    }

    /** At a point the cubics on both sides take the point's value; before the first and after the last
        there is nothing to say. */
    lemma AtPoint(i: nat, voltage: real, r: real)
      requires Valid() && i < |table| && r == table[i].value
      requires voltage == table[i].voltage || (i == 0 && voltage < table[0].voltage) ||
               (i == |table| - 1 && voltage > table[i].voltage)
      ensures forall k :: 0 <= k < |table| - 1 && table[k].voltage <= voltage <= table[k + 1].voltage ==>
                r == Spline()[k].Value(voltage - table[k].voltage)
      ensures forall k :: 0 <= k < |table| && voltage == table[k].voltage ==> r == table[k].value
    {
      forall k | 0 <= k < |table|
        ensures k < i ==> table[k].voltage < table[i].voltage
        ensures k > i ==> table[k].voltage > table[i].voltage
      {
        if k < i { VoltagesIncrease(table, k, i); }
        if k > i { VoltagesIncrease(table, i, k); }
      }
      forall k | 0 <= k < |table| - 1 && table[k].voltage <= voltage <= table[k + 1].voltage
        ensures r == Spline()[k].Value(voltage - table[k].voltage)
      {
        assert Interpolates(table, Spline(), k);
      }
    }

    lemma Inside(i: nat, voltage: real, r: real)
      requires Valid() && i < |table| - 1 && table[i].voltage <= voltage < table[i + 1].voltage
      requires r == Spline()[i].Value(voltage - table[i].voltage)
      ensures forall k :: 0 <= k < |table| - 1 && table[k].voltage <= voltage <= table[k + 1].voltage ==>
                r == Spline()[k].Value(voltage - table[k].voltage)
      ensures forall k :: 0 <= k < |table| && voltage == table[k].voltage ==> r == table[k].value
    {
      assert Interpolates(table, Spline(), i);
      if voltage == table[i].voltage {
        AtPoint(i, voltage, r);
      } else {
        forall k | 0 <= k < |table|
          ensures k < i ==> table[k].voltage < table[i].voltage
          ensures k > i + 1 ==> table[k].voltage > table[i + 1].voltage
        {
          if k < i { VoltagesIncrease(table, k, i); }
          if k > i + 1 { VoltagesIncrease(table, i + 1, k); }
        }
      }
    }
  }
}
