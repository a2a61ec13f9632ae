/** Forecasts of a metric: the least-squares line and double exponential smoothing, over real numbers. */
module Forecast {
  // ---------- sums ----------

  function Total(a: seq<real>): real {
    if a == [] then 0.0 else Total(a[..|a| - 1]) + a[|a| - 1]
  }

  function Mean(a: seq<real>): real
    requires a != []
  {
    Total(a) / |a| as real
  }

  function Times(a: real, b: real): real { a * b }

  function Product(a: seq<real>, b: seq<real>): seq<real>
    requires |a| == |b|
  {
    seq(|a|, i requires 0 <= i < |a| => Times(a[i], b[i]))
  }

  function Dot(a: seq<real>, b: seq<real>): real
    requires |a| == |b|
  {
    Total(Product(a, b))
  }

  /** p * a + q * b, element by element. */
  function Mix(p: real, a: seq<real>, q: real, b: seq<real>): seq<real>
    requires |a| == |b|
  {
    seq(|a|, i requires 0 <= i < |a| => Times(p, a[i]) + Times(q, b[i]))
  }

  function Ones(n: nat): seq<real> {
    seq(n, i => 1.0)
  }

  /** The positions 0, 1, 2, ... of the values. */
  function Positions(n: nat): seq<real> {
    seq(n, i => i as real)
  }

  function Centered(a: seq<real>): seq<real>
    requires a != []
  {
    var m := Mean(a);
    seq(|a|, i requires 0 <= i < |a| => a[i] - m)
  }

  // ---------- linear regression ----------

  function Slope(y: seq<real>): real
    requires y != []
  {
    var u := Centered(Positions(|y|));
    var denominator := Dot(u, u);
    if denominator != 0.0 then Dot(u, Centered(y)) / denominator else 0.0
  }

  function Intercept(y: seq<real>): real
    requires y != []
  {
    Mean(y) - Slope(y) * Mean(Positions(|y|))
  }

  /** The predicted next value. */
  function LinearForecast(y: seq<real>): real
    requires y != []
  {
    Slope(y) * |y| as real + Intercept(y)
  }

  /** How far each value lies above the line with slope m and intercept c. */
  function Residuals(y: seq<real>, m: real, c: real): seq<real> {
    seq(|y|, i requires 0 <= i < |y| => y[i] - (m * i as real + c))
  }

  function SquaredError(y: seq<real>, m: real, c: real): real {
    Dot(Residuals(y, m, c), Residuals(y, m, c))
  }

  function TotalSquares(y: seq<real>): real
    requires y != []
  {
    Dot(Centered(y), Centered(y))
  }

  function RSquared(y: seq<real>): real
    requires y != []
  {
    var total := TotalSquares(y);
    if total > 0.0 then 1.0 - SquaredError(y, Slope(y), Intercept(y)) / total else 0.0
  }

  // ---------- algebra of sums ----------

  lemma Spread(p: real, a: real, b: real)
    ensures Times(p, a + b) == Times(p, a) + Times(p, b)
  {
  }

  lemma {:induction false} TotalMix(p: real, a: seq<real>, q: real, b: seq<real>)
    requires |a| == |b|
    ensures Total(Mix(p, a, q, b)) == Times(p, Total(a)) + Times(q, Total(b))
  {
    if a != [] {
      hide Times;
      var n := |a| - 1;
      TotalMix(p, a[..n], q, b[..n]);
      assert Mix(p, a, q, b)[..n] == Mix(p, a[..n], q, b[..n]);
      Spread(p, Total(a[..n]), a[n]);
      Spread(q, Total(b[..n]), b[n]);
    }
  }

  lemma {:induction false} TotalOnes(n: nat)
    ensures Total(Ones(n)) == n as real
  {
    if n > 0 {
      TotalOnes(n - 1);
      assert Ones(n)[..n - 1] == Ones(n - 1);
    }
  }

  lemma DotMix(p: real, a: seq<real>, q: real, b: seq<real>, d: seq<real>)
    requires |a| == |b| == |d|
    ensures Dot(Mix(p, a, q, b), d) == Times(p, Dot(a, d)) + Times(q, Dot(b, d))
  {
    hide Times;
    forall i | 0 <= i < |a|
      ensures Product(Mix(p, a, q, b), d)[i] == Mix(p, Product(a, d), q, Product(b, d))[i]
    {
      Distribute(p, a[i], q, b[i], d[i]);
    }
    assert Product(Mix(p, a, q, b), d) == Mix(p, Product(a, d), q, Product(b, d));
    TotalMix(p, Product(a, d), q, Product(b, d));
  }

  lemma Distribute(p: real, a: real, q: real, b: real, d: real)
    ensures Times(Times(p, a) + Times(q, b), d) == Times(p, Times(a, d)) + Times(q, Times(b, d))
  {
    assert (p * a + q * b) * d == p * a * d + q * b * d;
    assert p * a * d == p * (a * d);
    assert q * b * d == q * (b * d);
  }

  lemma DotSwap(a: seq<real>, b: seq<real>)
    requires |a| == |b|
    ensures Dot(a, b) == Dot(b, a)
  {
    assert Product(a, b) == Product(b, a);
  }

  lemma DotOnes(a: seq<real>)
    ensures Dot(a, Ones(|a|)) == Total(a)
  {
    assert Product(a, Ones(|a|)) == a;
  }

  /** A sum of squares is zero only when each is, and never negative. */
  lemma {:induction false} SquaresPositive(a: seq<real>)
    ensures Dot(a, a) >= 0.0
    ensures Dot(a, a) == 0.0 <==> forall i :: 0 <= i < |a| ==> a[i] == 0.0
  {
    if a != [] {
      hide Times;
      var n := |a| - 1;
      SquaresPositive(a[..n]);
      assert Product(a, a)[..n] == Product(a[..n], a[..n]);
      Square(a[n]);
      assert forall i :: 0 <= i < n ==> a[..n][i] == a[i];
    }
  }

  lemma Square(x: real)
    ensures Times(x, x) >= 0.0 && (Times(x, x) == 0.0 <==> x == 0.0)
  {
    Negated(x, x);
    Negated(x, -x);
    if x > 0.0 {
      Sign(x, x);
    } else if x < 0.0 {
      Sign(-x, -x);
    }
  }

  lemma CenteredMix(a: seq<real>)
    requires a != []
    ensures Centered(a) == Mix(1.0, a, -Mean(a), Ones(|a|))
  {
    var m := Mean(a);
    hide Mean, Times;
    forall i | 0 <= i < |a| ensures Centered(a)[i] == Mix(1.0, a, -m, Ones(|a|))[i] { Shifted(a[i], m); }
  }

  lemma Shifted(x: real, m: real)
    ensures x - m == Times(1.0, x) + Times(-m, 1.0)
  {
  }

  lemma MeanTotal(a: seq<real>)
    requires a != []
    ensures Times(Mean(a), |a| as real) == Total(a)
  {
    Cancel(Total(a), |a| as real);
  }

  /** What lies above the mean balances what lies below. */
  lemma CenteredBalance(a: seq<real>)
    requires a != []
    ensures Total(Centered(a)) == 0.0
  {
    hide *;
    CenteredMix(a);
    OnesLength(|a|);
    TotalMix(1.0, a, -Mean(a), Ones(|a|));
    TotalOnes(|a|);
    MeanTotal(a);
    Negated(1.0, Total(a));
    Negated(Mean(a), |a| as real);
  }

  lemma OnesLength(n: nat)
    ensures |Ones(n)| == n
  {
  }

  lemma Negated(a: real, b: real)
    ensures Times(-a, b) == -Times(a, b) && Times(a, -b) == -Times(a, b) && Times(1.0, b) == b
    ensures Times(a, b) == a * b
  {
  }

  lemma Cancel(t: real, n: real)
    requires n != 0.0
    ensures t / n * n == t
  {
  }

  // ---------- the best line ----------

  /** The positions differ from their mean, unless there is only one. */
  lemma Spreads(n: nat)
    requires n >= 1
    ensures Dot(Centered(Positions(n)), Centered(Positions(n))) == 0.0 <==> n == 1
  {
    var u := Centered(Positions(n));
    SquaresPositive(u);
    if n == 1 {
      assert Positions(1) == [0.0];
      assert Total([0.0]) == Total([]) + 0.0 by { assert [0.0][..0] == []; }
    } else {
      assert u[1] - u[0] == 1.0;
    }
  }

  /** The residuals of the fitted line, in centred form. */
  lemma ResidualsCentered(y: seq<real>)
    requires y != []
    ensures Residuals(y, Slope(y), Intercept(y))
      == Mix(1.0, Centered(y), -Slope(y), Centered(Positions(|y|)))
  {
    hide Slope, Mean;
    forall i | 0 <= i < |y|
      ensures Residuals(y, Slope(y), Intercept(y))[i]
        == Mix(1.0, Centered(y), -Slope(y), Centered(Positions(|y|)))[i]
    {
      Rearrange(y[i], Mean(y), Slope(y), i as real, Mean(Positions(|y|)));
    }
  }

  lemma Rearrange(y: real, ym: real, s: real, x: real, xm: real)
    ensures y - (s * x + (ym - s * xm)) == Times(1.0, y - ym) + Times(-s, x - xm)
  {
    assert -s * (x - xm) == -(s * x) + s * xm;
  }

  /** The slope solves the normal equation, also for a single value. */
  lemma SlopeSolves(y: seq<real>)
    requires y != []
    ensures var u := Centered(Positions(|y|)); Dot(Centered(y), u) == Times(Slope(y), Dot(u, u))
  {
    var u, v := Centered(Positions(|y|)), Centered(y);
    DotSwap(u, v);
    Spreads(|y|);
    if |y| == 1 {
      SquaresPositive(u);
      DotZero(u, v);
    } else {
      Cancel(Dot(u, v), Dot(u, u));
    }
  }

  lemma CenteredLengths(y: seq<real>)
    requires y != []
    ensures |Positions(|y|)| == |Centered(y)| == |Centered(Positions(|y|))| == |y|
  {
  }

  lemma MixLength(p: real, a: seq<real>, q: real, b: seq<real>)
    requires |a| == |b|
    ensures |Mix(p, a, q, b)| == |a|
  {
  }

  /** The residuals of the fitted line sum to zero, and are orthogonal to the positions. */
  lemma ResidualsBalance(y: seq<real>)
    requires y != []
    ensures Total(Residuals(y, Slope(y), Intercept(y))) == 0.0
    ensures |Residuals(y, Slope(y), Intercept(y))| == |Centered(Positions(|y|))|
    ensures Dot(Residuals(y, Slope(y), Intercept(y)), Centered(Positions(|y|))) == 0.0
  {
    hide *;
    CenteredLengths(y);
    var u, v, s := Centered(Positions(|y|)), Centered(y), Slope(y);
    ResidualsCentered(y);
    MixLength(1.0, v, -s, u);
    ResidualsSum(y, u, v, s);
    ResidualsAcross(y, u, v, s);
  }

  lemma ResidualsSum(y: seq<real>, u: seq<real>, v: seq<real>, s: real)
    requires y != [] && v == Centered(y) && u == Centered(Positions(|y|))
    ensures |u| == |v| && Total(Mix(1.0, v, -s, u)) == 0.0
  {
    CenteredLengths(y);
    hide *;
    CenteredBalance(y);
    CenteredBalance(Positions(|y|));
    TotalMix(1.0, v, -s, u);
    TimesAt(1.0);
    TimesAt(-s);
  }

  lemma ResidualsAcross(y: seq<real>, u: seq<real>, v: seq<real>, s: real)
    requires y != [] && v == Centered(y) && u == Centered(Positions(|y|)) && s == Slope(y)
    ensures |u| == |v| == |Mix(1.0, v, -s, u)| && Dot(Mix(1.0, v, -s, u), u) == 0.0
  {
    CenteredLengths(y);
    MixLength(1.0, v, -s, u);
    hide *;
    SlopeSolves(y);
    DotMix(1.0, v, -s, u, u);
    Negated(s, Dot(u, u));
    Negated(s, Dot(v, u));
  }

  lemma {:induction false} DotZero(a: seq<real>, b: seq<real>)
    requires |a| == |b| && forall i :: 0 <= i < |a| ==> a[i] == 0.0
    ensures Dot(a, b) == 0.0
  {
    if a != [] {
      var n := |a| - 1;
      DotZero(a[..n], b[..n]);
      assert Product(a, b)[..n] == Product(a[..n], b[..n]);
    }
  }

  // ---------- the error of any other line ----------

  lemma {:induction false} SquareOfSum(r: seq<real>, d: seq<real>)
    requires |r| == |d|
    ensures var w := Mix(1.0, r, 1.0, d); Dot(w, w) == Dot(r, r) + 2.0 * Dot(r, d) + Dot(d, d)
  {
    var w := Mix(1.0, r, 1.0, d);
    DotMix(1.0, r, 1.0, d, w);
    DotSwap(r, w);
    DotSwap(d, w);
    DotMix(1.0, r, 1.0, d, r);
    DotMix(1.0, r, 1.0, d, d);
    DotSwap(r, d);
    Negated(1.0, Dot(r, w));
    Negated(1.0, Dot(d, w));
    Negated(1.0, Dot(r, r));
    Negated(1.0, Dot(d, r));
    Negated(1.0, Dot(r, d));
    Negated(1.0, Dot(d, d));
    hide Times, Dot, Mix;
  }

  /** The gap at the mean position. */
  function MeanGap(y: seq<real>, m: real, c: real): real
    requires y != []
  {
    (Slope(y) - m) * Mean(Positions(|y|)) + Intercept(y) - c
  }

  /** What line (m, c) lies below the fitted line, at each position. */
  function Gap(y: seq<real>, m: real, c: real): seq<real>
    requires y != []
  {
    Mix(Slope(y) - m, Centered(Positions(|y|)), MeanGap(y, m, c), Ones(|y|))
  }

  lemma ResidualsShift(y: seq<real>, m: real, c: real)
    requires y != []
    ensures Residuals(y, m, c) == Mix(1.0, Residuals(y, Slope(y), Intercept(y)), 1.0, Gap(y, m, c))
  {
    hide Slope, Mean, Intercept;
    forall i | 0 <= i < |y|
      ensures Residuals(y, m, c)[i] == Mix(1.0, Residuals(y, Slope(y), Intercept(y)), 1.0, Gap(y, m, c))[i]
    {
      Shift(y[i], i as real, Slope(y), Intercept(y), m, c, Mean(Positions(|y|)));
    }
  }

  lemma Shift(y: real, x: real, s: real, t: real, m: real, c: real, xm: real)
    ensures y - (m * x + c)
      == Times(1.0, y - (s * x + t)) + Times(1.0, Times(s - m, x - xm) + Times((s - m) * xm + t - c, 1.0))
  {
    assert (s - m) * (x - xm) == (s - m) * x - (s - m) * xm;
    assert (s - m) * x == s * x - m * x;
  }

  lemma GapOrthogonal(y: seq<real>, m: real, c: real)
    requires y != []
    ensures Dot(Residuals(y, Slope(y), Intercept(y)), Gap(y, m, c)) == 0.0
  {
    ResidualsBalance(y);
    hide Slope, Intercept, Mean, Dot, Total, MeanGap;
    MixOrthogonal(Slope(y) - m, Centered(Positions(|y|)), MeanGap(y, m, c), Residuals(y, Slope(y), Intercept(y)));
  }

  lemma MixOrthogonal(p: real, u: seq<real>, q: real, r: seq<real>)
    requires |u| == |r| && Dot(r, u) == 0.0 && Total(r) == 0.0
    ensures Dot(r, Mix(p, u, q, Ones(|u|))) == 0.0
  {
    DotMix(p, u, q, Ones(|u|), r);
    DotSwap(r, Mix(p, u, q, Ones(|u|)));
    DotSwap(u, r);
    DotSwap(Ones(|u|), r);
    DotOnes(r);
    TimesAt(p);
    TimesAt(q);
    hide Dot, Total, Times;
  }

  /** The squared error of any line is that of the fitted line plus the square of the gap between them. */
  lemma ErrorSplits(y: seq<real>, m: real, c: real)
    requires y != []
    ensures SquaredError(y, m, c) == SquaredError(y, Slope(y), Intercept(y)) + Dot(Gap(y, m, c), Gap(y, m, c))
  {
    ResidualsShift(y, m, c);
    GapOrthogonal(y, m, c);
    assert |Gap(y, m, c)| == |y|;
    hide Slope, Intercept, Mean, Dot, Mix, Centered, Positions, Gap;
    SquareOfSum(Residuals(y, Slope(y), Intercept(y)), Gap(y, m, c));
  }

  /** No line has a smaller squared error than the fitted one. */
  lemma LeastSquares(y: seq<real>, m: real, c: real)
    requires y != []
    ensures 0.0 <= SquaredError(y, Slope(y), Intercept(y)) <= SquaredError(y, m, c)
  {
    ErrorSplits(y, m, c);
    SquaresPositive(Gap(y, m, c));
    SquaresPositive(Residuals(y, Slope(y), Intercept(y)));
  }

  /** With two values or more the fitted line is the only one with the least error. */
  lemma LeastSquaresUnique(y: seq<real>, m: real, c: real)
    requires |y| >= 2
    ensures SquaredError(y, m, c) == SquaredError(y, Slope(y), Intercept(y)) <==> m == Slope(y) && c == Intercept(y)
  {
    ErrorSplits(y, m, c);
    SquaresPositive(Gap(y, m, c));
    GapSteps(y, m, c);
    hide Slope, Intercept, Mean, Dot, Mix, Centered, Positions, Gap, Times, SquaredError;
    var p, g := Slope(y) - m, Gap(y, m, c);
    TimesAt(p);
    assert g[0] == Times(p, 0.0) + (Intercept(y) - c);
    assert g[1] == Times(p, 1.0) + (Intercept(y) - c);
    if p == 0.0 && c == Intercept(y) {
      forall i | 0 <= i < |g| ensures g[i] == 0.0 { TimesZero(i as real); }
    }
  }

  lemma TimesAt(p: real)
    ensures Times(p, 0.0) == 0.0 && Times(p, 1.0) == p
  {
  }

  lemma TimesZero(x: real)
    ensures Times(0.0, x) == 0.0
  {
  }

  /** The gap is c' - c at position 0 and grows by the difference of the slopes. */
  lemma GapSteps(y: seq<real>, m: real, c: real)
    requires y != []
    ensures |Gap(y, m, c)| == |y|
    ensures forall i :: 0 <= i < |y| ==> Gap(y, m, c)[i] == Times(Slope(y) - m, i as real) + (Intercept(y) - c)
  {
    hide Slope, Intercept, Mean;
    var p, xm := Slope(y) - m, Mean(Positions(|y|));
    forall i | 0 <= i < |y| ensures Gap(y, m, c)[i] == Times(p, i as real) + (Intercept(y) - c) {
      assert p * (i as real - xm) == p * i as real - p * xm;
      Negated(p * xm + Intercept(y) - c, 1.0);
      assert (p * xm + Intercept(y) - c) * 1.0 == p * xm + Intercept(y) - c;
    }
  }

  /** The fitted line explains between none and all of the variation, so the share that the forecast
      reports as its accuracy needs no clamping; it is all exactly when every value lies on the line. */
  lemma ShareExplained(y: seq<real>)
    requires y != []
    ensures 0.0 <= SquaredError(y, Slope(y), Intercept(y)) <= TotalSquares(y)
    ensures 0.0 <= RSquared(y) <= 1.0
    ensures TotalSquares(y) > 0.0 ==>
      (RSquared(y) == 1.0 <==> forall i :: 0 <= i < |y| ==> y[i] == Slope(y) * i as real + Intercept(y))
  {
    AllOnLine(y, Slope(y), Intercept(y));
    LeastSquares(y, 0.0, Mean(y));
    assert TotalSquares(y) == SquaredError(y, 0.0, Mean(y)) by { assert Residuals(y, 0.0, Mean(y)) == Centered(y); }
    hide Slope, Intercept, Mean, TotalSquares, SquaredError;
    if TotalSquares(y) > 0.0 {
      Ratio(SquaredError(y, Slope(y), Intercept(y)), TotalSquares(y));
    }
  }

  /** A line with the least squared error of all lines. */
  ghost predicate Least(y: seq<real>, m: real, c: real) {
    forall p, q :: SquaredError(y, m, c) <= SquaredError(y, p, q)
  }

  /** For any data the forecast is the value at the next position of the line with the least squared error,
      and for a single value that value. */
  lemma ForecastExact(y: seq<real>, m: real, c: real)
    requires y != [] && Least(y, m, c)
    ensures |y| >= 2 ==> LinearForecast(y) == m * |y| as real + c
    ensures |y| == 1 ==> LinearForecast(y) == y[0]
  {
    if |y| >= 2 {
      assert SquaredError(y, m, c) <= SquaredError(y, Slope(y), Intercept(y));
      LeastSquares(y, m, c);
      LeastSquaresUnique(y, m, c);
    } else {
      LoneForecast(y);
    }
  }

  lemma LoneForecast(y: seq<real>)
    requires |y| == 1
    ensures LinearForecast(y) == y[0]
  {
    LeastSquares(y, 0.0, y[0]);
    AllOnLine(y, 0.0, y[0]);
    AllOnLine(y, Slope(y), Intercept(y));
    LoneSlope(y);
    hide Slope, Intercept, SquaredError;
  }

  lemma LoneSlope(y: seq<real>)
    requires |y| == 1
    ensures Slope(y) == 0.0
  {
    var u := Centered(Positions(1));
    assert Positions(1)[..0] == [] && Product(u, u)[..0] == [];
    assert u[0] == 0.0;
  }

  /** R-squared is the part of the variation that the best line takes away; without variation it is zero. */
  lemma RSquaredExact(y: seq<real>, m: real, c: real)
    requires y != [] && Least(y, m, c)
    ensures Times(RSquared(y), TotalSquares(y)) == TotalSquares(y) - SquaredError(y, m, c)
    ensures TotalSquares(y) == 0.0 ==> RSquared(y) == 0.0
  {
    assert SquaredError(y, m, c) <= SquaredError(y, Slope(y), Intercept(y));
    LeastSquares(y, m, c);
    ShareExplained(y);
    hide Slope, Intercept, TotalSquares, SquaredError, Least;
    var a, b := SquaredError(y, m, c), TotalSquares(y);
    if b > 0.0 {
      Cancel(a, b);
      assert Times(1.0 - a / b, b) == b - a / b * b;
    }
  }

  /** The squared error of a line is zero exactly when every value lies on it. */
  lemma AllOnLine(y: seq<real>, m: real, c: real)
    ensures SquaredError(y, m, c) >= 0.0
    ensures SquaredError(y, m, c) == 0.0 <==> forall i :: 0 <= i < |y| ==> y[i] == m * i as real + c
  {
    var r := Residuals(y, m, c);
    SquaresPositive(r);
    hide Dot;
    assert forall i :: 0 <= i < |y| ==> (r[i] == 0.0 <==> y[i] == m * i as real + c);
  }

  lemma Ratio(a: real, b: real)
    requires 0.0 <= a <= b && b > 0.0
    ensures 0.0 <= a / b <= 1.0 && (a / b == 0.0 <==> a == 0.0)
  {
    Cancel(a, b);
    var q := a / b;
    assert Times(q, b) == a;
    Sign(q, b);
    Sign(1.0 - q, b);
    assert Times(1.0 - q, b) == b - Times(q, b);
    hide Times;
  }

  lemma Sign(q: real, b: real)
    requires b > 0.0
    ensures (Times(q, b) >= 0.0 <==> q >= 0.0) && (Times(q, b) == 0.0 <==> q == 0.0)
  {
    if q > 0.0 {
      assert q * b > 0.0;
    } else if q < 0.0 {
      assert -q * b > 0.0;
      assert -q * b == -(q * b);
    }
  }
}
