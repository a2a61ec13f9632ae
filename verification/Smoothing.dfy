/** Double exponential smoothing, and what both forecasts do with a linear trend. */
module Smoothing {
  import opened Forecast

  const ALPHA := 0.3
  const BETA := 0.1

  datatype Smoothed = Smoothed(level: real, trend: real)

  function Smooth(s: Smoothed, value: real): Smoothed {
    var level := ALPHA * value + (1.0 - ALPHA) * (s.level + s.trend);
    Smoothed(level, BETA * (level - s.level) + (1.0 - BETA) * s.trend)
  }

  /** Level and trend after the first n values. */
  function Holt(y: seq<real>, n: nat): Smoothed
    requires |y| >= 2 && 1 <= n <= |y|
  {
    if n == 1 then Smoothed(y[0], y[1] - y[0]) else Smooth(Holt(y, n - 1), y[n - 1])
  }

  /** Five-minute steps in a horizon given in minutes, at least one. */
  function Steps(horizon: int): (h: int)
    ensures h >= 1
    ensures horizon >= 5 ==> 5 * h <= horizon < 5 * h + 5
    ensures horizon < 5 ==> h == 1
  {
    if horizon / 5 > 1 then horizon / 5 else 1
  }

  function HoltForecast(y: seq<real>, horizon: int): real
    requires |y| >= 2
  {
    var s := Holt(y, |y|);
    s.level + Times(Steps(horizon) as real, s.trend)
  }

  /** The Holt forecast; fewer than three values go to linear regression. */
  method SmoothedForecast(values: seq<real>, horizon: int) returns (predicted: real)
    requires values != []
    ensures predicted == if |values| < 3 then LinearForecast(values) else HoltForecast(values, horizon)
  {
    if |values| < 3 {
      return LinearForecast(values);
    }
    var level := values[0];
    var trend := values[1] - values[0];
    for i := 1 to |values|
      invariant Smoothed(level, trend) == Holt(values, i)
    {
      var before := level;
      level := ALPHA * values[i] + (1.0 - ALPHA) * (level + trend);
      trend := BETA * (level - before) + (1.0 - BETA) * trend;
    }
    predicted := level + Steps(horizon) as real * trend;
  }

  // ---------- how much a value weighs ----------

  /** What a value differs from the one that level and trend foretell. */
  function Surprise(y: seq<real>, n: nat): real
    requires |y| >= 2 && 1 <= n < |y|
  {
    y[n] - (Holt(y, n).level + Holt(y, n).trend)
  }

  function Surprises(y: seq<real>, n: nat): real
    requires |y| >= 2 && 1 <= n <= |y|
  {
    if n == 1 then 0.0 else Surprises(y, n - 1) + Surprise(y, n - 1)
  }

  /** For any data the level ends three tenths of the way from the foretold value to the last value, and
      the trend is the first difference corrected by three hundredths of all surprises together. */
  lemma {:induction false} SurprisesCorrect(y: seq<real>, n: nat)
    requires |y| >= 2 && 1 <= n <= |y|
    ensures Holt(y, n).trend == y[1] - y[0] + 0.03 * Surprises(y, n)
    ensures n == 1 ==> Holt(y, n).level == y[0]
    ensures n > 1 ==> Holt(y, n).level == y[n - 1] - 0.7 * Surprise(y, n - 1)
  {
    if n > 1 {
      SurprisesCorrect(y, n - 1);
    }
  }

  lemma {:induction false} HoltPrefix(y: seq<real>, z: seq<real>, n: nat)
    requires 2 <= |y| <= |z| && 1 <= n <= |y| && y[0] == z[0] && y[1] == z[1] && y[..n] == z[..n]
    ensures Holt(y, n) == Holt(z, n)
  {
    if n > 1 {
      assert y[..n - 1] == y[..n][..n - 1] && z[..n - 1] == z[..n][..n - 1];
      HoltPrefix(y, z, n - 1);
      assert y[n - 1] == y[..n][n - 1] && z[n - 1] == z[..n][n - 1];
    }
  }

  /** Whatever came before, raising the last value by d raises the forecast h steps ahead by
      0.3 * d + 0.03 * h * d. */
  lemma LastValueWeighs(y: seq<real>, d: real, horizon: int)
    requires |y| >= 3
    ensures var z := y[|y| - 1 := y[|y| - 1] + d];
      HoltForecast(z, horizon) == HoltForecast(y, horizon) + 0.3 * d + Times(Steps(horizon) as real, 0.03 * d)
  {
    var n := |y| - 1;
    var z := y[n := y[n] + d];
    HoltPrefix(y, z, n);
    var s := Holt(y, n);
    assert Holt(z, |z|) == Smooth(s, z[n]) && Holt(y, |y|) == Smooth(s, y[n]);
    var l, t := Holt(y, |y|), Holt(z, |z|);
    assert t.level == l.level + 0.3 * d && t.trend == l.trend + 0.03 * d;
    Spread(Steps(horizon) as real, l.trend, 0.03 * d);
    hide Holt, Times;
  }

  // ---------- adding a line to the data ----------

  /** Every value raised by the line a + b * i. */
  function AddLine(y: seq<real>, a: real, b: real): seq<real> {
    seq(|y|, i requires 0 <= i < |y| => y[i] + (a + Times(b, i as real)))
  }

  /** Smoothing follows an added line exactly: level and trend move with it. */
  lemma {:induction false} HoltShifts(y: seq<real>, a: real, b: real, n: nat)
    requires |y| >= 2 && 1 <= n <= |y|
    ensures Holt(AddLine(y, a, b), n)
      == Smoothed(Holt(y, n).level + (a + Times(b, (n - 1) as real)), Holt(y, n).trend + b)
  {
    TimesAt(b);
    hide Times;
    if n > 1 {
      HoltShifts(y, a, b, n - 1);
      Spread(b, (n - 2) as real, 1.0);
      assert (n - 2) as real + 1.0 == (n - 1) as real;
    }
  }

  /** Adding a line to any data adds to the Holt forecast the value of that line at the horizon. */
  lemma HoltForecastShifts(y: seq<real>, a: real, b: real, horizon: int)
    requires |y| >= 2
    ensures HoltForecast(AddLine(y, a, b), horizon)
      == HoltForecast(y, horizon) + (a + Times(b, (|y| - 1 + Steps(horizon)) as real))
  {
    HoltShifts(y, a, b, |y|);
    var h := Steps(horizon) as real;
    Spread(b, (|y| - 1) as real, h);
    Spread(h, Holt(y, |y|).trend, b);
    assert Times(h, b) == Times(b, h);
    hide Holt, Times;
    assert (|y| - 1) as real + h == (|y| - 1 + Steps(horizon)) as real;
  }

  lemma ErrorShifts(y: seq<real>, a: real, b: real, m: real, c: real)
    ensures SquaredError(AddLine(y, a, b), m + b, c + a) == SquaredError(y, m, c)
  {
    forall i | 0 <= i < |y|
      ensures y[i] + (a + Times(b, i as real)) - ((m + b) * i as real + (c + a)) == y[i] - (m * i as real + c)
    {
      assert (m + b) * i as real == m * i as real + b * i as real;
    }
    assert Residuals(AddLine(y, a, b), m + b, c + a) == Residuals(y, m, c);
  }

  /** The fitted line moves with a line added to the data. */
  lemma LineShifts(y: seq<real>, a: real, b: real)
    requires |y| >= 2
    ensures Slope(AddLine(y, a, b)) == Slope(y) + b && Intercept(AddLine(y, a, b)) == Intercept(y) + a
  {
    var z := AddLine(y, a, b);
    hide Slope, Intercept, SquaredError;
    ErrorShifts(y, a, b, Slope(y), Intercept(y));
    ErrorShifts(y, a, b, Slope(z) - b, Intercept(z) - a);
    LeastSquares(y, Slope(z) - b, Intercept(z) - a);
    LeastSquares(z, Slope(y) + b, Intercept(y) + a);
    assert Slope(z) - b + b == Slope(z) && Intercept(z) - a + a == Intercept(z);
    LeastSquaresUnique(z, Slope(y) + b, Intercept(y) + a);
  }

  /** On exactly linear data the regression recovers the line and forecasts its next value, and the
      Holt forecast is the line's value that many steps ahead. */
  lemma LinearDataExact(y: seq<real>, a: real, b: real, horizon: int)
    requires |y| >= 2 && forall i :: 0 <= i < |y| ==> y[i] == a + Times(b, i as real)
    ensures Slope(y) == b && Intercept(y) == a && LinearForecast(y) == a + b * |y| as real
    ensures HoltForecast(y, horizon) == a + Times(b, (|y| - 1 + Steps(horizon)) as real)
  {
    var zeros := seq(|y|, i => 0.0);
    assert y == AddLine(zeros, a, b);
    LineShifts(zeros, a, b);
    FlatLine(zeros);
    HoltForecastShifts(zeros, a, b, horizon);
    HoltFlat(zeros, |y|);
    assert Times(Steps(horizon) as real, 0.0) == 0.0;
    hide Slope, Intercept, Holt;
  }

  lemma FlatLine(zeros: seq<real>)
    requires |zeros| >= 2 && forall i :: 0 <= i < |zeros| ==> zeros[i] == 0.0
    ensures Slope(zeros) == 0.0 && Intercept(zeros) == 0.0
  {
    AllOnLine(zeros, 0.0, 0.0);
    LeastSquares(zeros, 0.0, 0.0);
    LeastSquaresUnique(zeros, 0.0, 0.0);
  }

  lemma {:induction false} HoltFlat(zeros: seq<real>, n: nat)
    requires |zeros| >= 2 && (forall i :: 0 <= i < |zeros| ==> zeros[i] == 0.0) && 1 <= n <= |zeros|
    ensures Holt(zeros, n) == Smoothed(0.0, 0.0)
  {
    if n > 1 {
      HoltFlat(zeros, n - 1);
    }
  }
}
