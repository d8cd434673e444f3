/** The continuation-value estimator of the Longstaff-Schwartz method: an ordinary
    least-squares line with one predictor and an intercept, fitted and then used to
    predict at the same points (pricing_models.py lines 135-136, which call a
    library regression). */
module LeastSquares {

  function Sum(s: seq<real>): real
  {
    if |s| == 0 then 0.0 else s[0] + Sum(s[1..])
  }

  /** The inner product of two sequences of the same length. */
  function Dot(a: seq<real>, b: seq<real>): real
    requires |a| == |b|
  {
    if |a| == 0 then 0.0 else a[0] * b[0] + Dot(a[1..], b[1..])
  }

  function Mean(s: seq<real>): real
    requires |s| > 0
  {
    Sum(s) / |s| as real
  }

  datatype Line = Line(intercept: real, slope: real)

  function Predict(line: Line, x: real): real
  {
    line.intercept + line.slope * x
  }

  /** The sums a one-predictor least-squares fit needs: the sample count and the
      sums of x, y, x*x and x*y. */
  datatype Moments = Moments(n: real, sx: real, sy: real, sxx: real, sxy: real)

  function SampleMoments(xs: seq<real>, ys: seq<real>): Moments
    requires |xs| == |ys|
  {
    Moments(|xs| as real, Sum(xs), Sum(ys), Dot(xs, xs), Dot(xs, ys))
  }

  /** The sums after one more sample (x, y). */
  function AddSample(m: Moments, x: real, y: real): Moments
  {
    Moments(m.n + 1.0, m.sx + x, m.sy + y, m.sxx + x * x, m.sxy + x * y)
  }

  /** n times the variance of the predictor: the sum of its squared deviations
      from its mean. */
  function Spread(m: Moments): real
    requires m.n > 0.0
  {
    m.sxx - m.n * (m.sx / m.n) * (m.sx / m.n)
  }

  /** The normal equation of the intercept: the residuals sum to zero. */
  predicate InterceptEquation(m: Moments, line: Line) {
    m.sy - m.n * line.intercept - line.slope * m.sx == 0.0
  }

  /** The normal equation of the slope: the residuals are orthogonal to the predictor. */
  predicate SlopeEquation(m: Moments, line: Line) {
    m.sxy - line.intercept * m.sx - line.slope * m.sxx == 0.0
  }

  /** The least-squares line through the samples summarised by m. When the
      predictor does not vary (one sample, or every sample at one price) the slope
      is zero and the line is the mean response: the minimum-norm solution a
      least-squares solver returns. */
  function LineFromMoments(m: Moments): (line: Line)
    requires m.n > 0.0
    ensures InterceptEquation(m, line)
    ensures Spread(m) != 0.0 ==> SlopeEquation(m, line)
    ensures Spread(m) == 0.0 ==> line == Line(m.sy / m.n, 0.0)
  {
    var mx, my := m.sx / m.n, m.sy / m.n;
    var slope := if Spread(m) == 0.0 then 0.0 else (m.sxy - m.n * mx * my) / Spread(m);
    MomentsSolveNormalEquations(m.n, m.sx, m.sy, m.sxx, m.sxy, mx, my, Spread(m), slope);
    Line(my - slope * mx, slope)
  }

  /** The least-squares line fitted to the samples (xs[k], ys[k]). */
  function Fit(xs: seq<real>, ys: seq<real>): (line: Line)
    requires |xs| == |ys| > 0
    ensures InterceptEquation(SampleMoments(xs, ys), line)
    ensures Spread(SampleMoments(xs, ys)) != 0.0 ==> SlopeEquation(SampleMoments(xs, ys), line)
    ensures Spread(SampleMoments(xs, ys)) == 0.0 ==> line == Line(Mean(ys), 0.0)
  {
    LineFromMoments(SampleMoments(xs, ys))
  }

  lemma {:induction false} SumAppend(s: seq<real>, x: real)
    ensures Sum(s + [x]) == Sum(s) + x
  {
    if |s| > 0 {
      assert (s + [x])[1..] == s[1..] + [x];
      SumAppend(s[1..], x);
    }
  }

  lemma {:induction false} DotAppend(a: seq<real>, b: seq<real>, x: real, y: real)
    requires |a| == |b|
    ensures Dot(a + [x], b + [y]) == Dot(a, b) + x * y
  {
    if |a| > 0 {
      assert (a + [x])[1..] == a[1..] + [x];
      assert (b + [y])[1..] == b[1..] + [y];
      DotAppend(a[1..], b[1..], x, y);
    }
  }

  /** Adding one sample adds it to each of the sums. */
  lemma SampleMomentsAppend(xs: seq<real>, ys: seq<real>, x: real, y: real)
    requires |xs| == |ys|
    ensures SampleMoments(xs + [x], ys + [y]) == AddSample(SampleMoments(xs, ys), x, y)
  {
    SumAppend(xs, x);
    SumAppend(ys, y);
    DotAppend(xs, xs, x, x);
    DotAppend(xs, ys, x, y);
  }

  /** The residuals y - prediction of a line at each sample. */
  function Residuals(xs: seq<real>, ys: seq<real>, line: Line): (r: seq<real>)
    requires |xs| == |ys|
    ensures |r| == |xs|
  {
    if |xs| == 0 then [] else [ys[0] - Predict(line, xs[0])] + Residuals(xs[1..], ys[1..], line)
  }

  /** One step of SumOfResiduals, over plain numbers. */
  lemma SumStep(y0: real, x0: real, sy: real, sx: real, a: real, b: real, n: real)
    ensures (y0 - (a + b * x0)) + (sy - (n - 1.0) * a - b * sx) == (y0 + sy) - n * a - b * (x0 + sx)
  {
    assert b * x0 + b * sx == b * (x0 + sx);
    assert (n - 1.0) * a == n * a - a;
  }

  /** The residuals sum to the sum of the responses less n intercepts and the slope
      times the sum of the predictor. */
  lemma {:induction false} SumOfResiduals(xs: seq<real>, ys: seq<real>, line: Line)
    requires |xs| == |ys|
    ensures Sum(Residuals(xs, ys, line))
            == Sum(ys) - |xs| as real * line.intercept - line.slope * Sum(xs)
  {
    if |xs| > 0 {
      SumOfResiduals(xs[1..], ys[1..], line);
      var r := Residuals(xs, ys, line);
      assert r[1..] == Residuals(xs[1..], ys[1..], line);
      SumStep(ys[0], xs[0], Sum(ys[1..]), Sum(xs[1..]), line.intercept, line.slope, |xs| as real);
    }
  }

  /** The normal equations in terms of the sums alone. */
  lemma MomentsSolveNormalEquations(n: real, sx: real, sy: real, sxx: real, sxy: real,
                                     mx: real, my: real, spread: real, b: real)
    requires n > 0.0 && mx == sx / n && my == sy / n && spread == sxx - n * mx * mx
    requires b == if spread == 0.0 then 0.0 else (sxy - n * mx * my) / spread
    ensures sy - n * (my - b * mx) - b * sx == 0.0
    ensures spread != 0.0 ==> sxy - (my - b * mx) * sx - b * sxx == 0.0
  {
    assert sx == n * mx && sy == n * my;
    assert n * (my - b * mx) == n * my - b * (n * mx);
    if spread != 0.0 {
      assert b * spread == sxy - n * mx * my;
      assert (my - b * mx) * (n * mx) == n * mx * my - b * (n * mx * mx);
      assert b * spread == b * sxx - b * (n * mx * mx);
    }
  }

  /** Any line that satisfies the normal equation of the intercept leaves
      residuals that sum to zero. */
  lemma ResidualsSumToZero(xs: seq<real>, ys: seq<real>, line: Line)
    requires |xs| == |ys|
    requires InterceptEquation(SampleMoments(xs, ys), line)
    ensures Sum(Residuals(xs, ys, line)) == 0.0
  {
    SumOfResiduals(xs, ys, line);
  }

  /** The fitted line leaves residuals that sum to zero. */
  lemma FitResidualsSumToZero(xs: seq<real>, ys: seq<real>)
    requires |xs| == |ys| > 0
    ensures Sum(Residuals(xs, ys, Fit(xs, ys))) == 0.0
  {
    ResidualsSumToZero(xs, ys, Fit(xs, ys));
  }
}
