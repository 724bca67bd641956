/**
 * The closed-form trend fit of the batch analytics, over reals. Optimality is proved by
 * expanding the squared error in the data's moments and completing the squares.
 */
module Regression {

  function Sum(s: seq<real>): real { if s == [] then 0.0 else s[0] + Sum(s[1..]) }

  /** A product under a name, so that proofs can treat it as an atom. */
  function Times(p: real, q: real): real { p * q }

  function Dot(s: seq<real>, t: seq<real>): real
    requires |s| == |t|
  {
    if s == [] then 0.0 else Times(s[0], t[0]) + Dot(s[1..], t[1..])
  }

  function Mean(s: seq<real>): real
    requires s != []
  {
    Sum(s) / |s| as real
  }

  function Shifted(s: seq<real>, m: real): seq<real> { seq(|s|, i requires 0 <= i < |s| => s[i] - m) }

  function Residual(x: real, y: real, a: real, b: real): real { y - (a * x + b) }

  function Residuals(x: seq<real>, y: seq<real>, a: real, b: real): seq<real>
    requires |x| == |y|
  {
    seq(|x|, i requires 0 <= i < |x| => Residual(x[i], y[i], a, b))
  }

  /** Sum of squared residuals of the line y = a * x + b. */
  function SquaredError(x: seq<real>, y: seq<real>, a: real, b: real): real
    requires |x| == |y|
  {
    Dot(Residuals(x, y, a, b), Residuals(x, y, a, b))
  }

  function Square(r: real): real { Times(r, r) }

  function Abs(r: real): real { if r >= 0.0 then r else -r }

  datatype Trend = Stable | Upward | Downward

  datatype Fit = Fit(slope: real, intercept: real, rSquared: real, trend: Trend)

  function TrendOf(slope: real, mean: real): Trend {
    var floor := if Abs(mean) >= 0.0000000001 then Abs(mean) else 0.0000000001;
    if Abs(slope * 3600.0) / floor < 0.01 then Stable else if slope > 0.0 then Upward else Downward
  }

  /** Spread of the timestamps around their mean. */
  function Spread(x: seq<real>): real
    requires x != []
  {
    Dot(Shifted(x, Mean(x)), Shifted(x, Mean(x)))
  }

  function Slope(x: seq<real>, y: seq<real>): real
    requires |x| == |y| && x != [] && Spread(x) != 0.0
  {
    Dot(Shifted(x, Mean(x)), y) / Spread(x)
  }

  function Intercept(x: seq<real>, y: seq<real>): real
    requires |x| == |y| && x != [] && Spread(x) != 0.0
  {
    Mean(y) - Times(Slope(x, y), Mean(x))
  }

  function RSquared(residual: real, total: real): real { if total != 0.0 then 1.0 - residual / total else 0.0 }

  /** `_compute_linear_regression` before its results are rounded and R-squared is clamped. */
  function Regress(x: seq<real>, y: seq<real>): Fit
    requires |x| == |y|
  {
    if |x| < 2 then Fit(0.0, 0.0, 0.0, Stable)
    else if Spread(x) == 0.0 then Fit(0.0, Mean(y), 0.0, Stable)
    else
      var slope, intercept := Slope(x, y), Intercept(x, y);
      Fit(slope, intercept,
          RSquared(SquaredError(x, y, slope, intercept), SquaredError(x, y, 0.0, Mean(y))), TrendOf(slope, Mean(y)))
  }

  ghost predicate Constant(x: seq<real>) { forall i, j :: 0 <= i < |x| && 0 <= j < |x| ==> x[i] == x[j] }

  // -------------------------------------------------------------------- moments

  /** Sums of products of the data: enough to know the squared error of every line. */
  datatype Moments = Moments(n: real, sx: real, sy: real, xx: real, xy: real, yy: real)

  function Plus(m: Moments, x: real, y: real): Moments {
    Moments(m.n + 1.0, x + m.sx, y + m.sy, Times(x, x) + m.xx, Times(x, y) + m.xy, Times(y, y) + m.yy)
  }

  function MomentsOf(x: seq<real>, y: seq<real>): Moments
    requires |x| == |y|
  {
    Moments(|x| as real, Sum(x), Sum(y), Dot(x, x), Dot(x, y), Dot(y, y))
  }

  function ErrorFrom(m: Moments, a: real, b: real): real {
    m.yy - 2.0 * a * m.xy - 2.0 * b * m.sy + a * a * m.xx + 2.0 * a * b * m.sx + m.n * b * b
  }

  lemma ErrorPlus(m: Moments, x: real, y: real, a: real, b: real)
    ensures ErrorFrom(Plus(m, x, y), a, b) == Square(Residual(x, y, a, b)) + ErrorFrom(m, a, b)
  {
  }

  lemma ErrorStep(x: seq<real>, y: seq<real>, a: real, b: real)
    requires |x| == |y| && x != []
    ensures SquaredError(x, y, a, b) == Square(Residual(x[0], y[0], a, b)) + SquaredError(x[1..], y[1..], a, b)
  {
    assert Residuals(x, y, a, b)[1..] == Residuals(x[1..], y[1..], a, b);
  }

  lemma MomentsStep(x: seq<real>, y: seq<real>)
    requires |x| == |y| && x != []
    ensures MomentsOf(x, y) == Plus(MomentsOf(x[1..], y[1..]), x[0], y[0])
  {
  }

  lemma {:induction false} ErrorByMoments(x: seq<real>, y: seq<real>, a: real, b: real)
    requires |x| == |y|
    ensures SquaredError(x, y, a, b) == ErrorFrom(MomentsOf(x, y), a, b)
  {
    if x != [] {
      ErrorByMoments(x[1..], y[1..], a, b);
      ErrorStep(x, y, a, b);
      MomentsStep(x, y);
      ErrorPlus(MomentsOf(x[1..], y[1..]), x[0], y[0], a, b);
    }
  }

  lemma Distribute(c: real, p: real, q: real, r: real)
    requires p == q + r
    ensures Times(c, p) == Times(c, q) + Times(c, r)
  {
  }

  /** Centering: the deviations from the mean add up to zero. */
  lemma {:induction false} SumShifted(x: seq<real>, m: real)
    ensures Sum(Shifted(x, m)) == Sum(x) - Times(m, |x| as real)
  {
    if x != [] {
      SumShifted(x[1..], m);
      assert Shifted(x, m)[1..] == Shifted(x[1..], m);
      Distribute(m, |x| as real, 1.0, |x[1..]| as real);
    }
  }

  lemma CenteredSum(x: seq<real>)
    requires x != []
    ensures Sum(Shifted(x, Mean(x))) == 0.0
  {
    SumShifted(x, Mean(x));
    Quotient(Sum(x), |x| as real);
  }

  lemma {:induction false} DotShifted(s: seq<real>, y: seq<real>, m: real)
    requires |s| == |y|
    ensures Dot(s, Shifted(y, m)) == Dot(s, y) - Times(m, Sum(s))
  {
    if s != [] {
      DotShifted(s[1..], y[1..], m);
      assert Shifted(y, m)[1..] == Shifted(y[1..], m) && Shifted(y, m)[0] == y[0] - m;
      Distribute(m, Sum(s), s[0], Sum(s[1..]));
      Distribute(s[0], y[0], Shifted(y, m)[0], m);
    }
  }

  lemma ResidualShifted(x: real, y: real, mx: real, my: real, a: real, b: real, w: real)
    requires w == b - my + Times(a, mx)
    ensures Residual(x, y, a, b) == Residual(x - mx, y - my, a, w)
  {
    Distribute(a, x, x - mx, mx);
  }

  /** Moving the origin to the means changes the offset of a line, not its error. */
  lemma ErrorShifted(x: seq<real>, y: seq<real>, mx: real, my: real, a: real, b: real, w: real)
    requires |x| == |y| && w == b - my + Times(a, mx)
    ensures SquaredError(x, y, a, b) == SquaredError(Shifted(x, mx), Shifted(y, my), a, w)
  {
    var r, p, q := Residuals(x, y, a, b), Shifted(x, mx), Shifted(y, my);
    forall i | 0 <= i < |x| ensures r[i] == Residuals(p, q, a, w)[i] {
      ResidualShifted(x[i], y[i], mx, my, a, b, w);
    }
    assert r == Residuals(p, q, a, w);
  }

  lemma Positive(p: real, q: real)
    requires p > 0.0 && q > 0.0
    ensures Times(p, q) > 0.0
  {
    assert p * q > 0.0;
  }

  lemma NegatedSquare(r: real)
    ensures Square(-r) == Square(r)
  {
  }

  lemma SquareSign(r: real)
    ensures Square(r) >= 0.0 && (Square(r) == 0.0 <==> r == 0.0)
  {
    if r > 0.0 {
      Positive(r, r);
    } else if r < 0.0 {
      Positive(-r, -r);
      NegatedSquare(r);
    }
  }

  lemma {:induction false} DotSelfNonNegative(s: seq<real>)
    ensures Dot(s, s) >= 0.0
    ensures Dot(s, s) == 0.0 <==> forall i :: 0 <= i < |s| ==> s[i] == 0.0
  {
    if s != [] {
      var t := s[1..];
      DotSelfNonNegative(t);
      SquareSign(s[0]);
      assert Dot(s, s) == Square(s[0]) + Dot(t, t);
      assert (forall i :: 0 <= i < |s| ==> s[i] == 0.0)
        <==> s[0] == 0.0 && forall i :: 0 <= i < |t| ==> t[i] == 0.0 by {
        assert forall i :: 0 <= i < |t| ==> t[i] == s[i + 1];
        assert forall i :: 0 < i < |s| ==> s[i] == t[i - 1];
      }
    }
  }

  lemma {:induction false} SumOfConstant(x: seq<real>, c: real)
    requires forall i :: 0 <= i < |x| ==> x[i] == c
    ensures Sum(x) == Times(c, |x| as real)
  {
    if x != [] {
      SumOfConstant(x[1..], c);
      Distribute(c, |x| as real, 1.0, |x[1..]| as real);
    }
  }

  lemma DivideBack(n: real, c: real)
    requires n > 0.0
    ensures Times(c, n) / n == c
  {
    var q := Times(c, n) / n;
    assert q * n == c * n;
    assert (q - c) * n == 0.0;
  }

  lemma MeanOfConstant(x: seq<real>)
    requires x != [] && Constant(x)
    ensures Mean(x) == x[0]
  {
    SumOfConstant(x, x[0]);
    DivideBack(|x| as real, x[0]);
  }

  /** The degenerate branch is taken exactly for constant timestamps. */
  lemma DegenerateIffConstant(x: seq<real>)
    requires x != []
    ensures Spread(x) >= 0.0 && (Spread(x) == 0.0 <==> Constant(x))
  {
    var c := Shifted(x, Mean(x));
    DotSelfNonNegative(c);
    assert forall i :: 0 <= i < |x| ==> c[i] == x[i] - Mean(x);
    if Constant(x) { MeanOfConstant(x); }
  }

  // ------------------------------------------------------- completing the squares

  /** Error of a line over centered data: a constant, a parabola in the slope and one in the offset. */
  function Form(yy: real, c: real, d: real, n: real, a: real, w: real): real {
    yy - 2.0 * Times(a, c) + Times(Square(a), d) + Times(n, Square(w))
  }

  lemma CenteredForm(m: Moments, a: real, w: real)
    requires m.sx == 0.0 && m.sy == 0.0
    ensures ErrorFrom(m, a, w) == Form(m.yy, m.xy, m.xx, m.n, a, w)
  {
  }

  function Covariance(x: seq<real>, y: seq<real>): real
    requires |x| == |y| && x != []
  {
    Dot(Shifted(x, Mean(x)), y)
  }

  function Variance(y: seq<real>): real
    requires y != []
  {
    Dot(Shifted(y, Mean(y)), Shifted(y, Mean(y)))
  }

  /** The squared error of any line, from spread, covariance and variance. */
  lemma ErrorForm(x: seq<real>, y: seq<real>, a: real, b: real, w: real)
    requires |x| == |y| && x != [] && w == b - Mean(y) + Times(a, Mean(x))
    ensures SquaredError(x, y, a, b) == Form(Variance(y), Covariance(x, y), Spread(x), |x| as real, a, w)
  {
    var p, q := Shifted(x, Mean(x)), Shifted(y, Mean(y));
    ErrorShifted(x, y, Mean(x), Mean(y), a, b, w);
    ErrorByMoments(p, q, a, w);
    CenteredSum(x);
    CenteredSum(y);
    CenteredForm(MomentsOf(p, q), a, w);
    assert Dot(p, q) == Covariance(x, y) by {
      DotShifted(p, y, Mean(y));
      assert Times(Mean(y), 0.0) == 0.0;
    }
  }

  /** At slope c/d and offset 0 both parabolas are at their lowest point, and only there. */
  lemma Vertex(yy: real, c: real, d: real, n: real, s: real, a: real, w: real)
    requires d > 0.0 && n > 0.0 && Times(s, d) == c
    ensures Form(yy, c, d, n, s, 0.0) <= Form(yy, c, d, n, a, w)
    ensures Form(yy, c, d, n, s, 0.0) == Form(yy, c, d, n, a, w) ==> a == s && w == 0.0
  {
    Parabola(a, s, c, d);
    Weighted(d, a - s);
    Weighted(n, w);
  }

  lemma Parabola(a: real, s: real, c: real, d: real)
    requires Times(s, d) == c
    ensures Times(Square(a), d) - 2.0 * Times(a, c) == Times(Square(s), d) - 2.0 * Times(s, c) + Times(d, Square(a - s))
  {
    assert a * c == a * (s * d) && s * c == s * (s * d);
  }

  lemma Weighted(w: real, r: real)
    requires w > 0.0
    ensures Times(w, Square(r)) >= 0.0 && (Times(w, Square(r)) == 0.0 <==> r == 0.0)
  {
    SquareSign(r);
    if r != 0.0 { Positive(w, Square(r)); }
  }

  lemma Quotient(c: real, d: real)
    requires d != 0.0
    ensures Times(c / d, d) == c
  {
  }

  // ------------------------------------------------------------------- theorems

  lemma BestLine(x: seq<real>, y: seq<real>, a: real, b: real)
    requires |x| == |y| && x != [] && Spread(x) > 0.0
    ensures var s, i := Slope(x, y), Intercept(x, y);
      && SquaredError(x, y, s, i) <= SquaredError(x, y, a, b)
      && (SquaredError(x, y, a, b) == SquaredError(x, y, s, i) ==> a == s && b == i)
  {
    var s, i, w := Slope(x, y), Intercept(x, y), b - Mean(y) + Times(a, Mean(x));
    ErrorForm(x, y, a, b, w);
    ErrorForm(x, y, s, i, 0.0);
    Quotient(Covariance(x, y), Spread(x));
    Compare(SquaredError(x, y, a, b), SquaredError(x, y, s, i), Variance(y), Covariance(x, y), Spread(x), |x| as real,
            Mean(x), Mean(y), a, b, s, i, w);
  }

  lemma Compare(e: real, best: real, yy: real, c: real, d: real, n: real, mx: real, my: real, a: real,
                b: real, s: real, i: real, w: real)
    requires d > 0.0 && n > 0.0 && Times(s, d) == c && i == my - Times(s, mx) && w == b - my + Times(a, mx)
    requires e == Form(yy, c, d, n, a, w) && best == Form(yy, c, d, n, s, 0.0)
    ensures best <= e && (e == best ==> a == s && b == i)
  {
    Vertex(yy, c, d, n, s, a, w);
  }

  /** Least squares: no line has a smaller squared error, and any line that does as well is the fitted one. */
  lemma LeastSquares(x: seq<real>, y: seq<real>, a: real, b: real)
    requires |x| == |y| && |x| >= 2 && !Constant(x)
    ensures var f := Regress(x, y);
      && SquaredError(x, y, f.slope, f.intercept) <= SquaredError(x, y, a, b)
      && (SquaredError(x, y, a, b) == SquaredError(x, y, f.slope, f.intercept) ==> a == f.slope && b == f.intercept)
  {
    DegenerateIffConstant(x);
    BestLine(x, y, a, b);
  }

  lemma ErrorNonNegative(x: seq<real>, y: seq<real>, a: real, b: real)
    requires |x| == |y|
    ensures SquaredError(x, y, a, b) >= 0.0
  {
    DotSelfNonNegative(Residuals(x, y, a, b));
  }

  /** R-squared needs no clamping: it is the explained share of the variance, already in [0, 1]. */
  lemma RSquaredRange(x: seq<real>, y: seq<real>)
    requires |x| == |y|
    ensures 0.0 <= Regress(x, y).rSquared <= 1.0
  {
    if |x| >= 2 {
      DegenerateIffConstant(x);
      if !Constant(x) {
        var f := Regress(x, y);
        var residual, total := SquaredError(x, y, f.slope, f.intercept), SquaredError(x, y, 0.0, Mean(y));
        LeastSquares(x, y, 0.0, Mean(y));
        ErrorNonNegative(x, y, f.slope, f.intercept);
        if total != 0.0 { Share(residual, total); }
      }
    }
  }

  /** The total error vanishes exactly for constant values. */
  lemma TotalVanishes(x: seq<real>, y: seq<real>)
    requires |x| == |y| && y != []
    ensures SquaredError(x, y, 0.0, Mean(y)) >= 0.0
    ensures SquaredError(x, y, 0.0, Mean(y)) == 0.0 <==> Constant(y)
  {
    var r := Residuals(x, y, 0.0, Mean(y));
    assert forall i :: 0 <= i < |y| ==> r[i] == y[i] - Mean(y);
    DotSelfNonNegative(r);
    if Constant(y) { MeanOfConstant(y); }
  }

  /** All points lie on the line y = a * x + b. */
  ghost predicate OnLine(x: seq<real>, y: seq<real>, a: real, b: real)
    requires |x| == |y|
  {
    forall i :: 0 <= i < |x| ==> y[i] == a * x[i] + b
  }

  lemma NoErrorIffExact(x: seq<real>, y: seq<real>, a: real, b: real)
    requires |x| == |y|
    ensures SquaredError(x, y, a, b) == 0.0 <==> OnLine(x, y, a, b)
  {
    var r := Residuals(x, y, a, b);
    assert forall i :: 0 <= i < |x| ==> r[i] == y[i] - (a * x[i] + b);
    DotSelfNonNegative(r);
  }

  /** The fitted line does no better than the mean exactly if it is flat. */
  lemma FlatIffMean(x: seq<real>, y: seq<real>)
    requires |x| == |y| && |x| >= 2 && !Constant(x)
    ensures var f := Regress(x, y);
      SquaredError(x, y, f.slope, f.intercept) == SquaredError(x, y, 0.0, Mean(y)) <==> f.slope == 0.0
  {
    DegenerateIffConstant(x);
    LeastSquares(x, y, 0.0, Mean(y));
  }

  /**
   * What R-squared says: the share of the squared error around the mean that the fitted line explains. It is 1 exactly
   * for data on the fitted line, and 0 exactly for a flat fit; for constant values it is 0.
   */
  lemma RSquaredMeaning(x: seq<real>, y: seq<real>)
    requires |x| == |y| && |x| >= 2 && !Constant(x)
    ensures var f := Regress(x, y);
      && Times(f.rSquared, SquaredError(x, y, 0.0, Mean(y)))
           == SquaredError(x, y, 0.0, Mean(y)) - SquaredError(x, y, f.slope, f.intercept)
      && (Constant(y) ==> f.rSquared == 0.0 && f.slope == 0.0)
      && (!Constant(y) ==> (f.rSquared == 1.0 <==> OnLine(x, y, f.slope, f.intercept)))
      && (!Constant(y) ==> (f.rSquared == 0.0 <==> f.slope == 0.0))
  {
    var f := Regress(x, y);
    var residual, total := SquaredError(x, y, f.slope, f.intercept), SquaredError(x, y, 0.0, Mean(y));
    assert f.rSquared == RSquared(residual, total) by { DegenerateIffConstant(x); }
    TotalVanishes(x, y);
    NoErrorIffExact(x, y, f.slope, f.intercept);
    FlatIffMean(x, y);
    if total > 0.0 {
      Explained(residual, total);
    } else {
      assert residual == 0.0 by {
        LeastSquares(x, y, 0.0, Mean(y));
        ErrorNonNegative(x, y, f.slope, f.intercept);
      }
    }
  }

  lemma Explained(residual: real, total: real)
    requires total > 0.0
    ensures Times(RSquared(residual, total), total) == total - residual
    ensures RSquared(residual, total) == 1.0 <==> residual == 0.0
    ensures RSquared(residual, total) == 0.0 <==> residual == total
  {
    var q := residual / total;
    assert q * total == residual;
    assert (1.0 - q) * total == total - residual;
  }

  /** For constant timestamps, where every line is a constant, the mean is a best one. */
  lemma ConstantTimestamps(x: seq<real>, y: seq<real>, a: real, b: real)
    requires |x| == |y| && |x| >= 2 && Constant(x)
    ensures var f := Regress(x, y);
      && f == Fit(0.0, Mean(y), 0.0, Stable)
      && SquaredError(x, y, f.slope, f.intercept) <= SquaredError(x, y, a, b)
  {
    DegenerateIffConstant(x);
    var w, p := b - Mean(y) + Times(a, Mean(x)), Shifted(x, Mean(x));
    ErrorForm(x, y, a, b, w);
    ErrorForm(x, y, 0.0, Mean(y), Times(0.0, Mean(x)));
    MeanOfConstant(x);
    assert forall i :: 0 <= i < |p| ==> p[i] == 0.0;
    ZeroDot(p, y);
    FlatForm(Variance(y), |x| as real, a, w);
  }

  lemma {:induction false} ZeroDot(p: seq<real>, y: seq<real>)
    requires |p| == |y| && forall i :: 0 <= i < |p| ==> p[i] == 0.0
    ensures Dot(p, y) == 0.0
  {
    if p != [] { ZeroDot(p[1..], y[1..]); }
  }

  lemma FlatForm(yy: real, n: real, a: real, w: real)
    requires n > 0.0
    ensures Form(yy, 0.0, 0.0, n, 0.0, 0.0) == yy <= Form(yy, 0.0, 0.0, n, a, w)
  {
    Weighted(n, w);
    assert Times(a, 0.0) == 0.0 && Times(Square(a), 0.0) == 0.0;
  }

  lemma Share(part: real, whole: real)
    requires 0.0 <= part <= whole && whole > 0.0
    ensures 0.0 <= part / whole <= 1.0
  {
    var q := part / whole;
    assert q * whole == part;
    assert q > 1.0 ==> q * whole > whole;
    assert q < 0.0 ==> q * whole < 0.0;
  }

  lemma ExactLineHasNoError(x: seq<real>, y: seq<real>, p: real, q: real)
    requires |x| == |y| && forall i :: 0 <= i < |x| ==> y[i] == p * x[i] + q
    ensures SquaredError(x, y, p, q) == 0.0
  {
    DotSelfNonNegative(Residuals(x, y, p, q));
  }

  /** Round trip: data lying on a line gives that line back. */
  lemma ExactLineRecovered(x: seq<real>, y: seq<real>, p: real, q: real)
    requires |x| == |y| && |x| >= 2 && !Constant(x) && forall i :: 0 <= i < |x| ==> y[i] == p * x[i] + q
    ensures Regress(x, y).slope == p && Regress(x, y).intercept == q
  {
    var f := Regress(x, y);
    ExactLineHasNoError(x, y, p, q);
    ErrorNonNegative(x, y, f.slope, f.intercept);
    LeastSquares(x, y, p, q);
  }

  /** The trend of a fit, by its slope and the mean of its values. */
  lemma FittedTrend(x: seq<real>, y: seq<real>)
    requires |x| == |y|
    ensures |x| < 2 ==> Regress(x, y) == Fit(0.0, 0.0, 0.0, Stable)
    ensures |x| >= 2 ==>
      var f, floor := Regress(x, y), if Abs(Mean(y)) >= 0.0000000001 then Abs(Mean(y)) else 0.0000000001;
      && (f.trend.Stable? <==> Abs(f.slope) * 3600.0 < 0.01 * floor)
      && (f.trend.Upward? <==> !f.trend.Stable? && f.slope > 0.0)
      && (f.trend.Downward? <==> !f.trend.Stable? && f.slope < 0.0)
  {
    if |x| >= 2 { TrendMeaning(Regress(x, y).slope, Mean(y)); }
  }

  /** The trend without division: stable means less than one percent of the mean per hour. */
  lemma TrendMeaning(slope: real, mean: real)
    ensures var floor := if Abs(mean) >= 0.0000000001 then Abs(mean) else 0.0000000001;
      && (TrendOf(slope, mean).Stable? <==> Abs(slope) * 3600.0 < 0.01 * floor)
      && (TrendOf(slope, mean).Upward? ==> slope > 0.0) && (TrendOf(slope, mean).Downward? ==> slope < 0.0)
  {
    var floor := if Abs(mean) >= 0.0000000001 then Abs(mean) else 0.0000000001;
    var q := Abs(slope * 3600.0) / floor;
    Quotient(Abs(slope * 3600.0), floor);
    assert q < 0.01 <==> q * floor < 0.01 * floor;
    assert Abs(slope * 3600.0) == Abs(slope) * 3600.0;
  }
}
