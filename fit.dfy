/** Sums of squared residuals and the ordinary-least-squares closed form:
    the regression arithmetic of the view, stated as functions over the
    point list and proved correct as lemmas. */
module Fit {
  import opened Domain

  function Square(r: real): real
  {
    r * r
  }

  /** Vertical distance from a point to the line. */
  function Residual(p: Point, m: real, b: real): real
  {
    p.y - YOnLine(m, b, p.x)
  }

  /** The sum of a per-point quantity f, accumulated from the first point to
      the last, in the order a forward loop over the points adds them. */
  function Sum(ps: seq<Point>, f: Point -> real): real
  {
    if |ps| == 0 then 0.0 else Sum(ps[..|ps| - 1], f) + f(ps[|ps| - 1])
  }

  // Per-point quantities that the sums add up

  function One(p: Point): real { 1.0 }
  function XOf(p: Point): real { p.x }
  function YOf(p: Point): real { p.y }
  function XYOf(p: Point): real { p.x * p.y }
  function XXOf(p: Point): real { Square(p.x) }

  function ResidualOf(m: real, b: real): Point -> real
  {
    (p: Point) => Residual(p, m, b)
  }

  function ResidualMomentOf(m: real, b: real): Point -> real
  {
    (p: Point) => Residual(p, m, b) * p.x
  }

  function SquaredResidualOf(m: real, b: real): Point -> real
  {
    (p: Point) => Square(Residual(p, m, b))
  }

  function SquaredDeviationOf(c: real): Point -> real
  {
    (p: Point) => Square(p.x - c)
  }

  /** Every point lies exactly on the line y = m*x + b. */
  ghost predicate AllOnLine(ps: seq<Point>, m: real, b: real)
  {
    forall i :: 0 <= i < |ps| ==> ps[i].y == YOnLine(m, b, ps[i].x)
  }

  /** Every point has the same x value. */
  ghost predicate AllXEqual(ps: seq<Point>)
  {
    forall i, j :: 0 <= i < |ps| && 0 <= j < |ps| ==> ps[i].x == ps[j].x
  }

  /** Sum of squared residuals; never negative, since it adds squares to 0. */
  function Sse(ps: seq<Point>, m: real, b: real): (s: real)
    ensures s >= 0.0
  {
    SquaredResidualNonnegative(ps, m, b);
    SumNonnegative(ps, SquaredResidualOf(m, b));
    Sum(ps, SquaredResidualOf(m, b))
  }

  /** s / n, taken as 0 for an empty list (the source divides by zero there). */
  function Average(s: real, n: nat): real
  {
    if n == 0 then 0.0 else s / n as real
  }

  function MeanX(ps: seq<Point>): real
  {
    Average(Sum(ps, XOf), |ps|)
  }

  function MeanY(ps: seq<Point>): real
  {
    Average(Sum(ps, YOf), |ps|)
  }

  /** sum/n - mx*my: a second moment taken about the means mx and my. */
  function CentredMoment(sum: real, n: nat, mx: real, my: real): real
  {
    Average(sum, n) - mx * my
  }

  /** cov/var, with slope 0 instead of a division by zero. */
  function SlopeOf(cov: real, variance: real): real
  {
    if variance == 0.0 then 0.0 else cov / variance
  }

  /** The intercept that puts the point (mx, my) on a line of slope m. */
  function InterceptOf(my: real, m: real, mx: real): real
  {
    my - m * mx
  }

  function CovXY(ps: seq<Point>): real
  {
    CentredMoment(Sum(ps, XYOf), |ps|, MeanX(ps), MeanY(ps))
  }

  function VarX(ps: seq<Point>): real
  {
    CentredMoment(Sum(ps, XXOf), |ps|, MeanX(ps), MeanX(ps))
  }

  /** The fitted slope; zero x-variance gives slope 0 instead of a division by zero. */
  function FitSlope(ps: seq<Point>): real
  {
    SlopeOf(CovXY(ps), VarX(ps))
  }

  /** The fitted intercept, chosen so that the line meets the centroid. */
  function FitIntercept(ps: seq<Point>): real
  {
    InterceptOf(MeanY(ps), FitSlope(ps), MeanX(ps))
  }

  // ---------------------------------------------------------------------
  // Real-arithmetic helpers

  lemma Scale(a: real, t: real, u: real, v: real)
    requires t == u + v
    ensures a * t == a * u + a * v
  {
  }

  lemma SquareZero(r: real)
    ensures Square(r) >= 0.0
    ensures r != 0.0 ==> Square(r) > 0.0
  {
    if r > 0.0 {
      calc {
        Square(r);
        r * r;
      > { PositiveProduct(r, r); }
        0.0;
      }
    } else if r < 0.0 {
      calc {
        Square(r);
        (-r) * (-r);
      > { PositiveProduct(-r, -r); }
        0.0;
      }
    } else {
      calc {
        Square(r);
        0.0 * 0.0;
      }
    }
  }

  lemma PositiveFactor(n: real, v: real)
    requires n > 0.0
    ensures n * v >= 0.0 ==> v >= 0.0
    ensures n * v == 0.0 <==> v == 0.0
  {
    if v < 0.0 {
      PositiveProduct(n, -v);
      assert n * v == -(n * (-v));
    } else if v > 0.0 {
      PositiveProduct(n, v);
    }
  }

  lemma ScaleMean(n: real, s: real)
    requires n > 0.0
    ensures n * (s / n) == s
  {
  }

  // ---------------------------------------------------------------------
  // Generic facts about Sum

  lemma {:induction false} SumNonnegative(ps: seq<Point>, f: Point -> real)
    requires forall i :: 0 <= i < |ps| ==> f(ps[i]) >= 0.0
    ensures Sum(ps, f) >= 0.0
  {
    if |ps| > 0 {
      var init := ps[..|ps| - 1];
      assert forall i :: 0 <= i < |init| ==> init[i] == ps[i];
      SumNonnegative(init, f);
    }
  }

  /** A sum of non-negative terms is zero exactly when every term is. */
  lemma {:induction false} SumZeroIff(ps: seq<Point>, f: Point -> real)
    requires forall i :: 0 <= i < |ps| ==> f(ps[i]) >= 0.0
    ensures Sum(ps, f) == 0.0 <==> forall i :: 0 <= i < |ps| ==> f(ps[i]) == 0.0
  {
    if |ps| > 0 {
      var init := ps[..|ps| - 1];
      assert forall i :: 0 <= i < |init| ==> init[i] == ps[i];
      SumZeroIff(init, f);
      SumNonnegative(init, f);
      if Sum(ps, f) == 0.0 {
        forall i | 0 <= i < |ps| ensures f(ps[i]) == 0.0 {
          if i < |init| {
            assert init[i] == ps[i];
          }
        }
      }
    }
  }

  /** On every point, k = f - a*g - c*h. */
  ghost predicate IsCombination(ps: seq<Point>, k: Point -> real, f: Point -> real,
                                g: Point -> real, h: Point -> real, a: real, c: real)
  {
    forall i :: 0 <= i < |ps| ==> k(ps[i]) == f(ps[i]) - a * g(ps[i]) - c * h(ps[i])
  }

  /** On every point, k >= f - a*g - c*h. */
  ghost predicate BoundsCombination(ps: seq<Point>, k: Point -> real, f: Point -> real,
                                    g: Point -> real, h: Point -> real, a: real, c: real)
  {
    forall i :: 0 <= i < |ps| ==> k(ps[i]) >= f(ps[i]) - a * g(ps[i]) - c * h(ps[i])
  }

  /** The same combination taken of the sums: Sum f - a * Sum g - c * Sum h. */
  function Combination(ps: seq<Point>, f: Point -> real, g: Point -> real,
                       h: Point -> real, a: real, c: real): real
  {
    Sum(ps, f) - a * Sum(ps, g) - c * Sum(ps, h)
  }

  /** A sum of a pointwise combination is that combination of the sums. */
  lemma {:induction false} SumCombine(ps: seq<Point>, k: Point -> real, f: Point -> real,
                                      g: Point -> real, h: Point -> real, a: real, c: real)
    requires IsCombination(ps, k, f, g, h, a, c)
    ensures Sum(ps, k) == Combination(ps, f, g, h, a, c)
  {
    if |ps| > 0 {
      var init, p := ps[..|ps| - 1], ps[|ps| - 1];
      assert forall i :: 0 <= i < |init| ==> init[i] == ps[i];
      SumCombine(init, k, f, g, h, a, c);
      Scale(a, Sum(ps, g), Sum(init, g), g(p));
      Scale(c, Sum(ps, h), Sum(init, h), h(p));
    }
  }

  /** The same with an inequality: k >= f - a*g - c*h pointwise carries over to the sums. */
  lemma {:induction false} SumCombineAtLeast(ps: seq<Point>, k: Point -> real, f: Point -> real,
                                             g: Point -> real, h: Point -> real, a: real, c: real)
    requires BoundsCombination(ps, k, f, g, h, a, c)
    ensures Sum(ps, k) >= Combination(ps, f, g, h, a, c)
  {
    if |ps| > 0 {
      var init, p := ps[..|ps| - 1], ps[|ps| - 1];
      assert forall i :: 0 <= i < |init| ==> init[i] == ps[i];
      SumCombineAtLeast(init, k, f, g, h, a, c);
      Scale(a, Sum(ps, g), Sum(init, g), g(p));
      Scale(c, Sum(ps, h), Sum(init, h), h(p));
    }
  }

  /** k = a*f on every point gives Sum k = a * Sum f. */
  lemma {:induction false} SumScale(ps: seq<Point>, k: Point -> real, f: Point -> real, a: real)
    requires forall i :: 0 <= i < |ps| ==> k(ps[i]) == a * f(ps[i])
    ensures Sum(ps, k) == a * Sum(ps, f)
  {
    if |ps| > 0 {
      var init, p := ps[..|ps| - 1], ps[|ps| - 1];
      assert forall i :: 0 <= i < |init| ==> init[i] == ps[i];
      SumScale(init, k, f, a);
      Scale(a, Sum(ps, f), Sum(init, f), f(p));
    }
  }

  /** A constant term c on every point sums to n*c. */
  lemma {:induction false} SumConstant(ps: seq<Point>, f: Point -> real, c: real)
    requires forall i :: 0 <= i < |ps| ==> f(ps[i]) == c
    ensures Sum(ps, f) == (|ps| as real) * c
  {
    if |ps| > 0 {
      var init := ps[..|ps| - 1];
      assert forall i :: 0 <= i < |init| ==> init[i] == ps[i];
      SumConstant(init, f, c);
      Scale(c, |ps| as real, |init| as real, 1.0);
    }
  }

  // ---------------------------------------------------------------------
  // Sum of squared errors

  lemma {:induction false} SquaredResidualNonnegative(ps: seq<Point>, m: real, b: real)
    ensures forall i :: 0 <= i < |ps| ==> SquaredResidualOf(m, b)(ps[i]) >= 0.0
  {
    forall i | 0 <= i < |ps| ensures SquaredResidualOf(m, b)(ps[i]) >= 0.0 {
      SquareZero(Residual(ps[i], m, b));
    }
  }

  /** The SSE is zero exactly when every point lies on the line. */
  lemma {:induction false} SseZeroIff(ps: seq<Point>, m: real, b: real)
    ensures Sse(ps, m, b) == 0.0 <==> AllOnLine(ps, m, b)
  {
    SquaredResidualNonnegative(ps, m, b);
    SumZeroIff(ps, SquaredResidualOf(m, b));
    forall i | 0 <= i < |ps|
      ensures SquaredResidualOf(m, b)(ps[i]) == 0.0 <==> ps[i].y == YOnLine(m, b, ps[i].x)
    {
      SquareZero(Residual(ps[i], m, b));
    }
  }

  /** Where the second and third sums vanish, the combination is the first sum. */
  lemma CombinationOfZeros(ps: seq<Point>, f: Point -> real, g: Point -> real,
                           h: Point -> real, a: real, c: real)
    requires Sum(ps, g) == 0.0 && Sum(ps, h) == 0.0
    ensures Combination(ps, f, g, h, a, c) == Sum(ps, f)
  {
  }

  // ---------------------------------------------------------------------
  // Closed forms of the residual sums

  lemma {:induction false} SumOne(ps: seq<Point>)
    ensures Sum(ps, One) == |ps| as real
  {
    SumConstant(ps, One, 1.0);
  }

  lemma {:induction false} ResidualWeights(ps: seq<Point>, m: real, b: real)
    ensures IsCombination(ps, ResidualOf(m, b), YOf, XOf, One, m, b)
  {
    forall i | 0 <= i < |ps|
      ensures ResidualOf(m, b)(ps[i]) == YOf(ps[i]) - m * XOf(ps[i]) - b * One(ps[i])
    {
    }
  }

  /** The residuals sum to Sy - m*Sx - b*n. */
  lemma {:induction false} ResidualSumClosed(ps: seq<Point>, m: real, b: real)
    ensures Sum(ps, ResidualOf(m, b)) == Sum(ps, YOf) - m * Sum(ps, XOf) - b * (|ps| as real)
  {
    ResidualWeights(ps, m, b);
    SumCombine(ps, ResidualOf(m, b), YOf, XOf, One, m, b);
    SumOne(ps);
  }

  lemma {:induction false} MomentWeights(ps: seq<Point>, m: real, b: real)
    ensures IsCombination(ps, ResidualMomentOf(m, b), XYOf, XXOf, XOf, m, b)
  {
    forall i | 0 <= i < |ps|
      ensures ResidualMomentOf(m, b)(ps[i]) == XYOf(ps[i]) - m * XXOf(ps[i]) - b * XOf(ps[i])
    {
      var p := ps[i];
      calc {
        ResidualMomentOf(m, b)(p);
        (p.y - (m * p.x + b)) * p.x;
        p.x * p.y - m * (p.x * p.x) - b * p.x;
      }
    }
  }

  // ---------------------------------------------------------------------
  // Variance of x

  lemma {:induction false} DeviationWeights(ps: seq<Point>, c: real)
    ensures IsCombination(ps, SquaredDeviationOf(c), XXOf, XOf, One, 2.0 * c, -Square(c))
  {
    forall i | 0 <= i < |ps|
      ensures SquaredDeviationOf(c)(ps[i]) == XXOf(ps[i]) - (2.0 * c) * XOf(ps[i]) - (-Square(c)) * One(ps[i])
    {
      var x := ps[i].x;
      calc {
        SquaredDeviationOf(c)(ps[i]);
        (x - c) * (x - c);
        x * x - (2.0 * c) * x + c * c;
      }
    }
  }

  lemma VarianceIdentity(n: real, sx: real, sxx: real, mx: real, v: real,
                          twoMx: real, negSq: real, w: real, t: real)
    requires n > 0.0
    requires mx == sx / n
    requires v == sxx / n - mx * mx
    requires twoMx == 2.0 * mx
    requires negSq == -Square(mx)
    requires w == n
    requires t == sxx - twoMx * sx - negSq * w
    ensures n * v == t
  {
    ScaleMean(n, sx);
    ScaleMean(n, sxx);
    calc {
      n * v;
      n * (sxx / n - mx * mx);
      n * (sxx / n) - n * (mx * mx);
      sxx - n * (mx * mx);
      sxx - 2.0 * mx * (n * mx) + n * (mx * mx);
      { assert n * mx == n * (sx / n) == sx; }
      sxx - twoMx * sx - negSq * w;
    }
  }

  /** n * VarX = Sxx - 2*c*Sx + c^2*n, where c is the mean of x. */
  lemma {:induction false} VarianceBalances(ps: seq<Point>, c: real)
    requires |ps| > 0
    requires c == MeanX(ps)
    ensures (|ps| as real) * VarX(ps) == Combination(ps, XXOf, XOf, One, 2.0 * c, -Square(c))
  {
    SumOne(ps);
    VarianceIdentity(|ps| as real, Sum(ps, XOf), Sum(ps, XXOf), c, VarX(ps),
                     2.0 * c, -Square(c), Sum(ps, One), Combination(ps, XXOf, XOf, One, 2.0 * c, -Square(c)));
  }

  /** n * VarX is the sum of squared deviations of x from its mean. */
  lemma {:induction false} VarXScaled(ps: seq<Point>)
    requires |ps| > 0
    ensures (|ps| as real) * VarX(ps) == Sum(ps, SquaredDeviationOf(MeanX(ps)))
  {
    var c := MeanX(ps);
    DeviationWeights(ps, c);
    SumCombine(ps, SquaredDeviationOf(c), XXOf, XOf, One, 2.0 * c, -Square(c));
    VarianceBalances(ps, c);
  }

  lemma {:induction false} DeviationNonnegative(ps: seq<Point>, c: real)
    ensures forall i :: 0 <= i < |ps| ==> SquaredDeviationOf(c)(ps[i]) >= 0.0
  {
    forall i | 0 <= i < |ps| ensures SquaredDeviationOf(c)(ps[i]) >= 0.0 {
      SquareZero(ps[i].x - c);
    }
  }

  /** The x-variance is never negative. */
  lemma {:induction false} VarXNonnegative(ps: seq<Point>)
    requires |ps| > 0
    ensures VarX(ps) >= 0.0
  {
    VarXScaled(ps);
    DeviationNonnegative(ps, MeanX(ps));
    SumNonnegative(ps, SquaredDeviationOf(MeanX(ps)));
    PositiveFactor(|ps| as real, VarX(ps));
  }

  /** The sum of squared deviations from c is zero exactly when every x equals c. */
  lemma {:induction false} DeviationZeroIff(ps: seq<Point>, c: real)
    ensures Sum(ps, SquaredDeviationOf(c)) == 0.0 <==> forall i :: 0 <= i < |ps| ==> ps[i].x == c
  {
    DeviationNonnegative(ps, c);
    SumZeroIff(ps, SquaredDeviationOf(c));
    forall i | 0 <= i < |ps| ensures SquaredDeviationOf(c)(ps[i]) == 0.0 <==> ps[i].x == c {
      SquareZero(ps[i].x - c);
    }
  }

  /** When all x values equal c, their mean is c. */
  lemma {:induction false} MeanOfConstantX(ps: seq<Point>, c: real)
    requires |ps| > 0
    requires forall i :: 0 <= i < |ps| ==> ps[i].x == c
    ensures MeanX(ps) == c
  {
    SumConstant(ps, XOf, c);
  }

  /** The x-variance is zero exactly when every x equals the mean of x. */
  lemma {:induction false} VarXZeroAtMean(ps: seq<Point>)
    requires |ps| > 0
    ensures VarX(ps) == 0.0 <==> forall i :: 0 <= i < |ps| ==> ps[i].x == MeanX(ps)
  {
    VarXScaled(ps);
    PositiveFactor(|ps| as real, VarX(ps));
    DeviationZeroIff(ps, MeanX(ps));
  }

  /** The x-variance vanishes exactly when every point has the same x. */
  lemma {:induction false} VarXZeroIff(ps: seq<Point>)
    requires |ps| > 0
    ensures VarX(ps) == 0.0 <==> AllXEqual(ps)
  {
    VarXZeroAtMean(ps);
    if AllXEqual(ps) {
      MeanOfConstantX(ps, ps[0].x);
    }
  }

  /** Degenerate data: equal x values give slope 0 and the mean of y as intercept. */
  lemma {:induction false} AllXEqualFit(ps: seq<Point>)
    requires |ps| > 0
    requires AllXEqual(ps)
    ensures FitSlope(ps) == 0.0
    ensures FitIntercept(ps) == MeanY(ps)
  {
    VarXZeroIff(ps);
  }

  /** The fitted line passes through the centroid (mean x, mean y). */
  lemma {:induction false} FitThroughCentroid(ps: seq<Point>)
    requires |ps| > 0
    ensures YOnLine(FitSlope(ps), FitIntercept(ps), MeanX(ps)) == MeanY(ps)
  {
  }

  // ---------------------------------------------------------------------
  // Normal equations at the fitted line

  lemma NormalSum(n: real, sx: real, sy: real, m: real, b: real, mx: real, my: real, w: real, t: real)
    requires n > 0.0
    requires mx == sx / n
    requires my == sy / n
    requires b == my - m * mx
    requires w == n
    requires t == sy - m * sx - b * w
    ensures t == 0.0
  {
    ScaleMean(n, sx);
    ScaleMean(n, sy);
    calc {
      t;
      sy - m * sx - (my - m * mx) * n;
      sy - m * sx - n * my + m * (n * mx);
      sy - m * sx - sy + m * sx;
      0.0;
    }
  }

  /** The sums balance at the fitted line: Sy - m*Sx - b*n == 0. */
  lemma {:induction false} InterceptBalances(ps: seq<Point>)
    requires |ps| > 0
    ensures Combination(ps, YOf, XOf, One, FitSlope(ps), FitIntercept(ps)) == 0.0
  {
    SumOne(ps);
    NormalSum(|ps| as real, Sum(ps, XOf), Sum(ps, YOf), FitSlope(ps), FitIntercept(ps), MeanX(ps), MeanY(ps),
              Sum(ps, One), Combination(ps, YOf, XOf, One, FitSlope(ps), FitIntercept(ps)));
  }

  /** The residuals of the fitted line sum to zero. */
  lemma {:induction false} FitResidualSumZero(ps: seq<Point>)
    requires |ps| > 0
    ensures Sum(ps, ResidualOf(FitSlope(ps), FitIntercept(ps))) == 0.0
  {
    var m, b := FitSlope(ps), FitIntercept(ps);
    ResidualWeights(ps, m, b);
    SumCombine(ps, ResidualOf(m, b), YOf, XOf, One, m, b);
    InterceptBalances(ps);
  }

  lemma NormalMoment(n: real, sx: real, sy: real, sxy: real, sxx: real,
                     mx: real, my: real, cov: real, vx: real, m: real, b: real, t: real)
    requires n > 0.0
    requires mx == sx / n
    requires my == sy / n
    requires cov == sxy / n - mx * my
    requires vx == sxx / n - mx * mx
    requires vx != 0.0
    requires m == cov / vx
    requires b == my - m * mx
    requires t == sxy - m * sxx - b * sx
    ensures t == 0.0
  {
    ScaleMean(n, sx);
    ScaleMean(n, sxy);
    ScaleMean(n, sxx);
    assert m * vx == cov;
    assert sx == n * mx;
    assert sxy == n * (cov + mx * my);
    assert sxx == n * (vx + mx * mx);
    calc {
      t;
      n * (cov + mx * my) - m * (n * (vx + mx * mx)) - (my - m * mx) * (n * mx);
      n * cov - n * (m * vx);
      n * cov - n * cov;
      0.0;
    }
  }

  /** With non-zero variance the moment sums balance at the fitted line:
      Sxy - m*Sxx - b*Sx == 0. */
  lemma {:induction false} MomentBalances(ps: seq<Point>)
    requires |ps| > 0
    requires VarX(ps) != 0.0
    ensures Combination(ps, XYOf, XXOf, XOf, FitSlope(ps), FitIntercept(ps)) == 0.0
  {
    NormalMoment(|ps| as real, Sum(ps, XOf), Sum(ps, YOf), Sum(ps, XYOf), Sum(ps, XXOf),
                 MeanX(ps), MeanY(ps), CovXY(ps), VarX(ps), FitSlope(ps), FitIntercept(ps),
                 Combination(ps, XYOf, XXOf, XOf, FitSlope(ps), FitIntercept(ps)));
  }

  /** With every x equal to c, residuals summing to zero make the x-weighted
      residuals sum to zero too. */
  lemma {:induction false} ConstantXMoment(ps: seq<Point>, c: real, m: real, b: real)
    requires forall i :: 0 <= i < |ps| ==> ps[i].x == c
    requires Sum(ps, ResidualOf(m, b)) == 0.0
    ensures Sum(ps, ResidualMomentOf(m, b)) == 0.0
  {
    forall i | 0 <= i < |ps| ensures ResidualMomentOf(m, b)(ps[i]) == c * ResidualOf(m, b)(ps[i]) {
    }
    SumScale(ps, ResidualMomentOf(m, b), ResidualOf(m, b), c);
  }

  /** The x-weighted residuals of the fitted line sum to zero. */
  lemma {:induction false} FitResidualMomentZero(ps: seq<Point>)
    requires |ps| > 0
    ensures Sum(ps, ResidualMomentOf(FitSlope(ps), FitIntercept(ps))) == 0.0
  {
    var m, b := FitSlope(ps), FitIntercept(ps);
    if VarX(ps) == 0.0 {
      VarXZeroAtMean(ps);
      FitResidualSumZero(ps);
      ConstantXMoment(ps, MeanX(ps), m, b);
    } else {
      MomentWeights(ps, m, b);
      SumCombine(ps, ResidualMomentOf(m, b), XYOf, XXOf, XOf, m, b);
      MomentBalances(ps);
    }
  }

  // ---------------------------------------------------------------------
  // Global optimality of the fitted line

  lemma ShiftPoint(p: Point, m: real, b: real, m': real, b': real)
    ensures SquaredResidualOf(m', b')(p) >= SquaredResidualOf(m, b)(p)
                                            - (2.0 * (m' - m)) * ResidualMomentOf(m, b)(p)
                                            - (2.0 * (b' - b)) * ResidualOf(m, b)(p)
  {
    var r, d := Residual(p, m, b), (m' - m) * p.x + (b' - b);
    assert Residual(p, m', b') == r - d;
    SquareZero(d);
    calc {
      Square(r - d);
      Square(r) - 2.0 * r * d + Square(d);
    >=
      Square(r) - 2.0 * r * d;
      Square(r) - (2.0 * (m' - m)) * (r * p.x) - (2.0 * (b' - b)) * r;
    }
  }

  lemma {:induction false} ShiftWeights(ps: seq<Point>, m: real, b: real, m': real, b': real)
    ensures BoundsCombination(ps, SquaredResidualOf(m', b'), SquaredResidualOf(m, b),
                              ResidualMomentOf(m, b), ResidualOf(m, b), 2.0 * (m' - m), 2.0 * (b' - b))
  {
    forall i | 0 <= i < |ps|
      ensures SquaredResidualOf(m', b')(ps[i]) >= SquaredResidualOf(m, b)(ps[i])
                                                  - (2.0 * (m' - m)) * ResidualMomentOf(m, b)(ps[i])
                                                  - (2.0 * (b' - b)) * ResidualOf(m, b)(ps[i])
    {
      ShiftPoint(ps[i], m, b, m', b');
    }
  }

  /** Moving from line (m, b) to (m', b') lowers the SSE by at most the
      first-order change 2*(m'-m)*Sum(r*x) + 2*(b'-b)*Sum(r), where r are
      the residuals of (m, b). */
  lemma {:induction false} SseShift(ps: seq<Point>, m: real, b: real, m': real, b': real)
    ensures Sse(ps, m', b') >= Combination(ps, SquaredResidualOf(m, b), ResidualMomentOf(m, b),
                                           ResidualOf(m, b), 2.0 * (m' - m), 2.0 * (b' - b))
  {
    ShiftWeights(ps, m, b, m', b');
    SumCombineAtLeast(ps, SquaredResidualOf(m', b'), SquaredResidualOf(m, b),
                      ResidualMomentOf(m, b), ResidualOf(m, b), 2.0 * (m' - m), 2.0 * (b' - b));
  }

  /** No line has a smaller SSE than the fitted one. */
  lemma {:induction false} OlsMinimizesSse(ps: seq<Point>, m: real, b: real)
    requires |ps| > 0
    ensures Sse(ps, FitSlope(ps), FitIntercept(ps)) <= Sse(ps, m, b)
  {
    var fm, fb := FitSlope(ps), FitIntercept(ps);
    SseShift(ps, fm, fb, m, b);
    FitResidualMomentZero(ps);
    FitResidualSumZero(ps);
    CombinationOfZeros(ps, SquaredResidualOf(fm, fb), ResidualMomentOf(fm, fb),
                       ResidualOf(fm, fb), 2.0 * (m - fm), 2.0 * (b - fb));
  }

  /** What the fitted line guarantees, in one statement: it meets the centroid,
      it is the slope-0 line through the mean of y when all x coincide, and
      no line has a smaller SSE. */
  lemma {:induction false} FitGuarantees(ps: seq<Point>)
    requires |ps| > 0
    ensures YOnLine(FitSlope(ps), FitIntercept(ps), MeanX(ps)) == MeanY(ps)
    ensures AllXEqual(ps) ==> FitSlope(ps) == 0.0 && FitIntercept(ps) == MeanY(ps)
    ensures forall m, b :: Sse(ps, FitSlope(ps), FitIntercept(ps)) <= Sse(ps, m, b)
  {
    if AllXEqual(ps) {
      AllXEqualFit(ps);
    }
    forall m, b ensures Sse(ps, FitSlope(ps), FitIntercept(ps)) <= Sse(ps, m, b) {
      OlsMinimizesSse(ps, m, b);
    }
  }

  lemma ProductZero(u: real, v: real)
    requires u * v == 0.0
    requires v != 0.0
    ensures u == 0.0
  {
    if u > 0.0 && v > 0.0 {
      PositiveProduct(u, v);
    } else if u > 0.0 && v < 0.0 {
      PositiveProduct(u, -v);
    } else if u < 0.0 && v > 0.0 {
      PositiveProduct(-u, v);
    } else if u < 0.0 && v < 0.0 {
      PositiveProduct(-u, -v);
    }
  }

  /** Two lines that agree at two distinct x values are the same line. */
  lemma TwoPointLine(m: real, b: real, m': real, b': real, xi: real, xj: real)
    requires xi != xj
    requires YOnLine(m, b, xi) == YOnLine(m', b', xi)
    requires YOnLine(m, b, xj) == YOnLine(m', b', xj)
    ensures m == m' && b == b'
  {
    assert (m - m') * (xi - xj) == (m * xi - m' * xi) - (m * xj - m' * xj);
    ProductZero(m - m', xi - xj);
  }

  /** Points that all lie on one line with at least two distinct x values:
      the fit recovers that line exactly. */
  lemma {:induction false} OlsRecoversExactLine(ps: seq<Point>, m: real, b: real)
    requires AllOnLine(ps, m, b)
    requires !AllXEqual(ps)
    ensures |ps| > 0 && FitSlope(ps) == m && FitIntercept(ps) == b
  {
    var i, j :| 0 <= i < |ps| && 0 <= j < |ps| && ps[i].x != ps[j].x;
    var fm, fb := FitSlope(ps), FitIntercept(ps);
    SseZeroIff(ps, m, b);
    OlsMinimizesSse(ps, m, b);
    SseZeroIff(ps, fm, fb);
    TwoPointLine(m, b, fm, fb, ps[i].x, ps[j].x);
  }

  /** Three collinear points on y = x + 1 are fitted by exactly that line. */
  lemma PerfectLineScenario()
    ensures FitSlope([Point(0.0, 1.0), Point(1.0, 2.0), Point(2.0, 3.0)]) == 1.0
    ensures FitIntercept([Point(0.0, 1.0), Point(1.0, 2.0), Point(2.0, 3.0)]) == 1.0
    ensures Sse([Point(0.0, 1.0), Point(1.0, 2.0), Point(2.0, 3.0)], 1.0, 1.0) == 0.0
  {
    var ps := [Point(0.0, 1.0), Point(1.0, 2.0), Point(2.0, 3.0)];
    assert ps[0].x != ps[1].x;
    OlsRecoversExactLine(ps, 1.0, 1.0);
    SseZeroIff(ps, 1.0, 1.0);
  }
}
