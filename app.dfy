/** The view-model of the regression page: the current line, the prediction
    input, the data set and the tutorial step, with the operations the UI
    handlers perform on them. */
module App {
  import opened Domain
  import opened Fit
  import opened DataGen
  import opened Tutorial

  class ViewModel {
    var m: real
    var b: real
    var xPred: real
    var points: seq<Point>
    var step: int

    /** The tutorial step can always be looked up in the step table, and the
        data set is always one generated set of SampleCount points. */
    ghost predicate Valid()
      reads this
    {
      ValidStep(step) && |points| == SampleCount
    }

    /** Start-up: the sliders' initial values, step 0 and a freshly generated data set. */
    constructor (slope: real, intercept: real, x: real, draws: seq<real>)
      requires |draws| == SampleCount
      ensures Valid()
      ensures m == slope && b == intercept && xPred == x && step == 0
      ensures points == Samples(draws)
    {
      m := slope;
      b := intercept;
      xPred := x;
      step := 0;
      new;
      points := GenerateData(draws);
    }

    /** The sum of squared residuals of the current line over the current points:
        never negative, and zero exactly when every point lies on the line. */
    method ComputeSse() returns (sse: real)
      ensures sse == Sse(points, m, b)
      ensures sse >= 0.0
      ensures sse == 0.0 <==> AllOnLine(points, m, b)
    {
      var pts := points;
      sse := 0.0;
      var i := 0;
      while i < |pts|
        invariant 0 <= i <= |pts|
        invariant sse == Sse(pts[..i], m, b)
      {
        var p := pts[i];
        var r := p.y - YOnLine(m, b, p.x);
        assert pts[..i + 1][..i] == pts[..i];
        sse := sse + r * r;
        i := i + 1;
      }
      assert pts[..i] == pts;
      SseZeroIff(pts, m, b);
    }

    /** Ordinary least squares in one pass over the points. Only the line
        changes; it meets the centroid, falls back to slope 0 when all x
        values coincide, and no line has a smaller sum of squared residuals. */
    method AutoFit()
      requires |points| > 0
      modifies this
      ensures m == FitSlope(points) && b == FitIntercept(points)
      ensures points == old(points) && xPred == old(xPred) && step == old(step)
      ensures YOnLine(m, b, MeanX(points)) == MeanY(points)
      ensures AllXEqual(points) ==> m == 0.0 && b == MeanY(points)
      ensures forall m', b' :: Sse(points, m, b) <= Sse(points, m', b')
      ensures old(Valid()) ==> Valid()
    {
      var pts := points;
      var n := |pts|;
      var sumX, sumY, sumXY, sumXX := 0.0, 0.0, 0.0, 0.0;
      var i := 0;
      while i < n
        invariant 0 <= i <= n
        invariant sumX == Sum(pts[..i], XOf) && sumY == Sum(pts[..i], YOf)
        invariant sumXY == Sum(pts[..i], XYOf) && sumXX == Sum(pts[..i], XXOf)
      {
        var p := pts[i];
        assert pts[..i + 1][..i] == pts[..i];
        sumX := sumX + p.x;
        sumY := sumY + p.y;
        sumXY := sumXY + p.x * p.y;
        sumXX := sumXX + p.x * p.x;
        i := i + 1;
      }
      assert pts[..i] == pts;
      var meanX := Average(sumX, n);
      var meanY := Average(sumY, n);
      var covXY := CentredMoment(sumXY, n, meanX, meanY);
      var varX := CentredMoment(sumXX, n, meanX, meanX);
      var slope := SlopeOf(covXY, varX);
      var intercept := InterceptOf(meanY, slope, meanX);
      FitGuarantees(pts);
      m, b := slope, intercept;
    }

    /** Replaces the data set with one generated from the given draws. */
    method ResetData(draws: seq<real>)
      requires |draws| == SampleCount
      modifies this
      ensures points == Samples(draws) && |points| == SampleCount
      ensures m == old(m) && b == old(b) && xPred == old(xPred) && step == old(step)
      ensures old(Valid()) ==> Valid()
    {
      points := GenerateData(draws);
    }

    /** Slope slider input. */
    method SetSlope(v: real)
      modifies this
      ensures m == v
      ensures b == old(b) && xPred == old(xPred) && points == old(points) && step == old(step)
      ensures old(Valid()) ==> Valid()
    {
      m := v;
    }

    /** Intercept slider input. */
    method SetIntercept(v: real)
      modifies this
      ensures b == v
      ensures m == old(m) && xPred == old(xPred) && points == old(points) && step == old(step)
      ensures old(Valid()) ==> Valid()
    {
      b := v;
    }

    /** Prediction slider input. */
    method SetXPred(v: real)
      modifies this
      ensures xPred == v
      ensures m == old(m) && b == old(b) && points == old(points) && step == old(step)
      ensures old(Valid()) ==> Valid()
    {
      xPred := v;
    }

    /** A step button: the selected step becomes current, and the step table
        can still be indexed with it. */
    method SelectStep(s: int)
      requires ValidStep(s)
      modifies this
      ensures step == s && ValidStep(step)
      ensures m == old(m) && b == old(b) && xPred == old(xPred) && points == old(points)
      ensures old(Valid()) ==> Valid()
    {
      step := s;
    }

    /** The title of the current step, from the step table. */
    method CurrentStepTitle() returns (t: string)
      requires ValidStep(step)
      ensures t == StepTitle(step)
      ensures forall j :: ValidStep(j) && StepTitle(j) == t ==> j == step
    {
      StepTitlesDistinct();
      t := StepTitles[step];
    }
  }
}
