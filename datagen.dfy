/** Synthetic data: 24 points at evenly spaced x values on y = 1.2*x + 1.0
    plus scaled Gaussian noise. The standard-normal draws are supplied by
    the caller, one per point, in generation order. */
module DataGen {
  import opened Domain
  import opened Fit

  const SampleCount: nat := 24
  const TrueSlope: real := 1.2
  const TrueIntercept: real := 1.0
  /** Standard deviation applied to each standard-normal draw. */
  const NoiseScale: real := 0.6

  /** The i-th x value: the midpoint of the i-th of SampleCount equal bins of [XMin, XMax]. */
  function BinMidpoint(i: nat): real
  {
    (i as real + 0.5) * (XMax - XMin) / SampleCount as real
  }

  /** The i-th generated point for the standard-normal draw z. */
  function Sample(i: nat, z: real): Point
  {
    var x := BinMidpoint(i);
    Point(x, YOnLine(TrueSlope, TrueIntercept, x) + NoiseScale * z)
  }

  /** The data set generated from the given draws. */
  function Samples(draws: seq<real>): seq<Point>
  {
    seq(|draws|, i requires 0 <= i < |draws| => Sample(i, draws[i]))
  }

  /** Builds the points one at a time, in the order the draws are taken. */
  method GenerateData(draws: seq<real>) returns (pts: seq<Point>)
    requires |draws| == SampleCount
    ensures pts == Samples(draws)
  {
    pts := [];
    var i := 0;
    while i < SampleCount
      invariant 0 <= i <= SampleCount
      invariant pts == Samples(draws)[..i]
    {
      var x := (i as real + 0.5) * (XMax - XMin) / SampleCount as real;
      var noise := draws[i] * NoiseScale;
      var y := TrueSlope * x + TrueIntercept + noise;
      pts := pts + [Point(x, y)];
      i := i + 1;
    }
  }

  /** One sample per draw, with x strictly increasing along the list. */
  lemma SamplesIncreasingX(draws: seq<real>)
    ensures |Samples(draws)| == |draws|
    ensures forall i, j :: 0 <= i < j < |draws| ==> Samples(draws)[i].x < Samples(draws)[j].x
  {
  }

  /** For the draws of one data set, every x lies strictly inside the world domain. */
  lemma SamplesInsideDomain(draws: seq<real>)
    requires |draws| == SampleCount
    ensures forall i :: 0 <= i < |draws| ==> XMin < Samples(draws)[i].x < XMax
  {
  }

  /** The residual of each sample against the true line is its scaled draw. */
  lemma SampleResidualIsNoise(draws: seq<real>)
    ensures forall i :: 0 <= i < |draws| ==>
      Residual(Samples(draws)[i], TrueSlope, TrueIntercept) == NoiseScale * draws[i]
  {
  }

  /** Without noise the data lie on the true line, and the least-squares fit
      recovers its slope and intercept exactly. */
  lemma NoiseFreeFitRecoversTrueLine(draws: seq<real>)
    requires |draws| == SampleCount
    requires forall i :: 0 <= i < |draws| ==> draws[i] == 0.0
    ensures FitSlope(Samples(draws)) == TrueSlope
    ensures FitIntercept(Samples(draws)) == TrueIntercept
  {
    var ps := Samples(draws);
    assert ps[0].x != ps[1].x;
    OlsRecoversExactLine(ps, TrueSlope, TrueIntercept);
  }
}
