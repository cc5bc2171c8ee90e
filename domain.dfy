/** Shared vocabulary of the regression view: data points, the fixed world
    domain [0,10] x [0,10] and the line y = m*x + b. Numbers are reals, so
    floating-point rounding is abstracted away. */
module Domain {

  /** One observed sample, immutable once generated. */
  datatype Point = Point(x: real, y: real)

  /** Fixed world-space bounds shared by the transform and the grid. */
  const XMin: real := 0.0
  const XMax: real := 10.0
  const YMin: real := 0.0
  const YMax: real := 10.0

  /** The line with slope m and intercept b, evaluated at x. */
  function YOnLine(m: real, b: real, x: real): real
  {
    m * x + b
  }

  /** A product of two positive reals is positive. */
  lemma PositiveProduct(a: real, b: real)
    requires a > 0.0 && b > 0.0
    ensures a * b > 0.0
  {
  }

  /** The line crosses the y axis at b and rises by m per unit of x. */
  lemma LineRise(m: real, b: real, x1: real, x2: real)
    ensures YOnLine(m, b, 0.0) == b
    ensures YOnLine(m, b, x2) - YOnLine(m, b, x1) == m * (x2 - x1)
  {
  }
}
