/**
 * The floating-point library the scripts call (numpy and math), taken as given functions on reals.
 * The model says where each is applied and to what, never which value it returns.
 */
module Numerics {

  datatype MathLib = MathLib(
    sqrt: real -> real,         // np.sqrt, and x ** .5
    atan: real -> real,         // np.arctan
    ln: real -> real,           // np.log, and math.log with one argument
    exp2: real -> real,         // 2 ** x
    pi: real,                   // np.pi
    median: seq<real> -> real,  // np.median of one series
    divByZero: real -> real)    // what numpy's a / 0 yields (an infinity or nan), as a stand-in real

  /** numpy's a / b on floats: the quotient, or the stand-in value when b is zero (numpy only warns). */
  function Div(m: MathLib, a: real, b: real): real
  {
    if b != 0.0 then a / b else m.divByZero(a)
  }

  /** abs of a float. */
  function Abs(x: real): real { if x < 0.0 then -x else x }

  /** The facts of the library that the shear step relies on: ln 1 = 0 and 2 ** 0 = 1. */
  predicate Lawful(m: MathLib)
  {
    m.ln(1.0) == 0.0 && m.exp2(0.0) == 1.0
  }

  /** np.arctan's range: pi is positive and every arctangent lies strictly between -pi/2 and pi/2. */
  ghost predicate AtanBounded(m: MathLib)
  {
    m.pi > 0.0 && forall x :: -m.pi / 2.0 < m.atan(x) < m.pi / 2.0
  }
}
