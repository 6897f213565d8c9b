/** IEEE doubles as real numbers with a sign, infinities and not-a-number; rounding is not modelled. */
module Numbers {
  type Magnitude = r: real | r >= 0.0 witness 0.0

  datatype Double = NaN | Infinite(negative: bool) | Finite(negative: bool, magnitude: Magnitude)

  /** The real number a finite double stands for; both zeros stand for 0. */
  function RealOf(d: Double): real
    requires d.Finite?
  {
    if d.negative then 0.0 - d.magnitude else d.magnitude
  }

  function FromReal(r: real): Double {
    if r < 0.0 then Finite(true, -r) else Finite(false, r)
  }

  /** operator== on doubles: NaN differs from everything, the two zeros are equal. */
  predicate DoubleEqual(a: Double, b: Double) {
    match (a, b)
    case (Finite(_, _), Finite(_, _)) => RealOf(a) == RealOf(b)
    case (Infinite(m), Infinite(n)) => m == n
    case _ => false
  }

  predicate DoubleLess(a: Double, b: Double) {
    match (a, b)
    case (NaN, _) => false
    case (_, NaN) => false
    case (Finite(_, _), Finite(_, _)) => RealOf(a) < RealOf(b)
    case (Infinite(m), Infinite(n)) => m && !n
    case (Infinite(m), Finite(_, _)) => m
    case (Finite(_, _), Infinite(n)) => !n
  }

  function DoubleAdd(a: Double, b: Double): Double {
    match (a, b)
    case (NaN, _) => NaN
    case (_, NaN) => NaN
    case (Infinite(m), Infinite(n)) => if m == n then a else NaN
    case (Infinite(_), Finite(_, _)) => a
    case (Finite(_, _), Infinite(_)) => b
    case (Finite(m, _), Finite(n, _)) =>
      var sum := RealOf(a) + RealOf(b);
      if sum == 0.0 then Finite(m && n, 0.0) else FromReal(sum)
  }

  /** Multiplication by a positive power of two. */
  function DoubleScale(d: Double, factor: Magnitude): Double {
    match d
    case Finite(negative, m) => Finite(negative, m * factor)
    case _ => d
  }

  /** Nearest integer, ties to even: the rounding of a fixed-precision conversion. */
  function RoundHalfEven(r: Magnitude): (n: nat)
    ensures -0.5 <= n as real - r <= 0.5
    ensures n as real - r == 0.5 || n as real - r == -0.5 ==> n % 2 == 0
  {
    var low := r.Floor;
    var fraction := r - low as real;
    if fraction < 0.5 || (fraction == 0.5 && low % 2 == 0) then low else low + 1
  }
}
