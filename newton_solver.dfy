/**
 * The retry-counting Newton loop shared by the three renderers.  Each pass
 * replaces the point `z` by `z − f(z)/f'(z)`; a pass whose quotient is large
 * ("diverging") does not count towards the 30 passes the loop waits for,
 * because the loop counter is decremented on it.  The observable result is
 * the number of passes made and the final point.
 *
 * Doubles are modelled as reals, with one exception that changes the
 * control flow: dividing by an exactly-zero derivative yields NaN, a NaN
 * point stays NaN, and a NaN quotient is never "diverging" because every
 * comparison with NaN is false.
 */
module NewtonSolver {

  import opened ComplexNumber
  import opened PolynomialSpec

  /** A point of the iteration: a complex number, or NaN. */
  datatype Point = Finite(value: Complex) | NotANumber

  /** The number of non-diverging passes the loop waits for. */
  const MaxIterations: nat := 30

  /**
   * One renderer's iteration: the coefficients of the polynomial and of its
   * derivative, and the squared magnitude from which a quotient diverges.
   */
  datatype Newton = Newton(polynomial: seq<Complex>, derivative: seq<Complex>, threshold: real)

  /**
   * `value.Divide(slope)`: NaN when the divisor is exactly zero (the
   * numerator then being 0 too, the double division is 0/0).
   */
  function DivideOrNotANumber(value: Complex, slope: Complex): Point
  {
    if slope.re * slope.re + slope.im * slope.im == 0.0 then NotANumber
    else Finite(Divide(value, slope))
  }

  /** The Newton quotient `f(z) / f'(z)`; NaN when `z` is NaN or the derivative is exactly zero. */
  function Quotient(m: Newton, z: Point): Point
  {
    match z
    case NotANumber => NotANumber
    case Finite(c) => DivideOrNotANumber(Eval(m.polynomial, c), Eval(m.derivative, c))
  }

  /** `z.Subtract(q)`, NaN if either side is NaN. */
  function Update(z: Point, q: Point): Point
  {
    if z.Finite? && q.Finite? then Finite(Subtract(z.value, q.value)) else NotANumber
  }

  /** A pass diverges when its quotient's squared magnitude reaches the threshold. */
  predicate IsDiverging(m: Newton, q: Point)
  {
    q.Finite? && q.value.re * q.value.re + q.value.im * q.value.im >= m.threshold
  }

  /** The point after `t` passes from `z0`. */
  function Iterate(m: Newton, z0: Point, t: nat): Point
  {
    if t == 0 then z0
    else
      var z := Iterate(m, z0, t - 1);
      Update(z, Quotient(m, z))
  }

  /** Whether pass number `t` (counting from 0) diverges. */
  predicate DivergesAt(m: Newton, z0: Point, t: nat)
  {
    IsDiverging(m, Quotient(m, Iterate(m, z0, t)))
  }

  /** How many of the first `t` passes did not diverge: the value of the loop counter. */
  function Settled(m: Newton, z0: Point, t: nat): (n: nat)
    ensures n <= t
  {
    if t == 0 then 0 else Settled(m, z0, t - 1) + (if DivergesAt(m, z0, t - 1) then 0 else 1)
  }

  /** How many of the first `t` passes diverged. */
  function Diverged(m: Newton, z0: Point, t: nat): (n: nat)
    ensures n <= t
  {
    if t == 0 then 0 else Diverged(m, z0, t - 1) + (if DivergesAt(m, z0, t - 1) then 1 else 0)
  }

  /**
   * What a bounded run of the loop reports: the final point and the number
   * of passes, or that the bound on passes ran out first.
   */
  datatype Outcome = Solved(point: Point, iterations: nat) | OutOfFuel

  /**
   * The loop's result when at most `fuel` passes may be made: it stops after
   * the first pass that brings the count of non-diverging passes to 30.
   */
  predicate IsOutcome(m: Newton, z0: Point, fuel: nat, o: Outcome)
  {
    match o
    case Solved(p, n) =>
      n <= fuel && Settled(m, z0, n) == MaxIterations
      && (forall t :: 0 <= t < n ==> Settled(m, z0, t) < MaxIterations)
      && p == Iterate(m, z0, n)
    case OutOfFuel => Settled(m, z0, fuel) < MaxIterations
  }

  // ---------------------------------------------------------------------
  // Properties

  /** One more pass: the next point, and the counter raised unless the pass diverges. */
  lemma PassStep(m: Newton, z0: Point, t: nat)
    ensures Iterate(m, z0, t + 1) == Update(Iterate(m, z0, t), Quotient(m, Iterate(m, z0, t)))
    ensures Settled(m, z0, t + 1) == Settled(m, z0, t) + (if DivergesAt(m, z0, t) then 0 else 1)
  {
  }

  /** Every pass either diverges or not: the two counts add up to the passes made. */
  lemma {:induction false} SettledPlusDiverged(m: Newton, z0: Point, t: nat)
    ensures Settled(m, z0, t) + Diverged(m, z0, t) == t
  {
    if t > 0 {
      SettledPlusDiverged(m, z0, t - 1);
    }
  }

  /** The loop counter never goes down between passes. */
  lemma {:induction false} SettledMonotone(m: Newton, z0: Point, s: nat, t: nat)
    requires s <= t
    ensures Settled(m, z0, s) <= Settled(m, z0, t)
  {
    if s < t {
      SettledMonotone(m, z0, s, t - 1);
    }
  }

  /**
   * A solved run made 30 passes plus one per diverging pass, so at least 30,
   * and its last pass did not diverge.
   */
  lemma SolvedCount(m: Newton, z0: Point, fuel: nat, p: Point, n: nat)
    requires IsOutcome(m, z0, fuel, Solved(p, n))
    ensures n == MaxIterations + Diverged(m, z0, n)
    ensures n >= MaxIterations
    ensures n > 0 && !DivergesAt(m, z0, n - 1)
  {
    SettledPlusDiverged(m, z0, n);
    assert n > 0;
    assert Settled(m, z0, n - 1) < MaxIterations;
  }

  /** The outcome is determined by the polynomial, the start point and the bound. */
  lemma OutcomeUnique(m: Newton, z0: Point, fuel: nat, o1: Outcome, o2: Outcome)
    requires IsOutcome(m, z0, fuel, o1) && IsOutcome(m, z0, fuel, o2)
    ensures o1 == o2
  {
    match o1 {
      case Solved(p1, n1) =>
        match o2 {
          case Solved(p2, n2) =>
            assert n1 >= n2 by {
              if n1 < n2 {
                assert false;
              }
            }
            assert n2 >= n1 by {
              if n2 < n1 {
                assert false;
              }
            }
          case OutOfFuel =>
            SettledMonotone(m, z0, n1, fuel);
        }
      case OutOfFuel =>
        match o2 {
          case Solved(p2, n2) =>
            SettledMonotone(m, z0, n2, fuel);
          case OutOfFuel =>
        }
    }
  }

  /** Once NaN, the point stays NaN and every later pass counts as non-diverging. */
  lemma {:induction false} NotANumberAbsorbs(m: Newton, z0: Point, t: nat, s: nat)
    requires Iterate(m, z0, t) == NotANumber
    ensures Iterate(m, z0, t + s) == NotANumber
    ensures !DivergesAt(m, z0, t + s)
    ensures Settled(m, z0, t + s) == Settled(m, z0, t) + s
  {
    if s > 0 {
      NotANumberAbsorbs(m, z0, t, s - 1);
    }
  }

  /**
   * With no diverging pass among the first 30, the run stops after exactly
   * 30 passes, provided the bound allows that many.
   */
  lemma NeverDivergingSolvesIn30(m: Newton, z0: Point, fuel: nat)
    requires fuel >= MaxIterations
    requires forall t :: 0 <= t < MaxIterations ==> !DivergesAt(m, z0, t)
    ensures IsOutcome(m, z0, fuel, Solved(Iterate(m, z0, MaxIterations), MaxIterations))
  {
    NoDivergenceCounts(m, z0, MaxIterations);
    forall t | 0 <= t < MaxIterations
      ensures Settled(m, z0, t) < MaxIterations
    {
      NoDivergenceCounts(m, z0, t);
    }
  }

  /** Without divergence, every pass counts. */
  lemma {:induction false} NoDivergenceCounts(m: Newton, z0: Point, t: nat)
    requires forall u :: 0 <= u < t ==> !DivergesAt(m, z0, u)
    ensures Settled(m, z0, t) == t
  {
    if t > 0 {
      NoDivergenceCounts(m, z0, t - 1);
    }
  }
}
