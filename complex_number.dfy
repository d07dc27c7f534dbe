/**
 * The complex number of NNPTPZ1/ComplexNumber.cs: a pair of components with
 * exact componentwise equality and the four field operations, division being
 * computed by the direct formula.  Components are `real`, so the algebraic
 * identities the renderer relies on hold exactly.
 */
module ComplexNumber {

  /** An immutable complex value; every operation builds a new one. */
  datatype Complex = Complex(re: real, im: real)

  /** The additive identity `ComplexNumber.Zero`. */
  const Zero: Complex := Complex(0.0, 0.0)

  /** The multiplicative identity, written `new ComplexNumber { Real = 1 }` in the source. */
  const One: Complex := Complex(1.0, 0.0)

  /** The argument of `Equals(object)`: a complex number or some other object. */
  datatype Object = ComplexObject(value: Complex) | OtherObject

  /** `Equals`: equal components when the argument is a complex number, false otherwise. */
  predicate Equals(a: Complex, obj: Object)
  {
    match obj
    case ComplexObject(other) => other.re == a.re && other.im == a.im
    case OtherObject => false
  }

  function Multiply(a: Complex, b: Complex): Complex
  {
    Complex(a.re * b.re - a.im * b.im, a.re * b.im + a.im * b.re)
  }

  function Add(a: Complex, b: Complex): Complex
  {
    Complex(a.re + b.re, a.im + b.im)
  }

  function Subtract(a: Complex, b: Complex): Complex
  {
    Complex(a.re - b.re, a.im - b.im)
  }

  /**
   * `Divide`, by the direct formula over the denominator `b.re² + b.im²`.
   * The source divides by an exact zero without complaint (producing
   * non-finite values); the model requires the denominator to be nonzero,
   * which over the reals means that `b` is not `Zero` (see NormPositive).
   */
  function Divide(a: Complex, b: Complex): Complex
    requires b.re * b.re + b.im * b.im != 0.0
  {
    var denominator := b.re * b.re + b.im * b.im;
    Complex((a.re * b.re + a.im * b.im) / denominator, (a.im * b.re - a.re * b.im) / denominator)
  }

  /** `ToString`, over an abstract formatter `fmt` for the components. */
  function ToString(c: Complex, fmt: real -> string): (s: string)
    ensures |s| == |fmt(c.re)| + |fmt(c.im)| + 6
    ensures s[0] == '(' && s[|s| - 2..] == "i)"
  {
    "(" + fmt(c.re) + " + " + fmt(c.im) + "i)"
  }

  /**
   * The layout of the text: "(", the real part's text, " + ", the imaginary
   * part's text and "i)", each at its own position.
   */
  lemma ToStringLayout(c: Complex, fmt: real -> string)
    ensures ToString(c, fmt)[0] == '('
    ensures ToString(c, fmt)[1..1 + |fmt(c.re)|] == fmt(c.re)
    ensures ToString(c, fmt)[1 + |fmt(c.re)|..4 + |fmt(c.re)|] == " + "
    ensures ToString(c, fmt)[4 + |fmt(c.re)|..4 + |fmt(c.re)| + |fmt(c.im)|] == fmt(c.im)
    ensures ToString(c, fmt)[4 + |fmt(c.re)| + |fmt(c.im)|..] == "i)"
  {
    var s, a, b := ToString(c, fmt), fmt(c.re), fmt(c.im);
    assert s == "(" + a + " + " + b + "i)";
  }

  lemma SquareNonNegative(x: real)
    ensures x * x >= 0.0
  {
  }

  lemma SquarePositive(x: real)
    requires x < 0.0 || x > 0.0
    ensures x * x > 0.0
  {
  }

  /** Every number other than `Zero` has a positive division denominator. */
  lemma NormPositive(b: Complex)
    requires b != Zero
    ensures b.re * b.re + b.im * b.im > 0.0
  {
    SquareNonNegative(b.re);
    SquareNonNegative(b.im);
    if b.re < 0.0 || b.re > 0.0 {
      SquarePositive(b.re);
    } else {
      SquarePositive(b.im);
    }
  }

  /** Exact equality: `Equals` holds exactly for the same pair of components. */
  lemma EqualsIff(a: Complex, obj: Object)
    ensures Equals(a, obj) <==> obj == ComplexObject(a)
  {
  }

  lemma AddExamples()
    ensures Add(Complex(10.0, 20.0), Complex(1.0, 2.0)) == Complex(11.0, 22.0)
    ensures Add(Complex(1.0, -1.0), Zero) == Complex(1.0, -1.0)
  {
  }

  /** `Zero` is a two-sided identity of `Add`. */
  lemma AddZero(a: Complex)
    ensures Add(a, Zero) == a && Add(Zero, a) == a
  {
  }

  lemma AddCommutative(a: Complex, b: Complex)
    ensures Add(a, b) == Add(b, a)
  {
  }

  /** Subtraction undoes addition. */
  lemma SubtractAdd(a: Complex, b: Complex)
    ensures Subtract(Add(a, b), b) == a
  {
  }

  lemma MultiplyExample()
    ensures Multiply(Complex(2.0, 3.0), Complex(1.0, 4.0)) == Complex(-10.0, 11.0)
  {
  }

  lemma DivideExample()
    ensures Divide(Complex(10.0, 20.0), Complex(1.0, 2.0)) == Complex(10.0, 0.0)
  {
  }

  /** `(u/d)·p − (v/d)·q` is `a` when `u·p − v·q` is `a·d`. */
  lemma QuotientCombination(u: real, v: real, p: real, q: real, d: real, a: real)
    requires d != 0.0
    requires u * p - v * q == a * d
    ensures (u / d) * p - (v / d) * q == a
  {
    assert (u / d) * p - (v / d) * q == (u * p - v * q) / d;
  }

  /** Division is the inverse of multiplication by a nonzero divisor. */
  lemma MultiplyDivide(a: Complex, b: Complex)
    requires b.re * b.re + b.im * b.im != 0.0
    ensures Multiply(Divide(a, b), b) == a
  {
    var d := b.re * b.re + b.im * b.im;
    var u := a.re * b.re + a.im * b.im;
    var v := a.im * b.re - a.re * b.im;
    assert u * b.re - v * b.im == a.re * d;
    assert u * b.im + v * b.re == a.im * d;
    QuotientCombination(u, v, b.re, b.im, d, a.re);
    QuotientCombination(v, -u, b.re, b.im, d, a.im);
  }

  lemma ToStringExamples(fmt: real -> string)
    requires fmt(10.0) == "10" && fmt(20.0) == "20"
    requires fmt(1.0) == "1" && fmt(-1.0) == "-1" && fmt(0.0) == "0"
    ensures ToString(Complex(10.0, 20.0), fmt) == "(10 + 20i)"
    ensures ToString(Complex(1.0, -1.0), fmt) == "(1 + -1i)"
    ensures ToString(Zero, fmt) == "(0 + 0i)"
  {
  }
}
