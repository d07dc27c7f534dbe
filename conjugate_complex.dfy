/**
 * The complex number of NNPTPZ1/Mathematics/ComplexNumber.cs (namespace
 * INPTPZ1.Mathematics).  Its components are called RealPart/ImaginaryPart;
 * over the same value type the arithmetic is written out again exactly as
 * that file does, and division there is multiplication by the conjugate
 * followed by division by the squared norm.
 */
module ConjugateComplex {

  import opened ComplexNumber

  /** `Equals`: componentwise for a complex argument; otherwise `base.Equals`,
      reference equality with an object that is not a complex number, i.e. false. */
  predicate Equals(a: Complex, obj: Object)
  {
    match obj
    case ComplexObject(other) => other.re == a.re && other.im == a.im
    case OtherObject => false
  }

  function Add(a: Complex, b: Complex): Complex
  {
    Complex(a.re + b.re, a.im + b.im)
  }

  function Subtract(a: Complex, b: Complex): Complex
  {
    Complex(a.re - b.re, a.im - b.im)
  }

  function Multiply(a: Complex, b: Complex): Complex
  {
    Complex(a.re * b.re - a.im * b.im, a.re * b.im + a.im * b.re)
  }

  /** `Divide`: `a · (b.re, −b.im)`, both parts over `b.re² + b.im²`. */
  function Divide(a: Complex, b: Complex): Complex
    requires b.re * b.re + b.im * b.im != 0.0
  {
    var numeratorsProduct := Multiply(a, Complex(b.re, -b.im));
    var denominator := b.re * b.re + b.im * b.im;
    Complex(numeratorsProduct.re / denominator, numeratorsProduct.im / denominator)
  }

  function ToString(c: Complex, fmt: real -> string): (s: string)
    ensures |s| == |fmt(c.re)| + |fmt(c.im)| + 6
    ensures s[0] == '(' && s[|s| - 2..] == "i)"
  {
    "(" + fmt(c.re) + " + " + fmt(c.im) + "i)"
  }

  /**
   * The layout of the text: "(", the real part's text, " + ", the imaginary
   * part's text and "i)", each at its own position.
   */
  lemma ToStringLayout(c: Complex, fmt: real -> string)
    ensures ToString(c, fmt)[0] == '('
    ensures ToString(c, fmt)[1..1 + |fmt(c.re)|] == fmt(c.re)
    ensures ToString(c, fmt)[1 + |fmt(c.re)|..4 + |fmt(c.re)|] == " + "
    ensures ToString(c, fmt)[4 + |fmt(c.re)|..4 + |fmt(c.re)| + |fmt(c.im)|] == fmt(c.im)
    ensures ToString(c, fmt)[4 + |fmt(c.re)| + |fmt(c.im)|..] == "i)"
  {
    var s, a, b := ToString(c, fmt), fmt(c.re), fmt(c.im);
    assert s == "(" + a + " + " + b + "i)";
  }

  /** Division through the conjugate agrees with the direct formula of the other variant. */
  lemma DivideAgrees(a: Complex, b: Complex)
    requires b.re * b.re + b.im * b.im != 0.0
    ensures Divide(a, b) == ComplexNumber.Divide(a, b)
  {
    var t := Multiply(a, Complex(b.re, -b.im));
    assert t.re == a.re * b.re + a.im * b.im;
    assert t.im == a.im * b.re - a.re * b.im;
  }

  /** The same arithmetic as the other variant, operation by operation. */
  lemma ArithmeticAgrees(a: Complex, b: Complex)
    ensures Add(a, b) == ComplexNumber.Add(a, b)
    ensures Subtract(a, b) == ComplexNumber.Subtract(a, b)
    ensures Multiply(a, b) == ComplexNumber.Multiply(a, b)
    ensures Equals(a, ComplexObject(b)) == ComplexNumber.Equals(a, ComplexObject(b))
  {
  }

  /** Both variants write the same text for the same number. */
  lemma ToStringAgrees(c: Complex, fmt: real -> string)
    ensures ToString(c, fmt) == ComplexNumber.ToString(c, fmt)
  {
  }

  /** Subtracting a number from itself gives `Zero`, and only then. */
  lemma SubtractSelf(a: Complex, b: Complex)
    ensures Subtract(a, b) == Zero <==> a == b
  {
  }

  /** Multiplying by a real value `(r, 0)` scales both parts by `r`. */
  lemma MultiplyByReal(c: Complex, r: real)
    ensures Multiply(c, Complex(r, 0.0)) == Complex(r * c.re, r * c.im)
  {
  }

  lemma MultiplyCommutative(a: Complex, b: Complex)
    ensures Multiply(a, b) == Multiply(b, a)
  {
  }

  lemma MultiplyZero(a: Complex)
    ensures Multiply(a, Zero) == Zero && Multiply(Zero, a) == Zero
  {
  }

  /** Equality compares both parts exactly when the argument is a complex number. */
  lemma EqualsIff(a: Complex, obj: Object)
    ensures Equals(a, obj) <==> obj.ComplexObject? && obj.value == a
  {
  }

  lemma ToStringExamples(fmt: real -> string)
    requires fmt(1.0) == "1" && fmt(-1.0) == "-1" && fmt(0.0) == "0"
    ensures ToString(Complex(1.0, -1.0), fmt) == "(1 + -1i)"
    ensures ToString(Zero, fmt) == "(0 + 0i)"
  {
  }
}
