/**
 * What the four polynomial classes compute, stated once over a coefficient
 * sequence (index = power, index 0 the constant term): the value
 * Σ cs[i]·x^i, the formal derivative and the text form.  The classes in
 * polynomial.dfy, polynome.dfy, math_polynomial.dfy and poly.dfy are proved
 * against these functions.
 */
module PolynomialSpec {

  import opened ComplexNumber

  /** `x^n` by repeated multiplication; `x^0` is `One`. */
  function Power(x: Complex, n: nat): Complex
  {
    if n == 0 then One else Multiply(Power(x, n - 1), x)
  }

  /** The value of the polynomial: the terms `cs[i]·x^i` summed from the constant term up. */
  function Eval(cs: seq<Complex>, x: Complex): Complex
  {
    if |cs| == 0 then Zero
    else Add(Eval(cs[..|cs| - 1], x), Multiply(cs[|cs| - 1], Power(x, |cs| - 1)))
  }

  /** Horner's rule `cs[0] + x·(cs[1] + x·(…))`, an independent reading of the same value. */
  function Horner(cs: seq<Complex>, x: Complex): Complex
  {
    if |cs| == 0 then Zero else Add(cs[0], Multiply(x, Horner(cs[1..], x)))
  }

  /** The real number `r` as a complex number, as `new ComplexNumber { Real = r }` builds it. */
  function FromReal(r: real): Complex
  {
    Complex(r, 0.0)
  }

  /**
   * The formal derivative: coefficient `i` is `cs[i + 1]` multiplied by the
   * real number `i + 1`; a constant or empty polynomial derives to the empty one.
   */
  function Derivative(cs: seq<Complex>): (d: seq<Complex>)
    ensures |d| == if |cs| == 0 then 0 else |cs| - 1
    ensures forall i :: 0 <= i < |d| ==>
      d[i] == Complex((i + 1) as real * cs[i + 1].re, (i + 1) as real * cs[i + 1].im)
  {
    if |cs| <= 1 then []
    else seq(|cs| - 1, i requires 0 <= i < |cs| - 1 => Multiply(cs[i + 1], FromReal((i + 1) as real)))
  }

  /** The suffix of a term of power `n`: `n` copies of "x". */
  function Xs(n: nat): (s: string)
    ensures |s| == n && forall k :: 0 <= k < n ==> s[k] == 'x'
  {
    if n == 0 then "" else Xs(n - 1) + "x"
  }

  /** One term of the text form: the coefficient followed by its power's suffix. */
  function Term(c: Complex, power: nat, fmt: real -> string): string
  {
    ToString(c, fmt) + Xs(power)
  }

  /** The text form: the terms joined by " + ". */
  function Text(cs: seq<Complex>, fmt: real -> string): string
  {
    if |cs| == 0 then ""
    else if |cs| == 1 then Term(cs[0], 0, fmt)
    else Text(cs[..|cs| - 1], fmt) + " + " + Term(cs[|cs| - 1], |cs| - 1, fmt)
  }

  // ---------------------------------------------------------------------
  // Properties of the value

  lemma PowerOne(x: Complex)
    ensures Power(x, 1) == x
  {
  }

  /** The empty polynomial evaluates to `Zero`. */
  lemma EvalEmpty(x: Complex)
    ensures Eval([], x) == Zero
  {
  }

  /** Appending a coefficient adds exactly its term at the next power. */
  lemma EvalAppend(cs: seq<Complex>, c: Complex, x: Complex)
    ensures Eval(cs + [c], x) == Add(Eval(cs, x), Multiply(c, Power(x, |cs|)))
  {
    assert (cs + [c])[..|cs|] == cs;
  }

  lemma MultiplyOne(c: Complex)
    ensures Multiply(c, One) == c
  {
  }

  lemma MultiplyAssociative(a: Complex, b: Complex, c: Complex)
    ensures Multiply(Multiply(a, b), c) == Multiply(a, Multiply(b, c))
  {
    assert (a.re * b.re - a.im * b.im) * c.re - (a.re * b.im + a.im * b.re) * c.im
        == a.re * (b.re * c.re - b.im * c.im) - a.im * (b.re * c.im + b.im * c.re);
    assert (a.re * b.re - a.im * b.im) * c.im + (a.re * b.im + a.im * b.re) * c.re
        == a.re * (b.re * c.im + b.im * c.re) + a.im * (b.re * c.re - b.im * c.im);
  }

  lemma MultiplyCommutative(a: Complex, b: Complex)
    ensures Multiply(a, b) == Multiply(b, a)
  {
  }

  lemma MultiplyDistributes(x: Complex, a: Complex, b: Complex)
    ensures Multiply(x, Add(a, b)) == Add(Multiply(x, a), Multiply(x, b))
  {
    assert x.re * (a.re + b.re) - x.im * (a.im + b.im)
        == (x.re * a.re - x.im * a.im) + (x.re * b.re - x.im * b.im);
    assert x.re * (a.im + b.im) + x.im * (a.re + b.re)
        == (x.re * a.im + x.im * a.re) + (x.re * b.im + x.im * b.re);
  }

  /** `x·(c·x^n) = c·x^(n+1)`. */
  lemma ShiftTerm(x: Complex, c: Complex, n: nat)
    ensures Multiply(x, Multiply(c, Power(x, n))) == Multiply(c, Power(x, n + 1))
  {
    var p := Power(x, n);
    calc {
      Multiply(x, Multiply(c, p));
      { MultiplyCommutative(x, Multiply(c, p)); }
      Multiply(Multiply(c, p), x);
      { MultiplyAssociative(c, p, x); }
      Multiply(c, Multiply(p, x));
    }
  }

  /** Splitting off the constant term: `Eval(cs) = cs[0] + x·Eval(cs[1..])`. */
  lemma {:induction false} EvalFront(cs: seq<Complex>, x: Complex)
    requires |cs| >= 1
    ensures Eval(cs, x) == Add(cs[0], Multiply(x, Eval(cs[1..], x)))
  {
    var n := |cs|;
    if n == 1 {
      MultiplyOne(cs[0]);
      assert cs[1..] == [];
    } else {
      var init := cs[..n - 1];
      var c := cs[n - 1];
      EvalFront(init, x);
      assert init[1..] == cs[1..][..n - 2];
      assert init[0] == cs[0];
      var e := Eval(cs[1..][..n - 2], x);
      assert Eval(cs[1..], x) == Add(e, Multiply(c, Power(x, n - 2)));
      MultiplyDistributes(x, e, Multiply(c, Power(x, n - 2)));
      ShiftTerm(x, c, n - 2);
    }
  }

  /** Power accumulation and Horner's rule give the same value. */
  lemma {:induction false} EvalIsHorner(cs: seq<Complex>, x: Complex)
    ensures Eval(cs, x) == Horner(cs, x)
  {
    if |cs| > 0 {
      EvalFront(cs, x);
      EvalIsHorner(cs[1..], x);
    }
  }

  /** `Eval([a, b, c], x) = a + b·x + c·x²`, written out. */
  lemma EvalQuadratic(a: Complex, b: Complex, c: Complex, x: Complex)
    ensures Eval([a, b, c], x) == Add(Add(a, Multiply(b, x)), Multiply(c, Multiply(x, x)))
  {
    var cs := [a, b, c];
    assert cs[..2] == [a, b] && [a, b][..1] == [a] && [a][..0] == [];
    assert Power(x, 1) == x;
    assert Power(x, 2) == Multiply(x, x);
    assert Eval([a], x) == a;
    assert Eval([a, b], x) == Add(a, Multiply(b, x));
  }

  /** The coefficients `[1, 0, 1]` evaluate to `1 + x²` at every point. */
  lemma EvalOnePlusSquare(x: Complex)
    ensures Eval([One, Zero, One], x) == Add(One, Multiply(x, x))
  {
    EvalQuadratic(One, Zero, One, x);
    assert Multiply(Zero, x) == Zero;
    assert Multiply(One, Multiply(x, x)) == Multiply(x, x);
  }

  /** At a real point `(r, 0)`, the coefficients `[1, 0, 1]` give the real number `1 + r²`. */
  lemma EvalOnePlusSquareReal(r: real)
    ensures Eval([One, Zero, One], FromReal(r)) == FromReal(1.0 + r * r)
  {
    EvalOnePlusSquare(FromReal(r));
  }

  /** `[1, 0, 1]` at 0, 1 and 2 gives 1, 2 and 5. */
  lemma EvalOnePlusSquareExamples()
    ensures Eval([One, Zero, One], FromReal(0.0)) == FromReal(1.0)
    ensures Eval([One, Zero, One], FromReal(1.0)) == FromReal(2.0)
    ensures Eval([One, Zero, One], FromReal(2.0)) == FromReal(5.0)
  {
    EvalOnePlusSquareReal(0.0);
    EvalOnePlusSquareReal(1.0);
    EvalOnePlusSquareReal(2.0);
  }

  // ---------------------------------------------------------------------
  // Properties of the derivative

  /** Appending a coefficient appends its derived coefficient. */
  lemma DerivativeAppend(cs: seq<Complex>, c: Complex)
    requires |cs| >= 1
    ensures Derivative(cs + [c]) == Derivative(cs) + [Multiply(c, FromReal(|cs| as real))]
  {
  }

  /** A constant (or empty) polynomial derives to one that is `Zero` everywhere. */
  lemma DerivativeOfConstant(cs: seq<Complex>, x: Complex)
    requires |cs| <= 1
    ensures Eval(Derivative(cs), x) == Zero
  {
  }

  /** `x³ + 1` derives to `3x²`. */
  lemma DerivativeOfCubic()
    ensures Derivative([One, Zero, Zero, One]) == [Zero, Zero, Complex(3.0, 0.0)]
  {
  }

  // ---------------------------------------------------------------------
  // Properties of the text form

  /** Appending a coefficient appends a separator and its term. */
  lemma {:induction false} TextAppend(cs: seq<Complex>, c: Complex, fmt: real -> string)
    requires |cs| >= 1
    ensures Text(cs + [c], fmt) == Text(cs, fmt) + " + " + Term(c, |cs|, fmt)
  {
    var ds := cs + [c];
    assert |ds| >= 2;
    assert ds[..|ds| - 1] == cs;
    assert ds[|ds| - 1] == c;
  }

  /** The three terms of `1 + x²`. */
  lemma TermExamples(fmt: real -> string)
    requires fmt(1.0) == "1" && fmt(0.0) == "0"
    ensures Term(One, 0, fmt) == "(1 + 0i)"
    ensures Term(Zero, 1, fmt) == "(0 + 0i)x"
    ensures Term(One, 2, fmt) == "(1 + 0i)xx"
  {
    assert Xs(1) == "x" && Xs(2) == "xx";
  }

  /** `1 + x²` prints as "(1 + 0i) + (0 + 0i)x + (1 + 0i)xx". */
  lemma TextExample(fmt: real -> string)
    requires fmt(1.0) == "1" && fmt(0.0) == "0"
    ensures Text([One, Zero, One], fmt) == "(1 + 0i) + (0 + 0i)x + (1 + 0i)xx"
  {
    TermExamples(fmt);
    assert Text([One], fmt) == "(1 + 0i)";
    TextAppend([One], Zero, fmt);
    assert [One] + [Zero] == [One, Zero];
    TextAppend([One, Zero], One, fmt);
    assert [One, Zero] + [One] == [One, Zero, One];
  }

  // ---------------------------------------------------------------------
  // One iteration of the classes' loops over the coefficient list

  /** The value of the first `i + 1` coefficients, from that of the first `i`. */
  lemma EvalStep(cs: seq<Complex>, i: nat, x: Complex)
    requires i < |cs|
    ensures Eval(cs[..i + 1], x) == Add(Eval(cs[..i], x), Multiply(cs[i], Power(x, i)))
  {
    assert cs[..i + 1] == cs[..i] + [cs[i]];
    EvalAppend(cs[..i], cs[i], x);
  }

  /** The derivative of the first `i + 1` coefficients, from that of the first `i`. */
  lemma DerivativeStep(cs: seq<Complex>, i: nat)
    requires 1 <= i < |cs|
    ensures Derivative(cs[..i + 1]) == Derivative(cs[..i]) + [Multiply(cs[i], FromReal(i as real))]
  {
    assert cs[..i + 1] == cs[..i] + [cs[i]];
    DerivativeAppend(cs[..i], cs[i]);
  }

  /** The text of the first `i + 1` coefficients, from that of the first `i`. */
  lemma TextStep(cs: seq<Complex>, i: nat, fmt: real -> string)
    requires i < |cs|
    ensures Text(cs[..i + 1], fmt)
         == (if i == 0 then "" else Text(cs[..i], fmt) + " + ") + Term(cs[i], i, fmt)
  {
    assert cs[..i + 1] == cs[..i] + [cs[i]];
    if i > 0 {
      TextAppend(cs[..i], cs[i], fmt);
    }
  }
}
