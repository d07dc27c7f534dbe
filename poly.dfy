/**
 * The polynomial class of NNPTPZ1/Poly.cs: the coefficient list `Coe`,
 * index = power, over the RealPart/ImaginaryPart complex number
 * (`ConjugateComplex`).
 */
module Polys {

  import opened ComplexNumber
  import PolynomialSpec
  import ConjugateComplex

  class Poly {

    /** `Coe`: coefficient `i` belongs to `x^i`. */
    var coe: seq<Complex>

    constructor ()
      ensures coe == []
    {
      coe := [];
    }

    /** `Add`: appends a coefficient for the next power. */
    method Add(c: Complex)
      modifies this
      ensures coe == old(coe) + [c]
    {
      coe := coe + [c];
    }

    /** A new polynomial holding the derivative; this one is not changed. */
    method Derive() returns (p: Poly)
      ensures fresh(p)
      ensures p.coe == PolynomialSpec.Derivative(coe)
    {
      p := new Poly();
      var q := 1;
      while q < |coe|
        invariant 1 <= q && (q <= |coe| || |coe| == 0)
        invariant q <= |coe| ==> p.coe == PolynomialSpec.Derivative(coe[..q])
        invariant q > |coe| ==> p.coe == []
      {
        ConjugateComplex.ArithmeticAgrees(coe[q], Complex(q as real, 0.0));
        PolynomialSpec.DerivativeStep(coe, q);
        p.coe := p.coe + [ConjugateComplex.Multiply(coe[q], Complex(q as real, 0.0))];
        q := q + 1;
      }
      assert |coe| > 0 ==> coe[..q] == coe;
    }

    /** `Eval(double)`: the value at a real point, evaluated as `(x, 0)`. */
    method EvalReal(x: real) returns (y: Complex)
      ensures y == PolynomialSpec.Eval(coe, PolynomialSpec.FromReal(x))
    {
      y := Eval(Complex(x, 0.0));
    }

    /**
     * The value at `x`: coefficient `i` is multiplied by `x` raised to `i`
     * through `i − 1` further multiplications, and the terms are summed.
     */
    method Eval(x: Complex) returns (s: Complex)
      ensures s == PolynomialSpec.Eval(coe, x)
    {
      s := Zero;
      var i := 0;
      while i < |coe|
        invariant 0 <= i <= |coe|
        invariant s == PolynomialSpec.Eval(coe[..i], x)
      {
        var coef := coe[i];
        var bx := x;
        var power := i;
        if i > 0 {
          var j := 0;
          while j < power - 1
            invariant 0 <= j <= power - 1
            invariant bx == PolynomialSpec.Power(x, j + 1)
          {
            ConjugateComplex.ArithmeticAgrees(bx, x);
            bx := ConjugateComplex.Multiply(bx, x);
            j := j + 1;
          }
          ConjugateComplex.ArithmeticAgrees(coef, bx);
          coef := ConjugateComplex.Multiply(coef, bx);
        } else {
          PolynomialSpec.MultiplyOne(coef);
        }
        PolynomialSpec.EvalStep(coe, i, x);
        ConjugateComplex.ArithmeticAgrees(s, coef);
        s := ConjugateComplex.Add(s, coef);
        i := i + 1;
      }
      assert coe[..i] == coe;
    }

    /** The text form, each component written by `fmt`. */
    method ToString(fmt: real -> string) returns (s: string)
      ensures s == PolynomialSpec.Text(coe, fmt)
    {
      s := "";
      var i := 0;
      while i < |coe|
        invariant 0 <= i <= |coe|
        invariant s == PolynomialSpec.Text(coe[..i], fmt) + (if 0 < i < |coe| then " + " else "")
      {
        ghost var before := s;
        s := s + ConjugateComplex.ToString(coe[i], fmt);
        if i > 0 {
          var j := 0;
          while j < i
            invariant 0 <= j <= i
            invariant s == before + ConjugateComplex.ToString(coe[i], fmt) + PolynomialSpec.Xs(j)
          {
            s := s + "x";
            j := j + 1;
          }
        }
        assert s == before + PolynomialSpec.Term(coe[i], i, fmt);
        PolynomialSpec.TextStep(coe, i, fmt);
        if i + 1 < |coe| {
          s := s + " + ";
        }
        i := i + 1;
      }
      assert coe[..i] == coe;
    }
  }
}
