/**
 * The polynomial class of NNPTPZ1/Polynomial.cs: a list of complex
 * coefficients, index = power, over the directly-dividing complex number
 * of NNPTPZ1/ComplexNumber.cs.
 */
module Polynomials {

  import opened ComplexNumber
  import opened PolynomialSpec

  class Polynomial {

    /** `Coefficients`: coefficient `i` belongs to `x^i`. */
    var coefficients: seq<Complex>

    constructor ()
      ensures coefficients == []
    {
      coefficients := [];
    }

    /** Appends a coefficient for the next power. */
    method AddCoefficient(coefficient: Complex)
      modifies this
      ensures coefficients == old(coefficients) + [coefficient]
    {
      coefficients := coefficients + [coefficient];
    }

    /** A new polynomial holding the derivative; this one is not changed. */
    method Derive() returns (derived: Polynomial)
      ensures fresh(derived)
      ensures derived.coefficients == Derivative(coefficients)
    {
      derived := new Polynomial();
      var i := 1;
      while i < |coefficients|
        invariant 1 <= i && (i <= |coefficients| || |coefficients| == 0)
        invariant i <= |coefficients| ==> derived.coefficients == Derivative(coefficients[..i])
        invariant i > |coefficients| ==> derived.coefficients == []
      {
        DerivativeStep(coefficients, i);
        derived.coefficients := derived.coefficients + [Multiply(coefficients[i], FromReal(i as real))];
        i := i + 1;
      }
      assert |coefficients| > 0 ==> coefficients[..i] == coefficients;
    }

    /** The value at a real point, evaluated as the complex number `(x, 0)`. */
    method EvaluateReal(x: real) returns (value: Complex)
      ensures value == Eval(coefficients, FromReal(x))
    {
      value := Evaluate(Complex(x, 0.0));
    }

    /**
     * The value at `x`: coefficient `i` is multiplied by `x` raised to `i`
     * through `i − 1` further multiplications, and the terms are summed.
     */
    method Evaluate(x: Complex) returns (value: Complex)
      ensures value == Eval(coefficients, x)
    {
      value := Zero;
      var i := 0;
      while i < |coefficients|
        invariant 0 <= i <= |coefficients|
        invariant value == Eval(coefficients[..i], x)
      {
        var coefficient := coefficients[i];
        var baseX := x;
        var power := i;
        if i > 0 {
          var j := 0;
          while j < power - 1
            invariant 0 <= j <= power - 1
            invariant baseX == Power(x, j + 1)
          {
            baseX := Multiply(baseX, x);
            j := j + 1;
          }
          coefficient := Multiply(coefficient, baseX);
        } else {
          MultiplyOne(coefficient);
        }
        EvalStep(coefficients, i, x);
        value := Add(value, coefficient);
        i := i + 1;
      }
      assert coefficients[..i] == coefficients;
    }

    /** The text form, each component written by `fmt`. */
    method ToString(fmt: real -> string) returns (result: string)
      ensures result == Text(coefficients, fmt)
    {
      result := "";
      var i := 0;
      while i < |coefficients|
        invariant 0 <= i <= |coefficients|
        invariant result == Text(coefficients[..i], fmt) + (if 0 < i < |coefficients| then " + " else "")
      {
        ghost var before := result;
        result := result + ComplexNumber.ToString(coefficients[i], fmt);
        if i > 0 {
          var j := 0;
          while j < i
            invariant 0 <= j <= i
            invariant result == before + ComplexNumber.ToString(coefficients[i], fmt) + Xs(j)
          {
            result := result + "x";
            j := j + 1;
          }
        }
        assert result == before + Term(coefficients[i], i, fmt);
        TextStep(coefficients, i, fmt);
        if i + 1 < |coefficients| {
          result := result + " + ";
        }
        i := i + 1;
      }
      assert coefficients[..i] == coefficients;
    }
  }
}
