/**
 * The polynomial class of NNPTPZ1/Polynome.cs: the same list of complex
 * coefficients, index = power, but over the RealPart/ImaginaryPart complex
 * number of NNPTPZ1/Mathematics/ComplexNumber.cs, whose arithmetic is
 * `ConjugateComplex`.
 */
module Polynomes {

  import opened ComplexNumber
  import opened PolynomialSpec
  import ConjugateComplex

  class Polynome {

    /** `Coefficients`: coefficient `i` belongs to `x^i`. */
    var coefficients: seq<Complex>

    constructor ()
      ensures coefficients == []
    {
      coefficients := [];
    }

    /** `Add`: appends a coefficient for the next power. */
    method Add(coefficient: Complex)
      modifies this
      ensures coefficients == old(coefficients) + [coefficient]
    {
      coefficients := coefficients + [coefficient];
    }

    /** A new polynome holding the derivative; this one is not changed. */
    method Derive() returns (derivedPolynome: Polynome)
      ensures fresh(derivedPolynome)
      ensures derivedPolynome.coefficients == Derivative(coefficients)
    {
      derivedPolynome := new Polynome();
      var i := 1;
      while i < |coefficients|
        invariant 1 <= i && (i <= |coefficients| || |coefficients| == 0)
        invariant i <= |coefficients| ==> derivedPolynome.coefficients == Derivative(coefficients[..i])
        invariant i > |coefficients| ==> derivedPolynome.coefficients == []
      {
        var derivedCoefficient := ConjugateComplex.Multiply(coefficients[i], Complex(i as real, 0.0));
        ConjugateComplex.ArithmeticAgrees(coefficients[i], Complex(i as real, 0.0));
        DerivativeStep(coefficients, i);
        derivedPolynome.coefficients := derivedPolynome.coefficients + [derivedCoefficient];
        i := i + 1;
      }
      assert |coefficients| > 0 ==> coefficients[..i] == coefficients;
    }

    /** The value at a real point, evaluated as the complex number `(x, 0)`. */
    method EvaluateReal(evaluationPoint: real) returns (value: Complex)
      ensures value == Eval(coefficients, FromReal(evaluationPoint))
    {
      value := Evaluate(Complex(evaluationPoint, 0.0));
    }

    /**
     * The value at a point: coefficient `i` is multiplied by the point raised
     * to `i` through `i − 1` further multiplications, and the terms are summed.
     */
    method Evaluate(evaluationPoint: Complex) returns (result: Complex)
      ensures result == Eval(coefficients, evaluationPoint)
    {
      result := Zero;
      var i := 0;
      while i < |coefficients|
        invariant 0 <= i <= |coefficients|
        invariant result == Eval(coefficients[..i], evaluationPoint)
      {
        var coefficient := coefficients[i];
        var baseToPower := evaluationPoint;
        if i > 0 {
          var j := 0;
          while j < i - 1
            invariant 0 <= j <= i - 1
            invariant baseToPower == Power(evaluationPoint, j + 1)
          {
            ConjugateComplex.ArithmeticAgrees(baseToPower, evaluationPoint);
            baseToPower := ConjugateComplex.Multiply(baseToPower, evaluationPoint);
            j := j + 1;
          }
          ConjugateComplex.ArithmeticAgrees(coefficient, baseToPower);
          coefficient := ConjugateComplex.Multiply(coefficient, baseToPower);
        } else {
          MultiplyOne(coefficient);
        }
        EvalStep(coefficients, i, evaluationPoint);
        ConjugateComplex.ArithmeticAgrees(result, coefficient);
        result := ConjugateComplex.Add(result, coefficient);
        i := i + 1;
      }
      assert coefficients[..i] == coefficients;
    }

    /** The text form, each component written by `fmt`. */
    method ToString(fmt: real -> string) returns (str: string)
      ensures str == Text(coefficients, fmt)
    {
      str := "";
      var i := 0;
      while i < |coefficients|
        invariant 0 <= i <= |coefficients|
        invariant str == Text(coefficients[..i], fmt) + (if 0 < i < |coefficients| then " + " else "")
      {
        ghost var before := str;
        str := str + ConjugateComplex.ToString(coefficients[i], fmt);
        if i > 0 {
          var j := 0;
          while j < i
            invariant 0 <= j <= i
            invariant str == before + ConjugateComplex.ToString(coefficients[i], fmt) + Xs(j)
          {
            str := str + "x";
            j := j + 1;
          }
        }
        assert str == before + Term(coefficients[i], i, fmt);
        TextStep(coefficients, i, fmt);
        if i + 1 < |coefficients| {
          str := str + " + ";
        }
        i := i + 1;
      }
      assert coefficients[..i] == coefficients;
    }
  }
}
