/**
 * The polynomial class of NNPTPZ1/Mathematics/Polynomial.cs, over the
 * RealPart/ImaginaryPart complex number (`ConjugateComplex`).  Its
 * coefficient list is private: the only way it grows is `AddCoefficient`,
 * which `Derive` also uses to fill the new polynomial.  (Dafny fields are
 * visible to the module, so the privacy shows here as `AddCoefficient`
 * being the only method whose frame includes the field.)
 */
module MathPolynomials {

  import opened ComplexNumber
  import opened PolynomialSpec
  import ConjugateComplex

  class Polynomial {

    /** The private `Coefficients`: coefficient `i` belongs to `x^i`. */
    var coefficients: seq<Complex>

    constructor ()
      ensures coefficients == []
    {
      coefficients := [];
    }

    /** Appends a coefficient for the next power. */
    method AddCoefficient(coefficient: Complex)
      modifies this
      ensures coefficients == old(coefficients) + [coefficient]
    {
      coefficients := coefficients + [coefficient];
    }

    /** A new polynomial holding the derivative, built by `AddCoefficient`; this one is not changed. */
    method Derive() returns (polynomial: Polynomial)
      ensures fresh(polynomial)
      ensures polynomial.coefficients == Derivative(coefficients)
    {
      polynomial := new Polynomial();
      var i := 1;
      while i < |coefficients|
        invariant 1 <= i && (i <= |coefficients| || |coefficients| == 0)
        invariant fresh(polynomial)
        invariant i <= |coefficients| ==> polynomial.coefficients == Derivative(coefficients[..i])
        invariant i > |coefficients| ==> polynomial.coefficients == []
      {
        ConjugateComplex.ArithmeticAgrees(coefficients[i], Complex(i as real, 0.0));
        DerivativeStep(coefficients, i);
        polynomial.AddCoefficient(ConjugateComplex.Multiply(coefficients[i], Complex(i as real, 0.0)));
        i := i + 1;
      }
      assert |coefficients| > 0 ==> coefficients[..i] == coefficients;
    }

    /** The value at a real point, evaluated as the complex number `(x, 0)`. */
    method EvaluateReal(x: real) returns (result: Complex)
      ensures result == Eval(coefficients, FromReal(x))
    {
      result := Evaluate(Complex(x, 0.0));
    }

    /**
     * The value at `x`: coefficient `i` is multiplied by `x` raised to `i`
     * through `i − 1` further multiplications, and the terms are summed.
     */
    method Evaluate(x: Complex) returns (result: Complex)
      ensures result == Eval(coefficients, x)
    {
      result := Zero;
      var i := 0;
      while i < |coefficients|
        invariant 0 <= i <= |coefficients|
        invariant result == Eval(coefficients[..i], x)
      {
        var coefficient := coefficients[i];
        var bx := x;
        var power := i;
        if i > 0 {
          var j := 0;
          while j < power - 1
            invariant 0 <= j <= power - 1
            invariant bx == Power(x, j + 1)
          {
            ConjugateComplex.ArithmeticAgrees(bx, x);
            bx := ConjugateComplex.Multiply(bx, x);
            j := j + 1;
          }
          ConjugateComplex.ArithmeticAgrees(coefficient, bx);
          coefficient := ConjugateComplex.Multiply(coefficient, bx);
        } else {
          MultiplyOne(coefficient);
        }
        EvalStep(coefficients, i, x);
        ConjugateComplex.ArithmeticAgrees(result, coefficient);
        result := ConjugateComplex.Add(result, coefficient);
        i := i + 1;
      }
      assert coefficients[..i] == coefficients;
    }

    /** The text form, each component written by `fmt`. */
    method ToString(fmt: real -> string) returns (polynomAsString: string)
      ensures polynomAsString == Text(coefficients, fmt)
    {
      polynomAsString := "";
      var i := 0;
      while i < |coefficients|
        invariant 0 <= i <= |coefficients|
        invariant polynomAsString
               == Text(coefficients[..i], fmt) + (if 0 < i < |coefficients| then " + " else "")
      {
        ghost var before := polynomAsString;
        polynomAsString := polynomAsString + ConjugateComplex.ToString(coefficients[i], fmt);
        if i > 0 {
          var j := 0;
          while j < i
            invariant 0 <= j <= i
            invariant polynomAsString == before + ConjugateComplex.ToString(coefficients[i], fmt) + Xs(j)
          {
            polynomAsString := polynomAsString + "x";
            j := j + 1;
          }
        }
        assert polynomAsString == before + Term(coefficients[i], i, fmt);
        TextStep(coefficients, i, fmt);
        if i + 1 < |coefficients| {
          polynomAsString := polynomAsString + " + ";
        }
        i := i + 1;
      }
      assert coefficients[..i] == coefficients;
    }
  }

  /** The derivative of a constant (or empty) polynomial evaluates to `Zero` everywhere. */
  method DeriveConstantEvaluatesToZero(p: Polynomial, x: Complex) returns (y: Complex)
    requires |p.coefficients| <= 1
    ensures y == Zero
  {
    var d := p.Derive();
    y := d.Evaluate(x);
    DerivativeOfConstant(p.coefficients, x);
  }
}
