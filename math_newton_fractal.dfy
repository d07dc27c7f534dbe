/**
 * The renderer of NNPTPZ1/Mathematics/NewtonFractal.cs.  Its static state
 * (image size, viewport, the list of roots found so far and the two
 * polynomials) becomes the fields of one object; the polynomials are the
 * class of NNPTPZ1/Mathematics/Polynomial.cs and the arithmetic is the
 * Real/Imaginary complex number of NNPTPZ1/ComplexNumber.cs.
 *
 * Unlike the other two renderers, it searches the roots for the first match,
 * numbers a new root by its index and writes pixel `(x, y)` with `x` below
 * the width, so every write is inside the bitmap.
 */
module MathNewtonFractals {

  import opened ComplexNumber
  import opened PolynomialSpec
  import opened NewtonSolver
  import opened RootRegistry
  import opened Pixels
  import opened MathPolynomials

  /** A bitmap dimension: `new Bitmap` rejects anything below 1. */
  type Positive = n: nat | n > 0 witness 1

  /**
   * `POLYNOMIAL_TOLERANCE` is 0.5 on the absolute value `√(re² + im²)`;
   * the model compares the squared magnitude with its square (see
   * `AbsoluteValueComparison`).
   */
  const PolynomialTolerance: real := 0.5
  const PolynomialToleranceSquared: real := 0.25

  /** The channel values never leave 0..255. */
  const MaxChannel: int := 255

  class NewtonFractal {

    const imageWidth: Positive
    const imageHeight: Positive
    const xMin: real
    const yMin: real
    const xMax: real
    const yMax: real

    /** The roots found so far, shared by every pixel of a render. */
    var roots: seq<Point>

    /** Null until `InitializePolynomials` runs. */
    var polynomial: Polynomial?
    var polynomialDerivative: Polynomial?

    /** The state `ParseArguments` leaves: size and viewport set, no roots, no polynomials yet. */
    constructor (imageWidth: Positive, imageHeight: Positive, xMin: real, xMax: real, yMin: real, yMax: real)
      ensures this.imageWidth == imageWidth && this.imageHeight == imageHeight
      ensures this.xMin == xMin && this.xMax == xMax && this.yMin == yMin && this.yMax == yMax
      ensures roots == [] && polynomial == null && polynomialDerivative == null
    {
      this.imageWidth := imageWidth;
      this.imageHeight := imageHeight;
      this.xMin := xMin;
      this.xMax := xMax;
      this.yMin := yMin;
      this.yMax := yMax;
      roots := [];
      polynomial := null;
      polynomialDerivative := null;
    }

    /** `x³ + 1`, built coefficient by coefficient. */
    static method InitializePolynomial() returns (p: Polynomial)
      ensures fresh(p)
      ensures p.coefficients == [One, Zero, Zero, One]
    {
      p := new Polynomial();
      p.AddCoefficient(Complex(1.0, 0.0));
      p.AddCoefficient(Zero);
      p.AddCoefficient(Zero);
      p.AddCoefficient(Complex(1.0, 0.0));
    }

    /** Sets both polynomials: `x³ + 1` and its derivative `3x²`; the roots are kept. */
    method InitializePolynomials()
      modifies this
      ensures polynomial != null && polynomialDerivative != null
      ensures fresh(polynomial) && fresh(polynomialDerivative)
      ensures polynomial.coefficients == [One, Zero, Zero, One]
      ensures polynomialDerivative.coefficients == Derivative(polynomial.coefficients)
      ensures polynomialDerivative.coefficients == [Zero, Zero, Complex(3.0, 0.0)]
      ensures roots == old(roots)
    {
      var p := InitializePolynomial();
      polynomial := p;
      var d := p.Derive();
      polynomialDerivative := d;
      DerivativeOfCubic();
    }

    /**
     * Newton's iteration from `root`, with at most `fuel` passes (see
     * `NewtonSolver`); the final point is the `ref` parameter's new value.
     */
    method SolveUsingNewtonMethod(root: Point, fuel: nat) returns (outcome: Outcome)
      requires polynomial != null && polynomialDerivative != null
      ensures IsOutcome(Newton(polynomial.coefficients, polynomialDerivative.coefficients, PolynomialToleranceSquared),
                        root, fuel, outcome)
    {
      ghost var m := Newton(polynomial.coefficients, polynomialDerivative.coefficients, PolynomialToleranceSquared);
      var z := root;
      var iterations := 0;
      var i := 0;
      while i < MaxIterations && iterations < fuel
        invariant 0 <= i <= MaxIterations
        invariant iterations <= fuel
        invariant z == Iterate(m, root, iterations)
        invariant i == Settled(m, root, iterations)
        invariant forall t :: 0 <= t < iterations ==> Settled(m, root, t) < MaxIterations
        decreases fuel - iterations
      {
        var quotient := Quotient(z);
        var diverging;
        PassStep(m, root, iterations);
        z, diverging := Pass(z, quotient);
        if diverging {
          i := i - 1;
        }
        iterations := iterations + 1;
        i := i + 1;
      }
      if i == MaxIterations {
        outcome := Solved(z, iterations);
      } else {
        outcome := OutOfFuel;
      }
    }

    /** One pass of the loop body: `root.Subtract(quotient)` and whether `|quotient| ≥ 0.5`. */
    method Pass(z: Point, quotient: Point) returns (next: Point, diverging: bool)
      requires polynomial != null && polynomialDerivative != null
      ensures next == Update(z, quotient)
      ensures diverging == IsDiverging(Newton(polynomial.coefficients, polynomialDerivative.coefficients, PolynomialToleranceSquared), quotient)
    {
      next := if z.Finite? && quotient.Finite? then Finite(Subtract(z.value, quotient.value)) else NotANumber;
      diverging := quotient.Finite?
                   && quotient.value.re * quotient.value.re + quotient.value.im * quotient.value.im >= PolynomialToleranceSquared;
    }

    /** `polynomial.Evaluate(root).Divide(polynomialDerivative.Evaluate(root))`, NaN as in `NewtonSolver.Quotient`. */
    method Quotient(z: Point) returns (quotient: Point)
      requires polynomial != null && polynomialDerivative != null
      ensures quotient == NewtonSolver.Quotient(Newton(polynomial.coefficients, polynomialDerivative.coefficients, PolynomialToleranceSquared), z)
    {
      quotient := NotANumber;
      if z.Finite? {
        var value := polynomial.Evaluate(z.value);
        var slope := polynomialDerivative.Evaluate(z.value);
        quotient := DivideDirect(value, slope);
      }
    }

    /** The direct-formula `Divide`, NaN when the divisor is exactly zero. */
    static method DivideDirect(value: Complex, slope: Complex) returns (quotient: Point)
      ensures quotient == DivideOrNotANumber(value, slope)
    {
      quotient := NotANumber;
      if slope.re * slope.re + slope.im * slope.im != 0.0 {
        quotient := Finite(Divide(value, slope));
      }
    }

    /**
     * The first known root within the tolerance; otherwise `root` is added
     * and its index returned.  Nothing but the root list changes.
     */
    method FindOrAddRoot(root: Point) returns (index: int)
      modifies this
      ensures Lookup(roots, index) == FindOrAdd(old(roots), root)
      ensures polynomial == old(polynomial) && polynomialDerivative == old(polynomialDerivative)
    {
      var i := 0;
      while i < |roots|
        invariant 0 <= i <= |roots|
        invariant forall k :: 0 <= k < i ==> !IsNear(root, roots[k])
      {
        if root.Finite? && roots[i].Finite? && SquaredDistance(root.value, roots[i].value) <= RootTolerance {
          FirstMatchOfPrefix(roots, i, root);
          return i;
        }
        i := i + 1;
      }
      roots := roots + [root];
      index := |roots| - 1;
    }

    /**
     * The point for pixel `(x, y)`: the viewport position with each exactly
     * zero component replaced by `OFFSET`, which is `MinimumCoordinate`.
     */
    function GetComplexCoordinates(x: int, y: int): (c: Complex)
      ensures NoZeroComponent(c.re, c.im)
      ensures RealPart(x) != 0.0 ==> c.re == RealPart(x)
      ensures ImaginaryPart(y) != 0.0 ==> c.im == ImaginaryPart(y)
      ensures RealPart(x) == 0.0 ==> c.re == MinimumCoordinate
      ensures ImaginaryPart(y) == 0.0 ==> c.im == MinimumCoordinate
    {
      var realPart := RealPart(x);
      var imaginaryPart := ImaginaryPart(y);
      Complex(if realPart != 0.0 then realPart else MinimumCoordinate,
              if imaginaryPart != 0.0 then imaginaryPart else MinimumCoordinate)
    }

    /** The viewport position of column `x`: `xMin` plus `x` steps of `(xMax − xMin) / imageWidth`. */
    function RealPart(x: int): real
    {
      xMin + x as real * ((xMax - xMin) / imageWidth as real)
    }

    /** The viewport position of row `y`. */
    function ImaginaryPart(y: int): real
    {
      yMin + y as real * ((yMax - yMin) / imageHeight as real)
    }

    /** `Clamp`: a value already in range is kept, any other is moved to the nearer bound. */
    static function Clamp(value: int, min: int, max: int): (r: int)
      ensures min <= max ==> min <= r <= max
      ensures min <= value <= max ==> r == value
      ensures r == value || r == min || r == max
    {
      if value < min then min
      else if value > max then max
      else value
    }

    /** One channel of `DeterminePixelColor`: the adjustment is `min(2·iteration, 255)`. */
    static function AdjustChannel(channel: int, iteration: int): (v: int)
      ensures IsByte(v)
    {
      var colorAdjustment := if iteration * 2 < MaxChannel then iteration * 2 else MaxChannel;
      Clamp(channel - colorAdjustment, 0, MaxChannel)
    }

    /**
     * The pixel colour of `root`: its Newton run, then its root index, then
     * the palette colour darkened by the run's pass count.  A run that runs
     * out of fuel leaves the roots as they were.
     */
    method DeterminePixelColor(root: Point, fuel: nat) returns (outcome: Outcome, rootIndex: int, color: Color)
      requires polynomial != null && polynomialDerivative != null
      modifies this
      ensures polynomial == old(polynomial) && polynomialDerivative == old(polynomialDerivative)
      ensures IsOutcome(Newton(polynomial.coefficients, polynomialDerivative.coefficients, PolynomialToleranceSquared),
                        root, fuel, outcome)
      ensures outcome.OutOfFuel? ==> roots == old(roots)
      ensures outcome.Solved? ==>
                Lookup(roots, rootIndex) == FindOrAdd(old(roots), outcome.point)
                && rootIndex >= 0
                && color == Shade(PaletteColor(rootIndex), outcome.iterations)
    {
      outcome := SolveUsingNewtonMethod(root, fuel);
      rootIndex, color := 0, Color(0, 0, 0);
      if outcome.Solved? {
        rootIndex := FindOrAddRoot(outcome.point);
        var baseColor := Palette[rootIndex % |Palette|];
        color := Color(AdjustChannel(baseColor.r, outcome.iterations),
                       AdjustChannel(baseColor.g, outcome.iterations),
                       AdjustChannel(baseColor.b, outcome.iterations));
        AdjustChannelIsDarken(baseColor.r, outcome.iterations);
        AdjustChannelIsDarken(baseColor.g, outcome.iterations);
        AdjustChannelIsDarken(baseColor.b, outcome.iterations);
      }
    }

    /**
     * Every cell of `bitmap` before `(x, y)` in column-major order records
     * the run from its own pixel, against the current root list.
     */
    ghost predicate RenderedBefore(bitmap: array2<Color>, m: Newton, fuel: nat, cells: map<(int, int), Run>, x: int, y: int)
      reads this, bitmap
    {
      forall u, v :: InBitmap(bitmap.Length0, bitmap.Length1, u, v) && ColumnMajorBefore(u, v, x, y)
        ==> (u, v) in cells && RenderedFrom(m, Finite(GetComplexCoordinates(u, v)), fuel, roots, bitmap[u, v], cells[(u, v)])
    }

    /**
     * `GenerateFractalImage`: a fresh `imageWidth × imageHeight` bitmap with
     * pixel `(x, y)` set from a run starting at `GetComplexCoordinates(x, y)`.
     * When it finishes, every cell records the run from its own pixel: the
     * colour of the root index that run ends at, darkened by its pass count.
     * The roots found before are kept, and at most one root was added per
     * pixel.
     */
    method GenerateFractalImage(fuel: nat) returns (finished: bool, bitmap: array2<Color>, ghost cells: map<(int, int), Run>)
      requires polynomial != null && polynomialDerivative != null
      modifies this
      ensures fresh(bitmap) && bitmap.Length0 == imageWidth && bitmap.Length1 == imageHeight
      ensures polynomial == old(polynomial) && polynomialDerivative == old(polynomialDerivative)
      ensures |old(roots)| <= |roots| && roots[..|old(roots)|] == old(roots)
      ensures finished ==>
                forall x, y :: InBitmap(bitmap.Length0, bitmap.Length1, x, y)
                  ==> (x, y) in cells
                      && RenderedFrom(Newton(polynomial.coefficients, polynomialDerivative.coefficients, PolynomialToleranceSquared),
                                      Finite(GetComplexCoordinates(x, y)), fuel, roots, bitmap[x, y], cells[(x, y)])
      ensures finished ==> forall x, y :: InBitmap(bitmap.Length0, bitmap.Length1, x, y)
                             ==> IsRenderColor(bitmap[x, y])
      ensures finished ==> |roots| <= |old(roots)| + imageWidth * imageHeight
    {
      bitmap := new Color[imageWidth, imageHeight]((x, y) => Color(0, 0, 0));
      ghost var m := Newton(polynomial.coefficients, polynomialDerivative.coefficients, PolynomialToleranceSquared);
      ghost var roots0 := roots;
      cells := map[];
      var x := 0;
      while x < imageWidth
        invariant 0 <= x <= imageWidth
        invariant polynomial == old(polynomial) && polynomialDerivative == old(polynomialDerivative)
        invariant |roots0| <= |roots| && roots[..|roots0|] == roots0
        invariant |roots| <= |roots0| + x * imageHeight
        invariant RenderedBefore(bitmap, m, fuel, cells, x, 0)
      {
        var y := 0;
        while y < imageHeight
          invariant 0 <= y <= imageHeight
          invariant polynomial == old(polynomial) && polynomialDerivative == old(polynomialDerivative)
          invariant |roots0| <= |roots| && roots[..|roots0|] == roots0
          invariant |roots| <= |roots0| + x * imageHeight + y
          invariant RenderedBefore(bitmap, m, fuel, cells, x, y)
        {
          var ok;
          ok, cells := RenderPixel(bitmap, x, y, fuel, cells);
          if !ok {
            return false, bitmap, cells;
          }
          y := y + 1;
        }
        assert x * imageHeight + imageHeight == (x + 1) * imageHeight;
        x := x + 1;
      }
      finished := true;
      forall u, v | InBitmap(imageWidth, imageHeight, u, v)
        ensures IsRenderColor(bitmap[u, v])
      {
        assert ColumnMajorBefore(u, v, imageWidth, 0);
        RenderedIsRenderColor(m, Finite(GetComplexCoordinates(u, v)), fuel, roots, bitmap[u, v], cells[(u, v)]);
      }
    }

    /**
     * The loop body of `GenerateFractalImage`: pixel `(x, y)` gets the colour
     * `DeterminePixelColor` gives the run from `GetComplexCoordinates(x, y)`,
     * with its root index from `FindOrAdd`; no other pixel changes.  If the
     * bound on passes runs out, nothing changes.  The ghost `cells` records
     * the runs of the pixels rendered so far; with this pixel's run added,
     * they all still hold against the new root list.
     */
    method RenderPixel(bitmap: array2<Color>, x: int, y: int, fuel: nat, ghost cells: map<(int, int), Run>)
      returns (ok: bool, ghost newCells: map<(int, int), Run>)
      requires polynomial != null && polynomialDerivative != null
      requires InBitmap(bitmap.Length0, bitmap.Length1, x, y)
      requires RenderedBefore(bitmap, Newton(polynomial.coefficients, polynomialDerivative.coefficients, PolynomialToleranceSquared),
                              fuel, cells, x, y)
      modifies this, bitmap
      ensures polynomial == old(polynomial) && polynomialDerivative == old(polynomialDerivative)
      ensures |roots| <= |old(roots)| + 1
      ensures |old(roots)| <= |roots| && roots[..|old(roots)|] == old(roots)
      ensures !ok ==> roots == old(roots) && bitmap[x, y] == old(bitmap[x, y])
      ensures ok ==>
        && (x, y) in newCells
        && Lookup(roots, newCells[(x, y)].rootId) == FindOrAdd(old(roots), newCells[(x, y)].point)
        && RenderedFrom(Newton(polynomial.coefficients, polynomialDerivative.coefficients, PolynomialToleranceSquared),
                        Finite(GetComplexCoordinates(x, y)), fuel, roots, bitmap[x, y], newCells[(x, y)])
        && IsRenderColor(bitmap[x, y])
        && RenderedBefore(bitmap, Newton(polynomial.coefficients, polynomialDerivative.coefficients, PolynomialToleranceSquared),
                          fuel, newCells, x, y + 1)
      ensures forall u, v :: InBitmap(bitmap.Length0, bitmap.Length1, u, v) && (u, v) != (x, y)
                ==> bitmap[u, v] == old(bitmap[u, v])
    {
      ghost var m := Newton(polynomial.coefficients, polynomialDerivative.coefficients, PolynomialToleranceSquared);
      ghost var oldRoots := roots;
      newCells := cells;
      var initialPoint := GetComplexCoordinates(x, y);
      var outcome, rootIndex, pixelColor := DeterminePixelColor(Finite(initialPoint), fuel);
      if outcome.OutOfFuel? {
        return false, newCells;
      }
      bitmap[x, y] := pixelColor;
      ghost var run := Run(outcome.point, outcome.iterations, rootIndex);
      newCells := cells[(x, y) := run];
      RenderedIsRenderColor(m, Finite(initialPoint), fuel, roots, bitmap[x, y], run);
      var more := roots[|oldRoots|..];
      assert oldRoots + more == roots;
      forall u, v | InBitmap(bitmap.Length0, bitmap.Length1, u, v) && ColumnMajorBefore(u, v, x, y + 1)
        ensures (u, v) in newCells
                && RenderedFrom(m, Finite(GetComplexCoordinates(u, v)), fuel, roots, bitmap[u, v], newCells[(u, v)])
      {
        if (u, v) != (x, y) {
          assert ColumnMajorBefore(u, v, x, y);
          RenderedAsRootsGrow(m, Finite(GetComplexCoordinates(u, v)), fuel, oldRoots, more, old(bitmap[u, v]), cells[(u, v)]);
        }
      }
      ok := true;
    }
  }

  /** When no root among the first `i` matches, a match at `i` is the first match. */
  lemma FirstMatchOfPrefix(roots: seq<Point>, i: nat, p: Point)
    requires i < |roots|
    requires forall k :: 0 <= k < i ==> !IsNear(p, roots[k])
    requires IsNear(p, roots[i])
    ensures FindOrAdd(roots, p) == Lookup(roots, i)
  {
    var r := FirstMatch(roots, p);
    assert r.Some?;
    assert r.value >= i;
  }

  /**
   * This renderer's channel arithmetic, `clamp(c − min(2n, 255), 0, 255)`,
   * equals the other renderers' `min(max(0, c − 2n), 255)` on every channel
   * of at most 255.
   */
  lemma AdjustChannelIsDarken(channel: int, iteration: int)
    requires channel <= MaxChannel
    ensures NewtonFractal.AdjustChannel(channel, iteration) == Darken(channel, iteration)
  {
  }

  /**
   * `quotient.GetAbsoluteValue() >= 0.5`: for the absolute value `a`, the
   * non-negative square root of the squared magnitude, the comparison holds
   * exactly when the squared magnitude is at least 0.25.
   */
  lemma AbsoluteValueComparison(q: Complex, a: real)
    requires a >= 0.0 && a * a == q.re * q.re + q.im * q.im
    ensures a >= PolynomialTolerance <==> q.re * q.re + q.im * q.im >= PolynomialToleranceSquared
  {
    if a >= PolynomialTolerance {
      ProductMonotone(PolynomialTolerance, a, a);
      ProductMonotone(PolynomialTolerance, a, PolynomialTolerance);
    } else {
      ProductMonotone(a, PolynomialTolerance, a);
      ProductMonotone(a, PolynomialTolerance, PolynomialTolerance);
      assert a * a < PolynomialTolerance * PolynomialTolerance;
    }
  }

  /**
   * The viewport positions span the viewport: column 0 and row 0 are at
   * `(xMin, yMin)`, column `imageWidth` and row `imageHeight` at
   * `(xMax, yMax)`, neighbouring pixels are one step apart, and every pixel
   * of the image lies in the viewport.
   */
  lemma ViewportPositionsSpan(f: NewtonFractal, x: int, y: int)
    ensures f.RealPart(x) == GridPosition(f.xMin, f.xMax, f.imageWidth, x)
    ensures f.ImaginaryPart(y) == GridPosition(f.yMin, f.yMax, f.imageHeight, y)
    ensures f.RealPart(0) == f.xMin && f.RealPart(f.imageWidth) == f.xMax
    ensures f.ImaginaryPart(0) == f.yMin && f.ImaginaryPart(f.imageHeight) == f.yMax
    ensures f.RealPart(x + 1) == f.RealPart(x) + (f.xMax - f.xMin) / f.imageWidth as real
    ensures f.ImaginaryPart(y + 1) == f.ImaginaryPart(y) + (f.yMax - f.yMin) / f.imageHeight as real
    ensures f.xMin <= f.xMax && 0 <= x <= f.imageWidth ==> f.xMin <= f.RealPart(x) <= f.xMax
    ensures f.yMin <= f.yMax && 0 <= y <= f.imageHeight ==> f.yMin <= f.ImaginaryPart(y) <= f.yMax
  {
    GridSpansInterval(f.xMin, f.xMax, f.imageWidth, x);
    GridSpansInterval(f.yMin, f.yMax, f.imageHeight, y);
  }

  /** Multiplying by a non-negative factor keeps the order. */
  lemma ProductMonotone(a: real, b: real, c: real)
    requires a <= b && c >= 0.0
    ensures a * c <= b * c
  {
  }
}
