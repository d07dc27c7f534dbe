/**
 * The renderer of NNPTPZ1/FractalGenerator.cs: the same algorithm as
 * NNPTPZ1/NewtonFractal.cs split into small methods, with the root search
 * in `GetRootId` also maintaining `maxRootId`.  Its `Polynomial` is modelled
 * by the class of NNPTPZ1/Polynomial.cs (the source calls its evaluation
 * `Eval`), over the RealPart/ImaginaryPart complex number.
 *
 * The bitmap is an `array2` indexed `[x, y]`.  `ProcessImage` below runs its
 * outer index below the height and numbers a new root by its index; the
 * as-written versions are `Pixels.TargetedAsWritten` and `GetRootIdAsWritten`.
 */
module FractalGenerators {

  import opened ComplexNumber
  import ConjugateComplex
  import opened PolynomialSpec
  import opened NewtonSolver
  import opened RootRegistry
  import opened Pixels
  import opened Polynomials

  /** The divergence threshold of `IsDiverging` and the root-equality threshold of `GetRootId`. */
  const DivergenceThreshold: real := 0.5
  const RootThreshold: real := 0.01

  class FractalGenerator {

    const imageWidth: nat
    const imageHeight: nat
    const minX: real
    const maxX: real
    const minY: real
    const maxY: real
    const xStep: real
    const yStep: real

    /** `bitmap`: `Length0` is the width, `Length1` the height. */
    const bitmap: array2<Color>

    /** A positive size is what the `Bitmap` constructor demands. */
    constructor (imageWidth: nat, imageHeight: nat, minX: real, maxX: real, minY: real, maxY: real)
      requires imageWidth > 0 && imageHeight > 0
      ensures this.imageWidth == imageWidth && this.imageHeight == imageHeight
      ensures this.minX == minX && this.maxX == maxX && this.minY == minY && this.maxY == maxY
      ensures xStep == (maxX - minX) / imageWidth as real
      ensures yStep == (maxY - minY) / imageHeight as real
      ensures fresh(bitmap) && bitmap.Length0 == imageWidth && bitmap.Length1 == imageHeight
    {
      this.imageWidth := imageWidth;
      this.imageHeight := imageHeight;
      this.minX := minX;
      this.maxX := maxX;
      this.minY := minY;
      this.maxY := maxY;
      xStep := (maxX - minX) / imageWidth as real;
      yStep := (maxY - minY) / imageHeight as real;
      bitmap := new Color[imageWidth, imageHeight]((x, y) => Color(0, 0, 0));
    }

    /** `x³ + 1`, as the coefficients `[1, 0, 0, 1]`. */
    static method CreatePolynomial() returns (polynomial: Polynomial)
      ensures fresh(polynomial)
      ensures polynomial.coefficients == [One, Zero, Zero, One]
    {
      polynomial := new Polynomial();
      polynomial.coefficients := polynomial.coefficients + [Complex(1.0, 0.0)];
      polynomial.coefficients := polynomial.coefficients + [Zero];
      polynomial.coefficients := polynomial.coefficients + [Zero];
      polynomial.coefficients := polynomial.coefficients + [Complex(1.0, 0.0)];
    }

    /** The world coordinates of the pixel in row `i`, column `j`. */
    function CalculateWorldCoordinates(i: int, j: int): Complex
    {
      var x := minX + j as real * xStep;
      var y := minY + i as real * yStep;
      Complex(x, y)
    }

    /** Each component that is exactly zero becomes 0.0001. */
    static function AdjustZeroComplex(c: Complex): (r: Complex)
      ensures NoZeroComponent(r.re, r.im)
      ensures c.re != 0.0 ==> r.re == c.re
      ensures c.im != 0.0 ==> r.im == c.im
      ensures c.re == 0.0 ==> r.re == MinimumCoordinate
      ensures c.im == 0.0 ==> r.im == MinimumCoordinate
    {
      var re := if c.re == 0.0 then MinimumCoordinate else c.re;
      var im := if c.im == 0.0 then MinimumCoordinate else c.im;
      Complex(re, im)
    }

    /** A Newton step diverges when its squared magnitude is at least 0.5. */
    static predicate IsDiverging(difference: Complex)
    {
      difference.re * difference.re + difference.im * difference.im >= DivergenceThreshold
    }

    /** Newton's iteration, with at most `fuel` passes (see `NewtonSolver`). */
    static method NewtonIteration(polynomial: Polynomial, derivedPolynomial: Polynomial,
                                  currentComplexNumber: Point, fuel: nat) returns (outcome: Outcome)
      ensures IsOutcome(Newton(polynomial.coefficients, derivedPolynomial.coefficients, DivergenceThreshold),
                        currentComplexNumber, fuel, outcome)
    {
      ghost var m := Newton(polynomial.coefficients, derivedPolynomial.coefficients, DivergenceThreshold);
      var z := currentComplexNumber;
      var iterations := 0;
      var k := 0;
      while k < MaxIterations && iterations < fuel
        invariant 0 <= k <= MaxIterations
        invariant iterations <= fuel
        invariant z == Iterate(m, currentComplexNumber, iterations)
        invariant k == Settled(m, currentComplexNumber, iterations)
        invariant forall t :: 0 <= t < iterations ==> Settled(m, currentComplexNumber, t) < MaxIterations
        decreases fuel - iterations
      {
        var difference := Difference(polynomial, derivedPolynomial, z);
        var diverging;
        PassStep(m, currentComplexNumber, iterations);
        z, diverging := Pass(polynomial, derivedPolynomial, z, difference);
        if diverging {
          k := k - 1;
        }
        iterations := iterations + 1;
        k := k + 1;
      }
      if k == MaxIterations {
        outcome := Solved(z, iterations);
      } else {
        outcome := OutOfFuel;
      }
    }

    /** One pass of the loop body: `currentComplexNumber.Subtract(difference)` and `IsDiverging(difference)`. */
    static method Pass(polynomial: Polynomial, derivedPolynomial: Polynomial, z: Point, difference: Point)
      returns (next: Point, diverging: bool)
      ensures next == Update(z, difference)
      ensures diverging == NewtonSolver.IsDiverging(Newton(polynomial.coefficients, derivedPolynomial.coefficients, DivergenceThreshold), difference)
    {
      if z.Finite? && difference.Finite? {
        ConjugateComplex.ArithmeticAgrees(z.value, difference.value);
        next := Finite(ConjugateComplex.Subtract(z.value, difference.value));
      } else {
        next := NotANumber;
      }
      diverging := difference.Finite? && IsDiverging(difference.value);
    }

    /** `polynomial.Eval(z).Divide(derivedPolynomial.Eval(z))`, NaN as in `NewtonSolver.Quotient`. */
    static method Difference(polynomial: Polynomial, derivedPolynomial: Polynomial, z: Point) returns (difference: Point)
      ensures difference == Quotient(Newton(polynomial.coefficients, derivedPolynomial.coefficients, DivergenceThreshold), z)
    {
      difference := NotANumber;
      if z.Finite? {
        var value := polynomial.Evaluate(z.value);
        var slope := derivedPolynomial.Evaluate(z.value);
        difference := SafeDivide(value, slope);
      }
    }

    /** `ComplexNumber.Divide` of this renderer, NaN when the divisor is exactly zero. */
    static method SafeDivide(value: Complex, slope: Complex) returns (quotient: Point)
      ensures quotient == DivideOrNotANumber(value, slope)
    {
      quotient := NotANumber;
      if slope.re * slope.re + slope.im * slope.im != 0.0 {
        var q := ConjugateComplex.Divide(value, slope);
        ConjugateComplex.DivideAgrees(value, slope);
        quotient := Finite(q);
      }
    }

    /**
     * `GetRootId` as written: the last known root within the threshold; else
     * the point is appended, the id reported is `roots.Count` after the
     * append, and `maxRootId` becomes that id plus one.
     */
    static method GetRootIdAsWritten(roots: seq<Point>, currentComplexNumber: Point, maxRootId: int)
      returns (newRoots: seq<Point>, rootId: int, newMaxRootId: int)
      ensures Lookup(newRoots, rootId) == LastMatchOrAddAsWritten(roots, currentComplexNumber)
      ensures newMaxRootId == if newRoots == roots then maxRootId else |roots| + 2
    {
      var knownRoot;
      knownRoot, rootId := SearchLast(roots, currentComplexNumber);
      newRoots, newMaxRootId := roots, maxRootId;
      if !knownRoot {
        newRoots := newRoots + [currentComplexNumber];
        rootId := |newRoots|;
        newMaxRootId := rootId + 1;
      }
    }

    /** `GetRootId` with a new root numbered by its index, so `maxRootId` stays one past every id. */
    static method GetRootId(roots: seq<Point>, currentComplexNumber: Point, maxRootId: int)
      returns (newRoots: seq<Point>, rootId: int, newMaxRootId: int)
      ensures Lookup(newRoots, rootId) == LastMatchOrAdd(roots, currentComplexNumber)
      ensures newMaxRootId == if newRoots == roots then maxRootId else |newRoots|
    {
      var knownRoot;
      knownRoot, rootId := SearchLast(roots, currentComplexNumber);
      newRoots, newMaxRootId := roots, maxRootId;
      if !knownRoot {
        newRoots := newRoots + [currentComplexNumber];
        rootId := |newRoots| - 1;
        newMaxRootId := rootId + 1;
      }
    }

    /** The `for i` loop of `GetRootId`: every match overwrites the id found so far. */
    static method SearchLast(roots: seq<Point>, currentComplexNumber: Point)
      returns (knownRoot: bool, rootId: int)
      ensures knownRoot <==> LastMatch(roots, currentComplexNumber).Some?
      ensures knownRoot ==> rootId == LastMatch(roots, currentComplexNumber).value
    {
      knownRoot := false;
      rootId := 0;
      var i := 0;
      while i < |roots|
        invariant 0 <= i <= |roots|
        invariant knownRoot <==> LastMatch(roots[..i], currentComplexNumber).Some?
        invariant knownRoot ==> rootId == LastMatch(roots[..i], currentComplexNumber).value
      {
        assert roots[..i + 1][..i] == roots[..i];
        if currentComplexNumber.Finite? && roots[i].Finite?
           && SquaredDistance(currentComplexNumber.value, roots[i].value) <= RootThreshold
        {
          knownRoot := true;
          rootId := i;
        }
        i := i + 1;
      }
      assert roots[..i] == roots;
    }

    /** The colour for a root id, darkened by the iteration count. */
    static function GetPixelColor(rootId: nat, iterations: int): (color: Color)
      ensures IsOpaqueColor(color)
      ensures color == Shade(PaletteColor(rootId), iterations)
      ensures iterations >= 0 ==>
        color.r <= PaletteColor(rootId).r && color.g <= PaletteColor(rootId).g && color.b <= PaletteColor(rootId).b
    {
      var color := Palette[rootId % |Palette|];
      Color(Darken(color.r, iterations), Darken(color.g, iterations), Darken(color.b, iterations))
    }

    /** `ColorizePixel`: `SetPixel(j, i, GetPixelColor(rootId, iterations))`. */
    method ColorizePixel(i: int, j: int, rootId: nat, iterations: int)
      requires InBitmap(bitmap.Length0, bitmap.Length1, j, i)
      modifies bitmap
      ensures bitmap[j, i] == GetPixelColor(rootId, iterations)
      ensures forall x, y :: InBitmap(bitmap.Length0, bitmap.Length1, x, y) && (x, y) != (j, i)
                ==> bitmap[x, y] == old(bitmap[x, y])
    {
      bitmap[j, i] := GetPixelColor(rootId, iterations);
    }

    /** The start point of pixel `(x, y)`: its world coordinates with zero components replaced. */
    function PixelStart(x: int, y: int): Point
    {
      Finite(AdjustZeroComplex(CalculateWorldCoordinates(y, x)))
    }

    /**
     * Every cell before `(j, i)` in row-major order records the run from its
     * own pixel, against the root list `roots`.
     */
    ghost predicate RenderedBefore(m: Newton, fuel: nat, roots: seq<Point>, cells: map<(int, int), Run>, j: int, i: int)
      reads bitmap
    {
      forall x, y :: InBitmap(bitmap.Length0, bitmap.Length1, x, y) && RowMajorBefore(x, y, j, i)
        ==> (x, y) in cells && RenderedFrom(m, PixelStart(x, y), fuel, roots, bitmap[x, y], cells[(x, y)])
    }

    /**
     * `ProcessImage`: every pixel in row-major order with one root list.  When
     * it finishes, every cell records the run from its own pixel: the colour
     * of the root id that run ends at, darkened by its pass count.  At most
     * one root was added per pixel, and `maxRootId` is the number of roots,
     * one past every id reported.
     */
    method ProcessImage(polynomial: Polynomial, derivedPolynomial: Polynomial, fuel: nat)
      returns (finished: bool, roots: seq<Point>, maxRootId: int, ghost cells: map<(int, int), Run>)
      modifies bitmap
      ensures finished ==>
                forall x, y :: InBitmap(bitmap.Length0, bitmap.Length1, x, y)
                  ==> (x, y) in cells
                      && RenderedFrom(Newton(polynomial.coefficients, derivedPolynomial.coefficients, DivergenceThreshold),
                                      PixelStart(x, y), fuel, roots, bitmap[x, y], cells[(x, y)])
      ensures finished ==> forall x, y :: InBitmap(bitmap.Length0, bitmap.Length1, x, y)
                             ==> IsRenderColor(bitmap[x, y])
      ensures finished ==> |roots| <= bitmap.Length0 * bitmap.Length1
      ensures maxRootId == |roots|
    {
      roots, maxRootId, cells := [], 0, map[];
      ghost var m := Newton(polynomial.coefficients, derivedPolynomial.coefficients, DivergenceThreshold);
      var width, height := bitmap.Length0, bitmap.Length1;
      var i := 0;
      while i < height
        invariant 0 <= i <= height
        invariant |roots| <= i * width
        invariant maxRootId == |roots|
        invariant RenderedBefore(m, fuel, roots, cells, 0, i)
      {
        var j := 0;
        while j < width
          invariant 0 <= j <= width
          invariant |roots| <= i * width + j
          invariant maxRootId == |roots|
          invariant RenderedBefore(m, fuel, roots, cells, j, i)
        {
          var currentComplexNumber := CalculateWorldCoordinates(i, j);
          currentComplexNumber := AdjustZeroComplex(currentComplexNumber);
          var outcome := NewtonIteration(polynomial, derivedPolynomial, Finite(currentComplexNumber), fuel);
          if outcome.OutOfFuel? {
            return false, roots, maxRootId, cells;
          }
          ghost var oldRoots := roots;
          var rootId;
          roots, rootId, maxRootId := GetRootId(roots, outcome.point, maxRootId);
          ColorizePixel(i, j, rootId, outcome.iterations);
          cells := RecordPixel(m, fuel, oldRoots, roots, cells, j, i, Run(outcome.point, outcome.iterations, rootId));
          j := j + 1;
        }
        assert i * width + width == (i + 1) * width;
        i := i + 1;
      }
      finished := true;
      forall x, y | InBitmap(width, height, x, y)
        ensures IsRenderColor(bitmap[x, y])
      {
        assert RowMajorBefore(x, y, 0, height);
        RenderedIsRenderColor(m, PixelStart(x, y), fuel, roots, bitmap[x, y], cells[(x, y)]);
      }
    }

    /**
     * Records the run of pixel `(j, i)` once its cell is written: the cells
     * before it still hold against the grown root list, and so does its own.
     */
    ghost method RecordPixel(m: Newton, fuel: nat, roots: seq<Point>, newRoots: seq<Point>,
                             cells: map<(int, int), Run>, j: int, i: int, run: Run)
      returns (newCells: map<(int, int), Run>)
      requires InBitmap(bitmap.Length0, bitmap.Length1, j, i)
      requires RenderedBefore(m, fuel, roots, cells, j, i)
      requires |roots| <= |newRoots| && newRoots[..|roots|] == roots
      requires RenderedFrom(m, PixelStart(j, i), fuel, newRoots, bitmap[j, i], run)
      ensures newCells == cells[(j, i) := run]
      ensures RenderedBefore(m, fuel, newRoots, newCells, j + 1, i)
    {
      newCells := cells[(j, i) := run];
      var more := newRoots[|roots|..];
      assert roots + more == newRoots;
      forall x, y | InBitmap(bitmap.Length0, bitmap.Length1, x, y) && RowMajorBefore(x, y, j + 1, i)
        ensures (x, y) in newCells && RenderedFrom(m, PixelStart(x, y), fuel, newRoots, bitmap[x, y], newCells[(x, y)])
      {
        if (x, y) != (j, i) {
          assert RowMajorBefore(x, y, j, i);
          RenderedAsRootsGrow(m, PixelStart(x, y), fuel, roots, more, bitmap[x, y], cells[(x, y)]);
        }
      }
    }

    /** `GenerateFractal`: `x³ + 1` and its derivative, then `ProcessImage`. */
    method GenerateFractal(fuel: nat) returns (finished: bool, ghost roots: seq<Point>, ghost cells: map<(int, int), Run>)
      modifies bitmap
      ensures finished ==>
                forall x, y :: InBitmap(bitmap.Length0, bitmap.Length1, x, y)
                  ==> (x, y) in cells
                      && RenderedFrom(Newton([One, Zero, Zero, One], Derivative([One, Zero, Zero, One]), DivergenceThreshold),
                                      PixelStart(x, y), fuel, roots, bitmap[x, y], cells[(x, y)])
      ensures finished ==> forall x, y :: InBitmap(bitmap.Length0, bitmap.Length1, x, y)
                             ==> IsRenderColor(bitmap[x, y])
    {
      var polynomial := CreatePolynomial();
      var derivedPolynomial := polynomial.Derive();
      var rootList, maxRootId;
      finished, rootList, maxRootId, cells := ProcessImage(polynomial, derivedPolynomial, fuel);
      roots := rootList;
    }
  }

  /** The iteration of this renderer diverges exactly as `IsDiverging` says. */
  lemma IsDivergingAgrees(cs: seq<Complex>, ds: seq<Complex>, d: Complex)
    ensures NewtonSolver.IsDiverging(Newton(cs, ds, DivergenceThreshold), Finite(d)) <==> FractalGenerator.IsDiverging(d)
  {
  }

  /** `x³ + 1` derives to `3x²`, whose only zero is the origin. */
  lemma CreatedPolynomialDerivative()
    ensures Derivative([One, Zero, Zero, One]) == [Zero, Zero, Complex(3.0, 0.0)]
  {
    DerivativeOfCubic();
  }

  /**
   * With the constructor's steps, the world coordinates span the viewport:
   * pixel `(0, 0)` is at `(minX, minY)`, row `imageHeight` and column
   * `imageWidth` at `(maxX, maxY)`, neighbouring pixels are one step apart,
   * and every pixel of the image lies in the viewport.
   */
  lemma WorldCoordinatesSpanViewport(f: FractalGenerator, i: int, j: int)
    requires f.imageWidth > 0 && f.imageHeight > 0
    requires f.xStep == (f.maxX - f.minX) / f.imageWidth as real
    requires f.yStep == (f.maxY - f.minY) / f.imageHeight as real
    ensures f.CalculateWorldCoordinates(i, j)
         == Complex(GridPosition(f.minX, f.maxX, f.imageWidth, j), GridPosition(f.minY, f.maxY, f.imageHeight, i))
    ensures f.CalculateWorldCoordinates(0, 0) == Complex(f.minX, f.minY)
    ensures f.CalculateWorldCoordinates(f.imageHeight, f.imageWidth) == Complex(f.maxX, f.maxY)
    ensures f.CalculateWorldCoordinates(i, j + 1)
         == Complex(f.CalculateWorldCoordinates(i, j).re + f.xStep, f.CalculateWorldCoordinates(i, j).im)
    ensures f.CalculateWorldCoordinates(i + 1, j)
         == Complex(f.CalculateWorldCoordinates(i, j).re, f.CalculateWorldCoordinates(i, j).im + f.yStep)
    ensures f.minX <= f.maxX && 0 <= j <= f.imageWidth ==> f.minX <= f.CalculateWorldCoordinates(i, j).re <= f.maxX
    ensures f.minY <= f.maxY && 0 <= i <= f.imageHeight ==> f.minY <= f.CalculateWorldCoordinates(i, j).im <= f.maxY
  {
    GridSpansInterval(f.minX, f.maxX, f.imageWidth, j);
    GridSpansInterval(f.minY, f.maxY, f.imageHeight, i);
  }
}
