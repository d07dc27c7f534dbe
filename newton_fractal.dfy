/**
 * The renderer of NNPTPZ1/NewtonFractal.cs.  It iterates Newton's method for
 * `x³ + 1` (a `Polynome` over the RealPart/ImaginaryPart complex number)
 * from every pixel, numbers the root the pixel ends near, and colours the
 * pixel by that number, darkened by the iteration count.
 *
 * The bitmap is an `array2` indexed `[x, y]`, so `SetPixel(x, y, c)` is
 * `bitmap[x, y] := c`.  The render loop below runs its outer index below the
 * height, which the as-written loop does not (see `Pixels.TargetedAsWritten`),
 * and numbers a new root by its index, which the as-written search does not
 * (see `ClassifyRootAsWritten`).
 */
module NewtonFractals {

  import opened ComplexNumber
  import ConjugateComplex
  import opened PolynomialSpec
  import opened NewtonSolver
  import opened RootRegistry
  import opened Pixels
  import opened Polynomes

  /** `_maxNewtonIterations`, `_convergenceThreshold`, `_rootEqualityThreshold`. */
  const MaxNewtonIterations: nat := 30
  const ConvergenceThreshold: real := 0.5
  const RootEqualityThreshold: real := 0.01

  class NewtonFractal {

    const minX: real
    const maxX: real
    const minY: real
    const maxY: real
    const stepX: real
    const stepY: real

    /** `_newtonFractalBitmap`: `Length0` is the width, `Length1` the height. */
    const bitmap: array2<Color>

    /** A positive size is what the `Bitmap` constructor demands. */
    constructor (bitmapWidth: nat, bitmapHeight: nat, minX: real, maxX: real, minY: real, maxY: real)
      requires bitmapWidth > 0 && bitmapHeight > 0
      ensures this.minX == minX && this.maxX == maxX && this.minY == minY && this.maxY == maxY
      ensures stepX == (maxX - minX) / bitmapWidth as real
      ensures stepY == (maxY - minY) / bitmapHeight as real
      ensures fresh(bitmap) && bitmap.Length0 == bitmapWidth && bitmap.Length1 == bitmapHeight
    {
      this.minX := minX;
      this.maxX := maxX;
      this.minY := minY;
      this.maxY := maxY;
      stepX := (maxX - minX) / bitmapWidth as real;
      stepY := (maxY - minY) / bitmapHeight as real;
      bitmap := new Color[bitmapWidth, bitmapHeight]((x, y) => Color(0, 0, 0));
    }

    /** The world coordinates of the pixel in row `i`, column `j`. */
    function PixelCoordinates(i: int, j: int): Complex
    {
      Complex(minX + j as real * stepX, minY + i as real * stepY)
    }

    /** `x³ + 1`, as the coefficients `[1, 0, 0, 1]`. */
    static method GetInitialPolynome() returns (initialPolynome: Polynome)
      ensures fresh(initialPolynome)
      ensures initialPolynome.coefficients == [One, Zero, Zero, One]
    {
      initialPolynome := new Polynome();
      initialPolynome.coefficients := initialPolynome.coefficients + [Complex(1.0, 0.0)];
      initialPolynome.coefficients := initialPolynome.coefficients + [Zero];
      initialPolynome.coefficients := initialPolynome.coefficients + [Zero];
      initialPolynome.coefficients := initialPolynome.coefficients + [Complex(1.0, 0.0)];
    }

    /** Each component that is exactly zero becomes the minimum coordinate. */
    static function CorrectPossibleZeroCoordinates(c: Complex): (r: Complex)
      ensures NoZeroComponent(r.re, r.im)
      ensures c.re != 0.0 ==> r.re == c.re
      ensures c.im != 0.0 ==> r.im == c.im
      ensures c.re == 0.0 ==> r.re == MinimumCoordinate
      ensures c.im == 0.0 ==> r.im == MinimumCoordinate
    {
      Complex(if c.re == 0.0 then MinimumCoordinate else c.re,
              if c.im == 0.0 then MinimumCoordinate else c.im)
    }

    /**
     * Newton's iteration from `complexCoordinates`, with the loop counter
     * decremented on each pass whose quotient has squared magnitude at least
     * 0.5.  The source loop need not terminate; here it makes at most `fuel`
     * passes.
     */
    static method NewtonIteration(polynome: Polynome, polynomeDerived: Polynome,
                                  complexCoordinates: Point, fuel: nat) returns (outcome: Outcome)
      ensures IsOutcome(Newton(polynome.coefficients, polynomeDerived.coefficients, ConvergenceThreshold),
                        complexCoordinates, fuel, outcome)
    {
      ghost var m := Newton(polynome.coefficients, polynomeDerived.coefficients, ConvergenceThreshold);
      var z := complexCoordinates;
      var iterationCount := 0;
      var k := 0;
      while k < MaxNewtonIterations && iterationCount < fuel
        invariant 0 <= k <= MaxNewtonIterations
        invariant iterationCount <= fuel
        invariant z == Iterate(m, complexCoordinates, iterationCount)
        invariant k == Settled(m, complexCoordinates, iterationCount)
        invariant forall t :: 0 <= t < iterationCount ==> Settled(m, complexCoordinates, t) < MaxIterations
        decreases fuel - iterationCount
      {
        var difference := Difference(polynome, polynomeDerived, z);
        var diverging;
        PassStep(m, complexCoordinates, iterationCount);
        z, diverging := Pass(polynome, polynomeDerived, z, difference);
        if diverging {
          k := k - 1;
        }
        iterationCount := iterationCount + 1;
        k := k + 1;
      }
      if k == MaxNewtonIterations {
        outcome := Solved(z, iterationCount);
      } else {
        outcome := OutOfFuel;
      }
    }

    /**
     * One pass of the loop body: the quotient, the next point `z − quotient`,
     * and whether the quotient's squared magnitude reaches the threshold.
     */
    static method Pass(polynome: Polynome, polynomeDerived: Polynome, z: Point, difference: Point)
      returns (next: Point, diverging: bool)
      ensures next == Update(z, difference)
      ensures diverging == IsDiverging(Newton(polynome.coefficients, polynomeDerived.coefficients, ConvergenceThreshold), difference)
    {
      if z.Finite? && difference.Finite? {
        ConjugateComplex.ArithmeticAgrees(z.value, difference.value);
        next := Finite(ConjugateComplex.Subtract(z.value, difference.value));
      } else {
        next := NotANumber;
      }
      diverging := false;
      if difference.Finite? {
        var exponentialDifference := difference.value.re * difference.value.re
                                     + difference.value.im * difference.value.im;
        diverging := exponentialDifference >= ConvergenceThreshold;
      }
    }

    /**
     * `polynome.Evaluate(z).Divide(polynomeDerived.Evaluate(z))`, which is NaN
     * exactly when `z` is NaN or the derivative there is zero.
     */
    static method Difference(polynome: Polynome, polynomeDerived: Polynome, z: Point) returns (difference: Point)
      ensures difference == Quotient(Newton(polynome.coefficients, polynomeDerived.coefficients, ConvergenceThreshold), z)
    {
      difference := NotANumber;
      if z.Finite? {
        var value := polynome.Evaluate(z.value);
        var slope := polynomeDerived.Evaluate(z.value);
        difference := DivideConjugate(value, slope);
      }
    }

    /** The conjugate-based `Divide`, NaN when the divisor is exactly zero. */
    static method DivideConjugate(value: Complex, slope: Complex) returns (quotient: Point)
      ensures quotient == DivideOrNotANumber(value, slope)
    {
      quotient := NotANumber;
      if slope.re * slope.re + slope.im * slope.im != 0.0 {
        var q := ConjugateComplex.Divide(value, slope);
        ConjugateComplex.DivideAgrees(value, slope);
        quotient := Finite(q);
      }
    }

    /**
     * The inline root search of `GenerateNewtonFractal` as written: the last
     * known root within the threshold, else the point is appended and the
     * number reported is `roots.Count` after the append.
     */
    static method ClassifyRootAsWritten(roots: seq<Point>, complexCoordinates: Point)
      returns (newRoots: seq<Point>, solutionRootNumber: int)
      ensures Lookup(newRoots, solutionRootNumber) == LastMatchOrAddAsWritten(roots, complexCoordinates)
    {
      var solutionFound;
      solutionFound, solutionRootNumber := SearchLast(roots, complexCoordinates);
      newRoots := roots;
      if !solutionFound {
        newRoots := newRoots + [complexCoordinates];
        solutionRootNumber := |newRoots|;
      }
    }

    /** The root search with a new root numbered by its index. */
    static method ClassifyRoot(roots: seq<Point>, complexCoordinates: Point)
      returns (newRoots: seq<Point>, solutionRootNumber: int)
      ensures Lookup(newRoots, solutionRootNumber) == LastMatchOrAdd(roots, complexCoordinates)
    {
      var solutionFound;
      solutionFound, solutionRootNumber := SearchLast(roots, complexCoordinates);
      newRoots := roots;
      if !solutionFound {
        newRoots := newRoots + [complexCoordinates];
        solutionRootNumber := |newRoots| - 1;
      }
    }

    /** The `for k` loop over the known roots: every match overwrites the number found so far. */
    static method SearchLast(roots: seq<Point>, complexCoordinates: Point)
      returns (solutionFound: bool, solutionRootNumber: int)
      ensures solutionFound <==> LastMatch(roots, complexCoordinates).Some?
      ensures solutionFound ==> solutionRootNumber == LastMatch(roots, complexCoordinates).value
    {
      solutionFound := false;
      solutionRootNumber := 0;
      var k := 0;
      while k < |roots|
        invariant 0 <= k <= |roots|
        invariant solutionFound <==> LastMatch(roots[..k], complexCoordinates).Some?
        invariant solutionFound ==> solutionRootNumber == LastMatch(roots[..k], complexCoordinates).value
      {
        assert roots[..k + 1][..k] == roots[..k];
        if complexCoordinates.Finite? && roots[k].Finite?
           && SquaredDistance(complexCoordinates.value, roots[k].value) <= RootEqualityThreshold
        {
          solutionFound := true;
          solutionRootNumber := k;
        }
        k := k + 1;
      }
      assert roots[..k] == roots;
    }

    /** The start point of pixel `(x, y)`: its world coordinates with zero components replaced. */
    function PixelStart(x: int, y: int): Point
    {
      Finite(CorrectPossibleZeroCoordinates(PixelCoordinates(y, x)))
    }

    /**
     * Every cell before `(j, i)` in row-major order records the run from its
     * own pixel, against the root list `roots`.
     */
    ghost predicate RenderedBefore(m: Newton, fuel: nat, roots: seq<Point>, cells: map<(int, int), Run>, j: int, i: int)
      reads bitmap
    {
      forall x, y :: InBitmap(bitmap.Length0, bitmap.Length1, x, y) && RowMajorBefore(x, y, j, i)
        ==> (x, y) in cells && RenderedFrom(m, PixelStart(x, y), fuel, roots, bitmap[x, y], cells[(x, y)])
    }

    /**
     * One pixel of the render: its start point, Newton's iteration, the root
     * number and the darkened colour written to cell `(j, i)`.  If the bound
     * on passes runs out, nothing is written.  The ghost `cells` records the
     * runs of the pixels rendered so far; with this pixel's run added, they
     * all still hold against the new root list.
     */
    method ProcessPixel(i: int, j: int, roots: seq<Point>, polynome: Polynome, polynomeDerived: Polynome, fuel: nat,
                        ghost cells: map<(int, int), Run>)
      returns (outcome: Outcome, newRoots: seq<Point>, solutionRootNumber: int, ghost newCells: map<(int, int), Run>)
      requires InBitmap(bitmap.Length0, bitmap.Length1, j, i)
      requires RenderedBefore(Newton(polynome.coefficients, polynomeDerived.coefficients, ConvergenceThreshold),
                              fuel, roots, cells, j, i)
      modifies bitmap
      ensures IsOutcome(Newton(polynome.coefficients, polynomeDerived.coefficients, ConvergenceThreshold),
                        PixelStart(j, i), fuel, outcome)
      ensures outcome.OutOfFuel? ==> newRoots == roots && bitmap[j, i] == old(bitmap[j, i])
      ensures outcome.Solved? ==>
        && Lookup(newRoots, solutionRootNumber) == LastMatchOrAdd(roots, outcome.point)
        && 0 <= solutionRootNumber
        && bitmap[j, i] == Shade(PaletteColor(solutionRootNumber), outcome.iterations)
        && IsRenderColor(bitmap[j, i])
        && newCells == cells[(j, i) := Run(outcome.point, outcome.iterations, solutionRootNumber)]
        && RenderedBefore(Newton(polynome.coefficients, polynomeDerived.coefficients, ConvergenceThreshold),
                          fuel, newRoots, newCells, j + 1, i)
      ensures |newRoots| <= |roots| + 1
      ensures forall x, y :: InBitmap(bitmap.Length0, bitmap.Length1, x, y) && (x, y) != (j, i)
                ==> bitmap[x, y] == old(bitmap[x, y])
    {
      ghost var m := Newton(polynome.coefficients, polynomeDerived.coefficients, ConvergenceThreshold);
      var complexCoordinates := CorrectPossibleZeroCoordinates(PixelCoordinates(i, j));
      outcome := NewtonIteration(polynome, polynomeDerived, Finite(complexCoordinates), fuel);
      newRoots, solutionRootNumber, newCells := roots, 0, cells;
      if outcome.Solved? {
        newRoots, solutionRootNumber := ClassifyRoot(roots, outcome.point);
        var pixelColor := PaletteColor(solutionRootNumber);
        pixelColor := Color(Darken(pixelColor.r, outcome.iterations),
                            Darken(pixelColor.g, outcome.iterations),
                            Darken(pixelColor.b, outcome.iterations));
        bitmap[j, i] := pixelColor;
        newCells := cells[(j, i) := Run(outcome.point, outcome.iterations, solutionRootNumber)];
        RenderedIsRenderColor(m, PixelStart(j, i), fuel, newRoots, bitmap[j, i], newCells[(j, i)]);
        var more := newRoots[|roots|..];
        assert roots + more == newRoots;
        forall x, y | InBitmap(bitmap.Length0, bitmap.Length1, x, y) && RowMajorBefore(x, y, j + 1, i)
          ensures (x, y) in newCells && RenderedFrom(m, PixelStart(x, y), fuel, newRoots, bitmap[x, y], newCells[(x, y)])
        {
          if (x, y) != (j, i) {
            assert RowMajorBefore(x, y, j, i);
            RenderedAsRootsGrow(m, PixelStart(x, y), fuel, roots, more, old(bitmap[x, y]), cells[(x, y)]);
          }
        }
      }
    }

    /**
     * `GenerateNewtonFractal`: the polynomial `x³ + 1` and its derivative, then
     * every pixel with one root list for the whole image (`TraverseBitmap`).
     */
    method GenerateNewtonFractal(fuel: nat) returns (finished: bool, roots: seq<Point>, ghost cells: map<(int, int), Run>)
      modifies bitmap
      ensures finished ==>
                forall x, y :: InBitmap(bitmap.Length0, bitmap.Length1, x, y)
                  ==> (x, y) in cells
                      && RenderedFrom(Newton([One, Zero, Zero, One], Derivative([One, Zero, Zero, One]), ConvergenceThreshold),
                                      PixelStart(x, y), fuel, roots, bitmap[x, y], cells[(x, y)])
      ensures finished ==> forall x, y :: InBitmap(bitmap.Length0, bitmap.Length1, x, y)
                             ==> IsRenderColor(bitmap[x, y])
      ensures finished ==> |roots| <= bitmap.Length0 * bitmap.Length1
    {
      var polynome := GetInitialPolynome();
      var polynomeDerived := polynome.Derive();
      finished, roots, cells := TraverseBitmap(polynome, polynomeDerived, fuel);
    }

    /**
     * The pixel loops of `GenerateNewtonFractal`, in row-major order, starting
     * from an empty root list.  When they finish, every cell records the run
     * from its own pixel: the colour of the root number that run ends at,
     * darkened by its pass count.  At most one root was added per pixel.
     */
    method TraverseBitmap(polynome: Polynome, polynomeDerived: Polynome, fuel: nat)
      returns (finished: bool, roots: seq<Point>, ghost cells: map<(int, int), Run>)
      modifies bitmap
      ensures finished ==>
                forall x, y :: InBitmap(bitmap.Length0, bitmap.Length1, x, y)
                  ==> (x, y) in cells
                      && RenderedFrom(Newton(polynome.coefficients, polynomeDerived.coefficients, ConvergenceThreshold),
                                      PixelStart(x, y), fuel, roots, bitmap[x, y], cells[(x, y)])
      ensures finished ==> forall x, y :: InBitmap(bitmap.Length0, bitmap.Length1, x, y)
                             ==> IsRenderColor(bitmap[x, y])
      ensures finished ==> |roots| <= bitmap.Length0 * bitmap.Length1
    {
      ghost var m := Newton(polynome.coefficients, polynomeDerived.coefficients, ConvergenceThreshold);
      roots, cells := [], map[];
      var width, height := bitmap.Length0, bitmap.Length1;
      var i := 0;
      while i < height
        invariant 0 <= i <= height
        invariant |roots| <= i * width
        invariant RenderedBefore(m, fuel, roots, cells, 0, i)
      {
        var j := 0;
        while j < width
          invariant 0 <= j <= width
          invariant |roots| <= i * width + j
          invariant RenderedBefore(m, fuel, roots, cells, j, i)
        {
          var outcome, solutionRootNumber;
          outcome, roots, solutionRootNumber, cells := ProcessPixel(i, j, roots, polynome, polynomeDerived, fuel, cells);
          if outcome.OutOfFuel? {
            return false, roots, cells;
          }
          j := j + 1;
        }
        assert i * width + width == (i + 1) * width;
        i := i + 1;
      }
      finished := true;
      forall x, y | InBitmap(width, height, x, y)
        ensures IsRenderColor(bitmap[x, y])
      {
        assert RowMajorBefore(x, y, 0, height);
        RenderedIsRenderColor(m, PixelStart(x, y), fuel, roots, bitmap[x, y], cells[(x, y)]);
      }
    }
  }

  /**
   * With the constructor's steps, the pixel grid spans the viewport: row 0
   * and column 0 are at `(minX, minY)`, row `height` and column `width` at
   * `(maxX, maxY)`, the next column is one `stepX` to the right and the
   * next row one `stepY` up, and every pixel of the bitmap lies in the
   * viewport.
   */
  lemma PixelCoordinatesSpanViewport(f: NewtonFractal, i: int, j: int)
    requires f.bitmap.Length0 > 0 && f.bitmap.Length1 > 0
    requires f.stepX == (f.maxX - f.minX) / f.bitmap.Length0 as real
    requires f.stepY == (f.maxY - f.minY) / f.bitmap.Length1 as real
    ensures f.PixelCoordinates(i, j)
         == Complex(GridPosition(f.minX, f.maxX, f.bitmap.Length0, j), GridPosition(f.minY, f.maxY, f.bitmap.Length1, i))
    ensures f.PixelCoordinates(0, 0) == Complex(f.minX, f.minY)
    ensures f.PixelCoordinates(f.bitmap.Length1, f.bitmap.Length0) == Complex(f.maxX, f.maxY)
    ensures f.PixelCoordinates(i, j + 1) == Complex(f.PixelCoordinates(i, j).re + f.stepX, f.PixelCoordinates(i, j).im)
    ensures f.PixelCoordinates(i + 1, j) == Complex(f.PixelCoordinates(i, j).re, f.PixelCoordinates(i, j).im + f.stepY)
    ensures f.minX <= f.maxX && 0 <= j <= f.bitmap.Length0 ==> f.minX <= f.PixelCoordinates(i, j).re <= f.maxX
    ensures f.minY <= f.maxY && 0 <= i <= f.bitmap.Length1 ==> f.minY <= f.PixelCoordinates(i, j).im <= f.maxY
  {
    GridSpansInterval(f.minX, f.maxX, f.bitmap.Length0, j);
    GridSpansInterval(f.minY, f.maxY, f.bitmap.Length1, i);
  }
}
