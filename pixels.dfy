/**
 * Per-pixel arithmetic shared by the three renderers: the nine-colour
 * palette, darkening a palette colour by the iteration count, replacing an
 * exactly-zero coordinate, and which bitmap cells the pixel loops address.
 */
module Pixels {

  import opened NewtonSolver
  import opened RootRegistry

  /** An opaque RGB colour, one integer per channel. */
  datatype Color = Color(r: int, g: int, b: int)

  /** The named colours, with the channel values System.Drawing gives them. */
  const Red: Color := Color(255, 0, 0)
  const Blue: Color := Color(0, 0, 255)
  const Green: Color := Color(0, 128, 0)
  const Yellow: Color := Color(255, 255, 0)
  const Orange: Color := Color(255, 165, 0)
  const Fuchsia: Color := Color(255, 0, 255)
  const Gold: Color := Color(255, 215, 0)
  const Cyan: Color := Color(0, 255, 255)
  const Magenta: Color := Color(255, 0, 255)

  /** The colours array every renderer indexes by root number modulo its length. */
  const Palette: seq<Color> := [Red, Blue, Green, Yellow, Orange, Fuchsia, Gold, Cyan, Magenta]

  predicate IsByte(v: int)
  {
    0 <= v <= 255
  }

  predicate IsOpaqueColor(c: Color)
  {
    IsByte(c.r) && IsByte(c.g) && IsByte(c.b)
  }

  /** The colour for a root number (C#'s `%` agrees with Dafny's on non-negative numbers). */
  function PaletteColor(id: nat): (c: Color)
    ensures c in Palette && IsOpaqueColor(c)
  {
    Palette[id % |Palette|]
  }

  /**
   * One channel darkened by the iteration count: `min(max(0, c − 2·n), 255)`.
   * The product `2·n` is exact here; the int32 product of the source
   * cannot overflow for the counts the loop produces in practice.
   */
  function Darken(channel: int, iterations: int): (v: int)
    ensures IsByte(v)
    ensures 0 <= channel && 0 <= iterations ==> v <= channel
    ensures 0 <= channel - 2 * iterations <= 255 ==> v == channel - 2 * iterations
  {
    var lowered := channel - iterations * 2;
    var atLeastZero := if lowered > 0 then lowered else 0;
    if atLeastZero < 255 then atLeastZero else 255
  }

  /** A palette colour darkened channel by channel. */
  function Shade(base: Color, iterations: int): (c: Color)
    ensures IsOpaqueColor(c)
  {
    Color(Darken(base.r, iterations), Darken(base.g, iterations), Darken(base.b, iterations))
  }

  /** More iterations never give a lighter channel. */
  lemma DarkenMonotone(channel: int, fewer: int, more: int)
    requires fewer <= more
    ensures Darken(channel, more) <= Darken(channel, fewer)
  {
  }

  /** A channel of at most 255 loses at least `2·n` once darkened by `n`, down to zero. */
  lemma DarkenedBy(channel: int, iterations: int)
    requires channel <= 255 && iterations >= 0
    ensures Darken(channel, iterations) <= if channel - 2 * iterations > 0 then channel - 2 * iterations else 0
  {
  }

  /** A colour a renderer can write: a palette colour darkened by a solved run's count. */
  ghost predicate IsRenderColor(c: Color)
  {
    exists k: nat, n: nat :: k < |Palette| && n >= MaxIterations && c == Shade(Palette[k], n)
  }

  /** Every rendered channel is at least 60 below full intensity. */
  lemma RenderColorIsDark(c: Color)
    requires IsRenderColor(c)
    ensures c.r <= 195 && c.g <= 195 && c.b <= 195
  {
    var k: nat, n: nat :| k < |Palette| && n >= MaxIterations && c == Shade(Palette[k], n);
    DarkenedBy(Palette[k].r, n);
    DarkenedBy(Palette[k].g, n);
    DarkenedBy(Palette[k].b, n);
  }

  /** What the run from one pixel produced: its final point, its pass count and its root number. */
  datatype Run = Run(point: Point, iterations: nat, rootId: nat)

  /**
   * A cell holding `color` records the run from start point `z0`: `run` is
   * the outcome of the Newton iteration from `z0`, its root number names a
   * root of `roots` that the final point is at or near, and `color` is that
   * number's palette colour darkened by the pass count.
   */
  ghost predicate RenderedFrom(m: Newton, z0: Point, fuel: nat, roots: seq<Point>, color: Color, run: Run)
  {
    && IsOutcome(m, z0, fuel, Solved(run.point, run.iterations))
    && IsRootOf(roots, run.rootId, run.point)
    && color == Shade(PaletteColor(run.rootId), run.iterations)
  }

  /** A rendered cell holds a render colour: its run made at least 30 passes. */
  lemma RenderedIsRenderColor(m: Newton, z0: Point, fuel: nat, roots: seq<Point>, color: Color, run: Run)
    requires RenderedFrom(m, z0, fuel, roots, color, run)
    ensures IsRenderColor(color)
  {
    SolvedCount(m, z0, fuel, run.point, run.iterations);
    assert color == Shade(Palette[run.rootId % |Palette|], run.iterations);
  }

  /** Roots added later do not change which root a rendered cell names. */
  lemma RenderedAsRootsGrow(m: Newton, z0: Point, fuel: nat, roots: seq<Point>, more: seq<Point>, color: Color, run: Run)
    requires RenderedFrom(m, z0, fuel, roots, color, run)
    ensures RenderedFrom(m, z0, fuel, roots + more, color, run)
  {
    assert (roots + more)[run.rootId] == roots[run.rootId];
  }

  /** The replacement for a coordinate component that is exactly zero. */
  const MinimumCoordinate: real := 0.0001

  /** Whether a point's components are both nonzero, as the zero-avoidance steps guarantee. */
  predicate NoZeroComponent(re: real, im: real)
  {
    re != 0.0 && im != 0.0
  }

  /**
   * The position of index `k` on a grid of `count` steps from `origin` to
   * `extent`, as all three renderers compute a pixel's coordinate.
   */
  function GridPosition(origin: real, extent: real, count: int, k: int): real
    requires count > 0
  {
    origin + k as real * ((extent - origin) / count as real)
  }

  /**
   * The grid starts at `origin`, reaches `extent` after `count` steps, moves
   * by one step per index, and keeps every index from 0 to `count` between
   * the two ends.
   */
  lemma GridSpansInterval(origin: real, extent: real, count: int, k: int)
    requires count > 0
    ensures GridPosition(origin, extent, count, 0) == origin
    ensures GridPosition(origin, extent, count, count) == extent
    ensures GridPosition(origin, extent, count, k + 1)
         == GridPosition(origin, extent, count, k) + (extent - origin) / count as real
    ensures origin <= extent && 0 <= k <= count ==>
              origin <= GridPosition(origin, extent, count, k) <= extent
  {
    var step := (extent - origin) / count as real;
    assert count as real * step == extent - origin;
    assert (k + 1) as real * step == k as real * step + step;
    if origin <= extent && 0 <= k <= count {
      assert step >= 0.0;
      assert 0.0 <= k as real * step;
      assert k as real * step <= count as real * step by {
        assert (count - k) as real * step >= 0.0;
        assert (count - k) as real * step == count as real * step - k as real * step;
      }
    }
  }

  /** Cell `(x, y)` comes before cell `(j, i)` when row `i` is visited after row `y`, column by column. */
  predicate RowMajorBefore(x: int, y: int, j: int, i: int)
  {
    y < i || (y == i && x < j)
  }

  /** Cell `(u, v)` comes before cell `(x, y)` when column `x` is visited after column `u`, row by row. */
  predicate ColumnMajorBefore(u: int, v: int, x: int, y: int)
  {
    u < x || (u == x && v < y)
  }

  /** Cell `(x, y)` exists in a bitmap of the given size. */
  predicate InBitmap(width: int, height: int, x: int, y: int)
  {
    0 <= x < width && 0 <= y < height
  }

  /**
   * The cells the pixel loops of NNPTPZ1/NewtonFractal.cs and
   * NNPTPZ1/FractalGenerator.cs pass to `SetPixel(j, i)`: the outer index
   * `i` runs below the width and the inner `j` below the height.
   */
  predicate TargetedAsWritten(width: int, height: int, x: int, y: int)
  {
    0 <= x < height && 0 <= y < width
  }

  /** The `SetPixel` targets of the as-written loops, in the order they are visited. */
  method SetPixelTargetsAsWritten(width: nat, height: nat) returns (targets: seq<(int, int)>)
    ensures |targets| == width * height
    ensures forall x, y :: (x, y) in targets <==> TargetedAsWritten(width, height, x, y)
  {
    targets := [];
    var i := 0;
    while i < width
      invariant 0 <= i <= width
      invariant |targets| == i * height
      invariant forall x, y :: (x, y) in targets <==> 0 <= x < height && 0 <= y < i
    {
      var j := 0;
      while j < height
        invariant 0 <= j <= height
        invariant |targets| == i * height + j
        invariant forall x, y :: (x, y) in targets <==> (0 <= x < height && 0 <= y < i) || (0 <= x < j && y == i)
      {
        targets := targets + [(j, i)];
        j := j + 1;
      }
      i := i + 1;
    }
  }

  /**
   * The as-written loops address only cells of the bitmap exactly when the
   * bitmap is square (or empty); a 2×1 bitmap gets a write to cell (0, 1).
   */
  lemma TargetsInsideOnlyWhenSquare(width: nat, height: nat)
    ensures (forall x, y :: TargetedAsWritten(width, height, x, y) ==> InBitmap(width, height, x, y))
        <==> width == height || width == 0 || height == 0
    ensures TargetedAsWritten(2, 1, 0, 1) && !InBitmap(2, 1, 0, 1)
  {
    if width > height > 0 {
      assert TargetedAsWritten(width, height, 0, height);
    } else if height > width > 0 {
      assert TargetedAsWritten(width, height, width, 0);
    }
  }
}
