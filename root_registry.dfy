/**
 * The list of roots found so far, shared by the pixels of one render.  A
 * pixel's final point is compared with every known root by squared
 * distance; the renderers differ in which match they keep and in the number
 * they report when they have to append a new root.
 */
module RootRegistry {

  import opened ComplexNumber
  import opened Wrappers
  import opened NewtonSolver

  /** Two points are the same root when their squared distance is at most this. */
  const RootTolerance: real := 0.01

  /** `Math.Pow(re difference, 2) + Math.Pow(im difference, 2)`. */
  function SquaredDistance(a: Complex, b: Complex): real
  {
    (a.re - b.re) * (a.re - b.re) + (a.im - b.im) * (a.im - b.im)
  }

  /**
   * The comparison `distance² <= 0.01`.  It is false whenever either side is
   * NaN, because every comparison with NaN is.
   */
  predicate IsNear(p: Point, r: Point)
  {
    p.Finite? && r.Finite? && SquaredDistance(p.value, r.value) <= RootTolerance
  }

  /** The first index of a root near `p`, if there is one. */
  function FirstMatch(roots: seq<Point>, p: Point): (r: Option<nat>)
    ensures r.Some? ==> r.value < |roots| && IsNear(p, roots[r.value])
                        && forall k :: 0 <= k < r.value ==> !IsNear(p, roots[k])
    ensures r.None? ==> forall k :: 0 <= k < |roots| ==> !IsNear(p, roots[k])
  {
    if |roots| == 0 then None
    else if IsNear(p, roots[0]) then Some(0)
    else match FirstMatch(roots[1..], p)
      case None => None
      case Some(k) => Some(k + 1)
  }

  /** The last index of a root near `p`, if there is one. */
  function LastMatch(roots: seq<Point>, p: Point): (r: Option<nat>)
    ensures r.Some? ==> r.value < |roots| && IsNear(p, roots[r.value])
                        && forall k :: r.value < k < |roots| ==> !IsNear(p, roots[k])
    ensures r.None? ==> forall k :: 0 <= k < |roots| ==> !IsNear(p, roots[k])
  {
    if |roots| == 0 then None
    else if IsNear(p, roots[|roots| - 1]) then Some(|roots| - 1)
    else LastMatch(roots[..|roots| - 1], p)
  }

  /**
   * Root number `id` names the root `p` ended at: the root there is `p`
   * itself (a root just added) or near `p` (a root found).
   */
  predicate IsRootOf(roots: seq<Point>, id: int, p: Point)
  {
    0 <= id < |roots| && (roots[id] == p || IsNear(p, roots[id]))
  }

  /** The list after a lookup, and the number the lookup reports. */
  datatype Lookup = Lookup(roots: seq<Point>, id: int)

  /**
   * First match, else append and report the new element's index
   * (NNPTPZ1/Mathematics/NewtonFractal.cs).
   */
  function FindOrAdd(roots: seq<Point>, p: Point): (r: Lookup)
    ensures 0 <= r.id < |r.roots|
    ensures r.roots == roots || r.roots == roots + [p]
    ensures r.roots == roots <==> exists k :: 0 <= k < |roots| && IsNear(p, roots[k])
    ensures r.roots == roots ==> IsNear(p, roots[r.id]) && forall k :: 0 <= k < r.id ==> !IsNear(p, roots[k])
    ensures r.roots != roots ==> r.id == |roots|
    ensures IsRootOf(r.roots, r.id, p)
  {
    match FirstMatch(roots, p)
    case Some(k) => Lookup(roots, k)
    case None => Lookup(roots + [p], |roots|)
  }

  /**
   * Last match, else append and report the new element's index: what the
   * inline search of NNPTPZ1/NewtonFractal.cs and `GetRootId` of
   * NNPTPZ1/FractalGenerator.cs evidently intend.
   */
  function LastMatchOrAdd(roots: seq<Point>, p: Point): (r: Lookup)
    ensures 0 <= r.id < |r.roots|
    ensures r.roots == roots || r.roots == roots + [p]
    ensures r.roots == roots <==> exists k :: 0 <= k < |roots| && IsNear(p, roots[k])
    ensures r.roots == roots ==> IsNear(p, roots[r.id]) && forall k :: r.id < k < |roots| ==> !IsNear(p, roots[k])
    ensures r.roots != roots ==> r.id == |roots|
    ensures IsRootOf(r.roots, r.id, p)
  {
    match LastMatch(roots, p)
    case Some(k) => Lookup(roots, k)
    case None => Lookup(roots + [p], |roots|)
  }

  /**
   * Last match, else append and report `roots.Count` after the append, as
   * NNPTPZ1/NewtonFractal.cs and NNPTPZ1/FractalGenerator.cs are written:
   * one past the index of the root just added.
   */
  function LastMatchOrAddAsWritten(roots: seq<Point>, p: Point): (r: Lookup)
    ensures r.roots == roots || r.roots == roots + [p]
    ensures r.roots == roots <==> exists k :: 0 <= k < |roots| && IsNear(p, roots[k])
    ensures r.roots == roots ==> 0 <= r.id < |roots| && IsNear(p, roots[r.id])
    ensures r.roots != roots ==> r.id == |r.roots|
  {
    match LastMatch(roots, p)
    case Some(k) => Lookup(roots, k)
    case None => Lookup(roots + [p], |roots| + 1)
  }

  // ---------------------------------------------------------------------
  // Properties

  /** A number is near itself; NaN is near nothing. */
  lemma NearSelf(p: Point)
    ensures IsNear(p, p) <==> p.Finite?
    ensures forall r :: !IsNear(NotANumber, r) && !IsNear(r, NotANumber)
  {
  }

  /** Every NaN point is registered as a new root. */
  lemma NotANumberAlwaysAppended(roots: seq<Point>)
    ensures FindOrAdd(roots, NotANumber).roots == roots + [NotANumber]
    ensures LastMatchOrAdd(roots, NotANumber).roots == roots + [NotANumber]
  {
  }

  /** Looking up the same number again reports the same index and adds nothing. */
  lemma FindOrAddIdempotent(roots: seq<Point>, p: Point)
    requires p.Finite?
    ensures FindOrAdd(FindOrAdd(roots, p).roots, p) == FindOrAdd(roots, p)
  {
    var r := FindOrAdd(roots, p);
    if r.roots != roots {
      var again := FindOrAdd(r.roots, p);
      assert IsNear(p, r.roots[|roots|]);
      assert again.roots == r.roots;
      assert forall k :: 0 <= k < |roots| ==> r.roots[k] == roots[k];
      assert again.id == |roots| by {
        if again.id < |roots| {
          assert false;
        }
      }
    }
  }

  /** The same for the last-match lookup. */
  lemma LastMatchOrAddIdempotent(roots: seq<Point>, p: Point)
    requires p.Finite?
    ensures LastMatchOrAdd(LastMatchOrAdd(roots, p).roots, p) == LastMatchOrAdd(roots, p)
  {
    var r := LastMatchOrAdd(roots, p);
    if r.roots != roots {
      assert r.roots[|r.roots| - 1] == p;
    }
  }

  /**
   * As written, the number reported for a new root is not the number
   * reported for the same root afterwards: a first lookup of a number in an
   * empty list reports 1, the next one 0.
   */
  lemma AsWrittenNumbersNewRootTwice(c: Complex)
    ensures LastMatchOrAddAsWritten([], Finite(c)) == Lookup([Finite(c)], 1)
    ensures LastMatchOrAddAsWritten([Finite(c)], Finite(c)) == Lookup([Finite(c)], 0)
  {
    assert IsNear(Finite(c), Finite(c));
  }

  /** The two lookups differ only in the number reported for a new root. */
  lemma AsWrittenIsOneOff(roots: seq<Point>, p: Point)
    ensures LastMatchOrAddAsWritten(roots, p).roots == LastMatchOrAdd(roots, p).roots
    ensures LastMatchOrAddAsWritten(roots, p).id
         == LastMatchOrAdd(roots, p).id + (if LastMatchOrAdd(roots, p).roots == roots then 0 else 1)
  {
  }
}
