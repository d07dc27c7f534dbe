# Newton fractal core, modelled in Dafny

This project models the arithmetic and bookkeeping of a C# Newton-fractal renderer (namespace `NNPTPZ1`).

The renderer treats every pixel of a bitmap as a complex starting point. From there it iterates Newton's method for `x³ + 1`. It numbers the root the point ends near in a growing list of known roots. It then colours the pixel from a nine-colour palette, darkened by the number of iterations.

The repository holds several overlapping copies of each piece:
- two complex-number classes;
- four polynomial classes;
- three renderers.

The copies differ in small ways, so each copy is modelled on its own. They share one set of specification functions.

| module (file) | models |
|---|---|
| `ComplexNumber` (complex_number.dfy) | NNPTPZ1/ComplexNumber.cs: `Real`/`Imaginary`, division by the direct formula |
| `ConjugateComplex` (conjugate_complex.dfy) | NNPTPZ1/Mathematics/ComplexNumber.cs: `RealPart`/`ImaginaryPart`, division through the conjugate |
| `PolynomialSpec` (polynomial_spec.dfy) | the value-level meaning shared by all four polynomial classes: `Eval` (Σ cᵢ·xⁱ), `Derivative`, `Text` |
| `Polynomials` (polynomial.dfy) | NNPTPZ1/Polynomial.cs |
| `Polynomes` (polynome.dfy) | NNPTPZ1/Polynome.cs |
| `MathPolynomials` (math_polynomial.dfy) | NNPTPZ1/Mathematics/Polynomial.cs |
| `Polys` (poly.dfy) | NNPTPZ1/Poly.cs |
| `NewtonSolver` (newton_solver.dfy) | the retry-counting Newton loop that all three renderers share, as functions of the pass number |
| `RootRegistry` (root_registry.dfy) | the list of known roots: first-match and last-match lookups |
| `Pixels` (pixels.dfy) | palette, channel darkening, zero avoidance, and the bitmap cells the pixel loops address |
| `NewtonFractals` (newton_fractal.dfy) | NNPTPZ1/NewtonFractal.cs |
| `FractalGenerators` (fractal_generator.dfy) | NNPTPZ1/FractalGenerator.cs |
| `MathNewtonFractals` (math_newton_fractal.dfy) | NNPTPZ1/Mathematics/NewtonFractal.cs |

Modelling decisions:
- **Numbers.** Doubles are `real`.
- **Complex numbers.** A complex number is an immutable `datatype` value. Every operation therefore builds a new value and leaves its operands alone.
- **Polynomial classes.** Each polynomial class is a Dafny `class` with a `seq<Complex>` field. `Derive`, `Evaluate` and `ToString` are loops proved equal to `Derivative`, `Eval` and `Text`. The append operations state the new contents.
- **Number formatting.** Number-to-text formatting is an abstract function parameter `fmt`.
- **Bitmap.** The bitmap is an `array2<Color>` indexed `[x, y]`.
- **Newton loop.** The Newton loop takes a fuel bound and returns an `Outcome`: the final point and the pass count, or "out of fuel". The loop's `ensures` ties that outcome to `NewtonSolver.IsOutcome`. This predicate says it is the first pass count at which 30 passes did not diverge.
- **NaN.** The model keeps one IEEE effect because it changes control flow. Dividing by a derivative that is exactly zero yields NaN (`NewtonSolver.NotANumber`), and a NaN point stays NaN. A NaN quotient never diverges and a NaN root matches nothing, because every comparison with NaN is false.

Where the copies do not line up with each other:
- **Unlisted `Polynomial` class.** `FractalGenerator` uses a `Polynomial` with a public `Coefficients` list and an `Eval` method. No file in the repository has exactly that. It is modelled with the class of NNPTPZ1/Polynomial.cs.
- **Mixed component names.** `Mathematics/NewtonFractal.cs` uses the `Real`/`Imaginary` complex number. Its `Polynomial` is the class of `Mathematics/Polynomial.cs`, which is written over `RealPart`/`ImaginaryPart`. The files do not compile together as given. Both variants compute the same values (`ConjugateComplex.ArithmeticAgrees`, `ConjugateComplex.DivideAgrees`), so the model uses them interchangeably.
- **Polynome test.** The test at NNPTPZ1Tests/ComplexNumberTests.cs:165-177 expects `Polynome.ToString` to write `x^1` and `x^2`. The code writes repeated `x` (`xx`). The model follows the code.

## Model

| member | source | states |
|---|---|---|
| ComplexNumber.ToString | NNPTPZ1/ComplexNumber.cs:50-53 | the text is `(`, both components, ` + ` and `i)`: its length is the two component texts plus 6, it starts with `(` and ends with `i)` |
| ComplexNumber.ToStringLayout | NNPTPZ1/ComplexNumber.cs:50-53 | the text is `(`, then the real part's text, then ` + `, then the imaginary part's text, then `i)`, each at its stated position |
| ComplexNumber.EqualsIff | NNPTPZ1/ComplexNumber.cs:8-15 | `Equals` holds exactly when the argument is a complex number with both components equal; it is false for any other object |
| ComplexNumber.AddExamples | NNPTPZ1/ComplexNumber.cs:32-39 | (10,20)+(1,2) = (11,22) and (1,−1)+(0,0) = (1,−1), as the tests expect |
| ComplexNumber.AddZero | NNPTPZ1/ComplexNumber.cs:17-21 | `Zero` is a two-sided identity of `Add` |
| ComplexNumber.AddCommutative | NNPTPZ1/ComplexNumber.cs:32-39 | addition is commutative |
| ComplexNumber.SubtractAdd | NNPTPZ1/ComplexNumber.cs:32-48 | `Subtract(Add(a, b), b) = a` |
| ComplexNumber.MultiplyExample | NNPTPZ1/ComplexNumber.cs:23-30 | (2,3)·(1,4) = (−10,11) |
| ComplexNumber.DivideExample | NNPTPZ1/ComplexNumber.cs:55-64 | (10,20)/(1,2) = (10,0) |
| ComplexNumber.NormPositive | NNPTPZ1/ComplexNumber.cs:57 | every divisor other than `Zero` has a positive denominator `re² + im²` |
| ComplexNumber.MultiplyDivide | NNPTPZ1/ComplexNumber.cs:55-64 | for a nonzero divisor b, `Multiply(Divide(a, b), b) = a`: division inverts multiplication |
| ComplexNumber.ToStringExamples | NNPTPZ1Tests/CplxTests.cs:31-54 | "(10 + 20i)", "(1 + -1i)" and "(0 + 0i)" for the tested values |
| ConjugateComplex.ToString | NNPTPZ1/Mathematics/ComplexNumber.cs:79-82 | the length is the two component texts plus 6, the text starts with `(` and ends with `i)` |
| ConjugateComplex.ToStringLayout | NNPTPZ1/Mathematics/ComplexNumber.cs:79-82 | `(`, the real part's text, ` + `, the imaginary part's text and `i)`, each at its stated position |
| ConjugateComplex.ToStringAgrees | NNPTPZ1/Mathematics/ComplexNumber.cs:79-82 | both variants write the same text for the same number |
| ConjugateComplex.DivideAgrees | NNPTPZ1/Mathematics/ComplexNumber.cs:57-67 | division as multiplication by the conjugate, divided by `re² + im²`, equals the direct formula of the other variant for every nonzero divisor |
| ConjugateComplex.ArithmeticAgrees | NNPTPZ1/Mathematics/ComplexNumber.cs:17-55 | `Add`, `Subtract`, `Multiply` and `Equals` give the same results as the other variant |
| ConjugateComplex.SubtractSelf | NNPTPZ1/Mathematics/ComplexNumber.cs:37-45 | `a − b` is `Zero` exactly when a = b (so a − a = `Zero`) |
| ConjugateComplex.MultiplyByReal | NNPTPZ1/Mathematics/ComplexNumber.cs:47-55 | multiplying by `(r, 0)` scales both components by r |
| ConjugateComplex.MultiplyCommutative | NNPTPZ1/Mathematics/ComplexNumber.cs:47-55 | multiplication is commutative |
| ConjugateComplex.MultiplyZero | NNPTPZ1/Mathematics/ComplexNumber.cs:11-15 | multiplying by `Zero` on either side gives `Zero` |
| ConjugateComplex.EqualsIff | NNPTPZ1/Mathematics/ComplexNumber.cs:17-25 | `Equals` holds exactly for a complex argument with both components equal |
| ConjugateComplex.ToStringExamples | NNPTPZ1Tests/ComplexNumberTests.cs:89-117 | "(1 + -1i)" and "(0 + 0i)" |
| PolynomialSpec.Derivative | NNPTPZ1/Polynomial.cs:30-39 | the derivative has length max(0, n − 1), and entry i is coefficient i + 1 times (i + 1), componentwise |
| PolynomialSpec.Xs | NNPTPZ1/Polynomial.cs:88-94 | n copies of `x` and nothing else |
| PolynomialSpec.EvalEmpty | NNPTPZ1/Polynomial.cs:57-58 | the empty coefficient list evaluates to `Zero` |
| PolynomialSpec.EvalAppend | NNPTPZ1/Polynomial.cs:58-73 | appending coefficient c adds c·xⁿ for the next power n |
| PolynomialSpec.EvalIsHorner | NNPTPZ1/Polynomial.cs:55-76 | the power-sum Σ cᵢ·xⁱ equals Horner's rule, an independent definition of the value |
| PolynomialSpec.EvalFront | NNPTPZ1/Polynomial.cs:55-76 | `Eval(cs, x) = c₀ + x·Eval(cs[1..], x)` |
| PolynomialSpec.EvalQuadratic | NNPTPZ1/Polynomial.cs:55-76 | `[a, b, c]` evaluates to a + b·x + c·x² |
| PolynomialSpec.EvalOnePlusSquare | NNPTPZ1Tests/PolynomialTests.cs:17-24 | `[1, 0, 1]` evaluates to 1 + x² at every x |
| PolynomialSpec.EvalOnePlusSquareReal | NNPTPZ1/Polynomial.cs:45-48 | at a real point (r, 0), `[1, 0, 1]` gives the real number 1 + r² |
| PolynomialSpec.EvalOnePlusSquareExamples | NNPTPZ1Tests/PolynomialTests.cs:28-48 | `[1, 0, 1]` at 0, 1 and 2 gives 1, 2 and 5 |
| PolynomialSpec.DerivativeAppend | NNPTPZ1/Polynomial.cs:33-36 | appending coefficient c appends c·n to the derivative |
| PolynomialSpec.DerivativeOfConstant | NNPTPZ1/Mathematics/Polynomial.cs:21-30 | the derivative of a polynomial of length at most 1 evaluates to `Zero` everywhere |
| PolynomialSpec.DerivativeOfCubic | NNPTPZ1/NewtonFractal.cs:145-155 | `[1, 0, 0, 1]` (x³ + 1) derives to `[0, 0, 3]` (3x²) |
| PolynomialSpec.TextAppend | NNPTPZ1/Polynomial.cs:82-101 | appending a coefficient appends ` + ` and its term to the text |
| PolynomialSpec.TextExample | NNPTPZ1Tests/PolynomialTests.cs:51-56 | `[1, 0, 1]` prints as "(1 + 0i) + (0 + 0i)x + (1 + 0i)xx" |
| Polynomials.Polynomial.constructor | NNPTPZ1/Polynomial.cs:16-19 | starts with no coefficients |
| Polynomials.Polynomial.AddCoefficient | NNPTPZ1/Polynomial.cs:21-24 | the coefficient is appended last; the earlier ones are kept |
| Polynomials.Polynomial.Derive | NNPTPZ1/Polynomial.cs:30-39 | a fresh polynomial holding `Derivative(coefficients)`; the receiver is unchanged |
| Polynomials.Polynomial.EvaluateReal | NNPTPZ1/Polynomial.cs:45-48 | the value at x is `Eval` at (x, 0) |
| Polynomials.Polynomial.Evaluate | NNPTPZ1/Polynomial.cs:55-76 | the nested multiplication loops compute `Eval(coefficients, x)` = Σ cᵢ·xⁱ |
| Polynomials.Polynomial.ToString | NNPTPZ1/Polynomial.cs:82-101 | the loop builds `Text(coefficients)`: term i followed by i copies of `x`, joined by ` + ` |
| Polynomes.Polynome.constructor | NNPTPZ1/Polynome.cs:12 | starts with no coefficients |
| Polynomes.Polynome.Add | NNPTPZ1/Polynome.cs:14 | appends exactly one coefficient at the end |
| Polynomes.Polynome.Derive | NNPTPZ1/Polynome.cs:20-31 | a fresh polynomial holding `Derivative(coefficients)`; the receiver is unchanged |
| Polynomes.Polynome.EvaluateReal | NNPTPZ1/Polynome.cs:38-41 | the value at x is `Eval` at (x, 0) |
| Polynomes.Polynome.Evaluate | NNPTPZ1/Polynome.cs:48-70 | computes `Eval(coefficients, x)` |
| Polynomes.Polynome.ToString | NNPTPZ1/Polynome.cs:76-98 | builds `Text(coefficients)` |
| MathPolynomials.Polynomial.constructor | NNPTPZ1/Mathematics/Polynomial.cs:12 | starts with no coefficients |
| MathPolynomials.Polynomial.AddCoefficient | NNPTPZ1/Mathematics/Polynomial.cs:14-15 | appends one coefficient; the only way the private list grows |
| MathPolynomials.Polynomial.Derive | NNPTPZ1/Mathematics/Polynomial.cs:21-30 | fills a fresh polynomial through `AddCoefficient` with `Derivative(coefficients)`; the receiver is unchanged |
| MathPolynomials.Polynomial.EvaluateReal | NNPTPZ1/Mathematics/Polynomial.cs:37-41 | the value at x is `Eval` at (x, 0) |
| MathPolynomials.Polynomial.Evaluate | NNPTPZ1/Mathematics/Polynomial.cs:48-69 | computes `Eval(coefficients, x)` |
| MathPolynomials.Polynomial.ToString | NNPTPZ1/Mathematics/Polynomial.cs:75-92 | builds `Text(coefficients)` |
| MathPolynomials.DeriveConstantEvaluatesToZero | NNPTPZ1/Mathematics/Polynomial.cs:21-69 | deriving a constant polynomial and evaluating the result gives `Zero` at every point |
| Polys.Poly.constructor | NNPTPZ1/Poly.cs:15 | starts with no coefficients |
| Polys.Poly.Add | NNPTPZ1/Poly.cs:17-18 | appends exactly one coefficient at the end |
| Polys.Poly.Derive | NNPTPZ1/Poly.cs:24-33 | a fresh polynomial whose entry q − 1 is `Coe[q]·q`, i.e. `Derivative(coe)`; `Coe` is unchanged |
| Polys.Poly.EvalReal | NNPTPZ1/Poly.cs:40-44 | the value at x is `Eval` at (x, 0) |
| Polys.Poly.Eval | NNPTPZ1/Poly.cs:51-72 | computes `Eval(coe, x)` |
| Polys.Poly.ToString | NNPTPZ1/Poly.cs:78-97 | the loops with outer counters build `Text(coe)` |
| NewtonSolver.Settled | NNPTPZ1/NewtonFractal.cs:128-140 | after t passes the loop counter is at most t |
| NewtonSolver.Diverged | NNPTPZ1/NewtonFractal.cs:135-137 | at most t of the first t passes diverged |
| NewtonSolver.PassStep | NNPTPZ1/NewtonFractal.cs:128-140 | one more pass replaces the point by the point minus its quotient and raises the counter unless that pass diverges |
| NewtonSolver.SettledPlusDiverged | NNPTPZ1/NewtonFractal.cs:128-140 | each pass either raises the counter or is undone by `k--`: the counter plus the diverging passes equals the passes made |
| NewtonSolver.SettledMonotone | NNPTPZ1/NewtonFractal.cs:128-140 | the loop counter never decreases from one pass to the next |
| NewtonSolver.SolvedCount | NNPTPZ1/NewtonFractal.cs:124-143 | a finished run made 30 passes plus one per diverging pass, so at least 30, and its last pass did not diverge |
| NewtonSolver.OutcomeUnique | NNPTPZ1/NewtonFractal.cs:124-143 | the polynomial, the start point and the bound determine the outcome |
| NewtonSolver.NotANumberAbsorbs | NNPTPZ1/ComplexNumber.cs:55-64 | once the point is NaN it stays NaN, and each later pass counts as non-diverging |
| NewtonSolver.NeverDivergingSolvesIn30 | NNPTPZ1/NewtonFractal.cs:124-143 | with no diverging pass among the first 30, the run ends after exactly 30 passes |
| NewtonSolver.NoDivergenceCounts | NNPTPZ1/NewtonFractal.cs:128-140 | without divergence, every pass raises the counter |
| RootRegistry.FirstMatch | NNPTPZ1/Mathematics/NewtonFractal.cs:92-99 | the index found is near the point and no earlier index is; none is found only when no root is near |
| RootRegistry.LastMatch | NNPTPZ1/NewtonFractal.cs:92-100 | the index found is near the point and no later index is; none is found only when no root is near |
| RootRegistry.FindOrAdd | NNPTPZ1/Mathematics/NewtonFractal.cs:90-103 | the index is always in range. The list grows by the point exactly when no known root is near. A hit returns the first near index. A miss returns the new element's index. Either way the indexed root is the point or near it (`IsRootOf`) |
| RootRegistry.LastMatchOrAdd | NNPTPZ1/FractalGenerator.cs:86-107 | the intended last-match lookup: index in range, growth exactly on a miss, the last near index on a hit, the new element's index on a miss, and the indexed root is the point or near it |
| RootRegistry.LastMatchOrAddAsWritten | NNPTPZ1/NewtonFractal.cs:89-106 | the lookup as written: the same growth and hits, but a miss reports the list length after the append |
| RootRegistry.NearSelf | NNPTPZ1/NewtonFractal.cs:94-95 | a finite point is near itself; NaN is near nothing |
| RootRegistry.NotANumberAlwaysAppended | NNPTPZ1/Mathematics/NewtonFractal.cs:94-101 | a NaN point is always added as a new root |
| RootRegistry.FindOrAddIdempotent | NNPTPZ1/Mathematics/NewtonFractal.cs:90-103 | looking up the same finite point twice returns the same index, and the second lookup adds nothing |
| RootRegistry.LastMatchOrAddIdempotent | NNPTPZ1/FractalGenerator.cs:86-107 | the same for the corrected last-match lookup |
| RootRegistry.AsWrittenNumbersNewRootTwice | NNPTPZ1/NewtonFractal.cs:102-106 | as written, a new root is reported as 1 and then as 0 when the same point is looked up again |
| RootRegistry.AsWrittenIsOneOff | NNPTPZ1/FractalGenerator.cs:99-104 | the as-written lookup differs from the intended one only by +1 on a miss |
| Pixels.PaletteColor | NNPTPZ1/NewtonFractal.cs:109 | `colors[id % 9]` is a palette entry with byte channels |
| Pixels.Darken | NNPTPZ1/NewtonFractal.cs:111-114 | a channel lies in 0..255, is at most the base channel for a non-negative count, and is exactly c − 2n when that is in range |
| Pixels.Shade | NNPTPZ1/FractalGenerator.cs:109-115 | every darkened colour has byte channels |
| Pixels.DarkenMonotone | NNPTPZ1/NewtonFractal.cs:111-114 | more iterations never give a lighter channel |
| Pixels.DarkenedBy | NNPTPZ1/NewtonFractal.cs:111-114 | a channel of at most 255 loses at least 2n (down to 0) |
| Pixels.RenderColorIsDark | NNPTPZ1/NewtonFractal.cs:108-116 | every colour a finished run writes has channels at most 195 |
| Pixels.RenderedIsRenderColor | NNPTPZ1/NewtonFractal.cs:108-116 | a cell that records a solved run holds a palette colour darkened by a count of at least 30 |
| Pixels.RenderedAsRootsGrow | NNPTPZ1/NewtonFractal.cs:104 | appending roots later does not change which root a recorded cell names |
| Pixels.GridSpansInterval | NNPTPZ1/FractalGenerator.cs:33-34 | the grid `origin + k·(extent − origin)/count` starts at origin, reaches extent at k = count, advances by one step per index, and stays between the ends for 0 ≤ k ≤ count |
| Pixels.SetPixelTargetsAsWritten | NNPTPZ1/NewtonFractal.cs:72-116 | the as-written loops visit width·height cells, exactly the pairs (j, i) with j below the height and i below the width |
| Pixels.TargetsInsideOnlyWhenSquare | NNPTPZ1/FractalGenerator.cs:128-136 | those writes all land inside the bitmap exactly when it is square or empty; a 2×1 bitmap gets a write to cell (0, 1) |
| NewtonFractals.NewtonFractal.constructor | NNPTPZ1/NewtonFractal.cs:41-53 | the viewport, the steps (max − min)/size and a fresh bitmap of the given positive size |
| NewtonFractals.NewtonFractal.GetInitialPolynome | NNPTPZ1/NewtonFractal.cs:145-155 | builds a fresh `Polynome` with coefficients [(1,0), (0,0), (0,0), (1,0)] |
| NewtonFractals.NewtonFractal.CorrectPossibleZeroCoordinates | NNPTPZ1/NewtonFractal.cs:157-163 | a component that is exactly zero becomes 0.0001 and a nonzero component is kept, so neither component is zero afterwards |
| NewtonFractals.NewtonFractal.NewtonIteration | NNPTPZ1/NewtonFractal.cs:124-143 | the loop with `k--` on diverging passes (squared magnitude ≥ 0.5) yields exactly `IsOutcome` for its polynomials |
| NewtonFractals.NewtonFractal.Pass | NNPTPZ1/NewtonFractal.cs:130-137 | one pass: the new point is the old one minus the quotient (NaN if either is NaN), and the pass diverges exactly when the quotient is finite with squared magnitude ≥ 0.5 |
| NewtonFractals.NewtonFractal.Difference | NNPTPZ1/NewtonFractal.cs:130-131 | evaluates both polynomials and divides: the Newton quotient, or NaN |
| NewtonFractals.NewtonFractal.DivideConjugate | NNPTPZ1/Mathematics/ComplexNumber.cs:57-67 | the conjugate division, or NaN for an exactly-zero divisor |
| NewtonFractals.NewtonFractal.ClassifyRootAsWritten | NNPTPZ1/NewtonFractal.cs:89-106 | the inline search as written computes `LastMatchOrAddAsWritten` |
| NewtonFractals.NewtonFractal.ClassifyRoot | NNPTPZ1/NewtonFractal.cs:89-106 | the corrected search computes `LastMatchOrAdd` |
| NewtonFractals.NewtonFractal.SearchLast | NNPTPZ1/NewtonFractal.cs:90-100 | the `for k` loop finds a root exactly when `LastMatch` does, and reports its index |
| NewtonFractals.NewtonFractal.ProcessPixel | NNPTPZ1/NewtonFractal.cs:77-116 | one pixel. The run starts at the pixel's corrected coordinates. On finishing, the root lookup is `LastMatchOrAdd` and cell (j, i) is the palette colour of that number darkened by the count. Every cell recorded before it still names its root in the grown list, and cell (j, i) is recorded too. Out of fuel, the roots and the cell are unchanged. No other cell changes |
| NewtonFractals.NewtonFractal.GenerateNewtonFractal | NNPTPZ1/NewtonFractal.cs:60-122 | builds x³ + 1 and its derivative and traverses the bitmap. A finished render records, for every cell, the run from that cell's own start point: its outcome, a root number whose root is its final point or near it, and the cell's colour as that number's palette colour darkened by the count. At most one root is added per pixel |
| NewtonFractals.NewtonFractal.TraverseBitmap | NNPTPZ1/NewtonFractal.cs:71-118 | the pixel loops with the corrected bounds: when finished, every cell records the run from its own pixel (outcome, root number, colour), every cell holds a render colour, and at most one root was added per pixel |
| NewtonFractals.PixelCoordinatesSpanViewport | NNPTPZ1/NewtonFractal.cs:77-81 | with the constructor's steps, pixel (0, 0) is at (xmin, ymin), row H and column W at (xmax, ymax), neighbouring pixels are one step apart, and every pixel lies in the viewport |
| FractalGenerators.FractalGenerator.constructor | NNPTPZ1/FractalGenerator.cs:24-36 | the size, viewport, steps (max − min)/size and a fresh bitmap |
| FractalGenerators.FractalGenerator.CreatePolynomial | NNPTPZ1/FractalGenerator.cs:38-46 | a fresh polynomial with coefficients [1, 0, 0, 1] |
| FractalGenerators.FractalGenerator.AdjustZeroComplex | NNPTPZ1/FractalGenerator.cs:54-62 | a component that is exactly zero becomes 0.0001 and a nonzero component is kept, so neither component is zero afterwards |
| FractalGenerators.FractalGenerator.NewtonIteration | NNPTPZ1/FractalGenerator.cs:67-84 | the loop with `k--` when `IsDiverging` yields exactly `IsOutcome` with threshold 0.5 |
| FractalGenerators.FractalGenerator.Pass | NNPTPZ1/FractalGenerator.cs:73-79 | one pass: the point minus the quotient, diverging exactly when `IsDiverging` holds of a finite quotient (a NaN quotient never diverges) |
| FractalGenerators.FractalGenerator.Difference | NNPTPZ1/FractalGenerator.cs:73 | the Newton quotient `Eval(z) / Eval'(z)`, or NaN |
| FractalGenerators.FractalGenerator.SafeDivide | NNPTPZ1/Mathematics/ComplexNumber.cs:57-67 | the conjugate division, or NaN for an exactly-zero divisor |
| FractalGenerators.FractalGenerator.GetRootIdAsWritten | NNPTPZ1/FractalGenerator.cs:86-107 | as written: `LastMatchOrAddAsWritten`. `maxRootId` is unchanged on a hit. On a miss it becomes the reported id plus one, which is two past the new index |
| FractalGenerators.FractalGenerator.GetRootId | NNPTPZ1/FractalGenerator.cs:86-107 | corrected: `LastMatchOrAdd`; `maxRootId` unchanged on a hit and the new list length on a miss |
| FractalGenerators.FractalGenerator.SearchLast | NNPTPZ1/FractalGenerator.cs:91-98 | the `for i` loop finds a root exactly when `LastMatch` does, and reports its index |
| FractalGenerators.FractalGenerator.GetPixelColor | NNPTPZ1/FractalGenerator.cs:109-115 | the colour is `colors[rootId % 9]` darkened by the count on every channel, with channels in 0..255 and, for a non-negative count, at most those of the palette colour |
| FractalGenerators.FractalGenerator.ColorizePixel | NNPTPZ1/FractalGenerator.cs:117-121 | sets cell (j, i) to `GetPixelColor` and no other cell |
| FractalGenerators.FractalGenerator.ProcessImage | NNPTPZ1/FractalGenerator.cs:123-139 | with the corrected loop bounds, a finished run records for every cell the run from its own start point, with a root id whose root is its final point or near it and the cell coloured by that id and the count. Every cell holds a render colour, at most one root is added per pixel, and `maxRootId` equals the number of roots |
| FractalGenerators.FractalGenerator.RecordPixel | NNPTPZ1/FractalGenerator.cs:132-136 | once cell (j, i) is written, the cells recorded before it still name their roots in the grown list, and cell (j, i) is recorded |
| FractalGenerators.FractalGenerator.GenerateFractal | NNPTPZ1/FractalGenerator.cs:141-145 | x³ + 1 and its derivative, then `ProcessImage`: a finished run records every cell's own run, root id and colour, and every cell holds a render colour |
| FractalGenerators.IsDivergingAgrees | NNPTPZ1/FractalGenerator.cs:64-65 | `IsDiverging(d)` holds exactly when d.re² + d.im² ≥ 0.5, the divergence test of the shared loop |
| FractalGenerators.CreatedPolynomialDerivative | NNPTPZ1/FractalGenerator.cs:143-144 | the derivative of the created polynomial is [0, 0, 3] |
| FractalGenerators.WorldCoordinatesSpanViewport | NNPTPZ1/FractalGenerator.cs:47-52 | with the constructor's steps, pixel (0, 0) is at (minX, minY), row H and column W at (maxX, maxY), neighbouring pixels are one step apart, and every pixel lies in the viewport |
| MathNewtonFractals.NewtonFractal.constructor | NNPTPZ1/Mathematics/NewtonFractal.cs:17-21 | the state after argument parsing: size and viewport set, no roots, no polynomials |
| MathNewtonFractals.NewtonFractal.InitializePolynomial | NNPTPZ1/Mathematics/NewtonFractal.cs:55-63 | a fresh polynomial built by four `AddCoefficient` calls: [1, 0, 0, 1] |
| MathNewtonFractals.NewtonFractal.InitializePolynomials | NNPTPZ1/Mathematics/NewtonFractal.cs:65-71 | sets the polynomial to x³ + 1 and its derivative to `Derivative` of it, [0, 0, 3]; the roots are kept |
| MathNewtonFractals.NewtonFractal.SolveUsingNewtonMethod | NNPTPZ1/Mathematics/NewtonFractal.cs:73-88 | the loop with `i--` when the quotient's absolute value is at least 0.5 yields exactly `IsOutcome` with squared threshold 0.25 |
| MathNewtonFractals.NewtonFractal.Pass | NNPTPZ1/Mathematics/NewtonFractal.cs:78-84 | one pass: the root minus the quotient, diverging exactly when the squared magnitude of a finite quotient is at least 0.25 |
| MathNewtonFractals.NewtonFractal.Quotient | NNPTPZ1/Mathematics/NewtonFractal.cs:78 | the Newton quotient, or NaN |
| MathNewtonFractals.NewtonFractal.DivideDirect | NNPTPZ1/ComplexNumber.cs:55-64 | the direct division, or NaN for an exactly-zero divisor |
| MathNewtonFractals.NewtonFractal.FindOrAddRoot | NNPTPZ1/Mathematics/NewtonFractal.cs:90-103 | the new root list and returned index are `FindOrAdd` of the old list; the polynomials are untouched |
| MathNewtonFractals.NewtonFractal.GetComplexCoordinates | NNPTPZ1/Mathematics/NewtonFractal.cs:105-117 | each viewport position xMin + x·(xMax − xMin)/W, yMin + y·(yMax − yMin)/H is kept when nonzero and replaced by `OFFSET` = 0.0001 when zero, so neither component is zero |
| MathNewtonFractals.NewtonFractal.Clamp | NNPTPZ1/Mathematics/NewtonFractal.cs:119-124 | the result is within [min, max] when min ≤ max, is the value when it is already in range, and is always the value or a bound |
| MathNewtonFractals.NewtonFractal.AdjustChannel | NNPTPZ1/Mathematics/NewtonFractal.cs:132-138 | every channel lies in 0..255 |
| MathNewtonFractals.NewtonFractal.DeterminePixelColor | NNPTPZ1/Mathematics/NewtonFractal.cs:126-139 | run, then `FindOrAdd` lookup, then the palette colour of the index darkened by the count; out of fuel, the roots are unchanged |
| MathNewtonFractals.NewtonFractal.GenerateFractalImage | NNPTPZ1/Mathematics/NewtonFractal.cs:38-53 | a fresh W×H bitmap with pixel (x, y) written for x below W and y below H. The roots found before are kept as a prefix. A finished render records for every cell the run from `GetComplexCoordinates(x, y)`, a root index whose root is its final point or near it, and the cell coloured by that index and the count. Every cell holds a render colour and at most one root is added per pixel |
| MathNewtonFractals.NewtonFractal.RenderPixel | NNPTPZ1/Mathematics/NewtonFractal.cs:46-48 | one pixel: cell (x, y) gets the colour of the run from `GetComplexCoordinates(x, y)`, with its root index given by `FindOrAdd` on the previous roots. The cells recorded before it still hold against the grown list. Out of fuel, the roots and the cell are unchanged. No other cell changes and at most one root is added |
| MathNewtonFractals.FirstMatchOfPrefix | NNPTPZ1/Mathematics/NewtonFractal.cs:92-98 | the early `return i` of the loop returns the first match |
| MathNewtonFractals.AdjustChannelIsDarken | NNPTPZ1/Mathematics/NewtonFractal.cs:132-138 | `clamp(c − min(2n, 255), 0, 255)` equals the other renderers' `min(max(0, c − 2n), 255)` for every channel of at most 255 |
| MathNewtonFractals.AbsoluteValueComparison | NNPTPZ1/Mathematics/NewtonFractal.cs:81 | for the absolute value a ≥ 0 with a² = re² + im², `a ≥ 0.5` exactly when re² + im² ≥ 0.25 |
| MathNewtonFractals.ViewportPositionsSpan | NNPTPZ1/Mathematics/NewtonFractal.cs:105-111 | column 0 and row 0 are at (xMin, yMin), column W and row H at (xMax, yMax), neighbouring pixels are one step apart, and every pixel lies in the viewport |

## Left out

- **Bitmap and console I/O.** `Bitmap.Save` and `Console.WriteLine` are side effects and are not modelled. `SetPixel` is an array write. The alpha channel of `Color.FromArgb` is not modelled.
- **Argument parsing.** NNPTPZ1/Program.cs, NNPTPZ1/ArgumentParser.cs and `ParseArguments` (NNPTPZ1/Mathematics/NewtonFractal.cs:27-36) are not part of this model; its constructor takes the parsed values. The file name is dropped.
- **IEEE-754 doubles.** Rounding, infinities, `Math.Pow` rounding, and the `(float)` casts and `0.0001f` of NNPTPZ1/NewtonFractal.cs:80 and NNPTPZ1/FractalGenerator.cs:51,59 are not modelled. Components are exact reals.
- **NaN.** NaN appears only as the `NotANumber` point, from a division by an exactly-zero derivative. Divisions by zero elsewhere are excluded by preconditions.
- **Square root and arctangent.** `GetAbsoluteValue` and `GetAngleInRadians` (NNPTPZ1/Mathematics/ComplexNumber.cs:69-77) are not modelled. The divergence test `|q| ≥ 0.5` is replaced by `|q|² ≥ 0.25`, and `MathNewtonFractals.AbsoluteValueComparison` shows the two agree.
- **Termination of the Newton loops.** This cannot be shown over arbitrary points. The loops take a fuel bound and report `OutOfFuel` if it runs out. A render that runs out stops and reports that it did not finish. The source would loop on.
- **Int32 overflow.** `iterationCount * 2`, the pass counters and the root counters are unbounded integers. The source's int32 wrap-around is not modelled.
- **`GetHashCode` and floating-point text.** `GetHashCode` (NNPTPZ1/ComplexNumber.cs:66-69) is reference-based and not modelled. Formatting doubles as text is the abstract `fmt` parameter.
- **Mutated coordinate objects.** `CorrectPossibleZeroCoordinates` and `AdjustZeroComplex` change the fields of a coordinate object in place. They are modelled as functions returning the new value. No other reference to that object exists at the call.
- **Caller-owned root list.** The `roots` list passed to `GetRootId`, and the one built inline in `GenerateNewtonFractal`, belong to the caller. They are modelled as a sequence passed in and returned. `ref maxRootId` and the `ref` coordinate of the Newton loops are returned values.
- **Private fields.** C# access modifiers have no counterpart. The privacy of the coefficient list in NNPTPZ1/Mathematics/Polynomial.cs is reflected only in its methods' frames.
- **Static state.** NNPTPZ1/Mathematics/NewtonFractal.cs keeps the image size, viewport, roots and polynomials in static fields. They are modelled as fields of one object.
- **Polynome `x^1` test.** NNPTPZ1Tests/ComplexNumberTests.cs:165-177 expects `x^1`/`x^2`. The code writes `x`/`xx`, and the model follows the code.
- **Palette values.** The palette's RGB values are the System.Drawing constants, given as byte literals.
- ToString: the positions of the component texts inside `(re + imi)` are stated by the `ToStringLayout` lemmas, not by the ensures of `ToString` itself. The function's own contract gives the length and the two ends, which keeps the polynomial printing proofs small.
- ProcessPixel, TraverseBitmap, GenerateNewtonFractal, ProcessImage, GenerateFractal: these per-cell contracts use the corrected root numbering and loop bounds from "## Findings". A new root is coloured `palette[|roots| % 9]`, not `palette[(|roots| + 1) % 9]` as the source writes it. The as-written numbering and bounds are modelled only by `ClassifyRootAsWritten`, `GetRootIdAsWritten` and `SetPixelTargetsAsWritten`.
- RenderedFrom: a recorded cell names a root that is its final point or near it (`IsRootOf`). It does not repeat the exact lookup against the roots known when that pixel was drawn. The per-pixel methods state that lookup exactly.

## Findings

| source | as written | input that shows it | evidently intended | confidence | as-written member | corrected member |
|---|---|---|---|---|---|---|
| NNPTPZ1/NewtonFractal.cs:102-106 | a new root is numbered `roots.Count` after the append, one past its index | an empty root list: the first point is numbered 1 (Blue), and the next pixel that converges to the same root is numbered 0 (Red), so one root gets two colours | number a new root by its index, `roots.Count - 1` | not executed | NewtonFractals.NewtonFractal.ClassifyRootAsWritten, RootRegistry.AsWrittenNumbersNewRootTwice | NewtonFractals.NewtonFractal.ClassifyRoot, RootRegistry.LastMatchOrAddIdempotent |
| NNPTPZ1/FractalGenerator.cs:99-104 | `rootId = roots.Count` after the append and `maxRootId = rootId + 1` | the same empty list: the first root is reported as 1 and `maxRootId` becomes 2 with one root known | `rootId = roots.Count - 1`, so `maxRootId` is the number of roots | not executed | FractalGenerators.FractalGenerator.GetRootIdAsWritten, RootRegistry.AsWrittenIsOneOff | FractalGenerators.FractalGenerator.GetRootId, FractalGenerators.FractalGenerator.ProcessImage |
| NNPTPZ1/NewtonFractal.cs:72-74 | the outer index `i` runs below the width and the inner `j` below the height, and the pixel written is `SetPixel(j, i)` | a 2×1 bitmap: the loops write cell (0, 1), outside the bitmap (`SetPixel` throws) | the outer index below the height and the inner below the width | not executed | Pixels.SetPixelTargetsAsWritten, Pixels.TargetsInsideOnlyWhenSquare | NewtonFractals.NewtonFractal.TraverseBitmap |
| NNPTPZ1/FractalGenerator.cs:128-130 | the same transposed bounds, with `ColorizePixel(i, j)` writing `SetPixel(j, i)` | a 2×1 bitmap: cell (0, 1) is written | the outer index below the height | not executed | Pixels.SetPixelTargetsAsWritten, Pixels.TargetsInsideOnlyWhenSquare | FractalGenerators.FractalGenerator.ProcessImage |
