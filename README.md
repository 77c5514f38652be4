# Convergence analysis of the fixed-grid linear advection runs

This project models the numerical core of `analyze_linear.py`, the script that
measures how fast a fixed-grid Lax-Friedrichs solution of linear advection
converges. Each run writes one sample per line to a file named after its
resolution NX. For every file the script does the following:

- It rebuilds the cell-centred grid from the number of samples.
- It evaluates the step reference on that grid: 1 left of x = 0.75, 0 right of it.
- It integrates the squared difference over [0, 1] with a trapezoid rule that adds constant end pieces. That integral is the reported "L2 error"; no square root is taken.
- It collects the errors in input order.

The spacing of each run is 1 / NX. The power-law fit uses every run except the first three.

Everything is exact `real` arithmetic. The modules are:

- `Outcomes`: the `Result` type and the one error the core can raise. The grid shift reads `x[1]`, which does not exist for fewer than two samples.
- `Quadrature`: `trapezoid`, split into interior panels (`InteriorSum`) and two end pieces (`LeftEnd`, `RightEnd`). It proves:
  - Constant samples integrate to the constant.
  - The rule is linear in the samples.
  - Non-negative samples give a non-negative integral.
  - Non-negative samples integrate to zero exactly when all of them are zero.
- `Grid`: the grid and the step reference. Each has a specification function (`CellCentres`, `Reference`) and a method that builds it in an array the way the script does (`BuildCellCentres`, `BuildReference`).
- `Analysis`: the squared error and its integral, `Measure` (what one file yields) and the method `MeasureError` proved equal to it.
- `Convergence`: the loop over the files (`RunStudy`), the spacings `1 / NX` and the `[3:]` tail the fit uses.

## Model

| member | source | states |
|---|---|---|
| Quadrature.Trapezoid | analyze_linear.py:7-10 | the quadrature: the panel sum `InteriorSum` over adjacent node pairs, plus the left end piece `x[0]*f[0]` and the right end piece `(1-x[-1])*f[-1]`; its properties are the lemmas below |
| Quadrature.InteriorSumIsSumOfPanels | analyze_linear.py:8 | adding the panels one pair at a time along the nodes equals summing the array of panel areas `0.5*(x[k+1]-x[k])*(f[k]+f[k+1])` |
| Quadrature.TrapezoidVectorised | analyze_linear.py:7-10 | the quadrature equals the vectorised form: the sum of the panel-area array plus `x[0]*f[0]` plus `(1-x[-1])*f[-1]` |
| Quadrature.TrapezoidOfConstant | analyze_linear.py:7-10 | samples equal to a constant `c` on any non-empty node sequence integrate to exactly `c`, because the interior panels telescope to `c*(x[n-1]-x[0])` and the end pieces supply the rest of [0, 1] |
| Quadrature.InteriorSumOfConstant | analyze_linear.py:8 | the interior panels of constant samples `c` sum to `c` times the distance from the first node to the last |
| Quadrature.TrapezoidOfOneSample | analyze_linear.py:7-10 | with a single node there are no panels, and the one sample is held over the whole domain: the integral is that sample |
| Quadrature.InteriorSumLinear | analyze_linear.py:8 | the panel sum of `a*f+g` is `a` times the panel sum of `f` plus the panel sum of `g` |
| Quadrature.TrapezoidLinear | analyze_linear.py:7-10 | the quadrature is linear in the samples: `a*f+g` integrates to `a` times the integral of `f` plus the integral of `g` |
| Quadrature.InteriorSumNonNegative | analyze_linear.py:8 | on nondecreasing nodes, non-negative samples give a non-negative panel sum |
| Quadrature.InteriorSumCoversPanel | analyze_linear.py:8 | on nondecreasing nodes with non-negative samples, every single panel is at most the whole panel sum |
| Quadrature.EndPiecesNonNegative | analyze_linear.py:9 | with nodes in [0, 1] and non-negative samples, both end pieces `x[0]*f[0]` and `(1-x[-1])*f[-1]` are non-negative |
| Quadrature.TrapezoidNonNegative | analyze_linear.py:7-10 | on nondecreasing nodes in [0, 1], non-negative samples integrate to a non-negative value |
| Quadrature.InteriorSumPositive | analyze_linear.py:8 | a positive sample followed by a strictly higher node makes the panel sum positive |
| Quadrature.RightEndPositive | analyze_linear.py:9 | a positive last sample whose node lies left of 1 makes the right end piece positive |
| Quadrature.PositiveSampleGivesPositiveIntegral | analyze_linear.py:7-10 | on strictly increasing nodes inside (0, 1), any positive sample among non-negative ones makes the integral positive |
| Quadrature.TrapezoidZeroIff | analyze_linear.py:7-10 | on strictly increasing nodes inside (0, 1), non-negative samples integrate to zero if and only if every sample is zero |
| Grid.CellCentres | analyze_linear.py:17-18 | the grid fails with `SecondCoordinateMissing` exactly when there are fewer than two samples; otherwise it has one coordinate per sample and coordinate `i` is the cell centre `(i+0.5)/n` |
| Grid.BuildCellCentres | analyze_linear.py:17-18 | filling an array with `i/n` and then adding half of its second entry to every entry yields exactly `CellCentres(n)`, including the failure for fewer than two samples |
| Grid.Reference | analyze_linear.py:19-20 | one entry per coordinate; entry `i` is 1 exactly when `x[i] < 0.75` and 0 exactly when `x[i] >= 0.75` |
| Grid.BuildReference | analyze_linear.py:19-20 | starting from zeros and setting to 1 every entry whose coordinate is below 0.75 yields exactly `Reference(x)`: same length, 1 where `x[i] < 0.75` and 0 elsewhere |
| Grid.CellCentresInsideDomain | analyze_linear.py:17-18 | for at least two samples the grid is strictly increasing and every coordinate lies strictly between 0 and 1 |
| Grid.CellCentresSpacing | analyze_linear.py:17-18 | adjacent grid coordinates are exactly one cell width `1/n` apart |
| Grid.CentreLeftOfStep | analyze_linear.py:17-20 | the centre of cell `i` of `n` lies left of 0.75 if and only if `4i+2 < 3n` |
| Grid.ReferenceOnCellCentres | analyze_linear.py:17-20 | on the grid of `n` samples the reference is one downward step: 1 in the first `(3n+1) div 4` cells and 0 in all the others |
| Grid.CellCentresOfFour | analyze_linear.py:17-18 | four samples give the grid 0.125, 0.375, 0.625, 0.875 |
| Grid.ReferenceExample | analyze_linear.py:19-20 | a coordinate left of the step gets 1 and one right of it gets 0 |
| Analysis.SquaredDiff | analyze_linear.py:22 | the pointwise squared error has one entry per sample, is never negative, and entry `i` is zero if and only if the two series agree at `i` |
| Analysis.L2Error | analyze_linear.py:22 | the error is `Trapezoid` applied to the nodes `x` and the pointwise squared error `SquaredDiff(numeric, analytic)`, that is `(numeric-analytic)**2` entry by entry, with no square root taken; its properties are the lemmas below |
| Analysis.L2NonNegative | analyze_linear.py:22 | on nondecreasing nodes in [0, 1] the error is never negative |
| Analysis.L2Symmetric | analyze_linear.py:22 | swapping the numerical and the reference series leaves the error unchanged |
| Analysis.L2ZeroIff | analyze_linear.py:22 | on strictly increasing nodes inside (0, 1) the error is zero if and only if the two series are equal |
| Analysis.L2OnCellCentresZeroIff | analyze_linear.py:17-22 | on the grid rebuilt from the sample count, the error is zero if and only if the numerical series equals the reference |
| Analysis.Measure | analyze_linear.py:17-23 | measuring a file fails exactly when it has fewer than two samples; otherwise it returns the samples, the grid `CellCentres`, the reference on that grid and the error `L2Error` of the samples against that reference on that grid, which is non-negative and is zero if and only if the samples equal the reference |
| Analysis.MeasureError | analyze_linear.py:17-23 | building the grid and the reference in arrays and integrating gives exactly `Measure` of the samples |
| Analysis.ReferenceAgainstItself | analyze_linear.py:17-22 | the reference compared with itself on the grid has zero error |
| Convergence.RunStudy | analyze_linear.py:42-47 | the study succeeds if and only if every file has at least two samples; it then keeps one NX and one error per file, in input order, with every error equal to that file's `Measure` error and non-negative; otherwise it stops with the error of the first file that cannot be measured |
| Convergence.Spacings | analyze_linear.py:51 | one spacing per resolution, each positive and satisfying `dx * NX == 1` |
| Convergence.SpacingIsCellWidth | analyze_linear.py:17-18 | when NX equals the number of samples, the spacing is the distance between adjacent grid coordinates |
| Convergence.SpacingsShrinkWithResolution | analyze_linear.py:51 | a finer resolution gives a strictly smaller spacing |
| Convergence.FitTail | analyze_linear.py:64 | the `[3:]` slice holds all but the first three entries in order, and it is empty when there are at most three |
| Convergence.FitPoints | analyze_linear.py:64 | the fit points are `DX[3:]` and `Error[3:]` paired in input order: one per run after the first three, point `k` being the spacing and the error of run `3+k` |

## Left out

- Reading a sample file and parsing its lines as floats (lines 13-16) is left out: a file is given as its parsed samples (`Convergence.SampleFile`).
- Argument parsing and taking NX from the second dot-separated field of the file name (lines 26-29, 44-45) are left out: NX is a field of `SampleFile`.
- Console output and all plotting (lines 33-40, 43, 48, 52-62, 67, 70-79) are left out, because they do not affect any computed value.
- The least-squares fit of log error against log spacing, and the log and exp around it (lines 64-66), are left out, since they need floating-point logarithms. Only the choice of the points it is fed is modelled (`Convergence.FitPoints`).
- The hard-coded adaptive-mesh error list (line 69) is left out, because it is plot data only.
- IEEE double rounding is left out: all arithmetic is exact `real`, so the proved equalities hold for the exact values the doubles approximate. This matters most at the step `x < 0.75`, which is not continuous. When `4i+2 == 3n` (n ≡ 2 mod 4; for example cell 4 of 6), the exact centre lies on 0.75 itself, and the rounding of `i/n + 0.5*x[1]` decides which side the double falls on. There the script's reference may differ from `Grid.ReferenceOnCellCentres` by one whole cell.
- Convergence.Spacings: requires every NX to be positive, since a resolution is a positive cell count. The script itself accepts any number in the file name: a zero NX gives an IEEE infinity, which exact reals cannot represent, and a negative one gives a negative spacing, which the model does not cover.
- Quadrature.Trapezoid: requires node and sample sequences of the same non-zero length. numpy broadcasting of mismatched lengths is not modelled, and an empty input raises at `x[0]` in the script. The callers always pass the grid and the squared error, which have the same length of at least two.
- Convergence.RunStudy: a file that cannot be measured ends the study with `Err`. In the script that file's NX has already been appended when the exception ends the run, but that partial list is never used.
- The grid fails for both zero and one sample. Both cases read `x[1]`: for one sample that index is past the end, and for zero samples the grid is empty (numpy divides the empty range by 0.0 without raising). Only the count of at least two is accepted, as the code requires.
