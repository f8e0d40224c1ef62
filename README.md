# Barycentric coordinates and composite quadrature, in Dafny

This project models two small groups of numerical kernels and proves properties about them. Both use exact `real` arithmetic.

- **Barycentric coordinates** (`barycentric.py`):
  - `get_barycentric_coordinates` converts a Cartesian point to barycentric coordinates for a triangle given as a 2x3 vertex matrix.
  - `get_cartesian_coordinates` converts coordinates back to a point.
  - `is_inside_triangle` tests a point against the triangle, with the boundary counted as inside.
- **Composite quadrature** (`riemann.py`, `simpson.py`): the left-endpoint rule, the trapezoid rule and Simpson's rule. Each approximates an integral from a grid of sample points.

Modules:

- `Barycentric` (`barycentric.dfy`):
  - Each Python function is a Dafny function returning an `Outcome`. An `Outcome` is one of three things: a returned value, a returned `None`, or a raised exception (`ValueError`, `LinAlgError`, `TypeError`).
  - `np.linalg.solve` becomes Cramer's rule on the 2x2 system with vertex 3 as the reference. A singular system (determinant exactly 0) raises `LinAlgError`.
  - A triangle that is not two rows of three entries returns `None`.
  - A point that does not have two coordinates fails the tuple unpacking and raises `ValueError`.
  - `np.matmul` is a row-by-row dot product. It raises `ValueError` on a shape mismatch, and for a matrix with no rows.
- `Grid` (`grid.dfy`):
  - A grid is a `seq<real>`. Each rule computes one panel per pair of consecutive points (x[i], x[i+1]) and sums the panels.
  - `Composite` is that sum written as a recursion over the grid. `SumOverPairs` is the sum over i < n-1 in index order, the sum `np.sum` takes over the arrays built from `x[:-1]` and `x[1:]`. With exact arithmetic the order in which `np.sum` adds is irrelevant. The two are proved equal.
  - Generic lemmas: splitting a grid, telescoping, linearity in the panel, and sign.
- `Riemann` (`riemann.dfy`) and `Simpson` (`simpson.dfy`):
  - Each rule is `Composite` with its own panel. The integrand is a `real -> real` function applied point by point.
  - `RightEndpoint` has no counterpart in the source. It is only used to state that the trapezoid rule is the mean of two endpoint rules.

Behaviour of the code that the model keeps:

- **No typed errors:** a triangle that is not 2x3 gives `None` after a printed message. Every other failure raises whatever numpy or Python raises.
- **No grid validation:** a grid with fewer than two points gives 0, and an unordered grid gives a signed sum. Properties that need an ordered grid take `StrictlyIncreasing` as a precondition.

## Model

| member | source | states |
|---|---|---|
| Barycentric.GetBarycentric | barycentric.py:17-32 | None exactly when the triangle is not 2x3. ValueError exactly when the point has other than two coordinates. LinAlgError exactly when the determinant (x1-x3)(y2-y3)-(x2-x3)(y1-y3) is 0. Otherwise three coordinates that sum to 1, with λ1, λ2 solving (x1-x3)λ1+(x2-x3)λ2 = x-x3 and (y1-y3)λ1+(y2-y3)λ2 = y-y3. |
| Barycentric.Cramer | barycentric.py:26-29 | Cramer's formulas solve a 2x2 system with a nonzero determinant. |
| Barycentric.CramerUnique | barycentric.py:29 | A 2x2 system with a nonzero determinant has at most one solution. |
| Barycentric.MatMul | barycentric.py:51 | A matrix-vector product succeeds exactly when the matrix has at least one row and every row has the vector's length. It then has one entry per row, the dot product of that row with the vector. Any other shape raises ValueError. |
| Barycentric.Dot3 | barycentric.py:51 | A dot product of two three-entry vectors is the sum of the three products. |
| Barycentric.GetCartesian | barycentric.py:50-53 | For a 2x3 triangle and three coefficients, returns (λ1x1+λ2x2+λ3x3, λ1y1+λ2y2+λ3y3), without requiring the coefficients to sum to 1. Any other number of coefficients raises ValueError. |
| Barycentric.IsInsideTriangle | barycentric.py:70-75 | True exactly when all three barycentric coordinates are ≥ 0. A `None` conversion raises TypeError. A ValueError or LinAlgError from the conversion propagates. |
| Barycentric.CartesianOfBarycentric | barycentric.py:29-32 | Round trip: converting a point to barycentric coordinates and back gives the same point. |
| Barycentric.BarycentricOfCartesian | barycentric.py:29-32 | The reverse round trip, for coefficients that sum to 1. |
| Barycentric.VertexIsBasis | barycentric.py:26-30 | Vertex i has the barycentric coordinates of basis vector i. |
| Barycentric.CentroidCoordinates | barycentric.py:26-30 | The centroid has coordinates (1/3, 1/3, 1/3). |
| Barycentric.InsideIffConvexCombination | barycentric.py:70-75 | A combination of the vertices with coefficients that sum to 1 is inside exactly when every coefficient is ≥ 0. |
| Barycentric.VertexIsInside | barycentric.py:72 | Every vertex counts as inside, because the test uses ≥ 0. |
| Barycentric.CollinearRaises | barycentric.py:29 | A collinear triangle raises LinAlgError, from the conversion and from the inside test. |
| Grid.CompositeIsSumOverPairs | riemann.py:4-6 | Summing the panels recursively over the grid gives the same result as summing them in index order over x[:-1] and x[1:]. |
| Riemann.LeftEndpoint | riemann.py:3-6 | A grid with fewer than two points gives empty arrays and the result 0. |
| Riemann.Trapezoid | riemann.py:8-11 | A grid with fewer than two points gives empty arrays and the result 0. |
| Riemann.RulesAreIndexedSums | riemann.py:3-11 | left_endpoint is the sum over i < n-1 of (x[i+1]-x[i])·f(x[i]). trapezoid is the sum over i < n-1 of (x[i+1]-x[i])·(f(x[i])+f(x[i+1]))/2. |
| Riemann.TwoPoints | riemann.py:4-11 | The grid [a, b] gives the single panel of each rule. |
| Riemann.LeftIgnoresLastPoint | riemann.py:5 | The left-endpoint rule never uses f at the last grid point. |
| Riemann.ConstantExact | riemann.py:4-11 | For f ≡ c both rules return c·(x[n-1]-x[0]). |
| Riemann.TrapezoidIsMean | riemann.py:5-10 | The trapezoid sum is the mean of the left-endpoint sum and the right-endpoint sum. |
| Riemann.TrapezoidLinearExact | riemann.py:9-11 | For f(t) = m·t+k the trapezoid rule returns m·(x[n-1]²-x[0]²)/2 + k·(x[n-1]-x[0]). |
| Riemann.TrapezoidOverestimatesSquare | riemann.py:9-11 | For f(t) = t² on a strictly increasing grid, the trapezoid rule is strictly greater than the exact (x[n-1]³-x[0]³)/3. |
| Riemann.SplitAdditive | riemann.py:4-11 | Both rules over x[..j+1] plus over x[j..] equal the rule over x. |
| Riemann.NonNegativeIntegrand | riemann.py:4-11 | On a strictly increasing grid, f ≥ 0 gives results ≥ 0. |
| Simpson.Simpson | simpson.py:1-5 | A grid with fewer than two points gives empty arrays and the result 0. |
| Simpson.SimpsonIsIndexedSum | simpson.py:2-5 | The rule is the sum over i < n-1 of (x[i+1]-x[i])·(f(x[i])+4f((x[i]+x[i+1])/2)+f(x[i+1]))/6. |
| Simpson.TwoPoints | simpson.py:2-5 | The grid [a, b] gives the single term (b-a)/6·(f(a)+4f((a+b)/2)+f(b)). |
| Simpson.IdentityWeights | simpson.py:5 | The weights 1, 4, 1 at a, the midpoint and b, times (b-a)/6, integrate t exactly over [a, b]. |
| Simpson.SquareWeights | simpson.py:5 | The same weights integrate t² exactly over [a, b]. |
| Simpson.CubeWeights | simpson.py:5 | The same weights integrate t³ exactly over [a, b]. |
| Simpson.CubicPanel | simpson.py:4-5 | One panel of a cubic integrand equals the increase of its antiderivative over the panel. |
| Simpson.CubicExact | simpson.py:2-5 | For any cubic c3t³+c2t²+c1t+c0, Simpson's rule returns the exact integral from x[0] to x[n-1]. |
| Simpson.ConstantExact | simpson.py:5 | For f ≡ c the rule returns c·(x[n-1]-x[0]). |
| Simpson.SquareExact | simpson.py:4-5 | For f(t) = t² the rule returns (x[n-1]³-x[0]³)/3. |
| Simpson.CubeExact | simpson.py:4-5 | For f(t) = t³ the rule returns (x[n-1]⁴-x[0]⁴)/4. |
| Simpson.SplitAdditive | simpson.py:2-5 | The rule over x[..j+1] plus over x[j..] equals the rule over x. |
| Simpson.NonNegativeIntegrand | simpson.py:2-5 | On a strictly increasing grid, f ≥ 0 gives a result ≥ 0. |

## Left out

- Floating point: all arithmetic is exact `real`. Rounding and the conditioning of numpy's LU-based solver are not modelled, and "singular" means a determinant of exactly 0. A nearly singular float system that numpy solves with large errors has no counterpart.
- The message printed by `get_barycentric_coordinates` for a triangle that is not 2x3 is output only. The model keeps only the returned `None`.
- numpy conversion of nested lists:
  - The triangle is a sequence of rows. A ragged list of rows counts as "not 2x3", as in numpy versions that build an object array from it.
  - A 2-D row-vector point or coefficient array (shape 1x2 or 1x3) is not modelled. Points and coefficients are flat sequences.
  - The point and coefficient entries are reals. Non-numeric entries, which numpy would raise on, are not modelled.
- numpy broadcasting and ufunc vectorisation: the integrand applied to an array is the integrand applied to each element. Integrands that behave differently on arrays are not modelled.
- `simpson.py` references `np` without importing numpy, so importing the file fails with NameError. The model gives the formula the file evidently intends.
- Grid validation: the source has none, so the rules take any sequence.
- Barycentric.MatMul: a matrix with no rows and an empty vector is a product of two empty one-dimensional arrays, for which numpy returns the scalar 0.0. The model raises ValueError there, because its results are vectors; only `get_cartesian_coordinates` on an empty triangle and empty coefficients reaches this case.
