/** Sample grids and composite sums over them, over exact reals.

    A grid is a sequence of reals. Each quadrature rule computes one panel
    value per pair of consecutive grid points (x[i], x[i+1]), from the
    arrays x[:-1] and x[1:], and adds them up with np.sum. Composite is that
    sum, written as a recursion over the grid with the integrand applied
    point by point. The lemmas about it (splitting, telescoping, linearity,
    sign) are shared by all three rules. */
module Grid {

  /** The sum over consecutive grid pairs of panel(x[i], x[i+1]); a grid
      with fewer than two points has no intervals and gives 0. */
  function Composite(x: seq<real>, panel: (real, real) -> real): real
    decreases |x|
  {
    if |x| < 2 then 0.0 else panel(x[0], x[1]) + Composite(x[1..], panel)
  }

  /** The first n panels, in index order: the sum over i < n of
      panel(x[i], x[i+1]). */
  function IndexedSum(x: seq<real>, panel: (real, real) -> real, n: nat): real
    requires n < |x|
    decreases n
  {
    if n == 0 then 0.0 else IndexedSum(x, panel, n - 1) + panel(x[n - 1], x[n])
  }

  /** np.sum over the arrays x[:-1] and x[1:]: every panel of the grid,
      added in index order, and 0 for a grid without intervals. With exact
      arithmetic the order in which np.sum adds is irrelevant. */
  function SumOverPairs(x: seq<real>, panel: (real, real) -> real): real {
    if |x| == 0 then 0.0 else IndexedSum(x, panel, |x| - 1)
  }

  /** Dropping the first grid point removes the first panel. */
  lemma {:induction false} IndexedSumShift(x: seq<real>, panel: (real, real) -> real, n: nat)
    requires 1 <= n < |x|
    ensures IndexedSum(x, panel, n) == panel(x[0], x[1]) + IndexedSum(x[1..], panel, n - 1)
    decreases n
  {
    if n > 1 {
      IndexedSumShift(x, panel, n - 1);
      assert x[1..][n - 2] == x[n - 1] && x[1..][n - 1] == x[n];
    }
  }

  /** The recursion over the grid adds up the same panels as the index
      order. */
  lemma {:induction false} CompositeIsSumOverPairs(x: seq<real>, panel: (real, real) -> real)
    ensures Composite(x, panel) == SumOverPairs(x, panel)
    decreases |x|
  {
    if |x| >= 2 {
      CompositeIsSumOverPairs(x[1..], panel);
      IndexedSumShift(x, panel, |x| - 1);
    }
  }

  /** The grid is strictly increasing. */
  predicate StrictlyIncreasing(x: seq<real>) {
    forall i, j :: 0 <= i < j < |x| ==> x[i] < x[j]
  }

  /** Splitting the grid at point j: the two sub-grids share x[j], and their
      sums add up to the sum over the whole grid. */
  lemma {:induction false} Split(x: seq<real>, panel: (real, real) -> real, j: nat)
    requires j < |x|
    ensures Composite(x[..j + 1], panel) + Composite(x[j..], panel) == Composite(x, panel)
    decreases j
  {
    if j > 0 {
      Split(x[1..], panel, j - 1);
      assert x[1..][..j] == x[..j + 1][1..];
      assert x[1..][j - 1..] == x[j..];
    }
  }

  /** Telescoping: when every panel is the increase of some F over its
      interval, the sum is the increase of F from the first to the last
      point. */
  lemma {:induction false} Telescope(x: seq<real>, panel: (real, real) -> real, F: real -> real)
    requires |x| >= 1
    requires forall a, b :: panel(a, b) == F(b) - F(a)
    ensures Composite(x, panel) == F(x[|x| - 1]) - F(x[0])
    decreases |x|
  {
    if |x| >= 2 {
      Telescope(x[1..], panel, F);
    }
  }

  /** Linearity: when each panel of p is c1 times a p1 panel plus c2 times
      a p2 panel, the same holds for the sums. */
  lemma {:induction false} Linear(x: seq<real>, p: (real, real) -> real,
                                  c1: real, p1: (real, real) -> real, c2: real, p2: (real, real) -> real)
    requires forall a, b :: p(a, b) == c1 * p1(a, b) + c2 * p2(a, b)
    ensures Composite(x, p) == c1 * Composite(x, p1) + c2 * Composite(x, p2)
    decreases |x|
  {
    if |x| >= 2 {
      Linear(x[1..], p, c1, p1, c2, p2);
    }
  }

  /** Sums whose panels agree whenever the left end is a grid point other
      than the last are equal. */
  lemma {:induction false} SamePanels(x: seq<real>, p: (real, real) -> real, q: (real, real) -> real)
    requires forall i, b :: 0 <= i < |x| - 1 ==> p(x[i], b) == q(x[i], b)
    ensures Composite(x, p) == Composite(x, q)
    decreases |x|
  {
    if |x| >= 2 {
      var b := x[1];
      assert 0 < |x| - 1;
      assert p(x[0], b) == q(x[0], b);
      SamePanels(x[1..], p, q);
    }
  }

  /** On a strictly increasing grid, panels that are positive on every
      proper interval give a sum that is at least 0, and positive as soon
      as there is one interval. */
  lemma {:induction false} Positive(x: seq<real>, panel: (real, real) -> real)
    requires StrictlyIncreasing(x)
    requires forall a, b :: a < b ==> panel(a, b) > 0.0
    ensures Composite(x, panel) >= 0.0
    ensures |x| >= 2 ==> Composite(x, panel) > 0.0
    decreases |x|
  {
    if |x| >= 2 {
      Positive(x[1..], panel);
    }
  }

  /** The same with panels that are only non-negative. */
  lemma {:induction false} NonNegative(x: seq<real>, panel: (real, real) -> real)
    requires StrictlyIncreasing(x)
    requires forall a, b :: a < b ==> panel(a, b) >= 0.0
    ensures Composite(x, panel) >= 0.0
    decreases |x|
  {
    if |x| >= 2 {
      NonNegative(x[1..], panel);
    }
  }
}
