/** The left-endpoint and trapezoid rules of riemann.py.

    Each rule is a composite sum of one panel per interval of the grid; the
    integrand applied to an array is the integrand applied point by point.
    The properties of the rules (constant and linear integrands, splitting
    the grid, sign, the link between the two rules) are proved about those
    sums. The grid is not checked for order, so on an unordered grid the
    rules are signed sums. */
module Riemann {
  import opened Grid

  /** The left-endpoint panel of an interval [a, b]: width times f(a). */
  function LeftPanel(f: real -> real): (real, real) -> real {
    (a: real, b: real) => (b - a) * f(a)
  }

  /** The right-endpoint panel of an interval [a, b]: width times f(b).
      The Python code has no right-endpoint rule; it serves to state what
      the trapezoid rule is. */
  function RightPanel(f: real -> real): (real, real) -> real {
    (a: real, b: real) => (b - a) * f(b)
  }

  /** The trapezoid panel of an interval [a, b]: width times the mean of
      f(a) and f(b). */
  function TrapezoidPanel(f: real -> real): (real, real) -> real {
    (a: real, b: real) => (b - a) * ((f(a) + f(b)) / 2.0)
  }

  /** left_endpoint: the widths np.diff(x) times the heights f(x[:-1]),
      summed. A grid with fewer than two points has no intervals and gives
      the empty sum 0. */
  function LeftEndpoint(x: seq<real>, f: real -> real): (r: real)
    ensures |x| < 2 ==> r == 0.0
  {
    Composite(x, LeftPanel(f))
  }

  /** trapezoid: the widths np.diff(x) times the mean heights
      (f(x[:-1]) + f(x[1:])) / 2, summed. A grid with fewer than two points
      gives 0. */
  function Trapezoid(x: seq<real>, f: real -> real): (r: real)
    ensures |x| < 2 ==> r == 0.0
  {
    Composite(x, TrapezoidPanel(f))
  }

  /** The right-endpoint sum, the mirror image of LeftEndpoint. */
  function RightEndpoint(x: seq<real>, f: real -> real): real {
    Composite(x, RightPanel(f))
  }

  /** Both rules are the np.sum of their panels over x[:-1] and x[1:], in
      index order: the sum over i < n - 1 of (x[i+1] - x[i]) f(x[i]), and of
      (x[i+1] - x[i]) (f(x[i]) + f(x[i+1])) / 2. */
  lemma RulesAreIndexedSums(x: seq<real>, f: real -> real)
    ensures LeftEndpoint(x, f) == SumOverPairs(x, LeftPanel(f))
    ensures Trapezoid(x, f) == SumOverPairs(x, TrapezoidPanel(f))
  {
    CompositeIsSumOverPairs(x, LeftPanel(f));
    CompositeIsSumOverPairs(x, TrapezoidPanel(f));
  }

  /** A two-point grid [a, b] gives a single panel. */
  lemma TwoPoints(a: real, b: real, f: real -> real)
    ensures LeftEndpoint([a, b], f) == (b - a) * f(a)
    ensures Trapezoid([a, b], f) == (b - a) * ((f(a) + f(b)) / 2.0)
  {
    assert [a, b][1..] == [b];
    assert Composite([b], LeftPanel(f)) == 0.0;
    assert Composite([b], TrapezoidPanel(f)) == 0.0;
  }

  /** The left-endpoint rule never evaluates f at the last grid point:
      integrands that agree on every other point give the same sum. */
  lemma LeftIgnoresLastPoint(x: seq<real>, f: real -> real, g: real -> real)
    requires forall i :: 0 <= i < |x| - 1 ==> f(x[i]) == g(x[i])
    ensures LeftEndpoint(x, f) == LeftEndpoint(x, g)
  {
    forall i, b | 0 <= i < |x| - 1 ensures LeftPanel(f)(x[i], b) == LeftPanel(g)(x[i], b) {
      assert f(x[i]) == g(x[i]);
    }
    SamePanels(x, LeftPanel(f), LeftPanel(g));
  }

  /** A constant integrand f = c is integrated exactly by both rules: the
      sum telescopes to c times the length of the grid. */
  lemma ConstantExact(x: seq<real>, f: real -> real, c: real)
    requires |x| >= 1
    requires forall t :: f(t) == c
    ensures LeftEndpoint(x, f) == c * (x[|x| - 1] - x[0])
    ensures Trapezoid(x, f) == c * (x[|x| - 1] - x[0])
  {
    var F := (t: real) => c * t;
    forall a, b ensures LeftPanel(f)(a, b) == F(b) - F(a) && TrapezoidPanel(f)(a, b) == F(b) - F(a) {
      ConstantPanels(a, b, f(a), f(b), c);
    }
    Telescope(x, LeftPanel(f), F);
    Telescope(x, TrapezoidPanel(f), F);
  }

  /** The left and trapezoid panels of a constant c over [a, b]. */
  lemma ConstantPanels(a: real, b: real, fa: real, fb: real, c: real)
    requires fa == c && fb == c
    ensures (b - a) * fa == c * b - c * a
    ensures (b - a) * ((fa + fb) / 2.0) == c * b - c * a
  {
  }

  /** The trapezoid rule is the mean of the left-endpoint and the
      right-endpoint sums. */
  lemma TrapezoidIsMean(x: seq<real>, f: real -> real)
    ensures Trapezoid(x, f) == (LeftEndpoint(x, f) + RightEndpoint(x, f)) / 2.0
  {
    forall a, b ensures TrapezoidPanel(f)(a, b) == 0.5 * LeftPanel(f)(a, b) + 0.5 * RightPanel(f)(a, b) {
      MeanPanelOf(f, a, b);
    }
    Linear(x, TrapezoidPanel(f), 0.5, LeftPanel(f), 0.5, RightPanel(f));
  }

  /** Each trapezoid panel is the mean of the left and right panels. */
  lemma MeanPanelOf(f: real -> real, a: real, b: real)
    ensures TrapezoidPanel(f)(a, b) == 0.5 * LeftPanel(f)(a, b) + 0.5 * RightPanel(f)(a, b)
  {
    MeanPanel(a, b, f(a), f(b));
  }

  /** A width times the mean of two heights is the mean of the two
      rectangles. */
  lemma MeanPanel(a: real, b: real, u: real, v: real)
    ensures (b - a) * ((u + v) / 2.0) == 0.5 * ((b - a) * u) + 0.5 * ((b - a) * v)
  {
  }

  /** A linear integrand f(t) = m t + k is integrated exactly by the
      trapezoid rule. */
  lemma TrapezoidLinearExact(x: seq<real>, f: real -> real, m: real, k: real)
    requires |x| >= 1
    requires forall t :: f(t) == m * t + k
    ensures Trapezoid(x, f) == m * (x[|x| - 1] * x[|x| - 1] - x[0] * x[0]) / 2.0 + k * (x[|x| - 1] - x[0])
  {
    var F := (t: real) => m * t * t / 2.0 + k * t;
    forall a, b ensures TrapezoidPanel(f)(a, b) == F(b) - F(a) {
      LinearPanel(a, b, f(a), f(b), m, k);
    }
    Telescope(x, TrapezoidPanel(f), F);
  }

  /** The trapezoid panel of t -> m t + k over [a, b] is the increase of
      m t^2 / 2 + k t. */
  lemma LinearPanel(a: real, b: real, fa: real, fb: real, m: real, k: real)
    requires fa == m * a + k && fb == m * b + k
    ensures (b - a) * ((fa + fb) / 2.0) == (m * b * b / 2.0 + k * b) - (m * a * a / 2.0 + k * a)
  {
    assert (b - a) * (m * a + m * b) == m * (b * b - a * a);
  }

  /** t^3 / 3, an antiderivative of t^2. */
  function CubeThird(t: real): real {
    t * t * t / 3.0
  }

  /** What a trapezoid panel adds to the exact integral of t^2 over an
      interval [a, b]: (b - a)^3 / 6. */
  function ChordExcess(a: real, b: real): real {
    (b - a) * (b - a) * (b - a) / 6.0
  }

  /** The exact integral of t^2 over [a, b]. */
  function CubeIncrease(a: real, b: real): real {
    CubeThird(b) - CubeThird(a)
  }

  /** For f(t) = t^2 on a strictly increasing grid with at least one
      interval, the trapezoid rule overestimates the integral
      (x[n-1]^3 - x[0]^3) / 3: a convex integrand lies below its chords. */
  lemma TrapezoidOverestimatesSquare(x: seq<real>, f: real -> real)
    requires |x| >= 2 && StrictlyIncreasing(x)
    requires forall t :: f(t) == t * t
    ensures Trapezoid(x, f) > (x[|x| - 1] * x[|x| - 1] * x[|x| - 1] - x[0] * x[0] * x[0]) / 3.0
  {
    SquareSplit(x, f);
    Telescope(x, CubeIncrease, CubeThird);
    ExcessPositive(x);
    CubeThirdDifference(x[|x| - 1], x[0]);
  }

  /** For f(t) = t^2 the trapezoid sum is the exact integral plus the sum
      of the chord excesses. */
  lemma SquareSplit(x: seq<real>, f: real -> real)
    requires forall t :: f(t) == t * t
    ensures Trapezoid(x, f) == 1.0 * Composite(x, CubeIncrease) + 1.0 * Composite(x, ChordExcess)
  {
    forall a, b ensures TrapezoidPanel(f)(a, b) == 1.0 * CubeIncrease(a, b) + 1.0 * ChordExcess(a, b) {
      SquarePanelOf(f, a, b);
    }
    Linear(x, TrapezoidPanel(f), 1.0, CubeIncrease, 1.0, ChordExcess);
  }

  /** The trapezoid panel of an integrand equal to t^2. */
  lemma SquarePanelOf(f: real -> real, a: real, b: real)
    requires forall t :: f(t) == t * t
    ensures TrapezoidPanel(f)(a, b) == 1.0 * CubeIncrease(a, b) + 1.0 * ChordExcess(a, b)
  {
    SquarePanel(a, b, f(a), f(b));
  }

  /** On a strictly increasing grid with an interval the chord excesses
      add up to a positive amount. */
  lemma ExcessPositive(x: seq<real>)
    requires |x| >= 2 && StrictlyIncreasing(x)
    ensures Composite(x, ChordExcess) > 0.0
  {
    forall a: real, b: real | a < b ensures ChordExcess(a, b) > 0.0 {
      CubePositive(b - a);
    }
    Positive(x, ChordExcess);
  }

  /** The trapezoid panel of t -> t^2 over [a, b] is the exact integral
      plus (b - a)^3 / 6. */
  lemma SquarePanel(a: real, b: real, fa: real, fb: real)
    requires fa == a * a && fb == b * b
    ensures (b - a) * ((fa + fb) / 2.0) == 1.0 * CubeIncrease(a, b) + 1.0 * ChordExcess(a, b)
  {
  }

  /** The cube of a positive width is positive. */
  lemma CubePositive(w: real)
    requires w > 0.0
    ensures w * w * w / 6.0 > 0.0
  {
    assert w * w > 0.0;
  }

  /** The increase of t^3 / 3 from v to u. */
  lemma CubeThirdDifference(u: real, v: real)
    ensures CubeThird(u) - CubeThird(v) == (u * u * u - v * v * v) / 3.0
  {
  }

  /** Splitting the grid at point j adds up: the rule over x[..j+1] plus the
      rule over x[j..] (the two share x[j]) is the rule over x. */
  lemma SplitAdditive(x: seq<real>, f: real -> real, j: nat)
    requires j < |x|
    ensures LeftEndpoint(x[..j + 1], f) + LeftEndpoint(x[j..], f) == LeftEndpoint(x, f)
    ensures Trapezoid(x[..j + 1], f) + Trapezoid(x[j..], f) == Trapezoid(x, f)
  {
    Split(x, LeftPanel(f), j);
    Split(x, TrapezoidPanel(f), j);
  }

  /** On a strictly increasing grid a non-negative integrand gives
      non-negative results. */
  lemma NonNegativeIntegrand(x: seq<real>, f: real -> real)
    requires StrictlyIncreasing(x)
    requires forall t :: f(t) >= 0.0
    ensures LeftEndpoint(x, f) >= 0.0 && Trapezoid(x, f) >= 0.0
  {
    forall a: real, b: real | a < b ensures LeftPanel(f)(a, b) >= 0.0 && TrapezoidPanel(f)(a, b) >= 0.0 {
      assert f(a) >= 0.0 && f(b) >= 0.0;
    }
    NonNegative(x, LeftPanel(f));
    NonNegative(x, TrapezoidPanel(f));
  }
}
