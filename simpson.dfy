/** The composite Simpson rule of simpson.py.

    Each interval [a, b] of the grid contributes (b - a) / 6 times
    f(a) + 4 f((a + b) / 2) + f(b), and the rule is the sum of those panels.
    The rule integrates every polynomial of degree at most 3 exactly; this is
    proved panel by panel and then telescoped over the grid. */
module Simpson {
  import opened Grid

  /** The midpoint of an interval [a, b]. */
  function Mid(a: real, b: real): real {
    (a + b) / 2.0
  }

  /** The Simpson panel of an interval [a, b]. */
  function SimpsonPanel(f: real -> real): (real, real) -> real {
    (a: real, b: real) => (b - a) * (f(a) + 4.0 * f(Mid(a, b)) + f(b)) / 6.0
  }

  /** simpson: the panels over the pairs (x[:-1], x[1:]), summed. A grid
      with fewer than two points gives empty arrays and the empty sum 0. */
  function Simpson(x: seq<real>, f: real -> real): (r: real)
    ensures |x| < 2 ==> r == 0.0
  {
    Composite(x, SimpsonPanel(f))
  }

  /** The rule is the np.sum of its panels over x[:-1] and x[1:], in index
      order: the sum over i < n - 1 of
      (x[i+1] - x[i]) (f(x[i]) + 4 f((x[i] + x[i+1]) / 2) + f(x[i+1])) / 6. */
  lemma SimpsonIsIndexedSum(x: seq<real>, f: real -> real)
    ensures Simpson(x, f) == SumOverPairs(x, SimpsonPanel(f))
  {
    CompositeIsSumOverPairs(x, SimpsonPanel(f));
  }

  /** A two-point grid [a, b] gives a single panel. */
  lemma TwoPoints(a: real, b: real, f: real -> real)
    ensures Simpson([a, b], f) == (b - a) / 6.0 * (f(a) + 4.0 * f(Mid(a, b)) + f(b))
  {
    assert [a, b][1..] == [b];
    assert Composite([b], SimpsonPanel(f)) == 0.0;
    assert Simpson([a, b], f) == SimpsonPanel(f)(a, b) + Composite([b], SimpsonPanel(f));
    assert SimpsonPanel(f)(a, b) == (b - a) * (f(a) + 4.0 * f(Mid(a, b)) + f(b)) / 6.0;
  }

  /** The value of one Simpson panel. */
  lemma PanelValue(f: real -> real, a: real, b: real)
    ensures SimpsonPanel(f)(a, b) == (b - a) * (f(a) + 4.0 * f(Mid(a, b)) + f(b)) / 6.0
  {
  }

  /** t raised to the power k. */
  function Pow(t: real, k: nat): real {
    if k == 0 then 1.0 else t * Pow(t, k - 1)
  }

  /** The cubic polynomial c3 t^3 + c2 t^2 + c1 t + c0. */
  function Cubic(c3: real, c2: real, c1: real, c0: real, t: real): real {
    c3 * Pow(t, 3) + c2 * Pow(t, 2) + c1 * t + c0
  }

  /** An antiderivative of Cubic(c3, c2, c1, c0, _). */
  function CubicIntegral(c3: real, c2: real, c1: real, c0: real, t: real): real {
    c3 * Pow(t, 4) / 4.0 + c2 * Pow(t, 3) / 3.0 + c1 * Pow(t, 2) / 2.0 + c0 * t
  }

  /** Simpson's rule is exact for every polynomial of degree at most 3: on
      any grid with at least one point the result is the increase of the
      antiderivative from the first to the last point. */
  lemma CubicExact(x: seq<real>, f: real -> real, c3: real, c2: real, c1: real, c0: real)
    requires |x| >= 1
    requires forall t :: f(t) == Cubic(c3, c2, c1, c0, t)
    ensures Simpson(x, f) == CubicIntegral(c3, c2, c1, c0, x[|x| - 1]) - CubicIntegral(c3, c2, c1, c0, x[0])
  {
    var F := (t: real) => CubicIntegral(c3, c2, c1, c0, t);
    forall a, b ensures SimpsonPanel(f)(a, b) == F(b) - F(a) {
      CubicPanelOf(f, c3, c2, c1, c0, a, b);
    }
    Telescope(x, SimpsonPanel(f), F);
  }

  /** The Simpson panel of an integrand equal to a cubic. */
  lemma CubicPanelOf(f: real -> real, c3: real, c2: real, c1: real, c0: real, a: real, b: real)
    requires forall t :: f(t) == Cubic(c3, c2, c1, c0, t)
    ensures SimpsonPanel(f)(a, b) == CubicIntegral(c3, c2, c1, c0, b) - CubicIntegral(c3, c2, c1, c0, a)
  {
    PanelValue(f, a, b);
    CubicPanel(a, b, f(a), f(Mid(a, b)), f(b), c3, c2, c1, c0);
  }

  /** One Simpson panel of a cubic is the exact integral over the panel. */
  lemma CubicPanel(a: real, b: real, fa: real, fm: real, fb: real, c3: real, c2: real, c1: real, c0: real)
    requires fa == Cubic(c3, c2, c1, c0, a)
    requires fm == Cubic(c3, c2, c1, c0, Mid(a, b))
    requires fb == Cubic(c3, c2, c1, c0, b)
    ensures (b - a) * (fa + 4.0 * fm + fb) / 6.0 == CubicIntegral(c3, c2, c1, c0, b) - CubicIntegral(c3, c2, c1, c0, a)
  {
    var m := Mid(a, b);
    CubeWeights(a, m, b);
    SquareWeights(a, m, b);
    IdentityWeights(a, m, b);
    Combine(b - a, c3, c2, c1, c0, Pow(a, 3), Pow(m, 3), Pow(b, 3), Pow(a, 2), Pow(m, 2), Pow(b, 2), a, m, b,
            Pow(b, 4) / 4.0 - Pow(a, 4) / 4.0, Pow(b, 3) / 3.0 - Pow(a, 3) / 3.0,
            Pow(b, 2) / 2.0 - Pow(a, 2) / 2.0, fa, fm, fb,
            CubicIntegral(c3, c2, c1, c0, b) - CubicIntegral(c3, c2, c1, c0, a));
  }

  /** The Simpson weights are linear in the integrand: when each of the three
      values is c3 times a cube, c2 times a square, c1 times a value and c0,
      and the weights integrate each monomial exactly, they integrate the
      combination exactly. */
  lemma Combine(w: real, c3: real, c2: real, c1: real, c0: real,
                a3: real, m3: real, b3: real, a2: real, m2: real, b2: real, a1: real, m1: real, b1: real,
                e3: real, e2: real, e1: real, fa: real, fm: real, fb: real, r: real)
    requires fa == c3 * a3 + c2 * a2 + c1 * a1 + c0
    requires fm == c3 * m3 + c2 * m2 + c1 * m1 + c0
    requires fb == c3 * b3 + c2 * b2 + c1 * b1 + c0
    requires w * (a3 + 4.0 * m3 + b3) / 6.0 == e3
    requires w * (a2 + 4.0 * m2 + b2) / 6.0 == e2
    requires w * (a1 + 4.0 * m1 + b1) / 6.0 == e1
    requires r == c3 * e3 + c2 * e2 + c1 * e1 + c0 * w
    ensures w * (fa + 4.0 * fm + fb) / 6.0 == r
  {
    assert fa + 4.0 * fm + fb == c3 * (a3 + 4.0 * m3 + b3) + c2 * (a2 + 4.0 * m2 + b2) + c1 * (a1 + 4.0 * m1 + b1) + 6.0 * c0;
  }

  /** Simpson's weights 1, 4, 1 at a, the midpoint m and b integrate t
      exactly over [a, b]. */
  lemma IdentityWeights(a: real, m: real, b: real)
    requires m == (a + b) / 2.0
    ensures (b - a) * (a + 4.0 * m + b) / 6.0 == Pow(b, 2) / 2.0 - Pow(a, 2) / 2.0
  {
    Square(a);
    Square(b);
  }

  /** The same weights integrate t^2 exactly. */
  lemma SquareWeights(a: real, m: real, b: real)
    requires m == (a + b) / 2.0
    ensures (b - a) * (Pow(a, 2) + 4.0 * Pow(m, 2) + Pow(b, 2)) / 6.0 == Pow(b, 3) / 3.0 - Pow(a, 3) / 3.0
  {
    SquareArithmetic(a, m, b, Pow(a, 2), Pow(m, 2), Pow(b, 2), Pow(a, 3), Pow(b, 3)) by {
      Square(a); Square(m); Square(b); Cube(a); Cube(b);
    }
  }

  /** The same weights integrate t^3 exactly. */
  lemma CubeWeights(a: real, m: real, b: real)
    requires m == (a + b) / 2.0
    ensures (b - a) * (Pow(a, 3) + 4.0 * Pow(m, 3) + Pow(b, 3)) / 6.0 == Pow(b, 4) / 4.0 - Pow(a, 4) / 4.0
  {
    CubeArithmetic(a, m, b, Pow(a, 3), Pow(m, 3), Pow(b, 3), Pow(a, 4), Pow(b, 4)) by {
      Cube(a); Cube(m); Cube(b); Fourth(a); Fourth(b);
    }
  }

  /** The polynomial identity behind SquareWeights, with the powers named. */
  lemma SquareArithmetic(a: real, m: real, b: real, a2: real, m2: real, b2: real, a3: real, b3: real)
    requires m == (a + b) / 2.0
    requires a2 == a * a && m2 == m * m && b2 == b * b && a3 == a * a * a && b3 == b * b * b
    ensures (b - a) * (a2 + 4.0 * m2 + b2) / 6.0 == b3 / 3.0 - a3 / 3.0
  {
    assert 4.0 * m2 == (a + b) * (a + b);
  }

  /** The polynomial identity behind CubeWeights, with the powers named. */
  lemma CubeArithmetic(a: real, m: real, b: real, a3: real, m3: real, b3: real, a4: real, b4: real)
    requires m == (a + b) / 2.0
    requires a3 == a * a * a && m3 == m * m * m && b3 == b * b * b && a4 == a * a * a * a && b4 == b * b * b * b
    ensures (b - a) * (a3 + 4.0 * m3 + b3) / 6.0 == b4 / 4.0 - a4 / 4.0
  {
    assert 4.0 * m3 == (a + b) * (a + b) * (a + b) / 2.0;
    assert a3 + b3 + (a + b) * (a + b) * (a + b) / 2.0 == 1.5 * ((a + b) * (a * a + b * b));
    assert (b - a) * ((a + b) * (a * a + b * b)) == b4 - a4;
  }

  /** Pow agrees with repeated multiplication for exponents 2, 3 and 4. */
  lemma Square(t: real)
    ensures Pow(t, 2) == t * t
  {
    assert Pow(t, 1) == t;
  }

  lemma Cube(t: real)
    ensures Pow(t, 3) == t * t * t
  {
    Square(t);
    assert Pow(t, 3) == t * Pow(t, 2);
  }

  lemma Fourth(t: real)
    ensures Pow(t, 4) == t * t * t * t
  {
    Cube(t);
    assert Pow(t, 4) == t * Pow(t, 3);
  }

  /** A constant integrand f = c is integrated exactly: the result is c times
      the length of the grid. */
  lemma ConstantExact(x: seq<real>, f: real -> real, c: real)
    requires |x| >= 1
    requires forall t :: f(t) == c
    ensures Simpson(x, f) == c * (x[|x| - 1] - x[0])
  {
    CubicExact(x, f, 0.0, 0.0, 0.0, c);
  }

  /** For f(t) = t^2 the rule returns (x[n-1]^3 - x[0]^3) / 3 exactly. */
  lemma SquareExact(x: seq<real>, f: real -> real)
    requires |x| >= 1
    requires forall t :: f(t) == Pow(t, 2)
    ensures Simpson(x, f) == (Pow(x[|x| - 1], 3) - Pow(x[0], 3)) / 3.0
  {
    CubicExact(x, f, 0.0, 1.0, 0.0, 0.0);
  }

  /** For f(t) = t^3 the rule returns (x[n-1]^4 - x[0]^4) / 4 exactly. */
  lemma CubeExact(x: seq<real>, f: real -> real)
    requires |x| >= 1
    requires forall t :: f(t) == Pow(t, 3)
    ensures Simpson(x, f) == (Pow(x[|x| - 1], 4) - Pow(x[0], 4)) / 4.0
  {
    CubicExact(x, f, 1.0, 0.0, 0.0, 0.0);
  }

  /** Splitting the grid at point j adds up. */
  lemma SplitAdditive(x: seq<real>, f: real -> real, j: nat)
    requires j < |x|
    ensures Simpson(x[..j + 1], f) + Simpson(x[j..], f) == Simpson(x, f)
  {
    Split(x, SimpsonPanel(f), j);
  }

  /** On a strictly increasing grid a non-negative integrand gives a
      non-negative result. */
  lemma NonNegativeIntegrand(x: seq<real>, f: real -> real)
    requires StrictlyIncreasing(x)
    requires forall t :: f(t) >= 0.0
    ensures Simpson(x, f) >= 0.0
  {
    forall a: real, b: real | a < b ensures SimpsonPanel(f)(a, b) >= 0.0 {
      NonNegativeProduct(b - a, f(a) + 4.0 * f(Mid(a, b)) + f(b));
    }
    NonNegative(x, SimpsonPanel(f));
  }

  /** A non-negative width times a non-negative height. */
  lemma NonNegativeProduct(w: real, s: real)
    requires w >= 0.0 && s >= 0.0
    ensures w * s >= 0.0
  {
  }
}
