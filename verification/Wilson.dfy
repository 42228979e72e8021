/** The Wilson score interval of a binomial proportion (runtime/quality.py, evals/stats.py), over
    reals. The square root is an argument: any nonnegative number whose square is the radicand. */
module Wilson {
  import opened Common
  import opened Rounding

  datatype Interval = Interval(lower: real, upper: real)

  function Proportion(k: int, n: int): real
    requires n > 0
  {
    k as real / n as real
  }

  function Sq(x: real): real {
    x * x
  }

  function Spread(x: real): real {
    x * (1.0 - x)
  }

  function Radicand(k: int, n: int, z: real): real
    requires n > 0
  {
    Spread(Proportion(k, n)) / n as real + Sq(z) / (4.0 * n as real * n as real)
  }

  predicate IsRoot(root: real, radicand: real) {
    root >= 0.0 && Sq(root) == radicand
  }

  function Clamp(x: real): real {
    if x < 0.0 then 0.0 else if x > 1.0 then 1.0 else x
  }

  /** z^2 / n */
  function Share(n: int, z: real): real
    requires n > 0
  {
    Sq(z) / n as real
  }

  function Denominator(n: int, z: real): (d: real)
    requires n > 0
    ensures d >= 1.0
  {
    ShareIsPositive(n, z);
    1.0 + Share(n, z)
  }

  lemma SquareIsNonNegative(x: real)
    ensures Sq(x) >= 0.0
    ensures x > 0.0 ==> Sq(x) > 0.0
  {
    if x > 0.0 {
      assert Sq(x) / x == x;
    }
  }

  lemma ShareIsPositive(n: int, z: real)
    requires n > 0
    ensures Share(n, z) >= 0.0
    ensures z > 0.0 ==> Share(n, z) > 0.0
  {
    SquareIsNonNegative(z);
    assert Share(n, z) * n as real == Sq(z);
  }

  function Center(k: int, n: int, z: real): real
    requires n > 0
  {
    (Proportion(k, n) + Sq(z) / (2.0 * n as real)) / Denominator(n, z)
  }

  function Margin(n: int, z: real, root: real): real
    requires n > 0
  {
    z / Denominator(n, z) * root
  }

  /** The formula, clamped as the code does. */
  function Score(k: int, n: int, z: real, root: real): Interval
    requires n > 0
  {
    Interval(Clamp(Center(k, n, z) - Margin(n, z, root)), Clamp(Center(k, n, z) + Margin(n, z, root)))
  }

  // ----- the quadratic ------------------------------------------------------------------------------

  /** The score test does not reject x after observing p: (p - x)^2 <= q * x * (1 - x), q = z^2 / n. */
  predicate Plausible(p: real, q: real, x: real) {
    Sq(p - x) <= q * Spread(x)
  }

  predicate OnTheEdge(p: real, q: real, x: real) {
    Sq(p - x) == q * Spread(x)
  }

  /** Completing the square: plausibility of x compares (1 + q) * x - (p + q / 2), squared, with
      q * p * (1 - p) + q^2 / 4. */
  lemma CompleteTheSquare(p: real, q: real, d: real, x: real)
    requires q > 0.0 && d == 1.0 + q
    ensures var y := d * x - (p + q / 2.0);
      var rr := q * Spread(p) + Sq(q) / 4.0;
      && (Plausible(p, q, x) <==> Sq(y) <= rr)
      && (OnTheEdge(p, q, x) <==> Sq(y) == rr)
  {
    SquareIdentity(p, q, d, x);
    SignOfProduct(d, Sq(p - x) - q * Spread(x));
  }

  lemma SquareIdentity(p: real, q: real, d: real, x: real)
    requires d == 1.0 + q
    ensures Sq(d * x - (p + q / 2.0)) - (q * Spread(p) + Sq(q) / 4.0) == d * (Sq(p - x) - q * Spread(x))
  {
  }

  lemma SignOfProduct(a: real, b: real)
    requires a > 0.0
    ensures a * b <= 0.0 <==> b <= 0.0
    ensures a * b == 0.0 <==> b == 0.0
  {
  }

  lemma SquareOrder(y: real, r: real)
    requires r >= 0.0
    ensures Sq(y) <= Sq(r) <==> -r <= y <= r
    ensures Sq(y) == Sq(r) <==> y == r || y == -r
  {
    assert Sq(r) - Sq(y) == (r - y) * (r + y);
    if y > r {
      assert (y - r) * (y + r) > 0.0;
    } else if y < -r {
      assert (r - y) * (-r - y) > 0.0;
    } else {
      assert (r - y) * (r + y) >= 0.0;
    }
  }

  // ----- the interval is the plausible set -------------------------------------------------------------

  /** z * root is the half-width before the division by the denominator. */
  lemma ScaledRoot(k: int, n: int, z: real, root: real)
    requires n > 0 && IsRoot(root, Radicand(k, n, z))
    ensures Sq(z * root) == Share(n, z) * Spread(Proportion(k, n)) + Sq(Share(n, z)) / 4.0
  {
    var q, m, a := Share(n, z), n as real, Spread(Proportion(k, n));
    var spread, quarter := a / m, Sq(z) / (4.0 * m * m);
    assert q * m == Sq(z);
    assert Sq(z * root) == Sq(z) * Sq(root);
    assert Sq(z) * (spread + quarter) == Sq(z) * spread + Sq(z) * quarter;
    ShareOfSpread(q, m, a);
    QuarterShare(q, m);
  }

  lemma ShareOfSpread(q: real, m: real, a: real)
    requires m > 0.0
    ensures (q * m) * (a / m) == q * a
  {
    assert m * (a / m) == a;
    assert (q * m) * (a / m) == q * (m * (a / m));
  }

  lemma Cancel(m: real, a: real, b: real)
    requires m > 0.0 && m * a == m * b
    ensures a == b
  {
    assert m * (a - b) == 0.0;
  }

  lemma PositiveFactor(d: real, a: real)
    requires d > 0.0 && d * a > 0.0
    ensures a > 0.0
  {
  }

  lemma QuarterShare(q: real, m: real)
    requires m > 0.0
    ensures (q * m) * ((q * m) / (4.0 * m * m)) == Sq(q) / 4.0
  {
    var u := (q * m) / (4.0 * m * m);
    assert (4.0 * m * m) * u == q * m;
    Cancel(m, 4.0 * (m * u), q);
    assert (q * m) * u == q * (m * u);
  }

  /** Multiplied by the denominator the two ends are p + q / 2 -+ z * root. */
  lemma EndsScaled(k: int, n: int, z: real, root: real)
    requires n > 0
    ensures Denominator(n, z) * Center(k, n, z) == Proportion(k, n) + Share(n, z) / 2.0
    ensures Denominator(n, z) * Margin(n, z, root) == z * root
  {
    var d, m := Denominator(n, z), n as real;
    HalfShare(Sq(z), m);
    var c := Proportion(k, n) + Sq(z) / (2.0 * m);
    assert d * (c / d) == c;
    assert d * (z / d) == z;
    assert d * (z / d * root) == (d * (z / d)) * root;
  }

  lemma HalfShare(x: real, m: real)
    requires m > 0.0
    ensures x / (2.0 * m) == (x / m) / 2.0
  {
    assert 2.0 * m * ((x / m) / 2.0) == m * (x / m);
  }

  lemma ScaleOrder(d: real, a: real, b: real)
    requires d > 0.0
    ensures a <= b <==> d * a <= d * b
    ensures a == b <==> d * a == d * b
  {
    assert d * (b - a) == d * b - d * a;
    if a < b {
      assert d * (b - a) > 0.0;
    } else if b < a {
      assert d * (b - a) < 0.0;
    }
  }

  lemma QuotientIsUnit(p: real, m: real, x: real)
    requires m > 0.0 && m * p == x && 0.0 <= x <= m
    ensures 0.0 <= p <= 1.0
  {
    ScaleOrder(m, 0.0, p);
    ScaleOrder(m, p, 1.0);
  }

  lemma ProportionIsUnit(k: int, n: int)
    requires 0 <= k <= n && n > 0
    ensures 0.0 <= Proportion(k, n) <= 1.0
    ensures Spread(Proportion(k, n)) >= 0.0
  {
    var p, m := Proportion(k, n), n as real;
    assert m * p == k as real;
    QuotientIsUnit(p, m, k as real);
    ProductIsNonNegative(p, 1.0 - p);
  }

  lemma ProductIsNonNegative(a: real, b: real)
    requires a >= 0.0 && b >= 0.0
    ensures a * b >= 0.0
  {
  }

  lemma PositiveBySquare(y: real, square: real)
    requires y >= 0.0 && Sq(y) == square && square > 0.0
    ensures y > 0.0
  {
    assert y == 0.0 ==> Sq(y) == 0.0;
  }

  lemma RootIsPositive(k: int, n: int, z: real, root: real)
    requires 0 <= k <= n && n > 0 && z > 0.0 && IsRoot(root, Radicand(k, n, z))
    ensures z * root > 0.0
  {
    var q, a := Share(n, z), Spread(Proportion(k, n));
    ProportionIsUnit(k, n);
    ScaledRoot(k, n, z, root);
    ShareIsPositive(n, z);
    SquareIsNonNegative(q);
    ProductIsNonNegative(q, a);
    ProductIsNonNegative(z, root);
    PositiveBySquare(z * root, q * a + Sq(q) / 4.0);
  }

  /** x lies between c - m and c + m exactly when d * x lies between d * c - d * m and d * c + d * m. */
  lemma ScaleUp(d: real, c: real, m: real, x: real, dc: real, dm: real, dx: real)
    requires d > 0.0 && dc == d * c && dm == d * m && dx == d * x
    ensures c - m <= x <= c + m <==> dc - dm <= dx <= dc + dm
    ensures x == c - m || x == c + m <==> dx == dc - dm || dx == dc + dm
  {
    ScaleOrder(d, c - m, x);
    ScaleOrder(d, x, c + m);
    assert d * (c - m) == dc - dm && d * (c + m) == dc + dm;
  }

  /** The two edges in fresh variables: c is the centre, m the margin, r the scaled root. */
  lemma EdgesOf(p: real, q: real, d: real, c: real, m: real, r: real, x: real)
    requires q > 0.0 && d == 1.0 + q && d * c == p + q / 2.0 && d * m == r
    requires r > 0.0 && Sq(r) == q * Spread(p) + Sq(q) / 4.0
    ensures m > 0.0
    ensures c - m <= x <= c + m <==> Plausible(p, q, x)
    ensures x == c - m || x == c + m <==> OnTheEdge(p, q, x)
  {
    var dx := d * x;
    PositiveFactor(d, m);
    CompleteTheSquare(p, q, d, x);
    SquareOrder(dx - (p + q / 2.0), r);
    ScaleUp(d, c, m, x, p + q / 2.0, r, dx);
  }

  /** The unclamped ends bound exactly the plausible set and are its two edges. */
  lemma EndsBoundPlausible(k: int, n: int, z: real, root: real, x: real)
    requires 0 <= k <= n && n > 0 && z > 0.0 && IsRoot(root, Radicand(k, n, z))
    ensures Margin(n, z, root) > 0.0
    ensures Center(k, n, z) - Margin(n, z, root) <= x <= Center(k, n, z) + Margin(n, z, root)
      <==> Plausible(Proportion(k, n), Share(n, z), x)
    ensures x == Center(k, n, z) - Margin(n, z, root) || x == Center(k, n, z) + Margin(n, z, root)
      <==> OnTheEdge(Proportion(k, n), Share(n, z), x)
  {
    ShareIsPositive(n, z);
    ScaledRoot(k, n, z, root);
    EndsScaled(k, n, z, root);
    RootIsPositive(k, n, z, root);
    EdgesOf(Proportion(k, n), Share(n, z), Denominator(n, z), Center(k, n, z), Margin(n, z, root), z * root, x);
  }

  lemma PlausibleIsUnit(p: real, q: real, x: real)
    requires q > 0.0 && Plausible(p, q, x)
    ensures 0.0 <= x <= 1.0
  {
    SquareIsNonNegative(p - x);
    SignOfProduct(q, -Spread(x));
    assert q * -Spread(x) == -(q * Spread(x));
    UnitByProduct(x);
  }

  lemma UnitByProduct(x: real)
    requires Spread(x) >= 0.0
    ensures 0.0 <= x <= 1.0
  {
  }

  /** The clamps never bite, the bounds are the two distinct roots of the score equation, and the
      interval is exactly the set of proportions the score test at z does not reject. */
  lemma ScoreIsThePlausibleSet(k: int, n: int, z: real, root: real, x: real)
    requires 0 <= k <= n && n > 0 && z > 0.0 && IsRoot(root, Radicand(k, n, z))
    ensures var s := Score(k, n, z, root);
      && s == Interval(Center(k, n, z) - Margin(n, z, root), Center(k, n, z) + Margin(n, z, root))
      && 0.0 <= s.lower < s.upper <= 1.0
      && (s.lower <= x <= s.upper <==> Plausible(Proportion(k, n), Share(n, z), x))
      && (x == s.lower || x == s.upper <==> OnTheEdge(Proportion(k, n), Share(n, z), x))
  {
    var lower, upper := Center(k, n, z) - Margin(n, z, root), Center(k, n, z) + Margin(n, z, root);
    ShareIsPositive(n, z);
    EndsBoundPlausible(k, n, z, root, lower);
    EndsBoundPlausible(k, n, z, root, upper);
    EndsBoundPlausible(k, n, z, root, x);
    PlausibleIsUnit(Proportion(k, n), Share(n, z), lower);
    PlausibleIsUnit(Proportion(k, n), Share(n, z), upper);
  }

  /** The observed proportion is always inside. */
  lemma ScoreHoldsTheEstimate(k: int, n: int, z: real, root: real)
    requires 0 <= k <= n && n > 0 && z > 0.0 && IsRoot(root, Radicand(k, n, z))
    ensures Score(k, n, z, root).lower <= Proportion(k, n) <= Score(k, n, z, root).upper
  {
    var p := Proportion(k, n);
    ProportionIsUnit(k, n);
    ShareIsPositive(n, z);
    assert Share(n, z) * Spread(p) >= 0.0;
    ScoreIsThePlausibleSet(k, n, z, root, p);
  }

  lemma ProportionMirrors(k: int, n: int)
    requires n > 0
    ensures Proportion(n - k, n) == 1.0 - Proportion(k, n)
  {
    var m := n as real;
    assert m * Proportion(k, n) == k as real;
    assert m * Proportion(n - k, n) == m - k as real;
    assert m * (1.0 - Proportion(k, n)) == m - m * Proportion(k, n);
    Cancel(m, Proportion(n - k, n), 1.0 - Proportion(k, n));
  }

  /** Counting failures instead of successes mirrors the interval. */
  lemma ScoreMirrors(k: int, n: int, z: real, root: real)
    requires 0 <= k <= n && n > 0 && z > 0.0 && IsRoot(root, Radicand(k, n, z))
    ensures IsRoot(root, Radicand(n - k, n, z))
    ensures Score(n - k, n, z, root) == Interval(1.0 - Score(k, n, z, root).upper, 1.0 - Score(k, n, z, root).lower)
  {
    ProportionMirrors(k, n);
    SpreadMirrors(Proportion(k, n));
    CenterMirrors(k, n, z, root);
    ScoreIsThePlausibleSet(k, n, z, root, 0.0);
    ScoreIsThePlausibleSet(n - k, n, z, root, 0.0);
  }

  lemma SpreadMirrors(p: real)
    ensures Spread(1.0 - p) == Spread(p)
  {
  }

  lemma CenterMirrors(k: int, n: int, z: real, root: real)
    requires n > 0
    ensures Center(n - k, n, z) == 1.0 - Center(k, n, z)
  {
    var d := Denominator(n, z);
    ProportionMirrors(k, n);
    EndsScaled(k, n, z, root);
    EndsScaled(n - k, n, z, root);
    assert d * (1.0 - Center(k, n, z)) == d - d * Center(k, n, z);
    Cancel(d, Center(n - k, n, z), 1.0 - Center(k, n, z));
  }

  // ----- the two entry points -----------------------------------------------------------------------------

  /** Both bounds to four places. */
  function Rounded(s: Interval): Interval {
    Interval(Round4(s.lower), Round4(s.upper))
  }

  datatype Result<T> = Ok(value: T) | ValueError

  /** runtime/quality.py: no interval without a sample, an error for a count outside it, else the
      rounded interval. */
  function QualityInterval(successes: int, n: int, z: real, root: real): Result<Option<Interval>> {
    if n <= 0 then Ok(None)
    else if successes < 0 || successes > n then ValueError
    else Ok(Some(Rounded(Score(successes, n, z, root))))
  }

  /** evals/stats.py: the count is clamped into the sample, and no sample means no knowledge. */
  function EvalInterval(successes: int, n: int, z: real, root: real): Interval {
    if n <= 0 then Interval(0.0, 1.0) else Score(ClampCount(successes, n), n, z, root)
  }

  function ClampCount(successes: int, n: int): int {
    if successes < 0 then 0 else if successes > n then n else successes
  }

  /** Whatever the count, the eval interval is a proper part of [0, 1] that holds the clamped
      proportion; and on counts the quality report accepts, that report is its rounding. */
  lemma EntryPointsAgree(successes: int, n: int, z: real, root: real)
    requires z > 0.0 && (n > 0 ==> IsRoot(root, Radicand(ClampCount(successes, n), n, z)))
    ensures var e := EvalInterval(successes, n, z, root);
      && 0.0 <= e.lower < e.upper <= 1.0
      && (n > 0 ==> e.lower <= Proportion(ClampCount(successes, n), n) <= e.upper)
      && (n <= 0 ==> e == Interval(0.0, 1.0))
      && (QualityInterval(successes, n, z, root) == Ok(Some(Rounded(e))) <==> 0 <= successes <= n && n > 0)
      && (QualityInterval(successes, n, z, root) == Ok(None) <==> n <= 0)
      && (QualityInterval(successes, n, z, root) == ValueError <==> n > 0 && !(0 <= successes <= n))
  {
    if n > 0 {
      ScoreIsThePlausibleSet(ClampCount(successes, n), n, z, root, 0.0);
      ScoreHoldsTheEstimate(ClampCount(successes, n), n, z, root);
    }
  }
}
