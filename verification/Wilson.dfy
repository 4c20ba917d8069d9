/**
 The Wilson score interval of the benchmark statistics, over the reals. The square
 root of the radicand is an argument, fixed by its defining property.
 */
module Wilson {

  datatype Proportion =
    | Invalid
    | NoTrials
    | Proportion(rate: real, low: real, high: real)

  function Max(a: real, b: real): real { if a >= b then a else b }

  function Min(a: real, b: real): real { if a <= b then a else b }

  function Rate(k: int, n: int): real
    requires n > 0
  {
    k as real / n as real
  }

  function Radicand(k: int, n: int, z: real): real
    requires n > 0
  {
    var p, t := Rate(k, n), n as real;
    p * (1.0 - p) / t + z * z / (4.0 * t * t)
  }

  predicate IsRoot(s: real, v: real) { s >= 0.0 && s * s == v }

  function Center(k: int, n: int, z: real): real
    requires n > 0 && z > 0.0
  {
    var p, t := Rate(k, n), n as real;
    PositiveSquare(z, z * z);
    (p + z * z / (2.0 * t)) / (1.0 + z * z / t)
  }

  function Margin(n: int, z: real, root: real): real
    requires n > 0 && z > 0.0
  {
    PositiveSquare(z, z * z);
    (z / (1.0 + z * z / n as real)) * root
  }

  /** `wilson_interval`. */
  function Interval(k: int, n: int, z: real, root: real): Proportion
    requires z > 0.0
  {
    if n < 0 || k < 0 || k > n then Invalid
    else if n == 0 then NoTrials
    else
      var center, margin := Center(k, n, z), Margin(n, z, root);
      Proportion(Rate(k, n), Max(0.0, center - margin), Min(1.0, center + margin))
  }

  /** `x` is not rejected as the true rate by the score test at level `z`. */
  predicate Plausible(k: int, n: int, z: real, x: real)
    requires n > 0
  {
    var p := Rate(k, n);
    n as real * ((p - x) * (p - x)) <= z * z * (x * (1.0 - x))
  }

  // --------------------------------------------------------------------- algebra

  lemma PositiveSquare(z: real, square: real)
    requires z != 0.0 && square == z * z
    ensures square > 0.0
  {
    if z > 0.0 { MulPositive(z, z, square); } else { MulPositive(-z, -z, square); }
  }

  lemma MulPositive(a: real, b: real, product: real)
    requires a > 0.0 && b > 0.0 && product == a * b
    ensures product > 0.0
  {
  }

  /** Completing the square. */
  lemma Quadratic(p: real, w: real, x: real)
    ensures (1.0 + w) * ((p - x) * (p - x) - w * (x * (1.0 - x)))
            == ((1.0 + w) * x - (p + w / 2.0)) * ((1.0 + w) * x - (p + w / 2.0))
               - (w * (p * (1.0 - p)) + w * w / 4.0)
  {
  }

  lemma SquareBound(a: real, b: real, aa: real, bb: real)
    requires b >= 0.0 && aa == a * a && bb == b * b
    ensures aa <= bb <==> -b <= a <= b
  {
    if -b <= a <= b {
      MulNonnegative(b - a, b + a, (b - a) * (b + a));
      SquareDifference(b, a, bb, aa);
    } else if a > b {
      MulPositive(a - b, a + b, (a - b) * (a + b));
      SquareDifference(a, b, aa, bb);
    } else {
      MulPositive(-a - b, -a + b, (-a - b) * (-a + b));
      SquareDifference(-a, b, aa, bb);
    }
  }

  lemma SquareDifference(a: real, b: real, aa: real, bb: real)
    requires aa == a * a && bb == b * b
    ensures (a - b) * (a + b) == aa - bb
  {
  }

  lemma MulNonnegative(a: real, b: real, product: real)
    requires a >= 0.0 && b >= 0.0 && product == a * b
    ensures product >= 0.0
  {
  }

  lemma ProductSign(a: real, b: real)
    requires a >= 0.0 && b >= 0.0
    ensures a * b >= 0.0
  {
  }

  lemma StrictProduct(a: real, b: real)
    requires a > 0.0 && b > 0.0
    ensures a * b > 0.0
  {
  }

  lemma ScaleSign(d: real, v: real)
    requires d > 0.0
    ensures d * v <= 0.0 <==> v <= 0.0
  {
    if v > 0.0 { StrictProduct(d, v); }
    if v <= 0.0 { ProductSign(d, -v); assert d * -v == -(d * v); }
  }

  /** Center and half-width in the scale-free parameter `w = z^2 / n`. */
  ghost predicate IsCenter(p: real, w: real, c: real) { w > 0.0 && (1.0 + w) * c == p + w / 2.0 }

  ghost predicate IsHalfWidth(p: real, w: real, m: real)
  {
    m >= 0.0 && ((1.0 + w) * m) * ((1.0 + w) * m) == w * (p * (1.0 - p)) + w * w / 4.0
  }

  ghost predicate InScoreSet(p: real, w: real, x: real) { (p - x) * (p - x) <= w * (x * (1.0 - x)) }

  lemma ScoreSet(p: real, w: real, c: real, m: real, x: real)
    requires IsCenter(p, w, c) && IsHalfWidth(p, w, m)
    ensures InScoreSet(p, w, x) <==> c - m <= x <= c + m
  {
    var v := ScoreIdentity(p, w, c, m, x);
    SignOfDifference(1.0 + w, v, x - c, m);
  }

  /** `d v` is the difference of the squares of `d u` and `d m`. */
  ghost predicate IsDifference(d: real, v: real, u: real, m: real)
  {
    d * v == (d * u) * (d * u) - (d * m) * (d * m)
  }

  lemma SignOfDifference(d: real, v: real, u: real, m: real)
    requires d > 0.0 && m >= 0.0 && IsDifference(d, v, u, m)
    ensures v <= 0.0 <==> -m <= u <= m
  {
    var a, b := d * u, d * m;
    ScaledSign(d, v, d * v);
    MulNonnegative(d, m, b);
    SquareBound(a, b, a * a, b * b);
    ScaledSides(d, u, m, a, b);
    LinearSteps(v, u, m, a, b, a * a, b * b, d * v);
  }

  lemma ScaledSign(d: real, v: real, dv: real)
    requires d > 0.0 && dv == d * v
    ensures dv <= 0.0 <==> v <= 0.0
  {
    ScaleSign(d, v);
  }

  lemma ScaledSides(d: real, u: real, m: real, a: real, b: real)
    requires d > 0.0 && a == d * u && b == d * m
    ensures -b <= a <= b <==> -m <= u <= m
  {
    Sides(d, u, m);
  }

  /** The four equivalences put together. */
  lemma LinearSteps(v: real, u: real, m: real, a: real, b: real, aa: real, bb: real, dv: real)
    requires dv == aa - bb && (dv <= 0.0 <==> v <= 0.0)
    requires aa <= bb <==> -b <= a <= b
    requires -b <= a <= b <==> -m <= u <= m
    ensures v <= 0.0 <==> -m <= u <= m
  {
  }

  lemma ScoreIdentity(p: real, w: real, c: real, m: real, x: real) returns (v: real)
    requires IsCenter(p, w, c) && IsHalfWidth(p, w, m)
    ensures InScoreSet(p, w, x) <==> v <= 0.0
    ensures IsDifference(1.0 + w, v, x - c, m)
  {
    v := (p - x) * (p - x) - w * (x * (1.0 - x));
    ScoreDifference(p, w, c, m, x, v);
  }

  lemma ScoreDifference(p: real, w: real, c: real, m: real, x: real, v: real)
    requires IsCenter(p, w, c) && IsHalfWidth(p, w, m)
    requires v == (p - x) * (p - x) - w * (x * (1.0 - x))
    ensures IsDifference(1.0 + w, v, x - c, m)
  {
    DifferenceOf(p, w, c, m, x, (1.0 + w) * (x - c), (1.0 + w) * m, v);
  }

  lemma DifferenceOf(p: real, w: real, c: real, m: real, x: real, a: real, b: real, v: real)
    requires (1.0 + w) * c == p + w / 2.0 && a == (1.0 + w) * (x - c)
    requires b == (1.0 + w) * m && b * b == w * (p * (1.0 - p)) + w * w / 4.0
    requires v == (p - x) * (p - x) - w * (x * (1.0 - x))
    ensures (1.0 + w) * v == a * a - b * b
  {
    Quadratic(p, w, x);
    assert a == (1.0 + w) * x - (1.0 + w) * c;
  }

  lemma Sides(d: real, u: real, m: real)
    requires d > 0.0
    ensures -(d * m) <= d * u <= d * m <==> -m <= u <= m
  {
    ScaleSign(d, u - m);
    assert d * (u - m) == d * u - d * m;
    ScaleSign(d, -u - m);
    assert d * (-u - m) == -(d * u) - d * m;
  }

  function W(n: int, z: real): real
    requires n > 0
  {
    z * z / n as real
  }

  lemma DivPositive(a: real, t: real)
    requires a > 0.0 && t > 0.0
    ensures a / t > 0.0
  {
    var q := a / t;
    assert q * t == a;
    if q <= 0.0 { ProductSign(-q, t); }
  }

  lemma DivMul(a: real, d: real)
    requires d > 0.0
    ensures d * (a / d) == a
  {
  }

  lemma CenterScaled(k: int, n: int, z: real)
    requires n > 0 && z > 0.0
    ensures IsCenter(Rate(k, n), W(n, z), Center(k, n, z))
  {
    var t := n as real;
    PositiveSquare(z, z * z);
    DivPositive(z * z, t);
    assert z * z / (2.0 * t) == W(n, z) / 2.0;
    DivMul(Rate(k, n) + W(n, z) / 2.0, 1.0 + W(n, z));
  }

  lemma MarginScaled(k: int, n: int, z: real, root: real)
    requires n > 0 && z > 0.0 && IsRoot(root, Radicand(k, n, z))
    ensures IsHalfWidth(Rate(k, n), W(n, z), Margin(n, z, root))
  {
    RadicandOf(k, n, z);
    var q := MarginOf(n, z, root);
    HalfWidthOf(Rate(k, n), W(n, z), z, root, q, Radicand(k, n, z));
  }

  lemma MarginOf(n: int, z: real, root: real) returns (q: real)
    requires n > 0 && z > 0.0
    ensures q > 0.0 && (1.0 + W(n, z)) * q == z && Margin(n, z, root) == q * root
  {
    PositiveSquare(z, z * z);
    DivPositive(z * z, n as real);
    var d := 1.0 + W(n, z);
    DivPositive(z, d);
    DivMul(z, d);
    q := z / d;
  }

  ghost predicate IsScaledRadicand(p: real, w: real, z: real, v: real)
  {
    (z * z) * v == w * (p * (1.0 - p)) + w * w / 4.0
  }

  lemma RadicandOf(k: int, n: int, z: real)
    requires n > 0
    ensures IsScaledRadicand(Rate(k, n), W(n, z), z, Radicand(k, n, z))
  {
    RadicandScaled(Rate(k, n), n as real, z);
  }

  lemma HalfWidthOf(p: real, w: real, z: real, root: real, q: real, v: real)
    requires q > 0.0 && (1.0 + w) * q == z && IsRoot(root, v) && IsScaledRadicand(p, w, z, v)
    ensures IsHalfWidth(p, w, q * root)
  {
    ProductSign(q, root);
    ScaledRoot(1.0 + w, q, z, root, v);
  }

  lemma ScaledRoot(d: real, q: real, z: real, root: real, v: real)
    requires d * q == z && root * root == v
    ensures (d * (q * root)) * (d * (q * root)) == (z * z) * v
  {
    assert d * (q * root) == (d * q) * root;
    assert (z * root) * (z * root) == (z * z) * (root * root);
  }

  lemma RadicandScaled(p: real, t: real, z: real)
    requires t > 0.0
    ensures (z * z) * (p * (1.0 - p) / t + z * z / (4.0 * t * t))
            == (z * z / t) * (p * (1.0 - p)) + (z * z / t) * (z * z / t) / 4.0
  {
    var s, a, w := z * z, p * (1.0 - p), z * z / t;
    assert w * t == s;
    assert s * (a / t) == w * a by { assert s * (a / t) == (s * a) / t == (w * t * a) / t; }
    var u := s / (4.0 * t * t);
    assert u * (4.0 * t * t) == s;
    assert 4.0 * u * t == w by { assert (4.0 * u * t) * t == s; Cancel(4.0 * u * t, w, t); }
    assert s * u == w * w / 4.0 by { assert s * u == (w * t) * u == w * (t * u); assert t * u == w / 4.0; }
  }

  lemma Cancel(a: real, b: real, t: real)
    requires t > 0.0 && a * t == b * t
    ensures a == b
  {
    assert (a - b) * t == 0.0;
  }

  lemma PlausibleScaled(k: int, n: int, z: real, x: real)
    requires n > 0
    ensures Plausible(k, n, z, x) <==> InScoreSet(Rate(k, n), W(n, z), x)
  {
    var t, l, r := n as real, (Rate(k, n) - x) * (Rate(k, n) - x), x * (1.0 - x);
    assert W(n, z) * t == z * z;
    assert t * (l - W(n, z) * r) == t * l - z * z * r by {
      assert t * (W(n, z) * r) == (W(n, z) * t) * r;
    }
    ScaleSign(t, l - W(n, z) * r);
  }

  // ---------------------------------------------------------------- main results

  /** The unclamped interval is exactly the set of plausible rates. */
  lemma CenterMarginIsPlausibleSet(k: int, n: int, z: real, root: real, x: real)
    requires 0 <= k <= n && n > 0 && z > 0.0 && IsRoot(root, Radicand(k, n, z))
    ensures Plausible(k, n, z, x)
            <==> Center(k, n, z) - Margin(n, z, root) <= x <= Center(k, n, z) + Margin(n, z, root)
  {
    CenterScaled(k, n, z);
    MarginScaled(k, n, z, root);
    PlausibleScaled(k, n, z, x);
    ScoreSet(Rate(k, n), W(n, z), Center(k, n, z), Margin(n, z, root), x);
  }

  lemma PlausibleIsProbability(k: int, n: int, z: real, x: real)
    requires n > 0 && z > 0.0 && Plausible(k, n, z, x)
    ensures 0.0 <= x <= 1.0
  {
    var p := Rate(k, n);
    Square(p - x, (p - x) * (p - x));
    ProductSign(n as real, (p - x) * (p - x));
    PositiveSquare(z, z * z);
    var s, v := z * z, x * (1.0 - x);
    assert s * v >= 0.0;
    if v < 0.0 { StrictProduct(s, -v); }
    if x < 0.0 { StrictProduct(-x, 1.0 - x); }
    if x > 1.0 { StrictProduct(x, x - 1.0); }
  }

  lemma Square(a: real, square: real)
    requires square == a * a
    ensures square >= 0.0
  {
  }

  lemma RateInUnit(k: int, n: int)
    requires 0 <= k <= n && n > 0
    ensures 0.0 <= Rate(k, n) <= 1.0
  {
  }

  lemma RateIsPlausible(k: int, n: int, z: real)
    requires 0 <= k <= n && n > 0
    ensures Plausible(k, n, z, Rate(k, n))
  {
    var p := Rate(k, n);
    RateInUnit(k, n);
    ProductSign(p, 1.0 - p);
    Square(z, z * z);
    ProductSign(z * z, p * (1.0 - p));
    assert (p - p) * (p - p) == 0.0;
  }

  /** For every valid count the clamps change nothing, the interval is exactly the set of
      plausible rates, it contains the observed rate and it stays inside [0, 1]. */
  lemma IntervalIsPlausibleSet(k: int, n: int, z: real, root: real)
    requires 0 <= k <= n && n > 0 && z > 0.0 && IsRoot(root, Radicand(k, n, z))
    ensures var r := Interval(k, n, z, root);
            && r.Proportion?
            && 0.0 <= r.low <= r.rate <= r.high <= 1.0
            && r.low == Center(k, n, z) - Margin(n, z, root)
            && r.high == Center(k, n, z) + Margin(n, z, root)
            && forall x :: Plausible(k, n, z, x) <==> r.low <= x <= r.high
  {
    var lo, hi := Center(k, n, z) - Margin(n, z, root), Center(k, n, z) + Margin(n, z, root);
    MarginScaled(k, n, z, root);
    forall x
      ensures Plausible(k, n, z, x) <==> lo <= x <= hi
    {
      CenterMarginIsPlausibleSet(k, n, z, root, x);
    }
    PlausibleIsProbability(k, n, z, lo);
    PlausibleIsProbability(k, n, z, hi);
    RateIsPlausible(k, n, z);
  }

  /** Counting failures instead of successes mirrors the interval. */
  lemma Mirrored(k: int, n: int, z: real, root: real)
    requires 0 <= k <= n && n > 0 && z > 0.0 && IsRoot(root, Radicand(k, n, z))
    ensures IsRoot(root, Radicand(n - k, n, z))
    ensures var r, s := Interval(k, n, z, root), Interval(n - k, n, z, root);
            s.rate == 1.0 - r.rate && s.low == 1.0 - r.high && s.high == 1.0 - r.low
  {
    MirroredRate(k, n);
    MirroredRadicand(k, n, z);
    CenterScaled(k, n, z);
    CenterScaled(n - k, n, z);
    MirroredCenter(W(n, z), Rate(k, n), Rate(n - k, n), Center(k, n, z), Center(n - k, n, z));
    IntervalIsPlausibleSet(k, n, z, root);
    IntervalIsPlausibleSet(n - k, n, z, root);
  }

  lemma Complement(d: real, c: real)
    ensures d * (1.0 - c) == d - d * c
  {
  }

  lemma MirroredRate(k: int, n: int)
    requires n > 0
    ensures Rate(n - k, n) == 1.0 - Rate(k, n)
  {
    var t := n as real;
    assert (n - k) as real == t - k as real;
    DivMul(k as real, t);
    DivMul((n - k) as real, t);
    Complement(t, Rate(k, n));
    Cancel(Rate(n - k, n), 1.0 - Rate(k, n), t);
  }

  lemma MirroredRadicand(k: int, n: int, z: real)
    requires n > 0
    ensures Radicand(n - k, n, z) == Radicand(k, n, z)
  {
    MirroredRate(k, n);
    var p, q := Rate(k, n), Rate(n - k, n);
    assert q * (1.0 - q) == p * (1.0 - p);
  }

  lemma MirroredCenter(w: real, p: real, q: real, c: real, c': real)
    requires q == 1.0 - p && IsCenter(p, w, c) && IsCenter(q, w, c')
    ensures c' == 1.0 - c
  {
    var d := 1.0 + w;
    Complement(d, c);
    Cancel(c', 1.0 - c, d);
  }

  /** The same observed rate over at least as many trials never widens the interval. */
  lemma MoreTrialsNarrow(k: int, n: int, k': int, n': int, z: real, root: real, root': real)
    requires 0 <= k <= n && 0 < n <= n' && 0 <= k' <= n' && Rate(k, n) == Rate(k', n') && z > 0.0
    requires IsRoot(root, Radicand(k, n, z)) && IsRoot(root', Radicand(k', n', z))
    ensures var r, s := Interval(k, n, z, root), Interval(k', n', z, root');
            r.low <= s.low && s.high <= r.high
  {
    IntervalIsPlausibleSet(k, n, z, root);
    IntervalIsPlausibleSet(k', n', z, root');
    var s := Interval(k', n', z, root');
    StillPlausible(k, n, k', n', z, s.low);
    StillPlausible(k, n, k', n', z, s.high);
  }

  lemma StillPlausible(k: int, n: int, k': int, n': int, z: real, x: real)
    requires 0 < n <= n' && Rate(k, n) == Rate(k', n') && Plausible(k', n', z, x)
    ensures Plausible(k, n, z, x)
  {
    var l := (Rate(k, n) - x) * (Rate(k, n) - x);
    Square(Rate(k, n) - x, l);
    var more := n' as real - n as real;
    ProductSign(more, l);
    assert n' as real * l == n as real * l + more * l;
  }

  /** Neither extreme count loses its extreme end. */
  lemma ExtremeCounts(n: int, z: real, root: real)
    requires n > 0 && z > 0.0
    ensures IsRoot(root, Radicand(0, n, z)) ==> Interval(0, n, z, root).low == 0.0
    ensures IsRoot(root, Radicand(n, n, z)) ==> Interval(n, n, z, root).high == 1.0
  {
    RateExtremes(n);
    if IsRoot(root, Radicand(0, n, z)) { IntervalIsPlausibleSet(0, n, z, root); }
    if IsRoot(root, Radicand(n, n, z)) { IntervalIsPlausibleSet(n, n, z, root); }
  }

  lemma RateExtremes(n: int)
    requires n > 0
    ensures Rate(0, n) == 0.0 && Rate(n, n) == 1.0
  {
  }
}
