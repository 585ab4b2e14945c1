/** The Wilson score interval of a binomial proportion, before rounding. */
module Wilson {
  datatype Interval = Interval(lo: real, hi: real)

  function Sq(x: real): real { x * x }

  /** The variance of one trial that succeeds with probability q. */
  function Spread(q: real): real { q * (1.0 - q) }

  /** What the square root is taken of. */
  function Radicand(k: int, n: int, z: real): real
    requires n > 0
  {
    var p, m := k as real / n as real, n as real;
    Spread(p) / m + Sq(z) / (4.0 * m * m)
  }

  function Centre(k: int, n: int, z: real): real
    requires n > 0
  {
    var m := n as real;
    (k as real / m + Sq(z) / (2.0 * m)) / (1.0 + Sq(z) / m)
  }

  function Half(n: int, z: real, root: real): real
    requires n > 0
  {
    z / (1.0 + Sq(z) / n as real) * root
  }

  function Max(a: real, b: real): real { if a >= b then a else b }

  function Min(a: real, b: real): real { if a <= b then a else b }

  /** `root` stands for the square root of the radicand. */
  function Score(k: int, n: int, z: real, root: real): Interval {
    if n <= 0 then Interval(0.0, 0.0)
    else Interval(Max(0.0, Centre(k, n, z) - Half(n, z, root)), Min(1.0, Centre(k, n, z) + Half(n, z, root)))
  }

  predicate Rooted(k: int, n: int, z: real, root: real) {
    n > 0 ==> root >= 0.0 && Sq(root) == Radicand(k, n, z)
  }

  /** q is within z standard errors of k/n, the error being that of q itself. */
  predicate Plausible(k: int, n: int, z: real, q: real)
    requires n > 0
  {
    n as real * Sq(k as real / n as real - q) <= Sq(z) * Spread(q)
  }

  // ------------------------------------------------------------------ the algebra, in w = z*z/n

  /** The distance of q from the centre, multiplied by the denominator. */
  function Offset(p: real, w: real, q: real): real { q * (1.0 + w) - (p + w / 2.0) }

  lemma Positive(x: real, y: real)
    ensures x > 0.0 && y > 0.0 ==> x * y > 0.0
    ensures x >= 0.0 && y >= 0.0 ==> x * y >= 0.0
  {
  }

  lemma Signs(x: real, y: real)
    ensures (-x) * y == -(x * y) == x * (-y)
  {
  }

  lemma SqNegated(x: real)
    ensures Sq(-x) == Sq(x)
  {
  }

  lemma ProductPositive(x: real, y: real, p: real)
    requires x > 0.0 && y > 0.0 && p == x * y
    ensures p > 0.0
  {
  }

  lemma SqPositive(x: real)
    requires x > 0.0
    ensures Sq(x) > 0.0
  {
    ProductPositive(x, x, Sq(x));
  }

  lemma Squares(x: real)
    ensures Sq(x) >= 0.0
    ensures x != 0.0 ==> Sq(x) > 0.0
  {
    if x > 0.0 {
      SqPositive(x);
    } else if x < 0.0 {
      SqPositive(-x);
      SqNegated(x);
    } else {
      assert x == 0.0;
    }
  }

  lemma SqOfSum(v: real, step: real)
    ensures Sq(v + step) == Sq(v) + 2.0 * (v * step) + Sq(step)
  {
  }

  lemma SqGrows(v: real, step: real)
    requires v >= 0.0 && step > 0.0
    ensures Sq(v + step) > Sq(v)
  {
    SqPositive(step);
    Positive(v, step);
    SqOfSum(v, step);
  }

  lemma SquareOrderPositive(a: real, v: real)
    requires a >= 0.0 && v >= 0.0
    ensures a <= v <==> Sq(a) <= Sq(v)
  {
    if a < v {
      SqGrows(a, v - a);
    } else if v < a {
      SqGrows(v, a - v);
    }
  }

  lemma SquareOrder(a: real, v: real)
    requires v >= 0.0
    ensures -v <= a <= v <==> Sq(a) <= Sq(v)
  {
    SqNegated(a);
    if a >= 0.0 {
      SquareOrderPositive(a, v);
    } else {
      SquareOrderPositive(-a, v);
    }
  }

  lemma Expand(p: real, w: real, q: real)
    ensures Sq(Offset(p, w, q)) - (w * Spread(p) + w * w / 4.0) == (1.0 + w) * (Sq(p - q) - w * Spread(q))
  {
  }

  lemma SignOfProduct(d: real, x: real)
    requires d > 0.0
    ensures d * x <= 0.0 <==> x <= 0.0
  {
    if x > 0.0 {
      assert d * x > 0.0;
    } else {
      assert d * -x >= 0.0;
    }
  }

  lemma Compare(s: real, t: real, d: real, x: real)
    requires d > 0.0 && s - t == d * x
    ensures s <= t <==> x <= 0.0
  {
    SignOfProduct(d, x);
  }

  // Multiplied out by the denominator, membership is a comparison of squares.
  lemma Membership(p: real, w: real, q: real, v: real)
    requires w >= 0.0 && v >= 0.0 && Sq(v) == w * Spread(p) + w * w / 4.0
    ensures -v <= Offset(p, w, q) <= v <==> Sq(p - q) <= w * Spread(q)
  {
    SquareOrder(Offset(p, w, q), v);
    Expand(p, w, q);
    Compare(Sq(Offset(p, w, q)), Sq(v), 1.0 + w, Sq(p - q) - w * Spread(q));
  }

  lemma DivideOut(x: real, d: real, q: real)
    requires d > 0.0
    ensures x / d <= q <==> x <= q * d
    ensures q <= x / d <==> q * d <= x
  {
    var y := x / d;
    assert y * d == x;
    if y <= q {
      assert (q - y) * d >= 0.0;
    } else {
      assert (y - q) * d > 0.0;
    }
    if q <= y {
      assert (y - q) * d >= 0.0;
    } else {
      assert (q - y) * d > 0.0;
    }
  }

  lemma Unique(x: real, d: real, y: real)
    requires d != 0.0 && y * d == x
    ensures x / d == y
  {
    var t := x / d;
    assert t * d == x;
    assert (t - y) * d == 0.0;
  }

  lemma Scale(z: real, d: real, root: real)
    requires d > 0.0
    ensures z / d * root == z * root / d
  {
    var t := z / d;
    assert t * d == z;
    assert t * root * d == z * root;
    Unique(z * root, d, t * root);
  }

  lemma Split(a: real, b: real, d: real)
    requires d > 0.0
    ensures a / d - b / d == (a - b) / d && a / d + b / d == (a + b) / d
  {
    var s, t := a / d, b / d;
    assert s * d == a && t * d == b;
    Unique(a - b, d, s - t);
    Unique(a + b, d, s + t);
  }

  lemma EndsOver(c: real, z: real, d: real, root: real)
    requires d > 0.0
    ensures c / d - z / d * root == (c - z * root) / d
    ensures c / d + z / d * root == (c + z * root) / d
  {
    Scale(z, d, root);
    Split(c, z * root, d);
  }

  lemma HalfOf(x: real, m: real)
    requires m > 0.0
    ensures x / (2.0 * m) == x / m / 2.0
  {
    var y := x / m;
    assert y * m == x;
    assert (y / 2.0) * (2.0 * m) == x;
    Unique(x, 2.0 * m, y / 2.0);
  }

  lemma Ends(n: int, k: int, z: real, root: real)
    requires n > 0
    ensures var w := Sq(z) / n as real; var p := k as real / n as real;
            && w >= 0.0
            && Centre(k, n, z) - Half(n, z, root) == (p + w / 2.0 - z * root) / (1.0 + w)
            && Centre(k, n, z) + Half(n, z, root) == (p + w / 2.0 + z * root) / (1.0 + w)
  {
    var m := n as real;
    var zz := Sq(z);
    assert zz >= 0.0 by {
      Squares(z);
    }
    DivideOut(zz, m, 0.0);
    HalfOf(zz, m);
    EndsOver(k as real / m + zz / m / 2.0, z, 1.0 + zz / m, root);
  }

  lemma InW(s: real, zz: real, m: real)
    requires m > 0.0
    ensures var w := zz / m; zz * (s / m + zz / (4.0 * m * m)) == w * s + w * w / 4.0
  {
    var w, x, y := zz / m, s / m, zz / (4.0 * m * m);
    assert x * m == s && y * (4.0 * m * m) == zz && w * m == zz;
    assert y * (4.0 * m) == w by {
      assert (y * (4.0 * m) - w) * m == 0.0;
    }
    assert zz * x == (w * m) * x == w * (x * m);
    assert zz * y == (w * m) * y == w * (y * (4.0 * m)) / 4.0;
  }

  lemma RootInW(k: int, n: int, z: real, root: real)
    requires n > 0 && Sq(root) == Radicand(k, n, z)
    ensures var w := Sq(z) / n as real; Sq(z * root) == w * Spread(k as real / n as real) + w * w / 4.0
  {
    var m := n as real;
    InW(Spread(k as real / m), Sq(z), m);
    assert Sq(z * root) == Sq(z) * Sq(root);
  }

  // ------------------------------------------------------------------ what the interval is

  // The interval around c / d with half width v / d.
  lemma Between(c: real, v: real, d: real, q: real, lo: real, hi: real)
    requires d > 0.0 && lo == (c - v) / d && hi == (c + v) / d
    ensures lo <= q <= hi <==> -v <= q * d - c <= v
  {
    DivideOut(c - v, d, q);
    DivideOut(c + v, d, q);
  }

  lemma InOffset(k: int, n: int, z: real, root: real, q: real)
    requires n > 0
    ensures var w := Sq(z) / n as real; var v := z * root;
            && w >= 0.0
            && (Centre(k, n, z) - Half(n, z, root) <= q <= Centre(k, n, z) + Half(n, z, root) <==>
                -v <= Offset(k as real / n as real, w, q) <= v)
  {
    var w, p := Sq(z) / n as real, k as real / n as real;
    Ends(n, k, z, root);
    Between(p + w / 2.0, z * root, 1.0 + w, q, Centre(k, n, z) - Half(n, z, root), Centre(k, n, z) + Half(n, z, root));
  }

  lemma ClearDenominator(zz: real, m: real, a: real, b: real)
    requires m > 0.0
    ensures a <= zz / m * b <==> m * a <= zz * b
  {
    var w := zz / m;
    assert w * m == zz;
    assert zz * b == m * (w * b);
    if a <= w * b {
      assert m * (w * b - a) >= 0.0;
    } else {
      assert m * (a - w * b) > 0.0;
    }
  }

  /** The unclamped interval holds exactly the proportions the sample does not contradict. */
  lemma UnclampedMeans(k: int, n: int, z: real, root: real, q: real)
    requires n > 0 && z >= 0.0 && Rooted(k, n, z, root)
    ensures Centre(k, n, z) - Half(n, z, root) <= q <= Centre(k, n, z) + Half(n, z, root) <==> Plausible(k, n, z, q)
  {
    var w, p := Sq(z) / n as real, k as real / n as real;
    InOffset(k, n, z, root, q);
    RootInW(k, n, z, root);
    Positive(z, root);
    Membership(p, w, q, z * root);
    ClearDenominator(Sq(z), n as real, Sq(p - q), Spread(q));
  }

  lemma IsProportion(k: int, n: int)
    requires n > 0 && 0 <= k <= n
    ensures 0.0 <= k as real / n as real <= 1.0
  {
    DivideOut(k as real, n as real, 0.0);
    DivideOut(k as real, n as real, 1.0);
  }

  lemma Strays(p: real, q: real)
    requires 0.0 <= p <= 1.0 && (q < 0.0 || q > 1.0)
    ensures Sq(p - q) > 0.0 && Spread(q) <= 0.0
  {
    var t := 1.0 - q;
    Squares(p - q);
    Signs(q, t);
    Positive(-q, t);
    Positive(q, -t);
  }

  lemma StraysApart(m: real, zz: real, a: real, b: real)
    requires m > 0.0 && zz >= 0.0 && a > 0.0 && b <= 0.0
    ensures m * a > zz * b
  {
    Positive(m, a);
    Positive(zz, -b);
    Signs(zz, b);
  }

  // Nothing outside [0, 1] is plausible.
  lemma PlausibleIsAProportion(k: int, n: int, z: real, q: real)
    requires n > 0 && 0 <= k <= n && Plausible(k, n, z, q)
    ensures 0.0 <= q <= 1.0
  {
    var p := k as real / n as real;
    IsProportion(k, n);
    if q < 0.0 || q > 1.0 {
      Strays(p, q);
      Squares(z);
      StraysApart(n as real, Sq(z), Sq(p - q), Spread(q));
    }
  }

  lemma EstimateIsPlausible(k: int, n: int, z: real)
    requires n > 0 && 0 <= k <= n
    ensures Plausible(k, n, z, k as real / n as real)
  {
    var p := k as real / n as real;
    IsProportion(k, n);
    Squares(z);
    Positive(p, 1.0 - p);
    Positive(Sq(z), Spread(p));
  }

  /** The radicand has a square root: it is never negative. */
  lemma RadicandIsNotNegative(k: int, n: int, z: real)
    requires n > 0 && 0 <= k <= n
    ensures Radicand(k, n, z) >= 0.0
  {
    var p, m := k as real / n as real, n as real;
    IsProportion(k, n);
    Positive(p, 1.0 - p);
    DivideOut(Spread(p), m, 0.0);
    Squares(z);
    ProductPositive(m, m, m * m);
    DivideOut(Sq(z), 4.0 * m * m, 0.0);
  }

  /** For every sample: the interval is the set of plausible proportions, it contains k/n, it lies
      in [0, 1], and the two clamps never change anything. Without a sample it is (0, 0). */
  lemma ScoreMeans(k: int, n: int, z: real, root: real)
    requires n > 0 ==> 0 <= k <= n && z >= 0.0 && Rooted(k, n, z, root)
    ensures n > 0 ==>
              var s := Score(k, n, z, root);
              && (forall q :: s.lo <= q <= s.hi <==> Plausible(k, n, z, q))
              && 0.0 <= s.lo <= k as real / n as real <= s.hi <= 1.0
              && s == Interval(Centre(k, n, z) - Half(n, z, root), Centre(k, n, z) + Half(n, z, root))
    ensures n <= 0 ==> Score(k, n, z, root) == Interval(0.0, 0.0)
  {
    if n > 0 {
      var lo, hi := Centre(k, n, z) - Half(n, z, root), Centre(k, n, z) + Half(n, z, root);
      EstimateIsPlausible(k, n, z);
      UnclampedMeans(k, n, z, root, k as real / n as real);
      UnclampedMeans(k, n, z, root, lo);
      UnclampedMeans(k, n, z, root, hi);
      PlausibleIsAProportion(k, n, z, lo);
      PlausibleIsAProportion(k, n, z, hi);
      assert Score(k, n, z, root) == Interval(lo, hi);
      forall q ensures lo <= q <= hi <==> Plausible(k, n, z, q) {
        UnclampedMeans(k, n, z, root, q);
      }
    }
  }
}
