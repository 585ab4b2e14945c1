/** Products of probabilities, as sequences of factors. */
module Products {
  function Product(xs: seq<real>): real {
    if xs == [] then 1.0 else Product(xs[..|xs| - 1]) * xs[|xs| - 1]
  }

  predicate Units(xs: seq<real>) { forall i | 0 <= i < |xs| :: 0.0 <= xs[i] <= 1.0 }

  function Without<T>(s: seq<T>, i: nat): seq<T>
    requires i < |s|
  {
    s[..i] + s[i + 1..]
  }

  lemma MulOrder(x: real, a: real, b: real)
    requires 0.0 <= x && a <= b
    ensures x * a <= x * b && a * x <= b * x
  {
    assert x * (b - a) >= 0.0;
  }

  lemma MulUnit(a: real, b: real)
    requires 0.0 <= a <= 1.0 && 0.0 <= b <= 1.0
    ensures 0.0 <= a * b <= 1.0 && a * b <= a && a * b <= b
  {
    MulOrder(a, 0.0, b);
    MulOrder(b, a, 1.0);
    MulOrder(a, b, 1.0);
  }

  lemma ProductOrder(a: real, b: real, x: real, y: real)
    requires 0.0 <= a <= b && 0.0 <= x <= y
    ensures a * x <= b * y
  {
    MulOrder(a, x, y);
    MulOrder(y, a, b);
  }

  lemma Rotate(a: real, x: real, y: real)
    ensures a * x * y == a * y * x
  {
  }

  lemma ProductLast(xs: seq<real>, x: real)
    ensures Product(xs + [x]) == Product(xs) * x
  {
    assert (xs + [x])[..|xs|] == xs;
  }

  lemma {:induction false} ProductIsUnit(xs: seq<real>)
    requires Units(xs)
    ensures 0.0 <= Product(xs) <= 1.0
  {
    if xs != [] {
      ProductIsUnit(xs[..|xs| - 1]);
      MulUnit(Product(xs[..|xs| - 1]), xs[|xs| - 1]);
    }
  }

  /** A factor may be taken out anywhere. */
  lemma {:induction false} ProductWithout(xs: seq<real>, i: nat, x: real) returns (whole: real, rest: real)
    requires i < |xs| && xs[i] == x
    ensures whole == Product(xs) && rest == Product(Without(xs, i)) && whole == rest * x
  {
    var n := |xs| - 1;
    var ys, z := xs[..n], xs[n];
    assert xs == ys + [z];
    ProductLast(ys, z);
    whole := Product(xs);
    if i == n {
      assert Without(xs, i) == ys;
      rest := Product(ys);
    } else {
      var w, r := ProductWithout(ys, i, x);
      ProductLast(Without(ys, i), z);
      assert Without(xs, i) == Without(ys, i) + [z];
      Rotate(r, x, z);
      rest := r * z;
    }
  }

  lemma Scaled(a: real, b: real, x: real, ax: real, bx: real)
    requires 0.0 <= x && a <= b && ax == a * x && bx == b * x
    ensures ax <= bx
  {
    MulOrder(x, a, b);
  }

  lemma ScaledDown(a: real, b: real, x: real, y: real, ax: real, bx: real)
    requires 0.0 <= a <= b && 0.0 <= x <= y && ax == a * x && bx == b * y
    ensures ax <= bx
  {
    ProductOrder(a, b, x, y);
  }

  // One factor less, and a smaller last one: the product does not grow.
  lemma SmallerLast(xs: seq<real>, i: nat, ys: seq<real>, x: real, y: real)
    requires i < |xs| && xs[i] == x && 0.0 <= y <= x
    requires 0.0 <= Product(ys) <= Product(Without(xs, i))
    ensures Product(ys + [y]) <= Product(xs)
  {
    var p, a := ProductWithout(xs, i, x);
    assert Product(ys + [y]) == Product(ys) * y by {
      ProductLast(ys, y);
    }
    ScaledDown(Product(ys), a, y, x, Product(ys + [y]), p);
  }

  // Taking the same factor out of two products keeps their order.
  lemma SameFactorOut(xs: seq<real>, i: nat, ys: seq<real>, j: nat, x: real)
    requires i < |xs| && j < |ys| && xs[i] == x && ys[j] == x && 0.0 <= x
    requires Product(Without(ys, j)) <= Product(Without(xs, i))
    ensures Product(ys) <= Product(xs)
  {
    var p, a := ProductWithout(xs, i, x);
    var q, b := ProductWithout(ys, j, x);
    Scaled(b, a, x, q, p);
  }
}
