/** Division by a positive number, rounded down and up. */
module Arith {
  lemma MultipleIsFar(d: nat, k: int)
    ensures k > 0 ==> d * k >= d
    ensures k < 0 ==> d * k <= 0 - d
  {
  }

  /** Quotient and remainder are unique. */
  lemma DivIs(x: nat, d: nat, q: nat, r: nat)
    requires d > 0 && r < d && x == d * q + r
    ensures x / d == q && x % d == r
  {
    MultipleIsFar(d, x / d - q);
    assert d * (x / d - q) == r - x % d;
  }

  lemma Split(x: nat, d: nat) returns (q: nat, r: nat)
    requires d > 0
    ensures q == x / d && r == x % d && r < d && x == d * q + r
  {
    q, r := x / d, x % d;
  }

  lemma Product(a: nat, b: nat, q: nat, r: nat)
    ensures a * (b * q + r) == a * b * q + a * r
  {
    Distribute(a, b * q, r);
    assert a * (b * q) == a * b * q;
  }

  /** Dividing twice is dividing by the product. */
  lemma DivDiv(x: nat, a: nat, b: nat)
    requires a > 0 && b > 0
    ensures a * b > 0 && x / a / b == x / (a * b)
  {
    var y, s := Split(x, a);
    var q, r := Split(y, b);
    RemainderFits(a, b, s, r);
    Product(a, b, q, r);
    DivIs(x, a * b, q, a * r + s);
  }

  lemma RemainderFits(a: nat, b: nat, s: nat, r: nat)
    requires s < a && r < b
    ensures 0 < a * b && a * r + s < a * b
  {
    Monotone(r + 1, b, a);
    assert (r + 1) * a == a * r + a && b * a == a * b;
  }

  lemma Monotone(a: nat, b: nat, d: nat)
    requires a <= b
    ensures a * d <= b * d
  {
  }

  /** Rounding down is adjoint to multiplying. */
  lemma FloorGalois(x: nat, d: nat, q: nat)
    requires d > 0
    ensures q <= x / d <==> q * d <= x
  {
    assert x == d * (x / d) + x % d;
    if q <= x / d {
      Monotone(q, x / d, d);
    } else {
      Monotone(x / d + 1, q, d);
      assert (x / d + 1) * d == d * (x / d) + d;
    }
  }

  /** Rounded up, as `div_ceil` does it. */
  function CeilDiv(x: nat, d: nat): nat
    requires d > 0
  {
    x / d + if x % d > 0 then 1 else 0
  }

  lemma CeilGalois(x: nat, d: nat, t: nat)
    requires d > 0
    ensures CeilDiv(x, d) <= t <==> x <= t * d
  {
    var q := CeilDiv(x, d);
    assert x == d * (x / d) + x % d;
    assert (x / d + 1) * d == d * (x / d) + d;
    assert q * d >= x;
    if q <= t {
      Monotone(q, t, d);
    } else {
      Monotone(t + 1, q, d);
      assert (t + 1) * d == t * d + d;
    }
  }

  lemma FloorAtMost(x: nat, d: nat, u: nat)
    requires d > 0 && x < (u + 1) * d
    ensures x / d <= u
  {
    FloorGalois(x, d, u + 1);
  }

  /** Rounding down two parts loses no less than rounding down their sum. */
  lemma FloorSuperadditive(x: nat, y: nat, d: nat, u: nat)
    requires d > 0 && u * d <= y
    ensures x / d + u <= (x + y) / d
  {
    FloorGalois(x, d, x / d);
    assert (x / d + u) * d == x / d * d + u * d;
    FloorGalois(x + y, d, x / d + u);
  }

  /** Dividing in two steps, carrying the remainder. */
  lemma CarryDiv(x: nat, y: nat, d: nat)
    requires d > 0
    ensures (x + y) / d == x / d + (x % d + y) / d
    ensures (x + y) % d == (x % d + y) % d
  {
    var q, c := x / d, x % d + y;
    Distribute(d, q, c / d);
    DivIs(x + y, d, q + c / d, c % d);
  }

  lemma Distribute(d: nat, a: nat, b: nat)
    ensures d * (a + b) == d * a + d * b
  {
  }

  /** A quotient of naturals is one. */
  function Floor(x: nat, d: nat): (q: nat)
    requires d > 0
    ensures q == x / d
  {
    x / d
  }
}
