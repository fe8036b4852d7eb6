/** Integer division by a variable, stated so that no proof has to look at a quotient, and a few facts about
    products of reals. */
module Arithmetic {
  function Min(a: int, b: int): int {
    if a <= b then a else b
  }

  lemma MulMono(a: int, b: int, d: int)
    requires a <= b && d >= 1
    ensures a * d <= b * d
  {}

  lemma Quotient(x: int, d: int) returns (n: int)
    requires 0 <= x && d >= 1
    ensures n >= 0 && n * d <= x < n * d + d
  {
    n := x / d;
  }

  lemma DivIs(x: int, n: int, d: int)
    requires d >= 1 && n * d <= x < n * d + d
    ensures x / d == n
  {
    var q := x / d;
    if q < n { MulMono(q + 1, n, d); }
    if n < q { MulMono(n + 1, q, d); }
  }

  lemma RemainderIs(x: int, q: int, r: int, d: int)
    requires d >= 1 && x == q * d + r && 0 <= r < d
    ensures x % d == r
  {
    DivIs(x, q, d);
  }

  lemma FloorBounds(x: int, d: int)
    requires d >= 1
    ensures d * (x / d) <= x < d * (x / d + 1)
    ensures x >= d ==> x / d >= 1
    ensures x < d ==> x / d <= 0
  {
    FloorGe(x, d, 1);
    assert d * (x / d + 1) == d * (x / d) + d;
  }

  lemma DivMod(x: nat, d: nat) returns (q: nat, r: nat)
    requires d >= 1
    ensures x == q * d + r && r == x % d && r < d
  {
    q, r := x / d, x % d;
  }

  /** A floor is at least q exactly when the numerator is at least q times the denominator. */
  lemma FloorGe(a: int, d: int, q: int)
    requires d >= 1
    ensures a / d >= q <==> a >= q * d
  {
    var n := a / d;
    assert n * d <= a < n * d + d;
    if n >= q { MulMono(q, n, d); } else { MulMono(n + 1, q, d); }
  }

  lemma FloorMonotone(a: int, b: int, d: int)
    requires d >= 1 && a <= b
    ensures a / d <= b / d
  {
    FloorGe(a, d, a / d);
    FloorGe(b, d, a / d);
  }

  lemma FloorScale(y: int, d: int, n: int)
    requires d >= 1 && n >= 1
    ensures n * d >= 1 && (n * y) / (n * d) == y / d
  {
    MulMono(1, n, d);
    var q := y / d;
    assert q * d <= y < q * d + d;
    Scaled(q * d, y, n);
    Scaled(y + 1, q * d + d, n);
    assert n * (q * d) == q * (n * d) && n * (q * d + d) == q * (n * d) + n * d && n * (y + 1) == n * y + n;
    DivIs(n * y, q, n * d);
  }

  lemma Scaled(a: int, b: int, n: int)
    requires a <= b && n >= 1
    ensures n * a <= n * b
  {
    MulMono(a, b, n);
  }

  /** An index that has gone round at most once. */
  lemma WrapIs(x: nat, n: nat)
    requires x < n + n
    ensures x % n == if x < n then x else x - n
  {
    if x < n { RemainderIs(x, 0, x, n); } else { RemainderIs(x, 1, x - n, n); }
  }

  // ----- reals

  lemma Inverse(x: real) returns (q: real)
    requires x > 0.0
    ensures q > 0.0 && q * x == 1.0
  {
    q := 1.0 / x;
  }

  /** A whole number of times any gap exceeds one. */
  lemma Enough(gap: real) returns (total: nat, n: real)
    requires gap > 0.0
    ensures total > 0 && n == total as real && n * gap > 1.0
  {
    var q := Inverse(gap);
    total := q.Floor + 1;
    n := total as real;
    Exceeds(q, n, gap);
  }

  lemma Exceeds(q: real, n: real, x: real)
    requires x > 0.0 && q * x == 1.0 && q < n
    ensures n * x > 1.0
  {
    var p := n * x;
    Grows(q, n, x);
    assert q * x < p;
  }

  lemma Grows(a: real, b: real, c: real)
    requires a < b && c > 0.0
    ensures a * c < b * c
  {}

  lemma Between(lo: real, e: real, hi: real, n: real)
    requires n > 0.0 && lo * n < e < hi * n
    ensures lo < e / n < hi
  {
    assert (e / n) * n == e;
  }

  lemma Spread(lo: real, hi: real, gap: real, n: real)
    requires 0.0 <= lo && hi < 1.0 && n > 0.0 && gap == hi - lo && n * gap > 1.0
    ensures 0.0 <= lo * n && lo * n + 1.0 < hi * n < n
  {
    var l, h, d := lo * n, hi * n, n * gap;
    assert d == h - l && l + 1.0 < h;
    Grows(hi, 1.0, n);
    assert h < 1.0 * n;
  }
}
