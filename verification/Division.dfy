/** Products and remainders of natural numbers. */
module Division {

  lemma MultipleIsFar(d: int, n: nat)
    ensures (d >= 1 ==> d * n >= n) && (d <= -1 ==> d * n + n <= 0)
  {
    if d >= 1 {
      assert d * n == n + (d - 1) * n;
    } else if d <= -1 {
      assert d * n == (d + 1) * n - n;
    }
  }

  lemma QuotientIs(x: nat, q: nat, r: nat, n: nat)
    requires n >= 1 && r < n && x == q * n + r
    ensures x / n == q && x % n == r
  {
    var d := x / n - q;
    assert d * n == r - x % n;
    MultipleIsFar(d, n);
  }

  lemma Regroup(a: nat, q: nat, b: nat)
    ensures (a * q) * b == q * (a * b)
  {
  }

  lemma Scale(a: nat, y: nat, q: nat, b: nat, r: nat)
    requires y == q * b + r
    ensures a * y == q * (a * b) + a * r
  {
    assert a * (q * b) == q * (a * b);
  }

  lemma RemaindersJoin(a: nat, b: nat, r: nat, s: nat)
    requires r < b && s < a
    ensures a * r + s < a * b
  {
    ProductsOrdered(r + 1, b, a, a);
  }

  lemma DivideInSteps(x: nat, a: nat, b: nat)
    requires a >= 1 && b >= 1
    ensures a * b >= 1 && x / a / b == x / (a * b)
  {
    var y := x / a;
    var q, r := y / b, y % b;
    Scale(a, y, q, b, r);
    RemaindersJoin(a, b, r, x % a);
    QuotientIs(x, q, a * r + x % a, a * b);
  }

  lemma ModStep(x: nat, y: nat, n: nat)
    requires n >= 1 && x % n + y < n
    ensures (x + y) % n == x % n + y
  {
    var q := x / n;
    assert x + y == q * n + (x % n + y);
    QuotientIs(x + y, q, x % n + y, n);
  }

  lemma ModWrap(x: nat, y: nat, n: nat)
    requires n >= 1 && n <= x % n + y < 2 * n
    ensures (x + y) % n == x % n + y - n
  {
    var q := x / n;
    assert x + y == (q + 1) * n + (x % n + y - n);
    QuotientIs(x + y, q + 1, x % n + y - n, n);
  }

  lemma ProductsOrdered(a: nat, b: nat, x: nat, y: nat)
    requires a <= b && x <= y
    ensures a * x <= b * y
  {
    assert b * y == a * x + a * (y - x) + (b - a) * y;
  }

  lemma MultiplesApart(i: nat, q: nat, p: nat)
    ensures i * p <= q * p || i * p >= (q + 1) * p
  {
    if i <= q {
      ProductsOrdered(i, q, p, p);
    } else {
      ProductsOrdered(q + 1, i, p, p);
    }
  }

  lemma MultipleModMultiple(k: nat, length: nat, slots: nat)
    requires slots * length >= 1
    ensures (k * length) % (slots * length) + length <= slots * length
  {
    var q, r := k / slots, k % slots;
    Distribute(k, q, r, length, slots);
    var spare: nat := slots - 1 - r;
    assert (spare + 1 + r) * length == spare * length + length + r * length;
    QuotientIs(k * length, q, r * length, slots * length);
  }

  lemma Distribute(k: nat, q: nat, r: nat, length: nat, slots: nat)
    requires k == q * slots + r
    ensures k * length == q * (slots * length) + r * length
  {
    assert (q * slots) * length == q * (slots * length);
  }
}
