/** The little nonlinear arithmetic the models need. */
module Division {

  lemma MultipleGap(x: int, y: int, b: nat)
    ensures x < y ==> x * b + b <= y * b
  {
    if x < y {
      var d: nat := y - x - 1;
      assert y * b == (x + 1 + d) * b == x * b + b + d * b;
    }
  }

  lemma QuotientIs(a: int, b: nat, q: int)
    requires b >= 1
    ensures a / b == q <==> q * b <= a < q * b + b
  {
    var p := a / b;
    assert a == p * b + a % b;
    MultipleGap(p, q, b);
    MultipleGap(q, p, b);
  }

  lemma MultipleRemainder(q: nat, n: nat)
    requires n >= 1
    ensures (n * q) % n == 0
  {
    QuotientIs(n * q, n, q);
    assert n * q == q * n;
  }

  lemma ScaledUp(n: nat, k: nat)
    requires k >= 1
    ensures n <= n * k
  {
    MultipleGap(0, k, n);
    assert k * n == n * k;
  }

  lemma Halved(d: nat, k: nat, h: nat)
    requires k > 1 && d < 2 * h
    ensures d / k < h
  {
    var q := d / k;
    QuotientIs(d, k, q);
    MultipleGap(1, k, q);
  }

  /** Reduction modulo m of a number that is at most one turn out of range. */
  lemma Wraps(a: int, m: nat)
    requires 0 - m <= a < 2 * m
    ensures a % m == if a < 0 then a + m else if a < m then a else a - m
  {
    QuotientIs(a, m, if a < 0 then -1 else if a < m then 0 else 1);
    assert a == (a / m) * m + a % m;
  }
}
