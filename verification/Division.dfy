/** Dividing twice, as digits of a number are taken off one at a time. */
module Division {

  lemma DivideTwice(n: nat, d: nat, p: nat)
    requires d > 0 && p > 0
    ensures d * p > 0 && n / (d * p) == n / d / p
  {
    var a, s := n / d, n % d;
    var q, r := a / p, a % p;
    Within(d, p, r, s);
    Recompose(n, d);
    Recompose(a, p);
    Expand(d, p, q, r);
    QuotientIs(n, d * p, q, d * r + s);
  }

  lemma Recompose(n: nat, d: nat)
    requires d > 0
    ensures n == d * (n / d) + n % d
  {
  }

  lemma Expand(d: nat, p: nat, q: nat, r: nat)
    ensures d * (p * q + r) == d * p * q + d * r
  {
  }

  lemma Within(d: nat, p: nat, r: nat, s: nat)
    requires r < p && s < d
    ensures d * r + s < d * p
  {
    Expand(d, 1, r, 1);
    Grows(d, p - (r + 1));
    Expand(d, 1, r + 1, p - (r + 1));
  }

  lemma Grows(d: nat, k: nat)
    ensures d * k >= 0
  {
  }

  lemma QuotientIs(n: nat, m: nat, q: nat, r: nat)
    requires n == m * q + r && r < m
    ensures n / m == q
  {
    assert n == m * (n / m) + n % m;
    assert (n / m - q) * m == r - n % m;
    Multiples(n / m - q, m);
  }

  /** Only the zero multiple of m lies strictly between -m and m. */
  lemma Multiples(e: int, m: int)
    requires m >= 0
    ensures e >= 1 ==> e * m >= m
    ensures e <= -1 ==> e * m <= -m
  {
    if e >= 1 { assert (e - 1) * m >= 0; }
    if e <= -1 { assert (-e - 1) * m >= 0; }
  }
}
