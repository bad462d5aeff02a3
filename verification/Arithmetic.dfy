/** Products, quotients and remainders of variables. */
module Arithmetic {

  lemma Below(a: nat, b: nat, s: nat)
    requires a <= b
    ensures a * s <= b * s
  {
  }

  lemma ProductsOrder(a: nat, b: nat, s: nat)
    ensures a * s < b * s ==> a < b
  {
    if a >= b {
      Below(b, a, s);
    }
  }

  lemma Division(v: nat, n: nat)
    requires 0 < n
    ensures v == v / n * n + v % n && v % n < n
  {
  }

  lemma QuotientIs(v: nat, n: nat, q: nat, r: nat)
    requires r < n && v == q * n + r
    ensures v / n == q && v % n == r
  {
    Division(v, n);
    var p := v / n;
    if p < q {
      Below(p + 1, q, n);
    } else if q < p {
      Below(q + 1, p, n);
    }
  }

  lemma ProductDivides(i: nat, s: nat)
    requires s > 0
    ensures (i * s) / s == i && (i * s) % s == 0
  {
    var q := i * s / s;
    Division(i * s, s);
    assert i * s < (q + 1) * s;
    ProductsOrder(i, q + 1, s);
    assert q * s < (i + 1) * s;
    ProductsOrder(q, i + 1, s);
  }

  lemma QuotientShrinks(v: nat, n: nat)
    requires n >= 2
    ensures v / n <= v / 2 && (v > 0 ==> v / n < v)
  {
    Division(v, n);
    var q := v / n;
    Below(2, n, q);
    assert q * 2 <= v;
  }

  function Quotient(v: nat, n: nat): nat
    requires n > 0
  {
    v / n
  }

  function Remainder(v: nat, n: nat): (r: nat)
    requires n > 0
    ensures r < n
  {
    v % n
  }

  function TwoTo(k: nat): nat {
    if k == 0 then 1 else 2 * TwoTo(k - 1)
  }

  lemma SmallQuotient(v: nat, n: nat)
    requires n > 0
    ensures v < n <==> v / n == 0
    ensures v < n ==> v % n == v
  {
  }
}
