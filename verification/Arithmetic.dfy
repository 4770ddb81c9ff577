/** Products and ceilings built up by repeated addition, for bounds with two unknown factors. */
module Arithmetic {

  /** `k` times `q`, built up one addition at a time. */
  function Times(k: nat, q: nat): nat {
    if k == 0 then 0 else Times(k - 1, q) + q
  }

  lemma {:induction false} TimesIsProduct(k: nat, q: nat)
    ensures Times(k, q) == k * q == q * k
  {
    if k > 0 {
      TimesIsProduct(k - 1, q);
      assert (k - 1) * q == k * q - q;
    }
  }

  lemma TimesMonotoneRight(k: nat, p: nat, q: nat)
    requires p <= q
    ensures Times(k, p) <= Times(k, q)
  {
    if k > 0 { TimesMonotoneRight(k - 1, p, q); }
  }

  lemma {:induction false} TimesCommutes(j: nat, k: nat)
    ensures Times(j, k) == Times(k, j)
  {
    TimesIsProduct(j, k);
    TimesIsProduct(k, j);
  }

  lemma {:induction false} TimesAdds(n: nat, p: nat, q: nat)
    ensures Times(n, p + q) == Times(n, p) + Times(n, q)
  {
    if n > 0 { TimesAdds(n - 1, p, q); }
  }

  lemma {:induction false} TimesSwap(k: nat, j: nat, n: nat)
    ensures Times(k, Times(j, n)) == Times(n, Times(k, j))
  {
    TimesCommutes(j, n);
    if k == 0 {
      TimesCommutes(n, 0);
    } else {
      TimesSwap(k - 1, j, n);
      TimesAdds(n, Times(k - 1, j), j);
    }
  }

  /** How many pieces of size `q` it takes to make up `b`, the last perhaps not whole. */
  function Pieces(b: int, q: nat): nat
    requires q > 0
    decreases if b > 0 then b else 0
  {
    if b <= 0 then 0 else 1 + Pieces(b - q, q)
  }

  lemma {:induction false} PiecesIsCeiling(b: nat, q: nat)
    requires q > 0
    ensures Pieces(b, q) == (b + q - 1) / q
    decreases b
  {
    if b == 0 {
      QuotientIs(q - 1, q, 0);
    } else if b <= q {
      assert Pieces(b - q, q) == 0;
      QuotientIs(b + q - 1, q, 1);
    } else {
      PiecesIsCeiling(b - q, q);
      var e := (b - 1) / q;
      assert e * q <= b - 1 < (e + 1) * q;
      assert (e + 1) * q == e * q + q;
      assert (e + 2) * q == e * q + 2 * q;
      QuotientIs(b + q - 1, q, e + 1);
    }
  }

  lemma OneMoreTimes(a: int, q: int)
    ensures (a + 1) * q == a * q + q
  {}

  lemma {:induction false} Multiples(a: int, b: int, q: int)
    requires q > 0
    ensures a < b ==> a * q + q <= b * q
    ensures (a + 1) * q == a * q + q
    decreases b - a
  {
    OneMoreTimes(a, q);
    if a + 1 < b {
      Multiples(a, b - 1, q);
      OneMoreTimes(b - 1, q);
    }
  }

  lemma QuotientIs(x: int, q: int, e: int)
    requires q > 0 && e * q <= x < (e + 1) * q
    ensures x / q == e
  {
    var d := x / q;
    assert x == d * q + x % q;
    Multiples(d, e, q);
    Multiples(e, d, q);
  }

  lemma {:induction false} PiecesAfter(e: nat, q: nat, m: nat)
    requires 0 < m <= q
    ensures Pieces(Times(e, q) + m, q) == e + 1
  {
    if e == 0 {
      assert Pieces(m - q, q) == 0;
    } else {
      PiecesAfter(e - 1, q, m);
    }
  }
}
