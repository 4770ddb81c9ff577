/** Sums over sequences and sizes of finite sets. */
module Sums {

  function Sum(s: seq<int>): int {
    if s == [] then 0 else Sum(s[..|s| - 1]) + s[|s| - 1]
  }

  /** The numbers 0, 1, ..., n - 1. */
  function Below(n: nat): (s: set<int>)
    ensures forall i :: i in s <==> 0 <= i < n
    ensures |s| == n
  {
    if n == 0 then {} else Below(n - 1) + {n - 1}
  }

  /** How many of the first `t` flags are set. */
  function CountTrue(flags: seq<bool>, t: nat): nat
    requires t <= |flags|
  {
    if t == 0 then 0 else CountTrue(flags, t - 1) + if flags[t - 1] then 1 else 0
  }

  lemma {:induction false} CountAdd(a: seq<bool>, b: seq<bool>, c: seq<bool>, t: nat)
    requires |a| == |b| == |c| && t <= |a|
    requires forall i | 0 <= i < |a| :: !(a[i] && b[i]) && (c[i] <==> a[i] || b[i])
    ensures CountTrue(c, t) == CountTrue(a, t) + CountTrue(b, t)
  {
    if t > 0 { CountAdd(a, b, c, t - 1); }
  }

  lemma {:induction false} CountNone(flags: seq<bool>, t: nat)
    requires t <= |flags|
    ensures CountTrue(flags, t) == 0 <==> forall i | 0 <= i < t :: !flags[i]
  {
    if t > 0 { CountNone(flags, t - 1); }
  }

  lemma SumAppend(s: seq<int>, v: int)
    ensures Sum(s + [v]) == Sum(s) + v
  {
    assert (s + [v])[..|s|] == s;
  }

  lemma {:induction false} SumUpdate(s: seq<int>, i: nat, v: int)
    requires i < |s|
    ensures Sum(s[i := v]) == Sum(s) - s[i] + v
  {
    var n := |s| - 1;
    if i == n {
      assert s[i := v][..n] == s[..n];
    } else {
      assert s[i := v][..n] == s[..n][i := v];
      SumUpdate(s[..n], i, v);
    }
  }

  lemma SumOneChange(a: seq<int>, b: seq<int>, x: nat)
    requires |a| == |b| && x < |a|
    requires forall i | 0 <= i < |a| && i != x :: a[i] == b[i]
    ensures Sum(b) == Sum(a) - a[x] + b[x]
  {
    assert b == a[x := b[x]];
    SumUpdate(a, x, b[x]);
  }

  lemma {:induction false} SumMonotone(a: seq<int>, b: seq<int>)
    requires |a| == |b|
    requires forall i | 0 <= i < |a| :: a[i] <= b[i]
    ensures Sum(a) <= Sum(b)
    ensures Sum(a) == Sum(b) ==> a == b
  {
    if a != [] {
      var n := |a| - 1;
      SumMonotone(a[..n], b[..n]);
      if Sum(a) == Sum(b) {
        assert a == a[..n] + [a[n]] == b[..n] + [b[n]] == b;
      }
    }
  }

  lemma {:induction false} SumAdd(a: seq<int>, b: seq<int>, c: seq<int>)
    requires |a| == |b| == |c|
    requires forall i | 0 <= i < |a| :: c[i] == a[i] + b[i]
    ensures Sum(c) == Sum(a) + Sum(b)
  {
    if a != [] {
      var n := |a| - 1;
      SumAdd(a[..n], b[..n], c[..n]);
    }
  }

  lemma {:induction false} SumZero(s: seq<int>)
    requires forall i | 0 <= i < |s| :: s[i] == 0
    ensures Sum(s) == 0
  {
    if s != [] { SumZero(s[..|s| - 1]); }
  }

  lemma {:induction false} SumConstant(s: seq<int>, v: int)
    requires forall i | 0 <= i < |s| :: s[i] == v
    ensures Sum(s) == |s| * v
  {
    if s != [] {
      SumConstant(s[..|s| - 1], v);
      assert |s| * v == (|s| - 1) * v + v;
    }
  }

  /** A sum of non-negative numbers bounds each of them. */
  lemma SumBounds(s: seq<int>, i: nat)
    requires i < |s|
    requires forall k | 0 <= k < |s| :: s[k] >= 0
    ensures 0 <= s[i] <= Sum(s)
  {
    SumUpdate(s, i, 0);
    var z := seq(|s|, k => 0);
    SumZero(z);
    SumMonotone(z, s[i := 0]);
  }

  lemma SubsetSize<T>(a: set<T>, b: set<T>)
    requires a <= b
    ensures |a| <= |b|
    ensures |a| == |b| ==> a == b
  {
    assert b == a + (b - a);
  }
}
