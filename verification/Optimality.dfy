/** What the charts of the four policies have in common, and which of them cannot be beaten. */
module Optimality {
  import opened Schedule
  import opened Sums

  // ----- Shortest remaining time first: the exchange argument -----

  function Masked(r: seq<int>, X: set<int>): seq<int> {
    seq(|r|, i requires 0 <= i < |r| => if i in X then r[i] else 0)
  }

  /** Work left in `A` when the jobs in `K` are forgiven. */
  function WorkWithout(A: set<int>, r: seq<int>, K: set<int>): int {
    Sum(Masked(r, A - K))
  }

  /** Forgiving some `k` jobs or fewer leaves at most `w` units of work. */
  ghost predicate Matches(A: set<int>, r: seq<int>, k: nat, w: int) {
    exists K {:trigger WorkWithout(A, r, K)} | K <= A && |K| <= k :: WorkWithout(A, r, K) <= w
  }

  /** However many jobs the state `q` is forgiven, forgiving `r` no more jobs leaves no more work.
      Equivalently: for every k, the work outside the k longest jobs is no larger in `r`. */
  ghost predicate Dominates(A: set<int>, r: seq<int>, q: seq<int>) {
    forall K {:trigger WorkWithout(A, q, K)} | K <= A :: Matches(A, r, |K|, WorkWithout(A, q, K))
  }

  ghost predicate NonNegative(r: seq<int>) {
    forall i | 0 <= i < |r| :: r[i] >= 0
  }

  function AfterUnit(r: seq<int>, s: int): seq<int>
    requires s == IDLE || 0 <= s < |r|
  {
    if s == IDLE then r else r[s := r[s] - 1]
  }

  /** `s` is what a shortest-first policy may serve when `A` has arrived and `r` is owed. */
  ghost predicate IsShortest(A: set<int>, r: seq<int>, s: int)
    requires forall i | i in A :: 0 <= i < |r|
  {
    if s == IDLE then forall i | i in A :: r[i] == 0
    else s in A && r[s] > 0 && forall i | i in A && r[i] > 0 :: r[s] <= r[i]
  }

  /** Serving a shortest job takes one unit off the work left after forgiving `K`, for some `W` no
      larger than `K` in its place. */
  lemma ForgiveAfterUnit(A: set<int>, r: seq<int>, s: int, K: set<int>) returns (W: set<int>)
    requires NonNegative(r) && K <= A
    requires forall i | i in A :: 0 <= i < |r|
    requires IsShortest(A, r, s)
    ensures W <= A && |W| <= |K|
    ensures WorkWithout(A, AfterUnit(r, s), W) <= 0 || WorkWithout(A, AfterUnit(r, s), W) <= WorkWithout(A, r, K) - 1
  {
    W := K;
    if i :| i in A - K && r[i] > 0 {
      if s in K {
        // Forgive `i`, which is at least as long, in place of `s`.
        W := K - {s} + {i};
        WorkSwap(A, r, K, s, i);
      }
      WorkAfterUnit(A, r, W, s);
    } else {
      SumZero(Masked(AfterUnit(r, s), A - K));
    }
  }

  /** One unit given to the shortest job on the left keeps dominance over one unit given to any
      job (or to none) on the right. */
  lemma DominatesStep(A: set<int>, r: seq<int>, q: seq<int>, s: int, j: int)
    requires |r| == |q| && NonNegative(r) && NonNegative(q) && Dominates(A, r, q)
    requires forall i | i in A :: 0 <= i < |r|
    requires IsShortest(A, r, s)
    requires j == IDLE || (j in A && q[j] > 0)
    ensures Dominates(A, AfterUnit(r, s), AfterUnit(q, j))
  {
    forall K | K <= A
      ensures Matches(A, AfterUnit(r, s), |K|, WorkWithout(A, AfterUnit(q, j), K))
    {
      var K' :| K' <= A && |K'| <= |K| && WorkWithout(A, r, K') <= WorkWithout(A, q, K);
      WorkAfterUnit(A, q, K, j);
      WorkNonNegative(A, AfterUnit(q, j), K);
      var W := ForgiveAfterUnit(A, r, s, K');
    }
  }

  lemma WorkNonNegative(A: set<int>, r: seq<int>, K: set<int>)
    requires NonNegative(r)
    ensures WorkWithout(A, r, K) >= 0
  {
    var z := seq(|r|, i => 0);
    SumZero(z);
    SumMonotone(z, Masked(r, A - K));
  }

  lemma WorkAfterUnit(A: set<int>, r: seq<int>, K: set<int>, s: int)
    requires s == IDLE || (s in A && 0 <= s < |r|)
    ensures WorkWithout(A, AfterUnit(r, s), K)
         == WorkWithout(A, r, K) - if s != IDLE && s !in K then 1 else 0
  {
    if s != IDLE {
      var m := Masked(r, A - K);
      if s !in K {
        assert Masked(r[s := r[s] - 1], A - K) == m[s := m[s] - 1];
        SumUpdate(m, s, m[s] - 1);
      } else {
        assert Masked(r[s := r[s] - 1], A - K) == m;
      }
    }
  }

  lemma WorkSwap(A: set<int>, r: seq<int>, K: set<int>, s: int, i: int)
    requires s in A && s in K && i in A && i !in K
    requires 0 <= s < |r| && 0 <= i < |r|
    ensures WorkWithout(A, r, K - {s} + {i}) == WorkWithout(A, r, K) + r[s] - r[i]
  {
    var m := Masked(r, A - K);
    assert Masked(r, A - (K - {s} + {i})) == m[i := 0][s := r[s]];
    SumUpdate(m, i, 0);
    SumUpdate(m[i := 0], s, r[s]);
  }

  lemma WorkSplit(A: set<int>, N: set<int>, r: seq<int>, Ka: set<int>, Kn: set<int>)
    requires A !! N && Ka <= A && Kn <= N
    ensures WorkWithout(A + N, r, Ka + Kn) == WorkWithout(A, r, Ka) + WorkWithout(N, r, Kn)
  {
    SumAdd(Masked(r, A - Ka), Masked(r, N - Kn), Masked(r, A + N - (Ka + Kn)));
  }

  /** Newly arrived jobs, equally long on both sides, keep dominance. */
  lemma DominatesArrivals(A: set<int>, N: set<int>, r: seq<int>, q: seq<int>)
    requires |r| == |q| && Dominates(A, r, q) && A !! N
    requires forall i | i in N :: 0 <= i < |r| && r[i] == q[i]
    ensures Dominates(A + N, r, q)
  {
    forall K | K <= A + N
      ensures Matches(A + N, r, |K|, WorkWithout(A + N, q, K))
    {
      var Ka, Kn := K * A, K * N;
      var Ka' :| Ka' <= A && |Ka'| <= |Ka| && WorkWithout(A, r, Ka') <= WorkWithout(A, q, Ka);
      assert K == Ka + Kn;
      WorkSplit(A, N, r, Ka', Kn);
      WorkSplit(A, N, q, Ka, Kn);
      assert Masked(r, N - Kn) == Masked(q, N - Kn);
      assert |Ka' + Kn| == |Ka'| + |Kn|;
    }
  }

  // ----- Dominance along two charts -----

  function Arrived(jobs: seq<Job>, t: int): set<int> {
    set i | 0 <= i < |jobs| && jobs[i].arrival <= t
  }

  lemma OwedAfterSlot(jobs: seq<Job>, c: Chart, t: nat)
    requires Legal(jobs, c) && t < |c|
    ensures c[t] != IDLE ==> Ready(jobs, c[..t], c[t])
    ensures Owed(jobs, c[..t + 1]) == AfterUnit(Owed(jobs, c[..t]), c[t])
  {
    assert LegalSlot(jobs, c, t);
    assert c[..t + 1] == c[..t] + [c[t]];
    forall i | 0 <= i < |jobs| ensures Ran(c[..t + 1], i) == Ran(c[..t], i) + if i == c[t] then 1 else 0 {
      AppendSlot(c[..t], c[t], i);
    }
  }

  lemma {:induction false} DominanceOverTime(jobs: seq<Job>, c: Chart, o: Chart, t: nat)
    requires Proper(jobs) && ShortestFirst(jobs, c) && Legal(jobs, o)
    requires t <= |c| && t <= |o|
    ensures Dominates(Arrived(jobs, t), Owed(jobs, c[..t]), Owed(jobs, o[..t]))
  {
    if t == 0 {
      var A := Arrived(jobs, t);
      assert Owed(jobs, c[..t]) == Owed(jobs, o[..t]);
      forall K | K <= A ensures WorkWithout(A, Owed(jobs, c[..t]), K) <= WorkWithout(A, Owed(jobs, o[..t]), K) {}
    } else {
      DominanceOverTime(jobs, c, o, t - 1);
      DominanceAfterSlot(jobs, c, o, t - 1);
      var N := Arrived(jobs, t) - Arrived(jobs, t - 1);
      forall i | i in N ensures Ran(c[..t], i) == 0 == Ran(o[..t], i) {
        LegalPrefix(jobs, c, t);
        LegalPrefix(jobs, o, t);
        LegalRan(jobs, c[..t], i);
        LegalRan(jobs, o[..t], i);
      }
      DominatesArrivals(Arrived(jobs, t - 1), N, Owed(jobs, c[..t]), Owed(jobs, o[..t]));
      assert Arrived(jobs, t) == Arrived(jobs, t - 1) + N;
    }
  }

  lemma DominanceAfterSlot(jobs: seq<Job>, c: Chart, o: Chart, t: nat)
    requires Proper(jobs) && ShortestFirst(jobs, c) && Legal(jobs, o)
    requires t < |c| && t < |o|
    requires Dominates(Arrived(jobs, t), Owed(jobs, c[..t]), Owed(jobs, o[..t]))
    ensures Dominates(Arrived(jobs, t), Owed(jobs, c[..t + 1]), Owed(jobs, o[..t + 1]))
  {
    OwedNonNegative(jobs, c, t);
    OwedNonNegative(jobs, o, t);
    OwedAfterSlot(jobs, c, t);
    OwedAfterSlot(jobs, o, t);
    SlotIsShortest(jobs, c, t);
    DominatesStep(Arrived(jobs, t), Owed(jobs, c[..t]), Owed(jobs, o[..t]), c[t], o[t]);
  }

  lemma OwedNonNegative(jobs: seq<Job>, c: Chart, t: nat)
    requires Proper(jobs) && Legal(jobs, c) && t <= |c|
    ensures NonNegative(Owed(jobs, c[..t]))
  {
    LegalPrefix(jobs, c, t);
    forall i | 0 <= i < |jobs| ensures Ran(c[..t], i) <= jobs[i].burst {
      LegalRan(jobs, c[..t], i);
    }
  }

  lemma SlotIsShortest(jobs: seq<Job>, c: Chart, t: nat)
    requires Proper(jobs) && ShortestFirst(jobs, c) && t < |c|
    ensures IsShortest(Arrived(jobs, t), Owed(jobs, c[..t]), c[t])
  {
    OwedNonNegative(jobs, c, t);
    assert ConservingSlot(jobs, c, t) && ShortestSlot(jobs, c, t);
    forall i | i in Arrived(jobs, t) && Owed(jobs, c[..t])[i] > 0 ensures Ready(jobs, c[..t], i) {}
  }

  // ----- Unfinished jobs, and turnaround as a sum over time -----

  function Unfinished(jobs: seq<Job>, past: Chart): set<int> {
    set i | 0 <= i < |jobs| && Ran(past, i) < jobs[i].burst
  }

  /** At no time does a shortest-first chart have more unfinished jobs than another schedule. */
  lemma FewestUnfinished(jobs: seq<Job>, c: Chart, o: Chart, t: nat)
    requires Proper(jobs) && ShortestFirst(jobs, c) && Legal(jobs, o)
    requires t <= |c| && t <= |o|
    ensures |Unfinished(jobs, c[..t])| <= |Unfinished(jobs, o[..t])|
  {
    DominanceOverTime(jobs, c, o, t);
    OwedNonNegative(jobs, c, t);
    OwedNonNegative(jobs, o, t);
    var A, r, q := Arrived(jobs, t), Owed(jobs, c[..t]), Owed(jobs, o[..t]);
    var U, V := Unfinished(jobs, c[..t]), Unfinished(jobs, o[..t]);
    SumZero(Masked(q, A - V * A));
    var K :| K <= A && |K| <= |V * A| && WorkWithout(A, r, K) <= WorkWithout(A, q, V * A);
    NoWorkLeft(A, r, K);
    LegalPrefix(jobs, c, t);
    LegalPrefix(jobs, o, t);
    forall i | 0 <= i < |jobs| && i !in A ensures i in U && i in V {
      LegalRan(jobs, c[..t], i);
      LegalRan(jobs, o[..t], i);
    }
    forall i | i in U ensures i in K + (V - A) {
      assert i in A ==> r[i] > 0;
    }
    assert V == V * A + (V - A);
    SubsetSize(U, K + (V - A));
  }

  lemma NoWorkLeft(A: set<int>, r: seq<int>, K: set<int>)
    requires NonNegative(r) && WorkWithout(A, r, K) <= 0
    ensures forall i | i in A - K && 0 <= i < |r| :: r[i] == 0
  {
    forall i | i in A - K && 0 <= i < |r| ensures r[i] == 0 {
      SumBounds(Masked(r, A - K), i);
    }
  }

  function Indicator(n: nat, X: set<int>): seq<int> {
    seq(n, i => if i in X then 1 else 0)
  }

  lemma RemoveSize(X: set<int>, x: int)
    ensures |X - {x}| == |X| - if x in X then 1 else 0
  {
    if x in X { assert X == X - {x} + {x}; } else { assert X == X - {x}; }
  }

  lemma IndicatorLast(n: nat, X: set<int>)
    requires n > 0
    ensures Indicator(n, X) == Indicator(n - 1, X - {n - 1}) + [if n - 1 in X then 1 else 0]
  {}

  lemma {:induction false} IndicatorSum(n: nat, X: set<int>)
    requires forall i | i in X :: 0 <= i < n
    ensures Sum(Indicator(n, X)) == |X|
  {
    if n == 0 {
      assert X == {} by {
        assert forall i :: i !in X;
      }
    } else {
      IndicatorSum(n - 1, X - {n - 1});
      RemoveSize(X, n - 1);
      IndicatorLast(n, X);
      SumAppend(Indicator(n - 1, X - {n - 1}), if n - 1 in X then 1 else 0);
    }
  }

  /** Number of unfinished jobs summed over the first `t` time units. */
  function UnfinishedTime(jobs: seq<Job>, c: Chart, t: nat): int
    requires t <= |c|
  {
    if t == 0 then 0 else UnfinishedTime(jobs, c, t - 1) + |Unfinished(jobs, c[..t - 1])|
  }

  function EndsUpTo(jobs: seq<Job>, c: Chart, t: nat): seq<int> {
    seq(|jobs|, i requires 0 <= i < |jobs| => if LastEnd(c, i) < t then LastEnd(c, i) else t)
  }

  lemma {:induction false} UnfinishedUntilLastEnd(jobs: seq<Job>, c: Chart, i: nat, t: nat)
    requires i < |jobs| && t <= |c| && Ran(c, i) == jobs[i].burst >= 1
    ensures i in Unfinished(jobs, c[..t]) <==> t < LastEnd(c, i)
  {
    RanAfterLastEnd(c, i, t);
  }

  lemma {:induction false} RanAfterLastEnd(c: Chart, i: int, t: nat)
    requires t <= |c|
    ensures Ran(c[..t], i) < Ran(c, i) <==> t < LastEnd(c, i)
  {
    if t == |c| {
      assert c[..t] == c;
    } else {
      var n := |c| - 1;
      assert c[..n][..t] == c[..t];
      RanAfterLastEnd(c[..n], i, t);
      RanPrefix(c[..n], t, i);
    }
  }

  lemma {:induction false} EndsByTime(jobs: seq<Job>, c: Chart, t: nat)
    requires Proper(jobs) && Finished(jobs, c) && t <= |c|
    ensures Sum(EndsUpTo(jobs, c, t)) == UnfinishedTime(jobs, c, t)
  {
    if t == 0 {
      SumZero(EndsUpTo(jobs, c, 0));
    } else {
      EndsByTime(jobs, c, t - 1);
      var X := Unfinished(jobs, c[..t - 1]);
      IndicatorSum(|jobs|, X);
      forall i | 0 <= i < |jobs| ensures i in X <==> t - 1 < LastEnd(c, i) {
        UnfinishedUntilLastEnd(jobs, c, i, t - 1);
      }
      SumAdd(EndsUpTo(jobs, c, t - 1), Indicator(|jobs|, X), EndsUpTo(jobs, c, t));
    }
  }

  function Arrivals(jobs: seq<Job>): seq<int> {
    seq(|jobs|, i requires 0 <= i < |jobs| => jobs[i].arrival)
  }

  /** Total turnaround counts, at every time unit, the jobs still unfinished. */
  lemma TurnaroundByTime(jobs: seq<Job>, c: Chart)
    requires Proper(jobs) && Finished(jobs, c)
    ensures TotalTurnaround(jobs, c) == UnfinishedTime(jobs, c, |c|) - Sum(Arrivals(jobs))
  {
    EndsByTime(jobs, c, |c|);
    SumAdd(Turnarounds(jobs, c), Arrivals(jobs), EndsUpTo(jobs, c, |c|));
  }

  // ----- Optimality -----

  lemma {:induction false} FewerUnfinishedTime(jobs: seq<Job>, c: Chart, o: Chart, t: nat)
    requires Proper(jobs) && ShortestFirst(jobs, c) && Legal(jobs, o)
    requires t <= |c| && t <= |o|
    ensures UnfinishedTime(jobs, c, t) <= UnfinishedTime(jobs, o, t)
  {
    if t > 0 {
      FewerUnfinishedTime(jobs, c, o, t - 1);
      FewestUnfinished(jobs, c, o, t - 1);
    }
  }

  lemma {:induction false} UnfinishedTimeGrows(jobs: seq<Job>, c: Chart, s: nat, t: nat)
    requires s <= t <= |c|
    ensures UnfinishedTime(jobs, c, s) <= UnfinishedTime(jobs, c, t)
  {
    if s < t { UnfinishedTimeGrows(jobs, c, s, t - 1); }
  }

  /** No preemptive schedule of the same jobs has a smaller total turnaround than a chart that
      always serves a job of least remaining time, whatever its ties. */
  lemma ShortestFirstOptimal(jobs: seq<Job>, c: Chart, o: Chart)
    requires Proper(jobs)
    requires ShortestFirst(jobs, c) && Finished(jobs, c)
    requires Legal(jobs, o) && Finished(jobs, o)
    ensures TotalTurnaround(jobs, c) <= TotalTurnaround(jobs, o)
  {
    TurnaroundByTime(jobs, c);
    TurnaroundByTime(jobs, o);
    if |c| <= |o| {
      FewerUnfinishedTime(jobs, c, o, |c|);
      UnfinishedTimeGrows(jobs, o, |c|, |o|);
    } else {
      // Past its end the other chart idles.
      var p := RunFor(o, IDLE, |c| - |o|);
      Padded(jobs, o, |c| - |o|);
      TurnaroundByTime(jobs, p);
      FewerUnfinishedTime(jobs, c, p, |c|);
    }
  }

  lemma Padded(jobs: seq<Job>, o: Chart, m: nat)
    requires Legal(jobs, o) && Finished(jobs, o)
    ensures var p := RunFor(o, IDLE, m);
            Legal(jobs, p) && Finished(jobs, p) && TotalTurnaround(jobs, p) == TotalTurnaround(jobs, o)
  {
    var p := RunFor(o, IDLE, m);
    forall i | 0 <= i < |jobs| ensures Ran(p, i) == Ran(o, i) && LastEnd(p, i) == LastEnd(o, i) {
      RunForJob(o, IDLE, m, i);
    }
    assert Turnarounds(jobs, p) == Turnarounds(jobs, o);
    PaddedLegal(jobs, o, m);
  }

  lemma PaddedLegal(jobs: seq<Job>, o: Chart, m: nat)
    requires Legal(jobs, o)
    ensures Legal(jobs, RunFor(o, IDLE, m))
  {
    var p := RunFor(o, IDLE, m);
    forall t | 0 <= t < |p| ensures LegalSlot(jobs, p, t) {
      if t >= |o| {
        RunForSlots(o, IDLE, m, t);
      } else {
        ExtensionSlot(jobs, o, p, t);
        assert LegalSlot(jobs, o, t);
      }
    }
  }

  // ----- Makespan -----

  ghost predicate EndsBusy(c: Chart) {
    c != [] ==> c[|c| - 1] != IDLE
  }

  lemma WorkAfterSlot(jobs: seq<Job>, c: Chart, t: nat)
    requires Legal(jobs, c) && t < |c|
    ensures Sum(RanAll(jobs, c[..t + 1])) == Sum(RanAll(jobs, c[..t])) + if c[t] == IDLE then 0 else 1
  {
    assert LegalSlot(jobs, c, t);
    assert c[..t + 1] == c[..t] + [c[t]];
    forall i | 0 <= i < |jobs| ensures Ran(c[..t + 1], i) == Ran(c[..t], i) + if i == c[t] then 1 else 0 {
      AppendSlot(c[..t], c[t], i);
    }
    if c[t] == IDLE {
      assert RanAll(jobs, c[..t + 1]) == RanAll(jobs, c[..t]);
    } else {
      assert RanAll(jobs, c[..t + 1]) == RanAll(jobs, c[..t])[c[t] := Ran(c[..t], c[t]) + 1];
      SumUpdate(RanAll(jobs, c[..t]), c[t], Ran(c[..t], c[t]) + 1);
    }
  }

  /** A work-conserving chart has, at every time, done at least the work of any other. */
  lemma {:induction false} MostWorkDone(jobs: seq<Job>, c: Chart, o: Chart, t: nat)
    requires Sane(jobs) && WorkConserving(jobs, c) && Legal(jobs, o)
    requires t <= |c| && t <= |o|
    ensures Sum(RanAll(jobs, c[..t])) >= Sum(RanAll(jobs, o[..t]))
  {
    if t == 0 {
      assert RanAll(jobs, c[..t]) == RanAll(jobs, o[..t]);
    } else {
      var u := t - 1;
      MostWorkDone(jobs, c, o, u);
      WorkAfterSlot(jobs, c, u);
      WorkAfterSlot(jobs, o, u);
      if c[u] == IDLE {
        assert ConservingSlot(jobs, c, u);
        LegalPrefix(jobs, o, t);
        LegalPrefix(jobs, c, u);
        forall i | 0 <= i < |jobs| ensures RanAll(jobs, o[..t])[i] <= RanAll(jobs, c[..u])[i] {
          LegalRan(jobs, o[..t], i);
          LegalRan(jobs, c[..u], i);
          assert !Ready(jobs, c[..u], i);
        }
        SumMonotone(RanAll(jobs, o[..t]), RanAll(jobs, c[..u]));
      }
    }
  }

  /** A work-conserving chart that does not end idle finishes as early as any schedule can; so any
      two of them finish at the same time. */
  lemma MakespanMinimal(jobs: seq<Job>, c: Chart, o: Chart)
    requires Sane(jobs)
    requires WorkConserving(jobs, c) && Finished(jobs, c) && EndsBusy(c)
    requires Legal(jobs, o) && Finished(jobs, o)
    ensures |c| <= |o|
  {
    if |c| > |o| {
      var t := |o|;
      assert o[..t] == o;
      MostWorkDone(jobs, c, o, t);
      LegalPrefix(jobs, c, t);
      forall i | 0 <= i < |jobs| ensures RanAll(jobs, c[..t])[i] <= RanAll(jobs, o)[i] {
        LegalRan(jobs, c[..t], i);
      }
      SumMonotone(RanAll(jobs, c[..t]), RanAll(jobs, o));
      forall i | 0 <= i < |jobs| ensures Ran(c[..t], i) == jobs[i].burst {
        assert RanAll(jobs, c[..t])[i] == RanAll(jobs, o)[i];
      }
      var last := |c| - 1;
      assert LegalSlot(jobs, c, last);
      assert c[..last][..t] == c[..t];
      RanPrefix(c[..last], t, c[last]);
    }
  }
}
