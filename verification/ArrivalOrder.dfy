/** Serving in order of arrival: no schedule, preemptive or not, has a smaller largest turnaround. */
module ArrivalOrder {
  import opened Schedule
  import opened Optimality

  /** Earlier arrival, or the same arrival and a lower index. */
  predicate Earlier(jobs: seq<Job>, a: int, b: int)
    requires 0 <= a < |jobs| && 0 <= b < |jobs|
  {
    jobs[a].arrival < jobs[b].arrival || (jobs[a].arrival == jobs[b].arrival && a < b)
  }

  /** Jobs that have run did so in order of arrival. */
  predicate ServedInOrder(jobs: seq<Job>, c: Chart) {
    forall a, b | 0 <= a < |jobs| && 0 <= b < |jobs| && Ran(c, a) > 0 && Ran(c, b) > 0 && Earlier(jobs, a, b) ::
      LastEnd(c, a) <= FirstSlot(c, b)
  }

  // ----- The jobs up to one of them -----

  /** Job `i` is job `j` or comes before it. */
  predicate UpTo(jobs: seq<Job>, j: int, i: int)
    requires 0 <= j < |jobs|
  {
    0 <= i < |jobs| && (i == j || Earlier(jobs, i, j))
  }

  /** The same jobs, those after job `j` asking for nothing. */
  function Only(jobs: seq<Job>, j: int): (r: seq<Job>)
    requires 0 <= j < |jobs|
    ensures |r| == |jobs|
  {
    seq(|jobs|, i requires 0 <= i < |jobs| => if UpTo(jobs, j, i) then jobs[i] else Job(jobs[i].arrival, 0))
  }

  /** The schedule left when jobs after job `j` are taken out. */
  function Mask(jobs: seq<Job>, j: int, c: Chart): (r: Chart)
    requires 0 <= j < |jobs|
    ensures |r| == |c|
  {
    seq(|c|, t requires 0 <= t < |c| => if UpTo(jobs, j, c[t]) then c[t] else IDLE)
  }

  lemma {:induction false} MaskRan(jobs: seq<Job>, j: int, c: Chart, i: int)
    requires 0 <= j < |jobs| && i != IDLE
    ensures Ran(Mask(jobs, j, c), i) == if UpTo(jobs, j, i) then Ran(c, i) else 0
  {
    if c != [] {
      var n := |c| - 1;
      MaskRan(jobs, j, c[..n], i);
      assert Mask(jobs, j, c)[..n] == Mask(jobs, j, c[..n]);
    }
  }

  lemma MaskReady(jobs: seq<Job>, j: int, past: Chart, i: int)
    requires 0 <= j < |jobs|
    ensures Ready(Only(jobs, j), Mask(jobs, j, past), i) <==> UpTo(jobs, j, i) && Ready(jobs, past, i)
  {
    if 0 <= i < |jobs| { MaskRan(jobs, j, past, i); }
  }

  lemma MaskLegal(jobs: seq<Job>, j: int, c: Chart)
    requires 0 <= j < |jobs| && Legal(jobs, c)
    ensures Legal(Only(jobs, j), Mask(jobs, j, c))
  {
    var d := Mask(jobs, j, c);
    forall t | 0 <= t < |d| ensures LegalSlot(Only(jobs, j), d, t) {
      assert LegalSlot(jobs, c, t) && d[..t] == Mask(jobs, j, c[..t]);
      MaskReady(jobs, j, c[..t], d[t]);
    }
  }

  /** With job `j` and those before it done, the masked schedule is finished. */
  lemma MaskFinished(jobs: seq<Job>, j: int, c: Chart)
    requires 0 <= j < |jobs| && forall i | UpTo(jobs, j, i) :: Ran(c, i) == jobs[i].burst
    ensures Finished(Only(jobs, j), Mask(jobs, j, c))
  {
    forall i | 0 <= i < |jobs| ensures Ran(Mask(jobs, j, c), i) == Only(jobs, j)[i].burst {
      MaskRan(jobs, j, c, i);
    }
  }

  // ----- In order of arrival, nothing later runs before job j is done -----

  lemma OnlyEarlierRun(jobs: seq<Job>, c: Chart, j: int, t: nat)
    requires Legal(jobs, c) && ServedInOrder(jobs, c) && 0 <= j < |jobs| && Ran(c, j) > 0 && t < LastEnd(c, j)
    ensures c[t] == IDLE || UpTo(jobs, j, c[t])
  {
    assert LegalSlot(jobs, c, t);
    SlotWithin(c, t);
  }

  /** Up to the end of job `j` the schedule is its own mask, and has done all of job `j` and of every
      job before it. */
  lemma DoneInOrder(jobs: seq<Job>, c: Chart, j: int)
    requires Proper(jobs) && WorkConserving(jobs, c) && ServedInOrder(jobs, c) && Finished(jobs, c) && 0 <= j < |jobs|
    ensures var e := LastEnd(c, j);
            0 < e <= |c| && c[e - 1] == j && Mask(jobs, j, c[..e]) == c[..e]
            && forall i | UpTo(jobs, j, i) :: Ran(c[..e], i) == jobs[i].burst
  {
    var e := LastEnd(c, j);
    assert Ran(c, j) == jobs[j].burst > 0;
    FirstBeforeLast(c, j);
    LastSlot(c, j);
    forall t | 0 <= t < e ensures c[t] == IDLE || UpTo(jobs, j, c[t]) {
      OnlyEarlierRun(jobs, c, j, t);
    }
    assert !UpTo(jobs, j, IDLE);
    forall i | UpTo(jobs, j, i) ensures Ran(c[..e], i) == jobs[i].burst {
      assert Ran(c, i) == jobs[i].burst > 0;
      RanAfterLastEnd(c, i, e);
      RanPrefix(c, e, i);
    }
  }

  lemma PrefixConserves(jobs: seq<Job>, c: Chart, j: int, e: nat)
    requires 0 <= j < |jobs| && WorkConserving(jobs, c) && e <= |c| && Mask(jobs, j, c[..e]) == c[..e]
    ensures WorkConserving(Only(jobs, j), c[..e])
  {
    LegalPrefix(jobs, c, e);
    MaskLegal(jobs, j, c[..e]);
    forall t | 0 <= t < e ensures ConservingSlot(Only(jobs, j), c[..e], t) {
      assert ConservingSlot(jobs, c, t) && c[..e][..t] == c[..t];
      assert Mask(jobs, j, c[..t]) == Mask(jobs, j, c[..e])[..t];
      forall i ensures Ready(Only(jobs, j), c[..t], i) ==> Ready(jobs, c[..t], i) {
        MaskReady(jobs, j, c[..t], i);
      }
    }
  }

  // ----- Against any other schedule -----

  /** Any schedule has job `j` or some job before it end no sooner than `j` ends in order of arrival. */
  lemma SomeoneAsLate(jobs: seq<Job>, c: Chart, o: Chart, j: int) returns (k: int)
    requires Proper(jobs) && WorkConserving(jobs, c) && ServedInOrder(jobs, c) && Finished(jobs, c) && 0 <= j < |jobs|
    requires Legal(jobs, o) && Finished(jobs, o)
    ensures UpTo(jobs, j, k) && LastEnd(o, k) >= LastEnd(c, j)
  {
    var e := LastEnd(c, j);
    DoneInOrder(jobs, c, j);
    if forall i | UpTo(jobs, j, i) :: LastEnd(o, i) < e {
      var u := if |o| < e then |o| else e - 1;
      forall i | UpTo(jobs, j, i) ensures Ran(o[..u], i) == jobs[i].burst {
        RanAfterLastEnd(o, i, u);
        RanPrefix(o, u, i);
      }
      LegalPrefix(jobs, o, u);
      CannotBeSooner(jobs, c, o[..u], j, e);
      assert false;
    }
    k :| UpTo(jobs, j, k) && LastEnd(o, k) >= e;
  }

  lemma CannotBeSooner(jobs: seq<Job>, c: Chart, o: Chart, j: int, e: nat)
    requires Proper(jobs) && WorkConserving(jobs, c) && 0 <= j < |jobs|
    requires 0 < e <= |c| && c[e - 1] == j && Mask(jobs, j, c[..e]) == c[..e]
    requires forall i | UpTo(jobs, j, i) :: Ran(c[..e], i) == jobs[i].burst
    requires Legal(jobs, o) && forall i | UpTo(jobs, j, i) :: Ran(o, i) == jobs[i].burst
    ensures e <= |o|
  {
    PrefixConserves(jobs, c, j, e);
    MaskFinished(jobs, j, c[..e]);
    MaskLegal(jobs, j, o);
    MaskFinished(jobs, j, o);
    MakespanMinimal(Only(jobs, j), c[..e], Mask(jobs, j, o));
  }

  function MaxOf(s: seq<int>): (m: int)
    requires s != []
    ensures m in s && forall i | 0 <= i < |s| :: s[i] <= m
  {
    if |s| == 1 then s[0]
    else
      var m := MaxOf(s[..|s| - 1]);
      if s[|s| - 1] > m then s[|s| - 1] else m
  }

  /** No schedule of the same jobs has a smaller largest turnaround than one that serves in order of
      arrival. */
  lemma LargestTurnaroundMinimal(jobs: seq<Job>, c: Chart, o: Chart)
    requires Proper(jobs) && jobs != []
    requires WorkConserving(jobs, c) && ServedInOrder(jobs, c) && Finished(jobs, c)
    requires Legal(jobs, o) && Finished(jobs, o)
    ensures MaxOf(Turnarounds(jobs, c)) <= MaxOf(Turnarounds(jobs, o))
  {
    var m := MaxOf(Turnarounds(jobs, c));
    var j :| 0 <= j < |jobs| && Turnarounds(jobs, c)[j] == m;
    var k := SomeoneAsLate(jobs, c, o, j);
    assert Turnarounds(jobs, o)[k] >= m;
  }
}
