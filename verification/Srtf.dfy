/** Shortest remaining time first: preemptive, re-decided at every time unit. */
module ShortestRemainingTime {
  import opened ArrivalOrder
  import opened Schedule
  import opened Sums
  import opened Optimality
  import opened Processes

  ghost predicate SrtfPick(jobs: seq<Job>, past: Chart, x: int) {
    && Ready(jobs, past, x)
    && forall i | Ready(jobs, past, i) ::
         NoLater(jobs[x].burst - Ran(past, x), jobs[x].arrival, x, jobs[i].burst - Ran(past, i), jobs[i].arrival, i)
  }

  /** The policy in full: least remaining time, then earliest arrival, then lowest index. */
  ghost predicate SrtfChart(jobs: seq<Job>, c: Chart) {
    forall t | 0 <= t < |c| :: SrtfSlot(jobs, c, t)
  }

  ghost predicate SrtfSlot(jobs: seq<Job>, c: Chart, t: nat)
    requires t < |c|
  {
    if c[t] == IDLE then NoneReady(jobs, c[..t]) else SrtfPick(jobs, c[..t], c[t])
  }

  lemma SrtfIsShortestFirst(jobs: seq<Job>, c: Chart)
    requires SrtfChart(jobs, c)
    ensures ShortestFirst(jobs, c)
  {
    forall t | 0 <= t < |c| ensures LegalSlot(jobs, c, t) && ConservingSlot(jobs, c, t) && ShortestSlot(jobs, c, t) {
      assert SrtfSlot(jobs, c, t);
    }
  }

  /** The scan's choice is the policy's: its candidates are exactly the ready jobs. */
  lemma {:induction false} SrtfSelection(orig: seq<Process>, now: seq<Process>, key: seq<int>,
                                          isCompleted: seq<bool>, c: Chart, x: int)
    requires var jobs := Jobs(orig);
             && Recorded(orig, now, c) && Flagged(jobs, c, isCompleted)
             && |key| == |jobs|
             && forall i | 0 <= i < |jobs| :: key[i] == jobs[i].burst - Ran(c, i) && Ran(c, i) <= jobs[i].burst
    requires Selected(now, key, isCompleted, |c|, x)
    ensures if x == IDLE then NoneReady(Jobs(orig), c) else SrtfPick(Jobs(orig), c, x)
  {
    SameArrivals(orig, now, c);
    forall i ensures Ready(Jobs(orig), c, i) <==> Candidate(now, isCompleted, |c|, i) {}
  }

  lemma SrtfExtend(jobs: seq<Job>, c: Chart, x: int)
    requires SrtfChart(jobs, c)
    requires if x == IDLE then NoneReady(jobs, c) else SrtfPick(jobs, c, x)
    ensures SrtfChart(jobs, RunFor(c, x, 1))
  {
    var d := RunFor(c, x, 1);
    assert d == c + [x] by { assert RunFor(c, x, 0) == c; }
    forall t | 0 <= t < |d| ensures SrtfSlot(jobs, d, t) {
      if t < |c| {
        assert SrtfSlot(jobs, c, t);
        assert d[..t] == c[..t];
      } else {
        assert d[..t] == c;
      }
    }
  }

  lemma SrtfUnbeaten(jobs: seq<Job>, c: Chart)
    requires Proper(jobs) && SrtfChart(jobs, c) && Finished(jobs, c) && EndsBusy(c)
    ensures forall o: Chart | Legal(jobs, o) && Finished(jobs, o) ::
              TotalTurnaround(jobs, c) <= TotalTurnaround(jobs, o) && |c| <= |o|
  {
    SrtfIsShortestFirst(jobs, c);
    forall o: Chart | Legal(jobs, o) && Finished(jobs, o)
      ensures TotalTurnaround(jobs, c) <= TotalTurnaround(jobs, o) && |c| <= |o|
    {
      ShortestFirstOptimal(jobs, c, o);
      MakespanMinimal(jobs, c, o);
    }
  }

  // ----- How ties are broken, and when a process is preempted -----

  ghost predicate TieAt(jobs: seq<Job>, c: Chart, t: nat)
    requires t < |c|
  {
    var x := c[t];
    x != IDLE ==>
      forall i | Ready(jobs, c[..t], i) && i != x ::
        Ready(jobs, c[..t], x) && (jobs[i].burst - Ran(c[..t], i) == jobs[x].burst - Ran(c[..t], x) ==> Earlier(jobs, x, i))
  }

  /** Of ready jobs with equal time left the one served came first. */
  ghost predicate TiesToEarlier(jobs: seq<Job>, c: Chart) {
    forall t | 0 <= t < |c| :: TieAt(jobs, c, t)
  }

  ghost predicate PreemptedAt(jobs: seq<Job>, c: Chart, t: nat)
    requires t + 1 < |c|
  {
    var x, y, past := c[t], c[t + 1], c[..t + 1];
    0 <= x < |jobs| && Ran(past, x) < jobs[x].burst && y != x ==>
      && 0 <= y < |jobs| && jobs[y].arrival == t + 1
      && jobs[y].burst - Ran(past, y) < jobs[x].burst - Ran(past, x)
  }

  /** An unfinished job loses the CPU only to one that arrives at that time with strictly less to do. */
  ghost predicate OnlyNewcomersPreempt(jobs: seq<Job>, c: Chart) {
    forall t | 0 <= t < |c| - 1 :: PreemptedAt(jobs, c, t)
  }

  /** Of two jobs entered alike the first ends before the second starts. */
  predicate AlikeInOrder(jobs: seq<Job>, c: Chart) {
    forall a, b | 0 <= a < b < |jobs| && jobs[a] == jobs[b] :: LastEnd(c, a) <= FirstSlot(c, b)
  }

  lemma SrtfTies(jobs: seq<Job>, c: Chart)
    requires SrtfChart(jobs, c)
    ensures TiesToEarlier(jobs, c)
  {
    forall t | 0 <= t < |c| ensures TieAt(jobs, c, t) {
      assert SrtfSlot(jobs, c, t);
    }
  }

  lemma SrtfPreempts(jobs: seq<Job>, c: Chart)
    requires SrtfChart(jobs, c)
    ensures OnlyNewcomersPreempt(jobs, c)
  {
    forall t | 0 <= t < |c| - 1 ensures PreemptedAt(jobs, c, t) {
      var x, y := c[t], c[t + 1];
      assert SrtfSlot(jobs, c, t) && SrtfSlot(jobs, c, t + 1);
      assert c[..t + 1] == c[..t] + [x];
      AppendSlot(c[..t], x, x);
      WasReady(jobs, c, t, y);
      assert 0 <= x < |jobs| && Ran(c[..t + 1], x) < jobs[x].burst ==> Ready(jobs, c[..t + 1], x);
    }
  }

  lemma WasReady(jobs: seq<Job>, c: Chart, t: nat, y: int)
    requires t < |c|
    ensures y != c[t] && Ready(jobs, c[..t + 1], y) ==> Ran(c[..t + 1], y) == Ran(c[..t], y)
    ensures y != c[t] && Ready(jobs, c[..t + 1], y) && jobs[y].arrival <= t ==> Ready(jobs, c[..t], y)
  {
    assert c[..t + 1] == c[..t] + [c[t]];
    AppendSlot(c[..t], c[t], y);
  }

  lemma SrtfAlike(jobs: seq<Job>, c: Chart)
    requires Proper(jobs) && SrtfChart(jobs, c) && Finished(jobs, c)
    ensures AlikeInOrder(jobs, c)
  {
    forall a, b | 0 <= a < b < |jobs| && jobs[a] == jobs[b] ensures LastEnd(c, a) <= FirstSlot(c, b) {
      assert Ran(c, b) == jobs[b].burst;
      FirstSlotHeld(c, b);
      var t := FirstSlot(c, b);
      assert SrtfSlot(jobs, c, t) && !Ready(jobs, c[..t], a);
      RanAfterLastEnd(c, a, t);
    }
  }

  /** The policy, said of the chart alone. */
  ghost predicate LeastLeftFirst(jobs: seq<Job>, c: Chart) {
    ShortestFirst(jobs, c) && TiesToEarlier(jobs, c) && OnlyNewcomersPreempt(jobs, c) && AlikeInOrder(jobs, c)
  }

  lemma SrtfLaws(jobs: seq<Job>, c: Chart)
    requires Proper(jobs) && SrtfChart(jobs, c) && Finished(jobs, c)
    ensures LeastLeftFirst(jobs, c)
  {
    SrtfIsShortestFirst(jobs, c);
    SrtfTies(jobs, c);
    SrtfPreempts(jobs, c);
    SrtfAlike(jobs, c);
  }

  /** Where the loop stands after the history `c`. */
  ghost predicate SrtfUnderway(orig: seq<Process>, now: seq<Process>, left: seq<int>, isCompleted: seq<bool>,
                               c: Chart, completed: int, tt: int, tr: int)
  {
    var jobs := Jobs(orig);
    && Proper(jobs)
    && Counted(jobs, c, completed, tt, tr)
    && Recorded(orig, now, c)
    && Flagged(jobs, c, isCompleted)
    && left == Owed(jobs, c)
    && SrtfChart(jobs, c)
    && (completed == |jobs| ==> EndsBusy(c))
  }

  lemma {:induction false} SrtfIdle(orig: seq<Process>, now: seq<Process>, left: seq<int>, isCompleted: seq<bool>,
                 c: Chart, completed: int, tt: int, tr: int)
    requires SrtfUnderway(orig, now, left, isCompleted, c, completed, tt, tr) && completed != |orig|
    requires Selected(now, left, isCompleted, |c|, IDLE)
    ensures SrtfUnderway(orig, now, left, isCompleted, RunFor(c, IDLE, 1), completed, tt, tr)
    ensures Owed(Jobs(orig), RunFor(c, IDLE, 1)) == Owed(Jobs(orig), c)
    ensures |c| < LatestArrival(Jobs(orig))
  {
    var jobs := Jobs(orig);
    SrtfSelection(orig, now, left, isCompleted, c, IDLE);
    SrtfExtend(jobs, c, IDLE);
    RunForOnly(jobs, c, IDLE, 1);
    CountIdle(jobs, c, 1, completed, tt, tr);
    StillToArrive(jobs, c, completed, tt, tr);
    RecordIdle(orig, now, c, 1);
    IdleOwed(jobs, c, 1);
  }

  lemma {:induction false} SrtfContinue(orig: seq<Process>, now: seq<Process>, left: seq<int>, isCompleted: seq<bool>,
                     c: Chart, completed: int, tt: int, tr: int, x: int,
                     d: Chart, now': seq<Process>, left': seq<int>)
    requires SrtfUnderway(orig, now, left, isCompleted, c, completed, tt, tr)
    requires x != IDLE && Selected(now, left, isCompleted, |c|, x) && left[x] != 1
    requires d == RunFor(c, x, 1) && left' == left[x := left[x] - 1]
    requires now' == now[x := orig[x].(startTime := FirstSlot(c, x))]
    ensures SrtfUnderway(orig, now', left', isCompleted, d, completed, tt, tr)
  {
    var jobs := Jobs(orig);
    SrtfSelection(orig, now, left, isCompleted, c, x);
    SrtfExtend(jobs, c, x);
    OwedRun(jobs, c, x, 1, d);
    FlagRun(jobs, c, x, 1, d, isCompleted);
    CountRun(jobs, c, x, 1, completed, tt, tr);
    RecordRun(orig, now, c, x, 1, now'[x]);
    assert !Finished(jobs, d);
    AllCounted(jobs, d, completed, tt, tr);
  }

  lemma {:induction false} SrtfFinish(orig: seq<Process>, now: seq<Process>, left: seq<int>, isCompleted: seq<bool>,
                   c: Chart, completed: int, tt: int, tr: int, x: int,
                   d: Chart, now': seq<Process>, left': seq<int>, isCompleted': seq<bool>, v: Process)
    requires SrtfUnderway(orig, now, left, isCompleted, c, completed, tt, tr)
    requires x != IDLE && Selected(now, left, isCompleted, |c|, x) && left[x] == 1
    requires d == RunFor(c, x, 1) && left' == left[x := 0] && isCompleted' == isCompleted[x := true]
    requires v == Report(orig[x], d, x) && now' == now[x := v]
    ensures SrtfUnderway(orig, now', left', isCompleted', d, completed + 1, tt + v.turnaroundTime, tr + v.responseTime)
  {
    var jobs := Jobs(orig);
    SrtfSelection(orig, now, left, isCompleted, c, x);
    SrtfExtend(jobs, c, x);
    RunEndsBusy(c, x, 1);
    OwedRun(jobs, c, x, 1, d);
    FlagRun(jobs, c, x, 1, d, isCompleted);
    CountRun(jobs, c, x, 1, completed, tt, tr);
    RecordRun(orig, now, c, x, 1, v);
  }

  /** The same step as the array sees it. */
  lemma {:induction false} SrtfFields(orig: seq<Process>, now: seq<Process>, left: seq<int>, isCompleted: seq<bool>,
                   c: Chart, completed: int, tt: int, tr: int, x: int)
    requires SrtfUnderway(orig, now, left, isCompleted, c, completed, tt, tr)
    requires x != IDLE && Selected(now, left, isCompleted, |c|, x)
    ensures left[x] == now[x].burstTime <==> Ran(c, x) == 0
    ensures now[x] == if Ran(c, x) == 0 then orig[x] else orig[x].(startTime := now[x].startTime)
    ensures FirstSlot(RunFor(c, x, 1), x) == FirstSlot(c, x) == if Ran(c, x) == 0 then |c| else now[x].startTime
    ensures LastEnd(RunFor(c, x, 1), x) == |c| + 1
    ensures left[x] > 0
  {
    SrtfSelection(orig, now, left, isCompleted, c, x);
    RunForJob(c, x, 1, x);
  }

  lemma SrtfProgress(orig: seq<Process>, now: seq<Process>, left: seq<int>, isCompleted: seq<bool>,
                     c: Chart, completed: int, tt: int, tr: int, x: int)
    requires SrtfUnderway(orig, now, left, isCompleted, c, completed, tt, tr)
    requires x != IDLE && Selected(now, left, isCompleted, |c|, x)
    ensures 0 <= Sum(Owed(Jobs(orig), RunFor(c, x, 1))) < Sum(Owed(Jobs(orig), c))
  {
    SrtfSelection(orig, now, left, isCompleted, c, x);
    SrtfIsShortestFirst(Jobs(orig), c);
    LessOwed(Jobs(orig), c, x, 1);
  }

  lemma SrtfEnd(orig: seq<Process>, now: seq<Process>, left: seq<int>, isCompleted: seq<bool>,
                c: Chart, completed: int, tt: int, tr: int)
    requires SrtfUnderway(orig, now, left, isCompleted, c, completed, tt, tr) && completed == |orig|
    ensures var jobs := Jobs(orig);
            && SrtfChart(jobs, c) && Finished(jobs, c) && EndsBusy(c)
            && LeastLeftFirst(jobs, c)
            && now == ReportAll(orig, c) && AllAccurate(orig, now, c)
            && tt == TotalTurnaround(jobs, c) && tr == TotalResponse(jobs, c)
            && forall o: Chart | Legal(jobs, o) && Finished(jobs, o) :: tt <= TotalTurnaround(jobs, o) && |c| <= |o|
  {
    AllCounted(Jobs(orig), c, completed, tt, tr);
    AllRecorded(orig, now, c);
    SrtfUnbeaten(Jobs(orig), c);
    SrtfLaws(Jobs(orig), c);
    AllReportedAccurate(orig, c);
  }

  lemma SrtfBegin(orig: seq<Process>, left: seq<int>, isCompleted: seq<bool>)
    requires Entered(orig) && |left| == |isCompleted| == |orig|
    requires forall i | 0 <= i < |orig| :: left[i] == orig[i].burstTime && !isCompleted[i]
    ensures SrtfUnderway(orig, orig, left, isCompleted, [], 0, 0, 0)
  {
    NothingDone(Jobs(orig));
  }

  method SrtfStart(p: array<Process>) returns (burstRemaining: array<int>, isCompleted: array<bool>)
    requires Entered(p[..])
    ensures fresh(burstRemaining) && fresh(isCompleted) && burstRemaining.Length == isCompleted.Length == p.Length
    ensures SrtfUnderway(p[..], p[..], burstRemaining[..], isCompleted[..], [], 0, 0, 0)
  {
    burstRemaining := new int[p.Length];
    isCompleted := new bool[p.Length](_ => false);
    for i := 0 to p.Length
      invariant forall j | 0 <= j < p.Length :: !isCompleted[j]
      invariant forall j | 0 <= j < i :: burstRemaining[j] == p[j].burstTime
    {
      burstRemaining[i] := p[i].burstTime;
    }
    SrtfBegin(p[..], burstRemaining[..], isCompleted[..]);
  }

  /** One pass of the loop that found a process to serve. */
  method SrtfServe(p: array<Process>, burstRemaining: array<int>, isCompleted: array<bool>, idx: nat, currentTime: int,
                   completed: int, tt: int, tr: int, ghost orig: seq<Process>, ghost chart: Chart)
    returns (completed': int, tt': int, tr': int)
    requires p.Length == burstRemaining.Length == isCompleted.Length && idx < p.Length && currentTime == |chart|
    requires SrtfUnderway(orig, p[..], burstRemaining[..], isCompleted[..], chart, completed, tt, tr)
    requires Selected(p[..], burstRemaining[..], isCompleted[..], currentTime, idx)
    modifies p, burstRemaining, isCompleted
    ensures SrtfUnderway(orig, p[..], burstRemaining[..], isCompleted[..], RunFor(chart, idx, 1), completed', tt', tr')
  {
    ghost var was, left, flags := p[..], burstRemaining[..], isCompleted[..];
    SrtfFields(orig, was, left, flags, chart, completed, tt, tr, idx);
    completed', tt', tr' := completed, tt, tr;
    var process := p[idx];
    if burstRemaining[idx] == process.burstTime {
      process := process.(startTime := currentTime);
    }
    burstRemaining[idx] := burstRemaining[idx] - 1;
    if burstRemaining[idx] == 0 {
      process := process.(completionTime := currentTime + 1,
                          turnaroundTime := currentTime + 1 - process.arrivalTime,
                          responseTime := process.startTime - process.arrivalTime);
      tt' := tt + process.turnaroundTime;
      tr' := tr + process.responseTime;
      isCompleted[idx] := true;
      completed' := completed + 1;
      SrtfFinish(orig, was, left, flags, chart, completed, tt, tr, idx,
                 RunFor(chart, idx, 1), was[idx := process], left[idx := 0], flags[idx := true], process);
    } else {
      SrtfContinue(orig, was, left, flags, chart, completed, tt, tr, idx,
                   RunFor(chart, idx, 1), was[idx := process], left[idx := left[idx] - 1]);
    }
    p[idx] := process;
    assert p[..] == was[idx := process];
    assert burstRemaining[..] == left[idx := left[idx] - 1];
    assert isCompleted[..] == flags[idx := isCompleted[idx]];
  }

  method Srtf(p: array<Process>) returns (totalTurnaround: int, totalResponse: int, ghost chart: Chart)
    requires Entered(p[..]) && Comparable(p[..])
    modifies p
    ensures var jobs := Jobs(old(p[..])); SrtfChart(jobs, chart) && Finished(jobs, chart) && EndsBusy(chart)
    ensures LeastLeftFirst(Jobs(old(p[..])), chart)
    ensures p[..] == ReportAll(old(p[..]), chart) && AllAccurate(old(p[..]), p[..], chart)
    ensures totalTurnaround == TotalTurnaround(Jobs(old(p[..])), chart)
    ensures totalResponse == TotalResponse(Jobs(old(p[..])), chart)
    ensures var jobs := Jobs(old(p[..]));
            forall o: Chart | Legal(jobs, o) && Finished(jobs, o) :: totalTurnaround <= TotalTurnaround(jobs, o) && |chart| <= |o|
  {
    ghost var orig := p[..];
    ghost var jobs := Jobs(orig);
    var n := p.Length;
    var completed, currentTime := 0, 0;
    totalTurnaround, totalResponse, chart := 0, 0, [];
    var burstRemaining, isCompleted := SrtfStart(p);
    while completed != n
      invariant currentTime == |chart|
      invariant SrtfUnderway(orig, p[..], burstRemaining[..], isCompleted[..], chart, completed, totalTurnaround, totalResponse)
      decreases Sum(Owed(jobs, chart)), LatestArrival(jobs) - |chart|
    {
      ghost var before := chart;
      var idx := SelectShortest(p, burstRemaining[..], isCompleted, currentTime);
      chart := RunFor(before, idx, 1);
      if idx != -1 {
        SrtfProgress(orig, p[..], burstRemaining[..], isCompleted[..], before, completed, totalTurnaround, totalResponse, idx);
        completed, totalTurnaround, totalResponse :=
          SrtfServe(p, burstRemaining, isCompleted, idx, currentTime, completed, totalTurnaround, totalResponse, orig, before);
        currentTime := currentTime + 1;
      } else {
        SrtfIdle(orig, p[..], burstRemaining[..], isCompleted[..], before, completed, totalTurnaround, totalResponse);
        currentTime := currentTime + 1;
      }
    }
    SrtfEnd(orig, p[..], burstRemaining[..], isCompleted[..], chart, completed, totalTurnaround, totalResponse);
  }
}
