/** Shortest job first: the shortest ready job runs whole. */
module ShortestJob {
  import opened ArrivalOrder
  import opened Schedule
  import opened Sums
  import opened Optimality
  import opened Processes

  ghost predicate SjfPick(jobs: seq<Job>, past: Chart, x: int) {
    && Ready(jobs, past, x)
    && forall i | Ready(jobs, past, i) ::
         NoLater(jobs[x].burst, jobs[x].arrival, x, jobs[i].burst, jobs[i].arrival, i)
  }

  /** Job `i`, if it has started, was the policy's choice at that time. */
  ghost predicate ChosenAtStart(jobs: seq<Job>, c: Chart, i: int)
    requires 0 <= i < |jobs|
  {
    Ran(c, i) > 0 ==> SjfPick(jobs, c[..FirstSlot(c, i)], i)
  }

  /** The policy in full: jobs run whole, the CPU idles only when it must, and whenever it is free
      it goes to the ready job of least burst, then earliest arrival, then lowest index. */
  ghost predicate SjfChart(jobs: seq<Job>, c: Chart) {
    && WorkConserving(jobs, c)
    && Whole(jobs, c)
    && forall i | 0 <= i < |jobs| :: ChosenAtStart(jobs, c, i)
  }

  /** Job `a` is served before job `b` if it has arrived when `b` starts and is shorter, or as long and
      earlier. */
  predicate ServedBefore(jobs: seq<Job>, c: Chart, a: int, b: int)
    requires 0 <= a < |jobs| && 0 <= b < |jobs|
  {
    jobs[a].arrival <= FirstSlot(c, b)
    && (jobs[a].burst < jobs[b].burst || (jobs[a].burst == jobs[b].burst && Earlier(jobs, a, b))) ==>
      FirstSlot(c, a) < LastEnd(c, a) <= FirstSlot(c, b)
  }

  predicate ShorterServedFirst(jobs: seq<Job>, c: Chart) {
    forall a, b | 0 <= a < |jobs| && 0 <= b < |jobs| && a != b :: ServedBefore(jobs, c, a, b)
  }

  /** In particular, of equally long jobs the earlier is served first. */
  predicate EqualsInOrder(jobs: seq<Job>, c: Chart) {
    forall a, b | 0 <= a < |jobs| && 0 <= b < |jobs| && jobs[a].burst == jobs[b].burst && Earlier(jobs, a, b) ::
      FirstSlot(c, a) < FirstSlot(c, b)
  }

  lemma SjfOrder(jobs: seq<Job>, c: Chart)
    requires Proper(jobs) && SjfChart(jobs, c) && Finished(jobs, c)
    ensures ShorterServedFirst(jobs, c) && EqualsInOrder(jobs, c)
  {
    forall a, b | 0 <= a < |jobs| && 0 <= b < |jobs| && a != b
      ensures ServedBefore(jobs, c, a, b) && jobs[b].arrival <= FirstSlot(c, b)
    {
      var t := FirstSlot(c, b);
      assert Ran(c, a) == jobs[a].burst && Ran(c, b) == jobs[b].burst;
      FirstSlotHeld(c, b);
      FirstBeforeLast(c, a);
      RanAfterLastEnd(c, a, t);
      assert ChosenAtStart(jobs, c, b);
    }
    forall a, b | 0 <= a < |jobs| && 0 <= b < |jobs| && jobs[a].burst == jobs[b].burst && Earlier(jobs, a, b)
      ensures FirstSlot(c, a) < FirstSlot(c, b)
    {
      assert ServedBefore(jobs, c, a, b);
    }
  }

  ghost predicate Simultaneous(jobs: seq<Job>) {
    forall i, j | 0 <= i < |jobs| && 0 <= j < |jobs| :: jobs[i].arrival == jobs[j].arrival
  }

  lemma ChosenLater(jobs: seq<Job>, c: Chart, x: int, m: nat)
    requires forall i | 0 <= i < |jobs| :: ChosenAtStart(jobs, c, i)
    requires 0 <= x < |jobs| ==> SjfPick(jobs, c, x) && Ran(c, x) == 0
    ensures forall i | 0 <= i < |jobs| :: ChosenAtStart(jobs, RunFor(c, x, m), i)
  {
    var d := RunFor(c, x, m);
    forall i | 0 <= i < |jobs| ensures ChosenAtStart(jobs, d, i) {
      RunForJob(c, x, m, i);
      if Ran(d, i) > 0 {
        assert d[..FirstSlot(d, i)] == d[..|c|][..FirstSlot(d, i)] == c[..FirstSlot(c, i)];
        assert ChosenAtStart(jobs, c, i);
        assert c[..|c|] == c;
      }
    }
  }

  lemma SjfRunChart(jobs: seq<Job>, c: Chart, x: int)
    requires Proper(jobs) && SjfChart(jobs, c) && SjfPick(jobs, c, x)
    ensures SjfChart(jobs, RunFor(c, x, jobs[x].burst))
  {
    RunForKeepsConserving(jobs, c, x, jobs[x].burst);
    WholeRun(jobs, c, x);
    ChosenLater(jobs, c, x, jobs[x].burst);
  }

  lemma SjfIdleChart(jobs: seq<Job>, c: Chart)
    requires Proper(jobs) && SjfChart(jobs, c) && NoneReady(jobs, c)
    ensures SjfChart(jobs, RunFor(c, IDLE, 1))
  {
    forall i | 0 <= i < |jobs| ensures Ran(c, i) >= jobs[i].burst || jobs[i].arrival >= |c| + 1 {
      assert !Ready(jobs, c, i);
    }
    IdleKeepsConserving(jobs, c, 1);
    WholeIdle(jobs, c, 1);
    ChosenLater(jobs, c, IDLE, 1);
  }

  /** While the picked job runs, no ready job has less left to do. */
  lemma ShortestThroughout(jobs: seq<Job>, c: Chart, x: int, m: nat)
    requires Proper(jobs) && SjfChart(jobs, c) && SjfPick(jobs, c, x) && Simultaneous(jobs)
    requires m < jobs[x].burst
    ensures ShortestReady(jobs, RunFor(c, x, m), x)
  {
    RunForJob(c, x, m, x);
    forall i | Ready(jobs, RunFor(c, x, m), i)
      ensures jobs[x].burst - Ran(RunFor(c, x, m), x) <= jobs[i].burst - Ran(RunFor(c, x, m), i)
    {
      RunForJob(c, x, m, i);
      assert Ready(jobs, c, i);
    }
  }

  /** When all jobs arrive together, running the shortest whole never leaves a shorter one waiting. */
  lemma SimultaneousRun(jobs: seq<Job>, c: Chart, x: int)
    requires Proper(jobs) && SjfChart(jobs, c) && SjfPick(jobs, c, x)
    requires Simultaneous(jobs) && ShortestFirst(jobs, c)
    ensures ShortestFirst(jobs, RunFor(c, x, jobs[x].burst))
  {
    var d := RunFor(c, x, jobs[x].burst);
    RunForKeepsConserving(jobs, c, x, jobs[x].burst);
    forall t | 0 <= t < |d| ensures ShortestSlot(jobs, d, t) {
      if t < |c| {
        ExtensionSlot(jobs, c, d, t);
        assert ShortestSlot(jobs, c, t);
      } else {
        RunForSlots(c, x, jobs[x].burst, t);
        ShortestThroughout(jobs, c, x, t - |c|);
      }
    }
  }

  lemma SimultaneousIdle(jobs: seq<Job>, c: Chart)
    requires Proper(jobs) && SjfChart(jobs, c) && NoneReady(jobs, c) && ShortestFirst(jobs, c)
    ensures ShortestFirst(jobs, RunFor(c, IDLE, 1))
  {
    var d := RunFor(c, IDLE, 1);
    SjfIdleChart(jobs, c);
    forall t | 0 <= t < |d| ensures ShortestSlot(jobs, d, t) {
      if t < |c| {
        ExtensionSlot(jobs, c, d, t);
        assert ShortestSlot(jobs, c, t);
      } else {
        RunForSlots(c, IDLE, 1, t);
      }
    }
  }

  ghost predicate SjfUnderway(orig: seq<Process>, now: seq<Process>, isCompleted: seq<bool>,
                              c: Chart, completed: int, tt: int, tr: int)
  {
    var jobs := Jobs(orig);
    && Proper(jobs)
    && Counted(jobs, c, completed, tt, tr)
    && Recorded(orig, now, c)
    && Flagged(jobs, c, isCompleted)
    && SjfChart(jobs, c)
    && (completed == |jobs| ==> EndsBusy(c))
    && (Simultaneous(jobs) ==> ShortestFirst(jobs, c))
  }

  lemma SjfSelection(orig: seq<Process>, now: seq<Process>, isCompleted: seq<bool>,
                     c: Chart, completed: int, tt: int, tr: int, x: int)
    requires SjfUnderway(orig, now, isCompleted, c, completed, tt, tr)
    requires Selected(now, Bursts(Jobs(orig)), isCompleted, |c|, x)
    ensures if x == IDLE then NoneReady(Jobs(orig), c)
            else SjfPick(Jobs(orig), c, x) && now[x] == orig[x] && Ran(c, x) == 0
  {
    SameArrivals(orig, now, c);
    forall i ensures Ready(Jobs(orig), c, i) <==> Candidate(now, isCompleted, |c|, i) {}
  }

  lemma {:induction false} SjfIdle(orig: seq<Process>, now: seq<Process>, isCompleted: seq<bool>,
                c: Chart, completed: int, tt: int, tr: int)
    requires SjfUnderway(orig, now, isCompleted, c, completed, tt, tr) && completed != |orig|
    requires Selected(now, Bursts(Jobs(orig)), isCompleted, |c|, IDLE)
    ensures SjfUnderway(orig, now, isCompleted, RunFor(c, IDLE, 1), completed, tt, tr)
    ensures Owed(Jobs(orig), RunFor(c, IDLE, 1)) == Owed(Jobs(orig), c)
    ensures |c| < LatestArrival(Jobs(orig))
  {
    var jobs := Jobs(orig);
    SjfSelection(orig, now, isCompleted, c, completed, tt, tr, IDLE);
    SjfIdleChart(jobs, c);
    if Simultaneous(jobs) { SimultaneousIdle(jobs, c); }
    RunForOnly(jobs, c, IDLE, 1);
    CountIdle(jobs, c, 1, completed, tt, tr);
    StillToArrive(jobs, c, completed, tt, tr);
    RecordIdle(orig, now, c, 1);
    IdleOwed(jobs, c, 1);
  }

  lemma {:induction false} SjfRun(orig: seq<Process>, now: seq<Process>, isCompleted: seq<bool>,
               c: Chart, completed: int, tt: int, tr: int, x: int,
               d: Chart, now': seq<Process>, isCompleted': seq<bool>, v: Process)
    requires SjfUnderway(orig, now, isCompleted, c, completed, tt, tr)
    requires x != IDLE && Selected(now, Bursts(Jobs(orig)), isCompleted, |c|, x) && orig[x].burstTime >= 1
    requires d == RunFor(c, x, orig[x].burstTime) && isCompleted' == isCompleted[x := true]
    requires v == Report(orig[x], d, x) && now' == now[x := v]
    ensures SjfUnderway(orig, now', isCompleted', d, completed + 1, tt + v.turnaroundTime, tr + v.responseTime)
  {
    var jobs, m := Jobs(orig), orig[x].burstTime;
    SjfSelection(orig, now, isCompleted, c, completed, tt, tr, x);
    SjfRunChart(jobs, c, x);
    if Simultaneous(jobs) { SimultaneousRun(jobs, c, x); }
    RunEndsBusy(c, x, m);
    CountRun(jobs, c, x, m, completed, tt, tr);
    FlagRun(jobs, c, x, m, d, isCompleted);
    RecordRun(orig, now, c, x, m, v);
  }

  lemma {:induction false} SjfFields(orig: seq<Process>, now: seq<Process>, isCompleted: seq<bool>,
                  c: Chart, completed: int, tt: int, tr: int, x: int)
    requires SjfUnderway(orig, now, isCompleted, c, completed, tt, tr)
    requires x != IDLE && Selected(now, Bursts(Jobs(orig)), isCompleted, |c|, x)
    ensures now[x] == orig[x] && orig[x].burstTime >= 1
    ensures FirstSlot(RunFor(c, x, orig[x].burstTime), x) == |c|
    ensures LastEnd(RunFor(c, x, orig[x].burstTime), x) == |c| + orig[x].burstTime
  {
    SjfSelection(orig, now, isCompleted, c, completed, tt, tr, x);
    RunForJob(c, x, orig[x].burstTime, x);
  }

  /** Where the pass leaves the loop: `v` is the record it writes. */
  lemma {:induction false} SjfServed(orig: seq<Process>, now: seq<Process>, isCompleted: seq<bool>,
                                    c: Chart, completed: int, tt: int, tr: int, x: int, v: Process)
    requires SjfUnderway(orig, now, isCompleted, c, completed, tt, tr)
    requires 0 <= x < |now| && Selected(now, Bursts(Jobs(orig)), isCompleted, |c|, x)
    requires var end := |c| + now[x].burstTime;
             v == now[x].(startTime := |c|, completionTime := end, turnaroundTime := end - now[x].arrivalTime,
                          responseTime := |c| - now[x].arrivalTime)
    ensures |now| == |isCompleted| == |orig| && now[x] == orig[x] && v.burstTime == orig[x].burstTime >= 1
    ensures SjfUnderway(orig, now[x := v], isCompleted[x := true], RunFor(c, x, orig[x].burstTime), completed + 1,
                        tt + v.turnaroundTime, tr + v.responseTime)
  {
    SjfFields(orig, now, isCompleted, c, completed, tt, tr, x);
    SjfRun(orig, now, isCompleted, c, completed, tt, tr, x,
           RunFor(c, x, orig[x].burstTime), now[x := v], isCompleted[x := true], v);
  }

  lemma SjfEnd(orig: seq<Process>, now: seq<Process>, isCompleted: seq<bool>,
               c: Chart, completed: int, tt: int, tr: int)
    requires SjfUnderway(orig, now, isCompleted, c, completed, tt, tr) && completed == |orig|
    ensures var jobs := Jobs(orig);
            && SjfChart(jobs, c) && Finished(jobs, c) && EndsBusy(c)
            && ShorterServedFirst(jobs, c) && EqualsInOrder(jobs, c)
            && now == ReportAll(orig, c) && AllAccurate(orig, now, c)
            && tt == TotalTurnaround(jobs, c) && tr == TotalResponse(jobs, c)
            && forall o: Chart | Legal(jobs, o) && Finished(jobs, o) ::
                 |c| <= |o| && (Simultaneous(jobs) ==> tt <= TotalTurnaround(jobs, o))
  {
    var jobs := Jobs(orig);
    AllCounted(jobs, c, completed, tt, tr);
    AllRecorded(orig, now, c);
    SjfOrder(jobs, c);
    AllReportedAccurate(orig, c);
    forall o: Chart | Legal(jobs, o) && Finished(jobs, o)
      ensures |c| <= |o| && (Simultaneous(jobs) ==> tt <= TotalTurnaround(jobs, o))
    {
      MakespanMinimal(jobs, c, o);
      if Simultaneous(jobs) { ShortestFirstOptimal(jobs, c, o); }
    }
  }

  /** One pass of the loop that found a process to serve. */
  method SjfServe(p: array<Process>, isCompleted: array<bool>, minIndex: nat, currentTime: int,
                  completed: int, tt: int, tr: int, ghost orig: seq<Process>, ghost chart: Chart)
    returns (currentTime': int, tt': int, tr': int)
    requires p.Length == isCompleted.Length && minIndex < p.Length && currentTime == |chart|
    requires SjfUnderway(orig, p[..], isCompleted[..], chart, completed, tt, tr)
    requires Selected(p[..], Bursts(Jobs(orig)), isCompleted[..], currentTime, minIndex)
    modifies p, isCompleted
    ensures p.Length == |orig| && currentTime' == currentTime + orig[minIndex].burstTime
    ensures SjfUnderway(orig, p[..], isCompleted[..], RunFor(chart, minIndex, orig[minIndex].burstTime), completed + 1, tt', tr')
  {
    ghost var was, flags := p[..], isCompleted[..];
    var process := p[minIndex];
    process := process.(startTime := currentTime,
                        completionTime := currentTime + process.burstTime,
                        turnaroundTime := currentTime + process.burstTime - process.arrivalTime,
                        responseTime := currentTime - process.arrivalTime);
    SjfServed(orig, was, flags, chart, completed, tt, tr, minIndex, process);
    tr' := tr + process.responseTime;
    tt' := tt + process.turnaroundTime;
    currentTime' := currentTime + process.burstTime;
    p[minIndex] := process;
    isCompleted[minIndex] := true;
    assert p[..] == was[minIndex := process];
    assert isCompleted[..] == flags[minIndex := true];
  }

  lemma SjfBegin(orig: seq<Process>, isCompleted: seq<bool>)
    requires Entered(orig) && |isCompleted| == |orig|
    requires forall i | 0 <= i < |isCompleted| :: !isCompleted[i]
    ensures SjfUnderway(orig, orig, isCompleted, [], 0, 0, 0)
  {
    NothingDone(Jobs(orig));
  }

  lemma {:induction false} SjfProgress(orig: seq<Process>, now: seq<Process>, isCompleted: seq<bool>,
                    c: Chart, completed: int, tt: int, tr: int, x: int)
    requires SjfUnderway(orig, now, isCompleted, c, completed, tt, tr)
    requires x != IDLE && Selected(now, Bursts(Jobs(orig)), isCompleted, |c|, x)
    ensures orig[x].burstTime >= 1
    ensures 0 <= Sum(Owed(Jobs(orig), RunFor(c, x, orig[x].burstTime))) < Sum(Owed(Jobs(orig), c))
  {
    SjfSelection(orig, now, isCompleted, c, completed, tt, tr, x);
    LessOwed(Jobs(orig), c, x, orig[x].burstTime);
  }

  lemma BurstsUnchanged(orig: seq<Process>, now: seq<Process>, isCompleted: seq<bool>,
                        c: Chart, completed: int, tt: int, tr: int)
    requires SjfUnderway(orig, now, isCompleted, c, completed, tt, tr)
    ensures BurstTimes(now) == Bursts(Jobs(orig))
  {
    SameArrivals(orig, now, c);
  }

  function BurstTimes(p: seq<Process>): seq<int> {
    seq(|p|, i requires 0 <= i < |p| => p[i].burstTime)
  }

  /** Once round the loop: either some process runs, or the clock moves toward one still to arrive. */
  method SjfIterate(p: array<Process>, isCompleted: array<bool>, currentTime: int, completed: int, tt: int, tr: int,
                    ghost orig: seq<Process>, ghost chart: Chart)
    returns (currentTime': int, completed': int, tt': int, tr': int, ghost chart': Chart)
    requires p.Length == isCompleted.Length == |orig| && currentTime == |chart| && completed != |orig| && Comparable(orig)
    requires SjfUnderway(orig, p[..], isCompleted[..], chart, completed, tt, tr)
    modifies p, isCompleted
    ensures SjfUnderway(orig, p[..], isCompleted[..], chart', completed', tt', tr') && currentTime' == |chart'|
    ensures var jobs := Jobs(orig);
            || 0 <= Sum(Owed(jobs, chart')) < Sum(Owed(jobs, chart))
            || (Owed(jobs, chart') == Owed(jobs, chart) && |chart| < |chart'| <= LatestArrival(jobs))
  {
    BurstsUnchanged(orig, p[..], isCompleted[..], chart, completed, tt, tr);
    var minIndex := SelectShortest(p, BurstTimes(p[..]), isCompleted, currentTime);
    completed', tt', tr' := completed, tt, tr;
    if minIndex != -1 {
      SjfProgress(orig, p[..], isCompleted[..], chart, completed, tt, tr, minIndex);
      chart' := RunFor(chart, minIndex, orig[minIndex].burstTime);
      currentTime', tt', tr' := SjfServe(p, isCompleted, minIndex, currentTime, completed, tt, tr, orig, chart);
      completed' := completed + 1;
    } else {
      chart' := RunFor(chart, IDLE, 1);
      SjfIdle(orig, p[..], isCompleted[..], chart, completed, tt, tr);
      currentTime' := currentTime + 1;
    }
  }

  method Sjf(p: array<Process>) returns (totalTurnaround: int, totalResponse: int, ghost chart: Chart)
    requires Entered(p[..]) && Comparable(p[..])
    modifies p
    ensures var jobs := Jobs(old(p[..])); SjfChart(jobs, chart) && Finished(jobs, chart) && EndsBusy(chart)
    ensures var jobs := Jobs(old(p[..])); ShorterServedFirst(jobs, chart) && EqualsInOrder(jobs, chart)
    ensures p[..] == ReportAll(old(p[..]), chart) && AllAccurate(old(p[..]), p[..], chart)
    ensures totalTurnaround == TotalTurnaround(Jobs(old(p[..])), chart)
    ensures totalResponse == TotalResponse(Jobs(old(p[..])), chart)
    ensures var jobs := Jobs(old(p[..]));
            forall o: Chart | Legal(jobs, o) && Finished(jobs, o) ::
              |chart| <= |o| && (Simultaneous(jobs) ==> totalTurnaround <= TotalTurnaround(jobs, o))
  {
    ghost var orig := p[..];
    ghost var jobs := Jobs(orig);
    var completed, currentTime := 0, 0;
    totalTurnaround, totalResponse, chart := 0, 0, [];
    var isCompleted := new bool[p.Length](_ => false);
    SjfBegin(orig, isCompleted[..]);
    while completed != p.Length
      invariant currentTime == |chart|
      invariant SjfUnderway(orig, p[..], isCompleted[..], chart, completed, totalTurnaround, totalResponse)
      decreases Sum(Owed(jobs, chart)), LatestArrival(jobs) - |chart|
    {
      currentTime, completed, totalTurnaround, totalResponse, chart :=
        SjfIterate(p, isCompleted, currentTime, completed, totalTurnaround, totalResponse, orig, chart);
    }
    SjfEnd(orig, p[..], isCompleted[..], chart, completed, totalTurnaround, totalResponse);
  }
}
