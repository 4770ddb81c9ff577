/** First come, first served: the process array is sorted by arrival in place, then run in order. */
module FirstCome {
  import opened ArrivalOrder
  import opened Schedule
  import opened Sums
  import opened Optimality
  import opened Processes

  /** Earlier arrival, or the same arrival and a smaller pid. */
  predicate Before(a: Process, b: Process) {
    a.arrivalTime < b.arrivalTime || (a.arrivalTime == b.arrivalTime && a.pid < b.pid)
  }

  predicate InOrder(s: seq<Process>) {
    forall i, j | 0 <= i < j < |s| :: Before(s[i], s[j])
  }

  /** `s` holds the processes of `orig`, each once, in some order. */
  predicate Shuffle(orig: seq<Process>, s: seq<Process>) {
    && |s| == |orig|
    && (forall k | 0 <= k < |s| :: 1 <= s[k].pid <= |orig| && s[k] == orig[s[k].pid - 1])
    && (forall k, l | 0 <= k < l < |s| :: s[k].pid != s[l].pid)
  }

  /** Positions `m` and up hold their final values. */
  predicate Settled(s: seq<Process>, m: int) {
    forall i, j | 0 <= i < j < |s| && m <= j :: Before(s[i], s[j])
  }

  predicate Largest(s: seq<Process>, j: int)
    requires 0 <= j < |s|
  {
    forall i | 0 <= i < j :: Before(s[i], s[j])
  }

  function Swapped(s: seq<Process>, j: nat): seq<Process>
    requires j + 1 < |s|
  {
    s[j := s[j + 1]][j + 1 := s[j]]
  }

  lemma ShuffleSwap(orig: seq<Process>, s: seq<Process>, j: nat)
    requires Shuffle(orig, s) && j + 1 < |s|
    ensures Shuffle(orig, Swapped(s, j))
  {
    var t := Swapped(s, j);
    forall k | 0 <= k < |t| ensures 1 <= t[k].pid <= |orig| && t[k] == orig[t[k].pid - 1] {
      assert t[k] == s[if k == j then j + 1 else if k == j + 1 then j else k];
    }
  }

  /** One comparison of the bubble pass. */
  lemma BubbleStep(s: seq<Process>, m: nat, j: nat)
    requires j + 1 < m <= |s| && Settled(s, m) && Largest(s, j) && s[j].pid != s[j + 1].pid
    ensures var t := if Before(s[j + 1], s[j]) then Swapped(s, j) else s;
            Settled(t, m) && Largest(t, j + 1)
  {
    if Before(s[j + 1], s[j]) {
      var t := Swapped(s, j);
      forall a, b | 0 <= a < b < |t| && m <= b ensures Before(t[a], t[b]) {
        assert t[b] == s[b];
        assert t[a] == s[if a == j then j + 1 else if a == j + 1 then j else a];
      }
    }
  }

  /** Where a bubble pass stands before its `j`-th comparison. */
  predicate Bubbling(orig: seq<Process>, s: seq<Process>, m: int, j: int) {
    0 <= j < m <= |s| && Shuffle(orig, s) && Settled(s, m) && Largest(s, j)
  }

  lemma {:induction false} BubbleOn(orig: seq<Process>, s: seq<Process>, t: seq<Process>, m: int, j: int)
    requires Bubbling(orig, s, m, j) && j < m - 1
    requires t == if Before(s[j + 1], s[j]) then Swapped(s, j) else s
    ensures Bubbling(orig, t, m, j + 1)
  {
    BubbleStep(s, m, j);
    ShuffleSwap(orig, s, j);
  }

  method BubblePass(process: array<Process>, m: nat, ghost orig: seq<Process>)
    requires 0 < m <= process.Length && Shuffle(orig, process[..]) && Settled(process[..], m)
    modifies process
    ensures Shuffle(orig, process[..]) && Settled(process[..], m - 1)
  {
    var j := 0;
    while j < m - 1
      invariant 0 <= j < m && Bubbling(orig, process[..], m, j)
    {
      ghost var was := process[..];
      if process[j].arrivalTime > process[j + 1].arrivalTime
         || (process[j].arrivalTime == process[j + 1].arrivalTime && process[j].pid > process[j + 1].pid)
      {
        process[j], process[j + 1] := process[j + 1], process[j];
        assert process[..] == Swapped(was, j);
      }
      BubbleOn(orig, was, process[..], m, j);
      j := j + 1;
    }
  }

  lemma Unsorted(orig: seq<Process>)
    requires Entered(orig)
    ensures Shuffle(orig, orig) && Settled(orig, |orig|)
  {
    forall k | 0 <= k < |orig| ensures 1 <= orig[k].pid <= |orig| && orig[k] == orig[orig[k].pid - 1] {
      assert orig[k].pid == k + 1;
    }
  }

  lemma Sorted(s: seq<Process>, m: int)
    requires Settled(s, m) && m <= 1
    ensures InOrder(s)
  {}

  /** The bubble sort by arrival time, then pid. */
  method SortByArrival(process: array<Process>)
    requires Entered(process[..])
    modifies process
    ensures InOrder(process[..]) && Shuffle(old(process[..]), process[..])
  {
    ghost var orig := process[..];
    Unsorted(orig);
    var n := process.Length;
    var i := 0;
    while i < n - 1
      invariant 0 <= i && (n > 0 ==> i < n)
      invariant Shuffle(orig, process[..]) && Settled(process[..], n - i)
    {
      BubblePass(process, n - i, orig);
      i := i + 1;
    }
    Sorted(process[..], n - i);
  }

  /** The job indices of the processes in `s`. */
  function Indices(s: seq<Process>): set<int> {
    if s == [] then {} else Indices(s[..|s| - 1]) + {s[|s| - 1].pid - 1}
  }

  lemma {:induction false} IndexPresent(s: seq<Process>, i: int) returns (k: nat)
    requires i in Indices(s)
    ensures k < |s| && s[k].pid == i + 1
  {
    if i in Indices(s[..|s| - 1]) {
      k := IndexPresent(s[..|s| - 1], i);
    } else {
      k := |s| - 1;
    }
  }

  lemma {:induction false} IndicesSize(s: seq<Process>, n: nat)
    requires forall k, l | 0 <= k < l < |s| :: s[k].pid != s[l].pid
    requires forall k | 0 <= k < |s| :: 1 <= s[k].pid <= n
    ensures |Indices(s)| == |s| && Indices(s) <= Below(n)
  {
    if s != [] {
      var r := s[..|s| - 1];
      IndicesSize(r, n);
      assert s[|s| - 1].pid - 1 !in Indices(r) by {
        forall i | i in Indices(r) ensures i != s[|s| - 1].pid - 1 {
          var k := IndexPresent(r, i);
          assert s[k].pid == i + 1;
        }
      }
    }
  }

  /** No process is lost by shuffling. */
  lemma ShuffleOnto(orig: seq<Process>, s: seq<Process>, i: nat) returns (k: nat)
    requires Shuffle(orig, s) && i < |orig|
    ensures k < |s| && s[k].pid == i + 1 && s[k] == orig[i]
  {
    IndicesSize(s, |orig|);
    SubsetSize(Indices(s), Below(|orig|));
    assert i in Below(|orig|);
    k := IndexPresent(s, i);
  }

  /** The policy in full: jobs run whole, in order of arrival, and the CPU idles only when it must. */
  ghost predicate FifoChart(jobs: seq<Job>, c: Chart) {
    WorkConserving(jobs, c) && Whole(jobs, c) && ServedInOrder(jobs, c)
  }

  /** The record at a position of the sorted array, once served. */
  predicate ServedRecord(order: seq<Process>, now: seq<Process>, c: Chart, j: nat)
    requires j < |order| && j < |now|
  {
    now[j] == Report(order[j], c, order[j].pid - 1) && Ran(c, order[j].pid - 1) == order[j].burstTime
  }

  /** Where the loop stands: positions below `k` have been served. */
  ghost predicate FifoUnderway(orig: seq<Process>, order: seq<Process>, now: seq<Process>, c: Chart, k: nat, tt: int, tr: int)
  {
    var jobs := Jobs(orig);
    && Proper(jobs) && Shuffle(orig, order) && InOrder(order)
    && (forall j | 0 <= j < |order| :: order[j].burstTime >= 1)
    && k <= |order| == |now|
    && Counted(jobs, c, k, tt, tr)
    && FifoChart(jobs, c)
    && (forall j | 0 <= j < k :: ServedRecord(order, now, c, j))
    && (forall j | k <= j < |order| :: WaitingRecord(order, now, c, j))
  }

  predicate WaitingRecord(order: seq<Process>, now: seq<Process>, c: Chart, j: nat)
    requires j < |order| && j < |now|
  {
    now[j] == order[j] && Ran(c, order[j].pid - 1) == 0
  }

  /** The CPU idles until the next process arrives. */
  lemma FifoIdle(orig: seq<Process>, order: seq<Process>, now: seq<Process>, c: Chart, k: nat, tt: int, tr: int, gap: nat)
    requires FifoUnderway(orig, order, now, c, k, tt, tr) && k < |order|
    requires gap > 0 ==> |c| + gap == order[k].arrivalTime
    ensures FifoUnderway(orig, order, now, RunFor(c, IDLE, gap), k, tt, tr)
  {
    var jobs, e := Jobs(orig), RunFor(c, IDLE, gap);
    if gap > 0 {
      forall i | 0 <= i < |jobs| ensures Ran(c, i) >= jobs[i].burst || jobs[i].arrival >= |c| + gap {
        var j := ShuffleOnto(orig, order, i);
        assert j < k ==> ServedRecord(order, now, c, j);
        assert j > k ==> Before(order[k], order[j]);
      }
      IdleKeepsConserving(jobs, c, gap);
    }
    WholeIdle(jobs, c, gap);
    CountIdle(jobs, c, gap, k, tt, tr);
    RunForOnly(jobs, c, IDLE, gap);
    forall j | 0 <= j < |order|
      ensures j < k ==> ServedRecord(order, now, e, j)
      ensures j >= k ==> WaitingRecord(order, now, e, j)
    {
      assert if j < k then ServedRecord(order, now, c, j) else WaitingRecord(order, now, c, j);
    }
    assert ServedInOrder(jobs, e);
  }

  /** No job that comes after the one at position `k` has been served. */
  lemma FirstOfAll(orig: seq<Process>, order: seq<Process>, now: seq<Process>, c: Chart, k: nat, tt: int, tr: int, b: nat)
    requires FifoUnderway(orig, order, now, c, k, tt, tr) && k < |order| && b < |orig| && b != order[k].pid - 1
    ensures Earlier(Jobs(orig), order[k].pid - 1, b) ==> Ran(c, b) == 0
  {
    var j := ShuffleOnto(orig, order, b);
    assert j >= k ==> WaitingRecord(order, now, c, j);
    assert j < k ==> Before(order[j], order[k]);
  }

  lemma ServedInOrderRun(orig: seq<Process>, order: seq<Process>, now: seq<Process>, c: Chart, k: nat, tt: int, tr: int)
    requires FifoUnderway(orig, order, now, c, k, tt, tr) && k < |order|
    ensures ServedInOrder(Jobs(orig), RunFor(c, order[k].pid - 1, order[k].burstTime))
  {
    var jobs, x, m := Jobs(orig), order[k].pid - 1, order[k].burstTime;
    var d := RunFor(c, x, m);
    RunForOnly(jobs, c, x, m);
    RunForJob(c, x, m, x);
    assert WaitingRecord(order, now, c, k);
    forall a, b | 0 <= a < |jobs| && 0 <= b < |jobs| && Ran(d, a) > 0 && Ran(d, b) > 0 && Earlier(jobs, a, b)
      ensures LastEnd(d, a) <= FirstSlot(d, b)
    {
      if a == x {
        // Had `b` been served already, it would come before `a`.
        FirstOfAll(orig, order, now, c, k, tt, tr, b);
      }
    }
  }

  /** The next process runs whole. */
  lemma FifoRun(orig: seq<Process>, order: seq<Process>, now: seq<Process>, c: Chart, k: nat, tt: int, tr: int,
                d: Chart, now': seq<Process>, v: Process)
    requires FifoUnderway(orig, order, now, c, k, tt, tr) && k < |order| && order[k].arrivalTime <= |c|
    requires d == RunFor(c, order[k].pid - 1, order[k].burstTime)
    requires v == Report(order[k], d, order[k].pid - 1) && now' == now[k := v]
    ensures FifoUnderway(orig, order, now', d, k + 1, tt + v.turnaroundTime, tr + v.responseTime)
    ensures EndsBusy(d)
  {
    var jobs, x, m := Jobs(orig), order[k].pid - 1, order[k].burstTime;
    assert jobs[x] == Job(order[k].arrivalTime, m);
    assert WaitingRecord(order, now, c, k);
    assert EndsBusy(d) by { RunEndsBusy(c, x, m); }
    assert WorkConserving(jobs, d) by { RunForKeepsConserving(jobs, c, x, m); }
    assert Whole(jobs, d) by { WholeRun(jobs, c, x); }
    assert ServedInOrder(jobs, d) by { ServedInOrderRun(orig, order, now, c, k, tt, tr); }
    assert Counted(jobs, d, k + 1, tt + v.turnaroundTime, tr + v.responseTime) by {
      RunForJob(c, x, m, x);
      CountRun(jobs, c, x, m, k, tt, tr);
    }
    FifoRecords(orig, order, now, c, k, d, now', v);
  }

  lemma FifoRecords(orig: seq<Process>, order: seq<Process>, now: seq<Process>, c: Chart, k: nat,
                    d: Chart, now': seq<Process>, v: Process)
    requires Shuffle(orig, order) && k < |order| == |now|
    requires forall j | 0 <= j < |order| :: order[j].burstTime >= 1
    requires forall j | 0 <= j < k :: ServedRecord(order, now, c, j)
    requires forall j | k <= j < |order| :: WaitingRecord(order, now, c, j)
    requires d == RunFor(c, order[k].pid - 1, order[k].burstTime)
    requires v == Report(order[k], d, order[k].pid - 1) && now' == now[k := v]
    ensures forall j | 0 <= j < k + 1 :: ServedRecord(order, now', d, j)
    ensures forall j | k + 1 <= j < |order| :: WaitingRecord(order, now', d, j)
  {
    var x, m := order[k].pid - 1, order[k].burstTime;
    assert WaitingRecord(order, now, c, k);
    forall j | 0 <= j < |order|
      ensures j < k + 1 ==> ServedRecord(order, now', d, j)
      ensures j > k ==> WaitingRecord(order, now', d, j)
    {
      RunForJob(c, x, m, order[j].pid - 1);
      assert j < k ==> ServedRecord(order, now, c, j) && order[j].pid != order[k].pid;
      assert j > k ==> WaitingRecord(order, now, c, j) && order[j].pid != order[k].pid;
    }
  }

  lemma FifoFields(order: seq<Process>, now: seq<Process>, c: Chart, k: nat)
    requires k < |order| == |now| && WaitingRecord(order, now, c, k) && order[k].burstTime >= 1
    ensures var d := RunFor(c, order[k].pid - 1, order[k].burstTime);
            var x := order[k].pid - 1;
            now[k] == order[k] && FirstSlot(d, x) == |c| && LastEnd(d, x) == |c| + order[k].burstTime
  {
    RunForJob(c, order[k].pid - 1, order[k].burstTime, order[k].pid - 1);
  }

  lemma FifoBegin(orig: seq<Process>, order: seq<Process>)
    requires Entered(orig) && Shuffle(orig, order) && InOrder(order)
    ensures FifoUnderway(orig, order, order, [], 0, 0, 0)
  {
    NothingDone(Jobs(orig));
    forall j | 0 <= j < |order| ensures WaitingRecord(order, order, [], j) {}
  }

  /** Wherever a record has been sorted to, its times are those of its process. */
  predicate SortedAccurate(orig: seq<Process>, now: seq<Process>, c: Chart) {
    forall k | 0 <= k < |now| ::
      1 <= now[k].pid <= |orig| && Accurate(orig[now[k].pid - 1], now[k], c, now[k].pid - 1)
  }

  lemma FifoReported(orig: seq<Process>, order: seq<Process>, now: seq<Process>, c: Chart)
    requires Shuffle(orig, order) && InOrder(order) && |now| == |order|
    requires forall j | 0 <= j < |order| :: ServedRecord(order, now, c, j)
    ensures Shuffle(ReportAll(orig, c), now) && InOrder(now)
    ensures Proper(Jobs(orig)) && Finished(Jobs(orig), c) ==> SortedAccurate(orig, now, c)
  {
    if Proper(Jobs(orig)) && Finished(Jobs(orig), c) { AllReportedAccurate(orig, c); }
    forall k | 0 <= k < |now|
      ensures now[k].pid == order[k].pid && now[k].arrivalTime == order[k].arrivalTime
      ensures now[k] == ReportAll(orig, c)[now[k].pid - 1]
    {
      assert ServedRecord(order, now, c, k);
    }
    forall i, j | 0 <= i < j < |now| ensures Before(now[i], now[j]) {
      assert Before(order[i], order[j]);
    }
  }

  /** The records stand in order of arrival, then pid, and each process is done before the next starts. */
  predicate InLine(now: seq<Process>) {
    forall i, j | 0 <= i < j < |now| ::
      && (now[i].arrivalTime < now[j].arrivalTime
          || (now[i].arrivalTime == now[j].arrivalTime && now[i].pid < now[j].pid))
      && now[i].completionTime <= now[j].startTime
  }

  lemma FifoLine(orig: seq<Process>, now: seq<Process>, c: Chart)
    requires FifoChart(Jobs(orig), c) && Finished(Jobs(orig), c) && Proper(Jobs(orig))
    requires Shuffle(ReportAll(orig, c), now) && InOrder(now) && SortedAccurate(orig, now, c)
    ensures InLine(now)
  {
    var jobs := Jobs(orig);
    forall i, j | 0 <= i < j < |now|
      ensures now[i].arrivalTime <= now[j].arrivalTime && now[i].completionTime <= now[j].startTime
    {
      var a, b := now[i].pid - 1, now[j].pid - 1;
      assert Before(now[i], now[j]);
      assert Accurate(orig[a], now[i], c, a) && Accurate(orig[b], now[j], c, b);
      assert now[i] == ReportAll(orig, c)[a] && now[j] == ReportAll(orig, c)[b];
      assert Earlier(jobs, a, b) && Ran(c, a) == jobs[a].burst > 0 && Ran(c, b) == jobs[b].burst > 0;
    }
    forall i, j | 0 <= i < j < |now| ensures Before(now[i], now[j]) {}
  }

  /** The largest turnaround under `c` is at most that under `o`. */
  predicate NoLongerWait(jobs: seq<Job>, c: Chart, o: Chart) {
    jobs != [] ==> MaxOf(Turnarounds(jobs, c)) <= MaxOf(Turnarounds(jobs, o))
  }

  lemma FifoUnbeaten(jobs: seq<Job>, c: Chart)
    requires Proper(jobs) && FifoChart(jobs, c) && Finished(jobs, c) && EndsBusy(c)
    ensures forall o: Chart | Legal(jobs, o) && Finished(jobs, o) :: |c| <= |o| && NoLongerWait(jobs, c, o)
  {
    forall o: Chart | Legal(jobs, o) && Finished(jobs, o) ensures |c| <= |o| && NoLongerWait(jobs, c, o) {
      MakespanMinimal(jobs, c, o);
      if jobs != [] { LargestTurnaroundMinimal(jobs, c, o); }
    }
  }

  lemma FifoEnd(orig: seq<Process>, order: seq<Process>, now: seq<Process>, c: Chart, tt: int, tr: int)
    requires FifoUnderway(orig, order, now, c, |order|, tt, tr) && EndsBusy(c)
    ensures var jobs := Jobs(orig);
            && FifoChart(jobs, c) && Finished(jobs, c)
            && Shuffle(ReportAll(orig, c), now) && InOrder(now) && SortedAccurate(orig, now, c) && InLine(now)
            && tt == TotalTurnaround(jobs, c) && tr == TotalResponse(jobs, c)
            && forall o: Chart | Legal(jobs, o) && Finished(jobs, o) :: |c| <= |o| && NoLongerWait(jobs, c, o)
  {
    AllCounted(Jobs(orig), c, |order|, tt, tr);
    FifoReported(orig, order, now, c);
    FifoLine(orig, now, c);
    FifoUnbeaten(Jobs(orig), c);
  }

  /** One pass of the loop, once the process at position `i` has arrived. */
  method FifoServe(process: array<Process>, i: nat, currTime: int, tt: int, tr: int,
                   ghost orig: seq<Process>, ghost order: seq<Process>, ghost chart: Chart)
    returns (currTime': int, tt': int, tr': int, ghost chart': Chart)
    requires i < process.Length && currTime == |chart|
    requires FifoUnderway(orig, order, process[..], chart, i, tt, tr) && order[i].arrivalTime <= currTime
    modifies process
    ensures FifoUnderway(orig, order, process[..], chart', i + 1, tt', tr')
    ensures currTime' == |chart'| && EndsBusy(chart')
  {
    ghost var was := process[..];
    assert WaitingRecord(order, was, chart, i);
    FifoFields(order, was, chart, i);
    var record := process[i];
    record := record.(startTime := currTime,
                      completionTime := currTime + record.burstTime,
                      turnaroundTime := currTime + record.burstTime - record.arrivalTime,
                      responseTime := currTime - record.arrivalTime);
    tt' := tt + record.turnaroundTime;
    tr' := tr + record.responseTime;
    currTime' := currTime + record.burstTime;
    chart' := RunFor(chart, record.pid - 1, record.burstTime);
    FifoRun(orig, order, was, chart, i, tt, tr, chart', was[i := record], record);
    process[i] := record;
    assert process[..] == was[i := record];
  }

  /** Once round the loop: the CPU idles until the process at position `i` arrives, then runs it. */
  method FifoIterate(process: array<Process>, i: nat, currTime: int, tt: int, tr: int,
                     ghost orig: seq<Process>, ghost order: seq<Process>, ghost chart: Chart)
    returns (currTime': int, tt': int, tr': int, ghost chart': Chart)
    requires i < process.Length && currTime == |chart|
    requires FifoUnderway(orig, order, process[..], chart, i, tt, tr)
    modifies process
    ensures FifoUnderway(orig, order, process[..], chart', i + 1, tt', tr')
    ensures currTime' == |chart'| && EndsBusy(chart')
  {
    assert WaitingRecord(order, process[..], chart, i);
    ghost var gap := if currTime < process[i].arrivalTime then process[i].arrivalTime - currTime else 0;
    FifoIdle(orig, order, process[..], chart, i, tt, tr, gap);
    var start := currTime;
    if start < process[i].arrivalTime {
      start := process[i].arrivalTime;
    }
    currTime', tt', tr', chart' := FifoServe(process, i, start, tt, tr, orig, order, RunFor(chart, IDLE, gap));
  }

  method Fifo(process: array<Process>) returns (totalTurnaround: int, totalResponse: int, ghost chart: Chart)
    requires Entered(process[..])
    modifies process
    ensures var jobs := Jobs(old(process[..])); FifoChart(jobs, chart) && Finished(jobs, chart) && EndsBusy(chart)
    ensures InOrder(process[..]) && Shuffle(ReportAll(old(process[..]), chart), process[..])
    ensures SortedAccurate(old(process[..]), process[..], chart) && InLine(process[..])
    ensures totalTurnaround == TotalTurnaround(Jobs(old(process[..])), chart)
    ensures totalResponse == TotalResponse(Jobs(old(process[..])), chart)
    ensures var jobs := Jobs(old(process[..]));
            forall o: Chart | Legal(jobs, o) && Finished(jobs, o) :: |chart| <= |o| && NoLongerWait(jobs, chart, o)
  {
    ghost var orig := process[..];
    SortByArrival(process);
    ghost var order := process[..];
    FifoBegin(orig, order);
    var currTime := 0;
    totalTurnaround, totalResponse, chart := 0, 0, [];
    for i := 0 to process.Length
      invariant currTime == |chart| && EndsBusy(chart)
      invariant FifoUnderway(orig, order, process[..], chart, i, totalTurnaround, totalResponse)
    {
      currTime, totalTurnaround, totalResponse, chart :=
        FifoIterate(process, i, currTime, totalTurnaround, totalResponse, orig, order, chart);
    }
    FifoEnd(orig, order, process[..], chart, totalTurnaround, totalResponse);
  }
}
