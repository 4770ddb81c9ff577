/** The process table and what every policy keeps while it fills it in. */
module Processes {
  import opened MachineTypes
  import opened Schedule
  import opened Sums
  import opened Optimality

  datatype Process = Process(pid: int, arrivalTime: int, burstTime: int, startTime: int, completionTime: int,
                             turnaroundTime: int, responseTime: int, remainingTime: int, started: bool)

  /** The array as it is after input: pids count from 1, and there is something to run. */
  predicate Entered(p: seq<Process>) {
    forall i | 0 <= i < |p| ::
      && p[i].pid == i + 1
      && p[i].burstTime >= 1
      && p[i].remainingTime == p[i].burstTime
      && !p[i].started
  }

  /** Every burst is below the value the scans start from. */
  predicate Comparable(p: seq<Process>) {
    forall i | 0 <= i < |p| :: p[i].burstTime < INT_MAX
  }

  function Jobs(p: seq<Process>): seq<Job> {
    seq(|p|, i requires 0 <= i < |p| => Job(p[i].arrivalTime, p[i].burstTime))
  }

  /** A process record filled in from what the chart says about it. */
  function Report(orig: Process, c: Chart, i: int): Process {
    orig.(startTime := FirstSlot(c, i),
          completionTime := LastEnd(c, i),
          turnaroundTime := LastEnd(c, i) - orig.arrivalTime,
          responseTime := FirstSlot(c, i) - orig.arrivalTime)
  }

  function ReportAll(orig: seq<Process>, c: Chart): seq<Process> {
    seq(|orig|, i requires 0 <= i < |orig| => Report(orig[i], c, i))
  }

  /** The times in a record are those of the process in the chart: it holds the CPU at the start and up
      to the completion, and at no time outside; the rest of what was entered is as it was. */
  predicate Accurate(orig: Process, r: Process, c: Chart, i: int) {
    && 0 <= r.startTime < r.completionTime <= |c|
    && c[r.startTime] == i && c[r.completionTime - 1] == i
    && (forall t | 0 <= t < |c| && c[t] == i :: r.startTime <= t < r.completionTime)
    && r.turnaroundTime == r.completionTime - orig.arrivalTime
    && r.responseTime == r.startTime - orig.arrivalTime
    && r.pid == orig.pid && r.arrivalTime == orig.arrivalTime && r.burstTime == orig.burstTime
  }

  ghost predicate AllAccurate(orig: seq<Process>, now: seq<Process>, c: Chart) {
    |now| == |orig| && forall i | 0 <= i < |orig| :: Accurate(orig[i], now[i], c, i)
  }

  lemma ReportAccurate(orig: Process, c: Chart, i: int)
    requires Ran(c, i) > 0
    ensures Accurate(orig, Report(orig, c, i), c, i)
  {
    FirstBeforeLast(c, i);
    FirstSlotHeld(c, i);
    LastSlot(c, i);
    forall t | 0 <= t < |c| && c[t] == i ensures FirstSlot(c, i) <= t < LastEnd(c, i) {
      SlotWithin(c, t);
    }
  }

  lemma AllReportedAccurate(orig: seq<Process>, c: Chart)
    requires Proper(Jobs(orig)) && Finished(Jobs(orig), c)
    ensures AllAccurate(orig, ReportAll(orig, c), c)
  {
    forall i | 0 <= i < |orig| ensures Accurate(orig[i], ReportAll(orig, c)[i], c, i) {
      assert Jobs(orig)[i].burst == Ran(c, i);
      ReportAccurate(orig[i], c, i);
    }
  }

  lemma AccurateSlots(orig: Process, r: Process, c: Chart, i: int)
    requires Accurate(orig, r, c, i)
    ensures r.startTime == FirstSlot(c, i) && r.completionTime == LastEnd(c, i)
  {
    SlotWithin(c, r.startTime);
    SlotWithin(c, r.completionTime - 1);
    FirstSlotHeld(c, i);
    LastSlot(c, i);
  }

  /** The totals are those of the times in the records. */
  lemma TotalsOfRecords(orig: seq<Process>, now: seq<Process>, c: Chart)
    requires AllAccurate(orig, now, c)
    ensures TotalTurnaround(Jobs(orig), c) == Sum(seq(|now|, i requires 0 <= i < |now| => now[i].turnaroundTime))
    ensures TotalResponse(Jobs(orig), c) == Sum(seq(|now|, i requires 0 <= i < |now| => now[i].responseTime))
  {
    var jobs := Jobs(orig);
    forall i | 0 <= i < |now|
      ensures Turnarounds(jobs, c)[i] == now[i].turnaroundTime && Responses(jobs, c)[i] == now[i].responseTime
    {
      AccurateSlots(orig[i], now[i], c, i);
    }
    assert Turnarounds(jobs, c) == seq(|now|, i requires 0 <= i < |now| => now[i].turnaroundTime);
    assert Responses(jobs, c) == seq(|now|, i requires 0 <= i < |now| => now[i].responseTime);
  }

  // ----- Bookkeeping while a policy is under way -----

  predicate IsDone(jobs: seq<Job>, c: Chart, i: int)
    requires 0 <= i < |jobs|
  {
    Ran(c, i) == jobs[i].burst
  }

  function DoneJobs(jobs: seq<Job>, c: Chart): set<int> {
    set i | 0 <= i < |jobs| && IsDone(jobs, c, i)
  }

  function DoneTurnarounds(jobs: seq<Job>, c: Chart): seq<int> {
    seq(|jobs|, i requires 0 <= i < |jobs| => if IsDone(jobs, c, i) then LastEnd(c, i) - jobs[i].arrival else 0)
  }

  function DoneResponses(jobs: seq<Job>, c: Chart): seq<int> {
    seq(|jobs|, i requires 0 <= i < |jobs| => if IsDone(jobs, c, i) then FirstSlot(c, i) - jobs[i].arrival else 0)
  }

  /** What a run so far has written into the array: nothing for a job that has not started, the
      start time for one under way, the full report for one that is done. */
  predicate Recorded(orig: seq<Process>, now: seq<Process>, c: Chart) {
    && |now| == |orig|
    && forall i | 0 <= i < |orig| ::
         now[i] == if Ran(c, i) == 0 then orig[i]
                   else if Ran(c, i) == orig[i].burstTime then Report(orig[i], c, i)
                   else orig[i].(startTime := FirstSlot(c, i))
  }

  /** The counters and totals a policy keeps agree with its chart. */
  predicate Counted(jobs: seq<Job>, c: Chart, completed: int, totalTurnaround: int, totalResponse: int) {
    && completed == |DoneJobs(jobs, c)|
    && totalTurnaround == Sum(DoneTurnarounds(jobs, c))
    && totalResponse == Sum(DoneResponses(jobs, c))
    && forall i | 0 <= i < |jobs| :: Ran(c, i) <= jobs[i].burst
  }

  lemma NothingDone(jobs: seq<Job>)
    requires Proper(jobs)
    ensures Counted(jobs, [], 0, 0, 0)
  {
    assert DoneJobs(jobs, []) == {};
    SumZero(DoneTurnarounds(jobs, []));
    SumZero(DoneResponses(jobs, []));
  }

  /** What is known of the other jobs when chart `d` extends `c` by running `x` alone. */
  predicate OnlyRan(jobs: seq<Job>, c: Chart, d: Chart, x: int) {
    forall i | 0 <= i < |jobs| && i != x ::
      && Ran(d, i) == Ran(c, i)
      && (Ran(c, i) > 0 ==> LastEnd(d, i) == LastEnd(c, i) && FirstSlot(d, i) == FirstSlot(c, i))
  }

  lemma RunForOnly(jobs: seq<Job>, c: Chart, x: int, m: nat)
    ensures OnlyRan(jobs, c, RunFor(c, x, m), x)
  {
    forall i | 0 <= i < |jobs| && i != x
      ensures var d := RunFor(c, x, m);
              && Ran(d, i) == Ran(c, i)
              && (Ran(c, i) > 0 ==> LastEnd(d, i) == LastEnd(c, i) && FirstSlot(d, i) == FirstSlot(c, i))
    {
      RunForJob(c, x, m, i);
    }
  }

  lemma CountFinish(jobs: seq<Job>, c: Chart, d: Chart, x: int, completed: int, tt: int, tr: int)
    requires Proper(jobs) && Counted(jobs, c, completed, tt, tr)
    requires 0 <= x < |jobs| && OnlyRan(jobs, c, d, x) && !IsDone(jobs, c, x) && IsDone(jobs, d, x)
    ensures Counted(jobs, d, completed + 1, tt + LastEnd(d, x) - jobs[x].arrival, tr + FirstSlot(d, x) - jobs[x].arrival)
  {
    assert DoneJobs(jobs, d) == DoneJobs(jobs, c) + {x};
    SumOneChange(DoneTurnarounds(jobs, c), DoneTurnarounds(jobs, d), x);
    SumOneChange(DoneResponses(jobs, c), DoneResponses(jobs, d), x);
  }

  lemma CountPartial(jobs: seq<Job>, c: Chart, d: Chart, x: int, completed: int, tt: int, tr: int)
    requires Proper(jobs) && Counted(jobs, c, completed, tt, tr)
    requires OnlyRan(jobs, c, d, x)
    requires 0 <= x < |jobs| ==> !IsDone(jobs, c, x) && Ran(d, x) < jobs[x].burst
    ensures Counted(jobs, d, completed, tt, tr)
  {
    assert DoneJobs(jobs, d) == DoneJobs(jobs, c);
    assert DoneTurnarounds(jobs, d) == DoneTurnarounds(jobs, c);
    assert DoneResponses(jobs, d) == DoneResponses(jobs, c);
  }

  /** Idling changes no count. */
  lemma CountIdle(jobs: seq<Job>, c: Chart, m: nat, completed: int, tt: int, tr: int)
    requires Proper(jobs) && Counted(jobs, c, completed, tt, tr)
    ensures Counted(jobs, RunFor(c, IDLE, m), completed, tt, tr)
  {
    RunForOnly(jobs, c, IDLE, m);
    CountPartial(jobs, c, RunFor(c, IDLE, m), IDLE, completed, tt, tr);
  }

  /** Running `x` counts it exactly when that finishes it. */
  lemma CountRun(jobs: seq<Job>, c: Chart, x: int, m: nat, completed: int, tt: int, tr: int)
    requires Proper(jobs) && Counted(jobs, c, completed, tt, tr)
    requires 0 <= x < |jobs| && 0 < m <= jobs[x].burst - Ran(c, x)
    ensures var d := RunFor(c, x, m);
            if IsDone(jobs, d, x)
            then Counted(jobs, d, completed + 1, tt + LastEnd(d, x) - jobs[x].arrival, tr + FirstSlot(d, x) - jobs[x].arrival)
            else Counted(jobs, d, completed, tt, tr)
  {
    var d := RunFor(c, x, m);
    RunForOnly(jobs, c, x, m);
    RunForJob(c, x, m, x);
    if IsDone(jobs, d, x) {
      CountFinish(jobs, c, d, x, completed, tt, tr);
    } else {
      CountPartial(jobs, c, d, x, completed, tt, tr);
    }
  }

  /** When the count of done jobs reaches n, every job is done and the totals are complete. */
  lemma AllCounted(jobs: seq<Job>, c: Chart, completed: int, tt: int, tr: int)
    requires Counted(jobs, c, completed, tt, tr)
    ensures completed <= |jobs|
    ensures completed == |jobs| <==> Finished(jobs, c)
    ensures Finished(jobs, c) ==> tt == TotalTurnaround(jobs, c) && tr == TotalResponse(jobs, c)
  {
    var all := Below(|jobs|);
    var done := DoneJobs(jobs, c);
    assert all == done + (all - done);
    if completed == |jobs| {
      assert all - done == {};
      forall i | 0 <= i < |jobs| ensures IsDone(jobs, c, i) {
        assert i in all;
      }
    }
    if Finished(jobs, c) {
      assert done == all;
      assert DoneTurnarounds(jobs, c) == Turnarounds(jobs, c);
      assert DoneResponses(jobs, c) == Responses(jobs, c);
    }
  }

  lemma RecordIdle(orig: seq<Process>, now: seq<Process>, c: Chart, m: nat)
    requires Recorded(orig, now, c)
    ensures Recorded(orig, now, RunFor(c, IDLE, m))
  {
    forall i | 0 <= i < |orig|
      ensures var d := RunFor(c, IDLE, m);
              Ran(d, i) == Ran(c, i) && (Ran(c, i) > 0 ==> Report(orig[i], d, i) == Report(orig[i], c, i))
    {
      RunForJob(c, IDLE, m, i);
    }
  }

  lemma RecordRun(orig: seq<Process>, now: seq<Process>, c: Chart, x: int, m: nat, v: Process)
    requires Recorded(orig, now, c)
    requires 0 <= x < |orig| && 0 < m <= orig[x].burstTime - Ran(c, x)
    requires v == if Ran(c, x) + m == orig[x].burstTime then Report(orig[x], RunFor(c, x, m), x)
                  else orig[x].(startTime := FirstSlot(c, x))
    ensures Recorded(orig, now[x := v], RunFor(c, x, m))
  {
    forall i | 0 <= i < |orig|
      ensures var d := RunFor(c, x, m);
              && Ran(d, i) == Ran(c, i) + (if i == x then m else 0)
              && (Ran(c, i) > 0 || i == x ==> FirstSlot(d, i) == FirstSlot(c, i))
              && (i != x && Ran(c, i) > 0 ==> Report(orig[i], d, i) == Report(orig[i], c, i))
    {
      RunForJob(c, x, m, i);
    }
  }

  // ----- Choosing the next process -----

  predicate Candidate(p: seq<Process>, isCompleted: seq<bool>, time: int, i: int) {
    0 <= i < |p| && i < |isCompleted| && p[i].arrivalTime <= time && !isCompleted[i]
  }

  /** Least key first, then earliest arrival, then lowest index. */
  predicate NoLater(k1: int, a1: int, i1: int, k2: int, a2: int, i2: int) {
    k1 < k2 || (k1 == k2 && (a1 < a2 || (a1 == a2 && i1 <= i2)))
  }

  /** What the scan finds: -1 if there is no candidate, else the candidate to be served first. */
  ghost predicate Selected(p: seq<Process>, key: seq<int>, isCompleted: seq<bool>, time: int, x: int)
    requires |p| == |key| == |isCompleted|
  {
    if x == -1 then forall i :: !Candidate(p, isCompleted, time, i)
    else
      && Candidate(p, isCompleted, time, x)
      && forall i | Candidate(p, isCompleted, time, i) ::
           NoLater(key[x], p[x].arrivalTime, x, key[i], p[i].arrivalTime, i)
  }

  /** The scan shared by the two shortest-first policies: `key` is the burst time for one, the
      remaining burst time for the other. */
  method SelectShortest(p: array<Process>, key: seq<int>, isCompleted: array<bool>, currentTime: int) returns (minIndex: int)
    requires p.Length == |key| == isCompleted.Length
    requires forall i | 0 <= i < |key| :: key[i] < INT_MAX
    ensures Selected(p[..], key, isCompleted[..], currentTime, minIndex)
    ensures minIndex == -1 || 0 <= minIndex < p.Length
    ensures forall i | 0 <= i < p.Length && p[i].arrivalTime <= currentTime && !isCompleted[i] ::
              && minIndex != -1 && key[minIndex] <= key[i]
              && (key[minIndex] == key[i] ==> p[minIndex].arrivalTime <= p[i].arrivalTime)
              && (key[minIndex] == key[i] && p[minIndex].arrivalTime == p[i].arrivalTime ==> minIndex <= i)
  {
    minIndex := -1;
    var minKey := INT_MAX;
    for i := 0 to p.Length
      invariant minIndex == -1 ==>
        minKey == INT_MAX && forall j | 0 <= j < i :: !Candidate(p[..], isCompleted[..], currentTime, j)
      invariant minIndex != -1 ==>
        && 0 <= minIndex < i && minKey == key[minIndex]
        && Candidate(p[..], isCompleted[..], currentTime, minIndex)
        && forall j | 0 <= j < i && Candidate(p[..], isCompleted[..], currentTime, j) ::
             NoLater(key[minIndex], p[minIndex].arrivalTime, minIndex, key[j], p[j].arrivalTime, j)
    {
      if p[i].arrivalTime <= currentTime && !isCompleted[i] {
        if key[i] < minKey {
          minKey := key[i];
          minIndex := i;
        }
        if key[i] == minKey && p[i].arrivalTime < p[minIndex].arrivalTime {
          minIndex := i;
        }
      }
    }
    forall i | 0 <= i < p.Length && p[i].arrivalTime <= currentTime && !isCompleted[i]
      ensures minIndex != -1 && NoLater(key[minIndex], p[minIndex].arrivalTime, minIndex, key[i], p[i].arrivalTime, i)
    {
      assert Candidate(p[..], isCompleted[..], currentTime, i);
    }
  }

  // ----- Shared by the loops -----

  function LatestArrival(jobs: seq<Job>): (t: int)
    ensures forall i | 0 <= i < |jobs| :: jobs[i].arrival <= t
  {
    if jobs == [] then 0
    else
      var t := LatestArrival(jobs[..|jobs| - 1]);
      if jobs[|jobs| - 1].arrival > t then jobs[|jobs| - 1].arrival else t
  }

  /** The completion flags of a policy agree with its chart. */
  predicate Flagged(jobs: seq<Job>, c: Chart, isCompleted: seq<bool>) {
    && |isCompleted| == |jobs|
    && forall i | 0 <= i < |jobs| :: isCompleted[i] <==> IsDone(jobs, c, i)
  }

  lemma FlagRun(jobs: seq<Job>, c: Chart, x: int, m: nat, d: Chart, isCompleted: seq<bool>)
    requires Flagged(jobs, c, isCompleted) && 0 <= x < |jobs| && d == RunFor(c, x, m)
    requires 0 < m <= jobs[x].burst - Ran(c, x)
    ensures Ran(d, x) == Ran(c, x) + m
    ensures Flagged(jobs, d, if m == jobs[x].burst - Ran(c, x) then isCompleted[x := true] else isCompleted)
  {
    RunForJob(c, x, m, x);
    RunForOnly(jobs, c, x, m);
  }

  lemma OwedRun(jobs: seq<Job>, c: Chart, x: int, m: nat, d: Chart)
    requires 0 <= x < |jobs| && d == RunFor(c, x, m)
    ensures Owed(jobs, d) == Owed(jobs, c)[x := jobs[x].burst - Ran(c, x) - m]
  {
    RunForJob(c, x, m, x);
    RunForOnly(jobs, c, x, m);
  }

  lemma SameArrivals(orig: seq<Process>, now: seq<Process>, c: Chart)
    requires Recorded(orig, now, c)
    ensures |now| == |orig|
    ensures forall i | 0 <= i < |now| :: now[i].arrivalTime == orig[i].arrivalTime && now[i].burstTime == orig[i].burstTime
  {}

  lemma AllRecorded(orig: seq<Process>, now: seq<Process>, c: Chart)
    requires Recorded(orig, now, c) && Proper(Jobs(orig)) && Finished(Jobs(orig), c)
    ensures now == ReportAll(orig, c)
  {
    forall i | 0 <= i < |orig| ensures now[i] == Report(orig[i], c, i) {
      assert Jobs(orig)[i].burst == Ran(c, i) > 0;
    }
  }

  /** While a job is unfinished but none is ready, one has still to arrive. */
  lemma StillToArrive(jobs: seq<Job>, c: Chart, completed: int, tt: int, tr: int)
    requires Counted(jobs, c, completed, tt, tr) && completed != |jobs| && NoneReady(jobs, c)
    ensures |c| < LatestArrival(jobs)
  {
    AllCounted(jobs, c, completed, tt, tr);
    var i :| 0 <= i < |jobs| && Ran(c, i) != jobs[i].burst;
    assert !Ready(jobs, c, i);
  }

  lemma LessOwed(jobs: seq<Job>, c: Chart, x: int, m: nat)
    requires 0 <= x < |jobs| && 0 < m <= jobs[x].burst - Ran(c, x)
    requires Proper(jobs) && Legal(jobs, c)
    ensures 0 <= Sum(Owed(jobs, RunFor(c, x, m))) < Sum(Owed(jobs, c))
  {
    forall i | 0 <= i < |jobs| ensures Ran(c, i) <= jobs[i].burst {
      LegalRan(jobs, c, i);
    }
    RunForOnly(jobs, c, x, m);
    RunForJob(c, x, m, x);
    var d := RunFor(c, x, m);
    SumOneChange(Owed(jobs, c), Owed(jobs, d), x);
    SumBounds(Owed(jobs, d), x);
  }

  lemma IdleOwed(jobs: seq<Job>, c: Chart, m: nat)
    ensures Owed(jobs, RunFor(c, IDLE, m)) == Owed(jobs, c)
  {
    RunForOnly(jobs, c, IDLE, m);
  }

  // ----- Running jobs whole -----

  /** Every job is either untouched or has had all its slots in one piece. */
  predicate Whole(jobs: seq<Job>, c: Chart) {
    forall i | 0 <= i < |jobs| ::
      Ran(c, i) == 0 || (Ran(c, i) == jobs[i].burst && LastEnd(c, i) == FirstSlot(c, i) + jobs[i].burst)
  }

  lemma WholeRun(jobs: seq<Job>, c: Chart, x: int)
    requires Proper(jobs) && Whole(jobs, c) && 0 <= x < |jobs| && Ran(c, x) == 0
    ensures Whole(jobs, RunFor(c, x, jobs[x].burst))
  {
    RunForOnly(jobs, c, x, jobs[x].burst);
    RunForJob(c, x, jobs[x].burst, x);
  }

  lemma WholeIdle(jobs: seq<Job>, c: Chart, m: nat)
    requires Proper(jobs) && Whole(jobs, c)
    ensures Whole(jobs, RunFor(c, IDLE, m))
  {
    RunForOnly(jobs, c, IDLE, m);
  }

  lemma RunEndsBusy(c: Chart, x: int, m: nat)
    requires m > 0 && x != IDLE
    ensures EndsBusy(RunFor(c, x, m))
  {
    RunForSlots(c, x, m, |c| + m - 1);
  }
}
