/** Round robin: each pass of the loop looks at one slot of the circular queue, and the clock moves
    only while some process runs. */
module RoundRobin {
  import opened Schedule
  import opened Sums
  import opened Optimality
  import opened Processes
  import opened Arithmetic

  // ----- One pass of the loop -----

  /** The run so far and the queue position to look at next (`idx == n` wraps to 0). */
  datatype State = State(chart: Chart, idx: nat)

  const START := State([], 0)

  function Slot(n: nat, idx: nat): nat
    requires n > 0
  {
    if idx >= n then 0 else idx
  }

  function Quantum(jobs: seq<Job>, q: nat, c: Chart, i: int): int
    requires 0 <= i < |jobs|
  {
    var left := jobs[i].burst - Ran(c, i);
    if left > q then q else left
  }

  function Step(jobs: seq<Job>, q: nat, s: State): State
    requires |jobs| > 0
  {
    var i := Slot(|jobs|, s.idx);
    State(if Ready(jobs, s.chart, i) then RunFor(s.chart, i, Quantum(jobs, q, s.chart, i)) else s.chart, i + 1)
  }

  /** The state after `k` passes; the loop stops once every job is finished. */
  function Run(jobs: seq<Job>, q: nat, k: nat): State {
    if k == 0 then START
    else
      var s := Run(jobs, q, k - 1);
      if |jobs| == 0 || Finished(jobs, s.chart) then s else Step(jobs, q, s)
  }

  // ----- What every pass keeps -----

  predicate NeverIdle(c: Chart) {
    forall t | 0 <= t < |c| :: c[t] != IDLE
  }

  ghost predicate Sound(jobs: seq<Job>, s: State) {
    Legal(jobs, s.chart) && NeverIdle(s.chart) && s.idx <= |jobs|
  }

  lemma NeverIdleConserves(jobs: seq<Job>, c: Chart)
    requires Legal(jobs, c) && NeverIdle(c)
    ensures WorkConserving(jobs, c) && EndsBusy(c)
  {
    forall t | 0 <= t < |c| ensures ConservingSlot(jobs, c, t) {}
  }

  lemma RunForNeverIdle(c: Chart, x: int, m: nat)
    requires NeverIdle(c) && x != IDLE
    ensures NeverIdle(RunFor(c, x, m))
  {
    var d := RunFor(c, x, m);
    forall t | 0 <= t < |d| ensures d[t] != IDLE {
      if t >= |c| { RunForSlots(c, x, m, t); } else { assert d[t] == d[..|c|][t]; }
    }
  }

  lemma StepSound(jobs: seq<Job>, q: nat, s: State)
    requires Proper(jobs) && q > 0 && |jobs| > 0 && Sound(jobs, s)
    ensures Sound(jobs, Step(jobs, q, s))
  {
    var i := Slot(|jobs|, s.idx);
    if Ready(jobs, s.chart, i) {
      NeverIdleConserves(jobs, s.chart);
      RunForKeepsConserving(jobs, s.chart, i, Quantum(jobs, q, s.chart, i));
      RunForNeverIdle(s.chart, i, Quantum(jobs, q, s.chart, i));
    }
  }

  lemma {:induction false} RunSound(jobs: seq<Job>, q: nat, k: nat)
    requires Proper(jobs) && q > 0
    ensures Sound(jobs, Run(jobs, q, k))
  {
    if k > 0 {
      RunSound(jobs, q, k - 1);
      var s := Run(jobs, q, k - 1);
      if |jobs| > 0 && !Finished(jobs, s.chart) { StepSound(jobs, q, s); }
    }
  }

  // ----- Whose turn it is -----

  lemma RunForIs(c: Chart, x: int, m: nat)
    ensures RunFor(c, x, m) == c + seq(m, _ => x)
  {
    var r := RunFor(c, x, m);
    forall t | 0 <= t < |c| + m ensures r[t] == (c + seq(m, _ => x))[t] {
      if t < |c| { assert r[t] == r[..|c|][t]; } else { RunForSlots(c, x, m, t); }
    }
  }

  /** The positions come round in order, whether or not there was anything to run. */
  lemma {:induction false} PositionInTurn(jobs: seq<Job>, q: nat, k: nat)
    requires |jobs| > 0 && (k == 0 || !Finished(jobs, Run(jobs, q, k - 1).chart))
    ensures Slot(|jobs|, Run(jobs, q, k).idx) == k % |jobs|
  {
    if k > 0 {
      if k > 1 && Finished(jobs, Run(jobs, q, k - 2).chart) { assert false; }
      PositionInTurn(jobs, q, k - 1);
      NextInTurn(|jobs|, k);
    }
  }

  lemma NextInTurn(n: nat, k: nat)
    requires n > 0 && k > 0
    ensures k % n == if (k - 1) % n + 1 == n then 0 else (k - 1) % n + 1
  {
    var m := (k - 1) % n;
    assert k - 1 == (k - 1) / n * n + m;
    if m + 1 == n {
      assert k == ((k - 1) / n + 1) * n;
      RemainderIs(k, (k - 1) / n + 1, 0, n);
    } else {
      RemainderIs(k, (k - 1) / n, m + 1, n);
    }
  }

  lemma RemainderIs(k: nat, d: nat, r: nat, n: nat)
    requires r < n && k == d * n + r
    ensures k % n == r
  {
    var e := k / n;
    assert k == e * n + k % n;
    if d > e { Larger(d, e, n); } else if d < e { Larger(e, d, n); }
  }

  lemma Larger(d: nat, e: nat, n: nat)
    requires d > e
    ensures d * n >= e * n + n
  {
    assert d * n == e * n + n + (d - e - 1) * n;
  }

  /** Pass `k` is the turn of job `k` mod n: if it has arrived and has work left it gets the quantum, or
      all it has left if that is less, and otherwise nobody gets anything. */
  lemma TurnsInOrder(jobs: seq<Job>, q: nat, k: nat)
    requires |jobs| > 0 && !Finished(jobs, Run(jobs, q, k).chart)
    ensures var i, c, d := k % |jobs|, Run(jobs, q, k).chart, Run(jobs, q, k + 1).chart;
            var left := jobs[i].burst - Ran(c, i);
            d == if jobs[i].arrival <= |c| && left > 0 then c + seq(if left > q then q else left, _ => i) else c
  {
    var i, c := k % |jobs|, Run(jobs, q, k).chart;
    if k > 0 && Finished(jobs, Run(jobs, q, k - 1).chart) { assert false; }
    PositionInTurn(jobs, q, k);
    if Ready(jobs, c, i) { RunForIs(c, i, Quantum(jobs, q, c, i)); }
  }

  /** The clock reads exactly the work done. */
  lemma {:induction false} TimeIsWork(jobs: seq<Job>, c: Chart, t: nat)
    requires Legal(jobs, c) && NeverIdle(c) && t <= |c|
    ensures Sum(RanAll(jobs, c[..t])) == t
  {
    if t == 0 {
      SumZero(RanAll(jobs, c[..t]));
    } else {
      TimeIsWork(jobs, c, t - 1);
      WorkAfterSlot(jobs, c, t - 1);
    }
  }

  // ----- When the loop ends -----

  /** Burst time of the jobs that have arrived by time `t`. */
  function ArrivedWork(jobs: seq<Job>, t: int): int {
    Sum(seq(|jobs|, i requires 0 <= i < |jobs| => if jobs[i].arrival <= t then jobs[i].burst else 0))
  }

  /** Work never runs dry: at every time before the last job would end, more has arrived than a
      busy CPU could have done. */
  ghost predicate NoIdleGap(jobs: seq<Job>) {
    forall t | 0 <= t < Sum(Bursts(jobs)) :: ArrivedWork(jobs, t) > t
  }

  lemma FinishedLength(jobs: seq<Job>, c: Chart)
    requires Legal(jobs, c) && NeverIdle(c) && Finished(jobs, c)
    ensures |c| == Sum(Bursts(jobs))
  {
    TimeIsWork(jobs, c, |c|);
    assert c[..|c|] == c;
    assert RanAll(jobs, c) == Bursts(jobs);
  }

  lemma UnfinishedLength(jobs: seq<Job>, c: Chart)
    requires Proper(jobs) && Legal(jobs, c) && NeverIdle(c) && !Finished(jobs, c)
    ensures |c| < Sum(Bursts(jobs))
  {
    TimeIsWork(jobs, c, |c|);
    assert c[..|c|] == c;
    forall i | 0 <= i < |jobs| ensures RanAll(jobs, c)[i] <= Bursts(jobs)[i] {
      LegalRan(jobs, c, i);
    }
    SumMonotone(RanAll(jobs, c), Bursts(jobs));
    if Sum(RanAll(jobs, c)) == Sum(Bursts(jobs)) {
      forall i | 0 <= i < |jobs| ensures Ran(c, i) == jobs[i].burst {
        assert RanAll(jobs, c)[i] == Bursts(jobs)[i];
      }
    }
  }

  /** Without an idle gap, an unfinished run always has a ready job. */
  lemma SomeReady(jobs: seq<Job>, c: Chart) returns (w: int)
    requires Proper(jobs) && Legal(jobs, c) && NeverIdle(c) && NoIdleGap(jobs) && !Finished(jobs, c)
    ensures Ready(jobs, c, w)
  {
    UnfinishedLength(jobs, c);
    var a := seq(|jobs|, i requires 0 <= i < |jobs| => if jobs[i].arrival <= |c| then jobs[i].burst else 0);
    assert Sum(a) == ArrivedWork(jobs, |c|) > |c|;
    TimeIsWork(jobs, c, |c|);
    assert c[..|c|] == c;
    if forall i | 0 <= i < |jobs| :: a[i] <= RanAll(jobs, c)[i] {
      SumMonotone(a, RanAll(jobs, c));
      assert false;
    }
    w :| 0 <= w < |jobs| && a[w] > RanAll(jobs, c)[w];
  }

  /** How many queue positions lie ahead of position `w`. */
  function Distance(n: nat, idx: nat, w: int): int
    requires 0 <= w < n
  {
    var i := Slot(n, idx);
    if i <= w then w - i else w + n - i
  }

  /** A pass either moves the clock or comes closer to a ready job at position `w`. */
  lemma StepProgress(jobs: seq<Job>, q: nat, s: State, w: int)
    requires Proper(jobs) && q > 0 && |jobs| > 0 && s.idx <= |jobs| && Ready(jobs, s.chart, w)
    ensures var s' := Step(jobs, q, s);
            if Ready(jobs, s.chart, Slot(|jobs|, s.idx)) then |s'.chart| > |s.chart|
            else s'.chart == s.chart && 0 <= Distance(|jobs|, s'.idx, w) < Distance(|jobs|, s.idx, w)
  {}

  lemma {:induction false} Reaches(jobs: seq<Job>, q: nat, k: nat, w: int) returns (m: nat)
    requires Proper(jobs) && q > 0 && NoIdleGap(jobs)
    requires var s := Run(jobs, q, k); !Finished(jobs, s.chart) ==> Ready(jobs, s.chart, w)
    ensures Finished(jobs, Run(jobs, q, m).chart)
    decreases Sum(Bursts(jobs)) - |Run(jobs, q, k).chart|,
              if 0 <= w < |jobs| then Distance(|jobs|, Run(jobs, q, k).idx, w) else 0
  {
    var s, s' := Run(jobs, q, k), Run(jobs, q, k + 1);
    if Finished(jobs, s.chart) { return k; }
    RunSound(jobs, q, k);
    RunSound(jobs, q, k + 1);
    UnfinishedLength(jobs, s.chart);
    StepProgress(jobs, q, s, w);
    if Ready(jobs, s.chart, Slot(|jobs|, s.idx)) {
      var w' := w;
      if !Finished(jobs, s'.chart) { w' := SomeReady(jobs, s'.chart); }
      m := Reaches(jobs, q, k + 1, w');
    } else {
      m := Reaches(jobs, q, k + 1, w);
    }
  }

  /** A run that finishes without idling proves there was no gap. */
  lemma FinishedMeansNoGap(jobs: seq<Job>, c: Chart)
    requires Proper(jobs) && Legal(jobs, c) && NeverIdle(c) && Finished(jobs, c)
    ensures NoIdleGap(jobs)
  {
    FinishedLength(jobs, c);
    forall t | 0 <= t < Sum(Bursts(jobs)) ensures ArrivedWork(jobs, t) > t {
      TimeIsWork(jobs, c, t + 1);
      LegalPrefix(jobs, c, t + 1);
      var a := seq(|jobs|, i requires 0 <= i < |jobs| => if jobs[i].arrival <= t then jobs[i].burst else 0);
      forall i | 0 <= i < |jobs| ensures RanAll(jobs, c[..t + 1])[i] <= a[i] {
        LegalRan(jobs, c[..t + 1], i);
      }
      SumMonotone(RanAll(jobs, c[..t + 1]), a);
    }
  }

  ghost predicate Terminates(jobs: seq<Job>, q: nat) {
    exists k: nat :: Finished(jobs, Run(jobs, q, k).chart)
  }

  /** The loop ends exactly when the arrivals leave no idle gap. */
  lemma TerminatesIff(jobs: seq<Job>, q: nat)
    requires Proper(jobs) && q > 0
    ensures Terminates(jobs, q) <==> NoIdleGap(jobs)
  {
    if Terminates(jobs, q) {
      var k: nat :| Finished(jobs, Run(jobs, q, k).chart);
      RunSound(jobs, q, k);
      FinishedMeansNoGap(jobs, Run(jobs, q, k).chart);
    }
    if NoIdleGap(jobs) {
      var w := 0;
      if !Finished(jobs, []) { w := SomeReady(jobs, []); }
      var m := Reaches(jobs, q, 0, w);
    }
  }

  /** One job that arrives late is enough for the loop to spin for ever. */
  lemma LateArrivalSpins(q: nat, k: nat)
    requires q > 0
    ensures !Finished([Job(1, 1)], Run([Job(1, 1)], q, k).chart)
  {
    var jobs := [Job(1, 1)];
    assert Sum(Bursts(jobs)) == 1 by { assert Bursts(jobs) == [1]; assert [1][..0] == []; }
    assert ArrivedWork(jobs, 0) == 0 by {
      SumZero(seq(|jobs|, i requires 0 <= i < |jobs| => if jobs[i].arrival <= 0 then jobs[i].burst else 0));
    }
    TerminatesIff(jobs, q);
  }

  // ----- How long a job can wait -----

  /** The clock starts at 0, so no job waits before that. */
  function Release(jobs: seq<Job>, j: int): int
    requires 0 <= j < |jobs|
  {
    if jobs[j].arrival < 0 then 0 else jobs[j].arrival
  }

  /** Queue positions looked at since position `j` was. */
  function Passed(n: nat, idx: nat, j: nat): nat
    requires j < n
  {
    if idx > j then idx - 1 - j else idx + n - 1 - j
  }

  /** When job `j` last left the CPU, or was released if it has not had it yet. */
  function WaitingSince(jobs: seq<Job>, c: Chart, j: int): int
    requires 0 <= j < |jobs|
  {
    if Ran(c, j) > 0 then LastEnd(c, j) else Release(jobs, j)
  }

  /** A job that is waiting has waited at most one quantum per position passed. */
  predicate WaitsInTurn(jobs: seq<Job>, q: nat, s: State, j: int)
    requires 0 <= j < |jobs|
  {
    Ready(jobs, s.chart, j) ==> |s.chart| - WaitingSince(jobs, s.chart, j) <= Times(Passed(|jobs|, s.idx, j), q)
  }

  /** For a job with `r` of its `b` units done, started and last run `started` and `ended` after its
      release: every quantum it used cost it at most one `round` of the other jobs. */
  predicate WithinRounds(r: int, b: int, q: nat, round: nat, started: int, ended: int)
    requires q > 0
  {
    r > 0 ==>
      && started <= round
      && ended <= r + Times(Pieces(r, q), round)
      && (r < b ==> r == Times(Pieces(r, q), q))
  }

  predicate DelayBounded(jobs: seq<Job>, q: nat, c: Chart, j: int)
    requires 0 <= j < |jobs| && q > 0
  {
    WithinRounds(Ran(c, j), jobs[j].burst, q, Times(|jobs| - 1, q),
                 FirstSlot(c, j) - Release(jobs, j), LastEnd(c, j) - Release(jobs, j))
  }

  /** One more position passed, at most one more quantum waited. */
  lemma WaitsLonger(jobs: seq<Job>, q: nat, s: State, s': State, j: int)
    requires 0 <= j < |jobs| && WaitsInTurn(jobs, q, s, j)
    requires Ran(s'.chart, j) == Ran(s.chart, j)
    requires Ran(s.chart, j) > 0 ==> LastEnd(s'.chart, j) == LastEnd(s.chart, j) && jobs[j].arrival <= |s.chart|
    requires |s.chart| <= |s'.chart| <= |s.chart| + q
    requires Passed(|jobs|, s'.idx, j) == Passed(|jobs|, s.idx, j) + 1
    ensures WaitsInTurn(jobs, q, s', j)
  {}

  lemma WaitsAfterStep(jobs: seq<Job>, q: nat, s: State, j: int)
    requires Proper(jobs) && q > 0 && Sound(jobs, s) && 0 <= j < |jobs|
    requires WaitsInTurn(jobs, q, s, j)
    ensures WaitsInTurn(jobs, q, Step(jobs, q, s), j)
  {
    var i, s' := Slot(|jobs|, s.idx), Step(jobs, q, s);
    LegalRan(jobs, s.chart, j);
    if Ready(jobs, s.chart, i) {
      RunForJob(s.chart, i, Quantum(jobs, q, s.chart, i), j);
    }
    if i != j {
      WaitsLonger(jobs, q, s, s', j);
    }
  }

  /** `m` more units after waiting `waited`, of a quantum that is full unless it is the job's last. */
  lemma RoundsGrow(r: nat, b: int, q: nat, round: nat, started: int, ended: int, waited: int, m: nat)
    requires q > 0 && WithinRounds(r, b, q, round, started, ended) && r < b
    requires 0 < m <= q && (r + m < b ==> m == q)
    requires waited <= round && (r == 0 ==> ended == 0)
    ensures WithinRounds(r + m, b, q, round, if r == 0 then waited else started, ended + waited + m)
  {
    var e := Pieces(r, q);
    assert r == Times(e, q);
    PiecesAfter(e, q, m);
    assert Times(e + 1, round) == Times(e, round) + round;
    assert Times(e + 1, q) == Times(e, q) + q;
  }

  /** The same in clock times: released at `rel`, run for `m` units from time `now`. */
  lemma QuantumAdds(r: nat, b: int, q: nat, round: nat, first: int, last: int, rel: int, now: int, m: nat)
    requires q > 0 && WithinRounds(r, b, q, round, first - rel, last - rel) && r < b
    requires 0 < m <= q && (r + m < b ==> m == q)
    requires now - (if r > 0 then last else rel) <= round
    ensures WithinRounds(r + m, b, q, round, (if r == 0 then now else first) - rel, now + m - rel)
  {
    var ended := if r == 0 then 0 else last - rel;
    RoundsGrow(r, b, q, round, first - rel, ended, now - rel - ended, m);
  }

  lemma QuantumOfReady(jobs: seq<Job>, q: nat, c: Chart, j: int)
    requires q > 0 && Ready(jobs, c, j)
    ensures var m := Quantum(jobs, q, c, j);
            0 < m <= q && m <= jobs[j].burst - Ran(c, j) && (Ran(c, j) + m < jobs[j].burst ==> m == q)
  {}

  lemma DelayAfterTurn(jobs: seq<Job>, q: nat, c: Chart, j: int, m: nat)
    requires q > 0 && 0 <= j < |jobs| && DelayBounded(jobs, q, c, j) && Ran(c, j) < jobs[j].burst
    requires |c| - WaitingSince(jobs, c, j) <= Times(|jobs| - 1, q)
    requires 0 < m <= q && (Ran(c, j) + m < jobs[j].burst ==> m == q)
    ensures DelayBounded(jobs, q, RunFor(c, j, m), j)
  {
    RunForJob(c, j, m, j);
    QuantumAdds(Ran(c, j), jobs[j].burst, q, Times(|jobs| - 1, q), FirstSlot(c, j), LastEnd(c, j), Release(jobs, j), |c|, m);
  }

  lemma DelayAfterOwnStep(jobs: seq<Job>, q: nat, s: State, j: int)
    requires Proper(jobs) && q > 0 && 0 <= j < |jobs| && j == Slot(|jobs|, s.idx) && s.idx <= |jobs|
    requires WaitsInTurn(jobs, q, s, j) && DelayBounded(jobs, q, s.chart, j) && Ready(jobs, s.chart, j)
    ensures DelayBounded(jobs, q, RunFor(s.chart, j, Quantum(jobs, q, s.chart, j)), j)
  {
    assert Passed(|jobs|, s.idx, j) == |jobs| - 1;
    QuantumOfReady(jobs, q, s.chart, j);
    DelayAfterTurn(jobs, q, s.chart, j, Quantum(jobs, q, s.chart, j));
  }

  lemma DelayAfterStep(jobs: seq<Job>, q: nat, s: State, j: int)
    requires Proper(jobs) && q > 0 && Sound(jobs, s) && 0 <= j < |jobs|
    requires WaitsInTurn(jobs, q, s, j) && DelayBounded(jobs, q, s.chart, j)
    ensures DelayBounded(jobs, q, Step(jobs, q, s).chart, j)
  {
    var i := Slot(|jobs|, s.idx);
    if Ready(jobs, s.chart, i) {
      if i == j {
        DelayAfterOwnStep(jobs, q, s, j);
      } else {
        RunForJob(s.chart, i, Quantum(jobs, q, s.chart, i), j);
      }
    }
  }

  lemma {:induction false} RunBounded(jobs: seq<Job>, q: nat, k: nat, j: int)
    requires Proper(jobs) && q > 0 && 0 <= j < |jobs|
    ensures WaitsInTurn(jobs, q, Run(jobs, q, k), j) && DelayBounded(jobs, q, Run(jobs, q, k).chart, j)
  {
    if k > 0 {
      RunBounded(jobs, q, k - 1, j);
      RunSound(jobs, q, k - 1);
      var s := Run(jobs, q, k - 1);
      if !Finished(jobs, s.chart) {
        WaitsAfterStep(jobs, q, s, j);
        DelayAfterStep(jobs, q, s, j);
      }
    }
  }

  lemma RoundsAsProduct(b: nat, q: nat, others: nat)
    requires q > 0
    ensures Times(others, q) == others * q
    ensures Times(Pieces(b, q), Times(others, q)) == (b + q - 1) / q * (others * q)
  {
    TimesIsProduct(others, q);
    TimesIsProduct(Pieces(b, q), Times(others, q));
    PiecesIsCeiling(b, q);
  }

  /** In every run: a job first gets the CPU within n - 1 quanta of its release, and completes
      within its burst plus ceil(burst / q) rounds of one quantum for each other job. */
  lemma {:induction false} LatencyBound(jobs: seq<Job>, q: nat, k: nat, j: int)
    requires Proper(jobs) && q > 0 && 0 <= j < |jobs|
    ensures var n, c, b := |jobs|, Run(jobs, q, k).chart, jobs[j].burst;
            var since := if jobs[j].arrival >= 0 then jobs[j].arrival else 0;
            && (Ran(c, j) > 0 ==> FirstSlot(c, j) - since <= (n - 1) * q)
            && (Ran(c, j) == b ==> LastEnd(c, j) - since <= b + (b + q - 1) / q * ((n - 1) * q))
  {
    var n, b := |jobs|, jobs[j].burst;
    RunBounded(jobs, q, k, j);
    RoundsAsProduct(b, q, n - 1);
  }

  // ----- The loop over the process array -----

  /** A process record once the process is done: besides the report, round robin has used up the
      remaining time and set the started flag. */
  function RrReport(orig: Process, c: Chart, i: int): Process {
    Report(orig, c, i).(remainingTime := 0, started := true)
  }

  predicate RrRecorded(orig: seq<Process>, now: seq<Process>, c: Chart) {
    && |now| == |orig|
    && forall i | 0 <= i < |orig| ::
         now[i] == if Ran(c, i) == 0 then orig[i]
                   else if Ran(c, i) == orig[i].burstTime then RrReport(orig[i], c, i)
                   else orig[i].(startTime := FirstSlot(c, i), remainingTime := orig[i].burstTime - Ran(c, i), started := true)
  }

  ghost predicate RrUnderway(orig: seq<Process>, now: seq<Process>, isCompleted: seq<bool>, q: nat,
                             s: State, completed: int, tt: int, tr: int)
  {
    var jobs := Jobs(orig);
    && Entered(orig) && Proper(jobs) && q > 0
    && Counted(jobs, s.chart, completed, tt, tr)
    && RrRecorded(orig, now, s.chart)
    && Flagged(jobs, s.chart, isCompleted)
    && Sound(jobs, s) && Reached(jobs, q, s)
  }

  /** Some number of passes leads to state `s`. */
  ghost predicate Reached(jobs: seq<Job>, q: nat, s: State) {
    exists k: nat :: s == Run(jobs, q, k)
  }

  lemma ReachedStep(jobs: seq<Job>, q: nat, s: State)
    requires |jobs| > 0 && Reached(jobs, q, s) && !Finished(jobs, s.chart)
    ensures Reached(jobs, q, Step(jobs, q, s))
  {
    var k: nat :| s == Run(jobs, q, k);
    assert Step(jobs, q, s) == Run(jobs, q, k + 1);
  }

  /** A pass that finds the process at its slot absent or done leaves everything but `idx`. */
  lemma RrSkip(orig: seq<Process>, now: seq<Process>, isCompleted: seq<bool>, q: nat,
               s: State, completed: int, tt: int, tr: int, s': State)
    requires RrUnderway(orig, now, isCompleted, q, s, completed, tt, tr) && |orig| > 0 && !Finished(Jobs(orig), s.chart)
    requires var i := Slot(|orig|, s.idx); now[i].arrivalTime > |s.chart| || isCompleted[i]
    requires s' == State(s.chart, Slot(|orig|, s.idx) + 1)
    ensures s' == Step(Jobs(orig), q, s)
    ensures RrUnderway(orig, now, isCompleted, q, s', completed, tt, tr)
  {
    var i := Slot(|orig|, s.idx);
    assert now[i].arrivalTime == orig[i].arrivalTime;
    ReachedStep(Jobs(orig), q, s);
  }

  /** A pass that runs the process at its slot. */
  lemma RrServed(orig: seq<Process>, now: seq<Process>, isCompleted: seq<bool>, q: nat,
                 s: State, completed: int, tt: int, tr: int,
                 i: int, m: nat, s': State, now': seq<Process>, v: Process)
    requires RrUnderway(orig, now, isCompleted, q, s, completed, tt, tr) && |orig| > 0
    requires i == Slot(|orig|, s.idx) && Ready(Jobs(orig), s.chart, i) && m == Quantum(Jobs(orig), q, s.chart, i)
    requires s' == State(RunFor(s.chart, i, m), i + 1) && now' == now[i := v]
    requires v == if Ran(s.chart, i) + m == orig[i].burstTime then RrReport(orig[i], s'.chart, i)
                  else orig[i].(startTime := FirstSlot(s.chart, i),
                                remainingTime := orig[i].burstTime - Ran(s.chart, i) - m, started := true)
    ensures s' == Step(Jobs(orig), q, s)
    ensures Ran(s.chart, i) + m == orig[i].burstTime ==>
              RrUnderway(orig, now', isCompleted[i := true], q, s', completed + 1, tt + v.turnaroundTime, tr + v.responseTime)
    ensures Ran(s.chart, i) + m != orig[i].burstTime ==>
              RrUnderway(orig, now', isCompleted, q, s', completed, tt, tr)
  {
    var jobs, c, d := Jobs(orig), s.chart, s'.chart;
    StepSound(jobs, q, s);
    ReachedStep(jobs, q, s);
    RrRecordRun(orig, now, c, i, m, d, now', v);
    FlagRun(jobs, c, i, m, d, isCompleted);
    CountRun(jobs, c, i, m, completed, tt, tr);
  }

  lemma RrRecordRun(orig: seq<Process>, now: seq<Process>, c: Chart, x: int, m: nat,
                    d: Chart, now': seq<Process>, v: Process)
    requires RrRecorded(orig, now, c)
    requires 0 <= x < |orig| && 0 < m <= orig[x].burstTime - Ran(c, x) && d == RunFor(c, x, m) && now' == now[x := v]
    requires v == if Ran(c, x) + m == orig[x].burstTime then RrReport(orig[x], d, x)
                  else orig[x].(startTime := FirstSlot(c, x),
                                remainingTime := orig[x].burstTime - Ran(c, x) - m, started := true)
    ensures RrRecorded(orig, now', d)
  {
    forall i | 0 <= i < |orig|
      ensures && Ran(d, i) == Ran(c, i) + (if i == x then m else 0)
              && (Ran(c, i) > 0 || i == x ==> FirstSlot(d, i) == FirstSlot(c, i))
              && (i != x && Ran(c, i) > 0 ==> Report(orig[i], d, i) == Report(orig[i], c, i))
    {
      RunForJob(c, x, m, i);
    }
  }

  /** What the array shows of the process about to run. */
  lemma RrFields(orig: seq<Process>, now: seq<Process>, c: Chart, i: int, m: nat)
    requires RrRecorded(orig, now, c) && Entered(orig) && 0 <= i < |orig| && Ran(c, i) < orig[i].burstTime && m > 0
    ensures now[i].remainingTime == orig[i].burstTime - Ran(c, i)
    ensures now[i].started <==> Ran(c, i) > 0
    ensures now[i] == if Ran(c, i) == 0 then orig[i]
                      else orig[i].(startTime := FirstSlot(c, i), remainingTime := orig[i].burstTime - Ran(c, i), started := true)
    ensures FirstSlot(RunFor(c, i, m), i) == FirstSlot(c, i) && LastEnd(RunFor(c, i, m), i) == |c| + m
    ensures Ran(c, i) == 0 ==> FirstSlot(c, i) == |c|
  {
    RunForJob(c, i, m, i);
  }

  /** The record of a process after `used` units of CPU from time `now`. */
  function Turned(process: Process, used: int, now: int): Process {
    var start := if process.started then process.startTime else now;
    var r := process.(startTime := start, started := true, remainingTime := process.remainingTime - used);
    if r.remainingTime == 0 then
      r.(completionTime := now + used, turnaroundTime := now + used - r.arrivalTime, responseTime := start - r.arrivalTime)
    else r
  }

  /** A quantum, or what is left if that is less. */
  method Execute(process: Process, timeQuantum: nat, currentTime: int) returns (r: Process, executionTime: int)
    ensures executionTime == (if process.remainingTime > timeQuantum then timeQuantum else process.remainingTime)
    ensures r == Turned(process, executionTime, currentTime)
  {
    r := process;
    if !r.started {
      r := r.(startTime := currentTime, started := true);
    }
    executionTime := if r.remainingTime > timeQuantum then timeQuantum else r.remainingTime;
    r := r.(remainingTime := r.remainingTime - executionTime);
    if r.remainingTime == 0 {
      var end := currentTime + executionTime;
      r := r.(completionTime := end, turnaroundTime := end - r.arrivalTime, responseTime := r.startTime - r.arrivalTime);
    }
  }

  /** The turn leaves the record that the chart calls for. */
  lemma RrTurned(orig: seq<Process>, now: seq<Process>, c: Chart, i: int, m: nat)
    requires RrRecorded(orig, now, c) && Entered(orig) && 0 <= i < |orig| && 0 < m <= orig[i].burstTime - Ran(c, i)
    ensures now[i].remainingTime == orig[i].burstTime - Ran(c, i)
    ensures Turned(now[i], m, |c|) == if Ran(c, i) + m == orig[i].burstTime then RrReport(orig[i], RunFor(c, i, m), i)
                                      else orig[i].(startTime := FirstSlot(c, i),
                                                    remainingTime := orig[i].burstTime - Ran(c, i) - m, started := true)
  {
    RrFields(orig, now, c, i, m);
  }

  /** Where a turn leaves the loop: `r` is the new record at index `i`, after `used` units. */
  lemma RrTurn(orig: seq<Process>, now: seq<Process>, isCompleted: seq<bool>, q: nat,
               s: State, completed: int, tt: int, tr: int, i: int, used: int, r: Process) returns (s': State)
    requires RrUnderway(orig, now, isCompleted, q, s, completed, tt, tr) && |orig| > 0
    requires i == Slot(|orig|, s.idx) && Ready(Jobs(orig), s.chart, i)
    requires used == (if now[i].remainingTime > q then q else now[i].remainingTime) && r == Turned(now[i], used, |s.chart|)
    ensures s' == Step(Jobs(orig), q, s) && |s'.chart| == |s.chart| + used && s'.idx == i + 1
    ensures if r.remainingTime == 0
            then RrUnderway(orig, now[i := r], isCompleted[i := true], q, s',
                            completed + 1, tt + r.turnaroundTime, tr + r.responseTime)
            else RrUnderway(orig, now[i := r], isCompleted, q, s', completed, tt, tr)
  {
    var m := Quantum(Jobs(orig), q, s.chart, i);
    s' := State(RunFor(s.chart, i, m), i + 1);
    RrTurned(orig, now, s.chart, i, m);
    RrServed(orig, now, isCompleted, q, s, completed, tt, tr, i, m, s', now[i := r], r);
  }

  /** The branch of the loop that runs the process at index `i`. */
  method RrServe(p: array<Process>, isCompleted: array<bool>, timeQuantum: nat, i: nat, currentTime: int,
                 completed: int, tt: int, tr: int, ghost orig: seq<Process>, ghost s: State)
    returns (currentTime': int, completed': int, tt': int, tr': int, ghost s': State)
    requires p.Length == isCompleted.Length == |orig| && i < p.Length && currentTime == |s.chart|
    requires i == Slot(|orig|, s.idx) && Ready(Jobs(orig), s.chart, i)
    requires RrUnderway(orig, p[..], isCompleted[..], timeQuantum, s, completed, tt, tr)
    modifies p, isCompleted
    ensures s' == Step(Jobs(orig), timeQuantum, s) && currentTime' == |s'.chart| && s'.idx == i + 1
    ensures RrUnderway(orig, p[..], isCompleted[..], timeQuantum, s', completed', tt', tr')
  {
    ghost var was, flags := p[..], isCompleted[..];
    var process, executionTime := Execute(p[i], timeQuantum, currentTime);
    s' := RrTurn(orig, was, flags, timeQuantum, s, completed, tt, tr, i, executionTime, process);
    p[i] := process;
    assert p[..] == was[i := process];
    currentTime' := currentTime + executionTime;
    completed', tt', tr' := completed, tt, tr;
    if process.remainingTime == 0 {
      completed', tt', tr' := completed + 1, tt + process.turnaroundTime, tr + process.responseTime;
      isCompleted[i] := true;
      assert isCompleted[..] == flags[i := true];
    } else {
      assert isCompleted[..] == flags;
    }
  }

  function RrReportAll(orig: seq<Process>, c: Chart): seq<Process> {
    seq(|orig|, i requires 0 <= i < |orig| => RrReport(orig[i], c, i))
  }

  predicate AllUsedUp(now: seq<Process>) {
    forall i | 0 <= i < |now| :: now[i].remainingTime == 0 && now[i].started
  }

  ghost predicate WithinBounds(jobs: seq<Job>, q: nat, c: Chart, j: int)
    requires 0 <= j < |jobs| && q > 0
  {
    var n, b := |jobs|, jobs[j].burst;
    var since := if jobs[j].arrival >= 0 then jobs[j].arrival else 0;
    && FirstSlot(c, j) - since <= (n - 1) * q
    && LastEnd(c, j) - since <= b + (b + q - 1) / q * ((n - 1) * q)
  }

  lemma RrReported(orig: seq<Process>, now: seq<Process>, c: Chart)
    requires RrRecorded(orig, now, c) && Proper(Jobs(orig)) && Finished(Jobs(orig), c)
    ensures now == RrReportAll(orig, c) && AllAccurate(orig, now, c) && AllUsedUp(now)
  {
    forall j | 0 <= j < |orig| ensures now[j] == RrReport(orig[j], c, j) && Accurate(orig[j], now[j], c, j) {
      assert Jobs(orig)[j].burst == Ran(c, j) > 0;
      ReportAccurate(orig[j], c, j);
    }
  }

  lemma RrEnd(orig: seq<Process>, now: seq<Process>, isCompleted: seq<bool>, q: nat,
              s: State, completed: int, tt: int, tr: int)
    requires RrUnderway(orig, now, isCompleted, q, s, completed, tt, tr) && completed >= |orig|
    ensures exists k: nat :: s.chart == Run(Jobs(orig), q, k).chart
    ensures var jobs, c := Jobs(orig), s.chart;
            && WorkConserving(jobs, c) && NeverIdle(c) && Finished(jobs, c)
            && now == RrReportAll(orig, c) && AllAccurate(orig, now, c) && AllUsedUp(now)
            && tt == TotalTurnaround(jobs, c) && tr == TotalResponse(jobs, c)
            && (forall j | 0 <= j < |jobs| :: WithinBounds(jobs, q, c, j))
            && forall o: Chart | Legal(jobs, o) && Finished(jobs, o) :: |c| <= |o|
  {
    var jobs, c := Jobs(orig), s.chart;
    var k: nat :| s == Run(jobs, q, k);
    AllCounted(jobs, c, completed, tt, tr);
    NeverIdleConserves(jobs, c);
    RrReported(orig, now, c);
    forall j | 0 <= j < |jobs| ensures WithinBounds(jobs, q, c, j) {
      LatencyBound(jobs, q, k, j);
      assert jobs[j].burst == Ran(c, j) > 0;
    }
    forall o: Chart | Legal(jobs, o) && Finished(jobs, o) ensures |c| <= |o| {
      MakespanMinimal(jobs, c, o);
    }
  }

  lemma RrBegin(orig: seq<Process>, isCompleted: seq<bool>, q: nat)
    requires Entered(orig) && q > 0 && |isCompleted| == |orig|
    requires forall i | 0 <= i < |isCompleted| :: !isCompleted[i]
    ensures RrUnderway(orig, orig, isCompleted, q, START, 0, 0, 0)
  {
    NothingDone(Jobs(orig));
    assert START == Run(Jobs(orig), q, 0);
  }

  /** The loop's test is readiness. */
  lemma RrReadyTest(orig: seq<Process>, now: seq<Process>, isCompleted: seq<bool>, q: nat,
                    s: State, completed: int, tt: int, tr: int)
    requires RrUnderway(orig, now, isCompleted, q, s, completed, tt, tr)
    ensures |now| == |isCompleted| == |orig|
    ensures forall i | 0 <= i < |orig| ::
              now[i].arrivalTime <= |s.chart| && !isCompleted[i] <==> Ready(Jobs(orig), s.chart, i)
  {}

  /** One pass of the loop, whether or not it finds a process to run. */
  method RrPass(p: array<Process>, isCompleted: array<bool>, queue: array<int>, timeQuantum: nat, idx: nat, currentTime: int,
                completed: int, tt: int, tr: int, ghost orig: seq<Process>, ghost s: State)
    returns (currentTime': int, completed': int, tt': int, tr': int, ghost s': State)
    requires p.Length == isCompleted.Length == queue.Length == |orig| && |orig| > 0
    requires idx == Slot(|orig|, s.idx) && currentTime == |s.chart|
    requires forall j | 0 <= j < queue.Length :: queue[j] == j + 1
    requires RrUnderway(orig, p[..], isCompleted[..], timeQuantum, s, completed, tt, tr) && !Finished(Jobs(orig), s.chart)
    modifies p, isCompleted
    ensures s' == Step(Jobs(orig), timeQuantum, s) && currentTime' == |s'.chart| && s'.idx == idx + 1
    ensures RrUnderway(orig, p[..], isCompleted[..], timeQuantum, s', completed', tt', tr')
  {
    RrReadyTest(orig, p[..], isCompleted[..], timeQuantum, s, completed, tt, tr);
    var processId := queue[idx] - 1;
    currentTime', completed', tt', tr' := currentTime, completed, tt, tr;
    if p[processId].arrivalTime <= currentTime && !isCompleted[processId] {
      currentTime', completed', tt', tr', s' :=
        RrServe(p, isCompleted, timeQuantum, processId, currentTime, completed, tt, tr, orig, s);
    } else {
      s' := State(s.chart, idx + 1);
      RrSkip(orig, p[..], isCompleted[..], timeQuantum, s, completed, tt, tr, s');
    }
  }

  /** Without an idle gap a pass gets on: it moves the clock, or comes closer to the ready job `w`. */
  lemma RrProgress(orig: seq<Process>, now: seq<Process>, isCompleted: seq<bool>, q: nat,
                   s: State, completed: int, tt: int, tr: int, s': State, w: int) returns (w': int)
    requires |orig| > 0 && NoIdleGap(Jobs(orig)) && Ready(Jobs(orig), s.chart, w) && s.idx <= |orig|
    requires s' == Step(Jobs(orig), q, s) && RrUnderway(orig, now, isCompleted, q, s', completed, tt, tr)
    ensures !Finished(Jobs(orig), s'.chart) ==> Ready(Jobs(orig), s'.chart, w')
    ensures |s'.chart| > |s.chart|
            || (s'.chart == s.chart && w' == w && 0 <= Distance(|orig|, s'.idx, w') < Distance(|orig|, s.idx, w))
  {
    StepProgress(Jobs(orig), q, s, w);
    w' := w;
    if s'.chart != s.chart && !Finished(Jobs(orig), s'.chart) { w' := SomeReady(Jobs(orig), s'.chart); }
  }

  lemma RrUnfinished(orig: seq<Process>, now: seq<Process>, isCompleted: seq<bool>, q: nat,
                     s: State, completed: int, tt: int, tr: int)
    requires RrUnderway(orig, now, isCompleted, q, s, completed, tt, tr) && completed < |orig|
    ensures !Finished(Jobs(orig), s.chart) && |s.chart| < Sum(Bursts(Jobs(orig)))
  {
    AllCounted(Jobs(orig), s.chart, completed, tt, tr);
    UnfinishedLength(Jobs(orig), s.chart);
  }

  method FillQueue(p: array<Process>) returns (queue: array<int>)
    requires Entered(p[..])
    ensures fresh(queue) && queue.Length == p.Length
    ensures forall j | 0 <= j < queue.Length :: queue[j] == j + 1
  {
    queue := new int[p.Length];
    for i := 0 to p.Length
      invariant forall j | 0 <= j < i :: queue[j] == j + 1
    {
      queue[i] := p[i].pid;
    }
  }

  /** `k` passes lead to state `s`. */
  ghost predicate ReachedIn(jobs: seq<Job>, q: nat, s: State, k: nat) {
    s == Run(jobs, q, k)
  }

  lemma {:induction false} RunStays(jobs: seq<Job>, q: nat, k: nat, m: nat)
    requires k <= m && (jobs == [] || Finished(jobs, Run(jobs, q, k).chart))
    ensures Run(jobs, q, m) == Run(jobs, q, k)
    decreases m
  {
    if k < m { RunStays(jobs, q, k, m - 1); }
  }

  /** What the array shows after `k` passes. */
  ghost predicate RrStands(orig: seq<Process>, now: seq<Process>, q: nat, k: nat, done: bool) {
    var jobs, c := Jobs(orig), Run(Jobs(orig), q, k).chart;
    RrRecorded(orig, now, c) && (done <==> Finished(jobs, c))
  }

  lemma RrStandsAt(orig: seq<Process>, now: seq<Process>, isCompleted: seq<bool>, q: nat,
                   s: State, completed: int, tt: int, tr: int, k: nat, passes: nat)
    requires RrUnderway(orig, now, isCompleted, q, s, completed, tt, tr) && ReachedIn(Jobs(orig), q, s, k)
    requires k <= passes && (completed < |orig| ==> k == passes)
    ensures RrStands(orig, now, q, passes, completed >= |orig|)
  {
    AllCounted(Jobs(orig), s.chart, completed, tt, tr);
    if completed >= |orig| { RunStays(Jobs(orig), q, k, passes); }
  }

  /** What holds each time round the loop. */
  ghost predicate Looping(p: array<Process>, isCompleted: array<bool>, queue: array<int>, orig: seq<Process>, q: nat,
                          s: State, currentTime: int, idx: nat, completed: int, tt: int, tr: int)
    reads p, isCompleted, queue
  {
    && p.Length == isCompleted.Length == queue.Length == |orig|
    && currentTime == |s.chart| && idx == s.idx
    && (forall j | 0 <= j < queue.Length :: queue[j] == j + 1)
    && RrUnderway(orig, p[..], isCompleted[..], q, s, completed, tt, tr)
  }

  method RrStart(p: array<Process>, timeQuantum: nat) returns (isCompleted: array<bool>, queue: array<int>)
    requires Entered(p[..]) && timeQuantum > 0
    ensures fresh(isCompleted) && fresh(queue)
    ensures Looping(p, isCompleted, queue, p[..], timeQuantum, START, 0, 0, 0, 0, 0)
  {
    isCompleted := new bool[p.Length](_ => false);
    queue := FillQueue(p);
    RrBegin(p[..], isCompleted[..], timeQuantum);
  }

  /** Once round the loop. */
  method RrIterate(p: array<Process>, isCompleted: array<bool>, queue: array<int>, timeQuantum: nat, currentTime: int,
                   idx: nat, completed: int, tt: int, tr: int, ghost orig: seq<Process>, ghost s: State)
    returns (currentTime': int, idx': nat, completed': int, tt': int, tr': int, ghost s': State)
    requires Looping(p, isCompleted, queue, orig, timeQuantum, s, currentTime, idx, completed, tt, tr) && completed < |orig|
    modifies p, isCompleted
    ensures Looping(p, isCompleted, queue, orig, timeQuantum, s', currentTime', idx', completed', tt', tr')
    ensures s' == Step(Jobs(orig), timeQuantum, s)
    ensures !Finished(Jobs(orig), s.chart) && |s.chart| < Sum(Bursts(Jobs(orig))) && s.idx <= |orig|
  {
    RrUnfinished(orig, p[..], isCompleted[..], timeQuantum, s, completed, tt, tr);
    var i := if idx >= p.Length then 0 else idx;
    currentTime', completed', tt', tr', s' :=
      RrPass(p, isCompleted, queue, timeQuantum, i, currentTime, completed, tt, tr, orig, s);
    idx' := i + 1;
  }

  lemma NextPass(jobs: seq<Job>, q: nat, s: State, k: nat, s': State)
    requires |jobs| > 0 && ReachedIn(jobs, q, s, k) && !Finished(jobs, s.chart) && s' == Step(jobs, q, s)
    ensures ReachedIn(jobs, q, s', k + 1)
  {}

  /** The loop cut off after a number of passes, which makes sense of it also where it would not end. */
  method RrPasses(p: array<Process>, timeQuantum: nat, passes: nat) returns (done: bool)
    requires Entered(p[..]) && timeQuantum > 0
    modifies p
    ensures RrStands(old(p[..]), p[..], timeQuantum, passes, done)
  {
    ghost var orig := p[..];
    ghost var jobs := Jobs(orig);
    var currentTime, idx, completed, totalTurnaround, totalResponse := 0, 0, 0, 0, 0;
    var isCompleted, queue := RrStart(p, timeQuantum);
    ghost var s := START;
    var k := 0;
    while completed < p.Length && k < passes
      invariant 0 <= k <= passes && ReachedIn(jobs, timeQuantum, s, k)
      invariant Looping(p, isCompleted, queue, orig, timeQuantum, s, currentTime, idx, completed, totalTurnaround, totalResponse)
      decreases passes - k
    {
      ghost var before := s;
      currentTime, idx, completed, totalTurnaround, totalResponse, s :=
        RrIterate(p, isCompleted, queue, timeQuantum, currentTime, idx, completed, totalTurnaround, totalResponse, orig, before);
      NextPass(jobs, timeQuantum, before, k, s);
      k := k + 1;
    }
    RrStandsAt(orig, p[..], isCompleted[..], timeQuantum, s, completed, totalTurnaround, totalResponse, k, passes);
    done := completed >= p.Length;
  }

  method Rr(p: array<Process>, timeQuantum: nat) returns (totalTurnaround: int, totalResponse: int, ghost chart: Chart)
    requires Entered(p[..]) && timeQuantum > 0
    requires NoIdleGap(Jobs(p[..]))
    modifies p
    ensures exists k: nat :: chart == Run(Jobs(old(p[..])), timeQuantum, k).chart
    ensures var jobs := Jobs(old(p[..]));
            WorkConserving(jobs, chart) && NeverIdle(chart) && Finished(jobs, chart)
    ensures p[..] == RrReportAll(old(p[..]), chart) && AllAccurate(old(p[..]), p[..], chart) && AllUsedUp(p[..])
    ensures totalTurnaround == TotalTurnaround(Jobs(old(p[..])), chart)
    ensures totalResponse == TotalResponse(Jobs(old(p[..])), chart)
    ensures var jobs := Jobs(old(p[..])); forall j | 0 <= j < |jobs| :: WithinBounds(jobs, timeQuantum, chart, j)
    ensures var jobs := Jobs(old(p[..])); forall o: Chart | Legal(jobs, o) && Finished(jobs, o) :: |chart| <= |o|
  {
    ghost var orig := p[..];
    ghost var jobs := Jobs(orig);
    var currentTime, idx, completed := 0, 0, 0;
    totalTurnaround, totalResponse := 0, 0;
    var isCompleted, queue := RrStart(p, timeQuantum);
    ghost var s, w := START, 0;
    if !Finished(jobs, s.chart) { w := SomeReady(jobs, s.chart); }
    while completed < p.Length
      invariant Looping(p, isCompleted, queue, orig, timeQuantum, s, currentTime, idx, completed, totalTurnaround, totalResponse)
      invariant !Finished(jobs, s.chart) ==> Ready(jobs, s.chart, w)
      decreases Sum(Bursts(jobs)) - |s.chart|, if 0 <= w < |orig| then Distance(|orig|, s.idx, w) else 0
    {
      ghost var before := s;
      currentTime, idx, completed, totalTurnaround, totalResponse, s :=
        RrIterate(p, isCompleted, queue, timeQuantum, currentTime, idx, completed, totalTurnaround, totalResponse, orig, before);
      w := RrProgress(orig, p[..], isCompleted[..], timeQuantum, before, completed, totalTurnaround, totalResponse, s, w);
    }
    RrEnd(orig, p[..], isCompleted[..], timeQuantum, s, completed, totalTurnaround, totalResponse);
    chart := s.chart;
  }
}
