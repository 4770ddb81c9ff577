/** Jobs, charts and the measures every scheduling policy is judged by.

    A chart is the whole history of one CPU: slot `t` names the job that holds the CPU during
    the time unit [t, t+1), or IDLE. All four policies are described by the chart they produce. */
module Schedule {
  import opened Sums

  datatype Job = Job(arrival: int, burst: int)

  type Chart = seq<int>

  const IDLE := -1

  /** Every job asks for at least one unit of CPU. */
  predicate Proper(jobs: seq<Job>) {
    forall i | 0 <= i < |jobs| :: jobs[i].burst >= 1
  }

  /** No job asks for less than none. */
  predicate Sane(jobs: seq<Job>) {
    forall i | 0 <= i < |jobs| :: jobs[i].burst >= 0
  }

  // ----- What a chart says about one job -----

  /** Units of CPU job `i` has received. */
  function Ran(c: Chart, i: int): nat {
    if c == [] then 0 else Ran(c[..|c| - 1], i) + if c[|c| - 1] == i then 1 else 0
  }

  /** One past the last slot that job `i` held; 0 if it held none. */
  function LastEnd(c: Chart, i: int): (e: nat)
    ensures e <= |c|
  {
    if c == [] then 0 else if c[|c| - 1] == i then |c| else LastEnd(c[..|c| - 1], i)
  }

  /** The first slot that job `i` held; |c| if it held none. */
  function FirstSlot(c: Chart, i: int): (f: nat)
    ensures f <= |c|
  {
    if c == [] then 0
    else
      var f := FirstSlot(c[..|c| - 1], i);
      if f < |c| - 1 || c[|c| - 1] == i then f else |c|
  }

  /** The job has arrived and still needs CPU after the history `past`. */
  predicate Ready(jobs: seq<Job>, past: Chart, i: int) {
    0 <= i < |jobs| && jobs[i].arrival <= |past| && Ran(past, i) < jobs[i].burst
  }

  // ----- Kinds of charts -----

  ghost predicate LegalSlot(jobs: seq<Job>, c: Chart, t: nat)
    requires t < |c|
  {
    c[t] != IDLE ==> Ready(jobs, c[..t], c[t])
  }

  /** Every busy slot serves a job that is ready at that time: this is all that is asked of an
      arbitrary preemptive single-CPU schedule. */
  ghost predicate Legal(jobs: seq<Job>, c: Chart) {
    forall t | 0 <= t < |c| :: LegalSlot(jobs, c, t)
  }

  predicate Finished(jobs: seq<Job>, c: Chart) {
    forall i | 0 <= i < |jobs| :: Ran(c, i) == jobs[i].burst
  }

  ghost predicate NoneReady(jobs: seq<Job>, past: Chart) {
    forall i :: !Ready(jobs, past, i)
  }

  ghost predicate ConservingSlot(jobs: seq<Job>, c: Chart, t: nat)
    requires t < |c|
  {
    c[t] == IDLE ==> NoneReady(jobs, c[..t])
  }

  /** The CPU never idles while a job is ready. */
  ghost predicate WorkConserving(jobs: seq<Job>, c: Chart) {
    Legal(jobs, c) && forall t | 0 <= t < |c| :: ConservingSlot(jobs, c, t)
  }

  ghost predicate ShortestReady(jobs: seq<Job>, past: Chart, x: int) {
    && Ready(jobs, past, x)
    && forall i | Ready(jobs, past, i) :: jobs[x].burst - Ran(past, x) <= jobs[i].burst - Ran(past, i)
  }

  ghost predicate ShortestSlot(jobs: seq<Job>, c: Chart, t: nat)
    requires t < |c|
  {
    c[t] != IDLE ==> ShortestReady(jobs, c[..t], c[t])
  }

  /** Every slot serves some job of least remaining time; how ties are broken is left open. */
  ghost predicate ShortestFirst(jobs: seq<Job>, c: Chart) {
    WorkConserving(jobs, c) && forall t | 0 <= t < |c| :: ShortestSlot(jobs, c, t)
  }

  // ----- Totals -----

  /** Completion time minus arrival time, per job. */
  function Turnarounds(jobs: seq<Job>, c: Chart): seq<int> {
    seq(|jobs|, i requires 0 <= i < |jobs| => LastEnd(c, i) - jobs[i].arrival)
  }

  /** Start time minus arrival time, per job. */
  function Responses(jobs: seq<Job>, c: Chart): seq<int> {
    seq(|jobs|, i requires 0 <= i < |jobs| => FirstSlot(c, i) - jobs[i].arrival)
  }

  function TotalTurnaround(jobs: seq<Job>, c: Chart): int { Sum(Turnarounds(jobs, c)) }

  function TotalResponse(jobs: seq<Job>, c: Chart): int { Sum(Responses(jobs, c)) }

  function Bursts(jobs: seq<Job>): seq<int> {
    seq(|jobs|, i requires 0 <= i < |jobs| => jobs[i].burst)
  }

  function RanAll(jobs: seq<Job>, c: Chart): seq<int> {
    seq(|jobs|, i requires 0 <= i < |jobs| => Ran(c, i))
  }

  /** CPU time still owed to each job. */
  function Owed(jobs: seq<Job>, c: Chart): seq<int> {
    seq(|jobs|, i requires 0 <= i < |jobs| => jobs[i].burst - Ran(c, i))
  }

  // ----- Extending a chart -----

  /** `c` followed by `m` slots given to `x`. */
  function RunFor(c: Chart, x: int, m: nat): (r: Chart)
    ensures |r| == |c| + m && r[..|c|] == c
  {
    if m == 0 then c else RunFor(c, x, m - 1) + [x]
  }

  lemma {:induction false} RunForSlots(c: Chart, x: int, m: nat, t: nat)
    requires |c| <= t < |c| + m
    ensures RunFor(c, x, m)[t] == x && RunFor(c, x, m)[..t] == RunFor(c, x, t - |c|)
  {
    var r := RunFor(c, x, m - 1);
    if t < |c| + m - 1 {
      RunForSlots(c, x, m - 1, t);
      assert (r + [x])[..t] == r[..t];
    } else {
      assert (r + [x])[..t] == r;
    }
  }

  lemma AppendSlot(c: Chart, x: int, i: int)
    ensures Ran(c + [x], i) == Ran(c, i) + if i == x then 1 else 0
    ensures LastEnd(c + [x], i) == if i == x then |c| + 1 else LastEnd(c, i)
    ensures FirstSlot(c + [x], i) == if FirstSlot(c, i) < |c| || i == x then FirstSlot(c, i) else |c| + 1
  {
    assert (c + [x])[..|c|] == c;
  }

  lemma {:induction false} RunForJob(c: Chart, x: int, m: nat, i: int)
    ensures Ran(RunFor(c, x, m), i) == Ran(c, i) + if i == x then m else 0
    ensures LastEnd(RunFor(c, x, m), i) == if i == x && m > 0 then |c| + m else LastEnd(c, i)
    ensures Ran(c, i) > 0 || (i == x && m > 0) ==> FirstSlot(RunFor(c, x, m), i) == FirstSlot(c, i)
    ensures Ran(c, i) == 0 ==> FirstSlot(c, i) == |c| && LastEnd(c, i) == 0
    ensures Ran(c, i) > 0 ==> FirstSlot(c, i) < LastEnd(c, i)
  {
    FirstBeforeLast(c, i);
    if m > 0 {
      var r := RunFor(c, x, m - 1);
      RunForJob(c, x, m - 1, i);
      AppendSlot(r, x, i);
      FirstBeforeLast(r, i);
    }
  }

  lemma {:induction false} FirstBeforeLast(c: Chart, i: int)
    ensures Ran(c, i) == 0 ==> FirstSlot(c, i) == |c| && LastEnd(c, i) == 0
    ensures Ran(c, i) > 0 ==> FirstSlot(c, i) < LastEnd(c, i)
  {
    if c != [] { FirstBeforeLast(c[..|c| - 1], i); }
  }

  // ----- What first and last slots are -----

  lemma {:induction false} SlotWithin(c: Chart, t: nat)
    requires t < |c|
    ensures Ran(c, c[t]) > 0 && FirstSlot(c, c[t]) <= t < LastEnd(c, c[t])
  {
    if t < |c| - 1 { SlotWithin(c[..|c| - 1], t); }
  }

  lemma {:induction false} LastSlot(c: Chart, i: int)
    requires LastEnd(c, i) > 0
    ensures c[LastEnd(c, i) - 1] == i
  {
    if c[|c| - 1] != i { LastSlot(c[..|c| - 1], i); }
  }

  lemma {:induction false} FirstSlotHeld(c: Chart, i: int)
    requires Ran(c, i) > 0
    ensures FirstSlot(c, i) < |c| && c[FirstSlot(c, i)] == i && Ran(c[..FirstSlot(c, i)], i) == 0
  {
    var n := |c| - 1;
    FirstBeforeLast(c[..n], i);
    if Ran(c[..n], i) > 0 {
      FirstSlotHeld(c[..n], i);
      assert c[..n][..FirstSlot(c, i)] == c[..FirstSlot(c, i)];
    }
  }

  /** Slot `t` of a chart, and everything before it, survives in every extension. */
  lemma ExtensionSlot(jobs: seq<Job>, c: Chart, d: Chart, t: nat)
    requires c <= d && t < |c|
    ensures LegalSlot(jobs, d, t) <==> LegalSlot(jobs, c, t)
    ensures ConservingSlot(jobs, d, t) <==> ConservingSlot(jobs, c, t)
    ensures ShortestSlot(jobs, d, t) <==> ShortestSlot(jobs, c, t)
  {
    assert d[..t] == c[..t];
  }

  /** A ready job may be run for as long as it still needs the CPU. */
  lemma RunForKeepsConserving(jobs: seq<Job>, c: Chart, x: int, m: nat)
    requires WorkConserving(jobs, c)
    requires Ready(jobs, c, x) && Ran(c, x) + m <= jobs[x].burst
    ensures WorkConserving(jobs, RunFor(c, x, m))
  {
    var r := RunFor(c, x, m);
    forall t | 0 <= t < |r| ensures LegalSlot(jobs, r, t) && ConservingSlot(jobs, r, t) {
      if t < |c| {
        ExtensionSlot(jobs, c, r, t);
        assert LegalSlot(jobs, c, t) && ConservingSlot(jobs, c, t);
      } else {
        RunForSlots(c, x, m, t);
        RunForJob(c, x, t - |c|, x);
      }
    }
  }

  /** The CPU may idle while nothing is ready. */
  lemma IdleKeepsConserving(jobs: seq<Job>, c: Chart, m: nat)
    requires WorkConserving(jobs, c)
    requires forall i | 0 <= i < |jobs| :: Ran(c, i) >= jobs[i].burst || jobs[i].arrival >= |c| + m
    ensures WorkConserving(jobs, RunFor(c, IDLE, m))
  {
    var r := RunFor(c, IDLE, m);
    forall t | 0 <= t < |r| ensures LegalSlot(jobs, r, t) && ConservingSlot(jobs, r, t) {
      if t < |c| {
        ExtensionSlot(jobs, c, r, t);
        assert LegalSlot(jobs, c, t) && ConservingSlot(jobs, c, t);
      } else {
        RunForSlots(c, IDLE, m, t);
        forall i | 0 <= i < |jobs| ensures !Ready(jobs, r[..t], i) {
          RunForJob(c, IDLE, t - |c|, i);
        }
      }
    }
  }

  // ----- Facts about legal charts -----

  lemma LegalPrefix(jobs: seq<Job>, c: Chart, t: nat)
    requires t <= |c|
    ensures Legal(jobs, c) ==> Legal(jobs, c[..t])
  {
    forall u | 0 <= u < t && Legal(jobs, c) ensures LegalSlot(jobs, c[..t], u) {
      ExtensionSlot(jobs, c[..t], c, u);
      assert LegalSlot(jobs, c, u);
    }
  }

  /** No job gets more CPU than it asked for, nor any CPU before it arrives. */
  lemma {:induction false} LegalRan(jobs: seq<Job>, c: Chart, i: nat)
    requires Sane(jobs) && Legal(jobs, c) && i < |jobs|
    ensures Ran(c, i) <= jobs[i].burst
    ensures Ran(c, i) > 0 ==> jobs[i].arrival < |c|
    ensures Ran(c, i) > 0 ==> jobs[i].arrival <= FirstSlot(c, i)
  {
    if c != [] {
      var n := |c| - 1;
      LegalPrefix(jobs, c, n);
      LegalRan(jobs, c[..n], i);
      FirstBeforeLast(c[..n], i);
      if c[n] == i {
        assert LegalSlot(jobs, c, n);
      }
    }
  }

  lemma {:induction false} RanPrefix(c: Chart, t: nat, i: int)
    requires t <= |c|
    ensures Ran(c[..t], i) <= Ran(c, i)
  {
    if t < |c| {
      assert c[..|c| - 1][..t] == c[..t];
      RanPrefix(c[..|c| - 1], t, i);
    } else {
      assert c[..t] == c;
    }
  }
}
