/** The four policies side by side, on the same jobs. */
module Policies {
  import opened Schedule
  import opened Optimality
  import ShortestRemainingTime
  import ShortestJob
  import FirstCome
  import RoundRobin

  /** `c` is a complete run of one of the four policies. */
  ghost predicate PolicyRun(jobs: seq<Job>, c: Chart) {
    && Finished(jobs, c) && EndsBusy(c)
    && (|| ShortestRemainingTime.SrtfChart(jobs, c)
        || ShortestJob.SjfChart(jobs, c)
        || FirstCome.FifoChart(jobs, c)
        || exists q: nat, k: nat :: q > 0 && c == RoundRobin.Run(jobs, q, k).chart)
  }

  lemma PolicyConserves(jobs: seq<Job>, c: Chart)
    requires Proper(jobs) && PolicyRun(jobs, c)
    ensures WorkConserving(jobs, c)
  {
    if ShortestRemainingTime.SrtfChart(jobs, c) {
      ShortestRemainingTime.SrtfIsShortestFirst(jobs, c);
    } else if q: nat, k: nat :| q > 0 && c == RoundRobin.Run(jobs, q, k).chart {
      RoundRobin.RunSound(jobs, q, k);
      RoundRobin.NeverIdleConserves(jobs, c);
    }
  }

  /** All policies finish the same jobs at the same time. */
  lemma SameMakespan(jobs: seq<Job>, c: Chart, d: Chart)
    requires Proper(jobs) && PolicyRun(jobs, c) && PolicyRun(jobs, d)
    ensures |c| == |d|
  {
    PolicyConserves(jobs, c);
    PolicyConserves(jobs, d);
    MakespanMinimal(jobs, c, d);
    MakespanMinimal(jobs, d, c);
  }

  /** Shortest remaining time first has the least total turnaround of the four. */
  lemma LeastTurnaround(jobs: seq<Job>, srtf: Chart, d: Chart)
    requires Proper(jobs) && PolicyRun(jobs, srtf) && PolicyRun(jobs, d)
    requires ShortestRemainingTime.SrtfChart(jobs, srtf)
    ensures TotalTurnaround(jobs, srtf) <= TotalTurnaround(jobs, d)
  {
    PolicyConserves(jobs, d);
    ShortestRemainingTime.SrtfIsShortestFirst(jobs, srtf);
    ShortestFirstOptimal(jobs, srtf, d);
  }
}
