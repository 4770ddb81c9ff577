/** CLOCK against every other paging policy, and CLOCK as one of them. */
module ClockCompetitive {
  import opened Arithmetic
  import opened ClockConservative
  import opened ClockReplacement
  import opened ClockSecondChance
  import opened MachineTypes
  import opened Sums

  // ----- Paging policies -----

  /** The contents of memory before each request, under any demand-paging policy with h frames that
      starts with empty memory: it may drop what it likes, but it must load the page requested, and
      nothing else. */
  ghost predicate PagingPolicy(h: nat, reqs: seq<Byte>, held: seq<set<Byte>>) {
    && |held| == |reqs| + 1
    && held[0] == {}
    && forall t | 0 <= t < |reqs| :: Serves(h, reqs[t], held[t], held[t + 1])
  }

  predicate Serves(h: nat, r: Byte, before: set<Byte>, after: set<Byte>) {
    r in after && after <= before + {r} && |after| <= h
  }

  function MissFlags(reqs: seq<Byte>, held: seq<set<Byte>>): (f: seq<bool>)
    requires |reqs| < |held|
    ensures |f| == |reqs|
  {
    seq(|reqs|, t requires 0 <= t < |reqs| => reqs[t] !in held[t])
  }

  function Misses(reqs: seq<Byte>, held: seq<set<Byte>>, t: nat): nat
    requires t <= |reqs| < |held|
  {
    CountTrue(MissFlags(reqs, held), t)
  }

  /** The pages missed in positions `a` up to but not including `b`. */
  function Missed(reqs: seq<Byte>, held: seq<set<Byte>>, a: nat, b: nat): set<Byte>
    requires a <= b <= |reqs| < |held|
  {
    if a == b then {}
    else Missed(reqs, held, a, b - 1) + if reqs[b - 1] in held[b - 1] then {} else {reqs[b - 1]}
  }

  lemma {:induction false} MissedCount(reqs: seq<Byte>, held: seq<set<Byte>>, a: nat, b: nat)
    requires a <= b <= |reqs| < |held|
    ensures |Missed(reqs, held, a, b)| <= Misses(reqs, held, b) - Misses(reqs, held, a)
    decreases b
  {
    if a < b { MissedCount(reqs, held, a, b - 1); }
  }

  /** Whatever was requested from position `a` on, and whatever is held at the end of it, was held after
      the first request or has been missed since. */
  lemma {:induction false} HeldOrMissed(h: nat, reqs: seq<Byte>, held: seq<set<Byte>>, a: nat, t: nat)
    requires PagingPolicy(h, reqs, held) && a < t <= |reqs|
    ensures held[t] + Window(reqs, a, t) <= held[a + 1] + Missed(reqs, held, a + 1, t)
  {
    WindowStep(reqs, a, t);
    var r := reqs[t - 1];
    assert Serves(h, r, held[t - 1], held[t]);
    if t > a + 1 {
      HeldOrMissed(h, reqs, held, a, t - 1);
      HeldOrMissedStep(held[t - 1], Window(reqs, a, t - 1), held[a + 1], Missed(reqs, held, a + 1, t - 1), r, held[t]);
    }
  }

  lemma HeldOrMissedStep(before: set<Byte>, window: set<Byte>, first: set<Byte>, missed: set<Byte>, r: Byte, after: set<Byte>)
    requires before + window <= first + missed && after <= before + {r}
    ensures after + (window + {r}) <= first + (missed + if r in before then {} else {r})
  {}

  /** Of the distinct pages in a window a policy with h frames misses all but h after the first request. */
  lemma WindowForcesMisses(h: nat, reqs: seq<Byte>, held: seq<set<Byte>>, a: nat, t: nat)
    requires PagingPolicy(h, reqs, held) && a < t <= |reqs|
    ensures |Window(reqs, a, t)| <= h + Misses(reqs, held, t) - Misses(reqs, held, a + 1)
    ensures Misses(reqs, held, t) >= Misses(reqs, held, a + 1)
  {
    HeldOrMissed(h, reqs, held, a, t);
    MissedCount(reqs, held, a + 1, t);
    assert Serves(h, reqs[a], held[a], held[a + 1]);
    SubsetSize(Window(reqs, a, t), held[a + 1] + Missed(reqs, held, a + 1, t));
  }

  // ----- The competitive ratio -----

  /** After `m` full phases, with `pages` distinct pages in the current one. */
  predicate PhaseCounts(n: nat, k: nat, m: nat, pages: nat, faults: nat, misses: nat) {
    pages <= n && faults <= Times(m, n) && misses >= Times(m, k) + 1
  }

  /** The requests before position `t` cut into phases of n distinct pages: the current one began at
      position `b`, after `m` full ones. CLOCK has faulted at most n times in each full phase, and a
      policy with h frames has missed n - h + 1 times between the first requests of one phase and the
      next. */
  ghost predicate InPhase(n: nat, h: nat, reqs: seq<Byte>, held: seq<set<Byte>>, t: nat, b: nat, m: nat)
    requires 0 < h <= n && t <= |reqs| < |held|
  {
    b < t && PhaseCounts(n, n - h + 1, m, |Window(reqs, b, t)|, FaultCount(n, reqs, b), Misses(reqs, held, b + 1))
  }

  lemma NextPhase(n: nat, h: nat, m: nat, pages: nat, faults: nat, misses: nat, pages': nat, faults': nat, misses': nat)
    requires 0 < h <= n && PhaseCounts(n, n - h + 1, m, pages, faults, misses)
    requires pages' <= n && faults' <= faults + pages && misses' >= misses + n + 1 - h
    ensures PhaseCounts(n, n - h + 1, m + 1, pages', faults', misses')
  {}

  /** What a phase from `b` costs when position `t` opens the next. */
  lemma PhaseTolls(n: nat, h: nat, reqs: seq<Byte>, held: seq<set<Byte>>, t: nat, b: nat)
    requires 0 < h <= n && PagingPolicy(h, reqs, held) && b < t < |reqs|
    requires |Window(reqs, b, t)| <= n < |Window(reqs, b, t + 1)|
    ensures |Window(reqs, t, t + 1)| == 1
    ensures FaultCount(n, reqs, t) <= FaultCount(n, reqs, b) + |Window(reqs, b, t)|
    ensures Misses(reqs, held, t + 1) >= Misses(reqs, held, b + 1) + n + 1 - h
  {
    WindowBoundsFaults(n, reqs, b, t);
    WindowForcesMisses(h, reqs, held, b, t + 1);
    WindowStep(reqs, t, t + 1);
  }

  /** A phase ends when an (n + 1)st distinct page is requested. */
  lemma PhaseEnds(n: nat, h: nat, reqs: seq<Byte>, held: seq<set<Byte>>, t: nat, b: nat, m: nat)
    requires 0 < h <= n && PagingPolicy(h, reqs, held) && t < |reqs| && InPhase(n, h, reqs, held, t, b, m)
    requires |Window(reqs, b, t + 1)| > n
    ensures InPhase(n, h, reqs, held, t + 1, t, m + 1)
  {
    PhaseTolls(n, h, reqs, held, t, b);
    NextPhase(n, h, m, |Window(reqs, b, t)|, FaultCount(n, reqs, b), Misses(reqs, held, b + 1),
              |Window(reqs, t, t + 1)|, FaultCount(n, reqs, t), Misses(reqs, held, t + 1));
  }

  lemma FirstPhase(n: nat, h: nat, reqs: seq<Byte>, held: seq<set<Byte>>)
    requires 0 < h <= n && PagingPolicy(h, reqs, held) && |reqs| > 0
    ensures InPhase(n, h, reqs, held, 1, 0, 0)
  {
    WindowStep(reqs, 0, 1);
  }

  lemma {:induction false} Phases(n: nat, h: nat, reqs: seq<Byte>, held: seq<set<Byte>>, t: nat) returns (b: nat, m: nat)
    requires 0 < h <= n && PagingPolicy(h, reqs, held) && 0 < t <= |reqs|
    ensures InPhase(n, h, reqs, held, t, b, m)
  {
    if t == 1 {
      FirstPhase(n, h, reqs, held);
      b, m := 0, 0;
    } else {
      b, m := Phases(n, h, reqs, held, t - 1);
      if |Window(reqs, b, t)| > n {
        PhaseEnds(n, h, reqs, held, t - 1, b, m);
        b, m := t - 1, m + 1;
      }
    }
  }

  lemma LastPhase(n: nat, h: nat, reqs: seq<Byte>, held: seq<set<Byte>>, b: nat, m: nat)
    requires 0 < h <= n && PagingPolicy(h, reqs, held) && InPhase(n, h, reqs, held, |reqs|, b, m)
    ensures FaultCount(n, reqs, |reqs|) <= Times(m + 1, n)
    ensures Misses(reqs, held, |reqs|) >= Times(m, n - h + 1) + 1
  {
    WindowBoundsFaults(n, reqs, b, |reqs|);
    WindowForcesMisses(h, reqs, held, b, |reqs|);
  }

  /** From the counts per phase to the ratio. */
  lemma PhaseArithmetic(faults: nat, misses: nat, m: nat, n: nat, k: nat)
    requires 0 < k <= n && faults <= Times(m + 1, n) && misses >= Times(m, k) + 1
    ensures Times(k, faults) <= Times(n, misses + k - 1)
  {
    TimesMonotoneRight(k, faults, Times(m + 1, n));
    TimesSwap(k, m + 1, n);
    TimesCommutes(k, m + 1);
    assert Times(m + 1, k) == Times(m, k) + k;
    TimesMonotoneRight(n, Times(m + 1, k), misses + k - 1);
  }

  lemma {:induction false} PhasesCount(n: nat, h: nat, reqs: seq<Byte>, held: seq<set<Byte>>)
    requires 0 < h <= n && PagingPolicy(h, reqs, held)
    ensures Times(n - h + 1, FaultCount(n, reqs, |reqs|)) <= Times(n, Misses(reqs, held, |reqs|) + n - h)
  {
    if |reqs| > 0 {
      var b, m := Phases(n, h, reqs, held, |reqs|);
      LastPhase(n, h, reqs, held, b, m);
      PhaseArithmetic(FaultCount(n, reqs, |reqs|), Misses(reqs, held, |reqs|), m, n, n - h + 1);
    } else {
      TimesIsProduct(n - h + 1, 0);
    }
  }

  /** On every request sequence, against a policy with h <= n frames, even one that knows the future:
      CLOCK's faults are at most n / (n - h + 1) times its misses, up to a constant. */
  lemma {:induction false} Competitive(n: nat, h: nat, reqs: seq<Byte>, held: seq<set<Byte>>)
    requires 0 < h <= n && PagingPolicy(h, reqs, held)
    ensures (n - h + 1) * FaultCount(n, reqs, |reqs|) <= n * (Misses(reqs, held, |reqs|) + n - h)
  {
    PhasesCount(n, h, reqs, held);
    TimesIsProduct(n - h + 1, FaultCount(n, reqs, |reqs|));
    TimesIsProduct(n, Misses(reqs, held, |reqs|) + n - h);
  }

  /** With as many frames as the policy, CLOCK faults at most n times as often. */
  lemma {:induction false} SameSizeCompetitive(n: nat, reqs: seq<Byte>, held: seq<set<Byte>>)
    requires n > 0 && PagingPolicy(n, reqs, held)
    ensures FaultCount(n, reqs, |reqs|) <= n * Misses(reqs, held, |reqs|)
  {
    Competitive(n, n, reqs, held);
  }

  lemma {:induction false} CompetitiveWithAll(n: nat, reqs: seq<Byte>)
    requires n > 0
    ensures forall h: nat, held | 0 < h <= n && PagingPolicy(h, reqs, held) ::
              (n - h + 1) * FaultCount(n, reqs, |reqs|) <= n * (Misses(reqs, held, |reqs|) + n - h)
  {
    forall h: nat, held | 0 < h <= n && PagingPolicy(h, reqs, held)
      ensures (n - h + 1) * FaultCount(n, reqs, |reqs|) <= n * (Misses(reqs, held, |reqs|) + n - h)
    {
      Competitive(n, h, reqs, held);
    }
  }

  // ----- CLOCK is one of the policies it is compared with -----

  /** The pages in memory before request `t` that have been requested. */
  function Held(n: nat, reqs: seq<Byte>, t: nat): set<Byte>
    requires n > 0 && t <= |reqs|
  {
    PagesOf(After(n, reqs, t).memory) * Window(reqs, 0, t)
  }

  function ClockHeld(n: nat, reqs: seq<Byte>): seq<set<Byte>>
    requires n > 0
  {
    seq(|reqs| + 1, t requires 0 <= t <= |reqs| => Held(n, reqs, t))
  }

  lemma RequestServes(n: nat, reqs: seq<Byte>, t: nat)
    requires n > 0 && t < |reqs|
    ensures Serves(n, reqs[t], Held(n, reqs, t), Held(n, reqs, t + 1))
  {
    var s, s', r := After(n, reqs, t), After(n, reqs, t + 1), reqs[t];
    AfterKeeps(n, reqs, t);
    PagesOfMembers(s.memory);
    PagesOfMembers(s'.memory);
    WindowStep(reqs, 0, t + 1);
    forall x ensures Resident(s'.memory, r) && (Resident(s'.memory, x) ==> x == r || Resident(s.memory, x)) {
      PagesAfter(s, r, x);
    }
    SubsetSize(Held(n, reqs, t + 1), PagesOf(s'.memory));
  }

  lemma {:induction false} WindowIsRequested(reqs: seq<Byte>, t: nat, x: Byte)
    requires t <= |reqs|
    ensures x in Window(reqs, 0, t) <==> x in reqs[..t]
  {
    if t > 0 {
      WindowIsRequested(reqs, t - 1, x);
      assert reqs[..t] == reqs[..t - 1] + [reqs[t - 1]];
    }
  }

  /** A page is held unless its request faults or is its first. */
  lemma HeldUnless(n: nat, reqs: seq<Byte>, t: nat)
    requires n > 0 && t < |reqs|
    ensures reqs[t] in Held(n, reqs, t) <==> !Faults(n, reqs, t) && !FirstRequest(reqs, t)
  {
    PagesOfMembers(After(n, reqs, t).memory);
    WindowIsRequested(reqs, t, reqs[t]);
  }

  /** The first requests that are taken for hits. */
  function FalseHits(n: nat, reqs: seq<Byte>): (f: seq<bool>)
    requires n > 0
    ensures |f| == |reqs|
  {
    seq(|reqs|, t requires 0 <= t < |reqs| => FirstRequest(reqs, t) && !Faults(n, reqs, t))
  }

  /** CLOCK's misses are its faults and its false hits. */
  lemma MissesAreFaults(n: nat, reqs: seq<Byte>)
    requires n > 0
    ensures Misses(reqs, ClockHeld(n, reqs), |reqs|) == FaultCount(n, reqs, |reqs|) + CountTrue(FalseHits(n, reqs), |reqs|)
  {
    var misses := MissFlags(reqs, ClockHeld(n, reqs));
    forall t | 0 <= t < |reqs| ensures misses[t] <==> FaultFlags(n, reqs)[t] || FalseHits(n, reqs)[t] {
      HeldUnless(n, reqs, t);
    }
    CountAdd(FaultFlags(n, reqs), FalseHits(n, reqs), misses, |reqs|);
  }

  /** CLOCK itself is a demand-paging policy. It faults exactly when it misses, if and only if page 255
      is not requested while frames are empty. */
  lemma {:induction false} ClockIsPaging(n: nat, reqs: seq<Byte>)
    requires n > 0
    ensures PagingPolicy(n, reqs, ClockHeld(n, reqs))
    ensures Misses(reqs, ClockHeld(n, reqs), |reqs|) == FaultCount(n, reqs, |reqs|) <==> NoFalseHit(n, reqs)
  {
    ClockServes(n, reqs);
    MissesAreFaults(n, reqs);
    CountNone(FalseHits(n, reqs), |reqs|);
    FirstRequestsFault(n, reqs);
    assert forall t: nat | t < |reqs| :: FalseHits(n, reqs)[t] <==> FirstRequest(reqs, t) && !Faults(n, reqs, t);
  }

  lemma {:induction false} ClockServes(n: nat, reqs: seq<Byte>)
    requires n > 0
    ensures PagingPolicy(n, reqs, ClockHeld(n, reqs))
  {
    forall t | 0 <= t < |reqs| ensures Serves(n, reqs[t], ClockHeld(n, reqs)[t], ClockHeld(n, reqs)[t + 1]) {
      RequestServes(n, reqs, t);
    }
  }

  // ----- The whole program -----

  /** Where the program stands after `i` requests. */
  ghost predicate ServedUpTo(clock: Clock, n: nat, requests: seq<Byte>, i: nat)
    requires n > 0 && i <= |requests|
    reads clock, clock.memory
  {
    && clock.Ok() && clock.Abstract() == After(n, requests, i)
    && clock.totalFaults == FaultCount(n, requests, i) && clock.totalFaults + clock.totalHits == i
  }

  method ServeNext(clock: Clock, n: nat, requests: seq<Byte>, i: nat)
    requires n > 0 && i < |requests| && ServedUpTo(clock, n, requests, i)
    modifies clock`clockHand, clock`totalFaults, clock`totalHits, clock.memory
    ensures ServedUpTo(clock, n, requests, i + 1)
  {
    RequestCounts(n, requests, i);
    clock.HandlePageRequest(requests[i]);
  }

  method ServeAll(clock: Clock, n: nat, requests: seq<Byte>)
    requires n > 0 && clock.Ok() && clock.Abstract() == Empty(n) && clock.totalFaults == clock.totalHits == 0
    modifies clock`clockHand, clock`totalFaults, clock`totalHits, clock.memory
    ensures clock.Ok() && clock.Abstract() == After(n, requests, |requests|)
    ensures clock.totalFaults == FaultCount(n, requests, |requests|) && clock.totalFaults + clock.totalHits == |requests|
  {
    for i := 0 to |requests|
      invariant ServedUpTo(clock, n, requests, i)
    {
      ServeNext(clock, n, requests, i);
    }
  }

  /** Serves the requests one by one; the counters it reports are the faults and hits of the run, and
      the competitive bound holds against every policy with as many frames or fewer. While some frame is
      unreferenced, a page just requested survives the next fault. */
  method Simulate(numFrames: nat, requests: seq<Byte>) returns (faults: nat, hits: nat)
    requires numFrames > 0
    ensures faults == FaultCount(numFrames, requests, |requests|) && faults + hits == |requests|
    ensures forall h: nat, held | 0 < h <= numFrames && PagingPolicy(h, requests, held) ::
              (numFrames - h + 1) * faults <= numFrames * (Misses(requests, held, |requests|) + numFrames - h)
    ensures forall t: nat | t + 1 < |requests| :: KeptAfter(numFrames, requests, t)
  {
    var clock := new Clock(numFrames);
    ServeAll(clock, numFrames, requests);
    faults, hits := clock.totalFaults, clock.totalHits;
    CompetitiveWithAll(numFrames, requests);
    AllKept(numFrames, requests);
  }
}
