/** Runs of CLOCK: it is conservative, and how it fills an empty memory. */
module ClockConservative {
  import opened ClockReplacement
  import opened MachineTypes
  import opened Sums

  // ----- Runs -----

  /** The state after the first `t` requests, with `n` frames initially empty. */
  function After(n: nat, reqs: seq<Byte>, t: nat): (s: State)
    requires n > 0 && t <= |reqs|
    ensures Valid(s) && |s.memory| == n
  {
    if t == 0 then Empty(n) else Request(After(n, reqs, t - 1), reqs[t - 1])
  }

  predicate Faults(n: nat, reqs: seq<Byte>, t: nat)
    requires n > 0 && t < |reqs|
  {
    !Resident(After(n, reqs, t).memory, reqs[t])
  }

  function FaultFlags(n: nat, reqs: seq<Byte>): (f: seq<bool>)
    requires n > 0
    ensures |f| == |reqs|
  {
    seq(|reqs|, t requires 0 <= t < |reqs| => Faults(n, reqs, t))
  }

  function FaultCount(n: nat, reqs: seq<Byte>, t: nat): nat
    requires n > 0 && t <= |reqs|
  {
    CountTrue(FaultFlags(n, reqs), t)
  }

  /** What one more request does to the state and to the count of faults. */
  lemma RequestCounts(n: nat, reqs: seq<Byte>, t: nat)
    requires n > 0 && t < |reqs|
    ensures After(n, reqs, t + 1) == Request(After(n, reqs, t), reqs[t])
    ensures FaultCount(n, reqs, t + 1) == FaultCount(n, reqs, t) + if Resident(After(n, reqs, t).memory, reqs[t]) then 0 else 1
  {}

  /** The pages requested in positions `a` up to but not including `b`. */
  function Window(reqs: seq<Byte>, a: nat, b: nat): set<Byte>
    requires a <= b <= |reqs|
  {
    if a == b then {} else Window(reqs, a, b - 1) + {reqs[b - 1]}
  }

  lemma {:induction false} WindowShrinks(reqs: seq<Byte>, a: nat, i: nat, b: nat)
    requires a <= i <= b <= |reqs|
    ensures Window(reqs, i, b) <= Window(reqs, a, b)
    ensures |Window(reqs, i, b)| <= |Window(reqs, a, b)|
    decreases b
  {
    if i < b { WindowShrinks(reqs, a, i, b - 1); }
    SubsetSize(Window(reqs, i, b), Window(reqs, a, b));
  }

  lemma WindowStep(reqs: seq<Byte>, a: nat, b: nat)
    requires a < b <= |reqs|
    ensures Window(reqs, a, b) == Window(reqs, a, b - 1) + {reqs[b - 1]}
    ensures |Window(reqs, a, b - 1)| <= |Window(reqs, a, b)| <= |Window(reqs, a, b - 1)| + 1
    ensures a == b - 1 ==> Window(reqs, a, b) == {reqs[a]}
  {
    SubsetSize(Window(reqs, a, b - 1), Window(reqs, a, b));
  }

  // ----- What every reachable state keeps -----

  predicate Clean(m: seq<Frame>) {
    forall i | 0 <= i < |m| :: !m[i].dirty
  }

  /** A page occupies at most one frame; 255 also marks frames never used. */
  predicate Distinct(m: seq<Frame>) {
    forall i, j | 0 <= i < j < |m| && m[i].page != NO_PAGE :: m[i].page != m[j].page
  }

  /** A frame that holds 255 behind another that does: no request ever finds it. */
  predicate Spare(m: seq<Frame>, g: nat)
    requires g < |m|
  {
    m[g].page == NO_PAGE && exists i :: 0 <= i < g && m[i].page == NO_PAGE
  }

  predicate SparesIdle(m: seq<Frame>) {
    forall g: nat | g < |m| && Spare(m, g) :: !m[g].referenced
  }

  predicate Kept(m: seq<Frame>) {
    Clean(m) && Distinct(m) && SparesIdle(m)
  }

  predicate SamePages(m: seq<Frame>, m': seq<Frame>) {
    |m| == |m'| && forall i | 0 <= i < |m| :: m[i].page == m'[i].page
  }

  lemma SameSpares(m: seq<Frame>, m': seq<Frame>)
    requires SamePages(m, m')
    ensures forall g: nat | g < |m| :: Spare(m', g) <==> Spare(m, g)
  {
    forall g: nat | g < |m| ensures Spare(m', g) <==> Spare(m, g) {
      assert forall i | 0 <= i < g :: m[i].page == m'[i].page;
    }
  }

  /** Loading a page adds no spare frame: the page loaded is nowhere else. */
  lemma SparesShrink(m: seq<Frame>, v: nat, r: Byte, g: nat)
    requires v < |m| && g < |m| && !Resident(m, r)
    requires Spare(m[v := Frame(r, true, false)], g)
    ensures g != v && Spare(m, g)
  {
    var m' := m[v := Frame(r, true, false)];
    var i :| 0 <= i < g && m'[i].page == NO_PAGE;
    assert i != v ==> m[i].page == NO_PAGE;
    assert g != v ==> m[g].page == NO_PAGE;
  }

  /** A sweep moves no page and sets no bit, and the victim is left unreferenced. */
  lemma {:induction false} SweepKeeps(m: seq<Frame>, h: nat, start: nat)
    requires h < |m| && start < |m| && Clean(m) && (h == start || !m[start].referenced)
    ensures var (m', v) := Sweep(m, h, start);
            && SamePages(m, m') && Clean(m') && !m'[v].referenced
            && forall i | 0 <= i < |m| && m'[i].referenced :: m[i].referenced
    decreases Ahead(|m|, h, start)
  {
    if m[h].referenced {
      var m' := m[h := m[h].(referenced := false)];
      var h' := Next(|m|, h);
      if h' != start { SweepKeeps(m', h', start); }
    }
  }

  lemma SweepKept(m: seq<Frame>, start: nat)
    requires start < |m| && Kept(m)
    ensures Kept(Sweep(m, start, start).0)
  {
    SweepKeeps(m, start, start);
    SameSpares(m, Sweep(m, start, start).0);
  }

  lemma LoadKept(m: seq<Frame>, v: nat, r: Byte)
    requires v < |m| && Kept(m) && !Resident(m, r)
    ensures Kept(m[v := Frame(r, true, false)])
  {
    var m' := m[v := Frame(r, true, false)];
    forall i | 0 <= i < |m| ensures m[i].page != r {}
    forall g: nat | g < |m'| && Spare(m', g) ensures !m'[g].referenced {
      SparesShrink(m, v, r, g);
    }
  }

  lemma HitKept(m: seq<Frame>, i: nat)
    requires i < |m| && Kept(m) && i == Find(m, m[i].page)
    ensures Kept(m[i := m[i].(referenced := true)])
  {
    var m' := m[i := m[i].(referenced := true)];
    SameSpares(m, m');
  }

  lemma NotResident(m: seq<Frame>, m': seq<Frame>, r: Byte)
    requires SamePages(m, m') && !Resident(m, r)
    ensures !Resident(m', r)
  {
    forall i | 0 <= i < |m| ensures m'[i].page != r { assert m[i].page != r; }
  }

  lemma RequestKeeps(s: State, r: Byte)
    requires Valid(s) && Kept(s.memory)
    ensures Kept(Request(s, r).memory)
  {
    var i := Find(s.memory, r);
    if i < |s.memory| {
      HitKept(s.memory, i);
    } else {
      var (m, v) := Sweep(s.memory, s.hand, s.hand);
      SweepKeeps(s.memory, s.hand, s.hand);
      SweepKept(s.memory, s.hand);
      NotResident(s.memory, m, r);
      LoadKept(m, v, r);
    }
  }

  lemma {:induction false} AfterKeeps(n: nat, reqs: seq<Byte>, t: nat)
    requires n > 0 && t <= |reqs|
    ensures Kept(After(n, reqs, t).memory)
  {
    if t > 0 {
      AfterKeeps(n, reqs, t - 1);
      RequestKeeps(After(n, reqs, t - 1), reqs[t - 1]);
    }
  }

  // ----- Following one page from its load to its eviction -----

  /** Frames the hand has passed since it stood just behind frame `f`. */
  predicate Passed(f: nat, h: nat, g: nat) {
    g != f && if h > f then f < g < h else g > f || g < h
  }

  /** A frame holding a page of `R` that a request can find. */
  predicate Wanted(m: seq<Frame>, R: set<Byte>, g: nat)
    requires g < |m|
  {
    m[g].page in R && !Spare(m, g)
  }

  /** On its first trip round to `f` the hand leaves behind only frames that are unreferenced or hold
      a page of `R`; on later trips only frames that hold a page of `R`. */
  predicate Tracks(m: seq<Frame>, h: nat, f: nat, R: set<Byte>)
    requires h < |m| && f < |m|
  {
    && Wanted(m, R, f)
    && (|| (m[f].referenced && forall g: nat | g < |m| && Passed(f, h, g) && m[g].referenced :: m[g].page in R)
        || ((forall g: nat | g < |m| && m[g].referenced :: m[g].page in R)
            && forall g: nat | g < |m| && Passed(f, h, g) :: Wanted(m, R, g)))
  }

  /** The hand clears a bit and moves on. */
  lemma TrackSkip(m: seq<Frame>, h: nat, f: nat, R: set<Byte>)
    requires h < |m| && f < |m| && SparesIdle(m) && Tracks(m, h, f, R) && m[h].referenced
    ensures var m' := m[h := m[h].(referenced := false)];
            SparesIdle(m') && Tracks(m', Next(|m|, h), f, R)
  {
    var m', h' := m[h := m[h].(referenced := false)], Next(|m|, h);
    SameSpares(m, m');
    forall g: nat | g < |m| ensures Wanted(m', R, g) <==> Wanted(m, R, g) {}
    forall g: nat | g < |m| ensures Passed(f, h', g) <==> if h == f then false else g == h || Passed(f, h, g) {}
    assert !Spare(m, h);
  }

  lemma {:induction false} TrackSweep(m: seq<Frame>, h: nat, start: nat, f: nat, R: set<Byte>)
    requires h < |m| && start < |m| && f < |m| && Clean(m) && SparesIdle(m)
    requires Tracks(m, h, f, R)
    ensures var (m', v) := Sweep(m, h, start); Tracks(m', v, f, R)
    decreases Ahead(|m|, h, start)
  {
    if m[h].referenced {
      TrackSkip(m, h, f, R);
      var m' := m[h := m[h].(referenced := false)];
      var h' := Next(|m|, h);
      if h' != start { TrackSweep(m', h', start, f, R); }
    }
  }

  function PagesOf(m: seq<Frame>): set<Byte> {
    if m == [] then {} else PagesOf(m[..|m| - 1]) + {m[|m| - 1].page}
  }

  lemma {:induction false} PagesOfMembers(m: seq<Frame>)
    ensures |PagesOf(m)| <= |m|
    ensures forall x :: x in PagesOf(m) <==> Resident(m, x)
  {
    if m != [] {
      var k := m[..|m| - 1];
      PagesOfMembers(k);
      forall x ensures x in PagesOf(m) <==> Resident(m, x) {
        if x in PagesOf(k) {
          var i :| 0 <= i < |k| && k[i].page == x;
          assert m[i].page == x;
        } else if Resident(m, x) {
          var i :| 0 <= i < |m| && m[i].page == x;
          assert i < |k| ==> k[i].page == x;
        }
        assert m[|m| - 1].page == m[|m| - 1].page;
      }
    }
  }

  lemma {:induction false} PagesOfSize(m: seq<Frame>)
    requires forall i, j | 0 <= i < j < |m| :: m[i].page != m[j].page
    ensures |PagesOf(m)| == |m|
  {
    if m != [] {
      var k := m[..|m| - 1];
      PagesOfSize(k);
      PagesOfMembers(k);
      forall i | 0 <= i < |k| ensures k[i].page != m[|m| - 1].page {}
    }
  }

  /** When the frame being followed is the victim, all n frames hold pages of `R`, all different; with
      the page that displaces one of them that makes n + 1. */
  lemma EvictionNeedsAll(m: seq<Frame>, f: nat, R: set<Byte>, r: Byte)
    requires f < |m| && Tracks(m, f, f, R) && !m[f].referenced && Distinct(m)
    requires !Resident(m, r)
    ensures forall g | 0 <= g < |m| :: m[g].page in R && m[g].page != r
    ensures forall i, j | 0 <= i < j < |m| :: m[i].page != m[j].page
    ensures |R + {r}| >= |m| + 1
  {
    forall g: nat | g < |m| ensures Wanted(m, R, g) {
      assert g != f ==> Passed(f, f, g);
    }
    forall i: nat, j: nat | i < j < |m| ensures m[i].page != m[j].page {
      assert Wanted(m, R, j);
    }
    forall g: nat | g < |m| ensures m[g].page in R && m[g].page != r {
      assert Wanted(m, R, g);
    }
    PagesOfSize(m);
    PagesOfMembers(m);
    SubsetSize(PagesOf(m) + {r}, R + {r});
  }

  lemma TrackLoad(m: seq<Frame>, h: nat, f: nat, R: set<Byte>, r: Byte)
    requires h < |m| && f < |m| && Tracks(m, h, f, R) && h != f && !Resident(m, r)
    ensures Tracks(m[h := Frame(r, true, false)], Next(|m|, h), f, R + {r})
  {
    var m', h' := m[h := Frame(r, true, false)], Next(|m|, h);
    forall g: nat | g < |m| ensures Passed(f, h', g) <==> g == h || Passed(f, h, g) {}
    forall g: nat | g < |m| && (g == h || Wanted(m, R, g)) ensures Wanted(m', R + {r}, g) {
      if Spare(m', g) { SparesShrink(m, h, r, g); }
    }
  }

  lemma TrackHit(m: seq<Frame>, h: nat, f: nat, R: set<Byte>, i: nat)
    requires h < |m| && f < |m| && i < |m| && Tracks(m, h, f, R)
    ensures Tracks(m[i := m[i].(referenced := true)], h, f, R + {m[i].page})
  {
    var m' := m[i := m[i].(referenced := true)];
    SameSpares(m, m');
    forall g: nat | g < |m| && Wanted(m, R, g) ensures Wanted(m', R + {m[i].page}, g) {}
  }

  /** One request: the followed page stays where it is, or n + 1 pages have been requested since it
      was loaded. */
  lemma TrackRequest(s: State, f: nat, R: set<Byte>, r: Byte)
    requires Valid(s) && f < |s.memory| && Kept(s.memory) && Tracks(s.memory, s.hand, f, R)
    ensures var t := Request(s, r);
            || (t.memory[f].page == s.memory[f].page && Tracks(t.memory, t.hand, f, R + {r}))
            || |R + {r}| >= |s.memory| + 1
  {
    var i := Find(s.memory, r);
    if i < |s.memory| {
      TrackHit(s.memory, s.hand, f, R, i);
    } else {
      var (m, v) := Sweep(s.memory, s.hand, s.hand);
      TrackSweep(s.memory, s.hand, s.hand, f, R);
      SweepKeeps(s.memory, s.hand, s.hand);
      SweepKept(s.memory, s.hand);
      NotResident(s.memory, m, r);
      if v == f {
        EvictionNeedsAll(m, f, R, r);
      } else {
        TrackLoad(m, v, f, R, r);
      }
    }
  }

  /** The frame a faulting page is loaded into. */
  lemma LoadStarts(s: State, r: Byte) returns (f: nat)
    requires Valid(s) && Clean(s.memory) && !Resident(s.memory, r)
    ensures var t := Request(s, r); f < |t.memory| && t.memory[f].page == r && Tracks(t.memory, t.hand, f, {r})
  {
    var (m, v) := Sweep(s.memory, s.hand, s.hand);
    f := v;
    var t := Request(s, r);
    SweepKeeps(s.memory, s.hand, s.hand);
    NotResident(s.memory, m, r);
    if Spare(t.memory, f) { SparesShrink(m, f, r, f); }
    forall g: nat | g < |t.memory| ensures !Passed(f, t.hand, g) {}
  }

  /** Page `p`, loaded at position `i`, is still in frame `f` at position `t`, or n + 1 pages have been
      requested since. */
  predicate Followed(n: nat, s: State, f: nat, p: Byte, W: set<Byte>)
    requires Valid(s) && f < |s.memory|
  {
    (s.memory[f].page == p && Tracks(s.memory, s.hand, f, W)) || |W| >= n + 1
  }

  lemma FollowRequest(n: nat, s: State, f: nat, p: Byte, W: set<Byte>, r: Byte)
    requires Valid(s) && f < |s.memory| == n && Kept(s.memory) && Followed(n, s, f, p, W)
    ensures Followed(n, Request(s, r), f, p, W + {r})
  {
    if |W| >= n + 1 {
      SubsetSize(W, W + {r});
    } else {
      TrackRequest(s, f, W, r);
    }
  }

  lemma {:induction false} FollowRun(n: nat, reqs: seq<Byte>, i: nat, t: nat, f: nat)
    requires n > 0 && i < t <= |reqs| && f < n
    requires Followed(n, After(n, reqs, i + 1), f, reqs[i], {reqs[i]})
    ensures Followed(n, After(n, reqs, t), f, reqs[i], Window(reqs, i, t))
  {
    WindowStep(reqs, i, t);
    if t > i + 1 {
      FollowRun(n, reqs, i, t - 1, f);
      AfterKeeps(n, reqs, t - 1);
      FollowRequest(n, After(n, reqs, t - 1), f, reqs[i], Window(reqs, i, t - 1), reqs[t - 1]);
    }
  }

  /** A page that faults twice saw more than n distinct pages requested in between: in a window of at
      most n distinct pages no page faults twice. */
  lemma Conservative(n: nat, reqs: seq<Byte>, i: nat, j: nat)
    requires n > 0 && i < j < |reqs| && reqs[i] == reqs[j]
    requires Faults(n, reqs, i) && Faults(n, reqs, j)
    ensures |Window(reqs, i, j)| >= n + 1
  {
    AfterKeeps(n, reqs, i);
    var f := LoadStarts(After(n, reqs, i), reqs[i]);
    FollowRun(n, reqs, i, j, f);
  }

  /** The pages that faulted in positions `a` up to but not including `b`. */
  function Faulted(n: nat, reqs: seq<Byte>, a: nat, b: nat): set<Byte>
    requires n > 0 && a <= b <= |reqs|
  {
    if a == b then {}
    else Faulted(n, reqs, a, b - 1) + if Faults(n, reqs, b - 1) then {reqs[b - 1]} else {}
  }

  lemma {:induction false} FaultedAt(n: nat, reqs: seq<Byte>, a: nat, b: nat, x: Byte) returns (i: nat)
    requires n > 0 && a <= b <= |reqs| && x in Faulted(n, reqs, a, b)
    ensures a <= i < b && reqs[i] == x && Faults(n, reqs, i)
  {
    if x in Faulted(n, reqs, a, b - 1) {
      i := FaultedAt(n, reqs, a, b - 1, x);
    } else {
      i := b - 1;
    }
  }

  lemma FaultsOnce(n: nat, reqs: seq<Byte>, a: nat, b: nat)
    requires n > 0 && a <= b < |reqs| && |Window(reqs, a, b)| <= n
    requires reqs[b] in Faulted(n, reqs, a, b)
    ensures !Faults(n, reqs, b)
  {
    var i := FaultedAt(n, reqs, a, b, reqs[b]);
    WindowShrinks(reqs, a, i, b);
    if Faults(n, reqs, b) { Conservative(n, reqs, i, b); }
  }

  /** In a window of at most n distinct pages CLOCK faults at most once per page. */
  lemma {:induction false} FaultsInWindow(n: nat, reqs: seq<Byte>, a: nat, b: nat)
    requires n > 0 && a <= b <= |reqs| && |Window(reqs, a, b)| <= n
    ensures Faulted(n, reqs, a, b) <= Window(reqs, a, b)
    ensures |Faulted(n, reqs, a, b)| == FaultCount(n, reqs, b) - FaultCount(n, reqs, a)
    decreases b
  {
    if a < b {
      WindowStep(reqs, a, b);
      FaultsInWindow(n, reqs, a, b - 1);
      if reqs[b - 1] in Faulted(n, reqs, a, b - 1) { FaultsOnce(n, reqs, a, b - 1); }
    }
  }

  lemma WindowBoundsFaults(n: nat, reqs: seq<Byte>, a: nat, b: nat)
    requires n > 0 && a <= b <= |reqs| && |Window(reqs, a, b)| <= n
    ensures FaultCount(n, reqs, b) - FaultCount(n, reqs, a) <= |Window(reqs, a, b)|
  {
    FaultsInWindow(n, reqs, a, b);
    SubsetSize(Faulted(n, reqs, a, b), Window(reqs, a, b));
  }

  // ----- The cold start -----

  predicate Used(m: seq<Frame>, i: nat)
    requires i < |m|
  {
    m[i].page != NO_PAGE
  }

  predicate Unused(m: seq<Frame>, i: nat)
    requires i < |m|
  {
    m[i] == Frame(NO_PAGE, false, false)
  }

  predicate NoneEmpty(m: seq<Frame>) {
    forall i: nat | i < |m| :: Used(m, i)
  }

  /** Frames below `k` hold pages, the rest have never been used, and the hand is at frame `k`. */
  predicate FilledUpTo(s: State, k: nat) {
    && s.hand == k < |s.memory|
    && (forall i: nat | i < k :: Used(s.memory, i))
    && forall i: nat | k <= i < |s.memory| :: Unused(s.memory, i)
  }

  /** One request for a real page while frame `k` is the first unused. */
  lemma FillStep(s: State, k: nat, r: Byte)
    requires FilledUpTo(s, k) && r != NO_PAGE
    ensures if Resident(s.memory, r) then FilledUpTo(Request(s, r), k)
            else && Request(s, r) == State(s.memory[k := Frame(r, true, false)], Next(|s.memory|, k))
                 && (if k + 1 < |s.memory| then FilledUpTo(Request(s, r), k + 1) else NoneEmpty(Request(s, r).memory))
  {
    var t := Request(s, r);
    assert Unused(s.memory, k);
    forall i: nat | i < |s.memory| ensures Used(t.memory, i) <==> Used(s.memory, i) || t.memory[i].page == r {}
    forall i: nat | k <= i < |s.memory| && s.memory[i] == t.memory[i] ensures Unused(t.memory, i) {
      assert Unused(s.memory, i);
    }
    if Resident(s.memory, r) {
      var h := Find(s.memory, r);
      assert h >= k ==> Unused(s.memory, h);
    }
  }

  lemma FullStays(s: State, r: Byte)
    requires Valid(s) && Clean(s.memory) && NoneEmpty(s.memory) && r != NO_PAGE
    ensures NoneEmpty(Request(s, r).memory)
  {
    SweepKeeps(s.memory, s.hand, s.hand);
    forall i: nat | i < |s.memory| ensures Used(Request(s, r).memory, i) {
      assert Used(s.memory, i);
    }
  }

  lemma NoneFound(m: seq<Frame>)
    requires NoneEmpty(m)
    ensures !Resident(m, NO_PAGE)
  {
    forall i: nat | i < |m| ensures m[i].page != NO_PAGE {
      assert Used(m, i);
    }
  }

  /** The state after `k` faults from the start. */
  predicate ColdAt(s: State, k: nat) {
    if k < |s.memory| then FilledUpTo(s, k) else NoneEmpty(s.memory)
  }

  lemma ColdStep(s: State, k: nat, r: Byte)
    requires Valid(s) && Clean(s.memory) && ColdAt(s, k) && r != NO_PAGE
    ensures ColdAt(Request(s, r), if Resident(s.memory, r) then k else k + 1)
  {
    if k < |s.memory| { FillStep(s, k, r); } else { FullStays(s, r); }
  }

  lemma AfterClean(n: nat, reqs: seq<Byte>, t: nat)
    requires n > 0 && t <= |reqs|
    ensures Clean(After(n, reqs, t).memory)
  {
    AfterKeeps(n, reqs, t);
  }

  /** Until page 255 is first requested: although no frame is ever recognised as empty, the first n
      faults fill frames 0, 1, 2, ... in order and evict nothing; after them no frame is empty. */
  lemma {:induction false} ColdFill(n: nat, reqs: seq<Byte>, t: nat)
    requires n > 0 && t <= |reqs| && NO_PAGE !in reqs[..t]
    ensures ColdAt(After(n, reqs, t), FaultCount(n, reqs, t))
  {
    if t > 0 {
      assert reqs[..t] == reqs[..t - 1] + [reqs[t - 1]];
      ColdFill(n, reqs, t - 1);
      AfterClean(n, reqs, t - 1);
      RequestCounts(n, reqs, t - 1);
      ColdStep(After(n, reqs, t - 1), FaultCount(n, reqs, t - 1), reqs[t - 1]);
    }
  }

  /** The next fault loads into the first unused frame and changes nothing else. */
  lemma ColdFault(n: nat, reqs: seq<Byte>, t: nat)
    requires n > 0 && t < |reqs| && NO_PAGE !in reqs[..t + 1]
    requires FaultCount(n, reqs, t) < n && Faults(n, reqs, t)
    ensures var s, k := After(n, reqs, t), FaultCount(n, reqs, t);
            After(n, reqs, t + 1) == State(s.memory[k := Frame(reqs[t], true, false)], Next(n, k))
  {
    assert reqs[..t + 1] == reqs[..t] + [reqs[t]];
    ColdFill(n, reqs, t);
    FillStep(After(n, reqs, t), FaultCount(n, reqs, t), reqs[t]);
  }

  // ----- First requests, and page 255 -----

  predicate FirstRequest(reqs: seq<Byte>, t: nat) {
    t < |reqs| && reqs[t] !in reqs[..t]
  }

  /** A request brings in no page but its own, and that one it does. */
  lemma PagesAfter(s: State, r: Byte, x: Byte)
    requires Valid(s) && Clean(s.memory)
    ensures Resident(Request(s, r).memory, r)
    ensures Resident(Request(s, r).memory, x) ==> x == r || Resident(s.memory, x)
  {
    var t, i := Request(s, r), Find(s.memory, r);
    var f := if i < |s.memory| then i else Sweep(s.memory, s.hand, s.hand).1;
    SweepKeeps(s.memory, s.hand, s.hand);
    assert t.memory[f].page == r;
    if j :| 0 <= j < |t.memory| && t.memory[j].page == x {
      assert j != f ==> s.memory[j].page == x;
    }
  }

  lemma EmptyHoldsNone(n: nat, x: Byte)
    requires x != NO_PAGE
    ensures !Resident(Empty(n).memory, x)
  {}

  /** A page in memory, 255 aside, got there by a fault on a request for it. */
  lemma {:induction false} ResidentFaulted(n: nat, reqs: seq<Byte>, t: nat, x: Byte)
    requires n > 0 && t <= |reqs| && x != NO_PAGE
    ensures Resident(After(n, reqs, t).memory, x) ==> x in Faulted(n, reqs, 0, t) && x in reqs[..t]
  {
    if t == 0 {
      EmptyHoldsNone(n, x);
    } else {
      assert reqs[..t] == reqs[..t - 1] + [reqs[t - 1]];
      ResidentFaulted(n, reqs, t - 1, x);
      AfterClean(n, reqs, t - 1);
      PagesAfter(After(n, reqs, t - 1), reqs[t - 1], x);
    }
  }

  /** Before page 255 is requested every page requested has faulted. */
  lemma {:induction false} RequestedFaulted(n: nat, reqs: seq<Byte>, t: nat)
    requires n > 0 && t <= |reqs| && NO_PAGE !in reqs[..t]
    ensures Window(reqs, 0, t) <= Faulted(n, reqs, 0, t)
    ensures |Faulted(n, reqs, 0, t)| <= FaultCount(n, reqs, t)
  {
    if t > 0 {
      assert reqs[..t] == reqs[..t - 1] + [reqs[t - 1]];
      RequestedFaulted(n, reqs, t - 1);
      if !Faults(n, reqs, t - 1) { ResidentFaulted(n, reqs, t - 1, reqs[t - 1]); }
    }
  }

  /** The first request for page 255 is taken for a hit, on an empty frame, exactly when fewer than n
      distinct pages were requested before it. */
  lemma FirstRequestFor255(n: nat, reqs: seq<Byte>, t: nat)
    requires n > 0 && FirstRequest(reqs, t) && reqs[t] == NO_PAGE
    ensures Faults(n, reqs, t) <==> |Window(reqs, 0, t)| >= n
  {
    ColdFill(n, reqs, t);
    var s, k := After(n, reqs, t), FaultCount(n, reqs, t);
    if k < n {
      RequestedFaulted(n, reqs, t);
      SubsetSize(Window(reqs, 0, t), Faulted(n, reqs, 0, t));
      assert Unused(s.memory, k);
    } else {
      NoneFound(s.memory);
      if |Window(reqs, 0, t)| < n { WindowBoundsFaults(n, reqs, 0, t); }
    }
  }

  /** Page 255, if it is requested, is first requested after n other pages. */
  predicate NoFalseHit(n: nat, reqs: seq<Byte>) {
    forall t: nat | t < |reqs| && FirstRequest(reqs, t) && reqs[t] == NO_PAGE :: |Window(reqs, 0, t)| >= n
  }

  lemma FirstRequestFor(n: nat, reqs: seq<Byte>, t: nat)
    requires n > 0 && FirstRequest(reqs, t) && reqs[t] != NO_PAGE
    ensures Faults(n, reqs, t)
  {
    if !Faults(n, reqs, t) { ResidentFaulted(n, reqs, t, reqs[t]); }
  }

  /** Every page's first request faults if and only if 255 is not requested too soon. */
  lemma FirstRequestsFault(n: nat, reqs: seq<Byte>)
    requires n > 0
    ensures (forall t: nat | FirstRequest(reqs, t) :: Faults(n, reqs, t)) <==> NoFalseHit(n, reqs)
  {
    forall t: nat | FirstRequest(reqs, t)
      ensures Faults(n, reqs, t) <==> reqs[t] != NO_PAGE || |Window(reqs, 0, t)| >= n
    {
      if reqs[t] == NO_PAGE { FirstRequestFor255(n, reqs, t); } else { FirstRequestFor(n, reqs, t); }
    }
  }
}
