/** What makes CLOCK more than first in, first out: a page requested again gets a second chance. */
module ClockSecondChance {
  import opened ClockConservative
  import opened ClockReplacement
  import opened MachineTypes
  import opened Sums

  // ----- What a sweep does -----

  predicate SomeUnreferenced(m: seq<Frame>) {
    exists u: nat :: u < |m| && !m[u].referenced
  }

  /** Frame `g` is looked at when the hand goes from frame `h` up to, not including, frame `v`. */
  predicate Over(h: nat, v: nat, g: nat) {
    if h <= v then h <= g < v else g >= h || g < v
  }

  /** Not yet looked at by a sweep from `start` that has come to `h`. */
  predicate ToCome(h: nat, start: nat, g: nat) {
    if h < start then h <= g < start else g >= h || g < start
  }

  /** The sweep stops at the first unreferenced frame, and has taken the bit of each frame before it. */
  predicate StopsAtFirst(m: seq<Frame>, h: nat, m': seq<Frame>, v: nat)
    requires |m'| == |m| && v < |m|
  {
    && !m[v].referenced && m'[v] == m[v]
    && forall g: nat | g < |m| :: if Over(h, v, g) then m[g].referenced && m'[g] == m[g].(referenced := false) else m'[g] == m[g]
  }

  lemma {:induction false} SweepStops(m: seq<Frame>, h: nat, start: nat, u: nat)
    requires h < |m| && start < |m| && Clean(m) && u < |m| && ToCome(h, start, u) && !m[u].referenced
    ensures var (m', v) := Sweep(m, h, start); ToCome(h, start, v) && StopsAtFirst(m, h, m', v)
    decreases Ahead(|m|, h, start)
  {
    if m[h].referenced {
      var k, h' := m[h := m[h].(referenced := false)], Next(|m|, h);
      assert h' != start;
      SweepStops(k, h', start, u);
      var (m', v) := Sweep(k, h', start);
      forall g: nat | g < |m| ensures Over(h, v, g) <==> g == h || Over(h', v, g) {}
    }
  }

  lemma {:induction false} SweepGoesRound(m: seq<Frame>, h: nat, start: nat)
    requires h < |m| && start < |m| && Clean(m) && forall g: nat | g < |m| && ToCome(h, start, g) :: m[g].referenced
    ensures var (m', v) := Sweep(m, h, start);
            v == start && forall g: nat | g < |m| :: m'[g] == if ToCome(h, start, g) then m[g].(referenced := false) else m[g]
    decreases Ahead(|m|, h, start)
  {
    var k, h' := m[h := m[h].(referenced := false)], Next(|m|, h);
    if h' != start {
      SweepGoesRound(k, h', start);
      forall g: nat | g < |m| ensures ToCome(h, start, g) <==> g == h || ToCome(h', start, g) {}
    } else {
      forall g: nat | g < |m| ensures ToCome(h, start, g) <==> g == h {}
    }
  }

  /** The whole of what choosing a victim does: with some frame unreferenced the first such from the
      hand on, those before it losing their bit; otherwise the frame at the hand, all losing theirs. */
  lemma SweepMeans(m: seq<Frame>, h: nat)
    requires h < |m| && Clean(m)
    ensures var (m', v) := Sweep(m, h, h);
            if SomeUnreferenced(m) then StopsAtFirst(m, h, m', v)
            else v == h && forall g: nat | g < |m| :: m'[g] == m[g].(referenced := false)
  {
    if SomeUnreferenced(m) {
      var u: nat :| u < |m| && !m[u].referenced;
      SweepStops(m, h, h, u);
    } else {
      SweepGoesRound(m, h, h);
    }
  }

  // ----- The second chance -----

  /** The hand goes over frame `f` in serving a request for `r`. */
  ghost predicate HandPasses(s: State, r: Byte, f: nat)
    requires Valid(s) && f < |s.memory|
  {
    !Resident(s.memory, r)
    && ((forall g: nat | g < |s.memory| :: s.memory[g].referenced)
        || exists v: nat :: v < |s.memory| && !s.memory[v].referenced && Over(s.hand, v, f)
             && forall g: nat | g < |s.memory| && Over(s.hand, v, g) :: s.memory[g].referenced)
  }

  /** The page just requested is in memory with its bit set. */
  lemma ServedIsReferenced(s: State, r: Byte)
    requires Valid(s) && Clean(s.memory)
    ensures var t := Request(s, r); Holds(t, Find(t.memory, r), r)
  {
    var t, i := Request(s, r), Find(s.memory, r);
    if i < |s.memory| {
      assert t.memory[i].page == r;
    } else {
      var (m, v) := Sweep(s.memory, s.hand, s.hand);
      SweepKeeps(s.memory, s.hand, s.hand);
      NotResident(s.memory, m, r);
      forall j | 0 <= j < |m| && j != v ensures t.memory[j].page != r { assert m[j].page != r; }
      assert t.memory[v].page == r;
    }
  }

  /** A referenced page keeps its place and its bit until the hand goes over it. */
  lemma ReferencedStays(s: State, r: Byte, f: nat)
    requires Valid(s) && Clean(s.memory) && f < |s.memory| && s.memory[f].referenced && !HandPasses(s, r, f)
    ensures var t := Request(s, r); t.memory[f].page == s.memory[f].page && t.memory[f].referenced
  {
    if !Resident(s.memory, r) {
      SweepMeans(s.memory, s.hand);
      assert SomeUnreferenced(s.memory);
      var (m, v) := Sweep(s.memory, s.hand, s.hand);
      assert StopsAtFirst(s.memory, s.hand, m, v);
    }
  }

  /** In serving request `w` the hand goes over frame `f`. */
  ghost predicate PassedAt(n: nat, reqs: seq<Byte>, w: nat, f: nat)
    requires 0 < n && w < |reqs| && f < n
  {
    HandPasses(After(n, reqs, w), reqs[w], f)
  }

  /** Page `p` is in frame `f` with its bit set. */
  predicate Holds(s: State, f: nat, p: Byte) {
    f < |s.memory| && s.memory[f].page == p && s.memory[f].referenced
  }

  lemma HoldsOn(s: State, r: Byte, f: nat, p: Byte)
    requires Valid(s) && Clean(s.memory) && Holds(s, f, p) && !HandPasses(s, r, f)
    ensures Holds(Request(s, r), f, p)
  {
    ReferencedStays(s, r, f);
  }

  lemma {:induction false} HeldUntilPassed(n: nat, reqs: seq<Byte>, t: nat, u: nat, f: nat, p: Byte)
    requires 0 < n && t <= u <= |reqs| && f < n && Holds(After(n, reqs, t), f, p)
    requires forall w: nat | t <= w < u :: !PassedAt(n, reqs, w, f)
    ensures Holds(After(n, reqs, u), f, p)
  {
    if t < u {
      HeldUntilPassed(n, reqs, t, u - 1, f, p);
      HeldOn(n, reqs, u - 1, f, p);
    }
  }

  lemma HeldOn(n: nat, reqs: seq<Byte>, w: nat, f: nat, p: Byte)
    requires 0 < n && w < |reqs| && f < n && Holds(After(n, reqs, w), f, p) && !PassedAt(n, reqs, w, f)
    ensures Holds(After(n, reqs, w + 1), f, p)
  {
    AfterClean(n, reqs, w);
    HoldsOn(After(n, reqs, w), reqs[w], f, p);
  }

  /** A page requested at position `t` is still in its frame at position `u` unless the hand has gone
      over that frame since. */
  lemma StaysUntilPassed(n: nat, reqs: seq<Byte>, t: nat, u: nat, f: nat)
    requires n > 0 && t < u <= |reqs| && f == Find(After(n, reqs, t + 1).memory, reqs[t])
    requires f < n ==> forall w: nat | t < w < u :: !PassedAt(n, reqs, w, f)
    ensures Holds(After(n, reqs, u), f, reqs[t])
  {
    AfterClean(n, reqs, t);
    ServedIsReferenced(After(n, reqs, t), reqs[t]);
    HeldUntilPassed(n, reqs, t + 1, u, f, reqs[t]);
  }

  /** While some frame is unreferenced, a page just requested is not the next to go. */
  lemma SecondChance(n: nat, reqs: seq<Byte>, t: nat)
    requires n > 0 && t + 1 < |reqs| && Faults(n, reqs, t + 1)
    requires SomeUnreferenced(After(n, reqs, t + 1).memory)
    ensures Resident(After(n, reqs, t + 2).memory, reqs[t])
  {
    AfterClean(n, reqs, t);
    AfterClean(n, reqs, t + 1);
    ServedIsReferenced(After(n, reqs, t), reqs[t]);
    ReferencedNotNext(After(n, reqs, t + 1), reqs[t + 1], Find(After(n, reqs, t + 1).memory, reqs[t]));
  }

  /** If request `t + 1` faults while some frame is unreferenced, the page of request `t` is kept. */
  ghost predicate KeptAfter(n: nat, reqs: seq<Byte>, t: nat)
    requires n > 0 && t + 1 < |reqs|
  {
    Faults(n, reqs, t + 1) && SomeUnreferenced(After(n, reqs, t + 1).memory) ==> Resident(After(n, reqs, t + 2).memory, reqs[t])
  }

  lemma AllKept(n: nat, reqs: seq<Byte>)
    requires n > 0
    ensures forall t: nat | t + 1 < |reqs| :: KeptAfter(n, reqs, t)
  {
    forall t: nat | t + 1 < |reqs| ensures KeptAfter(n, reqs, t) {
      if Faults(n, reqs, t + 1) && SomeUnreferenced(After(n, reqs, t + 1).memory) { SecondChance(n, reqs, t); }
    }
  }

  lemma ReferencedNotNext(s: State, r: Byte, f: nat)
    requires Valid(s) && Clean(s.memory) && f < |s.memory| && s.memory[f].referenced
    requires !Resident(s.memory, r) && SomeUnreferenced(s.memory)
    ensures Resident(Request(s, r).memory, s.memory[f].page)
  {
    SweepMeans(s.memory, s.hand);
    var (m, v) := Sweep(s.memory, s.hand, s.hand);
    assert StopsAtFirst(s.memory, s.hand, m, v);
    assert Request(s, r).memory[f].page == s.memory[f].page;
  }
}
