/** Shortest-seek-time-first disk scheduling: always serve the request nearest to the head. */
module DiskScheduling {
  import opened MachineTypes
  import opened Sums

  const SECTORS_PER_TRACK := 100
  const SEEK_TIME_PER_TRACK := 2.0
  const ROTATION_TIME := 60000.0 / 72.0
  const INITIAL_HEAD_POSITION := 100

  datatype DiskRequest = DiskRequest(sector: Int32, track: int)

  /** Integer division rounds toward zero. */
  function CalculateTrack(sector: int): int {
    if sector >= 0 then sector / SECTORS_PER_TRACK else -(-sector / SECTORS_PER_TRACK)
  }

  function TrackDistance(a: int, b: int): int {
    if a < b then b - a else a - b
  }

  function CalculateSeekTime(a: int, b: int): real {
    TrackDistance(a, b) as real * SEEK_TIME_PER_TRACK
  }

  /** The remainder takes the sign of the sector number. */
  function SectorInTrack(sector: int): int {
    if sector >= 0 then sector % SECTORS_PER_TRACK else -(-sector % SECTORS_PER_TRACK)
  }

  /** The time to turn past `d` sectors. */
  function TurnTime(d: int): real {
    d as real / 100.0 * ROTATION_TIME
  }

  function CalculateRotationalLatency(a: int, b: int): real {
    TurnTime(TrackDistance(a, b))
  }

  /** Track `t` holds sectors 100t up to 100t + 99; track 0 those from -99 to 99, and track -t the mirror
      image of track t. */
  predicate OnTrack(sector: int, track: int) {
    if sector >= 0 then 100 * track <= sector < 100 * track + 100 else 100 * track - 100 < sector <= 100 * track
  }

  /** The track is the one the sector lies on, and the number within the track is the distance from where
      that track begins. */
  lemma TrackOfSector(sector: int)
    ensures forall track :: OnTrack(sector, track) <==> track == CalculateTrack(sector)
    ensures sector == 100 * CalculateTrack(sector) + SectorInTrack(sector)
  {}

  function SectorsInTrack(requests: seq<DiskRequest>): seq<int> {
    seq(|requests|, i requires 0 <= i < |requests| => SectorInTrack(requests[i].sector))
  }

  function Tracks(requests: seq<DiskRequest>): seq<int> {
    seq(|requests|, i requires 0 <= i < |requests| => CalculateTrack(requests[i].sector))
  }

  // ----- Orders of service -----

  /** Where the head is after serving the first `k` requests of `order`. */
  function Head(start: int, tracks: seq<int>, order: seq<nat>, k: nat): int
    requires k <= |order| && forall j | 0 <= j < |order| :: order[j] < |tracks|
  {
    if k == 0 then start else tracks[order[k - 1]]
  }

  /** Tracks crossed (or, given sector numbers, sectors turned past) in serving the first `k` requests of
      `order`. */
  function Movement(start: int, tracks: seq<int>, order: seq<nat>, k: nat): int
    requires k <= |order| && forall j | 0 <= j < |order| :: order[j] < |tracks|
  {
    if k == 0 then 0
    else Movement(start, tracks, order, k - 1)
         + TrackDistance(Head(start, tracks, order, k - 1), Head(start, tracks, order, k))
  }

  predicate Distinct(order: seq<nat>) {
    forall i, j | 0 <= i < j < |order| :: order[i] != order[j]
  }

  /** Every request is served exactly once. */
  predicate ServesAll(n: nat, order: seq<nat>) {
    && |order| == n && Distinct(order)
    && (forall j | 0 <= j < |order| :: order[j] < n)
    && forall i: nat | i < n :: i in order
  }

  /** Of the requests not yet served none is nearer to the head than `i`, and none as near comes before it. */
  predicate Nearest(tracks: seq<int>, head: int, served: seq<nat>, i: nat)
    requires i < |tracks|
  {
    forall j: nat | j < |tracks| && j !in served ::
      var di, dj := TrackDistance(head, tracks[i]), TrackDistance(head, tracks[j]);
      di < dj || (di == dj && i <= j)
  }

  predicate GreedyAt(start: int, tracks: seq<int>, order: seq<nat>, k: nat)
    requires k < |order| && forall j | 0 <= j < |order| :: order[j] < |tracks|
  {
    Nearest(tracks, Head(start, tracks, order, k), order[..k], order[k])
  }

  /** Every request served was, at that time, nearest of those unserved. */
  predicate Greedy(start: int, tracks: seq<int>, order: seq<nat>) {
    && (forall j | 0 <= j < |order| :: order[j] < |tracks|)
    && forall k | 0 <= k < |order| :: GreedyAt(start, tracks, order, k)
  }

  /** Of two requests equally far from the head when one of them is served, the one given first goes first. */
  predicate TiesInOrder(start: int, tracks: seq<int>, order: seq<nat>)
    requires forall j | 0 <= j < |order| :: order[j] < |tracks|
  {
    forall k: nat, l: nat | k < l < |order| ::
      var head := Head(start, tracks, order, k);
      TrackDistance(head, tracks[order[k]]) == TrackDistance(head, tracks[order[l]]) ==> order[k] < order[l]
  }

  lemma GreedyTies(start: int, tracks: seq<int>, order: seq<nat>)
    requires Greedy(start, tracks, order) && Distinct(order)
    ensures TiesInOrder(start, tracks, order)
  {
    forall k: nat, l: nat | k < l < |order|
      ensures var head := Head(start, tracks, order, k);
              TrackDistance(head, tracks[order[k]]) == TrackDistance(head, tracks[order[l]]) ==> order[k] < order[l]
    {
      assert GreedyAt(start, tracks, order, k);
      assert order[l] !in order[..k];
    }
  }

  predicate Bounded(start: int, tracks: seq<int>, a: int, b: int) {
    a <= start <= b && forall i | 0 <= i < |tracks| :: a <= tracks[i] <= b
  }

  // ----- How far the head moves -----

  /** After `k` requests the head has swept [lo, hi] and stands at one end of it. `d` is the length of
      its last jump across the interval: whatever is unserved beyond the end just left is at least as
      far beyond it. */
  ghost predicate Swept(start: int, tracks: seq<int>, order: seq<nat>, k: nat, lo: int, hi: int, d: int)
    requires k <= |order| && forall j | 0 <= j < |order| :: order[j] < |tracks|
  {
    var head := Head(start, tracks, order, k);
    && lo <= start <= hi && (head == lo || head == hi)
    && 0 <= d <= hi - lo
    && Movement(start, tracks, order, k) <= (hi - lo) + 2 * d
    && (forall i: nat | i < |tracks| && i !in order[..k] :: Outside(head, lo, hi, d, tracks[i]))
  }

  /** An unserved request never lies inside the interval swept. */
  predicate Outside(head: int, lo: int, hi: int, d: int, t: int) {
    && (t == head || t < lo || t > hi)
    && (head == hi && t < lo ==> lo - t >= d)
    && (head == lo && t > hi ==> t - hi >= d)
  }

  function NewLo(y: int, lo: int): int { if y < lo then y else lo }

  function NewHi(y: int, hi: int): int { if y > hi then y else hi }

  /** The length of a move from one end across to beyond the other; other moves leave `d` alone. */
  function NewJump(x: int, y: int, lo: int, hi: int, d: int): int {
    if x == hi && lo < hi && y < lo then hi - y
    else if x == lo && lo < hi && y > hi then y - lo
    else d
  }

  /** A jump back starts at least `d` beyond the far end, so it is more than paid for. */
  lemma JumpPaid(x: int, y: int, lo: int, hi: int, d: int, moved: int)
    requires lo <= hi && (x == lo || x == hi) && 0 <= d <= hi - lo && moved <= (hi - lo) + 2 * d
    requires Outside(x, lo, hi, d, y)
    ensures var lo', hi', d' := NewLo(y, lo), NewHi(y, hi), NewJump(x, y, lo, hi, d);
            && lo' <= lo && hi <= hi' && (y == lo' || y == hi')
            && 0 <= d' <= hi' - lo'
            && moved + TrackDistance(x, y) <= (hi' - lo') + 2 * d'
  {}

  /** What is no nearer than the request served is still outside. */
  lemma StillOutside(x: int, y: int, lo: int, hi: int, d: int, z: int)
    requires lo <= hi && (x == lo || x == hi) && 0 <= d <= hi - lo
    requires Outside(x, lo, hi, d, y) && Outside(x, lo, hi, d, z) && TrackDistance(x, y) <= TrackDistance(x, z)
    ensures Outside(y, NewLo(y, lo), NewHi(y, hi), NewJump(x, y, lo, hi, d), z)
  {}

  /** Serving the nearest request keeps the interval and the last jump as described. */
  lemma SweepOn(start: int, tracks: seq<int>, order: seq<nat>, k: nat, lo: int, hi: int, d: int, x: int, y: int)
    requires Greedy(start, tracks, order) && Distinct(order) && k < |order|
    requires Swept(start, tracks, order, k, lo, hi, d)
    requires x == Head(start, tracks, order, k) && y == tracks[order[k]]
    ensures Swept(start, tracks, order, k + 1, NewLo(y, lo), NewHi(y, hi), NewJump(x, y, lo, hi, d))
  {
    assert order[k] !in order[..k];
    assert GreedyAt(start, tracks, order, k);
    JumpPaid(x, y, lo, hi, d, Movement(start, tracks, order, k));
    forall i: nat | i < |tracks| && i !in order[..k + 1]
      ensures Outside(y, NewLo(y, lo), NewHi(y, hi), NewJump(x, y, lo, hi, d), tracks[i])
    {
      assert order[..k + 1] == order[..k] + [order[k]];
      StillOutside(x, y, lo, hi, d, tracks[i]);
    }
  }

  lemma {:induction false} SweepTo(start: int, tracks: seq<int>, order: seq<nat>, k: nat)
    returns (lo: int, hi: int, d: int)
    requires Greedy(start, tracks, order) && Distinct(order) && k <= |order|
    ensures Swept(start, tracks, order, k, lo, hi, d)
    ensures forall a, b | Bounded(start, tracks, a, b) :: a <= lo && hi <= b
  {
    if k == 0 {
      lo, hi, d := start, start, 0;
    } else {
      lo, hi, d := SweepTo(start, tracks, order, k - 1);
      var x, y := Head(start, tracks, order, k - 1), tracks[order[k - 1]];
      SweepOn(start, tracks, order, k - 1, lo, hi, d, x, y);
      lo, hi, d := NewLo(y, lo), NewHi(y, hi), NewJump(x, y, lo, hi, d);
    }
  }

  /** The head never moves more than three times the width of the band it works in. */
  lemma GreedyBound(start: int, tracks: seq<int>, order: seq<nat>, a: int, b: int)
    requires Greedy(start, tracks, order) && Distinct(order) && Bounded(start, tracks, a, b)
    ensures Movement(start, tracks, order, |order|) <= 3 * (b - a)
  {
    var lo, hi, d := SweepTo(start, tracks, order, |order|);
    assert a <= lo && hi <= b;
  }

  /** Less than a whole turn per request. */
  lemma {:induction false} TurnsBound(start: int, sectors: seq<int>, order: seq<nat>, k: nat)
    requires k <= |order| && forall j | 0 <= j < |order| :: order[j] < |sectors|
    requires 0 <= start < SECTORS_PER_TRACK && forall i | 0 <= i < |sectors| :: 0 <= sectors[i] < SECTORS_PER_TRACK
    ensures Movement(start, sectors, order, k) <= (SECTORS_PER_TRACK - 1) * k
  {
    if k > 0 { TurnsBound(start, sectors, order, k - 1); }
  }

  /** With sector numbers not negative, the rotational latency is less than a turn per request. */
  lemma RotationBound(requests: seq<DiskRequest>, order: seq<nat>)
    requires forall j | 0 <= j < |order| :: order[j] < |requests|
    requires forall i | 0 <= i < |requests| :: requests[i].sector >= 0
    ensures var turned := Movement(SectorInTrack(INITIAL_HEAD_POSITION), SectorsInTrack(requests), order, |order|);
            turned <= 99 * |order| && TurnTime(turned) <= 825.0 * |order| as real
  {
    TurnsBound(SectorInTrack(INITIAL_HEAD_POSITION), SectorsInTrack(requests), order, |order|);
  }

  // ----- Against any other order -----

  lemma {:induction false} MovementCovers(start: int, tracks: seq<int>, order: seq<nat>, i: nat, k: nat)
    requires i <= k <= |order| && forall j | 0 <= j < |order| :: order[j] < |tracks|
    ensures Movement(start, tracks, order, k) - Movement(start, tracks, order, i)
         >= TrackDistance(Head(start, tracks, order, i), Head(start, tracks, order, k))
  {
    if i < k { MovementCovers(start, tracks, order, i, k - 1); }
  }

  /** The position at which track `t` is visited, the start counting as position 0. */
  lemma VisitedAt(start: int, tracks: seq<int>, order: seq<nat>, t: int) returns (k: nat)
    requires ServesAll(|tracks|, order) && (t == start || t in tracks)
    ensures k <= |order| && Head(start, tracks, order, k) == t
  {
    if t == start {
      k := 0;
    } else {
      var i :| 0 <= i < |tracks| && tracks[i] == t;
      assert i in order;
      var j :| 0 <= j < |order| && order[j] == i;
      k := j + 1;
    }
  }

  /** Any order that serves everything crosses the whole band. */
  lemma AnyOrderCrosses(start: int, tracks: seq<int>, order: seq<nat>, a: int, b: int)
    requires ServesAll(|tracks|, order) && (a == start || a in tracks) && (b == start || b in tracks)
    ensures Movement(start, tracks, order, |order|) >= b - a
  {
    var i := VisitedAt(start, tracks, order, a);
    var j := VisitedAt(start, tracks, order, b);
    MovementCovers(start, tracks, order, 0, if i < j then i else j);
    MovementCovers(start, tracks, order, if i < j then i else j, if i < j then j else i);
    MovementCovers(start, tracks, order, if i < j then j else i, |order|);
  }

  lemma {:induction false} Extremes(start: int, tracks: seq<int>) returns (a: int, b: int)
    ensures Bounded(start, tracks, a, b)
    ensures (a == start || a in tracks) && (b == start || b in tracks)
  {
    if tracks == [] {
      a, b := start, start;
    } else {
      var last := tracks[|tracks| - 1];
      a, b := Extremes(start, tracks[..|tracks| - 1]);
      if last < a { a := last; }
      if last > b { b := last; }
    }
  }

  /** Serving the nearest first never moves the head more than three times as far as the best order. */
  lemma WithinThreeOfBest(start: int, tracks: seq<int>, order: seq<nat>, other: seq<nat>)
    requires Greedy(start, tracks, order) && Distinct(order) && ServesAll(|tracks|, other)
    ensures Movement(start, tracks, order, |order|) <= 3 * Movement(start, tracks, other, |other|)
  {
    var a, b := Extremes(start, tracks);
    GreedyBound(start, tracks, order, a, b);
    AnyOrderCrosses(start, tracks, other, a, b);
  }

  // ----- The simulation -----

  /** Exactly the requests served so far are marked. */
  predicate Marked(used: seq<bool>, order: seq<nat>) {
    && (forall j | 0 <= j < |order| :: order[j] < |used|)
    && forall i: nat | i < |used| :: used[i] <==> i in order
  }

  method FindNearestRequest(requests: array<DiskRequest>, currentTrack: int, used: array<bool>) returns (nearest: int)
    requires used.Length == requests.Length && -21474836 <= currentTrack <= 21474836
    ensures nearest == -1 <==> forall i | 0 <= i < used.Length :: used[i]
    ensures nearest != -1 ==>
      && 0 <= nearest < requests.Length && !used[nearest]
      && forall i | 0 <= i < requests.Length && !used[i] ::
           var dn, di := TrackDistance(currentTrack, CalculateTrack(requests[nearest].sector)),
                         TrackDistance(currentTrack, CalculateTrack(requests[i].sector));
           dn < di || (dn == di && nearest <= i)
  {
    nearest := -1;
    var minDistance := INT_MAX;
    for i := 0 to requests.Length
      invariant nearest == -1 ==> minDistance == INT_MAX && forall j | 0 <= j < i :: used[j]
      invariant nearest != -1 ==>
        && 0 <= nearest < i && !used[nearest]
        && minDistance == TrackDistance(currentTrack, CalculateTrack(requests[nearest].sector))
        && forall j | 0 <= j < i && !used[j] ::
             var dj := TrackDistance(currentTrack, CalculateTrack(requests[j].sector));
             minDistance < dj || (minDistance == dj && nearest <= j)
    {
      if !used[i] {
        var targetTrack := CalculateTrack(requests[i].sector);
        var distance := TrackDistance(currentTrack, targetTrack);
        if distance < minDistance {
          minDistance := distance;
          nearest := i;
        }
      }
    }
  }

  function Elements(order: seq<nat>): set<int> {
    set i | i in order
  }

  lemma {:induction false} DistinctSize(order: seq<nat>)
    requires Distinct(order)
    ensures |Elements(order)| == |order|
  {
    if order != [] {
      var rest := order[..|order| - 1];
      DistinctSize(rest);
      assert order == rest + [order[|order| - 1]];
      assert Elements(order) == Elements(rest) + {order[|order| - 1]};
    }
  }

  /** With fewer than n distinct requests served one is left; with n of them none is. */
  lemma SomeLeft(used: seq<bool>, order: seq<nat>)
    requires Marked(used, order) && Distinct(order)
    ensures |order| < |used| ==> exists i :: 0 <= i < |used| && !used[i]
    ensures |order| == |used| ==> ServesAll(|used|, order)
  {
    DistinctSize(order);
    assert Elements(order) <= Below(|used|);
    SubsetSize(Elements(order), Below(|used|));
    if |order| < |used| {
      if forall i | 0 <= i < |used| :: used[i] {
        assert forall i :: i in Below(|used|) ==> i in Elements(order);
        SubsetSize(Below(|used|), Elements(order));
        assert false;
      }
    } else if |order| == |used| {
      forall i: nat | i < |used| ensures i in order {
        assert i in Below(|used|);
      }
    }
  }

  lemma MovementPrefix(start: int, tracks: seq<int>, order: seq<nat>, x: nat, k: nat)
    requires k <= |order| && x < |tracks| && forall j | 0 <= j < |order| :: order[j] < |tracks|
    ensures Movement(start, tracks, order + [x], k) == Movement(start, tracks, order, k)
    ensures Head(start, tracks, order + [x], k) == Head(start, tracks, order, k)
  {
    if k > 0 { MovementPrefix(start, tracks, order, x, k - 1); }
  }

  lemma GreedyExtend(start: int, tracks: seq<int>, order: seq<nat>, x: nat)
    requires Greedy(start, tracks, order) && x < |tracks|
    requires Nearest(tracks, Head(start, tracks, order, |order|), order, x)
    ensures Greedy(start, tracks, order + [x])
  {
    forall k | 0 <= k < |order| + 1 ensures GreedyAt(start, tracks, order + [x], k) {
      MovementPrefix(start, tracks, order, x, k);
      if k < |order| {
        assert GreedyAt(start, tracks, order, k);
        assert (order + [x])[..k] == order[..k];
      } else {
        assert (order + [x])[..k] == order;
      }
    }
  }

  /** Where the loop stands after serving `order`. */
  ghost predicate Underway(tracks: seq<int>, used: seq<bool>, order: seq<nat>, head: int, moved: int) {
    var start := CalculateTrack(INITIAL_HEAD_POSITION);
    && |used| == |tracks|
    && Distinct(order) && Marked(used, order) && Greedy(start, tracks, order)
    && head == Head(start, tracks, order, |order|) && moved == Movement(start, tracks, order, |order|)
  }

  lemma ServeNext(tracks: seq<int>, used: seq<bool>, order: seq<nat>, head: int, moved: int, x: nat,
                  used': seq<bool>, order': seq<nat>)
    requires Underway(tracks, used, order, head, moved) && x < |tracks| && !used[x]
    requires Nearest(tracks, head, order, x)
    requires used' == used[x := true] && order' == order + [x]
    ensures Underway(tracks, used', order', tracks[x], moved + TrackDistance(head, tracks[x]))
  {
    var start := CalculateTrack(INITIAL_HEAD_POSITION);
    GreedyExtend(start, tracks, order, x);
    MovementPrefix(start, tracks, order, x, |order|);
  }

  lemma Served(tracks: seq<int>, used: seq<bool>, order: seq<nat>, head: int, moved: int)
    requires Underway(tracks, used, order, head, moved) && |order| == |tracks|
    ensures ServesAll(|tracks|, order)
    ensures var start := CalculateTrack(INITIAL_HEAD_POSITION);
            && TiesInOrder(start, tracks, order)
            && (forall a, b | Bounded(start, tracks, a, b) :: moved <= 3 * (b - a))
            && forall other | ServesAll(|tracks|, other) :: moved <= 3 * Movement(start, tracks, other, |other|)
  {
    var start := CalculateTrack(INITIAL_HEAD_POSITION);
    SomeLeft(used, order);
    GreedyTies(start, tracks, order);
    forall a, b | Bounded(start, tracks, a, b) ensures moved <= 3 * (b - a) {
      GreedyBound(start, tracks, order, a, b);
    }
    forall other | ServesAll(|tracks|, other) ensures moved <= 3 * Movement(start, tracks, other, |other|) {
      WithinThreeOfBest(start, tracks, order, other);
    }
  }

  /** The head's sector and the sectors turned past, after serving `order`. */
  ghost predicate Turning(sectors: seq<int>, order: seq<nat>, sector: int, turned: int) {
    var start := SectorInTrack(INITIAL_HEAD_POSITION);
    && (forall j | 0 <= j < |order| :: order[j] < |sectors|)
    && sector == Head(start, sectors, order, |order|) && turned == Movement(start, sectors, order, |order|)
  }

  lemma TurnNext(sectors: seq<int>, order: seq<nat>, sector: int, turned: int, x: nat)
    requires Turning(sectors, order, sector, turned) && x < |sectors|
    ensures Turning(sectors, order + [x], sectors[x], turned + TrackDistance(sector, sectors[x]))
  {
    MovementPrefix(SectorInTrack(INITIAL_HEAD_POSITION), sectors, order, x, |order|);
  }

  /** Serves the nearest request: one round of the loop. */
  method ServeNearest(requests: array<DiskRequest>, used: array<bool>, currentTrack: int, currentSector: int,
                      ghost order: seq<nat>, ghost moved: int, ghost turned: int)
    returns (index: nat, targetTrack: int, targetSector: int)
    requires used.Length == requests.Length && |order| < requests.Length && -21474836 <= currentTrack <= 21474836
    requires Underway(Tracks(requests[..]), used[..], order, currentTrack, moved)
    requires Turning(SectorsInTrack(requests[..]), order, currentSector, turned)
    modifies used
    ensures index < requests.Length && -21474836 <= targetTrack <= 21474836
    ensures Underway(Tracks(requests[..]), used[..], order + [index], targetTrack,
                     moved + TrackDistance(currentTrack, targetTrack))
    ensures Turning(SectorsInTrack(requests[..]), order + [index], targetSector,
                    turned + TrackDistance(currentSector, targetSector))
  {
    ghost var flags := used[..];
    SomeLeft(flags, order);
    ghost var left :| 0 <= left < |flags| && !flags[left];
    var nearest := FindNearestRequest(requests, currentTrack, used);
    assert !used[left];
    index := nearest;
    assert Nearest(Tracks(requests[..]), currentTrack, order, index);
    targetTrack := CalculateTrack(requests[index].sector);
    targetSector := SectorInTrack(requests[index].sector);
    ServeNext(Tracks(requests[..]), flags, order, currentTrack, moved, index, flags[index := true], order + [index]);
    TurnNext(SectorsInTrack(requests[..]), order, currentSector, turned, index);
    used[index] := true;
    assert used[..] == flags[index := true];
  }

  /** Serves every request once, nearest first, and returns the order it did so in. The seek time is
      2 ms for each track moved over, the tracks being those the sectors lie on; they are at most three
      times the band's width and three times what any other order needs. The rotational latency is
      25/3 ms for each sector turned past: 72 turns of 100 sectors take 60,000 ms. */
  method SimulateSstf(requests: array<DiskRequest>) returns (totalSeekTime: real, totalRotationalLatency: real, order: seq<nat>)
    ensures ServesAll(requests.Length, order)
    ensures Greedy(CalculateTrack(INITIAL_HEAD_POSITION), Tracks(requests[..]), order)
    ensures var start, tracks := CalculateTrack(INITIAL_HEAD_POSITION), Tracks(requests[..]);
            var moved := Movement(start, tracks, order, |order|);
            && start == 1 && (forall i | 0 <= i < requests.Length :: OnTrack(requests[i].sector, tracks[i]))
            && totalSeekTime == moved as real * 2.0
            && TiesInOrder(start, tracks, order)
            && (forall a, b | Bounded(start, tracks, a, b) :: moved <= 3 * (b - a))
            && forall other | ServesAll(requests.Length, other) :: moved <= 3 * Movement(start, tracks, other, |other|)
    ensures var start, sectors := SectorInTrack(INITIAL_HEAD_POSITION), SectorsInTrack(requests[..]);
            && start == 0
            && (forall i | 0 <= i < requests.Length ::
                  requests[i].sector == 100 * CalculateTrack(requests[i].sector) + sectors[i])
            && 3.0 * totalRotationalLatency == 25.0 * Movement(start, sectors, order, |order|) as real
  {
    var currentTrack, currentSector := CalculateTrack(INITIAL_HEAD_POSITION), SectorInTrack(INITIAL_HEAD_POSITION);
    var used := new bool[requests.Length](_ => false);
    totalSeekTime, totalRotationalLatency, order := 0.0, 0.0, [];
    ghost var moved, turned := 0, 0;
    for i := 0 to requests.Length
      invariant |order| == i && -21474836 <= currentTrack <= 21474836
      invariant Underway(Tracks(requests[..]), used[..], order, currentTrack, moved)
      invariant Turning(SectorsInTrack(requests[..]), order, currentSector, turned)
      invariant totalSeekTime == moved as real * SEEK_TIME_PER_TRACK && totalRotationalLatency == TurnTime(turned)
    {
      var index, targetTrack, targetSector := ServeNearest(requests, used, currentTrack, currentSector, order, moved, turned);
      totalSeekTime := totalSeekTime + CalculateSeekTime(currentTrack, targetTrack);
      totalRotationalLatency := totalRotationalLatency + CalculateRotationalLatency(currentSector, targetSector);
      moved, turned := moved + TrackDistance(currentTrack, targetTrack), turned + TrackDistance(currentSector, targetSector);
      currentTrack, currentSector, order := targetTrack, targetSector, order + [index];
    }
    Served(Tracks(requests[..]), used[..], order, currentTrack, moved);
    forall i | 0 <= i < requests.Length
      ensures OnTrack(requests[i].sector, Tracks(requests[..])[i])
      ensures requests[i].sector == 100 * CalculateTrack(requests[i].sector) + SectorsInTrack(requests[..])[i]
    {
      TrackOfSector(requests[i].sector);
    }
  }
}
