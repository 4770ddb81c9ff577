/** Servers round a table of channels: each needs the channel on its left and the one on its right, and
    takes the lower-numbered of the two first. Each semaphore operation is one step, and the steps of
    different servers interleave in any order. */
module ServerTable {
  import opened Sums

  /** Where a server is in a task. */
  datatype Pc = WaitFirst | WaitSecond | Processing | PostRight

  datatype State = State(channels: seq<nat>, pcs: seq<Pc>, tasks: seq<nat>)

  function Right(n: nat, i: nat): nat
    requires i < n
  {
    if i + 1 == n then 0 else i + 1
  }

  function Pred(n: nat, c: nat): nat
    requires c < n
  {
    if c == 0 then n - 1 else c - 1
  }

  function First(n: nat, i: nat): nat
    requires i < n
  {
    if i < Right(n, i) then i else Right(n, i)
  }

  function Second(n: nat, i: nat): nat
    requires i < n
  {
    if i < Right(n, i) then Right(n, i) else i
  }

  predicate Shaped(s: State) {
    |s.channels| == |s.pcs| == |s.tasks| >= 2
  }

  function Start(n: nat): State {
    State(seq(n, _ => 1), seq(n, _ => WaitFirst), seq(n, _ => 0))
  }

  predicate Done(s: State, max: nat, i: nat)
    requires Shaped(s) && i < |s.pcs|
  {
    s.pcs[i].WaitFirst? && s.tasks[i] >= max
  }

  /** A server can move unless it is done or the channel it waits for is taken. */
  predicate Enabled(s: State, max: nat, i: nat)
    requires Shaped(s) && i < |s.pcs|
  {
    match s.pcs[i]
    case WaitFirst => s.tasks[i] < max && s.channels[First(|s.pcs|, i)] > 0
    case WaitSecond => s.channels[Second(|s.pcs|, i)] > 0
    case Processing => true
    case PostRight => true
  }

  function Next(s: State, max: nat, i: nat): (t: State)
    requires Shaped(s) && i < |s.pcs| && Enabled(s, max, i)
    ensures Shaped(t) && |t.pcs| == |s.pcs|
  {
    var n := |s.pcs|;
    match s.pcs[i]
    case WaitFirst =>
      var c := First(n, i);
      s.(channels := s.channels[c := s.channels[c] - 1], pcs := s.pcs[i := WaitSecond])
    case WaitSecond =>
      var c := Second(n, i);
      s.(channels := s.channels[c := s.channels[c] - 1], pcs := s.pcs[i := Processing])
    case Processing =>
      s.(channels := s.channels[i := s.channels[i] + 1], pcs := s.pcs[i := PostRight])
    case PostRight =>
      var c := Right(n, i);
      State(s.channels[c := s.channels[c] + 1], s.pcs[i := WaitFirst], s.tasks[i := s.tasks[i] + 1])
  }

  // ----- Who holds what -----

  predicate HoldsLeft(n: nat, pc: Pc, i: nat)
    requires i < n
  {
    pc.Processing? || (pc.WaitSecond? && First(n, i) == i)
  }

  predicate HoldsRight(n: nat, pc: Pc, i: nat)
    requires i < n
  {
    pc.Processing? || pc.PostRight? || (pc.WaitSecond? && First(n, i) != i)
  }

  function Count(b: bool): nat { if b then 1 else 0 }

  /** Channel `c` is either free or held by exactly one of the two servers beside it. */
  predicate Balanced(s: State, c: nat)
    requires Shaped(s) && c < |s.channels|
  {
    var n, p := |s.channels|, Pred(|s.channels|, c);
    s.channels[c] + Count(HoldsLeft(n, s.pcs[c], c)) + Count(HoldsRight(n, s.pcs[p], p)) == 1
  }

  predicate InHand(s: State, max: nat, i: nat)
    requires Shaped(s) && i < |s.pcs|
  {
    s.tasks[i] <= max && (s.pcs[i].WaitFirst? || s.tasks[i] < max)
  }

  predicate Inv(s: State, max: nat) {
    && Shaped(s)
    && (forall c: nat | c < |s.channels| :: Balanced(s, c))
    && (forall i: nat | i < |s.pcs| :: InHand(s, max, i))
  }

  predicate Holds(s: State, i: nat, c: nat)
    requires Shaped(s) && i < |s.pcs|
  {
    var n := |s.pcs|;
    (c == i && HoldsLeft(n, s.pcs[i], i)) || (c == Right(n, i) && HoldsRight(n, s.pcs[i], i))
  }

  lemma StartInv(n: nat, max: nat)
    requires n >= 2
    ensures Inv(Start(n), max)
  {}

  lemma NextInv(s: State, max: nat, i: nat)
    requires Inv(s, max) && i < |s.pcs| && Enabled(s, max, i)
    ensures Inv(Next(s, max, i), max)
  {
    var t := Next(s, max, i);
    assert InHand(s, max, i);
    forall c: nat | c < |t.channels| ensures Balanced(t, c) {
      assert Balanced(s, c);
    }
    forall j: nat | j < |t.pcs| ensures InHand(t, max, j) {
      assert InHand(s, max, j);
    }
  }

  /** A channel is taken exactly when some server holds it, and never by two. */
  lemma ExclusiveChannels(s: State, max: nat, c: nat)
    requires Inv(s, max) && c < |s.channels|
    ensures s.channels[c] <= 1
    ensures s.channels[c] == 0 <==> exists i: nat :: i < |s.pcs| && Holds(s, i, c)
    ensures forall i: nat, j: nat | i < |s.pcs| && j < |s.pcs| && Holds(s, i, c) && Holds(s, j, c) :: i == j
  {
    var n := |s.pcs|;
    assert Balanced(s, c);
    if s.channels[c] == 0 {
      assert Holds(s, c, c) || Holds(s, Pred(n, c), c);
    }
  }

  /** Neighbours never process at the same time. */
  lemma NeighboursExclude(s: State, max: nat, i: nat)
    requires Inv(s, max) && i < |s.pcs| && s.pcs[i].Processing?
    ensures !s.pcs[Right(|s.pcs|, i)].Processing? && !s.pcs[Pred(|s.pcs|, i)].Processing?
  {
    assert Balanced(s, Right(|s.pcs|, i));
    assert Balanced(s, i);
  }

  // ----- No deadlock -----

  function Wanted(s: State, i: nat): nat
    requires Shaped(s) && i < |s.pcs|
  {
    if s.pcs[i].WaitFirst? then First(|s.pcs|, i) else Second(|s.pcs|, i)
  }

  /** Whoever holds the channel a server waits for can move, or waits for a higher one. */
  lemma {:induction false} Unblock(s: State, max: nat, i: nat) returns (j: nat)
    requires Inv(s, max) && i < |s.pcs| && !Done(s, max, i)
    ensures j < |s.pcs| && Enabled(s, max, j)
    decreases |s.pcs| - Wanted(s, i)
  {
    var n := |s.pcs|;
    if Enabled(s, max, i) {
      j := i;
    } else {
      var c := Wanted(s, i);
      assert Balanced(s, c);
      var h := if HoldsLeft(n, s.pcs[c], c) then c else Pred(n, c);
      if Enabled(s, max, h) {
        j := h;
      } else {
        assert First(n, h) == c < Second(n, h) == Wanted(s, h);
        j := Unblock(s, max, h);
      }
    }
  }

  // ----- Every run is finite and ends well -----

  function PcWork(pc: Pc): nat {
    match pc
    case WaitFirst => 0
    case WaitSecond => 1
    case Processing => 2
    case PostRight => 3
  }

  /** Steps each server has still to take. */
  function Work(s: State, max: nat): seq<int>
    requires Shaped(s)
  {
    seq(|s.pcs|, i requires 0 <= i < |s.pcs| => 4 * (max - s.tasks[i]) - PcWork(s.pcs[i]))
  }

  /** Running the servers named in `schedule` from `s`, each able to move in its turn, ends in `t`. */
  ghost predicate Leads(s: State, max: nat, schedule: seq<nat>, t: State)
    requires Shaped(s)
    decreases |schedule|
  {
    if schedule == [] then t == s
    else
      var i := schedule[0];
      i < |s.pcs| && Enabled(s, max, i) && Leads(Next(s, max, i), max, schedule[1..], t)
  }

  lemma NextWork(s: State, max: nat, i: nat)
    requires Inv(s, max) && i < |s.pcs| && Enabled(s, max, i)
    ensures Sum(Work(Next(s, max, i), max)) == Sum(Work(s, max)) - 1
  {
    SumOneChange(Work(s, max), Work(Next(s, max, i), max), i);
  }

  lemma {:induction false} LeadsKeeps(s: State, max: nat, schedule: seq<nat>, t: State)
    requires Inv(s, max) && Leads(s, max, schedule, t)
    ensures Inv(t, max) && |t.pcs| == |s.pcs|
    ensures Sum(Work(t, max)) + |schedule| == Sum(Work(s, max))
    decreases |schedule|
  {
    if schedule != [] {
      NextInv(s, max, schedule[0]);
      NextWork(s, max, schedule[0]);
      LeadsKeeps(Next(s, max, schedule[0]), max, schedule[1..], t);
    }
  }

  lemma StartWork(n: nat, max: nat)
    requires n >= 2
    ensures Sum(Work(Start(n), max)) == 4 * n * max
  {
    SumConstant(Work(Start(n), max), 4 * max);
    assert n * (4 * max) == 4 * n * max;
  }

  /** All tasks done, everything put back. */
  predicate AllServed(s: State, max: nat)
    requires Shaped(s)
  {
    forall i: nat | i < |s.pcs| :: s.pcs[i].WaitFirst? && s.tasks[i] == max && s.channels[i] == 1
  }

  lemma DoneIsServed(s: State, max: nat)
    requires Inv(s, max) && forall i: nat | i < |s.pcs| :: Done(s, max, i)
    ensures AllServed(s, max) && Sum(Work(s, max)) == 0
  {
    forall i: nat | i < |s.pcs| ensures s.pcs[i].WaitFirst? && s.tasks[i] == max && s.channels[i] == 1 {
      assert Done(s, max, i) && InHand(s, max, i) && Balanced(s, i) && Done(s, max, Pred(|s.pcs|, i));
    }
    SumZero(Work(s, max));
  }

  predicate Stuck(s: State, max: nat)
    requires Shaped(s)
  {
    forall j: nat | j < |s.pcs| :: !Enabled(s, max, j)
  }

  /** There is no deadlock: no server can move only when all are done. */
  lemma StuckIsDone(s: State, max: nat)
    requires Inv(s, max) && Stuck(s, max)
    ensures AllServed(s, max) && Sum(Work(s, max)) == 0
  {
    if i: nat :| i < |s.pcs| && !Done(s, max, i) {
      var j := Unblock(s, max, i);
      assert false;
    }
    DoneIsServed(s, max);
  }

  lemma WorkLeft(s: State, max: nat)
    requires Inv(s, max)
    ensures Sum(Work(s, max)) >= 0
  {
    var z := seq(|s.pcs|, i => 0);
    SumZero(z);
    forall i: nat | i < |s.pcs| ensures z[i] <= Work(s, max)[i] {
      assert InHand(s, max, i);
    }
    SumMonotone(z, Work(s, max));
  }

  /** However the servers interleave, a run has at most 4 steps per task, and one that can go no
      further has taken exactly 4 steps per task and left all tasks done and every channel free. */
  lemma EveryRunFinishes(n: nat, max: nat, schedule: seq<nat>, t: State)
    requires n >= 2 && Leads(Start(n), max, schedule, t)
    ensures Inv(t, max) && |t.pcs| == n && |schedule| <= 4 * n * max
    ensures Stuck(t, max) ==> AllServed(t, max) && |schedule| == 4 * n * max
  {
    StartInv(n, max);
    StartWork(n, max);
    LeadsKeeps(Start(n), max, schedule, t);
    WorkLeft(t, max);
    if Stuck(t, max) { StuckIsDone(t, max); }
  }

  // ----- The program: shared arrays and any scheduler -----

  class Table {
    const max: nat
    var channels: array<nat>
    var pcs: array<Pc>
    var tasks: array<nat>

    ghost predicate Ok()
      reads this
    {
      channels.Length == pcs.Length == tasks.Length >= 2 && channels != tasks
    }

    ghost function Abstract(): State
      reads this, channels, pcs, tasks
    {
      State(channels[..], pcs[..], tasks[..])
    }

    constructor (n: nat, max: nat)
      requires n >= 2
      ensures Ok() && this.max == max && Abstract() == Start(n)
      ensures fresh(channels) && fresh(pcs) && fresh(tasks)
    {
      this.max := max;
      channels := new nat[n](_ => 1);
      pcs := new Pc[n](_ => WaitFirst);
      tasks := new nat[n](_ => 0);
      new;
      assert channels[..] == Start(n).channels && pcs[..] == Start(n).pcs && tasks[..] == Start(n).tasks;
    }

    /** The channel on a server's right. */
    method RightChannel(i: nat) returns (c: nat)
      requires Ok() && i < pcs.Length
      ensures c == Right(pcs.Length, i)
    {
      c := (i + 1) % pcs.Length;
      if i + 1 < pcs.Length { assert (i + 1) % pcs.Length == i + 1; }
    }

    predicate CanMove(i: nat)
      requires Ok() && i < pcs.Length
      reads this, channels, pcs, tasks
      ensures CanMove(i) <==> Enabled(Abstract(), max, i)
    {
      match pcs[i]
      case WaitFirst => tasks[i] < max && channels[First(pcs.Length, i)] > 0
      case WaitSecond => channels[Second(pcs.Length, i)] > 0
      case Processing => true
      case PostRight => true
    }

    /** The next semaphore operation of server `i`. */
    method Step(i: nat)
      requires Ok() && i < pcs.Length && CanMove(i)
      modifies channels, pcs, tasks
      ensures Abstract() == Next(old(Abstract()), max, i)
    {
      ghost var was := Abstract();
      var left := i;
      var right := RightChannel(i);
      match pcs[i] {
        case WaitFirst =>
          var c := if left < right then left else right;
          channels[c] := channels[c] - 1;
          pcs[i] := WaitSecond;
        case WaitSecond =>
          var c := if left < right then right else left;
          channels[c] := channels[c] - 1;
          pcs[i] := Processing;
        case Processing =>
          channels[left] := channels[left] + 1;
          pcs[i] := PostRight;
        case PostRight =>
          channels[right] := channels[right] + 1;
          pcs[i] := WaitFirst;
          tasks[i] := tasks[i] + 1;
      }
      var target := Next(was, max, i);
      assert channels[..] == target.channels;
      assert pcs[..] == target.pcs;
      assert tasks[..] == target.tasks;
    }
  }

  /** Runs the servers to the end, at each step letting any server move that can. */
  method Serve(n: nat, max: nat) returns (table: Table, steps: nat)
    requires n >= 2
    ensures table.Ok() && table.max == max && AllServed(table.Abstract(), max)
    ensures steps == 4 * n * max
  {
    table := new Table(n, max);
    steps := 0;
    StartInv(n, max);
    StartWork(n, max);
    while exists j: nat :: j < n && table.CanMove(j)
      invariant fresh(table.channels) && fresh(table.pcs) && fresh(table.tasks)
      invariant table.Ok() && table.pcs.Length == n && table.max == max && Inv(table.Abstract(), max)
      invariant steps + Sum(Work(table.Abstract(), max)) == 4 * n * max
      decreases Sum(Work(table.Abstract(), max))
    {
      var i: nat :| i < n && table.CanMove(i);
      ghost var s := table.Abstract();
      NextInv(s, max, i);
      NextWork(s, max, i);
      WorkLeft(s, max);
      table.Step(i);
      steps := steps + 1;
    }
    ghost var t := table.Abstract();
    forall j: nat | j < n ensures !Enabled(t, max, j) {
      assert !table.CanMove(j);
    }
    StuckIsDone(t, max);
  }
}
