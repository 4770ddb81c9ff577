/** Threads that try for lock A and, holding it, for lock B, giving up rather than waiting. */
module NestedTrylocks {
  import opened Sums

  const TRIES := 3

  /** `WaitedB` is the branch that reports waiting for lock B. */
  datatype Pc = TryA | TryB | UnlockB | WaitedB | UnlockA | CountDown

  datatype Thread = Thread(pc: Pc, count: nat)

  datatype Lock = Free | HeldBy(i: nat)

  datatype State = State(a: Lock, b: Lock, threads: seq<Thread>)

  function Start(n: nat): State {
    State(Free, Free, seq(n, _ => Thread(TryA, TRIES)))
  }

  predicate Enabled(s: State, i: nat) {
    i < |s.threads| && !(s.threads[i].pc.TryA? && s.threads[i].count == 0)
  }

  function Next(s: State, i: nat): State
    requires Enabled(s, i)
  {
    var t := s.threads[i];
    match t.pc
    case TryA =>
      if s.a.Free? then State(HeldBy(i), s.b, s.threads[i := t.(pc := TryB)])
      else s.(threads := s.threads[i := t.(pc := CountDown)])
    case TryB =>
      if s.b.Free? then State(s.a, HeldBy(i), s.threads[i := t.(pc := UnlockB)])
      else s.(threads := s.threads[i := t.(pc := WaitedB)])
    case UnlockB => State(s.a, Free, s.threads[i := t.(pc := UnlockA)])
    case WaitedB => s.(threads := s.threads[i := t.(pc := UnlockA)])
    case UnlockA => State(Free, s.b, s.threads[i := t.(pc := CountDown)])
    case CountDown => s.(threads := s.threads[i := Thread(TryA, if t.count == 0 then 0 else t.count - 1)])
  }

  predicate HasA(t: Thread) { t.pc.TryB? || t.pc.UnlockB? || t.pc.WaitedB? || t.pc.UnlockA? }

  predicate ThreadOk(s: State, i: nat)
    requires i < |s.threads|
  {
    && (s.a == HeldBy(i) <==> HasA(s.threads[i]))
    && (s.b == HeldBy(i) <==> s.threads[i].pc.UnlockB?)
    && !s.threads[i].pc.WaitedB? && (s.threads[i].pc.TryA? || s.threads[i].count > 0)
  }

  /** Each lock is held by the thread whose position says so; no thread has found B taken. */
  predicate Inv(s: State) {
    && (s.a.HeldBy? ==> s.a.i < |s.threads|)
    && (s.b.HeldBy? ==> s.b.i < |s.threads|)
    && forall i: nat | i < |s.threads| :: ThreadOk(s, i)
  }

  /** Lock B is only ever held by the thread holding lock A. */
  lemma BInsideA(s: State)
    requires Inv(s) && s.b.HeldBy?
    ensures s.a == s.b
  {
    assert ThreadOk(s, s.b.i);
  }

  lemma NextInv(s: State, i: nat)
    requires Inv(s) && Enabled(s, i)
    ensures Inv(Next(s, i)) && |Next(s, i).threads| == |s.threads|
  {
    var t := Next(s, i);
    assert ThreadOk(s, i);
    if s.b.HeldBy? { BInsideA(s); }
    forall j: nat | j < |t.threads| ensures ThreadOk(t, j) {
      assert ThreadOk(s, j);
    }
  }

  /** Steps a thread may still take. */
  function ThreadWork(t: Thread): int {
    match t.pc
    case TryA => 5 * t.count
    case TryB => 5 * t.count - 1
    case UnlockB => 5 * t.count - 2
    case WaitedB => 5 * t.count - 2
    case UnlockA => 5 * t.count - 3
    case CountDown => 5 * t.count - 4
  }

  function Works(s: State): seq<int> {
    seq(|s.threads|, i requires 0 <= i < |s.threads| => ThreadWork(s.threads[i]))
  }

  predicate Leads(s: State, schedule: seq<nat>, t: State)
    decreases |schedule|
  {
    if schedule == [] then t == s
    else Enabled(s, schedule[0]) && Leads(Next(s, schedule[0]), schedule[1..], t)
  }

  lemma NextWork(s: State, i: nat)
    requires Inv(s) && Enabled(s, i)
    ensures Sum(Works(Next(s, i))) < Sum(Works(s))
  {
    assert ThreadOk(s, i);
    SumOneChange(Works(s), Works(Next(s, i)), i);
  }

  lemma WorkLeft(s: State)
    requires Inv(s)
    ensures Sum(Works(s)) >= 0
  {
    forall i: nat | i < |s.threads| ensures ThreadWork(s.threads[i]) >= 0 {
      assert ThreadOk(s, i);
    }
    var z := seq(|s.threads|, i => 0);
    SumZero(z);
    SumMonotone(z, Works(s));
  }

  lemma StartOk(n: nat)
    ensures Inv(Start(n)) && Sum(Works(Start(n))) == 15 * n
  {
    forall i: nat | i < n ensures ThreadOk(Start(n), i) {}
    SumConstant(Works(Start(n)), 15);
  }

  // ----- What a run consists of -----

  /** How often thread `i` tries for lock A in a run from `s`. */
  function Tries(s: State, schedule: seq<nat>, i: nat): nat
    decreases |schedule|
  {
    if schedule == [] || !Enabled(s, schedule[0]) then 0
    else Tries(Next(s, schedule[0]), schedule[1..], i) + if schedule[0] == i && s.threads[i].pc.TryA? then 1 else 0
  }

  /** How many tries, of all threads, find lock A free. */
  function Successes(s: State, schedule: seq<nat>): nat
    decreases |schedule|
  {
    if schedule == [] || !Enabled(s, schedule[0]) then 0
    else
      var t := s.threads[schedule[0]];
      Successes(Next(s, schedule[0]), schedule[1..]) + if t.pc.TryA? && s.a.Free? then 1 else 0
  }

  function TriesLeft(t: Thread): int {
    if t.pc.TryA? then t.count else t.count - 1
  }

  lemma {:induction false} TriesAreMade(s: State, schedule: seq<nat>, t: State, i: nat)
    requires Inv(s) && Leads(s, schedule, t) && i < |s.threads|
    ensures |t.threads| == |s.threads| && Tries(s, schedule, i) + TriesLeft(t.threads[i]) == TriesLeft(s.threads[i])
    decreases |schedule|
  {
    if schedule != [] {
      assert ThreadOk(s, schedule[0]);
      NextInv(s, schedule[0]);
      TriesAreMade(Next(s, schedule[0]), schedule[1..], t, i);
    }
  }

  /** Steps a thread owes if it never gets lock A again: two to a try. */
  function Owed(t: Thread): int {
    match t.pc
    case TryA => 2 * t.count
    case TryB => 2 * t.count + 2
    case UnlockB => 2 * t.count + 1
    case WaitedB => 2 * t.count + 1
    case UnlockA => 2 * t.count
    case CountDown => 2 * t.count - 1
  }

  function AllOwed(s: State): seq<int> {
    seq(|s.threads|, i requires 0 <= i < |s.threads| => Owed(s.threads[i]))
  }

  lemma StepOwed(s: State, i: nat)
    requires Inv(s) && Enabled(s, i)
    ensures Sum(AllOwed(Next(s, i))) + 1 == Sum(AllOwed(s)) + if s.threads[i].pc.TryA? && s.a.Free? then 3 else 0
  {
    assert ThreadOk(s, i);
    if s.b.HeldBy? { BInsideA(s); }
    SumOneChange(AllOwed(s), AllOwed(Next(s, i)), i);
  }

  lemma {:induction false} LengthOwed(s: State, schedule: seq<nat>, t: State)
    requires Inv(s) && Leads(s, schedule, t)
    ensures Sum(AllOwed(t)) + |schedule| == Sum(AllOwed(s)) + 3 * Successes(s, schedule)
    decreases |schedule|
  {
    if schedule != [] {
      StepOwed(s, schedule[0]);
      NextInv(s, schedule[0]);
      LengthOwed(Next(s, schedule[0]), schedule[1..], t);
    }
  }

  /** A run that can go no further has made three tries a thread; a try takes two steps, and three more
      if it finds lock A free. */
  lemma ThreeTriesEach(n: nat, schedule: seq<nat>, t: State)
    requires Leads(Start(n), schedule, t) && forall i: nat | i < |t.threads| :: !Enabled(t, i)
    ensures forall i: nat | i < n :: Tries(Start(n), schedule, i) == 3
    ensures |schedule| == 2 * (3 * n) + 3 * Successes(Start(n), schedule)
  {
    StartOk(n);
    LeadsKeeps(Start(n), schedule, t);
    AllDone(t);
    forall i: nat | i < n ensures Tries(Start(n), schedule, i) == 3 {
      TriesAreMade(Start(n), schedule, t, i);
    }
    LengthOwed(Start(n), schedule, t);
    SumConstant(AllOwed(Start(n)), 6);
    SumZero(AllOwed(t));
  }

  /** When no thread can move, every try has been made and both locks are free. */
  lemma AllDone(s: State)
    requires Inv(s) && forall i: nat | i < |s.threads| :: !Enabled(s, i)
    ensures s.a == s.b == Free && forall i: nat | i < |s.threads| :: s.threads[i] == Thread(TryA, 0)
  {
    forall i: nat | i < |s.threads| ensures s.a != HeldBy(i) && s.b != HeldBy(i) && s.threads[i] == Thread(TryA, 0) {
      assert ThreadOk(s, i) && !Enabled(s, i);
    }
  }

  lemma {:induction false} LeadsKeeps(s: State, schedule: seq<nat>, t: State)
    requires Inv(s) && Leads(s, schedule, t)
    ensures Inv(t) && |t.threads| == |s.threads|
    ensures Sum(Works(t)) + |schedule| <= Sum(Works(s))
    decreases |schedule|
  {
    if schedule != [] {
      NextInv(s, schedule[0]);
      NextWork(s, schedule[0]);
      LeadsKeeps(Next(s, schedule[0]), schedule[1..], t);
    }
  }

  /** Any number of threads, any interleaving: B is held only under A, no thread ever waits for B, and
      the run ends within 15 steps a thread, with every try made and both locks free. */
  lemma EveryRunEnds(n: nat, schedule: seq<nat>, t: State)
    requires Leads(Start(n), schedule, t)
    ensures t.b.HeldBy? ==> t.a == t.b
    ensures forall i: nat | i < |t.threads| :: !t.threads[i].pc.WaitedB?
    ensures |schedule| <= 15 * n
    ensures (forall i: nat | i < |t.threads| :: !Enabled(t, i)) ==>
              t.a == t.b == Free && forall i: nat | i < |t.threads| :: t.threads[i] == Thread(TryA, 0)
  {
    StartOk(n);
    LeadsKeeps(Start(n), schedule, t);
    WorkLeft(t);
    if t.b.HeldBy? { BInsideA(t); }
    forall i: nat | i < |t.threads| ensures !t.threads[i].pc.WaitedB? {
      assert ThreadOk(t, i);
    }
    if forall i: nat | i < |t.threads| :: !Enabled(t, i) { AllDone(t); }
  }

  // ----- The program: two mutexes and the threads' own counters -----

  class Locks {
    var a: Lock
    var b: Lock
    var threads: array<Thread>

    ghost function Abstract(): State
      reads this, threads
    {
      State(a, b, threads[..])
    }

    constructor (n: nat)
      ensures Abstract() == Start(n) && fresh(threads)
    {
      a, b := Free, Free;
      threads := new Thread[n](_ => Thread(TryA, TRIES));
      new;
      assert threads[..] == Start(n).threads;
    }

    /** Locks if free; otherwise leaves things as they are and says so. */
    method TryLockA(i: nat) returns (ok: bool)
      modifies `a
      ensures ok == old(a).Free? && a == if ok then HeldBy(i) else old(a)
    {
      ok := a.Free?;
      if ok { a := HeldBy(i); }
    }

    method TryLockB(i: nat) returns (ok: bool)
      modifies `b
      ensures ok == old(b).Free? && b == if ok then HeldBy(i) else old(b)
    {
      ok := b.Free?;
      if ok { b := HeldBy(i); }
    }

    /** The next step of thread `i`. */
    method Step(i: nat)
      requires Inv(Abstract()) && Enabled(Abstract(), i)
      modifies this`a, this`b, threads
      ensures Abstract() == Next(old(Abstract()), i) && Inv(Abstract())
    {
      ghost var s := Abstract();
      NextInv(s, i);
      assert ThreadOk(s, i);
      var t := threads[i];
      match t.pc {
        case TryA =>
          var ok := TryLockA(i);
          t := t.(pc := if ok then TryB else CountDown);
        case TryB =>
          var ok := TryLockB(i);
          t := t.(pc := if ok then UnlockB else WaitedB);
        case UnlockB => b, t := Free, t.(pc := UnlockA);
        case UnlockA => a, t := Free, t.(pc := CountDown);
        case CountDown => t := Thread(TryA, t.count - 1);
      }
      threads[i] := t;
      assert threads[..] == Next(s, i).threads;
    }
  }

  /** Runs the threads to the end, at each step moving any that can move. */
  method RunThreads(n: nat) returns (locks: Locks, steps: nat)
    ensures locks.a == locks.b == Free && steps <= 15 * n
    ensures forall i: nat | i < locks.threads.Length :: locks.threads[i] == Thread(TryA, 0)
  {
    locks := new Locks(n);
    StartOk(n);
    steps := 0;
    while exists i: nat :: i < n && !(locks.threads[i].pc.TryA? && locks.threads[i].count == 0)
      invariant fresh(locks) && fresh(locks.threads) && locks.threads.Length == n && Inv(locks.Abstract())
      invariant steps + Sum(Works(locks.Abstract())) <= 15 * n
      decreases Sum(Works(locks.Abstract()))
    {
      var i: nat :| i < n && !(locks.threads[i].pc.TryA? && locks.threads[i].count == 0);
      ghost var s := locks.Abstract();
      NextWork(s, i);
      WorkLeft(s);
      locks.Step(i);
      steps := steps + 1;
    }
    WorkLeft(locks.Abstract());
    assert forall i: nat | i < n :: !Enabled(locks.Abstract(), i);
    AllDone(locks.Abstract());
  }
}
