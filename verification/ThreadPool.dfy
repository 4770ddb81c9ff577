/** The matrix thread pool: a ring of tasks under a lock and a condition variable. The ring is sized for
    exactly the tasks there are, and equal front and rear always read as empty. */
module MatrixThreadPool {
  import opened Matrices
  import opened Sums

  // ----- The ring -----

  /** A task names one cell of the product; `id` is the allocation it lives in. */
  datatype Task = Task(id: nat, row: nat, col: nat)

  datatype Ring = Ring(slots: seq<Task>, front: nat, rear: nat)

  function Wrap(n: nat, x: nat): nat {
    if x == n then 0 else x
  }

  predicate RingOk(r: Ring) {
    if r.slots == [] then r.front == r.rear == 0 else r.front < |r.slots| && r.rear < |r.slots|
  }

  function Gap(r: Ring): int {
    if r.front <= r.rear then r.rear - r.front else r.rear + |r.slots| - r.front
  }

  function Push(r: Ring, t: Task): Ring
    requires RingOk(r) && r.slots != []
  {
    Ring(r.slots[r.rear := t], r.front, Wrap(|r.slots|, r.rear + 1))
  }

  function Pop(r: Ring): Ring
    requires RingOk(r) && r.front != r.rear
  {
    r.(front := Wrap(|r.slots|, r.front + 1))
  }

  /** The tasks from front to rear, which is all a worker can see. */
  function Queue(r: Ring): (q: seq<Task>)
    requires RingOk(r)
    ensures |q| == Gap(r)
    decreases Gap(r)
  {
    if r.front == r.rear then [] else [r.slots[r.front]] + Queue(Pop(r))
  }

  lemma {:induction false} PushKeeps(r: Ring, t: Task)
    requires RingOk(r) && Gap(r) + 1 < |r.slots|
    ensures Queue(Push(r, t)) == Queue(r) + [t]
    decreases Gap(r)
  {
    if r.front != r.rear {
      PushKeeps(Pop(r), t);
      assert Push(Pop(r), t) == Pop(Push(r, t));
    } else {
      assert Queue(Pop(Push(r, t))) == [];
    }
  }

  /** A push is a queue's push exactly while the ring has two free slots; on the last free slot every
      task disappears from view. */
  lemma {:induction false} PushIffRoom(r: Ring, t: Task)
    requires RingOk(r) && r.slots != []
    ensures RingOk(Push(r, t))
    ensures Queue(Push(r, t)) == Queue(r) + [t] <==> |Queue(r)| + 1 < |r.slots|
    ensures |Queue(r)| + 1 == |r.slots| <==> Queue(Push(r, t)) == []
  {
    if Gap(r) + 1 < |r.slots| { PushKeeps(r, t); }
  }

  // ----- The tasks -----

  /** The tasks of the first `rows` rows and, of the next row, the first `cols`, numbered in order. */
  function Tasks(x: Input, rows: nat, cols: nat): (q: seq<Task>)
    requires cols <= x.p
    ensures forall t | 0 <= t < |q| :: q[t].id == t
    ensures forall t | 0 <= t < |q| :: q[t].row < rows || (q[t].row == rows && q[t].col < cols)
    decreases rows, cols
  {
    if cols > 0 then var q := Tasks(x, rows, cols - 1); q + [Task(|q|, rows, cols - 1)]
    else if rows > 0 then Tasks(x, rows - 1, x.p)
    else []
  }

  function AllTasks(x: Input): seq<Task> {
    Tasks(x, x.m, 0)
  }

  lemma {:induction false} EveryCellHasTask(x: Input, rows: nat, cols: nat, i: nat, j: nat) returns (t: nat)
    requires cols <= x.p && j < x.p && (i < rows || (i == rows && j < cols))
    ensures t < |Tasks(x, rows, cols)| && Tasks(x, rows, cols)[t].row == i && Tasks(x, rows, cols)[t].col == j
    decreases rows, cols
  {
    if cols == 0 {
      t := EveryCellHasTask(x, rows - 1, x.p, i, j);
    } else if i == rows && j == cols - 1 {
      t := |Tasks(x, rows, cols - 1)|;
    } else {
      t := EveryCellHasTask(x, rows, cols - 1, i, j);
    }
  }

  lemma {:induction false} TaskCount(x: Input, rows: nat, cols: nat)
    requires cols <= x.p
    ensures |Tasks(x, rows, cols)| == rows * x.p + cols
    decreases rows, cols
  {
    if cols > 0 {
      TaskCount(x, rows, cols - 1);
    } else if rows > 0 {
      TaskCount(x, rows - 1, x.p);
      assert (rows - 1) * x.p + x.p == rows * x.p;
    }
  }

  // ----- Main thread and workers, one lock operation, queue access or result at a time -----

  datatype Main = AddLock | AddWrite | AddSignal | AddUnlock | Sleeping

  datatype Worker = Acquire | Check | Waiting | Release(task: Task) | Compute(task: Task)

  datatype Owner = Nobody | MainThread | WorkerThread(w: nat)

  /** `added` and `taken` count the tasks put in and taken out, `ran` records the tasks completed, and
      `c` holds the cells of the result written so far. */
  datatype State = State(ring: Ring, lock: Owner, main: Main, workers: seq<Worker>,
                         added: nat, taken: nat, ran: multiset<Task>, c: map<(nat, nat), int>)

  /** `w` in `MainAct` is the worker a signal wakes. A waiting worker may also wake unsignalled. */
  datatype Act = MainAct(w: nat) | WorkerAct(w: nat) | Spurious(w: nat)

  /** The queue memory is not initialised. */
  function Start(x: Input, cores: nat, memory: seq<Task>): State {
    State(Ring(memory, 0, 0), Nobody, if AllTasks(x) == [] then Sleeping else AddLock, seq(cores, _ => Acquire),
          0, 0, multiset{}, map[])
  }

  predicate Shaped(x: Input, s: State) {
    RingOk(s.ring) && |s.ring.slots| == |AllTasks(x)| && (s.main.AddLock? || s.main.AddWrite? ==> s.added < |AllTasks(x)|)
  }

  predicate NoneWaiting(s: State) {
    forall w: nat | w < |s.workers| :: !s.workers[w].Waiting?
  }

  predicate Enabled(s: State, a: Act) {
    match a
    case MainAct(w) => (
      match s.main
      case AddLock => s.lock.Nobody?
      case AddWrite => true
      case AddSignal => NoneWaiting(s) || (w < |s.workers| && s.workers[w].Waiting?)
      case AddUnlock => true
      case Sleeping => false)
    case WorkerAct(w) =>
      w < |s.workers| && (if s.workers[w].Acquire? then s.lock.Nobody? else !s.workers[w].Waiting?)
    case Spurious(w) => w < |s.workers| && s.workers[w].Waiting?
  }

  function MainNext(x: Input, s: State, w: nat): State
    requires Shaped(x, s) && Enabled(s, MainAct(w))
  {
    match s.main
    case AddLock => s.(lock := MainThread, main := AddWrite)
    case AddWrite => s.(ring := Push(s.ring, AllTasks(x)[s.added]), added := s.added + 1, main := AddSignal)
    case AddSignal => s.(workers := if NoneWaiting(s) then s.workers else s.workers[w := Acquire], main := AddUnlock)
    case AddUnlock => s.(lock := Nobody, main := if s.added < |AllTasks(x)| then AddLock else Sleeping)
  }

  function WorkerNext(x: Input, s: State, w: nat): State
    requires Shaped(x, s) && Enabled(s, WorkerAct(w))
  {
    match s.workers[w]
    case Acquire => s.(lock := WorkerThread(w), workers := s.workers[w := Check])
    case Check =>
      if s.ring.front == s.ring.rear then s.(lock := Nobody, workers := s.workers[w := Waiting])
      else s.(ring := Pop(s.ring), taken := s.taken + 1, workers := s.workers[w := Release(s.ring.slots[s.ring.front])])
    case Release(task) => s.(lock := Nobody, workers := s.workers[w := Compute(task)])
    case Compute(task) =>
      s.(c := s.c[(task.row, task.col) := Product(x, task.row, task.col)], ran := s.ran + multiset{task},
         workers := s.workers[w := Acquire])
  }

  function Next(x: Input, s: State, a: Act): State
    requires Shaped(x, s) && Enabled(s, a)
  {
    match a
    case MainAct(w) => MainNext(x, s, w)
    case WorkerAct(w) => WorkerNext(x, s, w)
    case Spurious(w) => s.(workers := s.workers[w := Acquire])
  }

  // ----- What every step keeps -----

  /** All tasks were added before any was taken: the ring is full and reads as empty. */
  predicate Lost(x: Input, s: State) {
    s.taken == 0 < s.added == |AllTasks(x)|
  }

  /** The ring is a queue of those of `all` added and not yet taken, in order, unless they were lost. */
  predicate Pending(all: seq<Task>, r: Ring, taken: nat, added: nat)
    requires RingOk(r)
  {
    taken <= added <= |all| && Queue(r) == if taken == 0 < added == |all| then [] else all[taken..added]
  }

  lemma AddPending(all: seq<Task>, r: Ring, taken: nat, added: nat)
    requires RingOk(r) && |r.slots| == |all| && Pending(all, r, taken, added) && added < |all|
    ensures RingOk(Push(r, all[added])) && Pending(all, Push(r, all[added]), taken, added + 1)
  {
    PushIffRoom(r, all[added]);
    if added - taken + 1 < |all| {
      assert all[taken..added] + [all[added]] == all[taken..added + 1];
    }
  }

  lemma TakePending(all: seq<Task>, r: Ring, taken: nat, added: nat)
    requires RingOk(r) && |r.slots| == |all| && Pending(all, r, taken, added) && r.front != r.rear
    ensures taken < added && r.slots[r.front] == all[taken]
    ensures RingOk(Pop(r)) && Pending(all, Pop(r), taken + 1, added)
  {
    var q := all[taken..added];
    assert Queue(r) == q == [r.slots[r.front]] + Queue(Pop(r));
    assert q[0] == all[taken] && q[1..] == all[taken + 1..added];
  }

  predicate Fifo(x: Input, s: State)
    requires RingOk(s.ring)
  {
    Pending(AllTasks(x), s.ring, s.taken, s.added)
  }

  /** 1 for each worker asleep on the condition variable. */
  function Asleep(workers: seq<Worker>): (r: seq<int>)
    ensures |r| == |workers|
  {
    seq(|workers|, w requires 0 <= w < |workers| => if workers[w].Waiting? then 1 else 0)
  }

  /** A signal wakes exactly one worker if any is asleep; apart from that one wakes only spuriously, and
      only one that finds the queue empty falls asleep. */
  lemma SleepersChange(x: Input, s: State, a: Act)
    requires Shaped(x, s) && Enabled(s, a)
    ensures var before, after := Sum(Asleep(s.workers)), Sum(Asleep(Next(x, s, a).workers));
            match a
            case MainAct(_) => after == before - if s.main.AddSignal? && before > 0 then 1 else 0
            case WorkerAct(w) => after == before + if s.workers[w].Check? && s.ring.front == s.ring.rear then 1 else 0
            case Spurious(_) => after == before - 1
  {
    var t := Next(x, s, a);
    match a {
      case MainAct(w) =>
        if s.main.AddSignal? {
          if NoneWaiting(s) {
            SumZero(Asleep(s.workers));
          } else {
            SumBounds(Asleep(s.workers), w);
            SumOneChange(Asleep(s.workers), Asleep(t.workers), w);
          }
        }
      case WorkerAct(w) => SumOneChange(Asleep(s.workers), Asleep(t.workers), w);
      case Spurious(w) => SumOneChange(Asleep(s.workers), Asleep(t.workers), w);
    }
  }

  predicate Holding(w: Worker, t: Task) {
    (w.Release? || w.Compute?) && w.task == t
  }

  function Held(workers: seq<Worker>, t: Task): (r: seq<int>)
    ensures |r| == |workers|
  {
    seq(|workers|, w requires 0 <= w < |workers| => if Holding(workers[w], t) then 1 else 0)
  }

  /** A task taken is in one worker's hands or has been run once; any other is in none and has not. */
  predicate Accounted(x: Input, s: State, t: nat)
    requires t < |AllTasks(x)|
  {
    s.ran[AllTasks(x)[t]] + Sum(Held(s.workers, AllTasks(x)[t])) == if t < s.taken then 1 else 0
  }

  predicate Written(x: Input, s: State, t: nat)
    requires t < |AllTasks(x)|
  {
    var task := AllTasks(x)[t];
    s.ran[task] > 0 ==> (task.row, task.col) in s.c
  }

  predicate WorkerLocks(s: State, w: nat)
    requires w < |s.workers|
  {
    s.lock == WorkerThread(w) <==> s.workers[w].Check? || s.workers[w].Release?
  }

  predicate LockOk(s: State) {
    && (s.lock == MainThread <==> s.main.AddWrite? || s.main.AddSignal? || s.main.AddUnlock?)
    && (s.lock.WorkerThread? ==> s.lock.w < |s.workers|)
    && forall w: nat | w < |s.workers| :: WorkerLocks(s, w)
  }

  /** No wake-up is lost: while tasks can be seen some worker is awake, or about to be signalled. */
  predicate Awake(s: State) {
    s.ring.front != s.ring.rear && !s.main.AddSignal? ==> exists w: nat :: w < |s.workers| && !s.workers[w].Waiting?
  }

  predicate MainOk(x: Input, s: State) {
    && (s.main.AddLock? || s.main.AddWrite? ==> s.added < |AllTasks(x)|)
    && (s.main.Sleeping? ==> s.added == |AllTasks(x)|)
  }

  predicate TasksOk(x: Input, s: State) {
    && (forall t: nat | t < |AllTasks(x)| :: Accounted(x, s, t) && Written(x, s, t))
    && (forall w: nat | w < |s.workers| :: HandsOk(x, s, w))
    && (forall k | k in s.c :: s.c[k] == Product(x, k.0, k.1))
    && (s.taken == 0 ==> s.c == map[])
  }

  predicate HandsOk(x: Input, s: State, w: nat)
    requires w < |s.workers|
  {
    s.workers[w].Release? || s.workers[w].Compute? ==> s.taken > 0
  }

  predicate Inv(x: Input, s: State) {
    Shaped(x, s) && Fifo(x, s) && MainOk(x, s) && LockOk(s) && Awake(s) && TasksOk(x, s) && |s.workers| > 0
  }

  lemma StartInv(x: Input, cores: nat, memory: seq<Task>)
    requires cores > 0 && |memory| == |AllTasks(x)|
    ensures Inv(x, Start(x, cores, memory))
  {
    var s := Start(x, cores, memory);
    forall t: nat | t < |AllTasks(x)| ensures Accounted(x, s, t) && Written(x, s, t) {
      SumZero(Held(s.workers, AllTasks(x)[t]));
    }
    forall w: nat | w < |s.workers| ensures WorkerLocks(s, w) && HandsOk(x, s, w) {}
  }

  lemma AddKeepsFifo(x: Input, s: State, w: nat)
    requires Shaped(x, s) && Fifo(x, s) && s.main.AddWrite?
    ensures Shaped(x, MainNext(x, s, w)) && Fifo(x, MainNext(x, s, w))
  {
    AddPending(AllTasks(x), s.ring, s.taken, s.added);
  }

  /** A worker that finds the queue not empty takes the oldest task. */
  lemma TakeKeepsFifo(x: Input, s: State, w: nat)
    requires Shaped(x, s) && Fifo(x, s) && w < |s.workers| && s.workers[w].Check? && s.ring.front != s.ring.rear
    ensures s.taken < s.added && s.ring.slots[s.ring.front] == AllTasks(x)[s.taken]
    ensures Shaped(x, WorkerNext(x, s, w)) && Fifo(x, WorkerNext(x, s, w))
  {
    TakePending(AllTasks(x), s.ring, s.taken, s.added);
  }

  lemma HeldChange(workers: seq<Worker>, w: nat, v: Worker, t: Task)
    requires w < |workers|
    ensures Sum(Held(workers[w := v], t))
         == Sum(Held(workers, t)) - (if Holding(workers[w], t) then 1 else 0) + (if Holding(v, t) then 1 else 0)
  {
    SumOneChange(Held(workers, t), Held(workers[w := v], t), w);
  }

  /** Steps that neither take nor complete a task. */
  lemma OtherKeepsTasks(x: Input, s: State, t: State, w: nat)
    requires Inv(x, s) && w < |s.workers| && |t.workers| == |s.workers|
    requires t.workers == s.workers[w := t.workers[w]]
    requires t.ran == s.ran && t.taken == s.taken && t.c == s.c
    requires forall task :: Holding(t.workers[w], task) <==> Holding(s.workers[w], task)
    ensures TasksOk(x, t)
  {
    forall k: nat | k < |AllTasks(x)| ensures Accounted(x, t, k) && Written(x, t, k) {
      assert Accounted(x, s, k) && Written(x, s, k);
      HeldChange(s.workers, w, t.workers[w], AllTasks(x)[k]);
    }
    forall v: nat | v < |t.workers| ensures HandsOk(x, t, v) {
      assert HandsOk(x, s, v);
      if v == w && (t.workers[w].Release? || t.workers[w].Compute?) {
        assert Holding(t.workers[w], t.workers[w].task);
      }
    }
  }

  lemma TakeKeepsTasks(x: Input, s: State, w: nat)
    requires Inv(x, s) && w < |s.workers| && s.workers[w].Check? && s.ring.front != s.ring.rear
    ensures TasksOk(x, WorkerNext(x, s, w))
  {
    var t, all := WorkerNext(x, s, w), AllTasks(x);
    TakeKeepsFifo(x, s, w);
    forall k: nat | k < |all| ensures Accounted(x, t, k) && Written(x, t, k) {
      assert Accounted(x, s, k) && Written(x, s, k);
      HeldChange(s.workers, w, t.workers[w], all[k]);
      assert all[k] == all[s.taken] <==> k == s.taken;
    }
    forall v: nat | v < |t.workers| ensures HandsOk(x, t, v) {}
  }

  lemma ComputeKeepsTasks(x: Input, s: State, w: nat)
    requires Inv(x, s) && w < |s.workers| && s.workers[w].Compute?
    ensures TasksOk(x, WorkerNext(x, s, w))
  {
    var t, all := WorkerNext(x, s, w), AllTasks(x);
    assert HandsOk(x, s, w);
    forall k: nat | k < |all| ensures Accounted(x, t, k) && Written(x, t, k) {
      assert Accounted(x, s, k) && Written(x, s, k);
      HeldChange(s.workers, w, Acquire, all[k]);
    }
    forall v: nat | v < |t.workers| ensures HandsOk(x, t, v) {
      assert HandsOk(x, s, v);
    }
  }

  lemma NextLock(x: Input, s: State, a: Act)
    requires Inv(x, s) && Enabled(s, a)
    ensures LockOk(Next(x, s, a))
  {
    var t := Next(x, s, a);
    if a.WorkerAct? { assert WorkerLocks(s, a.w); }
    forall w: nat | w < |t.workers| ensures WorkerLocks(t, w) {
      assert WorkerLocks(s, w);
    }
  }

  lemma MainNextAwake(x: Input, s: State, w: nat)
    requires Inv(x, s) && Enabled(s, MainAct(w))
    ensures Awake(MainNext(x, s, w))
  {
    var t := MainNext(x, s, w);
    if s.main.AddSignal? {
      assert !t.workers[if NoneWaiting(s) then 0 else w].Waiting?;
    } else {
      assert t.workers == s.workers;
    }
  }

  lemma WorkerNextAwake(x: Input, s: State, w: nat)
    requires Inv(x, s) && Enabled(s, WorkerAct(w))
    ensures Awake(WorkerNext(x, s, w))
  {
    if s.workers[w].Check? && s.ring.front == s.ring.rear {
      assert WorkerNext(x, s, w).ring == s.ring;
    } else {
      assert !WorkerNext(x, s, w).workers[w].Waiting?;
    }
  }

  lemma NextAwake(x: Input, s: State, a: Act)
    requires Inv(x, s) && Enabled(s, a)
    ensures Awake(Next(x, s, a))
  {
    match a
    case MainAct(w) => MainNextAwake(x, s, w);
    case WorkerAct(w) => WorkerNextAwake(x, s, w);
    case Spurious(w) => assert !Next(x, s, a).workers[w].Waiting?;
  }

  lemma MainNextInv(x: Input, s: State, w: nat)
    requires Inv(x, s) && Enabled(s, MainAct(w))
    ensures Inv(x, MainNext(x, s, w)) && |MainNext(x, s, w).workers| == |s.workers|
  {
    var t := MainNext(x, s, w);
    NextLock(x, s, MainAct(w));
    NextAwake(x, s, MainAct(w));
    if s.main.AddWrite? { AddKeepsFifo(x, s, w); }
    OtherKeepsTasks(x, s, t, if s.main.AddSignal? && !NoneWaiting(s) then w else 0);
  }

  lemma WorkerNextInv(x: Input, s: State, w: nat)
    requires Inv(x, s) && Enabled(s, WorkerAct(w))
    ensures Inv(x, WorkerNext(x, s, w)) && |WorkerNext(x, s, w).workers| == |s.workers|
  {
    var t := WorkerNext(x, s, w);
    NextLock(x, s, WorkerAct(w));
    NextAwake(x, s, WorkerAct(w));
    match s.workers[w]
    case Check =>
      if s.ring.front != s.ring.rear {
        TakeKeepsFifo(x, s, w);
        TakeKeepsTasks(x, s, w);
      } else {
        OtherKeepsTasks(x, s, t, w);
      }
    case Compute(_) => ComputeKeepsTasks(x, s, w);
    case _ => OtherKeepsTasks(x, s, t, w);
  }

  lemma NextInv(x: Input, s: State, a: Act)
    requires Inv(x, s) && Enabled(s, a)
    ensures Inv(x, Next(x, s, a)) && |Next(x, s, a).workers| == |s.workers|
  {
    match a
    case MainAct(w) => MainNextInv(x, s, w);
    case WorkerAct(w) => WorkerNextInv(x, s, w);
    case Spurious(w) =>
      var t := Next(x, s, a);
      NextLock(x, s, a);
      NextAwake(x, s, a);
      OtherKeepsTasks(x, s, t, w);
  }

  // ----- How every run ends -----

  function MainWork(x: Input, s: State): int {
    var toAdd := 6 * (|AllTasks(x)| - s.added);
    match s.main
    case AddLock => toAdd
    case AddWrite => toAdd - 1
    case AddSignal => toAdd + 4
    case AddUnlock => toAdd + 1
    case Sleeping => 0
  }

  function WorkerWork(w: Worker): int {
    match w
    case Acquire => 2
    case Check => 1
    case Waiting => 0
    case Release(_) => 4
    case Compute(_) => 3
  }

  function WorkerWorks(s: State): seq<int> {
    seq(|s.workers|, w requires 0 <= w < |s.workers| => WorkerWork(s.workers[w]))
  }

  /** A bound on the steps left if no worker wakes unsignalled. */
  function Work(x: Input, s: State): int {
    MainWork(x, s) + Sum(WorkerWorks(s)) + 4 * (|AllTasks(x)| - s.taken)
  }

  lemma MainStepWork(x: Input, s: State, w: nat)
    requires Shaped(x, s) && s.added <= |AllTasks(x)| && Enabled(s, MainAct(w))
    ensures Work(x, MainNext(x, s, w)) < Work(x, s)
  {
    var t := MainNext(x, s, w);
    if s.main.AddSignal? && !NoneWaiting(s) {
      SumOneChange(WorkerWorks(s), WorkerWorks(t), w);
    } else {
      assert WorkerWorks(t) == WorkerWorks(s);
    }
  }

  lemma WorkerStepWork(x: Input, s: State, w: nat)
    requires Shaped(x, s) && Enabled(s, WorkerAct(w))
    ensures Work(x, WorkerNext(x, s, w)) < Work(x, s)
  {
    SumOneChange(WorkerWorks(s), WorkerWorks(WorkerNext(x, s, w)), w);
  }

  lemma NextWork(x: Input, s: State, a: Act)
    requires Inv(x, s) && Enabled(s, a)
    ensures Work(x, Next(x, s, a)) + 1 <= Work(x, s) + if a.Spurious? then 3 else 0
  {
    match a
    case MainAct(w) => MainStepWork(x, s, w);
    case WorkerAct(w) => WorkerStepWork(x, s, w);
    case Spurious(w) => SumOneChange(WorkerWorks(s), WorkerWorks(Next(x, s, a)), w);
  }

  lemma WorkLeft(x: Input, s: State)
    requires Inv(x, s)
    ensures Work(x, s) >= 0
  {
    var z := seq(|s.workers|, w => 0);
    SumZero(z);
    SumMonotone(z, WorkerWorks(s));
  }

  predicate Leads(x: Input, s: State, schedule: seq<Act>, t: State)
    decreases |schedule|
  {
    if schedule == [] then t == s
    else Shaped(x, s) && Enabled(s, schedule[0]) && Leads(x, Next(x, s, schedule[0]), schedule[1..], t)
  }

  function SpuriousCount(schedule: seq<Act>): nat {
    if schedule == [] then 0 else (if schedule[0].Spurious? then 1 else 0) + SpuriousCount(schedule[1..])
  }

  lemma {:induction false} LeadsKeeps(x: Input, s: State, schedule: seq<Act>, t: State)
    requires Inv(x, s) && Leads(x, s, schedule, t)
    ensures Inv(x, t) && |t.workers| == |s.workers|
    ensures Work(x, t) + |schedule| <= Work(x, s) + 3 * SpuriousCount(schedule)
    decreases |schedule|
  {
    if schedule != [] {
      NextInv(x, s, schedule[0]);
      NextWork(x, s, schedule[0]);
      LeadsKeeps(x, Next(x, s, schedule[0]), schedule[1..], t);
    }
  }

  /** Once all tasks have been added, tasks lost stay lost and others are never lost. */
  lemma {:induction false} LeadsLost(x: Input, s: State, schedule: seq<Act>, t: State)
    requires Inv(x, s) && Leads(x, s, schedule, t) && s.added == |AllTasks(x)| > 0
    ensures t.added == |AllTasks(x)| && (t.taken == 0 <==> s.taken == 0)
    decreases |schedule|
  {
    if schedule != [] {
      var a := schedule[0];
      NextInv(x, s, a);
      if a.WorkerAct? && s.workers[a.w].Check? && s.ring.front != s.ring.rear { TakeKeepsFifo(x, s, a.w); }
      LeadsLost(x, Next(x, s, a), schedule[1..], t);
    }
  }

  /** With a single task the ring has one slot, which reads as empty even when full. */
  lemma {:induction false} SingleTaskNeverTaken(x: Input, s: State, schedule: seq<Act>, t: State)
    requires Inv(x, s) && Leads(x, s, schedule, t) && |AllTasks(x)| == 1 && s.taken == 0
    ensures t.taken == 0 && t.c == map[]
    decreases |schedule|
  {
    if schedule != [] {
      NextInv(x, s, schedule[0]);
      assert Queue(s.ring) == [];
      SingleTaskNeverTaken(x, Next(x, s, schedule[0]), schedule[1..], t);
    }
  }

  /** Nothing more can happen without a spurious wake-up. */
  ghost predicate Stuck(s: State) {
    forall w: nat :: !Enabled(s, MainAct(w)) && !Enabled(s, WorkerAct(w))
  }

  predicate AllAsleep(s: State) {
    s.main.Sleeping? && forall w: nat | w < |s.workers| :: s.workers[w].Waiting?
  }

  /** There is no deadlock on the lock: a stuck pool is asleep. */
  lemma StuckIsAsleep(x: Input, s: State)
    requires Inv(x, s) && Stuck(s)
    ensures AllAsleep(s) && s.ring.front == s.ring.rear
  {
    assert !Enabled(s, MainAct(0)) && !Enabled(s, WorkerAct(0));
    forall w: nat | w < |s.workers| ensures s.lock != WorkerThread(w) {
      assert WorkerLocks(s, w) && !Enabled(s, WorkerAct(w));
    }
    if w: nat :| w < |s.workers| && s.workers[w].Waiting? {
      assert !Enabled(s, MainAct(w));
    }
    forall w: nat | w < |s.workers| ensures s.workers[w].Waiting? {
      assert !Enabled(s, WorkerAct(w)) && WorkerLocks(s, w);
    }
  }

  /** Every task has run exactly once and every cell of the result is that of the product. */
  predicate Complete(x: Input, s: State) {
    && (forall t: nat | t < |AllTasks(x)| :: s.ran[AllTasks(x)[t]] == 1)
    && forall i: nat, j: nat | i < x.m && j < x.p :: CellDone(x, s, i, j)
  }

  predicate CellDone(x: Input, s: State, i: nat, j: nat) {
    (i, j) in s.c && s.c[(i, j)] == Product(x, i, j)
  }

  predicate NothingRan(x: Input, s: State) {
    s.c == map[] && forall t: nat | t < |AllTasks(x)| :: s.ran[AllTasks(x)[t]] == 0
  }

  lemma RanWhenAsleep(x: Input, s: State, t: nat)
    requires Inv(x, s) && AllAsleep(s) && t < |AllTasks(x)|
    ensures s.ran[AllTasks(x)[t]] == if t < s.taken then 1 else 0
  {
    assert Accounted(x, s, t);
    SumZero(Held(s.workers, AllTasks(x)[t]));
  }

  lemma AsleepOutcome(x: Input, s: State)
    requires Inv(x, s) && AllAsleep(s) && s.ring.front == s.ring.rear
    ensures s.taken == |AllTasks(x)| ==> Complete(x, s)
    ensures s.taken == 0 ==> NothingRan(x, s)
    ensures s.taken == 0 || s.taken == |AllTasks(x)|
  {
    var all := AllTasks(x);
    assert Queue(s.ring) == [];
    assert |all[s.taken..s.added]| == s.added - s.taken;
    forall t: nat | t < |all| ensures s.ran[all[t]] == if t < s.taken then 1 else 0 {
      RanWhenAsleep(x, s, t);
    }
    if s.taken == |all| {
      forall i: nat, j: nat | i < x.m && j < x.p ensures CellDone(x, s, i, j) {
        var t := EveryCellHasTask(x, x.m, 0, i, j);
        assert Written(x, s, t);
      }
    }
  }

  lemma StartWork(x: Input, cores: nat, memory: seq<Task>)
    ensures Work(x, Start(x, cores, memory)) == 10 * |AllTasks(x)| + 2 * cores
  {
    SumConstant(WorkerWorks(Start(x, cores, memory)), 2);
  }

  /** Every interleaving, with any number of workers: the ring is a queue of the pending tasks until
      they are lost; no wake-up is lost; spurious wake-ups aside the run is finite, and it can stop only
      with the whole product computed or with nothing computed at all. */
  lemma {:induction false} EveryRunEnds(x: Input, cores: nat, memory: seq<Task>, schedule: seq<Act>, t: State)
    requires cores > 0 && |memory| == |AllTasks(x)| && Leads(x, Start(x, cores, memory), schedule, t)
    ensures RingOk(t.ring) && Fifo(x, t) && Awake(t)
    ensures |schedule| <= 10 * |AllTasks(x)| + 2 * cores + 3 * SpuriousCount(schedule)
    ensures Stuck(t) ==> Complete(x, t) || NothingRan(x, t)
    ensures |AllTasks(x)| == 1 ==> t.c == map[]
  {
    var s := Start(x, cores, memory);
    StartInv(x, cores, memory);
    StartWork(x, cores, memory);
    LeadsKeeps(x, s, schedule, t);
    WorkLeft(x, t);
    if Stuck(t) {
      StuckIsAsleep(x, t);
      AsleepOutcome(x, t);
    }
    if |AllTasks(x)| == 1 { SingleTaskNeverTaken(x, s, schedule, t); }
  }

  /** Which of the two it is, is settled when the last task is added: the product is computed if and
      only if a worker has taken a task by then. */
  lemma CompleteIffTakenInTime(x: Input, cores: nat, memory: seq<Task>, before: seq<Act>, s: State, after: seq<Act>, t: State)
    requires cores > 0 && |memory| == |AllTasks(x)| > 0
    requires Leads(x, Start(x, cores, memory), before, s) && s.added == |AllTasks(x)|
    requires Leads(x, s, after, t) && Stuck(t)
    ensures s.taken > 0 <==> Complete(x, t)
    ensures s.taken == 0 <==> NothingRan(x, t)
  {
    StartInv(x, cores, memory);
    LeadsKeeps(x, Start(x, cores, memory), before, s);
    LeadsKeeps(x, s, after, t);
    LeadsLost(x, s, after, t);
    StuckIsAsleep(x, t);
    AsleepOutcome(x, t);
    RanWhenAsleep(x, t, 0);
  }

  // ----- The run that loses every task -----

  lemma {:induction false} LeadsThen(x: Input, s: State, schedule: seq<Act>, t: State, a: Act)
    requires Leads(x, s, schedule, t) && Shaped(x, t) && Enabled(t, a)
    ensures Leads(x, s, schedule + [a], Next(x, t, a))
    decreases |schedule|
  {
    if schedule == [] {
      assert Leads(x, Next(x, t, a), [], Next(x, t, a));
    } else {
      LeadsThen(x, Next(x, s, schedule[0]), schedule[1..], t, a);
      assert (schedule + [a])[1..] == schedule[1..] + [a];
    }
  }

  /** A run from the start. */
  ghost predicate RunTo(x: Input, cores: nat, memory: seq<Task>, schedule: seq<Act>, t: State) {
    Inv(x, Start(x, cores, memory)) && Leads(x, Start(x, cores, memory), schedule, t) && Inv(x, t)
  }

  lemma Extend(x: Input, cores: nat, memory: seq<Task>, schedule: seq<Act>, t: State, a: Act)
    returns (schedule': seq<Act>, t': State)
    requires RunTo(x, cores, memory, schedule, t) && Enabled(t, a)
    ensures RunTo(x, cores, memory, schedule', t') && t' == Next(x, t, a)
  {
    NextInv(x, t, a);
    LeadsThen(x, Start(x, cores, memory), schedule, t, a);
    schedule', t' := schedule + [a], Next(x, t, a);
  }

  /** Nothing has been taken, and the lock is free. */
  predicate Untaken(x: Input, s: State) {
    s.lock.Nobody? && s.taken == 0 && s.main == if s.added < |AllTasks(x)| then AddLock else Sleeping
  }

  predicate AllAcquiring(s: State) {
    forall w: nat | w < |s.workers| :: s.workers[w].Acquire?
  }

  lemma AddOne(x: Input, cores: nat, memory: seq<Task>, before: seq<Act>, s: State) returns (schedule: seq<Act>, t: State)
    requires cores > 0 && |memory| == |AllTasks(x)| && s.added < |AllTasks(x)|
    requires RunTo(x, cores, memory, before, s) && Untaken(x, s) && |s.workers| == cores && AllAcquiring(s)
    ensures RunTo(x, cores, memory, schedule, t) && Untaken(x, t) && t.added == s.added + 1
    ensures |t.workers| == cores && AllAcquiring(t)
  {
    schedule, t := Extend(x, cores, memory, before, s, MainAct(0));
    schedule, t := Extend(x, cores, memory, schedule, t, MainAct(0));
    schedule, t := Extend(x, cores, memory, schedule, t, MainAct(0));
    schedule, t := Extend(x, cores, memory, schedule, t, MainAct(0));
  }

  /** The main thread adds `k` tasks before any worker gets the lock. */
  lemma {:induction false} AddFirst(x: Input, cores: nat, memory: seq<Task>, k: nat) returns (schedule: seq<Act>, t: State)
    requires cores > 0 && |memory| == |AllTasks(x)| && k <= |AllTasks(x)|
    ensures RunTo(x, cores, memory, schedule, t) && Untaken(x, t) && t.added == k && |t.workers| == cores && AllAcquiring(t)
  {
    if k == 0 {
      StartInv(x, cores, memory);
      schedule, t := [], Start(x, cores, memory);
    } else {
      schedule, t := AddFirst(x, cores, memory, k - 1);
      schedule, t := AddOne(x, cores, memory, schedule, t);
    }
  }

  /** The first `k` workers have gone to sleep, the rest have not had the lock yet. */
  predicate Dozing(s: State, k: nat) {
    forall w: nat | w < |s.workers| :: s.workers[w] == if w < k then Waiting else Acquire
  }

  /** Then the workers find nothing, one after another. */
  lemma {:induction false} FallAsleep(x: Input, cores: nat, memory: seq<Task>, k: nat) returns (schedule: seq<Act>, t: State)
    requires cores > 0 && |memory| == |AllTasks(x)| > 0 && k <= cores
    ensures RunTo(x, cores, memory, schedule, t) && Untaken(x, t) && Lost(x, t) && |t.workers| == cores && Dozing(t, k)
  {
    if k == 0 {
      schedule, t := AddFirst(x, cores, memory, |AllTasks(x)|);
    } else {
      schedule, t := FallAsleep(x, cores, memory, k - 1);
      assert Queue(t.ring) == [];
      schedule, t := Extend(x, cores, memory, schedule, t, WorkerAct(k - 1));
      schedule, t := Extend(x, cores, memory, schedule, t, WorkerAct(k - 1));
    }
  }

  /** However many tasks and workers, some interleaving ends with nothing computed. */
  lemma LosingRun(x: Input, cores: nat, memory: seq<Task>) returns (schedule: seq<Act>, t: State)
    requires cores > 0 && |memory| == |AllTasks(x)| > 0
    ensures Leads(x, Start(x, cores, memory), schedule, t) && Stuck(t) && NothingRan(x, t)
  {
    schedule, t := FallAsleep(x, cores, memory, cores);
    assert Queue(t.ring) == [];
    AsleepOutcome(x, t);
  }

  ghost predicate AlwaysComplete(x: Input, cores: nat, memory: seq<Task>)
    requires |memory| == |AllTasks(x)|
  {
    forall schedule, t | Leads(x, Start(x, cores, memory), schedule, t) && Stuck(t) :: Complete(x, t)
  }

  /** Every interleaving computes the product only when there is nothing to compute. */
  lemma {:induction false} CompleteIffEmpty(x: Input, cores: nat, memory: seq<Task>)
    requires cores > 0 && |memory| == |AllTasks(x)|
    ensures AlwaysComplete(x, cores, memory) <==> x.m == 0 || x.p == 0
  {
    TaskCount(x, x.m, 0);
    if |AllTasks(x)| > 0 {
      var schedule, t := LosingRun(x, cores, memory);
      assert t.ran[AllTasks(x)[0]] == 0;
    }
  }

  // ----- The program -----

  lemma WrapIsModulo(n: nat, x: nat)
    requires x < n
    ensures (x + 1) % n == Wrap(n, x + 1)
  {
    if x + 1 < n { assert (x + 1) % n == x + 1; }
  }

  class Pool {
    var taskQueue: array<Task>
    var front: nat
    var rear: nat

    ghost function Contents(): Ring
      reads this, taskQueue
    {
      Ring(taskQueue[..], front, rear)
    }

    constructor (maxTasks: nat)
      ensures RingOk(Contents()) && taskQueue.Length == maxTasks && front == rear == 0
    {
      taskQueue := new Task[maxTasks];
      front, rear := 0, 0;
    }

    /** Stores without looking for room. */
    method AddTask(task: Task)
      requires RingOk(Contents()) && taskQueue.Length > 0
      modifies this`rear, taskQueue
      ensures RingOk(Contents()) && Contents() == Push(old(Contents()), task)
      ensures Queue(Contents()) == if |old(Queue(Contents()))| + 1 < taskQueue.Length then old(Queue(Contents())) + [task] else []
    {
      ghost var was := Contents();
      PushIffRoom(was, task);
      WrapIsModulo(taskQueue.Length, rear);
      taskQueue[rear] := task;
      rear := (rear + 1) % taskQueue.Length;
      assert taskQueue[..] == Push(was, task).slots;
      assert Contents() == Push(was, task);
    }

    /** What a worker does with the lock once it finds the queue not empty. */
    method TakeTask() returns (task: Task)
      requires RingOk(Contents()) && front != rear
      modifies this`front
      ensures RingOk(Contents()) && Contents() == Pop(old(Contents()))
      ensures [task] + Queue(Contents()) == old(Queue(Contents()))
    {
      WrapIsModulo(taskQueue.Length, front);
      task := taskQueue[front];
      front := (front + 1) % taskQueue.Length;
    }
  }

  /** The work of one task, in the pool and with a thread per cell alike. */
  method RunTask(x: Input, task: Task, c: array2<int>)
    requires Sized(x) && task.row < x.m == c.Length0 && task.col < x.p == c.Length1
    modifies c
    ensures c[task.row, task.col] == Product(x, task.row, task.col)
    ensures c[task.row, task.col] == Sum(seq(x.n, k requires 0 <= k < x.n => x.a[task.row][k] * x.b[k][task.col]))
    ensures forall i, j | 0 <= i < x.m && 0 <= j < x.p && !(i == task.row && j == task.col) :: c[i, j] == old(c[i, j])
  {
    var sum := 0;
    for k := 0 to x.n
      invariant sum == Dot(x.a, x.b, task.row, task.col, k)
    {
      sum := sum + x.a[task.row][k] * x.b[k][task.col];
    }
    c[task.row, task.col] := sum;
    ProductIsSum(x, task.row, task.col);
  }

  method SequentialMatrixMultiplication(x: Input, c: array2<int>)
    requires Sized(x) && c.Length0 == x.m && c.Length1 == x.p
    modifies c
    ensures forall i, j | 0 <= i < x.m && 0 <= j < x.p ::
              && c[i, j] == Product(x, i, j)
              && c[i, j] == Sum(seq(x.n, k requires 0 <= k < x.n => x.a[i][k] * x.b[k][j]))
  {
    AllProducts(x);
    for i := 0 to x.m
      invariant forall r, j | 0 <= r < i && 0 <= j < x.p :: c[r, j] == Product(x, r, j)
    {
      for j := 0 to x.p
        invariant forall r, l | 0 <= r < i && 0 <= l < x.p :: c[r, l] == Product(x, r, l)
        invariant forall l | 0 <= l < j :: c[i, l] == Product(x, i, l)
      {
        c[i, j] := 0;
        for k := 0 to x.n
          invariant forall r, l | 0 <= r < i && 0 <= l < x.p :: c[r, l] == Product(x, r, l)
          invariant forall l | 0 <= l < j :: c[i, l] == Product(x, i, l)
          invariant c[i, j] == Dot(x.a, x.b, i, j, k)
        {
          c[i, j] := c[i, j] + x.a[i][k] * x.b[k][j];
        }
      }
    }
  }
}
