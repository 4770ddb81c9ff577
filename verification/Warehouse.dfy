/** A bounded warehouse: trucks put products in one at a time, managers take out several at a time for
    one token. Every semaphore, mutex and buffer operation is one step; the threads interleave freely. */
module WarehouseThreads {
  import opened Sums

  const BUFFER_SIZE := 25
  const DELIVERY_MAX_PRODUCTS := 6
  const STORAGE_MAX_PRODUCTS := 3
  const MAX_DELIVERIES := 2

  /** The data guarded by the mutex. A cell is 1 when it holds a product. */
  datatype Shelf = Shelf(buffer: seq<int>, count: int, front: nat, rear: nat)

  datatype TruckPc = Choose | WaitEmpty | Lock | Insert | Unlock | PostFull | Gone

  datatype Truck = Truck(pc: TruckPc, products: int, deliveries: nat)

  datatype ManagerPc = Pick | WaitFull | LockShelf | Remove | UnlockShelf | PostEmpty

  datatype Manager = Manager(pc: ManagerPc, products: int)

  datatype Owner = Nobody | ByTruck(i: nat) | ByManager(j: nat)

  /** The last three fields record history: products drawn by trucks to deliver, put on the shelf, and
      taken off it. */
  datatype State = State(shelf: Shelf, empty: nat, full: nat, mutex: Owner, trucks: seq<Truck>, managers: seq<Manager>,
                         ordered: int, delivered: int, stored: int)

  /** A step of one thread; `k` is the random number it draws if that is what it does next. */
  datatype Act = TruckAct(i: nat, k: nat) | ManagerAct(j: nat, k: nat)

  // ----- The shelf -----

  function Wrap(x: nat): nat {
    if x == BUFFER_SIZE then 0 else x
  }

  /** How far cell `c` is behind the front of the queue. */
  function Offset(c: nat, front: nat): int
    requires c < BUFFER_SIZE && front < BUFFER_SIZE
  {
    if c >= front then c - front else c + BUFFER_SIZE - front
  }

  predicate CellOk(b: Shelf, c: nat)
    requires c < |b.buffer| == BUFFER_SIZE && b.front < BUFFER_SIZE
  {
    b.buffer[c] == if Offset(c, b.front) < b.count then 1 else 0
  }

  /** The cells holding 1 are exactly the `count` cells from the front, and the rear is just past them. */
  predicate ShelfOk(b: Shelf) {
    && |b.buffer| == BUFFER_SIZE && 0 <= b.count <= BUFFER_SIZE
    && b.front < BUFFER_SIZE && b.rear == (b.front + b.count) % BUFFER_SIZE
    && forall c: nat | c < BUFFER_SIZE :: CellOk(b, c)
  }

  function InsertOne(b: Shelf): Shelf
    requires b.rear < |b.buffer|
  {
    Shelf(b.buffer[b.rear := 1], b.count + 1, b.front, Wrap(b.rear + 1))
  }

  function RemoveOne(b: Shelf): Shelf
    requires b.front < |b.buffer|
  {
    Shelf(b.buffer[b.front := 0], b.count - 1, Wrap(b.front + 1), b.rear)
  }

  function RemoveUpTo(b: Shelf, k: nat): Shelf
    requires |b.buffer| == BUFFER_SIZE && b.front < BUFFER_SIZE
    decreases k
  {
    if k == 0 || b.count <= 0 then b else RemoveUpTo(RemoveOne(b), k - 1)
  }

  /** The rear cell is the one `count` behind the front, and moves on with the count. */
  lemma RearOffset(b: Shelf)
    requires b.front < BUFFER_SIZE && 0 <= b.count < BUFFER_SIZE && b.rear == (b.front + b.count) % BUFFER_SIZE
    ensures b.rear < BUFFER_SIZE && Offset(b.rear, b.front) == b.count
    ensures Wrap(b.rear + 1) == (b.front + b.count + 1) % BUFFER_SIZE
  {
    var x := b.front + b.count;
    if x < BUFFER_SIZE {
      assert x % BUFFER_SIZE == x;
    } else {
      assert x % BUFFER_SIZE == x - BUFFER_SIZE;
    }
  }

  lemma InsertKeeps(b: Shelf)
    requires ShelfOk(b) && b.count < BUFFER_SIZE
    ensures ShelfOk(InsertOne(b))
  {
    var d := InsertOne(b);
    RearOffset(b);
    forall c: nat | c < BUFFER_SIZE ensures CellOk(d, c) {
      assert CellOk(b, c);
      if c != b.rear { assert d.buffer[c] == b.buffer[c] && Offset(c, b.front) != b.count; }
    }
  }

  lemma RemoveOneKeeps(b: Shelf)
    requires ShelfOk(b) && b.count > 0
    ensures ShelfOk(RemoveOne(b))
  {
    var d := RemoveOne(b);
    forall c: nat | c < BUFFER_SIZE ensures CellOk(d, c) {
      assert CellOk(b, c);
    }
  }

  lemma {:induction false} RemoveKeeps(b: Shelf, k: nat)
    requires ShelfOk(b)
    ensures ShelfOk(RemoveUpTo(b, k))
    ensures RemoveUpTo(b, k).count == if b.count > k then b.count - k else 0
    decreases k
  {
    if k > 0 && b.count > 0 {
      RemoveOneKeeps(b);
      RemoveKeeps(RemoveOne(b), k - 1);
    }
  }

  // ----- The threads -----

  function Start(trucks: nat, managers: nat): State {
    State(Shelf(seq(BUFFER_SIZE, _ => 0), 0, 0, 0), BUFFER_SIZE, 0, Nobody,
          seq(trucks, _ => Truck(Choose, 0, 0)), seq(managers, _ => Manager(Pick, 0)), 0, 0, 0)
  }

  predicate TruckEnabled(s: State, i: nat, k: nat)
    requires i < |s.trucks|
  {
    match s.trucks[i].pc
    case Choose => 1 <= k <= DELIVERY_MAX_PRODUCTS
    case WaitEmpty => s.empty > 0
    case Lock => s.mutex.Nobody?
    case Insert => true
    case Unlock => true
    case PostFull => true
    case Gone => false
  }

  predicate ManagerEnabled(s: State, j: nat, k: nat)
    requires j < |s.managers|
  {
    match s.managers[j].pc
    case Pick => 1 <= k <= STORAGE_MAX_PRODUCTS
    case WaitFull => s.full > 0
    case LockShelf => s.mutex.Nobody?
    case Remove => true
    case UnlockShelf => true
    case PostEmpty => true
  }

  predicate Enabled(s: State, a: Act) {
    match a
    case TruckAct(i, k) => i < |s.trucks| && TruckEnabled(s, i, k)
    case ManagerAct(j, k) => j < |s.managers| && ManagerEnabled(s, j, k)
  }

  /** What a truck does after a product: go on with the delivery, start another, or leave. */
  function AfterProduct(t: Truck): Truck {
    if t.products > 0 then t.(pc := WaitEmpty)
    else if t.deliveries + 1 >= MAX_DELIVERIES then Truck(Gone, 0, t.deliveries + 1)
    else Truck(Choose, 0, t.deliveries + 1)
  }

  function TruckMoved(t: Truck, k: nat): Truck {
    match t.pc
    case Choose => t.(pc := WaitEmpty, products := k)
    case WaitEmpty => t.(pc := Lock)
    case Lock => t.(pc := Insert)
    case Insert => t.(pc := Unlock, products := t.products - 1)
    case Unlock => t.(pc := PostFull)
    case PostFull => AfterProduct(t)
    case Gone => t
  }

  function ManagerMoved(m: Manager, k: nat): Manager {
    match m.pc
    case Pick => Manager(WaitFull, k)
    case WaitFull => m.(pc := LockShelf)
    case LockShelf => m.(pc := Remove)
    case Remove => m.(pc := UnlockShelf)
    case UnlockShelf => m.(pc := PostEmpty)
    case PostEmpty => m.(pc := Pick)
  }

  predicate Shaped(s: State) {
    |s.shelf.buffer| == BUFFER_SIZE && s.shelf.front < BUFFER_SIZE && s.shelf.rear < BUFFER_SIZE
  }

  function TruckNext(s: State, i: nat, k: nat): (t: State)
    requires Shaped(s) && i < |s.trucks| && TruckEnabled(s, i, k)
  {
    var t := s.(trucks := s.trucks[i := TruckMoved(s.trucks[i], k)]);
    match s.trucks[i].pc
    case Choose => t.(ordered := s.ordered + k)
    case WaitEmpty => t.(empty := s.empty - 1)
    case Lock => t.(mutex := ByTruck(i))
    case Insert => t.(shelf := InsertOne(s.shelf), delivered := s.delivered + 1)
    case Unlock => t.(mutex := Nobody)
    case PostFull => t.(full := s.full + 1)
  }

  function ManagerNext(s: State, j: nat, k: nat): (t: State)
    requires Shaped(s) && j < |s.managers| && ManagerEnabled(s, j, k)
  {
    var t := s.(managers := s.managers[j := ManagerMoved(s.managers[j], k)]);
    match s.managers[j].pc
    case Pick => t
    case WaitFull => t.(full := s.full - 1)
    case LockShelf => t.(mutex := ByManager(j))
    case Remove =>
      var shelf := RemoveUpTo(s.shelf, if s.managers[j].products < 0 then 0 else s.managers[j].products);
      t.(shelf := shelf, stored := s.stored + s.shelf.count - shelf.count)
    case UnlockShelf => t.(mutex := Nobody)
    case PostEmpty => t.(empty := s.empty + 1)
  }

  function Next(s: State, a: Act): State
    requires Shaped(s) && Enabled(s, a)
  {
    match a
    case TruckAct(i, k) => TruckNext(s, i, k)
    case ManagerAct(j, k) => ManagerNext(s, j, k)
  }

  // ----- What every step keeps -----

  /** Has taken an `empty` token and not yet posted `full`. */
  function TruckTokens(s: State): (r: seq<int>)
    ensures |r| == |s.trucks|
  {
    seq(|s.trucks|, i requires 0 <= i < |s.trucks| => TruckToken(s.trucks[i].pc))
  }

  function TruckToken(pc: TruckPc): int {
    if pc.Lock? || pc.Insert? || pc.Unlock? || pc.PostFull? then 1 else 0
  }

  /** Has inserted a product and not yet posted `full`. */
  function TruckStock(s: State): (r: seq<int>)
    ensures |r| == |s.trucks|
  {
    seq(|s.trucks|, i requires 0 <= i < |s.trucks| => TruckStocked(s.trucks[i].pc))
  }

  function TruckStocked(pc: TruckPc): int {
    if pc.Unlock? || pc.PostFull? then 1 else 0
  }

  /** Has taken a `full` token and not yet posted `empty`. */
  function ManagerTokens(s: State): (r: seq<int>)
    ensures |r| == |s.managers|
  {
    seq(|s.managers|, j requires 0 <= j < |s.managers| => ManagerToken(s.managers[j].pc))
  }

  function ManagerToken(pc: ManagerPc): int {
    if pc.Pick? || pc.WaitFull? then 0 else 1
  }

  /** Has taken a `full` token and not yet removed anything for it. */
  function ManagerStock(s: State): (r: seq<int>)
    ensures |r| == |s.managers|
  {
    seq(|s.managers|, j requires 0 <= j < |s.managers| => ManagerStocked(s.managers[j].pc))
  }

  function ManagerStocked(pc: ManagerPc): int {
    if pc.LockShelf? || pc.Remove? then 1 else 0
  }

  predicate TruckLocks(s: State, i: nat)
    requires i < |s.trucks|
  {
    s.mutex == ByTruck(i) <==> s.trucks[i].pc.Insert? || s.trucks[i].pc.Unlock?
  }

  predicate ManagerLocks(s: State, j: nat)
    requires j < |s.managers|
  {
    s.mutex == ByManager(j) <==> s.managers[j].pc.Remove? || s.managers[j].pc.UnlockShelf?
  }

  predicate TruckOk(t: Truck) {
    && 0 <= t.products <= DELIVERY_MAX_PRODUCTS
    && (t.pc.WaitEmpty? || t.pc.Lock? || t.pc.Insert? ==> t.products > 0)
    && (t.pc.Choose? || t.pc.Gone? ==> t.products == 0)
    && (if t.pc.Gone? then t.deliveries == MAX_DELIVERIES else t.deliveries < MAX_DELIVERIES)
  }

  predicate ManagerOk(m: Manager) {
    0 <= m.products <= STORAGE_MAX_PRODUCTS && (m.pc.Pick? || m.products > 0)
  }

  predicate MutexOk(s: State) {
    && (s.mutex.ByTruck? ==> s.mutex.i < |s.trucks|)
    && (s.mutex.ByManager? ==> s.mutex.j < |s.managers|)
    && (forall i: nat | i < |s.trucks| :: TruckLocks(s, i))
    && (forall j: nat | j < |s.managers| :: ManagerLocks(s, j))
  }

  predicate ThreadsOk(s: State) {
    && (forall i: nat | i < |s.trucks| :: TruckOk(s.trucks[i]))
    && (forall j: nat | j < |s.managers| :: ManagerOk(s.managers[j]))
  }

  /** Tokens are conserved, and the stock is covered: by `full` tokens, by trucks yet to post one, and
      by managers yet to remove for theirs. */
  predicate Counted(s: State) {
    && s.empty + s.full + Sum(TruckTokens(s)) + Sum(ManagerTokens(s)) == BUFFER_SIZE
    && s.shelf.count <= s.full + Sum(TruckStock(s)) + Sum(ManagerStock(s))
  }

  /** Products each truck has still to put on the shelf in its current delivery. */
  function Remaining(s: State): (r: seq<int>)
    ensures |r| == |s.trucks|
  {
    seq(|s.trucks|, i requires 0 <= i < |s.trucks| => s.trucks[i].products)
  }

  /** No product is lost or made up. */
  predicate Conserved(s: State) {
    s.ordered == s.delivered + Sum(Remaining(s)) && s.delivered == s.stored + s.shelf.count
  }

  predicate Inv(s: State) {
    ShelfOk(s.shelf) && MutexOk(s) && ThreadsOk(s) && Counted(s) && Conserved(s)
  }

  lemma StartInv(trucks: nat, managers: nat)
    ensures Inv(Start(trucks, managers))
  {
    var s := Start(trucks, managers);
    SumZero(TruckTokens(s));
    SumZero(TruckStock(s));
    SumZero(ManagerTokens(s));
    SumZero(ManagerStock(s));
    SumZero(Remaining(s));
    forall c: nat | c < BUFFER_SIZE ensures CellOk(s.shelf, c) {}
  }

  /** A truck about to insert finds room. */
  lemma RoomToInsert(s: State, i: nat)
    requires Inv(s) && i < |s.trucks| && s.trucks[i].pc.Insert?
    ensures s.shelf.count < BUFFER_SIZE
  {
    SumUpdate(TruckStock(s), i, 1);
    SumMonotone(TruckStock(s)[i := 1], TruckTokens(s));
    SumMonotone(ManagerStock(s), ManagerTokens(s));
  }

  lemma TruckCounts(s: State, i: nat, k: nat)
    requires Inv(s) && i < |s.trucks| && TruckEnabled(s, i, k)
    ensures Counted(TruckNext(s, i, k))
  {
    var t := TruckNext(s, i, k);
    SumOneChange(TruckTokens(s), TruckTokens(t), i);
    SumOneChange(TruckStock(s), TruckStock(t), i);
    assert ManagerTokens(t) == ManagerTokens(s) && ManagerStock(t) == ManagerStock(s);
  }

  lemma ManagerCounts(s: State, j: nat, k: nat)
    requires Inv(s) && j < |s.managers| && ManagerEnabled(s, j, k)
    ensures Counted(ManagerNext(s, j, k))
  {
    var t := ManagerNext(s, j, k);
    SumOneChange(ManagerTokens(s), ManagerTokens(t), j);
    SumOneChange(ManagerStock(s), ManagerStock(t), j);
    assert TruckTokens(t) == TruckTokens(s) && TruckStock(t) == TruckStock(s);
    if s.managers[j].pc.Remove? {
      RemoveKeeps(s.shelf, s.managers[j].products);
      StockNonNegative(t);
    }
  }

  lemma StockNonNegative(s: State)
    ensures Sum(TruckStock(s)) >= 0 && Sum(ManagerStock(s)) >= 0
    ensures Sum(TruckTokens(s)) >= Sum(TruckStock(s)) && Sum(ManagerTokens(s)) >= Sum(ManagerStock(s))
  {
    var z, y := seq(|s.trucks|, i => 0), seq(|s.managers|, i => 0);
    SumZero(z);
    SumZero(y);
    SumMonotone(z, TruckStock(s));
    SumMonotone(y, ManagerStock(s));
    SumMonotone(TruckStock(s), TruckTokens(s));
    SumMonotone(ManagerStock(s), ManagerTokens(s));
  }

  lemma NextConserves(s: State, a: Act)
    requires Inv(s) && Enabled(s, a)
    ensures Conserved(Next(s, a))
  {
    var t := Next(s, a);
    if a.TruckAct? {
      assert TruckOk(s.trucks[a.i]);
      SumOneChange(Remaining(s), Remaining(t), a.i);
    } else {
      assert Remaining(t) == Remaining(s);
    }
  }

  lemma TruckMutex(s: State, i: nat, k: nat)
    requires Inv(s) && i < |s.trucks| && TruckEnabled(s, i, k)
    ensures MutexOk(TruckNext(s, i, k))
  {
    var t := TruckNext(s, i, k);
    assert TruckLocks(s, i);
    forall x: nat | x < |t.trucks| ensures TruckLocks(t, x) {
      assert TruckLocks(s, x);
    }
    forall j: nat | j < |t.managers| ensures ManagerLocks(t, j) {
      assert ManagerLocks(s, j);
    }
  }

  lemma ManagerMutex(s: State, j: nat, k: nat)
    requires Inv(s) && j < |s.managers| && ManagerEnabled(s, j, k)
    ensures MutexOk(ManagerNext(s, j, k))
  {
    var t := ManagerNext(s, j, k);
    assert ManagerLocks(s, j);
    forall i: nat | i < |t.trucks| ensures TruckLocks(t, i) {
      assert TruckLocks(s, i);
    }
    forall x: nat | x < |t.managers| ensures ManagerLocks(t, x) {
      assert ManagerLocks(s, x);
    }
  }

  lemma TruckNextInv(s: State, i: nat, k: nat)
    requires Inv(s) && i < |s.trucks| && TruckEnabled(s, i, k)
    ensures Inv(TruckNext(s, i, k))
  {
    NextConserves(s, TruckAct(i, k));
    TruckCounts(s, i, k);
    TruckMutex(s, i, k);
    if s.trucks[i].pc.Insert? {
      RoomToInsert(s, i);
      InsertKeeps(s.shelf);
    }
  }

  /** In its critical section a manager takes the number of products it chose, or all if there are fewer. */
  lemma ManagerTakes(s: State, j: nat, k: nat)
    requires Inv(s) && j < |s.managers| && s.managers[j].pc.Remove?
    ensures var m, t := s.managers[j].products, ManagerNext(s, j, k);
            && 1 <= m <= 3 && t.shelf.count == (if s.shelf.count > m then s.shelf.count - m else 0)
            && t.stored == s.stored + s.shelf.count - t.shelf.count
  {
    assert ManagerOk(s.managers[j]);
    RemoveKeeps(s.shelf, s.managers[j].products);
  }

  lemma ManagerNextInv(s: State, j: nat, k: nat)
    requires Inv(s) && j < |s.managers| && ManagerEnabled(s, j, k)
    ensures Inv(ManagerNext(s, j, k))
  {
    NextConserves(s, ManagerAct(j, k));
    ManagerCounts(s, j, k);
    ManagerMutex(s, j, k);
    if s.managers[j].pc.Remove? { RemoveKeeps(s.shelf, s.managers[j].products); }
  }

  lemma NextInv(s: State, a: Act)
    requires Inv(s) && Enabled(s, a)
    ensures Inv(Next(s, a))
    ensures |Next(s, a).trucks| == |s.trucks| && |Next(s, a).managers| == |s.managers|
  {
    match a
    case TruckAct(i, k) => TruckNextInv(s, i, k);
    case ManagerAct(j, k) => ManagerNextInv(s, j, k);
  }

  // ----- Progress -----

  predicate TruckIdle(t: Truck) { t.pc.WaitEmpty? || t.pc.Gone? }

  predicate ManagerIdle(m: Manager) { m.pc.WaitFull? }

  /** If every thread waits for a semaphore, no token is in flight and nothing is locked. */
  lemma AllIdle(s: State)
    requires Inv(s)
    requires forall i: nat | i < |s.trucks| :: TruckIdle(s.trucks[i])
    requires forall j: nat | j < |s.managers| :: ManagerIdle(s.managers[j])
    ensures s.empty + s.full == BUFFER_SIZE && s.shelf.count <= s.full && s.mutex == Nobody
  {
    SumZero(TruckTokens(s));
    SumZero(TruckStock(s));
    SumZero(ManagerTokens(s));
    SumZero(ManagerStock(s));
    forall i: nat | i < |s.trucks| ensures s.mutex != ByTruck(i) {
      assert TruckLocks(s, i) && TruckIdle(s.trucks[i]);
    }
    forall j: nat | j < |s.managers| ensures s.mutex != ByManager(j) {
      assert ManagerLocks(s, j) && ManagerIdle(s.managers[j]);
    }
  }

  /** Unless every thread waits for a semaphore, some thread can move. */
  lemma SomeoneBusy(s: State) returns (a: Act)
    requires Inv(s)
    requires (exists i: nat :: i < |s.trucks| && !TruckIdle(s.trucks[i]))
             || (exists j: nat :: j < |s.managers| && !ManagerIdle(s.managers[j]))
    ensures Enabled(s, a)
  {
    if s.mutex.ByTruck? {
      assert TruckLocks(s, s.mutex.i);
      a := TruckAct(s.mutex.i, 1);
    } else if s.mutex.ByManager? {
      assert ManagerLocks(s, s.mutex.j);
      a := ManagerAct(s.mutex.j, 1);
    } else if i: nat :| i < |s.trucks| && !TruckIdle(s.trucks[i]) {
      a := TruckAct(i, 1);
    } else {
      var j: nat :| j < |s.managers| && !ManagerIdle(s.managers[j]);
      a := ManagerAct(j, 1);
    }
  }

  /** With a manager at work no truck is ever stuck: however many products managers take per token,
      some thread can move until every truck has gone. */
  lemma Progress(s: State, i: nat) returns (a: Act)
    requires Inv(s) && |s.managers| > 0 && i < |s.trucks| && !s.trucks[i].pc.Gone?
    ensures Enabled(s, a)
  {
    if (exists i: nat :: i < |s.trucks| && !TruckIdle(s.trucks[i]))
       || (exists j: nat :: j < |s.managers| && !ManagerIdle(s.managers[j])) {
      a := SomeoneBusy(s);
    } else {
      AllIdle(s);
      assert TruckIdle(s.trucks[i]) && ManagerIdle(s.managers[0]);
      a := if s.empty > 0 then TruckAct(i, 1) else ManagerAct(0, 1);
    }
  }

  // ----- Every run ends -----

  /** Most steps still owed by a truck, counting those its products will cost a manager. */
  function TruckWork(t: Truck): int {
    var later := 67 * (MAX_DELIVERIES - 1 - t.deliveries);
    match t.pc
    case Choose => later + 67
    case WaitEmpty => later + 11 * t.products
    case Lock => later + 11 * t.products - 1
    case Insert => later + 11 * t.products - 2
    case Unlock => later + 11 * t.products + 8
    case PostFull => later + 11 * t.products + 7
    case Gone => 0
  }

  function ManagerWork(m: Manager): int {
    match m.pc
    case Pick => 1
    case WaitFull => 0
    case LockShelf => 5
    case Remove => 4
    case UnlockShelf => 3
    case PostEmpty => 2
  }

  function TruckWorks(s: State): seq<int> {
    seq(|s.trucks|, i requires 0 <= i < |s.trucks| => TruckWork(s.trucks[i]))
  }

  function ManagerWorks(s: State): seq<int> {
    seq(|s.managers|, j requires 0 <= j < |s.managers| => ManagerWork(s.managers[j]))
  }

  /** A bound on the steps left: each `full` token lets a manager take six. */
  function Work(s: State): int {
    Sum(TruckWorks(s)) + Sum(ManagerWorks(s)) + 6 * s.full
  }

  lemma TruckStepWork(s: State, i: nat, k: nat)
    requires Inv(s) && i < |s.trucks| && TruckEnabled(s, i, k)
    ensures Work(TruckNext(s, i, k)) < Work(s)
  {
    var t := TruckNext(s, i, k);
    assert TruckOk(s.trucks[i]);
    SumOneChange(TruckWorks(s), TruckWorks(t), i);
    assert ManagerWorks(t) == ManagerWorks(s);
  }

  lemma ManagerStepWork(s: State, j: nat, k: nat)
    requires Inv(s) && j < |s.managers| && ManagerEnabled(s, j, k)
    ensures Work(ManagerNext(s, j, k)) < Work(s)
  {
    var t := ManagerNext(s, j, k);
    SumOneChange(ManagerWorks(s), ManagerWorks(t), j);
    assert TruckWorks(t) == TruckWorks(s);
  }

  lemma NextWork(s: State, a: Act)
    requires Inv(s) && Enabled(s, a)
    ensures Work(Next(s, a)) < Work(s)
  {
    match a
    case TruckAct(i, k) => TruckStepWork(s, i, k);
    case ManagerAct(j, k) => ManagerStepWork(s, j, k);
  }

  lemma WorkLeft(s: State)
    requires Inv(s)
    ensures Work(s) >= 0
  {
    var z, y := seq(|s.trucks|, i => 0), seq(|s.managers|, i => 0);
    SumZero(z);
    SumZero(y);
    forall i: nat | i < |s.trucks| ensures TruckWorks(s)[i] >= z[i] {
      assert TruckOk(s.trucks[i]);
    }
    SumMonotone(z, TruckWorks(s));
    SumMonotone(y, ManagerWorks(s));
  }

  lemma StartWork(trucks: nat, managers: nat)
    ensures Work(Start(trucks, managers)) == 134 * trucks + managers
  {
    SumConstant(TruckWorks(Start(trucks, managers)), 134);
    SumConstant(ManagerWorks(Start(trucks, managers)), 1);
  }

  /** Running the steps of `schedule` from `s`, each of them possible in its turn, ends in `t`. */
  predicate Leads(s: State, schedule: seq<Act>, t: State)
    decreases |schedule|
  {
    if schedule == [] then t == s
    else Shaped(s) && Enabled(s, schedule[0]) && Leads(Next(s, schedule[0]), schedule[1..], t)
  }

  lemma {:induction false} LeadsKeeps(s: State, schedule: seq<Act>, t: State)
    requires Inv(s) && Leads(s, schedule, t)
    ensures Inv(t) && |t.trucks| == |s.trucks| && |t.managers| == |s.managers|
    ensures Work(t) + |schedule| <= Work(s)
    decreases |schedule|
  {
    if schedule != [] {
      NextInv(s, schedule[0]);
      NextWork(s, schedule[0]);
      LeadsKeeps(Next(s, schedule[0]), schedule[1..], t);
    }
  }

  ghost predicate Stuck(s: State) {
    forall a :: !Enabled(s, a)
  }

  /** All deliveries made, every product ordered stored, the warehouse empty again and every manager
      waiting for more. */
  predicate Settled(s: State) {
    && (forall i: nat | i < |s.trucks| :: s.trucks[i].pc.Gone? && s.trucks[i].deliveries == 2)
    && (forall j: nat | j < |s.managers| :: s.managers[j].pc.WaitFull?)
    && s.empty == 25 && s.full == 0 && s.mutex == Nobody && s.shelf.count == 0
    && s.stored == s.delivered == s.ordered
  }

  lemma NothingRemains(s: State)
    requires Inv(s) && forall i: nat | i < |s.trucks| :: s.trucks[i].pc.Gone?
    ensures s.ordered == s.delivered
  {
    forall i: nat | i < |s.trucks| ensures Remaining(s)[i] == 0 {
      assert TruckOk(s.trucks[i]);
    }
    SumZero(Remaining(s));
  }

  lemma StuckIsSettled(s: State)
    requires Inv(s) && Stuck(s) && |s.managers| > 0
    ensures Settled(s)
  {
    if (exists i: nat :: i < |s.trucks| && !TruckIdle(s.trucks[i]))
       || (exists j: nat :: j < |s.managers| && !ManagerIdle(s.managers[j])) {
      var a := SomeoneBusy(s);
      assert false;
    }
    AllIdle(s);
    assert ManagerIdle(s.managers[0]) && !Enabled(s, ManagerAct(0, 1));
    forall i: nat | i < |s.trucks| ensures s.trucks[i].pc.Gone? && s.trucks[i].deliveries == MAX_DELIVERIES {
      assert TruckIdle(s.trucks[i]) && !Enabled(s, TruckAct(i, 1)) && TruckOk(s.trucks[i]);
    }
    NothingRemains(s);
  }

  /** Whatever the interleaving and the random numbers: the stock stays within the warehouse, products
      are conserved, the run is finite, and with a manager at work it can only end with everything delivered and stored. */
  lemma {:induction false} EveryRunEnds(trucks: nat, managers: nat, schedule: seq<Act>, t: State)
    requires Leads(Start(trucks, managers), schedule, t)
    ensures ShelfOk(t.shelf) && 0 <= t.shelf.count <= 25 && Conserved(t)
    ensures |schedule| <= 134 * trucks + managers
    ensures managers > 0 && Stuck(t) ==> Settled(t)
  {
    StartInv(trucks, managers);
    StartWork(trucks, managers);
    LeadsKeeps(Start(trucks, managers), schedule, t);
    WorkLeft(t);
    if managers > 0 && Stuck(t) { StuckIsSettled(t); }
  }

  // ----- The program's shared variables -----

  class Warehouse {
    var buffer: array<int>
    var count: int
    var front: nat
    var rear: nat
    var empty: nat
    var full: nat
    var mutex: Owner
    var trucks: array<Truck>
    var managers: array<Manager>
    ghost var ordered: int
    ghost var delivered: int
    ghost var stored: int

    ghost function Contents(): Shelf
      reads this, buffer
    {
      Shelf(buffer[..], count, front, rear)
    }

    ghost function Abstract(): State
      reads this, buffer, trucks, managers
    {
      State(Contents(), empty, full, mutex, trucks[..], managers[..], ordered, delivered, stored)
    }

    constructor (numTrucks: nat, numManagers: nat)
      ensures Abstract() == Start(numTrucks, numManagers) && Inv(Abstract())
    {
      buffer := new int[BUFFER_SIZE](_ => 0);
      count, front, rear := 0, 0, 0;
      empty, full, mutex := BUFFER_SIZE, 0, Nobody;
      ordered, delivered, stored := 0, 0, 0;
      trucks := new Truck[numTrucks](_ => Truck(Choose, 0, 0));
      managers := new Manager[numManagers](_ => Manager(Pick, 0));
      new;
      StartInv(numTrucks, numManagers);
      ghost var s := Start(numTrucks, numManagers);
      assert buffer[..] == s.shelf.buffer && trucks[..] == s.trucks && managers[..] == s.managers;
    }

    /** The critical section of a truck. */
    method PutProduct()
      requires ShelfOk(Contents()) && count < BUFFER_SIZE
      modifies this`count, this`rear, buffer
      ensures Contents() == InsertOne(old(Contents())) && ShelfOk(Contents())
    {
      ghost var was := Contents();
      InsertKeeps(was);
      buffer[rear] := 1;
      rear := (rear + 1) % BUFFER_SIZE;
      count := count + 1;
      assert buffer[..] == InsertOne(was).buffer;
    }

    method TakeOne()
      requires ShelfOk(Contents()) && count > 0
      modifies this`count, this`front, buffer
      ensures Contents() == RemoveOne(old(Contents())) && ShelfOk(Contents())
    {
      ghost var was := Contents();
      RemoveOneKeeps(was);
      buffer[front] := 0;
      front := (front + 1) % BUFFER_SIZE;
      count := count - 1;
      assert buffer[..] == RemoveOne(was).buffer;
    }

    /** The critical section of a manager. */
    method TakeProducts(products: nat)
      requires ShelfOk(Contents())
      modifies this`count, this`front, buffer
      ensures Contents() == RemoveUpTo(old(Contents()), products) && ShelfOk(Contents())
      ensures count == if old(count) > products then old(count) - products else 0
    {
      ghost var was := Contents();
      RemoveKeeps(was, products);
      if count > 0 {
        var i := 0;
        while i < products && count > 0
          invariant 0 <= i <= products && ShelfOk(Contents())
          invariant RemoveUpTo(Contents(), products - i) == RemoveUpTo(was, products)
        {
          TakeOne();
          i := i + 1;
        }
      }
    }

    /** What a truck's next step changes of its own variables. */
    static method DriveOn(truck: Truck, k: nat) returns (t: Truck)
      requires TruckOk(truck) && !truck.pc.Gone?
      ensures t == TruckMoved(truck, k)
    {
      match truck.pc {
        case Choose => t := truck.(products := k, pc := WaitEmpty);
        case WaitEmpty => t := truck.(pc := Lock);
        case Lock => t := truck.(pc := Insert);
        case Insert => t := truck.(products := truck.products - 1, pc := Unlock);
        case Unlock => t := truck.(pc := PostFull);
        case PostFull =>
          if truck.products > 0 {
            t := truck.(pc := WaitEmpty);
          } else {
            t := truck.(deliveries := truck.deliveries + 1);
            t := t.(pc := if t.deliveries >= MAX_DELIVERIES then Gone else Choose);
          }
      }
    }

    /** What it changes of the shared variables. */
    method ShareTruckStep(i: nat, k: nat)
      requires ShelfOk(Contents()) && i < trucks.Length && !trucks[i].pc.Gone?
      requires TruckEnabled(Abstract(), i, k) && (trucks[i].pc.Insert? ==> count < BUFFER_SIZE)
      modifies this`count, this`rear, this`empty, this`full, this`mutex, this`ordered, this`delivered, buffer
      ensures trucks[..] == old(trucks[..]) && managers[..] == old(managers[..])
      ensures Abstract() == TruckNext(old(Abstract()), i, k).(trucks := old(trucks[..]))
    {
      match trucks[i].pc {
        case Choose => ordered := ordered + k;
        case WaitEmpty => empty := empty - 1;
        case Lock => mutex := ByTruck(i);
        case Insert =>
          PutProduct();
          delivered := delivered + 1;
        case Unlock => mutex := Nobody;
        case PostFull => full := full + 1;
      }
    }

    /** The next step of truck `i`. */
    method MoveTruck(i: nat, k: nat)
      requires Inv(Abstract()) && Enabled(Abstract(), TruckAct(i, k))
      modifies this`count, this`rear, this`empty, this`full, this`mutex, this`ordered, this`delivered, buffer, trucks
      ensures Abstract() == Next(old(Abstract()), TruckAct(i, k)) && Inv(Abstract())
    {
      ghost var s := Abstract();
      NextInv(s, TruckAct(i, k));
      if trucks[i].pc.Insert? { RoomToInsert(s, i); }
      ShareTruckStep(i, k);
      var truck := DriveOn(trucks[i], k);
      trucks[i] := truck;
      assert trucks[..] == s.trucks[i := TruckMoved(s.trucks[i], k)];
      assert managers[..] == s.managers;
    }

    /** What a manager's next step changes of its own variables. */
    static method ManageOn(manager: Manager, k: nat) returns (m: Manager)
      ensures m == ManagerMoved(manager, k)
    {
      match manager.pc {
        case Pick => m := Manager(WaitFull, k);
        case WaitFull => m := manager.(pc := LockShelf);
        case LockShelf => m := manager.(pc := Remove);
        case Remove => m := manager.(pc := UnlockShelf);
        case UnlockShelf => m := manager.(pc := PostEmpty);
        case PostEmpty => m := manager.(pc := Pick);
      }
    }

    /** What the next step of manager `j` changes of the shared variables. */
    method ShareManagerStep(j: nat, k: nat)
      requires ShelfOk(Contents()) && j < managers.Length && managers[j].products >= 0
      requires ManagerEnabled(Abstract(), j, k)
      modifies this`count, this`front, this`empty, this`full, this`mutex, this`stored, buffer
      ensures trucks[..] == old(trucks[..]) && managers[..] == old(managers[..])
      ensures Abstract() == ManagerNext(old(Abstract()), j, k).(managers := old(managers[..]))
    {
      ghost var before := count;
      match managers[j].pc {
        case Pick =>
        case WaitFull => full := full - 1;
        case LockShelf => mutex := ByManager(j);
        case Remove =>
          TakeProducts(managers[j].products);
          stored := stored + before - count;
        case UnlockShelf => mutex := Nobody;
        case PostEmpty => empty := empty + 1;
      }
    }

    /** The next step of manager `j`. */
    method MoveManager(j: nat, k: nat)
      requires Inv(Abstract()) && Enabled(Abstract(), ManagerAct(j, k))
      modifies this`count, this`front, this`empty, this`full, this`mutex, this`stored, buffer, managers
      ensures Abstract() == Next(old(Abstract()), ManagerAct(j, k)) && Inv(Abstract())
      ensures var m := old(managers[j]); m.pc.Remove? ==>
                && count == (if old(count) > m.products then old(count) - m.products else 0)
                && stored == old(stored) + old(count) - count
    {
      ghost var s := Abstract();
      NextInv(s, ManagerAct(j, k));
      if managers[j].pc.Remove? { ManagerTakes(s, j, k); }
      assert ManagerOk(s.managers[j]);
      ShareManagerStep(j, k);
      var manager := ManageOn(managers[j], k);
      managers[j] := manager;
      assert managers[..] == s.managers[j := ManagerMoved(s.managers[j], k)];
      assert trucks[..] == s.trucks;
    }
  }
}
