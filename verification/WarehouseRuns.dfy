/** What the threads of the warehouse have done after a run, in terms of the numbers drawn in it. */
module WarehouseRuns {
  import opened Sums
  import opened WarehouseThreads

  // ----- Each thread's own steps -----

  /** The numbers that went with the steps of truck `i`; only those it drew matter. */
  function TruckSteps(schedule: seq<Act>, i: nat): seq<nat> {
    if schedule == [] then []
    else
      var rest := TruckSteps(schedule[..|schedule| - 1], i);
      match schedule[|schedule| - 1]
      case TruckAct(x, k) => if x == i then rest + [k] else rest
      case ManagerAct(_, _) => rest
  }

  function ManagerSteps(schedule: seq<Act>, j: nat): seq<nat> {
    if schedule == [] then []
    else
      var rest := ManagerSteps(schedule[..|schedule| - 1], j);
      match schedule[|schedule| - 1]
      case TruckAct(_, _) => rest
      case ManagerAct(x, k) => if x == j then rest + [k] else rest
  }

  lemma {:induction false} LastStep(s: State, schedule: seq<Act>, t: State) returns (mid: State)
    requires Leads(s, schedule, t) && schedule != []
    ensures var n := |schedule| - 1;
            && Leads(s, schedule[..n], mid) && Shaped(mid) && Enabled(mid, schedule[n]) && t == Next(mid, schedule[n])
    decreases |schedule|
  {
    var n := |schedule| - 1;
    if n == 0 {
      mid := s;
    } else {
      mid := LastStep(Next(s, schedule[0]), schedule[1..], t);
      assert schedule[1..][..n - 1] == schedule[..n][1..];
    }
  }

  // ----- Where a thread stands after so many steps -----

  function ManagerStage(r: nat): ManagerPc {
    match r
    case 0 => Pick
    case 1 => WaitFull
    case 2 => LockShelf
    case 3 => Remove
    case 4 => UnlockShelf
    case _ => PostEmpty
  }

  /** A manager goes round in six steps, and holds on to the number drawn in the first of them. */
  predicate ManagerAt(ks: seq<nat>, m: Manager) {
    var c := |ks|;
    m.pc == ManagerStage(c % 6) && (c % 6 != 0 ==> 1 <= m.products <= 3 && m.products == ks[c - c % 6])
  }

  lemma ManagerOn(s: State, j: nat, k: nat, ks: seq<nat>)
    requires j < |s.managers| && ManagerEnabled(s, j, k) && ManagerAt(ks, s.managers[j])
    ensures ManagerAt(ks + [k], ManagerMoved(s.managers[j], k))
  {
    var c := |ks|;
    assert (c + 1) % 6 == if c % 6 == 5 then 0 else c % 6 + 1;
  }

  function TruckStage(r: nat): TruckPc {
    match r
    case 0 => WaitEmpty
    case 1 => Lock
    case 2 => Insert
    case 3 => Unlock
    case _ => PostFull
  }

  /** `d` steps into a delivery of `k` products: five steps to a product, which is put down by the third. */
  predicate Carrying(t: Truck, k: nat, d: nat, deliveries: nat) {
    t == Truck(TruckStage(d % 5), k - d / 5 - (if d % 5 >= 3 then 1 else 0), deliveries)
  }

  /** A truck makes two deliveries of the sizes it draws, and is gone. */
  predicate TruckAt(ks: seq<nat>, t: Truck) {
    var c := |ks|;
    if c == 0 then t == Truck(Choose, 0, 0)
    else
      var a := ks[0];
      && 1 <= a <= 6
      && if c <= 5 * a then Carrying(t, a, c - 1, 0)
         else if c == 5 * a + 1 then t == Truck(Choose, 0, 1)
         else
           var b := ks[5 * a + 1];
           && 1 <= b <= 6 && c <= 5 * a + 5 * b + 2
           && if c <= 5 * a + 5 * b + 1 then Carrying(t, b, c - 5 * a - 2, 1) else t == Truck(Gone, 0, 2)
  }

  /** Products drawn for delivery in these steps. */
  function Drawn(ks: seq<nat>): nat {
    if ks == [] then 0 else ks[0] + if |ks| > 5 * ks[0] + 1 then ks[5 * ks[0] + 1] else 0
  }

  lemma CarryOn(t: Truck, k: nat, d: nat, deliveries: nat, x: nat)
    requires Carrying(t, k, d, deliveries) && d < 5 * k && deliveries < 2
    ensures if d + 1 < 5 * k then Carrying(TruckMoved(t, x), k, d + 1, deliveries)
            else TruckMoved(t, x) == Truck(if deliveries == 1 then Gone else Choose, 0, deliveries + 1)
  {
    assert (d + 1) % 5 == if d % 5 == 4 then 0 else d % 5 + 1;
  }

  lemma FirstDelivery(t: Truck, k: nat, ks: seq<nat>)
    requires ks != [] && |ks| <= 5 * ks[0] && TruckAt(ks, t)
    ensures TruckAt(ks + [k], TruckMoved(t, k)) && !t.pc.Choose? && Drawn(ks + [k]) == Drawn(ks)
  {
    CarryOn(t, ks[0], |ks| - 1, 0, k);
  }

  lemma SecondDelivery(t: Truck, k: nat, ks: seq<nat>)
    requires ks != [] && |ks| > 5 * ks[0] + 1 && TruckAt(ks, t) && !t.pc.Gone?
    ensures TruckAt(ks + [k], TruckMoved(t, k)) && !t.pc.Choose? && Drawn(ks + [k]) == Drawn(ks)
  {
    var a := ks[0];
    CarryOn(t, ks[5 * a + 1], |ks| - 5 * a - 2, 1, k);
  }

  lemma TruckOn(s: State, i: nat, k: nat, ks: seq<nat>)
    requires i < |s.trucks| && TruckEnabled(s, i, k) && TruckAt(ks, s.trucks[i])
    ensures TruckAt(ks + [k], TruckMoved(s.trucks[i], k))
    ensures Drawn(ks + [k]) == Drawn(ks) + if s.trucks[i].pc.Choose? then k else 0
  {
    if ks != [] && |ks| <= 5 * ks[0] {
      FirstDelivery(s.trucks[i], k, ks);
    } else if ks != [] && |ks| > 5 * ks[0] + 1 {
      SecondDelivery(s.trucks[i], k, ks);
    }
  }

  // ----- Where all of them stand -----

  function Draws(schedule: seq<Act>, trucks: nat): (r: seq<int>)
    ensures |r| == trucks
  {
    seq(trucks, i requires 0 <= i < trucks => Drawn(TruckSteps(schedule, i)))
  }

  predicate Recorded(schedule: seq<Act>, t: State) {
    && (forall i: nat | i < |t.trucks| :: TruckAt(TruckSteps(schedule, i), t.trucks[i]))
    && (forall j: nat | j < |t.managers| :: ManagerAt(ManagerSteps(schedule, j), t.managers[j]))
    && t.ordered == Sum(Draws(schedule, |t.trucks|))
  }

  lemma RecordTruck(before: seq<Act>, s: State, i: nat, k: nat, schedule: seq<Act>)
    requires Recorded(before, s) && Shaped(s) && i < |s.trucks| && TruckEnabled(s, i, k)
    requires schedule == before + [TruckAct(i, k)]
    ensures Recorded(schedule, TruckNext(s, i, k))
  {
    assert schedule[..|schedule| - 1] == before;
    var t := TruckNext(s, i, k);
    TruckOn(s, i, k, TruckSteps(before, i));
    forall x: nat | x < |t.trucks| ensures TruckAt(TruckSteps(schedule, x), t.trucks[x]) {
      assert TruckAt(TruckSteps(before, x), s.trucks[x]);
    }
    forall j: nat | j < |t.managers| ensures ManagerAt(ManagerSteps(schedule, j), t.managers[j]) {
      assert ManagerAt(ManagerSteps(before, j), s.managers[j]);
    }
    SumOneChange(Draws(before, |t.trucks|), Draws(schedule, |t.trucks|), i);
  }

  lemma RecordManager(before: seq<Act>, s: State, j: nat, k: nat, schedule: seq<Act>)
    requires Recorded(before, s) && Shaped(s) && j < |s.managers| && ManagerEnabled(s, j, k)
    requires schedule == before + [ManagerAct(j, k)]
    ensures Recorded(schedule, ManagerNext(s, j, k))
  {
    assert schedule[..|schedule| - 1] == before;
    var t := ManagerNext(s, j, k);
    ManagerOn(s, j, k, ManagerSteps(before, j));
    forall i: nat | i < |t.trucks| ensures TruckAt(TruckSteps(schedule, i), t.trucks[i]) {
      assert TruckAt(TruckSteps(before, i), s.trucks[i]);
    }
    forall x: nat | x < |t.managers| ensures ManagerAt(ManagerSteps(schedule, x), t.managers[x]) {
      assert ManagerAt(ManagerSteps(before, x), s.managers[x]);
    }
    assert Draws(schedule, |t.trucks|) == Draws(before, |t.trucks|);
  }

  /** After any run each truck and each manager stands where its own steps and draws put it, and the
      products ordered are those drawn. */
  lemma {:induction false} EveryRunRecorded(trucks: nat, managers: nat, schedule: seq<Act>, t: State)
    requires Leads(Start(trucks, managers), schedule, t)
    ensures Recorded(schedule, t) && |t.trucks| == trucks && |t.managers| == managers
    decreases |schedule|
  {
    if schedule == [] {
      SumZero(Draws(schedule, trucks));
    } else {
      var mid := LastStep(Start(trucks, managers), schedule, t);
      var n := |schedule| - 1;
      EveryRunRecorded(trucks, managers, schedule[..n], mid);
      assert schedule == schedule[..n] + [schedule[n]];
      match schedule[n]
      case TruckAct(i, k) => RecordTruck(schedule[..n], mid, i, k, schedule);
      case ManagerAct(j, k) => RecordManager(schedule[..n], mid, j, k, schedule);
    }
  }

  // ----- How long a run is -----

  /** Steps a truck owes for its draws and for the products it holds, counting those they cost a manager. */
  function TruckOwed(t: Truck): int {
    match t.pc
    case Choose => 2 - t.deliveries
    case WaitEmpty => 1 - t.deliveries + 11 * t.products
    case Lock => 1 - t.deliveries + 11 * t.products - 1
    case Insert => 1 - t.deliveries + 11 * t.products - 2
    case Unlock => 1 - t.deliveries + 11 * t.products + 8
    case PostFull => 1 - t.deliveries + 11 * t.products + 7
    case Gone => 0
  }

  function TrucksOwed(s: State): (r: seq<int>)
    ensures |r| == |s.trucks|
  {
    seq(|s.trucks|, i requires 0 <= i < |s.trucks| => TruckOwed(s.trucks[i]))
  }

  function Owed(s: State): int {
    Sum(TrucksOwed(s)) + Sum(ManagerWorks(s)) + 6 * s.full
  }

  lemma OwedOn(t: Truck, k: nat)
    requires TruckOk(t) && !t.pc.Gone?
    ensures var drawn, posted := if t.pc.Choose? then k else 0, if t.pc.PostFull? then 1 else 0;
            TruckOwed(TruckMoved(t, k)) + 6 * posted + 1 == TruckOwed(t) + 11 * drawn
  {}

  lemma OwedByTruck(s: State, i: nat, k: nat)
    requires Inv(s) && i < |s.trucks| && TruckEnabled(s, i, k)
    ensures var t := TruckNext(s, i, k); Owed(t) + 1 == Owed(s) + 11 * (t.ordered - s.ordered)
  {
    var t := TruckNext(s, i, k);
    OwedOn(s.trucks[i], k);
    SumOneChange(TrucksOwed(s), TrucksOwed(t), i);
    assert ManagerWorks(t) == ManagerWorks(s);
  }

  lemma OwedByManager(s: State, j: nat, k: nat)
    requires Inv(s) && j < |s.managers| && ManagerEnabled(s, j, k)
    ensures var t := ManagerNext(s, j, k); Owed(t) + 1 == Owed(s) + 11 * (t.ordered - s.ordered)
  {
    var t := ManagerNext(s, j, k);
    SumOneChange(ManagerWorks(s), ManagerWorks(t), j);
    assert TrucksOwed(t) == TrucksOwed(s);
  }

  lemma {:induction false} LengthOwed(s: State, schedule: seq<Act>, t: State)
    requires Inv(s) && Leads(s, schedule, t)
    ensures Owed(t) + |schedule| == Owed(s) + 11 * (t.ordered - s.ordered)
    decreases |schedule|
  {
    if schedule != [] {
      match schedule[0] {
        case TruckAct(i, k) => OwedByTruck(s, i, k);
        case ManagerAct(j, k) => OwedByManager(s, j, k);
      }
      NextInv(s, schedule[0]);
      LengthOwed(Next(s, schedule[0]), schedule[1..], t);
    }
  }

  /** However the threads interleave, a run that can go no further has taken exactly eleven steps for
      each product, two for each truck and one for each manager. */
  lemma ExactLength(trucks: nat, managers: nat, schedule: seq<Act>, t: State)
    requires Leads(Start(trucks, managers), schedule, t) && Stuck(t) && managers > 0
    ensures |schedule| == 11 * t.stored + 2 * trucks + managers
  {
    var s := Start(trucks, managers);
    StartInv(trucks, managers);
    LengthOwed(s, schedule, t);
    EveryRunEnds(trucks, managers, schedule, t);
    SumConstant(TrucksOwed(s), 2);
    SumConstant(ManagerWorks(s), 1);
    SumZero(TrucksOwed(t));
    SumZero(ManagerWorks(t));
  }

  // ----- What a run stores -----

  /** Of the steps of a truck that has gone the first and the one after its first delivery drew the two
      numbers, and each product cost it five. */
  predicate MadeTwo(ks: seq<nat>, a: nat, b: nat) {
    |ks| == 5 * a + 5 * b + 2 && 1 <= a <= 6 && 1 <= b <= 6 && ks[0] == a && ks[5 * a + 1] == b
  }

  /** With a manager at work a run that can go no further has stored, for each truck, exactly the two
      numbers of products it drew. */
  lemma StoredIsDrawn(trucks: nat, managers: nat, schedule: seq<Act>, t: State) returns (first: seq<int>, second: seq<int>)
    requires Leads(Start(trucks, managers), schedule, t) && Stuck(t) && managers > 0
    ensures |first| == |second| == trucks
    ensures forall i | 0 <= i < trucks :: first[i] > 0 && second[i] > 0 && MadeTwo(TruckSteps(schedule, i), first[i], second[i])
    ensures t.stored == Sum(first) + Sum(second) && t.shelf.count == 0
  {
    EveryRunEnds(trucks, managers, schedule, t);
    EveryRunRecorded(trucks, managers, schedule, t);
    first := seq(trucks, i requires 0 <= i < trucks => if TruckSteps(schedule, i) == [] then 0 else TruckSteps(schedule, i)[0]);
    second := seq(trucks, i requires 0 <= i < trucks => Drawn(TruckSteps(schedule, i)) - first[i]);
    forall i | 0 <= i < trucks
      ensures first[i] > 0 && second[i] > 0 && MadeTwo(TruckSteps(schedule, i), first[i], second[i])
    {
      assert TruckAt(TruckSteps(schedule, i), t.trucks[i]) && t.trucks[i].pc.Gone?;
    }
    SumAdd(first, second, Draws(schedule, trucks));
  }

  // ----- Every draw can happen -----

  /** The two numbers each truck draws, and the one each manager always draws. */
  datatype Luck = Luck(first: seq<nat>, second: seq<nat>, takes: seq<nat>)

  predicate Drawable(d: Luck) {
    && |d.first| == |d.second| && (forall i | 0 <= i < |d.first| :: 1 <= d.first[i] <= 6 && 1 <= d.second[i] <= 6)
    && forall j | 0 <= j < |d.takes| :: 1 <= d.takes[j] <= 3
  }

  /** A truck has drawn `a` and `b`, as far as it has come. */
  predicate DrewAs(ks: seq<nat>, a: nat, b: nat) {
    && (|ks| > 0 ==> ks[0] == a)
    && (|ks| > 5 * a + 1 ==> ks[5 * a + 1] == b)
  }

  /** A manager has drawn `take` every time. */
  predicate TookAs(ks: seq<nat>, take: nat) {
    forall c | 0 <= c < |ks| && c % 6 == 0 :: ks[c] == take
  }

  predicate DrawsFollow(schedule: seq<Act>, d: Luck)
    requires |d.first| == |d.second|
  {
    && (forall i: nat | i < |d.first| :: DrewAs(TruckSteps(schedule, i), d.first[i], d.second[i]))
    && forall j: nat | j < |d.takes| :: TookAs(ManagerSteps(schedule, j), d.takes[j])
  }

  predicate Following(schedule: seq<Act>, t: State, d: Luck) {
    && Drawable(d) && DrawsFollow(schedule, d)
    && Leads(Start(|d.first|, |d.takes|), schedule, t) && Inv(t)
  }

  lemma {:induction false} LeadsOn(s: State, schedule: seq<Act>, t: State, a: Act)
    requires Leads(s, schedule, t) && Shaped(t) && Enabled(t, a)
    ensures Leads(s, schedule + [a], Next(t, a))
    decreases |schedule|
  {
    if schedule == [] {
      assert [a][1..] == [];
    } else {
      LeadsOn(Next(s, schedule[0]), schedule[1..], t, a);
      assert (schedule + [a])[1..] == schedule[1..] + [a];
    }
  }

  lemma DrewOn(t: Truck, ks: seq<nat>, k: nat, a: nat, b: nat)
    requires TruckAt(ks, t) && DrewAs(ks, a, b) && (t.pc.Choose? ==> k == if t.deliveries == 0 then a else b)
    ensures DrewAs(ks + [k], a, b)
  {}

  lemma TookOn(m: Manager, ks: seq<nat>, k: nat, take: nat)
    requires ManagerAt(ks, m) && TookAs(ks, take) && (m.pc.Pick? ==> k == take)
    ensures TookAs(ks + [k], take)
  {}

  lemma StillFollows(s: State, schedule: seq<Act>, a: Act, d: Luck)
    requires Recorded(schedule, s) && |s.trucks| == |d.first| == |d.second| && |s.managers| == |d.takes|
    requires DrawsFollow(schedule, d) && Enabled(s, a)
    requires match a
             case TruckAct(i, k) =>
               s.trucks[i].pc.Choose? ==> k == if s.trucks[i].deliveries == 0 then d.first[i] else d.second[i]
             case ManagerAct(j, k) => s.managers[j].pc.Pick? ==> k == d.takes[j]
    ensures DrawsFollow(schedule + [a], d)
  {
    assert (schedule + [a])[..|schedule|] == schedule;
    match a {
      case TruckAct(i, k) => DrewOn(s.trucks[i], TruckSteps(schedule, i), k, d.first[i], d.second[i]);
      case ManagerAct(j, k) => TookOn(s.managers[j], ManagerSteps(schedule, j), k, d.takes[j]);
    }
    forall i: nat | i < |d.first| ensures DrewAs(TruckSteps(schedule + [a], i), d.first[i], d.second[i]) {
      assert DrewAs(TruckSteps(schedule, i), d.first[i], d.second[i]);
    }
    forall j: nat | j < |d.takes| ensures TookAs(ManagerSteps(schedule + [a], j), d.takes[j]) {
      assert TookAs(ManagerSteps(schedule, j), d.takes[j]);
    }
  }

  /** Some possible step, drawing what is to be drawn. */
  lemma Wanted(s: State, schedule: seq<Act>, d: Luck) returns (a: Act)
    requires Inv(s) && !Stuck(s) && Recorded(schedule, s)
    requires |s.trucks| == |d.first| && |s.managers| == |d.takes| && Drawable(d) && DrawsFollow(schedule, d)
    ensures Enabled(s, a) && DrawsFollow(schedule + [a], d)
  {
    a :| Enabled(s, a);
    if a.TruckAct? && s.trucks[a.i].pc.Choose? {
      a := TruckAct(a.i, if s.trucks[a.i].deliveries == 0 then d.first[a.i] else d.second[a.i]);
    } else if a.ManagerAct? && s.managers[a.j].pc.Pick? {
      a := ManagerAct(a.j, d.takes[a.j]);
    }
    StillFollows(s, schedule, a, d);
  }

  lemma Follow(schedule: seq<Act>, t: State, d: Luck) returns (schedule': seq<Act>, t': State)
    requires Following(schedule, t, d) && !Stuck(t)
    ensures Following(schedule', t', d) && Work(t') < Work(t)
  {
    EveryRunRecorded(|d.first|, |d.takes|, schedule, t);
    var a := Wanted(t, schedule, d);
    LeadsOn(Start(|d.first|, |d.takes|), schedule, t, a);
    NextInv(t, a);
    NextWork(t, a);
    schedule', t' := schedule + [a], Next(t, a);
  }

  lemma FollowNone(d: Luck)
    requires Drawable(d)
    ensures Following([], Start(|d.first|, |d.takes|), d)
  {
    StartInv(|d.first|, |d.takes|);
  }

  lemma BothDrawn(t: Truck, ks: seq<nat>, a: nat, b: nat)
    requires TruckAt(ks, t) && t.pc.Gone? && DrewAs(ks, a, b)
    ensures MadeTwo(ks, a, b)
  {}

  lemma FollowAll(schedule: seq<Act>, t: State, d: Luck)
    requires Following(schedule, t, d) && Stuck(t) && |d.takes| > 0
    ensures Leads(Start(|d.first|, |d.takes|), schedule, t) && Settled(t)
    ensures forall i: nat | i < |d.first| :: MadeTwo(TruckSteps(schedule, i), d.first[i], d.second[i])
    ensures forall j: nat | j < |d.takes| :: TookAs(ManagerSteps(schedule, j), d.takes[j])
  {
    EveryRunRecorded(|d.first|, |d.takes|, schedule, t);
    EveryRunEnds(|d.first|, |d.takes|, schedule, t);
    forall i: nat | i < |d.first| ensures MadeTwo(TruckSteps(schedule, i), d.first[i], d.second[i]) {
      assert DrewAs(TruckSteps(schedule, i), d.first[i], d.second[i]);
      BothDrawn(t.trucks[i], TruckSteps(schedule, i), d.first[i], d.second[i]);
    }
  }

  /** Whatever two numbers each truck draws, and whatever number each manager keeps drawing, with a
      manager at work there is a run in which all the trucks bring is stored. */
  lemma AnyDrawsStored(d: Luck) returns (schedule: seq<Act>, t: State)
    requires Drawable(d) && |d.takes| > 0
    ensures Leads(Start(|d.first|, |d.takes|), schedule, t) && Stuck(t) && Settled(t)
    ensures forall i: nat | i < |d.first| :: MadeTwo(TruckSteps(schedule, i), d.first[i], d.second[i])
    ensures forall j: nat | j < |d.takes| :: TookAs(ManagerSteps(schedule, j), d.takes[j])
  {
    schedule, t := [], Start(|d.first|, |d.takes|);
    FollowNone(d);
    while !Stuck(t)
      invariant Following(schedule, t, d)
      decreases Work(t)
    {
      WorkLeft(t);
      schedule, t := Follow(schedule, t, d);
    }
    FollowAll(schedule, t, d);
  }
}
