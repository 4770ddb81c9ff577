/** CLOCK page replacement: a circular hand over frames with reference bits. */
module ClockReplacement {
  import opened MachineTypes

  /** -1 as an 8-bit unsigned page number: what an empty frame holds. */
  const NO_PAGE: Byte := 255

  datatype Frame = Frame(page: Byte, referenced: bool, dirty: bool)

  datatype State = State(memory: seq<Frame>, hand: nat)

  // ----- The algorithm as a function of the state -----

  function Empty(n: nat): State {
    State(seq(n, _ => Frame(NO_PAGE, false, false)), 0)
  }

  function Next(n: nat, h: nat): nat
    requires h < n
  {
    if h + 1 == n then 0 else h + 1
  }

  predicate Resident(m: seq<Frame>, page: Byte) {
    exists i :: 0 <= i < |m| && m[i].page == page
  }

  /** Position of the first frame holding the page. */
  function Find(m: seq<Frame>, page: Byte): (i: nat)
    ensures i <= |m|
    ensures i < |m| ==> m[i].page == page
    ensures forall j | 0 <= j < i :: m[j].page != page
    ensures i == |m| <==> !Resident(m, page)
  {
    if m == [] then 0
    else
      var i := Find(m[..|m| - 1], page);
      if i < |m| - 1 then i
      else if m[|m| - 1].page == page then |m| - 1 else |m|
  }

  /** Frames the hand has yet to look at before it is back at `start`. */
  function Ahead(n: nat, h: nat, start: nat): nat
    requires h < n && start < n
  {
    if h < start then start - h else n - (h - start)
  }

  /** The hand gives up one bit of each frame it passes, and stops at a frame with neither bit set
      or, failing that, back where it started. */
  function Sweep(m: seq<Frame>, h: nat, start: nat): (r: (seq<Frame>, nat))
    requires h < |m| && start < |m|
    ensures |r.0| == |m| && r.1 < |m|
    decreases Ahead(|m|, h, start)
  {
    if !m[h].referenced && !m[h].dirty then (m, h)
    else
      var m' := m[h := if m[h].referenced then m[h].(referenced := false) else m[h].(dirty := false)];
      var h' := Next(|m|, h);
      if h' == start then (m', h') else Sweep(m', h', start)
  }

  predicate Valid(s: State) {
    s.hand < |s.memory|
  }

  function Request(s: State, page: Byte): (t: State)
    requires Valid(s)
    ensures Valid(t) && |t.memory| == |s.memory|
  {
    var i := Find(s.memory, page);
    if i < |s.memory| then s.(memory := s.memory[i := s.memory[i].(referenced := true)])
    else
      var (m, v) := Sweep(s.memory, s.hand, s.hand);
      State(m[v := Frame(page, true, false)], Next(|m|, v))
  }

  // ----- The program's state and its operations -----

  class Clock {
    var memory: array<Frame>
    var clockHand: nat
    var totalFaults: nat
    var totalHits: nat

    ghost predicate Ok()
      reads this, memory
    {
      clockHand < memory.Length
    }

    ghost function Abstract(): State
      reads this, memory
    {
      State(memory[..], clockHand)
    }

    constructor (numFrames: nat)
      requires numFrames > 0
      ensures Ok() && fresh(memory) && Abstract() == Empty(numFrames)
      ensures totalFaults == totalHits == 0
    {
      memory := new Frame[numFrames](_ => Frame(NO_PAGE, false, false));
      clockHand, totalFaults, totalHits := 0, 0, 0;
      new;
      assert memory[..] == Empty(numFrames).memory;
    }

    method IsPageInMemory(page: Byte) returns (found: bool)
      ensures found <==> Resident(memory[..], page)
    {
      for i := 0 to memory.Length
        invariant forall j | 0 <= j < i :: memory[j].page != page
      {
        if memory[i].page == page {
          assert memory[..][i].page == page;
          return true;
        }
      }
      return false;
    }

    /** The 8-bit page number is compared with -1 as an int, so no frame is ever found empty. */
    method FindEmptyFrame() returns (frame: int)
      ensures frame == -1
    {
      for i := 0 to memory.Length {
        if memory[i].page == -1 {
          return i;
        }
      }
      return -1;
    }

    method ClockAlgorithm() returns (victim: nat)
      requires Ok()
      modifies this`clockHand, memory
      ensures Ok() && victim < memory.Length
      ensures (memory[..], victim) == Sweep(old(memory[..]), old(clockHand), old(clockHand))
      ensures clockHand == Next(memory.Length, victim)
    {
      ghost var target := Sweep(memory[..], clockHand, clockHand);
      var startHand := clockHand;
      while true
        invariant Ok() && startHand < memory.Length
        invariant Sweep(memory[..], clockHand, startHand) == target
        decreases Ahead(memory.Length, clockHand, startHand)
      {
        ghost var was := memory[..];
        NextIsModulo(memory.Length, clockHand);
        if !memory[clockHand].referenced {
          if !memory[clockHand].dirty {
            victim := clockHand;
            clockHand := (clockHand + 1) % memory.Length;
            return;
          } else {
            memory[clockHand] := memory[clockHand].(dirty := false);
          }
        } else {
          memory[clockHand] := memory[clockHand].(referenced := false);
        }
        assert memory[..] == was[clockHand := memory[clockHand]];
        clockHand := (clockHand + 1) % memory.Length;
        if clockHand == startHand {
          victim := clockHand;
          NextIsModulo(memory.Length, clockHand);
          clockHand := (clockHand + 1) % memory.Length;
          return;
        }
      }
    }

    method HandlePageRequest(page: Byte)
      requires Ok()
      modifies this`clockHand, this`totalFaults, this`totalHits, memory
      ensures Ok() && Abstract() == Request(old(Abstract()), page)
      ensures totalFaults == old(totalFaults) + if Resident(old(memory[..]), page) then 0 else 1
      ensures totalHits == old(totalHits) + if Resident(old(memory[..]), page) then 1 else 0
    {
      ghost var was := memory[..];
      var found := IsPageInMemory(page);
      if found {
        totalHits := totalHits + 1;
        var i := 0;
        while i < memory.Length
          invariant i <= Find(was, page) && memory[..] == was
        {
          if memory[i].page == page {
            memory[i] := memory[i].(referenced := true);
            assert i == Find(was, page);
            assert memory[..] == was[i := was[i].(referenced := true)];
            break;
          }
          i := i + 1;
        }
      } else {
        totalFaults := totalFaults + 1;
        var frame := FindEmptyFrame();
        if frame == -1 {
          frame := ClockAlgorithm();
        }
        ghost var swept := memory[..];
        memory[frame] := Frame(page, true, false);
        assert memory[..] == swept[frame := Frame(page, true, false)];
      }
    }
  }

  lemma NextIsModulo(n: nat, h: nat)
    requires h < n
    ensures (h + 1) % n == Next(n, h)
  {
    if h + 1 < n { assert (h + 1) % n == h + 1; }
  }
}
