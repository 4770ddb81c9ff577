/** Two-level demand paging over a sparse physical memory, as a function of its state. */
module Paging {
  import opened MachineTypes

  const ENTRIES := 1024
  const PAGE_SIZE := 4096
  const FRAMES := 0x10_0000 // values of a 20-bit frame number

  datatype Option<T> = None | Some(value: T)

  /** What a 20-bit field can hold. */
  type FrameNumber = f: int | 0 <= f < FRAMES

  datatype Entry = Entry(frameNumber: FrameNumber, valid: bool)

  /** A byte of physical memory that has been stored to. */
  datatype Cell = Cell(address: Word32, value: Byte)

  datatype Memory = Memory(directory: seq<Option<seq<Entry>>>, nextFrame: Word32, cells: seq<Cell>,
                           pageFaults: Word32, pageHits: Word32)

  // ----- Addresses -----

  function PdIndex(va: Word32): (i: nat) ensures i < ENTRIES { va / 0x40_0000 % 0x400 }

  function PtIndex(va: Word32): (i: nat) ensures i < ENTRIES { va / 0x1000 % 0x400 }

  function Offset(va: Word32): (i: nat) ensures i < PAGE_SIZE { va % 0x1000 }

  /** Directory index, table index and offset make up the whole address. */
  lemma AddressParts(va: Word32)
    ensures va == (PdIndex(va) * 1024 + PtIndex(va)) * 4096 + Offset(va)
    ensures PdIndex(va) < 1024 && PtIndex(va) < 1024 && Offset(va) < 4096
  {
    var page := va / 4096;
    assert va == page * 4096 + Offset(va) && page < 0x10_0000;
    PageParts(va, page);
  }

  lemma PageParts(va: Word32, page: nat)
    requires page == va / 4096
    ensures PdIndex(va) == page / 1024 && PtIndex(va) == page % 1024
  {}

  // ----- Operations -----

  predicate Shaped(dir: seq<Option<seq<Entry>>>) {
    |dir| == ENTRIES && forall i | 0 <= i < ENTRIES && dir[i].Some? :: |dir[i].value| == ENTRIES
  }

  predicate Mapped(dir: seq<Option<seq<Entry>>>, pd: nat, pt: nat)
    requires Shaped(dir) && pd < ENTRIES && pt < ENTRIES
  {
    dir[pd].Some? && dir[pd].value[pt].valid
  }

  function NewTable(): (t: seq<Entry>)
    ensures |t| == ENTRIES
  {
    seq(ENTRIES, _ => Entry(0, false))
  }

  /** The table for `pd`, allocated if need be, with entry `pt` mapped to the next frame; the entry
      keeps only 20 bits of the frame number. */
  function MapPage(m: Memory, pd: nat, pt: nat): (m': Memory)
    requires Shaped(m.directory) && pd < ENTRIES && pt < ENTRIES
    ensures Shaped(m'.directory)
  {
    var table := if m.directory[pd].Some? then m.directory[pd].value else NewTable();
    m.(directory := m.directory[pd := Some(table[pt := Entry(m.nextFrame % FRAMES, true)])],
       nextFrame := (m.nextFrame + 1) % 0x1_0000_0000,
       pageFaults := (m.pageFaults + 1) % 0x1_0000_0000)
  }

  /** A fault is counted in any case, but a page already mapped keeps its frame. */
  function PageFault(m: Memory, pd: nat, pt: nat): (m': Memory)
    requires Shaped(m.directory) && pd < ENTRIES && pt < ENTRIES
    ensures Shaped(m'.directory)
  {
    if Mapped(m.directory, pd, pt) then m.(pageFaults := (m.pageFaults + 1) % 0x1_0000_0000) else MapPage(m, pd, pt)
  }

  function WithTable(m: Memory, pd: nat): (m': Memory)
    requires Shaped(m.directory) && pd < ENTRIES
    ensures Shaped(m'.directory) && m'.directory[pd].Some?
  {
    if m.directory[pd].Some? then m else m.(directory := m.directory[pd := Some(NewTable())])
  }

  function Install(m: Memory, pd: nat, pt: nat): (m': Memory)
    requires Shaped(m.directory) && pd < ENTRIES && pt < ENTRIES && m.directory[pd].Some?
    ensures Shaped(m'.directory)
  {
    m.(directory := m.directory[pd := Some(m.directory[pd].value[pt := Entry(m.nextFrame % FRAMES, true)])],
       nextFrame := (m.nextFrame + 1) % 0x1_0000_0000)
  }

  /** The fault in the order the program does it: count, table, frame. */
  lemma PageFaultInParts(m: Memory, pd: nat, pt: nat)
    requires Shaped(m.directory) && pd < ENTRIES && pt < ENTRIES
    ensures var t := WithTable(m.(pageFaults := (m.pageFaults + 1) % 0x1_0000_0000), pd);
            PageFault(m, pd, pt) == if t.directory[pd].value[pt].valid then t else Install(t, pd, pt)
  {
    var t := WithTable(m.(pageFaults := (m.pageFaults + 1) % 0x1_0000_0000), pd);
    if !t.directory[pd].value[pt].valid {
      assert Install(t, pd, pt).directory == MapPage(m, pd, pt).directory;
    }
  }

  function Touch(m: Memory, va: Word32): (m': Memory)
    requires Shaped(m.directory)
    ensures Shaped(m'.directory) && Mapped(m'.directory, PdIndex(va), PtIndex(va))
    ensures m'.cells == m.cells
  {
    if Mapped(m.directory, PdIndex(va), PtIndex(va)) then m.(pageHits := (m.pageHits + 1) % 0x1_0000_0000)
    else PageFault(m, PdIndex(va), PtIndex(va))
  }

  /** The physical address of a mapped virtual address: frame number above, offset below. */
  function Physical(dir: seq<Option<seq<Entry>>>, va: Word32): Word32
    requires Shaped(dir) && Mapped(dir, PdIndex(va), PtIndex(va))
  {
    dir[PdIndex(va)].value[PtIndex(va)].frameNumber * PAGE_SIZE + Offset(va)
  }

  function FindCell(cells: seq<Cell>, pa: int): (i: nat)
    ensures i <= |cells|
    ensures i < |cells| ==> cells[i].address == pa
    ensures forall j | 0 <= j < i :: cells[j].address != pa
  {
    if cells == [] then 0 else if cells[0].address == pa then 0 else 1 + FindCell(cells[1..], pa)
  }

  function ReadCell(cells: seq<Cell>, pa: int): Byte {
    var i := FindCell(cells, pa);
    if i < |cells| then cells[i].value else 0
  }

  function WriteCell(cells: seq<Cell>, pa: Word32, value: Byte): seq<Cell> {
    var i := FindCell(cells, pa);
    if i < |cells| then cells[i := Cell(pa, value)] else [Cell(pa, value)] + cells
  }

  // ----- What every reachable state keeps -----

  function Page(pd: nat, pt: nat): nat { pd * ENTRIES + pt }

  predicate PageMapped(dir: seq<Option<seq<Entry>>>, page: nat)
    requires Shaped(dir) && page < FRAMES
  {
    Mapped(dir, page / ENTRIES, page % ENTRIES)
  }

  function FrameOf(dir: seq<Option<seq<Entry>>>, page: nat): int
    requires Shaped(dir) && page < FRAMES && PageMapped(dir, page)
  {
    dir[page / ENTRIES].value[page % ENTRIES].frameNumber
  }

  /** The mapped pages and the frames they are mapped to. */
  ghost function Frames(dir: seq<Option<seq<Entry>>>): map<int, int>
    requires Shaped(dir)
  {
    map p | 0 <= p < FRAMES && PageMapped(dir, p) :: FrameOf(dir, p)
  }

  /** Every page has its own frame, out of the first `next`, all of which are in use. */
  ghost predicate Numbered(f: map<int, int>, next: int) {
    && |f| == next <= FRAMES
    && (forall p | p in f :: 0 <= p < FRAMES && 0 <= f[p] < next)
    && forall p, q | p in f && q in f && p != q :: f[p] != f[q]
  }

  ghost predicate NoEmptyTable(dir: seq<Option<seq<Entry>>>)
    requires Shaped(dir)
  {
    forall i | 0 <= i < ENTRIES && dir[i].Some? :: exists j :: 0 <= j < ENTRIES && Mapped(dir, i, j)
  }

  /** Frames are handed out once each and never truncated, and bytes have been stored only in frames
      handed out, at one cell each. */
  ghost predicate Inv(m: Memory) {
    && Shaped(m.directory)
    && m.nextFrame == m.pageFaults
    && Numbered(Frames(m.directory), m.nextFrame)
    && NoEmptyTable(m.directory)
    && CellsWithin(m.cells, m.nextFrame * PAGE_SIZE)
  }

  predicate CellsWithin(cells: seq<Cell>, limit: int) {
    && (forall i | 0 <= i < |cells| :: cells[i].address < limit)
    && (forall i, j | 0 <= i < j < |cells| :: cells[i].address != cells[j].address)
  }

  lemma {:induction false} SizeBound(s: set<int>, n: nat)
    requires forall x | x in s :: 0 <= x < n
    ensures |s| <= n
    ensures |s| == n ==> forall x | 0 <= x < n :: x in s
  {
    if n == 0 {
      assert s == {} by { assert forall x :: x !in s; }
    } else {
      SizeBound(s - {n - 1}, n - 1);
      assert n - 1 in s ==> s == s - {n - 1} + {n - 1};
      assert n - 1 !in s ==> s == s - {n - 1};
    }
  }

  lemma MapPageMaps(m: Memory, pd: nat, pt: nat)
    requires Shaped(m.directory) && pd < ENTRIES && pt < ENTRIES && !Mapped(m.directory, pd, pt)
    ensures var dir' := MapPage(m, pd, pt).directory;
            Page(pd, pt) !in Frames(m.directory) && Frames(dir') == Frames(m.directory)[Page(pd, pt) := m.nextFrame % FRAMES]
  {
    var dir, dir' := m.directory, MapPage(m, pd, pt).directory;
    assert Page(pd, pt) / ENTRIES == pd && Page(pd, pt) % ENTRIES == pt;
    forall p | 0 <= p < FRAMES
      ensures p != Page(pd, pt) ==> (PageMapped(dir', p) <==> PageMapped(dir, p))
      ensures p != Page(pd, pt) && PageMapped(dir, p) ==> FrameOf(dir', p) == FrameOf(dir, p)
    {
      assert p == Page(p / ENTRIES, p % ENTRIES);
    }
  }

  /** While a page is unmapped there is an unused frame number below 2^20: there are only 2^20 pages. */
  lemma FrameToSpare(f: map<int, int>, next: int, p: int)
    requires Numbered(f, next) && p !in f && 0 <= p < FRAMES
    ensures next < FRAMES && Numbered(f[p := next], next + 1)
  {
    SizeBound(f.Keys, FRAMES);
    assert |f.Keys| == |f|;
    assert f[p := next].Keys == f.Keys + {p};
  }

  lemma MapPageTables(dir: seq<Option<seq<Entry>>>, dir': seq<Option<seq<Entry>>>, pd: nat, pt: nat)
    requires Shaped(dir) && Shaped(dir') && pd < ENTRIES && pt < ENTRIES && NoEmptyTable(dir)
    requires forall i | 0 <= i < ENTRIES && i != pd :: dir'[i] == dir[i]
    requires Mapped(dir', pd, pt)
    ensures NoEmptyTable(dir')
  {
    forall i | 0 <= i < ENTRIES && dir'[i].Some? ensures exists j :: 0 <= j < ENTRIES && Mapped(dir', i, j) {
      if i == pd {
        assert Mapped(dir', pd, pt);
      } else {
        var j :| 0 <= j < ENTRIES && Mapped(dir, i, j);
        assert Mapped(dir', i, j);
      }
    }
  }

  lemma CellsWithinMore(cells: seq<Cell>, a: int, b: int)
    requires CellsWithin(cells, a) && a <= b
    ensures CellsWithin(cells, b)
  {}

  lemma NoTruncation(n: Word32)
    requires n < FRAMES
    ensures n % FRAMES == n && (n + 1) % 0x1_0000_0000 == n + 1
  {}

  /** A page fault keeps the invariant, and the new entry holds its frame number untruncated. */
  lemma MapPageKeeps(m: Memory, pd: nat, pt: nat, m': Memory)
    requires Inv(m) && pd < ENTRIES && pt < ENTRIES && !Mapped(m.directory, pd, pt) && m' == MapPage(m, pd, pt)
    ensures Inv(m')
    ensures Frames(m'.directory) == Frames(m.directory)[Page(pd, pt) := m.nextFrame]
    ensures Page(pd, pt) !in Frames(m.directory) && m'.nextFrame == m.nextFrame + 1 && m'.pageHits == m.pageHits
  {
    MapPageMaps(m, pd, pt);
    FrameToSpare(Frames(m.directory), m.nextFrame, Page(pd, pt));
    NoTruncation(m.nextFrame);
    MapPageTables(m.directory, m'.directory, pd, pt);
    CellsWithinMore(m.cells, m.nextFrame * PAGE_SIZE, m'.nextFrame * PAGE_SIZE);
  }

  // ----- The memory as a program sees it -----

  /** The byte at a virtual address: 0 if its page was never touched. */
  function Peek(m: Memory, va: Word32): Byte
    requires Shaped(m.directory)
  {
    if Mapped(m.directory, PdIndex(va), PtIndex(va)) then ReadCell(m.cells, Physical(m.directory, va)) else 0
  }

  /** A virtual address is mapped when its page is, and its physical address is in the page's frame. */
  lemma PageOfAddress(dir: seq<Option<seq<Entry>>>, va: Word32)
    requires Shaped(dir)
    ensures Page(PdIndex(va), PtIndex(va)) == va / PAGE_SIZE < FRAMES
    ensures Mapped(dir, PdIndex(va), PtIndex(va)) <==> va / PAGE_SIZE in Frames(dir)
    ensures Mapped(dir, PdIndex(va), PtIndex(va)) ==>
              Physical(dir, va) == Frames(dir)[va / PAGE_SIZE] * PAGE_SIZE + va % PAGE_SIZE
  {
    assert (va / PAGE_SIZE) / ENTRIES == PdIndex(va) && (va / PAGE_SIZE) % ENTRIES == PtIndex(va);
  }

  /** Different virtual addresses never share a physical byte, and no physical address overflows. */
  lemma PhysicalInjective(m: Memory, va: Word32, vb: Word32)
    requires Inv(m)
    requires Mapped(m.directory, PdIndex(va), PtIndex(va)) && Mapped(m.directory, PdIndex(vb), PtIndex(vb))
    ensures 0 <= Physical(m.directory, va) < m.nextFrame * PAGE_SIZE <= 0x1_0000_0000
    ensures Physical(m.directory, va) == Physical(m.directory, vb) ==> va == vb
  {
    PageOfAddress(m.directory, va);
    PageOfAddress(m.directory, vb);
  }

  /** Touching an address keeps the invariant and changes no byte of the program's memory. */
  lemma TouchKeeps(m: Memory, va: Word32, vb: Word32)
    requires Inv(m)
    ensures Inv(Touch(m, va))
    ensures Peek(Touch(m, va), vb) == Peek(m, vb)
  {
    if !Mapped(m.directory, PdIndex(va), PtIndex(va)) {
      var m' := Touch(m, va);
      MapPageKeeps(m, PdIndex(va), PtIndex(va), m');
      PageOfAddress(m.directory, va);
      PageOfAddress(m.directory, vb);
      PageOfAddress(m'.directory, vb);
      if vb / PAGE_SIZE == va / PAGE_SIZE {
        // A frame never used before: nothing is stored in it.
        assert Physical(m'.directory, vb) >= m.nextFrame * PAGE_SIZE;
      }
    }
  }

  function Load(m: Memory, va: Word32): (r: (Memory, Byte))
    requires Shaped(m.directory)
    ensures Shaped(r.0.directory)
  {
    var m' := Touch(m, va);
    (m', ReadCell(m'.cells, Physical(m'.directory, va)))
  }

  function Store(m: Memory, va: Word32, value: Byte): (m': Memory)
    requires Shaped(m.directory)
    ensures Shaped(m'.directory)
  {
    var t := Touch(m, va);
    t.(cells := WriteCell(t.cells, Physical(t.directory, va), value))
  }

  lemma {:induction false} FindSame(cells: seq<Cell>, w: seq<Cell>, q: int)
    requires |w| == |cells| && forall i | 0 <= i < |w| :: w[i].address == cells[i].address
    ensures FindCell(w, q) == FindCell(cells, q)
  {
    if w != [] { FindSame(cells[1..], w[1..], q); }
  }

  lemma ReadAfterWrite(cells: seq<Cell>, pa: Word32, value: Byte, q: int)
    ensures ReadCell(WriteCell(cells, pa, value), q) == if q == pa then value else ReadCell(cells, q)
  {
    var w, i := WriteCell(cells, pa, value), FindCell(cells, pa);
    if i < |cells| {
      FindSame(cells, w, q);
    } else {
      assert w[1..] == cells;
    }
  }

  lemma WriteKeepsAddresses(cells: seq<Cell>, pa: Word32, value: Byte, limit: int)
    requires CellsWithin(cells, limit) && pa < limit
    ensures CellsWithin(WriteCell(cells, pa, value), limit)
  {
    var w := WriteCell(cells, pa, value);
    if FindCell(cells, pa) == |cells| {
      forall i | 0 < i < |w| ensures w[i] == cells[i - 1] {}
    }
  }

  lemma StoreInTouched(t: Memory, va: Word32, value: Byte, vb: Word32, s: Memory)
    requires Inv(t) && Mapped(t.directory, PdIndex(va), PtIndex(va))
    requires s == t.(cells := WriteCell(t.cells, Physical(t.directory, va), value))
    ensures Inv(s)
    ensures Peek(s, vb) == if vb == va then value else Peek(t, vb)
  {
    PhysicalInjective(t, va, va);
    var pa := Physical(t.directory, va);
    WriteKeepsAddresses(t.cells, pa, value, t.nextFrame * PAGE_SIZE);
    if Mapped(t.directory, PdIndex(vb), PtIndex(vb)) {
      PhysicalInjective(t, va, vb);
      ReadAfterWrite(t.cells, pa, value, Physical(t.directory, vb));
    }
  }

  /** A store keeps the invariant and changes the byte it names and no other. */
  lemma StoreKeeps(m: Memory, va: Word32, value: Byte, vb: Word32)
    requires Inv(m)
    ensures Inv(Store(m, va, value))
    ensures Peek(Store(m, va, value), vb) == if vb == va then value else Peek(m, vb)
  {
    TouchKeeps(m, va, vb);
    StoreInTouched(Touch(m, va), va, value, vb, Store(m, va, value));
  }

  // ----- Whole runs -----

  datatype Op = LoadOp(va: Word32) | StoreOp(va: Word32, value: Byte)

  function Start(): Memory {
    Memory(seq(ENTRIES, _ => None), 0, [], 0, 0)
  }

  function Apply(m: Memory, op: Op): (m': Memory)
    requires Shaped(m.directory)
    ensures Shaped(m'.directory)
  {
    match op
    case LoadOp(va) => Load(m, va).0
    case StoreOp(va, value) => Store(m, va, value)
  }

  function Run(ops: seq<Op>): (m: Memory)
    ensures Shaped(m.directory)
  {
    if ops == [] then Start() else Apply(Run(ops[..|ops| - 1]), ops[|ops| - 1])
  }

  /** What flat zero-filled memory would hold: the value of the last store to that very address. */
  function LastStored(ops: seq<Op>, va: Word32): Byte {
    if ops == [] then 0
    else
      match ops[|ops| - 1]
      case LoadOp(_) => LastStored(ops[..|ops| - 1], va)
      case StoreOp(a, value) => if a == va then value else LastStored(ops[..|ops| - 1], va)
  }

  predicate StoresTo(op: Op, va: Word32) {
    op.StoreOp? && op.va == va
  }

  /** Operation `k` is the last to store at `va`. */
  predicate LastStoreAt(ops: seq<Op>, va: Word32, k: nat) {
    k < |ops| && StoresTo(ops[k], va) && forall l | k < l < |ops| :: !StoresTo(ops[l], va)
  }

  predicate NeverStored(ops: seq<Op>, va: Word32) {
    forall l | 0 <= l < |ops| :: !StoresTo(ops[l], va)
  }

  lemma {:induction false} LastStoredIs(ops: seq<Op>, va: Word32)
    ensures forall k: nat | LastStoreAt(ops, va, k) :: LastStored(ops, va) == ops[k].value
    ensures NeverStored(ops, va) ==> LastStored(ops, va) == 0
  {
    if ops != [] {
      var rest := ops[..|ops| - 1];
      LastStoredIs(rest, va);
      forall k: nat | LastStoreAt(ops, va, k) ensures LastStored(ops, va) == ops[k].value {
        if k < |rest| {
          assert !StoresTo(ops[|ops| - 1], va) && LastStoreAt(rest, va, k);
        }
      }
      if NeverStored(ops, va) { assert !StoresTo(ops[|ops| - 1], va) && NeverStored(rest, va); }
    }
  }

  lemma StartInv()
    ensures Inv(Start())
  {
    assert Frames(Start().directory) == map[];
  }

  lemma ApplyKeeps(m: Memory, op: Op, va: Word32)
    requires Inv(m)
    ensures Inv(Apply(m, op))
    ensures Peek(Apply(m, op), va) == if op.StoreOp? && op.va == va then op.value else Peek(m, va)
  {
    match op
    case LoadOp(a) => TouchKeeps(m, a, va);
    case StoreOp(a, value) => StoreKeeps(m, a, value, va);
  }

  lemma {:induction false} RunInv(ops: seq<Op>)
    ensures Inv(Run(ops))
  {
    if ops == [] {
      StartInv();
    } else {
      RunInv(ops[..|ops| - 1]);
      ApplyKeeps(Run(ops[..|ops| - 1]), ops[|ops| - 1], ops[|ops| - 1].va);
    }
  }

  lemma {:induction false} RunPeek(ops: seq<Op>, va: Word32)
    ensures Peek(Run(ops), va) == LastStored(ops, va)
  {
    if ops != [] {
      RunPeek(ops[..|ops| - 1], va);
      RunInv(ops[..|ops| - 1]);
      ApplyKeeps(Run(ops[..|ops| - 1]), ops[|ops| - 1], va);
    }
  }

  /** After any loads and stores, a load returns the value last stored at that address, or 0. */
  lemma {:induction false} RefinesFlatMemory(ops: seq<Op>, va: Word32)
    ensures Load(Run(ops), va).1 == LastStored(ops, va)
  {
    RunPeek(ops, va);
    RunInv(ops);
    TouchKeeps(Run(ops), va, va);
  }

  lemma WrapNext(k: int)
    ensures (k % 0x1_0000_0000 + 1) % 0x1_0000_0000 == (k + 1) % 0x1_0000_0000
  {}

  predicate Tallied(m: Memory, n: nat) {
    m.pageFaults == m.nextFrame <= FRAMES && m.pageHits == (n - m.pageFaults) % 0x1_0000_0000
  }

  lemma TouchTallies(m: Memory, va: Word32, n: nat, m': Memory)
    requires Shaped(m.directory) && Tallied(m, n) && m' == Touch(m, va)
    requires !Mapped(m.directory, PdIndex(va), PtIndex(va)) ==> m.nextFrame < FRAMES
    ensures Tallied(m', n + 1)
  {
    if Mapped(m.directory, PdIndex(va), PtIndex(va)) {
      WrapNext(n - m.pageFaults);
    } else {
      NoTruncation(m.nextFrame);
    }
  }

  lemma SpareFrame(m: Memory, va: Word32)
    requires Inv(m)
    ensures !Mapped(m.directory, PdIndex(va), PtIndex(va)) ==> m.nextFrame < FRAMES
  {
    PageOfAddress(m.directory, va);
    if !Mapped(m.directory, PdIndex(va), PtIndex(va)) {
      FrameToSpare(Frames(m.directory), m.nextFrame, va / PAGE_SIZE);
    }
  }

  lemma ApplyTallies(m: Memory, op: Op, n: nat)
    requires Inv(m) && Tallied(m, n)
    ensures Tallied(Apply(m, op), n + 1)
  {
    SpareFrame(m, op.va);
    TouchTallies(m, op.va, n, Touch(m, op.va));
  }

  /** Each operation counts as one fault or one hit. */
  lemma {:induction false} RunTallies(ops: seq<Op>)
    ensures Tallied(Run(ops), |ops|)
  {
    if ops != [] {
      RunTallies(ops[..|ops| - 1]);
      RunInv(ops[..|ops| - 1]);
      ApplyTallies(Run(ops[..|ops| - 1]), ops[|ops| - 1], |ops| - 1);
    }
  }

  /** The 4 KiB pages that the operations name. */
  function Touched(ops: seq<Op>): set<int> {
    set i | 0 <= i < |ops| :: ops[i].va / 4096
  }

  lemma TouchMaps(m: Memory, va: Word32)
    requires Inv(m)
    ensures Frames(Touch(m, va).directory).Keys == Frames(m.directory).Keys + {va / 4096}
  {
    PageOfAddress(m.directory, va);
    if !Mapped(m.directory, PdIndex(va), PtIndex(va)) {
      MapPageKeeps(m, PdIndex(va), PtIndex(va), Touch(m, va));
    }
  }

  lemma ApplyMaps(m: Memory, op: Op)
    requires Inv(m)
    ensures Frames(Apply(m, op).directory).Keys == Frames(m.directory).Keys + {op.va / 4096}
  {
    TouchMaps(m, op.va);
  }

  lemma TouchedOne(ops: seq<Op>)
    requires ops != []
    ensures Touched(ops) == Touched(ops[..|ops| - 1]) + {ops[|ops| - 1].va / 4096}
  {
    var n := |ops| - 1;
    forall i | 0 <= i < n ensures ops[i].va / 4096 in Touched(ops[..n]) {
      assert ops[..n][i] == ops[i];
    }
  }

  /** The pages mapped are those touched. */
  lemma {:induction false} MappedAreTouched(ops: seq<Op>)
    ensures Frames(Run(ops).directory).Keys == Touched(ops)
  {
    if ops == [] {
      assert Frames(Start().directory) == map[];
    } else {
      var n := |ops| - 1;
      MappedAreTouched(ops[..n]);
      RunInv(ops[..n]);
      ApplyMaps(Run(ops[..n]), ops[n]);
      TouchedOne(ops);
    }
  }

  /** There are as many faults as pages touched, at most 2^20, and each page table allocated has a page
      in use: `tables` of them account for at most as many faults. */
  lemma FaultsArePages(ops: seq<Op>)
    ensures var m := Run(ops);
            && m.pageFaults == |Touched(ops)| == |Frames(m.directory)| <= FRAMES
            && |set i | 0 <= i < ENTRIES && m.directory[i].Some?| <= m.pageFaults
  {
    RunInv(ops);
    MappedAreTouched(ops);
    TablesInUse(Run(ops).directory);
    assert |Frames(Run(ops).directory).Keys| == |Frames(Run(ops).directory)|;
  }

  lemma TablesInUse(dir: seq<Option<seq<Entry>>>)
    requires Shaped(dir) && NoEmptyTable(dir)
    ensures |set i | 0 <= i < ENTRIES && dir[i].Some?| <= |Frames(dir)|
  {
    var tables := set i | 0 <= i < ENTRIES && dir[i].Some?;
    var used := set p | p in Frames(dir) :: TableOf(p);
    forall i | i in tables ensures i in used {
      var j :| 0 <= j < ENTRIES && Mapped(dir, i, j);
      assert Page(i, j) / ENTRIES == i && Page(i, j) % ENTRIES == j;
      assert Page(i, j) in Frames(dir) && TableOf(Page(i, j)) == i;
    }
    ImageSize(Frames(dir).Keys, used);
    assert used == tables + (used - tables);
    assert |Frames(dir).Keys| == |Frames(dir)|;
  }

  /** Pages in at least as many numbers as the tables they are in. */
  lemma {:induction false} ImageSize(s: set<int>, t: set<int>)
    requires t == set p | p in s :: TableOf(p)
    ensures |t| <= |s|
    decreases |s|
  {
    if p :| p in s {
      var rest := set q | q in s - {p} :: TableOf(q);
      ImageSize(s - {p}, rest);
      assert t == rest + {TableOf(p)};
    } else {
      assert t == {} by {
        assert forall x :: x !in t;
      }
    }
  }

  function TableOf(p: int): int { p / ENTRIES }
}
