/** The same memory as the program keeps it: a directory of lazily allocated tables and a linked list of
    the bytes stored to, both updated in place. */
module Mmu {
  import opened MachineTypes
  import opened Paging

  class Node {
    var address: Word32
    var value: Byte
    var next: Node?

    constructor (address: Word32, value: Byte, next: Node?)
      ensures this.address == address && this.value == value && this.next == next
    {
      this.address, this.value, this.next := address, value, next;
    }
  }

  class Unit {
    var pageDirectory: array<array?<Entry>>
    var physicalMemory: Node?
    var nextFrame: Word32
    var pageFaults: Word32
    var pageHits: Word32
    ghost var nodes: seq<Node>
    ghost var Repr: set<object>

    ghost predicate Valid()
      reads this, Repr
    {
      && this in Repr
      && TablesOk()
      && ListOk()
    }

    ghost predicate TablesOk()
      reads this, Repr
    {
      && pageDirectory in Repr && pageDirectory.Length == ENTRIES
      && (forall i | 0 <= i < ENTRIES && pageDirectory[i] != null ::
            pageDirectory[i] in Repr && pageDirectory[i].Length == ENTRIES)
      && (forall i, j | 0 <= i < j < ENTRIES && pageDirectory[i] != null :: pageDirectory[i] != pageDirectory[j])
    }

    /** The list runs through `nodes` in order, each node once. */
    ghost predicate ListOk()
      reads this, Repr
    {
      && (forall i | 0 <= i < |nodes| :: nodes[i] in Repr)
      && (forall i, j | 0 <= i < j < |nodes| :: nodes[i] != nodes[j])
      && physicalMemory == NodeAt(0)
      && (forall i | 0 <= i < |nodes| :: nodes[i].next == NodeAt(i + 1))
    }

    ghost function NodeAt(i: nat): Node?
      reads this
    {
      if i < |nodes| then nodes[i] else null
    }

    ghost function Directory(): (dir: seq<Option<seq<Entry>>>)
      requires TablesOk()
      reads this, Repr
      ensures Shaped(dir)
    {
      seq(ENTRIES, i requires 0 <= i < ENTRIES && TablesOk() reads this, Repr =>
        if pageDirectory[i] == null then None else Some(pageDirectory[i][..]))
    }

    ghost function Cells(): seq<Cell>
      requires ListOk()
      reads this, Repr
    {
      seq(|nodes|, i requires 0 <= i < |nodes| && ListOk() reads this, Repr => Cell(nodes[i].address, nodes[i].value))
    }

    ghost function Abstract(): (m: Memory)
      requires Valid()
      reads this, Repr
      ensures Shaped(m.directory)
    {
      Memory(Directory(), nextFrame, Cells(), pageFaults, pageHits)
    }

    constructor ()
      ensures Valid() && fresh(Repr) && Abstract() == Start()
    {
      pageDirectory := new array?<Entry>[ENTRIES](_ => null);
      physicalMemory := null;
      nextFrame, pageFaults, pageHits := 0, 0, 0;
      nodes := [];
      new;
      Repr := {this, pageDirectory};
    }

    method AllocateFrame() returns (frame: Word32)
      requires Valid()
      modifies this`nextFrame
      ensures Valid() && frame == old(nextFrame)
      ensures Abstract() == old(Abstract()).(nextFrame := (frame + 1) % 0x1_0000_0000)
    {
      ghost var dir, cells := Directory(), Cells();
      frame := nextFrame;
      nextFrame := (nextFrame + 1) % 0x1_0000_0000;
      assert TablesOk() && ListOk();
      assert Directory() == dir && Cells() == cells;
    }

    /** Gives directory entry `pdIndex` an empty table. */
    method AllocateTable(pdIndex: nat)
      requires Valid() && pdIndex < ENTRIES && pageDirectory[pdIndex] == null
      modifies this`Repr, pageDirectory
      ensures Valid() && fresh(Repr - old(Repr)) && pageDirectory[pdIndex] != null && pageDirectory == old(pageDirectory)
      ensures Abstract() == WithTable(old(Abstract()), pdIndex)
    {
      var table := new Entry[ENTRIES](_ => Entry(0, false));
      assert table[..] == NewTable();
      PutTable(pdIndex, table);
    }

    method PutTable(pdIndex: nat, table: array<Entry>)
      requires Valid() && pdIndex < ENTRIES && pageDirectory[pdIndex] == null
      requires table !in Repr && table.Length == ENTRIES && table[..] == NewTable()
      modifies this`Repr, pageDirectory
      ensures Valid() && Repr == old(Repr) + {table} && pageDirectory == old(pageDirectory) && pageDirectory[pdIndex] == table
      ensures Abstract() == WithTable(old(Abstract()), pdIndex)
    {
      ghost var dir, cells := Directory(), Cells();
      pageDirectory[pdIndex] := table;
      Repr := Repr + {table};
      assert TablesOk() && ListOk();
      assert Directory() == dir[pdIndex := Some(NewTable())];
      assert Cells() == cells;
    }

    /** Overwrites entry `ptIndex` of the table at `pdIndex`. */
    method SetEntry(pdIndex: nat, ptIndex: nat, table: array<Entry>, entry: Entry)
      requires Valid() && pdIndex < ENTRIES && ptIndex < ENTRIES && pageDirectory[pdIndex] == table
      modifies table
      ensures Valid() && old(Directory())[pdIndex].Some?
      ensures var dir := old(Directory());
              Abstract() == old(Abstract()).(directory := dir[pdIndex := Some(dir[pdIndex].value[ptIndex := entry])])
    {
      ghost var dir, cells, was := Directory(), Cells(), table[..];
      table[ptIndex] := entry;
      assert TablesOk() && ListOk();
      assert table[..] == was[ptIndex := entry];
      assert Directory() == dir[pdIndex := Some(was[ptIndex := entry])];
      assert Cells() == cells;
    }

    method CountFault()
      requires Valid()
      modifies this`pageFaults
      ensures Valid() && Abstract() == old(Abstract()).(pageFaults := (old(pageFaults) + 1) % 0x1_0000_0000)
    {
      ghost var dir, cells := Directory(), Cells();
      pageFaults := (pageFaults + 1) % 0x1_0000_0000;
      assert TablesOk() && ListOk();
      assert Directory() == dir && Cells() == cells;
    }

    method InstallFrame(pdIndex: nat, ptIndex: nat, table: array<Entry>)
      requires Valid() && pdIndex < ENTRIES && ptIndex < ENTRIES && pageDirectory[pdIndex] == table
      modifies this`nextFrame, table
      ensures Valid() && old(Directory())[pdIndex].Some? && Abstract() == Install(old(Abstract()), pdIndex, ptIndex)
    {
      var frame := AllocateFrame();
      SetEntry(pdIndex, ptIndex, table, Entry(frame % FRAMES, true));
    }

    method HandlePageFault(pdIndex: nat, ptIndex: nat)
      requires Valid() && pdIndex < ENTRIES && ptIndex < ENTRIES
      modifies Repr
      ensures Valid() && fresh(Repr - old(Repr))
      ensures Abstract() == PageFault(old(Abstract()), pdIndex, ptIndex)
    {
      PageFaultInParts(Abstract(), pdIndex, ptIndex);
      CountFault();
      if pageDirectory[pdIndex] == null {
        AllocateTable(pdIndex);
      }
      var table := pageDirectory[pdIndex];
      assert Directory()[pdIndex] == Some(table[..]);
      if !table[ptIndex].valid {
        InstallFrame(pdIndex, ptIndex, table);
      }
    }

    method TranslateAddress(va: Word32) returns (pa: Word32)
      requires Valid()
      modifies Repr
      ensures Valid() && fresh(Repr - old(Repr))
      ensures Abstract() == Touch(old(Abstract()), va) && pa == Physical(Directory(), va)
    {
      var pdIndex, ptIndex, offset := PdIndex(va), PtIndex(va), Offset(va);
      var table := pageDirectory[pdIndex];
      if table == null || !table[ptIndex].valid {
        HandlePageFault(pdIndex, ptIndex);
      } else {
        pageHits := (pageHits + 1) % 0x1_0000_0000;
      }
      assert Mapped(Directory(), pdIndex, ptIndex);
      table := pageDirectory[pdIndex];
      pa := table[ptIndex].frameNumber * PAGE_SIZE + offset;
    }

    /** The walk down the list that loads and stores begin with. */
    method FindNode(pa: Word32) returns (current: Node?, ghost i: nat)
      requires Valid()
      ensures current == NodeAt(FindCell(Cells(), pa)) && i == FindCell(Cells(), pa)
    {
      current, i := physicalMemory, 0;
      while current != null
        invariant 0 <= i <= |nodes| && current == NodeAt(i)
        invariant i <= FindCell(Cells(), pa)
        decreases |nodes| - i
      {
        assert Cells()[i] == Cell(current.address, current.value);
        if current.address == pa {
          return;
        }
        current := current.next;
        i := i + 1;
      }
    }

    method Load(va: Word32) returns (value: Byte)
      requires Valid()
      modifies Repr
      ensures Valid() && fresh(Repr - old(Repr))
      ensures (Abstract(), value) == Paging.Load(old(Abstract()), va)
    {
      var pa := TranslateAddress(va);
      var current, i := FindNode(pa);
      if current != null {
        assert Cells()[i] == Cell(current.address, current.value);
        return current.value;
      }
      return 0;
    }

    /** Overwrites the byte in a node of the list. */
    method Overwrite(current: Node, ghost i: nat, value: Byte)
      requires Valid() && i < |nodes| && nodes[i] == current
      modifies current`value
      ensures Valid() && Abstract() == old(Abstract()).(cells := old(Cells())[i := Cell(current.address, value)])
    {
      ghost var cells := Cells();
      ghost var dir := Directory();
      current.value := value;
      assert TablesOk() && ListOk();
      assert Directory() == dir;
      assert Cells() == cells[i := Cell(current.address, value)];
    }

    /** Puts a new node at the head of the list. */
    method Push(pa: Word32, value: Byte)
      requires Valid()
      modifies this`physicalMemory, this`nodes, this`Repr
      ensures Valid() && fresh(Repr - old(Repr))
      ensures Abstract() == old(Abstract()).(cells := [Cell(pa, value)] + old(Cells()))
    {
      var newNode := new Node(pa, value, physicalMemory);
      Link(newNode);
    }

    method Link(newNode: Node)
      requires Valid() && newNode !in Repr && newNode.next == physicalMemory
      modifies this`physicalMemory, this`nodes, this`Repr
      ensures Valid() && Repr == old(Repr) + {newNode}
      ensures Abstract() == old(Abstract()).(cells := [Cell(newNode.address, newNode.value)] + old(Cells()))
    {
      ghost var cells := Cells();
      ghost var dir := Directory();
      physicalMemory := newNode;
      nodes := [newNode] + nodes;
      Repr := Repr + {newNode};
      assert TablesOk() && ListOk();
      assert Directory() == dir;
      assert Cells() == [Cell(newNode.address, newNode.value)] + cells;
    }

    method Store(va: Word32, value: Byte)
      requires Valid()
      modifies Repr
      ensures Valid() && fresh(Repr - old(Repr))
      ensures Abstract() == Paging.Store(old(Abstract()), va, value)
    {
      var pa := TranslateAddress(va);
      var current, i := FindNode(pa);
      if current != null {
        assert Cells()[i].address == current.address;
        Overwrite(current, i, value);
      } else {
        Push(pa, value);
      }
    }
  }

  /** What the prompt prints for the i-th operation: a load shows what flat zero-filled memory would
      hold at that address, a store the value stored. */
  function Expected(ops: seq<Op>, i: nat): Byte
    requires i < |ops|
  {
    match ops[i]
    case LoadOp(va) => LastStored(ops[..i], va)
    case StoreOp(_, value) => value
  }

  /** The memory is that of the first `i` operations. */
  ghost predicate ServedUpTo(unit: Unit, ops: seq<Op>, i: nat)
    requires i <= |ops|
    reads unit, unit.Repr
  {
    unit.Valid() && unit.Abstract() == Run(ops[..i])
  }

  predicate ShownAt(ops: seq<Op>, shown: seq<Byte>, i: nat)
    requires i < |shown| <= |ops|
  {
    shown[i] == Expected(ops, i)
  }

  /** Everything printed so far is as expected. */
  predicate AllShown(ops: seq<Op>, shown: seq<Byte>) {
    |shown| <= |ops| && forall i: nat | i < |shown| :: ShownAt(ops, shown, i)
  }

  lemma ShowMore(ops: seq<Op>, shown: seq<Byte>, value: Byte)
    requires AllShown(ops, shown) && |shown| < |ops| && value == Expected(ops, |shown|)
    ensures AllShown(ops, shown + [value])
  {
    forall j: nat | j < |shown| + 1 ensures ShownAt(ops, shown + [value], j) {
      if j < |shown| { assert ShownAt(ops, shown, j); }
    }
  }

  method Serve(unit: Unit, ops: seq<Op>, i: nat) returns (shown: Byte)
    requires i < |ops| && ServedUpTo(unit, ops, i)
    modifies unit.Repr
    ensures fresh(unit.Repr - old(unit.Repr)) && ServedUpTo(unit, ops, i + 1)
    ensures shown == Expected(ops, i)
  {
    assert ops[..i + 1][..i] == ops[..i];
    match ops[i] {
      case LoadOp(va) =>
        RefinesFlatMemory(ops[..i], va);
        shown := unit.Load(va);
      case StoreOp(va, value) =>
        unit.Store(va, value);
        shown := value;
    }
  }

  method ServeAll(unit: Unit, ops: seq<Op>) returns (shown: seq<Byte>)
    requires ServedUpTo(unit, ops, 0)
    modifies unit.Repr
    ensures unit.Valid() && unit.Abstract() == Run(ops)
    ensures |shown| == |ops| && AllShown(ops, shown)
  {
    shown := [];
    for i := 0 to |ops|
      invariant fresh(unit.Repr - old(unit.Repr)) && ServedUpTo(unit, ops, i)
      invariant |shown| == i && AllShown(ops, shown)
    {
      var value := Serve(unit, ops, i);
      ShowMore(ops, shown, value);
      shown := shown + [value];
    }
    assert ops[..|ops|] == ops;
  }

  /** What is shown, in terms of the operations alone: a store shows its value, and a load the value of
      the last store before it to that address, or 0 if there is none. */
  predicate Echoed(ops: seq<Op>, shown: seq<Byte>, i: nat)
    requires i < |ops| == |shown|
  {
    match ops[i]
    case StoreOp(_, value) => shown[i] == value
    case LoadOp(va) =>
      && (forall k: nat | k < i && LastStoreAt(ops[..i], va, k) :: shown[i] == ops[k].value)
      && (NeverStored(ops[..i], va) ==> shown[i] == 0)
  }

  lemma AllEchoed(ops: seq<Op>, shown: seq<Byte>)
    requires AllShown(ops, shown) && |shown| == |ops|
    ensures forall i: nat | i < |ops| :: Echoed(ops, shown, i)
  {
    forall i: nat | i < |ops| ensures Echoed(ops, shown, i) {
      assert ShownAt(ops, shown, i);
      LastStoredIs(ops[..i], ops[i].va);
    }
  }

  /** A whole session at the prompt: what it shows, and a page fault for each 4 KiB page touched. */
  method Session(ops: seq<Op>) returns (shown: seq<Byte>, faults: nat)
    ensures |shown| == |ops| && AllShown(ops, shown)
    ensures forall i: nat | i < |ops| :: Echoed(ops, shown, i)
    ensures faults == |Touched(ops)| == |Frames(Run(ops).directory)| <= FRAMES
  {
    var unit := new Unit();
    shown := ServeAll(unit, ops);
    AllEchoed(ops, shown);
    faults := unit.pageFaults;
    FaultsArePages(ops);
  }
}
