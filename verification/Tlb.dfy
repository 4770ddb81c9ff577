/** A four-entry translation buffer, filled round robin, in front of a fixed page table. */
module TranslationBuffer {
  import opened MachineTypes

  const PAGE_SIZE := 4096
  const NUM_PAGES := 16
  const TLB_SIZE := 4

  datatype PageTableEntry = PageTableEntry(pfn: Byte, valid: bool, protectBits: Byte)

  datatype TlbEntry = TlbEntry(vpn: Byte, pfn: Byte, valid: bool, protectBits: Byte)

  type PageTable = t: seq<PageTableEntry> | |t| == NUM_PAGES witness seq(NUM_PAGES, _ => PageTableEntry(0, false, 0))

  /** A fault ends the program. */
  datatype Outcome = Physical(pa: Word16) | SegmentationFault | ProtectionFault

  /** `missed` records the pages put in the buffer, oldest first; `hits` and `misses` are the program's
      32-bit counters. */
  datatype State = State(tlb: seq<TlbEntry>, next: nat, missed: seq<Byte>, hits: nat, misses: nat)

  // ----- Translation with and without the buffer -----

  function Vpn(va: Word16): (v: Byte)
    ensures v < NUM_PAGES
  {
    va / PAGE_SIZE
  }

  /** The address is put together in an int and cut to 16 bits. */
  function Compose(pfn: Byte, va: Word16): Word16 {
    (pfn * PAGE_SIZE + va % PAGE_SIZE) % 0x1_0000
  }

  /** What the page table alone says. */
  function Walk(table: PageTable, va: Word16): Outcome {
    var pte := table[Vpn(va)];
    if !pte.valid then SegmentationFault
    else if pte.protectBits == 0 then ProtectionFault
    else Physical(Compose(pte.pfn, va))
  }

  /** The first valid entry for the page. */
  function Lookup(tlb: seq<TlbEntry>, vpn: Byte): (i: nat)
    ensures i <= |tlb|
    ensures i < |tlb| ==> tlb[i].valid && tlb[i].vpn == vpn
    ensures forall j | 0 <= j < i :: !(tlb[j].valid && tlb[j].vpn == vpn)
  {
    if tlb == [] then 0
    else
      var i := Lookup(tlb[..|tlb| - 1], vpn);
      if i < |tlb| - 1 then i
      else if tlb[|tlb| - 1].valid && tlb[|tlb| - 1].vpn == vpn then |tlb| - 1 else |tlb|
  }

  function Bump(n: nat): nat {
    (n + 1) % 0x1_0000_0000
  }

  predicate Shaped(s: State) {
    |s.tlb| == TLB_SIZE && s.next < TLB_SIZE
  }

  function Insert(s: State, e: TlbEntry): State
    requires Shaped(s)
  {
    s.(tlb := s.tlb[s.next := e], next := (s.next + 1) % TLB_SIZE, missed := s.missed + [e.vpn])
  }

  function Translate(table: PageTable, s: State, va: Word16): (r: (State, Outcome))
    requires Shaped(s)
    ensures Shaped(r.0)
  {
    var i := Lookup(s.tlb, Vpn(va));
    if i < TLB_SIZE then
      (s.(hits := Bump(s.hits)),
       if s.tlb[i].protectBits == 0 then ProtectionFault else Physical(Compose(s.tlb[i].pfn, va)))
    else
      var pte := table[Vpn(va)];
      var t := s.(misses := Bump(s.misses));
      if !pte.valid then (t, SegmentationFault)
      else if pte.protectBits == 0 then (t, ProtectionFault)
      else (Insert(t, TlbEntry(Vpn(va), pte.pfn, true, pte.protectBits)), Physical(Compose(pte.pfn, va)))
  }

  function Hit(s: State, va: Word16): bool
    requires Shaped(s)
  {
    Lookup(s.tlb, Vpn(va)) < TLB_SIZE
  }

  // ----- What the buffer holds -----

  /** The last four pages missed, or all of them if fewer. */
  function Recent(missed: seq<Byte>): seq<Byte> {
    if |missed| < 4 then missed else missed[|missed| - 4..]
  }

  function EntryFor(table: PageTable, vpn: Byte): TlbEntry
    requires vpn < NUM_PAGES
  {
    TlbEntry(vpn, table[vpn].pfn, true, table[vpn].protectBits)
  }

  /** The `j`-th page missed is in its slot, as the page table has it. */
  predicate SlotOk(table: PageTable, s: State, j: nat)
    requires Shaped(s) && j < |s.missed|
  {
    && s.missed[j] < NUM_PAGES && table[s.missed[j]].valid && table[s.missed[j]].protectBits != 0
    && s.tlb[j % TLB_SIZE] == EntryFor(table, s.missed[j])
  }

  predicate EmptySlot(s: State, k: nat)
    requires Shaped(s) && k < TLB_SIZE
  {
    !s.tlb[k].valid
  }

  predicate Apart(s: State, i: nat, j: nat)
    requires i < j < |s.missed|
  {
    s.missed[i] != s.missed[j]
  }

  predicate Inv(table: PageTable, s: State) {
    && Shaped(s) && s.next == |s.missed| % TLB_SIZE
    && (forall j: nat | |s.missed| - TLB_SIZE <= j < |s.missed| :: SlotOk(table, s, j))
    && (forall k: nat | |s.missed| <= k < TLB_SIZE :: EmptySlot(s, k))
    && (forall i: nat, j: nat | |s.missed| - TLB_SIZE <= i < j < |s.missed| :: Apart(s, i, j))
  }

  /** Which miss filled slot `k`: negative if none has. */
  function FilledBy(n: nat, k: nat): (j: int)
    requires k < TLB_SIZE
    ensures n - TLB_SIZE <= j < n && (j >= 0 ==> j % TLB_SIZE == k) && (j < 0 ==> n <= k)
  {
    var r := n % TLB_SIZE;
    if k < r then n - r + k else n - r - TLB_SIZE + k
  }

  /** A page hits exactly when it is one of the last four missed, and then the entry found is the page
      table's own. */
  lemma LookupFinds(table: PageTable, s: State, vpn: Byte)
    requires Inv(table, s)
    ensures Lookup(s.tlb, vpn) < TLB_SIZE <==> vpn in Recent(s.missed)
    ensures Lookup(s.tlb, vpn) < TLB_SIZE ==>
              && vpn < NUM_PAGES && table[vpn].valid && table[vpn].protectBits != 0
              && s.tlb[Lookup(s.tlb, vpn)] == EntryFor(table, vpn)
  {
    var i, n := Lookup(s.tlb, vpn), |s.missed|;
    if i < TLB_SIZE {
      var j := FilledBy(n, i);
      assert j < 0 ==> EmptySlot(s, i);
      assert SlotOk(table, s, j);
      assert Recent(s.missed)[if n < TLB_SIZE then j else j - (n - TLB_SIZE)] == vpn;
    }
    if vpn in Recent(s.missed) {
      var k :| 0 <= k < |Recent(s.missed)| && Recent(s.missed)[k] == vpn;
      var j := if n < TLB_SIZE then k else n - TLB_SIZE + k;
      assert s.missed[j] == vpn && SlotOk(table, s, j);
    }
  }

  /** The valid entries are for pages all different. */
  lemma EntriesDistinct(table: PageTable, s: State, a: nat, b: nat)
    requires Inv(table, s) && a < b < TLB_SIZE && s.tlb[a].valid && s.tlb[b].valid
    ensures s.tlb[a].vpn != s.tlb[b].vpn
  {
    var i, j := FilledBy(|s.missed|, a), FilledBy(|s.missed|, b);
    assert i < 0 ==> EmptySlot(s, a);
    assert j < 0 ==> EmptySlot(s, b);
    assert SlotOk(table, s, i) && SlotOk(table, s, j);
    assert i < j ==> Apart(s, i, j);
    assert j < i ==> Apart(s, j, i);
  }

  /** The slots of the last four misses are different, and the next is the one after. */
  lemma SlotsApart(n: nat, j: nat)
    requires n - TLB_SIZE < j < n
    ensures j % TLB_SIZE != n % TLB_SIZE
  {}

  lemma InsertSlot(table: PageTable, s: State, vpn: Byte, j: nat)
    requires Inv(table, s) && vpn < NUM_PAGES && table[vpn].valid && table[vpn].protectBits != 0
    requires |s.missed| + 1 - TLB_SIZE <= j <= |s.missed|
    ensures SlotOk(table, Insert(s, EntryFor(table, vpn)), j)
  {
    if j < |s.missed| {
      assert SlotOk(table, s, j);
      SlotsApart(|s.missed|, j);
    }
  }

  lemma InsertApart(table: PageTable, s: State, vpn: Byte, i: nat, j: nat)
    requires Inv(table, s) && vpn < NUM_PAGES && vpn !in Recent(s.missed)
    requires |s.missed| + 1 - TLB_SIZE <= i < j <= |s.missed|
    ensures Apart(Insert(s, EntryFor(table, vpn)), i, j)
  {
    var n := |s.missed|;
    if j < n {
      assert Apart(s, i, j);
    } else {
      assert Recent(s.missed)[if n < TLB_SIZE then i else i - (n - TLB_SIZE)] == s.missed[i];
    }
  }

  lemma InsertKeeps(table: PageTable, s: State, vpn: Byte)
    requires Inv(table, s) && vpn < NUM_PAGES && table[vpn].valid && table[vpn].protectBits != 0
    requires vpn !in Recent(s.missed)
    ensures Inv(table, Insert(s, EntryFor(table, vpn)))
  {
    NextSlot(|s.missed|);
    InsertSlots(table, s, vpn);
    InsertLeavesEmpty(table, s, vpn);
    InsertAllApart(table, s, vpn);
  }

  lemma NextSlot(n: nat)
    ensures (n % TLB_SIZE + 1) % TLB_SIZE == (n + 1) % TLB_SIZE
  {}

  lemma InsertLeavesEmpty(table: PageTable, s: State, vpn: Byte)
    requires Inv(table, s) && vpn < NUM_PAGES
    ensures var t := Insert(s, EntryFor(table, vpn)); forall k: nat | |t.missed| <= k < TLB_SIZE :: EmptySlot(t, k)
  {
    var t := Insert(s, EntryFor(table, vpn));
    forall k: nat | |t.missed| <= k < TLB_SIZE ensures EmptySlot(t, k) {
      assert EmptySlot(s, k);
    }
  }

  lemma InsertSlots(table: PageTable, s: State, vpn: Byte)
    requires Inv(table, s) && vpn < NUM_PAGES && table[vpn].valid && table[vpn].protectBits != 0
    ensures var t := Insert(s, EntryFor(table, vpn));
            forall j: nat | |t.missed| - TLB_SIZE <= j < |t.missed| :: SlotOk(table, t, j)
  {
    var t := Insert(s, EntryFor(table, vpn));
    forall j: nat | |t.missed| - TLB_SIZE <= j < |t.missed| ensures SlotOk(table, t, j) {
      InsertSlot(table, s, vpn, j);
    }
  }

  lemma InsertAllApart(table: PageTable, s: State, vpn: Byte)
    requires Inv(table, s) && vpn < NUM_PAGES && vpn !in Recent(s.missed)
    ensures var t := Insert(s, EntryFor(table, vpn));
            forall i: nat, j: nat | |t.missed| - TLB_SIZE <= i < j < |t.missed| :: Apart(t, i, j)
  {
    var t := Insert(s, EntryFor(table, vpn));
    forall i: nat, j: nat | |t.missed| - TLB_SIZE <= i < j < |t.missed| ensures Apart(t, i, j) {
      InsertApart(table, s, vpn, i, j);
    }
  }

  /** The buffer never shows: each translation, faults included, is the page table's. */
  lemma Transparent(table: PageTable, s: State, va: Word16)
    requires Inv(table, s)
    ensures Translate(table, s, va).1 == Walk(table, va)
    ensures Inv(table, Translate(table, s, va).0)
    ensures Hit(s, va) <==> Vpn(va) in Recent(s.missed)
    ensures var t, hit := Translate(table, s, va).0, Vpn(va) in Recent(s.missed);
            && t.hits == (if hit then Bump(s.hits) else s.hits) && t.misses == (if hit then s.misses else Bump(s.misses))
            && t.missed == if hit || !Walk(table, va).Physical? then s.missed else s.missed + [Vpn(va)]
  {
    LookupFinds(table, s, Vpn(va));
    var t := s.(misses := Bump(s.misses));
    if Hit(s, va) {
      StatsKeep(table, s, s.(hits := Bump(s.hits)));
    } else {
      StatsKeep(table, s, t);
      if Walk(table, va).Physical? { InsertKeeps(table, t, Vpn(va)); }
    }
  }

  lemma StatsKeep(table: PageTable, s: State, t: State)
    requires Inv(table, s) && t == s.(hits := t.hits, misses := t.misses)
    ensures Inv(table, t)
  {
    forall j: nat | |t.missed| - TLB_SIZE <= j < |t.missed| ensures SlotOk(table, t, j) {
      assert SlotOk(table, s, j);
    }
    forall k: nat | |t.missed| <= k < TLB_SIZE ensures EmptySlot(t, k) {
      assert EmptySlot(s, k);
    }
    forall i: nat, j: nat | |t.missed| - TLB_SIZE <= i < j < |t.missed| ensures Apart(t, i, j) {
      assert Apart(s, i, j);
    }
  }

  function Empty(): State {
    State(seq(TLB_SIZE, _ => TlbEntry(0, 0, false, 0)), 0, [], 0, 0)
  }

  function Run(table: PageTable, addresses: seq<Word16>): (s: State)
    ensures Shaped(s)
  {
    if addresses == [] then Empty()
    else Translate(table, Run(table, addresses[..|addresses| - 1]), addresses[|addresses| - 1]).0
  }

  /** How many of the translations hit. */
  function HitCount(table: PageTable, addresses: seq<Word16>): (h: nat)
    ensures h <= |addresses|
  {
    if addresses == [] then 0
    else
      var rest := addresses[..|addresses| - 1];
      HitCount(table, rest) + if Hit(Run(table, rest), addresses[|addresses| - 1]) then 1 else 0
  }

  /** The counters, 32 bits wide, of `h` hits in `n` translations. */
  predicate Tallied(s: State, h: nat, n: nat) {
    h <= n && s.hits == h % 0x1_0000_0000 && s.misses == (n - h) % 0x1_0000_0000
  }

  lemma BumpWraps(k: nat)
    ensures Bump(k % 0x1_0000_0000) == (k + 1) % 0x1_0000_0000
  {}

  lemma TallyOne(s: State, h: nat, n: nat, hit: bool, t: State)
    requires Tallied(s, h, n)
    requires t.hits == (if hit then Bump(s.hits) else s.hits) && t.misses == (if hit then s.misses else Bump(s.misses))
    ensures Tallied(t, if hit then h + 1 else h, n + 1)
  {
    BumpWraps(h);
    BumpWraps(n - h);
  }

  /** With any page table, after any translations: the buffer is as described, and each translation was
      counted as the hit or the miss it was. */
  lemma {:induction false} RunKeeps(table: PageTable, addresses: seq<Word16>)
    ensures Inv(table, Run(table, addresses))
    ensures Tallied(Run(table, addresses), HitCount(table, addresses), |addresses|)
  {
    if addresses == [] {
      forall k: nat | k < TLB_SIZE ensures EmptySlot(Empty(), k) {}
    } else {
      var rest := addresses[..|addresses| - 1];
      RunKeeps(table, rest);
      Transparent(table, Run(table, rest), addresses[|addresses| - 1]);
      TallyOne(Run(table, rest), HitCount(table, rest), |rest|, Hit(Run(table, rest), addresses[|addresses| - 1]),
               Run(table, addresses));
    }
  }

  /** The table the program sets up: every page its own frame, all access allowed. */
  function InitialTable(): (t: PageTable) {
    seq(NUM_PAGES, i requires 0 <= i < NUM_PAGES => PageTableEntry(i, true, 0xFF))
  }

  lemma InitialTableIsIdentity(va: Word16)
    ensures Walk(InitialTable(), va) == Physical(va)
  {
    assert va == va / PAGE_SIZE * PAGE_SIZE + va % PAGE_SIZE;
  }

  /** A page not valid is a segmentation fault and one with no access a protection fault; otherwise the
      offset stays and the page becomes the frame, of whose number 4 bits are kept. */
  lemma Outcomes(table: PageTable, va: Word16)
    ensures var pte, outcome := table[va / 4096], Walk(table, va);
            && (outcome.SegmentationFault? <==> !pte.valid)
            && (outcome.ProtectionFault? <==> pte.valid && pte.protectBits == 0)
            && (outcome.Physical? ==> outcome.pa % 4096 == va % 4096 && outcome.pa / 4096 == pte.pfn % 16)
  {
    var pfn, offset := table[va / 4096].pfn, va % 4096;
    assert pfn * 4096 + offset == (pfn / 16) * 0x1_0000 + (pfn % 16 * 4096 + offset);
    CutTo16(pfn / 16, pfn % 16 * 4096 + offset);
  }

  lemma CutTo16(q: nat, r: nat)
    requires r < 0x1_0000
    ensures (q * 0x1_0000 + r) % 0x1_0000 == r
  {}

  /** Frames below 16 reach every physical address they should: nothing is cut off. */
  lemma NothingCutOff(table: PageTable, va: Word16)
    requires table[Vpn(va)].pfn < NUM_PAGES
    ensures Compose(table[Vpn(va)].pfn, va) == table[Vpn(va)].pfn * PAGE_SIZE + va % PAGE_SIZE
  {}

  // ----- The program -----

  class Mmu {
    var pageTable: array<PageTableEntry>
    var tlb: array<TlbEntry>
    var nextTlbEntry: nat
    var tlbHits: nat
    var tlbMisses: nat
    ghost var missed: seq<Byte>

    ghost predicate Ok()
      reads this
    {
      pageTable.Length == NUM_PAGES && tlb.Length == TLB_SIZE && nextTlbEntry < TLB_SIZE
    }

    ghost function Table(): PageTable
      requires Ok()
      reads this, pageTable
    {
      pageTable[..]
    }

    ghost function Abstract(): (s: State)
      requires Ok()
      reads this, tlb
      ensures Shaped(s)
    {
      State(tlb[..], nextTlbEntry, missed, tlbHits, tlbMisses)
    }

    /** The globals, zero but for the two initialisations. */
    constructor ()
      ensures Ok() && fresh(tlb) && fresh(pageTable)
      ensures Table() == InitialTable() && Inv(Table(), Abstract()) && missed == [] && tlbHits == tlbMisses == 0
    {
      pageTable := new PageTableEntry[NUM_PAGES](_ => PageTableEntry(0, false, 0));
      tlb := new TlbEntry[TLB_SIZE](_ => TlbEntry(0, 0, false, 0));
      nextTlbEntry, tlbHits, tlbMisses, missed := 0, 0, 0, [];
      new;
      for i := 0 to NUM_PAGES
        invariant Ok() && fresh(pageTable) && fresh(tlb) && missed == [] && nextTlbEntry == tlbHits == tlbMisses == 0
        invariant forall j | 0 <= j < i :: pageTable[j] == PageTableEntry(j, true, 0xFF)
        modifies pageTable
      {
        pageTable[i] := PageTableEntry(i, true, 0xFF);
      }
      for i := 0 to TLB_SIZE
        invariant Ok() && fresh(tlb) && missed == [] && nextTlbEntry == tlbHits == tlbMisses == 0
        invariant forall j | 0 <= j < i :: !tlb[j].valid
        modifies tlb
      {
        tlb[i] := tlb[i].(valid := false);
      }
      assert pageTable[..] == InitialTable();
    }

    method CheckTlb(vpn: Byte) returns (found: bool, pfn: Byte, protectBits: Byte)
      requires Ok()
      modifies this`tlbHits, this`tlbMisses
      ensures found <==> Lookup(tlb[..], vpn) < TLB_SIZE
      ensures found ==> pfn == tlb[Lookup(tlb[..], vpn)].pfn && protectBits == tlb[Lookup(tlb[..], vpn)].protectBits
      ensures tlbHits == if found then Bump(old(tlbHits)) else old(tlbHits)
      ensures tlbMisses == if found then old(tlbMisses) else Bump(old(tlbMisses))
    {
      pfn, protectBits := 0, 0;
      for i := 0 to TLB_SIZE
        invariant i <= Lookup(tlb[..], vpn) && tlbHits == old(tlbHits) && tlbMisses == old(tlbMisses)
      {
        if tlb[i].valid && tlb[i].vpn == vpn {
          assert tlb[..][i].valid && tlb[..][i].vpn == vpn;
          pfn, protectBits := tlb[i].pfn, tlb[i].protectBits;
          tlbHits := (tlbHits + 1) % 0x1_0000_0000;
          return true, pfn, protectBits;
        }
      }
      tlbMisses := (tlbMisses + 1) % 0x1_0000_0000;
      return false, pfn, protectBits;
    }

    method UpdateTlb(vpn: Byte, pfn: Byte, protectBits: Byte)
      requires Ok()
      modifies this`nextTlbEntry, this`missed, tlb
      ensures Ok() && Abstract() == Insert(old(Abstract()), TlbEntry(vpn, pfn, true, protectBits))
    {
      ghost var was := tlb[..];
      tlb[nextTlbEntry] := TlbEntry(vpn, pfn, true, protectBits);
      assert tlb[..] == was[nextTlbEntry := TlbEntry(vpn, pfn, true, protectBits)];
      nextTlbEntry := (nextTlbEntry + 1) % TLB_SIZE;
      missed := missed + [vpn];
    }

    /** Translates as the page table alone would, and reports whether the buffer knew the page. */
    method TranslateAddress(va: Word16) returns (outcome: Outcome, hit: bool)
      requires Ok() && Inv(Table(), Abstract())
      modifies this`nextTlbEntry, this`missed, this`tlbHits, this`tlbMisses, tlb
      ensures Ok() && Table() == old(Table()) && Abstract() == Translate(Table(), old(Abstract()), va).0
      ensures Inv(Table(), Abstract())
      ensures outcome == Walk(Table(), va) && (hit <==> Vpn(va) in Recent(old(missed)))
    {
      ghost var s := Abstract();
      Transparent(Table(), s, va);
      var vpn: Byte := va / PAGE_SIZE;
      var found, pfn, protectBits := CheckTlb(vpn);
      hit := found;
      if found {
        if protectBits == 0 {
          return ProtectionFault, hit;
        }
      } else {
        var pte := pageTable[vpn];
        if !pte.valid {
          return SegmentationFault, hit;
        }
        if pte.protectBits == 0 {
          return ProtectionFault, hit;
        }
        pfn := pte.pfn;
        UpdateTlb(vpn, pfn, pte.protectBits);
      }
      outcome := Physical(Compose(pfn, va));
    }
  }

  /** A session at the prompt: every address comes back unchanged. */
  method Session(addresses: seq<Word16>) returns (printed: seq<Outcome>)
    ensures |printed| == |addresses| && forall i | 0 <= i < |addresses| :: printed[i] == Physical(addresses[i])
  {
    var mmu := new Mmu();
    printed := [];
    for i := 0 to |addresses|
      invariant fresh(mmu) && fresh(mmu.tlb) && mmu.Ok() && mmu.Table() == InitialTable() && Inv(mmu.Table(), mmu.Abstract())
      invariant |printed| == i && forall j | 0 <= j < i :: printed[j] == Physical(addresses[j])
    {
      InitialTableIsIdentity(addresses[i]);
      var outcome, _ := mmu.TranslateAddress(addresses[i]);
      printed := printed + [outcome];
    }
  }
}
