/** The address space kvminit sets up: the kernel's four ranges mapped to themselves with their
    rights and nothing else, in the tables and on the hardware. */
module KernelSpace {
  import opened Bits
  import opened Sv39
  import opened PageTables
  import opened PageTableInvariant
  import opened PhysicalMemory
  import opened Mapping
  import opened MappedRanges
  import opened HardwareWalk

  /** The range x includes virtual page v. */
  predicate Spans(x: Range, v: nat) { x.size > 0 && First(x) <= v <= Final(x) }

  lemma MapRangePage(g: Mmu, r: nat, x: Range, v: nat)
    requires MapRange(g, r, x).val == Mapped
    ensures var a, g' := Page(r, v), MapRange(g, r, x).g;
            && (a in g'.leaves <==> a in g.leaves || Spans(x, v))
            && (a in g.leaves ==> !Spans(x, v) && g'.leaves[a] == g.leaves[a])
            && (Spans(x, v) ==> g'.leaves[a] == LeafOf(First(x), v, x.pa, x.perm))
  {
    hide MapFrom, Done, LeafPte, LeafOf, LastPage;
    MapFromLeaves(g, r, First(x), Final(x), x.pa, x.perm);
    MapFromStops(g, r, First(x), Final(x), x.pa, x.perm);
  }

  /** After a sequence of ranges has been mapped, a page is mapped exactly when it was before or
      one of the ranges includes it, and then as that range says. */
  lemma {:induction false} MapAllPage(g: Mmu, r: nat, xs: seq<Range>, v: nat)
    requires MapAll(g, r, xs).val == Mapped
    ensures var a, g' := Page(r, v), MapAll(g, r, xs).g;
            && (a in g'.leaves <==> a in g.leaves || exists x :: x in xs && Spans(x, v))
            && (a in g.leaves ==> g'.leaves[a] == g.leaves[a])
            && (forall x :: x in xs && Spans(x, v) ==> g'.leaves[a] == LeafOf(First(x), v, x.pa, x.perm))
    decreases |xs|
  {
    hide MapRange, LeafOf, Spans, First;
    if xs != [] {
      MapRangePage(g, r, xs[0], v);
      MapAllPage(MapRange(g, r, xs[0]).g, r, xs[1..], v);
      assert xs == [xs[0]] + xs[1..];
    }
  }

  lemma {:induction false} MapAllKeepsTables(g: Mmu, r: nat, xs: seq<Range>, n: Node)
    requires n in g.tables && MapAll(g, r, xs).val == Mapped
    ensures n in MapAll(g, r, xs).g.tables
    decreases |xs|
  {
    hide MapFrom, LeafPte;
    if xs != [] {
      var x := xs[0];
      MapFromFrame(g, r, First(x), Final(x), x.pa, x.perm);
      MapAllKeepsTables(MapRange(g, r, x).g, r, xs[1..], n);
    }
  }

  /** The kernel's RAM. */
  predicate InRam(va: nat) { 0x8000_0000 <= va < 0x8800_0000 }

  /** The registers of UART, PLIC and CLINT. */
  predicate InDevices(va: nat) {
    || 0x1000_0000 <= va < 0x1000_1000
    || 0x0C00_0000 <= va < 0x1000_0000
    || 0x0200_0000 <= va < 0x0201_0000
  }

  /** What kvminit is for: RAM can be read, written and executed, devices read and written, neither
      by user code, each at its own address; nothing else is mapped. */
  function KernelView(va: nat): Translation {
    if InRam(va) then Hit(va, Rights(true, true, true, false))
    else if InDevices(va) then Hit(va, Rights(true, true, false, false))
    else Fault
  }

  /** The leaf of a page mapped to itself: V, R, W and, in RAM, X. */
  function KernelLeaf(va: nat): nat { va / 4096 * 1024 + (if InRam(va) then 15 else 7) }

  /** A page belongs to the range of its bytes, and these ranges are the ones that kvminit passes. */
  lemma KernelRange(x: Range, va: Word)
    requires x in KERNEL_RANGES
    ensures Spans(x, va / 4096) <==> x.va <= va < x.va + x.size
    ensures x.pa == x.va && x.va % 4096 == 0 && x.va + x.size < MAXVA
    ensures x.va <= va < x.va + x.size ==>
              (InRam(va) && x.perm == 14) || (!InRam(va) && InDevices(va) && x.perm == 6)
  {}

  lemma KernelRangeOf(va: Word)
    ensures InRam(va) || InDevices(va) <==> exists x :: x in KERNEL_RANGES && x.va <= va < x.va + x.size
  {
    assert InRam(va) ==> KERNEL_RANGES[0].va <= va < KERNEL_RANGES[0].va + KERNEL_RANGES[0].size;
    assert 0x1000_0000 <= va < 0x1000_1000 ==> KERNEL_RANGES[1].va <= va < KERNEL_RANGES[1].va + KERNEL_RANGES[1].size;
    assert 0x0C00_0000 <= va < 0x1000_0000 ==> KERNEL_RANGES[2].va <= va < KERNEL_RANGES[2].va + KERNEL_RANGES[2].size;
    assert 0x0200_0000 <= va < 0x0201_0000 ==> KERNEL_RANGES[3].va <= va < KERNEL_RANGES[3].va + KERNEL_RANGES[3].size;
  }

  lemma IdentityLeaf(x: Range, va: Word)
    requires x in KERNEL_RANGES && x.va <= va < x.va + x.size
    ensures First(x) <= va / 4096
    ensures LeafOf(First(x), va / 4096, x.pa, x.perm) == KernelLeaf(va)
    ensures Accepted(KernelLeaf(va)) && RightsOf(KernelLeaf(va)) == Rights(true, true, InRam(va), false)
    ensures KernelLeaf(va) / 1024 * 4096 % TWO64 == va - va % 4096
  {
    hide LeafPte, Accepted, Spans, RightsOf, InRam, InDevices;
    KernelRange(x, va);
    PageOf(x.va, va);
    PageLeaf(va - va % 4096, x.perm);
  }

  /** The leaves of whole pages with permissions R, W, X and R, W. */
  lemma PageLeaf(pa: Word, perm: Word)
    requires pa % 4096 == 0 && pa < 0x100_0000_0000_0000 && (perm == 14 || perm == 6)
    ensures LeafPte(pa, perm) == pa / 4096 * 1024 + (if perm == 14 then 15 else 7)
    ensures Accepted(LeafPte(pa, perm)) && RightsOf(LeafPte(pa, perm)) == Rights(true, true, perm == 14, false)
    ensures LeafPte(pa, perm) / 1024 * 4096 % TWO64 == pa
  {
    hide LeafPte, Accepted, RightsOf, R, W, X, U;
    LeafTarget(pa, perm);
    AcceptedLeaf(pa, perm);
    LeafPteFields(pa, perm);
    KernelPerms();
  }

  lemma KernelPerms()
    ensures RightsOf(14) == Rights(true, true, true, false) && RightsOf(6) == Rights(true, true, false, false)
    ensures R(14) && R(6)
  {}

  lemma PageOf(start: nat, va: nat)
    requires start % 4096 == 0 && start <= va
    ensures start / 4096 <= va / 4096 && start + PGSIZE * (va / 4096 - start / 4096) == va - va % 4096
    ensures (va - va % 4096) / 4096 == va / 4096
  {}

  /** After kvminit, va2pa gives every byte of RAM and the devices itself and knows no other address;
      the leaves say V, R and W, and X exactly in RAM. */
  lemma KernelTranslates(g: Mmu, va: Word)
    requires Ok(g) && KvmInit(g).val
    ensures var r, g' := Create(g).val, KvmInit(g).g;
            var known := InRam(va) || InDevices(va);
            && Root(r) in g'.tables
            && Va2Pa(g', r, va) == (if known then va else 0)
            && (known <==> Page(r, va / 4096) in g'.leaves)
            && (known ==> va < MAXVA && g'.leaves[Page(r, va / 4096)] == KernelLeaf(va))
            && (known ==> Accepted(KernelLeaf(va)) && RightsOf(KernelLeaf(va)) == Rights(true, true, InRam(va), false))
  {
    hide MapAll, LeafPte, LeafOf, Spans, First, Accepted, Ok, InRam, InDevices, KernelLeaf, RightsOf;
    var r, g1 := Create(g).val, Create(g).g;
    assert g.free != [] && r in g.free;
    FreshTreeVacant(g, r);
    MapAllKeepsTables(g1, r, KERNEL_RANGES, Root(r));
    MapAllPage(g1, r, KERNEL_RANGES, va / 4096);
    KernelRangeOf(va);
    forall x | x in KERNEL_RANGES ensures Spans(x, va / 4096) <==> x.va <= va < x.va + x.size {
      KernelRange(x, va);
    }
    if x :| x in KERNEL_RANGES && x.va <= va < x.va + x.size {
      IdentityLeaf(x, va);
      KernelRange(x, va);
    }
  }

  /** And so does the hardware, for every 64-bit address. */
  lemma KernelOnHardware(m: seq<Word>, head: nat, num: nat, end: nat, g: Mmu, va: Word)
    requires Ok(g) && KvmInit(g).val && Image(m, head, num, end, KvmInit(g).g)
    ensures Hardware(m, Create(g).val, va) == KernelView(va)
  {
    hide KvmInit, Create, Hardware, Va2Pa, Image, Accepted, Ok, InRam, InDevices, KernelLeaf, RightsOf;
    KernelTranslates(g, va);
    HardwareAgrees(m, head, num, end, KvmInit(g).g, Create(g).val, va);
  }
}
