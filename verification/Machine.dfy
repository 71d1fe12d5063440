/** kernel/mm/mm.c and kernel/mm/vm.c as they run: one array of memory, the allocator's two
    variables, and the page-table operations, each proved to compute the state that
    module PageTables gives it. */
module Kernel {
  import opened Bits
  import opened Sv39
  import opened PageTables
  import opened Sequences
  import opened PageTableInvariant
  import opened PageTableRuns
  import opened TableFreeing
  import opened PhysicalMemory
  import opened MappedRanges
  import opened HardwareWalk
  import opened KernelSpace

  class Machine {
    const mem: array<Word>
    var freePages: Word       // free_pages: address of the first free page
    var numFree: nat          // num_free_pages
    ghost var g: Mmu          // the state that memory represents
    ghost var end: Word       // what the last free page's link holds

    ghost predicate Valid()
      reads this, mem
    {
      Image(mem[..], freePages, numFree, end, g)
    }

    /** A 64-bit store at physical address addr, which is word i of page p. */
    method Store(addr: nat, v: Word, ghost p: nat, ghost i: nat)
      requires mem.Length == WORDS && p < PHYSTOP_PPN && i < 512 && addr == 4096 * p + 8 * i
      modifies mem
      ensures mem[..] == old(mem[..])[512 * p + i := v]
      ensures forall q: nat, j: nat {:trigger Entry(mem[..], q, j)} :: j < 512 ==>
                Entry(mem[..], q, j) == if q == p && j == i then v else old(Entry(mem[..], q, j))
    {
      ghost var m := mem[..];
      mem[addr / 8] := v;
      assert mem[..] == m[512 * p + i := v];
      StoreEntry(m, mem[..], p, i, v);
    }

    /** mm_init's loop: every page of the pool links to the next one. */
    method BuildList(memStart: nat, n: nat, ghost lo: nat)
      requires mem.Length == WORDS && memStart == 4096 * lo && lo + n == PHYSTOP_PPN
      modifies mem
      ensures forall q: nat {:trigger Entry(mem[..], q, 0)} :: lo <= q < PHYSTOP_PPN ==>
                    Entry(mem[..], q, 0) == if q + 1 < PHYSTOP_PPN then 4096 * (q + 1) else 0
    {
      for i := 0 to n
        invariant forall q: nat {:trigger Entry(mem[..], q, 0)} :: lo <= q < lo + i ==>
                    Entry(mem[..], q, 0) == if q + 1 < PHYSTOP_PPN then 4096 * (q + 1) else 0
      {
        var page := memStart + i * PGSIZE;
        if i + 1 < n {
          Store(page, memStart + (i + 1) * PGSIZE, lo + i, 0);
        } else {
          Store(page, 0, lo + i, 0);
        }
      }
    }

    /** mm_init on a memory with arbitrary contents; heapEnd is the linker's __heap_end. */
    constructor (ram: array<Word>, heapEnd: Word)
      requires ram.Length == WORDS && 0 < heapEnd <= PHYSTOP
      modifies ram
      ensures Valid() && mem == ram
      ensures g == Initial((heapEnd + 4095) / 4096)
      ensures g.free != [] ==> end == 0
    {
      hide Ok;
      ghost var lo := (heapEnd + 4095) / 4096;
      var memStart := (heapEnd + PGSIZE - 1) / PGSIZE * PGSIZE;
      mem := ram;
      freePages := memStart;
      var n := (PHYSTOP - memStart) / PGSIZE;
      numFree := n;
      g := Initial(lo);
      end := if n == 0 then memStart else 0;
      new;
      BuildList(memStart, n, lo);
      InitialOk(lo);
    }

    // ------------------------------------------------------------- allocator

    /** alloc_page; 0 is NULL. The page is all zero and belongs to the caller. */
    method AllocPage() returns (pa: nat)
      requires Valid()
      modifies this, mem
      ensures Valid() && end == old(end)
      ensures g == PageTables.AllocPage(old(g)).g && pa == 4096 * PageTables.AllocPage(old(g)).val
      ensures pa == 0 <==> old(g).free == []
      ensures pa == 0 ==> mem[..] == old(mem[..])
      ensures pa != 0 ==> OnlyPage(old(mem[..]), mem[..], pa / 4096)
      ensures pa != 0 ==> forall j: nat :: j < 512 ==> Entry(mem[..], pa / 4096, j) == 0
    {
      hide Image, Ok;
      ghost var m0, g0 := mem[..], g;
      ImageHead(m0, freePages, numFree, end, g0);
      if freePages == 0 || numFree == 0 {
        return 0;
      }
      ghost var p := g0.free[0];
      pa := freePages;
      freePages := mem[freePages / 8];
      assert freePages == Entry(m0, p, 0);
      numFree := numFree - 1;
      ClearPage(pa, p);
      AllocPageOk(g0);
      g := PageTables.AllocPage(g0).g;
      TakePageImage(m0, mem[..], pa, end, g0);
    }

    /** The clearing loop of alloc_page. */
    method ClearPage(pa: nat, ghost p: nat)
      requires mem.Length == WORDS && p < PHYSTOP_PPN && pa == 4096 * p
      modifies mem
      ensures OnlyPage(old(mem[..]), mem[..], p)
      ensures forall j: nat :: j < 512 ==> Entry(mem[..], p, j) == 0
    {
      for i := 0 to 512
        invariant OnlyPage(old(mem[..]), mem[..], p)
        invariant forall j: nat :: j < i ==> Entry(mem[..], p, j) == 0
      {
        Store(pa + 8 * i, 0, p, i);
      }
    }

    /** The free list alone: what holds even while a tree is being taken apart. */
    ghost predicate Links()
      reads this, mem
    {
      && mem.Length == WORDS && FreeOk(g) && numFree == |g.free|
      && Linked(mem[..], freePages, g.free, end)
    }

    /** free_page of a page of the pool that is not free already. */
    method FreePage(pa: Word)
      requires Links()
      requires pa != 0 ==> pa % 4096 == 0 && InPool(g, pa / 4096) && pa / 4096 !in g.free
      modifies this, mem
      ensures Links() && end == old(end)
      ensures pa == 0 ==> g == old(g) && mem[..] == old(mem[..])
      ensures pa != 0 ==> g == old(g).(free := [pa / 4096] + old(g).free)
      ensures pa != 0 ==> OnlyPage(old(mem[..]), mem[..], pa / 4096)
    {
      if pa == 0 {
        return;
      }
      ghost var m0, p, head := mem[..], pa / 4096, freePages;
      Store(pa, freePages, p, 0);
      freePages := pa;
      numFree := numFree + 1;
      PushLinked(m0, mem[..], head, end, g.free, p);
      NoDupConcat([p], g.free);
      g := g.(free := [p] + g.free);
    }

    /** free_page as the caller of alloc_page uses it. */
    method ReturnPage(pa: Word)
      requires Valid()
      requires pa != 0 ==> pa % 4096 == 0 && pa / 4096 in g.out
      modifies this, mem
      ensures Valid() && end == old(end)
      ensures g == PageTables.FreePage(old(g), pa / 4096)
    {
      hide EntryOf, Linked;
      ghost var m0, g0, p := mem[..], g, pa / 4096;
      FreePage(pa);
      if pa != 0 {
        g := PageTables.FreePage(g0, p);
        FreePageOk(g0, p);
        OutsideTables(m0, mem[..], g0, g, p);
      }
    }

    // ------------------------------------------------------------------ walk

    /** The body of walk's loop: the table below entry i of table n, allocated on demand;
        0 when it is missing and may not or cannot be allocated. */
    method NextTable(pt: Word, i: nat, alloc: bool, ghost n: Node) returns (next: nat)
      requires Valid() && n in g.tables && n.level > 0 && i < 512 && pt == 4096 * g.tables[n]
      requires n.level == 2 ==> i < 256
      modifies this, mem
      ensures Valid() && end == old(end)
      ensures !alloc ==> g == old(g) && mem[..] == old(mem[..])
      ensures alloc ==> g == Descend(old(g), Kid(n, i)).g
      ensures next == 0 <==> if alloc then !Descend(old(g), Kid(n, i)).val else Kid(n, i) !in g.tables
      ensures next != 0 ==> Kid(n, i) in g.tables && next == 4096 * g.tables[Kid(n, i)] < TWO64
    {
      hide Image, Ok, PteValid, PTE2PA, TablePte, ValidWord;
      ghost var g0 := g;
      ImageParts(mem[..], freePages, numFree, end, g);
      UpperEntry(g, n, i);
      var pte := pt + 8 * i;
      var e := mem[pte / 8];
      assert e == Entry(mem[..], g.tables[n], i);
      if PteValid(e) {
        next := PTE2PA(e);
      } else {
        if !alloc {
          return 0;
        }
        next := AllocPage();
        if next == 0 {
          return 0;
        }
        ghost var c, m1, g1 := next / 4096, mem[..], g;
        ImageParts(m1, freePages, numFree, end, g1);
        TablePteFields(c);
        Store(pte, TablePte(next), g.tables[n], i);
        g := g1.(out := g1.out - {c}, tables := g1.tables[Kid(n, i) := c]);
        TakenBecomesTable(g0, Kid(n, i));
        AttachImage(m1, mem[..], freePages, numFree, end, g0, g1, g, n, i, c);
      }
    }

    /** walk; the address of the leaf entry, 0 for NULL. */
    method Walk(pagetable: Word, va: Word, alloc: bool, ghost r: nat) returns (pte: nat)
      requires Valid() && pagetable == 4096 * r && Root(r) in g.tables
      modifies this, mem
      ensures Valid() && end == old(end)
      ensures alloc ==> g == WalkAlloc(old(g), r, va / 4096).g
      ensures !alloc ==> g == old(g) && mem[..] == old(mem[..])
      ensures pte == 0 <==> if alloc then !WalkAlloc(old(g), r, va / 4096).val
                            else va >= MAXVA || Last(r, va / 4096) !in g.tables
      ensures pte != 0 ==> Last(r, va / 4096) in g.tables && pte == LeafAddr(g, r, va / 4096)
    {
      hide Image, Ok, PX;
      if va >= MAXVA {
        return 0;
      }
      ghost var vpn := va / 4096;
      ghost var n := Root(r);
      ImageRoots(mem[..], freePages, numFree, end, g);
      WalkIsRest(g, r, vpn);
      var pt: Word := pagetable;
      var level := 2;
      while level > 0
        invariant 0 <= level <= 2
        invariant Valid() && end == old(end)
        invariant n == OnPath(r, level, vpn) && n in g.tables && pt == 4096 * g.tables[n]
        invariant alloc ==> WalkAlloc(old(g), r, vpn) == WalkRest(g, r, vpn, level)
        invariant !alloc ==> g == old(g) && mem[..] == old(mem[..])
      {
        var i := PX(level, va);
        PathStep(r, level, va);
        var next := NextTable(pt, i, alloc, n);
        if next == 0 {
          if !alloc { MissingOnPath(g, r, vpn, level - 1); }
          return 0;
        }
        pt := next;
        level := level - 1;
        n := Kid(n, i);
      }
      ImageRoots(mem[..], freePages, numFree, end, g);
      PXIsDigit(va, 0);
      pte := pt + 8 * PX(0, va);
    }

    // ------------------------------------------------- mapping and unmapping

    /** mappages. Mapped is its 0, NoMemory its -1; ZeroSize and Remap are its panics. */
    method MapPages(pagetable: Word, va: Word, size: Word, pa: Word, perm: Word, ghost r: nat)
      returns (res: MapResult)
      requires Valid() && pagetable == 4096 * r && Root(r) in g.tables
      modifies this, mem
      ensures Valid() && end == old(end)
      ensures PageTables.Result(res, g) == PageTables.MapPages(old(g), r, va, size, pa, perm)
    {
      hide Image, Ok, WalkAlloc, PteValid, LeafPte;
      if size == 0 {
        return ZeroSize;
      }
      var a: Word := va / PGSIZE * PGSIZE;
      var last := (va + size - 1) % TWO64 / PGSIZE * PGSIZE;
      var p: Word := pa;
      while true
        invariant Valid() && end == old(end)
        invariant Root(r) in g.tables && a % 4096 == 0
        invariant MapFrom(old(g), r, va / 4096, last / 4096, pa, perm)
               == MapFrom(g, r, a / 4096, last / 4096, p, perm)
        decreases MAXVPN - a / 4096
      {
        ghost var g0, vpn := g, a / 4096;
        WalkAllocFrame(g, r, vpn);
        var pte := Walk(pagetable, a, true, r);
        if pte == 0 {
          return NoMemory;
        }
        LeafAt(mem[..], freePages, numFree, end, g, r, vpn);
        if PteValid(mem[pte / 8]) {
          return Remap;
        }
        ghost var m1, g1 := mem[..], g;
        LeafPteIsValid(p, perm);
        Store(pte, LeafPte(p, perm), g.tables[Last(r, vpn)], vpn % 512);
        g := Written(g, r, vpn, p, perm);
        LeafImage(m1, mem[..], freePages, numFree, end, g1, Page(r, vpn), LeafPte(p, perm));
        if a == last {
          return Mapped;
        }
        a := a + PGSIZE;
        p := (p + PGSIZE) % TWO64;
      }
    }

    /** unmappages; NotMapped is its panic. */
    method UnmapPages(pagetable: Word, va: Word, size: Word, ghost r: nat) returns (res: UnmapResult)
      requires Valid() && pagetable == 4096 * r && Root(r) in g.tables
      modifies this, mem
      ensures Valid() && end == old(end)
      ensures PageTables.Result(res, g) == PageTables.UnmapPages(old(g), r, va, size)
    {
      hide Image, Ok, PteValid, ValidWord, UnmapFrom;
      if size == 0 {
        return Removed;
      }
      var a: Word := va / PGSIZE * PGSIZE;
      var last := (va + size - 1) % TWO64 / PGSIZE * PGSIZE;
      while true
        invariant Valid() && end == old(end)
        invariant Root(r) in g.tables && a % 4096 == 0
        invariant UnmapFrom(old(g), r, va / 4096, last / 4096) == UnmapFrom(g, r, a / 4096, last / 4096)
        decreases MAXVPN - a / 4096
      {
        ghost var vpn := a / 4096;
        UnmapTurn(g, r, vpn, last / 4096);
        ImageLeaves(mem[..], freePages, numFree, end, g);
        var pte := Walk(pagetable, a, false, r);
        if pte == 0 {
          return NotMapped;
        }
        LeafAt(mem[..], freePages, numFree, end, g, r, vpn);
        if !PteValid(mem[pte / 8]) {
          return NotMapped;
        }
        ghost var m1, g1 := mem[..], g;
        Store(pte, 0, g.tables[Last(r, vpn)], vpn % 512);
        g := g.(leaves := g.leaves - {Page(r, vpn)});
        LeafImage(m1, mem[..], freePages, numFree, end, g1, Page(r, vpn), 0);
        if a == last {
          return Removed;
        }
        a := a + PGSIZE;
      }
    }

    // ----------------------------------------------------------- translation

    method WalkAddr(pagetable: Word, va: Word, ghost r: nat) returns (pa: nat)
      requires Valid() && pagetable == 4096 * r && Root(r) in g.tables
      modifies this, mem
      ensures Valid() && end == old(end) && g == old(g) && mem[..] == old(mem[..])
      ensures pa == if va < MAXVA && Page(r, va / 4096) in g.leaves
                    then MappedRanges.Va2Pa(g, r, va) - va % 4096 else 0
    {
      hide Image, Ok, PteValid, PTE2PA;
      ImageLeaves(mem[..], freePages, numFree, end, g);
      if va >= MAXVA {
        return 0;
      }
      var pte := Walk(pagetable, va, false, r);
      if pte == 0 {
        return 0;
      }
      LeafAt(mem[..], freePages, numFree, end, g, r, va / 4096);
      if !PteValid(mem[pte / 8]) {
        return 0;
      }
      PTE2PAIsPpn(mem[pte / 8]);
      pa := PTE2PA(mem[pte / 8]);
    }

    method Va2Pa(pagetable: Word, va: Word, ghost r: nat) returns (pa: nat)
      requires Valid() && pagetable == 4096 * r && Root(r) in g.tables
      modifies this, mem
      ensures Valid() && end == old(end) && g == old(g) && mem[..] == old(mem[..])
      ensures pa == MappedRanges.Va2Pa(g, r, va)
    {
      hide Image, Ok, PteValid, PTE2PA, PageOffset;
      ImageLeaves(mem[..], freePages, numFree, end, g);
      var pte := Walk(pagetable, va, false, r);
      if pte == 0 {
        return 0;
      }
      LeafAt(mem[..], freePages, numFree, end, g, r, va / 4096);
      if !PteValid(mem[pte / 8]) {
        return 0;
      }
      PTE2PAIsPpn(mem[pte / 8]);
      PageOffsetIsMod(va);
      pa := PTE2PA(mem[pte / 8]) + PageOffset(va);
    }

    // -------------------------------------------------- creating and freeing

    /** vm_create_user_pagetable; 0 is NULL. */
    method CreateTable() returns (pagetable: nat)
      requires Valid()
      modifies this, mem
      ensures Valid() && end == old(end)
      ensures g == Create(old(g)).g && pagetable == 4096 * Create(old(g)).val
      ensures pagetable == 0 <==> old(g).free == []
      ensures pagetable < TWO64
    {
      hide Image, Ok;
      ghost var g0 := g;
      ImageHead(mem[..], freePages, numFree, end, g0);
      pagetable := AllocPage();
      if pagetable != 0 {
        ghost var p, g1 := pagetable / 4096, g;
        g := Create(g0).g;
        RootImage(mem[..], freePages, numFree, end, g0, g1, p);
      }
    }

    /** vm_free on the table n: its subtree is pushed page by page, n itself last. */
    method FreeTable(pagetable: Word, ghost n: Node)
      requires Links() && TreesOk(g) && LeavesOk(g) && Freeable(g, n.root)
      requires n in g.tables && pagetable == 4096 * g.tables[n]
      requires Detached(g, n) && SubTables(mem[..], g, n)
      modifies this, mem
      ensures Links() && end == old(end)
      ensures g == old(g).(free := Freed(old(g).tables, n) + old(g).free)
      ensures KeptOutside(old(mem[..]), mem[..], old(g), n)
      decreases n.level
    {
      hide Linked, FreeOk, TreesOk, LeavesOk, Freeable, EntryOf, IsTablePte, PTE2PA, Detached, SubTables,
        KeptBelow, KeptOutside, Freed, FreedKids;
      ghost var m0, g0 := mem[..], g;
      NothingFreed(m0, g0, n);
      for i := 0 to 512
        invariant Links() && end == old(end)
        invariant g == g0.(free := FreedKids(g0.tables, n, i) + g0.free)
        invariant KeptBelow(m0, mem[..], g0, n, i)
      {
        OwnPageKept(m0, mem[..], g0, n, i);
        assert pagetable / 4096 !in g.free by { NotYetFree(g0, g, n, i); }
        var pte := mem[pagetable / 8 + i];
        if IsTablePte(pte) {
          ghost var kid := Kid(n, i);
          var child := PTE2PA(pte);
          KidReady(m0, mem[..], g0, g, n, i);
          ghost var m1 := mem[..];
          FreeTable(child, kid);
          KidDone(m0, m1, mem[..], g0, g, n, i);
        } else {
          KidAbsent(m0, mem[..], g0, n, i);
        }
      }
      NotYetFree(g0, g, n, 512);
      ghost var m1 := mem[..];
      FreePage(pagetable);
      PushedAll(m0, m1, mem[..], g0, g, n);
    }

    /** vm_free on a root. */
    method VmFree(pagetable: Word, ghost r: nat)
      requires Valid() && pagetable == 4096 * r && Root(r) in g.tables && Freeable(g, r)
      modifies this, mem
      ensures Valid() && end == old(end)
      ensures g == Free(old(g), r)
      ensures numFree == old(numFree) + |TreeNodes(old(g), r)|
    {
      hide Linked, TreesOk, EntryOf;
      ghost var m0, g0 := mem[..], g;
      WholeTree(m0, g0, r);
      FreeTable(pagetable, Root(r));
      FreeTreeOk(g0, r);
      g := Free(g0, r);
      OtherTreesKept(m0, mem[..], g0, r);
    }

    /** One of kvminit's calls of mappages: the next of the ranges it maps. */
    method MapNext(pagetable: Word, va: Word, size: Word, pa: Word, perm: Word, ghost r: nat, ghost xs: seq<Range>)
      returns (ok: bool)
      requires Valid() && pagetable == 4096 * r && Root(r) in g.tables
      requires xs != [] && xs[0] == Range(va, size, pa, perm) && size > 0
      modifies this, mem
      ensures Valid() && end == old(end) && Root(r) in g.tables
      ensures ok ==> MapAll(old(g), r, xs) == MapAll(g, r, xs[1..])
      ensures !ok ==> MapAll(old(g), r, xs).val != Mapped && MapAll(old(g), r, xs).g == g
    {
      hide Image, Ok, MapFrom;
      ghost var g0 := g;
      var res := MapPages(pagetable, va, size, pa, perm, r);
      MapFromFrame(g0, r, va / PGSIZE, LastPage(va, size), pa, perm);
      ok := res == Mapped;
    }

    /** kvminit; false where it panics. */
    method KvmInit() returns (ok: bool, kernel: nat)
      requires Valid()
      modifies this, mem
      ensures Valid() && end == old(end)
      ensures PageTables.Result(ok, g) == MappedRanges.KvmInit(old(g)) && kernel == 4096 * Create(old(g)).val
      ensures ok <==> old(numFree) >= 101
      ensures ok ==> numFree == old(numFree) - 101
      ensures ok ==> forall va: Word :: Hardware(mem[..], kernel / 4096, va) == KernelView(va)
    {
      hide Image, Ok, MapAll, Hardware, KernelView;
      ghost var g0 := g;
      ImageHead(mem[..], freePages, numFree, end, g0);
      KvmInitTakes101(g0);
      kernel := CreateTable();
      if kernel == 0 {
        return false, 0;
      }
      ghost var r, xs := kernel / 4096, KERNEL_RANGES;
      ok := MapNext(kernel, 0x8000_0000, 0x800_0000, 0x8000_0000, 14, r, xs);
      if ok {
        ok := MapNext(kernel, 0x1000_0000, 0x1000, 0x1000_0000, 6, r, xs[1..]);
      }
      if ok {
        ok := MapNext(kernel, 0x0C00_0000, 0x400_0000, 0x0C00_0000, 6, r, xs[1..][1..]);
      }
      if ok {
        ok := MapNext(kernel, 0x0200_0000, 0x1_0000, 0x0200_0000, 6, r, xs[1..][1..][1..]);
      }
      NothingToMap(g, r, xs[1..][1..][1..][1..]);
      ImageHead(mem[..], freePages, numFree, end, g);
      if ok {
        forall va: Word ensures Hardware(mem[..], r, va) == KernelView(va) {
          KernelOnHardware(mem[..], freePages, numFree, end, g0, va);
        }
      }
    }
  }

  /** What the allocator's variables say about the free stack. */
  lemma ImageHead(m: seq<Word>, head: nat, num: nat, end: nat, g: Mmu)
    requires Image(m, head, num, end, g)
    ensures |m| == WORDS && Ok(g) && num == |g.free|
    ensures g.free != [] ==> head == 4096 * g.free[0] && InPool(g, g.free[0])
    ensures g.lo > 0 && forall p :: p in g.out ==> InPool(g, p)
  {}

  lemma ImageParts(m: seq<Word>, head: nat, num: nat, end: nat, g: Mmu)
    requires Image(m, head, num, end, g)
    ensures |m| == WORDS && Ok(g) && TreesOk(g) && LeavesOk(g) && Tables(m, g) && g.lo > 0
    ensures forall n :: n in g.tables ==> InPool(g, g.tables[n])
    ensures forall p :: p in g.out ==> InPool(g, p)
  {}

  /** Taking a page and making it a table is what Descend does. */
  lemma TakenBecomesTable(g: Mmu, n: Node)
    requires Ok(g) && g.free != [] && n !in g.tables
    ensures var a := PageTables.AllocPage(g);
            a.g.(out := a.g.out - {a.val}, tables := a.g.tables[n := a.val]) == Descend(g, n).g
  {
    assert g.free[0] !in g.out;
    assert g.out + {g.free[0]} - {g.free[0]} == g.out;
  }

  lemma AttachImage(m: seq<Word>, m': seq<Word>, head: nat, num: nat, end: nat,
                    g0: Mmu, g1: Mmu, g2: Mmu, n: Node, i: nat, c: nat)
    requires Ok(g0) && g0.free != [] && n in g0.tables && n.level > 0 && i < 512 && Kid(n, i) !in g0.tables
    requires n.level == 2 ==> i < 256
    requires g1 == PageTables.AllocPage(g0).g && c == g0.free[0] && g2 == Descend(g0, Kid(n, i)).g
    requires g2 == g1.(out := g1.out - {c}, tables := g1.tables[Kid(n, i) := c])
    requires Image(m, head, num, end, g1)
    requires forall j: nat :: j < 512 ==> Entry(m, c, j) == 0
    requires m' == m[512 * g1.tables[n] + i := c * 1024 + 1]
    ensures Image(m', head, num, end, g2)
  {
    hide Ok, Tables, EntryOf, Linked;
    ImageParts(m, head, num, end, g1);
    assert Ok(g2) by {
      assert n.pre == (n.pre * 512 + i) / 512;
      assert Parent(Kid(n, i)) == n;
      assert n.level == 2 ==> Kid(n, i).pre < 256 by { TakeParts(g0); }
      DescendOk(g0, Kid(n, i));
    }
    assert g1.tables[n] !in g1.free by { TakeParts(g1); }
    AttachTable(m, m', g1, g2, n, i, c);
    StoreEntry(m, m', g1.tables[n], i, c * 1024 + 1);
    LinksKept(m, m', head, end, g1, g1.tables[n]);
  }

  /** Where the leaf entry of virtual page vpn is. */
  function LeafAddr(g: Mmu, r: nat, vpn: nat): nat
    requires Last(r, vpn) in g.tables
  {
    4096 * g.tables[Last(r, vpn)] + 8 * (vpn % 512)
  }

  /** The table of the given level on the path to vpn. */
  function OnPath(r: nat, level: nat, vpn: nat): Node {
    if level == 0 then Last(r, vpn) else if level == 1 then Mid(r, vpn) else Root(r)
  }

  /** What remains of walk's loop from the table of the given level on. */
  function WalkRest(g: Mmu, r: nat, vpn: nat, level: nat): Result<bool>
    decreases level
  {
    if level == 0 then Result(true, g)
    else
      var d := Descend(g, OnPath(r, level - 1, vpn));
      if !d.val then d else WalkRest(d.g, r, vpn, level - 1)
  }

  lemma WalkIsRest(g: Mmu, r: nat, vpn: nat)
    requires vpn < MAXVPN
    ensures WalkAlloc(g, r, vpn) == WalkRest(g, r, vpn, 2)
  {
    var d := Descend(g, Mid(r, vpn));
    assert d.val ==> WalkRest(d.g, r, vpn, 1) == Descend(d.g, Last(r, vpn));
  }

  lemma PathStep(r: nat, level: nat, va: Word)
    requires 0 < level <= 2 && va < MAXVA
    ensures PX(level, va) < 512 && (level == 2 ==> PX(level, va) < 256)
    ensures OnPath(r, level, va / 4096).level == level
    ensures Kid(OnPath(r, level, va / 4096), PX(level, va)) == OnPath(r, level - 1, va / 4096)
  {
    hide PX;
    PXIsDigit(va, level);
    Digits(va / 4096);
  }

  lemma ImageRoots(m: seq<Word>, head: nat, num: nat, end: nat, g: Mmu)
    requires Image(m, head, num, end, g)
    ensures Ok(g) && g.lo > 0
    ensures forall n :: n in g.tables ==> 0 < g.tables[n] < PHYSTOP_PPN
    ensures forall r :: Root(r) in g.tables ==> g.tables[Root(r)] == r
  {}

  /** No last-level table without the tables above it. */
  lemma MissingOnPath(g: Mmu, r: nat, vpn: nat, level: nat)
    requires Ok(g) && level <= 1 && vpn < MAXVPN && OnPath(r, level, vpn) !in g.tables
    ensures Last(r, vpn) !in g.tables
  {
    Digits(vpn);
    assert Parent(Last(r, vpn)) == Mid(r, vpn);
  }

  /** The word walk points at is the leaf entry of the page. */
  lemma LeafAt(m: seq<Word>, head: nat, num: nat, end: nat, g: Mmu, r: nat, vpn: nat)
    requires Image(m, head, num, end, g) && Last(r, vpn) in g.tables
    ensures var at := LeafAddr(g, r, vpn) / 8;
            && at == 512 * g.tables[Last(r, vpn)] + vpn % 512 < |m| == WORDS
            && (PteValid(m[at]) <==> Page(r, vpn) in g.leaves)
            && (PteValid(m[at]) ==> m[at] == g.leaves[Page(r, vpn)])
            && g.tables[Last(r, vpn)] < PHYSTOP_PPN
  {
    hide PteValid, Ok;
    ImageParts(m, head, num, end, g);
    LeafWord(g, Last(r, vpn), vpn % 512);
    assert m[512 * g.tables[Last(r, vpn)] + vpn % 512] == Entry(m, g.tables[Last(r, vpn)], vpn % 512);
  }

  /** Storing a leaf, or 0, at the leaf entry of page a. */
  lemma LeafImage(m: seq<Word>, m': seq<Word>, head: nat, num: nat, end: nat, g: Mmu, a: Page, e: Word)
    requires Image(m, head, num, end, g) && Last(a.root, a.vpn) in g.tables
    requires 512 * g.tables[Last(a.root, a.vpn)] + a.vpn % 512 < |m|
    requires m' == m[512 * g.tables[Last(a.root, a.vpn)] + a.vpn % 512 := e]
    requires e == 0 || ValidWord(e)
    ensures e != 0 ==> Image(m', head, num, end, g.(leaves := g.leaves[a := e]))
    ensures e == 0 ==> Image(m', head, num, end, g.(leaves := g.leaves - {a}))
  {
    var p := g.tables[Last(a.root, a.vpn)];
    SetLeaf(m, m', g, a, e);
    StoreEntry(m, m', p, a.vpn % 512, e);
    LinksKept(m, m', head, end, g, p);
    LeafChangeOk(g, a, e);
  }

  /** Changes to a page that holds no table do not show in any table. */
  lemma OutsideTables(m: seq<Word>, m': seq<Word>, g: Mmu, g': Mmu, p: nat)
    requires Tables(m, g) && OnlyPage(m, m', p)
    requires g'.tables == g.tables && g'.leaves == g.leaves
    requires forall n :: n in g.tables ==> g.tables[n] != p
    ensures Tables(m', g')
  {
    hide EntryOf;
    forall n, i | n in g.tables && 0 <= i < 512 ensures Entry(m', g.tables[n], i) == EntryOf(g', n, i) {
      SameEntries(g, g', n, i);
    }
  }

  /** One turn of unmappages' loop. */
  lemma UnmapTurn(g: Mmu, r: nat, vpn: nat, last: nat)
    ensures var g' := g.(leaves := g.leaves - {Page(r, vpn)});
            UnmapFrom(g, r, vpn, last) ==
            if vpn >= MAXVPN || Page(r, vpn) !in g.leaves then PageTables.Result(NotMapped, g)
            else if vpn == last then PageTables.Result(Removed, g')
            else UnmapFrom(g', r, vpn + 1, last)
  {}

  lemma ImageLeaves(m: seq<Word>, head: nat, num: nat, end: nat, g: Mmu)
    requires Image(m, head, num, end, g)
    ensures forall a :: a in g.leaves ==> Last(a.root, a.vpn) in g.tables
  {}

  /** A page just taken, all zero, is an empty root. */
  lemma RootImage(m: seq<Word>, head: nat, num: nat, end: nat, g0: Mmu, g1: Mmu, p: nat)
    requires Ok(g0) && g0.free != [] && p == g0.free[0]
    requires g1 == PageTables.AllocPage(g0).g && Image(m, head, num, end, g1)
    requires forall j: nat :: j < 512 ==> Entry(m, p, j) == 0
    ensures Image(m, head, num, end, Create(g0).g)
  {
    hide Entry, Ok;
    CreateOk(g0);
    FreshTreeVacant(g0, p);
    var g2 := Create(g0).g;
    assert g2.tables == g1.tables[Root(p) := p] && g2.leaves == g1.leaves;
    forall n, i | n in g2.tables && 0 <= i < 512 ensures Entry(m, g2.tables[n], i) == EntryOf(g2, n, i) {
      if n != Root(p) {
        assert Entry(m, g1.tables[n], i) == EntryOf(g1, n, i);
        if n.level > 0 { assert Kid(n, i) != Root(p); }
      }
    }
  }

  // --------------------------------------------------------- taking a tree apart

  /** No page of the subtree at n is on the free list. */
  ghost predicate Detached(g: Mmu, n: Node) {
    forall k :: k in g.tables && Under(k, n) ==> g.tables[k] !in g.free
  }

  /** Memory holds the entries of every table of the subtree at n. */
  ghost predicate SubTables(m: seq<Word>, g: Mmu, n: Node) {
    forall k, i {:trigger Entry(m, g.tables[k], i)} :: k in g.tables && Under(k, n) && 0 <= i < 512 ==>
      Entry(m, g.tables[k], i) == EntryOf(g, k, i)
  }

  /** Memory outside the subtree at n is the same. */
  ghost predicate KeptOutside(m: seq<Word>, m': seq<Word>, g: Mmu, n: Node) {
    && |m'| == |m|
    && (forall q: nat, j: nat {:trigger Entry(m', q, j)} :: j < 512 && !Holds(g, n, q) ==>
          Entry(m', q, j) == Entry(m, q, j))
  }

  /** Memory outside the subtrees below the first i entries of n is the same. */
  ghost predicate KeptBelow(m: seq<Word>, m': seq<Word>, g: Mmu, n: Node, i: nat) {
    && |m'| == |m|
    && (forall q: nat, j: nat {:trigger Entry(m', q, j)} :: j < 512 && !HoldsBelow(g, n, i, q) ==>
          Entry(m', q, j) == Entry(m, q, j))
  }

  lemma NothingFreed(m: seq<Word>, g: Mmu, n: Node)
    requires n in g.tables
    ensures KeptBelow(m, m, g, n, 0)
    ensures g == g.(free := FreedKids(g.tables, n, 0) + g.free)
  {
    assert [] + g.free == g.free;
  }

  /** The table being freed still holds its own entries: only pages below it have changed. */
  lemma OwnPageKept(m0: seq<Word>, m: seq<Word>, g: Mmu, n: Node, i: nat)
    requires TreesOk(g) && LeavesOk(g) && Freeable(g, n.root) && n in g.tables && i < 512
    requires |m0| == WORDS && SubTables(m0, g, n) && KeptBelow(m0, m, g, n, i)
    ensures 4096 * g.tables[n] / 8 + i < |m|
    ensures var e := m[4096 * g.tables[n] / 8 + i];
            && (IsTablePte(e) <==> n.level > 0 && Kid(n, i) in g.tables)
            && (IsTablePte(e) ==> PTE2PA(e) == 4096 * g.tables[Kid(n, i)] < TWO64)
  {
    hide EntryOf, IsTablePte, PTE2PA;
    assert Under(n, n);
    assert Entry(m0, g.tables[n], i) == EntryOf(g, n, i);
    assert !HoldsBelow(g, n, i, g.tables[n]);
    assert m[4096 * g.tables[n] / 8 + i] == Entry(m, g.tables[n], i) == EntryOf(g, n, i);
    if n.level > 0 {
      UpperEntry(g, n, i);
      assert IsTablePte(EntryOf(g, n, i)) ==> PteValid(EntryOf(g, n, i)) by { TableIsValid(EntryOf(g, n, i)); }
    } else {
      LeafWord(g, n, i);
    }
  }

  lemma TableIsValid(e: nat)
    ensures IsTablePte(e) ==> PteValid(e)
  {}

  /** Freeing the subtree below entry i can start. */
  lemma KidReady(m0: seq<Word>, m: seq<Word>, g0: Mmu, g: Mmu, n: Node, i: nat)
    requires TreesOk(g0) && LeavesOk(g0) && Freeable(g0, n.root)
    requires n in g0.tables && n.level > 0 && i < 512 && Kid(n, i) in g0.tables
    requires g == g0.(free := FreedKids(g0.tables, n, i) + g0.free)
    requires Detached(g0, n) && SubTables(m0, g0, n) && KeptBelow(m0, m, g0, n, i)
    ensures TreesOk(g) && LeavesOk(g) && Freeable(g, n.root) && Detached(g, Kid(n, i)) && SubTables(m, g, Kid(n, i))
  {
    hide EntryOf;
    var kid := Kid(n, i);
    forall k | k in g.tables && Under(k, kid)
      ensures Under(k, n) && !HoldsBelow(g0, n, i, g.tables[k]) && g.tables[k] !in g.free
    {
      UnderKid(k, n, i);
      assert Holds(g0, kid, g0.tables[k]);
      FreedKidsMembers(g0, n, i, g0.tables[k]);
    }
    forall k, j | k in g.tables && Under(k, kid) && 0 <= j < 512
      ensures Entry(m, g.tables[k], j) == EntryOf(g, k, j)
    {
      SameEntries(g0, g, k, j);
      assert Entry(m0, g0.tables[k], j) == EntryOf(g0, k, j);
    }
  }

  lemma KidDone(m0: seq<Word>, m1: seq<Word>, m2: seq<Word>, g0: Mmu, g: Mmu, n: Node, i: nat)
    requires n in g0.tables && n.level > 0 && i < 512 && Kid(n, i) in g0.tables
    requires g == g0.(free := Freed(g0.tables, Kid(n, i)) + (FreedKids(g0.tables, n, i) + g0.free))
    requires KeptBelow(m0, m1, g0, n, i)
    requires KeptOutside(m1, m2, g0.(free := FreedKids(g0.tables, n, i) + g0.free), Kid(n, i))
    ensures g == g0.(free := FreedKids(g0.tables, n, i + 1) + g0.free)
    ensures KeptBelow(m0, m2, g0, n, i + 1)
  {
    assert FreedKids(g0.tables, n, i + 1) == Freed(g0.tables, Kid(n, i)) + FreedKids(g0.tables, n, i);
    var g1 := g0.(free := FreedKids(g0.tables, n, i) + g0.free);
    forall q: nat | !HoldsBelow(g0, n, i + 1, q) ensures !HoldsBelow(g0, n, i, q) && !Holds(g1, Kid(n, i), q) {
      if Holds(g1, Kid(n, i), q) {
        var k :| k in g0.tables && g0.tables[k] == q && Under(k, Kid(n, i));
        UnderKid(k, n, i);
      }
    }
  }

  lemma KidAbsent(m0: seq<Word>, m: seq<Word>, g: Mmu, n: Node, i: nat)
    requires n in g.tables && i < 512 && (n.level == 0 || Kid(n, i) !in g.tables)
    requires KeptBelow(m0, m, g, n, i)
    ensures KeptBelow(m0, m, g, n, i + 1)
    ensures FreedKids(g.tables, n, i + 1) == FreedKids(g.tables, n, i)
  {
    if n.level == 0 {
      assert FreedKids(g.tables, n, i) == [];
    } else {
      assert [] + FreedKids(g.tables, n, i) == FreedKids(g.tables, n, i);
    }
  }

  /** While its subtrees are being freed, a table's own page is not on the free list. */
  lemma NotYetFree(g0: Mmu, g: Mmu, n: Node, i: nat)
    requires TreesOk(g0) && n in g0.tables && Detached(g0, n) && FreeOk(g) && i <= 512
    requires g == g0.(free := FreedKids(g0.tables, n, i) + g0.free)
    ensures InPool(g, g.tables[n]) && g.tables[n] > 0 && g.tables[n] !in g.free
  {
    assert Under(n, n);
    FreedKidsMembers(g0, n, i, g0.tables[n]);
  }

  lemma PushedAll(m0: seq<Word>, m1: seq<Word>, m2: seq<Word>, g0: Mmu, g: Mmu, n: Node)
    requires n in g0.tables
    requires g == g0.(free := [g0.tables[n]] + (FreedKids(g0.tables, n, 512) + g0.free))
    requires KeptBelow(m0, m1, g0, n, 512) && OnlyPage(m1, m2, g0.tables[n])
    ensures g == g0.(free := Freed(g0.tables, n) + g0.free)
    ensures KeptOutside(m0, m2, g0, n)
  {
    assert Freed(g0.tables, n) == [g0.tables[n]] + FreedKids(g0.tables, n, 512);
    assert Under(n, n);
    forall q: nat | !Holds(g0, n, q) ensures q != g0.tables[n] && !HoldsBelow(g0, n, 512, q) {}
  }

  lemma WholeTree(m: seq<Word>, g: Mmu, r: nat)
    requires Ok(g) && Tables(m, g) && Root(r) in g.tables
    ensures g.tables[Root(r)] == r
    ensures TreesOk(g) && Detached(g, Root(r)) && SubTables(m, g, Root(r))
  {}

  /** Freeing one tree leaves the entries of all the others. */
  lemma OtherTreesKept(m: seq<Word>, m': seq<Word>, g: Mmu, r: nat)
    requires Ok(g) && Tables(m, g) && Root(r) in g.tables && KeptOutside(m, m', g, Root(r))
    ensures Tables(m', Free(g, r))
  {
    var g' := Free(g, r);
    forall n, i | n in g'.tables && 0 <= i < 512 ensures Entry(m', g'.tables[n], i) == EntryOf(g', n, i) {
      assert !Holds(g, Root(r), g.tables[n]);
      assert Entry(m, g.tables[n], i) == EntryOf(g, n, i);
    }
  }

  lemma NothingToMap(g: Mmu, r: nat, xs: seq<Range>)
    requires |xs| == 0
    ensures MapAll(g, r, xs) == PageTables.Result(Mapped, g)
  {}
}
