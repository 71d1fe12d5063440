/** mappages seen by its callers: the addresses it translates, its inverse, and sequences of
    ranges such as the kernel's own. */
module MappedRanges {
  import opened Bits
  import opened Sv39
  import opened PageTables
  import opened PageTableInvariant
  import opened TableFreeing
  import opened Mapping

  /** va2pa: 0 when there is no valid leaf. */
  function Va2Pa(g: Mmu, r: nat, va: Word): nat {
    if va >= MAXVA || Page(r, va / 4096) !in g.leaves then 0
    else g.leaves[Page(r, va / 4096)] / 1024 * 4096 % TWO64 + va % 4096
  }

  lemma LeafTarget(pa: Word, perm: Word)
    requires perm < 1024
    ensures LeafPte(pa, perm) / 1024 * 4096 % TWO64 == pa - pa % 4096
  {
    hide LeafPte;
    LeafPteFields(pa, perm);
    DivUnique(LeafEntry(pa, perm), 1024, pa / 4096, perm - perm % 2 + 1);
  }

  lemma ByteInPage(va: nat, pa: Word, k: nat)
    requires va % 4096 == pa % 4096
    ensures var q := (pa + PGSIZE * ((va + k) / 4096 - va / 4096)) % TWO64;
            q - q % 4096 + (va + k) % 4096 == (pa + k) % TWO64
  {
    var d := (va + k) / 4096 - va / 4096;
    var x, o := pa + PGSIZE * d, (va + k) % 4096;
    assert pa + k == x - pa % 4096 + o by { OffsetSplit(va, k); }
    assert x % 4096 == pa % 4096 by { DivUnique(x, 4096, pa / 4096 + d, pa % 4096); }
    SamePage(x, pa % 4096, o);
  }

  lemma OffsetSplit(va: nat, k: nat)
    ensures k == 4096 * ((va + k) / 4096 - va / 4096) + (va + k) % 4096 - va % 4096
    ensures (va + k) / 4096 >= va / 4096
  {}

  /** Bytes of one page stay together in 64-bit arithmetic. */
  lemma SamePage(x: nat, o: nat, o': nat)
    requires x % 4096 == o && o' < 4096
    ensures var q := x % TWO64; q - q % 4096 + o' == (x - o + o') % TWO64
  {
    var q := x % TWO64;
    PageOfMod(x);
    DivUnique(x - o + o', TWO64, x / TWO64, q - q % 4096 + o');
  }

  lemma PageOfMod(x: nat)
    ensures x % TWO64 % 4096 == x % 4096
  {
    var y := x % TWO64;
    DivUnique(x, 4096, x / TWO64 * 0x10_0000_0000_0000 + y / 4096, y % 4096);
  }

  /** The leaf behind byte va+k of a mapped range. */
  lemma MappedLeaf(g: Mmu, r: nat, va: Word, size: Word, pa: Word, perm: Word, k: nat)
    requires va + size <= TWO64 && k < size
    requires MapPages(g, r, va, size, pa, perm).val == Mapped
    ensures var leaves, v := MapPages(g, r, va, size, pa, perm).g.leaves, (va + k) / 4096;
            && va + k < MAXVA && va / 4096 <= v && Page(r, v) in leaves
            && leaves[Page(r, v)] == LeafOf(va / 4096, v, pa, perm)
  {
    hide MapFrom, Done, LeafPte, LastPage, InRange;
    var vpn, last := va / PGSIZE, LastPage(va, size);
    var n := Done(g, r, vpn, last, pa, perm);
    var g' := MapFrom(g, r, vpn, last, pa, perm).g;
    assert Extends(g, g', r, vpn, n, pa, perm) by { MapFromLeaves(g, r, vpn, last, pa, perm); }
    assert last < MAXVPN && n == last - vpn + 1 by { MapFromStops(g, r, vpn, last, pa, perm); }
    PageWithin(va, size, k);
    InRangeOf(r, (va + k) / 4096, vpn, n);
  }

  /** After mappages returns 0, byte va+k is translated to pa+k for every k in the range,
      when va and pa agree modulo the page size. */
  lemma MappedBytes(g: Mmu, r: nat, va: Word, size: Word, pa: Word, perm: Word, k: nat)
    requires perm < 1024 && va % 4096 == pa % 4096 && va + size <= TWO64 && k < size
    requires MapPages(g, r, va, size, pa, perm).val == Mapped
    ensures Va2Pa(MapPages(g, r, va, size, pa, perm).g, r, va + k) == (pa + k) % TWO64
  {
    hide MapPages, LeafPte;
    MappedLeaf(g, r, va, size, pa, perm, k);
    LeafTarget((pa + PGSIZE * ((va + k) / 4096 - va / 4096)) % TWO64, perm);
    ByteInPage(va, pa, k);
  }

  lemma InRangeOf(r: nat, v: nat, vpn: nat, n: nat)
    requires vpn <= v < vpn + n
    ensures InRange(Page(r, v), r, vpn, n)
  {}

  lemma PageWithin(va: Word, size: Word, k: nat)
    requires va + size <= TWO64 && k < size
    ensures va / PGSIZE <= (va + k) / 4096 <= LastPage(va, size)
    ensures LastPage(va, size) < MAXVPN ==> va + k < MAXVA
  {
    assert (va + size - 1) % TWO64 == va + size - 1;
  }

  /** The pages mappages works on are those that share a byte with the range, aligned or not. */
  lemma TouchedPages(va: Word, size: Word, v: nat)
    requires size > 0 && va + size <= TWO64
    ensures va / PGSIZE <= v <= LastPage(va, size) <==> v * 4096 < va + size && va < (v + 1) * 4096
  {
    assert (va + size - 1) % TWO64 == va + size - 1;
  }

  /** After mappages returns 0, a page is mapped exactly when it was before or shares a byte with the
      range. */
  lemma MappedPages(g: Mmu, r: nat, va: Word, size: Word, pa: Word, perm: Word, v: nat)
    requires va + size <= TWO64 && MapPages(g, r, va, size, pa, perm).val == Mapped
    ensures Page(r, v) in MapPages(g, r, va, size, pa, perm).g.leaves <==>
            Page(r, v) in g.leaves || (v * 4096 < va + size && va < (v + 1) * 4096)
  {
    hide MapFrom, Done, LeafPte, LastPage;
    var vpn, last := va / PGSIZE, LastPage(va, size);
    MapFromLeaves(g, r, vpn, last, pa, perm);
    MapFromStops(g, r, vpn, last, pa, perm);
    TouchedPages(va, size, v);
  }

  // ---------------------------------------------------------------- unmapping

  lemma {:induction false} UnmapFromLeaves(g: Mmu, r: nat, vpn: nat, last: nat)
    requires vpn <= last < MAXVPN
    requires forall v :: vpn <= v <= last ==> Page(r, v) in g.leaves
    ensures UnmapFrom(g, r, vpn, last).val == Removed
    ensures forall a :: a in UnmapFrom(g, r, vpn, last).g.leaves <==>
                        a in g.leaves && !InRange(a, r, vpn, last - vpn + 1)
    decreases last - vpn
  {
    var g' := g.(leaves := g.leaves - {Page(r, vpn)});
    if vpn != last { UnmapFromLeaves(g', r, vpn + 1, last); }
  }

  /** Unmapping succeeds exactly when every page of the range is mapped below MAXVA. */
  lemma {:induction false} UnmapSucceedsIff(g: Mmu, r: nat, vpn: nat, last: nat)
    ensures UnmapFrom(g, r, vpn, last).val == Removed <==>
            vpn <= last < MAXVPN && forall v :: vpn <= v <= last ==> Page(r, v) in g.leaves
    decreases MAXVPN - vpn
  {
    if vpn < MAXVPN && Page(r, vpn) in g.leaves && vpn != last {
      var g' := g.(leaves := g.leaves - {Page(r, vpn)});
      UnmapSucceedsIff(g', r, vpn + 1, last);
      assert forall v :: v != vpn ==> (Page(r, v) in g'.leaves <==> Page(r, v) in g.leaves);
    }
  }

  /** unmappages undoes mappages: every translation is what it was, though the tree may have
      grown. */
  lemma UnmapUndoesMap(g: Mmu, r: nat, va: Word, size: Word, pa: Word, perm: Word)
    requires MapPages(g, r, va, size, pa, perm).val == Mapped
    ensures var m := MapPages(g, r, va, size, pa, perm);
            var u := UnmapPages(m.g, r, va, size);
            && u.val == Removed
            && u.g == m.g.(leaves := g.leaves)
  {
    hide MapFrom, LeafPte, UnmapFrom;
    var vpn, last := va / PGSIZE, LastPage(va, size);
    var m := MapFrom(g, r, vpn, last, pa, perm);
    MapFromLeaves(g, r, vpn, last, pa, perm);
    MapFromStops(g, r, vpn, last, pa, perm);
    var n := last - vpn + 1;
    forall v | vpn <= v <= last ensures Page(r, v) in m.g.leaves {
      assert InRange(Page(r, v), r, vpn, n);
    }
    UnmapFromLeaves(m.g, r, vpn, last);
    UnmapFromFrame(m.g, r, vpn, last);
    assert UnmapFrom(m.g, r, vpn, last).g.leaves == g.leaves;
  }

  // ------------------------------------------------------- sequences of ranges

  /** One call of mappages. */
  datatype Range = Range(va: Word, size: Word, pa: Word, perm: Word)

  function First(x: Range): nat { x.va / PGSIZE }

  function Final(x: Range): nat
    requires x.size > 0
  {
    LastPage(x.va, x.size)
  }

  function MapRange(g: Mmu, r: nat, x: Range): Result<MapResult> {
    MapPages(g, r, x.va, x.size, x.pa, x.perm)
  }

  /** Calls of mappages in order, up to the first that does not return 0. */
  function MapAll(g: Mmu, r: nat, xs: seq<Range>): Result<MapResult>
    decreases |xs|
  {
    if xs == [] then Result(Mapped, g)
    else
      var m := MapRange(g, r, xs[0]);
      if m.val != Mapped then m else MapAll(m.g, r, xs[1..])
  }

  /** Non-empty, non-wrapping, below MAXVA, and with no page in common. */
  predicate Apart(xs: seq<Range>) {
    && (forall i :: 0 <= i < |xs| ==> xs[i].size > 0 && First(xs[i]) <= Final(xs[i]) < MAXVPN)
    && (forall i, j :: 0 <= i < j < |xs| ==> Final(xs[i]) < First(xs[j]) || Final(xs[j]) < First(xs[i]))
  }

  ghost predicate AllVacant(g: Mmu, r: nat, xs: seq<Range>)
    requires Apart(xs)
  {
    forall i :: 0 <= i < |xs| ==> Vacant(g, r, First(xs[i]), Final(xs[i]))
  }

  ghost function NeededBy(r: nat, x: Range): set<Node>
    requires x.size > 0 && First(x) <= Final(x)
  {
    Needed(r, First(x), Final(x) - First(x) + 1)
  }

  ghost function AllNeeded(r: nat, xs: seq<Range>): set<Node>
    requires Apart(xs)
  {
    if xs == [] then {} else NeededBy(r, xs[0]) + AllNeeded(r, xs[1..])
  }

  lemma RestVacant(g: Mmu, r: nat, xs: seq<Range>)
    requires xs != [] && Apart(xs) && AllVacant(g, r, xs)
    requires MapRange(g, r, xs[0]).val == Mapped
    ensures Apart(xs[1..])
    ensures AllVacant(MapRange(g, r, xs[0]).g, r, xs[1..])
  {
    hide MapFrom, Done, LeafPte, LastPage, InRange, Extends;
    var x := xs[0];
    MapFromLeaves(g, r, First(x), Final(x), x.pa, x.perm);
    MapFromStops(g, r, First(x), Final(x), x.pa, x.perm);
    var g' := MapFrom(g, r, First(x), Final(x), x.pa, x.perm).g;
    forall i | 0 <= i < |xs[1..]| ensures Vacant(g', r, First(xs[1..][i]), Final(xs[1..][i])) {
      var y := xs[i + 1];
      assert xs[1..][i] == y && Vacant(g, r, First(y), Final(y));
      StillVacant(g, g', r, First(x), Final(x) - First(x) + 1, x.pa, x.perm, First(y), Final(y));
    }
  }

  lemma StillVacant(g: Mmu, g': Mmu, r: nat, vpn: nat, n: nat, pa: Word, perm: Word, first: nat, last: nat)
    requires Extends(g, g', r, vpn, n, pa, perm) && Vacant(g, r, first, last)
    requires first <= last && (last < vpn || vpn + n <= first)
    ensures Vacant(g', r, first, last)
  {
    hide LeafPte, LeafOf;
  }

  /** A mapping from g that calls for the tables in `need`: it succeeds exactly when those of
      them that are missing number at most the free pages, and takes exactly that many. */
  ghost predicate Costs(g: Mmu, m: Result<MapResult>, need: set<Node>) {
    var missing := need - g.tables.Keys;
    && (m.val == Mapped <==> |missing| <= |g.free|)
    && (m.val == Mapped ==>
          |m.g.free| == |g.free| - |missing| && m.g.tables.Keys == g.tables.Keys + need)
  }

  lemma SplitCost(keys: set<Node>, a: set<Node>, b: set<Node>)
    ensures |(a + b) - keys| == |a - keys| + |b - (keys + a)|
  {
    assert (a + b) - keys == (a - keys) + (b - (keys + a));
  }

  lemma CostsAdd(g: Mmu, m: Result<MapResult>, m': Result<MapResult>, a: set<Node>, b: set<Node>)
    requires Costs(g, m, a)
    requires if m.val == Mapped then Costs(m.g, m', b) else m' == m
    ensures Costs(g, m', a + b)
  {
    SplitCost(g.tables.Keys, a, b);
    if m.val == Mapped { assert g.tables.Keys + (a + b) == m.g.tables.Keys + b; }
  }

  lemma MapRangeCosts(g: Mmu, r: nat, x: Range)
    requires x.size > 0 && First(x) <= Final(x) < MAXVPN && Vacant(g, r, First(x), Final(x))
    ensures Costs(g, MapRange(g, r, x), NeededBy(r, x))
  {
    hide MapFrom, Needed, LastPage, Vacant;
    MapSucceedsIff(g, r, First(x), Final(x), x.pa, x.perm);
  }

  /** Mapping pairwise disjoint unmapped ranges one after another succeeds exactly when the
      tables missing for all of them together number at most the free pages; it takes exactly
      that many. */
  lemma {:induction false} MapAllCosts(g: Mmu, r: nat, xs: seq<Range>)
    requires Apart(xs) && AllVacant(g, r, xs)
    ensures Costs(g, MapAll(g, r, xs), AllNeeded(r, xs))
    decreases |xs|
  {
    hide MapRange, NeededBy, LastPage, First, Vacant, Costs;
    if xs == [] {
      assert Costs(g, MapAll(g, r, xs), {}) by { NothingCosts(g); }
    } else {
      var m := MapRange(g, r, xs[0]);
      MapRangeCosts(g, r, xs[0]);
      if m.val == Mapped {
        RestVacant(g, r, xs);
        MapAllCosts(m.g, r, xs[1..]);
      }
      CostsAdd(g, m, MapAll(g, r, xs), NeededBy(r, xs[0]), AllNeeded(r, xs[1..]));
    }
  }

  lemma NothingCosts(g: Mmu)
    ensures Costs(g, Result(Mapped, g), {})
  {
    assert {} - g.tables.Keys == {};
  }

  // ------------------------------------------------------------ the kernel's own

  /** The four calls of kvminit: RAM, UART, PLIC, CLINT, each mapped to itself. */
  const KERNEL_RANGES: seq<Range> := [
    Range(0x8000_0000, 0x800_0000, 0x8000_0000, 14),
    Range(0x1000_0000, 0x1000, 0x1000_0000, 6),
    Range(0x0C00_0000, 0x400_0000, 0x0C00_0000, 6),
    Range(0x0200_0000, 0x1_0000, 0x0200_0000, 6)
  ]

  /** Level-0 tables with consecutive prefixes. */
  ghost function Row(r: nat, from: nat, n: nat): set<Node> {
    set x | from <= x < from + n :: Node(r, 0, x)
  }

  lemma {:induction false} RowSize(r: nat, from: nat, n: nat)
    ensures |Row(r, from, n)| == n
  {
    if n == 0 {
      assert Row(r, from, n) == {};
    } else {
      RowSize(r, from, n - 1);
      assert Row(r, from, n) == Row(r, from, n - 1) + {Node(r, 0, from + n - 1)};
    }
  }

  /** A range inside one gigabyte, aligned to 2 MB tables at its start. */
  lemma NeededRow(r: nat, vpn: nat, n: nat, top: nat)
    requires n > 0 && vpn % 512 == 0
    requires top * 262144 <= vpn && vpn + n <= (top + 1) * 262144
    ensures Needed(r, vpn, n) == {Node(r, 1, top)} + Row(r, vpn / 512, (n + 511) / 512)
  {
    var rhs := {Node(r, 1, top)} + Row(r, vpn / 512, (n + 511) / 512);
    forall v | vpn <= v < vpn + n ensures Mid(r, v) == Node(r, 1, top) && Last(r, v) in rhs {
      assert v / 262144 == top;
    }
    assert Mid(r, vpn) in Needed(r, vpn, n);
    forall k | k in Row(r, vpn / 512, (n + 511) / 512) ensures k in Needed(r, vpn, n) {
      var v := k.pre * 512;
      assert vpn <= v < vpn + n && Last(r, v) == k;
    }
  }

  lemma KernelRangesApart()
    ensures Apart(KERNEL_RANGES)
    ensures First(KERNEL_RANGES[0]) == 0x8_0000 && Final(KERNEL_RANGES[0]) == 0x8_7FFF
    ensures First(KERNEL_RANGES[1]) == 0x1_0000 && Final(KERNEL_RANGES[1]) == 0x1_0000
    ensures First(KERNEL_RANGES[2]) == 0xC000 && Final(KERNEL_RANGES[2]) == 0xFFFF
    ensures First(KERNEL_RANGES[3]) == 0x2000 && Final(KERNEL_RANGES[3]) == 0x200F
  {}

  /** Two level-1 tables and 64 + 1 + 32 + 1 level-0 tables. */
  lemma KernelTables(r: nat)
    requires Apart(KERNEL_RANGES)
    ensures |AllNeeded(r, KERNEL_RANGES)| == 100
    ensures forall n :: n in AllNeeded(r, KERNEL_RANGES) ==> n.root == r && n.level < 2
  {
    hide Needed, NeededBy, Row, AllNeeded, Apart;
    KernelRangesApart();
    var xs := KERNEL_RANGES;
    KernelNeeded(r, xs[0], 2);
    KernelNeeded(r, xs[1], 0);
    KernelNeeded(r, xs[2], 0);
    KernelNeeded(r, xs[3], 0);
    AllNeededOfFour(r, xs);
    assert AllNeeded(r, xs) == KernelNodes(r);
    KernelNodesSize(r);
    KernelNodesOf(r);
  }

  ghost function KernelNodes(r: nat): set<Node> {
    {Node(r, 1, 2), Node(r, 1, 0)} + Row(r, 0x400, 64) + Row(r, 0x80, 1) + Row(r, 0x60, 32) + Row(r, 0x10, 1)
  }

  lemma KernelNodesSize(r: nat)
    ensures |KernelNodes(r)| == 100
  {
    hide Row;
    var s0 := {Node(r, 1, 2), Node(r, 1, 0)};
    var s1 := s0 + Row(r, 0x400, 64);
    var s2 := s1 + Row(r, 0x80, 1);
    var s3 := s2 + Row(r, 0x60, 32);
    RowMembers(r, 0x400, 64);
    RowMembers(r, 0x80, 1);
    RowMembers(r, 0x60, 32);
    AddRow(s0, r, 0x400, 64);
    AddRow(s1, r, 0x80, 1);
    AddRow(s2, r, 0x60, 32);
    AddRow(s3, r, 0x10, 1);
  }

  lemma KernelNodesOf(r: nat)
    ensures forall n :: n in KernelNodes(r) ==> n.root == r && n.level < 2
  {}

  lemma RowMembers(r: nat, from: nat, n: nat)
    ensures forall k :: k in Row(r, from, n) <==> k.root == r && k.level == 0 && from <= k.pre < from + n
  {
    forall k: Node | k.root == r && k.level == 0 && from <= k.pre < from + n ensures k in Row(r, from, n) {
      assert k == Node(r, 0, k.pre);
    }
  }

  lemma AddRow(s: set<Node>, r: nat, from: nat, n: nat)
    requires forall k :: k in s ==> !(k.level == 0 && from <= k.pre < from + n)
    ensures |s + Row(r, from, n)| == |s| + n
  {
    RowMembers(r, from, n);
    RowSize(r, from, n);
    assert s !! Row(r, from, n);
  }

  lemma AllNeededOfFour(r: nat, xs: seq<Range>)
    requires |xs| == 4 && Apart(xs)
    ensures AllNeeded(r, xs) == NeededBy(r, xs[0]) + NeededBy(r, xs[1]) + NeededBy(r, xs[2]) + NeededBy(r, xs[3])
  {
    hide Needed, NeededBy;
    var ys := xs[1..];
    var zs := ys[1..];
    var ws := zs[1..];
    assert ys[0] == xs[1] && zs[0] == xs[2] && ws[0] == xs[3] && ws[1..] == [];
    assert Apart(ys) && Apart(zs) && Apart(ws);
    assert AllNeeded(r, ws) == NeededBy(r, xs[3]);
    assert AllNeeded(r, zs) == NeededBy(r, xs[2]) + AllNeeded(r, ws);
    assert AllNeeded(r, ys) == NeededBy(r, xs[1]) + AllNeeded(r, zs);
  }

  lemma KernelNeeded(r: nat, x: Range, top: nat)
    requires x in KERNEL_RANGES && x.size > 0 && top == First(x) / 262144
    ensures var n := Final(x) - First(x) + 1;
            n > 0 && NeededBy(r, x) == {Node(r, 1, top)} + Row(r, First(x) / 512, (n + 511) / 512)
  {
    KernelRangesApart();
    NeededRow(r, First(x), Final(x) - First(x) + 1, top);
  }

  /** kvminit: a fresh tree and the four ranges; false where kvminit panics. */
  function KvmInit(g: Mmu): Result<bool> {
    var c := Create(g);
    if c.val == 0 then Result(false, c.g)
    else
      var m := MapAll(c.g, c.val, KERNEL_RANGES);
      Result(m.val == Mapped, m.g)
  }

  /** The kernel's page table takes 101 pages: kvminit gets through exactly when the pool has
      that many, and then uses exactly that many. */
  lemma KvmInitTakes101(g: Mmu)
    requires Ok(g)
    ensures KvmInit(g).val <==> |g.free| >= 101
    ensures KvmInit(g).val ==> |KvmInit(g).g.free| == |g.free| - 101
  {
    hide MapAll, AllNeeded, Apart, LastPage;
    if g.free != [] {
      var p := g.free[0];
      var g1 := Create(g).g;
      assert InPool(g, p);
      CreateOk(g);
      KernelRangesApart();
      FreshTreeVacant(g, p);
      MapAllCosts(g1, p, KERNEL_RANGES);
      KernelTables(p);
      var need := AllNeeded(p, KERNEL_RANGES);
      assert need - g1.tables.Keys == need;
    }
  }

  /** A page on the free stack roots no tree. */
  lemma FreshTreeVacant(g: Mmu, p: nat)
    requires Ok(g) && p in g.free
    ensures forall n :: n in g.tables ==> n.root != p
    ensures forall a :: a in g.leaves ==> a.root != p
  {
    forall n | n in g.tables ensures n.root != p {
      RootOwnsTree(g, n);
    }
  }
}
