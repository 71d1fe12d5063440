/** mappages and unmappages over whole ranges: which translations change, when mapping
    succeeds, and how many pages it takes. */
module Mapping {
  import opened Bits
  import opened Sv39
  import opened PageTables
  import opened PageTableInvariant

  // ------------------------------------------------------- which leaves change

  /** How many leaf entries MapFrom writes before it stops. */
  ghost function Done(g: Mmu, r: nat, vpn: nat, last: nat, pa: Word, perm: Word): nat
    decreases MAXVPN - vpn
  {
    var w := WalkAlloc(g, r, vpn);
    if !w.val || Page(r, vpn) in w.g.leaves then 0
    else if vpn == last then 1
    else
      var g' := Written(w.g, r, vpn, pa, perm);
      1 + Done(g', r, vpn + 1, last, (pa + PGSIZE) % TWO64, perm)
  }

  /** One turn of the loop. */
  lemma MapFromTurn(g: Mmu, r: nat, vpn: nat, last: nat, pa: Word, perm: Word)
    ensures var w := WalkAlloc(g, r, vpn);
            var g1 := Written(w.g, r, vpn, pa, perm);
            var m := MapFrom(g, r, vpn, last, pa, perm);
            var n := Done(g, r, vpn, last, pa, perm);
            if !w.val then m == Result(NoMemory, w.g) && n == 0
            else if Page(r, vpn) in g.leaves then m == Result(Remap, w.g) && n == 0
            else if vpn == last then m == Result(Mapped, g1) && n == 1
            else && vpn < MAXVPN && m == MapFrom(g1, r, vpn + 1, last, (pa + PGSIZE) % TWO64, perm)
                 && n == 1 + Done(g1, r, vpn + 1, last, (pa + PGSIZE) % TWO64, perm)
  {
    hide Written, LeafPte;
    WalkAllocFrame(g, r, vpn);
  }

  predicate InRange(a: Page, r: nat, vpn: nat, n: nat) {
    a.root == r && vpn <= a.vpn < vpn + n
  }

  /** The leaf that a mapping of vpn.. to pa.. gives page v. */
  function LeafOf(vpn: nat, v: nat, pa: Word, perm: Word): nat
    requires vpn <= v
  {
    LeafPte((pa + PGSIZE * (v - vpn)) % TWO64, perm)
  }

  /** g' has the leaves of g and, on n formerly unmapped pages from vpn on, those of the mapping. */
  ghost predicate Extends(g: Mmu, g': Mmu, r: nat, vpn: nat, n: nat, pa: Word, perm: Word) {
    && (forall a :: a in g'.leaves <==> a in g.leaves || InRange(a, r, vpn, n))
    && (forall a :: a in g.leaves ==> !InRange(a, r, vpn, n) && g'.leaves[a] == g.leaves[a])
    && (forall a :: InRange(a, r, vpn, n) ==> g'.leaves[a] == LeafOf(vpn, a.vpn, pa, perm))
  }

  lemma NextLeaf(vpn: nat, v: nat, pa: Word, perm: Word)
    requires vpn < v
    ensures LeafOf(vpn + 1, v, (pa + PGSIZE) % TWO64, perm) == LeafOf(vpn, v, pa, perm)
  {
    ModShift(pa + PGSIZE, PGSIZE * (v - vpn - 1));
    assert pa + PGSIZE + PGSIZE * (v - vpn - 1) == pa + PGSIZE * (v - vpn);
  }

  lemma ModShift(x: nat, d: nat)
    ensures (x % TWO64 + d) % TWO64 == (x + d) % TWO64
  {
    var y := x % TWO64 + d;
    DivUnique(x + d, TWO64, x / TWO64 + y / TWO64, y % TWO64);
  }

  /** The leaves after MapFrom, whatever its outcome: a prefix of the range has been added. */
  lemma {:induction false} MapFromLeaves(g: Mmu, r: nat, vpn: nat, last: nat, pa: Word, perm: Word)
    ensures Extends(g, MapFrom(g, r, vpn, last, pa, perm).g, r, vpn, Done(g, r, vpn, last, pa, perm), pa, perm)
    decreases MAXVPN - vpn
  {
    hide MapFrom, Done, WalkAlloc, LeafPte, Mid, Last;
    var w := WalkAlloc(g, r, vpn);
    MapFromTurn(g, r, vpn, last, pa, perm);
    WalkAllocFrame(g, r, vpn);
    assert PGSIZE * (vpn - vpn) == 0 && pa % TWO64 == pa;
    if w.val && Page(r, vpn) !in g.leaves {
      var g1 := Written(w.g, r, vpn, pa, perm);
      if vpn != last {
        var pa1: Word := (pa + PGSIZE) % TWO64;
        MapFromLeaves(g1, r, vpn + 1, last, pa1, perm);
        var n := Done(g1, r, vpn + 1, last, pa1, perm);
        var g' := MapFrom(g1, r, vpn + 1, last, pa1, perm).g;
        forall a | InRange(a, r, vpn, n + 1) ensures g'.leaves[a] == LeafOf(vpn, a.vpn, pa, perm) {
          if a.vpn > vpn {
            NextLeaf(vpn, a.vpn, pa, perm);
            assert InRange(a, r, vpn + 1, n);
          } else {
            assert a == Page(r, vpn);
          }
        }
      }
    }
  }

  /** Why MapFrom stopped where it stopped. */
  lemma {:induction false} MapFromStops(g: Mmu, r: nat, vpn: nat, last: nat, pa: Word, perm: Word)
    ensures var m := MapFrom(g, r, vpn, last, pa, perm);
            var n := Done(g, r, vpn, last, pa, perm);
            && m.val != ZeroSize
            && (m.val == Mapped ==> vpn <= last < MAXVPN && n == last - vpn + 1)
            && (m.val != Mapped && vpn <= last ==> vpn + n <= last)
            && (m.val == Remap ==> vpn + n < MAXVPN && Page(r, vpn + n) in g.leaves)
            && (m.val == NoMemory && vpn + n < MAXVPN ==>
                  m.g.free == [] && (Mid(r, vpn + n) !in m.g.tables || Last(r, vpn + n) !in m.g.tables))
    decreases MAXVPN - vpn
  {
    hide MapFrom, Done, WalkAlloc, LeafPte, Mid, Last;
    var w := WalkAlloc(g, r, vpn);
    MapFromTurn(g, r, vpn, last, pa, perm);
    WalkAllocFrame(g, r, vpn);
    if w.val && Page(r, vpn) !in g.leaves && vpn != last {
      var g1 := Written(w.g, r, vpn, pa, perm);
      MapFromStops(g1, r, vpn + 1, last, (pa + PGSIZE) % TWO64, perm);
    }
  }

  // --------------------------------------------------- how many tables it takes

  /** The level-1 and level-0 tables on n pages from vpn on. */
  ghost function Needed(r: nat, vpn: nat, n: nat): set<Node> {
    (set v | vpn <= v < vpn + n :: Mid(r, v)) + (set v | vpn <= v < vpn + n :: Last(r, v))
  }

  /** walk turns free pages into tables one for one, and only into the two it needs. */
  lemma WalkAllocTables(g: Mmu, r: nat, vpn: nat)
    ensures var w := WalkAlloc(g, r, vpn);
            && |w.g.free| + |w.g.tables| == |g.free| + |g.tables|
            && g.tables.Keys <= w.g.tables.Keys <= g.tables.Keys + {Mid(r, vpn), Last(r, vpn)}
            && (w.val ==> w.g.tables.Keys == g.tables.Keys + {Mid(r, vpn), Last(r, vpn)})
            && (vpn >= MAXVPN ==> w.g == g)
  {
    if vpn < MAXVPN {
      var d := Descend(g, Mid(r, vpn));
      DescendTables(g, Mid(r, vpn));
      if d.val { DescendTables(d.g, Last(r, vpn)); }
    }
  }

  lemma DescendTables(g: Mmu, n: Node)
    ensures var d := Descend(g, n);
            && |d.g.free| + |d.g.tables| == |g.free| + |g.tables|
            && d.g.tables.Keys == if d.val then g.tables.Keys + {n} else g.tables.Keys
  {
    if n !in g.tables && g.free != [] {
      assert g.tables[n := g.free[0]].Keys == g.tables.Keys + {n};
    }
  }

  lemma NeededStep(r: nat, vpn: nat, n: nat)
    requires n > 0
    ensures Needed(r, vpn, 0) == {}
    ensures Needed(r, vpn, n) == {Mid(r, vpn), Last(r, vpn)} + Needed(r, vpn + 1, n - 1)
    ensures Needed(r, vpn, 1) == {Mid(r, vpn), Last(r, vpn)}
  {
    var s, t := Needed(r, vpn, n), {Mid(r, vpn), Last(r, vpn)} + Needed(r, vpn + 1, n - 1);
    forall k | k in s ensures k in t {}
    forall k | k in t ensures k in s {}
  }

  lemma NeededGrows(r: nat, vpn: nat, n: nat, m: nat)
    requires n <= m
    ensures Needed(r, vpn, n) <= Needed(r, vpn, m)
  {}

  lemma {:induction false} MapFromBalance(g: Mmu, r: nat, vpn: nat, last: nat, pa: Word, perm: Word)
    ensures var m := MapFrom(g, r, vpn, last, pa, perm);
            |m.g.free| + |m.g.tables| == |g.free| + |g.tables|
    decreases MAXVPN - vpn
  {
    hide MapFrom, Done, WalkAlloc, LeafPte, Mid, Last;
    var w := WalkAlloc(g, r, vpn);
    MapFromTurn(g, r, vpn, last, pa, perm);
    WalkAllocFrame(g, r, vpn);
    WalkAllocTables(g, r, vpn);
    if w.val && Page(r, vpn) !in g.leaves && vpn != last {
      var g1 := Written(w.g, r, vpn, pa, perm);
      MapFromBalance(g1, r, vpn + 1, last, (pa + PGSIZE) % TWO64, perm);
    }
  }

  /** The tables that exist once walks of the first n pages have succeeded and page n was tried;
      `all` when page n was not even tried. */
  ghost predicate Built(before: set<Node>, after: set<Node>, r: nat, vpn: nat, n: nat, all: bool) {
    && before + Needed(r, vpn, n) <= after <= before + Needed(r, vpn, n + 1)
    && (all ==> after == before + Needed(r, vpn, n))
  }

  ghost predicate PathAdded(before: set<Node>, after: set<Node>, r: nat, vpn: nat) {
    after == before + {Mid(r, vpn), Last(r, vpn)}
  }

  lemma BuiltStep(keys: set<Node>, keys1: set<Node>, after: set<Node>, r: nat, vpn: nat, n: nat, all: bool)
    requires PathAdded(keys, keys1, r, vpn) && Built(keys1, after, r, vpn + 1, n, all)
    ensures Built(keys, after, r, vpn, n + 1, all)
  {
    hide Needed, Mid, Last;
    NeededStep(r, vpn, n + 1);
    NeededStep(r, vpn, n + 2);
  }

  lemma BuiltFirst(g: Mmu, r: nat, vpn: nat)
    ensures var keys, w := g.tables.Keys, WalkAlloc(g, r, vpn);
            && Built(keys, w.g.tables.Keys, r, vpn, 0, false)
            && (w.val ==> PathAdded(keys, w.g.tables.Keys, r, vpn) && Built(keys, w.g.tables.Keys, r, vpn, 1, true))
  {
    hide WalkAlloc, Needed, Mid, Last;
    WalkAllocTables(g, r, vpn);
    NeededStep(r, vpn, 1);
    NeededGrows(r, vpn, 1, 2);
  }

  lemma {:induction false} MapFromTables(g: Mmu, r: nat, vpn: nat, last: nat, pa: Word, perm: Word)
    ensures var m := MapFrom(g, r, vpn, last, pa, perm);
            var n := Done(g, r, vpn, last, pa, perm);
            Built(g.tables.Keys, m.g.tables.Keys, r, vpn, n, m.val == Mapped)
    decreases MAXVPN - vpn
  {
    hide MapFrom, Done, WalkAlloc, LeafPte, Mid, Last, Built, PathAdded, Needed;
    MapFromTurn(g, r, vpn, last, pa, perm);
    BuiltFirst(g, r, vpn);
    var w := WalkAlloc(g, r, vpn);
    if w.val && Page(r, vpn) !in g.leaves && vpn != last {
      var g1 := Written(w.g, r, vpn, pa, perm);
      var pa1: Word := (pa + PGSIZE) % TWO64;
      var m := MapFrom(g1, r, vpn + 1, last, pa1, perm);
      MapFromTables(g1, r, vpn + 1, last, pa1, perm);
      BuiltStep(g.tables.Keys, g1.tables.Keys, m.g.tables.Keys, r, vpn,
                Done(g1, r, vpn + 1, last, pa1, perm), m.val == Mapped);
    }
  }

  ghost function Missing(g: Mmu, r: nat, vpn: nat, n: nat): set<Node> {
    Needed(r, vpn, n) - g.tables.Keys
  }

  lemma SizeOfUnion(keys: set<Node>, more: set<Node>)
    ensures |keys + more| == |keys| + |more - keys|
  {
    assert keys + more == keys + (more - keys);
  }

  /** The pages from vpn that MapFrom may visit are unmapped. */
  ghost predicate Vacant(g: Mmu, r: nat, vpn: nat, last: nat) {
    forall v {:trigger Page(r, v)} :: vpn <= v < MAXVPN && (v <= last || last < vpn) ==> Page(r, v) !in g.leaves
  }

  /** Mapping an unmapped range succeeds exactly when its last page is in reach and below MAXVA
      and the missing tables number at most the free pages; it then takes exactly that many. */
  lemma MapSucceedsIff(g: Mmu, r: nat, vpn: nat, last: nat, pa: Word, perm: Word)
    requires Vacant(g, r, vpn, last)
    ensures var m := MapFrom(g, r, vpn, last, pa, perm);
            && (m.val == Mapped <==> vpn <= last < MAXVPN && |Missing(g, r, vpn, last - vpn + 1)| <= |g.free|)
            && (m.val == Mapped ==>
                  && m.g.tables.Keys == g.tables.Keys + Needed(r, vpn, last - vpn + 1)
                  && |m.g.free| == |g.free| - |Missing(g, r, vpn, last - vpn + 1)|)
  {
    hide MapFrom, Done, Needed, Built, Missing, Mid, Last;
    var m := MapFrom(g, r, vpn, last, pa, perm);
    var n := Done(g, r, vpn, last, pa, perm);
    MapFromStops(g, r, vpn, last, pa, perm);
    MapFromTables(g, r, vpn, last, pa, perm);
    MapFromBalance(g, r, vpn, last, pa, perm);
    if m.val == Mapped {
      BuiltCost(g, m.g, r, vpn, n);
    } else if vpn <= last < MAXVPN {
      assert Page(r, vpn + n) !in g.leaves;
      StuckMeansShort(g, m.g, r, vpn, n, last - vpn + 1);
    }
  }

  lemma BuiltCost(g: Mmu, g': Mmu, r: nat, vpn: nat, n: nat)
    requires Built(g.tables.Keys, g'.tables.Keys, r, vpn, n, true)
    requires |g'.free| + |g'.tables| == |g.free| + |g.tables|
    ensures |g'.free| == |g.free| - |Missing(g, r, vpn, n)|
    ensures g'.tables.Keys == g.tables.Keys + Needed(r, vpn, n)
  {
    hide Needed;
    SizeOfUnion(g.tables.Keys, Needed(r, vpn, n));
    assert |g.tables.Keys| == |g.tables| && |g'.tables.Keys| == |g'.tables|;
  }

  /** Out of pages with a needed table still missing: the range needed more than there were. */
  lemma StuckMeansShort(g: Mmu, g': Mmu, r: nat, vpn: nat, n: nat, total: nat)
    requires n < total && g'.free == [] && |g'.tables| == |g.free| + |g.tables|
    requires Built(g.tables.Keys, g'.tables.Keys, r, vpn, n, false)
    requires Mid(r, vpn + n) !in g'.tables || Last(r, vpn + n) !in g'.tables
    ensures |Missing(g, r, vpn, total)| > |g.free|
  {
    hide Built, Needed, Mid, Last;
    var left := if Mid(r, vpn + n) !in g'.tables then Mid(r, vpn + n) else Last(r, vpn + n);
    NeededLast(r, vpn, n, total);
    BuiltWithin(g.tables.Keys, g'.tables.Keys, r, vpn, n, total);
    TakenFits(g.tables.Keys, g'.tables.Keys, Needed(r, vpn, total), left);
    assert |g.tables.Keys| == |g.tables| && |g'.tables.Keys| == |g'.tables|;
  }

  lemma NeededLast(r: nat, vpn: nat, n: nat, total: nat)
    requires n < total
    ensures Mid(r, vpn + n) in Needed(r, vpn, total) && Last(r, vpn + n) in Needed(r, vpn, total)
  {}

  lemma BuiltWithin(keys: set<Node>, after: set<Node>, r: nat, vpn: nat, n: nat, total: nat)
    requires n < total && Built(keys, after, r, vpn, n, false)
    ensures keys <= after <= keys + Needed(r, vpn, total)
  {
    hide Needed;
    NeededGrows(r, vpn, n + 1, total);
  }

  /** Growing from keys to after within `need`, with one of `need` still missing. */
  lemma TakenFits(keys: set<Node>, after: set<Node>, need: set<Node>, left: Node)
    requires keys <= after <= keys + need && left in need && left !in after
    ensures |after| - |keys| < |need - keys|
  {
    var taken := after - keys;
    assert after == keys + taken;
    SubsetSize(taken + {left}, need - keys);
  }

  lemma SubsetSize(s: set<Node>, t: set<Node>)
    requires s <= t
    ensures |s| <= |t|
  {
    assert t == s + (t - s);
  }
}
