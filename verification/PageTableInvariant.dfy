/** Every operation keeps every tree well formed and the pool partitioned, and touches no
    tree but its own. */
module PageTableInvariant {
  import opened Bits
  import opened Sv39
  import opened PageTables

  /** The head of the free stack leaves it and nothing else does. */
  lemma PopFree(g: Mmu)
    requires Ok(g) && g.free != []
    ensures FreeOk(g.(free := g.free[1..]))
    ensures g.free[0] !in g.free[1..]
    ensures forall p :: p in g.free <==> p == g.free[0] || p in g.free[1..]
  {
    var t := g.free[1..];
    assert forall i :: 0 <= i < |t| ==> t[i] == g.free[i + 1];
    assert g.free == [g.free[0]] + t;
  }

  /** A page popped off the free stack and put at a new place n of some tree. */
  lemma PlaceTableOk(g: Mmu, n: Node)
    requires Ok(g) && g.free != [] && n !in g.tables && n.level <= 2
    requires if n.level == 2 then n == Root(g.free[0])
             else Parent(n) in g.tables && (n.level == 1 ==> n.pre < 256)
    ensures Ok(g.(free := g.free[1..], tables := g.tables[n := g.free[0]]))
  {
    hide ValidWord, Covers, TreesOk;
    var p := g.free[0];
    var g' := g.(free := g.free[1..], tables := g.tables[n := p]);
    PopFree(g);
    assert forall k :: k in g.tables ==> g.tables[k] != p;
    PlaceTrees(g, g', n, p);
    CoversKept(g, g', n, p);
  }

  lemma PlaceTrees(g: Mmu, g': Mmu, n: Node, p: nat)
    requires TreesOk(g) && n !in g.tables && n.level <= 2 && InPool(g, p)
    requires if n.level == 2 then n == Root(p) else Parent(n) in g.tables && (n.level == 1 ==> n.pre < 256)
    requires forall k :: k in g.tables ==> g.tables[k] != p
    requires g'.lo == g.lo && g'.tables == g.tables[n := p]
    ensures TreesOk(g')
  {
    forall k | k in g'.tables && k.level < 2 ensures Parent(k) in g'.tables {}
  }

  lemma CoversKept(g: Mmu, g': Mmu, n: Node, p: nat)
    requires Covers(g) && g'.lo == g.lo && g'.out == g.out && n !in g.tables && g'.tables == g.tables[n := p]
    requires forall q :: q in g.free ==> q == p || q in g'.free
    ensures Covers(g')
  {
    assert g'.tables[n] == p;
    forall q | InPool(g', q) ensures q in g'.free || q in g'.out || q in g'.tables.Values {
      if q in g.tables.Values {
        var k :| k in g.tables && g.tables[k] == q;
        assert g'.tables[k] == q;
      }
    }
  }

  lemma DescendOk(g: Mmu, n: Node)
    requires Ok(g)
    requires n in g.tables || (n.level < 2 && (n.level == 1 ==> n.pre < 256) && Parent(n) in g.tables)
    ensures Ok(Descend(g, n).g)
  {
    hide Ok;
    if n !in g.tables && g.free != [] { PlaceTableOk(g, n); }
  }

  lemma Digits(vpn: nat)
    requires vpn < MAXVPN
    ensures vpn / 512 / 512 == vpn / 262144
    ensures vpn / 262144 / 512 == 0 && vpn / 262144 < 256
  {}

  lemma WalkAllocOk(g: Mmu, r: nat, vpn: nat)
    requires Ok(g) && Root(r) in g.tables
    ensures Ok(WalkAlloc(g, r, vpn).g)
    ensures WalkAlloc(g, r, vpn).val ==> Last(r, vpn) in WalkAlloc(g, r, vpn).g.tables
  {
    if vpn < MAXVPN {
      Digits(vpn);
      assert Parent(Mid(r, vpn)) == Root(r);
      DescendOk(g, Mid(r, vpn));
      var d := Descend(g, Mid(r, vpn));
      if d.val {
        assert Parent(Last(r, vpn)) == Mid(r, vpn);
        DescendOk(d.g, Last(r, vpn));
      }
    }
  }

  /** What walk may change: tables of this tree, taken from the free stack; and why it fails. */
  lemma WalkAllocFrame(g: Mmu, r: nat, vpn: nat)
    ensures var w := WalkAlloc(g, r, vpn);
            && w.g.lo == g.lo && w.g.out == g.out && w.g.leaves == g.leaves
            && (forall n :: n in g.tables ==> n in w.g.tables && w.g.tables[n] == g.tables[n])
            && (forall n :: n in w.g.tables && n.root != r ==> n in g.tables)
            && (w.val ==> vpn < MAXVPN)
            && (!w.val && vpn < MAXVPN ==>
                  w.g.free == [] && (Mid(r, vpn) !in w.g.tables || Last(r, vpn) !in w.g.tables))
  {
    hide Mid, Last;
    assert Mid(r, vpn).root == r && Last(r, vpn).root == r by { PathRoots(r, vpn); }
  }

  lemma PathRoots(r: nat, vpn: nat)
    ensures Mid(r, vpn).root == r && Last(r, vpn).root == r
  {}

  lemma LeafPteLeafy(pa: Word, perm: Word)
    requires LeafPerm(perm)
    ensures Leafy(LeafPte(pa, perm))
  {
    hide LeafPte;
    LeafPteFields(pa, perm);
    EvenBase(perm);
    FlagParts(pa / 4096, perm - perm % 2 + 1);
  }

  lemma {:induction false} MapFromOk(g: Mmu, r: nat, vpn: nat, last: nat, pa: Word, perm: Word)
    requires Ok(g) && Root(r) in g.tables
    ensures Ok(MapFrom(g, r, vpn, last, pa, perm).g)
    decreases MAXVPN - vpn
  {
    hide WalkAlloc, LeafPte, Root, Ok;
    var w := WalkAlloc(g, r, vpn);
    WalkAllocOk(g, r, vpn);
    WalkAllocFrame(g, r, vpn);
    if w.val && Page(r, vpn) !in w.g.leaves {
      LeafPteIsValid(pa, perm);
      var g' := Written(w.g, r, vpn, pa, perm);
      LeafChangeOk(w.g, Page(r, vpn), LeafPte(pa, perm));
      if vpn != last { MapFromOk(g', r, vpn + 1, last, (pa + PGSIZE) % TWO64, perm); }
    }
  }

  lemma LeafChangeOk(g: Mmu, a: Page, e: nat)
    requires Ok(g) && Last(a.root, a.vpn) in g.tables
    ensures ValidWord(e) ==> Ok(g.(leaves := g.leaves[a := e]))
    ensures Ok(g.(leaves := g.leaves - {a}))
  {
    var up, down := g.(leaves := g.leaves[a := e]), g.(leaves := g.leaves - {a});
    SamePagesOk(g, up);
    SamePagesOk(g, down);
  }

  /** Only the leaves are different. */
  lemma SamePagesOk(g: Mmu, g': Mmu)
    requires Ok(g) && g' == g.(leaves := g'.leaves)
    ensures LeavesOk(g') ==> Ok(g')
  {
    assert FreeOk(g') && TreesOk(g') && Disjoint(g') && Covers(g');
  }

  /** What every operation on tree r leaves alone: the other trees, table by table and leaf by
      leaf, and the handed-out pages. */
  ghost predicate OthersKept(g: Mmu, g': Mmu, r: nat) {
    && g'.lo == g.lo && g'.out == g.out
    && (forall n: Node :: n.root != r ==> (n in g'.tables <==> n in g.tables))
    && (forall n: Node :: n.root != r && n in g.tables ==> g'.tables[n] == g.tables[n])
    && (forall a: Page :: a.root != r ==> (a in g'.leaves <==> a in g.leaves))
    && (forall a: Page :: a.root != r && a in g.leaves ==> g'.leaves[a] == g.leaves[a])
  }

  lemma {:induction false} MapFromFrame(g: Mmu, r: nat, vpn: nat, last: nat, pa: Word, perm: Word)
    ensures OthersKept(g, MapFrom(g, r, vpn, last, pa, perm).g, r)
    ensures var g' := MapFrom(g, r, vpn, last, pa, perm).g;
            forall n :: n in g.tables ==> n in g'.tables && g'.tables[n] == g.tables[n]
    decreases MAXVPN - vpn
  {
    hide WalkAlloc, Mid, Last;
    var w := WalkAlloc(g, r, vpn);
    WalkAllocFrame(g, r, vpn);
    if w.val && Page(r, vpn) !in w.g.leaves {
      var g' := Written(w.g, r, vpn, pa, perm);
      if vpn != last { MapFromFrame(g', r, vpn + 1, last, (pa + PGSIZE) % TWO64, perm); }
    }
  }

  /** unmappages changes nothing but leaves of its own tree, and only removes them. */
  lemma {:induction false} UnmapFromFrame(g: Mmu, r: nat, vpn: nat, last: nat)
    ensures var g' := UnmapFrom(g, r, vpn, last).g;
            && g' == g.(leaves := g'.leaves)
            && (forall a :: a in g'.leaves ==> a in g.leaves && g'.leaves[a] == g.leaves[a])
            && (forall a :: a in g.leaves && a.root != r ==> a in g'.leaves)
    decreases MAXVPN - vpn
  {
    if vpn < MAXVPN && Page(r, vpn) in g.leaves && vpn != last {
      UnmapFromFrame(g.(leaves := g.leaves - {Page(r, vpn)}), r, vpn + 1, last);
    }
  }

  lemma UnmapFromOk(g: Mmu, r: nat, vpn: nat, last: nat)
    requires Ok(g)
    ensures Ok(UnmapFrom(g, r, vpn, last).g)
    ensures OthersKept(g, UnmapFrom(g, r, vpn, last).g, r)
  {
    UnmapFromFrame(g, r, vpn, last);
  }

  lemma CreateOk(g: Mmu)
    requires Ok(g)
    ensures Ok(Create(g).g)
    ensures g.free != [] ==> Root(Create(g).val) !in g.tables && Root(Create(g).val) in Create(g).g.tables
    ensures OthersKept(g, Create(g).g, Create(g).val)
  {
    if g.free != [] {
      assert Root(g.free[0]) !in g.tables by { RootTaken(g); }
      PlaceTableOk(g, Root(g.free[0]));
    }
  }

  lemma RootTaken(g: Mmu)
    requires Ok(g) && g.free != []
    ensures Root(g.free[0]) !in g.tables
  {
    assert g.free[0] in g.free;
    assert forall n :: n in g.tables ==> g.tables[n] != g.free[0];
  }
}
