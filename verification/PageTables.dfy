/** The page tables and the page pool as a value: what kernel/mm/vm.c and kernel/mm/mm.c compute,
    with every table page identified by its place in its tree. */
module PageTables {
  import opened Bits
  import opened Sv39
  import opened Sequences

  /** A table's place: the tree it belongs to (named by the physical page number of the root),
      its level (2 for a root, 0 for the tables that hold leaf entries), and the leading
      virtual-page-number digits that lead to it. */
  datatype Node = Node(root: nat, level: nat, pre: nat)

  /** A virtual page of one tree. */
  datatype Page = Page(root: nat, vpn: nat)

  /** lo: first page of the pool; free: the free stack, head first; out: pages handed out by
      alloc_page and not part of any tree; tables: the page that holds each table; leaves: the
      valid leaf entries. */
  datatype Mmu = Mmu(lo: nat, free: seq<nat>, out: set<nat>, tables: map<Node, nat>, leaves: map<Page, nat>)

  function Root(r: nat): Node { Node(r, 2, 0) }

  function Mid(r: nat, vpn: nat): Node { Node(r, 1, vpn / 262144) }

  function Last(r: nat, vpn: nat): Node { Node(r, 0, vpn / 512) }

  function Parent(n: Node): Node { Node(n.root, n.level + 1, n.pre / 512) }

  function Kid(n: Node, i: nat): Node
    requires n.level > 0
  {
    Node(n.root, n.level - 1, n.pre * 512 + i)
  }

  predicate InPool(g: Mmu, p: nat) { g.lo <= p < PHYSTOP_PPN }

  /** A valid 64-bit entry. */
  predicate ValidWord(e: nat) { e < TWO64 && e % 2 == 1 }

  /** A word that vm_free takes for a leaf: valid, with one of R, W, X. */
  predicate Leafy(e: nat) { ValidWord(e) && e % 16 != 1 }

  /** Every leaf of tree r was mapped with one of R, W, X: what vm_free needs of the tree. */
  predicate Freeable(g: Mmu, r: nat) {
    forall a :: a in g.leaves && a.root == r ==> Leafy(g.leaves[a])
  }

  predicate FreeOk(g: Mmu) {
    && 0 < g.lo <= PHYSTOP_PPN
    && NoDup(g.free)
    && (forall i :: 0 <= i < |g.free| ==> InPool(g, g.free[i]))
  }

  /** Every tree is three levels deep, rooted and below MAXVA, and no two tables share a page. */
  predicate TreesOk(g: Mmu) {
    && (forall n :: n in g.tables ==> InPool(g, g.tables[n]) && n.level <= 2)
    && (forall n :: n in g.tables && n.level == 2 ==> n.pre == 0 && g.tables[n] == n.root)
    && (forall n :: n in g.tables && n.level == 1 ==> n.pre < 256)
    && (forall n {:trigger Parent(n)} :: n in g.tables && n.level < 2 ==> Parent(n) in g.tables)
    && (forall n, n' {:trigger g.tables[n], g.tables[n']} ::
          n in g.tables && n' in g.tables && g.tables[n] == g.tables[n'] ==> n == n')
  }

  predicate LeavesOk(g: Mmu) {
    forall a :: a in g.leaves ==> ValidWord(g.leaves[a]) && Last(a.root, a.vpn) in g.tables
  }

  /** Free pages, handed-out pages and table pages are disjoint... */
  predicate Disjoint(g: Mmu) {
    && (forall n :: n in g.tables ==> g.tables[n] !in g.free && g.tables[n] !in g.out)
    && (forall p :: p in g.out ==> InPool(g, p) && p !in g.free)
  }

  /** ... and between them they are the whole pool. */
  ghost predicate Covers(g: Mmu) {
    forall p :: InPool(g, p) ==> p in g.free || p in g.out || p in g.tables.Values
  }

  ghost predicate Ok(g: Mmu) { FreeOk(g) && TreesOk(g) && LeavesOk(g) && Disjoint(g) && Covers(g) }

  /** The pool right after mm_init: every page free, in address order. */
  function Initial(lo: nat): Mmu
    requires lo <= PHYSTOP_PPN
  {
    Mmu(lo, seq(PHYSTOP_PPN - lo, i requires 0 <= i => lo + i), {}, map[], map[])
  }

  // ---------------------------------------------------------------- operations

  /** Result of an operation: what it returned and the new state. */
  datatype Result<T> = Result(val: T, g: Mmu)

  /** One level of walk: use the table if it is there, otherwise allocate it. */
  function Descend(g: Mmu, n: Node): Result<bool> {
    if n in g.tables then Result(true, g)
    else if g.free == [] then Result(false, g)
    else Result(true, g.(free := g.free[1..], tables := g.tables[n := g.free[0]]))
  }

  /** walk(pagetable, va, 1) for a va in virtual page vpn. */
  function WalkAlloc(g: Mmu, r: nat, vpn: nat): Result<bool> {
    if vpn >= MAXVPN then Result(false, g)
    else
      var d := Descend(g, Mid(r, vpn));
      if !d.val then d else Descend(d.g, Last(r, vpn))
  }

  datatype MapResult = Mapped | NoMemory | Remap | ZeroSize

  /** The leaf entry of virtual page vpn set to map it to pa. */
  function Written(g: Mmu, r: nat, vpn: nat, pa: Word, perm: Word): Mmu {
    g.(leaves := g.leaves[Page(r, vpn) := LeafPte(pa, perm)])
  }

  /** The loop of mappages from virtual page vpn on; it stops at virtual page `last`. */
  function MapFrom(g: Mmu, r: nat, vpn: nat, last: nat, pa: Word, perm: Word): Result<MapResult>
    decreases MAXVPN - vpn
  {
    var w := WalkAlloc(g, r, vpn);
    if !w.val then Result(NoMemory, w.g)
    else if Page(r, vpn) in w.g.leaves then Result(Remap, w.g)
    else
      var g' := Written(w.g, r, vpn, pa, perm);
      if vpn == last then Result(Mapped, g')
      else MapFrom(g', r, vpn + 1, last, (pa + PGSIZE) % TWO64, perm)
  }

  /** The virtual page of the last byte of a range, in 64-bit arithmetic. */
  function LastPage(va: Word, size: Word): nat
    requires size > 0
  {
    (va + size - 1) % TWO64 / PGSIZE
  }

  function MapPages(g: Mmu, r: nat, va: Word, size: Word, pa: Word, perm: Word): Result<MapResult> {
    if size == 0 then Result(ZeroSize, g)
    else MapFrom(g, r, va / PGSIZE, LastPage(va, size), pa, perm)
  }

  datatype UnmapResult = Removed | NotMapped

  function UnmapFrom(g: Mmu, r: nat, vpn: nat, last: nat): Result<UnmapResult>
    decreases MAXVPN - vpn
  {
    if vpn >= MAXVPN || Page(r, vpn) !in g.leaves then Result(NotMapped, g)
    else
      var g' := g.(leaves := g.leaves - {Page(r, vpn)});
      if vpn == last then Result(Removed, g')
      else UnmapFrom(g', r, vpn + 1, last)
  }

  function UnmapPages(g: Mmu, r: nat, va: Word, size: Word): Result<UnmapResult> {
    if size == 0 then Result(Removed, g)
    else UnmapFrom(g, r, va / PGSIZE, LastPage(va, size))
  }

  /** vm_create_user_pagetable; 0 stands for NULL. */
  function Create(g: Mmu): Result<nat> {
    if g.free == [] then Result(0, g)
    else
      var p := g.free[0];
      Result(p, g.(free := g.free[1..], tables := g.tables[Root(p) := p]))
  }

  /** The pages vm_free pushes for the subtree at n, most recently pushed first. */
  function Freed(tables: map<Node, nat>, n: Node): seq<nat>
    requires n in tables
    decreases n.level, 513
  {
    [tables[n]] + FreedKids(tables, n, 512)
  }

  /** The same for the subtrees under the first k entries of n. */
  function FreedKids(tables: map<Node, nat>, n: Node, k: nat): seq<nat>
    requires n in tables && k <= 512
    decreases n.level, k
  {
    if k == 0 || n.level == 0 then []
    else
      (if Kid(n, k - 1) in tables then Freed(tables, Kid(n, k - 1)) else [])
      + FreedKids(tables, n, k - 1)
  }

  function Free(g: Mmu, r: nat): Mmu
    requires Root(r) in g.tables
  {
    g.(free := Freed(g.tables, Root(r)) + g.free,
       tables := map n | n in g.tables && n.root != r :: g.tables[n],
       leaves := map a | a in g.leaves && a.root != r :: g.leaves[a])
  }

  /** alloc_page and free_page for a page that is not a table; 0 stands for NULL. */
  function AllocPage(g: Mmu): Result<nat> {
    if g.free == [] then Result(0, g)
    else Result(g.free[0], g.(free := g.free[1..], out := g.out + {g.free[0]}))
  }

  function FreePage(g: Mmu, p: nat): Mmu {
    if p == 0 then g else g.(free := [p] + g.free, out := g.out - {p})
  }
}
