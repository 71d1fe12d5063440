/** Runs: any number of trees, any sequence of operations. */
module PageTableRuns {
  import opened Bits
  import opened Sv39
  import opened PageTables
  import opened Sequences
  import opened PageTableInvariant
  import opened TableFreeing
  import opened Mapping

  datatype Op =
    | NewTree
    | Map(r: nat, va: Word, size: Word, pa: Word, perm: Word)
    | Unmap(r: nat, va: Word, size: Word)
    | FreeTree(r: nat)
    | TakePage
    | GivePage(p: nat)

  /** What callers owe: a live tree, none to be freed that vm_free would misread, no double free. */
  predicate Legal(g: Mmu, op: Op) {
    match op
    case Map(r, _, _, _, _) => Root(r) in g.tables
    case Unmap(r, _, _) => Root(r) in g.tables
    case FreeTree(r) => Root(r) in g.tables && Freeable(g, r)
    case GivePage(p) => p == 0 || p in g.out
    case _ => true
  }

  function Step(g: Mmu, op: Op): Mmu
    requires Legal(g, op)
  {
    match op
    case NewTree => Create(g).g
    case Map(r, va, size, pa, perm) => MapPages(g, r, va, size, pa, perm).g
    case Unmap(r, va, size) => UnmapPages(g, r, va, size).g
    case FreeTree(r) => Free(g, r)
    case TakePage => AllocPage(g).g
    case GivePage(p) => FreePage(g, p)
  }

  predicate LegalRun(g: Mmu, ops: seq<Op>)
    decreases |ops|
  {
    ops == [] || (Legal(g, ops[0]) && LegalRun(Step(g, ops[0]), ops[1..]))
  }

  function Run(g: Mmu, ops: seq<Op>): Mmu
    requires LegalRun(g, ops)
    decreases |ops|
  {
    if ops == [] then g else Run(Step(g, ops[0]), ops[1..])
  }

  lemma InitialOk(lo: nat)
    requires 0 < lo <= PHYSTOP_PPN
    ensures Ok(Initial(lo))
  {
    var g := Initial(lo);
    forall p: nat | InPool(g, p) ensures p in g.free { assert g.free[p - lo] == p; }
  }

  lemma AllocPageOk(g: Mmu)
    requires Ok(g)
    ensures Ok(AllocPage(g).g)
  {
    if g.free != [] { PopFree(g); }
  }

  lemma FreePageOk(g: Mmu, p: nat)
    requires Ok(g) && (p == 0 || p in g.out)
    ensures Ok(FreePage(g, p))
  {
    if p != 0 {
      NoDupConcat([p], g.free);
      var g' := FreePage(g, p);
      assert FreeOk(g') && TreesOk(g') && Disjoint(g');
      assert Covers(g');
    }
  }

  lemma StepOk(g: Mmu, op: Op)
    requires Ok(g) && Legal(g, op)
    ensures Ok(Step(g, op))
  {
    match op
    case NewTree => CreateOk(g);
    case Map(r, va, size, pa, perm) =>
      if size > 0 { MapFromOk(g, r, va / PGSIZE, LastPage(va, size), pa, perm); }
    case Unmap(r, va, size) =>
      if size > 0 { UnmapFromOk(g, r, va / PGSIZE, LastPage(va, size)); }
    case FreeTree(r) => FreeTreeOk(g, r);
    case TakePage => AllocPageOk(g);
    case GivePage(p) => FreePageOk(g, p);
  }

  /** After any run from mm_init's pool, every tree is a three-level tree on pages of its own,
      and free, handed-out and table pages partition the pool. */
  lemma {:induction false} RunOk(g: Mmu, ops: seq<Op>)
    requires Ok(g) && LegalRun(g, ops)
    ensures Ok(Run(g, ops))
    decreases |ops|
  {
    if ops != [] {
      StepOk(g, ops[0]);
      RunOk(Step(g, ops[0]), ops[1..]);
    }
  }

  /** Tree r is the same in both states, table by table and leaf by leaf. */
  ghost predicate SameTree(g: Mmu, g': Mmu, r: nat) {
    && (forall n: Node :: n.root == r ==> (n in g'.tables <==> n in g.tables))
    && (forall n: Node :: n.root == r && n in g.tables ==> g'.tables[n] == g.tables[n])
    && (forall a: Page :: a.root == r ==> (a in g'.leaves <==> a in g.leaves))
    && (forall a: Page :: a.root == r && a in g.leaves ==> g'.leaves[a] == g.leaves[a])
  }

  predicate Names(op: Op, r: nat) {
    (op.Map? || op.Unmap? || op.FreeTree?) && op.r == r
  }

  lemma StepIsolates(g: Mmu, op: Op, r: nat)
    requires Ok(g) && Legal(g, op) && Root(r) in g.tables && !Names(op, r)
    ensures SameTree(g, Step(g, op), r)
  {
    match op
    case NewTree =>
      CreateOk(g);
    case Map(s, va, size, pa, perm) =>
      if size > 0 { MapFromFrame(g, s, va / PGSIZE, LastPage(va, size), pa, perm); }
    case Unmap(s, va, size) =>
      if size > 0 { UnmapFromOk(g, s, va / PGSIZE, LastPage(va, size)); }
    case FreeTree(s) =>
    case TakePage =>
    case GivePage(p) =>
  }

  /** A tree that no operation of a run names comes out of the run unchanged. */
  lemma {:induction false} RunIsolates(g: Mmu, ops: seq<Op>, r: nat)
    requires Ok(g) && LegalRun(g, ops) && Root(r) in g.tables
    requires forall op :: op in ops ==> !Names(op, r)
    ensures SameTree(g, Run(g, ops), r)
    decreases |ops|
  {
    if ops != [] {
      StepOk(g, ops[0]);
      StepIsolates(g, ops[0], r);
      RunIsolates(Step(g, ops[0]), ops[1..], r);
    }
  }

  // ------------------------------------------------------- trees that vm_free can take

  /** Whatever the outcome, mapping adds only leaves with the permissions asked for. */
  lemma MapKeepsFreeable(g: Mmu, s: nat, va: Word, size: Word, pa: Word, perm: Word, r: nat)
    requires Freeable(g, r) && (s == r ==> LeafPerm(perm))
    ensures Freeable(MapPages(g, s, va, size, pa, perm).g, r)
  {
    hide MapFrom, Done, LeafPte, Leafy;
    if size > 0 {
      var vpn, last := va / PGSIZE, LastPage(va, size);
      var n, g' := Done(g, s, vpn, last, pa, perm), MapFrom(g, s, vpn, last, pa, perm).g;
      MapFromLeaves(g, s, vpn, last, pa, perm);
      forall a | a in g'.leaves && a.root == r ensures Leafy(g'.leaves[a]) {
        if InRange(a, s, vpn, n) { LeafPteLeafy((pa + PGSIZE * (a.vpn - vpn)) % TWO64, perm); }
      }
    }
  }

  lemma StepKeepsFreeable(g: Mmu, op: Op, r: nat)
    requires Legal(g, op) && Freeable(g, r) && (op.Map? && op.r == r ==> LeafPerm(op.perm))
    ensures Freeable(Step(g, op), r)
  {
    hide MapPages, UnmapFrom, Leafy;
    match op
    case Map(s, va, size, pa, perm) => MapKeepsFreeable(g, s, va, size, pa, perm, r);
    case Unmap(s, va, size) =>
      if size > 0 { UnmapFromFrame(g, s, va / PGSIZE, LastPage(va, size)); }
    case _ =>
  }

  /** A tree that is only ever mapped with one of R, W, X stays one that vm_free can take. */
  lemma {:induction false} RunKeepsFreeable(g: Mmu, ops: seq<Op>, r: nat)
    requires LegalRun(g, ops) && Freeable(g, r)
    requires forall op :: op in ops && op.Map? && op.r == r ==> LeafPerm(op.perm)
    ensures Freeable(Run(g, ops), r)
    decreases |ops|
  {
    hide Freeable, Legal, Step;
    if ops != [] {
      StepKeepsFreeable(g, ops[0], r);
      RunKeepsFreeable(Step(g, ops[0]), ops[1..], r);
    }
  }
}
