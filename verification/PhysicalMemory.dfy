/** Physical memory as a sequence of 64-bit words, and what it holds: the links of the free
    pages and the entries of the table pages. */
module PhysicalMemory {
  import opened Bits
  import opened Sv39
  import opened PageTables

  /** Words below PHYSTOP; the word at physical address a has index a / 8. */
  const WORDS: nat := 0x1100_0000

  /** Word i of physical page p. */
  function Entry(m: seq<Word>, p: nat, i: nat): Word {
    if 512 * p + i < |m| then m[512 * p + i] else 0
  }

  lemma StoreEntry(m: seq<Word>, m': seq<Word>, p: nat, i: nat, v: Word)
    requires 512 * p + i < |m| && i < 512 && m' == m[512 * p + i := v]
    ensures forall q: nat, j: nat {:trigger Entry(m', q, j)} :: j < 512 ==>
              Entry(m', q, j) == if q == p && j == i then v else Entry(m, q, j)
  {
    forall q: nat, j: nat {:trigger Entry(m', q, j)} | j < 512
      ensures Entry(m', q, j) == if q == p && j == i then v else Entry(m, q, j)
    {
      WordIndex(p, i, q, j);
    }
  }

  lemma WordIndex(p: nat, i: nat, q: nat, j: nat)
    requires i < 512 && j < 512
    ensures 512 * p + i == 512 * q + j <==> p == q && i == j
  {}

  /** m' differs from m on page p only. */
  ghost predicate OnlyPage(m: seq<Word>, m': seq<Word>, p: nat) {
    && |m'| == |m|
    && (forall q: nat, j: nat {:trigger Entry(m', q, j)} :: j < 512 && q != p ==> Entry(m', q, j) == Entry(m, q, j))
  }

  /** From head, each free page's first word leads to the next one; the last holds `end`. */
  predicate Linked(m: seq<Word>, head: nat, free: seq<nat>, end: nat) {
    && head == (if free == [] then end else 4096 * free[0])
    && (forall i {:trigger free[i]} :: 0 <= i < |free| ==>
          Entry(m, free[i], 0) == if i + 1 < |free| then 4096 * free[i + 1] else end)
  }

  /** The address reached from `head` after k links. */
  function Follow(m: seq<Word>, head: nat, k: nat): nat
    decreases k
  {
    if k == 0 then head else Follow(m, Entry(m, head / 4096, 0), k - 1)
  }

  /** Following the links from head visits the free pages in order and then `end`. */
  lemma {:induction false} FollowVisits(m: seq<Word>, head: nat, free: seq<nat>, end: nat, k: nat)
    requires Linked(m, head, free, end) && k <= |free|
    ensures Follow(m, head, k) == if k < |free| then 4096 * free[k] else end
    decreases k
  {
    hide Entry;
    if k > 0 {
      LinkedTail(m, head, free, end);
      FollowVisits(m, Entry(m, head / 4096, 0), free[1..], end, k - 1);
    }
  }

  lemma LinkedTail(m: seq<Word>, head: nat, free: seq<nat>, end: nat)
    requires Linked(m, head, free, end) && free != []
    ensures Linked(m, Entry(m, head / 4096, 0), free[1..], end)
  {
    hide Entry;
    var t := free[1..];
    assert free[0] == head / 4096;
    assert forall i :: 0 <= i < |t| ==> t[i] == free[i + 1];
  }

  /** The word that entry i of table n holds. */
  function EntryOf(g: Mmu, n: Node, i: nat): nat {
    if n.level == 0 then
      var a := Page(n.root, n.pre * 512 + i);
      if a in g.leaves then g.leaves[a] else 0
    else if Kid(n, i) in g.tables then g.tables[Kid(n, i)] * 1024 + 1
    else 0
  }

  ghost predicate Tables(m: seq<Word>, g: Mmu) {
    forall n, i {:trigger Entry(m, g.tables[n], i)} :: n in g.tables && 0 <= i < 512 ==>
      Entry(m, g.tables[n], i) == EntryOf(g, n, i)
  }

  /** Memory m with the allocator's two variables represents state g. */
  ghost predicate Image(m: seq<Word>, head: nat, num: nat, end: nat, g: Mmu) {
    |m| == WORDS && Ok(g) && num == |g.free| && Linked(m, head, g.free, end) && Tables(m, g)
  }

  // ------------------------------------------------------------ the allocator

  /** alloc_page: head popped, its page cleared. */
  lemma TakePageImage(m: seq<Word>, m': seq<Word>, head: nat, end: nat, g: Mmu)
    requires Image(m, head, |g.free|, end, g) && g.free != []
    requires OnlyPage(m, m', g.free[0])
    requires Ok(AllocPage(g).g)
    ensures Image(m', Entry(m, g.free[0], 0), |g.free| - 1, end, AllocPage(g).g)
  {
    hide Ok, EntryOf;
    assert FreeOk(g) && Disjoint(g) by { TakeParts(g); }
    var g' := AllocPage(g).g;
    var t := g.free[1..];
    assert forall i :: 0 <= i < |t| ==> t[i] == g.free[i + 1];
    assert g.free[0] == g.free[0];
    assert Linked(m', Entry(m, g.free[0], 0), t, end);
    assert forall n, i :: EntryOf(g', n, i) == EntryOf(g, n, i) by {
      forall n, i ensures EntryOf(g', n, i) == EntryOf(g, n, i) { SameEntries(g, g', n, i); }
    }
  }

  lemma TakeParts(g: Mmu)
    requires Ok(g)
    ensures FreeOk(g) && Disjoint(g) && TreesOk(g) && LeavesOk(g)
  {}

  lemma SameEntries(g: Mmu, g': Mmu, n: Node, i: nat)
    requires g'.tables == g.tables && g'.leaves == g.leaves
    ensures EntryOf(g', n, i) == EntryOf(g, n, i)
  {}

  /** free_page: link stored in the page, page becomes the head. */
  lemma PushLinked(m: seq<Word>, m': seq<Word>, head: nat, end: nat, free: seq<nat>, p: nat)
    requires Linked(m, head, free, end) && p !in free
    requires OnlyPage(m, m', p) && Entry(m', p, 0) == head
    ensures Linked(m', 4096 * p, [p] + free, end)
  {
    var free' := [p] + free;
    assert forall i :: 0 < i < |free'| ==> free'[i] == free[i - 1];
    assert free != [] ==> head == 4096 * free'[1];
  }

  // ---------------------------------------------------------------- the trees

  /** The entry of an upper table is valid exactly when the table below it exists. */
  lemma UpperEntry(g: Mmu, n: Node, i: nat)
    requires TreesOk(g) && n in g.tables && n.level > 0 && i < 512
    ensures var e := EntryOf(g, n, i);
            && e < TWO64
            && (PteValid(e) <==> Kid(n, i) in g.tables)
            && (PteValid(e) ==> IsTablePte(e) && PTE2PA(e) == 4096 * g.tables[Kid(n, i)])
  {
    hide PteValid, IsTablePte, PTE2PA;
    PteValidIsOdd(EntryOf(g, n, i));
    if Kid(n, i) in g.tables {
      TablePteFields(g.tables[Kid(n, i)]);
      FlagParts(g.tables[Kid(n, i)], 1);
    }
  }

  /** The entry of a last-level table is valid exactly when the page is mapped, and is not taken
      for a table when the mapping has one of R, W, X. */
  lemma LeafWord(g: Mmu, n: Node, i: nat)
    requires LeavesOk(g) && n in g.tables && n.level == 0 && i < 512
    ensures var e := EntryOf(g, n, i);
            var a := Page(n.root, n.pre * 512 + i);
            && (PteValid(e) <==> a in g.leaves)
            && (PteValid(e) ==> e == g.leaves[a])
            && (IsTablePte(e) <==> a in g.leaves && !Leafy(g.leaves[a]))
  {
    hide PteValid, RWX;
    var e := EntryOf(g, n, i);
    PteValidIsOdd(e);
    AndRwx(e);
  }

  lemma KidInjective(n: Node, i: nat, n': Node, i': nat)
    requires n.level > 0 && n'.level > 0 && i < 512 && i' < 512
    ensures Kid(n, i) == Kid(n', i') <==> n == n' && i == i'
  {}

  /** No table and no leaf hangs below a table that is not there. */
  lemma NothingBelow(g: Mmu, n: Node, i: nat)
    requires Ok(g) && n !in g.tables && n.level <= 1 && i < 512
    ensures EntryOf(g, n, i) == 0
  {
    if n.level > 0 {
      assert Parent(Kid(n, i)) == n;
    } else {
      assert (n.pre * 512 + i) / 512 == n.pre;
      assert Last(n.root, n.pre * 512 + i) == n;
    }
  }

  /** walk's allocating branch: page c, fresh and all zero, becomes the table below entry i of n. */
  lemma AttachTable(m: seq<Word>, m': seq<Word>, g: Mmu, g': Mmu, n: Node, i: nat, c: nat)
    requires Ok(g) && Tables(m, g) && n in g.tables && n.level > 0 && i < 512 && Kid(n, i) !in g.tables
    requires c in g.out && forall j: nat :: j < 512 ==> Entry(m, c, j) == 0
    requires g' == g.(out := g.out - {c}, tables := g.tables[Kid(n, i) := c])
    requires |m| == WORDS && m' == m[512 * g.tables[n] + i := c * 1024 + 1]
    ensures Tables(m', g')
  {
    hide Entry, Ok;
    TakeParts(g);
    StoreEntry(m, m', g.tables[n], i, c * 1024 + 1);
    forall k, j | k in g'.tables && 0 <= j < 512 ensures Entry(m', g'.tables[k], j) == EntryOf(g', k, j) {
      if k == Kid(n, i) {
        NothingBelow(g, k, j);
        if k.level > 0 { assert Kid(k, j) != k; }
        assert g'.tables[k] == c && c != g.tables[n];
        assert EntryOf(g', k, j) == 0;
      } else {
        if k.level > 0 { KidInjective(n, i, k, j); }
        assert g'.tables[k] == g.tables[k];
        assert Entry(m, g.tables[k], j) == EntryOf(g, k, j);
        assert g.tables[k] == g.tables[n] ==> k == n;
      }
    }
  }

  /** Writing the leaf entry of virtual page a. */
  lemma SetLeaf(m: seq<Word>, m': seq<Word>, g: Mmu, a: Page, e: Word)
    requires Ok(g) && Tables(m, g) && |m| == WORDS && Last(a.root, a.vpn) in g.tables
    requires m' == m[512 * g.tables[Last(a.root, a.vpn)] + a.vpn % 512 := e]
    ensures e != 0 ==> Tables(m', g.(leaves := g.leaves[a := e]))
    ensures e == 0 ==> Tables(m', g.(leaves := g.leaves - {a}))
  {
    hide Entry, Ok;
    TakeParts(g);
    var n := Last(a.root, a.vpn);
    StoreEntry(m, m', g.tables[n], a.vpn % 512, e);
    var g' := if e == 0 then g.(leaves := g.leaves - {a}) else g.(leaves := g.leaves[a := e]);
    forall k, j | k in g.tables && 0 <= j < 512 ensures Entry(m', g.tables[k], j) == EntryOf(g', k, j) {
      if k.level == 0 { PageIsEntry(a, k, j); }
      assert Entry(m, g.tables[k], j) == EntryOf(g, k, j);
      assert g.tables[k] == g.tables[n] ==> k == n;
    }
  }

  lemma PageIsEntry(a: Page, k: Node, j: nat)
    requires k.level == 0 && j < 512
    ensures Page(k.root, k.pre * 512 + j) == a <==> k == Last(a.root, a.vpn) && j == a.vpn % 512
  {}

  /** Stores to pages that are not free leave the free list alone. */
  lemma LinksKept(m: seq<Word>, m': seq<Word>, head: nat, end: nat, g: Mmu, p: nat)
    requires Linked(m, head, g.free, end) && OnlyPage(m, m', p) && p !in g.free
    ensures Linked(m', head, g.free, end)
  {}
}
