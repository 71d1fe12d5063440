/** What vm_free's recursion pushes: the pages of the subtree, each exactly once. */
module TableFreeing {
  import opened PageTables
  import opened Sequences

  /** The leading digits of a table d levels up. */
  function Anc(pre: nat, d: nat): nat {
    if d == 0 then pre else Anc(pre, d - 1) / 512
  }

  /** k is n or a table below n. */
  predicate Under(k: Node, n: Node) {
    k.root == n.root && k.level <= n.level && Anc(k.pre, n.level - k.level) == n.pre
  }

  /** The entry of n through which k is reached. */
  function Branch(k: Node, n: Node): nat
    requires k.level < n.level
  {
    Anc(k.pre, n.level - k.level - 1) % 512
  }

  lemma UnderKid(k: Node, n: Node, i: nat)
    requires n.level > 0 && i < 512
    ensures Under(k, Kid(n, i)) <==> Under(k, n) && k.level < n.level && Branch(k, n) == i
  {
    if k.level < n.level {
      var a := Anc(k.pre, n.level - k.level - 1);
      assert Anc(k.pre, n.level - k.level) == a / 512;
    }
  }

  /** Trees are connected: what is above a table is a table. */
  lemma {:induction false} AncestorPresent(g: Mmu, k: Node, n: Node)
    requires TreesOk(g) && k in g.tables && Under(k, n) && n.level <= 2
    ensures n in g.tables
    decreases n.level
  {
    if k.level < n.level {
      var below := Node(n.root, n.level - 1, Anc(k.pre, n.level - k.level - 1));
      AncestorPresent(g, k, below);
      assert Parent(below) == n;
    }
  }

  /** A tree's tables are exactly the tables below its root. */
  lemma RootOwnsTree(g: Mmu, k: Node)
    requires TreesOk(g) && k in g.tables
    ensures Under(k, Root(k.root)) && Root(k.root) in g.tables
  {
    AncestorPresent(g, k, Node(k.root, 2, Anc(k.pre, 2 - k.level)));
  }

  /** Page p holds a table of the subtree at n. */
  ghost predicate Holds(g: Mmu, n: Node, p: nat) {
    exists k :: k in g.tables && g.tables[k] == p && Under(k, n)
  }

  ghost predicate HoldsBelow(g: Mmu, n: Node, j: nat, p: nat) {
    exists k :: k in g.tables && g.tables[k] == p && Under(k, n) && k.level < n.level && Branch(k, n) < j
  }

  lemma {:induction false} FreedMembers(g: Mmu, n: Node, p: nat)
    requires TreesOk(g) && n in g.tables
    ensures p in Freed(g.tables, n) <==> Holds(g, n, p)
    decreases n.level, 513
  {
    FreedKidsMembers(g, n, 512, p);
    assert Under(n, n);
    if Holds(g, n, p) {
      var k :| k in g.tables && g.tables[k] == p && Under(k, n);
      assert k == n || k.level < n.level;
    }
  }

  lemma {:induction false} FreedKidsMembers(g: Mmu, n: Node, j: nat, p: nat)
    requires TreesOk(g) && n in g.tables && j <= 512
    ensures p in FreedKids(g.tables, n, j) <==> HoldsBelow(g, n, j, p)
    decreases n.level, j
  {
    if j > 0 && n.level > 0 {
      var kid := Kid(n, j - 1);
      FreedKidsMembers(g, n, j - 1, p);
      if kid in g.tables { FreedMembers(g, kid, p); }
      forall k | k in g.tables
        ensures Under(k, kid) <==> Under(k, n) && k.level < n.level && Branch(k, n) == j - 1
        ensures Under(k, kid) ==> kid in g.tables
      {
        UnderKid(k, n, j - 1);
        if Under(k, kid) { AncestorPresent(g, k, kid); }
      }
    }
  }

  lemma {:induction false} FreedNoDup(g: Mmu, n: Node)
    requires TreesOk(g) && n in g.tables
    ensures NoDup(Freed(g.tables, n))
    decreases n.level, 513
  {
    FreedKidsNoDup(g, n, 512);
    FreedKidsMembers(g, n, 512, g.tables[n]);
    NoDupConcat([g.tables[n]], FreedKids(g.tables, n, 512));
  }

  lemma {:induction false} FreedKidsNoDup(g: Mmu, n: Node, j: nat)
    requires TreesOk(g) && n in g.tables && j <= 512
    ensures NoDup(FreedKids(g.tables, n, j))
    decreases n.level, j
  {
    if j > 0 && n.level > 0 {
      var kid := Kid(n, j - 1);
      FreedKidsNoDup(g, n, j - 1);
      if kid in g.tables {
        FreedNoDup(g, kid);
        forall p | p in Freed(g.tables, kid) ensures p !in FreedKids(g.tables, n, j - 1) {
          FreedMembers(g, kid, p);
          KidsApart(g, n, j, p);
        }
        NoDupConcat(Freed(g.tables, kid), FreedKids(g.tables, n, j - 1));
      } else {
        assert FreedKids(g.tables, n, j) == FreedKids(g.tables, n, j - 1);
      }
    }
  }

  /** A page of one subtree is in no earlier sibling's subtree. */
  lemma KidsApart(g: Mmu, n: Node, j: nat, p: nat)
    requires TreesOk(g) && n in g.tables && 0 < j <= 512 && n.level > 0
    requires Kid(n, j - 1) in g.tables && Holds(g, Kid(n, j - 1), p)
    ensures p !in FreedKids(g.tables, n, j - 1)
  {
    var k :| k in g.tables && g.tables[k] == p && Under(k, Kid(n, j - 1));
    UnderKid(k, n, j - 1);
    FreedKidsMembers(g, n, j - 1, p);
  }

  lemma {:induction false} ImageSize(tables: map<Node, nat>, nodes: set<Node>)
    requires nodes <= tables.Keys
    requires forall n, n' :: n in nodes && n' in nodes && tables[n] == tables[n'] ==> n == n'
    ensures |set n | n in nodes :: tables[n]| == |nodes|
  {
    if nodes != {} {
      var n :| n in nodes;
      var rest := nodes - {n};
      ImageSize(tables, rest);
      assert (set k | k in nodes :: tables[k]) == (set k | k in rest :: tables[k]) + {tables[n]};
    }
  }

  ghost function TreeNodes(g: Mmu, r: nat): set<Node> {
    set n | n in g.tables && n.root == r
  }

  /** vm_free on a root pushes exactly the pages of that tree, none twice, and so raises the
      free count by the number of its tables. */
  lemma FreedIsTree(g: Mmu, r: nat)
    requires TreesOk(g) && Root(r) in g.tables
    ensures NoDup(Freed(g.tables, Root(r)))
    ensures forall p :: p in Freed(g.tables, Root(r)) <==> exists k :: k in TreeNodes(g, r) && g.tables[k] == p
    ensures |Freed(g.tables, Root(r))| == |TreeNodes(g, r)|
  {
    var pushed := Freed(g.tables, Root(r));
    FreedNoDup(g, Root(r));
    forall p ensures p in pushed <==> exists k :: k in TreeNodes(g, r) && g.tables[k] == p {
      FreedMembers(g, Root(r), p);
      forall k | k in TreeNodes(g, r) ensures Under(k, Root(r)) { RootOwnsTree(g, k); }
    }
    NoDupSize(pushed);
    ImageSize(g.tables, TreeNodes(g, r));
    assert Elements(pushed) == (set k | k in TreeNodes(g, r) :: g.tables[k]);
  }

  /** vm_free keeps the invariant: the tree's pages return to the pool, the rest stays. */
  lemma FreeTreeOk(g: Mmu, r: nat)
    requires Ok(g) && Root(r) in g.tables
    ensures Ok(Free(g, r))
    ensures |Free(g, r).free| == |g.free| + |TreeNodes(g, r)|
  {
    FreedIsTree(g, r);
    var pushed := Freed(g.tables, Root(r));
    var g' := Free(g, r);
    NoDupConcat(pushed, g.free);
    assert FreeOk(g') by {
      forall i | 0 <= i < |g'.free| ensures InPool(g', g'.free[i]) {
        if i < |pushed| { assert pushed[i] in pushed; } else { assert g'.free[i] == g.free[i - |pushed|]; }
      }
    }
    assert TreesOk(g') by {
      forall n | n in g'.tables && n.level < 2 ensures Parent(n) in g'.tables {}
    }
    assert Disjoint(g');
    forall q | InPool(g', q) ensures q in g'.free || q in g'.out || q in g'.tables.Values {
      if q in g.tables.Values {
        var k :| k in g.tables && g.tables[k] == q;
        if k.root == r { assert k in TreeNodes(g, r); } else { assert g'.tables[k] == q; }
      }
    }
  }
}
