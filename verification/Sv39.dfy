/** The macros of kernel/mm/vm.h, as the shifts and masks they are written with, and the
    division/remainder form of each. */
module Sv39 {
  import opened Bits

  const PGSIZE: nat := 4096
  const MAXVA: nat := 0x40_0000_0000          // 1UL << 38
  const MAXVPN: nat := 0x400_0000             // MAXVA / PGSIZE
  const PHYSTOP: nat := 0x8800_0000
  const PHYSTOP_PPN: nat := 0x8_8000

  const PTE_V: nat := 1
  const PTE_R: nat := 2
  const PTE_W: nat := 4
  const PTE_X: nat := 8
  const RWX: nat := 14                         // PTE_R | PTE_W | PTE_X

  function PXShift(level: nat): nat { 12 + 9 * level }

  function PX(level: nat, va: nat): nat { And(Shr(va, PXShift(level)), 0x1FF) }

  function PA2PTE(pa: Word): nat { Shl(Shr(pa, 12), 10) }

  function PTE2PA(pte: Word): nat { Shl(Shr(pte, 10), 12) }

  function PageOffset(va: nat): nat { And(va, PGSIZE - 1) }

  predicate PteValid(pte: nat) { And(pte, PTE_V) != 0 }

  /** vm_free's test for "this entry points to a lower-level table". */
  predicate IsTablePte(pte: nat) { PteValid(pte) && And(pte, RWX) == 0 }

  /** The value mappages stores: PA2PTE(pa) | perm | PTE_V. */
  function LeafPte(pa: Word, perm: Word): nat { Or(Or(PA2PTE(pa), perm), PTE_V) }

  /** The value walk stores for a freshly allocated table: PA2PTE(pa) | PTE_V. */
  function TablePte(pa: Word): nat { Or(PA2PTE(pa), PTE_V) }

  /** The same entry in division/remainder form. */
  function LeafEntry(pa: Word, perm: nat): nat { pa / 4096 * 1024 + (perm - perm % 2 + 1) }

  /** Permissions that mark a leaf: the ten flag bits only, at least one of R, W, X. */
  predicate LeafPerm(perm: nat) { perm < 1024 && perm % 16 > 1 }

  lemma Powers()
    ensures Pow2(9) == 512 && Pow2(10) == 1024 && Pow2(12) == 4096
    ensures Pow2(21) == 0x20_0000 && Pow2(30) == 0x4000_0000
  {
    assert Pow2(5) == 32;
    assert Pow2(9) == 512;
    assert Pow2(13) == 8192;
    assert Pow2(17) == 0x2_0000;
    assert Pow2(21) == 0x20_0000;
    assert Pow2(25) == 0x200_0000;
    assert Pow2(29) == 0x2000_0000;
  }

  lemma PXIsDivMod(level: nat, va: nat)
    ensures Pow2(PXShift(level)) > 0
    ensures PX(level, va) == va / Pow2(PXShift(level)) % 512
  {
    var k := PXShift(level);
    ShrIsDiv(va, k);
    Powers();
    AndMask(va / Pow2(k), 9);
  }

  lemma PXIsDigit(va: nat, level: nat)
    requires level <= 2
    ensures PX(level, va) == if level == 0 then va / 4096 % 512
                             else if level == 1 then va / 4096 / 512 % 512
                             else va / 4096 / 262144 % 512
  {
    PXIsDivMod(level, va);
    Powers();
    DivisionChain(va);
  }

  lemma DivisionChain(va: nat)
    ensures va / 0x20_0000 == va / 4096 / 512
    ensures va / 0x4000_0000 == va / 4096 / 262144
  {}

  lemma PA2PTEIsPpn(pa: Word)
    ensures PA2PTE(pa) == pa / 4096 * 1024
  {
    Powers();
    ShrIsDiv(pa, 12);
    ShlIsMul(pa / 4096, 10);
  }

  lemma PTE2PAIsPpn(pte: Word)
    ensures PTE2PA(pte) == pte / 1024 * 4096 % TWO64
  {
    Powers();
    ShrIsDiv(pte, 10);
    ShlIsMul(pte / 1024, 12);
  }

  lemma PageOffsetIsMod(va: nat)
    ensures PageOffset(va) == va % 4096
  {
    Powers();
    AndMask(va, 12);
  }

  lemma PteValidIsOdd(pte: nat)
    ensures PteValid(pte) <==> pte % 2 == 1
  {
    AndOne(pte);
  }

  lemma AndRwx(x: nat)
    ensures And(x, RWX) == x % 16 - x % 2
  {
    if x > 0 {
      assert Pow2(3) == 8;
      AndMask(x / 2, 3);
      HalveDivide(x, 8);
    }
  }

  lemma TablePpn(ppn: nat, flags: nat)
    requires ppn < 0x10_0000_0000_0000 && flags < 1024
    ensures (ppn * 1024 + flags) / 1024 * 4096 % TWO64 == ppn * 4096
  {}

  lemma TablePteValue(ppn: nat)
    requires ppn < 0x10_0000_0000_0000
    ensures TablePte(ppn * 4096) == ppn * 1024 + 1
  {
    hide PA2PTE, Or;
    PA2PTEIsPpn(ppn * 4096);
    OrOne(ppn * 1024);
    DivUnique(ppn * 1024, 2, ppn * 512, 0);
  }

  lemma TablePteIsTable(ppn: nat)
    ensures IsTablePte(ppn * 1024 + 1)
  {
    FlagParts(ppn, 1);
    PteValidIsOdd(ppn * 1024 + 1);
    AndRwx(ppn * 1024 + 1);
  }

  lemma TablePteTarget(ppn: nat)
    requires ppn < 0x10_0000_0000_0000
    ensures PTE2PA(ppn * 1024 + 1) == ppn * 4096
  {
    LeafPteTarget(ppn, 1);
  }

  /** The entry of a table page: an odd word naming the page, and nothing else. */
  lemma TablePteFields(ppn: nat)
    requires ppn < 0x10_0000_0000_0000
    ensures TablePte(ppn * 4096) == ppn * 1024 + 1
    ensures IsTablePte(ppn * 1024 + 1)
    ensures PTE2PA(ppn * 1024 + 1) == ppn * 4096
  {
    TablePteValue(ppn);
    TablePteIsTable(ppn);
    TablePteTarget(ppn);
  }

  lemma OrFlags(base: nat, perm: nat)
    requires base % 1024 == 0 && perm < 1024
    ensures Or(base, perm) == base + perm
  {
    Powers();
    OrDisjoint(base, perm, 10);
  }

  lemma LeafPteValue(pa: Word, perm: nat)
    requires perm < 1024
    ensures LeafPte(pa, perm) == LeafEntry(pa, perm)
  {
    hide PA2PTE, Or;
    PA2PTEIsPpn(pa);
    var base := pa / 4096 * 1024;
    OrFlags(base, perm);
    OrOne(base + perm);
  }

  lemma FlagParts(ppn: nat, flags: nat)
    requires flags < 1024
    ensures (ppn * 1024 + flags) % 2 == flags % 2
    ensures (ppn * 1024 + flags) % 16 == flags % 16
  {
    var x := ppn * 1024 + flags;
    DivUnique(x, 2, ppn * 512 + flags / 2, flags % 2);
    DivUnique(x, 16, ppn * 64 + flags / 16, flags % 16);
  }

  lemma FlagsKeepRwx(ppn: nat, perm: nat)
    requires perm < 1024
    ensures And(ppn * 1024 + (perm - perm % 2 + 1), RWX) == And(perm, RWX)
  {
    var flags := perm - perm % 2 + 1;
    FlagParts(ppn, flags);
    AndRwx(ppn * 1024 + flags);
    AndRwx(perm);
    EvenBase(perm);
  }

  lemma EvenBase(perm: nat)
    ensures (perm - perm % 2 + 1) % 16 == perm % 16 - perm % 2 + 1
    ensures (perm - perm % 2 + 1) % 2 == 1
  {
    DivUnique(perm - perm % 2 + 1, 16, perm / 16, perm % 16 - perm % 2 + 1);
    DivUnique(perm - perm % 2 + 1, 2, perm / 2, 1);
  }

  lemma LeafPteTarget(ppn: nat, flags: nat)
    requires ppn < 0x10_0000_0000_0000 && flags < 1024
    ensures PTE2PA(ppn * 1024 + flags) == ppn * 4096
  {
    PTE2PAIsPpn(ppn * 1024 + flags);
    TablePpn(ppn, flags);
  }

  /** The entry of a mapped page: valid, never mistaken for a table unless R, W and X are all
      absent, and giving back the physical page, whatever the 64-bit physical address. */
  lemma LeafPteFields(pa: Word, perm: nat)
    requires perm < 1024
    ensures LeafPte(pa, perm) == LeafEntry(pa, perm) < TWO64
    ensures PteValid(LeafPte(pa, perm))
    ensures PTE2PA(LeafPte(pa, perm)) == pa - pa % 4096
    ensures IsTablePte(LeafPte(pa, perm)) <==> And(perm, RWX) == 0
  {
    var ppn, flags := pa / 4096, perm - perm % 2 + 1;
    LeafPteValue(pa, perm);
    FlagParts(ppn, flags);
    EvenBase(perm);
    PteValidIsOdd(ppn * 1024 + flags);
    LeafPteTarget(ppn, flags);
    FlagsKeepRwx(ppn, perm);
  }

  lemma LeafPermIsRwx(perm: nat)
    ensures LeafPerm(perm) <==> perm < 1024 && And(perm, RWX) != 0
  {
    AndRwx(perm);
  }

  lemma Pow2Of64()
    ensures Pow2(64) == TWO64
  {
    assert Pow2(8) == 256;
    assert Pow2(16) == 0x1_0000;
    assert Pow2(24) == 0x100_0000;
    assert Pow2(32) == 0x1_0000_0000;
    assert Pow2(40) == 0x100_0000_0000;
    assert Pow2(48) == 0x1_0000_0000_0000;
    assert Pow2(56) == 0x100_0000_0000_0000;
  }

  /** Whatever word is given as permissions, what mappages stores is a valid 64-bit entry. */
  lemma LeafPteIsValid(pa: Word, perm: Word)
    ensures LeafPte(pa, perm) < TWO64 && LeafPte(pa, perm) % 2 == 1
  {
    hide PA2PTE, Or;
    PA2PTEIsPpn(pa);
    Pow2Of64();
    OrBelow(PA2PTE(pa), perm, 64);
    OrOne(Or(PA2PTE(pa), perm));
  }
}
