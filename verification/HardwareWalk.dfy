/** The address translation of the RISC-V privileged architecture (version 20211203, sections
    4.3.2 and 4.4.1, Sv39), and its agreement with walk and va2pa. */
module HardwareWalk {
  import opened Bits
  import opened Sv39
  import opened PageTables
  import opened PageTableInvariant
  import opened PhysicalMemory
  import opened MappedRanges
  import opened PageTableRuns

  /** What a page may be used for: the R, W, X and U bits of its leaf. */
  datatype Rights = Rights(read: bool, write: bool, execute: bool, user: bool)

  datatype Translation = Fault | Hit(pa: nat, rights: Rights)

  predicate V(pte: nat) { pte % 2 == 1 }
  predicate R(pte: nat) { pte / 2 % 2 == 1 }
  predicate W(pte: nat) { pte / 4 % 2 == 1 }
  predicate X(pte: nat) { pte / 8 % 2 == 1 }
  predicate U(pte: nat) { pte / 16 % 2 == 1 }

  function RightsOf(pte: nat): Rights { Rights(R(pte), W(pte), X(pte), U(pte)) }

  /** Bits 63..54 are reserved, and D, A and U are reserved in entries that are not leaves. */
  predicate Reserved(pte: nat) {
    || pte >= 0x40_0000_0000_0000
    || (!R(pte) && !X(pte) && (U(pte) || pte / 64 % 4 != 0))
  }

  /** Steps 2 to 4 of the translation process at level i, with the table at page a; step 8 for
      a leaf, and step 6 for a leaf above level 0. The rights that step 5 checks are part of the
      result; the A and D bits (step 7) are not looked at. */
  function Translate(m: seq<Word>, a: nat, i: nat, va: Word): Translation
    requires i <= 2
    decreases i
  {
    var vpn := if i == 0 then va / 0x1000 % 512 else if i == 1 then va / 0x20_0000 % 512 else va / 0x4000_0000 % 512;
    var pte := Entry(m, a, vpn);
    var ppn := pte / 1024;
    if !V(pte) || (!R(pte) && W(pte)) || Reserved(pte) then Fault
    else if R(pte) || X(pte) then
      if i == 0 then Hit(ppn * 4096 + va % 0x1000, RightsOf(pte))
      else if i == 1 then (if ppn % 512 != 0 then Fault else Hit(ppn * 4096 + va % 0x20_0000, RightsOf(pte)))
      else if ppn % 262144 != 0 then Fault else Hit(ppn * 4096 + va % 0x4000_0000, RightsOf(pte))
    else if i == 0 then Fault
    else Translate(m, ppn, i - 1, va)
  }

  /** Bits 63..39 of the address must equal bit 38. */
  function Hardware(m: seq<Word>, root: nat, va: Word): Translation {
    if 0x40_0000_0000 <= va < TWO64 - 0x40_0000_0000 then Fault
    else Translate(m, root, 2, va)
  }

  /** A leaf the hardware accepts: readable or executable, not writable-only, physical address
      within 56 bits. */
  predicate Accepted(pte: nat) {
    (R(pte) || X(pte)) && (W(pte) ==> R(pte)) && pte < 0x40_0000_0000_0000
  }

  /** The entry of an upper table is a pointer, or nothing. */
  lemma PointerStep(m: seq<Word>, g: Mmu, n: Node, i: nat)
    requires TreesOk(g) && Tables(m, g) && n in g.tables && n.level > 0 && i < 512
    ensures var e := Entry(m, g.tables[n], i);
            && (V(e) <==> Kid(n, i) in g.tables)
            && (V(e) ==> !R(e) && !W(e) && !X(e) && !Reserved(e) && e / 1024 == g.tables[Kid(n, i)])
  {
    var e := Entry(m, g.tables[n], i);
    assert e == EntryOf(g, n, i);
    if Kid(n, i) in g.tables { PointerBits(g.tables[Kid(n, i)]); }
  }

  lemma PointerBits(p: nat)
    requires p < PHYSTOP_PPN
    ensures var e := p * 1024 + 1; V(e) && !R(e) && !W(e) && !X(e) && !Reserved(e) && e / 1024 == p
  {
    var e := p * 1024 + 1;
    DivUnique(e, 2, p * 512, 1);
    DivUnique(e, 4, p * 256, 1);
    DivUnique(e, 8, p * 128, 1);
    DivUnique(e, 16, p * 64, 1);
    DivUnique(e, 64, p * 16, 1);
    DivUnique(p * 512, 2, p * 256, 0);
    DivUnique(p * 256, 2, p * 128, 0);
    DivUnique(p * 128, 2, p * 64, 0);
    DivUnique(p * 64, 2, p * 32, 0);
    DivUnique(p * 16, 4, p * 4, 0);
  }

  /** On every table these functions build and for every 64-bit address, the hardware finds a
      translation exactly when the address is below MAXVA and its page is mapped with an
      acceptable leaf; the address is the one va2pa gives, and the rights are those of the leaf. */
  lemma HardwareAgrees(m: seq<Word>, head: nat, num: nat, end: nat, g: Mmu, r: nat, va: Word)
    requires Image(m, head, num, end, g) && Root(r) in g.tables
    ensures var a := Page(r, va / 4096);
            Hardware(m, r, va) ==
            if va < MAXVA && a in g.leaves && Accepted(g.leaves[a])
            then Hit(Va2Pa(g, r, va), RightsOf(g.leaves[a])) else Fault
  {
    hide Ok, Tables, Translate, Accepted, Va2Pa, RightsOf;
    if va < MAXVA {
      var vpn := va / 4096;
      PathUp(g, r, vpn);
      FromRoot(m, g, r, va);
      if Mid(r, vpn) in g.tables {
        FromMid(m, g, r, va);
        if Last(r, vpn) in g.tables { LeafStep(m, g, r, va); }
      }
    } else if va >= TWO64 - MAXVA {
      UpperHalf(m, g, r, va);
    }
  }

  /** The kernel half of the address space is reached through entries 256.. of a root, which are
      never filled. */
  lemma UpperHalf(m: seq<Word>, g: Mmu, r: nat, va: Word)
    requires Ok(g) && Tables(m, g) && Root(r) in g.tables && va >= TWO64 - MAXVA
    ensures Translate(m, r, 2, va) == Fault
  {
    hide Entry, V, R, W, X, U, Reserved, Tables;
    var i := va / 0x4000_0000 % 512;
    assert 0x3_FFFF_FF00 <= va / 0x4000_0000 <= 0x3_FFFF_FFFF;
    assert i >= 256;
    PointerStep(m, g, Root(r), i);
  }

  lemma PathUp(g: Mmu, r: nat, vpn: nat)
    requires Ok(g) && vpn < MAXVPN
    ensures Page(r, vpn) in g.leaves ==> Last(r, vpn) in g.tables
    ensures Last(r, vpn) in g.tables ==> Mid(r, vpn) in g.tables
  {
    Digits(vpn);
    assert Parent(Last(r, vpn)) == Mid(r, vpn);
  }

  lemma FromRoot(m: seq<Word>, g: Mmu, r: nat, va: Word)
    requires Ok(g) && Tables(m, g) && Root(r) in g.tables && va < MAXVA
    ensures Translate(m, r, 2, va) ==
            if Mid(r, va / 4096) in g.tables then Translate(m, g.tables[Mid(r, va / 4096)], 1, va) else Fault
  {
    hide Entry, V, R, W, X, U, Reserved, Tables;
    var i := va / 0x4000_0000;
    DivisionChain(va);
    assert i < 512;
    assert Kid(Root(r), i) == Mid(r, va / 4096);
    PointerStep(m, g, Root(r), i);
  }

  lemma FromMid(m: seq<Word>, g: Mmu, r: nat, va: Word)
    requires Ok(g) && Tables(m, g) && va < MAXVA && Mid(r, va / 4096) in g.tables
    ensures Translate(m, g.tables[Mid(r, va / 4096)], 1, va) ==
            if Last(r, va / 4096) in g.tables then Translate(m, g.tables[Last(r, va / 4096)], 0, va) else Fault
  {
    hide Entry, V, R, W, X, U, Reserved, Tables;
    var n, i := Mid(r, va / 4096), va / 0x20_0000 % 512;
    DivisionChain(va);
    Digits(va / 4096);
    assert Kid(n, i) == Last(r, va / 4096);
    PointerStep(m, g, n, i);
  }

  lemma LeafStep(m: seq<Word>, g: Mmu, r: nat, va: Word)
    requires Ok(g) && Tables(m, g) && va < MAXVA && Last(r, va / 4096) in g.tables
    ensures var a := Page(r, va / 4096);
            Translate(m, g.tables[Last(r, va / 4096)], 0, va) ==
            if a in g.leaves && Accepted(g.leaves[a]) then Hit(Va2Pa(g, r, va), RightsOf(g.leaves[a])) else Fault
  {
    var n := Last(r, va / 4096);
    var i := va / 4096 % 512;
    var e := Entry(m, g.tables[n], i);
    assert e == EntryOf(g, n, i);
    assert n.pre * 512 + i == va / 4096;
  }

  /** A leaf that mappages writes gives the rights asked for, and is acceptable exactly when these
      are: R or X, and W only with R. */
  lemma AcceptedLeaf(pa: Word, perm: Word)
    requires perm < 1024 && pa < 0x100_0000_0000_0000
    ensures Accepted(LeafPte(pa, perm)) <==> (R(perm) || X(perm)) && (W(perm) ==> R(perm))
    ensures RightsOf(LeafPte(pa, perm)) == RightsOf(perm)
  {
    hide LeafPte, R, W, X, U;
    var ppn, flags := pa / 4096, perm - perm % 2 + 1;
    LeafPteFields(pa, perm);
    BitR(ppn, flags);
    BitW(ppn, flags);
    BitX(ppn, flags);
    BitU(ppn, flags);
    OddFlags(perm);
  }

  /** The valid bit is none of R, W, X and U. */
  lemma OddFlags(perm: nat)
    ensures var flags := perm - perm % 2 + 1;
            RightsOf(flags) == RightsOf(perm)
  {
    var h := perm / 2;
    OddHalves(h, 0);
    OddHalves(h, 1);
    assert perm == 2 * h + perm % 2;
  }

  /** Bits 1 to 4 are those of the half. */
  lemma OddHalves(h: nat, b: nat)
    requires b < 2
    ensures var n := 2 * h + b;
            RightsOf(n) == Rights(h % 2 == 1, h / 2 % 2 == 1, h / 4 % 2 == 1, h / 8 % 2 == 1)
  {
    var n := 2 * h + b;
    DivUnique(n, 2, h, b);
    DivUnique(n, 4, h / 2, h % 2 * 2 + b);
    DivUnique(n, 8, h / 4, h % 4 * 2 + b);
    DivUnique(n, 16, h / 8, h % 8 * 2 + b);
  }

  lemma BitR(ppn: nat, flags: nat)
    ensures R(ppn * 1024 + flags) <==> R(flags)
  {
    DivUnique(ppn * 1024 + flags, 2, ppn * 512 + flags / 2, flags % 2);
    DivUnique(ppn * 512 + flags / 2, 2, ppn * 256 + flags / 2 / 2, flags / 2 % 2);
  }

  lemma BitW(ppn: nat, flags: nat)
    ensures W(ppn * 1024 + flags) <==> W(flags)
  {
    DivUnique(ppn * 1024 + flags, 4, ppn * 256 + flags / 4, flags % 4);
    DivUnique(ppn * 256 + flags / 4, 2, ppn * 128 + flags / 4 / 2, flags / 4 % 2);
  }

  lemma BitX(ppn: nat, flags: nat)
    ensures X(ppn * 1024 + flags) <==> X(flags)
  {
    DivUnique(ppn * 1024 + flags, 8, ppn * 128 + flags / 8, flags % 8);
    DivUnique(ppn * 128 + flags / 8, 2, ppn * 64 + flags / 8 / 2, flags / 8 % 2);
  }

  lemma BitU(ppn: nat, flags: nat)
    ensures U(ppn * 1024 + flags) <==> U(flags)
  {
    DivUnique(ppn * 1024 + flags, 16, ppn * 64 + flags / 16, flags % 16);
    DivUnique(ppn * 64 + flags / 16, 2, ppn * 32 + flags / 16 / 2, flags / 16 % 2);
  }

  /** End to end: after mappages returns 0 for a range with usable permissions, the hardware
      translates every byte of it to the intended physical byte, with the rights asked for. */
  lemma MappedBytesOnHardware(m: seq<Word>, head: nat, num: nat, end: nat, g: Mmu,
                              r: nat, va: Word, size: Word, pa: Word, perm: Word, k: nat)
    requires MapPages(g, r, va, size, pa, perm).val == Mapped
    requires Image(m, head, num, end, MapPages(g, r, va, size, pa, perm).g)
    requires Root(r) in MapPages(g, r, va, size, pa, perm).g.tables
    requires perm < 1024 && (R(perm) || X(perm)) && (W(perm) ==> R(perm))
    requires va % 4096 == pa % 4096 && va + size <= TWO64 && pa + size <= 0x100_0000_0000_0000 && k < size
    ensures Hardware(m, r, va + k) == Hit(pa + k, RightsOf(perm))
  {
    hide MapPages, Hardware, Va2Pa, Image, LeafPte, Accepted, RightsOf, R, W, X;
    var vpn, v := va / 4096, (va + k) / 4096;
    HardwareAgrees(m, head, num, end, MapPages(g, r, va, size, pa, perm).g, r, va + k);
    MappedBytes(g, r, va, size, pa, perm, k);
    MappedLeaf(g, r, va, size, pa, perm, k);
    assert pa + PGSIZE * (v - vpn) < 0x100_0000_0000_0000;
    AcceptedLeaf(pa + PGSIZE * (v - vpn), perm);
  }

  /** A tree that no operation of a run names translates every address as before, on the
      hardware too: whatever memory looks like before and after. */
  lemma RunIsolatesHardware(g: Mmu, ops: seq<Op>, r: nat, va: Word,
                            m: seq<Word>, head: nat, num: nat, end: nat,
                            m': seq<Word>, head': nat, num': nat, end': nat)
    requires LegalRun(g, ops) && Root(r) in g.tables && forall op :: op in ops ==> !Names(op, r)
    requires Image(m, head, num, end, g) && Image(m', head', num', end', Run(g, ops))
    ensures Hardware(m', r, va) == Hardware(m, r, va)
  {
    hide Hardware, Accepted, RightsOf, Tables, Linked;
    RunIsolates(g, ops, r);
    HardwareAgrees(m, head, num, end, g, r, va);
    HardwareAgrees(m', head', num', end', Run(g, ops), r, va);
  }
}
