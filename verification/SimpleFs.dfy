/** The directory of kernel/fs/simplefs.c: a table of 64 inodes standing for a finite map from
    names to inode numbers. */
module SimpleFs {
  import opened Options

  const MAX_FILES: nat := 64
  const MAX_FILENAME: nat := 28
  const NUL: char := '\0'

  /** A C string: no NUL inside. */
  predicate IsName(name: string) { NUL !in name }

  /** Character j of the C string, its terminator included. */
  function CharAt(name: string, j: nat): char {
    if j < |name| then name[j] else NUL
  }

  /** What 28 bytes hold as a C string. */
  function Text(bytes: seq<char>): string {
    if bytes == [] || bytes[0] == NUL then "" else [bytes[0]] + Text(bytes[1..])
  }

  // ------------------------------------------------------------- the directory as a value

  /** For each inode slot, the name it is used for. */
  type Slots = seq<Option<string>>

  /** The part of a name that is stored. */
  function Stored(name: string): string {
    if |name| >= MAX_FILENAME then name[..MAX_FILENAME - 1] else name
  }

  /** The first slot from i on that satisfies find_inode's comparison; MAX_FILES if none. */
  function Find(t: Slots, name: string, i: nat): (r: nat)
    requires i <= |t|
    ensures i <= r <= |t|
    ensures r < |t| ==> t[r] == Some(name)
    ensures forall k :: i <= k < r ==> t[k] != Some(name)
    decreases |t| - i
  {
    if i == |t| || t[i] == Some(name) then i else Find(t, name, i + 1)
  }

  function FirstFree(t: Slots, i: nat): (r: nat)
    requires i <= |t|
    ensures i <= r <= |t|
    ensures r < |t| ==> t[r] == None
    ensures forall k :: i <= k < r ==> t[k] != None
    decreases |t| - i
  {
    if i == |t| || t[i] == None then i else FirstFree(t, i + 1)
  }

  datatype Outcome = Outcome(ret: int, t: Slots)

  /** sfs_create. */
  function Create(t: Slots, name: string): Outcome {
    var free := FirstFree(t, 0);
    if Find(t, name, 0) < |t| || free == |t| then Outcome(-1, t)
    else Outcome(free + 1, t[free := Some(Stored(name))])
  }

  /** sfs_delete. */
  function Delete(t: Slots, name: string): Outcome {
    var i := Find(t, name, 0);
    if i == |t| then Outcome(-1, t) else Outcome(0, t[i := None])
  }

  /** No two slots are used for the same name. */
  predicate Distinct(t: Slots) {
    forall i, j :: 0 <= i < j < |t| && t[i].Some? ==> t[i] != t[j]
  }

  /** Every stored name fits its field. */
  predicate Fit(t: Slots) {
    forall i :: 0 <= i < |t| && t[i].Some? ==> IsName(t[i].value) && |t[i].value| < MAX_FILENAME
  }

  function Unused(t: Slots): nat {
    if t == [] then 0 else (if t[0] == None then 1 else 0) + Unused(t[1..])
  }

  function Names(t: Slots): set<string> { set x | x in t && x.Some? :: x.value }

  /** The directory: each name's inode number, which is its slot plus one. */
  function Directory(t: Slots): map<string, nat> {
    map name | name in Names(t) :: Find(t, name, 0) + 1
  }

  lemma {:induction false} UnusedChange(t: Slots, i: nat, x: Option<string>)
    requires i < |t| && (t[i] == None <==> x != None)
    ensures Unused(t[i := x]) == Unused(t) + (if x == None then 1 else -1)
  {
    if i > 0 {
      assert t[i := x][1..] == t[1..][i - 1 := x];
      UnusedChange(t[1..], i - 1, x);
    } else {
      assert t[i := x][1..] == t[1..];
    }
  }

  lemma FindIs(t: Slots, name: string, i: nat)
    requires Distinct(t) && i < |t| && t[i] == Some(name)
    ensures Find(t, name, 0) == i
  {}

  /** The directory in full: exactly the names in use, each at its own slot. */
  lemma DirectoryOf(t: Slots)
    requires Distinct(t)
    ensures forall n :: n in Directory(t) <==> Some(n) in t
    ensures forall k, n :: 0 <= k < |t| && t[k] == Some(n) ==> n in Directory(t) && Directory(t)[n] == k + 1
  {
    forall k, n | 0 <= k < |t| && t[k] == Some(n) ensures n in Directory(t) && Directory(t)[n] == k + 1 {
      assert t[k] in t;
      FindIs(t, n, k);
    }
  }

  /** Using a free slot for a new name. */
  lemma DirectoryPut(t: Slots, i: nat, name: string)
    requires Distinct(t) && i < |t| && t[i] == None && Some(name) !in t
    ensures var t' := t[i := Some(name)];
            Distinct(t') && Directory(t') == Directory(t)[name := i + 1] && i + 1 !in Directory(t).Values
  {
    hide Directory;
    var t' := t[i := Some(name)];
    DirectoryOf(t);
    DirectoryOf(t');
    forall n ensures n in Directory(t') <==> n in Directory(t) || n == name {
      if n in Directory(t) {
        var k :| 0 <= k < |t| && t[k] == Some(n);
        assert t'[k] == Some(n);
      }
      assert t'[i] == Some(name);
    }
    forall n | n in Directory(t') ensures Directory(t')[n] == Directory(t)[name := i + 1][n] {
      var k :| 0 <= k < |t'| && t'[k] == Some(n);
      assert k == i || t[k] == Some(n);
    }
    forall n | n in Directory(t) ensures Directory(t)[n] != i + 1 {
      var k :| 0 <= k < |t| && t[k] == Some(n);
    }
  }

  /** Giving a slot up. */
  lemma DirectoryDrop(t: Slots, i: nat, name: string)
    requires Distinct(t) && i < |t| && t[i] == Some(name)
    ensures var t' := t[i := None];
            Distinct(t') && Directory(t') == Directory(t) - {name}
  {
    hide Directory;
    var t' := t[i := None];
    DirectoryOf(t);
    DirectoryOf(t');
    forall n ensures n in Directory(t') <==> n in Directory(t) && n != name {
      if n in Directory(t) && n != name {
        var k :| 0 <= k < |t| && t[k] == Some(n);
        assert t'[k] == Some(n);
      }
      if n in Directory(t') {
        var k :| 0 <= k < |t'| && t'[k] == Some(n);
        assert t[k] == Some(n);
      }
    }
    forall n | n in Directory(t') ensures Directory(t')[n] == Directory(t)[n] {
      var k :| 0 <= k < |t'| && t'[k] == Some(n);
      assert t[k] == Some(n);
    }
  }

  lemma {:induction false} UnusedIff(t: Slots)
    ensures Unused(t) == 0 <==> None !in t
  {
    if t != [] {
      UnusedIff(t[1..]);
      assert t == [t[0]] + t[1..];
    }
  }

  /** With distinct names of at most 27 characters, sfs_create is insertion into the directory. */
  lemma CreateInserts(t: Slots, name: string)
    requires Distinct(t) && Fit(t) && IsName(name) && |name| < MAX_FILENAME
    ensures var c := Create(t, name);
            && Distinct(c.t) && Fit(c.t) && |c.t| == |t|
            && (c.ret == -1 <==> name in Directory(t) || Unused(t) == 0)
            && (c.ret == -1 ==> c.t == t)
            && (c.ret != -1 ==> Directory(c.t) == Directory(t)[name := c.ret] && Unused(c.t) == Unused(t) - 1
                                && c.ret !in Directory(t).Values)
  {
    hide Directory, Distinct, Unused;
    var free := FirstFree(t, 0);
    UnusedIff(t);
    DirectoryOf(t);
    assert Some(name) in t <==> Find(t, name, 0) < |t|;
    if Some(name) !in t && free < |t| {
      UnusedChange(t, free, Some(name));
      DirectoryPut(t, free, name);
    }
  }

  /** sfs_delete is removal from the directory. */
  lemma DeleteRemoves(t: Slots, name: string)
    requires Distinct(t) && Fit(t)
    ensures var d := Delete(t, name);
            && Distinct(d.t) && Fit(d.t) && |d.t| == |t|
            && (d.ret == 0 || d.ret == -1) && (d.ret == 0 <==> name in Directory(t)) && (d.ret == -1 ==> d.t == t)
            && (d.ret == 0 ==> Directory(d.t) == Directory(t) - {name} && Unused(d.t) == Unused(t) + 1)
  {
    hide Directory, Distinct, Unused;
    var i := Find(t, name, 0);
    DirectoryOf(t);
    assert Some(name) in t <==> i < |t|;
    if i < |t| {
      UnusedChange(t, i, None);
      DirectoryDrop(t, i, name);
    }
  }

  // -------------------------------------------------------------------- long names

  /** A name of 28 characters or more is never found, and is stored cut to 27: creating it keeps the
      names distinct exactly when the cut name is not there yet, or there is no free inode. */
  lemma LongNames(t: Slots, name: string)
    requires Distinct(t) && Fit(t) && |name| >= MAX_FILENAME
    ensures Find(t, name, 0) == |t|
    ensures Distinct(Create(t, name).t) <==> Some(Stored(name)) !in t || Unused(t) == 0
  {
    hide Directory;
    UnusedIff(t);
    var free := FirstFree(t, 0);
    if free < |t| {
      var t' := t[free := Some(Stored(name))];
      if Some(Stored(name)) in t {
        var k :| 0 <= k < |t| && t[k] == Some(Stored(name));
        assert t'[k] == t'[free];
      } else {
        DirectoryPut(t, free, Stored(name));
      }
    }
  }

  // ------------------------------------------------------------------------- runs

  datatype Op = DoCreate(name: string) | DoDelete(name: string)

  function Apply(t: Slots, op: Op): Slots {
    match op
    case DoCreate(name) => Create(t, name).t
    case DoDelete(name) => Delete(t, name).t
  }

  function Run(t: Slots, ops: seq<Op>): Slots
    decreases |ops|
  {
    if ops == [] then t else Run(Apply(t, ops[0]), ops[1..])
  }

  /** Told before the operation: it stores a cut name that is there already. */
  predicate Clashes(t: Slots, op: Op) {
    op.DoCreate? && |op.name| >= MAX_FILENAME && Some(Stored(op.name)) in t && Unused(t) > 0
  }

  /** Names are distinct at every point of the run. */
  predicate AlwaysDistinct(t: Slots, ops: seq<Op>)
    decreases |ops|
  {
    Distinct(t) && (ops == [] || AlwaysDistinct(Apply(t, ops[0]), ops[1..]))
  }

  predicate NoClash(t: Slots, ops: seq<Op>)
    decreases |ops|
  {
    ops == [] || (!Clashes(t, ops[0]) && NoClash(Apply(t, ops[0]), ops[1..]))
  }

  lemma StepDistinct(t: Slots, op: Op)
    requires Distinct(t) && Fit(t) && IsName(op.name)
    ensures Fit(Apply(t, op)) && (Distinct(Apply(t, op)) <==> !Clashes(t, op))
  {
    hide Distinct, Directory, Unused;
    if op.DoDelete? { DeleteRemoves(t, op.name); }
    else if |op.name| < MAX_FILENAME { CreateInserts(t, op.name); }
    else { LongNames(t, op.name); }
  }

  /** Over every run, names of any length included: they stay distinct throughout exactly when no
      create of a name of 28 characters or more finds its cut name in the table and a free inode. */
  lemma {:induction false} StaysDistinctIff(t: Slots, ops: seq<Op>)
    requires Distinct(t) && Fit(t) && forall op :: op in ops ==> IsName(op.name)
    ensures AlwaysDistinct(t, ops) <==> NoClash(t, ops)
    decreases |ops|
  {
    hide Distinct, Fit, Apply, Clashes;
    if ops != [] {
      assert ops[0] in ops;
      StepDistinct(t, ops[0]);
      assert forall op :: op in ops[1..] ==> op in ops;
      if Distinct(Apply(t, ops[0])) { StaysDistinctIff(Apply(t, ops[0]), ops[1..]); }
    }
  }

  const EMPTY: Slots := seq(MAX_FILES, _ => None)
  const LONG_NAME: string := "abcdefghijklmnopqrstuvwxyz01"

  /** The same name of 28 characters created twice on the empty table: it is there twice. */
  lemma LongNameTwice()
    ensures Create(EMPTY, LONG_NAME).ret == 1 && Create(Create(EMPTY, LONG_NAME).t, LONG_NAME).ret == 2
    ensures !Distinct(Run(EMPTY, [DoCreate(LONG_NAME), DoCreate(LONG_NAME)]))
  {
    var cut := Stored(LONG_NAME);
    assert |LONG_NAME| == 28 && |cut| == 27;
    var t1 := EMPTY[0 := Some(cut)];
    assert FirstFree(EMPTY, 0) == 0 && Find(EMPTY, LONG_NAME, 0) == |EMPTY|;
    assert Create(EMPTY, LONG_NAME) == Outcome(1, t1);
    assert t1[0] == Some(cut) && t1[1] == None;
    assert FirstFree(t1, 1) == 1;
    var t2 := t1[1 := Some(cut)];
    assert Create(t1, LONG_NAME) == Outcome(2, t2);
    assert t2[0] == t2[1];
    var ops := [DoCreate(LONG_NAME), DoCreate(LONG_NAME)];
    assert ops[1..] == [DoCreate(LONG_NAME)] && ops[1..][1..] == [];
    assert Run(t2, ops[1..][1..]) == t2;
    assert Run(t1, ops[1..]) == t2;
  }

  /** What the directory should be after an operation, as a map that cannot hold more than n names. */
  ghost predicate MapStep(d: map<string, nat>, op: Op, d': map<string, nat>, n: nat) {
    match op
    case DoCreate(name) =>
      if name in d || |d| == n then d' == d
      else exists ino :: 0 < ino <= n && ino !in d.Values && d' == d[name := ino]
    case DoDelete(name) => d' == d - {name}
  }

  /** Every run of creates and deletes of short names keeps the table a finite map. */
  lemma {:induction false} RunKeepsDirectory(t: Slots, ops: seq<Op>)
    requires Distinct(t) && Fit(t) && forall op :: op in ops ==> IsName(op.name) && |op.name| < MAX_FILENAME
    ensures Distinct(Run(t, ops)) && Fit(Run(t, ops)) && |Run(t, ops)| == |t|
    ensures |Directory(Run(t, ops))| + Unused(Run(t, ops)) == |t|
    decreases |ops|
  {
    hide Distinct, Directory, Fit, Create, Delete;
    if ops == [] {
      DirectorySize(t);
    } else {
      assert ops[0] in ops;
      if ops[0].DoCreate? { CreateInserts(t, ops[0].name); } else { DeleteRemoves(t, ops[0].name); }
      assert forall op :: op in ops[1..] ==> op in ops;
      RunKeepsDirectory(Apply(t, ops[0]), ops[1..]);
    }
  }

  lemma {:induction false} DirectorySize(t: Slots)
    requires Distinct(t)
    ensures |Directory(t)| + Unused(t) == |t|
  {
    hide Directory;
    NamesSize(t);
    DirectoryOf(t);
    assert Directory(t).Keys == Names(t);
  }

  lemma {:induction false} NamesSize(t: Slots)
    requires Distinct(t)
    ensures |Names(t)| + Unused(t) == |t|
  {
    if t == [] {
      assert Names(t) == {};
    } else {
      var rest := t[1..];
      NamesSize(rest);
      assert t == [t[0]] + rest;
      if t[0] == None {
        assert Names(t) == Names(rest);
      } else {
        assert t[0] !in rest;
        assert Names(t) == Names(rest) + {t[0].value};
      }
    }
  }

  /** One operation is one step of the map. */
  lemma StepIsMapStep(t: Slots, op: Op)
    requires Distinct(t) && Fit(t) && IsName(op.name) && |op.name| < MAX_FILENAME
    ensures MapStep(Directory(t), op, Directory(Apply(t, op)), |t|)
  {
    hide Distinct, Directory, Fit, Create, Delete;
    DirectorySize(t);
    if op.DoCreate? {
      CreateInserts(t, op.name);
      CreateRange(t, op.name);
    } else {
      DeleteRemoves(t, op.name);
      if op.name !in Directory(t) { assert Directory(t) - {op.name} == Directory(t); }
    }
  }

  lemma CreateRange(t: Slots, name: string)
    ensures Create(t, name).ret == -1 || 0 < Create(t, name).ret <= |t|
  {}

  // ------------------------------------------------------------ the table as it runs

  datatype Inode = Inode(ino: nat, kind: nat, size: nat, name: seq<char>)

  lemma {:induction false} TextIs(bytes: seq<char>, j: nat)
    requires j < |bytes| && bytes[j] == NUL && forall k :: 0 <= k < j ==> bytes[k] != NUL
    ensures Text(bytes) == bytes[..j]
  {
    if j > 0 { TextIs(bytes[1..], j - 1); }
  }

  lemma {:induction false} TextEnds(bytes: seq<char>)
    requires |Text(bytes)| < |bytes|
    ensures bytes[|Text(bytes)|] == NUL && Text(bytes) == bytes[..|Text(bytes)|] && IsName(Text(bytes))
  {
    if bytes[0] != NUL { TextEnds(bytes[1..]); }
  }

  lemma EndOfName(name: string, j: nat)
    requires IsName(name) && j <= |name|
    ensures CharAt(name, j) == NUL <==> j == |name|
  {
    if j < |name| { assert name[j] in name; }
  }

  lemma SameTextSameByte(bytes: seq<char>, name: string, j: nat)
    requires |Text(bytes)| < |bytes| && j < |bytes| && j <= |name|
    ensures Text(bytes) == name ==> bytes[j] == CharAt(name, j)
  {
    TextEnds(bytes);
  }

  /** What the slot holds, for find_inode. */
  function SlotOf(x: Inode): Option<string> {
    if x.ino == 0 then None else Some(Text(x.name))
  }

  class FileTable {
    const inodes: array<Inode>
    var numFreeInodes: nat
    ghost var t: Slots

    ghost predicate Valid()
      reads this, inodes
    {
      && inodes.Length == |t| == MAX_FILES && numFreeInodes == Unused(t) && Fit(t)
      && (forall i :: 0 <= i < MAX_FILES ==> t[i] == SlotOf(inodes[i]) && |inodes[i].name| == MAX_FILENAME)
      && (forall i :: 0 <= i < MAX_FILES ==> inodes[i].ino == 0 || inodes[i].ino == i + 1)
    }

    /** sfs_init and a successful sfs_format, over names of arbitrary contents. */
    constructor (names: seq<seq<char>>)
      requires |names| == MAX_FILES && forall i :: 0 <= i < MAX_FILES ==> |names[i]| == MAX_FILENAME
      ensures Valid() && fresh(inodes)
      ensures t == seq(MAX_FILES, _ => None)
    {
      inodes := new Inode[MAX_FILES](i requires 0 <= i < MAX_FILES => Inode(0, 0, 0, names[i]));
      numFreeInodes := MAX_FILES;
      t := seq(MAX_FILES, _ => None);
      new;
      AllUnused(t);
    }

    /** The comparison in find_inode, on a used slot. */
    method Matches(i: nat, name: string) returns (same: bool)
      requires Valid() && i < MAX_FILES && inodes[i].ino != 0 && IsName(name)
      ensures same <==> t[i] == Some(name)
    {
      ghost var bytes := inodes[i].name;
      assert t[i].Some?;
      TextEnds(bytes);
      same := true;
      var j := 0;
      while j < MAX_FILENAME
        invariant 0 <= j <= MAX_FILENAME && j <= |name| && j <= |Text(bytes)| && same
        invariant bytes[..j] == name[..j]
      {
        EndOfName(name, j);
        SameTextSameByte(bytes, name, j);
        if inodes[i].name[j] != CharAt(name, j) {
          same := false;
          return;
        }
        if CharAt(name, j) == NUL {
          TextIs(bytes, j);
          assert name[..j] == name;
          return;
        }
        j := j + 1;
      }
    }

    /** find_inode; MAX_FILES for NULL. */
    method FindInode(name: string) returns (i: nat)
      requires Valid() && IsName(name)
      ensures i == Find(t, name, 0)
    {
      i := 0;
      while i < MAX_FILES
        invariant 0 <= i <= MAX_FILES && Find(t, name, i) == Find(t, name, 0)
      {
        if inodes[i].ino != 0 {
          var same := Matches(i, name);
          if same {
            return;
          }
        }
        i := i + 1;
      }
    }

    /** The copy loop of sfs_create. */
    method CopyName(i: nat, name: string)
      requires i < inodes.Length && |inodes[i].name| == MAX_FILENAME && IsName(name)
      modifies inodes
      ensures Text(inodes[i].name) == Stored(name) && |inodes[i].name| == MAX_FILENAME
      ensures inodes[i] == old(inodes[i]).(name := inodes[i].name)
      ensures forall k :: 0 <= k < inodes.Length && k != i ==> inodes[k] == old(inodes[k])
    {
      var j := 0;
      while j < MAX_FILENAME - 1 && CharAt(name, j) != NUL
        invariant 0 <= j <= MAX_FILENAME - 1 && j <= |name|
        invariant |inodes[i].name| == MAX_FILENAME && forall k :: 0 <= k < j ==> inodes[i].name[k] == name[k]
        invariant inodes[i] == old(inodes[i]).(name := inodes[i].name)
        invariant forall k :: 0 <= k < inodes.Length && k != i ==> inodes[k] == old(inodes[k])
      {
        inodes[i] := inodes[i].(name := inodes[i].name[j := CharAt(name, j)]);
        j := j + 1;
      }
      inodes[i] := inodes[i].(name := inodes[i].name[j := NUL]);
      ghost var bytes := inodes[i].name;
      forall k | 0 <= k < j ensures bytes[k] == name[k] && bytes[k] != NUL { assert name[k] in name; }
      assert bytes[..j] == name[..j];
      EndOfName(name, j);
      TextIs(bytes, j);
    }

    /** The body of sfs_create's loop on a free inode. */
    method UseSlot(i: nat, name: string, kind: nat)
      requires Valid() && IsName(name) && i < MAX_FILES && inodes[i].ino == 0
      modifies this, inodes
      ensures Valid() && t == old(t)[i := Some(Stored(name))]
      ensures inodes[i].ino == i + 1 && inodes[i].kind == kind && inodes[i].size == 0
      ensures forall k :: 0 <= k < MAX_FILES && k != i ==> inodes[k] == old(inodes[k])
    {
      hide Unused, Text;
      UnusedChange(t, i, Some(Stored(name)));
      inodes[i] := inodes[i].(ino := i + 1, kind := kind, size := 0);
      CopyName(i, name);
      StoredFits(name);
      numFreeInodes := numFreeInodes - 1;
      t := t[i := Some(Stored(name))];
    }

    /** sfs_create. */
    method SfsCreate(name: string, kind: nat) returns (ret: int)
      requires Valid() && IsName(name)
      modifies this, inodes
      ensures Valid() && Outcome(ret, t) == Create(old(t), name)
      ensures ret != -1 ==> 1 <= ret <= MAX_FILES && inodes[ret - 1].ino == ret && inodes[ret - 1].kind == kind
                            && inodes[ret - 1].size == 0
      ensures forall k :: 0 <= k < MAX_FILES && k + 1 != ret ==> inodes[k] == old(inodes[k])
    {
      hide Unused;
      ghost var t0 := t;
      var found := FindInode(name);
      if found != MAX_FILES {
        return -1;
      }
      var i := 0;
      while i < MAX_FILES
        invariant 0 <= i <= MAX_FILES && Valid() && t == t0 && FirstFree(t, i) == FirstFree(t, 0)
        invariant inodes[..] == old(inodes[..])
      {
        if inodes[i].ino == 0 {
          UseSlot(i, name, kind);
          return i + 1;
        }
        i := i + 1;
      }
      ret := -1;
    }

    /** sfs_delete. */
    method SfsDelete(name: string) returns (ret: int)
      requires Valid() && IsName(name)
      modifies this, inodes
      ensures Valid() && Outcome(ret, t) == Delete(old(t), name)
      ensures forall k :: 0 <= k < MAX_FILES ==>
                inodes[k] == if ret == 0 && k == Find(old(t), name, 0) then Inode(0, 0, 0, old(inodes[k].name))
                             else old(inodes[k])
    {
      hide Unused;
      var i := FindInode(name);
      if i == MAX_FILES {
        return -1;
      }
      UnusedChange(t, i, None);
      inodes[i] := inodes[i].(ino := 0, kind := 0, size := 0);
      numFreeInodes := numFreeInodes + 1;
      t := t[i := None];
      ret := 0;
    }
  }

  lemma {:induction false} AllUnused(t: Slots)
    requires forall i :: 0 <= i < |t| ==> t[i] == None
    ensures Unused(t) == |t| && Distinct(t) && Fit(t)
  {
    if t != [] { AllUnused(t[1..]); }
  }

  lemma StoredFits(name: string)
    requires IsName(name)
    ensures IsName(Stored(name)) && |Stored(name)| < MAX_FILENAME
  {}
}
