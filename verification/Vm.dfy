/**
  Address spaces: the page allocator of kalloc.c and the two-level page tables of vm.c.
  Addresses are kept as page numbers; a page holds a directory, a table or user data.
 */
module Vm {
  const PGSIZE: int := 4096
  const NPTE: int := 1024      // entries in a directory or table
  const UPAGES: int := 524288  // pages below KERNBASE

  const PTE_P: int := 1 // present
  const PTE_W: int := 2 // may be written
  const PTE_U: int := 4 // may be used by the process

  datatype Entry = None | Entry(page: int, flags: int)

  type Entries = seq<Entry>
  type Bytes = seq<int>

  datatype VM = VM(dir: map<int, Entries>, table: map<int, Entries>, frame: map<int, Bytes>)

  function NoEntries(): (r: Entries)
    ensures |r| == NPTE && forall i :: 0 <= i < NPTE ==> r[i] == None
  {
    seq(NPTE, _ => None)
  }

  predicate IsPde(vm: VM, d: int, i: int) {
    d in vm.dir && 0 <= i < NPTE
  }

  predicate IsPage(vm: VM, d: int, v: int) {
    d in vm.dir && 0 <= v < NPTE * NPTE
  }

  ghost predicate Shape(vm: VM) {
    && (forall d :: d in vm.dir ==> |vm.dir[d]| == NPTE)
    && (forall t :: t in vm.table ==> |vm.table[t]| == NPTE)
  }

  function Pde(vm: VM, d: int, i: int): Entry
    requires Shape(vm) && IsPde(vm, d, i)
  {
    vm.dir[d][i]
  }

  /** The entry of virtual page v in directory d: what walkpgdir() finds. */
  function Walk(vm: VM, d: int, v: int): Entry
    requires Shape(vm) && IsPage(vm, d, v)
  {
    var e := vm.dir[d][v / NPTE];
    if e.None? || e.page !in vm.table then None else vm.table[e.page][v % NPTE]
  }

  predicate IsUser(vm: VM, d: int, v: int) {
    d in vm.dir && 0 <= v < UPAGES
  }

  /** Every table serves one directory slot, which leaves all restrictions to the entries of the table. */
  ghost predicate Tables(vm: VM, to: map<int, (int, int)>)
    requires Shape(vm)
  {
    && to.Keys == vm.table.Keys
    && (forall d, i :: IsPde(vm, d, i) && Pde(vm, d, i).Entry? ==>
          Pde(vm, d, i).page in to && to[Pde(vm, d, i).page] == (d, i) && Pde(vm, d, i).flags == PTE_P + PTE_W + PTE_U)
    && (forall t :: t in to ==>
          IsPde(vm, to[t].0, to[t].1) && Pde(vm, to[t].0, to[t].1).Entry? && Pde(vm, to[t].0, to[t].1).page == t)
  }

  /** Every data page is mapped at one user page of one directory. */
  ghost predicate Frames(vm: VM, fo: map<int, (int, int)>)
    requires Shape(vm)
  {
    && fo.Keys == vm.frame.Keys
    && (forall d, v :: IsUser(vm, d, v) && Walk(vm, d, v).Entry? ==>
          Walk(vm, d, v).page in fo && fo[Walk(vm, d, v).page] == (d, v))
    && (forall f :: f in fo ==>
          IsUser(vm, fo[f].0, fo[f].1) && Walk(vm, fo[f].0, fo[f].1).Entry? && Walk(vm, fo[f].0, fo[f].1).page == f)
  }

  /** Pages in use, and pages taken from the free list that nothing refers to. */
  ghost function Used(vm: VM, lost: set<int>): set<int> {
    vm.dir.Keys + vm.table.Keys + vm.frame.Keys + lost
  }

  ghost predicate Apart(vm: VM, lost: set<int>) {
    && vm.dir.Keys !! vm.table.Keys && vm.dir.Keys !! vm.frame.Keys && vm.table.Keys !! vm.frame.Keys
    && lost !! vm.dir.Keys && lost !! vm.table.Keys && lost !! vm.frame.Keys
  }

  // ---------------------------------------------------------------- steps

  /** A fresh table t in slot i of d. */
  function WithTable(vm: VM, d: int, i: int, t: int, flags: int): VM
    requires Shape(vm) && IsPde(vm, d, i)
  {
    vm.(dir := vm.dir[d := vm.dir[d][i := Entry(t, flags)]], table := vm.table[t := NoEntries()])
  }

  lemma WithTableOk(vm: VM, to: map<int, (int, int)>, fo: map<int, (int, int)>, d: int, i: int, t: int, flags: int)
    requires Shape(vm) && Tables(vm, to) && Frames(vm, fo) && IsPde(vm, d, i) && Pde(vm, d, i).None? && t !in vm.table
    requires flags == PTE_P + PTE_W + PTE_U
    ensures var vm' := WithTable(vm, d, i, t, flags);
      Shape(vm') && Tables(vm', to[t := (d, i)]) && Frames(vm', fo)
    ensures forall e, v :: IsPage(vm, e, v) ==> Walk(WithTable(vm, d, i, t, flags), e, v) == Walk(vm, e, v)
  {
    var vm' := WithTable(vm, d, i, t, flags);
    assert Shape(vm');
    assert forall e, k :: IsPde(vm, e, k) ==>
      Pde(vm', e, k) == if (e, k) == (d, i) then Entry(t, flags) else Pde(vm, e, k);
    forall e, v | IsPage(vm, e, v) ensures Walk(vm', e, v) == Walk(vm, e, v) {
      assert IsPde(vm, e, v / NPTE) && Pde(vm, e, v / NPTE) == vm.dir[e][v / NPTE];
    }
    hide Walk, Pde, Shape;
  }

  /** Entry x at page v of d, whose table is there. */
  function WithEntry(vm: VM, d: int, v: int, x: Entry): VM
    requires Shape(vm) && IsPage(vm, d, v) && vm.dir[d][v / NPTE].Entry? && vm.dir[d][v / NPTE].page in vm.table
  {
    var t := vm.dir[d][v / NPTE].page;
    vm.(table := vm.table[t := vm.table[t][v % NPTE := x]])
  }

  lemma WithEntryWalk(vm: VM, to: map<int, (int, int)>, d: int, v: int, x: Entry, e: int, w: int)
    requires Shape(vm) && Tables(vm, to) && IsPage(vm, d, v) && IsPage(vm, e, w)
    requires vm.dir[d][v / NPTE].Entry? && vm.dir[d][v / NPTE].page in vm.table
    ensures Shape(WithEntry(vm, d, v, x))
    ensures Walk(WithEntry(vm, d, v, x), e, w) == if (e, w) == (d, v) then x else Walk(vm, e, w)
  {
    var vm' := WithEntry(vm, d, v, x);
    assert Shape(vm');
    assert IsPde(vm, d, v / NPTE) && IsPde(vm, e, w / NPTE);
    assert Pde(vm, d, v / NPTE) == vm.dir[d][v / NPTE] && Pde(vm, e, w / NPTE) == vm.dir[e][w / NPTE];
    if (e, w) != (d, v) && v / NPTE == w / NPTE && d == e { assert v % NPTE != w % NPTE; }
  }

  lemma WithEntryTables(vm: VM, to: map<int, (int, int)>, d: int, v: int, x: Entry)
    requires Shape(vm) && Tables(vm, to) && IsPage(vm, d, v)
    requires vm.dir[d][v / NPTE].Entry? && vm.dir[d][v / NPTE].page in vm.table
    ensures Shape(WithEntry(vm, d, v, x)) && Tables(WithEntry(vm, d, v, x), to)
  {
    var vm' := WithEntry(vm, d, v, x);
    assert Shape(vm');
    assert vm'.table.Keys == vm.table.Keys;
    assert forall e, k :: IsPde(vm, e, k) ==> Pde(vm', e, k) == Pde(vm, e, k);
    hide Pde, Shape;
  }

  // ---- rights

  predicate Grants(flags: int, bit: int)
    requires bit > 0
  {
    flags / bit % 2 == 1
  }

  /** What the processor lets a process do with page v: both the directory and the table must grant it. */
  predicate May(vm: VM, d: int, v: int, bit: int)
    requires Shape(vm) && IsPage(vm, d, v) && Walk(vm, d, v).Entry? && bit > 0
  {
    Grants(vm.dir[d][v / NPTE].flags, bit) && Grants(Walk(vm, d, v).flags, bit)
  }

  /** The entry of the table alone decides. */
  ghost predicate Honest(vm: VM)
    requires Shape(vm)
  {
    forall d, v, bit :: IsPage(vm, d, v) && Walk(vm, d, v).Entry? && bit in {PTE_W, PTE_U} ==>
      (May(vm, d, v, bit) <==> Grants(Walk(vm, d, v).flags, bit))
  }

  lemma SlotFlags(vm: VM, to: map<int, (int, int)>, d: int, i: int)
    requires Shape(vm) && Tables(vm, to) && IsPde(vm, d, i) && Pde(vm, d, i).Entry?
    ensures Pde(vm, d, i).flags == PTE_P + PTE_W + PTE_U
  {
  }

  lemma TablesHonest(vm: VM, to: map<int, (int, int)>)
    requires Shape(vm) && Tables(vm, to)
    ensures Honest(vm)
  {
    forall d, v, bit | IsPage(vm, d, v) && Walk(vm, d, v).Entry? && bit in {PTE_W, PTE_U}
      ensures May(vm, d, v, bit) <==> Grants(Walk(vm, d, v).flags, bit)
    {
      assert IsPde(vm, d, v / NPTE) && Pde(vm, d, v / NPTE) == vm.dir[d][v / NPTE];
    }
  }

  ghost predicate Inv(vm: VM, to: map<int, (int, int)>, fo: map<int, (int, int)>, lost: set<int>) {
    Shape(vm) && Tables(vm, to) && Frames(vm, fo) && Apart(vm, lost)
  }

  predicate HasTable(vm: VM, d: int, v: int)
    requires Shape(vm) && IsPage(vm, d, v)
  {
    vm.dir[d][v / NPTE].Entry? && vm.dir[d][v / NPTE].page in vm.table
  }

  /** Data page f, until now unreferred to, mapped at v. */
  function WithPage(vm: VM, d: int, v: int, f: int, flags: int, bytes: Bytes): VM
    requires Shape(vm) && IsPage(vm, d, v) && HasTable(vm, d, v)
  {
    WithEntry(vm, d, v, Entry(f, flags)).(frame := vm.frame[f := bytes])
  }

  lemma WithPageOk(vm: VM, to: map<int, (int, int)>, fo: map<int, (int, int)>, lost: set<int>,
                   d: int, v: int, f: int, flags: int, bytes: Bytes)
    requires Inv(vm, to, fo, lost) && IsUser(vm, d, v) && HasTable(vm, d, v) && Walk(vm, d, v).None? && f in lost
    ensures var vm' := WithPage(vm, d, v, f, flags, bytes);
      Inv(vm', to, fo[f := (d, v)], lost - {f}) && Used(vm', lost - {f}) == Used(vm, lost)
    ensures forall e, w :: IsPage(vm, e, w) ==>
      Walk(WithPage(vm, d, v, f, flags, bytes), e, w) == if (e, w) == (d, v) then Entry(f, flags) else Walk(vm, e, w)
  {
    hide Walk, Pde, Shape, Tables, Frames, WithEntry;
    var x := Entry(f, flags);
    var vm', vm'' := WithPage(vm, d, v, f, flags, bytes), WithEntry(vm, d, v, x);
    WithEntryTables(vm, to, d, v, x);
    WithEntrySame(vm, d, v, x);
    SameTables(vm'', vm', to);
    forall e, w | IsPage(vm, e, w) ensures Walk(vm', e, w) == if (e, w) == (d, v) then x else Walk(vm, e, w) {
      WithEntryWalk(vm, to, d, v, x, e, w);
      SameWalk(vm'', vm', e, w);
    }
    WithPageFrames(vm, vm', fo, d, v, f, flags);
    assert Used(vm', lost - {f}) == Used(vm, lost);
  }

  lemma WithEntrySame(vm: VM, d: int, v: int, x: Entry)
    requires Shape(vm) && IsPage(vm, d, v) && HasTable(vm, d, v)
    ensures WithEntry(vm, d, v, x).dir == vm.dir && WithEntry(vm, d, v, x).frame == vm.frame
    ensures WithEntry(vm, d, v, x).table.Keys == vm.table.Keys
  {
  }

  lemma WithPageFrames(vm: VM, vm': VM, fo: map<int, (int, int)>, d: int, v: int, f: int, flags: int)
    requires Shape(vm) && Shape(vm') && Frames(vm, fo) && IsUser(vm, d, v) && Walk(vm, d, v).None? && f !in vm.frame
    requires vm'.dir == vm.dir && vm'.frame.Keys == vm.frame.Keys + {f}
    requires forall e, w :: IsPage(vm, e, w) ==>
      Walk(vm', e, w) == if (e, w) == (d, v) then Entry(f, flags) else Walk(vm, e, w)
    ensures Frames(vm', fo[f := (d, v)])
  {
    hide Walk, Shape;
  }

  /** The data pages do not enter the page tables. */
  lemma SameWalk(vm: VM, vm': VM, e: int, w: int)
    requires Shape(vm) && IsPage(vm, e, w) && vm' == vm.(frame := vm'.frame)
    ensures Shape(vm') && Walk(vm', e, w) == Walk(vm, e, w)
  {
  }

  lemma SameTables(vm: VM, vm': VM, to: map<int, (int, int)>)
    requires Shape(vm) && Tables(vm, to) && vm' == vm.(frame := vm'.frame)
    ensures Shape(vm') && Tables(vm', to)
  {
    assert forall e, k :: IsPde(vm, e, k) ==> Pde(vm', e, k) == Pde(vm, e, k);
    hide Pde;
  }

  /** A kernel entry refers to no page of the allocator. */
  lemma WithKernelOk(vm: VM, to: map<int, (int, int)>, fo: map<int, (int, int)>, lost: set<int>, d: int, v: int,
                     x: Entry)
    requires Inv(vm, to, fo, lost) && IsPage(vm, d, v) && UPAGES <= v && HasTable(vm, d, v)
    ensures var vm' := WithEntry(vm, d, v, x); Inv(vm', to, fo, lost) && Used(vm', lost) == Used(vm, lost)
    ensures forall e, w :: IsPage(vm, e, w) && (e, w) != (d, v) ==> Walk(WithEntry(vm, d, v, x), e, w) == Walk(vm, e, w)
  {
    var vm' := WithEntry(vm, d, v, x);
    WithEntryTables(vm, to, d, v, x);
    forall e, w | IsPage(vm, e, w) ensures Walk(vm', e, w) == if (e, w) == (d, v) then x else Walk(vm, e, w) {
      WithEntryWalk(vm, to, d, v, x, e, w);
    }
    assert vm'.table.Keys == vm.table.Keys;
    hide Walk, Pde, Shape, Tables;
  }

  ghost function Minus(m: map<int, (int, int)>, f: int): map<int, (int, int)> {
    map k | k in m && k != f :: m[k]
  }

  /** The data page at v no longer mapped. */
  function WithoutPage(vm: VM, d: int, v: int): VM
    requires Shape(vm) && IsPage(vm, d, v) && HasTable(vm, d, v) && Walk(vm, d, v).Entry?
  {
    var f := Walk(vm, d, v).page;
    WithEntry(vm, d, v, None).(frame := map k | k in vm.frame && k != f :: vm.frame[k])
  }

  lemma WithoutPageOk(vm: VM, to: map<int, (int, int)>, fo: map<int, (int, int)>, lost: set<int>, d: int, v: int)
    requires Inv(vm, to, fo, lost) && IsUser(vm, d, v) && HasTable(vm, d, v) && Walk(vm, d, v).Entry?
    ensures var f := Walk(vm, d, v).page; var vm' := WithoutPage(vm, d, v);
      f in vm.frame && Inv(vm', to, Minus(fo, f), lost) && Used(vm', lost) == Used(vm, lost) - {f} && fo[f] == (d, v)
    ensures forall e, w :: IsPage(vm, e, w) ==>
      Walk(WithoutPage(vm, d, v), e, w) == if (e, w) == (d, v) then None else Walk(vm, e, w)
  {
    hide Walk, Pde, Shape, Tables, Frames, WithEntry;
    var f := Walk(vm, d, v).page;
    FrameOwner(vm, fo, d, v);
    var vm', vm'' := WithoutPage(vm, d, v), WithEntry(vm, d, v, None);
    WithEntryTables(vm, to, d, v, None);
    WithEntrySame(vm, d, v, None);
    SameTables(vm'', vm', to);
    forall e, w | IsPage(vm, e, w) ensures Walk(vm', e, w) == if (e, w) == (d, v) then None else Walk(vm, e, w) {
      WithEntryWalk(vm, to, d, v, None, e, w);
      SameWalk(vm'', vm', e, w);
    }
    assert vm'.frame.Keys == vm.frame.Keys - {f};
    WithoutPageFrames(vm, vm', fo, d, v, f);
    assert Used(vm', lost) == Used(vm, lost) - {f};
  }

  lemma FrameOwner(vm: VM, fo: map<int, (int, int)>, d: int, v: int)
    requires Shape(vm) && Frames(vm, fo) && IsUser(vm, d, v) && Walk(vm, d, v).Entry?
    ensures Walk(vm, d, v).page in vm.frame && Walk(vm, d, v).page in fo && fo[Walk(vm, d, v).page] == (d, v)
  {
    hide Walk, Shape;
  }

  lemma WithoutPageFrames(vm: VM, vm': VM, fo: map<int, (int, int)>, d: int, v: int, f: int)
    requires Shape(vm) && Shape(vm') && Frames(vm, fo) && IsUser(vm, d, v) && Walk(vm, d, v).Entry?
    requires f == Walk(vm, d, v).page
    requires vm'.dir == vm.dir && vm'.frame.Keys == vm.frame.Keys - {f}
    requires forall e, w :: IsPage(vm, e, w) ==> Walk(vm', e, w) == if (e, w) == (d, v) then None else Walk(vm, e, w)
    ensures Frames(vm', Minus(fo, f)) && f in vm.frame
  {
    hide Walk, Shape;
  }

  // ---- giving up tables and directories

  function WithoutTable(vm: VM, d: int, i: int): VM
    requires Shape(vm) && IsPde(vm, d, i) && Pde(vm, d, i).Entry?
  {
    var t := vm.dir[d][i].page;
    vm.(dir := vm.dir[d := vm.dir[d][i := None]], table := map k | k in vm.table && k != t :: vm.table[k])
  }

  /** No user page of d is mapped. */
  ghost predicate NoUser(vm: VM, d: int)
    requires Shape(vm)
  {
    forall v :: IsUser(vm, d, v) ==> Walk(vm, d, v).None?
  }

  lemma WithoutTableWalk(vm: VM, to: map<int, (int, int)>, d: int, i: int, e: int, w: int)
    requires Shape(vm) && Tables(vm, to) && IsPde(vm, d, i) && Pde(vm, d, i).Entry? && IsPage(vm, e, w)
    ensures var vm' := WithoutTable(vm, d, i);
      Shape(vm') && Walk(vm', e, w) == if e == d && w / NPTE == i then None else Walk(vm, e, w)
  {
    var vm' := WithoutTable(vm, d, i);
    assert Shape(vm');
    assert IsPde(vm, e, w / NPTE) && Pde(vm, e, w / NPTE) == vm.dir[e][w / NPTE];
  }

  lemma WithoutTableTables(vm: VM, to: map<int, (int, int)>, d: int, i: int)
    requires Shape(vm) && Tables(vm, to) && IsPde(vm, d, i) && Pde(vm, d, i).Entry?
    ensures var t := Pde(vm, d, i).page; var vm' := WithoutTable(vm, d, i);
      Shape(vm') && t in vm.table && Tables(vm', Minus(to, t)) && vm'.table.Keys == vm.table.Keys - {t}
        && vm'.dir.Keys == vm.dir.Keys
  {
    var vm' := WithoutTable(vm, d, i);
    assert Shape(vm');
    assert forall e, k :: IsPde(vm, e, k) ==> Pde(vm', e, k) == if (e, k) == (d, i) then None else Pde(vm, e, k);
    hide Pde, Shape;
  }

  lemma WithoutTableOk(vm: VM, to: map<int, (int, int)>, fo: map<int, (int, int)>, lost: set<int>, d: int, i: int)
    requires Inv(vm, to, fo, lost) && IsPde(vm, d, i) && Pde(vm, d, i).Entry? && NoUser(vm, d)
    ensures var t := Pde(vm, d, i).page; var vm' := WithoutTable(vm, d, i);
      t in vm.table && Inv(vm', Minus(to, t), fo, lost) && Used(vm', lost) == Used(vm, lost) - {t} && NoUser(vm', d)
    ensures forall e, w :: IsPage(vm, e, w) && e != d ==> Walk(WithoutTable(vm, d, i), e, w) == Walk(vm, e, w)
  {
    hide Walk, Pde, Shape, Tables, Frames, WithoutTable;
    var vm', t := WithoutTable(vm, d, i), Pde(vm, d, i).page;
    WithoutTableTables(vm, to, d, i);
    forall e, w | IsPage(vm, e, w) ensures Walk(vm', e, w) == if e == d && w / NPTE == i then None else Walk(vm, e, w) {
      WithoutTableWalk(vm, to, d, i, e, w);
    }
    WithoutTableSame(vm, d, i);
    assert Used(vm', lost) == Used(vm, lost) - {t};
    WithoutTableFrames(vm, vm', fo, d, i);
  }

  lemma WithoutTableSame(vm: VM, d: int, i: int)
    requires Shape(vm) && IsPde(vm, d, i) && Pde(vm, d, i).Entry?
    ensures WithoutTable(vm, d, i).frame == vm.frame && WithoutTable(vm, d, i).dir.Keys == vm.dir.Keys
  {
  }

  lemma WithoutTableFrames(vm: VM, vm': VM, fo: map<int, (int, int)>, d: int, i: int)
    requires Shape(vm) && Shape(vm') && Frames(vm, fo) && NoUser(vm, d) && vm'.frame == vm.frame
    requires vm'.dir.Keys == vm.dir.Keys
    requires forall e, w :: IsPage(vm, e, w) ==>
      Walk(vm', e, w) == if e == d && w / NPTE == i then None else Walk(vm, e, w)
    ensures Frames(vm', fo) && NoUser(vm', d)
  {
    hide Walk, Shape;
  }

  function WithoutDir(vm: VM, d: int): VM {
    vm.(dir := map k | k in vm.dir && k != d :: vm.dir[k])
  }

  lemma WithoutDirOk(vm: VM, to: map<int, (int, int)>, fo: map<int, (int, int)>, lost: set<int>, d: int)
    requires Inv(vm, to, fo, lost) && d in vm.dir && NoUser(vm, d) && forall i :: 0 <= i < NPTE ==> vm.dir[d][i].None?
    ensures var vm' := WithoutDir(vm, d);
      Inv(vm', to, fo, lost) && vm'.dir.Keys == vm.dir.Keys - {d} && Used(vm', lost) == Used(vm, lost) - {d}
    ensures forall e, w :: IsPage(vm, e, w) && e != d ==> Walk(WithoutDir(vm, d), e, w) == Walk(vm, e, w)
  {
    var vm' := WithoutDir(vm, d);
    assert Shape(vm');
    assert forall i :: 0 <= i < NPTE ==> Pde(vm, d, i).None?;
    assert forall e, k :: IsPde(vm', e, k) ==> Pde(vm', e, k) == Pde(vm, e, k);
    assert forall e, w :: IsPage(vm', e, w) ==> Walk(vm', e, w) == Walk(vm, e, w);
    hide Walk, Pde, Shape;
  }

  // ---------------------------------------------------------------- the pages deallocuvm() visits

  ghost predicate TableAt(vm: VM, d: int, v: int)
    requires Shape(vm)
  {
    IsPage(vm, d, v) && HasTable(vm, d, v)
  }

  /** The loop of deallocuvm() from page a on: one page on after a table, 1024 pages on without one. */
  ghost function Visits(vm: VM, d: int, a: int, hi: int): set<int>
    requires Shape(vm)
    decreases hi - a
  {
    if a >= hi then {} else if TableAt(vm, d, a) then {a} + Visits(vm, d, a + 1, hi) else Visits(vm, d, a + NPTE, hi)
  }

  lemma {:induction false} VisitsRange(vm: VM, d: int, a: int, hi: int, v: int)
    requires Shape(vm) && v in Visits(vm, d, a, hi)
    ensures a <= v < hi && TableAt(vm, d, v)
    decreases hi - a
  {
    if TableAt(vm, d, a) {
      if v != a { VisitsRange(vm, d, a + 1, hi, v); }
    } else {
      VisitsRange(vm, d, a + NPTE, hi, v);
    }
  }

  /** From the first page of a table on, nothing with a table is passed over. */
  lemma {:induction false} AlignedVisits(vm: VM, d: int, a: int, hi: int, v: int)
    requires Shape(vm) && 0 <= a <= v < hi && hi <= NPTE * NPTE && TableAt(vm, d, v)
    requires a % NPTE == 0 || TableAt(vm, d, a)
    ensures v in Visits(vm, d, a, hi)
    decreases hi - a
  {
    if TableAt(vm, d, a) {
      if v != a {
        SameTable(vm, d, a);
        AlignedVisits(vm, d, a + 1, hi, v);
      }
    } else {
      NotHere(vm, d, a, v);
      AlignedVisits(vm, d, a + NPTE, hi, v);
    }
  }

  lemma SameTable(vm: VM, d: int, a: int)
    requires Shape(vm) && TableAt(vm, d, a) && a + 1 < NPTE * NPTE
    ensures (a + 1) % NPTE == 0 || TableAt(vm, d, a + 1)
  {
    if (a + 1) % NPTE != 0 { assert (a + 1) / NPTE == a / NPTE; }
  }

  /** The start of the first region of 1024 pages, from that of a on, that has a table; hi if none starts below hi. */
  ghost function FirstTable(vm: VM, d: int, a: int, hi: int): int
    requires Shape(vm)
    decreases hi - a / NPTE * NPTE
  {
    var start := a / NPTE * NPTE;
    if start >= hi then hi else if TableAt(vm, d, a) then start else FirstTable(vm, d, a + NPTE, hi)
  }

  /** A present page that the stride of deallocuvm() jumps over. */
  ghost predicate Missed(vm: VM, d: int, lo: int, hi: int, v: int)
    requires Shape(vm)
  {
    && lo <= v < hi && IsPage(vm, d, v) && Walk(vm, d, v).Entry?
    && !TableAt(vm, d, lo) && FirstTable(vm, d, lo, hi) <= v < FirstTable(vm, d, lo, hi) + lo % NPTE
  }

  lemma RegionTable(vm: VM, d: int, a: int, v: int)
    requires Shape(vm) && 0 <= a < NPTE * NPTE && 0 <= v < NPTE * NPTE && a / NPTE == v / NPTE
    ensures TableAt(vm, d, a) <==> TableAt(vm, d, v)
  {
  }

  lemma PresentHasTable(vm: VM, d: int, v: int)
    requires Shape(vm) && IsPage(vm, d, v) && Walk(vm, d, v).Entry?
    ensures TableAt(vm, d, v)
  {
  }

  /** deallocuvm() passes over a present page of its range exactly when its stride jumps over it. */
  lemma {:induction false} MissedIff(vm: VM, d: int, lo: int, hi: int, v: int)
    requires Shape(vm) && 0 <= lo <= v < hi <= UPAGES && IsPage(vm, d, v) && Walk(vm, d, v).Entry?
    ensures v !in Visits(vm, d, lo, hi) <==> Missed(vm, d, lo, hi, v)
    decreases hi - lo
  {
    PresentHasTable(vm, d, v);
    hide Walk;
    if TableAt(vm, d, lo) {
      AlignedVisits(vm, d, lo, hi, v);
    } else {
      var a := lo + NPTE;
      NotHere(vm, d, lo, v);
      if TableAt(vm, d, a) {
        StrideLands(vm, d, lo, hi, v);
      } else {
        NotHere(vm, d, a, v);
        MissedIff(vm, d, a, hi, v);
      }
    }
  }

  /** v is not in the region of a, which has no table. */
  lemma NotHere(vm: VM, d: int, a: int, v: int)
    requires Shape(vm) && 0 <= a < NPTE * NPTE && a / NPTE * NPTE <= v < NPTE * NPTE && !TableAt(vm, d, a)
    requires TableAt(vm, d, v)
    ensures a / NPTE * NPTE + NPTE <= v
  {
    if v / NPTE == a / NPTE {
      RegionTable(vm, d, a, v);
    }
  }

  lemma StrideLands(vm: VM, d: int, lo: int, hi: int, v: int)
    requires Shape(vm) && 0 <= lo <= v < hi <= UPAGES && IsPage(vm, d, v) && Walk(vm, d, v).Entry?
    requires !TableAt(vm, d, lo) && TableAt(vm, d, lo + NPTE) && lo / NPTE * NPTE + NPTE <= v
    ensures v !in Visits(vm, d, lo, hi) <==> Missed(vm, d, lo, hi, v)
  {
    PresentHasTable(vm, d, v);
    hide Walk;
    var a := lo + NPTE;
    assert FirstTable(vm, d, lo, hi) == a / NPTE * NPTE == a - lo % NPTE;
    assert Visits(vm, d, lo, hi) == Visits(vm, d, a, hi);
    if a <= v {
      AlignedVisits(vm, d, a, hi, v);
    } else if v in Visits(vm, d, a, hi) {
      VisitsRange(vm, d, a, hi, v);
    }
  }

  /** From a page 0 modulo 1024, and over an image without holes, nothing is jumped over. */
  lemma NothingMissed(vm: VM, d: int, lo: int, hi: int, v: int)
    requires Shape(vm) && 0 <= lo && IsPage(vm, d, v)
    requires lo % NPTE == 0 || (lo <= v ==> (Walk(vm, d, v).Entry? ==> IsPage(vm, d, lo) && Walk(vm, d, lo).Entry?))
    ensures !Missed(vm, d, lo, hi, v)
  {
    if lo <= v && Walk(vm, d, v).Entry? && lo % NPTE != 0 {
      PresentHasTable(vm, d, lo);
    }
    hide Walk, FirstTable;
  }

  // ---------------------------------------------------------------- the free list

  ghost predicate IsFreeList(head: int, next: map<int, int>, free: seq<int>) {
    && (forall i :: 0 <= i < |free| ==> Link(next, free, i))
    && (forall i, j :: 0 <= i < j < |free| ==> free[i] != free[j])
    && head == if free == [] then -1 else free[0]
  }

  predicate Link(next: map<int, int>, free: seq<int>, i: int)
    requires 0 <= i < |free|
  {
    free[i] >= 0 && free[i] in next && next[free[i]] == if i + 1 < |free| then free[i + 1] else -1
  }

  lemma FreePush(head: int, next: map<int, int>, free: seq<int>, p: int)
    requires IsFreeList(head, next, free) && p >= 0 && p !in free
    ensures IsFreeList(p, next[p := head], [p] + free)
  {
    var more, next' := [p] + free, next[p := head];
    forall i | 0 <= i < |more| ensures Link(next', more, i) {
      if i > 0 { assert Link(next, free, i - 1); }
    }
  }

  lemma FreeNone()
    ensures IsFreeList(-1, map[], [])
  {
  }

  lemma FreePop(head: int, next: map<int, int>, free: seq<int>)
    requires IsFreeList(head, next, free) && free != []
    ensures head == free[0] && head in next && IsFreeList(next[head], next, free[1..]) && head !in free[1..]
  {
    var rest := free[1..];
    assert Link(next, free, 0);
    forall i | 0 <= i < |rest| ensures Link(next, rest, i) {
      assert Link(next, free, i + 1);
    }
  }

  lemma HeadIs(head: int, next: map<int, int>, free: seq<int>)
    requires IsFreeList(head, next, free)
    ensures head == -1 <==> free == []
  {
    if free != [] { assert Link(next, free, 0); }
  }

  ghost function Set(free: seq<int>): set<int> {
    set p | p in free
  }

  lemma SetPush(free: seq<int>, p: int)
    ensures Set([p] + free) == Set(free) + {p}
  {
  }

  lemma SetPop(free: seq<int>)
    requires free != [] && free[0] !in free[1..]
    ensures Set(free[1..]) == Set(free) - {free[0]} && free[0] in Set(free)
  {
    assert free == [free[0]] + free[1..];
  }

  function RoundUp(a: int): (p: int)
    requires 0 <= a
    ensures a <= p * PGSIZE < a + PGSIZE
  {
    (a + PGSIZE - 1) / PGSIZE
  }

  /** The pages in use and the free pages are different pages of the allocator. */
  ghost predicate Accounts(used: set<int>, free: set<int>, first: int, last: int) {
    used !! free && 0 < first && forall p :: p in used + free ==> first <= p < last
  }

  lemma TakePage(vm: VM, to: map<int, (int, int)>, fo: map<int, (int, int)>, lost: set<int>, p: int)
    requires Inv(vm, to, fo, lost) && p !in Used(vm, lost)
    ensures Inv(vm, to, fo, lost + {p}) && Used(vm, lost + {p}) == Used(vm, lost) + {p} && p !in lost
  {
    hide Shape, Tables, Frames;
  }

  lemma MovePage(used: set<int>, free: set<int>, first: int, last: int, p: int)
    requires Accounts(used, free, first, last)
    ensures p in free ==> Accounts(used + {p}, free - {p}, first, last) && used + {p} + (free - {p}) == used + free
    ensures p in free ==> p !in used
    ensures p in used ==> Accounts(used - {p}, free + {p}, first, last) && used - {p} + (free + {p}) == used + free
    ensures p in used ==> p !in free && first <= p < last
  {
    if p in free { assert used + {p} + (free - {p}) == used + free; }
    if p in used { assert used - {p} + (free + {p}) == used + free; }
  }

  lemma AllFree(pages: seq<int>, lo: int, hi: int)
    requires 0 < lo && forall q :: q in pages <==> lo <= q < hi
    ensures Accounts({}, Set(pages), lo, hi) && forall q :: q in {} + Set(pages) <==> lo <= q < hi
  {
  }

  lemma NoSpaces()
    ensures Inv(VM(map[], map[], map[]), map[], map[], {}) && Used(VM(map[], map[], map[]), {}) == {}
  {
  }

  // ---- unmapping a set of pages

  /** vm is vm0 with the pages of S unmapped from d and their data pages given up. */
  ghost predicate Unmapped(vm0: VM, fo0: map<int, (int, int)>, vm: VM, fo: map<int, (int, int)>, d: int, S: set<int>)
    requires Shape(vm0) && Shape(vm)
  {
    && vm.dir == vm0.dir && vm.table.Keys == vm0.table.Keys
    && (forall e, w :: IsPage(vm0, e, w) ==> Walk(vm, e, w) == if e == d && w in S then None else Walk(vm0, e, w))
    && fo.Keys == vm.frame.Keys && fo0.Keys == vm0.frame.Keys
    && (forall f :: f in vm.frame <==> f in vm0.frame && !(fo0[f].0 == d && fo0[f].1 in S))
    && (forall f :: f in vm.frame ==> f in vm0.frame && vm.frame[f] == vm0.frame[f] && fo[f] == fo0[f])
  }

  /** After deallocuvm() the whole range is unmapped exactly when its stride jumped over no present page. */
  lemma DeallocExactIff(vm0: VM, fo0: map<int, (int, int)>, vm: VM, fo: map<int, (int, int)>, d: int, lo: int, hi: int)
    requires Shape(vm0) && Shape(vm) && d in vm0.dir && 0 <= lo <= hi <= UPAGES
    requires Unmapped(vm0, fo0, vm, fo, d, Visits(vm0, d, lo, hi))
    ensures (forall v :: IsPage(vm, d, v) && lo <= v < hi ==> Walk(vm, d, v).None?) <==>
      (forall v :: !Missed(vm0, d, lo, hi, v))
    ensures forall e, v :: IsPage(vm, e, v) && !(e == d && lo <= v < hi) ==> Walk(vm, e, v) == Walk(vm0, e, v)
  {
    hide Walk, Missed, Shape, Visits;
    forall v | IsPage(vm, d, v) && lo <= v < hi ensures Walk(vm, d, v).None? <==> !Missed(vm0, d, lo, hi, v) {
      if Walk(vm0, d, v).Entry? {
        MissedIff(vm0, d, lo, hi, v);
      } else {
        MissedPresent(vm0, d, lo, hi, v);
      }
    }
    forall v | Missed(vm0, d, lo, hi, v) ensures IsPage(vm, d, v) && lo <= v < hi {
      MissedPresent(vm0, d, lo, hi, v);
    }
    forall e, v | IsPage(vm, e, v) && !(e == d && lo <= v < hi) ensures Walk(vm, e, v) == Walk(vm0, e, v) {
      if e == d && v in Visits(vm0, d, lo, hi) { VisitsRange(vm0, d, lo, hi, v); }
    }
  }

  lemma MissedPresent(vm: VM, d: int, lo: int, hi: int, v: int)
    requires Shape(vm)
    ensures Missed(vm, d, lo, hi, v) ==> IsPage(vm, d, v) && lo <= v < hi && Walk(vm, d, v).Entry?
  {
  }

  /** For an image without holes the range is always unmapped whole. */
  lemma ContiguousDealloc(vm: VM, d: int, n: int, lo: int, hi: int)
    requires Shape(vm) && d in vm.dir && 0 <= n <= UPAGES && 0 <= lo <= hi <= UPAGES
    requires forall v :: IsUser(vm, d, v) ==> (Walk(vm, d, v).Entry? <==> v < n)
    ensures forall v :: !Missed(vm, d, lo, hi, v)
  {
    hide Missed, Shape, Walk;
    forall v ensures !Missed(vm, d, lo, hi, v) {
      MissedPresent(vm, d, lo, hi, v);
      if IsUser(vm, d, v) && lo <= v {
        assert IsUser(vm, d, lo);
        NothingMissed(vm, d, lo, hi, v);
      }
    }
  }

  lemma UnmappedNone(vm: VM, fo: map<int, (int, int)>, d: int)
    requires Shape(vm) && fo.Keys == vm.frame.Keys
    ensures Unmapped(vm, fo, vm, fo, d, {})
  {
  }

  lemma UnmappedTable(vm0: VM, fo0: map<int, (int, int)>, vm: VM, fo: map<int, (int, int)>, d: int, S: set<int>, v: int)
    requires Shape(vm0) && Shape(vm) && Unmapped(vm0, fo0, vm, fo, d, S)
    ensures TableAt(vm, d, v) <==> TableAt(vm0, d, v)
  {
    hide Walk, Shape;
  }

  /** The next page had nothing to unmap ... */
  lemma UnmappedSkip(vm0: VM, fo0: map<int, (int, int)>, vm: VM, fo: map<int, (int, int)>, d: int, S: set<int>, a: int)
    requires Shape(vm0) && Shape(vm) && Unmapped(vm0, fo0, vm, fo, d, S) && Frames(vm0, fo0) && IsUser(vm0, d, a)
    requires Walk(vm, d, a).None? && a !in S
    ensures Unmapped(vm0, fo0, vm, fo, d, S + {a})
  {
    hide Walk, Shape;
    assert IsPage(vm0, d, a);
  }

  /** ... or its data page is given up. */
  lemma UnmappedStep(vm0: VM, fo0: map<int, (int, int)>, vm: VM, fo: map<int, (int, int)>, vm': VM, d: int,
                     S: set<int>, a: int, f: int)
    requires Shape(vm0) && Shape(vm) && Shape(vm') && Unmapped(vm0, fo0, vm, fo, d, S) && Frames(vm0, fo0)
    requires IsUser(vm0, d, a)
    requires a !in S && Walk(vm0, d, a).Entry? && f == Walk(vm0, d, a).page
    requires vm'.dir == vm.dir && vm'.table.Keys == vm.table.Keys
    requires vm'.frame == (map k | k in vm.frame && k != f :: vm.frame[k])
    requires forall e, w :: IsPage(vm, e, w) ==> Walk(vm', e, w) == if (e, w) == (d, a) then None else Walk(vm, e, w)
    ensures Unmapped(vm0, fo0, vm', Minus(fo, f), d, S + {a})
  {
    hide Walk, Shape;
    assert f in fo0 && fo0[f] == (d, a);
    assert vm'.frame.Keys == vm.frame.Keys - {f};
    forall k | k in vm0.frame ensures k == f <==> fo0[k] == (d, a) {
    }
  }

  /** A space with a hole before its second table: from page 1 the stride jumps over page 1024. */
  lemma SparseSpaceMissed()
    ensures var vm := VM(map[7 := NoEntries()[1 := Entry(8, 7)]], map[8 := NoEntries()[0 := Entry(9, 7)]],
      map[9 := []]);
      Shape(vm) && Missed(vm, 7, 1, 2048, 1024)
  {
    var vm := VM(map[7 := NoEntries()[1 := Entry(8, 7)]], map[8 := NoEntries()[0 := Entry(9, 7)]], map[9 := []]);
    assert Shape(vm);
    assert !TableAt(vm, 7, 1) && TableAt(vm, 7, 1025);
    assert Walk(vm, 7, 1024) == Entry(9, 7);
    hide NoEntries;
  }

  // ---- giving up the tables of a directory

  /** w is vm0 without the tables in the first k slots of d. */
  ghost predicate Dropped(vm0: VM, to0: map<int, (int, int)>, w: VM, to: map<int, (int, int)>, d: int, k: int)
    requires Shape(vm0) && Shape(w) && d in vm0.dir
  {
    && w.frame == vm0.frame && w.dir.Keys == vm0.dir.Keys
    && (forall e :: e in vm0.dir && e != d ==> w.dir[e] == vm0.dir[e])
    && (forall i :: 0 <= i < NPTE ==> w.dir[d][i] == if i < k then None else vm0.dir[d][i])
    && (forall t :: t in to <==> t in to0 && !(to0[t].0 == d && to0[t].1 < k))
    && (forall t :: t in to ==> t in to0 && to[t] == to0[t])
    && (forall t :: t in w.table && t in to ==> t in vm0.table && w.table[t] == vm0.table[t])
  }

  lemma DroppedStart(vm: VM, to: map<int, (int, int)>, d: int)
    requires Shape(vm) && Tables(vm, to) && d in vm.dir
    ensures Dropped(vm, to, vm, to, d, 0)
  {
    forall t | t in to ensures to[t].1 >= 0 {
      assert IsPde(vm, to[t].0, to[t].1);
    }
  }

  lemma DroppedSkip(vm0: VM, to0: map<int, (int, int)>, w: VM, to: map<int, (int, int)>, d: int, k: int)
    requires Shape(vm0) && Shape(w) && d in vm0.dir && Tables(vm0, to0) && Dropped(vm0, to0, w, to, d, k)
    requires 0 <= k < NPTE && vm0.dir[d][k].None?
    ensures Dropped(vm0, to0, w, to, d, k + 1)
  {
    forall t | t in to0 ensures to0[t] != (d, k) {
      assert Pde(vm0, to0[t].0, to0[t].1).Entry?;
    }
    hide Tables;
  }

  lemma DroppedStep(vm0: VM, to0: map<int, (int, int)>, w: VM, to: map<int, (int, int)>, d: int, k: int)
    requires Shape(vm0) && Shape(w) && d in vm0.dir && Tables(vm0, to0) && Dropped(vm0, to0, w, to, d, k)
    requires 0 <= k < NPTE && vm0.dir[d][k].Entry?
    ensures IsPde(w, d, k) && Pde(w, d, k) == vm0.dir[d][k] && Shape(WithoutTable(w, d, k))
    ensures Dropped(vm0, to0, WithoutTable(w, d, k), Minus(to, vm0.dir[d][k].page), d, k + 1)
  {
    var t := vm0.dir[d][k].page;
    assert IsPde(vm0, d, k) && Pde(vm0, d, k).page == t;
    forall u | u in to0 ensures u == t <==> to0[u] == (d, k) {
      assert Pde(vm0, to0[u].0, to0[u].1).page == u;
    }
    hide Tables;
  }

  class Kernel {
    var vm: VM
    var freelist: int
    var next: map<int, int>          // the link stored in each free page
    const first: int                 // the allocator's pages are first to last
    const last: int
    ghost var free: seq<int>
    ghost var to: map<int, (int, int)>
    ghost var fo: map<int, (int, int)>
    ghost var lost: set<int>         // taken from the free list and not (yet) in use

    /** Every page of the allocator is free, in use once, or lost. */
    ghost predicate Valid()
      reads this
    {
      Inv(vm, to, fo, lost) && IsFreeList(freelist, next, free) && Accounts(Used(vm, lost), Set(free), first, last)
    }

    ghost function Pages(): set<int>
      reads this
    {
      Used(vm, lost) + Set(free)
    }

    /** kinit1() and kinit2(): freerange() over all pages. */
    constructor (lo: int, hi: int)
      requires 0 < lo <= hi
      ensures Valid() && first == lo && last == hi && vm == VM(map[], map[], map[]) && lost == {}
      ensures (forall p :: p in Pages() <==> lo <= p < hi) && |free| == hi - lo
    {
      first, last := lo, hi;
      vm, to, fo, lost := VM(map[], map[], map[]), map[], map[], {};
      var head, links;
      ghost var pages;
      head, links, pages := FreeRange(lo, hi);
      freelist, next, free := head, links, pages;
      AllFree(pages, lo, hi);
      hide IsFreeList, Inv, Used, Set, Accounts;
      NoSpaces();
    }

    /** freerange(). */
    static method FreeRange(lo: int, hi: int) returns (head: int, links: map<int, int>, ghost pages: seq<int>)
      requires 0 < lo <= hi
      ensures IsFreeList(head, links, pages) && |pages| == hi - lo && forall q :: q in pages <==> lo <= q < hi
    {
      hide IsFreeList;
      var p := lo;
      head, links, pages := -1, map[], [];
      FreeNone();
      while p < hi
        invariant lo <= p <= hi && IsFreeList(head, links, pages) && |pages| == p - lo
        invariant forall q :: q in pages <==> lo <= q < p
      {
        FreePush(head, links, pages, p);
        links := links[p := head];
        head := p;
        pages := [p] + pages;
        p := p + 1;
      }
    }

    /** kalloc(): the first free page, or -1. */
    method Kalloc() returns (p: int)
      requires Valid()
      modifies this`freelist, this`free, this`lost
      ensures Valid() && (p == -1 <==> old(free) == []) && Pages() == old(Pages())
      ensures p == -1 ==> free == old(free) && lost == old(lost)
      ensures p != -1 ==> p == old(free)[0] && free == old(free)[1..] && lost == old(lost) + {p} && p !in old(lost)
    {
      hide Inv, IsFreeList, Used, Set, Accounts;
      HeadIs(freelist, next, free);
      p := freelist;
      if p != -1 {
        FreePop(freelist, next, free);
        SetPop(free);
        MovePage(Used(vm, lost), Set(free), first, last, p);
        TakePage(vm, to, fo, lost, p);
        freelist := next[p];
        lost := lost + {p};
        free := free[1..];
      }
    }

    /** kfree(), on the list alone. */
    method Kfree(p: int) returns (panic: bool)
      requires IsFreeList(freelist, next, free) && p !in free && 0 <= first
      modifies this`freelist, this`next, this`free
      ensures panic <==> !(first <= p < last)
      ensures !panic ==> IsFreeList(freelist, next, free) && free == [p] + old(free)
    {
      if !(first <= p < last) {
        return true;
      }
      FreePush(freelist, next, free, p);
      next := next[p := freelist];
      freelist := p;
      free := [p] + free;
      panic := false;
    }

    /** walkpgdir() without allocation: whether the table of page v exists. */
    method FindTable(d: int, v: int) returns (found: bool)
      requires Valid() && IsPage(vm, d, v)
      ensures found <==> TableAt(vm, d, v)
    {
      hide Tables, Frames, IsFreeList, Accounts;
      PdeTable(vm, to, d, v);
      found := vm.dir[d][v / NPTE].Entry?;
    }

    /** The body of the loop of deallocuvm() for a page with a table. */
    method UnmapPage(d: int, a: int) returns (panic: bool)
      requires Valid() && IsUser(vm, d, a) && TableAt(vm, d, a)
      modifies this`vm, this`fo, this`free, this`freelist, this`next
      ensures !panic && Valid() && Pages() == old(Pages())
      ensures old(Walk(vm, d, a)).None? ==> vm == old(vm) && fo == old(fo) && free == old(free)
      ensures old(Walk(vm, d, a)).Entry? ==>
        vm == WithoutPage(old(vm), d, a) && fo == Minus(old(fo), old(Walk(vm, d, a)).page)
          && free == [old(Walk(vm, d, a)).page] + old(free)
    {
      hide Tables, Frames, IsFreeList, Accounts, Used, Set, Apart, Shape;
      var x := Walk(vm, d, a);
      if x.Entry? {
        WithoutPageOk(vm, to, fo, lost, d, a);
        InUse(vm, lost, x.page);
        MovePage(Used(vm, lost), Set(free), first, last, x.page);
        SetPush(free, x.page);
        SetHas(free, x.page);
        if x.page == 0 {
          return true;
        }
        panic := Kfree(x.page);
        if panic {
          return;
        }
        vm := WithoutPage(vm, d, a);
        fo := Minus(fo, x.page);
      }
      panic := false;
    }

    /** deallocuvm(). */
    method DeallocUvm(d: int, oldsz: int, newsz: int) returns (r: int, panic: bool)
      requires Valid() && d in vm.dir && 0 <= newsz && 0 <= oldsz <= UPAGES * PGSIZE
      modifies this`vm, this`fo, this`free, this`freelist, this`next
      ensures !panic && Valid() && old(Shape(vm)) && Pages() == old(Pages())
      ensures r == if newsz >= oldsz then oldsz else newsz
      ensures newsz >= oldsz ==> vm == old(vm) && free == old(free)
      ensures newsz < oldsz ==>
        Unmapped(old(vm), old(fo), vm, fo, d, Visits(old(vm), d, RoundUp(newsz), RoundUp(oldsz)))
    {
      hide Tables, Frames, IsFreeList, Accounts, Used, Set, Apart, Shape, Unmapped, Walk;
      if newsz >= oldsz {
        return oldsz, false;
      }
      ghost var vm0, fo0 := vm, fo;
      ghost var lo, hi := RoundUp(newsz), RoundUp(oldsz);
      ghost var S: set<int> := {};
      FramesKeys(vm, fo);
      UnmappedNone(vm, fo, d);
      var a := RoundUp(newsz);
      while a * PGSIZE < oldsz
        invariant lo <= a && Valid() && Pages() == old(Pages()) && lost == old(lost) && vm.dir == vm0.dir
        invariant Unmapped(vm0, fo0, vm, fo, d, S) && S + Visits(vm0, d, a, hi) == Visits(vm0, d, lo, hi)
        invariant forall v :: v in S ==> v < a
        decreases hi - a
      {
        UnmappedTable(vm0, fo0, vm, fo, d, S, a);
        var found := FindTable(d, a);
        if !found {
          a := a + (NPTE - 1);
        } else {
          ghost var vm1, fo1 := vm, fo;
          panic := UnmapPage(d, a);
          AfterUnmap(vm0, fo0, vm1, to, fo1, lost, vm, fo, d, S, a);
          S := S + {a};
        }
        a := a + 1;
      }
      r, panic := newsz, false;
    }

    /** The loop of freevm() over the directory: each table goes to the free list. */
    method FreeTables(d: int, ghost w0: VM) returns (panic: bool, ghost w: VM)
      requires Valid() && d in vm.dir && NoUser(vm, d) && w0 == vm
      modifies this`vm, this`to, this`free, this`freelist, this`next
      ensures !panic && Shape(w0) && Inv(w, to, fo, lost) && NoUser(w, d) && Dropped(w0, old(to), w, to, d, NPTE)
      ensures vm == VM(w0.dir, w.table, w.frame) && IsFreeList(freelist, next, free)
      ensures Accounts(Used(w, lost), Set(free), first, last) && Used(w, lost) + Set(free) == old(Pages())
    {
      hide Tables, Frames, IsFreeList, Accounts, Used, Set, Apart, Shape, Dropped, Walk, NoUser, WithoutTable;
      w := vm;
      DroppedStart(vm, to, d);
      ghost var to0 := to;
      var i := 0;
      while i < NPTE
        invariant 0 <= i <= NPTE && Shape(w0) && d in w0.dir && Inv(w, to, fo, lost) && NoUser(w, d)
        invariant Dropped(w0, to0, w, to, d, i)
        invariant vm == VM(w0.dir, w.table, w.frame) && IsFreeList(freelist, next, free)
        invariant Accounts(Used(w, lost), Set(free), first, last) && Used(w, lost) + Set(free) == old(Pages())
      {
        DirSize(w0, d);
        if vm.dir[d][i].Entry? {
          var t := vm.dir[d][i].page;
          DroppedStep(w0, to0, w, to, d, i);
          WithoutTableOk(w, to, fo, lost, d, i);
          InUse(w, lost, t);
          MovePage(Used(w, lost), Set(free), first, last, t);
          SetPush(free, t);
          SetHas(free, t);
          panic := Kfree(t);
          if panic {
            return;
          }
          WithoutTableIs(w, d, i);
          vm := vm.(table := map k | k in vm.table && k != t :: vm.table[k]);
          w := WithoutTable(w, d, i);
          to := Minus(to, t);
        } else {
          DroppedSkip(w0, to0, w, to, d, i);
        }
        i := i + 1;
      }
      panic := false;
    }

    /** freevm(): every page of the space goes to the free list, once, and no other page. */
    method FreeVm(d: int) returns (panic: bool)
      requires Valid()
      modifies this`vm, this`to, this`fo, this`free, this`freelist, this`next
      ensures panic <==> d !in old(vm.dir)
      ensures panic ==> vm == old(vm) && free == old(free)
      ensures !panic ==> Valid() && Pages() == old(Pages()) && vm.dir.Keys == old(vm.dir).Keys - {d}
      ensures !panic ==> old(Shape(vm)) && forall e, v :: IsPage(vm, e, v) ==> Walk(vm, e, v) == old(Walk(vm, e, v))
      ensures !panic ==> forall t :: t in vm.table <==> t in old(vm.table) && t in old(to) && old(to)[t].0 != d
      ensures !panic ==> forall f :: f in vm.frame <==> f in old(vm.frame) && f in old(fo) && old(fo)[f].0 != d
      ensures !panic ==> forall f :: f in vm.frame ==> vm.frame[f] == old(vm.frame)[f]
    {
      hide Tables, Frames, IsFreeList, Accounts, Used, Set, Apart, Shape, Dropped, Walk, NoUser, Unmapped, Missed,
        Visits;
      if d !in vm.dir {
        return true;
      }
      ghost var vm0, to0, fo0 := vm, to, fo;
      var _, bad := DeallocUvm(d, UPAGES * PGSIZE, 0);
      ghost var vm1 := vm;
      WholeUser(vm0, fo0, vm1, fo, d);
      ghost var w;
      panic, w := FreeTables(d, vm);
      DroppedAll(vm1, to0, w, to, d);
      WithoutDirOk(w, to, fo, lost, d);
      InUse(w, lost, d);
      MovePage(Used(w, lost), Set(free), first, last, d);
      SetPush(free, d);
      SetHas(free, d);
      panic := Kfree(d);
      if panic {
        return;
      }
      SameWithoutDir(vm, w, vm1, d);
      vm := WithoutDir(vm, d);
      FreedSpace(vm0, vm1, to0, w, to, vm, d);
      TablesKeys(vm0, to0);
      TablesKeys(vm, to);
    }

    /** walkpgdir() with allocation. */
    method WalkAlloc(d: int, v: int) returns (ok: bool)
      requires Valid() && IsPage(vm, d, v)
      modifies this`vm, this`to, this`lost, this`free, this`freelist
      ensures Valid() && Pages() == old(Pages()) && lost == old(lost) && vm.frame == old(vm.frame)
      ensures vm.dir.Keys == old(vm.dir).Keys
      ensures ok ==> TableAt(vm, d, v)
      ensures !ok ==> vm == old(vm) && free == old(free) == [] && !TableAt(vm, d, v) && Spare(free, vm, d) < 0
      ensures !ok ==> Bare(vm.dir[d], v)
      ensures MoreTables(old(to), to, d)
      ensures ok ==> |free| == |old(free)| - TableCost(old(vm).dir[d], v) && Tabled(old(vm).dir[d], vm.dir[d], v)
      ensures Spare(free, vm, d) == old(Spare(free, vm, d))
      ensures old(Shape(vm)) && forall e, w :: IsPage(vm, e, w) ==> Walk(vm, e, w) == old(Walk(vm, e, w))
      ensures forall e, k :: IsPde(vm, e, k) && (e, k) != (d, v / NPTE) ==> Pde(vm, e, k) == old(Pde(vm, e, k))
      ensures ok ==> Pde(vm, d, v / NPTE).Entry? && Pde(vm, d, v / NPTE).flags == PTE_P + PTE_W + PTE_U
      ensures old(Pde(vm, d, v / NPTE)).Entry? ==> vm == old(vm) && free == old(free)
    {
      hide Tables, Frames, IsFreeList, Accounts, Used, Set, Apart, Walk;
      PdeTable(vm, to, d, v);
      if vm.dir[d][v / NPTE].None? {
        SlotHere(vm, d, v / NPTE);
        var t := Kalloc();
        if t == -1 {
          return false;
        }
        SpareTable(old(free), vm, d, v / NPTE, t, PTE_P + PTE_W + PTE_U);
        TabledNow(vm.dir[d], v, Entry(t, PTE_P + PTE_W + PTE_U));
        NotATable(vm, to, fo, lost, t);
        WithTableInv(vm, to, fo, lost, d, v / NPTE, t, PTE_P + PTE_W + PTE_U);
        vm := WithTable(vm, d, v / NPTE, t, PTE_P + PTE_W + PTE_U);
        to := to[t := (d, v / NPTE)];
        lost := lost - {t};
      } else {
        TabledAlready(vm.dir[d], v);
        SlotFlags(vm, to, d, v / NPTE);
      }
      ok := true;
    }

    /** mappages() of one user page: data page f, holding bytes, at v. */
    method MapUser(d: int, v: int, f: int, flags: int, bytes: Bytes) returns (out: Mapping)
      requires Valid() && IsUser(vm, d, v) && f in lost
      modifies this`vm, this`to, this`fo, this`lost, this`free, this`freelist
      ensures Valid() && Pages() == old(Pages()) && vm.dir.Keys == old(vm.dir).Keys && old(Shape(vm))
      ensures out == NoMemory ==> free == [] && old(Walk(vm, d, v)).None? && Spare(free, vm, d) < 0
      ensures out == NoMemory ==> old(free) == [] && Bare(old(vm).dir[d], v)
      ensures out == Mapped ==> |free| == |old(free)| - TableCost(old(vm).dir[d], v)
      ensures out == Mapped ==> Tabled(old(vm).dir[d], vm.dir[d], v)
      ensures Spare(free, vm, d) == old(Spare(free, vm, d))
      ensures out == Remap <==> old(Walk(vm, d, v)).Entry?
      ensures MoreTables(old(to), to, d)
      ensures out != Mapped ==> lost == old(lost) && vm.frame == old(vm.frame)
      ensures out != Mapped ==> forall e, w :: IsPage(vm, e, w) ==> Walk(vm, e, w) == old(Walk(vm, e, w))
      ensures out == Mapped ==> lost == old(lost) - {f} && vm.frame == old(vm.frame)[f := bytes] && f !in old(vm.frame)
      ensures out == Mapped ==>
        forall e, w :: IsPage(vm, e, w) ==>
          Walk(vm, e, w) == if (e, w) == (d, v) then Entry(f, flags) else old(Walk(vm, e, w))
    {
      hide Tables, Frames, IsFreeList, Accounts, Used, Set, Walk, Shape;
      ghost var vm0 := vm;
      assert IsPage(vm, d, v);
      NotMapped(vm, to, d, v);
      var ok := WalkAlloc(d, v);
      if !ok {
        return NoMemory;
      }
      if Walk(vm, d, v).Entry? {
        return Remap;
      }
      WithPageOk(vm, to, fo, lost, d, v, f, flags, bytes);
      WithEntrySame(vm, d, v, Entry(f, flags));
      vm := WithPage(vm, d, v, f, flags, bytes);
      fo := fo[f := (d, v)];
      lost := lost - {f};
      out := Mapped;
    }

    /** mappages() of a kernel range, whose pages are not the allocator's. */
    method MapKernel(d: int, r: Range) returns (out: Mapping)
      requires Valid() && d in vm.dir && UPAGES <= r.v && 0 < r.n && r.v + r.n <= NPTE * NPTE
      modifies this`vm, this`to, this`lost, this`free, this`freelist
      ensures Valid() && Pages() == old(Pages()) && vm.dir.Keys == old(vm.dir).Keys && vm.frame == old(vm.frame)
      ensures lost == old(lost)
      ensures out == NoMemory ==> free == [] && Filled(vm.dir[d]) < Filled(old(vm).dir[d]) + Span(r.v, r.n)
      ensures out == Mapped ==> Filled(vm.dir[d]) == Filled(old(vm).dir[d]) + Span(r.v, r.n)
      ensures Spare(free, vm, d) == old(Spare(free, vm, d)) && MoreTables(old(to), to, d)
      ensures out == Remap ==> exists k :: r.v <= k < r.v + r.n && old(Walk(vm, d, k)).Entry?
      ensures old(Shape(vm))
      ensures forall e, w :: IsPage(vm, e, w) && !(e == d && r.v <= w < r.v + r.n) ==>
        Walk(vm, e, w) == old(Walk(vm, e, w))
      ensures out == Mapped ==> RangeMapped(vm, d, r)
      ensures out == Mapped ==> forall k :: r.v <= k < r.v + r.n ==> old(Walk(vm, d, k)).None?
    {
      hide Tables, Frames, IsFreeList, Accounts, Used, Set, Walk, Shape, Apart, Filled, Span, Tabled, Bare, Slots,
        MoreTables;
      ghost var vm0 := vm;
      SpanNone(Filled(vm.dir[d]), r.v);
      MoreTablesSame(to, d);
      var k := 0;
      while k < r.n
        invariant 0 <= k <= r.n && Valid() && Pages() == old(Pages()) && vm.dir.Keys == vm0.dir.Keys
        invariant vm.frame == vm0.frame && lost == old(lost)
        invariant Shape(vm0) && Spare(free, vm, d) == old(Spare(free, vm, d)) && MoreTables(old(to), to, d)
        invariant Filled(vm.dir[d]) == Filled(vm0.dir[d]) + Span(r.v, k)
        invariant forall j :: r.v <= j < r.v + k ==> Walk(vm0, d, j).None?
        invariant forall e, w :: IsPage(vm0, e, w) && !(e == d && r.v <= w < r.v + k) ==>
          Walk(vm, e, w) == Walk(vm0, e, w)
        invariant forall j :: r.v <= j < r.v + k ==> Walk(vm, d, j) == Entry(r.pa + j - r.v, r.flags)
      {
        assert IsPage(vm, d, r.v + k);
        ghost var es, to1 := vm.dir[d], to;
        var ok := WalkAlloc(d, r.v + k);
        MoreTablesTrans(old(to), to1, to, d);
        if !ok {
          SpanMissing(vm, d, Filled(vm0.dir[d]), r, k);
          return NoMemory;
        }
        if Walk(vm, d, r.v + k).Entry? {
          return Remap;
        }
        ghost var vm1 := vm;
        FilledNext(es, vm.dir[d], Filled(vm0.dir[d]), r.v, k);
        var x := Entry(r.pa + k, r.flags);
        WithKernelOk(vm, to, fo, lost, d, r.v + k, x);
        WithEntryWalk(vm, to, d, r.v + k, x, d, r.v + k);
        WithEntrySame(vm, d, r.v + k, x);
        vm := WithEntry(vm, d, r.v + k, x);
        k := k + 1;
      }
      out := Mapped;
    }

    /** setupkvm(): a directory with the kernel's ranges and no user page, or -1. */
    method SetupKvm(kmap: seq<Range>) returns (d: int, panic: bool)
      requires Valid()
      requires forall i :: 0 <= i < |kmap| ==>
        UPAGES <= kmap[i].v && 0 < kmap[i].n && kmap[i].v + kmap[i].n <= NPTE * NPTE
      modifies this`vm, this`to, this`lost, this`free, this`freelist
      ensures Valid() && Pages() == old(Pages()) && vm.frame == old(vm.frame) && lost == old(lost) && old(Shape(vm))
      ensures forall e, w :: IsPage(old(vm), e, w) ==> e in vm.dir && Walk(vm, e, w) == old(Walk(vm, e, w))
      ensures d != -1 && !panic ==> d !in old(vm.dir) && vm.dir.Keys == old(vm.dir).Keys + {d} && NoUser(vm, d)
      ensures d != -1 && !panic ==> MoreTables(old(to), to, d)
      ensures d != -1 && !panic ==> RangesMapped(vm, d, kmap, |kmap|) && OnlyRanges(vm, d, kmap, |kmap|)
      ensures d != -1 && !panic ==> !Overlap(kmap)
      ensures d != -1 && !panic ==> Filled(vm.dir[d]) == Regions(kmap, |kmap|)
      ensures d != -1 && !panic ==> |free| == |old(free)| - 1 - |Regions(kmap, |kmap|)|
      ensures d == -1 && !panic ==> |old(free)| < 1 + |Regions(kmap, |kmap|)| && free == []
      ensures d == -1 && !panic ==> (old(free) == [] && vm == old(vm)) || Leaked(old(vm), old(to), vm, to)
      ensures panic ==> Overlap(kmap)
    {
      hide Tables, Frames, IsFreeList, Accounts, Used, Set, Walk, Shape, Apart, NoUser, Overlap, OnlyRanges,
        RangesMapped, RangeMapped, MoreTables, Slots, Filled, Span, Regions;
      ghost var vm0 := vm;
      panic := false;
      d := Kalloc();
      if d == -1 {
        return;
      }
      WithDirOk(vm, to, fo, lost, d);
      SlotsAll(NoEntries());
      NoneFilled(kmap);
      NoPages(vm, d);
      NoRanges(vm, d, kmap, to);
      vm := WithDir(vm, d);
      lost := lost - {d};
      var i := 0;
      while i < |kmap|
        invariant 0 <= i <= |kmap| && Valid() && Pages() == old(Pages()) && vm.frame == vm0.frame && lost == old(lost)
        invariant d !in vm0.dir && vm.dir.Keys == vm0.dir.Keys + {d} && NoUser(vm, d) && Shape(vm0)
        invariant forall e, w :: IsPage(vm0, e, w) ==> Walk(vm, e, w) == Walk(vm0, e, w)
        invariant Spare(free, vm, d) == |old(free)| - 1 - NPTE && OnlyRanges(vm, d, kmap, i)
        invariant Filled(vm.dir[d]) == Regions(kmap, i)
        invariant RangesMapped(vm, d, kmap, i)
        invariant !Overlap(kmap[..i]) && MoreTables(old(to), to, d)
      {
        ghost var vm1, to1 := vm, to;
        var out := MapKernel(d, kmap[i]);
        MoreTablesTrans(old(to), to1, to, d);
        RegionsNext(kmap, i);
        if out == NoMemory {
          assert Leak(vm0, old(to), vm, to, d);
          RegionsMissing(vm, d, kmap, i + 1);
          return -1, false;
        }
        if out == Remap {
          RangesMeet(vm1, d, kmap, i);
          return d, true;
        }
        StillNoUser(vm1, vm, d);
        MoreRanges(vm1, vm, d, kmap, i);
        MoreMapped(vm1, vm, d, kmap, i);
        i := i + 1;
      }
      assert kmap[..|kmap|] == kmap;
      DirFilled(vm, d);
    }

    /** One round of allocuvm(): -1 no page, else whether the page was mapped. */
    method AllocPage(d: int, a: int) returns (got: bool, out: Mapping)
      requires Valid() && IsUser(vm, d, a)
      modifies this`vm, this`to, this`fo, this`lost, this`free, this`freelist
      ensures Valid() && Pages() == old(Pages()) && vm.dir.Keys == old(vm.dir).Keys && old(Shape(vm))
      ensures (got <==> old(free) != []) && (!got ==> vm == old(vm) && lost == old(lost))
      ensures got && out != Mapped ==> vm.frame == old(vm.frame)
      ensures got && out != Mapped ==> exists p :: p !in old(lost) && lost == old(lost) + {p}
      ensures got && out != Mapped ==> forall e, w :: IsPage(vm, e, w) ==> Walk(vm, e, w) == old(Walk(vm, e, w))
      ensures got ==> (out == Remap <==> old(Walk(vm, d, a)).Entry?)
      ensures got && out == NoMemory ==> free == [] && |old(free)| == 1 && Bare(old(vm).dir[d], a)
      ensures got && out == Mapped ==> lost == old(lost) && GrownBy(old(vm), vm, d, a)
      ensures got && out == Mapped ==>
        |free| == |old(free)| - 1 - TableCost(old(vm).dir[d], a) && Tabled(old(vm).dir[d], vm.dir[d], a)
    {
      hide Tables, Frames, IsFreeList, Accounts, Used, Set, Walk, Shape, Apart;
      ghost var vm0 := vm;
      var mem := Kalloc();
      if mem == -1 {
        return false, NoMemory;
      }
      out := MapUser(d, a, mem, PTE_W + PTE_U, ZeroPage());
      got := true;
    }

    /**
      allocuvm().  It succeeds with every page mapped exactly if the free pages are enough for the
      pages and the tables they need.  It does not look at the result of mappages(): one page short
      of that it also reports success, with the last page unmapped, if that page needs a table of
      its own.  Otherwise it fails and leaves everything as it was, at most losing a page.
     */
    method AllocUvm(d: int, oldsz: int, newsz: int) returns (r: int, panic: bool)
      requires Valid() && d in vm.dir && 0 <= oldsz && 0 <= newsz
      modifies this`vm, this`to, this`fo, this`lost, this`free, this`freelist, this`next
      ensures Valid() && Pages() == old(Pages()) && old(Shape(vm))
      ensures newsz >= UPAGES * PGSIZE ==> r == 0 && !panic && vm == old(vm) && lost == old(lost)
      ensures newsz < UPAGES * PGSIZE && newsz < oldsz ==> r == oldsz && !panic && vm == old(vm) && lost == old(lost)
      ensures newsz < UPAGES * PGSIZE && newsz >= oldsz && NoneIn(old(vm), d, RoundUp(oldsz), RoundUp(newsz)) ==>
        !panic && Grows(old(vm), vm, |old(free)|, d, oldsz, newsz, r)
          && Loses(old(lost), lost, old(vm).dir[d], |old(free)|, oldsz, newsz)
      // else a page in the way is a panic, if the free pages last until there
      ensures newsz < UPAGES * PGSIZE && newsz >= oldsz ==>
        (panic <==> exists x :: Remaps(old(vm), d, RoundUp(oldsz), RoundUp(newsz), |old(free)|, x))
      ensures newsz < UPAGES * PGSIZE && newsz >= oldsz && !NoneIn(old(vm), d, RoundUp(oldsz), RoundUp(newsz)) ==>
        panic || r == 0
      ensures Honest(vm)
    {
      hide Tables, Frames, IsFreeList, Accounts, Used, Set, Walk, Shape, Apart, Grown, GrownBy, NoneIn, Unmapped,
        Missed, Visits,
        Opened, Need, Grows, Loses, Honest, Remaps;
      panic := false;
      if newsz >= UPAGES * PGSIZE {
        TablesHonest(vm, to);
        return 0, false;
      }
      if newsz < oldsz {
        TablesHonest(vm, to);
        return oldsz, false;
      }
      ghost var vm0, es, n := vm, vm.dir[d], |free|;
      ghost var lo, hi := RoundUp(oldsz), RoundUp(newsz);
      GrownNone(vm0, d, lo);
      OpenedNone(vm0, d, lo);
      NoneYet(vm0, d, lo);
      var a := RoundUp(oldsz);
      ghost var m := lo; // pages below m are mapped
      while a * PGSIZE < newsz
        invariant lo <= a <= hi && Valid() && Pages() == old(Pages()) && vm.dir.Keys == vm0.dir.Keys
        invariant lo <= m <= a && Shape(vm0) && Grown(vm0, vm, d, lo, m) && NoneIn(vm0, d, lo, a)
        invariant m == a ==> lost == old(lost) && |free| == n - Need(es, lo, a) && Opened(es, vm.dir[d], lo, a)
        invariant m < a ==> m == a - 1 && free == [] && n == Need(es, lo, m) + 1 && Opens(es, lo, m)
        invariant m < a ==> exists p :: p !in old(lost) && lost == old(lost) + {p}
        decreases hi - a
      {
        ghost var vm1 := vm;
        if m == a { OpenedNow(es, vm.dir[d], lo, a); }
        var got, out := AllocPage(d, a);
        if !got {
          ghost var vm2, fo2 := vm, fo;
          var _, bad := DeallocUvm(d, newsz, oldsz);
          if NoneIn(vm0, d, lo, hi) {
            GrownUndone(vm0, vm2, fo2, vm, fo, d, lo, m, hi);
            Fails(vm0, vm, old(lost), lost, n, d, oldsz, newsz, m, a);
          }
          OutOfPages(vm0, d, lo, hi, n, m, a);
          TablesHonest(vm, to);
          return 0, false;
        }
        if out == Remap {
          RemapMeans(vm0, vm1, d, lo, m, hi, a, n);
          TablesHonest(vm, to);
          return 0, true;
        }
        assert m == a;
        StillNone(vm0, vm1, d, lo, a);
        NeedNext(es, lo, a);
        if out == Mapped {
          GrownStep(vm0, vm1, vm, d, lo, a);
          OpenedStep(es, vm1.dir[d], vm.dir[d], lo, a);
          m := m + 1;
        } else {
          GrownSame(vm0, vm1, vm, d, lo, m);
        }
        a := a + 1;
      }
      Succeeds(vm0, vm, old(lost), lost, n, d, oldsz, newsz, m);
      NoRemap(vm0, d, lo, hi, n);
      r := newsz;
      TablesHonest(vm, to);
    }

    /** One round of copyuvm(). */
    method CopyPage(d: int, c: int, i: int, ghost vm0: VM) returns (out: Copying)
      requires Valid() && 0 <= i < UPAGES && Shape(vm0) && Copied(vm0, vm, d, c, i)
      requires Walk(vm0, d, i).Entry? ==> Walk(vm0, d, i).page in vm0.frame
      modifies this`vm, this`to, this`fo, this`lost, this`free, this`freelist
      ensures Valid() && Pages() == old(Pages()) && c in vm.dir && c in old(vm).dir && MoreTables(old(to), to, c)
      ensures out == Absent <==> Walk(vm0, d, i).None?
      ensures out == NoPage ==> Copied(vm0, vm, d, c, i) && OneLost(old(lost), lost)
      ensures out == NoPage ==> |old(free)| < 1 + TableCost(old(vm).dir[c], i)
      ensures out == CopiedOne ==> Copied(vm0, vm, d, c, i + 1) && lost == old(lost)
      ensures out == CopiedOne ==>
        |free| == |old(free)| - 1 - TableCost(old(vm).dir[c], i) && Tabled(old(vm).dir[c], vm.dir[c], i)
    {
      hide Tables, Frames, IsFreeList, Accounts, Used, Set, Walk, Shape, Apart, Copied, Slots, MoreTables, Tabled;
      MoreTablesSame(to, c);
      CopiedSource(vm0, vm, d, c, i);
      FramesKeys(vm, fo);
      NotMapped(vm, to, d, i);
      var found := FindTable(d, i);
      if !found {
        return Absent;
      }
      var x := Walk(vm, d, i);
      if x.None? {
        return Absent;
      }
      FrameOwner(vm, fo, d, i);
      ghost var vm1 := vm;
      var mem := Kalloc();
      if mem == -1 {
        return NoPage;
      }
      var m := MapUser(c, i, mem, x.flags, vm.frame[x.page]);
      if m == NoMemory {
        CopiedSame(vm0, vm1, vm, d, c, i);
        return NoPage;
      }
      CopiedStep(vm0, vm1, vm, d, c, i, mem);
      out := CopiedOne;
    }

    /** copyuvm(): a copy of the first sz bytes of space d, or -1; it succeeds exactly if CopyCost() pages are free. */
    method CopyUvm(d: int, sz: int, kmap: seq<Range>) returns (c: int, panic: bool)
      requires Valid() && d in vm.dir && 0 <= sz <= UPAGES * PGSIZE
      requires forall i :: 0 <= i < |kmap| ==>
        UPAGES <= kmap[i].v && 0 < kmap[i].n && kmap[i].v + kmap[i].n <= NPTE * NPTE
      modifies this`vm, this`to, this`fo, this`lost, this`free, this`freelist, this`next
      ensures old(Shape(vm)) && (!panic ==> Valid() && Pages() == old(Pages()))
      ensures c != -1 && !panic ==> Copied(old(vm), vm, d, c, RoundUp(sz)) && lost == old(lost)
      ensures c != -1 && !panic <==>
        !Overlap(kmap) && Present(old(vm), d, RoundUp(sz)) && |old(free)| >= CopyCost(kmap, RoundUp(sz))
      ensures panic ==> Overlap(kmap) || !Present(old(vm), d, RoundUp(sz))
      ensures c == -1 && !panic ==> Kept(old(vm), vm) && |old(free)| < CopyCost(kmap, RoundUp(sz))
      ensures c == -1 && !panic ==>
        (SamePages(old(vm), vm) && OneLost(old(lost), lost))
          || (Leaked(old(vm), old(to), vm, to) && free == [] && lost == old(lost))
      ensures !panic ==> old(Honest(vm)) && Honest(vm)
    {
      hide Tables, Frames, IsFreeList, Accounts, Used, Set, Walk, Shape, Apart, Copied, NoUser, Kept, Overlap, Slots,
        OnlyRanges, RangesMapped, MoreTables, Leaked, Filled, Regions, Paid, Tabled, CopyCost, Present, Honest;
      ghost var vm0, to0, fo0 := vm, to, fo;
      KeptSame(vm);
      TablesHonest(vm, to);
      c, panic := SetupKvm(kmap);
      SetupCost(|old(free)|, kmap, RoundUp(sz));
      if panic {
        return;
      }
      if c == -1 {
        KeptBy(vm0, vm);
        TablesHonest(vm, to);
        return;
      }
      CopiedNone(vm0, vm, d, c);
      ghost var es := vm.dir[c];
      NothingPaid(|old(free)|, |free|, vm, c, kmap);
      var i := 0;
      while i * PGSIZE < sz
        invariant 0 <= i <= RoundUp(sz) && Valid() && Pages() == old(Pages()) && Shape(vm0) && Copied(vm0, vm, d, c, i)
        invariant lost == old(lost) && c in vm.dir && MoreTables(to0, to, c)
        invariant Paid(|old(free)|, |free|, es, vm.dir[c], kmap, i)
        decreases RoundUp(sz) - i
      {
        FrameThere(vm0, fo0, d, i);
        ghost var es1, to1, free1 := vm.dir[c], to, |free|;
        var out := CopyPage(d, c, i, vm0);
        MoreTablesTrans(to0, to1, to, c);
        if out == Absent {
          NotPresent(vm0, d, i, RoundUp(sz));
          return c, true;
        }
        if out == NoPage {
          ghost var vm1, to1, fo1 := vm, to, fo;
          panic := FreeVm(c);
          CopyGone(vm0, to0, fo0, vm1, to1, fo1, vm, d, c, i);
          CannotPay(|old(free)|, free1, es, es1, kmap, i, RoundUp(sz));
          TablesHonest(vm, to);
          return -1, false;
        }
        PaysPage(|old(free)|, free1, |free|, es, es1, vm.dir[c], kmap, i);
        i := i + 1;
      }
      AllPaid(|old(free)|, |free|, es, vm.dir[c], kmap, i);
      AllPresent(vm0, vm, d, c, i);
      TablesHonest(vm, to);
    }
  }

  /**
    A machine with pages for the kernel's part of a space and one more: page 0 takes that one, which
    leaves none for its table.
   */
  method LastPageLost(kmap: seq<Range>) returns (k: Kernel, d: int, r: int)
    requires forall i :: 0 <= i < |kmap| ==>
      UPAGES <= kmap[i].v && 0 < kmap[i].n && kmap[i].v + kmap[i].n <= NPTE * NPTE
    requires !Overlap(kmap)
    ensures fresh(k) && k.Valid() && IsPage(k.vm, d, 0) && r == PGSIZE && Walk(k.vm, d, 0).None?
    ensures RangesMapped(k.vm, d, kmap, |kmap|)
  {
    hide Tables, Frames, IsFreeList, Accounts, Used, Set, Walk, Shape, Apart, Overlap, Regions, Filled, LastMissing,
      Grows, Loses, OnlyRanges, RangesMapped, Bare, NoUser, NoneIn, MoreTables, Leaked, RoundUp;
    k := new Kernel(1, 3 + |Regions(kmap, |kmap|)|);
    var panic;
    d, panic := k.SetupKvm(kmap);
    ghost var vm0 := k.vm;
    DirSize(vm0, d);
    UserBare(vm0.dir[d], kmap, 0);
    EmptySpace(vm0, d);
    r, panic := k.AllocUvm(d, 0, PGSIZE);
    LastPageUnmappedIff(vm0, k.vm, 1, d, 0, PGSIZE, r);
    StillMapped(vm0, k.vm, 1, d, 0, PGSIZE, r, kmap);
  }

  /** allocuvm() leaves the kernel's ranges mapped. */
  lemma StillMapped(vm0: VM, vm: VM, free: nat, d: int, oldsz: int, newsz: int, r: int, kmap: seq<Range>)
    requires Shape(vm0) && Shape(vm) && d in vm0.dir && 0 <= oldsz <= newsz < UPAGES * PGSIZE
    requires Grows(vm0, vm, free, d, oldsz, newsz, r) && RangesMapped(vm0, d, kmap, |kmap|)
    requires forall i :: 0 <= i < |kmap| ==> UPAGES <= kmap[i].v
    ensures RangesMapped(vm, d, kmap, |kmap|)
  {
    hide Walk, Shape, Need, LastMissing, NewPage;
    forall i | 0 <= i < |kmap| ensures RangeMapped(vm, d, kmap[i]) {
      assert RangeMapped(vm0, d, kmap[i]);
      forall v | InRange(kmap[i], v) ensures IsPage(vm, d, v) && Walk(vm, d, v) == Walk(vm0, d, v) {
        assert IsPage(vm0, d, v);
      }
    }
  }

  lemma EmptySpace(vm: VM, d: int)
    requires Shape(vm) && d in vm.dir && Bare(vm.dir[d], 0) && NoUser(vm, d)
    ensures RoundUp(0) == 0 && RoundUp(PGSIZE) == 1 && NoneIn(vm, d, 0, 1) && LastMissing(1, vm.dir[d], 0, 1)
  {
    hide Walk;
  }

  /** A process may read and write its new pages ... */
  lemma NewPageRights(vm0: VM, vm: VM, d: int, v: int)
    requires Shape(vm) && Honest(vm) && NewPage(vm0, vm, d, v)
    ensures May(vm, d, v, PTE_W) && May(vm, d, v, PTE_U)
  {
    hide Walk, May, Shape;
  }

  /** ... and in a copy what it may in the original. */
  lemma CopyRights(vm0: VM, vm: VM, d: int, c: int, n: int, v: int, bit: int)
    requires Shape(vm0) && Shape(vm) && Honest(vm0) && Honest(vm) && Copied(vm0, vm, d, c, n) && 0 <= v < n
    requires bit in {PTE_W, PTE_U}
    ensures CopyOf(vm0, vm, d, c, v) && (May(vm, c, v, bit) <==> May(vm0, d, v, bit))
  {
    hide Walk, May, Shape, Kept;
    assert CopyOf(vm0, vm, d, c, v);
  }

  /** The spaces and data pages of vm0 are all in vm, unchanged. */
  ghost predicate Kept(vm0: VM, vm: VM)
    requires Shape(vm0) && Shape(vm)
  {
    && (forall e, w :: IsPage(vm0, e, w) ==> e in vm.dir && Walk(vm, e, w) == Walk(vm0, e, w))
    && (forall f :: f in vm0.frame ==> f in vm.frame && vm.frame[f] == vm0.frame[f])
  }

  /** Page v of c is a copy of page v of d, on a page of its own. */
  ghost predicate CopyOf(vm0: VM, vm: VM, d: int, c: int, v: int)
    requires Shape(vm0) && Shape(vm)
  {
    && IsPage(vm0, d, v) && IsPage(vm, c, v) && Walk(vm0, d, v).Entry? && Walk(vm, c, v).Entry?
    && Walk(vm, c, v).flags == Walk(vm0, d, v).flags
    && Walk(vm, c, v).page !in vm0.frame && Walk(vm, c, v).page in vm.frame && Walk(vm0, d, v).page in vm0.frame
    && vm.frame[Walk(vm, c, v).page] == vm0.frame[Walk(vm0, d, v).page]
  }

  /** c is a new space whose user pages are copies of the first n pages of d. */
  ghost predicate Copied(vm0: VM, vm: VM, d: int, c: int, n: int)
    requires Shape(vm0) && Shape(vm)
  {
    && Kept(vm0, vm) && d in vm0.dir && c !in vm0.dir && vm.dir.Keys == vm0.dir.Keys + {c}
    && (forall v :: 0 <= v < n ==> CopyOf(vm0, vm, d, c, v))
    && (forall v :: IsUser(vm, c, v) && n <= v ==> Walk(vm, c, v).None?)
  }

  lemma KeptSame(vm: VM)
    requires Shape(vm)
    ensures Kept(vm, vm)
  {
  }

  lemma KeptBy(vm0: VM, vm: VM)
    requires Shape(vm0) && Shape(vm) && vm.frame == vm0.frame
    requires forall e, w :: IsPage(vm0, e, w) ==> e in vm.dir && Walk(vm, e, w) == Walk(vm0, e, w)
    ensures Kept(vm0, vm)
  {
  }

  lemma CopiedNone(vm0: VM, vm: VM, d: int, c: int)
    requires Shape(vm0) && Shape(vm) && d in vm0.dir && c !in vm0.dir && vm.dir.Keys == vm0.dir.Keys + {c}
    requires vm.frame == vm0.frame && NoUser(vm, c)
    requires forall e, w :: IsPage(vm0, e, w) ==> e in vm.dir && Walk(vm, e, w) == Walk(vm0, e, w)
    ensures Copied(vm0, vm, d, c, 0)
  {
    hide Walk, Shape;
  }

  lemma CopiedSource(vm0: VM, vm: VM, d: int, c: int, i: int)
    requires Shape(vm0) && Shape(vm) && Copied(vm0, vm, d, c, i) && 0 <= i < UPAGES
    ensures IsUser(vm, d, i) && IsPage(vm, d, i) && IsPage(vm0, d, i) && Walk(vm, d, i) == Walk(vm0, d, i)
    ensures IsUser(vm, c, i) && Walk(vm, c, i).None?
    ensures c in vm.dir
  {
    hide Walk, Shape;
  }

  lemma CopiedStep(vm0: VM, vm1: VM, vm: VM, d: int, c: int, i: int, mem: int)
    requires Shape(vm0) && Shape(vm1) && Shape(vm) && Copied(vm0, vm1, d, c, i) && 0 <= i < UPAGES
    requires vm.dir.Keys == vm1.dir.Keys
    requires IsPage(vm1, d, i) && Walk(vm1, d, i).Entry? && Walk(vm1, d, i).page in vm1.frame && mem !in vm1.frame
    requires Walk(vm0, d, i).Entry? ==> Walk(vm0, d, i).page in vm0.frame
    requires vm.frame == vm1.frame[mem := vm1.frame[Walk(vm1, d, i).page]]
    requires forall e, w :: IsPage(vm, e, w) ==>
      Walk(vm, e, w) == if (e, w) == (c, i) then Entry(mem, Walk(vm1, d, i).flags) else Walk(vm1, e, w)
    ensures Copied(vm0, vm, d, c, i + 1)
  {
    hide Walk, Shape;
    assert IsPage(vm0, d, i) && IsPage(vm, c, i);
    forall v | 0 <= v < i + 1 ensures CopyOf(vm0, vm, d, c, v) {
      if v < i { assert CopyOf(vm0, vm1, d, c, v) && IsPage(vm, c, v); }
    }
    forall v | IsUser(vm, c, v) && i + 1 <= v ensures Walk(vm, c, v).None? {
      assert IsPage(vm, c, v) && IsUser(vm1, c, v);
    }
  }

  /** Freeing the copy leaves what was there before. */
  lemma CopyUndone(vm0: VM, fo0: map<int, (int, int)>, vm1: VM, fo1: map<int, (int, int)>, vm: VM, d: int, c: int,
                   i: int)
    requires Shape(vm0) && Shape(vm1) && Shape(vm) && Frames(vm0, fo0) && Frames(vm1, fo1) && Copied(vm0, vm1, d, c, i)
    requires vm.dir.Keys == vm1.dir.Keys - {c} && forall e, w :: IsPage(vm, e, w) ==> Walk(vm, e, w) == Walk(vm1, e, w)
    requires forall f :: f in vm.frame <==> f in vm1.frame && f in fo1 && fo1[f].0 != c
    requires forall f :: f in vm.frame ==> vm.frame[f] == vm1.frame[f]
    ensures Kept(vm0, vm)
  {
    hide Walk, Shape;
    forall e, w | IsPage(vm0, e, w) ensures e in vm.dir && Walk(vm, e, w) == Walk(vm0, e, w) {
      assert e in vm1.dir.Keys && e != c && e in vm.dir.Keys;
      assert IsPage(vm, e, w);
    }
    forall f | f in vm0.frame ensures f in vm.frame && vm.frame[f] == vm0.frame[f] {
      var e, v := fo0[f].0, fo0[f].1;
      assert IsUser(vm0, e, v) && IsPage(vm0, e, v) && Walk(vm0, e, v).page == f;
      assert IsUser(vm1, e, v) && Walk(vm1, e, v).page == f;
    }
  }

  /** The same pages are in use. */
  ghost predicate SamePages(vm0: VM, vm: VM) {
    vm.dir.Keys == vm0.dir.Keys && vm.table.Keys == vm0.table.Keys && vm.frame.Keys == vm0.frame.Keys
  }

  /** At most one page has been lost. */
  ghost predicate OneLost(lost0: set<int>, lost: set<int>) {
    lost == lost0 || exists p :: p !in lost0 && lost == lost0 + {p}
  }

  /** freevm() gives back every page that the copy took. */
  lemma CopyGone(vm0: VM, to0: map<int, (int, int)>, fo0: map<int, (int, int)>, vm1: VM, to1: map<int, (int, int)>,
                 fo1: map<int, (int, int)>,
                 vm: VM, d: int, c: int, i: int)
    requires Shape(vm0) && Shape(vm1) && Shape(vm) && Tables(vm0, to0) && Tables(vm1, to1) && Frames(vm0, fo0)
    requires Frames(vm1, fo1)
    requires Copied(vm0, vm1, d, c, i) && MoreTables(to0, to1, c) && vm.dir.Keys == vm1.dir.Keys - {c}
    requires forall e, w :: IsPage(vm, e, w) ==> Walk(vm, e, w) == Walk(vm1, e, w)
    requires forall t :: t in vm.table <==> t in vm1.table && t in to1 && to1[t].0 != c
    requires forall f :: f in vm.frame <==> f in vm1.frame && f in fo1 && fo1[f].0 != c
    requires forall f :: f in vm.frame ==> vm.frame[f] == vm1.frame[f]
    ensures Kept(vm0, vm) && SamePages(vm0, vm)
  {
    hide Walk, Shape, Pde;
    CopyUndone(vm0, fo0, vm1, fo1, vm, d, c, i);
    forall t ensures t in vm.table <==> t in vm0.table {
      if t in to0 { assert IsPde(vm0, to0[t].0, to0[t].1); }
    }
    forall f | f in vm.frame ensures f in vm0.frame {
      var e, v := fo1[f].0, fo1[f].1;
      assert IsUser(vm1, e, v) && IsUser(vm0, e, v) && IsPage(vm0, e, v);
    }
    forall f ensures f in vm.frame <==> f in vm0.frame {
    }
    assert vm.dir.Keys == vm0.dir.Keys && vm.table.Keys == vm0.table.Keys;
    assert vm.frame.Keys == vm0.frame.Keys;
  }

  lemma CopiedSame(vm0: VM, vm1: VM, vm: VM, d: int, c: int, i: int)
    requires Shape(vm0) && Shape(vm1) && Shape(vm) && Copied(vm0, vm1, d, c, i) && vm.dir.Keys == vm1.dir.Keys
    requires vm.frame == vm1.frame
    requires forall e, w :: IsPage(vm, e, w) ==> Walk(vm, e, w) == Walk(vm1, e, w)
    ensures Copied(vm0, vm, d, c, i)
  {
    hide Walk, Shape;
    forall v | 0 <= v < i ensures CopyOf(vm0, vm, d, c, v) {
      assert CopyOf(vm0, vm1, d, c, v) && IsPage(vm, c, v);
    }
    forall v | IsUser(vm, c, v) && i <= v ensures Walk(vm, c, v).None? {
      assert IsPage(vm, c, v) && IsUser(vm1, c, v);
    }
  }

  function ZeroPage(): (r: Bytes)
    ensures |r| == PGSIZE && forall k :: 0 <= k < PGSIZE ==> r[k] == 0
  {
    seq(PGSIZE, _ => 0)
  }

  /** No page from lo to hi is present in d. */
  ghost predicate NoneIn(vm: VM, d: int, lo: int, hi: int)
    requires Shape(vm)
  {
    forall v :: IsUser(vm, d, v) && lo <= v < hi ==> Walk(vm, d, v).None?
  }

  /** Pages lo to m of d are fresh zero pages; all else is as before. */
  ghost predicate Grown(vm0: VM, vm: VM, d: int, lo: int, m: int)
    requires Shape(vm0) && Shape(vm)
  {
    && vm.dir.Keys == vm0.dir.Keys && d in vm0.dir && 0 <= lo && m <= UPAGES
    && (forall e, w :: IsPage(vm0, e, w) && !(e == d && lo <= w < m) ==> Walk(vm, e, w) == Walk(vm0, e, w))
    && (forall v :: lo <= v < m ==> NewPage(vm0, vm, d, v))
    && (forall f :: f in vm0.frame ==> f in vm.frame && vm.frame[f] == vm0.frame[f])
  }

  ghost predicate NewPage(vm0: VM, vm: VM, d: int, v: int)
    requires Shape(vm)
  {
    && IsPage(vm, d, v) && Walk(vm, d, v).Entry? && Walk(vm, d, v).flags == PTE_W + PTE_U
    && Walk(vm, d, v).page !in vm0.frame && Walk(vm, d, v).page in vm.frame
    && vm.frame[Walk(vm, d, v).page] == ZeroPage()
  }

  ghost predicate GrownBy(vm0: VM, vm: VM, d: int, v: int)
    requires Shape(vm0) && Shape(vm)
  {
    && vm.dir.Keys == vm0.dir.Keys && NewPage(vm0, vm, d, v)
    && (forall e, w :: IsPage(vm0, e, w) && (e, w) != (d, v) ==> Walk(vm, e, w) == Walk(vm0, e, w))
    && (forall f :: f in vm0.frame ==> f in vm.frame && vm.frame[f] == vm0.frame[f])
  }

  /** What allocuvm() returns and maps, with `free` pages free before. */
  ghost predicate Grows(vm0: VM, vm: VM, free: nat, d: int, oldsz: int, newsz: int, r: int)
    requires Shape(vm0) && Shape(vm) && d in vm0.dir && 0 <= oldsz <= newsz
  {
    var es, lo, hi := vm0.dir[d], RoundUp(oldsz), RoundUp(newsz);
    if free >= Need(es, lo, hi) then r == newsz && Grown(vm0, vm, d, lo, hi)
    else if LastMissing(free, es, lo, hi) then r == newsz && Grown(vm0, vm, d, lo, hi - 1)
    else r == 0 && Grown(vm0, vm, d, lo, lo)
  }

  /** allocuvm() reports success with its last page unmapped exactly if that page's own table is what lacked. */
  lemma LastPageUnmappedIff(vm0: VM, vm: VM, free: nat, d: int, oldsz: int, newsz: int, r: int)
    requires Shape(vm0) && Shape(vm) && d in vm0.dir && 0 <= oldsz <= newsz && RoundUp(oldsz) < RoundUp(newsz) <= UPAGES
    requires NoneIn(vm0, d, RoundUp(oldsz), RoundUp(newsz)) && Grows(vm0, vm, free, d, oldsz, newsz, r)
    ensures IsPage(vm, d, RoundUp(newsz) - 1)
    ensures r == newsz && Walk(vm, d, RoundUp(newsz) - 1).None? <==>
      LastMissing(free, vm0.dir[d], RoundUp(oldsz), RoundUp(newsz))
  {
    hide Walk, Shape, Need, LastMissing;
    var last := RoundUp(newsz) - 1;
    assert IsUser(vm0, d, last) && IsPage(vm0, d, last);
    NeedFits(vm0.dir[d], RoundUp(oldsz), RoundUp(newsz), free);
    if free >= Need(vm0.dir[d], RoundUp(oldsz), RoundUp(newsz)) {
      assert NewPage(vm0, vm, d, last);
    }
  }

  lemma NeedFits(es: Entries, lo: int, hi: int, free: nat)
    ensures LastMissing(free, es, lo, hi) ==> free < Need(es, lo, hi)
  {
  }

  /** A page is lost exactly if the free pages ran out between a page and its table. */
  ghost predicate Loses(lost0: set<int>, lost: set<int>, es: Entries, free: nat, oldsz: int, newsz: int)
    requires 0 <= oldsz <= newsz
  {
    if exists a :: a <= RoundUp(newsz) && LastMissing(free, es, RoundUp(oldsz), a)
    then exists p :: p !in lost0 && lost == lost0 + {p}
    else lost == lost0
  }

  lemma GrownNone(vm: VM, d: int, lo: int)
    requires Shape(vm) && d in vm.dir && 0 <= lo <= UPAGES
    ensures Grown(vm, vm, d, lo, lo)
  {
  }

  lemma GrownStep(vm0: VM, vm1: VM, vm: VM, d: int, lo: int, a: int)
    requires Shape(vm0) && Shape(vm1) && Shape(vm) && Grown(vm0, vm1, d, lo, a) && lo <= a < UPAGES
    requires GrownBy(vm1, vm, d, a)
    ensures Grown(vm0, vm, d, lo, a + 1)
  {
    hide Walk, Shape;
    forall v | lo <= v < a + 1 ensures NewPage(vm0, vm, d, v) {
      if v < a { assert NewPage(vm0, vm1, d, v) && IsPage(vm1, d, v); }
    }
  }

  lemma GrownSame(vm0: VM, vm1: VM, vm: VM, d: int, lo: int, m: int)
    requires Shape(vm0) && Shape(vm1) && Shape(vm) && Grown(vm0, vm1, d, lo, m) && vm.dir.Keys == vm1.dir.Keys
    requires vm.frame == vm1.frame
    requires forall e, w :: IsPage(vm, e, w) ==> Walk(vm, e, w) == Walk(vm1, e, w)
    ensures Grown(vm0, vm, d, lo, m)
  {
    hide Walk, Shape;
    forall v | lo <= v < m ensures NewPage(vm0, vm, d, v) {
      assert NewPage(vm0, vm1, d, v) && IsPage(vm, d, v);
    }
  }

  /** Page x is the first present one from lo on, and n free pages are enough to come to it. */
  ghost predicate Remaps(vm: VM, d: int, lo: int, hi: int, n: nat, x: int)
    requires Shape(vm) && d in vm.dir
  {
    IsUser(vm, d, x) && lo <= x < hi && Walk(vm, d, x).Entry? && NoneIn(vm, d, lo, x) && Need(vm.dir[d], lo, x) < n
  }

  lemma RemapMeans(vm0: VM, vm: VM, d: int, lo: int, m: int, hi: int, a: int, n: nat)
    requires Shape(vm0) && Shape(vm) && Grown(vm0, vm, d, lo, m) && m <= a < hi && lo <= a && IsUser(vm, d, a)
    requires Walk(vm, d, a).Entry? && NoneIn(vm0, d, lo, a) && Need(vm0.dir[d], lo, a) < n
    ensures !NoneIn(vm0, d, lo, hi) && Remaps(vm0, d, lo, hi, n, a)
  {
    hide Walk, Shape, Need;
    assert IsPage(vm0, d, a) && IsUser(vm0, d, a);
  }

  lemma NoneYet(vm: VM, d: int, lo: int)
    requires Shape(vm)
    ensures NoneIn(vm, d, lo, lo)
  {
  }

  lemma StillNone(vm0: VM, vm: VM, d: int, lo: int, a: int)
    requires Shape(vm0) && Shape(vm) && Grown(vm0, vm, d, lo, a) && NoneIn(vm0, d, lo, a) && lo <= a && IsUser(vm, d, a)
    requires Walk(vm, d, a).None?
    ensures NoneIn(vm0, d, lo, a + 1)
  {
    hide Walk, Shape;
    assert IsPage(vm0, d, a);
  }

  lemma NoRemap(vm: VM, d: int, lo: int, hi: int, n: nat)
    requires Shape(vm) && d in vm.dir && NoneIn(vm, d, lo, hi)
    ensures forall x :: !Remaps(vm, d, lo, hi, n, x)
  {
    hide Walk, Shape, Need;
  }

  /** Out of pages at page a, growing does not come to a present page. */
  lemma OutOfPages(vm: VM, d: int, lo: int, hi: int, n: nat, m: int, a: int)
    requires Shape(vm) && d in vm.dir && NoneIn(vm, d, lo, a) && lo <= m <= a
    requires m == a ==> n == Need(vm.dir[d], lo, a)
    requires m < a ==> m == a - 1 && n == Need(vm.dir[d], lo, m) + 1 && Opens(vm.dir[d], lo, m)
    ensures forall x :: !Remaps(vm, d, lo, hi, n, x)
  {
    hide Walk, Shape, Need, Opens;
    var es := vm.dir[d];
    NeedNext(es, lo, m);
    forall x | a <= x ensures Need(es, lo, a) <= Need(es, lo, x) {
      NeedGrows(es, lo, a, x);
    }
  }

  /** deallocuvm() takes the new pages back. */
  lemma GrownUndone(vm0: VM, vm1: VM, fo1: map<int, (int, int)>, vm: VM, fo: map<int, (int, int)>, d: int, lo: int,
                    m: int, hi: int)
    requires Shape(vm0) && Shape(vm1) && Shape(vm) && Grown(vm0, vm1, d, lo, m) && NoneIn(vm0, d, lo, hi)
    requires lo <= m <= hi <= UPAGES
    requires Unmapped(vm1, fo1, vm, fo, d, Visits(vm1, d, lo, hi)) && Frames(vm1, fo1)
    ensures Grown(vm0, vm, d, lo, lo)
  {
    hide Walk, Shape, Missed, Visits;
    forall v ensures !Missed(vm1, d, lo, hi, v) {
      MissedPresent(vm1, d, lo, hi, v);
      if IsPage(vm1, d, v) && lo <= v < hi && Walk(vm1, d, v).Entry? {
        assert IsUser(vm0, d, v);
        assert NewPage(vm0, vm1, d, lo);
        NothingMissed(vm1, d, lo, hi, v);
      }
    }
    DeallocExactIff(vm1, fo1, vm, fo, d, lo, hi);
    forall e, w | IsPage(vm0, e, w) ensures Walk(vm, e, w) == Walk(vm0, e, w) {
      assert IsPage(vm, e, w);
      if e == d && lo <= w < hi { assert IsUser(vm0, d, w); }
    }
    forall f | f in vm0.frame ensures f in vm.frame && vm.frame[f] == vm0.frame[f] {
      OldFrameStays(vm0, vm1, fo1, d, lo, m, hi, f);
    }
  }

  /** The data pages of before are not among those that deallocuvm() gives up. */
  lemma OldFrameStays(vm0: VM, vm1: VM, fo1: map<int, (int, int)>, d: int, lo: int, m: int, hi: int, f: int)
    requires Shape(vm0) && Shape(vm1) && Grown(vm0, vm1, d, lo, m) && NoneIn(vm0, d, lo, hi) && lo <= m <= hi <= UPAGES
    requires Frames(vm1, fo1) && f in vm0.frame
    ensures f in fo1 && !(fo1[f].0 == d && fo1[f].1 in Visits(vm1, d, lo, hi))
  {
    hide Walk, Shape, Visits;
    var v := fo1[f].1;
    assert lo <= v < m ==> NewPage(vm0, vm1, d, v);
    assert IsUser(vm1, fo1[f].0, v) && (fo1[f].0 == d ==> IsUser(vm0, d, v) && IsPage(vm0, d, v));
    if fo1[f].0 == d && v in Visits(vm1, d, lo, hi) {
      VisitsRange(vm1, d, lo, hi, v);
      assert false;
    }
  }

  predicate InRange(r: Range, v: int) {
    r.v <= v < r.v + r.n
  }

  /** Two of the kernel's ranges share a page. */
  ghost predicate Overlap(kmap: seq<Range>) {
    exists i, j, v :: 0 <= i < j < |kmap| && InRange(kmap[i], v) && InRange(kmap[j], v)
  }

  /** Only pages of the first n ranges are present in d. */
  ghost predicate OnlyRanges(vm: VM, d: int, kmap: seq<Range>, n: int)
    requires Shape(vm) && 0 <= n <= |kmap|
  {
    forall v :: IsPage(vm, d, v) && Walk(vm, d, v).Entry? ==> exists i :: 0 <= i < n && InRange(kmap[i], v)
  }

  /** The pages of a range point where the range says. */
  ghost predicate RangeMapped(vm: VM, d: int, r: Range)
    requires Shape(vm)
  {
    forall k :: InRange(r, k) ==> IsPage(vm, d, k) && Walk(vm, d, k) == Entry(r.pa + k - r.v, r.flags)
  }

  ghost predicate RangesMapped(vm: VM, d: int, kmap: seq<Range>, n: int)
    requires Shape(vm) && 0 <= n <= |kmap|
  {
    forall i :: 0 <= i < n ==> RangeMapped(vm, d, kmap[i])
  }

  /** Tables have been added to d alone. */
  ghost predicate MoreTables(to0: map<int, (int, int)>, to: map<int, (int, int)>, d: int) {
    && (forall t :: t in to0 ==> t in to && to[t] == to0[t])
    && (forall t :: t in to && t !in to0 ==> to[t].0 == d)
  }

  lemma NotATable(vm: VM, to: map<int, (int, int)>, fo: map<int, (int, int)>, lost: set<int>, t: int)
    requires Inv(vm, to, fo, lost) && t in lost
    ensures t !in to
  {
    hide Frames, Shape;
  }

  lemma MoreTablesSame(to: map<int, (int, int)>, d: int)
    ensures MoreTables(to, to, d)
  {
  }

  lemma MoreTablesTrans(to0: map<int, (int, int)>, to1: map<int, (int, int)>, to: map<int, (int, int)>, d: int)
    requires MoreTables(to0, to1, d) && MoreTables(to1, to, d)
    ensures MoreTables(to0, to, d)
  {
  }

  /** What a failing setupkvm() leaves behind: directory x and its tables. */
  ghost predicate Leak(vm0: VM, to0: map<int, (int, int)>, vm: VM, to: map<int, (int, int)>, x: int) {
    x !in vm0.dir && vm.dir.Keys == vm0.dir.Keys + {x} && MoreTables(to0, to, x)
  }

  ghost predicate Leaked(vm0: VM, to0: map<int, (int, int)>, vm: VM, to: map<int, (int, int)>) {
    exists x :: Leak(vm0, to0, vm, to, x)
  }

  lemma NoRanges(vm: VM, d: int, kmap: seq<Range>, to: map<int, (int, int)>)
    requires Shape(WithDir(vm, d))
    ensures RangesMapped(WithDir(vm, d), d, kmap, 0) && !Overlap(kmap[..0]) && MoreTables(to, to, d)
  {
  }

  lemma MoreMapped(vm: VM, vm': VM, d: int, kmap: seq<Range>, i: int)
    requires Shape(vm) && Shape(vm') && 0 <= i < |kmap| && RangesMapped(vm, d, kmap, i) && !Overlap(kmap[..i])
    requires vm'.dir.Keys == vm.dir.Keys && RangeMapped(vm', d, kmap[i])
    requires forall e, w :: IsPage(vm', e, w) && !(e == d && InRange(kmap[i], w)) ==> Walk(vm', e, w) == Walk(vm, e, w)
    requires forall k :: InRange(kmap[i], k) ==> IsPage(vm, d, k) && Walk(vm, d, k).None?
    ensures RangesMapped(vm', d, kmap, i + 1) && !Overlap(kmap[..i + 1])
  {
    hide Walk, Shape;
    forall j | 0 <= j < i
      ensures RangeMapped(vm', d, kmap[j]) && forall v :: InRange(kmap[j], v) ==> !InRange(kmap[i], v)
    {
      assert RangeMapped(vm, d, kmap[j]);
      forall v | InRange(kmap[j], v) ensures IsPage(vm', d, v) && !InRange(kmap[i], v) {
        assert IsPage(vm, d, v);
      }
    }
    var now, was := kmap[..i + 1], kmap[..i];
    forall a, b, v | 0 <= a < b < |now| ensures !(InRange(now[a], v) && InRange(now[b], v)) {
      if b < i { assert was[a] == now[a] && was[b] == now[b]; }
    }
  }

  lemma NoPages(vm: VM, d: int)
    requires Shape(vm) && d !in vm.dir
    ensures Shape(WithDir(vm, d)) && forall kmap: seq<Range> :: OnlyRanges(WithDir(vm, d), d, kmap, 0)
  {
  }

  lemma RangesMeet(vm: VM, d: int, kmap: seq<Range>, i: int)
    requires Shape(vm) && 0 <= i < |kmap| && OnlyRanges(vm, d, kmap, i)
    requires exists v :: kmap[i].v <= v < kmap[i].v + kmap[i].n && IsPage(vm, d, v) && Walk(vm, d, v).Entry?
    ensures Overlap(kmap)
  {
    var v :| kmap[i].v <= v < kmap[i].v + kmap[i].n && IsPage(vm, d, v) && Walk(vm, d, v).Entry?;
    var j :| 0 <= j < i && InRange(kmap[j], v);
    assert InRange(kmap[i], v);
  }

  lemma MoreRanges(vm: VM, vm': VM, d: int, kmap: seq<Range>, i: int)
    requires Shape(vm) && Shape(vm') && 0 <= i < |kmap| && OnlyRanges(vm, d, kmap, i) && vm'.dir.Keys == vm.dir.Keys
    requires forall e, w :: IsPage(vm', e, w) && !(e == d && kmap[i].v <= w < kmap[i].v + kmap[i].n) ==>
      Walk(vm', e, w) == Walk(vm, e, w)
    ensures OnlyRanges(vm', d, kmap, i + 1)
  {
    hide Walk, Shape;
    forall v | IsPage(vm', d, v) && Walk(vm', d, v).Entry? ensures exists j :: 0 <= j < i + 1 && InRange(kmap[j], v) {
      if InRange(kmap[i], v) {
      } else {
        assert IsPage(vm, d, v);
        var j :| 0 <= j < i && InRange(kmap[j], v);
        assert 0 <= j < i + 1;
      }
    }
  }

  lemma StillNoUser(vm: VM, vm': VM, d: int)
    requires Shape(vm) && Shape(vm') && NoUser(vm, d) && vm'.dir.Keys == vm.dir.Keys
    requires forall e, w :: IsPage(vm, e, w) && (e != d || w < UPAGES) ==> Walk(vm', e, w) == Walk(vm, e, w)
    ensures NoUser(vm', d)
  {
    hide Walk, Shape;
    forall v | IsUser(vm', d, v) ensures Walk(vm', d, v).None? {
      assert IsPage(vm, d, v) && IsUser(vm, d, v);
    }
  }

  lemma NotMapped(vm: VM, to: map<int, (int, int)>, d: int, v: int)
    requires Shape(vm) && Tables(vm, to) && IsPage(vm, d, v)
    ensures Walk(vm, d, v).Entry? ==> TableAt(vm, d, v)
  {
  }

  /** Slots of a directory without a table: how many tables it may still need. */
  ghost function Slots(es: Entries): (n: nat)
    ensures n <= |es|
  {
    if es == [] then 0 else Slots(es[..|es| - 1]) + if es[|es| - 1].None? then 1 else 0
  }

  lemma {:induction false} SlotsSet(es: Entries, i: int, x: Entry)
    requires 0 <= i < |es| && es[i].None? && x.Entry?
    ensures Slots(es[i := x]) == Slots(es) - 1
    decreases |es|
  {
    var last := |es| - 1;
    assert es[i := x][..last] == if i < last then es[..last][i := x] else es[..last];
    if i < last {
      SlotsSet(es[..last], i, x);
    }
  }

  lemma {:induction false} SlotsAll(es: Entries)
    requires forall i :: 0 <= i < |es| ==> es[i].None?
    ensures Slots(es) == |es|
    decreases |es|
  {
    if es != [] {
      SlotsAll(es[..|es| - 1]);
    }
  }

  /** The slots of a directory that have tables. */
  ghost function Filled(es: Entries): set<int> {
    set i | 0 <= i < |es| && es[i].Entry?
  }

  lemma {:induction false} SlotsFilled(es: Entries)
    ensures Slots(es) + |Filled(es)| == |es|
    decreases |es|
  {
    if es != [] {
      var last := |es| - 1;
      SlotsFilled(es[..last]);
      FilledLast(es);
      hide Filled;
    }
  }

  lemma FilledLast(es: Entries)
    requires es != []
    ensures var last := |es| - 1;
      |Filled(es)| == |Filled(es[..last])| + if es[last].Entry? then 1 else 0
  {
    var last := |es| - 1;
    assert Filled(es) == Filled(es[..last]) + if es[last].Entry? then {last} else {};
  }

  lemma DirFilled(vm: VM, d: int)
    requires Shape(vm) && d in vm.dir
    ensures Slots(vm.dir[d]) + |Filled(vm.dir[d])| == NPTE
  {
    SlotsFilled(vm.dir[d]);
  }

  /** The slots that serve pages v to v + n. */
  function Span(v: int, n: int): set<int> {
    set j | v <= j < v + n :: j / NPTE
  }

  lemma SpanNone(filled: set<int>, v: int)
    ensures filled + Span(v, 0) == filled
  {
  }

  lemma FilledTabled(es0: Entries, es: Entries, v: int)
    requires Tabled(es0, es, v) && 0 <= v < NPTE * NPTE
    ensures Filled(es) == Filled(es0) + {v / NPTE}
  {
    forall i | 0 <= i < NPTE ensures es[i].Entry? <==> es0[i].Entry? || i == v / NPTE {
      assert i * NPTE / NPTE == i;
      assert Bare(es, i * NPTE) <==> Bare(es0, i * NPTE) && i != v / NPTE;
    }
  }

  lemma FilledNext(es0: Entries, es: Entries, filled: set<int>, v: int, k: int)
    requires Tabled(es0, es, v + k) && 0 <= v + k < NPTE * NPTE && 0 <= k && Filled(es0) == filled + Span(v, k)
    ensures Filled(es) == filled + Span(v, k + 1)
  {
    FilledTabled(es0, es, v + k);
    hide Filled, Tabled;
    assert Span(v, k + 1) == Span(v, k) + {(v + k) / NPTE};
  }

  lemma SpanMissing(vm: VM, d: int, filled: set<int>, r: Range, k: int)
    requires Shape(vm) && d in vm.dir && 0 <= k < r.n && Bare(vm.dir[d], r.v + k)
    requires Filled(vm.dir[d]) == filled + Span(r.v, k)
    ensures Filled(vm.dir[d]) < filled + Span(r.v, r.n)
  {
    var j := r.v + k;
    assert j / NPTE in Span(r.v, r.n) && j / NPTE !in Filled(vm.dir[d]);
  }

  /** The slots that serve the first n ranges: the tables that setupkvm() takes. */
  function Regions(kmap: seq<Range>, n: int): set<int>
    requires n <= |kmap|
    decreases n
  {
    if n <= 0 then {} else Regions(kmap, n - 1) + Span(kmap[n - 1].v, kmap[n - 1].n)
  }

  lemma RegionsNext(kmap: seq<Range>, i: int)
    requires 0 <= i < |kmap|
    ensures Regions(kmap, i + 1) == Regions(kmap, i) + Span(kmap[i].v, kmap[i].n)
  {
  }

  lemma {:induction false} RegionsGrow(kmap: seq<Range>, i: int, n: int)
    requires 0 <= i <= n <= |kmap|
    ensures Regions(kmap, i) <= Regions(kmap, n)
    decreases n - i
  {
    if i < n {
      RegionsGrow(kmap, i, n - 1);
    }
  }

  lemma NoneFilled(kmap: seq<Range>)
    ensures Filled(NoEntries()) == {} == Regions(kmap, 0)
  {
  }

  lemma RegionsMissing(vm: VM, d: int, kmap: seq<Range>, i: int)
    requires Shape(vm) && d in vm.dir && 0 <= i <= |kmap| && Filled(vm.dir[d]) < Regions(kmap, i)
    ensures NPTE - Slots(vm.dir[d]) < |Regions(kmap, |kmap|)|
  {
    hide Filled, Regions, Slots;
    DirFilled(vm, d);
    RegionsGrow(kmap, i, |kmap|);
    var all, some := Regions(kmap, |kmap|), Filled(vm.dir[d]);
    assert |all| == |some| + |all - some|;
    assert all - some != {};
  }

  /** Free pages beyond those that new tables of d could take. */
  ghost function Spare(free: seq<int>, vm: VM, d: int): int
    requires d in vm.dir
  {
    |free| - Slots(vm.dir[d])
  }

  lemma SpareTable(free: seq<int>, vm: VM, d: int, i: int, t: int, flags: int)
    requires Shape(vm) && IsPde(vm, d, i) && vm.dir[d][i].None? && free != []
    ensures Spare(free[1..], WithTable(vm, d, i, t, flags), d) == Spare(free, vm, d) && Slots(vm.dir[d]) >= 1
  {
    SlotsSet(vm.dir[d], i, Entry(t, flags));
  }

  lemma SlotHere(vm: VM, d: int, i: int)
    requires Shape(vm) && IsPde(vm, d, i) && vm.dir[d][i].None?
    ensures Slots(vm.dir[d]) >= 1
  {
    SlotsSet(vm.dir[d], i, Entry(0, 0));
  }

  lemma WithTableInv(vm: VM, to: map<int, (int, int)>, fo: map<int, (int, int)>, lost: set<int>, d: int, i: int,
                     t: int, flags: int)
    requires Inv(vm, to, fo, lost) && IsPde(vm, d, i) && Pde(vm, d, i).None? && t in lost
    requires flags == PTE_P + PTE_W + PTE_U
    ensures var vm' := WithTable(vm, d, i, t, flags);
      Inv(vm', to[t := (d, i)], fo, lost - {t}) && Used(vm', lost - {t}) == Used(vm, lost) && vm'.frame == vm.frame
        && vm'.dir.Keys == vm.dir.Keys
    ensures forall e, v :: IsPage(vm, e, v) ==> Walk(WithTable(vm, d, i, t, flags), e, v) == Walk(vm, e, v)
    ensures forall v :: IsPage(vm, d, v) && v / NPTE == i ==> HasTable(WithTable(vm, d, i, t, flags), d, v)
  {
    WithTableOk(vm, to, fo, d, i, t, flags);
    hide Walk, Tables, Frames;
  }

  // ---- how many pages a growing space needs

  /** The slot of page v has no table. */
  predicate Bare(es: Entries, v: int) {
    0 <= v / NPTE < |es| && es[v / NPTE].None?
  }

  /** The tables that mapping page v takes. */
  function TableCost(es: Entries, v: int): nat {
    if Bare(es, v) then 1 else 0
  }

  /** Page v has got its table, and no other slot has changed. */
  ghost predicate Tabled(es0: Entries, es: Entries, v: int) {
    && |es0| == |es| == NPTE
    && forall w :: Bare(es, w) <==> Bare(es0, w) && w / NPTE != v / NPTE
  }

  lemma TabledAlready(es: Entries, v: int)
    requires |es| == NPTE && 0 <= v < NPTE * NPTE && !Bare(es, v)
    ensures Tabled(es, es, v)
  {
  }

  lemma TabledNow(es: Entries, v: int, x: Entry)
    requires |es| == NPTE && 0 <= v < NPTE * NPTE && x.Entry?
    ensures Tabled(es, es[v / NPTE := x], v)
  {
  }

  /** Growing from page lo on, page v is the first to need its table. */
  predicate Opens(es: Entries, lo: int, v: int) {
    Bare(es, v) && (v == lo || v % NPTE == 0)
  }

  /** The pages and tables it takes to map pages lo to a. */
  function Need(es: Entries, lo: int, a: int): (n: nat)
    ensures a > lo ==> n >= a - lo
    decreases a - lo
  {
    if a <= lo then 0 else Need(es, lo, a - 1) + 1 + if Opens(es, lo, a - 1) then 1 else 0
  }

  /** With this many free pages the table of the last page is the one that is lacking. */
  predicate LastMissing(free: nat, es: Entries, lo: int, hi: int) {
    lo < hi && Opens(es, lo, hi - 1) && free == Need(es, lo, hi) - 1
  }

  /** The slots after pages lo to a have been mapped. */
  ghost predicate Opened(es0: Entries, es: Entries, lo: int, a: int) {
    && |es0| == |es| == NPTE
    && forall w :: a <= w ==> (Bare(es, w) <==> Bare(es0, w) && (lo < a ==> w / NPTE != (a - 1) / NPTE))
  }

  lemma OpenedNow(es0: Entries, es: Entries, lo: int, a: int)
    requires Opened(es0, es, lo, a) && lo <= a
    ensures Bare(es, a) <==> Opens(es0, lo, a)
  {
    SlotStarts(a);
  }

  lemma SlotStarts(a: int)
    ensures a / NPTE != (a - 1) / NPTE <==> a % NPTE == 0
  {
  }

  lemma OpenedStep(es0: Entries, es1: Entries, es: Entries, lo: int, a: int)
    requires Opened(es0, es1, lo, a) && Tabled(es1, es, a) && lo <= a
    ensures Opened(es0, es, lo, a + 1)
  {
    forall w | a + 1 <= w ensures Bare(es, w) <==> Bare(es0, w) && w / NPTE != a / NPTE {
      SameSlot(a, w);
    }
  }

  lemma SameSlot(a: int, w: int)
    requires a < w
    ensures w / NPTE == (a - 1) / NPTE ==> w / NPTE == a / NPTE
  {
  }

  lemma OpenedNone(vm: VM, d: int, lo: int)
    requires Shape(vm) && d in vm.dir
    ensures Opened(vm.dir[d], vm.dir[d], lo, lo) && Need(vm.dir[d], lo, lo) == 0
  {
  }

  lemma NeedNext(es: Entries, lo: int, a: int)
    requires lo <= a
    ensures Need(es, lo, a + 1) == Need(es, lo, a) + 1 + if Opens(es, lo, a) then 1 else 0
  {
  }

  lemma {:induction false} NeedGrows(es: Entries, lo: int, a: int, hi: int)
    requires lo <= a <= hi
    ensures Need(es, lo, a) + (hi - a) <= Need(es, lo, hi)
    decreases hi - a
  {
    if a < hi {
      NeedGrows(es, lo, a, hi - 1);
    }
  }

  /** The free pages run out between a page and its table at one page at most. */
  lemma MissingAt(es: Entries, lo: int, n: nat, a: int, x: int)
    requires lo <= a && LastMissing(n, es, lo, x)
    ensures n == Need(es, lo, x - 1) + 1
    ensures x <= a ==> n < Need(es, lo, a)
    ensures x > a ==> n > Need(es, lo, a)
  {
    NeedNext(es, lo, x - 1);
    if x <= a {
      NeedGrows(es, lo, x, a);
    } else {
      NeedGrows(es, lo, a, x - 1);
    }
  }

  // ---- how many pages a copy needs

  /** The directory and the kernel's tables, n pages and a table for every 1024 of them. */
  ghost function CopyCost(kmap: seq<Range>, n: nat): nat {
    1 + |Regions(kmap, |kmap|)| + n + (n + NPTE - 1) / NPTE
  }

  /** The first n pages of d are present. */
  ghost predicate Present(vm: VM, d: int, n: int)
    requires Shape(vm)
  {
    forall v :: 0 <= v < n ==> IsPage(vm, d, v) && Walk(vm, d, v).Entry?
  }

  lemma NotPresent(vm: VM, d: int, i: int, n: int)
    requires Shape(vm) && 0 <= i < n && IsPage(vm, d, i) && Walk(vm, d, i).None?
    ensures !Present(vm, d, n)
  {
  }

  lemma AllPresent(vm0: VM, vm: VM, d: int, c: int, n: int)
    requires Shape(vm0) && Shape(vm) && Copied(vm0, vm, d, c, n)
    ensures Present(vm0, d, n)
  {
    hide Walk, Shape;
    forall v | 0 <= v < n ensures IsPage(vm0, d, v) && Walk(vm0, d, v).Entry? {
      assert CopyOf(vm0, vm, d, c, v);
    }
  }

  lemma FrameThere(vm: VM, fo: map<int, (int, int)>, d: int, i: int)
    requires Shape(vm) && Frames(vm, fo) && IsUser(vm, d, i)
    ensures Walk(vm, d, i).Entry? ==> Walk(vm, d, i).page in vm.frame
  {
    hide Walk, Shape;
  }

  /** After i pages of a copy that started with free0 pages, for a directory es with the kernel's tables. */
  ghost predicate Paid(free0: nat, free: nat, es0: Entries, es: Entries, kmap: seq<Range>, i: int) {
    && free == free0 - 1 - |Regions(kmap, |kmap|)| - Need(es0, 0, i)
    && Opened(es0, es, 0, i)
    && (forall v :: 0 <= v < UPAGES ==> Bare(es0, v))
  }

  lemma SetupCost(free: nat, kmap: seq<Range>, n: nat)
    ensures free < 1 + |Regions(kmap, |kmap|)| ==> free < CopyCost(kmap, n)
  {
  }

  lemma {:induction false} KernelRegions(kmap: seq<Range>, n: int, i: int)
    requires 0 <= n <= |kmap| && i in Regions(kmap, n) && forall j :: 0 <= j < |kmap| ==> UPAGES <= kmap[j].v
    ensures UPAGES / NPTE <= i
    decreases n
  {
    if n > 0 && i in Regions(kmap, n - 1) {
      KernelRegions(kmap, n - 1, i);
    }
  }

  lemma NothingPaid(free0: nat, free: nat, vm: VM, c: int, kmap: seq<Range>)
    requires Shape(vm) && c in vm.dir && Filled(vm.dir[c]) == Regions(kmap, |kmap|)
    requires free == free0 - 1 - |Regions(kmap, |kmap|)| && forall j :: 0 <= j < |kmap| ==> UPAGES <= kmap[j].v
    ensures Paid(free0, free, vm.dir[c], vm.dir[c], kmap, 0)
  {
    hide Opened, Need, Regions, Bare, Filled;
    OpenedNone(vm, c, 0);
    forall v | 0 <= v < UPAGES ensures Bare(vm.dir[c], v) {
      UserBare(vm.dir[c], kmap, v);
    }
  }

  lemma UserBare(es: Entries, kmap: seq<Range>, v: int)
    requires |es| == NPTE && Filled(es) == Regions(kmap, |kmap|) && forall j :: 0 <= j < |kmap| ==> UPAGES <= kmap[j].v
    requires 0 <= v < UPAGES
    ensures Bare(es, v)
  {
    hide Regions;
    var i := v / NPTE;
    assert es[i].Entry? <==> i in Filled(es);
    if i in Filled(es) { KernelRegions(kmap, |kmap|, i); }
  }

  lemma PaysPage(free0: nat, free1: nat, free: nat, es0: Entries, es1: Entries, es: Entries, kmap: seq<Range>, i: int)
    requires Paid(free0, free1, es0, es1, kmap, i) && 0 <= i && Tabled(es1, es, i)
    requires free == free1 - 1 - TableCost(es1, i)
    ensures Paid(free0, free, es0, es, kmap, i + 1)
  {
    OpenedNow(es0, es1, 0, i);
    OpenedStep(es0, es1, es, 0, i);
    NeedNext(es0, 0, i);
    hide Opened, Need, Regions, Bare, Tabled;
  }

  /** Without tables below n, the need is n pages and a table for every 1024. */
  lemma {:induction false} NeedIs(es: Entries, n: nat)
    requires forall v :: 0 <= v < n ==> Bare(es, v)
    ensures Need(es, 0, n) == n + (n + NPTE - 1) / NPTE
  {
    if n > 0 {
      NeedIs(es, n - 1);
      assert Bare(es, n - 1);
    }
  }

  lemma AllPaid(free0: nat, free: nat, es0: Entries, es: Entries, kmap: seq<Range>, n: nat)
    requires Paid(free0, free, es0, es, kmap, n) && n <= UPAGES
    ensures free0 >= CopyCost(kmap, n)
  {
    hide Opened, Need, Regions, Bare;
    NeedIs(es0, n);
  }

  lemma CannotPay(free0: nat, free: nat, es0: Entries, es: Entries, kmap: seq<Range>, i: int, n: nat)
    requires Paid(free0, free, es0, es, kmap, i) && 0 <= i < n <= UPAGES && free < 1 + TableCost(es, i)
    ensures free0 < CopyCost(kmap, n)
  {
    OpenedNow(es0, es, 0, i);
    hide Opened, Need, Regions, Bare;
    NeedNext(es0, 0, i);
    NeedGrows(es0, 0, i + 1, n);
    NeedIs(es0, n);
  }

  /** allocuvm() gives up at page a, with pages up to m mapped. */
  lemma Fails(vm0: VM, vm: VM, lost0: set<int>, lost: set<int>, n: nat, d: int, oldsz: int, newsz: int, m: int, a: int)
    requires Shape(vm0) && Shape(vm) && d in vm0.dir && 0 <= oldsz <= newsz
    requires RoundUp(oldsz) <= m <= a < RoundUp(newsz) && Grown(vm0, vm, d, RoundUp(oldsz), RoundUp(oldsz))
    requires m == a ==> lost == lost0 && n == Need(vm0.dir[d], RoundUp(oldsz), a)
    requires m < a ==> m == a - 1 && n == Need(vm0.dir[d], RoundUp(oldsz), m) + 1
    requires m < a ==> Opens(vm0.dir[d], RoundUp(oldsz), m)
    requires m < a ==> exists p :: p !in lost0 && lost == lost0 + {p}
    ensures Grows(vm0, vm, n, d, oldsz, newsz, 0) && Loses(lost0, lost, vm0.dir[d], n, oldsz, newsz)
  {
    hide Shape, Grown, Need, Opens;
    var es, lo, hi := vm0.dir[d], RoundUp(oldsz), RoundUp(newsz);
    NeedGrows(es, lo, a, hi);
    NeedNext(es, lo, m);
    if m == a {
      forall x ensures !LastMissing(n, es, lo, x) {
        if LastMissing(n, es, lo, x) { MissingAt(es, lo, n, a, x); }
      }
    } else {
      assert LastMissing(n, es, lo, a);
      if LastMissing(n, es, lo, hi) { MissingAt(es, lo, n, a, hi); }
    }
  }

  /** allocuvm() comes to its end, with pages up to m mapped. */
  lemma Succeeds(vm0: VM, vm: VM, lost0: set<int>, lost: set<int>, n: nat, d: int, oldsz: int, newsz: int, m: int)
    requires Shape(vm0) && Shape(vm) && d in vm0.dir && 0 <= oldsz <= newsz
    requires RoundUp(oldsz) <= m <= RoundUp(newsz) && Grown(vm0, vm, d, RoundUp(oldsz), m)
    requires m == RoundUp(newsz) ==> lost == lost0 && n >= Need(vm0.dir[d], RoundUp(oldsz), m)
    requires m < RoundUp(newsz) ==> m == RoundUp(newsz) - 1 && Opens(vm0.dir[d], RoundUp(oldsz), m)
    requires m < RoundUp(newsz) ==> n == Need(vm0.dir[d], RoundUp(oldsz), m) + 1
    requires m < RoundUp(newsz) ==> exists p :: p !in lost0 && lost == lost0 + {p}
    ensures Grows(vm0, vm, n, d, oldsz, newsz, newsz) && Loses(lost0, lost, vm0.dir[d], n, oldsz, newsz)
  {
    hide Shape, Grown, Need, Opens;
    var es, lo, hi := vm0.dir[d], RoundUp(oldsz), RoundUp(newsz);
    NeedNext(es, lo, m);
    if m == hi {
      forall x | x <= hi ensures !LastMissing(n, es, lo, x) {
        if LastMissing(n, es, lo, x) { MissingAt(es, lo, n, hi, x); }
      }
    } else {
      assert LastMissing(n, es, lo, hi);
    }
  }

  /** A new directory with nothing mapped. */
  function WithDir(vm: VM, d: int): VM {
    vm.(dir := vm.dir[d := NoEntries()])
  }

  lemma WithDirOk(vm: VM, to: map<int, (int, int)>, fo: map<int, (int, int)>, lost: set<int>, d: int)
    requires Inv(vm, to, fo, lost) && d in lost
    ensures var vm' := WithDir(vm, d);
      Inv(vm', to, fo, lost - {d}) && Used(vm', lost - {d}) == Used(vm, lost) && NoUser(vm', d) && d !in vm.dir
    ensures forall e, v :: IsPage(vm, e, v) ==> Walk(WithDir(vm, d), e, v) == Walk(vm, e, v)
  {
    hide Tables, Frames, Walk, Shape;
    var vm' := WithDir(vm, d);
    WithDirMap(vm, d);
    WithDirTables(vm, to, d);
    WithDirFrames(vm, fo, d);
  }

  lemma WithDirMap(vm: VM, d: int)
    requires Shape(vm) && d !in vm.dir
    ensures Shape(WithDir(vm, d)) && NoUser(WithDir(vm, d), d)
    ensures forall e, v :: IsPage(vm, e, v) ==> Walk(WithDir(vm, d), e, v) == Walk(vm, e, v)
  {
  }

  lemma WithDirTables(vm: VM, to: map<int, (int, int)>, d: int)
    requires Shape(vm) && Tables(vm, to) && d !in vm.dir && Shape(WithDir(vm, d))
    ensures Tables(WithDir(vm, d), to)
  {
    var vm' := WithDir(vm, d);
    assert forall i :: 0 <= i < NPTE ==> Pde(vm', d, i).None?;
    assert forall e, k :: IsPde(vm, e, k) ==> Pde(vm', e, k) == Pde(vm, e, k);
    hide Pde, Shape, NoEntries;
  }

  lemma WithDirFrames(vm: VM, fo: map<int, (int, int)>, d: int)
    requires Shape(vm) && Frames(vm, fo) && d !in vm.dir && Shape(WithDir(vm, d)) && NoUser(WithDir(vm, d), d)
    requires forall e, v :: IsPage(vm, e, v) ==> Walk(WithDir(vm, d), e, v) == Walk(vm, e, v)
    ensures Frames(WithDir(vm, d), fo)
  {
    hide Walk, Shape, NoEntries;
  }

  datatype Mapping = Mapped | NoMemory | Remap

  datatype Copying = CopiedOne | NoPage | Absent

  /** A range of setupkvm(): n pages from page v on, at physical page pa on. */
  datatype Range = Range(v: int, n: int, pa: int, flags: int)

  lemma DirSize(vm: VM, d: int)
    requires Shape(vm) && d in vm.dir
    ensures |vm.dir[d]| == NPTE
  {
  }

  lemma WithoutTableIs(vm: VM, d: int, i: int)
    requires Shape(vm) && IsPde(vm, d, i) && Pde(vm, d, i).Entry?
    ensures WithoutTable(vm, d, i).table == (map k | k in vm.table && k != Pde(vm, d, i).page :: vm.table[k])
    ensures WithoutTable(vm, d, i).frame == vm.frame
  {
  }

  /** From page 0 on nothing is missed, so no user page of d is left. */
  lemma WholeUser(vm0: VM, fo0: map<int, (int, int)>, vm: VM, fo: map<int, (int, int)>, d: int)
    requires Shape(vm0) && Shape(vm) && d in vm0.dir && Frames(vm0, fo0)
    requires Unmapped(vm0, fo0, vm, fo, d, Visits(vm0, d, RoundUp(0), RoundUp(UPAGES * PGSIZE)))
    ensures NoUser(vm, d) && vm.dir == vm0.dir && vm.table.Keys == vm0.table.Keys && fo0.Keys == vm0.frame.Keys
    ensures forall e, v :: IsPage(vm, e, v) && e != d ==> Walk(vm, e, v) == Walk(vm0, e, v)
    ensures forall f :: f in vm.frame <==> f in vm0.frame && fo0[f].0 != d
    ensures forall f :: f in vm.frame ==> vm.frame[f] == vm0.frame[f]
  {
    hide Walk, Missed, Visits, Shape;
    assert RoundUp(0) == 0 && RoundUp(UPAGES * PGSIZE) == UPAGES;
    forall v ensures !Missed(vm0, d, 0, UPAGES, v) {
      MissedPresent(vm0, d, 0, UPAGES, v);
      if IsPage(vm0, d, v) { NothingMissed(vm0, d, 0, UPAGES, v); }
    }
    DeallocExactIff(vm0, fo0, vm, fo, d, 0, UPAGES);
    forall v | IsUser(vm, d, v) ensures Walk(vm, d, v).None? {
      assert IsPage(vm, d, v);
    }
    forall f | f in vm0.frame && fo0[f].0 == d ensures f !in vm.frame {
      FrameVisited(vm0, fo0, vm, fo, d, f);
    }
  }

  lemma FrameVisited(vm0: VM, fo0: map<int, (int, int)>, vm: VM, fo: map<int, (int, int)>, d: int, f: int)
    requires Shape(vm0) && Shape(vm) && d in vm0.dir && Frames(vm0, fo0)
    requires Unmapped(vm0, fo0, vm, fo, d, Visits(vm0, d, 0, UPAGES))
    requires f in vm0.frame && fo0[f].0 == d && forall v :: !Missed(vm0, d, 0, UPAGES, v)
    ensures f !in vm.frame
  {
    hide Walk, Missed, Visits, Shape;
    var v := fo0[f].1;
    assert IsUser(vm0, d, v) && Walk(vm0, d, v).Entry?;
    MissedIff(vm0, d, 0, UPAGES, v);
  }

  lemma DroppedAll(vm0: VM, to0: map<int, (int, int)>, w: VM, to: map<int, (int, int)>, d: int)
    requires Shape(vm0) && Shape(w) && d in vm0.dir && Dropped(vm0, to0, w, to, d, NPTE) && Tables(vm0, to0)
    ensures d in w.dir && (forall i :: 0 <= i < NPTE ==> w.dir[d][i].None?) && |w.dir[d]| == NPTE
    ensures w.frame == vm0.frame && w.dir.Keys == vm0.dir.Keys
    ensures forall e :: e in vm0.dir && e != d ==> w.dir[e] == vm0.dir[e]
    ensures forall t :: t in to <==> t in to0 && to0[t].0 != d
  {
    forall t | t in to0 ensures to0[t].1 < NPTE {
      assert IsPde(vm0, to0[t].0, to0[t].1);
    }
    hide Tables;
  }

  lemma SameWithoutDir(vm: VM, w: VM, vm1: VM, d: int)
    requires vm == VM(vm1.dir, w.table, w.frame) && w.dir.Keys == vm1.dir.Keys
    requires forall e :: e in vm1.dir && e != d ==> w.dir[e] == vm1.dir[e]
    ensures WithoutDir(vm, d) == WithoutDir(w, d)
  {
  }

  /** The other spaces keep their mappings. */
  lemma OthersKept(vm0: VM, to0: map<int, (int, int)>, w: VM, to: map<int, (int, int)>, d: int, e: int, v: int)
    requires Shape(vm0) && Shape(w) && d in vm0.dir && Dropped(vm0, to0, w, to, d, NPTE) && Tables(vm0, to0)
    requires Tables(w, to)
    requires IsPage(vm0, e, v) && e != d
    ensures IsPage(w, e, v) && Walk(w, e, v) == Walk(vm0, e, v)
  {
    var i := v / NPTE;
    assert IsPde(vm0, e, i) && Pde(vm0, e, i) == vm0.dir[e][i] == w.dir[e][i];
  }

  lemma FreedSpace(vm0: VM, vm1: VM, to0: map<int, (int, int)>, w: VM, to: map<int, (int, int)>, vm: VM, d: int)
    requires Shape(vm0) && Shape(vm1) && Shape(w) && Shape(vm) && d in vm1.dir && Tables(vm1, to0) && Tables(w, to)
    requires vm1.dir == vm0.dir
    requires Dropped(vm1, to0, w, to, d, NPTE) && vm == WithoutDir(w, d) && vm.dir.Keys == w.dir.Keys - {d}
    requires w.dir.Keys == vm1.dir.Keys
    requires forall e, v :: IsPage(vm1, e, v) && e != d ==> Walk(vm1, e, v) == Walk(vm0, e, v)
    requires forall e, v :: IsPage(w, e, v) && e != d ==> Walk(vm, e, v) == Walk(w, e, v)
    ensures forall e, v :: IsPage(vm, e, v) ==> Walk(vm, e, v) == Walk(vm0, e, v)
  {
    hide Walk, Shape, Tables, Dropped;
    forall e, v | IsPage(vm, e, v) ensures Walk(vm, e, v) == Walk(vm0, e, v) {
      assert e in vm.dir.Keys && e != d;
      OthersKept(vm1, to0, w, to, d, e, v);
    }
  }

  lemma TablesKeys(vm: VM, to: map<int, (int, int)>)
    requires Shape(vm) && Tables(vm, to)
    ensures to.Keys == vm.table.Keys
  {
  }

  lemma PdeTable(vm: VM, to: map<int, (int, int)>, d: int, v: int)
    requires Shape(vm) && Tables(vm, to) && IsPage(vm, d, v)
    ensures vm.dir[d][v / NPTE].Entry? <==> HasTable(vm, d, v)
  {
    assert IsPde(vm, d, v / NPTE) && Pde(vm, d, v / NPTE) == vm.dir[d][v / NPTE];
  }

  lemma InUse(vm: VM, lost: set<int>, f: int)
    ensures f in vm.frame || f in vm.table || f in vm.dir || f in lost <==> f in Used(vm, lost)
  {
  }

  lemma SetHas(free: seq<int>, p: int)
    ensures p in Set(free) <==> p in free
  {
  }

  lemma FramesKeys(vm: VM, fo: map<int, (int, int)>)
    requires Shape(vm) && Frames(vm, fo)
    ensures fo.Keys == vm.frame.Keys
  {
  }

  lemma AfterUnmap(vm0: VM, fo0: map<int, (int, int)>, vm: VM, to: map<int, (int, int)>, fo: map<int, (int, int)>,
                   lost: set<int>,
                   vm': VM, fo': map<int, (int, int)>, d: int, S: set<int>, a: int)
    requires Shape(vm0) && Frames(vm0, fo0) && Inv(vm, to, fo, lost) && IsUser(vm, d, a) && TableAt(vm, d, a)
    requires Unmapped(vm0, fo0, vm, fo, d, S) && a !in S
    requires Walk(vm, d, a).None? ==> vm' == vm && fo' == fo
    requires Walk(vm, d, a).Entry? ==> vm' == WithoutPage(vm, d, a) && fo' == Minus(fo, Walk(vm, d, a).page)
    ensures Shape(vm') && Unmapped(vm0, fo0, vm', fo', d, S + {a})
  {
    var f := Walk(vm, d, a);
    assert IsPage(vm0, d, a);
    if f.None? {
      UnmappedSkip(vm0, fo0, vm, fo, d, S, a);
    } else {
      WithoutPageOk(vm, to, fo, lost, d, a);
      WithEntrySame(vm, d, a, None);
      UnmappedStep(vm0, fo0, vm, fo, vm', d, S, a, f.page);
    }
    hide Walk, Shape, Frames, Tables;
  }
}
