/** Growing and shrinking a process: growproc of proc.c and the sbrk system call. */
module Growth {
  import opened Params
  import opened Vm

  const KERNBASE: int := UPAGES * PGSIZE

  /** How allocuvm() ends: all pages mapped, success with the last one unmapped, or failure. */
  datatype Supply = Whole | AllButLast | Nothing

  function SupplyFor(free: nat, es: Entries, sz: int, newsz: int): Supply
    requires 0 <= sz <= newsz
  {
    if free >= Need(es, RoundUp(sz), RoundUp(newsz)) then Whole
    else if LastMissing(free, es, RoundUp(sz), RoundUp(newsz)) then AllButLast
    else Nothing
  }

  /** After sbrk(): the size of the process, the pages below it that are not mapped, and the answer, -1 for an error. */
  datatype Brk = Brk(sz: int, lost: set<int>, addr: int)

  function Below(n: nat): (r: set<int>)
    ensures forall v :: v in r <==> 0 <= v < n
  {
    if n == 0 then {} else Below(n - 1) + {n - 1}
  }

  /** The pages of sz bytes. */
  function PagesOf(sz: int): (r: set<int>)
    requires 0 <= sz
    ensures forall v :: v in r <==> 0 <= v && v * PGSIZE < sz
  {
    Below(RoundUp(sz))
  }

  /** sbrk(n) for a process of sz bytes without the pages `lost`; sizes are 32-bit unsigned numbers. */
  function Sbrk(sz: int, lost: set<int>, n: int, supply: Supply): Brk
    requires 0 <= sz
  {
    var newsz := (sz + n) % UINT;
    if n > 0 then
      if newsz >= KERNBASE || supply == Nothing then Brk(sz, lost, -1)
      else if supply == AllButLast then Brk(newsz, lost + {RoundUp(newsz) - 1}, sz)
      else Brk(newsz, lost, sz)
    else if n < 0 then
      if newsz >= sz then Brk(sz, lost, if sz == 0 then -1 else sz)
      else if newsz == 0 then Brk(sz, PagesOf(sz), -1)
      else Brk(newsz, lost * PagesOf(newsz), sz)
    else Brk(sz, lost, sz)
  }

  /** All of the bytes from lo to hi are mapped in a process of sz bytes without the pages `lost`. */
  ghost predicate Mapped(sz: int, lost: set<int>, lo: int, hi: int) {
    hi <= sz && forall v :: v in lost ==> (v + 1) * PGSIZE <= lo || hi <= v * PGSIZE
  }

  /** A growing call adds n bytes or nothing, and loses a page in one case only. */
  lemma SbrkGrows(sz: int, lost: set<int>, n: int, supply: Supply)
    requires 0 <= sz < KERNBASE && 0 < n < KERNBASE
    ensures var b := Sbrk(sz, lost, n, supply);
      && (b.addr == -1 <==> sz + n >= KERNBASE || supply == Nothing) && (b.addr != -1 ==> b.addr == sz)
      && b.sz == (if b.addr == -1 then sz else sz + n)
      && b.lost == (if b.addr != -1 && supply == AllButLast then lost + {RoundUp(sz + n) - 1} else lost)
  {
    Target(sz, n);
    hide PagesOf, RoundUp;
  }

  /** The new bytes from lo on are all mapped exactly if every page was found and the first was not lost before. */
  lemma SbrkMapsIff(sz: int, lost: set<int>, n: int, supply: Supply, lo: int)
    requires 0 <= sz < KERNBASE && 0 < n < KERNBASE && lost <= PagesOf(sz) && sz <= lo < sz + n
    ensures var b := Sbrk(sz, lost, n, supply);
      b.addr != -1 ==> (Mapped(b.sz, b.lost, lo, sz + n) <==> supply == Whole && lo / PGSIZE !in lost)
  {
    SbrkGrows(sz, lost, n, supply);
    hide Sbrk;
    var b := Sbrk(sz, lost, n, supply);
    if b.addr != -1 {
      assert b.sz == sz + n;
      assert supply == AllButLast ==> RoundUp(sz + n) - 1 in b.lost;
      assert lo / PGSIZE in lost ==> lo / PGSIZE in b.lost;
    }
  }

  /** The answer tells n more bytes, all mapped, exactly if the call succeeds with every page. */
  lemma SbrkAddsIff(sz: int, lost: set<int>, n: int, supply: Supply)
    requires 0 <= sz < KERNBASE && 0 < n < KERNBASE && lost <= PagesOf(sz)
    ensures var b := Sbrk(sz, lost, n, supply);
      b.addr != -1 && Mapped(b.sz, b.lost, b.addr, b.addr + n) <==>
      sz + n < KERNBASE && supply == Whole && sz / PGSIZE !in lost
  {
    SbrkGrows(sz, lost, n, supply);
    SbrkMapsIff(sz, lost, n, supply, sz);
    hide Sbrk, Mapped;
  }

  ghost predicate MappedByte(sz: int, lost: set<int>, x: int) {
    0 <= x < sz && Mapped(sz, lost, x, x + 1)
  }

  /** Some mapped byte is taken away exactly if n is negative, no larger than the process, and one lies there. */
  lemma SbrkShrinksIff(sz: int, lost: set<int>, n: int, supply: Supply)
    requires 0 <= sz < KERNBASE && -KERNBASE <= n < KERNBASE && lost <= PagesOf(sz)
    requires n > 0 && supply == AllButLast ==> RoundUp(sz) < RoundUp(sz + n)
    ensures var b := Sbrk(sz, lost, n, supply);
      (exists x :: MappedByte(sz, lost, x) && !MappedByte(b.sz, b.lost, x)) <==>
      -sz <= n < 0 && exists x :: sz + n <= x && MappedByte(sz, lost, x)
  {
    hide Sbrk, MappedByte;
    var b := Sbrk(sz, lost, n, supply);
    forall x | MappedByte(sz, lost, x)
      ensures MappedByte(b.sz, b.lost, x) <==> !(-sz <= n < 0 && sz + n <= x)
    {
      if n > 0 {
        GrowsByte(sz, lost, n, supply, x);
      } else {
        ShrinksByte(sz, lost, n, supply, x);
      }
    }
  }

  lemma GrowsByte(sz: int, lost: set<int>, n: int, supply: Supply, x: int)
    requires 0 <= sz < KERNBASE && 0 < n < KERNBASE && MappedByte(sz, lost, x)
    requires supply == AllButLast ==> RoundUp(sz) < RoundUp(sz + n)
    ensures MappedByte(Sbrk(sz, lost, n, supply).sz, Sbrk(sz, lost, n, supply).lost, x)
  {
    SbrkGrows(sz, lost, n, supply);
    hide Sbrk;
  }

  lemma ShrinksByte(sz: int, lost: set<int>, n: int, supply: Supply, x: int)
    requires 0 <= sz < KERNBASE && -KERNBASE <= n <= 0 && MappedByte(sz, lost, x)
    ensures MappedByte(Sbrk(sz, lost, n, supply).sz, Sbrk(sz, lost, n, supply).lost, x) <==>
      !(-sz <= n < 0 && sz + n <= x)
  {
    Target(sz, n);
    if n + sz == 0 && n < 0 {
      assert x / PGSIZE in PagesOf(sz);
    }
  }

  /** The lost pages are pages of the process, before and after. */
  lemma SbrkLost(sz: int, lost: set<int>, n: int, supply: Supply)
    requires 0 <= sz < KERNBASE && -KERNBASE <= n < KERNBASE && lost <= PagesOf(sz)
    ensures var b := Sbrk(sz, lost, n, supply);
      0 <= b.sz < KERNBASE && b.lost <= PagesOf(b.sz)
  {
  }

  /** Exactly the pages of the first sz bytes are present, but for those in `lost`. */
  ghost predicate Image(vm: VM, d: int, sz: int, lost: set<int>) {
    && Shape(vm) && d in vm.dir
    && forall v :: IsUser(vm, d, v) ==> (Walk(vm, d, v).Entry? <==> v * PGSIZE < sz && v !in lost)
  }

  /** Every space without a page behind its end is an image. */
  lemma SomeImage(vm: VM, d: int, sz: int) returns (lost: set<int>)
    requires Shape(vm) && d in vm.dir && 0 <= sz <= KERNBASE
    requires forall v :: IsUser(vm, d, v) && Walk(vm, d, v).Entry? ==> v * PGSIZE < sz
    ensures Image(vm, d, sz, lost) && lost <= PagesOf(sz)
  {
    hide Walk, Shape;
    lost := set v | 0 <= v < RoundUp(sz) && IsUser(vm, d, v) && Walk(vm, d, v).None?;
    forall v | IsUser(vm, d, v) ensures Walk(vm, d, v).Entry? <==> v * PGSIZE < sz && v !in lost {
      PageOf(v, sz);
    }
  }

  /** A new space is the image of no bytes, and a copy is the image of the size it was copied with. */
  lemma SetupImage(vm: VM, d: int)
    requires Shape(vm) && d in vm.dir && NoUser(vm, d)
    ensures Image(vm, d, 0, {})
  {
    hide Walk, Shape;
  }

  lemma CopyImage(vm0: VM, vm: VM, d: int, c: int, sz: int)
    requires Shape(vm0) && Shape(vm) && 0 <= sz <= KERNBASE && Copied(vm0, vm, d, c, RoundUp(sz))
    ensures Image(vm, c, sz, {})
  {
    hide Walk, Shape, Kept;
    forall v | IsUser(vm, c, v) ensures Walk(vm, c, v).Entry? <==> v * PGSIZE < sz {
      PageOf(v, sz);
      if v < RoundUp(sz) { assert CopyOf(vm0, vm, d, c, v); }
    }
  }

  lemma PageOf(v: int, sz: int)
    requires 0 <= sz
    ensures v < RoundUp(sz) <==> v * PGSIZE < sz
  {
  }

  /** No page of an image is jumped over when its end is given up from a present page or from a region's start on. */
  lemma ImageNothingMissed(vm: VM, d: int, sz: int, lost: set<int>, lo: int, hi: int)
    requires Image(vm, d, sz, lost) && 0 <= sz <= KERNBASE && 0 <= lo <= hi <= UPAGES && (lo % NPTE == 0 || lo !in lost)
    ensures forall v :: !Missed(vm, d, lo, hi, v)
  {
    hide Walk, Shape, Missed;
    forall v ensures !Missed(vm, d, lo, hi, v) {
      MissedPresent(vm, d, lo, hi, v);
      if IsUser(vm, d, v) && lo <= v {
        assert IsUser(vm, d, lo) && IsPage(vm, d, lo);
        NothingMissed(vm, d, lo, hi, v);
      }
    }
  }

  lemma ImageNone(vm: VM, d: int, sz: int, lost: set<int>, newsz: int)
    requires Image(vm, d, sz, lost) && 0 <= sz <= newsz
    ensures NoneIn(vm, d, RoundUp(sz), RoundUp(newsz))
  {
    hide Walk, Shape;
    forall v | IsUser(vm, d, v) && RoundUp(sz) <= v ensures Walk(vm, d, v).None? {
      PageOf(v, sz);
    }
  }

  /** Pages up to m have been added to the image. */
  lemma ImageGrown(vm0: VM, vm: VM, d: int, sz: int, lost: set<int>, m: int, newsz: int, lost': set<int>)
    requires 0 <= sz <= newsz && Image(vm0, d, sz, lost) && lost <= PagesOf(sz) && Shape(vm)
    requires Grown(vm0, vm, d, RoundUp(sz), m) && m <= RoundUp(newsz)
    requires forall v :: v in lost' <==> v in lost || (m <= v < RoundUp(newsz) && RoundUp(sz) <= v)
    ensures Image(vm, d, newsz, lost')
  {
    hide Walk, Shape;
    forall v | IsUser(vm, d, v) ensures Walk(vm, d, v).Entry? <==> v * PGSIZE < newsz && v !in lost' {
      PageOf(v, sz);
      PageOf(v, newsz);
      if RoundUp(sz) <= v < m { assert NewPage(vm0, vm, d, v); }
    }
  }

  lemma RoundsUp(sz: int, newsz: int)
    requires 0 <= sz <= newsz
    ensures RoundUp(sz) <= RoundUp(newsz)
  {
  }

  /** What allocuvm() leaves is the image that sbrk() tells. */
  lemma AllocImage(vm0: VM, vm: VM, free: nat, d: int, sz: int, lost: set<int>, newsz: int, r: int)
    requires Image(vm0, d, sz, lost) && Shape(vm) && 0 <= sz < newsz < KERNBASE && lost <= PagesOf(sz)
    requires Grows(vm0, vm, free, d, sz, newsz, r)
    ensures var b := Sbrk(sz, lost, newsz - sz, SupplyFor(free, vm0.dir[d], sz, newsz));
      Image(vm, d, b.sz, b.lost) && (r == 0 <==> b.addr == -1) && (r != 0 ==> r == b.sz)
  {
    hide Walk, Shape, Image, Grown, Need, LastMissing, RoundUp, PagesOf;
    InImage(vm0, d, sz, lost);
    RoundsUp(sz, newsz);
    var es, lo, hi := vm0.dir[d], RoundUp(sz), RoundUp(newsz);
    if free >= Need(es, lo, hi) {
      ImageGrown(vm0, vm, d, sz, lost, hi, newsz, lost);
    } else if LastMissing(free, es, lo, hi) {
      LastBehind(free, es, lo, hi);
      ImageGrown(vm0, vm, d, sz, lost, hi - 1, newsz, lost + {hi - 1});
    } else {
      ImageGrown(vm0, vm, d, sz, lost, lo, sz, lost);
    }
  }

  lemma LastBehind(free: nat, es: Entries, lo: int, hi: int)
    requires LastMissing(free, es, lo, hi)
    ensures lo < hi
  {
  }

  /** deallocuvm() leaves the image of the smaller size exactly if its stride jumped over no page. */
  lemma DeallocImageIff(vm0: VM, fo0: map<int, (int, int)>, vm: VM, fo: map<int, (int, int)>, d: int, sz: int,
                        lost: set<int>, newsz: int)
    requires Image(vm0, d, sz, lost) && Shape(vm) && 0 <= newsz < sz <= KERNBASE && d in vm.dir
    requires Unmapped(vm0, fo0, vm, fo, d, Visits(vm0, d, RoundUp(newsz), RoundUp(sz)))
    ensures Image(vm, d, newsz, lost * PagesOf(newsz)) <==>
      forall v :: !Missed(vm0, d, RoundUp(newsz), RoundUp(sz), v)
  {
    hide Walk, Shape, Visits, Missed;
    var lo, hi := RoundUp(newsz), RoundUp(sz);
    RoundsUp(newsz, sz);
    DeallocExactIff(vm0, fo0, vm, fo, d, lo, hi);
    forall v | IsUser(vm, d, v)
      ensures IsUser(vm0, d, v) && IsPage(vm0, d, v) && IsPage(vm, d, v)
      ensures v < lo ==> (Walk(vm, d, v).Entry? <==> v * PGSIZE < newsz && v !in lost * PagesOf(newsz))
      ensures hi <= v ==> Walk(vm, d, v).None? && newsz <= v * PGSIZE
      ensures lo <= v ==> newsz <= v * PGSIZE
    {
      PageOf(v, sz);
      PageOf(v, newsz);
    }
    if Image(vm, d, newsz, lost * PagesOf(newsz)) {
      forall v | IsPage(vm, d, v) && lo <= v < hi ensures Walk(vm, d, v).None? {
        assert IsUser(vm, d, v);
      }
    }
  }

  /** Giving up everything leaves a size and no page. */
  lemma EmptiedImage(vm: VM, d: int, sz: int)
    requires 0 <= sz && Image(vm, d, 0, {})
    ensures Image(vm, d, sz, PagesOf(sz))
  {
    hide Walk, Shape;
    forall v | IsUser(vm, d, v) ensures Walk(vm, d, v).None? && (v * PGSIZE < sz ==> v in PagesOf(sz)) {
      PageOf(v, sz);
    }
  }

  /** The shrinking call of deallocuvm() misses no page. */
  ghost predicate Clears(vm: VM, d: int, newsz: int, sz: int)
    requires Shape(vm) && 0 <= newsz && 0 <= sz
  {
    forall v :: !Missed(vm, d, RoundUp(newsz), RoundUp(sz), v)
  }

  /**
    growproc() on the image of a process, with whatever pages it has lost: it succeeds, sets the
    size and leaves the pages that Sbrk says; when it shrinks, exactly if its stride misses none.
   */
  method Growproc(k: Kernel, d: int, sz: int, lost: set<int>, n: int) returns (ok: bool, newsz: int)
    requires k.Valid() && 0 <= sz < KERNBASE && -KERNBASE <= n < KERNBASE && Image(k.vm, d, sz, lost)
    requires lost <= PagesOf(sz)
    modifies k
    ensures k.Valid() && k.Pages() == old(k.Pages()) && old(Shape(k.vm))
    ensures var b := Sbrk(sz, lost, n, if n > 0 then SupplyFor(|old(k.free)|, old(k.vm).dir[d], sz, sz + n) else Whole);
      (ok <==> b.addr != -1) && newsz == b.sz
        && (Image(k.vm, d, b.sz, b.lost) <==> (-sz <= n < 0 ==> Clears(old(k.vm), d, sz + n, sz)))
  {
    hide Walk, Shape, Image, Grows, NoneIn, Unmapped, Visits, Loses, Tables, Frames, Apart, Accounts, IsFreeList;
    hide SupplyFor, RoundUp, Used, Set, Clears, PagesOf;
    ghost var vm0, fo0 := k.vm, k.fo;
    InImage(vm0, d, sz, lost);
    var r, panic;
    var target := (sz + n) % UINT;
    Target(sz, n);
    if n > 0 {
      if sz + n < KERNBASE { ImageNone(vm0, d, sz, lost, sz + n); }
      r, panic := k.AllocUvm(d, sz, target);
      if sz + n < KERNBASE { AllocImage(vm0, k.vm, |old(k.free)|, d, sz, lost, sz + n, r); }
      if r == 0 {
        return false, sz;
      }
    } else if n < 0 {
      r, panic := k.DeallocUvm(d, sz, target);
      if target < sz { ShrunkImage(vm0, fo0, k.vm, k.fo, d, sz, lost, target); }
      if r == 0 {
        return false, sz;
      }
    } else {
      r := sz;
    }
    return true, r;
  }

  lemma ShrunkImage(vm0: VM, fo0: map<int, (int, int)>, vm: VM, fo: map<int, (int, int)>, d: int, sz: int,
                    lost: set<int>, newsz: int)
    requires Image(vm0, d, sz, lost) && Shape(vm) && 0 <= newsz < sz <= KERNBASE && lost <= PagesOf(sz)
    requires Unmapped(vm0, fo0, vm, fo, d, Visits(vm0, d, RoundUp(newsz), RoundUp(sz)))
    ensures newsz > 0 ==> (Image(vm, d, newsz, lost * PagesOf(newsz)) <==> Clears(vm0, d, newsz, sz))
    ensures newsz == 0 ==> Image(vm, d, sz, PagesOf(sz)) && Clears(vm0, d, newsz, sz)
  {
    hide Walk, Shape, Visits, Missed;
    DeallocImageIff(vm0, fo0, vm, fo, d, sz, lost, newsz);
    if newsz == 0 {
      ImageNothingMissed(vm0, d, sz, lost, 0, RoundUp(sz));
      assert lost * PagesOf(0) == {};
      EmptiedImage(vm, d, sz);
    }
  }

  /** copyuvm() of a process finds all its pages exactly if none was lost; else it panics or runs out of memory. */
  lemma PresentIff(vm: VM, d: int, sz: int, lost: set<int>)
    requires Image(vm, d, sz, lost) && 0 <= sz <= KERNBASE && lost <= PagesOf(sz)
    ensures Present(vm, d, RoundUp(sz)) <==> lost == {}
  {
    hide Walk, Shape, PagesOf;
    forall v | 0 <= v < RoundUp(sz) ensures IsUser(vm, d, v) && IsPage(vm, d, v) && v * PGSIZE < sz {
      PageOf(v, sz);
    }
    forall v | v in lost ensures 0 <= v < RoundUp(sz) && IsUser(vm, d, v) && Walk(vm, d, v).None? {
      PageOf(v, sz);
    }
  }

  /** With one page free, sbrk(4096) at a region without a table loses that page, as often as it is called. */
  lemma OnePageLost(es: Entries, sz: int)
    requires 0 <= sz && sz % PGSIZE == 0 && Bare(es, sz / PGSIZE)
    ensures SupplyFor(1, es, sz, sz + PGSIZE) == AllButLast
  {
    var lo := sz / PGSIZE;
    assert RoundUp(sz) == lo && RoundUp(sz + PGSIZE) == lo + 1;
    NeedNext(es, lo, lo);
    assert Need(es, lo, lo) == 0;
  }

  /** A space that has lost the 1024 pages of its second region: page 2048 is missed when it shrinks to page 1500. */
  lemma LostRegionMissed(vm: VM)
    requires vm.dir == map[7 := NoEntries()[0 := Entry(8, 7)][2 := Entry(9, 7)]]
    requires vm.table == map[8 := seq(NPTE, i => Entry(10 + i, 7)), 9 := NoEntries()[0 := Entry(3000, 7)]]
    ensures Image(vm, 7, 2049 * PGSIZE, Below(2048) - Below(1024)) && !Clears(vm, 7, 1500 * PGSIZE, 2049 * PGSIZE)
  {
    var es, t, u := vm.dir[7], vm.table[8], vm.table[9];
    assert Shape(vm);
    assert Walk(vm, 7, 2048) == Entry(3000, 7) && !TableAt(vm, 7, 1500);
    assert FirstTable(vm, 7, 2524, 2049) == 2048;
    assert Missed(vm, 7, 1500, 2049, 2048);
    assert RoundUp(1500 * PGSIZE) == 1500 && RoundUp(2049 * PGSIZE) == 2049;
    hide Missed, FirstTable, NoEntries;
    forall v | IsUser(vm, 7, v)
      ensures Walk(vm, 7, v).Entry? <==> v * PGSIZE < 2049 * PGSIZE && v !in Below(2048) - Below(1024)
    {
      assert v / NPTE == 0 || v / NPTE == 1 || v / NPTE >= 2;
    }
  }

  lemma Target(sz: int, n: int)
    requires 0 <= sz < KERNBASE && -KERNBASE <= n < KERNBASE
    ensures (sz + n) % UINT == if 0 <= sz + n then sz + n else sz + n + UINT
  {
  }

  lemma InImage(vm: VM, d: int, sz: int, lost: set<int>)
    requires Image(vm, d, sz, lost)
    ensures d in vm.dir && Shape(vm)
  {
  }
}
