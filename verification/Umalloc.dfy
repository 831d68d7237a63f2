/**
  The user-level allocator of umalloc.c (section 8.7 of The C Programming Language, 2nd
  edition): one circular free list, kept in address order, whose blocks are coalesced.

  Addresses count header-sized units.  The header of a block sits at its address; `ptr` and
  `size` are the two header words, as maps from addresses.
 */
module Umalloc {
  import opened Params
  import Vm
  import opened Growth

  datatype Block = Block(at: int, len: int)

  // ---------------------------------------------------------------- the free list as a value

  /**
    The blocks from `base` upwards.  `base` has no units; every other block has some, and a gap
    of at least one unit separates neighbours, so no two free blocks could be merged.
   */
  ghost predicate Sorted(F: seq<Block>) {
    && |F| >= 1 && F[0].len == 0
    && (forall i :: 1 <= i < |F| ==> F[i].len >= 1)
    && (forall i :: 0 <= i < |F| - 1 ==> F[i].at + F[i].len < F[i + 1].at)
  }

  ghost predicate Covers(b: Block, u: int) {
    b.at <= u < b.at + b.len
  }

  ghost predicate InFree(F: seq<Block>, u: int) {
    exists i :: 0 <= i < |F| && Covers(F[i], u)
  }

  lemma {:induction false} SortedGap(F: seq<Block>, i: int, j: int)
    requires Sorted(F) && 0 <= i < j < |F|
    ensures F[i].at + F[i].len < F[j].at && F[i].at < F[j].at
    decreases j - i
  {
    if j > i + 1 {
      SortedGap(F, i, j - 1);
    }
  }

  /** The last block below address a. */
  function Slot(F: seq<Block>, a: int): (j: nat)
    requires |F| >= 1
    ensures j < |F|
    ensures j + 1 == |F| || a <= F[j + 1].at
    ensures j > 0 ==> F[j].at < a
  {
    if |F| == 1 || a <= F[1].at then 0 else 1 + Slot(F[1..], a)
  }

  lemma SlotUnique(F: seq<Block>, a: int, j: int)
    requires Sorted(F) && 0 <= j < |F| && F[j].at < a && (j + 1 == |F| || a <= F[j + 1].at)
    ensures Slot(F, a) == j
  {
    var k := Slot(F, a);
    if k < j {
      SortedGap(F, k, j);
      if k + 1 < j { SortedGap(F, k + 1, j); }
    } else if j < k {
      if j + 1 < k { SortedGap(F, j + 1, k); }
    }
  }

  /** b lies in the gap behind block j. */
  ghost predicate Fits(F: seq<Block>, b: Block, j: int) {
    && 0 <= j < |F| && b.len >= 1
    && F[j].at + F[j].len <= b.at && F[j].at < b.at
    && (j + 1 < |F| ==> b.at + b.len <= F[j + 1].at)
  }

  predicate JoinsUp(F: seq<Block>, b: Block, j: nat) {
    j + 1 < |F| && b.at + b.len == F[j + 1].at
  }

  predicate JoinsDown(F: seq<Block>, b: Block, j: nat)
    requires j < |F|
  {
    F[j].at + F[j].len == b.at
  }

  /** free(): b is put behind block j and merged with the neighbours it touches. */
  function Release(F: seq<Block>, b: Block, j: nat): (r: seq<Block>)
    requires j < |F|
  {
    var up, down := JoinsUp(F, b, j), JoinsDown(F, b, j);
    var m := Block(if down then F[j].at else b.at,
                   (if down then F[j].len else 0) + b.len + (if up then F[j + 1].len else 0));
    F[..if down then j else j + 1] + [m] + F[if up then j + 2 else j + 1..]
  }

  /** G is F with b released behind block j, where it fits. */
  ghost predicate Released(F: seq<Block>, b: Block, j: int, G: seq<Block>) {
    0 <= j < |F| && Fits(F, b, j) && G == Release(F, b, j)
  }

  /** The units morecore() asks for when malloc() needs n. */
  function Asked(n: int): int {
    if n < 4096 then 4096 else n
  }

  /** The block that morecore() makes of the region it got for n units. */
  function Fresh(grant: int, n: int): Block {
    Block(grant, Asked(n))
  }

  /** The region for n units is released into F, and the end of block k is taken, giving G and the address r. */
  ghost predicate Extends(F: seq<Block>, grant: int, n: int, k: int, G: seq<Block>, r: int) {
    exists H: seq<Block>, j :: Released(F, Fresh(grant, n), j, H) && 0 <= k < |H| && 1 <= n <= H[k].len
      && G == Take(H, k, n) && r == Taken(H, k, n).at + 1
  }

  lemma ExtendsIs(F: seq<Block>, H: seq<Block>, grant: int, n: int, k: int)
    requires exists j :: Released(F, Fresh(grant, n), j, H)
    requires 0 <= k < |H| && 1 <= n <= H[k].len
    ensures Extends(F, grant, n, k, Take(H, k, n), Taken(H, k, n).at + 1)
  {
  }

  /** r is F with the blocks from k up to t replaced by the merged block. */
  ghost predicate Shaped(F: seq<Block>, b: Block, j: nat, r: seq<Block>, k: nat, t: nat)
    requires j < |F|
  {
    var up, down := JoinsUp(F, b, j), JoinsDown(F, b, j);
    && k == (if down then j else j + 1) && t == (if up then j + 2 else j + 1) <= |F|
    && |r| == k + 1 + |F| - t
    && (forall i :: 0 <= i < k ==> r[i] == F[i])
    && r[k].at == (if down then F[j].at else b.at)
    && r[k].len == (if down then F[j].len else 0) + b.len + (if up then F[j + 1].len else 0)
    && (forall i :: k < i < |r| ==> r[i] == F[i - k - 1 + t])
  }

  lemma ReleaseShape(F: seq<Block>, b: Block, j: nat) returns (k: nat, t: nat)
    requires j < |F|
    ensures Shaped(F, b, j, Release(F, b, j), k, t)
  {
    var up, down := JoinsUp(F, b, j), JoinsDown(F, b, j);
    k := if down then j else j + 1;
    t := if up then j + 2 else j + 1;
  }

  lemma ReleaseGap(F: seq<Block>, b: Block, j: nat, i: nat)
    requires Sorted(F) && Fits(F, b, j) && i + 1 < |Release(F, b, j)|
    ensures Release(F, b, j)[i].at + Release(F, b, j)[i].len < Release(F, b, j)[i + 1].at
  {
    var k, t := ReleaseShape(F, b, j);
    hide Release;
    if i + 1 < k {
    } else if i + 1 == k {
      assert k == j ==> F[i].at + F[i].len < F[j].at;
    } else if i == k {
      assert t == j + 2 ==> F[j + 1].at + F[j + 1].len < F[t].at;
    } else {
      var h := i - k - 1 + t;
      assert F[h].at + F[h].len < F[h + 1].at;
    }
  }

  lemma ReleaseSorted(F: seq<Block>, b: Block, j: nat)
    requires Sorted(F) && Fits(F, b, j)
    ensures Sorted(Release(F, b, j)) && Release(F, b, j)[0] == F[0]
  {
    var k, t := ReleaseShape(F, b, j);
    hide Release;
    var r := Release(F, b, j);
    forall i | 0 <= i < |r| - 1 ensures r[i].at + r[i].len < r[i + 1].at {
      ReleaseGap(F, b, j, i);
    }
    forall i | 1 <= i < |r| ensures r[i].len >= 1 {
    }
  }

  /** Exactly the units of b become free. */
  lemma ReleaseCovers(F: seq<Block>, b: Block, j: nat, u: int)
    requires Sorted(F) && Fits(F, b, j)
    ensures InFree(Release(F, b, j), u) <==> InFree(F, u) || Covers(b, u)
  {
    hide Release, Sorted, Shaped, Covers;
    var k, t := ReleaseShape(F, b, j);
    var r := Release(F, b, j);
    MergedCovers(F, b, j, r, k, t, u);
    if i :| 0 <= i < |F| && Covers(F[i], u) {
      KeptCovers(F, b, j, r, k, t, i, u);
    }
    if i :| 0 <= i < |r| && Covers(r[i], u) {
      OldCovers(F, b, j, r, k, t, i, u);
    }
  }

  /** The merged block holds the units of the blocks it replaces. */
  lemma MergedCovers(F: seq<Block>, b: Block, j: nat, r: seq<Block>, k: nat, t: nat, u: int)
    requires Sorted(F) && Fits(F, b, j) && Shaped(F, b, j, r, k, t)
    ensures k < |r| && (k == j || k == j + 1) && (t == j + 1 || t == j + 2) && t <= |F|
    ensures Covers(r[k], u) <==> Covers(b, u) || (k == j && Covers(F[j], u)) || (t == j + 2 && Covers(F[j + 1], u))
  {
    assert F[j].len >= 0;
  }

  lemma KeptCovers(F: seq<Block>, b: Block, j: nat, r: seq<Block>, k: nat, t: nat, i: nat, u: int)
    requires Sorted(F) && Fits(F, b, j) && Shaped(F, b, j, r, k, t) && i < |F| && Covers(F[i], u)
    ensures InFree(r, u)
  {
    MergedCovers(F, b, j, r, k, t, u);
    hide Covers, Sorted;
    if i < k {
      assert Covers(r[i], u);
    } else if i >= t {
      assert r[i - t + k + 1] == F[i];
      assert Covers(r[i - t + k + 1], u);
    } else {
      assert Covers(r[k], u);
    }
  }

  lemma OldCovers(F: seq<Block>, b: Block, j: nat, r: seq<Block>, k: nat, t: nat, i: nat, u: int)
    requires Sorted(F) && Fits(F, b, j) && Shaped(F, b, j, r, k, t) && i < |r| && Covers(r[i], u)
    ensures InFree(F, u) || Covers(b, u)
  {
    MergedCovers(F, b, j, r, k, t, u);
    hide Covers, Sorted;
    if i < k {
      assert Covers(F[i], u);
    } else if i > k {
      assert Covers(F[i - k - 1 + t], u);
    }
  }

  /** malloc(): the last n units of block k, which goes away if it has no more. */
  function Take(F: seq<Block>, k: nat, n: int): (r: seq<Block>)
    requires k < |F|
  {
    if F[k].len == n then F[..k] + F[k + 1..] else F[k := Block(F[k].at, F[k].len - n)]
  }

  function Taken(F: seq<Block>, k: nat, n: int): Block
    requires k < |F|
  {
    Block(F[k].at + F[k].len - n, n)
  }

  lemma TakeSorted(F: seq<Block>, k: nat, n: int)
    requires Sorted(F) && 1 <= k < |F| && 1 <= n <= F[k].len
    ensures Sorted(Take(F, k, n)) && Take(F, k, n)[0] == F[0]
  {
    if k + 1 < |F| { SortedGap(F, k - 1, k + 1); }
  }

  /** Exactly the units of the taken block stop being free. */
  lemma TakeCovers(F: seq<Block>, k: nat, n: int, u: int)
    requires Sorted(F) && 1 <= k < |F| && 1 <= n <= F[k].len
    ensures InFree(F, u) <==> InFree(Take(F, k, n), u) || Covers(Taken(F, k, n), u)
    ensures !(InFree(Take(F, k, n), u) && Covers(Taken(F, k, n), u))
  {
    var r := Take(F, k, n);
    var d := if F[k].len == n then 1 else 0;
    assert forall i :: 0 <= i < k ==> r[i] == F[i];
    assert forall i :: k <= i < |r| && (d == 1 || i > k) ==> r[i] == F[i + d];
    assert d == 0 ==> r[k] == Block(F[k].at, F[k].len - n);
    assert |r| == |F| - d;
    hide Take;
    if i :| 0 <= i < |r| && Covers(r[i], u) {
      var h := if i < k then i else i + d;
      assert h == k || Covers(F[h], u);
      if h < k { SortedGap(F, h, k); } else if h > k { SortedGap(F, k, h); }
    }
    if i :| 0 <= i < |F| && Covers(F[i], u) {
      if i < k {
        assert Covers(r[i], u);
      } else if i > k {
        assert r[i - d] == F[i];
        assert Covers(r[i - d], u);
      } else if !Covers(Taken(F, k, n), u) {
        assert Covers(r[k], u);
      }
    }
  }

  // ---------------------------------------------------------------- free() undoes malloc()

  /** F without its first block behind base; the rest now hangs behind that block's end. */
  function Rest(F: seq<Block>): seq<Block>
    requires |F| >= 2
  {
    [Block(F[1].at + F[1].len, 0)] + F[2..]
  }

  lemma RestCovers(F: seq<Block>, u: int)
    requires Sorted(F) && |F| >= 2
    ensures Sorted(Rest(F)) && (InFree(Rest(F), u) <==> InFree(F, u) && !Covers(F[1], u))
  {
    var r := Rest(F);
    assert forall i :: 1 <= i < |r| ==> r[i] == F[i + 1];
    if i :| 0 <= i < |r| && Covers(r[i], u) {
      assert Covers(F[i + 1], u);
      SortedGap(F, 1, i + 1);
    }
    if i :| 0 <= i < |F| && Covers(F[i], u) {
      if i >= 2 { assert r[i - 1] == F[i]; assert Covers(r[i - 1], u); }
    }
  }

  lemma LowestUnit(F: seq<Block>, u: int)
    requires Sorted(F) && InFree(F, u)
    ensures |F| >= 2 && F[1].at <= u
  {
    var i :| 0 <= i < |F| && Covers(F[i], u);
    if i > 1 { SortedGap(F, 1, i); }
  }

  lemma NextUnitTaken(F: seq<Block>)
    requires Sorted(F) && |F| >= 2
    ensures InFree(F, F[1].at) && !InFree(F, F[1].at + F[1].len)
  {
    assert Covers(F[1], F[1].at);
    var u := F[1].at + F[1].len;
    forall i | 0 <= i < |F| ensures !Covers(F[i], u) {
      if i > 1 { SortedGap(F, 1, i); }
    }
  }

  /** Full coalescing makes the list canonical: the free units determine it. */
  lemma {:induction false} Canonical(F: seq<Block>, G: seq<Block>)
    requires Sorted(F) && Sorted(G) && F[0] == G[0]
    requires forall u :: InFree(F, u) <==> InFree(G, u)
    ensures F == G
    decreases |F|
  {
    hide InFree;
    if |F| >= 2 { NextUnitTaken(F); LowestUnit(G, F[1].at); }
    if |G| >= 2 { NextUnitTaken(G); LowestUnit(F, G[1].at); }
    if |F| >= 2 {
      assert F[1].at == G[1].at;
      SameLength(F, G);
      forall u ensures InFree(Rest(F), u) <==> InFree(Rest(G), u) {
        RestCovers(F, u);
        RestCovers(G, u);
      }
      RestCovers(F, 0);
      RestCovers(G, 0);
      hide Sorted;
      Canonical(Rest(F), Rest(G));
      FromRest(F, G);
    }
  }

  lemma FromRest(F: seq<Block>, G: seq<Block>)
    requires |F| >= 2 && |G| >= 2 && F[0] == G[0] && F[1] == G[1] && Rest(F) == Rest(G)
    ensures F == G
  {
    assert F == F[..2] + Rest(F)[1..] && G == G[..2] + Rest(G)[1..];
  }

  lemma SameLength(F: seq<Block>, G: seq<Block>)
    requires Sorted(F) && Sorted(G) && |F| >= 2 && |G| >= 2 && F[1].at == G[1].at
    requires forall u :: InFree(F, u) <==> InFree(G, u)
    ensures F[1] == G[1]
  {
    NextUnitTaken(F);
    NextUnitTaken(G);
    FreeCovers(F, 1, G[1].at + G[1].len);
    FreeCovers(G, 1, F[1].at + F[1].len);
    hide InFree;
  }

  /** Freeing what malloc has just taken restores the free list, block for block. */
  lemma FreeUndoesMalloc(F: seq<Block>, k: nat, n: int, j: nat)
    requires Sorted(F) && 1 <= k < |F| && 1 <= n <= F[k].len && Fits(Take(F, k, n), Taken(F, k, n), j)
    ensures Release(Take(F, k, n), Taken(F, k, n), j) == F
  {
    hide Take, Release, InFree, Sorted;
    var G := Take(F, k, n);
    TakeSorted(F, k, n);
    ReleaseSorted(G, Taken(F, k, n), j);
    var R := Release(G, Taken(F, k, n), j);
    forall u ensures InFree(R, u) <==> InFree(F, u) {
      TakeCovers(F, k, n, u);
      ReleaseCovers(G, Taken(F, k, n), j, u);
    }
    SortedBase(F);
    SortedBase(R);
    Canonical(R, F);
  }

  lemma SortedBase(F: seq<Block>)
    requires Sorted(F)
    ensures |F| >= 1
  {
  }

  // ---------------------------------------------------------------- headers and memory

  const NULL: int := 0
  const HEADER: int := 8 // sizeof(Header)

  /** Units for nbytes of payload and the header, in 32-bit unsigned arithmetic. */
  function Units(nbytes: int): (n: int)
    requires 0 <= nbytes < UINT
    ensures 1 <= n
  {
    (nbytes + HEADER - 1) % UINT / HEADER + 1
  }

  /** The payload is large enough exactly if the rounding does not wrap around, and never a unit too large. */
  lemma UnitsEnoughIff(nbytes: int)
    requires 0 <= nbytes < UINT
    ensures (Units(nbytes) - 1) * HEADER >= nbytes <==> nbytes + HEADER - 1 < UINT
    ensures (Units(nbytes) - 1) * HEADER < nbytes + HEADER
  {
  }

  /** The argument that morecore() gives to sbrk(int) for nu units: the byte count, wrapped and taken as signed. */
  function SbrkArg(nu: int): int {
    var x := nu * HEADER % UINT;
    if x < UINT / 2 then x else x - UINT
  }

  /** What sbrk does when malloc() needs n more units and the process has sz bytes without the pages `lost`. */
  function Answer(sz: int, lost: set<int>, n: int, supply: Supply): Brk
    requires 0 <= sz
  {
    Sbrk(sz, lost, SbrkArg(Asked(n)), supply)
  }

  /** The largest byte count that sbrk takes as it is meant. */
  predicate Askable(n: int) {
    Asked(n) * HEADER < UINT / 2
  }

  lemma UnitsRange(nbytes: int)
    requires 0 <= nbytes < UINT
    ensures Units(nbytes) * HEADER <= UINT
  {
  }

  /** Sizes and pages of a process that calls sbrk for whole units. */
  ghost predicate Process(sz: int, lost: set<int>) {
    0 <= sz < KERNBASE && sz % HEADER == 0 && lost <= PagesOf(sz)
  }

  /**
    The last u units of the region that sbrk answered for are mapped exactly if the byte count was
    the one meant, every page was found, and the page they begin in was not lost before.
   */
  lemma AnswerMapsIff(sz: int, lost: set<int>, n: int, u: int, supply: Supply)
    requires Process(sz, lost) && 1 <= n && n * HEADER <= UINT && 1 <= u <= Asked(n)
    ensures var b, hi := Answer(sz, lost, n, supply), sz + Asked(n) * HEADER;
      b.addr != -1 ==>
        && b.addr == sz
        && (Mapped(b.sz, b.lost, hi - u * HEADER, hi) <==>
            Askable(n) && supply == Whole && (hi - u * HEADER) / Vm.PGSIZE !in lost)
  {
    if Askable(n) {
      ArgMeant(n);
      SbrkMapsIff(sz, lost, Asked(n) * HEADER, supply, sz + Asked(n) * HEADER - u * HEADER);
      SbrkGrows(sz, lost, Asked(n) * HEADER, supply);
      hide SbrkArg, Sbrk, Mapped;
    } else {
      assert SbrkArg(Asked(n)) <= 0;
      hide SbrkArg, Asked, PagesOf;
    }
  }

  /** Unless sbrk was asked for other bytes than those meant, the process still is one, and covers the region. */
  lemma AnswerKeeps(sz: int, lost: set<int>, n: int, supply: Supply)
    requires Process(sz, lost) && 1 <= n && Askable(n)
    ensures var b := Answer(sz, lost, n, supply);
      && Process(b.sz, b.lost) && (supply != AllButLast ==> b.lost == lost)
      && b.sz == if b.addr == -1 then sz else sz + Asked(n) * HEADER
  {
    hide SbrkArg, Asked, PagesOf, Askable, Process, Sbrk;
    ArgMeant(n);
    GrowKeeps(sz, lost, Asked(n), supply);
  }

  /** sbrk for u units. */
  lemma GrowKeeps(sz: int, lost: set<int>, u: int, supply: Supply)
    requires Process(sz, lost) && 0 < u * HEADER < KERNBASE
    ensures var b := Sbrk(sz, lost, u * HEADER, supply);
      && Process(b.sz, b.lost) && (supply != AllButLast ==> b.lost == lost)
      && b.sz == if b.addr == -1 then sz else sz + u * HEADER
  {
    hide PagesOf, Sbrk;
    SbrkLost(sz, lost, u * HEADER, supply);
    SbrkGrows(sz, lost, u * HEADER, supply);
    WholeUnits(sz, u);
  }

  lemma WholeUnits(sz: int, u: int)
    requires sz % HEADER == 0
    ensures (sz + u * HEADER) % HEADER == 0
  {
  }

  lemma ArgMeant(n: int)
    requires 1 <= n && Askable(n)
    ensures SbrkArg(Asked(n)) == Asked(n) * HEADER && 0 < Asked(n) * HEADER < KERNBASE
  {
  }

  /** The block of n units at p, with its header, lies in mapped memory and has room for nbytes. */
  ghost predicate Usable(p: int, n: int, nbytes: int, b: Brk) {
    Mapped(b.sz, b.lost, p * HEADER, (p + n) * HEADER) && (n - 1) * HEADER >= nbytes
  }

  /** A request for all but one byte of the address space is given a block with no payload. */
  lemma HugeRequest()
    ensures Units(UINT - 1) == 1
  {
  }

  /** For 2^32 - 8 bytes sbrk is asked for none, for 2^31 for a negative number, and for some sizes to shrink. */
  lemma WrappedRequests()
    ensures SbrkArg(Asked(Units(UINT - 8))) == 0
    ensures SbrkArg(Asked(Units(UINT / 2))) == 8 - UINT / 2
    ensures SbrkArg(Asked(Units(UINT - 4104))) == -4096
  {
  }

  function NextI(F: seq<Block>, i: int): int {
    if i + 1 < |F| then i + 1 else 0
  }

  /** The header of F[i] holds its size and the address of the next block. */
  ghost predicate Node(ptr: map<int, int>, size: map<int, int>, F: seq<Block>, i: int)
    requires 0 <= i < |F|
  {
    F[i].at in ptr && F[i].at in size && size[F[i].at] == F[i].len && ptr[F[i].at] == F[NextI(F, i)].at
  }

  /** The headers spell F as a circular list. */
  ghost predicate Rep(ptr: map<int, int>, size: map<int, int>, F: seq<Block>) {
    forall i :: 0 <= i < |F| ==> Node(ptr, size, F, i)
  }

  ghost predicate InLive(live: map<int, int>, u: int) {
    exists a :: a in live && Covers(Block(a, live[a]), u)
  }

  /** Every unit obtained from sbrk is free or in exactly one live block, never both. */
  ghost predicate Conserved(F: seq<Block>, live: map<int, int>, granted: iset<int>) {
    && (forall u :: u in granted <==> InFree(F, u) || InLive(live, u))
    && (forall u :: !(InFree(F, u) && InLive(live, u)))
    && (forall a, b, u :: a in live && b in live && Covers(Block(a, live[a]), u) && Covers(Block(b, live[b]), u) ==>
          a == b)
  }

  ghost predicate Bounded(F: seq<Block>, live: map<int, int>, base: int, brk: int) {
    && (forall a :: a in live ==> base < a && live[a] >= 1 && a + live[a] <= brk)
    && (forall i :: 0 <= i < |F| ==> F[i].at + F[i].len <= brk)
  }

  /** After morecore() only the block that ends with the new region is large enough. */
  lemma NewBlockOnly(F: seq<Block>, H: seq<Block>, grant: int, n: int, k: int, brk: int)
    requires Sorted(F) && !Enough(F, n) && 0 <= k < |H| && 1 <= n <= H[k].len && brk <= grant
    requires (exists j :: Released(F, Fresh(grant, n), j, H)) && forall i :: 0 <= i < |F| ==> F[i].at + F[i].len <= brk
    ensures Taken(H, k, n).at + n == grant + Asked(n)
  {
    var j :| Released(F, Fresh(grant, n), j, H);
    var b := Fresh(grant, n);
    assert !JoinsUp(F, b, j);
    var m, t := ReleaseShape(F, b, j);
    hide Release, Sorted;
    forall i | 0 <= i < |H| && i != m ensures H[i].len < n {
      assert H[i] == F[if i < m then i else i - m - 1 + t];
    }
    assert k == m;
  }

  /** The header words after free() has linked b in behind block j. */
  ghost predicate Linked(ptr: map<int, int>, size: map<int, int>, F: seq<Block>, b: Block, j: nat,
                         ptr': map<int, int>, size': map<int, int>)
    requires j < |F|
  {
    var up, down := JoinsUp(F, b, j), JoinsDown(F, b, j);
    var t := F[NextI(F, j)];
    var bl := if up then b.len + t.len else b.len;
    var bn := if up then F[NextI(F, j + 1)].at else t.at;
    && size' == (if down then size[b.at := bl][F[j].at := F[j].len + bl] else size[b.at := bl])
    && ptr' == (if down then ptr[b.at := bn][F[j].at := bn] else ptr[b.at := bn][F[j].at := b.at])
  }

  lemma NodeBelow(ptr: map<int, int>, size: map<int, int>, F: seq<Block>, b: Block, j: nat,
             ptr': map<int, int>, size': map<int, int>, i: nat, k: nat, t: nat)
    requires Sorted(F) && Rep(ptr, size, F) && Fits(F, b, j) && Linked(ptr, size, F, b, j, ptr', size')
    requires Shaped(F, b, j, Release(F, b, j), k, t) && i < |Release(F, b, j)|
    requires i < k
    ensures Node(ptr', size', Release(F, b, j), i)
  {
    hide Release;
    assert Node(ptr, size, F, i) && Node(ptr, size, F, j);
    if i < j { SortedGap(F, i, j); }
    hide Sorted, Rep;
  }

  lemma NodeAt(ptr: map<int, int>, size: map<int, int>, F: seq<Block>, b: Block, j: nat,
             ptr': map<int, int>, size': map<int, int>, i: nat, k: nat, t: nat)
    requires Sorted(F) && Rep(ptr, size, F) && Fits(F, b, j) && Linked(ptr, size, F, b, j, ptr', size')
    requires Shaped(F, b, j, Release(F, b, j), k, t) && i < |Release(F, b, j)|
    requires i == k
    ensures Node(ptr', size', Release(F, b, j), i)
  {
    hide Release;
    assert Node(ptr, size, F, j);
    assert k >= 1;
    hide Sorted, Rep;
  }

  /** The header words of blocks other than b and the one before it stay. */
  lemma LinkedElsewhere(ptr: map<int, int>, size: map<int, int>, F: seq<Block>, b: Block, j: nat,
                        ptr': map<int, int>, size': map<int, int>, a: int)
    requires j < |F| && Linked(ptr, size, F, b, j, ptr', size') && a != b.at && a != F[j].at && a in ptr && a in size
    ensures a in ptr' && a in size' && ptr'[a] == ptr[a] && size'[a] == size[a]
  {
  }

  lemma NodeAbove(ptr: map<int, int>, size: map<int, int>, F: seq<Block>, b: Block, j: nat,
             ptr': map<int, int>, size': map<int, int>, i: nat, k: nat, t: nat)
    requires Sorted(F) && Rep(ptr, size, F) && Fits(F, b, j) && Linked(ptr, size, F, b, j, ptr', size')
    requires Shaped(F, b, j, Release(F, b, j), k, t) && i < |Release(F, b, j)|
    requires i > k
    ensures Node(ptr', size', Release(F, b, j), i)
  {
    hide Release, Linked;
    var h := i - k - 1 + t;
    assert Node(ptr, size, F, h) && k >= 1;
    SortedGap(F, j, h);
    if h > j + 1 { SortedGap(F, j + 1, h); }
    assert F[h].at != b.at && F[h].at != F[j].at;
    hide Sorted, Rep, Fits;
    LinkedElsewhere(ptr, size, F, b, j, ptr', size', F[h].at);
  }

  lemma ReleaseRep(ptr: map<int, int>, size: map<int, int>, F: seq<Block>, b: Block, j: nat,
                   ptr': map<int, int>, size': map<int, int>)
    requires Sorted(F) && Rep(ptr, size, F) && Fits(F, b, j) && Linked(ptr, size, F, b, j, ptr', size')
    ensures Rep(ptr', size', Release(F, b, j))
  {
    var k, t := ReleaseShape(F, b, j);
    hide Release, Sorted, Linked, Node, Shaped;
    forall i | 0 <= i < |Release(F, b, j)| ensures Node(ptr', size', Release(F, b, j), i) {
      if i < k {
        NodeBelow(ptr, size, F, b, j, ptr', size', i, k, t);
      } else if i == k {
        NodeAt(ptr, size, F, b, j, ptr', size', i, k, t);
      } else {
        NodeAbove(ptr, size, F, b, j, ptr', size', i, k, t);
      }
    }
  }

  /** The header words after malloc() has taken n units from block k. */
  ghost predicate Cut(ptr: map<int, int>, size: map<int, int>, F: seq<Block>, k: nat, n: int,
                      ptr': map<int, int>, size': map<int, int>)
    requires 1 <= k < |F|
  {
    if F[k].len == n then ptr' == ptr[F[k - 1].at := F[NextI(F, k)].at] && size' == size
    else ptr' == ptr && size' == size[F[k].at := F[k].len - n][F[k].at + F[k].len - n := n]
  }

  /** Taking the whole of block k: its predecessor skips it. */
  lemma TakeWholeNode(ptr: map<int, int>, size: map<int, int>, F: seq<Block>, k: nat, ptr': map<int, int>, i: nat)
    requires Sorted(F) && Rep(ptr, size, F) && 1 <= k < |F| && ptr' == ptr[F[k - 1].at := F[NextI(F, k)].at]
    requires i < |F| - 1
    ensures Node(ptr', size, F[..k] + F[k + 1..], i)
  {
    var r := F[..k] + F[k + 1..];
    var h := if i >= k then i + 1 else i;
    assert Node(ptr, size, F, h);
    if h < k - 1 { SortedGap(F, h, k - 1); } else if h > k - 1 { SortedGap(F, k - 1, h); }
    hide Sorted, Rep;
    assert r[i] == F[h];
    if i + 1 < |r| { assert r[i + 1] == if i + 1 < k then F[i + 1] else F[i + 2]; }
    assert r[0] == F[0];
  }

  /** Taking the end of block k: its header stays, with less size. */
  lemma TakePartNode(ptr: map<int, int>, size: map<int, int>, F: seq<Block>, k: nat, n: int, size': map<int, int>,
                     i: nat)
    requires Sorted(F) && Rep(ptr, size, F) && 1 <= k < |F| && 1 <= n < F[k].len && i < |F|
    requires size' == size[F[k].at := F[k].len - n][F[k].at + F[k].len - n := n]
    ensures Node(ptr, size', F[k := Block(F[k].at, F[k].len - n)], i)
  {
    assert Node(ptr, size, F, i);
    if i < k { SortedGap(F, i, k); } else if i > k { SortedGap(F, k, i); }
    hide Sorted, Rep;
  }

  lemma TakeNode(ptr: map<int, int>, size: map<int, int>, F: seq<Block>, k: nat, n: int,
                 ptr': map<int, int>, size': map<int, int>, i: nat)
    requires Sorted(F) && Rep(ptr, size, F) && 1 <= k < |F| && 1 <= n <= F[k].len
    requires Cut(ptr, size, F, k, n, ptr', size')
    requires i < |Take(F, k, n)|
    ensures Node(ptr', size', Take(F, k, n), i)
  {
    hide Sorted, Rep, Node;
    if F[k].len == n {
      TakeWholeNode(ptr, size, F, k, ptr', i);
    } else {
      TakePartNode(ptr, size, F, k, n, size', i);
    }
  }

  lemma TakeRep(ptr: map<int, int>, size: map<int, int>, F: seq<Block>, k: nat, n: int,
                ptr': map<int, int>, size': map<int, int>)
    requires Sorted(F) && Rep(ptr, size, F) && 1 <= k < |F| && 1 <= n <= F[k].len
    requires Cut(ptr, size, F, k, n, ptr', size')
    ensures Rep(ptr', size', Take(F, k, n))
  {
    hide Take, Sorted, Cut, Node;
    forall i | 0 <= i < |Take(F, k, n)| ensures Node(ptr', size', Take(F, k, n), i) {
      TakeNode(ptr, size, F, k, n, ptr', size', i);
    }
  }

  // ---------------------------------------------------------------- conservation of units

  lemma InLiveWithout(live: map<int, int>, a: int, u: int)
    requires a in live
    ensures InLive(live, u) <==> InLive(live - {a}, u) || Covers(Block(a, live[a]), u)
  {
    if c :| c in live && Covers(Block(c, live[c]), u) {
      if c != a { assert c in live - {a}; }
    }
    if c :| c in live - {a} && Covers(Block(c, (live - {a})[c]), u) {
      assert c in live;
    }
  }

  lemma LiveCovers(live: map<int, int>, a: int, u: int)
    ensures a in live && Covers(Block(a, live[a]), u) ==> InLive(live, u)
  {
  }

  lemma FreeCovers(F: seq<Block>, i: int, u: int)
    ensures 0 <= i < |F| && Covers(F[i], u) ==> InFree(F, u)
  {
  }

  /** The units that sbrk returned. */
  ghost function Region(a: int, n: int): iset<int> {
    iset u | Covers(Block(a, n), u)
  }

  lemma ReleaseConserved(F: seq<Block>, live: map<int, int>, granted: iset<int>, a: int, j: nat)
    requires Sorted(F) && Conserved(F, live, granted) && a in live && Fits(F, Block(a, live[a]), j)
    ensures Conserved(Release(F, Block(a, live[a]), j), live - {a}, granted)
  {
    var b := Block(a, live[a]);
    var F', live' := Release(F, b, j), live - {a};
    hide Release, Sorted, InFree, InLive;
    forall u
      ensures InFree(F', u) <==> InFree(F, u) || Covers(b, u)
      ensures InLive(live, u) <==> InLive(live', u) || Covers(b, u)
      ensures !(InLive(live', u) && Covers(b, u))
    {
      ReleaseCovers(F, b, j, u);
      InLiveWithout(live, a, u);
      OthersApart(live, a, u);
    }
  }

  lemma OthersApart(live: map<int, int>, a: int, u: int)
    requires a in live
    requires forall c, d, v ::
      c in live && d in live && Covers(Block(c, live[c]), v) && Covers(Block(d, live[d]), v) ==> c == d
    ensures !(InLive(live - {a}, u) && Covers(Block(a, live[a]), u))
  {
  }

  /** The taken units move from the free list to a new live block. */
  lemma TakeConserved(F: seq<Block>, live: map<int, int>, granted: iset<int>, k: nat, n: int)
    requires Sorted(F) && Conserved(F, live, granted) && 1 <= k < |F| && 1 <= n <= F[k].len
    requires forall a :: a in live ==> live[a] >= 1
    ensures Taken(F, k, n).at !in live
    ensures Conserved(Take(F, k, n), live[Taken(F, k, n).at := n], granted)
  {
    var b := Taken(F, k, n);
    var F', live' := Take(F, k, n), live[b.at := n];
    assert Covers(b, b.at);
    TakeCovers(F, k, n, b.at);
    LiveCovers(live, b.at, b.at);
    assert live' - {b.at} == live;
    forall u
      ensures InFree(F, u) <==> InFree(F', u) || Covers(b, u)
      ensures !(InFree(F', u) && Covers(b, u))
      ensures InLive(live', u) <==> InLive(live, u) || Covers(b, u)
    {
      TakeCovers(F, k, n, u);
      InLiveWithout(live', b.at, u);
    }
    hide Take, Sorted, InFree;
    forall c, d, u | c in live' && d in live' && Covers(Block(c, live'[c]), u) && Covers(Block(d, live'[d]), u)
      ensures c == d
    {
      LiveCovers(live, c, u);
      LiveCovers(live, d, u);
    }
    hide InLive;
  }

  /** New units at or above the break become one live block. */
  lemma GrantConserved(F: seq<Block>, live: map<int, int>, granted: iset<int>, base: int, brk: int, a: int, n: int)
    requires Conserved(F, live, granted) && Bounded(F, live, base, brk) && brk <= a && n >= 1
    ensures a !in live
    ensures Conserved(F, live[a := n], granted + Region(a, n))
  {
    var live' := live[a := n];
    assert a !in live;
    assert live' - {a} == live;
    forall u ensures InLive(live', u) <==> InLive(live, u) || Covers(Block(a, n), u) {
      InLiveWithout(live', a, u);
    }
    forall u | u >= brk ensures !InFree(F, u) && !InLive(live, u) {
    }
    forall c, d, u | c in live' && d in live' && Covers(Block(c, live'[c]), u) && Covers(Block(d, live'[d]), u)
      ensures c == d
    {
      LiveCovers(live, c, u);
      LiveCovers(live, d, u);
    }
    hide InLive, InFree;
  }

  /** A live block lies in the gap found by its address. */
  lemma LiveFits(F: seq<Block>, live: map<int, int>, granted: iset<int>, a: int)
    requires Sorted(F) && Conserved(F, live, granted) && a in live && live[a] >= 1 && F[0].at < a
    ensures Fits(F, Block(a, live[a]), Slot(F, a))
  {
    var j := Slot(F, a);
    LiveCovers(live, a, a);
    FreeCovers(F, j, a);
    if j + 1 < |F| {
      LiveCovers(live, a, F[j + 1].at);
      FreeCovers(F, j + 1, F[j + 1].at);
    }
    hide InFree, InLive;
  }

  // ---------------------------------------------------------------- the code

  /** How far it is from i to j, going forward round a ring of n. */
  function Dist(i: int, j: int, n: int): int {
    if i <= j then j - i else n - i + j
  }

  /** k is strictly between s and i, going forward round the ring. */
  predicate Between(s: int, k: int, i: int) {
    if s < i then s < k < i else k > s || k < i
  }

  /** The two exits of free()'s search loop are taken at the gap and nowhere else. */
  lemma AtGap(F: seq<Block>, b: Block, i: int, j: int)
    requires Sorted(F) && 0 <= i < |F| && F[0].at < b.at && Fits(F, b, j) && j == Slot(F, b.at)
    ensures var p, q := F[i].at, F[NextI(F, i)].at;
      (b.at > p && b.at < q) || (p >= q && (b.at > p || b.at < q)) <==> i == j
  {
    var p, q := F[i].at, F[NextI(F, i)].at;
    if i > 0 { SortedGap(F, 0, i); }
    if i == j {
    } else if i + 1 < |F| {
      if p < b.at <= q { SlotUnique(F, b.at, i); }
    } else if p < b.at {
      SlotUnique(F, b.at, i);
    }
    hide Slot;
  }

  /** What the code reads through the links of block j. */
  lemma LinkReads(ptr: map<int, int>, size: map<int, int>, F: seq<Block>, j: nat)
    requires Rep(ptr, size, F) && j < |F|
    ensures Node(ptr, size, F, j) && Node(ptr, size, F, NextI(F, j))
  {
  }

  lemma ReleaseFacts(F: seq<Block>, live: map<int, int>, granted: iset<int>, base: int, brk: int, a: int, j: nat)
    requires Sorted(F) && Conserved(F, live, granted) && Bounded(F, live, base, brk) && a in live
    requires Fits(F, Block(a, live[a]), j) && F[0].at == base
    ensures var F' := Release(F, Block(a, live[a]), j);
      && Sorted(F') && F'[0].at == base && j < |F'| && F'[j].at == F[j].at >= base
      && Conserved(F', live - {a}, granted) && Bounded(F', live - {a}, base, brk)
    ensures a != F[j].at && a != F[NextI(F, j)].at
  {
    var b := Block(a, live[a]);
    ReleaseConserved(F, live, granted, a, j);
    ReleaseSorted(F, b, j);
    var k, t := ReleaseShape(F, b, j);
    hide Conserved, Release;
    if j > 0 { SortedGap(F, 0, j); }
  }

  lemma LinkedIs(ptr: map<int, int>, size: map<int, int>, F: seq<Block>, b: Block, j: nat,
                 ptr': map<int, int>, size': map<int, int>)
    requires Sorted(F) && Rep(ptr, size, F) && Fits(F, b, j) && b.at in size && size[b.at] == b.len
    requires var p, t := F[j].at, F[NextI(F, j)].at;
      p in ptr && p in size && t in ptr && t in size &&
      var up := b.at + b.len == ptr[p];
      var size1 := if up then size[b.at := size[b.at] + size[t]] else size;
      var ptr1 := ptr[b.at := if up then ptr[t] else t];
      && size' == (if p + size1[p] == b.at then size1[p := size1[p] + size1[b.at]] else size1)
      && ptr' == (if p + size1[p] == b.at then ptr1[p := ptr1[b.at]] else ptr1[p := b.at])
    ensures Linked(ptr, size, F, b, j, ptr', size')
  {
    assert Node(ptr, size, F, j) && Node(ptr, size, F, NextI(F, j));
    if j > 0 { SortedGap(F, 0, j); }
    assert b.at + b.len == ptr[F[j].at] <==> JoinsUp(F, b, j);
    assert size[b.at := b.len] == size;
    hide Rep, Sorted;
  }

  /** free() leaves the headers of the other live blocks alone. */
  lemma SizesKept(F: seq<Block>, live: map<int, int>, granted: iset<int>, base: int, brk: int, a: int, j: nat,
                  size: map<int, int>, size': map<int, int>)
    requires Sorted(F) && Conserved(F, live, granted) && Bounded(F, live, base, brk) && a in live && j < |F|
    requires F[0].at == base
    requires forall c :: c in live ==> c in size && size[c] == live[c]
    requires forall c :: c in size && c != a && c != F[j].at ==> c in size' && size'[c] == size[c]
    ensures forall c :: c in live - {a} ==> c in size' && size'[c] == (live - {a})[c]
  {
    forall c | c in live - {a} ensures c != F[j].at {
      LiveCovers(live, c, c);
      FreeCovers(F, j, c);
    }
    hide InFree, InLive;
  }

  lemma GrantFacts(F: seq<Block>, live: map<int, int>, granted: iset<int>, base: int, brk: int, a: int, n: int)
    requires Conserved(F, live, granted) && Bounded(F, live, base, brk) && base < brk <= a && n >= 1
    ensures a !in live && Conserved(F, live[a := n], granted + Region(a, n)) && Bounded(F, live[a := n], base, a + n)
  {
    GrantConserved(F, live, granted, base, brk, a, n);
    hide Conserved;
  }

  /** A new header at or above the break touches no header of the free list. */
  lemma RepKept(ptr: map<int, int>, size: map<int, int>, F: seq<Block>, live: map<int, int>, base: int, brk: int,
                size': map<int, int>)
    requires Sorted(F) && Rep(ptr, size, F) && Bounded(F, live, base, brk) && F[0].at < brk
    requires forall a :: a in size && a < brk ==> a in size' && size'[a] == size[a]
    ensures Rep(ptr, size', F)
  {
    forall i | 0 <= i < |F| ensures Node(ptr, size', F, i) {
      assert Node(ptr, size, F, i);
    }
  }

  /** The block that receives b is at least as large. */
  lemma MergedLarge(F: seq<Block>, b: Block, j: nat)
    requires Sorted(F) && Fits(F, b, j)
    ensures Enough(Release(F, b, j), b.len)
  {
    var k, t := ReleaseShape(F, b, j);
    hide Release;
    assert Release(F, b, j)[k].len >= b.len by {
      assert JoinsUp(F, b, j) ==> F[j + 1].len >= 1;
    }
  }

  ghost predicate Enough(F: seq<Block>, n: int) {
    exists k :: 0 <= k < |F| && F[k].len >= n
  }

  lemma NeverEnough(n: int)
    ensures !Enough([], n)
  {
  }

  lemma Found(F: seq<Block>, h: int, k: int, n: int)
    requires Sorted(F) && 0 <= k < |F| && F[k].len >= n >= 1 && 0 <= h < |F| && k == NextI(F, h)
    ensures k >= 1 && h == k - 1 && Enough(F, n)
  {
  }

  /** The blocks behind s and before k, going round, are too small. */
  ghost predicate Seen(F: seq<Block>, s: int, k: int, n: int) {
    forall m :: 0 <= m < |F| && Between(s, m, k) ==> F[m].len < n
  }

  lemma SeenStart(F: seq<Block>, s: int, n: int)
    requires 0 <= s < |F|
    ensures Seen(F, s, NextI(F, s), n) && 0 <= NextI(F, s) < |F|
  {
  }

  lemma SeenNext(F: seq<Block>, s: int, k: int, n: int)
    requires 0 <= s < |F| && 0 <= k < |F| && Seen(F, s, k, n) && F[k].len < n && k != s
    ensures Seen(F, s, NextI(F, k), n) && 0 <= NextI(F, k) < |F|
    ensures 0 <= Dist(NextI(F, k), s, |F|) < Dist(k, s, |F|)
  {
  }

  /** Back at freep, the search has seen every block. */
  lemma AllSmall(F: seq<Block>, s: int, k: int, n: int)
    requires Sorted(F) && 0 <= s < |F| && 0 <= k < |F| && F[k].len < n && Seen(F, s, k, n)
    ensures F[k].at == F[s].at ==> !Enough(F, n)
    ensures k == s ==> F[k].at == F[s].at
  {
    if s < k { SortedGap(F, s, k); } else if k < s { SortedGap(F, k, s); }
  }

  /** The list malloc() starts with: base, linked to itself. */
  lemma FirstFacts(base: int, brk: int, ptr: map<int, int>, size: map<int, int>)
    requires base < brk && base in ptr && ptr[base] == base && base in size && size[base] == 0
    ensures var F := [Block(base, 0)];
      Sorted(F) && Rep(ptr, size, F) && Conserved(F, map[], iset{}) && Bounded(F, map[], base, brk)
    ensures forall n :: n >= 1 ==> !Enough([Block(base, 0)], n)
  {
  }

  lemma TakeBounded(F: seq<Block>, live: map<int, int>, base: int, brk: int, k: nat, n: int)
    requires Sorted(F) && Bounded(F, live, base, brk) && F[0].at == base && 1 <= k < |F| && 1 <= n <= F[k].len
    ensures var F', a := Take(F, k, n), Taken(F, k, n).at;
      k - 1 < |F'| && F'[k - 1].at == F[k - 1].at && base < a && Bounded(F', live[a := n], base, brk)
    ensures base <= F[k - 1].at
  {
    SortedGap(F, 0, k);
    if k > 1 { SortedGap(F, 0, k - 1); }
    hide Sorted, Take;
    forall i | 0 <= i < |Take(F, k, n)| ensures Take(F, k, n)[i].at + Take(F, k, n)[i].len <= brk {
      TakeAt(F, k, n, i);
    }
    TakeAt(F, k, n, k - 1);
  }

  /** Every block of the shorter list is one of the longer, or its block k without its end. */
  lemma TakeAt(F: seq<Block>, k: nat, n: int, i: nat)
    requires k < |F| && 1 <= n <= F[k].len
    ensures |Take(F, k, n)| == if F[k].len == n then |F| - 1 else |F|
    ensures i < |Take(F, k, n)| ==>
      Take(F, k, n)[i] == if F[k].len == n then F[if i < k then i else i + 1]
                          else if i == k then Block(F[k].at, F[k].len - n) else F[i]
  {
  }

  lemma TakeFacts(F: seq<Block>, live: map<int, int>, granted: iset<int>, base: int, brk: int, k: nat, n: int)
    requires Sorted(F) && Conserved(F, live, granted) && Bounded(F, live, base, brk) && F[0].at == base
    requires 1 <= k < |F| && 1 <= n <= F[k].len
    ensures var F', a := Take(F, k, n), Taken(F, k, n).at;
      && a !in live && Sorted(F') && F'[0].at == base && k - 1 < |F'| && F'[k - 1].at == F[k - 1].at
      && Conserved(F', live[a := n], granted) && Bounded(F', live[a := n], base, brk)
    ensures base <= F[k - 1].at && base < Taken(F, k, n).at
  {
    hide Conserved, Sorted, Take;
    TakeConserved(F, live, granted, k, n);
    TakeSorted(F, k, n);
    TakeBounded(F, live, base, brk, k, n);
  }

  /** Splitting a free block leaves the headers of live blocks alone. */
  lemma TakeSizes(F: seq<Block>, live: map<int, int>, granted: iset<int>, base: int, brk: int, k: nat, n: int,
                  size: map<int, int>, size': map<int, int>)
    requires Sorted(F) && Conserved(F, live, granted) && Bounded(F, live, base, brk) && 1 <= k < |F|
    requires 1 <= n <= F[k].len
    requires forall c :: c in live ==> c in size && size[c] == live[c]
    requires size' == if F[k].len == n then size else size[F[k].at := F[k].len - n][F[k].at + F[k].len - n := n]
    requires F[k].at in size && size[F[k].at] == F[k].len
    ensures forall c :: c in live[Taken(F, k, n).at := n] ==> c in size' && size'[c] == live[Taken(F, k, n).at := n][c]
  {
    forall c | c in live ensures c != F[k].at && c != F[k].at + F[k].len - n {
      LiveCovers(live, c, c);
      FreeCovers(F, k, c);
    }
    hide InFree, InLive;
  }

  class Heap {
    const base: int
    var freep: int
    var ptr: map<int, int>
    var size: map<int, int>
    ghost var F: seq<Block>         // the free list from base upwards; empty before the first malloc
    ghost var live: map<int, int>   // blocks handed out: address of the header, units
    ghost var granted: iset<int>    // every unit that sbrk ever returned
    ghost var brk: int              // end of the memory obtained so far

    ghost predicate Ready()
      reads this
    {
      && NULL < base < brk && Sorted(F) && F[0].at == base
      && Rep(ptr, size, F) && Conserved(F, live, granted) && Bounded(F, live, base, brk)
      && (forall a :: a in live ==> a in size && size[a] == live[a])
    }

    ghost predicate Valid()
      reads this
    {
      if freep == NULL then F == [] && live == map[] && granted == iset{} && NULL < base < brk
      else Ready() && exists s :: 0 <= s < |F| && F[s].at == freep
    }

    constructor (base: int, brk: int)
      requires NULL < base < brk
      ensures Valid() && freep == NULL && this.base == base && this.brk == brk
    {
      this.base, this.brk := base, brk;
      freep, ptr, size := NULL, map[], map[];
      F, live, granted := [], map[], iset{};
    }

    /** The search loop of free(): the last free block below bp, wherever the search starts. */
    method FindGap(bp: int) returns (p: int, ghost j: int)
      requires Ready() && bp in live && exists s :: 0 <= s < |F| && F[s].at == freep
      ensures 0 <= j < |F| && p == F[j].at && j == Slot(F, bp) && Fits(F, Block(bp, live[bp]), j)
    {
      LiveFits(F, live, granted, bp);
      j := Slot(F, bp);
      hide Conserved, Slot;
      ghost var i :| 0 <= i < |F| && F[i].at == freep;
      p := freep;
      assert Node(ptr, size, F, i);
      while !(bp > p && bp < ptr[p])
        invariant 0 <= i < |F| && p == F[i].at && Node(ptr, size, F, i)
        decreases Dist(i, j, |F|)
      {
        if p >= ptr[p] && (bp > p || bp < ptr[p]) {
          break;
        }
        AtGap(F, Block(bp, live[bp]), i, j);
        i := NextI(F, i);
        assert Node(ptr, size, F, i);
        p := ptr[p];
      }
      AtGap(F, Block(bp, live[bp]), i, j);
    }

    /** The second half of free(): link bp in behind p, merging where blocks touch. */
    method LinkIn(bp: int, p: int, ghost j: int)
      requires Sorted(F) && Rep(ptr, size, F) && 0 <= j < |F| && p == F[j].at && bp in live && bp in size
      requires size[bp] == live[bp]
      requires Fits(F, Block(bp, live[bp]), j)
      modifies this`ptr, this`size
      ensures Linked(old(ptr), old(size), F, Block(bp, live[bp]), j, ptr, size)
      ensures forall c :: c in old(size) && c != bp && c != p ==> c in size && size[c] == old(size)[c]
    {
      hide Sorted, Rep, Linked;
      ghost var b := Block(bp, live[bp]);
      LinkReads(ptr, size, F, j);
      ghost var ptr0, size0 := ptr, size;
      if bp + size[bp] == ptr[p] {
        size := size[bp := size[bp] + size[ptr[p]]];
        ptr := ptr[bp := ptr[ptr[p]]];
      } else {
        ptr := ptr[bp := ptr[p]];
      }
      if p + size[p] == bp {
        size := size[p := size[p] + size[bp]];
        ptr := ptr[p := ptr[bp]];
      } else {
        ptr := ptr[p := bp];
      }
      LinkedIs(ptr0, size0, F, b, j, ptr, size);
    }

    /** free() */
    method Free(ap: int) returns (ghost j: int)
      requires Valid() && ap - 1 in live
      modifies this
      ensures Valid() && freep != NULL && live == old(live) - {ap - 1} && granted == old(granted) && brk == old(brk)
      ensures var b := Block(ap - 1, old(live)[ap - 1]);
        0 <= j < |old(F)| && Fits(old(F), b, j) && F == Release(old(F), b, j)
      ensures j < |F| && F[j].at == freep
    {
      hide Conserved, Sorted, Rep, Bounded, Release, Fits, Linked;
      var bp := ap - 1;
      var p;
      p, j := FindGap(bp);
      ghost var b := Block(bp, live[bp]);
      ghost var size0 := size;
      ReleaseFacts(F, live, granted, base, brk, bp, j);
      LinkIn(bp, p, j);
      freep := p;
      ReleaseRep(old(ptr), old(size), F, b, j, ptr, size);
      SizesKept(F, live, granted, base, brk, bp, j, size0, size);
      F := Release(F, b, j);
      live := live - {bp};
    }

    /**
      morecore(), in a process of sz bytes without the pages `lost`, which may have grown since the
      last call.  The region is mapped exactly if sbrk added it.
     */
    method MoreCore(n: int, sz: int, lost: set<int>, supply: Supply) returns (r: int, b: Brk, ghost j: int)
      requires Valid() && freep != NULL && 1 <= n && n * HEADER <= UINT && Process(sz, lost) && brk * HEADER <= sz
      modifies this
      ensures Valid() && freep != NULL && live == old(live) && b == Answer(sz, lost, n, supply)
      ensures r == NULL <==> b.addr == -1
      ensures r == NULL ==> freep == old(freep) && F == old(F) && granted == old(granted) && brk == old(brk)
      ensures r != NULL ==> r == freep && granted == old(granted) + Region(sz / HEADER, Asked(n))
      ensures r != NULL ==> 0 <= j < |F| && F[j].at == freep && Enough(F, n)
      ensures r != NULL ==> Released(old(F), Fresh(sz / HEADER, n), j, F) && brk * HEADER == sz + Asked(n) * HEADER
      ensures r != NULL ==>
        (Mapped(b.sz, b.lost, sz, brk * HEADER) <==> Askable(n) && supply == Whole && sz / Vm.PGSIZE !in lost)
    {
      hide Conserved, Sorted, Rep, Bounded, Release, Answer, Mapped;
      var nu := n;
      if nu < 4096 {
        nu := 4096;
      }
      AnswerMapsIff(sz, lost, n, nu, supply);
      b := Answer(sz, lost, n, supply);
      if b.addr == -1 {
        return NULL, b, 0;
      }
      var hp := b.addr / HEADER;
      GrantFacts(F, live, granted, base, brk, hp, nu);
      RepKept(ptr, size, F, live, base, brk, size[hp := nu]);
      ghost var live0 := live;
      size := size[hp := nu];
      live := live[hp := nu];
      granted := granted + Region(hp, nu);
      brk := hp + nu;
      ghost var F0 := F;
      j := Free(hp + 1);
      assert live0[hp := nu] - {hp} == live0;
      MergedLarge(F0, Block(hp, nu), j);
      assert Enough(F, n);
      r := freep;
    }

    /** malloc()'s use of the block p, the successor of prevp. */
    method Carve(p0: int, prevp: int, n: int, ghost i: int) returns (r: int)
      requires Ready() && 1 <= i < |F| && p0 == F[i].at && prevp == F[i - 1].at && 1 <= n <= F[i].len
      modifies this
      ensures Valid() && freep == prevp && F == Take(old(F), i, n) && r == Taken(old(F), i, n).at + 1 && r != NULL
      ensures r - 1 !in old(live) && live == old(live)[r - 1 := n] && granted == old(granted) && brk == old(brk)
    {
      hide Conserved, Sorted, Rep, Bounded, Take;
      var p := p0;
      ghost var ptr0, size0 := ptr, size;
      LinkReads(ptr, size, F, i);
      LinkReads(ptr, size, F, i - 1);
      TakeFacts(F, live, granted, base, brk, i, n);
      if size[p] == n {
        ptr := ptr[prevp := ptr[p]];
      } else {
        size := size[p := size[p] - n];
        p := p + size[p];
        size := size[p := n];
      }
      freep := prevp;
      TakeRep(ptr0, size0, F, i, n, ptr, size);
      TakeSizes(F, live, granted, base, brk, i, n, size0, size);
      r := p + 1;
      live := live[p := n];
      F := Take(F, i, n);
    }

    /** The loop of malloc(), for n units. */
    method Search(n: int, sz: int, lost: set<int>, supply: Supply) returns (r: int, b: Brk, ghost k: int)
      requires Valid() && freep != NULL && 1 <= n && n * HEADER <= UINT && Process(sz, lost) && brk * HEADER <= sz
      modifies this
      ensures Valid() && b == if Enough(old(F), n) then Brk(sz, lost, sz) else Answer(sz, lost, n, supply)
      ensures r == NULL <==> !Enough(old(F), n) && b.addr == -1
      ensures r == NULL ==> live == old(live) && granted == old(granted) && brk == old(brk)
      ensures r != NULL ==> r - 1 !in old(live) && live == old(live)[r - 1 := n]
      ensures r != NULL && Enough(old(F), n) ==> granted == old(granted) && brk == old(brk)
      ensures r != NULL && !Enough(old(F), n) ==>
        granted == old(granted) + Region(sz / HEADER, Asked(n)) && brk * HEADER == sz + Asked(n) * HEADER
      // next fit: the first large enough block behind freep
      ensures Enough(old(F), n) ==>
        && 0 <= k < |old(F)| && old(F)[k].len >= n && F == Take(old(F), k, n) && r == Taken(old(F), k, n).at + 1
        && exists s :: 0 <= s < |old(F)| && old(F)[s].at == old(freep) && Seen(old(F), s, k, n)
      // else the region from sbrk is released into the list first
      ensures r != NULL && !Enough(old(F), n) ==> Extends(old(F), sz / HEADER, n, k, F, r)
    {
      hide Conserved, Sorted, Rep, Bounded, Take, Seen, Enough, Dist, NextI, Released, Extends, Answer, Asked, Fresh,
        Region, Mapped;
      b := Brk(sz, lost, sz);
      var prevp := freep;
      ghost var s: int :| 0 <= s < |F| && F[s].at == freep;
      ghost var h, more := s, false;
      LinkReads(ptr, size, F, s);
      SeenStart(F, s, n);
      k := NextI(F, s);
      var p := ptr[prevp];
      while true
        invariant Ready() && freep != NULL && live == old(live)
        invariant 0 <= s < |F| && 0 <= h < |F| && F[s].at == freep && prevp == F[h].at
        invariant 0 <= k < |F| && k == NextI(F, h) && p == F[k].at && Seen(F, s, k, n)
        invariant !more ==> F == old(F) && granted == old(granted) && brk == old(brk) && freep == old(freep)
        invariant !more ==> b == Brk(sz, lost, sz)
        invariant more ==> Enough(F, n) && !Enough(old(F), n) && b == Answer(sz, lost, n, supply) && b.addr != -1
        invariant more ==> granted == old(granted) + Region(sz / HEADER, Asked(n))
        invariant more ==> brk * HEADER == sz + Asked(n) * HEADER
        invariant more ==> exists j :: Released(old(F), Fresh(sz / HEADER, n), j, F)
        decreases !more, Dist(k, s, |F|)
      {
        LinkReads(ptr, size, F, k);
        if size[p] >= n {
          Found(F, h, k, n);
          assert F[k].len >= n;
          if more { ExtendsIs(old(F), F, sz / HEADER, n, k); }
          r := Carve(p, prevp, n, k);
          return;
        }
        AllSmall(F, s, k, n);
        if p == freep {
          p, b, s := MoreCore(n, sz, lost, supply);
          if p == NULL {
            return NULL, b, k;
          }
          more := true;
          k := s;
          LinkReads(ptr, size, F, k);
          SeenStart(F, s, n);
        } else {
          SeenNext(F, s, k, n);
        }
        h := k;
        prevp := p;
        k := NextI(F, k);
        p := ptr[p];
      }
    }

    /** The free list malloc() searches: the first call makes one of base alone. */
    ghost function Listed(): seq<Block>
      reads this
    {
      if freep == NULL then [Block(base, 0)] else F
    }

    /**
      malloc(), in a process of sz bytes without the pages `lost`.  The block it returns is usable
      exactly if rounding the size up did not wrap and its pages are there: those of the free block
      it is cut from, or else those of the region that sbrk was asked for and found.
     */
    method Malloc(nbytes: int, sz: int, lost: set<int>, supply: Supply) returns (r: int, b: Brk, ghost k: int)
      requires Valid() && 0 <= nbytes < UINT && Process(sz, lost) && brk * HEADER <= sz
      modifies this
      ensures Valid()
      ensures b == if Enough(old(Listed()), Units(nbytes)) then Brk(sz, lost, sz)
                   else Answer(sz, lost, Units(nbytes), supply)
      ensures r == NULL <==> !Enough(old(Listed()), Units(nbytes)) && b.addr == -1
      ensures r == NULL ==> live == old(live) && granted == old(granted) && brk == old(brk)
      ensures r != NULL ==> r - 1 !in old(live) && live == old(live)[r - 1 := Units(nbytes)]
      ensures r != NULL && Enough(old(Listed()), Units(nbytes)) ==> granted == old(granted) && brk == old(brk)
      ensures r != NULL && !Enough(old(Listed()), Units(nbytes)) ==>
        && granted == old(granted) + Region(sz / HEADER, Asked(Units(nbytes)))
        && brk * HEADER == sz + Asked(Units(nbytes)) * HEADER
      // next fit: the first large enough block behind freep
      ensures Enough(old(Listed()), Units(nbytes)) ==>
        && 0 <= k < |old(F)| && old(F)[k].len >= Units(nbytes)
        && F == Take(old(F), k, Units(nbytes)) && r == Taken(old(F), k, Units(nbytes)).at + 1
        && exists s :: 0 <= s < |old(F)| && old(F)[s].at == old(freep) && Seen(old(F), s, k, Units(nbytes))
      // when the block can be used
      ensures r != NULL && Enough(old(Listed()), Units(nbytes)) ==>
        var hi := (old(F)[k].at + old(F)[k].len) * HEADER;
        (Usable(r - 1, Units(nbytes), nbytes, b) <==>
         nbytes + HEADER - 1 < UINT && Mapped(sz, lost, hi - Units(nbytes) * HEADER, hi))
      ensures r != NULL && !Enough(old(Listed()), Units(nbytes)) ==>
        var hi := sz + Asked(Units(nbytes)) * HEADER;
        (Usable(r - 1, Units(nbytes), nbytes, b) <==>
         && nbytes + HEADER - 1 < UINT && Askable(Units(nbytes)) && supply == Whole
         && (hi - Units(nbytes) * HEADER) / Vm.PGSIZE !in lost)
      // else the region from sbrk is released into the list first
      ensures r != NULL && !Enough(old(Listed()), Units(nbytes)) ==>
        Extends(old(Listed()), sz / HEADER, Units(nbytes), k, F, r)
    {
      hide Conserved, Sorted, Rep, Bounded, Take, Units, Seen, Enough, Extends, Answer, Usable, Askable, Asked, Region,
        Mapped, Process;
      var nunits := Units(nbytes);
      UnitsRange(nbytes);
      if freep == NULL {
        ptr, freep := ptr[base := base], base;
        size := size[base := 0];
        F := [Block(base, 0)];
        FirstFacts(base, brk, ptr, size);
      }
      ghost var F0, brk0 := F, brk;
      BlocksBelow(F, live, base, brk);
      r, b, k := Search(nunits, sz, lost, supply);
      if r != NULL {
        if Enough(F0, nunits) {
          OldUsableIff(F0, k, b, nbytes);
        } else {
          NewUsableIff(F0, F, sz, lost, nbytes, supply, k, brk0, r);
        }
      }
    }
  }

  lemma BlocksBelow(F: seq<Block>, live: map<int, int>, base: int, brk: int)
    requires Bounded(F, live, base, brk)
    ensures forall i :: 0 <= i < |F| ==> F[i].at + F[i].len <= brk
  {
  }

  /** A block of the list before is usable exactly if its payload is large enough and its pages are there. */
  lemma OldUsableIff(F: seq<Block>, k: int, b: Brk, nbytes: int)
    requires 0 <= k < |F| && 0 <= nbytes < UINT && Units(nbytes) <= F[k].len
    ensures var hi := (F[k].at + F[k].len) * HEADER;
      Usable(Taken(F, k, Units(nbytes)).at, Units(nbytes), nbytes, b) <==>
      nbytes + HEADER - 1 < UINT && Mapped(b.sz, b.lost, hi - Units(nbytes) * HEADER, hi)
  {
    UnitsEnoughIff(nbytes);
    hide Units, Mapped;
  }

  /** A block of the region that sbrk answered for is usable exactly if besides that its end of the region is mapped. */
  lemma NewUsableIff(F: seq<Block>, G: seq<Block>, sz: int, lost: set<int>, nbytes: int, supply: Supply, k: int,
                     brk: int, r: int)
    requires 0 <= nbytes < UINT && Process(sz, lost) && brk * HEADER <= sz
    requires Answer(sz, lost, Units(nbytes), supply).addr != -1 && Sorted(F) && !Enough(F, Units(nbytes))
    requires Extends(F, sz / HEADER, Units(nbytes), k, G, r)
    requires forall i :: 0 <= i < |F| ==> F[i].at + F[i].len <= brk
    ensures var hi := sz + Asked(Units(nbytes)) * HEADER;
      Usable(r - 1, Units(nbytes), nbytes, Answer(sz, lost, Units(nbytes), supply)) <==>
      && nbytes + HEADER - 1 < UINT && Askable(Units(nbytes)) && supply == Whole
      && (hi - Units(nbytes) * HEADER) / Vm.PGSIZE !in lost
  {
    hide Sorted, Answer, Enough, Released, Askable, Mapped;
    var H: seq<Block>, j :| Released(F, Fresh(sz / HEADER, Units(nbytes)), j, H) && 0 <= k < |H|
      && 1 <= Units(nbytes) <= H[k].len && G == Take(H, k, Units(nbytes)) && r == Taken(H, k, Units(nbytes)).at + 1;
    NewBlockOnly(F, H, sz / HEADER, Units(nbytes), k, brk);
    UnitsRange(nbytes);
    UnitsEnoughIff(nbytes);
    AnswerMapsIff(sz, lost, Units(nbytes), Units(nbytes), supply);
    hide Units;
  }

  /** A process of 16384 bytes asks for 2^32 - 8 bytes or for 2^31: malloc() answers with memory it never got. */
  method PhantomBlock(nbytes: int) returns (r: int, b: Brk)
    requires nbytes == UINT - 8 || nbytes == UINT / 2
    ensures r != NULL && b == Brk(16384, {}, 16384) && !Usable(r - 1, Units(nbytes), nbytes, b)
  {
    hide Sorted, Rep, Conserved, Bounded, Extends, Take, Seen, Mapped, Region;
    var h := new Heap(1, 2048);
    WrappedRequests();
    NeverEnough(Units(nbytes));
    ghost var k;
    r, b, k := h.Malloc(nbytes, 16384, {}, Whole);
  }

  /**
    A process of 1017 pages, with 8 free: malloc(20000) loses the last page of its region.  The
    block freed and asked for again is given out again, without sbrk and without its page.
   */
  method LostBlockReused() returns (r: int, b: Brk)
    ensures r != NULL && b == Brk(1025 * Vm.PGSIZE, {1024}, 1025 * Vm.PGSIZE) && !Usable(r - 1, Units(20000), 20000, b)
  {
    hide Sorted, Rep, Conserved, Bounded, Enough, Extends, Take, Release, Fits, Seen, Mapped, Usable, Units, Answer,
      Asked, Region, Process;
    var sz := 1017 * Vm.PGSIZE;
    var h := new Heap(1, sz / HEADER);
    ExampleAnswer();
    ghost var k;
    r, b, k := h.Malloc(20000, sz, {}, AllButLast);
    ExampleTaken(k, h.F, r);
    k := h.Free(r);
    ExampleFreed(k, h.F);
    r, b := ExampleAgain(h);
  }

  /** The second of these calls of malloc(). */
  method ExampleAgain(h: Heap) returns (r: int, b: Brk)
    requires h.Valid() && h.freep != NULL && h.F == [Block(1, 0), Block(520704, 4096)] && h.brk == 524800
    modifies h
    ensures r != NULL && b == Brk(1025 * Vm.PGSIZE, {1024}, 1025 * Vm.PGSIZE) && !Usable(r - 1, Units(20000), 20000, b)
  {
    hide Sorted, Rep, Conserved, Bounded, Enough, Extends, Take, Seen, Mapped, Usable, Units, Answer, Asked, Region,
      Process;
    ExampleLost();
    ghost var k;
    r, b, k := h.Malloc(20000, 1025 * Vm.PGSIZE, {1024}, Whole);
  }

  lemma ExampleAnswer()
    ensures Units(20000) == 2501 && Asked(2501) == 4096 && Process(1017 * Vm.PGSIZE, {}) && !Enough([Block(1, 0)], 2501)
    ensures Answer(1017 * Vm.PGSIZE, {}, 2501, AllButLast) == Brk(1025 * Vm.PGSIZE, {1024}, 1017 * Vm.PGSIZE)
  {
    ArgMeant(2501);
    hide PagesOf;
  }

  lemma ExampleTaken(k: int, G: seq<Block>, r: int)
    requires Extends([Block(1, 0)], 520704, 2501, k, G, r)
    ensures G == [Block(1, 0), Block(520704, 1595)] && r == 522300
  {
    var H: seq<Block>, j :| Released([Block(1, 0)], Block(520704, 4096), j, H) && 0 <= k < |H| && 1 <= 2501 <= H[k].len
      && G == Take(H, k, 2501) && r == Taken(H, k, 2501).at + 1;
    assert H == [Block(1, 0), Block(520704, 4096)];
  }

  lemma ExampleFreed(j: int, G: seq<Block>)
    requires var F := [Block(1, 0), Block(520704, 1595)];
      0 <= j < |F| && Fits(F, Block(522299, 2501), j) && G == Release(F, Block(522299, 2501), j)
    ensures G == [Block(1, 0), Block(520704, 4096)]
  {
  }

  lemma ExampleLost()
    ensures Units(20000) == 2501
    ensures Enough([Block(1, 0), Block(520704, 4096)], 2501) && Process(1025 * Vm.PGSIZE, {1024})
    ensures !Mapped(1025 * Vm.PGSIZE, {1024}, (520704 + 4096) * HEADER - 2501 * HEADER, (520704 + 4096) * HEADER)
  {
    assert 1024 in {1024};
    assert [Block(1, 0), Block(520704, 4096)][1].len >= 2501;
  }

  // ---------------------------------------------------------------- any sequence of calls

  /** What a program does with memory: malloc, free of a block that it holds, sbrk for whole units. */
  datatype Request = Ask(nbytes: int, supply: Supply) | Return(p: int) | Grow(u: int, supply: Supply)

  /** No more is asked for than sbrk can be told. */
  predicate Fair(q: Request) {
    match q
    case Ask(nbytes, _) => 0 <= nbytes < UINT && Askable(Units(nbytes))
    case Return(_) => true
    case Grow(u, _) => 0 < u * HEADER < KERNBASE
  }

  /** ... no rounding wraps, and no call loses a page. */
  predicate Plain(q: Request) {
    match q
    case Ask(nbytes, supply) => nbytes + HEADER - 1 < UINT && supply != AllButLast
    case Return(_) => true
    case Grow(_, supply) => supply != AllButLast
  }

  /** The blocks handed out are those that the program holds: pointers, with the bytes it asked for. */
  ghost predicate Owns(live: map<int, int>, held: map<int, int>) {
    && (forall p :: p in held ==> 0 <= held[p] < UINT && p - 1 in live && live[p - 1] == Units(held[p]))
    && (forall a :: a in live ==> a + 1 in held)
  }

  ghost predicate Rounded(held: map<int, int>) {
    forall p :: p in held ==> 0 <= held[p] && held[p] + HEADER - 1 < UINT
  }

  lemma OwnsAt(live: map<int, int>, held: map<int, int>, p: int)
    requires Owns(live, held) && p in held
    ensures 0 <= held[p] < UINT && p - 1 in live && live[p - 1] == Units(held[p])
  {
    hide Units;
  }

  lemma OwnsMore(live: map<int, int>, held: map<int, int>, p: int, nbytes: int)
    requires Owns(live, held) && p - 1 !in live && 0 <= nbytes < UINT
    ensures Owns(live[p - 1 := Units(nbytes)], held[p := nbytes])
    ensures Rounded(held) && nbytes + HEADER - 1 < UINT ==> Rounded(held[p := nbytes])
  {
    hide Units;
  }

  lemma OwnsLess(live: map<int, int>, held: map<int, int>, p: int)
    requires Owns(live, held) && p in held
    ensures p - 1 in live && Owns(live - {p - 1}, held - {p}) && (Rounded(held) ==> Rounded(held - {p}))
  {
    hide Units;
  }

  /** One of these calls. */
  method Serve(h: Heap, q: Request, held0: map<int, int>, sz0: int, lost0: set<int>)
    returns (held: map<int, int>, sz: int, lost: set<int>)
    requires h.Valid() && Process(sz0, lost0) && h.brk * HEADER <= sz0 && Owns(h.live, held0) && Fair(q)
    modifies h
    ensures h.Valid() && Process(sz, lost) && h.brk * HEADER <= sz && Owns(h.live, held)
    ensures Plain(q) ==> lost == lost0 && (Rounded(held0) ==> Rounded(held))
  {
    hide Owns, Rounded, Usable, Mapped, Answer, Enough, Extends, Seen, Askable, Asked, Units, Take, Sorted, Rep,
      Conserved, Bounded, PagesOf, Region;
    held, sz, lost := held0, sz0, lost0;
    match q
    case Ask(nbytes, supply) =>
      UnitsRange(nbytes);
      AnswerKeeps(sz, lost, Units(nbytes), supply);
      ghost var live := h.live;
      var p, b, k := h.Malloc(nbytes, sz, lost, supply);
      sz, lost := b.sz, b.lost;
      if p != NULL {
        OwnsMore(live, held, p, nbytes);
        held := held[p := nbytes];
      }
    case Return(p) =>
      if p in held {
        OwnsLess(h.live, held, p);
        var j := h.Free(p);
        held := held - {p};
      }
    case Grow(u, supply) =>
      GrowKeeps(sz, lost, u, supply);
      var b := Sbrk(sz, lost, u * HEADER, supply);
      sz, lost := b.sz, b.lost;
  }

  /** Two blocks of units do not overlap. */
  predicate Disjoint(a: int, m: int, b: int, n: int) {
    a + m <= b || b + n <= a
  }

  lemma LiveDisjoint(F: seq<Block>, live: map<int, int>, granted: iset<int>, base: int, brk: int, a: int, b: int)
    requires Conserved(F, live, granted) && Bounded(F, live, base, brk) && a in live && b in live && a != b
    ensures Disjoint(a, live[a], b, live[b])
  {
    var u := if a < b then b else a;
    assert !(Covers(Block(a, live[a]), u) && Covers(Block(b, live[b]), u));
  }

  /** What the program holds: no two blocks share a unit, and without lost pages every one can be used. */
  ghost predicate Sound(held: map<int, int>, sz: int, lost: set<int>) {
    && (forall p :: p in held ==> 0 <= held[p] < UINT)
    && (forall p, q :: p in held && q in held && p != q ==> Disjoint(p - 1, Units(held[p]), q - 1, Units(held[q])))
    && (lost == {} && Rounded(held) ==>
          forall p :: p in held ==> Usable(p - 1, Units(held[p]), held[p], Brk(sz, lost, 0)))
  }

  lemma HeldUsable(live: map<int, int>, F: seq<Block>, base: int, brk: int, held: map<int, int>, sz: int, p: int)
    requires Bounded(F, live, base, brk) && Owns(live, held) && brk * HEADER <= sz && p in held && Rounded(held)
    ensures 0 <= held[p] < UINT && Usable(p - 1, Units(held[p]), held[p], Brk(sz, {}, 0))
  {
    OwnsAt(live, held, p);
    UnitsEnoughIff(held[p]);
    hide Units, Owns;
  }

  lemma ValidSound(F: seq<Block>, live: map<int, int>, granted: iset<int>, base: int, brk: int,
                   held: map<int, int>, sz: int, lost: set<int>)
    requires Conserved(F, live, granted) && Bounded(F, live, base, brk) && Owns(live, held) && brk * HEADER <= sz
    ensures Sound(held, sz, lost)
  {
    hide Conserved, Bounded, Units, Disjoint, Usable, Rounded, Owns;
    forall p | p in held ensures 0 <= held[p] < UINT {
      OwnsAt(live, held, p);
    }
    forall p, q | p in held && q in held && p != q
      ensures Disjoint(p - 1, Units(held[p]), q - 1, Units(held[q]))
    {
      OwnsAt(live, held, p);
      OwnsAt(live, held, q);
      LiveDisjoint(F, live, granted, base, brk, p - 1, q - 1);
    }
    if Rounded(held) {
      forall p | p in held ensures Usable(p - 1, Units(held[p]), held[p], Brk(sz, {}, 0)) {
        HeldUsable(live, F, base, brk, held, sz, p);
      }
    }
  }

  lemma NothingHeld(held: map<int, int>, sz: int, lost: set<int>)
    requires Owns(map[], held)
    ensures Sound(held, sz, lost)
  {
  }

  /**
    Any sequence of malloc, free and sbrk: the heap stays one and lies within the process, so that
    the next call can be made; the blocks that the program holds are exactly those handed out and
    not freed, no two of them overlap, and without lost pages each has its bytes in mapped memory.
   */
  method Session(h: Heap, qs: seq<Request>, held0: map<int, int>, sz0: int, lost0: set<int>)
    returns (held: map<int, int>, sz: int, lost: set<int>)
    requires h.Valid() && Process(sz0, lost0) && h.brk * HEADER <= sz0 && Owns(h.live, held0)
    requires forall i :: 0 <= i < |qs| ==> Fair(qs[i])
    modifies h
    ensures h.Valid() && Process(sz, lost) && h.brk * HEADER <= sz && Owns(h.live, held) && Sound(held, sz, lost)
    ensures (forall i :: 0 <= i < |qs| ==> Plain(qs[i])) ==> lost == lost0 && (Rounded(held0) ==> Rounded(held))
  {
    hide Process, Sound, Rounded, Plain, Fair, Sorted, Rep, Conserved, Bounded, Units;
    held, sz, lost := held0, sz0, lost0;
    for i := 0 to |qs|
      invariant h.Valid() && Process(sz, lost) && h.brk * HEADER <= sz && Owns(h.live, held)
      invariant (forall j :: 0 <= j < i ==> Plain(qs[j])) ==> lost == lost0 && (Rounded(held0) ==> Rounded(held))
    {
      held, sz, lost := Serve(h, qs[i], held, sz, lost);
    }
    if h.freep == NULL {
      NothingHeld(held, sz, lost);
    } else {
      ValidSound(h.F, h.live, h.granted, h.base, h.brk, held, sz, lost);
    }
  }
}
