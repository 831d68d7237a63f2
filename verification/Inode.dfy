/**
  The block and inode layers of fs.c: bitmap allocation, the direct and indirect block map,
  and byte-range reads and writes.  Block contents are what bread returns, that is the cached
  and logged contents.
 */
module Inode {
  import opened Bitmap
  import opened Params

  const BSIZE: int := 512
  const BPB: int := 4096 // bitmap bits per block
  const NDIRECT: int := 10
  const NINDIRECT: int := 128
  const MAXFILE: int := 138
  const NSLOTS: int := 139 // direct slots, the indirect pointer, indirect entries
  const IPB: int := 8 // inodes per block

  type Block = seq<int>

  datatype Type = Free | Dir | File | Dev

  datatype Inode = Inode(typ: Type, nlink: int, size: int, addrs: seq<int>)

  // ---------------------------------------------------------------- words in an indirect block

  /** The j-th 32-bit little-endian word. */
  function Word(d: Block, j: int): int
    requires |d| == BSIZE && 0 <= j < NINDIRECT
  {
    d[4 * j] + 0x100 * d[4 * j + 1] + 0x1_0000 * d[4 * j + 2] + 0x100_0000 * d[4 * j + 3]
  }

  function PutWord(d: Block, j: int, v: int): (r: Block)
    requires |d| == BSIZE && 0 <= j < NINDIRECT
    ensures |r| == BSIZE
  {
    d[4 * j := v % 0x100][4 * j + 1 := v / 0x100 % 0x100]
     [4 * j + 2 := v / 0x1_0000 % 0x100][4 * j + 3 := v / 0x100_0000]
  }

  function Zero(): (r: Block)
    ensures |r| == BSIZE && forall k :: 0 <= k < BSIZE ==> r[k] == 0
  {
    seq(BSIZE, _ => 0)
  }

  lemma PutWordAt(d: Block, j: int, v: int, k: int)
    requires |d| == BSIZE && 0 <= j < NINDIRECT && 0 <= k < NINDIRECT
    ensures Word(PutWord(d, j, v), k) == if k == j then v else Word(d, k)
  {
    if k == j {
      SplitWord(v);
    } else {
      var r := PutWord(d, j, v);
      assert r[4 * k] == d[4 * k] && r[4 * k + 1] == d[4 * k + 1] && r[4 * k + 2] == d[4 * k + 2]
        && r[4 * k + 3] == d[4 * k + 3];
      hide PutWord;
    }
  }

  lemma SplitWord(v: int)
    ensures v % 0x100 + 0x100 * (v / 0x100 % 0x100) + 0x1_0000 * (v / 0x1_0000 % 0x100) +
      0x100_0000 * (v / 0x100_0000) == v
  {
    var a := v / 0x100;
    var b := a / 0x100;
    assert b == v / 0x1_0000;
    assert b / 0x100 == v / 0x100_0000;
    assert v == 0x100 * a + v % 0x100;
    assert a == 0x100 * b + a % 0x100;
    assert b == 0x100 * (b / 0x100) + b % 0x100;
  }

  lemma ZeroWord(k: int)
    requires 0 <= k < NINDIRECT
    ensures Word(Zero(), k) == 0
  {
  }

  // ---------------------------------------------------------------- state

  datatype Layout = Layout(nblocks: int, dataStart: int, bmapStart: int, inodeStart: int, ninodes: int) {
    ghost predicate Valid() {
      0 < dataStart <= nblocks && ninodes >= 0
    }
  }

  datatype FS = FS(bm: Bytes, blocks: seq<Block>, inode: seq<Inode>)

  type Slot = (int, int)

  ghost predicate Shape(L: Layout, s: FS) {
    && L.Valid() && |s.blocks| == L.nblocks && L.nblocks <= 8 * |s.bm| && |s.inode| == L.ninodes
    && (forall b :: 0 <= b < L.nblocks ==> |s.blocks[b]| == BSIZE)
    && (forall i :: 0 <= i < L.ninodes ==>
          |s.inode[i].addrs| == NDIRECT + 1 && 0 <= s.inode[i].addrs[NDIRECT] < L.nblocks)
  }

  predicate IsSlot(L: Layout, i: int, k: int) {
    0 <= i < L.ninodes && 0 <= k < NSLOTS
  }

  /** The block number in slot k of inode i; 0 means none. */
  function Addr(L: Layout, s: FS, i: int, k: int): int
    requires Shape(L, s) && IsSlot(L, i, k)
  {
    var a := s.inode[i].addrs;
    if k <= NDIRECT then a[k]
    else if a[NDIRECT] == 0 then 0
    else Word(s.blocks[a[NDIRECT]], k - NDIRECT - 1)
  }

  /** The slot of the bn-th block of a file. */
  function DataSlot(bn: int): int {
    if bn < NDIRECT then bn else bn + 1
  }

  /**
    Block ownership: every block number in a slot belongs to that slot alone, and a bitmap bit is
    set exactly for metadata blocks and owned blocks.
   */
  ghost predicate Owned(L: Layout, s: FS, owner: map<int, Slot>)
    requires Shape(L, s)
  {
    && (forall i, k :: IsSlot(L, i, k) && Addr(L, s, i, k) != 0 ==>
          Addr(L, s, i, k) in owner && owner[Addr(L, s, i, k)] == (i, k))
    && (forall b :: b in owner ==>
          L.dataStart <= b < L.nblocks && IsSlot(L, owner[b].0, owner[b].1) && Addr(L, s, owner[b].0, owner[b].1) == b)
    && (forall b :: 0 <= b < L.nblocks ==> (Bit(s.bm, b) <==> b < L.dataStart || b in owner))
  }

  // ---------------------------------------------------------------- allocation of one block

  /** t differs from s by block b, zeroed, in slot k of inode i, which was empty. */
  ghost predicate Assigned(L: Layout, s: FS, t: FS, owner: map<int, Slot>, i: int, k: int, b: int)
    requires Shape(L, s)
  {
    && Shape(L, t) && IsSlot(L, i, k) && L.dataStart <= b < L.nblocks && b !in owner
    && Addr(L, s, i, k) == 0
    && t.bm == SetBit(s.bm, b)
    && (forall j, m :: IsSlot(L, j, m) ==> Addr(L, t, j, m) == if (j, m) == (i, k) then b else Addr(L, s, j, m))
    && t.blocks[b] == Zero()
    && (forall c :: c in owner && 0 <= c < L.nblocks && owner[c].1 != NDIRECT ==> t.blocks[c] == s.blocks[c])
    && (forall j :: 0 <= j < L.ninodes ==> t.inode[j] == s.inode[j].(addrs := t.inode[j].addrs))
    && (forall j :: 0 <= j < L.ninodes && j != i ==> t.inode[j] == s.inode[j])
  }

  lemma AssignedOwned(L: Layout, s: FS, t: FS, owner: map<int, Slot>, i: int, k: int, b: int)
    requires Shape(L, s) && Owned(L, s, owner) && Assigned(L, s, t, owner, i, k, b)
    ensures Owned(L, t, owner[b := (i, k)])
  {
    hide Addr, Bit, SetBit;
    forall c | 0 <= c < L.nblocks ensures Bit(t.bm, c) <==> c < L.dataStart || c in owner[b := (i, k)] {
      BitAfterSet(L, s, t, b, c);
    }
  }

  lemma BitAfterSet(L: Layout, s: FS, t: FS, b: int, c: int)
    requires Shape(L, s) && Shape(L, t) && 0 <= b < L.nblocks && 0 <= c < L.nblocks && t.bm == SetBit(s.bm, b)
    ensures Bit(t.bm, c) <==> c == b || Bit(s.bm, c)
  {
    SetBitAt(s.bm, b, c);
  }

  /** Putting a fresh block into a direct slot or the indirect pointer. */
  function WithAddr(s: FS, i: int, k: int, b: int): FS
    requires 0 <= b < |s.blocks| && b < 8 * |s.bm| && 0 <= i < |s.inode| && 0 <= k < |s.inode[i].addrs|
  {
    s.(bm := SetBit(s.bm, b), blocks := s.blocks[b := Zero()],
       inode := s.inode[i := s.inode[i].(addrs := s.inode[i].addrs[k := b])])
  }

  /** Putting a fresh block into an entry of the indirect block. */
  function WithEntry(s: FS, i: int, k: int, b: int): FS
    requires 0 <= b < |s.blocks| && b < 8 * |s.bm| && 0 <= i < |s.inode| && |s.inode[i].addrs| == NDIRECT + 1
    requires 0 <= s.inode[i].addrs[NDIRECT] < |s.blocks| && NDIRECT < k < NSLOTS
    requires |s.blocks[s.inode[i].addrs[NDIRECT]]| == BSIZE
  {
    var ind := s.inode[i].addrs[NDIRECT];
    var d := if ind == b then Zero() else s.blocks[ind];
    s.(bm := SetBit(s.bm, b), blocks := s.blocks[b := Zero()][ind := PutWord(d, k - NDIRECT - 1, b)])
  }

  lemma IndirectOwned(L: Layout, s: FS, owner: map<int, Slot>, j: int)
    requires Shape(L, s) && Owned(L, s, owner) && 0 <= j < L.ninodes && s.inode[j].addrs[NDIRECT] != 0
    ensures s.inode[j].addrs[NDIRECT] in owner && owner[s.inode[j].addrs[NDIRECT]] == (j, NDIRECT)
  {
    assert Addr(L, s, j, NDIRECT) == s.inode[j].addrs[NDIRECT];
  }

  lemma WithAddrAssigned(L: Layout, s: FS, owner: map<int, Slot>, i: int, k: int, b: int)
    requires Shape(L, s) && Owned(L, s, owner) && 0 <= i < L.ninodes && 0 <= k <= NDIRECT
    requires s.inode[i].addrs[k] == 0 && L.dataStart <= b < L.nblocks && b !in owner
    ensures Assigned(L, s, WithAddr(s, i, k, b), owner, i, k, b)
  {
    var t := WithAddr(s, i, k, b);
    hide Word, SetBit;
    assert Shape(L, t);
    forall j, m | IsSlot(L, j, m)
      ensures Addr(L, t, j, m) == if (j, m) == (i, k) then b else Addr(L, s, j, m)
    {
      WithAddrAt(L, s, owner, i, k, b, j, m);
    }
    hide Owned, Addr, Shape;
  }

  lemma WithAddrAt(L: Layout, s: FS, owner: map<int, Slot>, i: int, k: int, b: int, j: int, m: int)
    requires Shape(L, s) && Owned(L, s, owner) && 0 <= i < L.ninodes && 0 <= k <= NDIRECT && IsSlot(L, j, m)
    requires s.inode[i].addrs[k] == 0 && L.dataStart <= b < L.nblocks && b !in owner && Shape(L, WithAddr(s, i, k, b))
    ensures Addr(L, WithAddr(s, i, k, b), j, m) == if (j, m) == (i, k) then b else Addr(L, s, j, m)
  {
    if s.inode[j].addrs[NDIRECT] != 0 { IndirectOwned(L, s, owner, j); }
    if m > NDIRECT { ZeroWord(m - NDIRECT - 1); }
    hide Word, SetBit, Owned;
  }

  lemma WithEntryAssigned(L: Layout, s: FS, owner: map<int, Slot>, i: int, k: int, b: int)
    requires Shape(L, s) && Owned(L, s, owner) && 0 <= i < L.ninodes && NDIRECT < k < NSLOTS
    requires s.inode[i].addrs[NDIRECT] != 0 && Addr(L, s, i, k) == 0 && L.dataStart <= b < L.nblocks && b !in owner
    ensures Assigned(L, s, WithEntry(s, i, k, b), owner, i, k, b)
  {
    IndirectOwned(L, s, owner, i);
    hide Word, SetBit, PutWord;
    var t := WithEntry(s, i, k, b);
    assert Shape(L, t);
    forall j, m | IsSlot(L, j, m)
      ensures Addr(L, t, j, m) == if (j, m) == (i, k) then b else Addr(L, s, j, m)
    {
      WithEntryAt(L, s, owner, i, k, b, j, m);
    }
    hide Owned, Addr, Shape;
  }

  lemma WithEntryAt(L: Layout, s: FS, owner: map<int, Slot>, i: int, k: int, b: int, j: int, m: int)
    requires Shape(L, s) && Owned(L, s, owner) && 0 <= i < L.ninodes && NDIRECT < k < NSLOTS && IsSlot(L, j, m)
    requires s.inode[i].addrs[NDIRECT] != 0 && L.dataStart <= b < L.nblocks && b !in owner
    requires Shape(L, WithEntry(s, i, k, b))
    ensures Addr(L, WithEntry(s, i, k, b), j, m) == if (j, m) == (i, k) then b else Addr(L, s, j, m)
  {
    IndirectOwned(L, s, owner, i);
    if s.inode[j].addrs[NDIRECT] != 0 { IndirectOwned(L, s, owner, j); }
    if m > NDIRECT {
      PutWordAt(s.blocks[s.inode[i].addrs[NDIRECT]], k - NDIRECT - 1, b, m - NDIRECT - 1);
    }
    hide Word, SetBit, Owned, PutWord;
  }

  // ---------------------------------------------------------------- file contents

  const MAXBYTES: int := MAXFILE * BSIZE

  /** The byte at position pos of inode i; an unmapped block reads as zeros. */
  function ByteAt(L: Layout, s: FS, i: int, pos: int): int
    requires Shape(L, s) && 0 <= i < L.ninodes && 0 <= pos < MAXBYTES
  {
    var a := Addr(L, s, i, DataSlot(pos / BSIZE));
    if 0 < a < L.nblocks then s.blocks[a][pos % BSIZE] else 0
  }

  function FileBytes(L: Layout, s: FS, i: int): (r: seq<int>)
    requires Shape(L, s) && 0 <= i < L.ninodes && 0 <= s.inode[i].size <= MAXBYTES
    ensures |r| == s.inode[i].size && forall pos :: 0 <= pos < |r| ==> r[pos] == ByteAt(L, s, i, pos)
  {
    seq(s.inode[i].size, pos requires 0 <= pos < s.inode[i].size => ByteAt(L, s, i, pos))
  }

  ghost predicate SameBytes(L: Layout, s: FS, t: FS)
    requires Shape(L, s) && Shape(L, t)
  {
    forall j, pos :: 0 <= j < L.ninodes && 0 <= pos < MAXBYTES ==> ByteAt(L, t, j, pos) == ByteAt(L, s, j, pos)
  }

  /** Allocating a block changes no file's bytes: the new block reads as the hole it fills. */
  lemma AssignedBytes(L: Layout, s: FS, t: FS, owner: map<int, Slot>, i: int, k: int, b: int)
    requires Shape(L, s) && Owned(L, s, owner) && Assigned(L, s, t, owner, i, k, b)
    ensures SameBytes(L, s, t)
  {
    hide Addr, Bit, SetBit;
    forall j, pos | 0 <= j < L.ninodes && 0 <= pos < MAXBYTES ensures ByteAt(L, t, j, pos) == ByteAt(L, s, j, pos) {
      var m := DataSlot(pos / BSIZE);
      assert IsSlot(L, j, m) && m != NDIRECT;
      var c := Addr(L, s, j, m);
      if c != 0 { assert owner[c] == (j, m); }
    }
  }

  /** Blocks of the first n bytes of i are mapped, and no others. */
  ghost predicate MappedTo(L: Layout, s: FS, i: int, n: int)
    requires Shape(L, s) && 0 <= i < L.ninodes
  {
    && (forall bn :: 0 <= bn < MAXFILE ==> (Addr(L, s, i, DataSlot(bn)) != 0 <==> bn * BSIZE < n))
    && (Addr(L, s, i, NDIRECT) != 0 <==> NDIRECT * BSIZE < n)
  }

  /** A data block overwritten from offset o on. */
  function Patch(d: Block, o: int, src: seq<int>): (r: Block)
    requires 0 <= o && o + |src| <= |d|
    ensures |r| == |d|
    ensures forall k :: 0 <= k < |d| ==> r[k] == if o <= k < o + |src| then src[k - o] else d[k]
  {
    d[..o] + src + d[o + |src|..]
  }

  function WithData(s: FS, a: int, o: int, src: seq<int>): FS
    requires 0 <= a < |s.blocks| && 0 <= o && o + |src| <= |s.blocks[a]|
  {
    s.(blocks := s.blocks[a := Patch(s.blocks[a], o, src)])
  }

  /** Writing into the data block of slot bn of inode i leaves the block map alone. */
  lemma WithDataAddr(L: Layout, s: FS, owner: map<int, Slot>, i: int, bn: int, o: int, src: seq<int>)
    requires Shape(L, s) && Owned(L, s, owner) && 0 <= i < L.ninodes && 0 <= bn < MAXFILE && 0 <= o
    requires o + |src| <= BSIZE
    requires Addr(L, s, i, DataSlot(bn)) != 0
    ensures var a := Addr(L, s, i, DataSlot(bn)); 0 < a < L.nblocks
    ensures var t := WithData(s, Addr(L, s, i, DataSlot(bn)), o, src);
      Shape(L, t) && forall j, m :: IsSlot(L, j, m) ==> Addr(L, t, j, m) == Addr(L, s, j, m)
  {
    var k := DataSlot(bn);
    var a := Addr(L, s, i, k);
    assert IsSlot(L, i, k) && owner[a] == (i, k);
    var t := WithData(s, a, o, src);
    hide Word, Bit, Patch;
    assert Shape(L, t);
    forall j, m | IsSlot(L, j, m) ensures Addr(L, t, j, m) == Addr(L, s, j, m) {
      if s.inode[j].addrs[NDIRECT] != 0 { IndirectOwned(L, s, owner, j); }
    }
  }

  /** ... and changes exactly the bytes written. */
  lemma WithDataBytes(L: Layout, s: FS, owner: map<int, Slot>, i: int, bn: int, o: int, src: seq<int>, j: int, pos: int)
    requires Shape(L, s) && Owned(L, s, owner) && 0 <= i < L.ninodes && 0 <= bn < MAXFILE && 0 <= o
    requires o + |src| <= BSIZE
    requires Addr(L, s, i, DataSlot(bn)) != 0 && 0 <= j < L.ninodes && 0 <= pos < MAXBYTES
    ensures var a := Addr(L, s, i, DataSlot(bn)); 0 < a < L.nblocks && Shape(L, WithData(s, a, o, src))
    ensures var off := bn * BSIZE + o;
      ByteAt(L, WithData(s, Addr(L, s, i, DataSlot(bn)), o, src), j, pos) ==
        if j == i && off <= pos < off + |src| then src[pos - off] else ByteAt(L, s, j, pos)
  {
    WithDataAddr(L, s, owner, i, bn, o, src);
    var k := DataSlot(bn);
    var a := Addr(L, s, i, k);
    var m := DataSlot(pos / BSIZE);
    assert IsSlot(L, i, k) && IsSlot(L, j, m);
    var c := Addr(L, s, j, m);
    assert c != 0 ==> owner[c] == (j, m);
    hide Word, Bit, Addr, Owned;
    if j == i && m == k {
      assert pos / BSIZE == bn;
    }
  }

  /** Slot m of inode j is one that mapping block bn of inode i may fill. */
  predicate Fills(L: Layout, s: FS, i: int, bn: int, j: int, m: int)
    requires Shape(L, s) && 0 <= i < L.ninodes
  {
    j == i && (m == DataSlot(bn) || (bn >= NDIRECT && m == NDIRECT && Addr(L, s, i, NDIRECT) == 0))
  }

  /** The block map of t is that of s, except that block bn of inode i is mapped. */
  ghost predicate MapsOne(L: Layout, s: FS, t: FS, i: int, bn: int)
    requires Shape(L, s) && Shape(L, t) && 0 <= i < L.ninodes && 0 <= bn < MAXFILE
  {
    && Addr(L, t, i, DataSlot(bn)) != 0 && (bn >= NDIRECT ==> Addr(L, t, i, NDIRECT) != 0)
    && (forall j, m :: IsSlot(L, j, m) && !Fills(L, s, i, bn, j, m) ==> Addr(L, t, j, m) == Addr(L, s, j, m))
    && (forall j :: 0 <= j < L.ninodes ==> t.inode[j] == s.inode[j].(addrs := t.inode[j].addrs))
    && (forall j :: 0 <= j < L.ninodes && j != i ==> t.inode[j] == s.inode[j])
    && (Addr(L, s, i, DataSlot(bn)) != 0 ==> t == s)
  }

  lemma MapsSame(L: Layout, s: FS, owner: map<int, Slot>, i: int, bn: int)
    requires Shape(L, s) && Owned(L, s, owner) && 0 <= i < L.ninodes && 0 <= bn < MAXFILE
    requires Addr(L, s, i, DataSlot(bn)) != 0
    ensures MapsOne(L, s, s, i, bn) && SameBytes(L, s, s) && 0 < Addr(L, s, i, DataSlot(bn)) < L.nblocks
  {
    assert IsSlot(L, i, DataSlot(bn));
    if bn >= NDIRECT { assert Addr(L, s, i, NDIRECT) != 0; }
    hide Addr;
  }

  lemma MapsAssigned(L: Layout, s: FS, t: FS, owner: map<int, Slot>, i: int, bn: int, b: int)
    requires Shape(L, s) && Owned(L, s, owner) && 0 <= i < L.ninodes && 0 <= bn < MAXFILE
    requires Assigned(L, s, t, owner, i, DataSlot(bn), b) && (bn >= NDIRECT ==> s.inode[i].addrs[NDIRECT] != 0)
    ensures MapsOne(L, s, t, i, bn) && SameBytes(L, s, t) && Owned(L, t, owner[b := (i, DataSlot(bn))])
  {
    AssignedBytes(L, s, t, owner, i, DataSlot(bn), b);
    AssignedOwned(L, s, t, owner, i, DataSlot(bn), b);
    if bn >= NDIRECT {
      assert Addr(L, s, i, NDIRECT) != 0;
      assert Addr(L, t, i, NDIRECT) != 0;
    }
    hide Owned, Shape, SameBytes, Addr;
  }

  /** First the indirect pointer, then the entry. */
  lemma MapsTwice(L: Layout, s: FS, t: FS, u: FS, owner: map<int, Slot>, i: int, bn: int, b: int)
    requires Shape(L, s) && Owned(L, s, owner) && 0 <= i < L.ninodes && NDIRECT <= bn < MAXFILE
    requires Assigned(L, s, t, owner, i, NDIRECT, b) && Shape(L, u) && MapsOne(L, t, u, i, bn) && SameBytes(L, t, u)
    requires Addr(L, s, i, DataSlot(bn)) == 0
    ensures MapsOne(L, s, u, i, bn) && SameBytes(L, s, u)
  {
    AssignedBytes(L, s, t, owner, i, NDIRECT, b);
    hide Owned, Addr, ByteAt, Shape;
  }

  /** Mapping the block at the end of the mapped part extends it. */
  lemma MapsExtends(L: Layout, s: FS, t: FS, i: int, bn: int, n: int, off: int, m: int)
    requires Shape(L, s) && Shape(L, t) && 0 <= i < L.ninodes && 0 <= bn < MAXFILE
    requires MapsOne(L, s, t, i, bn) && MappedTo(L, s, i, n)
    requires bn * BSIZE <= off <= n && off < off + m <= (bn + 1) * BSIZE
    ensures MappedTo(L, t, i, if n < off + m then off + m else n)
  {
    hide Shape, Addr;
    forall k | 0 <= k < MAXFILE
      ensures Addr(L, t, i, DataSlot(k)) != 0 <==> k * BSIZE < if n < off + m then off + m else n
    {
      assert IsSlot(L, i, DataSlot(k));
      if k != bn { assert DataSlot(k) != DataSlot(bn) && DataSlot(k) != NDIRECT; }
    }
    assert IsSlot(L, i, NDIRECT);
  }

  lemma MappedFrame(L: Layout, s: FS, t: FS, j: int, n: int)
    requires Shape(L, s) && Shape(L, t) && 0 <= j < L.ninodes && MappedTo(L, s, j, n)
    requires forall m :: IsSlot(L, j, m) ==> Addr(L, t, j, m) == Addr(L, s, j, m)
    ensures MappedTo(L, t, j, n)
  {
    hide Shape, Addr;
    forall bn | 0 <= bn < MAXFILE ensures Addr(L, t, j, DataSlot(bn)) == Addr(L, s, j, DataSlot(bn)) {
      assert IsSlot(L, j, DataSlot(bn));
    }
    assert IsSlot(L, j, NDIRECT);
  }

  lemma IsPut(L: Layout, t: FS, u: FS, i: int, bn: int, o: int, piece: seq<int>)
    requires Shape(L, t) && 0 <= i < L.ninodes && 0 <= bn < MAXFILE && 0 <= o && o + |piece| <= BSIZE
    requires 0 < Addr(L, t, i, DataSlot(bn)) < L.nblocks && u == WithData(t, Addr(L, t, i, DataSlot(bn)), o, piece)
    ensures PutsIn(L, t, u, i, bn, o, piece)
  {
  }

  /** A file that reaches past block bn > NDIRECT has its indirect block. */
  lemma AddrIs(L: Layout, s: FS, i: int, k: int)
    requires Shape(L, s) && 0 <= i < L.ninodes && 0 <= k <= NDIRECT
    ensures Addr(L, s, i, k) == s.inode[i].addrs[k]
  {
  }

  lemma AssignedAddr(L: Layout, s: FS, t: FS, owner: map<int, Slot>, i: int, k: int, b: int)
    requires Shape(L, s) && Assigned(L, s, t, owner, i, k, b)
    ensures Shape(L, t) && Addr(L, t, i, k) == b && b != 0 && t != s
  {
  }

  lemma AssignedOther(L: Layout, s: FS, t: FS, owner: map<int, Slot>, i: int, k: int, b: int, m: int)
    requires Shape(L, s) && Assigned(L, s, t, owner, i, k, b) && IsSlot(L, i, m) && m != k
    ensures Shape(L, t) && Addr(L, t, i, m) == Addr(L, s, i, m)
  {
    hide Addr;
  }

  lemma EntryEmpty(L: Layout, s: FS, i: int, bn: int)
    requires Shape(L, s) && 0 <= i < L.ninodes && NDIRECT <= bn < MAXFILE && s.inode[i].addrs[NDIRECT] == 0
    ensures Addr(L, s, i, DataSlot(bn)) == 0
  {
  }

  lemma EntryIs(L: Layout, s: FS, i: int, bn: int)
    requires Shape(L, s) && 0 <= i < L.ninodes && NDIRECT <= bn < MAXFILE && s.inode[i].addrs[NDIRECT] != 0
    ensures Addr(L, s, i, DataSlot(bn)) == Word(s.blocks[s.inode[i].addrs[NDIRECT]], bn - NDIRECT)
  {
  }

  lemma IndirectApart(L: Layout, s: FS, owner: map<int, Slot>, i: int, b: int)
    requires Shape(L, s) && Owned(L, s, owner) && 0 <= i < L.ninodes && s.inode[i].addrs[NDIRECT] != 0 && b !in owner
    ensures s.inode[i].addrs[NDIRECT] != b
  {
    IndirectOwned(L, s, owner, i);
  }

  lemma MapsGrows(L: Layout, s: FS, t: FS, i: int, bn: int)
    requires Shape(L, s) && Shape(L, t) && 0 <= i < L.ninodes && 0 <= bn < MAXFILE
    requires MapsOne(L, s, t, i, bn) && Addr(L, s, i, DataSlot(bn)) == 0
    ensures t != s
  {
  }

  datatype Result = Data(bytes: seq<int>) | Wrote(n: int) | Error | Device | Panic

  function Min(a: int, b: int): int {
    if a < b then a else b
  }

  /** off + n < off in 32-bit unsigned arithmetic. */
  lemma WrapsIff(off: int, n: int)
    requires 0 <= off < UINT && 0 <= n < UINT
    ensures (off + n) % UINT < off <==> off + n >= UINT
  {
  }

  lemma BlockMapped(L: Layout, s: FS, i: int, off: int, n: int)
    requires Shape(L, s) && 0 <= i < L.ninodes && MappedTo(L, s, i, n) && 0 <= off < n <= MAXBYTES
    ensures 0 <= off / BSIZE < MAXFILE && Addr(L, s, i, DataSlot(off / BSIZE)) != 0
  {
    hide Shape, Addr;
  }

  lemma MappedStays(L: Layout, s: FS, t: FS, i: int, bn: int)
    requires Shape(L, s) && Shape(L, t) && 0 <= i < L.ninodes && 0 <= bn < MAXFILE && MapsOne(L, s, t, i, bn)
    requires Addr(L, s, i, DataSlot(bn)) != 0
    ensures t == s
  {
  }

  /** One block's worth of a file, read from the block that holds it. */
  lemma SliceIs(L: Layout, s: FS, owner: map<int, Slot>, i: int, off: int, m: int, whole: seq<int>)
    requires Shape(L, s) && Owned(L, s, owner) && 0 <= i < L.ninodes && 0 <= off && 0 <= m <= BSIZE - off % BSIZE
    requires off + m <= |whole| <= MAXBYTES && off / BSIZE < MAXFILE && Addr(L, s, i, DataSlot(off / BSIZE)) != 0
    requires forall pos :: 0 <= pos < |whole| ==> whole[pos] == ByteAt(L, s, i, pos)
    ensures var a := Addr(L, s, i, DataSlot(off / BSIZE));
      0 < a < |s.blocks| && |s.blocks[a]| == BSIZE && s.blocks[a][off % BSIZE..off % BSIZE + m] == whole[off..off + m]
  {
    var a := Addr(L, s, i, DataSlot(off / BSIZE));
    assert IsSlot(L, i, DataSlot(off / BSIZE)) && a in owner;
    hide Owned, Addr;
    var piece, rest := s.blocks[a][off % BSIZE..off % BSIZE + m], whole[off..off + m];
    forall k | 0 <= k < m ensures piece[k] == rest[k] {
      assert (off + k) / BSIZE == off / BSIZE && (off + k) % BSIZE == off % BSIZE + k;
    }
  }

  function NoAddrs(): (r: seq<int>)
    ensures |r| == NDIRECT + 1 && forall k :: 0 <= k <= NDIRECT ==> r[k] == 0
  {
    seq(NDIRECT + 1, _ => 0)
  }

  // ---- writing

  function Max(a: int, b: int): int {
    if a < b then b else a
  }

  /** s is s0 with the first tot bytes of src written at off0 of inode i, its size not yet updated. */
  ghost predicate Writing(L: Layout, s0: FS, s: FS, i: int, off0: int, src: seq<int>, tot: int)
    requires Shape(L, s0) && Shape(L, s) && 0 <= i < L.ninodes && 0 <= tot <= |src|
  {
    && WrittenBytes(L, s0, s, i, off0, src, tot)
    && OnlyMap(L, s0, s, i)
    && MappedTo(L, s, i, Max(s0.inode[i].size, off0 + tot))
    && (off0 + tot <= s0.inode[i].size ==> s.inode == s0.inode)
  }

  /** Of the inodes, only the block map of i may differ. */
  ghost predicate OnlyMap(L: Layout, s: FS, t: FS, i: int)
    requires Shape(L, s) && Shape(L, t) && 0 <= i < L.ninodes
  {
    && (forall j, m :: IsSlot(L, j, m) && j != i ==> Addr(L, t, j, m) == Addr(L, s, j, m))
    && (forall j :: 0 <= j < L.ninodes && j != i ==> t.inode[j] == s.inode[j])
    && t.inode[i] == s.inode[i].(addrs := t.inode[i].addrs)
  }

  lemma OnlyMapStep(L: Layout, s0: FS, s: FS, t: FS, u: FS, i: int, bn: int)
    requires Shape(L, s0) && Shape(L, s) && Shape(L, t) && Shape(L, u) && 0 <= i < L.ninodes && 0 <= bn < MAXFILE
    requires OnlyMap(L, s0, s, i) && MapsOne(L, s, t, i, bn) && u.inode == t.inode
    requires forall j, m :: IsSlot(L, j, m) ==> Addr(L, u, j, m) == Addr(L, t, j, m)
    ensures OnlyMap(L, s0, u, i)
  {
    hide Addr;
  }

  ghost predicate WrittenBytes(L: Layout, s0: FS, s: FS, i: int, off0: int, src: seq<int>, tot: int)
    requires Shape(L, s0) && Shape(L, s) && 0 <= i < L.ninodes && 0 <= tot <= |src|
  {
    forall j, pos :: 0 <= j < L.ninodes && 0 <= pos < MAXBYTES ==>
      ByteAt(L, s, j, pos) == if j == i && off0 <= pos < off0 + tot then src[pos - off0] else ByteAt(L, s0, j, pos)
  }

  lemma MapsAddr(L: Layout, s: FS, t: FS, owner: map<int, Slot>, i: int, bn: int)
    requires Shape(L, s) && Shape(L, t) && Owned(L, t, owner) && 0 <= i < L.ninodes && 0 <= bn < MAXFILE
    requires MapsOne(L, s, t, i, bn)
    ensures 0 < Addr(L, t, i, DataSlot(bn)) < |t.blocks| == L.nblocks
    ensures |t.blocks[Addr(L, t, i, DataSlot(bn))]| == BSIZE
  {
    assert IsSlot(L, i, DataSlot(bn));
    hide Addr, SameBytes;
  }

  /** u is t with piece put at offset o of block bn of inode i. */
  ghost predicate PutsIn(L: Layout, t: FS, u: FS, i: int, bn: int, o: int, piece: seq<int>)
    requires Shape(L, t) && 0 <= i < L.ninodes && 0 <= bn < MAXFILE && 0 <= o && o + |piece| <= BSIZE
  {
    var a := Addr(L, t, i, DataSlot(bn));
    0 < a < L.nblocks && u == WithData(t, a, o, piece)
  }

  lemma PutsInMap(L: Layout, t: FS, u: FS, owner: map<int, Slot>, i: int, bn: int, o: int, piece: seq<int>)
    requires Shape(L, t) && Owned(L, t, owner) && 0 <= i < L.ninodes && 0 <= bn < MAXFILE && 0 <= o
    requires o + |piece| <= BSIZE
    requires PutsIn(L, t, u, i, bn, o, piece)
    ensures Shape(L, u) && u.inode == t.inode && u.bm == t.bm && Owned(L, u, owner)
    ensures forall j, m :: IsSlot(L, j, m) ==> Addr(L, u, j, m) == Addr(L, t, j, m)
  {
    WithDataAddr(L, t, owner, i, bn, o, piece);
    OwnedFrame(L, t, u, owner);
  }

  lemma WriteBytesStep(L: Layout, s0: FS, s: FS, t: FS, u: FS, owner: map<int, Slot>, i: int, bn: int, o: int,
                       off0: int, src: seq<int>, tot: int, m: int)
    requires Shape(L, s0) && Shape(L, s) && Shape(L, t) && Shape(L, u) && 0 <= i < L.ninodes && 0 <= bn < MAXFILE
    requires 0 <= tot <= tot + m <= |src| && 0 <= o <= o + m <= BSIZE && off0 + tot == bn * BSIZE + o
    requires WrittenBytes(L, s0, s, i, off0, src, tot) && SameBytes(L, s, t) && Owned(L, t, owner)
    requires PutsIn(L, t, u, i, bn, o, src[tot..tot + m])
    ensures WrittenBytes(L, s0, u, i, off0, src, tot + m)
  {
    var piece := src[tot..tot + m];
    hide Addr, Owned, ByteAt, Shape;
    forall j, pos | 0 <= j < L.ninodes && 0 <= pos < MAXBYTES
      ensures ByteAt(L, u, j, pos) ==
        if j == i && off0 <= pos < off0 + tot + m then src[pos - off0] else ByteAt(L, s0, j, pos)
    {
      WithDataBytes(L, t, owner, i, bn, o, piece, j, pos);
    }
  }

  lemma MapStep(L: Layout, s0: FS, s: FS, t: FS, i: int, bn: int, off: int, m: int)
    requires Shape(L, s0) && Shape(L, s) && Shape(L, t) && 0 <= i < L.ninodes && 0 <= bn < MAXFILE
    requires bn * BSIZE <= off < off + m <= (bn + 1) * BSIZE
    requires MapsOne(L, s, t, i, bn) && MappedTo(L, s, i, Max(s0.inode[i].size, off))
    requires s0.inode[i].size <= MAXBYTES && (off <= s0.inode[i].size ==> s.inode == s0.inode)
    ensures MappedTo(L, t, i, Max(s0.inode[i].size, off + m))
    ensures off + m <= s0.inode[i].size ==> t.inode == s0.inode
  {
    var n := Max(s0.inode[i].size, off);
    MapsExtends(L, s, t, i, bn, n, off, m);
    if off + m <= s0.inode[i].size {
      BlockMapped(L, s, i, off, n);
      MappedStays(L, s, t, i, bn);
    }
    hide Addr, MappedTo, MapsOne, Shape;
  }

  /** One iteration: the block is mapped (t) and the next m bytes are put into it (u). */
  lemma WriteStep(L: Layout, s0: FS, s: FS, t: FS, u: FS, owner: map<int, Slot>, i: int, bn: int, o: int,
                  off0: int, src: seq<int>, tot: int, m: int)
    requires Shape(L, s0) && Shape(L, s) && Shape(L, t) && 0 <= i < L.ninodes && 0 <= bn < MAXFILE
    requires 0 <= tot < tot + m <= |src| && 0 <= o <= o + m <= BSIZE && off0 + tot == bn * BSIZE + o
    requires s0.inode[i].size <= MAXBYTES
    requires Writing(L, s0, s, i, off0, src, tot) && SameBytes(L, s, t) && Owned(L, t, owner) && MapsOne(L, s, t, i, bn)
    requires PutsIn(L, t, u, i, bn, o, src[tot..tot + m])
    ensures Shape(L, u) && Owned(L, u, owner) && Writing(L, s0, u, i, off0, src, tot + m)
    ensures forall j, k :: IsSlot(L, j, k) ==> Addr(L, u, j, k) == Addr(L, t, j, k)
  {
    hide WrittenBytes, OnlyMap, MappedTo, SameBytes, Owned, MapsOne, Addr, PutsIn;
    MapStep(L, s0, s, t, i, bn, off0 + tot, m);
    PutsInMap(L, t, u, owner, i, bn, o, src[tot..tot + m]);
    WriteBytesStep(L, s0, s, t, u, owner, i, bn, o, off0, src, tot, m);
    OnlyMapStep(L, s0, s, t, u, i, bn);
    MappedFrame(L, t, u, i, Max(s0.inode[i].size, off0 + tot + m));
  }

  lemma OwnedFrame(L: Layout, s: FS, t: FS, owner: map<int, Slot>)
    requires Shape(L, s) && Owned(L, s, owner) && Shape(L, t) && t.bm == s.bm
    requires forall j, m :: IsSlot(L, j, m) ==> Addr(L, t, j, m) == Addr(L, s, j, m)
    ensures Owned(L, t, owner)
  {
    hide Addr, Bit, Shape;
  }

  // ---- the blocks a write logs

  /**
    What bmap() of block bn logs: the blocks it allocates with their bitmap blocks, and the indirect
    block it fills.
   */
  ghost function BmapLog(L: Layout, s: FS, t: FS, i: int, bn: int): set<int>
    requires Shape(L, s) && Shape(L, t) && 0 <= i < L.ninodes && 0 <= bn < MAXFILE
  {
    var a, ind := Addr(L, t, i, DataSlot(bn)), Addr(L, t, i, NDIRECT);
    if Addr(L, s, i, DataSlot(bn)) != 0 then {}
    else if bn < NDIRECT then {a, BitmapBlock(L, a)}
    else if Addr(L, s, i, NDIRECT) != 0 then {a, BitmapBlock(L, a), ind}
    else {a, BitmapBlock(L, a), ind, BitmapBlock(L, ind)}
  }

  /**
    What writing blocks lo to hi of a file of this size logs: the blocks; the bitmap blocks of those
    behind the end, which are new; the indirect block if one of the new ones is listed there, and its
    bitmap block if it is new itself.
   */
  ghost function WriteLog(L: Layout, s: FS, i: int, size: int, lo: int, hi: int): set<int>
    requires Shape(L, s) && 0 <= i < L.ninodes && 0 <= lo <= hi <= MAXFILE
  {
    DataBlocks(L, s, i, lo, hi) + NewBitmaps(L, s, i, size, lo, hi)
    + (if hi > NDIRECT && IsNew(size, hi - 1) then {Addr(L, s, i, NDIRECT)} else {})
    + (if hi > NDIRECT && IsNew(size, NDIRECT) then {BitmapBlock(L, Addr(L, s, i, NDIRECT))} else {})
  }

  /** Block bn lies behind the end of a file of this size. */
  predicate IsNew(size: int, bn: int) {
    size <= bn * BSIZE
  }

  ghost function NewBitmaps(L: Layout, s: FS, i: int, size: int, lo: int, hi: int): set<int>
    requires Shape(L, s) && 0 <= i < L.ninodes && 0 <= lo <= hi <= MAXFILE
  {
    set bn | lo <= bn < hi && IsNew(size, bn) :: BitmapBlock(L, Addr(L, s, i, DataSlot(bn)))
  }

  ghost function DataBlocks(L: Layout, s: FS, i: int, lo: int, hi: int): set<int>
    requires Shape(L, s) && 0 <= i < L.ninodes && 0 <= lo <= hi <= MAXFILE
  {
    set bn | lo <= bn < hi :: Addr(L, s, i, DataSlot(bn))
  }

  /** BBLOCK(): the bitmap block of block b. */
  function BitmapBlock(L: Layout, b: int): int {
    L.bmapStart + b / BPB
  }

  lemma WriteLogBlocks(L: Layout, s: FS, t: FS, i: int, size: int, lo: int, bn: int)
    requires Shape(L, s) && Shape(L, t) && 0 <= i < L.ninodes && 0 <= lo <= bn < MAXFILE && MapsOne(L, s, t, i, bn)
    ensures DataBlocks(L, t, i, lo, bn + 1) == DataBlocks(L, s, i, lo, bn) + {Addr(L, t, i, DataSlot(bn))}
    ensures NewBitmaps(L, t, i, size, lo, bn + 1) ==
      NewBitmaps(L, s, i, size, lo, bn) + if IsNew(size, bn) then {BitmapBlock(L, Addr(L, t, i, DataSlot(bn)))} else {}
    ensures Addr(L, s, i, NDIRECT) != 0 ==> Addr(L, t, i, NDIRECT) == Addr(L, s, i, NDIRECT)
  {
    hide Addr, Shape, BitmapBlock;
    forall k | lo <= k < bn ensures Addr(L, t, i, DataSlot(k)) == Addr(L, s, i, DataSlot(k)) {
      assert IsSlot(L, i, DataSlot(k));
    }
    assert IsSlot(L, i, NDIRECT);
  }

  /** One more block: bmap() maps it (t), and it is written. */
  lemma WriteLogStep(L: Layout, s: FS, t: FS, i: int, size: int, lo: int, bn: int)
    requires Shape(L, s) && Shape(L, t) && 0 <= i < L.ninodes && 0 <= lo <= bn < MAXFILE && lo * BSIZE <= size
    requires MapsOne(L, s, t, i, bn) && (Addr(L, s, i, DataSlot(bn)) == 0 <==> IsNew(size, bn))
    requires bn >= NDIRECT ==> (Addr(L, s, i, NDIRECT) == 0 <==> IsNew(size, NDIRECT) && bn == NDIRECT)
    ensures WriteLog(L, t, i, size, lo, bn + 1) ==
      WriteLog(L, s, i, size, lo, bn) + BmapLog(L, s, t, i, bn) + {Addr(L, t, i, DataSlot(bn))}
  {
    hide Addr, Shape, BitmapBlock, MapsOne, DataBlocks, NewBitmaps;
    WriteLogBlocks(L, s, t, i, size, lo, bn);
    assert bn > NDIRECT ==> Addr(L, t, i, NDIRECT) == Addr(L, s, i, NDIRECT);
    assert IsNew(size, bn - 1) ==> IsNew(size, bn);
  }

  lemma WriteLogFrame(L: Layout, s: FS, t: FS, i: int, size: int, lo: int, hi: int)
    requires Shape(L, s) && Shape(L, t) && 0 <= i < L.ninodes && 0 <= lo <= hi <= MAXFILE
    requires forall j, m :: IsSlot(L, j, m) ==> Addr(L, t, j, m) == Addr(L, s, j, m)
    ensures WriteLog(L, t, i, size, lo, hi) == WriteLog(L, s, i, size, lo, hi)
  {
    hide Addr, Shape, BitmapBlock;
    forall k | lo <= k < hi ensures Addr(L, t, i, DataSlot(k)) == Addr(L, s, i, DataSlot(k)) {
      assert IsSlot(L, i, DataSlot(k));
    }
    assert IsSlot(L, i, NDIRECT);
    assert DataBlocks(L, t, i, lo, hi) == DataBlocks(L, s, i, lo, hi);
    assert NewBitmaps(L, t, i, size, lo, hi) == NewBitmaps(L, s, i, size, lo, hi);
  }

  /** What is mapped in the middle of a write, in terms of the size before it. */
  lemma NewBlocks(L: Layout, s: FS, i: int, size: int, bn: int, o: int)
    requires Shape(L, s) && 0 <= i < L.ninodes && 0 <= bn < MAXFILE && 0 <= o < BSIZE
    requires MappedTo(L, s, i, Max(size, bn * BSIZE + o)) && (o == 0 || bn * BSIZE + o <= size)
    ensures Addr(L, s, i, DataSlot(bn)) == 0 <==> IsNew(size, bn)
    ensures bn >= NDIRECT ==> (Addr(L, s, i, NDIRECT) == 0 <==> IsNew(size, NDIRECT) && bn == NDIRECT)
  {
    hide Addr;
  }

  /** src over the file from off on, extending it where it reaches past the end. */
  function Overwrite(whole: seq<int>, off: int, src: seq<int>): seq<int>
    requires 0 <= off <= |whole|
  {
    whole[..off] + src + if off + |src| < |whole| then whole[off + |src|..] else []
  }

  /** Setting the size after the last block completes the write. */
  lemma WriteDone(L: Layout, s0: FS, s: FS, u: FS, i: int, off0: int, src: seq<int>)
    requires Shape(L, s0) && Shape(L, s) && Shape(L, u) && 0 <= i < L.ninodes && Writing(L, s0, s, i, off0, src, |src|)
    requires 0 <= off0 <= s0.inode[i].size <= MAXBYTES && off0 + |src| <= MAXBYTES
    requires u == s.(inode := s.inode[i := s.inode[i].(size := Max(s0.inode[i].size, off0 + |src|))])
    ensures FileBytes(L, u, i) == Overwrite(FileBytes(L, s0, i), off0, src)
    ensures MappedTo(L, u, i, u.inode[i].size)
    ensures forall j :: 0 <= j < L.ninodes && j != i && 0 <= s0.inode[j].size <= MAXBYTES ==>
              u.inode[j] == s0.inode[j] && FileBytes(L, u, j) == FileBytes(L, s0, j)
    ensures forall j, m :: IsSlot(L, j, m) ==> Addr(L, u, j, m) == Addr(L, s, j, m)
  {
    SizeOnly(L, s, u, i);
    hide Addr, MappedTo, ByteAt;
    MappedFrame(L, s, u, i, u.inode[i].size);
    var a, b := FileBytes(L, u, i), Overwrite(FileBytes(L, s0, i), off0, src);
    assert |a| == |b|;
    forall pos | 0 <= pos < |a| ensures a[pos] == b[pos] {
    }
    forall j | 0 <= j < L.ninodes && j != i && 0 <= s0.inode[j].size <= MAXBYTES
      ensures u.inode[j] == s0.inode[j] && FileBytes(L, u, j) == FileBytes(L, s0, j)
    {
      SameFile(L, s0, u, j);
    }
  }

  /** The size field does not enter the block map. */
  lemma SizeOnly(L: Layout, s: FS, u: FS, i: int)
    requires Shape(L, s) && Shape(L, u) && 0 <= i < L.ninodes
    requires u == s.(inode := s.inode[i := s.inode[i].(size := u.inode[i].size)])
    ensures forall j, m :: IsSlot(L, j, m) ==> Addr(L, u, j, m) == Addr(L, s, j, m)
    ensures SameBytes(L, s, u)
  {
    assert forall j, m :: IsSlot(L, j, m) ==> Addr(L, u, j, m) == Addr(L, s, j, m);
    hide Addr, Shape;
  }

  lemma SameFile(L: Layout, s: FS, u: FS, j: int)
    requires Shape(L, s) && Shape(L, u) && 0 <= j < L.ninodes && u.inode[j].size == s.inode[j].size
    requires 0 <= s.inode[j].size <= MAXBYTES
    requires forall pos :: 0 <= pos < MAXBYTES ==> ByteAt(L, u, j, pos) == ByteAt(L, s, j, pos)
    ensures FileBytes(L, u, j) == FileBytes(L, s, j)
  {
    hide ByteAt;
    var a, b := FileBytes(L, u, j), FileBytes(L, s, j);
    forall pos | 0 <= pos < |a| ensures a[pos] == b[pos] {
    }
  }

  /** Every file is mapped exactly up to its size. */
  ghost predicate Sized(L: Layout, s: FS)
    requires Shape(L, s)
  {
    forall i :: 0 <= i < L.ninodes ==> 0 <= s.inode[i].size <= MAXBYTES && MappedTo(L, s, i, s.inode[i].size)
  }

  ghost function AllFiles(L: Layout, s: FS): (r: seq<seq<int>>)
    requires Shape(L, s) && Sized(L, s)
    ensures |r| == L.ninodes && forall i :: 0 <= i < L.ninodes ==> r[i] == FileBytes(L, s, i)
  {
    seq(L.ninodes, i requires 0 <= i < L.ninodes => FileBytes(L, s, i))
  }

  lemma WriteSized(L: Layout, s0: FS, s: FS, u: FS, owner: map<int, Slot>, i: int, off0: int, src: seq<int>)
    requires Shape(L, s0) && Shape(L, s) && Shape(L, u) && 0 <= i < L.ninodes && Writing(L, s0, s, i, off0, src, |src|)
    requires Sized(L, s0) && Owned(L, s, owner) && 0 <= off0 <= s0.inode[i].size && off0 + |src| <= MAXBYTES
    requires u == s.(inode := s.inode[i := s.inode[i].(size := Max(s0.inode[i].size, off0 + |src|))])
    ensures Sized(L, u) && Owned(L, u, owner)
  {
    hide Addr, MappedTo, WrittenBytes, Owned;
    WriteDone(L, s0, s, u, i, off0, src);
    OwnedFrame(L, s, u, owner);
    forall j | 0 <= j < L.ninodes ensures 0 <= u.inode[j].size <= MAXBYTES && MappedTo(L, u, j, u.inode[j].size) {
      if j != i { MappedFrame(L, s0, u, j, s0.inode[j].size); }
    }
  }

  lemma WriteEnds(L: Layout, s0: FS, s: FS, i: int, off0: int, src: seq<int>)
    requires Shape(L, s0) && Shape(L, s) && 0 <= i < L.ninodes && Writing(L, s0, s, i, off0, src, |src|)
    ensures s.inode[i] == s0.inode[i].(addrs := s.inode[i].addrs)
    ensures off0 + |src| <= s0.inode[i].size ==> s.inode == s0.inode
    ensures forall j :: 0 <= j < L.ninodes && j != i ==> s.inode[j] == s0.inode[j]
    ensures forall z :: Shape(L, s.(inode := s.inode[i := s.inode[i].(size := z)]))
  {
  }

  /** The block of the last of n bytes written from off on. */
  function LastBlock(off: int, n: int): (r: int)
    requires 0 <= off && 0 < n
    ensures off / BSIZE <= r && (off + n <= MAXBYTES ==> r < MAXFILE)
  {
    (off + n - 1) / BSIZE
  }

  /**
    A write of n bytes at off to a file of this size logs what WriteLog says, and the inode block if
    the file grows.
   */
  ghost predicate Logs(L: Layout, s: FS, i: int, size: int, off: int, n: int, log0: set<int>, log: set<int>) {
    && Shape(L, s) && 0 <= i < L.ninodes && 0 <= off && 0 < n && off + n <= MAXBYTES
    && log == log0 + WriteLog(L, s, i, size, off / BSIZE, LastBlock(off, n) + 1)
              + if off + n > size then {L.inodeStart + i / IPB} else {}
  }

  lemma LogsWrite(L: Layout, s: FS, u: FS, i: int, size: int, off: int, n: int, log0: set<int>, log: set<int>)
    requires Shape(L, s) && Shape(L, u) && 0 <= i < L.ninodes && 0 <= off && 0 < n && off + n <= MAXBYTES
    requires forall j, m :: IsSlot(L, j, m) ==> Addr(L, u, j, m) == Addr(L, s, j, m)
    requires var all := log0 + WriteLog(L, s, i, size, off / BSIZE, LastBlock(off, n) + 1);
      log == if off + n > size then all + {L.inodeStart + i / IPB} else all
    ensures Logs(L, u, i, size, off, n, log0, log)
  {
    hide WriteLog, Addr, Shape;
    WriteLogFrame(L, s, u, i, size, off / BSIZE, LastBlock(off, n) + 1);
  }

  lemma WriteStarts(L: Layout, s: FS, i: int, off0: int, src: seq<int>)
    requires Shape(L, s) && 0 <= i < L.ninodes && Sized(L, s) && 0 <= off0 <= s.inode[i].size
    ensures Writing(L, s, s, i, off0, src, 0) && s.inode[i].size <= MAXBYTES && off0 / BSIZE <= MAXFILE
    ensures WriteLog(L, s, i, s.inode[i].size, off0 / BSIZE, off0 / BSIZE) == {}
    ensures off0 / BSIZE * BSIZE <= s.inode[i].size
  {
  }

  lemma BlockStep(off: int, m: int, left: int)
    requires 0 <= off && 0 < left && m == Min(left, BSIZE - off % BSIZE)
    ensures 0 < m <= left && (off + m - 1) / BSIZE == off / BSIZE
    ensures m < left ==> (off + m) / BSIZE == off / BSIZE + 1 && (off + m) % BSIZE == 0
  {
  }

  // ---- truncation

  /** The owners without slots lo to hi of inode i. */
  ghost function Minus(owner: map<int, Slot>, i: int, lo: int, hi: int): map<int, Slot> {
    map b | b in owner && !(owner[b].0 == i && lo <= owner[b].1 < hi) :: owner[b]
  }

  function WithoutAddr(s: FS, i: int, k: int, bm: Bytes): FS
    requires 0 <= i < |s.inode| && 0 <= k < |s.inode[i].addrs|
  {
    s.(bm := bm, inode := s.inode[i := s.inode[i].(addrs := s.inode[i].addrs[k := 0])])
  }

  lemma WithoutAddrIs(L: Layout, s: FS, i: int, k: int, bm: Bytes)
    requires Shape(L, s) && 0 <= i < L.ninodes && 0 <= k < NDIRECT && |bm| == |s.bm|
    ensures var t := WithoutAddr(s, i, k, bm);
      && Shape(L, t) && t.bm == bm
      && forall j, m :: IsSlot(L, j, m) ==> Addr(L, t, j, m) == if (j, m) == (i, k) then 0 else Addr(L, s, j, m)
  {
    hide Word;
  }

  /** Clearing direct slot k. */
  lemma FreeSlot(L: Layout, s: FS, owner: map<int, Slot>, i: int, k: int)
    requires Shape(L, s) && Owned(L, s, owner) && 0 <= i < L.ninodes && 0 <= k < NDIRECT && s.inode[i].addrs[k] != 0
    ensures 0 <= s.inode[i].addrs[k] < L.nblocks && Bit(s.bm, s.inode[i].addrs[k])
    ensures var t := WithoutAddr(s, i, k, ClearBit(s.bm, s.inode[i].addrs[k]));
      Shape(L, t) && Owned(L, t, Minus(owner, i, k, k + 1))
  {
    var b := s.inode[i].addrs[k];
    assert Addr(L, s, i, k) == b && L.nblocks <= 8 * |s.bm|;
    hide Addr, Shape, Bit, ClearBit, WithoutAddr;
    WithoutAddrIs(L, s, i, k, ClearBit(s.bm, b));
    var t := WithoutAddr(s, i, k, ClearBit(s.bm, b));
    BitsAfterClear(L, s.bm, t.bm, b);
  }

  lemma BitsAfterClear(L: Layout, bm: Bytes, bm': Bytes, b: int)
    requires 0 <= b < L.nblocks <= 8 * |bm| && |bm'| == |bm| && bm' == ClearBit(bm, b)
    ensures forall c :: 0 <= c < L.nblocks ==> (Bit(bm', c) <==> c != b && Bit(bm, c))
  {
    forall c | 0 <= c < L.nblocks ensures Bit(bm', c) <==> c != b && Bit(bm, c) {
      ClearBitAt(bm, b, c);
    }
  }

  lemma SkipSlot(L: Layout, s: FS, owner: map<int, Slot>, i: int, k: int)
    requires Shape(L, s) && Owned(L, s, owner) && IsSlot(L, i, k) && Addr(L, s, i, k) == 0
    ensures Minus(owner, i, k, k + 1) == owner
  {
    hide Addr, Bit;
    forall b | b in owner ensures owner[b] != (i, k) {
    }
  }

  lemma MinusNone(owner: map<int, Slot>, i: int, lo: int)
    ensures Minus(owner, i, lo, lo) == owner
  {
  }

  /** The bitmap after the first j entries of the indirect block of i were freed. */
  ghost predicate BitsAre(L: Layout, bm: Bytes, owner: map<int, Slot>)
    requires L.nblocks <= 8 * |bm|
  {
    forall b :: 0 <= b < L.nblocks ==> (Bit(bm, b) <==> b < L.dataStart || b in owner)
  }

  /** Freeing the block of slot k, when slots lo to hi are freed already. */
  lemma FreeEntry(L: Layout, s: FS, owner: map<int, Slot>, bm: Bytes, i: int, lo: int, hi: int, k: int)
    requires Shape(L, s) && Owned(L, s, owner) && IsSlot(L, i, k) && !(lo <= k < hi) && |bm| == |s.bm|
    requires BitsAre(L, bm, Minus(owner, i, lo, hi)) && Addr(L, s, i, k) != 0
    ensures 0 <= Addr(L, s, i, k) < L.nblocks && Bit(bm, Addr(L, s, i, k))
    ensures BitsAre(L, ClearBit(bm, Addr(L, s, i, k)), Minus(Minus(owner, i, lo, hi), i, k, k + 1))
  {
    var b := Addr(L, s, i, k);
    assert b in owner && owner[b] == (i, k);
    hide Addr, Bit, ClearBit;
    BitsAfterClear(L, bm, ClearBit(bm, b), b);
  }

  lemma SkipEntry(L: Layout, s: FS, owner: map<int, Slot>, i: int, lo: int, hi: int)
    requires Shape(L, s) && Owned(L, s, owner) && IsSlot(L, i, hi) && lo <= hi && Addr(L, s, i, hi) == 0
    ensures Minus(owner, i, lo, hi + 1) == Minus(owner, i, lo, hi)
  {
    SkipSlot(L, s, owner, i, hi);
    hide Owned;
    MinusSwap(owner, i, lo, hi);
  }

  lemma MinusSwap(owner: map<int, Slot>, i: int, lo: int, hi: int)
    requires lo <= hi
    ensures Minus(Minus(owner, i, hi, hi + 1), i, lo, hi) == Minus(owner, i, lo, hi + 1)
    ensures Minus(Minus(owner, i, lo, hi), i, hi, hi + 1) == Minus(owner, i, lo, hi + 1)
    ensures Minus(Minus(owner, i, lo + 1, hi + 1), i, lo, lo + 1) == Minus(owner, i, lo, hi + 1)
  {
  }

  lemma DropIndirect(L: Layout, s: FS, owner: map<int, Slot>, bm: Bytes, i: int)
    requires Shape(L, s) && Owned(L, s, owner) && 0 <= i < L.ninodes && |bm| == |s.bm|
    requires BitsAre(L, bm, Minus(owner, i, NDIRECT, NSLOTS))
    ensures var t := WithoutAddr(s, i, NDIRECT, bm); Shape(L, t) && Owned(L, t, Minus(owner, i, NDIRECT, NSLOTS))
  {
    var t := WithoutAddr(s, i, NDIRECT, bm);
    hide Bit, Word;
    assert Shape(L, t);
    assert forall j, m :: IsSlot(L, j, m) ==>
      Addr(L, t, j, m) == if j == i && m >= NDIRECT then 0 else Addr(L, s, j, m);
    hide Addr, Shape;
  }

  lemma OwnedBits(L: Layout, s: FS, owner: map<int, Slot>)
    requires Shape(L, s) && Owned(L, s, owner)
    ensures BitsAre(L, s.bm, owner)
  {
  }

  lemma NoEntries(L: Layout, s: FS, owner: map<int, Slot>, i: int)
    requires Shape(L, s) && Owned(L, s, owner) && 0 <= i < L.ninodes && s.inode[i].addrs[NDIRECT] == 0
    ensures Minus(owner, i, NDIRECT, NSLOTS) == owner
  {
    hide Bit;
    forall b | b in owner ensures !(owner[b].0 == i && NDIRECT <= owner[b].1) {
      assert IsSlot(L, owner[b].0, owner[b].1) && Addr(L, s, owner[b].0, owner[b].1) == b;
    }
  }

  lemma MinusAll(owner: map<int, Slot>, i: int)
    ensures Minus(Minus(owner, i, 0, NDIRECT), i, NDIRECT, NSLOTS) == Minus(owner, i, 0, NSLOTS)
  {
  }

  /** t is s with inode i emptied. */
  ghost predicate Emptied(L: Layout, s: FS, t: FS, i: int)
    requires Shape(L, s) && 0 <= i < L.ninodes
  {
    && |t.inode| == L.ninodes && |t.inode[i].addrs| == NDIRECT + 1 && t.blocks == s.blocks && |t.bm| == |s.bm|
    && t.inode == s.inode[i := s.inode[i].(size := 0, addrs := t.inode[i].addrs)]
    && forall k :: 0 <= k <= NDIRECT ==> t.inode[i].addrs[k] == 0
  }

  lemma EmptiedMap(L: Layout, s: FS, t: FS, i: int)
    requires Shape(L, s) && 0 <= i < L.ninodes && Emptied(L, s, t, i)
    ensures Shape(L, t)
    ensures forall j, m :: IsSlot(L, j, m) ==> Addr(L, t, j, m) == if j == i then 0 else Addr(L, s, j, m)
  {
    hide Word;
  }

  lemma EmptiedSized(L: Layout, s: FS, t: FS, i: int)
    requires Shape(L, s) && Sized(L, s) && 0 <= i < L.ninodes && Emptied(L, s, t, i)
    ensures Shape(L, t) && Sized(L, t)
  {
    EmptiedMap(L, s, t, i);
    hide Addr;
    forall j | 0 <= j < L.ninodes ensures 0 <= t.inode[j].size <= MAXBYTES && MappedTo(L, t, j, t.inode[j].size) {
      if j != i { MappedFrame(L, s, t, j, s.inode[j].size); }
    }
  }

  lemma EmptiedBytes(L: Layout, s: FS, t: FS, i: int, j: int)
    requires Shape(L, s) && Sized(L, s) && 0 <= i < L.ninodes && Emptied(L, s, t, i) && 0 <= j < L.ninodes
    ensures Shape(L, t) && 0 <= t.inode[j].size <= MAXBYTES
    ensures FileBytes(L, t, j) == if j == i then [] else FileBytes(L, s, j)
  {
    EmptiedMap(L, s, t, i);
    hide Addr, MappedTo;
    if j != i {
      var a, b := FileBytes(L, t, j), FileBytes(L, s, j);
      forall pos | 0 <= pos < |a| ensures a[pos] == b[pos] {
      }
    }
  }

  /** What truncation of inode i leaves. */
  lemma Truncated(L: Layout, s: FS, t: FS, owner: map<int, Slot>, owner': map<int, Slot>, i: int)
    requires Shape(L, s) && Owned(L, s, owner) && 0 <= i < L.ninodes && Emptied(L, s, t, i)
    requires BitsAre(L, t.bm, owner') && owner' == Minus(owner, i, 0, NSLOTS)
    ensures Shape(L, t) && Owned(L, t, owner')
    ensures forall b :: 0 <= b < L.nblocks ==>
      (Bit(t.bm, b) <==> Bit(s.bm, b) && !(b in owner && owner[b].0 == i))
  {
    hide Bit, Addr;
    EmptiedMap(L, s, t, i);
    hide Emptied;
  }

  /** Every data block is owned by some slot. */
  ghost predicate Full(L: Layout, owner: map<int, Slot>) {
    forall c :: L.dataStart <= c < L.nblocks ==> c in owner
  }

  /** Data blocks that no slot owns. */
  function Room(L: Layout, owner: map<int, Slot>): int {
    L.nblocks - L.dataStart - |owner|
  }

  lemma {:induction false} Numbers(lo: int, hi: int) returns (r: set<int>)
    requires lo <= hi
    ensures |r| == hi - lo && forall c :: c in r <==> lo <= c < hi
    decreases hi - lo
  {
    if lo == hi {
      r := {};
    } else {
      r := Numbers(lo, hi - 1);
      r := r + {hi - 1};
    }
  }

  lemma FullIff(L: Layout, s: FS, owner: map<int, Slot>)
    requires Shape(L, s) && Owned(L, s, owner)
    ensures 0 <= Room(L, owner) && (Full(L, owner) <==> Room(L, owner) == 0)
  {
    hide Addr, Bit;
    var all := Numbers(L.dataStart, L.nblocks);
    forall b | b in owner.Keys ensures b in all {
      assert IsSlot(L, owner[b].0, owner[b].1);
    }
    assert |all| == |owner.Keys| + |all - owner.Keys|;
    assert Full(L, owner) <==> all - owner.Keys == {} by {
      forall c | Full(L, owner) && c in all ensures c in owner.Keys {
      }
      assert forall c :: L.dataStart <= c < L.nblocks ==> c in all;
      assert all - owner.Keys == {} ==> forall c :: c in all ==> c in owner.Keys;
    }
  }

  /** The blocks that bmap() of block bn allocates. */
  ghost function BmapNew(L: Layout, s: FS, i: int, bn: int): nat
    requires Shape(L, s) && 0 <= i < L.ninodes && 0 <= bn < MAXFILE
  {
    if Addr(L, s, i, DataSlot(bn)) != 0 then 0
    else if bn < NDIRECT || Addr(L, s, i, NDIRECT) != 0 then 1
    else 2
  }

  /** The same, for the next block of a write to a file of this size: the first indirect one costs two. */
  function BlockCost(size: int, bn: int): nat {
    if !IsNew(size, bn) then 0 else if bn == NDIRECT then 2 else 1
  }

  /** The blocks that writing blocks lo to hi of a file of this size allocates. */
  function NewCount(size: int, lo: int, hi: int): nat
    decreases hi - lo
  {
    if hi <= lo then 0 else NewCount(size, lo, hi - 1) + BlockCost(size, hi - 1)
  }

  lemma {:induction false} NewCountGrows(size: int, lo: int, a: int, hi: int)
    requires lo <= a <= hi
    ensures NewCount(size, lo, a) <= NewCount(size, lo, hi)
    decreases hi - a
  {
    if a < hi {
      NewCountGrows(size, lo, a, hi - 1);
    }
  }

  lemma NewCountNext(size: int, lo: int, bn: int)
    requires lo <= bn
    ensures NewCount(size, lo, bn + 1) == NewCount(size, lo, bn) + BlockCost(size, bn) && NewCount(size, lo, lo) == 0
  {
  }

  /** The blocks that a write of n bytes at off to a file of this size allocates. */
  function Allocated(size: int, off: int, n: int): nat
    requires 0 <= off && 0 <= n
  {
    if n == 0 then 0 else NewCount(size, off / BSIZE, LastBlock(off, n) + 1)
  }

  lemma AllocatedStep(size: int, off: int, tot: int, m: int, n: int)
    requires 0 <= off && 0 <= tot < n && m == Min(n - tot, BSIZE - (off + tot) % BSIZE)
    requires tot > 0 ==> LastBlock(off, tot) + 1 == (off + tot) / BSIZE
    ensures 0 < m <= n - tot && LastBlock(off, tot + m) == (off + tot) / BSIZE
    ensures Allocated(size, off, tot + m) == Allocated(size, off, tot) + BlockCost(size, (off + tot) / BSIZE)
    ensures Allocated(size, off, tot + m) <= Allocated(size, off, n)
  {
    BlockStep(off + tot, m, n - tot);
    NewCountNext(size, off / BSIZE, (off + tot) / BSIZE);
    NewCountGrows(size, off / BSIZE, (off + tot) / BSIZE + 1, LastBlock(off, n) + 1);
  }

  /** Blocks behind a write count the same before and after it. */
  lemma {:induction false} NewCountBehind(size: int, size': int, lo: int, hi: int)
    requires size <= size' && (size < size' ==> size' <= lo * BSIZE)
    ensures NewCount(size, lo, hi) == NewCount(size', lo, hi)
    decreases hi - lo
  {
    if lo < hi {
      NewCountBehind(size, size', lo, hi - 1);
    }
  }

  lemma {:induction false} NewCountSplit(size: int, lo: int, k: int, hi: int)
    requires lo <= k <= hi
    ensures NewCount(size, lo, hi) == NewCount(size, lo, k) + NewCount(size, k, hi)
    decreases hi - k
  {
    if k < hi {
      NewCountSplit(size, lo, k, hi - 1);
    }
  }

  /** A write in two parts allocates what one write of both would. */
  lemma AllocatedSplit(size: int, off: int, a: int, b: int)
    requires 0 <= off <= size && 0 <= a && 0 <= b
    ensures Allocated(size, off, a + b) == Allocated(size, off, a) + Allocated(Max(size, off + a), off + a, b)
  {
    if a > 0 && b > 0 {
      var lo, k, hi, size' := off / BSIZE, LastBlock(off, a) + 1, LastBlock(off, a + b) + 1, Max(size, off + a);
      var m := (off + a) / BSIZE;
      assert k - 1 <= m <= k <= hi && off + a <= k * BSIZE && (k - 1) * BSIZE < off + a;
      NewCountSplit(size, lo, k, hi);
      NewCountBehind(size, size', k, hi);
      NewCountSplit(size', m, k, hi);
      assert NewCount(size', k - 1, k) == 0;
    }
  }

  /** The block that a write at off0 goes on with after tot bytes. */
  function NextBlock(off0: int, tot: int): int
    requires 0 <= off0 && 0 <= tot
  {
    if tot == 0 then off0 / BSIZE else LastBlock(off0, tot) + 1
  }

  /** The arguments of the loop of writei(). */
  ghost predicate InBounds(L: Layout, s: FS, i: int, off0: int, src: seq<int>)
    requires Shape(L, s)
  {
    && 0 <= i < L.ninodes
    && 0 <= off0 <= s.inode[i].size <= MAXBYTES
    && off0 + |src| <= MAXBYTES
  }

  /** After tot bytes of the loop: what is written, what is allocated (of owners own0) and what is logged. */
  ghost predicate Going(L: Layout, s0: FS, s: FS, own0: nat, own: nat, log0: set<int>, log: set<int>,
                        i: int, off0: int, src: seq<int>, tot: int)
    requires Shape(L, s0) && Shape(L, s) && InBounds(L, s0, i, off0, src) && 0 <= tot <= |src|
  {
    && Writing(L, s0, s, i, off0, src, tot)
    && own == own0 + Allocated(s0.inode[i].size, off0, tot)
    && log == log0 + WriteLog(L, s, i, s0.inode[i].size, off0 / BSIZE, NextBlock(off0, tot))
    && (0 < tot < |src| ==> (off0 + tot) % BSIZE == 0)
  }

  lemma GoingStarts(L: Layout, s: FS, own0: nat, log0: set<int>, i: int, off0: int, src: seq<int>)
    requires Shape(L, s) && InBounds(L, s, i, off0, src) && Sized(L, s)
    ensures Going(L, s, s, own0, own0, log0, log0, i, off0, src, 0)
  {
    hide Writing, WriteLog;
    WriteStarts(L, s, i, off0, src);
  }

  /** What the next iteration starts from. */
  lemma GoingOn(L: Layout, s0: FS, s: FS, own0: nat, own: nat, log0: set<int>, log: set<int>,
                i: int, off0: int, src: seq<int>, tot: int, bn: int, o: int, m: int)
    requires Shape(L, s0) && Shape(L, s) && InBounds(L, s0, i, off0, src) && 0 <= tot < |src|
    requires Going(L, s0, s, own0, own, log0, log, i, off0, src, tot)
    requires bn == (off0 + tot) / BSIZE && o == (off0 + tot) % BSIZE && m == Min(|src| - tot, BSIZE - o)
    ensures 0 < m <= |src| - tot && 0 <= o < o + m <= BSIZE && off0 + tot == bn * BSIZE + o && 0 <= bn < MAXFILE
    ensures off0 / BSIZE <= bn && off0 / BSIZE * BSIZE <= s0.inode[i].size
    ensures o == 0 || off0 + tot <= s0.inode[i].size
    ensures Writing(L, s0, s, i, off0, src, tot) && bn == NextBlock(off0, tot)
    ensures log == log0 + WriteLog(L, s, i, s0.inode[i].size, off0 / BSIZE, bn)
    ensures own + BlockCost(s0.inode[i].size, bn) == own0 + Allocated(s0.inode[i].size, off0, tot + m)
    ensures Allocated(s0.inode[i].size, off0, tot + m) <= Allocated(s0.inode[i].size, off0, |src|)
  {
    hide Writing, WriteLog, Allocated, BlockCost;
    AllocatedStep(s0.inode[i].size, off0, tot, m, |src|);
  }

  lemma GoingStep(L: Layout, s0: FS, t: FS, own0: nat, own: nat, log0: set<int>, log: set<int>,
                  i: int, off0: int, src: seq<int>, tot: int, m: int)
    requires Shape(L, s0) && Shape(L, t) && InBounds(L, s0, i, off0, src) && 0 <= tot < |src|
    requires m == Min(|src| - tot, BSIZE - (off0 + tot) % BSIZE) && Writing(L, s0, t, i, off0, src, tot + m)
    requires own == own0 + Allocated(s0.inode[i].size, off0, tot + m) && off0 / BSIZE <= (off0 + tot) / BSIZE < MAXFILE
    requires log == log0 + WriteLog(L, t, i, s0.inode[i].size, off0 / BSIZE, (off0 + tot) / BSIZE + 1)
    ensures Going(L, s0, t, own0, own, log0, log, i, off0, src, tot + m)
  {
    hide Writing, WriteLog, Allocated;
    BlockStep(off0 + tot, m, |src| - tot);
  }

  lemma GoneThrough(L: Layout, s0: FS, s: FS, own0: nat, own: nat, log0: set<int>, log: set<int>,
                    i: int, off0: int, src: seq<int>)
    requires Shape(L, s0) && Shape(L, s) && InBounds(L, s0, i, off0, src)
    requires Going(L, s0, s, own0, own, log0, log, i, off0, src, |src|)
    ensures Writing(L, s0, s, i, off0, src, |src|) && own == own0 + Allocated(s0.inode[i].size, off0, |src|)
    ensures src == [] ==> log == log0
    ensures src != [] ==>
      log == log0 + WriteLog(L, s, i, s0.inode[i].size, off0 / BSIZE, LastBlock(off0, |src|) + 1)
  {
    hide Writing, Addr;
  }

  lemma CostIs(L: Layout, s: FS, i: int, size: int, bn: int, o: int)
    requires Shape(L, s) && 0 <= i < L.ninodes && 0 <= bn < MAXFILE && 0 <= o < BSIZE
    requires MappedTo(L, s, i, Max(size, bn * BSIZE + o)) && (o == 0 || bn * BSIZE + o <= size)
    ensures BmapNew(L, s, i, bn) == BlockCost(size, bn)
  {
    hide Addr, MappedTo;
    NewBlocks(L, s, i, size, bn, o);
  }

  // ---------------------------------------------------------------- the code

  // ---- every change is logged

  /** Bitmap bytes and blocks change only in blocks of the log. */
  ghost predicate Covered(L: Layout, bm0: Bytes, blocks0: seq<Block>, bm: Bytes, blocks: seq<Block>, log: set<int>) {
    && |bm| == |bm0| && |blocks| == |blocks0|
    && (forall k :: 0 <= k < |bm| && bm[k] != bm0[k] ==> L.bmapStart + k / BSIZE in log)
    && (forall b :: 0 <= b < |blocks| && blocks[b] != blocks0[b] ==> b in log)
  }

  lemma CoveredSame(L: Layout, bm: Bytes, blocks: seq<Block>, log: set<int>)
    ensures Covered(L, bm, blocks, bm, blocks, log)
  {
  }

  lemma CoveredTrans(L: Layout, bm0: Bytes, blocks0: seq<Block>, bm1: Bytes, blocks1: seq<Block>, bm: Bytes,
                     blocks: seq<Block>, log1: set<int>, log: set<int>)
    requires Covered(L, bm0, blocks0, bm1, blocks1, log1) && Covered(L, bm1, blocks1, bm, blocks, log) && log1 <= log
    ensures Covered(L, bm0, blocks0, bm, blocks, log)
  {
    forall k | 0 <= k < |bm| && bm[k] != bm0[k] ensures L.bmapStart + k / BSIZE in log {
      assert bm[k] != bm1[k] || bm1[k] != bm0[k];
    }
    forall b | 0 <= b < |blocks| && blocks[b] != blocks0[b] ensures b in log {
      assert blocks[b] != blocks1[b] || blocks1[b] != blocks0[b];
    }
  }

  lemma CoveredMore(L: Layout, bm0: Bytes, blocks0: seq<Block>, bm: Bytes, blocks: seq<Block>, log1: set<int>,
                    log: set<int>)
    requires Covered(L, bm0, blocks0, bm, blocks, log1) && log1 <= log
    ensures Covered(L, bm0, blocks0, bm, blocks, log)
  {
  }

  /** One byte of the bitmap, in the block of its bits, has changed. */
  lemma CoveredBit(L: Layout, bm0: Bytes, bm: Bytes, blocks: seq<Block>, b: int, log: set<int>)
    requires 0 <= b < 8 * |bm0| && |bm| == |bm0| && (forall k :: 0 <= k < |bm| && k != b / 8 ==> bm[k] == bm0[k])
    requires BitmapBlock(L, b) in log
    ensures Covered(L, bm0, blocks, bm, blocks, log)
  {
    assert b / 8 / BSIZE == b / BPB;
  }

  lemma CoveredBlock(L: Layout, bm: Bytes, blocks: seq<Block>, b: int, data: Block, log: set<int>)
    requires 0 <= b < |blocks| && b in log
    ensures Covered(L, bm, blocks, bm, blocks[b := data], log)
  {
  }

  /** balloc() */
  lemma CoveredAlloc(L: Layout, bm: Bytes, blocks: seq<Block>, b: int, log: set<int>)
    requires 0 <= b < |blocks| && b < 8 * |bm| && {BitmapBlock(L, b), b} <= log
    ensures Covered(L, bm, blocks, SetBit(bm, b), blocks[b := Zero()], log)
  {
    CoveredBit(L, bm, SetBit(bm, b), blocks, b, log);
    CoveredBlock(L, SetBit(bm, b), blocks, b, Zero(), log);
    hide SetBit, Covered;
    CoveredTrans(L, bm, blocks, SetBit(bm, b), blocks, SetBit(bm, b), blocks[b := Zero()], log, log);
  }

  lemma CoveredFree(L: Layout, bm: Bytes, blocks: seq<Block>, b: int, log: set<int>)
    requires 0 <= b < 8 * |bm| && BitmapBlock(L, b) in log
    ensures Covered(L, bm, blocks, ClearBit(bm, b), blocks, log)
  {
    CoveredBit(L, bm, ClearBit(bm, b), blocks, b, log);
  }

  /** From one stored file system to the next, whatever changes lies in blocks of the log. */
  ghost predicate ChangesLogged(L: Layout, s: FS, t: FS, log: set<int>) {
    && Covered(L, s.bm, s.blocks, t.bm, t.blocks, log)
    && |t.inode| == |s.inode|
    && forall i :: 0 <= i < |t.inode| && t.inode[i] != s.inode[i] ==> L.inodeStart + i / IPB in log
  }

  lemma ChangedOne(L: Layout, s: FS, t: FS, i: int, log: set<int>)
    requires Covered(L, s.bm, s.blocks, t.bm, t.blocks, log) && 0 <= i < |s.inode| == |t.inode|
    requires t.inode == s.inode || (t.inode == s.inode[i := t.inode[i]] && L.inodeStart + i / IPB in log)
    ensures ChangesLogged(L, s, t, log)
  {
    hide Covered;
  }

  class FileSystem {
    const L: Layout
    var bm: Bytes
    var blocks: seq<Block>
    var inode: seq<Inode>        // in-memory inodes
    var dinode: seq<Inode>       // inodes on disk
    ghost var owner: map<int, Slot>
    ghost var logged: set<int>   // block numbers passed to log_write

    /** The image mkfs makes before it adds files: metadata blocks marked, no inode in use. */
    constructor (L0: Layout, bytes: int)
      requires L0.Valid() && L0.nblocks <= 8 * bytes
      ensures L == L0 && Valid() && owner == map[] && logged == {}
    {
      L := L0;
      blocks := seq(L0.nblocks, _ => Zero());
      inode := seq(L0.ninodes, _ => Inode.Inode(Type.Free, 0, 0, NoAddrs()));
      dinode := seq(L0.ninodes, _ => Inode.Inode(Type.Free, 0, 0, NoAddrs()));
      owner := map[];
      logged := {};
      new;
      var map0: Bytes := seq(bytes, _ => 0);
      var k := 0;
      assert forall c :: 0 <= c < L0.nblocks ==> !Bit(map0, c);
      while k < L.dataStart
        invariant 0 <= k <= L.dataStart && |map0| == bytes
        invariant forall c :: 0 <= c < L.nblocks ==> (Bit(map0, c) <==> c < k)
      {
        forall c | 0 <= c < L.nblocks ensures Bit(SetBit(map0, k), c) <==> c <= k {
          SetBitAt(map0, k, c);
        }
        map0 := SetBit(map0, k);
        k := k + 1;
      }
      bm := map0;
    }

    ghost function Abs(): FS
      reads this
    {
      FS(bm, blocks, inode)
    }

    /** What the disk blocks hold once all is written. */
    ghost function Stored(): FS
      reads this
    {
      FS(bm, blocks, dinode)
    }

    /** What holds even in the middle of an operation. */
    ghost predicate Core()
      reads this
    {
      Shape(L, Abs()) && Owned(L, Abs(), owner)
    }

    /** The bitmap block of block b. */
    function BBlock(b: int): int {
      BitmapBlock(L, b)
    }

    /** balloc(): the first unused block, zeroed; -1 for the panic when there is none. */
    method Balloc() returns (b: int)
      requires Core()
      modifies this`bm, this`blocks, this`logged
      ensures b == -1 <==> Full(L, owner)
      ensures b == -1 ==> bm == old(bm) && blocks == old(blocks) && logged == old(logged)
      ensures b != -1 ==>
        && L.dataStart <= b < L.nblocks && b !in owner && (forall c :: L.dataStart <= c < b ==> c in owner)
        && bm == SetBit(old(bm), b) && blocks == old(blocks)[b := Zero()] && logged == old(logged) + {BBlock(b), b}
    {
      hide Addr, Bit, SetBit;
      var base := 0;
      while base < L.nblocks
        invariant 0 <= base && base % BPB == 0 && bm == old(bm) && blocks == old(blocks) && logged == old(logged)
        invariant forall c :: 0 <= c < base && c < L.nblocks ==> Bit(bm, c)
      {
        var bi := 0;
        while bi < BPB && base + bi < L.nblocks
          invariant 0 <= bi <= BPB && bm == old(bm) && blocks == old(blocks) && logged == old(logged)
          invariant forall c :: 0 <= c < base + bi && c < L.nblocks ==> Bit(bm, c)
        {
          if !Bit(bm, base + bi) {
            b := base + bi;
            assert L.dataStart <= b && b !in owner;
            assert BBlock(b) == L.bmapStart + base / BPB;
            bm := SetBit(bm, b);
            logged := logged + {L.bmapStart + base / BPB};
            blocks := blocks[b := Zero()];
            logged := logged + {b};
            return;
          }
          bi := bi + 1;
        }
        base := base + BPB;
      }
      b := -1;
    }

    /** bfree(): true is the panic "freeing free block". */
    method Bfree(b: int) returns (panic: bool)
      requires 0 <= b < 8 * |bm|
      modifies this`bm, this`logged
      ensures panic <==> !Bit(old(bm), b)
      ensures panic ==> bm == old(bm) && logged == old(logged)
      ensures !panic ==> bm == ClearBit(old(bm), b) && logged == old(logged) + {BBlock(b)}
    {
      if !Bit(bm, b) {
        return true;
      }
      bm := ClearBit(bm, b);
      logged := logged + {L.bmapStart + b / BPB};
      return false;
    }

    /** bmap() for a direct block. */
    method BmapDirect(i: int, bn: int) returns (a: int)
      requires Core() && 0 <= i < L.ninodes && 0 <= bn < NDIRECT
      modifies this
      ensures dinode == old(dinode) && (a == -1 ==> Core() && Full(L, owner) && old(Addr(L, Abs(), i, bn)) == 0)
      ensures a != -1 ==> |owner| == |old(owner)| + old(BmapNew(L, Abs(), i, bn))
      ensures a == -1 ==> |owner| < |old(owner)| + old(BmapNew(L, Abs(), i, bn))
      ensures a != -1 ==> Core() && a == Addr(L, Abs(), i, bn) && old(Shape(L, Abs()))
      ensures a != -1 ==> MapsOne(L, old(Abs()), Abs(), i, bn) && SameBytes(L, old(Abs()), Abs())
      ensures a != -1 ==> logged == old(logged) + BmapLog(L, old(Abs()), Abs(), i, bn)
      ensures a != -1 && Abs() == old(Abs()) ==> owner == old(owner) && logged == old(logged)
      ensures old(logged) <= logged && Covered(L, old(bm), old(blocks), bm, blocks, logged)
    {
      hide Owned, Addr, Bit, SetBit, MapsOne, SameBytes, Assigned, Covered;
      ghost var s := Abs();
      CoveredSame(L, bm, blocks, logged);
      AddrIs(L, s, i, bn);
      a := inode[i].addrs[bn];
      if a == 0 {
        a := Balloc();
        if a == -1 {
          return;
        }
        CoveredAlloc(L, s.bm, s.blocks, a, logged);
        WithAddrAssigned(L, s, owner, i, bn, a);
        MapsAssigned(L, s, WithAddr(s, i, bn, a), owner, i, bn, a);
        inode := inode[i := inode[i].(addrs := inode[i].addrs[bn := a])];
        owner := owner[a := (i, bn)];
        AddrIs(L, Abs(), i, bn);
        AssignedAddr(L, s, Abs(), old(owner), i, bn, a);
      } else {
        MapsSame(L, s, owner, i, bn);
      }
    }

    /** bmap() for a block behind the indirect block. */
    method BmapIndirect(i: int, bn: int) returns (a: int)
      requires Core() && 0 <= i < L.ninodes && NDIRECT <= bn < MAXFILE
      modifies this
      ensures dinode == old(dinode)
      ensures a != -1 ==> Core() && a == Addr(L, Abs(), i, DataSlot(bn)) && old(Shape(L, Abs()))
      ensures a != -1 ==> MapsOne(L, old(Abs()), Abs(), i, bn) && SameBytes(L, old(Abs()), Abs())
      ensures a != -1 ==> logged == old(logged) + BmapLog(L, old(Abs()), Abs(), i, bn)
      ensures a != -1 && Abs() == old(Abs()) ==> owner == old(owner) && logged == old(logged)
      ensures a == -1 ==> Core() && Full(L, owner) && old(Addr(L, Abs(), i, DataSlot(bn))) == 0
      ensures a != -1 ==> |owner| == |old(owner)| + old(BmapNew(L, Abs(), i, bn))
      ensures a == -1 ==> |owner| < |old(owner)| + old(BmapNew(L, Abs(), i, bn))
      ensures old(logged) <= logged && Covered(L, old(bm), old(blocks), bm, blocks, logged)
    {
      hide Owned, Addr, Bit, SetBit, MapsOne, SameBytes, Assigned, PutWord, Word, Covered;
      ghost var s := Abs();
      CoveredSame(L, bm, blocks, logged);
      AddrIs(L, s, i, NDIRECT);
      var ind := inode[i].addrs[NDIRECT];
      if ind == 0 {
        EntryEmpty(L, s, i, bn);
        ind := Balloc();
        if ind == -1 {
          return -1;
        }
        CoveredAlloc(L, s.bm, s.blocks, ind, logged);
        WithAddrAssigned(L, s, owner, i, NDIRECT, ind);
        AssignedOwned(L, s, WithAddr(s, i, NDIRECT, ind), owner, i, NDIRECT, ind);
        inode := inode[i := inode[i].(addrs := inode[i].addrs[NDIRECT := ind])];
        owner := owner[ind := (i, NDIRECT)];
        AssignedAddr(L, s, Abs(), old(owner), i, NDIRECT, ind);
        AssignedOther(L, s, Abs(), old(owner), i, NDIRECT, ind, DataSlot(bn));
      }
      ghost var t := Abs();
      AddrIs(L, t, i, NDIRECT);
      assert Core() && ind == inode[i].addrs[NDIRECT] != 0;
      ghost var log1 := logged;
      a := BmapEntry(i, bn);
      CoveredTrans(L, s.bm, s.blocks, t.bm, t.blocks, bm, blocks, log1, logged);
      if a != -1 && t != s {
        MapsTwice(L, s, t, Abs(), old(owner), i, bn, ind);
        MapsGrows(L, s, Abs(), i, bn);
      }
      if a != -1 { AddrIs(L, Abs(), i, NDIRECT); }
    }

    /** The second half of bmap()'s indirect case: the entry, with the indirect block in place. */
    method BmapEntry(i: int, bn: int) returns (a: int)
      requires Core() && 0 <= i < L.ninodes && NDIRECT <= bn < MAXFILE && inode[i].addrs[NDIRECT] != 0
      modifies this
      ensures dinode == old(dinode) && inode == old(inode)
      ensures a != -1 ==> Core() && a == Addr(L, Abs(), i, DataSlot(bn)) && old(Shape(L, Abs()))
      ensures a != -1 ==> MapsOne(L, old(Abs()), Abs(), i, bn) && SameBytes(L, old(Abs()), Abs())
      ensures a != -1 ==> logged == old(logged) + BmapLog(L, old(Abs()), Abs(), i, bn)
      ensures a != -1 && Abs() == old(Abs()) ==> owner == old(owner) && logged == old(logged)
      ensures a == -1 ==> Core() && Full(L, owner) && old(Addr(L, Abs(), i, DataSlot(bn))) == 0
      ensures a != -1 ==> |owner| == |old(owner)| + old(BmapNew(L, Abs(), i, bn))
      ensures a == -1 ==> |owner| < |old(owner)| + old(BmapNew(L, Abs(), i, bn))
      ensures old(logged) <= logged && Covered(L, old(bm), old(blocks), bm, blocks, logged)
    {
      hide Owned, Addr, Bit, SetBit, MapsOne, SameBytes, Assigned, PutWord, Word, Covered;
      ghost var s := Abs();
      CoveredSame(L, bm, blocks, logged);
      var ind := inode[i].addrs[NDIRECT];
      EntryIs(L, s, i, bn);
      a := Word(blocks[ind], bn - NDIRECT);
      if a == 0 {
        a := Balloc();
        if a == -1 {
          return;
        }
        CoveredAlloc(L, s.bm, s.blocks, a, logged);
        ghost var blocks1, log1 := blocks, logged;
        IndirectApart(L, s, owner, i, a);
        WithEntryAssigned(L, s, owner, i, DataSlot(bn), a);
        MapsAssigned(L, s, WithEntry(s, i, DataSlot(bn), a), owner, i, bn, a);
        blocks := blocks[ind := PutWord(blocks[ind], bn - NDIRECT, a)];
        logged := logged + {ind};
        CoveredBlock(L, bm, blocks1, ind, blocks[ind], logged);
        CoveredTrans(L, s.bm, s.blocks, bm, blocks1, bm, blocks, log1, logged);
        owner := owner[a := (i, DataSlot(bn))];
        AssignedAddr(L, s, Abs(), old(owner), i, DataSlot(bn), a);
        AddrIs(L, s, i, NDIRECT);
        AddrIs(L, Abs(), i, NDIRECT);
      } else {
        MapsSame(L, s, owner, i, bn);
      }
    }

    /** bmap(): the block of the bn-th block of inode i, allocated if missing; -1 is a panic. */
    method Bmap(i: int, bn: int) returns (a: int)
      requires Core() && 0 <= i < L.ninodes && 0 <= bn
      modifies this
      ensures dinode == old(dinode)
      ensures a != -1 ==> bn < MAXFILE && Core() && a == Addr(L, Abs(), i, DataSlot(bn)) && old(Shape(L, Abs()))
      ensures a != -1 ==> MapsOne(L, old(Abs()), Abs(), i, bn) && SameBytes(L, old(Abs()), Abs())
      ensures a != -1 ==> logged == old(logged) + BmapLog(L, old(Abs()), Abs(), i, bn)
      ensures a != -1 && Abs() == old(Abs()) ==> owner == old(owner) && logged == old(logged)
      ensures a == -1 ==> Core() && (bn >= MAXFILE || (Full(L, owner) && old(Addr(L, Abs(), i, DataSlot(bn))) == 0))
      ensures a != -1 ==> |owner| == |old(owner)| + old(BmapNew(L, Abs(), i, bn))
      ensures a == -1 && bn < MAXFILE ==> |owner| < |old(owner)| + old(BmapNew(L, Abs(), i, bn))
      ensures a == -1 <==> bn >= MAXFILE || Room(L, old(owner)) < old(BmapNew(L, Abs(), i, bn))
      ensures old(logged) <= logged && Covered(L, old(bm), old(blocks), bm, blocks, logged)
    {
      hide Owned, Addr, Bit, SetBit, MapsOne, SameBytes, Assigned, PutWord, Word, Covered;
      if bn < NDIRECT {
        a := BmapDirect(i, bn);
        FullIff(L, Abs(), owner);
        return;
      }
      if bn - NDIRECT < NINDIRECT {
        a := BmapIndirect(i, bn);
        FullIff(L, Abs(), owner);
        return;
      }
      CoveredSame(L, bm, blocks, logged);
      a := -1;
    }

    // ---- reading and writing

    /** Between operations: files are mapped exactly up to their size and the disk inodes are current. */
    ghost predicate Valid()
      reads this
    {
      Core() && dinode == inode && |inode| == L.ninodes && Sized(L, Abs())
    }

    /** The file as a byte sequence. */
    ghost function Contents(i: int): (r: seq<int>)
      requires Valid() && 0 <= i < L.ninodes
      reads this
      ensures |r| == inode[i].size <= MAXBYTES
    {
      FileBytes(L, Abs(), i)
    }

    /** All files: the map from inode number to bytes that the inode layer refines. */
    ghost function Files(): (r: seq<seq<int>>)
      requires Valid()
      reads this
      ensures |r| == L.ninodes && forall i :: 0 <= i < L.ninodes ==> r[i] == Contents(i)
    {
      AllFiles(L, Abs())
    }

    /** One iteration of readi(): m bytes from the block that holds position off. */
    method ReadBlock(i: int, off: int, m: int) returns (piece: seq<int>)
      requires Valid() && 0 <= i < L.ninodes && 0 <= off && 0 < m <= BSIZE - off % BSIZE && off + m <= inode[i].size
      modifies this
      ensures Valid() && Abs() == old(Abs()) && dinode == old(dinode) && owner == old(owner) && logged == old(logged)
      ensures piece == Contents(i)[off..off + m]
    {
      hide Owned, Addr, ByteAt, MapsOne, SameBytes, MappedTo;
      ghost var s := Abs();
      BlockMapped(L, s, i, off, inode[i].size);
      SliceIs(L, s, owner, i, off, m, Contents(i));
      var a := Bmap(i, off / BSIZE);
      MappedStays(L, s, Abs(), i, off / BSIZE);
      piece := blocks[a][off % BSIZE..off % BSIZE + m];
    }

    /** readi(): the slice of the file, cut at its end; nothing is allocated. */
    method Readi(i: int, off0: int, n0: int) returns (r: Result)
      requires Valid() && 0 <= i < L.ninodes && 0 <= off0 < UINT && 0 <= n0 < UINT
      modifies this
      ensures Valid() && Abs() == old(Abs()) && dinode == old(dinode) && owner == old(owner) && logged == old(logged)
      ensures inode[i].typ.Dev? ==> r == Device
      ensures !inode[i].typ.Dev? && (off0 > inode[i].size || off0 + n0 >= UINT) ==> r == Error
      ensures !inode[i].typ.Dev? && off0 <= inode[i].size && off0 + n0 < UINT ==>
                r == Data(Contents(i)[off0..Min(off0 + n0, inode[i].size)])
    {
      hide Owned, FileBytes, MappedTo, Shape, ByteAt;
      WrapsIff(off0, n0);
      if inode[i].typ.Dev? {
        return Device;
      }
      if off0 > inode[i].size || (off0 + n0) % UINT < off0 {
        return Error;
      }
      var n := n0;
      if off0 + n > inode[i].size {
        n := inode[i].size - off0;
      }
      ghost var whole := Contents(i);
      var off, tot, dst := off0, 0, [];
      while tot < n
        invariant 0 <= tot <= n && off == off0 + tot && off0 + n <= |whole|
        invariant Valid() && Abs() == old(Abs()) && dinode == old(dinode) && owner == old(owner)
        invariant logged == old(logged)
        invariant whole == Contents(i) && dst == whole[off0..off0 + tot]
      {
        var m := Min(n - tot, BSIZE - off % BSIZE);
        var piece := ReadBlock(i, off, m);
        assert whole[off0..off] + whole[off..off + m] == whole[off0..off + m];
        dst := dst + piece;
        tot, off := tot + m, off + m;
      }
      r := Data(dst);
    }

    /** One iteration of writei(): the next bytes of src into block bn, from offset o on. */
    method WriteBlock(i: int, bn: int, o: int, m: int, off0: int, src: seq<int>, tot: int,
                      ghost s0: FS, ghost log0: set<int>, ghost lo: int) returns (ok: bool)
      requires Core() && Shape(L, s0) && 0 <= i < L.ninodes && s0.inode[i].size <= MAXBYTES && 0 <= bn < MAXFILE
      requires 0 <= tot < tot + m <= |src| && 0 <= o <= o + m <= BSIZE && off0 + tot == bn * BSIZE + o
      requires Writing(L, s0, Abs(), i, off0, src, tot)
      requires 0 <= lo <= bn && lo * BSIZE <= s0.inode[i].size && (o == 0 || off0 + tot <= s0.inode[i].size)
      requires logged == log0 + WriteLog(L, Abs(), i, s0.inode[i].size, lo, bn)
      modifies this
      ensures dinode == old(dinode) && Core() && (!ok ==> Full(L, owner))
      ensures ok ==> |owner| == |old(owner)| + BlockCost(s0.inode[i].size, bn)
      ensures !ok ==> |owner| < |old(owner)| + BlockCost(s0.inode[i].size, bn)
      ensures ok ==> Writing(L, s0, Abs(), i, off0, src, tot + m)
      ensures ok ==> logged == log0 + WriteLog(L, Abs(), i, s0.inode[i].size, lo, bn + 1)
      ensures old(logged) <= logged && Covered(L, old(bm), old(blocks), bm, blocks, logged)
    {
      hide Owned, Addr, MapsOne, SameBytes, MappedTo, WrittenBytes, OnlyMap, WriteLog, PutsIn, Full, BmapLog, BmapNew,
        Covered;
      ghost var s := Abs();
      CostIs(L, s, i, s0.inode[i].size, bn, o);
      var a := Bmap(i, bn);
      if a == -1 {
        return false;
      }
      ghost var t := Abs();
      MapsAddr(L, s, t, owner, i, bn);
      blocks := blocks[a := Patch(blocks[a], o, src[tot..tot + m])];
      ghost var log1 := logged;
      logged := logged + {a};
      CoveredBlock(L, t.bm, t.blocks, a, blocks[a], logged);
      CoveredTrans(L, s.bm, s.blocks, t.bm, t.blocks, bm, blocks, log1, logged);
      IsPut(L, t, Abs(), i, bn, o, src[tot..tot + m]);
      WriteStep(L, s0, s, t, Abs(), owner, i, bn, o, off0, src, tot, m);
      NewBlocks(L, s, i, s0.inode[i].size, bn, o);
      WriteLogStep(L, s, t, i, s0.inode[i].size, lo, bn);
      WriteLogFrame(L, t, Abs(), i, s0.inode[i].size, lo, bn + 1);
      ok := true;
    }

    /** iupdate(). */
    method Iupdate(i: int)
      requires 0 <= i < |inode| && |dinode| == |inode|
      modifies this`dinode, this`logged
      ensures dinode == old(dinode)[i := inode[i]] && logged == old(logged) + {L.inodeStart + i / IPB}
    {
      dinode := dinode[i := inode[i]];
      logged := logged + {L.inodeStart + i / IPB};
    }

    /** The loop of writei(). */
    method WriteLoop(i: int, src: seq<int>, off0: int) returns (ok: bool)
      requires Core() && Sized(L, Abs()) && 0 <= i < L.ninodes && 0 <= off0 <= inode[i].size && off0 + |src| <= MAXBYTES
      modifies this
      ensures dinode == old(dinode) && Core() && (!ok ==> Full(L, owner))
      ensures ok ==> old(Shape(L, Abs())) && Writing(L, old(Abs()), Abs(), i, off0, src, |src|)
      ensures ok ==> |owner| == |old(owner)| + Allocated(old(inode[i].size), off0, |src|)
      ensures !ok ==> |owner| < |old(owner)| + Allocated(old(inode[i].size), off0, |src|)
      ensures ok && src == [] ==> logged == old(logged)
      ensures ok && src != [] ==>
        logged == old(logged) + WriteLog(L, Abs(), i, old(inode[i].size), off0 / BSIZE, LastBlock(off0, |src|) + 1)
      ensures old(logged) <= logged && Covered(L, old(bm), old(blocks), bm, blocks, logged)
    {
      hide Owned, Addr, Writing, MappedTo, ByteAt, WriteLog, Full, Sized, Going, Allocated, BlockCost, LastBlock, Min,
        Covered;
      ghost var s0, log0, own0 := Abs(), logged, |owner|;
      WriteStarts(L, s0, i, off0, src);
      CoveredSame(L, bm, blocks, logged);
      GoingStarts(L, s0, own0, log0, i, off0, src);
      var n, off, tot := |src|, off0, 0;
      while tot < n
        invariant 0 <= tot <= n && off == off0 + tot && Core() && dinode == old(dinode)
        invariant old(logged) <= logged && Covered(L, old(bm), old(blocks), bm, blocks, logged)
        invariant Going(L, s0, Abs(), own0, |owner|, log0, logged, i, off0, src, tot)
      {
        var m := Min(n - tot, BSIZE - off % BSIZE);
        GoingOn(L, s0, Abs(), own0, |owner|, log0, logged, i, off0, src, tot, off / BSIZE, off % BSIZE, m);
        ghost var bm1, blocks1, log1 := bm, blocks, logged;
        ok := WriteBlock(i, off / BSIZE, off % BSIZE, m, off0, src, tot, s0, log0, off0 / BSIZE);
        CoveredTrans(L, old(bm), old(blocks), bm1, blocks1, bm, blocks, log1, logged);
        if !ok {
          return;
        }
        GoingStep(L, s0, Abs(), own0, |owner|, log0, logged, i, off0, src, tot, m);
        tot, off := tot + m, off + m;
      }
      GoneThrough(L, s0, Abs(), own0, |owner|, log0, logged, i, off0, src);
      ok := true;
    }

    /** writei(): the file overwritten at off0 and extended; no other file changes. */
    method Writei(i: int, src: seq<int>, off0: int) returns (r: Result)
      requires Valid() && 0 <= i < L.ninodes && 0 <= off0 < UINT && |src| < UINT
      modifies this
      ensures r == Panic ==> Core() && Full(L, owner)
      ensures r == Panic || r.Wrote? ==>
        (r == Panic <==> Room(L, old(owner)) < Allocated(old(inode[i].size), off0, |src|))
      ensures r.Wrote? ==> |owner| == |old(owner)| + Allocated(old(inode[i].size), off0, |src|)
      ensures old(inode[i].typ).Dev? <==> r == Device
      ensures !old(inode[i].typ).Dev? ==> (r == Error <==> off0 > old(inode[i].size) || off0 + |src| > MAXBYTES)
      ensures r in {Panic, Device, Error, Wrote(|src|)}
      ensures r in {Device, Error} ==> Valid() && Abs() == old(Abs()) && logged == old(logged) && owner == old(owner)
      ensures r.Wrote? ==> Valid() && old(Valid()) && Contents(i) == Overwrite(old(Contents(i)), off0, src)
      ensures r.Wrote? ==> inode[i] == old(inode[i]).(size := inode[i].size, addrs := inode[i].addrs)
      ensures r.Wrote? ==>
        forall j :: 0 <= j < L.ninodes && j != i ==> inode[j] == old(inode[j]) && Contents(j) == old(Contents(j))
      ensures r.Wrote? && |src| > 0 ==> Logs(L, Abs(), i, old(inode[i].size), off0, |src|, old(logged), logged)
      ensures r.Wrote? ==> ChangesLogged(L, old(Stored()), Stored(), logged)
    {
      hide Owned, Addr, FileBytes, Writing, MappedTo, ByteAt, WriteLog, Full, Logs, Allocated, LastBlock, Covered,
        ChangesLogged;
      WrapsIff(off0, |src|);
      var n := |src|;
      if inode[i].typ.Dev? {
        return Device;
      }
      if off0 > inode[i].size || (off0 + n) % UINT < off0 {
        return Error;
      }
      if off0 + n > MAXBYTES {
        return Error;
      }
      ghost var s0 := Abs();
      var ok := WriteLoop(i, src, off0);
      FullIff(L, Abs(), owner);
      if !ok {
        return Panic;
      }
      ghost var s, log1 := Abs(), logged;
      WriteEnds(L, s0, s, i, off0, src);
      if n > 0 && off0 + n > inode[i].size {
        inode := inode[i := inode[i].(size := off0 + n)];
        Iupdate(i);
      }
      CoveredMore(L, s0.bm, s0.blocks, bm, blocks, log1, logged);
      ChangedOne(L, s0, Stored(), i, logged);
      WriteDone(L, s0, s, Abs(), i, off0, src);
      WriteSized(L, s0, s, Abs(), owner, i, off0, src);
      if n > 0 {
        LogsWrite(L, s, Abs(), i, s0.inode[i].size, off0, n, old(logged), logged);
      }
      r := Wrote(n);
    }

    /** The first loop of itrunc(): the direct blocks. */
    method FreeDirect(i: int) returns (panic: bool)
      requires Core() && 0 <= i < L.ninodes
      modifies this`bm, this`inode, this`owner, this`logged
      ensures !panic && Core() && owner == Minus(old(owner), i, 0, NDIRECT) && |inode| == |old(inode)|
      ensures |bm| == |old(bm)|
      ensures forall k :: 0 <= k < NDIRECT ==> inode[i].addrs[k] == 0
      ensures inode == old(inode)[i := old(inode[i]).(addrs := inode[i].addrs)]
      ensures old(logged) <= logged && Covered(L, old(bm), old(blocks), bm, blocks, logged)
    {
      hide Owned, Bit, ClearBit, Minus, Covered;
      MinusNone(owner, i, 0);
      CoveredSame(L, bm, blocks, logged);
      var k := 0;
      while k < NDIRECT
        invariant 0 <= k <= NDIRECT && Core() && |bm| == |old(bm)| && blocks == old(blocks)
        invariant old(logged) <= logged && Covered(L, old(bm), old(blocks), bm, blocks, logged)
        invariant owner == Minus(old(owner), i, 0, k)
        invariant inode == old(inode)[i := old(inode[i]).(addrs := inode[i].addrs)]
        invariant forall m :: 0 <= m < k ==> inode[i].addrs[m] == 0
      {
        if inode[i].addrs[k] != 0 {
          FreeSlot(L, Abs(), owner, i, k);
          ghost var bm1, log1 := bm, logged;
          panic := Bfree(inode[i].addrs[k]);
          if panic {
            return;
          }
          CoveredFree(L, bm1, blocks, inode[i].addrs[k], logged);
          CoveredTrans(L, old(bm), old(blocks), bm1, blocks, bm, blocks, log1, logged);
          inode := inode[i := inode[i].(addrs := inode[i].addrs[k := 0])];
          owner := Minus(owner, i, k, k + 1);
        } else {
          AddrIs(L, Abs(), i, k);
          SkipSlot(L, Abs(), owner, i, k);
        }
        MinusSwap(old(owner), i, 0, k);
        k := k + 1;
      }
      panic := false;
    }

    /** The second loop of itrunc(): the blocks listed in the indirect block, which keeps its words. */
    method FreeEntries(i: int) returns (panic: bool)
      requires Core() && 0 <= i < L.ninodes && inode[i].addrs[NDIRECT] != 0
      modifies this`bm, this`logged
      ensures !panic && |bm| == |old(bm)| && BitsAre(L, bm, Minus(owner, i, NDIRECT + 1, NSLOTS))
      ensures old(logged) <= logged && Covered(L, old(bm), old(blocks), bm, blocks, logged)
    {
      hide Owned, Bit, ClearBit, Minus, Word, Covered;
      ghost var s := Abs();
      MinusNone(owner, i, NDIRECT + 1);
      OwnedBits(L, s, owner);
      CoveredSame(L, bm, blocks, logged);
      var a := blocks[inode[i].addrs[NDIRECT]];
      var j := 0;
      while j < NINDIRECT
        invariant old(logged) <= logged && Covered(L, s.bm, blocks, bm, blocks, logged)
        invariant 0 <= j <= NINDIRECT && |bm| == |s.bm| && BitsAre(L, bm, Minus(owner, i, NDIRECT + 1, NDIRECT + 1 + j))
      {
        EntryIs(L, s, i, NDIRECT + j);
        if Word(a, j) != 0 {
          FreeEntry(L, s, owner, bm, i, NDIRECT + 1, NDIRECT + 1 + j, NDIRECT + 1 + j);
          ghost var bm1, log1 := bm, logged;
          panic := Bfree(Word(a, j));
          if panic {
            return;
          }
          CoveredFree(L, bm1, blocks, Word(a, j), logged);
          CoveredTrans(L, s.bm, blocks, bm1, blocks, bm, blocks, log1, logged);
        } else {
          SkipEntry(L, s, owner, i, NDIRECT + 1, NDIRECT + 1 + j);
        }
        MinusSwap(owner, i, NDIRECT + 1, NDIRECT + 1 + j);
        j := j + 1;
      }
      panic := false;
    }

    /** The indirect part of itrunc(). */
    method FreeIndirect(i: int) returns (panic: bool)
      requires Core() && 0 <= i < L.ninodes
      modifies this`bm, this`inode, this`owner, this`logged
      ensures !panic && Core() && owner == Minus(old(owner), i, NDIRECT, NSLOTS) && |bm| == |old(bm)|
      ensures inode == old(inode)[i := old(inode[i]).(addrs := old(inode[i].addrs)[NDIRECT := 0])]
      ensures old(logged) <= logged && Covered(L, old(bm), old(blocks), bm, blocks, logged)
    {
      hide Owned, Bit, ClearBit, Minus, Word, Addr, Covered;
      ghost var s := Abs();
      CoveredSame(L, bm, blocks, logged);
      AddrIs(L, s, i, NDIRECT);
      if inode[i].addrs[NDIRECT] != 0 {
        panic := FreeEntries(i);
        FreeEntry(L, s, owner, bm, i, NDIRECT + 1, NSLOTS, NDIRECT);
        ghost var bm1, log1 := bm, logged;
        panic := Bfree(inode[i].addrs[NDIRECT]);
        if panic {
          return;
        }
        CoveredFree(L, bm1, blocks, inode[i].addrs[NDIRECT], logged);
        CoveredTrans(L, s.bm, blocks, bm1, blocks, bm, blocks, log1, logged);
        MinusSwap(owner, i, NDIRECT, NSLOTS - 1);
        DropIndirect(L, s, owner, bm, i);
        inode := inode[i := inode[i].(addrs := inode[i].addrs[NDIRECT := 0])];
        owner := Minus(owner, i, NDIRECT, NSLOTS);
      } else {
        NoEntries(L, s, owner, i);
        assert inode[i].addrs == inode[i].addrs[NDIRECT := 0];
        assert inode[i] == inode[i].(addrs := inode[i].addrs);
      }
      panic := false;
    }

    /** itrunc(): exactly the blocks of inode i are released, and no block is freed twice. */
    method Itrunc(i: int) returns (panic: bool)
      requires Valid() && 0 <= i < L.ninodes
      modifies this`bm, this`inode, this`dinode, this`owner, this`logged
      ensures !panic && Valid() && old(Valid()) && Contents(i) == []
      ensures inode[i] == old(inode[i]).(size := 0, addrs := inode[i].addrs)
      ensures forall k :: 0 <= k <= NDIRECT ==> inode[i].addrs[k] == 0
      ensures forall j :: 0 <= j < L.ninodes && j != i ==> inode[j] == old(inode[j]) && Contents(j) == old(Contents(j))
      ensures forall b :: 0 <= b < L.nblocks ==>
        (Bit(bm, b) <==> Bit(old(bm), b) && !(b in old(owner) && old(owner)[b].0 == i))
      ensures ChangesLogged(L, old(Stored()), Stored(), logged)
    {
      hide Owned, Bit, ClearBit, Minus, Word, Addr, Sized, FileBytes, Covered;
      ghost var s := Abs();
      panic := FreeDirect(i);
      ghost var bm1, log1 := bm, logged;
      panic := FreeIndirect(i);
      CoveredTrans(L, s.bm, blocks, bm1, blocks, bm, blocks, log1, logged);
      ghost var log2 := logged;
      MinusAll(old(owner), i);
      OwnedBits(L, Abs(), owner);
      inode := inode[i := inode[i].(size := 0)];
      Iupdate(i);
      CoveredMore(L, s.bm, blocks, bm, blocks, log2, logged);
      EmptiedSized(L, s, Abs(), i);
      Truncated(L, s, Abs(), old(owner), owner, i);
      forall j | 0 <= j < L.ninodes ensures Contents(j) == if j == i then [] else old(Contents(j)) {
        EmptiedBytes(L, s, Abs(), i, j);
      }
    }
  }
}
