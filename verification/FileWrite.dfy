/** filewrite() of file.c: a write cut into chunks, each its own log operation. */
module FileWrite {
  import opened Inode
  import opened Params

  const CHUNK: int := ((LOGSIZE - 1 - 1 - 2) / 2) * 512

  // ---- overwriting a byte sequence

  /** What a later read sees of a write: src in its range, the old bytes elsewhere. */
  lemma OverwriteReads(w: seq<int>, off: int, src: seq<int>)
    requires 0 <= off <= |w|
    ensures var r := Overwrite(w, off, src);
      |r| == Max(|w|, off + |src|) && r[off..off + |src|] == src && r[..off] == w[..off]
        && r[off + |src|..] == w[Min(off + |src|, |w|)..]
  {
    var r := Overwrite(w, off, src);
    assert r[..off] == w[..off];
    assert r[off..off + |src|] == src;
  }

  /** Writing a, then b behind it, is one write. */
  lemma OverwriteTwice(w: seq<int>, off: int, a: seq<int>, b: seq<int>)
    requires 0 <= off <= |w|
    ensures off + |a| <= |Overwrite(w, off, a)|
    ensures Overwrite(Overwrite(w, off, a), off + |a|, b) == Overwrite(w, off, a + b)
  {
    var x := Overwrite(w, off, a);
    var y, z := Overwrite(x, off + |a|, b), Overwrite(w, off, a + b);
    assert |y| == |z|;
    forall k | 0 <= k < |y| ensures y[k] == z[k] {
    }
  }

  /** w is w0 after the first i bytes of src. */
  ghost predicate Written(w0: seq<int>, w: seq<int>, off0: int, src: seq<int>, i: int)
    requires 0 <= i <= |src| && 0 <= off0
  {
    if i == 0 then w == w0 else off0 <= |w0| && w == Overwrite(w0, off0, src[..i])
  }

  lemma WrittenStep(w0: seq<int>, w: seq<int>, off0: int, src: seq<int>, i: int, m: int)
    requires 0 <= i < i + m <= |src| && 0 <= off0 && off0 + i <= |w| && Written(w0, w, off0, src, i)
    ensures Written(w0, Overwrite(w, off0 + i, src[i..i + m]), off0, src, i + m)
  {
    hide Overwrite;
    if i == 0 {
      assert src[0..m] == src[..m];
    } else {
      OverwriteTwice(w0, off0, src[..i], src[i..i + m]);
      assert src[..i] + src[i..i + m] == src[..i + m];
    }
  }

  lemma WrittenSize(w0: seq<int>, w: seq<int>, off0: int, src: seq<int>, i: int)
    requires 0 <= i <= |src| && 0 <= off0 && Written(w0, w, off0, src, i)
    ensures off0 <= |w0| <==> off0 + i <= |w|
    ensures off0 <= |w0| ==> |w| == Max(|w0|, off0 + i)
  {
  }

  // ---- blocks logged by one chunk

  lemma DataBlocksLast(L: Layout, s: FS, i: int, lo: int, hi: int)
    requires Shape(L, s) && 0 <= i < L.ninodes && 0 <= lo <= hi < MAXFILE
    ensures DataBlocks(L, s, i, lo, hi + 1) == DataBlocks(L, s, i, lo, hi) + {Addr(L, s, i, DataSlot(hi))}
  {
    hide Addr;
  }

  lemma {:induction false} DataBlocksAtMost(L: Layout, s: FS, i: int, lo: int, hi: int)
    requires Shape(L, s) && 0 <= i < L.ninodes && 0 <= lo <= hi <= MAXFILE
    ensures |DataBlocks(L, s, i, lo, hi)| <= hi - lo
    decreases hi - lo
  {
    if lo == hi {
      assert DataBlocks(L, s, i, lo, hi) == {};
    } else {
      hide Addr, DataBlocks;
      DataBlocksAtMost(L, s, i, lo, hi - 1);
      DataBlocksLast(L, s, i, lo, hi - 1);
    }
  }

  /** Distinct blocks of a file are distinct blocks of the disk. */
  lemma {:induction false} DataBlocksSize(L: Layout, s: FS, owner: map<int, Slot>, i: int, lo: int, hi: int)
    requires Shape(L, s) && Owned(L, s, owner) && 0 <= i < L.ninodes && 0 <= lo <= hi <= MAXFILE
    requires forall bn :: lo <= bn < hi ==> Addr(L, s, i, DataSlot(bn)) != 0
    ensures |DataBlocks(L, s, i, lo, hi)| == hi - lo
    decreases hi - lo
  {
    hide Owned, Addr, DataBlocks, Shape;
    if lo == hi {
      DataBlocksAtMost(L, s, i, lo, hi);
    } else {
      DataBlocksSize(L, s, owner, i, lo, hi - 1);
      DataBlocksLast(L, s, i, lo, hi - 1);
      DataBlocksFresh(L, s, owner, i, lo, hi - 1);
    }
  }

  lemma DataBlocksFresh(L: Layout, s: FS, owner: map<int, Slot>, i: int, lo: int, hi: int)
    requires Shape(L, s) && Owned(L, s, owner) && 0 <= i < L.ninodes && 0 <= lo <= hi < MAXFILE
    requires forall bn :: lo <= bn < hi ==> Addr(L, s, i, DataSlot(bn)) != 0
    ensures Addr(L, s, i, DataSlot(hi)) !in DataBlocks(L, s, i, lo, hi)
  {
    hide Owned, Addr;
    forall bn | lo <= bn < hi ensures Addr(L, s, i, DataSlot(bn)) != Addr(L, s, i, DataSlot(hi)) {
      AddrsDiffer(L, s, owner, i, DataSlot(bn), DataSlot(hi));
    }
  }

  lemma AddrsDiffer(L: Layout, s: FS, owner: map<int, Slot>, i: int, k: int, m: int)
    requires Shape(L, s) && Owned(L, s, owner) && IsSlot(L, i, k) && IsSlot(L, i, m) && k != m && Addr(L, s, i, k) != 0
    ensures Addr(L, s, i, k) != Addr(L, s, i, m)
  {
    hide Addr, Shape;
  }

  /** The blocks one chunk logs: those of writei() on a file of this size, and the inode block if the file grows. */
  ghost function ChunkLog(L: Layout, s: FS, i: int, size: int, off: int, n: int): set<int>
    requires Shape(L, s) && 0 <= i < L.ninodes && 0 <= off && 0 < n && off + n <= MAXBYTES
  {
    WriteLog(L, s, i, size, off / BSIZE, LastBlock(off, n) + 1)
    + if off + n > size then {L.inodeStart + i / IPB} else {}
  }

  /**
    Their number: the blocks of the span, the bitmap block and the indirect block if blocks are new,
    the inode block.
   */
  function LogCount(off: int, n: int, size: int): int
    requires 0 <= off && 0 < n
  {
    var last := LastBlock(off, n);
    last + 1 - off / BSIZE
    + (if IsNew(size, last) then 1 else 0)
    + (if last >= NDIRECT && IsNew(size, last) then 1 else 0)
    + (if off + n > size then 1 else 0)
  }

  /** One bitmap block; it and the inode block of i are different blocks before the data blocks. */
  predicate Separate(L: Layout, i: int) {
    && L.nblocks <= BPB && L.bmapStart < L.dataStart && L.inodeStart + i / IPB < L.dataStart
    && L.bmapStart != L.inodeStart + i / IPB
  }

  lemma AddrRange(L: Layout, s: FS, owner: map<int, Slot>, i: int, k: int)
    requires Shape(L, s) && Owned(L, s, owner) && IsSlot(L, i, k) && L.nblocks <= BPB
    ensures BitmapBlock(L, Addr(L, s, i, k)) == L.bmapStart
    ensures Addr(L, s, i, k) != 0 ==> L.dataStart <= Addr(L, s, i, k)
  {
    hide Addr;
    assert Addr(L, s, i, k) != 0 ==> Addr(L, s, i, k) in owner;
  }

  /** With one bitmap block: what WriteLog comes to. */
  lemma WriteLogIs(L: Layout, s: FS, owner: map<int, Slot>, i: int, size: int, lo: int, hi: int)
    requires Shape(L, s) && Owned(L, s, owner) && 0 <= i < L.ninodes && 0 <= lo < hi <= MAXFILE && L.nblocks <= BPB
    ensures WriteLog(L, s, i, size, lo, hi) == DataBlocks(L, s, i, lo, hi)
      + (if IsNew(size, hi - 1) then {L.bmapStart} else {})
      + (if hi > NDIRECT && IsNew(size, hi - 1) then {Addr(L, s, i, NDIRECT)} else {})
  {
    hide Owned, Addr, BitmapBlock, Shape, DataBlocks;
    AddrRange(L, s, owner, i, NDIRECT);
    forall bn | lo <= bn < hi ensures BitmapBlock(L, Addr(L, s, i, DataSlot(bn))) == L.bmapStart {
      AddrRange(L, s, owner, i, DataSlot(bn));
    }
    var maps := NewBitmaps(L, s, i, size, lo, hi);
    if IsNew(size, hi - 1) {
      assert BitmapBlock(L, Addr(L, s, i, DataSlot(hi - 1))) in maps;
      assert maps == {L.bmapStart};
    } else {
      assert maps == {};
    }
  }

  lemma DataBlocksRange(L: Layout, s: FS, owner: map<int, Slot>, i: int, lo: int, hi: int)
    requires Shape(L, s) && Owned(L, s, owner) && 0 <= i < L.ninodes && 0 <= lo <= hi <= MAXFILE && L.nblocks <= BPB
    requires forall bn :: lo <= bn < hi ==> Addr(L, s, i, DataSlot(bn)) != 0
    ensures forall b :: b in DataBlocks(L, s, i, lo, hi) ==> L.dataStart <= b
    ensures Addr(L, s, i, NDIRECT) != 0 ==> Addr(L, s, i, NDIRECT) !in DataBlocks(L, s, i, lo, hi)
  {
    hide Owned, Addr, Shape, BitmapBlock;
    forall bn | lo <= bn < hi
      ensures L.dataStart <= Addr(L, s, i, DataSlot(bn)) && Addr(L, s, i, NDIRECT) != Addr(L, s, i, DataSlot(bn))
    {
      AddrRange(L, s, owner, i, DataSlot(bn));
      AddrsDiffer(L, s, owner, i, DataSlot(bn), NDIRECT);
    }
  }

  lemma SpanMapped(L: Layout, s: FS, i: int, size: int, off: int, n: int)
    requires Shape(L, s) && 0 <= i < L.ninodes && 0 <= off && 0 < n && off + n <= MAXBYTES
    requires MappedTo(L, s, i, Max(size, off + n))
    ensures forall bn :: off / BSIZE <= bn < LastBlock(off, n) + 1 ==> Addr(L, s, i, DataSlot(bn)) != 0
    ensures LastBlock(off, n) >= NDIRECT ==> Addr(L, s, i, NDIRECT) != 0
  {
    hide Addr;
  }

  /** Data blocks, and a bitmap block, an indirect block and an inode block if there is need for them. */
  ghost predicate Parts(log: set<int>, data: set<int>, b: int, ind: int, ino: int, newBlock: bool, newEntry: bool,
                        grows: bool) {
    log == data + (if newBlock then {b} else {}) + (if newEntry then {ind} else {}) + (if grows then {ino} else {})
  }

  ghost predicate Different(data: set<int>, b: int, ind: int, ino: int, newEntry: bool) {
    b !in data && ino !in data && b != ino && (newEntry ==> ind !in data && ind != b && ind != ino)
  }

  lemma ChunkLogIs(L: Layout, s: FS, owner: map<int, Slot>, i: int, size: int, off: int, n: int)
    requires Shape(L, s) && Owned(L, s, owner) && 0 <= i < L.ninodes && 0 <= off && 0 < n && off + n <= MAXBYTES
    requires L.nblocks <= BPB
    ensures var lo, hi := off / BSIZE, LastBlock(off, n) + 1;
      Parts(ChunkLog(L, s, i, size, off, n), DataBlocks(L, s, i, lo, hi), L.bmapStart, Addr(L, s, i, NDIRECT),
            L.inodeStart + i / IPB, IsNew(size, hi - 1), hi > NDIRECT && IsNew(size, hi - 1), off + n > size)
  {
    hide Owned, Addr, Shape, DataBlocks, WriteLog, LastBlock, IsNew;
    WriteLogIs(L, s, owner, i, size, off / BSIZE, LastBlock(off, n) + 1);
  }

  /** The blocks that a chunk logs are different ones. */
  lemma ChunkParts(L: Layout, s: FS, owner: map<int, Slot>, i: int, size: int, off: int, n: int)
    requires Shape(L, s) && Owned(L, s, owner) && 0 <= i < L.ninodes && 0 <= off && 0 < n && off + n <= MAXBYTES
    requires Separate(L, i) && MappedTo(L, s, i, Max(size, off + n))
    ensures L.nblocks <= BPB
    ensures |DataBlocks(L, s, i, off / BSIZE, LastBlock(off, n) + 1)| == LastBlock(off, n) + 1 - off / BSIZE
    ensures Different(DataBlocks(L, s, i, off / BSIZE, LastBlock(off, n) + 1), L.bmapStart, Addr(L, s, i, NDIRECT),
                      L.inodeStart + i / IPB, LastBlock(off, n) + 1 > NDIRECT && IsNew(size, LastBlock(off, n)))
  {
    hide Owned, Addr, Shape, MappedTo, DataBlocks, BitmapBlock, LastBlock, DataSlot;
    var lo, hi := off / BSIZE, LastBlock(off, n) + 1;
    SpanMapped(L, s, i, size, off, n);
    DataBlocksSize(L, s, owner, i, lo, hi);
    DataBlocksRange(L, s, owner, i, lo, hi);
    AddrRange(L, s, owner, i, NDIRECT);
  }

  /** The number of blocks a chunk logs, from its offset, its length and the size before it. */
  lemma ChunkLogCount(L: Layout, s: FS, owner: map<int, Slot>, i: int, size: int, off: int, n: int)
    requires Shape(L, s) && Owned(L, s, owner) && 0 <= i < L.ninodes && 0 <= off && 0 < n && off + n <= MAXBYTES
    requires Separate(L, i) && MappedTo(L, s, i, Max(size, off + n))
    ensures |ChunkLog(L, s, i, size, off, n)| == LogCount(off, n, size)
  {
    hide Owned, Addr, Shape, MappedTo, DataBlocks, ChunkLog, LastBlock, IsNew, WriteLog, Separate, Max, Parts,
      Different;
    ChunkParts(L, s, owner, i, size, off, n);
    ChunkLogIs(L, s, owner, i, size, off, n);
    var lo, hi := off / BSIZE, LastBlock(off, n) + 1;
    CountParts(ChunkLog(L, s, i, size, off, n), DataBlocks(L, s, i, lo, hi), L.bmapStart, Addr(L, s, i, NDIRECT),
               L.inodeStart + i / IPB, IsNew(size, hi - 1), hi > NDIRECT && IsNew(size, hi - 1), off + n > size);
  }

  lemma CountParts(log: set<int>, data: set<int>, b: int, ind: int, ino: int, newBlock: bool, newEntry: bool,
                   grows: bool)
    requires Parts(log, data, b, ind, ino, newBlock, newEntry, grows)
    requires Different(data, b, ind, ino, newEntry)
    ensures |log| ==
      |data| + (if newBlock then 1 else 0) + (if newEntry then 1 else 0) + (if grows then 1 else 0)
  {
    var x := data + if newBlock then {b} else {};
    var y := x + if newEntry then {ind} else {};
    assert |x| == |data| + if newBlock then 1 else 0;
    assert |y| == |x| + if newEntry then 1 else 0;
  }

  /** A chunk spans at most 14 blocks. */
  lemma ChunkSpan(off: int, n: int)
    requires 0 <= off && 0 < n <= CHUNK
    ensures LastBlock(off, n) + 1 - off / BSIZE <= 14
    ensures n == CHUNK ==> LastBlock(off, n) + 1 - off / BSIZE >= 13
  {
  }

  /** One chunk fits the empty log ... */
  lemma ChunkFits(L: Layout, s: FS, owner: map<int, Slot>, i: int, size: int, off: int, n: int)
    requires Shape(L, s) && Owned(L, s, owner) && 0 <= i < L.ninodes && 0 <= off && 0 < n <= CHUNK
    requires off + n <= MAXBYTES
    requires L.nblocks <= BPB
    ensures |ChunkLog(L, s, i, size, off, n)| <= 17 <= LOGSIZE
  {
    hide Owned, Addr, WriteLog, DataBlocks, Shape, BitmapBlock;
    var lo, hi := off / BSIZE, LastBlock(off, n) + 1;
    ChunkSpan(off, n);
    hide LastBlock;
    WriteLogIs(L, s, owner, i, size, lo, hi);
    DataBlocksAtMost(L, s, i, lo, hi);
    var data, log := DataBlocks(L, s, i, lo, hi), ChunkLog(L, s, i, size, off, n);
    var all := data + {L.bmapStart} + {Addr(L, s, i, NDIRECT)} + {L.inodeStart + i / IPB};
    assert log <= all;
    assert |all| == |log| + |all - log|;
  }

  /** ... but a full chunk logs more than begin_op() reserves for an operation, wherever it is written. */
  lemma FullChunkOverBudget(off: int, size: int)
    requires 0 <= off
    ensures LogCount(off, CHUNK, size) >= 13 > MAXOPBLOCKS
  {
    ChunkSpan(off, CHUNK);
  }

  /** The first chunk of a new file logs 13 data blocks, the bitmap, indirect and inode blocks. */
  lemma FirstChunk()
    ensures LogCount(0, CHUNK, 0) == 16
  {
  }

  /** The most bytes that a chunk could have to stay within that reservation. */
  const SAFECHUNK: int := (MAXOPBLOCKS - 3 - 1) * BSIZE + 1

  /** Chunks of n bytes stay within the reservation at every offset of every file exactly if n is at most SAFECHUNK. */
  lemma ChunkWithinIff(n: int)
    requires 0 < n <= CHUNK
    ensures (forall off, size ::
               0 <= off <= size <= MAXBYTES && off + n <= MAXBYTES ==> LogCount(off, n, size) <= MAXOPBLOCKS)
            <==> n <= SAFECHUNK
  {
    if n <= SAFECHUNK {
      forall off, size | 0 <= off <= size <= MAXBYTES && off + n <= MAXBYTES
        ensures LogCount(off, n, size) <= MAXOPBLOCKS
      {
        SpanAtMost(off, n, MAXOPBLOCKS - 3);
      }
    } else {
      var off := NDIRECT * BSIZE + BSIZE - 1;
      assert LogCount(off, n, off) > MAXOPBLOCKS;
    }
  }

  lemma SpanAtMost(off: int, n: int, k: int)
    requires 0 <= off && 0 < n <= (k - 1) * BSIZE + 1
    ensures LastBlock(off, n) + 1 - off / BSIZE <= k
  {
  }

  /** Bytes written before the chunk that would pass the maximum file size. */
  function Partial(off: int): int {
    (MAXBYTES - off) / CHUNK * CHUNK
  }

  lemma PartialIs(off: int, i: int, m: int)
    requires 0 <= off && 0 <= i && i % CHUNK == 0 && off + i <= MAXBYTES && 0 < m <= CHUNK && off + i + m > MAXBYTES
    ensures i == Partial(off)
  {
    var q := i / CHUNK;
    assert i == CHUNK * q;
    QuotientIs(MAXBYTES - off, q);
  }

  lemma QuotientIs(x: int, q: int)
    requires 6656 * q <= x < 6656 * q + 6656
    ensures x / 6656 == q
  {
  }

  /** The bytes that the loop gets to write if no block is missing. */
  function Goal(off: int, n: int): (r: int)
    requires 0 <= off && 0 <= n
    ensures off <= MAXBYTES ==> 0 <= r <= n
  {
    if off + n <= MAXBYTES then n else Partial(off)
  }

  /** A filewrite() of n bytes at off needs more blocks than are left. */
  predicate Exhausts(L: Layout, owner: map<int, Slot>, size: int, off: int, n: int)
    requires 0 <= off && 0 <= n && size <= MAXBYTES
  {
    off <= size && Room(L, owner) < Allocated(size, off, Goal(off, n))
  }

  /** Of owners own0, i bytes into the loop. */
  predicate Spent(own0: nat, own: nat, size: int, off: int, i: int)
    requires 0 <= off && 0 <= i
  {
    own == own0 + if off <= size then Allocated(size, off, i) else 0
  }

  lemma SpentStep(own0: nat, own: nat, own': nat, size: int, off: int, i: int, n1: int)
    requires 0 <= off <= size && 0 <= i && 0 < n1 && Spent(own0, own, size, off, i)
    requires own' == own + Allocated(Max(size, off + i), off + i, n1)
    ensures Spent(own0, own', size, off, i + n1)
  {
    hide Allocated;
    AllocatedSplit(size, off, i, n1);
  }

  /** The last chunk that fits ends at the goal at the latest. */
  lemma ChunkBeforeGoal(off: int, i: int, n1: int, n: int)
    requires 0 <= off && 0 <= i < i + n1 <= n && i % CHUNK == 0 && (n1 == CHUNK || n1 == n - i)
    requires off + i + n1 <= MAXBYTES
    ensures i + n1 <= Goal(off, n)
  {
    if off + n > MAXBYTES {
      var q := i / CHUNK;
      assert i + n1 == CHUNK * (q + 1);
      QuotientAtLeast(MAXBYTES - off, q + 1);
    }
  }

  lemma QuotientAtLeast(x: int, q: int)
    requires 6656 * q <= x
    ensures 6656 * q <= x / 6656 * 6656
  {
  }

  lemma GoalIsAll(off: int, n: int)
    requires 0 <= off && 0 <= n
    ensures off + n <= MAXBYTES ==> Goal(off, n) == n
  {
  }

  lemma ChunkPasses(off: int, i: int, n1: int, n: int)
    requires 0 <= off && 0 <= i < i + n1 <= n && i % CHUNK == 0 && n1 <= CHUNK
    ensures off + i <= MAXBYTES < off + i + n1 ==> i == Goal(off, n)
  {
    if off + i <= MAXBYTES < off + i + n1 {
      PartialIs(off, i, n1);
    }
  }

  lemma ChunkExhausts(L: Layout, owner0: map<int, Slot>, owner: map<int, Slot>, size: int, off: int, i: int, n1: int,
                      n: int)
    requires 0 <= i < i + n1 <= n && i % CHUNK == 0 && (n1 == CHUNK || n1 == n - i) && off + i + n1 <= MAXBYTES
    requires 0 <= off <= size <= MAXBYTES && Spent(|owner0|, |owner|, size, off, i)
    requires Room(L, owner) < Allocated(Max(size, off + i), off + i, n1)
    ensures Exhausts(L, owner0, size, off, n)
  {
    hide Allocated, Goal;
    AllocatedSplit(size, off, i, n1);
    ChunkBeforeGoal(off, i, n1, n);
    AllocatedSplit(size, off, i + n1, Goal(off, n) - i - n1);
  }

  lemma GoalReached(L: Layout, owner0: map<int, Slot>, owner: map<int, Slot>, size: int, off: int, i: int, n: int)
    requires 0 <= off && size <= MAXBYTES && 0 <= i <= n && Spent(|owner0|, |owner|, size, off, i)
    requires 0 <= Room(L, owner) && (off > size || i == Goal(off, n))
    ensures !Exhausts(L, owner0, size, off, n)
  {
    hide Allocated, Goal;
  }

  /** i bytes into the loop: what is written and what is allocated. */
  ghost predicate Progress(w0: seq<int>, w: seq<int>, own0: nat, own: nat, off0: int, src: seq<int>, i: int)
    requires 0 <= off0 && 0 <= i <= |src|
  {
    && Written(w0, w, off0, src, i)
    && Spent(own0, own, |w0|, off0, i)
    && (i > 0 ==> off0 <= |w0| && off0 + i <= MAXBYTES)
    && (i < |src| ==> i % CHUNK == 0)
  }

  lemma ProgressStarts(w: seq<int>, own: nat, off0: int, src: seq<int>)
    requires 0 <= off0
    ensures Progress(w, w, own, own, off0, src, 0)
  {
  }

  lemma ProgressStep(w0: seq<int>, w: seq<int>, own0: nat, own: nat, own': nat, off0: int, src: seq<int>, i: int,
                     n1: int)
    requires 0 <= off0 && 0 <= i < i + n1 <= |src| && (n1 == CHUNK || n1 == |src| - i)
    requires Progress(w0, w, own0, own, off0, src, i) && off0 + i <= |w| && off0 + i + n1 <= MAXBYTES
    requires own' == own + Allocated(|w|, off0 + i, n1)
    ensures Progress(w0, Overwrite(w, off0 + i, src[i..i + n1]), own0, own', off0, src, i + n1)
  {
    hide Written, Spent, Allocated, Overwrite;
    WrittenSize(w0, w, off0, src, i);
    WrittenStep(w0, w, off0, src, i, n1);
    SpentStep(own0, own, own', |w0|, off0, i, n1);
    ChunkAligned(i, |src|, n1);
  }

  lemma ProgressStops(L: Layout, owner0: map<int, Slot>, owner: map<int, Slot>, w0: seq<int>, w: seq<int>,
                      off0: int, src: seq<int>, i: int, n1: int, r: Result)
    requires 0 <= off0 && |w0| <= MAXBYTES && 0 <= i < i + n1 <= |src| && (n1 == CHUNK || n1 == |src| - i <= CHUNK)
    requires Progress(w0, w, |owner0|, |owner|, off0, src, i) && 0 <= Room(L, owner)
    requires r == Panic ==>
      off0 + i <= |w| && off0 + i + n1 <= MAXBYTES && Room(L, owner) < Allocated(|w|, off0 + i, n1)
    requires r == Error ==> off0 + i > |w| || off0 + i + n1 > MAXBYTES
    ensures r in {Panic, Error} ==> (r == Panic <==> Exhausts(L, owner0, |w0|, off0, |src|))
    ensures r == Error ==> Outcome(w0, w, off0, off0 + i, src, r)
  {
    hide Written, Spent, Allocated, Exhausts, Goal, Outcome;
    WrittenSize(w0, w, off0, src, i);
    if r == Panic {
      ChunkExhausts(L, owner0, owner, |w0|, off0, i, n1, |src|);
    } else if r == Error {
      ChunkFails(w0, w, off0, src, i, n1, r);
      ChunkPasses(off0, i, n1, |src|);
      GoalReached(L, owner0, owner, |w0|, off0, i, |src|);
    }
  }

  lemma ProgressEnds(L: Layout, owner0: map<int, Slot>, owner: map<int, Slot>, w0: seq<int>, w: seq<int>,
                     off0: int, src: seq<int>)
    requires 0 <= off0 && |w0| <= MAXBYTES && 0 <= Room(L, owner)
    requires Progress(w0, w, |owner0|, |owner|, off0, src, |src|)
    ensures !Exhausts(L, owner0, |w0|, off0, |src|)
    ensures Outcome(w0, w, off0, off0 + |src|, src, Wrote(|src|))
  {
    hide Written, Spent, Allocated, Exhausts, Goal, Outcome;
    GoalIsAll(off0, |src|);
    GoalReached(L, owner0, owner, |w0|, off0, |src|, |src|);
    WriteSucceeds(w0, w, off0, src);
  }

  class File {
    const fs: FileSystem
    const ip: int
    const writable: bool
    var off: int
    ghost var ops: seq<set<int>> // the blocks logged by each operation

    ghost predicate Valid()
      reads this, fs
    {
      fs.Valid() && 0 <= ip < fs.L.ninodes && 0 <= off < UINT
    }

    constructor (fs0: FileSystem, ip0: int, w: bool)
      requires fs0.Valid() && 0 <= ip0 < fs0.L.ninodes
      ensures fs == fs0 && ip == ip0 && writable == w && off == 0 && ops == [] && Valid()
    {
      fs, ip, writable, off, ops := fs0, ip0, w, 0, [];
    }

    /** One round of the loop, from begin_op() to end_op(). */
    method WriteChunk(piece: seq<int>) returns (r: Result, ghost log: set<int>)
      requires Valid() && 0 < |piece| <= CHUNK
      modifies this, fs
      ensures r == Panic ==> fs.Core() && Full(fs.L, fs.owner)
      ensures r == Panic ==> Room(fs.L, old(fs.owner)) < Allocated(old(fs.inode[ip].size), old(off), |piece|)
      ensures r.Wrote? ==> |fs.owner| == |old(fs.owner)| + Allocated(old(fs.inode[ip].size), old(off), |piece|)
      ensures r in {Panic, Device, Error, Wrote(|piece|)}
      ensures old(fs.inode[ip].typ).Dev? <==> r == Device
      ensures !old(fs.inode[ip].typ).Dev? ==>
        (r == Error <==> old(off) > |old(fs.Contents(ip))| || old(off) + |piece| > MAXBYTES)
      ensures r in {Device, Error} ==> Valid() && fs.Abs() == old(fs.Abs()) && off == old(off)
      ensures r.Wrote? ==> Valid() && old(Valid()) && off == old(off) + |piece|
      ensures r.Wrote? ==> fs.inode[ip].typ == old(fs.inode[ip].typ)
      ensures r.Wrote? ==> fs.Files() == old(fs.Files())[ip := Overwrite(old(fs.Contents(ip)), old(off), piece)]
      ensures r.Wrote? ==> ops == old(ops) + [log]
      ensures r.Wrote? ==> Counted(fs.L, fs.Abs(), ip, old(fs.inode[ip].size), old(off), |piece|, log)
      ensures r.Wrote? ==> ChangesLogged(fs.L, old(fs.Stored()), fs.Stored(), log)
      ensures !r.Wrote? ==> ops == old(ops)
    {
      hide Owned, Addr, Logs, ChunkLog, Shape, Sized, FileBytes, LastBlock, Full, Counted, Allocated,
        ChangesLogged;
      fs.logged := {};
      ghost var size := fs.inode[ip].size;
      r := fs.Writei(ip, piece, off);
      log := fs.logged;
      if r.Wrote? {
        LogsChunk(fs.L, fs.Abs(), ip, size, off, |piece|, log);
        CountedChunk(fs.L, fs.Abs(), fs.owner, ip, size, off, |piece|);
        assert fs.Files() == old(fs.Files())[ip := Overwrite(old(fs.Contents(ip)), off, piece)];
        off := off + r.n;
        ops := ops + [log];
      }
    }

    /** filewrite() on an inode. */
    method FileWrite(src: seq<int>) returns (r: Result)
      requires Valid()
      modifies this, fs
      ensures r == Panic ==> fs.Core() && Full(fs.L, fs.owner)
      ensures writable && !old(fs.inode[ip].typ).Dev? ==>
        (r == Panic <==> Exhausts(fs.L, old(fs.owner), |old(fs.Contents(ip))|, old(off), |src|))
      ensures r in {Panic, Device, Error, Wrote(|src|)}
      ensures !writable ==> r == Error && fs.Abs() == old(fs.Abs()) && off == old(off)
      ensures writable ==> (r == Device <==> old(fs.inode[ip].typ).Dev? && src != [])
      ensures r != Panic ==> Valid() && old(Valid()) && fs.Files() == old(fs.Files())[ip := fs.Contents(ip)]
      ensures writable && r in {Error, Wrote(|src|)} && !old(fs.inode[ip].typ).Dev? ==>
        Outcome(old(fs.Contents(ip)), fs.Contents(ip), old(off), off, src, r)
      ensures r != Panic && fs.L.nblocks <= BPB ==> Small(old(ops), ops)
    {
      hide Owned, Addr, Shape, Sized, FileBytes, Full, LogCount, ChunkLog, Outcome, Small, Overwrite, Exhausts,
        Allocated, Progress, Room, ChangesLogged;
      SmallSame(ops);
      if !writable {
        assert fs.Files() == fs.Files()[ip := fs.Contents(ip)];
        return Error;
      }
      ghost var w0, off0 := fs.Contents(ip), off;
      ProgressStarts(w0, |fs.owner|, off0, src);
      var n, i := |src|, 0;
      while i < n
        invariant 0 <= i <= n && Valid() && off == off0 + i && fs.inode[ip].typ == old(fs.inode[ip].typ)
        invariant Progress(w0, fs.Contents(ip), |old(fs.owner)|, |fs.owner|, off0, src, i)
        invariant fs.Files() == old(fs.Files())[ip := fs.Contents(ip)] && (i > 0 ==> !old(fs.inode[ip].typ).Dev?)
        invariant fs.L.nblocks <= BPB ==> Small(old(ops), ops)
      {
        var n1 := n - i;
        if n1 > CHUNK {
          n1 := CHUNK;
        }
        ghost var w, ops0, owner := fs.Contents(ip), ops, fs.owner;
        FullIff(fs.L, fs.Abs(), owner);
        ghost var log;
        r, log := WriteChunk(src[i..i + n1]);
        if !r.Wrote? {
          ProgressStops(fs.L, old(fs.owner), owner, w0, w, off0, src, i, n1, r);
          return;
        }
        if fs.L.nblocks <= BPB { SmallStep(old(ops), ops0, ops); }
        ProgressStep(w0, w, |old(fs.owner)|, |owner|, |fs.owner|, off0, src, i, n1);
        i := i + n1;
      }
      r := Wrote(n);
      FullIff(fs.L, fs.Abs(), fs.owner);
      ProgressEnds(fs.L, old(fs.owner), fs.owner, w0, fs.Contents(ip), off0, src);
    }
  }

  /** The operation of a chunk logs these blocks, with what follows for their number. */
  ghost predicate Counted(L: Layout, s: FS, i: int, size: int, off: int, n: int, log: set<int>) {
    && Shape(L, s) && 0 <= i < L.ninodes && 0 <= off && 0 < n && off + n <= MAXBYTES
    && log == ChunkLog(L, s, i, size, off, n)
    && (L.nblocks <= BPB ==> |log| <= 17)
    && (Separate(L, i) ==> |log| == LogCount(off, n, size))
  }

  lemma LogsChunk(L: Layout, s: FS, i: int, size: int, off: int, n: int, log: set<int>)
    requires Shape(L, s) && 0 <= i < L.ninodes && 0 <= off && 0 < n && off + n <= MAXBYTES
    requires Logs(L, s, i, size, off, n, {}, log)
    ensures log == ChunkLog(L, s, i, size, off, n)
  {
    hide WriteLog;
  }

  lemma CountedChunk(L: Layout, s: FS, owner: map<int, Slot>, i: int, size: int, off: int, n: int)
    requires Shape(L, s) && Owned(L, s, owner) && Sized(L, s) && 0 <= i < L.ninodes && 0 <= off && 0 < n <= CHUNK
    requires off + n <= MAXBYTES
    requires s.inode[i].size == Max(size, off + n)
    ensures Counted(L, s, i, size, off, n, ChunkLog(L, s, i, size, off, n))
  {
    hide Owned, Addr, MappedTo, WriteLog, ChunkLog, LogCount;
    if L.nblocks <= BPB {
      ChunkFits(L, s, owner, i, size, off, n);
    }
    if Separate(L, i) {
      ChunkLogCount(L, s, owner, i, size, off, n);
    }
  }

  /** The log of every new operation is at most 17 blocks. */
  ghost predicate Small(ops0: seq<set<int>>, ops: seq<set<int>>) {
    |ops0| <= |ops| && forall k :: |ops0| <= k < |ops| ==> |ops[k]| <= 17
  }

  lemma SmallSame(ops: seq<set<int>>)
    ensures Small(ops, ops)
  {
  }

  lemma SmallStep(ops0: seq<set<int>>, ops1: seq<set<int>>, ops: seq<set<int>>)
    requires Small(ops0, ops1) && |ops| == |ops1| + 1 && ops[..|ops1|] == ops1 && |ops[|ops1|]| <= 17
    ensures Small(ops0, ops)
  {
    forall k | |ops0| <= k < |ops1| ensures |ops[k]| <= 17 {
      assert ops[k] == ops1[k];
    }
  }

  /**
    What filewrite() did: all of src, exactly when the file offset is within the file and the end within
    the largest file; else nothing, or the whole chunks that fit.
   */
  ghost predicate Outcome(w0: seq<int>, w: seq<int>, off0: int, off: int, src: seq<int>, r: Result)
    requires 0 <= off0
  {
    if src == [] || (off0 <= |w0| && off0 + |src| <= MAXBYTES) then
      r == Wrote(|src|) && off == off0 + |src| && Written(w0, w, off0, src, |src|)
    else if off0 > |w0| then
      r == Error && off == off0 && w == w0
    else
      var p := Partial(off0);
      r == Error && 0 <= p < |src| && off == off0 + p && Written(w0, w, off0, src, p)
  }

  lemma ChunkFails(w0: seq<int>, w: seq<int>, off0: int, src: seq<int>, i: int, n1: int, r: Result)
    requires 0 <= i < i + n1 <= |src| && 0 <= off0 && n1 <= CHUNK && i % CHUNK == 0 && |w0| <= MAXBYTES
    requires Written(w0, w, off0, src, i) && (off0 <= |w0| <==> off0 + i <= |w|)
    requires i > 0 ==> off0 <= |w0| && off0 + i <= MAXBYTES
    ensures r == Error && (off0 + i > |w| || off0 + i + n1 > MAXBYTES) ==> Outcome(w0, w, off0, off0 + i, src, r)
  {
    if off0 <= |w0| && off0 + i + n1 > MAXBYTES {
      PartialIs(off0, i, n1);
    }
    hide Partial;
  }

  lemma WriteSucceeds(w0: seq<int>, w: seq<int>, off0: int, src: seq<int>)
    requires 0 <= off0 && Written(w0, w, off0, src, |src|)
    requires |src| > 0 ==> off0 <= |w0| && off0 + |src| <= MAXBYTES
    ensures Outcome(w0, w, off0, off0 + |src|, src, Wrote(|src|))
  {
  }

  lemma ChunkAligned(i: int, n: int, n1: int)
    requires 0 <= i < n && i % CHUNK == 0 && (n1 == CHUNK || n1 == n - i)
    ensures i + n1 < n ==> (i + n1) % CHUNK == 0
  {
  }

}
