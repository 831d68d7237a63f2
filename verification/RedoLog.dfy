/**
  The on-disk redo log of log.c as a sequence of single-block writes.

  A disk is a sequence of blocks; one block write is atomic and a crash may fall between
  any two of them.  This module says which writes `commit` and `recover_from_log` issue, in
  order, and proves what is on disk after any prefix of them.
 */
module RedoLog {
  import opened Params
  import opened Sequences

  const WORDS: nat := 128 // 32-bit words in a 512-byte block

  datatype Block = Block(words: seq<nat>)
  type Disk = seq<Block>

  /** Block numbers: `start` holds the header, `start+1 ..` the log blocks. */
  datatype Layout = Layout(start: nat, size: nat, nblocks: nat) {
    ghost predicate Valid() {
      1 <= size && start + size <= nblocks
    }

    predicate Home(b: nat) {
      b < nblocks && !(start <= b < start + size)
    }

    /** The log block of the i-th logged block. */
    function Slot(i: nat): nat {
      start + 1 + i
    }
  }

  datatype Write = Write(at: nat, data: Block)

  // ---------------------------------------------------------------- the header block

  predicate HeadOk(b: Block) {
    |b.words| == WORDS && b.words[0] <= LOGSIZE
  }

  /** What read_head loads. */
  function GetHead(b: Block): seq<nat>
    requires HeadOk(b)
  {
    b.words[1..1 + b.words[0]]
  }

  /** What write_head stores: n and the first n block numbers; the words behind them stay as they were. */
  function PutHead(was: Block, blocks: seq<nat>): (b: Block)
    requires |was.words| == WORDS && |blocks| <= LOGSIZE
    ensures HeadOk(b) && GetHead(b) == blocks
  {
    var ws := [|blocks|] + blocks + was.words[1 + |blocks|..];
    assert ws[1..1 + |blocks|] == blocks;
    Block(ws)
  }

  // ---------------------------------------------------------------- sequences of block writes

  ghost predicate InRange(ws: seq<Write>, n: nat) {
    forall i :: 0 <= i < |ws| ==> ws[i].at < n
  }

  /** The disk after the given block writes, in order. */
  function Apply(d: Disk, ws: seq<Write>): (r: Disk)
    requires InRange(ws, |d|)
    ensures |r| == |d|
    decreases |ws|
  {
    if ws == [] then d else
      var last := ws[|ws| - 1];
      Apply(d, ws[..|ws| - 1])[last.at := last.data]
  }

  lemma ApplyNext(d: Disk, ws: seq<Write>, k: nat)
    requires InRange(ws, |d|) && k < |ws|
    ensures Apply(d, ws[..k + 1]) == Apply(d, ws[..k])[ws[k].at := ws[k].data]
  {
    assert ws[..k + 1][..k] == ws[..k];
  }

  lemma ApplyNone(d: Disk, ws: seq<Write>)
    ensures InRange(ws[..0], |d|) && Apply(d, ws[..0]) == d
  {
  }

  // ---------------------------------------------------------------- what a disk means

  lemma Differ(s: seq<nat>, i: nat, j: nat)
    requires Distinct(s) && i < |s| && j < |s|
    ensures i == j || s[i] != s[j]
  {
  }

  ghost predicate Loggable(L: Layout, blocks: seq<nat>) {
    && |blocks| <= LOGSIZE && |blocks| < L.size
    && Distinct(blocks)
    && forall i :: 0 <= i < |blocks| ==> L.Home(blocks[i])
  }

  ghost predicate DiskOk(L: Layout, d: Disk) {
    && L.Valid() && |d| == L.nblocks
    && HeadOk(d[L.start]) && Loggable(L, GetHead(d[L.start]))
  }

  ghost predicate Clean(L: Layout, d: Disk) {
    DiskOk(L, d) && GetHead(d[L.start]) == []
  }

  /** Two disks hold the same file system: all blocks outside the log agree. */
  ghost predicate SameHome(L: Layout, d: Disk, e: Disk) {
    |d| == |e| == L.nblocks && forall b: nat :: L.Home(b) ==> d[b] == e[b]
  }

  /** `e` holds the home blocks of `d` with the transaction in its log, if any, put in place. */
  ghost predicate Denotes(L: Layout, d: Disk, e: Disk)
    requires DiskOk(L, d)
  {
    var lh := GetHead(d[L.start]);
    && |e| == L.nblocks
    && (forall b: nat :: L.Home(b) && b !in lh ==> e[b] == d[b])
    && (forall i :: 0 <= i < |lh| ==> e[lh[i]] == d[L.Slot(i)])
  }

  lemma DenotesUnique(L: Layout, d: Disk, e: Disk, f: Disk)
    requires DiskOk(L, d) && Denotes(L, d, e) && Denotes(L, d, f)
    ensures SameHome(L, e, f)
  {
    var lh := GetHead(d[L.start]);
    forall b: nat | L.Home(b) ensures e[b] == f[b] {
      if b in lh {
        var i :| 0 <= i < |lh| && lh[i] == b;
      }
    }
  }

  // ---------------------------------------------------------------- commit

  /**
    The i-th block write of commit(): write_log copies the cached blocks to the log, write_head
    stores the block numbers, install_trans copies the blocks home, write_head clears the log.
   */
  function CommitWrite(L: Layout, mem: Disk, lh: seq<nat>, i: nat): Write
    requires L.start < |mem| && HeadOk(mem[L.start]) && |lh| <= LOGSIZE && i < 2 * |lh| + 2
    requires forall j :: 0 <= j < |lh| ==> lh[j] < |mem|
  {
    var n := |lh|;
    if i < n then Write(L.Slot(i), mem[lh[i]])
    else if i == n then Write(L.start, PutHead(mem[L.start], lh))
    else if i <= 2 * n then Write(lh[i - n - 1], mem[lh[i - n - 1]])
    else Write(L.start, PutHead(PutHead(mem[L.start], lh), []))
  }

  /** All block writes of commit(), in order; none when nothing was logged. */
  function CommitWrites(L: Layout, mem: Disk, lh: seq<nat>): (ws: seq<Write>)
    requires L.Valid() && |mem| == L.nblocks && HeadOk(mem[L.start]) && Loggable(L, lh)
    ensures |ws| == if lh == [] then 0 else 2 * |lh| + 2
    ensures forall i :: 0 <= i < |ws| ==> ws[i] == CommitWrite(L, mem, lh, i)
    ensures InRange(ws, |mem|)
  {
    if lh == [] then [] else
      seq(2 * |lh| + 2, i requires 0 <= i < 2 * |lh| + 2 => CommitWrite(L, mem, lh, i))
  }

  /** The disk `e` reached from `d` by the first k block writes of a commit. */
  ghost predicate CommitState(L: Layout, d: Disk, mem: Disk, lh: seq<nat>, k: nat, e: Disk)
    requires L.Valid() && |d| == |mem| == L.nblocks && Loggable(L, lh)
  {
    var n := |lh|;
    && |e| == |d|
    && HeadOk(e[L.start]) && GetHead(e[L.start]) == (if n < k < 2 * n + 2 then lh else [])
    && (forall i :: 0 <= i < n && i < k ==> e[L.Slot(i)] == mem[lh[i]])
    && (forall i :: 0 <= i < n ==> e[lh[i]] == if n + 1 + i < k then mem[lh[i]] else d[lh[i]])
    && (forall b: nat :: L.Home(b) && b !in lh ==> e[b] == d[b])
  }

  lemma CommitLogStep(L: Layout, d: Disk, mem: Disk, lh: seq<nat>, k: nat, e: Disk)
    requires L.Valid() && |d| == |mem| == L.nblocks && Loggable(L, lh) && k < |lh|
    requires CommitState(L, d, mem, lh, k, e)
    ensures CommitState(L, d, mem, lh, k + 1, e[L.Slot(k) := mem[lh[k]]])
  {
  }

  lemma CommitHeadStep(L: Layout, d: Disk, mem: Disk, lh: seq<nat>, e: Disk, head: Block)
    requires L.Valid() && |d| == |mem| == L.nblocks && Loggable(L, lh)
    requires CommitState(L, d, mem, lh, |lh|, e)
    requires HeadOk(head) && GetHead(head) == lh
    ensures CommitState(L, d, mem, lh, |lh| + 1, e[L.start := head])
  {
  }

  lemma CommitClearStep(L: Layout, d: Disk, mem: Disk, lh: seq<nat>, e: Disk, head: Block)
    requires L.Valid() && |d| == |mem| == L.nblocks && Loggable(L, lh)
    requires CommitState(L, d, mem, lh, 2 * |lh| + 1, e)
    requires HeadOk(head) && GetHead(head) == []
    ensures CommitState(L, d, mem, lh, 2 * |lh| + 2, e[L.start := head])
  {
  }

  lemma CommitInstallStep(L: Layout, d: Disk, mem: Disk, lh: seq<nat>, j: nat, e: Disk)
    requires L.Valid() && |d| == |mem| == L.nblocks && Loggable(L, lh) && j < |lh|
    requires CommitState(L, d, mem, lh, |lh| + 1 + j, e)
    ensures CommitState(L, d, mem, lh, |lh| + 2 + j, e[lh[j] := mem[lh[j]]])
  {
    hide Distinct, HeadOk, GetHead;
    forall i | 0 <= i < |lh| ensures i == j || lh[i] != lh[j] {
      Differ(lh, i, j);
    }
    forall i | 0 <= i < |lh| ensures L.Slot(i) != lh[j] {
    }
  }

  lemma CommitStep(L: Layout, d: Disk, mem: Disk, lh: seq<nat>, k: nat, e: Disk)
    requires L.Valid() && |d| == |mem| == L.nblocks && HeadOk(mem[L.start]) && Loggable(L, lh) && k < 2 * |lh| + 2
    requires |e| == |d| && CommitState(L, d, mem, lh, k, e)
    ensures var w := CommitWrite(L, mem, lh, k);
      w.at < |e| && CommitState(L, d, mem, lh, k + 1, e[w.at := w.data])
  {
    hide CommitState;
    var w := CommitWrite(L, mem, lh, k);
    if k < |lh| {
      CommitLogStep(L, d, mem, lh, k, e);
    } else if k == |lh| {
      CommitHeadStep(L, d, mem, lh, e, w.data);
    } else if k <= 2 * |lh| {
      CommitInstallStep(L, d, mem, lh, k - |lh| - 1, e);
    } else {
      CommitClearStep(L, d, mem, lh, e, w.data);
    }
  }

  /** The first k block writes of a commit produce CommitState k. */
  lemma {:induction false} CommitPrefix(L: Layout, d: Disk, mem: Disk, lh: seq<nat>, k: nat)
    requires Clean(L, d) && |mem| == L.nblocks && HeadOk(mem[L.start]) && Loggable(L, lh)
    requires k <= |CommitWrites(L, mem, lh)|
    ensures CommitState(L, d, mem, lh, k, Apply(d, CommitWrites(L, mem, lh)[..k]))
  {
    hide CommitState, CommitWrite, Apply, GetHead, HeadOk, Loggable;
    var ws := CommitWrites(L, mem, lh);
    if k == 0 {
      CommitNotBegun(L, d, mem, lh);
      ApplyNone(d, ws);
    } else {
      CommitPrefix(L, d, mem, lh, k - 1);
      CommitShape(L, d, mem, lh, k - 1, Apply(d, ws[..k - 1]));
      ApplyNext(d, ws, k - 1);
      CommitStep(L, d, mem, lh, k - 1, Apply(d, ws[..k - 1]));
    }
  }

  lemma CommitNotBegun(L: Layout, d: Disk, mem: Disk, lh: seq<nat>)
    requires Clean(L, d) && |mem| == L.nblocks && Loggable(L, lh)
    ensures CommitState(L, d, mem, lh, 0, d)
  {
  }

  lemma CommitShape(L: Layout, d: Disk, mem: Disk, lh: seq<nat>, k: nat, e: Disk)
    requires L.Valid() && |d| == |mem| == L.nblocks && Loggable(L, lh) && CommitState(L, d, mem, lh, k, e)
    ensures |e| == |d|
  {
  }

  /** What the transaction does to the home blocks. */
  function Installed(d: Disk, mem: Disk, lh: seq<nat>): (r: Disk)
    requires |d| == |mem|
    ensures |r| == |d|
    ensures forall b :: 0 <= b < |d| ==> r[b] == if b in lh then mem[b] else d[b]
  {
    seq(|d|, b requires 0 <= b < |d| => if b in lh then mem[b] else d[b])
  }

  /** Before the header write the disk denotes the old contents, from it on the new ones. */
  lemma CommitStateDenotes(L: Layout, d: Disk, mem: Disk, lh: seq<nat>, k: nat, e: Disk)
    requires L.Valid() && |d| == |mem| == L.nblocks && Loggable(L, lh)
    requires CommitState(L, d, mem, lh, k, e) && k <= 2 * |lh| + 2
    ensures DiskOk(L, e)
    ensures k <= |lh| ==> Denotes(L, e, d)
    ensures k > |lh| ==> Denotes(L, e, Installed(d, mem, lh))
    ensures k <= |lh| || k == 2 * |lh| + 2 ==> Clean(L, e)
  {
    if k <= |lh| {
      forall b: nat | L.Home(b) ensures d[b] == e[b] {
        if b in lh { var i :| 0 <= i < |lh| && lh[i] == b; }
      }
    } else if k == 2 * |lh| + 2 {
      forall b: nat | L.Home(b) ensures Installed(d, mem, lh)[b] == e[b] {
        if b in lh { var i :| 0 <= i < |lh| && lh[i] == b; }
      }
    }
  }

  // ---------------------------------------------------------------- recovery

  /** The i-th block write of recover_from_log() on disk d: install_trans, then clear the header. */
  function RecoveryWrite(L: Layout, d: Disk, i: nat): Write
    requires DiskOk(L, d) && i <= |GetHead(d[L.start])|
  {
    var lh := GetHead(d[L.start]);
    if i < |lh| then Write(lh[i], d[L.Slot(i)]) else Write(L.start, PutHead(d[L.start], []))
  }

  function RecoveryWrites(L: Layout, d: Disk): (ws: seq<Write>)
    requires DiskOk(L, d)
    ensures |ws| == |GetHead(d[L.start])| + 1
    ensures forall i :: 0 <= i < |ws| ==> ws[i] == RecoveryWrite(L, d, i)
    ensures InRange(ws, |d|)
  {
    var n := |GetHead(d[L.start])|;
    seq(n + 1, i requires 0 <= i < n + 1 => RecoveryWrite(L, d, i))
  }

  /** The disk `e` reached from `d` by the first k block writes of a recovery. */
  ghost predicate RecoveryState(L: Layout, d: Disk, k: nat, e: Disk)
    requires DiskOk(L, d)
  {
    var lh := GetHead(d[L.start]);
    && |e| == |d|
    && HeadOk(e[L.start]) && GetHead(e[L.start]) == (if k <= |lh| then lh else [])
    && (forall i :: 0 <= i < |lh| ==> e[L.Slot(i)] == d[L.Slot(i)])
    && (forall i :: 0 <= i < |lh| ==> e[lh[i]] == if i < k then d[L.Slot(i)] else d[lh[i]])
    && (forall b: nat :: L.Home(b) && b !in lh ==> e[b] == d[b])
  }

  lemma RecoveryInstallStep(L: Layout, d: Disk, k: nat, e: Disk)
    requires DiskOk(L, d) && k < |GetHead(d[L.start])| && RecoveryState(L, d, k, e)
    ensures RecoveryState(L, d, k + 1, e[GetHead(d[L.start])[k] := d[L.Slot(k)]])
  {
  }

  lemma RecoveryClearStep(L: Layout, d: Disk, e: Disk, head: Block)
    requires DiskOk(L, d) && RecoveryState(L, d, |GetHead(d[L.start])|, e)
    requires HeadOk(head) && GetHead(head) == []
    ensures RecoveryState(L, d, |GetHead(d[L.start])| + 1, e[L.start := head])
  {
  }

  lemma RecoveryStep(L: Layout, d: Disk, k: nat, e: Disk)
    requires DiskOk(L, d) && k < |RecoveryWrites(L, d)| && RecoveryState(L, d, k, e)
    ensures var w := RecoveryWrite(L, d, k);
      w.at < |e| && RecoveryState(L, d, k + 1, e[w.at := w.data])
  {
    assert |e| == |d|;
    hide RecoveryState;
    if k < |GetHead(d[L.start])| {
      RecoveryInstallStep(L, d, k, e);
    } else {
      RecoveryClearStep(L, d, e, PutHead(d[L.start], []));
    }
  }

  lemma RecoveryStart(L: Layout, d: Disk)
    requires DiskOk(L, d)
    ensures RecoveryState(L, d, 0, d)
  {
  }

  /** The first k block writes of a recovery produce RecoveryState k. */
  lemma {:induction false} RecoveryPrefix(L: Layout, d: Disk, k: nat)
    requires DiskOk(L, d) && k <= |RecoveryWrites(L, d)|
    ensures RecoveryState(L, d, k, Apply(d, RecoveryWrites(L, d)[..k]))
  {
    hide RecoveryState, RecoveryWrite, RecoveryWrites, DiskOk, Apply;
    var ws := RecoveryWrites(L, d);
    if k == 0 {
      assert Apply(d, ws[..0]) == d by { ApplyNone(d, ws); }
      RecoveryStart(L, d);
    } else {
      RecoveryPrefix(L, d, k - 1);
      ApplyNext(d, ws, k - 1);
      RecoveryStep(L, d, k - 1, Apply(d, ws[..k - 1]));
    }
  }

  /** An interrupted recovery loses nothing: whatever the disk denoted it still denotes. */
  lemma RecoveryStateDenotes(L: Layout, d: Disk, k: nat, e: Disk, f: Disk)
    requires DiskOk(L, d) && RecoveryState(L, d, k, e)
    requires Denotes(L, d, f)
    ensures DiskOk(L, e) && Denotes(L, e, f)
    ensures k > |GetHead(d[L.start])| ==> Clean(L, e) && SameHome(L, e, f)
  {
    if k > |GetHead(d[L.start])| {
      var lh := GetHead(d[L.start]);
      forall b: nat | L.Home(b) ensures f[b] == e[b] {
        if b in lh { var i :| 0 <= i < |lh| && lh[i] == b; }
      }
    }
  }

  /** The disk left by recoveries that were cut short, the i-th one after crashes[i] block writes. */
  function Interrupted(L: Layout, d: Disk, crashes: seq<nat>): (r: Disk)
    requires DiskOk(L, d)
    ensures DiskOk(L, r)
    ensures forall f :: Denotes(L, d, f) ==> Denotes(L, r, f)
    decreases |crashes|
  {
    if crashes == [] then d else
      var ws := RecoveryWrites(L, d);
      var k := if crashes[0] <= |ws| then crashes[0] else |ws|;
      var d' := Apply(d, ws[..k]);
      InterruptedOnce(L, d, k);
      Interrupted(L, d', crashes[1..])
  }

  lemma InterruptedOnce(L: Layout, d: Disk, k: nat)
    requires DiskOk(L, d) && k <= |RecoveryWrites(L, d)|
    ensures DiskOk(L, Apply(d, RecoveryWrites(L, d)[..k]))
    ensures forall f :: Denotes(L, d, f) ==> Denotes(L, Apply(d, RecoveryWrites(L, d)[..k]), f)
  {
    RecoveryPrefix(L, d, k);
    var e := Apply(d, RecoveryWrites(L, d)[..k]);
    assert DiskOk(L, e);
    hide RecoveryState, Denotes;
    forall f | Denotes(L, d, f) ensures Denotes(L, e, f) {
      RecoveryStateDenotes(L, d, k, e, f);
    }
  }

  function Recovered(L: Layout, d: Disk): (r: Disk)
    requires DiskOk(L, d)
    ensures |r| == |d|
  {
    Apply(d, RecoveryWrites(L, d))
  }

  /** A completed recovery installs what the disk denotes and empties the log. */
  lemma RecoveredIs(L: Layout, d: Disk, f: Disk)
    requires DiskOk(L, d) && Denotes(L, d, f)
    ensures Clean(L, Recovered(L, d)) && SameHome(L, Recovered(L, d), f)
  {
    var ws := RecoveryWrites(L, d);
    assert ws[..|ws|] == ws;
    RecoveryPrefix(L, d, |ws|);
    RecoveryStateDenotes(L, d, |ws|, Recovered(L, d), f);
  }

  // ---------------------------------------------------------------- crash atomicity

  /**
    Crash atomicity.  Stop commit() after any number of block writes, then stop any number of
    recoveries after any number of block writes each: one completed recovery leaves the home
    blocks as they were before the transaction, or as the transaction made them, and the
    latter exactly when the header write (log.c:194) had landed.
   */
  lemma CrashAtomicity(L: Layout, d: Disk, mem: Disk, lh: seq<nat>, k: nat, crashes: seq<nat>)
    requires Clean(L, d) && |mem| == L.nblocks && HeadOk(mem[L.start]) && Loggable(L, lh)
    requires k <= |CommitWrites(L, mem, lh)|
    ensures DiskOk(L, Apply(d, CommitWrites(L, mem, lh)[..k]))
    ensures var crashed := Interrupted(L, Apply(d, CommitWrites(L, mem, lh)[..k]), crashes);
      && Clean(L, Recovered(L, crashed))
      && SameHome(L, Recovered(L, crashed), if k > |lh| then Installed(d, mem, lh) else d)
  {
    var after := if k > |lh| then Installed(d, mem, lh) else d;
    var e := Apply(d, CommitWrites(L, mem, lh)[..k]);
    CommitPrefix(L, d, mem, lh, k);
    hide CommitState, SameHome;
    CommitStateDenotes(L, d, mem, lh, k, e);
    RecoveredIs(L, Interrupted(L, e, crashes), after);
  }
}
