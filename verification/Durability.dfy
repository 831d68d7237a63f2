/**
  The log under the files.  If every operation takes a disk with a property to another such disk,
  then every disk that recovery can come to has the property, wherever the machine stopped.  The
  property of fs.c is that the disk stores files whose blocks nothing else owns; writei() and
  itrunc() keep it because they log every block that they change.
 */
module Durability {
  import opened Sequences
  import opened RedoLog
  import opened LogProtocol
  import Inode
  import FileWrite

  // ---------------------------------------------------------------- operations in turn

  /** The disk after the log_writes of these operations, one operation after the other. */
  function InTurn(d: Disk, ws: seq<OpWrite>, order: seq<Op>): (r: Disk)
    ensures |r| == |d|
    decreases |order|
  {
    if order == [] then d
    else Effect(InTurn(d, ws, order[..|order| - 1]), ByOp(ws, order[|order| - 1]))
  }

  lemma InTurnNext(d: Disk, ws: seq<OpWrite>, order: seq<Op>, k: nat)
    requires k < |order|
    ensures InTurn(d, ws, order[..k + 1]) == Effect(InTurn(d, ws, order[..k]), ByOp(ws, order[k]))
  {
    assert order[..k + 1][..k] == order[..k];
  }

  /** However the log_writes of a group are interleaved, they come to the same as its operations in this order. */
  ghost predicate Serial(L: Layout, d: Disk, g: Group, order: seq<Op>) {
    && |d| == L.nblocks
    && Distinct(order) && (forall op :: op in g.ops <==> op in order)
    && SameHome(L, InTurn(d, g.writes, order), Effect(d, g.writes))
  }

  /** Each operation, in its turn, takes a disk with P to another one with P. */
  ghost predicate EachKeeps(P: Disk -> bool, d: Disk, ws: seq<OpWrite>, order: seq<Op>) {
    forall k :: 0 <= k < |order| && P(InTurn(d, ws, order[..k])) ==>
      P(Effect(InTurn(d, ws, order[..k]), ByOp(ws, order[k])))
  }

  ghost predicate GroupKeeps(P: Disk -> bool, L: Layout, d: Disk, g: Group) {
    exists order :: Serial(L, d, g, order) && EachKeeps(P, d, g.writes, order)
  }

  /** P is about the blocks outside the log. */
  ghost predicate HomeOnly(P: Disk -> bool, L: Layout) {
    forall d, e :: P(d) && SameHome(L, d, e) ==> P(e)
  }

  lemma {:induction false} InTurnKeeps(P: Disk -> bool, d: Disk, ws: seq<OpWrite>, order: seq<Op>, k: nat)
    requires P(d) && EachKeeps(P, d, ws, order) && k <= |order|
    ensures P(InTurn(d, ws, order[..k]))
    decreases k
  {
    if k == 0 {
      assert order[..0] == [];
    } else {
      InTurnKeeps(P, d, ws, order, k - 1);
      InTurnNext(d, ws, order, k - 1);
    }
  }

  lemma GroupEffect(P: Disk -> bool, L: Layout, d: Disk, g: Group)
    requires P(d) && HomeOnly(P, L) && GroupKeeps(P, L, d, g)
    ensures P(Effect(d, g.writes))
  {
    var order :| Serial(L, d, g, order) && EachKeeps(P, d, g.writes, order);
    InTurnKeeps(P, d, g.writes, order, |order|);
    assert order[..|order|] == order;
  }

  lemma {:induction false} GroupsKeep(P: Disk -> bool, L: Layout, d: Disk, gs: seq<Group>, n: nat)
    requires P(d) && HomeOnly(P, L) && n <= |gs|
    requires forall k :: 0 <= k < |gs| ==> GroupKeeps(P, L, EffectAll(d, gs[..k]), gs[k])
    ensures P(EffectAll(d, gs[..n]))
    decreases n
  {
    if n == 0 {
      assert gs[..0] == [];
    } else {
      GroupsKeep(P, L, d, gs, n - 1);
      hide GroupKeeps, HomeOnly;
      GroupEffect(P, L, EffectAll(d, gs[..n - 1]), gs[n - 1]);
      EffectAllSnoc(d, gs[..n - 1], gs[n - 1]);
      assert gs[..n] == gs[..n - 1] + [gs[n - 1]];
    }
  }

  /**
    Whatever each committed operation keeps in its turn, every disk that recovery comes to has,
    in every run and wherever it stops.
   */
  lemma Survives(P: Disk -> bool, L: Layout, d: Disk, evs: seq<Event>)
    requires Clean(L, d) && Inv(L, Start(d)) && Run(L, Start(d), evs).Next? && P(d) && HomeOnly(P, L)
    requires var gs := Run(L, Start(d), evs).state.done;
      forall k :: 0 <= k < |gs| ==> GroupKeeps(P, L, EffectAll(d, gs[..k]), gs[k])
    ensures DiskOk(L, Run(L, Start(d), evs).state.disk) && P(Recovered(L, Run(L, Start(d), evs).state.disk))
  {
    hide GroupKeeps, Inv, Start, Run, Clean, EffectAll, Recovered, DiskOk, Whole, Committed;
    var s := Run(L, Start(d), evs).state;
    GroupCommit(L, d, evs);
    GroupsKeep(P, L, d, s.done, |s.done|);
    assert s.done[..|s.done|] == s.done;
    SameHomeTrans(L, Recovered(L, s.disk), EffectAll(d, s.done), Recovered(L, s.disk));
  }

  // ---------------------------------------------------------------- which groups are serial

  predicate Touches(ws: seq<OpWrite>, b: nat) {
    exists i :: 0 <= i < |ws| && ws[i].at == b
  }

  /** What block b holds after these log_writes, x if none of them is to it. */
  function Latest(ws: seq<OpWrite>, b: nat, x: Block): Block
    decreases |ws|
  {
    if ws == [] then x
    else if ws[|ws| - 1].at == b then ws[|ws| - 1].data
    else Latest(ws[..|ws| - 1], b, x)
  }

  lemma {:induction false} EffectAt(d: Disk, ws: seq<OpWrite>, b: nat)
    requires b < |d|
    ensures Effect(d, ws)[b] == Latest(ws, b, d[b])
    decreases |ws|
  {
    if ws != [] {
      EffectAt(d, ws[..|ws| - 1], b);
    }
  }

  /** Only log_writes to b count, and without one nothing changes. */
  lemma {:induction false} LatestBy(ws: seq<OpWrite>, op: Op, b: nat, x: Block)
    ensures (forall i :: 0 <= i < |ws| && ws[i].at == b ==> ws[i].op == op) ==>
      Latest(ByOp(ws, op), b, x) == Latest(ws, b, x)
    ensures (forall i :: 0 <= i < |ws| && ws[i].at == b ==> ws[i].op != op) ==> Latest(ByOp(ws, op), b, x) == x
    decreases |ws|
  {
    if ws != [] {
      var front, w := ws[..|ws| - 1], ws[|ws| - 1];
      assert ws == front + [w];
      LatestBy(front, op, b, x);
      ByOpSnoc(front, w, op);
      LatestSnoc(front, w, b, x);
      LatestSnoc(ByOp(front, op), w, b, x);
      assert ByOp(front, op) + [] == ByOp(front, op);
      assert forall i :: 0 <= i < |front| ==> front[i] == ws[i];
      hide ByOp, Latest;
    }
  }

  lemma LatestSnoc(ws: seq<OpWrite>, w: OpWrite, b: nat, x: Block)
    ensures Latest(ws + [w], b, x) == if w.at == b then w.data else Latest(ws, b, x)
  {
    assert (ws + [w])[..|ws|] == ws;
  }

  lemma {:induction false} LatestNone(ws: seq<OpWrite>, b: nat, x: Block)
    requires !Touches(ws, b)
    ensures Latest(ws, b, x) == x
    decreases |ws|
  {
    if ws != [] {
      assert ws[|ws| - 1].at != b;
      assert forall i :: 0 <= i < |ws| - 1 ==> ws[..|ws| - 1][i] == ws[i];
      LatestNone(ws[..|ws| - 1], b, x);
    }
  }

  /** No two operations log the same block. */
  ghost predicate Separate(ws: seq<OpWrite>) {
    forall i, j :: 0 <= i < |ws| && 0 <= j < |ws| && ws[i].at == ws[j].at ==> ws[i].op == ws[j].op
  }

  lemma {:induction false} InTurnAt(d: Disk, ws: seq<OpWrite>, order: seq<Op>, b: nat, op: Op)
    requires Separate(ws) && Distinct(order) && b < |d| && forall i :: 0 <= i < |ws| && ws[i].at == b ==> ws[i].op == op
    ensures InTurn(d, ws, order)[b] == if op in order then Latest(ws, b, d[b]) else d[b]
    decreases |order|
  {
    if order != [] {
      var front, last := order[..|order| - 1], order[|order| - 1];
      assert order == front + [last];
      InTurnAt(d, ws, front, b, op);
      EffectAt(InTurn(d, ws, front), ByOp(ws, last), b);
      LatestBy(ws, last, b, InTurn(d, ws, front)[b]);
      if last != op && Touches(ws, b) {
        assert forall i :: 0 <= i < |ws| && ws[i].at == b ==> ws[i].op != last;
      }
      if !Touches(ws, b) {
        LatestNone(ws, b, InTurn(d, ws, front)[b]);
        LatestNone(ws, b, d[b]);
        assert forall i :: 0 <= i < |ws| ==> ws[i].at != b;
      }
    }
  }

  /** Operations that log different blocks come to the same in every order. */
  lemma SeparateSerial(L: Layout, d: Disk, g: Group, order: seq<Op>)
    requires |d| == L.nblocks && Separate(g.writes) && Distinct(order) && forall op :: op in g.ops <==> op in order
    requires forall i :: 0 <= i < |g.writes| ==> g.writes[i].op in g.ops
    ensures Serial(L, d, g, order)
  {
    hide Latest, InTurn, Effect;
    forall b: nat | b < |d| ensures InTurn(d, g.writes, order)[b] == Effect(d, g.writes)[b] {
      EffectAt(d, g.writes, b);
      if Touches(g.writes, b) {
        var i :| 0 <= i < |g.writes| && g.writes[i].at == b;
        InTurnAt(d, g.writes, order, b, g.writes[i].op);
      } else {
        LatestNone(g.writes, b, d[b]);
        InTurnAt(d, g.writes, order, b, 0);
      }
    }
  }

  // ---------------------------------------------------------------- files on the disk

  function Shift(k: int): int {
    if k == 0 then 1 else if k == 1 then 0x100 else if k == 2 then 0x1_0000 else 0x100_0000
  }

  /** The bytes of a block of words. */
  function ByteOf(x: Block, k: int): int
    requires |x.words| == WORDS && 0 <= k < Inode.BSIZE
  {
    x.words[k / 4] / Shift(k % 4) % 0x100
  }

  function BytesOf(x: Block): seq<int>
    requires |x.words| == WORDS
  {
    seq(Inode.BSIZE, k requires 0 <= k < Inode.BSIZE => ByteOf(x, k))
  }

  function TypeOf(n: int): Inode.Type {
    if n == 1 then Inode.Dir else if n == 2 then Inode.File else if n == 3 then Inode.Dev else Inode.Free
  }

  /** The j-th struct dinode of an inode block: 16 words, with the type, the link count, the size and the addresses. */
  function InodeOf(x: Block, j: int): Inode.Inode
    requires |x.words| == WORDS && 0 <= j < Inode.IPB
  {
    var w := x.words[16 * j..16 * j + 16];
    Inode.Inode(TypeOf(w[0] % 0x1_0000), w[1] / 0x1_0000, w[4], w[5..])
  }

  /** As mkfs lays a disk out: the log, the inodes, the bitmap and the data blocks, in this order. */
  ghost predicate WellLaid(K: Layout, L: Inode.Layout) {
    && K.nblocks == L.nblocks
    && K.start + K.size <= L.inodeStart <= L.bmapStart <= L.dataStart <= L.nblocks
  }

  /** x is block b of a disk that stores s. */
  ghost predicate HoldsAt(L: Inode.Layout, s: Inode.FS, b: int, x: Block) {
    && |x.words| == WORDS
    && (L.dataStart <= b ==> 0 <= b < |s.blocks| && BytesOf(x) == s.blocks[b])
    && (L.bmapStart <= b < L.dataStart ==>
          forall k :: 0 <= k < Inode.BSIZE && (b - L.bmapStart) * Inode.BSIZE + k < |s.bm| ==>
            ByteOf(x, k) == s.bm[(b - L.bmapStart) * Inode.BSIZE + k] as int)
    && (L.inodeStart <= b < L.bmapStart ==>
          forall j :: 0 <= j < Inode.IPB && (b - L.inodeStart) * Inode.IPB + j < |s.inode| ==>
            InodeOf(x, j) == s.inode[(b - L.inodeStart) * Inode.IPB + j])
  }

  /** Disk d stores the file system s. */
  ghost predicate Stores(L: Inode.Layout, d: Disk, s: Inode.FS) {
    && |d| == L.nblocks && 0 <= L.inodeStart
    && |s.bm| <= Inode.BSIZE * (L.dataStart - L.bmapStart) && |s.inode| <= Inode.IPB * (L.bmapStart - L.inodeStart)
    && forall b :: L.inodeStart <= b < L.nblocks ==> HoldsAt(L, s, b, d[b])
  }

  /** Disk d stores files, with every block owned once and every file mapped up to its size. */
  ghost predicate Sane(L: Inode.Layout, d: Disk) {
    exists s, owner :: Stores(L, d, s) && Inode.Shape(L, s) && Inode.Owned(L, s, owner) && Inode.Sized(L, s)
  }

  lemma SaneHome(K: Layout, L: Inode.Layout, d: Disk, e: Disk)
    requires WellLaid(K, L) && Sane(L, d) && SameHome(K, d, e)
    ensures Sane(L, e)
  {
    var s, owner :| Stores(L, d, s) && Inode.Shape(L, s) && Inode.Owned(L, s, owner) && Inode.Sized(L, s);
    hide Inode.Owned, Inode.Sized, Inode.Shape, HoldsAt;
    forall b | L.inodeStart <= b < L.nblocks ensures HoldsAt(L, s, b, e[b]) {
      assert K.Home(b) && HoldsAt(L, s, b, d[b]);
    }
    assert Stores(L, e, s);
  }

  /** A block outside the log of an operation stores the same before and after. */
  lemma UnloggedHolds(L: Inode.Layout, s: Inode.FS, t: Inode.FS, log: set<int>, b: int, x: Block)
    requires Inode.ChangesLogged(L, s, t, log) && b !in log && HoldsAt(L, s, b, x)
    ensures HoldsAt(L, t, b, x)
  {
    hide InodeOf, ByteOf, BytesOf;
    if L.bmapStart <= b < L.dataStart {
      forall k | 0 <= k < Inode.BSIZE && (b - L.bmapStart) * Inode.BSIZE + k < |t.bm|
        ensures ByteOf(x, k) == t.bm[(b - L.bmapStart) * Inode.BSIZE + k] as int
      {
        var q := (b - L.bmapStart) * Inode.BSIZE + k;
        assert L.bmapStart + q / Inode.BSIZE == b && t.bm[q] == s.bm[q];
      }
    }
    if L.inodeStart <= b < L.bmapStart {
      forall j | 0 <= j < Inode.IPB && (b - L.inodeStart) * Inode.IPB + j < |t.inode|
        ensures InodeOf(x, j) == t.inode[(b - L.inodeStart) * Inode.IPB + j]
      {
        var q := (b - L.inodeStart) * Inode.IPB + j;
        assert L.inodeStart + q / Inode.IPB == b && t.inode[q] == s.inode[q];
      }
    }
  }

  /** The log_writes of an operation: to the blocks of its log, each as it is stored in the end. */
  ghost predicate Carries(L: Inode.Layout, t: Inode.FS, ws: seq<OpWrite>, log: set<int>) {
    && (forall b: nat :: L.inodeStart <= b < L.nblocks ==> (Touches(ws, b) <==> b in log))
    && (forall b: nat, x :: L.inodeStart <= b < L.nblocks && b in log ==> HoldsAt(L, t, b, Latest(ws, b, x)))
  }

  /**
    An operation that logs every block it changes takes a disk that stores the files before it to
    one that stores the files after it.
   */
  lemma OperationStores(L: Inode.Layout, d: Disk, s: Inode.FS, t: Inode.FS, ws: seq<OpWrite>, log: set<int>)
    requires Stores(L, d, s) && Inode.ChangesLogged(L, s, t, log) && Carries(L, t, ws, log)
    ensures Stores(L, Effect(d, ws), t)
  {
    var e := Effect(d, ws);
    assert |t.bm| == |s.bm| && |t.inode| == |s.inode|;
    hide HoldsAt, Inode.ChangesLogged, Touches, Effect, Latest;
    forall b | L.inodeStart <= b < L.nblocks ensures HoldsAt(L, t, b, e[b]) {
      var c: nat := b;
      EffectAt(d, ws, c);
      assert HoldsAt(L, s, c, d[c]);
      if c in log {
        assert HoldsAt(L, t, c, Latest(ws, c, d[c]));
      } else {
        LatestNone(ws, c, d[c]);
        UnloggedHolds(L, s, t, log, c, d[c]);
      }
    }
  }

  /** ... with files as fs.c leaves them after writei() or itrunc(). */
  ghost predicate FileOperation(L: Inode.Layout, d: Disk, ws: seq<OpWrite>) {
    exists s, t, owner, log ::
      Stores(L, d, s) && Inode.ChangesLogged(L, s, t, log) && Carries(L, t, ws, log)
      && Inode.Shape(L, t) && Inode.Owned(L, t, owner) && Inode.Sized(L, t)
  }

  /** Whatever disk stores the files before, and however the blocks of the log are written. */
  ghost predicate IsOperation(L: Inode.Layout, s: Inode.FS, t: Inode.FS, log: set<int>) {
    forall d: Disk, ws: seq<OpWrite> :: Stores(L, d, s) && Carries(L, t, ws, log) ==> FileOperation(L, d, ws)
  }

  lemma OperationIs(L: Inode.Layout, s: Inode.FS, t: Inode.FS, owner: map<int, Inode.Slot>, log: set<int>)
    requires Inode.ChangesLogged(L, s, t, log)
    requires Inode.Shape(L, t) && Inode.Owned(L, t, owner) && Inode.Sized(L, t)
    ensures IsOperation(L, s, t, log)
  {
    hide Stores, Inode.Owned, Inode.Sized, Inode.Shape, Inode.ChangesLogged, Carries;
  }

  /** A chunk of filewrite(), from begin_op() to end_op(), is a file operation. */
  method WriteOperation(f: FileWrite.File, piece: seq<int>) returns (r: Inode.Result, ghost log: set<int>)
    requires f.Valid() && 0 < |piece| <= FileWrite.CHUNK
    modifies f, f.fs
    ensures r.Wrote? ==> f.Valid() && IsOperation(f.fs.L, old(f.fs.Stored()), f.fs.Stored(), log)
  {
    hide Inode.Owned, Inode.Sized, Inode.Shape, Inode.ChangesLogged, IsOperation, Inode.Full, Inode.Allocated,
      Inode.Overwrite, FileWrite.Counted;
    r, log := f.WriteChunk(piece);
    if r.Wrote? {
      OperationIs(f.fs.L, old(f.fs.Stored()), f.fs.Stored(), f.fs.owner, log);
    }
  }

  /** So is the truncation of a file. */
  method TruncateOperation(fs: Inode.FileSystem, i: int) returns (panic: bool)
    requires fs.Valid() && 0 <= i < fs.L.ninodes
    modifies fs
    ensures !panic && fs.Valid() && IsOperation(fs.L, old(fs.Stored()), fs.Stored(), fs.logged)
  {
    hide Inode.Owned, Inode.Sized, Inode.Shape, Inode.ChangesLogged, IsOperation;
    fs.logged := {};
    panic := fs.Itrunc(i);
    OperationIs(fs.L, old(fs.Stored()), fs.Stored(), fs.owner, fs.logged);
  }

  lemma FileOperationSane(L: Inode.Layout, d: Disk, ws: seq<OpWrite>)
    requires FileOperation(L, d, ws)
    ensures Sane(L, Effect(d, ws))
  {
    var s, t, owner, log :|
      Stores(L, d, s) && Inode.ChangesLogged(L, s, t, log) && Carries(L, t, ws, log)
      && Inode.Shape(L, t) && Inode.Owned(L, t, owner) && Inode.Sized(L, t);
    hide Stores, Inode.Owned, Inode.Sized, Inode.Shape, Inode.ChangesLogged, Carries;
    OperationStores(L, d, s, t, ws, log);
  }

  /** A group whose operations, in some order, are file operations one after the other. */
  ghost predicate FileGroup(K: Layout, L: Inode.Layout, d: Disk, g: Group) {
    exists order :: Serial(K, d, g, order)
      && forall k :: 0 <= k < |order| ==> FileOperation(L, InTurn(d, g.writes, order[..k]), ByOp(g.writes, order[k]))
  }

  lemma FileGroupKeeps(K: Layout, L: Inode.Layout, d: Disk, g: Group)
    requires FileGroup(K, L, d, g)
    ensures GroupKeeps(e => Sane(L, e), K, d, g)
  {
    var order :| Serial(K, d, g, order)
      && forall k :: 0 <= k < |order| ==> FileOperation(L, InTurn(d, g.writes, order[..k]), ByOp(g.writes, order[k]));
    var P := (e: Disk) => Sane(L, e);
    hide FileOperation, Sane, Serial, Effect, ByOp;
    forall k | 0 <= k < |order| && P(InTurn(d, g.writes, order[..k]))
      ensures P(Effect(InTurn(d, g.writes, order[..k]), ByOp(g.writes, order[k])))
    {
      FileOperationSane(L, InTurn(d, g.writes, order[..k]), ByOp(g.writes, order[k]));
    }
    assert EachKeeps(P, d, g.writes, order);
  }

  /**
    Wherever a run of file operations stops, the disk that recovery leaves stores files whose
    blocks are owned once and which are mapped exactly up to their size.
   */
  lemma FilesSurvive(K: Layout, L: Inode.Layout, d: Disk, evs: seq<Event>)
    requires WellLaid(K, L) && Clean(K, d) && Inv(K, Start(d)) && Run(K, Start(d), evs).Next? && Sane(L, d)
    requires var gs := Run(K, Start(d), evs).state.done;
      forall k :: 0 <= k < |gs| ==> FileGroup(K, L, EffectAll(d, gs[..k]), gs[k])
    ensures DiskOk(K, Run(K, Start(d), evs).state.disk) && Sane(L, Recovered(K, Run(K, Start(d), evs).state.disk))
  {
    hide Inv, Start, Run, Clean, EffectAll, Recovered, DiskOk, FileGroup, GroupKeeps, Sane, WellLaid;
    var P := (e: Disk) => Sane(L, e);
    var gs := Run(K, Start(d), evs).state.done;
    forall k | 0 <= k < |gs| ensures GroupKeeps(P, K, EffectAll(d, gs[..k]), gs[k]) {
      FileGroupKeeps(K, L, EffectAll(d, gs[..k]), gs[k]);
    }
    forall x, e | P(x) && SameHome(K, x, e) ensures P(e) {
      SaneHome(K, L, x, e);
    }
    Survives(P, K, d, evs);
  }
}
