/**
  log.c as it is written: an object that updates its header, its cache and the disk step by
  step.  `trace` records every block write, so that a method's contract says which writes it
  issues and in which order; RedoLog says what a crash between any two of them leaves.
 */
module LogDriver {
  import opened Params
  import opened RedoLog
  import opened Sequences
  import opened LogProtocol

  datatype Result = Done | Sleeps | Panics

  /** write_log's block writes. */
  function LogWrites(L: Layout, m: Disk, lh: seq<nat>): (ws: seq<Write>)
    requires forall i :: 0 <= i < |lh| ==> lh[i] < |m|
    ensures |ws| == |lh| && forall i :: 0 <= i < |ws| ==> ws[i] == Write(L.Slot(i), m[lh[i]])
  {
    seq(|lh|, i requires 0 <= i < |lh| => Write(L.Slot(i), m[lh[i]]))
  }

  /** install_trans's block writes. */
  function InstallWrites(L: Layout, m: Disk, lh: seq<nat>): (ws: seq<Write>)
    requires L.start + |lh| < |m|
    ensures |ws| == |lh| && forall i :: 0 <= i < |ws| ==> ws[i] == Write(lh[i], m[L.Slot(i)])
  {
    seq(|lh|, i requires 0 <= i < |lh| => Write(lh[i], m[L.Slot(i)]))
  }

  lemma {:induction false} ApplyUntouched(d: Disk, ws: seq<Write>, b: nat)
    requires InRange(ws, |d|) && b < |d| && forall i :: 0 <= i < |ws| ==> ws[i].at != b
    ensures Apply(d, ws)[b] == d[b]
    decreases |ws|
  {
    if ws != [] {
      ApplyUntouched(d, ws[..|ws| - 1], b);
    }
  }

  lemma {:induction false} ApplyConcat(d: Disk, a: seq<Write>, b: seq<Write>)
    requires InRange(a, |d|) && InRange(b, |d|)
    ensures InRange(a + b, |d|) && Apply(d, a + b) == Apply(Apply(d, a), b)
    decreases |b|
  {
    if b == [] {
      assert a + b == a;
    } else {
      var c := b[..|b| - 1];
      ApplyConcat(d, a, c);
      assert (a + b)[..|a + b| - 1] == a + c;
    }
  }

  lemma {:induction false} ApplyAgree(d: Disk, e: Disk, ws: seq<Write>, b: nat)
    requires |d| == |e| && InRange(ws, |d|) && b < |d| && d[b] == e[b]
    ensures Apply(d, ws)[b] == Apply(e, ws)[b]
    decreases |ws|
  {
    if ws != [] {
      ApplyAgree(d, e, ws[..|ws| - 1], b);
    }
  }

  lemma {:induction false} LogWritesSlot(L: Layout, m: Disk, lh: seq<nat>, k: nat, i: nat)
    requires L.Valid() && |m| == L.nblocks && Loggable(L, lh) && i < k <= |lh|
    requires InRange(LogWrites(L, m, lh), |m|)
    ensures Apply(m, LogWrites(L, m, lh)[..k])[L.Slot(i)] == m[lh[i]]
  {
    ApplyNext(m, LogWrites(L, m, lh), k - 1);
    if i < k - 1 {
      LogWritesSlot(L, m, lh, k - 1, i);
    }
  }

  lemma ApplyStages(d: Disk, a: seq<Write>, w: Write, b: seq<Write>, v: Write)
    requires InRange(a, |d|) && InRange(b, |d|) && w.at < |d| && v.at < |d|
    ensures InRange(a + [w] + b + [v], |d|)
    ensures Apply(d, a + [w] + b + [v]) == Apply(Apply(d, a)[w.at := w.data], b)[v.at := v.data]
  {
    ApplyConcat(d, a, [w]);
    ApplyConcat(d, a + [w], b);
    ApplyConcat(d, a + [w] + b, [v]);
    assert Apply(Apply(d, a), [w]) == Apply(d, a)[w.at := w.data] by { assert [w][..0] == []; }
    var e := Apply(d, a + [w] + b);
    assert Apply(e, [v]) == e[v.at := v.data] by { assert [v][..0] == []; }
  }

  /** The four stages of commit() concatenated are its block writes. */
  lemma CommitStages(L: Layout, m: Disk, lh: seq<nat>, m2: Disk)
    requires L.Valid() && |m| == |m2| == L.nblocks && HeadOk(m[L.start]) && Loggable(L, lh) && lh != []
    requires forall i :: 0 <= i < |lh| ==> m2[L.Slot(i)] == m[lh[i]]
    ensures var head := PutHead(m[L.start], lh);
      CommitWrites(L, m, lh) == LogWrites(L, m, lh) + [Write(L.start, head)]
        + InstallWrites(L, m2, lh) + [Write(L.start, PutHead(head, []))]
  {
    hide PutHead, Loggable;
    CommitInRange(L, m, lh);
    var n := |lh|;
    var ws := CommitWrites(L, m, lh);
    var a, c := LogWrites(L, m, lh), InstallWrites(L, m2, lh);
    FirstStage(L, m, lh);
    SecondStage(L, m, lh, m2);
    hide CommitWrites, LogWrites, InstallWrites;
    FourParts(ws, n);
  }

  lemma FourParts(ws: seq<Write>, n: nat)
    requires |ws| == 2 * n + 2
    ensures ws == ws[..n] + [ws[n]] + ws[n + 1..2 * n + 1] + [ws[2 * n + 1]]
  {
  }

  lemma FirstStage(L: Layout, m: Disk, lh: seq<nat>)
    requires L.Valid() && |m| == L.nblocks && HeadOk(m[L.start]) && Loggable(L, lh) && lh != []
    ensures CommitWrites(L, m, lh)[..|lh|] == LogWrites(L, m, lh)
    ensures CommitWrites(L, m, lh)[|lh|] == Write(L.start, PutHead(m[L.start], lh))
  {
    hide PutHead, Distinct;
  }

  lemma SecondStage(L: Layout, m: Disk, lh: seq<nat>, m2: Disk)
    requires L.Valid() && |m| == |m2| == L.nblocks && HeadOk(m[L.start]) && Loggable(L, lh) && lh != []
    requires forall i :: 0 <= i < |lh| ==> m2[L.Slot(i)] == m[lh[i]]
    ensures CommitWrites(L, m, lh)[|lh| + 1..2 * |lh| + 1] == InstallWrites(L, m2, lh)
    ensures CommitWrites(L, m, lh)[2 * |lh| + 1] == Write(L.start, PutHead(PutHead(m[L.start], lh), []))
  {
    hide PutHead, Distinct;
  }

  lemma CommitInRange(L: Layout, m: Disk, lh: seq<nat>)
    requires L.Valid() && |m| == L.nblocks && Loggable(L, lh)
    ensures L.start + |lh| < |m| && |lh| <= LOGSIZE && forall i :: 0 <= i < |lh| ==> lh[i] < |m|
    ensures forall i :: 0 <= i < |lh| ==> LogWrites(L, m, lh)[i].at != L.start
  {
  }

  /** Copying to the log leaves the blocks still to be copied alone. */
  lemma LogReads(L: Layout, m: Disk, lh: seq<nat>, k: nat)
    requires L.Valid() && |m| == L.nblocks && Loggable(L, lh) && k < |lh|
    requires InRange(LogWrites(L, m, lh), |m|)
    ensures Apply(m, LogWrites(L, m, lh)[..k])[lh[k]] == m[lh[k]]
  {
    ApplyUntouched(m, LogWrites(L, m, lh)[..k], lh[k]);
  }

  /** Installing leaves the log alone. */
  lemma InstallReads(L: Layout, m: Disk, lh: seq<nat>, k: nat)
    requires L.Valid() && |m| == L.nblocks && Loggable(L, lh) && k < |lh|
    requires InRange(InstallWrites(L, m, lh), |m|)
    ensures Apply(m, InstallWrites(L, m, lh)[..k])[L.Slot(k)] == m[L.Slot(k)]
  {
    ApplyUntouched(m, InstallWrites(L, m, lh)[..k], L.Slot(k));
  }

  lemma NextWrite(m: Disk, d: Disk, t: seq<Write>, ws: seq<Write>, k: nat)
    requires InRange(ws, |d|) && |m| == |d| && k < |ws|
    ensures Apply(m, ws[..k + 1]) == Apply(m, ws[..k])[ws[k].at := ws[k].data]
    ensures Apply(d, ws[..k + 1]) == Apply(d, ws[..k])[ws[k].at := ws[k].data]
    ensures t + ws[..k + 1] == t + ws[..k] + [ws[k]]
  {
    ApplyNext(m, ws, k);
    ApplyNext(d, ws, k);
  }

  lemma ConcatAssoc<T>(t: seq<T>, a: seq<T>, w: T, c: seq<T>, v: T)
    ensures t + a + [w] + c + [v] == t + (a + [w] + c + [v])
  {
  }

  /** Cache m and disk d taken through write_log, write_head and install_trans one after the other. */
  lemma CommitRun(L: Layout, d: Disk, m: Disk, lh: seq<nat>, d2: Disk, m2: Disk)
    requires L.Valid() && |m| == |d| == L.nblocks && HeadOk(m[L.start]) && Loggable(L, lh) && lh != []
    requires InRange(LogWrites(L, m, lh), |m|)
    requires m2 == Apply(m, LogWrites(L, m, lh))[L.start := PutHead(m[L.start], lh)]
    requires d2 == Apply(d, LogWrites(L, m, lh))[L.start := PutHead(m[L.start], lh)]
    ensures InRange(InstallWrites(L, m2, lh), |m|)
    ensures Apply(m2, InstallWrites(L, m2, lh))[L.start] == m2[L.start]
    ensures var head := PutHead(m[L.start], lh); var c := InstallWrites(L, m2, lh);
      && CommitWrites(L, m, lh) == LogWrites(L, m, lh) + [Write(L.start, head)] + c +
         [Write(L.start, PutHead(head, []))]
      && Apply(d, CommitWrites(L, m, lh)) == Apply(d2, c)[L.start := PutHead(head, [])]
      && Apply(m, CommitWrites(L, m, lh)) == Apply(m2, c)[L.start := PutHead(head, [])]
  {
    hide PutHead, Apply;
    var a, c, head := LogWrites(L, m, lh), InstallWrites(L, m2, lh), PutHead(m[L.start], lh);
    assert a[..|lh|] == a;
    forall i | 0 <= i < |lh| ensures m2[L.Slot(i)] == m[lh[i]] {
      LogWritesSlot(L, m, lh, |lh|, i);
    }
    ApplyUntouched(m2, c, L.start);
    CommitStages(L, m, lh, m2);
    hide LogWrites, InstallWrites, CommitWrites;
    ApplyStages(d, a, Write(L.start, head), c, Write(L.start, PutHead(head, [])));
    ApplyStages(m, a, Write(L.start, head), c, Write(L.start, PutHead(head, [])));
  }

  /** After a whole commit cache and disk agree on every block. */
  lemma CommitSyncs(L: Layout, d: Disk, m: Disk, lh: seq<nat>)
    requires Clean(L, d) && |m| == |d| && HeadOk(m[L.start]) && Loggable(L, lh)
    requires forall b: nat :: b < |m| && b !in lh ==> m[b] == d[b]
    ensures var ws := CommitWrites(L, m, lh);
      && Apply(m, ws) == Apply(d, ws) && Clean(L, Apply(d, ws))
      && SameHome(L, Apply(d, ws), m) && SameHome(L, Apply(d, ws), Installed(d, m, lh))
  {
    hide CommitWrites, Apply, CommitState;
    var ws := CommitWrites(L, m, lh);
    var e, n := Apply(d, ws), Apply(m, ws);
    assert ws[..|ws|] == ws;
    CommitPrefix(L, d, m, lh, |ws|);
    CommitPrefix(L, m, m, lh, |ws|);
    if lh == [] {
      assert m == d;
      ApplyNone(d, ws);
      assert ws[..0] == ws;
      CleanSame(L, d, m, lh);
    } else {
      forall b: nat | b < |m| ensures n[b] == e[b] {
        if b in lh {
          CommittedBlock(L, d, m, lh, e, b);
          CommittedBlock(L, m, m, lh, n, b);
        } else {
          ApplyAgree(m, d, ws, b);
        }
      }
      CommitStateDenotes(L, d, m, lh, |ws|, e);
      CleanDenotes(L, e, Installed(d, m, lh));
      InstalledIs(L, d, m, lh);
    }
  }

  lemma CleanSame(L: Layout, d: Disk, m: Disk, lh: seq<nat>)
    requires Clean(L, d) && m == d && lh == []
    ensures SameHome(L, d, m) && SameHome(L, d, Installed(d, m, lh))
  {
  }

  lemma CommittedBlock(L: Layout, d: Disk, m: Disk, lh: seq<nat>, e: Disk, b: nat)
    requires L.Valid() && |d| == |m| == L.nblocks && Loggable(L, lh) && b in lh
    requires CommitState(L, d, m, lh, 2 * |lh| + 2, e)
    ensures b < |e| && b < |m| && e[b] == m[b]
  {
    var i :| 0 <= i < |lh| && lh[i] == b;
  }

  lemma InstalledIs(L: Layout, d: Disk, m: Disk, lh: seq<nat>)
    requires |d| == |m| == L.nblocks && forall b: nat :: b < |m| && b !in lh ==> m[b] == d[b]
    ensures SameHome(L, Installed(d, m, lh), m)
  {
  }

  /** install_trans and the clearing of the header are recovery's block writes. */
  lemma RecoveryStages(L: Layout, d: Disk)
    requires DiskOk(L, d)
    ensures var lh := GetHead(d[L.start]);
      && InRange(InstallWrites(L, d, lh), |d|)
      && (forall i :: 0 <= i < |lh| ==> InstallWrites(L, d, lh)[i].at != L.start)
      && RecoveryWrites(L, d) == InstallWrites(L, d, lh) + [Write(L.start, PutHead(d[L.start], []))]
      && Recovered(L, d) == Apply(d, InstallWrites(L, d, lh))[L.start := PutHead(d[L.start], [])]
  {
    hide PutHead;
    var lh := GetHead(d[L.start]);
    var c, w := InstallWrites(L, d, lh), Write(L.start, PutHead(d[L.start], []));
    assert RecoveryWrites(L, d) == c + [w];
    assert (c + [w])[..|c|] == c;
  }

  lemma RecoveredClean(L: Layout, d: Disk)
    requires DiskOk(L, d)
    ensures Clean(L, Recovered(L, d))
  {
    var ws := RecoveryWrites(L, d);
    assert ws[..|ws|] == ws;
    RecoveryPrefix(L, d, |ws|);
  }

  lemma NothingLogged(L: Layout)
    requires L.Valid()
    ensures Loggable(L, [])
  {
  }

  class Log {
    const layout: Layout
    var lh: seq<nat>          // log.lh.block[..log.lh.n]
    var outstanding: int
    var committing: bool
    var mem: Disk             // contents of the buffer cache, as bread returns them
    var disk: Disk
    ghost var trace: seq<Write>

    ghost predicate Sized()
      reads this
    {
      && layout.Valid() && |mem| == |disk| == layout.nblocks
      && HeadOk(mem[layout.start]) && Loggable(layout, lh)
    }

    /** Between transactions' commits: only logged blocks differ from the disk. */
    ghost predicate Valid()
      reads this
    {
      && Sized() && Clean(layout, disk)
      && forall b: nat :: b < |mem| && b !in lh ==> mem[b] == disk[b]
    }

    /** bwrite: the buffer's new contents reach the disk. */
    method Bwrite(b: nat, data: Block)
      requires b < |mem| == |disk|
      modifies this
      ensures mem == old(mem)[b := data] && disk == old(disk)[b := data]
      ensures trace == old(trace) + [Write(b, data)]
      ensures lh == old(lh) && outstanding == old(outstanding) && committing == old(committing)
    {
      mem := mem[b := data];
      disk := disk[b := data];
      trace := trace + [Write(b, data)];
    }

    /** Write the in-memory header over the cached header block, word by word. */
    method WriteHead()
      requires Sized()
      modifies this
      ensures lh == old(lh) && outstanding == old(outstanding) && committing == old(committing)
      ensures mem == old(mem)[layout.start := PutHead(old(mem[layout.start]), lh)]
      ensures disk == old(disk)[layout.start := PutHead(old(mem[layout.start]), lh)]
      ensures trace == old(trace) + [Write(layout.start, PutHead(old(mem[layout.start]), lh))]
    {
      var buf := mem[layout.start].words;
      var hb := buf[0 := |lh|];
      var i := 0;
      while i < |lh|
        invariant 0 <= i <= |lh| && |hb| == WORDS
        invariant hb == [|lh|] + lh[..i] + buf[1 + i..]
      {
        hb := hb[1 + i := lh[i]];
        i := i + 1;
      }
      assert lh[..i] == lh;
      Bwrite(layout.start, Block(hb));
    }

    /** Load the header block into memory. */
    method ReadHead()
      requires layout.Valid() && |mem| == layout.nblocks && HeadOk(mem[layout.start])
      modifies this`lh
      ensures lh == GetHead(mem[layout.start])
    {
      var buf := mem[layout.start].words;
      lh := [];
      var i := 0;
      while i < buf[0]
        invariant 0 <= i <= buf[0] && lh == buf[1..1 + i]
      {
        lh := lh + [buf[1 + i]];
        i := i + 1;
      }
    }

    /** Copy the logged blocks from the cache to the log. */
    method WriteLog()
      requires Sized()
      modifies this
      ensures lh == old(lh) && outstanding == old(outstanding) && committing == old(committing)
      ensures InRange(LogWrites(layout, old(mem), lh), old(|mem|))
      ensures mem == Apply(old(mem), LogWrites(layout, old(mem), lh))
      ensures disk == Apply(old(disk), LogWrites(layout, old(mem), lh))
      ensures trace == old(trace) + LogWrites(layout, old(mem), lh)
    {
      hide Apply, Loggable, HeadOk;
      CommitInRange(layout, mem, lh);
      ghost var ws := LogWrites(layout, mem, lh);
      ApplyNone(mem, ws);
      ApplyNone(disk, ws);
      var tail := 0;
      while tail < |lh|
        invariant 0 <= tail <= |lh| && lh == old(lh)
        invariant outstanding == old(outstanding) && committing == old(committing)
        invariant |mem| == |disk| == layout.nblocks
        invariant mem == Apply(old(mem), ws[..tail]) && disk == Apply(old(disk), ws[..tail])
        invariant trace == old(trace) + ws[..tail]
      {
        LogReads(layout, old(mem), lh, tail);
        NextWrite(old(mem), old(disk), old(trace), ws, tail);
        var from := mem[lh[tail]];
        Bwrite(layout.start + tail + 1, from);
        tail := tail + 1;
      }
      assert ws[..tail] == ws;
    }

    /** Copy the logged blocks from the log to their home locations. */
    method InstallTrans()
      requires Sized()
      modifies this
      ensures lh == old(lh) && outstanding == old(outstanding) && committing == old(committing)
      ensures InRange(InstallWrites(layout, old(mem), lh), old(|mem|))
      ensures mem == Apply(old(mem), InstallWrites(layout, old(mem), lh))
      ensures disk == Apply(old(disk), InstallWrites(layout, old(mem), lh))
      ensures trace == old(trace) + InstallWrites(layout, old(mem), lh)
    {
      hide Apply, Loggable, HeadOk;
      CommitInRange(layout, mem, lh);
      ghost var ws := InstallWrites(layout, mem, lh);
      ApplyNone(mem, ws);
      ApplyNone(disk, ws);
      var tail := 0;
      while tail < |lh|
        invariant 0 <= tail <= |lh| && lh == old(lh)
        invariant outstanding == old(outstanding) && committing == old(committing)
        invariant |mem| == |disk| == layout.nblocks
        invariant mem == Apply(old(mem), ws[..tail]) && disk == Apply(old(disk), ws[..tail])
        invariant trace == old(trace) + ws[..tail]
      {
        InstallReads(layout, old(mem), lh, tail);
        NextWrite(old(mem), old(disk), old(trace), ws, tail);
        var lbuf := mem[layout.start + tail + 1];
        Bwrite(lh[tail], lbuf);
        tail := tail + 1;
      }
      assert ws[..tail] == ws;
    }

    /** commit() of a non-empty transaction, before its effect is read off the writes. */
    method CommitLogged()
      requires Sized() && lh != []
      modifies this
      ensures lh == [] && outstanding == old(outstanding) && committing == old(committing)
      ensures trace == old(trace) + CommitWrites(layout, old(mem), old(lh))
      ensures disk == Apply(old(disk), CommitWrites(layout, old(mem), old(lh)))
      ensures mem == Apply(old(mem), CommitWrites(layout, old(mem), old(lh)))
    {
      ghost var m, t, blocks := mem, trace, lh;
      hide Apply, CommitWrites, PutHead, GetHead, InstallWrites, LogWrites, Loggable, InRange;
      NothingLogged(layout);
      CommitInRange(layout, mem, lh);
      WriteLog();
      ApplyUntouched(m, LogWrites(layout, m, blocks), layout.start);
      WriteHead();
      CommitRun(layout, old(disk), m, lh, disk, mem);
      ghost var c := InstallWrites(layout, mem, lh);
      InstallTrans();
      lh := [];
      WriteHead();
      ConcatAssoc(t, LogWrites(layout, m, blocks), Write(layout.start, PutHead(m[layout.start], blocks)), c,
                  Write(layout.start, mem[layout.start]));
    }

    /** commit() */
    method Commit()
      requires Valid()
      modifies this
      ensures Valid() && lh == []
      ensures outstanding == old(outstanding) && committing == old(committing)
      ensures trace == old(trace) + CommitWrites(layout, old(mem), old(lh))
      ensures disk == Apply(old(disk), CommitWrites(layout, old(mem), old(lh)))
      ensures SameHome(layout, disk, Installed(old(disk), old(mem), old(lh))) && SameHome(layout, mem, old(mem))
    {
      CommitSyncs(layout, disk, mem, lh);
      if |lh| > 0 {
        CommitLogged();
      }
    }

    /** recover_from_log(), run at boot when the cache holds nothing newer than the disk. */
    method RecoverFromLog()
      requires DiskOk(layout, disk) && mem == disk
      modifies this
      ensures Valid() && lh == [] && outstanding == old(outstanding) && committing == old(committing)
      ensures trace == old(trace) + RecoveryWrites(layout, old(disk))
      ensures disk == Recovered(layout, old(disk))
    {
      hide Apply, PutHead, InstallWrites, RecoveryWrites, Recovered, Loggable;
      ghost var d, t := disk, trace;
      NothingLogged(layout);
      ReadHead();
      RecoveryStages(layout, d);
      CommitInRange(layout, d, lh);
      ghost var c := InstallWrites(layout, d, lh);
      InstallTrans();
      ApplyUntouched(d, c, layout.start);
      lh := [];
      WriteHead();
      ghost var w := Write(layout.start, mem[layout.start]);
      assert trace == t + (c + [w]);
      RecoveredClean(layout, d);
    }

    /** begin_op(): one pass of its loop; Sleeps means the caller waits for a commit. */
    method BeginOp() returns (r: Result)
      modifies this`outstanding
      ensures r == Done <==> !committing && |lh| + (old(outstanding) + 1) * MAXOPBLOCKS <= LOGSIZE
      ensures outstanding == if r == Done then old(outstanding) + 1 else old(outstanding)
      ensures r != Panics
    {
      if committing {
        r := Sleeps;
      } else if |lh| + (outstanding + 1) * MAXOPBLOCKS > LOGSIZE {
        r := Sleeps;
      } else {
        outstanding := outstanding + 1;
        r := Done;
      }
    }

    /** log_write() of a buffer whose contents the caller has just changed to data. */
    method LogWrite(b: nat, data: Block) returns (r: Result)
      requires Valid() && layout.Home(b)
      modifies this`lh, this`mem
      ensures r == Panics <==> |old(lh)| >= LOGSIZE || |old(lh)| >= layout.size - 1 || outstanding < 1
      ensures r == Panics ==> lh == old(lh) && mem == old(mem)
      ensures r != Panics ==> r == Done && lh == Absorb(old(lh), b) && mem == old(mem)[b := data] && Valid()
    {
      if |lh| >= LOGSIZE || |lh| >= layout.size - 1 {
        return Panics;
      }
      if outstanding < 1 {
        return Panics;
      }
      var i := 0;
      while i < |lh| && lh[i] != b
        invariant 0 <= i <= |lh|
        invariant b !in lh[..i]
      {
        i := i + 1;
      }
      lh := if i == |lh| then lh + [b] else lh[i := b];
      mem := mem[b := data];
      r := Done;
    }

    /** end_op(), with the commit it runs when this was the last operation. */
    method EndOp() returns (r: Result)
      requires Valid()
      modifies this
      ensures r == Panics <==> old(committing)
      ensures r != Panics ==> r == Done && Valid() && !committing && outstanding == old(outstanding) - 1
      ensures r != Panics && outstanding != 0 ==>
                lh == old(lh) && mem == old(mem) && disk == old(disk) && trace == old(trace)
      ensures r != Panics && outstanding == 0 ==>
                && lh == [] && trace == old(trace) + CommitWrites(layout, old(mem), old(lh))
                && SameHome(layout, disk, old(mem)) && SameHome(layout, mem, old(mem))
    {
      outstanding := outstanding - 1;
      if committing {
        return Panics;
      }
      if outstanding == 0 {
        committing := true;
        CommitSyncs(layout, disk, mem, lh);
        Commit();
        committing := false;
      }
      r := Done;
    }
  }
}
