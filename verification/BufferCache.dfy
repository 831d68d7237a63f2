/**
  The buffer cache of bio.c: NBUF buffers on a circular doubly linked list, most recently used
  first, over the synchronous disk.
 */
module BufferCache {
  import opened Ide
  import opened Params

  const HEAD: int := NBUF // index of bcache.head

  // ---------------------------------------------------------------- the ring

  /** The k-th node of the ring through head and order, from head back to head. */
  function Ring(order: seq<int>, k: int): int
    requires 0 <= k <= |order| + 1
  {
    if 1 <= k <= |order| then order[k - 1] else HEAD
  }

  ghost predicate Nodes(order: seq<int>) {
    && (forall k :: 0 <= k < |order| ==> 0 <= order[k] < NBUF)
    && (forall j, k :: 0 <= j < k < |order| ==> order[j] != order[k])
  }

  ghost predicate IsRing(next: seq<int>, prev: seq<int>, order: seq<int>) {
    && |next| == NBUF + 1 && |prev| == NBUF + 1 && Nodes(order)
    && (forall k :: 0 <= k <= |order| ==> Joined(next, prev, Ring(order, k), Ring(order, k + 1)))
  }

  predicate Joined(next: seq<int>, prev: seq<int>, a: int, b: int)
    requires |next| == NBUF + 1 && |prev| == NBUF + 1
  {
    0 <= a <= NBUF && 0 <= b <= NBUF && next[a] == b && prev[b] == a
  }

  /** Ring positions name distinct nodes, but for the two ends. */
  lemma RingDistinct(order: seq<int>, j: int, k: int)
    requires Nodes(order) && 0 <= j < k <= |order| + 1 && !(j == 0 && k == |order| + 1)
    ensures Ring(order, j) != Ring(order, k)
  {
  }

  function Drop(order: seq<int>, k: int): seq<int>
    requires 0 <= k < |order|
  {
    order[..k] + order[k + 1..]
  }

  lemma Unlink(next: seq<int>, prev: seq<int>, order: seq<int>, k: int)
    requires IsRing(next, prev, order) && 0 <= k < |order|
    ensures 0 <= order[k] < NBUF && 0 <= next[order[k]] <= NBUF && 0 <= prev[order[k]] <= NBUF
    ensures next[order[k]] != order[k]
    ensures var b := order[k]; IsRing(next[prev[b] := next[b]], prev[next[b] := prev[b]], Drop(order, k))
  {
    var b := order[k];
    assert Ring(order, k + 1) == b;
    assert Joined(next, prev, Ring(order, k), Ring(order, k + 1))
      && Joined(next, prev, Ring(order, k + 1), Ring(order, k + 2));
    RingDistinct(order, k + 1, k + 2);
    var next', prev', rest := next[prev[b] := next[b]], prev[next[b] := prev[b]], Drop(order, k);
    forall m | 0 <= m <= |rest| ensures Joined(next', prev', Ring(rest, m), Ring(rest, m + 1)) {
      UnlinkAt(next, prev, order, k, m);
    }
  }

  lemma UnlinkAt(next: seq<int>, prev: seq<int>, order: seq<int>, k: int, m: int)
    requires IsRing(next, prev, order) && 0 <= k < |order| && 0 <= m < |order|
    requires Joined(next, prev, Ring(order, k), order[k]) && Joined(next, prev, order[k], Ring(order, k + 2))
    ensures var b, rest := order[k], Drop(order, k);
      Joined(next[prev[b] := next[b]], prev[next[b] := prev[b]], Ring(rest, m), Ring(rest, m + 1))
  {
    var rest := Drop(order, k);
    if m < k {
      assert Ring(rest, m) == Ring(order, m) && Ring(rest, m + 1) == Ring(order, m + 1);
      RingDistinct(order, m, k);
      RingDistinct(order, m + 1, k + 2);
      assert Joined(next, prev, Ring(order, m), Ring(order, m + 1));
    } else if m == k {
      assert Ring(rest, m) == Ring(order, m) && Ring(rest, m + 1) == Ring(order, m + 2);
    } else {
      assert Ring(rest, m) == Ring(order, m + 1) && Ring(rest, m + 1) == Ring(order, m + 2);
      RingDistinct(order, k, m + 1);
      RingDistinct(order, k + 2, m + 2);
      assert Joined(next, prev, Ring(order, m + 1), Ring(order, m + 2));
    }
  }

  lemma PushFront(next: seq<int>, prev: seq<int>, order: seq<int>, b: int)
    requires IsRing(next, prev, order) && 0 <= b < NBUF && b !in order
    ensures 0 <= next[HEAD] <= NBUF
    ensures IsRing(next[b := next[HEAD]][HEAD := b], prev[b := HEAD][next[HEAD] := b], [b] + order)
  {
    assert Joined(next, prev, Ring(order, 0), Ring(order, 1));
    var first, more := next[HEAD], [b] + order;
    var next', prev' := next[b := first][HEAD := b], prev[b := HEAD][first := b];
    forall m | 0 <= m <= |more| ensures Joined(next', prev', Ring(more, m), Ring(more, m + 1)) {
      if m >= 2 {
        assert Ring(more, m) == Ring(order, m - 1) && Ring(more, m + 1) == Ring(order, m);
        RingDistinct(order, 0, m - 1);
        RingDistinct(order, 1, m);
        assert Joined(next, prev, Ring(order, m - 1), Ring(order, m));
      }
    }
  }

  // ---------------------------------------------------------------- cache contents

  ghost predicate Holds(buf: seq<Buf>, i: int, k: Key) {
    0 <= i < |buf| && buf[i].Key() == k
  }

  ghost predicate Cached(buf: seq<Buf>, k: Key) {
    exists i :: Holds(buf, i, k) && buf[i].valid
  }

  /** No two buffers for one block; device -1 marks a buffer never used. */
  ghost predicate Unique(buf: seq<Buf>) {
    forall i, j :: 0 <= i < j < |buf| && buf[i].dev != -1 ==> buf[i].Key() != buf[j].Key()
  }

  predicate Idle(b: Buf) {
    !b.busy && !b.dirty
  }

  /** Buffer b against the disk and the block map latest. */
  ghost predicate BufOk(b: Buf, disk: Disk, latest: Disk) {
    && (b.dirty ==> b.valid)
    && (!b.busy ==> b.valid || b.dev == -1)
    && (b.valid ==> b.dev != -1 && b.Key() in disk && b.Key() in latest && b.data == latest[b.Key()])
    && (b.valid && Idle(b) ==> disk[b.Key()] == latest[b.Key()])
  }

  /** The buffer has been read, and what its holder changed is pinned or on the disk. */
  ghost predicate Settled(b: Buf, disk: Disk, latest: Disk) {
    && (b.valid || b.dev == -1)
    && (b.valid && !b.dirty ==> b.Key() in disk && b.Key() in latest && disk[b.Key()] == latest[b.Key()])
  }

  /** The cache and the disk together hold the plain block map latest. */
  ghost predicate Refines(buf: seq<Buf>, disk: Disk, latest: Disk) {
    && disk.Keys == latest.Keys
    && (forall i :: 0 <= i < |buf| ==> BufOk(buf[i], disk, latest))
    && (forall k :: k in disk && !Cached(buf, k) ==> disk[k] == latest[k])
  }

  /** Replacing buffer b by v, for the same block. */
  lemma SameKey(buf: seq<Buf>, b: int, v: Buf, k: Key)
    requires 0 <= b < |buf| && v.Key() == buf[b].Key() && (buf[b].valid ==> v.valid)
    ensures Cached(buf, k) ==> Cached(buf[b := v], k)
    ensures Unique(buf) ==> Unique(buf[b := v])
  {
    if i :| Holds(buf, i, k) && buf[i].valid {
      assert Holds(buf[b := v], i, k);
    }
  }

  lemma Relabel(buf: seq<Buf>, disk: Disk, latest: Disk, b: int, v: Buf)
    requires Unique(buf) && Refines(buf, disk, latest) && 0 <= b < |buf| && v.Key() == buf[b].Key()
    requires BufOk(v, disk, latest) && (buf[b].valid ==> v.valid)
    ensures Unique(buf[b := v]) && Refines(buf[b := v], disk, latest)
  {
    SameKey(buf, b, v, v.Key());
    forall k | k in disk && !Cached(buf[b := v], k) ensures disk[k] == latest[k] {
      SameKey(buf, b, v, k);
    }
  }

  /** Recycling an idle buffer for a block that no buffer holds. */
  lemma Recycle(buf: seq<Buf>, disk: Disk, latest: Disk, b: int, v: Buf)
    requires Unique(buf) && Refines(buf, disk, latest) && 0 <= b < |buf| && Idle(buf[b])
    requires v.busy && !v.valid && !v.dirty && v.dev != -1 && forall i :: 0 <= i < |buf| ==> buf[i].Key() != v.Key()
    ensures Unique(buf[b := v]) && Refines(buf[b := v], disk, latest)
  {
    var buf' := buf[b := v];
    forall k | k in disk && !Cached(buf', k) ensures disk[k] == latest[k] {
      if i :| Holds(buf, i, k) && buf[i].valid {
        if i != b { assert Holds(buf', i, k); }
      }
    }
  }

  /** Transfer between a busy buffer and the disk. */
  lemma Transfer(buf: seq<Buf>, disk: Disk, latest: Disk, b: int)
    requires Unique(buf) && Refines(buf, disk, latest) && 0 <= b < |buf| && buf[b].busy && buf[b].dev != -1
    requires buf[b].Key() in disk
    requires !buf[b].Synced()
    ensures var t := Sync(State(disk, buf), b);
      Unique(t.buf) && Refines(t.buf, t.disk, latest) && t.disk[buf[b].Key()] == latest[buf[b].Key()] && t.buf[b].busy
  {
    var key, t := buf[b].Key(), Sync(State(disk, buf), b);
    NotCachedElsewhere(buf, b);
    SameKey(buf, b, t.buf[b], key);
    forall i | 0 <= i < |buf| ensures BufOk(t.buf[i], t.disk, latest) {
      if i != b && buf[i].valid { assert buf[i].Key() != key; }
    }
    forall k | k in t.disk && !Cached(t.buf, k) ensures t.disk[k] == latest[k] {
      SameKey(buf, b, t.buf[b], k);
      if k == key { assert Holds(t.buf, b, k); }
    }
  }

  lemma NotCachedElsewhere(buf: seq<Buf>, b: int)
    requires Unique(buf) && 0 <= b < |buf| && buf[b].dev != -1
    ensures forall i :: 0 <= i < |buf| && i != b ==> buf[i].Key() != buf[b].Key()
    ensures !buf[b].valid ==> !Cached(buf, buf[b].Key())
  {
  }

  /** The holder of a buffer changes its data. */
  lemma Change(buf: seq<Buf>, disk: Disk, latest: Disk, b: int, data: Block)
    requires Unique(buf) && Refines(buf, disk, latest) && 0 <= b < |buf| && buf[b].busy && buf[b].valid
    ensures var k, buf' := buf[b].Key(), buf[b := buf[b].(data := data)];
      Unique(buf') && Refines(buf', disk, latest[k := data])
  {
    var key, v := buf[b].Key(), buf[b].(data := data);
    var buf', latest' := buf[b := v], latest[key := data];
    NotCachedElsewhere(buf, b);
    SameKey(buf, b, v, key);
    assert Holds(buf', b, key);
    forall k | k in disk && !Cached(buf', k) ensures disk[k] == latest'[k] {
      SameKey(buf, b, v, k);
    }
  }

  datatype Outcome = Got | Asleep | NoBuffers | BadBlock

  class Cache {
    var disk: Disk
    var buf: seq<Buf>
    var next: seq<int>
    var prev: seq<int>
    ghost var order: seq<int>  // buffers, most recently used first
    ghost var latest: Disk     // the block map this cache implements

    ghost predicate Valid()
      reads this
    {
      |buf| == NBUF && |order| == NBUF && IsRing(next, prev, order) && Unique(buf) && Refines(buf, disk, latest)
    }

    /** binit(). */
    constructor (d: Disk)
      ensures Valid() && disk == d && latest == d && forall i :: 0 <= i < NBUF ==> !buf[i].busy && !buf[i].valid
    {
      disk, latest := d, d;
      buf := seq(NBUF, _ => Buf(-1, 0, false, false, false, []));
      var nx, pv := seq(NBUF + 1, _ => HEAD), seq(NBUF + 1, _ => HEAD);
      ghost var o: seq<int> := [];
      var b := 0;
      while b < NBUF
        invariant 0 <= b <= NBUF && |o| == b && IsRing(nx, pv, o) && forall k :: 0 <= k < |o| ==> 0 <= o[k] < b
      {
        PushFront(nx, pv, o, b);
        nx := nx[b := nx[HEAD]];
        pv := pv[b := HEAD];
        pv := pv[nx[HEAD] := b];
        nx := nx[HEAD := b];
        o := [b] + o;
        b := b + 1;
      }
      next, prev, order := nx, pv, o;
    }

    /** The first loop of bget(): the buffer of block k, or HEAD. */
    method Find(k: Key) returns (b: int)
      requires Valid()
      ensures b != HEAD ==> Holds(buf, b, k)
      ensures b == HEAD ==> forall i :: 0 <= i < NBUF ==> buf[i].Key() != k
    {
      hide Refines, Unique;
      ghost var m := 1;
      RingNode(next, prev, order, 0);
      b := next[HEAD];
      while b != HEAD
        invariant 1 <= m <= NBUF + 1 && b == Ring(order, m) && (b != HEAD ==> 0 <= b < NBUF)
        invariant forall i :: 0 <= i < m - 1 ==> buf[order[i]].Key() != k
        decreases NBUF + 1 - m
      {
        if buf[b].dev == k.0 && buf[b].blockno == k.1 {
          return;
        }
        RingNode(next, prev, order, m);
        b := next[b];
        m := m + 1;
      }
      RingEnd(order, m);
      forall i | 0 <= i < NBUF ensures buf[i].Key() != k {
        var p := OnRing(order, i);
      }
    }

    /** The second loop of bget(): the least recently used buffer that is neither busy nor dirty, or HEAD. */
    method FindIdle() returns (b: int, ghost p: int)
      requires Valid()
      ensures b != HEAD ==> 0 <= p < NBUF && b == order[p] && 0 <= b < NBUF && Idle(buf[b])
      ensures b != HEAD ==> forall q :: p < q < NBUF ==> !Idle(buf[order[q]])
      ensures b == HEAD ==> forall i :: 0 <= i < NBUF ==> !Idle(buf[i])
    {
      hide Refines, Unique;
      ghost var m := NBUF;
      RingNode(next, prev, order, NBUF);
      b := prev[HEAD];
      p := m - 1;
      while b != HEAD
        invariant 0 <= m <= NBUF && p == m - 1 && b == Ring(order, m) && (b != HEAD ==> 0 <= b < NBUF)
        invariant forall q :: m <= q < NBUF ==> !Idle(buf[order[q]])
        decreases m
      {
        RingEnd(order, m);
        if !buf[b].busy && !buf[b].dirty {
          return;
        }
        RingNode(next, prev, order, m - 1);
        b := prev[b];
        m := m - 1;
        p := m - 1;
      }
      RingEnd(order, m);
      forall i | 0 <= i < NBUF ensures !Idle(buf[i]) {
        var q := OnRing(order, i);
      }
    }

    /** bget(), up to where it sleeps on a busy buffer. */
    method Bget(k: Key) returns (b: int, out: Outcome)
      requires Valid() && k.0 != -1
      modifies this`buf
      ensures Valid() && out in {Got, Asleep, NoBuffers}
      ensures out == NoBuffers <==> (forall i :: 0 <= i < NBUF ==> old(buf)[i].Key() != k && !Idle(old(buf)[i]))
      ensures out != NoBuffers ==> 0 <= b < NBUF
      ensures out == Asleep <==> (exists i :: Holds(old(buf), i, k) && old(buf)[i].busy)
      ensures (out == Asleep ==> Holds(buf, b, k)) && (out != Got ==> buf == old(buf))
      ensures out == Got && Holds(old(buf), b, k) ==> !old(buf)[b].busy
      ensures out == Got && Holds(old(buf), b, k) ==> buf == old(buf)[b := old(buf)[b].(busy := true)]
      ensures out == Got && !Holds(old(buf), b, k) ==>
        && (forall i :: 0 <= i < NBUF ==> old(buf)[i].Key() != k)
        && Idle(old(buf)[b])
        && (exists p :: 0 <= p < NBUF && order[p] == b && forall q :: p < q < NBUF ==> !Idle(old(buf)[order[q]]))
        && buf == old(buf)[b := Buf(k.0, k.1, true, false, false, old(buf)[b].data)]
    {
      hide IsRing, Refines, Unique;
      b := Find(k);
      if b != HEAD {
        OneHolder(buf, b, k);
        if !buf[b].busy {
          MadeBusy(buf, disk, latest, b);
          buf := buf[b := buf[b].(busy := true)];
          out := Got;
        } else {
          out := Asleep;
        }
        return;
      }
      ghost var p;
      b, p := FindIdle();
      if b != HEAD {
        Recycle(buf, disk, latest, b, Buf(k.0, k.1, true, false, false, buf[b].data));
        buf := buf[b := Buf(k.0, k.1, true, false, false, buf[b].data)];
        out := Got;
      } else {
        out := NoBuffers;
      }
    }

    /** iderw() of memide.c. */
    method Iderw(b: int) returns (panic: bool)
      requires 0 <= b < |buf|
      modifies this`buf, this`disk
      ensures panic <==> !old(Accepts(State(disk, buf), b))
      ensures !panic ==> State(disk, buf) == Sync(old(State(disk, buf)), b)
      ensures panic ==> disk == old(disk) && buf == old(buf)
    {
      if !buf[b].busy {
        return true;
      }
      if buf[b].Synced() {
        return true;
      }
      if buf[b].Key() !in disk {
        return true;
      }
      if buf[b].dirty {
        buf := buf[b := buf[b].(dirty := false)];
        disk := disk[buf[b].Key() := buf[b].data];
      } else {
        buf := buf[b := buf[b].(data := disk[buf[b].Key()])];
      }
      buf := buf[b := buf[b].(valid := true)];
      panic := false;
    }

    /** bread(): the latest contents of the block. */
    method Bread(k: Key) returns (b: int, out: Outcome)
      requires Valid() && k.0 != -1
      modifies this`buf, this`disk
      ensures disk == old(disk) && (out != BadBlock ==> Valid())
      // when the caller sleeps, and when the kernel panics
      ensures out == Asleep <==> exists i :: Holds(old(buf), i, k) && old(buf)[i].busy
      ensures out == NoBuffers <==> forall i :: 0 <= i < NBUF ==> old(buf)[i].Key() != k && !Idle(old(buf)[i])
      ensures out == BadBlock <==>
        && (forall i :: 0 <= i < NBUF ==> old(buf)[i].Key() != k)
        && (exists i :: 0 <= i < NBUF && Idle(old(buf)[i])) && k !in disk
      ensures out in {Asleep, NoBuffers} ==> buf == old(buf)
      // else the caller holds the block, in the buffer it was in or in the least recently used idle one
      ensures out == Got ==> Holds(buf, b, k) && !old(buf)[b].busy && k in latest && k in disk
      ensures out == Got && Holds(old(buf), b, k) ==>
        buf == old(buf)[b := old(buf)[b].(busy := true)] && buf[b].valid && buf[b].data == latest[k]
      ensures out == Got && !Holds(old(buf), b, k) ==>
        && (forall i :: 0 <= i < NBUF ==> old(buf)[i].Key() != k) && Idle(old(buf)[b])
        && (exists p :: 0 <= p < NBUF && order[p] == b && forall q :: p < q < NBUF ==> !Idle(old(buf)[order[q]]))
        && buf == old(buf)[b := Buf(k.0, k.1, true, true, false, latest[k])]
    {
      hide IsRing, Refines, Unique;
      ghost var buf0 := buf;
      b, out := Bget(k);
      if out != Got {
        return;
      }
      HeldOk(buf0, disk, latest, b);
      HeldOk(buf, disk, latest, b);
      if !buf[b].valid {
        if k in disk { Transfer(buf, disk, latest, b); }
        var panic := Iderw(b);
        if panic {
          out := BadBlock;
          return;
        }
        HeldOk(buf, disk, latest, b);
      }
    }

    /** What the holder of a buffer does to its data. */
    method Write(b: int, data: Block)
      requires Valid() && 0 <= b < NBUF && buf[b].busy && buf[b].valid
      modifies this`buf, this`latest
      ensures Valid() && buf == old(buf)[b := old(buf)[b].(data := data)] && latest == old(latest)[buf[b].Key() := data]
    {
      hide IsRing, Refines, Unique;
      Change(buf, disk, latest, b, data);
      buf := buf[b := buf[b].(data := data)];
      latest := latest[buf[b].Key() := data];
    }

    /** The last line of log_write(): the buffer may not be recycled before it is written. */
    method Pin(b: int)
      requires Valid() && 0 <= b < NBUF && buf[b].busy && buf[b].valid
      modifies this`buf
      ensures Valid() && buf == old(buf)[b := old(buf)[b].(dirty := true)]
    {
      HeldOk(buf, disk, latest, b);
      Relabel(buf, disk, latest, b, buf[b].(dirty := true));
      buf := buf[b := buf[b].(dirty := true)];
    }

    /** bwrite(): the disk gets the latest contents. */
    method Bwrite(b: int) returns (panic: bool)
      requires Valid() && 0 <= b < NBUF && (buf[b].busy ==> buf[b].valid)
      modifies this`buf, this`disk
      ensures panic <==> !old(buf)[b].busy
      ensures panic ==> buf == old(buf) && disk == old(disk)
      ensures !panic ==> Valid() && buf == old(buf)[b := old(buf)[b].(dirty := false)]
      ensures !panic ==> buf[b].Key() in latest && disk == old(disk)[buf[b].Key() := latest[buf[b].Key()]]
    {
      if !buf[b].busy {
        return true;
      }
      HeldOk(buf, disk, latest, b);
      hide IsRing, Refines, Unique;
      Pin(b);
      HeldOk(buf, disk, latest, b);
      Transfer(buf, disk, latest, b);
      panic := Iderw(b);
      assert buf == old(buf)[b := old(buf)[b].(dirty := false)];
    }

    /**
      brelse(): the buffer becomes the most recently used.  The cache still implements its block
      map exactly if the buffer was read and what its holder changed is pinned or written.
     */
    method Brelse(b: int) returns (panic: bool)
      requires Valid() && 0 <= b < NBUF
      modifies this`buf, this`next, this`prev, this`order
      ensures panic <==> !old(buf)[b].busy
      ensures panic ==> Valid() && buf == old(buf) && order == old(order)
      ensures !panic ==> buf == old(buf)[b := old(buf)[b].(busy := false)] && IsRing(next, prev, order)
      ensures !panic ==> (Valid() <==> Settled(old(buf)[b], disk, latest))
      ensures !panic ==> exists p :: 0 <= p < NBUF && old(order)[p] == b && order == [b] + Drop(old(order), p)
    {
      hide Refines, Unique;
      if !buf[b].busy {
        return true;
      }
      ghost var p := OnRing(order, b);
      Unlink(next, prev, order, p);
      prev := prev[next[b] := prev[b]];
      next := next[prev[b] := next[b]];
      ghost var rest := Drop(order, p);
      DropWithout(order, p);
      assert IsRing(next, prev, rest);
      PushFront(next, prev, rest, b);
      next := next[b := next[HEAD]];
      prev := prev[b := HEAD];
      prev := prev[next[HEAD] := b];
      next := next[HEAD := b];
      order := [b] + rest;
      Released(buf, disk, latest, b);
      buf := buf[b := buf[b].(busy := false)];
      panic := false;
    }
  }

  lemma RingNode(next: seq<int>, prev: seq<int>, order: seq<int>, k: int)
    requires IsRing(next, prev, order) && 0 <= k <= |order|
    ensures 0 <= Ring(order, k) <= NBUF && 0 <= Ring(order, k + 1) <= NBUF
    ensures next[Ring(order, k)] == Ring(order, k + 1) && prev[Ring(order, k + 1)] == Ring(order, k)
  {
  }

  lemma RingEnd(order: seq<int>, m: int)
    requires Nodes(order) && 0 <= m <= |order| + 1
    ensures Ring(order, m) == HEAD <==> m == 0 || m == |order| + 1
  {
  }

  /** NBUF distinct buffers on the ring are all the buffers. */
  lemma OnRing(order: seq<int>, i: int) returns (p: int)
    requires Nodes(order) && |order| == NBUF && 0 <= i < NBUF
    ensures 0 <= p < NBUF && order[p] == i
  {
    hide Upto;
    var all, used := Upto(NBUF), set k | k in order;
    OrderSize(order);
    SameSize(used, all);
    assert i in used;
    p :| 0 <= p < NBUF && order[p] == i;
  }

  lemma SameSize(a: set<int>, b: set<int>)
    requires a <= b && |a| == |b|
    ensures a == b
  {
    assert |b| == |a| + |b - a|;
  }

  /** The first n numbers. */
  ghost function Upto(n: nat): (r: set<int>)
    ensures |r| == n && forall k :: k in r <==> 0 <= k < n
  {
    if n == 0 then {} else Upto(n - 1) + {n - 1}
  }

  lemma {:induction false} OrderSize(order: seq<int>)
    requires forall j, k :: 0 <= j < k < |order| ==> order[j] != order[k]
    ensures |set k | k in order| == |order|
  {
    if order == [] {
      assert (set k | k in order) == {};
    } else {
      var last := |order| - 1;
      OrderSize(order[..last]);
      assert (set k | k in order) == (set k | k in order[..last]) + {order[last]};
    }
  }

  lemma DropWithout(order: seq<int>, p: int)
    requires Nodes(order) && 0 <= p < |order|
    ensures order[p] !in Drop(order, p)
  {
  }

  lemma OneHolder(buf: seq<Buf>, b: int, k: Key)
    requires Unique(buf) && Holds(buf, b, k) && k.0 != -1
    ensures forall i :: Holds(buf, i, k) ==> i == b
  {
  }

  lemma MadeBusy(buf: seq<Buf>, disk: Disk, latest: Disk, b: int)
    requires Unique(buf) && Refines(buf, disk, latest) && 0 <= b < |buf|
    ensures Unique(buf[b := buf[b].(busy := true)]) && Refines(buf[b := buf[b].(busy := true)], disk, latest)
  {
    Relabel(buf, disk, latest, b, buf[b].(busy := true));
  }

  lemma Released(buf: seq<Buf>, disk: Disk, latest: Disk, b: int)
    requires Unique(buf) && Refines(buf, disk, latest) && 0 <= b < |buf|
    ensures Unique(buf[b := buf[b].(busy := false)])
    ensures Refines(buf[b := buf[b].(busy := false)], disk, latest) <==> Settled(buf[b], disk, latest)
  {
    hide Refines, Unique;
    var v := buf[b].(busy := false);
    HeldOk(buf, disk, latest, b);
    SameKey(buf, b, v, v.Key());
    if Settled(buf[b], disk, latest) {
      Relabel(buf, disk, latest, b, v);
    }
    if Refines(buf[b := v], disk, latest) {
      HeldOk(buf[b := v], disk, latest, b);
    }
  }

  lemma HeldOk(buf: seq<Buf>, disk: Disk, latest: Disk, b: int)
    requires Refines(buf, disk, latest) && 0 <= b < |buf|
    ensures BufOk(buf[b], disk, latest) && disk.Keys == latest.Keys
  {
  }

  // ---------------------------------------------------------------- running out of buffers

  /** bget() of block k panics: no buffer holds it and none can be recycled. */
  ghost predicate NoneFor(buf: seq<Buf>, k: Key) {
    forall i :: 0 <= i < |buf| ==> buf[i].Key() != k && !Idle(buf[i])
  }

  /** A dirty buffer holds block k. */
  ghost predicate Pinned(buf: seq<Buf>, k: Key) {
    exists i :: Holds(buf, i, k) && buf[i].dirty
  }

  /** The blocks of the dirty ones among the first n buffers. */
  ghost function DirtyKeys(buf: seq<Buf>, n: nat): (r: set<Key>)
    requires n <= |buf|
    ensures |r| <= n
  {
    if n == 0 then {}
    else if buf[n - 1].dirty then DirtyKeys(buf, n - 1) + {buf[n - 1].Key()}
    else DirtyKeys(buf, n - 1)
  }

  lemma {:induction false} DirtyIn(buf: seq<Buf>, n: nat, i: nat)
    requires i < n <= |buf| && buf[i].dirty
    ensures buf[i].Key() in DirtyKeys(buf, n)
  {
    if i < n - 1 { DirtyIn(buf, n - 1, i); }
  }

  lemma {:induction false} DirtyFrom(buf: seq<Buf>, n: nat, k: Key) returns (i: nat)
    requires n <= |buf| && k in DirtyKeys(buf, n)
    ensures i < n && buf[i].dirty && buf[i].Key() == k
  {
    if buf[n - 1].dirty && buf[n - 1].Key() == k {
      i := n - 1;
    } else {
      i := DirtyFrom(buf, n - 1, k);
    }
  }

  /** How many of the first n buffers somebody holds that are not dirty. */
  ghost function HeldCount(buf: seq<Buf>, n: nat): (r: nat)
    requires n <= |buf|
    ensures r <= n
  {
    if n == 0 then 0 else HeldCount(buf, n - 1) + if buf[n - 1].busy && !buf[n - 1].dirty then 1 else 0
  }

  lemma NewKey(buf: seq<Buf>, n: nat)
    requires n < |buf| && Unique(buf) && buf[n].dirty && forall i :: 0 <= i <= n && buf[i].dirty ==> buf[i].dev != -1
    ensures buf[n].Key() !in DirtyKeys(buf, n)
  {
    hide DirtyKeys;
    if buf[n].Key() in DirtyKeys(buf, n) {
      var i := DirtyFrom(buf, n, buf[n].Key());
      assert false;
    }
  }

  /** The first n buffers are all taken exactly if as many are pinned or held. */
  lemma {:induction false} AllTaken(buf: seq<Buf>, n: nat)
    requires n <= |buf| && Unique(buf) && forall i :: 0 <= i < n && buf[i].dirty ==> buf[i].dev != -1
    ensures |DirtyKeys(buf, n)| + HeldCount(buf, n) <= n
    ensures |DirtyKeys(buf, n)| + HeldCount(buf, n) == n <==> forall i :: 0 <= i < n ==> !Idle(buf[i])
  {
    if n > 0 {
      AllTaken(buf, n - 1);
      if buf[n - 1].dirty { NewKey(buf, n - 1); }
      hide Unique;
    }
  }

  lemma PinnedKeys(buf: seq<Buf>, pinned: set<Key>)
    requires forall p :: p in pinned <==> Pinned(buf, p)
    ensures pinned == DirtyKeys(buf, |buf|)
  {
    hide DirtyKeys;
    forall p | p in pinned ensures p in DirtyKeys(buf, |buf|) {
      var i :| Holds(buf, i, p) && buf[i].dirty;
      DirtyIn(buf, |buf|, i);
    }
    forall p | p in DirtyKeys(buf, |buf|) ensures p in pinned {
      var i := DirtyFrom(buf, |buf|, p);
      assert Holds(buf, i, p);
    }
  }

  /**
    bget() of block k panics exactly if no buffer in use holds it and the pinned blocks and the
    other buffers that somebody holds are NBUF together.
   */
  lemma NoBuffersIff(buf: seq<Buf>, pinned: set<Key>, k: Key)
    requires |buf| == NBUF && Unique(buf) && forall i :: 0 <= i < |buf| && buf[i].dirty ==> buf[i].dev != -1
    requires forall p :: p in pinned <==> Pinned(buf, p)
    ensures NoneFor(buf, k) <==>
      |pinned| + HeldCount(buf, NBUF) >= NBUF && forall i :: 0 <= i < |buf| && !Idle(buf[i]) ==> buf[i].Key() != k
  {
    hide DirtyKeys, HeldCount, Unique;
    PinnedKeys(buf, pinned);
    AllTaken(buf, NBUF);
  }
}
