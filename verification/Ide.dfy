/**
  Disk requests: the synchronous driver of memide.c as the specification, and the request queue of
  ide.c, whose interrupts complete requests one by one.  The device itself never fails.
 */
module Ide {
  type Block = seq<int>
  type Key = (int, int) // device, block number

  datatype Buf = Buf(dev: int, blockno: int, busy: bool, valid: bool, dirty: bool, data: Block) {
    function Key(): Key {
      (dev, blockno)
    }

    /** What iderw() waits for. */
    predicate Synced() {
      valid && !dirty
    }
  }

  type Disk = map<Key, Block>

  datatype State = State(disk: Disk, buf: seq<Buf>)

  /** A request iderw() accepts; the others panic. */
  predicate Accepts(s: State, b: int) {
    0 <= b < |s.buf| && s.buf[b].busy && !s.buf[b].Synced() && s.buf[b].Key() in s.disk
  }

  /** iderw() of memide.c: write a dirty buffer, or read. */
  function Sync(s: State, b: int): (t: State)
    requires 0 <= b < |s.buf| && s.buf[b].Key() in s.disk
    ensures |t.buf| == |s.buf| && t.disk.Keys == s.disk.Keys && t.buf[b].Synced() && t.buf[b].Key() == s.buf[b].Key()
    ensures forall c :: 0 <= c < |s.buf| && c != b ==> t.buf[c] == s.buf[c]
  {
    var k := s.buf[b].Key();
    if s.buf[b].dirty then
      State(s.disk[k := s.buf[b].data], s.buf[b := s.buf[b].(dirty := false, valid := true)])
    else
      State(s.disk, s.buf[b := s.buf[b].(data := s.disk[k], valid := true)])
  }

  ghost predicate Requests(s: State, queue: seq<int>) {
    && (forall i :: 0 <= i < |queue| ==>
          0 <= queue[i] < |s.buf| && s.buf[queue[i]].Key() in s.disk && !s.buf[queue[i]].Synced())
    && (forall i, j :: 0 <= i < j < |queue| ==> queue[i] != queue[j])
  }

  /** The requests carried out synchronously, in order. */
  ghost function SyncAll(s: State, queue: seq<int>): (t: State)
    requires Requests(s, queue)
    ensures |t.buf| == |s.buf| && t.disk.Keys == s.disk.Keys
    ensures forall c :: 0 <= c < |s.buf| ==> t.buf[c].Key() == s.buf[c].Key() && (c !in queue ==> t.buf[c] == s.buf[c])
    decreases |queue|
  {
    if queue == [] then s
    else
      var q := queue[..|queue| - 1];
      Sync(SyncAll(s, q), queue[|queue| - 1])
  }

  lemma RequestsTail(s: State, queue: seq<int>)
    requires Requests(s, queue) && queue != []
    ensures 0 <= queue[0] < |s.buf| && s.buf[queue[0]].Key() in s.disk && Requests(Sync(s, queue[0]), queue[1..])
  {
    var q, t := queue[1..], Sync(s, queue[0]);
    hide Sync;
    forall i | 0 <= i < |q| ensures 0 <= q[i] < |t.buf| && t.buf[q[i]] == s.buf[q[i]] {
      assert q[i] == queue[i + 1] != queue[0];
    }
  }

  lemma SyncAllLast(s: State, queue: seq<int>)
    requires Requests(s, queue) && queue != []
    ensures var q, b := queue[..|queue| - 1], queue[|queue| - 1];
      Requests(s, q) && 0 <= b < |s.buf| && SyncAll(s, q).buf[b].Key() in s.disk
        && SyncAll(s, queue) == Sync(SyncAll(s, q), b)
  {
    hide Sync;
  }

  lemma {:induction false} SyncAllFirst(s: State, queue: seq<int>)
    requires Requests(s, queue) && queue != []
    ensures Requests(Sync(s, queue[0]), queue[1..])
    ensures SyncAll(s, queue) == SyncAll(Sync(s, queue[0]), queue[1..])
    decreases |queue|
  {
    hide Sync, SyncAll, Requests;
    RequestsTail(s, queue);
    SyncAllLast(s, queue);
    var last := |queue| - 1;
    var q, t := queue[..last], Sync(s, queue[0]);
    if last == 0 {
      SyncAllNone(s);
      SyncAllNone(t);
      assert q == [] == queue[1..];
    } else {
      SyncAllFirst(s, q);
      SyncAllLast(t, queue[1..]);
      assert q[1..] == queue[1..][..last - 1];
    }
  }

  lemma SyncAllNone(s: State)
    ensures SyncAll(s, []) == s
  {
  }

  /** A driver that has sent the data of the first request already ends in the same state. */
  function Start(s: State, b: int): State
    requires 0 <= b < |s.buf| && s.buf[b].Key() in s.disk
  {
    if s.buf[b].dirty then s.(disk := s.disk[s.buf[b].Key() := s.buf[b].data]) else s
  }

  ghost predicate Started(s: State, queue: seq<int>)
    requires Requests(s, queue)
  {
    queue != [] ==> Start(s, queue[0]) == s
  }

  lemma StartSync(s: State, b: int)
    requires 0 <= b < |s.buf| && s.buf[b].Key() in s.disk
    ensures Sync(Start(s, b), b) == Sync(s, b)
  {
  }

  function With(s: State, c: int, v: Buf): State
    requires 0 <= c < |s.buf|
  {
    s.(buf := s.buf[c := v])
  }

  lemma RequestsOther(s: State, queue: seq<int>, c: int, v: Buf)
    requires Requests(s, queue) && 0 <= c < |s.buf| && c !in queue
    ensures Requests(With(s, c, v), queue) && (Started(s, queue) ==> Started(With(s, c, v), queue))
  {
    forall i | 0 <= i < |queue| ensures queue[i] != c {
    }
  }

  lemma SyncOther(s: State, b: int, c: int, v: Buf)
    requires 0 <= b < |s.buf| && s.buf[b].Key() in s.disk && 0 <= c < |s.buf| && c != b
    ensures Sync(With(s, c, v), b) == With(Sync(s, b), c, v)
  {
  }

  lemma {:induction false} SyncAllOther(s: State, queue: seq<int>, c: int, v: Buf)
    requires Requests(s, queue) && 0 <= c < |s.buf| && c !in queue
    ensures Requests(With(s, c, v), queue) && SyncAll(With(s, c, v), queue) == With(SyncAll(s, queue), c, v)
    decreases |queue|
  {
    hide Sync, SyncAll, Requests, Started, With;
    RequestsOther(s, queue, c, v);
    if queue == [] {
      SyncAllNone(s);
      SyncAllNone(With(s, c, v));
    } else {
      var q, b := queue[..|queue| - 1], queue[|queue| - 1];
      SyncAllLast(s, queue);
      SyncAllLast(With(s, c, v), queue);
      SyncAllOther(s, q, c, v);
      SyncOther(SyncAll(s, q), b, c, v);
    }
  }

  // ---- the queue

  /** queue is linked from head through qnext. */
  ghost predicate Linked(head: int, qnext: seq<int>, queue: seq<int>) {
    && (forall i :: 0 <= i < |queue| ==> 0 <= queue[i] < |qnext|)
    && head == (if queue == [] then -1 else queue[0])
    && (forall i :: 0 <= i < |queue| ==> qnext[queue[i]] == After(queue, i))
  }

  function After(queue: seq<int>, i: int): int
    requires 0 <= i < |queue|
  {
    if i + 1 < |queue| then queue[i + 1] else -1
  }

  lemma LinkedOther(head: int, qnext: seq<int>, queue: seq<int>, b: int)
    requires Linked(head, qnext, queue) && 0 <= b < |qnext| && b !in queue
    ensures Linked(head, qnext[b := -1], queue)
  {
    forall i | 0 <= i < |queue| ensures queue[i] != b {
    }
  }

  lemma LinkedAt(head: int, qnext: seq<int>, queue: seq<int>, k: int)
    requires Linked(head, qnext, queue)
    ensures 0 <= k < |queue| ==> 0 <= queue[k] < |qnext| && qnext[queue[k]] == After(queue, k)
  {
  }

  lemma LinkedEnd(head: int, qnext: seq<int>, queue: seq<int>, k: int)
    requires Linked(head, qnext, queue) && 0 <= k < |queue|
    ensures After(queue, k) == -1 <==> k == |queue| - 1
  {
    if k + 1 < |queue| {
      assert 0 <= queue[k + 1];
    }
  }

  lemma LinkedFirst(qnext: seq<int>, b: int)
    requires 0 <= b < |qnext| && qnext[b] == -1
    ensures Linked(b, qnext, [b])
  {
  }

  lemma LinkedAppend(head: int, qnext: seq<int>, queue: seq<int>, b: int)
    requires Linked(head, qnext, queue) && queue != [] && 0 <= b < |qnext| && b !in queue && qnext[b] == -1
    requires forall i, j :: 0 <= i < j < |queue| ==> queue[i] != queue[j]
    ensures Linked(head, qnext[queue[|queue| - 1] := b], queue + [b])
  {
    var last, q := |queue| - 1, queue + [b];
    var next := qnext[queue[last] := b];
    forall i | 0 <= i < |q| ensures next[q[i]] == After(q, i) {
      if i < last { assert q[i] == queue[i] != queue[last] && qnext[queue[i]] == After(queue, i); }
    }
  }

  lemma LinkedTail(head: int, qnext: seq<int>, queue: seq<int>)
    requires Linked(head, qnext, queue) && queue != []
    ensures head == queue[0] && 0 <= head < |qnext| && Linked(qnext[head], qnext, queue[1..])
  {
    var q := queue[1..];
    assert qnext[head] == After(queue, 0);
    forall i | 0 <= i < |q| ensures qnext[q[i]] == After(q, i) {
      assert q[i] == queue[i + 1] && After(queue, i + 1) == After(q, i);
    }
  }

  /** The buffers are different ones, and each waits for the disk. */
  ghost predicate Waiting(s: State, whole: seq<int>) {
    && (forall i :: 0 <= i < |whole| ==> 0 <= whole[i] < |s.buf| && !s.buf[whole[i]].Synced())
    && (forall i, j :: 0 <= i < j < |whole| ==> whole[i] != whole[j])
  }

  /** The first of these requests is for a block outside the disk. */
  predicate Bad(s: State, stuck: seq<int>) {
    stuck != [] ==> 0 <= stuck[0] < |s.buf| && s.buf[stuck[0]].Key() !in s.disk
  }

  /** The requests in the queue; the first of them has been sent to the device. */
  ghost predicate Queued(s: State, head: int, qnext: seq<int>, queue: seq<int>, stuck: seq<int>) {
    && |qnext| == |s.buf| && Linked(head, qnext, queue + stuck) && Waiting(s, queue + stuck)
    && Requests(s, queue) && Started(s, queue) && Bad(s, stuck) && (stuck != [] ==> queue != [])
  }

  /**
    The queue is cut in two: the requests that will be carried out, and from the first one on that
    is for a block outside the disk, those that will not, since its turn brings a panic.
   */
  class Driver {
    const devs: set<int>           // the disks that are there
    var disk: Disk
    var buf: seq<Buf>
    var qnext: seq<int>
    var idequeue: int              // first queued buffer, or -1
    var active: int                // the buffer the device works on, or -1
    ghost var queue: seq<int>
    ghost var stuck: seq<int>
    ghost var spec: State          // the requests in queue, and those before them, done at once

    ghost function Now(): State
      reads this
    {
      State(disk, buf)
    }

    ghost predicate Valid()
      reads this
    {
      && Queued(Now(), idequeue, qnext, queue, stuck)
      && (forall k :: k in disk ==> k.0 in devs)
      && active == idequeue
      && SyncAll(Now(), queue) == spec
    }

    constructor (devs0: set<int>, d: Disk, bs: seq<Buf>)
      requires forall k :: k in d ==> k.0 in devs0
      ensures Valid() && devs == devs0 && disk == d && buf == bs && queue == stuck == []
    {
      devs := devs0;
      disk, buf, qnext, idequeue, active := d, bs, seq(|bs|, _ => -1), -1, -1;
      queue, stuck, spec := [], [], State(d, bs);
    }

    /** idestart(): a block outside the disk is a panic; the data of a write goes to the device at once. */
    method IdeStart(b: int) returns (panic: bool)
      requires 0 <= b < |buf|
      modifies this`disk, this`active
      ensures panic <==> buf[b].Key() !in old(disk)
      ensures panic ==> disk == old(disk)
      ensures !panic ==> Now() == Start(old(Now()), b) && active == b
    {
      if buf[b].Key() !in disk {
        return true;
      }
      active := b;
      if buf[b].dirty {
        disk := disk[buf[b].Key() := buf[b].data];
      }
      panic := false;
    }

    /** The append loop of iderw(). */
    method Append(b: int, ghost whole: seq<int>)
      requires |qnext| == |buf| && Linked(idequeue, qnext, whole) && 0 <= b < |buf| && b !in whole
      requires forall i, j :: 0 <= i < j < |whole| ==> whole[i] != whole[j]
      modifies this`qnext, this`idequeue
      ensures |qnext| == |buf| && Linked(idequeue, qnext, whole + [b])
      ensures idequeue == if whole == [] then b else whole[0]
    {
      hide Linked;
      LinkedOther(idequeue, qnext, whole, b);
      qnext := qnext[b := -1];
      LinkedHead(idequeue, qnext, whole);
      if idequeue == -1 {
        LinkedFirst(qnext, b);
        idequeue := b;
        assert whole + [b] == [b];
      } else {
        var p := idequeue;
        ghost var k, links := 0, qnext;
        LinkedAt(idequeue, qnext, whole, 0);
        while qnext[p] != -1
          invariant qnext == links && idequeue == old(idequeue)
          invariant 0 <= k < |whole| && p == whole[k] && 0 <= p < |qnext| && qnext[p] == After(whole, k)
          decreases |whole| - k
        {
          LinkedAt(idequeue, qnext, whole, k + 1);
          p := qnext[p];
          k := k + 1;
        }
        LinkedEnd(idequeue, qnext, whole, k);
        LinkedAppend(idequeue, qnext, whole, b);
        qnext := qnext[p := b];
      }
    }

    /**
      iderw() up to its wait: the request is queued, and started if it is the only one.  A block
      outside the disk is a panic at once if nothing is queued before it, and else at its turn.
     */
    method Submit(b: int) returns (panic: bool)
      requires Valid() && 0 <= b < |buf| && b !in queue + stuck
      modifies this
      ensures buf == old(buf) && (panic ==> Now() == old(Now()))
      ensures panic <==>
        !buf[b].busy || buf[b].Synced() || buf[b].dev !in devs || (old(queue) == [] && !old(Accepts(Now(), b)))
      ensures !panic ==> Valid()
      ensures !panic && old(stuck) == [] && old(Accepts(Now(), b)) ==>
        queue == old(queue) + [b] && stuck == [] && Accepts(old(spec), b) && spec == Sync(old(spec), b)
      ensures !panic && !(old(stuck) == [] && old(Accepts(Now(), b))) ==>
        queue == old(queue) && stuck == old(stuck) + [b] && spec == old(spec)
    {
      hide Linked, SyncAll, Sync, Requests, Queued;
      if !buf[b].busy {
        return true;
      }
      if buf[b].Synced() {
        return true;
      }
      if buf[b].dev !in devs {
        return true;
      }
      ghost var s, whole := Now(), queue + stuck;
      QueuedWhole(s, idequeue, qnext, queue, stuck);
      Append(b, whole);
      NotQueued(whole, b);
      if idequeue == b {
        assert whole + [b] == [b];
        panic := IdeStart(b);
        if panic {
          return;
        }
        QueueFirst(s, idequeue, qnext, b);
        queue, spec := [b], Sync(spec, b);
      } else {
        if stuck == [] && buf[b].Key() in disk {
          QueueGood(s, old(idequeue), old(qnext), idequeue, qnext, queue, b);
          queue, spec := queue + [b], Sync(spec, b);
        } else {
          QueueStuck(s, old(idequeue), old(qnext), idequeue, qnext, queue, stuck, b);
          stuck := stuck + [b];
        }
        panic := false;
      }
    }

    /** Anything done meanwhile to a buffer that is not waiting for the disk. */
    method Change(c: int, v: Buf)
      requires Valid() && 0 <= c < |buf| && c !in queue + stuck
      modifies this
      ensures Valid() && disk == old(disk) && buf == old(buf)[c := v] && queue == old(queue) && stuck == old(stuck)
      ensures spec == With(old(spec), c, v)
    {
      hide SyncAll, Sync, Queued;
      QueuedOther(Now(), idequeue, qnext, queue, stuck, c, v);
      SyncAllOther(Now(), queue, c, v);
      buf := buf[c := v];
      spec := With(spec, c, v);
    }

    /**
      ideintr(): the first request is complete and the next one is started; that panics exactly if
      it is for a block outside the disk.  A spurious interrupt does nothing.
     */
    method Interrupt() returns (panic: bool)
      requires Valid()
      modifies this
      ensures panic <==> |old(queue)| == 1 && old(stuck) != []
      ensures !panic ==> Valid() && spec == old(spec) && stuck == old(stuck)
      ensures |buf| == |old(buf)| && (old(queue) == [] ==> Now() == old(Now()) && queue == [])
      ensures old(queue) != [] ==>
        queue == old(queue)[1..] && 0 <= old(queue)[0] < |buf| && buf[old(queue)[0]].Synced()
      ensures forall c :: 0 <= c < |buf| ==> buf[c] == old(buf)[c] || (old(queue) != [] && c == old(queue)[0])
    {
      hide Linked, SyncAll, Sync, Requests, Queued, Start, Waiting, Bad;
      ghost var s := Now();
      QueuedWhole(s, idequeue, qnext, queue, stuck);
      panic := false;
      if idequeue == -1 {
        return;
      }
      var b := idequeue;
      QueueDone(s, idequeue, qnext, queue, stuck);
      idequeue := qnext[b];
      Complete(b);
      queue := queue[1..];
      active := -1;
      QueueNext(Now(), idequeue, qnext, queue, stuck);
      if idequeue != -1 {
        panic := IdeStart(idequeue);
      }
    }

    /** The transfer part of ideintr(). */
    method Complete(b: int)
      requires 0 <= b < |buf| && buf[b].Key() in disk && Start(Now(), b) == Now()
      modifies this`buf
      ensures Now() == Sync(old(Now()), b)
    {
      if !buf[b].dirty {
        buf := buf[b := buf[b].(data := disk[buf[b].Key()])];
      }
      buf := buf[b := buf[b].(valid := true, dirty := false)];
    }
  }

  lemma QueuedWhole(s: State, head: int, qnext: seq<int>, queue: seq<int>, stuck: seq<int>)
    requires Queued(s, head, qnext, queue, stuck)
    ensures var whole := queue + stuck;
      && Linked(head, qnext, whole) && |qnext| == |s.buf| && Requests(s, queue)
      && (forall i, j :: 0 <= i < j < |whole| ==> whole[i] != whole[j])
      && (whole == [] <==> queue == []) && (head == -1 <==> whole == [])
  {
  }

  lemma QueueFirst(s: State, head: int, qnext: seq<int>, b: int)
    requires Accepts(s, b) && Linked(head, qnext, [b]) && |qnext| == |s.buf| && Requests(s, [])
    ensures Queued(Start(s, b), head, qnext, [b], []) && SyncAll(Start(s, b), [b]) == Sync(SyncAll(s, []), b)
    ensures Start(s, b).disk.Keys == s.disk.Keys && Start(s, b).buf == s.buf && Accepts(SyncAll(s, []), b)
  {
    assert [] + [b] == [b] == [b] + [];
    SubmitSpec(s, [], b);
    StartedEarly(s, [b]);
    hide Sync, SyncAll;
  }

  lemma QueueGood(s: State, head: int, qnext: seq<int>, head': int, qnext': seq<int>, queue: seq<int>, b: int)
    requires Queued(s, head, qnext, queue, []) && Accepts(s, b) && b !in queue && queue != []
    requires Linked(head', qnext', queue + [] + [b]) && |qnext'| == |s.buf|
    ensures Queued(s, head', qnext', queue + [b], []) && Accepts(SyncAll(s, queue), b)
    ensures Requests(s, queue + [b]) && SyncAll(s, queue + [b]) == Sync(SyncAll(s, queue), b)
  {
    assert queue + [] == queue && queue + [b] + [] == queue + [b];
    SubmitSpec(s, queue, b);
    WaitingMore(s, queue, b);
    StartedStays(s, queue, queue + [b]);
    hide Sync, SyncAll, Linked, Start;
  }

  lemma QueueStuck(s: State, head: int, qnext: seq<int>, head': int, qnext': seq<int>, queue: seq<int>, stuck: seq<int>,
                   b: int)
    requires Queued(s, head, qnext, queue, stuck) && queue != [] && b !in queue + stuck
    requires 0 <= b < |s.buf| && !s.buf[b].Synced() && (stuck == [] ==> s.buf[b].Key() !in s.disk)
    requires Linked(head', qnext', queue + stuck + [b]) && |qnext'| == |s.buf|
    ensures Queued(s, head', qnext', queue, stuck + [b])
  {
    assert queue + (stuck + [b]) == queue + stuck + [b];
    WaitingMore(s, queue + stuck, b);
    hide Linked, Start, Requests;
  }

  lemma QueuedOther(s: State, head: int, qnext: seq<int>, queue: seq<int>, stuck: seq<int>, c: int, v: Buf)
    requires Queued(s, head, qnext, queue, stuck) && 0 <= c < |s.buf| && c !in queue + stuck
    ensures Queued(With(s, c, v), head, qnext, queue, stuck) && Requests(s, queue) && c !in queue
  {
    RequestsOther(s, queue, c, v);
    forall i | 0 <= i < |queue + stuck| ensures (queue + stuck)[i] != c {
    }
    assert stuck != [] ==> stuck[0] == (queue + stuck)[|queue|];
    hide Linked, Start, Requests;
  }

  /** The first request is done, and the others go on waiting ... */
  lemma QueueDone(s: State, head: int, qnext: seq<int>, queue: seq<int>, stuck: seq<int>)
    requires Queued(s, head, qnext, queue, stuck) && queue != []
    ensures head == queue[0] && 0 <= head < |s.buf| == |qnext| && s.buf[head].Key() in s.disk && Start(s, head) == s
    ensures var t, q, next := Sync(s, head), queue[1..], qnext[head];
      && Requests(t, q) && SyncAll(t, q) == SyncAll(s, queue)
      && Linked(next, qnext, q + stuck) && Waiting(t, q + stuck) && Bad(t, stuck)
  {
    hide Linked, SyncAll, Waiting, Sync, Requests, Bad, Start, Started;
    var whole, q := queue + stuck, queue[1..];
    assert whole[0] == queue[0] && whole[1..] == q + stuck;
    LinkedTail(head, qnext, whole);
    FirstRequest(s, queue);
    SyncAllFirst(s, queue);
    WaitingTail(s, queue, stuck);
  }

  /** ... then the next one is started, unless it is a bad one. */
  lemma QueueNext(t: State, next: int, qnext: seq<int>, q: seq<int>, stuck: seq<int>)
    requires Requests(t, q) && Linked(next, qnext, q + stuck) && Waiting(t, q + stuck) && Bad(t, stuck)
    requires |qnext| == |t.buf|
    ensures next == -1 <==> q == [] && stuck == []
    ensures next != -1 ==> 0 <= next < |t.buf| && (t.buf[next].Key() in t.disk <==> q != [])
    ensures q != [] ==>
      var u := Start(t, next);
      Queued(u, next, qnext, q, stuck) && u.buf == t.buf && SyncAll(u, q) == SyncAll(t, q) && u.disk.Keys == t.disk.Keys
    ensures next == -1 ==> Queued(t, next, qnext, q, stuck)
  {
    LinkedHead(next, qnext, q + stuck);
    hide Linked, SyncAll, Waiting, Sync;
    if q != [] {
      assert (q + stuck)[0] == q[0];
      FirstRequest(t, q);
      StartedEarly(t, q);
      StartWaiting(t, q + stuck, next);
    } else {
      assert q + stuck == stuck;
    }
  }

  lemma WaitingMore(s: State, whole: seq<int>, b: int)
    requires Waiting(s, whole) && 0 <= b < |s.buf| && b !in whole && !s.buf[b].Synced()
    ensures Waiting(s, whole + [b])
  {
  }

  /** Starting a request leaves the buffers as they are and the blocks where they are. */
  lemma StartWaiting(s: State, whole: seq<int>, b: int)
    requires Waiting(s, whole) && 0 <= b < |s.buf| && s.buf[b].Key() in s.disk
    ensures Waiting(Start(s, b), whole) && Start(s, b).buf == s.buf && Start(s, b).disk.Keys == s.disk.Keys
  {
  }

  /** The requests behind the first still wait when it is done. */
  lemma WaitingTail(s: State, queue: seq<int>, stuck: seq<int>)
    requires Requests(s, queue) && queue != [] && Waiting(s, queue + stuck) && Bad(s, stuck)
    ensures 0 <= queue[0] < |s.buf| && s.buf[queue[0]].Key() in s.disk
    ensures Waiting(Sync(s, queue[0]), queue[1..] + stuck) && Bad(Sync(s, queue[0]), stuck)
  {
    var whole, rest := queue + stuck, queue[1..] + stuck;
    assert forall i :: 0 <= i < |rest| ==> rest[i] == whole[i + 1] && whole[i + 1] != whole[0];
    assert stuck != [] ==> stuck[0] == whole[|queue|] && whole[|queue|] != whole[0];
    hide Sync;
  }

  lemma LinkedHead(head: int, qnext: seq<int>, queue: seq<int>)
    requires Linked(head, qnext, queue)
    ensures head == (if queue == [] then -1 else queue[0]) && (queue != [] ==> 0 <= head < |qnext|)
  {
  }

  lemma NotQueued(queue: seq<int>, b: int)
    requires b !in queue
    ensures queue != [] ==> queue[0] != b
  {
  }

  lemma StartedStays(s: State, queue: seq<int>, queue': seq<int>)
    requires Requests(s, queue) && Requests(s, queue') && Started(s, queue) && queue != [] && queue' != []
    requires queue'[0] == queue[0]
    ensures Started(s, queue')
  {
  }

  lemma FirstRequest(s: State, queue: seq<int>)
    requires Requests(s, queue) && queue != []
    ensures 0 <= queue[0] < |s.buf| && s.buf[queue[0]].Key() in s.disk
    ensures Started(s, queue) ==> Start(s, queue[0]) == s
    ensures Start(s, queue[0]).buf == s.buf
  {
  }

  lemma SubmitSpec(s: State, queue: seq<int>, b: int)
    requires Requests(s, queue) && Accepts(s, b) && b !in queue
    ensures Requests(s, queue + [b]) && Accepts(SyncAll(s, queue), b)
    ensures SyncAll(s, queue + [b]) == Sync(SyncAll(s, queue), b)
  {
    assert (queue + [b])[..|queue|] == queue;
  }

  /** Sending the first request's data early changes no outcome. */
  lemma StartedEarly(s: State, queue: seq<int>)
    requires Requests(s, queue) && queue != []
    ensures Requests(Start(s, queue[0]), queue) && SyncAll(Start(s, queue[0]), queue) == SyncAll(s, queue)
    ensures Started(Start(s, queue[0]), queue)
  {
    StartSync(s, queue[0]);
    SyncAllFirst(s, queue);
    SyncAllFirst(Start(s, queue[0]), queue);
  }

  /** A request whose turn is over has the result the synchronous driver gives it. */
  lemma DoneIsSynchronous(s: State, queue: seq<int>, b: int)
    requires Requests(s, queue) && 0 <= b < |s.buf|
    ensures b !in queue ==> SyncAll(s, queue).buf[b] == s.buf[b]
    ensures s.buf[b].Synced() ==> b !in queue
    ensures queue == [] ==> SyncAll(s, queue) == s
  {
  }
}
