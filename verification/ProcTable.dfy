/**
  proc.c as it is written: heads, tails and the shared `next` links are updated in place, and
  every search walks the links.  Each method is proved against the operation of the same
  name in Scheduler, and no panic of changeState, assertState or assertPrio is reachable.
 */
module ProcTable {
  import opened Sequences
  import opened StateLists
  import opened Scheduler
  import Accounts

  // ---------------------------------------------------------------- the twelve lists share `next`

  lemma RepAdd(head: seq<int>, tail: seq<int>, next: seq<int>, lists: seq<seq<int>>, l: int, p: int)
    requires Rep(head, tail, next, lists) && IsLid(l) && IsSlot(p)
    requires forall m :: 0 <= m < NLISTS ==> p !in lists[m]
    ensures lists[l] == [] ==>
              Rep(head[l := p], tail[l := p], next[p := -1], lists[l := [p]])
    ensures lists[l] != [] ==>
              IsSlot(tail[l]) && Rep(head, tail[l := p], next[tail[l] := p][p := -1], lists[l := lists[l] + [p]])
  {
    var s, t := lists[l], tail[l];
    ListAppend(head[l], t, next, s, p);
    var next' := if s == [] then next[p := -1] else next[t := p][p := -1];
    assert s != [] ==> t in s;
    var lists' := lists[l := s + [p]];
    forall m | 0 <= m < NLISTS && m != l ensures IsList(head[m], tail[m], next', lists[m]) {
      assert Apart(s, lists[m]);
      if s == [] {
        ListFrame(head[m], tail[m], next, lists[m], p, -1);
      } else {
        ListFrame(head[m], tail[m], next, lists[m], t, p);
        ListFrame(head[m], tail[m], next[t := p], lists[m], p, -1);
      }
    }
    forall a, b | 0 <= a < NLISTS && 0 <= b < NLISTS && a != b ensures Apart(lists'[a], lists'[b]) {
      assert Apart(lists[a], lists[b]);
    }
    assert s == [] ==> s + [p] == [p];
    hide IsList, Apart;
  }

  /** One list and its links replaced, the other lists untouched. */
  lemma RepReplace(head: seq<int>, tail: seq<int>, next: seq<int>, lists: seq<seq<int>>,
                   l: int, h: int, t: int, next': seq<int>, s: seq<int>)
    requires Rep(head, tail, next, lists) && IsLid(l) && |next'| == NPROC
    requires IsList(h, t, next', s) && forall q :: q in s ==> q in lists[l]
    requires forall m :: 0 <= m < NLISTS && m != l ==> IsList(head[m], tail[m], next', lists[m])
    ensures Rep(head[l := h], tail[l := t], next', lists[l := s])
  {
    hide IsList;
    var r := lists[l := s];
    forall a, b | 0 <= a < NLISTS && 0 <= b < NLISTS && a != b ensures Apart(r[a], r[b]) {
      assert Apart(lists[a], lists[b]);
    }
  }

  lemma RepRemoveHead(head: seq<int>, tail: seq<int>, next: seq<int>, lists: seq<seq<int>>, l: int)
    requires Rep(head, tail, next, lists) && IsLid(l) && |lists| == NLISTS && lists[l] != []
    ensures |head| == |tail| == NLISTS && |next| == NPROC && IsSlot(head[l])
    ensures Rep(head[l := next[head[l]]], tail, next, lists[l := lists[l][1..]])
  {
    var s := lists[l];
    assert IsList(head[l], tail[l], next, s);
    assert tail[l := tail[l]] == tail;
    ListUnlinkHead(head[l], tail[l], next, s);
    assert IsSlot(head[l]);
    hide IsList;
    RepReplace(head, tail, next, lists, l, next[head[l]], tail[l], next, s[1..]);
  }

  /** The links after removing the k-th node, not the first, of list l. */
  lemma RepRemove(head: seq<int>, tail: seq<int>, next: seq<int>, lists: seq<seq<int>>, l: int, k: nat, v: int)
    requires Rep(head, tail, next, lists) && IsLid(l) && |lists| == NLISTS && 0 < k < |lists[l]|
    requires |next| == NPROC && IsSlot(lists[l][k]) && IsSlot(lists[l][k - 1])
    requires v == if k == |lists[l]| - 1 then -1 else next[lists[l][k]]
    ensures |head| == |tail| == NLISTS
    ensures var s := lists[l];
      Rep(head, if k == |s| - 1 then tail[l := s[k - 1]] else tail,
          next[s[k - 1] := v][s[k] := -1], lists[l := s[..k] + s[k + 1..]])
  {
    var s := lists[l];
    var s' := s[..k] + s[k + 1..];
    var next' := next[s[k - 1] := v][s[k] := -1];
    assert IsList(head[l], tail[l], next, s);
    assert head[l := head[l]] == head && tail[l := tail[l]] == tail;
    ListUnlink(head[l], tail[l], next, s, k);
    assert k == |s| - 1 ==> s' == s[..k];
    hide IsList;
    forall m | 0 <= m < NLISTS && m != l ensures IsList(head[m], tail[m], next', lists[m]) {
      assert Apart(s, lists[m]);
      assert s[k] in s && s[k - 1] in s;
      ListFrame(head[m], tail[m], next, lists[m], s[k - 1], v);
      ListFrame(head[m], tail[m], next[s[k - 1] := v], lists[m], s[k], -1);
    }
    RepReplace(head, tail, next, lists, l, head[l], if k == |s| - 1 then s[k - 1] else tail[l], next', s');
  }

  /** A removed process is on no list. */
  lemma RemovedNowhere(lists: seq<seq<int>>, l: int, p: int, after: seq<seq<int>>)
    requires |lists| == NLISTS && IsLid(l) && p in lists[l] && Distinct(lists[l])
    requires after == lists[l := Without(lists[l], p)]
    requires forall a, b :: 0 <= a < NLISTS && 0 <= b < NLISTS && a != b ==> Apart(lists[a], lists[b])
    ensures forall m :: 0 <= m < NLISTS ==> p !in after[m]
  {
    WithoutMembers(lists[l], p);
    assert forall m :: 0 <= m < NLISTS && m != l ==> Apart(lists[l], lists[m]);
  }

  lemma WalkStart(head: seq<int>, tail: seq<int>, next: seq<int>, lists: seq<seq<int>>, l: int)
    requires Rep(head, tail, next, lists) && IsLid(l)
    ensures |head| == |lists| == NLISTS && |next| == NPROC
    ensures head[l] == if lists[l] != [] then lists[l][0] else -1
    ensures head[l] == -1 <==> lists[l] == []
  {
    assert IsList(head[l], tail[l], next, lists[l]);
  }

  lemma OnlyLast(s: seq<int>, k: nat)
    requires Distinct(s) && k < |s|
    ensures s[k] == s[|s| - 1] ==> k == |s| - 1
  {
  }

  lemma WalkEnd(head: seq<int>, tail: seq<int>, next: seq<int>, lists: seq<seq<int>>, l: int)
    requires Rep(head, tail, next, lists) && IsLid(l)
    ensures |tail| == |lists| == NLISTS && Distinct(lists[l])
    ensures lists[l] != [] ==> tail[l] == lists[l][|lists[l]| - 1] && IsSlot(tail[l]) && IsSlot(lists[l][0])
  {
    assert IsList(head[l], tail[l], next, lists[l]);
  }

  /** Following the link of the k-th node of list l. */
  lemma Walk(head: seq<int>, tail: seq<int>, next: seq<int>, lists: seq<seq<int>>, l: int, k: nat)
    requires Rep(head, tail, next, lists) && IsLid(l) && |lists| == NLISTS && k < |lists[l]|
    ensures |next| == NPROC && IsSlot(lists[l][k])
    ensures next[lists[l][k]] == if k + 1 < |lists[l]| then lists[l][k + 1] else -1
  {
    assert IsList(head[l], tail[l], next, lists[l]);
  }

  lemma {:induction false} FirstAt(s: seq<int>, procs: seq<Proc>, f: Proc -> bool, k: nat)
    requires k < |s| && (forall i :: 0 <= i < |s| ==> 0 <= s[i] < |procs|)
    requires f(procs[s[k]]) && forall j :: 0 <= j < k ==> !f(procs[s[j]])
    ensures First(s, procs, f) == s[k]
  {
    if k > 0 {
      FirstAt(s[1..], procs, f, k - 1);
    }
  }

  /** Taking the head of the free list and giving it back rotates the free list. */
  lemma AllocUndone(T: Table, p: int)
    requires Inv(T) && IsSlot(p) && T.lists[FREE] != [] && T.lists[FREE][0] == p
    ensures var q := T.procs[p].(state := StateOf(EMBRYO), pid := T.nextpid);
      var U := Move(T, p, FREE, EMBRYO).(procs := T.procs[p := q], nextpid := T.nextpid + 1);
      && p in U.lists[EMBRYO] && Inv(Move(U, p, EMBRYO, FREE))
      && Move(U, p, EMBRYO, FREE).lists == T.lists[FREE := T.lists[FREE][1..] + [p]]
  {
    var q := T.procs[p].(state := StateOf(EMBRYO), pid := T.nextpid);
    var U := Move(T, p, FREE, EMBRYO).(procs := T.procs[p := q], nextpid := T.nextpid + 1);
    var e := T.lists[EMBRYO];
    InList(T, FREE, p);
    assert p !in e by { assert Apart(T.lists[FREE], e); }
    assert Distinct(e + [p]);
    WithoutAt(e + [p], |e|);
    assert (e + [p])[..|e|] + (e + [p])[|e| + 1..] == e;
    assert T.lists[EMBRYO := e] == T.lists;
    var V := T.(procs := T.procs[p := T.procs[p].(pid := T.nextpid)], nextpid := T.nextpid + 1);
    assert T.procs[p].state == StateOf(FREE);
    hide Partition, PrioOk;
    ProcsInv(T, V.procs);
    InvFrame(T.(procs := V.procs), V);
    MoveInv(V, p, FREE, FREE);
    assert Move(V, p, FREE, FREE).lists == Move(U, p, EMBRYO, FREE).lists;
    assert Move(V, p, FREE, FREE).procs == Move(U, p, EMBRYO, FREE).procs;
  }

  lemma {:induction false} FirstConcat(a: seq<int>, b: seq<int>, procs: seq<Proc>, f: Proc -> bool)
    requires forall i :: 0 <= i < |a| ==> 0 <= a[i] < |procs|
    requires forall i :: 0 <= i < |b| ==> 0 <= b[i] < |procs|
    ensures forall i :: 0 <= i < |a + b| ==> 0 <= (a + b)[i] < |procs|
    ensures First(a + b, procs, f) == if First(a, procs, f) != -1 then First(a, procs, f) else First(b, procs, f)
  {
    if a == [] {
      assert a + b == b;
    } else {
      assert (a + b)[1..] == a[1..] + b;
      FirstConcat(a[1..], b, procs, f);
    }
  }

  /** With no sleeper, every process with the pid is marked, one after the other. */
  lemma KillMarks(T: Table, s: seq<int>, k: nat, pid: int, procs: seq<Proc>)
    requires Slots(T) && AllSlots(s) && k < |s| && T.lists[SLEEP] == [] && |procs| == NPROC
    requires AllSlots(s[..k]) && KillScan(T, s[..k], pid) == (T.(procs := procs), -1)
    ensures AllSlots(s[..k + 1])
    ensures KillScan(T, s[..k + 1], pid) ==
      (T.(procs := if procs[s[k]].pid == pid then procs[s[k] := procs[s[k]].(killed := true)] else procs), -1)
  {
    assert s[..k + 1] == s[..k] + [s[k]];
    var r := KillScan(T, s[..k + 1], pid).0.procs;
    var e := if procs[s[k]].pid == pid then procs[s[k] := procs[s[k]].(killed := true)] else procs;
    forall p | 0 <= p < NPROC ensures r[p] == e[p] {
      assert p in s[..k + 1] <==> p in s[..k] || p == s[k];
    }
    assert r == e;
  }

  lemma KilledPartition(T: Table, p: int)
    requires Partition(T) && IsSlot(p)
    ensures |T.procs| == NPROC && Partition(T.(procs := T.procs[p := T.procs[p].(killed := true)]))
  {
    hide Distinct, Apart, OnSomeList;
  }

  /** killSearchAll has passed the first k processes of s and continues with the fields procs. */
  ghost predicate KillPassed(T: Table, s: seq<int>, k: int, pid: int, procs: seq<Proc>)
    requires Slots(T) && AllSlots(s)
  {
    && 0 <= k <= |s| && |procs| == NPROC
    && (T.lists[SLEEP] == [] ==> KillScan(T, s[..k], pid) == (T.(procs := procs), -1))
    && (T.lists[SLEEP] != [] ==> procs == T.procs && forall j :: 0 <= j < k ==> procs[s[j]].pid != pid)
  }

  lemma KillPasses(T: Table, s: seq<int>, k: int, pid: int, procs: seq<Proc>)
    requires Slots(T) && AllSlots(s) && KillPassed(T, s, k, pid, procs) && k < |s| && IsSlot(s[k])
    ensures |procs| == NPROC
    ensures procs[s[k]].pid != pid ==> KillPassed(T, s, k + 1, pid, procs)
    ensures procs[s[k]].pid == pid && T.lists[SLEEP] == [] ==>
              KillPassed(T, s, k + 1, pid, procs[s[k] := procs[s[k]].(killed := true)])
    ensures procs[s[k]].pid == pid && T.lists[SLEEP] != [] ==>
              procs == T.procs &&
              var U := T.(procs := T.procs[s[k] := T.procs[s[k]].(killed := true)]);
              KillScan(T, s, pid) == (if s[k] == T.lists[SLEEP][0] then Move(U, s[k], SLEEP, 0) else U, 0)
  {
    hide KillScan, Move;
    if T.lists[SLEEP] == [] {
      KillMarks(T, s, k, pid, procs);
    } else if procs[s[k]].pid == pid {
      KillFinds(T, s, k, pid);
    }
  }

  lemma KillFinds(T: Table, s: seq<int>, k: nat, pid: int)
    requires Slots(T) && AllSlots(s) && k < |s| && T.lists[SLEEP] != []
    requires T.procs[s[k]].pid == pid && forall j :: 0 <= j < k ==> T.procs[s[j]].pid != pid
    ensures var U := T.(procs := T.procs[s[k] := T.procs[s[k]].(killed := true)]);
      KillScan(T, s, pid) == (if s[k] == T.lists[SLEEP][0] then Move(U, s[k], SLEEP, 0) else U, 0)
  {
    FirstAt(s, T.procs, (q: Proc) => q.pid == pid, k);
    hide Move;
  }

  lemma KillPassedEnds(T: Table, s: seq<int>, pid: int, procs: seq<Proc>)
    requires Slots(T) && AllSlots(s)
    ensures KillPassed(T, s, 0, pid, T.procs)
    ensures KillPassed(T, s, |s|, pid, procs) ==> KillScan(T, s, pid) == (T.(procs := procs), -1)
  {
    assert s[..|s|] == s && s[..0] == [];
    if T.lists[SLEEP] == [] {
      assert KillScan(T, [], pid).0.procs == T.procs;
    }
  }

  /** Searching a and then b is searching a + b. */
  lemma KillScanConcat(T: Table, a: seq<int>, b: seq<int>, pid: int)
    requires Slots(T) && AllSlots(a) && AllSlots(b)
    ensures AllSlots(a + b)
    ensures var r := KillScan(T, a, pid);
      && (r.1 != -1 ==> KillScan(T, a + b, pid) == r)
      && (r.1 == -1 ==> Slots(r.0) && r.0.lists == T.lists && KillScan(r.0, b, pid) == KillScan(T, a + b, pid))
  {
    var f := (q: Proc) => q.pid == pid;
    var r := KillScan(T, a, pid);
    if T.lists[SLEEP] == [] {
      var x, y := KillScan(r.0, b, pid).0, KillScan(T, a + b, pid).0;
      assert forall p :: p in a + b <==> p in a || p in b;
      assert x.procs == y.procs;
    } else {
      FirstConcat(a, b, T.procs, f);
    }
  }

  lemma TableSlots(T: Table)
    requires Partition(T)
    ensures Slots(T) && Sized(T) && forall l :: 0 <= l < NLISTS ==> AllSlots(T.lists[l])
  {
    PartitionSlots(T);
  }

  lemma PrefixSteps(lists: seq<seq<int>>, i: int)
    requires |lists| == NLISTS && 0 <= i <= MAXPRIO
    ensures ScanPrefix(lists, 0) == lists[EMBRYO]
    ensures ScanPrefix(lists, i + 1) == ScanPrefix(lists, i) + lists[i]
  {
  }

  lemma ReparentIs(T: Table, me: int, init: int)
    requires Slots(T) && Inv(T)
    ensures Sized(T) && PrioRange(T)
    ensures var order := ScanPrefix(T.lists, MAXPRIO + 1) + T.lists[SLEEP] + T.lists[RUNNING] + T.lists[ZOMBIE];
      AllSlots(order) && Reparent(T, me, init) == ReparentScan(T, order, me, init).0
  {
    ScanSlots(T);
    hide ReparentScan, ScanPrefix, Partition;
  }

  lemma KillIs(T: Table, pid: int)
    requires Slots(T) && Sized(T)
    ensures var order := ScanPrefix(T.lists, MAXPRIO + 1) + T.lists[SLEEP] + T.lists[RUNNING] + T.lists[ZOMBIE];
      AllSlots(order) && Scheduler.Kill(T, pid) == KillScan(T, order, pid)
  {
    ScanSlots(T);
    hide KillScan, ScanPrefix;
  }

  ghost predicate ChildIn(procs: seq<Proc>, s: seq<int>, me: int) {
    exists i :: 0 <= i < |s| && 0 <= s[i] < |procs| && procs[s[i]].parent == me
  }

  /** waitSearchAll has passed the first k processes of list l. */
  ghost predicate WaitPassed(T: Table, l: int, k: int, me: int, kids: bool, havekids: bool)
    requires Slots(T) && IsLid(l)
  {
    && 0 <= k <= |T.lists[l]|
    && (havekids <==> kids || ChildIn(T.procs, T.lists[l][..k], me))
    && (l == ZOMBIE ==> forall j :: 0 <= j < k ==> T.procs[T.lists[l][j]].parent != me)
  }

  lemma WaitPasses(T: Table, l: int, k: int, me: int, kids: bool, havekids: bool)
    requires Slots(T) && Partition(T) && IsLid(l) && WaitPassed(T, l, k, me, kids, havekids) && k < |T.lists[l]|
    ensures IsSlot(T.lists[l][k]) && (T.lists[l][k] in T.lists[ZOMBIE] <==> l == ZOMBIE)
    ensures T.procs[T.lists[l][k]].parent != me ==> WaitPassed(T, l, k + 1, me, kids, havekids)
    ensures T.procs[T.lists[l][k]].parent == me && l != ZOMBIE ==> WaitPassed(T, l, k + 1, me, kids, true)
    ensures T.procs[T.lists[l][k]].parent == me && l == ZOMBIE ==>
              ChildIn(T.procs, T.lists[l], me) &&
              var p := T.lists[l][k];
              var q := T.procs[p].(pid := 0, parent := -1, killed := false);
              Reap(T, me) == (Move(T.(procs := T.procs[p := q]), p, ZOMBIE, FREE), T.procs[p].pid)
  {
    var s := T.lists[l];
    assert s[k] in s;
    assert l != ZOMBIE ==> Apart(s, T.lists[ZOMBIE]);
    hide Partition;
    assert s[..k + 1] == s[..k] + [s[k]];
    assert ChildIn(T.procs, s[..k + 1], me) <==> ChildIn(T.procs, s[..k], me) || T.procs[s[k]].parent == me by {
      ChildSnoc(T.procs, s[..k], s[k], me);
    }
    if l == ZOMBIE && T.procs[s[k]].parent == me {
      FirstAt(s, T.procs, (q: Proc) => q.parent == me, k);
    }
  }

  lemma ChildSnoc(procs: seq<Proc>, s: seq<int>, p: int, me: int)
    requires 0 <= p < |procs|
    ensures ChildIn(procs, s + [p], me) <==> ChildIn(procs, s, me) || procs[p].parent == me
  {
    var t := s + [p];
    if ChildIn(procs, s, me) {
      var i :| 0 <= i < |s| && 0 <= s[i] < |procs| && procs[s[i]].parent == me;
      assert t[i] == s[i];
    }
    assert t[|s|] == p;
  }

  lemma WaitPassedEnds(T: Table, l: int, me: int, kids: bool, havekids: bool)
    requires Slots(T) && IsLid(l)
    ensures WaitPassed(T, l, 0, me, kids, kids)
    ensures WaitPassed(T, l, |T.lists[l]|, me, kids, havekids) ==>
              (havekids <==> kids || ChildIn(T.procs, T.lists[l], me)) && (l == ZOMBIE ==> Reap(T, me) == (T, -1))
  {
    var s := T.lists[l];
    assert s[..|s|] == s && s[..0] == [];
  }

  /** A process has a child exactly if one is found on the lists that wait() searches. */
  lemma ChildSomewhere(T: Table, me: int)
    requires Inv(T) && Slots(T) && Sized(T) && me != -1
    ensures (exists p :: IsSlot(p) && T.procs[p].parent == me) <==>
            || ChildIn(T.procs, T.lists[EMBRYO], me)
            || (exists j :: 0 <= j < MAXPRIO + 1 && ChildIn(T.procs, T.lists[j], me))
            || ChildIn(T.procs, T.lists[SLEEP], me) || ChildIn(T.procs, T.lists[RUNNING], me)
            || ChildIn(T.procs, T.lists[ZOMBIE], me)
  {
    if p :| IsSlot(p) && T.procs[p].parent == me {
      assert OnSomeList(T.lists, p);
      var l := FindList(T, p);
      InList(T, l, p);
      assert l != FREE;
      var i :| 0 <= i < |T.lists[l]| && T.lists[l][i] == p;
      assert ChildIn(T.procs, T.lists[l], me);
    }
    hide Partition, PrioOk;
  }

  lemma ReapedProcs(T: Table, p: int, procs: seq<Proc>)
    requires Sized(T) && IsSlot(p)
    requires procs == Move(T, p, ZOMBIE, FREE).procs
      [p := Move(T, p, ZOMBIE, FREE).procs[p].(pid := 0)]
      [p := Move(T, p, ZOMBIE, FREE).procs[p].(pid := 0, parent := -1)]
      [p := Move(T, p, ZOMBIE, FREE).procs[p].(pid := 0, parent := -1, killed := false)]
    ensures procs ==
      Move(T.(procs := T.procs[p := T.procs[p].(pid := 0, parent := -1, killed := false)]), p, ZOMBIE, FREE).procs
    ensures Move(T, p, ZOMBIE, FREE).(procs := procs) ==
            Move(T.(procs := T.procs[p := T.procs[p].(pid := 0, parent := -1, killed := false)]), p, ZOMBIE, FREE)
  {
  }

  ghost predicate PrioRange(T: Table)
    requires Sized(T)
  {
    forall p :: IsSlot(p) ==> 0 <= T.procs[p].priority <= MAXPRIO
  }

  /** exitSearchAll has passed the first k processes of s and continues with the fields procs. */
  ghost predicate ExitPassed(T: Table, s: seq<int>, k: int, me: int, init: int, procs: seq<Proc>)
    requires Slots(T) && AllSlots(s) && PrioRange(T)
  {
    && 0 <= k <= |s| && |procs| == NPROC
    && (T.lists[ZOMBIE] == [] ==> ReparentScan(T, s[..k], me, init) == (T.(procs := procs), false))
    && (T.lists[ZOMBIE] != [] ==> procs == T.procs && forall j :: 0 <= j < k ==> procs[s[j]].parent != me)
  }

  lemma ExitMarks(T: Table, s: seq<int>, k: nat, me: int, init: int, procs: seq<Proc>)
    requires Slots(T) && AllSlots(s) && PrioRange(T) && k < |s| && T.lists[ZOMBIE] == [] && |procs| == NPROC
    requires me != init
    requires AllSlots(s[..k]) && ReparentScan(T, s[..k], me, init) == (T.(procs := procs), false)
    ensures AllSlots(s[..k + 1])
    ensures ReparentScan(T, s[..k + 1], me, init) ==
      (T.(procs := if procs[s[k]].parent == me then procs[s[k] := procs[s[k]].(parent := init)] else procs), false)
  {
    assert s[..k + 1] == s[..k] + [s[k]];
    var r := ReparentScan(T, s[..k + 1], me, init).0.procs;
    var e := if procs[s[k]].parent == me then procs[s[k] := procs[s[k]].(parent := init)] else procs;
    forall p | 0 <= p < NPROC ensures r[p] == e[p] {
      assert p in s[..k + 1] <==> p in s[..k] || p == s[k];
    }
    assert r == e;
  }

  lemma ExitFinds(T: Table, s: seq<int>, k: nat, me: int, init: int)
    requires Slots(T) && AllSlots(s) && PrioRange(T) && k < |s| && T.lists[ZOMBIE] != []
    requires T.procs[s[k]].parent == me && forall j :: 0 <= j < k ==> T.procs[s[j]].parent != me
    ensures var U := T.(procs := T.procs[s[k] := T.procs[s[k]].(parent := init)]);
      Slots(U) && PrioRange(U) &&
      ReparentScan(T, s, me, init) == (if s[k] == T.lists[ZOMBIE][0] then Wakeup(U, init) else U, true)
  {
    FirstAt(s, T.procs, (q: Proc) => q.parent == me, k);
    hide Wakeup;
  }

  lemma ExitPasses(T: Table, s: seq<int>, k: int, me: int, init: int, procs: seq<Proc>)
    requires Slots(T) && AllSlots(s) && PrioRange(T) && me != init
    requires ExitPassed(T, s, k, me, init, procs) && k < |s| && IsSlot(s[k])
    ensures |procs| == NPROC
    ensures procs[s[k]].parent != me ==> ExitPassed(T, s, k + 1, me, init, procs)
    ensures procs[s[k]].parent == me && T.lists[ZOMBIE] == [] ==>
              ExitPassed(T, s, k + 1, me, init, procs[s[k] := procs[s[k]].(parent := init)])
    ensures procs[s[k]].parent == me && T.lists[ZOMBIE] != [] ==>
              procs == T.procs &&
              var U := T.(procs := T.procs[s[k] := T.procs[s[k]].(parent := init)]);
              Slots(U) && PrioRange(U) &&
              ReparentScan(T, s, me, init) == (if s[k] == T.lists[ZOMBIE][0] then Wakeup(U, init) else U, true)
  {
    hide ReparentScan, Wakeup;
    if T.lists[ZOMBIE] == [] {
      ExitMarks(T, s, k, me, init, procs);
    } else if procs[s[k]].parent == me {
      ExitFinds(T, s, k, me, init);
    }
  }

  lemma ExitPassedEnds(T: Table, s: seq<int>, me: int, init: int, procs: seq<Proc>)
    requires Slots(T) && AllSlots(s) && PrioRange(T)
    ensures ExitPassed(T, s, 0, me, init, T.procs)
    ensures ExitPassed(T, s, |s|, me, init, procs) ==> ReparentScan(T, s, me, init) == (T.(procs := procs), false)
  {
    assert s[..|s|] == s && s[..0] == [];
    if T.lists[ZOMBIE] == [] {
      assert ReparentScan(T, [], me, init).0.procs == T.procs;
    }
  }

  lemma ReparentConcat(T: Table, a: seq<int>, b: seq<int>, me: int, init: int)
    requires Slots(T) && AllSlots(a) && AllSlots(b) && PrioRange(T) && me != init
    ensures AllSlots(a + b)
    ensures var r := ReparentScan(T, a, me, init);
      && (r.1 ==> ReparentScan(T, a + b, me, init) == r)
      && (!r.1 ==> Slots(r.0) && PrioRange(r.0) && r.0.lists == T.lists
                   && ReparentScan(r.0, b, me, init) == ReparentScan(T, a + b, me, init))
  {
    var r := ReparentScan(T, a, me, init);
    if T.lists[ZOMBIE] == [] {
      var x, y := ReparentScan(r.0, b, me, init).0, ReparentScan(T, a + b, me, init).0;
      assert forall p :: p in a + b <==> p in a || p in b;
      assert x.procs == y.procs;
    } else {
      FirstConcat(a, b, T.procs, (q: Proc) => q.parent == me);
    }
    hide Wakeup;
  }

  // ---- promotion, one process at a time

  /** The head of level i moves to the end of level i - 1. */
  function PromoteOne(T: Table, i: int): Table
    requires Sized(T) && 1 <= i <= MAXPRIO && T.lists[i] != [] && IsSlot(T.lists[i][0])
  {
    var p := T.lists[i][0];
    var q := T.procs[p].(priority := T.procs[p].priority - 1, budget := MAX_BUDGET);
    Move(T.(procs := T.procs[p := q]), p, i, i - 1)
  }

  /** All of level i moves to the end of level i - 1. */
  function Drained(T: Table, i: int): (r: Table)
    requires Sized(T) && 1 <= i <= MAXPRIO
    ensures Sized(r)
  {
    T.(lists := T.lists[i - 1 := T.lists[i - 1] + T.lists[i]][i := []],
       procs := seq(NPROC, p requires 0 <= p < NPROC =>
         if p in T.lists[i] then T.procs[p].(priority := T.procs[p].priority - 1, budget := MAX_BUDGET)
         else T.procs[p]))
  }

  /** Levels 1 .. i - 1 have been moved down. */
  function DrainTo(T: Table, i: int): (r: Table)
    requires Sized(T) && 1 <= i <= MAXPRIO + 1
    ensures Sized(r)
  {
    if i == 1 then T else Drained(DrainTo(T, i - 1), i - 1)
  }

  lemma DrainStart(T: Table)
    requires Sized(T)
    ensures DrainTo(T, 1) == T
  {
  }

  lemma DrainNext(T: Table, i: int)
    requires Sized(T) && 1 <= i <= MAXPRIO
    ensures DrainTo(T, i + 1) == Drained(DrainTo(T, i), i)
  {
  }

  lemma DrainedEmpty(T: Table, i: int)
    requires Sized(T) && 1 <= i <= MAXPRIO && T.lists[i] == []
    ensures Drained(T, i) == T
  {
    assert Drained(T, i).procs == T.procs;
    assert T.lists[i - 1] + T.lists[i] == T.lists[i - 1];
    assert Drained(T, i).lists == T.lists;
  }

  lemma DrainStep(T: Table, i: int)
    requires Partition(T) && Sized(T) && 1 <= i <= MAXPRIO && T.lists[i] != [] && IsSlot(T.lists[i][0])
    ensures Drained(PromoteOne(T, i), i) == Drained(T, i)
    ensures |PromoteOne(T, i).lists[i]| == |T.lists[i]| - 1
  {
    var s := T.lists[i];
    var p := s[0];
    var U := PromoteOne(T, i);
    assert s == [p] + s[1..];
    assert p !in s[1..];
    hide Partition;
    assert U.lists[i] == s[1..];
    assert U.lists[i - 1] == T.lists[i - 1] + [p];
    assert T.lists[i - 1] + [p] + s[1..] == T.lists[i - 1] + s;
    assert Drained(U, i).lists == Drained(T, i).lists;
    assert forall q :: q in s <==> q == p || q in s[1..];
    assert Drained(U, i).procs == Drained(T, i).procs;
  }

  lemma PromoteOneInv(T: Table, i: int)
    requires Inv(T) && Sized(T) && 1 <= i <= MAXPRIO && T.lists[i] != [] && IsSlot(T.lists[i][0])
    ensures Inv(PromoteOne(T, i)) && T.procs[T.lists[i][0]].priority == i
  {
    var p := T.lists[i][0];
    InList(T, i, p);
    var q := T.procs[p].(priority := T.procs[p].priority - 1, budget := MAX_BUDGET);
    var U := T.(procs := T.procs[p := q]);
    FieldsPartition(T, U.procs);
    MovePartition(U, p, i, i - 1);
    MoveMembers(U, p, i, i - 1);
    hide MoveLists, Partition;
  }

  lemma RemovedFrom(T: Table, l: int, p: int, after: seq<seq<int>>)
    requires Partition(T) && IsLid(l) && Sized(T) && p in T.lists[l] && after == T.lists[l := Without(T.lists[l], p)]
    ensures forall m :: 0 <= m < NLISTS ==> p !in after[m]
  {
    RemovedNowhere(T.lists, l, p, after);
  }

  function Boosted(procs: seq<Proc>, s: seq<int>): (r: seq<Proc>)
    ensures |r| == |procs|
  {
    seq(|procs|, p requires 0 <= p < |procs| => if p in s then PromoteProc(procs[p]) else procs[p])
  }

  lemma BoostedNext(procs: seq<Proc>, s: seq<int>, k: nat)
    requires k < |s| && 0 <= s[k] < |procs| && Distinct(s)
    ensures Boosted(procs, s[..k + 1]) == Boosted(procs, s[..k])[s[k] := PromoteProc(procs[s[k]])]
    ensures Boosted(procs, s[..k])[s[k]] == procs[s[k]]
  {
    assert s[..k + 1] == s[..k] + [s[k]];
    assert s[k] !in s[..k];
    hide Distinct;
  }

  /** The lists once levels 1 .. i - 1 have been moved down. */
  lemma {:induction false} DrainLists(T: Table, i: int)
    requires Sized(T) && 1 <= i <= MAXPRIO + 1
    ensures var r := DrainTo(T, i).lists;
      && (forall l :: i <= l < NLISTS ==> r[l] == T.lists[l])
      && r[0] == (if i == 1 then T.lists[0] else T.lists[0] + T.lists[1])
      && (forall l :: 1 <= l < i - 1 ==> r[l] == T.lists[l + 1])
      && (i > 1 ==> r[i - 1] == [])
  {
    if i > 1 {
      DrainLists(T, i - 1);
      var r := DrainTo(T, i - 1).lists;
      assert i > 2 ==> r[i - 2] + r[i - 1] == T.lists[i - 1];
    }
  }

  lemma {:induction false} DrainProcs(T: Table, i: int, p: int)
    requires Sized(T) && 1 <= i <= MAXPRIO + 1 && IsSlot(p)
    requires forall l, m :: 0 <= l < NLISTS && 0 <= m < NLISTS && l != m ==> Apart(T.lists[l], T.lists[m])
    ensures DrainTo(T, i).procs[p] ==
      if exists l :: 1 <= l < i && p in T.lists[l]
      then T.procs[p].(priority := T.procs[p].priority - 1, budget := MAX_BUDGET) else T.procs[p]
  {
    if i > 1 {
      DrainProcs(T, i - 1, p);
      DrainLists(T, i - 1);
      assert DrainTo(T, i - 1).lists[i - 1] == T.lists[i - 1];
      if p in T.lists[i - 1] {
        forall l | 1 <= l < i - 1 ensures p !in T.lists[l] {
          assert Apart(T.lists[i - 1], T.lists[l]);
        }
      }
    }
  }

  /** Draining the levels one after the other, then boosting sleepers and runners, is a promotion. */
  lemma PromoteIsDrain(T: Table)
    requires Inv(T) && Sized(T)
    ensures var U := DrainTo(T, MAXPRIO + 1);
      U.(procs := Boosted(Boosted(U.procs, U.lists[SLEEP]), U.lists[RUNNING])) == Promote(T)
  {
    hide Partition, PrioOk, DrainTo, Promote, Boosted;
    var U := DrainTo(T, MAXPRIO + 1);
    PromotedLists(T);
    var r := Boosted(Boosted(U.procs, U.lists[SLEEP]), U.lists[RUNNING]);
    forall p | 0 <= p < NPROC ensures r[p] == Promote(T).procs[p] {
      PromotedProc(T, p);
    }
    DrainRest(T, MAXPRIO + 1);
    assert r == Promote(T).procs;
  }

  lemma PromoteListsAt(lists: seq<seq<int>>, l: int)
    requires |lists| == NLISTS && IsLid(l)
    ensures PromoteLists(lists)[l] ==
      if l == 0 then lists[0] + lists[1]
      else if l < MAXPRIO then lists[l + 1]
      else if l == MAXPRIO then [] else lists[l]
  {
    assert l == 0 || l == 1 || l == 2 || l == 3 || l == 4 || l == 5 || l == 6 || l >= 7;
  }

  lemma PromotedLists(T: Table)
    requires Sized(T)
    ensures DrainTo(T, MAXPRIO + 1).lists == Promote(T).lists
    ensures Promote(T).nextpid == T.nextpid && Promote(T).promoteAt == T.promoteAt
  {
    hide DrainTo, PromoteLists;
    var U, R := DrainTo(T, MAXPRIO + 1), Promote(T);
    DrainLists(T, MAXPRIO + 1);
    forall l | 0 <= l < NLISTS ensures U.lists[l] == R.lists[l] {
      PromoteListsAt(T.lists, l);
    }
  }

  lemma BoostedPartition(T: Table, s: seq<int>)
    requires Partition(T) && Sized(T)
    ensures Partition(T.(procs := Boosted(T.procs, s)))
  {
    FieldsPartition(T, Boosted(T.procs, s));
  }

  lemma {:induction false} DrainRest(T: Table, i: int)
    requires Sized(T) && 1 <= i <= MAXPRIO + 1
    ensures DrainTo(T, i).nextpid == T.nextpid && DrainTo(T, i).promoteAt == T.promoteAt
  {
    if i > 1 {
      DrainRest(T, i - 1);
    }
  }

  lemma OnlyList(T: Table, p: int) returns (l: int)
    requires Partition(T) && Sized(T) && IsSlot(p)
    ensures IsLid(l) && p in T.lists[l] && T.procs[p].state == StateOf(l)
    ensures forall m :: 0 <= m < NLISTS && m != l ==> p !in T.lists[m]
  {
    assert OnSomeList(T.lists, p);
    l := FindList(T, p);
    InList(T, l, p);
    assert forall m :: 0 <= m < NLISTS && m != l ==> Apart(T.lists[l], T.lists[m]);
    hide Partition;
  }

  lemma PartitionApart(T: Table)
    requires Partition(T) && Sized(T)
    ensures forall l, m :: 0 <= l < NLISTS && 0 <= m < NLISTS && l != m ==> Apart(T.lists[l], T.lists[m])
  {
    hide Distinct, Apart, OnSomeList, Holds;
  }

  /** Draining promotes the processes of levels 1 to MAXPRIO. */
  lemma DrainedAt(T: Table, p: int, l: int)
    requires Inv(T) && Sized(T) && 0 <= p < NPROC && IsLid(l) && p in T.lists[l]
    requires forall m :: 0 <= m < NLISTS && m != l ==> p !in T.lists[m]
    ensures DrainTo(T, MAXPRIO + 1).procs[p] == if 1 <= l <= MAXPRIO then PromoteProc(T.procs[p]) else T.procs[p]
  {
    hide DrainTo, Partition, Apart, PrioOk;
    PartitionApart(T);
    LevelIs(T, p, l);
    DrainProcs(T, MAXPRIO + 1, p);
  }

  /** So do the boosts, for sleeping and running ones. */
  lemma PromotedAt(T: Table, p: int, l: int)
    requires Sized(T) && 0 <= p < NPROC && IsLid(l) && p in T.lists[l] && T.procs[p].state == StateOf(l)
    requires forall m :: 0 <= m < NLISTS && m != l ==> p !in T.lists[m]
    ensures Promote(T).procs[p] ==
      if 1 <= l <= MAXPRIO || l == SLEEP || l == RUNNING then PromoteProc(T.procs[p]) else T.procs[p]
  {
    hide PromoteLists;
  }

  lemma PromotedProc(T: Table, p: int)
    requires Inv(T) && Sized(T) && 0 <= p < NPROC
    ensures var U := DrainTo(T, MAXPRIO + 1);
      Boosted(Boosted(U.procs, U.lists[SLEEP]), U.lists[RUNNING])[p] == Promote(T).procs[p]
  {
    hide DrainTo, Partition, PromoteLists, Apart, PrioOk, Promote, PromoteProc;
    DrainLists(T, MAXPRIO + 1);
    var l := OnlyList(T, p);
    DrainedAt(T, p, l);
    PromotedAt(T, p, l);
    hide Inv;
    BoostedAt(DrainTo(T, MAXPRIO + 1).procs, T.lists[SLEEP], T.lists[RUNNING], p);
  }

  lemma BoostedAt(procs: seq<Proc>, a: seq<int>, b: seq<int>, p: int)
    requires 0 <= p < |procs| && (p in a ==> p !in b)
    ensures Boosted(Boosted(procs, a), b)[p] == if p in a || p in b then PromoteProc(procs[p]) else procs[p]
  {
    hide PromoteProc;
  }

  lemma LevelIs(T: Table, p: int, l: int)
    requires Inv(T) && Sized(T) && 0 <= p < NPROC && IsLid(l) && p in T.lists[l]
    ensures 0 <= l <= MAXPRIO ==> T.procs[p].priority == l
  {
    hide Partition;
  }

  lemma HeadNull(T: Table, i: int)
    requires Sized(T) && 0 <= i <= MAXPRIO && T.lists[i] == []
    ensures var f := (s: seq<int>) => s != []; FindLevel(T.lists, i, f) == FindLevel(T.lists, i + 1, f)
  {
  }

  lemma InitReady(T: Table, p: int)
    requires Inv(T) && Slots(T) && Sized(T) && T.lists[FREE] != [] && T.lists[0] == [] && p == Alloc(T).1
    ensures var U := Alloc(T).0;
      IsSlot(p) && Sized(U) && U.lists[0] == [] && p in U.lists[EMBRYO] && U.procs[p].priority == 0 && IsLid(FREE)
  {
    hide Partition, Without;
    AllocInv(T);
  }

  /** All slots unused and on the free list. */
  lemma FreshInv(T: Table, blank: Proc)
    requires T.lists == seq(NLISTS, _ => [])[FREE := seq(NPROC, i => i)] && T.procs == seq(NPROC, _ => blank)
    requires blank == Proc(Unused, 0, -1, -1, false, 0, 0, 0)
    ensures Inv(T)
  {
    forall p | IsSlot(p) ensures OnSomeList(T.lists, p) {
      assert T.lists[FREE][p] == p;
    }
  }

  class PTable {
    var head: seq<int>
    var tail: seq<int>
    var next: seq<int>
    var procs: seq<Proc>
    var nextpid: int
    var promoteAt: int
    ghost var lists: seq<seq<int>> // what the links spell

    ghost function Abs(): Table
      reads this
    {
      Table(lists, procs, nextpid, promoteAt)
    }

    ghost predicate Linked()
      reads this
    {
      Rep(head, tail, next, lists) && |procs| == |next| == NPROC && |head| == |tail| == |lists| == NLISTS
    }

    ghost predicate Valid()
      reads this
    {
      Linked() && Inv(Abs())
    }

    /** Append p, which is on no list, to list l. */
    method StateListAdd(l: int, p: int)
      requires Linked() && IsLid(l) && IsSlot(p) && forall m :: 0 <= m < NLISTS ==> p !in lists[m]
      modifies this`head, this`tail, this`next, this`lists
      ensures Linked() && lists == old(lists)[l := old(lists[l]) + [p]]
      ensures next[p] == -1
    {
      RepAdd(head, tail, next, lists, l, p);
      if head[l] == -1 {
        assert lists[l] == [];
        head := head[l := p];
        tail := tail[l := p];
        next := next[p := -1];
      } else {
        next := next[tail[l] := p];
        tail := tail[l := next[tail[l]]];
        next := next[tail[l] := -1];
      }
      lists := lists[l := lists[l] + [p]];
    }

    /** The walk of stateListRemove() along list l to p and the process before it. */
    method Locate(l: int, p: int) returns (current: int, previous: int, ghost k: int)
      requires Linked() && IsLid(l) && |lists| == NLISTS
      ensures 0 <= k <= |lists[l]| && p !in lists[l][..k]
      ensures current == if k < |lists[l]| then lists[l][k] else -1
      ensures k > 0 ==> previous == lists[l][k - 1]
      ensures current == -1 ==> k == |lists[l]|
      ensures current != -1 ==> current == p
    {
      ghost var s := lists[l];
      WalkStart(head, tail, next, lists, l);
      hide Rep;
      current, previous, k := head[l], -1, 0;
      while current != -1 && current != p
        invariant 0 <= k <= |s| && current == if k < |s| then s[k] else -1
        invariant k > 0 ==> previous == s[k - 1]
        invariant p !in s[..k]
        decreases |s| - k
      {
        Walk(head, tail, next, lists, l, k);
        previous := current;
        current := next[current];
        k := k + 1;
      }
    }

    /** Unlink p from list l; -1 if it is not there. */
    method StateListRemove(l: int, p: int) returns (rc: int)
      requires Linked() && IsLid(l)
      modifies this`head, this`tail, this`next, this`lists
      ensures rc == if p in old(lists[l]) then 0 else -1
      ensures Linked() && lists == old(lists)[l := Without(old(lists[l]), p)]
    {
      ghost var s := lists[l];
      assert lists[l := s] == lists;
      WalkStart(head, tail, next, lists, l);
      WalkEnd(head, tail, next, lists, l);
      hide Rep, Without, Distinct;
      if head[l] == -1 || tail[l] == -1 || p == -1 {
        return -1;
      }
      if head[l] == p {
        RepRemoveHead(head, tail, next, lists, l);
        WithoutAt(s, 0);
        assert s[..0] + s[1..] == s[1..];
        head := head[l := next[head[l]]];
        lists := lists[l := s[1..]];
        return 0;
      }
      var current, previous;
      ghost var k;
      current, previous, k := Locate(l, p);
      if current == -1 {
        assert s[..k] == s;
        return -1;
      }
      WithoutAt(s, k);
      Unlink(l, current, previous, k);
      return 0;
    }

    /** The end of stateListRemove(): the k-th process of list l, which is not the first, is taken out. */
    method Unlink(l: int, current: int, previous: int, ghost k: int)
      requires Linked() && IsLid(l) && |lists| == NLISTS && 0 < k < |lists[l]|
      requires current == lists[l][k] && previous == lists[l][k - 1]
      modifies this`tail, this`next, this`lists
      ensures Linked() && lists == old(lists)[l := old(lists[l])[..k] + old(lists[l])[k + 1..]]
    {
      ghost var s := lists[l];
      WalkEnd(head, tail, next, lists, l);
      hide Rep, Distinct;
      OnlyLast(s, k);
      Walk(head, tail, next, lists, l, k);
      Walk(head, tail, next, lists, l, k - 1);
      RepRemove(head, tail, next, lists, l, k, if k == |s| - 1 then -1 else next[s[k]]);
      if current == tail[l] {
        tail := tail[l := previous];
        next := next[tail[l] := -1];
      } else {
        next := next[previous := next[current]];
      }
      next := next[current := -1];
      lists := lists[l := s[..k] + s[k + 1..]];
    }

    /** changeState: true means it panics. */
    method ChangeState(from: int, to: int, p: int) returns (panic: bool)
      requires Linked() && IsLid(from) && IsLid(to) && IsSlot(p)
      modifies this`head, this`tail, this`next, this`lists, this`procs
      ensures panic <==> !(p in old(lists[from]) && old(procs[p]).state == StateOf(from))
      ensures !panic ==> Linked() && Abs() == Move(old(Abs()), p, from, to) && next[p] == -1
    {
      ghost var before := lists;
      var rc := StateListRemove(from, p);
      if rc == -1 {
        return true;
      }
      if procs[p].state != StateOf(from) {
        return true;
      }
      procs := procs[p := procs[p].(state := StateOf(to))];
      RemovedNowhere(before, from, p, lists);
      StateListAdd(to, p);
      return false;
    }

    /** yield() */
    method Yield(p: int, ticks: int) returns (panic: bool)
      requires Valid() && IsSlot(p) && p in lists[RUNNING]
      modifies this
      ensures !panic && Valid() && Abs() == Scheduler.Yield(old(Abs()), p, ticks)
      ensures Accounts.Charged(old(procs[p]), procs[p], ticks - old(procs[p]).ticksIn) && procs[p].state.Runnable?
      ensures forall x :: IsSlot(x) && x != p ==> procs[x] == old(procs[x])
    {
      hide Rep, Partition, PrioOk;
      forall x | IsSlot(x) { Accounts.YieldProc(Abs(), p, ticks, x); }
      InList(Abs(), RUNNING, p);
      YieldInv(Abs(), p, ticks);
      ChargedInv(Abs(), p, procs[p].chan, ticks);
      hide Inv;
      procs := procs[p := procs[p].(budget := procs[p].budget - (ticks - procs[p].ticksIn))];
      if procs[p].budget <= 0 {
        procs := procs[p := procs[p].(budget := MAX_BUDGET)];
        if procs[p].priority < MAXPRIO {
          procs := procs[p := procs[p].(priority := procs[p].priority + 1)];
        }
      }
      assert procs == old(procs)[p := Charge(old(procs[p]), ticks)];
      panic := ChangeState(RUNNING, procs[p].priority, p);
    }

    /** sleep(), under ptable.lock */
    method Sleep(p: int, chan: int, ticks: int) returns (panic: bool)
      requires Valid() && IsSlot(p) && p in lists[RUNNING]
      modifies this
      ensures !panic && Valid() && Abs() == SleepOn(old(Abs()), p, chan, ticks)
      ensures Accounts.Charged(old(procs[p]), procs[p], ticks - old(procs[p]).ticksIn)
      ensures procs[p].state.Sleeping? && procs[p].chan == chan
      ensures forall x :: IsSlot(x) && x != p ==> procs[x] == old(procs[x])
    {
      hide Rep, Partition, PrioOk;
      forall x | IsSlot(x) { Accounts.SleepProc(Abs(), p, chan, ticks, x); }
      InList(Abs(), RUNNING, p);
      SleepInv(Abs(), p, chan, ticks);
      hide Inv;
      procs := procs[p := procs[p].(chan := chan)];
      procs := procs[p := procs[p].(budget := procs[p].budget - (ticks - procs[p].ticksIn))];
      if procs[p].budget <= 0 {
        procs := procs[p := procs[p].(budget := MAX_BUDGET)];
        if procs[p].priority < MAXPRIO {
          procs := procs[p := procs[p].(priority := procs[p].priority + 1)];
        }
      }
      assert procs == old(procs)[p := Charge(old(procs[p]).(chan := chan), ticks)];
      panic := ChangeState(RUNNING, SLEEP, p);
    }

    /** wakeup1(): after moving a process it follows that process's cleared link, so it stops there. */
    method Wakeup1(chan: int) returns (panic: bool)
      requires Valid()
      modifies this
      ensures !panic && Valid() && Slots(old(Abs())) && Abs() == Wakeup(old(Abs()), chan)
    {
      hide Partition, PrioOk, Rep, Move, First;
      PartitionSlots(Abs());
      WakeupInv(Abs(), chan);
      WalkStart(head, tail, next, lists, SLEEP);
      ghost var s, k, moved := lists[SLEEP], 0, false;
      ghost var f := (q: Proc) => q.chan == chan;
      panic := false;
      var p := head[SLEEP];
      while p != -1
        invariant !panic && Linked() && 0 <= k <= |s|
        invariant moved ==> p == -1 && Abs() == Wakeup(old(Abs()), chan)
        invariant !moved ==> Abs() == old(Abs()) && p == if k < |s| then s[k] else -1
        invariant !moved ==> forall j :: 0 <= j < k ==> procs[s[j]].chan != chan
        decreases !moved, |s| - k
      {
        if !moved { Walk(head, tail, next, lists, SLEEP, k); }
        if procs[p].chan == chan {
          FirstAt(s, procs, f, k);
          InList(Abs(), SLEEP, p);
          var r := ChangeState(SLEEP, procs[p].priority, p);
          panic := panic || r;
          moved := true;
        }
        p := next[p];
        k := k + 1;
      }
    }

    /** allocproc(); memOk says whether kalloc gave it a kernel stack. */
    method AllocProc(memOk: bool) returns (p: int, panic: bool)
      requires Valid()
      modifies this
      ensures !panic && Valid() && Slots(old(Abs()))
      ensures memOk ==> (Abs(), p) == Alloc(old(Abs()))
      ensures !memOk ==> p == -1
      ensures !memOk && old(lists[FREE]) != [] ==>
                lists == old(lists)[FREE := old(lists[FREE])[1..] + [old(lists[FREE])[0]]]
      ensures !memOk && old(lists[FREE]) != [] ==> IsSlot(old(lists[FREE])[0]) && nextpid == old(nextpid) + 1
      ensures !memOk && old(lists[FREE]) != [] ==> promoteAt == old(promoteAt)
      ensures !memOk && old(lists[FREE]) != [] ==>
                procs == old(procs)[old(lists[FREE])[0] := old(procs)[old(lists[FREE])[0]].(pid := old(nextpid))]
      ensures old(lists[FREE]) == [] ==> p == -1 && Abs() == old(Abs())
    {
      hide Partition, PrioOk, Rep, OnSomeList;
      PartitionSlots(Abs());
      AllocInv(Abs());
      WalkStart(head, tail, next, lists, FREE);
      panic := false;
      p := head[FREE];
      if p == -1 {
        return;
      }
      InList(Abs(), FREE, p);
      ghost var T := Abs();
      assert T.lists[FREE][0] == p;
      panic := ChangeState(FREE, EMBRYO, p);
      procs := procs[p := procs[p].(pid := nextpid)];
      nextpid := nextpid + 1;
      if !memOk {
        AllocUndone(T, p);
        assert procs == T.procs[p := T.procs[p].(state := StateOf(EMBRYO), pid := T.nextpid)];
        var r := ChangeState(EMBRYO, FREE, p);
        panic := panic || r;
        p := -1;
        return;
      }
      procs := procs[p := procs[p].(priority := 0, budget := MAX_BUDGET)];
      assert procs == Alloc(T).0.procs;
    }

    /** The end of fork(), with the child's parent already set. */
    method ForkDone(p: int, parent: int) returns (panic: bool)
      requires Valid() && IsSlot(p) && p in lists[EMBRYO]
      modifies this
      ensures !panic && Valid() && Abs() == Scheduler.ForkDone(old(Abs()), p, parent)
    {
      hide Rep, Partition, PrioOk;
      InList(Abs(), EMBRYO, p);
      ForkInv(Abs(), p, parent);
      hide Inv;
      procs := procs[p := procs[p].(parent := parent)];
      panic := ChangeState(EMBRYO, 0, p);
    }

    /** The walk along a list for a pid. */
    method FindIn(l: int, pid: int) returns (p: int)
      requires Linked() && IsLid(l) && Slots(Abs())
      ensures p == First(lists[l], procs, (q: Proc) => q.pid == pid)
    {
      ghost var s, k := lists[l], 0;
      ghost var f := (q: Proc) => q.pid == pid;
      WalkStart(head, tail, next, lists, l);
      hide Rep, First;
      p := head[l];
      while p != -1
        invariant 0 <= k <= |s|
        invariant p == if k < |s| then s[k] else -1
        invariant forall j :: 0 <= j < k ==> procs[s[j]].pid != pid
        decreases |s| - k
      {
        Walk(head, tail, next, lists, l, k);
        if procs[p].pid == pid {
          FirstAt(s, procs, f, k);
          return;
        }
        p := next[p];
        k := k + 1;
      }
    }

    /** setpriority(): the ready lists level by level, then sleep, then running. */
    method SetPriority(pid: int, prio: int) returns (rc: int, panic: bool)
      requires Valid() && 0 <= prio <= MAXPRIO
      modifies this
      ensures !panic && Valid() && Slots(old(Abs())) && (Abs(), rc) == Scheduler.SetPriority(old(Abs()), pid, prio)
    {
      hide Partition, PrioOk, Rep, Move, First, OnSomeList;
      PartitionSlots(Abs());
      SetPriorityInv(Abs(), pid, prio);
      ghost var T := Abs();
      panic := false;
      var p;
      var i := 0;
      while i < MAXPRIO + 1
        invariant 0 <= i <= MAXPRIO + 1 && !panic && Linked() && Abs() == T
        invariant FindPid(T, 0, pid) == FindPid(T, i, pid)
      {
        p := FindIn(i, pid);
        if p != -1 {
          if procs[p].priority != prio {
            panic := Requeue(p, i, prio);
          }
          return 0, panic;
        }
        i := i + 1;
      }
      p := FindIn(SLEEP, pid);
      if p == -1 {
        p := FindIn(RUNNING, pid);
      }
      if p == -1 {
        return -1, false;
      }
      SetPrioOf(p, prio);
      rc := 0;
    }

    /** setpriority on a process that is on no ready list. */
    method SetPrioOf(p: int, prio: int)
      requires 0 <= p < |procs|
      modifies this`procs
      ensures procs == old(procs)[p := SetPrio(old(procs)[p], prio)]
    {
      if procs[p].priority != prio {
        procs := procs[p := procs[p].(priority := prio)];
        procs := procs[p := procs[p].(budget := MAX_BUDGET)];
      }
      assert procs[p] == SetPrio(old(procs)[p], prio);
    }

    /** setpriority's move of a ready process to another level. */
    method Requeue(p: int, i: int, prio: int) returns (panic: bool)
      requires Valid() && 0 <= i <= MAXPRIO && 0 <= prio <= MAXPRIO && IsSlot(p) && p in lists[i]
      requires procs[p].priority != prio
      modifies this
      ensures !panic && Linked()
      ensures Abs() == Move(old(Abs()).(procs := old(procs)[p := SetPrio(old(procs[p]), prio)]), p, i, prio)
    {
      InList(Abs(), i, p);
      RemovedNowhere(lists, i, p, lists[i := Without(lists[i], p)]);
      assert procs[p].priority == i;
      ghost var T := Abs().(procs := procs[p := SetPrio(procs[p], prio)]);
      hide Rep, Without, PrioOk, ProcOk, Partition, Distinct;
      var rc := StateListRemove(i, p);
      if rc == -1 || procs[p].state != Runnable || procs[p].priority != i {
        return true;
      }
      procs := procs[p := procs[p].(priority := prio)];
      procs := procs[p := procs[p].(budget := MAX_BUDGET)];
      StateListAdd(prio, p);
      assert procs == Move(T, p, i, prio).procs;
      return false;
    }

    /**
      The body of killSearchAll() for a process with the wanted pid.  Its inner loop over the sleep
      list returns in its first iteration: it stops the search whenever some process sleeps, and
      wakes the process only if that is the head of the sleep list.
     */
    method KillHit(p: int) returns (stop: bool, panic: bool)
      requires Linked() && Partition(Abs()) && IsSlot(p)
      modifies this
      ensures !panic && Linked() && (stop <==> old(lists[SLEEP]) != []) && (!stop ==> next == old(next))
      ensures var U := old(Abs()).(procs := old(procs)[p := old(procs[p]).(killed := true)]);
        Abs() == if stop && p == old(lists[SLEEP])[0] then Move(U, p, SLEEP, 0) else U
    {
      WalkStart(head, tail, next, lists, SLEEP);
      procs := procs[p := procs[p].(killed := true)];
      var pK := head[SLEEP];
      stop, panic := false, false;
      if pK != -1 {
        if p == pK {
          InList(old(Abs()), SLEEP, p);
          hide Partition, Rep;
          panic := ChangeState(SLEEP, 0, p);
        }
        stop := true;
      }
    }

    /** killSearchAll() on one list. */
    method KillSearch(l: int, pid: int) returns (rc: int, panic: bool)
      requires Linked() && Partition(Abs()) && Slots(Abs()) && IsLid(l) && AllSlots(lists[l])
      modifies this
      ensures !panic && Linked() && (Abs(), rc) == KillScan(old(Abs()), old(lists[l]), pid)
      ensures rc == -1 ==> Partition(Abs())
    {
      hide Partition, Rep, Move, KillScan, Slots, KillPassed;
      ghost var T, s, k := Abs(), lists[l], 0;
      panic := false;
      WalkStart(head, tail, next, lists, l);
      KillPassedEnds(T, s, pid, procs);
      var p := head[l];
      while p != -1
        invariant 0 <= k <= |s| && Linked() && Abs() == T.(procs := procs) && !panic
        invariant p == if k < |s| then s[k] else -1
        invariant Partition(Abs()) && KillPassed(T, s, k, pid, procs)
        decreases |s| - k
      {
        Walk(head, tail, next, lists, l, k);
        KillPasses(T, s, k, pid, procs);
        if procs[p].pid == pid {
          KilledPartition(Abs(), p);
          var stop;
          stop, panic := KillHit(p);
          if stop {
            return 0, panic;
          }
        }
        p := next[p];
        k := k + 1;
      }
      KillPassedEnds(T, s, pid, procs);
      rc := -1;
    }

    /** The next list of kill()'s search, after `order` has been searched. */
    method KillNext(l: int, pid: int, rc0: int, ghost T: Table, ghost order: seq<int>) returns (rc: int, panic: bool)
      requires Linked() && IsLid(l) && Slots(T) && |T.lists| == NLISTS && AllSlots(order) && AllSlots(T.lists[l])
      requires (Abs(), rc0) == KillScan(T, order, pid) && (rc0 == -1 ==> Partition(Abs()))
      modifies this
      ensures !panic && Linked() && AllSlots(order + T.lists[l])
      ensures (Abs(), rc) == KillScan(T, order + T.lists[l], pid) && (rc == -1 ==> Partition(Abs()))
    {
      hide Partition, Rep, KillScan, Slots;
      KillScanConcat(T, order, T.lists[l], pid);
      rc, panic := rc0, false;
      if rc == -1 {
        rc, panic := KillSearch(l, pid);
      }
    }

    /** kill() */
    method Kill(pid: int) returns (rc: int, panic: bool)
      requires Valid()
      modifies this
      ensures !panic && Linked() && Slots(old(Abs())) && (Abs(), rc) == Scheduler.Kill(old(Abs()), pid)
      ensures Partition(Abs()) && (Valid() <==> !KillUnsafe(old(Abs()), pid))
    {
      ghost var T := Abs();
      hide Partition, Rep, KillScan, PrioOk, Slots, AllSlots, KillUnsafe, ScanPrefix, ScanOrder;
      TableSlots(T);
      KillInvIff(T, pid);
      KillIs(T, pid);
      hide Inv, Scheduler.Kill;
      rc, panic := KillSearch(EMBRYO, pid);
      ghost var order := T.lists[EMBRYO];
      PrefixSteps(T.lists, 0);
      var i := 0;
      while i < MAXPRIO + 1
        invariant 0 <= i <= MAXPRIO + 1 && !panic && Linked() && AllSlots(order)
        invariant order == ScanPrefix(T.lists, i)
        invariant (Abs(), rc) == KillScan(T, order, pid) && (rc == -1 ==> Partition(Abs()))
      {
        PrefixSteps(T.lists, i);
        rc, panic := KillNext(i, pid, rc, T, order);
        order := order + T.lists[i];
        i := i + 1;
      }
      rc, panic := KillNext(SLEEP, pid, rc, T, order);
      order := order + T.lists[SLEEP];
      rc, panic := KillNext(RUNNING, pid, rc, T, order);
      order := order + T.lists[RUNNING];
      rc, panic := KillNext(ZOMBIE, pid, rc, T, order);
    }

    /** The body of waitSearchAll() for a child: reap it if it is on the zombie list. */
    method ReapIfZombie(p1: int) returns (hit: bool, pid: int, panic: bool)
      requires Linked() && Partition(Abs()) && IsSlot(p1)
      modifies this
      ensures !panic && Linked() && (hit <==> p1 in old(lists[ZOMBIE]))
      ensures !hit ==> Abs() == old(Abs()) && next == old(next) && pid == -1
      ensures hit ==> pid == old(procs[p1].pid) && next[p1] == -1
      ensures hit ==> var q := old(procs[p1]).(pid := 0, parent := -1, killed := false);
        Abs() == Move(old(Abs()).(procs := old(procs)[p1 := q]), p1, ZOMBIE, FREE)
    {
      hide Partition, Rep, Move, Slots;
      ghost var T, s, k := Abs(), lists[ZOMBIE], 0;
      WalkStart(head, tail, next, lists, ZOMBIE);
      TableSlots(T);
      hit, pid, panic := false, -1, false;
      var p2 := head[ZOMBIE];
      while p2 != -1
        invariant 0 <= k <= |s| && !panic && Linked()
        invariant !hit ==> Abs() == T && next == old(next) && pid == -1 && p1 !in s[..k]
        invariant !hit ==> p2 == if k < |s| then s[k] else -1
        invariant hit ==> p2 == -1 && p1 in s && pid == T.procs[p1].pid && next[p1] == -1
        invariant hit ==> var q := T.procs[p1].(pid := 0, parent := -1, killed := false);
          Abs() == Move(T.(procs := T.procs[p1 := q]), p1, ZOMBIE, FREE)
        decreases |s| - k
      {
        Walk(head, tail, next, lists, ZOMBIE, k);
        if p1 == p2 {
          pid := procs[p1].pid;
          InList(T, ZOMBIE, p1);
          panic := ChangeState(ZOMBIE, FREE, p1);
          procs := procs[p1 := procs[p1].(pid := 0)];
          procs := procs[p1 := procs[p1].(parent := -1)];
          procs := procs[p1 := procs[p1].(killed := false)];
          hit := true;
          ReapedProcs(T, p1, procs);
        }
        p2 := next[p2];
        k := k + 1;
      }
      assert !hit ==> s[..k] == s;
    }

    /** waitSearchAll() on one list; only on the zombie list can it reap. */
    method WaitSearch(l: int, me: int, kids: bool) returns (pid: int, havekids: bool, panic: bool)
      requires Linked() && Partition(Abs()) && Slots(Abs()) && IsLid(l) && me != -1
      modifies this
      ensures !panic && Linked()
      ensures havekids <==> kids || ChildIn(old(procs), old(lists[l]), me)
      ensures l != ZOMBIE ==> Abs() == old(Abs()) && pid == -1
      ensures l == ZOMBIE ==> (Abs(), pid) == Reap(old(Abs()), me)
    {
      hide Partition, Rep, Move, First, WaitPassed, ChildIn, Reap, Slots;
      TableSlots(Abs());
      ghost var T, s, k, done := Abs(), lists[l], 0, false;
      WalkStart(head, tail, next, lists, l);
      WaitPassedEnds(T, l, me, kids, kids);
      pid, havekids, panic := -1, kids, false;
      var p1 := head[l];
      while p1 != -1
        invariant 0 <= k <= |s| && !panic && Linked()
        invariant !done ==> Abs() == T && pid == -1 && p1 == if k < |s| then s[k] else -1
        invariant !done ==> WaitPassed(T, l, k, me, kids, havekids)
        invariant done ==> p1 == -1 && havekids && l == ZOMBIE && ChildIn(T.procs, s, me) && (Abs(), pid) == Reap(T, me)
        decreases |s| - k
      {
        Walk(head, tail, next, lists, l, k);
        WaitPasses(T, l, k, me, kids, havekids);
        if procs[p1].parent == me {
          havekids := true;
          var hit, pid0, bad := ReapIfZombie(p1);
          panic := bad;
          if hit {
            pid := pid0;
            done := true;
          }
        }
        p1 := next[p1];
        k := k + 1;
      }
      WaitPassedEnds(T, l, me, kids, havekids);
    }

    /** One pass of wait() over all lists. */
    method WaitPass(me: int) returns (pid: int, havekids: bool, panic: bool)
      requires Valid() && me != -1
      modifies this
      ensures !panic && Valid() && Slots(old(Abs())) && (Abs(), pid) == Reap(old(Abs()), me)
      ensures havekids <==> exists p :: IsSlot(p) && old(procs)[p].parent == me
    {
      hide Partition, Rep, ChildIn, Reap, Slots, PrioOk;
      ghost var T := Abs();
      TableSlots(T);
      ReapInv(T, me);
      ChildSomewhere(T, me);
      hide Inv;
      pid, havekids, panic := WaitSearch(EMBRYO, me, false);
      var i := 0;
      while i < MAXPRIO + 1
        invariant 0 <= i <= MAXPRIO + 1 && !panic && Linked() && Abs() == T && pid == -1
        invariant havekids <==> ChildIn(T.procs, T.lists[EMBRYO], me) || exists j ::
          0 <= j < i && ChildIn(T.procs, T.lists[j], me)
      {
        pid, havekids, panic := WaitSearch(i, me, havekids);
        i := i + 1;
      }
      pid, havekids, panic := WaitSearch(SLEEP, me, havekids);
      pid, havekids, panic := WaitSearch(RUNNING, me, havekids);
      pid, havekids, panic := WaitSearch(ZOMBIE, me, havekids);
    }

    // ---- exit

    /** The body of exitSearchAll() for a child; its inner loop returns in the first iteration. */
    method ExitHit(p: int, init: int) returns (stop: bool, panic: bool)
      requires Valid() && IsSlot(p) && p in ScanOrder(lists)
      modifies this
      ensures !panic && Valid() && (stop <==> old(lists[ZOMBIE]) != []) && (!stop ==> next == old(next))
      ensures var U := old(Abs()).(procs := old(procs)[p := old(procs[p]).(parent := init)]);
        Slots(U) && Inv(U) && Abs() == if stop && p == old(lists[ZOMBIE])[0] then Wakeup(U, init) else U
    {
      hide Partition, Rep, PrioOk, Slots, ScanOrder;
      ParentInv(Abs(), p, init);
      WalkStart(head, tail, next, lists, ZOMBIE);
      procs := procs[p := procs[p].(parent := init)];
      PartitionSlots(Abs());
      var pZ := head[ZOMBIE];
      stop, panic := false, false;
      if pZ != -1 {
        if p == pZ {
          panic := Wakeup1(init);
        }
        stop := true;
      }
    }

    /** exitSearchAll() on one list. */
    method ExitSearch(l: int, me: int, init: int) returns (found: bool, panic: bool)
      requires Valid() && Slots(Abs()) && IsLid(l) && l != FREE && AllSlots(lists[l]) && PrioRange(Abs()) && me != init
      modifies this
      ensures !panic && Valid() && (Abs(), found) == ReparentScan(old(Abs()), old(lists[l]), me, init)
    {
      hide Partition, Rep, PrioOk, ReparentScan, Slots, ExitPassed, Wakeup, PrioRange;
      ghost var T, s, k := Abs(), lists[l], 0;
      panic := false;
      WalkStart(head, tail, next, lists, l);
      ExitPassedEnds(T, s, me, init, procs);
      var p := head[l];
      while p != -1
        invariant 0 <= k <= |s| && Valid() && Abs() == T.(procs := procs) && !panic
        invariant p == if k < |s| then s[k] else -1
        invariant ExitPassed(T, s, k, me, init, procs)
        decreases |s| - k
      {
        Walk(head, tail, next, lists, l, k);
        ExitPasses(T, s, k, me, init, procs);
        if procs[p].parent == me {
          ScanMember(lists, p);
          var stop;
          stop, panic := ExitHit(p, init);
          if stop {
            return true, panic;
          }
        }
        p := next[p];
        k := k + 1;
      }
      ExitPassedEnds(T, s, me, init, procs);
      found := false;
    }

    /** The next list of exit()'s search, after `order` has been searched. */
    method ExitNext(l: int, me: int, init: int, found0: bool, ghost T: Table, ghost order: seq<int>)
      returns (found: bool, panic: bool)
      requires Valid() && IsLid(l) && l != FREE && Slots(T) && |T.lists| == NLISTS && Sized(T) && PrioRange(T)
      requires me != init
      requires AllSlots(order) && AllSlots(T.lists[l])
      requires (Abs(), found0) == ReparentScan(T, order, me, init)
      modifies this
      ensures !panic && Valid() && AllSlots(order + T.lists[l])
      ensures (Abs(), found) == ReparentScan(T, order + T.lists[l], me, init)
    {
      hide Partition, Rep, ReparentScan, Slots, PrioRange, PrioOk;
      ReparentConcat(T, order, T.lists[l], me, init);
      found, panic := found0, false;
      if !found {
        found, panic := ExitSearch(l, me, init);
      }
    }

    /** exit()'s search of all lists. */
    method ExitSearchLists(me: int, init: int) returns (panic: bool)
      requires Valid() && me != init
      modifies this
      ensures !panic && Valid() && Slots(old(Abs())) && Abs() == Reparent(old(Abs()), me, init)
    {
      hide Partition, Rep, ReparentScan, Slots, PrioOk, Reparent, AllSlots, PrioRange, ScanPrefix, ScanOrder;
      ghost var T := Abs();
      TableSlots(T);
      ReparentIs(T, me, init);
      hide Inv;
      var found;
      found, panic := ExitSearch(EMBRYO, me, init);
      ghost var order := T.lists[EMBRYO];
      PrefixSteps(T.lists, 0);
      var i := 0;
      while i < MAXPRIO + 1
        invariant 0 <= i <= MAXPRIO + 1 && !panic && Valid() && AllSlots(order)
        invariant order == ScanPrefix(T.lists, i)
        invariant (Abs(), found) == ReparentScan(T, order, me, init)
      {
        PrefixSteps(T.lists, i);
        found, panic := ExitNext(i, me, init, found, T, order);
        order := order + T.lists[i];
        i := i + 1;
      }
      found, panic := ExitNext(SLEEP, me, init, found, T, order);
      order := order + T.lists[SLEEP];
      found, panic := ExitNext(RUNNING, me, init, found, T, order);
      order := order + T.lists[RUNNING];
      found, panic := ExitNext(ZOMBIE, me, init, found, T, order);
    }

    /** exit() from the point where it takes ptable.lock; init must not exit. */
    method Exit(p: int, init: int) returns (panic: bool)
      requires Valid() && IsSlot(p) && p in lists[RUNNING]
      modifies this
      ensures panic <==> p == init
      ensures !panic ==> Valid() && Abs() == Scheduler.Exit(old(Abs()), p, init)
    {
      hide Partition, Rep, Slots, PrioOk, Wakeup, Reparent;
      if p == init {
        return true;
      }
      PartitionSlots(Abs());
      WakeupKeepsRunning(Abs(), procs[p].parent);
      ExitInv(Abs(), p, init);
      panic := Wakeup1(procs[p].parent);
      PartitionSlots(Abs());
      ReparentKeepsRunning(Abs(), p, init);
      panic := ExitSearchLists(p, init);
      InList(Abs(), RUNNING, p);
      panic := ChangeState(RUNNING, ZOMBIE, p);
    }

    // ---- scheduler

    /** promoteProcs(): level by level, every process moves to the end of the level below. */
    method PromoteProcs() returns (panic: bool)
      requires Valid()
      modifies this
      ensures !panic && Valid() && Abs() == Promote(old(Abs()))
    {
      hide Partition, Rep, PrioOk, Promote, DrainTo, Boosted, Drained, Slots;
      ghost var T := Abs();
      TableSlots(T);
      PromoteInv(T);
      DrainStart(T);
      PromoteIsDrain(T);
      panic := false;
      var i := 1;
      while i < MAXPRIO + 1
        invariant 1 <= i <= MAXPRIO + 1 && !panic && Valid() && Abs() == DrainTo(T, i)
      {
        DrainNext(T, i);
        panic := DrainLevel(i);
        i := i + 1;
      }
      TableSlots(Abs());
      BoostedPartition(Abs(), lists[SLEEP]);
      BoostList(SLEEP);
      TableSlots(Abs());
      BoostList(RUNNING);
    }

    /** The inner loop of promoteProcs() for one level. */
    method DrainLevel(i: int) returns (panic: bool)
      requires Valid() && 1 <= i <= MAXPRIO
      modifies this
      ensures !panic && Valid() && Sized(old(Abs())) && Abs() == Drained(old(Abs()), i)
    {
      hide Partition, Rep, PrioOk, Drained;
      ghost var T := Abs();
      TableSlots(T);
      panic := false;
      WalkStart(head, tail, next, lists, i);
      var p := head[i];
      while p != -1
        invariant Valid() && !panic && p == (if lists[i] != [] then lists[i][0] else -1)
        invariant Sized(Abs()) && Drained(Abs(), i) == Drained(T, i)
        decreases |lists[i]|
      {
        TableSlots(Abs());
        DrainStep(Abs(), i);
        panic := PromoteHead(i);
        WalkStart(head, tail, next, lists, i);
        p := head[i];
      }
      TableSlots(Abs());
      DrainedEmpty(Abs(), i);
    }

    /** One iteration of it. */
    method PromoteHead(i: int) returns (panic: bool)
      requires Valid() && 1 <= i <= MAXPRIO && lists[i] != []
      modifies this
      ensures !panic && Valid() && Sized(old(Abs())) && IsSlot(old(lists[i])[0]) && Abs() == PromoteOne(old(Abs()), i)
    {
      hide Partition, Rep, PrioOk, Without;
      ghost var T := Abs();
      TableSlots(T);
      PromoteOneInv(T, i);
      WalkStart(head, tail, next, lists, i);
      var p := head[i];
      InList(T, i, p);
      var rc := StateListRemove(i, p);
      if rc == -1 || procs[p].state != Runnable || procs[p].priority != i {
        return true;
      }
      procs := procs[p := procs[p].(priority := procs[p].priority - 1)];
      procs := procs[p := procs[p].(budget := MAX_BUDGET)];
      RemovedFrom(T, i, p, lists);
      StateListAdd(i - 1, p);
      assert procs == PromoteOne(T, i).procs;
      return false;
    }

    /** promoteProcs() on a list that keeps its processes: sleep or running. */
    method BoostList(l: int)
      requires Linked() && Partition(Abs()) && Slots(Abs()) && IsLid(l)
      modifies this`procs
      ensures Linked() && procs == Boosted(old(procs), lists[l])
    {
      hide Partition, Rep;
      TableSlots(Abs());
      ghost var s, k := lists[l], 0;
      WalkStart(head, tail, next, lists, l);
      WalkEnd(head, tail, next, lists, l);
      assert Boosted(procs, s[..0]) == procs;
      hide Distinct;
      var p := head[l];
      while p != -1
        invariant 0 <= k <= |s| && Linked() && lists == old(lists)
        invariant p == if k < |s| then s[k] else -1
        invariant procs == Boosted(old(procs), s[..k])
        decreases |s| - k
      {
        Walk(head, tail, next, lists, l, k);
        BoostedNext(old(procs), s, k);
        if procs[p].priority > 0 {
          procs := procs[p := procs[p].(priority := procs[p].priority - 1)];
        }
        procs := procs[p := procs[p].(budget := MAX_BUDGET)];
        p := next[p];
        k := k + 1;
      }
      assert s[..k] == s;
    }

    /** scheduler()'s choice from the ready lists. */
    method DispatchNext(ticks: int) returns (panic: bool)
      requires Valid() && Slots(Abs())
      modifies this
      ensures !panic && Valid() && Abs() == Dispatch(old(Abs()), ticks)
    {
      hide Partition, Rep, PrioOk, Slots, Move;
      ghost var T := Abs();
      DispatchInv(T, ticks);
      ghost var f := (s: seq<int>) => s != [];
      var i := 0;
      while i < MAXPRIO + 1
        invariant 0 <= i <= MAXPRIO + 1 && Valid() && Abs() == T
        invariant FindLevel(T.lists, 0, f) == FindLevel(T.lists, i, f)
      {
        WalkStart(head, tail, next, lists, i);
        var p := head[i];
        if p != -1 {
          panic := Run(i, ticks);
          return;
        }
        HeadNull(T, i);
        i := i + 1;
      }
      panic := false;
    }

    /** The head of ready list i becomes the running process. */
    method Run(i: int, ticks: int) returns (panic: bool)
      requires Valid() && 0 <= i <= MAXPRIO && lists[i] != []
      modifies this
      ensures !panic && Linked() && IsSlot(old(lists[i])[0])
      ensures var p := old(lists[i])[0];
        Abs() == Move(old(Abs()).(procs := old(procs)[p := old(procs)[p].(ticksIn := ticks)]), p, i, RUNNING)
    {
      hide Partition, Rep, Without;
      ghost var T := Abs();
      WalkStart(head, tail, next, lists, i);
      var p := head[i];
      InList(T, i, p);
      hide PrioOk;
      var rc := StateListRemove(i, p);
      if rc == -1 || procs[p].state != Runnable || procs[p].priority != i {
        return true;
      }
      procs := procs[p := procs[p].(state := Running)];
      RemovedFrom(T, i, p, lists);
      StateListAdd(RUNNING, p);
      procs := procs[p := procs[p].(ticksIn := ticks)];
      assert procs == Move(T.(procs := T.procs[p := T.procs[p].(ticksIn := ticks)]), p, i, RUNNING).procs;
      return false;
    }

    /** One iteration of scheduler() up to the switch. */
    method ScheduleOnce(ticks: int) returns (panic: bool)
      requires Valid()
      modifies this
      ensures !panic && Valid() && Abs() == Schedule(old(Abs()), ticks)
    {
      hide Partition, Rep, PrioOk, Slots, Promote, Dispatch;
      ghost var T := Abs();
      if ticks >= promoteAt {
        panic := PromoteProcs();
        InvFrame(Abs(), Abs().(promoteAt := ticks + TICKS_TO_PROMOTE));
        promoteAt := ticks + TICKS_TO_PROMOTE;
      }
      PartitionSlots(Abs());
      panic := DispatchNext(ticks);
    }

    /** initProcessLists() and initFreeList(): every slot is unused and on the free list, in slot order. */
    constructor (ticks: int)
      ensures Valid() && lists == seq(NLISTS, _ => [])[FREE := seq(NPROC, i => i)]
      ensures procs == seq(NPROC, _ => Proc(Unused, 0, -1, -1, false, 0, 0, 0))
      ensures nextpid == 1 && promoteAt == ticks + TICKS_TO_PROMOTE
    {
      head := seq(NLISTS, _ => -1);
      tail := seq(NLISTS, _ => -1);
      next := seq(NPROC, _ => -1);
      procs := seq(NPROC, _ => Proc(Unused, 0, -1, -1, false, 0, 0, 0));
      nextpid := 1;
      promoteAt := ticks + TICKS_TO_PROMOTE;
      lists := seq(NLISTS, _ => []);
      new;
      ghost var blank := procs[0];
      assert seq(0, i => i) == [];
      var p := 0;
      while p < NPROC
        invariant 0 <= p <= NPROC && Linked() && lists == seq(NLISTS, _ => [])[FREE := seq(p, i => i)]
        invariant procs == seq(NPROC, _ => blank) && nextpid == 1 && promoteAt == ticks + TICKS_TO_PROMOTE
      {
        StateListAdd(FREE, p);
        assert seq(p, i => i) + [p] == seq(p + 1, i => i);
        p := p + 1;
      }
      FreshInv(Abs(), blank);
    }

    /** The rest of userinit(): the first process is put on ready[0] by hand. */
    method UserInit() returns (p: int, panic: bool)
      requires Valid() && lists[FREE] != [] && lists[0] == []
      modifies this
      ensures !panic && Valid() && Slots(old(Abs())) && p == Alloc(old(Abs())).1 && IsSlot(p)
      ensures Abs() == Move(Alloc(old(Abs())).0, p, EMBRYO, 0)
    {
      hide Partition, Rep, PrioOk, Without;
      p, panic := AllocProc(true);
      ghost var T := Abs();
      InitReady(old(Abs()), p);
      InList(T, EMBRYO, p);
      MoveInv(T, p, EMBRYO, 0);
      hide Inv;
      var rc := StateListRemove(EMBRYO, p);
      if rc == -1 || procs[p].state != Embryo {
        return p, true;
      }
      procs := procs[p := procs[p].(state := Runnable)];
      RemovedFrom(T, EMBRYO, p, lists);
      RepAdd(head, tail, next, lists, 0, p);
      head := head[0 := p];
      tail := tail[0 := p];
      next := next[p := -1];
      assert T.lists[0] + [p] == [p];
      lists := lists[0 := [p]];
      assert lists == Move(T, p, EMBRYO, 0).lists;
    }
  }
}
