/**
  What the operations of proc.c do to the process table, on plain sequences: which list each
  process is on, and in which order.  ProcTable shows that the linked-list code computes
  exactly this; the results over whole runs are proved here.
 */
module Scheduler {
  import opened Sequences
  import opened StateLists

  const MAX_BUDGET: int := 200
  const TICKS_TO_PROMOTE: int := 800

  datatype ProcState = Unused | Embryo | Sleeping | Runnable | Running | Zombie

  /** struct proc without its link. */
  datatype Proc = Proc(
    state: ProcState, pid: int, parent: int, chan: int, killed: bool, priority: int, budget: int, ticksIn: int)

  datatype Table = Table(lists: seq<seq<int>>, procs: seq<Proc>, nextpid: int, promoteAt: int)

  function StateOf(l: int): ProcState {
    if l <= MAXPRIO then Runnable
    else if l == FREE then Unused
    else if l == SLEEP then Sleeping
    else if l == ZOMBIE then Zombie
    else if l == RUNNING then Running
    else Embryo
  }

  // ---------------------------------------------------------------- the invariant

  ghost predicate Sized(T: Table) {
    |T.lists| == NLISTS && |T.procs| == NPROC
  }

  ghost predicate OnSomeList(lists: seq<seq<int>>, p: int) {
    exists l :: 0 <= l < |lists| && p in lists[l]
  }

  ghost predicate Holds(procs: seq<Proc>, s: seq<int>, st: ProcState)
    requires |procs| == NPROC
  {
    forall p :: p in s ==> IsSlot(p) && procs[p].state == st
  }

  /** Every process is on exactly one list, once, and the list matches its state. */
  ghost predicate Partition(T: Table) {
    && Sized(T)
    && (forall l :: 0 <= l < NLISTS ==> Distinct(T.lists[l]))
    && (forall l, m :: 0 <= l < NLISTS && 0 <= m < NLISTS && l != m ==> Apart(T.lists[l], T.lists[m]))
    && (forall l :: 0 <= l < NLISTS ==> Holds(T.procs, T.lists[l], StateOf(l)))
    && (forall p :: IsSlot(p) ==> OnSomeList(T.lists, p))
  }

  /** ready[i] holds exactly processes of priority i. */
  ghost predicate PrioOk(T: Table)
    requires Partition(T)
  {
    forall i, p :: 0 <= i <= MAXPRIO && p in T.lists[i] ==> IsSlot(p) && T.procs[p].priority == i
  }

  ghost predicate ProcOk(q: Proc) {
    && 0 <= q.priority <= MAXPRIO
    && (q.state.Embryo? ==> q.priority == 0)
    && (q.state.Unused? ==> q.parent == -1)
  }

  /** What also survives a process on the wrong ready list. */
  ghost predicate Loose(T: Table) {
    Partition(T) && forall p :: IsSlot(p) ==> ProcOk(T.procs[p])
  }

  ghost predicate Inv(T: Table) {
    Loose(T) && PrioOk(T)
  }

  // ---------------------------------------------------------------- moving a process between lists

  function MoveLists(lists: seq<seq<int>>, p: int, from: int, to: int): (r: seq<seq<int>>)
    requires |lists| == NLISTS && IsLid(from) && IsLid(to)
    ensures |r| == NLISTS
  {
    var w := lists[from := Without(lists[from], p)];
    w[to := w[to] + [p]]
  }

  /** changeState: p leaves `from` and joins the end of `to`. */
  function Move(T: Table, p: int, from: int, to: int): (r: Table)
    requires Sized(T) && IsSlot(p) && IsLid(from) && IsLid(to)
    ensures Sized(r)
  {
    T.(lists := MoveLists(T.lists, p, from, to), procs := T.procs[p := T.procs[p].(state := StateOf(to))])
  }

  lemma {:induction false} WithoutMembers(s: seq<int>, p: int)
    requires Distinct(s)
    ensures forall q :: q in Without(s, p) <==> q in s && q != p
  {
    if s != [] {
      assert s == [s[0]] + s[1..];
      assert s[0] !in s[1..];
      assert Distinct(s[1..]);
      hide Distinct;
      if s[0] != p {
        WithoutMembers(s[1..], p);
      }
    }
  }

  lemma WithoutDistinct(s: seq<int>, p: int)
    requires Distinct(s)
    ensures Distinct(Without(s, p))
  {
    hide Without, Distinct;
    if p in s {
      var k: nat :| k < |s| && s[k] == p;
      WithoutAt(s, k);
      DropDistinct(s, k);
    }
  }

  lemma DropDistinct(s: seq<int>, k: nat)
    requires Distinct(s) && k < |s|
    ensures Distinct(s[..k] + s[k + 1..])
  {
    var r := s[..k] + s[k + 1..];
    forall i, j | 0 <= i < j < |r| ensures r[i] != r[j] {
      DropIndex(s, k, i);
      DropIndex(s, k, j);
    }
  }

  lemma DropIndex(s: seq<int>, k: nat, i: nat)
    requires k < |s| && i < |s| - 1
    ensures (s[..k] + s[k + 1..])[i] == s[if i < k then i else i + 1]
  {
  }

  /** Who is on which list after a move. */
  lemma MoveMembers(T: Table, p: int, from: int, to: int)
    requires Partition(T) && IsLid(from) && IsLid(to) && p in T.lists[from]
    ensures var r := MoveLists(T.lists, p, from, to);
      && (forall q, l :: 0 <= l < NLISTS && q != p ==> (q in r[l] <==> q in T.lists[l]))
      && (forall l :: 0 <= l < NLISTS ==> (p in r[l] <==> l == to))
      && (forall l :: 0 <= l < NLISTS ==> Distinct(r[l]))
  {
    WithoutMembers(T.lists[from], p);
    WithoutDistinct(T.lists[from], p);
    hide Without;
    assert forall l :: 0 <= l < NLISTS && l != from ==> Apart(T.lists[from], T.lists[l]);
  }

  lemma MovePartition(T: Table, p: int, from: int, to: int)
    requires Partition(T) && IsLid(from) && IsLid(to) && p in T.lists[from]
    ensures Partition(Move(T, p, from, to))
  {
    var r := Move(T, p, from, to).lists;
    MoveMembers(T, p, from, to);
    hide MoveLists, Without;
    forall q | IsSlot(q) ensures OnSomeList(r, q) {
      if q == p {
        assert p in r[to];
      } else {
        var l :| 0 <= l < NLISTS && q in T.lists[l];
        assert q in r[l];
      }
    }
    forall l, m | 0 <= l < NLISTS && 0 <= m < NLISTS && l != m ensures Apart(r[l], r[m]) {
      assert Apart(T.lists[l], T.lists[m]);
    }
    forall l | 0 <= l < NLISTS ensures Holds(Move(T, p, from, to).procs, r[l], StateOf(l)) {
      assert Holds(T.procs, T.lists[l], StateOf(l));
      assert Holds(T.procs, T.lists[from], StateOf(from));
    }
  }

  lemma MoveArrives(T: Table, p: int, from: int, to: int)
    requires Sized(T) && IsSlot(p) && IsLid(from) && IsLid(to)
    ensures p in Move(T, p, from, to).lists[to]
  {
    hide Without;
  }

  lemma MoveInv(T: Table, p: int, from: int, to: int)
    requires Loose(T) && IsLid(from) && IsLid(to) && p in T.lists[from]
    requires to == EMBRYO ==> T.procs[p].priority == 0
    requires to == FREE ==> T.procs[p].parent == -1
    ensures Loose(Move(T, p, from, to))
    ensures Inv(T) && (to <= MAXPRIO ==> T.procs[p].priority == to) ==> Inv(Move(T, p, from, to))
  {
    MovePartition(T, p, from, to);
    MoveMembers(T, p, from, to);
    hide MoveLists, Without, Distinct, OnSomeList, Apart;
  }

  /** Fields other than state may change freely within these limits. */
  lemma ProcsInv(T: Table, procs: seq<Proc>)
    requires Loose(T) && |procs| == NPROC
    requires forall p :: IsSlot(p) ==> procs[p].state == T.procs[p].state && ProcOk(procs[p])
    requires forall p :: IsSlot(p) && procs[p].state.Runnable? ==> procs[p].priority == T.procs[p].priority
    ensures Loose(T.(procs := procs)) && (Inv(T) ==> Inv(T.(procs := procs)))
  {
    hide Distinct, OnSomeList, Apart;
  }

  // ---------------------------------------------------------------- operations

  /** The first process of a list that satisfies f, or -1. */
  function First(s: seq<int>, procs: seq<Proc>, f: Proc -> bool): (r: int)
    requires forall i :: 0 <= i < |s| ==> 0 <= s[i] < |procs|
    ensures r == -1 <==> forall i :: 0 <= i < |s| ==> !f(procs[s[i]])
    ensures r != -1 ==> r in s && f(procs[r])
    ensures forall k :: 0 <= k < |s| && s[k] == r && Distinct(s) ==>
              forall j :: 0 <= j < k ==> !f(procs[s[j]])
  {
    if s == [] then -1 else if f(procs[s[0]]) then s[0] else First(s[1..], procs, f)
  }

  ghost predicate AllSlots(s: seq<int>) {
    forall i :: 0 <= i < |s| ==> 0 <= s[i] < NPROC
  }

  ghost predicate Slots(T: Table) {
    Sized(T) && forall l, i :: 0 <= l < NLISTS && 0 <= i < |T.lists[l]| ==> IsSlot(T.lists[l][i])
  }

  lemma PartitionSlots(T: Table)
    requires Partition(T)
    ensures Slots(T)
  {
    forall l, i | 0 <= l < NLISTS && 0 <= i < |T.lists[l]| ensures IsSlot(T.lists[l][i]) {
      assert Holds(T.procs, T.lists[l], StateOf(l)) && T.lists[l][i] in T.lists[l];
    }
  }

  /** The lowest ready list from level i on that satisfies f, or -1. */
  function FindLevel(lists: seq<seq<int>>, i: int, f: seq<int> -> bool): (r: int)
    requires |lists| == NLISTS && 0 <= i <= MAXPRIO + 1
    ensures r == -1 <==> forall j :: i <= j <= MAXPRIO ==> !f(lists[j])
    ensures r != -1 ==> i <= r <= MAXPRIO && f(lists[r]) && forall j :: i <= j < r ==> !f(lists[j])
    decreases MAXPRIO + 1 - i
  {
    if i > MAXPRIO then -1 else if f(lists[i]) then i else FindLevel(lists, i + 1, f)
  }

  /** allocproc, under the lock and after it; -1 when no slot is free. */
  function Alloc(T: Table): (r: (Table, int))
    requires Slots(T)
    ensures Sized(r.0)
  {
    if T.lists[FREE] == [] then (T, -1) else
      var p := T.lists[FREE][0];
      var q := T.procs[p].(pid := T.nextpid, priority := 0, budget := MAX_BUDGET);
      (Move(T.(procs := T.procs[p := q], nextpid := T.nextpid + 1), p, FREE, EMBRYO), p)
  }

  /** The end of fork: the new process becomes runnable at level 0. */
  function ForkDone(T: Table, p: int, parent: int): Table
    requires Sized(T) && IsSlot(p)
  {
    Move(T.(procs := T.procs[p := T.procs[p].(parent := parent)]), p, EMBRYO, 0)
  }

  /** Time used is charged to the budget; an exhausted budget demotes. */
  function Charge(q: Proc, ticks: int): Proc {
    var b := q.budget - (ticks - q.ticksIn);
    if b <= 0 then q.(budget := MAX_BUDGET, priority := if q.priority < MAXPRIO then q.priority + 1 else q.priority)
    else q.(budget := b)
  }

  function Yield(T: Table, p: int, ticks: int): Table
    requires Sized(T) && IsSlot(p) && 0 <= T.procs[p].priority <= MAXPRIO
  {
    var q := Charge(T.procs[p], ticks);
    Move(T.(procs := T.procs[p := q]), p, RUNNING, q.priority)
  }

  function SleepOn(T: Table, p: int, chan: int, ticks: int): Table
    requires Sized(T) && IsSlot(p)
  {
    var q := Charge(T.procs[p].(chan := chan), ticks);
    Move(T.(procs := T.procs[p := q]), p, RUNNING, SLEEP)
  }

  /** List-based wakeup1: only the first sleeper on the channel is moved. */
  function Wakeup(T: Table, chan: int): (r: Table)
    requires Slots(T) && forall p :: IsSlot(p) ==> 0 <= T.procs[p].priority <= MAXPRIO
    ensures Sized(r)
  {
    var p := First(T.lists[SLEEP], T.procs, (q: Proc) => q.chan == chan);
    if p == -1 then T else Move(T, p, SLEEP, T.procs[p].priority)
  }

  function SetPrio(q: Proc, prio: int): Proc {
    if q.priority == prio then q else q.(priority := prio, budget := MAX_BUDGET)
  }

  /** setpriority: the ready lists in order, then sleep, then running. */
  function SetPriority(T: Table, pid: int, prio: int): (r: (Table, int))
    requires Slots(T) && 0 <= prio <= MAXPRIO
    ensures Sized(r.0)
  {
    var f := (q: Proc) => q.pid == pid;
    var i := FindPid(T, 0, pid);
    if i != -1 then
      var p := First(T.lists[i], T.procs, f);
      if T.procs[p].priority == prio then (T, 0)
      else (Move(T.(procs := T.procs[p := SetPrio(T.procs[p], prio)]), p, i, prio), 0)
    else
      var s := First(T.lists[SLEEP], T.procs, f);
      if s != -1 then (T.(procs := T.procs[s := SetPrio(T.procs[s], prio)]), 0)
      else
        var r := First(T.lists[RUNNING], T.procs, f);
        if r != -1 then (T.(procs := T.procs[r := SetPrio(T.procs[r], prio)]), 0)
        else (T, -1)
  }

  /** The lowest ready level from i on holding a process with this pid, or -1. */
  function FindPid(T: Table, i: int, pid: int): (r: int)
    requires Slots(T) && 0 <= i <= MAXPRIO + 1
    ensures r != -1 ==> i <= r <= MAXPRIO && First(T.lists[r], T.procs, (q: Proc) => q.pid == pid) != -1
    decreases MAXPRIO + 1 - i
  {
    if i > MAXPRIO then -1
    else if First(T.lists[i], T.procs, (q: Proc) => q.pid == pid) != -1 then i
    else FindPid(T, i + 1, pid)
  }

  // ---- the scheduler

  function PromoteProc(q: Proc): Proc {
    q.(priority := if q.priority > 0 then q.priority - 1 else q.priority, budget := MAX_BUDGET)
  }

  /** promoteProcs: every ready list moves down one level, behind what is there. */
  function PromoteLists(lists: seq<seq<int>>): (r: seq<seq<int>>)
    requires |lists| == NLISTS
    ensures |r| == NLISTS
  {
    [lists[0] + lists[1], lists[2], lists[3], lists[4], lists[5], lists[6], []] + lists[7..]
  }

  function Promote(T: Table): (r: Table)
    requires Sized(T)
    ensures Sized(r)
  {
    T.(lists := PromoteLists(T.lists),
       procs := seq(NPROC, p requires 0 <= p < NPROC =>
         var q := T.procs[p];
         if q.state.Sleeping? || q.state.Running? || (q.state.Runnable? && p !in T.lists[0])
         then PromoteProc(q) else q))
  }

  /** The head of the lowest non-empty ready list runs; nothing happens when all are empty. */
  function Dispatch(T: Table, ticks: int): (r: Table)
    requires Slots(T)
    ensures Sized(r)
  {
    var i := FindLevel(T.lists, 0, (s: seq<int>) => s != []);
    if i == -1 then T else
      var p := T.lists[i][0];
      Move(T.(procs := T.procs[p := T.procs[p].(ticksIn := ticks)]), p, i, RUNNING)
  }

  /** The part of one scheduler() iteration before the switch to the chosen process. */
  function Schedule(T: Table, ticks: int): (r: Table)
    requires Partition(T)
    ensures Sized(r)
  {
    PartitionSlots(T);
    var U := if ticks >= T.promoteAt then Promote(T).(promoteAt := ticks + TICKS_TO_PROMOTE) else T;
    PromoteSlots(T);
    Dispatch(U, ticks)
  }

  lemma PromoteSlots(T: Table)
    requires Slots(T)
    ensures Slots(Promote(T))
  {
    var r := PromoteLists(T.lists);
    forall l, i | 0 <= l < NLISTS && 0 <= i < |r[l]| ensures IsSlot(r[l][i]) {
      if l == 0 {
        if i >= |T.lists[0]| {
          assert r[0][i] == T.lists[1][i - |T.lists[0]|];
        }
      }
    }
  }

  // ---- wait, exit and kill search the lists in this order

  function ScanOrder(lists: seq<seq<int>>): seq<int>
    requires |lists| == NLISTS
  {
    ScanPrefix(lists, MAXPRIO + 1) + lists[SLEEP] + lists[RUNNING] + lists[ZOMBIE]
  }

  /** The embryo list and the first n ready lists. */
  function ScanPrefix(lists: seq<seq<int>>, n: int): seq<int>
    requires |lists| == NLISTS && 0 <= n <= MAXPRIO + 1
  {
    if n == 0 then lists[EMBRYO] else ScanPrefix(lists, n - 1) + lists[n - 1]
  }

  lemma {:induction false} PrefixMember(lists: seq<seq<int>>, n: int, p: int)
    requires |lists| == NLISTS && 0 <= n <= MAXPRIO + 1
    ensures p in ScanPrefix(lists, n) <==> p in lists[EMBRYO] || exists i :: 0 <= i < n && p in lists[i]
  {
    if n > 0 {
      PrefixMember(lists, n - 1, p);
    }
  }

  /** The search covers every list but the free list. */
  lemma ScanMember(lists: seq<seq<int>>, p: int)
    requires |lists| == NLISTS
    ensures p in ScanOrder(lists) <==> exists l :: 0 <= l < NLISTS && l != FREE && p in lists[l]
  {
    PrefixMember(lists, MAXPRIO + 1, p);
    hide ScanPrefix;
  }

  lemma ScanSlots(T: Table)
    requires Slots(T)
    ensures AllSlots(ScanOrder(T.lists))
    ensures forall p :: p in ScanOrder(T.lists) ==> IsSlot(p)
  {
    var order := ScanOrder(T.lists);
    forall p | p in order ensures IsSlot(p) {
      ScanMember(T.lists, p);
    }
    assert forall i :: 0 <= i < |order| ==> order[i] in order;
  }

  /** One pass of wait(): the first zombie child, in list order, is reaped. */
  function Reap(T: Table, me: int): (r: (Table, int))
    requires Slots(T)
    ensures Sized(r.0)
  {
    var p := First(T.lists[ZOMBIE], T.procs, (q: Proc) => q.parent == me);
    if p == -1 then (T, -1) else
      var q := T.procs[p].(pid := 0, parent := -1, killed := false);
      (Move(T.(procs := T.procs[p := q]), p, ZOMBIE, FREE), T.procs[p].pid)
  }

  /** Children found in this order are handed to init; the search stops at the first when there is any zombie. */
  function ReparentScan(T: Table, order: seq<int>, me: int, init: int): (r: (Table, bool))
    requires Slots(T) && forall p :: IsSlot(p) ==> 0 <= T.procs[p].priority <= MAXPRIO
    requires AllSlots(order)
    ensures Sized(r.0)
  {
    if T.lists[ZOMBIE] == [] then
      (T.(procs := seq(NPROC, p requires 0 <= p < NPROC =>
        if p in order && T.procs[p].parent == me then T.procs[p].(parent := init) else T.procs[p])), false)
    else
      var p := First(order, T.procs, (q: Proc) => q.parent == me);
      if p == -1 then (T, false) else
        var U := T.(procs := T.procs[p := T.procs[p].(parent := init)]);
        (if p == T.lists[ZOMBIE][0] then Wakeup(U, init) else U, true)
  }

  function Reparent(T: Table, me: int, init: int): (r: Table)
    requires Slots(T) && forall p :: IsSlot(p) ==> 0 <= T.procs[p].priority <= MAXPRIO
    ensures Sized(r)
  {
    ScanSlots(T);
    ReparentScan(T, ScanOrder(T.lists), me, init).0
  }

  /** exit(), after the files are closed. */
  function Exit(T: Table, p: int, init: int): (r: Table)
    requires Loose(T) && IsSlot(p)
    ensures Sized(r)
  {
    PartitionSlots(T);
    WakeupInv(T, T.procs[p].parent);
    var U := Wakeup(T, T.procs[p].parent);
    PartitionSlots(U);
    Move(Reparent(U, p, init), p, RUNNING, ZOMBIE)
  }

  /** kill(): a killed sleeper is woken only if it heads the sleep list, and then joins level 0. */
  function KillScan(T: Table, order: seq<int>, pid: int): (r: (Table, int))
    requires Slots(T) && AllSlots(order)
    ensures Sized(r.0)
  {
    if T.lists[SLEEP] == [] then
      (T.(procs := seq(NPROC, p requires 0 <= p < NPROC =>
        if p in order && T.procs[p].pid == pid then T.procs[p].(killed := true) else T.procs[p])), -1)
    else
      var p := First(order, T.procs, (q: Proc) => q.pid == pid);
      if p == -1 then (T, -1) else
        var U := T.(procs := T.procs[p := T.procs[p].(killed := true)]);
        (if p == T.lists[SLEEP][0] then Move(U, p, SLEEP, 0) else U, 0)
  }

  function Kill(T: Table, pid: int): (r: (Table, int))
    requires Slots(T)
    ensures Sized(r.0)
  {
    ScanSlots(T);
    KillScan(T, ScanOrder(T.lists), pid)
  }

  function KillTarget(T: Table, pid: int): (p: int)
    requires Slots(T)
    ensures p == -1 || IsSlot(p)
  {
    ScanSlots(T);
    First(ScanOrder(T.lists), T.procs, (q: Proc) => q.pid == pid)
  }

  // ---------------------------------------------------------------- every operation keeps the invariant

  lemma InList(T: Table, l: int, p: int)
    requires Partition(T) && IsLid(l) && p in T.lists[l]
    ensures IsSlot(p) && T.procs[p].state == StateOf(l)
  {
    assert Holds(T.procs, T.lists[l], StateOf(l));
  }

  /** A process is on the list of its state; a runnable one is on some ready list. */
  lemma StateOnList(T: Table, p: int, l: int)
    requires Partition(T) && IsSlot(p) && MAXPRIO < l < NLISTS && T.procs[p].state == StateOf(l)
    ensures p in T.lists[l]
  {
    var m :| 0 <= m < NLISTS && p in T.lists[m];
    InList(T, m, p);
  }

  lemma WakeupInv(T: Table, chan: int)
    requires Loose(T) && Slots(T)
    ensures Loose(Wakeup(T, chan)) && (Inv(T) ==> Inv(Wakeup(T, chan)))
  {
    hide Partition;
    var p := First(T.lists[SLEEP], T.procs, (q: Proc) => q.chan == chan);
    if p != -1 {
      MoveInv(T, p, SLEEP, T.procs[p].priority);
    }
  }

  lemma AllocInv(T: Table)
    requires Loose(T) && Slots(T)
    ensures Loose(Alloc(T).0) && (Inv(T) ==> Inv(Alloc(T).0))
    ensures Alloc(T).1 != -1 ==> Alloc(T).1 in Alloc(T).0.lists[EMBRYO]
  {
    if T.lists[FREE] != [] {
      var p := T.lists[FREE][0];
      var q := T.procs[p].(pid := T.nextpid, priority := 0, budget := MAX_BUDGET);
      var U := T.(procs := T.procs[p := q]);
      InList(T, FREE, p);
      hide Partition, PrioOk, Move;
      ProcsInv(T, U.procs);
      InvFrame(U, U.(nextpid := T.nextpid + 1));
      MoveInv(U.(nextpid := T.nextpid + 1), p, FREE, EMBRYO);
      MoveArrives(U.(nextpid := T.nextpid + 1), p, FREE, EMBRYO);
    }
  }

  lemma InvFrame(T: Table, U: Table)
    requires Loose(T) && U.lists == T.lists && U.procs == T.procs
    ensures Loose(U) && (Inv(T) ==> Inv(U))
  {
    hide Distinct, OnSomeList, Apart;
  }

  lemma AbortInv(T: Table, p: int)
    requires Loose(T) && p in T.lists[EMBRYO] && IsSlot(p) && T.procs[p].parent == -1
    ensures Loose(Move(T, p, EMBRYO, FREE)) && (Inv(T) ==> Inv(Move(T, p, EMBRYO, FREE)))
  {
    MoveInv(T, p, EMBRYO, FREE);
  }

  lemma ForkInv(T: Table, p: int, parent: int)
    requires Loose(T) && p in T.lists[EMBRYO] && IsSlot(p)
    ensures Loose(ForkDone(T, p, parent)) && (Inv(T) ==> Inv(ForkDone(T, p, parent)))
  {
    InList(T, EMBRYO, p);
    var U := T.(procs := T.procs[p := T.procs[p].(parent := parent)]);
    hide Partition;
    ProcsInv(T, U.procs);
    MoveInv(U, p, EMBRYO, 0);
  }

  lemma ChargedInv(T: Table, p: int, chan: int, ticks: int)
    requires Loose(T) && IsSlot(p) && T.procs[p].state.Running?
    ensures var q := Charge(T.procs[p].(chan := chan), ticks);
      var U := T.(procs := T.procs[p := q]);
      Loose(U) && (Inv(T) ==> Inv(U)) && 0 <= q.priority <= MAXPRIO
  {
    assert Sized(T);
    hide Partition;
    ProcsInv(T, T.procs[p := Charge(T.procs[p].(chan := chan), ticks)]);
  }

  lemma YieldInv(T: Table, p: int, ticks: int)
    requires Loose(T) && IsSlot(p) && p in T.lists[RUNNING]
    ensures Loose(Yield(T, p, ticks)) && (Inv(T) ==> Inv(Yield(T, p, ticks)))
  {
    InList(T, RUNNING, p);
    var q := Charge(T.procs[p], ticks);
    ChargedInv(T, p, T.procs[p].chan, ticks);
    hide Partition;
    MoveInv(T.(procs := T.procs[p := q]), p, RUNNING, q.priority);
  }

  lemma SleepInv(T: Table, p: int, chan: int, ticks: int)
    requires Loose(T) && IsSlot(p) && p in T.lists[RUNNING]
    ensures Loose(SleepOn(T, p, chan, ticks)) && (Inv(T) ==> Inv(SleepOn(T, p, chan, ticks)))
  {
    InList(T, RUNNING, p);
    ChargedInv(T, p, chan, ticks);
    hide Partition;
    MoveInv(T.(procs := T.procs[p := Charge(T.procs[p].(chan := chan), ticks)]), p, RUNNING, SLEEP);
  }

  lemma SetPrioInv(T: Table, p: int, l: int, prio: int)
    requires Loose(T) && IsLid(l) && p in T.lists[l] && l != EMBRYO && l > MAXPRIO && 0 <= prio <= MAXPRIO
    ensures IsSlot(p) && |T.procs| == NPROC
    ensures var U := T.(procs := T.procs[p := SetPrio(T.procs[p], prio)]);
      Loose(U) && (Inv(T) ==> Inv(U))
  {
    InList(T, l, p);
    assert Sized(T);
    hide Partition;
    ProcsInv(T, T.procs[p := SetPrio(T.procs[p], prio)]);
  }

  lemma SetPriorityInv(T: Table, pid: int, prio: int)
    requires Loose(T) && Slots(T) && 0 <= prio <= MAXPRIO
    ensures Loose(SetPriority(T, pid, prio).0) && (Inv(T) ==> Inv(SetPriority(T, pid, prio).0))
  {
    hide Partition, Inv, Move;
    var f := (q: Proc) => q.pid == pid;
    var i := FindPid(T, 0, pid);
    if i != -1 {
      var p := First(T.lists[i], T.procs, f);
      Requeue(T, p, i, prio);
    } else {
      var p := First(T.lists[SLEEP], T.procs, f);
      var q := First(T.lists[RUNNING], T.procs, f);
      if p != -1 {
        SetPrioInv(T, p, SLEEP, prio);
      } else if q != -1 {
        SetPrioInv(T, q, RUNNING, prio);
      }
    }
  }

  lemma FieldsPartition(T: Table, procs: seq<Proc>)
    requires Partition(T) && |procs| == NPROC && forall p :: IsSlot(p) ==> procs[p].state == T.procs[p].state
    ensures Partition(T.(procs := procs))
  {
    hide Distinct, OnSomeList, Apart;
  }

  lemma Requeue(T: Table, p: int, i: int, prio: int)
    requires Loose(T) && IsSlot(p) && 0 <= i <= MAXPRIO && p in T.lists[i] && 0 <= prio <= MAXPRIO
    ensures var U := Move(T.(procs := T.procs[p := SetPrio(T.procs[p], prio)]), p, i, prio);
      Loose(U) && (Inv(T) ==> Inv(U))
  {
    var U := T.(procs := T.procs[p := SetPrio(T.procs[p], prio)]);
    InList(T, i, p);
    FieldsPartition(T, U.procs);
    MovePartition(U, p, i, prio);
    MoveMembers(U, p, i, prio);
    hide MoveLists, Partition;
  }

  // ---- the scheduler

  lemma PromoteMembers(lists: seq<seq<int>>, p: int)
    requires |lists| == NLISTS
    ensures var r := PromoteLists(lists);
      && (p in r[0] <==> p in lists[0] || p in lists[1])
      && (forall i :: 1 <= i < MAXPRIO ==> (p in r[i] <==> p in lists[i + 1]))
      && p !in r[MAXPRIO]
      && (forall l :: MAXPRIO < l < NLISTS ==> r[l] == lists[l])
  {
    var r := PromoteLists(lists);
    forall i | 1 <= i < MAXPRIO ensures r[i] == lists[i + 1] {
      assert i == 1 || i == 2 || i == 3 || i == 4 || i == 5;
    }
  }

  /** The list a process is on after a promotion. */
  function PromotedLid(l: int): int {
    if 1 <= l <= MAXPRIO then l - 1 else l
  }

  lemma PromoteListOf(T: Table, p: int, l: int)
    requires Partition(T) && IsLid(l) && p in T.lists[l]
    ensures p in PromoteLists(T.lists)[PromotedLid(l)]
    ensures forall m :: 0 <= m < NLISTS && p in PromoteLists(T.lists)[m] ==> m == PromotedLid(l)
  {
    PromoteMembers(T.lists, p);
    forall m | 0 <= m < NLISTS && m != l ensures p !in T.lists[m] {
      assert Apart(T.lists[l], T.lists[m]);
    }
    hide PromoteLists, Partition;
  }

  lemma DistinctConcat(a: seq<int>, b: seq<int>)
    requires Distinct(a) && Distinct(b) && Apart(a, b)
    ensures Distinct(a + b)
  {
    forall i, j | 0 <= i < j < |a + b| ensures (a + b)[i] != (a + b)[j] {
      if i < |a| <= j {
        assert a[i] in a && b[j - |a|] in b;
      }
    }
  }

  lemma PromoteSource(T: Table, p: int, l: int)
    requires Partition(T) && IsLid(l) && p in PromoteLists(T.lists)[l]
    ensures OnSomeList(T.lists, p)
  {
    PromoteMembers(T.lists, p);
    hide PromoteLists, Partition;
    if l == 0 {
      assert p in T.lists[0] || p in T.lists[1];
    } else if l < MAXPRIO {
      assert p in T.lists[l + 1];
    } else {
      assert p in T.lists[l];
    }
  }

  ghost function FindList(T: Table, p: int): (l: int)
    requires Sized(T) && OnSomeList(T.lists, p)
    ensures IsLid(l) && p in T.lists[l]
  {
    var l :| 0 <= l < NLISTS && p in T.lists[l];
    l
  }

  /** Where a process on list l after a promotion came from. */
  lemma PromotedFrom(T: Table, p: int, l: int) returns (k: int)
    requires Partition(T) && IsLid(l) && p in PromoteLists(T.lists)[l]
    ensures IsLid(k) && p in T.lists[k] && PromotedLid(k) == l
    ensures IsSlot(p) && T.procs[p].state == StateOf(l) == StateOf(k)
    ensures forall m :: 0 <= m < NLISTS && p in PromoteLists(T.lists)[m] ==> m == l
  {
    PromoteSource(T, p, l);
    k := FindList(T, p);
    PromoteListOf(T, p, k);
    InList(T, k, p);
    hide Partition, PromoteLists;
  }

  lemma PromoteDistinct(T: Table)
    requires Partition(T)
    ensures forall l :: 0 <= l < NLISTS ==> Distinct(Promote(T).lists[l])
  {
    assert Apart(T.lists[0], T.lists[1]);
    DistinctConcat(T.lists[0], T.lists[1]);
    hide Distinct, Apart, OnSomeList, Holds;
  }

  lemma PromoteHolds(T: Table)
    requires Partition(T)
    ensures forall l :: 0 <= l < NLISTS ==> Holds(Promote(T).procs, Promote(T).lists[l], StateOf(l))
  {
    assert Sized(T);
    hide Partition, PromoteLists;
    var U := Promote(T);
    forall l | 0 <= l < NLISTS ensures Holds(U.procs, U.lists[l], StateOf(l)) {
      forall p | p in U.lists[l] ensures IsSlot(p) && U.procs[p].state == StateOf(l) {
        var k := PromotedFrom(T, p, l);
      }
    }
  }

  lemma PromotePartition(T: Table)
    requires Partition(T)
    ensures Partition(Promote(T))
  {
    PromoteDistinct(T);
    PromoteApart(T);
    PromoteHolds(T);
    hide Distinct, Apart, PromoteLists, Holds;
    forall p | IsSlot(p) ensures OnSomeList(Promote(T).lists, p) {
      var l :| 0 <= l < NLISTS && p in T.lists[l];
      PromoteListOf(T, p, l);
    }
    hide OnSomeList, Promote;
  }

  lemma PromoteApart(T: Table)
    requires Partition(T)
    ensures var r := Promote(T).lists;
      forall l, m :: 0 <= l < NLISTS && 0 <= m < NLISTS && l != m ==> Apart(r[l], r[m])
  {
    var r := Promote(T).lists;
    hide Partition, PromoteLists;
    forall l, m | 0 <= l < NLISTS && 0 <= m < NLISTS && l != m ensures Apart(r[l], r[m]) {
      forall p | p in r[l] ensures p !in r[m] {
        var k := PromotedFrom(T, p, l);
      }
    }
  }

  lemma PromotedPriority(T: Table, p: int, i: int)
    requires Inv(T) && 0 <= i <= MAXPRIO && p in PromoteLists(T.lists)[i]
    ensures IsSlot(p) && Promote(T).procs[p].priority == i
  {
    var k := PromotedFrom(T, p, i);
    assert k == 0 || Apart(T.lists[0], T.lists[k]);
    assert p in T.lists[0] <==> k == 0;
    hide Partition, PromoteLists;
  }

  lemma PromotePrioOk(T: Table)
    requires Inv(T) && Partition(Promote(T))
    ensures PrioOk(Promote(T))
  {
    assert Sized(T);
    hide Partition, PromoteLists;
    forall i, p | 0 <= i <= MAXPRIO && p in Promote(T).lists[i] ensures IsSlot(p) && Promote(T).procs[p].priority == i {
      PromotedPriority(T, p, i);
    }
  }

  lemma PromotedOk(T: Table)
    requires Loose(T)
    ensures forall p :: IsSlot(p) ==> ProcOk(Promote(T).procs[p])
  {
    assert Sized(T);
    hide Partition, PromoteLists;
  }

  lemma PromoteInv(T: Table)
    requires Loose(T)
    ensures Loose(Promote(T)) && (Inv(T) ==> Inv(Promote(T)))
  {
    hide Partition, PrioOk, Promote;
    PromotePartition(T);
    PromotedOk(T);
    if Inv(T) {
      PromotePrioOk(T);
    }
  }

  lemma DispatchInv(T: Table, ticks: int)
    requires Loose(T) && Slots(T)
    ensures Loose(Dispatch(T, ticks)) && (Inv(T) ==> Inv(Dispatch(T, ticks)))
  {
    var i := FindLevel(T.lists, 0, (s: seq<int>) => s != []);
    if i != -1 {
      var p := T.lists[i][0];
      InList(T, i, p);
      var U := T.(procs := T.procs[p := T.procs[p].(ticksIn := ticks)]);
      hide Partition, PrioOk;
      ProcsInv(T, U.procs);
      MoveInv(U, p, i, RUNNING);
    }
  }

  lemma ScheduleInv(T: Table, ticks: int)
    requires Loose(T)
    ensures Loose(Schedule(T, ticks)) && (Inv(T) ==> Inv(Schedule(T, ticks)))
  {
    PartitionSlots(T);
    hide Partition, Dispatch;
    if ticks >= T.promoteAt {
      var U := Promote(T).(promoteAt := ticks + TICKS_TO_PROMOTE);
      PromoteInv(T);
      InvFrame(Promote(T), U);
      PartitionSlots(U);
      DispatchInv(U, ticks);
    } else {
      DispatchInv(T, ticks);
    }
  }

  // ---- wait, exit, kill

  lemma ReapInv(T: Table, me: int)
    requires Loose(T) && Slots(T)
    ensures Loose(Reap(T, me).0) && (Inv(T) ==> Inv(Reap(T, me).0))
  {
    var p := First(T.lists[ZOMBIE], T.procs, (q: Proc) => q.parent == me);
    if p != -1 {
      InList(T, ZOMBIE, p);
      var U := T.(procs := T.procs[p := T.procs[p].(pid := 0, parent := -1, killed := false)]);
      hide Partition, PrioOk;
      ProcsInv(T, U.procs);
      MoveInv(U, p, ZOMBIE, FREE);
    }
  }

  lemma InScan(T: Table, p: int)
    requires Partition(T) && p in ScanOrder(T.lists)
    ensures IsSlot(p) && !T.procs[p].state.Unused?
  {
    ScanMember(T.lists, p);
    var l :| 0 <= l < NLISTS && l != FREE && p in T.lists[l];
    InList(T, l, p);
  }

  lemma WakeupKeepsRunning(T: Table, chan: int)
    requires Slots(T) && forall p :: IsSlot(p) ==> 0 <= T.procs[p].priority <= MAXPRIO
    ensures Wakeup(T, chan).lists[RUNNING] == T.lists[RUNNING]
  {
    hide First, Without;
  }

  lemma ReparentKeepsRunning(T: Table, me: int, init: int)
    requires Slots(T) && forall p :: IsSlot(p) ==> 0 <= T.procs[p].priority <= MAXPRIO
    ensures Reparent(T, me, init).lists[RUNNING] == T.lists[RUNNING]
  {
    ScanSlots(T);
    var p := First(ScanOrder(T.lists), T.procs, (q: Proc) => q.parent == me);
    hide ScanOrder, First, Wakeup;
    if T.lists[ZOMBIE] != [] && p != -1 {
      WakeupKeepsRunning(T.(procs := T.procs[p := T.procs[p].(parent := init)]), init);
    }
  }

  lemma ParentInv(T: Table, p: int, parent: int)
    requires Loose(T) && p in ScanOrder(T.lists)
    ensures IsSlot(p) && Sized(T)
    ensures var U := T.(procs := T.procs[p := T.procs[p].(parent := parent)]);
      Loose(U) && (Inv(T) ==> Inv(U))
  {
    InScan(T, p);
    assert Sized(T);
    hide Partition, ScanOrder, PrioOk;
    ProcsInv(T, T.procs[p := T.procs[p].(parent := parent)]);
  }

  lemma ReparentInv(T: Table, me: int, init: int)
    requires Loose(T) && Slots(T)
    ensures Loose(Reparent(T, me, init)) && (Inv(T) ==> Inv(Reparent(T, me, init)))
  {
    hide Partition, ScanOrder, PrioOk, Wakeup, First;
    ScanSlots(T);
    if T.lists[ZOMBIE] == [] {
      ReparentAllInv(T, me, init);
    } else {
      var p := First(ScanOrder(T.lists), T.procs, (q: Proc) => q.parent == me);
      if p != -1 {
        ParentInv(T, p, init);
        WakeupInv(T.(procs := T.procs[p := T.procs[p].(parent := init)]), init);
      }
    }
  }

  lemma ReparentAllInv(T: Table, me: int, init: int)
    requires Loose(T) && Slots(T) && T.lists[ZOMBIE] == []
    ensures Loose(Reparent(T, me, init)) && (Inv(T) ==> Inv(Reparent(T, me, init)))
  {
    ScanSlots(T);
    forall p | p in ScanOrder(T.lists) ensures IsSlot(p) && !T.procs[p].state.Unused? {
      InScan(T, p);
    }
    hide Partition, ScanOrder, PrioOk, Wakeup, First;
    ProcsInv(T, Reparent(T, me, init).procs);
  }

  lemma ExitInv(T: Table, p: int, init: int)
    requires Loose(T) && p in T.lists[RUNNING] && IsSlot(p)
    ensures Loose(Exit(T, p, init)) && (Inv(T) ==> Inv(Exit(T, p, init)))
  {
    PartitionSlots(T);
    WakeupInv(T, T.procs[p].parent);
    WakeupKeepsRunning(T, T.procs[p].parent);
    var U := Wakeup(T, T.procs[p].parent);
    PartitionSlots(U);
    hide Partition, Reparent, Wakeup, PrioOk;
    ReparentInv(U, p, init);
    ReparentKeepsRunning(U, p, init);
    MoveInv(Reparent(U, p, init), p, RUNNING, ZOMBIE);
  }

  /** The kill that would put a process of non-zero priority on ready[0] (proc.c:1198). */
  predicate KillUnsafe(T: Table, pid: int)
    requires Slots(T)
  {
    && T.lists[SLEEP] != []
    && KillTarget(T, pid) == T.lists[SLEEP][0]
    && T.procs[T.lists[SLEEP][0]].priority != 0
  }

  /** kill() keeps the partition always, and the priority levels exactly when it is not unsafe. */
  lemma KillInvIff(T: Table, pid: int)
    requires Loose(T) && Slots(T)
    ensures Loose(Kill(T, pid).0)
    ensures Inv(T) ==> (Inv(Kill(T, pid).0) <==> !KillUnsafe(T, pid))
  {
    hide Partition, PrioOk, ScanOrder, First, Move;
    ScanSlots(T);
    var p := KillTarget(T, pid);
    if T.lists[SLEEP] == [] {
      ProcsInv(T, Kill(T, pid).0.procs);
    } else if p != -1 {
      KilledInv(T, p);
      if p == T.lists[SLEEP][0] {
        KilledSleeperInv(T.(procs := T.procs[p := T.procs[p].(killed := true)]), p);
      }
    }
  }

  lemma KilledInv(T: Table, p: int)
    requires Loose(T) && IsSlot(p)
    ensures Sized(T)
    ensures var U := T.(procs := T.procs[p := T.procs[p].(killed := true)]);
      Loose(U) && (Inv(U) <==> Inv(T))
  {
    assert Sized(T);
    var U := T.(procs := T.procs[p := T.procs[p].(killed := true)]);
    hide Partition, PrioOk;
    ProcsInv(T, U.procs);
    ProcsInv(U, T.procs);
  }

  lemma KilledSleeperInv(T: Table, p: int)
    requires Loose(T) && IsSlot(p) && p in T.lists[SLEEP]
    ensures Loose(Move(T, p, SLEEP, 0))
    ensures Inv(T) ==> (Inv(Move(T, p, SLEEP, 0)) <==> T.procs[p].priority == 0)
  {
    MoveInv(T, p, SLEEP, 0);
    MoveMembers(T, p, SLEEP, 0);
    hide MoveLists, Partition;
    assert p in Move(T, p, SLEEP, 0).lists[0];
  }

  // ---------------------------------------------------------------- runs

  datatype Event =
    | AllocE
    | AbortE(p: int)                      // allocproc or fork fails after allocating p
    | ForkE(p: int, parent: int)
    | YieldE(p: int, ticks: int)
    | SleepE(p: int, chan: int, ticks: int)
    | WakeupE(chan: int)
    | SetPriorityE(pid: int, prio: int)
    | ScheduleE(ticks: int)
    | WaitE(me: int)
    | ExitE(p: int, init: int)
    | KillE(pid: int)

  /** Who may do what: only running processes yield, sleep and exit; sys_setpriority checks its range. */
  ghost predicate Able(T: Table, ev: Event)
    requires Partition(T)
  {
    match ev
    case AbortE(p) => p in T.lists[EMBRYO] && IsSlot(p) && T.procs[p].parent == -1
    case ForkE(p, _) => p in T.lists[EMBRYO] && IsSlot(p)
    case YieldE(p, _) => p in T.lists[RUNNING] && IsSlot(p)
    case SleepE(p, _, _) => p in T.lists[RUNNING] && IsSlot(p)
    case SetPriorityE(_, prio) => 0 <= prio <= MAXPRIO
    case ExitE(p, init) => p in T.lists[RUNNING] && IsSlot(p) && p != init
    case _ => true
  }

  /** ... and no kill() puts a process on the wrong ready list. */
  ghost predicate Enabled(T: Table, ev: Event)
    requires Partition(T)
  {
    PartitionSlots(T);
    Able(T, ev) && (ev.KillE? ==> !KillUnsafe(T, ev.pid))
  }

  function Step(T: Table, ev: Event): (r: Table)
    requires Loose(T) && Able(T, ev)
  {
    PartitionSlots(T);
    match ev
    case AllocE => Alloc(T).0
    case AbortE(p) => Move(T, p, EMBRYO, FREE)
    case ForkE(p, parent) => ForkDone(T, p, parent)
    case YieldE(p, ticks) => Yield(T, p, ticks)
    case SleepE(p, chan, ticks) => SleepOn(T, p, chan, ticks)
    case WakeupE(chan) => Wakeup(T, chan)
    case SetPriorityE(pid, prio) => SetPriority(T, pid, prio).0
    case ScheduleE(ticks) => Schedule(T, ticks)
    case WaitE(me) => Reap(T, me).0
    case ExitE(p, init) => Exit(T, p, init)
    case KillE(pid) => Kill(T, pid).0
  }

  /** Every operation keeps every process on exactly the list of its state and priority. */
  lemma StepInv(T: Table, ev: Event)
    requires Loose(T) && Able(T, ev)
    ensures Loose(Step(T, ev)) && (Inv(T) && Enabled(T, ev) ==> Inv(Step(T, ev)))
  {
    hide Partition, PrioOk, Slots;
    PartitionSlots(T);
    hide Alloc, Move, ForkDone, Yield, SleepOn, Wakeup, SetPriority, Schedule, Reap, Exit, Kill, Inv;
    match ev
    case AllocE => AllocInv(T);
    case AbortE(p) => AbortInv(T, p);
    case ForkE(p, parent) => ForkInv(T, p, parent);
    case YieldE(p, ticks) => YieldInv(T, p, ticks);
    case SleepE(p, chan, ticks) => SleepInv(T, p, chan, ticks);
    case SetPriorityE(pid, prio) => SetPriorityInv(T, pid, prio);
    case ExitE(p, init) => ExitInv(T, p, init);
    case KillE(pid) => KillInvIff(T, pid);
    case WakeupE(chan) => WakeupInv(T, chan);
    case ScheduleE(ticks) => ScheduleInv(T, ticks);
    case WaitE(me) => ReapInv(T, me);
  }

  // ---------------------------------------------------------------- no starvation

  /** p waits at ready level i with k processes in front of it. */
  ghost predicate At(T: Table, p: int, i: int, k: int) {
    Sized(T) && 0 <= i <= MAXPRIO && 0 <= k < |T.lists[i]| && T.lists[i][k] == p
  }

  /** Moving another process never pushes p back. */
  lemma MoveRank(T: Table, p: int, i: int, k: int, q: int, from: int, to: int) returns (k': int)
    requires At(T, p, i, k) && Distinct(T.lists[i]) && q != p && IsSlot(q) && IsLid(from) && IsLid(to)
    requires q in T.lists[from]
    ensures At(Move(T, q, from, to), p, i, k') && k' <= k
    ensures from == i && T.lists[i][0] == q ==> k' == k - 1
  {
    if from != i {
      k' := k;
    } else {
      var j: nat :| j < |T.lists[i]| && T.lists[i][j] == q;
      WithoutAt(T.lists[i], j);
      k' := if j < k then k - 1 else k;
      hide Without;
    }
  }

  lemma PromoteRank(T: Table, p: int, i: int, k: int) returns (k': int)
    requires At(T, p, i, k)
    ensures At(Promote(T), p, if i == 0 then 0 else i - 1, k')
    ensures i == 0 ==> k' == k
  {
    k' := if i == 1 then |T.lists[0]| + k else k;
    assert i == 0 || i == 1 || i == 2 || i == 3 || i == 4 || i == 5 || i == 6;
  }

  /** What happens to a waiting process in one step, as long as it is neither chosen nor retargeted. */
  ghost predicate Waits(T: Table, ev: Event, p: int)
    requires Inv(T) && Enabled(T, ev) && IsSlot(p)
  {
    && T.procs[p].state.Runnable?
    && Step(T, ev).procs[p].state.Runnable?
    && (ev.SetPriorityE? ==> ev.pid != T.procs[p].pid)
  }

  predicate Promotes(T: Table, ev: Event) {
    ev.ScheduleE? && ev.ticks >= T.promoteAt
  }

  /** A dispatch of another process: p keeps its level and never falls back; at level 0 it advances. */
  lemma DispatchRank(T: Table, ticks: int, p: int, i: int, k: int) returns (k': int)
    requires Partition(T) && Slots(T) && At(T, p, i, k)
    requires Dispatch(T, ticks).procs[p].state.Runnable?
    ensures At(Dispatch(T, ticks), p, i, k') && k' <= k
    ensures i == 0 ==> k' == k - 1
  {
    var j := FindLevel(T.lists, 0, (s: seq<int>) => s != []);
    assert T.lists[i] != [];
    assert j != -1 && j <= i;
    var q := T.lists[j][0];
    var U := T.(procs := T.procs[q := T.procs[q].(ticksIn := ticks)]);
    k' := MoveRank(U, p, i, k, q, j, RUNNING);
  }

  /** A process that comes from outside the ready lists joins behind p, or elsewhere. */
  lemma ArrivalRank(T: Table, U: Table, p: int, i: int, k: int, q: int, from: int, to: int) returns (k': int)
    requires Partition(T) && At(T, p, i, k) && MAXPRIO < from < NLISTS && IsLid(to) && q in T.lists[from]
    requires U.lists == T.lists && Sized(U)
    ensures IsSlot(q) && q != p && At(Move(U, q, from, to), p, i, k') && k' <= k
  {
    InList(T, from, q);
    assert Apart(T.lists[i], T.lists[from]);
    assert p in T.lists[i];
    hide Partition;
    k' := MoveRank(U, p, i, k, q, from, to);
  }

  lemma WakeupRank(T: Table, p: int, i: int, k: int, chan: int) returns (k': int)
    requires Loose(T) && Slots(T) && At(T, p, i, k)
    ensures At(Wakeup(T, chan), p, i, k') && k' <= k
  {
    hide Partition, PrioOk;
    var q := First(T.lists[SLEEP], T.procs, (r: Proc) => r.chan == chan);
    if q == -1 {
      k' := k;
    } else {
      k' := ArrivalRank(T, T, p, i, k, q, SLEEP, T.procs[q].priority);
    }
  }

  lemma ReparentRank(T: Table, p: int, i: int, k: int, me: int, init: int) returns (k': int)
    requires Loose(T) && Slots(T) && At(T, p, i, k)
    ensures At(Reparent(T, me, init), p, i, k') && k' <= k
  {
    ScanSlots(T);
    hide Partition, PrioOk, ScanOrder, Wakeup;
    k' := k;
    var q := First(ScanOrder(T.lists), T.procs, (r: Proc) => r.parent == me);
    if T.lists[ZOMBIE] != [] && q != -1 {
      ParentInv(T, q, init);
      k' := WakeupRank(T.(procs := T.procs[q := T.procs[q].(parent := init)]), p, i, k, init);
      if q != T.lists[ZOMBIE][0] {
        k' := k;
      }
    }
  }

  lemma ExitRank(T: Table, p: int, i: int, k: int, q: int, init: int) returns (k': int)
    requires Loose(T) && IsSlot(q) && q in T.lists[RUNNING] && At(T, p, i, k)
    ensures At(Exit(T, q, init), p, i, k') && k' <= k
  {
    hide Partition, PrioOk, Wakeup, Reparent;
    PartitionSlots(T);
    var chan := T.procs[q].parent;
    WakeupInv(T, chan);
    WakeupKeepsRunning(T, chan);
    k' := WakeupRank(T, p, i, k, chan);
    var U := Wakeup(T, chan);
    PartitionSlots(U);
    ReparentInv(U, q, init);
    ReparentKeepsRunning(U, q, init);
    k' := ReparentRank(U, p, i, k', q, init);
    var R := Reparent(U, q, init);
    k' := ArrivalRank(R, R, p, i, k', q, RUNNING, ZOMBIE);
  }

  lemma SetPriorityRank(T: Table, p: int, i: int, k: int, pid: int, prio: int) returns (k': int)
    requires Loose(T) && Slots(T) && At(T, p, i, k) && IsSlot(p) && 0 <= prio <= MAXPRIO && T.procs[p].pid != pid
    ensures At(SetPriority(T, pid, prio).0, p, i, k') && k' <= k
  {
    var j := FindPid(T, 0, pid);
    k' := k;
    if j != -1 {
      var q := First(T.lists[j], T.procs, (r: Proc) => r.pid == pid);
      if T.procs[q].priority != prio {
        k' := MoveRank(T.(procs := T.procs[q := SetPrio(T.procs[q], prio)]), p, i, k, q, j, prio);
      }
    }
    hide Partition, PrioOk, First, FindPid;
  }

  lemma KillRank(T: Table, p: int, i: int, k: int, pid: int) returns (k': int)
    requires Loose(T) && Slots(T) && At(T, p, i, k)
    ensures At(Kill(T, pid).0, p, i, k') && k' <= k
  {
    ScanSlots(T);
    hide Partition, PrioOk, ScanOrder;
    k' := k;
    if T.lists[SLEEP] != [] {
      var q := KillTarget(T, pid);
      if q == T.lists[SLEEP][0] {
        var U := T.(procs := T.procs[q := T.procs[q].(killed := true)]);
        k' := ArrivalRank(T, U, p, i, k, q, SLEEP, 0);
      }
    }
  }

  lemma ScheduleRank(T: Table, p: int, i: int, k: int, ticks: int) returns (i': int, k': int)
    requires Loose(T) && IsSlot(p) && At(T, p, i, k) && Schedule(T, ticks).procs[p].state.Runnable?
    ensures At(Schedule(T, ticks), p, i', k') && i' <= i && (i' == i ==> k' <= k)
    ensures ticks >= T.promoteAt && i > 0 ==> i' < i
    ensures i == 0 ==> k' == k - 1
  {
    hide PrioOk, Dispatch, Partition;
    PartitionSlots(T);
    if ticks >= T.promoteAt {
      PromotePartition(T);
      var U := Promote(T).(promoteAt := ticks + TICKS_TO_PROMOTE);
      PromoteSlots(T);
      k' := PromoteRank(T, p, i, k);
      i' := if i == 0 then 0 else i - 1;
      assert Partition(U) by { PartitionFrame(Promote(T), U); }
      k' := DispatchRank(U, ticks, p, i', k');
    } else {
      i' := i;
      k' := DispatchRank(T, ticks, p, i, k);
    }
  }

  lemma PartitionFrame(T: Table, U: Table)
    requires Partition(T) && U.lists == T.lists && U.procs == T.procs
    ensures Partition(U)
  {
    hide Distinct, OnSomeList, Apart, Holds;
  }

  /**
    The ranking argument: in every step in which p is neither dispatched nor retargeted, the pair
    (level, position) does not increase; a promotion lowers a level above 0, and at level 0 every
    iteration of the scheduler lowers the position.
   */
  lemma StepRank(T: Table, ev: Event, p: int, i: int, k: int) returns (i': int, k': int)
    requires Loose(T) && Able(T, ev) && IsSlot(p) && At(T, p, i, k)
    requires ev.ScheduleE? ==> Step(T, ev).procs[p].state.Runnable?
    requires ev.SetPriorityE? ==> ev.pid != T.procs[p].pid
    ensures At(Step(T, ev), p, i', k') && i' <= i && (i' == i ==> k' <= k)
    ensures Promotes(T, ev) && i > 0 ==> i' < i
    ensures ev.ScheduleE? && i == 0 ==> k' == k - 1
  {
    hide Partition, PrioOk;
    PartitionSlots(T);
    i' := i;
    match ev
    case AllocE =>
      if T.lists[FREE] == [] {
        k' := k;
      } else {
        var q := T.lists[FREE][0];
        var r := T.procs[q].(pid := T.nextpid, priority := 0, budget := MAX_BUDGET);
        k' := ArrivalRank(T, T.(procs := T.procs[q := r], nextpid := T.nextpid + 1), p, i, k, q, FREE, EMBRYO);
      }
    case AbortE(q) => k' := ArrivalRank(T, T, p, i, k, q, EMBRYO, FREE);
    case ForkE(q, parent) =>
      k' := ArrivalRank(T, T.(procs := T.procs[q := T.procs[q].(parent := parent)]), p, i, k, q, EMBRYO, 0);
    case YieldE(q, ticks) =>
      var r := Charge(T.procs[q], ticks);
      k' := ArrivalRank(T, T.(procs := T.procs[q := r]), p, i, k, q, RUNNING, r.priority);
    case SleepE(q, chan, ticks) =>
      var r := Charge(T.procs[q].(chan := chan), ticks);
      k' := ArrivalRank(T, T.(procs := T.procs[q := r]), p, i, k, q, RUNNING, SLEEP);
    case WakeupE(chan) => k' := WakeupRank(T, p, i, k, chan);
    case SetPriorityE(pid, prio) => k' := SetPriorityRank(T, p, i, k, pid, prio);
    case ScheduleE(ticks) => i', k' := ScheduleRank(T, p, i, k, ticks);
    case WaitE(me) =>
      var q := First(T.lists[ZOMBIE], T.procs, (r: Proc) => r.parent == me);
      if q == -1 {
        k' := k;
      } else {
        var r := T.procs[q].(pid := 0, parent := -1, killed := false);
        k' := ArrivalRank(T, T.(procs := T.procs[q := r]), p, i, k, q, ZOMBIE, FREE);
      }
    case ExitE(q, init) => k' := ExitRank(T, p, i, k, q, init);
    case KillE(pid) => k' := KillRank(T, p, i, k, pid);
  }

  /** p stays on the ready lists, unchosen and not retargeted, throughout the run. */
  ghost predicate WaitsThrough(T: Table, evs: seq<Event>, p: int)
    requires Inv(T) && IsSlot(p)
    decreases |evs|
  {
    T.procs[p].state.Runnable? &&
    (evs != [] ==>
      Enabled(T, evs[0]) && Waits(T, evs[0], p) &&
      (StepInv(T, evs[0]); WaitsThrough(Step(T, evs[0]), evs[1..], p)))
  }

  ghost function End(T: Table, evs: seq<Event>): (r: Table)
    requires Inv(T)
    ensures Inv(r)
    decreases |evs|
  {
    if evs == [] || !Enabled(T, evs[0]) then T else
      StepInv(T, evs[0]);
      End(Step(T, evs[0]), evs[1..])
  }

  /** Promotions during a run. */
  ghost function Promotions(T: Table, evs: seq<Event>): nat
    requires Inv(T)
    decreases |evs|
  {
    if evs == [] || !Enabled(T, evs[0]) then 0 else
      StepInv(T, evs[0]);
      (if Promotes(T, evs[0]) then 1 else 0) + Promotions(Step(T, evs[0]), evs[1..])
  }

  /** Iterations of the scheduler in a run. */
  function Schedules(evs: seq<Event>): nat
    decreases |evs|
  {
    if evs == [] then 0 else (if evs[0].ScheduleE? then 1 else 0) + Schedules(evs[1..])
  }

  /** Each promotion lowers the level of a waiting process until it is 0. */
  lemma {:induction false} LevelFalls(T: Table, evs: seq<Event>, p: int, i: int, k: int) returns (i': int, k': int)
    requires Inv(T) && IsSlot(p) && At(T, p, i, k) && WaitsThrough(T, evs, p)
    ensures At(End(T, evs), p, i', k')
    ensures i' == 0 || i' + Promotions(T, evs) <= i
    decreases |evs|
  {
    if evs == [] {
      i', k' := i, k;
    } else {
      i', k' := StepRank(T, evs[0], p, i, k);
      StepInv(T, evs[0]);
      hide Inv, Step, Waits, At, Enabled;
      i', k' := LevelFalls(Step(T, evs[0]), evs[1..], p, i', k');
    }
  }

  /** At level 0, each iteration of the scheduler brings a waiting process one place forward. */
  lemma {:induction false} PositionFalls(T: Table, evs: seq<Event>, p: int, k: int)
    requires Inv(T) && IsSlot(p) && At(T, p, 0, k) && WaitsThrough(T, evs, p)
    ensures Schedules(evs) <= k
    decreases |evs|
  {
    if evs != [] {
      var i', k' := StepRank(T, evs[0], p, 0, k);
      assert 0 <= i' <= 0 && 0 <= k';
      StepInv(T, evs[0]);
      hide Inv, Step, Waits, At, Enabled;
      PositionFalls(Step(T, evs[0]), evs[1..], p, k');
    }
  }

  lemma {:induction false} WaitsSplit(T: Table, a: seq<Event>, b: seq<Event>, p: int)
    requires Inv(T) && IsSlot(p) && WaitsThrough(T, a + b, p)
    ensures WaitsThrough(T, a, p) && WaitsThrough(End(T, a), b, p)
    decreases |a|
  {
    hide Partition, PrioOk, Step, Waits, Able;
    if a == [] {
      assert a + b == b;
    } else {
      assert (a + b)[0] == a[0] && (a + b)[1..] == a[1..] + b;
      StepInv(T, a[0]);
      hide Inv;
      WaitsSplit(Step(T, a[0]), a[1..], b, p);
    }
  }

  lemma {:induction false} DistinctBound(s: seq<int>, n: nat)
    requires Distinct(s) && forall x :: x in s ==> 0 <= x < n
    ensures |s| <= n
    decreases n
  {
    hide Distinct, Without;
    if s != [] {
      assert s[0] in s && 0 <= s[0] < n;
      WithoutDistinct(s, n - 1);
      WithoutMembers(s, n - 1);
      WithoutLength(s, n - 1);
      DistinctBound(Without(s, n - 1), n - 1);
    }
  }

  lemma {:induction false} WithoutLength(s: seq<int>, p: int)
    ensures |Without(s, p)| >= |s| - 1
  {
    if s != [] && s[0] != p {
      WithoutLength(s[1..], p);
    }
  }

  /** A runnable process is on some ready list. */
  lemma RunnableAt(T: Table, p: int) returns (i: int, k: int)
    requires Inv(T) && IsSlot(p) && T.procs[p].state.Runnable?
    ensures At(T, p, i, k) && k < NPROC
  {
    PartitionSlots(T);
    assert OnSomeList(T.lists, p);
    i := FindList(T, p);
    InList(T, i, p);
    k :| 0 <= k < |T.lists[i]| && T.lists[i][k] == p;
    DistinctBound(T.lists[i], NPROC);
  }

  /**
    No starvation.  No run lets a runnable process wait, unchosen and not retargeted, through
    MAXPRIO promotions followed by NPROC iterations of the scheduler.
   */
  lemma NoStarvation(T: Table, a: seq<Event>, b: seq<Event>, p: int)
    requires Inv(T) && IsSlot(p) && Promotions(T, a) >= MAXPRIO && Schedules(b) >= NPROC
    ensures !WaitsThrough(T, a + b, p)
  {
    if WaitsThrough(T, a + b, p) {
      WaitsSplit(T, a, b, p);
      var i, k := RunnableAt(T, p);
      var i', k' := LevelFalls(T, a, p, i, k);
      assert i' == 0;
      var U := End(T, a);
      DistinctBound(U.lists[0], NPROC) by {
        PartitionSlots(U);
      }
      PositionFalls(U, b, p, k');
    }
  }

  // ---------------------------------------------------------------- wakeup against the table scan

  /** The original wakeup1 (proc.c:1108-1116): every sleeper on the channel becomes runnable. */
  predicate ScanWakes(q: Proc, chan: int) {
    q.state.Sleeping? && q.chan == chan
  }

  /** The list-based wakeup1 leaves the states the table scan would, exactly if at most one process sleeps on chan. */
  lemma WakeupAgreesIff(T: Table, chan: int)
    requires Inv(T) && Slots(T)
    ensures (forall p :: IsSlot(p) ==>
               Wakeup(T, chan).procs[p].state == if ScanWakes(T.procs[p], chan) then Runnable else T.procs[p].state)
      <==> (forall p, q ::
              IsSlot(p) && IsSlot(q) && ScanWakes(T.procs[p], chan) && ScanWakes(T.procs[q], chan) ==> p == q)
  {
    var w := First(T.lists[SLEEP], T.procs, (r: Proc) => r.chan == chan);
    forall p | IsSlot(p) && ScanWakes(T.procs[p], chan) ensures p in T.lists[SLEEP] && w != -1 {
      StateOnList(T, p, SLEEP);
      var k :| 0 <= k < |T.lists[SLEEP]| && T.lists[SLEEP][k] == p;
    }
    if w != -1 {
      InList(T, SLEEP, w);
      assert ScanWakes(T.procs[w], chan);
    }
    hide Partition, PrioOk, First, MoveLists;
  }

  // ---------------------------------------------------------------- where the list code falls short

  /** scheduler() would panic in assertPrio: the process it picks has another priority than its level. */
  predicate DispatchPanics(T: Table)
    requires Slots(T)
  {
    var i := FindLevel(T.lists, 0, (s: seq<int>) => s != []);
    i != -1 && T.procs[T.lists[i][0]].priority != i
  }

  lemma ChildScanned(T: Table, me: int, q: int)
    requires Inv(T) && IsSlot(q) && T.procs[q].parent == me && me != -1
    ensures q in ScanOrder(T.lists)
  {
    ScanMember(T.lists, q);
    assert OnSomeList(T.lists, q);
    var l := FindList(T, q);
    InList(T, l, q);
    hide Partition, ScanOrder;
  }

  /** The first child in search order, or -1 if there is none. */
  function FirstChild(T: Table, me: int): (w: int)
    requires Slots(T)
  {
    ScanSlots(T);
    First(ScanOrder(T.lists), T.procs, (q: Proc) => q.parent == me)
  }

  lemma FirstChildIs(T: Table, me: int)
    requires Inv(T) && Slots(T) && me != -1
    ensures FirstChild(T, me) == -1 <==> forall q :: IsSlot(q) ==> T.procs[q].parent != me
    ensures FirstChild(T, me) != -1 ==> IsSlot(FirstChild(T, me)) && T.procs[FirstChild(T, me)].parent == me
  {
    ScanSlots(T);
    hide Partition, PrioOk, ScanOrder;
    var order := ScanOrder(T.lists);
    if q :| IsSlot(q) && T.procs[q].parent == me {
      ChildScanned(T, me, q);
      var i :| 0 <= i < |order| && order[i] == q;
    }
  }

  lemma ReparentedParent(T: Table, me: int, init: int, q: int)
    requires Inv(T) && Slots(T) && IsSlot(q) && me != -1
    ensures Reparent(T, me, init).procs[q].parent ==
      if T.procs[q].parent == me && (T.lists[ZOMBIE] == [] || q == FirstChild(T, me)) then init else T.procs[q].parent
  {
    hide Partition, PrioOk, ScanOrder, Wakeup, First;
    ScanSlots(T);
    if T.procs[q].parent == me { ChildScanned(T, me, q); }
    FirstChildIs(T, me);
    hide Inv;
    var w := FirstChild(T, me);
    if T.lists[ZOMBIE] != [] && w != -1 {
      WakeupKeepsParents(T.(procs := T.procs[w := T.procs[w].(parent := init)]), init);
    }
  }

  /**
    exit() hands every child to init exactly if no process is a zombie or there is at most one
    child: otherwise the search stops after the first child (proc.c:604-607).
   */
  lemma ReparentsAllIff(T: Table, me: int, init: int)
    requires Inv(T) && Slots(T) && me != init && me != -1
    ensures (forall q :: IsSlot(q) ==> Reparent(T, me, init).procs[q].parent != me) <==>
            (T.lists[ZOMBIE] == [] ||
             forall p, q :: IsSlot(p) && IsSlot(q) && T.procs[p].parent == me && T.procs[q].parent == me ==> p == q)
  {
    assert Sized(T);
    hide Partition, PrioOk, Reparent, FirstChild, Slots;
    FirstChildIs(T, me);
    forall q | IsSlot(q)
      ensures Reparent(T, me, init).procs[q].parent ==
        if T.procs[q].parent == me && (T.lists[ZOMBIE] == [] || q == FirstChild(T, me)) then init else T.procs[q].parent
    {
      ReparentedParent(T, me, init, q);
    }
  }

  lemma WakeupKeepsParents(T: Table, chan: int)
    requires Slots(T) && forall p :: IsSlot(p) ==> 0 <= T.procs[p].priority <= MAXPRIO
    ensures forall q :: IsSlot(q) ==> Wakeup(T, chan).procs[q].parent == T.procs[q].parent
  {
    hide MoveLists, First;
  }
}
