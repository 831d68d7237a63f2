/**
  What the operations of proc.c come to for one process, over whole runs: the ticks it uses are
  taken off its budget one by one, its identifier is its own, and promotions keep their distance.
 */
module Accounts {
  import opened Sequences
  import opened StateLists
  import opened Scheduler

  /** Processes in use have different identifiers, all given out already. */
  ghost predicate PidsOk(T: Table)
    requires Sized(T)
  {
    && (forall p :: IsSlot(p) && !T.procs[p].state.Unused? ==> T.procs[p].pid < T.nextpid)
    && (forall p, q :: IsSlot(p) && IsSlot(q) && p != q && !T.procs[p].state.Unused? && !T.procs[q].state.Unused? ==>
          T.procs[p].pid != T.procs[q].pid)
  }

  ghost predicate Fit(T: Table) {
    Loose(T) && PidsOk(T)
  }

  // ---------------------------------------------------------------- one event, one process

  lemma Basics(T: Table, p: int)
    requires Loose(T) && IsSlot(p)
    ensures Sized(T) && Slots(T) && ProcOk(T.procs[p])
  {
    PartitionSlots(T);
  }

  /** p is the running process that gives the processor up. */
  predicate GivesUp(ev: Event, p: int) {
    (ev.YieldE? && ev.p == p) || (ev.SleepE? && ev.p == p)
  }

  /** setpriority() gives p another priority: only ready, sleeping and running processes are looked at. */
  ghost predicate Reset(T: Table, ev: Event, p: int)
    requires Sized(T) && IsSlot(p)
  {
    var q := T.procs[p];
    ev.SetPriorityE? && q.pid == ev.pid && q.priority != ev.prio
    && (q.state.Runnable? || q.state.Sleeping? || q.state.Running?)
  }

  /** A promotion is due and reaches p: all but the ready processes of the best level. */
  ghost predicate Boosted(T: Table, ev: Event, p: int)
    requires Sized(T) && IsSlot(p)
  {
    var q := T.procs[p];
    ev.ScheduleE? && ev.ticks >= T.promoteAt
    && (q.state.Sleeping? || q.state.Running? || (q.state.Runnable? && p !in T.lists[0]))
  }

  /** allocproc() takes the slot of p. */
  ghost predicate Born(T: Table, ev: Event, p: int)
    requires Sized(T)
  {
    ev.AllocE? && T.lists[FREE] != [] && T.lists[FREE][0] == p
  }

  ghost predicate Refills(T: Table, ev: Event, p: int)
    requires Sized(T) && IsSlot(p)
  {
    Reset(T, ev, p) || Boosted(T, ev, p) || Born(T, ev, p)
  }

  /** Nothing that concerns the scheduler's accounts changes. */
  predicate Kept(q: Proc, r: Proc) {
    && r.budget == q.budget && r.priority == q.priority && r.ticksIn == q.ticksIn
    && (r.state.Unused? || (r.pid == q.pid && !q.state.Unused?))
    && (r.state.Running? ==> q.state.Running?)
  }

  predicate Charged(q: Proc, r: Proc, used: int) {
    && r.pid == q.pid && r.ticksIn == q.ticksIn && q.state.Running? && (r.state.Runnable? || r.state.Sleeping?)
    && if used < q.budget then r.budget == q.budget - used && r.priority == q.priority
       else r.budget == MAX_BUDGET && r.priority == if q.priority == MAXPRIO then MAXPRIO else q.priority + 1
  }

  /** yield(): p is charged, waits last at its level, and no other process changes. */
  lemma YieldProc(T: Table, p: int, ticks: int, x: int)
    requires Loose(T) && Able(T, YieldE(p, ticks)) && IsSlot(x)
    ensures var q, r := T.procs[x], Yield(T, p, ticks).procs[x];
      if x == p then Charged(q, r, ticks - q.ticksIn) && r.state.Runnable? else r == q
    ensures var U := Yield(T, p, ticks);
      var i := U.procs[p].priority;
      0 <= i <= MAXPRIO && U.lists[i] == T.lists[i] + [p]
  {
    hide Partition, Without;
    Basics(T, x);
    Basics(T, p);
    InList(T, RUNNING, p);
  }

  /** sleep(): p is charged, sleeps on the channel behind the others, and no other process changes. */
  lemma SleepProc(T: Table, p: int, chan: int, ticks: int, x: int)
    requires Loose(T) && Able(T, SleepE(p, chan, ticks)) && IsSlot(x)
    ensures var q, r := T.procs[x], SleepOn(T, p, chan, ticks).procs[x];
      if x == p then Charged(q, r, ticks - q.ticksIn) && r.chan == chan && r.state.Sleeping? else r == q
    ensures SleepOn(T, p, chan, ticks).lists[SLEEP] == T.lists[SLEEP] + [p]
  {
    hide Partition, Without;
    Basics(T, x);
    Basics(T, p);
    InList(T, RUNNING, p);
  }

  lemma AllocProc(T: Table, x: int)
    requires Loose(T) && Slots(T) && IsSlot(x)
    ensures var q, r := T.procs[x], Alloc(T).0.procs[x];
      if Born(T, AllocE, x) then r == q.(state := Embryo, pid := T.nextpid, priority := 0, budget := MAX_BUDGET)
      else r == q
    ensures Alloc(T).0.nextpid == T.nextpid + if T.lists[FREE] == [] then 0 else 1
  {
    hide Partition, MoveLists;
  }

  /** fork() leaves the child runnable, last on level 0; a failed one gives it back; no other process changes. */
  lemma ForkProc(T: Table, ev: Event, x: int)
    requires Loose(T) && Able(T, ev) && IsSlot(x) && (ev.AbortE? || ev.ForkE?)
    ensures Kept(T.procs[x], Step(T, ev).procs[x])
    ensures x != ev.p ==> Step(T, ev).procs[x] == T.procs[x]
    ensures Step(T, ev).nextpid == T.nextpid
    ensures ev.AbortE? ==> Step(T, ev).procs[ev.p] == T.procs[ev.p].(state := Unused)
    ensures ev.ForkE? ==>
      Step(T, ev).procs[ev.p] == T.procs[ev.p].(state := Runnable, parent := ev.parent)
      && Step(T, ev).lists[0] == T.lists[0] + [ev.p]
  {
    hide Partition, Without;
    Basics(T, x);
    InList(T, EMBRYO, ev.p);
  }

  /** x sleeps on the channel, and those before it on the list do not. */
  ghost predicate Foremost(s: seq<int>, procs: seq<Proc>, chan: int, x: int)
    requires AllSlots(s) && |procs| == NPROC
  {
    exists k :: 0 <= k < |s| && s[k] == x && ForemostAt(s, procs, chan, k)
  }

  ghost predicate ForemostAt(s: seq<int>, procs: seq<Proc>, chan: int, k: int)
    requires AllSlots(s) && |procs| == NPROC && 0 <= k < |s|
  {
    procs[s[k]].chan == chan && forall j :: 0 <= j < k ==> procs[s[j]].chan != chan
  }

  lemma FirstForemost(s: seq<int>, procs: seq<Proc>, chan: int, x: int)
    requires AllSlots(s) && |procs| == NPROC && Distinct(s)
    ensures var w := First(s, procs, (q: Proc) => q.chan == chan);
      Foremost(s, procs, chan, x) <==> w != -1 && x == w
  {
    hide First, Distinct;
    var w := First(s, procs, (q: Proc) => q.chan == chan);
    if w != -1 {
      var k :| 0 <= k < |s| && s[k] == w;
      assert ForemostAt(s, procs, chan, k);
      assert forall m :: 0 <= m < |s| && ForemostAt(s, procs, chan, m) ==> m == k;
    }
  }

  lemma SleepList(T: Table)
    requires Partition(T)
    ensures Sized(T) && AllSlots(T.lists[SLEEP]) && Distinct(T.lists[SLEEP])
  {
    PartitionSlots(T);
  }

  /** wakeup1() wakes the one that has slept longest on the channel and no other. */
  lemma WakeupProc(T: Table, chan: int, x: int)
    requires Loose(T) && Slots(T) && AllSlots(T.lists[SLEEP]) && IsSlot(x)
    ensures var q, r := T.procs[x], Wakeup(T, chan).procs[x];
      r == if Foremost(T.lists[SLEEP], T.procs, chan, x) then q.(state := Runnable) else q
    ensures Foremost(T.lists[SLEEP], T.procs, chan, x) ==> T.procs[x].state.Sleeping? && T.procs[x].chan == chan
    ensures Wakeup(T, chan).nextpid == T.nextpid && Wakeup(T, chan).promoteAt == T.promoteAt
  {
    hide Partition, MoveLists, First, Foremost, AllSlots;
    SleepList(T);
    var w := First(T.lists[SLEEP], T.procs, (q: Proc) => q.chan == chan);
    FirstForemost(T.lists[SLEEP], T.procs, chan, x);
    if w != -1 {
      InList(T, SLEEP, w);
      Basics(T, w);
    }
  }

  lemma ReapProc(T: Table, me: int, x: int)
    requires Loose(T) && Slots(T) && IsSlot(x)
    ensures var q, r := T.procs[x], Reap(T, me).0.procs[x];
      r == q || (q.state.Zombie? && q.parent == me && r == q.(state := Unused, pid := 0, parent := -1, killed := false))
    ensures Reap(T, me).0.nextpid == T.nextpid && Reap(T, me).0.promoteAt == T.promoteAt
  {
    hide Partition, MoveLists, First;
    var w := First(T.lists[ZOMBIE], T.procs, (q: Proc) => q.parent == me);
    if w != -1 { InList(T, ZOMBIE, w); }
  }

  /** The children of an exiting process: init is woken exactly if the child found first heads the zombie list. */
  lemma ReparentProc(T: Table, me: int, init: int, x: int)
    requires Loose(T) && Slots(T) && AllSlots(T.lists[SLEEP]) && IsSlot(x)
    ensures var q, r := T.procs[x], Reparent(T, me, init).procs[x];
      var orphan := T.lists[ZOMBIE] != [] && FirstChild(T, me) == T.lists[ZOMBIE][0];
      && r.(state := q.state, parent := q.parent) == q
      && r.state == (if orphan && Foremost(T.lists[SLEEP], T.procs, init, x) then Runnable else q.state)
      && (r.state != q.state ==> q.state.Sleeping? && q.chan == init)
    ensures Reparent(T, me, init).nextpid == T.nextpid && Reparent(T, me, init).promoteAt == T.promoteAt
  {
    hide Partition, ScanOrder, First, Wakeup, AllSlots;
    ScanSlots(T);
    SleepList(T);
    var w := First(ScanOrder(T.lists), T.procs, (q: Proc) => q.parent == me);
    if T.lists[ZOMBIE] != [] && w != -1 {
      var procs := T.procs[w := T.procs[w].(parent := init)];
      if w == T.lists[ZOMBIE][0] {
        assert w in T.lists[ZOMBIE];
        InList(T, ZOMBIE, w);
        ProcsInv(T, procs);
        WakeupProc(T.(procs := procs), init, x);
        assert Foremost(T.lists[SLEEP], procs, init, x) == Foremost(T.lists[SLEEP], T.procs, init, x);
      }
    }
  }

  lemma ExitProc(T: Table, p: int, init: int, x: int)
    requires Loose(T) && Able(T, ExitE(p, init)) && IsSlot(x)
    ensures var q, r := T.procs[x], Exit(T, p, init).procs[x];
      && r.(state := q.state, parent := q.parent) == q
      && (x == p ==> q.state.Running? && r.state.Zombie?)
      && (x != p && r.state != q.state ==>
            q.state.Sleeping? && r.state.Runnable? && (q.chan == T.procs[p].parent || q.chan == init))
    ensures Exit(T, p, init).nextpid == T.nextpid && Exit(T, p, init).promoteAt == T.promoteAt
  {
    hide Partition, Wakeup, Reparent, MoveLists;
    PartitionSlots(T);
    InList(T, RUNNING, p);
    var chan := T.procs[p].parent;
    WakeupInv(T, chan);
    var U := Wakeup(T, chan);
    PartitionSlots(U);
    SleepList(T);
    SleepList(U);
    WakeupProc(T, chan, x);
    ReparentProc(U, p, init, x);
  }

  lemma KillProc(T: Table, pid: int, x: int)
    requires Loose(T) && Slots(T) && IsSlot(x)
    ensures var q, r := T.procs[x], Kill(T, pid).0.procs[x];
      && r.(state := q.state, killed := q.killed) == q
      && (r.state == q.state || (q.state.Sleeping? && r.state.Runnable?))
      && (q.killed ==> r.killed) && (r.killed && !q.killed ==> q.pid == pid && !q.state.Unused?)
    ensures Kill(T, pid).0.nextpid == T.nextpid && Kill(T, pid).0.promoteAt == T.promoteAt
  {
    hide Partition, ScanOrder, First, MoveLists;
    ScanSlots(T);
    var order := ScanOrder(T.lists);
    var w := First(order, T.procs, (q: Proc) => q.pid == pid);
    if x in order { Scanned(T, x); }
    if T.lists[SLEEP] != [] {
      assert T.lists[SLEEP][0] in T.lists[SLEEP];
      InList(T, SLEEP, T.lists[SLEEP][0]);
    }
  }

  lemma Scanned(T: Table, p: int)
    requires Partition(T) && p in ScanOrder(T.lists)
    ensures IsSlot(p) && !T.procs[p].state.Unused?
  {
    ScanMember(T.lists, p);
    var l :| 0 <= l < NLISTS && l != FREE && p in T.lists[l];
    InList(T, l, p);
  }

  // ---- setpriority

  predicate Findable(q: Proc) {
    q.state.Runnable? || q.state.Sleeping? || q.state.Running?
  }

  lemma {:induction false} NoLevel(T: Table, i: int, pid: int, j: int)
    requires Slots(T) && 0 <= i <= j <= MAXPRIO && FindPid(T, i, pid) == -1
    ensures forall k :: 0 <= k < |T.lists[j]| ==> T.procs[T.lists[j][k]].pid != pid
    decreases j - i
  {
    if i < j {
      NoLevel(T, i + 1, pid, j);
    }
    assert First(T.lists[i], T.procs, (q: Proc) => q.pid == pid) == -1;
  }

  /** Where setpriority() stops looking: a ready list, the sleep list or the list of running processes. */
  function SoughtOn(T: Table, pid: int): (l: int)
    requires Slots(T)
    ensures 0 <= l <= MAXPRIO || l == SLEEP || l == RUNNING
  {
    var i := FindPid(T, 0, pid);
    if i != -1 then i
    else if First(T.lists[SLEEP], T.procs, (q: Proc) => q.pid == pid) != -1 then SLEEP else RUNNING
  }

  function Sought(T: Table, pid: int): (w: int)
    requires Slots(T)
    ensures w == -1 || IsSlot(w)
  {
    First(T.lists[SoughtOn(T, pid)], T.procs, (q: Proc) => q.pid == pid)
  }

  lemma SoughtProc(T: Table, pid: int)
    requires Loose(T) && Slots(T)
    ensures Sought(T, pid) != -1 ==> Findable(T.procs[Sought(T, pid)]) && T.procs[Sought(T, pid)].pid == pid
  {
    hide Partition, SoughtOn, First;
    if Sought(T, pid) != -1 {
      InList(T, SoughtOn(T, pid), Sought(T, pid));
    }
  }

  lemma PartitionList(T: Table, p: int)
    requires Partition(T) && IsSlot(p)
    ensures Sized(T) && OnSomeList(T.lists, p)
  {
  }

  lemma SoughtAll(T: Table, pid: int, p: int)
    requires Loose(T) && Slots(T) && Sought(T, pid) == -1 && IsSlot(p) && Findable(T.procs[p])
    ensures T.procs[p].pid != pid
  {
    hide Partition, FindPid;
    PartitionList(T, p);
    var m := FindList(T, p);
    InList(T, m, p);
    var k :| 0 <= k < |T.lists[m]| && T.lists[m][k] == p;
    if m <= MAXPRIO { NoLevel(T, 0, pid, m); }
  }

  lemma SetPriorityOn(T: Table, pid: int, prio: int, x: int)
    requires Loose(T) && Slots(T) && 0 <= prio <= MAXPRIO && IsSlot(x)
    ensures var w, r := Sought(T, pid), SetPriority(T, pid, prio);
      && r.1 == (if w == -1 then -1 else 0)
      && r.0.nextpid == T.nextpid && r.0.promoteAt == T.promoteAt
      && r.0.procs[x] == if x == w then SetPrio(T.procs[x], prio) else T.procs[x]
  {
    hide Partition, First, FindPid, MoveLists;
    var l := SoughtOn(T, pid);
    if Sought(T, pid) != -1 { InList(T, l, Sought(T, pid)); }
  }

  /**
    setpriority() returns -1 exactly if no ready, sleeping or running process has the identifier;
    otherwise that process, and no other, has the new priority, with a full budget if it is new.
   */
  lemma SetPriorityIs(T: Table, pid: int, prio: int, x: int)
    requires Fit(T) && Slots(T) && 0 <= prio <= MAXPRIO && IsSlot(x)
    ensures var rc := SetPriority(T, pid, prio).1;
      (rc == -1 || rc == 0)
      && (rc == -1 <==> forall p :: IsSlot(p) && Findable(T.procs[p]) ==> T.procs[p].pid != pid)
    ensures var q, r := T.procs[x], SetPriority(T, pid, prio).0.procs[x];
      r == if Reset(T, SetPriorityE(pid, prio), x) then q.(priority := prio, budget := MAX_BUDGET) else q
  {
    hide Loose, Slots, Sought, SetPriority;
    Basics(T, x);
    SetPriorityOn(T, pid, prio, x);
    SoughtProc(T, pid);
    if Sought(T, pid) == -1 {
      forall p | IsSlot(p) && Findable(T.procs[p]) ensures T.procs[p].pid != pid {
        SoughtAll(T, pid, p);
      }
    }
  }

  // ---- the scheduler

  /** p heads the first ready list that is not empty. */
  ghost predicate Next(lists: seq<seq<int>>, p: int)
    requires |lists| == NLISTS
  {
    exists i :: 0 <= i <= MAXPRIO && HeadsLevel(lists, i, p)
  }

  ghost predicate HeadsLevel(lists: seq<seq<int>>, i: int, p: int)
    requires |lists| == NLISTS && 0 <= i <= MAXPRIO
  {
    lists[i] != [] && lists[i][0] == p && forall j :: 0 <= j < i ==> lists[j] == []
  }

  lemma DispatchProc(T: Table, ticks: int, x: int)
    requires Sized(T) && Slots(T) && IsSlot(x)
    ensures var q, r := T.procs[x], Dispatch(T, ticks).procs[x];
      r == if Next(T.lists, x) then q.(state := Running, ticksIn := ticks) else q
    ensures Dispatch(T, ticks).nextpid == T.nextpid && Dispatch(T, ticks).promoteAt == T.promoteAt
  {
    hide FindLevel, MoveLists;
    var i := FindLevel(T.lists, 0, (s: seq<int>) => s != []);
    if i != -1 {
      assert HeadsLevel(T.lists, i, T.lists[i][0]);
      assert forall j, p :: 0 <= j <= MAXPRIO && HeadsLevel(T.lists, j, p) ==> j == i;
    }
  }

  /** A promotion changes no one's turn: the next process to run stays the same. */
  lemma PromoteNext(lists: seq<seq<int>>, p: int)
    requires |lists| == NLISTS
    ensures Next(PromoteLists(lists), p) <==> Next(lists, p)
  {
    var r := PromoteLists(lists);
    forall i | 0 <= i <= MAXPRIO && HeadsLevel(lists, i, p) ensures Next(r, p) {
      assert HeadsLevel(r, if i == 0 then 0 else i - 1, p);
    }
    assert r[MAXPRIO] == [] && (r[0] == [] ==> |lists[0]| + |lists[1]| == 0);
    forall i | 0 <= i < MAXPRIO && HeadsLevel(r, i, p) ensures Next(lists, p) {
      if i == 0 && lists[0] != [] {
        assert HeadsLevel(lists, 0, p);
      } else {
        forall j | 0 <= j < i + 1 ensures lists[j] == [] {
          if j >= 2 { assert r[j - 1] == []; }
        }
        assert HeadsLevel(lists, i + 1, p);
      }
    }
  }

  predicate Promoted(q: Proc, r: Proc) {
    r == q.(priority := if q.priority == 0 then 0 else q.priority - 1, budget := MAX_BUDGET)
  }

  lemma PromoteProcs(T: Table, x: int)
    requires Loose(T) && IsSlot(x)
    ensures var q, r := T.procs[x], Promote(T).procs[x];
      if q.state.Sleeping? || q.state.Running? || (q.state.Runnable? && x !in T.lists[0]) then Promoted(q, r)
      else r == q
    ensures Promote(T).lists == PromoteLists(T.lists)
    ensures Promote(T).nextpid == T.nextpid
  {
    hide Partition, PromoteLists;
    Basics(T, x);
  }

  /**
    One iteration of scheduler(): if a promotion is due it reaches every process it should, and
    the process whose turn it is runs from now on.
   */
  lemma ScheduleProc(T: Table, ticks: int, x: int)
    requires Loose(T) && IsSlot(x)
    ensures var q, r := T.procs[x], Schedule(T, ticks).procs[x];
      var s := r.(state := q.state, ticksIn := q.ticksIn);
      && (if Boosted(T, ScheduleE(ticks), x) then Promoted(q, s) else s == q)
      && (if Next(T.lists, x) then r.state.Running? && r.ticksIn == ticks
          else r.state == q.state && r.ticksIn == q.ticksIn)
    ensures Schedule(T, ticks).promoteAt == if ticks >= T.promoteAt then ticks + TICKS_TO_PROMOTE else T.promoteAt
    ensures Schedule(T, ticks).nextpid == T.nextpid
  {
    hide Partition, Dispatch, Next, PromoteLists, Promote;
    Basics(T, x);
    PromoteSlots(T);
    PromoteProcs(T, x);
    PromoteNext(T.lists, x);
    var U := if ticks >= T.promoteAt then Promote(T).(promoteAt := ticks + TICKS_TO_PROMOTE) else T;
    assert U.lists == if ticks >= T.promoteAt then PromoteLists(T.lists) else T.lists;
    DispatchProc(U, ticks, x);
  }

  lemma NextReady(T: Table, p: int)
    requires Partition(T) && Next(T.lists, p)
    ensures IsSlot(p) && T.procs[p].state.Runnable?
  {
    var i :| 0 <= i <= MAXPRIO && HeadsLevel(T.lists, i, p);
    assert p in T.lists[i];
    InList(T, i, p);
  }

  // ---- allocproc, wait, kill and exit

  /** allocproc() fails exactly if no slot is unused, and otherwise takes one. */
  lemma AllocIs(T: Table)
    requires Loose(T) && Slots(T)
    ensures var p := Alloc(T).1;
      && (p == -1 <==> forall x :: IsSlot(x) ==> !T.procs[x].state.Unused?)
      && (p != -1 ==> IsSlot(p) && T.procs[p].state.Unused? && Born(T, AllocE, p))
  {
    hide Partition, MoveLists;
    if T.lists[FREE] != [] {
      assert T.lists[FREE][0] in T.lists[FREE];
      InList(T, FREE, T.lists[FREE][0]);
    } else {
      forall x | IsSlot(x) ensures !T.procs[x].state.Unused? {
        if T.procs[x].state.Unused? { StateOnList(T, x, FREE); }
      }
    }
  }

  /**
    wait() returns -1 exactly if the caller has no zombie child; otherwise it frees one zombie
    child, no other process changes, and the identifier of that child is returned.
   */
  lemma ReapIs(T: Table, me: int) returns (w: int)
    requires Loose(T) && Slots(T)
    ensures w == -1 <==> forall x :: IsSlot(x) && T.procs[x].state.Zombie? ==> T.procs[x].parent != me
    ensures w == -1 ==> Reap(T, me) == (T, -1)
    ensures w != -1 ==>
      && IsSlot(w) && T.procs[w].state.Zombie? && T.procs[w].parent == me
      && Reap(T, me).1 == T.procs[w].pid && Reap(T, me).0.procs[w].state.Unused?
      && forall x :: IsSlot(x) && x != w ==> Reap(T, me).0.procs[x] == T.procs[x]
  {
    hide Partition, MoveLists, First;
    w := First(T.lists[ZOMBIE], T.procs, (q: Proc) => q.parent == me);
    if w != -1 {
      InList(T, ZOMBIE, w);
    } else {
      forall x | IsSlot(x) && T.procs[x].state.Zombie? ensures T.procs[x].parent != me {
        StateOnList(T, x, ZOMBIE);
        var k :| 0 <= k < |T.lists[ZOMBIE]| && T.lists[ZOMBIE][k] == x;
      }
    }
  }

  lemma InUseScanned(T: Table, p: int)
    requires Partition(T) && IsSlot(p) && !T.procs[p].state.Unused?
    ensures p in ScanOrder(T.lists)
  {
    hide ScanOrder, Partition;
    PartitionList(T, p);
    ScanMember(T.lists, p);
    var l := FindList(T, p);
    InList(T, l, p);
  }

  lemma KillTargetIs(T: Table, pid: int)
    requires Fit(T) && Slots(T)
    ensures var w := KillTarget(T, pid);
      && (w == -1 <==> forall x :: IsSlot(x) && T.procs[x].pid == pid ==> T.procs[x].state.Unused?)
      && (w != -1 ==> T.procs[w].pid == pid && !T.procs[w].state.Unused? && w in ScanOrder(T.lists))
  {
    hide Partition, PidsOk, ScanOrder, First;
    ScanSlots(T);
    var order, w := ScanOrder(T.lists), KillTarget(T, pid);
    if w != -1 {
      Scanned(T, w);
    } else {
      assert forall x :: x in order ==> T.procs[x].pid != pid;
      forall x | IsSlot(x) && T.procs[x].pid == pid ensures T.procs[x].state.Unused? {
        if !T.procs[x].state.Unused? { InUseScanned(T, x); }
      }
    }
  }

  /**
    kill() marks the process in use that has the identifier, and no other.  It returns 0 exactly
    if there is one and some process sleeps, and wakes it exactly if it heads the sleep list.
   */
  lemma KillIs(T: Table, pid: int, x: int)
    requires Fit(T) && Slots(T) && IsSlot(x)
    ensures var q, r := T.procs[x], Kill(T, pid).0.procs[x];
      var hit := q.pid == pid && !q.state.Unused?;
      && r.killed == (q.killed || hit)
      && r.state == if hit && T.lists[SLEEP] != [] && x == T.lists[SLEEP][0] then Runnable else q.state
    ensures Kill(T, pid).1 ==
      if T.lists[SLEEP] != [] && exists p :: IsSlot(p) && T.procs[p].pid == pid && !T.procs[p].state.Unused? then 0
      else -1
  {
    hide Partition, ScanOrder, First, MoveLists;
    ScanSlots(T);
    KillTargetIs(T, pid);
    var order, w := ScanOrder(T.lists), KillTarget(T, pid);
    if x in order { Scanned(T, x); }
    if !T.procs[x].state.Unused? { InUseScanned(T, x); }
  }

  /** exit() leaves a zombie and wakes the process that has slept longest on the parent's channel. */
  lemma ExitWakes(T: Table, p: int, init: int, x: int)
    requires Loose(T) && Able(T, ExitE(p, init)) && AllSlots(T.lists[SLEEP])
    requires Foremost(T.lists[SLEEP], T.procs, T.procs[p].parent, x)
    ensures Exit(T, p, init).procs[x].state.Runnable? && Exit(T, p, init).procs[p].state.Zombie?
  {
    hide Partition, Wakeup, Reparent, MoveLists, AllSlots;
    SleepList(T);
    PartitionSlots(T);
    InList(T, RUNNING, p);
    var chan := T.procs[p].parent;
    WakeupProc(T, chan, x);
    WakeupInv(T, chan);
    var U := Wakeup(T, chan);
    PartitionSlots(U);
    SleepList(U);
    ReparentProc(U, p, init, x);
  }

  // ---------------------------------------------------------------- one event, any process

  /** What an event does to the accounts of a process. */
  lemma StepProc(T: Table, ev: Event, p: int)
    requires Fit(T) && Able(T, ev) && IsSlot(p)
    ensures var q, r := T.procs[p], Step(T, ev).procs[p];
      if GivesUp(ev, p) then Charged(q, r, ev.ticks - q.ticksIn)
      else if Reset(T, ev, p) then r == q.(priority := ev.prio, budget := MAX_BUDGET)
      else if Born(T, ev, p) then r == q.(state := Embryo, pid := T.nextpid, priority := 0, budget := MAX_BUDGET)
      else if ev.ScheduleE? then
        var s := r.(state := q.state, ticksIn := q.ticksIn);
        && (if Boosted(T, ev, p) then Promoted(q, s) else s == q)
        && (if Next(T.lists, p) then q.state.Runnable? && r.state.Running? && r.ticksIn == ev.ticks
            else r.state == q.state && r.ticksIn == q.ticksIn)
      else Kept(q, r)
  {
    hide Alloc, Move, ForkDone, Yield, SleepOn, Wakeup, SetPriority, Schedule, Reap, Exit, Kill;
    hide Partition, PidsOk, Next, Slots;
    Basics(T, p);
    SleepList(T);
    if Next(T.lists, p) { NextReady(T, p); }
    assert T.procs[p].state.Unused? ==> !Findable(T.procs[p]);
    match ev
    case AllocE => AllocProc(T, p);
    case AbortE(_) => ForkProc(T, ev, p);
    case ForkE(_, _) => ForkProc(T, ev, p);
    case YieldE(x, ticks) => YieldProc(T, x, ticks, p);
    case SleepE(x, chan, ticks) => SleepProc(T, x, chan, ticks, p);
    case WakeupE(chan) => WakeupProc(T, chan, p);
    case SetPriorityE(pid, prio) => SetPriorityIs(T, pid, prio, p);
    case ScheduleE(ticks) => ScheduleProc(T, ticks, p);
    case WaitE(me) => ReapProc(T, me, p);
    case ExitE(x, init) => ExitProc(T, x, init, p);
    case KillE(pid) => KillProc(T, pid, p);
  }

  /** Identifiers are given out in order and the time of the next promotion is set by promotions only. */
  lemma StepClocks(T: Table, ev: Event)
    requires Loose(T) && Able(T, ev)
    ensures Step(T, ev).nextpid == T.nextpid + if ev.AllocE? && T.lists[FREE] != [] then 1 else 0
    ensures Step(T, ev).promoteAt ==
      if ev.ScheduleE? && ev.ticks >= T.promoteAt then ev.ticks + TICKS_TO_PROMOTE else T.promoteAt
  {
    hide Partition, Wakeup, Reap, Kill, Exit, Schedule, First, FindPid, MoveLists;
    Basics(T, 0);
    SleepList(T);
    match ev
    case WakeupE(chan) => WakeupProc(T, chan, 0);
    case SetPriorityE(pid, prio) => SetPriorityOn(T, pid, prio, 0);
    case ScheduleE(ticks) => ScheduleProc(T, ticks, 0);
    case WaitE(me) => ReapProc(T, me, 0);
    case ExitE(x, init) => ExitProc(T, x, init, 0);
    case KillE(pid) => KillProc(T, pid, 0);
    case _ =>
  }

  /** No two processes in use ever have the same identifier. */
  lemma StepFit(T: Table, ev: Event)
    requires Fit(T) && Able(T, ev)
    ensures Fit(Step(T, ev))
  {
    hide Partition, Step;
    Basics(T, 0);
    StepInv(T, ev);
    StepClocks(T, ev);
    var U := Step(T, ev);
    Basics(U, 0);
    forall p | IsSlot(p) && !U.procs[p].state.Unused?
      ensures if Born(T, ev, p) then U.procs[p].pid == T.nextpid
              else U.procs[p].pid == T.procs[p].pid && !T.procs[p].state.Unused?
    {
      StepProc(T, ev, p);
    }
  }

  // ---------------------------------------------------------------- runs

  /** The state after a run; an event that is not possible is skipped. */
  ghost function After(T: Table, evs: seq<Event>): (r: Table)
    requires Fit(T)
    ensures Fit(r) && Sized(r)
    decreases |evs|
  {
    if evs == [] then T
    else
      var S, ev := After(T, evs[..|evs| - 1]), evs[|evs| - 1];
      if Able(S, ev) then (StepFit(S, ev); Step(S, ev)) else S
  }

  /** The time at which p was last given the processor. */
  ghost function Since(T: Table, evs: seq<Event>, p: int): int
    requires Fit(T) && Sized(T) && IsSlot(p)
    decreases |evs|
  {
    if evs == [] then T.procs[p].ticksIn
    else
      var front, ev := evs[..|evs| - 1], evs[|evs| - 1];
      if ev.ScheduleE? && !After(T, front).procs[p].state.Running? && After(T, evs).procs[p].state.Running?
      then ev.ticks else Since(T, front, p)
  }

  /** The ticks of all slices of p since its budget was last filled, or else what the run started with. */
  ghost function Used(T: Table, evs: seq<Event>, p: int): int
    requires Fit(T) && Sized(T) && IsSlot(p)
    decreases |evs|
  {
    if evs == [] then MAX_BUDGET - T.procs[p].budget
    else
      var front, ev := evs[..|evs| - 1], evs[|evs| - 1];
      var S := After(T, front);
      if !Able(S, ev) then Used(T, front, p)
      else if Refills(S, ev, p) then 0
      else if GivesUp(ev, p) then
        var used := Used(T, front, p) + ev.ticks - Since(T, front, p);
        if used < MAX_BUDGET then used else 0
      else Used(T, front, p)
  }

  lemma {:induction false} SinceIs(T: Table, evs: seq<Event>, p: int)
    requires Fit(T) && Sized(T) && IsSlot(p)
    ensures After(T, evs).procs[p].ticksIn == Since(T, evs, p)
    decreases |evs|
  {
    hide Partition, PidsOk, Step, Able, Next;
    if evs != [] {
      var front, ev := evs[..|evs| - 1], evs[|evs| - 1];
      var S := After(T, front);
      SinceIs(T, front, p);
      if Able(S, ev) {
        StepProc(S, ev, p);
      }
    }
  }

  /** In every run, budget and ticks used since the last refill are MAX_BUDGET together. */
  lemma {:induction false} BudgetKept(T: Table, evs: seq<Event>, p: int)
    requires Fit(T) && Sized(T) && IsSlot(p)
    ensures After(T, evs).procs[p].budget + Used(T, evs, p) == MAX_BUDGET
    decreases |evs|
  {
    hide Partition, PidsOk, Step, Able, Next;
    if evs != [] {
      var front, ev := evs[..|evs| - 1], evs[|evs| - 1];
      var S := After(T, front);
      BudgetKept(T, front, p);
      SinceIs(T, front, p);
      if Able(S, ev) {
        StepProc(S, ev, p);
      }
    }
  }

  /**
    In every run, a process that gives the processor up goes down one level, though not below
    the last, exactly if the ticks it has used since the last refill reach MAX_BUDGET; its budget
    is full again exactly then, or if it used no time at all.
   */
  lemma DemotedIff(T: Table, evs: seq<Event>, ev: Event, p: int)
    requires Fit(T) && Sized(T) && IsSlot(p)
    requires Able(After(T, evs), ev) && GivesUp(ev, p)
    ensures var S := After(T, evs);
      var q, r := S.procs[p], Step(S, ev).procs[p];
      var used := Used(T, evs, p) + ev.ticks - Since(T, evs, p);
      && r.priority == (if used < MAX_BUDGET || q.priority == MAXPRIO then q.priority else q.priority + 1)
      && r.budget == if used < MAX_BUDGET then MAX_BUDGET - used else MAX_BUDGET
  {
    hide Partition, PidsOk, Step, Able, Next, After, Used, Since;
    var S := After(T, evs);
    BudgetKept(T, evs, p);
    SinceIs(T, evs, p);
    StepProc(S, ev, p);
  }

  /** The k-th event of the run is a scheduler iteration that promotes. */
  ghost predicate PromotesAt(T: Table, evs: seq<Event>, k: int)
    requires Fit(T) && 0 <= k < |evs|
  {
    evs[k].ScheduleE? && evs[k].ticks >= After(T, evs[..k]).promoteAt
  }

  /**
    After a promotion at tick t the next one is due at t + TICKS_TO_PROMOTE, neither sooner nor,
    until it has happened, later.
   */
  lemma {:induction false} PromotionDue(T: Table, evs: seq<Event>, k: int)
    requires Fit(T) && 0 <= k < |evs| && PromotesAt(T, evs, k)
    ensures After(T, evs).promoteAt >= evs[k].ticks + TICKS_TO_PROMOTE
    ensures (forall j :: k < j < |evs| ==> !PromotesAt(T, evs, j)) ==>
      After(T, evs).promoteAt == evs[k].ticks + TICKS_TO_PROMOTE
    decreases |evs|
  {
    hide Partition, PidsOk, Step;
    var front, ev := evs[..|evs| - 1], evs[|evs| - 1];
    var S := After(T, front);
    if k < |evs| - 1 {
      assert front[..k] == evs[..k];
      PromotionDue(T, front, k);
      forall j | k < j < |front| ensures PromotesAt(T, front, j) == PromotesAt(T, evs, j) {
        assert front[..j] == evs[..j];
      }
      assert PromotesAt(T, evs, |front|) == (ev.ScheduleE? && ev.ticks >= S.promoteAt);
    }
    if Able(S, ev) {
      StepClocks(S, ev);
    }
  }
}
