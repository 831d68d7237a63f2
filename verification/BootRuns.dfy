/**
  Runs of the process table from boot that end where the list code of proc.c falls short of what
  one expects: a kill that makes the scheduler panic, a wakeup that leaves a sleeper behind, an
  exit that leaves a child behind.
 */
module BootRuns {
  import opened StateLists
  import opened Scheduler
  import Accounts
  import Misplaced
  import ProcTable

  /** The table after initProcessLists() and initFreeList(), at tick 0. */
  function Boot(): Table {
    Table(seq(NLISTS, _ => [])[FREE := seq(NPROC, i => i)],
          seq(NPROC, _ => Proc(Unused, 0, -1, -1, false, 0, 0, 0)), 1, TICKS_TO_PROMOTE)
  }

  lemma BootInv()
    ensures Inv(Boot()) && Accounts.Fit(Boot())
  {
    ProcTable.FreshInv(Boot(), Proc(Unused, 0, -1, -1, false, 0, 0, 0));
  }

  const NCPU: int := 8

  datatype Call = Call(caller: int, ev: Event)

  /**
    Somebody can make the call: system calls come from running processes, the first process from
    userinit() (no caller), and the scheduler of an idle CPU picks a process.
   */
  ghost predicate Possible(T: Table, c: Call)
    requires Partition(T)
  {
    Enabled(T, c.ev) &&
    match c.ev
    case AllocE => c.caller in T.lists[RUNNING] || (c.caller == -1 && T.nextpid == 1)
    case ForkE(p, parent) =>
      parent == c.caller && (c.caller in T.lists[RUNNING] || (c.caller == -1 && T.procs[p].pid == 1))
    case YieldE(p, _) => c.caller == p
    case SleepE(p, _, _) => c.caller == p
    case ExitE(p, _) => c.caller == p
    case WaitE(me) => c.caller == me && me in T.lists[RUNNING]
    case ScheduleE(_) => |T.lists[RUNNING]| < NCPU
    case WakeupE(_) => true
    case _ => c.caller in T.lists[RUNNING]
  }

  /** These calls, each possible in its turn, lead from T to U. */
  ghost predicate RunsTo(T: Table, cs: seq<Call>, U: Table)
    requires Inv(T)
    decreases |cs|
  {
    if cs == [] then U == T
    else Possible(T, cs[0]) && (StepInv(T, cs[0].ev); RunsTo(Step(T, cs[0].ev), cs[1..], U))
  }

  ghost predicate Reached(T: Table) {
    BootInv();
    exists cs :: RunsTo(Boot(), cs, T)
  }

  lemma CallInv(T: Table, c: Call)
    requires Inv(T) && Possible(T, c)
    ensures Loose(T) && Able(T, c.ev) && Inv(Step(T, c.ev))
  {
    StepInv(T, c.ev);
    hide Partition, PrioOk, Step;
  }

  lemma {:induction false} RunsToNext(T: Table, cs: seq<Call>, U: Table, c: Call)
    requires Inv(T) && RunsTo(T, cs, U) && Inv(U) && Possible(U, c)
    ensures RunsTo(T, cs + [c], Step(U, c.ev))
    decreases |cs|
  {
    hide Inv, Step;
    if cs == [] {
      CallInv(T, c);
      assert (cs + [c])[1..] == [];
      assert RunsTo(Step(T, c.ev), [], Step(T, c.ev));
    } else {
      CallInv(T, cs[0]);
      assert (cs + [c])[0] == cs[0] && (cs + [c])[1..] == cs[1..] + [c];
      RunsToNext(Step(T, cs[0].ev), cs[1..], U, c);
    }
  }

  lemma ReachedNext(T: Table, c: Call)
    requires Inv(T) && Reached(T) && Possible(T, c)
    ensures Inv(Step(T, c.ev)) && Reached(Step(T, c.ev))
  {
    hide Inv, Step, Boot, RunsTo, Enabled;
    BootInv();
    CallInv(T, c);
    var cs :| RunsTo(Boot(), cs, T);
    RunsToNext(Boot(), cs, T, c);
  }

  lemma ReachedBoot()
    ensures Inv(Boot()) && Reached(Boot())
  {
    hide Inv, Boot;
    BootInv();
    assert RunsTo(Boot(), [], Boot());
  }

  lemma InvSlots(T: Table)
    requires Inv(T)
    ensures Slots(T)
  {
    PartitionSlots(T);
  }

  // ---------------------------------------------------------------- the steps of the runs

  /** Who may make the next process: a running one, or userinit() the first. */
  predicate Makes(T: Table, parent: int)
    requires |T.lists| == NLISTS
  {
    parent in T.lists[RUNNING] || (parent == -1 && T.nextpid == 1)
  }

  /** userinit() and fork(): allocproc, then the new process joins ready[0]. */
  lemma Spawn(T: Table, n: int, parent: int) returns (U: Table)
    requires Inv(T) && Reached(T) && T.lists[FREE] != [] && n == T.lists[FREE][0] && T.lists[EMBRYO] == []
    requires Makes(T, parent)
    ensures Inv(U) && Reached(U) && IsSlot(n) && U.nextpid == T.nextpid + 1 && U.promoteAt == T.promoteAt
    ensures U.lists == T.lists[FREE := T.lists[FREE][1..]][0 := T.lists[0] + [n]]
    ensures U.procs == T.procs[n := T.procs[n].(state := Runnable, pid := T.nextpid, parent := parent, priority := 0,
      budget := MAX_BUDGET)]
  {
    assert Sized(T);
    hide Reached, Inv, Partition, Slots, Alloc;
    var V := AllocStep(T, n, parent);
    SpawnLists(T.lists, T.lists[FREE][1..], [n], T.lists[0] + [n]);
    U := ForkStep(V, n, parent);
  }

  lemma SpawnLists(lists: seq<seq<int>>, free: seq<int>, embryo: seq<int>, ready: seq<int>)
    requires |lists| == NLISTS && lists[EMBRYO] == []
    ensures lists[FREE := free][EMBRYO := embryo][EMBRYO := []][0 := ready] == lists[FREE := free][0 := ready]
    ensures lists[FREE := free][EMBRYO := embryo][0] == lists[0]
  {
  }

  lemma AllocStep(T: Table, n: int, parent: int) returns (U: Table)
    requires Inv(T) && Reached(T) && T.lists[FREE] != [] && n == T.lists[FREE][0] && T.lists[EMBRYO] == []
    requires Makes(T, parent)
    ensures Inv(U) && Reached(U) && Slots(T) && U == Alloc(T).0 && IsSlot(n) && T.procs[n].state == Unused
    ensures U == T.(lists := T.lists[FREE := T.lists[FREE][1..]][EMBRYO := [n]], nextpid := T.nextpid + 1,
      procs := T.procs[n := T.procs[n].(pid := T.nextpid, priority := 0, budget := MAX_BUDGET, state := Embryo)])
  {
    InvSlots(T);
    InList(T, FREE, n);
    hide Reached, Inv, Partition, Alloc;
    Allocated(T, n);
    hide Slots;
    ReachedNext(T, Call(parent, AllocE));
    U := Step(T, AllocE);
  }

  lemma ForkStep(T: Table, n: int, parent: int) returns (U: Table)
    requires Inv(T) && Reached(T) && T.lists[EMBRYO] == [n] && IsSlot(n)
    requires parent in T.lists[RUNNING] || (parent == -1 && T.procs[n].pid == 1)
    ensures Inv(U) && Reached(U) && U == T.(lists := T.lists[EMBRYO := []][0 := T.lists[0] + [n]],
      procs := T.procs[n := T.procs[n].(parent := parent, state := Runnable)])
  {
    assert Sized(T);
    hide Reached, Inv, Partition, ForkDone;
    Forked(T, n, parent);
    ReachedNext(T, Call(parent, ForkE(n, parent)));
    U := Step(T, ForkE(n, parent));
  }

  lemma Allocated(T: Table, n: int)
    requires Slots(T) && T.lists[FREE] != [] && n == T.lists[FREE][0] && T.lists[EMBRYO] == []
    ensures IsSlot(n)
    ensures Alloc(T).0 == T.(lists := T.lists[FREE := T.lists[FREE][1..]][EMBRYO := [n]], nextpid := T.nextpid + 1,
      procs := T.procs[n := T.procs[n].(pid := T.nextpid, priority := 0, budget := MAX_BUDGET, state := Embryo)])
  {
    assert [] + [n] == [n];
  }

  lemma Forked(T: Table, n: int, parent: int)
    requires Sized(T) && IsSlot(n) && T.lists[EMBRYO] == [n]
    ensures ForkDone(T, n, parent) == T.(lists := T.lists[EMBRYO := []][0 := T.lists[0] + [n]],
      procs := T.procs[n := T.procs[n].(parent := parent, state := Runnable)])
  {
  }

  /** One iteration of scheduler() before a promotion is due: the head of ready[0] runs. */
  lemma Pick(T: Table, ticks: int) returns (U: Table)
    requires Inv(T) && Reached(T) && T.lists[0] != [] && ticks < T.promoteAt && |T.lists[RUNNING]| < NCPU
    ensures Inv(U) && Reached(U) && U.nextpid == T.nextpid && U.promoteAt == T.promoteAt && IsSlot(T.lists[0][0])
    ensures U.lists == T.lists[0 := T.lists[0][1..]][RUNNING := T.lists[RUNNING] + [T.lists[0][0]]]
    ensures U.procs == T.procs[T.lists[0][0] := T.procs[T.lists[0][0]].(ticksIn := ticks, state := Running)]
  {
    PartitionSlots(T);
    hide Reached, Inv, Partition;
    ReachedNext(T, Call(-1, ScheduleE(ticks)));
    U := Step(T, ScheduleE(ticks));
  }

  /** The only running process sleeps. */
  lemma Doze(T: Table, p: int, chan: int, ticks: int) returns (U: Table)
    requires Inv(T) && Reached(T) && T.lists[RUNNING] == [p]
    ensures Inv(U) && Reached(U) && U.nextpid == T.nextpid && U.promoteAt == T.promoteAt && IsSlot(p)
    ensures U.lists == T.lists[RUNNING := []][SLEEP := T.lists[SLEEP] + [p]]
    ensures U.procs == T.procs[p := Charge(T.procs[p].(chan := chan), ticks).(state := Sleeping)]
  {
    PartitionSlots(T);
    assert IsSlot(T.lists[RUNNING][0]);
    hide Reached, Inv, Partition;
    ReachedNext(T, Call(p, SleepE(p, chan, ticks)));
    U := Step(T, SleepE(p, chan, ticks));
  }

  // ---------------------------------------------------------------- where they end

  /**
    Process 0 uses up its budget and sleeps; its child, which runs, kills it: kill() puts it on
    ready[0], and the next dispatch panics.
   */
  lemma KillPanicsAfterBoot() returns (T: Table)
    ensures Inv(T) && Reached(T) && Slots(T) && T.lists[RUNNING] == [1] && KillUnsafe(T, 1)
    ensures Slots(Kill(T, 1).0) && DispatchPanics(Kill(T, 1).0) && !DispatchPanics(T)
  {
    hide Inv, Reached;
    ReachedBoot();
    T := Spawn(Boot(), 0, -1);
    T := Pick(T, 0);
    T := Spawn(T, 1, 0);
    T := Doze(T, 0, 5, MAX_BUDGET);
    T := Pick(T, MAX_BUDGET);
    InvSlots(T);
    OneTarget(T, 0, 1);
    Misplaced.UnsafeKillPanics(T, 1);
  }

  /** The first sleeper is the only process with this pid. */
  lemma OneTarget(T: Table, p: int, pid: int)
    requires Slots(T) && IsSlot(p) && T.lists[SLEEP] == [p] && T.procs[p].pid == pid && T.procs[p].priority != 0
    requires forall q :: IsSlot(q) && q != p ==> T.procs[q].pid != pid
    ensures KillUnsafe(T, pid)
  {
    ScanSlots(T);
    var order := ScanOrder(T.lists);
    assert p in T.lists[SLEEP];
    ScanMember(T.lists, p);
    hide ScanOrder;
    var i :| 0 <= i < |order| && order[i] == p;
  }

  /** Two processes sleep on one channel; wakeup1() wakes the first only. */
  lemma SecondSleeperAfterBoot() returns (T: Table)
    ensures Inv(T) && Reached(T) && Slots(T) && ScanWakes(T.procs[1], 5) && Wakeup(T, 5).procs[1].state == Sleeping
  {
    hide Inv, Reached;
    ReachedBoot();
    T := Spawn(Boot(), 0, -1);
    T := Pick(T, 0);
    T := Spawn(T, 1, 0);
    T := Doze(T, 0, 5, 1);
    T := Pick(T, 1);
    T := Doze(T, 1, 5, 2);
    InvSlots(T);
    assert T.lists[SLEEP] == [0, 1];
  }

  /** exit() of a running process without children, with nobody asleep and no zombie. */
  lemma Die(T: Table, p: int, rest: seq<int>) returns (U: Table)
    requires Inv(T) && Reached(T) && p in T.lists[RUNNING] && IsSlot(p) && p != 0
    requires rest == Without(T.lists[RUNNING], p)
    requires T.lists[SLEEP] == [] && T.lists[ZOMBIE] == [] && forall q :: IsSlot(q) ==> T.procs[q].parent != p
    ensures Inv(U) && Reached(U) && U.lists == T.lists[RUNNING := rest][ZOMBIE := [p]]
    ensures U.procs == T.procs[p := T.procs[p].(state := Zombie)]
  {
    InvSlots(T);
    assert Sized(T);
    hide Inv, Reached, Partition, Slots, Exit, Without, MoveLists, Possible, Step;
    MayExit(T, p);
    ReachedNext(T, Call(p, ExitE(p, 0)));
    U := Step(T, ExitE(p, 0));
    QuietExit(T, p);
    DeadLists(T.lists, p);
  }

  lemma MayExit(T: Table, p: int)
    requires Inv(T) && p in T.lists[RUNNING] && IsSlot(p) && p != 0
    ensures Possible(T, Call(p, ExitE(p, 0))) && Able(T, ExitE(p, 0)) && Step(T, ExitE(p, 0)) == Exit(T, p, 0)
  {
    hide Partition, PrioOk, Exit;
  }

  lemma DeadLists(lists: seq<seq<int>>, p: int)
    requires |lists| == NLISTS && lists[ZOMBIE] == []
    ensures MoveLists(lists, p, RUNNING, ZOMBIE) == lists[RUNNING := Without(lists[RUNNING], p)][ZOMBIE := [p]]
  {
    hide Without;
    assert [] + [p] == [p];
  }

  lemma QuietExit(T: Table, p: int)
    requires Inv(T) && Slots(T) && IsSlot(p) && T.lists[SLEEP] == [] && T.lists[ZOMBIE] == []
    requires forall q :: IsSlot(q) ==> T.procs[q].parent != p
    ensures Exit(T, p, 0) == Move(T, p, RUNNING, ZOMBIE)
  {
    hide Partition, PrioOk, Move, ScanOrder;
    ScanSlots(T);
    assert Wakeup(T, T.procs[p].parent) == T;
    assert ReparentScan(T, ScanOrder(T.lists), p, 0).0.procs == T.procs;
    assert Reparent(T, p, 0) == T;
  }

  /** Process 1 has the children 2, a zombie, and 3; its exit() hands 3 to init and forgets 2. */
  lemma ChildLeftAfterBoot() returns (T: Table)
    ensures Inv(T) && Reached(T) && 1 in T.lists[RUNNING]
    ensures exists q :: IsSlot(q) && Exit(T, 1, 0).procs[q].parent == 1
  {
    hide Inv, Reached;
    ReachedBoot();
    T := Spawn(Boot(), 0, -1);
    T := Pick(T, 0);
    T := Spawn(T, 1, 0);
    T := Pick(T, 0);
    T := Spawn(T, 2, 1);
    T := Spawn(T, 3, 1);
    T := Pick(T, 0);
    assert T.lists[RUNNING] == [0, 1, 2];
    assert Without([0, 1, 2], 2) == [0, 1];
    T := Die(T, 2, [0, 1]);
    ForgetsChild(T, 1, 2, 3);
  }

  lemma ForgetsChild(T: Table, me: int, a: int, b: int)
    requires Inv(T) && IsSlot(me) && IsSlot(a) && IsSlot(b) && a != b && me != 0 && T.lists[SLEEP] == []
    requires T.lists[ZOMBIE] != []
    requires T.procs[a].parent == me && T.procs[b].parent == me
    ensures exists q :: IsSlot(q) && Exit(T, me, 0).procs[q].parent == me
  {
    assert Sized(T);
    hide Inv, Reparent, Exit, Slots;
    InvSlots(T);
    ReparentsAllIff(T, me, 0);
    var q :| IsSlot(q) && Reparent(T, me, 0).procs[q].parent == me;
    ExitParent(T, me, q);
  }

  lemma ExitParent(T: Table, me: int, q: int)
    requires Inv(T) && Slots(T) && IsSlot(me) && IsSlot(q) && T.lists[SLEEP] == []
    ensures forall p :: IsSlot(p) ==> 0 <= T.procs[p].priority <= MAXPRIO
    ensures Exit(T, me, 0).procs[q].parent == Reparent(T, me, 0).procs[q].parent
  {
    NobodyAsleep(T, T.procs[me].parent);
    hide Partition, Reparent, MoveLists, Wakeup, PrioOk;
  }

  lemma NobodyAsleep(T: Table, chan: int)
    requires Inv(T) && Slots(T) && T.lists[SLEEP] == []
    ensures Wakeup(T, chan) == T
  {
  }
}
