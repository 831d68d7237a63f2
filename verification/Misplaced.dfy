/**
  A process on ready[0] whose priority is not 0, as an unsafe kill() leaves it: no operation takes
  it away, and the kernel panics at the latest when the scheduler comes to it.
 */
module Misplaced {
  import opened Sequences
  import opened StateLists
  import opened Scheduler

  /** p waits on ready[0] behind k others, with another priority. */
  ghost predicate Stuck(T: Table, p: int, k: int) {
    Loose(T) && IsSlot(p) && At(T, p, 0, k) && T.procs[p].priority != 0
  }

  /** scheduler() would panic in assertPrio, after the promotion if one is due. */
  ghost predicate SchedulePanics(T: Table, ticks: int)
    requires Loose(T)
  {
    var U := if ticks >= T.promoteAt then Promote(T).(promoteAt := ticks + TICKS_TO_PROMOTE) else T;
    PartitionSlots(T);
    PromoteSlots(T);
    DispatchPanics(U)
  }

  /** setpriority() would: it is to move a process that has another priority than its level. */
  ghost predicate SetPriorityPanics(T: Table, pid: int, prio: int)
    requires Loose(T)
  {
    PartitionSlots(T);
    var i := FindPid(T, 0, pid);
    i != -1 &&
    var p := First(T.lists[i], T.procs, (q: Proc) => q.pid == pid);
    T.procs[p].priority != prio && T.procs[p].priority != i
  }

  ghost predicate Panics(T: Table, ev: Event)
    requires Loose(T)
  {
    match ev
    case ScheduleE(ticks) => SchedulePanics(T, ticks)
    case SetPriorityE(pid, prio) => SetPriorityPanics(T, pid, prio)
    case _ => false
  }

  /** A run without such a panic. */
  ghost predicate RunsOn(T: Table, evs: seq<Event>)
    requires Loose(T)
    decreases |evs|
  {
    evs == [] ||
    (Able(T, evs[0]) && !Panics(T, evs[0]) && (StepInv(T, evs[0]); RunsOn(Step(T, evs[0]), evs[1..])))
  }

  lemma StuckRunnable(T: Table, p: int, k: int)
    requires Stuck(T, p, k)
    ensures T.procs[p].state.Runnable? && p in T.lists[0]
  {
    InList(T, 0, p);
  }

  // ---- the priority of a process on ready[0]

  lemma PriorityOfOther(T: Table, ev: Event, p: int)
    requires Loose(T) && Able(T, ev) && IsSlot(p) && p in T.lists[0] && T.procs[p].state.Runnable?
    requires ev.AllocE? || ev.AbortE? || ev.ForkE? || ev.YieldE? || ev.SleepE? || ev.WakeupE? || ev.WaitE?
    ensures Step(T, ev).procs[p].priority == T.procs[p].priority
  {
    hide Partition, MoveLists, First, Charge;
    PartitionSlots(T);
    NotOn(T, FREE, p);
    NotOn(T, RUNNING, p);
  }

  lemma PriorityDispatched(T: Table, ticks: int, p: int)
    requires Slots(T) && IsSlot(p)
    ensures Dispatch(T, ticks).procs[p].priority == T.procs[p].priority
  {
    hide MoveLists;
  }

  /** A promotion leaves the processes of ready[0] alone. */
  lemma PromoteKeeps(T: Table, p: int)
    requires Sized(T) && IsSlot(p) && p in T.lists[0] && T.procs[p].state.Runnable?
    ensures Promote(T).procs[p] == T.procs[p]
  {
  }

  lemma PriorityScheduled(T: Table, ticks: int, p: int)
    requires Loose(T) && IsSlot(p) && p in T.lists[0] && T.procs[p].state.Runnable?
    ensures Schedule(T, ticks).procs[p].priority == T.procs[p].priority
  {
    hide Partition, Promote, Dispatch;
    PartitionSlots(T);
    PromoteSlots(T);
    PromoteKeeps(T, p);
    if ticks >= T.promoteAt {
      PriorityDispatched(Promote(T).(promoteAt := ticks + TICKS_TO_PROMOTE), ticks, p);
    } else {
      PriorityDispatched(T, ticks, p);
    }
  }

  lemma PriorityWoken(T: Table, chan: int, p: int)
    requires Slots(T) && IsSlot(p) && forall q :: IsSlot(q) ==> 0 <= T.procs[q].priority <= MAXPRIO
    ensures Wakeup(T, chan).procs[p].priority == T.procs[p].priority
  {
    hide MoveLists;
  }

  lemma PriorityReparented(T: Table, me: int, init: int, p: int)
    requires Slots(T) && IsSlot(p) && forall q :: IsSlot(q) ==> 0 <= T.procs[q].priority <= MAXPRIO
    ensures Reparent(T, me, init).procs[p].priority == T.procs[p].priority
  {
    ScanSlots(T);
    hide Slots, ScanOrder, First, Wakeup;
    var q := First(ScanOrder(T.lists), T.procs, (r: Proc) => r.parent == me);
    if T.lists[ZOMBIE] != [] && q != -1 {
      PriorityWoken(T.(procs := T.procs[q := T.procs[q].(parent := init)]), init, p);
    }
  }

  lemma PriorityExits(T: Table, q: int, init: int, p: int)
    requires Loose(T) && IsSlot(q) && IsSlot(p)
    ensures Exit(T, q, init).procs[p].priority == T.procs[p].priority
  {
    PartitionSlots(T);
    var chan := T.procs[q].parent;
    WakeupInv(T, chan);
    var U := Wakeup(T, chan);
    PartitionSlots(U);
    hide Partition, Slots, Wakeup, Reparent, MoveLists;
    PriorityWoken(T, chan, p);
    PriorityReparented(U, q, init, p);
  }

  lemma PriorityKilled(T: Table, pid: int, p: int)
    requires Slots(T) && IsSlot(p)
    ensures Kill(T, pid).0.procs[p].priority == T.procs[p].priority
  {
    ScanSlots(T);
    hide Slots, ScanOrder, First, MoveLists;
  }

  lemma PriorityKept(T: Table, ev: Event, p: int)
    requires Loose(T) && Able(T, ev) && IsSlot(p) && p in T.lists[0] && T.procs[p].state.Runnable? && !ev.SetPriorityE?
    ensures Step(T, ev).procs[p].priority == T.procs[p].priority
  {
    PartitionSlots(T);
    hide Partition, Slots, Exit, Kill, Schedule, SetPriority, Alloc, Move, ForkDone, Yield, SleepOn, Wakeup, Reap;
    match ev
    case ScheduleE(ticks) => PriorityScheduled(T, ticks, p);
    case ExitE(q, init) => PriorityExits(T, q, init, p);
    case KillE(pid) => PriorityKilled(T, pid, p);
    case _ => PriorityOfOther(T, ev, p);
  }

  // ---- one step

  /** A dispatch that does not panic picks another process than p. */
  lemma AnotherPicked(T: Table, ticks: int, p: int, k: int)
    requires Partition(T) && Slots(T) && At(T, p, 0, k) && IsSlot(p) && T.procs[p].priority != 0 && !DispatchPanics(T)
    ensures Dispatch(T, ticks).procs[p].state == T.procs[p].state
  {
    assert T.lists[0] != [];
    assert FindLevel(T.lists, 0, (s: seq<int>) => s != []) == 0;
    hide Partition, MoveLists;
  }

  lemma AnotherScheduled(T: Table, ticks: int, p: int, k: int)
    requires Stuck(T, p, k) && !SchedulePanics(T, ticks)
    ensures Schedule(T, ticks).procs[p].state.Runnable?
  {
    StuckRunnable(T, p, k);
    PartitionSlots(T);
    PromoteSlots(T);
    hide Dispatch, Slots, DispatchPanics;
    if ticks >= T.promoteAt {
      PromotePartition(T);
      var U := Promote(T).(promoteAt := ticks + TICKS_TO_PROMOTE);
      PartitionFrame(Promote(T), U);
      PromoteRank0(T, p, k);
      hide Partition;
      assert Slots(U);
      AnotherPicked(U, ticks, p, k);
    } else {
      hide Partition;
      AnotherPicked(T, ticks, p, k);
    }
  }

  lemma PromoteRank0(T: Table, p: int, k: int)
    requires At(T, p, 0, k) && IsSlot(p) && T.procs[p].state.Runnable?
    ensures At(Promote(T), p, 0, k) && Promote(T).procs[p] == T.procs[p]
  {
    PromoteKeeps(T, p);
  }

  /** setpriority() of the misplaced process itself does nothing, or panics. */
  lemma StuckSet(T: Table, pid: int, prio: int, p: int, k: int) returns (k': int)
    requires Stuck(T, p, k) && Slots(T) && 0 <= prio <= MAXPRIO && !SetPriorityPanics(T, pid, prio)
    ensures var U := SetPriority(T, pid, prio).0;
      At(U, p, 0, k') && k' <= k && U.procs[p].priority == T.procs[p].priority
  {
    StuckRunnable(T, p, k);
    var f := (q: Proc) => q.pid == pid;
    var i := FindPid(T, 0, pid);
    k' := k;
    if i != -1 {
      var q := First(T.lists[i], T.procs, f);
      if q == p {
        OneLevel(T, p, i);
      } else if T.procs[q].priority != prio {
        k' := MoveRank(T.(procs := T.procs[q := SetPrio(T.procs[q], prio)]), p, 0, k, q, i, prio);
      }
      hide Partition, First, FindPid, MoveLists;
    } else {
      SetElsewhere(T, pid, prio, p);
      hide Partition, SetPriority;
    }
  }

  lemma OneLevel(T: Table, p: int, i: int)
    requires Partition(T) && 0 <= i <= MAXPRIO && p in T.lists[0] && p in T.lists[i]
    ensures i == 0
  {
    assert i == 0 || Apart(T.lists[0], T.lists[i]);
  }

  lemma SetElsewhere(T: Table, pid: int, prio: int, p: int)
    requires Partition(T) && Slots(T) && 0 <= prio <= MAXPRIO && FindPid(T, 0, pid) == -1
    requires IsSlot(p) && T.procs[p].state.Runnable?
    ensures var U := SetPriority(T, pid, prio).0;
      U.lists == T.lists && U.procs[p].priority == T.procs[p].priority
  {
    hide Partition, First, FindPid, Move;
    NotOn(T, SLEEP, p);
    NotOn(T, RUNNING, p);
  }

  lemma NotOn(T: Table, l: int, p: int)
    requires Partition(T) && IsSlot(p) && T.procs[p].state.Runnable? && MAXPRIO < l < NLISTS
    ensures p !in T.lists[l]
  {
    if p in T.lists[l] {
      InList(T, l, p);
    }
  }

  lemma StuckStep(T: Table, ev: Event, p: int, k: int) returns (k': int)
    requires Stuck(T, p, k) && Able(T, ev) && !Panics(T, ev)
    ensures Stuck(Step(T, ev), p, k') && k' <= k && (ev.ScheduleE? ==> k' < k)
  {
    StuckRunnable(T, p, k);
    hide Partition, SchedulePanics, SetPriorityPanics, SetPriority;
    StepInv(T, ev);
    if ev.SetPriorityE? {
      PartitionSlots(T);
      k' := StuckSet(T, ev.pid, ev.prio, p, k);
    } else {
      if ev.ScheduleE? {
        AnotherScheduled(T, ev.ticks, p, k);
      }
      PriorityKept(T, ev, p);
      var i;
      i, k' := StepRank(T, ev, p, 0, k);
      hide Step;
    }
  }

  /**
    However the processes go on, with whatever further kills, promotions and calls of setpriority():
    at most k iterations of the scheduler go well, so the kernel panics in the next at the latest.
   */
  lemma {:induction false} StuckPanics(T: Table, evs: seq<Event>, p: int, k: int)
    requires Stuck(T, p, k) && RunsOn(T, evs)
    ensures Schedules(evs) <= k
    decreases |evs|
  {
    if evs != [] {
      var k' := StuckStep(T, evs[0], p, k);
      hide Stuck, Step, Panics, Able, Loose;
      StuckPanics(Step(T, evs[0]), evs[1..], p, k');
    }
  }

  // ---- after an unsafe kill

  lemma InvPicks(T: Table)
    requires Inv(T) && Slots(T)
    ensures !DispatchPanics(T)
  {
    var i := FindLevel(T.lists, 0, (s: seq<int>) => s != []);
    assert i != -1 ==> T.lists[i][0] in T.lists[i];
    hide Partition;
  }

  lemma InvSets(T: Table, pid: int, prio: int)
    requires Inv(T)
    ensures !SetPriorityPanics(T, pid, prio)
  {
    PartitionSlots(T);
    hide Partition;
  }

  /** As long as no kill was unsafe, nothing panics. */
  lemma InvRuns(T: Table, ev: Event)
    requires Inv(T)
    ensures !Panics(T, ev)
  {
    hide Partition, PrioOk, Promote, DispatchPanics, SetPriorityPanics;
    PartitionSlots(T);
    PromoteSlots(T);
    PromoteInv(T);
    if ev.SetPriorityE? {
      InvSets(T, ev.pid, ev.prio);
    } else if ev.ScheduleE? {
      var U := Promote(T).(promoteAt := ev.ticks + TICKS_TO_PROMOTE);
      InvFrame(Promote(T), U);
      InvPicks(U);
      InvPicks(T);
    }
  }

  lemma UnsafeKillSticks(T: Table, pid: int)
    requires Inv(T) && Slots(T) && KillUnsafe(T, pid)
    ensures Stuck(Kill(T, pid).0, T.lists[SLEEP][0], |T.lists[0]|)
  {
    hide Partition, PrioOk, ScanOrder, MoveLists, First;
    KillInvIff(T, pid);
    ScanSlots(T);
    JoinsLevel(T.lists, T.lists[SLEEP][0]);
  }

  lemma JoinsLevel(lists: seq<seq<int>>, p: int)
    requires |lists| == NLISTS
    ensures MoveLists(lists, p, SLEEP, 0)[0] == lists[0] + [p]
  {
    hide Without;
  }

  /** After an unsafe kill no run gets through more iterations of the scheduler than ready[0] had processes. */
  lemma UnsafeKillStops(T: Table, pid: int, evs: seq<Event>)
    requires Inv(T) && Slots(T) && KillUnsafe(T, pid)
    requires Loose(Kill(T, pid).0) && RunsOn(Kill(T, pid).0, evs)
    ensures Schedules(evs) <= |T.lists[0]|
  {
    UnsafeKillSticks(T, pid);
    hide Inv, Stuck, Loose, KillUnsafe;
    StuckPanics(Kill(T, pid).0, evs, T.lists[SLEEP][0], |T.lists[0]|);
  }

  /** If ready[0] was empty, the very next dispatch panics. */
  lemma UnsafeKillPanics(T: Table, pid: int)
    requires Inv(T) && Slots(T) && KillUnsafe(T, pid) && T.lists[0] == []
    ensures Slots(Kill(T, pid).0) && DispatchPanics(Kill(T, pid).0)
    ensures !DispatchPanics(T)
  {
    UnsafeKillSticks(T, pid);
    InvPicks(T);
    PartitionSlots(Kill(T, pid).0);
    hide Partition, Kill;
  }
}
