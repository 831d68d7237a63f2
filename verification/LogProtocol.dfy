/**
  Group commit: begin_op, log_write, end_op and crashes interleaved in any order.

  Each lock-protected section of log.c is one event, and so are the tests that log_write makes
  before it takes the lock.  Each block write of a running commit or recovery is one event, and a
  crash may come between any two.  The fields from `init` on are
  history: they record which operations wrote what, and which groups of operations have been
  committed.
 */
module LogProtocol {
  import opened Params
  import opened RedoLog

  type Op = nat

  datatype OpWrite = OpWrite(op: Op, at: nat, data: Block)

  /** The operations of one transaction and their log_writes in the order they were made. */
  datatype Group = Group(ops: set<Op>, writes: seq<OpWrite>)

  datatype Phase = Running | Committing | Recovering

  datatype State = State(
    disk: Disk,            // what survives a crash
    mem: Disk,             // what bread returns
    lh: seq<nat>,          // log.lh.block[..log.lh.n]
    outstanding: int,      // log.outstanding
    phase: Phase,          // Committing is log.committing
    todo: seq<Write>,      // block writes the running commit or recovery has still to issue
    live: set<Op>,         // operations between begin_op and end_op
    passed: map<Op, OpWrite>, // log_write calls that have passed the tests and wait for the lock
    nextOp: Op,            // operation names are never reused
    init: Disk,            // history: the disk at the start of the run
    done: seq<Group>,      // history: groups whose header write has landed
    cur: Group,            // history: the group being assembled or committed
    issued: seq<OpWrite>,  // history: every log_write ever made
    begun: set<Op>,        // history: every operation that ever began
    lost: set<Op>,         // history: operations dropped by a crash before their group committed
    base: Disk,            // history: the disk when the running commit or recovery began
    snap: Disk             // history: the cache when the running commit began
  )

  datatype Event =
    | Begin(op: Op)
    | LogWrite(op: Op, at: nat, data: Block) // the call, up to the lock
    | Append(op: Op)                         // the rest of it
    | End(op: Op)
    | DiskWrite
    | Finish
    | Crash

  /** Overrun: the block is put behind the end of the log, or of the header's array. */
  datatype Outcome = Next(state: State) | Waits | Panic | Overrun

  const NoGroup := Group({}, [])

  /** log_write's search for b in the logged blocks: absorbed when present, else appended. */
  function Absorb(lh: seq<nat>, b: nat): (r: seq<nat>)
    ensures b in r
    ensures forall x :: x in r <==> x in lh || x == b
  {
    if b in lh then lh else lh + [b]
  }

  /** The state at boot, once the log is clean. */
  function Start(d: Disk): State {
    State(d, d, [], 0, Running, [], {}, map[], 0, d, [], NoGroup, [], {}, {}, d, d)
  }

  /**
    One event.  `Waits` means that the event cannot happen now: the caller sleeps, or there is
    no such caller.  The blocks logged lie outside the log.
   */
  function Step(L: Layout, s: State, ev: Event): Outcome
    requires Inv(L, s)
  {
    match ev
    case Begin(op) => StepBegin(s, op)
    case LogWrite(op, at, data) => StepLogWrite(L, s, op, at, data)
    case Append(op) => StepAppend(L, s, op)
    case End(op) => StepEnd(L, s, op)
    case DiskWrite => StepDiskWrite(L, s)
    case Finish => StepFinish(s)
    case Crash => Next(StepCrash(L, s))
  }

  function StepBegin(s: State, op: Op): Outcome {
    if s.phase.Recovering? || op < s.nextOp then Waits
    else if s.phase.Committing? then Waits
    else if |s.lh| + (s.outstanding + 1) * MAXOPBLOCKS > LOGSIZE then Waits
    else Next(s.(
      outstanding := s.outstanding + 1,
      live := s.live + {op},
      nextOp := op + 1,
      begun := s.begun + {op},
      cur := s.cur.(ops := s.cur.ops + {op})))
  }

  /** The number of logged blocks that log and header have room for. */
  function Full(L: Layout): int {
    if L.size - 1 < LOGSIZE then L.size - 1 else LOGSIZE
  }

  function StepLogWrite(L: Layout, s: State, op: Op, at: nat, data: Block): Outcome {
    if op !in s.live || op in s.passed || !L.Home(at) then Waits
    else if |s.lh| >= LOGSIZE || |s.lh| >= L.size - 1 then Panic // too big a transaction
    else if s.outstanding < 1 then Panic // log_write outside of trans
    else Next(s.(passed := s.passed[op := OpWrite(op, at, data)]))
  }

  ghost predicate CallsHome(L: Layout, calls: map<Op, OpWrite>) {
    forall op :: op in calls ==> L.Home(calls[op].at)
  }

  function StepAppend(L: Layout, s: State, op: Op): Outcome
    requires |s.mem| == L.nblocks && CallsHome(L, s.passed)
  {
    if op !in s.passed then Waits
    else
      var w := s.passed[op];
      if w.at !in s.lh && |s.lh| >= Full(L) then Overrun
      else Next(s.(
        passed := s.passed - {op},
        mem := s.mem[w.at := w.data],
        lh := Absorb(s.lh, w.at),
        cur := s.cur.(writes := s.cur.writes + [w]),
        issued := s.issued + [w]))
  }

  function StepEnd(L: Layout, s: State, op: Op): Outcome
    requires L.Valid() && |s.mem| == L.nblocks && HeadOk(s.mem[L.start]) && Loggable(L, s.lh)
  {
    if op !in s.live || op in s.passed then Waits
    else if s.phase.Committing? then Panic // log.committing
    else
      var t := s.(outstanding := s.outstanding - 1, live := s.live - {op});
      if t.outstanding != 0 then Next(t)
      else
        var u := t.(phase := Committing, todo := CommitWrites(L, s.mem, s.lh), base := s.disk, snap := s.mem);
        Next(if s.lh == [] then u.(done := s.done + [s.cur], cur := NoGroup) else u)
  }

  /** The next block write of commit() or recover_from_log(); a non-empty header is the commit point. */
  function StepDiskWrite(L: Layout, s: State): Outcome
    requires InRange(s.todo, |s.disk|) && |s.mem| == |s.disk|
    requires forall i :: 0 <= i < |s.todo| && s.todo[i].at == L.start ==> HeadOk(s.todo[i].data)
  {
    if s.todo == [] then Waits
    else
      var w := s.todo[0];
      var t := s.(disk := s.disk[w.at := w.data], mem := s.mem[w.at := w.data], todo := s.todo[1..]);
      Next(if w.at == L.start && GetHead(w.data) != []
           then t.(done := s.done + [s.cur], cur := NoGroup) else t)
  }

  /** The end of end_op or of recover_from_log. */
  function StepFinish(s: State): Outcome {
    if s.phase.Running? || s.todo != [] then Waits
    else Next(s.(phase := Running, lh := []))
  }

  /** Memory is lost; the next boot starts recovery from the disk. */
  function StepCrash(L: Layout, s: State): State
    requires DiskOk(L, s.disk)
  {
    s.(mem := s.disk, lh := [], outstanding := 0, phase := Recovering, todo := RecoveryWrites(L, s.disk),
       live := {}, passed := map[], cur := NoGroup, lost := s.lost + s.cur.ops, base := s.disk)
  }

  // ---------------------------------------------------------------- meaning of the history

  /** Disk contents after a sequence of log_writes, as if each went straight to its home block. */
  function Effect(d: Disk, ws: seq<OpWrite>): (r: Disk)
    ensures |r| == |d|
    decreases |ws|
  {
    if ws == [] then d else
      var e := Effect(d, ws[..|ws| - 1]);
      var w := ws[|ws| - 1];
      if w.at < |d| then e[w.at := w.data] else e
  }

  function EffectAll(d: Disk, gs: seq<Group>): (r: Disk)
    ensures |r| == |d|
    decreases |gs|
  {
    if gs == [] then d else Effect(EffectAll(d, gs[..|gs| - 1]), gs[|gs| - 1].writes)
  }

  function ByOp(ws: seq<OpWrite>, op: Op): seq<OpWrite>
    decreases |ws|
  {
    if ws == [] then [] else
      var w := ws[|ws| - 1];
      ByOp(ws[..|ws| - 1], op) + if w.op == op then [w] else []
  }

  lemma EffectSnoc(d: Disk, ws: seq<OpWrite>, w: OpWrite)
    requires w.at < |d|
    ensures Effect(d, ws + [w]) == Effect(d, ws)[w.at := w.data]
  {
    assert (ws + [w])[..|ws|] == ws;
  }

  lemma EffectAllSnoc(d: Disk, gs: seq<Group>, g: Group)
    ensures EffectAll(d, gs + [g]) == Effect(EffectAll(d, gs), g.writes)
  {
    assert (gs + [g])[..|gs|] == gs;
  }

  lemma ByOpSnoc(ws: seq<OpWrite>, w: OpWrite, op: Op)
    ensures ByOp(ws + [w], op) == ByOp(ws, op) + if w.op == op then [w] else []
  {
    assert (ws + [w])[..|ws|] == ws;
  }

  lemma {:induction false} ByOpNone(ws: seq<OpWrite>, op: Op)
    requires forall i :: 0 <= i < |ws| ==> ws[i].op != op
    ensures ByOp(ws, op) == []
    decreases |ws|
  {
    if ws != [] {
      ByOpNone(ws[..|ws| - 1], op);
    }
  }

  // ---------------------------------------------------------------- the invariant

  ghost predicate InvShape(L: Layout, s: State) {
    && L.Valid()
    && |s.disk| == |s.mem| == |s.init| == |s.base| == |s.snap| == L.nblocks
    && DiskOk(L, s.disk) && DiskOk(L, s.base) && HeadOk(s.mem[L.start]) && Loggable(L, s.lh)
    && InRange(s.todo, L.nblocks)
    && CallsHome(L, s.passed)
    && (forall i :: 0 <= i < |s.todo| && s.todo[i].at == L.start ==> HeadOk(s.todo[i].data))
  }

  /** The running commit has issued all but the last |todo| of its block writes. */
  ghost predicate MidCommit(L: Layout, s: State)
    requires InvShape(L, s)
  {
    && Clean(L, s.base) && HeadOk(s.snap[L.start]) && SameHome(L, s.mem, s.snap)
    && (forall b: nat :: L.Home(b) && b !in s.lh ==> s.snap[b] == s.base[b])
    && var ws := CommitWrites(L, s.snap, s.lh);
       |s.todo| <= |ws| && s.todo == ws[|ws| - |s.todo|..] &&
       CommitState(L, s.base, s.snap, s.lh, |ws| - |s.todo|, s.disk)
  }

  ghost predicate MidRecovery(L: Layout, s: State)
    requires InvShape(L, s)
  {
    && s.mem == s.disk && s.lh == []
    && var ws := RecoveryWrites(L, s.base);
       |s.todo| <= |ws| && s.todo == ws[|ws| - |s.todo|..] &&
       RecoveryState(L, s.base, |ws| - |s.todo|, s.disk)
  }

  /** Where the disk is. */
  ghost predicate InvPhase(L: Layout, s: State)
    requires InvShape(L, s)
  {
    match s.phase
    case Running =>
      && s.todo == [] && Clean(L, s.disk)
      && forall b: nat :: L.Home(b) && b !in s.lh ==> s.mem[b] == s.disk[b]
    case Committing => MidCommit(L, s)
    case Recovering => MidRecovery(L, s)
  }

  /** The disk denotes the committed groups; the cache adds the current one. */
  ghost predicate InvMeaning(L: Layout, s: State)
    requires InvShape(L, s)
  {
    && Denotes(L, s.disk, EffectAll(s.init, s.done))
    && (!s.phase.Recovering? ==> SameHome(L, s.mem, Effect(EffectAll(s.init, s.done), s.cur.writes)))
    && (s.phase.Recovering? || (s.phase.Committing? && |s.todo| > |s.lh| + 1) ==>
          Denotes(L, s.base, EffectAll(s.init, s.done)))
  }

  ghost predicate InvOps(s: State) {
    && s.outstanding == |s.live|
    && s.live <= s.cur.ops
    && (forall op :: op in s.passed ==> op in s.live && s.passed[op].op == op)
    && (!s.phase.Running? ==> s.live == {})
    && (s.phase.Running? && s.live == {} ==> s.cur == NoGroup)
    && (s.phase.Committing? && |s.todo| <= |s.lh| + 1 ==> s.cur == NoGroup)
    && (s.phase.Recovering? ==> s.cur == NoGroup)
  }

  /** `g` holds exactly the log_writes its operations ever made. */
  ghost predicate Whole(s: State, g: Group) {
    && (forall op :: op in g.ops ==> op < s.nextOp && ByOp(g.writes, op) == ByOp(s.issued, op))
    && (forall i :: 0 <= i < |g.writes| ==> g.writes[i].op in g.ops)
  }

  ghost predicate Committed(s: State, op: Op) {
    exists k :: 0 <= k < |s.done| && op in s.done[k].ops
  }

  ghost predicate InvHistory(s: State) {
    && (forall k :: 0 <= k < |s.done| ==> Whole(s, s.done[k]))
    && Whole(s, s.cur)
    && (forall j, k :: 0 <= j < k < |s.done| ==> s.done[j].ops !! s.done[k].ops)
    && (forall k :: 0 <= k < |s.done| ==> s.done[k].ops !! s.cur.ops)
    && (forall i :: 0 <= i < |s.issued| ==> s.issued[i].op < s.nextOp)
    && (forall op :: op in s.begun ==> op in s.cur.ops || op in s.lost || Committed(s, op))
  }

  ghost predicate Inv(L: Layout, s: State) {
    && InvShape(L, s) && InvPhase(L, s) && InvMeaning(L, s)
    && InvOps(s) && InvHistory(s)
  }

  lemma InvStart(L: Layout, d: Disk)
    requires Clean(L, d)
    ensures Inv(L, Start(d))
  {
  }

  lemma DenotesSame(L: Layout, d: Disk, e: Disk, f: Disk)
    requires DiskOk(L, d) && Denotes(L, d, e) && SameHome(L, e, f)
    ensures Denotes(L, d, f)
  {
  }

  // ---------------------------------------------------------------- begin_op, log_write

  ghost predicate InvStore(L: Layout, s: State) {
    InvShape(L, s) && InvPhase(L, s) && InvMeaning(L, s)
  }

  /** The part of the invariant about blocks depends on no bookkeeping of operations. */
  lemma StoreFrame(L: Layout, s: State, t: State)
    requires InvStore(L, s)
    requires t == s.(outstanding := t.outstanding, live := t.live, passed := t.passed, nextOp := t.nextOp,
                     cur := t.cur, issued := t.issued, begun := t.begun)
    requires t.cur.writes == s.cur.writes && CallsHome(L, t.passed)
    ensures InvStore(L, t)
  {
    hide Denotes, CommitState, RecoveryState, CommitWrites, RecoveryWrites, DiskOk, Loggable, SameHome, Clean,
      EffectAll, Effect;
  }

  lemma BeginFresh(s: State, op: Op)
    requires InvOps(s) && InvHistory(s) && StepBegin(s, op).Next?
    ensures op !in s.live
  {
    assert op !in s.cur.ops;
  }

  lemma BeginOps(s: State, op: Op)
    requires InvOps(s) && op !in s.live && StepBegin(s, op).Next?
    ensures InvOps(StepBegin(s, op).state)
  {
    assert |s.live + {op}| == |s.live| + 1;
  }

  lemma CommittedFrame(s: State, t: State)
    requires s.done == t.done
    ensures forall op :: Committed(s, op) <==> Committed(t, op)
  {
  }

  lemma BeginHistory(s: State, op: Op)
    requires InvHistory(s) && StepBegin(s, op).Next?
    ensures InvHistory(StepBegin(s, op).state)
  {
    ByOpNone(s.issued, op);
    ByOpNone(s.cur.writes, op);
    CommittedFrame(s, StepBegin(s, op).state);
    hide Committed;
  }

  lemma BeginKeeps(L: Layout, s: State, op: Op)
    requires Inv(L, s) && StepBegin(s, op).Next?
    ensures Inv(L, StepBegin(s, op).state)
  {
    hide InvPhase, InvMeaning, InvHistory, InvOps, DiskOk, Loggable, CallsHome;
    BeginFresh(s, op);
    BeginOps(s, op);
    BeginHistory(s, op);
    StoreFrame(L, s, StepBegin(s, op).state);
  }

  lemma AppendStore(L: Layout, s: State, op: Op)
    requires Inv(L, s) && StepAppend(L, s, op).Next?
    ensures InvStore(L, StepAppend(L, s, op).state)
  {
    var t := StepAppend(L, s, op).state;
    var w := s.passed[op];
    hide InvHistory;
    assert s.phase.Running?;
    hide InvOps;
    assert InvShape(L, t);
    assert InvPhase(L, t);
    EffectSnoc(EffectAll(s.init, s.done), s.cur.writes, w);
    hide Denotes, Effect, EffectAll;
  }

  lemma AppendHistory(s: State, op: Op, w: OpWrite)
    requires InvHistory(s) && op in s.cur.ops && w.op == op
    ensures InvHistory(s.(cur := s.cur.(writes := s.cur.writes + [w]), issued := s.issued + [w]))
  {
    forall p ensures ByOp(s.issued + [w], p) == ByOp(s.issued, p) + (if op == p then [w] else []) {
      ByOpSnoc(s.issued, w, p);
    }
    forall p ensures ByOp(s.cur.writes + [w], p) == ByOp(s.cur.writes, p) + (if op == p then [w] else []) {
      ByOpSnoc(s.cur.writes, w, p);
    }
    CommittedFrame(s, s.(cur := s.cur.(writes := s.cur.writes + [w]), issued := s.issued + [w]));
    hide ByOp, Committed;
  }

  lemma HistoryFrame(s: State, t: State)
    requires InvHistory(s)
    requires t.done == s.done && t.cur == s.cur && t.issued == s.issued && t.nextOp == s.nextOp
    requires t.begun == s.begun && t.lost == s.lost
    ensures InvHistory(t)
  {
    CommittedFrame(s, t);
    hide Committed, ByOp;
  }

  lemma LogWriteKeeps(L: Layout, s: State, op: Op, at: nat, data: Block)
    requires Inv(L, s) && StepLogWrite(L, s, op, at, data).Next?
    ensures Inv(L, StepLogWrite(L, s, op, at, data).state)
  {
    hide InvPhase, InvMeaning, InvHistory;
    var t := StepLogWrite(L, s, op, at, data).state;
    StoreFrame(L, s, t);
    HistoryFrame(s, t);
  }

  lemma AppendKeeps(L: Layout, s: State, op: Op)
    requires Inv(L, s) && StepAppend(L, s, op).Next?
    ensures Inv(L, StepAppend(L, s, op).state)
  {
    var t := StepAppend(L, s, op).state;
    hide InvPhase, InvMeaning, InvHistory;
    AppendStore(L, s, op);
    hide InvShape;
    assert InvOps(t);
    var w := s.passed[op];
    AppendHistory(s, op, w);
    HistoryFrame(s.(cur := s.cur.(writes := s.cur.writes + [w]), issued := s.issued + [w]), t);
  }

  // ---------------------------------------------------------------- end_op and commit

  lemma EndOps(L: Layout, s: State, op: Op)
    requires InvShape(L, s) && InvOps(s) && StepEnd(L, s, op).Next?
    ensures InvOps(StepEnd(L, s, op).state)
  {
    hide CommitWrites, DiskOk;
    assert |s.live - {op}| == |s.live| - 1;
  }

  /** The last end_op starts a commit: none of its block writes has been issued yet. */
  lemma CommitBegins(L: Layout, s: State, t: State)
    requires InvStore(L, s) && s.phase.Running?
    requires t == s.(outstanding := t.outstanding, live := t.live, done := t.done, cur := t.cur,
                     phase := Committing, todo := CommitWrites(L, s.mem, s.lh), base := s.disk, snap := s.mem)
    ensures InvShape(L, t) && MidCommit(L, t)
  {
    hide InvMeaning, CommitWrites, PutHead;
    var ws := CommitWrites(L, s.mem, s.lh);
    assert CommitState(L, s.disk, s.mem, s.lh, 0, s.disk);
    hide CommitState;
    assert ws[0..] == ws;
    forall i | 0 <= i < |ws| && ws[i].at == L.start ensures HeadOk(ws[i].data) {
      CommitHeads(L, s.mem, s.lh, i);
    }
  }

  lemma CommitBeginsMeaning(L: Layout, s: State, t: State)
    requires InvStore(L, s) && InvShape(L, t) && s.phase.Running? && t.phase.Committing?
    requires t.disk == s.disk && t.base == s.disk && t.mem == s.mem && t.init == s.init && t.lh == s.lh
    requires if s.lh == [] then t.todo == [] && t.done == s.done + [s.cur] && t.cur == NoGroup
             else t.done == s.done && t.cur == s.cur
    ensures InvMeaning(L, t)
  {
    hide Denotes, SameHome, EffectAll, Effect, DiskOk, Loggable;
    if s.lh == [] {
      EffectAllSnoc(s.init, s.done, s.cur);
      EffectNothing(EffectAll(s.init, t.done));
      EmptyLogIsClean(L, s);
      CleanSame(L, s.disk, s.mem, EffectAll(s.init, t.done));
    }
  }

  lemma EndStore(L: Layout, s: State, op: Op)
    requires InvStore(L, s) && InvOps(s) && StepEnd(L, s, op).Next?
    ensures InvStore(L, StepEnd(L, s, op).state)
  {
    hide InvMeaning, CommitWrites, MidCommit, MidRecovery;
    var t := StepEnd(L, s, op).state;
    assert s.phase.Running?;
    if t.phase.Running? {
      StoreFrame(L, s, t);
    } else {
      CommitBegins(L, s, t);
      CommitBeginsMeaning(L, s, t);
    }
  }

  lemma EmptyLogIsClean(L: Layout, s: State)
    requires InvShape(L, s) && InvPhase(L, s) && s.phase.Running? && s.lh == []
    ensures SameHome(L, s.mem, s.disk)
  {
  }

  lemma CleanSame(L: Layout, d: Disk, e: Disk, f: Disk)
    requires DiskOk(L, d) && Clean(L, d) && SameHome(L, e, d) && SameHome(L, e, f)
    ensures Denotes(L, d, f)
  {
  }

  lemma CommitHeads(L: Layout, mem: Disk, lh: seq<nat>, i: nat)
    requires L.Valid() && |mem| == L.nblocks && HeadOk(mem[L.start]) && Loggable(L, lh)
    requires i < |CommitWrites(L, mem, lh)| && CommitWrites(L, mem, lh)[i].at == L.start
    ensures HeadOk(CommitWrites(L, mem, lh)[i].data)
  {
  }

  lemma HistoryCommit(s: State)
    requires InvHistory(s)
    ensures InvHistory(s.(done := s.done + [s.cur], cur := NoGroup))
  {
    var t := s.(done := s.done + [s.cur], cur := NoGroup);
    forall op | op in t.begun ensures op in t.lost || Committed(t, op) {
      if op in s.cur.ops {
        assert t.done[|s.done|].ops == s.cur.ops;
      } else if Committed(s, op) {
        var k :| 0 <= k < |s.done| && op in s.done[k].ops;
        assert op in t.done[k].ops;
      }
    }
    hide Committed;
  }

  lemma EndHistory(L: Layout, s: State, op: Op)
    requires InvShape(L, s) && InvHistory(s) && StepEnd(L, s, op).Next?
    ensures InvHistory(StepEnd(L, s, op).state)
  {
    hide InvHistory;
    var t := StepEnd(L, s, op).state;
    if t.done == s.done {
      HistoryFrame(s, t);
    } else {
      HistoryCommit(s);
      HistoryFrame(s.(done := s.done + [s.cur], cur := NoGroup), t);
    }
  }

  lemma EndKeeps(L: Layout, s: State, op: Op)
    requires Inv(L, s) && StepEnd(L, s, op).Next?
    ensures Inv(L, StepEnd(L, s, op).state)
  {
    hide InvPhase, InvMeaning, InvHistory, InvOps, StepEnd;
    EndStore(L, s, op);
    EndOps(L, s, op);
    EndHistory(L, s, op);
  }

  /** The next block write of a commit. */
  lemma CommitNext(L: Layout, s: State)
    requires InvShape(L, s) && MidCommit(L, s) && s.todo != []
    ensures var ws := CommitWrites(L, s.snap, s.lh);
      var k := |ws| - |s.todo|;
      && ws != []
      && s.todo[0] == CommitWrite(L, s.snap, s.lh, k) && s.todo[1..] == ws[k + 1..]
      && (s.todo[0].at == L.start <==> |s.todo| == |s.lh| + 2 || |s.todo| == 1)
      && (s.todo[0].at == L.start ==> (GetHead(s.todo[0].data) != [] <==> |s.todo| == |s.lh| + 2))
      && (L.Home(s.todo[0].at) ==> s.todo[0].data == s.snap[s.todo[0].at])
  {
    hide CommitState;
  }

  lemma CommitWriteStore(L: Layout, s: State)
    requires InvShape(L, s) && MidCommit(L, s) && s.phase.Committing? && s.todo != []
    ensures InvShape(L, StepDiskWrite(L, s).state) && MidCommit(L, StepDiskWrite(L, s).state)
  {
    hide CommitState, Denotes, CommitWrite, CommitWrites, PutHead, GetHead;
    var t := StepDiskWrite(L, s).state;
    var ws := CommitWrites(L, s.snap, s.lh);
    var k := |ws| - |s.todo|;
    CommitNext(L, s);
    CommitStep(L, s.base, s.snap, s.lh, k, s.disk);
    CommitStateDenotes(L, s.base, s.snap, s.lh, k + 1, t.disk);
    assert InvShape(L, t);
    hide InvShape, DiskOk, Loggable;
  }

  lemma CleanDenotes(L: Layout, d: Disk, e: Disk)
    requires Clean(L, d) && |e| == |d|
    ensures Denotes(L, d, e) <==> SameHome(L, d, e)
  {
  }

  lemma InstalledIsCache(L: Layout, s: State)
    requires InvShape(L, s) && MidCommit(L, s)
    ensures SameHome(L, Installed(s.base, s.snap, s.lh), s.mem)
  {
    hide CommitState, CommitWrites;
  }

  lemma SameHomeTrans(L: Layout, d: Disk, e: Disk, f: Disk)
    requires SameHome(L, d, e) && SameHome(L, e, f)
    ensures SameHome(L, d, f) && SameHome(L, f, d)
  {
  }

  /** What the disk denotes after one more block write of a commit. */
  lemma CommitWriteDenotes(L: Layout, s: State)
    requires InvStore(L, s) && s.phase.Committing? && s.todo != []
    ensures DiskOk(L, StepDiskWrite(L, s).state.disk)
    ensures var before := EffectAll(s.init, s.done);
      Denotes(L, StepDiskWrite(L, s).state.disk,
              if |s.todo| == |s.lh| + 2 then Effect(before, s.cur.writes) else before)
  {
    hide CommitState, Denotes, CommitWrite, CommitWrites, PutHead, GetHead, Effect, EffectAll, SameHome;
    var t := StepDiskWrite(L, s).state;
    var ws := CommitWrites(L, s.snap, s.lh);
    var k := |ws| - |s.todo|;
    var before := EffectAll(s.init, s.done);
    var after := Installed(s.base, s.snap, s.lh);
    CommitNext(L, s);
    CommitStep(L, s.base, s.snap, s.lh, k, s.disk);
    CommitStateDenotes(L, s.base, s.snap, s.lh, k + 1, t.disk);
    if k < |s.lh| {
      CleanDenotes(L, s.base, before);
      DenotesSame(L, t.disk, s.base, before);
    } else if k == |s.lh| {
      InstalledIsCache(L, s);
      SameHomeTrans(L, after, s.mem, Effect(before, s.cur.writes));
      DenotesSame(L, t.disk, after, Effect(before, s.cur.writes));
    } else {
      CommitStateDenotes(L, s.base, s.snap, s.lh, k, s.disk);
      DenotesUnique(L, s.disk, after, before);
      DenotesSame(L, t.disk, after, before);
    }
  }

  /** The header write, and no other, moves the current group to the committed ones. */
  lemma CommitWriteGroup(L: Layout, s: State)
    requires InvShape(L, s) && MidCommit(L, s) && s.todo != []
    ensures var t := StepDiskWrite(L, s).state;
      t == s.(disk := t.disk, mem := t.mem, todo := s.todo[1..], done := t.done, cur := t.cur) &&
      if |s.todo| == |s.lh| + 2 then t.done == s.done + [s.cur] && t.cur == NoGroup
      else t.done == s.done && t.cur == s.cur
  {
    CommitNext(L, s);
    hide MidCommit;
  }

  lemma CommitWriteMeaning(L: Layout, s: State)
    requires InvStore(L, s) && s.phase.Committing? && s.todo != []
    ensures InvStore(L, StepDiskWrite(L, s).state)
  {
    hide CommitState, Denotes, CommitWrite, CommitWrites, PutHead, GetHead, Effect, EffectAll, SameHome;
    var t := StepDiskWrite(L, s).state;
    var before := EffectAll(s.init, s.done);
    CommitWriteStore(L, s);
    CommitWriteDenotes(L, s);
    CommitWriteGroup(L, s);
    hide StepDiskWrite, DiskOk, Loggable;
    EffectAllSnoc(s.init, s.done, s.cur);
    EffectNothing(EffectAll(s.init, s.done + [s.cur]));
    SameHomeTrans(L, s.mem, s.snap, s.snap);
    SameHomeTrans(L, t.mem, s.snap, s.mem);
    SameHomeTrans(L, t.mem, s.mem, Effect(before, s.cur.writes));
  }

  lemma EffectNothing(d: Disk)
    ensures Effect(d, []) == d
  {
  }

  lemma CommitWriteKeeps(L: Layout, s: State)
    requires Inv(L, s) && s.phase.Committing? && s.todo != []
    ensures Inv(L, StepDiskWrite(L, s).state)
  {
    hide InvMeaning, InvHistory, MidCommit;
    var t := StepDiskWrite(L, s).state;
    CommitWriteMeaning(L, s);
    CommitWriteGroup(L, s);
    hide StepDiskWrite, InvPhase, InvShape;
    if t.done == s.done {
      HistoryFrame(s, t);
    } else {
      HistoryCommit(s);
      HistoryFrame(s.(done := s.done + [s.cur], cur := NoGroup), t);
    }
  }

  // ---------------------------------------------------------------- crash, recovery, end of a commit

  lemma CrashStore(L: Layout, s: State)
    requires InvShape(L, s) && InvMeaning(L, s)
    ensures InvStore(L, StepCrash(L, s))
  {
    hide Denotes, EffectAll, Effect;
    assert RecoveryState(L, s.disk, 0, s.disk);
    hide RecoveryState;
    var t := StepCrash(L, s);
    assert InvShape(L, t);
    assert MidRecovery(L, t);
  }

  lemma CrashKeeps(L: Layout, s: State)
    requires Inv(L, s)
    ensures Inv(L, StepCrash(L, s))
  {
    hide InvPhase, InvMeaning;
    CrashStore(L, s);
    CommittedFrame(s, StepCrash(L, s));
    hide InvShape, Committed, ByOp;
  }

  /** The next block write of a recovery. */
  lemma RecoveryNext(L: Layout, s: State)
    requires InvShape(L, s) && MidRecovery(L, s) && s.todo != []
    ensures var ws := RecoveryWrites(L, s.base);
      var k := |ws| - |s.todo|;
      && s.todo[0] == RecoveryWrite(L, s.base, k) && s.todo[1..] == ws[k + 1..]
      && (s.todo[0].at == L.start <==> |s.todo| == 1)
      && (s.todo[0].at == L.start ==> GetHead(s.todo[0].data) == [])
      && |s.todo[1..]| == |ws| - (k + 1)
  {
    hide RecoveryState;
  }

  lemma RecoveryWriteShape(L: Layout, s: State)
    requires InvShape(L, s) && s.phase.Recovering? && MidRecovery(L, s) && s.todo != []
    ensures StepDiskWrite(L, s).Next?
    ensures var t := StepDiskWrite(L, s).state;
      t == s.(disk := t.disk, mem := t.disk, todo := s.todo[1..]) && |t.disk| == |s.disk|
      && RecoveryState(L, s.base, |RecoveryWrites(L, s.base)| - |t.todo|, t.disk)
  {
    hide RecoveryState, RecoveryWrite, RecoveryWrites, PutHead, GetHead, DiskOk, Loggable;
    RecoveryNext(L, s);
    RecoveryStep(L, s.base, |RecoveryWrites(L, s.base)| - |s.todo|, s.disk);
  }

  lemma RecoveryWriteStore(L: Layout, s: State)
    requires InvStore(L, s) && s.phase.Recovering? && s.todo != []
    ensures var t := StepDiskWrite(L, s).state;
      t == s.(disk := t.disk, mem := t.mem, todo := s.todo[1..]) && InvStore(L, t)
  {
    hide Denotes, RecoveryState, RecoveryWrite, RecoveryWrites, PutHead, GetHead, EffectAll, Effect, CommitState,
      StepDiskWrite, DiskOk, Loggable, SameHome, Clean, MidCommit;
    RecoveryNext(L, s);
    RecoveryWriteShape(L, s);
    var t := StepDiskWrite(L, s).state;
    var k := |RecoveryWrites(L, s.base)| - |s.todo|;
    RecoveryStateDenotes(L, s.base, k + 1, t.disk, EffectAll(s.init, s.done));
    DiskHead(L, t.disk);
  }

  lemma DiskHead(L: Layout, d: Disk)
    requires DiskOk(L, d)
    ensures L.start < |d| && HeadOk(d[L.start])
  {
  }

  lemma RecoveryWriteKeeps(L: Layout, s: State)
    requires Inv(L, s) && s.phase.Recovering? && s.todo != []
    ensures Inv(L, StepDiskWrite(L, s).state)
  {
    hide InvHistory, InvPhase, InvMeaning;
    RecoveryWriteStore(L, s);
    hide StepDiskWrite, InvShape;
    HistoryFrame(s, StepDiskWrite(L, s).state);
  }

  lemma FinishKeeps(L: Layout, s: State)
    requires Inv(L, s) && StepFinish(s).Next?
    ensures Inv(L, StepFinish(s).state)
  {
    hide InvHistory;
    FinishStore(L, s);
    FinishHistory(s);
  }

  lemma FinishStore(L: Layout, s: State)
    requires InvStore(L, s) && InvOps(s) && StepFinish(s).Next?
    ensures InvStore(L, StepFinish(s).state)
  {
    hide EffectAll;
  }

  lemma FinishHistory(s: State)
    requires InvHistory(s) && StepFinish(s).Next?
    ensures InvHistory(StepFinish(s).state)
  {
    HistoryFrame(s, StepFinish(s).state);
  }

  // ---------------------------------------------------------------- every run

  lemma StepKeeps(L: Layout, s: State, ev: Event)
    requires Inv(L, s)
    ensures Step(L, s, ev).Next? ==> Inv(L, Step(L, s, ev).state)
  {
    hide InvPhase, InvMeaning, InvHistory, InvOps;
    if Step(L, s, ev).Next? {
      match ev
      case Begin(op) => BeginKeeps(L, s, op);
      case LogWrite(op, at, data) => LogWriteKeeps(L, s, op, at, data);
      case Append(op) => AppendKeeps(L, s, op);
      case End(op) => EndKeeps(L, s, op);
      case DiskWrite =>
        IdleHasNoWrites(L, s);
        if s.phase.Committing? { CommitWriteKeeps(L, s); } else { RecoveryWriteKeeps(L, s); }
      case Finish => FinishKeeps(L, s);
      case Crash => CrashKeeps(L, s);
    }
  }

  lemma IdleHasNoWrites(L: Layout, s: State)
    requires InvShape(L, s) && InvPhase(L, s) && s.todo != []
    ensures !s.phase.Running?
  {
  }

  /** No event rewrites history: the initial disk stays, committed groups stay committed. */
  lemma StepExtends(L: Layout, s: State, ev: Event)
    requires Inv(L, s) && Step(L, s, ev).Next?
    ensures Step(L, s, ev).state.init == s.init
    ensures s.done <= Step(L, s, ev).state.done
    ensures s.lost <= Step(L, s, ev).state.lost
    ensures !ev.Crash? ==> Step(L, s, ev).state.lost == s.lost
  {
    hide InvPhase, InvMeaning, InvHistory, InvOps;
  }

  /** A finite run: every event must be possible; Panic or Overrun if some event does that. */
  function Run(L: Layout, s: State, evs: seq<Event>): (r: Outcome)
    requires Inv(L, s)
    ensures r.Next? ==> Inv(L, r.state) && r.state.init == s.init && s.done <= r.state.done
    decreases |evs|
  {
    if evs == [] then Next(s) else
      StepKeeps(L, s, evs[0]);
      match Step(L, s, evs[0])
      case Next(t) => StepExtends(L, s, evs[0]); Run(L, t, evs[1..])
      case Waits => Waits
      case Panic => Panic
      case Overrun => Overrun
  }

  /**
    Group commit.  Whatever the interleaving and wherever it stops short of an overrun, one recovery turns the disk
    into the effect of the committed groups, in commit order; each of those groups holds all
    the log_writes its operations ever made, no operation is in two groups, and none of them
    is still running.  Outside a commit or recovery the on-disk header is empty; no operation
    is live while a commit runs; and once no operation is live, every operation that began and
    was not lost in a crash is committed.
   */
  lemma GroupCommit(L: Layout, d: Disk, evs: seq<Event>)
    requires Clean(L, d) && Inv(L, Start(d)) && Run(L, Start(d), evs).Next?
    ensures var s := Run(L, Start(d), evs).state;
      && DiskOk(L, s.disk)
      && SameHome(L, Recovered(L, s.disk), EffectAll(d, s.done))
      && (forall k :: 0 <= k < |s.done| ==> Whole(s, s.done[k]) && s.done[k].ops !! s.live)
      && (forall j, k :: 0 <= j < k < |s.done| ==> s.done[j].ops !! s.done[k].ops)
      && s.outstanding == |s.live|
      && (s.phase.Running? ==> GetHead(s.disk[L.start]) == [])
      && (!s.phase.Running? ==> s.live == {})
      && (s.phase.Running? && s.live == {} ==> forall op :: op in s.begun - s.lost ==> Committed(s, op))
  {
    var s := Run(L, Start(d), evs).state;
    assert Denotes(L, s.disk, EffectAll(d, s.done));
    RecoveredIs(L, s.disk, EffectAll(d, s.done));
    hide Denotes, Recovered, SameHome, EffectAll, Effect, Committed, ByOp;
  }
}
