/**
  When the log panics or overruns.

  begin_op reserves MAXOPBLOCKS blocks for every operation it admits, and log_write panics when
  the log is full; but it looks before it takes the lock, so that two calls may both find the
  last place free.  This module says for which operations, log sizes and cache sizes no run can
  reach a panic of log_write, end_op or of the copy to the log that a commit starts with, and for
  which ones no run can put a block behind the end of the log.
 */
module LogPanics {
  import opened Params
  import opened RedoLog
  import opened Sequences
  import opened LogProtocol
  import Ide
  import BufferCache

  /** What counts against an operation: each of its log_write calls, or each block it logs. */
  datatype Charge = PerCall | PerBlock

  function BlocksBy(ws: seq<OpWrite>, op: Op): set<nat> {
    set w | w in ws && w.op == op :: w.at
  }

  function Spent(c: Charge, ws: seq<OpWrite>, op: Op): nat {
    match c
    case PerCall => |ByOp(ws, op)|
    case PerBlock => |BlocksBy(ws, op)|
  }

  /** No operation spends more than m. */
  ghost predicate Within(c: Charge, m: nat, ws: seq<OpWrite>) {
    forall op :: Spent(c, ws, op) <= m
  }

  /** The log_writes of one event, and of a run. */
  function Asks(ev: Event): seq<OpWrite> {
    match ev
    case LogWrite(op, at, data) => [OpWrite(op, at, data)]
    case _ => []
  }

  function Asked(evs: seq<Event>): seq<OpWrite> {
    if evs == [] then [] else Asks(evs[0]) + Asked(evs[1..])
  }

  /** The most blocks that operations spending at most m <= MAXOPBLOCKS each can bring into one commit. */
  function Peak(m: nat): nat {
    MAXOPBLOCKS + 2 * m
  }

  /** A log_write needs room before it looks for the block, so a block logged again needs it too. */
  predicate Roomy(c: Charge, m: nat, L: Layout) {
    match c
    case PerCall => Peak(m) <= Full(L)
    case PerBlock => Peak(m) < Full(L)
  }

  // ---------------------------------------------------------------- spending

  lemma {:induction false} ByOpConcat(a: seq<OpWrite>, b: seq<OpWrite>, op: Op)
    ensures ByOp(a + b, op) == ByOp(a, op) + ByOp(b, op)
    decreases |b|
  {
    if b == [] {
      assert a + b == a;
    } else {
      hide ByOp;
      var front, w := b[..|b| - 1], b[|b| - 1];
      ByOpConcat(a, front, op);
      ByOpSnoc(a + front, w, op);
      ByOpSnoc(front, w, op);
      assert a + b == (a + front) + [w] && b == front + [w];
    }
  }

  lemma Fewer(a: set<nat>, b: set<nat>)
    requires a <= b
    ensures |a| <= |b|
  {
    assert |b| == |a| + |b - a| by { assert b == a + (b - a); }
  }

  lemma BlocksConcat(a: seq<OpWrite>, b: seq<OpWrite>, op: Op)
    ensures BlocksBy(a + b, op) == BlocksBy(a, op) + BlocksBy(b, op)
  {
  }

  lemma SpentParts(c: Charge, a: seq<OpWrite>, b: seq<OpWrite>, op: Op)
    ensures Spent(c, a, op) <= Spent(c, a + b, op) && Spent(c, b, op) <= Spent(c, a + b, op)
  {
    hide ByOp, BlocksBy;
    ByOpConcat(a, b, op);
    BlocksConcat(a, b, op);
    Fewer(BlocksBy(a, op), BlocksBy(a + b, op));
    Fewer(BlocksBy(b, op), BlocksBy(a + b, op));
  }

  lemma BlocksSnoc(ws: seq<OpWrite>, w: OpWrite, op: Op)
    ensures BlocksBy(ws + [w], op) == BlocksBy(ws, op) + if w.op == op then {w.at} else {}
  {
  }

  /** A log_write costs its operation one, or nothing for a block it has logged before. */
  lemma SpentSnoc(c: Charge, ws: seq<OpWrite>, w: OpWrite, op: Op)
    ensures w.op != op ==> Spent(c, ws + [w], op) == Spent(c, ws, op)
    ensures Spent(c, ws, w.op) <= Spent(c, ws + [w], w.op) <= Spent(c, ws, w.op) + 1
    ensures c.PerCall? || w.at !in BlocksBy(ws, w.op) ==> Spent(c, ws + [w], w.op) == Spent(c, ws, w.op) + 1
  {
    hide ByOp, BlocksBy;
    ByOpSnoc(ws, w, op);
    BlocksSnoc(ws, w, op);
    ByOpSnoc(ws, w, w.op);
    BlocksSnoc(ws, w, w.op);
    if w.at in BlocksBy(ws, w.op) {
      assert BlocksBy(ws + [w], w.op) == BlocksBy(ws, w.op);
    }
  }

  lemma SpentNothing(c: Charge, m: nat)
    ensures Within(c, m, [])
  {
  }

  lemma BlocksOfCalls(ws: seq<OpWrite>, op: Op)
    ensures |BlocksBy(ws, op)| <= |ByOp(ws, op)|
    decreases |ws|
  {
    if ws != [] {
      var front, w := ws[..|ws| - 1], ws[|ws| - 1];
      BlocksOfCalls(front, op);
      BlocksSnoc(front, w, op);
      assert ws == front + [w];
    }
  }

  // ---------------------------------------------------------------- the reservation

  /** The sum of a table. */
  ghost function Total(left: map<Op, nat>): nat
    decreases |left|
  {
    if left == map[] then 0 else
      var op :| op in left;
      left[op] + Total(left - {op})
  }

  lemma {:induction false} TotalWithout(left: map<Op, nat>, op: Op)
    requires op in left
    ensures Total(left) == left[op] + Total(left - {op})
    decreases |left|
  {
    var p :| p in left && Total(left) == left[p] + Total(left - {p});
    if p != op {
      TotalWithout(left - {p}, op);
      TotalWithout(left - {op}, p);
      assert left - {p} - {op} == left - {op} - {p};
    }
  }

  lemma TotalNone()
    ensures Total(map[]) == 0
  {
  }

  lemma TimesNext(n: int, m: nat)
    ensures (n + 1) * m == n * m + m
  {
  }

  lemma {:induction false} TotalBound(left: map<Op, nat>, m: nat)
    requires forall op :: op in left ==> left[op] <= m
    ensures Total(left) <= |left| * m
    decreases |left|
  {
    if left == map[] {
      TotalNone();
    } else {
      hide Total;
      var op :| op in left;
      TotalWithout(left, op);
      assert |left - {op}| == |left| - 1 by { assert (left - {op}).Keys == left.Keys - {op}; }
      TotalBound(left - {op}, m);
      TimesNext(|left| - 1, m);
    }
  }

  /** The log_writes made so far, and the call of op that waits for the lock. */
  function Calls(s: State, op: Op): seq<OpWrite> {
    s.cur.writes + if op in s.passed then [s.passed[op]] else []
  }

  /** op waits to append a block. */
  predicate Waiting(s: State, op: Op) {
    op in s.passed && s.passed[op].at !in s.lh
  }

  ghost predicate Frugal(c: Charge, m: nat, s: State) {
    forall op :: Spent(c, Calls(s, op), op) <= m
  }

  /** What each live operation may still bring into the log: what it may still spend, and what it waits to append. */
  ghost function Due(c: Charge, m: nat, s: State): map<Op, nat>
    requires Frugal(c, m, s)
  {
    map op | op in s.live :: m - Spent(c, Calls(s, op), op) + if Waiting(s, op) then 1 else 0
  }

  ghost predicate Logged(s: State) {
    forall i :: 0 <= i < |s.cur.writes| ==> s.cur.writes[i].at in s.lh
  }

  /** Logged blocks and what the live operations may still bring stay below the peak. */
  ghost predicate Reserved(c: Charge, m: nat, s: State) {
    && Frugal(c, m, s)
    && |s.lh| <= Peak(m)
    && (s.phase.Running? ==>
          (s.live == {} ==> s.lh == []) && Logged(s) && |s.lh| + Total(Due(c, m, s)) <= Peak(m))
  }

  lemma LoggedBlocks(s: State, op: Op, at: nat)
    requires Logged(s) && at !in s.lh
    ensures at !in BlocksBy(s.cur.writes, op)
  {
  }

  /** A call that waits to append a block has been charged for it. */
  lemma WaitingCharged(c: Charge, m: nat, s: State, op: Op)
    requires Logged(s) && Waiting(s, op) && s.passed[op].op == op
    ensures Spent(c, Calls(s, op), op) == Spent(c, s.cur.writes, op) + 1
  {
    hide Spent;
    LoggedBlocks(s, op, s.passed[op].at);
    SpentSnoc(c, s.cur.writes, s.passed[op], op);
  }

  ghost predicate OwnCalls(s: State) {
    forall op :: op in s.passed ==> s.passed[op].op == op
  }

  lemma DueBound(c: Charge, m: nat, s: State)
    requires Frugal(c, m, s) && Logged(s) && OwnCalls(s)
    ensures Total(Due(c, m, s)) <= |s.live| * m
  {
    hide Spent, Total, Frugal, Calls;
    var due := Due(c, m, s);
    forall op | op in due ensures due[op] <= m {
      if Waiting(s, op) { WaitingCharged(c, m, s, op); }
    }
    assert due.Keys == s.live;
    assert |due| == |due.Keys|;
    TotalBound(due, m);
  }

  lemma {:induction false} TotalLess(a: map<Op, nat>, b: map<Op, nat>)
    requires a.Keys == b.Keys && forall op :: op in a ==> a[op] <= b[op]
    ensures Total(a) <= Total(b)
    decreases |a|
  {
    if a == map[] {
      assert b == map[];
    } else {
      var op :| op in a;
      TotalWithout(a, op);
      TotalWithout(b, op);
      hide Total;
      assert (a - {op}).Keys == a.Keys - {op} == (b - {op}).Keys;
      TotalLess(a - {op}, b - {op});
    }
  }

  lemma TotalLessAt(a: map<Op, nat>, b: map<Op, nat>, k: Op)
    requires a.Keys == b.Keys && k in a && forall op :: op in a ==> a[op] <= b[op]
    ensures Total(a) - a[k] <= Total(b) - b[k]
  {
    TotalWithout(a, k);
    TotalWithout(b, k);
    hide Total;
    assert (a - {k}).Keys == a.Keys - {k} == (b - {k}).Keys;
    TotalLess(a - {k}, b - {k});
  }

  lemma BeginReserved(c: Charge, m: nat, s: State, op: Op)
    requires Reserved(c, m, s) && m <= MAXOPBLOCKS && s.outstanding == |s.live| && op !in s.live && OwnCalls(s)
    requires StepBegin(s, op).Next?
    ensures Reserved(c, m, StepBegin(s, op).state)
  {
    hide Spent, Total, Due, Calls;
    var t := StepBegin(s, op).state;
    forall p ensures Calls(t, p) == Calls(s, p) {
      CallsSame(s, t, p);
    }
    assert Frugal(c, m, t);
    assert |t.live| == |s.live| + 1;
    DueBound(c, m, t);
    if |s.live| == 0 {
      assert s.live == {};
    }
    assert |s.live| <= 2;
  }

  lemma CallsSame(s: State, t: State, op: Op)
    requires t.cur.writes == s.cur.writes && t.passed == s.passed
    ensures Calls(t, op) == Calls(s, op)
  {
  }

  /** A call costs its operation what it may bring into the log. */
  lemma LogWriteDue(c: Charge, m: nat, s: State, t: State, w: OpWrite)
    requires Frugal(c, m, s) && Frugal(c, m, t) && Logged(s) && w.op in s.live && w.op !in s.passed
    requires t == s.(passed := s.passed[w.op := w])
    ensures Total(Due(c, m, t)) <= Total(Due(c, m, s))
  {
    hide Spent, Total, Frugal;
    var was, now := Due(c, m, s), Due(c, m, t);
    assert Calls(s, w.op) == s.cur.writes && Calls(t, w.op) == s.cur.writes + [w];
    SpentSnoc(c, s.cur.writes, w, w.op);
    if w.at !in s.lh { LoggedBlocks(s, w.op, w.at); }
    hide BlocksBy;
    TotalLess(now, was);
  }

  lemma LogWriteReserved(c: Charge, m: nat, L: Layout, s: State, op: Op, at: nat, data: Block)
    requires Reserved(c, m, s) && s.phase.Running?
    requires StepLogWrite(L, s, op, at, data).Next? && Frugal(c, m, StepLogWrite(L, s, op, at, data).state)
    ensures Reserved(c, m, StepLogWrite(L, s, op, at, data).state)
  {
    hide Spent, Total, Frugal, Due, Calls;
    LogWriteDue(c, m, s, StepLogWrite(L, s, op, at, data).state, OpWrite(op, at, data));
  }

  lemma SpentInsert(c: Charge, a: seq<OpWrite>, w: seq<OpWrite>, b: seq<OpWrite>, op: Op)
    ensures Spent(c, a + b, op) <= Spent(c, a + w + b, op)
    ensures (forall i :: 0 <= i < |w| ==> w[i].op != op) ==> Spent(c, a + b, op) == Spent(c, a + w + b, op)
  {
    ByOpConcat(a, b, op);
    ByOpConcat(a, w, op);
    ByOpConcat(a + w, b, op);
    BlocksConcat(a, b, op);
    BlocksConcat(a, w, op);
    BlocksConcat(a + w, b, op);
    if forall i :: 0 <= i < |w| ==> w[i].op != op {
      ByOpNone(w, op);
      assert BlocksBy(w, op) == {};
      assert BlocksBy(a + w + b, op) == BlocksBy(a + b, op);
    }
    hide ByOp, BlocksBy;
    Fewer(BlocksBy(a + b, op), BlocksBy(a + w + b, op));
  }

  /** Appending a block changes no operation's account. */
  lemma AppendSpent(c: Charge, L: Layout, s: State, op: Op, p: Op, rest: seq<OpWrite>)
    requires |s.mem| == L.nblocks && CallsHome(L, s.passed) && OwnCalls(s) && StepAppend(L, s, op).Next?
    ensures Spent(c, Calls(StepAppend(L, s, op).state, p) + rest, p) == Spent(c, Calls(s, p) + rest, p)
  {
    hide Spent;
    var t, w := StepAppend(L, s, op).state, s.passed[op];
    if p == op {
      assert Calls(t, p) == Calls(s, p);
    } else {
      var own := if p in s.passed then [s.passed[p]] else [];
      assert Calls(t, p) + rest == s.cur.writes + [w] + (own + rest);
      assert Calls(s, p) + rest == s.cur.writes + (own + rest);
      SpentInsert(c, s.cur.writes, [w], own + rest, p);
    }
  }

  lemma AppendDue(c: Charge, m: nat, L: Layout, s: State, op: Op)
    requires |s.mem| == L.nblocks && CallsHome(L, s.passed) && OwnCalls(s) && StepAppend(L, s, op).Next?
    requires Frugal(c, m, s) && op in s.live
    ensures var t := StepAppend(L, s, op).state;
      Frugal(c, m, t) && Total(Due(c, m, t)) + (if Waiting(s, op) then 1 else 0) <= Total(Due(c, m, s))
  {
    hide Spent, Total, Calls;
    var t := StepAppend(L, s, op).state;
    forall p ensures Spent(c, Calls(t, p), p) == Spent(c, Calls(s, p), p) {
      AppendSpent(c, L, s, op, p, []);
      assert Calls(t, p) + [] == Calls(t, p) && Calls(s, p) + [] == Calls(s, p);
    }
    var was, now := Due(c, m, s), Due(c, m, t);
    assert forall p :: Waiting(t, p) ==> Waiting(s, p) && p != op;
    TotalLessAt(now, was, op);
  }

  lemma AppendReserved(c: Charge, m: nat, L: Layout, s: State, op: Op)
    requires |s.mem| == L.nblocks && CallsHome(L, s.passed) && OwnCalls(s) && StepAppend(L, s, op).Next?
    requires Reserved(c, m, s) && op in s.live && s.phase.Running?
    ensures Reserved(c, m, StepAppend(L, s, op).state)
  {
    hide Spent, Total, Due, Calls, Frugal;
    AppendDue(c, m, L, s, op);
  }

  lemma EndDue(c: Charge, m: nat, s: State, t: State, op: Op)
    requires Frugal(c, m, s) && op in s.live && t.live == s.live - {op} && t.cur.writes == s.cur.writes
    requires t.passed == s.passed && t.lh == s.lh
    ensures Frugal(c, m, t) && Total(Due(c, m, t)) <= Total(Due(c, m, s))
  {
    hide Spent, Total, Calls;
    forall p ensures Calls(t, p) == Calls(s, p) {
      CallsSame(s, t, p);
    }
    assert Due(c, m, t) == Due(c, m, s) - {op};
    TotalWithout(Due(c, m, s), op);
  }

  lemma NothingCalled(c: Charge, m: nat, s: State)
    requires s.cur == NoGroup && s.passed == map[]
    ensures Frugal(c, m, s)
  {
    forall op ensures Calls(s, op) == [] {
    }
    hide Calls;
    SpentNothing(c, m);
  }

  lemma EndReserved(c: Charge, m: nat, L: Layout, s: State, op: Op)
    requires InvShape(L, s) && InvOps(s) && Reserved(c, m, s) && StepEnd(L, s, op).Next?
    ensures Reserved(c, m, StepEnd(L, s, op).state)
  {
    hide DiskOk, Spent, Total, Frugal, Due, CommitWrites;
    var t := StepEnd(L, s, op).state;
    assert |s.live - {op}| == |s.live| - 1;
    if t.cur == s.cur {
      EndDue(c, m, s, s.(live := s.live - {op}), op);
      FrugalSame(c, m, s, t);
      DueSame(c, m, s.(live := s.live - {op}), t);
    } else {
      NoCalls(s, op);
      NothingCalled(c, m, t);
    }
  }

  lemma FrugalSame(c: Charge, m: nat, s: State, t: State)
    requires Frugal(c, m, s) && t.cur.writes == s.cur.writes && t.passed == s.passed
    ensures Frugal(c, m, t)
  {
    hide Spent, Calls;
    forall p ensures Calls(t, p) == Calls(s, p) {
      CallsSame(s, t, p);
    }
  }

  lemma DueSame(c: Charge, m: nat, s: State, t: State)
    requires Frugal(c, m, s) && Frugal(c, m, t) && t.cur.writes == s.cur.writes && t.passed == s.passed
    requires t.lh == s.lh && t.live == s.live
    ensures Due(c, m, t) == Due(c, m, s)
  {
    hide Spent, Calls;
    forall p ensures Calls(t, p) == Calls(s, p) {
      CallsSame(s, t, p);
    }
  }

  /** When the last operation ends no call is under way. */
  lemma NoCalls(s: State, op: Op)
    requires InvOps(s) && op in s.live && op !in s.passed && |s.live - {op}| == 0
    ensures s.passed == map[]
  {
    assert s.live - {op} == {};
    assert forall p :: p in s.passed ==> p in s.live - {op};
  }

  lemma IdleReserved(c: Charge, m: nat, s: State)
    requires s.live == {} && s.lh == [] && s.cur == NoGroup && s.passed == map[]
    ensures Reserved(c, m, s)
  {
    hide Spent, Calls;
    NothingCalled(c, m, s);
    assert Due(c, m, s) == map[];
  }

  lemma QuietReserved(c: Charge, m: nat, s: State, t: State)
    requires Reserved(c, m, s) && !t.phase.Running? && t.passed == s.passed == map[] && |t.lh| <= |s.lh|
    requires t.cur == s.cur || t.cur == NoGroup
    ensures Reserved(c, m, t)
  {
    hide Spent, Calls, Due;
    if t.cur == s.cur {
      FrugalSame(c, m, s, t);
    } else {
      NothingCalled(c, m, t);
    }
  }

  lemma StepReserved(c: Charge, m: nat, L: Layout, s: State, ev: Event)
    requires Inv(L, s) && Reserved(c, m, s) && m <= MAXOPBLOCKS
    requires Step(L, s, ev).Next? && Frugal(c, m, Step(L, s, ev).state)
    ensures Reserved(c, m, Step(L, s, ev).state)
  {
    hide InvPhase, InvMeaning, InvHistory, Spent, Total, Frugal, Due, Reserved;
    var t := Step(L, s, ev).state;
    assert OwnCalls(s);
    assert !s.phase.Running? ==> s.passed == map[];
    match ev
    case Begin(op) =>
      BeginFresh(s, op);
      BeginReserved(c, m, s, op);
    case LogWrite(op, at, data) => LogWriteReserved(c, m, L, s, op, at, data);
    case Append(op) => AppendReserved(c, m, L, s, op);
    case End(op) => EndReserved(c, m, L, s, op);
    case DiskWrite =>
      IdleHasNoWrites(L, s);
      QuietReserved(c, m, s, t);
    case Finish => IdleReserved(c, m, t);
    case Crash => CrashReserved(c, m, L, s);
  }

  lemma CrashReserved(c: Charge, m: nat, L: Layout, s: State)
    requires DiskOk(L, s.disk)
    ensures Reserved(c, m, StepCrash(L, s))
  {
    hide Spent, Calls, Due;
    NothingCalled(c, m, StepCrash(L, s));
  }

  /** A call that waits to append a block finds its place. */
  lemma StepCannotOverrun(c: Charge, m: nat, L: Layout, s: State, ev: Event)
    requires Inv(L, s) && Reserved(c, m, s) && Peak(m) <= Full(L)
    ensures !Step(L, s, ev).Overrun?
  {
    hide InvPhase, InvMeaning, InvHistory, Total, Spent, Frugal, Calls;
    if ev.Append? && Waiting(s, ev.op) {
      TotalWithout(Due(c, m, s), ev.op);
      assert Spent(c, Calls(s, ev.op), ev.op) <= m by { FrugalAt(c, m, s, ev.op); }
    }
  }

  lemma FrugalAt(c: Charge, m: nat, s: State, op: Op)
    requires Frugal(c, m, s)
    ensures Spent(c, Calls(s, op), op) <= m
  {
  }

  /** What a state has logged and what the rest of the run asks for. */
  ghost predicate WithinFrom(c: Charge, m: nat, s: State, evs: seq<Event>) {
    forall op :: Spent(c, Calls(s, op) + Asked(evs), op) <= m
  }

  lemma StepCannotPanic(c: Charge, m: nat, L: Layout, s: State, ev: Event)
    requires Inv(L, s) && Reserved(c, m, s) && Roomy(c, m, L)
    requires forall op :: Spent(c, Calls(s, op) + Asks(ev), op) <= m
    ensures !Step(L, s, ev).Panic?
  {
    hide InvPhase, InvMeaning, InvHistory, Total, ByOp, BlocksBy;
    if ev.LogWrite? && ev.op in s.live && ev.op !in s.passed {
      var w := OpWrite(ev.op, ev.at, ev.data);
      TotalWithout(Due(c, m, s), ev.op);
      assert Calls(s, ev.op) == s.cur.writes;
      SpentSnoc(c, s.cur.writes, w, ev.op);
      assert Spent(c, s.cur.writes + [w], ev.op) <= m;
      assert |s.live| > 0;
    }
  }

  lemma StepCalls(L: Layout, s: State, ev: Event, op: Op)
    requires Inv(L, s) && Step(L, s, ev).Next? && !ev.LogWrite? && !ev.Append?
    ensures Calls(Step(L, s, ev).state, op) in {Calls(s, op), []}
  {
    hide InvPhase, InvMeaning, InvHistory, CommitWrites;
    var t := Step(L, s, ev).state;
    if ev.End? && t.cur != s.cur {
      assert |s.live - {ev.op}| == |s.live| - 1;
      NoCalls(s, ev.op);
      assert Calls(t, op) == [];
    } else if ev.DiskWrite? {
      IdleHasNoWrites(L, s);
      assert s.passed == t.passed == map[];
      assert Calls(t, op) == t.cur.writes && Calls(s, op) == s.cur.writes;
    } else if ev.Crash? {
      assert Calls(t, op) == [];
    } else {
      CallsSame(s, t, op);
    }
  }

  /** One event later no account with what the rest asks for has grown. */
  lemma StepSpent(c: Charge, L: Layout, s: State, ev: Event, op: Op, rest: seq<OpWrite>)
    requires Inv(L, s) && Step(L, s, ev).Next?
    ensures Spent(c, Calls(Step(L, s, ev).state, op) + rest, op) <= Spent(c, Calls(s, op) + Asks(ev) + rest, op)
  {
    hide InvPhase, InvMeaning, InvHistory, Spent, CommitWrites;
    var t := Step(L, s, ev).state;
    assert OwnCalls(s);
    match ev
    case LogWrite(p, at, data) =>
      if p == op {
        assert Calls(t, op) + rest == Calls(s, op) + Asks(ev) + rest;
      } else {
        assert Calls(t, op) == Calls(s, op);
        SpentInsert(c, Calls(s, op), Asks(ev), rest, op);
      }
    case Append(p) =>
      AppendSpent(c, L, s, p, op, rest);
      assert Calls(s, op) + Asks(ev) + rest == Calls(s, op) + rest;
    case _ =>
      assert Calls(s, op) + Asks(ev) + rest == Calls(s, op) + rest;
      StepCalls(L, s, ev, op);
      SpentParts(c, Calls(s, op), rest, op);
      assert [] + rest == rest;
  }

  lemma WithinNext(c: Charge, m: nat, L: Layout, s: State, evs: seq<Event>)
    requires Inv(L, s) && evs != [] && WithinFrom(c, m, s, evs)
    ensures forall op :: Spent(c, Calls(s, op) + Asks(evs[0]), op) <= m
    ensures Step(L, s, evs[0]).Next? ==>
      WithinFrom(c, m, Step(L, s, evs[0]).state, evs[1..]) && Frugal(c, m, Step(L, s, evs[0]).state)
  {
    hide Inv, Step, Asks, Spent, Calls;
    var now, rest := Asks(evs[0]), Asked(evs[1..]);
    forall op ensures Spent(c, Calls(s, op) + now + rest, op) <= m {
      assert Calls(s, op) + Asked(evs) == Calls(s, op) + now + rest;
    }
    forall op ensures Spent(c, Calls(s, op) + now, op) <= m {
      SpentParts(c, Calls(s, op) + now, rest, op);
    }
    if Step(L, s, evs[0]).Next? {
      var t := Step(L, s, evs[0]).state;
      forall op ensures Spent(c, Calls(t, op) + rest, op) <= m && Spent(c, Calls(t, op), op) <= m {
        StepSpent(c, L, s, evs[0], op, rest);
        SpentParts(c, Calls(t, op), rest, op);
      }
    }
  }

  /** With room for the peak no run overruns the log, and no commit starts with more blocks than the peak. */
  lemma {:induction false} NeverOverruns(c: Charge, m: nat, L: Layout, s: State, evs: seq<Event>)
    requires Inv(L, s) && Reserved(c, m, s) && Peak(m) <= Full(L) && m <= MAXOPBLOCKS && WithinFrom(c, m, s, evs)
    ensures !Run(L, s, evs).Overrun?
    ensures Run(L, s, evs).Next? ==> |Run(L, s, evs).state.lh| <= Peak(m)
    decreases |evs|
  {
    hide Inv, WithinFrom, Frugal;
    if evs != [] {
      StepKeeps(L, s, evs[0]);
      WithinNext(c, m, L, s, evs);
      StepCannotOverrun(c, m, L, s, evs[0]);
      if Step(L, s, evs[0]).Next? {
        StepReserved(c, m, L, s, evs[0]);
        hide Reserved, Step, Asked;
        NeverOverruns(c, m, L, Step(L, s, evs[0]).state, evs[1..]);
      }
    }
  }

  /** With one place more for blocks that are logged again, no run panics either. */
  lemma {:induction false} NeverPanics(c: Charge, m: nat, L: Layout, s: State, evs: seq<Event>)
    requires Inv(L, s) && Reserved(c, m, s) && Roomy(c, m, L) && WithinFrom(c, m, s, evs)
    ensures !Run(L, s, evs).Panic?
    decreases |evs|
  {
    hide Inv, WithinFrom, Frugal;
    if evs != [] {
      StepKeeps(L, s, evs[0]);
      WithinNext(c, m, L, s, evs);
      StepCannotPanic(c, m, L, s, evs[0]);
      if Step(L, s, evs[0]).Next? {
        StepReserved(c, m, L, s, evs[0]);
        hide Reserved, Step, Asked;
        NeverPanics(c, m, L, Step(L, s, evs[0]).state, evs[1..]);
      }
    }
  }

  // ---------------------------------------------------------------- runs that reach the peak

  /** The i-th block outside the log. */
  function HomeBlock(L: Layout, i: nat): (b: nat)
    requires i + L.size < L.nblocks
    ensures L.Home(b)
  {
    if i < L.start then i else i + L.size
  }

  /**
    Who logs the i-th block: operations 1 to k, one block each, while operation 0 keeps the
    group open; then operation 0, up to m blocks; then operation k + 1.
   */
  function Author(m: nat, k: nat, i: nat): Op {
    if i < k then i + 1 else if i < k + m then 0 else k + 1
  }

  function FillWrite(L: Layout, m: nat, k: nat, i: nat): OpWrite
    requires i + L.size < L.nblocks
  {
    OpWrite(Author(m, k, i), HomeBlock(L, i), Block([]))
  }

  /** A log_write with nothing between its tests and the lock. */
  function Call(w: OpWrite): seq<Event> {
    [LogWrite(w.op, w.at, w.data), Append(w.op)]
  }

  function FillWrites(L: Layout, m: nat, k: nat, n: nat): seq<OpWrite>
    requires n + L.size <= L.nblocks
  {
    if n == 0 then [] else FillWrites(L, m, k, n - 1) + [FillWrite(L, m, k, n - 1)]
  }

  /** Operation n begins, logs its block and ends. */
  function LeadEvents(L: Layout, m: nat, k: nat, n: nat): seq<Event>
    requires 0 < n <= k && k + L.size <= L.nblocks
  {
    [Begin(n)] + Call(FillWrite(L, m, k, n - 1)) + [End(n)]
  }

  /** Operation 0 begins; operations 1 to n log a block each and end. */
  function Lead(L: Layout, m: nat, k: nat, n: nat): seq<Event>
    requires n <= k && k + L.size <= L.nblocks
  {
    if n == 0 then [Begin(0)] else Lead(L, m, k, n - 1) + LeadEvents(L, m, k, n)
  }

  /** After that, operation k + 1 begins, and it and operation 0 log n - k blocks. */
  function Fill(L: Layout, m: nat, k: nat, n: nat): seq<Event>
    requires k <= n && n + L.size <= L.nblocks
  {
    if n == k then Lead(L, m, k, k) + [Begin(k + 1)]
    else Fill(L, m, k, n - 1) + Call(FillWrite(L, m, k, n - 1))
  }

  ghost predicate Filled(L: Layout, s: State, n: nat, live: set<Op>, next: nat) {
    && n + L.size <= L.nblocks
    && s.phase.Running? && s.live == live && s.passed == map[] && s.outstanding == |live| && s.nextOp == next
    && |s.mem| == L.nblocks && |s.lh| == n && forall i :: 0 <= i < n ==> s.lh[i] == HomeBlock(L, i)
  }

  /** A commit of n blocks is about to copy the first of them to the log. */
  predicate CommitStarts(s: State, n: nat) {
    s.phase.Committing? && |s.lh| == n && |s.todo| == 2 * n + 2
  }

  lemma {:induction false} RunConcat(L: Layout, s: State, a: seq<Event>, b: seq<Event>)
    requires Inv(L, s) && Run(L, s, a).Next?
    ensures Run(L, s, a + b) == Run(L, Run(L, s, a).state, b)
    decreases |a|
  {
    hide Inv;
    if a == [] {
      assert a + b == b;
    } else {
      StepKeeps(L, s, a[0]);
      assert (a + b)[0] == a[0] && (a + b)[1..] == a[1..] + b;
      hide Step;
      RunConcat(L, Step(L, s, a[0]).state, a[1..], b);
    }
  }

  lemma {:induction false} AskedConcat(a: seq<Event>, b: seq<Event>)
    ensures Asked(a + b) == Asked(a) + Asked(b)
    decreases |a|
  {
    if a == [] {
      assert a + b == b;
    } else {
      assert (a + b)[0] == a[0] && (a + b)[1..] == a[1..] + b;
      AskedConcat(a[1..], b);
    }
  }

  lemma RunOne(L: Layout, s: State, ev: Event)
    requires Inv(L, s)
    ensures Run(L, s, [ev]) == Step(L, s, ev)
  {
    hide Inv, Step;
    StepKeeps(L, s, ev);
    assert [ev][1..] == [];
  }

  /** One more event at the end of a run. */
  lemma RunSnoc(L: Layout, s: State, evs: seq<Event>, ev: Event)
    requires Inv(L, s) && Run(L, s, evs).Next?
    ensures Run(L, s, evs + [ev]) == Step(L, Run(L, s, evs).state, ev)
  {
    hide Inv, Step, Run;
    RunInv(L, s, evs);
    RunConcat(L, s, evs, [ev]);
    RunOne(L, Run(L, s, evs).state, ev);
  }

  lemma RunInv(L: Layout, s: State, evs: seq<Event>)
    requires Inv(L, s) && Run(L, s, evs).Next?
    ensures Inv(L, Run(L, s, evs).state)
  {
    hide Inv;
  }

  lemma AskedSnoc(evs: seq<Event>, ev: Event)
    ensures Asked(evs + [ev]) == Asked(evs) + Asks(ev)
  {
    AskedConcat(evs, [ev]);
    assert Asked([ev]) == Asks(ev) + Asked([ev][1..]);
  }

  /** The two events of a log_write, when there is room. */
  lemma FillStep(L: Layout, s: State, n: nat, live: set<Op>, next: nat, op: Op)
    requires Inv(L, s) && Filled(L, s, n, live, next) && op in live && n < Full(L) && n + L.size < L.nblocks
    ensures var r := Run(L, s, Call(OpWrite(op, HomeBlock(L, n), Block([]))));
      r.Next? && Filled(L, r.state, n + 1, live, next)
  {
    hide Inv, InvShape;
    var w := OpWrite(op, HomeBlock(L, n), Block([]));
    var a, b := LogWrite(w.op, w.at, w.data), Append(op);
    assert w.at !in s.lh && |live| > 0;
    var t := Step(L, s, a).state;
    StepKeeps(L, s, a);
    assert t.passed - {op} == map[];
    hide Filled, Step;
    RunTwo(L, s, a, b);
  }

  lemma RunTwo(L: Layout, s: State, a: Event, b: Event)
    requires Inv(L, s) && Step(L, s, a).Next? && Inv(L, Step(L, s, a).state)
    ensures Run(L, s, [a, b]) == Step(L, Step(L, s, a).state, b)
  {
    hide Inv, Step, Run;
    RunOne(L, s, a);
    RunOne(L, Step(L, s, a).state, b);
    RunConcat(L, s, [a], [b]);
    assert [a] + [b] == [a, b];
  }

  lemma BeginStep(L: Layout, s: State, n: nat, live: set<Op>, next: nat)
    requires Filled(L, s, n, live, next) && next !in live && n + (|live| + 1) * MAXOPBLOCKS <= LOGSIZE
    ensures StepBegin(s, next).Next? && Filled(L, StepBegin(s, next).state, n, live + {next}, next + 1)
  {
    assert |live + {next}| == |live| + 1;
  }

  lemma EndStep(L: Layout, s: State, n: nat, live: set<Op>, next: nat, op: Op)
    requires InvShape(L, s) && Filled(L, s, n, live, next) && op in live
    ensures StepEnd(L, s, op).Next?
    ensures |live| > 1 ==> Filled(L, StepEnd(L, s, op).state, n, live - {op}, next)
    ensures |live| == 1 && n > 0 ==> CommitStarts(StepEnd(L, s, op).state, n)
    ensures StepEnd(L, s, op).state.lh == s.lh
  {
    hide CommitWrites, DiskOk;
    assert |live - {op}| == |live| - 1;
  }

  /** Operation n begins, logs its block and ends while operation 0 is live. */
  lemma LeadRound(L: Layout, s: State, m: nat, k: nat, n: nat)
    requires 0 < n <= k <= MAXOPBLOCKS && k <= Full(L) && k + L.size <= L.nblocks
    requires Inv(L, s) && Filled(L, s, n - 1, {0}, n)
    ensures var r := Run(L, s, LeadEvents(L, m, k, n));
      r.Next? && Filled(L, r.state, n, {0}, n + 1)
  {
    hide Inv, InvShape, Filled, Run, StepBegin, StepEnd, HomeBlock, Full;
    var call := Call(FillWrite(L, m, k, n - 1));
    BeginStep(L, s, n - 1, {0}, n);
    RunOne(L, s, Begin(n));
    var t := Run(L, s, [Begin(n)]).state;
    RunInv(L, s, [Begin(n)]);
    FillStep(L, t, n - 1, {0} + {n}, n + 1, n);
    RunConcat(L, s, [Begin(n)], call);
    var u := Run(L, s, [Begin(n)] + call).state;
    RunInv(L, s, [Begin(n)] + call);
    InvHasShape(L, u);
    EndStep(L, u, n, {0} + {n}, n + 1, n);
    assert {0} + {n} - {n} == {0};
    RunSnoc(L, s, [Begin(n)] + call, End(n));
  }

  lemma {:induction false} LeadRun(L: Layout, d: Disk, m: nat, k: nat, n: nat)
    requires Inv(L, Start(d)) && n <= k <= MAXOPBLOCKS && k <= Full(L) && k + L.size <= L.nblocks
    ensures var r := Run(L, Start(d), Lead(L, m, k, n)); r.Next? && Filled(L, r.state, n, {0}, n + 1)
    decreases n
  {
    var s0 := Start(d);
    if n == 0 {
      LeadBegins(L, d);
    } else {
      hide Inv, Run, Filled, Start, LeadEvents;
      LeadRun(L, d, m, k, n - 1);
      var before := Lead(L, m, k, n - 1);
      RunInv(L, s0, before);
      LeadRound(L, Run(L, s0, before).state, m, k, n);
      RunConcat(L, s0, before, LeadEvents(L, m, k, n));
    }
  }

  lemma InvHasShape(L: Layout, s: State)
    requires Inv(L, s)
    ensures InvShape(L, s)
  {
  }

  lemma LeadBegins(L: Layout, d: Disk)
    requires Inv(L, Start(d))
    ensures var r := Run(L, Start(d), [Begin(0)]); r.Next? && Filled(L, r.state, 0, {0}, 1)
  {
    RunOne(L, Start(d), Begin(0));
    hide Run;
    assert |{0}| == 1;
  }

  lemma {:induction false} FillRun(L: Layout, d: Disk, m: nat, k: nat, n: nat)
    requires Inv(L, Start(d)) && k <= MAXOPBLOCKS && k <= n <= Full(L) && n + L.size <= L.nblocks
    ensures var r := Run(L, Start(d), Fill(L, m, k, n)); r.Next? && Filled(L, r.state, n, {0, k + 1}, k + 2)
    decreases n
  {
    hide Inv, InvShape, Run, Filled, Start, StepBegin, Full, HomeBlock;
    var s0 := Start(d);
    if n == k {
      LeadRun(L, d, m, k, k);
      var s := Run(L, s0, Lead(L, m, k, k)).state;
      BeginStep(L, s, k, {0}, k + 1);
      RunSnoc(L, s0, Lead(L, m, k, k), Begin(k + 1));
      assert {0} + {k + 1} == {0, k + 1};
    } else {
      FillRun(L, d, m, k, n - 1);
      var s := Run(L, s0, Fill(L, m, k, n - 1)).state;
      RunInv(L, s0, Fill(L, m, k, n - 1));
      FillStep(L, s, n - 1, {0, k + 1}, k + 2, Author(m, k, n - 1));
      RunConcat(L, s0, Fill(L, m, k, n - 1), Call(FillWrite(L, m, k, n - 1)));
    }
  }

  lemma AskedCall(w: OpWrite)
    ensures Asked(Call(w)) == [w]
  {
    assert Asked([]) == [];
    hide Asked;
    AskedSnoc([], LogWrite(w.op, w.at, w.data));
    AskedSnoc([LogWrite(w.op, w.at, w.data)], Append(w.op));
    assert [] + [LogWrite(w.op, w.at, w.data)] == [LogWrite(w.op, w.at, w.data)];
    assert [LogWrite(w.op, w.at, w.data)] + [Append(w.op)] == Call(w);
  }

  lemma AskedRound(L: Layout, m: nat, k: nat, n: nat)
    requires 0 < n <= k && k + L.size <= L.nblocks
    ensures Asked(LeadEvents(L, m, k, n)) == [FillWrite(L, m, k, n - 1)]
  {
    var call := Call(FillWrite(L, m, k, n - 1));
    AskedCall(FillWrite(L, m, k, n - 1));
    AskedConcat([Begin(n)], call);
    assert Asked([Begin(n)]) == Asks(Begin(n)) + Asked([Begin(n)][1..]) == [];
    hide Asked, Call, FillWrite;
    AskedSnoc([Begin(n)] + call, End(n));
  }

  lemma {:induction false} LeadAsked(L: Layout, m: nat, k: nat, n: nat)
    requires n <= k && k + L.size <= L.nblocks
    ensures Asked(Lead(L, m, k, n)) == FillWrites(L, m, k, n)
    decreases n
  {
    if n == 0 {
      AskedSnoc([], Begin(0));
      assert [] + [Begin(0)] == [Begin(0)];
    } else {
      hide Asked, FillWrite, LeadEvents;
      LeadAsked(L, m, k, n - 1);
      AskedRound(L, m, k, n);
      AskedConcat(Lead(L, m, k, n - 1), LeadEvents(L, m, k, n));
    }
  }

  lemma {:induction false} FillAsked(L: Layout, m: nat, k: nat, n: nat)
    requires k <= n && n + L.size <= L.nblocks
    ensures Asked(Fill(L, m, k, n)) == FillWrites(L, m, k, n)
    decreases n
  {
    hide Asked, FillWrite, Call;
    if n == k {
      LeadAsked(L, m, k, k);
      AskedSnoc(Lead(L, m, k, k), Begin(k + 1));
    } else {
      FillAsked(L, m, k, n - 1);
      AskedCall(FillWrite(L, m, k, n - 1));
      AskedConcat(Fill(L, m, k, n - 1), Call(FillWrite(L, m, k, n - 1)));
    }
  }

  /** How many of the first n blocks an operation logs. */
  function Share(m: nat, k: nat, n: nat, op: Op): nat {
    if op == 0 then (if n <= k then 0 else if n <= k + m then n - k else m)
    else if op == k + 1 then (if n <= k + m then 0 else n - k - m)
    else if op <= k && op <= n then 1 else 0
  }

  lemma ShareNext(m: nat, k: nat, n: nat, op: Op)
    ensures Share(m, k, n + 1, op) == Share(m, k, n, op) + if Author(m, k, n) == op then 1 else 0
  {
  }

  lemma FillWritesNext(L: Layout, m: nat, k: nat, n: nat)
    requires n + 1 + L.size <= L.nblocks
    ensures FillWrites(L, m, k, n + 1) ==
      FillWrites(L, m, k, n) + [OpWrite(Author(m, k, n), HomeBlock(L, n), Block([]))]
  {
  }

  lemma FillNothing(L: Layout, m: nat, k: nat, op: Op)
    requires L.size <= L.nblocks
    ensures Spent(PerCall, FillWrites(L, m, k, 0), op) == 0 == Share(m, k, 0, op)
  {
  }

  lemma {:induction false} FillSpent(L: Layout, m: nat, k: nat, n: nat, op: Op)
    requires n + L.size <= L.nblocks
    ensures Spent(PerCall, FillWrites(L, m, k, n), op) == Share(m, k, n, op)
    decreases n
  {
    hide Spent, BlocksBy, HomeBlock, Share, Author, FillWrites;
    if n == 0 {
      FillNothing(L, m, k, op);
    } else {
      var w := OpWrite(Author(m, k, n - 1), HomeBlock(L, n - 1), Block([]));
      FillSpent(L, m, k, n - 1, op);
      ShareNext(m, k, n - 1, op);
      FillWritesNext(L, m, k, n - 1);
      SpentSnoc(PerCall, FillWrites(L, m, k, n - 1), w, op);
    }
  }

  lemma FillWithin(L: Layout, m: nat, k: nat, n: nat)
    requires n + L.size <= L.nblocks && m > 0 && n <= k + 2 * m
    ensures Within(PerCall, m, FillWrites(L, m, k, n)) && Within(PerBlock, m, FillWrites(L, m, k, n))
  {
    hide ByOp, BlocksBy, FillWrites;
    var ws := FillWrites(L, m, k, n);
    forall op ensures Spent(PerBlock, ws, op) <= Spent(PerCall, ws, op) <= m {
      FillSpent(L, m, k, n, op);
      BlocksOfCalls(ws, op);
    }
  }

  // ---------------------------------------------------------------- the copy to the log

  /**
    Between the block copies of a commit the dirty buffers are those of the logged blocks.  Other
    processes may hold buffers, of blocks outside the log: reading a file needs no operation.
   */
  ghost predicate CacheAtCommit(L: Layout, buf: seq<Ide.Buf>, dev: int, lh: seq<nat>) {
    && |buf| == NBUF && BufferCache.Unique(buf)
    && (forall i :: 0 <= i < |buf| && buf[i].dirty ==> buf[i].dev != -1)
    && (forall i :: 0 <= i < |buf| && buf[i].busy && buf[i].dev == dev ==> !InLog(L, buf[i].blockno))
    && forall k :: BufferCache.Pinned(buf, k) <==> k.0 == dev && k.1 in lh
  }

  predicate InLog(L: Layout, b: int) {
    L.start <= b < L.start + L.size
  }

  lemma {:induction false} KeysOf(dev: int, lh: seq<nat>) returns (keys: set<Ide.Key>)
    requires Distinct(lh)
    ensures |keys| == |lh| && forall k :: k in keys <==> k.0 == dev && k.1 in lh
    decreases |lh|
  {
    if lh == [] {
      keys := {};
    } else {
      var front := lh[..|lh| - 1];
      var rest := KeysOf(dev, front);
      keys := rest + {(dev, lh[|lh| - 1])};
      assert lh == front + [lh[|lh| - 1]];
    }
  }

  /** Reading a log block in write_log() finds no buffer exactly if logged blocks and held buffers are NBUF. */
  lemma CopyPanicsIff(L: Layout, s: State, n: nat, t: nat, buf: seq<Ide.Buf>, dev: int)
    requires InvShape(L, s) && CommitStarts(s, n) && t < n && CacheAtCommit(L, buf, dev, s.lh)
    ensures BufferCache.NoneFor(buf, (dev, L.Slot(t))) <==> n + BufferCache.HeldCount(buf, NBUF) >= NBUF
  {
    assert Distinct(s.lh) && n < L.size && L.Slot(t) !in s.lh;
    hide InvShape, BufferCache.NoneFor, BufferCache.Unique, BufferCache.HeldCount;
    var slot := (dev, L.Slot(t));
    var keys := KeysOf(dev, s.lh);
    forall i | 0 <= i < |buf| && !BufferCache.Idle(buf[i]) ensures buf[i].Key() != slot {
      if buf[i].dirty {
        assert BufferCache.Holds(buf, i, buf[i].Key());
      }
    }
    hide BufferCache.Pinned;
    BufferCache.NoBuffersIff(buf, keys, slot);
  }

  // ---------------------------------------------------------------- the exact condition

  /**
    A run in which log.c panics or overruns the log, or in which a commit starts that finds none of `nbuf` buffers
    left beside its own blocks and the `held` buffers of other processes.
   */
  ghost predicate Fails(L: Layout, d: Disk, nbuf: nat, held: nat, evs: seq<Event>)
    requires Inv(L, Start(d))
  {
    var r := Run(L, Start(d), evs);
    r.Panic? || r.Overrun? || (r.Next? && exists n: nat :: n + held >= nbuf && CommitStarts(r.state, n))
  }

  /** The log is full: the next log_write panics, whether or not its block is logged already. */
  lemma FullPanics(L: Layout, s: State, n: nat, live: set<Op>, next: nat, op: Op, at: nat)
    requires Filled(L, s, n, live, next) && n >= Full(L) && op in live && L.Home(at)
    ensures StepLogWrite(L, s, op, at, Block([])).Panic?
  {
  }

  /** The log_write that comes too late. */
  function LastEvent(c: Charge, L: Layout, m: nat, k: nat, n: nat): (ev: Event)
    requires L.size < L.nblocks && n + L.size <= L.nblocks
    ensures ev.LogWrite? && L.Home(ev.at) && ev.data == Block([]) && (k <= n ==> ev.op in {0, k + 1})
  {
    if c == PerBlock && n == k + 2 * m && n > 0 then LogWrite(k + 1, HomeBlock(L, n - 1), Block([]))
    else LogWrite(Author(m, k, n), HomeBlock(L, 0), Block([]))
  }

  /** That log_write stays within what its operation may spend. */
  lemma LastWithin(c: Charge, L: Layout, m: nat, k: nat, n: nat)
    requires L.size < L.nblocks && n + L.size <= L.nblocks && m > 0 && k <= n <= k + 2 * m
    requires c == PerCall ==> n < k + 2 * m
    ensures Within(c, m, FillWrites(L, m, k, n) + Asks(LastEvent(c, L, m, k, n)))
  {
    hide ByOp, BlocksBy, FillWrites, HomeBlock;
    var ws := FillWrites(L, m, k, n);
    var w := Asks(LastEvent(c, L, m, k, n))[0];
    FillWithin(L, m, k, n);
    forall op ensures Spent(c, ws + [w], op) <= m {
      SpentSnoc(c, ws, w, op);
      if op == w.op {
        FillSpent(L, m, k, n, op);
        BlocksOfCalls(ws, op);
        if n == k + 2 * m {
          LastAgain(L, m, k, n);
        }
      }
    }
  }

  /** The block that operation k + 1 logged last is one of its blocks. */
  lemma LastAgain(L: Layout, m: nat, k: nat, n: nat)
    requires n + L.size <= L.nblocks && m > 0 && n == k + 2 * m
    ensures var ws, w := FillWrites(L, m, k, n), OpWrite(k + 1, HomeBlock(L, n - 1), Block([]));
      Spent(PerBlock, ws + [w], k + 1) == Spent(PerBlock, ws, k + 1)
  {
    var ws, w := FillWrites(L, m, k, n), OpWrite(k + 1, HomeBlock(L, n - 1), Block([]));
    assert ws[|ws| - 1] == w;
    assert w in ws;
    hide FillWrites, HomeBlock;
    assert BlocksBy(ws + [w], k + 1) == BlocksBy(ws, k + 1);
  }

  /** Without room for the peak some run fills the log and logs once more. */
  lemma CrampedPanics(c: Charge, m: nat, L: Layout, d: Disk) returns (evs: seq<Event>)
    requires Inv(L, Start(d)) && L.Valid() && L.nblocks >= L.size + LOGSIZE && m > 0 && !Roomy(c, m, L)
    ensures Within(c, m, Asked(evs)) && Run(L, Start(d), evs).Panic?
  {
    var n: nat := Full(L);
    var k: nat := if n < MAXOPBLOCKS then n else MAXOPBLOCKS;
    hide Inv, Run, Start, Filled, StepLogWrite, FillWrites, Within;
    FillRun(L, d, m, k, n);
    FillAsked(L, m, k, n);
    var ev := LastEvent(c, L, m, k, n);
    FullPanics(L, Run(L, Start(d), Fill(L, m, k, n)).state, n, {0, k + 1}, k + 2, ev.op, ev.at);
    LastWithin(c, L, m, k, n);
    evs := Fill(L, m, k, n) + [ev];
    RunSnoc(L, Start(d), Fill(L, m, k, n), ev);
    AskedSnoc(Fill(L, m, k, n), ev);
  }

  /** The blocks outside the log, in order. */
  ghost predicate FirstBlocks(L: Layout, lh: seq<nat>) {
    |lh| + L.size <= L.nblocks && forall i :: 0 <= i < |lh| ==> lh[i] == HomeBlock(L, i)
  }

  lemma FilledFirst(L: Layout, s: State, n: nat, live: set<Op>, next: nat)
    requires Filled(L, s, n, live, next)
    ensures FirstBlocks(L, s.lh)
  {
  }

  /** With room for it some run commits as many blocks as the peak. */
  lemma PeakReached(c: Charge, m: nat, L: Layout, d: Disk) returns (evs: seq<Event>)
    requires Inv(L, Start(d)) && L.nblocks >= L.size + LOGSIZE && m > 0 && Roomy(c, m, L)
    ensures Within(c, m, Asked(evs))
    ensures Run(L, Start(d), evs).Next? && CommitStarts(Run(L, Start(d), evs).state, Peak(m))
    ensures FirstBlocks(L, Run(L, Start(d), evs).state.lh)
  {
    hide Inv, InvShape, Run, Start, Filled, StepEnd, FillWrites, Within, Asked, FirstBlocks;
    var k, n := MAXOPBLOCKS, Peak(m);
    var fill := Fill(L, m, k, n);
    FillRun(L, d, m, k, n);
    FillAsked(L, m, k, n);
    FillWithin(L, m, k, n);
    assert c == PerCall || c == PerBlock;
    var s := Run(L, Start(d), fill).state;
    RunInv(L, Start(d), fill);
    InvHasShape(L, s);
    assert |{0, k + 1}| == 2;
    EndStep(L, s, n, {0, k + 1}, k + 2, 0);
    RunSnoc(L, Start(d), fill, End(0));
    AskedSnoc(fill, End(0));
    RunInv(L, Start(d), fill + [End(0)]);
    assert {0, k + 1} - {0} == {k + 1};
    var t := Run(L, Start(d), fill + [End(0)]).state;
    InvHasShape(L, t);
    EndStep(L, t, n, {k + 1}, k + 2, k + 1);
    FilledFirst(L, t, n, {k + 1}, k + 2);
    evs := fill + [End(0)] + [End(k + 1)];
    RunSnoc(L, Start(d), fill + [End(0)], End(k + 1));
    AskedSnoc(fill + [End(0)], End(k + 1));
    assert Asked(evs) == FillWrites(L, m, k, n);
  }

  lemma StartWithin(c: Charge, m: nat, d: Disk, evs: seq<Event>)
    requires Within(c, m, Asked(evs))
    ensures WithinFrom(c, m, Start(d), evs)
  {
    hide Spent, Asked;
    forall op ensures Calls(Start(d), op) + Asked(evs) == Asked(evs) {
    }
  }

  lemma RoomyIsSafe(c: Charge, m: nat, nbuf: nat, held: nat, L: Layout, d: Disk, evs: seq<Event>)
    requires Inv(L, Start(d)) && Roomy(c, m, L) && Peak(m) + held < nbuf && Within(c, m, Asked(evs))
    ensures !Fails(L, d, nbuf, held, evs)
  {
    hide Inv, Run, Within, Asked;
    IdleReserved(c, m, Start(d));
    StartWithin(c, m, d, evs);
    NeverPanics(c, m, L, Start(d), evs);
    NeverOverruns(c, m, L, Start(d), evs);
  }

  /**
    Let every operation spend at most m, and let other processes hold `held` buffers when a commit
    starts.  No run panics in log.c or overruns the log, and none starts a commit that finds all of `nbuf` buffers
    pinned or held, exactly if the log takes MAXOPBLOCKS + 2m blocks, one more when blocks may be
    logged again, and `nbuf` is larger than those blocks and the held buffers together.
   */
  lemma PanicFreeIff(c: Charge, m: nat, nbuf: nat, held: nat, L: Layout, d: Disk)
    requires Clean(L, d) && L.nblocks >= L.size + LOGSIZE && m > 0
    ensures Inv(L, Start(d))
    ensures (forall evs :: Within(c, m, Asked(evs)) ==> !Fails(L, d, nbuf, held, evs)) <==>
            Roomy(c, m, L) && Peak(m) + held < nbuf
  {
    hide Inv, Start, Fails, Within, Asked;
    InvStart(L, d);
    if Roomy(c, m, L) && Peak(m) + held < nbuf {
      forall evs | Within(c, m, Asked(evs)) ensures !Fails(L, d, nbuf, held, evs) {
        RoomyIsSafe(c, m, nbuf, held, L, d, evs);
      }
    } else {
      var evs := SomeRunFails(c, m, nbuf, held, L, d);
      assert Within(c, m, Asked(evs)) && Fails(L, d, nbuf, held, evs);
    }
  }

  lemma SomeRunFails(c: Charge, m: nat, nbuf: nat, held: nat, L: Layout, d: Disk) returns (evs: seq<Event>)
    requires Inv(L, Start(d)) && L.Valid() && L.nblocks >= L.size + LOGSIZE && m > 0
    requires !(Roomy(c, m, L) && Peak(m) + held < nbuf)
    ensures Within(c, m, Asked(evs)) && Fails(L, d, nbuf, held, evs)
  {
    hide Inv, Start, Run, Within, Asked, CommitStarts, FirstBlocks;
    if Roomy(c, m, L) {
      evs := PeakReached(c, m, L, d);
    } else {
      evs := CrampedPanics(c, m, L, d);
    }
  }

  /**
    As mkfs and param.h have it, the log area and the cache hold LOGSIZE blocks each.  Then
    operations are safe exactly if twice the blocks they log and the buffers that others hold stay
    below 2 * MAXOPBLOCKS; operations that use up what begin_op reserves for them never are.
   */
  lemma AsBuilt(c: Charge, m: nat, held: nat, L: Layout, d: Disk)
    requires Clean(L, d) && L.size == LOGSIZE && L.nblocks >= 2 * LOGSIZE && m > 0
    ensures Inv(L, Start(d))
    ensures (forall evs :: Within(c, m, Asked(evs)) ==> !Fails(L, d, NBUF, held, evs)) <==>
            2 * m + held < 2 * MAXOPBLOCKS
  {
    hide Inv, Start, Fails, Within, Asked;
    PanicFreeIff(c, m, NBUF, held, L, d);
  }

  // ---------------------------------------------------------------- two calls for the last place

  /** Operations a and b pass the tests of log_write and then append, in this order. */
  function Race(a: OpWrite, b: OpWrite): seq<Event> {
    [LogWrite(a.op, a.at, a.data), LogWrite(b.op, b.at, b.data)] + [Append(a.op), Append(b.op)]
  }

  /** With one place left, two calls that both find it free overrun the log. */
  lemma RaceOverruns(L: Layout, s: State, n: nat, live: set<Op>, next: nat, a: Op, b: Op)
    requires Inv(L, s) && Filled(L, s, n, live, next) && a in live && b in live && a != b
    requires n + 1 == Full(L) && n + 1 + L.size < L.nblocks
    ensures Run(L, s, Race(OpWrite(a, HomeBlock(L, n), Block([])), OpWrite(b, HomeBlock(L, n + 1), Block([])))).Overrun?
  {
    hide Inv, InvShape;
    var v, w := OpWrite(a, HomeBlock(L, n), Block([])), OpWrite(b, HomeBlock(L, n + 1), Block([]));
    assert v.at !in s.lh && w.at !in s.lh && v.at != w.at && |live| > 0;
    var e1, e2 := LogWrite(a, v.at, v.data), LogWrite(b, w.at, w.data);
    var t1 := Step(L, s, e1).state;
    StepKeeps(L, s, e1);
    var t2 := Step(L, t1, e2).state;
    StepKeeps(L, t1, e2);
    var t3 := Step(L, t2, Append(a)).state;
    StepKeeps(L, t2, Append(a));
    assert t3.lh == s.lh + [v.at] && b in t3.passed && Step(L, t3, Append(b)).Overrun?;
    hide Filled, Step, HomeBlock;
    RunTwo(L, s, e1, e2);
    RunTwo(L, t2, Append(a), Append(b));
    RunConcat(L, s, [e1, e2], [Append(a), Append(b)]);
  }

  lemma AskedRace(a: OpWrite, b: OpWrite)
    ensures Asked(Race(a, b)) == [a, b]
  {
    var e1, e2, e3, e4 := LogWrite(a.op, a.at, a.data), LogWrite(b.op, b.at, b.data), Append(a.op), Append(b.op);
    assert Asked([]) == [];
    hide Asked;
    AskedSnoc([], e1);
    AskedSnoc([e1], e2);
    AskedSnoc([e1, e2], e3);
    AskedSnoc([e1, e2, e3], e4);
    assert [] + [e1] == [e1] && [e1] + [e2] == [e1, e2] && [e1, e2] + [e3] == [e1, e2, e3];
    assert [e1, e2, e3] + [e4] == Race(a, b);
  }

  /** The two calls stay within what their operations may spend. */
  lemma RaceWithin(c: Charge, L: Layout, m: nat, k: nat, n: nat, a: OpWrite, b: OpWrite)
    requires n + L.size <= L.nblocks && m > 0 && k <= n <= k + 2 * (m - 1) && a.op == 0 && b.op == k + 1
    ensures Within(c, m, FillWrites(L, m - 1, k, n) + [a, b])
  {
    hide ByOp, BlocksBy, FillWrites, HomeBlock;
    var ws := FillWrites(L, m - 1, k, n);
    assert ws + [a, b] == (ws + [a]) + [b];
    forall op ensures Spent(c, ws + [a, b], op) <= m {
      FillSpent(L, m - 1, k, n, op);
      BlocksOfCalls(ws, op);
      SpentSnoc(c, ws, a, op);
      SpentSnoc(c, ws + [a], b, op);
    }
  }

  /** Without room for the peak some run puts a block behind the end of the log. */
  lemma OverrunReached(c: Charge, m: nat, L: Layout, d: Disk) returns (evs: seq<Event>)
    requires Inv(L, Start(d)) && L.nblocks > L.size + LOGSIZE && L.size >= 2 && m > 0 && Peak(m) > Full(L)
    ensures Within(c, m, Asked(evs)) && Run(L, Start(d), evs).Overrun?
  {
    var n: nat := Full(L) - 1;
    var k: nat := if n < MAXOPBLOCKS then n else MAXOPBLOCKS;
    evs := OverrunRun(c, m, L, d, k, n);
  }

  lemma OverrunRun(c: Charge, m: nat, L: Layout, d: Disk, k: nat, n: nat) returns (evs: seq<Event>)
    requires Inv(L, Start(d)) && k <= n && k <= MAXOPBLOCKS && n + 1 == Full(L) && n + 1 + L.size < L.nblocks
    requires m > 0 && n <= k + 2 * (m - 1)
    ensures Within(c, m, Asked(evs)) && Run(L, Start(d), evs).Overrun?
  {
    hide Inv, Run, Start, Filled, Fill, FillWrites, Within, Asked, Race, HomeBlock, Full;
    var fill := Fill(L, m - 1, k, n);
    FillRun(L, d, m - 1, k, n);
    FillAsked(L, m - 1, k, n);
    var a, b := OpWrite(0, HomeBlock(L, n), Block([])), OpWrite(k + 1, HomeBlock(L, n + 1), Block([]));
    RunInv(L, Start(d), fill);
    RaceOverruns(L, Run(L, Start(d), fill).state, n, {0, k + 1}, k + 2, 0, k + 1);
    evs := fill + Race(a, b);
    RunConcat(L, Start(d), fill, Race(a, b));
    AskedConcat(fill, Race(a, b));
    AskedRace(a, b);
    RaceWithin(c, L, m, k, n, a, b);
  }

  /** A log of the header alone takes no call at all. */
  lemma {:induction false} TinyLog(L: Layout, s: State, evs: seq<Event>)
    requires Inv(L, s) && L.size == 1 && s.passed == map[]
    ensures !Run(L, s, evs).Overrun?
    decreases |evs|
  {
    hide Inv, InvShape;
    if evs != [] && Step(L, s, evs[0]).Next? {
      StepKeeps(L, s, evs[0]);
      TinyLog(L, Step(L, s, evs[0]).state, evs[1..]);
    }
  }

  /**
    Let every operation spend at most m.  No run overruns the log exactly if it takes as many
    blocks as they can bring into one commit, or none.
   */
  lemma OverrunFreeIff(c: Charge, m: nat, L: Layout, d: Disk)
    requires Clean(L, d) && L.nblocks > L.size + LOGSIZE && m > 0
    ensures Inv(L, Start(d))
    ensures (forall evs :: Within(c, m, Asked(evs)) ==> !Run(L, Start(d), evs).Overrun?) <==>
            L.size == 1 || Peak(m) <= Full(L)
  {
    hide Inv, Within, Asked, Run, Reserved;
    InvStart(L, d);
    if L.size == 1 {
      forall evs ensures !Run(L, Start(d), evs).Overrun? {
        TinyLog(L, Start(d), evs);
      }
    } else if Peak(m) <= Full(L) {
      forall evs | Within(c, m, Asked(evs)) ensures !Run(L, Start(d), evs).Overrun? {
        IdleReserved(c, m, Start(d));
        StartWithin(c, m, d, evs);
        NeverOverruns(c, m, L, Start(d), evs);
      }
    } else {
      var evs := OverrunReached(c, m, L, d);
      assert Within(c, m, Asked(evs)) && Run(L, Start(d), evs).Overrun?;
    }
  }

  /** As mkfs makes the log, operations that use up what begin_op reserves for them can overrun it. */
  lemma AsBuiltOverrun(c: Charge, m: nat, L: Layout, d: Disk)
    requires Clean(L, d) && L.size == LOGSIZE && L.nblocks > 2 * LOGSIZE && m > 0
    ensures Inv(L, Start(d))
    ensures (forall evs :: Within(c, m, Asked(evs)) ==> !Run(L, Start(d), evs).Overrun?) <==> m < MAXOPBLOCKS
  {
    hide Inv, Start, Within, Asked, Run;
    OverrunFreeIff(c, m, L, d);
  }

  /** The copy of that block would go to the first block behind the log, as mkfs lays the disk out an inode block. */
  lemma OverrunHits(L: Layout)
    requires L.Valid() && L.size <= LOGSIZE && L.start + L.size < L.nblocks
    ensures L.Slot(Full(L)) == L.start + L.size && L.Home(L.Slot(Full(L)))
  {
  }

  // ---- two readers and operations of nine blocks

  /** The buffers of a commit of n blocks, and two that readers of other blocks wait for. */
  function Crowded(L: Layout, n: nat): (buf: seq<Ide.Buf>)
    requires n + 2 == NBUF && L.nblocks >= L.size + NBUF
    ensures |buf| == NBUF
  {
    seq(NBUF, i requires 0 <= i < NBUF => Ide.Buf(1, HomeBlock(L, i), i >= n, i < n, i < n, []))
  }

  lemma HomeDiffer(L: Layout, i: nat, j: nat)
    requires i < j && j + L.size < L.nblocks
    ensures HomeBlock(L, i) < HomeBlock(L, j)
  {
  }

  lemma {:induction false} CrowdedHeld(L: Layout, n: nat, k: nat)
    requires n + 2 == NBUF && L.nblocks >= L.size + NBUF && k <= NBUF
    ensures BufferCache.HeldCount(Crowded(L, n), k) == if k <= n then 0 else k - n
    decreases k
  {
    if k > 0 {
      CrowdedHeld(L, n, k - 1);
      hide HomeBlock;
    }
  }

  lemma CrowdedCache(L: Layout, n: nat, lh: seq<nat>)
    requires n + 2 == NBUF && L.nblocks >= L.size + NBUF && |lh| == n && FirstBlocks(L, lh)
    ensures CacheAtCommit(L, Crowded(L, n), 1, lh)
  {
    var buf := Crowded(L, n);
    forall i, j | 0 <= i < j < |buf| ensures buf[i].Key() != buf[j].Key() {
      HomeDiffer(L, i, j);
    }
    forall k ensures BufferCache.Pinned(buf, k) <==> k.0 == 1 && k.1 in lh {
      if k.0 == 1 && k.1 in lh {
        var i :| 0 <= i < |lh| && lh[i] == k.1;
        assert BufferCache.Holds(buf, i, k);
      }
      if BufferCache.Pinned(buf, k) {
        var i :| BufferCache.Holds(buf, i, k) && buf[i].dirty;
        assert lh[i] == k.1;
      }
    }
  }

  /**
    As built, operations that log nine blocks each bring 28 blocks into a commit; with two
    processes reading files, its first read of a log block finds no buffer.
   */
  lemma ReadersStopCommit(L: Layout, d: Disk) returns (evs: seq<Event>, buf: seq<Ide.Buf>)
    requires Clean(L, d) && L.size == LOGSIZE && L.nblocks >= 2 * LOGSIZE
    ensures Inv(L, Start(d)) && Within(PerBlock, 9, Asked(evs)) && Run(L, Start(d), evs).Next?
    ensures CommitStarts(Run(L, Start(d), evs).state, 28) && CacheAtCommit(L, buf, 1, Run(L, Start(d), evs).state.lh)
    ensures BufferCache.HeldCount(buf, NBUF) == 2 && BufferCache.NoneFor(buf, (1, L.Slot(0)))
  {
    hide Inv, Start, Run, Within, Asked, FirstBlocks, CacheAtCommit, Crowded;
    hide BufferCache.NoneFor, BufferCache.HeldCount;
    InvStart(L, d);
    evs := PeakReached(PerBlock, 9, L, d);
    var s := Run(L, Start(d), evs).state;
    buf := Crowded(L, 28);
    CrowdedCache(L, 28, s.lh);
    CrowdedHeld(L, 28, NBUF);
    RunInv(L, Start(d), evs);
    InvHasShape(L, s);
    CopyPanicsIff(L, s, 28, 0, buf, 1);
  }
}
