/**
  Shell command lines as token sequences: the grammar, a parser that follows sh.c on tokens, and
  the proof that this parser accepts exactly the grammar.
 */
module ShellGrammar {
  const MAXARGS: int := 10
  const O_RDONLY: int := 0
  const O_WRONLY_CREATE: int := 0x201

  type Word = (int, int) // start and end in the line

  datatype Redirect = Redirect(file: Word, mode: int, fd: int)

  datatype Cmd =
    | Exec(args: seq<Word>)
    | Redir(cmd: Cmd, redirect: Redirect)
    | Pipe(left: Cmd, right: Cmd)
    | List(left: Cmd, right: Cmd)
    | Back(cmd: Cmd)

  /** c with the redirections around it, the first one innermost. */
  function Wrap(c: Cmd, rs: seq<Redirect>): Cmd
    decreases |rs|
  {
    if rs == [] then c else Redir(Wrap(c, rs[..|rs| - 1]), rs[|rs| - 1])
  }

  /** '+' stands for ">>", which opens like '>'. */
  function RedirectFor(t: char, w: Word): Redirect {
    if t == '<' then Redirect(w, O_RDONLY, 0) else Redirect(w, O_WRONLY_CREATE, 1)
  }

  datatype Tok = Text(w: Word) | Sym(c: char)

  predicate IsSign(t: Tok) {
    t == Sym('<') || t == Sym('>') || t == Sym('+')
  }

  /** A token that ends a simple command. */
  predicate IsStop(t: Tok) {
    t == Sym('|') || t == Sym(')') || t == Sym('&') || t == Sym(';')
  }

  predicate Starts(ts: seq<Tok>, c: char) {
    ts != [] && ts[0] == Sym(c)
  }

  // ---------------------------------------------------------------- the parser

  datatype Parsed<T> = Parsed(value: T, rest: seq<Tok>) | Fail

  /** parseredirs(). */
  function PRedirs(ts: seq<Tok>): (r: Parsed<seq<Redirect>>)
    ensures r.Parsed? ==> |r.rest| <= |ts|
    decreases |ts|
  {
    if ts == [] || !IsSign(ts[0]) then Parsed([], ts)
    else if |ts| < 2 || !ts[1].Text? then Fail
    else Prepend([RedirectFor(ts[0].c, ts[1].w)], PRedirs(ts[2..]))
  }

  function Prepend(rs: seq<Redirect>, r: Parsed<seq<Redirect>>): Parsed<seq<Redirect>> {
    if r == Fail then Fail else Parsed(rs + r.value, r.rest)
  }

  /** The loop of parseexec(), with the arguments and redirections so far. */
  function PArgs(ts: seq<Tok>, args: seq<Word>, rs: seq<Redirect>): (r: Parsed<Cmd>)
    ensures r.Parsed? ==> |r.rest| <= |ts|
    decreases |ts|
  {
    if ts == [] || IsStop(ts[0]) then Parsed(Wrap(Exec(args), rs), ts)
    else if !ts[0].Text? || |args| + 1 >= MAXARGS then Fail
    else
      var more := PRedirs(ts[1..]);
      if more == Fail then Fail else PArgs(more.rest, args + [ts[0].w], rs + more.value)
  }

  function PExec(ts: seq<Tok>): (r: Parsed<Cmd>)
    ensures r.Parsed? ==> |r.rest| <= |ts|
    decreases |ts|, 1
  {
    if Starts(ts, '(') then PBlock(ts)
    else
      var rs := PRedirs(ts);
      if rs == Fail then Fail else PArgs(rs.rest, [], rs.value)
  }

  function PBlock(ts: seq<Tok>): (r: Parsed<Cmd>)
    ensures r.Parsed? ==> |r.rest| <= |ts|
    decreases |ts|, 0
  {
    if !Starts(ts, '(') then Fail
    else
      var body := PLine(ts[1..]);
      if body == Fail || !Starts(body.rest, ')') then Fail
      else
        var rs := PRedirs(body.rest[1..]);
        if rs == Fail then Fail else Parsed(Wrap(body.value, rs.value), rs.rest)
  }

  function PPipe(ts: seq<Tok>): (r: Parsed<Cmd>)
    ensures r.Parsed? ==> |r.rest| <= |ts|
    decreases |ts|, 2
  {
    var left := PExec(ts);
    if left == Fail || !Starts(left.rest, '|') then left
    else
      var right := PPipe(left.rest[1..]);
      if right == Fail then Fail else Parsed(Pipe(left.value, right.value), right.rest)
  }

  function PAmps(ts: seq<Tok>, c: Cmd): (r: Parsed<Cmd>)
    ensures r.Parsed? && |r.rest| <= |ts|
    decreases |ts|
  {
    if Starts(ts, '&') then PAmps(ts[1..], Back(c)) else Parsed(c, ts)
  }

  function PLine(ts: seq<Tok>): (r: Parsed<Cmd>)
    ensures r.Parsed? ==> |r.rest| <= |ts|
    decreases |ts|, 3
  {
    var pipe := PPipe(ts);
    if pipe == Fail then Fail
    else
      var left := PAmps(pipe.rest, pipe.value);
      if !Starts(left.rest, ';') then left
      else
        var right := PLine(left.rest[1..]);
        if right == Fail then Fail else Parsed(List(left.value, right.value), right.rest)
  }

  // ---------------------------------------------------------------- the grammar

  /** A redirection: its sign and its file. */
  datatype Rd = Rd(sign: char, file: Word)

  /** An argument with the redirections behind it. */
  datatype Arg = Arg(w: Word, rs: seq<Rd>)

  datatype Simple =
    | Plain(rs: seq<Rd>, args: seq<Arg>)
    | Block(body: Line, after: seq<Rd>)

  datatype Pipeline = Single(first: Simple) | Bar(first: Simple, rest: Pipeline)

  datatype Line = Last(pipe: Pipeline, amps: nat) | Semi(pipe: Pipeline, amps: nat, rest: Line)

  predicate RdOk(r: Rd) {
    r.sign == '<' || r.sign == '>' || r.sign == '+'
  }

  predicate SimpleOk(s: Simple)
    decreases s
  {
    match s
    case Plain(rs, args) =>
      |args| < MAXARGS && (forall i :: 0 <= i < |rs| ==> RdOk(rs[i]))
      && forall i :: 0 <= i < |args| ==> forall j :: 0 <= j < |args[i].rs| ==> RdOk(args[i].rs[j])
    case Block(body, after) => LineOk(body) && forall i :: 0 <= i < |after| ==> RdOk(after[i])
  }

  predicate PipeOk(p: Pipeline)
    decreases p
  {
    match p
    case Single(first) => SimpleOk(first)
    case Bar(first, rest) => SimpleOk(first) && PipeOk(rest)
  }

  predicate LineOk(l: Line)
    decreases l
  {
    match l
    case Last(pipe, amps) => PipeOk(pipe)
    case Semi(pipe, amps, rest) => PipeOk(pipe) && LineOk(rest)
  }

  // ---- the tokens of a derivation

  function RdsToks(rs: seq<Rd>): seq<Tok> {
    if rs == [] then [] else [Sym(rs[0].sign), Text(rs[0].file)] + RdsToks(rs[1..])
  }

  function ArgsToks(args: seq<Arg>): seq<Tok> {
    if args == [] then [] else [Text(args[0].w)] + RdsToks(args[0].rs) + ArgsToks(args[1..])
  }

  function Amps(n: nat): seq<Tok> {
    if n == 0 then [] else [Sym('&')] + Amps(n - 1)
  }

  function SimpleToks(s: Simple): seq<Tok>
    decreases s
  {
    match s
    case Plain(rs, args) => RdsToks(rs) + ArgsToks(args)
    case Block(body, after) => [Sym('(')] + LineToks(body) + [Sym(')')] + RdsToks(after)
  }

  function PipeToks(p: Pipeline): seq<Tok>
    decreases p
  {
    match p
    case Single(first) => SimpleToks(first)
    case Bar(first, rest) => SimpleToks(first) + [Sym('|')] + PipeToks(rest)
  }

  function LineToks(l: Line): seq<Tok>
    decreases l
  {
    match l
    case Last(pipe, amps) => PipeToks(pipe) + Amps(amps)
    case Semi(pipe, amps, rest) => PipeToks(pipe) + Amps(amps) + [Sym(';')] + LineToks(rest)
  }

  // ---- the command of a derivation

  function RdsOf(rs: seq<Rd>): seq<Redirect> {
    if rs == [] then [] else [RedirectFor(rs[0].sign, rs[0].file)] + RdsOf(rs[1..])
  }

  function WordsOf(args: seq<Arg>): seq<Word> {
    if args == [] then [] else [args[0].w] + WordsOf(args[1..])
  }

  function ArgRds(args: seq<Arg>): seq<Redirect> {
    if args == [] then [] else RdsOf(args[0].rs) + ArgRds(args[1..])
  }

  function Backs(c: Cmd, n: nat): Cmd
    decreases n
  {
    if n == 0 then c else Backs(Back(c), n - 1)
  }

  function SimpleCmd(s: Simple): Cmd
    decreases s
  {
    match s
    case Plain(rs, args) => Wrap(Exec(WordsOf(args)), RdsOf(rs) + ArgRds(args))
    case Block(body, after) => Wrap(LineCmd(body), RdsOf(after))
  }

  function PipeCmd(p: Pipeline): Cmd
    decreases p
  {
    match p
    case Single(first) => SimpleCmd(first)
    case Bar(first, rest) => Pipe(SimpleCmd(first), PipeCmd(rest))
  }

  function LineCmd(l: Line): Cmd
    decreases l
  {
    match l
    case Last(pipe, amps) => Backs(PipeCmd(pipe), amps)
    case Semi(pipe, amps, rest) => List(Backs(PipeCmd(pipe), amps), LineCmd(rest))
  }

  // ---------------------------------------------------------------- every derivation is parsed back

  lemma {:induction false} RdsParsed(rs: seq<Rd>, tail: seq<Tok>)
    requires (forall i :: 0 <= i < |rs| ==> RdOk(rs[i])) && (tail == [] || !IsSign(tail[0]))
    ensures PRedirs(RdsToks(rs) + tail) == Parsed(RdsOf(rs), tail)
    decreases |rs|
  {
    var ts := RdsToks(rs) + tail;
    if rs == [] {
      assert ts == tail;
    } else {
      assert ts[0] == Sym(rs[0].sign) && ts[1] == Text(rs[0].file) && ts[2..] == RdsToks(rs[1..]) + tail;
      RdsParsed(rs[1..], tail);
    }
  }

  /** Behind an argument stands a stop, the end, or the next argument, never a sign. */
  lemma ArgsStart(args: seq<Arg>, tail: seq<Tok>)
    requires tail == [] || IsStop(tail[0])
    ensures var ts := ArgsToks(args) + tail; ts == [] || !IsSign(ts[0])
  {
    if args == [] { assert ArgsToks(args) + tail == tail; }
  }

  lemma {:induction false} ArgsParsed(args: seq<Arg>, done: seq<Word>, rs: seq<Redirect>, tail: seq<Tok>)
    requires |done| + |args| < MAXARGS
    requires forall i :: 0 <= i < |args| ==> forall j :: 0 <= j < |args[i].rs| ==> RdOk(args[i].rs[j])
    requires tail == [] || IsStop(tail[0])
    ensures PArgs(ArgsToks(args) + tail, done, rs) == Parsed(Wrap(Exec(done + WordsOf(args)), rs + ArgRds(args)), tail)
    decreases |args|
  {
    hide PArgs, PRedirs, Wrap, ArgsToks, RdsToks, WordsOf, ArgRds, RdsOf;
    if args == [] {
      NoArgsParsed(done, rs, tail);
    } else {
      var a, more := args[0], args[1..];
      var behind := ArgsToks(more) + tail;
      ArgFirst(args, tail);
      ArgsStart(more, tail);
      assert forall j :: 0 <= j < |a.rs| ==> RdOk(a.rs[j]);
      RdsParsed(a.rs, behind);
      PArgsStep(ArgsToks(args) + tail, a.w, a.rs, behind, done, rs);
      ArgsParsed(more, done + [a.w], rs + RdsOf(a.rs), tail);
      ArgParts(args, done, rs);
    }
  }

  lemma NoArgsParsed(done: seq<Word>, rs: seq<Redirect>, tail: seq<Tok>)
    requires tail == [] || IsStop(tail[0])
    ensures PArgs(ArgsToks([]) + tail, done, rs) == Parsed(Wrap(Exec(done + WordsOf([])), rs + ArgRds([])), tail)
  {
    assert ArgsToks([]) + tail == tail && done + WordsOf([]) == done && rs + ArgRds([]) == rs;
  }

  lemma ArgParts(args: seq<Arg>, done: seq<Word>, rs: seq<Redirect>)
    requires args != []
    ensures done + [args[0].w] + WordsOf(args[1..]) == done + WordsOf(args)
    ensures rs + RdsOf(args[0].rs) + ArgRds(args[1..]) == rs + ArgRds(args)
  {
    hide RdsOf;
    assert WordsOf(args) == [args[0].w] + WordsOf(args[1..]);
    assert ArgRds(args) == RdsOf(args[0].rs) + ArgRds(args[1..]);
    hide WordsOf, ArgRds;
    Assoc(done, [args[0].w], WordsOf(args[1..]));
    Assoc(rs, RdsOf(args[0].rs), ArgRds(args[1..]));
  }

  lemma Assoc<T>(a: seq<T>, b: seq<T>, c: seq<T>)
    ensures a + b + c == a + (b + c)
  {
  }

  lemma ArgFirst(args: seq<Arg>, tail: seq<Tok>)
    requires args != []
    ensures var ts := ArgsToks(args) + tail;
      ts != [] && ts[0] == Text(args[0].w) && ts[1..] == RdsToks(args[0].rs) + (ArgsToks(args[1..]) + tail)
  {
    hide RdsToks;
    var a, b := RdsToks(args[0].rs), ArgsToks(args[1..]);
    assert ArgsToks(args) == [Text(args[0].w)] + a + b;
    hide ArgsToks;
    Assoc([Text(args[0].w)], a, b);
    Assoc([Text(args[0].w)], a + b, tail);
    Assoc(a, b, tail);
  }

  lemma PArgsStep(ts: seq<Tok>, w: Word, ws: seq<Rd>, behind: seq<Tok>, done: seq<Word>, rs: seq<Redirect>)
    requires ts != [] && ts[0] == Text(w) && |done| + 1 < MAXARGS
    requires ts[1..] == RdsToks(ws) + behind && PRedirs(RdsToks(ws) + behind) == Parsed(RdsOf(ws), behind)
    ensures PArgs(ts, done, rs) == PArgs(behind, done + [w], rs + RdsOf(ws))
  {
    hide PRedirs, RdsToks, RdsOf, Wrap;
  }

  /** What may stand behind a simple command, a pipeline and a line. */
  predicate AfterSimple(ts: seq<Tok>) {
    ts == [] || IsStop(ts[0])
  }

  predicate AfterPipe(ts: seq<Tok>) {
    AfterSimple(ts) && !Starts(ts, '|')
  }

  predicate AfterLine(ts: seq<Tok>) {
    ts == [] || ts[0] == Sym(')')
  }

  lemma PlainParsed(rs: seq<Rd>, args: seq<Arg>, tail: seq<Tok>)
    requires SimpleOk(Plain(rs, args)) && AfterSimple(tail)
    ensures PExec(SimpleToks(Plain(rs, args)) + tail) == Parsed(SimpleCmd(Plain(rs, args)), tail)
  {
    var ts, behind := SimpleToks(Plain(rs, args)) + tail, ArgsToks(args) + tail;
    assert SimpleToks(Plain(rs, args)) == RdsToks(rs) + ArgsToks(args);
    assert SimpleCmd(Plain(rs, args)) == Wrap(Exec(WordsOf(args)), RdsOf(rs) + ArgRds(args));
    hide SimpleToks, SimpleCmd, RdsToks, ArgsToks, Wrap, RdsOf, ArgRds, WordsOf, PRedirs, PArgs;
    Assoc(RdsToks(rs), ArgsToks(args), tail);
    ArgsStart(args, tail);
    RdsParsed(rs, behind);
    ArgsParsed(args, [], RdsOf(rs), tail);
    assert [] + WordsOf(args) == WordsOf(args);
    PlainStart(rs, args, tail);
  }

  /** A plain command does not start like a block. */
  lemma PlainStart(rs: seq<Rd>, args: seq<Arg>, tail: seq<Tok>)
    requires (forall i :: 0 <= i < |rs| ==> RdOk(rs[i])) && AfterSimple(tail)
    ensures !Starts(RdsToks(rs) + (ArgsToks(args) + tail), '(')
  {
    var r, a := RdsToks(rs), ArgsToks(args);
    assert if rs == [] then r == [] else r != [] && r[0] == Sym(rs[0].sign);
    assert if args == [] then a == [] else a != [] && a[0] == Text(args[0].w);
    hide RdsToks, ArgsToks;
    HeadOf(a, tail);
    HeadOf(r, a + tail);
    if rs != [] { assert RdOk(rs[0]); }
  }

  lemma HeadOf(a: seq<Tok>, b: seq<Tok>)
    ensures if a == [] then a + b == b else (a + b)[0] == a[0]
  {
  }

  lemma {:induction false} SimpleParsed(s: Simple, tail: seq<Tok>)
    requires SimpleOk(s) && AfterSimple(tail)
    ensures PExec(SimpleToks(s) + tail) == Parsed(SimpleCmd(s), tail)
    decreases s
  {
    match s
    case Plain(rs, args) => PlainParsed(rs, args, tail);
    case Block(body, after) =>
      var behind := [Sym(')')] + (RdsToks(after) + tail);
      var ts := SimpleToks(s) + tail;
      assert ts == [Sym('(')] + (LineToks(body) + behind);
      assert ts[1..] == LineToks(body) + behind;
      LineParsed(body, behind);
      assert behind[1..] == RdsToks(after) + tail;
      RdsParsed(after, tail);
      hide SimpleToks, SimpleOk, LineOk, PLine, PRedirs;
  }

  lemma {:induction false} PipeParsed(p: Pipeline, tail: seq<Tok>)
    requires PipeOk(p) && AfterPipe(tail)
    ensures PPipe(PipeToks(p) + tail) == Parsed(PipeCmd(p), tail)
    decreases p
  {
    match p
    case Single(first) => SimpleParsed(first, tail);
    case Bar(first, rest) =>
      var behind := [Sym('|')] + (PipeToks(rest) + tail);
      assert PipeToks(p) + tail == SimpleToks(first) + behind;
      SimpleParsed(first, behind);
      assert behind[1..] == PipeToks(rest) + tail;
      PipeParsed(rest, tail);
  }

  lemma {:induction false} AmpsParsed(n: nat, c: Cmd, tail: seq<Tok>)
    requires !Starts(tail, '&')
    ensures PAmps(Amps(n) + tail, c) == Parsed(Backs(c, n), tail)
    decreases n
  {
    if n == 0 {
      assert Amps(n) + tail == tail;
    } else {
      assert (Amps(n) + tail)[1..] == Amps(n - 1) + tail;
      AmpsParsed(n - 1, Back(c), tail);
    }
  }

  lemma AmpsStart(n: nat, tail: seq<Tok>)
    requires AfterPipe(tail) && !Starts(tail, '&')
    ensures AfterPipe(Amps(n) + tail)
  {
    if n == 0 { assert Amps(n) + tail == tail; }
  }

  /** Every line of the grammar is parsed, to its own command. */
  lemma {:induction false} LineParsed(l: Line, tail: seq<Tok>)
    requires LineOk(l) && AfterLine(tail)
    ensures PLine(LineToks(l) + tail) == Parsed(LineCmd(l), tail)
    decreases l
  {
    hide PPipe, PAmps, PipeToks, Amps, PipeCmd, Backs, PipeOk;
    match l
    case Last(pipe, amps) =>
      Assoc(PipeToks(pipe), Amps(amps), tail);
      AmpsStart(amps, tail);
      PipeParsed(pipe, Amps(amps) + tail);
      AmpsParsed(amps, PipeCmd(pipe), tail);
    case Semi(pipe, amps, rest) =>
      var behind := [Sym(';')] + (LineToks(rest) + tail);
      SemiToks(pipe, amps, rest, tail);
      AmpsStart(amps, behind);
      PipeParsed(pipe, Amps(amps) + behind);
      AmpsParsed(amps, PipeCmd(pipe), behind);
      assert behind[1..] == LineToks(rest) + tail;
      LineParsed(rest, tail);
  }

  lemma SemiToks(pipe: Pipeline, amps: nat, rest: Line, tail: seq<Tok>)
    ensures LineToks(Semi(pipe, amps, rest)) + tail ==
      PipeToks(pipe) + (Amps(amps) + ([Sym(';')] + (LineToks(rest) + tail)))
  {
    assert LineToks(Semi(pipe, amps, rest)) == PipeToks(pipe) + Amps(amps) + [Sym(';')] + LineToks(rest);
    hide PipeToks, Amps, LineToks;
  }

  // ---------------------------------------------------------------- whatever is parsed has a derivation

  ghost predicate RdsOk(rs: seq<Rd>) {
    forall i :: 0 <= i < |rs| ==> RdOk(rs[i])
  }

  lemma {:induction false} RedirsSound(ts: seq<Tok>) returns (rs: seq<Rd>)
    requires PRedirs(ts).Parsed?
    ensures RdsOk(rs) && ts == RdsToks(rs) + PRedirs(ts).rest && RdsOf(rs) == PRedirs(ts).value
    decreases |ts|
  {
    hide RdsToks, RdsOf;
    if ts == [] || !IsSign(ts[0]) {
      rs := [];
      RdsNone(ts);
    } else {
      var more := RedirsSound(ts[2..]);
      rs := [Rd(ts[0].c, ts[1].w)] + more;
      RdsCons(ts[0].c, ts[1].w, more);
      assert ts == [ts[0], ts[1]] + ts[2..];
      Assoc([ts[0], ts[1]], RdsToks(more), PRedirs(ts[2..]).rest);
    }
  }

  lemma RdsNone(ts: seq<Tok>)
    ensures ts == RdsToks([]) + ts && RdsOf([]) == []
  {
  }

  lemma RdsCons(c: char, w: Word, more: seq<Rd>)
    ensures RdsToks([Rd(c, w)] + more) == [Sym(c), Text(w)] + RdsToks(more)
    ensures RdsOf([Rd(c, w)] + more) == [RedirectFor(c, w)] + RdsOf(more)
  {
    assert ([Rd(c, w)] + more)[1..] == more;
  }

  ghost predicate ArgsOk(args: seq<Arg>) {
    forall i :: 0 <= i < |args| ==> RdsOk(args[i].rs)
  }

  lemma ArgsCons(a: Arg, more: seq<Arg>)
    ensures ArgsToks([a] + more) == [Text(a.w)] + RdsToks(a.rs) + ArgsToks(more)
    ensures WordsOf([a] + more) == [a.w] + WordsOf(more) && ArgRds([a] + more) == RdsOf(a.rs) + ArgRds(more)
    ensures RdsOk(a.rs) && ArgsOk(more) ==> ArgsOk([a] + more)
  {
    assert ([a] + more)[1..] == more;
  }

  lemma {:induction false} ArgsSound(ts: seq<Tok>, done: seq<Word>, rs: seq<Redirect>) returns (args: seq<Arg>)
    requires PArgs(ts, done, rs).Parsed? && |done| < MAXARGS
    ensures |done| + |args| < MAXARGS && ArgsOk(args) && ts == ArgsToks(args) + PArgs(ts, done, rs).rest
    ensures PArgs(ts, done, rs).value == Wrap(Exec(done + WordsOf(args)), rs + ArgRds(args))
    decreases |ts|
  {
    hide PArgs, PRedirs, Wrap, RdsToks, RdsOf, ArgsToks, WordsOf, ArgRds, ArgsOk, RdsOk;
    PArgsUnfold(ts, done, rs);
    if ts == [] || IsStop(ts[0]) {
      args := [];
      ArgsNone(ts, done, rs);
    } else {
      var w, more := ts[0].w, PRedirs(ts[1..]);
      var ws := RedirsSound(ts[1..]);
      var tail := ArgsSound(more.rest, done + [w], rs + more.value);
      args := [Arg(w, ws)] + tail;
      ArgsCons(Arg(w, ws), tail);
      ArgsAround(ts, w, ws, tail, PArgs(ts, done, rs).rest);
      Assoc(done, [w], WordsOf(tail));
      Assoc(rs, RdsOf(ws), ArgRds(tail));
    }
  }

  lemma PArgsUnfold(ts: seq<Tok>, done: seq<Word>, rs: seq<Redirect>)
    requires PArgs(ts, done, rs).Parsed?
    ensures ts == [] || IsStop(ts[0]) ==> PArgs(ts, done, rs) == Parsed(Wrap(Exec(done), rs), ts)
    ensures !(ts == [] || IsStop(ts[0])) ==>
      ts[0].Text? && |done| + 1 < MAXARGS && PRedirs(ts[1..]).Parsed? && |PRedirs(ts[1..]).rest| < |ts|
      && PArgs(ts, done, rs) == PArgs(PRedirs(ts[1..]).rest, done + [ts[0].w], rs + PRedirs(ts[1..]).value)
  {
    hide PRedirs, Wrap;
  }

  lemma ArgsNone(ts: seq<Tok>, done: seq<Word>, rs: seq<Redirect>)
    ensures ArgsOk([]) && ts == ArgsToks([]) + ts && done + WordsOf([]) == done && rs + ArgRds([]) == rs
  {
  }

  lemma ArgsAround(ts: seq<Tok>, w: Word, ws: seq<Rd>, tail: seq<Arg>, rest: seq<Tok>)
    requires ts != [] && ts[0] == Text(w) && ts[1..] == RdsToks(ws) + (ArgsToks(tail) + rest)
    ensures ts == [Text(w)] + RdsToks(ws) + ArgsToks(tail) + rest
  {
    hide RdsToks, ArgsToks;
    var a, b := RdsToks(ws), ArgsToks(tail);
    assert ts == [Text(w)] + ts[1..];
    Assoc([Text(w)], a, b + rest);
    Assoc([Text(w)] + a, b, rest);
  }

  lemma PlainSound(ts: seq<Tok>) returns (s: Simple)
    requires PExec(ts).Parsed? && !Starts(ts, '(')
    ensures SimpleOk(s) && ts == SimpleToks(s) + PExec(ts).rest && PExec(ts).value == SimpleCmd(s)
  {
    hide PArgs, PRedirs, Wrap, RdsToks, RdsOf, ArgsToks, WordsOf, ArgRds, ArgsOk, RdsOk;
    var more := PRedirs(ts);
    var rs := RedirsSound(ts);
    var args := ArgsSound(more.rest, [], more.value);
    s := Plain(rs, args);
    PlainOk(rs, args);
    Assoc(RdsToks(rs), ArgsToks(args), PExec(ts).rest);
    assert [] + WordsOf(args) == WordsOf(args);
  }

  lemma PlainOk(rs: seq<Rd>, args: seq<Arg>)
    requires RdsOk(rs) && ArgsOk(args) && |args| < MAXARGS
    ensures SimpleOk(Plain(rs, args))
  {
    forall i | 0 <= i < |args| ensures forall j :: 0 <= j < |args[i].rs| ==> RdOk(args[i].rs[j]) {
      assert RdsOk(args[i].rs);
    }
  }

  lemma {:induction false} SimpleSound(ts: seq<Tok>) returns (s: Simple)
    requires PExec(ts).Parsed?
    ensures SimpleOk(s) && ts == SimpleToks(s) + PExec(ts).rest && PExec(ts).value == SimpleCmd(s)
    decreases |ts|, 0
  {
    hide PLine, PRedirs, PExec, LineToks, RdsToks, LineOk, LineCmd, Wrap, SimpleToks;
    if !Starts(ts, '(') {
      s := PlainSound(ts);
    } else {
      BlockUnfold(ts);
      var body := PLine(ts[1..]);
      var l := LineSound(ts[1..]);
      var rs := RedirsSound(body.rest[1..]);
      s := Block(l, rs);
      assert ts == [Sym('(')] + ts[1..] && body.rest == [Sym(')')] + body.rest[1..];
      BlockToks(l, rs, PExec(ts).rest);
    }
  }

  lemma BlockUnfold(ts: seq<Tok>)
    requires PExec(ts).Parsed? && Starts(ts, '(')
    ensures PLine(ts[1..]).Parsed? && Starts(PLine(ts[1..]).rest, ')')
    ensures var body := PLine(ts[1..]); var rs := PRedirs(body.rest[1..]);
      rs.Parsed? && PExec(ts) == Parsed(Wrap(body.value, rs.value), rs.rest)
  {
    hide PLine, PRedirs, Wrap;
  }

  lemma BlockToks(l: Line, rs: seq<Rd>, tail: seq<Tok>)
    ensures SimpleToks(Block(l, rs)) + tail == [Sym('(')] + (LineToks(l) + ([Sym(')')] + (RdsToks(rs) + tail)))
  {
    assert SimpleToks(Block(l, rs)) == [Sym('(')] + LineToks(l) + [Sym(')')] + RdsToks(rs);
    hide SimpleToks, LineToks, RdsToks;
  }

  lemma {:induction false} PipeSound(ts: seq<Tok>) returns (p: Pipeline)
    requires PPipe(ts).Parsed?
    ensures PipeOk(p) && ts == PipeToks(p) + PPipe(ts).rest && PPipe(ts).value == PipeCmd(p)
    decreases |ts|, 1
  {
    var r, left := PPipe(ts), PExec(ts);
    var first := SimpleSound(ts);
    if !Starts(left.rest, '|') {
      p := Single(first);
    } else {
      var rest := PipeSound(left.rest[1..]);
      p := Bar(first, rest);
      assert left.rest == [Sym('|')] + left.rest[1..];
      var a, b := SimpleToks(first), PipeToks(rest);
      assert PipeToks(p) == a + [Sym('|')] + b;
      hide PExec, SimpleToks, PipeToks, SimpleOk, SimpleCmd;
      Assoc(a + [Sym('|')], b, r.rest);
      Assoc(a, [Sym('|')], b + r.rest);
      Assoc([Sym('|')], b, r.rest);
    }
  }

  lemma {:induction false} AmpsSound(ts: seq<Tok>, c: Cmd) returns (n: nat)
    ensures ts == Amps(n) + PAmps(ts, c).rest && PAmps(ts, c).value == Backs(c, n)
    decreases |ts|
  {
    if Starts(ts, '&') {
      var m := AmpsSound(ts[1..], Back(c));
      n := m + 1;
      assert ts == [Sym('&')] + ts[1..];
      Assoc([Sym('&')], Amps(m), PAmps(ts[1..], Back(c)).rest);
    } else {
      n := 0;
    }
  }

  lemma {:induction false} LineSound(ts: seq<Tok>) returns (l: Line)
    requires PLine(ts).Parsed?
    ensures LineOk(l) && ts == LineToks(l) + PLine(ts).rest && PLine(ts).value == LineCmd(l)
    decreases |ts|, 2
  {
    hide PPipe, PipeToks, PAmps, Amps, PipeOk, PipeCmd, Backs;
    var r, pipe := PLine(ts), PPipe(ts);
    var left := PAmps(pipe.rest, pipe.value);
    var p := PipeSound(ts);
    var n := AmpsSound(pipe.rest, pipe.value);
    if !Starts(left.rest, ';') {
      l := Last(p, n);
      Assoc(PipeToks(p), Amps(n), r.rest);
    } else {
      var rest := LineSound(left.rest[1..]);
      l := Semi(p, n, rest);
      assert left.rest == [Sym(';')] + left.rest[1..];
      SemiToks(p, n, rest, r.rest);
    }
  }

  /** A token sequence is a line of the grammar, with command c. */
  ghost predicate Derives(ts: seq<Tok>, c: Cmd) {
    exists l :: LineOk(l) && LineToks(l) == ts && LineCmd(l) == c
  }

  /** The parser accepts exactly the grammar, and builds the command of the derivation. */
  lemma ParsesIff(ts: seq<Tok>, c: Cmd)
    ensures PLine(ts) == Parsed(c, []) <==> Derives(ts, c)
  {
    if PLine(ts) == Parsed(c, []) {
      var l := LineSound(ts);
      assert LineToks(l) + [] == LineToks(l);
    }
    if Derives(ts, c) {
      var l :| LineOk(l) && LineToks(l) == ts && LineCmd(l) == c;
      LineParsed(l, []);
      assert LineToks(l) + [] == LineToks(l);
    }
  }

  // ---------------------------------------------------------------- the order of redirections

  /** The redirections runcmd() makes before it comes to the command proper, in its order. */
  function Opens(c: Cmd): seq<Redirect> {
    if c.Redir? then [c.redirect] + Opens(c.cmd) else []
  }

  /** The redirections of a simple command as they stand in the text. */
  function Written(ts: seq<Tok>): seq<Redirect>
    decreases |ts|
  {
    if |ts| < 2 then []
    else if IsSign(ts[0]) && ts[1].Text? then [RedirectFor(ts[0].c, ts[1].w)] + Written(ts[2..])
    else Written(ts[1..])
  }

  function Backwards(rs: seq<Redirect>): seq<Redirect> {
    seq(|rs|, i requires 0 <= i < |rs| => rs[|rs| - 1 - i])
  }

  lemma {:induction false} WrapOpens(c: Cmd, rs: seq<Redirect>)
    ensures Opens(Wrap(c, rs)) == Backwards(rs) + Opens(c)
    decreases |rs|
  {
    if rs != [] {
      var front := rs[..|rs| - 1];
      WrapOpens(c, front);
      assert Backwards(rs) == [rs[|rs| - 1]] + Backwards(front);
      assert Backwards(rs) + Opens(c) == [rs[|rs| - 1]] + (Backwards(front) + Opens(c));
    }
  }

  lemma WrittenStep(c: char, w: Word, tail: seq<Tok>)
    requires IsSign(Sym(c))
    ensures Written([Sym(c), Text(w)] + tail) == [RedirectFor(c, w)] + Written(tail)
  {
    assert ([Sym(c), Text(w)] + tail)[2..] == tail;
  }

  lemma {:induction false} WrittenRds(rs: seq<Rd>, tail: seq<Tok>)
    requires RdsOk(rs)
    ensures Written(RdsToks(rs) + tail) == RdsOf(rs) + Written(tail)
    decreases |rs|
  {
    hide RdsToks, RdsOf, Written;
    if rs == [] {
      RdsNone(tail);
    } else {
      var c, w, more := rs[0].sign, rs[0].file, rs[1..];
      assert RdOk(rs[0]) && rs == [Rd(c, w)] + more;
      RdsCons(c, w, more);
      Assoc([Sym(c), Text(w)], RdsToks(more), tail);
      WrittenStep(c, w, RdsToks(more) + tail);
      WrittenRds(more, tail);
      Assoc([RedirectFor(c, w)], RdsOf(more), Written(tail));
    }
  }

  lemma {:induction false} WrittenArgs(args: seq<Arg>)
    requires ArgsOk(args)
    ensures Written(ArgsToks(args)) == ArgRds(args)
    decreases |args|
  {
    if args != [] {
      var ts, more := ArgsToks(args), args[1..];
      assert RdsOk(args[0].rs);
      assert ts[0] == Text(args[0].w) && ts[1..] == RdsToks(args[0].rs) + ArgsToks(more);
      WrittenRds(args[0].rs, ArgsToks(more));
      WrittenArgs(more);
      assert |ts| < 2 ==> ts[1..] == [];
    }
  }

  /** A simple command opens its files from the last written to the first, around what its body opens. */
  lemma RedirectOrder(s: Simple)
    requires SimpleOk(s)
    ensures Opens(SimpleCmd(s)) ==
      match s
      case Plain(rs, args) => Backwards(Written(SimpleToks(s)))
      case Block(body, after) => Backwards(Written(RdsToks(after))) + Opens(LineCmd(body))
  {
    match s
    case Plain(rs, args) =>
      assert ArgsOk(args) by {
        forall i | 0 <= i < |args| ensures RdsOk(args[i].rs) {
          assert forall j :: 0 <= j < |args[i].rs| ==> RdOk(args[i].rs[j]);
        }
      }
      WrapOpens(Exec(WordsOf(args)), RdsOf(rs) + ArgRds(args));
      WrittenRds(rs, ArgsToks(args));
      WrittenArgs(args);
    case Block(body, after) =>
      WrapOpens(LineCmd(body), RdsOf(after));
      WrittenRds(after, []);
      assert RdsToks(after) + [] == RdsToks(after) && RdsOf(after) + Written([]) == RdsOf(after);
  }

  /** The file that stays open on a descriptor: the one opened last. */
  predicate EndsOn(opens: seq<Redirect>, r: Redirect) {
    exists k :: 0 <= k < |opens| && opens[k] == r && forall j :: k < j < |opens| ==> opens[j].fd != r.fd
  }

  /** Where a plain command redirects a descriptor more than once, the first redirection written decides. */
  lemma FirstRedirectDecides(s: Simple, k: int)
    requires SimpleOk(s) && s.Plain? && 0 <= k < |Written(SimpleToks(s))|
    requires forall j :: 0 <= j < k ==> Written(SimpleToks(s))[j].fd != Written(SimpleToks(s))[k].fd
    ensures EndsOn(Opens(SimpleCmd(s)), Written(SimpleToks(s))[k])
  {
    hide Written, Opens, SimpleCmd, SimpleToks, SimpleOk, EndsOn, Backwards;
    RedirectOrder(s);
    BackwardsEnds(Written(SimpleToks(s)), k);
  }

  lemma BackwardsEnds(rs: seq<Redirect>, k: int)
    requires 0 <= k < |rs| && forall j :: 0 <= j < k ==> rs[j].fd != rs[k].fd
    ensures EndsOn(Backwards(rs), rs[k])
  {
    assert Backwards(rs)[|rs| - 1 - k] == rs[k];
  }
}
