/**
  The command parser of sh.c.  A line is NUL-terminated; words are recorded as slices of it and
  terminated in place once the whole line has been parsed.
 */
module Shell {
  import opened CStrings
  import opened ShellGrammar

  datatype Result = Ok(cmd: Cmd) | Panic

  // ---------------------------------------------------------------- the line

  predicate IsSpace(c: char) {
    c in " \t\r\n\U{0b}"
  }

  predicate IsSymbol(c: char) {
    c in "<|>&;()"
  }

  /** A character that belongs to a word. */
  predicate InWord(b: seq<char>, i: int) {
    0 <= i < |b| - 1 && !IsSpace(b[i]) && !IsSymbol(b[i])
  }

  /** [a, e) is a whole word: word characters only, and none beside it. */
  ghost predicate IsWord(b: seq<char>, a: int, e: int) {
    0 <= a < e < |b| && (forall i :: a <= i < e ==> InWord(b, i)) && !InWord(b, a - 1) && !InWord(b, e)
  }

  ghost function WordSet(b: seq<char>, lo: int, hi: int): set<Word> {
    set a, e | lo <= a < e <= hi && IsWord(b, a, e) :: (a, e)
  }

  /** All words of the line between lo and hi, once each. */
  ghost function WordBag(b: seq<char>, lo: int, hi: int): multiset<Word> {
    multiset(WordSet(b, lo, hi))
  }

  /** p does not split a word. */
  predicate Boundary(b: seq<char>, p: int) {
    !InWord(b, p - 1) || !InWord(b, p)
  }

  lemma Inside(b: seq<char>, a: int, e: int, i: int)
    ensures IsWord(b, a, e) && a <= i < e ==> InWord(b, i)
  {
  }

  lemma BagSplit(b: seq<char>, lo: int, mid: int, hi: int)
    requires lo <= mid <= hi && Boundary(b, mid)
    ensures WordBag(b, lo, hi) == WordBag(b, lo, mid) + WordBag(b, mid, hi)
  {
    var x, y, all := WordSet(b, lo, mid), WordSet(b, mid, hi), WordSet(b, lo, hi);
    forall a, e | lo <= a < e <= hi && IsWord(b, a, e) ensures (a, e) in x + y {
      Inside(b, a, e, mid - 1);
      Inside(b, a, e, mid);
    }
    assert all == x + y;
    assert x !! y;
    BagUnion(x, y);
  }

  lemma BagUnion(x: set<Word>, y: set<Word>)
    requires x !! y
    ensures multiset(x + y) == multiset(x) + multiset(y)
  {
  }

  lemma BagNone(b: seq<char>, lo: int, hi: int)
    requires forall i :: lo <= i < hi ==> !InWord(b, i)
    ensures WordBag(b, lo, hi) == multiset{}
  {
    forall a, e | lo <= a < e <= hi ensures !IsWord(b, a, e) {
      Inside(b, a, e, a);
    }
    assert WordSet(b, lo, hi) == {};
  }

  lemma BagOne(b: seq<char>, a: int, e: int)
    requires IsWord(b, a, e)
    ensures WordBag(b, a, e) == multiset{(a, e)}
  {
    forall x, y | a <= x < y <= e && IsWord(b, x, y) ensures (x, y) == (a, e) {
      Inside(b, a, e, x - 1);
      Inside(b, a, e, y);
    }
    assert WordSet(b, a, e) == {(a, e)};
  }

  /** The last character before i that is not a space; NUL at the start of the line. */
  function Before(b: seq<char>, i: int): char
    requires 0 <= i <= |b|
    decreases i
  {
    if i == 0 then '\0' else if IsSpace(b[i - 1]) then Before(b, i - 1) else b[i - 1]
  }

  predicate Spaces(b: seq<char>, lo: int, hi: int) {
    0 <= lo <= hi <= |b| && forall i :: lo <= i < hi ==> IsSpace(b[i])
  }

  lemma {:induction false} BeforeSpaces(b: seq<char>, lo: int, hi: int)
    requires Spaces(b, lo, hi)
    ensures Before(b, hi) == Before(b, lo)
    decreases hi - lo
  {
    if lo < hi { BeforeSpaces(b, lo, hi - 1); }
  }

  /** How often c occurs between lo and hi. */
  function Count(b: seq<char>, c: char, lo: int, hi: int): (n: int)
    requires 0 <= lo <= hi <= |b|
    ensures n >= 0
    decreases hi - lo
  {
    if lo == hi then 0 else Count(b, c, lo, hi - 1) + if b[hi - 1] == c then 1 else 0
  }

  lemma {:induction false} CountSplit(b: seq<char>, c: char, lo: int, mid: int, hi: int)
    requires 0 <= lo <= mid <= hi <= |b|
    ensures Count(b, c, lo, hi) == Count(b, c, lo, mid) + Count(b, c, mid, hi)
    decreases hi - mid
  {
    if mid < hi { CountSplit(b, c, lo, mid, hi - 1); }
  }

  lemma {:induction false} CountNone(b: seq<char>, c: char, lo: int, hi: int)
    requires 0 <= lo <= hi <= |b| && forall i :: lo <= i < hi ==> b[i] != c
    ensures Count(b, c, lo, hi) == 0
    decreases hi - lo
  {
    if lo < hi { CountNone(b, c, lo, hi - 1); }
  }

  // ---------------------------------------------------------------- what a tree says about its line

  /** The words a command records. */
  ghost function Words(c: Cmd): multiset<Word> {
    match c
    case Exec(args) => multiset(args)
    case Redir(d, r) => Words(d) + multiset{r.file}
    case Pipe(l, r) => Words(l) + Words(r)
    case List(l, r) => Words(l) + Words(r)
    case Back(d) => Words(d)
  }

  function PipeCount(c: Cmd): int {
    match c
    case Exec(_) => 0
    case Redir(d, _) => PipeCount(d)
    case Pipe(l, r) => PipeCount(l) + PipeCount(r) + 1
    case List(l, r) => PipeCount(l) + PipeCount(r)
    case Back(d) => PipeCount(d)
  }

  function ListCount(c: Cmd): int {
    match c
    case Exec(_) => 0
    case Redir(d, _) => ListCount(d)
    case Pipe(l, r) => ListCount(l) + ListCount(r)
    case List(l, r) => ListCount(l) + ListCount(r) + 1
    case Back(d) => ListCount(d)
  }

  function BackCount(c: Cmd): int {
    match c
    case Exec(_) => 0
    case Redir(d, _) => BackCount(d)
    case Pipe(l, r) => BackCount(l) + BackCount(r)
    case List(l, r) => BackCount(l) + BackCount(r)
    case Back(d) => BackCount(d) + 1
  }

  /** An argument does not follow a redirection sign ... */
  predicate ArgOk(b: seq<char>, w: Word) {
    0 <= w.0 <= |b| && Before(b, w.0) != '<' && Before(b, w.0) != '>'
  }

  /** ... and a redirection's file does, the sign giving mode and descriptor. */
  predicate RedirectOk(b: seq<char>, r: Redirect) {
    && 0 <= r.file.0 <= |b|
    && ((Before(b, r.file.0) == '<' && r.mode == O_RDONLY && r.fd == 0)
        || (Before(b, r.file.0) == '>' && r.mode == O_WRONLY_CREATE && r.fd == 1))
  }

  /** The words of x stand before those of y. */
  ghost predicate Precede(x: multiset<Word>, y: multiset<Word>) {
    forall v, w :: v in x && w in y ==> v.1 <= w.0
  }

  /** Structure: argument order and number, redirections, and left before right. */
  ghost predicate Formed(b: seq<char>, c: Cmd) {
    match c
    case Exec(args) =>
      |args| < MAXARGS && (forall i :: 0 <= i < |args| ==> ArgOk(b, args[i]))
        && forall i, j :: 0 <= i < j < |args| ==> args[i].1 <= args[j].0
    case Redir(d, r) => Formed(b, d) && RedirectOk(b, r)
    case Pipe(l, r) => Formed(b, l) && Formed(b, r) && Precede(Words(l), Words(r))
    case List(l, r) => Formed(b, l) && Formed(b, r) && Precede(Words(l), Words(r))
    case Back(d) => Formed(b, d)
  }

  /** Words and operators, as they stand in a line and as a tree records them. */
  datatype Tally = Tally(words: multiset<Word>, pipes: int, lists: int, backs: int) {
    function Plus(t: Tally): Tally {
      Tally(words + t.words, pipes + t.pipes, lists + t.lists, backs + t.backs)
    }
  }

  ghost function OfLine(b: seq<char>, lo: int, hi: int): Tally
    requires 0 <= lo <= hi <= |b|
  {
    Tally(WordBag(b, lo, hi), Count(b, '|', lo, hi), Count(b, ';', lo, hi), Count(b, '&', lo, hi))
  }

  ghost function OfCmd(c: Cmd): Tally {
    Tally(Words(c), PipeCount(c), ListCount(c), BackCount(c))
  }

  function NoTally(): Tally {
    Tally(multiset{}, 0, 0, 0)
  }

  function OfToken(t: char, q: int, e: int): Tally {
    Tally(if t == 'a' then multiset{(q, e)} else multiset{},
          if t == '|' then 1 else 0, if t == ';' then 1 else 0, if t == '&' then 1 else 0)
  }

  /** c is a reading of the line from lo to hi: every word once, every operator once, in order. */
  ghost predicate Reads(b: seq<char>, c: Cmd, lo: int, hi: int) {
    0 <= lo <= hi < |b| && OfCmd(c) == OfLine(b, lo, hi) && Formed(b, c)
  }

  lemma LineSplit(b: seq<char>, lo: int, mid: int, hi: int)
    requires 0 <= lo <= mid <= hi <= |b| && Boundary(b, mid)
    ensures OfLine(b, lo, hi) == OfLine(b, lo, mid).Plus(OfLine(b, mid, hi))
  {
    BagSplit(b, lo, mid, hi);
    CountSplit(b, '|', lo, mid, hi);
    CountSplit(b, ';', lo, mid, hi);
    CountSplit(b, '&', lo, mid, hi);
    hide WordBag, Count;
  }

  lemma LineSpaces(b: seq<char>, lo: int, hi: int)
    requires Spaces(b, lo, hi)
    ensures OfLine(b, lo, hi) == NoTally() && Before(b, hi) == Before(b, lo) && (Boundary(b, lo) ==> Boundary(b, hi))
  {
    forall i | lo <= i < hi ensures !InWord(b, i) {
    }
    BagNone(b, lo, hi);
    CountNone(b, '|', lo, hi);
    CountNone(b, ';', lo, hi);
    CountNone(b, '&', lo, hi);
    BeforeSpaces(b, lo, hi);
    if lo < hi { assert !InWord(b, hi - 1); }
    hide WordBag, Count, Before;
  }

  /** A place where a command may start or has ended. */
  ghost predicate Between(b: seq<char>, p: int) {
    CString(b) && 0 <= p < |b| && Boundary(b, p) && Before(b, p) != '<' && Before(b, p) != '>'
  }

  // ---------------------------------------------------------------- tokens

  /** What gettoken() finds from lo on: the token [q, e), with spaces around it up to hi. */
  ghost predicate Token(b: seq<char>, lo: int, t: char, q: int, e: int, hi: int) {
    && 0 <= lo <= q <= e <= hi < |b| && Spaces(b, lo, q) && Spaces(b, e, hi) && (hi == |b| - 1 || !IsSpace(b[hi]))
    && (t == '\0' <==> q == |b| - 1) && (q == |b| - 1 ==> e == q)
    && (t == 'a' ==> IsWord(b, q, e))
    && (t == '+' ==> e == q + 2 && b[q] == '>' && b[q + 1] == '>') && (t == '>' ==> b[q + 1] != '>')
    && (t != '\0' && t != 'a' && t != '+' ==> e == q + 1 && b[q] == t && IsSymbol(t))
  }

  method SkipSpaces(b: seq<char>, s0: int) returns (s: int)
    requires CString(b) && 0 <= s0 < |b|
    ensures s0 <= s < |b| && Spaces(b, s0, s) && (s == |b| - 1 || !IsSpace(b[s]))
  {
    s := s0;
    while s < |b| - 1 && IsSpace(b[s])
      invariant s0 <= s < |b| && Spaces(b, s0, s)
    {
      s := s + 1;
    }
  }

  method GetToken(b: seq<char>, ps: int) returns (t: char, q: int, e: int, p: int)
    requires CString(b) && 0 <= ps < |b| && Boundary(b, ps)
    ensures Token(b, ps, t, q, e, p) && (t != '\0' ==> ps < p)
  {
    var s := SkipSpaces(b, ps);
    q := s;
    t := b[s];
    if t == '\0' {
    } else if t in "|();&<" {
      s := s + 1;
    } else if t == '>' {
      s := s + 1;
      if b[s] == '>' {
        t := '+';
        s := s + 1;
      }
    } else {
      t := 'a';
      assert InWord(b, q) && !InWord(b, q - 1) by { if q > ps { assert IsSpace(b[q - 1]); } }
      while s < |b| - 1 && !IsSpace(b[s]) && !IsSymbol(b[s])
        invariant q <= s < |b| && forall i :: q <= i < s ==> InWord(b, i)
      {
        s := s + 1;
      }
      assert !InWord(b, s);
    }
    e := s;
    p := SkipSpaces(b, s);
  }

  method Peek(b: seq<char>, ps: int, toks: string) returns (found: bool, p: int)
    requires CString(b) && 0 <= ps < |b|
    ensures ps <= p < |b| && Spaces(b, ps, p) && (p == |b| - 1 || !IsSpace(b[p]))
    ensures found <==> b[p] != '\0' && b[p] in toks
  {
    p := SkipSpaces(b, ps);
    found := b[p] != '\0' && b[p] in toks;
  }

  // ---- the tokens of the line

  function WordEnd(b: seq<char>, p: int): (e: int)
    requires CString(b) && 0 <= p < |b|
    ensures p <= e < |b| && (forall i :: p <= i < e ==> InWord(b, i)) && !InWord(b, e)
    decreases |b| - p
  {
    if InWord(b, p) then WordEnd(b, p + 1) else p
  }

  /** The line from p on as tokens. */
  function Toks(b: seq<char>, p: int): seq<Tok>
    requires CString(b) && 0 <= p < |b|
    decreases |b| - p
  {
    if p == |b| - 1 then []
    else if IsSpace(b[p]) then Toks(b, p + 1)
    else if b[p] == '>' && b[p + 1] == '>' then [Sym('+')] + Toks(b, p + 2)
    else if IsSymbol(b[p]) then [Sym(b[p])] + Toks(b, p + 1)
    else [Text((p, WordEnd(b, p)))] + Toks(b, WordEnd(b, p))
  }

  function TokOf(t: char, q: int, e: int): Tok {
    if t == 'a' then Text((q, e)) else Sym(t)
  }

  lemma {:induction false} SpacesToks(b: seq<char>, lo: int, hi: int)
    requires CString(b) && Spaces(b, lo, hi) && hi < |b|
    ensures Toks(b, lo) == Toks(b, hi)
    decreases hi - lo
  {
    if lo < hi { SpacesToks(b, lo + 1, hi); }
  }

  lemma WordEndIs(b: seq<char>, q: int, e: int)
    requires CString(b) && IsWord(b, q, e)
    ensures WordEnd(b, q) == e
  {
    var w := WordEnd(b, q);
    Inside(b, q, e, w);
    assert e < w ==> InWord(b, e);
  }

  /** gettoken() takes the first token. */
  lemma TokenToks(b: seq<char>, lo: int, t: char, q: int, e: int, hi: int)
    requires CString(b) && Token(b, lo, t, q, e, hi)
    ensures Toks(b, lo) == if t == '\0' then [] else [TokOf(t, q, e)] + Toks(b, hi)
  {
    SpacesToks(b, lo, q);
    SpacesToks(b, e, hi);
    if t == 'a' {
      WordEndIs(b, q, e);
      Inside(b, q, e, q);
    }
    hide WordEnd;
  }

  /** What peek() sees of the first token. */
  lemma PeekToks(b: seq<char>, ps: int, p: int)
    requires CString(b) && Spaces(b, ps, p) && p < |b| && (p == |b| - 1 || !IsSpace(b[p]))
    ensures Toks(b, ps) == Toks(b, p) && (b[p] == '\0' <==> Toks(b, p) == [])
    ensures Toks(b, p) != [] ==> (IsSign(Toks(b, p)[0]) <==> b[p] in "<>")
    ensures Toks(b, p) != [] ==> (IsStop(Toks(b, p)[0]) <==> b[p] in "|)&;")
    ensures forall c :: c in "|();&" ==> (Starts(Toks(b, p), c) <==> b[p] == c)
  {
    SpacesToks(b, ps, p);
    hide WordEnd;
  }

  // ---- what a token does to the reading

  lemma SymbolTally(b: seq<char>, q: int)
    requires 0 <= q < |b| && IsSymbol(b[q])
    ensures OfLine(b, q, q + 1) == OfToken(b[q], q, q + 1)
  {
    BagNone(b, q, q + 1);
    CountOne(b, '|', q);
    CountOne(b, ';', q);
    CountOne(b, '&', q);
    hide WordBag, Count;
  }

  lemma CountOne(b: seq<char>, c: char, q: int)
    requires 0 <= q < |b|
    ensures Count(b, c, q, q + 1) == if b[q] == c then 1 else 0
  {
    assert Count(b, c, q, q) == 0;
  }

  lemma WordTally(b: seq<char>, q: int, e: int)
    requires IsWord(b, q, e)
    ensures OfLine(b, q, e) == OfToken('a', q, e)
  {
    BagOne(b, q, e);
    forall i | q <= i < e ensures !IsSymbol(b[i]) {
      Inside(b, q, e, i);
    }
    CountNone(b, '|', q, e);
    CountNone(b, ';', q, e);
    CountNone(b, '&', q, e);
    hide WordBag, Count;
  }

  lemma TokenBody(b: seq<char>, lo: int, t: char, q: int, e: int, hi: int)
    requires CString(b) && Token(b, lo, t, q, e, hi)
    ensures OfLine(b, q, e) == OfToken(t, q, e) && (t != '\0' ==> q < e) && (Boundary(b, q) ==> Boundary(b, e))
    ensures t != '\0' ==> Before(b, e) == b[e - 1]
    ensures t != '\0' ==> (t != '<' && t != '>' && t != '+' ==> b[e - 1] != '<' && b[e - 1] != '>')
  {
    if t == 'a' {
      WordTally(b, q, e);
      Inside(b, q, e, e - 1);
    } else if t == '+' {
      SymbolTally(b, q);
      SymbolTally(b, q + 1);
      LineSplit(b, q, q + 1, q + 2);
    } else if t != '\0' {
      SymbolTally(b, q);
    } else {
      BagNone(b, q, q);
    }
    hide OfLine;
  }

  lemma TokenTally(b: seq<char>, lo: int, t: char, q: int, e: int, hi: int)
    requires CString(b) && Token(b, lo, t, q, e, hi) && Boundary(b, lo)
    ensures OfLine(b, lo, hi) == OfToken(t, q, e) && Boundary(b, hi) && Boundary(b, q) && Before(b, q) == Before(b, lo)
    ensures t == '\0' ==> Before(b, hi) == Before(b, lo)
    ensures t != '\0' ==> Before(b, hi) == b[e - 1]
    ensures t != '\0' ==> (t != '<' && t != '>' && t != '+' ==> Before(b, hi) != '<' && Before(b, hi) != '>')
  {
    hide OfLine, Before;
    LineSpaces(b, lo, q);
    TokenBody(b, lo, t, q, e, hi);
    LineSpaces(b, e, hi);
    LineSplit(b, lo, q, e);
    LineSplit(b, lo, e, hi);
  }

  // ---------------------------------------------------------------- redirections

  function Files(rs: seq<Redirect>): multiset<Word>
    decreases |rs|
  {
    if rs == [] then multiset{} else Files(rs[..|rs| - 1]) + multiset{rs[|rs| - 1].file}
  }

  lemma {:induction false} WrapIs(b: seq<char>, c: Cmd, rs: seq<Redirect>)
    requires Formed(b, c) && forall i :: 0 <= i < |rs| ==> RedirectOk(b, rs[i])
    ensures Formed(b, Wrap(c, rs)) && OfCmd(Wrap(c, rs)) == OfCmd(c).(words := Words(c) + Files(rs))
    decreases |rs|
  {
    if rs != [] {
      hide RedirectOk, Count;
      WrapIs(b, c, rs[..|rs| - 1]);
      BagAssoc(Words(c), Files(rs[..|rs| - 1]), multiset{rs[|rs| - 1].file});
    }
  }

  lemma FilesLast(rs: seq<Redirect>, r: Redirect)
    ensures Files(rs + [r]) == Files(rs) + multiset{r.file}
  {
    assert (rs + [r])[..|rs|] == rs;
  }

  lemma {:induction false} FilesAppend(rs: seq<Redirect>, ss: seq<Redirect>)
    ensures Files(rs + ss) == Files(rs) + Files(ss)
    decreases |ss|
  {
    hide Files;
    if ss == [] {
      assert rs + ss == rs;
      FilesNone(rs);
    } else {
      var last := |ss| - 1;
      var init, r := ss[..last], ss[last];
      FilesAppend(rs, init);
      FilesLast(rs + init, r);
      FilesLast(init, r);
      assert rs + ss == rs + init + [r] && ss == init + [r];
      BagAssoc(Files(rs), Files(init), multiset{r.file});
    }
  }

  lemma FilesNone(rs: seq<Redirect>)
    ensures Files(rs) == Files(rs) + Files([])
  {
  }

  lemma BagAssoc(x: multiset<Word>, y: multiset<Word>, z: multiset<Word>)
    ensures x + y + z == x + (y + z)
  {
  }

  /** Redirections alone account for the line from lo to hi. */
  ghost predicate Redirections(b: seq<char>, rs: seq<Redirect>, lo: int, hi: int) {
    && 0 <= lo <= hi < |b| && OfLine(b, lo, hi) == NoTally().(words := Files(rs))
    && forall i :: 0 <= i < |rs| ==> RedirectOk(b, rs[i])
  }

  /** One redirection: its sign, then its file. */
  lemma RedirectStep(b: seq<char>, rs: seq<Redirect>, lo: int, p: int, t: char, q: int, e: int, m: int, q': int,
                     e': int, hi: int)
    requires Between(b, lo) && Between(b, p) && Redirections(b, rs, lo, p)
    requires Token(b, p, t, q, e, m) && t in "<>+" && Token(b, m, 'a', q', e', hi)
    ensures Between(b, hi) && Redirections(b, rs + [RedirectFor(t, (q', e'))], lo, hi)
  {
    hide OfLine, Before, Files, Token;
    var r := RedirectFor(t, (q', e'));
    var more := rs + [r];
    TokenAfter(b, p, t, q, e, m);
    TokenAfter(b, m, 'a', q', e', hi);
    TokenTally(b, p, t, q, e, m);
    TokenTally(b, m, 'a', q', e', hi);
    LineSplit(b, lo, p, m);
    LineSplit(b, lo, m, hi);
    FilesLast(rs, r);
    SignBefore(b, p, t, q, e, m, q', e', hi);
    forall i | 0 <= i < |more| ensures RedirectOk(b, more[i]) {
      if i < |rs| { assert more[i] == rs[i]; }
    }
  }

  lemma SignBefore(b: seq<char>, p: int, t: char, q: int, e: int, m: int, q': int, e': int, hi: int)
    requires Between(b, p) && Token(b, p, t, q, e, m) && t in "<>+" && Token(b, m, 'a', q', e', hi)
    ensures RedirectOk(b, RedirectFor(t, (q', e')))
  {
    hide OfLine, Before;
    TokenTally(b, p, t, q, e, m);
    TokenTally(b, m, 'a', q', e', hi);
  }

  lemma RedirectionsSpaces(b: seq<char>, rs: seq<Redirect>, lo: int, p: int, hi: int)
    requires Between(b, lo) && Between(b, p) && Redirections(b, rs, lo, p) && Spaces(b, p, hi) && hi < |b|
    ensures Between(b, hi) && Redirections(b, rs, lo, hi)
  {
    hide OfLine, Before;
    LineSpaces(b, p, hi);
    LineSplit(b, lo, p, hi);
  }

  lemma NoRedirections(b: seq<char>, p: int)
    requires Between(b, p)
    ensures Redirections(b, [], p, p)
  {
    LineSpaces(b, p, p);
  }

  /** parseredirs(): the redirections it puts around its command. */
  method ParseRedirs(b: seq<char>, ps: int) returns (ok: bool, rs: seq<Redirect>, p: int)
    requires Between(b, ps)
    ensures ok ==> ps <= p < |b| && Between(b, p) && Redirections(b, rs, ps, p)
    ensures PRedirs(Toks(b, ps)) == if ok then Parsed(rs, Toks(b, p)) else Fail
  {
    hide Redirections, PRedirs, Toks, Before, Token;
    rs := [];
    NoRedirections(b, ps);
    var found, p0 := Peek(b, ps, "<>");
    RedirectionsSpaces(b, rs, ps, ps, p0);
    PeekToks(b, ps, p0);
    p := p0;
    PrependNone(PRedirs(Toks(b, p)));
    while found
      invariant ps <= p < |b| && Between(b, p) && Redirections(b, rs, ps, p)
      invariant found <==> b[p] in "<>"
      invariant found <==> Toks(b, p) != [] && IsSign(Toks(b, p)[0])
      invariant PRedirs(Toks(b, ps)) == Prepend(rs, PRedirs(Toks(b, p)))
      decreases |b| - p, found
    {
      var t, q, e, m := GetToken(b, p);
      TokenTally(b, p, t, q, e, m);
      RedirectSign(b, p, t, q, e, m);
      TokenToks(b, p, t, q, e, m);
      var t', q', e', hi := GetToken(b, m);
      TokenToks(b, m, t', q', e', hi);
      TokenAfter(b, m, t', q', e', hi);
      SignUnfold(b, t, q, e, m, t', q', e', hi, Toks(b, p));
      if t' != 'a' {
        return false, rs, p;
      }
      RedirectStep(b, rs, ps, p, t, q, e, m, q', e', hi);
      PrependMore(rs, RedirectFor(t, (q', e')), PRedirs(Toks(b, hi)));
      rs := rs + [RedirectFor(t, (q', e'))];
      found, p := Peek(b, hi, "<>");
      PeekToks(b, hi, p);
      RedirectionsSpaces(b, rs, ps, hi, p);
    }
    RedirsStop(Toks(b, p), rs);
    ok := true;
  }

  lemma PrependNone(r: Parsed<seq<Redirect>>)
    ensures Prepend([], r) == r
  {
    if r.Parsed? { assert [] + r.value == r.value; }
  }

  lemma PrependMore(rs: seq<Redirect>, x: Redirect, r: Parsed<seq<Redirect>>)
    ensures Prepend(rs, Prepend([x], r)) == Prepend(rs + [x], r)
  {
    if r.Parsed? { Assoc(rs, [x], r.value); }
  }

  lemma RedirsStop(ts: seq<Tok>, rs: seq<Redirect>)
    requires ts == [] || !IsSign(ts[0])
    ensures Prepend(rs, PRedirs(ts)) == Parsed(rs, ts)
  {
    assert rs + [] == rs;
  }

  /** A sign and the token behind it, as the token parser takes them. */
  lemma SignUnfold(b: seq<char>, t: char, q: int, e: int, m: int, t': char, q': int, e': int, hi: int, ts: seq<Tok>)
    requires CString(b) && 0 <= m < |b| && 0 <= hi < |b| && t in "<>+" && ts == [TokOf(t, q, e)] + Toks(b, m)
    requires Toks(b, m) == if t' == '\0' then [] else [TokOf(t', q', e')] + Toks(b, hi)
    ensures PRedirs(ts) == if t' == 'a' then Prepend([RedirectFor(t, (q', e'))], PRedirs(Toks(b, hi))) else Fail
  {
    hide Toks;
    assert ts[0] == Sym(t);
    if t' == 'a' {
      assert ts[1] == Text((q', e')) && ts[2..] == Toks(b, hi);
    }
  }

  lemma RedirectSign(b: seq<char>, p: int, t: char, q: int, e: int, m: int)
    requires CString(b) && Token(b, p, t, q, e, m) && p < |b| - 1 && b[p] in "<>"
    ensures t in "<>+"
  {
    SymbolHere(b, p, t, q, e, m);
  }

  lemma SymbolHere(b: seq<char>, p: int, t: char, q: int, e: int, m: int)
    requires CString(b) && Token(b, p, t, q, e, m) && p < |b| - 1 && IsSymbol(b[p])
    ensures t == b[p] || (t == '+' && b[p] == '>')
  {
    assert !IsSpace(b[p]);
    assert q == p;
    Inside(b, q, e, q);
  }

  // ---------------------------------------------------------------- commands

  /** Arguments and redirections account for the line from lo to hi. */
  ghost predicate Simple(b: seq<char>, args: seq<Word>, rs: seq<Redirect>, lo: int, hi: int) {
    && 0 <= lo <= hi < |b| && OfLine(b, lo, hi) == NoTally().(words := multiset(args) + Files(rs))
    && (forall i :: 0 <= i < |rs| ==> RedirectOk(b, rs[i]))
    && (forall i :: 0 <= i < |args| ==> ArgOk(b, args[i]) && args[i].1 <= hi)
    && (forall i, j :: 0 <= i < j < |args| ==> args[i].1 <= args[j].0)
  }

  lemma SimpleArg(b: seq<char>, args: seq<Word>, rs: seq<Redirect>, lo: int, p: int, q: int, e: int, hi: int)
    requires Between(b, lo) && Between(b, p) && Simple(b, args, rs, lo, p) && Token(b, p, 'a', q, e, hi)
    ensures Between(b, hi) && Simple(b, args + [(q, e)], rs, lo, hi)
  {
    hide OfLine, Before, Files;
    TokenTally(b, p, 'a', q, e, hi);
    LineSplit(b, lo, p, hi);
    assert multiset(args + [(q, e)]) == multiset(args) + multiset{(q, e)};
    assert ArgOk(b, (q, e));
  }

  lemma SimpleRedirs(b: seq<char>, args: seq<Word>, rs: seq<Redirect>, ss: seq<Redirect>, lo: int, p: int, hi: int)
    requires Between(b, lo) && Between(b, p) && Simple(b, args, rs, lo, p) && p <= hi && Redirections(b, ss, p, hi)
    ensures Simple(b, args, rs + ss, lo, hi)
  {
    hide OfLine, Before, Files;
    LineSplit(b, lo, p, hi);
    FilesAppend(rs, ss);
    assert multiset(args) + Files(rs) + Files(ss) == multiset(args) + Files(rs + ss);
    forall i | 0 <= i < |rs + ss| ensures RedirectOk(b, (rs + ss)[i]) {
    }
  }

  lemma SimpleSpaces(b: seq<char>, args: seq<Word>, rs: seq<Redirect>, lo: int, p: int, hi: int)
    requires Between(b, lo) && Between(b, p) && Simple(b, args, rs, lo, p) && Spaces(b, p, hi) && hi < |b|
    ensures Between(b, hi) && Simple(b, args, rs, lo, hi)
  {
    hide OfLine, Before, Files;
    LineSpaces(b, p, hi);
    LineSplit(b, lo, p, hi);
  }

  lemma SimpleStart(b: seq<char>, rs: seq<Redirect>, lo: int, hi: int)
    requires Redirections(b, rs, lo, hi)
    ensures Simple(b, [], rs, lo, hi)
  {
    assert multiset([]) + Files(rs) == Files(rs);
  }

  lemma SimpleReads(b: seq<char>, args: seq<Word>, rs: seq<Redirect>, lo: int, hi: int)
    requires Simple(b, args, rs, lo, hi) && |args| < MAXARGS
    ensures Reads(b, Wrap(Exec(args), rs), lo, hi)
  {
    WrapIs(b, Exec(args), rs);
  }

  lemma ReadsSpaces(b: seq<char>, c: Cmd, lo: int, p: int, hi: int)
    requires Between(b, lo) && Between(b, p) && Reads(b, c, lo, p) && Spaces(b, p, hi) && hi < |b|
    ensures Between(b, hi) && Reads(b, c, lo, hi)
  {
    hide OfLine, Before, OfCmd, Formed;
    LineSpaces(b, p, hi);
    LineSplit(b, lo, p, hi);
  }

  lemma ReadsRedirs(b: seq<char>, c: Cmd, rs: seq<Redirect>, lo: int, p: int, hi: int)
    requires Between(b, lo) && Between(b, p) && Reads(b, c, lo, p) && p <= hi && Redirections(b, rs, p, hi)
    ensures Reads(b, Wrap(c, rs), lo, hi)
  {
    hide OfLine, Before, Formed, Words, PipeCount, ListCount, BackCount;
    LineSplit(b, lo, p, hi);
    WrapIs(b, c, rs);
  }

  /** Words of an earlier stretch precede those of a later one. */
  lemma BagsPrecede(b: seq<char>, lo: int, m: int, n: int, hi: int)
    requires m <= n
    ensures Precede(WordBag(b, lo, m), WordBag(b, n, hi))
  {
  }

  ghost predicate Joins(c: Cmd, l: Cmd, r: Cmd, t: char) {
    (t == '|' && c == Pipe(l, r)) || (t == ';' && c == List(l, r))
  }

  /** left operator right. */
  lemma ReadsJoin(b: seq<char>, l: Cmd, r: Cmd, c: Cmd, lo: int, p: int, t: char, q: int, e: int, m: int, hi: int)
    requires Between(b, lo) && Between(b, p) && Between(b, m) && Reads(b, l, lo, p) && Token(b, p, t, q, e, m)
    requires m <= hi && Reads(b, r, m, hi) && Joins(c, l, r, t)
    ensures Reads(b, c, lo, hi)
  {
    hide OfLine, Before, Formed, OfCmd, Token;
    TokenTally(b, p, t, q, e, m);
    TokenAfter(b, p, t, q, e, m);
    LineSplit(b, lo, p, m);
    LineSplit(b, lo, m, hi);
    LineWords(b, lo, p);
    LineWords(b, m, hi);
    BagsPrecede(b, lo, p, m, hi);
    JoinTally(c, l, r, t, q, e);
    JoinFormed(b, c, l, r, t);
  }

  lemma TokenAfter(b: seq<char>, lo: int, t: char, q: int, e: int, hi: int)
    requires Token(b, lo, t, q, e, hi)
    ensures lo <= hi < |b|
  {
  }

  lemma JoinTally(c: Cmd, l: Cmd, r: Cmd, t: char, q: int, e: int)
    requires Joins(c, l, r, t)
    ensures OfCmd(c) == OfCmd(l).Plus(OfToken(t, q, e)).Plus(OfCmd(r)) && OfCmd(l).words == Words(l)
    ensures OfCmd(r).words == Words(r)
  {
    hide Words, PipeCount, ListCount, BackCount;
    if t == '|' { PipeCounts(l, r); } else { ListCounts(l, r); }
    assert Words(l) + multiset{} + Words(r) == Words(l) + Words(r);
  }

  lemma PipeCounts(l: Cmd, r: Cmd)
    ensures OfCmd(Pipe(l, r)) ==
      Tally(Words(l) + Words(r), PipeCount(l) + PipeCount(r) + 1,
            ListCount(l) + ListCount(r), BackCount(l) + BackCount(r))
  {
  }

  lemma ListCounts(l: Cmd, r: Cmd)
    ensures OfCmd(List(l, r)) ==
      Tally(Words(l) + Words(r), PipeCount(l) + PipeCount(r),
            ListCount(l) + ListCount(r) + 1, BackCount(l) + BackCount(r))
  {
  }

  lemma JoinFormed(b: seq<char>, c: Cmd, l: Cmd, r: Cmd, t: char)
    requires Joins(c, l, r, t) && Formed(b, l) && Formed(b, r) && Precede(Words(l), Words(r))
    ensures Formed(b, c)
  {
    hide Precede, ArgOk, RedirectOk, Words;
  }

  lemma LineWords(b: seq<char>, lo: int, hi: int)
    requires 0 <= lo <= hi <= |b|
    ensures OfLine(b, lo, hi).words == WordBag(b, lo, hi)
  {
  }

  lemma ReadsBack(b: seq<char>, c: Cmd, lo: int, p: int, q: int, e: int, hi: int)
    requires Between(b, lo) && Between(b, p) && Reads(b, c, lo, p) && Token(b, p, '&', q, e, hi)
    ensures Between(b, hi) && Reads(b, Back(c), lo, hi)
  {
    hide OfLine, Before;
    TokenTally(b, p, '&', q, e, hi);
    LineSplit(b, lo, p, hi);
  }

  lemma ReadsBlock(b: seq<char>, c: Cmd, lo: int, q: int, e: int, m: int, p: int, q': int, e': int, hi: int)
    requires Between(b, lo) && Token(b, lo, '(', q, e, m) && Between(b, m) && m <= p && Reads(b, c, m, p)
    requires Between(b, p)
    requires Token(b, p, ')', q', e', hi)
    ensures Between(b, hi) && Reads(b, c, lo, hi)
  {
    hide OfLine, Before, OfCmd, Formed;
    TokenTally(b, lo, '(', q, e, m);
    TokenTally(b, p, ')', q', e', hi);
    LineSplit(b, lo, m, p);
    LineSplit(b, lo, p, hi);
  }

  /** The token is the symbol that peek() saw. */
  lemma PeekedToken(b: seq<char>, p: int, t: char, q: int, e: int, m: int)
    requires CString(b) && Token(b, p, t, q, e, m) && p < |b| - 1 && b[p] in "|();&"
    ensures t == b[p] && p < m && (Between(b, p) ==> Between(b, m))
  {
    SymbolHere(b, p, t, q, e, m);
    if Between(b, p) { TokenTally(b, p, t, q, e, m); }
    hide Before;
  }

  /** A command parser's result is that of the parser on tokens. */
  ghost predicate Agrees(b: seq<char>, r: Result, p: int, x: Parsed<Cmd>)
    requires CString(b)
  {
    if r.Ok? then 0 <= p < |b| && x == Parsed(r.cmd, Toks(b, p)) else x == Fail
  }

  /** parseexec(). */
  method ParseExec(b: seq<char>, ps: int) returns (r: Result, p: int)
    requires Between(b, ps)
    ensures r.Ok? ==> ps <= p < |b| && Between(b, p) && Reads(b, r.cmd, ps, p)
    ensures Agrees(b, r, p, PExec(Toks(b, ps)))
    decreases |b| - ps, 1
  {
    hide Simple, Redirections, Reads, PRedirs, PArgs, PBlock, PExec, Toks, Before, Token;
    var block, p0 := Peek(b, ps, "(");
    PeekToks(b, ps, p0);
    ExecUnfold(Toks(b, ps));
    if block {
      r, p := ParseBlock(b, ps);
      return;
    }
    LineSpaces(b, ps, p0);
    var args: seq<Word> := [];
    var ok, rs, p1 := ParseRedirs(b, ps);
    if !ok {
      return Panic, ps;
    }
    SimpleStart(b, rs, ps, p1);
    var stop, p2 := Peek(b, p1, "|)&;");
    PeekToks(b, p1, p2);
    SimpleSpaces(b, args, rs, ps, p1, p2);
    p := p2;
    while !stop
      invariant ps <= p < |b| && Between(b, p) && Simple(b, args, rs, ps, p) && |args| < MAXARGS
      invariant stop ==> Toks(b, p) != [] && IsStop(Toks(b, p)[0])
      invariant !stop ==> Toks(b, p) == [] || !IsStop(Toks(b, p)[0])
      invariant PExec(Toks(b, ps)) == PArgs(Toks(b, p), args, rs)
      decreases |b| - p, !stop
    {
      var t, q, e, m := GetToken(b, p);
      TokenToks(b, p, t, q, e, m);
      TokenAfter(b, p, t, q, e, m);
      ArgsUnfold(b, t, q, e, m, Toks(b, p), args, rs);
      if t == '\0' {
        break;
      }
      if t != 'a' {
        return Panic, p;
      }
      SimpleArg(b, args, rs, ps, p, q, e, m);
      args := args + [(q, e)];
      if |args| >= MAXARGS {
        return Panic, p;
      }
      var ok', ss, p' := ParseRedirs(b, m);
      if !ok' {
        return Panic, p;
      }
      SimpleRedirs(b, args, rs, ss, ps, m, p');
      rs := rs + ss;
      stop, p := Peek(b, p', "|)&;");
      PeekToks(b, p', p);
      SimpleSpaces(b, args, rs, ps, p', p);
    }
    ArgsEnd(Toks(b, p), args, rs);
    SimpleReads(b, args, rs, ps, p);
    r := Ok(Wrap(Exec(args), rs));
  }

  lemma ExecUnfold(ts: seq<Tok>)
    ensures PExec(ts) == if Starts(ts, '(') then PBlock(ts) else if PRedirs(ts) == Fail then Fail
      else PArgs(PRedirs(ts).rest, [], PRedirs(ts).value)
  {
    hide PBlock, PRedirs, PArgs;
  }

  lemma ArgsEnd(ts: seq<Tok>, args: seq<Word>, rs: seq<Redirect>)
    requires ts == [] || IsStop(ts[0])
    ensures PArgs(ts, args, rs) == Parsed(Wrap(Exec(args), rs), ts)
  {
  }

  lemma ArgsUnfold(b: seq<char>, t: char, q: int, e: int, m: int, ts: seq<Tok>, args: seq<Word>, rs: seq<Redirect>)
    requires CString(b) && 0 <= m < |b| && ts == (if t == '\0' then [] else [TokOf(t, q, e)] + Toks(b, m))
    requires ts == [] || !IsStop(ts[0])
    ensures t != '\0' && (t != 'a' || |args| + 1 >= MAXARGS) ==> PArgs(ts, args, rs) == Fail
    ensures t == 'a' && |args| + 1 < MAXARGS ==>
      PArgs(ts, args, rs) == var more := PRedirs(Toks(b, m)); if more == Fail then Fail
        else PArgs(more.rest, args + [(q, e)], rs + more.value)
  {
    hide Toks, PRedirs, Wrap;
    if t != '\0' { assert ts[0] == TokOf(t, q, e) && ts[1..] == Toks(b, m); }
  }

  /** parseblock(). */
  method ParseBlock(b: seq<char>, ps: int) returns (r: Result, p: int)
    requires Between(b, ps)
    ensures r.Ok? ==> ps <= p < |b| && Between(b, p) && Reads(b, r.cmd, ps, p)
    ensures Agrees(b, r, p, PBlock(Toks(b, ps)))
    decreases |b| - ps, 0
  {
    hide Redirections, Reads, PRedirs, PLine, PBlock, Toks, Before, Token;
    var open, p0 := Peek(b, ps, "(");
    PeekToks(b, ps, p0);
    if !open {
      BlockNeeds(Toks(b, ps));
      return Panic, ps;
    }
    LineSpaces(b, ps, p0);
    var t, q, e, m := GetToken(b, p0);
    PeekedToken(b, p0, t, q, e, m);
    TokenToks(b, p0, t, q, e, m);
    r, p := ParseLine(b, m);
    BlockStep(Toks(b, ps), Toks(b, m));
    if r == Panic {
      return;
    }
    var closed, p1 := Peek(b, p, ")");
    PeekToks(b, p, p1);
    if !closed {
      return Panic, p;
    }
    ReadsSpaces(b, r.cmd, m, p, p1);
    var t', q', e', p2 := GetToken(b, p1);
    PeekedToken(b, p1, t', q', e', p2);
    TokenToks(b, p1, t', q', e', p2);
    ReadsBlock(b, r.cmd, p0, q, e, m, p1, q', e', p2);
    var ok, rs, p3 := ParseRedirs(b, p2);
    BlockEnd(Toks(b, ps), Toks(b, m), Toks(b, p2));
    if !ok {
      return Panic, p;
    }
    ReadsRedirs(b, r.cmd, rs, p0, p2, p3);
    ReadsAfterSpaces(b, Wrap(r.cmd, rs), ps, p0, p3);
    r, p := Ok(Wrap(r.cmd, rs)), p3;
  }

  lemma BlockNeeds(ts: seq<Tok>)
    requires !Starts(ts, '(')
    ensures PBlock(ts) == Fail
  {
  }

  lemma BlockStep(ts: seq<Tok>, inner: seq<Tok>)
    requires ts == [Sym('(')] + inner
    ensures PLine(inner) == Fail || !Starts(PLine(inner).rest, ')') ==> PBlock(ts) == Fail
  {
    hide PLine, PRedirs;
    assert ts[1..] == inner;
  }

  lemma BlockEnd(ts: seq<Tok>, inner: seq<Tok>, behind: seq<Tok>)
    requires ts == [Sym('(')] + inner && PLine(inner).Parsed? && PLine(inner).rest == [Sym(')')] + behind
    ensures PBlock(ts) == if PRedirs(behind) == Fail then Fail
      else Parsed(Wrap(PLine(inner).value, PRedirs(behind).value), PRedirs(behind).rest)
  {
    hide PLine, PRedirs, Wrap;
    assert ts[1..] == inner && PLine(inner).rest[1..] == behind;
  }

  lemma ReadsAfterSpaces(b: seq<char>, c: Cmd, lo: int, p: int, hi: int)
    requires Between(b, lo) && Between(b, p) && Spaces(b, lo, p) && p <= hi && Reads(b, c, p, hi)
    ensures Reads(b, c, lo, hi)
  {
    hide OfLine, Before, OfCmd, Formed;
    LineSpaces(b, lo, p);
    LineSplit(b, lo, p, hi);
  }

  /** parsepipe(). */
  method ParsePipe(b: seq<char>, ps: int) returns (r: Result, p: int)
    requires Between(b, ps)
    ensures r.Ok? ==> ps <= p < |b| && Between(b, p) && Reads(b, r.cmd, ps, p)
    ensures Agrees(b, r, p, PPipe(Toks(b, ps)))
    decreases |b| - ps, 2
  {
    hide Reads, PExec, PPipe, Toks, Before, Token;
    r, p := ParseExec(b, ps);
    PipeUnfold(Toks(b, ps));
    if r == Panic {
      return;
    }
    var found, p1 := Peek(b, p, "|");
    PeekToks(b, p, p1);
    ReadsSpaces(b, r.cmd, ps, p, p1);
    if found {
      var t, q, e, m := GetToken(b, p1);
      PeekedToken(b, p1, t, q, e, m);
      TokenToks(b, p1, t, q, e, m);
      assert Toks(b, p1)[1..] == Toks(b, m);
      var right, hi := ParsePipe(b, m);
      if right == Panic {
        return Panic, p;
      }
      ReadsJoin(b, r.cmd, right.cmd, Pipe(r.cmd, right.cmd), ps, p1, t, q, e, m, hi);
      return Ok(Pipe(r.cmd, right.cmd)), hi;
    }
    p := p1;
  }

  lemma PipeUnfold(ts: seq<Tok>)
    ensures PPipe(ts) ==
      var left := PExec(ts);
      if left == Fail || !Starts(left.rest, '|') then left
      else if PPipe(left.rest[1..]) == Fail then Fail
      else Parsed(Pipe(left.value, PPipe(left.rest[1..]).value), PPipe(left.rest[1..]).rest)
  {
    hide PExec;
  }

  /** parseline(). */
  method ParseLine(b: seq<char>, ps: int) returns (r: Result, p: int)
    requires Between(b, ps)
    ensures r.Ok? ==> ps <= p < |b| && Between(b, p) && Reads(b, r.cmd, ps, p)
    ensures Agrees(b, r, p, PLine(Toks(b, ps)))
    decreases |b| - ps, 3
  {
    hide Reads, PPipe, PLine, PAmps, Toks, Before, Token;
    r, p := ParsePipe(b, ps);
    LineUnfold(Toks(b, ps));
    if r == Panic {
      return;
    }
    ghost var left := PAmps(Toks(b, p), r.cmd);
    var amp, p1 := Peek(b, p, "&");
    PeekToks(b, p, p1);
    ReadsSpaces(b, r.cmd, ps, p, p1);
    p := p1;
    while amp
      invariant r.Ok? && ps <= p < |b| && Between(b, p) && Reads(b, r.cmd, ps, p)
      invariant (amp <==> b[p] == '&') && (amp <==> Starts(Toks(b, p), '&'))
      invariant left == PAmps(Toks(b, p), r.cmd)
      decreases |b| - p, amp
    {
      var t, q, e, m := GetToken(b, p);
      PeekedToken(b, p, t, q, e, m);
      TokenToks(b, p, t, q, e, m);
      AmpStep(Toks(b, p), Toks(b, m), r.cmd);
      ReadsBack(b, r.cmd, ps, p, q, e, m);
      r := Ok(Back(r.cmd));
      amp, p := Peek(b, m, "&");
      PeekToks(b, m, p);
      ReadsSpaces(b, r.cmd, ps, m, p);
    }
    AmpEnd(Toks(b, p), r.cmd);
    var semi, p2 := Peek(b, p, ";");
    PeekToks(b, p, p2);
    ReadsSpaces(b, r.cmd, ps, p, p2);
    if semi {
      var t, q, e, m := GetToken(b, p2);
      PeekedToken(b, p2, t, q, e, m);
      TokenToks(b, p2, t, q, e, m);
      assert Toks(b, p2)[1..] == Toks(b, m);
      var right, hi := ParseLine(b, m);
      if right == Panic {
        return Panic, p;
      }
      ReadsJoin(b, r.cmd, right.cmd, List(r.cmd, right.cmd), ps, p2, t, q, e, m, hi);
      return Ok(List(r.cmd, right.cmd)), hi;
    }
    p := p2;
  }

  lemma LineUnfold(ts: seq<Tok>)
    ensures PPipe(ts) == Fail ==> PLine(ts) == Fail
    ensures PPipe(ts).Parsed? ==>
      PLine(ts) == var left := PAmps(PPipe(ts).rest, PPipe(ts).value);
        if !Starts(left.rest, ';') then left
        else if PLine(left.rest[1..]) == Fail then Fail
        else Parsed(List(left.value, PLine(left.rest[1..]).value), PLine(left.rest[1..]).rest)
  {
    hide PPipe, PAmps;
  }

  lemma AmpStep(ts: seq<Tok>, more: seq<Tok>, c: Cmd)
    requires ts == [Sym('&')] + more
    ensures PAmps(ts, c) == PAmps(more, Back(c))
  {
    assert ts[1..] == more;
  }

  lemma AmpEnd(ts: seq<Tok>, c: Cmd)
    requires !Starts(ts, '&')
    ensures PAmps(ts, c) == Parsed(c, ts)
  {
  }

  // ---------------------------------------------------------------- terminating the words in place

  /** w is recorded in c. */
  ghost predicate Records(c: Cmd, w: Word) {
    w in Words(c)
  }

  ghost predicate EndsAt(c: Cmd, i: int) {
    exists w :: Records(c, w) && w.1 == i
  }

  ghost predicate InLine(c: Cmd, n: int) {
    forall w :: Records(c, w) ==> 0 <= w.1 < n
  }

  /** t is s with a NUL at the end of every word of c. */
  ghost predicate Cut(s: seq<char>, t: seq<char>, c: Cmd) {
    |t| == |s| && forall i :: 0 <= i < |s| ==> t[i] == if EndsAt(c, i) then '\0' else s[i]
  }

  lemma CutTwo(s: seq<char>, t: seq<char>, u: seq<char>, l: Cmd, r: Cmd, c: Cmd)
    requires Cut(s, t, l) && Cut(t, u, r) && (c == Pipe(l, r) || c == List(l, r))
    ensures Cut(s, u, c)
  {
    forall i | 0 <= i < |s| ensures EndsAt(c, i) <==> EndsAt(l, i) || EndsAt(r, i) {
      EndsTwo(l, r, c, i);
    }
    hide EndsAt;
  }

  lemma EndsTwo(l: Cmd, r: Cmd, c: Cmd, i: int)
    requires c == Pipe(l, r) || c == List(l, r)
    ensures EndsAt(c, i) <==> EndsAt(l, i) || EndsAt(r, i)
  {
    if w :| Records(l, w) && w.1 == i { assert Records(c, w); }
    if w :| Records(r, w) && w.1 == i { assert Records(c, w); }
    if w :| Records(c, w) && w.1 == i { assert Records(l, w) || Records(r, w); }
  }

  lemma CutBack(s: seq<char>, t: seq<char>, d: Cmd)
    requires Cut(s, t, d)
    ensures Cut(s, t, Back(d))
  {
    forall i | 0 <= i < |s| ensures EndsAt(Back(d), i) <==> EndsAt(d, i) {
      EndsBack(d, i);
    }
    hide EndsAt;
  }

  lemma EndsBack(d: Cmd, i: int)
    ensures EndsAt(Back(d), i) <==> EndsAt(d, i)
  {
    if w :| Records(d, w) && w.1 == i { assert Records(Back(d), w); }
    if w :| Records(Back(d), w) && w.1 == i { assert Records(d, w); }
  }

  lemma CutRedir(s: seq<char>, t: seq<char>, d: Cmd, r: Redirect)
    requires Cut(s, t, d) && 0 <= r.file.1 < |s|
    ensures Cut(s, t[r.file.1 := '\0'], Redir(d, r))
  {
    forall i | 0 <= i < |s| ensures EndsAt(Redir(d, r), i) <==> EndsAt(d, i) || i == r.file.1 {
      EndsRedir(d, r, i);
    }
    hide EndsAt;
  }

  lemma EndsRedir(d: Cmd, r: Redirect, i: int)
    ensures EndsAt(Redir(d, r), i) <==> EndsAt(d, i) || i == r.file.1
  {
    var c := Redir(d, r);
    if w :| Records(d, w) && w.1 == i { assert Records(c, w); }
    if w :| Records(c, w) && w.1 == i { assert Records(d, w) || w == r.file; }
    if i == r.file.1 { assert Records(c, r.file); }
  }

  lemma CutArg(s: seq<char>, t: seq<char>, args: seq<Word>, k: int)
    requires 0 <= k < |args| && Cut(s, t, Exec(args[..k])) && 0 <= args[k].1 < |s|
    ensures Cut(s, t[args[k].1 := '\0'], Exec(args[..k + 1]))
  {
    forall i | 0 <= i < |s| ensures EndsAt(Exec(args[..k + 1]), i) <==> EndsAt(Exec(args[..k]), i) || i == args[k].1 {
      EndsArg(args, k, i);
    }
    hide EndsAt;
  }

  lemma EndsArg(args: seq<Word>, k: int, i: int)
    requires 0 <= k < |args|
    ensures EndsAt(Exec(args[..k + 1]), i) <==> EndsAt(Exec(args[..k]), i) || i == args[k].1
  {
    var c, d := Exec(args[..k]), Exec(args[..k + 1]);
    assert args[..k + 1] == args[..k] + [args[k]];
    if w :| Records(c, w) && w.1 == i { assert Records(d, w); }
    if w :| Records(d, w) && w.1 == i { assert Records(c, w) || w == args[k]; }
    if i == args[k].1 { assert Records(d, args[k]); }
  }

  /** nulterminate(). */
  method NulTerminate(line: array<char>, c: Cmd)
    requires InLine(c, line.Length)
    modifies line
    ensures Cut(old(line[..]), line[..], c)
    decreases c
  {
    hide Cut;
    ghost var s := line[..];
    match c {
      case Exec(args) =>
        NoArgs(s);
        assert args[..0] == [];
        var i := 0;
        while i < |args|
          invariant 0 <= i <= |args| && Cut(s, line[..], Exec(args[..i]))
        {
          assert Records(c, args[i]);
          CutArg(s, line[..], args, i);
          ghost var t := line[..];
          line[args[i].1] := '\0';
          assert line[..] == t[args[i].1 := '\0'];
          i := i + 1;
        }
        assert args[..i] == args;
      case Redir(d, r) =>
        SubWords(c, d, d);
        assert Records(c, r.file);
        NulTerminate(line, d);
        CutRedir(s, line[..], d, r);
        ghost var t := line[..];
        line[r.file.1] := '\0';
        assert line[..] == t[r.file.1 := '\0'];
      case Pipe(l, r) =>
        SubWords(c, l, r);
        NulTerminate(line, l);
        ghost var t := line[..];
        NulTerminate(line, r);
        CutTwo(s, t, line[..], l, r, c);
      case List(l, r) =>
        SubWords(c, l, r);
        NulTerminate(line, l);
        ghost var t := line[..];
        NulTerminate(line, r);
        CutTwo(s, t, line[..], l, r, c);
      case Back(d) =>
        SubWords(c, d, d);
        NulTerminate(line, d);
        CutBack(s, line[..], d);
    }
  }

  lemma SubWords(c: Cmd, d: Cmd, e: Cmd)
    requires c == Pipe(d, e) || c == List(d, e) || (d == e && (c == Back(d) || (c.Redir? && c.cmd == d)))
    ensures forall w :: Records(d, w) || Records(e, w) ==> Records(c, w)
  {
  }

  lemma NoArgs(s: seq<char>)
    ensures Cut(s, s, Exec([]))
  {
  }

  /** In the cut line the word w reads back as it was written. */
  ghost predicate StandsAlone(s: seq<char>, t: seq<char>, w: Word) {
    0 <= w.0 < w.1 < |s| == |t| && t[w.0..w.1] == s[w.0..w.1] && t[w.1] == '\0' && '\0' !in t[w.0..w.1]
  }

  /** Words end where no word has a character, so cutting them leaves every word whole. */
  lemma CutKeepsWords(s: seq<char>, t: seq<char>, c: Cmd, w: Word)
    requires CString(s) && Reads(s, c, 0, |s| - 1) && Cut(s, t, c) && Records(c, w)
    ensures StandsAlone(s, t, w) && IsWord(s, w.0, w.1)
  {
    hide Reads, Records;
    RecordedIsWord(s, c, w);
    forall i | w.0 <= i < w.1 ensures t[i] == s[i] != '\0' {
      Inside(s, w.0, w.1, i);
      NoCutInside(s, c, i);
    }
    assert EndsAt(c, w.1);
  }

  lemma NoCutInside(s: seq<char>, c: Cmd, i: int)
    requires Reads(s, c, 0, |s| - 1)
    ensures InWord(s, i) ==> !EndsAt(c, i)
  {
    hide Reads, Records;
    if v :| Records(c, v) && v.1 == i { RecordedIsWord(s, c, v); }
  }

  lemma RecordedIsWord(s: seq<char>, c: Cmd, w: Word)
    requires Reads(s, c, 0, |s| - 1) && Records(c, w)
    ensures IsWord(s, w.0, w.1)
  {
    LineWords(s, 0, |s| - 1);
    hide Words, Records, Formed;
    assert w in WordBag(s, 0, |s| - 1);
    assert w in WordSet(s, 0, |s| - 1);
  }

  /** parsecmd(): on success the tree reads the whole line, and each of its words is a string of its own. */
  method ParseCmd(line: array<char>) returns (r: Result)
    requires CString(line[..])
    modifies line
    ensures r == Panic ==> line[..] == old(line[..])
    ensures r == Panic <==> forall c :: !Derives(Toks(old(line[..]), 0), c)
    ensures r.Ok? ==> Derives(Toks(old(line[..]), 0), r.cmd)
    ensures r.Ok? ==> Reads(old(line[..]), r.cmd, 0, line.Length - 1)
    ensures r.Ok? ==> forall w :: Records(r.cmd, w) ==> StandsAlone(old(line[..]), line[..], w)
  {
    hide Reads, Cut, Records, PLine, Derives, Toks, Before;
    ghost var s := line[..];
    StartBetween(s);
    forall d ensures PLine(Toks(s, 0)) == Parsed(d, []) <==> Derives(Toks(s, 0), d) {
      ParsesIff(Toks(s, 0), d);
    }
    var c, p := ParseLine(line[..], 0);
    if c == Panic {
      return Panic;
    }
    var _, p1 := Peek(line[..], p, "");
    PeekToks(s, p, p1);
    ReadsSpaces(s, c.cmd, 0, p, p1);
    if p1 != line.Length - 1 {
      return Panic;
    }
    forall w | Records(c.cmd, w) ensures 0 <= w.1 < line.Length {
      RecordedIsWord(s, c.cmd, w);
    }
    NulTerminate(line, c.cmd);
    forall w | Records(c.cmd, w) ensures StandsAlone(s, line[..], w) {
      CutKeepsWords(s, line[..], c.cmd, w);
    }
    r := c;
  }

  lemma StartBetween(s: seq<char>)
    requires CString(s)
    ensures Between(s, 0)
  {
  }
}
