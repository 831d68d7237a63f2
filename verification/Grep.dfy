/**
  The pattern matcher of grep.c.  A pattern is a sequence of single characters and stars, with an
  optional end mark; the methods walk NUL-terminated strings as the program does.
 */
module Grep {
  import opened CStrings

  // ---------------------------------------------------------------- the language of a pattern

  datatype Item = One(c: char) | Star(c: char)

  datatype Pattern = Pattern(items: seq<Item>, atEnd: bool)

  /** What a pattern means: a star binds first, and '$' is an end mark only as the last character. */
  function Parse(p: string): Pattern
    decreases |p|
  {
    if p == [] then Pattern([], false)
    else if |p| > 1 && p[1] == '*' then
      var rest := Parse(p[2..]);
      Pattern([Star(p[0])] + rest.items, rest.atEnd)
    else if p == "$" then Pattern([], true)
    else
      var rest := Parse(p[1..]);
      Pattern([One(p[0])] + rest.items, rest.atEnd)
  }

  predicate Fits(c: char, x: char) {
    c == '.' || c == x
  }

  predicate Piece(it: Item, w: string) {
    match it
    case One(c) => |w| == 1 && Fits(c, w[0])
    case Star(c) => forall i :: 0 <= i < |w| ==> Fits(c, w[i])
  }

  /** cuts divides w into one piece per item. */
  predicate Divides(items: seq<Item>, w: string, cuts: seq<int>) {
    && |cuts| == |items| + 1 && cuts[0] == 0 && cuts[|items|] == |w|
    && (forall i :: 0 <= i < |items| ==> CutAt(items, w, cuts, i))
  }

  predicate CutAt(items: seq<Item>, w: string, cuts: seq<int>, i: int)
    requires 0 <= i < |items| && |cuts| == |items| + 1
  {
    0 <= cuts[i] <= cuts[i + 1] <= |w| && Piece(items[i], w[cuts[i]..cuts[i + 1]])
  }

  ghost predicate Lang(items: seq<Item>, w: string) {
    exists cuts :: Divides(items, w, cuts)
  }

  /** Some prefix of t, all of t under an end mark, is in the language of p. */
  ghost predicate Here(p: string, t: string) {
    exists n :: Prefix(p, t, n)
  }

  ghost predicate Prefix(p: string, t: string, n: int) {
    0 <= n <= |t| && Lang(Parse(p).items, t[..n]) && (Parse(p).atEnd ==> n == |t|)
  }

  /** The whole specification of match(): a match at the start under '^', else anywhere. */
  ghost predicate Matches(re: string, text: string) {
    if re != [] && re[0] == '^' then Here(re[1..], text)
    else exists i :: 0 <= i <= |text| && Here(re, text[i..])
  }

  // ---- unfolding the language

  lemma LangNil(w: string)
    ensures Lang([], w) <==> w == []
  {
    if w == [] { assert Divides([], w, [0]); }
  }

  /** The first item takes the first k characters. */
  ghost predicate First(items: seq<Item>, w: string, k: int)
    requires items != []
  {
    0 <= k <= |w| && Piece(items[0], w[..k]) && Lang(items[1..], w[k..])
  }

  lemma LangCons(items: seq<Item>, w: string)
    requires items != []
    ensures Lang(items, w) <==> exists k :: First(items, w, k)
  {
    if Lang(items, w) {
      var cuts :| Divides(items, w, cuts);
      SplitFirst(items, w, cuts);
    }
    if k :| First(items, w, k) {
      var cuts :| Divides(items[1..], w[k..], cuts);
      JoinFirst(items, w, k, cuts);
    }
  }

  lemma SplitFirst(items: seq<Item>, w: string, cuts: seq<int>)
    requires items != [] && Divides(items, w, cuts)
    ensures First(items, w, cuts[1])
  {
    var k := cuts[1];
    assert CutAt(items, w, cuts, 0);
    var rest := seq(|items|, i requires 0 <= i < |items| => cuts[i + 1] - k);
    var items', w' := items[1..], w[k..];
    assert w[cuts[0]..cuts[1]] == w[..k];
    forall i | 0 <= i < |items'| ensures CutAt(items', w', rest, i) {
      CutBelow(items, w, cuts, i);
    }
    assert Divides(items', w', rest);
  }

  lemma CutBelow(items: seq<Item>, w: string, cuts: seq<int>, i: int)
    requires Divides(items, w, cuts) && 0 <= i < |items| - 1
    ensures 0 <= cuts[1] <= cuts[i + 1] <= cuts[i + 2] <= |w|
    ensures Piece(items[1..][i], w[cuts[1]..][cuts[i + 1] - cuts[1]..cuts[i + 2] - cuts[1]])
  {
    assert CutAt(items, w, cuts, 0) && CutAt(items, w, cuts, i + 1);
    Increasing(items, w, cuts, 1, i + 1);
    assert w[cuts[1]..][cuts[i + 1] - cuts[1]..cuts[i + 2] - cuts[1]] == w[cuts[i + 1]..cuts[i + 2]];
  }

  lemma {:induction false} Increasing(items: seq<Item>, w: string, cuts: seq<int>, i: int, j: int)
    requires Divides(items, w, cuts) && 0 <= i <= j <= |items|
    ensures cuts[i] <= cuts[j]
    decreases j - i
  {
    if i < j {
      Increasing(items, w, cuts, i, j - 1);
      assert CutAt(items, w, cuts, j - 1);
    }
  }

  lemma JoinFirst(items: seq<Item>, w: string, k: int, cuts: seq<int>)
    requires items != [] && 0 <= k <= |w| && Piece(items[0], w[..k]) && Divides(items[1..], w[k..], cuts)
    ensures Lang(items, w)
  {
    var all := [0] + seq(|cuts|, i requires 0 <= i < |cuts| => cuts[i] + k);
    forall i | 0 <= i < |items| ensures CutAt(items, w, all, i) {
      if i == 0 {
        assert w[all[0]..all[1]] == w[..k];
      } else {
        assert CutAt(items[1..], w[k..], cuts, i - 1);
        assert w[all[i]..all[i + 1]] == w[k..][cuts[i - 1]..cuts[i]];
      }
    }
    assert Divides(items, w, all);
  }

  // ---- unfolding a match, case by case as matchhere() tests

  lemma HereNil(t: string)
    ensures Here([], t)
  {
    LangNil(t[..0]);
    assert Prefix([], t, 0);
  }

  lemma HereEnd(t: string)
    ensures Here("$", t) <==> t == []
  {
    LangNil(t[..|t|]);
    if t == [] { assert Prefix("$", t, 0); }
    if n :| Prefix("$", t, n) { LangNil(t[..n]); }
  }

  lemma HereCons(p: string, q: string, it: Item, t: string)
    requires Parse(p) == Pattern([it] + Parse(q).items, Parse(q).atEnd)
    ensures Here(p, t) <==> exists k :: 0 <= k <= |t| && Piece(it, t[..k]) && Here(q, t[k..])
  {
    hide Piece, Lang, Parse;
    if n :| Prefix(p, t, n) {
      var k := HereSplit(p, q, it, t, n);
    }
    if k :| 0 <= k <= |t| && Piece(it, t[..k]) && Here(q, t[k..]) {
      var m :| Prefix(q, t[k..], m);
      HereJoin(p, q, it, t, k, m);
    }
  }

  lemma HereSplit(p: string, q: string, it: Item, t: string, n: int) returns (k: int)
    requires Parse(p) == Pattern([it] + Parse(q).items, Parse(q).atEnd) && Prefix(p, t, n)
    ensures 0 <= k <= n && Piece(it, t[..k]) && Prefix(q, t[k..], n - k) && Here(q, t[k..])
  {
    hide Piece, Lang, Parse;
    var items := Parse(p).items;
    assert items[1..] == Parse(q).items;
    LangCons(items, t[..n]);
    k :| First(items, t[..n], k);
    assert t[..n][..k] == t[..k] && t[..n][k..] == t[k..][..n - k];
    assert Prefix(q, t[k..], n - k);
  }

  lemma HereJoin(p: string, q: string, it: Item, t: string, k: int, m: int)
    requires Parse(p) == Pattern([it] + Parse(q).items, Parse(q).atEnd)
    requires 0 <= k <= |t| && Piece(it, t[..k]) && Prefix(q, t[k..], m)
    ensures Here(p, t)
  {
    hide Piece, Lang, Parse;
    var items := Parse(p).items;
    assert items[1..] == Parse(q).items;
    assert t[..k + m][..k] == t[..k] && t[..k + m][k..] == t[k..][..m];
    assert First(items, t[..k + m], k);
    LangCons(items, t[..k + m]);
    assert Prefix(p, t, k + m);
  }

  lemma HereOne(p: string, t: string)
    requires p != [] && p != "$" && !(|p| > 1 && p[1] == '*')
    ensures Here(p, t) <==> t != [] && Fits(p[0], t[0]) && Here(p[1..], t[1..])
  {
    HereCons(p, p[1..], One(p[0]), t);
    if t != [] && Fits(p[0], t[0]) && Here(p[1..], t[1..]) {
      assert Piece(One(p[0]), t[..1]);
    }
  }

  /** The first k characters fit the starred character and the rest of the pattern matches behind them. */
  ghost predicate StarAt(c: char, q: string, t: string, k: int) {
    0 <= k <= |t| && Piece(Star(c), t[..k]) && Here(q, t[k..])
  }

  lemma HereStar(p: string, t: string)
    requires |p| > 1 && p[1] == '*'
    ensures Here(p, t) <==> exists k :: StarAt(p[0], p[2..], t, k)
  {
    HereCons(p, p[2..], Star(p[0]), t);
    if k :| 0 <= k <= |t| && Piece(Star(p[0]), t[..k]) && Here(p[2..], t[k..]) {
      assert StarAt(p[0], p[2..], t, k);
    }
    if k :| StarAt(p[0], p[2..], t, k) {
      assert 0 <= k <= |t| && Piece(Star(p[0]), t[..k]) && Here(p[2..], t[k..]);
    }
  }

  // ---------------------------------------------------------------- the program

  method MatchHere(re: seq<char>, ri: int, text: seq<char>, ti: int) returns (r: bool)
    requires CString(re) && CString(text) && 0 <= ri < |re| && 0 <= ti < |text|
    ensures r <==> Here(From(re, ri), From(text, ti))
    decreases |re| - ri
  {
    hide Here;
    ghost var p, t := From(re, ri), From(text, ti);
    if re[ri] == '\0' {
      HereNil(t);
      return true;
    }
    if re[ri + 1] == '*' {
      HereStar(p, t);
      assert p[2..] == From(re, ri + 2);
      r := MatchStar(re[ri], re, ri + 2, text, ti);
      return;
    }
    if re[ri] == '$' && re[ri + 1] == '\0' {
      assert p == "$";
      HereEnd(t);
      return text[ti] == '\0';
    }
    HereOne(p, t);
    if text[ti] != '\0' && (re[ri] == '.' || re[ri] == text[ti]) {
      assert p[1..] == From(re, ri + 1) && t[1..] == From(text, ti + 1);
      r := MatchHere(re, ri + 1, text, ti + 1);
      return;
    }
    return false;
  }

  method MatchStar(c: char, re: seq<char>, ri: int, text: seq<char>, ti0: int) returns (r: bool)
    requires CString(re) && CString(text) && 0 <= ri < |re| && 0 <= ti0 < |text|
    ensures r <==> exists k :: StarAt(c, From(re, ri), From(text, ti0), k)
    decreases |re| - ri + 1
  {
    hide Here;
    var ti := ti0;
    ghost var q, t := From(re, ri), From(text, ti0);
    while true
      invariant ti0 <= ti < |text| && Piece(Star(c), t[..ti - ti0])
      invariant forall k :: 0 <= k < ti - ti0 ==> !Here(q, t[k..])
      decreases |text| - ti
    {
      assert t[ti - ti0..] == From(text, ti);
      var here := MatchHere(re, ri, text, ti);
      if here {
        assert StarAt(c, q, t, ti - ti0);
        return true;
      }
      if text[ti] == '\0' {
        break;
      }
      var x := text[ti];
      ti := ti + 1;
      if x != c && c != '.' {
        StarStops(c, q, t, ti - ti0 - 1);
        return false;
      }
    }
    r := false;
  }

  lemma StarStops(c: char, q: string, t: string, j: int)
    requires 0 <= j < |t| && !Fits(c, t[j]) && forall k :: 0 <= k <= j ==> !Here(q, t[k..])
    ensures forall k :: !StarAt(c, q, t, k)
  {
    forall k ensures !StarAt(c, q, t, k) {
      if k > j && k <= |t| { assert t[..k][j] == t[j]; }
    }
  }

  method Match(re: seq<char>, text: seq<char>) returns (r: bool)
    requires CString(re) && CString(text)
    ensures r <==> Matches(From(re, 0), From(text, 0))
  {
    hide Here;
    ghost var p, t := From(re, 0), From(text, 0);
    if re[0] == '^' {
      assert p[1..] == From(re, 1);
      r := MatchHere(re, 1, text, 0);
      return;
    }
    var ti := 0;
    while true
      invariant 0 <= ti < |text| && forall i :: 0 <= i < ti ==> !Here(p, t[i..])
      decreases |text| - ti
    {
      assert t[ti..] == From(text, ti);
      var here := MatchHere(re, 0, text, ti);
      if here {
        return true;
      }
      ti := ti + 1;
      if text[ti - 1] == '\0' {
        break;
      }
    }
    r := false;
  }
}
