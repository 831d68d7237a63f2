/** Path elements: skipelem of fs.c. */
module Paths {
  import opened CStrings

  const DIRSIZ: int := 14

  /** A directory holds the first DIRSIZ characters of a name. */
  function Cut(w: string): string {
    if |w| >= DIRSIZ then w[..DIRSIZ] else w
  }

  /** The end of the element that s starts with. */
  function Stop(s: string): (n: int)
    ensures 0 <= n <= |s| && (forall i :: 0 <= i < n ==> s[i] != '/') && (n < |s| ==> s[n] == '/')
  {
    if s == [] || s[0] == '/' then 0 else 1 + Stop(s[1..])
  }

  /** The elements of a path: maximal stretches without slashes. */
  function Elems(s: string): seq<string>
    decreases |s|
  {
    if s == [] then [] else if s[0] == '/' then Elems(s[1..])
    else [Cut(s[..Stop(s)])] + Elems(s[Stop(s)..])
  }

  lemma ElemsOf(s: string)
    ensures s == [] ==> Elems(s) == []
    ensures s != [] && s[0] == '/' ==> Elems(s) == Elems(s[1..])
    ensures s != [] && s[0] != '/' ==> Elems(s) == [Cut(s[..Stop(s)])] + Elems(s[Stop(s)..])
  {
  }

  /** A name is an element of its own, whole up to DIRSIZ characters. */
  lemma ElemsName(w: string)
    requires w != [] && '/' !in w
    ensures |w| <= DIRSIZ ==> Elems(w) == [w]
    ensures |w| > DIRSIZ ==> Elems(w) == [w[..DIRSIZ]]
  {
    assert forall i :: 0 <= i < |w| ==> w[i] in w;
    StopAll(w);
    ElemsOf(w);
    assert w[..|w|] == w && w[|w|..] == [];
    assert |w| == DIRSIZ ==> w[..DIRSIZ] == w;
  }

  /** A slash separates: elements of the two sides are independent. */
  lemma {:induction false} ElemsJoin(a: string, b: string)
    ensures Elems(a + "/" + b) == Elems(a) + Elems(b)
    decreases |a|
  {
    hide Elems, Cut;
    var s := a + "/" + b;
    ElemsOf(s);
    ElemsOf(a);
    if a == [] {
      assert s[1..] == b;
    } else if a[0] == '/' {
      assert s[1..] == a[1..] + "/" + b;
      ElemsJoin(a[1..], b);
    } else {
      var n := Stop(a);
      StopIs(s, n);
      hide Stop;
      assert s[..n] == a[..n] && s[n..] == a[n..] + "/" + b;
      ElemsJoin(a[n..], b);
    }
  }

  lemma {:induction false} StopIs(s: string, n: int)
    requires 0 <= n < |s| && s[n] == '/' && forall i :: 0 <= i < n ==> s[i] != '/'
    ensures Stop(s) == n
    decreases n
  {
    if n > 0 { StopIs(s[1..], n - 1); }
  }

  lemma StopAll(w: string)
    requires forall i :: 0 <= i < |w| ==> w[i] != '/'
    ensures Stop(w) == |w|
  {
  }

  lemma {:induction false} ElemsSlashes(s: seq<char>, i: int, j: int)
    requires CString(s) && 0 <= i <= j < |s| && forall k :: i <= k < j ==> s[k] == '/'
    ensures Elems(From(s, i)) == Elems(From(s, j))
    decreases j - i
  {
    if i < j {
      assert From(s, i)[1..] == From(s, i + 1);
      ElemsSlashes(s, i + 1, j);
    }
  }

  method SkipSlashes(s: seq<char>, p0: int) returns (p: int)
    requires CString(s) && 0 <= p0 < |s|
    ensures p0 <= p < |s| && s[p] != '/' && Elems(From(s, p)) == Elems(From(s, p0))
  {
    p := p0;
    while s[p] == '/'
      invariant p0 <= p < |s| && forall k :: p0 <= k < p ==> s[k] == '/'
      decreases |s| - p
    {
      p := p + 1;
    }
    ElemsSlashes(s, p0, p);
  }

  /** skipelem(): the first element and the rest; false when there is none. */
  method SkipElem(s: seq<char>, p0: int) returns (found: bool, name: string, p: int)
    requires CString(s) && 0 <= p0 < |s|
    ensures found <==> Elems(From(s, p0)) != []
    ensures found ==> p0 < p < |s| && s[p] != '/' && Elems(From(s, p0)) == [name] + Elems(From(s, p))
    ensures found ==> 0 < |name| <= DIRSIZ && '/' !in name
    ensures found ==> (s[p] == '\0' <==> Elems(From(s, p)) == [])
  {
    hide Elems;
    p := SkipSlashes(s, p0);
    if s[p] == '\0' {
      NoElems(s, p);
      return false, "", p;
    }
    var start := p;
    while s[p] != '/' && s[p] != '\0'
      invariant start <= p < |s| && forall k :: start <= k < p ==> s[k] != '/'
      decreases |s| - p
    {
      p := p + 1;
    }
    FirstElem(s, start, p);
    var len := p - start;
    if len >= DIRSIZ {
      name := s[start..start + DIRSIZ];
    } else {
      name := s[start..p];
    }
    assert name == Cut(s[start..p]);
    p := SkipSlashes(s, p);
    NoElems(s, p);
    found := true;
  }

  lemma NoElems(s: seq<char>, p: int)
    requires CString(s) && 0 <= p < |s| && s[p] != '/'
    ensures s[p] == '\0' <==> Elems(From(s, p)) == []
  {
  }

  lemma FirstElem(s: seq<char>, a: int, e: int)
    requires CString(s) && 0 <= a < e < |s| && (forall k :: a <= k < e ==> s[k] != '/') && (s[e] == '/' || s[e] == '\0')
    ensures Elems(From(s, a)) == [Cut(s[a..e])] + Elems(From(s, e))
  {
    var t := From(s, a);
    assert Stop(t) == e - a by {
      if s[e] == '/' {
        assert e < |s| - 1;
        StopIs(t, e - a);
      } else {
        assert |t| == e - a;
        StopAll(t);
      }
    }
    assert t[..e - a] == s[a..e] && t[e - a..] == From(s, e);
  }
}
