/**
  The process state lists of proc.c: twelve singly linked lists that share the one `next`
  field of struct proc.  A process is named by its slot in ptable.proc, -1 is the null pointer.
 */
module StateLists {
  import opened Sequences

  const NPROC: int := 64
  const MAXPRIO: int := 6

  // list numbers: 0 .. MAXPRIO are the ready lists
  const FREE: int := 7
  const SLEEP: int := 8
  const ZOMBIE: int := 9
  const RUNNING: int := 10
  const EMBRYO: int := 11
  const NLISTS: int := 12

  predicate IsSlot(p: int) { 0 <= p < NPROC }

  predicate IsLid(l: int) { 0 <= l < NLISTS }

  /** The null-terminated chain from h spells s, and t is its last node; t may be stale when s is empty. */
  ghost predicate IsList(h: int, t: int, next: seq<int>, s: seq<int>) {
    && |next| == NPROC
    && (forall i :: 0 <= i < |s| ==> IsSlot(s[i]))
    && Distinct(s)
    && (s == [] ==> h == -1)
    && (s != [] ==> h == s[0] && t == s[|s| - 1] && next[t] == -1)
    && (forall i :: 0 <= i < |s| - 1 ==> next[s[i]] == s[i + 1])
  }

  ghost predicate Apart(a: seq<int>, b: seq<int>) {
    forall p :: p in a ==> p !in b
  }

  ghost predicate Rep(head: seq<int>, tail: seq<int>, next: seq<int>, lists: seq<seq<int>>) {
    && |head| == |tail| == |lists| == NLISTS && |next| == NPROC
    && (forall l :: 0 <= l < NLISTS ==> IsList(head[l], tail[l], next, lists[l]))
    && (forall l, m :: 0 <= l < NLISTS && 0 <= m < NLISTS && l != m ==> Apart(lists[l], lists[m]))
  }

  /** s without p. */
  function Without(s: seq<int>, p: int): (r: seq<int>)
    ensures p !in s ==> r == s
    ensures forall q :: q in r ==> q in s
  {
    if s == [] then []
    else if s[0] == p then s[1..]
    else [s[0]] + Without(s[1..], p)
  }

  lemma {:induction false} WithoutAt(s: seq<int>, k: nat)
    requires Distinct(s) && k < |s|
    ensures Without(s, s[k]) == s[..k] + s[k + 1..]
  {
    if k > 0 {
      WithoutAt(s[1..], k - 1);
      assert s[1..][..k - 1] == s[1..k];
      assert [s[0]] + s[1..k] == s[..k];
    }
  }

  /** Writing `next` of a node outside a list leaves the list alone. */
  lemma ListFrame(h: int, t: int, next: seq<int>, s: seq<int>, p: int, q: int)
    requires IsList(h, t, next, s) && IsSlot(p) && p !in s
    ensures IsList(h, t, next[p := q], s)
  {
  }

  lemma ListAppend(h: int, t: int, next: seq<int>, s: seq<int>, p: int)
    requires IsList(h, t, next, s) && IsSlot(p) && p !in s
    ensures s == [] ==> IsList(p, p, next[p := -1], [p])
    ensures s != [] ==> IsList(h, p, next[t := p][p := -1], s + [p])
  {
  }

  lemma ListUnlinkHead(h: int, t: int, next: seq<int>, s: seq<int>)
    requires IsList(h, t, next, s) && s != []
    ensures IsList(next[h], t, next, s[1..])
  {
  }

  lemma ListUnlink(h: int, t: int, next: seq<int>, s: seq<int>, k: nat)
    requires IsList(h, t, next, s) && 0 < k < |s|
    ensures k == |s| - 1 ==> IsList(h, s[k - 1], next[s[k - 1] := -1][s[k] := -1], s[..k])
    ensures k < |s| - 1 ==> IsList(h, t, next[s[k - 1] := next[s[k]]][s[k] := -1], s[..k] + s[k + 1..])
  {
  }
}
