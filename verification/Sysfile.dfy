/** Name lookup of fs.c and the system calls link, unlink and create of sysfile.c. */
module Sysfile {
  import opened CStrings
  import opened LinkCount
  import Paths

  // ---------------------------------------------------------------- lookup

  /** The first used entry with this name, or -1. */
  function Find(es: seq<Dirent>, name: string): (k: int)
    ensures -1 <= k < |es| && (k == -1 <==> Absent(es, name))
    ensures k != -1 ==> es[k].inum != 0 && es[k].name == name && Absent(es[..k], name)
  {
    FindFrom(es, name, 0)
  }

  function FindFrom(es: seq<Dirent>, name: string, k: int): (r: int)
    requires 0 <= k <= |es| && Absent(es[..k], name)
    ensures -1 <= r < |es| && (r == -1 <==> Absent(es, name))
    ensures r != -1 ==> es[r].inum != 0 && es[r].name == name && Absent(es[..r], name)
    decreases |es| - k
  {
    if k == |es| then (assert es[..k] == es; -1)
    else if es[k].inum != 0 && es[k].name == name then k
    else (assert Absent(es[..k + 1], name); FindFrom(es, name, k + 1))
  }

  /** The first unused entry, or the end of the directory. */
  predicate IsSlot(es: seq<Dirent>, k: int) {
    0 <= k <= |es| && (k < |es| ==> es[k].inum == 0) && forall j :: 0 <= j < k ==> es[j].inum != 0
  }

  /** The directory has as many entries as a file can hold, all of them used. */
  predicate NoSlot(es: seq<Dirent>) {
    |es| >= MAXENTRIES && forall j :: 0 <= j < MAXENTRIES ==> es[j].inum != 0
  }

  datatype Resolved = Found(inum: int) | Missing | NoType // NoType: ilock() of a free inode panics

  /** The inode that names leads to from ip; with parent, the directory of the last name. */
  function Resolve(fs: FS, ip: int, names: seq<string>, parent: bool): (r: Resolved)
    ensures r.Found? && (parent || names != []) ==> 0 <= r.inum < |fs|
    ensures r.Found? && parent ==> names != [] && fs[r.inum].kind == Dir
    decreases |names|
  {
    if names == [] then (if parent then Missing else Found(ip))
    else if !(0 <= ip < |fs|) || fs[ip].kind == Free then NoType
    else if fs[ip].kind != Dir then Missing
    else if parent && |names| == 1 then Found(ip)
    else
      var k := Find(fs[ip].entries, names[0]);
      if k == -1 then Missing
      else if 0 <= fs[ip].entries[k].inum < |fs| then Resolve(fs, fs[ip].entries[k].inum, names[1..], parent)
      else NoType
  }

  lemma ResolveStep(fs: FS, ip: int, names: seq<string>, parent: bool)
    requires names != []
    ensures Resolve(fs, ip, names, parent) ==
      if !(0 <= ip < |fs|) || fs[ip].kind == Free then NoType
      else if fs[ip].kind != Dir then Missing
      else if parent && |names| == 1 then Found(ip)
      else if Find(fs[ip].entries, names[0]) == -1 then Missing
      else if 0 <= fs[ip].entries[Find(fs[ip].entries, names[0])].inum < |fs| then
        Resolve(fs, fs[ip].entries[Find(fs[ip].entries, names[0])].inum, names[1..], parent)
      else NoType
  {
  }

  lemma ResolveEnd(fs: FS, ip: int, parent: bool)
    ensures Resolve(fs, ip, [], parent) == if parent then Missing else Found(ip)
  {
  }

  /** Link counts do not enter lookup. */
  lemma {:induction false} ResolveSame(fs: FS, fs': FS, ip: int, names: seq<string>, parent: bool)
    requires |fs'| == |fs| && forall i :: 0 <= i < |fs| ==> fs'[i].kind == fs[i].kind && fs'[i].entries == fs[i].entries
    ensures Resolve(fs', ip, names, parent) == Resolve(fs, ip, names, parent)
    decreases |names|
  {
    if names != [] && 0 <= ip < |fs| && fs[ip].kind == Dir {
      var k := Find(fs[ip].entries, names[0]);
      if k != -1 { ResolveSame(fs, fs', fs[ip].entries[k].inum, names[1..], parent); }
    }
  }

  // ---- laws of lookup

  /** A path is looked up in parts: first the one, then from there the other. */
  lemma {:induction false} ResolveJoin(fs: FS, ip: int, a: seq<string>, b: seq<string>, parent: bool)
    requires parent ==> b != []
    ensures var r := Resolve(fs, ip, a, false);
      Resolve(fs, ip, a + b, parent) == if r.Found? then Resolve(fs, r.inum, b, parent) else r
    decreases |a|
  {
    if a == [] {
      assert a + b == b;
    } else {
      assert (a + b)[0] == a[0] && (a + b)[1..] == a[1..] + b;
      ResolveStep(fs, ip, a + b, parent);
      ResolveStep(fs, ip, a, false);
      if 0 <= ip < |fs| && fs[ip].kind == Dir {
        var k := Find(fs[ip].entries, a[0]);
        if a[1..] == [] && b == [] {
          assert a + b == a;
        }
        if k != -1 { ResolveJoin(fs, fs[ip].entries[k].inum, a[1..], b, parent); }
      }
      hide Resolve, Find;
    }
  }

  /** What a name leads to in directory d. */
  function Child(fs: FS, d: int, name: string): Resolved
    requires 0 <= d < |fs|
  {
    var k := Find(fs[d].entries, name);
    if k == -1 then Missing else if 0 <= fs[d].entries[k].inum < |fs| then Found(fs[d].entries[k].inum) else NoType
  }

  lemma ResolveName(fs: FS, d: int, name: string, parent: bool)
    requires 0 <= d < |fs| && fs[d].kind == Dir
    ensures Resolve(fs, d, [name], parent) == if parent then Found(d) else Child(fs, d, name)
  {
    ResolveStep(fs, d, [name], parent);
    assert [name][1..] == [];
  }

  /** The inode of a path is what its last name leads to in the directory of that name. */
  lemma ResolveLast(fs: FS, ip: int, names: seq<string>)
    requires names != []
    ensures var q := Resolve(fs, ip, names, true);
      Resolve(fs, ip, names, false) == if q.Found? then Child(fs, q.inum, Last(names)) else q
  {
    var a, last := names[..|names| - 1], Last(names);
    assert names == a + [last];
    ResolveJoin(fs, ip, a, [last], true);
    ResolveJoin(fs, ip, a, [last], false);
    var r := Resolve(fs, ip, a, false);
    if r.Found? {
      ResolveStep(fs, r.inum, [last], true);
      ResolveStep(fs, r.inum, [last], false);
      assert [last][1..] == [];
    }
  }

  /** "." is the directory itself, and ".." the directory that names it. */
  lemma {:induction false} Dots(fs: FS, at: map<int, int>, d: int, k: int, i: int)
    requires Inv(fs, at) && Names(fs, d, k, i) && 0 < i < |fs| && fs[i].kind == Dir
    ensures Resolve(fs, i, ["."], false) == Found(i) && Resolve(fs, i, [".."], false) == Found(d)
  {
    InvTree(fs, at, i);
    assert DirOk(fs, i) && TreeAt(fs, at, i);
    hide Inv;
    ResolveName(fs, i, ".", false);
    ResolveName(fs, i, "..", false);
    var es := fs[i].entries;
    assert !Absent(es, ".") && !Absent(es, "..");
    FindFirst(es, 0, ".");
    FindFirst(es, 1, "..");
  }

  /** With names used once, a used entry is the one found. */
  lemma FindFirst(es: seq<Dirent>, k: int, name: string)
    requires 0 <= k < |es| && es[k].inum != 0 && es[k].name == name
    requires forall j :: 0 <= j < |es| && j != k && es[j].inum != 0 ==> es[j].name != name
    ensures Find(es, name) == k
  {
    assert !Absent(es, name);
  }

  function StartOf(path: seq<char>, cwd: int): int
    requires CString(path)
  {
    if path[0] == '/' then ROOT else cwd
  }

  function ElemsOf(path: seq<char>): seq<string>
    requires CString(path)
  {
    Paths.Elems(From(path, 0))
  }

  function Last(names: seq<string>): string
    requires names != []
  {
    names[|names| - 1]
  }

  /** A string as it stands in memory. */
  function Z(s: string): (r: seq<char>)
    requires '\0' !in s
    ensures CString(r)
  {
    s + ['\0']
  }

  /** A relative path means the path of the current directory, a slash and the path. */
  lemma RelativePath(fs: FS, base: string, rel: string, cwd: int, other: int, parent: bool)
    requires '\0' !in base && '\0' !in rel && base != "" && base[0] == '/' && (rel != "" ==> rel[0] != '/')
    requires Resolve(fs, ROOT, Paths.Elems(base), false) == Found(cwd) && (parent ==> Paths.Elems(rel) != [])
    ensures var whole := base + "/" + rel;
      Resolve(fs, StartOf(Z(rel), cwd), ElemsOf(Z(rel)), parent) ==
      Resolve(fs, StartOf(Z(whole), other), ElemsOf(Z(whole)), parent)
  {
    var whole := base + "/" + rel;
    assert From(Z(rel), 0) == rel && From(Z(whole), 0) == whole;
    Paths.ElemsJoin(base, rel);
    ResolveJoin(fs, ROOT, Paths.Elems(base), Paths.Elems(rel), parent);
  }

  datatype Outcome = Done | Failed | Panicked

  /** No inode below n is free; inode 0 is not used. */
  predicate NoneFree(fs: FS, n: int)
    requires n <= |fs|
  {
    forall j :: 1 <= j < n ==> fs[j].kind != Free
  }

  /** What an entry of directory d with this name stands for; a free inode if there is none. */
  function KindOf(fs: FS, d: int, name: string): Kind
    requires 0 <= d < |fs|
  {
    var k := Find(fs[d].entries, name);
    if k == -1 || !(0 <= fs[d].entries[k].inum < |fs|) then Free else fs[fs[d].entries[k].inum].kind
  }

  class System {
    var inode: FS
    var held: set<int>            // inodes with a reference besides the running call's
    ghost var at: map<int, int>

    /** Link counts are right, and only held inodes live on without links. */
    ghost predicate Valid()
      reads this
    {
      Inv(inode, at) && OnlyHeld(inode, held) && inode[0].kind == Free
    }

    /** The file system mkfs makes: a root directory. */
    constructor (n: int)
      requires n > ROOT
      ensures Valid() && |inode| == n && held == {}
    {
      inode := seq(n, i requires 0 <= i < n => if i == ROOT then NewDir(ROOT, ROOT) else Ino(Free, 0, []));
      held, at := {}, map[];
      new;
      RootInv(inode);
    }

    /** dirlookup(): the position of the entry, or -1. */
    method DirLookup(d: int, name: string) returns (k: int)
      requires 0 <= d < |inode|
      ensures k == Find(inode[d].entries, name)
    {
      var es := inode[d].entries;
      k := 0;
      while k < |es|
        invariant 0 <= k <= |es| && Absent(es[..k], name) && FindFrom(es, name, k) == Find(es, name)
      {
        if es[k].inum != 0 && es[k].name == name {
          return;
        }
        k := k + 1;
      }
      k := -1;
    }

    /** dirlink(): a new entry at the first unused position. */
    method DirLink(d: int, name: string, i: int) returns (out: Outcome, ghost k: int)
      requires 0 <= d < |inode|
      modifies this`inode
      ensures out == Failed <==> !Absent(old(inode)[d].entries, name)
      ensures out == Panicked <==> Absent(old(inode)[d].entries, name) && NoSlot(old(inode)[d].entries)
      ensures out != Done ==> inode == old(inode)
      ensures out == Done ==> IsSlot(old(inode)[d].entries, k) && inode == WithEntry(old(inode), d, k, Dirent(i, name))
    {
      k := -1;
      var found := DirLookup(d, name);
      if found != -1 {
        return Failed, k;
      }
      var es := inode[d].entries;
      var m := 0;
      while m < |es| && es[m].inum != 0
        invariant 0 <= m <= |es| && forall j :: 0 <= j < m ==> es[j].inum != 0
      {
        m := m + 1;
      }
      if m >= MAXENTRIES {
        return Panicked, k;
      }
      inode := inode[d := inode[d].(entries := Put(es, m, Dirent(i, name)))];
      return Done, m;
    }

    /** namex(). */
    method Namex(path: seq<char>, cwd: int, parent: bool) returns (r: Resolved, name: string)
      requires CString(path)
      ensures r == Resolve(inode, StartOf(path, cwd), ElemsOf(path), parent)
      ensures r.Found? && parent ==> ElemsOf(path) != [] && name == Last(ElemsOf(path)) && 0 < |name| <= Paths.DIRSIZ
    {
      hide Resolve, Find, Paths.Elems;
      var ip := if path[0] == '/' then ROOT else cwd;
      var found, p;
      found, name, p := Paths.SkipElem(path, 0);
      ghost var rest := ElemsOf(path);
      while found
        invariant found <==> rest != []
        invariant found ==> 0 <= p < |path| && rest == [name] + Paths.Elems(From(path, p)) && 0 < |name| <= Paths.DIRSIZ
        invariant found ==> (path[p] == '\0' <==> Paths.Elems(From(path, p)) == [])
        invariant Resolve(inode, ip, rest, parent) == Resolve(inode, StartOf(path, cwd), ElemsOf(path), parent)
        invariant rest != [] ==> ElemsOf(path) != [] && Last(rest) == Last(ElemsOf(path))
        decreases |rest|
      {
        assert rest[1..] == Paths.Elems(From(path, p));
        ResolveStep(inode, ip, rest, parent);
        if !(0 <= ip < |inode|) || inode[ip].kind == Free {
          return NoType, name;
        }
        if inode[ip].kind != Dir {
          return Missing, name;
        }
        if parent && path[p] == '\0' {
          assert rest == [name];
          return Found(ip), name;
        }
        var k := DirLookup(ip, name);
        if k == -1 {
          assert !(parent && |rest| == 1);
          return Missing, name;
        }
        if !(0 <= inode[ip].entries[k].inum < |inode|) {
          return NoType, name;
        }
        ip := inode[ip].entries[k].inum;
        rest := rest[1..];
        found, name, p := Paths.SkipElem(path, p);
      }
      ResolveEnd(inode, ip, parent);
      if parent {
        return Missing, name;
      }
      r := Found(ip);
    }

    /** iput() by the running call: without links and other references the inode is freed. */
    method Iput(i: int)
      requires Inv(inode, at) && 0 <= i < |inode|
      modifies this`inode
      ensures Inv(inode, at)
      ensures inode == if old(inode)[i].nlink == 0 && i !in held then Freed(old(inode), i) else old(inode)
    {
      if inode[i].nlink == 0 && i !in held {
        FreedInv(inode, at, i);
        inode := inode[i := Ino(Free, 0, [])];
      }
    }

    /** The last other reference to i is gone: close() of a file, or leaving a directory. */
    method Drop(i: int)
      requires Valid() && 0 <= i < |inode|
      modifies this`inode, this`held
      ensures Valid() && held == old(held) - {i}
      ensures inode == if old(inode)[i].nlink == 0 then Freed(old(inode), i) else old(inode)
    {
      hide Inv;
      held := held - {i};
      HeldLess(inode, at, old(held), i);
      Iput(i);
    }

    /** sys_link(). */
    method SysLink(target: seq<char>, path: seq<char>, cwd: int) returns (out: Outcome, ghost k: int)
      requires Valid() && CString(target) && CString(path) && 0 <= cwd < |inode|
      modifies this`inode
      ensures var ip := Resolve(old(inode), StartOf(target, cwd), ElemsOf(target), false);
        var dp := Resolve(old(inode), StartOf(path, cwd), ElemsOf(path), true);
        && (out == Failed ==> inode == old(inode))
        && (out == Done ==>
              ip.Found? && dp.Found? && 0 < dp.inum
              && FileAdded(old(inode), inode, dp.inum, k, Last(ElemsOf(path)), ip.inum))
        && (out == Done ==> Resolve(inode, StartOf(path, cwd), ElemsOf(path), false) == ip)
        && (out == Done ==> AllCounted(inode) && (Valid() <==> Linked(old(inode), dp.inum)))
        && (out == Done ==> (CountsSurvive(inode, dp.inum) <==> Linked(old(inode), dp.inum)))
        && (out == Done && Short(old(inode)) ==> (Short(inode) <==> old(inode)[ip.inum].nlink < MAXLINK))
        && (out == Failed <==>
              ip == Missing || (ip.Found? && old(inode)[ip.inum].kind == Dir)
              || (ip.Found? && old(inode)[ip.inum].kind != Free
                  && (dp == Missing || (dp.Found? && !Absent(old(inode)[dp.inum].entries, Last(ElemsOf(path)))))))
        && (out == Panicked <==>
              ip == NoType || (ip.Found? && old(inode)[ip.inum].kind == Free)
              || (ip.Found? && old(inode)[ip.inum].kind != Dir
                  && (dp == NoType
                      || (dp.Found? && Absent(old(inode)[dp.inum].entries, Last(ElemsOf(path)))
                          && NoSlot(old(inode)[dp.inum].entries)))))
    {
      hide Inv, Resolve, FileAdded, OnlyHeld;
      k := -1;
      ghost var fs := inode;
      InvTree(fs, at, ROOT);
      var r, name := Namex(target, cwd, false);
      ResolveRange(fs, StartOf(target, cwd), ElemsOf(target), false);
      if r == NoType {
        return Panicked, k;
      }
      if r == Missing {
        return Failed, k;
      }
      var ip := r.inum;
      if inode[ip].kind == Free {
        return Panicked, k;
      }
      if inode[ip].kind == Dir {
        return Failed, k;
      }
      inode := inode[ip := inode[ip].(nlink := inode[ip].nlink + 1)];
      ResolveSame(fs, inode, StartOf(path, cwd), ElemsOf(path), true);
      var q;
      q, name := Namex(path, cwd, true);
      ResolveRange(fs, StartOf(path, cwd), ElemsOf(path), true);
      if q == NoType {
        return Panicked, k;
      }
      if q == Missing {
        inode := inode[ip := inode[ip].(nlink := inode[ip].nlink - 1)];
        assert inode == fs;
        return Failed, k;
      }
      var dp := q.inum;
      out, k := DirLink(dp, name, ip);
      if out == Panicked {
        return;
      }
      if out == Failed {
        inode := inode[ip := inode[ip].(nlink := inode[ip].nlink - 1)];
        assert inode == fs;
        return;
      }
      LinkDone(fs, at, held, inode, dp, k, name, ip);
      LinkedFound(fs, inode, dp, k, name, ip, StartOf(path, cwd), ElemsOf(path));
      if Short(fs) { LinkShort(fs, inode, dp, k, name, ip); }
    }

    /** isdirempty(). */
    method IsDirEmpty(i: int) returns (empty: bool)
      requires 0 <= i < |inode|
      ensures empty <==> IsEmpty(inode, i)
    {
      var k := 2;
      while k < |inode[i].entries|
        invariant 2 <= k && forall m :: 2 <= m < k && m < |inode[i].entries| ==> inode[i].entries[m].inum == 0
      {
        if inode[i].entries[k].inum != 0 {
          return false;
        }
        k := k + 1;
      }
      empty := true;
    }

    /** sys_unlink(). */
    method SysUnlink(path: seq<char>, cwd: int) returns (out: Outcome)
      requires Valid() && CString(path) && 0 <= cwd < |inode|
      modifies this`inode
      ensures var dp := Resolve(old(inode), StartOf(path, cwd), ElemsOf(path), true);
        && (out == Panicked <==> dp == NoType)
        && (out != Done ==> inode == old(inode))
        && (out == Done <==> dp.Found? && Removable(old(inode), dp.inum, Last(ElemsOf(path))))
        && (out == Done ==> Valid() && NameRemoved(old(inode), inode, held, dp.inum, Last(ElemsOf(path))))
        && (out == Done ==> !Resolve(inode, StartOf(path, cwd), ElemsOf(path), false).Found?)
    {
      hide Inv, Resolve, OnlyHeld, Removed, DirOk, TreeAt;
      ghost var fs := inode;
      InvTree(fs, at, ROOT);
      var q, name := Namex(path, cwd, true);
      ResolveRange(fs, StartOf(path, cwd), ElemsOf(path), true);
      if q == NoType {
        return Panicked;
      }
      if q == Missing {
        return Failed;
      }
      var dp := q.inum;
      if name == "." || name == ".." {
        return Failed;
      }
      var k := DirLookup(dp, name);
      if k == -1 {
        return Failed;
      }
      var ip := inode[dp].entries[k].inum;
      FoundName(fs, at, dp, k);
      if inode[ip].nlink < 1 {
        return Panicked;
      }
      var empty := IsDirEmpty(ip);
      if inode[ip].kind == Dir && !empty {
        return Failed;
      }
      RemovedInv(fs, at, dp, k, ip);
      inode := inode[dp := inode[dp].(entries := Put(inode[dp].entries, k, Dirent(0, "")))];
      if inode[ip].kind == Dir {
        inode := inode[dp := inode[dp].(nlink := inode[dp].nlink - 1)];
      }
      inode := inode[ip := inode[ip].(nlink := inode[ip].nlink - 1)];
      RemovedIs(fs, at, inode, dp, k, ip);
      RemovedHeld(fs, at, held, inode, dp, k, ip);
      Iput(ip);
      RemovedGone(fs, at, held, inode, dp, name, StartOf(path, cwd), ElemsOf(path));
      out := Done;
    }

    /** ialloc(): the first free inode, or -1 for the panic. */
    method Ialloc(kind: Kind) returns (i: int)
      modifies this`inode
      ensures i == -1 <==> NoneFree(old(inode), |old(inode)|)
      ensures i == -1 ==> inode == old(inode)
      ensures i != -1 ==> 1 <= i < |old(inode)| && old(inode)[i].kind == Free && NoneFree(old(inode), i)
      ensures i != -1 ==> inode == old(inode)[i := Ino(kind, 0, [])]
    {
      i := 1;
      while i < |inode|
        invariant 1 <= i && inode == old(inode) && forall j :: 1 <= j < i && j < |inode| ==> inode[j].kind != Free
      {
        if inode[i].kind == Free {
          inode := inode[i := Ino(kind, 0, [])];
          return;
        }
        i := i + 1;
      }
      i := -1;
    }

    /** The entries "." and ".." of a new directory. */
    method MakeDots(i: int, d: int) returns (ok: bool)
      requires 0 < i < |inode| && inode[i].entries == []
      modifies this`inode
      ensures ok && inode == old(inode)[i := old(inode)[i].(entries := [Dirent(i, "."), Dirent(d, "..")])]
    {
      ghost var fs := inode;
      var dot, k0 := DirLink(i, ".", i);
      assert dot == Done && k0 == 0;
      assert Put([], 0, Dirent(i, ".")) == [Dirent(i, ".")];
      assert inode == fs[i := fs[i].(entries := [Dirent(i, ".")])];
      var dots, k1 := DirLink(i, "..", d);
      assert dots == Done && k1 == 1;
      assert Put([Dirent(i, ".")], 1, Dirent(d, "..")) == [Dirent(i, "."), Dirent(d, "..")];
      ok := dot == Done && dots == Done;
    }

    /** create(). */
    method Create(path: seq<char>, kind: Kind, cwd: int) returns (out: Outcome, i: int, ghost k: int)
      requires Valid() && CString(path) && 0 <= cwd < |inode| && kind != Free
      modifies this`inode, this`at
      ensures var dp := Resolve(old(inode), StartOf(path, cwd), ElemsOf(path), true);
        && (out == Failed ==> inode == old(inode) && at == old(at))
        && (out == Done ==> dp.Found? && 0 < dp.inum && 0 < i < |old(inode)|)
        && (out == Done ==> Resolve(inode, StartOf(path, cwd), ElemsOf(path), false) == Found(i))
        && (out == Done && old(inode)[i].kind != Free ==>
              inode == old(inode) && Opens(old(inode), dp.inum, Last(ElemsOf(path)), kind, i))
        && (out == Done && old(inode)[i].kind == Free ==>
              Created(old(inode), inode, dp.inum, k, Last(ElemsOf(path)), i, kind) && NoneFree(old(inode), i)
              && (Valid() <==> Linked(old(inode), dp.inum)))
        && (out == Done && old(inode)[i].kind == Free && kind == Dir ==>
              (AllCounted(inode) <==> Linked(old(inode), dp.inum)))
        && (out == Done && old(inode)[i].kind == Free && kind != Dir ==>
              AllCounted(inode) && (CountsSurvive(inode, dp.inum) <==> Linked(old(inode), dp.inum)))
        && (out == Done && old(inode)[i].kind == Free && Short(old(inode)) ==>
              (Short(inode) <==> (kind == Dir ==> old(inode)[dp.inum].nlink < MAXLINK)))
        && (dp == Missing ==> out == Failed) && (dp == NoType ==> out == Panicked)
        && (dp.Found? && !Absent(old(inode)[dp.inum].entries, Last(ElemsOf(path))) ==>
              var was := KindOf(old(inode), dp.inum, Last(ElemsOf(path)));
              && (out == Done <==> kind == File && was == File)
              && (out == Panicked <==> was == Free)
              && (out == Done ==> old(inode)[i].kind == File))
        && (dp.Found? && Absent(old(inode)[dp.inum].entries, Last(ElemsOf(path))) ==>
              && (out == Done <==> !NoneFree(old(inode), |old(inode)|) && !NoSlot(old(inode)[dp.inum].entries))
              && out != Failed && (out == Done ==> old(inode)[i].kind == Free))
    {
      hide Inv, Resolve, OnlyHeld, DirOk, TreeAt, Created;
      ghost var fs := inode;
      InvTree(fs, at, ROOT);
      i, k := -1, -1;
      var q, name := Namex(path, cwd, true);
      ResolveRange(fs, StartOf(path, cwd), ElemsOf(path), true);
      if q == NoType {
        return Panicked, i, k;
      }
      if q == Missing {
        return Failed, i, k;
      }
      var dp := q.inum;
      var off := DirLookup(dp, name);
      if off != -1 {
        EntryRange(fs, at, dp, off);
        i := inode[dp].entries[off].inum;
        if inode[i].kind == Free {
          return Panicked, i, k;
        }
        if kind == File && inode[i].kind == File {
          ResolveLast(fs, StartOf(path, cwd), ElemsOf(path));
          return Done, i, k;
        }
        return Failed, i, k;
      }
      out, i, k := MakeNew(dp, name, kind);
      if out == Done {
        CreatedFound(fs, inode, dp, k, name, i, kind, StartOf(path, cwd), ElemsOf(path));
      }
    }

    /** The second half of create(): a new inode for a name that the directory does not have. */
    method MakeNew(dp: int, name: string, kind: Kind) returns (out: Outcome, i: int, ghost k: int)
      requires Valid() && 0 <= dp < |inode| && inode[dp].kind == Dir && Absent(inode[dp].entries, name) && kind != Free
      modifies this`inode, this`at
      ensures out == if NoneFree(old(inode), |old(inode)|) || NoSlot(old(inode)[dp].entries) then Panicked else Done
      ensures out == Done ==>
        && 0 < dp && 0 < i < |old(inode)| && old(inode)[i].kind == Free && NoneFree(old(inode), i)
        && Created(old(inode), inode, dp, k, name, i, kind)
        && (Valid() <==> Linked(old(inode), dp))
        && (kind == Dir ==> (AllCounted(inode) <==> Linked(old(inode), dp)))
        && (kind != Dir ==> AllCounted(inode) && (CountsSurvive(inode, dp) <==> Linked(old(inode), dp)))
        && (Short(old(inode)) ==> (Short(inode) <==> (kind == Dir ==> old(inode)[dp].nlink < MAXLINK)))
    {
      hide Inv, OnlyHeld, DirOk, TreeAt, Created;
      ghost var fs := inode;
      k := -1;
      i := Ialloc(kind);
      if i == -1 {
        return Panicked, i, k;
      }
      FreeNoEntries(fs, at, i);
      inode := inode[i := inode[i].(nlink := 1)];
      if kind == Dir {
        inode := inode[dp := inode[dp].(nlink := inode[dp].nlink + 1)];
        var ok := MakeDots(i, dp);
      }
      var added;
      added, k := DirLink(dp, name, i);
      if added != Done {
        return Panicked, i, k;
      }
      CreateDone(fs, at, held, inode, dp, k, name, i, kind);
      if Short(fs) { CreateShort(fs, inode, dp, k, name, i, kind); }
      at := if kind == Dir then at[i := k] else at;
      out := Done;
    }
  }

  /** create() with O_CREATE on an existing file. */
  ghost predicate Opens(fs: FS, d: int, name: string, kind: Kind, i: int)
    requires 0 <= d < |fs|
  {
    var k := Find(fs[d].entries, name);
    k != -1 && kind == File && 0 < i < |fs| && fs[d].entries[k].inum == i && fs[i].kind == File
  }

  /** A new inode i of this kind under this name. */
  ghost predicate Created(fs: FS, fs': FS, d: int, k: int, name: string, i: int, kind: Kind) {
    && 0 <= d < |fs| && 0 < i < |fs| && i != d && fs[d].kind == Dir && fs[i].kind == Free && IsSlot(fs[d].entries, k)
    && Absent(fs[d].entries, name)
    && fs' == fs[i := if kind == Dir then NewDir(i, d) else Ino(kind, 1, [])]
                [d := fs[d].(nlink := fs[d].nlink + (if kind == Dir then 1 else 0),
                             entries := Put(fs[d].entries, k, Dirent(i, name)))]
  }

  lemma EntryRange(fs: FS, at: map<int, int>, d: int, k: int)
    requires Inv(fs, at) && 0 <= d < |fs| && fs[d].kind == Dir && fs[0].kind == Free && 0 <= k < |fs[d].entries|
    requires fs[d].entries[k].inum != 0
    ensures 0 < fs[d].entries[k].inum < |fs| && 0 < d
  {
    InvTree(fs, at, d);
    hide Inv;
  }

  lemma FreeNoEntries(fs: FS, at: map<int, int>, i: int)
    requires Inv(fs, at) && 0 <= i < |fs| && fs[i].kind == Free
    ensures fs[i] == Ino(Free, 0, [])
  {
    InvTree(fs, at, i);
  }

  lemma CreateDone(fs: FS, at: map<int, int>, held: set<int>, fs': FS, d: int, k: int, name: string, i: int, kind: Kind)
    requires Inv(fs, at) && OnlyHeld(fs, held) && fs[0].kind == Free && 0 <= d < |fs| && 0 < i < |fs| && i != d
    requires fs[d].kind == Dir && fs[i].kind == Free
    requires kind != Free && IsSlot(fs[d].entries, k) && Absent(fs[d].entries, name)
    requires fs' == fs[i := if kind == Dir then NewDir(i, d) else Ino(kind, 1, [])]
                      [d := fs[d].(nlink := fs[d].nlink + (if kind == Dir then 1 else 0),
                                   entries := Put(fs[d].entries, k, Dirent(i, name)))]
    ensures Created(fs, fs', d, k, name, i, kind) && 0 < d && fs'[0].kind == Free
    ensures (Inv(fs', if kind == Dir then at[i := k] else at) && OnlyHeld(fs', held)) <==> Linked(fs, d)
    ensures kind == Dir ==> (AllCounted(fs') <==> Linked(fs, d))
    ensures kind != Dir ==> AllCounted(fs') && (CountsSurvive(fs', d) <==> Linked(fs, d))
  {
    SlotAbove(fs, at, d, k, name);
    FreeNoEntries(fs, at, i);
    InvCounted(fs', if kind == Dir then at[i := k] else at);
    if kind != Dir {
      assert FileMade(fs, fs', d, k, name, i);
      FileMadeCounts(fs, at, fs', d, k, name, i);
      hide Inv;
      if Linked(fs, d) {
        AddFileInv(fs, at, fs', d, k, name, i);
        assert OnlyHeld(fs', held);
      } else {
        UnlinkedGetsName(fs', at, d, k);
      }
    } else if Linked(fs, d) {
      assert MakesDir(fs, fs', d, k, name, i);
      hide Inv;
      MakesDirInv(fs, at, fs', d, k, name, i);
      assert OnlyHeld(fs', held);
    } else {
      InvTree(fs, at, d);
      InvCounted(fs, at);
      hide Inv;
      assert MakesOrphan(fs, fs', d, k, name, i);
      OrphanDir(fs, fs', d, k, name, i);
    }
  }

  /** A link too many for the short: that of the file, or that of the parent of a new directory. */
  lemma LinkShort(fs: FS, fs': FS, d: int, k: int, name: string, i: int)
    requires FileAdded(fs, fs', d, k, name, i) && Short(fs)
    ensures Short(fs') <==> fs[i].nlink < MAXLINK
  {
    assert fs'[i].nlink == fs[i].nlink + 1;
  }

  lemma CreateShort(fs: FS, fs': FS, d: int, k: int, name: string, i: int, kind: Kind)
    requires Created(fs, fs', d, k, name, i, kind) && Short(fs)
    ensures Short(fs') <==> (kind == Dir ==> fs[d].nlink < MAXLINK)
  {
    assert fs'[d].nlink == fs[d].nlink + if kind == Dir then 1 else 0;
  }

  lemma InvCounted(fs: FS, at: map<int, int>)
    ensures Inv(fs, at) ==> AllCounted(fs)
  {
  }

  /** Every count stays right when the last reference to d goes, if that releases it. */
  ghost predicate CountsSurvive(fs: FS, d: int)
    requires 0 <= d < |fs|
  {
    Linked(fs, d) || AllCounted(Freed(fs, d))
  }

  /** A new name in d for file i, which has one link more. */
  ghost predicate FileMade(fs: FS, fs': FS, d: int, k: int, name: string, i: int) {
    && Edits(fs, fs', d, k, Dirent(i, name)) && Target(fs, d, k) == 0 && 0 < i < |fs| && i != d
    && name != "." && name != ".." && Absent(fs[d].entries, name)
    && (forall j :: 0 <= j < |fs| ==> fs'[j].nlink == fs[j].nlink + if j == i then 1 else 0)
  }

  /** All counts are right afterwards, and stay right when d is released, exactly if d is linked. */
  lemma FileMadeCounts(fs: FS, at: map<int, int>, fs': FS, d: int, k: int, name: string, i: int)
    requires Inv(fs, at) && FileMade(fs, fs', d, k, name, i)
    ensures AllCounted(fs') && (CountsSurvive(fs', d) <==> Linked(fs, d))
  {
    AddFileCounts(fs, at, fs', d, k, name, i);
    InvTree(fs, at, d);
    hide Inv;
    if !Linked(fs, d) {
      PutOk(fs, fs', d, k, Dirent(i, name));
      assert fs'[d].entries[k] == Dirent(i, name);
      ReleaseCountsIff(fs', d);
    }
  }

  /** The state after the entry is cleared and the counts are lowered. */
  function Removed(fs: FS, d: int, k: int, i: int): FS
    requires 0 <= d < |fs| && 0 <= i < |fs| && 0 <= k < |fs[d].entries|
  {
    var es := Put(fs[d].entries, k, Dirent(0, ""));
    if fs[i].kind == Dir then
      fs[d := fs[d].(nlink := fs[d].nlink - 1, entries := es)][i := fs[i].(nlink := fs[i].nlink - 1)]
    else
      fs[d := fs[d].(entries := es)][i := fs[i].(nlink := fs[i].nlink - 1)]
  }

  /** unlink() accepts any name but the dots, if it names a file or an empty directory. */
  ghost predicate Removable(fs: FS, d: int, name: string)
    requires 0 <= d < |fs|
  {
    var k := Find(fs[d].entries, name);
    name != "." && name != ".." && k != -1 && 0 <= fs[d].entries[k].inum < |fs|
    && (fs[fs[d].entries[k].inum].kind == Dir ==> IsEmpty(fs, fs[d].entries[k].inum))
  }

  /** The name is gone, and its inode with it if nothing else refers to it. */
  ghost predicate NameRemoved(fs: FS, fs': FS, held: set<int>, d: int, name: string)
    requires 0 <= d < |fs| && Removable(fs, d, name)
  {
    var k := Find(fs[d].entries, name);
    var i := fs[d].entries[k].inum;
    fs' == if fs[i].nlink == 1 && i !in held then Freed(Removed(fs, d, k, i), i) else Removed(fs, d, k, i)
  }

  lemma FoundName(fs: FS, at: map<int, int>, d: int, k: int)
    requires Inv(fs, at) && 0 <= d < |fs| && fs[d].kind == Dir && 0 <= k < |fs[d].entries| && fs[d].entries[k].inum != 0
    requires fs[d].entries[k].name != "." && fs[d].entries[k].name != ".."
    ensures k >= 2 && 0 < fs[d].entries[k].inum < |fs| && Names(fs, d, k, fs[d].entries[k].inum)
    ensures fs[fs[d].entries[k].inum].nlink >= 1 && fs[fs[d].entries[k].inum].kind != Free && Linked(fs, d)
  {
    InvTree(fs, at, d);
    assert DirOk(fs, d) && TreeAt(fs, at, d);
    assert Ent(fs, d, k) == fs[d].entries[k];
    assert Names(fs, d, k, fs[d].entries[k].inum);
    NamedLinked(fs, at, d, k, fs[d].entries[k].inum);
    hide Inv;
  }

  lemma RemovedInv(fs: FS, at: map<int, int>, d: int, k: int, i: int)
    requires Inv(fs, at) && Names(fs, d, k, i) && fs[d].kind == Dir && 0 < i < |fs|
    requires fs[i].kind == Dir ==> IsEmpty(fs, i)
    ensures i != d && Inv(Removed(fs, d, k, i), at)
  {
    var fs' := Removed(fs, d, k, i);
    if fs[i].kind == Dir {
      EmptyLinks(fs, at, d, k, i);
      assert DropsDir(fs, fs', d, k, i);
      hide Inv, DropsDir;
      DropsDirInv(fs, at, fs', d, k, i);
    } else {
      assert Edits(fs, fs', d, k, Dirent(0, ""));
      hide Inv, Edits;
      RemoveFileInv(fs, at, fs', d, k, i);
    }
  }

  lemma RemovedIs(fs: FS, at: map<int, int>, fs': FS, d: int, k: int, i: int)
    requires 0 <= d < |fs| && 0 <= i < |fs| && i != d && 0 <= k < |fs[d].entries| && fs[d].kind == Dir
    requires var es := Put(fs[d].entries, k, Dirent(0, ""));
      fs' == fs[d := fs[d].(nlink := fs[d].nlink - (if fs[i].kind == Dir then 1 else 0), entries := es)]
               [i := fs[i].(nlink := fs[i].nlink - 1)]
    ensures fs' == Removed(fs, d, k, i)
  {
  }

  lemma RemovedHeld(fs: FS, at: map<int, int>, held: set<int>, fs': FS, d: int, k: int, i: int)
    requires OnlyHeld(fs, held) && 0 < i < |fs| && 0 <= d < |fs| && i != d && 0 <= k < |fs[d].entries|
    requires fs' == Removed(fs, d, k, i)
    requires Inv(fs, at) && Names(fs, d, k, i) && fs[0].kind == Free && fs[d].kind == Dir
    requires fs[i].kind == Dir ==> IsEmpty(fs, i)
    ensures fs'[i].nlink == 0 <==> fs[i].nlink == 1
    ensures OnlyHeld(if fs'[i].nlink == 0 && i !in held then Freed(fs', i) else fs', held) && fs'[0].kind == Free
  {
    NamedLinked(fs, at, d, k, i);
    if fs[i].kind == Dir { EmptyLinks(fs, at, d, k, i); }
    hide Inv, DirOk, Site, Sites;
    var after := if fs'[i].nlink == 0 && i !in held then Freed(fs', i) else fs';
    forall j | 0 <= j < |fs| && after[j].kind != Free && !Linked(after, j) ensures j in held {
      if j != i && j != d { assert !Linked(fs, j); }
      if j == d { assert fs[i].kind == Dir || !Linked(fs, d); }
    }
  }

  lemma {:induction false} ResolveRange(fs: FS, ip: int, names: seq<string>, parent: bool)
    requires 0 <= ip < |fs|
    ensures var r := Resolve(fs, ip, names, parent); r.Found? ==>
      0 <= r.inum < |fs| && (parent ==> fs[r.inum].kind == Dir)
  {
  }

  lemma LinkDone(fs: FS, at: map<int, int>, held: set<int>, fs': FS, d: int, k: int, name: string, i: int)
    requires Inv(fs, at) && OnlyHeld(fs, held) && fs[0].kind == Free && 0 <= d < |fs| && 0 <= i < |fs|
    requires fs[d].kind == Dir && fs[i].kind != Dir && fs[i].kind != Free
    requires IsSlot(fs[d].entries, k) && Absent(fs[d].entries, name)
    requires fs' == WithEntry(fs[i := fs[i].(nlink := fs[i].nlink + 1)], d, k, Dirent(i, name))
    ensures 0 < d && FileAdded(fs, fs', d, k, name, i) && fs'[0].kind == Free
    ensures Inv(fs', at) && OnlyHeld(fs', held) <==> Linked(fs, d)
    ensures AllCounted(fs') && (CountsSurvive(fs', d) <==> Linked(fs, d))
  {
    assert FileAdded(fs, fs', d, k, name, i);
    assert Counted(fs, i);
    SlotAbove(fs, at, d, k, name);
    assert FileMade(fs, fs', d, k, name, i);
    FileMadeCounts(fs, at, fs', d, k, name, i);
    if Linked(fs, d) {
      FileAddedInv(fs, at, fs', d, k, name, i);
      assert OnlyHeld(fs', held);
    } else {
      UnlinkedGetsName(fs', at, d, k);
    }
    hide Inv;
  }

  // ---------------------------------------------------------------- what a path leads to after a call

  /** Nothing is taken away: inodes in use keep their kind, and names in directories lead where they led. */
  ghost predicate Extends(fs: FS, fs': FS) {
    && |fs'| == |fs|
    && (forall i :: 0 <= i < |fs| && fs[i].kind != Free ==> fs'[i].kind == fs[i].kind)
    && (forall i, name :: 0 <= i < |fs| && fs[i].kind == Dir && Child(fs, i, name).Found? ==>
          Child(fs', i, name) == Child(fs, i, name))
  }

  /** What was found is still found. */
  lemma {:induction false} ExtendsFound(fs: FS, fs': FS, ip: int, names: seq<string>, parent: bool)
    requires Extends(fs, fs') && Resolve(fs, ip, names, parent).Found?
    ensures Resolve(fs', ip, names, parent) == Resolve(fs, ip, names, parent)
    decreases |names|
  {
    hide Resolve, Find;
    if names == [] {
      ResolveEnd(fs, ip, parent);
      ResolveEnd(fs', ip, parent);
    } else {
      ResolveStep(fs, ip, names, parent);
      ResolveStep(fs', ip, names, parent);
      if !(parent && |names| == 1) {
        assert Child(fs, ip, names[0]).Found?;
        ExtendsFound(fs, fs', Child(fs, ip, names[0]).inum, names[1..], parent);
      }
    }
  }

  /** A new name in d leads to i, and no other name is disturbed. */
  lemma PutChild(es: seq<Dirent>, k: int, x: Dirent, name: string)
    requires IsSlot(es, k) && x.inum != 0 && Absent(es, x.name)
    ensures Find(Put(es, k, x), name) == if name == x.name then k else Find(es, name)
  {
    var es' := Put(es, k, x);
    assert es'[k] == x && forall j :: 0 <= j < |es| && j != k ==> es'[j] == es[j];
    if name == x.name {
      forall j | 0 <= j < |es'| && j != k && es'[j].inum != 0 ensures es'[j].name != name {
        assert es'[j] == es[j];
      }
      FindFirst(es', k, name);
    } else {
      FindSame(es, es', k, name);
    }
  }

  lemma FindSame(es: seq<Dirent>, es': seq<Dirent>, k: int, name: string)
    requires 0 <= k <= |es| <= |es'| && (forall j :: 0 <= j < |es| && j != k ==> es'[j] == es[j])
    requires forall j :: |es| <= j < |es'| || (j == k && k < |es'|) ==> es'[j].inum == 0 || es'[j].name != name
    requires k < |es| ==> es[k].inum == 0 || es[k].name != name
    ensures Find(es', name) == Find(es, name)
  {
    var a := Find(es, name);
    if a != -1 {
      assert forall j :: 0 <= j < a ==> es[..a][j] == es[j] && es'[..a][j] == es'[j];
      FindIs(es', a, name);
    } else {
      assert Absent(es', name);
    }
  }

  lemma FindIs(es: seq<Dirent>, k: int, name: string)
    requires 0 <= k < |es| && es[k].inum != 0 && es[k].name == name && Absent(es[..k], name)
    ensures Find(es, name) == k
  {
    var f := Find(es, name);
    assert !Absent(es, name);
    assert forall j :: 0 <= j < k ==> es[..k][j] == es[j];
    assert forall j :: 0 <= j < f ==> es[..f][j] == es[j];
  }

  lemma CreatedFound(fs: FS, fs': FS, d: int, k: int, name: string, i: int, kind: Kind, ip: int, names: seq<string>)
    requires Created(fs, fs', d, k, name, i, kind) && 0 <= ip < |fs| && names != [] && Last(names) == name
    requires Resolve(fs, ip, names, true) == Found(d) && kind != Free
    ensures Resolve(fs', ip, names, false) == Found(i)
  {
    hide Resolve, Find, Absent;
    forall j, n | 0 <= j < |fs| && fs[j].kind == Dir && Child(fs, j, n).Found?
      ensures Child(fs', j, n) == Child(fs, j, n)
    {
      PutChild(fs[d].entries, k, Dirent(i, name), n);
      ChildSame(fs, fs', d, k, Dirent(i, name), j, n);
    }
    ExtendsFound(fs, fs', ip, names, true);
    ResolveLast(fs', ip, names);
    PutChild(fs[d].entries, k, Dirent(i, name), name);
  }

  lemma ChildSame(fs: FS, fs': FS, d: int, k: int, x: Dirent, j: int, n: string)
    requires 0 <= d < |fs| == |fs'| && IsSlot(fs[d].entries, k) && Absent(fs[d].entries, x.name)
    requires fs'[d].entries == Put(fs[d].entries, k, x) && 0 <= j < |fs| && fs[j].kind == Dir && Child(fs, j, n).Found?
    requires j != d ==> fs'[j].entries == fs[j].entries
    requires x.inum != 0 && Find(Put(fs[d].entries, k, x), n) == if n == x.name then k else Find(fs[d].entries, n)
    ensures Child(fs', j, n) == Child(fs, j, n)
  {
    if j == d {
      assert n != x.name;
      var f := Find(fs[d].entries, n);
      assert f != k && fs'[d].entries[f] == fs[d].entries[f];
    }
  }

  lemma LinkedFound(fs: FS, fs': FS, d: int, k: int, name: string, i: int, ip: int, names: seq<string>)
    requires FileAdded(fs, fs', d, k, name, i) && 0 < i && 0 <= ip < |fs| && names != [] && Last(names) == name
    requires Resolve(fs, ip, names, true) == Found(d)
    ensures Resolve(fs', ip, names, false) == Found(i)
  {
    hide Resolve, Find, Absent;
    forall j, n | 0 <= j < |fs| && fs[j].kind == Dir && Child(fs, j, n).Found?
      ensures Child(fs', j, n) == Child(fs, j, n)
    {
      PutChild(fs[d].entries, k, Dirent(i, name), n);
      ChildSame(fs, fs', d, k, Dirent(i, name), j, n);
    }
    ExtendsFound(fs, fs', ip, names, true);
    ResolveLast(fs', ip, names);
    PutChild(fs[d].entries, k, Dirent(i, name), name);
  }

  /** The name is taken away from d, and perhaps its inode; names elsewhere lead where they led. */
  ghost predicate Loses(fs: FS, fs': FS, d: int, name: string) {
    && |fs'| == |fs| && 0 <= d < |fs| && (fs'[d].kind == Dir ==> Child(fs', d, name) == Missing)
    && (forall i :: 0 <= i < |fs| ==> fs'[i].kind == fs[i].kind || fs'[i].kind == Free)
    && (forall i, n :: 0 <= i < |fs| && fs'[i].kind == Dir && (i, n) != (d, name) ==>
          Child(fs', i, n) == Child(fs, i, n))
  }

  /** Then a path that led through d to the name leads nowhere. */
  lemma {:induction false} LosesFound(fs: FS, fs': FS, d: int, name: string, ip: int, names: seq<string>)
    requires Loses(fs, fs', d, name) && names != [] && Last(names) == name && Resolve(fs, ip, names, true) == Found(d)
    ensures !Resolve(fs', ip, names, false).Found?
    decreases |names|
  {
    hide Resolve, Find;
    ResolveStep(fs, ip, names, true);
    ResolveStep(fs', ip, names, false);
    if 0 <= ip < |fs| && fs'[ip].kind == Dir {
      if |names| == 1 {
        assert names == [name];
      } else if (ip, names[0]) != (d, name) {
        assert Child(fs', ip, names[0]) == Child(fs, ip, names[0]);
        assert Last(names[1..]) == name;
        LosesFound(fs, fs', d, name, Child(fs, ip, names[0]).inum, names[1..]);
      }
    }
  }

  lemma RemovedGone(fs: FS, at: map<int, int>, held: set<int>, fs': FS, d: int, name: string, ip: int,
                    names: seq<string>)
    requires Inv(fs, at) && 0 <= d < |fs| && fs[d].kind == Dir && Removable(fs, d, name)
    requires NameRemoved(fs, fs', held, d, name)
    requires names != [] && Last(names) == name && Resolve(fs, ip, names, true) == Found(d)
    ensures !Resolve(fs', ip, names, false).Found?
  {
    InvTree(fs, at, d);
    assert DirOk(fs, d);
    hide Inv, Resolve, Find;
    RemovedLoses(fs, held, fs', d, name);
    LosesFound(fs, fs', d, name, ip, names);
  }

  lemma RemovedLoses(fs: FS, held: set<int>, fs': FS, d: int, name: string)
    requires 0 <= d < |fs| && DirOk(fs, d) && fs[d].kind == Dir && Removable(fs, d, name)
    requires NameRemoved(fs, fs', held, d, name)
    ensures Loses(fs, fs', d, name)
  {
    var es, k := fs[d].entries, Find(fs[d].entries, name);
    var es' := Put(es, k, Dirent(0, ""));
    FindCleared(es, k, name);
    hide Find;
    forall n | n != name ensures Find(es', n) == Find(es, n) {
      FindSame(es, es', k, n);
    }
    hide DirOk;
    forall i, n | 0 <= i < |fs| && fs'[i].kind == Dir && (i, n) != (d, name)
      ensures Child(fs', i, n) == Child(fs, i, n)
    {
      if i == d {
        ChildKept(fs, fs', d, k, n);
      } else {
        assert fs'[i].entries == fs[i].entries;
      }
    }
  }

  lemma ChildKept(fs: FS, fs': FS, d: int, k: int, n: string)
    requires 0 <= d < |fs| == |fs'| && 0 <= k < |fs[d].entries|
    requires fs'[d].entries == Put(fs[d].entries, k, Dirent(0, ""))
    requires Find(fs'[d].entries, n) == Find(fs[d].entries, n) != k
    ensures Child(fs', d, n) == Child(fs, d, n)
  {
    hide Find;
  }

  lemma FindCleared(es: seq<Dirent>, k: int, name: string)
    requires 0 <= k < |es| && Find(es, name) == k
    requires forall i, j :: 0 <= i < j < |es| && es[i].inum != 0 && es[j].inum != 0 ==> es[i].name != es[j].name
    ensures Find(Put(es, k, Dirent(0, "")), name) == -1
  {
    var es' := Put(es, k, Dirent(0, ""));
    forall j | 0 <= j < |es'| && es'[j].inum != 0 ensures es'[j].name != name {
      assert j != k && es'[j] == es[j];
    }
    assert Absent(es', name);
  }

  // ---------------------------------------------------------------- what the calls do

  /** One more link to file i: entry k of d. */
  ghost predicate FileAdded(fs: FS, fs': FS, d: int, k: int, name: string, i: int) {
    && 0 <= d < |fs| && 0 <= i < |fs| && i != d && fs[d].kind == Dir && IsSlot(fs[d].entries, k)
    && Absent(fs[d].entries, name)
    && fs' == fs[i := fs[i].(nlink := fs[i].nlink + 1)][d := fs[d].(entries := Put(fs[d].entries, k, Dirent(i, name)))]
  }

  lemma SlotAbove(fs: FS, at: map<int, int>, d: int, k: int, name: string)
    requires Inv(fs, at) && 0 < d < |fs| && fs[d].kind == Dir && IsSlot(fs[d].entries, k) && Absent(fs[d].entries, name)
    ensures 2 <= k <= |fs[d].entries| && Target(fs, d, k) == 0 && name != "." && name != ".."
  {
    assert DirOk(fs, d);
    assert fs[d].entries[0].inum != 0 && fs[d].entries[1].inum != 0;
  }

  lemma FileAddedInv(fs: FS, at: map<int, int>, fs': FS, d: int, k: int, name: string, i: int)
    requires Inv(fs, at) && 0 < d < |fs| && FileAdded(fs, fs', d, k, name, i) && 0 < i && fs[i].kind != Dir
    requires fs[i].kind != Free && Linked(fs, d)
    ensures Inv(fs', at)
  {
    SlotAbove(fs, at, d, k, name);
    assert Edits(fs, fs', d, k, Dirent(i, name));
    hide Inv, Edits;
    AddFileInv(fs, at, fs', d, k, name, i);
  }

  /** A name put into an unlinked directory breaks the invariant, whatever else holds. */
  lemma UnlinkedGetsName(fs: FS, at: map<int, int>, d: int, k: int)
    requires 0 <= d < |fs| && fs[d].kind == Dir && !Linked(fs, d) && 2 <= k < |fs[d].entries|
    requires fs[d].entries[k].inum != 0
    ensures !Inv(fs, at)
  {
    InvTree(fs, at, d);
    hide Inv;
  }

  lemma InvTree(fs: FS, at: map<int, int>, d: int)
    ensures Inv(fs, at) ==> ROOT < |fs| && (0 <= d < |fs| ==> DirOk(fs, d) && TreeAt(fs, at, d))
  {
  }

  ghost predicate OnlyHeld(fs: FS, held: set<int>) {
    forall i :: 0 <= i < |fs| && fs[i].kind != Free && !Linked(fs, i) ==> i in held
  }

  lemma HeldLess(fs: FS, at: map<int, int>, held: set<int>, i: int)
    requires OnlyHeld(fs, held) && 0 <= i < |fs| && Inv(fs, at)
    ensures fs[i].nlink >= 0 && OnlyHeld(if fs[i].nlink == 0 then Freed(fs, i) else fs, held - {i})
  {
    assert Counted(fs, i);
    hide DirOk, TreeAt, Counted;
  }

  lemma RootInv(fs: FS)
    requires |fs| > ROOT && fs[ROOT] == NewDir(ROOT, ROOT)
    requires forall i :: 0 <= i < |fs| && i != ROOT ==> fs[i] == Ino(Free, 0, [])
    ensures Inv(fs, map[])
  {
    forall i | 0 <= i < |fs| ensures Counted(fs, i) {
      if i == ROOT {
        assert Site(fs, ROOT, 1, ROOT);
        assert Sites(fs, ROOT) == {(ROOT, 1)};
      } else {
        assert Sites(fs, i) == {};
      }
    }
    hide Counted;
  }

  // ---------------------------------------------------------------- a directory removed while in use

  /** The directory "a" has been made, entered and unlinked: inode 2, held by its user. */
  function Entered(): FS {
    [Ino(Free, 0, []),
     Ino(Dir, 1, [Dirent(1, "."), Dirent(1, ".."), Dirent(0, "")]),
     Ino(Dir, 0, [Dirent(2, "."), Dirent(1, "..")]),
     Ino(Free, 0, [])]
  }

  lemma EnteredInv() returns (at: map<int, int>)
    ensures Inv(Entered(), at) && OnlyHeld(Entered(), {2}) && !Linked(Entered(), 2)
  {
    var fs0 := [Ino(Free, 0, []), NewDir(1, 1), Ino(Free, 0, []), Ino(Free, 0, [])];
    RootInv(fs0);
    var fs1 := fs0[2 := NewDir(2, 1)][1 := Ino(Dir, 2, Put(fs0[1].entries, 2, Dirent(2, "a")))];
    assert MakesDir(fs0, fs1, 1, 2, "a", 2);
    MakesDirInv(fs0, map[], fs1, 1, 2, "a", 2);
    assert fs1[1].entries == [Dirent(1, "."), Dirent(1, ".."), Dirent(2, "a")];
    assert Names(fs1, 1, 2, 2);
    assert Entered()[1].entries == Put(fs1[1].entries, 2, Dirent(0, ""));
    assert DropsDir(fs1, Entered(), 1, 2, 2);
    hide Inv, DropsDir;
    at := map[][2 := 2];
    DropsDirInv(fs1, at, Entered(), 1, 2, 2);
  }

  /** A directory made there leaves the root with a ".." that its link count does not have. */
  lemma OrphanShown() returns (fs': FS)
    ensures Created(Entered(), fs', 2, 2, "x", 3, Dir) && !Counted(fs', 1)
  {
    var fs := Entered();
    var at := EnteredInv();
    fs' := fs[3 := NewDir(3, 2)][2 := fs[2].(nlink := 1, entries := Put(fs[2].entries, 2, Dirent(3, "x")))];
    InvTree(fs, at, 2);
    InvCounted(fs, at);
    hide Inv;
    OrphanDir(fs, fs', 2, 2, "x", 3);
  }

  /** A file made there is counted right until the directory is released, which leaves it a link without a name. */
  lemma LostFileShown() returns (fs': FS)
    ensures Created(Entered(), fs', 2, 2, "x", 3, File) && AllCounted(fs') && !Counted(Freed(fs', 2), 3)
  {
    var fs := Entered();
    var at := EnteredInv();
    fs' := fs[3 := Ino(File, 1, [])][2 := fs[2].(entries := Put(fs[2].entries, 2, Dirent(3, "x")))];
    assert FileMade(fs, fs', 2, 2, "x", 3);
    FileMadeCounts(fs, at, fs', 2, 2, "x", 3);
    InvTree(fs, at, 2);
    hide Inv;
    PutOk(fs, fs', 2, 2, Dirent(3, "x"));
    LostName(fs', 2, 2);
  }
}
