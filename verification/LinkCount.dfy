/**
  Directories and link counts: dirlookup and dirlink of fs.c, link, unlink and create of sysfile.c.
  A directory is the sequence of its entries; the byte layer under it is the Inode module's.
 */
module LinkCount {
  const ROOT: int := 1
  const DIRSIZ: int := 14
  const MAXENTRIES: int := 4416 // 138 blocks of 512 bytes, 16 bytes an entry
  const MAXLINK: int := 32767   // the largest short

  datatype Kind = Free | Dir | File | Dev

  datatype Dirent = Dirent(inum: int, name: string) // inum 0: unused

  datatype Ino = Ino(kind: Kind, nlink: int, entries: seq<Dirent>)

  type FS = seq<Ino>

  // ---------------------------------------------------------------- what a link count counts

  predicate IsEntry(fs: FS, d: int, k: int) {
    0 <= d < |fs| && 0 <= k < |fs[d].entries|
  }

  function Ent(fs: FS, d: int, k: int): Dirent
    requires IsEntry(fs, d, k)
  {
    fs[d].entries[k]
  }

  predicate Linked(fs: FS, d: int) {
    0 <= d < |fs| && fs[d].nlink > 0
  }

  /** Entry k of d counts as a link to i: any name but ".", and ".." only in a linked directory. */
  predicate Site(fs: FS, d: int, k: int, i: int) {
    IsEntry(fs, d, k) && Ent(fs, d, k).inum == i && i != 0 && Ent(fs, d, k).name != "."
      && (Ent(fs, d, k).name == ".." ==> Linked(fs, d))
  }

  ghost function Sites(fs: FS, i: int): set<(int, int)> {
    set d, k | 0 <= d < |fs| && 0 <= k < |fs[d].entries| && Site(fs, d, k, i) :: (d, k)
  }

  ghost predicate Counted(fs: FS, i: int) {
    0 <= i < |fs| && fs[i].nlink == |Sites(fs, i)|
  }

  /** Every link count is right. */
  ghost predicate AllCounted(fs: FS) {
    forall i :: 0 <= i < |fs| ==> Counted(fs, i)
  }

  /** Every link count fits the short that holds it. */
  predicate Short(fs: FS) {
    forall i :: 0 <= i < |fs| ==> fs[i].nlink <= MAXLINK
  }

  /** Dots first, names used once, entries only in directories. */
  ghost predicate DirOk(fs: FS, d: int)
    requires 0 <= d < |fs|
  {
    var es := fs[d].entries;
    && (fs[d].kind != Dir ==> es == [])
    && (fs[d].kind == Dir ==>
          |es| >= 2 && es[0] == Dirent(d, ".") && es[1].name == ".." && 0 < es[1].inum < |fs|)
    && (forall k :: 2 <= k < |es| && es[k].inum != 0 ==>
          es[k].name != "." && es[k].name != ".." && 0 < es[k].inum < |fs|)
    && (forall j, k :: 0 <= j < k < |es| && es[j].inum != 0 && es[k].inum != 0 ==> es[j].name != es[k].name)
  }

  /** Entry k >= 2 of d. */
  predicate Names(fs: FS, d: int, k: int, i: int) {
    IsEntry(fs, d, k) && k >= 2 && Ent(fs, d, k).inum == i && i != 0
  }

  function Parent(fs: FS, i: int): int
    requires 0 <= i < |fs| && |fs[i].entries| >= 2
  {
    fs[i].entries[1].inum
  }

  /** A directory is named by one entry, at[i] of its parent; the root by none; an unlinked one is empty. */
  ghost predicate TreeAt(fs: FS, at: map<int, int>, i: int)
    requires 0 <= i < |fs| && DirOk(fs, i)
  {
    fs[i].kind == Dir ==>
      && (Linked(fs, i) && i != ROOT ==> i in at && Names(fs, Parent(fs, i), at[i], i))
      && (!Linked(fs, i) ==> forall k :: 2 <= k < |fs[i].entries| ==> fs[i].entries[k].inum == 0)
      && (forall d, k :: Names(fs, d, k, i) ==> d == Parent(fs, i) && i in at && k == at[i])
  }

  ghost predicate Inv(fs: FS, at: map<int, int>) {
    && ROOT < |fs| && fs[ROOT].kind == Dir && Linked(fs, ROOT)
    && (forall i :: 0 <= i < |fs| ==> DirOk(fs, i))
    && (forall i :: 0 <= i < |fs| ==> Counted(fs, i))
    && (forall i :: 0 <= i < |fs| ==> TreeAt(fs, at, i))
    && DirOk(fs, ROOT) && Parent(fs, ROOT) == ROOT && (forall d, k :: !Names(fs, d, k, ROOT))
    && (forall i :: 0 <= i < |fs| && fs[i].kind == Free ==> fs[i].nlink == 0)
  }

  // ---------------------------------------------------------------- changing one entry

  /** Directory d with entry x at k, which may be the next free position. */
  function Put(es: seq<Dirent>, k: int, x: Dirent): seq<Dirent>
    requires 0 <= k <= |es|
  {
    if k == |es| then es + [x] else es[k := x]
  }

  function WithEntry(fs: FS, d: int, k: int, x: Dirent): FS
    requires 0 <= d < |fs| && 0 <= k <= |fs[d].entries|
  {
    fs[d := fs[d].(entries := Put(fs[d].entries, k, x))]
  }

  /** Entry m of e is the same in both, and so is what it counts for. */
  predicate SameAt(fs: FS, fs': FS, e: int, m: int) {
    (IsEntry(fs', e, m) <==> IsEntry(fs, e, m))
      && (IsEntry(fs, e, m) ==> Ent(fs', e, m) == Ent(fs, e, m) && (Linked(fs', e) <==> Linked(fs, e)))
  }

  /** Sites where nothing differs stay as they are. */
  lemma SitesOutside(fs: FS, fs': FS, X: set<(int, int)>, j: int)
    requires forall e, m :: (e, m) !in X ==> SameAt(fs, fs', e, m)
    ensures Sites(fs', j) - X == Sites(fs, j) - X
  {
    forall e, m | (e, m) !in X ensures Site(fs', e, m, j) <==> Site(fs, e, m, j) {
      assert SameAt(fs, fs', e, m);
    }
    forall x | x in Sites(fs', j) - X ensures x in Sites(fs, j) - X {
      assert Site(fs', x.0, x.1, j);
    }
    forall x | x in Sites(fs, j) - X ensures x in Sites(fs', j) - X {
      assert Site(fs, x.0, x.1, j);
    }
  }

  lemma SitesHas(fs: FS, e: int, m: int, j: int)
    ensures (e, m) in Sites(fs, j) <==> Site(fs, e, m, j)
  {
  }

  /** One site differs. */
  lemma SitesOne(fs: FS, fs': FS, d: int, k: int, j: int)
    requires forall e, m :: (e, m) != (d, k) ==> SameAt(fs, fs', e, m)
    ensures |Sites(fs', j)| ==
      |Sites(fs, j)| + (if Site(fs', d, k, j) then 1 else 0) - (if Site(fs, d, k, j) then 1 else 0)
  {
    hide Sites, Site, SameAt;
    SitesOutside(fs, fs', {(d, k)}, j);
    SitesHas(fs, d, k, j);
    SitesHas(fs', d, k, j);
    OneDiffers(Sites(fs, j), Sites(fs', j), (d, k));
  }

  lemma OneDiffers(a: set<(int, int)>, b: set<(int, int)>, x: (int, int))
    requires a - {x} == b - {x}
    ensures |b| == |a| + (if x in b then 1 else 0) - (if x in a then 1 else 0)
  {
    assert a == (a - {x}) + (if x in a then {x} else {});
    assert b == (b - {x}) + (if x in b then {x} else {});
  }

  // ---- what else an entry change keeps

  /** No used entry of es has this name. */
  predicate Absent(es: seq<Dirent>, name: string) {
    forall k :: 0 <= k < |es| && es[k].inum != 0 ==> es[k].name != name
  }

  lemma PutOk(fs: FS, fs': FS, d: int, k: int, x: Dirent)
    requires |fs'| == |fs| && 0 <= d < |fs| && DirOk(fs, d) && fs[d].kind == Dir && fs'[d].kind == Dir
    requires 2 <= k <= |fs[d].entries| && fs'[d].entries == Put(fs[d].entries, k, x)
    requires x.inum != 0 ==> 0 < x.inum < |fs| && x.name != "." && x.name != ".." && Absent(fs[d].entries, x.name)
    ensures DirOk(fs', d)
  {
    var es, es' := fs[d].entries, fs'[d].entries;
    forall m | 0 <= m < |es'| && m != k ensures m < |es| && es'[m] == es[m] {
    }
    assert es'[k] == x;
  }

  // ---------------------------------------------------------------- files: link, unlink, create

  /** Entry k of d becomes x; link counts may change, but no directory gets linked or unlinked. */
  ghost predicate Edits(fs: FS, fs': FS, d: int, k: int, x: Dirent) {
    && |fs'| == |fs| && 0 <= d < |fs| && fs[d].kind == Dir && 2 <= k <= |fs[d].entries|
    && fs'[d].entries == Put(fs[d].entries, k, x)
    && (forall e :: 0 <= e < |fs| && e != d ==> fs'[e].entries == fs[e].entries)
    && (forall e :: 0 <= e < |fs| ==> (fs'[e].kind == Dir <==> fs[e].kind == Dir))
    && (forall e :: 0 <= e < |fs| && fs[e].kind == Dir ==> (Linked(fs', e) <==> Linked(fs, e)))
  }

  lemma EditsSame(fs: FS, fs': FS, d: int, k: int, x: Dirent)
    requires Edits(fs, fs', d, k, x) && forall e :: 0 <= e < |fs| ==> DirOk(fs, e)
    ensures forall e, m :: (e, m) != (d, k) ==> SameAt(fs, fs', e, m)
  {
    forall e, m | (e, m) != (d, k) ensures SameAt(fs, fs', e, m) {
      if 0 <= e < |fs| { assert DirOk(fs, e); }
    }
  }

  lemma EditsDirOk(fs: FS, fs': FS, d: int, k: int, x: Dirent)
    requires Edits(fs, fs', d, k, x) && forall e :: 0 <= e < |fs| ==> DirOk(fs, e)
    requires x.inum != 0 ==> 0 < x.inum < |fs| && x.name != "." && x.name != ".." && Absent(fs[d].entries, x.name)
    ensures forall e :: 0 <= e < |fs| ==> DirOk(fs', e)
  {
    forall e | 0 <= e < |fs| ensures DirOk(fs', e) {
      if e == d {
        PutOk(fs, fs', d, k, x);
      } else {
        EntriesOk(fs, fs', e);
      }
    }
  }

  lemma EntriesOk(fs: FS, fs': FS, e: int)
    requires |fs'| == |fs| && 0 <= e < |fs| && DirOk(fs, e) && fs'[e].entries == fs[e].entries
    requires fs'[e].kind == Dir <==> fs[e].kind == Dir
    ensures DirOk(fs', e)
  {
  }

  /** Neither the old nor the new target of the entry is a directory. */
  ghost predicate NonDir(fs: FS, i: int) {
    i != 0 ==> 0 <= i < |fs| && fs[i].kind != Dir
  }

  function Target(fs: FS, d: int, k: int): int
    requires 0 <= d < |fs|
  {
    if 0 <= k < |fs[d].entries| then fs[d].entries[k].inum else 0
  }

  lemma EditsNames(fs: FS, fs': FS, d: int, k: int, x: Dirent, i: int)
    requires Edits(fs, fs', d, k, x) && NonDir(fs', x.inum) && NonDir(fs, Target(fs, d, k)) && 0 <= i < |fs|
    requires fs[i].kind == Dir
    ensures forall e, m :: Names(fs', e, m, i) <==> Names(fs, e, m, i)
  {
    forall e, m ensures Names(fs', e, m, i) <==> Names(fs, e, m, i) {
      if e == d && m == k && IsEntry(fs', e, m) { assert Ent(fs', e, m) == x; }
    }
  }

  lemma EditsTree(fs: FS, at: map<int, int>, fs': FS, d: int, k: int, x: Dirent, i: int)
    requires Edits(fs, fs', d, k, x) && NonDir(fs', x.inum) && NonDir(fs, Target(fs, d, k))
    requires x.inum != 0 ==> Linked(fs, d)
    requires 0 <= i < |fs| && DirOk(fs, i) && DirOk(fs', i) && TreeAt(fs, at, i)
    ensures TreeAt(fs', at, i)
  {
    if fs[i].kind == Dir {
      EditsNames(fs, fs', d, k, x, i);
      hide Names;
    }
  }

  lemma EditsInv(fs: FS, at: map<int, int>, fs': FS, d: int, k: int, x: Dirent)
    requires Inv(fs, at) && Edits(fs, fs', d, k, x) && NonDir(fs', x.inum) && NonDir(fs, Target(fs, d, k))
    requires x.inum != 0 ==> Linked(fs, d)
    requires x.inum != 0 ==> 0 < x.inum < |fs| && x.name != "." && x.name != ".." && Absent(fs[d].entries, x.name)
    requires forall j :: 0 <= j < |fs| ==> Counted(fs', j)
    requires forall i :: 0 <= i < |fs| && fs'[i].kind == Free ==> fs'[i].nlink == 0
    ensures Inv(fs', at)
  {
    hide Counted, Names, TreeAt;
    EditsDirOk(fs, fs', d, k, x);
    forall i | 0 <= i < |fs| ensures TreeAt(fs', at, i) {
      EditsTree(fs, at, fs', d, k, x, i);
    }
    EditsNames(fs, fs', d, k, x, ROOT);
    assert DirOk(fs, ROOT) && DirOk(fs', ROOT);
  }

  /** sys_link(), and the file case of create(): a new entry for i and one more link keep every count right. */
  lemma AddFileCounts(fs: FS, at: map<int, int>, fs': FS, d: int, k: int, name: string, i: int)
    requires Inv(fs, at) && Edits(fs, fs', d, k, Dirent(i, name)) && Target(fs, d, k) == 0
    requires 0 < i < |fs| && name != "." && name != ".."
    requires forall j :: 0 <= j < |fs| ==> fs'[j].nlink == fs[j].nlink + if j == i then 1 else 0
    ensures AllCounted(fs')
  {
    EditsSame(fs, fs', d, k, Dirent(i, name));
    assert IsEntry(fs', d, k) && Ent(fs', d, k) == Dirent(i, name);
    forall j | 0 <= j < |fs| ensures Counted(fs', j) {
      assert Counted(fs, j);
      SitesOne(fs, fs', d, k, j);
    }
  }

  /** In a linked directory they keep the whole invariant. */
  lemma AddFileInv(fs: FS, at: map<int, int>, fs': FS, d: int, k: int, name: string, i: int)
    requires Inv(fs, at) && Edits(fs, fs', d, k, Dirent(i, name)) && Target(fs, d, k) == 0 && Linked(fs, d)
    requires 0 < i < |fs| && fs'[i].kind != Dir && fs'[i].kind != Free && name != "." && name != ".."
    requires Absent(fs[d].entries, name)
    requires forall j :: 0 <= j < |fs| ==> fs'[j].nlink == fs[j].nlink + if j == i then 1 else 0
    requires forall j :: 0 <= j < |fs| && j != i ==> fs'[j].kind == fs[j].kind
    ensures Inv(fs', at)
  {
    AddFileCounts(fs, at, fs', d, k, name, i);
    EditsInv(fs, at, fs', d, k, Dirent(i, name));
  }

  /** A named inode has a link, so the panic "nlink < 1" is unreachable. */
  lemma NamedLinked(fs: FS, at: map<int, int>, d: int, k: int, i: int)
    requires Inv(fs, at) && Names(fs, d, k, i)
    ensures 0 < i < |fs| && fs[i].nlink >= 1 && fs[i].kind != Free && Site(fs, d, k, i)
  {
    assert DirOk(fs, d) && Ent(fs, d, k) == fs[d].entries[k];
    assert Site(fs, d, k, i);
    SitesHas(fs, d, k, i);
    assert Counted(fs, i);
    hide TreeAt;
  }

  /** sys_unlink() of a file: its entry cleared and one link less. */
  lemma RemoveFileInv(fs: FS, at: map<int, int>, fs': FS, d: int, k: int, i: int)
    requires Inv(fs, at) && Edits(fs, fs', d, k, Dirent(0, "")) && Names(fs, d, k, i) && 0 < i < |fs|
    requires fs[i].kind != Dir
    requires forall j :: 0 <= j < |fs| ==>
      fs'[j].nlink == fs[j].nlink - (if j == i then 1 else 0) && fs'[j].kind == fs[j].kind
    ensures fs[i].nlink >= 1 && Inv(fs', at)
  {
    NamedLinked(fs, at, d, k, i);
    EditsSame(fs, fs', d, k, Dirent(0, ""));
    assert IsEntry(fs', d, k) && Ent(fs', d, k) == Dirent(0, "");
    forall j | 0 <= j < |fs| ensures Counted(fs', j) {
      assert Counted(fs, j);
      SitesOne(fs, fs', d, k, j);
    }
    EditsInv(fs, at, fs', d, k, Dirent(0, ""));
  }

  // ---------------------------------------------------------------- directories: create

  function NewDir(i: int, d: int): Ino {
    Ino(Dir, 1, [Dirent(i, "."), Dirent(d, "..")])
  }

  /** create() of a directory i named name in d. */
  ghost predicate MakesDir(fs: FS, fs': FS, d: int, k: int, name: string, i: int) {
    && 0 < d < |fs| && 0 < i < |fs| && i != d && fs[d].kind == Dir && fs[i].kind == Free && 2 <= k <= |fs[d].entries|
    && Target(fs, d, k) == 0
    && Linked(fs, d) && name != "." && name != ".." && Absent(fs[d].entries, name)
    && fs' == fs[i := NewDir(i, d)][d := Ino(Dir, fs[d].nlink + 1, Put(fs[d].entries, k, Dirent(i, name)))]
  }

  lemma MakesDirOk(fs: FS, fs': FS, d: int, k: int, name: string, i: int)
    requires MakesDir(fs, fs', d, k, name, i) && forall e :: 0 <= e < |fs| ==> DirOk(fs, e)
    ensures forall e :: 0 <= e < |fs| ==> DirOk(fs', e)
  {
    forall e | 0 <= e < |fs| ensures DirOk(fs', e) {
      if e == d {
        PutOk(fs, fs', d, k, Dirent(i, name));
      } else if e != i {
        EntriesOk(fs, fs', e);
      }
    }
  }

  lemma MakesDirSame(fs: FS, fs': FS, d: int, k: int, name: string, i: int)
    requires MakesDir(fs, fs', d, k, name, i) && DirOk(fs, i)
    ensures forall e, m :: (e, m) !in {(i, 0), (i, 1), (d, k)} ==> SameAt(fs, fs', e, m)
  {
    forall e, m | (e, m) !in {(i, 0), (i, 1), (d, k)} ensures SameAt(fs, fs', e, m) {
    }
  }

  lemma MakesDirNew(fs: FS, fs': FS, d: int, k: int, name: string, i: int, j: int)
    requires MakesDir(fs, fs', d, k, name, i) && DirOk(fs, i)
    ensures !Site(fs, i, 0, j) && !Site(fs, i, 1, j) && !Site(fs, d, k, j)
    ensures !Site(fs', i, 0, j) && (Site(fs', i, 1, j) <==> j == d) && (Site(fs', d, k, j) <==> j == i)
  {
    assert IsEntry(fs', i, 0) && Ent(fs', i, 0) == Dirent(i, ".");
    assert IsEntry(fs', i, 1) && Ent(fs', i, 1) == Dirent(d, "..") && Linked(fs', i);
    assert IsEntry(fs', d, k) && Ent(fs', d, k) == Dirent(i, name);
  }

  /** The new entry counts for i and the new ".." for d. */
  lemma MakesDirSites(fs: FS, fs': FS, d: int, k: int, name: string, i: int, j: int)
    requires MakesDir(fs, fs', d, k, name, i) && DirOk(fs, i)
    ensures |Sites(fs', j)| == |Sites(fs, j)| + (if j == i || j == d then 1 else 0)
  {
    MakesDirSame(fs, fs', d, k, name, i);
    MakesDirNew(fs, fs', d, k, name, i, j);
    hide Sites, Site, SameAt, DirOk;
    SitesOutside(fs, fs', {(i, 0), (i, 1), (d, k)}, j);
    SitesHas(fs, i, 0, j);
    SitesHas(fs, i, 1, j);
    SitesHas(fs, d, k, j);
    SitesHas(fs', i, 0, j);
    SitesHas(fs', i, 1, j);
    SitesHas(fs', d, k, j);
    ThreeDiffer(Sites(fs, j), Sites(fs', j), (i, 0), (i, 1), (d, k));
  }

  lemma ThreeDiffer(a: set<(int, int)>, b: set<(int, int)>, x: (int, int), y: (int, int), z: (int, int))
    requires a - {x, y, z} == b - {x, y, z} && y != z && x !in a && y !in a && z !in a && x !in b
    ensures |b| == |a| + (if y in b then 1 else 0) + (if z in b then 1 else 0)
  {
    var c := b - {z};
    forall w ensures w in a - {y} <==> w in c - {y} {
      assert w in a - {x, y, z} <==> w in b - {x, y, z};
    }
    assert a - {y} == c - {y};
    OneDiffers(a, c, y);
    OneDiffers(c, b, z);
  }

  lemma MakesDirTree(fs: FS, at: map<int, int>, fs': FS, d: int, k: int, name: string, i: int, j: int)
    requires Inv(fs, at) && MakesDir(fs, fs', d, k, name, i) && 0 <= j < |fs| && DirOk(fs', j)
    ensures TreeAt(fs', at[i := k], j)
  {
    forall e, m ensures Names(fs', e, m, i) <==> (e, m) == (d, k) {
      if Names(fs, e, m, i) { NamedLinked(fs, at, e, m, i); }
    }
    if j != i {
      assert DirOk(fs, i);
      forall e, m ensures Names(fs', e, m, j) <==> Names(fs, e, m, j) {
        if e == d && m == k { assert IsEntry(fs', d, k) && Ent(fs', d, k) == Dirent(i, name); }
      }
      assert TreeAt(fs, at, j);
      hide Names;
    }
  }

  lemma MakesDirInv(fs: FS, at: map<int, int>, fs': FS, d: int, k: int, name: string, i: int)
    requires Inv(fs, at) && MakesDir(fs, fs', d, k, name, i)
    ensures Inv(fs', at[i := k])
  {
    MakesDirOk(fs, fs', d, k, name, i);
    assert DirOk(fs, d) && DirOk(fs, i);
    var at' := at[i := k];
    forall j | 0 <= j < |fs| ensures Counted(fs', j) {
      assert Counted(fs, j);
      MakesDirSites(fs, fs', d, k, name, i, j);
    }
    forall j | 0 <= j < |fs| ensures TreeAt(fs', at', j) {
      MakesDirTree(fs, at, fs', d, k, name, i, j);
    }
    forall e, m ensures !Names(fs', e, m, ROOT) {
      assert !Names(fs, e, m, ROOT);
    }
    hide TreeAt, Counted;
  }

  /** Inode 0 is never a linked directory: no entry can name it. */
  lemma NotZero(fs: FS, at: map<int, int>, d: int)
    requires Inv(fs, at) && Linked(fs, d)
    ensures d != 0
  {
    assert Counted(fs, d);
    forall e, k ensures !Site(fs, e, k, 0) {
    }
    assert Sites(fs, 0) == {};
    hide TreeAt;
  }

  // ---------------------------------------------------------------- directories: unlink

  predicate IsEmpty(fs: FS, i: int)
    requires 0 <= i < |fs|
  {
    forall k :: 2 <= k < |fs[i].entries| ==> fs[i].entries[k].inum == 0
  }

  ghost predicate DropsDir(fs: FS, fs': FS, d: int, k: int, i: int) {
    && 0 <= d < |fs| && 0 < i < |fs| && i != d && Names(fs, d, k, i) && fs[i].kind == Dir && IsEmpty(fs, i)
    && fs' == fs[d := fs[d].(nlink := fs[d].nlink - 1, entries := Put(fs[d].entries, k, Dirent(0, "")))]
                [i := fs[i].(nlink := fs[i].nlink - 1)]
  }

  /** An empty directory has one link, and its parent at least two. */
  lemma EmptyLinks(fs: FS, at: map<int, int>, d: int, k: int, i: int)
    requires Inv(fs, at) && Names(fs, d, k, i) && 0 < i < |fs| && fs[i].kind == Dir && IsEmpty(fs, i)
    ensures DirOk(fs, i) && i != d && i != ROOT && Parent(fs, i) == d && fs[d].kind == Dir && Linked(fs, d) && 0 < d
    ensures fs[i].nlink == 1 && fs[d].nlink >= 2
    ensures Linked(fs, i) && Site(fs, i, 1, d)
  {
    NamedLinked(fs, at, d, k, i);
    assert TreeAt(fs, at, i) && DirOk(fs, i) && DirOk(fs, d) && TreeAt(fs, at, d);
    NotZero(fs, at, d);
    forall e, m | Site(fs, e, m, i) ensures (e, m) == (d, k) {
      OnlySite(fs, at, i, e, m);
    }
    SitesHas(fs, d, k, i);
    assert Sites(fs, i) == {(d, k)};
    assert Counted(fs, i) && Counted(fs, d);
    ParentSites(fs, at, d, i);
  }

  lemma OnlySite(fs: FS, at: map<int, int>, i: int, e: int, m: int)
    requires Inv(fs, at) && 0 < i < |fs| && fs[i].kind == Dir && IsEmpty(fs, i) && i != ROOT && Site(fs, e, m, i)
    ensures Names(fs, e, m, i)
  {
    assert DirOk(fs, e) && Ent(fs, e, m) == fs[e].entries[m];
    if Linked(fs, e) { ChildNamed(fs, at, e); }
  }

  lemma ChildNamed(fs: FS, at: map<int, int>, e: int)
    requires Inv(fs, at) && Linked(fs, e) && fs[e].kind == Dir
    ensures DirOk(fs, e) && (e == ROOT ==> Parent(fs, e) == ROOT)
    ensures e != ROOT ==> e in at && Names(fs, Parent(fs, e), at[e], e)
  {
    assert DirOk(fs, e) && TreeAt(fs, at, e);
  }

  lemma ParentSites(fs: FS, at: map<int, int>, d: int, i: int)
    requires Inv(fs, at) && 0 < i < |fs| && 0 < d < |fs| && fs[i].kind == Dir && fs[d].kind == Dir && DirOk(fs, i)
    requires Parent(fs, i) == d
    requires Linked(fs, d) && Linked(fs, i)
    requires i != d && i != ROOT
    ensures |Sites(fs, d)| >= 2 && Site(fs, i, 1, d)
  {
    assert DirOk(fs, i) && DirOk(fs, d) && TreeAt(fs, at, d);
    var e, m := if d == ROOT then ROOT else Parent(fs, d), if d == ROOT then 1 else at[d];
    if d != ROOT { NamedLinked(fs, at, e, m, d); }
    assert Site(fs, e, m, d) && Site(fs, i, 1, d);
    SitesHas(fs, e, m, d);
    SitesHas(fs, i, 1, d);
    assert (e, m) != (i, 1);
    var a := Sites(fs, d);
    hide Sites, Site, TreeAt, Names;
    TwoIn(a, (e, m), (i, 1));
  }

  lemma TwoIn(a: set<(int, int)>, x: (int, int), y: (int, int))
    requires x in a && y in a && x != y
    ensures |a| >= 2
  {
    assert |a - {x} - {y}| == |a| - 2;
  }

  /** The entry and the ".." of the unlinked directory no longer count. */
  lemma DropsDirSite(fs: FS, at: map<int, int>, fs': FS, d: int, k: int, i: int, e: int, m: int, j: int)
    requires Inv(fs, at) && DropsDir(fs, fs', d, k, i)
    ensures Site(fs', e, m, j) <==> Site(fs, e, m, j) && (e, m) != (d, k) && (e, m) != (i, 1)
    ensures (e, m) == (d, k) ==> (Site(fs, e, m, j) <==> j == i)
    ensures (e, m) == (i, 1) ==> (Site(fs, e, m, j) <==> j == d)
  {
    EmptyLinks(fs, at, d, k, i);
    NamedLinked(fs, at, d, k, i);
    assert DirOk(fs, i) && DirOk(fs, d);
    hide TreeAt, Counted, Sites;
    if e == d && m == k {
      assert IsEntry(fs', d, k) && Ent(fs', d, k) == Dirent(0, "");
    } else if e == i {
      assert !Linked(fs', i);
    } else {
      assert Linked(fs', e) <==> Linked(fs, e);
    }
  }

  lemma DropsDirSites(fs: FS, at: map<int, int>, fs': FS, d: int, k: int, i: int, j: int)
    requires Inv(fs, at) && DropsDir(fs, fs', d, k, i)
    ensures |Sites(fs', j)| == |Sites(fs, j)| - (if j == i then 1 else 0) - (if j == d then 1 else 0)
  {
    var a, b := Sites(fs, j), Sites(fs', j);
    forall w: (int, int) ensures w in b <==> w in a && w != (d, k) && w != (i, 1) {
      assert w == (w.0, w.1);
      SitesHas(fs, w.0, w.1, j);
      SitesHas(fs', w.0, w.1, j);
      DropsDirSite(fs, at, fs', d, k, i, w.0, w.1, j);
    }
    SitesHas(fs, d, k, j);
    SitesHas(fs, i, 1, j);
    DropsDirSite(fs, at, fs', d, k, i, d, k, j);
    DropsDirSite(fs, at, fs', d, k, i, i, 1, j);
    hide Sites, Site, Inv, DropsDir;
    TwoGone(a, b, (d, k), (i, 1));
  }

  lemma TwoGone(a: set<(int, int)>, b: set<(int, int)>, x: (int, int), y: (int, int))
    requires x != y && forall w :: w in b <==> w in a && w != x && w != y
    ensures |b| == |a| - (if x in a then 1 else 0) - (if y in a then 1 else 0)
  {
    var c := a - {x};
    OneGone(a, x);
    OneGone(c, y);
    SameSet(b, c - {y});
  }

  lemma OneGone(a: set<(int, int)>, x: (int, int))
    ensures |a - {x}| == |a| - if x in a then 1 else 0
  {
  }

  lemma SameSet(a: set<(int, int)>, b: set<(int, int)>)
    requires forall w :: w in a <==> w in b
    ensures a == b
  {
  }

  lemma DropsDirOk(fs: FS, fs': FS, d: int, k: int, i: int)
    requires DropsDir(fs, fs', d, k, i) && fs[d].kind == Dir && forall e :: 0 <= e < |fs| ==> DirOk(fs, e)
    ensures forall e :: 0 <= e < |fs| ==> DirOk(fs', e)
  {
    forall e | 0 <= e < |fs| ensures DirOk(fs', e) {
      if e == d {
        PutOk(fs, fs', d, k, Dirent(0, ""));
      } else {
        EntriesOk(fs, fs', e);
      }
    }
  }

  lemma DropsDirTree(fs: FS, at: map<int, int>, fs': FS, d: int, k: int, i: int, j: int)
    requires Inv(fs, at) && DropsDir(fs, fs', d, k, i) && 0 <= j < |fs| && DirOk(fs', j)
    ensures TreeAt(fs', at, j)
  {
    EmptyLinks(fs, at, d, k, i);
    assert DirOk(fs, j) && TreeAt(fs, at, j) && TreeAt(fs, at, i);
    forall e, m ensures Names(fs', e, m, j) <==> Names(fs, e, m, j) && (e, m) != (d, k) {
      if e == d && m == k { assert IsEntry(fs', d, k) && Ent(fs', d, k) == Dirent(0, ""); }
    }
    hide Counted, Names;
  }

  /** sys_unlink() of an empty directory. */
  lemma DropsDirInv(fs: FS, at: map<int, int>, fs': FS, d: int, k: int, i: int)
    requires Inv(fs, at) && DropsDir(fs, fs', d, k, i)
    ensures Inv(fs', at)
  {
    EmptyLinks(fs, at, d, k, i);
    DropsDirOk(fs, fs', d, k, i);
    forall j | 0 <= j < |fs| ensures Counted(fs', j) {
      assert Counted(fs, j);
      DropsDirSites(fs, at, fs', d, k, i, j);
    }
    forall j | 0 <= j < |fs| ensures TreeAt(fs', at, j) {
      DropsDirTree(fs, at, fs', d, k, i, j);
    }
    forall e, m ensures !Names(fs', e, m, ROOT) {
      assert !Names(fs, e, m, ROOT);
    }
    hide TreeAt, Counted;
  }

  // ---------------------------------------------------------------- the last reference

  /** iput() of an inode without links: its contents are given up. */
  function Freed(fs: FS, i: int): FS
    requires 0 <= i < |fs|
  {
    fs[i := Ino(Free, 0, [])]
  }

  lemma FreedNames(fs: FS, at: map<int, int>, i: int)
    requires Inv(fs, at) && 0 <= i < |fs| && !Linked(fs, i)
    ensures forall e, m, j :: Names(Freed(fs, i), e, m, j) <==> Names(fs, e, m, j)
    ensures forall e, m, j :: Site(Freed(fs, i), e, m, j) <==> Site(fs, e, m, j)
  {
    assert DirOk(fs, i) && TreeAt(fs, at, i) && Counted(fs, i);
  }

  lemma FreedInv(fs: FS, at: map<int, int>, i: int)
    requires Inv(fs, at) && 0 <= i < |fs| && !Linked(fs, i)
    ensures Inv(Freed(fs, i), at)
  {
    var fs' := Freed(fs, i);
    FreedNames(fs, at, i);
    assert Counted(fs, i);
    forall j | 0 <= j < |fs| ensures DirOk(fs', j) && Counted(fs', j) {
      assert DirOk(fs, j) && Counted(fs, j);
      assert Sites(fs', j) == Sites(fs, j);
    }
    hide Site, Sites, Counted;
    forall j | 0 <= j < |fs| ensures TreeAt(fs', at, j) {
      assert DirOk(fs, j) && TreeAt(fs, at, j);
    }
    assert DirOk(fs, ROOT) && DirOk(fs', ROOT);
  }

  // ---------------------------------------------------------------- names in an unlinked directory

  lemma FreedSite(fs: FS, d: int, e: int, m: int, j: int)
    requires 0 <= d < |fs| && fs[d].kind == Dir && DirOk(fs, d) && !Linked(fs, d)
    ensures Site(Freed(fs, d), e, m, j) <==> Site(fs, e, m, j) && e != d
    ensures Site(fs, d, m, j) <==> Names(fs, d, m, j)
  {
    if IsEntry(fs, d, m) { assert Ent(fs, d, m) == fs[d].entries[m]; }
  }

  /**
    The release of an unlinked directory gives up its entries unseen.  All link counts are right
    afterwards exactly if it named nothing.
   */
  lemma ReleaseCountsIff(fs: FS, d: int)
    requires AllCounted(fs) && 0 <= d < |fs| && fs[d].kind == Dir && DirOk(fs, d) && !Linked(fs, d)
    ensures AllCounted(Freed(fs, d)) <==> IsEmpty(fs, d)
  {
    hide Site, Sites, DirOk;
    var fs' := Freed(fs, d);
    assert Counted(fs, d);
    if IsEmpty(fs, d) {
      forall j | 0 <= j < |fs'| ensures Counted(fs', j) {
        assert Counted(fs, j);
        forall e, m ensures Site(fs', e, m, j) <==> Site(fs, e, m, j) {
          FreedSite(fs, d, e, m, j);
        }
        SameSites(fs, fs', j);
      }
    } else {
      var k :| 2 <= k < |fs[d].entries| && fs[d].entries[k].inum != 0;
      LostName(fs, d, k);
    }
  }

  lemma SameSites(fs: FS, fs': FS, j: int)
    requires forall e, m :: Site(fs', e, m, j) <==> Site(fs, e, m, j)
    ensures Sites(fs', j) == Sites(fs, j)
  {
    hide Site, Sites;
    forall w: (int, int) ensures w in Sites(fs', j) <==> w in Sites(fs, j) {
      SitesHas(fs, w.0, w.1, j);
      SitesHas(fs', w.0, w.1, j);
    }
    SameSet(Sites(fs', j), Sites(fs, j));
  }

  /** The inode that a lost entry names keeps a count for it. */
  lemma LostName(fs: FS, d: int, k: int)
    requires AllCounted(fs) && 0 <= d < |fs| && fs[d].kind == Dir && DirOk(fs, d) && !Linked(fs, d)
    requires 2 <= k < |fs[d].entries| && fs[d].entries[k].inum != 0
    ensures 0 < fs[d].entries[k].inum < |fs| && !Counted(Freed(fs, d), fs[d].entries[k].inum)
  {
    var i, fs' := fs[d].entries[k].inum, Freed(fs, d);
    assert Names(fs, d, k, i);
    assert Counted(fs, i) && Counted(fs, d);
    hide Site, Sites, DirOk, Names;
    forall e, m ensures Site(fs', e, m, i) ==> Site(fs, e, m, i) {
      FreedSite(fs, d, e, m, i);
    }
    FreedSite(fs, d, d, k, i);
    FewerSites(fs, fs', d, k, i);
  }

  lemma FewerSites(fs: FS, fs': FS, d: int, k: int, i: int)
    requires (forall e, m :: Site(fs', e, m, i) ==> Site(fs, e, m, i)) && Site(fs, d, k, i) && !Site(fs', d, k, i)
    ensures |Sites(fs', i)| < |Sites(fs, i)|
  {
    hide Site, Sites;
    var a, b := Sites(fs, i), Sites(fs', i);
    forall w: (int, int) ensures w in b ==> w in a && w != (d, k) {
      SitesHas(fs, w.0, w.1, i);
      SitesHas(fs', w.0, w.1, i);
    }
    SitesHas(fs, d, k, i);
    assert b <= a - {(d, k)};
    assert |a - {(d, k)}| == |b| + |a - {(d, k)} - b|;
  }

  /** create() of a directory i named name in the unlinked directory d. */
  ghost predicate MakesOrphan(fs: FS, fs': FS, d: int, k: int, name: string, i: int) {
    && 0 < d < |fs| && 0 < i < |fs| && i != d && fs[d].kind == Dir && DirOk(fs, d) && !Linked(fs, d)
    && fs[i] == Ino(Free, 0, []) && 2 <= k <= |fs[d].entries| && Target(fs, d, k) == 0 && name != "." && name != ".."
    && fs' == fs[i := NewDir(i, d)][d := Ino(Dir, fs[d].nlink + 1, Put(fs[d].entries, k, Dirent(i, name)))]
  }

  lemma OrphanSite(fs: FS, fs': FS, d: int, k: int, name: string, i: int, e: int, m: int, j: int)
    requires MakesOrphan(fs, fs', d, k, name, i) && fs[d].nlink == 0
    ensures Site(fs', e, m, j) <==> Site(fs, e, m, j) || (j == Parent(fs, d) && (e, m) == (d, 1))
                                    || (j == d && (e, m) == (i, 1)) || (j == i && (e, m) == (d, k))
    ensures !Site(fs, d, 1, j) && !Site(fs, i, 1, j) && !Site(fs, d, k, j)
  {
    assert IsEntry(fs', i, 1) && Ent(fs', i, 1) == Dirent(d, "..") && Linked(fs', i) && Linked(fs', d);
    assert IsEntry(fs', d, k) && Ent(fs', d, k) == Dirent(i, name);
    assert IsEntry(fs', d, 1) && Ent(fs', d, 1) == fs[d].entries[1];
    if e == d && IsEntry(fs, d, m) && m != k {
      assert Ent(fs', d, m) == Ent(fs, d, m) == fs[d].entries[m];
    }
  }

  lemma OrphanSites(fs: FS, fs': FS, d: int, k: int, name: string, i: int)
    requires MakesOrphan(fs, fs', d, k, name, i) && fs[d].nlink == 0
    ensures var p := Parent(fs, d);
      |Sites(fs', p)| == |Sites(fs, p)| + 1 + if p == d || p == i then 1 else 0
  {
    hide Sites, Site;
    var p := Parent(fs, d);
    var a, b := Sites(fs, p), Sites(fs', p);
    var x, y := (d, 1), if p == d then (i, 1) else (d, k);
    forall w: (int, int) ensures w in b <==> w in a || w == x || ((p == d || p == i) && w == y) {
      SitesHas(fs, w.0, w.1, p);
      SitesHas(fs', w.0, w.1, p);
      OrphanSite(fs, fs', d, k, name, i, w.0, w.1, p);
    }
    OrphanSite(fs, fs', d, k, name, i, d, 1, p);
    SitesHas(fs, d, 1, p);
    SitesHas(fs, i, 1, p);
    SitesHas(fs, d, k, p);
    OneOrTwoMore(a, b, x, y, p == d || p == i);
  }

  lemma OneOrTwoMore(a: set<(int, int)>, b: set<(int, int)>, x: (int, int), y: (int, int), both: bool)
    requires x !in a && y !in a && x != y && forall w :: w in b <==> w in a || w == x || (both && w == y)
    ensures |b| == |a| + 1 + if both then 1 else 0
  {
    SameSet(b, a + {x} + if both then {y} else {});
  }

  /** The link that makes d linked again makes its ".." count, which its parent has no link for. */
  lemma OrphanDir(fs: FS, fs': FS, d: int, k: int, name: string, i: int)
    requires MakesOrphan(fs, fs', d, k, name, i) && AllCounted(fs)
    ensures 0 < Parent(fs, d) < |fs| && !Counted(fs', Parent(fs, d))
  {
    hide Sites;
    assert Counted(fs, Parent(fs, d)) && Counted(fs, d);
    OrphanSites(fs, fs', d, k, name, i);
  }
}
