/** Directories and path names of fs.c: directory files as finite maps, path resolution as a fold
    over path elements, and the references it takes and gives back. */
module Names {
  import opened Common

  const DIRSIZ: nat := 14
  const NINODE: nat := 50
  const ROOTINO: nat := 1
  /** The largest directory file, in entries of 16 bytes: MAXFILE * BSIZE / 16. */
  const MAXENTRIES: nat := 268 * 1024 / 16

  /** The part of a name that counts. */
  function Cut(name: string): string { if |name| > DIRSIZ then name[..DIRSIZ] else name }

  // ---------- path elements ----------

  function SkipSlashes(path: string, p: nat): (q: nat)
    requires p <= |path|
    ensures p <= q <= |path| && (q < |path| ==> path[q] != '/') && forall i :: p <= i < q ==> path[i] == '/'
    decreases |path| - p
  {
    if p < |path| && path[p] == '/' then SkipSlashes(path, p + 1) else p
  }

  function ElemEnd(path: string, p: nat): (q: nat)
    requires p <= |path|
    ensures p <= q <= |path| && (q < |path| ==> path[q] == '/') && forall i :: p <= i < q ==> path[i] != '/'
    decreases |path| - p
  {
    if p < |path| && path[p] != '/' then ElemEnd(path, p + 1) else p
  }

  /** The non-empty parts between slashes from p on, each cut to DIRSIZ bytes. */
  function Elements(path: string, p: nat): seq<string>
    requires p <= |path|
    decreases |path| - p
  {
    var q := SkipSlashes(path, p);
    if q == |path| then []
    else
      var e := ElemEnd(path, q);
      [Cut(path[q..e])] + Elements(path, e)
  }

  /** A stretch of a path. */
  datatype Part = Part(lo: nat, hi: nat)

  /** The parts lie in order from p on, with something between two of them. */
  ghost predicate InOrder(path: string, p: nat, parts: seq<Part>) {
    (forall i :: 0 <= i < |parts| ==> p <= parts[i].lo < parts[i].hi <= |path|) &&
    forall i, j :: 0 <= i < j < |parts| ==> parts[i].hi < parts[j].lo
  }

  ghost predicate Covers(part: Part, j: nat) { part.lo <= j < part.hi }

  /** A byte lies in a part if and only if it is no slash. */
  ghost predicate SplitAt(path: string, parts: seq<Part>, j: nat)
    requires j < |path|
  {
    path[j] != '/' <==> exists i :: 0 <= i < |parts| && Covers(parts[i], j)
  }

  /** The elements from p on are the longest stretches without a slash, all of them and in order. */
  ghost predicate Splits(path: string, p: nat, parts: seq<Part>) {
    InOrder(path, p, parts) &&
    forall j: nat {:trigger SplitAt(path, parts, j)} :: p <= j < |path| ==> SplitAt(path, parts, j)
  }

  lemma SplitsMore(path: string, p: nat, q: nat, e: nat, rest: seq<Part>)
    requires p <= q < e <= |path| && (e < |path| ==> path[e] == '/') && Splits(path, e, rest)
    requires (forall i :: p <= i < q ==> path[i] == '/') && forall i :: q <= i < e ==> path[i] != '/'
    ensures Splits(path, p, [Part(q, e)] + rest)
  {
    var parts := [Part(q, e)] + rest;
    forall i | 0 <= i < |rest| ensures e < rest[i].lo {
      assert Covers(rest[i], rest[i].lo);
      assert SplitAt(path, rest, rest[i].lo);
    }
    forall j: nat | p <= j < |path| ensures SplitAt(path, parts, j) { SplitMore(path, p, q, e, rest, j); }
  }

  lemma SplitMore(path: string, p: nat, q: nat, e: nat, rest: seq<Part>, j: nat)
    requires p <= q < e <= |path| && Splits(path, e, rest) && p <= j < |path|
    requires (forall i :: p <= i < q ==> path[i] == '/') && forall i :: q <= i < e ==> path[i] != '/'
    ensures SplitAt(path, [Part(q, e)] + rest, j)
  {
    var parts := [Part(q, e)] + rest;
    if j < e {
      assert Covers(parts[0], j) <==> q <= j;
      assert forall i :: 0 < i < |parts| ==> parts[i] == rest[i - 1] && !Covers(parts[i], j);
    } else {
      assert SplitAt(path, rest, j) && !Covers(parts[0], j);
      if path[j] != '/' {
        var i :| 0 <= i < |rest| && Covers(rest[i], j);
        assert Covers(parts[i + 1], j);
      }
      assert forall i :: 0 < i < |parts| ==> parts[i] == rest[i - 1];
    }
  }

  lemma {:induction false} ElementsAre(path: string, p: nat) returns (parts: seq<Part>)
    requires p <= |path|
    ensures Splits(path, p, parts) && |parts| == |Elements(path, p)|
    ensures forall i :: 0 <= i < |parts| ==> Elements(path, p)[i] == Cut(path[parts[i].lo..parts[i].hi])
    decreases |path| - p
  {
    var q := SkipSlashes(path, p);
    if q == |path| { return []; }
    var e := ElemEnd(path, q);
    var rest := ElementsAre(path, e);
    SplitsMore(path, p, q, e, rest);
    parts := [Part(q, e)] + rest;
  }

  lemma ElementsSkip(path: string, p: nat)
    requires p <= |path|
    ensures Elements(path, SkipSlashes(path, p)) == Elements(path, p)
    ensures Elements(path, p) == [] <==> SkipSlashes(path, p) == |path|
  {
    var q := SkipSlashes(path, p);
    assert SkipSlashes(path, q) == q;
  }

  lemma CutSlice(path: string, s: nat, end: nat)
    requires s <= end <= |path|
    ensures Cut(path[s..end]) == if end - s >= DIRSIZ then path[s..s + DIRSIZ] else path[s..end]
  {
    if end - s >= DIRSIZ { assert path[s..end][..DIRSIZ] == path[s..s + DIRSIZ]; }
  }

  /** skipelem(): the next element, and where the one after it starts; false if there is none. */
  method SkipElem(path: string, p: nat) returns (found: bool, next: nat, name: string)
    requires p <= |path|
    ensures found <==> Elements(path, p) != []
    ensures found ==> p < next <= |path| && Elements(path, p) == [name] + Elements(path, next)
    ensures found ==> (next == |path| <==> Elements(path, next) == [])
  {
    ElementsSkip(path, p);
    next := p;
    while next < |path| && path[next] == '/'
      invariant p <= next <= |path| && SkipSlashes(path, next) == SkipSlashes(path, p)
    {
      next := next + 1;
    }
    if next == |path| {
      return false, next, "";
    }
    var s := next;
    while next < |path| && path[next] != '/'
      invariant s <= next <= |path| && ElemEnd(path, next) == ElemEnd(path, s)
    {
      next := next + 1;
    }
    var end := next;
    name := if end - s >= DIRSIZ then path[s..s + DIRSIZ] else path[s..end];
    CutSlice(path, s, end);
    while next < |path| && path[next] == '/'
      invariant end <= next <= |path| && SkipSlashes(path, next) == SkipSlashes(path, end)
    {
      next := next + 1;
    }
    ElementsSkip(path, end);
    ElementsSkip(path, next);
    found := true;
  }

  // ---------- names in directory entries ----------

  /** A directory entry: an inode number (0 if unused) and DIRSIZ bytes. */
  datatype Dirent = Dirent(inum: nat, field: string)

  /** The characters before the first NUL. */
  function Unpad(field: string): string {
    if field == [] || field[0] == '\0' then [] else [field[0]] + Unpad(field[1..])
  }

  /** How a name is stored in an entry: cut, and filled up with NULs. */
  function Pad(name: string): string {
    var c := Cut(name);
    c + seq(DIRSIZ - |c|, _ => '\0')
  }

  predicate NoNul(name: string) { forall i :: 0 <= i < |name| ==> name[i] != '\0' }

  lemma {:induction false} UnpadZeros(n: nat)
    ensures Unpad(seq(n, _ => '\0')) == []
  {
  }

  lemma {:induction false} UnpadAppend(c: string, z: string)
    requires NoNul(c) && Unpad(z) == []
    ensures Unpad(c + z) == c
  {
    if c == [] {
      assert c + z == z;
    } else {
      UnpadAppend(c[1..], z);
      assert (c + z)[1..] == c[1..] + z;
    }
  }

  /** A stored name reads back, cut. */
  lemma StoredName(name: string)
    requires NoNul(name)
    ensures |Pad(name)| == DIRSIZ && Unpad(Pad(name)) == Cut(name)
  {
    UnpadZeros(DIRSIZ - |Cut(name)|);
    UnpadAppend(Cut(name), seq(DIRSIZ - |Cut(name)|, _ => '\0'));
  }

  function CharAt(s: string, i: nat): char { if i < |s| then s[i] else '\0' }

  lemma {:induction false} UnpadAt(field: string, i: nat)
    requires forall j :: 0 <= j < i && j < |field| ==> field[j] != '\0'
    ensures i <= |field| ==> |Unpad(field)| >= i && Unpad(field)[..i] == field[..i]
    ensures i < |field| && field[i] == '\0' ==> |Unpad(field)| == i
    ensures i == |field| ==> Unpad(field) == field
    decreases |field|
  {
    if field != [] && i > 0 { UnpadAt(field[1..], i - 1); }
  }

  /** namecmp(): strncmp over DIRSIZ bytes finds exactly the equal names. */
  method Namecmp(name: string, field: string) returns (same: bool)
    requires NoNul(name) && |field| == DIRSIZ
    ensures same <==> Cut(name) == Unpad(field)
  {
    var i := 0;
    while i < DIRSIZ && i < |name| && name[i] == field[i]
      invariant 0 <= i <= DIRSIZ && i <= |name| && name[..i] == field[..i]
    {
      i := i + 1;
    }
    assert forall j :: 0 <= j < i ==> field[j] == field[..i][j] && name[j] == name[..i][j];
    UnpadAt(field, i);
    if i == DIRSIZ {
      return true;
    }
    same := CharAt(name, i) == field[i];
    if field[i] != '\0' {
      UnpadAt(field, i + 1);
      assert Unpad(field)[i] == Unpad(field)[..i + 1][i] == field[i];
      assert i < |name| ==> Cut(name)[i] == name[i];
    }
  }

  // ---------- directories ----------

  predicate Live(de: Dirent) { de.inum != 0 }

  ghost predicate DirOk(dir: seq<Dirent>) {
    forall i :: 0 <= i < |dir| ==> |dir[i].field| == DIRSIZ && dir[i].inum < U16
  }

  /** No name is in use twice. */
  ghost predicate Unique(dir: seq<Dirent>) {
    forall i, j :: 0 <= i < j < |dir| && Live(dir[i]) && Live(dir[j]) ==> Unpad(dir[i].field) != Unpad(dir[j].field)
  }

  ghost predicate Has(dir: seq<Dirent>, i: nat, name: string) {
    i < |dir| && Live(dir[i]) && Unpad(dir[i].field) == name
  }

  /** The directory as a finite map. */
  ghost function DirMap(dir: seq<Dirent>): map<string, nat> {
    if dir == [] then map[]
    else
      var m, last := DirMap(dir[..|dir| - 1]), dir[|dir| - 1];
      if Live(last) then m[Unpad(last.field) := last.inum] else m
  }

  lemma {:induction false} DirMapIs(dir: seq<Dirent>, name: string)
    requires Unique(dir)
    ensures name in DirMap(dir) <==> exists i: nat :: Has(dir, i, name)
    ensures forall i: nat :: Has(dir, i, name) ==> DirMap(dir)[name] == dir[i].inum
  {
    if dir != [] {
      var init, n := dir[..|dir| - 1], |dir| - 1;
      DirMapIs(init, name);
      forall i: nat ensures i < n ==> Has(dir, i, name) == Has(init, i, name) { }
      if name in DirMap(dir) {
        if Has(dir, n, name) { } else { var i: nat :| Has(init, i, name); assert Has(dir, i, name); }
      }
      forall i: nat | Has(dir, i, name) ensures name in DirMap(dir) && DirMap(dir)[name] == dir[i].inum {
        if i < n { assert Has(init, i, name); }
      }
    }
  }

  /** dirlookup(): the entry of a name, or -1; on a directory with unique names it is the map's. */
  method Dirlookup(dir: seq<Dirent>, name: string) returns (off: int)
    requires DirOk(dir) && NoNul(name)
    ensures off >= 0 ==> Has(dir, off, Cut(name)) && forall i: nat :: i < off ==> !Has(dir, i, Cut(name))
    ensures off < 0 ==> off == -1 && forall i: nat :: !Has(dir, i, Cut(name))
  {
    off := 0;
    while off < |dir|
      invariant 0 <= off <= |dir| && forall i: nat :: i < off ==> !Has(dir, i, Cut(name))
    {
      if dir[off].inum != 0 {
        var same := Namecmp(name, dir[off].field);
        if same {
          return;
        }
      }
      off := off + 1;
    }
    off := -1;
  }

  /** dirlink(): -1 if the name is there, -2 for its panic when the directory is full; otherwise
      the name is linked in the first unused entry, or in a new one at the end. */
  method Dirlink(dir: seq<Dirent>, name: string, inum: nat) returns (r: int, dir': seq<Dirent>)
    requires DirOk(dir) && Unique(dir) && NoNul(name) && 0 < inum < U16
    ensures r == -1 <==> Cut(name) in DirMap(dir)
    ensures r == -2 <==> Cut(name) !in DirMap(dir) && |dir| >= MAXENTRIES && forall i :: 0 <= i < |dir| ==> Live(dir[i])
    ensures r < 0 ==> dir' == dir
    ensures r == 0 || r == -1 || r == -2
    ensures r == 0 ==> DirOk(dir') && Unique(dir') && DirMap(dir') == DirMap(dir)[Cut(name) := inum]
  {
    dir' := dir;
    DirMapIs(dir, Cut(name));
    var ip := Dirlookup(dir, name);
    if ip >= 0 {
      return -1, dir;
    }
    var off := 0;
    while off < |dir| && dir[off].inum != 0
      invariant 0 <= off <= |dir| && forall i :: 0 <= i < off ==> Live(dir[i])
    {
      off := off + 1;
    }
    if off == |dir| && off >= MAXENTRIES {
      return -2, dir;
    }
    var de := Dirent(inum, Pad(name));
    StoredName(name);
    dir' := if off < |dir| then dir[off := de] else dir + [de];
    Linked(dir, dir', off, name, inum);
    r := 0;
  }

  lemma Linked(dir: seq<Dirent>, dir': seq<Dirent>, off: nat, name: string, inum: nat)
    requires DirOk(dir) && Unique(dir) && 0 < inum < U16 && off <= |dir| && (off < |dir| ==> !Live(dir[off]))
    requires |Pad(name)| == DIRSIZ && Unpad(Pad(name)) == Cut(name) && forall i: nat :: !Has(dir, i, Cut(name))
    requires dir' == if off < |dir| then dir[off := Dirent(inum, Pad(name))] else dir + [Dirent(inum, Pad(name))]
    ensures DirOk(dir') && Unique(dir') && DirMap(dir') == DirMap(dir)[Cut(name) := inum]
  {
    forall i: nat | i < |dir'| && i != off ensures i < |dir| && dir'[i] == dir[i] && !Has(dir', i, Cut(name)) {
      assert !Has(dir, i, Cut(name));
    }
    var m := DirMap(dir)[Cut(name) := inum];
    forall n ensures n in DirMap(dir') <==> n in m {
      DirMapIs(dir, n);
      DirMapIs(dir', n);
      assert Has(dir', off, Cut(name));
      if n in DirMap(dir) { var i: nat :| Has(dir, i, n); assert Has(dir', i, n); }
      if n in DirMap(dir') { var i: nat :| Has(dir', i, n); assert i != off ==> Has(dir, i, n); }
    }
    forall n | n in DirMap(dir') ensures DirMap(dir')[n] == m[n] {
      DirMapIs(dir, n);
      DirMapIs(dir', n);
      var i: nat :| Has(dir', i, n);
      if i != off { assert Has(dir, i, n); }
    }
  }

  // ---------- the inode table ----------

  datatype Entry = Entry(inum: nat, ref: nat)

  function Share(e: Entry, n: nat): nat { if e.inum == n then e.ref else 0 }

  /** How many references to inode n the table counts. */
  function Refs(tab: seq<Entry>, n: nat): nat {
    if tab == [] then 0 else Refs(tab[..|tab| - 1], n) + Share(tab[|tab| - 1], n)
  }

  lemma {:induction false} RefsUpdate(tab: seq<Entry>, k: nat, e: Entry, n: nat)
    requires k < |tab|
    ensures Refs(tab[k := e], n) == Refs(tab, n) - Share(tab[k], n) + Share(e, n)
  {
    var last := |tab| - 1;
    if k == last {
      assert tab[k := e][..last] == tab[..last];
    } else {
      RefsUpdate(tab[..last], k, e, n);
      assert tab[k := e][..last] == tab[..last][k := e];
    }
  }

  /** The table counts one more reference to each inode in `more`, and no other difference. */
  ghost predicate Counts(tab0: seq<Entry>, tab: seq<Entry>, more: multiset<nat>) {
    forall n: nat :: Refs(tab, n) == Refs(tab0, n) + more[n]
  }

  /** An inode has at most one entry in use. */
  ghost predicate TableOk(tab: seq<Entry>) {
    |tab| == NINODE &&
    forall i, j :: 0 <= i < j < |tab| && tab[i].ref > 0 && tab[j].ref > 0 ==> tab[i].inum != tab[j].inum
  }

  lemma CountsRef(tab0: seq<Entry>, tab: seq<Entry>, more: multiset<nat>, k: nat)
    requires Counts(tab0, tab, more) && k < |tab|
    ensures Counts(tab0, tab[k := tab[k].(ref := tab[k].ref + 1)], more + multiset{tab[k].inum})
  {
    forall n: nat
      ensures Refs(tab[k := tab[k].(ref := tab[k].ref + 1)], n) == Refs(tab0, n) + (more + multiset{tab[k].inum})[n]
    {
      RefsUpdate(tab, k, tab[k].(ref := tab[k].ref + 1), n);
    }
  }

  lemma CountsNew(tab0: seq<Entry>, tab: seq<Entry>, more: multiset<nat>, k: nat, inum: nat)
    requires Counts(tab0, tab, more) && k < |tab| && tab[k].ref == 0
    ensures Counts(tab0, tab[k := Entry(inum, 1)], more + multiset{inum})
  {
    forall n: nat ensures Refs(tab[k := Entry(inum, 1)], n) == Refs(tab0, n) + (more + multiset{inum})[n] {
      RefsUpdate(tab, k, Entry(inum, 1), n);
    }
  }

  lemma CountsUnref(tab0: seq<Entry>, tab: seq<Entry>, more: multiset<nat>, k: nat)
    requires Counts(tab0, tab, more) && k < |tab| && tab[k].ref > 0 && tab[k].inum in more
    ensures Counts(tab0, tab[k := tab[k].(ref := tab[k].ref - 1)], more - multiset{tab[k].inum})
  {
    forall n: nat
      ensures Refs(tab[k := tab[k].(ref := tab[k].ref - 1)], n) == Refs(tab0, n) + (more - multiset{tab[k].inum})[n]
    {
      RefsUpdate(tab, k, tab[k].(ref := tab[k].ref - 1), n);
    }
  }

  /** How many entries of the table are unused. */
  function Unused(tab: seq<Entry>): nat {
    if tab == [] then 0 else Unused(tab[..|tab| - 1]) + if tab[|tab| - 1].ref == 0 then 1 else 0
  }

  lemma {:induction false} UnusedUpdate(tab: seq<Entry>, k: nat, e: Entry)
    requires k < |tab|
    ensures Unused(tab[k := e]) + (if tab[k].ref == 0 then 1 else 0) == Unused(tab) + if e.ref == 0 then 1 else 0
  {
    var last := |tab| - 1;
    if k == last {
      assert tab[k := e][..last] == tab[..last];
    } else {
      UnusedUpdate(tab[..last], k, e);
      assert tab[k := e][..last] == tab[..last][k := e];
    }
  }

  lemma {:induction false} UnusedNone(tab: seq<Entry>)
    ensures Unused(tab) == 0 <==> forall i :: 0 <= i < |tab| ==> tab[i].ref > 0
  {
    if tab != [] { UnusedNone(tab[..|tab| - 1]); }
  }

  lemma {:induction false} RefsNone(tab: seq<Entry>, n: nat)
    requires forall i :: 0 <= i < |tab| ==> !(tab[i].ref > 0 && tab[i].inum == n)
    ensures Refs(tab, n) == 0
  {
    if tab != [] { RefsNone(tab[..|tab| - 1], n); }
  }

  /** All references to an inode are in its one entry. */
  lemma RefsEntry(tab: seq<Entry>, k: nat)
    requires TableOk(tab) && k < |tab| && tab[k].ref > 0
    ensures Refs(tab, tab[k].inum) == tab[k].ref
  {
    var n, gone := tab[k].inum, tab[k := Entry(tab[k].inum, 0)];
    RefsUpdate(tab, k, Entry(n, 0), n);
    RefsNone(gone, n);
  }

  /** 1 if the table of the beginning has no entry for the inode. */
  function Fresh(tab0: seq<Entry>, n: nat): nat { if Refs(tab0, n) == 0 then 1 else 0 }

  /** With an extra reference to inode n, the table has as many unused entries as it had, or one
      less if n was not in it. */
  ghost predicate Room(tab0: seq<Entry>, tab: seq<Entry>, n: nat) { Unused(tab) + Fresh(tab0, n) == Unused(tab0) }

  /** While inode n is held, there is no entry for inode m. */
  ghost predicate NoRoom(tab0: seq<Entry>, n: nat, m: nat) {
    Refs(tab0, m) == 0 && m != n && Unused(tab0) == Fresh(tab0, n)
  }

  // ---------- path resolution ----------

  datatype Node = Dir(entries: seq<Dirent>) | File

  /** Every name leads to an inode, and directories have unique names. */
  ghost predicate TreeOk(fs: map<nat, Node>) {
    ROOTINO in fs && forall n :: n in fs && fs[n].Dir? ==>
      DirOk(fs[n].entries) && Unique(fs[n].entries) &&
      forall x :: x in DirMap(fs[n].entries) ==> DirMap(fs[n].entries)[x] in fs
  }

  /** One lookup: none if it is no directory or has no such name. */
  ghost function Step(fs: map<nat, Node>, n: nat, name: string): Option<nat> {
    if n in fs && fs[n].Dir? && name in DirMap(fs[n].entries) then Some(DirMap(fs[n].entries)[name]) else None
  }

  /** The inode that a list of names leads to. */
  ghost function Walk(fs: map<nat, Node>, n: nat, names: seq<string>): Option<nat>
    decreases |names|
  {
    if names == [] then Some(n)
    else match Step(fs, n, names[0])
      case None => None
      case Some(m) => Walk(fs, m, names[1..])
  }

  /** The directory that holds the last name: the walk stops one name early, in a directory. */
  ghost function WalkParent(fs: map<nat, Node>, n: nat, names: seq<string>): Option<nat> {
    if names == [] then None
    else
      match Walk(fs, n, names[..|names| - 1])
      case None => None
      case Some(m) => if m in fs && fs[m].Dir? then Some(m) else None
  }

  lemma {:induction false} WalkParentStep(fs: map<nat, Node>, n: nat, names: seq<string>)
    requires |names| >= 2
    ensures WalkParent(fs, n, names) ==
      match Step(fs, n, names[0]) { case None => None case Some(m) => WalkParent(fs, m, names[1..]) }
  {
    assert names[..|names| - 1][1..] == names[1..][..|names[1..]| - 1];
  }

  ghost function Resolve(fs: map<nat, Node>, n: nat, names: seq<string>, parent: bool): Option<nat> {
    if parent then WalkParent(fs, n, names) else Walk(fs, n, names)
  }

  /** One name of the list: where it leads decides, except that the parent walk stops before it. */
  lemma ResolveStep(fs: map<nat, Node>, n: nat, names: seq<string>, parent: bool)
    requires names != []
    ensures !(n in fs && fs[n].Dir?) ==> Resolve(fs, n, names, parent) == None
    ensures parent && |names| == 1 && n in fs && fs[n].Dir? ==> Resolve(fs, n, names, parent) == Some(n)
    ensures !(parent && |names| == 1) && Step(fs, n, names[0]) == None ==> Resolve(fs, n, names, parent) == None
    ensures !(parent && |names| == 1) && Step(fs, n, names[0]).Some? ==>
      Resolve(fs, n, names, parent) == Resolve(fs, Step(fs, n, names[0]).value, names[1..], parent)
  {
    if parent && |names| >= 2 { WalkParentStep(fs, n, names); }
    if |names| == 1 { assert names[..0] == []; }
  }

  ghost predicate LinkAt(fs: map<nat, Node>, names: seq<string>, ns: seq<nat>, i: nat)
    requires i + 1 < |ns| <= |names| + 1
  {
    ns[i] in fs && fs[ns[i]].Dir? && names[i] in DirMap(fs[ns[i]].entries) &&
    DirMap(fs[ns[i]].entries)[names[i]] == ns[i + 1]
  }

  /** ns is a way down from n: each inode but the last is a directory in which the next name leads on. */
  ghost predicate Chain(fs: map<nat, Node>, n: nat, names: seq<string>, ns: seq<nat>) {
    1 <= |ns| <= |names| + 1 && ns[0] == n &&
    forall i {:trigger LinkAt(fs, names, ns, i)} :: 0 <= i && i + 1 < |ns| ==> LinkAt(fs, names, ns, i)
  }

  lemma ChainTail(fs: map<nat, Node>, n: nat, names: seq<string>, ns: seq<nat>)
    requires Chain(fs, n, names, ns) && |ns| >= 2
    ensures Step(fs, n, names[0]) == Some(ns[1]) && Chain(fs, ns[1], names[1..], ns[1..])
  {
    assert LinkAt(fs, names, ns, 0);
    forall i | 0 <= i && i + 1 < |ns[1..]| ensures LinkAt(fs, names[1..], ns[1..], i) {
      assert LinkAt(fs, names, ns, i + 1);
    }
  }

  lemma ChainCons(fs: map<nat, Node>, n: nat, names: seq<string>, m: nat, ns: seq<nat>)
    requires names != [] && Step(fs, n, names[0]) == Some(m) && Chain(fs, m, names[1..], ns)
    ensures Chain(fs, n, names, [n] + ns)
  {
    var all := [n] + ns;
    forall i | 0 <= i && i + 1 < |all| ensures LinkAt(fs, names, all, i) {
      if i > 0 { assert LinkAt(fs, names[1..], ns, i - 1); }
    }
  }

  ghost predicate LeadsBy(fs: map<nat, Node>, n: nat, names: seq<string>, m: nat, ns: seq<nat>) {
    Chain(fs, n, names, ns) && |ns| == |names| + 1 && ns[|names|] == m
  }

  /** The whole list of names leads from n to m. */
  ghost predicate Leads(fs: map<nat, Node>, n: nat, names: seq<string>, m: nat) {
    exists ns :: LeadsBy(fs, n, names, m, ns)
  }

  lemma {:induction false} WalkLeads(fs: map<nat, Node>, n: nat, names: seq<string>) returns (ns: seq<nat>)
    requires Walk(fs, n, names).Some?
    ensures LeadsBy(fs, n, names, Walk(fs, n, names).value, ns)
    decreases |names|
  {
    if names == [] { return [n]; }
    var m := Step(fs, n, names[0]).value;
    var rest := WalkLeads(fs, m, names[1..]);
    ChainCons(fs, n, names, m, rest);
    ns := [n] + rest;
  }

  lemma {:induction false} LeadsWalk(fs: map<nat, Node>, n: nat, names: seq<string>, m: nat, ns: seq<nat>)
    requires LeadsBy(fs, n, names, m, ns)
    ensures Walk(fs, n, names) == Some(m)
    decreases |names|
  {
    if names != [] {
      ChainTail(fs, n, names, ns);
      LeadsWalk(fs, ns[1], names[1..], m, ns[1..]);
    }
  }

  lemma WalkIff(fs: map<nat, Node>, n: nat, names: seq<string>, m: nat)
    ensures Walk(fs, n, names) == Some(m) <==> Leads(fs, n, names, m)
  {
    if Walk(fs, n, names) == Some(m) { var ns := WalkLeads(fs, n, names); }
    if Leads(fs, n, names, m) {
      var ns :| LeadsBy(fs, n, names, m, ns);
      LeadsWalk(fs, n, names, m, ns);
    }
  }

  /** What namex() is to find: the inode the names lead to, or the directory one name earlier. */
  ghost predicate Finds(fs: map<nat, Node>, n: nat, names: seq<string>, parent: bool, m: nat) {
    if parent then names != [] && Leads(fs, n, names[..|names| - 1], m) && m in fs && fs[m].Dir?
    else Leads(fs, n, names, m)
  }

  /** The same for the elements of a path, from the root or the working directory. */
  ghost predicate PathFinds(fs: map<nat, Node>, path: string, cwd: nat, parent: bool, m: nat) {
    var start := if path != [] && path[0] == '/' then ROOTINO else cwd;
    Finds(fs, start, Elements(path, 0), parent, m)
  }

  lemma ResolveIff(fs: map<nat, Node>, n: nat, names: seq<string>, parent: bool, m: nat)
    ensures Resolve(fs, n, names, parent) == Some(m) <==> Finds(fs, n, names, parent, m)
  {
    if parent {
      if names != [] { WalkIff(fs, n, names[..|names| - 1], m); }
    } else {
      WalkIff(fs, n, names, m);
    }
  }

  /** Walking on from inode n, which is held, needs a table entry when there is none. */
  ghost predicate Overflows(fs: map<nat, Node>, tab0: seq<Entry>, n: nat, names: seq<string>, parent: bool)
    decreases |names|
  {
    names != [] && !(parent && |names| == 1) && Step(fs, n, names[0]).Some? &&
    var m := Step(fs, n, names[0]).value;
    NoRoom(tab0, n, m) || Overflows(fs, tab0, m, names[1..], parent)
  }

  ghost predicate NoRoomBy(fs: map<nat, Node>, tab0: seq<Entry>, n: nat, names: seq<string>, ns: seq<nat>) {
    Chain(fs, n, names, ns) && |ns| >= 2 && NoRoom(tab0, ns[|ns| - 2], ns[|ns| - 1])
  }

  /** On the way from n the walk holds an inode and needs the next one, for which there is no entry. */
  ghost predicate MeetsNoRoom(fs: map<nat, Node>, tab0: seq<Entry>, n: nat, names: seq<string>) {
    exists ns :: NoRoomBy(fs, tab0, n, names, ns)
  }

  /** The names that namex() looks up. */
  ghost function LookedUp(names: seq<string>, parent: bool): seq<string> {
    if parent && names != [] then names[..|names| - 1] else names
  }

  lemma {:induction false} OverflowsMeets(fs: map<nat, Node>, tab0: seq<Entry>, n: nat, names: seq<string>,
                                          parent: bool) returns (ns: seq<nat>)
    requires Overflows(fs, tab0, n, names, parent)
    ensures NoRoomBy(fs, tab0, n, LookedUp(names, parent), ns)
    decreases |names|
  {
    var m, all := Step(fs, n, names[0]).value, LookedUp(names, parent);
    assert all[1..] == LookedUp(names[1..], parent) && all[0] == names[0];
    if NoRoom(tab0, n, m) {
      ChainCons(fs, n, all, m, [m]);
      return [n] + [m];
    }
    var rest := OverflowsMeets(fs, tab0, m, names[1..], parent);
    ChainCons(fs, n, all, m, rest);
    ns := [n] + rest;
  }

  lemma {:induction false} MeetsOverflows(fs: map<nat, Node>, tab0: seq<Entry>, n: nat, names: seq<string>,
                                          parent: bool, ns: seq<nat>)
    requires NoRoomBy(fs, tab0, n, LookedUp(names, parent), ns)
    ensures Overflows(fs, tab0, n, names, parent)
    decreases |names|
  {
    var all := LookedUp(names, parent);
    ChainTail(fs, n, all, ns);
    assert all[1..] == LookedUp(names[1..], parent) && all[0] == names[0];
    if |ns| > 2 { MeetsOverflows(fs, tab0, ns[1], names[1..], parent, ns[1..]); }
  }

  /** The walk overflows exactly if some way along the names runs into a step without room. */
  lemma OverflowsIff(fs: map<nat, Node>, tab0: seq<Entry>, n: nat, names: seq<string>, parent: bool)
    ensures Overflows(fs, tab0, n, names, parent) <==> MeetsNoRoom(fs, tab0, n, LookedUp(names, parent))
  {
    if Overflows(fs, tab0, n, names, parent) { var ns := OverflowsMeets(fs, tab0, n, names, parent); }
    if MeetsNoRoom(fs, tab0, n, LookedUp(names, parent)) {
      var ns :| NoRoomBy(fs, tab0, n, LookedUp(names, parent), ns);
      MeetsOverflows(fs, tab0, n, names, parent, ns);
    }
  }

  /** Two unused entries are enough for every path. */
  lemma {:induction false} TwoSuffice(fs: map<nat, Node>, tab0: seq<Entry>, n: nat, names: seq<string>, parent: bool)
    requires Unused(tab0) >= 2
    ensures !Overflows(fs, tab0, n, names, parent)
    decreases |names|
  {
    if names != [] && Step(fs, n, names[0]).Some? {
      TwoSuffice(fs, tab0, Step(fs, n, names[0]).value, names[1..], parent);
    }
  }

  /** There is no entry for the root, which the path starts from. */
  ghost predicate NoRoot(tab0: seq<Entry>, path: string) {
    path != [] && path[0] == '/' && Refs(tab0, ROOTINO) == 0 && Unused(tab0) == 0
  }

  /** namex() runs into the panic of iget(), in its first line or on its way. */
  ghost predicate TableFull(fs: map<nat, Node>, tab0: seq<Entry>, path: string, cwd: nat, names: seq<string>,
                            parent: bool) {
    NoRoot(tab0, path) || MeetsNoRoom(fs, tab0, Start(path, cwd), LookedUp(names, parent))
  }

  /** Where a path starts. */
  function Start(path: string, cwd: nat): nat { if path != [] && path[0] == '/' then ROOTINO else cwd }

  ghost predicate Suffix(a: seq<string>, b: seq<string>) { |a| <= |b| && a == b[|b| - |a|..] }

  lemma NextName(path: string, p: nat, elem: string, next: nat, names: seq<string>)
    requires NoNul(path) && p <= |path| && next <= |path| && Elements(path, p) == [elem] + Elements(path, next)
    requires Suffix(Elements(path, p), names)
    ensures NoNul(elem) && |elem| <= DIRSIZ && Suffix(Elements(path, next), names)
    ensures Elements(path, p)[0] == elem && Elements(path, p)[1..] == Elements(path, next)
    ensures Elements(path, next) == [] ==> names != [] && names[|names| - 1] == elem
  {
    assert Elements(path, p)[0] == elem;
    assert Elements(path, p)[1..] == Elements(path, next);
    var q := SkipSlashes(path, p);
    var text := path[q..ElemEnd(path, q)];
    assert elem == Cut(text) && NoNul(text);
  }

  /** What namex() returns: an inode-table entry, 0, or a panic because the table is full. */
  datatype Result = Found(k: nat) | NotFound | Panicked

  class Inodes {
    const fs: map<nat, Node>
    var tab: seq<Entry>

    ghost predicate Valid()
      reads this
    {
      TreeOk(fs) && TableOk(tab)
    }

    constructor (fs: map<nat, Node>)
      requires TreeOk(fs)
      ensures Valid() && this.fs == fs && forall k :: 0 <= k < NINODE ==> tab[k].ref == 0
    {
      this.fs := fs;
      tab := seq(NINODE, _ => Entry(0, 0));
    }

    /** The loop of iget(): the entry of the inode, NINODE if there is none, and then an unused one
        or -1. */
    method FindEntry(inum: nat) returns (ip: nat, empty: int)
      requires |tab| == NINODE
      ensures ip <= NINODE && -1 <= empty < NINODE
      ensures ip < NINODE ==> tab[ip].ref > 0 && tab[ip].inum == inum
      ensures ip == NINODE ==> forall i :: 0 <= i < NINODE ==> !(tab[i].ref > 0 && tab[i].inum == inum)
      ensures empty >= 0 ==> tab[empty].ref == 0
      ensures ip == NINODE && empty < 0 ==> forall i :: 0 <= i < NINODE ==> tab[i].ref > 0
    {
      ip, empty := 0, -1;
      while ip < NINODE
        invariant 0 <= ip <= NINODE && -1 <= empty < ip
        invariant forall i :: 0 <= i < ip ==> !(tab[i].ref > 0 && tab[i].inum == inum)
        invariant empty >= 0 ==> tab[empty].ref == 0
        invariant empty < 0 ==> forall i :: 0 <= i < ip ==> tab[i].ref > 0
      {
        if tab[ip].ref > 0 && tab[ip].inum == inum {
          return;
        }
        if empty < 0 && tab[ip].ref == 0 {
          empty := ip;
        }
        ip := ip + 1;
      }
    }

    /** iget(): -1 for its panic, when the inode is not in the table and no entry is unused. */
    method Iget(inum: nat, ghost tab0: seq<Entry>, ghost more: multiset<nat>) returns (k: int)
      requires Valid() && Counts(tab0, tab, more)
      modifies this`tab
      ensures k < 0 ==>
        k == -1 && tab == old(tab) && forall i :: 0 <= i < NINODE ==> tab[i].ref > 0 && tab[i].inum != inum
      ensures k < 0 <==> Refs(old(tab), inum) == 0 && Unused(old(tab)) == 0
      ensures k >= 0 ==> Valid() && k < NINODE && tab[k].inum == inum && Counts(tab0, tab, more + multiset{inum})
      ensures k >= 0 ==> Room(old(tab), tab, inum)
      ensures k >= 0 ==>
        forall i :: 0 <= i < NINODE && old(tab)[i].ref > 0 ==>
          tab[i].inum == old(tab)[i].inum && tab[i].ref >= old(tab)[i].ref
      ensures k >= 0 ==> tab[k].ref > 0 && (old(tab)[k].ref > 0 ==> tab[k].ref == old(tab)[k].ref + 1)
    {
      var ip, empty := FindEntry(inum);
      if ip < NINODE {
        CountsRef(tab0, tab, more, ip);
        RefsEntry(tab, ip);
        UnusedUpdate(tab, ip, tab[ip].(ref := tab[ip].ref + 1));
        tab := tab[ip := tab[ip].(ref := tab[ip].ref + 1)];
        return ip;
      }
      RefsNone(tab, inum);
      UnusedNone(tab);
      if empty < 0 {
        return -1;
      }
      UnusedUpdate(tab, empty, Entry(inum, 1));
      CountsNew(tab0, tab, more, empty, inum);
      tab := tab[empty := Entry(inum, 1)];
      return empty;
    }

    method Iput(k: nat, ghost tab0: seq<Entry>, ghost more: multiset<nat>)
      requires Valid() && k < NINODE && tab[k].ref > 0 && Counts(tab0, tab, more) && tab[k].inum in more
      modifies this`tab
      ensures Valid() && Counts(tab0, tab, more - multiset{old(tab)[k].inum})
      ensures forall i :: 0 <= i < NINODE && i != k ==> tab[i] == old(tab)[i]
      ensures tab[k] == old(tab)[k].(ref := old(tab)[k].ref - 1)
      ensures Unused(tab) == Unused(old(tab)) + if Refs(old(tab), old(tab)[k].inum) == 1 then 1 else 0
    {
      RefsEntry(tab, k);
      UnusedUpdate(tab, k, tab[k].(ref := tab[k].ref - 1));
      CountsUnref(tab0, tab, more, k);
      tab := tab[k := tab[k].(ref := tab[k].ref - 1)];
    }

    /** ip is in use, and its reference is the only one taken since tab0. */
    ghost predicate Holds(tab0: seq<Entry>, ip: nat)
      reads this
    {
      ip < |tab| && tab[ip].ref > 0 && tab[ip].inum in fs && Counts(tab0, tab, multiset{tab[ip].inum}) &&
      Room(tab0, tab, tab[ip].inum)
    }

    /** The outcome is what the walk says, with one reference taken if it found an inode. */
    ghost predicate Resolved(r: Result, res: Option<nat>, tab0: seq<Entry>)
      reads this
    {
      match res
      case None => r == NotFound && Counts(tab0, tab, multiset{})
      case Some(n) => r.Found? && Holds(tab0, r.k) && tab[r.k].inum == n
    }

    /** The first lines of namex(): iget() of the root, or idup() of the working directory. */
    method Begin(path: string, cwd: nat) returns (ip: int)
      requires Valid() && cwd < NINODE && tab[cwd].ref > 0 && tab[cwd].inum in fs
      modifies this`tab
      ensures ip < 0 <==> path != [] && path[0] == '/' && Refs(old(tab), ROOTINO) == 0 && Unused(old(tab)) == 0
      ensures ip < 0 ==> tab == old(tab) && forall i :: 0 <= i < |tab| ==> tab[i].ref > 0
      ensures ip >= 0 ==> Valid() && Holds(old(tab), ip) && tab[ip].inum == Start(path, old(tab)[cwd].inum)
    {
      assert Counts(tab, tab, multiset{});
      if |path| > 0 && path[0] == '/' {
        ip := Iget(ROOTINO, tab, multiset{});
        assert multiset{} + multiset{ROOTINO} == multiset{ROOTINO};
      } else {
        CountsRef(tab, tab, multiset{}, cwd);
        RefsEntry(tab, cwd);
        UnusedUpdate(tab, cwd, tab[cwd].(ref := tab[cwd].ref + 1));
        assert multiset{} + multiset{tab[cwd].inum} == multiset{tab[cwd].inum};
        tab := tab[cwd := tab[cwd].(ref := tab[cwd].ref + 1)];
        ip := cwd;
      }
    }

    /** One element of a path: -1 if there is no such name, -2 for a panic in iget().  The
        reference to ip is exchanged for one to the next inode, or given back. */
    method Descend(ip: nat, name: string, ghost tab0: seq<Entry>) returns (k: int)
      requires Valid() && Holds(tab0, ip) && fs[tab[ip].inum].Dir? && NoNul(name) && |name| <= DIRSIZ
      modifies this`tab
      ensures k == -2 <==>
        (var st := Step(fs, old(tab)[ip].inum, name); st.Some? && NoRoom(tab0, old(tab)[ip].inum, st.value))
      ensures k == -2 ==> forall i :: 0 <= i < |tab| ==> tab[i].ref > 0
      ensures k != -2 ==> Valid() && (k == -1 <==> Step(fs, old(tab)[ip].inum, name) == None)
      ensures k == -1 ==> Counts(tab0, tab, multiset{})
      ensures k != -2 && k != -1 ==> 0 <= k && Holds(tab0, k) && Step(fs, old(tab)[ip].inum, name) == Some(tab[k].inum)
    {
      var n := tab[ip].inum;
      var dir := fs[n].entries;
      var off := Dirlookup(dir, name);
      DirMapIs(dir, name);
      assert Cut(name) == name;
      if off < 0 {
        assert name !in DirMap(dir) && Step(fs, n, name) == None;
        Iput(ip, tab0, multiset{n});
        assert multiset{n} - multiset{n} == multiset{};
        return -1;
      }
      var inum := dir[off].inum;
      assert Has(dir, off, name) && Step(fs, n, name) == Some(inum);
      assert Refs(tab, inum) == Refs(tab0, inum) + multiset{n}[inum] && Refs(tab, n) == Refs(tab0, n) + 1;
      k := Iget(inum, tab0, multiset{n});
      if k < 0 {
        return -2;
      }
      assert Refs(tab, n) == Refs(tab0, n) + (multiset{n} + multiset{inum})[n];
      Iput(ip, tab0, multiset{n} + multiset{inum});
      assert multiset{n} + multiset{inum} - multiset{n} == multiset{inum};
    }

    /** namex(): resolving the elements of the path, from the root or the working directory. */
    method Namex(path: string, parent: bool, cwd: nat) returns (r: Result, name: string)
      requires Valid() && NoNul(path) && cwd < NINODE && tab[cwd].ref > 0 && tab[cwd].inum in fs
      modifies this`tab
      ensures r == Panicked <==> TableFull(fs, old(tab), path, old(tab)[cwd].inum, Elements(path, 0), parent)
      ensures r == Panicked ==> forall i :: 0 <= i < |tab| ==> tab[i].ref > 0
      ensures r != Panicked ==>
        Valid() && Resolved(r, Resolve(fs, Start(path, old(tab)[cwd].inum), Elements(path, 0), parent), old(tab))
      ensures r != Panicked ==>
        forall m: nat :: PathFinds(fs, path, old(tab)[cwd].inum, parent, m) <==> r.Found? && tab[r.k].inum == m
      ensures r.Found? && parent ==> Elements(path, 0) != [] && name == Elements(path, 0)[|Elements(path, 0)| - 1]
    {
      ghost var names, start := Elements(path, 0), Start(path, tab[cwd].inum);
      OverflowsIff(fs, tab, start, names, parent);
      forall m: nat ensures Resolve(fs, start, names, parent) == Some(m) <==> Finds(fs, start, names, parent, m) {
        ResolveIff(fs, start, names, parent, m);
      }
      r, name := NamexLoop(path, parent, cwd);
    }

    /** The body of namex(), against the walk. */
    method NamexLoop(path: string, parent: bool, cwd: nat) returns (r: Result, name: string)
      requires Valid() && NoNul(path) && cwd < NINODE && tab[cwd].ref > 0 && tab[cwd].inum in fs
      modifies this`tab
      ensures r == Panicked <==>
        NoRoot(old(tab), path) || Overflows(fs, old(tab), Start(path, old(tab)[cwd].inum), Elements(path, 0), parent)
      ensures r == Panicked ==> forall i :: 0 <= i < |tab| ==> tab[i].ref > 0
      ensures r != Panicked ==>
        Valid() && Resolved(r, Resolve(fs, Start(path, old(tab)[cwd].inum), Elements(path, 0), parent), old(tab))
      ensures r.Found? && parent ==> Elements(path, 0) != [] && name == Elements(path, 0)[|Elements(path, 0)| - 1]
    {
      name := "";
      ghost var tab0, names0, start := tab, Elements(path, 0), Start(path, tab[cwd].inum);
      var ip := Begin(path, cwd);
      if ip < 0 {
        return Panicked, "";
      }
      var p := 0;
      while true
        invariant p <= |path| && Valid() && 0 <= ip && Holds(tab0, ip)
        invariant Resolve(fs, start, names0, parent) == Resolve(fs, tab[ip].inum, Elements(path, p), parent)
        invariant Overflows(fs, tab0, start, names0, parent) ==
          Overflows(fs, tab0, tab[ip].inum, Elements(path, p), parent)
        invariant Suffix(Elements(path, p), names0)
        decreases |path| - p
      {
        var found, next, elem := SkipElem(path, p);
        if !found {
          break;
        }
        NextName(path, p, elem, next, names0);
        ResolveStep(fs, tab[ip].inum, Elements(path, p), parent);
        name := elem;
        if !fs[tab[ip].inum].Dir? {
          Iput(ip, tab0, multiset{tab[ip].inum});
          return NotFound, name;
        }
        if parent && next == |path| {
          return Found(ip), name;
        }
        var k := Descend(ip, elem, tab0);
        if k == -2 {
          return Panicked, name;
        }
        if k == -1 {
          return NotFound, name;
        }
        ip, p := k, next;
      }
      if parent {
        Iput(ip, tab0, multiset{tab[ip].inum});
        return NotFound, name;
      }
      r := Found(ip);
    }
  }
}
