/** The three-level page table of vm.c (Sv39, section 4.4 of the RISC-V Privileged
    Architecture) over the page allocator of kalloc.c.

    Addresses are page numbers: virtual page `vpn` is the virtual address divided by
    PGSIZE, and a frame is a physical page number. */
module PageTable {
  import opened Common

  const ENTRIES: nat := 512

  /** A page-table entry: the valid bit, the other flag bits (of which R, W and X make an
      entry a leaf), and the frame. */
  datatype Pte = Pte(valid: bool, rwx: bool, flags: nat, ppn: nat)

  const ZERO: Pte := Pte(false, false, 0, 0)

  /** The page of the last byte of a range, in 64-bit arithmetic. */
  function LastPage(va: nat, size: nat): nat { (va + size - 1) % U64 / PGSIZE }

  /** The pages from the first to the last are those that hold a byte of the range. */
  lemma PagesOfRange(va: nat, size: nat, v: nat)
    requires size > 0 && va + size <= U64
    ensures va / PGSIZE <= v <= LastPage(va, size) <==>
      exists b: nat :: va <= b < va + size && b / PGSIZE == v
  {
    if va / PGSIZE <= v <= LastPage(va, size) {
      var b := if v == va / PGSIZE then va else v * PGSIZE;
      assert va <= b < va + size && b / PGSIZE == v;
    }
  }

  type TablePage = seq<Pte>

  function ZeroPage(): TablePage { seq(ENTRIES, _ => ZERO) }

  /** PX(level, va) of riscv.h. */
  function Px(level: nat, vpn: nat): (i: nat)
    ensures i < ENTRIES
  {
    if level == 0 then vpn % ENTRIES
    else if level == 1 then vpn / ENTRIES % ENTRIES
    else vpn / ENTRIES / ENTRIES % ENTRIES
  }

  /** Where a table page hangs: its level, and the leading index bits of the pages below it. */
  datatype Slot = Slot(level: nat, prefix: nat)

  const ROOT: Slot := Slot(2, 0)

  /** The slot that virtual page vpn goes through at a level. */
  function SlotOf(level: nat, vpn: nat): Slot {
    if level == 0 then Slot(0, vpn / ENTRIES)
    else if level == 1 then Slot(1, vpn / ENTRIES / ENTRIES)
    else ROOT
  }

  function Child(s: Slot, i: nat): Slot
    requires s.level > 0
  {
    Slot(s.level - 1, s.prefix * ENTRIES + i)
  }

  function Parent(s: Slot): Slot { Slot(s.level + 1, s.prefix / ENTRIES) }

  function IndexIn(s: Slot): nat { s.prefix % ENTRIES }

  /** Below MAXVA, distinct pages have distinct paths, and the path goes down slot by slot. */
  lemma PathStep(level: nat, vpn: nat)
    requires 1 <= level <= 2 && vpn < MAXVPN
    ensures SlotOf(level - 1, vpn) == Child(SlotOf(level, vpn), Px(level, vpn))
    ensures Parent(SlotOf(level - 1, vpn)) == SlotOf(level, vpn)
    ensures IndexIn(SlotOf(level - 1, vpn)) == Px(level, vpn)
  {
  }

  /** The three indexes are the digits of the page number. */
  lemma IndexDigits(vpn: nat)
    requires vpn < MAXVPN
    ensures vpn == (Px(2, vpn) * ENTRIES + Px(1, vpn)) * ENTRIES + Px(0, vpn)
  {
  }

  lemma PathInjective(u: nat, v: nat)
    requires u < MAXVPN && v < MAXVPN
    requires forall level: nat :: level <= 2 ==> Px(level, u) == Px(level, v)
    ensures u == v
  {
    assert Px(0, u) == Px(0, v) && Px(1, u) == Px(1, v) && Px(2, u) == Px(2, v);
  }

  lemma ChildParent(s: Slot, i: nat)
    requires s.level > 0 && i < ENTRIES
    ensures Parent(Child(s, i)) == s && IndexIn(Child(s, i)) == i
  {
  }

  // ---------- the tree ----------

  /** The contents of the page-table pages, and which page hangs in which slot. */
  datatype Tree = Tree(mem: map<nat, TablePage>, at: map<Slot, nat>)

  function EntryAt(t: Tree, s: Slot, i: nat): Pte {
    if s in t.at && t.at[s] in t.mem && i < |t.mem[t.at[s]]| then t.mem[t.at[s]][i] else ZERO
  }

  ghost predicate PagesOk(t: Tree) {
    ROOT in t.at &&
    forall s :: s in t.at ==> Below(s) && t.at[s] in t.mem && |t.mem[t.at[s]]| == ENTRIES
  }

  /** A slot on the way to some page below MAXVA. */
  ghost predicate Below(s: Slot) {
    (s.level == 2 && s.prefix == 0) || (s.level == 1 && s.prefix < 256) || (s.level == 0 && s.prefix < 256 * ENTRIES)
  }

  /** Table pages are never shared. */
  ghost predicate Unshared(t: Tree) {
    forall s, s' :: s in t.at && s' in t.at && s != s' ==> t.at[s] != t.at[s']
  }

  /** A valid entry of an upper level is a pointer to the table page in the slot below. */
  ghost predicate DownOk(t: Tree) {
    forall s: Slot, i: nat {:trigger EntryAt(t, s, i)} :: s.level > 0 && i < ENTRIES && EntryAt(t, s, i).valid ==>
      !EntryAt(t, s, i).rwx && Child(s, i) in t.at && t.at[Child(s, i)] == EntryAt(t, s, i).ppn
  }

  /** A table page other than the root is pointed to from the slot above. */
  ghost predicate UpOk(t: Tree) {
    forall s {:trigger Linked(t, s)} :: s in t.at && s.level < 2 ==> Linked(t, s)
  }

  ghost predicate Linked(t: Tree, s: Slot) {
    var pte := EntryAt(t, Parent(s), IndexIn(s));
    Parent(s) in t.at && pte.valid && s in t.at && pte.ppn == t.at[s]
  }

  ghost predicate Ok(t: Tree) {
    var pages, unshared, down, up := PagesOk(t), Unshared(t), DownOk(t), UpOk(t);
    pages && unshared && down && up
  }

  /** What the table means: a map from virtual pages to leaf entries. */
  function Lookup(t: Tree, vpn: nat): Pte { EntryAt(t, SlotOf(0, vpn), Px(0, vpn)) }

  /** walk() hangs a zeroed table page f below entry i of slot s. */
  function AddTable(t: Tree, s: Slot, i: nat, f: nat): Tree
    requires s in t.at && t.at[s] in t.mem && i < |t.mem[t.at[s]]| && s.level > 0
  {
    Tree(t.mem[f := ZeroPage()][t.at[s] := t.mem[t.at[s]][i := Pte(true, false, 0, f)]], t.at[Child(s, i) := f])
  }

  /** A frame that is no table page. */
  ghost predicate Unused(t: Tree, f: nat) { forall s :: s in t.at ==> t.at[s] != f }

  lemma AddTableEntries(t: Tree, s: Slot, i: nat, f: nat, s': Slot, j: nat)
    requires Ok(t) && s in t.at && s.level > 0 && i < ENTRIES && !EntryAt(t, s, i).valid && Unused(t, f)
    ensures Child(s, i) !in t.at
    ensures EntryAt(AddTable(t, s, i, f), s', j) ==
      if s' == s && j == i then Pte(true, false, 0, f)
      else if s' == Child(s, i) then ZERO else EntryAt(t, s', j)
  {
    ChildParent(s, i);
    assert Child(s, i) in t.at ==> Linked(t, Child(s, i));
    assert s' in t.at && s' != s ==> t.at[s'] != t.at[s];
  }

  lemma AddTableOk(t: Tree, s: Slot, i: nat, f: nat)
    requires Ok(t) && s in t.at && s.level > 0 && i < ENTRIES && !EntryAt(t, s, i).valid && Unused(t, f) &&
      Below(Child(s, i))
    ensures Ok(AddTable(t, s, i, f))
  {
    var t' := AddTable(t, s, i, f);
    ChildParent(s, i);
    AddTableEntries(t, s, i, f, s, i);
    assert PagesOk(t') && Unshared(t');
    forall s': Slot, j: nat | s'.level > 0 && j < ENTRIES && EntryAt(t', s', j).valid
      ensures !EntryAt(t', s', j).rwx && Child(s', j) in t'.at && t'.at[Child(s', j)] == EntryAt(t', s', j).ppn
    {
      AddTableEntries(t, s, i, f, s', j);
      if s' != s || j != i { ChildParent(s', j); }
    }
    forall s' | s' in t'.at && s'.level < 2 ensures Linked(t', s') {
      assert s' in t.at ==> Linked(t, s');
      AddTableEntries(t, s, i, f, Parent(s'), IndexIn(s'));
    }
  }

  /** A new table page changes nothing about what is mapped. */
  lemma AddTableLookup(t: Tree, s: Slot, i: nat, f: nat, vpn: nat)
    requires Ok(t) && s in t.at && s.level > 0 && i < ENTRIES && !EntryAt(t, s, i).valid && Unused(t, f)
    ensures Lookup(AddTable(t, s, i, f), vpn) == Lookup(t, vpn)
  {
    AddTableEntries(t, s, i, f, SlotOf(0, vpn), Px(0, vpn));
  }

  /** Store a leaf entry for vpn. */
  function SetLeaf(t: Tree, vpn: nat, pte: Pte): Tree
    requires SlotOf(0, vpn) in t.at && t.at[SlotOf(0, vpn)] in t.mem && |t.mem[t.at[SlotOf(0, vpn)]]| == ENTRIES
  {
    var f := t.at[SlotOf(0, vpn)];
    Tree(t.mem[f := t.mem[f][Px(0, vpn) := pte]], t.at)
  }

  lemma SetLeafEntries(t: Tree, vpn: nat, pte: Pte, s: Slot, j: nat)
    requires Ok(t) && SlotOf(0, vpn) in t.at
    ensures EntryAt(SetLeaf(t, vpn, pte), s, j) ==
      if s == SlotOf(0, vpn) && j == Px(0, vpn) then pte else EntryAt(t, s, j)
  {
    assert s in t.at && s != SlotOf(0, vpn) ==> t.at[s] != t.at[SlotOf(0, vpn)];
  }

  lemma SetLeafOk(t: Tree, vpn: nat, pte: Pte)
    requires Ok(t) && SlotOf(0, vpn) in t.at
    ensures Ok(SetLeaf(t, vpn, pte))
  {
    var t' := SetLeaf(t, vpn, pte);
    forall s: Slot, j: nat | s.level > 0 ensures EntryAt(t', s, j) == EntryAt(t, s, j) {
      SetLeafEntries(t, vpn, pte, s, j);
    }
    forall s | s in t'.at && s.level < 2 ensures Linked(t', s) { assert Linked(t, s); }
  }

  /** A stored leaf entry is found at its page and nowhere else. */
  lemma SetLeafLookup(t: Tree, vpn: nat, pte: Pte, v: nat)
    requires Ok(t) && SlotOf(0, vpn) in t.at && vpn < MAXVPN && v < MAXVPN
    ensures Lookup(SetLeaf(t, vpn, pte), v) == if v == vpn then pte else Lookup(t, v)
  {
    SetLeafEntries(t, vpn, pte, SlotOf(0, v), Px(0, v));
  }

  /** The map from virtual pages to entries that a table stands for. */
  ghost predicate Views(t: Tree, view: seq<Pte>) {
    |view| == MAXVPN && forall v: nat :: v < MAXVPN ==> ViewAt(t, view, v)
  }

  ghost predicate ViewAt(t: Tree, view: seq<Pte>, v: nat) { v < |view| && view[v] == Lookup(t, v) }

  lemma SetLeafViews(t: Tree, view: seq<Pte>, vpn: nat, pte: Pte)
    requires Ok(t) && Views(t, view) && vpn < MAXVPN && SlotOf(0, vpn) in t.at
    ensures Ok(SetLeaf(t, vpn, pte)) && Views(SetLeaf(t, vpn, pte), view[vpn := pte])
  {
    SetLeafOk(t, vpn, pte);
    var t', view' := SetLeaf(t, vpn, pte), view[vpn := pte];
    forall v: nat | v < MAXVPN ensures ViewAt(t', view', v) {
      assert ViewAt(t, view, v);
      SetLeafLookup(t, vpn, pte, v);
    }
  }

  // ---------- table pages and the free list ----------

  /** Free frames are free once, and none of them is a table page. */
  ghost predicate PoolOk(t: Tree, free: seq<nat>) {
    Distinct(free) && forall i :: 0 <= i < |free| ==> Unused(t, free[i])
  }

  /** What walk() and mappages() may do to the table pages: hang more of them, each on a frame
      taken from the front of the free list, so that no frame is lost. */
  ghost predicate Grown(t: Tree, free: seq<nat>, t': Tree, free': seq<nat>) {
    var suffix := |free'| <= |free| && free' == free[|free| - |free'|..] && |t'.at| + |free'| == |t.at| + |free|;
    var kept := forall s :: s in t.at ==> s in t'.at && t'.at[s] == t.at[s];
    var taken := forall s :: s in t'.at && s !in t.at ==> t'.at[s] in free;
    suffix && kept && taken
  }

  lemma GrownSame(t: Tree, free: seq<nat>, t': Tree)
    requires t'.at == t.at
    ensures Grown(t, free, t', free)
  {
  }

  lemma GrownTwice(t0: Tree, free0: seq<nat>, t: Tree, free: seq<nat>, t': Tree, free': seq<nat>)
    requires Grown(t0, free0, t, free) && Grown(t, free, t', free')
    ensures Grown(t0, free0, t', free')
  {
    SuffixOfSuffix(free0, free, free');
    forall s | s in t'.at && s !in t0.at ensures t'.at[s] in free0 {
      if s !in t.at { assert t'.at[s] in free; } else { assert t.at[s] in free0; }
    }
  }

  lemma SuffixOfSuffix(a: seq<nat>, b: seq<nat>, c: seq<nat>)
    requires |b| <= |a| && b == a[|a| - |b|..] && |c| <= |b| && c == b[|b| - |c|..]
    ensures c == a[|a| - |c|..] && forall x :: x in b ==> x in a
  {
  }

  lemma GrownOne(t: Tree, free: seq<nat>, t': Tree, c: Slot, f: nat)
    requires t'.at == t.at[c := f] && c !in t.at
    ensures Grown(t, [f] + free, t', free)
  {
    assert ([f] + free)[1..] == free;
  }

  lemma HungPool(t: Tree, t': Tree, free: seq<nat>, c: Slot, f: nat)
    requires PoolOk(t, [f] + free) && t'.at == t.at[c := f]
    ensures PoolOk(t', free)
  {
    forall k | 0 <= k < |free| ensures Unused(t', free[k]) && free[k] != f {
      assert ([f] + free)[k + 1] == free[k] && Unused(t, ([f] + free)[k + 1]) && ([f] + free)[0] == f;
    }
    forall j, k | 0 <= j < k < |free| ensures free[j] != free[k] {
      assert ([f] + free)[j + 1] == free[j] && ([f] + free)[k + 1] == free[k];
    }
  }

  /** Hanging one more page changes nothing about what is mapped. */
  lemma HungKeeps(t: Tree, view: seq<Pte>, free: seq<nat>, s: Slot, i: nat, f: nat)
    requires Ok(t) && s in t.at && s.level > 0 && i < ENTRIES && !EntryAt(t, s, i).valid
    requires Views(t, view) && PoolOk(t, [f] + free) && Below(Child(s, i))
    ensures var t' := AddTable(t, s, i, f);
      Ok(t') && Views(t', view) && PoolOk(t', free) && Grown(t, [f] + free, t', free)
  {
    var t' := AddTable(t, s, i, f);
    assert Unused(t, ([f] + free)[0]);
    AddTableOk(t, s, i, f);
    AddTableEntries(t, s, i, f, s, i);
    forall v: nat | v < MAXVPN ensures ViewAt(t', view, v) {
      assert ViewAt(t, view, v);
      AddTableLookup(t, s, i, f, v);
    }
    HungPool(t, t', free, Child(s, i), f);
    GrownOne(t, free, t', Child(s, i), f);
  }

  /** Without a valid entry on the way down there is no table page at the bottom. */
  lemma AbsentBelow(t: Tree, vpn: nat, level: nat)
    requires Ok(t) && vpn < MAXVPN && 1 <= level <= 2 && !EntryAt(t, SlotOf(level, vpn), Px(level, vpn)).valid
    ensures SlotOf(0, vpn) !in t.at && SlotOf(level - 1, vpn) !in t.at
  {
    PathStep(1, vpn);
    PathStep(2, vpn);
    assert SlotOf(0, vpn) in t.at ==> Linked(t, SlotOf(0, vpn));
    assert SlotOf(1, vpn) in t.at ==> Linked(t, SlotOf(1, vpn));
  }

  /** walk() stands at table page r of a level, or gave up because there is no table page
      for vpn (and no memory for one). */
  ghost predicate Reached(t: Tree, free: seq<nat>, level: nat, vpn: nat, r: int, alloc: bool) {
    var found := SlotOf(level, vpn) in t.at && t.at[SlotOf(level, vpn)] == r;
    var absent := SlotOf(0, vpn) !in t.at && (alloc ==> free == []);
    if r >= 0 then found else absent
  }

  // ---------- how many table pages a range takes ----------

  /** 1 if the table page of vpn at this level is not there. */
  function Lack(at: map<Slot, nat>, level: nat, vpn: nat): nat { if SlotOf(level, vpn) in at then 0 else 1 }

  /** How many table pages are missing on the way from the root down to a level. */
  function PathLacks(at: map<Slot, nat>, level: nat, vpn: nat): nat
    decreases 2 - level
  {
    if level >= 2 then 0 else PathLacks(at, level + 1, vpn) + Lack(at, level, vpn)
  }

  /** n frames are not enough for the table pages missing on the way to vpn. */
  ghost predicate Short(at: map<Slot, nat>, n: nat, vpn: nat) { PathLacks(at, 0, vpn) > n }

  ghost predicate HungFor(at: map<Slot, nat>, at': map<Slot, nat>, level: nat, vpn: nat, x: Slot) {
    x in at' <==> x in at || (level <= x.level < 2 && x == SlotOf(x.level, vpn))
  }

  /** Exactly the missing table pages on the way down to a level were hung, one frame each. */
  ghost predicate Hung(at: map<Slot, nat>, n: nat, at': map<Slot, nat>, n': nat, level: nat, vpn: nat) {
    (forall x {:trigger HungFor(at, at', level, vpn, x)} :: HungFor(at, at', level, vpn, x)) &&
    n' + PathLacks(at, level, vpn) == n
  }

  /** walk() with n free frames, at a level: what it hung so far, or that there are not enough frames. */
  ghost predicate Down(at: map<Slot, nat>, n: nat, at': map<Slot, nat>, n': nat, level: nat, vpn: nat, r: int) {
    if r >= 0 then Hung(at, n, at', n', level, vpn) else Short(at, n, vpn)
  }

  /** One level of walk(): the table page is there, or is hung, or there is no frame. */
  ghost predicate OneDown(at: map<Slot, nat>, n: nat, at': map<Slot, nat>, n': nat, level: nat, vpn: nat, r: int) {
    var x := SlotOf(level, vpn);
    if x in at then r >= 0 && at' == at && n' == n
    else if n == 0 then r < 0
    else r >= 0 && x in at' && at' == at[x := at'[x]] && n' == n - 1
  }

  lemma DownStart(at: map<Slot, nat>, n: nat, vpn: nat)
    ensures Hung(at, n, at, n, 2, vpn)
  {
  }

  lemma DownMore(at0: map<Slot, nat>, n0: nat, at: map<Slot, nat>, n: nat, at': map<Slot, nat>, n': nat,
                 level: nat, vpn: nat, r: int)
    requires level < 2 && Hung(at0, n0, at, n, level + 1, vpn) && OneDown(at, n, at', n', level, vpn, r)
    ensures Down(at0, n0, at', n', level, vpn, r)
  {
    var y := SlotOf(level, vpn);
    assert HungFor(at0, at, level + 1, vpn, y);
    if r >= 0 {
      forall x ensures HungFor(at0, at', level, vpn, x) { assert HungFor(at0, at, level + 1, vpn, x); }
    }
  }

  /** The slots below the root on the way to the pages from first to hi. */
  predicate OnWay(first: nat, hi: nat, x: Slot) {
    x.level < 2 && first < hi && SlotOf(x.level, first).prefix <= x.prefix <= SlotOf(x.level, hi - 1).prefix
  }

  /** The next page takes the same table pages, or one new one at a level. */
  lemma WayStep(first: nat, a: nat, x: Slot)
    requires first <= a
    ensures OnWay(first, a + 1, x) <==> OnWay(first, a, x) || (x.level < 2 && x == SlotOf(x.level, a))
  {
  }

  /** How many table pages of a level are missing among those numbered from lo to hi. */
  function Absent(at: map<Slot, nat>, level: nat, lo: nat, hi: nat): (n: nat)
    ensures lo <= hi ==> n <= hi - lo
  {
    if hi <= lo then 0 else Absent(at, level, lo, hi - 1) + if Slot(level, hi - 1) in at then 0 else 1
  }

  lemma {:induction false} AbsentGrows(at: map<Slot, nat>, level: nat, lo: nat, hi: nat, hi': nat)
    requires hi <= hi'
    ensures Absent(at, level, lo, hi) <= Absent(at, level, lo, hi')
  {
    if hi < hi' { AbsentGrows(at, level, lo, hi, hi' - 1); }
  }

  /** How many table pages of a level are missing on the way to the pages from first to hi. */
  function LevelLacks(at: map<Slot, nat>, level: nat, first: nat, hi: nat): nat {
    if hi <= first then 0 else Absent(at, level, SlotOf(level, first).prefix, SlotOf(level, hi - 1).prefix + 1)
  }

  function Lacks(at: map<Slot, nat>, first: nat, hi: nat): nat {
    LevelLacks(at, 1, first, hi) + LevelLacks(at, 0, first, hi)
  }

  lemma LacksGrows(at: map<Slot, nat>, first: nat, hi: nat, hi': nat)
    requires hi <= hi'
    ensures Lacks(at, first, hi) <= Lacks(at, first, hi')
  {
    if first < hi < hi' {
      AbsentGrows(at, 1, SlotOf(1, first).prefix, SlotOf(1, hi - 1).prefix + 1, SlotOf(1, hi' - 1).prefix + 1);
      AbsentGrows(at, 0, SlotOf(0, first).prefix, SlotOf(0, hi - 1).prefix + 1, SlotOf(0, hi' - 1).prefix + 1);
    }
  }

  ghost predicate TabledFor(at: map<Slot, nat>, at': map<Slot, nat>, first: nat, hi: nat, x: Slot) {
    x in at' <==> x in at || OnWay(first, hi, x)
  }

  /** The table pages and the number of free frames. */
  datatype Tables = Tables(at: map<Slot, nat>, n: nat)

  /** Exactly the missing table pages on the way to pages first to hi were hung, one frame each. */
  ghost predicate Tabled(s: Tables, s': Tables, first: nat, hi: nat) {
    (forall x {:trigger TabledFor(s.at, s'.at, first, hi, x)} :: TabledFor(s.at, s'.at, first, hi, x)) &&
    s'.n + Lacks(s.at, first, hi) == s.n
  }

  /** What is missing for the next page, after those before it. */
  lemma LevelNext(at0: map<Slot, nat>, at: map<Slot, nat>, level: nat, first: nat, a: nat)
    requires level < 2 && first <= a && TabledFor(at0, at, first, a, SlotOf(level, a))
    ensures Lack(at, level, a) + LevelLacks(at0, level, first, a) == LevelLacks(at0, level, first, a + 1)
  {
    var p, q := SlotOf(level, first).prefix, SlotOf(level, a).prefix;
    assert SlotOf(level, a) == Slot(level, q);
    assert Absent(at0, level, p, q + 1) == Absent(at0, level, p, q) + Lack(at0, level, a);
    if first < a {
      var q' := SlotOf(level, a - 1).prefix;
      assert p <= q' && (q == q' || q == q' + 1);
    }
  }

  lemma LacksNext(s: Tables, s': Tables, first: nat, a: nat)
    requires first <= a && Tabled(s, s', first, a)
    ensures PathLacks(s'.at, 0, a) + Lacks(s.at, first, a) == Lacks(s.at, first, a + 1)
  {
    assert TabledFor(s.at, s'.at, first, a, SlotOf(0, a)) && TabledFor(s.at, s'.at, first, a, SlotOf(1, a));
    LevelNext(s.at, s'.at, 0, first, a);
    LevelNext(s.at, s'.at, 1, first, a);
    assert PathLacks(s'.at, 1, a) == Lack(s'.at, 1, a);
  }

  /** A round of mappages() on the tables: what was missing on the way to page a is hung. */
  ghost predicate Round(s: Tables, s': Tables, a: nat) { Hung(s.at, s.n, s'.at, s'.n, 0, a) }

  lemma TabledMore(s0: Tables, s: Tables, s': Tables, first: nat, a: nat)
    requires first <= a && Tabled(s0, s, first, a) && Round(s, s', a)
    ensures Tabled(s0, s', first, a + 1)
  {
    LacksNext(s0, s, first, a);
    var hi := a + 1;
    forall x ensures TabledFor(s0.at, s'.at, first, hi, x) {
      assert TabledFor(s0.at, s.at, first, a, x) && HungFor(s.at, s'.at, 0, a, x);
      WayStep(first, a, x);
    }
  }

  ghost predicate RoundAt(h: seq<Tables>, first: nat, i: nat)
    requires i + 1 < |h|
  {
    Round(h[i], h[i + 1], first + i)
  }

  /** The tables after each page that was mapped. */
  ghost predicate Rounds(h: seq<Tables>, first: nat) {
    forall i {:trigger RoundAt(h, first, i)} :: 0 <= i && i + 1 < |h| ==> RoundAt(h, first, i)
  }

  lemma RoundsMore(h: seq<Tables>, first: nat, a: nat, s: Tables)
    requires h != [] && Rounds(h, first) && a == first + |h| - 1 && Round(h[|h| - 1], s, a)
    ensures Rounds(h + [s], first)
  {
    var h' := h + [s];
    forall i: nat | i + 1 < |h'| ensures RoundAt(h', first, i) {
      if i + 1 < |h| { assert RoundAt(h, first, i); }
    }
  }

  lemma {:induction false} RoundsTable(h: seq<Tables>, first: nat, k: nat)
    requires Rounds(h, first) && k < |h|
    ensures Tabled(h[0], h[k], first, first + k)
  {
    if k > 0 {
      RoundsTable(h, first, k - 1);
      assert RoundAt(h, first, k - 1);
      TabledMore(h[0], h[k - 1], h[k], first, first + k - 1);
    }
  }

  // ---------- mappages ----------

  /** The panics of vm.c that its callers can run into. */
  datatype Message = WalkRange | Remap | NotALeaf | NotAligned | LeafLeft

  datatype Outcome = Done | NoMemory | Panic(message: Message)

  /** The entry that mappages() stores for the j-th page of its range. */
  function NthPte(pte: Pte, j: nat): Pte { pte.(ppn := pte.ppn + j) }

  /** Exactly the k pages from first on were mapped, and none of them had been. */
  ghost predicate Maps(view: seq<Pte>, view': seq<Pte>, first: nat, k: nat, pte: Pte) {
    |view'| == |view| &&
    forall v :: 0 <= v < |view| ==>
      view'[v] == (if first <= v < first + k then NthPte(pte, v - first) else view[v]) &&
      (first <= v < first + k ==> !view[v].valid)
  }

  lemma MapsNone(view: seq<Pte>, first: nat, pte: Pte)
    ensures Maps(view, view, first, 0, pte)
  {
  }

  lemma MapsOne(view0: seq<Pte>, view: seq<Pte>, first: nat, k: nat, pte: Pte)
    requires Maps(view0, view, first, k, pte) && first + k < |view| && !view[first + k].valid
    ensures Maps(view0, view[first + k := NthPte(pte, k)], first, k + 1, pte)
  {
  }

  /** Why mappages() cannot map page a: it is out of range, already mapped, or there is no
      memory for a table page. */
  ghost predicate Stuck(o: Outcome, t: Tree, view: seq<Pte>, free: seq<nat>, a: nat) {
    var noMemory := a < MAXVPN && SlotOf(0, a) !in t.at && free == [];
    var remap := a < |view| && view[a].valid;
    match o
    case Done => false
    case NoMemory => noMemory
    case Panic(m) => (m == Remap && remap) || (m == WalkRange && a >= MAXVPN)
  }

  /** Stuck at page a, in a round that began with the tables s. */
  ghost predicate Blocked(o: Outcome, t: Tree, view: seq<Pte>, free: seq<nat>, s: Tables, a: nat) {
    Stuck(o, t, view, free, a) && (o == NoMemory ==> Short(s.at, s.n, a))
  }

  /** Why mappages() stopped at page a, by the state before the call: the page is
      out of range, or takes more table pages than there are frames, or was mapped. */
  ghost predicate StuckOn(o: Outcome, s: Tables, view: seq<Pte>, first: nat, a: nat) {
    var noMemory := a < MAXVPN && Lacks(s.at, first, a + 1) > s.n;
    var remap := a < |view| && view[a].valid;
    match o
    case Done => false
    case NoMemory => noMemory
    case Panic(m) => (m == Remap && remap) || (m == WalkRange && a >= MAXVPN)
  }

  /** None of the pages from first to hi is mapped. */
  ghost predicate NoneIn(view: seq<Pte>, first: nat, hi: nat) {
    forall v :: first <= v < hi && v < |view| ==> !view[v].valid
  }

  /** When mappages() succeeds: the range is one, lies below MAXVA, none of it is mapped, and there
      are frames for the missing table pages. */
  ghost predicate Mappable(s: Tables, view: seq<Pte>, first: nat, last: nat) {
    first <= last < MAXVPN && NoneIn(view, first, last + 1) && Lacks(s.at, first, last + 1) <= s.n
  }

  /** Where mappages() stops, by the state before the call: there are frames for the table pages of
      the first k pages, and k is the whole range, or it is stuck at the next page. */
  ghost predicate StopsAt(o: Outcome, s: Tables, view: seq<Pte>, first: nat, last: nat, k: nat) {
    Lacks(s.at, first, first + k) <= s.n &&
    if o == Done then k > 0 && first + k == last + 1 else StuckOn(o, s, view, first, first + k)
  }

  /** h holds the tables after each of the first k pages. */
  lemma Stops(o: Outcome, t: Tree, free: seq<nat>, view': seq<Pte>, s: Tables, view: seq<Pte>, h: seq<Tables>,
              first: nat, last: nat, k: nat, pte: Pte)
    requires |h| == k + 1 && h[0] == s && Rounds(h, first)
    requires if o == Done then k > 0 && first + k == last + 1 else Blocked(o, t, view', free, h[k], first + k)
    requires Maps(view, view', first, k, pte)
    ensures StopsAt(o, s, view, first, last, k)
  {
    RoundsTable(h, first, k);
    LacksNext(h[0], h[k], first, first + k);
  }

  /** It succeeds then and only then, when it got to the end of the range or to where it is stuck. */
  lemma MapsAllIff(o: Outcome, s: Tables, view: seq<Pte>, first: nat, last: nat, k: nat)
    requires |view| == MAXVPN && NoneIn(view, first, first + k) && StopsAt(o, s, view, first, last, k)
    requires o == Done ==> last < MAXVPN
    requires o != Done && first <= last ==> first + k <= last
    ensures o == Done <==> Mappable(s, view, first, last)
  {
    if o != Done && first <= last { LacksGrows(s.at, first, first + k + 1, last + 1); }
  }

  // ---------- uvmunmap ----------

  /** No flag but the valid bit: an entry that points to a table. */
  predicate NotLeaf(pte: Pte) { pte.valid && !pte.rwx && pte.flags == 0 }

  /** What kfree() gets for an entry that uvmunmap() removes. */
  function FreedBy(pte: Pte, doFree: bool): seq<nat> { if doFree && pte.valid then [pte.ppn] else [] }

  /** The frames that uvmunmap() frees for the k pages from v on, the last one first. */
  function Freed(view: seq<Pte>, v: nat, k: nat, doFree: bool): seq<nat> {
    if k == 0 then []
    else (if v + k <= |view| then FreedBy(view[v + k - 1], doFree) else []) + Freed(view, v, k - 1, doFree)
  }

  /** How many of the k pages from v on are mapped to frame f. */
  ghost function MappedTo(view: seq<Pte>, v: nat, k: nat, f: nat): nat {
    if k == 0 then 0
    else
      var u := v + k - 1;
      MappedTo(view, v, k - 1, f) + if u < |view| && view[u].valid && view[u].ppn == f then 1 else 0
  }

  /** Frame f went to the free list once for each of the k pages from v on that was mapped to it. */
  ghost predicate FreesMapped(view: seq<Pte>, v: nat, k: nat, doFree: bool, free: seq<nat>, free': seq<nat>, f: nat) {
    multiset(free')[f] == multiset(free)[f] + if doFree then MappedTo(view, v, k, f) else 0
  }

  /** One more entry in front of what is freed. */
  lemma CountMore(all: seq<nat>, rest: seq<nat>, e: Pte, doFree: bool, f: nat)
    requires all == FreedBy(e, doFree) + rest
    ensures multiset(all)[f] == multiset(rest)[f] + if doFree && e.valid && e.ppn == f then 1 else 0
  {
    if doFree && e.valid {
      assert multiset(all) == multiset{e.ppn} + multiset(rest);
    } else {
      assert all == rest;
    }
  }

  lemma {:induction false} FreedCounts(view: seq<Pte>, v: nat, k: nat, doFree: bool, f: nat)
    ensures multiset(Freed(view, v, k, doFree))[f] == if doFree then MappedTo(view, v, k, f) else 0
  {
    if k > 0 {
      FreedCounts(view, v, k - 1, doFree, f);
      var all, rest := Freed(view, v, k, doFree), Freed(view, v, k - 1, doFree);
      if v + k <= |view| { CountMore(all, rest, view[v + k - 1], doFree, f); } else { assert all == rest; }
    }
  }

  lemma FreesAll(view: seq<Pte>, v: nat, k: nat, doFree: bool, free: seq<nat>)
    ensures forall f: nat :: FreesMapped(view, v, k, doFree, free, Freed(view, v, k, doFree) + free, f)
  {
    forall f: nat ensures FreesMapped(view, v, k, doFree, free, Freed(view, v, k, doFree) + free, f) {
      FreedCounts(view, v, k, doFree, f);
    }
  }

  lemma {:induction false} FreedSuffix(view: seq<Pte>, v: nat, j: nat, k: nat, doFree: bool)
    requires j <= k
    ensures var a, b := Freed(view, v, k, doFree), Freed(view, v, j, doFree);
      |b| <= |a| && a[|a| - |b|..] == b
  {
    if j < k { FreedSuffix(view, v, j, k - 1, doFree); }
  }

  lemma PoolSuffix(t: Tree, a: seq<nat>, b: seq<nat>, free: seq<nat>)
    requires PoolOk(t, a + free) && |b| <= |a| && a[|a| - |b|..] == b
    ensures PoolOk(t, b + free)
  {
    var d := |a| - |b|;
    forall i | 0 <= i < |b + free| ensures (b + free)[i] == (a + free)[i + d] {
      assert i < |b| ==> b[i] == a[d..][i];
    }
    forall i, j | 0 <= i < j < |b + free| ensures (b + free)[i] != (b + free)[j] {
      assert (a + free)[i + d] != (a + free)[j + d];
    }
  }

  /** The first k pages from v on are gone, and no other page changed. */
  ghost predicate Unmaps(view: seq<Pte>, view': seq<Pte>, v: nat, k: nat) {
    |view'| == |view| && forall u :: 0 <= u < |view| ==> view'[u] == if v <= u < v + k then ZERO else view[u]
  }

  lemma UnmapsOne(view0: seq<Pte>, view: seq<Pte>, v: nat, k: nat)
    requires Unmaps(view0, view, v, k) && v + k < |view|
    ensures Unmaps(view0, view[v + k := ZERO], v, k + 1) && view[v + k] == view0[v + k]
  {
  }

  lemma PoolSame(t: Tree, t': Tree, free: seq<nat>)
    requires PoolOk(t, free) && t'.at == t.at
    ensures PoolOk(t', free)
  {
  }

  /** The next frame to be freed is no table page and not free. */
  lemma PoolNext(t: Tree, free: seq<nat>, view: seq<Pte>, v: nat, k: nat, n: nat, doFree: bool)
    requires PoolOk(t, Freed(view, v, n, doFree) + free) && k < n
    ensures PoolOk(t, Freed(view, v, k + 1, doFree) + free)
  {
    FreedSuffix(view, v, k + 1, n, doFree);
    PoolSuffix(t, Freed(view, v, n, doFree), Freed(view, v, k + 1, doFree), free);
  }

  lemma FreedOne(view: seq<Pte>, v: nat, k: nat, doFree: bool, free: seq<nat>)
    requires v + k < |view|
    ensures Freed(view, v, k + 1, doFree) + free == FreedBy(view[v + k], doFree) + (Freed(view, v, k, doFree) + free)
  {
    Assoc(FreedBy(view[v + k], doFree), Freed(view, v, k, doFree), free);
  }

  lemma Assoc(a: seq<nat>, b: seq<nat>, c: seq<nat>)
    ensures a + (b + c) == a + b + c
  {
  }

  /** One round of uvmunmap()'s loop, on values. */
  lemma UnmapStep(t0: Tree, t: Tree, view0: seq<Pte>, view: seq<Pte>, free0: seq<nat>, free: seq<nat>,
                  v: nat, k: nat, n: nat, doFree: bool)
    requires PoolOk(t0, Freed(view0, v, n, doFree) + free0) && t.at == t0.at
    requires Unmaps(view0, view, v, k) && k < n && v + k < |view| && free == Freed(view0, v, k, doFree) + free0
    ensures Unmaps(view0, view[v + k := ZERO], v, k + 1) && view[v + k] == view0[v + k]
    ensures PoolOk(t, FreedBy(view[v + k], doFree) + free)
    ensures FreedBy(view[v + k], doFree) + free == Freed(view0, v, k + 1, doFree) + free0
  {
    UnmapsOne(view0, view, v, k);
    FreedOne(view0, v, k, doFree, free0);
    PoolNext(t0, free0, view0, v, k, n, doFree);
    PoolSame(t0, t, Freed(view0, v, k + 1, doFree) + free0);
  }

  /** How often the loop of uvmunmap() goes round, with its bound in 64-bit arithmetic. */
  function PageCount(va: nat, npages: nat): nat {
    var end := (va + npages * PGSIZE) % U64;
    if end <= va then 0 else (end - va) / PGSIZE
  }

  lemma AlignedEnd(va: nat, npages: nat)
    requires va % PGSIZE == 0
    ensures (va + npages * PGSIZE) % U64 % PGSIZE == 0
  {
    var q, p := U64 / PGSIZE, va / PGSIZE + npages;
    assert va + npages * PGSIZE == p * PGSIZE && U64 == q * PGSIZE;
    var w := p / q;
    assert p == w * q + p % q;
    assert p * PGSIZE == w * U64 + (p % q) * PGSIZE;
  }

  /** They are the pages that begin between va and the wrapped bound. */
  lemma CountsPages(va: nat, npages: nat, a: nat)
    requires va < U64 && va % PGSIZE == 0
    ensures va / PGSIZE <= a < va / PGSIZE + PageCount(va, npages) <==>
      va <= a * PGSIZE < (va + npages * PGSIZE) % U64
  {
    AlignedEnd(va, npages);
  }

  /** All npages of them, unless the bound wraps. */
  lemma CountsAll(va: nat, npages: nat)
    requires va % PGSIZE == 0 && va + npages * PGSIZE < U64
    ensures PageCount(va, npages) == npages
  {
  }

  /** uvmunmap() can pass the k pages from v on. */
  ghost predicate NoTables(view: seq<Pte>, v: nat, k: nat) {
    forall u :: v <= u < v + k && u < |view| ==> !NotLeaf(view[u])
  }

  /** When uvmunmap() goes through: its range lies below MAXVA and no entry of it points to a table. */
  lemma UnmapsAllIff(o: Outcome, view: seq<Pte>, v: nat, k: nat, n: nat)
    requires UnmapStopped(o, view, v + k, v + n) && k <= n && (k == 0 || v + k <= |view|) && NoTables(view, v, k)
    ensures o == Done <==> (n == 0 || v + n <= |view|) && NoTables(view, v, n)
  {
    if o != Done && v + k < |view| { assert NotLeaf(view[v + k]); }
  }

  /** Why uvmunmap() stopped at page a. */
  ghost predicate UnmapStopped(o: Outcome, view: seq<Pte>, a: nat, end: nat) {
    match o
    case Done => a == end
    case NoMemory => false
    case Panic(m) => a < end && if a < |view| then m == NotALeaf && NotLeaf(view[a]) else m == WalkRange
  }

  // ---------- freewalk ----------

  function FrameAt(t: Tree, s: Slot): nat { if s in t.at then t.at[s] else 0 }

  /** What the i-th entry of slot s adds to what freewalk() frees. */
  function FreeOne(t: Tree, s: Slot, i: nat): seq<nat>
    requires s.level > 0
    decreases s.level, 0
  {
    if EntryAt(t, s, i).valid then FreeAll(t, Child(s, i)) else []
  }

  /** The frames that freewalk() frees for the first i entries of slot s, the last one first. */
  function FreeOrder(t: Tree, s: Slot, i: nat): seq<nat>
    decreases s.level, i
  {
    if i == 0 || s.level == 0 then []
    else FreeOne(t, s, i - 1) + FreeOrder(t, s, i - 1)
  }

  function FreeAll(t: Tree, s: Slot): seq<nat>
    decreases s.level, ENTRIES + 1
  {
    [FrameAt(t, s)] + FreeOrder(t, s, ENTRIES)
  }

  /** No leaf mapping below the first i entries of slot s. */
  ghost predicate NoLeaf(t: Tree, s: Slot, i: nat)
    decreases s.level
  {
    forall j: nat :: j < i && EntryAt(t, s, j).valid ==> s.level > 0 && NoLeaf(t, Child(s, j), ENTRIES)
  }

  /** The slot above x at a level. */
  function Above(x: Slot, level: nat): Slot
    decreases level
  {
    if level <= x.level then x else Parent(Above(x, level - 1))
  }

  ghost predicate Under(x: Slot, s: Slot) { x.level <= s.level && Above(x, s.level) == s }

  /** The entry of slot s through which x is reached. */
  function Branch(x: Slot, s: Slot): nat { if s.level == 0 then 0 else IndexIn(Above(x, s.level - 1)) }

  lemma {:induction false} AboveLevel(x: Slot, level: nat)
    requires x.level <= level
    ensures Above(x, level).level == level
    decreases level
  {
    if x.level < level { AboveLevel(x, level - 1); }
  }

  lemma UnderChild(x: Slot, s: Slot, j: nat)
    requires s.level > 0 && j < ENTRIES
    ensures Under(x, Child(s, j)) <==> Under(x, s) && x != s && Branch(x, s) == j
  {
    if x.level < s.level { AboveLevel(x, s.level - 1); }
    ChildParent(s, j);
  }

  /** The slots above a table page have table pages and valid entries. */
  lemma {:induction false} AboveHung(t: Tree, x: Slot, level: nat)
    requires Ok(t) && x in t.at && x.level <= level <= 2
    ensures Above(x, level) in t.at
    ensures x.level < level ==>
      EntryAt(t, Above(x, level), IndexIn(Above(x, level - 1))).valid
    decreases level
  {
    if x.level < level {
      AboveHung(t, x, level - 1);
      AboveLevel(x, level - 1);
      assert Linked(t, Above(x, level - 1));
    }
  }

  /** Slot x hangs below entry i of slot s. */
  ghost predicate Through(x: Slot, s: Slot, i: nat) { Under(x, s) && x != s && Branch(x, s) == i }

  /** freewalk() frees the page of slot x once if x is below, and otherwise not at all. */
  lemma {:induction false} OrderCount(t: Tree, s: Slot, i: nat, x: Slot, f: nat)
    requires s.level > 0
    requires forall j: nat :: j < i ==> multiset(FreeOne(t, s, j))[f] == if Through(x, s, j) then 1 else 0
    ensures multiset(FreeOrder(t, s, i))[f] == if Under(x, s) && x != s && Branch(x, s) < i then 1 else 0
  {
    if i > 0 {
      OrderCount(t, s, i - 1, x, f);
      assert FreeOrder(t, s, i) == FreeOne(t, s, i - 1) + FreeOrder(t, s, i - 1);
      assert multiset(FreeOne(t, s, i - 1))[f] == if Through(x, s, i - 1) then 1 else 0;
    }
  }

  lemma {:induction false} OneCount(t: Tree, s: Slot, i: nat, x: Slot)
    requires Ok(t) && s in t.at && x in t.at && s.level > 0 && i < ENTRIES
    ensures multiset(FreeOne(t, s, i))[t.at[x]] == if Through(x, s, i) then 1 else 0
    decreases s.level, 0
  {
    UnderChild(x, s, i);
    if EntryAt(t, s, i).valid {
      AllCount(t, Child(s, i), x);
    } else if Under(x, s) && x != s {
      AboveHung(t, x, s.level);
    }
  }

  lemma {:induction false} AllCount(t: Tree, s: Slot, x: Slot)
    requires Ok(t) && s in t.at && x in t.at
    ensures multiset(FreeAll(t, s))[t.at[x]] == if Under(x, s) then 1 else 0
    decreases s.level, 1
  {
    if s.level > 0 {
      forall j: nat | j < ENTRIES ensures multiset(FreeOne(t, s, j))[t.at[x]] == if Through(x, s, j) then 1 else 0 {
        OneCount(t, s, j, x);
      }
      OrderCount(t, s, ENTRIES, x, t.at[x]);
    }
    assert FreeAll(t, s) == [t.at[s]] + FreeOrder(t, s, ENTRIES);
  }

  /** It frees nothing but table pages. */
  lemma {:induction false} OrderTables(t: Tree, s: Slot, i: nat, f: nat)
    requires Ok(t) && s in t.at && i <= ENTRIES && Unused(t, f)
    ensures f !in FreeOrder(t, s, i)
    decreases s.level, i
  {
    if s.level > 0 && i > 0 {
      OrderTables(t, s, i - 1, f);
      if EntryAt(t, s, i - 1).valid {
        OrderTables(t, Child(s, i - 1), ENTRIES, f);
        assert f !in FreeAll(t, Child(s, i - 1));
      }
      assert FreeOrder(t, s, i) == FreeOne(t, s, i - 1) + FreeOrder(t, s, i - 1);
    }
  }

  /** freewalk() on the root frees every table page exactly once, and nothing else. */
  lemma FreesTablesOnce(t: Tree, f: nat)
    requires Ok(t)
    ensures multiset(FreeAll(t, ROOT))[f] == if Unused(t, f) then 0 else 1
  {
    if Unused(t, f) {
      OrderTables(t, ROOT, ENTRIES, f);
    } else {
      var x :| x in t.at && t.at[x] == f;
      AboveHung(t, x, 2);
      AboveLevel(x, 2);
      AllCount(t, ROOT, x);
    }
  }

  /** Nothing is left to stumble on exactly when no page is mapped. */
  lemma NoLeafIff(t: Tree, view: seq<Pte>)
    requires Ok(t) && Views(t, view)
    ensures NoLeaf(t, ROOT, ENTRIES) <==> forall v :: 0 <= v < MAXVPN ==> !view[v].valid
  {
    if NoLeaf(t, ROOT, ENTRIES) {
      forall v | 0 <= v < MAXVPN ensures !view[v].valid { NoLeafPage(t, view, v); }
    }
    if forall v :: 0 <= v < MAXVPN ==> !view[v].valid { NoPageLeaf(t, view, ROOT); }
  }

  /** A level-0 entry is the entry of some page. */
  lemma LeafSeen(t: Tree, view: seq<Pte>, s: Slot, j: nat)
    requires Ok(t) && Views(t, view) && s in t.at && s.level == 0 && j < ENTRIES
    ensures s.prefix * ENTRIES + j < |view| && EntryAt(t, s, j) == view[s.prefix * ENTRIES + j]
  {
    var v := s.prefix * ENTRIES + j;
    assert SlotOf(0, v) == s && Px(0, v) == j;
    assert ViewAt(t, view, v);
  }

  lemma NoLeafPage(t: Tree, view: seq<Pte>, v: nat)
    requires Ok(t) && Views(t, view) && NoLeaf(t, ROOT, ENTRIES) && v < MAXVPN
    ensures !view[v].valid
  {
    assert ViewAt(t, view, v);
    if SlotOf(0, v) in t.at {
      PathStep(1, v);
      PathStep(2, v);
      assert Linked(t, SlotOf(0, v)) && Linked(t, SlotOf(1, v));
      assert NoLeaf(t, SlotOf(1, v), ENTRIES);
      assert NoLeaf(t, SlotOf(0, v), ENTRIES);
    }
  }

  lemma {:induction false} NoPageLeaf(t: Tree, view: seq<Pte>, s: Slot)
    requires Ok(t) && Views(t, view) && s in t.at && forall v :: 0 <= v < MAXVPN ==> !view[v].valid
    ensures NoLeaf(t, s, ENTRIES)
    decreases s.level
  {
    forall j: nat | j < ENTRIES && EntryAt(t, s, j).valid ensures s.level > 0 && NoLeaf(t, Child(s, j), ENTRIES) {
      if s.level == 0 { LeafSeen(t, view, s, j); } else { NoPageLeaf(t, view, Child(s, j)); }
    }
  }

  /** The page of slot x still holds what t says. */
  ghost predicate SamePage(t: Tree, mem: map<nat, TablePage>, x: Slot) {
    x in t.at && t.at[x] in mem && t.at[x] in t.mem && mem[t.at[x]] == t.mem[t.at[x]]
  }

  /** freewalk() has not touched what hangs below the entries of s from i on ... */
  ghost predicate RestIntact(t: Tree, mem: map<nat, TablePage>, s: Slot, i: nat) {
    forall x {:trigger SamePage(t, mem, x)} :: x in t.at && Under(x, s) && x != s && Branch(x, s) >= i ==>
      SamePage(t, mem, x)
  }

  /** ... nor those entries themselves. */
  ghost predicate OwnIntact(t: Tree, mem: map<nat, TablePage>, s: Slot, i: nat) {
    s in t.at && t.at[s] in mem && |mem[t.at[s]]| == ENTRIES &&
    forall j: nat :: i <= j < ENTRIES ==> mem[t.at[s]][j] == EntryAt(t, s, j)
  }

  /** Pages that do not hang below s are as before. */
  ghost predicate OthersKept(t: Tree, mem: map<nat, TablePage>, mem': map<nat, TablePage>, s: Slot) {
    forall x {:trigger KeptPage(t, mem, mem', x)} :: x in t.at && !Under(x, s) ==> KeptPage(t, mem, mem', x)
  }

  ghost predicate KeptPage(t: Tree, mem: map<nat, TablePage>, mem': map<nat, TablePage>, x: Slot) {
    x in t.at && t.at[x] in mem ==> t.at[x] in mem' && mem'[t.at[x]] == mem[t.at[x]]
  }

  ghost predicate Intact(t: Tree, mem: map<nat, TablePage>, s: Slot, i: nat) {
    var own, rest := OwnIntact(t, mem, s, i), RestIntact(t, mem, s, i);
    own && rest
  }

  /** freewalk() is done with the entries of s below i. */
  ghost predicate Progress(t: Tree, mem0: map<nat, TablePage>, mem: map<nat, TablePage>, s: Slot, i: nat) {
    var intact, kept := Intact(t, mem, s, i), OthersKept(t, mem0, mem, s);
    intact && kept
  }

  lemma ProgressOne(t: Tree, mem0: map<nat, TablePage>, mem: map<nat, TablePage>, mem': map<nat, TablePage>, s: Slot,
                    i: nat)
    requires Progress(t, mem0, mem, s, i) && Progress(t, mem, mem', s, i + 1)
    ensures Progress(t, mem0, mem', s, i + 1)
  {
    KeptTwice(t, mem0, mem, mem', s);
  }

  /** What lies below entry i is a whole table of its own. */
  lemma ChildIntact(t: Tree, mem: map<nat, TablePage>, s: Slot, i: nat)
    requires Ok(t) && Intact(t, mem, s, i) && s in t.at && s.level > 0 && i < ENTRIES && EntryAt(t, s, i).valid
    ensures Intact(t, mem, Child(s, i), 0)
  {
    var c := Child(s, i);
    UnderChild(c, s, i);
    assert SamePage(t, mem, c);
    forall x | x in t.at && Under(x, c) ensures SamePage(t, mem, x) { UnderChild(x, s, i); }
  }

  /** Freeing what lies below entry i and clearing the entry leaves the rest. */
  lemma EntryCleared(t: Tree, mem: map<nat, TablePage>, mem': map<nat, TablePage>, s: Slot, i: nat)
    requires Ok(t) && Intact(t, mem, s, i) && s.level > 0 && i < ENTRIES
    requires OthersKept(t, mem, mem', Child(s, i))
    ensures OwnIntact(t, mem', s, i)
    ensures Progress(t, mem, mem'[t.at[s] := mem'[t.at[s]][i := ZERO]], s, i + 1)
  {
    UnderChild(s, s, i);
    assert KeptPage(t, mem, mem', s);
    var mem'' := mem'[t.at[s] := mem'[t.at[s]][i := ZERO]];
    forall x | x in t.at && Under(x, s) && x != s && Branch(x, s) >= i + 1 ensures SamePage(t, mem'', x) {
      UnderChild(x, s, i);
      assert SamePage(t, mem, x) && KeptPage(t, mem, mem', x);
    }
    forall x | x in t.at && !Under(x, s) ensures KeptPage(t, mem, mem'', x) {
      UnderChild(x, s, i);
      assert Under(s, s) && KeptPage(t, mem, mem', x);
    }
  }

  lemma KeptTwice(t: Tree, mem0: map<nat, TablePage>, mem: map<nat, TablePage>, mem': map<nat, TablePage>, s: Slot)
    requires OthersKept(t, mem0, mem, s) && OthersKept(t, mem, mem', s)
    ensures OthersKept(t, mem0, mem', s)
  {
    forall x | x in t.at && !Under(x, s) ensures KeptPage(t, mem0, mem', x) {
      assert KeptPage(t, mem0, mem, x) && KeptPage(t, mem, mem', x);
    }
  }

  lemma NothingDone(t: Tree, mem: map<nat, TablePage>, s: Slot)
    requires Intact(t, mem, s, 0)
    ensures Progress(t, mem, mem, s, 0)
  {
  }

  lemma NothingCleared(t: Tree, mem: map<nat, TablePage>, s: Slot, i: nat)
    requires Intact(t, mem, s, i)
    ensures Progress(t, mem, mem, s, i + 1)
  {
    forall x | x in t.at && Under(x, s) && x != s && Branch(x, s) >= i + 1 ensures SamePage(t, mem, x) { }
  }

  lemma NoLeafStep(t: Tree, s: Slot, i: nat)
    requires NoLeaf(t, s, i) && i < ENTRIES
    ensures NoLeaf(t, s, i + 1) <==> (EntryAt(t, s, i).valid ==> s.level > 0 && NoLeaf(t, Child(s, i), ENTRIES))
    ensures NoLeaf(t, s, ENTRIES) ==> NoLeaf(t, s, i + 1)
  {
  }

  lemma OrderOne(t: Tree, s: Slot, i: nat, free: seq<nat>)
    ensures FreeOrder(t, s, i + 1) + free ==
      (if s.level > 0 then FreeOne(t, s, i) else []) + (FreeOrder(t, s, i) + free)
  {
    if s.level > 0 { assert FreeOrder(t, s, i + 1) == FreeOne(t, s, i) + FreeOrder(t, s, i); }
  }

  /** Leaf entries grant some access, as every caller of mappages() asks. */
  ghost predicate LeavesOk(t: Tree) {
    forall s: Slot, j: nat :: s.level == 0 && EntryAt(t, s, j).valid ==> EntryAt(t, s, j).rwx
  }

  /** From page n on, every valid entry is a leaf. */
  ghost predicate LeavesFrom(view: seq<Pte>, n: nat) { forall v :: n <= v < |view| && view[v].valid ==> view[v].rwx }

  lemma LeavesSeen(t: Tree, view: seq<Pte>)
    requires Ok(t) && Views(t, view) && LeavesFrom(view, 0)
    ensures LeavesOk(t)
  {
    forall s: Slot, j: nat | s.level == 0 && EntryAt(t, s, j).valid ensures EntryAt(t, s, j).rwx {
      LeafSeen(t, view, s, j);
    }
  }

  lemma WholeIntact(t: Tree)
    requires Ok(t)
    ensures Intact(t, t.mem, ROOT, 0)
  {
    forall x | x in t.at ensures SamePage(t, t.mem, x) { }
  }

  ghost predicate NoneFrom(view: seq<Pte>, n: nat) { forall v :: n <= v < |view| ==> !view[v].valid }

  /** Everything below page n is gone: what is left is what was mapped from n on. */
  lemma LeftOver(view: seq<Pte>, view': seq<Pte>, n: nat)
    requires Unmaps(view, view', 0, n)
    ensures NoneFrom(view', 0) <==> NoneFrom(view, n)
    ensures LeavesFrom(view, n) ==> LeavesFrom(view', 0)
  {
    if NoneFrom(view', 0) {
      forall v | n <= v < |view| ensures !view[v].valid { assert view'[v] == view[v]; }
    }
  }

  /** Frame f went to the free list once for each mapping in `leaves` and once if it was a table page. */
  ghost predicate FreedOnce(t: Tree, leaves: seq<nat>, free: seq<nat>, free': seq<nat>, f: nat) {
    multiset(free')[f] == multiset(free)[f] + multiset(leaves)[f] + if Unused(t, f) then 0 else 1
  }

  /** Frame f went to the free list once for each of the first n pages that was mapped to it, and once
      if it was a table page. */
  ghost predicate AllFreed(t: Tree, view: seq<Pte>, n: nat, free: seq<nat>, free': seq<nat>, f: nat) {
    multiset(free')[f] == multiset(free)[f] + MappedTo(view, 0, n, f) + if Unused(t, f) then 0 else 1
  }

  lemma AllAreFreed(t: Tree, view: seq<Pte>, n: nat, free: seq<nat>, free': seq<nat>)
    requires forall f: nat :: FreedOnce(t, Freed(view, 0, n, true), free, free', f)
    ensures forall f: nat :: AllFreed(t, view, n, free, free', f)
  {
    forall f: nat ensures AllFreed(t, view, n, free, free', f) {
      assert FreedOnce(t, Freed(view, 0, n, true), free, free', f);
      FreedCounts(view, 0, n, true, f);
    }
  }

  lemma FreeCount(t: Tree, t': Tree, leaves: seq<nat>, free: seq<nat>, f: nat)
    requires Ok(t') && t'.at == t.at
    ensures FreedOnce(t, leaves, free, FreeAll(t', ROOT) + (leaves + free), f)
  {
    FreesTablesOnce(t', f);
    assert Unused(t, f) <==> Unused(t', f);
  }

  lemma AllFreedOnce(t: Tree, t': Tree, leaves: seq<nat>, free: seq<nat>)
    requires Ok(t') && t'.at == t.at
    ensures forall f: nat :: FreedOnce(t, leaves, free, FreeAll(t', ROOT) + (leaves + free), f)
  {
    forall f: nat ensures FreedOnce(t, leaves, free, FreeAll(t', ROOT) + (leaves + free), f) {
      FreeCount(t, t', leaves, free, f);
    }
  }

  lemma CountWhole(sz: nat)
    requires sz + PGSIZE < U64
    ensures PageCount(0, PagesIn(sz)) == PagesIn(sz)
  {
  }

  /** When nothing was mapped twice, every frame is free once at most afterwards. */
  lemma FreedDistinct(t: Tree, leaves: seq<nat>, free: seq<nat>, free': seq<nat>, f: nat)
    requires PoolOk(t, leaves + free) && FreedOnce(t, leaves, free, free', f)
    ensures multiset(free')[f] <= 1
    ensures f in free' <==> f in free || f in leaves || !Unused(t, f)
  {
    DistinctCount(leaves + free, f);
    assert f in leaves + free ==> Unused(t, f);
  }

  lemma {:induction false} DistinctCount(s: seq<nat>, f: nat)
    requires Distinct(s)
    ensures multiset(s)[f] == if f in s then 1 else 0
  {
    if s != [] {
      assert s == [s[0]] + s[1..];
      DistinctCount(s[1..], f);
    }
  }

  /** The U bit of a page-table entry, among the flags that are not V, R, W and X. */
  const PTE_U: nat := 16

  /** walkaddr() accepts the entry. */
  predicate IsUser(pte: Pte) { pte.valid && pte.flags / PTE_U % 2 == 1 }

  predicate UserAt(view: seq<Pte>, v: nat) { v < |view| && IsUser(view[v]) }

  /** The frames of the pages that the process may use. */
  function UserPages(view: seq<Pte>): map<nat, nat> { map v: nat | v < |view| && UserAt(view, v) :: view[v].ppn }

  /** uvmcreate(): null, for its 0, exactly if there is no free frame. */
  method Uvmcreate(frames: seq<nat>) returns (vm: Vm?)
    requires Distinct(frames)
    ensures vm == null <==> frames == []
    ensures vm != null ==> vm.Valid() && vm.root == frames[0] && vm.free == frames[1..] && NoneFrom(vm.view, 0)
  {
    vm := null;
    if |frames| > 0 {
      vm := new Vm(frames);
    }
  }

  class Vm {
    const root: nat
    var mem: map<nat, TablePage>
    var free: seq<nat>
    ghost var at: map<Slot, nat>
    ghost var view: seq<Pte>

    ghost function T(): Tree
      reads this
    {
      Tree(mem, at)
    }

    ghost function S(): Tables
      reads this
    {
      Tables(at, |free|)
    }

    ghost predicate Valid()
      reads this
    {
      var ok, pool, views := Ok(T()), PoolOk(T(), free), Views(T(), view);
      ok && pool && views && ROOT in at && at[ROOT] == root
    }

    /** The first free frame becomes a zeroed root, with nothing mapped. */
    constructor (frames: seq<nat>)
      requires frames != [] && Distinct(frames)
      ensures Valid() && root == frames[0] && free == frames[1..] && NoneFrom(view, 0) && at == map[ROOT := root]
    {
      root, free := frames[0], frames[1..];
      mem, at := map[frames[0] := ZeroPage()], map[ROOT := frames[0]];
      view := seq(MAXVPN, _ => ZERO);
      new;
      forall s: Slot, i: nat ensures EntryAt(T(), s, i) == ZERO { }
    }

    method Kalloc() returns (f: int)
      modifies this`free
      ensures old(free) == [] ==> f == -1 && free == []
      ensures old(free) != [] ==> f == old(free)[0] && free == old(free)[1..]
    {
      if |free| == 0 {
        f := -1;
      } else {
        f, free := free[0], free[1..];
      }
    }

    method Kfree(f: nat)
      modifies this`free
      ensures free == [f] + old(free)
    {
      free := [f] + free;
    }

    /** Zero a new table page and point an entry to it. */
    method Hang(ghost s: Slot, pagetable: nat, i: nat, f: nat)
      requires Ok(T()) && s in at && at[s] == pagetable && s.level > 0 && i < ENTRIES && f != pagetable
      modifies this`mem, this`at
      ensures T() == AddTable(old(T()), s, i, f)
    {
      mem := mem[f := ZeroPage()];
      mem := mem[pagetable := mem[pagetable][i := Pte(true, false, 0, f)]];
      at := at[Child(s, i) := f];
    }

    /** One level of walk(): follow the entry of vpn, or hang a new table page there. */
    method Descend(level: nat, vpn: nat, pagetable: nat, alloc: bool) returns (r: int)
      requires Valid() && vpn < MAXVPN && 1 <= level <= 2
      requires SlotOf(level, vpn) in at && at[SlotOf(level, vpn)] == pagetable
      modifies this`mem, this`free, this`at
      ensures Valid() && Grown(old(T()), old(free), T(), free)
      ensures Reached(T(), free, level - 1, vpn, r, alloc)
      ensures !alloc ==> T() == old(T()) && free == old(free)
      ensures alloc ==> OneDown(old(at), |old(free)|, at, |free|, level - 1, vpn, r)
    {
      PathStep(level, vpn);
      GrownSame(T(), free, T());
      ghost var s := SlotOf(level, vpn);
      var i := Px(level, vpn);
      assert mem[pagetable][i] == EntryAt(T(), s, i);
      if mem[pagetable][i].valid {
        return mem[pagetable][i].ppn;
      }
      AbsentBelow(T(), vpn, level);
      if !alloc {
        return -1;
      }
      r := Kalloc();
      if r >= 0 {
        assert old(free) == [r] + free && Unused(T(), old(free)[0]);
        HungKeeps(T(), view, free, s, i, r);
        Hang(s, pagetable, i, r);
      }
    }

    /** One level of the walk from the tables t0 and the free list free0. */
    method DescendFrom(ghost t0: Tree, ghost free0: seq<nat>, level: nat, vpn: nat, pagetable: nat, alloc: bool)
      returns (r: int)
      requires Valid() && vpn < MAXVPN && 1 <= level <= 2 && Grown(t0, free0, T(), free)
      requires SlotOf(level, vpn) in at && at[SlotOf(level, vpn)] == pagetable
      requires alloc ==> Hung(t0.at, |free0|, at, |free|, level, vpn)
      modifies this`mem, this`free, this`at
      ensures Valid() && Grown(t0, free0, T(), free)
      ensures Reached(T(), free, level - 1, vpn, r, alloc)
      ensures !alloc ==> T() == old(T()) && free == old(free)
      ensures alloc ==> Down(t0.at, |free0|, at, |free|, level - 1, vpn, r)
    {
      ghost var t, f := T(), free;
      r := Descend(level, vpn, pagetable, alloc);
      GrownTwice(t0, free0, t, f, T(), free);
      if alloc { DownMore(t0.at, |free0|, t.at, |f|, at, |free|, level - 1, vpn, r); }
    }

    /** walk(): the level-0 table page that holds the entry of vpn, or -1, or the panic beyond
        MAXVA.  What is mapped does not change; new table pages come from the free list. */
    method Walk(vpn: nat, alloc: bool) returns (r: int, panicked: bool)
      requires Valid()
      modifies this`mem, this`free, this`at
      ensures panicked <==> vpn >= MAXVPN
      ensures Valid() && Grown(old(T()), old(free), T(), free)
      ensures !panicked ==> Reached(T(), free, 0, vpn, r, alloc)
      ensures !panicked && alloc ==> Down(old(at), |old(free)|, at, |free|, 0, vpn, r)
      ensures !panicked ==>
        (r >= 0 <==> if alloc then PathLacks(old(at), 0, vpn) <= |old(free)| else SlotOf(0, vpn) in at)
      ensures panicked || !alloc ==> T() == old(T()) && free == old(free)
    {
      panicked := vpn >= MAXVPN;
      if panicked {
        GrownSame(T(), free, T());
        r := -1;
      } else {
        r := WalkDown(vpn, alloc);
      }
    }

    /** The loop of walk(). */
    method WalkDown(vpn: nat, alloc: bool) returns (r: int)
      requires Valid() && vpn < MAXVPN
      modifies this`mem, this`free, this`at
      ensures Valid() && Grown(old(T()), old(free), T(), free)
      ensures Reached(T(), free, 0, vpn, r, alloc)
      ensures !alloc ==> T() == old(T()) && free == old(free)
      ensures alloc ==> Down(old(at), |old(free)|, at, |free|, 0, vpn, r)
    {
      GrownSame(T(), free, T());
      DownStart(at, |free|, vpn);
      r := root;
      var level := 2;
      while level > 0 && r >= 0
        invariant 0 <= level <= 2 && Valid() && Grown(old(T()), old(free), T(), free)
        invariant Reached(T(), free, level, vpn, r, alloc)
        invariant !alloc ==> T() == old(T()) && free == old(free)
        invariant alloc ==> Down(old(at), |old(free)|, at, |free|, level, vpn, r)
      {
        r := DescendFrom(old(T()), old(free), level, vpn, r, alloc);
        level := level - 1;
      }
    }

    /** walk() with alloc == 0. */
    method FindPage(a: nat) returns (r: int)
      requires Valid() && a < MAXVPN
      modifies this`mem, this`free, this`at
      ensures mem == old(mem) && at == old(at) && free == old(free)
      ensures r >= 0 ==> SlotOf(0, a) in at && at[SlotOf(0, a)] == r && r in mem && |mem[r]| == ENTRIES
      ensures r >= 0 ==> mem[r][Px(0, a)] == view[a]
      ensures r < 0 ==> view[a] == ZERO
    {
      var panicked;
      r, panicked := Walk(a, false);
      assert ViewAt(T(), view, a);
    }

    /** walkaddr(): the frame of a user page, or -1 for its 0; never a panic. */
    method Walkaddr(va: nat) returns (r: int)
      requires Valid()
      modifies this`mem, this`free, this`at
      ensures mem == old(mem) && at == old(at) && free == old(free)
      ensures r >= 0 <==> va / PGSIZE in UserPages(view)
      ensures r >= 0 ==> r == UserPages(view)[va / PGSIZE]
    {
      if va >= MAXVPN * PGSIZE {
        return -1;
      }
      var f := FindPage(va / PGSIZE);
      assert UserAt(view, va / PGSIZE) == IsUser(view[va / PGSIZE]);
      if f < 0 || !IsUser(mem[f][Px(0, va / PGSIZE)]) {
        return -1;
      }
      r := mem[f][Px(0, va / PGSIZE)].ppn;
    }

    method SetPte(ghost vpn: nat, pagetable: nat, i: nat, pte: Pte)
      requires Valid() && vpn < MAXVPN && SlotOf(0, vpn) in at && at[SlotOf(0, vpn)] == pagetable && i == Px(0, vpn)
      modifies this`mem, this`view
      ensures Valid() && view == old(view)[vpn := pte] && T() == SetLeaf(old(T()), vpn, pte)
    {
      SetLeafViews(T(), view, vpn, pte);
      mem := mem[pagetable := mem[pagetable][i := pte]];
      view := view[vpn := pte];
    }

    /** The body of mappages()'s loop. */
    method MapPage(a: nat, pte: Pte) returns (o: Outcome)
      requires Valid()
      modifies this`mem, this`free, this`at, this`view
      ensures Valid() && Grown(old(T()), old(free), T(), free)
      ensures o != Done ==> Stuck(o, T(), view, free, a) && view == old(view)
      ensures o == NoMemory ==> Short(old(at), |old(free)|, a)
      ensures o == Done ==> Hung(old(at), |old(free)|, at, |free|, 0, a)
      ensures o == Done ==> a < MAXVPN && !old(view)[a].valid && view == old(view)[a := pte]
    {
      var r, panicked := Walk(a, true);
      if panicked {
        return Panic(WalkRange);
      }
      if r < 0 {
        return NoMemory;
      }
      assert ViewAt(T(), view, a) && mem[r][Px(0, a)] == view[a];
      if mem[r][Px(0, a)].valid {
        return Panic(Remap);
      }
      ghost var t := T();
      SetPte(a, r, Px(0, a), pte);
      GrownSame(t, free, T());
      GrownTwice(old(T()), old(free), t, free, T(), free);
      return Done;
    }

    /** A round of mappages()'s loop, after k pages. */
    method MapNext(ghost t0: Tree, ghost free0: seq<nat>, ghost view0: seq<Pte>, ghost h: seq<Tables>,
                   first: nat, ghost k: nat, a: nat, pte: Pte)
      returns (o: Outcome)
      requires Valid() && a == first + k && Grown(t0, free0, T(), free) && Maps(view0, view, first, k, pte)
      requires |h| == k + 1 && h[k] == S() && Rounds(h, first)
      modifies this`mem, this`free, this`at, this`view
      ensures Valid() && Grown(t0, free0, T(), free)
      ensures o == Done ==> a < MAXVPN && Maps(view0, view, first, k + 1, pte)
      ensures o == Done ==> Rounds(h + [S()], first)
      ensures o != Done ==> Maps(view0, view, first, k, pte)
      ensures o != Done ==> Blocked(o, T(), view, free, h[k], first + k)
    {
      ghost var t, f, w := T(), free, view;
      o := MapPage(a, NthPte(pte, a - first));
      GrownTwice(t0, free0, t, f, T(), free);
      if o == Done {
        MapsOne(view0, w, first, k, pte);
        RoundsMore(h, first, a, S());
      }
    }

    /** mappages()'s loop: whatever the outcome, it mapped the first k pages of its range and
        changed no other page; k is the whole range when it returns 0.  If the range ends before it
        begins, it goes on until it is stuck. */
    method MapRange(first: nat, last: nat, pte: Pte)
      returns (o: Outcome, ghost k: nat, ghost h: seq<Tables>)
      requires Valid()
      modifies this`mem, this`free, this`at, this`view
      ensures Valid() && Grown(old(T()), old(free), T(), free)
      ensures Maps(old(view), view, first, k, pte) && (k == 0 || first + k <= MAXVPN)
      ensures |h| == k + 1 && h[0] == old(S()) && Rounds(h, first)
      ensures o == Done ==> k > 0 && first + k == last + 1
      ensures o != Done ==> Blocked(o, T(), view, free, h[k], first + k)
      ensures first <= last && o != Done ==> first + k <= last
    {
      var a := first;
      k := 0;
      GrownSame(T(), free, T());
      MapsNone(view, first, pte);
      h := [S()];
      while true
        invariant Valid() && a == first + k && Grown(old(T()), old(free), T(), free)
        invariant Maps(old(view), view, first, k, pte) && (k == 0 || a <= MAXVPN)
        invariant last < first || a <= last
        invariant |h| == k + 1 && h[0] == old(S()) && h[k] == S() && Rounds(h, first)
        decreases MAXVPN - a
      {
        o := MapNext(old(T()), old(free), old(view), h, first, k, a, pte);
        if o != Done {
          return;
        }
        k, h := k + 1, h + [S()];
        if a == last {
          return;
        }
        a := a + 1;
      }
    }

    /** mappages() on byte addresses. */
    method Mappages(va: nat, size: nat, pte: Pte) returns (o: Outcome, ghost k: nat)
      requires Valid() && va < U64 && size < U64
      modifies this`mem, this`free, this`at, this`view
      ensures Valid() && Grown(old(T()), old(free), T(), free)
      ensures Maps(old(view), view, va / PGSIZE, k, pte) && (k == 0 || va / PGSIZE + k <= MAXVPN)
      ensures forall v: nat :: va / PGSIZE <= v < va / PGSIZE + k ==>
        view[v] == pte.(ppn := pte.ppn + (v - va / PGSIZE))
      ensures o == Done ==> k > 0 && va / PGSIZE <= LastPage(va, size) < MAXVPN
      ensures var a := va / PGSIZE + k;
        if o == Done then a == LastPage(va, size) + 1 else Stuck(o, T(), view, free, a)
      ensures va / PGSIZE <= LastPage(va, size) && o != Done ==> va / PGSIZE + k <= LastPage(va, size)
      ensures o == Done <==> Mappable(old(S()), old(view), va / PGSIZE, LastPage(va, size))
      ensures StopsAt(o, old(S()), old(view), va / PGSIZE, LastPage(va, size), k)
    {
      var first, last := va / PGSIZE, LastPage(va, size);
      ghost var h;
      o, k, h := MapRange(first, last, pte);
      Stops(o, T(), free, view, old(S()), old(view), h, first, last, k, pte);
      MapsAllIff(o, old(S()), old(view), first, last, k);
    }

    /** The body of uvmunmap()'s loop. */
    method UnmapPage(a: nat, doFree: bool) returns (o: Outcome)
      requires Valid() && (a < MAXVPN ==> PoolOk(T(), FreedBy(view[a], doFree) + free))
      modifies this`mem, this`free, this`view, this`at
      ensures Valid() && at == old(at) && UnmapStopped(o, old(view), if o == Done then a + 1 else a, a + 1)
      ensures o != Done ==> view == old(view) && free == old(free)
      ensures o == Done ==> a < MAXVPN && view == old(view)[a := ZERO] && !NotLeaf(old(view)[a])
      ensures o == Done ==> free == FreedBy(old(view)[a], doFree) + old(free)
    {
      if a >= MAXVPN {
        return Panic(WalkRange);
      }
      var r := FindPage(a);
      if r >= 0 {
        var pte := mem[r][Px(0, a)];
        if pte.valid {
          if NotLeaf(pte) {
            return Panic(NotALeaf);
          }
          if doFree {
            Kfree(pte.ppn);
          }
        }
        SetPte(a, r, Px(0, a), ZERO);
      }
      return Done;
    }

    /** uvmunmap()'s loop: exactly the k pages from v on lose their entries, their frames go to
        the free list once each, and table pages stay. */
    method UnmapRange(v: nat, n: nat, doFree: bool) returns (o: Outcome, ghost k: nat)
      requires Valid() && PoolOk(T(), Freed(view, v, n, doFree) + free)
      modifies this`mem, this`free, this`view, this`at
      ensures Valid() && at == old(at) && k <= n && (k == 0 || v + k <= MAXVPN) && Unmaps(old(view), view, v, k)
      ensures free == Freed(old(view), v, k, doFree) + old(free) && NoTables(old(view), v, k)
      ensures UnmapStopped(o, old(view), v + k, v + n)
    {
      k := 0;
      var a := v;
      while a < v + n
        invariant Valid() && at == old(at) && k <= n && a == v + k && (k == 0 || a <= MAXVPN) &&
          Unmaps(old(view), view, v, k)
        invariant free == Freed(old(view), v, k, doFree) + old(free) && NoTables(old(view), v, k)
      {
        if a < |view| {
          UnmapStep(old(T()), T(), old(view), view, old(free), free, v, k, n, doFree);
        }
        o := UnmapPage(a, doFree);
        if o != Done {
          return;
        }
        a, k := a + 1, k + 1;
      }
      o := Done;
    }

    /** uvmunmap() on byte addresses. */
    method Uvmunmap(va: nat, npages: nat, doFree: bool) returns (o: Outcome, ghost k: nat)
      requires Valid() && va < U64 && PoolOk(T(), Freed(view, va / PGSIZE, PageCount(va, npages), doFree) + free)
      modifies this`mem, this`free, this`view, this`at
      ensures Valid() && at == old(at) && (k == 0 || va / PGSIZE + k <= MAXVPN) &&
        Unmaps(old(view), view, va / PGSIZE, k)
      ensures free == Freed(old(view), va / PGSIZE, k, doFree) + old(free)
      ensures forall f: nat :: FreesMapped(old(view), va / PGSIZE, k, doFree, old(free), free, f)
      ensures va % PGSIZE != 0 <==> o == Panic(NotAligned)
      ensures va % PGSIZE != 0 ==> k == 0
      ensures va % PGSIZE == 0 ==> UnmapStopped(o, old(view), va / PGSIZE + k, va / PGSIZE + PageCount(va, npages))
      ensures var v, n := va / PGSIZE, PageCount(va, npages);
        o == Done <==> va % PGSIZE == 0 && (n == 0 || v + n <= MAXVPN) && NoTables(old(view), v, n)
      ensures o == Done ==> forall a: nat ::
        va / PGSIZE <= a < va / PGSIZE + k <==> va <= a * PGSIZE < (va + npages * PGSIZE) % U64
      ensures o == Done && va + npages * PGSIZE < U64 ==> k == npages
    {
      if va % PGSIZE != 0 {
        k := 0;
        return Panic(NotAligned), 0;
      }
      o, k := UnmapRange(va / PGSIZE, PageCount(va, npages), doFree);
      FreesAll(old(view), va / PGSIZE, k, doFree, old(free));
      UnmapsAllIff(o, old(view), va / PGSIZE, k, PageCount(va, npages));
      forall a: nat ensures va / PGSIZE <= a < va / PGSIZE + PageCount(va, npages) <==>
        va <= a * PGSIZE < (va + npages * PGSIZE) % U64
      {
        CountsPages(va, npages, a);
      }
      if va + npages * PGSIZE < U64 { CountsAll(va, npages); }
    }

    /** The body of freewalk()'s loop: false when it panics on a leaf. */
    method FreeEntry(ghost t: Tree, ghost s: Slot, pagetable: nat, i: nat) returns (ok: bool)
      requires Ok(t) && LeavesOk(t) && s in t.at && t.at[s] == pagetable && i < ENTRIES
      requires Intact(t, mem, s, i)
      modifies this`mem, this`free
      ensures ok <==> (EntryAt(t, s, i).valid ==> s.level > 0 && NoLeaf(t, Child(s, i), ENTRIES))
      ensures ok ==> Progress(t, old(mem), mem, s, i + 1)
      ensures ok ==> free == (if s.level > 0 then FreeOne(t, s, i) else []) + old(free)
      decreases s.level, 0
    {
      var pte := mem[pagetable][i];
      assert pte == EntryAt(t, s, i);
      if pte.valid && !pte.rwx {
        ChildIntact(t, mem, s, i);
        ok := Freewalk(t, Child(s, i), pte.ppn);
        if ok {
          EntryCleared(t, old(mem), mem, s, i);
          mem := mem[pagetable := mem[pagetable][i := ZERO]];
        }
      } else {
        ok := !pte.valid;
        NothingCleared(t, mem, s, i);
      }
    }

    /** freewalk(): frees the table pages from slot s down, unless it panics on a leaf. */
    method Freewalk(ghost t: Tree, ghost s: Slot, pagetable: nat) returns (ok: bool)
      requires Ok(t) && LeavesOk(t) && s in t.at && t.at[s] == pagetable && Intact(t, mem, s, 0)
      modifies this`mem, this`free
      ensures ok <==> NoLeaf(t, s, ENTRIES)
      ensures ok ==> free == FreeAll(t, s) + old(free) && OthersKept(t, old(mem), mem, s)
      decreases s.level, 1
    {
      var i := 0;
      NothingDone(t, mem, s);
      while i < ENTRIES
        invariant 0 <= i <= ENTRIES && Progress(t, old(mem), mem, s, i)
        invariant NoLeaf(t, s, i) && free == FreeOrder(t, s, i) + old(free)
      {
        ghost var m := mem;
        ok := FreeEntry(t, s, pagetable, i);
        NoLeafStep(t, s, i);
        if !ok {
          return;
        }
        ProgressOne(t, old(mem), m, mem, s, i);
        OrderOne(t, s, i, old(free));
        i := i + 1;
      }
      Kfree(pagetable);
      ok := true;
      Assoc([pagetable], FreeOrder(t, s, ENTRIES), old(free));
    }

    /** freewalk() from the root, on the table that view stands for. */
    method FreeTables() returns (ok: bool)
      requires Valid() && LeavesFrom(view, 0)
      modifies this`mem, this`free
      ensures ok <==> NoneFrom(view, 0)
      ensures ok ==> free == FreeAll(old(T()), ROOT) + old(free)
    {
      ghost var t := T();
      LeavesSeen(t, view);
      WholeIntact(t);
      NoLeafIff(t, view);
      ok := Freewalk(t, ROOT, root);
    }

    /** uvmunmap() of the first n pages, with their frames. */
    method UnmapAll(n: nat) returns (o: Outcome)
      requires Valid() && PageCount(0, n) == n && PoolOk(T(), Freed(view, 0, n, true) + free)
      modifies this`mem, this`free, this`view, this`at
      ensures Valid() && at == old(at) && (o == Done <==> n <= MAXVPN && NoTables(old(view), 0, n))
      ensures o == Done ==> Unmaps(old(view), view, 0, n) && free == Freed(old(view), 0, n, true) + old(free)
    {
      ghost var k;
      o, k := Uvmunmap(0, n, true);
    }

    /** uvmfree(): unless a page is still mapped above sz, every frame mapped below sz and every
        table page goes to the free list, each exactly once. */
    method Uvmfree(sz: nat) returns (o: Outcome)
      requires Valid() && LeavesFrom(view, PagesIn(sz)) && sz + PGSIZE < U64
      requires PoolOk(T(), Freed(view, 0, PagesIn(sz), true) + free)
      modifies this`mem, this`free, this`view, this`at
      ensures o == Done <==>
        PagesIn(sz) <= MAXVPN && NoTables(old(view), 0, PagesIn(sz)) && NoneFrom(old(view), PagesIn(sz))
      ensures o == Done ==>
        forall f: nat :: FreedOnce(old(T()), Freed(old(view), 0, PagesIn(sz), true), old(free), free, f)
      ensures o == Done ==> forall f: nat :: AllFreed(old(T()), old(view), PagesIn(sz), old(free), free, f)
    {
      var n := PagesIn(sz);
      CountWhole(sz);
      o := UnmapAll(n);
      if o == Done {
        LeftOver(old(view), view, n);
        ghost var t := T();
        var ok := FreeTables();
        if ok {
          AllFreedOnce(old(T()), t, Freed(old(view), 0, n, true), old(free));
          AllAreFreed(old(T()), old(view), n, old(free), free);
        } else {
          o := Panic(LeafLeft);
        }
      }
    }
  }
}
