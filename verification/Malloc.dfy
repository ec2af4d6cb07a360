/** The user-level allocator of umalloc.c (Kernighan and Ritchie): a circular,
    address-ordered list of free blocks that never touch each other.

    Addresses and sizes are counted in units of one header; the static header `base` is
    unit 0, below every unit that sbrk ever hands out. */
module Malloc {

  const BASE: nat := 0

  /** The memory seen as headers, and what it means: the free list from `base` on, the
      headers of the free blocks and of all blocks, and the block every unit belongs to. */
  datatype Heap = Heap(
    ptr: seq<nat>, size: seq<nat>, fl: seq<nat>, free: set<nat>, blocks: set<nat>, owner: map<nat, nat>)

  function After(fl: seq<nat>, i: nat): nat
    requires i < |fl|
  {
    if i + 1 < |fl| then fl[i + 1] else fl[0]
  }

  /** fl is the circular list reached from `base` by the ptr fields. */
  ghost predicate Linked(ptr: seq<nat>, fl: seq<nat>) {
    |fl| >= 1 && fl[0] == BASE && Within(fl, |ptr|) &&
    (forall i {:trigger After(fl, i)} :: 0 <= i < |fl| ==> ptr[fl[i]] == After(fl, i))
  }

  predicate Within(fl: seq<nat>, n: nat) { forall i :: 0 <= i < |fl| ==> fl[i] < n }

  /** List element i ends below list element j. */
  predicate Below(size: seq<nat>, fl: seq<nat>, i: nat, j: nat) {
    i < |fl| && j < |fl| && fl[i] < |size| && fl[i] + size[fl[i]] < fl[j]
  }

  /** Free blocks come in address order and leave a gap between any two of them. */
  ghost predicate Spaced(size: seq<nat>, fl: seq<nat>)
    requires Within(fl, |size|)
  {
    (forall i: nat, j: nat {:trigger Below(size, fl, i, j)} :: i < j < |fl| ==> Below(size, fl, i, j)) &&
    (forall i :: 1 <= i < |fl| ==> size[fl[i]] >= 1)
  }

  /** The list elements other than `base` are the free blocks. */
  ghost predicate Lists(fl: seq<nat>, free: set<nat>) {
    (forall i :: 1 <= i < |fl| ==> fl[i] in free) &&
    (forall h {:trigger OnList(fl, h)} :: h in free ==> OnList(fl, h))
  }

  predicate OnList(fl: seq<nat>, h: nat) { h in fl }

  predicate Inside(size: seq<nat>, h: nat, u: nat) { h < |size| && h <= u < h + size[h] }

  /** Every unit obtained from sbrk belongs to exactly one block, free or live. */
  ghost predicate Owned(size: seq<nat>, blocks: set<nat>, owner: map<nat, nat>) {
    (forall h :: h in blocks ==> BASE < h < |size| && size[h] >= 1 && h + size[h] <= |size|) &&
    (forall h, u: nat :: h in blocks && Inside(size, h, u) ==> u in owner && owner[u] == h) &&
    (forall u :: u in owner ==> owner[u] in blocks && Inside(size, owner[u], u))
  }

  ghost predicate ListOk(h: Heap) {
    |h.ptr| == |h.size| && Linked(h.ptr, h.fl) && h.size[BASE] == 0 && Spaced(h.size, h.fl) &&
    Lists(h.fl, h.free) && BASE !in h.free
  }

  ghost predicate BlocksOk(h: Heap) {
    h.free <= h.blocks && Owned(h.size, h.blocks, h.owner)
  }

  /** The blocks the program holds. */
  function Live(h: Heap): set<nat> { h.blocks - h.free }

  ghost predicate Ok(h: Heap) {
    var listOk, blocksOk := ListOk(h), BlocksOk(h);
    listOk && blocksOk
  }

  // ---------- blocks ----------

  /** Two blocks do not overlap. */
  lemma Apart(size: seq<nat>, blocks: set<nat>, owner: map<nat, nat>, a: nat, b: nat)
    requires Owned(size, blocks, owner) && a in blocks && b in blocks && a < b
    ensures a + size[a] <= b
  {
    assert Inside(size, b, b);
    if b < a + size[a] { assert Inside(size, a, b); }
  }

  /** Hand the units of block b to block a. */
  function Reassign(owner: map<nat, nat>, a: nat, b: nat): map<nat, nat> {
    map u | u in owner :: if owner[u] == b then a else owner[u]
  }

  lemma MergeOwned(size: seq<nat>, blocks: set<nat>, owner: map<nat, nat>, a: nat, b: nat)
    requires Owned(size, blocks, owner) && a in blocks && b in blocks && a + size[a] == b
    ensures Owned(size[a := size[a] + size[b]], blocks - {b}, Reassign(owner, a, b))
  {
    var size', owner' := size[a := size[a] + size[b]], Reassign(owner, a, b);
    forall h, u: nat | h in blocks - {b} && Inside(size', h, u) ensures u in owner' && owner'[u] == h {
      if h != a { assert Inside(size, h, u); }
      else if u < b { assert Inside(size, a, u); }
      else { assert Inside(size, b, u); }
    }
    forall u | u in owner' ensures owner'[u] in blocks - {b} && Inside(size', owner'[u], u) {
      assert Inside(size, owner[u], u);
    }
  }

  lemma LiveBlock(h: Heap, bp: nat)
    requires Ok(h) && bp in Live(h)
    ensures BASE < bp < |h.size| && h.size[bp] >= 1 && bp !in h.fl
  {
    assert bp in h.blocks;
    forall k | 0 <= k < |h.fl| ensures h.fl[k] != bp {
      if k >= 1 { assert h.fl[k] in h.free; }
    }
  }

  lemma Ascending(size: seq<nat>, fl: seq<nat>)
    requires Within(fl, |size|) && Spaced(size, fl)
    ensures forall j, k :: 0 <= j < k < |fl| ==> fl[j] < fl[k]
  {
    forall j: nat, k: nat | j < k < |fl| ensures fl[j] < fl[k] { assert Below(size, fl, j, k); }
  }

  lemma FreeApart(h: Heap, bp: nat, i: nat)
    requires Ok(h) && bp in Live(h) && 1 <= i < |h.fl| && bp < |h.size|
    ensures h.fl[i] < bp ==> h.fl[i] + h.size[h.fl[i]] <= bp
    ensures bp < h.fl[i] ==> bp + h.size[bp] <= h.fl[i]
  {
    assert Below(h.size, h.fl, 0, i);
    if h.fl[i] < bp { Apart(h.size, h.blocks, h.owner, h.fl[i], bp); }
    if bp < h.fl[i] { Apart(h.size, h.blocks, h.owner, bp, h.fl[i]); }
  }

  lemma SameSpaced(size: seq<nat>, fl: seq<nat>, x: nat, n: nat)
    requires Within(fl, |size|) && Spaced(size, fl) && x < |size| && x !in fl
    ensures Spaced(size[x := n], fl)
  {
    var size' := size[x := n];
    forall j: nat, k: nat | j < k < |fl| ensures Below(size', fl, j, k) {
      assert Below(size, fl, j, k);
    }
  }

  // ---------- where a freed block goes ----------

  /** i is the index of the last list element below bp. */
  ghost predicate IsPred(fl: seq<nat>, bp: nat, i: nat) {
    i < |fl| && fl[i] < bp && (i + 1 < |fl| ==> bp <= fl[i + 1])
  }

  lemma {:induction false} PredExists(fl: seq<nat>, bp: nat) returns (i: nat)
    requires |fl| >= 1 && fl[0] < bp
    ensures IsPred(fl, bp, i)
  {
    if fl[|fl| - 1] < bp {
      i := |fl| - 1;
    } else {
      i := PredExists(fl[..|fl| - 1], bp);
    }
  }

  /** free() stops walking the list exactly at the predecessor. */
  lemma StopsAtPred(size: seq<nat>, fl: seq<nat>, bp: nat, i: nat, g: nat)
    requires |fl| >= 1 && fl[0] == BASE < bp && Within(fl, |size|)
    requires Spaced(size, fl) && bp !in fl && i < |fl| && IsPred(fl, bp, g)
    ensures var p, nx := fl[i], After(fl, i);
      (p < bp < nx || (p >= nx && (bp > p || bp < nx))) <==> i == g
  {
    Ascending(size, fl);
    assert fl[g] < bp && (g + 1 < |fl| ==> bp < fl[g + 1]);
    if i < g { assert fl[i] < fl[g] && fl[i + 1] <= fl[g]; }
    if g < i { assert bp < fl[g + 1] <= fl[i]; }
  }

  /** bp lies after list element i, may touch it, and does not touch the next one. */
  ghost predicate Fits(size: seq<nat>, fl: seq<nat>, i: nat, bp: nat)
    requires Within(fl, |size|) && bp < |size|
  {
    i < |fl| && fl[i] + size[fl[i]] <= bp && fl[i] < bp &&
    (i + 1 < |fl| ==> bp + size[bp] < fl[i + 1])
  }

  /** bp is ready to be linked in after list element i. */
  ghost predicate Ready(h: Heap, bp: nat, i: nat) {
    |h.ptr| == |h.size| && bp < |h.size| && bp !in h.fl && i < |h.fl| && Within(h.fl, |h.size|) &&
    h.ptr[bp] == After(h.fl, i) && Fits(h.size, h.fl, i, bp)
  }

  // ---------- the first if of free() ----------

  /** The list without element i + 1. */
  function Skip(fl: seq<nat>, i: nat): seq<nat>
    requires i + 1 < |fl|
  {
    fl[..i + 1] + fl[i + 2..]
  }

  lemma SkipLinked(ptr: seq<nat>, fl: seq<nat>, i: nat, bp: nat)
    requires Linked(ptr, fl) && i + 1 < |fl| && forall j, k :: 0 <= j < k < |fl| ==> fl[j] < fl[k]
    requires bp < |ptr| && bp !in fl
    ensures Linked(ptr[bp := ptr[fl[i + 1]]][fl[i] := ptr[fl[i + 1]]], Skip(fl, i))
  {
    var r := Skip(fl, i);
    var ptr' := ptr[bp := ptr[fl[i + 1]]][fl[i] := ptr[fl[i + 1]]];
    assert ptr[fl[i + 1]] == After(fl, i + 1);
    forall k | 0 <= k < |r| ensures ptr'[r[k]] == After(r, k) {
      var j := if k <= i then k else k + 1;
      assert r[k] == fl[j] && ptr[fl[j]] == After(fl, j);
    }
  }

  lemma SkipLists(fl: seq<nat>, free: set<nat>, i: nat)
    requires Lists(fl, free) && i + 1 < |fl| && forall j, k :: 0 <= j < k < |fl| ==> fl[j] < fl[k]
    ensures Lists(Skip(fl, i), free - {fl[i + 1]})
  {
    var r := Skip(fl, i);
    assert forall k :: 0 <= k < |r| ==> r[k] == fl[if k <= i then k else k + 1];
    forall h | h in free && h != fl[i + 1] ensures OnList(r, h) {
      assert OnList(fl, h);
      var k :| 0 <= k < |fl| && fl[k] == h;
      assert r[if k <= i then k else k - 1] == h;
    }
  }

  lemma SkipSpaced(size: seq<nat>, fl: seq<nat>, i: nat, bp: nat, n: nat)
    requires Within(fl, |size|) && Spaced(size, fl) && i + 1 < |fl| && bp < |size| && bp !in fl
    ensures Within(Skip(fl, i), |size|) && Spaced(size[bp := n], Skip(fl, i))
  {
    var r, size' := Skip(fl, i), size[bp := n];
    assert forall k :: 0 <= k < |r| ==> r[k] == fl[if k <= i then k else k + 1] && size'[r[k]] == size[r[k]];
    forall j: nat, k: nat | j < k < |r| ensures Below(size', r, j, k) {
      assert Below(size, fl, if j <= i then j else j + 1, if k <= i then k else k + 1);
    }
  }

  /** The new block swallows the free block after it, which leaves the list. */
  function AbsorbNext(h: Heap, bp: nat, i: nat): Heap
    requires i + 1 < |h.fl| && Within(h.fl, |h.ptr|) && bp < |h.ptr| == |h.size|
  {
    var nx := h.fl[i + 1];
    Heap(h.ptr[bp := h.ptr[nx]][h.fl[i] := h.ptr[nx]], h.size[bp := h.size[bp] + h.size[nx]], Skip(h.fl, i),
         h.free - {nx}, h.blocks - {nx}, Reassign(h.owner, bp, nx))
  }

  lemma AbsorbNextBlocks(h: Heap, bp: nat, i: nat)
    requires BlocksOk(h) && bp in Live(h) && bp < |h.size| == |h.ptr| && i + 1 < |h.fl| && Within(h.fl, |h.size|)
    requires h.fl[i + 1] in h.free && bp + h.size[bp] == h.fl[i + 1]
    ensures BlocksOk(AbsorbNext(h, bp, i))
  {
    var nx := h.fl[i + 1];
    MergeOwned(h.size, h.blocks, h.owner, bp, nx);
  }

  lemma AbsorbNextOk(h: Heap, bp: nat, i: nat)
    requires Ok(h) && bp in Live(h) && bp < |h.size| && bp !in h.fl && bp != BASE
    requires i + 1 < |h.fl| && bp + h.size[bp] == h.fl[i + 1]
    ensures Ok(AbsorbNext(h, bp, i))
  {
    Ascending(h.size, h.fl);
    SkipLinked(h.ptr, h.fl, i, bp);
    SkipSpaced(h.size, h.fl, i, bp, h.size[bp] + h.size[h.fl[i + 1]]);
    SkipLists(h.fl, h.free, i);
    AbsorbNextBlocks(h, bp, i);
  }

  lemma SkipAt(fl: seq<nat>, i: nat)
    requires i + 1 < |fl|
    ensures var r := Skip(fl, i);
      |r| == |fl| - 1 && r[i] == fl[i] && After(r, i) == After(fl, i + 1) && (i + 1 < |r| ==> r[i + 1] == fl[i + 2]) &&
      (forall x :: x in r ==> x in fl)
  {
  }

  lemma AbsorbNextFits(h: Heap, bp: nat, i: nat)
    requires Ok(h) && bp < |h.size| && bp !in h.fl
    requires i + 1 < |h.fl| && h.fl[i] + h.size[h.fl[i]] <= bp && h.fl[i] < bp && bp + h.size[bp] == h.fl[i + 1]
    ensures Ready(AbsorbNext(h, bp, i), bp, i) && AbsorbNext(h, bp, i).fl[i] == h.fl[i]
  {
    SkipAt(h.fl, i);
    SkipSpaced(h.size, h.fl, i, bp, h.size[bp] + h.size[h.fl[i + 1]]);
    assert h.ptr[h.fl[i + 1]] == After(h.fl, i + 1);
    assert i + 2 < |h.fl| ==> Below(h.size, h.fl, i + 1, i + 2);
  }

  // ---------- the second if of free() ----------

  /** The free block before the new one swallows it. */
  function AbsorbIntoPrev(h: Heap, bp: nat, i: nat): Heap
    requires i < |h.fl| && Within(h.fl, |h.size|) && bp < |h.size|
  {
    var p := h.fl[i];
    h.(size := h.size[p := h.size[p] + h.size[bp]], blocks := h.blocks - {bp}, owner := Reassign(h.owner, p, bp))
  }

  lemma GrowSpaced(size: seq<nat>, fl: seq<nat>, i: nat, n: nat)
    requires Within(fl, |size|) && Spaced(size, fl)
    requires 1 <= i < |fl| && n >= 1 && (i + 1 < |fl| ==> fl[i] + n < fl[i + 1])
    ensures Spaced(size[fl[i] := n], fl)
  {
    var size' := size[fl[i] := n];
    Ascending(size, fl);
    forall j: nat, k: nat | j < k < |fl| ensures Below(size', fl, j, k) {
      assert Below(size, fl, j, k);
      if j == i && k > i + 1 { assert Below(size, fl, i + 1, k); }
    }
  }

  lemma AbsorbIntoPrevBlocks(h: Heap, bp: nat, i: nat)
    requires BlocksOk(h) && bp in Live(h) && bp < |h.size| && i < |h.fl| && Within(h.fl, |h.size|)
    requires h.fl[i] in h.free && h.fl[i] + h.size[h.fl[i]] == bp
    ensures BlocksOk(AbsorbIntoPrev(h, bp, i))
  {
    MergeOwned(h.size, h.blocks, h.owner, h.fl[i], bp);
  }

  lemma AbsorbIntoPrevOk(h: Heap, bp: nat, i: nat)
    requires Ok(h) && bp in Live(h) && bp < |h.size| && bp !in h.fl
    requires Fits(h.size, h.fl, i, bp) && h.fl[i] + h.size[h.fl[i]] == bp
    ensures Ok(AbsorbIntoPrev(h, bp, i))
  {
    var p := h.fl[i];
    assert i >= 1 ==> Below(h.size, h.fl, 0, i);
    GrowSpaced(h.size, h.fl, i, h.size[p] + h.size[bp]);
    AbsorbIntoPrevBlocks(h, bp, i);
  }

  function Insert(fl: seq<nat>, i: nat, bp: nat): seq<nat>
    requires i < |fl|
  {
    fl[..i + 1] + [bp] + fl[i + 1..]
  }

  lemma InsertLinked(ptr: seq<nat>, fl: seq<nat>, i: nat, bp: nat)
    requires Linked(ptr, fl) && i < |fl| && bp !in fl && bp < |ptr| && ptr[bp] == After(fl, i)
    requires forall j, k :: 0 <= j < k < |fl| ==> fl[j] < fl[k]
    ensures Linked(ptr[fl[i] := bp], Insert(fl, i, bp))
  {
    var r := Insert(fl, i, bp);
    var ptr' := ptr[fl[i] := bp];
    forall k | 0 <= k < |r| ensures ptr'[r[k]] == After(r, k) {
      if k <= i {
        assert r[k] == fl[k] && ptr[fl[k]] == After(fl, k);
      } else if k > i + 1 {
        assert r[k] == fl[k - 1] && ptr[fl[k - 1]] == After(fl, k - 1);
      }
    }
  }

  lemma InsertLists(fl: seq<nat>, free: set<nat>, i: nat, bp: nat)
    requires Lists(fl, free) && i < |fl|
    ensures Lists(Insert(fl, i, bp), free + {bp})
  {
    var r := Insert(fl, i, bp);
    forall k | 1 <= k < |r| ensures r[k] in free + {bp} { InsertAt(fl, i, bp, k); }
    assert r[i + 1] == bp;
    forall h | h in free ensures OnList(r, h) {
      assert OnList(fl, h);
      var k :| 0 <= k < |fl| && fl[k] == h;
      assert r[if k <= i then k else k + 1] == h;
    }
  }

  lemma InsertAt(fl: seq<nat>, i: nat, bp: nat, k: nat)
    requires i < |fl| && k <= |fl|
    ensures Insert(fl, i, bp)[k] == if k <= i then fl[k] else if k == i + 1 then bp else fl[k - 1]
  {
  }

  lemma InsertPair(size: seq<nat>, fl: seq<nat>, i: nat, bp: nat, j: nat, k: nat)
    requires Within(fl, |size|) && Spaced(size, fl) && bp < |size| && j < k <= |fl|
    requires Fits(size, fl, i, bp) && fl[i] + size[fl[i]] < bp
    ensures Below(size, Insert(fl, i, bp), j, k)
  {
    InsertAt(fl, i, bp, j);
    InsertAt(fl, i, bp, k);
    if k == i + 1 { assert j == i || Below(size, fl, j, i); }
    else if j == i + 1 { assert k == i + 2 || Below(size, fl, i + 1, k - 1); }
    else { assert Below(size, fl, if j <= i then j else j - 1, if k <= i then k else k - 1); }
  }

  lemma InsertSpaced(size: seq<nat>, fl: seq<nat>, i: nat, bp: nat)
    requires Within(fl, |size|) && Spaced(size, fl) && bp < |size| && size[bp] >= 1
    requires Fits(size, fl, i, bp) && fl[i] + size[fl[i]] < bp
    ensures Within(Insert(fl, i, bp), |size|) && Spaced(size, Insert(fl, i, bp))
  {
    var r := Insert(fl, i, bp);
    forall k | 0 <= k < |r| ensures r[k] < |size| && (k >= 1 ==> size[r[k]] >= 1) {
      InsertAt(fl, i, bp, k);
    }
    forall j: nat, k: nat | j < k < |r| ensures Below(size, r, j, k) {
      InsertPair(size, fl, i, bp, j, k);
    }
  }

  /** The new block enters the list after element i. */
  function InsertFree(h: Heap, bp: nat, i: nat): Heap
    requires i < |h.fl| && Within(h.fl, |h.ptr|)
  {
    h.(ptr := h.ptr[h.fl[i] := bp], fl := Insert(h.fl, i, bp), free := h.free + {bp})
  }

  lemma InsertFreeOk(h: Heap, bp: nat, i: nat)
    requires Ok(h) && bp in Live(h) && bp < |h.size| && bp !in h.fl && bp != BASE && h.size[bp] >= 1
    requires Fits(h.size, h.fl, i, bp) && h.fl[i] + h.size[h.fl[i]] < bp && h.ptr[bp] == After(h.fl, i)
    ensures Ok(InsertFree(h, bp, i))
  {
    Ascending(h.size, h.fl);
    InsertLinked(h.ptr, h.fl, i, bp);
    InsertLists(h.fl, h.free, i, bp);
    InsertSpaced(h.size, h.fl, i, bp);
  }

  // ---------- free() as a whole ----------

  function FirstHalf(h: Heap, bp: nat, i: nat): Heap
    requires i < |h.fl| && Within(h.fl, |h.ptr|) && bp < |h.ptr| == |h.size|
  {
    if i + 1 < |h.fl| && bp + h.size[bp] == h.fl[i + 1] then AbsorbNext(h, bp, i)
    else h.(ptr := h.ptr[bp := h.ptr[h.fl[i]]])
  }

  function SecondHalf(h: Heap, bp: nat, i: nat): Heap
    requires i < |h.fl| && Within(h.fl, |h.ptr|) && bp < |h.ptr| == |h.size|
  {
    if h.fl[i] + h.size[h.fl[i]] == bp then AbsorbIntoPrev(h, bp, i) else InsertFree(h, bp, i)
  }

  /** The units of live blocks keep their contents. */
  ghost predicate Untouched(h: Heap, h': Heap, live: set<nat>) {
    |h'.ptr| == |h.ptr| == |h.size| == |h'.size| &&
    forall u :: u in h.owner && h.owner[u] in live && u < |h.ptr| ==>
      u in h'.owner && h'.owner[u] == h.owner[u] && h'.ptr[u] == h.ptr[u] && h'.size[u] == h.size[u]
  }

  lemma UntouchedTrans(h: Heap, h1: Heap, h2: Heap, live: set<nat>)
    requires Untouched(h, h1, live) && Untouched(h1, h2, live)
    ensures Untouched(h, h2, live)
  {
  }

  lemma OutsidePtr(ptr: seq<nat>, fl: seq<nat>, bp: nat, x: nat)
    requires Linked(ptr, fl) && bp < |ptr| && bp !in fl
    ensures Linked(ptr[bp := x], fl)
  {
    forall k | 0 <= k < |fl| ensures ptr[bp := x][fl[k]] == After(fl, k) {
      assert ptr[fl[k]] == After(fl, k);
    }
  }

  lemma FirstHalfOk(h: Heap, bp: nat, i: nat)
    requires Ok(h) && bp in Live(h) && IsPred(h.fl, bp, i)
    ensures bp < |h.size|
    ensures var h' := FirstHalf(h, bp, i);
      Ok(h') && Ready(h', bp, i) && h'.fl[i] == h.fl[i] && Live(h') == Live(h) && h'.size[bp] >= h.size[bp]
  {
    LiveBlock(h, bp);
    if i >= 1 { FreeApart(h, bp, i); }
    if i + 1 < |h.fl| { FreeApart(h, bp, i + 1); }
    if i + 1 < |h.fl| && bp + h.size[bp] == h.fl[i + 1] {
      AbsorbNextOk(h, bp, i);
      AbsorbNextFits(h, bp, i);
    } else {
      assert h.ptr[h.fl[i]] == After(h.fl, i);
      OutsidePtr(h.ptr, h.fl, bp, h.ptr[h.fl[i]]);
    }
  }

  lemma SecondHalfOk(h: Heap, bp: nat, i: nat)
    requires Ok(h) && bp in Live(h) && Ready(h, bp, i)
    ensures var h' := SecondHalf(h, bp, i);
      Ok(h') && Live(h') == Live(h) - {bp} && h.fl[i] in h'.fl &&
      (h'.size[h.fl[i]] >= h.size[bp] || (h'.ptr[h.fl[i]] == bp && h'.size[bp] == h.size[bp]))
  {
    LiveBlock(h, bp);
    if h.fl[i] + h.size[h.fl[i]] == bp {
      AbsorbIntoPrevOk(h, bp, i);
    } else {
      InsertFreeOk(h, bp, i);
      assert Insert(h.fl, i, bp)[i] == h.fl[i];
    }
  }

  lemma FirstHalfFrame(h: Heap, bp: nat, i: nat)
    requires Ok(h) && bp in Live(h) && bp < |h.size| && i < |h.fl| && h.fl[i] < bp
    ensures Untouched(h, FirstHalf(h, bp, i), Live(h) - {bp})
    ensures FirstHalf(h, bp, i).owner.Keys == h.owner.Keys
  {
    var h' := FirstHalf(h, bp, i);
    assert h.fl[i] !in Live(h) by { if i >= 1 { assert h.fl[i] in h.free; } }
    if i + 1 < |h.fl| { assert h.fl[i + 1] in h.free; }
    forall u | u in h.owner && h.owner[u] in Live(h) - {bp} ensures u != bp && u != h.fl[i] {
      assert Inside(h.size, bp, bp);
      if h.fl[i] != BASE { assert Inside(h.size, h.fl[i], h.fl[i]); }
    }
  }

  lemma SecondHalfFrame(h: Heap, bp: nat, i: nat)
    requires Ok(h) && bp in Live(h) && Ready(h, bp, i)
    ensures Untouched(h, SecondHalf(h, bp, i), Live(h) - {bp})
    ensures SecondHalf(h, bp, i).owner.Keys == h.owner.Keys
  {
    var p := h.fl[i];
    assert p !in Live(h) by { if i >= 1 { assert p in h.free; } }
    forall u | u in h.owner && h.owner[u] in Live(h) - {bp} ensures u != p {
      if p != BASE { assert Inside(h.size, p, p); }
    }
  }

  function FreeHeap(h: Heap, bp: nat, i: nat): Heap
    requires i < |h.fl| && Within(h.fl, |h.ptr|) && bp < |h.ptr| == |h.size|
  {
    var h1 := FirstHalf(h, bp, i);
    if i < |h1.fl| && Within(h1.fl, |h1.ptr|) then SecondHalf(h1, bp, i) else h1
  }

  /** free() keeps the heap in order, gives the block up, loses no unit and touches no
      other live block; the freed units are in the block freep names or the next one. */
  lemma FreeOk(h: Heap, bp: nat, i: nat)
    requires Ok(h) && bp in Live(h) && IsPred(h.fl, bp, i)
    ensures bp < |h.size|
    ensures var h', p := FreeHeap(h, bp, i), h.fl[i];
      Ok(h') && Live(h') == Live(h) - {bp} && h'.owner.Keys == h.owner.Keys && p in h'.fl &&
      Untouched(h, h', Live(h')) && h'.ptr[p] < |h'.size| &&
      (h'.size[p] >= h.size[bp] || h'.size[h'.ptr[p]] >= h.size[bp])
  {
    var h1 := FirstHalf(h, bp, i);
    FirstHalfOk(h, bp, i);
    FirstHalfFrame(h, bp, i);
    SecondHalfOk(h1, bp, i);
    SecondHalfFrame(h1, bp, i);
    NextInRange(FreeHeap(h, bp, i), h.fl[i]);
  }

  lemma NextInRange(h: Heap, p: nat)
    requires ListOk(h) && p in h.fl
    ensures p < |h.ptr| && h.ptr[p] < |h.ptr|
  {
    var k :| 0 <= k < |h.fl| && h.fl[k] == p;
    assert h.ptr[h.fl[k]] == After(h.fl, k);
  }

  /** Exactly the same units belong to blocks. */
  predicate Conserved(h: Heap, h': Heap) { h'.owner.Keys == h.owner.Keys }

  /** q is the new live block of n units in h', no live block of h was touched, and no unit
      was lost or gained. */
  ghost predicate Allocated(h: Heap, h': Heap, q: nat, n: nat) {
    var ok, untouched, conserved := Ok(h'), Untouched(h, h', Live(h)), Conserved(h, h');
    var isNew := q !in Live(h) && Live(h') == Live(h) + {q};
    ok && untouched && conserved && isNew && q < |h'.size| && h'.size[q] == n
  }

  // ---------- malloc(): taking units from a free block ----------

  /** An exact fit leaves the list. */
  function TakeAll(h: Heap, i: nat): Heap
    requires i + 1 < |h.fl| && Within(h.fl, |h.ptr|)
  {
    h.(ptr := h.ptr[h.fl[i] := h.ptr[h.fl[i + 1]]], fl := Skip(h.fl, i), free := h.free - {h.fl[i + 1]})
  }

  lemma TakeAllOk(h: Heap, i: nat)
    requires Ok(h) && i + 1 < |h.fl|
    ensures Ok(TakeAll(h, i)) && Untouched(h, TakeAll(h, i), Live(h)) && h.fl[i] in TakeAll(h, i).fl
    ensures Live(TakeAll(h, i)) == Live(h) + {h.fl[i + 1]} && h.fl[i + 1] in h.free
  {
    Ascending(h.size, h.fl);
    SkipLists(h.fl, h.free, i);
    TakeAllLinked(h.ptr, h.fl, i);
    TakeAllSpaced(h.size, h.fl, i);
    assert Skip(h.fl, i)[i] == h.fl[i];
    if i >= 1 { assert h.fl[i] in h.free && Inside(h.size, h.fl[i], h.fl[i]); }
    assert h.fl[i + 1] in h.free;
    forall u | u in h.owner && h.owner[u] in Live(h) ensures u != h.fl[i] {}
  }

  lemma TakeAllLinked(ptr: seq<nat>, fl: seq<nat>, i: nat)
    requires Linked(ptr, fl) && i + 1 < |fl| && forall j, k :: 0 <= j < k < |fl| ==> fl[j] < fl[k]
    ensures Linked(ptr[fl[i] := ptr[fl[i + 1]]], Skip(fl, i))
  {
    var r := Skip(fl, i);
    var ptr' := ptr[fl[i] := ptr[fl[i + 1]]];
    assert ptr[fl[i + 1]] == After(fl, i + 1);
    forall k | 0 <= k < |r| ensures ptr'[r[k]] == After(r, k) {
      var j := if k <= i then k else k + 1;
      assert r[k] == fl[j] && ptr[fl[j]] == After(fl, j);
    }
  }

  lemma TakeAllSpaced(size: seq<nat>, fl: seq<nat>, i: nat)
    requires Within(fl, |size|) && Spaced(size, fl) && i + 1 < |fl|
    ensures Within(Skip(fl, i), |size|) && Spaced(size, Skip(fl, i))
  {
    var r := Skip(fl, i);
    assert forall k :: 0 <= k < |r| ==> r[k] == fl[if k <= i then k else k + 1];
    forall j: nat, k: nat | j < k < |r| ensures Below(size, r, j, k) {
      assert Below(size, fl, if j <= i then j else j + 1, if k <= i then k else k + 1);
    }
  }

  /** Block p gives up its units from q on. */
  function Cut(owner: map<nat, nat>, p: nat, q: nat): map<nat, nat> {
    map u | u in owner :: if owner[u] == p && u >= q then q else owner[u]
  }

  /** The last n units of a free block become a block of their own. */
  function TakeTail(h: Heap, j: nat, n: nat): Heap
    requires j < |h.fl| && Within(h.fl, |h.size|) && 1 <= n < h.size[h.fl[j]]
    requires h.fl[j] + h.size[h.fl[j]] <= |h.size|
  {
    var p := h.fl[j];
    var q := p + h.size[p] - n;
    h.(size := h.size[p := h.size[p] - n][q := n], blocks := h.blocks + {q},
       owner := Cut(h.owner, p, q))
  }

  lemma ShrinkSpaced(size: seq<nat>, fl: seq<nat>, j: nat, q: nat, n: nat)
    requires Within(fl, |size|) && Spaced(size, fl) && 1 <= j < |fl| && 1 <= n < size[fl[j]]
    requires q == fl[j] + size[fl[j]] - n && q < |size|
    ensures q !in fl && Spaced(size[fl[j] := size[fl[j]] - n][q := n], fl)
  {
    Ascending(size, fl);
    forall k | 0 <= k < |fl| ensures fl[k] != q {
      if k > j { assert Below(size, fl, j, k); }
    }
    var size' := size[fl[j] := size[fl[j]] - n][q := n];
    forall a: nat, b: nat | a < b < |fl| ensures Below(size', fl, a, b) {
      assert Below(size, fl, a, b);
    }
  }

  lemma TakeTailBlocks(h: Heap, j: nat, n: nat)
    requires BlocksOk(h) && j < |h.fl| && Within(h.fl, |h.size|) && h.fl[j] in h.free && 1 <= n < h.size[h.fl[j]]
    ensures var q := h.fl[j] + h.size[h.fl[j]] - n; q + n <= |h.size| && q !in h.blocks
    ensures BlocksOk(TakeTail(h, j, n))
  {
    var p, h' := h.fl[j], TakeTail(h, j, n);
    var q := p + h.size[p] - n;
    assert Inside(h.size, p, q);
    assert q !in h.blocks by { if q in h.blocks { assert Inside(h.size, q, q); } }
    forall b, u: nat | b in h'.blocks && Inside(h'.size, b, u) ensures u in h'.owner && h'.owner[u] == b {
      if b == q || b == p { assert Inside(h.size, p, u); } else { assert Inside(h.size, b, u); }
    }
    forall u | u in h'.owner ensures h'.owner[u] in h'.blocks && Inside(h'.size, h'.owner[u], u) {
      assert Inside(h.size, h.owner[u], u);
    }
  }

  lemma TakeTailFrame(h: Heap, j: nat, n: nat)
    requires BlocksOk(h) && j < |h.fl| && Within(h.fl, |h.size|) && h.fl[j] in h.free && 1 <= n < h.size[h.fl[j]]
    requires h.fl[j] + h.size[h.fl[j]] <= |h.size| == |h.ptr|
    ensures Untouched(h, TakeTail(h, j, n), Live(h))
  {
    var p := h.fl[j];
    var q := p + h.size[p] - n;
    assert Inside(h.size, p, p) && Inside(h.size, p, q);
    assert h.owner[p] == p && h.owner[q] == p && p !in Live(h);
  }

  lemma TakeTailList(h: Heap, j: nat, n: nat)
    requires ListOk(h) && 1 <= j < |h.fl| && 1 <= n < h.size[h.fl[j]] && h.fl[j] + h.size[h.fl[j]] <= |h.size|
    ensures ListOk(TakeTail(h, j, n))
  {
    assert Below(h.size, h.fl, 0, j);
    ShrinkSpaced(h.size, h.fl, j, h.fl[j] + h.size[h.fl[j]] - n, n);
  }

  lemma TakeTailOk(h: Heap, j: nat, n: nat)
    requires Ok(h) && 1 <= j < |h.fl| && 1 <= n < h.size[h.fl[j]]
    ensures h.fl[j] + h.size[h.fl[j]] <= |h.size|
    ensures Allocated(h, TakeTail(h, j, n), h.fl[j] + h.size[h.fl[j]] - n, n)
  {
    assert h.fl[j] in h.free;
    TakeTailBlocks(h, j, n);
    TakeTailFrame(h, j, n);
    TakeTailList(h, j, n);
    TakeTailLive(h, j, n);
  }

  lemma TakeTailLive(h: Heap, j: nat, n: nat)
    requires j < |h.fl| && Within(h.fl, |h.size|) && 1 <= n < h.size[h.fl[j]] && h.fl[j] + h.size[h.fl[j]] <= |h.size|
    requires h.free <= h.blocks
    ensures var q := h.fl[j] + h.size[h.fl[j]] - n;
      q !in h.blocks ==> Live(TakeTail(h, j, n)) == Live(h) + {q}
  {
  }

  // ---------- morecore(): units from sbrk ----------

  predicate InRegion(u: nat, p: nat, nu: nat) { p <= u < p + nu }

  function Region(p: nat, nu: nat): map<nat, nat> { map u: nat | p <= u < p + nu && InRegion(u, p, nu) :: p }

  function RegionUnits(p: nat, nu: nat): set<nat> { set u: nat | p <= u < p + nu && InRegion(u, p, nu) }

  /** morecore() asks for at least 4096 units. */
  function AskFor(n: nat): nat { if n < 4096 then 4096 else n }

  /** The units of h' are those of h and the nu units below brk, which lie above the former
      break. */
  ghost predicate Obtained(h: Heap, h': Heap, brk: nat, brk': nat, nu: nat) {
    brk + nu <= brk' && h'.owner.Keys == h.owner.Keys + RegionUnits(brk' - nu, nu)
  }

  lemma ObtainedRegion(h: Heap, h1: Heap, h2: Heap, brk: nat, brk': nat, p: nat, nu: nat)
    requires brk <= p && brk' == p + nu && h1.owner.Keys == h.owner.Keys + RegionUnits(p, nu) && Conserved(h1, h2)
    ensures Obtained(h, h2, brk, brk', nu)
  {
  }

  /** A fresh region above everything handed out before, as one live block. */
  function Grow(h: Heap, p: nat, nu: nat): Heap
    requires p < |h.size|
  {
    h.(size := h.size[p := nu], blocks := h.blocks + {p}, owner := h.owner + Region(p, nu))
  }

  lemma GrowOk(h: Heap, p: nat, nu: nat)
    requires Ok(h) && nu >= 1 && p >= 1 && p + nu <= |h.size| && forall u :: u in h.owner ==> u < p
    ensures Ok(Grow(h, p, nu)) && Live(Grow(h, p, nu)) == Live(h) + {p} && p !in Live(h)
    ensures Untouched(h, Grow(h, p, nu), Live(h)) && Grow(h, p, nu).owner.Keys == h.owner.Keys + RegionUnits(p, nu)
  {
    var h' := Grow(h, p, nu);
    assert Region(p, nu).Keys == RegionUnits(p, nu);
    var blocks := h.blocks;
    assert forall b :: b in blocks ==> b < p by {
      forall b | b in blocks ensures b < p { assert Inside(h.size, b, b); }
    }
    forall k | 0 <= k < |h.fl| ensures h.fl[k] < p {
      if k >= 1 { assert h.fl[k] in h.free; }
    }
    GrowOwned(h.size, blocks, h.owner, p, nu);
    SameSpaced(h.size, h.fl, p, nu);
  }

  lemma GrowOwned(size: seq<nat>, blocks: set<nat>, owner: map<nat, nat>, p: nat, nu: nat)
    requires Owned(size, blocks, owner) && nu >= 1 && p >= 1 && p + nu <= |size|
    requires (forall u :: u in owner ==> u < p) && forall b :: b in blocks ==> b < p
    ensures Owned(size[p := nu], blocks + {p}, owner + Region(p, nu))
  {
    var size' := size[p := nu];
    var owner' := owner + Region(p, nu);
    forall h, u: nat | h in blocks + {p} && Inside(size', h, u) ensures u in owner' && owner'[u] == h {
      if h != p { assert Inside(size, h, u); }
    }
    forall u | u in owner' ensures owner'[u] in blocks + {p} && Inside(size', owner'[u], u) {
      if u !in Region(p, nu) { assert Inside(size, owner[u], u); }
    }
  }

  // ---------- the code ----------

  /** The assignments of free(), in order. */
  function FreeCode(ptr: seq<nat>, size: seq<nat>, bp: nat, p: nat): (seq<nat>, seq<nat>)
    requires bp < |ptr| == |size| && p < |ptr| && ptr[p] < |ptr|
  {
    var up := bp + size[bp] == ptr[p];
    var size1 := if up then size[bp := size[bp] + size[ptr[p]]] else size;
    var ptr1 := if up then ptr[bp := ptr[ptr[p]]] else ptr[bp := ptr[p]];
    if p + size1[p] == bp then (ptr1[p := ptr1[bp]], size1[p := size1[p] + size1[bp]])
    else (ptr1[p := bp], size1)
  }

  lemma FreeCodeIsFree(h: Heap, bp: nat, i: nat)
    requires |h.ptr| == |h.size| && i < |h.fl| && Within(h.fl, |h.ptr|) && h.fl[0] == BASE < bp < |h.ptr|
    requires h.ptr[h.fl[i]] == After(h.fl, i) && bp !in h.fl && h.fl[i] < bp
    ensures FreeCode(h.ptr, h.size, bp, h.fl[i]) == (FreeHeap(h, bp, i).ptr, FreeHeap(h, bp, i).size)
  {
    var p, r := h.fl[i], FreeCode(h.ptr, h.size, bp, h.fl[i]);
    if i + 1 < |h.fl| && bp + h.size[bp] == h.fl[i + 1] {
      SkipAt(h.fl, i);
      assert Within(Skip(h.fl, i), |h.ptr|);
    }
    assert r.0 == FreeHeap(h, bp, i).ptr;
    assert r.1 == FreeHeap(h, bp, i).size;
  }

  lemma TakenAll(h: Heap, i: nat) returns (h': Heap)
    requires Ok(h) && i + 1 < |h.fl|
    ensures h'.ptr == h.ptr[h.fl[i] := h.ptr[h.fl[i + 1]]] && h'.size == h.size && h.fl[i] in h'.fl
    ensures Allocated(h, h', h.fl[i + 1], h.size[h.fl[i + 1]])
  {
    h' := TakeAll(h, i);
    TakeAllOk(h, i);
  }

  lemma TakenTail(h: Heap, i: nat, p: nat, q: nat, n: nat) returns (h': Heap)
    requires Ok(h) && 1 <= i < |h.fl| && p == h.fl[i] && 1 <= n < h.size[p] && q == p + h.size[p] - n
    ensures q < |h.size| && h'.ptr == h.ptr && h'.fl == h.fl && h'.size == h.size[p := h.size[p] - n][q := n]
    ensures Allocated(h, h', q, n)
  {
    TakeTailOk(h, i, n);
    TakeTailIs(h, i, p, q, n);
    h' := TakeTail(h, i, n);
  }

  lemma TakeTailIs(h: Heap, i: nat, p: nat, q: nat, n: nat)
    requires i < |h.fl| && Within(h.fl, |h.size|) && p == h.fl[i] && 1 <= n < h.size[p]
    requires p + h.size[p] <= |h.size| && q == p + h.size[p] - n
    ensures var h' := TakeTail(h, i, n);
      h'.ptr == h.ptr && h'.fl == h.fl && h'.size == h.size[p := h.size[p] - n][q := n]
  {
  }

  lemma BlockEnds(h: Heap, i: nat)
    requires Ok(h) && 1 <= i < |h.fl|
    ensures h.fl[i] + h.size[h.fl[i]] <= |h.size|
  {
    assert h.fl[i] in h.free;
  }

  /** What the program writes into its blocks does not disturb the allocator. */
  lemma Written(h: Heap, b: nat, u: nat, x: nat, y: nat) returns (h': Heap)
    requires Ok(h) && b in Live(h) && u in h.owner && h.owner[u] == b && u != b
    ensures u < |h.ptr| == |h.size| && h' == h.(ptr := h.ptr[u := x], size := h.size[u := y]) && Ok(h')
  {
    assert Inside(h.size, b, u);
    assert u !in h.blocks by { if u in h.blocks { assert Inside(h.size, u, u); } }
    h' := h.(ptr := h.ptr[u := x], size := h.size[u := y]);
    forall k | 0 <= k < |h.fl| ensures h.fl[k] != u {
      if k >= 1 { assert h.fl[k] in h.free; }
    }
    WrittenList(h, u, x, y);
    assert forall c, v: nat :: c in h.blocks ==> Inside(h'.size, c, v) == Inside(h.size, c, v);
  }

  lemma WrittenList(h: Heap, u: nat, x: nat, y: nat)
    requires ListOk(h) && u < |h.ptr| && u !in h.fl
    ensures ListOk(h.(ptr := h.ptr[u := x], size := h.size[u := y]))
  {
    OutsidePtr(h.ptr, h.fl, u, x);
    SameSpaced(h.size, h.fl, u, y);
    assert h.fl[0] == BASE;
  }

  /** free() of block bp, whose predecessor on the list is element i: the heap after it. */
  lemma Freed(h: Heap, bp: nat, i: nat) returns (h': Heap)
    requires Ok(h) && bp in Live(h) && IsPred(h.fl, bp, i)
    ensures bp < |h.ptr| && h.ptr[h.fl[i]] < |h.ptr|
    ensures FreeCode(h.ptr, h.size, bp, h.fl[i]) == (h'.ptr, h'.size)
    ensures Ok(h') && Live(h') == Live(h) - {bp} && Untouched(h, h', Live(h')) && h.fl[i] in h'.fl
    ensures h'.owner.Keys == h.owner.Keys
    ensures h'.ptr[h.fl[i]] < |h'.size| &&
      (h'.size[h.fl[i]] >= h.size[bp] || h'.size[h'.ptr[h.fl[i]]] >= h.size[bp])
  {
    h' := FreeHeap(h, bp, i);
    LiveBlock(h, bp);
    assert h.ptr[h.fl[i]] == After(h.fl, i);
    FreeCodeIsFree(h, bp, i);
    FreeOk(h, bp, i);
  }

  /** How many units a request of nbytes needs, one header included. */
  function Units(nbytes: nat): (n: nat)
    ensures n >= 1 && (n - 1) * 16 >= nbytes && (n >= 2 ==> (n - 2) * 16 < nbytes)
  {
    (nbytes + 15) / 16 + 1
  }

  /** The list as malloc() walks it: from the element after number k round to number k. */
  function Rotated(fl: seq<nat>, k: nat): seq<nat>
    requires k < |fl|
  {
    fl[k + 1..] + fl[..k + 1]
  }

  lemma RotatedAt(ptr: seq<nat>, fl: seq<nat>, k: nat, m: nat)
    requires Linked(ptr, fl) && k < |fl| && m < |fl|
    ensures var r := Rotated(fl, k);
      |r| == |fl| && r[|fl| - 1] == fl[k] && r[0] == ptr[fl[k]] && r[m] < |ptr| &&
      (m + 1 < |fl| ==> ptr[r[m]] == r[m + 1])
  {
    assert ptr[fl[k]] == After(fl, k);
    var j := if k + 1 + m < |fl| then k + 1 + m else k + 1 + m - |fl|;
    assert Rotated(fl, k)[m] == fl[j] && ptr[fl[j]] == After(fl, j);
  }

  /** Walking from fl[k], the element before r[m] is r[m - 1], or fl[k] itself. */
  lemma RotatedPrev(size: seq<nat>, fl: seq<nat>, k: nat, m: nat) returns (i: nat)
    requires Within(fl, |size|) && Spaced(size, fl) && |fl| >= 1 && k < |fl| && m < |fl| && fl[0] == BASE
    requires Rotated(fl, k)[m] != BASE
    ensures i + 1 < |fl| && fl[i + 1] == Rotated(fl, k)[m]
    ensures fl[i] == if m == 0 then fl[k] else Rotated(fl, k)[m - 1]
  {
    var j := if k + 1 + m < |fl| then k + 1 + m else k + 1 + m - |fl|;
    i := j - 1;
  }

  /** No free block has n units. */
  ghost predicate AllSmaller(h: Heap, n: nat) {
    forall b :: b in h.free && b < |h.size| ==> h.size[b] < n
  }

  /** malloc()'s position on the list: it has passed m elements since freep = fl[k], all too
      small, and looks at the next one. */
  ghost predicate Walk(h: Heap, freep: int, prevp: int, p: int, n: nat, k: nat, m: nat) {
    ListOk(h) && k < |h.fl| && h.fl[k] == freep && m < |h.fl| &&
    p == Rotated(h.fl, k)[m] && 0 <= p < |h.size| &&
    prevp == (if m == 0 then freep else Rotated(h.fl, k)[m - 1]) &&
    forall j :: 0 <= j < m ==> Rotated(h.fl, k)[j] < |h.size| && h.size[Rotated(h.fl, k)[j]] < n
  }

  /** After a visit to sbrk a large enough block is ahead: the next one, or freep's. */
  ghost predicate FitsLast(h: Heap, freep: int, p: int, n: nat, m: nat) {
    0 <= freep < |h.size| && 0 <= p < |h.size| && (h.size[freep] >= n || (m == 0 && h.size[p] >= n))
  }

  /** What malloc() has done so far without taking a block. */
  ghost predicate Searched(h0: Heap, h: Heap, n: nat, asked: nat) {
    Live(h) == Live(h0) && Untouched(h0, h, Live(h0)) &&
    (asked == 0 ==> h == h0) && (asked == 1 ==> AllSmaller(h0, n))
  }

  lemma WalkStep(h: Heap, freep: int, prevp: int, p: int, n: nat, k: nat, m: nat)
    requires Walk(h, freep, prevp, p, n, k, m) && p != freep && h.size[p] < n
    ensures m + 1 < |h.fl| && h.ptr[p] < |h.size| && Walk(h, freep, p, h.ptr[p], n, k, m + 1)
  {
    RotatedAt(h.ptr, h.fl, k, m);
    assert m + 1 < |h.fl|;
    RotatedAt(h.ptr, h.fl, k, m + 1);
  }

  lemma WalkEnd(h: Heap, freep: int, prevp: int, p: int, n: nat, k: nat, m: nat)
    requires Walk(h, freep, prevp, p, n, k, m) && p == freep && h.size[p] < n
    ensures AllSmaller(h, n) && m == |h.fl| - 1
  {
    var r := Rotated(h.fl, k);
    RotatedAt(h.ptr, h.fl, k, m);
    Ascending(h.size, h.fl);
    var j := if k + 1 + m < |h.fl| then k + 1 + m else k + 1 + m - |h.fl|;
    assert r[m] == h.fl[j] && j == k;
    forall b | b in h.free && b < |h.size| ensures h.size[b] < n {
      assert OnList(h.fl, b);
      var i :| 0 <= i < |h.fl| && h.fl[i] == b;
      assert r[if i > k then i - k - 1 else i + |h.fl| - k - 1] == b;
    }
  }

  lemma WalkPrev(h: Heap, freep: int, prevp: int, p: int, n: nat, k: nat, m: nat) returns (i: nat)
    requires Walk(h, freep, prevp, p, n, k, m) && h.size[p] >= n >= 1
    ensures i + 1 < |h.fl| && h.fl[i] == prevp && h.fl[i + 1] == p
  {
    i := RotatedPrev(h.size, h.fl, k, m);
  }

  class Allocator {
    const ptr: array<nat>
    const size: array<nat>
    var freep: int           // -1 stands for the null pointer
    var brk: nat             // the program break
    ghost var heap: Heap

    ghost predicate Valid()
      reads this, ptr, size
    {
      ptr != size && ptr[..] == heap.ptr && size[..] == heap.size && brk >= 1 && |heap.ptr| >= 1 &&
      (forall u :: u in heap.owner ==> u < brk) &&
      if freep < 0 then |heap.size| == |heap.ptr| && heap.blocks == {} && heap.free == {} && heap.owner == map[]
      else freep in heap.fl && Ok(heap)
    }

    constructor (units: nat)
      requires units >= 1
      ensures Valid() && freep < 0 && fresh(ptr) && fresh(size) && ptr.Length == units
    {
      ptr, size := new nat[units], new nat[units];
      freep, brk := -1, 1;
      new;
      heap := Heap(ptr[..], size[..], [], {}, {}, map[]);
    }

    /** The loop of free(): the last list element below bp. */
    method FindPred(bp: nat) returns (p: nat, ghost i: nat)
      requires Valid() && freep >= 0 && bp in Live(heap)
      ensures IsPred(heap.fl, bp, i) && p == heap.fl[i] && p < ptr.Length
    {
      LiveBlock(heap, bp);
      ghost var fl := heap.fl;
      ghost var goal := PredExists(fl, bp);
      p := freep;
      i :| 0 <= i < |fl| && fl[i] == p;
      StopsAtPred(heap.size, fl, bp, i, goal);
      while !(bp > p && bp < ptr[p])
        invariant i < |fl| && p == fl[i] && p < ptr.Length
        decreases if i <= goal then goal - i else goal + |fl| - i
      {
        StopsAtPred(heap.size, fl, bp, i, goal);
        assert heap.ptr[p] == After(fl, i) == ptr[p];
        if p >= ptr[p] && (bp > p || bp < ptr[p]) {
          break;
        }
        p := ptr[p];
        i := if i + 1 < |fl| then i + 1 else 0;
      }
      StopsAtPred(heap.size, fl, bp, i, goal);
      assert heap.ptr[p] == After(fl, i) == ptr[p];
    }

    /** free(): bp leaves the live blocks, its units join the free list, and no unit of any
        other live block changes. */
    method Free(bp: nat)
      requires Valid() && freep >= 0 && bp in Live(heap)
      modifies this`freep, this`heap, ptr, size
      ensures Valid() && freep >= 0 && Live(heap) == Live(old(heap)) - {bp}
      ensures heap.owner.Keys == old(heap).owner.Keys && Untouched(old(heap), heap, Live(heap))
      ensures bp < size.Length && freep < size.Length && ptr[freep] < size.Length
      ensures size[freep] >= old(size[bp]) || size[ptr[freep]] >= old(size[bp])
    {
      var p;
      ghost var i;
      p, i := FindPred(bp);
      ghost var h' := Freed(heap, bp, i);
      assert forall u :: u in h'.owner.Keys ==> u in heap.owner.Keys;
      Unlink(bp, p);
      freep := p;
      heap := h';
    }

    /** The two ifs of free(). */
    method Unlink(bp: nat, p: nat)
      requires ptr != size && bp < ptr.Length == size.Length && p < ptr.Length && ptr[p] < ptr.Length
      modifies ptr, size
      ensures (ptr[..], size[..]) == FreeCode(old(ptr[..]), old(size[..]), bp, p)
    {
      if bp + size[bp] == ptr[p] {
        size[bp] := size[bp] + size[ptr[p]];
        ptr[bp] := ptr[ptr[p]];
      } else {
        ptr[bp] := ptr[p];
      }
      if p + size[p] == bp {
        size[p] := size[p] + size[bp];
        ptr[p] := ptr[bp];
      } else {
        ptr[p] := bp;
      }
    }

    /** sbrk(): nu units above every unit handed out so far, or a refusal.  The program may
        have moved the break itself in between. */
    method Sbrk(nu: nat) returns (p: int)
      modifies this`brk
      ensures p == -1 ==> brk == old(brk)
      ensures p != -1 ==> old(brk) <= p && p + nu <= ptr.Length && brk == p + nu
    {
      p := *;
      if brk <= p && p + nu <= ptr.Length {
        brk := p + nu;
      } else {
        p := -1;
      }
    }

    /** morecore(): at least n fresh units, in the block freep names or the next one. */
    method Morecore(n: nat) returns (p: int)
      requires Valid() && freep >= 0
      modifies this, ptr, size
      ensures Valid() && freep >= 0 && Live(heap) == Live(old(heap)) && Untouched(old(heap), heap, Live(heap))
      ensures p == -1 ==> heap == old(heap) && brk == old(brk)
      ensures p != -1 ==> Obtained(old(heap), heap, old(brk), brk, AskFor(n))
      ensures p != -1 ==> p == freep < size.Length && ptr[p] < size.Length
      ensures p != -1 ==> size[p] >= n || size[ptr[p]] >= n
    {
      var nu := AskFor(n);
      p := Sbrk(nu);
      if p == -1 {
        return;
      }
      FreeRegion(p, nu, old(brk));
      p := freep;
    }

    /** The region from sbrk joins the free list. */
    method FreeRegion(p: nat, nu: nat, ghost brk0: nat)
      requires Valid() && freep >= 0 && nu >= 1 && 1 <= brk0 <= p && p + nu <= size.Length && p + nu == brk
      requires forall u :: u in heap.owner ==> u < p
      modifies this`freep, this`heap, ptr, size
      ensures Valid() && freep >= 0 && Live(heap) == Live(old(heap)) && Untouched(old(heap), heap, Live(heap))
      ensures Obtained(old(heap), heap, brk0, brk, nu)
      ensures freep < size.Length && ptr[freep] < size.Length && (size[freep] >= nu || size[ptr[freep]] >= nu)
    {
      ghost var h0 := heap;
      AddRegion(p, nu);
      ghost var h := heap;
      Free(p);
      UntouchedTrans(h0, h, heap, Live(heap));
      ObtainedRegion(h0, h, heap, brk0, brk, p, nu);
    }

    /** The region from sbrk gets a header and becomes a block that free() can take. */
    method AddRegion(p: nat, nu: nat)
      requires Valid() && freep >= 0 && nu >= 1 && 1 <= p && p + nu <= size.Length && p + nu == brk
      requires forall u :: u in heap.owner ==> u < p
      modifies this`heap, size
      ensures Valid() && freep >= 0 && Live(heap) == Live(old(heap)) + {p} && p !in Live(old(heap))
      ensures heap.owner.Keys == old(heap).owner.Keys + RegionUnits(p, nu) &&
        Untouched(old(heap), heap, Live(old(heap)))
      ensures size[p] == nu
    {
      GrowOk(heap, p, nu);
      size[p] := nu;
      heap := Grow(heap, p, nu);
    }

    /** The list with nothing but `base` in it. */
    method InitList()
      requires Valid() && freep < 0
      modifies this`freep, this`heap, ptr, size
      ensures Valid() && freep >= 0 && heap.blocks == {} && heap.free == {} && Untouched(old(heap), heap, {})
      ensures heap.owner == old(heap).owner
    {
      ptr[BASE] := BASE;
      freep := BASE;
      size[BASE] := 0;
      heap := Heap(ptr[..], size[..], [BASE], {}, {}, map[]);
    }

    /** Take n units from the free block p, where prevp is the list element before it. */
    method Take(prevp: nat, p: nat, n: nat, ghost i: nat) returns (r: nat)
      requires Valid() && freep >= 0 && n >= 1 && p < size.Length && size[p] >= n
      requires i + 1 < |heap.fl| && heap.fl[i] == prevp && heap.fl[i + 1] == p
      modifies this`freep, this`heap, ptr, size
      ensures Valid() && freep >= 0 && r < size.Length && Allocated(old(heap), heap, r, n)
    {
      if size[p] == n {
        TakeWhole(prevp, p, i);
        r := p;
      } else {
        r := TakeEnd(p, n, i + 1);
      }
      freep := prevp;
    }

    method TakeWhole(prevp: nat, p: nat, ghost i: nat)
      requires Valid() && freep >= 0 && i + 1 < |heap.fl| && heap.fl[i] == prevp && heap.fl[i + 1] == p
      modifies this`freep, this`heap, ptr
      ensures Valid() && freep == prevp && Allocated(old(heap), heap, p, old(heap).size[p])
    {
      ghost var h' := TakenAll(heap, i);
      ptr[prevp] := ptr[p];
      heap := h';
      freep := prevp;
    }

    method TakeEnd(p: nat, n: nat, ghost i: nat) returns (r: nat)
      requires Valid() && freep >= 0 && 1 <= i < |heap.fl| && heap.fl[i] == p && 1 <= n < heap.size[p]
      modifies this`heap, size
      ensures Valid() && freep >= 0 && heap.fl == old(heap).fl && Allocated(old(heap), heap, r, n)
    {
      BlockEnds(heap, i);
      ghost var h' := TakenTail(heap, i, p, p + heap.size[p] - n, n);
      assert size[p] == size[..][p];
      r := Carve(p, n);
      heap := h';
    }

    method Carve(p: nat, n: nat) returns (r: nat)
      requires p < size.Length && n <= size[p] && p + size[p] - n < size.Length
      modifies size
      ensures r == p + old(size[p]) - n && size[..] == old(size[..])[p := old(size[p]) - n][r := n]
    {
      size[p] := size[p] - n;
      r := p + size[p];
      size[r] := n;
    }

    /** malloc(): the header of a block of Units(nbytes) units, or -1.  The block is not
        live before and is live after; no unit of a live block changes.  sbrk is asked at
        most once, and only if no free block is large enough; malloc fails exactly if sbrk
        was asked and refused.  No unit is ever lost, and units are gained from sbrk only. */
    method Malloc(nbytes: nat) returns (r: int, asked: nat)
      requires Valid()
      modifies this, ptr, size
      ensures Valid() && asked <= 1 && Untouched(old(heap), heap, Live(old(heap)))
      ensures asked == 1 ==> AllSmaller(old(heap), Units(nbytes))
      ensures brk != old(brk) ==> Obtained(old(heap), heap, old(brk), brk, AskFor(Units(nbytes)))
      ensures r == -1 <==> asked == 1 && brk == old(brk)
      ensures brk == old(brk) ==> Conserved(old(heap), heap)
      ensures asked == 0 ==> brk == old(brk)
      ensures r == -1 ==> Live(heap) == Live(old(heap))
      ensures r != -1 ==> 0 <= r < size.Length && size[r] == Units(nbytes)
      ensures r != -1 ==> r !in Live(old(heap)) && Live(heap) == Live(old(heap)) + {r}
    {
      if freep < 0 {
        InitList();
      }
      ghost var h := heap;
      r, asked := Search(Units(nbytes));
      UntouchedTrans(old(heap), h, heap, Live(old(heap)));
    }

    /** morecore() in malloc(), and where the walk stands after it. */
    method More(nunits: nat) returns (q: int, ghost k: nat)
      requires Valid() && freep >= 0
      modifies this, ptr, size
      ensures Valid() && freep >= 0
      ensures Live(heap) == Live(old(heap)) && Untouched(old(heap), heap, Live(heap))
      ensures q == -1 ==> heap == old(heap) && brk == old(brk)
      ensures q != -1 ==> Obtained(old(heap), heap, old(brk), brk, AskFor(nunits))
      ensures q != -1 ==> 0 <= q < ptr.Length && Walk(heap, freep, q, ptr[q], nunits, k, 0)
      ensures q != -1 ==> FitsLast(heap, freep, ptr[q], nunits, 0)
    {
      q := Morecore(nunits);
      k :| k < |heap.fl| && heap.fl[k] == freep;
      RotatedAt(heap.ptr, heap.fl, k, 0);
    }

    /** What the loop of malloc() keeps while it has no block. */
    ghost predicate Searching(h0: Heap, brk0: nat, prevp: int, p: int, nunits: nat, k: nat, m: nat, asked: nat)
      reads this, ptr, size
    {
      Valid() && freep >= 0 && Walk(heap, freep, prevp, p, nunits, k, m) && asked <= 1 &&
      Searched(h0, heap, nunits, asked) &&
      (if asked == 0 then brk == brk0 else Obtained(h0, heap, brk0, brk, AskFor(nunits))) &&
      (asked == 1 ==> FitsLast(heap, freep, p, nunits, m))
    }

    /** The loop of malloc(). */
    method Search(nunits: nat) returns (r: int, asked: nat)
      requires Valid() && freep >= 0 && nunits >= 1
      modifies this, ptr, size
      ensures Valid() && asked <= 1 && Untouched(old(heap), heap, Live(old(heap)))
      ensures asked == 1 ==> AllSmaller(old(heap), nunits)
      ensures brk != old(brk) ==> Obtained(old(heap), heap, old(brk), brk, AskFor(nunits))
      ensures r == -1 <==> asked == 1 && brk == old(brk)
      ensures brk == old(brk) ==> Conserved(old(heap), heap)
      ensures asked == 0 ==> brk == old(brk)
      ensures r == -1 ==> Live(heap) == Live(old(heap))
      ensures r != -1 ==> 0 <= r < size.Length && size[r] == nunits
      ensures r != -1 ==> r !in Live(old(heap)) && Live(heap) == Live(old(heap)) + {r}
    {
      asked := 0;
      ghost var k: nat :| k < |heap.fl| && heap.fl[k] == freep;
      ghost var m: nat := 0;
      RotatedAt(heap.ptr, heap.fl, k, 0);
      var prevp: int := freep;
      var p: int := ptr[prevp];
      while size[p] < nunits
        invariant Searching(old(heap), old(brk), prevp, p, nunits, k, m, asked)
        decreases 1 - asked, |heap.fl| - m
      {
        p, asked, k, m := Advance(old(heap), old(brk), prevp, p, nunits, k, m, asked);
        if p == -1 {
          return -1, asked;
        }
        prevp := p;
        p := ptr[p];
      }
      r := TakeFound(old(heap), old(brk), prevp, p, nunits, k, m, asked);
    }

    /** The return from that loop: a large enough block is found. */
    method TakeFound(ghost h0: Heap, ghost brk0: nat, prevp: int, p: int, nunits: nat, ghost k: nat, ghost m: nat,
                     asked: nat)
      returns (r: int)
      requires Searching(h0, brk0, prevp, p, nunits, k, m, asked) && nunits >= 1 && size[p] >= nunits
      modifies this`freep, this`heap, ptr, size
      ensures Valid() && Untouched(h0, heap, Live(h0)) && 0 <= r < size.Length && size[r] == nunits
      ensures r !in Live(h0) && Live(heap) == Live(h0) + {r}
      ensures if asked == 0 then brk == brk0 && Conserved(h0, heap) else Obtained(h0, heap, brk0, brk, AskFor(nunits))
    {
      ghost var h := heap;
      ghost var i := WalkPrev(heap, freep, prevp, p, nunits, k, m);
      r := Take(prevp, p, nunits, i);
      UntouchedTrans(h0, h, heap, Live(h0));
    }

    /** One round of that loop at a block that is too small: the list element to go on from. */
    method Advance(ghost h0: Heap, ghost brk0: nat, prevp: int, p: int, nunits: nat, ghost k: nat, ghost m: nat,
                   asked: nat)
      returns (q: int, asked': nat, ghost k': nat, ghost m': nat)
      requires Searching(h0, brk0, prevp, p, nunits, k, m, asked) && size[p] < nunits
      modifies this, ptr, size
      ensures q == -1 ==> Valid() && asked' == 1 && heap == h0 && brk == brk0
      ensures q == -1 ==> AllSmaller(h0, nunits) && Untouched(h0, heap, Live(h0))
      ensures q != -1 ==> 0 <= q < ptr.Length && Searching(h0, brk0, q, ptr[q], nunits, k', m', asked')
      ensures asked' == asked ==> q != -1 && heap == old(heap) && m < m' < |heap.fl|
      ensures asked <= asked' <= 1
    {
      q, asked', k', m' := p, asked, k, m + 1;
      if p == freep {
        ghost var h := heap;
        WalkEnd(heap, freep, prevp, p, nunits, k, m);
        q, k' := More(nunits);
        asked', m' := asked + 1, 0;
        UntouchedTrans(h0, h, heap, Live(h0));
      } else {
        WalkStep(heap, freep, prevp, p, nunits, k, m);
      }
    }

    /** The program writes anything into the units it was given, header excluded. */
    method UserWrite(b: nat, u: nat, x: nat, y: nat)
      requires Valid() && freep >= 0 && b in Live(heap) && u in heap.owner && heap.owner[u] == b && u != b
      modifies this`heap, ptr, size
      ensures Valid() && freep >= 0 && Live(heap) == Live(old(heap)) && heap.owner == old(heap).owner
      ensures u < ptr.Length && ptr[u] == x && size[u] == y
    {
      ghost var h' := Written(heap, b, u, x, y);
      ptr[u] := x;
      size[u] := y;
      heap := h';
    }
  }
}
