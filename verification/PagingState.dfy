/** The paging state of one process in vm.c, on values: which pages are resident, which are in
    the swap file and where, and what the process would read in each of them. */
module PagingState {
  import opened Common
  import opened PageQueue

  const MAX_PSYC_PAGES: nat := 16

  datatype Page = Page(bytes: seq<nat>)

  datatype Pte = Pte(valid: bool, pg: bool, frame: nat)

  /** p->data[]: the slot of the swap file (-1 if none) and whether the page is in memory. */
  datatype Meta = Meta(offset: int, inUse: bool)

  const NOPTE: Pte := Pte(false, false, 0)
  const NOMETA: Meta := Meta(-1, false)

  /** q is the queue of resident pages and view what the process would read. */
  datatype State = State(pte: seq<Pte>, meta: seq<Meta>, ram: map<nat, Page>, free: seq<nat>,
                         swap: seq<Page>, count: int, q: seq<nat>, view: map<nat, Page>)

  predicate Resident(s: State, v: nat) { v < |s.pte| && s.pte[v].valid }

  predicate Swapped(s: State, v: nat) { v < |s.meta| && s.meta[v].offset >= 0 }

  /** The bytes of a page are in its frame or in its slot of the swap file. */
  ghost predicate PageOk(s: State, v: nat) {
    v < |s.pte| && v < |s.meta| &&
    if v !in s.view then s.pte[v].valid == false && s.pte[v].pg == false && s.meta[v] == NOMETA
    else if s.pte[v].valid then
      !s.pte[v].pg && s.meta[v] == Meta(-1, true) && s.pte[v].frame in s.ram && s.ram[s.pte[v].frame] == s.view[v]
    else
      s.pte[v].pg && !s.meta[v].inUse && 0 <= s.meta[v].offset < |s.swap| && s.swap[s.meta[v].offset] == s.view[v]
  }

  ghost predicate PagesOk(s: State) {
    |s.pte| == |s.meta| == MAX_TOTAL_PAGES && (forall v :: v in s.view ==> v < MAX_TOTAL_PAGES) &&
    forall v: nat :: v < MAX_TOTAL_PAGES ==> PageOk(s, v)
  }

  /** The queue holds each resident page once, and pagesInMemory counts them. */
  ghost predicate QueueOk(s: State) {
    Distinct(s.q) && s.count == |s.q| && forall v: nat :: v in s.q <==> Resident(s, v)
  }

  ghost predicate FramesOk(s: State) {
    Distinct(s.free) &&
    (forall v: nat :: Resident(s, v) ==> s.pte[v].frame !in s.free) &&
    forall u: nat, v: nat :: Resident(s, u) && Resident(s, v) && u != v ==> s.pte[u].frame != s.pte[v].frame
  }

  /** No two pages share a slot of the swap file. */
  ghost predicate SlotsOk(s: State) {
    forall u: nat, v: nat :: Swapped(s, u) && Swapped(s, v) && u != v ==> s.meta[u].offset != s.meta[v].offset
  }

  ghost predicate Ok(s: State) {
    var pages, queue, frames, slots := PagesOk(s), QueueOk(s), FramesOk(s), SlotsOk(s);
    pages && queue && frames && slots
  }

  /** No page has this slot. */
  ghost predicate SlotFree(s: State, slot: int) { forall v: nat :: Swapped(s, v) ==> s.meta[v].offset != slot }

  predicate SlotTaken(meta: seq<Meta>, slot: nat) { exists v :: 0 <= v < |meta| && meta[v].offset == slot }

  // ---------- page_to_file ----------

  /** writeToSwapFile(): a write at or before the end of the file. */
  function Put(swap: seq<Page>, slot: nat, page: Page): seq<Page>
    requires slot <= |swap|
  {
    if slot < |swap| then swap[slot := page] else swap + [page]
  }

  /** Page v goes to the slot, its frame to the free list; q is the queue without it. */
  function PageOut(s: State, v: nat, slot: nat, q: seq<nat>): State
    requires v < |s.pte| == |s.meta| && s.pte[v].frame in s.ram && slot <= |s.swap|
  {
    var f := s.pte[v].frame;
    s.(swap := Put(s.swap, slot, s.ram[f]), free := [f] + s.free, pte := s.pte[v := Pte(false, true, f)],
       meta := s.meta[v := Meta(slot, false)], count := s.count - 1, q := q)
  }

  /** q' is q without page v, in some order. */
  ghost predicate Leaves(q: seq<nat>, q': seq<nat>, v: nat) {
    Distinct(q') && |q'| == |q| - 1 && v in q && forall u :: u in q' <==> u in q && u != v
  }

  lemma PageOutPages(s: State, v: nat, slot: nat, q: seq<nat>)
    requires PagesOk(s) && Resident(s, v) && slot <= |s.swap| && SlotFree(s, slot)
    ensures PageOk(s, v) && PagesOk(PageOut(s, v, slot, q))
  {
    assert PageOk(s, v);
    var s' := PageOut(s, v, slot, q);
    forall u: nat | u < MAX_TOTAL_PAGES ensures PageOk(s', u) {
      assert PageOk(s, u);
      assert Swapped(s, u) ==> s.meta[u].offset != slot;
    }
  }

  lemma PageOutFrames(s: State, v: nat, slot: nat, q: seq<nat>)
    requires FramesOk(s) && Resident(s, v) && slot <= |s.swap| && |s.meta| == |s.pte| && s.pte[v].frame in s.ram
    ensures FramesOk(PageOut(s, v, slot, q))
  {
    var s' := PageOut(s, v, slot, q);
    forall u: nat | Resident(s', u) ensures Resident(s, u) && u != v { }
  }

  lemma PageOutSlots(s: State, v: nat, slot: nat, q: seq<nat>)
    requires SlotsOk(s) && SlotFree(s, slot) && v < |s.pte| == |s.meta| && slot <= |s.swap| && s.pte[v].frame in s.ram
    ensures SlotsOk(PageOut(s, v, slot, q))
  {
    var s' := PageOut(s, v, slot, q);
    forall u: nat | Swapped(s', u) && u != v ensures Swapped(s, u) { }
  }

  lemma PageOutOk(s: State, v: nat, slot: nat, q: seq<nat>)
    requires Ok(s) && Leaves(s.q, q, v) && slot <= |s.swap| && SlotFree(s, slot)
    ensures Resident(s, v) && PageOk(s, v) && Ok(PageOut(s, v, slot, q))
  {
    PageOutPages(s, v, slot, q);
    PageOutFrames(s, v, slot, q);
    PageOutSlots(s, v, slot, q);
    var s' := PageOut(s, v, slot, q);
    forall u: nat ensures u in s'.q <==> Resident(s', u) { assert u in s.q <==> Resident(s, u); }
  }

  /** Pages u and w have one slot of the swap file, and it holds the bytes of u: a fault at page w
      will read these. */
  ghost predicate Clash(s: State, u: nat, w: nat) {
    u != w && u < |s.meta| && w < |s.meta| && u < |s.pte| && w < |s.pte| && u in s.view && w in s.view &&
    !s.pte[u].valid && !s.pte[w].valid && s.pte[u].pg && s.pte[w].pg &&
    0 <= s.meta[u].offset == s.meta[w].offset < |s.swap| && s.swap[s.meta[u].offset] == s.view[u]
  }

  /** A page-out to the slot of page w: the bytes of w are gone, unless the two pages were equal. */
  lemma PageOutClashes(s: State, u: nat, slot: nat, q: seq<nat>, w: nat)
    requires Ok(s) && Leaves(s.q, q, u) && Swapped(s, w) && s.meta[w].offset == slot
    ensures Resident(s, u) && PageOk(s, u) && slot < |s.swap|
    ensures var s' := PageOut(s, u, slot, q); Clash(s', u, w) && (PageOk(s', w) <==> s.view[u] == s.view[w])
  {
    assert u in s.q && Resident(s, u);
    assert PageOk(s, u) && PageOk(s, w);
  }

  /** A page-out keeps the invariant if and only if its slot is free. */
  lemma PageOutOkIff(s: State, u: nat, slot: nat, q: seq<nat>)
    requires Ok(s) && Leaves(s.q, q, u) && slot <= |s.swap|
    ensures Resident(s, u) && PageOk(s, u)
    ensures Ok(PageOut(s, u, slot, q)) <==> SlotFree(s, slot)
  {
    assert u in s.q && Resident(s, u);
    assert PageOk(s, u);
    if SlotFree(s, slot) {
      PageOutOk(s, u, slot, q);
    } else {
      var w: nat :| Swapped(s, w) && s.meta[w].offset == slot;
      PageOutClashes(s, u, slot, q, w);
      var s' := PageOut(s, u, slot, q);
      assert Swapped(s', u) && Swapped(s', w);
    }
  }

  // ---------- a page comes in ----------

  /** Page v becomes resident in frame f with these bytes, at the end of the queue. */
  function PageIn(s: State, v: nat, f: nat, free: seq<nat>, page: Page): State
    requires v < |s.pte| == |s.meta|
  {
    s.(pte := s.pte[v := Pte(true, false, f)], meta := s.meta[v := Meta(-1, true)], ram := s.ram[f := page],
       free := free, count := s.count + 1, q := s.q + [v], view := s.view[v := page])
  }

  lemma PageInOk(s: State, v: nat, f: nat, free: seq<nat>, page: Page)
    requires Ok(s) && v < MAX_TOTAL_PAGES && !Resident(s, v) && s.free == [f] + free
    ensures Ok(PageIn(s, v, f, free, page))
  {
    var s' := PageIn(s, v, f, free, page);
    assert s.free[0] == f;
    forall u: nat | u < MAX_TOTAL_PAGES ensures PageOk(s', u) { assert PageOk(s, u); }
    assert PagesOk(s');
    PageInQueue(s, v, f, free, page);
    PageInFrames(s, v, f, free, page);
    forall u: nat | Swapped(s', u) ensures Swapped(s, u) && u != v { }
    assert SlotsOk(s');
  }

  /** The page that comes in does not undo a clash. */
  lemma PageInClashes(s: State, v: nat, f: nat, free: seq<nat>, page: Page, u: nat, w: nat)
    requires Clash(s, u, w) && v !in s.view && v < |s.pte| == |s.meta|
    ensures Clash(PageIn(s, v, f, free, page), u, w)
  {
  }

  lemma PageInQueue(s: State, v: nat, f: nat, free: seq<nat>, page: Page)
    requires QueueOk(s) && !Resident(s, v) && v < |s.pte| == |s.meta|
    ensures QueueOk(PageIn(s, v, f, free, page))
  {
    var s' := PageIn(s, v, f, free, page);
    assert v !in s.q;
    forall u: nat ensures u in s'.q <==> Resident(s', u) { assert u in s.q <==> Resident(s, u); }
  }

  lemma PageInFrames(s: State, v: nat, f: nat, free: seq<nat>, page: Page)
    requires FramesOk(s) && s.free == [f] + free && v < |s.pte| == |s.meta|
    ensures FramesOk(PageIn(s, v, f, free, page))
  {
    var s' := PageIn(s, v, f, free, page);
    assert s.free[0] == f;
    forall i | 0 <= i < |free| ensures free[i] == s.free[i + 1] && free[i] != f { }
    forall u: nat | Resident(s', u) && u != v ensures Resident(s, u) && s.pte[u].frame != f { }
  }

  // ---------- uvmunmap ----------

  /** Page v loses its frame or its slot. */
  function Unmap(s: State, v: nat): State
    requires v < |s.pte| == |s.meta|
  {
    var gone := s.(pte := s.pte[v := NOPTE], meta := s.meta[v := NOMETA], view := s.view - {v});
    if s.pte[v].valid then
      gone.(free := [s.pte[v].frame] + s.free, count := if s.count == 0 then 0 else s.count - 1, q := Removed(s.q, v))
    else gone
  }

  lemma UnmapOk(s: State, v: nat)
    requires Ok(s) && v < MAX_TOTAL_PAGES
    ensures Ok(Unmap(s, v))
  {
    var s' := Unmap(s, v);
    forall u: nat | u < MAX_TOTAL_PAGES ensures PageOk(s', u) { assert PageOk(s, u); }
    assert PagesOk(s');
    RemovedKeeps(s.q, v);
    forall u: nat ensures u in s'.q <==> Resident(s', u) { assert u in s.q <==> Resident(s, u); }
    assert QueueOk(s');
    forall u: nat | Resident(s', u) ensures Resident(s, u) && u != v { }
    assert FramesOk(s');
    forall u: nat | Swapped(s', u) ensures Swapped(s, u) && u != v { }
  }

  // ---------- the process writes its memory ----------

  function Store(s: State, v: nat, page: Page): State
    requires v < |s.pte|
  {
    s.(ram := s.ram[s.pte[v].frame := page], view := s.view[v := page])
  }

  lemma StoreOk(s: State, v: nat, page: Page)
    requires Ok(s) && Resident(s, v)
    ensures Ok(Store(s, v, page))
  {
    var s' := Store(s, v, page);
    assert PageOk(s, v);
    forall u: nat | u < MAX_TOTAL_PAGES ensures PageOk(s', u) { assert PageOk(s, u); }
    forall u: nat ensures Resident(s', u) == Resident(s, u) && Swapped(s', u) == Swapped(s, u) { }
    forall u: nat ensures u in s'.q <==> Resident(s', u) { assert u in s.q <==> Resident(s, u); }
  }

  // ---------- swap_in ----------

  /** kalloc(), and the page read into the frame. */
  function Taken(s: State, page: Page): State
    requires s.free != []
  {
    s.(free := s.free[1..], ram := s.ram[s.free[0] := page])
  }

  lemma TakenOk(s: State, page: Page)
    requires Ok(s) && s.free != []
    ensures Ok(Taken(s, page))
  {
    var s' := Taken(s, page);
    forall u: nat | u < MAX_TOTAL_PAGES ensures PageOk(s', u) { assert PageOk(s, u); }
    forall u: nat ensures Resident(s', u) == Resident(s, u) && Swapped(s', u) == Swapped(s, u) { }
    forall u: nat ensures u in s'.q <==> Resident(s', u) { assert u in s.q <==> Resident(s, u); }
    forall i | 0 <= i < |s'.free| ensures s'.free[i] == s.free[i + 1] { }
  }

  /** Exchanging page u for page v through v's slot: what swap_in() does when memory is full. */
  lemma ExchangeOk(s: State, u: nat, v: nat, q: seq<nat>)
    requires Ok(s) && s.free != [] && v < MAX_TOTAL_PAGES && v in s.view && !Resident(s, v) && Leaves(s.q, q, u)
    ensures PageOk(s, v) && PageOk(s, u) && u != v
    ensures var slot, page, f := s.meta[v].offset, s.swap[s.meta[v].offset], s.free[0];
      Ok(PageOut(PageIn(s, v, f, s.free[1..], page), u, slot, q + [v])) && s.view[v := page] == s.view
  {
    assert PageOk(s, v) && (u in s.q ==> Resident(s, u)) && PageOk(s, u);
    var slot, page, f := s.meta[v].offset, s.swap[s.meta[v].offset], s.free[0];
    assert s.free == [f] + s.free[1..];
    PageInOk(s, v, f, s.free[1..], page);
    var s1 := PageIn(s, v, f, s.free[1..], page);
    forall w: nat | Swapped(s1, w) ensures s1.meta[w].offset != slot { assert Swapped(s, v) && Swapped(s, w); }
    assert v !in s.q;
    PageOutOk(s1, u, slot, q + [v]);
  }

  /** The end of swap_in() and of a round of uvmalloc(): page v is resident in frame f. */
  function Entered(s: State, v: nat, f: nat): State
    requires v < |s.pte| == |s.meta|
  {
    s.(pte := s.pte[v := Pte(true, false, f)], meta := s.meta[v := Meta(-1, true)], count := s.count + 1,
       q := s.q + [v])
  }

  /** swap_in() with room in memory. */
  lemma SwapInOk(s: State, v: nat)
    requires Ok(s) && s.free != [] && v < MAX_TOTAL_PAGES && v in s.view && !Resident(s, v)
    ensures PageOk(s, v) && Ok(Entered(Taken(s, s.swap[s.meta[v].offset]), v, s.free[0]))
  {
    assert PageOk(s, v);
    var f, page := s.free[0], s.swap[s.meta[v].offset];
    assert s.free == [f] + s.free[1..];
    PageInOk(s, v, f, s.free[1..], page);
    assert s.view[v := page] == s.view;
    assert PageIn(s, v, f, s.free[1..], page) == Entered(Taken(s, page), v, f);
  }

  /** swap_in() with memory full, in the order of the code. */
  lemma SwapExchangeOk(s: State, u: nat, v: nat, q: seq<nat>)
    requires Ok(s) && s.free != [] && v < MAX_TOTAL_PAGES && v in s.view && !Resident(s, v) && Leaves(s.q, q, u)
    ensures PageOk(s, v) && PageOk(s, u) && u != v && u < MAX_TOTAL_PAGES
    ensures var slot, page, f := s.meta[v].offset, s.swap[s.meta[v].offset], s.free[0];
      s.pte[u].frame in s.ram && Ok(Entered(PageOut(Taken(s, page), u, slot, q), v, f))
  {
    ExchangeOk(s, u, v, q);
    assert u in s.q && Resident(s, u);
    var slot, page, f := s.meta[v].offset, s.swap[s.meta[v].offset], s.free[0];
    assert s.pte[u].frame != f;
    assert Entered(PageOut(Taken(s, page), u, slot, q), v, f) ==
      PageOut(PageIn(s, v, f, s.free[1..], page), u, slot, q + [v]);
  }

  // ---------- free slots of the swap file ----------

  /** How many of the slots below n are free. */
  ghost function FreeBelow(s: State, n: nat): nat {
    if n == 0 then 0 else FreeBelow(s, n - 1) + if SlotFree(s, n - 1) then 1 else 0
  }

  lemma {:induction false} FreeBelowSame(s: State, s': State, n: nat)
    requires forall i: int :: 0 <= i < n ==> SlotFree(s', i) == SlotFree(s, i)
    ensures FreeBelow(s', n) == FreeBelow(s, n)
  {
    if n > 0 { FreeBelowSame(s, s', n - 1); }
  }

  lemma {:induction false} FreeBelowTaken(s: State, s': State, n: nat, slot: nat)
    requires slot < n && SlotFree(s, slot)
    requires forall i: int :: 0 <= i < n ==> (SlotFree(s', i) <==> SlotFree(s, i) && i != slot)
    ensures FreeBelow(s', n) == FreeBelow(s, n) - 1
  {
    if slot < n - 1 { FreeBelowTaken(s, s', n - 1, slot); } else { FreeBelowSame(s, s', n - 1); }
  }

  lemma {:induction false} FreeBelowNone(s: State, n: nat)
    ensures FreeBelow(s, n) == 0 <==> forall i: int :: 0 <= i < n ==> !SlotFree(s, i)
  {
    if n > 0 { FreeBelowNone(s, n - 1); }
  }

  /** The lowest free slot is at or before the end of the swap file, so the write is accepted. */
  lemma LowestFits(s: State, r: nat)
    requires PagesOk(s) && forall i: int :: 0 <= i < r ==> !SlotFree(s, i)
    ensures r <= |s.swap|
  {
    forall v: nat | Swapped(s, v) ensures s.meta[v].offset != |s.swap| { assert PageOk(s, v); }
    assert SlotFree(s, |s.swap|);
  }

  lemma PageOutTakes(s: State, v: nat, slot: nat, q: seq<nat>, i: int)
    requires v < |s.pte| == |s.meta| && s.pte[v].frame in s.ram && slot <= |s.swap| && !Swapped(s, v)
    ensures SlotFree(PageOut(s, v, slot, q), i) <==> SlotFree(s, i) && i != slot
  {
    var s' := PageOut(s, v, slot, q);
    assert Swapped(s', v) && s'.meta[v].offset == slot;
    forall u: nat | u != v ensures Swapped(s', u) == Swapped(s, u) { }
    if SlotFree(s', i) {
      forall u: nat | Swapped(s, u) ensures s.meta[u].offset != i { assert Swapped(s', u); }
    }
  }

  lemma PageInTakesNone(s: State, v: nat, f: nat, free: seq<nat>, page: Page, i: int)
    requires v < |s.pte| == |s.meta| && !Swapped(s, v)
    ensures SlotFree(PageIn(s, v, f, free, page), i) == SlotFree(s, i)
  {
    var s' := PageIn(s, v, f, free, page);
    forall u: nat
      ensures Swapped(s', u) == Swapped(s, u) && (Swapped(s, u) ==> s'.meta[u].offset == s.meta[u].offset)
    {
    }
  }

  // ---------- frames are conserved ----------

  ghost function Use(e: Pte, f: nat): nat { if e.valid && e.frame == f then 1 else 0 }

  /** How many of the entries from lo to hi have frame f. */
  ghost function Uses(es: seq<Pte>, lo: nat, hi: nat, f: nat): nat
    requires hi <= |es|
  {
    if hi <= lo then 0 else Uses(es, lo, hi - 1, f) + Use(es[hi - 1], f)
  }

  ghost function Free(free: seq<nat>, f: nat): nat { multiset(free)[f] }

  /** How often frame f is free or in use. */
  ghost function Owned(s: State, f: nat): nat { Free(s.free, f) + Uses(s.pte, 0, |s.pte|, f) }

  /** No frame is lost and none is gained. */
  ghost predicate SameFrames(s: State, s': State) { forall f: nat :: Owned(s', f) == Owned(s, f) }

  /** The free list has gained the frames of the entries from lo to hi, once each. */
  ghost predicate GivenBack(free: seq<nat>, free': seq<nat>, es: seq<Pte>, lo: nat, hi: nat)
    requires hi <= |es|
  {
    forall f: nat :: Free(free', f) == Free(free, f) + Uses(es, lo, hi, f)
  }

  lemma {:induction false} UsesSame(es: seq<Pte>, es': seq<Pte>, lo: nat, hi: nat, f: nat)
    requires hi <= |es| && hi <= |es'| && forall i :: lo <= i < hi ==> Use(es'[i], f) == Use(es[i], f)
    ensures Uses(es', lo, hi, f) == Uses(es, lo, hi, f)
  {
    if lo < hi { UsesSame(es, es', lo, hi - 1, f); }
  }

  lemma {:induction false} UsesUpdate(es: seq<Pte>, v: nat, e: Pte, n: nat, f: nat)
    requires v < n <= |es|
    ensures Uses(es[v := e], 0, n, f) + Use(es[v], f) == Uses(es, 0, n, f) + Use(e, f)
  {
    if v < n - 1 { UsesUpdate(es, v, e, n - 1, f); } else { UsesSame(es, es[v := e], 0, v, f); }
  }

  lemma {:induction false} UsesSplit(es: seq<Pte>, lo: nat, k: nat, hi: nat, f: nat)
    requires lo <= k <= hi <= |es|
    ensures Uses(es, lo, hi, f) == Uses(es, lo, k, f) + Uses(es, k, hi, f)
  {
    if k < hi { UsesSplit(es, lo, k, hi - 1, f); }
  }

  lemma {:induction false} UsesNone(es: seq<Pte>, lo: nat, hi: nat, f: nat)
    requires hi <= |es| && forall i :: lo <= i < hi ==> !es[i].valid
    ensures Uses(es, lo, hi, f) == 0
  {
    if lo < hi { UsesNone(es, lo, hi - 1, f); }
  }

  lemma PushFrame(g: nat, free: seq<nat>, f: nat)
    ensures Free([g] + free, f) == Free(free, f) + if f == g then 1 else 0
  {
    assert multiset([g] + free) == multiset{g} + multiset(free);
  }

  lemma PageOutFramesSame(s: State, v: nat, slot: nat, q: seq<nat>)
    requires v < |s.pte| == |s.meta| && s.pte[v].valid && s.pte[v].frame in s.ram && slot <= |s.swap|
    ensures SameFrames(s, PageOut(s, v, slot, q))
  {
    var g := s.pte[v].frame;
    forall f: nat ensures Owned(PageOut(s, v, slot, q), f) == Owned(s, f) {
      UsesUpdate(s.pte, v, Pte(false, true, g), |s.pte|, f);
      PushFrame(g, s.free, f);
    }
  }

  lemma PageInFramesSame(s: State, v: nat, g: nat, free: seq<nat>, page: Page)
    requires v < |s.pte| == |s.meta| && !s.pte[v].valid && s.free == [g] + free
    ensures SameFrames(s, PageIn(s, v, g, free, page))
  {
    forall f: nat ensures Owned(PageIn(s, v, g, free, page), f) == Owned(s, f) {
      UsesUpdate(s.pte, v, Pte(true, false, g), |s.pte|, f);
      PushFrame(g, free, f);
    }
  }

  lemma UnmapFramesSame(s: State, v: nat)
    requires v < |s.pte| == |s.meta|
    ensures SameFrames(s, Unmap(s, v)) && GivenBack(s.free, Unmap(s, v).free, s.pte, v, v + 1)
  {
    var s' := Unmap(s, v);
    forall f: nat ensures Owned(s', f) == Owned(s, f) && Free(s'.free, f) == Free(s.free, f) + Use(s.pte[v], f) {
      UsesUpdate(s.pte, v, NOPTE, |s.pte|, f);
      PushFrame(s.pte[v].frame, s.free, f);
    }
    forall f: nat ensures Free(s'.free, f) == Free(s.free, f) + Uses(s.pte, v, v + 1, f) {
      assert Uses(s.pte, v, v, f) == 0;
    }
  }

  /** swap_in() takes a frame first and gives it to the page last. */
  lemma SwapFramesSame(s: State, s1: State, v: nat, page: Page)
    requires s.free != [] && v < |s1.pte| == |s1.meta| && !s1.pte[v].valid && SameFrames(Taken(s, page), s1)
    ensures SameFrames(s, Entered(s1, v, s.free[0]))
  {
    var g := s.free[0];
    assert s.free == [g] + s.free[1..];
    forall f: nat ensures Owned(Entered(s1, v, g), f) == Owned(s, f) {
      assert Owned(s1, f) == Owned(Taken(s, page), f);
      UsesUpdate(s1.pte, v, Pte(true, false, g), |s1.pte|, f);
      PushFrame(g, s.free[1..], f);
    }
  }

  /** Growing without a page-out, and giving the new pages from n to a back, returns every frame. */
  lemma RolledBack(s0: State, s: State, n: nat, a: nat)
    requires |s0.pte| == |s.pte| && n <= a <= |s.pte| && SameFrames(s0, s)
    requires forall v: nat :: v < n ==> s.pte[v] == s0.pte[v]
    requires (forall v: nat :: n <= v < |s0.pte| ==> !s0.pte[v].valid) &&
      forall v: nat :: a <= v < |s.pte| ==> !s.pte[v].valid
    ensures GivenBack(s.free, s0.free, s.pte, n, a)
  {
    forall f: nat ensures Free(s0.free, f) == Free(s.free, f) + Uses(s.pte, n, a, f) {
      assert Owned(s, f) == Owned(s0, f);
      UsesSplit(s0.pte, 0, n, |s0.pte|, f);
      UsesNone(s0.pte, n, |s0.pte|, f);
      UsesSplit(s.pte, 0, a, |s.pte|, f);
      UsesSplit(s.pte, 0, n, a, f);
      UsesNone(s.pte, a, |s.pte|, f);
      UsesSame(s0.pte, s.pte, 0, n, f);
    }
  }

  lemma GivenBackMore(free0: seq<nat>, free: seq<nat>, free': seq<nat>, es: seq<Pte>, es': seq<Pte>, lo: nat, v: nat)
    requires lo <= v < |es| == |es'| && es[v] == es'[v]
    requires GivenBack(free0, free, es, lo, v) && GivenBack(free, free', es', v, v + 1)
    ensures GivenBack(free0, free', es, lo, v + 1)
  {
    forall f: nat ensures Free(free', f) == Free(free0, f) + Uses(es, lo, v + 1, f) {
      assert Free(free', f) == Free(free, f) + Uses(es', v, v + 1, f);
      assert Free(free, f) == Free(free0, f) + Uses(es, lo, v, f);
    }
  }

  lemma SameFree(free0: seq<nat>, free: seq<nat>, free': seq<nat>, es: seq<Pte>, lo: nat, hi: nat)
    requires hi <= |es| && GivenBack(free, free0, es, lo, hi) && GivenBack(free, free', es, lo, hi)
    ensures multiset(free') == multiset(free0)
  {
    forall f: nat ensures multiset(free')[f] == multiset(free0)[f] {
      assert Free(free', f) == Free(free, f) + Uses(es, lo, hi, f);
      assert Free(free0, f) == Free(free, f) + Uses(es, lo, hi, f);
    }
  }
}
