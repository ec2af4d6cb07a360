/** Demand paging of one process in vm.c: growing, shrinking, page faults and page-outs with
    second-chance replacement.  Swap-file offsets are counted in pages. */
module Paging {
  import opened Common
  import opened PageQueue
  import opened PagingState

  /** The victim of second chance. */
  function Victim(q: seq<nat>, accessed: seq<bool>): nat
    requires q != []
  {
    var k := FirstClear(q, accessed);
    if k < |q| then q[k] else q[0]
  }

  /** The queue after second chance took its victim out. */
  function AfterVictim(q: seq<nat>, accessed: seq<bool>): seq<nat>
    requires q != []
  {
    var k := FirstClear(q, accessed);
    if k < |q| then q[k + 1..] + q[..k] else q[1..]
  }

  lemma VictimLeaves(q: seq<nat>, accessed: seq<bool>)
    requires Distinct(q) && q != []
    ensures Leaves(q, AfterVictim(q, accessed), Victim(q, accessed))
  {
    var k := FirstClear(q, accessed);
    var j := if k < |q| then k else 0;
    var r := AfterVictim(q, accessed);
    assert r == q[j + 1..] + q[..j];
    forall u | u in q && u != q[j] ensures u in r {
      var i :| 0 <= i < |q| && q[i] == u;
      assert u == r[if i > j then i - j - 1 else i + (|q| - j - 1)];
    }
    forall i | 0 <= i < |r| ensures r[i] == q[if i < |q| - j - 1 then i + j + 1 else i - (|q| - j - 1)] { }
  }

  lemma VictimResident(s: State, accessed: seq<bool>)
    requires Ok(s) && s.q != []
    ensures var v := Victim(s.q, accessed);
      Leaves(s.q, AfterVictim(s.q, accessed), v) && Resident(s, v) && PageOk(s, v)
  {
    VictimLeaves(s.q, accessed);
    var v := Victim(s.q, accessed);
    assert v in s.q && Resident(s, v);
    assert PageOk(s, v);
  }

  lemma QueuePages(s: State)
    requires Ok(s)
    ensures forall p :: p in s.q ==> p < MAX_TOTAL_PAGES
  {
    forall p | p in s.q ensures p < MAX_TOTAL_PAGES { assert Resident(s, p); }
  }

  /** How many page-outs getOffset() has a free slot for; it also hands out slot 0 when n is 0. */
  ghost function Slots(s: State, n: nat): nat { FreeBelow(s, if n == 0 then 1 else n) }

  /** With nothing swapped out there is one free slot per page of the old size. */
  lemma {:induction false} UnswappedSlots(s: State, n: nat)
    requires forall v: nat :: !Swapped(s, v)
    ensures FreeBelow(s, n) == n && Slots(s, n) == if n == 0 then 1 else n
  {
    if n > 0 { UnswappedSlots(s, n - 1); }
  }

  lemma EmptySlots(s: State, n: nat)
    requires PagesOk(s) && s.view == map[]
    ensures Slots(s, n) == if n == 0 then 1 else n
  {
    forall v: nat ensures !Swapped(s, v) { assert v < |s.meta| ==> PageOk(s, v); }
    UnswappedSlots(s, n);
  }

  /** From s0 to s, `used` slots below n were taken, and no other. */
  ghost predicate Used(s0: State, s: State, n: nat, used: int) {
    forall m: nat :: m >= n ==> Slots(s, m) + used == Slots(s0, m)
  }

  function ZeroPage(): Page { Page(seq(PGSIZE, _ => 0)) }

  /** What kalloc() leaves in a page. */
  function JunkPage(): Page { Page(seq(PGSIZE, _ => 5)) }

  datatype Growth = Grown | NoMemory | Collided

  /** One round of uvmalloc() with memory full: page u out to the slot, page v in. */
  lemma ReplaceOk(s: State, u: nat, slot: nat, q: seq<nat>, v: nat, page: Page, n: nat)
    requires Ok(s) && Leaves(s.q, q, u) && SlotFree(s, slot) && slot <= |s.swap| && v < MAX_TOTAL_PAGES && v !in s.view
    requires slot < n || (n == 0 && slot == 0)
    ensures Resident(s, u) && PageOk(s, u)
    ensures var s1 := PageOut(s, u, slot, q);
      var s2 := PageIn(s1, v, s1.free[0], s1.free[1..], page);
      Ok(s2) && Used(s, s2, n, 1)
  {
    PageOutOk(s, u, slot, q);
    assert PageOk(s, v);
    var s1 := PageOut(s, u, slot, q);
    var s2 := PageIn(s1, v, s1.free[0], s1.free[1..], page);
    assert PageOk(s1, v);
    PageInOk(s1, v, s1.free[0], s1.free[1..], page);
    forall i: int ensures SlotFree(s2, i) <==> SlotFree(s, i) && i != slot {
      PageOutTakes(s, u, slot, q, i);
      PageInTakesNone(s1, v, s1.free[0], s1.free[1..], page, i);
    }
    forall m: nat | m >= n ensures Slots(s2, m) + 1 == Slots(s, m) {
      FreeBelowTaken(s, s2, if m == 0 then 1 else m, slot);
    }
  }

  /** One round of uvmalloc() with room in memory. */
  lemma AddOk(s: State, v: nat, page: Page, n: nat)
    requires Ok(s) && s.free != [] && v < MAX_TOTAL_PAGES && v !in s.view
    ensures var s2 := PageIn(s, v, s.free[0], s.free[1..], page);
      |s.pte| == |s.meta| == MAX_TOTAL_PAGES && Ok(s2) && Used(s, s2, n, 0)
  {
    assert PageOk(s, v);
    assert s.free == [s.free[0]] + s.free[1..];
    var s2 := PageIn(s, v, s.free[0], s.free[1..], page);
    PageInOk(s, v, s.free[0], s.free[1..], page);
    forall i: int ensures SlotFree(s2, i) == SlotFree(s, i) {
      PageInTakesNone(s, v, s.free[0], s.free[1..], page, i);
    }
    forall m: nat ensures Slots(s2, m) == Slots(s, m) { FreeBelowSame(s, s2, if m == 0 then 1 else m); }
  }

  /** The new page takes the first free frame. */
  lemma AddFramesSame(s: State, s1: State, v: nat, page: Page)
    requires PagesOk(s) && v < MAX_TOTAL_PAGES && v !in s.view && s1.free != [] && |s1.pte| == |s1.meta| == |s.pte|
    requires s1.pte[v] == s.pte[v]
    ensures SameFrames(s1, PageIn(s1, v, s1.free[0], s1.free[1..], page))
  {
    assert PageOk(s, v);
    assert s1.free == [s1.free[0]] + s1.free[1..];
    PageInFramesSame(s1, v, s1.free[0], s1.free[1..], page);
  }

  ghost predicate Sized(view: map<nat, Page>, n: nat) { forall v: nat :: v in view <==> v < n }

  /** Pages lo to v are gone, and their frames are free. */
  ghost predicate Unmapped(s0: State, s: State, lo: nat, v: nat)
    requires v <= |s0.pte|
  {
    s.view == Below(s0.view, lo, v) && SameFrames(s0, s) && |s.pte| == |s0.pte| &&
    (forall i :: v <= i < |s.pte| ==> s.pte[i] == s0.pte[i]) && GivenBack(s0.free, s.free, s0.pte, lo, v)
  }

  lemma UnmappedMore(s0: State, s: State, lo: nat, v: nat)
    requires lo <= v < |s0.pte| && |s.pte| == |s.meta| && Unmapped(s0, s, lo, v)
    ensures Unmapped(s0, Unmap(s, v), lo, v + 1)
  {
    var s' := Unmap(s, v);
    UnmapFramesSame(s, v);
    GivenBackMore(s0.free, s.free, s'.free, s0.pte, s.pte, lo, v);
    assert s'.view == Below(s0.view, lo, v + 1);
    forall f: nat ensures Owned(s', f) == Owned(s0, f) { assert Owned(s', f) == Owned(s, f); }
  }

  /** What uvmalloc() fills a new page with, after j others: it clears pages only while there is
      room in memory. */
  function NewPage(count0: int, j: int): Page { if j < MAX_PSYC_PAGES - count0 then ZeroPage() else JunkPage() }

  /** uvmalloc() from state s0, with n pages, has come to page a. */
  ghost predicate GrewTo(s0: State, s: State, n: nat, a: nat) {
    Sized(s.view, a) && (forall v :: v in s0.view ==> v in s.view && s.view[v] == s0.view[v]) &&
    (forall v: nat :: n <= v < a ==> v in s.view && s.view[v] == NewPage(s0.count, v - n)) &&
    Progress(s0.count, |s0.free|, a - n, s.count, |s.free|) && Used(s0, s, n, PageOuts(s0.count, a - n)) &&
    SameFrames(s0, s) && |s.pte| == |s0.pte| &&
    (PageOuts(s0.count, a - n) == 0 ==> forall v: nat :: v < n && v < |s.pte| ==> s.pte[v] == s0.pte[v])
  }

  lemma GrewNothing(s: State, n: nat)
    requires Ok(s) && Sized(s.view, n) && s.count <= MAX_PSYC_PAGES
    ensures GrewTo(s, s, n, n)
  {
  }

  /** The state after a round that grew. */
  ghost predicate GrewPage(s: State, s': State, v: nat, n: nat) {
    SameFrames(s, s') && |s'.pte| == |s.pte| &&
    if s.count < MAX_PSYC_PAGES then
      s'.view == s.view[v := ZeroPage()] && s'.count == s.count + 1 && |s'.free| == |s.free| - 1 && Used(s, s', n, 0) &&
      forall u: nat :: u < |s.pte| && u != v ==> s'.pte[u] == s.pte[u]
    else
      s'.view == s.view[v := JunkPage()] && s'.count == s.count && |s'.free| == |s.free| && Used(s, s', n, 1)
  }

  lemma GrewMore(s0: State, s: State, s': State, n: nat, a: nat)
    requires GrewTo(s0, s, n, a) && GrewPage(s, s', a, n) && n <= a && s0.count <= MAX_PSYC_PAGES && Sized(s0.view, n)
    ensures GrewTo(s0, s', n, a + 1)
  {
    forall f: nat ensures Owned(s', f) == Owned(s0, f) { assert Owned(s', f) == Owned(s, f); }
    forall m: nat | m >= n ensures Slots(s', m) + PageOuts(s0.count, a + 1 - n) == Slots(s0, m) {
      assert Slots(s, m) + PageOuts(s0.count, a - n) == Slots(s0, m);
    }
  }

  lemma GrewBack(s0: State, s: State, n: nat, a: nat)
    requires PagesOk(s0) && PagesOk(s) && Sized(s0.view, n) && Sized(s.view, a) && n <= a <= MAX_TOTAL_PAGES
    requires (forall v: nat :: v < n ==> s.pte[v] == s0.pte[v]) && SameFrames(s0, s)
    ensures GivenBack(s.free, s0.free, s.pte, n, a)
  {
    forall v: nat | n <= v < |s0.pte| ensures !s0.pte[v].valid { assert PageOk(s0, v); }
    forall v: nat | a <= v < |s.pte| ensures !s.pte[v].valid { assert PageOk(s, v); }
    RolledBack(s0, s, n, a);
  }

  function Below(view: map<nat, Page>, lo: nat, hi: nat): map<nat, Page> {
    map v | v in view && !(lo <= v < hi) :: view[v]
  }

  /** The counters of uvmalloc() after j pages: memory fills up first, then slots are used up. */
  ghost predicate Progress(count0: int, frames0: int, j: int, count: int, frames: int) {
    var room := MAX_PSYC_PAGES - count0;
    if j <= room then count == count0 + j && frames == frames0 - j
    else count == MAX_PSYC_PAGES && frames == frames0 - room
  }

  /** How many page-outs j new pages take. */
  function PageOuts(count0: int, j: int): int {
    if j <= MAX_PSYC_PAGES - count0 then 0 else j - (MAX_PSYC_PAGES - count0)
  }

  datatype FaultOutcome = Served | Killed | OutOfFrames | BeyondMaxva

  class Process {
    var sz: nat
    var pte: seq<Pte>
    var meta: seq<Meta>
    var ram: map<nat, Page>
    var free: seq<nat>
    var swap: seq<Page>
    var pagesInMemory: int
    const queue: Queue
    const accessed: array<bool>
    ghost var view: map<nat, Page>

    ghost function S(): State
      reads this, queue
    {
      State(pte, meta, ram, free, swap, pagesInMemory, queue.q, view)
    }

    ghost predicate Valid()
      reads this, queue, queue.pages
    {
      queue.Valid() && accessed.Length == MAX_TOTAL_PAGES && pagesInMemory <= MAX_PSYC_PAGES && Ok(S())
    }

    /** A process without memory, as allocproc() leaves it, over these free frames. */
    constructor (frames: seq<nat>)
      requires Distinct(frames)
      ensures Valid() && sz == 0 && view == map[] && free == frames && pagesInMemory == 0 && fresh(queue) &&
        fresh(queue.pages) && fresh(accessed)
    {
      sz, view, ram, free, swap, pagesInMemory := 0, map[], map[], frames, [], 0;
      pte := seq(MAX_TOTAL_PAGES, _ => NOPTE);
      meta := seq(MAX_TOTAL_PAGES, _ => NOMETA);
      queue := new Queue();
      accessed := new bool[MAX_TOTAL_PAGES];
    }

    /** getOffset(): the first slot below n that no page has, or 0 if there is none. */
    method GetOffset(n: nat) returns (r: nat)
      requires |meta| == MAX_TOTAL_PAGES
      ensures Slots(S(), n) > 0 <==> SlotFree(S(), r)
      ensures SlotFree(S(), r) ==> (r < n || r == 0) && forall i: int :: 0 <= i < r ==> !SlotFree(S(), i)
      ensures !SlotFree(S(), r) ==> r == 0
    {
      FreeBelowNone(S(), if n == 0 then 1 else n);
      r := 0;
      while r < n
        invariant 0 <= r <= n && forall i: int :: 0 <= i < r ==> !SlotFree(S(), i)
      {
        var inUse := false;
        var j := 0;
        while j < MAX_TOTAL_PAGES && !inUse
          invariant 0 <= j <= MAX_TOTAL_PAGES
          invariant inUse ==> !SlotFree(S(), r)
          invariant !inUse ==> forall v: nat :: v < j ==> meta[v].offset != r
        {
          if meta[j].offset == r {
            assert Swapped(S(), j);
            inUse := true;
          }
          j := j + 1;
        }
        if !inUse {
          assert SlotFree(S(), r);
          return;
        }
        r := r + 1;
      }
      r := 0;
    }

    /** getIndexToRemove() */
    method ChooseVictim() returns (index: nat)
      requires Valid() && queue.q != []
      modifies queue, queue.pages, accessed
      ensures queue.Valid() && index == Victim(old(queue.q), old(accessed[..])) &&
        queue.q == AfterVictim(old(queue.q), old(accessed[..]))
    {
      QueuePages(S());
      index := queue.Scfifo(accessed);
    }

    /** page_to_file(): the victim's bytes go to the slot.  False for its panic, which is reached
        exactly when the slot lies beyond the end of the swap file. */
    method PageToFile(slot: nat) returns (ok: bool, ghost v: nat)
      requires Valid() && queue.q != []
      modifies this`pte, this`meta, this`free, this`swap, this`pagesInMemory, queue, queue.pages, accessed
      ensures ok <==> slot <= |old(swap)|
      ensures v == Victim(old(queue.q), old(accessed[..])) && Leaves(old(queue.q), queue.q, v)
      ensures Resident(old(S()), v) && PageOk(old(S()), v) && queue.Valid()
      ensures ok ==> S() == PageOut(old(S()), v, slot, queue.q) && SameFrames(old(S()), S())
    {
      ghost var s := S();
      VictimResident(S(), accessed[..]);
      var index := ChooseVictim();
      v := index;
      if slot > |swap| {
        return false, v;
      }
      var pha := pte[index].frame;
      swap := if slot < |swap| then swap[slot := ram[pha]] else swap + [ram[pha]];
      free := [pha] + free;
      pte := pte[index := Pte(false, true, pha)];
      meta := meta[index := Meta(slot, false)];
      pagesInMemory := pagesInMemory - 1;
      PageOutFramesSame(s, v, slot, queue.q);
      ok := true;
    }

    method Enter(v: nat, f: nat)
      requires queue.Valid() && v < |pte| == |meta| && |queue.q| < MAX_TOTAL_PAGES
      modifies this`pte, this`meta, this`pagesInMemory, queue, queue.pages
      ensures queue.Valid() && S() == Entered(old(S()), v, f)
    {
      pte := pte[v := Pte(true, false, f)];
      queue.In(v);
      meta := meta[v := Meta(-1, true)];
      pagesInMemory := pagesInMemory + 1;
    }

    /** swap_in(): page v becomes resident with its bytes, and no byte of any page changes.
        False for its panic, when there is no free frame. */
    method SwapIn(v: nat) returns (ok: bool)
      requires Valid() && v in view && !Resident(S(), v)
      modifies this`pte, this`meta, this`ram, this`free, this`swap, this`pagesInMemory, queue, queue.pages, accessed
      ensures ok <==> old(free) != []
      ensures ok ==> Valid() && Resident(S(), v) && SameFrames(old(S()), S())
    {
      ghost var s := S();
      assert PageOk(s, v);
      if |free| == 0 {
        return false;
      }
      SwapInOk(s, v);
      var pageOffset, buff := meta[v].offset, free[0];
      TakenOk(s, swap[pageOffset]);
      ghost var page := swap[pageOffset];
      free, ram := free[1..], ram[buff := swap[pageOffset]];
      if pagesInMemory >= MAX_PSYC_PAGES {
        ghost var u;
        ok, u := PageToFile(pageOffset);
        SwapExchangeOk(s, u, v, queue.q);
      }
      SwapFramesSame(s, S(), v, page);
      Enter(v, buff);
      ok := true;
    }

    /** A page fault at page v: the page is brought in, or the process is killed because the page
        is not in the swap file, or swap_in() panics for lack of a frame, or walk() panics beyond
        MAXVA. */
    method Fault(v: nat) returns (r: FaultOutcome)
      requires Valid()
      modifies this`pte, this`meta, this`ram, this`free, this`swap, this`pagesInMemory, queue, queue.pages, accessed
      ensures r == BeyondMaxva <==> v >= MAXVPN
      ensures r == Killed <==> v < MAXVPN && !(v in view && !Resident(old(S()), v))
      ensures r == OutOfFrames <==> v in view && !Resident(old(S()), v) && old(free) == []
      ensures r == Served ==> Valid() && Resident(S(), v) && SameFrames(old(S()), S())
      ensures r == Killed ==> Valid() && S() == old(S())
    {
      if v >= MAXVPN {
        return BeyondMaxva;
      }
      assert v < MAX_TOTAL_PAGES ==> PageOk(S(), v);
      if v < MAX_TOTAL_PAGES && pte[v].pg {
        var ok := SwapIn(v);
        r := if ok then Served else OutOfFrames;
      } else {
        r := Killed;
      }
    }

    /** The process writes to a resident page. */
    method Write(v: nat, page: Page)
      requires Valid() && Resident(S(), v)
      modifies this`ram, this`view, accessed
      ensures Valid() && view == old(view)[v := page]
    {
      StoreOk(S(), v, page);
      assert PageOk(S(), v);
      ram := ram[pte[v].frame := page];
      if v < accessed.Length {
        accessed[v] := true;
      }
      view := view[v := page];
    }

    /** kalloc() for a new page, with these contents after uvmalloc() is done with it. */
    method AddPage(v: nat, page: Page)
      requires queue.Valid() && free != [] && v < |pte| == |meta| && |queue.q| < MAX_TOTAL_PAGES
      modifies this`pte, this`meta, this`ram, this`free, this`pagesInMemory, this`view, queue, queue.pages
      ensures queue.Valid() && S() == PageIn(old(S()), v, old(free)[0], old(free)[1..], page)
    {
      var mem := free[0];
      free, ram := free[1..], ram[mem := page];
      view := view[v := page];
      Enter(v, mem);
    }

    /** A page-out to a slot that another page has, and the new page. */
    method CollidePage(v: nat, slot: nat, ghost w: nat)
      requires Valid() && v < MAX_TOTAL_PAGES && v !in view && queue.q != [] && Swapped(S(), w) &&
        meta[w].offset == slot
      modifies this`pte, this`meta, this`ram, this`free, this`swap, this`pagesInMemory, this`view
      modifies queue, queue.pages, accessed
      ensures exists u: nat :: Clash(S(), u, w)
    {
      ghost var s := S();
      VictimResident(s, accessed[..]);
      ghost var u;
      var ok;
      assert PageOk(s, w);
      ok, u := PageToFile(slot);
      ghost var s1 := S();
      PageOutClashes(s, u, slot, queue.q, w);
      AddPage(v, JunkPage());
      PageInClashes(s1, v, s1.free[0], s1.free[1..], JunkPage(), u, w);
    }

    /** One round of uvmalloc()'s loop.  It is a collision when getOffset() found no free slot and
        the page-out has overwritten the bytes of another page. */
    method GrowPage(v: nat, n: nat) returns (r: Growth)
      requires Valid() && v < MAX_TOTAL_PAGES && v !in view
      modifies this`pte, this`meta, this`ram, this`free, this`swap, this`pagesInMemory, this`view
      modifies queue, queue.pages, accessed
      ensures r == NoMemory <==> old(pagesInMemory) < MAX_PSYC_PAGES && old(free) == []
      ensures r == Collided <==> old(pagesInMemory) == MAX_PSYC_PAGES && Slots(old(S()), n) == 0
      ensures r == NoMemory ==> Valid() && S() == old(S())
      ensures r == Collided ==> exists u: nat, w: nat :: Clash(S(), u, w)
      ensures r == Grown ==> Valid() && GrewPage(old(S()), S(), v, n)
    {
      ghost var s := S();
      if pagesInMemory >= MAX_PSYC_PAGES {
        var offset := GetOffset(n);
        if SlotTaken(meta, offset) {
          ghost var w :| 0 <= w < |meta| && meta[w].offset == offset;
          assert Swapped(s, w);
          CollidePage(v, offset, w);
          return Collided;
        }
        LowestFits(s, offset);
        ghost var u;
        var ok;
        ok, u := PageToFile(offset);
        ReplaceOk(s, u, offset, queue.q, v, JunkPage(), n);
        AddFramesSame(s, S(), v, JunkPage());
        AddPage(v, JunkPage());
      } else {
        if |free| == 0 {
          return NoMemory;
        }
        AddOk(s, v, ZeroPage(), n);
        AddFramesSame(s, s, v, ZeroPage());
        AddPage(v, ZeroPage());
      }
      r := Grown;
    }

    /** The body of uvmunmap()'s loop, freeing. */
    method UnmapPage(v: nat)
      requires Valid() && v < MAX_TOTAL_PAGES
      modifies this`pte, this`meta, this`free, this`pagesInMemory, this`view, queue, queue.pages
      ensures Valid() && S() == Unmap(old(S()), v) && SameFrames(old(S()), S())
      ensures GivenBack(old(free), free, old(pte), v, v + 1)
    {
      UnmapOk(S(), v);
      UnmapFramesSame(S(), v);
      if pte[v].valid {
        free := [pte[v].frame] + free;
        pagesInMemory := if pagesInMemory == 0 then 0 else pagesInMemory - 1;
        queue.RemovePage(v);
      }
      meta := meta[v := NOMETA];
      pte := pte[v := NOPTE];
      view := view - {v};
    }

    /** uvmdealloc() on pages lo to hi. */
    method Dealloc(lo: nat, hi: nat)
      requires Valid() && lo <= hi <= MAX_TOTAL_PAGES
      modifies this`pte, this`meta, this`free, this`pagesInMemory, this`view, queue, queue.pages
      ensures Valid() && view == Below(old(view), lo, hi) && SameFrames(old(S()), S())
      ensures GivenBack(old(free), free, old(pte), lo, hi)
    {
      var v := lo;
      while v < hi
        invariant lo <= v <= hi && Valid() && Unmapped(old(S()), S(), lo, v)
      {
        UnmappedMore(old(S()), S(), lo, v);
        UnmapPage(v);
        v := v + 1;
      }
    }

    /** growproc(n) with n < 0. */
    method Shrink(newsz: nat)
      requires Valid() && Sized(view, PagesIn(sz)) && PagesIn(sz) <= MAX_TOTAL_PAGES && newsz < sz
      modifies this`sz, this`pte, this`meta, this`free, this`pagesInMemory, this`view, queue, queue.pages
      ensures Valid() && sz == newsz && Sized(view, PagesIn(sz)) && forall v :: v in view ==> view[v] == old(view)[v]
      ensures SameFrames(old(S()), S())
      ensures GivenBack(old(free), free, old(pte), PagesIn(newsz), PagesIn(old(sz)))
    {
      if PagesIn(newsz) < PagesIn(sz) {
        Dealloc(PagesIn(newsz), PagesIn(sz));
      }
      sz := newsz;
    }

    /** growproc(n) with n > 0.  The pages the process had keep their bytes.  Memory runs out
        exactly when there are fewer free frames than pages that must stay in memory, and a
        page-out overwrites another page exactly when there are more page-outs than slots that
        were free below the old size. */
    method Grow(newsz: nat) returns (r: Growth)
      requires Valid() && Sized(view, PagesIn(sz)) && sz < newsz && PagesIn(newsz) <= MAX_TOTAL_PAGES
      modifies this, queue, queue.pages, accessed
      ensures r == Grown ==> Valid() && sz == newsz && Sized(view, PagesIn(sz))
      ensures r == NoMemory ==> Valid() && sz == old(sz) && view == old(view) && multiset(free) == multiset(old(free))
      ensures r == Grown ==> forall v: nat :: PagesIn(old(sz)) <= v < PagesIn(newsz) ==>
        view[v] == NewPage(old(pagesInMemory), v - PagesIn(old(sz)))
      ensures r != Collided ==> SameFrames(old(S()), S())
      ensures r != Collided ==> forall v :: v in old(view) ==> v in view && view[v] == old(view)[v]
      ensures r == Collided ==> exists u: nat, w: nat :: Clash(S(), u, w)
      ensures var k, room := PagesIn(newsz) - PagesIn(old(sz)), MAX_PSYC_PAGES - old(pagesInMemory);
        (r == NoMemory <==> k > |old(free)| && room > |old(free)|) &&
        (r == Collided <==> !(k > |old(free)| && room > |old(free)|) && k - room > Slots(old(S()), PagesIn(old(sz))))
      ensures r == Grown ==>
        Progress(old(pagesInMemory), |old(free)|, PagesIn(newsz) - PagesIn(old(sz)), pagesInMemory, |free|)
      ensures r == Grown ==>
        Used(old(S()), S(), PagesIn(old(sz)), PageOuts(old(pagesInMemory), PagesIn(newsz) - PagesIn(old(sz))))
    {
      r := Uvmalloc(PagesIn(sz), PagesIn(newsz));
      if r == Grown {
        sz := newsz;
      }
    }

    /** uvmalloc() from n pages to m. */
    method Uvmalloc(n: nat, m: nat) returns (r: Growth)
      requires Valid() && Sized(view, n) && n <= m <= MAX_TOTAL_PAGES
      modifies this`pte, this`meta, this`ram, this`free, this`swap, this`pagesInMemory, this`view
      modifies queue, queue.pages, accessed
      ensures r == Grown ==> Valid() && GrewTo(old(S()), S(), n, m)
      ensures r == NoMemory ==>
        Valid() && view == old(view) && multiset(free) == multiset(old(free)) && SameFrames(old(S()), S())
      ensures r == Collided ==> exists u: nat, w: nat :: Clash(S(), u, w)
      ensures r == NoMemory <==> m - n > |old(free)| && MAX_PSYC_PAGES - old(pagesInMemory) > |old(free)|
      ensures r == Collided <==>
        r != NoMemory && m - n - (MAX_PSYC_PAGES - old(pagesInMemory)) > Slots(old(S()), n)
    {
      ghost var s0 := S();
      var a := n;
      GrewNothing(s0, n);
      while a < m
        invariant n <= a <= m && Valid() && GrewTo(s0, S(), n, a)
      {
        r := GrowNext(s0, n, a);
        if r != Grown {
          return;
        }
        a := a + 1;
      }
      assert Slots(S(), n) + PageOuts(s0.count, a - n) == Slots(s0, n);
      r := Grown;
    }

    /** A round of uvmalloc()'s loop after pages n to a, with the roll-back. */
    method GrowNext(ghost s0: State, n: nat, a: nat) returns (r: Growth)
      requires Valid() && Ok(s0) && s0.count <= MAX_PSYC_PAGES && Sized(s0.view, n)
      requires n <= a < MAX_TOTAL_PAGES && GrewTo(s0, S(), n, a)
      modifies this`pte, this`meta, this`ram, this`free, this`swap, this`pagesInMemory, this`view
      modifies queue, queue.pages, accessed
      ensures r == Grown ==> Valid() && GrewTo(s0, S(), n, a + 1)
      ensures r == NoMemory ==> Valid() && view == s0.view && multiset(free) == multiset(s0.free) && SameFrames(s0, S())
      ensures r == Collided ==> exists u: nat, w: nat :: Clash(S(), u, w)
      ensures r == NoMemory <==> a - n == |s0.free| && MAX_PSYC_PAGES - s0.count > |s0.free|
      ensures r == Collided <==>
        a - n - (MAX_PSYC_PAGES - s0.count) == Slots(s0, n) && MAX_PSYC_PAGES - s0.count <= a - n
    {
      ghost var s := S();
      assert Slots(s, n) + PageOuts(s0.count, a - n) == Slots(s0, n);
      r := GrowPage(a, n);
      if r == NoMemory {
        GrewBack(s0, s, n, a);
        Dealloc(n, a);
        SameFree(s0.free, s.free, free, s.pte, n, a);
        assert view == s0.view;
      } else if r == Grown {
        GrewMore(s0, s, S(), n, a);
      }
    }
  }

  /** A new process that first asks for 4 pages and then for 17 more loses a page. */
  method TwoRequestsCollide(frames: seq<nat>) returns (p: Process, r: Growth)
    requires Distinct(frames) && |frames| >= MAX_PSYC_PAGES
    ensures r == Collided && exists u: nat, w: nat :: Clash(p.S(), u, w)
  {
    p := new Process(frames);
    EmptySlots(p.S(), 4);
    ghost var s0 := p.S();
    EmptySlots(s0, 0);
    r := p.Grow(4 * PGSIZE);
    assert r == Grown;
    assert Slots(p.S(), 4) + 0 == Slots(s0, 4);
    r := p.Grow(21 * PGSIZE);
  }
}
