/** The ring queue of resident pages of vm.c: in, out, removePage and the second-chance choice. */
module PageQueue {
  import opened Common

  const MAX_TOTAL_PAGES: nat := 32

  /** The queue with its first k entries moved to the back. */
  function Rotated<T>(q: seq<T>, k: nat): seq<T>
    requires k <= |q|
  {
    q[k..] + q[..k]
  }

  /** The last entry moved to the front. */
  function LastFirst(q: seq<nat>): seq<nat>
    requires q != []
  {
    [q[|q| - 1]] + q[..|q| - 1]
  }

  /** What removePage() leaves: the order is kept if the page is last or absent; otherwise the
      loop stops one rotation short, and the last page comes first. */
  function Removed(q: seq<nat>, page: nat): seq<nat> {
    if page !in q then q
    else
      var k := IndexOf(q, page);
      if k == |q| - 1 then Without(q, k) else LastFirst(Without(q, k))
  }

  function IndexOf(q: seq<nat>, page: nat): (k: nat)
    requires page in q
    ensures k < |q| && q[k] == page && forall j :: 0 <= j < k ==> q[j] != page
  {
    if q[0] == page then 0 else 1 + IndexOf(q[1..], page)
  }

  lemma WithoutKeeps(q: seq<nat>, k: nat)
    requires Distinct(q) && k < |q|
    ensures Distinct(Without(q, k)) && forall p :: p in Without(q, k) <==> p in q && p != q[k]
  {
    var r := Without(q, k);
    forall i | 0 <= i < |r| ensures r[i] == q[if i < k then i else i + 1] { }
    forall p | p in q && p != q[k] ensures p in r {
      var j :| 0 <= j < |q| && q[j] == p;
      assert p == r[if j < k then j else j - 1];
    }
  }

  lemma LastFirstKeeps(q: seq<nat>)
    requires Distinct(q) && q != []
    ensures Distinct(LastFirst(q)) && forall p :: p in LastFirst(q) <==> p in q
  {
    var r := LastFirst(q);
    forall i | 0 <= i < |r| ensures r[i] == q[if i == 0 then |q| - 1 else i - 1] { }
    forall p | p in q ensures p in r {
      var j :| 0 <= j < |q| && q[j] == p;
      assert p == r[if j == |q| - 1 then 0 else j + 1];
    }
  }

  /** Every other page stays in the queue exactly once. */
  lemma RemovedKeeps(q: seq<nat>, page: nat)
    requires Distinct(q)
    ensures Distinct(Removed(q, page)) && forall p :: p in Removed(q, page) <==> p in q && p != page
    ensures |Removed(q, page)| == if page in q then |q| - 1 else |q|
  {
    if page in q {
      var k := IndexOf(q, page);
      WithoutKeeps(q, k);
      if k < |q| - 1 { LastFirstKeeps(Without(q, k)); }
    }
  }

  /** The first page, in queue order, whose accessed bit is clear; |q| if there is none. */
  function FirstClear(q: seq<nat>, accessed: seq<bool>): (k: nat)
    ensures k <= |q|
    ensures forall j :: 0 <= j < k ==> Accessed(accessed, q[j])
    ensures k < |q| ==> !Accessed(accessed, q[k])
  {
    if q == [] || !Accessed(accessed, q[0]) then 0 else 1 + FirstClear(q[1..], accessed)
  }

  predicate Accessed(accessed: seq<bool>, page: nat) { page < |accessed| && accessed[page] }

  /** The accessed bits after the pages of q lost theirs. */
  ghost predicate Cleared(accessed: seq<bool>, accessed': seq<bool>, q: seq<nat>) {
    |accessed'| == |accessed| && forall p :: 0 <= p < |accessed| ==> accessed'[p] == (accessed[p] && p !in q)
  }

  class Queue {
    const pages: array<nat>
    var head: int
    var tail: int
    var numOfPages: int
    ghost var q: seq<nat>

    ghost predicate Valid()
      reads this, pages
    {
      pages.Length == MAX_TOTAL_PAGES && 0 <= head < MAX_TOTAL_PAGES && -1 <= tail < MAX_TOTAL_PAGES &&
      numOfPages == |q| <= MAX_TOTAL_PAGES &&
      TailAt(head, tail, |q|) &&
      forall i :: 0 <= i < |q| ==> pages[Place(head, i)] == q[i]
    }

    constructor ()
      ensures Valid() && q == [] && fresh(pages)
    {
      pages := new nat[MAX_TOTAL_PAGES];
      head, tail, numOfPages, q := 0, -1, 0, [];
    }

    method In(page: nat)
      requires Valid() && |q| < MAX_TOTAL_PAGES
      modifies this`tail, this`numOfPages, this`q, pages
      ensures Valid() && q == old(q) + [page]
    {
      PlaceDistinct(head, |q|);
      TailNext(head, tail, |q|);
      if tail == MAX_TOTAL_PAGES - 1 {
        tail := -1;
      }
      tail := tail + 1;
      pages[tail] := page;
      numOfPages := numOfPages + 1;
      q := q + [page];
    }

    method Out()
      requires Valid() && q != []
      modifies this`head, this`numOfPages, this`q
      ensures Valid() && q == old(q)[1..]
    {
      PlaceNext(head, if head == MAX_TOTAL_PAGES - 1 then 0 else head + 1, |q|);
      TailStays(head, if head == MAX_TOTAL_PAGES - 1 then 0 else head + 1, tail, |q|);
      if head == MAX_TOTAL_PAGES - 1 {
        head := 0;
      } else {
        head := head + 1;
      }
      numOfPages := numOfPages - 1;
      q := q[1..];
    }

    method Front() returns (page: nat)
      requires Valid() && q != []
      ensures page == q[0]
    {
      page := pages[head];
      PlaceHead(head);
    }

    /** removePage() */
    method RemovePage(page: nat)
      requires Valid() && Distinct(q)
      modifies this`head, this`tail, this`numOfPages, this`q, pages
      ensures Valid() && q == Removed(old(q), page)
    {
      ghost var q0 := q;
      var i := 0;
      while i < numOfPages
        invariant Valid() && 0 <= i <= |q0| && Passed(q0, q, page, i)
        decreases numOfPages - i
      {
        var p := Front();
        PassOne(q0, q, page, i);
        Out();
        if p != page {
          In(p);
        }
        i := i + 1;
      }
      PassedAll(q0, q, page, i);
    }

    /** The head goes to the tail. */
    method Requeue(page: nat)
      requires Valid() && q != [] && page == q[0]
      modifies this`head, this`tail, this`numOfPages, this`q, pages
      ensures Valid() && q == old(q)[1..] + [old(q)[0]]
    {
      Out();
      In(page);
    }

    /** scfifo(), with the accessed bits of the page table: the first page whose bit is clear,
        or the head if there is none.  The bits of the pages passed over are cleared, and those
        pages follow the later ones. */
    method Scfifo(accessed: array<bool>) returns (page: nat)
      requires Valid() && q != [] && Distinct(q) && forall p :: p in q ==> p < accessed.Length
      modifies this`head, this`tail, this`numOfPages, this`q, pages, accessed
      ensures var k := FirstClear(old(q), old(accessed[..]));
        Valid() && Cleared(old(accessed[..]), accessed[..], old(q)[..k]) &&
        if k < |old(q)| then page == old(q)[k] && q == old(q)[k + 1..] + old(q)[..k]
        else page == old(q)[0] && q == old(q)[1..]
    {
      ghost var q0, a0 := q, accessed[..];
      var i := 0;
      assert Rotated(q0, 0) == q0;
      while i < numOfPages
        invariant Valid() && 0 <= i <= |q0| && q == Rotated(q0, i)
        invariant Cleared(a0, accessed[..], q0[..i]) && i <= FirstClear(q0, a0)
      {
        page := Front();
        RotateOne(q0, i);
        assert q0[i] in q0;
        ClearOne(q0, a0, accessed[..], i);
        if !accessed[page] {
          Out();
          return;
        }
        accessed[page] := false;
        Requeue(page);
        i := i + 1;
      }
      assert Rotated(q0, |q0|) == q0;
      page := Front();
      Out();
    }
  }

  /** The cell of the i-th queue entry. */
  function Place(head: int, i: int): int
    requires 0 <= head < MAX_TOTAL_PAGES
  {
    (head + i) % MAX_TOTAL_PAGES
  }

  /** tail is the cell of the last of n entries. */
  predicate TailAt(head: int, tail: int, n: nat) {
    (tail + MAX_TOTAL_PAGES) % MAX_TOTAL_PAGES == (head + n + MAX_TOTAL_PAGES - 1) % MAX_TOTAL_PAGES
  }

  lemma PlaceHead(head: int)
    requires 0 <= head < MAX_TOTAL_PAGES
    ensures Place(head, 0) == head
  {
  }

  lemma TailNext(head: int, tail: int, n: nat)
    requires 0 <= head < MAX_TOTAL_PAGES && -1 <= tail < MAX_TOTAL_PAGES && TailAt(head, tail, n)
    ensures var tail' := if tail == MAX_TOTAL_PAGES - 1 then 0 else tail + 1;
      tail' == Place(head, n) && TailAt(head, tail', n + 1)
  {
  }

  lemma TailStays(head: int, head': int, tail: int, n: nat)
    requires 0 <= head < MAX_TOTAL_PAGES && head' == if head == MAX_TOTAL_PAGES - 1 then 0 else head + 1
    requires n >= 1 && TailAt(head, tail, n)
    ensures TailAt(head', tail, n - 1)
  {
  }

  lemma PlaceDistinct(head: int, n: nat)
    requires 0 <= head < MAX_TOTAL_PAGES && n < MAX_TOTAL_PAGES
    ensures forall i :: 0 <= i < n ==> Place(head, i) != Place(head, n)
  {
  }

  lemma PlaceNext(head: int, head': int, n: nat)
    requires 0 <= head < MAX_TOTAL_PAGES && head' == if head == MAX_TOTAL_PAGES - 1 then 0 else head + 1
    ensures forall i :: 0 <= i < n ==> Place(head', i) == Place(head, i + 1)
  {
  }

  /** removePage() after i rounds: before it met the page, or after. */
  ghost predicate Passed(q0: seq<nat>, q: seq<nat>, page: nat, i: nat) {
    i <= |q0| &&
    if page !in q0[..i] then q == Rotated(q0, i)
    else
      var k := IndexOf(q0, page);
      q == Rotated(Without(q0, k), i - 1) && (i == |q0| ==> k == |q0| - 1)
  }

  lemma PassOne(q0: seq<nat>, q: seq<nat>, page: nat, i: nat)
    requires Passed(q0, q, page, i) && Distinct(q0) && i < |q|
    ensures i < |q0| && q != []
    ensures Passed(q0, if q[0] == page then q[1..] else q[1..] + [q[0]], page, i + 1)
  {
    assert q0[..i + 1] == q0[..i] + [q0[i]];
    if page in q0[..i] {
      var w := Without(q0, IndexOf(q0, page));
      RotateOne(w, i - 1);
    } else {
      RotateOne(q0, i);
    }
  }

  lemma RotateOne(q: seq<nat>, i: nat)
    requires i < |q|
    ensures Rotated(q, i)[0] == q[i] && Rotated(q, i)[1..] + [q[i]] == Rotated(q, i + 1)
    ensures Rotated(q, i)[1..] == q[i + 1..] + q[..i]
  {
  }

  lemma PassedAll(q0: seq<nat>, q: seq<nat>, page: nat, i: nat)
    requires Passed(q0, q, page, i) && Distinct(q0) && i >= |q|
    ensures q == Removed(q0, page)
  {
    if page in q0[..i] {
      var w := Without(q0, IndexOf(q0, page));
      assert Rotated(w, |w|) == w;
      if i < |q0| { assert Rotated(w, |w| - 1) == LastFirst(w); }
    } else {
      assert q0[..|q0|] == q0 && Rotated(q0, |q0|) == q0;
    }
  }

  lemma ClearOne(q: seq<nat>, a0: seq<bool>, a: seq<bool>, i: nat)
    requires i < |q| && Distinct(q) && q[i] < |a0| && Cleared(a0, a, q[..i]) && i <= FirstClear(q, a0)
    ensures a[q[i]] == a0[q[i]] && Cleared(a0, a[q[i] := false], q[..i + 1])
    ensures if a0[q[i]] then i + 1 <= FirstClear(q, a0) else i == FirstClear(q, a0)
  {
    assert q[..i + 1] == q[..i] + [q[i]];
  }
}
