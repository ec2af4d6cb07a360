/** copyout, copyin and copyinstr of vm.c: moving bytes between the kernel and the address space
    that a page table gives to a process. */
module UserCopy {
  import opened Common
  import PageTable

  type Page = seq<nat>

  /** user is the page table as walkaddr() sees it: the frames of valid user pages; ram is the
      contents of the frames. */
  datatype Space = Space(user: map<nat, nat>, ram: map<nat, Page>)

  /** The address space of a page table. */
  function SpaceOf(view: seq<PageTable.Pte>, ram: map<nat, Page>): Space { Space(PageTable.UserPages(view), ram) }

  /** A table below MAXVA whose user pages have frames of their own gives an address space. */
  lemma SpaceOfOk(view: seq<PageTable.Pte>, ram: map<nat, Page>)
    requires |view| <= MAXVPN
    requires forall v: nat :: PageTable.UserAt(view, v) ==> view[v].ppn in ram && |ram[view[v].ppn]| == PGSIZE
    requires forall u: nat, v: nat :: PageTable.UserAt(view, u) && PageTable.UserAt(view, v) && u != v ==>
      view[u].ppn != view[v].ppn
    ensures Ok(SpaceOf(view, ram))
    ensures forall va: nat :: Mapped(SpaceOf(view, ram), va) <==> PageTable.UserAt(view, va / PGSIZE)
  {
    var s := SpaceOf(view, ram);
    forall v | v in s.user ensures PageTable.UserAt(view, v) && s.user[v] == view[v].ppn { }
  }

  ghost predicate Ok(s: Space) {
    (forall v :: v in s.user ==> v < MAXVPN && s.user[v] in s.ram && |s.ram[s.user[v]]| == PGSIZE) &&
    forall u, v :: u in s.user && v in s.user && u != v ==> s.user[u] != s.user[v]
  }

  /** The byte the process would read at va. */
  function Byte(s: Space, va: nat): nat {
    var v := va / PGSIZE;
    if v in s.user && s.user[v] in s.ram && |s.ram[s.user[v]]| == PGSIZE then s.ram[s.user[v]][va % PGSIZE] else 0
  }

  predicate Mapped(s: Space, va: nat) { va / PGSIZE in s.user }

  ghost predicate AllMapped(s: Space, lo: nat, hi: nat) { forall a: nat :: lo <= a < hi ==> Mapped(s, a) }

  /** Of the len bytes from va on, the first k come before the first page that is not mapped. */
  ghost predicate Reaches(s: Space, va: nat, len: nat, k: nat) {
    k <= len && AllMapped(s, va, va + k) && (k < len ==> !Mapped(s, va + k))
  }

  /** The bytes from va on. */
  function Bytes(s: Space, va: nat, k: nat): seq<nat> { seq<nat>(k, (i: nat) => Byte(s, va + i)) }

  /** A stretch within one page. */
  lemma InPage(va: nat, n: nat, a: nat)
    requires va % PGSIZE + n <= PGSIZE && va <= a < va + n
    ensures a / PGSIZE == va / PGSIZE && a % PGSIZE == va % PGSIZE + (a - va)
  {
  }

  function Stretch(va: nat, len: nat): (n: nat)
    ensures n <= len && va % PGSIZE + n <= PGSIZE && (len > 0 ==> n > 0)
    ensures n < len ==> (va + n) % PGSIZE == 0 && va + n == va / PGSIZE * PGSIZE + PGSIZE
  {
    if PGSIZE - va % PGSIZE > len then len else PGSIZE - va % PGSIZE
  }

  lemma MappedMore(s: Space, lo: nat, va: nat, n: nat)
    requires AllMapped(s, lo, va) && Mapped(s, va) && va % PGSIZE + n <= PGSIZE
    ensures AllMapped(s, lo, va + n)
  {
    forall a: nat | lo <= a < va + n ensures Mapped(s, a) {
      if a >= va { InPage(va, n, a); }
    }
  }

  // ---------- writing ----------

  function Put(s: Space, va: nat, d: seq<nat>): Space {
    var v, o := va / PGSIZE, va % PGSIZE;
    if v in s.user && s.user[v] in s.ram && |s.ram[s.user[v]]| == PGSIZE && o + |d| <= PGSIZE then
      var page := s.ram[s.user[v]];
      s.(ram := s.ram[s.user[v] := page[..o] + d + page[o + |d|..]])
    else s
  }

  /** Exactly the bytes [va, va + |d|) of the process are now d. */
  ghost predicate Wrote(s: Space, s': Space, va: nat, d: seq<nat>) {
    s'.user == s.user && forall a: nat {:trigger ByteIs(s, s', va, d, a)} :: Mapped(s, a) ==> ByteIs(s, s', va, d, a)
  }

  ghost predicate ByteIs(s: Space, s': Space, va: nat, d: seq<nat>, a: nat) {
    Byte(s', a) == if va <= a < va + |d| then d[a - va] else Byte(s, a)
  }

  lemma PutWrites(s: Space, va: nat, d: seq<nat>)
    requires Ok(s) && Mapped(s, va) && va % PGSIZE + |d| <= PGSIZE
    ensures Ok(Put(s, va, d)) && Wrote(s, Put(s, va, d), va, d)
  {
    var s', v := Put(s, va, d), va / PGSIZE;
    forall a: nat | Mapped(s, a) ensures ByteIs(s, s', va, d, a) {
      if a / PGSIZE == v {
        if va <= a < va + |d| { InPage(va, |d|, a); }
        assert va <= a < va + |d| <==> va % PGSIZE <= a % PGSIZE < va % PGSIZE + |d|;
      } else {
        assert s.user[a / PGSIZE] != s.user[v];
        assert !(va <= a < va + |d|);
      }
    }
  }

  lemma WroteTwice(s: Space, s1: Space, s2: Space, va: nat, d: seq<nat>, e: seq<nat>)
    requires Wrote(s, s1, va, d) && Wrote(s1, s2, va + |d|, e)
    ensures Wrote(s, s2, va, d + e)
  {
    forall a: nat | Mapped(s, a) ensures ByteIs(s, s2, va, d + e, a) {
      assert ByteIs(s, s1, va, d, a) && ByteIs(s1, s2, va + |d|, e, a);
    }
  }

  lemma WroteNone(s: Space, va: nat)
    ensures Wrote(s, s, va, [])
  {
    forall a: nat | Mapped(s, a) ensures ByteIs(s, s, va, [], a) { }
  }

  class Copier {
    var s: Space

    /** The body of copyout()'s loop. */
    method PutPage(va: nat, d: seq<nat>, ghost s0: Space, ghost dstva: nat, ghost before: seq<nat>)
      requires Ok(s) && Mapped(s, va) && va % PGSIZE + |d| <= PGSIZE && Wrote(s0, s, dstva, before) &&
        va == dstva + |before|
      requires AllMapped(s0, dstva, va)
      modifies this
      ensures Ok(s) && Wrote(s0, s, dstva, before + d) && AllMapped(s0, dstva, va + |d|)
    {
      PutWrites(s, va, d);
      MappedMore(s0, dstva, va, |d|);
      s := Put(s, va, d);
      WroteTwice(s0, old(s), s, dstva, before, d);
    }

    /** copyout(): writes the bytes up to the first page that is not mapped, and nothing else;
        succeeds exactly when that is all of them. */
    method Copyout(dstva: nat, src: seq<nat>) returns (r: int, ghost k: nat)
      requires Ok(s)
      modifies this
      ensures Ok(s) && Reaches(old(s), dstva, |src|, k) && Wrote(old(s), s, dstva, src[..k])
      ensures r == if k == |src| then 0 else -1
    {
      WroteNone(s, dstva);
      var done := 0;
      assert src[..0] == [];
      while done < |src|
        invariant 0 <= done <= |src| && Ok(s) && Wrote(old(s), s, dstva, src[..done]) &&
          AllMapped(old(s), dstva, dstva + done)
      {
        var va := dstva + done;
        if va / PGSIZE !in s.user {
          return -1, done;
        }
        var n := Stretch(va, |src| - done);
        PutPage(va, src[done..done + n], old(s), dstva, src[..done]);
        assert src[..done] + src[done..done + n] == src[..done + n];
        done := done + n;
      }
      return 0, done;
    }
  }

  // ---------- reading ----------

  /** The bytes of a page that copyin() appends. */
  lemma BytesMore(s: Space, va: nat, k: nat, n: nat, page: Page, o: nat)
    requires Ok(s) && Mapped(s, va + k) && o == (va + k) % PGSIZE && o + n <= PGSIZE &&
      page == s.ram[s.user[(va + k) / PGSIZE]]
    ensures Bytes(s, va, k) + page[o..o + n] == Bytes(s, va, k + n)
  {
    var all := Bytes(s, va, k) + page[o..o + n];
    forall i: nat | i < k + n ensures all[i] == Bytes(s, va, k + n)[i] {
      if i >= k {
        InPage(va + k, n, va + i);
        assert all[i] == page[o + (i - k)] && Byte(s, va + i) == page[o + (i - k)];
      }
    }
  }

  /** copyin(): the bytes up to the first page that is not mapped. */
  method Copyin(s: Space, srcva: nat, len: nat) returns (r: int, dst: seq<nat>)
    requires Ok(s)
    ensures Reaches(s, srcva, len, |dst|) && dst == Bytes(s, srcva, |dst|)
    ensures r == if |dst| == len then 0 else -1
  {
    dst := [];
    while |dst| < len
      invariant |dst| <= len && dst == Bytes(s, srcva, |dst|) && AllMapped(s, srcva, srcva + |dst|)
      decreases len - |dst|
    {
      var va := srcva + |dst|;
      if va / PGSIZE !in s.user {
        return -1, dst;
      }
      var n := Stretch(va, len - |dst|);
      var page := s.ram[s.user[va / PGSIZE]];
      BytesMore(s, srcva, |dst|, n, page, va % PGSIZE);
      MappedMore(s, srcva, va, n);
      dst := dst + page[va % PGSIZE..va % PGSIZE + n];
    }
    r := 0;
  }

  /** No byte of the string is NUL. */
  predicate NoNul(d: seq<nat>) { forall i :: 0 <= i < |d| ==> d[i] != 0 }

  /** The inner loop of copyinstr(): the bytes of a stretch up to a NUL. */
  method CopyUntilNul(page: Page, o: nat, n: nat) returns (d: seq<nat>, gotNull: bool)
    requires o + n <= |page|
    ensures |d| <= n && d == page[o..o + |d|] && NoNul(d) && (gotNull <==> |d| < n)
    ensures gotNull ==> page[o + |d|] == 0
  {
    d := [];
    while |d| < n
      invariant |d| <= n && d == page[o..o + |d|] && NoNul(d)
      decreases n - |d|
    {
      if page[o + |d|] == 0 {
        return d, true;
      }
      d := d + [page[o + |d|]];
    }
    gotNull := false;
  }

  /** copyinstr(): the string at srcva, if its NUL comes within max bytes and before the first
      page that is not mapped; -1 otherwise. */
  method Copyinstr(s: Space, srcva: nat, max: nat) returns (r: int, dst: seq<nat>)
    requires Ok(s)
    ensures |dst| <= max && dst == Bytes(s, srcva, |dst|) && NoNul(dst) && AllMapped(s, srcva, srcva + |dst|)
    ensures r == 0 ==> |dst| < max && Mapped(s, srcva + |dst|) && Byte(s, srcva + |dst|) == 0
    ensures r != 0 ==> r == -1 && (|dst| == max || !Mapped(s, srcva + |dst|))
  {
    dst := [];
    while |dst| < max
      invariant |dst| <= max && dst == Bytes(s, srcva, |dst|) && NoNul(dst) && AllMapped(s, srcva, srcva + |dst|)
      decreases max - |dst|
    {
      var va := srcva + |dst|;
      if va / PGSIZE !in s.user {
        return -1, dst;
      }
      var n := Stretch(va, max - |dst|);
      var page := s.ram[s.user[va / PGSIZE]];
      var d, gotNull := CopyUntilNul(page, va % PGSIZE, n);
      BytesMore(s, srcva, |dst|, |d|, page, va % PGSIZE);
      MappedMore(s, srcva, va, |d|);
      if gotNull { InPage(va, |d| + 1, va + |d|); }
      dst := dst + d;
      if gotNull {
        return 0, dst;
      }
    }
    r := -1;
  }
}
