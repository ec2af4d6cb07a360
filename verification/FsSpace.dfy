/** How many blocks bmap() takes for a stretch of a file, and when there are enough of them. */
module FsSpace {
  import opened FsDisk
  import opened FsState

  // ---------- free blocks ----------

  /** How many of the blocks below n are not in use. */
  ghost function CountFree(used: set<nat>, n: nat): nat {
    if n == 0 then 0 else CountFree(used, n - 1) + if n - 1 in used then 0 else 1
  }

  /** How many blocks are not in use. */
  ghost function FreeBlocks(sb: Super, s: State): nat { CountFree(s.used, sb.size) }

  lemma {:induction false} CountTake(used: set<nat>, b: nat, n: nat)
    requires b !in used
    ensures CountFree(used, n) == CountFree(used + {b}, n) + if b < n then 1 else 0
  {
    if n > 0 { CountTake(used, b, n - 1); }
  }

  lemma {:induction false} CountNone(used: set<nat>, n: nat)
    ensures CountFree(used, n) == 0 <==> forall b: nat :: b < n ==> b in used
  {
    if n > 0 { CountNone(used, n - 1); }
  }

  // ---------- missing blocks ----------

  /** How many of the blocks lo to hi of file i are not there. */
  ghost function MissingData(s: State, i: nat, lo: nat, hi: nat): nat {
    if hi <= lo then 0 else MissingData(s, i, lo, hi - 1) + if HasBlock(s, i, hi - 1) then 0 else 1
  }

  /** Whether blocks lo to hi need an indirect block that is not there. */
  ghost function MissingIndirect(s: State, i: nat, lo: nat, hi: nat): nat {
    if lo < hi && hi > NDIRECT && Slot(i, NDIRECT) !in s.own then 1 else 0
  }

  /** How many blocks it takes until blocks lo to hi of file i are all there. */
  ghost function Missing(s: State, i: nat, lo: nat, hi: nat): nat {
    MissingData(s, i, lo, hi) + MissingIndirect(s, i, lo, hi)
  }

  /** One past the last block that holds a byte of [off, off + n). */
  function EndBlock(off: nat, n: nat): nat { if n == 0 then off / BSIZE else (off + n - 1) / BSIZE + 1 }

  /** The pointers that lead to blocks lo to hi of file i, the indirect block's among them. */
  predicate Leads(i: nat, lo: nat, hi: nat, x: Slot) {
    x.inum == i && if x.k == NDIRECT then lo < hi && hi > NDIRECT else lo <= BlockNo(x.k) < hi
  }

  /** The inverse of SlotK. */
  function BlockNo(k: nat): int { if k < NDIRECT then k else k - 1 }

  ghost predicate SetFor(s: State, s': State, i: nat, lo: nat, hi: nat, x: Slot) {
    x in s'.own <==> x in s.own || Leads(i, lo, hi, x)
  }

  /** From s to s', exactly the missing pointers of blocks lo to hi were set, with one block for each. */
  ghost predicate Grew(sb: Super, s: State, s': State, i: nat, lo: nat, hi: nat) {
    (forall x {:trigger SetFor(s, s', i, lo, hi, x)} :: SetFor(s, s', i, lo, hi, x)) &&
    FreeBlocks(sb, s') + Missing(s, i, lo, hi) == FreeBlocks(sb, s)
  }

  lemma {:induction false} MissingSplit(s: State, i: nat, lo: nat, mid: nat, hi: nat)
    requires lo <= mid <= hi
    ensures MissingData(s, i, lo, hi) == MissingData(s, i, lo, mid) + MissingData(s, i, mid, hi)
  {
    if mid < hi { MissingSplit(s, i, lo, mid, hi - 1); }
  }

  /** After growing by blocks lo to mid', nothing is missing there and the rest is as before. */
  lemma {:induction false} MissingAfter(sb: Super, s: State, s1: State, i: nat, lo: nat, mid: nat, mid': nat, hi: nat)
    requires lo <= mid <= mid' && Grew(sb, s, s1, i, lo, mid')
    ensures MissingData(s1, i, mid, hi) == MissingData(s, i, mid', hi)
  {
    if hi > mid {
      MissingAfter(sb, s, s1, i, lo, mid, mid', hi - 1);
      assert SetFor(s, s1, i, lo, mid', Slot(i, SlotK(hi - 1)));
    }
  }

  /** What is missing of a stretch is what is missing of its beginning, and of the rest after that. */
  lemma MissingJoin(sb: Super, s: State, s1: State, i: nat, lo: nat, mid: nat, mid': nat, hi: nat)
    requires lo <= mid <= mid' <= hi && Grew(sb, s, s1, i, lo, mid')
    ensures Missing(s, i, lo, hi) == Missing(s, i, lo, mid') + Missing(s1, i, mid, hi)
  {
    MissingSplit(s, i, lo, mid', hi);
    MissingAfter(sb, s, s1, i, lo, mid, mid', hi);
    assert SetFor(s, s1, i, lo, mid', Slot(i, NDIRECT));
  }

  lemma MissingGrows(s: State, i: nat, lo: nat, hi: nat, hi': nat)
    requires lo <= hi <= hi'
    ensures Missing(s, i, lo, hi) <= Missing(s, i, lo, hi')
  {
    MissingSplit(s, i, lo, hi, hi');
  }

  lemma GrewNot(sb: Super, s: State, i: nat, lo: nat)
    ensures Grew(sb, s, s, i, lo, lo)
  {
  }

  /** It does not matter what else changes. */
  lemma GrewSame(sb: Super, s: State, s1: State, s2: State, i: nat, lo: nat, hi: nat)
    requires Grew(sb, s, s1, i, lo, hi) && s2.own == s1.own && s2.used == s1.used
    ensures Grew(sb, s, s2, i, lo, hi)
  {
    forall x ensures SetFor(s, s2, i, lo, hi, x) { assert SetFor(s, s1, i, lo, hi, x); }
  }

  lemma GrewTrans(sb: Super, s: State, s1: State, s2: State, i: nat, lo: nat, mid: nat, mid': nat, hi: nat)
    requires lo <= mid <= mid' <= hi && Grew(sb, s, s1, i, lo, mid') && Grew(sb, s1, s2, i, mid, hi)
    ensures Grew(sb, s, s2, i, lo, hi)
  {
    MissingJoin(sb, s, s1, i, lo, mid, mid', hi);
    forall x ensures SetFor(s, s2, i, lo, hi, x) {
      assert SetFor(s, s1, i, lo, mid', x) && SetFor(s1, s2, i, mid, hi, x);
    }
  }

  /** If the rest of a stretch does not fit any more, the whole did not fit in the beginning. */
  lemma TooMany(sb: Super, s: State, s1: State, i: nat, lo: nat, mid: nat, mid': nat, hi: nat, end: nat)
    requires lo <= mid <= mid' <= hi <= end && Grew(sb, s, s1, i, lo, mid')
    requires Missing(s1, i, mid, hi) > FreeBlocks(sb, s1)
    ensures Missing(s, i, lo, end) > FreeBlocks(sb, s)
  {
    MissingJoin(sb, s, s1, i, lo, mid, mid', hi);
    MissingGrows(s, i, lo, hi, end);
  }

  // ---------- one block ----------

  /** A file with a block beyond the direct ones has an indirect block. */
  lemma IndirectOwned(sb: Super, s: State, i: nat, k: nat)
    requires Ok(sb, s) && i < |s.inodes| && NDIRECT < k < NSLOTS && Slot(i, k) in s.own
    ensures Slot(i, NDIRECT) in s.own
  {
    assert PtrOk(s, i, k) && PtrOk(s, i, NDIRECT);
  }

  lemma MissingOne(s: State, i: nat, bn: nat)
    ensures MissingData(s, i, bn, bn + 1) == if HasBlock(s, i, bn) then 0 else 1
  {
    assert MissingData(s, i, bn, bn) == 0;
  }

  /** A block that is there takes no other. */
  lemma NothingMissing(sb: Super, s: State, i: nat, bn: nat)
    requires Ok(sb, s) && i < |s.inodes| && HasBlock(s, i, bn)
    ensures Missing(s, i, bn, bn + 1) == 0 && Grew(sb, s, s, i, bn, bn + 1)
  {
    MissingOne(s, i, bn);
    if bn >= NDIRECT { IndirectOwned(sb, s, i, SlotK(bn)); }
    var hi := bn + 1;
    forall x ensures SetFor(s, s, i, bn, hi, x) {
      if Leads(i, bn, hi, x) { assert x == Slot(i, SlotK(bn)) || x == Slot(i, NDIRECT); }
    }
  }

  /** With its indirect block there, a block that is not there takes one. */
  lemma OneMissing(s: State, i: nat, bn: nat)
    requires !HasBlock(s, i, bn) && (bn >= NDIRECT ==> Slot(i, NDIRECT) in s.own)
    ensures Missing(s, i, bn, bn + 1) == 1
  {
    MissingOne(s, i, bn);
  }

  /** The first block beyond the direct ones takes two. */
  lemma TwoMissing(sb: Super, s: State, i: nat, bn: nat)
    requires Ok(sb, s) && i < |s.inodes| && NDIRECT <= bn < MAXFILE && Slot(i, NDIRECT) !in s.own
    ensures !HasBlock(s, i, bn) && Missing(s, i, bn, bn + 1) == 2
  {
    if HasBlock(s, i, bn) { IndirectOwned(sb, s, i, SlotK(bn)); }
    MissingOne(s, i, bn);
  }

  /** One pointer was set, with a block that was free. */
  ghost predicate Gained(sb: Super, s: State, s': State, x: Slot) {
    x !in s.own && x in s'.own && s'.own == s.own[x := s'.own[x]] && FreeBlocks(sb, s') + 1 == FreeBlocks(sb, s)
  }

  lemma GainedOne(sb: Super, s: State, s': State, i: nat, bn: nat)
    requires Gained(sb, s, s', Slot(i, SlotK(bn))) && (bn >= NDIRECT ==> Slot(i, NDIRECT) in s.own)
    ensures Grew(sb, s, s', i, bn, bn + 1)
  {
    OneMissing(s, i, bn);
    var hi := bn + 1;
    forall x ensures SetFor(s, s', i, bn, hi, x) {
      if Leads(i, bn, hi, x) { assert x == Slot(i, SlotK(bn)) || x == Slot(i, NDIRECT); }
    }
  }

  lemma GainedTwo(sb: Super, s: State, s1: State, s2: State, i: nat, bn: nat)
    requires Ok(sb, s) && i < |s.inodes| && NDIRECT <= bn < MAXFILE
    requires Gained(sb, s, s1, Slot(i, NDIRECT)) && Gained(sb, s1, s2, Slot(i, SlotK(bn)))
    ensures Grew(sb, s, s2, i, bn, bn + 1)
  {
    TwoMissing(sb, s, i, bn);
    var hi := bn + 1;
    forall x ensures SetFor(s, s2, i, bn, hi, x) {
      if Leads(i, bn, hi, x) { assert x == Slot(i, SlotK(bn)) || x == Slot(i, NDIRECT); }
    }
  }

  // ---------- stretches of bytes ----------

  /** The next bytes, inside one block, are in the block where the bytes before them end or in the next one. */
  lemma NextBlock(off: nat, tot: nat, m: nat)
    requires m > 0 && (off + tot) % BSIZE + m <= BSIZE
    ensures var bn := (off + tot) / BSIZE; off / BSIZE <= bn <= EndBlock(off, tot) <= bn + 1 == EndBlock(off, tot + m)
  {
  }

  lemma NextStretch(off: nat, k: nat, n: nat)
    requires n > 0
    ensures off / BSIZE <= (off + k) / BSIZE <= EndBlock(off, k) <= EndBlock(off + k, n) == EndBlock(off, k + n)
  {
  }

  lemma EndBlockGrows(off: nat, n: nat, n': nat)
    requires n <= n'
    ensures off / BSIZE <= EndBlock(off, n) <= EndBlock(off, n')
  {
  }
}
