/** The file layer of fs.c: balloc, bfree, bmap, itrunc, readi and writei, and the chunked
    writes of file.c.  Calls of log_write are recorded in `logged`. */
module Fs {
  import opened Common
  import opened FsDisk
  import opened FsState
  import opened FsSpace

  /** Bit bi of the bitmap block for block b is the mark of block b + bi. */
  lemma BitOf(sb: Super, s: State, b: nat, bi: nat)
    requires MarksOk(sb, s) && b % BPB == 0 && bi < BPB && b + bi < sb.size
    ensures Bit(Byte(At(s.disk, sb.bmapstart + b / BPB), bi / 8), bi % 8) <==> b + bi in s.used
  {
    assert MarkOk(sb, s, b + bi);
    assert (b + bi) / BPB == b / BPB && (b + bi) % BPB == bi;
  }

  /** What bmap() may do for block bn of file i, besides nothing: give the file blocks that
      were free, all zero, without touching any other pointer or data block. */
  ghost predicate Mapped(sb: Super, s: State, s': State, i: nat) {
    var ok, keeps, spare := Ok(sb, s'), Keeps(s, s'), Spare(s', i) == Spare(s, i);
    ok && keeps && spare && SameSizes(s, s') && OnlyGrows(s, s', i)
  }

  ghost predicate SameSizes(s: State, s': State) {
    |s'.inodes| == |s.inodes| && forall j :: 0 <= j < |s.inodes| ==> s'.inodes[j].size == s.inodes[j].size
  }

  /** Only file i has new pointers. */
  ghost predicate OnlyGrows(s: State, s': State, i: nat) {
    forall x :: x in s'.own && x.inum != i ==> x in s.own
  }

  lemma MappedSame(sb: Super, s: State, i: nat)
    requires Ok(sb, s)
    ensures Mapped(sb, s, s, i)
  {
  }

  lemma MappedTrans(sb: Super, s: State, s1: State, s2: State, i: nat)
    requires Mapped(sb, s, s1, i) && Mapped(sb, s1, s2, i)
    ensures Mapped(sb, s, s2, i)
  {
    KeepsTrans(s, s1, s2);
  }

  /** balloc() followed by the assignment of the pointer. */
  lemma MappedAttach(sb: Super, s: State, s1: State, s2: State, i: nat, k: nat, b: nat)
    requires Ok(sb, s) && b !in s.used && s1 == Allocate(sb, s, b) && Keeps(s, s1)
    requires Ok(sb, s2) && Keeps(s1, s2) && Given(s1, s2, i, k, b)
    requires forall x :: x in s.own ==> s.own[x] != b
    ensures Mapped(sb, s, s2, i)
  {
    KeepsTrans(s, s1, s2);
    AllocateSpare(sb, s, b, i);
    GivenSpare(s1, s2, i, k, b);
  }

  lemma MarkInBitmap(sb: Super, b: nat)
    requires b < sb.size
    ensures sb.bmapstart + b / BPB in BitmapBlocks(sb)
  {
    assert b / BPB <= sb.size / BPB;
  }

  /** The indirect block of file i, if it has one. */
  function Indirect(s: State, i: nat): set<nat> {
    if Slot(i, NDIRECT) in s.own then {s.own[Slot(i, NDIRECT)]} else {}
  }

  /** The blocks of the bitmap. */
  function BitmapBlocks(sb: Super): set<nat> { set b: nat | b <= sb.bmapstart + sb.size / BPB && InBitmap(sb, b) }

  predicate InBitmap(sb: Super, b: nat) { sb.bmapstart <= b <= sb.bmapstart + sb.size / BPB }

  // ---------- file contents ----------

  /** The byte at position p of file i. */
  function Raw(s: State, i: nat, p: nat): nat { Byte(At(s.disk, Owned(s, i, SlotK(p / BSIZE))), p % BSIZE) }

  /** A file as a sequence of bytes. */
  function Content(s: State, i: nat): (c: seq<nat>)
    requires i < |s.inodes|
  {
    seq(s.inodes[i].size, p requires 0 <= p => Raw(s, i, p))
  }

  /** The bytes from off on, n of them or as many as there are. */
  function Slice(c: seq<nat>, off: nat, n: nat): seq<nat> {
    if off > |c| then [] else if off + n <= |c| then c[off..off + n] else c[off..]
  }

  /** c with d laid over it at off, longer if need be. */
  function Overlay(c: seq<nat>, off: nat, d: seq<nat>): seq<nat>
    requires off <= |c|
  {
    c[..off] + d + if off + |d| <= |c| then c[off + |d|..] else []
  }

  /** The bytes of d are at off, and all others are where they were. */
  lemma OverlayAt(c: seq<nat>, off: nat, d: seq<nat>, p: nat)
    requires off <= |c|
    ensures |Overlay(c, off, d)| == if off + |d| > |c| then off + |d| else |c|
    ensures p < |Overlay(c, off, d)| ==> Overlay(c, off, d)[p] == if off <= p < off + |d| then d[p - off] else c[p]
  {
  }

  function Min(a: nat, b: nat): nat { if a < b then a else b }

  lemma SameBlock(off: nat, m: nat, p: nat)
    requires off % BSIZE + m <= BSIZE && off <= p < off + m
    ensures p / BSIZE == off / BSIZE && p % BSIZE == off % BSIZE + (p - off)
  {
  }

  lemma Adjacent(c: seq<nat>, off: nat, tot: nat, m: nat)
    requires off + tot + m <= |c|
    ensures c[off..off + tot] + c[off + tot..off + tot + m] == c[off..off + tot + m]
  {
  }

  /** Nothing of the other files changes, and file i takes and gives back no block. */
  ghost predicate OthersKeep(sb: Super, s: State, s': State, i: nat) {
    var ok, spare := Ok(sb, s'), Spare(s', i) == Spare(s, i);
    ok && spare && SameSizes(s, s') && OnlyGrows(s, s', i) &&
    forall x {:trigger KeptSlot(s, s', x)} :: x in s.own && x.inum != i ==> KeptSlot(s, s', x)
  }

  /** Pointers once set stay, so what may be logged only grows. */
  ghost predicate PointersStay(s: State, s': State, i: nat) {
    forall x :: x in s.own && x.inum == i ==> x in s'.own && s'.own[x] == s.own[x]
  }

  /** d was written at off, inside one block; what file i had elsewhere is still there. */
  ghost predicate Chunk(sb: Super, s: State, s': State, i: nat, off: nat, d: seq<nat>) {
    var others, stay := OthersKeep(sb, s, s', i), PointersStay(s, s', i);
    others && stay && HasBlock(s', i, off / BSIZE) &&
    (forall j: nat :: j < |d| ==> Raw(s', i, off + j) == d[j]) &&
    forall p: nat {:trigger RawKept(s, s', i, p)} :: HasBlock(s, i, p / BSIZE) && !(off <= p < off + |d|) ==>
      RawKept(s, s', i, p)
  }

  ghost predicate RawKept(s: State, s': State, i: nat, p: nat) {
    HasBlock(s', i, p / BSIZE) && Raw(s', i, p) == Raw(s, i, p)
  }

  lemma ChunkWritten(sb: Super, s: State, s1: State, i: nat, off: nat, d: seq<nat>, blk: Block)
    requires Mapped(sb, s, s1, i) && HasBlock(s1, i, off / BSIZE) && off % BSIZE + |d| <= BSIZE && |blk| == BSIZE
    requires var o, a := off % BSIZE, At(s1.disk, Owned(s1, i, SlotK(off / BSIZE)));
      |a| == BSIZE && blk == a[..o] + d + a[o + |d|..]
    ensures Chunk(sb, s, WriteBlock(s1, Owned(s1, i, SlotK(off / BSIZE)), blk), i, off, d)
  {
    var x := Slot(i, SlotK(off / BSIZE));
    var s2 := WriteBlock(s1, s1.own[x], blk);
    WriteBlockOk(sb, s1, x, blk);
    assert OwnedBy(s2, i) == OwnedBy(s1, i);
    forall y | y in s.own && y.inum != i ensures KeptSlot(s, s2, y) { assert KeptSlot(s, s1, y); }
    forall y | y in s.own && y.inum == i ensures y in s2.own && s2.own[y] == s.own[y] { assert KeptSlot(s, s1, y); }
    forall j: nat | j < |d| ensures Raw(s2, i, off + j) == d[j] { SameBlock(off, |d|, off + j); }
    forall p: nat | HasBlock(s, i, p / BSIZE) && !(off <= p < off + |d|) ensures RawKept(s, s2, i, p) {
      ChunkKeeps(sb, s, s1, s2, i, off, d, blk, p);
    }
  }

  lemma ChunkKeeps(sb: Super, s: State, s1: State, s2: State, i: nat, off: nat, d: seq<nat>, blk: Block, p: nat)
    requires Mapped(sb, s, s1, i) && HasBlock(s1, i, off / BSIZE) && off % BSIZE + |d| <= BSIZE && |blk| == BSIZE
    requires var o, a := off % BSIZE, At(s1.disk, Owned(s1, i, SlotK(off / BSIZE)));
      |a| == BSIZE && blk == a[..o] + d + a[o + |d|..]
    requires s2 == WriteBlock(s1, Owned(s1, i, SlotK(off / BSIZE)), blk)
    requires HasBlock(s, i, p / BSIZE) && !(off <= p < off + |d|)
    ensures RawKept(s, s2, i, p)
  {
    var y := Slot(i, SlotK(p / BSIZE));
    assert KeptSlot(s, s1, y);
    if p / BSIZE == off / BSIZE {
      assert !(off % BSIZE <= p % BSIZE < off % BSIZE + |d|);
    } else {
      assert s1.own[y] != s1.own[Slot(i, SlotK(off / BSIZE))];
    }
  }

  /** The first tot bytes of src are in file i, from off on; the rest is as it was. */
  ghost predicate Written(sb: Super, s0: State, s: State, i: nat, off: nat, src: seq<nat>, tot: nat) {
    var others, raws := OthersKeep(sb, s0, s, i), RawsAre(s0, s, i, off, src, tot);
    others && raws
  }

  ghost predicate RawsAre(s0: State, s: State, i: nat, off: nat, src: seq<nat>, tot: nat) {
    i < |s0.inodes| && off <= s0.inodes[i].size && tot <= |src| &&
    forall p: nat :: p < s0.inodes[i].size || p < off + tot ==> RawIs(s0, s, i, off, src, tot, p)
  }

  ghost predicate RawIs(s0: State, s: State, i: nat, off: nat, src: seq<nat>, tot: nat, p: nat) {
    HasBlock(s, i, p / BSIZE) &&
    Raw(s, i, p) == if off <= p < off + tot && p - off < |src| then src[p - off] else Raw(s0, i, p)
  }

  lemma WrittenNone(sb: Super, s: State, i: nat, off: nat, src: seq<nat>)
    requires Ok(sb, s) && i < |s.inodes| && off <= s.inodes[i].size
    ensures Written(sb, s, s, i, off, src, 0)
  {
    forall p: nat | p < s.inodes[i].size ensures RawIs(s, s, i, off, src, 0, p) {
      assert HasBlock(s, i, p / BSIZE);
    }
  }

  lemma OthersTrans(sb: Super, s: State, s1: State, s2: State, i: nat)
    requires OthersKeep(sb, s, s1, i) && OthersKeep(sb, s1, s2, i)
    ensures OthersKeep(sb, s, s2, i)
  {
    forall x | x in s.own && x.inum != i ensures KeptSlot(s, s2, x) {
      assert KeptSlot(s, s1, x) && KeptSlot(s1, s2, x);
    }
  }

  lemma WrittenChunk(sb: Super, s0: State, s: State, s': State, i: nat, off: nat, src: seq<nat>, tot: nat, m: nat)
    requires Written(sb, s0, s, i, off, src, tot) && tot + m <= |src|
    requires Chunk(sb, s, s', i, off + tot, src[tot..tot + m]) && (off + tot) % BSIZE + m <= BSIZE
    ensures Written(sb, s0, s', i, off, src, tot + m)
  {
    OthersTrans(sb, s0, s, s', i);
    var n := tot + m;
    forall p: nat | p < s0.inodes[i].size || p < off + n ensures RawIs(s0, s', i, off, src, n, p) {
      if off + tot <= p < off + tot + m {
        SameBlock(off + tot, m, p);
        assert Raw(s', i, off + tot + (p - off - tot)) == src[tot..tot + m][p - off - tot];
      } else {
        assert RawIs(s0, s, i, off, src, tot, p);
        assert RawKept(s, s', i, p);
      }
    }
  }

  /** How far writei() is: the bytes it has written, the blocks it has allocated and logged. */
  ghost predicate Writing(sb: Super, s0: State, s: State, i: nat, off: nat, src: seq<nat>, tot: nat, l0: set<nat>,
                          l: set<nat>) {
    var written, logs := Written(sb, s0, s, i, off, src, tot), l <= l0 + MayLog(sb, s, i, off, tot);
    var grew := Grew(sb, s0, s, i, off / BSIZE, EndBlock(off, tot));
    written && logs && grew
  }

  /** The end of writei(): the size becomes the maximum. */
  function Sized(s: State, i: nat, end: nat): State
    requires i < |s.inodes|
  {
    if end > s.inodes[i].size then Resize(s, i, end) else s
  }

  lemma SizedOk(sb: Super, s0: State, s: State, i: nat, off: nat, src: seq<nat>)
    requires Written(sb, s0, s, i, off, src, |src|) && off + |src| <= MAXFILE * BSIZE && i < |s.inodes|
    ensures Ok(sb, Sized(s, i, off + |src|)) && Spare(Sized(s, i, off + |src|), i) == Spare(s0, i)
  {
    var end := off + |src|;
    if end > s.inodes[i].size {
      forall bn: nat | bn * BSIZE < end ensures HasBlock(s, i, bn) {
        assert RawIs(s0, s, i, off, src, |src|, bn * BSIZE);
        assert bn * BSIZE / BSIZE == bn;
      }
      ResizeOk(sb, s, i, end);
      assert OwnedBy(Resize(s, i, end), i) == OwnedBy(s, i);
    }
  }

  /** writei() refines an overlay of byte sequences. */
  lemma SizedContent(s0: State, s: State, i: nat, off: nat, src: seq<nat>)
    requires RawsAre(s0, s, i, off, src, |src|) && i < |s.inodes| && s.inodes[i].size == s0.inodes[i].size
    ensures Content(Sized(s, i, off + |src|), i) == Overlay(Content(s0, i), off, src)
  {
    var s' := Sized(s, i, off + |src|);
    forall p: nat | p < |Content(s', i)| ensures Content(s', i)[p] == Overlay(Content(s0, i), off, src)[p] {
      assert RawIs(s0, s, i, off, src, |src|, p);
    }
  }

  lemma OthersContent(sb: Super, s0: State, s: State, i: nat, end: nat, j: nat)
    requires OthersKeep(sb, s0, s, i) && Ok(sb, s0) && i < |s.inodes| && j < |s.inodes| && j != i
    ensures Content(Sized(s, i, end), j) == Content(s0, j)
  {
    forall p: nat | p < s0.inodes[j].size ensures Raw(Sized(s, i, end), j, p) == Raw(s0, j, p) {
      assert HasBlock(s0, j, p / BSIZE);
      assert KeptSlot(s0, s, Slot(j, SlotK(p / BSIZE)));
    }
  }

  /** File i was overlaid with src at off and everything else is as before. */
  ghost predicate Overlaid(sb: Super, s0: State, s: State, i: nat, off: nat, src: seq<nat>) {
    var ok, spare, mine := Ok(sb, s), Spare(s, i) == Spare(s0, i), OverlaidFile(s0, s, i, off, src);
    var rest := OtherFiles(s0, s, i);
    ok && spare && mine && rest
  }

  ghost predicate OverlaidFile(s0: State, s: State, i: nat, off: nat, src: seq<nat>) {
    i < |s.inodes| == |s0.inodes| && off <= s0.inodes[i].size && Content(s, i) == Overlay(Content(s0, i), off, src)
  }

  ghost predicate OtherFiles(s0: State, s: State, i: nat) {
    |s.inodes| == |s0.inodes| && forall j: nat :: j < |s.inodes| && j != i ==> SameFile(s0, s, j)
  }

  ghost predicate SameFile(s0: State, s: State, j: nat) {
    j < |s.inodes| && j < |s0.inodes| && Content(s, j) == Content(s0, j)
  }

  lemma WrittenOverlays(sb: Super, s0: State, s: State, i: nat, off: nat, src: seq<nat>)
    requires Ok(sb, s0) && Written(sb, s0, s, i, off, src, |src|) && off + |src| <= MAXFILE * BSIZE && i < |s.inodes|
    ensures Overlaid(sb, s0, Sized(s, i, off + |src|), i, off, src)
  {
    SizedOk(sb, s0, s, i, off, src);
    SizedContent(s0, s, i, off, src);
    var s' := Sized(s, i, off + |src|);
    forall j: nat | j < |s'.inodes| && j != i ensures SameFile(s0, s', j) {
      OthersContent(sb, s0, s, i, off + |src|, j);
    }
  }

  lemma OverlayTwice(c: seq<nat>, off: nat, a: seq<nat>, b: seq<nat>)
    requires off <= |c|
    ensures Overlay(Overlay(c, off, a), off + |a|, b) == Overlay(c, off, a + b)
  {
  }

  lemma OverlaidNone(sb: Super, s: State, i: nat, off: nat, src: seq<nat>)
    requires Ok(sb, s) && i < |s.inodes| && off <= s.inodes[i].size
    ensures Overlaid(sb, s, s, i, off, src[..0])
  {
    assert Overlay(Content(s, i), off, []) == Content(s, i);
  }

  lemma OverlaidSize(sb: Super, s0: State, s: State, i: nat, off: nat, src: seq<nat>)
    requires Overlaid(sb, s0, s, i, off, src)
    ensures i < |s.inodes| && off + |src| <= s.inodes[i].size
  {
    assert |Content(s, i)| == |Overlay(Content(s0, i), off, src)|;
  }

  lemma OverlaidTwice(sb: Super, s: State, s1: State, s2: State, i: nat, off: nat, a: seq<nat>, b: seq<nat>)
    requires Overlaid(sb, s, s1, i, off, a) && Overlaid(sb, s1, s2, i, off + |a|, b)
    ensures Overlaid(sb, s, s2, i, off, a + b)
  {
    OverlayTwice(Content(s, i), off, a, b);
    forall j: nat | j < |s2.inodes| && j != i ensures SameFile(s, s2, j) {
      assert SameFile(s, s1, j) && SameFile(s1, s2, j);
    }
  }

  /** Truncating a file that was empty at s, after any writes to it, restores the bitmap of s. */
  lemma TruncateRestores(sb: Super, s: State, s1: State, s2: State, i: nat, b: nat)
    requires Ok(sb, s) && Ok(sb, s2) && OwnedBy(s, i) == {} && Spare(s1, i) == Spare(s, i) && s2.used == Spare(s1, i)
    requires b < sb.size
    ensures Marked(sb.bmapstart, s2.disk, b) == Marked(sb.bmapstart, s.disk, b)
  {
    assert MarkOk(sb, s, b) && MarkOk(sb, s2, b);
  }

  // ---------- the size of a transaction ----------

  predicate BlockBetween(bn: nat, lo: nat, hi: nat) { lo <= bn < hi }

  /** The data blocks of file i from block lo up to block hi. */
  function DataBlocks(s: State, i: nat, lo: nat, hi: nat): set<nat> {
    set bn: nat | bn < hi && BlockBetween(bn, lo, hi) :: Owned(s, i, SlotK(bn))
  }

  /** Everything that writing [off, off + n) of file i may log, inode block aside. */
  function MayLog(sb: Super, s: State, i: nat, off: nat, n: nat): set<nat> {
    BitmapBlocks(sb) + Indirect(s, i) + DataBlocks(s, i, off / BSIZE, (off + n + BSIZE - 1) / BSIZE)
  }

  lemma MayLogGrows(sb: Super, s: State, s': State, i: nat, off: nat, n: nat, m: nat)
    requires PointersStay(s, s', i)
    requires forall bn: nat :: BlockBetween(bn, off / BSIZE, (off + n + BSIZE - 1) / BSIZE) ==> HasBlock(s, i, bn)
    ensures MayLog(sb, s, i, off, n) <= MayLog(sb, s', i, off, n + m)
  {
    var lo, hi, hi' := off / BSIZE, (off + n + BSIZE - 1) / BSIZE, (off + (n + m) + BSIZE - 1) / BSIZE;
    forall c | c in DataBlocks(s, i, lo, hi) ensures c in DataBlocks(s', i, lo, hi') {
      var bn: nat :| BlockBetween(bn, lo, hi) && Owned(s, i, SlotK(bn)) == c;
      assert HasBlock(s, i, bn) && BlockBetween(bn, lo, hi');
    }
  }

  lemma MayLogSame(sb: Super, s: State, s': State, i: nat, off: nat, n: nat)
    requires s'.own == s.own
    ensures MayLog(sb, s', i, off, n) == MayLog(sb, s, i, off, n)
  {
  }

  lemma ChunkLogs(sb: Super, s: State, i: nat, off: nat, n: nat, m: nat)
    requires m > 0
    ensures Owned(s, i, SlotK((off + n) / BSIZE)) in MayLog(sb, s, i, off, n + m)
  {
    assert BlockBetween((off + n) / BSIZE, off / BSIZE, (off + (n + m) + BSIZE - 1) / BSIZE);
  }

  /** What one chunk adds to the log. */
  lemma LogsChunk(sb: Super, s0: State, s: State, s': State, i: nat, off: nat, src: seq<nat>, tot: nat, m: nat,
                  l0: set<nat>, l: set<nat>, l': set<nat>)
    requires Written(sb, s0, s, i, off, src, tot) && PointersStay(s, s', i) && m > 0
    requires l <= l0 + MayLog(sb, s, i, off, tot)
    requires l' <= l + BitmapBlocks(sb) + {Owned(s', i, SlotK((off + tot) / BSIZE))} + Indirect(s', i)
    ensures l' <= l0 + MayLog(sb, s', i, off, tot + m)
  {
    forall bn: nat | BlockBetween(bn, off / BSIZE, (off + tot + BSIZE - 1) / BSIZE) ensures HasBlock(s, i, bn) {
      assert RawIs(s0, s, i, off, src, tot, bn * BSIZE);
      assert bn * BSIZE / BSIZE == bn;
    }
    MayLogGrows(sb, s, s', i, off, tot, m);
    ChunkLogs(sb, s', i, off, tot, m);
  }

  /** What a round of writei() copies: all that is left, as far as it lies in one block. */
  method NextSize(off: nat, tot: nat, n: nat) returns (m: nat)
    requires tot < n && off + n <= MAXFILE * BSIZE
    ensures 0 < m <= n - tot && (off + tot) % BSIZE + m <= BSIZE && (off + tot) / BSIZE < MAXFILE
    ensures m == n - tot || (off + tot) % BSIZE + m == BSIZE
  {
    m := Min(n - tot, BSIZE - (off + tot) % BSIZE);
  }

  lemma NextWritten(sb: Super, s0: State, s: State, s': State, i: nat, off: nat, src: seq<nat>, tot: nat, m: nat,
                    tot': nat, l0: set<nat>, l: set<nat>, l': set<nat>)
    requires tot' == tot + m
    requires Written(sb, s0, s, i, off, src, tot) && 0 < m && tot + m <= |src| && (off + tot) % BSIZE + m <= BSIZE
    requires Chunk(sb, s, s', i, off + tot, src[tot..tot + m]) && l <= l0 + MayLog(sb, s, i, off, tot)
    requires l' <= l + BitmapBlocks(sb) + {Owned(s', i, SlotK((off + tot) / BSIZE))} + Indirect(s', i)
    ensures Written(sb, s0, s', i, off, src, tot') && l' <= l0 + MayLog(sb, s', i, off, tot')
  {
    WrittenChunk(sb, s0, s, s', i, off, src, tot, m);
    LogsChunk(sb, s0, s, s', i, off, src, tot, m, l0, l, l');
  }

  lemma NextGrew(sb: Super, s0: State, s: State, s': State, i: nat, off: nat, tot: nat, m: nat, tot': nat)
    requires tot' == tot + m
    requires Grew(sb, s0, s, i, off / BSIZE, EndBlock(off, tot)) && m > 0 && (off + tot) % BSIZE + m <= BSIZE
    requires Grew(sb, s, s', i, (off + tot) / BSIZE, (off + tot) / BSIZE + 1)
    ensures Grew(sb, s0, s', i, off / BSIZE, EndBlock(off, tot'))
  {
    NextBlock(off, tot, m);
    GrewTrans(sb, s0, s, s', i, off / BSIZE, (off + tot) / BSIZE, EndBlock(off, tot), EndBlock(off, tot + m));
  }

  lemma NextWriting(sb: Super, s0: State, s: State, s': State, i: nat, off: nat, src: seq<nat>, tot: nat, m: nat,
                    tot': nat, l0: set<nat>, l: set<nat>, l': set<nat>)
    requires tot' == tot + m
    requires Writing(sb, s0, s, i, off, src, tot, l0, l) && 0 < m && tot + m <= |src| &&
      (off + tot) % BSIZE + m <= BSIZE
    requires Chunk(sb, s, s', i, off + tot, src[tot..tot + m])
    requires Grew(sb, s, s', i, (off + tot) / BSIZE, (off + tot) / BSIZE + 1)
    requires l' <= l + BitmapBlocks(sb) + {Owned(s', i, SlotK((off + tot) / BSIZE))} + Indirect(s', i)
    ensures Writing(sb, s0, s', i, off, src, tot', l0, l')
  {
    NextWritten(sb, s0, s, s', i, off, src, tot, m, tot', l0, l, l');
    NextGrew(sb, s0, s, s', i, off, tot, m, tot');
  }

  lemma NextTooMany(sb: Super, s0: State, s: State, i: nat, off: nat, tot: nat, m: nat, n: nat)
    requires Grew(sb, s0, s, i, off / BSIZE, EndBlock(off, tot)) && m > 0 && (off + tot) % BSIZE + m <= BSIZE &&
      tot + m <= n
    requires Missing(s, i, (off + tot) / BSIZE, (off + tot) / BSIZE + 1) > FreeBlocks(sb, s)
    ensures Missing(s0, i, off / BSIZE, EndBlock(off, n)) > FreeBlocks(sb, s0)
  {
    var bn := (off + tot) / BSIZE;
    NextBlock(off, tot, m);
    EndBlockGrows(off, tot + m, n);
    TooMany(sb, s0, s, i, off / BSIZE, bn, EndBlock(off, tot), bn + 1, EndBlock(off, n));
  }

  lemma {:induction false} DataBlocksFew(s: State, i: nat, lo: nat, hi: nat)
    requires lo <= hi
    ensures |DataBlocks(s, i, lo, hi)| <= hi - lo
    decreases hi - lo
  {
    if lo == hi {
      assert DataBlocks(s, i, lo, hi) == {};
    } else {
      DataBlocksFew(s, i, lo, hi - 1);
      var last := Owned(s, i, SlotK(hi - 1));
      DataBlocksLast(s, i, lo, hi - 1);
      SubsetSize(DataBlocks(s, i, lo, hi), DataBlocks(s, i, lo, hi - 1) + {last});
      UnionSize(DataBlocks(s, i, lo, hi - 1), {last});
    }
  }

  lemma DataBlocksLast(s: State, i: nat, lo: nat, hi: nat)
    ensures DataBlocks(s, i, lo, hi + 1) <= DataBlocks(s, i, lo, hi) + {Owned(s, i, SlotK(hi))}
  {
    forall c | c in DataBlocks(s, i, lo, hi + 1) ensures c in DataBlocks(s, i, lo, hi) || c == Owned(s, i, SlotK(hi)) {
      var bn: nat :| BlockBetween(bn, lo, hi + 1) && Owned(s, i, SlotK(bn)) == c;
      assert bn < hi ==> BlockBetween(bn, lo, hi);
    }
  }

  /** The most filewrite() writes in one transaction. */
  const MAXCHUNK: nat := (MAXOPBLOCKS - 1 - 1 - 2) / 2 * BSIZE

  /** How many bytes the next round of filewrite() writes, after k of n. */
  function NextChunk(k: nat, n: nat): (n1: nat)
    requires k < n
    ensures 0 < n1 <= MAXCHUNK && k + n1 <= n
  {
    if n - k > MAXCHUNK then MAXCHUNK else n - k
  }

  /** How many bytes filewrite() gets to, from k on, before a chunk that would make the file too large. */
  function Accepted(off: nat, k: nat, n: nat): (m: nat)
    requires k <= n
    ensures k <= m <= n
    decreases n - k
  {
    if k == n then n
    else if off + k + NextChunk(k, n) > MAXFILE * BSIZE then k
    else Accepted(off, k + NextChunk(k, n), n)
  }

  lemma AcceptedStep(off: nat, k: nat, n: nat)
    requires k < n
    ensures var k' := k + NextChunk(k, n);
      Accepted(off, k, n) == if off + k' > MAXFILE * BSIZE then k else Accepted(off, k', n)
  {
  }

  /** All bytes if the file stays small enough; otherwise as many whole chunks as fit. */
  lemma {:induction false} AcceptedIs(off: nat, k: nat, n: nat)
    requires k <= n && off + k <= MAXFILE * BSIZE && k % MAXCHUNK == 0
    ensures var m := Accepted(off, k, n);
      (m == n <==> off + n <= MAXFILE * BSIZE) &&
      (m < n ==> m % MAXCHUNK == 0 && off + m <= MAXFILE * BSIZE && off + m + NextChunk(m, n) > MAXFILE * BSIZE)
    decreases n - k
  {
    if k < n && off + k + NextChunk(k, n) <= MAXFILE * BSIZE && n - k > MAXCHUNK {
      AcceptedIs(off, k + MAXCHUNK, n);
    }
  }

  /** How far filewrite() is: the first k bytes are in the file, and their blocks are allocated. */
  ghost predicate Filed(sb: Super, s0: State, s: State, i: nat, off: nat, src: seq<nat>, k: nat) {
    var fits := k <= |src|;
    var overlaid := fits && Overlaid(sb, s0, s, i, off, src[..k]);
    var grew := Grew(sb, s0, s, i, off / BSIZE, EndBlock(off, k));
    fits && overlaid && grew
  }

  lemma FiledMore(sb: Super, s0: State, s: State, s': State, i: nat, off: nat, src: seq<nat>, k: nat, n1: nat, k': nat)
    requires Filed(sb, s0, s, i, off, src, k) && 0 < n1 && k' == k + n1 <= |src|
    requires Overlaid(sb, s, s', i, off + k, src[k..k + n1])
    requires Grew(sb, s, s', i, (off + k) / BSIZE, EndBlock(off + k, n1))
    ensures Filed(sb, s0, s', i, off, src, k')
  {
    OverlaidTwice(sb, s0, s, s', i, off, src[..k], src[k..k + n1]);
    assert src[..k] + src[k..k + n1] == src[..k + n1];
    NextStretch(off, k, n1);
    GrewTrans(sb, s0, s, s', i, off / BSIZE, (off + k) / BSIZE, EndBlock(off, k), EndBlock(off, k + n1));
  }

  lemma FiledTooMany(sb: Super, s0: State, s: State, i: nat, off: nat, src: seq<nat>, k: nat, n1: nat, k': nat)
    requires Filed(sb, s0, s, i, off, src, k) && 0 < n1 && k' == k + n1
    requires Missing(s, i, (off + k) / BSIZE, EndBlock(off + k, n1)) > FreeBlocks(sb, s)
    ensures Missing(s0, i, off / BSIZE, EndBlock(off, k')) > FreeBlocks(sb, s0)
  {
    var hi := EndBlock(off, k + n1);
    NextStretch(off, k, n1);
    TooMany(sb, s0, s, i, off / BSIZE, (off + k) / BSIZE, EndBlock(off, k), hi, hi);
  }

  /** The chunks that filewrite() would write take more blocks than are free. */
  ghost predicate RunsOut(sb: Super, s: State, i: nat, off: nat, n: nat) {
    Missing(s, i, off / BSIZE, EndBlock(off, Accepted(off, 0, n))) > FreeBlocks(sb, s)
  }

  lemma FiledFits(sb: Super, s0: State, s: State, i: nat, off: nat, src: seq<nat>, k: nat)
    requires Filed(sb, s0, s, i, off, src, k) && k == Accepted(off, 0, |src|)
    ensures !RunsOut(sb, s0, i, off, |src|)
  {
  }

  lemma ChunkRunsOut(sb: Super, s: State, i: nat, off: nat, k': nat, n: nat)
    requires k' <= Accepted(off, 0, n) && Missing(s, i, off / BSIZE, EndBlock(off, k')) > FreeBlocks(sb, s)
    ensures RunsOut(sb, s, i, off, n)
  {
    EndBlockGrows(off, k', Accepted(off, 0, n));
    MissingGrows(s, i, off / BSIZE, EndBlock(off, k'), EndBlock(off, Accepted(off, 0, n)));
  }

  /** With one bitmap block, a chunk logs at most seven blocks, inode block included. */
  lemma ChunkFits(sb: Super, s: State, i: nat, off: nat, n: nat, inodeBlock: nat)
    requires sb.size < BPB && n <= MAXCHUNK
    ensures |MayLog(sb, s, i, off, n) + {inodeBlock}| <= 7 <= MAXOPBLOCKS
  {
    assert BitmapBlocks(sb) == {sb.bmapstart} by { assert InBitmap(sb, sb.bmapstart); }
    var lo, hi := off / BSIZE, (off + n + BSIZE - 1) / BSIZE;
    DataBlocksFew(s, i, lo, hi);
    assert hi - lo <= 4;
    UnionSize(BitmapBlocks(sb), Indirect(s, i));
    UnionSize(BitmapBlocks(sb) + Indirect(s, i), DataBlocks(s, i, lo, hi));
    UnionSize(MayLog(sb, s, i, off, n), {inodeBlock});
  }

  lemma LogFits(sb: Super, s: State, i: nat, off: nat, n: nat, inodeBlock: nat, l: set<nat>)
    requires sb.size < BPB && n <= MAXCHUNK && l <= {} + MayLog(sb, s, i, off, n) + {inodeBlock}
    ensures |l| <= MAXOPBLOCKS
  {
    ChunkFits(sb, s, i, off, n, inodeBlock);
    SubsetSize(l, MayLog(sb, s, i, off, n) + {inodeBlock});
  }

  lemma UnionSize(a: set<nat>, b: set<nat>)
    ensures |a + b| <= |a| + |b|
  {
    assert a + b == a + (b - a);
    assert |b - a| <= |b| by { SubsetSize(b - a, b); }
  }

  /** The part of a block that readi() copies. */
  lemma ChunkRead(sb: Super, s: State, i: nat, off: nat, m: nat)
    requires Ok(sb, s) && i < |s.inodes| && off % BSIZE + m <= BSIZE && off + m <= s.inodes[i].size && m > 0
    ensures HasBlock(s, i, off / BSIZE) && |At(s.disk, Owned(s, i, SlotK(off / BSIZE)))| == BSIZE
    ensures At(s.disk, Owned(s, i, SlotK(off / BSIZE)))[off % BSIZE..off % BSIZE + m] == Content(s, i)[off..off + m]
  {
    assert HasBlock(s, i, off / BSIZE);
    forall p | off <= p < off + m
      ensures Raw(s, i, p) == At(s.disk, Owned(s, i, SlotK(off / BSIZE)))[off % BSIZE + (p - off)]
    {
      SameBlock(off, m, p);
    }
  }

  /** mkfs has marked the first n blocks. */
  ghost predicate Formatted(sb: Super, disk: seq<Block>, n: nat) {
    |disk| == sb.size && (forall b :: 0 <= b < sb.size ==> |disk[b]| == BSIZE) &&
    forall b: nat :: b < sb.size ==> (Marked(sb.bmapstart, disk, b) <==> b < n)
  }

  lemma {:induction false} ZeroBit(k: nat)
    ensures !Bit(0, k)
  {
    if k > 0 { ZeroBit(k - 1); }
  }

  lemma FormatNone(sb: Super)
    ensures Formatted(sb, seq(sb.size, _ => ZeroBlock()), 0)
  {
    var disk: seq<Block> := seq(sb.size, _ => ZeroBlock());
    forall b: nat | b < sb.size ensures !Marked(sb.bmapstart, disk, b) { ZeroBit(b % BPB % 8); }
  }

  lemma FormatOne(sb: Super, disk: seq<Block>, n: nat)
    requires ValidSuper(sb) && Formatted(sb, disk, n) && n < sb.datastart
    ensures Formatted(sb, PutMark(sb.bmapstart, disk, n, SetBit(MarkByte(sb.bmapstart, disk, n), n % BPB % 8)), n + 1)
  {
    assert n / BPB <= sb.size / BPB;
    var disk' := PutMark(sb.bmapstart, disk, n, SetBit(MarkByte(sb.bmapstart, disk, n), n % BPB % 8));
    forall b: nat | b < sb.size ensures Marked(sb.bmapstart, disk', b) <==> b < n + 1 {
      MarkOne(sb.bmapstart, disk, n, b);
    }
  }

  lemma FormatOk(sb: Super, s: State)
    requires ValidSuper(sb) && Formatted(sb, s.disk, sb.datastart) && s.own == map[]
    requires forall i :: 0 <= i < |s.inodes| ==> s.inodes[i] == EmptyInode()
    requires forall b: nat :: b in s.used <==> b < sb.datastart
    ensures Ok(sb, s)
  {
    forall b: nat | b < sb.size ensures MarkOk(sb, s, b) { }
    forall i: nat, k: nat | i < |s.inodes| && k < NSLOTS ensures PtrOk(s, i, k) { }
  }

  // ---------- what is changed is logged ----------

  ghost predicate LoggedAt(d0: seq<Block>, d: seq<Block>, l: set<nat>, b: nat) { At(d, b) != At(d0, b) ==> b in l }

  /** Every block that differs between two disks is in l. */
  ghost predicate Logs(d0: seq<Block>, d: seq<Block>, l: set<nat>) {
    forall b: nat {:trigger LoggedAt(d0, d, l, b)} :: LoggedAt(d0, d, l, b)
  }

  lemma LogsMore(d0: seq<Block>, d: seq<Block>, l: set<nat>, l': set<nat>)
    requires l <= l'
    ensures Logs(d0, d, l) ==> Logs(d0, d, l')
  {
    if Logs(d0, d, l) {
      forall b: nat ensures LoggedAt(d0, d, l', b) { assert LoggedAt(d0, d, l, b); }
    }
  }

  lemma LogsPut(d0: seq<Block>, d: seq<Block>, l: set<nat>, c: nat, blk: Block)
    ensures Logs(d0, d, l) ==> Logs(d0, PutBlock(d, c, blk), l + {c})
  {
    if Logs(d0, d, l) {
      forall b: nat ensures LoggedAt(d0, PutBlock(d, c, blk), l + {c}, b) { assert LoggedAt(d0, d, l, b); }
    }
  }

  lemma LogsMark(d0: seq<Block>, d: seq<Block>, l: set<nat>, bmapstart: nat, c: nat, x: nat)
    ensures Logs(d0, d, l) ==> Logs(d0, PutMark(bmapstart, d, c, x), l + {bmapstart + c / BPB})
  {
    var m := bmapstart + c / BPB;
    LogsPut(d0, d, l, m, PutByte(At(d, m), c % BPB / 8, x));
  }

  class FileSystem {
    const sb: Super
    var disk: seq<Block>
    var inodes: seq<Inode>
    ghost var own: map<Slot, nat>
    ghost var used: set<nat>
    ghost var logged: set<nat>
    /** The disk when the operation began. */
    ghost var before: seq<Block>

    /** Every block that the operation has changed is logged. */
    ghost predicate AllLogged()
      reads this
    {
      Logs(before, disk, logged)
    }

    ghost function S(): State
      reads this
    {
      State(disk, inodes, own, used)
    }

    ghost predicate Valid()
      reads this
    {
      Ok(sb, S())
    }

    /** mkfs: no inode has a block, and the bitmap marks exactly the blocks before the data blocks. */
    constructor (super: Super, ninodes: nat)
      requires ValidSuper(super)
      ensures Valid() && sb == super && |inodes| == ninodes && own == map[]
      ensures forall i :: 0 <= i < ninodes ==> inodes[i] == EmptyInode()
      ensures forall b: nat :: b in used <==> b < sb.datastart
    {
      sb, inodes, own, used, logged := super, seq(ninodes, _ => EmptyInode()), map[], Upto(super.datastart), {};
      before := [];
      var d: seq<Block> := seq(super.size, _ => ZeroBlock());
      var b := 0;
      FormatNone(super);
      while b < super.datastart
        invariant 0 <= b <= super.datastart && Formatted(super, d, b)
      {
        FormatOne(super, d, b);
        d := PutMark(super.bmapstart, d, b, SetBit(MarkByte(super.bmapstart, d, b), b % BPB % 8));
        b := b + 1;
      }
      disk := d;
      new;
      FormatOk(sb, S());
    }

    /** The loops of balloc(): the first free block, or -1. */
    method FirstFree() returns (r: int)
      requires Valid()
      ensures r < 0 ==> forall b: nat :: b < sb.size ==> b in used
      ensures r >= 0 ==> r < sb.size && r !in used && forall b: nat :: b < r ==> b in used
    {
      var b := 0;
      while b < sb.size
        invariant b % BPB == 0 && forall c: nat :: c < b && c < sb.size ==> c in used
      {
        var bp := At(disk, sb.bmapstart + b / BPB);
        var bi := 0;
        while bi < BPB && b + bi < sb.size
          invariant 0 <= bi <= BPB && forall c: nat :: c < b + bi && c < sb.size ==> c in used
        {
          BitOf(sb, S(), b, bi);
          if !Bit(Byte(bp, bi / 8), bi % 8) {
            return b + bi;
          }
          bi := bi + 1;
        }
        b := b + BPB;
      }
      r := -1;
    }

    /** balloc(): the first free block, marked and zeroed, or -1 for the panic when there is none. */
    method Balloc() returns (r: int)
      requires Valid()
      modifies this`disk, this`used, this`logged
      ensures old(AllLogged()) ==> AllLogged()
      ensures Valid() && Keeps(old(S()), S())
      ensures r < 0 <==> FreeBlocks(sb, old(S())) == 0
      ensures r < 0 ==> S() == old(S()) && forall b: nat :: b < sb.size ==> b in used
      ensures r >= 0 ==> S() == Allocate(sb, old(S()), r) && Loose(sb, S(), r) && r !in old(used)
      ensures r >= 0 ==>
        FreeBlocks(sb, S()) + 1 == FreeBlocks(sb, old(S())) && forall b: nat :: b < r ==> b in old(used)
      ensures logged == old(logged) + if r < 0 then {} else {sb.bmapstart + r / BPB, r}
    {
      CountNone(used, sb.size);
      r := FirstFree();
      if r >= 0 {
        Mark(r);
      }
    }

    method Mark(b: nat)
      requires Valid() && b < sb.size && b !in used
      modifies this`disk, this`used, this`logged
      ensures old(AllLogged()) ==> AllLogged()
      ensures Valid() && Keeps(old(S()), S())
      ensures S() == Allocate(sb, old(S()), b) && Loose(sb, S(), b)
      ensures FreeBlocks(sb, S()) + 1 == FreeBlocks(sb, old(S()))
      ensures logged == old(logged) + {sb.bmapstart + b / BPB, b}
    {
      CountTake(used, b, sb.size);
      AllocateOk(sb, S(), b);
      LogsMark(before, disk, logged, sb.bmapstart, b, SetBit(MarkByte(sb.bmapstart, disk, b), b % BPB % 8));
      disk := PutMark(sb.bmapstart, disk, b, SetBit(MarkByte(sb.bmapstart, disk, b), b % BPB % 8));
      LogsPut(before, disk, logged + {sb.bmapstart + b / BPB}, b, ZeroBlock());
      assert logged + {sb.bmapstart + b / BPB, b} == logged + {sb.bmapstart + b / BPB} + {b};
      disk := PutBlock(disk, b, ZeroBlock());
      used, logged := used + {b}, logged + {sb.bmapstart + b / BPB, b};
    }

    /** A new block for one of the 13 pointers in the inode. */
    method Extend(i: nat, k: nat) returns (r: int)
      requires Valid() && i < |inodes| && k <= NDIRECT && Slot(i, k) !in own
      modifies this`disk, this`inodes, this`own, this`used, this`logged
      ensures old(AllLogged()) ==> AllLogged()
      ensures Mapped(sb, old(S()), S(), i)
      ensures r >= 0 ==> Slot(i, k) in own && own[Slot(i, k)] == r && At(disk, r) == ZeroBlock()
      ensures r >= 0 ==> Gained(sb, old(S()), S(), Slot(i, k)) && logged <= old(logged) + BitmapBlocks(sb) + {r}
      ensures r < 0 <==> FreeBlocks(sb, old(S())) == 0
      ensures r < 0 ==> forall b: nat :: b < sb.size ==> b in used
    {
      r := Balloc();
      if r < 0 {
        MappedSame(sb, S(), i);
        return;
      }
      ghost var s1 := S();
      AttachOk(sb, s1, i, k, r);
      inodes := inodes[i := inodes[i].(addrs := inodes[i].addrs[k := r])];
      own := own[Slot(i, k) := r];
      MappedAttach(sb, old(S()), s1, S(), i, k, r);
      assert r / BPB <= sb.size / BPB;
    }

    /** A new block for an entry of the indirect block. */
    method ExtendIndirect(i: nat, j: nat) returns (r: int)
      requires Valid() && i < |inodes| && j < NINDIRECT && Slot(i, NDIRECT) in own && Slot(i, 13 + j) !in own
      modifies this`disk, this`own, this`used, this`logged
      ensures old(AllLogged()) ==> AllLogged()
      ensures Mapped(sb, old(S()), S(), i)
      ensures r >= 0 ==> Slot(i, 13 + j) in own && own[Slot(i, 13 + j)] == r && At(disk, r) == ZeroBlock()
      ensures r >= 0 ==> Gained(sb, old(S()), S(), Slot(i, 13 + j))
      ensures r >= 0 ==> logged <= old(logged) + BitmapBlocks(sb) + {r} + Indirect(old(S()), i)
      ensures r < 0 <==> FreeBlocks(sb, old(S())) == 0
      ensures r < 0 ==> forall b: nat :: b < sb.size ==> b in used
    {
      r := Balloc();
      if r < 0 {
        MappedSame(sb, S(), i);
        return;
      }
      MarkInBitmap(sb, r);
      AttachEntryNow(i, j, r, old(S()));
    }

    /** The new block becomes an entry of the indirect block. */
    method AttachEntryNow(i: nat, j: nat, r: nat, ghost s: State)
      requires Ok(sb, s) && r !in s.used && S() == Allocate(sb, s, r) && Keeps(s, S()) && Valid() && Loose(sb, S(), r)
      requires i < |inodes| && j < NINDIRECT && Slot(i, NDIRECT) in own && Slot(i, 13 + j) !in own
      requires FreeBlocks(sb, S()) + 1 == FreeBlocks(sb, s)
      modifies this`disk, this`own, this`logged
      ensures Mapped(sb, s, S(), i) && Gained(sb, s, S(), Slot(i, 13 + j))
      ensures Slot(i, 13 + j) in own && own[Slot(i, 13 + j)] == r && At(disk, r) == ZeroBlock()
      ensures logged == old(logged) + {old(own)[Slot(i, NDIRECT)]} && (old(AllLogged()) ==> AllLogged())
    {
      ghost var s1 := S();
      AttachEntryOk(sb, s1, i, j, r);
      PutEntry(i, j, r);
      MappedAttach(sb, s, s1, S(), i, 13 + j, r);
    }

    /** The entry of the indirect block. */
    method PutEntry(i: nat, j: nat, b: nat)
      requires Valid() && i < |inodes| && Slot(i, NDIRECT) in own && 4 * j + 3 < |At(disk, own[Slot(i, NDIRECT)])|
      modifies this`disk, this`own, this`logged
      ensures S() == AttachEntry(old(S()), i, j, b) && logged == old(logged) + {old(own)[Slot(i, NDIRECT)]}
      ensures old(AllLogged()) ==> AllLogged()
    {
      assert PtrOk(S(), i, NDIRECT);
      var addr := inodes[i].addrs[NDIRECT];
      LogsPut(before, disk, logged, addr, PutWord(At(disk, addr), j, b));
      disk := PutBlock(disk, addr, PutWord(At(disk, addr), j, b));
      own, logged := own[Slot(i, 13 + j) := b], logged + {addr};
    }

    /** bmap() for one of the direct blocks. */
    method BmapDirect(i: nat, bn: nat) returns (r: int)
      requires Valid() && i < |inodes| && bn < NDIRECT
      modifies this`disk, this`inodes, this`own, this`used, this`logged
      ensures old(AllLogged()) ==> AllLogged()
      ensures Mapped(sb, old(S()), S(), i)
      ensures r >= 0 ==> HasBlock(S(), i, bn) && own[Slot(i, SlotK(bn))] == r && Grew(sb, old(S()), S(), i, bn, bn + 1)
      ensures r >= 0 && !HasBlock(old(S()), i, bn) ==> At(disk, r) == ZeroBlock()
      ensures HasBlock(old(S()), i, bn) ==> r >= 0 && S() == old(S()) && logged == old(logged)
      ensures r >= 0 ==> logged <= old(logged) + BitmapBlocks(sb) + {r}
      ensures r < 0 <==> Missing(old(S()), i, bn, bn + 1) > FreeBlocks(sb, old(S()))
      ensures r < 0 ==> forall b: nat :: b < sb.size ==> b in used
    {
      ghost var s := S();
      assert PtrOk(s, i, bn);
      r := inodes[i].addrs[bn];
      if r == 0 {
        OneMissing(s, i, bn);
        r := Extend(i, bn);
        if r >= 0 { GainedOne(sb, s, S(), i, bn); }
      } else {
        NothingMissing(sb, s, i, bn);
        MappedSame(sb, s, i);
      }
    }

    /** The entry of the indirect block, which exists by now, for block bn. */
    method BmapEntry(i: nat, bn: nat) returns (r: int)
      requires Valid() && i < |inodes| && NDIRECT <= bn < MAXFILE && Slot(i, NDIRECT) in own
      modifies this`disk, this`own, this`used, this`logged
      ensures old(AllLogged()) ==> AllLogged()
      ensures Mapped(sb, old(S()), S(), i) && Indirect(S(), i) == Indirect(old(S()), i)
      ensures r >= 0 ==> HasBlock(S(), i, bn) && own[Slot(i, SlotK(bn))] == r
      ensures r >= 0 && !HasBlock(old(S()), i, bn) ==> At(disk, r) == ZeroBlock()
      ensures HasBlock(old(S()), i, bn) ==> r >= 0 && S() == old(S()) && logged == old(logged)
      ensures r >= 0 && !HasBlock(old(S()), i, bn) ==> Gained(sb, old(S()), S(), Slot(i, SlotK(bn)))
      ensures r >= 0 ==> logged <= old(logged) + BitmapBlocks(sb) + {r} + Indirect(old(S()), i)
      ensures r < 0 <==> !HasBlock(old(S()), i, bn) && FreeBlocks(sb, old(S())) == 0
      ensures r < 0 ==> forall b: nat :: b < sb.size ==> b in used
    {
      assert PtrOk(S(), i, NDIRECT) && PtrOk(S(), i, bn + 1);
      r := Word(At(disk, inodes[i].addrs[NDIRECT]), bn - NDIRECT);
      if r == 0 {
        r := ExtendIndirect(i, bn - NDIRECT);
        assert KeptSlot(old(S()), S(), Slot(i, NDIRECT));
      } else {
        MappedSame(sb, S(), i);
      }
    }

    /** bmap() for a block beyond the direct ones. */
    method BmapIndirect(i: nat, bn: nat) returns (r: int)
      requires Valid() && i < |inodes| && NDIRECT <= bn < MAXFILE
      modifies this`disk, this`inodes, this`own, this`used, this`logged
      ensures old(AllLogged()) ==> AllLogged()
      ensures Mapped(sb, old(S()), S(), i)
      ensures r >= 0 ==> HasBlock(S(), i, bn) && own[Slot(i, SlotK(bn))] == r && Grew(sb, old(S()), S(), i, bn, bn + 1)
      ensures r >= 0 && !HasBlock(old(S()), i, bn) ==> At(disk, r) == ZeroBlock()
      ensures HasBlock(old(S()), i, bn) ==> r >= 0 && S() == old(S()) && logged == old(logged)
      ensures r >= 0 ==> logged <= old(logged) + BitmapBlocks(sb) + {r} + Indirect(S(), i)
      ensures r < 0 <==> Missing(old(S()), i, bn, bn + 1) > FreeBlocks(sb, old(S()))
      ensures r < 0 ==> forall b: nat :: b < sb.size ==> b in used
    {
      assert PtrOk(S(), i, NDIRECT) && PtrOk(S(), i, bn + 1);
      if inodes[i].addrs[NDIRECT] == 0 {
        r := BmapNewIndirect(i, bn);
      } else {
        ghost var s := S();
        if HasBlock(s, i, bn) { NothingMissing(sb, s, i, bn); } else { OneMissing(s, i, bn); }
        r := BmapEntry(i, bn);
        if r >= 0 && !HasBlock(s, i, bn) { GainedOne(sb, s, S(), i, bn); }
      }
    }

    /** The same for a file that has no indirect block yet. */
    method BmapNewIndirect(i: nat, bn: nat) returns (r: int)
      requires Valid() && i < |inodes| && NDIRECT <= bn < MAXFILE && Slot(i, NDIRECT) !in own
      modifies this`disk, this`inodes, this`own, this`used, this`logged
      ensures old(AllLogged()) ==> AllLogged()
      ensures Mapped(sb, old(S()), S(), i) && !HasBlock(old(S()), i, bn)
      ensures r >= 0 ==> HasBlock(S(), i, bn) && own[Slot(i, SlotK(bn))] == r && Grew(sb, old(S()), S(), i, bn, bn + 1)
      ensures r >= 0 ==> At(disk, r) == ZeroBlock()
      ensures r >= 0 ==> logged <= old(logged) + BitmapBlocks(sb) + {r} + Indirect(S(), i)
      ensures r < 0 <==> Missing(old(S()), i, bn, bn + 1) > FreeBlocks(sb, old(S()))
      ensures r < 0 ==> forall b: nat :: b < sb.size ==> b in used
    {
      ghost var s := S();
      TwoMissing(sb, s, i, bn);
      r := Extend(i, NDIRECT);
      if r < 0 {
        return;
      }
      ghost var s1 := S();
      r := BmapEntry(i, bn);
      MappedTrans(sb, s, s1, S(), i);
      if r >= 0 { GainedTwo(sb, s, s1, S(), i, bn); }
    }

    /** bmap(): the block that holds block bn of file i, allocated if need be; -1 for its panics. */
    method Bmap(i: nat, bn: nat) returns (r: int)
      requires Valid() && i < |inodes|
      modifies this`disk, this`inodes, this`own, this`used, this`logged
      ensures old(AllLogged()) ==> AllLogged()
      ensures Mapped(sb, old(S()), S(), i)
      ensures r >= 0 ==> HasBlock(S(), i, bn) && own[Slot(i, SlotK(bn))] == r && Grew(sb, old(S()), S(), i, bn, bn + 1)
      ensures r >= 0 && !HasBlock(old(S()), i, bn) ==> At(disk, r) == ZeroBlock()
      ensures HasBlock(old(S()), i, bn) ==> r >= 0 && S() == old(S()) && logged == old(logged)
      ensures r >= 0 ==> logged <= old(logged) + BitmapBlocks(sb) + {r} + Indirect(S(), i)
      ensures r < 0 <==> bn >= MAXFILE || Missing(old(S()), i, bn, bn + 1) > FreeBlocks(sb, old(S()))
      ensures r < 0 ==> bn >= MAXFILE || forall b: nat :: b < sb.size ==> b in used
    {
      if bn < NDIRECT {
        r := BmapDirect(i, bn);
      } else if bn < MAXFILE {
        r := BmapIndirect(i, bn);
      } else {
        r := -1;
        MappedSame(sb, S(), i);
      }
    }

    /** The body of readi()'s loop. */
    method ReadChunk(i: nat, off: nat, m: nat) returns (d: seq<nat>)
      requires Valid() && i < |inodes| && off % BSIZE + m <= BSIZE && off + m <= inodes[i].size && m > 0
      modifies this`disk, this`inodes, this`own, this`used, this`logged
      ensures S() == old(S()) && logged == old(logged) && d == Content(S(), i)[off..off + m]
    {
      ChunkRead(sb, S(), i, off, m);
      var b := Bmap(i, off / BSIZE);
      d := At(disk, b)[off % BSIZE..off % BSIZE + m];
    }

    /** readi(): the requested bytes, cut at the file's size; nothing is allocated. */
    method Readi(i: nat, off: nat, n: nat) returns (r: seq<nat>)
      requires Valid() && i < |inodes| && off < U32 && n < U32
      modifies this`disk, this`inodes, this`own, this`used, this`logged
      ensures S() == old(S()) && logged == old(logged)
      ensures r == if off + n >= U32 then [] else Slice(Content(S(), i), off, n)
    {
      if off > inodes[i].size || off + n >= U32 {
        return [];
      }
      var len := if off + n > inodes[i].size then inodes[i].size - off else n;
      var tot := 0;
      r := [];
      while tot < len
        invariant 0 <= tot <= len && S() == old(S()) && logged == old(logged)
        invariant r == Content(S(), i)[off..off + tot]
      {
        var m := Min(len - tot, BSIZE - (off + tot) % BSIZE);
        var d := ReadChunk(i, off + tot, m);
        Adjacent(Content(S(), i), off, tot, m);
        r, tot := r + d, tot + m;
      }
    }

    /** The body of writei()'s loop: bmap, then copy the bytes into the block. */
    method WriteChunk(i: nat, off: nat, d: seq<nat>) returns (r: int)
      requires Valid() && i < |inodes| && off % BSIZE + |d| <= BSIZE && off / BSIZE < MAXFILE
      modifies this`disk, this`inodes, this`own, this`used, this`logged
      ensures old(AllLogged()) ==> AllLogged()
      ensures r >= 0 ==> Chunk(sb, old(S()), S(), i, off, d)
      ensures r >= 0 ==>
        Owned(S(), i, SlotK(off / BSIZE)) == r && Grew(sb, old(S()), S(), i, off / BSIZE, off / BSIZE + 1)
      ensures r >= 0 ==> logged <= old(logged) + BitmapBlocks(sb) + {r} + Indirect(S(), i)
      ensures r < 0 <==> Missing(old(S()), i, off / BSIZE, off / BSIZE + 1) > FreeBlocks(sb, old(S()))
      ensures r < 0 ==> forall b: nat :: b < sb.size ==> b in used
    {
      ghost var s := S();
      r := Bmap(i, off / BSIZE);
      if r >= 0 {
        CopyBytes(i, off, d, r, s);
      }
    }

    method CopyBytes(i: nat, off: nat, d: seq<nat>, r: nat, ghost s: State)
      requires Mapped(sb, s, S(), i) && off % BSIZE + |d| <= BSIZE && HasBlock(S(), i, off / BSIZE)
      requires own[Slot(i, SlotK(off / BSIZE))] == r && Grew(sb, s, S(), i, off / BSIZE, off / BSIZE + 1)
      modifies this`disk, this`logged
      ensures old(AllLogged()) ==> AllLogged()
      ensures Chunk(sb, s, S(), i, off, d) && Grew(sb, s, S(), i, off / BSIZE, off / BSIZE + 1)
      ensures logged == old(logged) + {r}
    {
      ghost var s1 := S();
      var o := off % BSIZE;
      var blk := At(disk, r);
      assert |blk| == BSIZE;
      blk := blk[..o] + d + blk[o + |d|..];
      ChunkWritten(sb, s, s1, i, off, d, blk);
      LogsPut(before, disk, logged, r, blk);
      disk := PutBlock(disk, r, blk);
      logged := logged + {r};
      GrewSame(sb, s, s1, S(), i, off / BSIZE, off / BSIZE + 1);
    }

    /** One round of writei()'s loop, for m bytes; false for a panic in bmap. */
    method WriteNext(i: nat, off: nat, src: seq<nat>, tot: nat, m: nat, ghost s0: State, ghost l0: set<nat>)
      returns (ok: bool, tot': nat)
      requires Writing(sb, s0, S(), i, off, src, tot, l0, logged) && i < |inodes| && 0 < m && tot + m <= |src|
      requires (off + tot) % BSIZE + m <= BSIZE && (off + tot) / BSIZE < MAXFILE
      modifies this`disk, this`inodes, this`own, this`used, this`logged
      ensures old(AllLogged()) ==> AllLogged()
      ensures tot' == tot + m && (ok ==> Writing(sb, s0, S(), i, off, src, tot', l0, logged))
      ensures !ok ==> Missing(s0, i, off / BSIZE, EndBlock(off, |src|)) > FreeBlocks(sb, s0)
      ensures !ok ==> forall b: nat :: b < sb.size ==> b in used
    {
      ghost var s := S();
      var r := WriteChunk(i, off + tot, src[tot..tot + m]);
      ok, tot' := r >= 0, tot + m;
      ghost var e := S();
      if ok {
        NextWriting(sb, s0, s, e, i, off, src, tot, m, tot', l0, old(logged), logged);
      } else {
        NextTooMany(sb, s0, s, i, off, tot, m, |src|);
      }
    }

    /** writei()'s loop. */
    method WriteLoop(i: nat, off: nat, src: seq<nat>) returns (ok: bool)
      requires Valid() && i < |inodes| && off <= inodes[i].size && off + |src| <= MAXFILE * BSIZE
      modifies this`disk, this`inodes, this`own, this`used, this`logged
      ensures old(AllLogged()) ==> AllLogged()
      ensures ok ==> Writing(sb, old(S()), S(), i, off, src, |src|, old(logged), logged)
      ensures ok <==> Missing(old(S()), i, off / BSIZE, EndBlock(off, |src|)) <= FreeBlocks(sb, old(S()))
      ensures !ok ==> forall b: nat :: b < sb.size ==> b in used
    {
      ghost var s0, l0 := S(), logged;
      var tot := 0;
      WrittenNone(sb, s0, i, off, src);
      GrewNot(sb, s0, i, off / BSIZE);
      while tot < |src|
        invariant 0 <= tot <= |src| && |inodes| == |s0.inodes| && Writing(sb, s0, S(), i, off, src, tot, l0, logged)
        invariant old(AllLogged()) ==> AllLogged()
      {
        var m := NextSize(off, tot, |src|);
        ok, tot := WriteNext(i, off, src, tot, m, s0, l0);
        if !ok {
          return;
        }
      }
      return true;
    }

    /** writei(): -1 if it refuses, -2 for the panic when the range takes more blocks than are free;
        otherwise the file is overlaid with src at off, every other file is as before, exactly the
        missing blocks were allocated, and few blocks were logged. */
    method Writei(i: nat, off: nat, src: seq<nat>) returns (r: int)
      requires Valid() && i < |inodes| && off < U32 && |src| < U32
      modifies this`disk, this`inodes, this`own, this`used, this`logged
      ensures old(AllLogged()) ==> AllLogged()
      ensures r == -1 <==> off > old(inodes)[i].size || off + |src| > MAXFILE * BSIZE
      ensures r == -1 ==> S() == old(S()) && logged == old(logged)
      ensures r == -2 <==> r != -1 && Missing(old(S()), i, off / BSIZE, EndBlock(off, |src|)) > FreeBlocks(sb, old(S()))
      ensures r == -2 ==> forall b: nat :: b < sb.size ==> b in used
      ensures r != -1 && r != -2 ==> r == |src| && Overlaid(sb, old(S()), S(), i, off, src)
      ensures r >= 0 ==> Grew(sb, old(S()), S(), i, off / BSIZE, EndBlock(off, |src|))
      ensures r >= 0 ==> logged <= old(logged) + MayLog(sb, S(), i, off, |src|) + {sb.inodestart + i / IPB}
      ensures r >= 0 ==> sb.inodestart + i / IPB in logged
    {
      if off > inodes[i].size || off + |src| >= U32 {
        return -1;
      }
      if off + |src| > MAXFILE * BSIZE {
        return -1;
      }
      var ok := WriteLoop(i, off, src);
      if !ok {
        return -2;
      }
      Update(i, off, src, old(S()), old(logged));
      r := |src|;
    }

    /** The end of writei(): the size, and iupdate(). */
    method Update(i: nat, off: nat, src: seq<nat>, ghost s0: State, ghost l0: set<nat>)
      requires Ok(sb, s0) && Writing(sb, s0, S(), i, off, src, |src|, l0, logged) && off + |src| <= MAXFILE * BSIZE
      requires i < |inodes|
      modifies this`inodes, this`logged
      ensures old(AllLogged()) ==> AllLogged()
      ensures Overlaid(sb, s0, S(), i, off, src) && Grew(sb, s0, S(), i, off / BSIZE, EndBlock(off, |src|))
      ensures logged <= l0 + MayLog(sb, S(), i, off, |src|) + {sb.inodestart + i / IPB}
      ensures sb.inodestart + i / IPB in logged
    {
      ghost var s := S();
      WrittenOverlays(sb, s0, s, i, off, src);
      if off + |src| > inodes[i].size {
        inodes := inodes[i := inodes[i].(size := off + |src|)];
      }
      LogsMore(before, disk, logged, logged + {sb.inodestart + i / IPB});
      logged := logged + {sb.inodestart + i / IPB};
      MayLogSame(sb, s, S(), i, off, |src|);
      GrewSame(sb, s0, s, S(), i, off / BSIZE, EndBlock(off, |src|));
    }

    /** bfree(): false for its panic, which is reached exactly when b is not in use. */
    method Bfree(b: nat) returns (ok: bool)
      requires ValidSuper(sb) && Shape(sb, S()) && MarksOk(sb, S()) && sb.datastart <= b < sb.size
      modifies this`disk, this`used, this`logged
      ensures old(AllLogged()) ==> AllLogged()
      ensures ok <==> b in old(used)
      ensures ok ==> S() == Unmark(sb, old(S()), b)
      ensures !ok ==> S() == old(S())
      ensures logged == old(logged) + if ok then {sb.bmapstart + b / BPB} else {}
    {
      assert MarkOk(sb, S(), b);
      var m := MarkByte(sb.bmapstart, disk, b);
      ok := Bit(m, b % BPB % 8);
      if ok {
        LogsMark(before, disk, logged, sb.bmapstart, b, ClearBit(m, b % BPB % 8));
        disk := PutMark(sb.bmapstart, disk, b, ClearBit(m, b % BPB % 8));
        used, logged := used - {b}, logged + {sb.bmapstart + b / BPB};
      }
    }

    /** The body of itrunc()'s loops: free pointer Unrank(t) of the inode, if it is there. */
    method FreeSlot(i: nat, t: nat, b: nat, ghost s0: State) returns (ok: bool)
      requires Ok(sb, s0) && i < |s0.inodes| && t < NSLOTS && own == s0.own && b == Owned(s0, i, Unrank(t))
      requires Truncating(sb, s0, S(), i, t)
      modifies this`disk, this`used, this`logged
      ensures old(AllLogged()) ==> AllLogged()
      ensures ok && Truncating(sb, s0, S(), i, t + 1)
    {
      if b != 0 {
        TruncatingFree(sb, s0, S(), i, t);
        ok := Bfree(b);
      } else {
        TruncatingSkip(sb, s0, S(), i, t);
        ok := true;
      }
    }

    /** itrunc(): the free-block panic is not reached; every block of file i, the indirect block
        included, is free afterwards, and no other. */
    method Itrunc(i: nat) returns (ok: bool)
      requires Valid() && i < |inodes|
      modifies this`disk, this`inodes, this`own, this`used, this`logged
      ensures old(AllLogged()) ==> AllLogged()
      ensures ok && Valid() && inodes == old(inodes)[i := EmptyInode()] && own == Disowned(old(own), i)
      ensures used == old(used) - OwnedBy(old(S()), i) == Spare(old(S()), i)
      ensures forall x :: x in old(own) && x.inum != i ==> KeptSlot(old(S()), S(), x)
      ensures sb.inodestart + i / IPB in logged
    {
      ghost var s0 := S();
      TruncatingStart(sb, s0, i);
      var t := 0;
      var addrs := inodes[i].addrs;
      while t < NDIRECT
        invariant 0 <= t <= NDIRECT && own == s0.own && inodes == s0.inodes && Truncating(sb, s0, S(), i, t)
        invariant old(AllLogged()) ==> AllLogged()
      {
        assert PtrOk(s0, i, t);
        ok := FreeSlot(i, t, addrs[t], s0);
        t := t + 1;
      }
      assert PtrOk(s0, i, NDIRECT);
      FreeIndirect(i, addrs[NDIRECT], s0);
      ghost var s1 := S();
      inodes := inodes[i := EmptyInode()];
      own := Disowned(own, i);
      EmptyKeepsTruncating(sb, s0, s1, S(), i);
      TruncateOk(sb, s0, S(), i);
      LogsMore(before, disk, logged, logged + {sb.inodestart + i / IPB});
      logged := logged + {sb.inodestart + i / IPB};
      ok := true;
    }

    /** The part of itrunc() that frees what the indirect block lists, and the block itself. */
    method FreeIndirect(i: nat, a: nat, ghost s0: State)
      requires Ok(sb, s0) && i < |s0.inodes| && own == s0.own && inodes == s0.inodes && a == Owned(s0, i, NDIRECT)
      requires Truncating(sb, s0, S(), i, NDIRECT)
      modifies this`disk, this`used, this`logged
      ensures old(AllLogged()) ==> AllLogged()
      ensures Truncating(sb, s0, S(), i, NSLOTS)
    {
      var t := NDIRECT;
      var bp := At(disk, a);
      while t < MAXFILE
        invariant NDIRECT <= t <= MAXFILE && own == s0.own && Truncating(sb, s0, S(), i, t)
        invariant old(AllLogged()) ==> AllLogged()
      {
        assert PtrOk(s0, i, t + 1) && PtrOk(s0, i, NDIRECT);
        var b := if a == 0 then 0 else Word(bp, t - NDIRECT);
        var ok := FreeSlot(i, t, b, s0);
        t := t + 1;
      }
      var ok := FreeSlot(i, t, a, s0);
    }

    /** One transaction of filewrite(): begin_op, writei of one chunk, end_op.  It logs no more
        blocks than an operation may. */
    method WriteTransaction(i: nat, off: nat, src: seq<nat>) returns (r: int)
      requires Valid() && i < |inodes| && off < U32 && |src| <= MAXCHUNK && sb.size < BPB
      modifies this`disk, this`inodes, this`own, this`used, this`logged, this`before
      ensures r == -1 <==> off > old(inodes)[i].size || off + |src| > MAXFILE * BSIZE
      ensures r == -1 ==> S() == old(S())
      ensures r == -2 <==> r != -1 && Missing(old(S()), i, off / BSIZE, EndBlock(off, |src|)) > FreeBlocks(sb, old(S()))
      ensures r == -2 ==> forall b: nat :: b < sb.size ==> b in used
      ensures r != -1 && r != -2 ==> r == |src| && Overlaid(sb, old(S()), S(), i, off, src)
      ensures r >= 0 ==> Grew(sb, old(S()), S(), i, off / BSIZE, EndBlock(off, |src|))
      ensures r != -2 ==> |logged| <= MAXOPBLOCKS
      ensures before == old(disk) && AllLogged() && (r >= 0 ==> sb.inodestart + i / IPB in logged)
    {
      logged, before := {}, disk;
      r := Writei(i, off, src);
      if r >= 0 {
        LogFits(sb, S(), i, off, |src|, sb.inodestart + i / IPB, logged);
      }
    }

    /** One round of filewrite()'s loop. */
    method WriteMore(i: nat, off: nat, src: seq<nat>, k: nat, ghost s0: State) returns (r: int, k': nat)
      requires k < |src| && Filed(sb, s0, S(), i, off, src, k) && off + |src| < U32 && sb.size < BPB
      modifies this`disk, this`inodes, this`own, this`used, this`logged, this`before
      ensures k' == k + NextChunk(k, |src|) && (r == -1 <==> off + k' > MAXFILE * BSIZE)
      ensures r >= 0 ==> Filed(sb, s0, S(), i, off, src, k')
      ensures r < 0 ==> r == -2 || (r == -1 && S() == old(S()))
      ensures r == -2 ==> Missing(s0, i, off / BSIZE, EndBlock(off, k')) > FreeBlocks(sb, s0)
      ensures r == -2 ==> forall b: nat :: b < sb.size ==> b in used
    {
      ghost var s := S();
      var n1 := NextChunk(k, |src|);
      k' := k + n1;
      OverlaidSize(sb, s0, s, i, off, src[..k]);
      r := WriteTransaction(i, off + k, src[k..k + n1]);
      if r >= 0 {
        FiledMore(sb, s0, s, S(), i, off, src, k, n1, k');
      } else if r == -2 {
        FiledTooMany(sb, s0, s, i, off, src, k, n1, k');
      }
    }

    /** filewrite() from beyond the end of the file: the first chunk is refused. */
    method WriteGap(i: nat, off: nat, src: seq<nat>) returns (r: int)
      requires Valid() && i < |inodes| && off + |src| < U32 && sb.size < BPB && off > inodes[i].size
      modifies this`disk, this`inodes, this`own, this`used, this`logged, this`before
      ensures S() == old(S()) && r == if src == [] then 0 else -1
    {
      r := 0;
      if src != [] {
        r := WriteTransaction(i, off, src[..Min(|src|, MAXCHUNK)]);
      }
    }

    /** The loop of filewrite(). */
    method FileLoop(i: nat, off: nat, src: seq<nat>) returns (r: int, k: nat)
      requires Valid() && i < |inodes| && off <= inodes[i].size && off + |src| < U32 && sb.size < BPB
      modifies this`disk, this`inodes, this`own, this`used, this`logged, this`before
      ensures r == -2 <==> RunsOut(sb, old(S()), i, off, |src|)
      ensures r != -2 ==> k == Accepted(off, 0, |src|) && Filed(sb, old(S()), S(), i, off, src, k)
      ensures r != -2 ==> r == if k == |src| then k else -1
      ensures r == -2 ==> forall b: nat :: b < sb.size ==> b in used
    {
      ghost var s0 := S();
      k := 0;
      OverlaidNone(sb, s0, i, off, src);
      GrewNot(sb, s0, i, off / BSIZE);
      while k < |src|
        invariant 0 <= k <= |src| && Accepted(off, k, |src|) == Accepted(off, 0, |src|)
        invariant Filed(sb, s0, S(), i, off, src, k)
      {
        AcceptedStep(off, k, |src|);
        var k';
        r, k' := WriteMore(i, off, src, k, s0);
        if r == -2 {
          ChunkRunsOut(sb, s0, i, off, k', |src|);
          return;
        }
        if r == -1 {
          FiledFits(sb, s0, S(), i, off, src, k);
          return;
        }
        k := k';
      }
      FiledFits(sb, s0, S(), i, off, src, k);
      r := |src|;
    }

    /** filewrite(): the chunks before the first one that would make the file too large are written,
        which is an error unless they are all (-1); it panics if they take more blocks than are free
        (-2).  k is how many bytes were written and off' is f->off afterwards. */
    method Filewrite(i: nat, off: nat, src: seq<nat>) returns (r: int, k: nat, off': nat)
      requires Valid() && i < |inodes| && off + |src| < U32 && sb.size < BPB
      modifies this`disk, this`inodes, this`own, this`used, this`logged, this`before
      ensures off > old(inodes)[i].size ==> S() == old(S()) && k == 0 && r == if src == [] then 0 else -1
      ensures off <= old(inodes)[i].size ==>
        (r == -2 <==> RunsOut(sb, old(S()), i, off, |src|))
      ensures off <= old(inodes)[i].size && r != -2 ==>
        k == Accepted(off, 0, |src|) && Overlaid(sb, old(S()), S(), i, off, src[..k]) &&
        r == if k == |src| then k else -1
      ensures r == -2 ==> forall b: nat :: b < sb.size ==> b in used
      ensures off <= old(inodes)[i].size && r != -2 ==> (r == |src| <==> off + |src| <= MAXFILE * BSIZE)
      ensures off' == off + k
    {
      k, off' := 0, off;
      if off > inodes[i].size {
        r := WriteGap(i, off, src);
        return;
      }
      AcceptedIs(off, 0, |src|);
      r, k := FileLoop(i, off, src);
      off' := off + k;
    }
  }
}
