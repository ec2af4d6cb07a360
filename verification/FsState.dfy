/** Inodes, block ownership and the invariant of fs.c's file layer, on values. */
module FsState {
  import opened FsDisk

  const NDIRECT: nat := 12
  const NINDIRECT: nat := 256
  const MAXFILE: nat := 268
  /** Pointers of an inode: addrs[0..12], then the entries of the indirect block. */
  const NSLOTS: nat := 269
  const IPB: nat := 16

  /** The superblock fields used here; data blocks start at datastart. */
  datatype Super = Super(size: nat, inodestart: nat, bmapstart: nat, datastart: nat)

  ghost predicate ValidSuper(sb: Super) {
    0 < sb.inodestart < sb.bmapstart && sb.bmapstart + sb.size / BPB < sb.datastart <= sb.size
  }

  datatype Inode = Inode(addrs: seq<nat>, size: nat)

  /** An inode without blocks. */
  function EmptyInode(): Inode { Inode(seq(13, _ => 0), 0) }

  datatype Slot = Slot(inum: nat, k: nat)

  /** The pointer that leads to block bn of a file. */
  function SlotK(bn: nat): nat { if bn < NDIRECT then bn else bn + 1 }

  /** The block that pointer k of an inode holds, 0 if none. */
  function Ptr(disk: seq<Block>, ip: Inode, k: nat): nat {
    if |ip.addrs| != 13 then 0
    else if k <= NDIRECT then ip.addrs[k]
    else if ip.addrs[NDIRECT] == 0 then 0
    else Word(At(disk, ip.addrs[NDIRECT]), k - 13)
  }

  /** The disk and the inodes, with who owns which block and which blocks are in use. */
  datatype State = State(disk: seq<Block>, inodes: seq<Inode>, own: map<Slot, nat>, used: set<nat>)

  function Owned(s: State, i: nat, k: nat): nat { if Slot(i, k) in s.own then s.own[Slot(i, k)] else 0 }

  ghost predicate Shape(sb: Super, s: State) {
    |s.disk| == sb.size && (forall b :: 0 <= b < sb.size ==> |s.disk[b]| == BSIZE) &&
    forall i :: 0 <= i < |s.inodes| ==> |s.inodes[i].addrs| == 13 && s.inodes[i].size <= MAXFILE * BSIZE
  }

  ghost predicate PtrOk(s: State, i: nat, k: nat) {
    i < |s.inodes| && Ptr(s.disk, s.inodes[i], k) == Owned(s, i, k)
  }

  ghost predicate PtrsOk(s: State) {
    forall i: nat, k: nat :: i < |s.inodes| && k < NSLOTS ==> PtrOk(s, i, k)
  }

  /** Every block reachable from an inode is a data block, in use, and has one owner. */
  ghost predicate OwnOk(sb: Super, s: State) {
    (forall x :: x in s.own ==>
      x.inum < |s.inodes| && x.k < NSLOTS && sb.datastart <= s.own[x] < sb.size && s.own[x] in s.used) &&
    forall x, y :: x in s.own && y in s.own && x != y ==> s.own[x] != s.own[y]
  }

  ghost predicate MarkOk(sb: Super, s: State, b: nat) { b in s.used <==> Marked(sb.bmapstart, s.disk, b) }

  /** The bitmap says which blocks are in use, all metadata blocks among them. */
  ghost predicate MarksOk(sb: Super, s: State) {
    (forall b: nat :: b < sb.size ==> MarkOk(sb, s, b)) && (forall b :: b in s.used ==> b < sb.size) &&
    forall b: nat :: b < sb.datastart ==> b in s.used
  }

  ghost predicate HasBlock(s: State, i: nat, bn: nat) { Slot(i, SlotK(bn)) in s.own }

  /** Every block below a file's size is mapped. */
  ghost predicate NoHoles(s: State) {
    forall i: nat, bn: nat :: i < |s.inodes| && bn * BSIZE < s.inodes[i].size ==> HasBlock(s, i, bn)
  }

  ghost predicate Ok(sb: Super, s: State) {
    var shape, ptrs, own, marks, holes := Shape(sb, s), PtrsOk(s), OwnOk(sb, s), MarksOk(sb, s), NoHoles(s);
    ValidSuper(sb) && shape && ptrs && own && marks && holes
  }

  predicate IsBelow(b: nat, n: nat) { b < n }

  /** The blocks below block n. */
  function Upto(n: nat): set<nat> { set b: nat | b < n && IsBelow(b, n) }

  // ---------- what a step leaves alone ----------

  /** The pointers of s, and the contents of the data blocks they lead to, are those of s'. */
  ghost predicate Keeps(s: State, s': State) {
    forall x {:trigger KeptSlot(s, s', x)} :: x in s.own ==> KeptSlot(s, s', x)
  }

  ghost predicate KeptSlot(s: State, s': State, x: Slot) {
    x in s.own && x in s'.own && s'.own[x] == s.own[x] &&
    (x.k != NDIRECT ==> At(s'.disk, s.own[x]) == At(s.disk, s.own[x]))
  }

  lemma KeepsTrans(s: State, s1: State, s2: State)
    requires Keeps(s, s1) && Keeps(s1, s2)
    ensures Keeps(s, s2)
  {
    forall x | x in s.own ensures KeptSlot(s, s2, x) { assert KeptSlot(s, s1, x) && KeptSlot(s1, s2, x); }
  }

  /** The blocks in use that file i does not own. */
  ghost function Spare(s: State, i: nat): set<nat> { s.used - OwnedBy(s, i) }

  ghost function OwnedBy(s: State, i: nat): set<nat> { set x | x in s.own && x.inum == i :: s.own[x] }

  // ---------- balloc ----------

  /** balloc() marks block b and zeroes it. */
  function Allocate(sb: Super, s: State, b: nat): State {
    var marked := PutMark(sb.bmapstart, s.disk, b, SetBit(MarkByte(sb.bmapstart, s.disk, b), b % BPB % 8));
    s.(disk := PutBlock(marked, b, ZeroBlock()), used := s.used + {b})
  }

  /** Outside the bitmap and block b, the disk is as before. */
  lemma AllocateBlocks(sb: Super, s: State, b: nat, c: nat)
    requires ValidSuper(sb) && Shape(sb, s) && sb.datastart <= b < sb.size
    ensures Shape(sb, Allocate(sb, s, b)) && At(Allocate(sb, s, b).disk, b) == ZeroBlock()
    ensures c >= sb.datastart && c != b ==> At(Allocate(sb, s, b).disk, c) == At(s.disk, c)
  {
    assert b / BPB <= sb.size / BPB;
  }

  lemma AllocateMarks(sb: Super, s: State, b: nat)
    requires ValidSuper(sb) && Shape(sb, s) && MarksOk(sb, s) && sb.datastart <= b < sb.size
    ensures MarksOk(sb, Allocate(sb, s, b))
  {
    var s' := Allocate(sb, s, b);
    assert b / BPB <= sb.size / BPB;
    forall c: nat | c < sb.size ensures MarkOk(sb, s', c) {
      assert MarkOk(sb, s, c);
      MarkOne(sb.bmapstart, s.disk, b, c);
      assert c / BPB <= sb.size / BPB;
    }
  }

  lemma AllocateOk(sb: Super, s: State, b: nat)
    requires Ok(sb, s) && sb.datastart <= b < sb.size && b !in s.used
    ensures Ok(sb, Allocate(sb, s, b)) && Keeps(s, Allocate(sb, s, b))
    ensures At(Allocate(sb, s, b).disk, b) == ZeroBlock() && forall x :: x in s.own ==> s.own[x] != b
  {
    var s' := Allocate(sb, s, b);
    AllocateBlocks(sb, s, b, b);
    AllocateMarks(sb, s, b);
    forall x | x in s.own ensures At(s'.disk, s.own[x]) == At(s.disk, s.own[x]) && KeptSlot(s, s', x) {
      AllocateBlocks(sb, s, b, s.own[x]);
    }
    forall i: nat, k: nat | i < |s.inodes| && k < NSLOTS ensures PtrOk(s', i, k) { PtrKept(s, s', i, k); }
    forall i: nat, bn: nat | i < |s.inodes| && bn * BSIZE < s.inodes[i].size ensures HasBlock(s', i, bn) {
      assert HasBlock(s, i, bn);
    }
  }

  /** A pointer does not change while its inode and its indirect block do not. */
  lemma PtrKept(s: State, s': State, i: nat, k: nat)
    requires PtrsOk(s) && i < |s.inodes| && k < NSLOTS && s'.inodes == s.inodes && s'.own == s.own
    requires |s.inodes[i].addrs| == 13
    requires forall x :: x in s.own && x.k == NDIRECT ==> At(s'.disk, s.own[x]) == At(s.disk, s.own[x])
    ensures PtrOk(s', i, k)
  {
    assert PtrOk(s, i, k) && PtrOk(s, i, NDIRECT);
    if s.inodes[i].addrs[NDIRECT] != 0 { assert Slot(i, NDIRECT) in s.own; }
  }

  lemma AllocateSpare(sb: Super, s: State, b: nat, i: nat)
    requires b !in s.used && forall x :: x in s.own ==> s.own[x] != b
    ensures Spare(Allocate(sb, s, b), i) == Spare(s, i) + {b}
  {
  }

  // ---------- bmap: giving a block to a file ----------

  /** Block b is in use and nobody's. */
  ghost predicate Loose(sb: Super, s: State, b: nat) {
    sb.datastart <= b < sb.size && b in s.used && (forall x :: x in s.own ==> s.own[x] != b) &&
    At(s.disk, b) == ZeroBlock()
  }

  /** Pointer k of inode i becomes b. */
  function Attach(s: State, i: nat, k: nat, b: nat): State
    requires i < |s.inodes| && k < |s.inodes[i].addrs|
  {
    var ip := s.inodes[i];
    s.(inodes := s.inodes[i := ip.(addrs := ip.addrs[k := b])], own := s.own[Slot(i, k) := b])
  }

  /** The state after Slot(i, k) was given block b. */
  ghost predicate Given(s: State, s': State, i: nat, k: nat, b: nat) {
    Slot(i, k) !in s.own && s'.own == s.own[Slot(i, k) := b] && s'.used == s.used && |s'.inodes| == |s.inodes| &&
    (forall j :: 0 <= j < |s.inodes| ==> s'.inodes[j].size == s.inodes[j].size)
  }

  lemma GivenOwn(sb: Super, s: State, s': State, i: nat, k: nat, b: nat)
    requires OwnOk(sb, s) && NoHoles(s) && Loose(sb, s, b) && Given(s, s', i, k, b) && i < |s.inodes| && k < NSLOTS
    ensures OwnOk(sb, s') && NoHoles(s')
  {
    forall j: nat, bn: nat | j < |s'.inodes| && bn * BSIZE < s'.inodes[j].size ensures HasBlock(s', j, bn) {
      assert HasBlock(s, j, bn);
    }
  }

  /** What i owns grows by b, so what is in use and not i's shrinks by it. */
  lemma GivenSpare(s: State, s': State, i: nat, k: nat, b: nat)
    requires Given(s, s', i, k, b)
    ensures Spare(s', i) == Spare(s, i) - {b}
  {
    forall c ensures c in OwnedBy(s', i) <==> c in OwnedBy(s, i) || c == b {
      if c in OwnedBy(s, i) {
        var x :| x in s.own && x.inum == i && s.own[x] == c;
        assert x in s'.own && s'.own[x] == c;
      }
      if c == b { assert Slot(i, k) in s'.own && s'.own[Slot(i, k)] == c; }
    }
  }

  lemma AttachOk(sb: Super, s: State, i: nat, k: nat, b: nat)
    requires Ok(sb, s) && Loose(sb, s, b) && i < |s.inodes| && k <= NDIRECT && Slot(i, k) !in s.own
    ensures Ok(sb, Attach(s, i, k, b)) && Keeps(s, Attach(s, i, k, b)) && Given(s, Attach(s, i, k, b), i, k, b)
  {
    var s' := Attach(s, i, k, b);
    GivenOwn(sb, s, s', i, k, b);
    forall x | x in s.own ensures KeptSlot(s, s', x) { }
    forall c: nat | c < sb.size ensures MarkOk(sb, s', c) { assert MarkOk(sb, s, c); }
    forall j: nat, l: nat | j < |s'.inodes| && l < NSLOTS ensures PtrOk(s', j, l) { AttachPtr(sb, s, i, k, b, j, l); }
  }

  lemma AttachPtr(sb: Super, s: State, i: nat, k: nat, b: nat, j: nat, l: nat)
    requires PtrsOk(s) && Shape(sb, s) && At(s.disk, b) == ZeroBlock() && b != 0
    requires i < |s.inodes| && k <= NDIRECT && Slot(i, k) !in s.own && j < |s.inodes| && l < NSLOTS
    ensures PtrOk(Attach(s, i, k, b), j, l)
  {
    assert PtrOk(s, j, l) && PtrOk(s, i, k);
    if k == NDIRECT && l > NDIRECT { ZeroWord(l - 13); }
  }

  /** Entry j of the indirect block of inode i becomes b. */
  function AttachEntry(s: State, i: nat, j: nat, b: nat): State
    requires Slot(i, NDIRECT) in s.own && 4 * j + 3 < |At(s.disk, s.own[Slot(i, NDIRECT)])|
  {
    var a := s.own[Slot(i, NDIRECT)];
    s.(disk := PutBlock(s.disk, a, PutWord(At(s.disk, a), j, b)), own := s.own[Slot(i, 13 + j) := b])
  }

  lemma AttachEntryOk(sb: Super, s: State, i: nat, j: nat, b: nat)
    requires Ok(sb, s) && Loose(sb, s, b) && i < |s.inodes| && j < NINDIRECT
    requires Slot(i, NDIRECT) in s.own && Slot(i, 13 + j) !in s.own
    ensures |At(s.disk, s.own[Slot(i, NDIRECT)])| == BSIZE
    ensures var s' := AttachEntry(s, i, j, b);
      Ok(sb, s') && Keeps(s, s') && Given(s, s', i, 13 + j, b) && At(s'.disk, b) == ZeroBlock()
  {
    var s' := AttachEntry(s, i, j, b);
    GivenOwn(sb, s, s', i, 13 + j, b);
    forall x | x in s.own ensures KeptSlot(s, s', x) { }
    forall c: nat | c < sb.size ensures MarkOk(sb, s', c) {
      assert MarkOk(sb, s, c);
      DataKeepsMark(sb, s.disk, s'.disk, s.own[Slot(i, NDIRECT)], c);
    }
    forall l: nat, k: nat | l < |s'.inodes| && k < NSLOTS ensures PtrOk(s', l, k) {
      AttachEntryPtr(sb, s, i, j, b, l, k);
    }
  }

  /** Writing a data block does not touch the bitmap. */
  lemma DataKeepsMark(sb: Super, disk: seq<Block>, disk': seq<Block>, a: nat, c: nat)
    requires ValidSuper(sb) && sb.datastart <= a < |disk| && disk' == disk[a := At(disk', a)] && c < sb.size
    ensures Marked(sb.bmapstart, disk', c) == Marked(sb.bmapstart, disk, c)
  {
    assert c / BPB <= sb.size / BPB;
  }

  lemma AttachEntryPtr(sb: Super, s: State, i: nat, j: nat, b: nat, l: nat, k: nat)
    requires ValidSuper(sb) && PtrsOk(s) && Shape(sb, s) && OwnOk(sb, s) && i < |s.inodes| && j < NINDIRECT
    requires Slot(i, NDIRECT) in s.own && l < |s.inodes| && k < NSLOTS && s.own[Slot(i, NDIRECT)] < sb.size
    ensures PtrOk(AttachEntry(s, i, j, b), l, k)
  {
    assert PtrOk(s, l, k) && PtrOk(s, l, NDIRECT) && PtrOk(s, i, NDIRECT);
    assert Slot(l, NDIRECT) in s.own && l != i ==> s.own[Slot(l, NDIRECT)] != s.own[Slot(i, NDIRECT)];
    if l == i && k > NDIRECT { PutWordWord(At(s.disk, s.own[Slot(i, NDIRECT)]), j, b, k - 13); }
  }

  // ---------- writei: data and size ----------

  function WriteBlock(s: State, a: nat, blk: Block): State { s.(disk := PutBlock(s.disk, a, blk)) }

  lemma WriteBlockOk(sb: Super, s: State, x: Slot, blk: Block)
    requires Ok(sb, s) && x in s.own && x.k != NDIRECT && |blk| == BSIZE
    ensures Ok(sb, WriteBlock(s, s.own[x], blk)) && At(WriteBlock(s, s.own[x], blk).disk, s.own[x]) == blk
    ensures forall y :: y in s.own && y != x ==> At(WriteBlock(s, s.own[x], blk).disk, s.own[y]) == At(s.disk, s.own[y])
  {
    var s' := WriteBlock(s, s.own[x], blk);
    forall c: nat | c < sb.size ensures MarkOk(sb, s', c) {
      assert MarkOk(sb, s, c);
      DataKeepsMark(sb, s.disk, s'.disk, s.own[x], c);
    }
    forall i: nat, k: nat | i < |s.inodes| && k < NSLOTS ensures PtrOk(s', i, k) { PtrKept(s, s', i, k); }
    forall i: nat, bn: nat | i < |s.inodes| && bn * BSIZE < s.inodes[i].size ensures HasBlock(s', i, bn) {
      assert HasBlock(s, i, bn);
    }
  }

  function Resize(s: State, i: nat, n: nat): State
    requires i < |s.inodes|
  {
    s.(inodes := s.inodes[i := s.inodes[i].(size := n)])
  }

  lemma ResizeOk(sb: Super, s: State, i: nat, n: nat)
    requires Ok(sb, s) && i < |s.inodes| && n <= MAXFILE * BSIZE
    requires forall bn: nat :: bn * BSIZE < n ==> HasBlock(s, i, bn)
    ensures Ok(sb, Resize(s, i, n))
  {
    var s' := Resize(s, i, n);
    forall c: nat | c < sb.size ensures MarkOk(sb, s', c) { assert MarkOk(sb, s, c); }
    forall j: nat, k: nat | j < |s'.inodes| && k < NSLOTS ensures PtrOk(s', j, k) { assert PtrOk(s, j, k); }
    forall j: nat, bn: nat | j < |s'.inodes| && bn * BSIZE < s'.inodes[j].size ensures HasBlock(s', j, bn) {
      if j != i { assert HasBlock(s, j, bn); }
      assert HasBlock(s, j, bn);
    }
  }

  // ---------- bfree and itrunc ----------

  /** bfree() clears the mark of block b. */
  function Unmark(sb: Super, s: State, b: nat): State {
    s.(disk := PutMark(sb.bmapstart, s.disk, b, ClearBit(MarkByte(sb.bmapstart, s.disk, b), b % BPB % 8)),
       used := s.used - {b})
  }

  lemma UnmarkOk(sb: Super, s: State, b: nat)
    requires ValidSuper(sb) && Shape(sb, s) && MarksOk(sb, s) && sb.datastart <= b < sb.size
    ensures Shape(sb, Unmark(sb, s, b)) && MarksOk(sb, Unmark(sb, s, b))
    ensures forall c: nat :: c >= sb.datastart ==> At(Unmark(sb, s, b).disk, c) == At(s.disk, c)
  {
    var s' := Unmark(sb, s, b);
    assert b / BPB <= sb.size / BPB;
    forall c: nat | c < sb.size ensures MarkOk(sb, s', c) {
      assert MarkOk(sb, s, c);
      UnmarkOne(sb.bmapstart, s.disk, b, c);
    }
  }

  /** The order in which itrunc() frees: direct blocks, indirect entries, the indirect block. */
  function Rank(k: nat): nat { if k < NDIRECT then k else if k == NDIRECT then MAXFILE else k - 1 }

  function Unrank(t: nat): nat { if t < NDIRECT then t else if t == MAXFILE then NDIRECT else t + 1 }

  /** The blocks of inode i that itrunc() frees in its first t steps. */
  ghost function FreedBefore(own: map<Slot, nat>, i: nat, t: nat): set<nat> {
    set x | x in own && x.inum == i && Rank(x.k) < t :: own[x]
  }

  lemma FreedNext(sb: Super, s: State, i: nat, t: nat)
    requires OwnOk(sb, s) && t < NSLOTS
    ensures var x := Slot(i, Unrank(t));
      if x in s.own then
        FreedBefore(s.own, i, t + 1) == FreedBefore(s.own, i, t) + {s.own[x]} && s.own[x] !in FreedBefore(s.own, i, t)
      else FreedBefore(s.own, i, t + 1) == FreedBefore(s.own, i, t)
  {
    var x := Slot(i, Unrank(t));
    forall y | y in s.own && y.inum == i && Rank(y.k) < t + 1 ensures Rank(y.k) < t || y == x { }
    if x in s.own {
      forall c | c in FreedBefore(s.own, i, t) + {s.own[x]} ensures c in FreedBefore(s.own, i, t + 1) {
        var y :| y in s.own && y.inum == i && Rank(y.k) < t + 1 && s.own[y] == c;
      }
    }
  }

  lemma FreedAll(sb: Super, s: State, i: nat)
    requires OwnOk(sb, s)
    ensures FreedBefore(s.own, i, NSLOTS) == OwnedBy(s, i) && FreedBefore(s.own, i, 0) == {}
  {
    forall x | x in s.own ensures Rank(x.k) < NSLOTS { }
  }

  /** How far itrunc() is: the first t blocks are free, nothing else changed on the disk. */
  ghost predicate Truncating(sb: Super, s: State, s': State, i: nat, t: nat) {
    var shape, marks := Shape(sb, s'), MarksOk(sb, s');
    shape && marks && s'.used == s.used - FreedBefore(s.own, i, t) &&
    forall c: nat :: c >= sb.datastart ==> At(s'.disk, c) == At(s.disk, c)
  }

  lemma TruncatingStart(sb: Super, s: State, i: nat)
    requires Ok(sb, s)
    ensures Truncating(sb, s, s, i, 0)
  {
    FreedAll(sb, s, i);
  }

  lemma TruncatingFree(sb: Super, s: State, s': State, i: nat, t: nat)
    requires Ok(sb, s) && Truncating(sb, s, s', i, t) && t < NSLOTS && Slot(i, Unrank(t)) in s.own
    ensures var b := s.own[Slot(i, Unrank(t))];
      b in s'.used && sb.datastart <= b < sb.size && Truncating(sb, s, Unmark(sb, s', b), i, t + 1)
  {
    FreedNext(sb, s, i, t);
    UnmarkOk(sb, s', s.own[Slot(i, Unrank(t))]);
  }

  lemma TruncatingSkip(sb: Super, s: State, s': State, i: nat, t: nat)
    requires Ok(sb, s) && Truncating(sb, s, s', i, t) && t < NSLOTS && Slot(i, Unrank(t)) !in s.own
    ensures Truncating(sb, s, s', i, t + 1)
  {
    FreedNext(sb, s, i, t);
  }

  function Disowned(own: map<Slot, nat>, i: nat): map<Slot, nat> { map x | x in own && x.inum != i :: own[x] }

  lemma EmptyKeepsTruncating(sb: Super, s: State, s1: State, s2: State, i: nat)
    requires Truncating(sb, s, s1, i, NSLOTS) && i < |s1.inodes|
    requires s2 == s1.(inodes := s1.inodes[i := EmptyInode()], own := s2.own)
    ensures Truncating(sb, s, s2, i, NSLOTS)
  {
    forall c: nat | c < sb.size ensures MarkOk(sb, s2, c) { assert MarkOk(sb, s1, c); }
  }

  /** itrunc() frees each block of inode i exactly once, and nothing of the other inodes. */
  lemma TruncateOk(sb: Super, s: State, s': State, i: nat)
    requires Ok(sb, s) && i < |s.inodes| && Truncating(sb, s, s', i, NSLOTS)
    requires s'.inodes == s.inodes[i := EmptyInode()] && s'.own == Disowned(s.own, i)
    ensures Ok(sb, s') && s'.used == s.used - OwnedBy(s, i) == Spare(s, i)
    ensures forall x :: x in s.own && x.inum != i ==> KeptSlot(s, s', x)
  {
    FreedAll(sb, s, i);
    forall x | x in s'.own ensures s'.own[x] in s'.used { }
    forall j: nat, k: nat | j < |s'.inodes| && k < NSLOTS ensures PtrOk(s', j, k) {
      assert PtrOk(s, j, k) && PtrOk(s, j, NDIRECT);
    }
    forall j: nat, bn: nat | j < |s'.inodes| && bn * BSIZE < s'.inodes[j].size ensures HasBlock(s', j, bn) {
      assert HasBlock(s, j, bn);
    }
  }
}
