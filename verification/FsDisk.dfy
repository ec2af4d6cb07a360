/** Disk blocks of fs.c: the free-block bitmap and the words of an indirect block. */
module FsDisk {

  const BSIZE: nat := 1024
  const BPB: nat := 8192

  /** A block is BSIZE bytes. */
  type Block = seq<nat>

  function ZeroBlock(): Block { seq(BSIZE, _ => 0) }

  function At(disk: seq<Block>, b: nat): Block { if b < |disk| then disk[b] else [] }

  function Byte(blk: Block, j: nat): nat { if j < |blk| then blk[j] else 0 }

  // ---------- bits ----------

  /** Bit k of x. */
  predicate Bit(x: nat, k: nat) { if k == 0 then x % 2 == 1 else Bit(x / 2, k - 1) }

  /** x with bit k set. */
  function SetBit(x: nat, k: nat): nat {
    if k == 0 then x / 2 * 2 + 1 else SetBit(x / 2, k - 1) * 2 + x % 2
  }

  /** x with bit k cleared. */
  function ClearBit(x: nat, k: nat): nat {
    if k == 0 then x / 2 * 2 else ClearBit(x / 2, k - 1) * 2 + x % 2
  }

  lemma {:induction false} SetBitBits(x: nat, k: nat, j: nat)
    ensures Bit(SetBit(x, k), j) <==> j == k || Bit(x, j)
  {
    if k > 0 && j > 0 { SetBitBits(x / 2, k - 1, j - 1); }
  }

  lemma {:induction false} ClearBitBits(x: nat, k: nat, j: nat)
    ensures Bit(ClearBit(x, k), j) <==> j != k && Bit(x, j)
  {
    if k > 0 && j > 0 { ClearBitBits(x / 2, k - 1, j - 1); }
  }

  /** Block b is marked in use. */
  predicate Marked(bmapstart: nat, disk: seq<Block>, b: nat) {
    Bit(Byte(At(disk, bmapstart + b / BPB), b % BPB / 8), b % BPB % 8)
  }

  function PutByte(blk: Block, j: nat, x: nat): Block { if j < |blk| then blk[j := x] else blk }

  function PutBlock(disk: seq<Block>, b: nat, blk: Block): seq<Block> {
    if b < |disk| then disk[b := blk] else disk
  }

  /** Rewrite the bitmap byte that holds the bit of block b. */
  function PutMark(bmapstart: nat, disk: seq<Block>, b: nat, x: nat): seq<Block> {
    var m := bmapstart + b / BPB;
    PutBlock(disk, m, PutByte(At(disk, m), b % BPB / 8, x))
  }

  function MarkByte(bmapstart: nat, disk: seq<Block>, b: nat): nat {
    Byte(At(disk, bmapstart + b / BPB), b % BPB / 8)
  }

  /** The bitmap lies on the disk. */
  ghost predicate HasMark(bmapstart: nat, disk: seq<Block>, b: nat) {
    bmapstart + b / BPB < |disk| && |disk[bmapstart + b / BPB]| == BSIZE
  }

  /** Marking a block changes its bit and no other. */
  lemma MarkOne(bmapstart: nat, disk: seq<Block>, b: nat, b': nat)
    requires HasMark(bmapstart, disk, b)
    ensures var disk' := PutMark(bmapstart, disk, b, SetBit(MarkByte(bmapstart, disk, b), b % BPB % 8));
      Marked(bmapstart, disk', b') <==> b' == b || Marked(bmapstart, disk, b')
  {
    MarkElsewhere(bmapstart, disk, b, SetBit(MarkByte(bmapstart, disk, b), b % BPB % 8), b');
    SetBitBits(MarkByte(bmapstart, disk, b), b % BPB % 8, b' % BPB % 8);
  }

  lemma UnmarkOne(bmapstart: nat, disk: seq<Block>, b: nat, b': nat)
    requires HasMark(bmapstart, disk, b)
    ensures var disk' := PutMark(bmapstart, disk, b, ClearBit(MarkByte(bmapstart, disk, b), b % BPB % 8));
      Marked(bmapstart, disk', b') <==> b' != b && Marked(bmapstart, disk, b')
  {
    MarkElsewhere(bmapstart, disk, b, ClearBit(MarkByte(bmapstart, disk, b), b % BPB % 8), b');
    ClearBitBits(MarkByte(bmapstart, disk, b), b % BPB % 8, b' % BPB % 8);
  }

  lemma MarkElsewhere(bmapstart: nat, disk: seq<Block>, b: nat, x: nat, b': nat)
    requires HasMark(bmapstart, disk, b)
    ensures var same := b' / BPB == b / BPB && b' % BPB / 8 == b % BPB / 8;
      MarkByte(bmapstart, PutMark(bmapstart, disk, b, x), b') == if same then x else MarkByte(bmapstart, disk, b')
    ensures b' / BPB == b / BPB && b' % BPB / 8 == b % BPB / 8 && b' % BPB % 8 == b % BPB % 8 ==> b' == b
  {
  }

  // ---------- words ----------

  /** The j-th 32-bit word of a block, least significant byte first. */
  function Word(blk: Block, j: nat): nat {
    Byte(blk, 4 * j) + 0x100 * Byte(blk, 4 * j + 1) +
    0x1_0000 * Byte(blk, 4 * j + 2) + 0x100_0000 * Byte(blk, 4 * j + 3)
  }

  /** The block with its j-th 32-bit word replaced. */
  function PutWord(blk: Block, j: nat, w: nat): Block
    requires 4 * j + 3 < |blk|
  {
    blk[4 * j := w % 0x100][4 * j + 1 := w / 0x100 % 0x100][4 * j + 2 := w / 0x100 / 0x100 % 0x100]
       [4 * j + 3 := w / 0x100 / 0x100 / 0x100]
  }

  lemma PutWordWord(blk: Block, j: nat, w: nat, i: nat)
    requires 4 * j + 3 < |blk|
    ensures Word(PutWord(blk, j, w), i) == if i == j then w else Word(blk, i)
  {
    if i == j { Quarters(w); }
  }

  lemma Quarters(w: nat)
    ensures w == w % 0x100 + 0x100 * (w / 0x100 % 0x100) + 0x1_0000 * (w / 0x100 / 0x100 % 0x100) +
      0x100_0000 * (w / 0x100 / 0x100 / 0x100)
  {
    var a := w / 0x100;
    var b := a / 0x100;
    assert w == w % 0x100 + 0x100 * a && a == a % 0x100 + 0x100 * b && b == b % 0x100 + 0x100 * (b / 0x100);
  }

  lemma ZeroWord(j: nat)
    ensures Word(ZeroBlock(), j) == 0
  {
  }
}
