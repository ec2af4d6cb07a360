/** Constants of param.h and riscv.h, machine word sizes, and a few definitions that several
    modules share. */
module Common {

  const MAXOPBLOCKS: nat := 10
  const LOGSIZE: nat := 30
  const NBUF: nat := 30

  const PGSIZE: nat := 4096
  /** MAXVA / PGSIZE: 2^(9+9+9-1) pages. */
  const MAXVPN: nat := 0x400_0000

  const U16: nat := 0x1_0000
  const U32: nat := 0x1_0000_0000
  const U64: nat := 0x1_0000_0000_0000_0000

  datatype Option<T> = None | Some(value: T)

  ghost predicate Distinct(q: seq<nat>) { forall i, j :: 0 <= i < j < |q| ==> q[i] != q[j] }

  /** The sequence without its k-th element. */
  function Without(s: seq<nat>, k: nat): seq<nat>
    requires k < |s|
  {
    s[..k] + s[k + 1..]
  }

  /** PGROUNDUP(sz) / PGSIZE */
  function PagesIn(sz: nat): nat { (sz + PGSIZE - 1) / PGSIZE }

  lemma SubsetSize(a: set<nat>, b: set<nat>)
    requires a <= b
    ensures |a| <= |b| && (|a| == |b| ==> a == b)
  {
    assert b == a + (b - a);
    if a != b { assert b - a != {}; }
  }
}
