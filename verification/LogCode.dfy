/** log.c as code: the methods of one thread over the in-memory log and the disk.  LogSteps
    shows that the log machine goes through the memories these functions compute. */
module LogCode {
  import opened Common
  import opened LogMachine

  /** The disk and the contents of the cached blocks, as one thread sees them. */
  datatype Mem = Mem(disk: seq<Block>, cache: map<nat, Block>)

  /** bread: the cached contents of a block, or the disk's. */
  function Contents(m: Mem, b: nat): Block {
    if b in m.cache then m.cache[b] else At(m.disk, b)
  }

  /** Set the contents of a buffer and bwrite it. */
  function Put(m: Mem, b: nat, data: Block): Mem {
    Mem(if b < |m.disk| then m.disk[b := data] else m.disk, m.cache[b := data])
  }

  function PutHead(c: Config, m: Mem, bs: seq<nat>): Mem {
    Put(m, c.start, PutHeader(Contents(m, c.start), bs))
  }

  /** write_log after k iterations. */
  function WriteLogTo(c: Config, m: Mem, bs: seq<nat>, k: nat): Mem
    requires k <= |bs|
  {
    if k == 0 then m
    else
      var p := WriteLogTo(c, m, bs, k - 1);
      Put(p, c.start + k, Contents(p, bs[k - 1]))
  }

  /** install_trans after k iterations. */
  function InstallTo(c: Config, m: Mem, bs: seq<nat>, k: nat): Mem
    requires k <= |bs|
  {
    if k == 0 then m
    else
      var p := InstallTo(c, m, bs, k - 1);
      Put(p, bs[k - 1], Contents(p, c.start + k))
  }

  /** bunpin of the first k blocks. */
  function UnpinTo(pins: multiset<nat>, bs: seq<nat>, k: nat): multiset<nat>
    requires k <= |bs|
  {
    if k == 0 then pins else UnpinTo(pins, bs, k - 1) - multiset{bs[k - 1]}
  }

  /** Every pin of a logged block is dropped, and no other. */
  lemma {:induction false} UnpinsLogged(pins: multiset<nat>, bs: seq<nat>, k: nat)
    requires k <= |bs|
    ensures UnpinTo(pins, bs, k) == pins - multiset(bs[..k])
  {
    if k > 0 {
      UnpinsLogged(pins, bs, k - 1);
      assert bs[..k] == bs[..k - 1] + [bs[k - 1]];
      MinusTwice(pins, multiset(bs[..k - 1]), multiset{bs[k - 1]});
    }
  }

  lemma MinusTwice(a: multiset<nat>, b: multiset<nat>, c: multiset<nat>)
    ensures a - b - c == a - (b + c)
  {
  }

  function CommitMem(c: Config, m: Mem, bs: seq<nat>): Mem {
    if bs == [] then m
    else
      var m1 := PutHead(c, WriteLogTo(c, m, bs, |bs|), bs);
      PutHead(c, InstallTo(c, m1, bs, |bs|), [])
  }

  function RecoverMem(c: Config, m: Mem): Mem {
    var bs := HeaderBlocks(Contents(m, c.start));
    PutHead(c, InstallTo(c, m, bs, |bs|), [])
  }

  ghost predicate GoodMem(c: Config, m: Mem, bs: seq<nat>) {
    ValidConfig(c) && |m.disk| == c.nblocks && ListOk(c, bs)
  }

  predicate Same(m: Mem, m': Mem, b: nat) {
    At(m'.disk, b) == At(m.disk, b) && Contents(m', b) == Contents(m, b)
  }

  predicate Clean(m: Mem, b: nat) { Contents(m, b) == At(m.disk, b) }

  predicate LoggedAs(c: Config, r: Mem, j: nat, data: Block) {
    At(r.disk, c.start + 1 + j) == data && Clean(r, c.start + 1 + j)
  }

  predicate InstalledAs(c: Config, m: Mem, r: Mem, b: nat, j: nat) {
    At(r.disk, b) == At(m.disk, c.start + 1 + j) && Clean(r, b)
  }

  /** write_log fills the log blocks with what readers see of the logged blocks and
      touches nothing else. */
  lemma {:induction false} WriteLogWrites(c: Config, m: Mem, bs: seq<nat>, k: nat)
    requires GoodMem(c, m, bs) && k <= |bs|
    ensures var r := WriteLogTo(c, m, bs, k);
      |r.disk| == c.nblocks &&
      (forall b: nat :: !(c.start < b <= c.start + k) ==> Same(m, r, b)) &&
      (forall j: nat :: j < k ==> LoggedAs(c, r, j, Contents(m, bs[j])))
  {
    if k > 0 {
      WriteLogWrites(c, m, bs, k - 1);
      var p, r := WriteLogTo(c, m, bs, k - 1), WriteLogTo(c, m, bs, k);
      assert Home(c, bs[k - 1]);
      assert Same(m, p, bs[k - 1]);
      forall j: nat | j < k ensures LoggedAs(c, r, j, Contents(m, bs[j])) {
        if j < k - 1 { assert LoggedAs(c, p, j, Contents(m, bs[j])); }
      }
      forall b: nat | !(c.start < b <= c.start + k) ensures Same(m, r, b) {
        assert Same(m, p, b);
      }
    }
  }

  /** install_trans gives every logged block the contents of its log block and touches
      nothing else. */
  lemma {:induction false} InstallWrites(c: Config, m: Mem, bs: seq<nat>, k: nat)
    requires GoodMem(c, m, bs) && k <= |bs|
    requires forall b: nat :: c.start < b <= c.start + |bs| ==> Clean(m, b)
    ensures var r := InstallTo(c, m, bs, k);
      |r.disk| == c.nblocks &&
      (forall b: nat :: b !in bs[..k] ==> Same(m, r, b)) &&
      (forall j: nat :: j < k ==> InstalledAs(c, m, r, bs[j], j))
  {
    if k > 0 {
      InstallWrites(c, m, bs, k - 1);
      var p, r := InstallTo(c, m, bs, k - 1), InstallTo(c, m, bs, k);
      assert bs[..k] == bs[..k - 1] + [bs[k - 1]];
      assert Home(c, bs[k - 1]);
      NotListed(c, bs, k - 1, c.start + k);
      assert Same(m, p, c.start + k) && Clean(m, c.start + k);
      forall j: nat | j < k ensures InstalledAs(c, m, r, bs[j], j) {
        if j < k - 1 { assert InstalledAs(c, m, p, bs[j], j); }
      }
      forall b: nat | b !in bs[..k] ensures Same(m, r, b) {
        assert Same(m, p, b);
      }
    }
  }

  lemma NotListed(c: Config, bs: seq<nat>, k: nat, b: nat)
    requires ListOk(c, bs) && k <= |bs| && !Home(c, b)
    ensures b !in bs[..k]
  {
  }

  /** Run to its end without a crash, recovery produces the recovered image, clears the
      header, and leaves the cache in step with the disk on home blocks. */
  lemma RecoverMemRecovers(c: Config, m: Mem, b: nat)
    requires GoodMem(c, m, Header(c, m.disk)) && Home(c, b)
    requires forall x: nat :: Clean(m, x)
    ensures At(RecoverMem(c, m).disk, b) == Recovered(c, m.disk, b) == Contents(RecoverMem(c, m), b)
    ensures Header(c, RecoverMem(c, m).disk) == []
  {
    var bs := Header(c, m.disk);
    InstallWrites(c, m, bs, |bs|);
    var r := InstallTo(c, m, bs, |bs|);
    assert Clean(m, c.start);
    RecoveredIs(c, m, r, bs, b);
    ClearHead(c, r, b);
  }

  lemma RecoveredIs(c: Config, m: Mem, r: Mem, bs: seq<nat>, b: nat)
    requires bs == Header(c, m.disk) && Clean(m, b) && forall x: nat :: x !in bs[..|bs|] ==> Same(m, r, x)
    requires forall j: nat :: j < |bs| ==> InstalledAs(c, m, r, bs[j], j)
    ensures At(r.disk, b) == Recovered(c, m.disk, b) == Contents(r, b)
  {
    assert bs[..|bs|] == bs;
    var j := LogIndex(bs, b);
    if j < 0 { assert Same(m, r, b); } else { assert InstalledAs(c, m, r, bs[j], j); }
  }

  lemma LogIsClean(c: Config, m: Mem, bs: seq<nat>)
    requires GoodMem(c, m, bs)
    ensures var m1 := PutHead(c, WriteLogTo(c, m, bs, |bs|), bs);
      forall x: nat :: c.start < x <= c.start + |bs| ==> Clean(m1, x)
  {
    WriteLogWrites(c, m, bs, |bs|);
    var m0 := WriteLogTo(c, m, bs, |bs|);
    forall x: nat | c.start < x <= c.start + |bs| ensures Clean(PutHead(c, m0, bs), x) {
      var j: nat := x - c.start - 1;
      assert LoggedAs(c, m0, j, Contents(m, bs[j]));
    }
  }

  /** Run to its end without a crash, commit puts on the disk what readers saw of every
      home block, and clears the header. */
  lemma CommitMemInstalls(c: Config, m: Mem, bs: seq<nat>, b: nat)
    requires GoodMem(c, m, bs) && Home(c, b)
    requires forall x: nat :: x !in bs ==> Clean(m, x)
    requires Header(c, m.disk) == []
    ensures At(CommitMem(c, m, bs).disk, b) == Contents(m, b) == Contents(CommitMem(c, m, bs), b)
    ensures Header(c, CommitMem(c, m, bs).disk) == []
  {
    if bs != [] { CommitListInstalls(c, m, bs, b); } else { assert Clean(m, b); }
  }

  /** A home block after write_log and write_head, and after install_trans. */
  lemma CommitListInstalls(c: Config, m: Mem, bs: seq<nat>, b: nat)
    requires GoodMem(c, m, bs) && Home(c, b) && bs != []
    requires forall x: nat :: x !in bs ==> Clean(m, x)
    ensures At(CommitMem(c, m, bs).disk, b) == Contents(m, b) == Contents(CommitMem(c, m, bs), b)
    ensures Header(c, CommitMem(c, m, bs).disk) == []
  {
    var m1 := PutHead(c, WriteLogTo(c, m, bs, |bs|), bs);
    LogWritten(c, m, bs, b);
    InstallWrites(c, m1, bs, |bs|);
    InstalledIs(c, m, m1, bs, b);
    ClearHead(c, InstallTo(c, m1, bs, |bs|), b);
  }

  lemma LogWritten(c: Config, m: Mem, bs: seq<nat>, b: nat)
    requires GoodMem(c, m, bs) && Home(c, b)
    ensures var m1 := PutHead(c, WriteLogTo(c, m, bs, |bs|), bs);
      |m1.disk| == c.nblocks && Same(m, m1, b) &&
      (forall x: nat :: c.start < x <= c.start + |bs| ==> Clean(m1, x)) &&
      forall j: nat :: j < |bs| ==> LoggedAs(c, m1, j, Contents(m, bs[j]))
  {
    var m0 := WriteLogTo(c, m, bs, |bs|);
    WriteLogWrites(c, m, bs, |bs|);
    LogIsClean(c, m, bs);
    assert Same(m, m0, b);
    forall j: nat | j < |bs| ensures LoggedAs(c, PutHead(c, m0, bs), j, Contents(m, bs[j])) {
      assert LoggedAs(c, m0, j, Contents(m, bs[j]));
    }
  }

  lemma InstalledIs(c: Config, m: Mem, m1: Mem, bs: seq<nat>, b: nat)
    requires Same(m, m1, b) && (b !in bs ==> Clean(m, b))
    requires forall j: nat :: j < |bs| ==> LoggedAs(c, m1, j, Contents(m, bs[j]))
    requires var r := InstallTo(c, m1, bs, |bs|);
      (forall x: nat :: x !in bs[..|bs|] ==> Same(m1, r, x)) &&
      forall j: nat :: j < |bs| ==> InstalledAs(c, m1, r, bs[j], j)
    ensures var r := InstallTo(c, m1, bs, |bs|); At(r.disk, b) == Contents(m, b) == Contents(r, b)
  {
    var r, j := InstallTo(c, m1, bs, |bs|), LogIndex(bs, b);
    assert bs[..|bs|] == bs;
    if j < 0 {
      assert Same(m1, r, b);
    } else {
      assert LoggedAs(c, m1, j, Contents(m, bs[j])) && InstalledAs(c, m1, r, bs[j], j);
    }
  }

  lemma ClearHead(c: Config, r: Mem, b: nat)
    requires ValidConfig(c) && |r.disk| == c.nblocks && Home(c, b)
    ensures Same(r, PutHead(c, r, []), b) && Header(c, PutHead(c, r, []).disk) == []
  {
  }

  // ---------- the disk after every write ----------

  /** The disk after each of the first k writes of write_log. */
  ghost function LogImages(c: Config, m: Mem, bs: seq<nat>, k: nat): (ds: seq<seq<Block>>)
    requires k <= |bs|
    ensures |ds| == k
  {
    if k == 0 then [] else LogImages(c, m, bs, k - 1) + [WriteLogTo(c, m, bs, k).disk]
  }

  lemma {:induction false} LogImagesAt(c: Config, m: Mem, bs: seq<nat>, k: nat, i: nat)
    requires i < k <= |bs|
    ensures LogImages(c, m, bs, k)[i] == WriteLogTo(c, m, bs, i + 1).disk
  {
    if i < k - 1 { LogImagesAt(c, m, bs, k - 1, i); }
  }

  /** The disk after each of the first k writes of install_trans. */
  ghost function InstallImages(c: Config, m: Mem, bs: seq<nat>, k: nat): (ds: seq<seq<Block>>)
    requires k <= |bs|
    ensures |ds| == k
  {
    if k == 0 then [] else InstallImages(c, m, bs, k - 1) + [InstallTo(c, m, bs, k).disk]
  }

  lemma {:induction false} InstallImagesAt(c: Config, m: Mem, bs: seq<nat>, k: nat, i: nat)
    requires i < k <= |bs|
    ensures InstallImages(c, m, bs, k)[i] == InstallTo(c, m, bs, i + 1).disk
  {
    if i < k - 1 { InstallImagesAt(c, m, bs, k - 1, i); }
  }

  /** The memory, the pins and the trace of disks. */
  datatype Snapshot = Snapshot(mem: Mem, pins: multiset<nat>, trace: seq<seq<Block>>)

  /** What install_trans has made of v after k rounds. */
  ghost function Installing(c: Config, v: Snapshot, bs: seq<nat>, k: nat, recovering: bool): Snapshot
    requires k <= |bs|
  {
    Snapshot(InstallTo(c, v.mem, bs, k), if recovering then v.pins else UnpinTo(v.pins, bs, k),
         v.trace + InstallImages(c, v.mem, bs, k))
  }

  lemma InstallNext(c: Config, v: Snapshot, bs: seq<nat>, k: nat, recovering: bool, p: Snapshot)
    requires k < |bs| && p == Installing(c, v, bs, k, recovering)
    ensures var m := Put(p.mem, bs[k], Contents(p.mem, c.start + k + 1));
      Installing(c, v, bs, k + 1, recovering) ==
      Snapshot(m, if recovering then p.pins else p.pins - multiset{bs[k]}, p.trace + [m.disk])
  {
    var m := Put(p.mem, bs[k], Contents(p.mem, c.start + k + 1));
    assert v.trace + InstallImages(c, v.mem, bs, k) + [m.disk] == v.trace + (InstallImages(c, v.mem, bs, k) + [m.disk]);
  }

  /** A crash now would lose what the transaction wrote. */
  ghost predicate ShowsOld(c: Config, m: Mem, d: seq<Block>) {
    forall b: nat :: Home(c, b) ==> Recovered(c, d, b) == At(m.disk, b)
  }

  /** A crash now would keep all that the transaction wrote. */
  ghost predicate ShowsNew(c: Config, m: Mem, d: seq<Block>) {
    forall b: nat :: Home(c, b) ==> Recovered(c, d, b) == Contents(m, b)
  }

  /** Two disks promise the same. */
  ghost predicate Promises(c: Config, d: seq<Block>, d': seq<Block>) {
    forall b: nat :: Home(c, b) ==> Recovered(c, d', b) == Recovered(c, d, b)
  }

  /** The commit point has been passed: some image up to the i-th has a list in its header. */
  ghost predicate HeaderOut(c: Config, ds: seq<seq<Block>>, i: nat) {
    exists j :: 0 <= j <= i && j < |ds| && Header(c, ds[j]) != []
  }

  /** Each image shows the old contents of all home blocks or the new contents of all, and the
      new ones exactly from the first header with a list on. */
  ghost predicate Atomic(c: Config, m: Mem, ds: seq<seq<Block>>) {
    forall i: nat {:trigger HeaderOut(c, ds, i)} :: i < |ds| ==>
      if HeaderOut(c, ds, i) then ShowsNew(c, m, ds[i]) else ShowsOld(c, m, ds[i])
  }

  lemma LogImage(c: Config, m: Mem, bs: seq<nat>, k: nat)
    requires GoodMem(c, m, bs) && k <= |bs| && Header(c, m.disk) == []
    ensures var d := WriteLogTo(c, m, bs, k).disk; Header(c, d) == [] && ShowsOld(c, m, d)
  {
    WriteLogWrites(c, m, bs, k);
    var r := WriteLogTo(c, m, bs, k);
    assert Same(m, r, c.start);
    forall b: nat | Home(c, b) ensures Recovered(c, r.disk, b) == At(m.disk, b) { assert Same(m, r, b); }
  }

  lemma InstallImage(c: Config, m: Mem, bs: seq<nat>, k: nat, d: seq<Block>)
    requires GoodMem(c, m, bs) && k <= |bs| && Header(c, m.disk) == bs && d == InstallTo(c, m, bs, k).disk
    requires forall b: nat :: c.start < b <= c.start + |bs| ==> Clean(m, b)
    ensures Promises(c, m.disk, d)
  {
    InstallWrites(c, m, bs, k);
    var r := InstallTo(c, m, bs, k);
    NotListed(c, bs, k, c.start);
    assert Same(m, r, c.start);
    forall b: nat | Home(c, b) ensures Recovered(c, r.disk, b) == Recovered(c, m.disk, b) {
      var j := LogIndex(bs, b);
      if j >= 0 {
        NotListed(c, bs, k, c.start + 1 + j);
        assert Same(m, r, c.start + 1 + j);
      } else {
        assert Same(m, r, b);
      }
    }
  }

  /** The memory after write_log and write_head: the commit point. */
  ghost function CommitPoint(c: Config, m: Mem, bs: seq<nat>): Mem {
    PutHead(c, WriteLogTo(c, m, bs, |bs|), bs)
  }

  lemma CommitPointShows(c: Config, m: Mem, bs: seq<nat>)
    requires GoodMem(c, m, bs) && forall x: nat :: x !in bs ==> Clean(m, x)
    ensures var m1 := CommitPoint(c, m, bs);
      GoodMem(c, m1, bs) && Header(c, m1.disk) == bs && ShowsNew(c, m, m1.disk) &&
      forall b: nat :: c.start < b <= c.start + |bs| ==> Clean(m1, b)
  {
    var m1 := CommitPoint(c, m, bs);
    WriteLogWrites(c, m, bs, |bs|);
    LogIsClean(c, m, bs);
    forall b: nat | Home(c, b) ensures Recovered(c, m1.disk, b) == Contents(m, b) {
      LogWritten(c, m, bs, b);
      var j := LogIndex(bs, b);
      if j >= 0 { assert LoggedAs(c, m1, j, Contents(m, bs[j])); } else { assert Clean(m, b); }
    }
  }

  ghost function CommitImages(c: Config, m: Mem, bs: seq<nat>): seq<seq<Block>> {
    if bs == [] then []
    else
      var m1 := CommitPoint(c, m, bs);
      LogImages(c, m, bs, |bs|) + [m1.disk] + InstallImages(c, m1, bs, |bs|) + [CommitMem(c, m, bs).disk]
  }

  lemma Joined(tr: seq<seq<Block>>, a: seq<seq<Block>>, d: seq<Block>, b: seq<seq<Block>>, e: seq<Block>)
    ensures tr + a + [d] + b + [e] == tr + (a + [d] + b + [e])
    ensures forall i: nat :: i < |a| ==> (a + [d] + b + [e])[i] == a[i]
    ensures (a + [d] + b + [e])[|a|] == d
    ensures forall i: nat :: i < |b| ==> (a + [d] + b + [e])[|a| + 1 + i] == b[i]
    ensures (a + [d] + b + [e])[|a| + 1 + |b|] == e
  {
  }

  lemma CommitDone(c: Config, m: Mem, bs: seq<nat>)
    requires GoodMem(c, m, bs) && Header(c, m.disk) == [] && forall x: nat :: x !in bs ==> Clean(m, x)
    ensures ShowsNew(c, m, CommitMem(c, m, bs).disk)
  {
    forall b: nat | Home(c, b) ensures Recovered(c, CommitMem(c, m, bs).disk, b) == Contents(m, b) {
      CommitMemInstalls(c, m, bs, b);
    }
  }

  lemma InstallImagesPromise(c: Config, m: Mem, bs: seq<nat>, i: nat)
    requires GoodMem(c, m, bs) && i < |bs| && Header(c, m.disk) == bs
    requires forall b: nat :: c.start < b <= c.start + |bs| ==> Clean(m, b)
    ensures Promises(c, m.disk, InstallImages(c, m, bs, |bs|)[i])
  {
    var d := InstallImages(c, m, bs, |bs|)[i];
    InstallImagesAt(c, m, bs, |bs|, i);
    InstallImage(c, m, bs, i + 1, d);
  }

  lemma InstallShows(c: Config, m: Mem, bs: seq<nat>, i: nat)
    requires GoodMem(c, m, bs) && i < |bs| && forall x: nat :: x !in bs ==> Clean(m, x)
    ensures ShowsNew(c, m, InstallImages(c, CommitPoint(c, m, bs), bs, |bs|)[i])
  {
    CommitPointShows(c, m, bs);
    InstallImagesPromise(c, CommitPoint(c, m, bs), bs, i);
  }

  /** What the i-th image of a commit is. */
  lemma CommitImage(c: Config, m: Mem, bs: seq<nat>, i: nat)
    requires GoodMem(c, m, bs) && Header(c, m.disk) == [] && forall x: nat :: x !in bs ==> Clean(m, x)
    requires bs != [] && i < |CommitImages(c, m, bs)|
    ensures var d := CommitImages(c, m, bs)[i];
      if i < |bs| then Header(c, d) == [] && ShowsOld(c, m, d)
      else ShowsNew(c, m, d) && (i == |bs| ==> Header(c, d) == bs)
  {
    var m1, n := CommitPoint(c, m, bs), |bs|;
    Joined([], LogImages(c, m, bs, n), m1.disk, InstallImages(c, m1, bs, n), CommitMem(c, m, bs).disk);
    if i < n {
      LogImagesAt(c, m, bs, n, i);
      LogImage(c, m, bs, i + 1);
    } else if i == n {
      CommitPointShows(c, m, bs);
    } else if i <= 2 * n {
      InstallShows(c, m, bs, i - n - 1);
    } else {
      CommitDone(c, m, bs);
    }
  }

  /** A commit is atomic at every single write. */
  lemma CommitImagesAtomic(c: Config, m: Mem, bs: seq<nat>)
    requires GoodMem(c, m, bs) && Header(c, m.disk) == [] && forall x: nat :: x !in bs ==> Clean(m, x)
    ensures Atomic(c, m, CommitImages(c, m, bs))
  {
    var ds := CommitImages(c, m, bs);
    forall i: nat | i < |ds|
      ensures if HeaderOut(c, ds, i) then ShowsNew(c, m, ds[i]) else ShowsOld(c, m, ds[i])
    {
      CommitImage(c, m, bs, i);
      if i < |bs| {
        forall j | 0 <= j <= i ensures Header(c, ds[j]) == [] { CommitImage(c, m, bs, j); }
      } else {
        CommitImage(c, m, bs, |bs|);
        assert Header(c, ds[|bs|]) != [];
      }
    }
  }

  ghost function RecoverImages(c: Config, m: Mem): seq<seq<Block>> {
    var bs := HeaderBlocks(Contents(m, c.start));
    InstallImages(c, m, bs, |bs|) + [RecoverMem(c, m).disk]
  }

  lemma RecoverDone(c: Config, m: Mem)
    requires GoodMem(c, m, Header(c, m.disk)) && forall x: nat :: Clean(m, x)
    ensures Promises(c, m.disk, RecoverMem(c, m).disk)
  {
    forall b: nat | Home(c, b) ensures Recovered(c, RecoverMem(c, m).disk, b) == Recovered(c, m.disk, b) {
      RecoverMemRecovers(c, m, b);
    }
  }

  /** After every write of a recovery, a crash and another recovery would give the same. */
  lemma RecoverImagesPromise(c: Config, m: Mem, i: nat)
    requires GoodMem(c, m, Header(c, m.disk)) && (forall x: nat :: Clean(m, x)) && i < |RecoverImages(c, m)|
    ensures Promises(c, m.disk, RecoverImages(c, m)[i])
  {
    var bs := Header(c, m.disk);
    assert Clean(m, c.start);
    if i < |bs| { InstallImagesPromise(c, m, bs, i); } else { RecoverDone(c, m); }
  }

  class Log {
    const c: Config
    var disk: seq<Block>
    /** The disk after every write so far. */
    ghost var trace: seq<seq<Block>>
    var cache: map<nat, Block>
    var n: nat
    const block: array<nat>
    var outstanding: int
    var committing: bool
    /** The references that bpin took and bunpin has not dropped. */
    var pins: multiset<nat>

    ghost predicate Valid()
      reads this, block
    {
      ValidConfig(c) && |disk| == c.nblocks && block.Length == LOGSIZE && n <= LOGSIZE && ListOk(c, block[..n])
    }

    ghost function Blocks(): seq<nat>
      requires Valid()
      reads this, block
    {
      block[..n]
    }

    ghost function Memory(): Mem
      reads this
    {
      Mem(disk, cache)
    }

    /** initlog: nothing is cached yet, and the log on the disk is recovered. */
    constructor (config: Config, image: seq<Block>)
      requires ValidConfig(config) && |image| == config.nblocks && ListOk(config, Header(config, image))
      ensures c == config && fresh(block) && Valid() && Blocks() == []
      ensures outstanding == 0 && !committing && pins == multiset{}
      ensures Memory() == RecoverMem(config, Mem(image, map[]))
      ensures forall i :: 0 <= i < |trace| ==> Promises(config, image, trace[i])
    {
      c, disk, cache, trace := config, image, map[], [];
      n, block := 0, new nat[LOGSIZE];
      outstanding, committing, pins := 0, false, multiset{};
      new;
      RecoverFromLog();
    }

    method Bread(b: nat) returns (data: Block)
      ensures data == Contents(Memory(), b)
    {
      if b in cache {
        data := cache[b];
      } else {
        data := At(disk, b);
      }
    }

    method Bwrite(b: nat, data: Block)
      requires b < |disk|
      modifies this`disk, this`cache, this`trace
      ensures Memory() == Put(old(Memory()), b, data) && trace == old(trace) + [disk]
    {
      disk := disk[b := data];
      cache := cache[b := data];
      trace := trace + [disk];
    }

    /** One pass of begin_op's loop: admitted, or put to sleep. */
    method BeginOp() returns (admitted: bool)
      requires Valid()
      modifies this`outstanding
      ensures admitted <==> !committing && |Blocks()| + (old(outstanding) + 1) * MAXOPBLOCKS <= LOGSIZE
      ensures outstanding == old(outstanding) + if admitted then 1 else 0
    {
      if committing {
        admitted := false;
      } else if n + (outstanding + 1) * MAXOPBLOCKS > LOGSIZE {
        admitted := false;
      } else {
        outstanding := outstanding + 1;
        admitted := true;
      }
    }

    method EndOp() returns (doCommit: bool, panicked: bool)
      modifies this`outstanding, this`committing
      ensures outstanding == old(outstanding) - 1
      ensures panicked <==> old(committing)
      ensures doCommit <==> !panicked && outstanding == 0
      ensures committing == (old(committing) || doCommit)
    {
      doCommit, panicked := false, false;
      outstanding := outstanding - 1;
      if committing {
        panicked := true;
        return;
      }
      if outstanding == 0 {
        doCommit := true;
        committing := true;
      }
    }

    /** log_write: absorb the block if it is logged already, append it otherwise. */
    method LogWrite(b: nat) returns (panicked: bool, pin: bool)
      requires Valid() && Home(c, b)
      modifies this`n, this`pins, block
      ensures Valid()
      ensures panicked <==> |old(Blocks())| >= LOGSIZE || |old(Blocks())| >= c.size - 1 || outstanding < 1
      ensures panicked ==> Blocks() == old(Blocks()) && !pin
      ensures !panicked ==> Blocks() == if b in old(Blocks()) then old(Blocks()) else old(Blocks()) + [b]
      ensures !panicked ==> pin == (b !in old(Blocks()))
      ensures pins == old(pins) + if pin then multiset{b} else multiset{}
      ensures old(pins == multiset(Blocks())) ==> pins == multiset(Blocks())
    {
      panicked, pin := false, false;
      if n >= LOGSIZE || n >= c.size - 1 {
        panicked := true;
        return;
      }
      if outstanding < 1 {
        panicked := true;
        return;
      }
      var i := 0;
      while i < n
        invariant 0 <= i <= n
        invariant b !in block[..i]
      {
        if block[i] == b {
          break;
        }
        i := i + 1;
      }
      ghost var before := block[..n];
      block[i] := b;
      if i == n {
        pin := true;
        pins := pins + multiset{b};
        n := n + 1;
        assert block[..n] == before + [b];
      } else {
        assert block[..n] == before;
      }
    }

    /** read_head: copy the block numbers of the on-disk header. */
    method ReadHead()
      requires ValidConfig(c) && |disk| == c.nblocks && block.Length == LOGSIZE
      requires ListOk(c, HeaderBlocks(Contents(Memory(), c.start)))
      modifies this`n, block
      ensures Valid() && Blocks() == HeaderBlocks(Contents(Memory(), c.start))
    {
      var h := Bread(c.start);
      var hs := HeaderBlocks(h);
      n := |hs|;
      var i := 0;
      while i < n
        invariant 0 <= i <= n == |hs| <= LOGSIZE
        invariant block[..i] == hs[..i]
      {
        block[i] := hs[i];
        i := i + 1;
      }
    }

    method WriteHead()
      requires Valid()
      modifies this`disk, this`cache, this`trace
      ensures Valid() && Memory() == PutHead(c, old(Memory()), Blocks()) && trace == old(trace) + [disk]
    {
      var h := Bread(c.start);
      Bwrite(c.start, PutHeader(h, block[..n]));
    }

    method WriteLog()
      requires Valid()
      modifies this`disk, this`cache, this`trace
      ensures Valid() && Memory() == WriteLogTo(c, old(Memory()), Blocks(), n)
      ensures trace == old(trace) + LogImages(c, old(Memory()), Blocks(), n)
    {
      var tail := 0;
      assert trace == trace + [];
      while tail < n
        invariant 0 <= tail <= n && |disk| == c.nblocks
        invariant Memory() == WriteLogTo(c, old(Memory()), block[..n], tail)
        invariant trace == old(trace) + LogImages(c, old(Memory()), block[..n], tail)
      {
        var from := Bread(block[tail]);
        Bwrite(c.start + tail + 1, from);
        tail := tail + 1;
      }
    }

    ghost function V(): Snapshot
      reads this
    {
      Snapshot(Memory(), pins, trace)
    }

    /** One round of install_trans: a commit unpins what it installs, a recovery has nothing pinned. */
    method InstallOne(tail: nat, b: nat, recovering: bool, ghost v: Snapshot, ghost bs: seq<nat>)
      requires tail < |bs| && bs[tail] == b < |disk| && V() == Installing(c, v, bs, tail, recovering)
      modifies this`disk, this`cache, this`pins, this`trace
      ensures |disk| == |old(disk)| && V() == Installing(c, v, bs, tail + 1, recovering)
    {
      InstallNext(c, v, bs, tail, recovering, V());
      var lbuf := Bread(c.start + tail + 1);
      Bwrite(b, lbuf);
      if !recovering {
        pins := pins - multiset{b};
      }
    }

    method InstallTrans(recovering: bool)
      requires Valid()
      modifies this`disk, this`cache, this`pins, this`trace
      ensures Valid() && V() == Installing(c, old(V()), Blocks(), n, recovering)
    {
      ghost var bs, v := Blocks(), V();
      var tail := 0;
      assert trace == trace + [];
      while tail < n
        invariant 0 <= tail <= n && |disk| == c.nblocks && V() == Installing(c, v, bs, tail, recovering)
      {
        assert Home(c, bs[tail]);
        InstallOne(tail, block[tail], recovering, v, bs);
        tail := tail + 1;
      }
    }

    method Commit()
      requires Valid()
      modifies this`disk, this`cache, this`n, this`pins, this`trace
      ensures Valid() && Blocks() == [] && Memory() == CommitMem(c, old(Memory()), old(Blocks()))
      ensures pins == UnpinTo(old(pins), old(Blocks()), |old(Blocks())|)
      ensures old(trace) <= trace && (old(Blocks()) == [] <==> trace == old(trace))
      ensures old(Header(c, disk) == [] && forall x: nat :: x !in Blocks() ==> Clean(Memory(), x)) ==>
        Atomic(c, old(Memory()), trace[|old(trace)|..])
    {
      ghost var bs, m, tr := Blocks(), Memory(), trace;
      if Header(c, disk) == [] && forall x: nat :: x !in bs ==> Clean(m, x) { CommitImagesAtomic(c, m, bs); }
      CommitWrites();
      assert trace[|tr|..] == CommitImages(c, m, bs);
    }

    /** The body of commit(). */
    method CommitWrites()
      requires Valid()
      modifies this`disk, this`cache, this`n, this`pins, this`trace
      ensures Valid() && Blocks() == [] && Memory() == CommitMem(c, old(Memory()), old(Blocks()))
      ensures pins == UnpinTo(old(pins), old(Blocks()), |old(Blocks())|)
      ensures trace == old(trace) + CommitImages(c, old(Memory()), old(Blocks()))
    {
      ghost var bs, m, tr := Blocks(), Memory(), trace;
      if n > 0 {
        WriteLog();
        WriteHead();
        InstallTrans(false);
        n := 0;
        WriteHead();
        Joined(tr, LogImages(c, m, bs, |bs|), CommitPoint(c, m, bs).disk,
               InstallImages(c, CommitPoint(c, m, bs), bs, |bs|), disk);
      }
    }

    method RecoverFromLog()
      requires ValidConfig(c) && |disk| == c.nblocks && block.Length == LOGSIZE
      requires ListOk(c, HeaderBlocks(Contents(Memory(), c.start)))
      modifies this`disk, this`cache, this`n, this`pins, this`trace, block
      ensures Valid() && Blocks() == [] && pins == old(pins) && Memory() == RecoverMem(c, old(Memory()))
      ensures old(trace) <= trace
      ensures old(forall x: nat :: Clean(Memory(), x)) ==>
        forall i :: |old(trace)| <= i < |trace| ==> Promises(c, old(disk), trace[i])
    {
      ghost var m := Memory();
      if forall x: nat :: Clean(m, x) {
        assert Clean(m, c.start);
        forall i: nat | i < |RecoverImages(c, m)| ensures Promises(c, m.disk, RecoverImages(c, m)[i]) {
          RecoverImagesPromise(c, m, i);
        }
      }
      RecoverWrites();
    }

    /** The body of recover_from_log(). */
    method RecoverWrites()
      requires ValidConfig(c) && |disk| == c.nblocks && block.Length == LOGSIZE
      requires ListOk(c, HeaderBlocks(Contents(Memory(), c.start)))
      modifies this`disk, this`cache, this`n, this`pins, this`trace, block
      ensures Valid() && Blocks() == [] && pins == old(pins) && Memory() == RecoverMem(c, old(Memory()))
      ensures trace == old(trace) + RecoverImages(c, old(Memory()))
    {
      ReadHead();
      InstallTrans(true);
      n := 0;
      WriteHead();
    }
  }
}
