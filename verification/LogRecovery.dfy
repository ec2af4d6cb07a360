/** Recovery can complete: from the disk that any crash leaves, whatever its header lists. */
module LogRecovery {
  import opened Common
  import opened LogMachine
  import opened LogRefinement
  import opened LogTheorems

  /** The booting thread alone gets from power-on with this disk to state e. */
  ghost predicate CanBoot(c: Config, disk: seq<Block>, e: State) {
    exists ss: seq<State>, acts: seq<Action> :: BootRun(c, disk, ss, acts) && ss[|acts|] == e
  }

  ghost predicate BootRun(c: Config, disk: seq<Block>, ss: seq<State>, acts: seq<Action>) {
    IsRun(c, disk, ss, acts) && forall i :: 0 <= i < |acts| ==> !acts[i].Begin? && !acts[i].Crash?
  }

  lemma Go(c: Config, disk: seq<Block>, e: State, a: Action) returns (e': State)
    requires CanBoot(c, disk, e) && Enabled(c, e, a) && !a.Begin? && !a.Crash?
    ensures CanBoot(c, disk, e') && e' == Next(c, e, a)
  {
    e' := Next(c, e, a);
    var ss: seq<State>, acts: seq<Action> :| BootRun(c, disk, ss, acts) && ss[|acts|] == e;
    var ss', acts' := ss + [e'], acts + [a];
    forall i: nat | i < |acts'| ensures StepAt(c, ss', acts', i) {
      if i < |acts| { assert StepAt(c, ss, acts, i); }
    }
    assert BootRun(c, disk, ss', acts') && ss'[|acts'|] == e';
  }

  /** What the committer has after bread of block b. */
  function Fetched(e: State, b: nat): Buf { Buf(true, At(e.disk, b), 1, {COMMITTER}, Some(COMMITTER)) }

  /** bread of a block that is not cached. */
  lemma Fetch(c: Config, disk: seq<Block>, e: State, b: nat) returns (e': State)
    requires CanBoot(c, disk, e) && e.panic.None? && b < c.nblocks && b !in e.cache && |e.cache| < NBUF
    ensures CanBoot(c, disk, e') && e' == SetBuf(e, b, Fetched(e, b))
  {
    var e1 := Go(c, disk, e, Bget(COMMITTER, b, Block([])));
    var e2 := Go(c, disk, e1, Acquire(COMMITTER, b));
    e' := Go(c, disk, e2, Fill(COMMITTER, b));
    assert e'.cache == e.cache[b := Fetched(e, b)];
  }

  /** brelse, after which the buffer goes to other uses. */
  lemma Drop(c: Config, disk: seq<Block>, e: State, b: nat) returns (e': State)
    requires CanBoot(c, disk, e) && e.panic.None? && e.ops == map[] && b in e.cache
    requires e.cache[b] == Fetched(e, b).(data := e.cache[b].data)
    ensures CanBoot(c, disk, e') && e' == e.(cache := e.cache - {b})
  {
    var e1 := Go(c, disk, e, Brelse(COMMITTER, b));
    assert e1.cache[b].refcnt == 0;
    e' := Go(c, disk, e1, Evict(b));
    assert e'.cache == e.cache - {b};
  }

  /** Recovery between two rounds, with k blocks installed and no buffer in use. */
  function Rec(disk: seq<Block>, lh: seq<nat>, k: nat): State {
    State(disk, map[], lh, map[], 0, false, RecInstall(k), None)
  }

  /** The copying step of recovery, on its two buffers. */
  lemma InstallIs(c: Config, d: seq<Block>, lh: seq<nat>, k: nat, a: nat, b: nat, e: State)
    requires k < |lh| && a == c.start + 1 + k && b == lh[k] && a != b && b < |d|
    requires e == SetBuf(SetBuf(Rec(d, lh, k), a, Fetched(Rec(d, lh, k), a)), b, Fetched(Rec(d, lh, k), b))
    ensures Enabled(c, e, CommitStep)
    ensures var buf := Fetched(e, b).(data := At(d, a));
      CommitNext(c, e) == SetBuf(SetBuf(Rec(d[b := At(d, a)], lh, k + 1), a, Fetched(Rec(d, lh, k), a)), b, buf)
  {
    var buf := Fetched(e, b).(data := At(d, a));
    assert e.cache[b := buf] == map[a := Fetched(Rec(d, lh, k), a)][b := buf];
  }

  lemma InstallRound(c: Config, disk: seq<Block>, d: seq<Block>, lh: seq<nat>, k: nat)
    requires CanBoot(c, disk, Rec(d, lh, k)) && ValidConfig(c) && |d| == c.nblocks && ListOk(c, lh) && k < |lh|
    ensures CanBoot(c, disk, Rec(d[lh[k] := At(d, c.start + 1 + k)], lh, k + 1)) && lh[k] < |d|
  {
    var a, b, e := c.start + 1 + k, lh[k], Rec(d, lh, k);
    assert Home(c, b);
    var e1 := Fetch(c, disk, e, a);
    assert |e1.cache| == 1;
    var e2 := Fetch(c, disk, e1, b);
    InstallIs(c, d, lh, k, a, b, e2);
    var e3 := Go(c, disk, e2, CommitStep);
    DropTwo(c, disk, Rec(d[b := At(d, a)], lh, k + 1), a, b, Fetched(e, a), Fetched(e2, b).(data := At(d, a)), e3);
  }

  /** The two buffers go to other uses. */
  lemma DropTwo(c: Config, disk: seq<Block>, e: State, a: nat, b: nat, abuf: Buf, bbuf: Buf, e3: State)
    requires a != b && e.cache == map[] && e.panic.None? && e.ops == map[]
    requires e3 == SetBuf(SetBuf(e, a, abuf), b, bbuf) && CanBoot(c, disk, e3)
    requires abuf == Fetched(e, a).(data := abuf.data) && bbuf == Fetched(e, b).(data := bbuf.data)
    ensures CanBoot(c, disk, e)
  {
    var e4 := Drop(c, disk, e3, b);
    assert e4.cache == map[a := abuf];
    var e5 := Drop(c, disk, e4, a);
    assert e5.cache == map[];
    assert e5 == e;
  }

  lemma ReadRound(c: Config, disk: seq<Block>)
    requires GoodDisk(c, disk)
    ensures CanBoot(c, disk, Rec(disk, Header(c, disk), 0))
  {
    var e := PowerOn(disk);
    assert BootRun(c, disk, [e], []) && [e][0] == e;
    var e1 := Fetch(c, disk, e, c.start);
    var e2 := Go(c, disk, e1, CommitStep);
    var e3 := Drop(c, disk, e2, c.start);
    assert e3.cache == map[];
    assert e3 == Rec(disk, Header(c, disk), 0);
  }

  lemma ClearRound(c: Config, disk: seq<Block>, d: seq<Block>, lh: seq<nat>) returns (e: State)
    requires CanBoot(c, disk, Rec(d, lh, |lh|)) && ValidConfig(c) && |d| == c.nblocks
    ensures CanBoot(c, disk, e) && e.phase.Running? && e.lh == [] && e.cache == map[] && e.panic.None?
  {
    var e1 := Fetch(c, disk, Rec(d, lh, |lh|), c.start);
    var e2 := Go(c, disk, e1, CommitStep);
    e := Drop(c, disk, e2, c.start);
    assert e.cache == map[];
  }

  lemma {:induction false} Rounds(c: Config, disk: seq<Block>, k: nat) returns (d: seq<Block>)
    requires GoodDisk(c, disk) && k <= |Header(c, disk)|
    ensures |d| == c.nblocks && CanBoot(c, disk, Rec(d, Header(c, disk), k))
  {
    if k == 0 {
      ReadRound(c, disk);
      d := disk;
    } else {
      var d0 := Rounds(c, disk, k - 1);
      var lh := Header(c, disk);
      InstallRound(c, disk, d0, lh, k - 1);
      d := d0[lh[k - 1] := At(d0, c.start + k)];
    }
  }

  /** Recovery of any good disk can complete, however many blocks its header lists. */
  lemma RecoveryCompletes(c: Config, disk: seq<Block>) returns (e: State)
    requires GoodDisk(c, disk)
    ensures CanBoot(c, disk, e) && e.phase.Running? && e.lh == [] && e.panic.None?
  {
    var d := Rounds(c, disk, |Header(c, disk)|);
    e := ClearRound(c, disk, d, Header(c, disk));
  }

  /** Whenever the power goes off, the disk is one that can be recovered. */
  lemma CrashLeavesGoodDisk(c: Config, disk: seq<Block>, ss: seq<State>, acts: seq<Action>, i: nat) returns (e: State)
    requires IsRun(c, disk, ss, acts) && i <= |acts|
    ensures GoodDisk(c, ss[i].disk) && Next(c, ss[i], Crash) == PowerOn(ss[i].disk)
    ensures CanBoot(c, ss[i].disk, e) && e.phase.Running? && e.lh == [] && e.panic.None?
  {
    InvAt(c, disk, ss, acts, i);
    CrashKeepsInv(c, ss[i]);
    e := RecoveryCompletes(c, ss[i].disk);
  }
}
