/** The code of log.c and the steps of the log machine are the same thing: while other threads
    read, evict and release blocks, a commit and a recovery go through the memories that the
    loops of write_log and install_trans compute. */
module LogSteps {
  import opened LogMachine
  import opened LogRefinement
  import opened LogTheorems
  import opened LogCode

  /** The disk and the valid buffers of a state. */
  function Seen(s: State): Mem {
    Mem(s.disk, map b | b in s.cache && s.cache[b].valid :: s.cache[b].data)
  }

  /** Same disk, and bread returns the same for every block. */
  ghost predicate Agree(s: State, m: Mem) {
    s.disk == m.disk && forall b: nat :: View(s, b) == Contents(m, b)
  }

  /** What the code has computed when the machine is in this phase. */
  function Computed(c: Config, m: Mem, bs: seq<nat>, phase: Phase): Mem {
    match phase
    case WriteLog(k) => if k <= |bs| then WriteLogTo(c, m, bs, k) else m
    case Install(k) => if k <= |bs| then InstallTo(c, PutHead(c, WriteLogTo(c, m, bs, |bs|), bs), bs, k) else m
    case Finish => CommitMem(c, m, bs)
    case RecInstall(k) => if k <= |bs| then InstallTo(c, m, bs, k) else m
    case Running => RecoverMem(c, m)
    case _ => m
  }

  /** The list in memory is the one that is committed or recovered, until it is emptied. */
  predicate ListIs(s: State, bs: seq<nat>) {
    match s.phase
    case Finish => s.lh == []
    case Running => s.lh == []
    case ReadHead => s.lh == []
    case _ => s.lh == bs
  }

  /** State s of a commit or recovery of bs that started in memory m. */
  ghost predicate Tracks(c: Config, s: State, m: Mem, bs: seq<nat>) {
    ListIs(s, bs) && Agree(s, Computed(c, m, bs, s.phase))
  }

  /** Other threads' steps, and the commit's own reads and releases, change no contents. */
  lemma OtherStep(c: Config, s: State, a: Action)
    requires Inv(c, s) && s.ops == map[] && Enabled(c, s, a) && !a.CommitStep? && !a.Crash? && !a.Begin?
    ensures var s' := Next(c, s, a); s'.disk == s.disk && s'.lh == s.lh && s'.phase == s.phase
    ensures forall b: nat :: View(Next(c, s, a), b) == View(s, b)
  {
    forall b: nat ensures View(Next(c, s, a), b) == View(s, b) {
      if a.Evict? { EvictView(c, s, a.b, b); } else { CacheStepView(c, s, a, b); }
    }
  }

  /** A buffer written with bwrite is what everybody sees of its block. */
  lemma PutAgrees(s: State, m: Mem, b: nat, buf: Buf, s': State)
    requires Agree(s, m) && buf.valid
    requires s'.disk == Bwrite(s, b, buf).disk && s'.cache == Bwrite(s, b, buf).cache
    ensures Agree(s', Put(m, b, buf.data))
  {
    forall x: nat ensures View(s', x) == Contents(Put(m, b, buf.data), x) {
      assert View(s, x) == Contents(m, x);
    }
  }

  lemma HeldView(s: State, m: Mem, t: Tid, b: nat)
    requires Agree(s, m) && Held(s, t, b)
    ensures s.cache[b].data == Contents(m, b)
  {
    assert View(s, b) == Contents(m, b);
  }

  lemma CopyTracks(c: Config, s: State, m: Mem, bs: seq<nat>)
    requires Tracks(c, s, m, bs) && CommitEnabled(c, s) && s.phase.WriteLog? && s.phase.k < |s.lh|
    ensures Tracks(c, CommitNext(c, s), m, bs)
  {
    var k, p := s.phase.k, Computed(c, m, bs, s.phase);
    var to := c.start + 1 + k;
    HeldView(s, p, COMMITTER, bs[k]);
    PutAgrees(s, p, to, s.cache[to].(data := s.cache[bs[k]].data), CommitNext(c, s));
  }

  lemma InstallTracks(c: Config, s: State, m: Mem, bs: seq<nat>)
    requires Tracks(c, s, m, bs) && CommitEnabled(c, s) && (s.phase.Install? || s.phase.RecInstall?) &&
      s.phase.k < |s.lh|
    ensures Tracks(c, CommitNext(c, s), m, bs)
  {
    InstallPuts(c, s, Computed(c, m, bs, s.phase));
    InstallComputes(c, m, bs, s.phase);
  }

  lemma InstallPuts(c: Config, s: State, p: Mem)
    requires Agree(s, p) && CommitEnabled(c, s) && (s.phase.Install? || s.phase.RecInstall?) && s.phase.k < |s.lh|
    ensures var k := s.phase.k; Agree(CommitNext(c, s), Put(p, s.lh[k], Contents(p, c.start + 1 + k)))
  {
    var k, s' := s.phase.k, CommitNext(c, s);
    HeldView(s, p, COMMITTER, c.start + 1 + k);
    PutAgrees(s, p, s.lh[k], s'.cache[s.lh[k]], s');
  }

  lemma InstallComputes(c: Config, m: Mem, bs: seq<nat>, phase: Phase)
    requires (phase.Install? || phase.RecInstall?) && phase.k < |bs|
    ensures var p := Computed(c, m, bs, phase);
      Computed(c, m, bs, phase.(k := phase.k + 1)) == Put(p, bs[phase.k], Contents(p, c.start + 1 + phase.k))
  {
  }

  lemma HeadAgrees(c: Config, s: State, m: Mem, bs: seq<nat>, s': State)
    requires Agree(s, m) && Held(s, COMMITTER, c.start)
    requires s'.disk == WriteHead(c, s, bs).disk && s'.cache == WriteHead(c, s, bs).cache
    ensures Agree(s', PutHead(c, m, bs))
  {
    HeldView(s, m, COMMITTER, c.start);
    var buf := s.cache[c.start];
    PutAgrees(s, m, c.start, buf.(data := PutHeader(buf.data, bs)), s');
  }

  /** The two writes of the header. */
  lemma HeadTracks(c: Config, s: State, m: Mem, bs: seq<nat>)
    requires Tracks(c, s, m, bs) && CommitEnabled(c, s) && bs != []
    requires (s.phase.WriteLog? || s.phase.Install?) && s.phase.k == |bs|
    ensures Tracks(c, CommitNext(c, s), m, bs)
  {
    HeadAgrees(c, s, Computed(c, m, bs, s.phase), if s.phase.Install? then [] else bs, CommitNext(c, s));
  }

  lemma RecHeadTracks(c: Config, s: State, m: Mem, bs: seq<nat>)
    requires Tracks(c, s, m, bs) && CommitEnabled(c, s) && s.phase == RecInstall(|bs|)
    requires bs == HeaderBlocks(Contents(m, c.start))
    ensures Tracks(c, CommitNext(c, s), m, bs)
  {
    HeadAgrees(c, s, Computed(c, m, bs, s.phase), [], CommitNext(c, s));
  }

  lemma StartTracks(c: Config, s: State, m: Mem, bs: seq<nat>)
    requires Tracks(c, s, m, bs) && CommitEnabled(c, s) && (s.phase.CommitStart? || s.phase.ReadHead?)
    requires s.phase.ReadHead? ==> bs == HeaderBlocks(Contents(m, c.start))
    ensures Tracks(c, CommitNext(c, s), m, bs)
  {
    if s.phase.ReadHead? { HeldView(s, m, COMMITTER, c.start); }
  }

  /** A commit of bs, or a recovery of the list the header names, is under way. */
  ghost predicate Underway(c: Config, s: State, m: Mem, bs: seq<nat>) {
    if Booting(s) then bs == HeaderBlocks(Contents(m, c.start))
    else s.phase.CommitStart? || ((s.phase.WriteLog? || s.phase.Install?) && bs != [])
  }

  lemma CommitTracks(c: Config, s: State, m: Mem, bs: seq<nat>)
    requires Tracks(c, s, m, bs) && CommitEnabled(c, s) && Underway(c, s, m, bs)
    requires CopiedTo(s) <= |s.lh| && InstalledTo(s) <= |s.lh|
    ensures Tracks(c, CommitNext(c, s), m, bs)
    ensures var s' := CommitNext(c, s); Underway(c, s', m, bs) || s'.phase.Finish? || s'.phase.Running?
  {
    if s.phase.CommitStart? || s.phase.ReadHead? {
      StartTracks(c, s, m, bs);
    } else if s.phase.k < |bs| {
      if s.phase.WriteLog? { CopyTracks(c, s, m, bs); } else { InstallTracks(c, s, m, bs); }
    } else if s.phase.RecInstall? {
      RecHeadTracks(c, s, m, bs);
    } else {
      HeadTracks(c, s, m, bs);
    }
  }

  lemma StepTracks(c: Config, s: State, a: Action, m: Mem, bs: seq<nat>)
    requires Inv(c, s) && Tracks(c, s, m, bs) && Underway(c, s, m, bs) && Enabled(c, s, a) && !a.Crash?
    ensures Tracks(c, Next(c, s, a), m, bs)
    ensures var s' := Next(c, s, a); Underway(c, s', m, bs) || s'.phase.Finish? || s'.phase.Running?
  {
    if a.CommitStep? {
      CommitTracks(c, s, m, bs);
    } else {
      OtherStep(c, s, a);
    }
  }

  /** States i to j of a run lie in one commit or one recovery, up to its end. */
  ghost predicate OneStretch(ss: seq<State>, acts: seq<Action>, i: nat, j: nat) {
    i <= j <= |acts| && |ss| == |acts| + 1 && (ss[i].phase.CommitStart? || ss[i].phase.ReadHead?) &&
    forall k :: i <= k < j ==> !acts[k].Crash? && !ss[k].phase.Finish? && !ss[k].phase.Running?
  }

  function Listed(c: Config, s: State): seq<nat> {
    if s.phase.ReadHead? then HeaderBlocks(Contents(Seen(s), c.start)) else s.lh
  }

  lemma SeenAgrees(s: State)
    ensures Agree(s, Seen(s))
  {
  }

  lemma BootList(c: Config, s: State)
    requires HeaderOk(c, s) && s.phase.ReadHead?
    ensures s.lh == []
  {
  }

  lemma {:induction false} StretchTracks(c: Config, disk: seq<Block>, ss: seq<State>, acts: seq<Action>, i: nat, j: nat)
    requires IsRun(c, disk, ss, acts) && OneStretch(ss, acts, i, j)
    ensures var m, bs := Seen(ss[i]), Listed(c, ss[i]);
      Tracks(c, ss[j], m, bs) && (Underway(c, ss[j], m, bs) || ss[j].phase.Finish? || ss[j].phase.Running?)
  {
    var m, bs := Seen(ss[i]), Listed(c, ss[i]);
    if j == i {
      SeenAgrees(ss[i]);
      InvAt(c, disk, ss, acts, i);
      if ss[i].phase.ReadHead? { BootList(c, ss[i]); }
    } else {
      StretchTracks(c, disk, ss, acts, i, j - 1);
      StretchStep(c, disk, ss, acts, j - 1, m, bs);
    }
  }

  lemma StretchStep(c: Config, disk: seq<Block>, ss: seq<State>, acts: seq<Action>, k: nat, m: Mem, bs: seq<nat>)
    requires IsRun(c, disk, ss, acts) && k < |acts| && !acts[k].Crash?
    requires Tracks(c, ss[k], m, bs) && Underway(c, ss[k], m, bs)
    ensures Tracks(c, ss[k + 1], m, bs)
    ensures Underway(c, ss[k + 1], m, bs) || ss[k + 1].phase.Finish? || ss[k + 1].phase.Running?
  {
    InvAt(c, disk, ss, acts, k);
    assert StepAt(c, ss, acts, k);
    StepTracks(c, ss[k], acts[k], m, bs);
  }

  /** When a commit that started in state i is done, disk and buffers are what commit()
      computes from the memory of state i, whatever other threads did meanwhile. */
  lemma CommitIsCode(c: Config, disk: seq<Block>, ss: seq<State>, acts: seq<Action>, i: nat, j: nat)
    requires IsRun(c, disk, ss, acts) && OneStretch(ss, acts, i, j)
    requires ss[i].phase.CommitStart? && ss[j].phase.Finish?
    ensures Agree(ss[j], CommitMem(c, Seen(ss[i]), ss[i].lh))
  {
    StretchTracks(c, disk, ss, acts, i, j);
  }

  /** Likewise for a recovery that no crash interrupts. */
  lemma RecoveryIsCode(c: Config, disk: seq<Block>, ss: seq<State>, acts: seq<Action>, i: nat, j: nat)
    requires IsRun(c, disk, ss, acts) && OneStretch(ss, acts, i, j)
    requires ss[i].phase.ReadHead? && ss[j].phase.Running?
    ensures Agree(ss[j], RecoverMem(c, Seen(ss[i])))
  {
    StretchTracks(c, disk, ss, acts, i, j);
  }
}
