/** What the log promises over whole runs: from power-on, through any interleaving of
    operations, readers, evictions, commits, crashes and recoveries. */
module LogTheorems {
  import opened Common
  import opened LogMachine
  import opened LogRefinement

  /** The machine just after power-on: whatever is on the disk, and nothing in memory. */
  function PowerOn(disk: seq<Block>): State {
    State(disk, map[], [], map[], 0, false, ReadHead, None)
  }

  ghost predicate GoodDisk(c: Config, disk: seq<Block>) {
    ValidConfig(c) && |disk| == c.nblocks && ListOk(c, Header(c, disk))
  }

  ghost function InitImage(c: Config, disk: seq<Block>): Image
  {
    map b: nat | b < c.nblocks && Home(c, b) :: Recovered(c, disk, b)
  }

  ghost predicate StepAt(c: Config, ss: seq<State>, acts: seq<Action>, i: nat)
    requires |ss| == |acts| + 1 && i < |acts|
  {
    Enabled(c, ss[i], acts[i]) && ss[i + 1] == Next(c, ss[i], acts[i])
  }

  ghost predicate IsRun(c: Config, disk: seq<Block>, ss: seq<State>, acts: seq<Action>) {
    GoodDisk(c, disk) && |ss| == |acts| + 1 && ss[0] == PowerOn(disk) &&
    forall i: nat :: i < |acts| ==> StepAt(c, ss, acts, i)
  }

  /** The specification state that matches state number i of a run. */
  function SpecAt(ss: seq<State>, acts: seq<Action>, i: nat): Spec
    requires i <= |acts| && |ss| == |acts| + 1
  {
    if i == 0 then Spec([], []) else SpecNext(ss[i - 1], acts[i - 1], SpecAt(ss, acts, i - 1))
  }

  lemma BootRefines(c: Config, disk: seq<Block>)
    requires GoodDisk(c, disk)
    ensures Rel(c, InitImage(c, disk), PowerOn(disk), Spec([], []))
  {
  }

  /** The refinement theorem: what recovery would produce is exactly the replay of a
      history of whole operations, and what readers see is that history continued. */
  lemma {:induction false} RunRefines(c: Config, disk: seq<Block>, ss: seq<State>, acts: seq<Action>, i: nat)
    requires IsRun(c, disk, ss, acts) && i <= |acts|
    ensures Rel(c, InitImage(c, disk), ss[i], SpecAt(ss, acts, i))
  {
    if i == 0 {
      BootRefines(c, disk);
    } else {
      RunRefines(c, disk, ss, acts, i - 1);
      assert StepAt(c, ss, acts, i - 1);
      StepRefines(c, InitImage(c, disk), ss[i - 1], SpecAt(ss, acts, i - 1), acts[i - 1]);
    }
  }

  /** A process that has bread a home block holds its last written contents, whatever was
      evicted, committed or installed since. */
  lemma ReadsLastWrite(c: Config, disk: seq<Block>, ss: seq<State>, acts: seq<Action>, i: nat, t: Tid, b: nat)
    requires IsRun(c, disk, ss, acts) && i <= |acts|
    requires Held(ss[i], t, b) && Home(c, b) && !Booting(ss[i])
    ensures var img := Replay(InitImage(c, disk), SpecAt(ss, acts, i).volatile);
      b in img && ss[i].cache[b].data == img[b]
  {
    RunRefines(c, disk, ss, acts, i);
  }

  lemma PinHolds(c: Config, s: State, b: nat)
    requires CacheOk(c, s) && PinsOk(s) && b in Pinned(s)
    ensures b in s.cache && s.cache[b].valid && s.cache[b].refcnt >= 1
    ensures !Enabled(c, s, Evict(b))
  {
  }

  /** A block that log_write pinned is still cached, and not evictable, until
      install_trans unpins it. */
  lemma PinnedStaysCached(c: Config, disk: seq<Block>, ss: seq<State>, acts: seq<Action>, i: nat, b: nat)
    requires IsRun(c, disk, ss, acts) && i <= |acts| && b in Pinned(ss[i])
    ensures b in ss[i].cache && ss[i].cache[b].valid && ss[i].cache[b].refcnt >= 1
    ensures !Enabled(c, ss[i], Evict(b))
  {
    RunRefines(c, disk, ss, acts, i);
    PinHolds(c, ss[i], b);
  }

  lemma CommittingQuiet(c: Config, s: State)
    requires OpsOk(c, s) && s.committing
    ensures s.outstanding == 0 && s.ops == map[]
    ensures forall t, b :: !Enabled(c, s, LogWrite(t, b))
    ensures forall t :: !Enabled(c, s, End(t)) && !Enabled(c, s, Begin(t))
  {
  }

  /** While a commit is under way no operation is active, nothing is logged, no operation
      is admitted, and end_op's "log.committing" panic cannot be reached. */
  lemma CommitExcludesOps(c: Config, disk: seq<Block>, ss: seq<State>, acts: seq<Action>, i: nat)
    requires IsRun(c, disk, ss, acts) && i <= |acts| && ss[i].committing
    ensures ss[i].outstanding == 0
    ensures forall t, b :: !Enabled(c, ss[i], LogWrite(t, b))
    ensures forall t :: !Enabled(c, ss[i], End(t)) && !Enabled(c, ss[i], Begin(t))
  {
    RunRefines(c, disk, ss, acts, i);
    CommittingQuiet(c, ss[i]);
  }

  /** After a crash and until the next operation begins, only recovery happens. */
  lemma {:induction false} AfterCrash(c: Config, disk: seq<Block>, ss: seq<State>, acts: seq<Action>, i: nat, j: nat)
    requires IsRun(c, disk, ss, acts) && i < j <= |acts| && acts[i].Crash?
    requires forall k :: i < k < j ==> !acts[k].Begin?
    ensures var d := SpecAt(ss, acts, i).durable; SpecAt(ss, acts, j) == Spec(d, d)
    ensures ss[j].ops == map[] && (Booting(ss[j]) || (ss[j].phase.Running? && ss[j].lh == []))
  {
    if j == i + 1 {
      assert StepAt(c, ss, acts, i);
    } else {
      AfterCrash(c, disk, ss, acts, i, j - 1);
      assert StepAt(c, ss, acts, j - 1);
      QuietStep(c, ss[j - 1], acts[j - 1], SpecAt(ss, acts, j - 1));
    }
  }

  lemma QuietStep(c: Config, s: State, a: Action, sp: Spec)
    requires Enabled(c, s, a) && !a.Begin? && sp.durable == sp.volatile
    requires s.ops == map[] && (Booting(s) || (s.phase.Running? && s.lh == []))
    ensures SpecNext(s, a, sp) == sp
    ensures var s' := Next(c, s, a);
      s'.ops == map[] && (Booting(s') || (s'.phase.Running? && s'.lh == []))
  {
  }

  /** Recovery is complete and exact: however often it is itself interrupted by crashes,
      when it finishes every home block is what the disk at the first crash promised, and
      that is a history of whole operations. */
  lemma CrashRecovery(c: Config, disk: seq<Block>, ss: seq<State>, acts: seq<Action>, i: nat, j: nat, b: nat)
    requires IsRun(c, disk, ss, acts) && i < j <= |acts| && acts[i].Crash? && Home(c, b)
    requires forall k :: i < k < j ==> !acts[k].Begin?
    requires ss[j].phase.Running?
    ensures Whole(SpecAt(ss, acts, i).durable)
    ensures At(ss[j].disk, b) == Recovered(c, ss[i].disk, b)
    ensures var img := Replay(InitImage(c, disk), SpecAt(ss, acts, i).durable);
      b in img && At(ss[j].disk, b) == img[b]
  {
    RunRefines(c, disk, ss, acts, i);
    RunRefines(c, disk, ss, acts, j);
    AfterCrash(c, disk, ss, acts, i, j);
  }

  lemma InvAt(c: Config, disk: seq<Block>, ss: seq<State>, acts: seq<Action>, i: nat)
    requires IsRun(c, disk, ss, acts) && i <= |acts|
    ensures Inv(c, ss[i])
  {
    RunRefines(c, disk, ss, acts, i);
  }

  /** States p to i lie in one commit of a non-empty transaction, with no crash yet. */
  ghost predicate OneCommit(c: Config, disk: seq<Block>, ss: seq<State>, acts: seq<Action>, p: nat, i: nat) {
    IsRun(c, disk, ss, acts) && p <= i <= |acts| &&
    ss[p].phase.CommitStart? && ss[p].lh != [] &&
    (forall k :: p <= k <= i ==> ss[k].committing) &&
    (forall k :: p <= k < i ==> !acts[k].Crash?)
  }

  /** write_head has put a non-empty header on the disk between states p and i. */
  ghost predicate HeaderReached(c: Config, ss: seq<State>, p: nat, i: nat)
    requires p <= i < |ss|
  {
    exists k :: p <= k <= i && Header(c, ss[k].disk) != []
  }

  predicate BeforeHeader(s: State) { s.phase.CommitStart? || s.phase.WriteLog? }

  /** One step inside a commit. */
  lemma CommitWindowStep(c: Config, s: State, a: Action, b: nat)
    requires Inv(c, s) && Enabled(c, s, a) && Inv(c, Next(c, s, a)) && !a.Crash? && Home(c, b)
    requires s.committing && Next(c, s, a).committing
    requires BeforeHeader(s) ==> s.lh != []
    ensures var s' := Next(c, s, a);
      View(s', b) == View(s, b) &&
      (BeforeHeader(s') ==> BeforeHeader(s) && s'.lh == s.lh && Recovered(c, s'.disk, b) == Recovered(c, s.disk, b)) &&
      (!BeforeHeader(s') && BeforeHeader(s) ==> s'.lh == s.lh && s'.phase.Install?) &&
      (!BeforeHeader(s') ==> Recovered(c, s'.disk, b) == View(s', b))
  {
    CommittingQuiet(c, s);
    StepView(c, s, a, b);
    StepRecovered(c, s, a, b);
    StepPhase(c, s, a);
    var s' := Next(c, s, a);
    CommittingQuiet(c, s');
    if !BeforeHeader(s') { ViewIsRecovered(c, s', b); }
  }

  lemma StepPhase(c: Config, s: State, a: Action)
    requires OpsOk(c, s) && Enabled(c, s, a) && !a.Crash?
    requires s.committing && Next(c, s, a).committing && s.ops == map[]
    ensures var s' := Next(c, s, a);
      (BeforeHeader(s') ==> BeforeHeader(s) && s'.lh == s.lh) &&
      (BeforeHeader(s') && a.CommitStep? ==> !CommitPoint(s)) &&
      (!BeforeHeader(s') && BeforeHeader(s) && s.lh != [] ==> s'.lh == s.lh && s'.phase.Install?)
  {
  }

  /** Where a commit stands at state s, given that it started at s0. */
  ghost predicate Stands(c: Config, s0: State, s: State, b: nat)
  {
    View(s, b) == View(s0, b) &&
    if BeforeHeader(s) then s.lh == s0.lh && Recovered(c, s.disk, b) == At(s0.disk, b)
    else Recovered(c, s.disk, b) == View(s0, b)
  }

  lemma StandsAtStart(c: Config, s: State, b: nat)
    requires Inv(c, s) && Home(c, b) && s.phase.CommitStart?
    ensures Stands(c, s, s, b)
  {
    assert HeaderOk(c, s);
  }

  lemma StandsStep(c: Config, s0: State, s: State, a: Action, s': State, b: nat)
    requires Inv(c, s) && Home(c, b) && Stands(c, s0, s, b) && s0.lh != []
    requires Enabled(c, s, a) && !a.Crash? && s' == Next(c, s, a)
    requires s.committing && s'.committing
    ensures Stands(c, s0, s', b)
  {
    StepKeepsInv(c, s, a);
    CommitWindowStep(c, s, a, b);
  }

  /** The last step of a window. */
  lemma LastStep(c: Config, disk: seq<Block>, ss: seq<State>, acts: seq<Action>, p: nat, i: nat)
    requires OneCommit(c, disk, ss, acts, p, i) && p < i
    ensures OneCommit(c, disk, ss, acts, p, i - 1)
    ensures ss[i - 1].committing && ss[i].committing && !acts[i - 1].Crash?
    ensures Enabled(c, ss[i - 1], acts[i - 1]) && ss[i] == Next(c, ss[i - 1], acts[i - 1])
  {
    assert StepAt(c, ss, acts, i - 1);
  }

  lemma StandsLast(c: Config, disk: seq<Block>, ss: seq<State>, acts: seq<Action>, p: nat, i: nat, b: nat)
    requires OneCommit(c, disk, ss, acts, p, i) && p < i && Home(c, b) && Stands(c, ss[p], ss[i - 1], b)
    ensures Stands(c, ss[p], ss[i], b)
  {
    LastStep(c, disk, ss, acts, p, i);
    InvAt(c, disk, ss, acts, i - 1);
    StandsStep(c, ss[p], ss[i - 1], acts[i - 1], ss[i], b);
  }

  lemma {:induction false} CommitWindow(c: Config, disk: seq<Block>, ss: seq<State>, acts: seq<Action>, p: nat, i: nat,
                                       b: nat)
    requires OneCommit(c, disk, ss, acts, p, i) && Home(c, b)
    ensures Stands(c, ss[p], ss[i], b)
  {
    if i == p {
      InvAt(c, disk, ss, acts, p);
      StandsAtStart(c, ss[p], b);
    } else {
      CommitWindow(c, disk, ss, acts, p, i - 1, b);
      StandsLast(c, disk, ss, acts, p, i, b);
    }
  }

  lemma HeaderAfter(c: Config, s: State, a: Action, s': State)
    requires Inv(c, s) && s.committing && Enabled(c, s, a) && !a.Crash? && s' == Next(c, s, a) && s'.committing
    requires BeforeHeader(s) ==> s.lh != []
    ensures BeforeHeader(s') ==> BeforeHeader(s) && s'.lh == s.lh && Header(c, s'.disk) == []
    ensures BeforeHeader(s) && !BeforeHeader(s') ==> Header(c, s'.disk) != []
  {
    CommittingQuiet(c, s);
    StepPhase(c, s, a);
    StepKeepsInv(c, s, a);
  }

  /** Where the header stands at state s, given that the commit started at s0. */
  ghost predicate HeaderStands(c: Config, s0: State, s: State) {
    BeforeHeader(s) ==> s.lh == s0.lh && Header(c, s.disk) == []
  }

  lemma HeaderAtStart(c: Config, s: State)
    requires Inv(c, s) && s.phase.CommitStart?
    ensures HeaderStands(c, s, s)
  {
    assert HeaderOk(c, s);
  }

  lemma HeaderLast(c: Config, disk: seq<Block>, ss: seq<State>, acts: seq<Action>, p: nat, i: nat)
    requires OneCommit(c, disk, ss, acts, p, i) && p < i && HeaderStands(c, ss[p], ss[i - 1])
    ensures HeaderStands(c, ss[p], ss[i]) && (BeforeHeader(ss[i]) ==> BeforeHeader(ss[i - 1]))
    ensures BeforeHeader(ss[i - 1]) && !BeforeHeader(ss[i]) ==> Header(c, ss[i].disk) != []
  {
    LastStep(c, disk, ss, acts, p, i);
    InvAt(c, disk, ss, acts, i - 1);
    HeaderAfter(c, ss[i - 1], acts[i - 1], ss[i]);
  }

  /** The header has reached the disk exactly when write_log is over. */
  lemma {:induction false} HeaderWindow(c: Config, disk: seq<Block>, ss: seq<State>, acts: seq<Action>, p: nat, i: nat)
    requires OneCommit(c, disk, ss, acts, p, i)
    ensures HeaderStands(c, ss[p], ss[i])
    ensures HeaderReached(c, ss, p, i) <==> !BeforeHeader(ss[i])
  {
    if i == p {
      InvAt(c, disk, ss, acts, p);
      HeaderAtStart(c, ss[p]);
    } else {
      HeaderWindow(c, disk, ss, acts, p, i - 1);
      HeaderLast(c, disk, ss, acts, p, i);
      assert HeaderReached(c, ss, p, i) <==> HeaderReached(c, ss, p, i - 1) || Header(c, ss[i].disk) != [];
    }
  }

  /** A transaction is atomic: if the machine crashes at any point of its commit, a
      completed recovery leaves every home block with its old contents or every home block
      with its new contents, and the new ones exactly when the header reached the disk. */
  lemma CommitIsAtomic(c: Config, disk: seq<Block>, ss: seq<State>, acts: seq<Action>, p: nat, i: nat, j: nat)
    requires OneCommit(c, disk, ss, acts, p, i)
    requires i < j <= |acts| && acts[i].Crash? && ss[j].phase.Running?
    requires forall k :: i < k < j ==> !acts[k].Begin?
    ensures forall b: nat :: Home(c, b) ==>
      At(ss[j].disk, b) == if HeaderReached(c, ss, p, i) then View(ss[p], b) else At(ss[p].disk, b)
  {
    forall b: nat | Home(c, b)
      ensures At(ss[j].disk, b) == if HeaderReached(c, ss, p, i) then View(ss[p], b) else At(ss[p].disk, b)
    {
      CommitWindow(c, disk, ss, acts, p, i, b);
      HeaderWindow(c, disk, ss, acts, p, i);
      CrashRecovery(c, disk, ss, acts, i, j, b);
    }
  }

  // ---------- end_op has made everything durable ----------

  /** Past the commit point, and whenever nothing is going on, all that was done is durable. */
  ghost predicate Settled(s: State, sp: Spec) {
    (s.phase.Install? || s.phase.Finish? || (s.phase.Running? && s.ops == map[]) ==> sp.durable == sp.volatile) &&
    (s.phase.Running? && s.ops == map[] ==> s.lh == [])
  }

  lemma StepSettles(c: Config, s: State, a: Action, sp: Spec)
    requires Inv(c, s) && Enabled(c, s, a) && Settled(s, sp) && (Booting(s) ==> sp.volatile == sp.durable)
    ensures Settled(Next(c, s, a), SpecNext(s, a, sp))
  {
    match a
    case End(t) => EndSettles(c, s, t, sp);
    case CommitStep => CommitSettles(c, s, sp);
    case _ => OtherSettles(c, s, a, sp);
  }

  lemma EndSettles(c: Config, s: State, t: Tid, sp: Spec)
    requires OpsOk(c, s) && Enabled(c, s, End(t))
    ensures Settled(Next(c, s, End(t)), SpecNext(s, End(t), sp))
  {
    assert (s.ops - {t}).Keys == s.ops.Keys - {t};
    assert |s.ops - {t}| == |s.ops| - 1;
  }

  lemma CommitSettles(c: Config, s: State, sp: Spec)
    requires OpsOk(c, s) && HeaderOk(c, s) && Enabled(c, s, CommitStep) && Settled(s, sp)
    requires Booting(s) ==> sp.volatile == sp.durable
    ensures Settled(Next(c, s, CommitStep), SpecNext(s, CommitStep, sp))
  {
  }

  lemma OtherSettles(c: Config, s: State, a: Action, sp: Spec)
    requires OpsOk(c, s) && Enabled(c, s, a) && Settled(s, sp) && !a.End? && !a.CommitStep?
    ensures Settled(Next(c, s, a), SpecNext(s, a, sp))
  {
    var s' := Next(c, s, a);
    if a.Begin? || a.Modify? || a.LogWrite? { assert a.t in s'.ops; }
  }

  lemma {:induction false} RunSettles(c: Config, disk: seq<Block>, ss: seq<State>, acts: seq<Action>, i: nat)
    requires IsRun(c, disk, ss, acts) && i <= |acts|
    ensures Settled(ss[i], SpecAt(ss, acts, i))
  {
    if i > 0 {
      RunSettles(c, disk, ss, acts, i - 1);
      RunRefines(c, disk, ss, acts, i - 1);
      assert StepAt(c, ss, acts, i - 1);
      StepSettles(c, ss[i - 1], acts[i - 1], SpecAt(ss, acts, i - 1));
    }
  }

  /** When no operation is active and no commit is under way, a crash would lose nothing: the disk
      promises for every home block what readers see. */
  lemma QuietIsDurable(c: Config, disk: seq<Block>, ss: seq<State>, acts: seq<Action>, i: nat)
    requires IsRun(c, disk, ss, acts) && i <= |acts| && ss[i].phase.Running? && ss[i].ops == map[]
    ensures SpecAt(ss, acts, i).durable == SpecAt(ss, acts, i).volatile
    ensures forall b: nat :: Home(c, b) ==> Recovered(c, ss[i].disk, b) == View(ss[i], b)
  {
    RunSettles(c, disk, ss, acts, i);
    RunRefines(c, disk, ss, acts, i);
  }
}
