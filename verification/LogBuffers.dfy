/** Buffers run out: the NBUF buffers of bio.c against the blocks that log_write pins.

    LOGSIZE and NBUF are the same number, so a log filled to LOGSIZE pins every buffer and
    leaves none for the commit's own reads. */
module LogBuffers {
  import opened Common
  import opened LogMachine
  import opened LogRefinement
  import opened LogTheorems
  import opened LogBudget

  /** The blocks some thread uses, from its bget to its brelse. */
  function InUse(s: State): set<nat> { set b | b in s.cache && s.cache[b].users != {} }

  function Elements(bs: seq<nat>): set<nat> { set b | b in bs }

  function PinSet(s: State): set<nat> { Elements(Pinned(s)) }

  /** A buffer is referenced if and only if somebody uses it or it is pinned. */
  lemma ReferencedIff(c: Config, s: State, b: nat)
    requires CacheOk(c, s) && b in s.cache
    ensures s.cache[b].refcnt > 0 <==> b in PinSet(s) + InUse(s)
  {
  }

  lemma ReferencedCached(c: Config, s: State)
    requires CacheOk(c, s) && PinsOk(s)
    ensures PinSet(s) + InUse(s) <= s.cache.Keys
  {
  }

  lemma CacheFullIff(c: Config, s: State)
    requires Inv(c, s) && |s.cache| <= NBUF
    ensures CacheFull(s) <==> |PinSet(s) + InUse(s)| == NBUF
  {
    var r := PinSet(s) + InUse(s);
    assert |s.cache| == |s.cache.Keys|;
    ReferencedCached(c, s);
    SubsetSize(r, s.cache.Keys);
    if CacheFull(s) {
      forall x | x in s.cache.Keys ensures x in r { ReferencedIff(c, s, x); }
      assert r == s.cache.Keys;
    }
    if |r| == NBUF {
      forall x | x in s.cache ensures s.cache[x].refcnt > 0 {
        assert x in s.cache.Keys;
        ReferencedIff(c, s, x);
      }
    }
  }

  // ---------- at most NBUF blocks are cached ----------

  lemma UpdateSize(m: map<nat, Buf>, b: nat, buf: Buf)
    ensures |m[b := buf]| == if b in m then |m| else |m| + 1
  {
    var m' := m[b := buf];
    assert |m| == |m.Keys| && |m'| == |m'.Keys|;
    assert m'.Keys == m.Keys + {b};
  }

  lemma RemoveSize(m: map<nat, Buf>, b: nat)
    ensures |m - {b}| <= |m|
  {
    assert |m| == |m.Keys| && |m - {b}| == |(m - {b}).Keys|;
    SubsetSize((m - {b}).Keys, m.Keys);
  }

  lemma CommitSameKeys(c: Config, s: State)
    ensures CommitNext(c, s).cache.Keys == s.cache.Keys
  {
  }

  lemma StepFits(c: Config, s: State, a: Action)
    requires Enabled(c, s, a) && |s.cache| <= NBUF
    ensures |Next(c, s, a).cache| <= NBUF
  {
    var s' := Next(c, s, a);
    if a.CommitStep? {
      CommitSameKeys(c, s);
      assert |s'.cache| == |s'.cache.Keys| && |s.cache| == |s.cache.Keys|;
    } else if a.Evict? {
      RemoveSize(s.cache, a.b);
    } else if a.Bget? || a.Acquire? || a.Fill? || a.Modify? || a.LogWrite? || a.Brelse? {
      if a.b in s'.cache { UpdateSize(s.cache, a.b, s'.cache[a.b]); }
    }
  }

  lemma {:induction false} CacheFits(c: Config, disk: seq<Block>, ss: seq<State>, acts: seq<Action>, i: nat)
    requires IsRun(c, disk, ss, acts) && i <= |acts|
    ensures |ss[i].cache| <= NBUF
  {
    if i > 0 {
      CacheFits(c, disk, ss, acts, i - 1);
      assert StepAt(c, ss, acts, i - 1);
      StepFits(c, ss[i - 1], acts[i - 1]);
    }
  }

  /** In every state of every run, bget of a block that is not cached panics exactly when
      pinned blocks and blocks in use are NBUF many. */
  lemma RunsOutIff(c: Config, disk: seq<Block>, ss: seq<State>, acts: seq<Action>, i: nat)
    requires IsRun(c, disk, ss, acts) && i < |acts| && acts[i].Bget? && acts[i].b !in ss[i].cache
    ensures ss[i + 1].panic == Some(NoBuffers) <==> |PinSet(ss[i]) + InUse(ss[i])| == NBUF
  {
    InvAt(c, disk, ss, acts, i);
    CacheFits(c, disk, ss, acts, i);
    assert StepAt(c, ss, acts, i);
    CacheFullIff(c, ss[i]);
  }

  // ---------- a full log cannot be committed ----------

  lemma {:induction false} ListSize(bs: seq<nat>)
    requires Distinct(bs)
    ensures |Elements(bs)| == |bs|
  {
    if bs == [] {
      assert Elements(bs) == {};
    } else {
      var n := |bs| - 1;
      ListSize(bs[..n]);
      assert Elements(bs) == Elements(bs[..n]) + {bs[n]};
    }
  }

  lemma PinCount(c: Config, s: State)
    requires Shape(c, s)
    ensures |PinSet(s)| == |Pinned(s)| <= |s.lh|
  {
    ListSize(Pinned(s));
  }

  /** With NBUF blocks pinned, the cache holds nothing else. */
  lemma AllPinned(c: Config, s: State)
    requires Inv(c, s) && |s.cache| <= NBUF && |Pinned(s)| == NBUF
    ensures s.cache.Keys == PinSet(s) && CacheFull(s)
  {
    PinCount(c, s);
    assert |s.cache| == |s.cache.Keys|;
    ReferencedCached(c, s);
    SubsetSize(PinSet(s), s.cache.Keys);
    forall x | x in s.cache ensures s.cache[x].refcnt > 0 {
      assert x in s.cache.Keys;
      ReferencedIff(c, s, x);
    }
  }

  /** A commit of NBUF blocks cannot copy its first block, whoever else runs: write_log's
      bread of the first log block panics. */
  lemma FullLogStuck(c: Config, s: State, t: Tid, stale: Block)
    requires Inv(c, s) && |s.cache| <= NBUF && s.phase == WriteLog(0) && |s.lh| == NBUF
    ensures !Enabled(c, s, CommitStep)
    ensures BgetPanics(s, Bget(t, c.start + 1, stale))
  {
    AllPinned(c, s);
    LogAreaUnpinned(c, s, c.start + 1);
    assert c.start + 1 !in s.cache.Keys;
  }

  /** Over whole runs: once a commit of NBUF blocks has started, it makes no further step. */
  lemma FullLogNeverCommits(c: Config, disk: seq<Block>, ss: seq<State>, acts: seq<Action>, i: nat)
    requires IsRun(c, disk, ss, acts) && i < |acts| && ss[i].phase == WriteLog(0) && |ss[i].lh| == NBUF
    ensures !acts[i].CommitStep?
    ensures !acts[i].Crash? ==>
      ss[i + 1].phase == WriteLog(0) && ss[i + 1].lh == ss[i].lh && ss[i + 1].disk == ss[i].disk
    ensures acts[i].Bget? && acts[i].b == c.start + 1 ==> ss[i + 1].panic == Some(NoBuffers)
  {
    InvAt(c, disk, ss, acts, i);
    CacheFits(c, disk, ss, acts, i);
    assert StepAt(c, ss, acts, i);
    FullLogStuck(c, ss[i], 0, Block([]));
    assert ss[i].ops == map[];
  }

  // ---------- the run that gets there ----------

  /** Threads 1, 2 and 3 end their operations; the third end starts the commit. */
  lemma EndAll(c: Config, disk: seq<Block>, ss: seq<State>, acts: seq<Action>, hb: seq<nat>, n: nat)
    returns (ss': seq<State>, acts': seq<Action>)
    requires BudgetedRun(c, disk, ss, acts) && Filled(ss[|acts|], hb, n) && 0 < n
    ensures BudgetedRun(c, disk, ss', acts')
    ensures var s, s' := ss[|acts|], ss'[|acts'|];
      s' == s.(ops := s'.ops, outstanding := 0, committing := true, phase := WriteLog(0))
  {
    var s := ss[|acts|];
    assert FilledOp(s.ops[1], hb, 1, n) && FilledOp(s.ops[2], hb, 2, n) && FilledOp(s.ops[3], hb, 3, n);
    ss', acts' := Do(c, disk, ss, acts, End(1));
    ss', acts' := Do(c, disk, ss', acts', End(2));
    ss', acts' := Do(c, disk, ss', acts', End(3));
    ss', acts' := Do(c, disk, ss', acts', CommitStep);
  }

  /** With a log area of more than LOGSIZE blocks, three operations within their budgets
      pin every buffer, and the commit panics in bget. */
  lemma LargeLogRunsOut(c: Config, disk: seq<Block>, hb: seq<nat>)
    requires GoodDisk(c, disk) && Header(c, disk) == [] && Targets(c, hb) && |hb| >= LOGSIZE
    requires c.size > LOGSIZE
    ensures CanPanic(c, disk, NoBuffers)
  {
    var ss, acts := FillLog(c, disk, hb, LOGSIZE);
    ss, acts := EndAll(c, disk, ss, acts, hb, LOGSIZE);
    InvAt(c, disk, ss, acts, |acts|);
    CacheFits(c, disk, ss, acts, |acts|);
    FullLogStuck(c, ss[|acts|], COMMITTER, Block([]));
    ss, acts := Do(c, disk, ss, acts, Bget(COMMITTER, c.start + 1, Block([])));
  }

  /** So no log size is safe: a small log panics in log_write, a large one in bget. */
  lemma EverySizeCanPanic(c: Config, disk: seq<Block>, hb: seq<nat>)
    requires GoodDisk(c, disk) && Header(c, disk) == [] && Targets(c, hb) && |hb| >= LOGSIZE
    ensures if c.size > LOGSIZE then CanPanic(c, disk, NoBuffers) && !CanPanic(c, disk, TooBigTransaction)
      else CanPanic(c, disk, TooBigTransaction)
  {
    if c.size > LOGSIZE {
      LargeLogRunsOut(c, disk, hb);
      LogPanicFreeIff(c, disk, hb);
    } else {
      SmallLogPanics(c, disk, hb);
    }
  }
}
