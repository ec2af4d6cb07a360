/** A commit that shares the buffer cache with nobody: it goes through if and only if it has
    fewer than NBUF blocks to write. */
module LogCommit {
  import opened Common
  import opened LogMachine
  import opened LogRefinement
  import opened LogTheorems
  import opened LogBuffers

  /** What step k of write_log or install_trans reads; after the last block, the header. */
  function Needs(c: Config, lh: seq<nat>, k: nat): set<nat> {
    if k < |lh| then {c.start + 1 + k, lh[k]} else {c.start}
  }

  function CommitNeeds(c: Config, s: State): set<nat> {
    if s.phase.WriteLog? || s.phase.Install? then Needs(c, s.lh, s.phase.k) else {}
  }

  /** A step of commit(): it reads what it needs next once it has released what it read before. */
  predicate CommitOnly(c: Config, s: State, a: Action) {
    match a
    case Bget(t, b, _) => t == COMMITTER && b in CommitNeeds(c, s) && InUse(s) <= CommitNeeds(c, s)
    case Acquire(t, _) => t == COMMITTER
    case Fill(t, _) => t == COMMITTER
    case Brelse(t, _) => t == COMMITTER
    case Evict(_) => true
    case CommitStep => !Booting(s)
    case _ => false
  }

  ghost predicate CommitStepAt(c: Config, ss: seq<State>, acts: seq<Action>, i: nat)
    requires |ss| == |acts| + 1 && i < |acts|
  {
    StepAt(c, ss, acts, i) && CommitOnly(c, ss[i], acts[i])
  }

  /** A run of commit() alone from state s. */
  ghost predicate CommitRun(c: Config, s: State, ss: seq<State>, acts: seq<Action>) {
    |ss| == |acts| + 1 && ss[0] == s && forall i: nat :: i < |acts| ==> CommitStepAt(c, ss, acts, i)
  }

  lemma StepInv(c: Config, ss: seq<State>, acts: seq<Action>, i: nat)
    requires |ss| == |acts| + 1 && i < |acts| && CommitStepAt(c, ss, acts, i) && Inv(c, ss[i]) && |ss[i].cache| <= NBUF
    ensures Inv(c, ss[i + 1]) && |ss[i + 1].cache| <= NBUF
  {
    StepKeepsInv(c, ss[i], acts[i]);
    StepFits(c, ss[i], acts[i]);
  }

  lemma {:induction false} CommitRunInv(c: Config, s: State, ss: seq<State>, acts: seq<Action>, i: nat)
    requires CommitRun(c, s, ss, acts) && i <= |acts| && Inv(c, s) && |s.cache| <= NBUF
    ensures Inv(c, ss[i]) && |ss[i].cache| <= NBUF
  {
    if i > 0 {
      CommitRunInv(c, s, ss, acts, i - 1);
      assert CommitStepAt(c, ss, acts, i - 1);
      StepInv(c, ss, acts, i - 1);
    }
  }

  /** A block that is not cached and that the commit reads is one of the log area. */
  lemma NeedsLogArea(c: Config, s: State, b: nat)
    requires Inv(c, s) && b in CommitNeeds(c, s) && b !in s.cache
    ensures CommitNeeds(c, s) <= PinSet(s) + {b}
  {
    if s.phase.k < |s.lh| {
      var k := s.phase.k;
      assert s.lh[k] in Pinned(s) by {
        if s.phase.Install? { assert Pinned(s)[0] == s.lh[k]; }
      }
    }
  }

  /** The commit's own read panics only if all NBUF buffers are pinned. */
  lemma OwnReadPanics(c: Config, s: State, a: Action)
    requires Inv(c, s) && |s.cache| <= NBUF && CommitOnly(c, s, a) && BgetPanics(s, a)
    ensures |s.lh| == NBUF
  {
    NeedsLogArea(c, s, a.b);
    CacheFullIff(c, s);
    assert PinSet(s) + InUse(s) == PinSet(s);
    PinCount(c, s);
  }

  lemma StepSafe(c: Config, s: State, a: Action)
    requires Inv(c, s) && |s.cache| <= NBUF && Enabled(c, s, a) && CommitOnly(c, s, a) && |s.lh| < NBUF
    ensures Next(c, s, a).panic.None? && |Next(c, s, a).lh| < NBUF
  {
    if BgetPanics(s, a) { OwnReadPanics(c, s, a); }
    OnlyReadsPanic(c, s, a);
  }

  lemma OnlyReadsPanic(c: Config, s: State, a: Action)
    requires Enabled(c, s, a) && CommitOnly(c, s, a)
    ensures Next(c, s, a).panic.None? || BgetPanics(s, a)
    ensures Next(c, s, a).lh == s.lh || Next(c, s, a).lh == []
  {
  }

  lemma RunStepSafe(c: Config, s: State, ss: seq<State>, acts: seq<Action>, i: nat)
    requires CommitRun(c, s, ss, acts) && i < |acts| && Inv(c, s) && |s.cache| <= NBUF && |ss[i].lh| < NBUF
    ensures ss[i + 1].panic.None? && |ss[i + 1].lh| < NBUF
  {
    CommitRunInv(c, s, ss, acts, i);
    assert CommitStepAt(c, ss, acts, i);
    StepSafe(c, ss[i], acts[i]);
  }

  lemma {:induction false} RunSafe(c: Config, s: State, ss: seq<State>, acts: seq<Action>, i: nat)
    requires CommitRun(c, s, ss, acts) && i <= |acts| && Inv(c, s) && |s.cache| <= NBUF
    requires s.panic.None? && |s.lh| < NBUF
    ensures ss[i].panic.None? && |ss[i].lh| < NBUF
  {
    if i > 0 {
      RunSafe(c, s, ss, acts, i - 1);
      RunStepSafe(c, s, ss, acts, i - 1);
    }
  }

  ghost predicate Starting(s: State, lh: seq<nat>) {
    (s.phase.CommitStart? || s.phase == WriteLog(0)) && s.lh == lh
  }

  lemma StepStuck(c: Config, s: State, a: Action, lh: seq<nat>)
    requires Inv(c, s) && |s.cache| <= NBUF && Enabled(c, s, a) && CommitOnly(c, s, a)
    requires Starting(s, lh) && |lh| == NBUF
    ensures Starting(Next(c, s, a), lh)
  {
    if s.phase.WriteLog? { FullLogStuck(c, s, COMMITTER, Block([])); }
  }

  lemma {:induction false} RunStuck(c: Config, s: State, ss: seq<State>, acts: seq<Action>, i: nat)
    requires CommitRun(c, s, ss, acts) && i <= |acts| && Inv(c, s) && |s.cache| <= NBUF
    requires s.phase.CommitStart? && |s.lh| == NBUF
    ensures Starting(ss[i], s.lh)
  {
    if i > 0 {
      RunStuck(c, s, ss, acts, i - 1);
      CommitRunInv(c, s, ss, acts, i - 1);
      assert CommitStepAt(c, ss, acts, i - 1);
      StepStuck(c, ss[i - 1], acts[i - 1], s.lh);
    }
  }

  // ---------- the run that completes ----------

  ghost predicate CanReach(c: Config, s: State, e: State) {
    exists ss: seq<State>, acts: seq<Action> :: CommitRun(c, s, ss, acts) && ss[|acts|] == e
  }

  lemma Stay(c: Config, s: State)
    ensures CanReach(c, s, s)
  {
    assert CommitRun(c, s, [s], []) && [s][0] == s;
  }

  lemma Go(c: Config, s: State, e: State, a: Action) returns (e': State)
    requires CanReach(c, s, e) && Enabled(c, e, a) && CommitOnly(c, e, a)
    ensures CanReach(c, s, e') && e' == Next(c, e, a)
  {
    e' := Next(c, e, a);
    var ss: seq<State>, acts: seq<Action> :| CommitRun(c, s, ss, acts) && ss[|acts|] == e;
    var ss', acts' := ss + [e'], acts + [a];
    forall i: nat | i < |acts'| ensures CommitStepAt(c, ss', acts', i) {
      if i < |acts| { assert CommitStepAt(c, ss, acts, i); }
    }
    assert CommitRun(c, s, ss', acts') && ss'[|acts'|] == e';
  }

  lemma ReachInv(c: Config, s: State, e: State)
    requires CanReach(c, s, e) && Inv(c, s) && |s.cache| <= NBUF
    ensures Inv(c, e) && |e.cache| <= NBUF
  {
    var ss: seq<State>, acts: seq<Action> :| CommitRun(c, s, ss, acts) && ss[|acts|] == e;
    CommitRunInv(c, s, ss, acts, |acts|);
  }

  /** The committer has read the blocks bs, and nobody uses any other buffer. */
  ghost predicate Holding(cache: map<nat, Buf>, bs: set<nat>) {
    (forall b :: b in cache && b !in bs ==> cache[b].users == {}) &&
    forall b :: b in bs ==> HoldsOne(cache, b)
  }

  ghost predicate HoldsOne(cache: map<nat, Buf>, b: nat) {
    b in cache && cache[b].valid && cache[b].lock == Some(COMMITTER) && cache[b].users == {COMMITTER}
  }

  /** s' is s, except for the contents of the cache. */
  predicate SameButCache(s: State, s': State) { s' == s.(cache := s'.cache) }

  lemma EvictsOne(m: map<nat, Buf>, x: nat)
    requires x in m
    ensures |m - {x}| < |m|
  {
    assert |m| == |m.Keys| && |m - {x}| == |(m - {x}).Keys|;
    assert (m - {x}).Keys == m.Keys - {x};
  }

  /** The committer has read some of what it needs and may read b. */
  ghost predicate MayRead(c: Config, e: State, b: nat, bs: set<nat>) {
    e.panic.None? && |e.lh| < NBUF && Holding(e.cache, bs) && bs <= CommitNeeds(c, e) && b in CommitNeeds(c, e) &&
    b !in bs
  }

  lemma MayReadUses(c: Config, e: State, b: nat, bs: set<nat>)
    requires MayRead(c, e, b, bs)
    ensures InUse(e) <= CommitNeeds(c, e)
  {
  }

  /** There is an unreferenced buffer if every buffer is taken. */
  lemma RoomToMake(c: Config, e: State, b: nat, bs: set<nat>) returns (x: nat)
    requires Inv(c, e) && |e.cache| == NBUF && MayRead(c, e, b, bs) && b !in e.cache
    ensures x in e.cache && e.cache[x].refcnt == 0 && x !in bs
  {
    MayReadUses(c, e, b, bs);
    if CacheFull(e) { OwnReadPanics(c, e, Bget(COMMITTER, b, Block([]))); }
    forall b | b in bs ensures b in e.cache && e.cache[b].refcnt > 0 { assert HoldsOne(e.cache, b); }
    x :| x in e.cache && e.cache[x].refcnt == 0;
  }

  /** If every buffer is taken, an unreferenced one gives way. */
  lemma MakeRoom(c: Config, s: State, e: State, b: nat, bs: set<nat>) returns (e': State)
    requires CanReach(c, s, e) && Inv(c, s) && |s.cache| <= NBUF && MayRead(c, e, b, bs)
    ensures CanReach(c, s, e') && SameButCache(e, e') && Holding(e'.cache, bs) && (b in e'.cache || |e'.cache| < NBUF)
  {
    ReachInv(c, s, e);
    e' := e;
    if b !in e.cache && |e.cache| == NBUF {
      var x := RoomToMake(c, e, b, bs);
      e' := Go(c, s, e, Evict(x));
      EvictsOne(e.cache, x);
    }
  }

  lemma NeedsInRange(c: Config, s: State, b: nat)
    requires Shape(c, s) && b in CommitNeeds(c, s)
    ensures b < c.nblocks && !Booting(s)
  {
  }

  /** Nobody has locked a block that nobody uses. */
  lemma IdleUnlocked(c: Config, s: State, b: nat, bs: set<nat>)
    requires CacheOk(c, s) && Holding(s.cache, bs) && b !in bs && b in s.cache
    ensures s.cache[b].users == {} && s.cache[b].lock == None
  {
    assert !s.cache[b].lock.Some?;
  }

  /** The buffer after bread. */
  function ReadBuf(e: State, b: nat): Buf {
    Buf(true, if b in e.cache && e.cache[b].valid then e.cache[b].data else At(e.disk, b),
        if b in e.cache then e.cache[b].refcnt + 1 else 1, {COMMITTER}, Some(COMMITTER))
  }

  /** Bget, Acquire and Fill. */
  lemma TakeOne(c: Config, s: State, e: State, b: nat) returns (e': State)
    requires CanReach(c, s, e) && e.panic.None? && b < c.nblocks && !Booting(e) && InUse(e) <= CommitNeeds(c, e)
    requires b in CommitNeeds(c, e) && (b in e.cache || |e.cache| < NBUF)
    requires b in e.cache ==> e.cache[b].users == {} && e.cache[b].lock == None
    ensures CanReach(c, s, e') && e' == SetBuf(e, b, ReadBuf(e, b))
  {
    var e1 := Go(c, s, e, Bget(COMMITTER, b, Block([])));
    var e2 := Go(c, s, e1, Acquire(COMMITTER, b));
    e' := e2;
    if !e2.cache[b].valid { e' := Go(c, s, e2, Fill(COMMITTER, b)); }
    assert e'.cache[b] == ReadBuf(e, b);
    assert e'.cache == e.cache[b := ReadBuf(e, b)];
  }

  lemma CanTake(c: Config, e: State, b: nat, bs: set<nat>)
    requires Inv(c, e) && MayRead(c, e, b, bs)
    ensures b < c.nblocks && !Booting(e) && InUse(e) <= CommitNeeds(c, e)
    ensures b in e.cache ==> e.cache[b].users == {} && e.cache[b].lock == None
  {
    NeedsInRange(c, e, b);
    if b in e.cache { IdleUnlocked(c, e, b, bs); }
    MayReadUses(c, e, b, bs);
  }

  /** bread of a block that nobody uses. */
  lemma ReadOne(c: Config, s: State, e: State, b: nat, bs: set<nat>) returns (e': State)
    requires CanReach(c, s, e) && Inv(c, s) && |s.cache| <= NBUF && MayRead(c, e, b, bs)
    ensures CanReach(c, s, e') && SameButCache(e, e') && Holding(e'.cache, bs + {b})
  {
    var e1 := MakeRoom(c, s, e, b, bs);
    ReachInv(c, s, e1);
    CanTake(c, e1, b, bs);
    e' := TakeOne(c, s, e1, b);
    NowHolding(e1, b, bs);
  }

  lemma NowHolding(e: State, b: nat, bs: set<nat>)
    requires Holding(e.cache, bs)
    ensures Holding(SetBuf(e, b, ReadBuf(e, b)).cache, bs + {b})
  {
    var cache := SetBuf(e, b, ReadBuf(e, b)).cache;
    forall x | x in bs + {b} ensures HoldsOne(cache, x) {
      if x != b { assert HoldsOne(e.cache, x); }
    }
  }

  /** brelse of a block the committer has read. */
  lemma ReleaseOne(c: Config, s: State, e: State, b: nat, bs: set<nat>) returns (e': State)
    requires CanReach(c, s, e) && b in bs && e.panic.None? && e.ops == map[] && Holding(e.cache, bs)
    ensures CanReach(c, s, e') && SameButCache(e, e') && Holding(e'.cache, bs - {b})
  {
    assert HoldsOne(e.cache, b);
    e' := Go(c, s, e, Brelse(COMMITTER, b));
    assert e'.cache == e.cache[b := e'.cache[b]] && e'.cache[b].users == {};
  }

  /** Between two rounds of commit() nothing is in use. */
  ghost predicate Between(s: State, lh: seq<nat>, phase: Phase) {
    s.panic.None? && s.lh == lh && s.phase == phase && s.ops == map[] && Holding(s.cache, {})
  }

  lemma StepUsers(c: Config, s: State, b: nat)
    requires CommitEnabled(c, s) && b in s.cache
    ensures var s' := CommitNext(c, s);
      b in s'.cache && s'.cache[b] == s.cache[b].(data := s'.cache[b].data, refcnt := s'.cache[b].refcnt)
  {
  }

  /** The copying step leaves users and locks alone. */
  lemma StepHolds(c: Config, s: State, bs: set<nat>)
    requires CommitEnabled(c, s) && Holding(s.cache, bs)
    ensures Holding(CommitNext(c, s).cache, bs)
  {
    var cache := CommitNext(c, s).cache;
    CommitSameKeys(c, s);
    forall b | b in cache && b !in bs ensures cache[b].users == {} {
      assert b in cache.Keys;
      StepUsers(c, s, b);
    }
    forall b | b in bs ensures HoldsOne(cache, b) {
      assert HoldsOne(s.cache, b);
      StepUsers(c, s, b);
    }
  }

  /** The commit step itself, once everything is read. */
  lemma StepOnce(c: Config, s: State, e: State, bs: set<nat>) returns (e': State)
    requires CanReach(c, s, e) && e.panic.None? && !Booting(e) && CommitEnabled(c, e) && Holding(e.cache, bs)
    ensures CanReach(c, s, e') && e' == CommitNext(c, e) && Holding(e'.cache, bs)
  {
    StepHolds(c, e, bs);
    e' := Go(c, s, e, CommitStep);
  }

  /** Where commit() goes next. */
  function After(lh: seq<nat>, phase: Phase): Phase
    requires phase.WriteLog? || phase.Install?
  {
    if phase.k < |lh| then phase.(k := phase.k + 1) else if phase.WriteLog? then Install(0) else Finish
  }

  lemma StepGoes(c: Config, e: State)
    requires CommitEnabled(c, e) && (e.phase.WriteLog? || e.phase.Install?)
    ensures var e' := CommitNext(c, e);
      e'.phase == After(e.lh, e.phase) && e'.ops == e.ops && e'.panic == e.panic &&
      e'.lh == if e'.phase.Finish? then [] else e.lh
  {
  }

  /** write_head. */
  lemma HeadRound(c: Config, s: State, e: State, lh: seq<nat>, phase: Phase) returns (e': State)
    requires CanReach(c, s, e) && Inv(c, s) && |s.cache| <= NBUF && Between(e, lh, phase) && |lh| < NBUF
    requires (phase.WriteLog? || phase.Install?) && phase.k >= |lh|
    ensures CanReach(c, s, e') && Between(e', if phase.Install? then [] else lh, After(lh, phase))
  {
    var bs := {} + {c.start};
    var e1 := ReadOne(c, s, e, c.start, {});
    assert HoldsOne(e1.cache, c.start);
    StepGoes(c, e1);
    var e2 := StepOnce(c, s, e1, bs);
    e' := ReleaseOne(c, s, e2, c.start, bs);
    assert bs - {c.start} == {};
  }

  lemma MayReadFirst(c: Config, e: State, lh: seq<nat>, phase: Phase)
    requires Between(e, lh, phase) && |lh| < NBUF && (phase.WriteLog? || phase.Install?) && phase.k < |lh|
    ensures MayRead(c, e, c.start + 1 + phase.k, {})
  {
  }

  lemma MayReadSecond(c: Config, e: State, e1: State, lh: seq<nat>, phase: Phase, a: nat)
    requires Between(e, lh, phase) && |lh| < NBUF && (phase.WriteLog? || phase.Install?) && phase.k < |lh|
    requires a == c.start + 1 + phase.k && lh[phase.k] != a && SameButCache(e, e1) && Holding(e1.cache, {a})
    ensures MayRead(c, e1, lh[phase.k], {a})
  {
  }

  lemma ReadFirst(c: Config, s: State, e: State, lh: seq<nat>, phase: Phase) returns (e': State)
    requires CanReach(c, s, e) && Inv(c, s) && |s.cache| <= NBUF && Between(e, lh, phase) && |lh| < NBUF
    requires (phase.WriteLog? || phase.Install?) && phase.k < |lh|
    ensures CanReach(c, s, e') && SameButCache(e, e') && Holding(e'.cache, {c.start + 1 + phase.k})
  {
    var a := c.start + 1 + phase.k;
    MayReadFirst(c, e, lh, phase);
    e' := ReadOne(c, s, e, a, {});
    assert {} + {a} == {a};
  }

  lemma ReadTwo(c: Config, s: State, e: State, lh: seq<nat>, phase: Phase, a: nat, b: nat) returns (e': State)
    requires CanReach(c, s, e) && Inv(c, s) && |s.cache| <= NBUF && Between(e, lh, phase) && |lh| < NBUF
    requires (phase.WriteLog? || phase.Install?) && phase.k < |lh| && a == c.start + 1 + phase.k && b == lh[phase.k] &&
      a != b
    ensures CanReach(c, s, e') && SameButCache(e, e') && Holding(e'.cache, {a, b})
  {
    var e1 := ReadFirst(c, s, e, lh, phase);
    MayReadSecond(c, e, e1, lh, phase, a);
    e' := ReadOne(c, s, e1, b, {a});
    assert {a} + {b} == {a, b};
  }

  lemma ReleaseTwo(c: Config, s: State, e: State, a: nat, b: nat) returns (e': State)
    requires CanReach(c, s, e) && e.panic.None? && e.ops == map[] && a != b && Holding(e.cache, {a, b})
    ensures CanReach(c, s, e') && SameButCache(e, e') && Holding(e'.cache, {})
  {
    var e1 := ReleaseOne(c, s, e, b, {a, b});
    assert {a, b} - {b} == {a};
    e' := ReleaseOne(c, s, e1, a, {a});
    assert {a} - {a} == {};
  }

  /** One round of write_log or install_trans. */
  lemma CopyRound(c: Config, s: State, e: State, lh: seq<nat>, phase: Phase) returns (e': State)
    requires CanReach(c, s, e) && Inv(c, s) && |s.cache| <= NBUF && Between(e, lh, phase) && |lh| < NBUF
    requires (phase.WriteLog? || phase.Install?) && phase.k < |lh|
    ensures CanReach(c, s, e') && Between(e', lh, After(lh, phase))
  {
    var a, b := c.start + 1 + phase.k, lh[phase.k];
    assert a != b by {
      ReachInv(c, s, e);
      assert Home(c, b);
    }
    var e1 := ReadTwo(c, s, e, lh, phase, a, b);
    assert HoldsOne(e1.cache, a) && HoldsOne(e1.cache, b);
    StepGoes(c, e1);
    var e2 := StepOnce(c, s, e1, {a, b});
    e' := ReleaseTwo(c, s, e2, a, b);
  }

  lemma {:induction false} Rounds(c: Config, s: State, lh: seq<nat>, install: bool, k: nat) returns (e: State)
    requires Inv(c, s) && |s.cache| <= NBUF && s.panic.None? && s.phase.CommitStart? && InUse(s) == {}
    requires s.lh == lh && 0 < |lh| < NBUF && k <= |lh|
    ensures CanReach(c, s, e) && Between(e, lh, if install then Install(k) else WriteLog(k))
    decreases install, k
  {
    if k > 0 {
      e := Rounds(c, s, lh, install, k - 1);
      e := CopyRound(c, s, e, lh, if install then Install(k - 1) else WriteLog(k - 1));
    } else if install {
      e := Rounds(c, s, lh, false, |lh|);
      e := HeadRound(c, s, e, lh, WriteLog(|lh|));
    } else {
      Stay(c, s);
      e := Go(c, s, s, CommitStep);
      forall b | b in s.cache ensures s.cache[b].users == {} { assert b !in InUse(s); }
    }
  }

  lemma Completes(c: Config, s: State) returns (e: State)
    requires Inv(c, s) && |s.cache| <= NBUF && s.panic.None? && s.phase.CommitStart? && InUse(s) == {}
    requires |s.lh| < NBUF
    ensures CanReach(c, s, e) && e.phase.Finish?
  {
    if s.lh == [] {
      Stay(c, s);
      e := Go(c, s, s, CommitStep);
    } else {
      e := Rounds(c, s, s.lh, true, |s.lh|);
      e := HeadRound(c, s, e, s.lh, Install(|s.lh|));
    }
  }

  ghost predicate CanComplete(c: Config, s: State) { exists e :: CanReach(c, s, e) && e.phase.Finish? }

  ghost predicate CanRunOut(c: Config, s: State) { exists e :: CanReach(c, s, e) && e.panic == Some(NoBuffers) }

  lemma StuckAt(c: Config, s: State, e: State)
    requires CanReach(c, s, e) && Inv(c, s) && |s.cache| <= NBUF && e.phase == WriteLog(0) && |e.lh| == NBUF
    ensures c.start + 1 < c.nblocks && BgetPanics(e, Bget(COMMITTER, c.start + 1, Block([])))
  {
    ReachInv(c, s, e);
    FullLogStuck(c, e, COMMITTER, Block([]));
  }

  lemma RunsOut(c: Config, s: State)
    requires Inv(c, s) && |s.cache| <= NBUF && s.panic.None? && s.phase.CommitStart? && InUse(s) == {} && |s.lh| == NBUF
    ensures CanRunOut(c, s)
  {
    Stay(c, s);
    var e := Go(c, s, s, CommitStep);
    StuckAt(c, s, e);
    FirstReadFails(c, s, e);
    e := Go(c, s, e, Bget(COMMITTER, c.start + 1, Block([])));
  }

  lemma FirstReadFails(c: Config, s: State, e: State)
    requires e == s.(phase := WriteLog(0)) && s.panic.None? && InUse(s) == {} && |s.lh| == NBUF
    requires c.start + 1 < c.nblocks && BgetPanics(e, Bget(COMMITTER, c.start + 1, Block([])))
    ensures var a := Bget(COMMITTER, c.start + 1, Block([]));
      Enabled(c, e, a) && CommitOnly(c, e, a) && Next(c, e, a).panic == Some(NoBuffers)
  {
    assert InUse(e) == InUse(s);
  }

  /** A commit that nobody disturbs can complete if and only if fewer than NBUF blocks are
      logged, and can run out of buffers if and only if NBUF are. */
  lemma CommitCompletesIff(c: Config, s: State)
    requires Inv(c, s) && |s.cache| <= NBUF && s.panic.None? && s.phase.CommitStart? && InUse(s) == {}
    ensures CanComplete(c, s) <==> |s.lh| < NBUF
    ensures CanRunOut(c, s) <==> |s.lh| == NBUF
  {
    if |s.lh| < NBUF {
      var e := Completes(c, s);
      forall e | CanReach(c, s, e) ensures e.panic.None? {
        var ss: seq<State>, acts: seq<Action> :| CommitRun(c, s, ss, acts) && ss[|acts|] == e;
        RunSafe(c, s, ss, acts, |acts|);
      }
    } else {
      forall e | CanReach(c, s, e) ensures !e.phase.Finish? {
        var ss: seq<State>, acts: seq<Action> :| CommitRun(c, s, ss, acts) && ss[|acts|] == e;
        RunStuck(c, s, ss, acts, |acts|);
      }
      RunsOut(c, s);
    }
  }
}
