/** begin_op's admission control reserves enough log space, exactly when the log area has
    more than LOGSIZE blocks.  Space in the buffer cache is another matter: see LogBuffers. */
module LogBudget {
  import opened Common
  import opened LogMachine
  import opened LogRefinement
  import opened LogTheorems

  /** An operation may log a block while it has budget left: fewer than MAXOPBLOCKS blocks
      so far. */
  predicate InBudget(s: State, a: Action) {
    a.LogWrite? && a.t in s.ops ==> |s.ops[a.t].touched| < MAXOPBLOCKS
  }

  /** Log space still reserved for an operation. */
  function Slack(op: Op): nat {
    if |op.touched| < MAXOPBLOCKS then MAXOPBLOCKS - |op.touched| else 0
  }

  ghost function Reserve(ops: map<Tid, Op>): nat
    decreases |ops|
  {
    if ops == map[] then 0
    else
      var t :| t in ops;
      Slack(ops[t]) + Reserve(ops - {t})
  }

  lemma {:induction false} ReserveSplit(ops: map<Tid, Op>, t: Tid)
    requires t in ops
    ensures Reserve(ops) == Slack(ops[t]) + Reserve(ops - {t})
    decreases |ops|
  {
    var u :| u in ops && Reserve(ops) == Slack(ops[u]) + Reserve(ops - {u});
    if u != t {
      ReserveSplit(ops - {u}, t);
      ReserveSplit(ops - {t}, u);
      assert ops - {u} - {t} == ops - {t} - {u};
    }
  }

  lemma {:induction false} ReserveBound(ops: map<Tid, Op>)
    ensures Reserve(ops) <= MAXOPBLOCKS * |ops|
    decreases |ops|
  {
    if ops != map[] {
      var t :| t in ops;
      ReserveSplit(ops, t);
      ReserveBound(ops - {t});
    }
  }

  lemma ReserveUpdate(ops: map<Tid, Op>, t: Tid, op: Op)
    ensures Reserve(ops[t := op]) == Slack(op) + Reserve(ops - {t})
  {
    ReserveSplit(ops[t := op], t);
    assert ops[t := op] - {t} == ops - {t};
  }

  /** The logged blocks and the unused budgets of the active operations fit the log. */
  ghost predicate Reserved(s: State) {
    |s.lh| + Reserve(s.ops) <= LOGSIZE
  }

  /** One of the panics of log_write and end_op. */
  predicate LogPanic(s: State) { s.panic.Some? && s.panic != Some(NoBuffers) }

  lemma LogWriteReserves(c: Config, s: State, t: Tid, b: nat)
    requires OpsOk(c, s) && Reserved(s) && Enabled(c, s, LogWrite(t, b)) && InBudget(s, LogWrite(t, b))
    requires c.size > LOGSIZE
    ensures var s' := Next(c, s, LogWrite(t, b)); !LogPanic(s') && Reserved(s')
  {
    ReserveSplit(s.ops, t);
    var op := Op(s.ops[t].touched + {b}, s.ops[t].dirty - {b});
    ReserveUpdate(s.ops, t, op);
    assert b !in s.ops[t].touched ==> |op.touched| == |s.ops[t].touched| + 1;
    assert b in s.ops[t].touched ==> op.touched == s.ops[t].touched && b in s.lh;
  }

  lemma BeginReserves(c: Config, s: State, t: Tid)
    requires OpsOk(c, s) && Reserved(s) && Enabled(c, s, Begin(t))
    ensures var s' := Next(c, s, Begin(t)); !LogPanic(s') && Reserved(s')
  {
    ReserveUpdate(s.ops, t, Op({}, {}));
    assert s.ops - {t} == s.ops;
    ReserveBound(s.ops);
  }

  lemma ModifyReserves(c: Config, s: State, a: Action)
    requires Reserved(s) && Enabled(c, s, a) && a.Modify?
    ensures var s' := Next(c, s, a); !LogPanic(s') && Reserved(s')
  {
    ReserveSplit(s.ops, a.t);
    ReserveUpdate(s.ops, a.t, s.ops[a.t].(dirty := s.ops[a.t].dirty + {a.b}));
  }

  lemma EndReserves(c: Config, s: State, t: Tid)
    requires OpsOk(c, s) && Reserved(s) && Enabled(c, s, End(t))
    ensures var s' := Next(c, s, End(t)); !LogPanic(s') && Reserved(s')
  {
    ReserveSplit(s.ops, t);
  }

  lemma OtherReserves(c: Config, s: State, a: Action)
    requires Inv(c, s) && Reserved(s) && Enabled(c, s, a) && !a.LogWrite? && !LogPanic(s)
    ensures var s' := Next(c, s, a); !LogPanic(s') && Reserved(s')
  {
    if a.Begin? { BeginReserves(c, s, a.t); }
    else if a.Modify? { ModifyReserves(c, s, a); }
    else if a.End? { EndReserves(c, s, a.t); }
    else if a.CommitStep? { CommitReserves(c, s); }
  }

  lemma CommitReserves(c: Config, s: State)
    requires Inv(c, s) && Reserved(s) && CommitEnabled(c, s) && !LogPanic(s)
    ensures var s' := CommitNext(c, s); !LogPanic(s') && Reserved(s')
  {
    CommitKeepsInv(c, s);
    assert CommitNext(c, s).ops == s.ops == map[];
  }

  ghost predicate BudgetedRun(c: Config, disk: seq<Block>, ss: seq<State>, acts: seq<Action>) {
    IsRun(c, disk, ss, acts) && forall i :: 0 <= i < |acts| ==> InBudget(ss[i], acts[i])
  }

  /** Admission reserves enough log: with more than LOGSIZE blocks in the log area, no
      operation that stays in its budget ever meets a panic of log_write or end_op. */
  lemma {:induction false} NoLogPanic(c: Config, disk: seq<Block>, ss: seq<State>, acts: seq<Action>, i: nat)
    requires BudgetedRun(c, disk, ss, acts) && i <= |acts| && c.size > LOGSIZE
    ensures !LogPanic(ss[i]) && Reserved(ss[i])
  {
    if i > 0 {
      NoLogPanic(c, disk, ss, acts, i - 1);
      InvAt(c, disk, ss, acts, i - 1);
      assert StepAt(c, ss, acts, i - 1);
      assert InBudget(ss[i - 1], acts[i - 1]);
      var s, a := ss[i - 1], acts[i - 1];
      if a.LogWrite? { LogWriteReserves(c, s, a.t, a.b); } else { OtherReserves(c, s, a); }
    }
  }

  // ---------- the bound is needed: runs that panic ----------

  lemma Do(c: Config, disk: seq<Block>, ss: seq<State>, acts: seq<Action>, a: Action)
    returns (ss': seq<State>, acts': seq<Action>)
    requires BudgetedRun(c, disk, ss, acts) && Enabled(c, ss[|acts|], a) && InBudget(ss[|acts|], a)
    ensures BudgetedRun(c, disk, ss', acts') && ss'[|acts'|] == Next(c, ss[|acts|], a)
  {
    ss', acts' := ss + [Next(c, ss[|acts|], a)], acts + [a];
    forall i: nat | i < |acts'| ensures StepAt(c, ss', acts', i) {
      if i < |acts| { assert StepAt(c, ss, acts, i); }
    }
  }

  /** Whose turn it is to log block number n: each thread logs ten. */
  function Turn(n: nat): Tid { if n < 10 then 1 else if n < 20 then 2 else 3 }

  /** How many of the first n blocks are thread t's. */
  function Quota(t: Tid, n: nat): nat {
    if t == 1 then (if n < 10 then n else 10)
    else if t == 2 then (if n < 10 then 0 else if n < 20 then n - 10 else 10)
    else if n < 20 then 0 else n - 20
  }

  function Prefix(hb: seq<nat>, n: nat): set<nat> { set i | 0 <= i < n && i < |hb| :: hb[i] }

  lemma {:induction false} PrefixSize(hb: seq<nat>, n: nat)
    requires n <= |hb|
    ensures |Prefix(hb, n)| <= n
  {
    if n == 0 {
      assert Prefix(hb, n) == {};
    } else {
      PrefixSize(hb, n - 1);
      assert Prefix(hb, n) == Prefix(hb, n - 1) + {hb[n - 1]};
    }
  }

  ghost predicate IdleBuf(buf: Buf) { buf.valid && buf.users == {} && buf.lock == None }

  ghost predicate FilledOp(op: Op, hb: seq<nat>, t: Tid, n: nat)
    requires n <= |hb|
  {
    op.dirty == {} && |op.touched| == Quota(t, n) &&
    op.touched <= Prefix(hb, n) &&
    (n > 0 && Turn(n - 1) == t ==> hb[n - 1] in op.touched)
  }

  /** Threads 1, 2 and 3 are in operations that have together logged hb[..n], filling one
      budget after the other; nobody is using a buffer. */
  ghost predicate Filled(s: State, hb: seq<nat>, n: nat) {
    n <= |hb| && s.phase.Running? && s.panic.None? && !s.committing && s.lh == hb[..n] && s.outstanding == 3 &&
    s.ops.Keys == {1, 2, 3} && (forall t :: t in s.ops ==> FilledOp(s.ops[t], hb, t, n)) &&
    FilledCache(s.cache, hb, n)
  }

  ghost predicate FilledCache(cache: map<nat, Buf>, hb: seq<nat>, n: nat) {
    cache.Keys == Prefix(hb, n) && forall b :: b in cache ==> IdleBuf(cache[b])
  }

  lemma Booted(c: Config, disk: seq<Block>) returns (ss: seq<State>, acts: seq<Action>)
    requires GoodDisk(c, disk) && Header(c, disk) == []
    ensures BudgetedRun(c, disk, ss, acts)
    ensures exists d :: ss[|acts|] == State(d, map[], [], map[], 0, false, Running, None)
  {
    ss, acts := [PowerOn(disk)], [];
    ss, acts := Do(c, disk, ss, acts, Bget(COMMITTER, c.start, Block([])));
    ss, acts := Do(c, disk, ss, acts, Acquire(COMMITTER, c.start));
    ss, acts := Do(c, disk, ss, acts, Fill(COMMITTER, c.start));
    ss, acts := Do(c, disk, ss, acts, CommitStep);
    ss, acts := Do(c, disk, ss, acts, CommitStep);
    ss, acts := Do(c, disk, ss, acts, Brelse(COMMITTER, c.start));
    ss, acts := Do(c, disk, ss, acts, Evict(c.start));
    assert ss[|acts|] == State(ss[|acts|].disk, map[], [], map[], 0, false, Running, None);
  }

  lemma Admitted(c: Config, disk: seq<Block>, hb: seq<nat>) returns (ss: seq<State>, acts: seq<Action>)
    requires GoodDisk(c, disk) && Header(c, disk) == []
    ensures BudgetedRun(c, disk, ss, acts) && Filled(ss[|acts|], hb, 0)
  {
    ss, acts := Booted(c, disk);
    ss, acts := Do(c, disk, ss, acts, Begin(1));
    ss, acts := Do(c, disk, ss, acts, Begin(2));
    ss, acts := Do(c, disk, ss, acts, Begin(3));
    assert Prefix(hb, 0) == {};
  }

  /** Home blocks to log. */
  ghost predicate Targets(c: Config, hb: seq<nat>) {
    Distinct(hb) && forall i :: 0 <= i < |hb| ==> Home(c, hb[i])
  }

  /** bread of the next block to log, by the thread whose turn it is. */
  lemma ReadNext(c: Config, disk: seq<Block>, ss: seq<State>, acts: seq<Action>, hb: seq<nat>, n: nat)
    returns (ss': seq<State>, acts': seq<Action>)
    requires BudgetedRun(c, disk, ss, acts) && Filled(ss[|acts|], hb, n)
    requires Targets(c, hb) && n < |hb| && n < LOGSIZE
    ensures BudgetedRun(c, disk, ss', acts')
    ensures var s, s', t := ss[|acts|], ss'[|acts'|], Turn(n);
      s' == SetBuf(s, hb[n], Buf(true, At(s.disk, hb[n]), 1, {t}, Some(t))) && hb[n] !in s.cache
  {
    var t, b := Turn(n), hb[n];
    var s := ss[|acts|];
    PrefixSize(hb, n);
    assert |s.cache| == |s.cache.Keys|;
    ss', acts' := Do(c, disk, ss, acts, Bget(t, b, Block([])));
    ss', acts' := Do(c, disk, ss', acts', Acquire(t, b));
    ss', acts' := Do(c, disk, ss', acts', Fill(t, b));
    assert ss'[|acts'|].cache == s.cache[b := Buf(true, At(s.disk, b), 1, {t}, Some(t))];
  }

  /** The state after log_write of the next block. */
  function Logged(s: State, hb: seq<nat>, n: nat, t: Tid): State
    requires n < |hb| && t in s.ops
  {
    SetBuf(s, hb[n], Buf(true, At(s.disk, hb[n]), 2, {t}, Some(t)))
    .(lh := s.lh + [hb[n]], ops := s.ops[t := Op(s.ops[t].touched + {hb[n]}, {})])
  }

  lemma LogWriteIs(c: Config, s: State, s1: State, hb: seq<nat>, n: nat, t: Tid)
    requires s.phase.Running? && s.panic.None? && s.outstanding == 3 && n < |hb| && s.lh == hb[..n] && Targets(c, hb)
    requires n < LOGSIZE && n < c.size - 1 && t in s.ops && s.ops[t].dirty == {}
    requires s1 == SetBuf(s, hb[n], Buf(true, At(s.disk, hb[n]), 1, {t}, Some(t)))
    ensures Enabled(c, s1, LogWrite(t, hb[n]))
    ensures Next(c, s1, LogWrite(t, hb[n])) == Logged(s, hb, n, t)
  {
    var s2 := Next(c, s1, LogWrite(t, hb[n]));
    assert hb[n] !in s1.lh;
    assert s.ops[t].dirty - {hb[n]} == {};
    assert s2.cache == Logged(s, hb, n, t).cache;
  }

  lemma LogsNext(c: Config, s: State, s1: State, hb: seq<nat>, n: nat, t: Tid)
    requires Filled(s, hb, n) && Targets(c, hb) && n < |hb| && n < LOGSIZE && n < c.size - 1 && t == Turn(n)
    requires s1 == SetBuf(s, hb[n], Buf(true, At(s.disk, hb[n]), 1, {t}, Some(t)))
    ensures Enabled(c, s1, LogWrite(t, hb[n])) && InBudget(s1, LogWrite(t, hb[n]))
    ensures Next(c, s1, LogWrite(t, hb[n])) == Logged(s, hb, n, t)
  {
    assert FilledOp(s.ops[t], hb, t, n);
    LogWriteIs(c, s, s1, hb, n, t);
  }

  lemma OpsGrow(ops: map<Tid, Op>, hb: seq<nat>, n: nat, t: Tid, u: Tid)
    requires n < |hb| && n < LOGSIZE && Distinct(hb) && t == Turn(n) && t in ops && u in {1, 2, 3} && u in ops
    requires FilledOp(ops[u], hb, u, n)
    ensures FilledOp(ops[t := Op(ops[t].touched + {hb[n]}, {})][u], hb, u, n + 1)
  {
    if u == t {
      assert hb[n] !in Prefix(hb, n);
      assert |ops[t].touched + {hb[n]}| == |ops[t].touched| + 1;
    }
  }

  /** The state after brelse of the next block. */
  function Released(s: State, hb: seq<nat>, n: nat, t: Tid): State
    requires n < |hb| && t in s.ops
  {
    SetBuf(s, hb[n], Buf(true, At(s.disk, hb[n]), 1, {}, None))
    .(lh := s.lh + [hb[n]], ops := s.ops[t := Op(s.ops[t].touched + {hb[n]}, {})])
  }

  lemma ReleasesNext(c: Config, s: State, hb: seq<nat>, n: nat, t: Tid)
    requires n < |hb| && t in s.ops && s.panic.None?
    ensures Enabled(c, Logged(s, hb, n, t), Brelse(t, hb[n]))
    ensures Next(c, Logged(s, hb, n, t), Brelse(t, hb[n])) == Released(s, hb, n, t)
  {
    assert {t} - {t} == {};
    assert Next(c, Logged(s, hb, n, t), Brelse(t, hb[n])).cache == Released(s, hb, n, t).cache;
  }

  lemma AllOpsGrow(ops: map<Tid, Op>, ops': map<Tid, Op>, hb: seq<nat>, n: nat, t: Tid)
    requires n < |hb| && n < LOGSIZE && Distinct(hb) && t == Turn(n) && ops.Keys == {1, 2, 3}
    requires forall u :: u in ops ==> FilledOp(ops[u], hb, u, n)
    requires ops' == ops[t := Op(ops[t].touched + {hb[n]}, {})]
    ensures ops'.Keys == {1, 2, 3}
    ensures forall u :: u in ops' ==> FilledOp(ops'[u], hb, u, n + 1)
  {
    forall u | u in ops' ensures FilledOp(ops'[u], hb, u, n + 1) {
      assert u in ops.Keys;
      OpsGrow(ops, hb, n, t, u);
    }
  }

  lemma TakeSnoc(hb: seq<nat>, n: nat)
    requires n < |hb|
    ensures hb[..n + 1] == hb[..n] + [hb[n]]
    ensures Prefix(hb, n + 1) == Prefix(hb, n) + {hb[n]}
  {
  }

  lemma CacheFills(cache: map<nat, Buf>, hb: seq<nat>, n: nat, buf: Buf)
    requires n < |hb| && FilledCache(cache, hb, n) && IdleBuf(buf)
    ensures FilledCache(cache[hb[n] := buf], hb, n + 1)
  {
    TakeSnoc(hb, n);
  }

  lemma FillsNext(s: State, hb: seq<nat>, n: nat, t: Tid)
    requires Filled(s, hb, n) && Distinct(hb) && n < |hb| && n < LOGSIZE && t == Turn(n)
    ensures Filled(Released(s, hb, n, t), hb, n + 1)
  {
    AllOpsGrow(s.ops, Released(s, hb, n, t).ops, hb, n, t);
    CacheFills(s.cache, hb, n, Buf(true, At(s.disk, hb[n]), 1, {}, None));
    assert Released(s, hb, n, t).lh == hb[..n + 1] by { TakeSnoc(hb, n); }
  }

  lemma LogNext(c: Config, disk: seq<Block>, ss: seq<State>, acts: seq<Action>, hb: seq<nat>, n: nat)
    returns (ss': seq<State>, acts': seq<Action>)
    requires BudgetedRun(c, disk, ss, acts) && Filled(ss[|acts|], hb, n)
    requires Targets(c, hb) && n < |hb| && n < LOGSIZE && n < c.size - 1
    ensures BudgetedRun(c, disk, ss', acts') && Filled(ss'[|acts'|], hb, n + 1)
  {
    var t, b, s := Turn(n), hb[n], ss[|acts|];
    ss', acts' := ReadNext(c, disk, ss, acts, hb, n);
    LogsNext(c, s, ss'[|acts'|], hb, n, t);
    ss', acts' := Do(c, disk, ss', acts', LogWrite(t, b));
    ReleasesNext(c, s, hb, n, t);
    ss', acts' := Do(c, disk, ss', acts', Brelse(t, b));
    FillsNext(s, hb, n, t);
  }

  lemma {:induction false} FillLog(c: Config, disk: seq<Block>, hb: seq<nat>, n: nat)
    returns (ss: seq<State>, acts: seq<Action>)
    requires GoodDisk(c, disk) && Header(c, disk) == []
    requires Targets(c, hb) && n <= |hb| && n <= LOGSIZE && n < c.size
    ensures BudgetedRun(c, disk, ss, acts) && Filled(ss[|acts|], hb, n)
  {
    if n == 0 {
      ss, acts := Admitted(c, disk, hb);
    } else {
      ss, acts := FillLog(c, disk, hb, n - 1);
      ss, acts := LogNext(c, disk, ss, acts, hb, n - 1);
    }
  }

  ghost predicate CanPanic(c: Config, disk: seq<Block>, p: Panic) {
    exists ss: seq<State>, acts: seq<Action> :: BudgetedRun(c, disk, ss, acts) && ss[|acts|].panic == Some(p)
  }

  lemma SmallLogPanics(c: Config, disk: seq<Block>, hb: seq<nat>)
    requires GoodDisk(c, disk) && Header(c, disk) == [] && Targets(c, hb) && |hb| >= LOGSIZE
    requires c.size <= LOGSIZE
    ensures CanPanic(c, disk, TooBigTransaction)
  {
    var n := c.size - 1;
    var ss, acts := FillLog(c, disk, hb, n);
    assert FilledOp(ss[|acts|].ops[Turn(n)], hb, Turn(n), n);
    ss, acts := ReadNext(c, disk, ss, acts, hb, n);
    ss, acts := Do(c, disk, ss, acts, LogWrite(Turn(n), hb[n]));
  }

  /** The exact condition: operations that stay in budget are safe from the panics of
      log_write and end_op if and only if the log area holds more than LOGSIZE blocks.
      mkfs makes it LOGSIZE blocks, so the last reserved slot is not there. */
  lemma LogPanicFreeIff(c: Config, disk: seq<Block>, hb: seq<nat>)
    requires GoodDisk(c, disk) && Header(c, disk) == [] && Targets(c, hb) && |hb| >= LOGSIZE
    ensures (forall p: Panic :: p != NoBuffers ==> !CanPanic(c, disk, p)) <==> c.size > LOGSIZE
  {
    if c.size > LOGSIZE {
      forall p: Panic, ss: seq<State>, acts: seq<Action> | p != NoBuffers && BudgetedRun(c, disk, ss, acts)
        ensures ss[|acts|].panic != Some(p)
      {
        NoLogPanic(c, disk, ss, acts, |acts|);
      }
    } else {
      SmallLogPanics(c, disk, hb);
    }
  }

  /** An operation whose budget is used up may still rewrite a block it has logged: the
      write would be absorbed.  log_write looks for space first, so this panics exactly
      when the log is full, and then every active operation has used its whole budget. */
  lemma AbsorbedWritePanicsIff(c: Config, s: State, t: Tid, b: nat)
    requires Inv(c, s) && Reserved(s) && Enabled(c, s, LogWrite(t, b)) && b in s.ops[t].touched
    ensures Next(c, s, LogWrite(t, b)).panic == Some(TooBigTransaction) <==>
      |s.lh| == if c.size > LOGSIZE then LOGSIZE else c.size - 1
    ensures |s.lh| == LOGSIZE ==> forall u :: u in s.ops ==> Slack(s.ops[u]) == 0
  {
    assert s.outstanding >= 1 by { assert t in s.ops; assert s.ops.Keys != {}; }
    forall u | u in s.ops ensures |s.lh| == LOGSIZE ==> Slack(s.ops[u]) == 0 {
      ReserveSplit(s.ops, u);
    }
  }

  /** Such a state is reachable whatever the size of the log, if it holds a block at all. */
  lemma AbsorbedWriteCanPanic(c: Config, disk: seq<Block>, hb: seq<nat>)
    returns (ss: seq<State>, acts: seq<Action>)
    requires GoodDisk(c, disk) && Header(c, disk) == [] && Targets(c, hb) && |hb| >= LOGSIZE
    requires c.size >= 2
    ensures BudgetedRun(c, disk, ss, acts)
    ensures var n := if c.size > LOGSIZE then LOGSIZE else c.size - 1;
      var s, t, b := ss[|acts|], Turn(n - 1), hb[n - 1];
      Enabled(c, s, LogWrite(t, b)) && b in s.ops[t].touched &&
      Next(c, s, LogWrite(t, b)).panic == Some(TooBigTransaction)
  {
    var n := if c.size > LOGSIZE then LOGSIZE else c.size - 1;
    var t, b := Turn(n - 1), hb[n - 1];
    ss, acts := FillLog(c, disk, hb, n);
    assert FilledOp(ss[|acts|].ops[t], hb, t, n);
    assert b in Prefix(hb, n);
    ss, acts := Do(c, disk, ss, acts, Bget(t, b, Block([])));
    ss, acts := Do(c, disk, ss, acts, Acquire(t, b));
  }
}
