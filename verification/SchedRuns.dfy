/** What the calls of proc.c get done when nobody is in their way: scheduler(), yield(), sleep(),
    wakeup(), kill(), exit() and wait(), and a run in which a process sleeps and is woken. */
module SchedRuns {
  import opened Sched

  /** CPU c is neither in wakeup() nor in a handler. */
  predicate Plain(s: State, c: nat) { c < |s.cs| && s.cs[c].wk == Idle && s.cs[c].hl < 0 }

  /** CPU c runs process i, which is at pc. */
  ghost predicate Runs(s: State, c: nat, i: nat, pc: Pc) {
    Plain(s, c) && s.cs[c].sc == Running && s.cs[c].cur == i < |s.ps| && s.cs[c].pc == pc
  }

  // ---------- scheduler() ----------

  /** A process that scheduler() finds RUNNABLE runs two steps later, where it left off. */
  lemma Picks(ss: seq<State>, acts: seq<Step>, i: nat, c: nat) returns (s1: State, s2: State)
    requires IsRun(ss, acts) && i < |ss| && Plain(ss[i], c) && ss[i].cs[c].sc.Scan?
    requires var s, j := ss[i], ss[i].cs[c].sc.j; j < |s.ps| && s.ps[j].state == RUNNABLE && Free(s.plock, j)
    ensures Leads(ss[i], Step(c, GoOn), s1) && Leads(s1, Step(c, GoOn), s2)
    ensures var s, j := ss[i], ss[i].cs[c].sc.j;
      Runs(s2, c, j, s.ps[j].saved) && s2.ps == s.ps[j := s.ps[j].(state := RUNNING, on := c)] &&
      s2.plock == s.plock[j := c as int] && s2.lks == s.lks
  {
    RunKeepsInv(ss, acts, i);
    s1 := Next(ss[i], c, GoOn);
    s2 := Next(s1, c, GoOn);
  }

  /** It passes over any other process, and after the last it begins again. */
  lemma PassesOver(ss: seq<State>, acts: seq<Step>, i: nat, c: nat) returns (s1: State, s2: State)
    requires IsRun(ss, acts) && i < |ss| && Plain(ss[i], c) && ss[i].cs[c].sc.Scan?
    requires var s, j := ss[i], ss[i].cs[c].sc.j; j < |s.ps| ==> s.ps[j].state != RUNNABLE && Free(s.plock, j)
    ensures Leads(ss[i], Step(c, GoOn), s1)
    ensures var s, j := ss[i], ss[i].cs[c].sc.j;
      if j >= |s.ps| then s1 == At(s, c, s.cs[c].(sc := Scan(0)))
      else Leads(s1, Step(c, GoOn), s2) && s2 == At(s, c, s.cs[c].(sc := Scan(j + 1)))
  {
    RunKeepsInv(ss, acts, i);
    var j := ss[i].cs[c].sc.j;
    s1 := Next(ss[i], c, GoOn);
    if j < |ss[i].ps| {
      s2 := Next(s1, c, GoOn);
      assert ss[i].plock[j := c as int][j := -1] == ss[i].plock;
      assert s1.cs[c := ss[i].cs[c].(sc := Scan(j + 1))] == ss[i].cs[c := ss[i].cs[c].(sc := Scan(j + 1))];
    } else {
      s2 := s1;
    }
  }

  // ---------- giving up the CPU ----------

  /** Process i has left CPU c with this entry; its lock and lock l (if any) are free. */
  ghost predicate Gone(s: State, s': State, c: nat, i: nat, l: int, p: Proc) {
    c < |s.cs| && i < |s.ps| && i < |s.plock| && s'.ps == s.ps[i := p] && s'.plock == s.plock[i := -1] &&
    s'.lks == (if 0 <= l < |s.lks| then s.lks[l := -1] else s.lks) &&
    s'.cs == s.cs[c := Cpu(-1, Scan(i + 1), Run, s.cs[c].hl, Idle)]
  }

  /** yield(): the process is RUNNABLE and goes on after the yield. */
  lemma Yields(s: State, c: nat, i: nat) returns (s1: State, s2: State, s3: State)
    requires |s.plock| == |s.ps| && Runs(s, c, i, Run) && Free(s.plock, i)
    ensures Leads(s, Step(c, Yield), s1) && Leads(s1, Step(c, GoOn), s2) && Leads(s2, Step(c, GoOn), s3)
    ensures Gone(s, s3, c, i, -1, s.ps[i].(state := RUNNABLE, saved := YieldC(-1), on := -1))
  {
    s1 := Next(s, c, Yield);
    s2 := Next(s1, c, GoOn);
    s3 := Next(s2, c, GoOn);
  }

  /** sleep(ch): the process sleeps on ch, the channel's lock is free, and it goes on in sleep(). */
  lemma Sleeps(s: State, c: nat, i: nat, ch: nat, l: nat)
    returns (s1: State, s2: State, s3: State, s4: State)
    requires |s.plock| == |s.ps| && Runs(s, c, i, HasLk(l)) && Guards(s, ch, l) && l < |s.lks| && Free(s.plock, i)
    ensures Leads(s, Step(c, Sleep(ch)), s1) && Leads(s1, Step(c, GoOn), s2)
    ensures Leads(s2, Step(c, GoOn), s3) && Leads(s3, Step(c, GoOn), s4)
    ensures Gone(s, s4, c, i, l, Proc(SLEEPING, ch, s.ps[i].killed, SleepE(l), ch, false, -1))
  {
    s1 := Next(s, c, Sleep(ch));
    s2 := Next(s1, c, GoOn);
    s3 := Next(s2, c, GoOn);
    s4 := Next(s3, c, GoOn);
  }

  /** exit(): the process is a zombie that no CPU has. */
  lemma Exits(s: State, c: nat, i: nat, l: nat) returns (s1: State, s2: State, s3: State, s4: State)
    requires |s.plock| == |s.ps| && Runs(s, c, i, HasLk(l)) && l < |s.lks| && Free(s.plock, i)
    ensures Leads(s, Step(c, Exit), s1) && Leads(s1, Step(c, GoOn), s2)
    ensures Leads(s2, Step(c, GoOn), s3) && Leads(s3, Step(c, GoOn), s4)
    ensures Gone(s, s4, c, i, l, s.ps[i].(state := ZOMBIE, on := -1))
  {
    s1 := Next(s, c, Exit);
    s2 := Next(s1, c, GoOn);
    s3 := Next(s2, c, GoOn);
    s4 := Next(s3, c, GoOn);
  }

  /** The end of sleep(): the process has left the channel and holds the channel's lock again. */
  lemma GoesOn(s: State, c: nat, i: nat, l: nat) returns (s1: State, s2: State)
    requires |s.plock| == |s.ps| && Runs(s, c, i, SleepE(l)) && Free(s.lks, l)
    ensures Leads(s, Step(c, GoOn), s1) && Leads(s1, Step(c, GoOn), s2)
    ensures Runs(s2, c, i, HasLk(l)) && s2.ps == s.ps[i := s.ps[i].(chan := 0, wait := -1)]
    ensures s2.plock == s.plock[i := -1] && s2.lks == s.lks[l := c as int]
  {
    s1 := Next(s, c, GoOn);
    s2 := Next(s1, c, GoOn);
  }

  // ---------- kill() and wait() ----------

  /** After kill()'s step under the victim's lock, the victim is killed and does not sleep. */
  lemma KillsAndWakes(ss: seq<State>, acts: seq<Step>, i: nat)
    requires IsRun(ss, acts) && i < |acts| && acts[i].w == GoOn
    requires var s, c := ss[i], acts[i].c; Plain(s, c) && s.cs[c].sc == Running && s.cs[c].pc.KillL?
    ensures var s, s', j := ss[i], ss[i + 1], ss[i].cs[acts[i].c].pc.j;
      j < |s.ps| == |s'.ps| && s'.ps[j].killed && s'.ps[j].state != SLEEPING &&
      (s.ps[j].state == SLEEPING ==> s'.ps[j].state == RUNNABLE && s'.ps[j].saved == s.ps[j].saved) &&
      (s.ps[j].state != SLEEPING ==> s'.ps[j].state == s.ps[j].state) &&
      forall k :: 0 <= k < |s.ps| && k != j ==> s'.ps[k] == s.ps[k]
  {
    assert StepAt(ss, acts, i);
  }

  /** wait() under its child's lock frees the child if and only if it is a zombie. */
  lemma WaitFrees(ss: seq<State>, acts: seq<Step>, i: nat)
    requires IsRun(ss, acts) && i < |acts| && acts[i].w == GoOn
    requires var s, c := ss[i], acts[i].c; Plain(s, c) && s.cs[c].sc == Running && s.cs[c].pc.WaitL?
    ensures var s, s', j := ss[i], ss[i + 1], ss[i].cs[acts[i].c].pc.j;
      j < |s.ps| == |s'.ps| && (s.ps[j].state != ZOMBIE ==> s'.ps == s.ps) &&
      (s.ps[j].state == ZOMBIE ==> s'.ps[j].state == UNUSED && !s'.ps[j].killed && s'.ps[j].chan == 0) &&
      forall k :: 0 <= k < |s.ps| && k != j ==> s'.ps[k] == s.ps[k]
  {
    assert StepAt(ss, acts, i);
  }

  // ---------- wakeup() ----------

  /** n times GoOn of CPU c. */
  ghost predicate Goes(s: State, c: nat, n: nat, s': State)
    decreases n
  {
    if n == 0 then s' == s else Enabled(s, c, GoOn) && Goes(Next(s, c, GoOn), c, n - 1, s')
  }

  predicate SleepsOn(p: Proc, ch: nat) { p.state == SLEEPING && p.chan == ch }

  /** Of the processes from j on, but for process i, those asleep on ch are RUNNABLE; no other changes. */
  ghost predicate WokenFrom(ps: seq<Proc>, ps': seq<Proc>, ch: nat, j: nat, i: int) {
    |ps'| == |ps| && forall k {:trigger ps'[k]} :: 0 <= k < |ps| ==>
      ps'[k] == if j <= k && k != i && SleepsOn(ps[k], ch) then ps[k].(state := RUNNABLE, woken := true) else ps[k]
  }

  /** CPU c is at process j in wakeup(ch), and no other process lock is taken from there on. */
  ghost predicate Waking(s: State, c: nat, ch: nat, j: nat) {
    c < |s.cs| && |s.plock| == |s.ps| && s.cs[c].wk == Wake(ch, j) &&
    forall k :: j <= k < |s.ps| && k != s.cs[c].cur ==> s.plock[k] == -1
  }

  /** The three steps of wakeup() for process j. */
  lemma WakesOne(s: State, c: nat, ch: nat, j: nat) returns (s1: State, s2: State, s3: State)
    requires Waking(s, c, ch, j) && j < |s.ps| && j != s.cs[c].cur
    ensures Leads(s, Step(c, GoOn), s1) && Leads(s1, Step(c, GoOn), s2) && Leads(s2, Step(c, GoOn), s3)
    ensures s3.ps == if SleepsOn(s.ps[j], ch) then s.ps[j := s.ps[j].(state := RUNNABLE, woken := true)] else s.ps
    ensures s3.cs == s.cs[c := s.cs[c].(wk := Wake(ch, j + 1))] && s3.plock == s.plock && s3.lks == s.lks
    ensures s3.guard == s.guard && Waking(s3, c, ch, j + 1)
  {
    s1 := Next(s, c, GoOn);
    s2 := Next(s1, c, GoOn);
    s3 := Next(s2, c, GoOn);
    assert s.plock[j := c as int][j := -1] == s.plock;
  }

  /** wakeup(ch) comes to its end: the processes asleep on ch are RUNNABLE and no other changes. */
  lemma {:induction false} WakeupCompletes(s: State, c: nat, ch: nat, j: nat) returns (n: nat, s': State)
    requires Waking(s, c, ch, j)
    ensures Goes(s, c, n, s') && WokenFrom(s.ps, s'.ps, ch, j, s.cs[c].cur)
    ensures s'.cs == s.cs[c := s.cs[c].(wk := Idle)] && s'.plock == s.plock && s'.lks == s.lks && s'.guard == s.guard
    decreases |s.ps| - j
  {
    if j >= |s.ps| {
      s' := Next(s, c, GoOn);
      n := 1;
      assert Goes(s', c, 0, s');
    } else if j == s.cs[c].cur {
      var s1 := Next(s, c, GoOn);
      n, s' := WakeupCompletes(s1, c, ch, j + 1);
      assert s'.cs == s.cs[c := s.cs[c].(wk := Idle)];
      n := n + 1;
    } else {
      var s1, s2, s3 := WakesOne(s, c, ch, j);
      n, s' := WakeupCompletes(s3, c, ch, j + 1);
      assert s'.cs == s.cs[c := s.cs[c].(wk := Idle)];
      assert Goes(s2, c, n + 1, s') && Goes(s1, c, n + 2, s');
      n := n + 3;
    }
  }

  // ---------- a process sleeps and is woken ----------

  /** One CPU, two processes, and channel 0 under lock 0. */
  function Sys(p0: Proc, p1: Proc, cpu: Cpu, l0: int, l1: int, lk: int): State {
    State([p0, p1], [cpu], [l0, l1], [lk], map[0 := 0])
  }

  lemma Do(ss: seq<State>, acts: seq<Step>, w: Choice, s: State) returns (ss': seq<State>, acts': seq<Step>)
    requires IsRun(ss, acts) && Leads(ss[|acts|], Step(0, w), s)
    ensures IsRun(ss', acts') && |acts'| == |acts| + 1 && ss'[|acts'|] == s && ss <= ss' && acts <= acts'
    ensures acts'[|acts|] == Step(0, w)
  {
    ss', acts' := ss + [s], acts + [Step(0, w)];
    forall i: nat | i < |acts'| ensures StepAt(ss', acts', i) {
      if i < |acts| { assert StepAt(ss, acts, i); }
    }
  }

  function New(): Proc { Proc(RUNNABLE, 0, false, YieldC(-1), -1, false, -1) }

  function Active(): Proc { New().(state := RUNNING, on := 0) }

  function Asleep(): Proc { Proc(SLEEPING, 0, false, SleepE(0), 0, false, -1) }

  function Awake(): Proc { Proc(RUNNABLE, 0, false, SleepE(0), 0, true, -1) }

  function Scanning(j: nat): Cpu { Cpu(-1, Scan(j), Run, -1, Idle) }

  function On(i: nat, pc: Pc): Cpu { Cpu(i, Running, pc, -1, Idle) }

  /** Process 0 runs and goes to sleep on channel 0. */
  lemma FirstSleeps() returns (ss: seq<State>, acts: seq<Step>)
    ensures IsRun(ss, acts) && ss[|acts|] == Sys(Asleep(), New(), Scanning(1), -1, -1, -1)
  {
    var s := Sys(New(), New(), Scanning(0), -1, -1, -1);
    ss, acts := [s], [];
    ss, acts := Do(ss, acts, GoOn, Sys(New(), New(), Cpu(-1, Locked(0), Run, -1, Idle), 0, -1, -1));
    ss, acts := Do(ss, acts, GoOn, Sys(Active(), New(), On(0, YieldC(-1)), 0, -1, -1));
    ss, acts := Do(ss, acts, GoOn, Sys(Active(), New(), On(0, Run), -1, -1, -1));
    ss, acts := Do(ss, acts, AcquireLk(0), Sys(Active(), New(), On(0, HasLk(0)), -1, -1, 0));
    ss, acts := SleepNow(ss, acts);
  }

  lemma SleepNow(ss: seq<State>, acts: seq<Step>) returns (ss': seq<State>, acts': seq<Step>)
    requires IsRun(ss, acts) && ss[|acts|] == Sys(Active(), New(), On(0, HasLk(0)), -1, -1, 0)
    ensures IsRun(ss', acts') && ss'[|acts'|] == Sys(Asleep(), New(), Scanning(1), -1, -1, -1)
  {
    var s1, s2, s3, s4 := Sleeps(ss[|acts|], 0, 0, 0, 0);
    ss', acts' := Do(ss, acts, Sleep(0), s1);
    ss', acts' := Do(ss', acts', GoOn, s2);
    ss', acts' := Do(ss', acts', GoOn, s3);
    ss', acts' := Do(ss', acts', GoOn, s4);
    assert s4 == Sys(Asleep(), New(), Scanning(1), -1, -1, -1);
  }

  /** Process 1 runs and takes lock 0. */
  lemma SecondRuns(ss: seq<State>, acts: seq<Step>) returns (ss': seq<State>, acts': seq<Step>)
    requires IsRun(ss, acts) && ss[|acts|] == Sys(Asleep(), New(), Scanning(1), -1, -1, -1)
    ensures IsRun(ss', acts') && ss'[|acts'|] == Sys(Asleep(), Active(), On(1, HasLk(0)), -1, -1, 0)
    ensures ss <= ss' && acts <= acts'
  {
    ss', acts' := Do(ss, acts, GoOn, Sys(Asleep(), New(), Cpu(-1, Locked(1), Run, -1, Idle), -1, 0, -1));
    ss', acts' := Do(ss', acts', GoOn, Sys(Asleep(), Active(), On(1, YieldC(-1)), -1, 0, -1));
    ss', acts' := Do(ss', acts', GoOn, Sys(Asleep(), Active(), On(1, Run), -1, -1, -1));
    ss', acts' := Do(ss', acts', AcquireLk(0), Sys(Asleep(), Active(), On(1, HasLk(0)), -1, -1, 0));
  }

  function WakingCpu(wk: Wk): Cpu { Cpu(1, Running, HasLk(0), -1, wk) }

  /** It calls wakeup(0). */
  lemma SecondWakes(ss: seq<State>, acts: seq<Step>) returns (ss': seq<State>, acts': seq<Step>)
    requires IsRun(ss, acts) && ss[|acts|] == Sys(Asleep(), Active(), On(1, HasLk(0)), -1, -1, 0)
    ensures IsRun(ss', acts') && ss'[|acts'|] == Sys(Awake(), Active(), On(1, HasLk(0)), -1, -1, 0)
    ensures ss <= ss' && acts < acts' && acts'[|acts|] == Step(0, Wakeup(0))
  {
    ss', acts' := Do(ss, acts, Wakeup(0), Sys(Asleep(), Active(), WakingCpu(Wake(0, 0)), -1, -1, 0));
    ss', acts' := Do(ss', acts', GoOn, Sys(Asleep(), Active(), WakingCpu(WakeL(0, 0)), 0, -1, 0));
    ss', acts' := Do(ss', acts', GoOn, Sys(Awake(), Active(), WakingCpu(WakeU(0, 0)), 0, -1, 0));
    ss', acts' := Do(ss', acts', GoOn, Sys(Awake(), Active(), WakingCpu(Wake(0, 1)), -1, -1, 0));
    ss', acts' := Do(ss', acts', GoOn, Sys(Awake(), Active(), WakingCpu(Wake(0, 2)), -1, -1, 0));
    ss', acts' := Do(ss', acts', GoOn, Sys(Awake(), Active(), On(1, HasLk(0)), -1, -1, 0));
  }

  /** It gives the lock back and yields, and the scheduler begins again. */
  lemma SecondYields(ss: seq<State>, acts: seq<Step>) returns (ss': seq<State>, acts': seq<Step>)
    requires IsRun(ss, acts) && ss[|acts|] == Sys(Awake(), Active(), On(1, HasLk(0)), -1, -1, 0)
    ensures IsRun(ss', acts') && ss'[|acts'|] == Sys(Awake(), New(), Scanning(0), -1, -1, -1)
    ensures ss <= ss' && acts <= acts'
  {
    ss', acts' := Do(ss, acts, ReleaseLk, Sys(Awake(), Active(), On(1, Run), -1, -1, -1));
    ss', acts' := Do(ss', acts', Yield, Sys(Awake(), Active(), On(1, YieldA(-1)), -1, 0, -1));
    ss', acts' := SecondLeaves(ss', acts');
  }

  lemma SecondLeaves(ss: seq<State>, acts: seq<Step>) returns (ss': seq<State>, acts': seq<Step>)
    requires IsRun(ss, acts) && ss[|acts|] == Sys(Awake(), Active(), On(1, YieldA(-1)), -1, 0, -1)
    ensures IsRun(ss', acts') && ss'[|acts'|] == Sys(Awake(), New(), Scanning(0), -1, -1, -1)
    ensures ss <= ss' && acts <= acts'
  {
    ss', acts' := Do(ss, acts, GoOn, Sys(Awake(), New().(on := 0), Cpu(1, Back, YieldA(-1), -1, Idle), -1, 0, -1));
    ss', acts' := Do(ss', acts', GoOn, Sys(Awake(), New(), Scanning(2), -1, -1, -1));
    ss', acts' := Do(ss', acts', GoOn, Sys(Awake(), New(), Scanning(0), -1, -1, -1));
  }

  /** Process 0 goes on in sleep() and takes lock 0 again. */
  lemma FirstGoesOn(ss: seq<State>, acts: seq<Step>) returns (ss': seq<State>, acts': seq<Step>)
    requires IsRun(ss, acts) && ss[|acts|] == Sys(Awake(), New(), Scanning(0), -1, -1, -1)
    ensures IsRun(ss', acts') && ss <= ss' && acts <= acts'
    ensures Runs(ss'[|acts'|], 0, 0, HasLk(0)) && ss'[|acts'|].lks == [0] && ss'[|acts'|].ps[0].state == RUNNING
  {
    var p := Awake().(state := RUNNING, on := 0);
    ss', acts' := Do(ss, acts, GoOn, Sys(Awake(), New(), Cpu(-1, Locked(0), Run, -1, Idle), 0, -1, -1));
    ss', acts' := Do(ss', acts', GoOn, Sys(p, New(), On(0, SleepE(0)), 0, -1, -1));
    ss', acts' := Do(ss', acts', GoOn, Sys(p.(wait := -1), New(), On(0, WantLk(0)), -1, -1, -1));
    ss', acts' := Do(ss', acts', GoOn, Sys(p.(wait := -1), New(), On(0, HasLk(0)), -1, -1, 0));
  }

  /** There is a run in which process 0 goes to sleep on channel 0 (in state i), process 1 calls
      wakeup(0) (in step j), and at the end process 0 goes on with the channel's lock held again. */
  lemma SleepsAndGoesOn() returns (ss: seq<State>, acts: seq<Step>, i: nat, j: nat)
    ensures IsRun(ss, acts) && i <= j < |acts| && |ss[i].ps| == 2
    ensures SleepsOn(ss[i].ps[0], 0) && ss[i].ps[0].on == -1 && ss[i].lks == [-1]
    ensures Runs(ss[j], 0, 1, HasLk(0)) && acts[j] == Step(0, Wakeup(0))
    ensures Runs(ss[|acts|], 0, 0, HasLk(0)) && ss[|acts|].lks == [0] && ss[|acts|].ps[0].state == RUNNING
  {
    ss, acts := FirstSleeps();
    i := |acts|;
    ss, acts := SecondRuns(ss, acts);
    j := |acts|;
    ss, acts := SecondWakes(ss, acts);
    ss, acts := SecondYields(ss, acts);
    ss, acts := FirstGoesOn(ss, acts);
  }
}
