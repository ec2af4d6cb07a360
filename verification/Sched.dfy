/** The scheduler and sleep/wakeup of proc.c as interleaved steps of any number of CPUs over any
    number of processes, condition locks and channels.  A step is what one CPU does between two
    lock operations; spinlocks are held by CPUs.  What a process does at the moment is kept with
    the CPU that runs it.  An interrupt handler may run wherever a CPU holds no lock. */
module Sched {

  datatype PState = UNUSED | SLEEPING | RUNNABLE | RUNNING | ZOMBIE

  /** Where a running process is in the kernel. */
  datatype Pc =
    | Run                          // holds no lock
    | HasLk(l: nat)                // holds condition lock l
    | SleepA(ch: nat)              // in sleep(ch, lk): holds lk and p->lock
    | SleepB(ch: nat)              // has released lk, holds p->lock
    | SleepE(l: nat)               // back from sched() in sleep(): holds p->lock
    | WantLk(l: nat)               // end of sleep(): lk to be acquired again
    | YieldA(back: int)            // in yield(): holds p->lock; back is the lock still wanted, or -1
    | YieldC(back: int)            // back from sched() in yield(): holds p->lock
    | KillL(j: nat)                // in kill(): holds process j's lock
    | KillU(j: nat)
    | WaitL(l: nat, j: nat)        // in wait(): holds l and process j's lock
    | WaitU(l: nat, j: nat)
    | ExitA(l: nat)                // in exit(): holds l and p->lock
    | ExitB                        // is a zombie, has released l, holds p->lock

  /** A call of wakeup(ch), made with ch's lock held. */
  datatype Wk =
    | Idle
    | Wake(ch: nat, j: nat)        // process j is next
    | WakeL(ch: nat, j: nat)       // holds process j's lock
    | WakeU(ch: nat, j: nat)       // has looked at process j, still holds its lock

  /** saved is where the process goes on; wait is the channel it released a lock to wait for (-1
      if none), woken whether it was made runnable since; on is the CPU that has it (-1 if none). */
  datatype Proc = Proc(state: PState, chan: int, killed: bool, saved: Pc, wait: int, woken: bool, on: int)

  datatype SchedPc = Scan(j: nat) | Locked(j: nat) | Running | Back

  /** cur is c->proc; hl is the lock an interrupt handler on this CPU holds, -1 if none runs. */
  datatype Cpu = Cpu(cur: int, sc: SchedPc, pc: Pc, hl: int, wk: Wk)

  /** plock are the process locks, lks the condition locks; guard says which of them goes with a
      channel. */
  datatype State = State(ps: seq<Proc>, cs: seq<Cpu>, plock: seq<int>, lks: seq<int>, guard: map<nat, nat>)

  /** What CPU c, or the process on it, does next, where there is a choice. */
  datatype Choice =
    | GoOn | Pass | Yield | AcquireLk(l: nat) | ReleaseLk | Sleep(ch: nat) | Wakeup(ch: nat)
    | Kill(j: nat) | Look(j: nat) | Exit | Interrupt(l: nat)

  // ---------- steps ----------

  predicate Free(locks: seq<int>, j: int) { 0 <= j < |locks| && locks[j] == -1 }

  predicate Guards(s: State, ch: nat, l: int) { ch in s.guard && s.guard[ch] == l }

  /** The condition lock with which wakeup() can be called now, -1 if none. */
  function Held(cpu: Cpu): int {
    if cpu.hl >= 0 then cpu.hl else if cpu.sc == Running && cpu.pc.HasLk? then cpu.pc.l else -1
  }

  /** Interrupts may be on. */
  predicate Interruptible(cpu: Cpu) {
    cpu.sc.Scan? || (cpu.sc == Running && (cpu.pc.Run? || cpu.pc.WantLk?))
  }

  /** One step of CPU c: in wakeup(), in a handler, in scheduler(), or of the process it runs. */
  predicate Enabled(s: State, c: nat, w: Choice) {
    c < |s.cs| && |s.plock| == |s.ps| &&
    var cpu := s.cs[c];
    if cpu.wk != Idle then w == GoOn && WakeEnabled(s, cpu)
    else if w.Wakeup? then Held(cpu) >= 0 && Guards(s, w.ch, Held(cpu))
    else if cpu.hl >= 0 then w == ReleaseLk && cpu.hl < |s.lks|
    else if w.Interrupt? then Interruptible(cpu) && Free(s.lks, w.l)
    else match cpu.sc
      case Scan(j) => j >= |s.ps| || Free(s.plock, j)
      case Locked(j) => j < |s.ps|
      case Back => 0 <= cpu.cur < |s.ps|
      case Running => 0 <= cpu.cur < |s.ps| && ThreadEnabled(s, cpu.cur, cpu.pc, w)
  }

  predicate WakeEnabled(s: State, cpu: Cpu)
    requires cpu.wk != Idle && |s.plock| == |s.ps|
  {
    if cpu.wk.Wake? then cpu.wk.j < |s.ps| && cpu.wk.j != cpu.cur ==> Free(s.plock, cpu.wk.j) else cpu.wk.j < |s.ps|
  }

  predicate ThreadEnabled(s: State, i: nat, pc: Pc, w: Choice)
    requires i < |s.ps| == |s.plock|
  {
    match pc
    case Run =>
      (w.AcquireLk? && Free(s.lks, w.l)) || (w == Yield && Free(s.plock, i)) || (w.Kill? && Free(s.plock, w.j))
    case HasLk(l) =>
      l < |s.lks| && (w == ReleaseLk || (w.Sleep? && Guards(s, w.ch, l) && Free(s.plock, i)) ||
      (w == Exit && Free(s.plock, i)) || (w.Look? && w.j != i && Free(s.plock, w.j)))
    case SleepA(ch) => w == GoOn && ch in s.guard && s.guard[ch] < |s.lks|
    case SleepB(ch) => w == GoOn && ch in s.guard
    case WantLk(l) => (w == GoOn && Free(s.lks, l)) || (w == Yield && Free(s.plock, i))
    case KillL(j) => (w == GoOn || w == Pass) && j < |s.ps|
    case KillU(j) => w == GoOn && j < |s.ps|
    case WaitL(_, j) => (w == GoOn || w == Pass) && j < |s.ps|
    case WaitU(_, j) => w == GoOn && j < |s.ps|
    case ExitA(l) => w == GoOn && l < |s.lks|
    case _ => w == GoOn
  }

  function Next(s: State, c: nat, w: Choice): State
    requires Enabled(s, c, w)
  {
    var cpu := s.cs[c];
    if cpu.wk != Idle then WakeNext(s, c)
    else if w.Wakeup? then At(s, c, cpu.(wk := Wake(w.ch, 0)))
    else if cpu.hl >= 0 then Lk(At(s, c, cpu.(hl := -1)), cpu.hl, -1)
    else if w.Interrupt? then Lk(At(s, c, cpu.(hl := w.l)), w.l, c)
    else match cpu.sc
      case Running => ThreadNext(s, c, cpu.cur, cpu.pc, w)
      case _ => SchedulerNext(s, c)
  }

  function SchedulerNext(s: State, c: nat): State
    requires c < |s.cs| && s.cs[c].wk == Idle && s.cs[c].hl < 0 && s.cs[c].sc != Running && Enabled(s, c, GoOn)
  {
    var cpu := s.cs[c];
    match cpu.sc
    case Scan(j) => if j >= |s.ps| then At(s, c, cpu.(sc := Scan(0))) else Lock(At(s, c, cpu.(sc := Locked(j))), j, c)
    case Locked(j) =>
      if s.ps[j].state == RUNNABLE then
        Put(At(s, c, cpu.(cur := j, sc := Running, pc := s.ps[j].saved)), j, s.ps[j].(state := RUNNING, on := c))
      else Lock(At(s, c, cpu.(sc := Scan(j + 1))), j, -1)
    case Back =>
      Lock(Put(At(s, c, cpu.(cur := -1, sc := Scan(cpu.cur + 1), pc := Run)), cpu.cur, s.ps[cpu.cur].(on := -1)),
           cpu.cur, -1)
    case _ => s
  }

  /** The loop of wakeup(). */
  function WakeNext(s: State, c: nat): State
    requires c < |s.cs| && |s.plock| == |s.ps| && s.cs[c].wk != Idle && WakeEnabled(s, s.cs[c])
  {
    var cpu := s.cs[c];
    match cpu.wk
    case Wake(ch, j) =>
      if j >= |s.ps| then At(s, c, cpu.(wk := Idle))
      else if j == cpu.cur then At(s, c, cpu.(wk := Wake(ch, j + 1)))
      else Lock(At(s, c, cpu.(wk := WakeL(ch, j))), j, c)
    case WakeL(ch, j) =>
      var s' := At(s, c, cpu.(wk := WakeU(ch, j)));
      if s.ps[j].state == SLEEPING && s.ps[j].chan == ch then Put(s', j, Woken(s.ps[j])) else s'
    case WakeU(ch, j) => Lock(At(s, c, cpu.(wk := Wake(ch, j + 1))), j, -1)
  }

  function ThreadNext(s: State, c: nat, i: nat, pc: Pc, w: Choice): State
    requires c < |s.cs| && i < |s.ps| == |s.plock| && ThreadEnabled(s, i, pc, w)
  {
    var p := s.ps[i];
    match pc
    case Run =>
      if w.AcquireLk? then Lk(To(s, c, HasLk(w.l)), w.l, c)
      else if w.Kill? then Lock(To(s, c, KillL(w.j)), w.j, c)
      else Lock(To(s, c, YieldA(-1)), i, c)
    case HasLk(l) =>
      if w.Sleep? then Lock(To(s, c, SleepA(w.ch)), i, c)
      else if w == Exit then Lock(To(s, c, ExitA(l)), i, c)
      else if w.Look? then Lock(To(s, c, WaitL(l, w.j)), w.j, c)
      else Lk(To(s, c, Run), l, -1)
    case SleepA(ch) => Lk(Put(To(s, c, SleepB(ch)), i, p.(wait := ch, woken := false)), s.guard[ch], -1)
    case SleepB(ch) => Swtch(s, c, i, p.(chan := ch, state := SLEEPING, saved := SleepE(s.guard[ch])))
    case SleepE(l) => Lock(Put(To(s, c, WantLk(l)), i, p.(chan := 0, wait := -1)), i, -1)
    case WantLk(l) => if w == Yield then Lock(To(s, c, YieldA(l)), i, c) else Lk(To(s, c, HasLk(l)), l, c)
    case YieldA(back) => Swtch(s, c, i, p.(state := RUNNABLE, saved := YieldC(back)))
    case YieldC(back) => Lock(To(s, c, if back >= 0 then WantLk(back) else Run), i, -1)
    case KillL(j) => if w == Pass then To(s, c, KillU(j)) else Put(To(s, c, KillU(j)), j, Killed(s.ps[j]))
    case KillU(j) => Lock(To(s, c, Run), j, -1)
    case WaitL(l, j) =>
      if w == GoOn && s.ps[j].state == ZOMBIE then Put(To(s, c, WaitU(l, j)), j, Reaped(s.ps[j]))
      else To(s, c, WaitU(l, j))
    case WaitU(l, j) => Lock(To(s, c, HasLk(l)), j, -1)
    case ExitA(l) => Lk(Put(To(s, c, ExitB), i, p.(state := ZOMBIE)), l, -1)
    case ExitB => Swtch(s, c, i, p)
  }

  function Woken(p: Proc): Proc { p.(state := RUNNABLE, woken := true) }

  function Killed(p: Proc): Proc {
    if p.state == SLEEPING then Woken(p.(killed := true)) else p.(killed := true)
  }

  /** freeproc(). */
  function Reaped(p: Proc): Proc { p.(state := UNUSED, chan := 0, killed := false) }

  function At(s: State, c: nat, cpu: Cpu): State
    requires c < |s.cs|
  {
    s.(cs := s.cs[c := cpu])
  }

  function To(s: State, c: nat, pc: Pc): State
    requires c < |s.cs|
  {
    At(s, c, s.cs[c].(pc := pc))
  }

  function Put(s: State, i: nat, p: Proc): State
    requires i < |s.ps|
  {
    s.(ps := s.ps[i := p])
  }

  function Lock(s: State, j: nat, holder: int): State
    requires j < |s.plock|
  {
    s.(plock := s.plock[j := holder])
  }

  function Lk(s: State, l: nat, holder: int): State
    requires l < |s.lks|
  {
    s.(lks := s.lks[l := holder])
  }

  /** sched(): the CPU goes on in scheduler(), still holding p->lock. */
  function Swtch(s: State, c: nat, i: nat, p: Proc): State
    requires c < |s.cs| && i < |s.ps|
  {
    Put(At(s, c, s.cs[c].(sc := Back)), i, p)
  }

  // ---------- the invariant ----------

  ghost predicate Holds(locks: seq<int>, l: int, c: nat) { 0 <= l < |locks| && locks[l] == c }

  ghost predicate PcOk(s: State, c: nat, i: nat, pc: Pc)
    requires i < |s.ps| == |s.plock|
  {
    match pc
    case Run => true
    case HasLk(l) => Holds(s.lks, l, c)
    case SleepA(ch) => ch in s.guard && Holds(s.lks, s.guard[ch], c) && s.plock[i] == c
    case SleepB(ch) => ch in s.guard && s.plock[i] == c && s.ps[i].wait == ch && !s.ps[i].woken
    case SleepE(l) => s.plock[i] == c && s.ps[i].woken
    case WantLk(l) => true
    case YieldA(_) => s.plock[i] == c
    case YieldC(_) => s.plock[i] == c
    case KillL(j) => Holds(s.plock, j, c)
    case KillU(j) => Holds(s.plock, j, c)
    case WaitL(l, j) => Holds(s.lks, l, c) && Holds(s.plock, j, c) && j != i
    case WaitU(l, j) => Holds(s.lks, l, c) && Holds(s.plock, j, c) && j != i
    case ExitA(l) => Holds(s.lks, l, c) && s.plock[i] == c
    case ExitB => s.plock[i] == c
  }

  /** Of the first j processes, those that wait on ch have been woken. */
  ghost predicate Scanned(ps: seq<Proc>, ch: nat, j: int, i: int) {
    forall k :: 0 <= k < j && k < |ps| && k != i && ps[k].wait == ch ==> ps[k].woken
  }

  /** CPU c is in wakeup(), holds the channel's lock and, where it looks at a process, that one's. */
  ghost predicate WkOk(s: State, c: nat, cpu: Cpu) {
    match cpu.wk
    case Idle => true
    case Wake(ch, j) => Guards(s, ch, Held(cpu)) && Scanned(s.ps, ch, j, cpu.cur)
    case WakeL(ch, j) =>
      Guards(s, ch, Held(cpu)) && Holds(s.plock, j, c) && j != cpu.cur && Scanned(s.ps, ch, j, cpu.cur)
    case WakeU(ch, j) =>
      Guards(s, ch, Held(cpu)) && Holds(s.plock, j, c) && j != cpu.cur && Scanned(s.ps, ch, j + 1, cpu.cur)
  }

  predicate Waits(pc: Pc) { pc.SleepB? || pc.SleepE? }

  /** The process lock, if any, that a CPU holds at this point. */
  predicate MayHold(cpu: Cpu, l: int) {
    if cpu.wk.WakeL? || cpu.wk.WakeU? then l == cpu.wk.j
    else match cpu.sc
      case Scan(_) => false
      case Locked(j) => l == j
      case Back => l == cpu.cur
      case Running =>
        match cpu.pc {
          case Run => false
          case HasLk(_) => false
          case WantLk(_) => false
          case KillL(j) => l == j
          case KillU(j) => l == j
          case WaitL(_, j) => l == j
          case WaitU(_, j) => l == j
          case _ => l == cpu.cur
        }
  }

  /** The condition lock, if any, that a CPU holds at this point. */
  predicate MayHoldLk(s: State, cpu: Cpu, l: int) {
    if cpu.hl >= 0 then l == cpu.hl else if cpu.sc != Running then false
    else match cpu.pc
      case HasLk(m) => l == m
      case SleepA(ch) => Guards(s, ch, l)
      case WaitL(m, _) => l == m
      case WaitU(m, _) => l == m
      case ExitA(m) => l == m
      case _ => false
  }

  /** CPU c holds no lock but these. */
  ghost predicate HoldsOnly(s: State, c: nat)
    requires c < |s.cs|
  {
    (forall l :: 0 <= l < |s.plock| && s.plock[l] == c ==> MayHold(s.cs[c], l)) &&
    forall l :: 0 <= l < |s.lks| && s.lks[l] == c ==> MayHoldLk(s, s.cs[c], l)
  }

  ghost predicate RunsOk(s: State, c: nat, i: nat, pc: Pc)
    requires i < |s.ps| == |s.plock|
  {
    s.ps[i].on == c && s.ps[i].state == (if pc.ExitB? then ZOMBIE else RUNNING) && (Waits(pc) || s.ps[i].wait == -1) &&
    PcOk(s, c, i, pc)
  }

  ghost predicate CpuOk(s: State, c: nat) {
    c < |s.cs| && |s.plock| == |s.ps| && HoldsOnly(s, c) &&
    var cpu := s.cs[c];
    cpu.hl >= -1 && (cpu.hl >= 0 ==> Holds(s.lks, cpu.hl, c) && Interruptible(cpu)) && WkOk(s, c, cpu) &&
    match cpu.sc
    case Scan(j) => cpu.cur == -1
    case Locked(j) => cpu.cur == -1 && Holds(s.plock, j, c)
    case Running => 0 <= cpu.cur < |s.ps| && RunsOk(s, c, cpu.cur, cpu.pc)
    case Back =>
      0 <= cpu.cur < |s.ps| && s.ps[cpu.cur].on == c && s.ps[cpu.cur].state != RUNNING && s.plock[cpu.cur] == c
  }

  /** A process that waits and was not woken sleeps on its channel, or is about to, with its lock
      held; a process that no CPU has goes on where it left off. */
  ghost predicate ProcOk(s: State, k: nat) {
    k < |s.ps| &&
    var p := s.ps[k];
    -1 <= p.on < |s.cs| && p.wait >= -1 && (p.on >= 0 ==> s.cs[p.on].cur == k) && (p.on == -1 ==> p.state != RUNNING) &&
    (p.wait >= 0 ==> p.wait in s.guard) &&
    (p.state == SLEEPING ==> p.wait >= 0 && !p.woken && p.chan == p.wait) &&
    (p.wait >= 0 && !p.woken ==> p.state == SLEEPING || AboutToSleep(s, p)) &&
    (p.state == SLEEPING || p.state == RUNNABLE ==>
      if p.wait >= 0 then p.saved == SleepE(s.guard[p.wait]) else p.saved.YieldC?)
  }

  ghost predicate AboutToSleep(s: State, p: Proc) {
    0 <= p.on < |s.cs| && s.cs[p.on].sc == Running && p.wait >= 0 && s.cs[p.on].pc == SleepB(p.wait)
  }

  ghost predicate Inv(s: State) {
    |s.plock| == |s.ps| && (forall c: nat {:trigger CpuOk(s, c)} :: c < |s.cs| ==> CpuOk(s, c)) &&
    forall k: nat {:trigger ProcOk(s, k)} :: k < |s.ps| ==> ProcOk(s, k)
  }

  // ---------- steps are local ----------

  /** CPU c may take or give back this lock. */
  ghost predicate LockStep(locks: seq<int>, locks': seq<int>, c: nat) {
    |locks| == |locks'| &&
    forall l {:trigger locks'[l]} :: 0 <= l < |locks| && locks'[l] != locks[l] ==>
      (locks[l] == -1 || locks[l] == c) && (locks'[l] == -1 || locks'[l] == c)
  }

  /** CPU c changed itself, at most process i (-1 if none), which no other CPU has unless it was
      only marked killed, and locks that no other CPU holds. */
  ghost predicate Local(s: State, s': State, c: nat, i: int) {
    c < |s.cs| == |s'.cs| && |s.ps| == |s'.ps| == |s.plock| && -1 <= i < |s.ps| && s'.guard == s.guard &&
    (forall d :: 0 <= d < |s.cs| && d != c ==> s'.cs[d] == s.cs[d]) &&
    (forall k :: 0 <= k < |s.ps| && k != i ==> s'.ps[k] == s.ps[k]) &&
    LockStep(s.plock, s'.plock, c) && LockStep(s.lks, s'.lks, c) &&
    (i >= 0 ==>
      (s.ps[i].on == -1 || s.ps[i].on == c || s'.ps[i] == s.ps[i].(killed := true)) && KeepsQuiet(s, s'.ps[i], c, i)) &&
    (s'.cs[c].cur == s.cs[c].cur || s.cs[c].cur == -1 || s.cs[c].cur == i) &&
    (s.cs[c].sc == Running && s.cs[c].pc.SleepB? ==> i == s.cs[c].cur || s'.cs[c] == s.cs[c])
  }

  /** Nobody starts to wait on a channel without its lock. */
  ghost predicate KeepsQuiet(s: State, p: Proc, c: nat, i: nat)
    requires i < |s.ps|
  {
    p.wait == -1 || (p.wait == s.ps[i].wait && (s.ps[i].woken ==> p.woken)) ||
    (p.wait >= 0 && p.wait in s.guard && Holds(s.lks, s.guard[p.wait], c))
  }

  lemma FrameScanned(s: State, s': State, c: nat, i: int, d: nat, ch: nat, n: int, m: int)
    requires Local(s, s', c, i) && d != c && ch in s.guard && Holds(s.lks, s.guard[ch], d) && Scanned(s.ps, ch, n, m)
    ensures Scanned(s'.ps, ch, n, m)
  {
  }

  /** A CPU in wakeup() holds the lock it was called with. */
  lemma HeldHolds(s: State, d: nat)
    requires CpuOk(s, d) && Held(s.cs[d]) >= 0
    ensures Holds(s.lks, Held(s.cs[d]), d)
  {
  }

  lemma FrameWk(s: State, s': State, c: nat, i: int, d: nat)
    requires Local(s, s', c, i) && CpuOk(s, d) && d != c && s.cs[d].wk != Idle
    ensures WkOk(s', d, s'.cs[d])
  {
    var cpu := s.cs[d];
    HeldHolds(s, d);
    FrameScanned(s, s', c, i, d, cpu.wk.ch, if cpu.wk.WakeU? then cpu.wk.j + 1 else cpu.wk.j, cpu.cur);
  }

  lemma FrameHolds(s: State, s': State, c: nat, i: int, d: nat)
    requires Local(s, s', c, i) && d != c && d < |s.cs| && HoldsOnly(s, d)
    ensures HoldsOnly(s', d)
  {
    forall l | 0 <= l < |s'.lks| && s'.lks[l] == d ensures MayHoldLk(s', s'.cs[d], l) { assert s.lks[l] == d; }
  }

  lemma FrameRuns(s: State, s': State, c: nat, i: int, d: nat, k: nat, pc: Pc)
    requires Local(s, s', c, i) && d != c && k < |s.ps| && RunsOk(s, d, k, pc)
    ensures |s'.ps| == |s'.plock| && RunsOk(s', d, k, pc)
  {
  }

  lemma FrameCpu(s: State, s': State, c: nat, i: int, d: nat)
    requires Local(s, s', c, i) && CpuOk(s, d) && d != c
    ensures CpuOk(s', d)
  {
    FrameHolds(s, s', c, i, d);
    if s.cs[d].wk != Idle { FrameWk(s, s', c, i, d); }
    if s.cs[d].sc == Running { FrameRuns(s, s', c, i, d, s.cs[d].cur, s.cs[d].pc); }
  }

  lemma FrameProc(s: State, s': State, c: nat, i: int, k: nat)
    requires Local(s, s', c, i) && ProcOk(s, k) && CpuOk(s, c) && k != i
    ensures ProcOk(s', k)
  {
  }

  lemma LocalStep(s: State, s': State, c: nat, i: int)
    requires Inv(s) && Local(s, s', c, i) && CpuOk(s', c) && (i >= 0 ==> ProcOk(s', i))
    ensures Inv(s')
  {
    assert CpuOk(s, c);
    forall d: nat | d < |s'.cs| ensures CpuOk(s', d) {
      if d != c { assert CpuOk(s, d); FrameCpu(s, s', c, i, d); }
    }
    forall k: nat | k < |s'.ps| ensures ProcOk(s', k) {
      if k != i { assert ProcOk(s, k); FrameProc(s, s', c, i, k); }
    }
  }

  // ---------- every step keeps the invariant ----------

  lemma ScanKeepsInv(s: State, c: nat)
    requires Inv(s) && c < |s.cs| && Enabled(s, c, GoOn) && s.cs[c].wk == Idle && s.cs[c].hl < 0 && s.cs[c].sc.Scan?
    ensures Inv(SchedulerNext(s, c))
  {
    assert CpuOk(s, c);
    LocalStep(s, SchedulerNext(s, c), c, -1);
  }

  /** A process that is not RUNNING and whose lock CPU c holds is on no other CPU. */
  lemma OffCpu(s: State, c: nat, j: nat)
    requires Inv(s) && c < |s.cs| && Holds(s.plock, j, c) && s.ps[j].state != RUNNING && j != s.cs[c].cur
    ensures ProcOk(s, j) && s.ps[j].on == -1
  {
    assert ProcOk(s, j) && CpuOk(s, c);
    assert s.ps[j].on >= 0 ==> CpuOk(s, s.ps[j].on);
  }

  lemma PickKeepsInv(s: State, c: nat)
    requires Inv(s) && c < |s.cs| && Enabled(s, c, GoOn) && s.cs[c].wk == Idle && s.cs[c].hl < 0 && s.cs[c].sc.Locked?
    ensures Inv(SchedulerNext(s, c))
  {
    assert CpuOk(s, c);
    var j := s.cs[c].sc.j;
    if s.ps[j].state == RUNNABLE {
      OffCpu(s, c, j);
      LocalStep(s, SchedulerNext(s, c), c, j);
    } else {
      LocalStep(s, SchedulerNext(s, c), c, -1);
    }
  }

  lemma BackKeepsInv(s: State, c: nat)
    requires Inv(s) && c < |s.cs| && Enabled(s, c, GoOn) && s.cs[c].wk == Idle && s.cs[c].hl < 0 && s.cs[c].sc == Back
    ensures Inv(SchedulerNext(s, c))
  {
    assert CpuOk(s, c);
    assert ProcOk(s, s.cs[c].cur);
    LocalStep(s, SchedulerNext(s, c), c, s.cs[c].cur);
  }

  /** Under the process's lock, a waiter is asleep on its channel or has been woken: there is no
      moment at which the wakeup could miss it. */
  lemma WakerSees(s: State, c: nat, j: nat)
    requires Inv(s) && c < |s.cs| && Holds(s.plock, j, c) && j != s.cs[c].cur
    ensures ProcOk(s, j) &&
      (s.ps[j].wait >= 0 && !s.ps[j].woken ==> s.ps[j].state == SLEEPING && s.ps[j].chan == s.ps[j].wait)
  {
    assert ProcOk(s, j);
    assert s.ps[j].on >= 0 ==> CpuOk(s, s.ps[j].on);
  }

  lemma WakeNextKeepsInv(s: State, c: nat)
    requires Inv(s) && Enabled(s, c, GoOn) && s.cs[c].wk.Wake?
    ensures Inv(WakeNext(s, c))
  {
    assert CpuOk(s, c);
    LocalStep(s, WakeNext(s, c), c, -1);
  }

  lemma WakeDoneKeepsInv(s: State, c: nat)
    requires Inv(s) && Enabled(s, c, GoOn) && s.cs[c].wk.WakeU?
    ensures Inv(WakeNext(s, c))
  {
    assert CpuOk(s, c);
    LocalStep(s, WakeNext(s, c), c, -1);
  }

  lemma WakeOneKeepsInv(s: State, c: nat)
    requires Inv(s) && Enabled(s, c, GoOn) && s.cs[c].wk.WakeL?
    ensures Inv(WakeNext(s, c))
  {
    assert CpuOk(s, c);
    var ch, j := s.cs[c].wk.ch, s.cs[c].wk.j;
    if s.ps[j].state == SLEEPING && s.ps[j].chan == ch {
      WokeKeepsInv(s, c, ch, j);
    } else {
      LeftKeepsInv(s, c, ch, j);
    }
  }

  /** A sleeper on the channel is made runnable. */
  lemma WokeKeepsInv(s: State, c: nat, ch: nat, j: nat)
    requires Inv(s) && Enabled(s, c, GoOn) && s.cs[c].wk == WakeL(ch, j) && s.ps[j].state == SLEEPING &&
      s.ps[j].chan == ch
    ensures Inv(WakeNext(s, c))
  {
    assert CpuOk(s, c);
    OffCpu(s, c, j);
    LocalStep(s, WakeNext(s, c), c, j);
  }

  /** Any other process does not wait on the channel, or was woken before. */
  lemma LeftKeepsInv(s: State, c: nat, ch: nat, j: nat)
    requires Inv(s) && Enabled(s, c, GoOn) && s.cs[c].wk == WakeL(ch, j) &&
      !(s.ps[j].state == SLEEPING && s.ps[j].chan == ch)
    ensures Inv(WakeNext(s, c))
  {
    assert CpuOk(s, c);
    WakerSees(s, c, j);
    LocalStep(s, WakeNext(s, c), c, -1);
  }

  lemma HandlerKeepsInv(s: State, c: nat, w: Choice)
    requires Inv(s) && Enabled(s, c, w) && s.cs[c].wk == Idle && (w.Wakeup? || s.cs[c].hl >= 0 || w.Interrupt?)
    ensures Inv(Next(s, c, w))
  {
    assert CpuOk(s, c);
    LocalStep(s, Next(s, c, w), c, -1);
  }

  /** What is known of the process that CPU c runs. */
  lemma Current(s: State, c: nat)
    requires Inv(s) && c < |s.cs| && s.cs[c].sc == Running
    ensures CpuOk(s, c) && 0 <= s.cs[c].cur < |s.ps| && ProcOk(s, s.cs[c].cur)
  {
    assert CpuOk(s, c);
    assert ProcOk(s, s.cs[c].cur);
  }

  /** CPU c runs its process, and no handler. */
  ghost predicate OwnStep(s: State, c: nat, w: Choice) {
    Enabled(s, c, w) && s.cs[c].sc == Running && s.cs[c].wk == Idle && s.cs[c].hl < 0 && !w.Wakeup? && !w.Interrupt?
  }

  lemma PlainKeepsInv(s: State, c: nat, w: Choice)
    requires Inv(s) && OwnStep(s, c, w)
    requires var pc := s.cs[c].pc; pc.Run? || pc.WantLk?
    ensures Inv(Next(s, c, w))
  {
    Current(s, c);
    LocalStep(s, Next(s, c, w), c, -1);
  }

  lemma UnlockKeepsInv(s: State, c: nat, w: Choice)
    requires Inv(s) && OwnStep(s, c, w)
    requires var pc := s.cs[c].pc; pc.YieldC? || pc.KillU? || pc.WaitU?
    ensures Inv(Next(s, c, w))
  {
    Current(s, c);
    LocalStep(s, Next(s, c, w), c, -1);
  }

  lemma LockedKeepsInv(s: State, c: nat, w: Choice)
    requires Inv(s) && OwnStep(s, c, w) && s.cs[c].pc.HasLk?
    ensures Inv(Next(s, c, w))
  {
    Current(s, c);
    LocalStep(s, Next(s, c, w), c, -1);
  }

  lemma SleepKeepsInv(s: State, c: nat, w: Choice)
    requires Inv(s) && OwnStep(s, c, w)
    requires var pc := s.cs[c].pc; pc.SleepA? || pc.SleepB? || pc.SleepE?
    ensures Inv(Next(s, c, w))
  {
    Current(s, c);
    LocalStep(s, Next(s, c, w), c, s.cs[c].cur);
  }

  lemma LeaveKeepsInv(s: State, c: nat, w: Choice)
    requires Inv(s) && OwnStep(s, c, w)
    requires var pc := s.cs[c].pc; pc.YieldA? || pc.ExitA? || pc.ExitB?
    ensures Inv(Next(s, c, w))
  {
    Current(s, c);
    LocalStep(s, Next(s, c, w), c, s.cs[c].cur);
  }

  lemma KillKeepsInv(s: State, c: nat, w: Choice)
    requires Inv(s) && OwnStep(s, c, w) && s.cs[c].pc.KillL?
    ensures Inv(Next(s, c, w))
  {
    Current(s, c);
    var j := s.cs[c].pc.j;
    assert ProcOk(s, j);
    if s.ps[j].state == SLEEPING { OffCpu(s, c, j); }
    LocalStep(s, Next(s, c, w), c, if w == Pass then -1 else j);
  }

  lemma ReapKeepsInv(s: State, c: nat, w: Choice)
    requires Inv(s) && OwnStep(s, c, w) && s.cs[c].pc.WaitL?
    ensures Inv(Next(s, c, w))
  {
    Current(s, c);
    var j := s.cs[c].pc.j;
    if w == GoOn && s.ps[j].state == ZOMBIE { FreeKeepsInv(s, c, j); } else { LocalStep(s, Next(s, c, w), c, -1); }
  }

  lemma FreeKeepsInv(s: State, c: nat, j: nat)
    requires Inv(s) && OwnStep(s, c, GoOn) && s.cs[c].pc.WaitL? && j == s.cs[c].pc.j && s.ps[j].state == ZOMBIE
    ensures Inv(Next(s, c, GoOn))
  {
    Current(s, c);
    OffCpu(s, c, j);
    LocalStep(s, Next(s, c, GoOn), c, j);
  }

  lemma ThreadKeepsInv(s: State, c: nat, w: Choice)
    requires Inv(s) && OwnStep(s, c, w)
    ensures Inv(Next(s, c, w))
  {
    match s.cs[c].pc
    case HasLk(_) => LockedKeepsInv(s, c, w);
    case KillL(_) => KillKeepsInv(s, c, w);
    case WaitL(_, _) => ReapKeepsInv(s, c, w);
    case SleepA(_) => SleepKeepsInv(s, c, w);
    case SleepB(_) => SleepKeepsInv(s, c, w);
    case SleepE(_) => SleepKeepsInv(s, c, w);
    case YieldA(_) => LeaveKeepsInv(s, c, w);
    case ExitA(_) => LeaveKeepsInv(s, c, w);
    case ExitB => LeaveKeepsInv(s, c, w);
    case YieldC(_) => UnlockKeepsInv(s, c, w);
    case KillU(_) => UnlockKeepsInv(s, c, w);
    case WaitU(_, _) => UnlockKeepsInv(s, c, w);
    case _ => PlainKeepsInv(s, c, w);
  }

  lemma StepKeepsInv(s: State, c: nat, w: Choice)
    requires Inv(s) && Enabled(s, c, w)
    ensures Inv(Next(s, c, w))
  {
    var cpu := s.cs[c];
    if cpu.wk != Idle {
      match cpu.wk
      case WakeL(_, _) => WakeOneKeepsInv(s, c);
      case WakeU(_, _) => WakeDoneKeepsInv(s, c);
      case Wake(_, _) => WakeNextKeepsInv(s, c);
    } else if w.Wakeup? || cpu.hl >= 0 || w.Interrupt? {
      HandlerKeepsInv(s, c, w);
    } else {
      match cpu.sc
      case Scan(_) => ScanKeepsInv(s, c);
      case Locked(_) => PickKeepsInv(s, c);
      case Back => BackKeepsInv(s, c);
      case Running => ThreadKeepsInv(s, c, w);
    }
  }

  // ---------- whole runs ----------

  /** After boot: every CPU in scheduler(), no lock held, some processes to run. */
  ghost predicate Init(s: State) {
    |s.plock| == |s.ps| && (forall j :: 0 <= j < |s.plock| ==> s.plock[j] == -1) &&
    (forall l :: 0 <= l < |s.lks| ==> s.lks[l] == -1) &&
    (forall c :: 0 <= c < |s.cs| ==> s.cs[c] == Cpu(-1, Scan(0), Run, -1, Idle)) &&
    forall k :: 0 <= k < |s.ps| ==>
      (s.ps[k].state == RUNNABLE || s.ps[k].state == UNUSED) && s.ps[k].saved == YieldC(-1) && s.ps[k].wait == -1 &&
      s.ps[k].on == -1
  }

  datatype Step = Step(c: nat, w: Choice)

  ghost predicate StepAt(ss: seq<State>, acts: seq<Step>, i: nat) {
    i < |acts| && i + 1 < |ss| && Enabled(ss[i], acts[i].c, acts[i].w) && ss[i + 1] == Next(ss[i], acts[i].c, acts[i].w)
  }

  ghost predicate IsRun(ss: seq<State>, acts: seq<Step>) {
    |ss| == |acts| + 1 && Init(ss[0]) && forall i: nat :: i < |acts| ==> StepAt(ss, acts, i)
  }

  lemma {:induction false} RunKeepsInv(ss: seq<State>, acts: seq<Step>, i: nat)
    requires IsRun(ss, acts) && i < |ss|
    ensures Inv(ss[i])
  {
    if i > 0 {
      RunKeepsInv(ss, acts, i - 1);
      assert StepAt(ss, acts, i - 1);
      StepKeepsInv(ss[i - 1], acts[i - 1].c, acts[i - 1].w);
    }
  }

  /** In every state of every run, a RUNNING process is the current process of exactly one CPU. */
  lemma RunningOnOneCpu(ss: seq<State>, acts: seq<Step>, i: nat, k: nat)
    requires IsRun(ss, acts) && i < |ss| && k < |ss[i].ps| && ss[i].ps[k].state == RUNNING
    ensures var s, c := ss[i], ss[i].ps[k].on;
      0 <= c < |s.cs| && s.cs[c].cur == k && forall d :: 0 <= d < |s.cs| && s.cs[d].cur == k ==> d == c
  {
    RunKeepsInv(ss, acts, i);
    assert ProcOk(ss[i], k);
    forall d | 0 <= d < |ss[i].cs| && ss[i].cs[d].cur == k ensures d == ss[i].ps[k].on { assert CpuOk(ss[i], d); }
  }

  /** A CPU whose current process is not RUNNING holds that process's lock. */
  lemma CurrentLocked(ss: seq<State>, acts: seq<Step>, i: nat, c: nat)
    requires IsRun(ss, acts) && i < |ss| && c < |ss[i].cs| && ss[i].cs[c].cur >= 0
    ensures var s, k := ss[i], ss[i].cs[c].cur;
      k < |s.ps| == |s.plock| && (s.ps[k].state != RUNNING ==> s.plock[k] == c)
  {
    RunKeepsInv(ss, acts, i);
    assert CpuOk(ss[i], c);
  }

  /** When wakeup(ch), of a process or of an interrupt handler, looks at process j under its lock, a
      process that released ch's lock to wait on ch is asleep on ch or has been woken since. */
  lemma NoLostWakeup(ss: seq<State>, acts: seq<Step>, i: nat, c: nat)
    requires IsRun(ss, acts) && i < |ss| && c < |ss[i].cs| && ss[i].cs[c].wk.WakeL?
    ensures var s, ch, j := ss[i], ss[i].cs[c].wk.ch, ss[i].cs[c].wk.j;
      j < |s.ps| && (s.ps[j].wait == ch ==> s.ps[j].woken || (s.ps[j].state == SLEEPING && s.ps[j].chan == ch))
  {
    RunKeepsInv(ss, acts, i);
    assert CpuOk(ss[i], c);
    WakerSees(ss[i], c, ss[i].cs[c].wk.j);
  }

  /** When wakeup(ch) is through, every process that waited on ch has been woken, whatever other
      wakeups and sleeps went on under other locks. */
  lemma WakeupWakesAll(ss: seq<State>, acts: seq<Step>, i: nat, c: nat, k: nat)
    requires IsRun(ss, acts) && i < |ss| && c < |ss[i].cs|
    requires var wk := ss[i].cs[c].wk; wk.Wake? && wk.j >= |ss[i].ps| && k < |ss[i].ps| && ss[i].ps[k].wait == wk.ch
    ensures ss[i].ps[k].woken && ss[i].ps[k].state != SLEEPING
  {
    RunKeepsInv(ss, acts, i);
    assert CpuOk(ss[i], c);
    assert ProcOk(ss[i], k);
  }

  /** When sleep(), yield() or exit() calls sched(), its CPU holds the process's lock and no other
      lock of either kind, so that sched() does not panic. */
  lemma SchedHoldsOneLock(ss: seq<State>, acts: seq<Step>, i: nat, c: nat)
    requires IsRun(ss, acts) && i < |ss| && c < |ss[i].cs| && ss[i].cs[c].sc == Running
    requires var pc := ss[i].cs[c].pc; pc.SleepB? || pc.YieldA? || pc.ExitB?
    ensures var s, k := ss[i], ss[i].cs[c].cur;
      0 <= k < |s.plock| && (forall l :: 0 <= l < |s.plock| ==> (s.plock[l] == c <==> l == k)) &&
      forall l :: 0 <= l < |s.lks| ==> s.lks[l] != c
  {
    RunKeepsInv(ss, acts, i);
    Current(ss[i], c);
  }

  /** wait() frees a zombie only when no CPU runs on its stack any more. */
  lemma ReapsOffCpu(ss: seq<State>, acts: seq<Step>, i: nat, c: nat)
    requires IsRun(ss, acts) && i < |ss| && c < |ss[i].cs| && ss[i].cs[c].sc == Running && ss[i].cs[c].pc.WaitL?
    requires var j := ss[i].cs[c].pc.j; j < |ss[i].ps| && ss[i].ps[j].state == ZOMBIE
    ensures var s, j := ss[i], ss[i].cs[c].pc.j; s.ps[j].on == -1 && forall d :: 0 <= d < |s.cs| ==> s.cs[d].cur != j
  {
    RunKeepsInv(ss, acts, i);
    Current(ss[i], c);
    var j := ss[i].cs[c].pc.j;
    OffCpu(ss[i], c, j);
    forall d | 0 <= d < |ss[i].cs| ensures ss[i].cs[d].cur != j { assert CpuOk(ss[i], d); }
  }

  // ---------- such runs exist ----------

  ghost predicate Leads(s: State, a: Step, s': State) { Enabled(s, a.c, a.w) && s' == Next(s, a.c, a.w) }

  lemma FiveSteps(ss: seq<State>, acts: seq<Step>)
    requires |ss| == 6 && |acts| == 5 && Init(ss[0]) && Leads(ss[0], acts[0], ss[1]) && Leads(ss[1], acts[1], ss[2])
    requires Leads(ss[2], acts[2], ss[3]) && Leads(ss[3], acts[3], ss[4]) && Leads(ss[4], acts[4], ss[5])
    ensures IsRun(ss, acts)
  {
    forall i: nat | i < 5 ensures StepAt(ss, acts, i) {
      if i == 0 { } else if i == 1 { } else if i == 2 { } else if i == 3 { } else { }
    }
  }

  /** Two CPUs, one runnable process, and channels 0 and 1 under locks 0 and 1. */
  function TwoCpus(h0: int, wk0: Wk, h1: int, wk1: Wk, plock: int): State {
    State([Proc(RUNNABLE, 0, false, YieldC(-1), -1, false, -1)],
          [Cpu(-1, Scan(0), Run, h0, wk0), Cpu(-1, Scan(0), Run, h1, wk1)],
          [plock], [if h0 == 0 then 0 else -1, if h1 == 1 then 1 else -1], map[0 := 0, 1 := 1])
  }

  lemma TwoInterrupts(s0: State, s1: State, s2: State)
    requires s0 == TwoCpus(-1, Idle, -1, Idle, -1) && s1 == TwoCpus(0, Idle, -1, Idle, -1) &&
      s2 == TwoCpus(0, Idle, 1, Idle, -1)
    ensures Leads(s0, Step(0, Interrupt(0)), s1) && Leads(s1, Step(1, Interrupt(1)), s2)
  {
    assert s0.cs[0 := s1.cs[0]] == s1.cs && s0.lks[0 := 0] == s1.lks;
    assert s1.cs[1 := s2.cs[1]] == s2.cs && s1.lks[1 := 1] == s2.lks;
  }

  lemma TwoWakeups(s2: State, s3: State, s4: State, s5: State)
    requires s2 == TwoCpus(0, Idle, 1, Idle, -1) && s3 == TwoCpus(0, Wake(0, 0), 1, Idle, -1)
    requires s4 == TwoCpus(0, Wake(0, 0), 1, Wake(1, 0), -1) && s5 == TwoCpus(0, WakeL(0, 0), 1, Wake(1, 0), 0)
    ensures Leads(s2, Step(0, Wakeup(0)), s3) && Leads(s3, Step(1, Wakeup(1)), s4) && Leads(s4, Step(0, GoOn), s5)
  {
    assert s2.cs[0 := s3.cs[0]] == s3.cs && s3.cs[1 := s4.cs[1]] == s4.cs && s4.cs[0 := s5.cs[0]] == s5.cs;
    assert s4.plock[0 := 0] == s5.plock;
  }

  lemma TwoEnds(s0: State, s5: State)
    requires s0 == TwoCpus(-1, Idle, -1, Idle, -1) && s5 == TwoCpus(0, WakeL(0, 0), 1, Wake(1, 0), 0)
    ensures Init(s0) && Contended(s5)
  {
  }

  ghost predicate Contended(s: State) {
    |s.cs| == 2 && s.cs[0].wk == WakeL(0, 0) && s.cs[1].wk == Wake(1, 0) && !Enabled(s, 1, GoOn)
  }

  /** Two wakeups under different locks can meet: CPU 0 has a process's lock, CPU 1 wants it. */
  lemma WakeupsContend()
    ensures exists ss: seq<State>, acts: seq<Step> :: IsRun(ss, acts) && |acts| == 5 && Contended(ss[5])
  {
    var s0, s1, s2 := TwoCpus(-1, Idle, -1, Idle, -1), TwoCpus(0, Idle, -1, Idle, -1), TwoCpus(0, Idle, 1, Idle, -1);
    var s3, s4 := TwoCpus(0, Wake(0, 0), 1, Idle, -1), TwoCpus(0, Wake(0, 0), 1, Wake(1, 0), -1);
    var s5 := TwoCpus(0, WakeL(0, 0), 1, Wake(1, 0), 0);
    TwoInterrupts(s0, s1, s2);
    TwoWakeups(s2, s3, s4, s5);
    TwoEnds(s0, s5);
    FiveSteps([s0, s1, s2, s3, s4, s5],
              [Step(0, Interrupt(0)), Step(1, Interrupt(1)), Step(0, Wakeup(0)), Step(1, Wakeup(1)), Step(0, GoOn)]);
  }
}
