/** The write-ahead redo log of log.c together with the buffer cache of bio.c, as one
    interleaved state machine over single-block disk writes.

    Every action is one atomic step of some thread: a critical section under `log.lock` or
    `bcache.lock`, the acquisition of a buffer's sleep-lock, or one single-block disk
    transfer.  A crash may happen between any two steps; it keeps the disk and drops
    everything else.  The committing thread and the booting thread are the reserved
    thread `COMMITTER`; any other thread may be inside a file system operation (between
    `begin_op` and `end_op`) or may just read blocks. */
module LogMachine {
  import opened Common

  /** A block seen as its 32-bit words; word 0 of the log header block is `n`. */
  datatype Block = Block(words: seq<nat>)

  type Tid = nat
  const COMMITTER: Tid := 0

  /** Where the log lives: header block `start`, then `size - 1` log blocks. */
  datatype Config = Config(start: nat, size: nat, nblocks: nat)

  ghost predicate ValidConfig(c: Config) {
    1 <= c.size && c.start + c.size <= c.nblocks
  }

  predicate Home(c: Config, b: nat) {
    b < c.nblocks && !(c.start <= b < c.start + c.size)
  }

  datatype Buf = Buf(valid: bool, data: Block, refcnt: nat, users: set<Tid>, lock: Option<Tid>)

  /** What an active operation has done: blocks it has passed to `log_write`, and blocks it
      has modified in the cache without having logged the modification yet. */
  datatype Op = Op(touched: set<nat>, dirty: set<nat>)

  datatype Phase =
    | Running
    | CommitStart
    | WriteLog(k: nat)     // write_log has copied k blocks; at k == n the header is next
    | Install(k: nat)      // install_trans(0) has installed k blocks; at k == n clear the header
    | Finish
    | ReadHead             // booting: recover_from_log
    | RecInstall(k: nat)   // install_trans(1)

  /** log_write has no room, or no operation is active; end_op during a commit; bget finds
      every buffer in use. */
  datatype Panic = TooBigTransaction | OutsideTransaction | EndDuringCommit | NoBuffers

  datatype State = State(
    disk: seq<Block>,
    cache: map<nat, Buf>,
    lh: seq<nat>,
    ops: map<Tid, Op>,
    outstanding: int,
    committing: bool,
    phase: Phase,
    panic: Option<Panic>)

  datatype Action =
    | Begin(t: Tid)
    | Bget(t: Tid, b: nat, stale: Block)
    | Acquire(t: Tid, b: nat)
    | Fill(t: Tid, b: nat)
    | Modify(t: Tid, b: nat, data: Block)
    | LogWrite(t: Tid, b: nat)
    | Brelse(t: Tid, b: nat)
    | Evict(b: nat)
    | End(t: Tid)
    | CommitStep
    | Crash

  // ---------- the on-disk header ----------

  /** read_head: the first `n` entries. */
  function HeaderBlocks(h: Block): (bs: seq<nat>) {
    if |h.words| > 0 && h.words[0] < |h.words| then h.words[1..1 + h.words[0]] else []
  }

  /** write_head: overwrite `n` and the first `n` entries, leave the rest of the block. */
  function PutHeader(h: Block, lh: seq<nat>): (r: Block)
    ensures HeaderBlocks(r) == lh
  {
    Block([|lh|] + lh + if 1 + |lh| <= |h.words| then h.words[1 + |lh|..] else [])
  }

  function LogIndex(hs: seq<nat>, b: nat): (j: int)
    ensures j == -1 ==> b !in hs
    ensures j != -1 ==> 0 <= j < |hs| && hs[j] == b
  {
    if |hs| == 0 then -1
    else if hs[|hs| - 1] == b then |hs| - 1
    else LogIndex(hs[..|hs| - 1], b)
  }

  function At(disk: seq<Block>, b: nat): Block {
    if b < |disk| then disk[b] else Block([])
  }

  function Header(c: Config, disk: seq<Block>): seq<nat> { HeaderBlocks(At(disk, c.start)) }

  /** The contents home block `b` will have once recovery from this disk has completed. */
  function Recovered(c: Config, disk: seq<Block>, b: nat): Block {
    var j := LogIndex(Header(c, disk), b);
    if j >= 0 then At(disk, c.start + 1 + j) else At(disk, b)
  }

  // ---------- steps ----------

  predicate Held(s: State, t: Tid, b: nat) {
    b in s.cache && s.cache[b].lock == Some(t) && s.cache[b].valid
  }

  predicate Booting(s: State) { s.phase.ReadHead? || s.phase.RecInstall? }

  /** begin_op's admission test; a thread that fails it sleeps. */
  predicate Admit(s: State) {
    !s.committing && |s.lh| + (s.outstanding + 1) * MAXOPBLOCKS <= LOGSIZE
  }

  /** Every buffer holds a block that somebody uses or that is pinned. */
  predicate CacheFull(s: State) {
    |s.cache| >= NBUF && forall b :: b in s.cache ==> s.cache[b].refcnt > 0
  }

  /** What the threads may do in a state; after a panic only the power can go off.  A bget
      that takes a buffer over is two steps, the eviction of the old block first.  Buffers are
      used as log.c's comment prescribes: bread (Bget, Acquire, Fill), modify, log_write, brelse;
      the file system proper never modifies a block of the log area. */
  predicate Enabled(c: Config, s: State, a: Action) {
    if a.Crash? then true
    else if s.panic.Some? then false
    else match a
      case Begin(t) => !Booting(s) && t != COMMITTER && t !in s.ops && Admit(s)
      case Bget(t, b, _) =>
        b < c.nblocks && (Booting(s) ==> t == COMMITTER) &&
        if b in s.cache then t !in s.cache[b].users else |s.cache| < NBUF || CacheFull(s)
      case Acquire(t, b) => b in s.cache && t in s.cache[b].users && s.cache[b].lock == None
      case Fill(t, b) => b in s.cache && s.cache[b].lock == Some(t) && !s.cache[b].valid
      case Modify(t, b, _) => t in s.ops && Held(s, t, b) && Home(c, b)
      case LogWrite(t, b) => t in s.ops && Held(s, t, b) && Home(c, b)
      case Brelse(t, b) =>
        b in s.cache && s.cache[b].lock == Some(t) && (t in s.ops ==> b !in s.ops[t].dirty)
      case Evict(b) => b in s.cache && s.cache[b].refcnt == 0
      case End(t) => t in s.ops && s.ops[t].dirty == {}
      case CommitStep => CommitEnabled(c, s)
  }

  /** The committing thread has bread the blocks its next step copies. */
  predicate CommitEnabled(c: Config, s: State) {
    match s.phase
    case CommitStart => true
    case Finish => true
    case ReadHead => Held(s, COMMITTER, c.start)
    case WriteLog(k) => CopyReady(c, s, k)
    case Install(k) => CopyReady(c, s, k)
    case RecInstall(k) => CopyReady(c, s, k)
    case _ => false
  }

  predicate CopyReady(c: Config, s: State, k: nat) {
    if k < |s.lh| then Held(s, COMMITTER, c.start + 1 + k) && Held(s, COMMITTER, s.lh[k])
    else Held(s, COMMITTER, c.start)
  }

  function SetBuf(s: State, b: nat, buf: Buf): State {
    s.(cache := s.cache[b := buf])
  }

  /** bwrite of a buffer whose contents have just been set: one atomic disk write. */
  function Bwrite(s: State, b: nat, buf: Buf): State
  {
    s.(disk := if b < |s.disk| then s.disk[b := buf.data] else s.disk, cache := s.cache[b := buf])
  }

  function Drop(refcnt: nat): nat { if refcnt > 0 then refcnt - 1 else 0 }

  /** One atomic step; a step that is not enabled does nothing. */
  function Next(c: Config, s: State, a: Action): State {
    if !Enabled(c, s, a) then s
    else match a
    case Begin(t) => s.(ops := s.ops[t := Op({}, {})], outstanding := s.outstanding + 1)
    case Bget(t, b, stale) =>
      if b in s.cache then
        var buf := s.cache[b];
        SetBuf(s, b, buf.(users := buf.users + {t}, refcnt := buf.refcnt + 1))
      else if CacheFull(s) then s.(panic := Some(NoBuffers))
      else SetBuf(s, b, Buf(false, stale, 1, {t}, None))
    case Acquire(t, b) => SetBuf(s, b, s.cache[b].(lock := Some(t)))
    case Fill(t, b) => SetBuf(s, b, s.cache[b].(data := At(s.disk, b), valid := true))
    case Modify(t, b, data) =>
      s.(cache := s.cache[b := s.cache[b].(data := data)],
         ops := s.ops[t := s.ops[t].(dirty := s.ops[t].dirty + {b})])
    case LogWrite(t, b) => LogWriteStep(c, s, t, b)
    case Brelse(t, b) =>
      var buf := s.cache[b];
      SetBuf(s, b, buf.(lock := None, users := buf.users - {t}, refcnt := Drop(buf.refcnt)))
    case Evict(b) => s.(cache := s.cache - {b})
    case End(t) =>
      if s.committing then s.(panic := Some(EndDuringCommit))
      else
        var s' := s.(ops := s.ops - {t}, outstanding := s.outstanding - 1);
        if s'.outstanding == 0 then s'.(committing := true, phase := CommitStart) else s'
    case CommitStep => CommitNext(c, s)
    case Crash => State(s.disk, map[], [], map[], 0, false, ReadHead, None)
  }

  predicate TooBig(c: Config, s: State) { |s.lh| >= LOGSIZE || |s.lh| >= c.size - 1 }

  function LogWriteStep(c: Config, s: State, t: Tid, b: nat): State
    requires t in s.ops && b in s.cache
  {
    if TooBig(c, s) then s.(panic := Some(TooBigTransaction))
    else if s.outstanding < 1 then s.(panic := Some(OutsideTransaction))
    else
      var op := Op(s.ops[t].touched + {b}, s.ops[t].dirty - {b});
      var s' := s.(ops := s.ops[t := op]);
      if b in s.lh then s'
      else SetBuf(s', b, s.cache[b].(refcnt := s.cache[b].refcnt + 1)).(lh := s.lh + [b])
  }

  function CommitNext(c: Config, s: State): State {
    if !CommitEnabled(c, s) then s
    else match s.phase
    case CommitStart => s.(phase := if s.lh == [] then Finish else WriteLog(0))
    case WriteLog(k) =>
      if k < |s.lh| then
        var to := c.start + 1 + k;
        Bwrite(s, to, s.cache[to].(data := s.cache[s.lh[k]].data)).(phase := WriteLog(k + 1))
      else WriteHead(c, s, s.lh).(phase := Install(0))
    case Install(k) =>
      if k < |s.lh| then
        var dbuf := s.cache[s.lh[k]];
        var data := s.cache[c.start + 1 + k].data;
        Bwrite(s, s.lh[k], dbuf.(data := data, refcnt := Drop(dbuf.refcnt))).(phase := Install(k + 1))
      else WriteHead(c, s, []).(lh := [], phase := Finish)
    case Finish => s.(committing := false, phase := Running)
    case ReadHead => s.(lh := HeaderBlocks(s.cache[c.start].data), phase := RecInstall(0))
    case RecInstall(k) =>
      if k < |s.lh| then
        var data := s.cache[c.start + 1 + k].data;
        Bwrite(s, s.lh[k], s.cache[s.lh[k]].(data := data)).(phase := RecInstall(k + 1))
      else WriteHead(c, s, []).(lh := [], phase := Running)
    case _ => s
  }

  function WriteHead(c: Config, s: State, bs: seq<nat>): State
    requires c.start in s.cache
  {
    var buf := s.cache[c.start];
    Bwrite(s, c.start, buf.(data := PutHeader(buf.data, bs)))
  }

  // ---------- the invariant ----------

  ghost predicate ListOk(c: Config, bs: seq<nat>) {
    |bs| <= LOGSIZE && |bs| < c.size && Distinct(bs) &&
    forall i :: 0 <= i < |bs| ==> Home(c, bs[i])
  }

  ghost predicate Shape(c: Config, s: State) {
    ValidConfig(c) && |s.disk| == c.nblocks && ListOk(c, s.lh)
  }

  /** The logged blocks that log_write pinned and install_trans has not unpinned yet. */
  function Pinned(s: State): (p: seq<nat>) {
    match s.phase
    case Install(k) => if k <= |s.lh| then s.lh[k..] else []
    case Finish => []
    case ReadHead => []
    case RecInstall(_) => []
    case _ => s.lh
  }

  predicate IsDirty(s: State, b: nat) {
    b in s.cache && s.cache[b].lock.Some? &&
    s.cache[b].lock.value in s.ops && b in s.ops[s.cache[b].lock.value].dirty
  }

  ghost predicate CacheOk(c: Config, s: State) {
    forall b :: b in s.cache ==>
      b < c.nblocks &&
      s.cache[b].refcnt == |s.cache[b].users| + (if b in Pinned(s) then 1 else 0) &&
      (s.cache[b].lock.Some? ==> s.cache[b].lock.value in s.cache[b].users)
  }

  ghost predicate PinsOk(s: State) {
    forall b :: b in Pinned(s) ==> b in s.cache && s.cache[b].valid
  }

  /** A valid buffer that is neither pinned nor being modified holds what the disk holds. */
  ghost predicate Coherent(s: State) {
    forall b :: b in s.cache && s.cache[b].valid && b !in Pinned(s) && !IsDirty(s, b) ==>
      s.cache[b].data == At(s.disk, b)
  }

  ghost predicate OpsOk(c: Config, s: State) {
    s.outstanding == |s.ops| && COMMITTER !in s.ops &&
    (s.ops != map[] ==> s.phase.Running?) &&
    (s.committing <==> s.phase.CommitStart? || s.phase.WriteLog? || s.phase.Install? || s.phase.Finish?) &&
    (forall t :: t in s.ops ==> forall b :: b in s.ops[t].touched ==> b in s.lh) &&
    (forall t :: t in s.ops ==> forall b :: b in s.ops[t].dirty ==> Held(s, t, b) && Home(c, b))
  }

  /** How many log blocks the current commit has written. */
  function CopiedTo(s: State): nat {
    match s.phase
    case WriteLog(k) => k
    case Install(_) => |s.lh|
    case _ => 0
  }

  /** How many home blocks the current installation has written. */
  function InstalledTo(s: State): nat {
    match s.phase
    case Install(k) => k
    case RecInstall(k) => k
    case _ => 0
  }

  ghost predicate HeaderOk(c: Config, s: State) {
    var hs := Header(c, s.disk);
    if s.phase.Install? || s.phase.RecInstall? then hs == s.lh
    else if s.phase.ReadHead? then ListOk(c, hs) && s.lh == []
    else hs == [] && (s.phase.Finish? ==> s.lh == [])
  }

  ghost predicate LogCopied(c: Config, s: State) {
    CopiedTo(s) <= |s.lh| &&
    forall j :: 0 <= j < CopiedTo(s) && s.lh[j] in Pinned(s) && s.lh[j] in s.cache ==>
      At(s.disk, c.start + 1 + j) == s.cache[s.lh[j]].data
  }

  ghost predicate Installed(c: Config, s: State) {
    InstalledTo(s) <= |s.lh| &&
    forall j :: 0 <= j < InstalledTo(s) ==> At(s.disk, s.lh[j]) == At(s.disk, c.start + 1 + j)
  }

  ghost predicate Inv(c: Config, s: State) {
    Shape(c, s) &&
    CacheOk(c, s) && PinsOk(s) && Coherent(s) && OpsOk(c, s) &&
    HeaderOk(c, s) && LogCopied(c, s) && Installed(c, s)
  }

  // ---------- every step keeps the invariant ----------

  /** The new buffer keeps its own books and changes the contents of a pinned or modified
      block not at all. */
  ghost predicate Harmless(c: Config, s: State, b: nat, nb: Buf)
  {
    b < c.nblocks &&
    nb.refcnt == |nb.users| + (if b in Pinned(s) then 1 else 0) &&
    (nb.lock.Some? ==> nb.lock.value in nb.users) &&
    (b in Pinned(s) ==> nb.valid && b in s.cache && nb.data == s.cache[b].data) &&
    (IsDirty(s, b) ==> nb.valid && nb.lock == s.cache[b].lock) &&
    (nb.valid && b !in Pinned(s) && !IsDirty(s, b) ==> nb.data == At(s.disk, b))
  }

  lemma OneBufferOps(c: Config, s: State, b: nat, nb: Buf)
    requires Inv(c, s) && Harmless(c, s, b, nb)
    ensures OpsOk(c, SetBuf(s, b, nb))
    ensures Coherent(SetBuf(s, b, nb))
  {
    var s' := SetBuf(s, b, nb);
    assert Pinned(s') == Pinned(s);
    forall t, x | t in s.ops && x in s.ops[t].dirty
      ensures Held(s', t, x)
    {
      assert Held(s, t, x);
    }
    assert IsDirty(s, b) ==> IsDirty(s', b);
  }

  /** Replacing one buffer harmlessly keeps the invariant. */
  lemma OneBuffer(c: Config, s: State, b: nat, nb: Buf)
    requires Inv(c, s) && Harmless(c, s, b, nb)
    ensures Inv(c, SetBuf(s, b, nb))
  {
    OneBufferLog(c, s, b, nb);
    OneBufferBooks(c, s, b, nb);
    OneBufferOps(c, s, b, nb);
  }

  lemma OneBufferLog(c: Config, s: State, b: nat, nb: Buf)
    requires Shape(c, s) && HeaderOk(c, s) && LogCopied(c, s) && Installed(c, s) && Harmless(c, s, b, nb)
    ensures var s' := SetBuf(s, b, nb); Shape(c, s') && HeaderOk(c, s') && LogCopied(c, s') && Installed(c, s')
  {
    assert Pinned(SetBuf(s, b, nb)) == Pinned(s);
  }

  lemma OneBufferBooks(c: Config, s: State, b: nat, nb: Buf)
    requires CacheOk(c, s) && PinsOk(s) && Harmless(c, s, b, nb)
    ensures var s' := SetBuf(s, b, nb); CacheOk(c, s') && PinsOk(s')
  {
    assert Pinned(SetBuf(s, b, nb)) == Pinned(s);
  }

  /** A panic stops everything and changes nothing. */
  lemma PanicKeepsInv(c: Config, s: State, p: Panic)
    requires Inv(c, s)
    ensures Inv(c, s.(panic := Some(p)))
  {
    assert Pinned(s.(panic := Some(p))) == Pinned(s);
  }

  predicate BgetPanics(s: State, a: Action) { a.Bget? && a.b !in s.cache && CacheFull(s) }

  lemma CacheStepHarmless(c: Config, s: State, a: Action)
    requires Inv(c, s) && Enabled(c, s, a) && !BgetPanics(s, a)
    requires a.Bget? || a.Acquire? || a.Fill? || a.Brelse?
    ensures var s' := Next(c, s, a);
      a.b in s'.cache && s' == SetBuf(s, a.b, s'.cache[a.b]) && Harmless(c, s, a.b, s'.cache[a.b])
  {
    if a.Brelse? { assert |s.cache[a.b].users - {a.t}| == |s.cache[a.b].users| - 1; }
  }

  lemma CacheStepKeepsInv(c: Config, s: State, a: Action)
    requires Inv(c, s) && Enabled(c, s, a)
    requires a.Bget? || a.Acquire? || a.Fill? || a.Brelse?
    ensures Inv(c, Next(c, s, a))
  {
    if BgetPanics(s, a) {
      PanicKeepsInv(c, s, NoBuffers);
    } else {
      CacheStepHarmless(c, s, a);
      OneBuffer(c, s, a.b, Next(c, s, a).cache[a.b]);
    }
  }

  lemma BeginKeepsInv(c: Config, s: State, t: Tid)
    requires Inv(c, s) && Enabled(c, s, Begin(t))
    ensures Inv(c, Next(c, s, Begin(t)))
  {
    var s' := Next(c, s, Begin(t));
    SameCache(c, s, s');
    BeginKeepsOps(c, s, t);
  }

  lemma BeginKeepsOps(c: Config, s: State, t: Tid)
    requires OpsOk(c, s) && Enabled(c, s, Begin(t))
    ensures OpsOk(c, Next(c, s, Begin(t)))
  {
    var s' := Next(c, s, Begin(t));
    forall u, x | u in s'.ops && x in s'.ops[u].dirty ensures Held(s', u, x) { assert Held(s, u, x); }
  }

  /** Cache, disk and log stay, and no block stops being modified. */
  lemma SameCache(c: Config, s: State, s': State)
    requires Inv(c, s) && s'.cache == s.cache && s'.disk == s.disk && s'.lh == s.lh && s'.phase == s.phase
    requires forall b :: b in s.cache && IsDirty(s, b) ==> IsDirty(s', b)
    ensures Shape(c, s') && CacheOk(c, s') && PinsOk(s') && Coherent(s') && HeaderOk(c, s') && LogCopied(c, s') &&
      Installed(c, s')
  {
    assert Pinned(s') == Pinned(s);
  }

  lemma ModifyKeepsInv(c: Config, s: State, t: Tid, b: nat, data: Block)
    requires Inv(c, s) && Enabled(c, s, Modify(t, b, data))
    ensures Inv(c, Next(c, s, Modify(t, b, data)))
  {
    ModifyKeepsOps(c, s, t, b, data);
    ModifyKeepsCache(c, s, t, b, data);
  }

  lemma ModifyKeepsOps(c: Config, s: State, t: Tid, b: nat, data: Block)
    requires OpsOk(c, s) && Enabled(c, s, Modify(t, b, data))
    ensures OpsOk(c, Next(c, s, Modify(t, b, data)))
  {
    var s' := Next(c, s, Modify(t, b, data));
    forall u, x | u in s'.ops && x in s'.ops[u].dirty ensures Held(s', u, x) && Home(c, x) {
      assert u != t || x != b ==> x in s.ops[u].dirty && Held(s, u, x);
    }
  }

  lemma ModifyKeepsCache(c: Config, s: State, t: Tid, b: nat, data: Block)
    requires Shape(c, s) && OpsOk(c, s) && CacheOk(c, s) && PinsOk(s) && Coherent(s) &&
      Enabled(c, s, Modify(t, b, data))
    ensures var s' := Next(c, s, Modify(t, b, data)); CacheOk(c, s') && PinsOk(s') && Coherent(s')
  {
    var s' := Next(c, s, Modify(t, b, data));
    assert Pinned(s') == Pinned(s);
    forall x | x in s'.cache && !IsDirty(s', x) ensures x != b && !IsDirty(s, x) { }
  }

  lemma LogWriteKeepsInv(c: Config, s: State, t: Tid, b: nat)
    requires Inv(c, s) && Enabled(c, s, LogWrite(t, b))
    ensures Inv(c, Next(c, s, LogWrite(t, b)))
  {
    var s' := Next(c, s, LogWrite(t, b));
    if TooBig(c, s) || s.outstanding < 1 {
      PanicKeepsInv(c, s, if TooBig(c, s) then TooBigTransaction else OutsideTransaction);
    } else if b in s.lh {
      AbsorbKeepsInv(c, s, t, b);
    } else {
      AppendKeepsInv(c, s, t, b);
    }
  }

  lemma AbsorbKeepsInv(c: Config, s: State, t: Tid, b: nat)
    requires Inv(c, s) && Enabled(c, s, LogWrite(t, b)) && b in s.lh
    requires !TooBig(c, s) && s.outstanding >= 1
    ensures Inv(c, LogWriteStep(c, s, t, b))
  {
    var s' := LogWriteStep(c, s, t, b);
    assert s.phase.Running?;
    forall x | x in s'.cache && !IsDirty(s', x) && x != b ensures !IsDirty(s, x) {}
  }

  lemma AppendKeepsInv(c: Config, s: State, t: Tid, b: nat)
    requires Inv(c, s) && Enabled(c, s, LogWrite(t, b)) && b !in s.lh
    requires !TooBig(c, s) && s.outstanding >= 1
    ensures Inv(c, LogWriteStep(c, s, t, b))
  {
    assert s.phase.Running?;
    AppendBooks(c, s, t, b);
    AppendCoherent(c, s, t, b);
    AppendKeepsOps(c, s, t, b);
  }

  lemma AppendBooks(c: Config, s: State, t: Tid, b: nat)
    requires CacheOk(c, s) && PinsOk(s) && s.phase.Running? && Enabled(c, s, LogWrite(t, b)) && b !in s.lh
    requires !TooBig(c, s) && s.outstanding >= 1
    ensures var s' := LogWriteStep(c, s, t, b); CacheOk(c, s') && PinsOk(s')
  {
    assert Pinned(LogWriteStep(c, s, t, b)) == s.lh + [b];
  }

  lemma AppendCoherent(c: Config, s: State, t: Tid, b: nat)
    requires Coherent(s) && s.phase.Running? && Enabled(c, s, LogWrite(t, b)) && b !in s.lh
    requires !TooBig(c, s) && s.outstanding >= 1
    ensures Coherent(LogWriteStep(c, s, t, b))
  {
    var s' := LogWriteStep(c, s, t, b);
    assert Pinned(s') == s.lh + [b];
    forall x | x in s'.cache && !IsDirty(s', x) && x != b ensures !IsDirty(s, x) {}
  }

  lemma AppendKeepsOps(c: Config, s: State, t: Tid, b: nat)
    requires Inv(c, s) && Enabled(c, s, LogWrite(t, b)) && b !in s.lh
    requires !TooBig(c, s) && s.outstanding >= 1
    ensures OpsOk(c, LogWriteStep(c, s, t, b))
  {
    var s' := LogWriteStep(c, s, t, b);
    forall u, x | u in s'.ops && x in s'.ops[u].dirty
      ensures Held(s', u, x) && Home(c, x)
    {
      assert x in s.ops[u].dirty;
      assert Held(s, u, x);
    }
  }

  lemma EvictKeepsInv(c: Config, s: State, b: nat)
    requires Inv(c, s) && Enabled(c, s, Evict(b))
    ensures Inv(c, Next(c, s, Evict(b)))
  {
    EvictKeepsOps(c, s, b);
    EvictKeepsCache(c, s, b);
    EvictKeepsLog(c, s, b);
  }

  lemma EvictKeepsOps(c: Config, s: State, b: nat)
    requires OpsOk(c, s) && CacheOk(c, s) && Enabled(c, s, Evict(b))
    ensures OpsOk(c, Next(c, s, Evict(b)))
  {
    var s' := Next(c, s, Evict(b));
    forall t, x | t in s'.ops && x in s'.ops[t].dirty ensures Held(s', t, x) { assert Held(s, t, x); }
  }

  lemma EvictKeepsCache(c: Config, s: State, b: nat)
    requires CacheOk(c, s) && PinsOk(s) && Coherent(s) && Enabled(c, s, Evict(b))
    ensures var s' := Next(c, s, Evict(b)); CacheOk(c, s') && PinsOk(s') && Coherent(s')
  {
    var s' := Next(c, s, Evict(b));
    assert Pinned(s') == Pinned(s) && b !in Pinned(s);
    forall x | x in s'.cache ensures IsDirty(s', x) == IsDirty(s, x) { }
  }

  lemma EvictKeepsLog(c: Config, s: State, b: nat)
    requires Shape(c, s) && HeaderOk(c, s) && LogCopied(c, s) && Installed(c, s) && Enabled(c, s, Evict(b))
    ensures var s' := Next(c, s, Evict(b)); Shape(c, s') && HeaderOk(c, s') && LogCopied(c, s') && Installed(c, s')
  {
    assert Pinned(Next(c, s, Evict(b))) == Pinned(s);
  }

  lemma EndKeepsInv(c: Config, s: State, t: Tid)
    requires Inv(c, s) && Enabled(c, s, End(t))
    ensures Inv(c, Next(c, s, End(t)))
  {
  }

  lemma CrashKeepsInv(c: Config, s: State)
    requires Inv(c, s) && Enabled(c, s, Crash)
    ensures Inv(c, Next(c, s, Crash))
  {
  }

  /** The commit steps that write nothing. */
  lemma QuietKeepsInv(c: Config, s: State)
    requires Inv(c, s) && (s.phase.CommitStart? || s.phase.Finish? || s.phase.ReadHead?) && CommitEnabled(c, s)
    ensures Inv(c, CommitNext(c, s))
  {
  }

  /** s' has written block b of the log area through the cache and left the pins alone. */
  ghost predicate WritesLogArea(c: Config, s: State, s': State, b: nat) {
    c.start <= b < c.start + c.size && b in s.cache && b in s'.cache && b < |s.disk| &&
    s'.cache[b] == s.cache[b].(data := s'.cache[b].data) &&
    s'.cache == s.cache[b := s'.cache[b]] &&
    s'.disk == s.disk[b := s'.cache[b].data] &&
    s'.ops == s.ops == map[] && Pinned(s') == Pinned(s)
  }

  lemma LogAreaUnpinned(c: Config, s: State, b: nat)
    requires Shape(c, s) && c.start <= b < c.start + c.size
    ensures b !in Pinned(s) && b !in s.lh
  {
    assert forall x :: x in Pinned(s) ==> x in s.lh;
  }

  /** Such a write disturbs neither pins nor operations, and every buffer stays coherent. */
  lemma LogAreaWrite(c: Config, s: State, s': State, b: nat)
    requires Shape(c, s) && CacheOk(c, s) && PinsOk(s) && Coherent(s)
    requires WritesLogArea(c, s, s', b)
    ensures CacheOk(c, s') && PinsOk(s') && Coherent(s')
  {
    LogAreaUnpinned(c, s, b);
  }

  lemma WriteLogCopyKeepsInv(c: Config, s: State)
    requires Inv(c, s) && s.phase.WriteLog? && s.phase.k < |s.lh| && CopyReady(c, s, s.phase.k)
    ensures Inv(c, CommitNext(c, s))
  {
    var k, s' := s.phase.k, CommitNext(c, s);
    var to := c.start + 1 + k;
    LogAreaWrite(c, s, s', to);
    CopiesOne(c, s);
  }

  lemma CopiesOne(c: Config, s: State)
    requires Shape(c, s) && PinsOk(s) && LogCopied(c, s) && s.phase.WriteLog? && s.phase.k < |s.lh| &&
      CopyReady(c, s, s.phase.k)
    ensures LogCopied(c, CommitNext(c, s))
  {
    var k, s' := s.phase.k, CommitNext(c, s);
    LogAreaUnpinned(c, s, c.start + 1 + k);
    forall j | 0 <= j < k + 1 ensures At(s'.disk, c.start + 1 + j) == s'.cache[s.lh[j]].data {
      assert s.lh[j] in Pinned(s);
    }
  }

  /** The commit point. */
  lemma CommitPointKeepsInv(c: Config, s: State)
    requires Inv(c, s) && s.phase.WriteLog? && s.phase.k >= |s.lh| && CopyReady(c, s, s.phase.k)
    ensures Inv(c, CommitNext(c, s))
  {
    var s' := CommitNext(c, s);
    assert Pinned(s') == s.lh[0..] == s.lh;
    LogAreaWrite(c, s, s', c.start);
    HeaderWriteCopied(c, s, s');
  }

  lemma HeaderWriteCopied(c: Config, s: State, s': State)
    requires Shape(c, s) && LogCopied(c, s) && s.phase == WriteLog(|s.lh|)
    requires WritesLogArea(c, s, s', c.start) && s'.lh == s.lh && s'.phase == Install(0)
    ensures LogCopied(c, s')
  {
    LogAreaUnpinned(c, s, c.start);
  }

  /** Clearing the header, at the end of a commit or of recovery. */
  lemma ClearKeepsInv(c: Config, s: State)
    requires Inv(c, s) && (s.phase.Install? || s.phase.RecInstall?) && s.phase.k >= |s.lh|
    requires CopyReady(c, s, s.phase.k)
    ensures Inv(c, CommitNext(c, s))
  {
    var s' := CommitNext(c, s);
    assert Pinned(s') == Pinned(s) == [];
    LogAreaWrite(c, s, s', c.start);
  }

  /** Installing one home block, at the end of a commit or during recovery. */
  lemma InstallOneKeepsInv(c: Config, s: State)
    requires Inv(c, s) && (s.phase.Install? || s.phase.RecInstall?) && s.phase.k < |s.lh|
    requires CopyReady(c, s, s.phase.k)
    ensures Inv(c, CommitNext(c, s))
  {
    var s' := CommitNext(c, s);
    assert s.ops == map[];
    InstallOneIs(c, s);
    InstallOneDisk(c, s, s');
    InstallOneCopied(c, s, s');
    InstallOneBooks(c, s, s');
    InstallOneCoherent(c, s, s');
  }

  lemma InstallOneIs(c: Config, s: State)
    requires Shape(c, s) && Coherent(s) && s.ops == map[]
    requires (s.phase.Install? || s.phase.RecInstall?) && s.phase.k < |s.lh| && CopyReady(c, s, s.phase.k)
    ensures Installs(c, s, CommitNext(c, s)) && InstalledBuf(s, CommitNext(c, s), s.lh[s.phase.k])
  {
    LogBufferCoherent(c, s, c.start + 1 + s.phase.k);
  }

  lemma LogBufferCoherent(c: Config, s: State, b: nat)
    requires Shape(c, s) && Coherent(s) && s.ops == map[]
    requires c.start <= b < c.start + c.size && b in s.cache && s.cache[b].valid
    ensures s.cache[b].data == At(s.disk, b)
  {
    LogAreaUnpinned(c, s, b);
  }

  /** s' installs block number k of the log. */
  ghost predicate Installs(c: Config, s: State, s': State) {
    Shape(c, s) && (s.phase.Install? || s.phase.RecInstall?) && s.phase.k < |s.lh| &&
    s'.lh == s.lh && s'.ops == s.ops && s'.outstanding == s.outstanding && s'.committing == s.committing &&
    s'.phase == s.phase.(k := s.phase.k + 1) &&
    s'.disk == s.disk[s.lh[s.phase.k] := At(s.disk, c.start + 1 + s.phase.k)] &&
    s.lh[s.phase.k] in s.cache && s.lh[s.phase.k] in s'.cache &&
    s'.cache == s.cache[s.lh[s.phase.k] := s'.cache[s.lh[s.phase.k]]]
  }

  lemma InstallPins(c: Config, s: State, s': State)
    requires Installs(c, s, s')
    ensures s.lh[s.phase.k] !in Pinned(s')
    ensures forall x :: x in Pinned(s) <==> x in Pinned(s') || (s.phase.Install? && x == s.lh[s.phase.k])
  {
    var k := s.phase.k;
    if s.phase.Install? {
      assert Pinned(s) == [s.lh[k]] + Pinned(s');
    }
  }

  lemma InstallOneDisk(c: Config, s: State, s': State)
    requires Installs(c, s, s') && HeaderOk(c, s) && Installed(c, s)
    ensures Shape(c, s') && HeaderOk(c, s') && Installed(c, s')
  {
    assert s.lh[s.phase.k] != c.start;
    InstalledGrows(c, s.disk, s'.disk, s.lh, s.phase.k);
  }

  lemma InstallOneCopied(c: Config, s: State, s': State)
    requires Installs(c, s, s') && LogCopied(c, s)
    ensures Shape(c, s') && LogCopied(c, s')
  {
    InstallPins(c, s, s');
    assert Home(c, s.lh[s.phase.k]);
  }

  lemma InstalledGrows(c: Config, d: seq<Block>, d': seq<Block>, bs: seq<nat>, k: nat)
    requires ValidConfig(c) && |d| == c.nblocks && ListOk(c, bs) && k < |bs|
    requires forall j :: 0 <= j < k ==> d[bs[j]] == d[c.start + 1 + j]
    requires d' == d[bs[k] := d[c.start + 1 + k]]
    ensures forall j :: 0 <= j < k + 1 ==> d'[bs[j]] == d'[c.start + 1 + j]
  {
    assert !(c.start <= bs[k] < c.start + c.size);
  }

  /** The installed buffer: unpinned after a commit, its contents now on the disk. */
  ghost predicate InstalledBuf(s: State, s': State, b: nat)
    requires b in s.cache && b in s'.cache
  {
    s'.cache[b] == s.cache[b].(data := At(s'.disk, b), refcnt := s'.cache[b].refcnt) && s.cache[b].valid &&
    s'.cache[b].refcnt == if s.phase.Install? then Drop(s.cache[b].refcnt) else s.cache[b].refcnt
  }

  lemma InstallOneBooks(c: Config, s: State, s': State)
    requires Installs(c, s, s') && InstalledBuf(s, s', s.lh[s.phase.k]) && CacheOk(c, s) && PinsOk(s)
    ensures CacheOk(c, s') && PinsOk(s')
  {
    InstallPins(c, s, s');
  }

  lemma InstallOneCoherent(c: Config, s: State, s': State)
    requires Installs(c, s, s') && InstalledBuf(s, s', s.lh[s.phase.k]) && Coherent(s) && s.ops == map[]
    ensures Coherent(s')
  {
    InstallPins(c, s, s');
  }
}
