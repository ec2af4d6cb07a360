/** Readers and writers of one pipe: every interleaving of their stays under the pipe's lock, of
    kill() and of closing the two ends. */
module PipeRuns {
  import opened Pipe

  datatype Thread = Idle | Writing(src: seq<nat>, i: nat, asleep: bool) | Reading(n: nat, asleep: bool)

  /** written and consumed are all the bytes that ever went in and out. */
  datatype State = State(buf: seq<nat>, readopen: bool, writeopen: bool, threads: map<nat, Thread>,
                         killed: set<nat>, written: seq<nat>, consumed: seq<nat>)

  datatype Action =
    | StartWrite(t: nat, src: seq<nat>) | StartRead(t: nat, n: nat)
    | WriteStep(t: nat, patience: nat, bad: nat) | ReadStep(t: nat, bad: nat)
    | Kill(t: nat) | CloseRead | CloseWrite

  predicate AsleepWriter(s: State, t: nat) { t in s.threads && s.threads[t].Writing? && s.threads[t].asleep }

  predicate AsleepReader(s: State, t: nat) { t in s.threads && s.threads[t].Reading? && s.threads[t].asleep }

  function WakeOne(th: Thread): Thread { if th.Idle? then th else th.(asleep := false) }

  /** Waking all readers, and all writers. */
  function WakeReaders(threads: map<nat, Thread>): map<nat, Thread> {
    map t | t in threads :: if threads[t].Reading? then WakeOne(threads[t]) else threads[t]
  }

  function WakeWriters(threads: map<nat, Thread>): map<nat, Thread> {
    map t | t in threads :: if threads[t].Writing? then WakeOne(threads[t]) else threads[t]
  }

  predicate Enabled(s: State, a: Action) {
    match a
    case StartWrite(t, src) => t in s.threads && s.threads[t].Idle?
    case StartRead(t, n) => t in s.threads && s.threads[t].Idle?
    case WriteStep(t, patience, _) =>
      t in s.threads && s.threads[t].Writing? && !s.threads[t].asleep && s.threads[t].i <= |s.threads[t].src| &&
      (t in s.killed ==> patience == 0)
    case ReadStep(t, _) => t in s.threads && s.threads[t].Reading? && !s.threads[t].asleep
    case Kill(t) => t in s.threads
    case CloseRead => s.readopen
    case CloseWrite => s.writeopen
  }

  function Next(s: State, a: Action): State
    requires Enabled(s, a)
  {
    match a
    case StartWrite(t, src) => s.(threads := s.threads[t := Writing(src, 0, false)])
    case StartRead(t, n) => s.(threads := s.threads[t := Reading(n, false)])
    case WriteStep(t, patience, bad) => WriteNext(s, t, patience, bad)
    case ReadStep(t, bad) => ReadNext(s, t, bad)
    case Kill(t) => s.(killed := s.killed + {t}, threads := s.threads[t := WakeOne(s.threads[t])])
    case CloseRead => s.(readopen := false, threads := WakeWriters(s.threads))
    case CloseWrite => s.(writeopen := false, threads := WakeReaders(s.threads))
  }

  /** pipewrite() until it sleeps or returns. */
  function WriteNext(s: State, t: nat, patience: nat, bad: nat): State
    requires Enabled(s, WriteStep(t, patience, bad))
  {
    var w := s.threads[t];
    var (b, j, e) := WriteRun(s.buf, w.src, w.i, s.readopen, patience, bad);
    WroteNext(s, t, b, j, e)
  }

  function WroteNext(s: State, t: nat, b: seq<nat>, j: nat, e: End): State
    requires t in s.threads && s.threads[t].Writing?
  {
    var w := s.threads[t];
    var s' := s.(buf := b, written := s.written + if w.i <= j <= |w.src| then w.src[w.i..j] else []);
    match e
    case Sleep => s'.(threads := WakeReaders(s.threads)[t := Writing(w.src, j, true)])
    case Return(_) => s'.(threads := WakeReaders(s.threads)[t := Idle])
    // a closed pipe or a kill: back to the caller without waking anybody
    case Fail => s'.(threads := s.threads[t := Idle], killed := if s.readopen then s.killed + {t} else s.killed)
  }

  /** piperead() until it sleeps or returns. */
  function ReadNext(s: State, t: nat, bad: nat): State
    requires Enabled(s, ReadStep(t, bad))
  {
    if s.buf == [] && s.writeopen then
      s.(threads := s.threads[t := if t in s.killed then Idle else s.threads[t].(asleep := true)])
    else
      var k := ReadCount(s.buf, s.threads[t].n, bad);
      s.(buf := s.buf[k..], consumed := s.consumed + s.buf[..k], threads := WakeWriters(s.threads)[t := Idle])
  }

  /** Bytes come out in the order they went in and none is lost; a sleeping writer means a full
      buffer, an open read end and no sleeping reader; a sleeping reader an open write end. */
  ghost predicate Inv(s: State) {
    var fifo, writers, readers := s.written == s.consumed + s.buf, WritersOk(s), ReadersOk(s);
    |s.buf| <= PIPESIZE && fifo && writers && readers
  }

  ghost predicate WritersOk(s: State) {
    (forall t :: t in s.threads && s.threads[t].Writing? ==> s.threads[t].i <= |s.threads[t].src|) &&
    forall t :: AsleepWriter(s, t) ==> |s.buf| == PIPESIZE && s.readopen && NoneReads(s)
  }

  ghost predicate NoneReads(s: State) { forall u :: !AsleepReader(s, u) }

  ghost predicate ReadersOk(s: State) { forall t :: AsleepReader(s, t) ==> s.writeopen }

  lemma WriteKeepsInv(s: State, t: nat, patience: nat, bad: nat)
    requires Inv(s) && Enabled(s, WriteStep(t, patience, bad))
    ensures Inv(WriteNext(s, t, patience, bad))
  {
    var w, s' := s.threads[t], WriteNext(s, t, patience, bad);
    WriteRunPuts(s.buf, w.src, w.i, s.readopen, patience, bad);
    var (b, j, e) := WriteRun(s.buf, w.src, w.i, s.readopen, patience, bad);
    WroteKeepsInv(s, t, b, j, e);
  }

  lemma WroteKeepsInv(s: State, t: nat, b: seq<nat>, j: nat, e: End)
    requires Inv(s) && t in s.threads && s.threads[t].Writing? && !s.threads[t].asleep && |b| <= PIPESIZE
    requires var w := s.threads[t]; w.i <= j <= |w.src| && b == s.buf + w.src[w.i..j]
    requires e == Sleep ==> |b| == PIPESIZE && s.readopen
    ensures Inv(WroteNext(s, t, b, j, e))
  {
    var s' := WroteNext(s, t, b, j, e);
    forall u | AsleepReader(s', u) ensures AsleepReader(s, u) && e == Fail { }
    forall u | AsleepWriter(s', u) && u != t ensures AsleepWriter(s, u) { }
  }

  lemma StepKeepsInv(s: State, a: Action)
    requires Inv(s) && Enabled(s, a)
    ensures Inv(Next(s, a))
  {
    match a {
      case WriteStep(t, patience, bad) => WriteKeepsInv(s, t, patience, bad);
      case ReadStep(t, bad) => ReadKeepsInv(s, t, bad);
      case StartWrite(t, src) => SameSleepers(s, Next(s, a));
      case StartRead(t, n) => SameSleepers(s, Next(s, a));
      case Kill(t) => SameSleepers(s, Next(s, a));
      case CloseRead =>
        var s' := Next(s, a);
        assert forall u :: !AsleepWriter(s', u);
        assert forall u :: AsleepReader(s', u) ==> AsleepReader(s, u);
      case CloseWrite =>
        var s' := Next(s, a);
        assert forall u :: !AsleepReader(s', u);
        assert forall u :: AsleepWriter(s', u) ==> AsleepWriter(s, u);
    }
  }

  /** Steps that only wake threads keep the invariant. */
  lemma SameSleepers(s: State, s': State)
    requires Inv(s) && s' == s.(threads := s'.threads, killed := s'.killed)
    requires forall u :: u in s'.threads && s'.threads[u].Writing? ==> s'.threads[u].i <= |s'.threads[u].src|
    requires forall u :: (AsleepWriter(s', u) ==> AsleepWriter(s, u)) && (AsleepReader(s', u) ==> AsleepReader(s, u))
    ensures Inv(s')
  {
  }

  lemma ReadKeepsInv(s: State, t: nat, bad: nat)
    requires Inv(s) && Enabled(s, ReadStep(t, bad))
    ensures Inv(ReadNext(s, t, bad))
  {
    var s' := ReadNext(s, t, bad);
    if s.buf == [] && s.writeopen {
      assert forall u :: AsleepWriter(s', u) ==> AsleepWriter(s, u);
      assert forall u :: AsleepReader(s', u) && u != t ==> AsleepReader(s, u);
    } else {
      assert forall u :: !AsleepWriter(s', u);
      assert forall u :: AsleepReader(s', u) ==> AsleepReader(s, u);
      var k := ReadCount(s.buf, s.threads[t].n, bad);
      assert s.buf == s.buf[..k] + s.buf[k..];
    }
  }

  // ---------- a reader that stays asleep ----------

  /** A reader sleeps although there are bytes for it. */
  ghost predicate LostWakeup(s: State) { s.buf != [] && exists t :: AsleepReader(s, t) }

  /** This comes about exactly when a writer that has put in bytes finds itself killed: it returns
      without waking the reader. */
  lemma LostWakeupIff(s: State, a: Action)
    requires Inv(s) && Enabled(s, a) && !LostWakeup(s)
    ensures LostWakeup(Next(s, a)) <==>
      a.WriteStep? && PutAndFailed(s, a.t, a.patience, a.bad) && exists u :: AsleepReader(s, u)
  {
    var s' := Next(s, a);
    match a {
      case WriteStep(t, patience, bad) => LostByWriter(s, t, patience, bad);
      case ReadStep(t, bad) =>
        if !(s.buf == [] && s.writeopen) {
          assert forall u :: AsleepReader(s', u) ==> AsleepReader(s, u);
        }
      case _ => assert forall u :: AsleepReader(s', u) ==> AsleepReader(s, u);
    }
  }

  /** The kill becomes visible after at least one byte is in and before the writer is done, finds
      the buffer full, or runs into a bad address. */
  predicate PutAndFailed(s: State, t: nat, patience: nat, bad: nat)
    requires Enabled(s, WriteStep(t, patience, bad))
  {
    var w := s.threads[t];
    s.readopen && 0 < patience && w.i + patience < |w.src| && |s.buf| + patience <= PIPESIZE && w.i + patience <= bad
  }

  lemma {:induction false} FailsIff(buf: seq<nat>, src: seq<nat>, i: nat, patience: nat, bad: nat)
    requires i <= |src| && |buf| <= PIPESIZE
    ensures var (b, j, e) := WriteRun(buf, src, i, true, patience, bad);
      e == Fail <==> i + patience < |src| && |buf| + patience <= PIPESIZE && (patience > 0 ==> i + patience <= bad)
    decreases |src| - i
  {
    if i < |src| && patience > 0 && |buf| < PIPESIZE && i < bad {
      FailsIff(buf + [src[i]], src, i + 1, patience - 1, bad);
    }
  }

  lemma LostByWriter(s: State, t: nat, patience: nat, bad: nat)
    requires Inv(s) && Enabled(s, WriteStep(t, patience, bad)) && !LostWakeup(s)
    ensures LostWakeup(WriteNext(s, t, patience, bad)) <==>
      PutAndFailed(s, t, patience, bad) && exists u :: AsleepReader(s, u)
  {
    var w, s' := s.threads[t], WriteNext(s, t, patience, bad);
    WriteRunPuts(s.buf, w.src, w.i, s.readopen, patience, bad);
    if s.readopen { FailsIff(s.buf, w.src, w.i, patience, bad); }
    var (b, j, e) := WriteRun(s.buf, w.src, w.i, s.readopen, patience, bad);
    assert forall u :: AsleepReader(s', u) <==> AsleepReader(s, u) && e == Fail;
  }

  // ---------- whole runs ----------

  /** pipealloc(): both ends open, nothing in it, nobody inside. */
  ghost predicate Init(s: State) {
    s.buf == [] && s.readopen && s.writeopen && s.written == [] && s.consumed == [] &&
    forall t :: t in s.threads ==> s.threads[t].Idle?
  }

  ghost predicate StepAt(ss: seq<State>, acts: seq<Action>, i: nat) {
    i < |acts| && i + 1 < |ss| && Enabled(ss[i], acts[i]) && ss[i + 1] == Next(ss[i], acts[i])
  }

  ghost predicate IsRun(ss: seq<State>, acts: seq<Action>) {
    |ss| == |acts| + 1 && Init(ss[0]) && forall i: nat :: i < |acts| ==> StepAt(ss, acts, i)
  }

  lemma {:induction false} RunKeepsInv(ss: seq<State>, acts: seq<Action>, i: nat)
    requires IsRun(ss, acts) && i < |ss|
    ensures Inv(ss[i])
  {
    if i > 0 {
      RunKeepsInv(ss, acts, i - 1);
      assert StepAt(ss, acts, i - 1);
      StepKeepsInv(ss[i - 1], acts[i - 1]);
    }
  }

  /** In every state of every run: first in, first out, and nobody waits for a sleeper. */
  lemma PipeSafety(ss: seq<State>, acts: seq<Action>, i: nat)
    requires IsRun(ss, acts) && i < |ss|
    ensures ss[i].written == ss[i].consumed + ss[i].buf && |ss[i].buf| <= PIPESIZE
    ensures forall t, u :: AsleepWriter(ss[i], t) ==>
      |ss[i].buf| == PIPESIZE && ss[i].readopen && !AsleepReader(ss[i], u)
    ensures forall t :: AsleepReader(ss[i], t) ==> ss[i].writeopen
  {
    RunKeepsInv(ss, acts, i);
  }

  predicate Leads(s: State, a: Action, s': State) { Enabled(s, a) && s' == Next(s, a) }

  /** Four steps in a row are a run. */
  lemma FourSteps(ss: seq<State>, acts: seq<Action>)
    requires |ss| == 5 && |acts| == 4 && Init(ss[0])
    requires Leads(ss[0], acts[0], ss[1]) && Leads(ss[1], acts[1], ss[2]) && Leads(ss[2], acts[2], ss[3]) &&
      Leads(ss[3], acts[3], ss[4])
    ensures IsRun(ss, acts)
  {
    forall i: nat | i < 4 ensures StepAt(ss, acts, i) {
      if i == 0 { } else if i == 1 { } else if i == 2 { } else { }
    }
  }

  /** Where reader 1 and writer 2 are. */
  function Two(r: Thread, w: Thread): map<nat, Thread> { map[1 := r, 2 := w] }

  lemma ReaderSleeps(s0: State, s1: State, s2: State)
    requires s0 == State([], true, true, Two(Idle, Idle), {}, [], [])
    requires s1 == s0.(threads := Two(Reading(1, false), Idle)) && s2 == s0.(threads := Two(Reading(1, true), Idle))
    ensures Leads(s0, StartRead(1, 1), s1) && Leads(s1, ReadStep(1, 0), s2)
  {
    assert s0.threads[1 := Reading(1, false)] == s1.threads;
    assert s1.threads[1 := Reading(1, true)] == s2.threads;
  }

  lemma WriterFails(s2: State, s3: State, s4: State)
    requires s2 == State([], true, true, Two(Reading(1, true), Idle), {}, [], [])
    requires s3 == s2.(threads := Two(Reading(1, true), Writing([7, 8], 0, false)))
    requires s4 == State([7], true, true, Two(Reading(1, true), Idle), {2}, [7], [])
    ensures Leads(s2, StartWrite(2, [7, 8]), s3) && Leads(s3, WriteStep(2, 1, 2), s4)
  {
    assert s2.threads[2 := Writing([7, 8], 0, false)] == s3.threads;
    assert WriteRun([7], [7, 8], 1, true, 0, 2) == ([7], 1, Fail);
    assert [] + [7] == [7] && [7, 8][0..1] == [7];
    assert s3.threads[2 := Idle] == s4.threads;
  }

  /** Such a state is reached: reader 1 finds the pipe empty and sleeps, writer 2 puts in one byte
      of two and is killed. */
  lemma LostWakeupHappens()
    ensures exists ss, acts :: IsRun(ss, acts) && |acts| == 4 && LostWakeup(ss[4])
  {
    var s0 := State([], true, true, Two(Idle, Idle), {}, [], []);
    var s1, s2 := s0.(threads := Two(Reading(1, false), Idle)), s0.(threads := Two(Reading(1, true), Idle));
    var s3 := s2.(threads := Two(Reading(1, true), Writing([7, 8], 0, false)));
    var s4 := State([7], true, true, Two(Reading(1, true), Idle), {2}, [7], []);
    ReaderSleeps(s0, s1, s2);
    WriterFails(s2, s3, s4);
    FourSteps([s0, s1, s2, s3, s4], [StartRead(1, 1), ReadStep(1, 0), StartWrite(2, [7, 8]), WriteStep(2, 1, 2)]);
    assert AsleepReader(s4, 1);
  }

  // ---------- what is written is read ----------

  /** A reader that does not wait takes the oldest bytes, as many as it wants and as there are (one
      more than it copies if its memory is bad), and wakes every writer. */
  lemma ReadsOldest(s: State, t: nat, bad: nat)
    requires Enabled(s, ReadStep(t, bad)) && (s.buf != [] || !s.writeopen)
    ensures var s', n := Next(s, ReadStep(t, bad)), s.threads[t].n;
      var most := if n < |s.buf| then n else |s.buf|;
      var k := if bad < most then bad + 1 else most;
      s'.consumed == s.consumed + s.buf[..k] && s'.buf == s.buf[k..] && s'.threads[t] == Idle &&
      forall u :: !AsleepWriter(s', u)
  {
  }

  /** A write that fits into an empty pipe goes in at once, and the next read that asks for as much
      gets exactly these bytes. */
  lemma Delivers(s: State, t: nat, u: nat, src: seq<nat>, n: nat)
    returns (s1: State, s2: State, s3: State, s4: State)
    requires t in s.threads && u in s.threads && t != u && s.threads[t] == Idle && s.threads[u] == Idle
    requires s.buf == [] && s.readopen && t !in s.killed && 0 < |src| <= PIPESIZE && n >= |src|
    ensures Enabled(s, StartWrite(t, src)) && s1 == Next(s, StartWrite(t, src))
    ensures Enabled(s1, WriteStep(t, |src| + 1, |src|)) && s2 == Next(s1, WriteStep(t, |src| + 1, |src|))
    ensures Enabled(s2, StartRead(u, n)) && s3 == Next(s2, StartRead(u, n))
    ensures Enabled(s3, ReadStep(u, n)) && s4 == Next(s3, ReadStep(u, n))
    ensures s4.consumed == s.consumed + src && s4.written == s.written + src && s4.buf == []
    ensures s4.threads[t] == Idle && s4.threads[u] == Idle
  {
    s1 := Next(s, StartWrite(t, src));
    WriteRunPuts([], src, 0, true, |src| + 1, |src|);
    s2 := Next(s1, WriteStep(t, |src| + 1, |src|));
    assert src[0..|src|] == src && [] + src == src;
    s3 := Next(s2, StartRead(u, n));
    s4 := Next(s3, ReadStep(u, n));
    assert s3.buf[..|src|] == src;
  }
}
