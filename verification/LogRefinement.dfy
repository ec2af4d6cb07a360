/** The log machine refines an atomic, crash-safe store of whole operations.

    The specification keeps two event histories: what would survive a crash now
    (`durable`) and what running threads see (`volatile`).  Only whole operations ever
    become durable, and they all do in one step. */
module LogRefinement {
  import opened LogMachine

  datatype Event = EBegin(t: Tid) | EWrite(t: Tid, b: nat, data: Block) | EEnd(t: Tid)

  type Image = map<nat, Block>

  /** The image obtained from `init` by the writes of a history, in order. */
  function Replay(init: Image, evs: seq<Event>): Image {
    if |evs| == 0 then init
    else
      var m := Replay(init, evs[..|evs| - 1]);
      match evs[|evs| - 1]
      case EWrite(_, b, data) => m[b := data]
      case _ => m
  }

  function ActiveAfter(a: set<Tid>, e: Event): set<Tid> {
    match e
    case EBegin(t) => a + {t}
    case EEnd(t) => a - {t}
    case _ => a
  }

  /** The operations a history has begun and not ended. */
  function Active(evs: seq<Event>): set<Tid> {
    if |evs| == 0 then {} else ActiveAfter(Active(evs[..|evs| - 1]), evs[|evs| - 1])
  }

  /** Begin and End alternate for every thread, and only active operations write. */
  ghost predicate Bracketed(evs: seq<Event>) {
    |evs| == 0 ||
    (Bracketed(evs[..|evs| - 1]) &&
     var e := evs[|evs| - 1];
     if e.EBegin? then e.t !in Active(evs[..|evs| - 1]) else e.t in Active(evs[..|evs| - 1]))
  }

  ghost predicate Whole(evs: seq<Event>) { Bracketed(evs) && Active(evs) == {} }

  datatype Spec = Spec(durable: seq<Event>, volatile: seq<Event>)

  /** write_head with a non-empty header is the commit point; a commit with nothing logged
      has nothing to write. */
  predicate CommitPoint(s: State) {
    (s.phase.WriteLog? && s.phase.k >= |s.lh|) || (s.phase.CommitStart? && s.lh == [])
  }

  function SpecNext(s: State, a: Action, sp: Spec): Spec {
    match a
    case Begin(t) => sp.(volatile := sp.volatile + [EBegin(t)])
    case Modify(t, b, data) => sp.(volatile := sp.volatile + [EWrite(t, b, data)])
    case End(t) => if s.committing then sp else sp.(volatile := sp.volatile + [EEnd(t)])
    case CommitStep => if CommitPoint(s) then sp.(durable := sp.volatile) else sp
    case Crash => sp.(volatile := sp.durable)
    case _ => sp
  }

  /** What bread returns for a block. */
  function View(s: State, b: nat): Block {
    if b in s.cache && s.cache[b].valid then s.cache[b].data else At(s.disk, b)
  }

  ghost predicate DurableIs(c: Config, disk: seq<Block>, img: Image) {
    forall b: nat :: Home(c, b) ==> b in img && img[b] == Recovered(c, disk, b)
  }

  ghost predicate ViewIs(c: Config, s: State, img: Image) {
    forall b: nat :: Home(c, b) ==> b in img && img[b] == View(s, b)
  }

  /** The histories are bracketed and nested, and the active operations agree. */
  ghost predicate Histories(ops: set<Tid>, sp: Spec) {
    Whole(sp.durable) && Bracketed(sp.volatile) && sp.durable <= sp.volatile && Active(sp.volatile) == ops
  }

  ghost predicate Rel(c: Config, init: Image, s: State, sp: Spec) {
    Inv(c, s) && Histories(s.ops.Keys, sp) &&
    DurableIs(c, s.disk, Replay(init, sp.durable)) &&
    (if Booting(s) then sp.volatile == sp.durable else ViewIs(c, s, Replay(init, sp.volatile)))
  }

  // ---------- one step ----------

  function OpsAfter(s: State, a: Action): set<Tid> {
    match a
    case Begin(t) => s.ops.Keys + {t}
    case End(t) => if s.committing then s.ops.Keys else s.ops.Keys - {t}
    case Crash => {}
    case _ => s.ops.Keys
  }

  lemma OpsOfNext(c: Config, s: State, a: Action)
    requires Enabled(c, s, a)
    ensures Next(c, s, a).ops.Keys == OpsAfter(s, a)
  {
    if a.CommitStep? { assert CommitNext(c, s).ops == s.ops; }
  }

  /** One more event, by the rules. */
  lemma Extend(evs: seq<Event>, e: Event)
    requires Bracketed(evs) && if e.EBegin? then e.t !in Active(evs) else e.t in Active(evs)
    ensures Bracketed(evs + [e]) && evs <= evs + [e]
    ensures Active(evs + [e]) == ActiveAfter(Active(evs), e)
  {
    assert (evs + [e])[..|evs + [e]| - 1] == evs;
  }

  lemma HistoryEvent(ops: set<Tid>, sp: Spec, e: Event)
    requires Histories(ops, sp) && if e.EBegin? then e.t !in ops else e.t in ops
    ensures Histories(ActiveAfter(ops, e), sp.(volatile := sp.volatile + [e]))
  {
    Extend(sp.volatile, e);
  }

  lemma HistoryCommit(c: Config, s: State, sp: Spec)
    requires OpsOk(c, s) && CommitEnabled(c, s) && Histories(s.ops.Keys, sp) && CommitPoint(s)
    ensures Histories(s.ops.Keys, sp.(durable := sp.volatile))
  {
    assert s.ops.Keys == {};
  }

  lemma HistoryStep(c: Config, s: State, a: Action, sp: Spec)
    requires OpsOk(c, s) && Enabled(c, s, a) && Histories(s.ops.Keys, sp)
    ensures Histories(OpsAfter(s, a), SpecNext(s, a, sp))
  {
    match a
    case Begin(t) => HistoryEvent(s.ops.Keys, sp, EBegin(t));
    case Modify(t, b, data) => HistoryEvent(s.ops.Keys, sp, EWrite(t, b, data));
    case End(t) => if !s.committing { HistoryEvent(s.ops.Keys, sp, EEnd(t)); }
    case CommitStep => if CommitPoint(s) { HistoryCommit(c, s, sp); }
    case _ =>
  }

  lemma StepKeepsInv(c: Config, s: State, a: Action)
    requires Inv(c, s) && Enabled(c, s, a)
    ensures Inv(c, Next(c, s, a))
  {
    match a
    case Begin(t) => BeginKeepsInv(c, s, t);
    case Modify(t, b, data) => ModifyKeepsInv(c, s, t, b, data);
    case LogWrite(t, b) => LogWriteKeepsInv(c, s, t, b);
    case Evict(b) => EvictKeepsInv(c, s, b);
    case End(t) => EndKeepsInv(c, s, t);
    case Crash => CrashKeepsInv(c, s);
    case CommitStep => CommitKeepsInv(c, s);
    case _ => CacheStepKeepsInv(c, s, a);
  }

  lemma CommitKeepsInv(c: Config, s: State)
    requires Inv(c, s) && CommitEnabled(c, s)
    ensures Inv(c, CommitNext(c, s))
  {
    match s.phase
    case WriteLog(k) => if k < |s.lh| { WriteLogCopyKeepsInv(c, s); } else { CommitPointKeepsInv(c, s); }
    case Install(k) => if k < |s.lh| { InstallOneKeepsInv(c, s); } else { ClearKeepsInv(c, s); }
    case RecInstall(k) => if k < |s.lh| { InstallOneKeepsInv(c, s); } else { ClearKeepsInv(c, s); }
    case _ => QuietKeepsInv(c, s);
  }

  /** Outside write_log the recovered image is what a reader sees once no operation is
      active: during installation, after it, and when nothing was logged. */
  lemma ViewIsRecovered(c: Config, s: State, b: nat)
    requires Inv(c, s) && s.ops == map[] && Home(c, b)
    requires s.phase.Install? || (!Booting(s) && Pinned(s) == [])
    ensures View(s, b) == Recovered(c, s.disk, b)
  {
    if s.phase.Install? {
      InstallView(c, s, b);
    }
  }

  lemma InstallView(c: Config, s: State, b: nat)
    requires Shape(c, s) && PinsOk(s) && Coherent(s) && HeaderOk(c, s) && LogCopied(c, s) && Installed(c, s)
    requires s.phase.Install? && s.ops == map[] && Home(c, b)
    ensures View(s, b) == Recovered(c, s.disk, b)
  {
    if LogIndex(s.lh, b) >= s.phase.k { PendingView(c, s, b); } else { SettledView(c, s, b); }
  }

  /** A block that is still to be installed: the cache and the log block agree. */
  lemma PendingView(c: Config, s: State, b: nat)
    requires PinsOk(s) && HeaderOk(c, s) && LogCopied(c, s) && s.phase.Install? && LogIndex(s.lh, b) >= s.phase.k
    ensures View(s, b) == Recovered(c, s.disk, b)
  {
    var j, k := LogIndex(s.lh, b), s.phase.k;
    assert s.lh[j] == Pinned(s)[j - k];
  }

  /** A block that is installed or was not logged: the cache and the disk agree. */
  lemma SettledView(c: Config, s: State, b: nat)
    requires Shape(c, s) && Coherent(s) && HeaderOk(c, s) && Installed(c, s) && s.phase.Install? && s.ops == map[]
    requires LogIndex(s.lh, b) < s.phase.k
    ensures View(s, b) == Recovered(c, s.disk, b)
  {
    var j := LogIndex(s.lh, b);
    if j >= 0 {
      InstalledNotPinned(c, s, j);
    } else {
      assert forall x :: x in Pinned(s) ==> x in s.lh;
    }
  }

  lemma InstalledNotPinned(c: Config, s: State, j: nat)
    requires Shape(c, s) && s.phase.Install? && j < s.phase.k <= |s.lh|
    ensures s.lh[j] !in Pinned(s)
  {
    var k := s.phase.k;
    assert forall i :: 0 <= i < |Pinned(s)| ==> Pinned(s)[i] == s.lh[k + i];
  }

  /** No commit step other than the commit point changes what recovery would produce. */
  lemma CommitStepRecovered(c: Config, s: State, b: nat)
    requires Inv(c, s) && CommitEnabled(c, s) && Home(c, b)
    requires !CommitPoint(s)
    ensures Recovered(c, CommitNext(c, s).disk, b) == Recovered(c, s.disk, b)
  {
    if s.phase.WriteLog? {
      assert Header(c, CommitNext(c, s).disk) == Header(c, s.disk);
    } else if s.phase.Install? || s.phase.RecInstall? {
      InstallStepRecovered(c, s, b);
    }
  }

  lemma InstallStepDisk(c: Config, s: State)
    requires Inv(c, s) && (s.phase.Install? || s.phase.RecInstall?) && CommitEnabled(c, s) && s.phase.k < |s.lh|
    ensures s.lh[s.phase.k] < |s.disk|
    ensures CommitNext(c, s).disk == s.disk[s.lh[s.phase.k] := At(s.disk, c.start + 1 + s.phase.k)]
  {
    assert s.ops == map[];
    InstallOneIs(c, s);
  }

  lemma ClearStepDisk(c: Config, s: State)
    requires Inv(c, s) && (s.phase.Install? || s.phase.RecInstall?) && CommitEnabled(c, s) && s.phase.k >= |s.lh|
    ensures var d' := CommitNext(c, s).disk;
      c.start < |s.disk| && d' == s.disk[c.start := At(d', c.start)] && Header(c, d') == []
  {
  }

  lemma InstallOneRecovered(c: Config, s: State, d': seq<Block>, b: nat)
    requires Shape(c, s) && HeaderOk(c, s) && Home(c, b) && (s.phase.Install? || s.phase.RecInstall?)
    requires s.phase.k < |s.lh| && s.lh[s.phase.k] < |s.disk|
    requires d' == s.disk[s.lh[s.phase.k] := At(s.disk, c.start + 1 + s.phase.k)]
    ensures Recovered(c, d', b) == Recovered(c, s.disk, b)
  {
    InstallRecovered(c, s.disk, d', s.lh, s.phase.k, b);
  }

  lemma ClearStepRecovered(c: Config, s: State, b: nat)
    requires Inv(c, s) && Home(c, b) && (s.phase.Install? || s.phase.RecInstall?)
    requires CommitEnabled(c, s) && s.phase.k >= |s.lh|
    ensures Recovered(c, CommitNext(c, s).disk, b) == Recovered(c, s.disk, b)
  {
    ClearStepDisk(c, s);
    AllInstalled(c, s);
    ClearRecovered(c, s.disk, CommitNext(c, s).disk, s.lh, b);
  }

  lemma AllInstalled(c: Config, s: State)
    requires HeaderOk(c, s) && Installed(c, s) && (s.phase.Install? || s.phase.RecInstall?) && s.phase.k >= |s.lh|
    ensures Header(c, s.disk) == s.lh
    ensures forall j :: 0 <= j < |s.lh| ==> At(s.disk, s.lh[j]) == At(s.disk, c.start + 1 + j)
  {
  }

  lemma InstallStepRecovered(c: Config, s: State, b: nat)
    requires Inv(c, s) && Home(c, b) && (s.phase.Install? || s.phase.RecInstall?)
    requires CommitEnabled(c, s)
    ensures Recovered(c, CommitNext(c, s).disk, b) == Recovered(c, s.disk, b)
  {
    if s.phase.k < |s.lh| {
      InstallStepDisk(c, s);
      InstallOneRecovered(c, s, CommitNext(c, s).disk, b);
    } else {
      ClearStepRecovered(c, s, b);
    }
  }

  lemma InstallRecovered(c: Config, d: seq<Block>, d': seq<Block>, bs: seq<nat>, k: nat, b: nat)
    requires ValidConfig(c) && |d| == c.nblocks && ListOk(c, bs) && k < |bs| && Home(c, b)
    requires Header(c, d) == bs && d' == d[bs[k] := At(d, c.start + 1 + k)]
    ensures Recovered(c, d', b) == Recovered(c, d, b)
  {
    assert Home(c, bs[k]);
  }

  lemma ClearRecovered(c: Config, d: seq<Block>, d': seq<Block>, bs: seq<nat>, b: nat)
    requires ValidConfig(c) && |d| == c.nblocks && ListOk(c, bs) && Home(c, b)
    requires Header(c, d) == bs
    requires forall j :: 0 <= j < |bs| ==> At(d, bs[j]) == At(d, c.start + 1 + j)
    requires d' == d[c.start := At(d', c.start)] && Header(c, d') == []
    ensures Recovered(c, d', b) == Recovered(c, d, b)
  {
    var j := LogIndex(bs, b);
    if j >= 0 { assert At(d, bs[j]) == At(d, c.start + 1 + j); }
  }

  /** write_log does not change what readers see of home blocks. */
  lemma WriteLogView(c: Config, s: State, b: nat)
    requires Inv(c, s) && s.phase.WriteLog? && CommitEnabled(c, s) && Home(c, b)
    ensures View(CommitNext(c, s), b) == View(s, b)
  {
  }

  /** What a step leaves on the disk for recovery: the commit point makes the current view
      durable, every other step leaves the recovered image alone. */
  lemma StepRecovered(c: Config, s: State, a: Action, b: nat)
    requires Inv(c, s) && Enabled(c, s, a) && Home(c, b) && Inv(c, Next(c, s, a))
    ensures Recovered(c, Next(c, s, a).disk, b) ==
      if a.CommitStep? && CommitPoint(s) then View(s, b) else Recovered(c, s.disk, b)
  {
    var s' := Next(c, s, a);
    if a.CommitStep? {
      if CommitPoint(s) {
        assert s.ops == map[];
        if s.phase.CommitStart? { ViewIsRecovered(c, s, b); }
        else { ViewIsRecovered(c, s', b); WriteLogView(c, s, b); }
      } else {
        CommitStepRecovered(c, s, b);
      }
    } else {
      assert s'.disk == s.disk;
    }
  }

  lemma CommitStepView(c: Config, s: State, b: nat)
    requires Inv(c, s) && !Booting(s) && CommitEnabled(c, s) && Home(c, b) && Inv(c, CommitNext(c, s))
    ensures View(CommitNext(c, s), b) == View(s, b)
  {
    if s.phase.WriteLog? { WriteLogView(c, s, b); }
    else if s.phase.Install? {
      ViewIsRecovered(c, s, b);
      InstallStepRecovered(c, s, b);
      ViewIsRecovered(c, CommitNext(c, s), b);
    }
  }

  lemma EvictView(c: Config, s: State, x: nat, b: nat)
    requires CacheOk(c, s) && Coherent(s) && Enabled(c, s, Evict(x))
    ensures View(Next(c, s, Evict(x)), b) == View(s, b)
  {
    if x == b { assert !IsDirty(s, b) && b !in Pinned(s); }
  }

  lemma CacheStepView(c: Config, s: State, a: Action, b: nat)
    requires Enabled(c, s, a) && !a.CommitStep? && !a.Evict? && !a.Crash?
    ensures View(Next(c, s, a), b) == if a.Modify? && a.b == b then a.data else View(s, b)
  {
  }

  /** What a step does to the contents readers see. */
  lemma StepView(c: Config, s: State, a: Action, b: nat)
    requires Inv(c, s) && Enabled(c, s, a) && Home(c, b) && Inv(c, Next(c, s, a))
    requires !Booting(s) && !a.Crash?
    ensures View(Next(c, s, a), b) == if a.Modify? && a.b == b then a.data else View(s, b)
  {
    if a.CommitStep? { CommitStepView(c, s, b); }
    else if a.Evict? { EvictView(c, s, a.b, b); }
    else { CacheStepView(c, s, a, b); }
  }

  /** View of the next state in terms of the current one. */
  ghost predicate ViewAfter(c: Config, s: State, a: Action, s': State) {
    forall b: nat :: Home(c, b) ==> View(s', b) == if a.Modify? && a.b == b then a.data else View(s, b)
  }

  lemma StepViewAll(c: Config, s: State, a: Action)
    requires Inv(c, s) && Enabled(c, s, a) && Inv(c, Next(c, s, a))
    requires !Booting(s) && !a.Crash?
    ensures ViewAfter(c, s, a, Next(c, s, a))
  {
    forall b: nat | Home(c, b)
      ensures View(Next(c, s, a), b) == if a.Modify? && a.b == b then a.data else View(s, b)
    {
      StepView(c, s, a, b);
    }
  }

  lemma DurableStep(c: Config, init: Image, s: State, sp: Spec, a: Action)
    requires Rel(c, init, s, sp) && Enabled(c, s, a) && Inv(c, Next(c, s, a))
    ensures DurableIs(c, Next(c, s, a).disk, Replay(init, SpecNext(s, a, sp).durable))
  {
    forall b: nat | Home(c, b)
      ensures Recovered(c, Next(c, s, a).disk, b) ==
        if a.CommitStep? && CommitPoint(s) then View(s, b) else Recovered(c, s.disk, b)
    {
      StepRecovered(c, s, a, b);
    }
  }

  lemma ReplaySnoc(init: Image, evs: seq<Event>, e: Event)
    ensures Replay(init, evs + [e]) ==
      if e.EWrite? then Replay(init, evs)[e.b := e.data] else Replay(init, evs)
  {
    assert (evs + [e])[..|evs + [e]| - 1] == evs;
  }

  lemma ViewStep(c: Config, init: Image, s: State, s': State, sp: Spec, a: Action)
    requires ViewIs(c, s, Replay(init, sp.volatile))
    requires ViewAfter(c, s, a, s') && !a.Crash?
    ensures ViewIs(c, s', Replay(init, SpecNext(s, a, sp).volatile))
  {
    if a.Begin? { ReplaySnoc(init, sp.volatile, EBegin(a.t)); }
    else if a.Modify? { ReplaySnoc(init, sp.volatile, EWrite(a.t, a.b, a.data)); }
    else if a.End? { ReplaySnoc(init, sp.volatile, EEnd(a.t)); }
  }

  lemma BootPhase(c: Config, s: State, a: Action)
    requires OpsOk(c, s) && Enabled(c, s, a)
    ensures !Booting(s) && !a.Crash? ==> !Booting(Next(c, s, a))
    ensures Booting(s) ==> !a.Begin? && !a.Modify? && !a.End? && !(a.CommitStep? && CommitPoint(s))
    ensures Booting(s) && !a.Crash? && !Booting(Next(c, s, a)) ==>
      Next(c, s, a).phase.Running? && Next(c, s, a).lh == []
  {
  }

  /** Once recovery is over, readers see the recovered image. */
  lemma BootView(c: Config, s: State)
    requires Inv(c, s) && s.phase.Running? && s.lh == [] && s.ops == map[]
    ensures forall b: nat :: Home(c, b) ==> View(s, b) == Recovered(c, s.disk, b)
  {
    forall b: nat | Home(c, b) ensures View(s, b) == Recovered(c, s.disk, b) {
      ViewIsRecovered(c, s, b);
    }
  }

  /** Every step of the machine is a step, or no step, of the specification. */
  lemma StepRefines(c: Config, init: Image, s: State, sp: Spec, a: Action)
    requires Rel(c, init, s, sp) && Enabled(c, s, a)
    ensures Rel(c, init, Next(c, s, a), SpecNext(s, a, sp))
  {
    var s' := Next(c, s, a);
    StepKeepsInv(c, s, a);
    OpsOfNext(c, s, a);
    HistoryStep(c, s, a, sp);
    DurableStep(c, init, s, sp, a);
    BootPhase(c, s, a);
    if !a.Crash? && !Booting(s) {
      StepViewAll(c, s, a);
      ViewStep(c, init, s, s', sp, a);
    } else if !Booting(s') {
      BootView(c, s');
    }
  }
}
