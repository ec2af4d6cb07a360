/** What every run of the virtio driver and device keeps. */
module VirtioProof {
  import opened Common
  import opened Virtio

  /** The chain of a waiting call is in the descriptor table as it was formatted. */
  ghost predicate ChainOk(s: State, h: nat) {
    h in s.reqs && h < NUM && h < |s.info| && h < |s.ops| && |s.desc| == NUM &&
    var r := s.reqs[h];
    ChainAt(s.desc, h, r.d1, r.d2) && s.desc[h].addr == Header(h) && s.ops[h] == Op(r.write, 2 * r.blockno) &&
    s.desc[r.d1].addr == Data(r.b) && s.desc[r.d2].addr == Status(h) && s.info[h].b == r.b &&
    !s.desc[h].write && s.desc[r.d1].write == !r.write && s.desc[r.d2].write &&
    (r.stage == Seen ==> s.info[h].status == 0)
  }

  ghost predicate ChainsOk(s: State) { forall h {:trigger ChainOk(s, h)} :: h in s.reqs ==> ChainOk(s, h) }

  /** A descriptor is in one chain or free. */
  ghost predicate OwnerOk(s: State) {
    |s.free| == NUM && (forall i :: i in s.owner ==> i < NUM && InChain(s, s.owner[i], i)) &&
    (forall i: nat :: i < NUM ==> (s.free[i] <==> i !in s.owner)) &&
    forall h {:trigger Owns(s, h)} :: h in s.reqs ==> Owns(s, h)
  }

  ghost predicate InChain(s: State, h: nat, i: nat) {
    h in s.reqs && (i == h || i == s.reqs[h].d1 || i == s.reqs[h].d2)
  }

  ghost predicate Owns(s: State, h: nat) {
    h in s.reqs && h in s.owner && s.reqs[h].d1 in s.owner && s.reqs[h].d2 in s.owner &&
    s.owner[h] == h && s.owner[s.reqs[h].d1] == h && s.owner[s.reqs[h].d2] == h
  }

  /** A call waits for its own buffer, whose flag is set until the interrupt handler clears it. */
  ghost predicate BufOk(s: State, h: nat) {
    h in s.reqs && s.reqs[h].b in s.bufs && s.bufs[s.reqs[h].b].blockno == s.reqs[h].blockno &&
    (s.bufs[s.reqs[h].b].disk <==> s.reqs[h].stage != Seen)
  }

  ghost predicate SameBuf(s: State, g: nat, h: nat) { g in s.reqs && h in s.reqs && s.reqs[g].b == s.reqs[h].b }

  ghost predicate BufsOk(s: State) {
    (forall h {:trigger BufOk(s, h)} :: h in s.reqs ==> BufOk(s, h)) &&
    forall g, h {:trigger SameBuf(s, g, h)} :: g in s.reqs && h in s.reqs && g != h ==> !SameBuf(s, g, h)
  }

  /** A list holds exactly the chains at a stage, each once. */
  ghost predicate Lists(s: State, q: seq<nat>, stage: Stage) {
    Distinct(q) && forall h :: h in q <==> h in s.reqs && s.reqs[h].stage == stage
  }

  ghost predicate StagesOk(s: State) {
    Lists(s, s.pend, Queued) && Lists(s, s.done, Done) &&
    forall h :: h in s.taken <==> h in s.reqs && s.reqs[h].stage == Taken
  }

  ghost predicate EntryIs(ring: seq<nat>, x: nat, q: seq<nat>, i: nat) {
    |ring| == NUM && i < |q| && ring[Slot(x, i)] == q[i]
  }

  /** Entries from index x on are the list q, and y is the index after it. */
  ghost predicate RingOk(ring: seq<nat>, x: nat, y: nat, q: seq<nat>) {
    |ring| == NUM && y == (x + |q|) % U16 &&
    forall i: nat {:trigger EntryIs(ring, x, q, i)} :: i < |q| ==> EntryIs(ring, x, q, i)
  }

  ghost predicate Inv(s: State) {
    var shape, chains, own, bufs, stages := Shape(s), ChainsOk(s), OwnerOk(s), BufsOk(s), StagesOk(s);
    var avail, used := RingOk(s.ring, s.devAvail, s.availIdx, s.pend), RingOk(s.usedRing, s.usedIdx, s.usedDev, s.done);
    shape && chains && own && bufs && stages && avail && used && CountFree(s.free) + 3 * |s.reqs| == NUM
  }

  // ---------- rings ----------

  lemma {:induction false} ListFew(q: seq<nat>, keys: set<nat>)
    requires Distinct(q) && forall h :: h in q ==> h in keys
    ensures |q| <= |keys|
  {
    if q != [] {
      var h := q[|q| - 1];
      assert h in q;
      ListFew(q[..|q| - 1], keys - {h});
    }
  }

  /** No list is longer than two, so no pending entry is in the way of the next one. */
  lemma Few(s: State)
    requires Inv(s)
    ensures |s.reqs| <= 2 && |s.pend| <= 2 && |s.done| <= 2
  {
    ListFew(s.pend, s.reqs.Keys);
    ListFew(s.done, s.reqs.Keys);
  }

  lemma SlotsApart(x: nat, i: nat, j: nat)
    requires i < j < NUM
    ensures Slot(x, i) != Slot(x, j)
  {
    assert U16 % NUM == 0;
    SlotIs(x, i);
    SlotIs(x, j);
  }

  /** The 16-bit index wraps without disturbing the ring, because NUM divides 2^16. */
  lemma SlotIs(x: nat, i: nat)
    ensures Slot(x, i) == (x + i) % NUM
  {
    var y := x + i;
    assert y == y / U16 * U16 + y % U16;
    assert y / U16 * U16 == NUM * (y / U16 * (U16 / NUM));
    ModAdd(y / U16 * (U16 / NUM), y % U16);
  }

  lemma ModAdd(k: nat, z: nat)
    ensures (NUM * k + z) % NUM == z % NUM
  {
  }

  /** A new entry does not overwrite a pending one. */
  lemma RingPush(ring: seq<nat>, x: nat, y: nat, q: seq<nat>, h: nat)
    requires RingOk(ring, x, y, q) && |q| < NUM && x < U16 && y < U16
    ensures RingOk(ring[Slot(y, 0) := h], x, Inc(y), q + [h])
    ensures forall i: nat :: i < |q| ==> Slot(x, i) != Slot(y, 0)
  {
    assert Slot(y, 0) == Slot(x, |q|);
    var ring', q' := ring[Slot(y, 0) := h], q + [h];
    forall i: nat | i < |q| ensures Slot(x, i) != Slot(x, |q|) { SlotsApart(x, i, |q|); }
    forall i: nat | i < |q'| ensures EntryIs(ring', x, q', i) {
      assert i < |q| ==> EntryIs(ring, x, q, i);
    }
  }

  lemma SlotNext(x: nat, i: nat)
    requires x < U16
    ensures Slot(Inc(x), i) == Slot(x, i + 1)
  {
    SlotIs(Inc(x), i);
    SlotIs(x, i + 1);
    if x + 1 == U16 { ModAdd(U16 / NUM, i); }
  }

  lemma RingPop(ring: seq<nat>, x: nat, y: nat, q: seq<nat>)
    requires RingOk(ring, x, y, q) && x != y && x < U16 && |q| < U16
    ensures q != [] && ring[Slot(x, 0)] == q[0] && RingOk(ring, Inc(x), y, q[1..])
  {
    assert q != [];
    assert EntryIs(ring, x, q, 0);
    var q' := q[1..];
    forall i: nat | i < |q'| ensures EntryIs(ring, Inc(x), q', i) {
      assert EntryIs(ring, x, q, i + 1);
      SlotNext(x, i);
    }
  }

  // ---------- the steps keep the invariant ----------

  /** A chain moves to another stage. */
  lemma MoveChains(s: State, s': State, h: nat, stage: Stage)
    requires ChainsOk(s) && h in s.reqs && s'.reqs == SetStage(s.reqs, h, stage)
    requires s'.desc == s.desc && s'.ops == s.ops && |s'.info| == |s.info| == NUM
    requires forall g: nat :: g < NUM && g != h ==> s'.info[g] == s.info[g]
    requires h < NUM && s'.info[h].b == s.info[h].b && (stage == Seen ==> s'.info[h].status == 0)
    ensures ChainsOk(s')
  {
    forall g | g in s'.reqs ensures ChainOk(s', g) { assert ChainOk(s, g); }
  }

  lemma MoveOwner(s: State, s': State, h: nat, stage: Stage)
    requires OwnerOk(s) && h in s.reqs && s'.reqs == SetStage(s.reqs, h, stage) && s'.free == s.free &&
      s'.owner == s.owner
    ensures OwnerOk(s') && |s'.reqs| == |s.reqs|
  {
    forall g | g in s'.reqs ensures Owns(s', g) { assert Owns(s, g); }
    forall i | i in s'.owner ensures i < NUM && InChain(s', s'.owner[i], i) { assert InChain(s, s.owner[i], i); }
    assert s'.reqs.Keys == s.reqs.Keys;
  }

  /** The flag of a chain's buffer is cleared when the handler sees it, and only then. */
  lemma MoveBufs(s: State, s': State, h: nat, stage: Stage)
    requires BufsOk(s) && h in s.reqs && s.reqs[h].stage != Seen && s'.reqs == SetStage(s.reqs, h, stage)
    requires s'.bufs.Keys == s.bufs.Keys
    requires forall b :: b in s.bufs ==> s'.bufs[b].blockno == s.bufs[b].blockno
    requires forall b :: b in s.bufs ==> s'.bufs[b].disk == (s.bufs[b].disk && !(stage == Seen && b == s.reqs[h].b))
    ensures BufsOk(s')
  {
    assert BufOk(s, h);
    forall g | g in s'.reqs ensures BufOk(s', g) {
      assert BufOk(s, g) && (g != h ==> !SameBuf(s, g, h));
    }
    forall f, g | f in s'.reqs && g in s'.reqs && f != g ensures !SameBuf(s', f, g) { assert !SameBuf(s, f, g); }
  }

  lemma MovedFrom(s: State, s': State, h: nat, stage: Stage, q: seq<nat>)
    requires h in s.reqs && Lists(s, q, s.reqs[h].stage) && stage != s.reqs[h].stage &&
      s'.reqs == SetStage(s.reqs, h, stage)
    requires q != [] && q[0] == h
    ensures Lists(s', q[1..], s.reqs[h].stage)
  {
    var q' := q[1..];
    forall g | g in q && g != h ensures g in q' {
      var i :| 0 <= i < |q| && q[i] == g;
      assert q'[i - 1] == g;
    }
  }

  lemma MovedTo(s: State, s': State, h: nat, stage: Stage, q: seq<nat>)
    requires h in s.reqs && Lists(s, q, stage) && stage != s.reqs[h].stage && s'.reqs == SetStage(s.reqs, h, stage)
    ensures Lists(s', q + [h], stage)
  {
  }

  lemma MovedPast(s: State, s': State, h: nat, stage: Stage, q: seq<nat>, other: Stage)
    requires h in s.reqs && Lists(s, q, other) && other != s.reqs[h].stage && other != stage &&
      s'.reqs == SetStage(s.reqs, h, stage)
    ensures Lists(s', q, other)
  {
  }

  lemma TakeKeepsInv(s: State)
    requires Inv(s) && Enabled(s, DevTake)
    ensures Inv(TakeNext(s))
  {
    Few(s);
    RingPop(s.ring, s.devAvail, s.availIdx, s.pend);
    var h, s' := s.pend[0], TakeNext(s);
    assert h in s.pend;
    assert ChainOk(s, h);
    MoveChains(s, s', h, Taken);
    MoveOwner(s, s', h, Taken);
    MoveBufs(s, s', h, Taken);
    MovedFrom(s, s', h, Taken, s.pend);
    MovedPast(s, s', h, Taken, s.done, Done);
  }

  /** What the device does for a chain it took is the transfer its call asked for. */
  lemma ServesRequest(s: State, h: nat, status: nat)
    requires Shape(s) && ChainsOk(s) && BufsOk(s) && h in s.reqs
    ensures var r := s.reqs[h];
      r.b in s.bufs && h < NUM &&
      Serve(s, h, status) ==
        Transfer(s, Op(r.write, 2 * r.blockno), r.b, status).(info := s.info[h := s.info[h].(status := status)])
  {
    assert ChainOk(s, h) && BufOk(s, h);
  }

  /** The state after the device completed a chain, as far as the invariant goes. */
  ghost predicate AfterDone(s: State, s': State, h: nat, status: nat) {
    s'.free == s.free && s'.desc == s.desc && s'.ops == s.ops && s'.ring == s.ring && s'.availIdx == s.availIdx &&
    s'.usedIdx == s.usedIdx && s'.devAvail == s.devAvail && s'.owner == s.owner && s'.pend == s.pend &&
    h < NUM && |s.info| == |s.usedRing| == NUM && s'.info == s.info[h := s.info[h].(status := status)] &&
    s'.usedRing == s.usedRing[Slot(s.usedDev, 0) := h] && s'.usedDev == Inc(s.usedDev) && s'.taken == s.taken - {h} &&
    s'.reqs == SetStage(s.reqs, h, Done) && s'.done == s.done + [h] && s'.bufs.Keys == s.bufs.Keys &&
    forall b :: b in s.bufs ==> s'.bufs[b].(data := s.bufs[b].data) == s.bufs[b]
  }

  lemma DoneIs(s: State, h: nat, status: nat)
    requires Inv(s) && Enabled(s, DevDone(h, status))
    ensures AfterDone(s, DoneNext(s, h, status), h, status)
  {
    ServesRequest(s, h, status);
  }

  lemma AfterDoneInv(s: State, s': State, h: nat, status: nat)
    requires Inv(s) && h in s.taken && AfterDone(s, s', h, status)
    ensures Inv(s')
  {
    Few(s);
    RingPush(s.usedRing, s.usedIdx, s.usedDev, s.done, h);
    MoveChains(s, s', h, Done);
    MoveOwner(s, s', h, Done);
    MoveBufs(s, s', h, Done);
    MovedTo(s, s', h, Done, s.done);
    MovedPast(s, s', h, Done, s.pend, Queued);
  }

  lemma DoneKeepsInv(s: State, h: nat, status: nat)
    requires Inv(s) && Enabled(s, DevDone(h, status))
    ensures Inv(DoneNext(s, h, status))
  {
    DoneIs(s, h, status);
    AfterDoneInv(s, DoneNext(s, h, status), h, status);
  }

  /** virtio_disk_intr() finds a chain that the device completed, with its buffer. */
  lemma IntrSees(s: State)
    requires Inv(s) && Enabled(s, Intr)
    ensures s.done != [] && s.done[0] == s.usedRing[Slot(s.usedIdx, 0)] && s.done[0] in s.reqs && s.done[0] < NUM
    ensures s.info[s.done[0]].b == s.reqs[s.done[0]].b && s.reqs[s.done[0]].b in s.bufs
    ensures s.reqs[s.done[0]].stage == Done && RingOk(s.usedRing, Inc(s.usedIdx), s.usedDev, s.done[1..])
  {
    Few(s);
    RingPop(s.usedRing, s.usedIdx, s.usedDev, s.done);
    assert s.done[0] in s.done;
    assert ChainOk(s, s.done[0]) && BufOk(s, s.done[0]);
  }

  lemma IntrKeepsInv(s: State)
    requires Inv(s) && Enabled(s, Intr)
    ensures Inv(IntrNext(s))
  {
    IntrSees(s);
    if s.info[s.done[0]].status != 0 { PanicKeepsInv(s); } else { SeenKeepsInv(s); }
  }

  lemma PanicKeepsInv(s: State)
    requires Inv(s)
    ensures Inv(s.(panicked := true))
  {
    var s' := s.(panicked := true);
    PanicChains(s, s');
    PanicOwner(s, s');
    PanicBufs(s, s');
  }

  lemma PanicChains(s: State, s': State)
    requires ChainsOk(s) && s' == s.(panicked := true)
    ensures ChainsOk(s')
  {
    forall h | h in s'.reqs ensures ChainOk(s', h) { assert ChainOk(s, h); }
  }

  lemma PanicOwner(s: State, s': State)
    requires OwnerOk(s) && s' == s.(panicked := true)
    ensures OwnerOk(s')
  {
    forall h | h in s'.reqs ensures Owns(s', h) { assert Owns(s, h); }
    forall i | i in s'.owner ensures InChain(s', s'.owner[i], i) { assert InChain(s, s.owner[i], i); }
  }

  lemma PanicBufs(s: State, s': State)
    requires BufsOk(s) && s' == s.(panicked := true)
    ensures BufsOk(s')
  {
    forall h | h in s'.reqs ensures BufOk(s', h) { assert BufOk(s, h); }
    forall f, g | f in s'.reqs && g in s'.reqs && f != g ensures !SameBuf(s', f, g) { assert !SameBuf(s, f, g); }
  }

  lemma SeenKeepsInv(s: State)
    requires Inv(s) && Enabled(s, Intr) && s.done != [] && s.done[0] < NUM && s.info[s.done[0]].status == 0
    ensures Inv(IntrNext(s))
  {
    IntrSees(s);
    var h, s' := s.done[0], IntrNext(s);
    MoveChains(s, s', h, Seen);
    MoveOwner(s, s', h, Seen);
    MoveBufs(s, s', h, Seen);
    MovedFrom(s, s', h, Seen, s.done);
    MovedPast(s, s', h, Seen, s.pend, Queued);
  }

  // ---------- a call starts ----------

  lemma SubmitPicks(s: State, b: nat, write: bool)
    requires Inv(s) && Enabled(s, Submit(b, write))
    ensures var (h, d1, d2) := Pick3(s.free);
      0 <= h < NUM && 0 <= d1 < NUM && 0 <= d2 < NUM && h != d1 && d1 != d2 && h != d2 &&
      h !in s.owner && d1 !in s.owner && d2 !in s.owner && h !in s.reqs &&
      CountFree(s.free[h := false][d1 := false][d2 := false]) == CountFree(s.free) - 3
  {
    Pick3Iff(s.free);
    var (h, d1, d2) := Pick3(s.free);
    assert h in s.reqs ==> Owns(s, h);
  }

  lemma SubmitChains(s: State, b: nat, write: bool)
    requires Inv(s) && Enabled(s, Submit(b, write))
    ensures ChainsOk(SubmitNext(s, b, write))
  {
    SubmitPicks(s, b, write);
    var h, s' := Pick3(s.free).0, SubmitNext(s, b, write);
    forall g | g in s'.reqs ensures ChainOk(s', g) {
      if g != h { SubmitOther(s, b, write, g); } else { SubmitOwn(s, b, write); }
    }
  }

  /** The chains that are there do not change. */
  lemma SubmitOther(s: State, b: nat, write: bool, g: nat)
    requires Inv(s) && Enabled(s, Submit(b, write)) && g in s.reqs && g != Pick3(s.free).0
    ensures ChainOk(SubmitNext(s, b, write), g)
  {
    SubmitPicks(s, b, write);
    assert ChainOk(s, g) && Owns(s, g);
  }

  lemma SubmitOwn(s: State, b: nat, write: bool)
    requires Inv(s) && Enabled(s, Submit(b, write))
    ensures ChainOk(SubmitNext(s, b, write), Pick3(s.free).0)
  {
    SubmitPicks(s, b, write);
  }

  lemma OwnsGrows(s: State, s': State, h: nat, r: Req, g: nat)
    requires Owns(s, g) && g != h && h !in s.owner && r.d1 !in s.owner && r.d2 !in s.owner
    requires s'.reqs == s.reqs[h := r] && s'.owner == s.owner[h := h][r.d1 := h][r.d2 := h]
    ensures Owns(s', g)
  {
  }

  lemma OwnerGrows(s: State, s': State, h: nat, r: Req)
    requires OwnerOk(s) && h < NUM && r.d1 < NUM && r.d2 < NUM && h != r.d1 && r.d1 != r.d2 && h != r.d2
    requires h !in s.owner && r.d1 !in s.owner && r.d2 !in s.owner && h !in s.reqs && s'.reqs == s.reqs[h := r]
    requires s'.free == s.free[h := false][r.d1 := false][r.d2 := false] &&
      s'.owner == s.owner[h := h][r.d1 := h][r.d2 := h]
    ensures OwnerOk(s')
  {
    forall g | g in s'.reqs ensures Owns(s', g) {
      if g != h { assert Owns(s, g); OwnsGrows(s, s', h, r, g); }
    }
    ChainGrows(s, s', h, r);
    FreeShrinks(s, s', h, r);
  }

  lemma ChainGrows(s: State, s': State, h: nat, r: Req)
    requires forall i :: i in s.owner ==> i < NUM && InChain(s, s.owner[i], i)
    requires h < NUM && r.d1 < NUM && r.d2 < NUM && h !in s.reqs && s'.reqs == s.reqs[h := r]
    requires h !in s.owner && r.d1 !in s.owner && r.d2 !in s.owner && s'.owner == s.owner[h := h][r.d1 := h][r.d2 := h]
    ensures forall i :: i in s'.owner ==> i < NUM && InChain(s', s'.owner[i], i)
  {
    forall i | i in s'.owner ensures i < NUM && InChain(s', s'.owner[i], i) {
      if i in s.owner { assert InChain(s, s.owner[i], i); }
    }
  }

  lemma FreeShrinks(s: State, s': State, h: nat, r: Req)
    requires |s.free| == NUM && h < NUM && r.d1 < NUM && r.d2 < NUM
    requires forall i: nat :: i < NUM ==> (s.free[i] <==> i !in s.owner)
    requires s'.free == s.free[h := false][r.d1 := false][r.d2 := false] &&
      s'.owner == s.owner[h := h][r.d1 := h][r.d2 := h]
    ensures forall i: nat :: i < NUM ==> (s'.free[i] <==> i !in s'.owner)
  {
  }

  lemma SubmitOwner(s: State, b: nat, write: bool)
    requires Inv(s) && Enabled(s, Submit(b, write))
    ensures OwnerOk(SubmitNext(s, b, write)) && |SubmitNext(s, b, write).reqs| == |s.reqs| + 1
  {
    SubmitPicks(s, b, write);
    var (h, d1, d2) := Pick3(s.free);
    OwnerGrows(s, SubmitNext(s, b, write), h, Req(d1, d2, b, write, s.bufs[b].blockno, Queued));
  }

  lemma SubmitBufs(s: State, b: nat, write: bool)
    requires Inv(s) && Enabled(s, Submit(b, write))
    ensures BufsOk(SubmitNext(s, b, write))
  {
    SubmitPicks(s, b, write);
    var h, s' := Pick3(s.free).0, SubmitNext(s, b, write);
    forall g | g in s'.reqs ensures BufOk(s', g) {
      if g != h { assert BufOk(s, g); }
    }
    forall f, g | f in s'.reqs && g in s'.reqs && f != g ensures !SameBuf(s', f, g) {
      assert f != h && g != h ==> !SameBuf(s, f, g);
    }
  }

  lemma SubmitStages(s: State, s': State, h: nat)
    requires StagesOk(s) && h !in s.reqs && h in s'.reqs && s'.reqs == s.reqs[h := s'.reqs[h]] &&
      s'.reqs[h].stage == Queued
    requires s'.pend == s.pend + [h] && s'.done == s.done && s'.taken == s.taken
    ensures StagesOk(s')
  {
    assert h !in s.pend;
  }

  /** Submitting keeps the invariant, and its ring entry overwrites none that is pending. */
  lemma SubmitKeepsInv(s: State, b: nat, write: bool)
    requires Inv(s) && Enabled(s, Submit(b, write))
    ensures Inv(SubmitNext(s, b, write))
    ensures forall i: nat :: i < |s.pend| ==> Slot(s.devAvail, i) != Slot(s.availIdx, 0)
  {
    SubmitRing(s, b, write);
    SubmitChains(s, b, write);
    SubmitOwner(s, b, write);
    SubmitBufs(s, b, write);
    SubmitLists(s, b, write);
  }

  lemma SubmitRing(s: State, b: nat, write: bool)
    requires Inv(s) && Enabled(s, Submit(b, write))
    ensures var s' := SubmitNext(s, b, write); RingOk(s'.ring, s'.devAvail, s'.availIdx, s'.pend)
    ensures forall i: nat :: i < |s.pend| ==> Slot(s.devAvail, i) != Slot(s.availIdx, 0)
  {
    Few(s);
    RingPush(s.ring, s.devAvail, s.availIdx, s.pend, Pick3(s.free).0);
  }

  lemma SubmitLists(s: State, b: nat, write: bool)
    requires Inv(s) && Enabled(s, Submit(b, write))
    ensures var s' := SubmitNext(s, b, write); StagesOk(s') && Shape(s') && CountFree(s'.free) == CountFree(s.free) - 3
  {
    SubmitPicks(s, b, write);
    SubmitStages(s, SubmitNext(s, b, write), Pick3(s.free).0);
  }

  // ---------- a call ends ----------

  /** virtio_disk_rw() gets here only after the device completed its chain and the handler saw
      it; and free_chain() finds three linked descriptors that are not free. */
  lemma FinishIsSafe(s: State, h: nat)
    requires Inv(s) && Enabled(s, Finish(h))
    ensures s.reqs[h].stage == Seen && h < NUM && s.info[h].status == 0
    ensures ChainAt(s.desc, h, s.reqs[h].d1, s.reqs[h].d2) && Owns(s, h)
    ensures !s.free[h] && !s.free[s.reqs[h].d1] && !s.free[s.reqs[h].d2]
  {
    assert ChainOk(s, h) && BufOk(s, h) && Owns(s, h);
  }

  lemma FinishChains(s: State, h: nat)
    requires Inv(s) && Enabled(s, Finish(h)) && h < NUM && s.reqs[h].d1 < NUM && s.reqs[h].d2 < NUM && Owns(s, h)
    ensures ChainsOk(FinishNext(s, h)) && BufsOk(FinishNext(s, h))
  {
    var s' := FinishNext(s, h);
    forall g | g in s'.reqs ensures ChainOk(s', g) && BufOk(s', g) {
      assert ChainOk(s, g) && Owns(s, g) && BufOk(s, g);
    }
    forall f, g | f in s'.reqs && g in s'.reqs && f != g ensures !SameBuf(s', f, g) { assert !SameBuf(s, f, g); }
  }

  /** Chain h leaves; the other chains keep their descriptors. */
  lemma OwnerShrinks(s: State, s': State, h: nat)
    requires OwnerOk(s) && Owns(s, h) && h < NUM && s.reqs[h].d1 < NUM && s.reqs[h].d2 < NUM
    requires var r := s.reqs[h];
      s'.reqs == s.reqs - {h} && s'.owner == s.owner - {h, r.d1, r.d2} &&
      s'.free == s.free[h := true][r.d1 := true][r.d2 := true]
    ensures OwnerOk(s')
  {
    forall g | g in s'.reqs ensures Owns(s', g) { assert Owns(s, g); }
    forall i | i in s'.owner ensures InChain(s', s'.owner[i], i) {
      assert InChain(s, s.owner[i], i);
    }
  }

  lemma FinishOwner(s: State, h: nat)
    requires Inv(s) && Enabled(s, Finish(h)) && h < NUM && s.reqs[h].d1 < NUM && s.reqs[h].d2 < NUM && Owns(s, h)
    ensures OwnerOk(FinishNext(s, h))
  {
    OwnerShrinks(s, FinishNext(s, h), h);
  }

  lemma FinishCount(s: State, h: nat)
    requires Inv(s) && Enabled(s, Finish(h))
    ensures h < NUM && s.reqs[h].d1 < NUM && s.reqs[h].d2 < NUM
    ensures CountFree(FinishNext(s, h).free) == CountFree(s.free) + 3 && |FinishNext(s, h).reqs| == |s.reqs| - 1
  {
    FinishIsSafe(s, h);
    var d1, d2 := s.reqs[h].d1, s.reqs[h].d2;
    CountSet(s.free, h, true);
    CountSet(s.free[h := true], d1, true);
    CountSet(s.free[h := true][d1 := true], d2, true);
    assert (s.reqs - {h}).Keys == s.reqs.Keys - {h};
  }

  lemma FinishKeepsInv(s: State, h: nat)
    requires Inv(s) && Enabled(s, Finish(h))
    ensures h < NUM && s.reqs[h].d1 < NUM && s.reqs[h].d2 < NUM && Inv(FinishNext(s, h))
  {
    FinishIsSafe(s, h);
    FinishChains(s, h);
    FinishOwner(s, h);
    FinishCount(s, h);
    FinishStages(s, FinishNext(s, h), h);
  }

  lemma FinishStages(s: State, s': State, h: nat)
    requires StagesOk(s) && h in s.reqs && s.reqs[h].stage == Seen && s'.reqs == s.reqs - {h}
    requires s'.pend == s.pend && s'.done == s.done && s'.taken == s.taken
    ensures StagesOk(s')
  {
  }

  // ---------- whole runs ----------

  function Next(s: State, a: Action): State
    requires Shape(s) && Enabled(s, a) && (a.Finish? ==> FinishInRange(s, a.h))
  {
    match a
    case Submit(b, write) => SubmitNext(s, b, write)
    case DevTake => TakeNext(s)
    case DevDone(h, status) => DoneNext(s, h, status)
    case Intr => IntrNext(s)
    case Finish(h) => FinishNext(s, h)
  }

  predicate FinishInRange(s: State, h: nat) { h in s.reqs && h < NUM && s.reqs[h].d1 < NUM && s.reqs[h].d2 < NUM }

  lemma StepKeepsInv(s: State, a: Action)
    requires Inv(s) && Enabled(s, a)
    ensures (a.Finish? ==> FinishInRange(s, a.h)) && Inv(Next(s, a))
  {
    match a
    case Submit(b, write) => SubmitKeepsInv(s, b, write);
    case DevTake => TakeKeepsInv(s);
    case DevDone(h, status) => DoneKeepsInv(s, h, status);
    case Intr => IntrKeepsInv(s);
    case Finish(h) => FinishKeepsInv(s, h);
  }

  /** After virtio_disk_init(): every descriptor is free and both rings are empty, with the indexes anywhere. */
  ghost predicate Init(s: State) {
    Shape(s) && !s.panicked && (forall i :: 0 <= i < NUM ==> s.free[i]) && s.availIdx == s.devAvail &&
    s.usedIdx == s.usedDev &&
    s.reqs == map[] && s.owner == map[] && s.taken == {} && s.pend == [] && s.done == []
  }

  ghost predicate StepAt(ss: seq<State>, acts: seq<Action>, i: nat) {
    i < |acts| && i + 1 < |ss| && Shape(ss[i]) && Enabled(ss[i], acts[i]) &&
    (acts[i].Finish? ==> FinishInRange(ss[i], acts[i].h)) && ss[i + 1] == Next(ss[i], acts[i])
  }

  ghost predicate IsRun(ss: seq<State>, acts: seq<Action>) {
    |ss| == |acts| + 1 && Init(ss[0]) && forall i: nat :: i < |acts| ==> StepAt(ss, acts, i)
  }

  lemma {:induction false} AllFree(free: seq<bool>)
    requires forall i :: 0 <= i < |free| ==> free[i]
    ensures CountFree(free) == |free|
  {
    if free != [] { AllFree(free[..|free| - 1]); }
  }

  lemma {:induction false} RunKeepsInv(ss: seq<State>, acts: seq<Action>, i: nat)
    requires IsRun(ss, acts) && i < |ss|
    ensures Inv(ss[i])
  {
    if i == 0 {
      InitInv(ss[0]);
    } else {
      RunKeepsInv(ss, acts, i - 1);
      RunStep(ss, acts, i - 1);
    }
  }

  lemma InitInv(s: State)
    requires Init(s)
    ensures Inv(s)
  {
    AllFree(s.free);
    RingEmpty(s.ring, s.devAvail);
    RingEmpty(s.usedRing, s.usedIdx);
    assert OwnerOk(s) && BufsOk(s) && StagesOk(s);
  }

  lemma RingEmpty(ring: seq<nat>, x: nat)
    requires |ring| == NUM && x < U16
    ensures RingOk(ring, x, x, [])
  {
  }

  lemma RunStep(ss: seq<State>, acts: seq<Action>, i: nat)
    requires IsRun(ss, acts) && i < |acts| && Inv(ss[i])
    ensures Inv(ss[i + 1])
  {
    assert StepAt(ss, acts, i);
    StepKeepsInv(ss[i], acts[i]);
  }

  /** In every state of every run, free descriptors plus three per chain make NUM. */
  lemma Conserved(ss: seq<State>, acts: seq<Action>, i: nat)
    requires IsRun(ss, acts) && i < |ss|
    ensures CountFree(ss[i].free) + 3 * |ss[i].reqs| == NUM
    ensures forall g, h :: g in ss[i].reqs && h in ss[i].reqs && g != h ==>
      {g, ss[i].reqs[g].d1, ss[i].reqs[g].d2} !! {h, ss[i].reqs[h].d1, ss[i].reqs[h].d2}
  {
    RunKeepsInv(ss, acts, i);
    forall g, h | g in ss[i].reqs && h in ss[i].reqs && g != h
      ensures {g, ss[i].reqs[g].d1, ss[i].reqs[g].d2} !! {h, ss[i].reqs[h].d1, ss[i].reqs[h].d2}
    {
      assert Owns(ss[i], g) && Owns(ss[i], h);
    }
  }

  // ---------- what the device reported ----------

  ghost predicate Completed(s: State, h: nat) {
    h in s.reqs && h < |s.info| && (s.reqs[h].stage == Done || s.reqs[h].stage == Seen)
  }

  /** Step k is the call's Submit of chain h, and the call has not returned before step i. */
  ghost predicate Since(ss: seq<State>, acts: seq<Action>, k: nat, i: nat, h: nat) {
    k < i <= |acts| && k < |ss| && acts[k].Submit? && Pick3(ss[k].free).0 == h &&
    forall l :: k <= l < i ==> acts[l] != Finish(h)
  }

  /** The device completed chain h with this status, in a step before i and after the Submit of the
      call that waits for it at step i. */
  ghost predicate Reported(ss: seq<State>, acts: seq<Action>, i: nat, h: nat, status: nat) {
    exists k: nat, j: nat :: Since(ss, acts, k, i, h) && k < j < i && acts[j] == DevDone(h, status)
  }

  lemma SinceMore(ss: seq<State>, acts: seq<Action>, k: nat, i: nat, h: nat)
    requires Since(ss, acts, k, i, h) && i < |acts| && acts[i] != Finish(h)
    ensures Since(ss, acts, k, i + 1, h)
  {
  }

  /** A chain appears by a Submit and disappears by its Finish. */
  lemma ChainComes(s: State, a: Action, h: nat)
    requires Inv(s) && Enabled(s, a) && (a.Finish? ==> FinishInRange(s, a.h)) && h in Next(s, a).reqs
    ensures a != Finish(h) && (h in s.reqs || (a.Submit? && Pick3(s.free).0 == h))
  {
    if a.DevDone? { DoneIs(s, a.h, a.status); }
  }

  lemma RunComes(ss: seq<State>, acts: seq<Action>, i: nat, h: nat)
    requires IsRun(ss, acts) && i < |acts| && h in ss[i + 1].reqs
    ensures acts[i] != Finish(h) && (h in ss[i].reqs || (acts[i].Submit? && Pick3(ss[i].free).0 == h))
  {
    RunKeepsInv(ss, acts, i);
    assert StepAt(ss, acts, i);
    ChainComes(ss[i], acts[i], h);
  }

  lemma {:induction false} SubmittedBy(ss: seq<State>, acts: seq<Action>, i: nat, h: nat) returns (k: nat)
    requires IsRun(ss, acts) && i < |ss| && h in ss[i].reqs
    ensures Since(ss, acts, k, i, h)
  {
    RunComes(ss, acts, i - 1, h);
    if h in ss[i - 1].reqs {
      k := SubmittedBy(ss, acts, i - 1, h);
      SinceMore(ss, acts, k, i - 1, h);
    } else {
      k := i - 1;
    }
  }

  /** Only the device completes a chain or sets its status. */
  lemma OthersReport(s: State, a: Action, h: nat)
    requires Inv(s) && Enabled(s, a) && (a.Finish? ==> FinishInRange(s, a.h)) && !a.DevDone?
    requires Completed(Next(s, a), h)
    ensures Completed(s, h) && Next(s, a).info[h].status == s.info[h].status
  {
    if a.Submit? { SubmitPicks(s, a.b, a.write); }
    if a.DevTake? { RingPops(s); }
    if a.Intr? { IntrSees(s); }
  }

  lemma RingPops(s: State)
    requires Inv(s) && Enabled(s, DevTake)
    ensures s.pend != [] && s.pend[0] == s.ring[Slot(s.devAvail, 0)] && s.pend[0] in s.reqs
  {
    Few(s);
    RingPop(s.ring, s.devAvail, s.availIdx, s.pend);
    assert s.pend[0] in s.pend;
  }

  lemma DeviceReports(s: State, g: nat, status: nat, h: nat)
    requires Inv(s) && Enabled(s, DevDone(g, status)) && Completed(DoneNext(s, g, status), h)
    ensures if h == g then DoneNext(s, g, status).info[h].status == status
      else Completed(s, h) && DoneNext(s, g, status).info[h].status == s.info[h].status
  {
    DoneIs(s, g, status);
  }

  /** The status of a completed chain is the one the device reported for it. */
  lemma {:induction false} StatusReported(ss: seq<State>, acts: seq<Action>, i: nat, h: nat)
    requires IsRun(ss, acts) && i < |ss| && Completed(ss[i], h)
    ensures Reported(ss, acts, i, h, ss[i].info[h].status)
  {
    var s, a := ss[i - 1], acts[i - 1];
    RunKeepsInv(ss, acts, i - 1);
    assert StepAt(ss, acts, i - 1);
    ChainComes(s, a, h);
    if a.DevDone? { DeviceReports(s, a.h, a.status, h); } else { OthersReport(s, a, h); }
    if a.DevDone? && a.h == h {
      DoneIs(s, h, a.status);
      ReportedNow(ss, acts, i - 1, h, a.status);
    } else {
      StatusReported(ss, acts, i - 1, h);
      ReportedStill(ss, acts, i - 1, h, s.info[h].status);
    }
  }

  lemma ReportedNow(ss: seq<State>, acts: seq<Action>, i: nat, h: nat, status: nat)
    requires IsRun(ss, acts) && i < |acts| && acts[i] == DevDone(h, status) && h in ss[i].reqs
    ensures Reported(ss, acts, i + 1, h, status)
  {
    var k := SubmittedBy(ss, acts, i, h);
    SinceMore(ss, acts, k, i, h);
  }

  lemma ReportedStill(ss: seq<State>, acts: seq<Action>, i: nat, h: nat, status: nat)
    requires Reported(ss, acts, i, h, status) && i < |acts| && acts[i] != Finish(h)
    ensures Reported(ss, acts, i + 1, h, status)
  {
    var k: nat, j: nat :| Since(ss, acts, k, i, h) && k < j < i && acts[j] == DevDone(h, status);
    SinceMore(ss, acts, k, i, h);
  }

  /** virtio_disk_intr() panics exactly when it comes to a chain that the device reported as
      failed; the chain it comes to was completed by the device. */
  lemma IntrPanicsIff(ss: seq<State>, acts: seq<Action>, i: nat)
    requires IsRun(ss, acts) && i < |acts| && acts[i].Intr?
    ensures var s, s' := ss[i], ss[i + 1];
      s.done != [] && s.done[0] < |s.info| && Reported(ss, acts, i, s.done[0], s.info[s.done[0]].status) &&
      (s'.panicked <==> s.info[s.done[0]].status != 0)
  {
    RunKeepsInv(ss, acts, i);
    assert StepAt(ss, acts, i);
    IntrSees(ss[i]);
    StatusReported(ss, acts, i, ss[i].done[0]);
  }

  lemma PanicStep(s: State, a: Action)
    requires Inv(s) && Enabled(s, a) && (a.Finish? ==> FinishInRange(s, a.h))
    ensures Next(s, a).panicked ==> a.Intr?
  {
  }

  /** With a device that never reports a failure, no run panics. */
  lemma {:induction false} NoFailureNoPanic(ss: seq<State>, acts: seq<Action>, i: nat)
    requires IsRun(ss, acts) && i < |ss| && forall j :: 0 <= j < |acts| && acts[j].DevDone? ==> acts[j].status == 0
    ensures !ss[i].panicked
  {
    if i > 0 {
      RunKeepsInv(ss, acts, i - 1);
      assert StepAt(ss, acts, i - 1);
      PanicStep(ss[i - 1], acts[i - 1]);
      if acts[i - 1].Intr? {
        IntrPanicsIff(ss, acts, i - 1);
      }
    }
  }

  /** Whenever a call returns, the device has completed its chain, with success. */
  lemma ReturnsAfterCompletion(ss: seq<State>, acts: seq<Action>, i: nat)
    requires IsRun(ss, acts) && i < |acts| && acts[i].Finish?
    ensures var s, h := ss[i], acts[i].h;
      h in s.reqs && h < |s.info| && s.reqs[h].stage == Seen && s.info[h].status == 0 && Reported(ss, acts, i, h, 0)
  {
    RunKeepsInv(ss, acts, i);
    assert StepAt(ss, acts, i);
    FinishIsSafe(ss[i], acts[i].h);
    StatusReported(ss, acts, i, acts[i].h);
  }

  /** The block a call asked for moved between its buffer and the disk, and nothing else did. */
  ghost predicate Moved(s: State, s': State, r: Req)
    requires r.b in s.bufs
  {
    var read := if r.blockno in s.store then s.bufs[r.b := s.bufs[r.b].(data := s.store[r.blockno])] else s.bufs;
    s'.store == (if r.write then s.store[r.blockno := s.bufs[r.b].data] else s.store) &&
    s'.bufs == if r.write then s.bufs else read
  }

  /** Whenever the device completes a chain with success, it moves exactly the block the call asked for,
      between exactly the call's buffer and the disk. */
  lemma TransfersRequest(ss: seq<State>, acts: seq<Action>, i: nat)
    requires IsRun(ss, acts) && i < |acts| && acts[i].DevDone? && i + 1 < |ss|
    ensures var s, s', h := ss[i], ss[i + 1], acts[i].h;
      h in s.reqs && s.reqs[h].b in s.bufs &&
      if acts[i].status == 0 then Moved(s, s', s.reqs[h]) else s'.store == s.store && s'.bufs == s.bufs
  {
    RunKeepsInv(ss, acts, i);
    assert StepAt(ss, acts, i);
    ServesRequest(ss[i], acts[i].h, acts[i].status);
  }

  /** One step from a state that the invariant holds of to another. */
  ghost predicate Leads(s: State, a: Action, s': State) {
    Inv(s) && Enabled(s, a) && (a.Finish? ==> FinishInRange(s, a.h)) && s' == Next(s, a) && Inv(s')
  }

  lemma StepOn(s: State, a: Action) returns (s': State)
    requires Inv(s) && Enabled(s, a)
    ensures Leads(s, a, s')
  {
    StepKeepsInv(s, a);
    s' := Next(s, a);
  }

  /** The call's chain h is the only one, and no block has moved. */
  ghost predicate OneAsked(s: State, e: State, b: nat, write: bool, h: nat) {
    e.done == [] && e.store == s.store && e.reqs.Keys == {h} && b in s.bufs &&
    e.bufs == s.bufs[b := s.bufs[b].(disk := true)] &&
    e.reqs[h].b == b && e.reqs[h].write == write && e.reqs[h].blockno == s.bufs[b].blockno
  }

  lemma SubmitIs(s: State, b: nat, write: bool)
    requires Shape(s) && s.reqs == map[] && s.done == s.pend == [] && s.taken == {} && b in s.bufs &&
      Pick3(s.free).0 >= 0
    requires s.availIdx == s.devAvail
    ensures var h, e := Pick3(s.free).0, SubmitNext(s, b, write);
      OneAsked(s, e, b, write, h) && e.ring[Slot(e.devAvail, 0)] == h && e.devAvail != e.availIdx && e.taken == {}
  {
    assert s.availIdx != Inc(s.availIdx);
  }

  lemma TakeIs(s: State, e: State, b: nat, write: bool, h: nat)
    requires Shape(e) && OneAsked(s, e, b, write, h) && e.ring[Slot(e.devAvail, 0)] == h
    ensures OneAsked(s, TakeNext(e), b, write, h) && TakeNext(e).taken == e.taken + {h}
  {
    assert TakeNext(e).reqs.Keys == {h};
  }

  lemma SubmitOn(s: State, b: nat, write: bool) returns (s1: State, h: nat)
    requires Init(s) && b in s.bufs && !s.bufs[b].disk
    ensures Leads(s, Submit(b, write), s1) && OneAsked(s, s1, b, write, h)
    ensures s1.ring[Slot(s1.devAvail, 0)] == h && s1.devAvail != s1.availIdx && s1.taken == {}
  {
    AllFree(s.free);
    Pick3Iff(s.free);
    InitInv(s);
    SubmitIs(s, b, write);
    h := Pick3(s.free).0;
    s1 := StepOn(s, Submit(b, write));
  }

  lemma TakeOn(s: State, s1: State, b: nat, write: bool, h: nat) returns (s2: State)
    requires Inv(s1) && !s1.panicked && OneAsked(s, s1, b, write, h)
    requires s1.ring[Slot(s1.devAvail, 0)] == h && s1.devAvail != s1.availIdx && s1.taken == {}
    ensures Leads(s1, DevTake, s2) && OneAsked(s, s2, b, write, h) && s2.taken == {h}
  {
    TakeIs(s, s1, b, write, h);
    s2 := StepOn(s1, DevTake);
  }

  /** The chain is completed: the block has moved. */
  ghost predicate OneDone(s: State, e: State, b: nat, write: bool, h: nat) {
    b in s.bufs && s.bufs[b].blockno in s.store && b in e.bufs && e.done == [h] && e.reqs.Keys == {h} &&
    e.reqs[h].b == b &&
    e.store == (if write then s.store[s.bufs[b].blockno := s.bufs[b].data] else s.store) &&
    e.bufs[b].data == if write then s.bufs[b].data else s.store[s.bufs[b].blockno]
  }

  lemma DoneMoves(s: State, e: State, b: nat, write: bool, h: nat, info: seq<Info>)
    requires Shape(e) && OneAsked(s, e, b, write, h) && s.bufs[b].blockno in s.store
    requires Serve(e, h, 0) == Transfer(e, Op(write, 2 * s.bufs[b].blockno), b, 0).(info := info)
    ensures OneDone(s, DoneNext(e, h, 0), b, write, h)
  {
    assert 2 * s.bufs[b].blockno / 2 == s.bufs[b].blockno;
    assert DoneNext(e, h, 0).reqs.Keys == {h};
  }

  lemma DeviceDone(s: State, s2: State, b: nat, write: bool, h: nat) returns (s3: State)
    requires Inv(s2) && !s2.panicked && OneAsked(s, s2, b, write, h) && s2.taken == {h} && s.bufs[b].blockno in s.store
    ensures Leads(s2, DevDone(h, 0), s3) && !s3.panicked && h < |s3.info| && s3.info[h].status == 0 &&
      OneDone(s, s3, b, write, h)
  {
    ServesRequest(s2, h, 0);
    DoneMoves(s, s2, b, write, h, s2.info[h := s2.info[h].(status := 0)]);
    s3 := StepOn(s2, DevDone(h, 0));
  }

  lemma IntrFinish(s: State, s3: State, b: nat, write: bool, h: nat) returns (s4: State, s5: State)
    requires Inv(s3) && OneDone(s, s3, b, write, h) && !s3.panicked && h < |s3.info| && s3.info[h].status == 0
    ensures Leads(s3, Intr, s4) && Leads(s4, Finish(h), s5) && CountFree(s5.free) == NUM
    ensures s5.store == s3.store && b in s5.bufs && s5.bufs[b] == s3.bufs[b].(disk := false)
  {
    assert s3.usedDev == (s3.usedIdx + 1) % U16;
    IntrSees(s3);
    s4 := StepOn(s3, Intr);
    s5 := StepOn(s4, Finish(h));
    assert s5.reqs == map[];
  }

  /** A call on an idle disk goes through: its five steps are possible one after the other, the
      block has moved, and every descriptor is free again. */
  lemma RequestCompletes(s: State, b: nat, write: bool)
    returns (s1: State, s2: State, s3: State, s4: State, s5: State, h: nat)
    requires Init(s) && b in s.bufs && !s.bufs[b].disk && s.bufs[b].blockno in s.store
    ensures Leads(s, Submit(b, write), s1) && Leads(s1, DevTake, s2) && Leads(s2, DevDone(h, 0), s3) &&
      Leads(s3, Intr, s4)
    ensures Leads(s4, Finish(h), s5) && CountFree(s5.free) == NUM && b in s5.bufs && !s5.bufs[b].disk
    ensures s5.store == if write then s.store[s.bufs[b].blockno := s.bufs[b].data] else s.store
    ensures s5.bufs[b].data == if write then s.bufs[b].data else s.store[s.bufs[b].blockno]
  {
    s1, h := SubmitOn(s, b, write);
    s2 := TakeOn(s, s1, b, write, h);
    s3 := DeviceDone(s, s2, b, write, h);
    s4, s5 := IntrFinish(s, s3, b, write, h);
  }
}
