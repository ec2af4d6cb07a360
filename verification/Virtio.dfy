/** The virtio disk driver of virtio_disk.c against any device that follows sections 2.6 and 5.2
    of VIRTIO 1.1: it takes chains from the available ring in order and completes each of them
    once, in any order, with any status; a chain that it reports as failed has moved nothing.
    The indexes of both rings are 16 bits wide.  Every step runs under vdisk_lock or is a step
    of the device. */
module Virtio {
  import opened Common

  const NUM: nat := 8

  /** What a descriptor points to: a command header, a buffer's data, or a status byte. */
  datatype Addr = Nowhere | Header(i: nat) | Data(b: nat) | Status(i: nat)

  datatype Desc = Desc(addr: Addr, write: bool, more: bool, next: nat)

  const NODESC: Desc := Desc(Nowhere, false, false, 0)

  datatype Op = Op(write: bool, sector: nat)

  datatype Info = Info(b: int, status: nat)

  datatype Block = Block(bytes: seq<nat>)

  datatype Buf = Buf(disk: bool, blockno: nat, data: Block)

  datatype Stage = Queued | Taken | Done | Seen

  /** One call of virtio_disk_rw() that has submitted its chain (head, d1, d2). */
  datatype Req = Req(d1: nat, d2: nat, b: nat, write: bool, blockno: nat, stage: Stage)

  /** free to usedIdx are the driver's, taken and devAvail the device's; reqs, owner, pend and
      done say which calls are waiting, which chain a descriptor is in, and which chains are in
      the available and in the used ring. */
  datatype State = State(free: seq<bool>, desc: seq<Desc>, ops: seq<Op>, info: seq<Info>,
                         ring: seq<nat>, availIdx: nat, usedRing: seq<nat>, usedDev: nat, usedIdx: nat,
                         devAvail: nat, taken: set<nat>, bufs: map<nat, Buf>, store: map<nat, Block>,
                         reqs: map<nat, Req>, owner: map<nat, nat>, pend: seq<nat>, done: seq<nat>,
                         panicked: bool)

  // ---------- descriptors ----------

  function CountFree(free: seq<bool>): nat {
    if free == [] then 0 else CountFree(free[..|free| - 1]) + if free[|free| - 1] then 1 else 0
  }

  lemma {:induction false} CountSet(free: seq<bool>, i: nat, x: bool)
    requires i < |free|
    ensures CountFree(free[i := x]) == CountFree(free) - (if free[i] then 1 else 0) + if x then 1 else 0
  {
    var last := |free| - 1;
    if i == last {
      assert free[i := x][..last] == free[..last];
    } else {
      CountSet(free[..last], i, x);
      assert free[i := x][..last] == free[..last][i := x];
    }
  }

  /** The first free descriptor from i on, or -1. */
  function FirstFree(free: seq<bool>, i: nat): (r: int)
    ensures r < 0 ==> r == -1 && forall j :: i <= j < |free| ==> !free[j]
    ensures r >= 0 ==> i <= r < |free| && free[r] && forall j :: i <= j < r ==> !free[j]
    decreases |free| - i
  {
    if i >= |free| then -1 else if free[i] then i else FirstFree(free, i + 1)
  }

  lemma {:induction false} CountNone(free: seq<bool>)
    ensures CountFree(free) == 0 <==> forall j :: 0 <= j < |free| ==> !free[j]
    ensures CountFree(free) <= |free|
  {
    if free != [] { CountNone(free[..|free| - 1]); }
  }

  /** Three free descriptors, lowest first, or none if there are fewer. */
  function Pick3(free: seq<bool>): (r: (int, int, int)) {
    var a := FirstFree(free, 0);
    if a < 0 then (-1, -1, -1)
    else
      var b := FirstFree(free[a := false], 0);
      if b < 0 then (-1, -1, -1)
      else
        var c := FirstFree(free[a := false][b := false], 0);
        if c < 0 then (-1, -1, -1) else (a, b, c)
  }

  lemma Pick3Iff(free: seq<bool>)
    ensures var (a, b, c) := Pick3(free);
      if CountFree(free) < 3 then a == -1
      else 0 <= a < |free| && 0 <= b < |free| && 0 <= c < |free| && a != b && b != c && a != c &&
           free[a] && free[b] && free[c] && CountFree(free[a := false][b := false][c := false]) == CountFree(free) - 3
  {
    CountNone(free);
    var a := FirstFree(free, 0);
    if a >= 0 {
      CountSet(free, a, false);
      CountNone(free[a := false]);
      var b := FirstFree(free[a := false], 0);
      if b >= 0 {
        CountSet(free[a := false], b, false);
        CountNone(free[a := false][b := false]);
        var c := FirstFree(free[a := false][b := false], 0);
        if c >= 0 { CountSet(free[a := false][b := false], c, false); }
      }
    }
  }

  class Descriptors {
    const free: array<bool>
    const desc: array<Desc>

    ghost predicate Valid()
      reads this
    {
      free.Length == desc.Length == NUM
    }

    constructor ()
      ensures Valid() && fresh(free) && fresh(desc) && forall i :: 0 <= i < NUM ==> free[i]
    {
      free := new bool[NUM](_ => true);
      desc := new Desc[NUM](_ => NODESC);
    }

    method AllocDesc() returns (r: int)
      requires Valid()
      modifies free
      ensures r == FirstFree(old(free[..]), 0)
      ensures free[..] == if r < 0 then old(free[..]) else old(free[..])[r := false]
    {
      var i := 0;
      while i < NUM
        invariant 0 <= i <= NUM && free[..] == old(free[..])
        invariant FirstFree(free[..], 0) == FirstFree(free[..], i)
      {
        if free[i] {
          free[i] := false;
          return i;
        }
        i := i + 1;
      }
      return -1;
    }

    /** free_desc(): false for its panics. */
    method FreeDesc(i: nat) returns (ok: bool)
      requires Valid()
      modifies free, desc
      ensures ok <==> i < NUM && !old(free[..])[i]
      ensures ok ==> free[..] == old(free[..])[i := true] && desc[..] == old(desc[..])[i := NODESC]
      ensures !ok ==> free[..] == old(free[..]) && desc[..] == old(desc[..])
    {
      if i >= NUM || free[i] {
        return false;
      }
      desc[i] := NODESC;
      free[i] := true;
      return true;
    }

    /** alloc3_desc(): all three or none. */
    method Alloc3Desc() returns (idx: (int, int, int))
      requires Valid() && forall i :: 0 <= i < NUM && free[i] ==> desc[i] == NODESC
      modifies free, desc
      ensures idx == Pick3(old(free[..])) && desc[..] == old(desc[..])
      ensures free[..] ==
        if idx.0 < 0 then old(free[..]) else old(free[..])[idx.0 := false][idx.1 := false][idx.2 := false]
    {
      var a := AllocDesc();
      if a < 0 {
        return (-1, -1, -1);
      }
      var b := AllocDesc();
      if b < 0 {
        var ok := FreeDesc(a);
        assert free[..] == old(free[..]);
        return (-1, -1, -1);
      }
      var c := AllocDesc();
      if c < 0 {
        var ok := FreeDesc(a);
        ok := FreeDesc(b);
        assert free[..] == old(free[..]);
        return (-1, -1, -1);
      }
      return (a, b, c);
    }

    /** free_chain(): on the chain (h, d1, d2) it frees these three and does not panic. */
    method FreeChain(h: nat, ghost d1: nat, ghost d2: nat) returns (ok: bool)
      requires Valid() && ChainAt(desc[..], h, d1, d2) && !free[h] && !free[d1] && !free[d2]
      modifies free, desc
      ensures ok && free[..] == old(free[..])[h := true][d1 := true][d2 := true]
      ensures desc[..] == old(desc[..])[h := NODESC][d1 := NODESC][d2 := NODESC]
    {
      var i := h;
      ghost var k := 0;
      while true
        invariant 0 <= k <= 2 && i == (if k == 0 then h else if k == 1 then d1 else d2)
        invariant free[..] == old(free[..])[h := k > 0][d1 := k > 1]
        invariant desc[..] ==
          old(desc[..])[h := if k > 0 then NODESC else old(desc[h])][d1 := if k > 1 then NODESC else old(desc[d1])]
        decreases 2 - k
      {
        var more, nxt := desc[i].more, desc[i].next;
        assert desc[i] == old(desc[..])[i];
        ok := FreeDesc(i);
        if !ok {
          return;
        }
        if !more {
          break;
        }
        i, k := nxt, k + 1;
      }
    }
  }

  /** h, d1 and d2 are linked by the descriptor table. */
  ghost predicate ChainAt(desc: seq<Desc>, h: nat, d1: nat, d2: nat) {
    |desc| == NUM && h < NUM && d1 < NUM && d2 < NUM && h != d1 && d1 != d2 && h != d2 &&
    desc[h].more && desc[h].next == d1 && desc[d1].more && desc[d1].next == d2 && !desc[d2].more
  }

  // ---------- the steps ----------

  datatype Action = Submit(b: nat, write: bool) | DevTake | DevDone(h: nat, status: nat) | Intr | Finish(h: nat)

  /** A ring entry for a 16-bit index. */
  function Slot(x: nat, i: nat): nat { (x + i) % U16 % NUM }

  function Inc(x: nat): nat { (x + 1) % U16 }

  /** What can happen next; nothing after the panic of virtio_disk_intr(). */
  predicate Enabled(s: State, a: Action) {
    !s.panicked && match a
    // b's sleep-lock keeps a second call for the same buffer out; alloc3_desc() succeeded
    case Submit(b, _) => b in s.bufs && !s.bufs[b].disk && (forall h :: h in s.reqs ==> s.reqs[h].b != b) &&
      Pick3(s.free).0 >= 0
    case DevTake => s.devAvail != s.availIdx
    case DevDone(h, _) => h in s.taken
    case Intr => s.usedIdx != s.usedDev
    // the loop of virtio_disk_rw() has seen b->disk == 0
    case Finish(h) => h in s.reqs && s.reqs[h].b in s.bufs && !s.bufs[s.reqs[h].b].disk
  }

  /** virtio_disk_rw() up to the notification of the device. */
  function SubmitNext(s: State, b: nat, write: bool): State
    requires Shape(s) && b in s.bufs && Pick3(s.free).0 >= 0
  {
    Pick3Iff(s.free);
    var (h, d1, d2) := Pick3(s.free);
    s.(free := s.free[h := false][d1 := false][d2 := false],
       ops := s.ops[h := Op(write, 2 * s.bufs[b].blockno)],
       desc := s.desc[h := Desc(Header(h), false, true, d1)][d1 := Desc(Data(b), !write, true, d2)]
                     [d2 := Desc(Status(h), true, false, 0)],
       info := s.info[h := Info(b, 0xff)],
       bufs := s.bufs[b := s.bufs[b].(disk := true)],
       ring := s.ring[Slot(s.availIdx, 0) := h], availIdx := Inc(s.availIdx),
       reqs := s.reqs[h := Req(d1, d2, b, write, s.bufs[b].blockno, Queued)],
       owner := s.owner[h := h][d1 := h][d2 := h], pend := s.pend + [h])
  }

  /** The device takes the next chain from the available ring. */
  function TakeNext(s: State): State
    requires Shape(s)
  {
    var h := s.ring[Slot(s.devAvail, 0)];
    s.(taken := s.taken + {h}, devAvail := Inc(s.devAvail),
       reqs := SetStage(s.reqs, h, Taken), pend := if s.pend == [] then [] else s.pend[1..])
  }

  function SetStage(reqs: map<nat, Req>, h: nat, stage: Stage): map<nat, Req> {
    if h in reqs then reqs[h := reqs[h].(stage := stage)] else reqs
  }

  /** The device walks the chain from its head, does the transfer, and adds the chain to the used ring. */
  function DoneNext(s: State, h: nat, status: nat): State
    requires Shape(s)
  {
    var served := Serve(s, h, status);
    served.(usedRing := s.usedRing[Slot(s.usedDev, 0) := h], usedDev := Inc(s.usedDev), taken := s.taken - {h},
            reqs := SetStage(s.reqs, h, Done), done := s.done + [h])
  }

  /** What a device that follows the descriptor table does: header, data, status.  It writes
      only where the descriptor has the write flag and reads only where it has not. */
  function Serve(s: State, h: nat, status: nat): State
    requires Shape(s)
  {
    if h >= NUM || s.desc[h].next >= NUM || s.desc[s.desc[h].next].next >= NUM then s
    else
      var d1 := s.desc[h].next;
      var d2 := s.desc[d1].next;
      match (s.desc[h].addr, s.desc[d1].addr, s.desc[d2].addr)
      case (Header(i), Data(b), Status(j)) =>
        if i < NUM && j < NUM && b in s.bufs && !s.desc[h].write && s.desc[d1].write == !s.ops[i].write &&
          s.desc[d2].write then
          Transfer(s, s.ops[i], b, status).(info := s.info[j := s.info[j].(status := status)])
        else s
      case _ => s
  }

  /** A block is two sectors of 512 bytes. */
  function Transfer(s: State, op: Op, b: nat, status: nat): State
    requires b in s.bufs
  {
    var blockno := op.sector / 2;
    if status != 0 then s
    else if op.write then s.(store := s.store[blockno := s.bufs[b].data])
    else if blockno in s.store then s.(bufs := s.bufs[b := s.bufs[b].(data := s.store[blockno])])
    else s
  }

  /** One round of virtio_disk_intr()'s loop. */
  function IntrNext(s: State): State
    requires Shape(s)
  {
    var h := s.usedRing[Slot(s.usedIdx, 0)];
    var b := if h < NUM then s.info[h].b else -1;
    if h < NUM && s.info[h].status != 0 then s.(panicked := true)
    else s.(bufs := if b >= 0 && b in s.bufs then s.bufs[b := s.bufs[b].(disk := false)] else s.bufs,
       usedIdx := Inc(s.usedIdx), reqs := SetStage(s.reqs, h, Seen), done := if s.done == [] then [] else s.done[1..])
  }

  /** The end of virtio_disk_rw(): free_chain(idx[0]). */
  function FinishNext(s: State, h: nat): State
    requires Shape(s) && h in s.reqs && h < NUM && s.reqs[h].d1 < NUM && s.reqs[h].d2 < NUM
  {
    var (d1, d2) := (s.reqs[h].d1, s.reqs[h].d2);
    s.(info := s.info[h := s.info[h].(b := -1)], free := s.free[h := true][d1 := true][d2 := true],
       desc := s.desc[h := NODESC][d1 := NODESC][d2 := NODESC], reqs := s.reqs - {h}, owner := s.owner - {h, d1, d2})
  }

  ghost predicate Shape(s: State) {
    |s.free| == |s.desc| == |s.ops| == |s.info| == |s.ring| == |s.usedRing| == NUM &&
    s.availIdx < U16 && s.devAvail < U16 && s.usedIdx < U16 && s.usedDev < U16
  }
}
