/** Pipes of pipe.c: the ring buffer with wrapping 32-bit counters, and the sleeping and waking of
    readers and writers. */
module Pipe {
  import opened Common

  const PIPESIZE: nat := 512

  /** How a stay under the pipe's lock ends. */
  datatype End = Return(n: nat) | Fail | Sleep

  /** What pipewrite() does from byte i on while it holds the lock, with the buffer contents in
      front: it sees itself killed once `patience` more bytes are in, and copyin() fails from
      byte `bad` on. */
  function WriteRun(buf: seq<nat>, src: seq<nat>, i: nat, readopen: bool, patience: nat, bad: nat): (seq<nat>, nat, End)
    requires i <= |src|
    decreases |src| - i
  {
    if i == |src| then (buf, i, Return(i))
    else if !readopen || patience == 0 then (buf, i, Fail)
    else if |buf| == PIPESIZE then (buf, i, Sleep)
    else if i >= bad then (buf, i, Return(i))
    else WriteRun(buf + [src[i]], src, i + 1, readopen, patience - 1, bad)
  }

  /** The bytes go in, in order, as far as there is room, a reader, patience and good memory; why it
      stops is decided in this order: all done, nobody to read or killed, full, bad memory. */
  lemma {:induction false} WriteRunPuts(buf: seq<nat>, src: seq<nat>, i: nat, readopen: bool, patience: nat, bad: nat)
    requires i <= |src| && |buf| <= PIPESIZE
    ensures var (b, j, e) := WriteRun(buf, src, i, readopen, patience, bad);
      i <= j <= |src| && b == buf + src[i..j] && |b| <= PIPESIZE &&
      j - i <= patience && (j > i ==> readopen && j <= bad) &&
      (e == Fail <==> j < |src| && (!readopen || j - i == patience)) &&
      (e == Sleep <==> j < |src| && e != Fail && |b| == PIPESIZE) &&
      (e.Return? ==> e.n == j && (j == |src| || j >= bad))
    decreases |src| - i
  {
    var (b, j, e) := WriteRun(buf, src, i, readopen, patience, bad);
    if i < |src| && readopen && patience > 0 && |buf| < PIPESIZE && i < bad {
      WriteRunPuts(buf + [src[i]], src, i + 1, readopen, patience - 1, bad);
      assert src[i..j] == [src[i]] + src[i + 1..j];
    } else {
      assert src[i..i] == [];
    }
  }

  /** What piperead() takes out, once it does not wait: n bytes at most, one more than it counts
      if copyout() fails. */
  function ReadCount(buf: seq<nat>, n: nat, bad: nat): nat {
    var most := if n < |buf| then n else |buf|;
    if bad < most then bad + 1 else most
  }

  class Buffer {
    const data: array<nat>
    var nread: nat
    var nwrite: nat
    ghost var buf: seq<nat>

    ghost predicate Valid()
      reads this, data
    {
      RingOk(data[..], nread, nwrite, buf)
    }

    constructor ()
      ensures Valid() && buf == [] && fresh(data)
    {
      data := new nat[PIPESIZE];
      nread, nwrite, buf := 0, 0, [];
    }

    /** The test for a full buffer, in 32-bit arithmetic. */
    function Full(): (r: bool)
      requires Valid()
      reads this, data
      ensures r <==> |buf| == PIPESIZE
    {
      nwrite == (nread + PIPESIZE) % U32
    }

    function Empty(): (r: bool)
      requires Valid()
      reads this, data
      ensures r <==> buf == []
    {
      nread == nwrite
    }

    /** Store one byte and advance the write counter. */
    method Put(ch: nat)
      requires Valid() && |buf| < PIPESIZE
      modifies this`nwrite, this`buf, data
      ensures Valid() && buf == old(buf) + [ch]
    {
      RingPut(data[..], nread, nwrite, buf, ch);
      data[nwrite % PIPESIZE] := ch;
      nwrite := (nwrite + 1) % U32;
      buf := buf + [ch];
    }

    /** Fetch one byte and advance the read counter. */
    method Get() returns (ch: nat)
      requires Valid() && buf != []
      modifies this`nread, this`buf
      ensures Valid() && ch == old(buf)[0] && buf == old(buf)[1..]
    {
      RingGet(data[..], nread, nwrite, buf);
      ch := data[nread % PIPESIZE];
      nread := (nread + 1) % U32;
      buf := buf[1..];
    }

    /** The loop of pipewrite(), from byte start on until the lock is given up. */
    method WriteSection(src: seq<nat>, start: nat, readopen: bool, patience: nat, bad: nat) returns (i: nat, e: End)
      requires Valid() && start <= |src|
      modifies this`nwrite, this`buf, data
      ensures Valid() && (buf, i, e) == WriteRun(old(buf), src, start, readopen, patience, bad)
    {
      i := start;
      var seen := 0;
      while i < |src|
        invariant start <= i <= |src| && Valid() && seen <= patience
        invariant WriteRun(buf, src, i, readopen, patience - seen, bad) ==
          WriteRun(old(buf), src, start, readopen, patience, bad)
        decreases |src| - i
      {
        if !readopen || seen == patience {
          return i, Fail;
        }
        if Full() {
          return i, Sleep;
        }
        if i >= bad {
          break;
        }
        Put(src[i]);
        i, seen := i + 1, seen + 1;
      }
      e := Return(i);
    }

    /** The copying loop of piperead(). */
    method ReadSection(n: nat, bad: nat) returns (got: seq<nat>)
      requires Valid()
      modifies this`nread, this`buf
      ensures Valid() && ReadCount(old(buf), n, bad) <= |old(buf)|
      ensures buf == old(buf)[ReadCount(old(buf), n, bad)..]
      ensures got == old(buf)[..if bad < ReadCount(old(buf), n, bad) then bad else ReadCount(old(buf), n, bad)]
      ensures var most := if n < |old(buf)| then n else |old(buf)|;
        if bad >= most then |got| == most && old(buf) == got + buf
        else |got| == bad && old(buf) == got + [old(buf)[bad]] + buf
    {
      var i := 0;
      got := [];
      while i < n
        invariant 0 <= i <= n && i <= bad && i <= |old(buf)| && Valid()
        invariant buf == old(buf)[i..] && got == old(buf)[..i]
      {
        if Empty() {
          break;
        }
        var ch := Get();
        if i >= bad {
          return;
        }
        got := got + [ch];
        i := i + 1;
      }
    }
  }

  /** The cell of the k-th byte in the buffer. */
  function Place(nread: nat, k: nat): nat { (nread + k) % PIPESIZE }

  ghost predicate Holds(data: seq<nat>, nread: nat, buf: seq<nat>, k: nat) {
    |data| == PIPESIZE && k < |buf| && data[Place(nread, k)] == buf[k]
  }

  /** The counters and cells hold the buffer, also after the counters wrapped. */
  ghost predicate RingOk(data: seq<nat>, nread: nat, nwrite: nat, buf: seq<nat>) {
    |data| == PIPESIZE && nread < U32 && |buf| <= PIPESIZE && nwrite == (nread + |buf|) % U32 &&
    forall k: nat {:trigger Holds(data, nread, buf, k)} :: k < |buf| ==> Holds(data, nread, buf, k)
  }

  lemma RingPut(data: seq<nat>, nread: nat, nwrite: nat, buf: seq<nat>, ch: nat)
    requires RingOk(data, nread, nwrite, buf) && |buf| < PIPESIZE
    ensures RingOk(data[nwrite % PIPESIZE := ch], nread, (nwrite + 1) % U32, buf + [ch])
  {
    Cell(nread + |buf|);
    var data', buf' := data[nwrite % PIPESIZE := ch], buf + [ch];
    forall k: nat | k < |buf'| ensures Holds(data', nread, buf', k) {
      if k < |buf| {
        assert Holds(data, nread, buf, k);
        Apart(nread, k, |buf|);
      }
    }
  }

  lemma RingGet(data: seq<nat>, nread: nat, nwrite: nat, buf: seq<nat>)
    requires RingOk(data, nread, nwrite, buf) && buf != []
    ensures data[nread % PIPESIZE] == buf[0] && RingOk(data, (nread + 1) % U32, nwrite, buf[1..])
  {
    assert Holds(data, nread, buf, 0);
    var nread', buf' := (nread + 1) % U32, buf[1..];
    forall k: nat | k < |buf'| ensures Holds(data, nread', buf', k) {
      assert Holds(data, nread, buf, k + 1);
      NextPlace(nread, k);
    }
  }

  /** 512 divides 2^32, so a wrapped counter finds the same cell. */
  lemma Cell(y: nat)
    ensures y % U32 % PIPESIZE == y % PIPESIZE
  {
    assert y == y / U32 * U32 + y % U32;
    var q := y / U32 * (U32 / PIPESIZE);
    assert y == PIPESIZE * q + y % U32;
  }

  lemma NextPlace(nread: nat, k: nat)
    requires nread < U32
    ensures Place((nread + 1) % U32, k) == Place(nread, k + 1)
  {
    Cell(nread + 1);
    assert nread + 1 < U32 || (nread + 1) % U32 == 0;
  }

  lemma Apart(x: nat, j: nat, k: nat)
    requires j < k < PIPESIZE
    ensures Place(x, j) != Place(x, k)
  {
  }
}
