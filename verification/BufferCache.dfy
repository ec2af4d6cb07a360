/** The buffer cache of bio.c: NBUF buffers on a doubly linked ring kept in the order of
    their last release, most recent first. */
module BufferCache {
  import opened Common

  // ---------- doubly linked rings ----------

  function After(ring: seq<nat>, i: nat): nat
    requires i < |ring|
  {
    if i + 1 < |ring| then ring[i + 1] else ring[0]
  }

  /** Following `next` from ring[0] visits exactly `ring`, and `prev` goes the other way. */
  ghost predicate Links(next: seq<nat>, prev: seq<nat>, ring: seq<nat>) {
    |next| == |prev| && |ring| >= 1 && Distinct(ring) &&
    (forall i :: 0 <= i < |ring| ==> ring[i] < |next|) &&
    (forall i {:trigger After(ring, i)} :: 0 <= i < |ring| ==> next[ring[i]] == After(ring, i)) &&
    (forall i {:trigger After(ring, i)} :: 0 <= i < |ring| ==> prev[After(ring, i)] == ring[i])
  }

  lemma WithoutAt(ring: seq<nat>, k: nat, i: nat)
    requires 1 <= k < |ring| && i < |ring| - 1
    ensures var r, j := Without(ring, k), if i < k then i else i + 1;
      r[i] == ring[j] && After(r, i) == (if j == k - 1 then After(ring, k) else After(ring, j))
  {
  }

  lemma WithoutDistinct(ring: seq<nat>, k: nat)
    requires Distinct(ring) && k < |ring|
    ensures Distinct(Without(ring, k)) && ring[k] !in Without(ring, k)
  {
  }

  /** Taking an element out by making its neighbours point to each other. */
  lemma UnlinkKeepsRing(next: seq<nat>, prev: seq<nat>, ring: seq<nat>, k: nat)
    requires Links(next, prev, ring) && 1 <= k < |ring|
    ensures var b := ring[k];
      next[b] < |prev| && prev[b] < |next| &&
      Links(next[prev[b] := next[b]], prev[next[b] := prev[b]], Without(ring, k))
  {
    var b := ring[k];
    assert prev[After(ring, k - 1)] == ring[k - 1];
    assert next[b] == After(ring, k) && prev[b] == ring[k - 1];
    var r := Without(ring, k);
    var n', p' := next[prev[b] := next[b]], prev[next[b] := prev[b]];
    WithoutDistinct(ring, k);
    forall i | 0 <= i < |r|
      ensures r[i] < |next| && n'[r[i]] == After(r, i) && p'[After(r, i)] == r[i]
    {
      var j := if i < k then i else i + 1;
      WithoutAt(ring, k, i);
      assert next[ring[j]] == After(ring, j) && prev[After(ring, j)] == ring[j];
      if j != k - 1 { AfterInjective(ring, j, k); }
    }
  }

  lemma AfterInjective(ring: seq<nat>, i: nat, j: nat)
    requires Distinct(ring) && i < |ring| && j < |ring| && i != j
    ensures After(ring, i) != After(ring, j)
  {
  }

  /** Insert b right after ring[0]. */
  lemma LinkFrontKeepsRing(next: seq<nat>, prev: seq<nat>, ring: seq<nat>, b: nat)
    requires Links(next, prev, ring) && b < |next| && b !in ring
    ensures var h, f := ring[0], After(ring, 0);
      next[h] == f < |prev| &&
      Links(next[b := f][h := b], prev[b := h][f := b], [h, b] + ring[1..])
  {
    var h, f := ring[0], After(ring, 0);
    var r := [h, b] + ring[1..];
    var n', p' := next[b := f][h := b], prev[b := h][f := b];
    forall i | 0 <= i < |r| ensures n'[r[i]] == After(r, i) && p'[After(r, i)] == r[i] {
      if i >= 2 {
        assert r[i] == ring[i - 1] && After(r, i) == After(ring, i - 1);
        AfterInjective(ring, 0, i - 1);
      }
    }
  }

  // ---------- the cache ----------

  datatype Buf = Buf(dev: nat, blockno: nat, refcnt: nat, valid: bool)

  predicate Holds(buf: Buf, d: nat, b: nat) { buf.dev == d && buf.blockno == b }

  /** No block of a real device (device 0 is none) is in two buffers. */
  ghost predicate Unique(bufs: seq<Buf>) {
    forall i, j :: 0 <= i < j < |bufs| && bufs[i].dev != 0 ==> !Holds(bufs[j], bufs[i].dev, bufs[i].blockno)
  }

  /** The buffers after the list head come in the order of their stamps, latest first. */
  ghost predicate ByRecency(ring: seq<nat>, stamp: seq<nat>)
    requires forall i :: 1 <= i < |ring| ==> ring[i] < |stamp|
  {
    forall i, j :: 1 <= i < j < |ring| ==> stamp[ring[i]] > stamp[ring[j]]
  }

  ghost predicate RingOk(ring: seq<nat>, stamp: seq<nat>, clock: nat, n: nat) {
    |ring| == n + 1 && ring[0] == n && |stamp| == n && Distinct(ring) &&
    (forall i :: 1 <= i < |ring| ==> ring[i] < n) &&
    (forall b: nat :: b < n ==> b in ring) &&
    (forall b :: 0 <= b < n ==> stamp[b] < clock) &&
    ByRecency(ring, stamp)
  }

  function ToFront(ring: seq<nat>, k: nat): seq<nat>
    requires 1 <= k < |ring|
  {
    [ring[0], ring[k]] + Without(ring, k)[1..]
  }

  /** Where the buffers go. */
  lemma ToFrontAt(ring: seq<nat>, k: nat, i: nat)
    requires 1 <= k < |ring| && 2 <= i < |ring|
    ensures |ToFront(ring, k)| == |ring| && ToFront(ring, k)[i] == ring[if i <= k then i - 1 else i]
  {
  }

  lemma ToFrontCovers(ring: seq<nat>, k: nat, b: nat)
    requires 1 <= k < |ring| && b in ring
    ensures b in ToFront(ring, k)
  {
    var r := ToFront(ring, k);
    var j :| 0 <= j < |ring| && ring[j] == b;
    if j == k { assert r[1] == b; }
    else if 1 <= j < k { ToFrontAt(ring, k, j + 1); }
    else if j > k { ToFrontAt(ring, k, j); }
  }

  lemma ToFrontOk(ring: seq<nat>, stamp: seq<nat>, clock: nat, n: nat, k: nat)
    requires RingOk(ring, stamp, clock, n) && 1 <= k < |ring|
    ensures RingOk(ToFront(ring, k), stamp[ring[k] := clock], clock + 1, n)
  {
    var r, st := ToFront(ring, k), stamp[ring[k] := clock];
    assert |r| == |ring| && r[0] == n && r[1] == ring[k];
    forall i | 2 <= i < |r| ensures r[i] == ring[if i <= k then i - 1 else i] {
      ToFrontAt(ring, k, i);
    }
    forall b: nat | b < n ensures b in r {
      assert b in ring;
      ToFrontCovers(ring, k, b);
    }
    ToFrontDistinct(ring, r, k);
    assert ByRecency(r, st);
  }

  lemma ToFrontDistinct(ring: seq<nat>, r: seq<nat>, k: nat)
    requires Distinct(ring) && 1 <= k < |ring| == |r| && r[0] == ring[0] && r[1] == ring[k]
    requires forall i :: 2 <= i < |r| ==> r[i] == ring[if i <= k then i - 1 else i]
    ensures Distinct(r)
  {
  }

  lemma InitialRing(ring: seq<nat>, n: nat)
    requires |ring| == n + 1 && ring[0] == n && forall i :: 1 <= i <= n ==> ring[i] == n - i
    ensures RingOk(ring, seq(n, i => i), n, n)
  {
    forall b: nat | b < n ensures b in ring { assert ring[n - b] == b; }
  }

  /** The blocks of device d in the cache, with their reference counts. */
  ghost function Refs(bufs: seq<Buf>, d: nat): map<nat, nat>
    requires Unique(bufs) && d != 0
  {
    map i | 0 <= i < |bufs| && bufs[i].dev == d :: bufs[i].blockno := bufs[i].refcnt
  }

  lemma RefsOf(bufs: seq<Buf>, d: nat, i: nat)
    requires Unique(bufs) && d != 0 && i < |bufs| && bufs[i].dev == d
    ensures bufs[i].blockno in Refs(bufs, d) && Refs(bufs, d)[bufs[i].blockno] == bufs[i].refcnt
  {
  }

  function Gone(buf: Buf, d: nat): set<nat> { if buf.dev == d then {buf.blockno} else {} }

  lemma RecycleKeeps(bufs: seq<Buf>, bufs': seq<Buf>, d: nat, r: nat, x: nat)
    requires Unique(bufs) && Unique(bufs') && d != 0 && r < |bufs| == |bufs'| && bufs' == bufs[r := bufs'[r]]
    requires x in Refs(bufs, d) && x !in Gone(bufs[r], d)
    ensures x in Refs(bufs', d) && Refs(bufs', d)[x] == Refs(bufs, d)[x]
  {
    var i :| 0 <= i < |bufs| && bufs[i].dev == d && bufs[i].blockno == x;
    RefsOf(bufs, d, i);
    RefsOf(bufs', d, i);
  }

  lemma RecycleAddsOnly(bufs: seq<Buf>, bufs': seq<Buf>, d: nat, r: nat, x: nat)
    requires Unique(bufs) && Unique(bufs') && d != 0 && r < |bufs| == |bufs'| && bufs' == bufs[r := bufs'[r]]
    requires x in Refs(bufs', d) && x !in Gone(bufs'[r], d)
    ensures x in Refs(bufs, d) && x !in Gone(bufs[r], d)
  {
    var i :| 0 <= i < |bufs'| && bufs'[i].dev == d && bufs'[i].blockno == x;
    assert i != r && bufs'[i] == bufs[i];
    RefsOf(bufs, d, i);
  }

  /** Taking over a buffer is what the log machine calls Evict and then Bget: the block
      that leaves has no references, and the block that enters has one. */
  lemma RecycleEvicts(bufs: seq<Buf>, d: nat, b: nat, r: nat)
    requires Unique(bufs) && d != 0 && r < |bufs| && bufs[r].refcnt == 0
    requires forall i :: 0 <= i < |bufs| ==> !Holds(bufs[i], d, b)
    ensures var bufs' := bufs[r := Buf(d, b, 1, false)];
      var gone := Gone(bufs[r], d);
      Unique(bufs') && b !in Refs(bufs, d) &&
      (forall x :: x in gone ==> x in Refs(bufs, d) && Refs(bufs, d)[x] == 0) &&
      Refs(bufs', d) == (Refs(bufs, d) - gone)[b := 1]
  {
    var bufs' := bufs[r := Buf(d, b, 1, false)];
    assert Unique(bufs');
    RefsOf(bufs', d, r);
    if bufs[r].dev == d { RefsOf(bufs, d, r); }
    forall x | x in Refs(bufs, d) && x !in Gone(bufs[r], d)
      ensures x in Refs(bufs', d) && Refs(bufs', d)[x] == Refs(bufs, d)[x]
    {
      RecycleKeeps(bufs, bufs', d, r, x);
    }
    forall x | x in Refs(bufs', d) && x != b ensures x in Refs(bufs, d) && x !in Gone(bufs[r], d) {
      RecycleAddsOnly(bufs, bufs', d, r, x);
    }
  }

  lemma OldestAt(ring: seq<nat>, stamp: seq<nat>, clock: nat, bufs: seq<Buf>, k: nat)
    requires RingOk(ring, stamp, clock, |bufs|) && 1 <= k < |ring|
    requires forall i :: k < i < |ring| ==> bufs[ring[i]].refcnt > 0
    ensures forall i :: 0 <= i < |bufs| && i != ring[k] && bufs[i].refcnt == 0 ==> stamp[ring[k]] < stamp[i]
  {
    forall b: nat | b < |bufs| && b != ring[k] && bufs[b].refcnt == 0 ensures stamp[ring[k]] < stamp[b] {
      assert b in ring;
      var i :| 0 <= i < |ring| && ring[i] == b;
    }
  }

  class Bcache {
    const nbuf: nat
    const next: array<nat>
    const prev: array<nat>
    const buf: array<Buf>
    ghost var ring: seq<nat>
    ghost var stamp: seq<nat>
    ghost var clock: nat

    ghost predicate Valid()
      reads this, next, prev, buf
    {
      next.Length == nbuf + 1 && prev.Length == nbuf + 1 && buf.Length == nbuf && next != prev &&
      Links(next[..], prev[..], ring) && RingOk(ring, stamp, clock, nbuf) && Unique(buf[..])
    }

    /** binit pushes every buffer, in turn, on the front of an empty ring. */
    constructor (n: nat)
      ensures Valid() && nbuf == n && fresh(next) && fresh(prev) && fresh(buf)
      ensures forall i :: 0 <= i < n ==> buf[i] == Buf(0, 0, 0, false)
      ensures stamp == seq(n, i => i) && clock == n
    {
      nbuf := n;
      next, prev := new nat[n + 1], new nat[n + 1];
      buf := new Buf[n](_ => Buf(0, 0, 0, false));
      new;
      next[n], prev[n] := n, n;
      ring := [n];
      stamp, clock := seq(n, i => i), n;
      var b := 0;
      while b < n
        invariant 0 <= b <= n && next.Length == prev.Length == n + 1 && next != prev && nbuf == n
        invariant forall i :: 0 <= i < n ==> buf[i] == Buf(0, 0, 0, false)
        invariant stamp == seq(n, i => i) && clock == n
        invariant Links(next[..], prev[..], ring)
        invariant |ring| == b + 1 && ring[0] == n
        invariant forall i :: 1 <= i <= b ==> ring[i] == b - i
      {
        PushFront(b);
        b := b + 1;
      }
      InitialRing(ring, n);
    }

    method Bpin(b: nat)
      requires Valid() && b < nbuf
      modifies buf
      ensures Valid() && buf[..] == old(buf[..])[b := old(buf[b]).(refcnt := old(buf[b]).refcnt + 1)]
    {
      buf[b] := buf[b].(refcnt := buf[b].refcnt + 1);
    }

    method Bunpin(b: nat)
      requires Valid() && b < nbuf && buf[b].refcnt > 0
      modifies buf
      ensures Valid() && buf[..] == old(buf[..])[b := old(buf[b]).(refcnt := old(buf[b]).refcnt - 1)]
    {
      buf[b] := buf[b].(refcnt := buf[b].refcnt - 1);
    }

    /** brelse: drop the reference; the last one moves the buffer to the front. */
    method Brelse(b: nat)
      requires Valid() && b < nbuf && buf[b].refcnt > 0
      modifies this`ring, this`stamp, this`clock, next, prev, buf
      ensures Valid() && buf[..] == old(buf[..])[b := old(buf[b]).(refcnt := old(buf[b]).refcnt - 1)]
      ensures buf[b].refcnt == 0 ==> stamp == old(stamp)[b := old(clock)] && clock == old(clock) + 1
      ensures buf[b].refcnt > 0 ==> stamp == old(stamp) && clock == old(clock) && ring == old(ring)
    {
      buf[b] := buf[b].(refcnt := buf[b].refcnt - 1);
      if buf[b].refcnt == 0 {
        MoveToFront(b);
      }
    }

    method MoveToFront(b: nat)
      requires Valid() && b < nbuf
      modifies this`ring, this`stamp, this`clock, next, prev
      ensures Valid() && stamp == old(stamp)[b := old(clock)] && clock == old(clock) + 1
    {
      assert b in ring;
      ghost var k :| 0 <= k < |ring| && ring[k] == b;
      ToFrontOk(ring, stamp, clock, nbuf, k);
      WithoutDistinct(ring, k);
      Unlink(b, k);
      PushFront(b);
      stamp, clock := stamp[b := clock], clock + 1;
    }

    method Unlink(b: nat, ghost k: nat)
      requires next.Length == prev.Length && next != prev && Links(next[..], prev[..], ring)
      requires 1 <= k < |ring| && ring[k] == b
      modifies this`ring, next, prev
      ensures ring == Without(old(ring), k) && Links(next[..], prev[..], ring)
    {
      UnlinkKeepsRing(next[..], prev[..], ring, k);
      ghost var n0: seq<nat>, p0: seq<nat> := next[..], prev[..];
      var nx, pv := next[b], prev[b];
      prev[nx] := pv;
      next[pv] := nx;
      assert next[..] == n0[pv := nx] && prev[..] == p0[nx := pv];
      ring := Without(ring, k);
    }

    method PushFront(b: nat)
      requires next.Length == prev.Length == nbuf + 1 && next != prev && Links(next[..], prev[..], ring)
      requires ring[0] == nbuf && b < nbuf && b !in ring
      modifies this`ring, next, prev
      ensures ring == [nbuf, b] + old(ring)[1..] && Links(next[..], prev[..], ring)
    {
      LinkFrontKeepsRing(next[..], prev[..], ring, b);
      ghost var n0: seq<nat>, p0: seq<nat> := next[..], prev[..];
      var f := next[nbuf];
      next[b] := f;
      prev[b] := nbuf;
      prev[f] := b;
      next[nbuf] := b;
      assert next[..] == n0[b := f][nbuf := b] && prev[..] == p0[b := nbuf][f := b];
      ring := [nbuf, b] + ring[1..];
    }

    /** bget: the buffer holding the block if there is one, otherwise the unreferenced
        buffer released longest ago, taken over; a panic if every buffer is in use. */
    method Bget(d: nat, b: nat) returns (r: nat, hit: bool, panicked: bool)
      requires Valid() && d != 0
      modifies buf
      ensures Valid()
      ensures hit <==> exists i :: 0 <= i < nbuf && Holds(old(buf[i]), d, b)
      ensures panicked <==> !hit && forall i :: 0 <= i < nbuf ==> old(buf[i]).refcnt > 0
      ensures panicked ==> buf[..] == old(buf[..])
      ensures !panicked ==> r < nbuf
      ensures hit ==> Holds(old(buf[r]), d, b)
      ensures hit ==> buf[..] == old(buf[..])[r := old(buf[r]).(refcnt := old(buf[r]).refcnt + 1)]
      ensures !hit && !panicked ==> old(buf[r]).refcnt == 0
      ensures !hit && !panicked ==> buf[..] == old(buf[..])[r := Buf(d, b, 1, false)]
      ensures !hit && !panicked ==>
        forall i :: 0 <= i < nbuf && i != r && old(buf[i]).refcnt == 0 ==> stamp[r] < stamp[i]
    {
      r := Search(d, b);
      hit, panicked := r != nbuf, false;
      if hit {
        buf[r] := buf[r].(refcnt := buf[r].refcnt + 1);
        return;
      }
      r := Oldest();
      if r == nbuf {
        panicked := true;
        return;
      }
      buf[r] := Buf(d, b, 1, false);
    }

    /** The first loop of bget: nbuf, the list head, when no buffer holds the block. */
    method Search(d: nat, b: nat) returns (r: nat)
      requires Valid()
      ensures r <= nbuf
      ensures r < nbuf ==> Holds(buf[r], d, b)
      ensures r == nbuf ==> forall i :: 0 <= i < nbuf ==> !Holds(buf[i], d, b)
    {
      r := next[nbuf];
      ghost var k := 1;
      assert r == After(ring, 0);
      while r != nbuf
        invariant 1 <= k <= nbuf + 1 && r == (if k <= nbuf then ring[k] else nbuf)
        invariant forall i :: 1 <= i < k ==> !Holds(buf[ring[i]], d, b)
        decreases nbuf + 1 - k
      {
        if Holds(buf[r], d, b) {
          return;
        }
        r := next[r];
        assert r == After(ring, k);
        k := k + 1;
      }
      forall i: nat | i < nbuf ensures !Holds(buf[i], d, b) {
        assert i in ring;
      }
    }

    /** The second loop of bget: the unreferenced buffer released longest ago. */
    method Oldest() returns (r: nat)
      requires Valid()
      ensures r <= nbuf
      ensures r < nbuf ==> buf[r].refcnt == 0
      ensures r < nbuf ==> forall i :: 0 <= i < nbuf && i != r && buf[i].refcnt == 0 ==> stamp[r] < stamp[i]
      ensures r == nbuf ==> forall i :: 0 <= i < nbuf ==> buf[i].refcnt > 0
    {
      ghost var k := nbuf;
      assert prev[After(ring, nbuf)] == ring[nbuf];
      r := prev[nbuf];
      while r != nbuf
        invariant 0 <= k <= nbuf && r == ring[k]
        invariant forall i :: k < i <= nbuf ==> buf[ring[i]].refcnt > 0
        decreases k
      {
        if buf[r].refcnt == 0 {
          OldestAt(ring, stamp, clock, buf[..], k);
          return;
        }
        assert prev[After(ring, k - 1)] == ring[k - 1];
        r := prev[r];
        k := k - 1;
      }
      forall i: nat | i < nbuf ensures buf[i].refcnt > 0 {
        assert i in ring;
      }
    }
  }
}
