/**
 The buffer list of kernel/bio.c: a circular doubly linked list through `next` and `prev`, kept
 in order of last use.  Buffer NBUF is the list head.  `order` is the list read from the head,
 most recently released first; `stamp` is the time of each buffer's last release.
 */
module BufferCache {
  import opened Params

  const HEAD: nat := NBUF

  /** The links realise the ring: each element points to its neighbours, cyclically. */
  predicate Linked(next: seq<nat>, prev: seq<nat>, ring: seq<nat>) {
    && |next| == |prev| == NBUF + 1 && |ring| > 0
    && (forall i :: 0 <= i < |ring| ==> ring[i] <= NBUF)
    && (forall i, j :: 0 <= i < j < |ring| ==> ring[i] != ring[j])
    && (forall i :: 0 <= i < |ring| - 1 ==> next[ring[i]] == ring[i + 1] && prev[ring[i + 1]] == ring[i])
    && next[ring[|ring| - 1]] == ring[0] && prev[ring[0]] == ring[|ring| - 1]
  }

  /** b->next->prev = b->prev; b->prev->next = b->next */
  lemma Unlink(next: seq<nat>, prev: seq<nat>, ring: seq<nat>, k: nat)
    requires Linked(next, prev, ring) && 0 < k < |ring|
    ensures next[ring[k]] <= NBUF && prev[ring[k]] <= NBUF
    ensures var b := ring[k];
            Linked(next[prev[b] := next[b]], prev[next[b] := prev[b]], ring[..k] + ring[k + 1..])
  {
    var b := ring[k];
    assert prev[b] == ring[k - 1];
    assert next[b] == if k + 1 < |ring| then ring[k + 1] else ring[0];
  }

  /** b->next = head.next; b->prev = &head; head.next->prev = b; head.next = b */
  lemma PushFront(next: seq<nat>, prev: seq<nat>, ring: seq<nat>, b: nat)
    requires Linked(next, prev, ring) && b <= NBUF && b !in ring
    ensures next[ring[0]] <= NBUF
    ensures var h := ring[0];
            Linked(next[b := next[h]][h := b], prev[b := h][next[h] := b], [h, b] + ring[1..])
  {
    var h := ring[0];
    assert next[h] == if |ring| == 1 then h else ring[1];
    var e := [h, b] + ring[1..];
    var nx, pv := next[b := next[h]][h := b], prev[b := h][next[h] := b];
    forall i | 0 <= i < |e| - 1
      ensures nx[e[i]] == e[i + 1] && pv[e[i + 1]] == e[i]
    {
      if i >= 2 {
        assert e[i] == ring[i - 1] && e[i + 1] == ring[i];
      }
    }
  }

  /** All buffers, each once, most recently released first. */
  predicate Recency(order: seq<nat>, stamp: seq<nat>, clock: nat) {
    && |order| == |stamp| == NBUF
    && (forall b :: 0 <= b < NBUF ==> b in order && stamp[b] < clock)
    && (forall i :: 0 <= i < |order| ==> order[i] < NBUF)
    && (forall i, j :: 0 <= i < j < |order| ==> stamp[order[i]] > stamp[order[j]])
  }

  function ToFront(order: seq<nat>, k: nat): seq<nat>
    requires k < |order|
  {
    [order[k]] + order[..k] + order[k + 1..]
  }

  lemma ToFrontAt(order: seq<nat>, k: nat, i: nat)
    requires k < |order| && i < |order|
    ensures |ToFront(order, k)| == |order|
    ensures ToFront(order, k)[i] == if i == 0 then order[k] else if i <= k then order[i - 1] else order[i]
  {
  }

  /** Releasing a buffer moves it to the front, with the latest stamp. */
  lemma ReleaseKeepsRecency(order: seq<nat>, stamp: seq<nat>, clock: nat, k: nat)
    requires Recency(order, stamp, clock) && k < NBUF
    ensures Recency(ToFront(order, k), stamp[order[k] := clock], clock + 1)
  {
    hide ToFront;
    var b, e, st := order[k], ToFront(order, k), stamp[order[k] := clock];
    ToFrontAt(order, k, 0);
    forall c | 0 <= c < NBUF
      ensures c in e && st[c] < clock + 1
    {
      assert c in order;
      var i :| 0 <= i < |order| && order[i] == c;
      ToFrontAt(order, k, if i < k then i + 1 else if i == k then 0 else i);
    }
    forall i, j | 0 <= i < j < |e|
      ensures e[i] < NBUF && e[j] < NBUF && st[e[i]] > st[e[j]]
    {
      ToFrontAt(order, k, i);
      ToFrontAt(order, k, j);
    }
    forall i | 0 <= i < |e|
      ensures e[i] < NBUF
    {
      ToFrontAt(order, k, i);
    }
  }

  lemma RingWithout(next: seq<nat>, prev: seq<nat>, order: seq<nat>, k: nat)
    requires Linked(next, prev, [HEAD] + order) && k < |order|
    ensures var ring := [HEAD] + order;
            var rest := ring[..k + 1] + ring[k + 2..];
            && rest[0] == HEAD && order[k] !in rest && order[k] < HEAD && ring[k + 1] == order[k]
            && [HEAD, order[k]] + rest[1..] == [HEAD] + ToFront(order, k)
            && ToFront(order, k)[0] == order[k]
  {
    var ring := [HEAD] + order;
    assert ring[k + 1] == order[k] && ring[0] == HEAD;
  }

  lemma RecycleKeepsUnique(dev: seq<nat>, blockno: seq<nat>, b: nat, d: nat, n: nat)
    requires OneBufferPerBlock(dev, blockno) && b < |dev|
    requires forall c :: 0 <= c < |dev| ==> !(dev[c] == d && blockno[c] == n)
    ensures OneBufferPerBlock(dev[b := d], blockno[b := n])
  {
  }

  lemma EveryBufferListed(order: seq<nat>, stamp: seq<nat>, clock: nat, b: nat)
    requires Recency(order, stamp, clock) && b < NBUF
    ensures b in order && |order| == |stamp| == NBUF
  {
  }

  lemma OlderIsLater(order: seq<nat>, stamp: seq<nat>, clock: nat, i: nat, j: nat)
    requires Recency(order, stamp, clock) && i <= j < NBUF
    ensures order[i] < NBUF && order[j] < NBUF && stamp[order[j]] <= stamp[order[i]]
  {
  }

  class Cache {
    const next: array<nat>
    const prev: array<nat>
    const dev: array<nat>
    const blockno: array<nat>
    const valid: array<bool>
    const refcnt: array<nat>
    ghost var order: seq<nat>
    ghost var stamp: seq<nat>
    ghost var clock: nat

    ghost predicate Valid()
      reads this, next, prev, dev, blockno, valid, refcnt
    {
      && next.Length == prev.Length == NBUF + 1
      && dev.Length == blockno.Length == valid.Length == refcnt.Length == NBUF
      && next != prev && dev != blockno && dev != refcnt && blockno != refcnt
      && next != dev && next != blockno && next != refcnt && prev != dev && prev != blockno && prev != refcnt
      && Linked(next[..], prev[..], [HEAD] + order)
      && Recency(order, stamp, clock)
      && OneBufferPerBlock(dev[..], blockno[..])
    }

    /** b is one of the NBUF buffers and holds this block. */
    ghost predicate Caches(b: nat, d: nat, n: nat)
      reads dev, blockno
    {
      b < dev.Length == blockno.Length && dev[b] == d && blockno[b] == n
    }

    /** binit(): the buffers are pushed to the front one by one. */
    constructor ()
      ensures Valid() && fresh(next) && fresh(prev) && fresh(dev) && fresh(blockno) && fresh(valid) && fresh(refcnt)
      ensures forall b :: 0 <= b < NBUF ==> dev[b] == 0 && refcnt[b] == 0 && !valid[b]
    {
      next, prev := new nat[NBUF + 1](_ => HEAD), new nat[NBUF + 1](_ => HEAD);
      dev, blockno, refcnt := new nat[NBUF](_ => 0), new nat[NBUF](_ => 0), new nat[NBUF](_ => 0);
      valid := new bool[NBUF](_ => false);
      new;
      order := [];
      var b := 0;
      while b < NBUF
        invariant 0 <= b <= NBUF && |order| == b
        invariant Linked(next[..], prev[..], [HEAD] + order)
        invariant forall i :: 0 <= i < b ==> order[i] == b - 1 - i
        invariant forall c :: 0 <= c < NBUF ==> dev[c] == 0 && refcnt[c] == 0 && !valid[c]
      {
        ghost var ring := [HEAD] + order;
        PutFirst(b, ring);
        order := [b] + order;
        assert [HEAD, b] + ring[1..] == [HEAD] + order;
        b := b + 1;
      }
      stamp, clock := seq(NBUF, i => i), NBUF;
      forall c | 0 <= c < NBUF
        ensures c in order
      {
        assert order[NBUF - 1 - c] == c;
      }
    }

    /** The scan forward from the head for a buffer of this block. */
    method FindCached(d: nat, n: nat) returns (r: Option<nat>)
      requires Valid()
      ensures r.Some? ==> r.value < NBUF && Caches(r.value, d, n)
      ensures r == None ==> forall b :: 0 <= b < NBUF ==> !Caches(b, d, n)
    {
      hide Recency;
      ghost var ring := [HEAD] + order;
      ghost var i := 1;
      var b := next[HEAD];
      while b != HEAD
        invariant 1 <= i <= |ring| && b == if i < |ring| then ring[i] else HEAD
        invariant forall j :: 1 <= j < i ==> !Caches(ring[j], d, n)
        decreases |ring| - i
      {
        if dev[b] == d && blockno[b] == n {
          return Some(b);
        }
        b := next[b];
        i := i + 1;
      }
      forall c | 0 <= c < NBUF
        ensures !Caches(c, d, n)
      {
        EveryBufferListed(order, stamp, clock, c);
        var j :| 0 <= j < |order| && order[j] == c;
        assert ring[j + 1] == c;
      }
      return None;
    }

    /** The scan backward from the head: the least recently used buffer with refcnt 0. */
    method FindUnused() returns (r: Option<nat>)
      requires Valid()
      ensures r.Some? ==> r.value < NBUF && refcnt[r.value] == 0
      ensures r.Some? ==> forall b :: 0 <= b < NBUF && refcnt[b] == 0 ==> stamp[r.value] <= stamp[b]
      ensures r == None ==> forall b :: 0 <= b < NBUF ==> refcnt[b] > 0
    {
      hide Recency, OneBufferPerBlock;
      EveryBufferListed(order, stamp, clock, 0);
      ghost var ring := [HEAD] + order;
      ghost var i := |ring| - 1;
      var b := prev[HEAD];
      while b != HEAD
        invariant 0 <= i < |ring| && b == ring[i]
        invariant forall j :: i < j < |ring| ==> refcnt[ring[j]] > 0
        decreases i
      {
        if refcnt[b] == 0 {
          forall c | 0 <= c < NBUF && refcnt[c] == 0
            ensures stamp[b] <= stamp[c]
          {
            EveryBufferListed(order, stamp, clock, c);
            var j :| 0 <= j < |order| && order[j] == c;
            assert ring[j + 1] == c;
            OlderIsLater(order, stamp, clock, j, i - 1);
          }
          return Some(b);
        }
        b := prev[b];
        i := i - 1;
      }
      forall c | 0 <= c < NBUF
        ensures refcnt[c] > 0
      {
        EveryBufferListed(order, stamp, clock, c);
        var j :| 0 <= j < |order| && order[j] == c;
        assert ring[j + 1] == c;
      }
      return None;
    }

    /** bget(), up to the wait for the buffer's sleep-lock.  No buffer means "bget: no buffers". */
    method Bget(d: nat, n: nat) returns (r: Option<nat>)
      requires Valid() && d != 0
      modifies dev, blockno, valid, refcnt
      ensures Valid() && order == old(order) && stamp == old(stamp)
      ensures r == None <==> (forall b :: 0 <= b < NBUF ==> old(refcnt[b]) > 0 && !old(Caches(b, d, n)))
      ensures r.Some? ==> r.value < NBUF && Caches(r.value, d, n)
      ensures forall b :: 0 <= b < NBUF && r != Some(b) ==>
                dev[b] == old(dev[b]) && blockno[b] == old(blockno[b]) && valid[b] == old(valid[b]) &&
                  refcnt[b] == old(refcnt[b])
      ensures r.Some? && old(Caches(r.value, d, n)) ==>
                valid[r.value] == old(valid[r.value]) && refcnt[r.value] == old(refcnt[r.value]) + 1
      ensures r.Some? && !old(Caches(r.value, d, n)) ==>
                && !valid[r.value] && refcnt[r.value] == 1 && old(refcnt[r.value]) == 0
                && (forall b :: 0 <= b < NBUF ==> !old(Caches(b, d, n)))
                && (forall b :: 0 <= b < NBUF && old(refcnt[b]) == 0 ==> stamp[r.value] <= stamp[b])
    {
      hide Recency, Linked;
      r := FindCached(d, n);
      if r.Some? {
        assert old(Caches(r.value, d, n));
        refcnt[r.value] := refcnt[r.value] + 1;
      } else {
        assert forall c :: 0 <= c < NBUF && dev[c] == d && blockno[c] == n ==> Caches(c, d, n);
        r := FindUnused();
        if r.Some? {
          var b := r.value;
          assert old(refcnt[b]) == 0;
          dev[b] := d;
          blockno[b] := n;
          valid[b] := false;
          refcnt[b] := 1;
          RecycleKeepsUnique(old(dev[..]), old(blockno[..]), b, d, n);
          assert dev[..] == old(dev[..])[b := d] && blockno[..] == old(blockno[..])[b := n];
        }
      }
      assert next[..] == old(next[..]) && prev[..] == old(prev[..]);
      hide OneBufferPerBlock;
    }

    /** b->next->prev = b->prev; b->prev->next = b->next */
    method TakeOut(b: nat, ghost ring: seq<nat>, ghost k: nat)
      requires next != prev && Linked(next[..], prev[..], ring) && 0 < k < |ring| && ring[k] == b
      modifies next, prev
      ensures Linked(next[..], prev[..], ring[..k] + ring[k + 1..])
    {
      Unlink(next[..], prev[..], ring, k);
      ghost var nx: seq<nat>, pv: seq<nat> := next[..], prev[..];
      hide Linked;
      prev[next[b]] := prev[b];
      next[prev[b]] := next[b];
      assert prev[..] == pv[nx[b] := pv[b]];
    }

    /** b->next = head.next; b->prev = &head; head.next->prev = b; head.next = b */
    method PutFirst(b: nat, ghost ring: seq<nat>)
      requires next != prev && Linked(next[..], prev[..], ring) && ring[0] == HEAD && b < HEAD && b !in ring
      modifies next, prev
      ensures Linked(next[..], prev[..], [HEAD, b] + ring[1..])
    {
      PushFront(next[..], prev[..], ring, b);
      ghost var nx: seq<nat>, pv: seq<nat> := next[..], prev[..];
      hide Linked;
      next[b] := next[HEAD];
      prev[b] := HEAD;
      prev[next[HEAD]] := b;
      next[HEAD] := b;
      assert next[..] == nx[b := nx[HEAD]][HEAD := b];
      assert prev[..] == pv[b := HEAD][nx[HEAD] := b];
    }

    /** brelse(), after the sleep-lock is released. */
    method Brelse(b: nat)
      requires Valid() && b < NBUF && refcnt[b] > 0
      modifies this`order, this`stamp, this`clock, next, prev, refcnt
      ensures Valid()
      ensures refcnt[..] == old(refcnt[..])[b := old(refcnt[b]) - 1]
      ensures refcnt[b] > 0 ==> order == old(order) && stamp == old(stamp)
      ensures refcnt[b] == 0 ==> order[0] == b && stamp == old(stamp)[b := old(clock)]
    {
      hide Recency, Linked, OneBufferPerBlock;
      refcnt[b] := refcnt[b] - 1;
      if refcnt[b] == 0 {
        ghost var ring := [HEAD] + order;
        EveryBufferListed(order, stamp, clock, b);
        ghost var k :| 0 <= k < |order| && order[k] == b;
        ReleaseKeepsRecency(order, stamp, clock, k);
        RingWithout(next[..], prev[..], order, k);
        TakeOut(b, ring, k + 1);
        PutFirst(b, ring[..k + 1] + ring[k + 2..]);
        order, stamp, clock := ToFront(order, k), stamp[b := clock], clock + 1;
      }
    }
  }

  /** "One buffer per block" is about buffers that bget has assigned: their device is not 0. */
  predicate OneBufferPerBlock(dev: seq<nat>, blockno: seq<nat>) {
    |dev| == |blockno| &&
    forall b, c :: 0 <= b < c < |dev| && dev[b] == dev[c] != 0 ==> blockno[b] != blockno[c]
  }
}
