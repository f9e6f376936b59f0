/**
  * The virtio disk driver (kernel/virtio_disk.c:155-327) and the device it talks to, which obeys
  * sections 2.6 and 5.2 of the Virtual I/O Device specification, version 1.1, and may fail any
  * request.  The driver's methods run under vdisk_lock; the device's run at any time between them.
  */
module Virtio {
  const NUM: nat := 8
  const USHORT: nat := 65536
  const NEXT: nat := 1
  const WRITE: nat := 2

  const BSIZE: nat := 1024
  type Block = b: seq<nat> | |b| == 1024 witness seq(1024, _ => 0)

  /** What a descriptor's address refers to. */
  datatype Addr = Null | Header(i: nat) | Data(b: nat) | Status(i: nat)
  datatype Desc = Desc(addr: Addr, len: nat, flags: nat, next: nat)
  datatype Op = Op(write: bool, sector: nat)
  datatype Info = Info(b: nat, status: nat)

  const ZERO := Desc(Null, 0, 0, 0)
  const NOBUF: nat := 0
  const PENDING: nat := 0xff

  /** How far a request has come: published, taken by the device, reported in the used ring, seen by the driver. */
  datatype Phase = Published | Taken | Reported | Seen
  /** status is what the device has reported; moved is the block it left in the buffer or on the medium. */
  datatype Request = Request(b: nat, op: Op, i1: nat, i2: nat, phase: Phase, status: nat, moved: Block)
  type Requests = map<nat, Request>

  /** The place of a counter in a ring. */
  function Slot(i: nat): (r: nat)
    ensures r < NUM
  {
    i % NUM
  }

  /** A count, as a 16-bit counter shows it. */
  function Short(i: nat): nat {
    i % USHORT
  }

  // ---- what holds between the steps

  /** Descriptor i belongs to the request with head h. */
  predicate Member(h: nat, r: Request, i: nat) {
    i == h || i == r.i1 || i == r.i2
  }

  /** The request at h owns three descriptors, chained. */
  predicate Chained(desc: seq<Desc>, ops: seq<Op>, info: seq<Info>, h: nat, r: Request) {
    && |desc| == |ops| == |info| == NUM && h < NUM && r.i1 < NUM && r.i2 < NUM && h != r.i1 && h != r.i2 && r.i1 != r.i2
    && desc[h].addr == Header(h) && desc[h].len == 16 && desc[h].flags == NEXT && desc[h].next == r.i1
    && desc[r.i1].addr == Data(r.b) && desc[r.i1].len == BSIZE &&
         desc[r.i1].flags == (if r.op.write then NEXT else WRITE + NEXT) &&
         desc[r.i1].next == r.i2
    && desc[r.i2].addr == Status(h) && desc[r.i2].len == 1 && desc[r.i2].flags == WRITE
    && ops[h] == r.op && info[h].b == r.b && r.b != NOBUF
    && info[h].status == r.status
    && (r.phase == Published || r.phase == Taken ==> r.status == PENDING)
    && (r.phase == Seen ==> r.status == 0)
  }

  predicate AllChained(desc: seq<Desc>, ops: seq<Op>, info: seq<Info>, reqs: Requests) {
    forall h :: h in reqs ==> Chained(desc, ops, info, h, reqs[h])
  }

  /** Chains are disjoint, and the other descriptors are free. */
  predicate Partition(free: seq<bool>, reqs: Requests) {
    && |free| == NUM
    && (forall h, i :: h in reqs && 0 <= i < NUM && Member(h, reqs[h], i) ==> !free[i])
    && (forall g, h, i ::
           g in reqs && h in reqs && 0 <= i < NUM && Member(g, reqs[g], i) && Member(h, reqs[h], i) ==> g == h)
    && (forall i :: 0 <= i < NUM && !free[i] ==> exists h :: h in reqs && Member(h, reqs[h], i))
  }

  /** Free descriptors are clear. */
  predicate Zeroed(free: seq<bool>, desc: seq<Desc>) {
    forall i :: 0 <= i < NUM && i < |free| && i < |desc| && free[i] ==> desc[i] == ZERO
  }

  /** One request for a buffer at a time, and b->disk says whether it is unfinished. */
  predicate Buffers(reqs: Requests, busy: set<nat>) {
    && (forall g, h :: g in reqs && h in reqs && reqs[g].b == reqs[h].b ==> g == h)
    && (forall h :: h in reqs ==> (reqs[h].b in busy <==> reqs[h].phase != Seen))
    && (forall b :: b in busy ==> exists h :: h in reqs && reqs[h].b == b)
  }

  /** What a read has left in its buffer is still there. */
  predicate Delivered(reqs: Requests, data: map<nat, Block>) {
    forall h :: h in reqs && !reqs[h].op.write && (reqs[h].phase == Reported || reqs[h].phase == Seen) ==>
      Contents(data, reqs[h].b) == reqs[h].moved
  }

  /** Entries lo to hi of a history are in the ring, and are distinct requests in the given phase. */
  predicate InRing(ring: seq<nat>, history: seq<nat>, lo: nat, hi: nat, reqs: Requests, phase: Phase) {
    && |ring| == NUM && lo <= hi == |history|
    && (forall k ::
           lo <= k < hi ==>
             ring[Slot(k)] == history[k] && history[k] in reqs && reqs[history[k]].phase == phase && history[k] < NUM)
    && (forall j, k :: lo <= j < k < hi ==> history[j] != history[k])
    && (forall h :: h in reqs && reqs[h].phase == phase ==> exists k :: lo <= k < hi && history[k] == h)
  }

  /** Distinct numbers below n are at most n. */
  lemma {:induction false} Pigeonhole(s: seq<nat>, n: nat)
    requires (forall k :: 0 <= k < |s| ==> s[k] < n) && (forall j, k :: 0 <= j < k < |s| ==> s[j] != s[k])
    ensures |s| <= n
  {
    if s != [] {
      assert s[0] < n;
      if i :| 0 <= i < |s| && s[i] == n - 1 {
        Pigeonhole(s[..i] + s[i + 1..], n - 1);
      } else {
        Pigeonhole(s, n - 1);
      }
    }
  }

  /** A ring never holds more than NUM entries, and one fewer if a request is in another phase. */
  lemma RingRoom(ring: seq<nat>, history: seq<nat>, lo: nat, hi: nat, reqs: Requests, phase: Phase)
    requires InRing(ring, history, lo, hi, reqs, phase)
    ensures hi - lo <= NUM
    ensures forall h: nat :: h < NUM && !(h in reqs && reqs[h].phase == phase) ==> hi - lo < NUM
  {
    Pigeonhole(history[lo..hi], NUM);
    forall h: nat | h < NUM && !(h in reqs && reqs[h].phase == phase) ensures hi - lo < NUM {
      Pigeonhole(history[lo..hi] + [h], NUM);
    }
  }

  /** 16-bit counters at most NUM apart are equal exactly when the counts are. */
  lemma Wraps(a: nat, b: nat)
    requires a <= b <= a + NUM
    ensures Short(a) == Short(b) <==> a == b
  {
  }

  lemma Slots(j: nat, k: nat)
    requires j < k < j + NUM
    ensures Slot(j) != Slot(k)
  {
  }

  /** The histories of the two rings: what the driver published, what the device took and reported, what the
      driver saw. */
  ghost predicate Rings(
    avail: seq<nat>, used: seq<nat>, published: seq<nat>, taken: nat, reported: seq<nat>, seen: nat, reqs: Requests)
  {
    && InRing(avail, published, taken, |published|, reqs, Published)
    && InRing(used, reported, seen, |reported|, reqs, Reported)
  }

  function Blank(): Block {
    seq(1024, _ => 0)
  }

  /** A block of a map, whatever it is when the map has none. */
  function Contents(m: map<nat, Block>, k: nat): Block {
    if k in m then m[k] else Blank()
  }

  /** What is at the destination of a transfer of len bytes: the rest of it stays. */
  function Copied(src: Block, dst: Block, len: nat): Block {
    if len < BSIZE then src[..len] + dst[len..] else src
  }

  lemma PartitionSize(free: seq<bool>, reqs: Requests)
    requires Partition(free, reqs)
    ensures |free| == NUM
  {
  }

  lemma IndexOf(n: nat)
    ensures Slot(Short(n)) == Slot(n) && Short(Short(n) + 1) == Short(n + 1)
  {
    var q, r := n / USHORT, n % USHORT;
    assert n == q * USHORT + r == (q * 8192) * NUM + r;
    SlotOf(q * 8192, r);
    if r + 1 == USHORT {
      assert n + 1 == (q + 1) * USHORT;
    } else {
      assert n + 1 == q * USHORT + (r + 1);
    }
  }

  lemma SlotOf(a: nat, r: nat)
    ensures (a * NUM + r) % NUM == r % NUM
  {
  }

  lemma ChainOf(desc: seq<Desc>, ops: seq<Op>, info: seq<Info>, reqs: Requests, h: nat)
    requires AllChained(desc, ops, info, reqs) && h in reqs
    ensures Chained(desc, ops, info, h, reqs[h]) && h < NUM == |info| && info[h].b == reqs[h].b
  {
  }

  lemma ReportedChain(desc: seq<Desc>, ops: seq<Op>, info: seq<Info>, reqs: Requests, h: nat)
    requires AllChained(desc, ops, info, reqs) && h in reqs && reqs[h].phase == Reported
    ensures h < |info| && info[h] == Info(reqs[h].b, reqs[h].status)
  {
  }

  /** The same request, further on. */
  predicate Continues(r: Request, r': Request) {
    r' == r.(phase := r'.phase, status := r'.status, moved := r'.moved) && (r.phase == Seen <==> r'.phase == Seen)
  }

  lemma SameMembers(free: seq<bool>, reqs: Requests, h: nat, r: Request)
    requires Partition(free, reqs) && h in reqs && r.i1 == reqs[h].i1 && r.i2 == reqs[h].i2
    ensures Partition(free, reqs[h := r])
  {
    var reqs' := reqs[h := r];
    forall i | 0 <= i < NUM && !free[i] ensures exists g :: g in reqs' && Member(g, reqs'[g], i) {
      var g :| g in reqs && Member(g, reqs[g], i);
      assert g in reqs' && Member(g, reqs'[g], i);
    }
  }

  lemma SameBuffers(reqs: Requests, busy: set<nat>, h: nat, r: Request)
    requires Buffers(reqs, busy) && h in reqs && Continues(reqs[h], r)
    ensures Buffers(reqs[h := r], busy)
  {
    var reqs' := reqs[h := r];
    forall b | b in busy ensures exists g :: g in reqs' && reqs'[g].b == b {
      var g :| g in reqs && reqs[g].b == b;
      assert g in reqs' && reqs'[g].b == b;
    }
  }

  /** The device starting a request changes nothing else. */
  lemma TakeKeeps(
    free: seq<bool>, desc: seq<Desc>, ops: seq<Op>, info: seq<Info>, busy: set<nat>, data: map<nat, Block>,
    reqs: Requests, h: nat)
    requires AllChained(desc, ops, info, reqs) && Partition(free, reqs) && Buffers(reqs, busy) && Delivered(reqs, data)
    requires h in reqs && reqs[h].phase == Published
    ensures var reqs' := reqs[h := reqs[h].(phase := Taken)];
            AllChained(desc, ops, info, reqs') && Partition(free, reqs') && Buffers(reqs', busy) &&
              Delivered(reqs', data)
  {
    SameMembers(free, reqs, h, reqs[h].(phase := Taken));
    SameBuffers(reqs, busy, h, reqs[h].(phase := Taken));
    hide Partition, Buffers, Contents;
  }

  /** The device reporting a request changes nothing else. */
  lemma ReportKeeps(
    free: seq<bool>, desc: seq<Desc>, ops: seq<Op>, info: seq<Info>, busy: set<nat>, reqs: Requests, h: nat, r: Request)
    requires AllChained(desc, ops, info, reqs) && Partition(free, reqs) && Buffers(reqs, busy) && |info| == NUM &&
             h < NUM
    requires h in reqs && reqs[h].phase == Taken && Continues(reqs[h], r) && r.phase == Reported
    ensures var reqs' := reqs[h := r];
            && AllChained(desc, ops, info[h := info[h].(status := r.status)], reqs')
            && Partition(free, reqs') && Buffers(reqs', busy)
  {
    SameMembers(free, reqs, h, r);
    SameBuffers(reqs, busy, h, r);
    hide Partition, Buffers;
  }

  /** A transfer disturbs no other request's buffer. */
  lemma ReportDelivers(reqs: Requests, busy: set<nat>, data: map<nat, Block>, h: nat, r: Request)
    requires Buffers(reqs, busy) && Delivered(reqs, data) && h in reqs && Continues(reqs[h], r)
    ensures Delivered(reqs[h := r], if r.op.write then data else data[r.b := r.moved])
  {
  }

  lemma SeenKeeps(
    free: seq<bool>, desc: seq<Desc>, ops: seq<Op>, info: seq<Info>, busy: set<nat>, data: map<nat, Block>,
    reqs: Requests, h: nat)
    requires AllChained(desc, ops, info, reqs) && Partition(free, reqs) && Buffers(reqs, busy) && Delivered(reqs, data)
    requires h in reqs && reqs[h].phase == Reported && reqs[h].status == 0
    ensures var reqs' := reqs[h := reqs[h].(phase := Seen)];
            && AllChained(desc, ops, info, reqs') && Partition(free, reqs')
            && Buffers(reqs', busy - {reqs[h].b}) && Delivered(reqs', data)
  {
    SameMembers(free, reqs, h, reqs[h].(phase := Seen));
    SeenBuffers(reqs, busy, h);
    hide Partition, Buffers, Contents;
  }

  lemma SeenBuffers(reqs: Requests, busy: set<nat>, h: nat)
    requires Buffers(reqs, busy) && h in reqs && reqs[h].phase == Reported
    ensures Buffers(reqs[h := reqs[h].(phase := Seen)], busy - {reqs[h].b})
  {
    var reqs' := reqs[h := reqs[h].(phase := Seen)];
    forall b | b in busy - {reqs[h].b} ensures exists g :: g in reqs' && reqs'[g].b == b {
      var g :| g in reqs && reqs[g].b == b;
      assert g in reqs' && reqs'[g].b == b;
    }
  }

  lemma SeenPhase(reqs: Requests, busy: set<nat>, h: nat)
    requires Buffers(reqs, busy) && h in reqs && reqs[h].b !in busy
    ensures reqs[h].phase == Seen
  {
  }

  lemma ChainTaken(free: seq<bool>, reqs: Requests, h: nat)
    requires Partition(free, reqs) && h in reqs && h < NUM && reqs[h].i1 < NUM && reqs[h].i2 < NUM
    ensures !free[h] && !free[reqs[h].i1] && !free[reqs[h].i2]
  {
  }

  lemma FreedKeeps(
    free: seq<bool>, desc: seq<Desc>, ops: seq<Op>, info: seq<Info>, busy: set<nat>, reqs: Requests, h: nat,
    free': seq<bool>, desc': seq<Desc>, info': seq<Info>)
    requires AllChained(desc, ops, info, reqs) && Partition(free, reqs) && Buffers(reqs, busy) && h in reqs &&
             reqs[h].phase == Seen && h < NUM
    requires |free'| == |desc'| == |desc| == |info| == NUM && info' == info[h := info[h].(b := NOBUF)]
    requires forall i :: 0 <= i < NUM ==> free'[i] == (free[i] || Member(h, reqs[h], i))
    requires forall i :: 0 <= i < NUM && !Member(h, reqs[h], i) ==> desc'[i] == desc[i]
    ensures AllChained(desc', ops, info', reqs - {h}) && Partition(free', reqs - {h}) && Buffers(reqs - {h}, busy)
  {
    FreedChains(free, desc, ops, info, reqs, h, desc', info');
    FreedPartition(free, reqs, h, free');
    FreedBuffers(reqs, busy, h);
    hide Partition, Buffers, AllChained;
  }

  lemma FreedChains(
    free: seq<bool>, desc: seq<Desc>, ops: seq<Op>, info: seq<Info>, reqs: Requests, h: nat, desc': seq<Desc>,
    info': seq<Info>)
    requires AllChained(desc, ops, info, reqs) && Partition(free, reqs) && h in reqs && h < NUM
    requires |desc'| == |desc| == |info| == NUM && info' == info[h := info[h].(b := NOBUF)]
    requires forall i :: 0 <= i < NUM && !Member(h, reqs[h], i) ==> desc'[i] == desc[i]
    ensures AllChained(desc', ops, info', reqs - {h})
  {
    forall g | g in reqs - {h} ensures Chained(desc', ops, info', g, reqs[g]) {
      assert Member(g, reqs[g], g) && Member(g, reqs[g], reqs[g].i1) && Member(g, reqs[g], reqs[g].i2);
    }
  }

  lemma FreedPartition(free: seq<bool>, reqs: Requests, h: nat, free': seq<bool>)
    requires Partition(free, reqs) && h in reqs && |free'| == NUM
    requires forall i :: 0 <= i < NUM ==> free'[i] == (free[i] || Member(h, reqs[h], i))
    ensures Partition(free', reqs - {h})
  {
    var reqs' := reqs - {h};
    forall i | 0 <= i < NUM && !free'[i] ensures exists g :: g in reqs' && Member(g, reqs'[g], i) {
      var g :| g in reqs && Member(g, reqs[g], i);
      assert g in reqs' && Member(g, reqs'[g], i);
    }
  }

  lemma FreedBuffers(reqs: Requests, busy: set<nat>, h: nat)
    requires Buffers(reqs, busy) && h in reqs && reqs[h].phase == Seen
    ensures Buffers(reqs - {h}, busy)
  {
    var reqs' := reqs - {h};
    forall b | b in busy ensures exists g :: g in reqs' && reqs'[g].b == b {
      var g :| g in reqs && reqs[g].b == b;
      assert g in reqs' && reqs'[g].b == b;
    }
  }

  /** The oldest entry of a ring. */
  lemma Oldest(ring: seq<nat>, history: seq<nat>, lo: nat, reqs: Requests, phase: Phase)
    requires InRing(ring, history, lo, |history|, reqs, phase)
    ensures |ring| == NUM && lo <= |history|
    ensures lo < |history| ==>
              ring[Slot(lo)] == history[lo] && history[lo] in reqs && reqs[history[lo]].phase == phase &&
              history[lo] < NUM
  {
  }

  lemma PublishRings(
    avail: seq<nat>, used: seq<nat>, published: seq<nat>, taken: nat, reported: seq<nat>, seen: nat, reqs: Requests,
    h: nat, r: Request)
    requires Rings(avail, used, published, taken, reported, seen, reqs) && h !in reqs && h < NUM && r.phase == Published
    ensures |avail| == NUM && Rings(avail[Slot(|published|) := h], used, published + [h], taken, reported, seen,
            reqs[h := r])
  {
    hide InRing, Slot;
    Oldest(avail, published, taken, reqs, Published);
    Enqueued(avail, published, taken, reqs, reqs[h := r], Published, h);
    Unconcerned(used, reported, seen, reqs, reqs[h := r], Reported);
  }

  lemma TakeRings(
    avail: seq<nat>, used: seq<nat>, published: seq<nat>, taken: nat, reported: seq<nat>, seen: nat, reqs: Requests)
    requires Rings(avail, used, published, taken, reported, seen, reqs) && taken < |published|
    ensures |avail| == NUM && avail[Slot(taken)] == published[taken]
    ensures var h := published[taken]; h in reqs && reqs[h].phase == Published
                                       && Rings(avail, used, published, taken + 1, reported, seen,
                                            reqs[h := reqs[h].(phase := Taken)])
  {
    hide InRing, Slot;
    Oldest(avail, published, taken, reqs, Published);
    var h := published[taken];
    var reqs' := reqs[h := reqs[h].(phase := Taken)];
    Dequeued(avail, published, taken, reqs, reqs', Published);
    Unconcerned(used, reported, seen, reqs, reqs', Reported);
  }

  lemma ReportRings(
    avail: seq<nat>, used: seq<nat>, published: seq<nat>, taken: nat, reported: seq<nat>, seen: nat, reqs: Requests,
    h: nat, r: Request)
    requires Rings(avail, used, published, taken, reported, seen, reqs)
    requires h in reqs && reqs[h].phase == Taken && h < NUM && r.phase == Reported
    ensures |used| == NUM
    ensures Rings(avail, used[Slot(|reported|) := h], published, taken, reported + [h], seen, reqs[h := r])
  {
    hide InRing, Slot;
    Oldest(used, reported, seen, reqs, Reported);
    var reqs' := reqs[h := r];
    Enqueued(used, reported, seen, reqs, reqs', Reported, h);
    Unconcerned(avail, published, taken, reqs, reqs', Published);
  }

  lemma SeeRings(
    avail: seq<nat>, used: seq<nat>, published: seq<nat>, taken: nat, reported: seq<nat>, seen: nat, reqs: Requests)
    requires Rings(avail, used, published, taken, reported, seen, reqs)
    ensures seen <= |reported| && (Short(seen) == Short(|reported|) <==> seen == |reported|)
    ensures seen < |reported| ==> |used| == NUM && used[Slot(seen)] == reported[seen]
    ensures seen < |reported| ==> var h := reported[seen]; h in reqs && reqs[h].phase == Reported
                                                           && Rings(avail, used, published, taken, reported, seen + 1,
                                                                reqs[h := reqs[h].(phase := Seen)])
  {
    hide InRing, Slot, Short;
    RingRoom(used, reported, seen, |reported|, reqs, Reported);
    Oldest(used, reported, seen, reqs, Reported);
    Wraps(seen, |reported|);
    if seen < |reported| {
      var h := reported[seen];
      var reqs' := reqs[h := reqs[h].(phase := Seen)];
      Dequeued(used, reported, seen, reqs, reqs', Reported);
      Unconcerned(avail, published, taken, reqs, reqs', Published);
    }
  }

  lemma FreeRings(
    avail: seq<nat>, used: seq<nat>, published: seq<nat>, taken: nat, reported: seq<nat>, seen: nat, reqs: Requests,
    h: nat)
    requires Rings(avail, used, published, taken, reported, seen, reqs) && h in reqs && reqs[h].phase == Seen
    ensures Rings(avail, used, published, taken, reported, seen, reqs - {h})
  {
    hide InRing;
    Unconcerned(avail, published, taken, reqs, reqs - {h}, Published);
    Unconcerned(used, reported, seen, reqs, reqs - {h}, Reported);
  }

  class Disk {
    var free: seq<bool>
    var desc: seq<Desc>
    var ops: seq<Op>
    var info: seq<Info>
    var avail: seq<nat>
    var availIdx: nat
    var used: seq<nat>
    var usedIdx: nat
    var lookedAt: nat
    /** How far the device has read the avail ring. */
    var deviceIdx: nat
    /** Buffers b with b->disk == 1; their contents; and the medium. */
    var busy: set<nat>
    var data: map<nat, Block>
    var medium: map<nat, Block>
    ghost var reqs: Requests
    ghost var published: seq<nat>
    ghost var taken: nat
    ghost var reported: seq<nat>
    ghost var seen: nat

    ghost predicate Valid()
      reads this
    {
      && AllChained(desc, ops, info, reqs) && |desc| == |ops| == |info| == NUM
      && Partition(free, reqs) && Zeroed(free, desc)
      && Buffers(reqs, busy) && Delivered(reqs, data)
      && Rings(avail, used, published, taken, reported, seen, reqs)
      && availIdx == Short(|published|) && usedIdx == Short(|reported|) && lookedAt == Short(seen) &&
           deviceIdx == Short(taken)
    }

    /** After virtio_disk_init, with any disk: every descriptor is free and the rings are empty. */
    constructor (disk: map<nat, Block>)
      ensures Valid() && reqs == map[] && published == [] && reported == [] && busy == {}
      ensures medium == disk && data == map[]
    {
      free, desc := seq(NUM, _ => true), seq(NUM, _ => ZERO);
      ops, info := seq(NUM, _ => Op(false, 0)), seq(NUM, _ => Info(NOBUF, 0));
      avail, used := seq(NUM, _ => 0), seq(NUM, _ => 0);
      availIdx, usedIdx, lookedAt, deviceIdx := 0, 0, 0, 0;
      busy, data, medium := {}, map[], disk;
      reqs, published, taken, reported, seen := map[], [], 0, [], 0;
    }

    /** The caller changes a buffer whose lock it holds; it has no request in flight. */
    method Modify(b: nat, block: Block)
      requires Valid() && forall h :: h in reqs ==> reqs[h].b != b
      modifies this`data
      ensures Valid() && data == old(data)[b := block]
    {
      hide AllChained, Partition, Buffers, Rings, Zeroed;
      data := data[b := block];
    }

    /** alloc_desc: the first free descriptor, or -1 if there is none. */
    method AllocDesc() returns (i: int)
      requires |free| == NUM
      modifies this`free
      ensures if i == -1 then free == old(free) && forall k :: 0 <= k < NUM ==> !free[k]
              else 0 <= i < NUM && old(free)[i] && free == old(free)[i := false] && forall k ::
                  0 <= k < i ==> !old(free)[k]
    {
      var k := 0;
      while k < NUM
        invariant 0 <= k <= NUM && free == old(free) && forall j :: 0 <= j < k ==> !free[j]
      {
        if free[k] {
          free := free[k := false];
          return k;
        }
        k := k + 1;
      }
      return -1;
    }

    /** free_desc: ok is false where it panics. */
    method FreeDesc(i: int) returns (ok: bool)
      requires |free| == |desc| == NUM && i >= 0
      modifies this`free, this`desc
      ensures ok <==> i < NUM && !old(free)[i]
      ensures if ok then free == old(free)[i := true] && desc == old(desc)[i := ZERO]
              else free == old(free) && desc == old(desc)
    {
      if i >= NUM { return false; }
      if free[i] { return false; }
      desc := desc[i := ZERO];
      free := free[i := true];
      return true;
    }

    /** alloc3_desc: three descriptors, or none when fewer than three are free; whatever it had taken is back. */
    method Alloc3Desc() returns (ok: bool, idx: seq<nat>)
      requires |free| == |desc| == NUM && (forall k :: 0 <= k < NUM && free[k] ==> desc[k] == ZERO)
      modifies this`free, this`desc
      ensures desc == old(desc) && |free| == NUM
      ensures ok ==>
                |idx| == 3 && idx[0] != idx[1] && idx[0] != idx[2] && idx[1] != idx[2] && forall j ::
                  0 <= j < 3 ==> idx[j] < NUM && old(free)[idx[j]]
      ensures ok ==> forall k :: 0 <= k < NUM ==> free[k] == (old(free)[k] && k !in idx)
      ensures !ok ==> free == old(free) && forall i, j, k :: 0 <= i < j < k < NUM ==> !(free[i] && free[j] && free[k])
    {
      idx := [];
      var i := 0;
      while i < 3
        invariant 0 <= i <= 3 && |idx| == i && desc == old(desc) && |free| == NUM
        invariant forall j :: 0 <= j < i ==> idx[j] < NUM && old(free)[idx[j]]
        invariant forall j, k :: 0 <= j < k < i ==> idx[j] != idx[k]
        invariant forall k :: 0 <= k < NUM ==> free[k] == (old(free)[k] && k !in idx)
      {
        var x := AllocDesc();
        if x == -1 {
          GiveBack(old(free), idx);
          return false, [];
        }
        idx := idx + [x];
        i := i + 1;
      }
      return true, idx;
    }

    /** The roll-back in alloc3_desc: its panics are unreachable. */
    method GiveBack(ghost free0: seq<bool>, idx: seq<nat>)
      requires |free0| == |free| == |desc| == NUM && |idx| < 3 &&
               (forall k :: 0 <= k < NUM && free0[k] ==> desc[k] == ZERO)
      requires (forall j :: 0 <= j < |idx| ==> idx[j] < NUM && free0[idx[j]]) &&
               (forall j, k :: 0 <= j < k < |idx| ==> idx[j] != idx[k])
      requires forall k :: 0 <= k < NUM ==> free[k] == (free0[k] && k !in idx)
      requires forall k :: 0 <= k < NUM ==> !free[k]
      modifies this`free, this`desc
      ensures free == free0 && desc == old(desc)
      ensures forall i, j, k :: 0 <= i < j < k < NUM ==> !(free[i] && free[j] && free[k])
    {
      var j := 0;
      while j < |idx|
        invariant 0 <= j <= |idx| && desc == old(desc) && |free| == NUM
        invariant forall k :: 0 <= k < NUM ==> free[k] == (free0[k] && k !in idx[j..])
      {
        assert idx[j] in idx[j..];
        var ok := FreeDesc(idx[j]);
        assert ok;
        assert idx[j..] == [idx[j]] + idx[j + 1..];
        j := j + 1;
      }
      forall i, j, k | 0 <= i < j < k < NUM ensures !(free0[i] && free0[j] && free0[k]) {
        Three(idx, i, j, k);
      }
    }

    /** virtio_disk_rw up to its wait: publishes a request for b, or sleeps until a descriptor is freed and
        starts over. */
    method Submit(b: nat, write: bool, blockno: nat) returns (ok: bool, head: nat, ghost r: Request)
      requires Valid() && b != NOBUF && forall h :: h in reqs ==> reqs[h].b != b
      modifies this`free, this`desc, this`ops, this`info, this`avail, this`availIdx, this`busy, this`reqs,
               this`published
      ensures Valid()
      ensures ok ==> r == Request(b, Op(write, blockno * 2), r.i1, r.i2, Published, PENDING, Blank())
      ensures ok ==>
                head !in old(reqs) && reqs == old(reqs)[head := r] && b in busy && published == old(published) + [head]
      ensures !ok ==>
                reqs == old(reqs) && free == old(free) && desc == old(desc) && busy == old(busy) &&
                published == old(published)
      ensures !ok ==> forall i, j, k :: 0 <= i < j < k < NUM ==> !(free[i] && free[j] && free[k])
    {
      hide AllChained, Partition, Buffers, Rings, Slot, Short, Delivered, Contents, Chained;
      r := Request(b, Op(write, blockno * 2), 0, 0, Published, PENDING, Blank());
      PartitionSize(free, reqs);
      ghost var free0, desc0, ops0, info0 := free, desc, ops, info;
      var idx;
      ok, idx := Alloc3Desc();
      if !ok { return false, 0, r; }
      head := idx[0];
      Format(b, write, blockno * 2, idx);
      r := Request(b, Op(write, blockno * 2), idx[1], idx[2], Published, PENDING, Blank());
      NewRequest(free0, desc0, ops0, info0, reqs, free, desc, ops, info, head, r);
      Publish(head, r);
    }

    /** b is marked, and its request enters the avail ring. */
    method Publish(head: nat, ghost r: Request)
      requires AllChained(desc, ops, info, reqs[head := r]) && |desc| == |ops| == |info| == NUM &&
               Partition(free, reqs[head := r]) && Zeroed(free, desc)
      requires Buffers(reqs, busy) && Delivered(reqs, data) &&
               Rings(avail, used, published, taken, reported, seen, reqs)
      requires availIdx == Short(|published|) && usedIdx == Short(|reported|) && lookedAt == Short(seen) &&
               deviceIdx == Short(taken)
      requires head !in reqs && head < NUM && r.phase == Published && info[head].b == r.b
      requires forall h :: h in reqs ==> reqs[h].b != r.b
      modifies this`avail, this`availIdx, this`busy, this`reqs, this`published
      ensures Valid() && reqs == old(reqs)[head := r] && busy == old(busy) + {r.b}
      ensures published == old(published) + [head]
    {
      hide AllChained, Partition, Buffers, Rings, Slot, Short, Zeroed, Contents;
      NewBuffers(reqs, busy, head, r);
      IndexOf(|published|);
      PublishRings(avail, used, published, taken, reported, seen, reqs, head, r);
      busy := busy + {info[head].b};
      avail, availIdx := avail[Slot(availIdx) := head], Short(availIdx + 1);
      published, reqs := published + [head], reqs[head := r];
    }

    /** Formats the three descriptors of a request for b. */
    method Format(b: nat, write: bool, sector: nat, idx: seq<nat>)
      requires |desc| == |ops| == |info| == NUM && |idx| == 3 && idx[0] < NUM && idx[1] < NUM && idx[2] < NUM &&
               b != NOBUF
      requires idx[0] != idx[1] && idx[0] != idx[2] && idx[1] != idx[2]
      modifies this`desc, this`ops, this`info
      ensures |desc| == |ops| == |info| == NUM && Chained(desc, ops, info, idx[0],
              Request(b, Op(write, sector), idx[1], idx[2], Published, PENDING, Blank()))
      ensures forall i :: 0 <= i < NUM && i != idx[0] && i != idx[1] && i != idx[2] ==> desc[i] == old(desc)[i]
      ensures forall i :: 0 <= i < NUM && i != idx[0] ==> ops[i] == old(ops)[i] && info[i] == old(info)[i]
    {
      var head := idx[0];
      ops := ops[head := Op(write, sector)];
      desc := desc[idx[0] := Desc(Header(head), 16, NEXT, idx[1])];
      desc := desc[idx[1] := Desc(Data(b), 1024, if write then NEXT else WRITE + NEXT, idx[2])];
      desc := desc[idx[2] := Desc(Status(head), 1, WRITE, 0)];
      info := info[head := Info(b, PENDING)];
    }

    /** The device takes the next published request. */
    method DeviceTake() returns (h: nat)
      requires Valid() && taken < |published|
      modifies this`reqs, this`taken, this`deviceIdx
      ensures Valid() && h == published[old(taken)] && taken == old(taken) + 1
      ensures h in old(reqs) && old(reqs)[h].phase == Published && reqs == old(reqs)[h := old(reqs)[h].(phase := Taken)]
    {
      hide AllChained, Partition, Buffers, Chained, Rings, Slot, Short;
      IndexOf(taken);
      TakeRings(avail, used, published, taken, reported, seen, reqs);
      h := avail[Slot(deviceIdx)];
      deviceIdx := Short(deviceIdx + 1);
      ghost var reqs0 := reqs;
      TakeKeeps(free, desc, ops, info, busy, data, reqs0, h);
      reqs := reqs0[h := reqs0[h].(phase := Taken)];
      taken := taken + 1;
    }

    /** The device follows a chain of descriptors, does what they say and writes a status.  When it fails,
        status is not 0 and any block may be where the data should have gone. */
    method Transfer(h: nat, status: nat, junk: Block, ghost r: Request) returns (moved: Block)
      requires |info| == NUM && Chained(desc, ops, info, h, r)
      modifies this`info, this`data, this`medium
      ensures info == old(info)[h := old(info)[h].(status := status)]
      ensures moved == if status != 0 then junk
                       else if r.op.write then Contents(old(data), r.b) else Contents(old(medium), r.op.sector)
      ensures if r.op.write then data == old(data) && medium == old(medium)[r.op.sector := moved]
              else medium == old(medium) && data == old(data)[r.b := moved]
    {
      var d0 := desc[h];
      var d1 := desc[d0.next];
      var d2 := desc[d1.next];
      var op := ops[d0.addr.i];
      if op.write {
        moved := if status == 0 then Copied(Contents(data, d1.addr.b), Contents(medium, op.sector), d1.len) else junk;
        medium := medium[op.sector := moved];
      } else {
        moved := if status == 0 then Copied(Contents(medium, op.sector), Contents(data, d1.addr.b), d1.len) else junk;
        data := data[d1.addr.b := moved];
      }
      info := info[d2.addr.i := info[d2.addr.i].(status := status)];
    }

    /** The device carries out a request it has taken, or fails to, and reports it. */
    method DeviceComplete(h: nat, status: nat, junk: Block) returns (moved: Block)
      requires Valid() && h in reqs && reqs[h].phase == Taken
      modifies this`info, this`used, this`usedIdx, this`data, this`medium, this`reqs, this`reported
      ensures Valid() && reported == old(reported) + [h]
      ensures reqs == old(reqs)[h := old(reqs)[h].(phase := Reported, status := status, moved := moved)]
      ensures var r := old(reqs)[h];
              moved == if status != 0 then junk
                       else if r.op.write then Contents(old(data), r.b) else Contents(old(medium), r.op.sector)
      ensures var r := old(reqs)[h];
              if r.op.write then data == old(data) && medium == old(medium)[r.op.sector := moved]
              else medium == old(medium) && data == old(data)[r.b := moved]
    {
      hide AllChained, Partition, Buffers, Rings, Slot, Short, Chained, Zeroed, Contents, Delivered;
      ghost var reqs0, info0 := reqs, info;
      ChainOf(desc, ops, info, reqs, h);
      moved := Transfer(h, status, junk, reqs[h]);
      ghost var r := reqs[h].(phase := Reported, status := status, moved := moved);
      ReportKeeps(free, desc, ops, info0, busy, reqs0, h, r);
      ReportDelivers(reqs0, busy, old(data), h, r);
      Report(h, r);
    }

    /** The device adds an entry to the used ring. */
    method Report(h: nat, ghost r: Request)
      requires h in reqs && reqs[h].phase == Taken && h < NUM && |desc| == |ops| == |info| == NUM && Zeroed(free, desc)
      requires r.phase == Reported && AllChained(desc, ops, info, reqs[h := r]) && Partition(free, reqs[h := r])
      requires Buffers(reqs[h := r], busy) && Delivered(reqs[h := r], data)
      requires Rings(avail, used, published, taken, reported, seen, reqs)
      requires availIdx == Short(|published|) && usedIdx == Short(|reported|) && lookedAt == Short(seen) &&
               deviceIdx == Short(taken)
      modifies this`used, this`usedIdx, this`reqs, this`reported
      ensures Valid() && reqs == old(reqs)[h := r] && reported == old(reported) + [h]
    {
      hide AllChained, Partition, Buffers, Rings, Slot, Short, Zeroed, Delivered;
      IndexOf(|reported|);
      ReportRings(avail, used, published, taken, reported, seen, reqs, h, r);
      used, usedIdx := used[Slot(usedIdx) := h], Short(usedIdx + 1);
      reported, reqs := reported + [h], reqs[h := r];
    }

    /** One turn of virtio_disk_intr's loop: the oldest report releases the buffer of its own request, or the
        kernel panics because the device has failed it. */
    method IntrOne() returns (more: bool, panic: bool)
      requires Valid()
      modifies this`busy, this`lookedAt, this`reqs, this`seen
      ensures Valid() && (more <==> old(seen) < |reported|)
      ensures panic <==> more && reported[old(seen)] in old(reqs) && old(reqs)[reported[old(seen)]].status != 0
      ensures !more || panic ==> busy == old(busy) && reqs == old(reqs) && seen == old(seen)
      ensures more ==> reported[old(seen)] in old(reqs) && old(reqs)[reported[old(seen)]].phase == Reported
      ensures more && !panic ==>
                var h := reported[old(seen)];
                && seen == old(seen) + 1 && reqs == old(reqs)[h := old(reqs)[h].(phase := Seen)]
                && busy == old(busy) - {old(reqs)[h].b}
    {
      hide AllChained, Partition, Buffers, Chained, Rings, Slot, Short, Delivered;
      IndexOf(seen);
      SeeRings(avail, used, published, taken, reported, seen, reqs);
      if lookedAt == usedIdx { return false, false; }
      var id := used[Slot(lookedAt)];
      ghost var reqs0 := reqs;
      ReportedChain(desc, ops, info, reqs, id);
      if info[id].status != 0 { return true, true; }
      var b := info[id].b;
      busy := busy - {b};
      SeenKeeps(free, desc, ops, info, old(busy), data, reqs0, id);
      lookedAt := Short(lookedAt + 1);
      seen := seen + 1;
      reqs := reqs0[id := reqs0[id].(phase := Seen)];
      return true, false;
    }

    /** virtio_disk_rw after its wait: the request has succeeded, a read has its block in the buffer, and the
        chain is freed; ok is false where free_desc would panic. */
    method Finish(b: nat, head: nat) returns (ok: bool)
      requires Valid() && head in reqs && reqs[head].b == b && b !in busy
      modifies this`info, this`free, this`desc, this`reqs
      ensures Valid() && ok && reqs == old(reqs) - {head}
      ensures old(reqs)[head].status == 0 && (!old(reqs)[head].op.write ==> Contents(data, b) == old(reqs)[head].moved)
    {
      hide AllChained, Partition, Buffers, Rings, Slot, Short, Contents;
      ghost var reqs0, info0, desc0, free0 := reqs, info, desc, free;
      ghost var r := reqs[head];
      ChainOf(desc, ops, info, reqs, head);
      PartitionSize(free, reqs);
      SeenPhase(reqs, busy, head);
      info := info[head := info[head].(b := NOBUF)];
      ChainTaken(free, reqs, head);
      ok := FreeChain(head, r.i1, r.i2);
      FreedKeeps(free0, desc0, ops, info0, busy, reqs0, head, free, desc, info);
      FreeRings(avail, used, published, taken, reported, seen, reqs0, head);
      reqs := reqs0 - {head};
    }

    /** free_chain, on a chain of three. */
    method FreeChain(h: nat, ghost i1: nat, ghost i2: nat) returns (ok: bool)
      requires |free| == |desc| == NUM && h < NUM && i1 < NUM && i2 < NUM && h != i1 && h != i2 && i1 != i2
      requires !free[h] && !free[i1] && !free[i2]
      requires desc[h].flags == NEXT && desc[h].next == i1 &&
               (desc[i1].flags == NEXT || desc[i1].flags == WRITE + NEXT) && desc[i1].next == i2 &&
               desc[i2].flags == WRITE
      modifies this`free, this`desc
      ensures ok && |free| == |desc| == NUM
      ensures forall i :: 0 <= i < NUM ==> free[i] == (old(free)[i] || i == h || i == i1 || i == i2)
      ensures forall i :: 0 <= i < NUM ==> desc[i] == if i == h || i == i1 || i == i2 then ZERO else old(desc)[i]
    {
      var i := h;
      ghost var left: nat := 2;
      ok := true;
      while true
        invariant ok && |free| == |desc| == NUM && left <= 2 &&
                  i == (if left == 2 then h else if left == 1 then i1 else i2)
        invariant forall k ::
                    0 <= k < NUM ==> free[k] == (old(free)[k] || (k == h && left < 2) || (k == i1 && left < 1))
        invariant forall k ::
                    0 <= k < NUM ==>
                      desc[k] == if (k == h && left < 2) || (k == i1 && left < 1) then ZERO else old(desc)[k]
        decreases left
      {
        var flag := desc[i].flags;
        var nxt := desc[i].next;
        ok := FreeDesc(i);
        if flag % 2 == 1 {
          i := nxt;
          left := left - 1;
        } else {
          break;
        }
      }
    }
  }

  /** virtio_disk_rw from call to return, on an idle disk whose device does what it is asked. */
  method Rw(d: Disk, b: nat, write: bool, blockno: nat)
    requires d.Valid() && d.reqs == map[] && b != NOBUF
    modifies d
    ensures d.Valid() && d.reqs == map[]
    ensures if write then d.data == old(d.data) && d.medium == old(d.medium)[blockno * 2 := Contents(old(d.data), b)]
            else d.medium == old(d.medium) && d.data == old(d.data)[b := Contents(old(d.medium), blockno * 2)]
  {
    hide AllChained, Buffers, Partition, Rings, Short, Zeroed, Delivered, Contents;
    Idle(d);
    var ok, head, r := d.Submit(b, write, blockno);
    Serve(d, head, r);
    NotBusy(d, head);
    ok := d.Finish(b, head);
  }

  /** The device takes, carries out and reports the only request, and the driver sees the report. */
  method Serve(d: Disk, ghost h: nat, ghost r: Request)
    requires d.Valid() && d.reqs == map[h := r] && r.phase == Published && d.seen == |d.reported|
    requires d.taken < |d.published| && d.published[d.taken] == h
    modifies d
    ensures d.Valid() && d.reqs.Keys == {h} && d.reqs[h].b == r.b && d.reqs[h].phase == Seen
    ensures if r.op.write then d.data == old(d.data) &&
                               d.medium == old(d.medium)[r.op.sector := Contents(old(d.data), r.b)]
            else d.medium == old(d.medium) && d.data == old(d.data)[r.b := Contents(old(d.medium), r.op.sector)]
  {
    hide AllChained, Buffers, Partition, Rings, Short, Zeroed, Delivered, Contents;
    var i := d.DeviceTake();
    var moved := d.DeviceComplete(i, 0, Blank());
    var more, panic := d.IntrOne();
  }

  lemma Idle(d: Disk)
    requires d.Valid() && d.reqs == map[]
    ensures d.taken == |d.published| && d.seen == |d.reported|
    ensures |d.free| == NUM && d.free[0] && d.free[1] && d.free[2]
  {
    Drained(d.avail, d.published, d.taken, d.reqs, Published);
    Drained(d.used, d.reported, d.seen, d.reqs, Reported);
  }

  lemma Drained(ring: seq<nat>, history: seq<nat>, lo: nat, reqs: Requests, phase: Phase)
    requires InRing(ring, history, lo, |history|, reqs, phase)
    ensures lo == |history| || exists h :: h in reqs
  {
    if lo < |history| {
      assert history[lo] in reqs;
    }
  }

  lemma NotBusy(d: Disk, h: nat)
    requires d.Valid() && h in d.reqs && d.reqs[h].phase == Seen
    ensures d.reqs[h].b !in d.busy
  {
  }

  /** What was written to a block is what is read from it, into another buffer as well. */
  method WriteThenRead(disk: map<nat, Block>, b: nat, c: nat, blockno: nat, block: Block) returns (d: Disk)
    requires b != NOBUF && c != NOBUF
    ensures d.Valid() && d.reqs == map[] && Contents(d.data, c) == block
    ensures d.medium == disk[blockno * 2 := block]
  {
    d := new Disk(disk);
    d.Modify(b, block);
    Rw(d, b, true, blockno);
    Rw(d, c, false, blockno);
  }

  lemma Three(idx: seq<nat>, i: nat, j: nat, k: nat)
    requires |idx| < 3 && i < j < k
    ensures !(i in idx && j in idx && k in idx)
  {
  }

  // ---- a new request

  lemma NewChained(
    desc: seq<Desc>, ops: seq<Op>, info: seq<Info>, reqs: Requests, desc': seq<Desc>, ops': seq<Op>, info': seq<Info>,
    free: seq<bool>, h: nat, r: Request)
    requires AllChained(desc, ops, info, reqs) && Partition(free, reqs) && |desc| == |ops| == |info| == NUM &&
             |desc'| == |ops'| == |info'| == NUM
    requires h < NUM && r.i1 < NUM && r.i2 < NUM && free[h] && free[r.i1] && free[r.i2]
    requires forall i :: 0 <= i < NUM && !Member(h, r, i) ==> desc'[i] == desc[i]
    requires forall i :: 0 <= i < NUM && i != h ==> ops'[i] == ops[i] && info'[i] == info[i]
    requires Chained(desc', ops', info', h, r)
    ensures h !in reqs && AllChained(desc', ops', info', reqs[h := r])
  {
  }

  lemma NewRequest(
    free: seq<bool>, desc: seq<Desc>, ops: seq<Op>, info: seq<Info>, reqs: Requests,
    free': seq<bool>, desc': seq<Desc>, ops': seq<Op>, info': seq<Info>, h: nat, r: Request)
    requires AllChained(desc, ops, info, reqs) && Partition(free, reqs) && Zeroed(free, desc)
    requires |desc| == |ops| == |info| == NUM && |free| == |free'| == |desc'| == |ops'| == |info'| == NUM
    requires h < NUM && r.i1 < NUM && r.i2 < NUM && free[h] && free[r.i1] && free[r.i2]
    requires forall i :: 0 <= i < NUM ==> free'[i] == (free[i] && !Member(h, r, i))
    requires forall i :: 0 <= i < NUM && !Member(h, r, i) ==> desc'[i] == desc[i]
    requires forall i :: 0 <= i < NUM && i != h ==> ops'[i] == ops[i] && info'[i] == info[i]
    requires Chained(desc', ops', info', h, r)
    ensures h !in reqs && AllChained(desc', ops', info', reqs[h := r])
    ensures Partition(free', reqs[h := r]) && Zeroed(free', desc') && info'[h].b == r.b
  {
    hide AllChained, Partition, Zeroed, Chained;
    NewZeroed(free, desc, free', desc', h, r);
    NewChained(desc, ops, info, reqs, desc', ops', info', free, h, r);
    ChainOf(desc', ops', info', reqs[h := r], h);
    NewPartition(free, reqs, free', h, r);
  }

  lemma NewZeroed(free: seq<bool>, desc: seq<Desc>, free': seq<bool>, desc': seq<Desc>, h: nat, r: Request)
    requires |free| == |desc| == |free'| == |desc'| == NUM && Zeroed(free, desc)
    requires forall i :: 0 <= i < NUM ==> free'[i] == (free[i] && !Member(h, r, i))
    requires forall i :: 0 <= i < NUM && !Member(h, r, i) ==> desc'[i] == desc[i]
    ensures Zeroed(free', desc')
  {
  }

  lemma NewPartition(free: seq<bool>, reqs: Requests, free': seq<bool>, h: nat, r: Request)
    requires Partition(free, reqs) && |free'| == NUM && h < NUM && r.i1 < NUM && r.i2 < NUM && free[h] && free[r.i1] &&
             free[r.i2] && h !in reqs
    requires forall i :: 0 <= i < NUM ==> free'[i] == (free[i] && !Member(h, r, i))
    ensures Partition(free', reqs[h := r])
  {
    var reqs' := reqs[h := r];
    forall i | 0 <= i < NUM && !free'[i] ensures exists g :: g in reqs' && Member(g, reqs'[g], i) {
      if Member(h, r, i) {
        assert h in reqs' && Member(h, reqs'[h], i);
      } else {
        var g :| g in reqs && Member(g, reqs[g], i);
        assert g in reqs' && Member(g, reqs'[g], i);
      }
    }
  }

  lemma NewBuffers(reqs: Requests, busy: set<nat>, h: nat, r: Request)
    requires Buffers(reqs, busy) && h !in reqs && (forall g :: g in reqs ==> reqs[g].b != r.b) && r.phase == Published
    ensures Buffers(reqs[h := r], busy + {r.b})
  {
    var reqs' := reqs[h := r];
    assert h in reqs' && reqs'[h].b == r.b;
    forall b | b in busy ensures exists g :: g in reqs' && reqs'[g].b == b {
      var g :| g in reqs && reqs[g].b == b;
      assert g in reqs' && reqs'[g].b == b;
    }
  }

  /** An entry is added to the ring of its phase. */
  lemma Enqueued(ring: seq<nat>, history: seq<nat>, lo: nat, reqs: Requests, reqs': Requests, phase: Phase, h: nat)
    requires InRing(ring, history, lo, |history|, reqs, phase) && h < NUM && !(h in reqs && reqs[h].phase == phase)
    requires h in reqs' && reqs'[h].phase == phase
    requires forall g :: g != h ==> (g in reqs' <==> g in reqs) && (g in reqs ==> reqs'[g].phase == reqs[g].phase)
    ensures InRing(ring[Slot(|history|) := h], history + [h], lo, |history| + 1, reqs', phase)
  {
    hide Slot;
    RingRoom(ring, history, lo, |history|, reqs, phase);
    var n := |history|;
    var ring', history' := ring[Slot(n) := h], history + [h];
    forall k | lo <= k < n ensures Slot(k) != Slot(n) {
      Slots(k, n);
    }
    forall g | g in reqs' && reqs'[g].phase == phase ensures exists k :: lo <= k < n + 1 && history'[k] == g {
      if g == h {
        assert history'[n] == h;
      } else {
        var k :| lo <= k < n && history[k] == g;
        assert history'[k] == g;
      }
    }
  }

  /** A ring is not concerned with requests of other phases. */
  lemma Unconcerned(ring: seq<nat>, history: seq<nat>, lo: nat, reqs: Requests, reqs': Requests, phase: Phase)
    requires InRing(ring, history, lo, |history|, reqs, phase)
    requires forall g :: (g in reqs' && reqs'[g].phase == phase) <==> (g in reqs && reqs[g].phase == phase)
    ensures InRing(ring, history, lo, |history|, reqs', phase)
  {
  }

  /** The oldest entry leaves. */
  lemma Dequeued(ring: seq<nat>, history: seq<nat>, lo: nat, reqs: Requests, reqs': Requests, phase: Phase)
    requires InRing(ring, history, lo, |history|, reqs, phase) && lo < |history|
    requires forall g :: (g in reqs' && reqs'[g].phase == phase) <==>
               (g in reqs && reqs[g].phase == phase && g != history[lo])
    ensures InRing(ring, history, lo + 1, |history|, reqs', phase)
  {
  }
}
