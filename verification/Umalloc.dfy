/**
  * The user-space allocator (user/umalloc.c): a circular free list of blocks in address order,
  * linked through the blocks' own headers.  Addresses count header-sized units.
  */
module Umalloc {
  datatype Header = Header(ptr: nat, size: nat)
  type Mem = map<nat, Header>

  /** The element after position i of the ring. */
  function Succ(list: seq<nat>, i: nat): nat
    requires i < |list|
  {
    if i + 1 < |list| then list[i + 1] else list[0]
  }

  predicate Links(mem: Mem, list: seq<nat>) {
    forall i :: 0 <= i < |list| ==> list[i] in mem && mem[list[i]].ptr == Succ(list, i)
  }

  /** In address order, starting at base, and without overlap. */
  predicate Order(mem: Mem, base: nat, list: seq<nat>) {
    && |list| > 0 && list[0] == base && base in mem && mem[base].size == 0
    && (forall i :: 0 <= i < |list| ==> list[i] in mem)
    && (forall i :: 0 < i < |list| ==> mem[list[i]].size > 0)
    && (forall i, j :: 0 <= i < j < |list| ==> list[i] < list[j] && list[i] + mem[list[i]].size <= list[j])
  }

  /** list is the ring that starts at base. */
  predicate Chain(mem: Mem, base: nat, list: seq<nat>) {
    Order(mem, base, list) && Links(mem, list)
  }

  /** The block at position i does not touch the next one. */
  predicate Apart(mem: Mem, list: seq<nat>, i: nat)
    requires forall j :: 0 <= j < |list| ==> list[j] in mem
  {
    i + 1 < |list| ==> list[i] + mem[list[i]].size < list[i + 1]
  }

  /** The free list: a chain in which every two neighbours have been coalesced. */
  predicate Ring(mem: Mem, base: nat, list: seq<nat>) {
    Chain(mem, base, list) && forall i :: 0 <= i < |list| ==> Apart(mem, list, i)
  }

  predicate Heads(mem: Mem, list: seq<nat>, live: map<nat, nat>) {
    && (forall b :: b in live ==> b in mem && mem[b].size == live[b] > 0 && b !in list)
    && (forall b :: b in list ==> b in mem)
  }

  predicate Inside(mem: Mem, list: seq<nat>, live: map<nat, nat>, cover: map<nat, nat>) {
    forall u ::
        u in cover ==> IsBlock(list, live, cover[u]) && cover[u] in mem && cover[u] <= u < cover[u] + mem[cover[u]].size
  }

  ghost predicate Fills(mem: Mem, list: seq<nat>, live: map<nat, nat>, cover: map<nat, nat>) {
    forall b: nat, u: nat ::
        IsBlock(list, live, b) && b in mem && b <= u < b + mem[b].size ==> u in cover && cover[u] == b
  }

  /** Each unit obtained from the system lies in the one block that cover names, a free or a live one. */
  ghost predicate Covers(mem: Mem, list: seq<nat>, live: map<nat, nat>, cover: map<nat, nat>) {
    Heads(mem, list, live) && Inside(mem, list, live, cover) && Fills(mem, list, live, cover)
  }

  predicate IsBlock(list: seq<nat>, live: map<nat, nat>, b: nat) {
    b in live || b in list
  }

  // ---- insertion and coalescing

  function Inserted(mem: Mem, list: seq<nat>, j: nat, bp: nat): Mem
    requires j < |list| && list[j] in mem && bp in mem
  {
    mem[bp := mem[bp].(ptr := Succ(list, j))][list[j] := mem[list[j]].(ptr := bp)]
  }

  function InsertedList(list: seq<nat>, j: nat, bp: nat): (r: seq<nat>)
    requires j < |list|
    ensures |r| == |list| + 1
    ensures forall i :: 0 <= i < |r| ==> r[i] == if i <= j then list[i] else if i == j + 1 then bp else list[i - 1]
  {
    list[..j + 1] + [bp] + list[j + 1..]
  }

  /** A live block does not overlap the free ones on either side of it. */
  lemma Beside(mem: Mem, base: nat, list: seq<nat>, live: map<nat, nat>, cover: map<nat, nat>, bp: nat, i: nat)
    requires Order(mem, base, list) && Covers(mem, list, live, cover) && bp in live && i < |list|
    ensures bp != list[i] && bp in mem
    ensures list[i] < bp ==> list[i] + mem[list[i]].size <= bp
    ensures bp < list[i] ==> bp + mem[bp].size <= list[i] || mem[list[i]].size == 0
  {
    hide Order;
    Disjoint(mem, list, live, cover, bp, list[i]);
  }

  lemma Disjoint(mem: Mem, list: seq<nat>, live: map<nat, nat>, cover: map<nat, nat>, x: nat, b: nat)
    requires Covers(mem, list, live, cover) && x in live && b in list
    ensures b != x && x in mem && b in mem
    ensures b < x ==> b + mem[b].size <= x
    ensures x < b ==> x + mem[x].size <= b || mem[b].size == 0
  {
    assert IsBlock(list, live, b) && IsBlock(list, live, x);
    assert x in cover && cover[x] == x;
    assert mem[b].size > 0 ==> b in cover && cover[b] == b;
  }

  /** The blocks on both sides of bp. */
  predicate Between(mem: Mem, list: seq<nat>, j: nat, bp: nat, size: nat)
    requires forall i :: 0 <= i < |list| ==> list[i] in mem
  {
    forall i ::
        0 <= i < |list| ==>
          if i <= j then list[i] < bp && list[i] + mem[list[i]].size <= bp else bp < list[i] && bp + size <= list[i]
  }

  lemma IsBetween(mem: Mem, base: nat, list: seq<nat>, live: map<nat, nat>, cover: map<nat, nat>, j: nat, bp: nat)
    requires Order(mem, base, list) && Covers(mem, list, live, cover) && bp in live && bp in mem
    requires j < |list| && list[j] < bp && (j + 1 < |list| ==> bp < list[j + 1])
    ensures Between(mem, list, j, bp, mem[bp].size)
  {
    hide Covers;
    forall i | 0 <= i < |list|
      ensures if i <= j then list[i] < bp && list[i] + mem[list[i]].size <= bp
              else bp < list[i] && bp + mem[bp].size <= list[i]
    {
      Beside(mem, base, list, live, cover, bp, i);
    }
  }

  lemma InsertOrder(mem: Mem, base: nat, list: seq<nat>, j: nat, bp: nat)
    requires Order(mem, base, list) && bp in mem && mem[bp].size > 0 && j < |list| &&
             Between(mem, list, j, bp, mem[bp].size)
    ensures Order(Inserted(mem, list, j, bp), base, InsertedList(list, j, bp))
  {
    hide Succ;
    var list' := InsertedList(list, j, bp);
    var mem' := Inserted(mem, list, j, bp);
    assert forall b :: b in mem ==> b in mem' && mem'[b].size == mem[b].size;
    forall i, k | 0 <= i < k < |list'| ensures list'[i] in mem && list'[k] in mem && list'[i] < list'[k] &&
      list'[i] + mem[list'[i]].size <= list'[k] {
      assert list'[i] == if i <= j then list[i] else if i == j + 1 then bp else list[i - 1];
      assert list'[k] == if k <= j then list[k] else if k == j + 1 then bp else list[k - 1];
    }
  }

  lemma InsertLinks(mem: Mem, list: seq<nat>, j: nat, bp: nat)
    requires Links(mem, list) && j < |list| && bp in mem && bp !in list &&
             (forall i, k :: 0 <= i < k < |list| ==> list[i] != list[k])
    ensures Links(Inserted(mem, list, j, bp), InsertedList(list, j, bp))
  {

    var list' := InsertedList(list, j, bp);
    var mem' := Inserted(mem, list, j, bp);
    forall i | 0 <= i < |list'| ensures list'[i] in mem' && mem'[list'[i]].ptr == Succ(list', i) {
      assert list'[i] == if i <= j then list[i] else if i == j + 1 then bp else list[i - 1];
    }
  }

  lemma LiveSize(mem: Mem, list: seq<nat>, live: map<nat, nat>, cover: map<nat, nat>, bp: nat)
    requires Covers(mem, list, live, cover) && bp in live
    ensures bp in mem && mem[bp].size == live[bp] > 0 && bp !in list
  {
  }

  lemma InsertedIn(list: seq<nat>, j: nat, bp: nat)
    requires j < |list|
    ensures forall b :: b in InsertedList(list, j, bp) <==> b in list || b == bp
  {
  }

  /** Insertion writes only links: bp has become a free block. */
  lemma Relisted(
    mem: Mem, list: seq<nat>, live: map<nat, nat>, cover: map<nat, nat>, mem': Mem, list': seq<nat>, bp: nat)
    requires Covers(mem, list, live, cover) && bp in live
    requires mem'.Keys == mem.Keys && (forall b :: b in mem ==> mem'[b].size == mem[b].size)
    requires forall b :: b in list' <==> b in list || b == bp
    ensures Covers(mem', list', live - {bp}, cover)
  {
    assert forall b :: IsBlock(list', live - {bp}, b) <==> IsBlock(list, live, b);
  }

  lemma InsertCovers(mem: Mem, list: seq<nat>, live: map<nat, nat>, cover: map<nat, nat>, j: nat, bp: nat)
    requires Covers(mem, list, live, cover) && bp in live && j < |list|
    ensures bp in mem && list[j] in mem && Covers(Inserted(mem, list, j, bp), InsertedList(list, j, bp), live - {bp},
            cover)
  {
    hide Succ, Covers, InsertedList;
    assert list[j] in list;
    LiveSize(mem, list, live, cover, bp);
    ListedInMem(mem, list, live, cover, list[j]);
    InsertedIn(list, j, bp);
    var mem' := Inserted(mem, list, j, bp);
    assert mem'.Keys == mem.Keys;
    Relisted(mem, list, live, cover, mem', InsertedList(list, j, bp), bp);
  }

  function Merged(mem: Mem, list: seq<nat>, i: nat): Mem
    requires i + 1 < |list| && list[i] in mem && list[i + 1] in mem
  {
    mem[list[i] := Header(mem[list[i + 1]].ptr, mem[list[i]].size + mem[list[i + 1]].size)]
  }

  function MergedList(list: seq<nat>, i: nat): (r: seq<nat>)
    requires i + 1 < |list|
    ensures |r| == |list| - 1
    ensures forall k :: 0 <= k < |r| ==> r[k] == if k <= i then list[k] else list[k + 1]
  {
    list[..i + 1] + list[i + 2..]
  }

  function MergedCover(cover: map<nat, nat>, x: nat, y: nat): map<nat, nat> {
    map u | u in cover :: if cover[u] == y then x else cover[u]
  }

  lemma MergeOrder(mem: Mem, base: nat, list: seq<nat>, i: nat)
    requires Order(mem, base, list) && 0 < i && i + 1 < |list| && list[i] + mem[list[i]].size == list[i + 1]
    ensures Order(Merged(mem, list, i), base, MergedList(list, i))
  {

    var list', mem' := MergedList(list, i), Merged(mem, list, i);
    forall k | 0 <= k < |list'|
      ensures list'[k] in mem' && mem'[list'[k]].size == if k == i then mem[list[i]].size + mem[list[i + 1]].size
              else mem[list'[k]].size
    {
      assert list'[k] == if k <= i then list[k] else list[k + 1];
    }
    forall a, b | 0 <= a < b < |list'| ensures list'[a] < list'[b] && list'[a] + mem'[list'[a]].size <= list'[b] {
      assert list'[a] == if a <= i then list[a] else list[a + 1];
      assert list'[b] == if b <= i then list[b] else list[b + 1];
    }
  }

  lemma MergeLinks(mem: Mem, list: seq<nat>, i: nat)
    requires Links(mem, list) && 0 < i && i + 1 < |list| && (forall i, k :: 0 <= i < k < |list| ==> list[i] != list[k])
    ensures Links(Merged(mem, list, i), MergedList(list, i))
  {
  }

  lemma MergedIn(list: seq<nat>, i: nat)
    requires i + 1 < |list| && (forall i, k :: 0 <= i < k < |list| ==> list[i] != list[k])
    ensures forall b :: b in MergedList(list, i) <==> b in list && b != list[i + 1]
  {
  }

  lemma MergeCovers(mem: Mem, list: seq<nat>, live: map<nat, nat>, cover: map<nat, nat>, i: nat)
    requires Covers(mem, list, live, cover) && i + 1 < |list| && list[i] in mem &&
             list[i] + mem[list[i]].size == list[i + 1]
    requires forall i, k :: 0 <= i < k < |list| ==> list[i] != list[k]
    ensures list[i + 1] in mem && Covers(Merged(mem, list, i), MergedList(list, i), live,
            MergedCover(cover, list[i], list[i + 1]))
  {
    hide Covers, MergedList;
    MergedIn(list, i);
    assert list[i] in list && list[i + 1] in list;
    ListedInMem(mem, list, live, cover, list[i + 1]);
    MergeFields(mem, list, live, cover, list[i], list[i + 1], Merged(mem, list, i), MergedList(list, i),
      MergedCover(cover, list[i], list[i + 1]));
  }

  lemma ListedInMem(mem: Mem, list: seq<nat>, live: map<nat, nat>, cover: map<nat, nat>, b: nat)
    requires Covers(mem, list, live, cover) && b in list
    ensures b in mem && b !in live
  {
  }

  lemma MergeFields(
    mem: Mem, list: seq<nat>, live: map<nat, nat>, cover: map<nat, nat>, x: nat, y: nat, mem': Mem, list': seq<nat>,
    cover': map<nat, nat>)
    requires Covers(mem, list, live, cover) && x in list && y in list && x in mem && y in mem &&
             x + mem[x].size == y && x != y
    requires mem' == mem[x := Header(mem[y].ptr, mem[x].size + mem[y].size)] && cover'.Keys == cover.Keys
    requires forall u :: u in cover ==> cover'[u] == if cover[u] == y then x else cover[u]
    requires forall b :: b in list' <==> b in list && b != y
    ensures Covers(mem', list', live, cover')
  {
    hide Inside, Fills;
    MergeInside(mem, list, live, cover, x, y, mem', list', cover');
    MergeFills(mem, list, live, cover, x, y, mem', list', cover');
  }

  lemma MergeInside(
    mem: Mem, list: seq<nat>, live: map<nat, nat>, cover: map<nat, nat>, x: nat, y: nat, mem': Mem, list': seq<nat>,
    cover': map<nat, nat>)
    requires Heads(mem, list, live) && Inside(mem, list, live, cover) && x in list && y in list && x in mem &&
             y in mem && x + mem[x].size == y && x != y
    requires mem' == mem[x := Header(mem[y].ptr, mem[x].size + mem[y].size)] && cover'.Keys == cover.Keys
    requires forall u :: u in cover ==> cover'[u] == if cover[u] == y then x else cover[u]
    requires forall b :: b in list' <==> b in list && b != y
    ensures Inside(mem', list', live, cover')
  {
  }

  lemma MergeFills(
    mem: Mem, list: seq<nat>, live: map<nat, nat>, cover: map<nat, nat>, x: nat, y: nat, mem': Mem, list': seq<nat>,
    cover': map<nat, nat>)
    requires Covers(mem, list, live, cover) && x in list && y in list && x in mem && y in mem &&
             x + mem[x].size == y && x != y
    requires mem' == mem[x := Header(mem[y].ptr, mem[x].size + mem[y].size)] && cover'.Keys == cover.Keys
    requires forall u :: u in cover ==> cover'[u] == if cover[u] == y then x else cover[u]
    requires forall b :: b in list' <==> b in list && b != y
    ensures Fills(mem', list', live, cover')
  {
    hide Covers;
    ListedInMem(mem, list, live, cover, y);
    forall b: nat, u: nat | IsBlock(list', live, b) && b in mem' && b <= u < b + mem'[b].size ensures u in cover' &&
      cover'[u] == b {
      MergedUnit(mem, list, live, cover, x, y, b, u);
    }
  }

  lemma MergedUnit(mem: Mem, list: seq<nat>, live: map<nat, nat>, cover: map<nat, nat>, x: nat, y: nat, b: nat, u: nat)
    requires Covers(mem, list, live, cover) && x in list && y in list && x in mem && y in mem &&
             x + mem[x].size == y && x != y
    requires IsBlock(list, live, b) && b != y && b in mem &&
             b <= u < b + (if b == x then mem[x].size + mem[y].size else mem[b].size)
    ensures u in cover && cover[u] == if b == x && u >= y then y else b
  {
  }

  /** Insertion can make bp touch its two neighbours only. */
  lemma InsertApart(mem: Mem, base: nat, list: seq<nat>, j: nat, bp: nat, i: nat)
    requires Ring(mem, base, list) && bp in mem && bp !in list && j < |list| && i <= |list|
    requires i == j ==> list[j] + mem[list[j]].size < bp
    requires i == j + 1 < |list| ==> bp + mem[bp].size < list[j + 1]
    ensures var m1 := Inserted(mem, list, j, bp); var l1 := InsertedList(list, j, bp);
            (forall k :: 0 <= k < |l1| ==> l1[k] in m1) && Apart(m1, l1, i)
  {
    hide Succ, Links;
    assert Apart(mem, list, if i <= j then i else if i == j + 1 then j else i - 1);
  }

  /** Merging at i leaves the gaps elsewhere, and the gap after the merged block is that after its second half. */
  lemma MergeApart(mem: Mem, base: nat, list: seq<nat>, i: nat, k: nat)
    requires Order(mem, base, list) && 0 < i && i + 1 < |list|
    requires if k < i then Apart(mem, list, k) else Apart(mem, list, k + 1)
    requires list[i] + mem[list[i]].size == list[i + 1]
    ensures var m1 := Merged(mem, list, i); var l1 := MergedList(list, i);
            (forall k :: 0 <= k < |l1| ==> l1[k] in m1) && Apart(m1, l1, k)
  {
  }

  // ---- the heap as a value

  datatype Arena = Arena(mem: Mem, list: seq<nat>, live: map<nat, nat>, cover: map<nat, nat>)

  ghost predicate Weak(a: Arena, base: nat) {
    && Order(a.mem, base, a.list) && Links(a.mem, a.list) && Covers(a.mem, a.list, a.live, a.cover)
    && forall b :: b in a.live ==> b > base
  }

  ghost predicate Good(a: Arena, base: nat) {
    Weak(a, base) && forall i :: 0 <= i < |a.list| ==> Apart(a.mem, a.list, i)
  }

  /** A unit that malloc may hand out. */
  predicate FreeUnit(a: Arena, u: nat) {
    u in a.cover && a.cover[u] !in a.live
  }

  ghost function InsertA(a: Arena, j: nat, bp: nat): Arena
    requires j < |a.list| && a.list[j] in a.mem && bp in a.mem
  {
    Arena(Inserted(a.mem, a.list, j, bp), InsertedList(a.list, j, bp), a.live - {bp}, a.cover)
  }

  ghost function MergeA(a: Arena, i: nat): Arena
    requires i + 1 < |a.list| && a.list[i] in a.mem && a.list[i + 1] in a.mem
  {
    Arena(Merged(a.mem, a.list, i), MergedList(a.list, i), a.live, MergedCover(a.cover, a.list[i], a.list[i + 1]))
  }

  lemma OrderDistinct(mem: Mem, base: nat, list: seq<nat>)
    requires Order(mem, base, list)
    ensures forall i, k :: 0 <= i < k < |list| ==> list[i] != list[k]
    ensures forall i :: 0 <= i < |list| ==> list[i] in mem
  {
  }

  /** bp belongs after position j. */
  predicate Position(a: Arena, j: nat, bp: nat) {
    j < |a.list| && a.list[j] < bp && (j + 1 < |a.list| ==> bp < a.list[j + 1])
  }

  lemma InsertWeak(a: Arena, base: nat, j: nat, bp: nat)
    requires Weak(a, base) && bp in a.live && Position(a, j, bp)
    ensures bp in a.mem && a.list[j] in a.mem && Weak(InsertA(a, j, bp), base) && a.mem[bp].size > 0 && bp !in a.list
    ensures a.list[j] + a.mem[a.list[j]].size <= bp && (j + 1 < |a.list| ==>
              a.list[j + 1] in a.mem && bp + a.mem[bp].size <= a.list[j + 1])
  {
    hide Order, Links, Covers, Inserted, InsertedList;
    OrderDistinct(a.mem, base, a.list);
    LiveSize(a.mem, a.list, a.live, a.cover, bp);
    IsBetween(a.mem, base, a.list, a.live, a.cover, j, bp);
    InsertOrder(a.mem, base, a.list, j, bp);
    InsertLinks(a.mem, a.list, j, bp);
    InsertCovers(a.mem, a.list, a.live, a.cover, j, bp);
  }

  lemma MergeWeak(a: Arena, base: nat, i: nat)
    requires Weak(a, base) && 0 < i && i + 1 < |a.list| && a.list[i] in a.mem &&
             a.list[i] + a.mem[a.list[i]].size == a.list[i + 1]
    ensures a.list[i + 1] in a.mem && Weak(MergeA(a, i), base)
    ensures a.list[i] !in a.live && a.list[i + 1] !in a.live
  {
    hide Order, Links, Covers, Merged, MergedList, MergedCover;
    OrderDistinct(a.mem, base, a.list);
    MergeOrder(a.mem, base, a.list, i);
    MergeLinks(a.mem, a.list, i);
    MergeCovers(a.mem, a.list, a.live, a.cover, i);
    ListedInMem(a.mem, a.list, a.live, a.cover, a.list[i]);
    ListedInMem(a.mem, a.list, a.live, a.cover, a.list[i + 1]);
  }

  predicate Up(a: Arena, j: nat, bp: nat)
    requires bp in a.mem
  {
    j + 1 < |a.list| && bp + a.mem[bp].size == a.list[j + 1]
  }

  predicate Down(a: Arena, j: nat, bp: nat)
    requires j < |a.list| && a.list[j] in a.mem
  {
    a.list[j] + a.mem[a.list[j]].size == bp
  }

  /** free's first test: bp joined to the block after it. */
  ghost function Joined(a: Arena, j: nat, bp: nat): Arena
    requires j < |a.list| && bp in a.mem && forall i :: 0 <= i < |a.list| ==> a.list[i] in a.mem
  {
    var a1 := InsertA(a, j, bp);
    if Up(a, j, bp) then assert a1.list[j + 2] == a.list[j + 1]; MergeA(a1, j + 1) else a1
  }

  lemma JoinedWeak(a: Arena, base: nat, j: nat, bp: nat)
    requires Weak(a, base) && bp in a.live && Position(a, j, bp)
    ensures bp in a.mem && forall i :: 0 <= i < |a.list| ==> a.list[i] in a.mem
    ensures var a2 := Joined(a, j, bp);
            && Weak(a2, base) && a2.live == a.live - {bp} && a2.cover.Keys == a.cover.Keys
            && j + 1 < |a2.list| && a2.list[j] == a.list[j] && a2.list[j + 1] == bp
            && a2.mem[a.list[j]] == a.mem[a.list[j]].(ptr := bp)
            && (forall u :: u in a.cover && a.cover[u] in a.live && a.cover[u] != bp ==> a2.cover[u] == a.cover[u])
            && (forall u :: u in a.cover && (a.cover[u] !in a.live || a.cover[u] == bp) ==> a2.cover[u] !in a2.live)
  {
    hide Weak, MergedList;
    InsertWeak(a, base, j, bp);
    WeakDistinct(a, base);
    var a1 := InsertA(a, j, bp);
    WeakDistinct(a1, base);
    if Up(a, j, bp) {
      assert a1.list[j + 1] == bp && a1.list[j + 2] == a.list[j + 1];
      MergeWeak(a1, base, j + 1);
      MergedAt(a1.list, j + 1, j);
      MergedAt(a1.list, j + 1, j + 1);
      ListedNotLive(a, base, j + 1);
    }
  }

  lemma WeakDistinct(a: Arena, base: nat)
    requires Weak(a, base)
    ensures |a.list| > 0 && a.list[0] == base && forall i, k :: 0 <= i < k < |a.list| ==> a.list[i] < a.list[k]
    ensures forall i :: 0 <= i < |a.list| ==> a.list[i] in a.mem
  {
  }

  lemma ListedNotLive(a: Arena, base: nat, i: nat)
    requires Weak(a, base) && i < |a.list|
    ensures a.list[i] !in a.live
  {
    ListedInMem(a.mem, a.list, a.live, a.cover, a.list[i]);
  }

  lemma MergedAt(list: seq<nat>, i: nat, k: nat)
    requires i + 1 < |list| && k + 1 < |list|
    ensures MergedList(list, i)[k] == if k <= i then list[k] else list[k + 1]
  {
  }

  lemma JoinedApart(a: Arena, base: nat, j: nat, bp: nat, i: nat)
    requires Good(a, base) && bp in a.live && Position(a, j, bp)
    requires bp in a.mem && forall i :: 0 <= i < |a.list| ==> a.list[i] in a.mem
    requires i == j ==> !Down(a, j, bp)
    ensures var a2 := Joined(a, j, bp);
            i < |a2.list| ==> (forall k :: 0 <= k < |a2.list| ==> a2.list[k] in a2.mem) && Apart(a2.mem, a2.list, i)
  {
    hide Covers, Links, Inserted, InsertedList, Merged, MergedList, MergedCover;
    InsertWeak(a, base, j, bp);
    var a1 := InsertA(a, j, bp);
    var k := if Up(a, j, bp) && i >= j + 1 then i + 1 else i;
    if k <= |a.list| {
      InsertApart(a.mem, base, a.list, j, bp, k);
    }
    if Up(a, j, bp) {
      InsertedAt(a, j, bp);
      MergeApart(a1.mem, base, a1.list, j + 1, i);
    }
  }

  lemma InsertedAt(a: Arena, j: nat, bp: nat)
    requires j + 1 < |a.list| && a.list[j] in a.mem && bp in a.mem && bp != a.list[j]
    ensures var a1 := InsertA(a, j, bp);
            |a1.list| == |a.list| + 1 && a1.list[j + 1] == bp && a1.list[j + 2] == a.list[j + 1] && bp in a1.mem &&
              a1.mem[bp].size == a.mem[bp].size
  {
  }

  /** free's second test: and then to the block before it. */
  ghost function Freed(a: Arena, j: nat, bp: nat): Arena
    requires j < |a.list| && bp in a.mem && forall i :: 0 <= i < |a.list| ==> a.list[i] in a.mem
  {
    var a2 := Joined(a, j, bp);
    if Down(a, j, bp) && j + 1 < |a2.list| && a2.list[j] in a2.mem && a2.list[j + 1] in a2.mem then MergeA(a2, j)
      else a2
  }

  lemma FreedWeak(a: Arena, base: nat, j: nat, bp: nat)
    requires Weak(a, base) && bp in a.live && Position(a, j, bp)
    ensures bp in a.mem && forall i :: 0 <= i < |a.list| ==> a.list[i] in a.mem
    ensures var f := Freed(a, j, bp);
            && Weak(f, base) && f.live == a.live - {bp} && f.cover.Keys == a.cover.Keys && j < |f.list| &&
                 f.list[j] == a.list[j]
            && (forall u :: u in a.cover && a.cover[u] in a.live && a.cover[u] != bp ==> f.cover[u] == a.cover[u])
            && (forall u :: u in a.cover && (a.cover[u] !in a.live || a.cover[u] == bp) ==> f.cover[u] !in f.live)
  {
    hide Weak, MergedList, Joined;
    JoinedWeak(a, base, j, bp);
    var a2 := Joined(a, j, bp);
    WeakDistinct(a2, base);
    WeakDistinct(a, base);
    if Down(a, j, bp) {
      BaseEmpty(a, base);
      MergeWeak(a2, base, j);
      MergedAt(a2.list, j, j);
    }
  }

  lemma BaseEmpty(a: Arena, base: nat)
    requires Weak(a, base)
    ensures base in a.mem && a.mem[base].size == 0
  {
  }

  lemma FreedApart(a: Arena, base: nat, j: nat, bp: nat, i: nat)
    requires Good(a, base) && bp in a.live && Position(a, j, bp)
    requires bp in a.mem && forall i :: 0 <= i < |a.list| ==> a.list[i] in a.mem
    ensures var f := Freed(a, j, bp);
            i < |f.list| ==> (forall k :: 0 <= k < |f.list| ==> f.list[k] in f.mem) && Apart(f.mem, f.list, i)
  {
    hide Weak, MergedList, Joined, Apart;
    JoinedWeak(a, base, j, bp);
    var a2 := Joined(a, j, bp);
    WeakDistinct(a2, base);
    WeakDistinct(a, base);
    if Down(a, j, bp) {
      BaseEmpty(a, base);
      var k := if i < j then i else i + 1;
      if k < |a2.list| {
        JoinedApart(a, base, j, bp, k);
        MergeApartA(a2, base, j, i);
      }
    } else {
      JoinedApart(a, base, j, bp, i);
    }
  }

  lemma MergeApartA(a: Arena, base: nat, i: nat, k: nat)
    requires Weak(a, base) && 0 < i && i + 1 < |a.list| && forall j :: 0 <= j < |a.list| ==> a.list[j] in a.mem
    requires if k < i then Apart(a.mem, a.list, k) else Apart(a.mem, a.list, k + 1)
    requires a.list[i] + a.mem[a.list[i]].size == a.list[i + 1]
    ensures var m := MergeA(a, i); (forall k :: 0 <= k < |m.list| ==> m.list[k] in m.mem) && Apart(m.mem, m.list, k)
  {
    MergeApart(a.mem, base, a.list, i, k);
  }

  lemma FreedGood(a: Arena, base: nat, j: nat, bp: nat)
    requires Good(a, base) && bp in a.live && Position(a, j, bp)
    ensures bp in a.mem && forall i :: 0 <= i < |a.list| ==> a.list[i] in a.mem
    ensures var f := Freed(a, j, bp);
            && Good(f, base) && f.live == a.live - {bp} && f.cover.Keys == a.cover.Keys && j < |f.list| &&
                 f.list[j] == a.list[j]
            && LiveStay(a, f)
            && (forall u: nat :: FreeUnit(f, u) <==> FreeUnit(a, u) || (u in a.cover && a.cover[u] == bp))
  {
    hide Weak, Freed, Apart;
    FreedWeak(a, base, j, bp);
    var f := Freed(a, j, bp);
    WeakDistinct(f, base);
    forall i | 0 <= i < |f.list| ensures Apart(f.mem, f.list, i) {
      FreedApart(a, base, j, bp, i);
    }
  }

  /** The header of bp as free writes it. */
  function Rewritten(mem: Mem, bp: nat, next: nat): Header
    requires bp in mem && next in mem
  {
    if bp + mem[bp].size == next then Header(mem[next].ptr, mem[bp].size + mem[next].size) else mem[bp].(ptr := next)
  }

  lemma NextOf(a: Arena, base: nat, j: nat, bp: nat)
    requires Weak(a, base) && bp in a.live && Position(a, j, bp)
    ensures bp in a.mem && bp !in a.list && (forall i :: 0 <= i < |a.list| ==> a.list[i] in a.mem)
    ensures var next := a.mem[a.list[j]].ptr;
            next in a.mem && next != bp && (Up(a, j, bp) <==> bp + a.mem[bp].size == next) &&
            (Up(a, j, bp) ==> next == a.list[j + 1] != a.list[j])
    ensures Succ(a.list, j) == a.mem[a.list[j]].ptr
  {
  }

  lemma JoinedIs(a: Arena, base: nat, j: nat, bp: nat)
    requires Weak(a, base) && bp in a.live && Position(a, j, bp)
    ensures bp in a.mem && (forall i :: 0 <= i < |a.list| ==> a.list[i] in a.mem) && a.mem[a.list[j]].ptr in a.mem
    ensures Joined(a, j, bp).mem == a.mem[bp := Rewritten(a.mem, bp,
            a.mem[a.list[j]].ptr)][a.list[j] := a.mem[a.list[j]].(ptr := bp)]
  {
    hide Weak, MergedList, Succ;
    NextOf(a, base, j, bp);
    var p := a.list[j];
    assert p in a.list;
    var a1 := InsertA(a, j, bp);
    if Up(a, j, bp) {
      assert a1.list[j + 1] == bp && a1.list[j + 2] == a.list[j + 1];
      assert a.list[j + 1] in a.list;
      assert a1.mem[a.list[j + 1]] == a.mem[a.list[j + 1]];
    }
  }

  /** What free writes: the header of bp, then that of p. */
  function FreedMem(mem: Mem, p: nat, bp: nat): Mem
    requires p in mem && bp in mem && mem[p].ptr in mem
  {
    var m1 := mem[bp := Rewritten(mem, bp, mem[p].ptr)];
    m1[p := if p + m1[p].size == bp then Header(m1[bp].ptr, m1[p].size + m1[bp].size) else m1[p].(ptr := bp)]
  }

  lemma FreedIs(a: Arena, base: nat, j: nat, bp: nat)
    requires Weak(a, base) && bp in a.live && Position(a, j, bp)
    ensures bp in a.mem && (forall i :: 0 <= i < |a.list| ==> a.list[i] in a.mem) && a.mem[a.list[j]].ptr in a.mem &&
            bp !in a.list
    ensures Freed(a, j, bp).mem == FreedMem(a.mem, a.list[j], bp)
  {
    hide Weak, Joined, MergedList, Rewritten;
    NextOf(a, base, j, bp);
    JoinedIs(a, base, j, bp);
    JoinedWeak(a, base, j, bp);
    WeakDistinct(Joined(a, j, bp), base);
    assert a.list[j] in a.list;
  }

  // ---- taking blocks out

  /** malloc's exact fit: the block after position i leaves the ring. */
  ghost function Unlinked(a: Arena, i: nat): Arena
    requires i + 1 < |a.list| && a.list[i] in a.mem && a.list[i + 1] in a.mem
  {
    var p := a.list[i + 1];
    Arena(a.mem[a.list[i] := a.mem[a.list[i]].(ptr := a.mem[p].ptr)], MergedList(a.list, i),
      a.live[p := a.mem[p].size], a.cover)
  }

  lemma UnlinkedOrder(mem: Mem, base: nat, list: seq<nat>, i: nat, mem': Mem)
    requires Order(mem, base, list) && i + 1 < |list| && forall b ::
               b in mem ==> b in mem' && mem'[b].size == mem[b].size
    ensures Order(mem', base, MergedList(list, i))
  {
  }

  lemma UnlinkedApart(mem: Mem, base: nat, list: seq<nat>, i: nat, mem': Mem, k: nat)
    requires Order(mem, base, list) && i + 1 < |list| && k + 1 < |list| && forall b ::
               b in mem ==> b in mem' && mem'[b].size == mem[b].size
    requires Apart(mem, list, if k <= i then k else k + 1)
    requires forall k :: 0 <= k < |MergedList(list, i)| ==> MergedList(list, i)[k] in mem'
    ensures Apart(mem', MergedList(list, i), k)
  {
  }

  lemma MergedLength(list: seq<nat>, i: nat)
    requires i + 1 < |list|
    ensures |MergedList(list, i)| == |list| - 1
  {
  }

  lemma UnlinkedLinks(mem: Mem, list: seq<nat>, i: nat)
    requires Links(mem, list) && i + 1 < |list| && (forall i, k :: 0 <= i < k < |list| ==> list[i] != list[k])
    ensures Links(mem[list[i] := mem[list[i]].(ptr := mem[list[i + 1]].ptr)], MergedList(list, i))
  {
    var list', mem' := MergedList(list, i), mem[list[i] := mem[list[i]].(ptr := mem[list[i + 1]].ptr)];
    forall k | 0 <= k < |list'| ensures list'[k] in mem' && mem'[list'[k]].ptr == Succ(list', k) {
      assert list'[k] == if k <= i then list[k] else list[k + 1];
    }
  }

  lemma UnlinkedCovers(
    mem: Mem, list: seq<nat>, live: map<nat, nat>, cover: map<nat, nat>, p: nat, mem': Mem, list': seq<nat>)
    requires Covers(mem, list, live, cover) && p in list && p in mem && mem[p].size > 0
    requires mem'.Keys == mem.Keys && forall b :: b in mem ==> mem'[b].size == mem[b].size
    requires forall b :: b in list' <==> b in list && b != p
    ensures p !in live && Covers(mem', list', live[p := mem[p].size], cover)
  {
    assert forall b :: IsBlock(list', live[p := mem[p].size], b) <==> IsBlock(list, live, b);
  }

  lemma UnlinkedGood(a: Arena, base: nat, i: nat)
    requires Good(a, base) && i + 1 < |a.list|
    ensures a.list[i] in a.mem && a.list[i + 1] in a.mem && a.list[i + 1] !in a.live && Good(Unlinked(a, i), base)
  {
    hide Order, Links, Covers, MergedList;
    OrderDistinct(a.mem, base, a.list);
    WeakDistinct(a, base);
    var p := a.list[i + 1];
    var f := Unlinked(a, i);
    UnlinkedOrder(a.mem, base, a.list, i, f.mem);
    OrderDistinct(f.mem, base, f.list);
    MergedLength(a.list, i);
    forall k | 0 <= k < |f.list| ensures Apart(f.mem, f.list, k) {
      UnlinkedApart(a.mem, base, a.list, i, f.mem, k);
    }
    UnlinkedLinks(a.mem, a.list, i);
    MergedIn(a.list, i);
    PositiveSize(a.mem, base, a.list, i + 1);
    UnlinkedCovers(a.mem, a.list, a.live, a.cover, p, f.mem, f.list);
  }

  lemma PositiveSize(mem: Mem, base: nat, list: seq<nat>, i: nat)
    requires Order(mem, base, list) && 0 < i < |list|
    ensures mem[list[i]].size > 0
  {
  }

  /** malloc's other fit: the tail of the block at position i becomes a live block. */
  ghost function Split(a: Arena, i: nat, n: nat): Arena
    requires i < |a.list| && a.list[i] in a.mem && n < a.mem[a.list[i]].size
  {
    var p := a.list[i];
    var rest := a.mem[p].size - n;
    Arena(SplitMem(a.mem, p, n), a.list, a.live[p + rest := n], map u | u in a.cover ::
        if p + rest <= u < p + rest + n then p + rest else a.cover[u])
  }

  /** The first word of the new block's header keeps whatever was there. */
  function SplitMem(mem: Mem, p: nat, n: nat): Mem
    requires p in mem && n < mem[p].size
  {
    var q := p + (mem[p].size - n);
    mem[p := mem[p].(size := mem[p].size - n)][q := Header(if q in mem then mem[q].ptr else 0, n)]
  }

  lemma SplitOrder(mem: Mem, base: nat, list: seq<nat>, i: nat, mem': Mem, n: nat)
    requires Order(mem, base, list) && 0 < i < |list| && 0 < n < mem[list[i]].size
    requires forall k ::
               0 <= k < |list| ==> list[k] in mem' && mem'[list[k]].size == mem[list[k]].size - if k == i then n else 0
    ensures Order(mem', base, list)
  {
  }

  lemma SplitApart(mem: Mem, list: seq<nat>, i: nat, mem': Mem, n: nat, k: nat)
    requires i < |list| && k < |list| && (forall k :: 0 <= k < |list| ==> list[k] in mem) && n < mem[list[i]].size &&
             Apart(mem, list, k)
    requires forall k ::
               0 <= k < |list| ==> list[k] in mem' && mem'[list[k]].size == mem[list[k]].size - if k == i then n else 0
    ensures Apart(mem', list, k)
  {
  }

  lemma SplitLinks(mem: Mem, list: seq<nat>, mem': Mem)
    requires Links(mem, list) && forall k ::
               0 <= k < |list| ==> list[k] in mem' && (list[k] in mem ==> mem'[list[k]].ptr == mem[list[k]].ptr)
    ensures Links(mem', list)
  {
  }

  /** No block starts inside another. */
  lemma NoHeadInside(mem: Mem, list: seq<nat>, live: map<nat, nat>, cover: map<nat, nat>, p: nat, q: nat)
    requires Covers(mem, list, live, cover) && p in list && p in mem && p < q < p + mem[p].size
    ensures q !in live && (q in list ==> mem[q].size == 0)
  {
    assert IsBlock(list, live, p);
    assert q in cover && cover[q] == p;
    assert q in live ==> IsBlock(list, live, q);
    assert q in list ==> IsBlock(list, live, q);
  }

  /** Block p has given its last n units to a new block at q. */
  ghost predicate Halved(mem: Mem, cover: map<nat, nat>, p: nat, q: nat, n: nat, mem': Mem, cover': map<nat, nat>) {
    && p in mem && 0 < n < mem[p].size && q == p + (mem[p].size - n)
    && mem'.Keys == mem.Keys + {q} && mem'[q].size == n && mem'[p].size == mem[p].size - n
    && (forall b :: b in mem && b != p && b != q ==> mem'[b].size == mem[b].size)
    && cover'.Keys == cover.Keys && forall u :: u in cover ==> cover'[u] == if q <= u < q + n then q else cover[u]
  }

  lemma SplitInside(
    mem: Mem, list: seq<nat>, live: map<nat, nat>, cover: map<nat, nat>, p: nat, q: nat, n: nat, mem': Mem,
    cover': map<nat, nat>, u: nat)
    requires Covers(mem, list, live, cover) && p in list && q !in live && q !in list &&
             Halved(mem, cover, p, q, n, mem', cover') && u in cover
    ensures IsBlock(list, live[q := n], cover'[u]) && cover'[u] in mem' &&
            cover'[u] <= u < cover'[u] + mem'[cover'[u]].size
  {
  }

  lemma SplitFills(
    mem: Mem, list: seq<nat>, live: map<nat, nat>, cover: map<nat, nat>, p: nat, q: nat, n: nat, mem': Mem,
    cover': map<nat, nat>, b: nat, u: nat)
    requires Covers(mem, list, live, cover) && p in list && q !in live && q !in list &&
             Halved(mem, cover, p, q, n, mem', cover')
    requires IsBlock(list, live[q := n], b) && b in mem' && b <= u < b + mem'[b].size
    ensures u in cover' && cover'[u] == b
  {
  }

  lemma SplitHeads(
    mem: Mem, list: seq<nat>, live: map<nat, nat>, cover: map<nat, nat>, p: nat, q: nat, n: nat, mem': Mem,
    cover': map<nat, nat>)
    requires Heads(mem, list, live) && p in list && q !in live && q !in list &&
             Halved(mem, cover, p, q, n, mem', cover')
    ensures Heads(mem', list, live[q := n])
  {
  }

  lemma SplitCovers(
    mem: Mem, list: seq<nat>, live: map<nat, nat>, cover: map<nat, nat>, p: nat, q: nat, n: nat, mem': Mem,
    cover': map<nat, nat>)
    requires Covers(mem, list, live, cover) && p in list && q !in live && q !in list &&
             Halved(mem, cover, p, q, n, mem', cover')
    ensures Covers(mem', list, live[q := n], cover')
  {
    assert Inside(mem', list, live[q := n], cover') by {
      hide Covers, IsBlock;
      forall u | u in cover' ensures IsBlock(list, live[q := n], cover'[u]) && cover'[u] in mem' &&
        cover'[u] <= u < cover'[u] + mem'[cover'[u]].size {
        SplitInside(mem, list, live, cover, p, q, n, mem', cover', u);
      }
    }
    assert Fills(mem', list, live[q := n], cover') by {
      AllSplitFills(mem, list, live, cover, p, q, n, mem', cover');
    }
    hide Inside, Fills;
    SplitHeads(mem, list, live, cover, p, q, n, mem', cover');
  }

  lemma AllSplitFills(
    mem: Mem, list: seq<nat>, live: map<nat, nat>, cover: map<nat, nat>, p: nat, q: nat, n: nat, mem': Mem,
    cover': map<nat, nat>)
    requires Covers(mem, list, live, cover) && p in list && q !in live && q !in list &&
             Halved(mem, cover, p, q, n, mem', cover')
    ensures Fills(mem', list, live[q := n], cover')
  {
    hide Covers, IsBlock, Halved;
    forall b: nat, u: nat | IsBlock(list, live[q := n], b) && b in mem' &&
      b <= u < b + mem'[b].size ensures u in cover' && cover'[u] == b {
      SplitFills(mem, list, live, cover, p, q, n, mem', cover', b, u);
    }
  }

  lemma SplitGood(a: Arena, base: nat, i: nat, n: nat)
    requires Good(a, base) && 0 < i < |a.list| && a.list[i] in a.mem && 0 < n < a.mem[a.list[i]].size
    ensures Good(Split(a, i, n), base) && a.list[i] + (a.mem[a.list[i]].size - n) !in a.live
  {
    hide Order, Links, Covers, Apart;
    OrderDistinct(a.mem, base, a.list);
    WeakDistinct(a, base);
    var p := a.list[i];
    var q := p + (a.mem[p].size - n);
    var f := Split(a, i, n);
    assert p in a.list;
    ListedInMem(a.mem, a.list, a.live, a.cover, p);
    NoHeadInside(a.mem, a.list, a.live, a.cover, p, q);
    if q in a.list {
      HeadsPositive(a.mem, base, a.list, q);
    }
    SplitOrder(a.mem, base, a.list, i, f.mem, n);
    forall k | 0 <= k < |f.list| ensures Apart(f.mem, f.list, k) {
      SplitApart(a.mem, a.list, i, f.mem, n, k);
    }
    SplitLinks(a.mem, a.list, f.mem);
    SplitCovers(a.mem, a.list, a.live, a.cover, p, q, n, f.mem, f.cover);
  }

  lemma HeadsPositive(mem: Mem, base: nat, list: seq<nat>, q: nat)
    requires Order(mem, base, list) && q in list && q != base
    ensures q in mem && mem[q].size > 0
  {
  }

  // ---- the scans

  /** Where bp belongs in the ring. */
  /** p is the last listed block before bp. */
  predicate Precedes(list: seq<nat>, p: nat, bp: nat) {
    p in list && p < bp && forall x :: x in list && x < bp ==> x <= p
  }

  lemma PositionPrecedes(a: Arena, base: nat, j: nat, bp: nat)
    requires Weak(a, base) && Position(a, j, bp)
    ensures Precedes(a.list, a.list[j], bp)
  {
    hide Links, Covers;
    if j + 1 < |a.list| {
      assert forall i :: j + 1 <= i < |a.list| ==> a.list[j + 1] <= a.list[i];
    }
    forall x | x in a.list && x < bp ensures x <= a.list[j] {
      var i :| 0 <= i < |a.list| && a.list[i] == x;
    }
  }

  /** Next fit: the block after position i of the ring is the first after freep, at position k, with room for n
      units, and bp is its end. */
  predicate NextFit(a: Arena, k: nat, i: nat, n: nat, bp: nat) {
    && k < |a.list| && i < |a.list| && Small(a, k, i, n)
    && var p := a.list[Step(i, |a.list|)];
       p in a.mem && a.mem[p].size >= n && bp == p + (a.mem[p].size - n)
  }

  lemma Place(a: Arena, base: nat, bp: nat) returns (j: nat)
    requires Weak(a, base) && bp in a.live
    ensures Position(a, j, bp)
  {
    hide Links;
    j := 0;
    while j + 1 < |a.list| && a.list[j + 1] < bp
      invariant j < |a.list| && a.list[j] < bp
    {
      j := j + 1;
    }
    if j + 1 < |a.list| {
      ListedInMem(a.mem, a.list, a.live, a.cover, a.list[j + 1]);
    }
  }

  function Step(i: nat, n: nat): nat
    requires i < n
  {
    if i + 1 < n then i + 1 else 0
  }

  /** Steps around a ring of n from i to j. */
  function Steps(i: nat, j: nat, n: nat): nat
    requires i < n && j < n
  {
    if i <= j then j - i else j - i + n
  }

  /** free's scan stops at the place of bp and nowhere else. */
  lemma ScanStops(a: Arena, base: nat, i: nat, j: nat, bp: nat)
    requires Weak(a, base) && bp in a.live && Position(a, j, bp) && i < |a.list|
    ensures a.list[i] in a.mem
    ensures var p := a.list[i]; var next := a.mem[p].ptr;
            && next == a.list[Step(i, |a.list|)]
            && (i == j <==> (bp > p && bp < next) || (p >= next && (bp > p || bp < next)))
            && (i != j ==> Steps(Step(i, |a.list|), j, |a.list|) < Steps(i, j, |a.list|))
  {
    hide Weak;
    WeakDistinct(a, base);
    LinkAt(a, base, i);
    assert i > j + 1 ==> a.list[j + 1] < a.list[i];
    assert i < j ==> a.list[i] < a.list[j];
    assert i < j && i + 1 < j ==> a.list[i + 1] < a.list[j];
    assert i > 0 ==> a.list[0] < a.list[i];
  }

  lemma LinkAt(a: Arena, base: nat, i: nat)
    requires Weak(a, base) && i < |a.list|
    ensures a.list[i] in a.mem && a.mem[a.list[i]].ptr == a.list[Step(i, |a.list|)]
  {
    hide Covers, Order;
  }

  /** Every block that malloc has looked at since freep is too small. */
  predicate Small(a: Arena, k: nat, i: nat, n: nat) {
    forall t ::
        0 <= t < |a.list| && (if k <= i then k < t <= i else t > k || t <= i) ==>
          a.list[t] in a.mem && a.mem[a.list[t]].size < n
  }

  predicate Fits(a: Arena, n: nat) {
    exists t :: 0 <= t < |a.list| && a.list[t] in a.mem && a.mem[a.list[t]].size >= n
  }

  lemma SmallStep(a: Arena, k: nat, i: nat, n: nat)
    requires k < |a.list| && i < |a.list| && Small(a, k, i, n)
    requires var p := a.list[Step(i, |a.list|)]; p in a.mem && a.mem[p].size < n
    ensures Step(i, |a.list|) != k ==> Small(a, k, Step(i, |a.list|), n)
    ensures Step(i, |a.list|) == k ==> !Fits(a, n)
  {
  }

  /** The freed block, or what it was merged into, is at position j or after it. */
  lemma FreedFits(a: Arena, base: nat, j: nat, bp: nat, n: nat)
    requires Weak(a, base) && bp in a.live && Position(a, j, bp) && bp in a.mem && n <= a.mem[bp].size
    requires forall i :: 0 <= i < |a.list| ==> a.list[i] in a.mem
    ensures Fits(Freed(a, j, bp), n)
  {
    hide Weak, MergedList, Joined, Rewritten;
    NextOf(a, base, j, bp);
    JoinedIs(a, base, j, bp);
    JoinedWeak(a, base, j, bp);
    var a2 := Joined(a, j, bp);
    WeakDistinct(a2, base);
    FreedWeak(a, base, j, bp);
    var f := Freed(a, j, bp);
    WeakDistinct(f, base);
    RewrittenSize(a.mem, bp, a.mem[a.list[j]].ptr);
    assert a.list[j] in a.list;
    var w := if Down(a, j, bp) then j else j + 1;
    assert f.list[w] in f.mem && f.mem[f.list[w]].size >= n;
  }

  lemma RewrittenSize(mem: Mem, bp: nat, next: nat)
    requires bp in mem && next in mem
    ensures Rewritten(mem, bp, next).size >= mem[bp].size
  {
  }

  // ---- new memory

  /** n units from hp, all in the block at hp. */
  function Units(hp: nat, from: nat, n: nat): (r: map<nat, nat>)
    ensures forall u: nat :: u in r <==> from <= u < from + n
    ensures forall u: nat :: u in r ==> r[u] == hp
  {
    if n == 0 then map[] else Units(hp, from, n - 1)[from + n - 1 := hp]
  }

  /** sbrk's memory, as one live block. */
  ghost function Extended(a: Arena, hp: nat, n: nat): Arena {
    Arena(a.mem[hp := Header(if hp in a.mem then a.mem[hp].ptr else 0, n)], a.list, a.live[hp := n],
      a.cover + Units(hp, hp, n))
  }

  /** Blocks lie below top. */
  lemma BlocksBelow(a: Arena, base: nat, top: nat, b: nat)
    requires Weak(a, base) && base < top && (forall u :: u in a.cover ==> u < top) && IsBlock(a.list, a.live, b)
    ensures b < top && b in a.mem && b + a.mem[b].size <= top
  {
    hide Links;
    if b in a.live {
      assert b + (a.mem[b].size - 1) in a.cover;
      assert b in a.cover;
    } else if b != base {
      HeadsPositive(a.mem, base, a.list, b);
      assert b + (a.mem[b].size - 1) in a.cover;
      assert b in a.cover;
    }
  }

  lemma ExtendedGood(a: Arena, base: nat, top: nat, hp: nat, n: nat)
    requires Good(a, base) && base < top <= hp && n > 0 && (forall u :: u in a.cover ==> u < top)
    ensures Good(Extended(a, hp, n), base) && hp !in a.live && hp !in a.list
  {
    hide Order, Links, Covers, Apart, Units;
    forall b: nat | IsBlock(a.list, a.live, b) ensures b < hp && b in a.mem && b + a.mem[b].size <= hp {
      BlocksBelow(a, base, top, b);
    }
    var e := Extended(a, hp, n);
    WeakDistinct(a, base);
    assert forall i :: 0 <= i < |a.list| ==> IsBlock(a.list, a.live, a.list[i]);
    SameOrder(a.mem, base, a.list, e.mem);
    SplitLinks(a.mem, a.list, e.mem);
    forall i | 0 <= i < |a.list| ensures Apart(e.mem, e.list, i) {
      SameApart(a.mem, a.list, e.mem, i);
    }
    ExtendedCovers(a, hp, n);
  }

  lemma SameOrder(mem: Mem, base: nat, list: seq<nat>, mem': Mem)
    requires Order(mem, base, list) && forall k ::
               0 <= k < |list| ==> list[k] in mem && list[k] in mem' && mem'[list[k]].size == mem[list[k]].size
    ensures Order(mem', base, list)
  {
  }

  lemma SameApart(mem: Mem, list: seq<nat>, mem': Mem, i: nat)
    requires forall k ::
               0 <= k < |list| ==> list[k] in mem && list[k] in mem' && mem'[list[k]].size == mem[list[k]].size
    requires i < |list| && Apart(mem, list, i)
    ensures Apart(mem', list, i)
  {
  }

  lemma ExtendedInside(a: Arena, hp: nat, n: nat, u: nat)
    requires Inside(a.mem, a.list, a.live, a.cover) && n > 0 && hp !in a.list && hp !in a.live &&
             u in Extended(a, hp, n).cover
    ensures var e := Extended(a, hp, n);
            IsBlock(e.list, e.live, e.cover[u]) && e.cover[u] in e.mem &&
            e.cover[u] <= u < e.cover[u] + e.mem[e.cover[u]].size
  {
  }

  lemma ExtendedFills(a: Arena, hp: nat, n: nat, b: nat, u: nat)
    requires Fills(a.mem, a.list, a.live, a.cover) && n > 0 && hp !in a.list && hp !in a.live
    requires IsBlock(a.list, a.live, b) ==> b < hp && b in a.mem && b + a.mem[b].size <= hp
    requires var e := Extended(a, hp, n); IsBlock(e.list, e.live, b) && b in e.mem && b <= u < b + e.mem[b].size
    ensures var e := Extended(a, hp, n); u in e.cover && e.cover[u] == b
  {
  }

  lemma ExtendedHeads(a: Arena, hp: nat, n: nat)
    requires Heads(a.mem, a.list, a.live) && n > 0 && hp !in a.list && hp !in a.live
    ensures var e := Extended(a, hp, n); Heads(e.mem, e.list, e.live)
  {
    hide Units;
  }

  lemma ExtendedCovers(a: Arena, hp: nat, n: nat)
    requires Covers(a.mem, a.list, a.live, a.cover) && n > 0
    requires forall b: nat :: IsBlock(a.list, a.live, b) ==> b < hp && b in a.mem && b + a.mem[b].size <= hp
    ensures var e := Extended(a, hp, n); Covers(e.mem, e.list, e.live, e.cover) && hp !in a.list && hp !in a.live
  {
    hide Units;
    var e := Extended(a, hp, n);
    assert !IsBlock(a.list, a.live, hp);
    ExtendedHeads(a, hp, n);
    assert Inside(e.mem, e.list, e.live, e.cover) by {
      forall u: nat | u in e.cover ensures IsBlock(e.list, e.live, e.cover[u]) && e.cover[u] in e.mem &&
        e.cover[u] <= u < e.cover[u] + e.mem[e.cover[u]].size {
        ExtendedInside(a, hp, n, u);
      }
    }
    AllExtendedFills(a, hp, n);
  }

  lemma AllExtendedFills(a: Arena, hp: nat, n: nat)
    requires Fills(a.mem, a.list, a.live, a.cover) && n > 0 && hp !in a.list && hp !in a.live
    requires forall b: nat :: IsBlock(a.list, a.live, b) ==> b < hp && b in a.mem && b + a.mem[b].size <= hp
    ensures var e := Extended(a, hp, n); Fills(e.mem, e.list, e.live, e.cover)
  {
    hide Extended, IsBlock;
    var e := Extended(a, hp, n);
    forall b: nat, u: nat | IsBlock(e.list, e.live, b) && b in e.mem &&
      b <= u < b + e.mem[b].size ensures u in e.cover && e.cover[u] == b {
      ExtendedFills(a, hp, n, b, u);
    }
  }

  /** The heap before the first malloc becomes the ring of base alone. */
  lemma FirstRing(mem: Mem, base: nat)
    ensures Good(Arena(mem[base := Header(base, 0)], [base], map[], map[]), base)
  {
  }

  lemma PlaceOf(a: Arena, base: nat, p: nat) returns (i: nat)
    requires Weak(a, base) && p in a.list
    ensures i < |a.list| && a.list[i] == p
  {
    i :| 0 <= i < |a.list| && a.list[i] == p;
  }

  /** Every live block is where it was. */
  predicate LiveStay(a: Arena, b: Arena) {
    forall u ::
        u in a.cover && a.cover[u] in a.live && a.cover[u] in b.live ==> u in b.cover && b.cover[u] == a.cover[u]
  }

  /** The ring of base alone. */
  predicate NoRoom(a: Arena) {
    |a.list| == 1 && a.list[0] in a.mem && a.mem[a.list[0]].size == 0
  }

  lemma NoneFits(a: Arena, n: nat)
    requires NoRoom(a) && n > 0
    ensures !Fits(a, n)
  {
  }

  /** Neither the heap before the first malloc nor the ring it sets up has room for anything. */
  lemma NothingFits(a: Arena, b: Arena, base: nat, n: nat)
    requires n > 0 && a.list == [] && b.list == [base] && base in b.mem && b.mem[base].size == 0
    ensures !Fits(a, n) && !Fits(b, n)
  {
  }

  lemma FitsMore(a: Arena, n: nat, m: nat)
    requires Fits(a, n) && m <= n
    ensures Fits(a, m)
  {
  }

  lemma UnitsAbove(cover: map<nat, nat>, top: nat, hp: nat, n: nat)
    requires top <= hp && forall u :: u in cover ==> u < top
    ensures forall u :: u in cover + Units(hp, hp, n) ==> u < hp + n
  {
  }

  /** What is free after the new block was freed. */
  lemma ExtendedFree(a: Arena, hp: nat, n: nat, f: Arena)
    requires hp !in a.live && n > 0 && (forall u :: u in a.cover ==> a.cover[u] != hp && u < hp) && f.live == a.live
    requires forall u: nat :: FreeUnit(f, u) <==>
               FreeUnit(Extended(a, hp, n), u) || (u in Extended(a, hp, n).cover && Extended(a, hp, n).cover[u] == hp)
    requires LiveStay(Extended(a, hp, n), f) && f.cover.Keys == Extended(a, hp, n).cover.Keys
    ensures forall u: nat :: FreeUnit(f, u) <==> FreeUnit(a, u) || u in Units(hp, hp, n)
    ensures LiveStay(a, f) && f.cover.Keys == a.cover.Keys + Units(hp, hp, n).Keys
  {
  }

  lemma Listed(a: Arena, base: nat, j: nat)
    requires Weak(a, base) && j < |a.list|
    ensures a.list[j] in a.list && a.list[j] >= base
  {
    WeakDistinct(a, base);
  }

  lemma CoverBelow(a: Arena, base: nat, top: nat, hp: nat)
    requires Weak(a, base) && top <= hp && forall u :: u in a.cover ==> u < top
    ensures forall u :: u in a.cover ==> a.cover[u] != hp && u < hp
  {
    hide Order, Links;
  }

  /** A block of n units at bp has been taken from the free ones, and nothing else. */
  ghost predicate Taken(a: Arena, f: Arena, bp: nat, n: nat) {
    && bp !in a.live && f.live == a.live[bp := n] && f.cover.Keys == a.cover.Keys && LiveStay(a, f)
    && (forall u: nat :: bp <= u < bp + n ==> FreeUnit(a, u))
    && forall u: nat :: FreeUnit(f, u) <==> FreeUnit(a, u) && !(bp <= u < bp + n)
  }

  lemma UnlinkedTaken(a: Arena, base: nat, i: nat)
    requires Good(a, base) && i + 1 < |a.list|
    ensures a.list[i] in a.mem && a.list[i + 1] in a.mem && Taken(a, Unlinked(a, i), a.list[i + 1],
            a.mem[a.list[i + 1]].size)
  {
    hide Order, Links, Covers, MergedList, Apart;
    WeakDistinct(a, base);
    var p := a.list[i + 1];
    assert p in a.list;
    BlockUnits(a, base, p);
  }

  /** The units of a free block. */
  lemma BlockUnits(a: Arena, base: nat, p: nat)
    requires Weak(a, base) && p in a.list
    ensures p in a.mem && p !in a.live
    ensures forall u :: p <= u < p + a.mem[p].size ==> u in a.cover && a.cover[u] == p
    ensures forall u :: u in a.cover && a.cover[u] == p ==> p <= u < p + a.mem[p].size
    ensures forall u :: u in a.cover && a.cover[u] in a.live ==> !(p <= u < p + a.mem[p].size)
  {
    hide Order, Links;
    assert IsBlock(a.list, a.live, p);
    ListedInMem(a.mem, a.list, a.live, a.cover, p);
  }

  lemma SplitTaken(a: Arena, base: nat, i: nat, n: nat)
    requires Good(a, base) && 0 < i < |a.list| && a.list[i] in a.mem && 0 < n < a.mem[a.list[i]].size
    ensures Taken(a, Split(a, i, n), a.list[i] + (a.mem[a.list[i]].size - n), n)
  {
    hide Weak, Apart;
    var p := a.list[i];
    assert p in a.list;
    BlockUnits(a, base, p);
    NotAHead(a, base, p, p + (a.mem[p].size - n));
  }

  /** No block starts inside a free block. */
  lemma NotAHead(a: Arena, base: nat, p: nat, q: nat)
    requires Weak(a, base) && p in a.list && p in a.mem && p < q < p + a.mem[p].size
    ensures q !in a.live && forall u :: u in a.cover ==> a.cover[u] != q
  {
    hide Order, Links;
    NoHeadInside(a.mem, a.list, a.live, a.cover, p, q);
    forall u | u in a.cover ensures a.cover[u] != q {
      assert IsBlock(a.list, a.live, a.cover[u]);
    }
  }

  lemma TakenBelow(a: Arena, f: Arena, bp: nat, n: nat, top: nat)
    requires Taken(a, f, bp, n) && forall u :: u in a.cover ==> u < top
    ensures forall u :: u in f.cover ==> u < top
  {
  }

  /** The units of more have been added to the free ones, and nothing else changed. */
  ghost predicate Added(a: Arena, f: Arena, more: map<nat, nat>) {
    && f.live == a.live && f.cover.Keys == a.cover.Keys + more.Keys && LiveStay(a, f)
    && forall u: nat :: FreeUnit(f, u) <==> FreeUnit(a, u) || u in more
  }

  /** malloc's result: n units that were free or are new have become the block at bp. */
  ghost predicate Allocated(a: Arena, f: Arena, more: map<nat, nat>, bp: nat, n: nat) {
    && bp !in a.live && f.live == a.live[bp := n] && f.cover.Keys == a.cover.Keys + more.Keys && LiveStay(a, f)
    && (forall u: nat :: bp <= u < bp + n ==> FreeUnit(a, u) || u in more)
    && forall u: nat :: FreeUnit(f, u) <==> (FreeUnit(a, u) || u in more) && !(bp <= u < bp + n)
  }

  lemma TakenLive(a: Arena, f: Arena, bp: nat, n: nat)
    requires Taken(a, f, bp, n)
    ensures bp in f.live && f.live[bp] == n
  {
  }

  lemma AddedTaken(a: Arena, m: Arena, f: Arena, more: map<nat, nat>, bp: nat, n: nat)
    requires Added(a, m, more) && Taken(m, f, bp, n)
    ensures Allocated(a, f, more, bp, n)
  {
  }

  /** malloc has come round to freep. */
  lemma RoundOnce(a: Arena, base: nat, k: nat, i: nat)
    requires Weak(a, base) && k < |a.list| && i < |a.list| && a.list[i] in a.mem
    ensures a.mem[a.list[i]].ptr in a.mem && a.mem[a.list[i]].ptr == a.list[Step(i, |a.list|)]
    ensures a.mem[a.list[i]].ptr == a.list[k] <==> Step(i, |a.list|) == k
    ensures Step(i, |a.list|) != k ==> Remaining(Step(i, |a.list|), k, |a.list|) < Remaining(i, k, |a.list|)
  {
    hide Weak;
    WeakDistinct(a, base);
    LinkAt(a, base, i);
  }

  /** Blocks that malloc still looks at after position i, when freep is at k. */
  function Remaining(i: nat, k: nat, n: nat): nat
    requires i < n && k < n
  {
    if i < k then k - i else k - i + n
  }

  /** The units morecore asks for. */
  function Asked(nu: nat): nat {
    if nu < 4096 then 4096 else nu
  }

  /** The bytes of n units as the int that sbrk takes. */
  function SbrkArg(n: nat): int {
    var x := n * 16 % 0x1_0000_0000;
    if x < 0x8000_0000 then x else x - 0x1_0000_0000
  }

  /** A block has room for a header and the bytes asked for, and no unit to spare. */
  lemma RoomForBytes(nbytes: nat)
    ensures Holds(NUnits(nbytes), nbytes) && (NUnits(nbytes) > 1 ==> !Holds(NUnits(nbytes) - 1, nbytes))
  {
  }

  /** n units are a header and room for this many bytes. */
  predicate Holds(n: nat, nbytes: nat) {
    n > 0 && (n - 1) * 16 >= nbytes
  }

  /** sbrk is asked for what morecore goes on to use if and only if the request is at most 2^31 - 32 bytes;
      beyond that it is asked for less, and up to 2^32 - 32 for a negative number. */
  lemma SbrkAsked(nbytes: nat)
    requires nbytes < 0x1_0000_0000
    ensures SbrkArg(Asked(NUnits(nbytes))) == Asked(NUnits(nbytes)) * 16 <==> nbytes <= 0x8000_0000 - 32
    ensures nbytes > 0x8000_0000 - 32 ==> SbrkArg(Asked(NUnits(nbytes))) < Asked(NUnits(nbytes)) * 16
    ensures SbrkArg(Asked(NUnits(nbytes))) < 0 <==> 0x8000_0000 - 32 < nbytes <= 0x1_0000_0000 - 32
  {
    var u := NUnits(nbytes);
    assert 16 * (u - 2) < nbytes <= 16 * (u - 1);
    if u >= 0x1000_0000 {
      assert u * 16 - 0x1_0000_0000 < 0x8000_0000;
    }
  }

  /** What sbrk has added, if malloc called it. */
  function More(grew: bool, brk: nat, n: nat): map<nat, nat> {
    if grew then Units(brk, brk, Asked(n)) else map[]
  }

  /** The units malloc needs for nbytes: a header and the bytes, rounded up. */
  function NUnits(nbytes: nat): nat {
    (nbytes + 15) / 16 + 1
  }

  lemma AddedSame(a: Arena, f: Arena)
    requires f.live == a.live && f.cover == a.cover
    ensures Added(a, f, map[])
  {
  }

  lemma AddedMore(a: Arena, m: Arena, f: Arena, grew: bool, brk: nat, n: nat, more: map<nat, nat>)
    requires Added(a, m, More(grew, brk, n)) && !grew && Added(m, f, more)
    ensures Added(a, f, more)
  {
  }

  lemma AddedUnits(m: Arena, f: Arena, more: map<nat, nat>)
    requires f.live == m.live && LiveStay(m, f) && f.cover.Keys == m.cover.Keys + more.Keys
    requires forall u: nat :: FreeUnit(f, u) <==> FreeUnit(m, u) || u in more
    ensures Added(m, f, more)
  {
  }

  // ---- what the invariant means

  /** Live blocks never overlap. */
  lemma LiveDisjoint(a: Arena, base: nat, b: nat, c: nat)
    requires Good(a, base) && b in a.live && c in a.live && b != c
    ensures b + a.live[b] <= c || c + a.live[c] <= b
  {
    hide Order, Links, Apart;
    assert IsBlock(a.list, a.live, b) && IsBlock(a.list, a.live, c);
    assert b in a.cover && a.cover[b] == b && c in a.cover && a.cover[c] == c;
  }

  /** A unit obtained from the system is in exactly one block, which is live or on the free list, and no
      other unit is in one. */
  lemma EachUnitOnce(a: Arena, base: nat, u: nat)
    requires Good(a, base)
    ensures u in a.cover <==> exists b: nat :: IsBlock(a.list, a.live, b) && b in a.mem && b <= u < b + a.mem[b].size
    ensures forall b: nat, c: nat :: InBlock(a, b, u) && InBlock(a, c, u) ==> b == c
    ensures FreeUnit(a, u) <==> exists i :: 0 < i < |a.list| && InBlock(a, a.list[i], u)
  {
    hide Order, Links, Apart;
    WeakDistinct(a, base);
    BaseEmpty(a, base);
    if u in a.cover {
      assert InBlock(a, a.cover[u], u);
    }
    if FreeUnit(a, u) {
      var i :| 0 <= i < |a.list| && a.list[i] == a.cover[u];
      assert i > 0 && InBlock(a, a.list[i], u);
    }
    forall i | 0 < i < |a.list| && InBlock(a, a.list[i], u) ensures FreeUnit(a, u) {
      ListedNotLive(a, base, i);
    }
  }

  predicate InBlock(a: Arena, b: nat, u: nat) {
    IsBlock(a.list, a.live, b) && b in a.mem && b <= u < b + a.mem[b].size
  }

  /** The block at p, after the one at position i, gives away its last n units. */
  lemma SplitHere(a: Arena, base: nat, i: nat, p: nat, n: nat, top: nat)
    requires Good(a, base) && i < |a.list| && a.list[i] in a.mem && a.mem[a.list[i]].ptr == p && base > 0
    requires p in a.mem && a.mem[p].size > n > 0 && forall u :: u in a.cover ==> u < top
    ensures i + 1 < |a.list| && p == a.list[i + 1] && a.list[i] != 0
    ensures var f := Split(a, i + 1, n);
            Good(f, base) && Taken(a, f, p + (a.mem[p].size - n), n) && forall u :: u in f.cover ==> u < top
  {
    hide Order, Links, Covers, Apart, Taken, Split;
    LinkAt(a, base, i);
    BaseEmpty(a, base);
    WeakDistinct(a, base);
    SplitGood(a, base, i + 1, n);
    SplitTaken(a, base, i + 1, n);
    Listed(a, base, i);
    TakenBelow(a, Split(a, i + 1, n), p + (a.mem[p].size - n), n, top);
  }

  class Heap {
    const base: nat
    var mem: Mem
    var freep: nat
    ghost var list: seq<nat>
    ghost var live: map<nat, nat>
    ghost var cover: map<nat, nat>
    ghost var top: nat

    ghost function Now(): Arena
      reads this
    {
      Arena(mem, list, live, cover)
    }

    constructor (b: nat)
      requires b > 0
      ensures Valid() && base == b && list == [] && live == map[] && cover == map[] && top == b + 1
    {
      base := b;
      mem, freep := map[], 0;
      list, live, cover, top := [], map[], map[], b + 1;
    }

    /** The data segment, and so base, lies below the heap; freep is null until the first malloc. */
    ghost predicate Valid()
      reads this
    {
      && 0 < base < top && (forall u :: u in cover ==> u < top)
      && if freep == 0 then list == [] && live == map[] && cover == map[] else Good(Now(), base) && freep in list
    }

    /** free: the block goes back to the ring, joined to its free neighbours. */
    method Free(ap: nat)
      requires Valid() && ap > 0 && ap - 1 in live
      modifies this
      ensures Valid() && freep != 0 && live == old(live) - {ap - 1} && cover.Keys == old(cover).Keys && top == old(top)
      ensures forall u: nat :: FreeUnit(Now(), u) <==>
                FreeUnit(old(Now()), u) || (u in old(cover) && old(cover)[u] == ap - 1)
      ensures LiveStay(old(Now()), Now())
      ensures Fits(Now(), old(live)[ap - 1])
      ensures Precedes(old(list), freep, ap - 1)
    {
      hide Order, Links, Covers, Apart, Freed, FreedMem, FreeUnit, LiveStay, Fits;
      ghost var a := Now();
      var bp := ap - 1;
      ghost var j: nat := Place(a, base, bp);
      ghost var i: nat := PlaceOf(a, base, freep);
      ScanStops(a, base, i, j, bp);
      var p := freep;
      while !(bp > p && bp < mem[p].ptr)
        invariant Now() == a && top == old(top) && i < |list| && p == list[i] && p in mem
        invariant i == j <==> (bp > p && bp < mem[p].ptr) || (p >= mem[p].ptr && (bp > p || bp < mem[p].ptr))
        decreases Steps(i, j, |list|)
      {
        if p >= mem[p].ptr && (bp > p || bp < mem[p].ptr) { break; }
        ScanStops(a, base, i, j, bp);
        p := mem[p].ptr;
        i := Step(i, |list|);
        ScanStops(a, base, i, j, bp);
      }
      FreedGood(a, base, j, bp);
      FreedIs(a, base, j, bp);
      LiveSize(mem, list, live, cover, bp);
      FreedFits(a, base, j, bp, mem[bp].size);
      Splice(p, bp);
      ghost var f := Freed(a, j, bp);
      list, live, cover := f.list, f.live, f.cover;
      assert Now() == f;
      freep := p;
      Listed(f, base, j);
      PositionPrecedes(a, base, j, bp);
    }

    /** The end of free: joining bp to its neighbours. */
    method Splice(p: nat, bp: nat)
      requires p in mem && bp in mem && mem[p].ptr in mem
      modifies this`mem
      ensures mem == FreedMem(old(mem), p, bp)
    {
      if bp + mem[bp].size == mem[p].ptr {
        mem := mem[bp := mem[bp].(size := mem[bp].size + mem[mem[p].ptr].size)];
        mem := mem[bp := mem[bp].(ptr := mem[mem[p].ptr].ptr)];
      } else {
        mem := mem[bp := mem[bp].(ptr := mem[p].ptr)];
      }
      if p + mem[p].size == bp {
        mem := mem[p := mem[p].(size := mem[p].size + mem[bp].size)];
        mem := mem[p := mem[p].(ptr := mem[bp].ptr)];
      } else {
        mem := mem[p := mem[p].(ptr := bp)];
      }
    }

    /** morecore: at least 4096 units more, which sbrk puts above everything obtained before; brk == 0 is
        its failure.  When the int that sbrk takes cannot hold the size, sbrk gives less than morecore
        asked for: the method ends there, as short. */
    method Morecore(nu: nat, brk: nat) returns (r: nat, short: bool)
      requires Valid() && freep != 0 && nu > 0 && (brk == 0 || brk >= top)
      modifies this
      ensures Valid() && freep != 0 && (r == 0 <==> brk == 0 || short)
      ensures short <==> brk != 0 && SbrkArg(Asked(nu)) != Asked(nu) * 16
      ensures if r == 0 then Now() == old(Now()) && freep == old(freep) && top == old(top)
              else r == freep && Fits(Now(), nu) && Added(old(Now()), Now(), Units(brk, brk, Asked(nu))) &&
                   top == brk + Asked(nu)
    {
      hide Order, Links, Covers, Apart, Units, Weak, FreeUnit, LiveStay, Fits;
      if brk == 0 { return 0, false; }
      var n := Asked(nu);
      if SbrkArg(n) != n * 16 { return 0, true; }
      ghost var a := Now();
      ExtendedGood(a, base, top, brk, n);
      UnitsAbove(a.cover, top, brk, n);
      CoverBelow(a, base, top, brk);
      mem := mem[brk := Header(if brk in mem then mem[brk].ptr else 0, n)];
      live, cover := live[brk := n], cover + Units(brk, brk, n);
      top := brk + n;
      ghost var e := Now();
      assert e == Extended(a, brk, n);
      Free(brk + 1);
      assert live == a.live;
      ExtendedFree(a, brk, n, Now());
      AddedUnits(a, Now(), Units(brk, brk, n));
      FitsMore(Now(), n, nu);
      return freep, false;
    }

    /** The fitting branch of malloc's loop: the block at p, or its tail, leaves the free list. */
    method Take(prevp: nat, p: nat, nunits: nat, ghost i: nat) returns (bp: nat)
      requires Valid() && freep != 0 && nunits > 0 && i < |list| && prevp == list[i] && prevp in mem &&
               mem[prevp].ptr == p
      requires p in mem && mem[p].size >= nunits
      modifies this
      ensures Valid() && freep != 0 && Taken(old(Now()), Now(), bp, nunits) && top == old(top)
      ensures freep == prevp && bp == p + (old(mem)[p].size - nunits)
    {
      hide Good, Taken;
      if mem[p].size == nunits {
        TakeWhole(prevp, p, i);
        bp := p;
      } else {
        bp := TakeTail(prevp, p, nunits, i);
      }
    }

    /** A block of the exact size is unlinked. */
    method TakeWhole(prevp: nat, p: nat, ghost i: nat)
      requires Valid() && freep != 0 && i < |list| && prevp == list[i] && prevp in mem && mem[prevp].ptr == p
      requires p in mem && mem[p].size > 0
      modifies this
      ensures Valid() && freep == prevp && freep != 0 && Taken(old(Now()), Now(), p, old(mem)[p].size) &&
              top == old(top)
    {
      hide Order, Links, Covers, Apart, MergedList, Taken, FreeUnit, LiveStay;
      ghost var a, n := Now(), mem[p].size;
      LinkAt(a, base, i);
      BaseEmpty(a, base);
      WeakDistinct(a, base);
      UnlinkedGood(a, base, i);
      UnlinkedTaken(a, base, i);
      mem := mem[prevp := mem[prevp].(ptr := mem[p].ptr)];
      ghost var f := Unlinked(a, i);
      list, live, cover := f.list, f.live, f.cover;
      assert Now() == f;
      MergedAt(a.list, i, i);
      MergedLength(a.list, i);
      Listed(f, base, i);
      TakenBelow(a, f, p, n, top);
      freep := prevp;
    }

    /** A larger block keeps its front. */
    method TakeTail(prevp: nat, p: nat, nunits: nat, ghost i: nat) returns (bp: nat)
      requires Valid() && freep != 0 && nunits > 0 && i < |list| && prevp == list[i] && prevp in mem &&
               mem[prevp].ptr == p
      requires p in mem && mem[p].size > nunits
      modifies this
      ensures Valid() && freep != 0 && Taken(old(Now()), Now(), bp, nunits) && top == old(top)
      ensures freep == prevp && bp == p + (old(mem)[p].size - nunits)
    {
      hide Good, Taken;
      ghost var a := Now();
      SplitHere(a, base, i, p, nunits, top);
      bp := p + (mem[p].size - nunits);
      mem := mem[p := mem[p].(size := mem[p].size - nunits)];
      mem := mem[bp := Header(if bp in mem then mem[bp].ptr else 0, nunits)];
      ghost var f := Split(a, i + 1, nunits);
      live, cover := f.live, f.cover;
      assert Now() == f;
      freep := prevp;
    }

    /** malloc's first call sets up the ring. */
    method Init()
      requires Valid()
      modifies this
      ensures Valid() && freep != 0 && live == old(live) && cover == old(cover) && top == old(top)
      ensures if old(freep) != 0 then Now() == old(Now()) && freep == old(freep) else NoRoom(Now())
      ensures forall n :: n > 0 ==> (Fits(old(Now()), n) <==> Fits(Now(), n))
    {
      hide Good, Fits;
      if freep == 0 {
        ghost var a := Now();
        FirstRing(mem, base);
        mem := mem[base := Header(base, 0)];
        freep := base;
        list := [base];
        forall n: nat | n > 0 ensures !Fits(a, n) && !Fits(Now(), n) { NothingFits(a, Now(), base, n); }
      }
    }

    /** malloc's loop is at the block p after prevp, freep being at position k. */
    ghost predicate At(prevp: nat, p: nat, i: nat, k: nat)
      reads this
    {
      && freep != 0 && k < |list| && freep == list[k] && i < |list| && prevp == list[i] && prevp in mem
      && p in mem && mem[prevp].ptr == p && p == list[Step(i, |list|)]
    }

    /** Start the scan after freep. */
    method Start(nunits: nat) returns (prevp: nat, p: nat, ghost k: nat)
      requires Valid() && freep != 0
      ensures At(prevp, p, k, k) && Small(Now(), k, k, nunits) && prevp == freep
    {
      hide Order, Links, Covers, Apart;
      k := PlaceOf(Now(), base, freep);
      LinkAt(Now(), base, k);
      WeakDistinct(Now(), base);
      prevp := freep;
      p := mem[prevp].ptr;
    }

    /** On to the next block; the one just seen was too small and not at freep. */
    method Onward(prevp: nat, p: nat, nunits: nat, ghost i: nat, ghost k: nat) returns (p': nat, ghost j: nat)
      requires Valid() && At(prevp, p, i, k) && Small(Now(), k, i, nunits) && mem[p].size < nunits && p != freep
      ensures At(p, p', j, k) && Small(Now(), k, j, nunits) && i < |list| && j < |list| && k < |list| &&
              Remaining(j, k, |list|) < Remaining(i, k, |list|)
    {
      hide Order, Links, Covers, Apart, Small;
      RoundOnce(Now(), base, k, i);
      SmallStep(Now(), k, i, nunits);
      j := Step(i, |list|);
      LinkAt(Now(), base, j);
      WeakDistinct(Now(), base);
      p' := mem[p].ptr;
    }

    lemma FoundFits(prevp: nat, p: nat, nunits: nat, i: nat, k: nat)
      requires At(prevp, p, i, k) && mem[p].size >= nunits
      ensures Fits(Now(), nunits)
    {
    }

    /** Back at freep: no block fits. */
    lemma CameRound(prevp: nat, p: nat, nunits: nat, i: nat, k: nat)
      requires Valid() && At(prevp, p, i, k) && Small(Now(), k, i, nunits) && mem[p].size < nunits && p == freep
      ensures !Fits(Now(), nunits)
    {
      hide Order, Links, Covers, Apart, Small, Fits;
      RoundOnce(Now(), base, k, i);
      SmallStep(Now(), k, i, nunits);
    }

    /** malloc: a block with room for nbytes, calling sbrk only when no free block is large enough, and
        at most once; 0 only when sbrk fails.  It is short if and only if no free block is large enough,
        sbrk does not fail and the request is above 2^31 - 32 bytes. */
    method Malloc(nbytes: nat, brk: nat) returns (r: nat, short: bool, ghost grew: bool)
      requires Valid() && (brk == 0 || brk >= top) && nbytes < 0x1_0000_0000
      modifies this
      ensures Valid() && top == if grew then brk + Asked(NUnits(nbytes)) else old(top)
      ensures grew ==> brk != 0
      ensures grew || r == 0 <==> !Fits(old(Now()), NUnits(nbytes))
      ensures r == 0 <==> !Fits(old(Now()), NUnits(nbytes)) && (brk == 0 || nbytes > 0x8000_0000 - 32)
      ensures short <==> r == 0 && brk != 0
      ensures r != 0 ==> r - 1 in live && Holds(live[r - 1], nbytes)
      ensures r != 0 && !grew ==>
                exists k, i :: 0 <= k < |old(list)| && 0 <= i < |old(list)| && old(list)[k] == old(freep) &&
                  old(list)[i] == freep && NextFit(old(Now()), k, i, NUnits(nbytes), r - 1)
      ensures if r == 0 then Added(old(Now()), Now(), map[]) && !grew
              else Allocated(old(Now()), Now(), More(grew, brk, NUnits(nbytes)), r - 1, NUnits(nbytes))
    {
      hide Good, Small, Fits, Added, Taken, Allocated, Units, Step, SbrkArg, Asked, Holds;
      SbrkAsked(nbytes);
      RoomForBytes(nbytes);
      var nunits := (nbytes + 15) / 16 + 1;
      Init();
      if old(freep) == 0 {
        NoneFits(Now(), nunits);
      }
      AddedSame(old(Now()), Now());
      grew := false;
      ghost var i: nat, k: nat;
      var prevp: nat, p: nat;
      prevp, p, k := Start(nunits);
      i := k;
      while true
        invariant Valid() && At(prevp, p, i, k) && Small(Now(), k, i, nunits) && i < |list| && k < |list|
        invariant Added(old(Now()), Now(), More(grew, brk, nunits))
        invariant !grew && Fits(Now(), nunits) ==> Now() == old(Now()) && freep == old(freep)
        invariant if grew then Fits(Now(), nunits) && brk != 0 && nbytes <= 0x8000_0000 - 32 else top == old(top)
        invariant grew ==> top == brk + Asked(nunits)
        invariant if grew then !Fits(old(Now()), nunits) else Fits(old(Now()), nunits) <==> Fits(Now(), nunits)
        decreases !grew, Remaining(i, k, |list|)
      {
        if mem[p].size >= nunits {
          ghost var a := Now();
          FoundFits(prevp, p, nunits, i, k);
          assert NextFit(Now(), k, i, nunits, p + (mem[p].size - nunits));
          var bp := Take(prevp, p, nunits, i);
          AddedTaken(old(Now()), a, Now(), More(grew, brk, nunits), bp, nunits);
          TakenLive(a, Now(), bp, nunits);
          return bp + 1, false, grew;
        }
        if p == freep {
          CameRound(prevp, p, nunits, i, k);
          ghost var a := Now();
          p, short := Morecore(nunits, brk);
          if p == 0 { return 0, short, false; }
          AddedMore(old(Now()), a, Now(), grew, brk, nunits, Units(brk, brk, Asked(nunits)));
          grew := true;
          prevp, p, k := Start(nunits);
          i := k;
        } else {
          var next;
          next, i := Onward(prevp, p, nunits, i, k);
          prevp, p := p, next;
        }
      }
    }
  }

  /** A run: the first request of a program is for 2^31 - 31 bytes, sbrk is asked for -2^31 and does not fail. */
  method LargeRequest(base: nat, brk: nat) returns (h: Heap, r: nat, short: bool)
    requires 0 < base < brk
    ensures r == 0 && short && SbrkArg(Asked(NUnits(0x8000_0000 - 31))) == -0x8000_0000
  {
    hide Good, Added, Allocated;
    h := new Heap(base);
    ghost var grew;
    r, short, grew := h.Malloc(0x8000_0000 - 31, brk);
  }
}
