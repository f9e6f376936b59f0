/**
  * The page allocator (kernel/kalloc.c) and the virtual memory system on top of it (kernel/vm.c):
  * page tables built, searched, copied and freed in place in physical memory.  The ghost field
  * owner names the one place each frame is in.
  */
module Vm {
  import opened PageTables

  function Filled(word: nat): (page: Page)
    ensures forall k :: 0 <= k < 512 ==> page[k] == word
  {
    seq(512, _ => word)
  }

  const JUNK_FREED := 0x0101010101010101
  const JUNK_TAKEN := 0x0505050505050505

  /** The address of a frame, as a word. */
  function Address(f: nat): nat {
    f * PGSIZE
  }

  function FrameAt(word: nat): nat {
    word / PGSIZE
  }

  lemma AddressOf(f: nat)
    ensures FrameAt(Address(f)) == f
  {
  }

  /** The frame at position i of the free list, or 0 at its end. */
  function At(free: seq<nat>, i: nat): nat {
    if i < |free| then free[i] else 0
  }

  /** Each frame of the list holds the address of the next. */
  predicate Chained(mem: Mem, free: seq<nat>) {
    forall i :: 0 <= i < |free| ==> free[i] in mem && mem[free[i]][0] == Address(At(free, i + 1))
  }

  /** The list holds every free frame, once. */
  ghost predicate Lists(owner: Owner, free: seq<nat>) {
    && (forall i :: 0 <= i < |free| ==> free[i] in owner && owner[free[i]] == Free)
    && (forall i, j :: 0 <= i < j < |free| ==> free[i] != free[j])
    && (forall f :: f in owner && owner[f] == Free ==> f in free)
  }

  /** The list that starts at head and runs through the first word of each free frame is free. */
  ghost predicate FreeList(mem: Mem, owner: Owner, head: nat, free: seq<nat>) {
    head == At(free, 0) && Chained(mem, free) && Lists(owner, free)
  }

  lemma PoppedChain(mem: Mem, free: seq<nat>, page: Page)
    requires Chained(mem, free) && free != [] && forall i :: 0 < i < |free| ==> free[i] != free[0]
    ensures Chained(mem[free[0] := page], free[1..])
  {
    hide Address;
    var rest := free[1..];
    forall i | 0 <= i < |rest| ensures rest[i] in mem && rest[i] != free[0] &&
      mem[rest[i]][0] == Address(At(rest, i + 1)) {
      assert rest[i] == free[i + 1] && At(rest, i + 1) == At(free, i + 2);
    }
  }

  lemma PoppedLists(owner: Owner, free: seq<nat>)
    requires Lists(owner, free) && free != []
    ensures Lists(owner[free[0] := Held], free[1..])
  {
    var rest := free[1..];
    forall f | f in owner && f != free[0] && owner[f] == Free ensures f in rest {
      var i :| 0 <= i < |free| && free[i] == f;
      assert rest[i - 1] == f;
    }
  }

  lemma Popped(mem: Mem, owner: Owner, head: nat, free: seq<nat>, page: Page)
    requires FreeList(mem, owner, head, free) && head != 0
    ensures free != [] && head == free[0] && head in mem && head in owner && owner[head] == Free &&
            FrameAt(mem[head][0]) == At(free[1..], 0)
    ensures FreeList(mem[head := page], owner[head := Held], At(free[1..], 0), free[1..])
  {
    hide Address, FrameAt;
    AddressOf(At(free, 1));
    PoppedChain(mem, free, page);
    PoppedLists(owner, free);
  }

  lemma PushedChain(mem: Mem, free: seq<nat>, f: nat, page: Page)
    requires Chained(mem, free) && f !in free && page[0] == Address(At(free, 0))
    ensures Chained(mem[f := page], [f] + free)
  {
    hide Address;
    var more := [f] + free;
    forall i | 0 < i < |more| ensures more[i] in mem && more[i] != f && mem[more[i]][0] == Address(At(more, i + 1)) {
      assert more[i] == free[i - 1] && At(more, i + 1) == At(free, i);
    }
    assert more[0] == f && At(more, 1) == At(free, 0);
  }

  lemma PushedLists(owner: Owner, free: seq<nat>, f: nat)
    requires Lists(owner, free) && f in owner && owner[f] != Free
    ensures Lists(owner[f := Free], [f] + free)
  {
    var more := [f] + free;
    forall g | g in owner && owner[g] == Free ensures g in more {
      assert g in free;
    }
    assert more[0] == f;
  }

  lemma Pushed(mem: Mem, owner: Owner, head: nat, free: seq<nat>, f: nat, page: Page)
    requires FreeList(mem, owner, head, free) && f in owner && owner[f] != Free && page[0] == Address(head)
    ensures FreeList(mem[f := page], owner[f := Free], f, [f] + free)
  {
    hide Address, Chained;
    PushedChain(mem, free, f, page);
    PushedLists(owner, free, f);
  }

  lemma FreeListKept(mem: Mem, owner: Owner, head: nat, free: seq<nat>, mem': Mem, owner': Owner)
    requires FreeList(mem, owner, head, free) && owner'.Keys == owner.Keys
    requires forall f :: f in owner ==> (owner'[f] == Free <==> owner[f] == Free)
    requires forall f :: f in owner && owner[f] == Free && f in mem ==> f in mem' && mem'[f] == mem[f]
    ensures FreeList(mem', owner', head, free)
  {
    hide Address;
  }

  /** The list is empty exactly when its head is null. */
  lemma NullHead(mem: Mem, owner: Owner, head: nat, free: seq<nat>)
    requires FreeList(mem, owner, head, free) && 0 !in mem
    ensures head == 0 <==> free == []
  {
    hide Address;
    if free != [] {
      assert free[0] in mem;
    }
  }

  /** Table pages of root may have been taken from the free list; no mapping and no data changed. */
  ghost predicate Quiet(mem: Mem, owner: Owner, mem': Mem, owner': Owner, root: nat) {
    && owner'.Keys == owner.Keys == mem.Keys == mem'.Keys
    && (forall f ::
           f in owner ==>
             owner'[f] == owner[f] || (owner[f] == Free && (owner'[f].Mid? || owner'[f].Low?) &&
             owner'[f].root == root))
    && SameData(mem, owner, mem')
    && (forall x, w: nat :: IsRoot(owner, x) ==> Lookup(mem', x, w) == Lookup(mem, x, w))
  }

  lemma QuietTransitive(m0: Mem, o0: Owner, m1: Mem, o1: Owner, m2: Mem, o2: Owner, root: nat)
    requires Quiet(m0, o0, m1, o1, root) && Quiet(m1, o1, m2, o2, root)
    ensures Quiet(m0, o0, m2, o2, root)
  {
    hide Lookup;
  }

  lemma QuietReflexive(mem: Mem, owner: Owner, root: nat)
    requires mem.Keys == owner.Keys
    ensures Quiet(mem, owner, mem, owner, root)
  {
    hide Lookup;
  }

  lemma TreesFrames(mem: Mem, owner: Owner)
    requires Trees(mem, owner, 0, 0)
    ensures mem.Keys == owner.Keys && 0 !in mem && 0 !in owner
  {
    hide Node;
  }

  /** The table reached at a level of the walk for page v. */
  predicate Reached(owner: Owner, root: nat, v: nat, level: nat, t: nat) {
    && t in owner
    && (level == 2 ==> t == root)
    && (level == 1 ==> owner[t] == Mid(root, Idx2(v)))
    && (level == 0 ==> owner[t] == Low(root, Idx2(v), Idx1(v)))
  }

  function Px(level: nat, v: nat): nat {
    if level == 2 then Idx2(v) else if level == 1 then Idx1(v) else Idx0(v)
  }

  lemma PxRange(level: nat, v: nat)
    requires v < MAXPAGE
    ensures Px(level, v) < 512
  {
  }

  /** Following a valid entry. */
  lemma Descend(mem: Mem, owner: Owner, root: nat, v: nat, level: nat, t: nat)
    requires Trees(mem, owner, 0, 0) && root in owner && owner[root] == Root && v < MAXPAGE && 1 <= level <= 2 &&
             Reached(owner, root, v, level, t)
    ensures t in mem && Px(level, v) < 512
    ensures var pte := mem[t][Px(level, v)];
            if V(pte) then Reached(owner, root, v, level - 1, Ppn(pte)) else pte == 0 && Lookup(mem, root, v) == 0
  {
    PxRange(level, v);
    hide V, Ppn, Idx2, Idx1, Idx0, IsLeaf, Vpn;
    Path(mem, owner, 0, 0, root, v);
    assert Node(mem, owner, t, 0, 0);
    ZeroInvalid();
  }

  /** At the bottom of the walk is the entry that Lookup reads. */
  lemma Bottom(mem: Mem, owner: Owner, root: nat, v: nat, t: nat)
    requires Trees(mem, owner, 0, 0) && Reached(owner, root, v, 0, t)
    ensures t in mem && mem[t][Idx0(v)] == Lookup(mem, root, v)
  {
    hide V, Ppn, Idx2, Idx1, Idx0, IsLeaf, Vpn;
    assert Node(mem, owner, t, 0, 0);
  }

  /** The use of the table that an entry at this level leads to. */
  function Below(root: nat, v: nat, level: nat): Use {
    if level == 2 then Mid(root, Idx2(v)) else Low(root, Idx2(v), Idx1(v))
  }

  /** A new table page: zeroed, and entered in the table above it. */
  function Grown(mem: Mem, t: nat, i: nat, n: nat): Mem
    requires t in mem && i < 512
  {
    mem[n := Filled(0)][t := mem[t][i := MakePte(n, 0)]]
  }

  lemma GrownTrees(mem: Mem, owner: Owner, root: nat, v: nat, level: nat, t: nat, n: nat)
    requires Trees(mem, owner, 0, 0) && root in owner && owner[root] == Root && v < MAXPAGE && 1 <= level <= 2 &&
             Reached(owner, root, v, level, t)
    requires t in mem && Px(level, v) < 512 && mem[t][Px(level, v)] == 0 && n in owner && owner[n] == Free
    ensures Trees(Grown(mem, t, Px(level, v), n), owner[n := Below(root, v, level)], 0, 0)
  {
    hide Trees, Filled, MakePte, Idx2, Idx1;
    var m1, o1 := mem[n := Filled(0)], owner[n := Held];
    Outside(mem, owner, 0, 0, n, Filled(0), Held);
    assert o1[n := Below(root, v, level)] == owner[n := Below(root, v, level)];
    if level == 2 {
      AttachMid(m1, o1, root, Idx2(v), n);
    } else {
      AttachLow(m1, o1, root, Idx2(v), Idx1(v), t, n);
    }
  }

  lemma GrownLookup(mem: Mem, owner: Owner, root: nat, v: nat, level: nat, t: nat, n: nat, x: nat, w: nat)
    requires Trees(mem, owner, 0, 0) && root in owner && owner[root] == Root && v < MAXPAGE && 1 <= level <= 2 &&
             Reached(owner, root, v, level, t)
    requires t in mem && Px(level, v) < 512 && mem[t][Px(level, v)] == 0 && n in owner && owner[n] == Free &&
             x in owner && owner[x] == Root
    ensures Lookup(Grown(mem, t, Px(level, v), n), x, w) == Lookup(mem, x, w)
  {
    hide Trees, Filled, MakePte, Idx2, Idx1, Lookup;
    var m1, o1 := mem[n := Filled(0)], owner[n := Held];
    TreesFrames(mem, owner);
    Outside(mem, owner, 0, 0, n, Filled(0), Held);
    TreesFrames(m1, o1);
    OutsideLookup(mem, owner, 0, 0, n, Filled(0), x, w);
    if level == 2 {
      AttachMidLookup(m1, o1, root, Idx2(v), n, x, w);
    } else {
      AttachLowLookup(m1, o1, root, Idx2(v), Idx1(v), t, n, x, w);
    }
  }

  lemma GrownQuiet(mem: Mem, owner: Owner, root: nat, v: nat, level: nat, t: nat, n: nat)
    requires Trees(mem, owner, 0, 0) && root in owner && owner[root] == Root && v < MAXPAGE && 1 <= level <= 2 &&
             Reached(owner, root, v, level, t)
    requires t in mem && Px(level, v) < 512 && mem[t][Px(level, v)] == 0 && n in owner && owner[n] == Free
    ensures Quiet(mem, owner, Grown(mem, t, Px(level, v), n), owner[n := Below(root, v, level)], root)
    ensures Reached(owner[n := Below(root, v, level)], root, v, level - 1, n)
  {
    hide Node, Filled, MakePte, Idx2, Idx1, Lookup;
    forall x, w: nat | IsRoot(owner, x) ensures Lookup(Grown(mem, t, Px(level, v), n), x, w) == Lookup(mem, x, w) {
      GrownLookup(mem, owner, root, v, level, t, n, x, w);
    }
  }

  ghost predicate IsRoot(owner: Owner, root: nat) {
    root in owner && owner[root] == Root
  }

  // ---- entering and removing leaves

  /** done pages from v are mapped to consecutive frames from ppn; besides, only table pages of root were taken. */
  ghost predicate Entered(
    mem: Mem, owner: Owner, mem': Mem, owner': Owner, root: nat, v: nat, done: nat, ppn: nat, perm: nat)
    requires perm < 1024
  {
    && owner'.Keys == owner.Keys == mem.Keys == mem'.Keys
    && EnteredUses(owner, owner', root, v, done, ppn)
    && SameData(mem, owner, mem')
    && EnteredMap(mem, owner, mem', root, v, done, ppn, perm)
  }

  predicate EnteredUses(owner: Owner, owner': Owner, root: nat, v: nat, done: nat, ppn: nat) {
    forall f :: f in owner && f in owner' ==>
      if owner[f] == Held && ppn <= f < ppn + done && v + (f - ppn) < TRAPFRAME then
        owner'[f] == User(root, v + (f - ppn))
      else owner'[f] == owner[f] || (owner[f] == Free && (owner'[f].Mid? || owner'[f].Low?) && owner'[f].root == root)
  }

  predicate SameData(mem: Mem, owner: Owner, mem': Mem) {
    forall f :: f in owner && f in mem && f in mem' && (owner[f].User? || owner[f] == Held) ==> mem'[f] == mem[f]
  }

  ghost predicate EnteredMap(mem: Mem, owner: Owner, mem': Mem, root: nat, v: nat, done: nat, ppn: nat, perm: nat)
    requires perm < 1024
  {
    forall x, w: nat :: IsRoot(owner, x) ==>
      Lookup(mem', x, w) == if x == root && v <= w < v + done then MakePte(ppn + (w - v), perm) else Lookup(mem, x, w)
  }

  lemma EnteredNone(mem: Mem, owner: Owner, root: nat, v: nat, ppn: nat, perm: nat)
    requires perm < 1024 && mem.Keys == owner.Keys
    ensures Entered(mem, owner, mem, owner, root, v, 0, ppn, perm)
  {
    hide Lookup, MakePte;
  }

  lemma EnteredQuiet(
    m0: Mem, o0: Owner, m1: Mem, o1: Owner, m2: Mem, o2: Owner, root: nat, v: nat, done: nat, ppn: nat, perm: nat)
    requires perm < 1024 && Entered(m0, o0, m1, o1, root, v, done, ppn, perm) && Quiet(m1, o1, m2, o2, root)
    ensures Entered(m0, o0, m2, o2, root, v, done, ppn, perm)
  {
    hide Lookup, MakePte, EnteredMap;
    EnteredQuietMap(m0, o0, m1, o1, m2, o2, root, v, done, ppn, perm);
  }

  lemma EnteredQuietMap(
    m0: Mem, o0: Owner, m1: Mem, o1: Owner, m2: Mem, o2: Owner, root: nat, v: nat, done: nat, ppn: nat, perm: nat)
    requires perm < 1024 && Entered(m0, o0, m1, o1, root, v, done, ppn, perm) && Quiet(m1, o1, m2, o2, root)
    ensures EnteredMap(m0, o0, m2, root, v, done, ppn, perm)
  {
    hide Lookup, MakePte, SameData;
    forall x, w: nat | IsRoot(o0, x)
      ensures Lookup(m2, x, w) == if x == root && v <= w < v + done then MakePte(ppn + (w - v), perm)
              else Lookup(m0, x, w)
    {
      assert IsRoot(o1, x);
    }
  }

  /** One leaf, entered. */
  function WithLeaf(mem: Mem, t: nat, v: nat, pte: nat): Mem
    requires t in mem
  {
    mem[t := mem[t][Idx0(v) := pte]]
  }

  lemma EnteredOne(m0: Mem, o0: Owner, m1: Mem, o1: Owner, root: nat, v: nat, done: nat, ppn: nat, perm: nat, t: nat)
    requires perm < 1024 && IsLeaf(perm) && Entered(m0, o0, m1, o1, root, v, done, ppn, perm) && Trees(m1, o1, 0, 0)
    requires Reached(o1, root, v + done, 0, t) && t in m1 && m1[t][Idx0(v + done)] == 0 && IsRoot(o0, root)
    requires v + done < TRAPFRAME ==> ppn + done in o1 && o0[ppn + done] == Held
    ensures var m2 := WithLeaf(m1, t, v + done, MakePte(ppn + done, perm));
            var o2 := Mapped(o1, root, v + done, ppn + done);
            Trees(m2, o2, 0, 0) && Entered(m0, o0, m2, o2, root, v, done + 1, ppn, perm)
  {
    hide Trees, Lookup, MakePte, V, IsLeaf, Ppn, Idx2, Idx1, Idx0, EnteredMap, EnteredUses, SameData;
    PteFields(ppn + done, perm);
    var pte := MakePte(ppn + done, perm);
    EnteredOneUses(o0, o1, root, v, done, ppn);
    EnterLeaf(m1, o1, root, v + done, t, pte);
    EnteredOneMap(m0, o0, m1, o1, root, v, done, ppn, perm, t);
    SameDataLeaf(m0, o0, m1, o1, root, v, done, ppn, t, pte);
  }

  lemma EnteredOneUses(o0: Owner, o1: Owner, root: nat, v: nat, done: nat, ppn: nat)
    requires EnteredUses(o0, o1, root, v, done, ppn) && o0.Keys == o1.Keys
    requires v + done < TRAPFRAME ==> ppn + done in o1 && o0[ppn + done] == Held
    ensures v + done < TRAPFRAME ==> o1[ppn + done] == Held
    ensures EnteredUses(o0, Mapped(o1, root, v + done, ppn + done), root, v, done + 1, ppn)
  {
  }

  lemma SameDataLeaf(m0: Mem, o0: Owner, m1: Mem, o1: Owner, root: nat, v: nat, done: nat, ppn: nat, t: nat, pte: nat)
    requires SameData(m0, o0, m1) && EnteredUses(o0, o1, root, v, done, ppn) && t in o1 && t in m1 && o1[t].Low?
    ensures SameData(m0, o0, WithLeaf(m1, t, v + done, pte))
  {
  }

  lemma EnteredOneMap(m0: Mem, o0: Owner, m1: Mem, o1: Owner, root: nat, v: nat, done: nat, ppn: nat, perm: nat, t: nat)
    requires perm < 1024 && Entered(m0, o0, m1, o1, root, v, done, ppn, perm) && Trees(m1, o1, 0, 0)
    requires Reached(o1, root, v + done, 0, t) && t in m1 && IsRoot(o0, root)
    ensures EnteredMap(m0, o0, WithLeaf(m1, t, v + done, MakePte(ppn + done, perm)), root, v, done + 1, ppn, perm)
  {
    hide Trees, Lookup, MakePte, Idx2, Idx1, Idx0;
    TreesFrames(m1, o1);
    var pte := MakePte(ppn + done, perm);
    var m2 := WithLeaf(m1, t, v + done, pte);
    forall x, w: nat | IsRoot(o0, x)
      ensures Lookup(m2, x, w) == if x == root && v <= w < v + (done + 1) then MakePte(ppn + (w - v), perm)
              else Lookup(m0, x, w)
    {
      LeafLookup(m1, o1, 0, 0, root, v + done, t, pte, x, w);
      if w == v + done {
        assert ppn + (w - v) == ppn + done;
      }
    }
  }

  /** The pages from v to v + n are unmapped; their frames have become to. */
  ghost predicate Removed(mem: Mem, owner: Owner, mem': Mem, owner': Owner, root: nat, v: nat, n: nat, to: Use) {
    && owner'.Keys == owner.Keys == mem.Keys == mem'.Keys
    && RemovedUses(owner, owner', root, v, n, to)
    && RemovedData(mem, owner, mem', owner')
    && RemovedMap(mem, owner, mem', root, v, n)
  }

  predicate RemovedUses(owner: Owner, owner': Owner, root: nat, v: nat, n: nat, to: Use) {
    forall f :: f in owner && f in owner' ==>
      owner'[f] == if owner[f].User? && owner[f].root == root && v <= owner[f].v < v + n then to else owner[f]
  }

  predicate HoldsData(use: Use) {
    use.User? || use == Held
  }

  predicate RemovedData(mem: Mem, owner: Owner, mem': Mem, owner': Owner) {
    forall f ::
      f in owner && f in owner' && f in mem && f in mem' && owner'[f] == owner[f] && HoldsData(owner[f]) ==>
        mem'[f] == mem[f]
  }

  ghost predicate RemovedMap(mem: Mem, owner: Owner, mem': Mem, root: nat, v: nat, n: nat) {
    forall x, w: nat ::
        IsRoot(owner, x) ==> Lookup(mem', x, w) == if x == root && v <= w < v + n then 0 else Lookup(mem, x, w)
  }

  /** Nobody has the frame of an unmapped page. */
  lemma Unmapped(mem: Mem, owner: Owner, root: nat, v: nat, f: nat)
    requires Trees(mem, owner, 0, 0) && f in owner && owner[f] == User(root, v)
    ensures V(Lookup(mem, root, v)) && Ppn(Lookup(mem, root, v)) == f && v < TRAPFRAME
  {
    hide V, Ppn, Idx2, Idx1, Idx0, IsLeaf;
    assert Node(mem, owner, f, 0, 0);
  }

  /** The frame of a mapped page. */
  lemma MappedFrame(mem: Mem, owner: Owner, root: nat, v: nat, t: nat)
    requires Trees(mem, owner, 0, 0) && Reached(owner, root, v, 0, t) && t in mem
    ensures var pte := mem[t][Idx0(v)];
            pte == 0 || (V(pte) && IsLeaf(pte) && (v < TRAPFRAME ==>
                Ppn(pte) in owner && owner[Ppn(pte)] == User(root, v)))
  {
    Split(v);
    hide V, Ppn, Idx2, Idx1, Idx0, IsLeaf, Vpn;
    assert Node(mem, owner, t, 0, 0);
    assert Maps(Word(mem, t, Idx0(v)), owner, root, Vpn(Idx2(v), Idx1(v), Idx0(v)));
  }

  lemma RemovedSkip(m0: Mem, o0: Owner, m1: Mem, o1: Owner, root: nat, v: nat, n: nat, to: Use)
    requires Removed(m0, o0, m1, o1, root, v, n, to) && Trees(m1, o1, 0, 0) && Lookup(m1, root, v + n) == 0 &&
             IsRoot(o0, root) && Loose(to)
    ensures Removed(m0, o0, m1, o1, root, v, n + 1, to)
  {
    hide Trees, Lookup, Ppn;
    ZeroInvalid();
    forall f | f in o0 && f in o1 ensures o0[f] != User(root, v + n) {
      if o0[f] == User(root, v + n) {
        Unmapped(m1, o1, root, v + n, f);
      }
    }
  }

  /** The leaf of page v is cleared after its frame f was given up. */
  function WithoutLeaf(mem: Mem, t: nat, v: nat, f: nat, page: Page): Mem
    requires t in mem
  {
    WithLeaf(mem[f := page], t, v, 0)
  }

  lemma RemoveUser(mem: Mem, owner: Owner, root: nat, v: nat, t: nat, f: nat, page: Page, to: Use)
    requires Trees(mem, owner, 0, 0) && Reached(owner, root, v, 0, t) && f in owner && owner[f] == User(root, v) &&
             Loose(to) && t in mem
    ensures Trees(WithoutLeaf(mem, t, v, f, page), owner[f := to], 0, 0)
    ensures forall x, w: nat :: IsRoot(owner, x) ==>
              Lookup(WithoutLeaf(mem, t, v, f, page), x, w) == if x == root && w == v then 0 else Lookup(mem, x, w)
  {
    Split(v);
    hide Trees, Lookup, Ppn, Idx2, Idx1, Idx0, Vpn;
    var o1 := owner[f := Held];
    var m2, o2 := mem[f := page], owner[f := to];
    OpenLeaf(mem, owner, root, v, t, f);
    Outside(mem, o1, t, Idx0(v), f, page, to);
    assert o1[f := to] == o2;
    forall g | g in o2 ensures o2[g] != User(root, v) {
      if g != f && owner[g] == User(root, v) {
        Unmapped(mem, owner, root, v, g);
        Unmapped(mem, owner, root, v, f);
      }
    }
    CloseEntry(m2, o2, t, Idx0(v), t, Idx0(v));
    forall x, w: nat | IsRoot(owner, x)
      ensures Lookup(WithoutLeaf(mem, t, v, f, page), x, w) == if x == root && w == v then 0 else Lookup(mem, x, w)
    {
      OutsideLookup(mem, o1, t, Idx0(v), f, page, x, w);
      LeafLookup(m2, o2, t, Idx0(v), root, v, t, 0, x, w);
    }
  }

  lemma RemoveLent(mem: Mem, owner: Owner, root: nat, v: nat, t: nat)
    requires Trees(mem, owner, 0, 0) && Reached(owner, root, v, 0, t) && v >= TRAPFRAME && t in mem
    ensures Trees(WithLeaf(mem, t, v, 0), owner, 0, 0)
    ensures forall x, w: nat ::
              IsRoot(owner, x) ==>
                Lookup(WithLeaf(mem, t, v, 0), x, w) == if x == root && w == v then 0 else Lookup(mem, x, w)
  {
    Split(v);
    hide Trees, Lookup, Ppn, Idx2, Idx1, Idx0, Vpn;
    TreesFrames(mem, owner);
    forall g | g in owner ensures owner[g] != User(root, v) {
      if owner[g] == User(root, v) {
        Unmapped(mem, owner, root, v, g);
      }
    }
    CloseEntry(mem, owner, t, Idx0(v), 0, 0);
    forall x, w: nat | IsRoot(owner, x) ensures Lookup(WithLeaf(mem, t, v, 0), x, w) == if x == root && w == v then 0
      else Lookup(mem, x, w) {
      LeafLookup(mem, owner, 0, 0, root, v, t, 0, x, w);
    }
  }

  lemma ReachedLow(owner: Owner, root: nat, v: nat, t: nat)
    requires Reached(owner, root, v, 0, t)
    ensures t in owner && owner[t].Low?
  {
  }

  /** The page that comes next is not mapped yet, and its frame is not in use. */
  lemma NextIsClear(m0: Mem, o0: Owner, m1: Mem, o1: Owner, root: nat, v: nat, done: nat, ppn: nat, perm: nat)
    requires perm < 1024 && Entered(m0, o0, m1, o1, root, v, done, ppn, perm) && IsRoot(o0, root) &&
             Lookup(m0, root, v + done) == 0
    ensures Lookup(m1, root, v + done) == 0
    ensures v + done < TRAPFRAME && ppn + done in o0 && o0[ppn + done] == Held ==>
              ppn + done in o1 && o1[ppn + done] == Held
  {
    hide Lookup, MakePte;
  }

  lemma EnteredRoot(m0: Mem, o0: Owner, m1: Mem, o1: Owner, root: nat, v: nat, done: nat, ppn: nat, perm: nat)
    requires perm < 1024 && Entered(m0, o0, m1, o1, root, v, done, ppn, perm) && IsRoot(o0, root)
    ensures IsRoot(o1, root)
  {
    hide Lookup, MakePte;
  }

  lemma MappedKeepsFree(mem: Mem, owner: Owner, head: nat, free: seq<nat>, root: nat, v: nat, t: nat, f: nat, pte: nat)
    requires FreeList(mem, owner, head, free) && t in owner && t in mem && owner[t].Low? &&
             (v < TRAPFRAME ==> f in owner && owner[f] == Held)
    ensures FreeList(mem[t := mem[t][Idx0(v) := pte]], Mapped(owner, root, v, f), head, free)
  {
    hide FreeList, Idx0;
    var owner' := Mapped(owner, root, v, f);
    assert owner'.Keys == owner.Keys;
    FreeListKept(mem, owner, head, free, mem[t := mem[t][Idx0(v) := pte]], owner');
  }

  lemma RemovedNone(mem: Mem, owner: Owner, root: nat, v: nat, to: Use)
    requires mem.Keys == owner.Keys
    ensures Removed(mem, owner, mem, owner, root, v, 0, to)
  {
    hide Lookup;
  }

  /** One more page after n. */
  lemma RemovedMore(m0: Mem, o0: Owner, m1: Mem, o1: Owner, m2: Mem, o2: Owner, root: nat, v: nat, n: nat, to: Use)
    requires Removed(m0, o0, m1, o1, root, v, n, to) && Removed(m1, o1, m2, o2, root, v + n, 1, to) && Loose(to)
    ensures Removed(m0, o0, m2, o2, root, v, n + 1, to)
  {
    hide Lookup;
    forall x, w: nat | IsRoot(o0, x) ensures Lookup(m2, x, w) == if x == root && v <= w < v + (n + 1) then 0
      else Lookup(m0, x, w) {
      assert IsRoot(o1, x);
    }
  }

  lemma RemovedRoot(m0: Mem, o0: Owner, m1: Mem, o1: Owner, root: nat, v: nat, n: nat, to: Use, x: nat)
    requires Removed(m0, o0, m1, o1, root, v, n, to) && IsRoot(o0, x)
    ensures IsRoot(o1, x)
  {
    hide Lookup;
  }

  lemma RemovedUser(mem: Mem, owner: Owner, root: nat, v: nat, t: nat, f: nat, page: Page, to: Use)
    requires Trees(mem, owner, 0, 0) && Reached(owner, root, v, 0, t) && f in owner && owner[f] == User(root, v) &&
             Loose(to) && t in mem
    ensures Removed(mem, owner, WithoutLeaf(mem, t, v, f, page), owner[f := to], root, v, 1, to)
  {
    hide Trees, Lookup, Ppn, Idx2, Idx1, Idx0;
    TreesFrames(mem, owner);
    RemoveUser(mem, owner, root, v, t, f, page, to);
    forall g | g in owner && g != f ensures owner[g] != User(root, v) {
      if owner[g] == User(root, v) {
        Unmapped(mem, owner, root, v, g);
        Unmapped(mem, owner, root, v, f);
      }
    }
  }

  lemma RemovedLent(mem: Mem, owner: Owner, root: nat, v: nat, t: nat, to: Use)
    requires Trees(mem, owner, 0, 0) && Reached(owner, root, v, 0, t) && v >= TRAPFRAME && t in mem
    ensures Removed(mem, owner, WithLeaf(mem, t, v, 0), owner, root, v, 1, to)
  {
    hide Trees, Lookup, Ppn, Idx2, Idx1, Idx0;
    TreesFrames(mem, owner);
    RemoveLent(mem, owner, root, v, t);
    forall g | g in owner ensures owner[g] != User(root, v) {
      if owner[g] == User(root, v) {
        Unmapped(mem, owner, root, v, g);
      }
    }
  }

  lemma RemovedAbsent(mem: Mem, owner: Owner, root: nat, v: nat, to: Use)
    requires Trees(mem, owner, 0, 0) && IsRoot(owner, root) && Lookup(mem, root, v) == 0 && Loose(to)
    ensures Removed(mem, owner, mem, owner, root, v, 1, to)
  {
    hide Trees, Lookup;
    TreesFrames(mem, owner);
    RemovedNone(mem, owner, root, v, to);
    RemovedSkip(mem, owner, mem, owner, root, v, 0, to);
  }

  // ---- pages that a process has been given

  /** What a page is mapped with and holds. */
  datatype Content = Content(perm: nat, page: Page)

  predicate Holds(mem: Mem, owner: Owner, root: nat, w: nat, c: Content) {
    var pte := Lookup(mem, root, w);
    && V(pte) && Flags(pte) == (if V(c.perm) then c.perm else c.perm + 1)
    && Ppn(pte) in owner && owner[Ppn(pte)] == User(root, w) && Ppn(pte) in mem && mem[Ppn(pte)] == c.page
  }

  /** root has been given exactly the pages of want, and table pages for them; nothing else changed but the
      free list. */
  ghost predicate Installed(mem: Mem, owner: Owner, mem': Mem, owner': Owner, root: nat, want: map<nat, Content>) {
    && owner'.Keys == owner.Keys == mem.Keys == mem'.Keys
    && InstalledUses(owner, owner', root, want)
    && SameData(mem, owner, mem')
    && InstalledMap(mem, owner, mem', root, want)
    && InstalledPages(mem', owner', root, want)
  }

  predicate InstalledPages(mem: Mem, owner: Owner, root: nat, want: map<nat, Content>) {
    forall w :: w in want ==> Holds(mem, owner, root, w, want[w])
  }

  predicate InstalledUses(owner: Owner, owner': Owner, root: nat, want: map<nat, Content>) {
    forall f :: f in owner && f in owner' ==>
      || owner'[f] == owner[f]
      || (owner[f] == Free && (owner'[f].Mid? || owner'[f].Low?) && owner'[f].root == root)
      || (owner[f] == Free && owner'[f].User? && owner'[f].root == root && owner'[f].v in want)
  }

  ghost predicate InstalledMap(mem: Mem, owner: Owner, mem': Mem, root: nat, want: map<nat, Content>) {
    forall x, w: nat :: IsRoot(owner, x) && !(x == root && w in want) ==> Lookup(mem', x, w) == Lookup(mem, x, w)
  }

  lemma InstalledNone(mem: Mem, owner: Owner, root: nat)
    requires mem.Keys == owner.Keys
    ensures Installed(mem, owner, mem, owner, root, map[])
  {
    hide Lookup;
  }

  lemma InstalledNothing(m0: Mem, o0: Owner, m1: Mem, o1: Owner, root: nat)
    requires Installed(m0, o0, m1, o1, root, map[])
    ensures Quiet(m0, o0, m1, o1, root)
  {
    hide Lookup;
  }

  /** A frame f, taken and filled with page, is mapped at a. */
  lemma InstalledOne(
    m0: Mem, o0: Owner, m1: Mem, o1: Owner, root: nat, want: map<nat, Content>, f: nat, page: Page, m2: Mem,
    o2: Owner, a: nat, perm: nat)
    requires Installed(m0, o0, m1, o1, root, want) && IsRoot(o0, root) && perm < 1024 && a < TRAPFRAME && a !in want
    requires Trees(m1, o1, 0, 0) && f in o1 && o1[f] == Free
    requires Entered(m1[f := page], o1[f := Held], m2, o2, root, a, 1, f, perm)
    ensures Installed(m0, o0, m2, o2, root, want[a := Content(perm, page)])
  {
    PteFields(f, perm);
    hide Trees, Lookup, MakePte, V, Ppn, Flags, EnteredUses, SameData, EnteredMap, InstalledUses, InstalledMap,
         InstalledPages;
    TreesFrames(m1, o1);
    InstalledOneUses(o0, o1, o2, root, want, f, a, Content(perm, page));
    InstalledOneData(m0, o0, m1, o1, m2, root, want, f, page);
    forall x, w: nat | IsRoot(o0, x) ensures Lookup(m2, x, w) == if x == root && w == a then MakePte(f, perm)
      else Lookup(m1, x, w) {
      TookLookup(m0, o0, m1, o1, root, want, f, page, m2, o2, a, perm, x, w);
    }
    InstalledOneMap(m0, o0, m1, m2, root, want, a, Content(perm, page), MakePte(f, perm));
    InstalledOnePages(m0, o0, m1, o1, m2, o2, root, want, f, a, Content(perm, page));
  }

  lemma InstalledOneUses(
    o0: Owner, o1: Owner, o2: Owner, root: nat, want: map<nat, Content>, f: nat, a: nat, c: Content)
    requires o0.Keys == o1.Keys == o2.Keys && InstalledUses(o0, o1, root, want) && f in o1 && o1[f] == Free &&
             a < TRAPFRAME
    requires EnteredUses(o1[f := Held], o2, root, a, 1, f)
    ensures InstalledUses(o0, o2, root, want[a := c])
  {
    assert o1[f := Held].Keys == o1.Keys;
  }

  lemma InstalledOneData(
    m0: Mem, o0: Owner, m1: Mem, o1: Owner, m2: Mem, root: nat, want: map<nat, Content>, f: nat, page: Page)
    requires o0.Keys == o1.Keys == m0.Keys == m1.Keys == m2.Keys && f in o1 && o1[f] == Free
    requires InstalledUses(o0, o1, root, want) && SameData(m0, o0, m1) && SameData(m1[f := page], o1[f := Held], m2)
    ensures SameData(m0, o0, m2)
  {
  }

  lemma TookLookup(
    m0: Mem, o0: Owner, m1: Mem, o1: Owner, root: nat, want: map<nat, Content>, f: nat, page: Page, m2: Mem,
    o2: Owner, a: nat, perm: nat, x: nat, w: nat)
    requires Installed(m0, o0, m1, o1, root, want) && perm < 1024 && IsRoot(o0, x)
    requires Trees(m1, o1, 0, 0) && f in o1 && o1[f] == Free &&
             Entered(m1[f := page], o1[f := Held], m2, o2, root, a, 1, f, perm)
    ensures Lookup(m2, x, w) == if x == root && w == a then MakePte(f, perm) else Lookup(m1, x, w)
  {
    hide Trees, Lookup, MakePte;
    TreesFrames(m1, o1);
    OutsideLookup(m1, o1, 0, 0, f, page, x, w);
    assert IsRoot(o1[f := Held], x);
  }

  lemma InstalledOneMap(
    m0: Mem, o0: Owner, m1: Mem, m2: Mem, root: nat, want: map<nat, Content>, a: nat, c: Content, pte: nat)
    requires InstalledMap(m0, o0, m1, root, want)
    requires forall x, w: nat ::
               IsRoot(o0, x) ==> Lookup(m2, x, w) == if x == root && w == a then pte else Lookup(m1, x, w)
    ensures InstalledMap(m0, o0, m2, root, want[a := c])
  {
    hide Lookup;
  }

  lemma InstalledOnePages(
    m0: Mem, o0: Owner, m1: Mem, o1: Owner, m2: Mem, o2: Owner, root: nat, want: map<nat, Content>, f: nat, a: nat,
    c: Content)
    requires o1.Keys == m1.Keys == m2.Keys == o2.Keys && InstalledPages(m1, o1, root, want) && IsRoot(o0, root)
    requires a !in want && f in o1 && o1[f] == Free && c.perm < 1024 && a < TRAPFRAME
    requires EnteredUses(o1[f := Held], o2, root, a, 1, f) && SameData(m1[f := c.page], o1[f := Held], m2)
    requires forall x, w: nat ::
               IsRoot(o0, x) ==>
                 Lookup(m2, x, w) == if x == root && w == a then MakePte(f, c.perm) else Lookup(m1, x, w)
    ensures InstalledPages(m2, o2, root, want[a := c])
  {
    hide Lookup, MakePte, Holds, EnteredUses, SameData;
    var want' := want[a := c];
    forall w | w in want' ensures Holds(m2, o2, root, w, want'[w]) {
      assert Lookup(m2, root, w) == if w == a then MakePte(f, c.perm) else Lookup(m1, root, w);
      if w != a {
        HoldsKept(m1, o1, m2, o2, root, w, want[w], f, a, c.page);
      } else {
        HoldsNew(m1, o1, m2, o2, root, f, a, c);
      }
    }
  }

  lemma HoldsKept(m1: Mem, o1: Owner, m2: Mem, o2: Owner, root: nat, w: nat, c: Content, f: nat, a: nat, page: Page)
    requires Holds(m1, o1, root, w, c) && Lookup(m2, root, w) == Lookup(m1, root, w) && f in o1 && o1[f] == Free
    requires EnteredUses(o1[f := Held], o2, root, a, 1, f) && SameData(m1[f := page], o1[f := Held], m2) &&
             o1.Keys == m1.Keys == m2.Keys == o2.Keys
    ensures Holds(m2, o2, root, w, c)
  {
    hide Lookup, V, Ppn, Flags;
  }

  lemma HoldsNew(m1: Mem, o1: Owner, m2: Mem, o2: Owner, root: nat, f: nat, a: nat, c: Content)
    requires c.perm < 1024 && Lookup(m2, root, a) == MakePte(f, c.perm) && f in o1 && o1[f] == Free && a < TRAPFRAME
    requires EnteredUses(o1[f := Held], o2, root, a, 1, f) && SameData(m1[f := c.page], o1[f := Held], m2) &&
             o1.Keys == m1.Keys == m2.Keys == o2.Keys
    ensures Holds(m2, o2, root, a, c)
  {
    hide Lookup, MakePte, V, Ppn, Flags;
    PteFields(f, c.perm);
  }

  /** A frame f, taken and filled but not mapped, is given back. */
  lemma InstalledBack(
    m0: Mem, o0: Owner, m1: Mem, o1: Owner, root: nat, want: map<nat, Content>, f: nat, page: Page, m2: Mem,
    o2: Owner, m3: Mem, a: nat, perm: nat)
    requires Installed(m0, o0, m1, o1, root, want) && IsRoot(o0, root) && perm < 1024 && Trees(m1, o1, 0, 0) &&
             f in o1 && o1[f] == Free
    requires Entered(m1[f := page], o1[f := Held], m2, o2, root, a, 0, f, perm) && Trees(m2, o2, 0, 0)
    requires m3.Keys == m2.Keys && forall g :: g in m3 && g != f ==> m3[g] == m2[g]
    ensures f in o2 && o2[f] == Held && Trees(m3, o2[f := Free], 0, 0) &&
            Installed(m0, o0, m3, o2[f := Free], root, want)
  {
    hide Trees, Lookup, MakePte, V, Ppn, Flags, InstalledPages, EnteredMap, EnteredUses, InstalledUses, SameData,
         InstalledMap;
    TreesFrames(m2, o2);
    BackUses(m0, o0, m1, o1, root, want, f, page, m2, o2, m3, a);
    assert m3 == m2[f := m3[f]];
    Outside(m2, o2, 0, 0, f, m3[f], Free);
    forall x, w: nat | IsRoot(o0, x) ensures IsRoot(o1, x) && Lookup(m3, x, w) == Lookup(m1, x, w) {
      InstalledRoot(m0, o0, m1, o1, root, want, x);
      BackLookup(m1, o1, root, f, page, m2, o2, m3, a, perm, x, w);
    }
    BackMap(m0, o0, m1, m3, root, want);
    BackPages(m1, o1, root, want, f, page, m2, o2, m3, a);
  }

  lemma BackUses(
    m0: Mem, o0: Owner, m1: Mem, o1: Owner, root: nat, want: map<nat, Content>, f: nat, page: Page, m2: Mem,
    o2: Owner, m3: Mem, a: nat)
    requires o0.Keys == m0.Keys == o1.Keys == m1.Keys == m2.Keys == o2.Keys == m3.Keys && f in o1 && o1[f] == Free
    requires InstalledUses(o0, o1, root, want) && SameData(m0, o0, m1)
    requires EnteredUses(o1[f := Held], o2, root, a, 0, f) && SameData(m1[f := page], o1[f := Held], m2)
    requires forall g :: g in m3 && g != f ==> m3[g] == m2[g]
    ensures o2[f] == Held && InstalledUses(o0, o2[f := Free], root, want) && SameData(m0, o0, m3)
  {
    hide InstalledUses, SameData;
    assert o1[f := Held].Keys == o1.Keys;
    BackOwner(o0, o1, root, want, f, o2, a);
    BackData(m0, o0, m1, o1, root, want, f, page, m2, m3);
  }

  lemma BackOwner(o0: Owner, o1: Owner, root: nat, want: map<nat, Content>, f: nat, o2: Owner, a: nat)
    requires o0.Keys == o1.Keys == o2.Keys && f in o1 && o1[f] == Free
    requires InstalledUses(o0, o1, root, want) && EnteredUses(o1[f := Held], o2, root, a, 0, f)
    ensures InstalledUses(o0, o2[f := Free], root, want)
  {
  }

  lemma BackData(
    m0: Mem, o0: Owner, m1: Mem, o1: Owner, root: nat, want: map<nat, Content>, f: nat, page: Page, m2: Mem, m3: Mem)
    requires o0.Keys == m0.Keys == o1.Keys == m1.Keys == m2.Keys == m3.Keys && f in o1 && o1[f] == Free
    requires InstalledUses(o0, o1, root, want) && SameData(m0, o0, m1) && SameData(m1[f := page], o1[f := Held], m2)
    requires forall g :: g in m3 && g != f ==> m3[g] == m2[g]
    ensures SameData(m0, o0, m3)
  {
  }

  lemma BackMap(m0: Mem, o0: Owner, m1: Mem, m3: Mem, root: nat, want: map<nat, Content>)
    requires InstalledMap(m0, o0, m1, root, want)
    requires forall x, w: nat :: IsRoot(o0, x) ==> Lookup(m3, x, w) == Lookup(m1, x, w)
    ensures InstalledMap(m0, o0, m3, root, want)
  {
    hide Lookup;
  }

  lemma BackLookup(
    m1: Mem, o1: Owner, root: nat, f: nat, page: Page, m2: Mem, o2: Owner, m3: Mem, a: nat, perm: nat, x: nat, w: nat)
    requires Trees(m1, o1, 0, 0) && f in o1 && o1[f] == Free && perm < 1024 && IsRoot(o1, x) && Trees(m2, o2, 0, 0)
    requires Entered(m1[f := page], o1[f := Held], m2, o2, root, a, 0, f, perm) && f in m3 && m3 == m2[f := m3[f]]
    ensures Lookup(m3, x, w) == Lookup(m1, x, w)
  {
    hide Trees, Lookup, MakePte;
    TreesFrames(m1, o1);
    TreesFrames(m2, o2);
    OutsideLookup(m1, o1, 0, 0, f, page, x, w);
    assert IsRoot(o1[f := Held], x);
    OutsideLookup(m2, o2, 0, 0, f, m3[f], x, w);
  }

  lemma BackHolds(
    m1: Mem, o1: Owner, root: nat, w: nat, c: Content, f: nat, page: Page, m2: Mem, o2: Owner, m3: Mem, a: nat)
    requires o1.Keys == m1.Keys == m2.Keys == o2.Keys == m3.Keys && Holds(m1, o1, root, w, c) && f in o1 &&
             o1[f] == Free
    requires EnteredUses(o1[f := Held], o2, root, a, 0, f) && SameData(m1[f := page], o1[f := Held], m2)
    requires (forall g :: g in m3 && g != f ==> m3[g] == m2[g]) && Lookup(m3, root, w) == Lookup(m1, root, w)
    ensures Holds(m3, o2[f := Free], root, w, c)
  {
    hide Lookup, V, Ppn, Flags;
  }

  lemma BackPages(
    m1: Mem, o1: Owner, root: nat, want: map<nat, Content>, f: nat, page: Page, m2: Mem, o2: Owner, m3: Mem, a: nat)
    requires o1.Keys == m1.Keys == m2.Keys == o2.Keys == m3.Keys && InstalledPages(m1, o1, root, want) && f in o1 &&
             o1[f] == Free
    requires EnteredUses(o1[f := Held], o2, root, a, 0, f) && SameData(m1[f := page], o1[f := Held], m2)
    requires forall g :: g in m3 && g != f ==> m3[g] == m2[g]
    requires forall w: nat :: Lookup(m3, root, w) == Lookup(m1, root, w)
    ensures InstalledPages(m3, o2[f := Free], root, want)
  {
    hide Lookup, Holds, EnteredUses, SameData;
    forall w | w in want ensures Holds(m3, o2[f := Free], root, w, want[w]) {
      BackHolds(m1, o1, root, w, want[w], f, page, m2, o2, m3, a);
    }
  }

  /** What was installed has been removed again. */
  lemma InstalledRemoved(
    m0: Mem, o0: Owner, m1: Mem, o1: Owner, m2: Mem, o2: Owner, root: nat, want: map<nat, Content>, v: nat, n: nat)
    requires Trees(m0, o0, 0, 0) && IsRoot(o0, root) && Installed(m0, o0, m1, o1, root, want) &&
             Removed(m1, o1, m2, o2, root, v, n, Free)
    requires forall w :: w in want ==> v <= w < v + n
    requires forall w :: v <= w < v + n ==> Lookup(m0, root, w) == 0
    ensures Quiet(m0, o0, m2, o2, root)
  {
    hide Trees, Lookup, InstalledPages, InstalledMap, RemovedMap, InstalledUses, RemovedUses, RemovedData, SameData;
    NoUsers(m0, o0, root, v, n);
    ReturnedUses(o0, o1, o2, root, want, v, n);
    ReturnedData(m0, o0, m1, o1, m2, o2, root, want, v, n);
    forall x, w: nat | IsRoot(o0, x) ensures Lookup(m2, x, w) == Lookup(m0, x, w) {
      RemovedAgain(m0, o0, m1, o1, m2, o2, root, want, v, n, x, w);
    }
  }

  lemma ReturnedUses(o0: Owner, o1: Owner, o2: Owner, root: nat, want: map<nat, Content>, v: nat, n: nat)
    requires o0.Keys == o1.Keys == o2.Keys && InstalledUses(o0, o1, root, want) && RemovedUses(o1, o2, root, v, n, Free)
    requires forall w :: w in want ==> v <= w < v + n
    requires forall f :: f in o0 && o0[f].User? && o0[f].root == root ==> !(v <= o0[f].v < v + n)
    ensures forall f ::
              f in o0 ==> o2[f] == o0[f] || (o0[f] == Free && (o2[f].Mid? || o2[f].Low?) && o2[f].root == root)
  {
  }

  lemma ReturnedData(
    m0: Mem, o0: Owner, m1: Mem, o1: Owner, m2: Mem, o2: Owner, root: nat, want: map<nat, Content>, v: nat, n: nat)
    requires o0.Keys == o1.Keys == o2.Keys == m0.Keys == m1.Keys == m2.Keys
    requires InstalledUses(o0, o1, root, want) && RemovedUses(o1, o2, root, v, n, Free) && SameData(m0, o0, m1) &&
             RemovedData(m1, o1, m2, o2)
    requires forall f :: f in o0 && o0[f].User? && o0[f].root == root ==> !(v <= o0[f].v < v + n)
    ensures SameData(m0, o0, m2)
  {
  }

  lemma NoUsers(mem: Mem, owner: Owner, root: nat, v: nat, n: nat)
    requires Trees(mem, owner, 0, 0) && forall w :: v <= w < v + n ==> Lookup(mem, root, w) == 0
    ensures forall f :: f in owner && owner[f].User? && owner[f].root == root ==> !(v <= owner[f].v < v + n)
  {
    hide Trees, Lookup, V, Ppn;
    forall f | f in owner && owner[f].User? && owner[f].root == root ensures !(v <= owner[f].v < v + n) {
      Unmapped(mem, owner, root, owner[f].v, f);
      ZeroInvalid();
    }
  }

  lemma RemovedAgain(
    m0: Mem, o0: Owner, m1: Mem, o1: Owner, m2: Mem, o2: Owner, root: nat, want: map<nat, Content>, v: nat, n: nat,
    x: nat, w: nat)
    requires Installed(m0, o0, m1, o1, root, want) && Removed(m1, o1, m2, o2, root, v, n, Free) && IsRoot(o0, x)
    requires w in want ==> v <= w < v + n
    requires v <= w < v + n ==> Lookup(m0, root, w) == 0
    ensures Lookup(m2, x, w) == Lookup(m0, x, w)
  {
    hide Lookup, InstalledPages, SameData, RemovedData;
    assert IsRoot(o1, x);
  }

  lemma InstalledRoot(m0: Mem, o0: Owner, m1: Mem, o1: Owner, root: nat, want: map<nat, Content>, x: nat)
    requires Installed(m0, o0, m1, o1, root, want) && IsRoot(o0, x)
    ensures IsRoot(o1, x)
  {
    hide Lookup, InstalledPages;
  }

  lemma InstalledLookup(m0: Mem, o0: Owner, m1: Mem, o1: Owner, root: nat, want: map<nat, Content>, x: nat, w: nat)
    requires Installed(m0, o0, m1, o1, root, want) && IsRoot(o0, x) && !(x == root && w in want)
    ensures Lookup(m1, x, w) == Lookup(m0, x, w)
  {
    hide Lookup, InstalledPages;
  }

  /** The number of pages that sz bytes reach into. */
  function Pages(sz: nat): nat {
    (sz + 4095) / 4096
  }

  lemma PagesOf(a: nat, sz: nat)
    ensures a * 4096 < sz <==> a < Pages(sz)
    ensures Pages(a * 4096) == a
  {
  }

  lemma PagesMonotone(a: nat, b: nat)
    requires a <= b
    ensures Pages(a) <= Pages(b) && Pages(TRAPFRAME * PGSIZE) == TRAPFRAME
  {
  }

  lemma EnteredHeld(m0: Mem, o0: Owner, m1: Mem, o1: Owner, root: nat, a: nat, f: nat, perm: nat)
    requires perm < 1024 && Entered(m0, o0, m1, o1, root, a, 0, f, perm) && f in o0 && o0[f] == Held
    ensures f in o1 && f in m1 && o1[f] == Held
  {
    hide Lookup, MakePte;
  }

  lemma EnteredUser(m0: Mem, o0: Owner, m1: Mem, o1: Owner, root: nat, a: nat, f: nat, perm: nat)
    requires perm < 1024 && a < TRAPFRAME && Entered(m0, o0, m1, o1, root, a, 1, f, perm) && f in o0 &&
             o0[f] == Held && IsRoot(o0, root)
    ensures f in o1 && o1[f] == User(root, a) && Ppn(Lookup(m1, root, a)) == f
  {
    hide Lookup, MakePte, V, IsLeaf, Flags;
    PteFields(f, perm);
    assert Lookup(m1, root, a) == MakePte(f + (a - a), perm);
  }

  lemma GrowthPerm(xperm: nat)
    requires xperm == 0 || xperm == PTE_W || xperm == PTE_X || xperm == PTE_W + PTE_X
    ensures PTE_R + PTE_U + xperm < 1024 && IsLeaf(PTE_R + PTE_U + xperm)
  {
  }

  /** Zeroed pages from page from up to page to. */
  function ZeroPages(from: nat, to: nat, perm: nat): (want: map<nat, Content>)
    ensures forall w: nat :: w in want <==> from <= w < to
    ensures forall w :: w in want ==> want[w] == Content(perm, Filled(0))
  {
    if from >= to then map[] else ZeroPages(from, to - 1, perm)[to - 1 := Content(perm, Filled(0))]
  }

  /** The pages below n that are mapped in the table at r, with their flags and contents. */
  function Copies(mem: Mem, r: nat, n: nat): map<nat, Content> {
    if n == 0 then map[]
    else
      var pte := Lookup(mem, r, n - 1);
      if V(pte) then Copies(mem, r, n - 1)[n - 1 := Content(Flags(pte), Frame(mem, Ppn(pte)))]
        else Copies(mem, r, n - 1)
  }

  function Frame(mem: Mem, f: nat): Page {
    if f in mem then mem[f] else Filled(0)
  }

  lemma NoCopies(mem: Mem, r: nat)
    ensures Copies(mem, r, 0) == map[]
  {
  }

  lemma MoreCopies(mem: Mem, r: nat, n: nat)
    ensures var pte := Lookup(mem, r, n);
            Copies(mem, r, n + 1) == if V(pte) then Copies(mem, r, n)[n := Content(Flags(pte), Frame(mem, Ppn(pte)))]
              else Copies(mem, r, n)
  {
    hide Lookup, V, Flags, Ppn, Frame;
  }

  lemma {:induction false} CopiesBelow(mem: Mem, r: nat, n: nat)
    ensures forall w :: w in Copies(mem, r, n) <==> 0 <= w < n && V(Lookup(mem, r, w))
  {
    hide Lookup, V, Flags, Ppn, Frame;
    if n > 0 {
      CopiesBelow(mem, r, n - 1);
    }
  }

  /** A leaf's flags serve to map another leaf. */
  lemma LeafFlags(pte: nat)
    requires V(pte) && IsLeaf(pte)
    ensures Flags(pte) < 1024 && IsLeaf(Flags(pte)) && V(Flags(pte))
  {
    hide IsLeaf;
    var q, r := pte / 1024, pte % 1024;
    assert pte == q * 1024 + r;
    LeafBits(q, r);
    LeafBits(0, r);
    Parity(q * 512, r);
  }

  lemma Parity(a: nat, r: nat)
    ensures (a * 2 + r) % 2 == r % 2
  {
  }

  /** The parent's frame has not changed. */
  lemma CopiedFrame(
    m0: Mem, o0: Owner, m1: Mem, o1: Owner, root: nat, want: map<nat, Content>, f: nat, parent: nat, i: nat)
    requires Installed(m0, o0, m1, o1, root, want) && f in o1 && o1[f] == User(parent, i) && parent != root
    ensures f in m1 && m1[f] == Frame(m0, f)
  {
    hide Lookup, InstalledPages, InstalledMap, Filled;
  }

  // ---- freeing a tree

  /** The frame used so is below entry k < i of the table f, whose own use is top. */
  predicate Gone(use: Use, top: Use, f: nat, i: nat) {
    match top
    case Root => (use.Mid? || use.Low?) && use.root == f && use.i < i
    case Mid(r, a) => use.Low? && use.root == r && use.i == a && use.j < i
    case _ => false
  }

  /** No leaf is left below f. */
  predicate Bare(mem: Mem, owner: Owner, f: nat)
    requires f in owner
  {
    forall g, k ::
        g in owner && g in mem && owner[g].Low? && (g == f || Gone(owner[g], owner[f], f, 512)) && 0 <= k < 512 ==>
          mem[g][k] == 0
  }

  /** freewalk has dealt with the entries of f below i. */
  predicate Swept(m0: Mem, o0: Owner, m1: Mem, o1: Owner, f: nat, i: nat) {
    && o0.Keys == o1.Keys == m0.Keys == m1.Keys && f in o0
    && (forall g :: g in o0 ==> o1[g] == if g != f && Gone(o0[g], o0[f], f, i) then Free else o0[g])
    && (forall g :: g in o0 && g != f && o1[g] == o0[g] && o0[g] != Free ==> m1[g] == m0[g])
    && (forall k :: 0 <= k < 512 ==> m1[f][k] == if k < i then 0 else m0[f][k])
  }

  /** Frame f and all frames below it have been freed. */
  predicate Cleared(m0: Mem, o0: Owner, m1: Mem, o1: Owner, f: nat) {
    && o0.Keys == o1.Keys == m0.Keys == m1.Keys && f in o0
    && (forall g :: g in o0 ==> o1[g] == if g == f || Gone(o0[g], o0[f], f, 512) then Free else o0[g])
    && (forall g :: g in o0 && o1[g] == o0[g] && o0[g] != Free ==> m1[g] == m0[g])
  }

  function Depth(use: Use): nat {
    match use
    case Root => 2
    case Mid(_, _) => 1
    case _ => 0
  }

  /** A table or leaf frame is reached through one entry only. */
  lemma UniqueChild(mem: Mem, owner: Owner, t: nat, k: nat, g: nat, h: nat, i: nat)
    requires Trees(mem, owner, h, i) && t in owner && (owner[t].Root? || owner[t].Mid?) && g in owner &&
             owner[g] == Child(owner[t], t, k)
    ensures t in mem && k < 512 && V(mem[t][k]) && Ppn(mem[t][k]) == g
  {
    hide V, Ppn, IsLeaf, Idx2, Idx1, Idx0, Vpn;
    assert Node(mem, owner, g, h, i) && Node(mem, owner, t, h, i);
  }

  /** What freewalk finds in an entry of an interior or empty table. */
  lemma EntryOf(mem: Mem, owner: Owner, f: nat, k: nat)
    requires Trees(mem, owner, 0, 0) && f in owner && Table(owner[f]) && k < 512 && Bare(mem, owner, f)
    ensures f in mem
    ensures var pte := mem[f][k];
            if V(pte) then !IsLeaf(pte) && Ppn(pte) in owner && !owner[f].Low? &&
              owner[Ppn(pte)] == Child(owner[f], f, k) else pte == 0
  {
    hide V, Ppn, IsLeaf, Idx2, Idx1, Idx0, Vpn;
    ZeroInvalid();
    assert Node(mem, owner, f, 0, 0);
    assert owner[f].Root? ==> Points(Word(mem, f, k), owner, Mid(f, k));
    assert owner[f].Mid? ==> Points(Word(mem, f, k), owner, Low(owner[f].root, owner[f].i, k));
  }

  lemma SweptNone(mem: Mem, owner: Owner, f: nat)
    requires mem.Keys == owner.Keys && f in owner
    ensures Swept(mem, owner, mem, owner, f, 0)
  {
  }

  lemma SweptSkip(m0: Mem, o0: Owner, m1: Mem, o1: Owner, f: nat, i: nat)
    requires Swept(m0, o0, m1, o1, f, i) && i < 512 && m1[f][i] == 0 && Trees(m1, o1, 0, 0) && Table(o0[f])
    requires !o0[f].Low?
    ensures Swept(m0, o0, m1, o1, f, i + 1)
  {
    hide Trees, V, Ppn;
    ZeroInvalid();
    forall g | g in o0 && g != f && o1[g] != Free ensures Gone(o0[g], o0[f], f, i + 1) <==> Gone(o0[g], o0[f], f, i) {
      NoChild(m1, o1, f, i, g);
    }
  }

  /** Nothing is below an empty entry. */
  lemma NoChild(mem: Mem, owner: Owner, f: nat, k: nat, g: nat)
    requires Trees(mem, owner, 0, 0) && f in owner && f in mem && Table(owner[f]) && !owner[f].Low? && k < 512 &&
             mem[f][k] == 0 && g in owner
    ensures Gone(owner[g], owner[f], f, k + 1) <==> Gone(owner[g], owner[f], f, k)
  {
    hide V, Ppn, IsLeaf, Idx2, Idx1, Idx0, Vpn;
    ZeroInvalid();
    assert Node(mem, owner, g, 0, 0);
  }

  /** What is below entry i is the child there and what is below the child. */
  lemma GoneMore(mem: Mem, owner: Owner, f: nat, i: nat, c: nat, g: nat)
    requires Trees(mem, owner, 0, 0) && f in owner && f in mem && Table(owner[f]) && !owner[f].Low? && i < 512
    requires c in owner && owner[c] == Child(owner[f], f, i) && g in owner
    ensures Gone(owner[g], owner[f], f, i + 1) <==>
              Gone(owner[g], owner[f], f, i) || g == c || Gone(owner[g], owner[c], c, 512)
  {
    hide V, Ppn, IsLeaf, Idx2, Idx1, Idx0, Vpn;
    UniqueChild(mem, owner, f, i, c, 0, 0);
    if owner[g] == owner[c] {
      UniqueChild(mem, owner, f, i, g, 0, 0);
    }
    assert Node(mem, owner, g, 0, 0);
  }

  lemma SweptChild(m0: Mem, o0: Owner, m1: Mem, o1: Owner, m2: Mem, o2: Owner, f: nat, i: nat, c: nat)
    requires Swept(m0, o0, m1, o1, f, i) && Trees(m1, o1, 0, 0) && Table(o0[f]) && !o0[f].Low? && i < 512
    requires c in o1 && o1[c] == Child(o1[f], f, i) && Cleared(m1, o1, m2, o2, c)
    ensures o2[f] == o0[f] && Swept(m0, o0, m2[f := m2[f][i := 0]], o2, f, i + 1)
  {
    hide Trees;
    assert !Gone(o1[f], o1[c], c, 512) && f != c;
    forall g | g in o0 && g != f ensures o2[g] == if Gone(o0[g], o0[f], f, i + 1) then Free else o0[g] {
      GoneMore(m1, o1, f, i, c, g);
    }
  }

  /** The child is as bare as the table above it. */
  lemma BareChild(m0: Mem, o0: Owner, m1: Mem, o1: Owner, f: nat, i: nat, c: nat)
    requires Swept(m0, o0, m1, o1, f, i) && Bare(m0, o0, f) && Table(o0[f]) && !o0[f].Low? && i < 512
    requires c in o1 && o1[c] == Child(o1[f], f, i)
    ensures Bare(m1, o1, c)
  {
    forall g, k | g in o1 && g in m1 && o1[g].Low? && (g == c || Gone(o1[g], o1[c], c, 512)) &&
      0 <= k < 512 ensures m1[g][k] == 0 {
      assert o1[g] == o0[g] && g != f;
    }
  }

  /** All entries are dealt with: what was below f is free. */
  lemma SweptAll(m0: Mem, o0: Owner, m1: Mem, o1: Owner, m2: Mem, f: nat)
    requires Swept(m0, o0, m1, o1, f, 512) && m2.Keys == m1.Keys && forall g :: g in m2 && g != f ==> m2[g] == m1[g]
    requires Table(o0[f])
    ensures Cleared(m0, o0, m2, o1[f := Free], f)
  {
  }

  /** The sweep has not touched the entries that remain. */
  lemma SweptBare(m0: Mem, o0: Owner, m1: Mem, o1: Owner, f: nat, i: nat)
    requires Swept(m0, o0, m1, o1, f, i) && Bare(m0, o0, f) && Table(o0[f])
    ensures Bare(m1, o1, f) && o1[f] == o0[f]
  {
    forall g, k | g in o1 && g in m1 && o1[g].Low? && (g == f || Gone(o1[g], o1[f], f, 512)) &&
      0 <= k < 512 ensures m1[g][k] == 0 {
      assert o1[g] == o0[g];
    }
  }

  lemma SweptEmpty(m0: Mem, o0: Owner, m1: Mem, o1: Owner, f: nat, i: nat)
    requires Swept(m0, o0, m1, o1, f, i) && i < 512 && m1[f][i] == 0 && Trees(m1, o1, 0, 0) && Table(o0[f])
    ensures Swept(m0, o0, m1, o1, f, i + 1)
  {
    hide Trees;
    if !o0[f].Low? {
      SweptSkip(m0, o0, m1, o1, f, i);
    }
  }

  lemma SweptZero(m0: Mem, o0: Owner, m1: Mem, o1: Owner, f: nat)
    requires Swept(m0, o0, m1, o1, f, 512)
    ensures forall k :: 0 <= k < 512 ==> m1[f][k] == 0
  {
  }

  lemma ClearedKeys(m0: Mem, o0: Owner, m1: Mem, o1: Owner, c: nat)
    requires Cleared(m0, o0, m1, o1, c)
    ensures o0.Keys == o1.Keys == m0.Keys == m1.Keys
  {
  }

  /** No frame is used as the child any more. */
  lemma ClearedChild(m1: Mem, o1: Owner, m2: Mem, o2: Owner, f: nat, i: nat, c: nat)
    requires Trees(m1, o1, 0, 0) && f in o1 && Table(o1[f]) && !o1[f].Low? && c in o1 && o1[c] == Child(o1[f], f, i) &&
             Cleared(m1, o1, m2, o2, c)
    ensures f in o2 && o2[f] == o1[f] && forall g :: g in o2 ==> o2[g] != Child(o2[f], f, i)
  {
    hide Trees, V, Ppn;
    forall g | g in o2 ensures o2[g] != Child(o1[f], f, i) {
      UniqueChild(m1, o1, f, i, c, 0, 0);
      if o1[g] == Child(o1[f], f, i) {
        UniqueChild(m1, o1, f, i, g, 0, 0);
      }
    }
  }

  /** The table above f is not below it. */
  lemma SweptParent(m0: Mem, o0: Owner, m1: Mem, o1: Owner, f: nat, p: nat, k: nat)
    requires Swept(m0, o0, m1, o1, f, 512) && p in o0 && Table(o0[p]) && Table(o0[f]) && Child(o0[p], p, k) == o0[f]
    ensures p in o1 && o1[p] == o0[p] && o1[f] == o0[f]
  {
  }

  // ---- whole address spaces

  /** The frame belongs to the tree at root. */
  predicate Belongs(use: Use, f: nat, root: nat) {
    f == root || ((use.Mid? || use.Low? || use.User?) && use.root == root)
  }

  /** Every frame of root's address space has been freed, and no other frame has changed hands. */
  predicate Released(owner: Owner, owner': Owner, root: nat) {
    owner'.Keys == owner.Keys && forall f ::
        f in owner ==> owner'[f] == if Belongs(owner[f], f, root) then Free else owner[f]
  }

  /** Without mappings, the tables are bare. */
  lemma BareRoot(mem: Mem, owner: Owner, root: nat)
    requires Trees(mem, owner, 0, 0) && IsRoot(owner, root) && forall w: nat :: Lookup(mem, root, w) == 0
    ensures Bare(mem, owner, root)
  {
    hide Trees, Lookup, Idx2, Idx1, Idx0, Vpn;
    forall g, k | g in owner && g in mem && owner[g].Low? && (g == root || Gone(owner[g], owner[root], root, 512)) &&
      0 <= k < 512 ensures mem[g][k] == 0 {
      LowRange(mem, owner, g);
      var u := owner[g];
      Joined(u.i, u.j, k);
      Bottom(mem, owner, root, Vpn(u.i, u.j, k), g);
    }
  }

  lemma LowRange(mem: Mem, owner: Owner, g: nat)
    requires Trees(mem, owner, 0, 0) && g in owner && owner[g].Low?
    ensures owner[g].j < 512
  {
    hide V, Ppn, Idx2, Idx1, Idx0, IsLeaf, Vpn;
    assert Node(mem, owner, g, 0, 0);
  }

  /** The tables below a root have indices in range. */
  lemma InRange(mem: Mem, owner: Owner, g: nat)
    requires Trees(mem, owner, 0, 0) && g in owner && (owner[g].Mid? || owner[g].Low?)
    ensures owner[g].i < 512
  {
    hide V, Ppn, Idx2, Idx1, Idx0, IsLeaf, Vpn;
    assert Node(mem, owner, g, 0, 0);
  }

  lemma ReleasedAll(m0: Mem, o0: Owner, m1: Mem, o1: Owner, m2: Mem, o2: Owner, root: nat, n: nat)
    requires Trees(m0, o0, 0, 0) && IsRoot(o0, root) && Removed(m0, o0, m1, o1, root, 0, n, Free) &&
             Cleared(m1, o1, m2, o2, root)
    requires forall w: nat :: w >= n ==> Lookup(m0, root, w) == 0
    ensures Released(o0, o2, root)
  {
    hide Trees, Lookup, RemovedMap, RemovedData, V, Ppn;
    forall f | f in o0 ensures o2[f] == if Belongs(o0[f], f, root) then Free else o0[f] {
      if o0[f].User? && o0[f].root == root {
        Unmapped(m0, o0, root, o0[f].v, f);
        ZeroInvalid();
      }
      if o0[f].Mid? || o0[f].Low? {
        InRange(m0, o0, f);
      }
    }
  }

  /** Data and mappings that are not root's are as before. */
  ghost predicate OthersKept(mem: Mem, owner: Owner, mem': Mem, root: nat) {
    && mem.Keys == owner.Keys == mem'.Keys
    && (forall f ::
           f in owner && !Belongs(owner[f], f, root) && (owner[f].User? || owner[f] == Held) ==> mem'[f] == mem[f])
    && (forall x, w: nat :: IsRoot(owner, x) && x != root ==> Lookup(mem', x, w) == Lookup(mem, x, w))
  }

  lemma ClearedLookup(m1: Mem, o1: Owner, m2: Mem, o2: Owner, root: nat, x: nat, w: nat)
    requires Trees(m1, o1, 0, 0) && IsRoot(o1, root) && Cleared(m1, o1, m2, o2, root) && IsRoot(o1, x) && x != root
    ensures Lookup(m2, x, w) == Lookup(m1, x, w)
  {
    hide V, Ppn, Idx2, Idx1, Idx0, Node;
    Path(m1, o1, 0, 0, x, w);
  }

  lemma ReleasedOthers(m0: Mem, o0: Owner, m1: Mem, o1: Owner, m2: Mem, o2: Owner, root: nat, n: nat)
    requires Trees(m1, o1, 0, 0) && IsRoot(o0, root) && Removed(m0, o0, m1, o1, root, 0, n, Free) &&
             Cleared(m1, o1, m2, o2, root)
    ensures OthersKept(m0, o0, m2, root)
  {
    hide Trees, Lookup;
    forall x, w: nat | IsRoot(o0, x) && x != root ensures Lookup(m2, x, w) == Lookup(m0, x, w) {
      assert IsRoot(o1, x);
      ClearedLookup(m1, o1, m2, o2, root, x, w);
    }
  }

  lemma AllRemoved(m0: Mem, o0: Owner, m1: Mem, o1: Owner, root: nat, n: nat)
    requires Removed(m0, o0, m1, o1, root, 0, n, Free) && IsRoot(o0, root) && forall w: nat ::
               w >= n ==> Lookup(m0, root, w) == 0
    ensures forall w: nat :: Lookup(m1, root, w) == 0
  {
    hide Lookup;
  }

  lemma KernelPerms()
    ensures IsLeaf(PTE_R + PTE_X) && IsLeaf(PTE_R + PTE_W)
  {
  }

  lemma NoBytes()
    ensures Pages(0) == 0
  {
  }

  /** A zeroed frame is an empty page table. */
  lemma CreatedRoot(mem: Mem, owner: Owner, r: nat)
    requires Trees(mem, owner, 0, 0) && r in owner && owner[r] == Free
    ensures var m1 := mem[r := Filled(0)]; var o1 := owner[r := Root];
            && Trees(m1, o1, 0, 0) && IsRoot(o1, r) && Released(o1, owner, r) && OthersKept(mem, owner, m1, r)
            && forall w: nat :: Lookup(m1, r, w) == 0
  {
    hide V, Ppn, Idx2, Idx1, Idx0, Vpn, Node;
    var m1, o1 := mem[r := Filled(0)], owner[r := Root];
    ZeroInvalid();
    forall g | g in o1 ensures Node(m1, o1, g, 0, 0) {
      if g == r {
        EmptyRoot(m1, o1, r);
      } else if Loose(o1[g]) {
        LooseNode(m1, o1, g, 0, 0);
      } else {
        NodeKept(mem, owner, m1, o1, g, 0, 0);
      }
    }
    forall g | g in owner && g != r && (owner[g].Mid? || owner[g].Low? || owner[g].User?) ensures owner[g].root != r {
      HasRoot(mem, owner, g);
    }
    forall x, w: nat | IsRoot(owner, x) && x != r ensures Lookup(m1, x, w) == Lookup(mem, x, w) {
      OutsideLookup(mem, owner, 0, 0, r, Filled(0), x, w);
    }
  }

  lemma EmptyRoot(mem: Mem, owner: Owner, r: nat)
    requires r in mem && r in owner && owner[r] == Root && forall k :: 0 <= k < 512 ==> mem[r][k] == 0
    ensures Node(mem, owner, r, 0, 0)
  {
  }

  /** What is in a tree has a root. */
  lemma HasRoot(mem: Mem, owner: Owner, g: nat)
    requires Trees(mem, owner, 0, 0) && g in owner && (owner[g].Mid? || owner[g].Low? || owner[g].User?)
    ensures IsRoot(owner, owner[g].root)
  {
    hide V, Ppn, Idx2, Idx1, Idx0, Vpn, IsLeaf;
    assert Node(mem, owner, g, 0, 0);
  }

  lemma KeptReflexive(mem: Mem, owner: Owner)
    requires mem.Keys == owner.Keys
    ensures OthersKept(mem, owner, mem, 0)
  {
    hide Lookup;
  }

  lemma KeptTransitive(m0: Mem, o0: Owner, m1: Mem, o1: Owner, m2: Mem, r: nat)
    requires OthersKept(m0, o0, m1, r) && OthersKept(m1, o1, m2, r) && (o1 == o0 || Released(o1, o0, r))
    ensures OthersKept(m0, o0, m2, r)
  {
    hide Lookup;
    forall x, w: nat | IsRoot(o0, x) && x != r ensures Lookup(m2, x, w) == Lookup(m0, x, w) {
      assert IsRoot(o1, x);
    }
  }

  /** Mapping a lent page takes nothing but table pages of r. */
  lemma LentMapped(
    m0: Mem, o0: Owner, m1: Mem, o1: Owner, m2: Mem, o2: Owner, r: nat, v: nat, done: nat, ppn: nat, perm: nat)
    requires OthersKept(m0, o0, m1, r) && Released(o1, o0, r) && IsRoot(o1, r) && perm < 1024 && v >= TRAPFRAME &&
             done <= 1
    requires Entered(m1, o1, m2, o2, r, v, done, ppn, perm)
    ensures OthersKept(m0, o0, m2, r) && Released(o2, o0, r)
  {
    hide Lookup, MakePte;
    forall x, w: nat | IsRoot(o0, x) && x != r ensures Lookup(m2, x, w) == Lookup(m0, x, w) {
      assert IsRoot(o1, x);
    }
  }

  lemma NothingMapped(m1: Mem, o1: Owner, m2: Mem, o2: Owner, r: nat, v: nat, ppn: nat, perm: nat)
    requires IsRoot(o1, r) && perm < 1024 && Entered(m1, o1, m2, o2, r, v, 0, ppn, perm)
    ensures forall w: nat :: Lookup(m2, r, w) == Lookup(m1, r, w)
  {
    hide Lookup, MakePte;
  }

  lemma TrampolineOnly(m1: Mem, o1: Owner, m2: Mem, o2: Owner, r: nat, trampoline: nat)
    requires IsRoot(o1, r) && Entered(m1, o1, m2, o2, r, TRAMPOLINE, 1, trampoline, PTE_R + PTE_X) && forall w: nat ::
               Lookup(m1, r, w) == 0
    ensures forall w: nat :: Lookup(m2, r, w) == if w == TRAMPOLINE then MakePte(trampoline, PTE_R + PTE_X) else 0
  {
    hide Lookup, MakePte;
  }

  /** The entries of a new process's table. */
  function LentEntry(w: nat, trampoline: nat, trapframe: nat): nat {
    if w == TRAMPOLINE then MakePte(trampoline, PTE_R + PTE_X)
      else if w == TRAPFRAME then MakePte(trapframe, PTE_R + PTE_W) else 0
  }

  lemma BothMapped(m1: Mem, o1: Owner, m2: Mem, o2: Owner, r: nat, trampoline: nat, trapframe: nat)
    requires IsRoot(o1, r) && Entered(m1, o1, m2, o2, r, TRAPFRAME, 1, trapframe, PTE_R + PTE_W)
    requires forall w: nat :: Lookup(m1, r, w) == if w == TRAMPOLINE then MakePte(trampoline, PTE_R + PTE_X) else 0
    ensures forall w: nat :: Lookup(m2, r, w) == LentEntry(w, trampoline, trapframe)
  {
    hide Lookup, MakePte;
  }

  /** Unmapping a lent page frees nothing. */
  lemma LentRemoved(m1: Mem, o1: Owner, m2: Mem, o2: Owner, r: nat, v: nat)
    requires Removed(m1, o1, m2, o2, r, v, 1, Held) && v >= TRAPFRAME && IsRoot(o1, r) && Trees(m2, o2, 0, 0)
    requires Trees(m1, o1, 0, 0)
    ensures o2 == o1 && OthersKept(m1, o1, m2, r)
    ensures forall w: nat :: Lookup(m2, r, w) == if w == v then 0 else Lookup(m1, r, w)
  {
    hide Trees, Lookup, V, Ppn;
    forall f | f in o1 ensures o2[f] == o1[f] {
      if o1[f] == User(r, v) {
        Unmapped(m1, o1, r, v, f);
      }
    }
  }

  lemma CreatedAndFreed(m0: Mem, o0: Owner, m1: Mem, o1: Owner, m2: Mem, o2: Owner, r: nat)
    requires OthersKept(m0, o0, m1, r) && Released(o1, o0, r) && Released(o1, o2, r) && OthersKept(m1, o1, m2, r) &&
             r in o1
    ensures o2 == o0 && OthersKept(m0, o0, m2, 0)
  {
    hide Lookup;
    KeptTransitive(m0, o0, m1, o1, m2, r);
  }

  // ---- what the invariant means

  /** The frame behind a leaf belongs to that page of that table. */
  lemma LeafOwner(mem: Mem, owner: Owner, r: nat, v: nat)
    requires Trees(mem, owner, 0, 0) && IsRoot(owner, r) && V(Lookup(mem, r, v)) && v < TRAPFRAME
    ensures var f := Ppn(Lookup(mem, r, v)); f in owner && owner[f] == User(r, v)
  {
    hide Trees, V, Ppn, Idx2, Idx1, Idx0, IsLeaf;
    TreesFrames(mem, owner);
    ZeroInvalid();
    Path(mem, owner, 0, 0, r, v);
    var upper := Word(mem, r, Idx2(v));
    var t := Ppn(Word(mem, Ppn(upper), Idx1(v)));
    MappedFrame(mem, owner, r, v, t);
  }

  /** No frame is mapped at two places, and none that is mapped is free or holds a table. */
  lemma NoSharing(mem: Mem, owner: Owner, head: nat, free: seq<nat>, r: nat, v: nat, s: nat, w: nat)
    requires Trees(mem, owner, 0, 0) && FreeList(mem, owner, head, free) && IsRoot(owner, r) && IsRoot(owner, s) &&
             v < TRAPFRAME && w < TRAPFRAME
    requires V(Lookup(mem, r, v)) && V(Lookup(mem, s, w)) && Ppn(Lookup(mem, r, v)) == Ppn(Lookup(mem, s, w))
    ensures r == s && v == w
    ensures var f := Ppn(Lookup(mem, r, v)); f !in free && f in owner && !Table(owner[f]) && owner[f] != Held
  {
    hide Trees, V, Ppn, Lookup, Chained;
    LeafOwner(mem, owner, r, v);
    LeafOwner(mem, owner, s, w);
  }

  lemma NothingFree(mem: Mem, owner: Owner)
    requires forall f :: f in owner ==> owner[f] == Held
    ensures FreeList(mem, owner, 0, [])
  {
  }

  lemma NoTrees(mem: Mem, owner: Owner, paStart: nat)
    requires mem.Keys == owner.Keys && paStart > 0 && (forall f :: f in mem ==> f >= Pages(paStart))
    requires forall f :: f in owner ==> owner[f] == Free
    ensures Trees(mem, owner, 0, 0)
  {
  }

  class Kernel {
    var mem: Mem
    var freelist: nat
    ghost var free: seq<nat>
    ghost var owner: Owner

    ghost predicate Valid()
      reads this
    {
      Trees(mem, owner, 0, 0) && FreeList(mem, owner, freelist, free)
    }

    /** kinit and freerange: the whole pages from paStart to paEnd are freed one by one, whatever is in them. */
    constructor (ram: Mem, paStart: nat, paEnd: nat)
      requires paStart > 0 && forall f :: f in ram <==> Pages(paStart) <= f < paEnd / PGSIZE
      ensures Valid() && owner.Keys == ram.Keys && forall f :: f in owner ==> owner[f] == Free
    {
      mem, owner, freelist, free := ram, map f | f in ram :: Held, 0, [];
      new;
      hide FreeList, Pages;
      NothingFree(mem, owner);
      var p := Pages(paStart);
      while (p + 1) * PGSIZE <= paEnd
        invariant p >= Pages(paStart) && FreeList(mem, owner, freelist, free) && mem.Keys == owner.Keys == ram.Keys
        invariant forall f :: f in owner ==> owner[f] == if f < p then Free else Held
        decreases paEnd - p * PGSIZE
      {
        Kfree(p);
        p := p + 1;
      }
      NoTrees(mem, owner, paStart);
    }

    /** kalloc: takes the first free frame, or returns 0 when there is none. */
    method Kalloc() returns (r: nat)
      requires FreeList(mem, owner, freelist, free) && 0 !in mem
      modifies this
      ensures FreeList(mem, owner, freelist, free)
      ensures r == 0 <==> old(free) == []
      ensures if r == 0 then mem == old(mem) && owner == old(owner) && free == old(free)
              else r == old(free)[0] && free == old(free)[1..] && r in old(owner) && old(owner)[r] == Free
                   && mem == old(mem)[r := Filled(JUNK_TAKEN)] && owner == old(owner)[r := Held]
    {
      hide Filled, FreeList, FrameAt;
      NullHead(mem, owner, freelist, free);
      r := freelist;
      if r != 0 {
        Popped(mem, owner, freelist, free, Filled(JUNK_TAKEN));
        freelist := FrameAt(mem[r][0]);
        mem := mem[r := Filled(JUNK_TAKEN)];
        free := free[1..];
        owner := owner[r := Held];
      }
    }

    /** kfree: puts a frame at the head of the free list. */
    method Kfree(f: nat)
      requires FreeList(mem, owner, freelist, free) && f in mem && f in owner && owner[f] == Held
      modifies this
      ensures FreeList(mem, owner, freelist, free) && free == [f] + old(free)
      ensures owner == old(owner)[f := Free] && mem.Keys == old(mem).Keys && forall g ::
                g in mem && g != f ==> mem[g] == old(mem)[g]
    {
      hide Filled, FreeList, Address;
      var page := Filled(JUNK_FREED)[0 := Address(freelist)];
      Pushed(mem, owner, freelist, free, f, page);
      mem := mem[f := page];
      freelist := f;
      free := [f] + free;
      owner := owner[f := Free];
    }

    /** The allocating branch of walk's loop. */
    method Extend(root: nat, v: nat, level: nat, t: nat) returns (n: nat)
      requires Valid() && IsRoot(owner, root) && v < MAXPAGE && 1 <= level <= 2 && Reached(owner, root, v, level, t)
      requires t in mem && Px(level, v) < 512 && mem[t][Px(level, v)] == 0
      modifies this
      ensures Valid() && IsRoot(owner, root) && Quiet(old(mem), old(owner), mem, owner, root)
      ensures if n == 0 then old(free) == [] && mem == old(mem) && owner == old(owner) && free == old(free)
              else Reached(owner, root, v, level - 1, n) && |free| == |old(free)| - 1
    {
      hide Trees, FreeList, Quiet, Filled, MakePte, Idx2, Idx1;
      TreesFrames(mem, owner);
      ghost var m0, o0 := mem, owner;
      QuietReflexive(m0, o0, root);
      n := Kalloc();
      if n == 0 { return; }
      ghost var m1, o1 := mem, owner;
      mem := mem[n := Filled(0)];
      mem := mem[t := mem[t][Px(level, v) := MakePte(n, 0)]];
      owner := owner[n := Below(root, v, level)];
      assert mem == Grown(m0, t, Px(level, v), n);
      GrownTrees(m0, o0, root, v, level, t, n);
      GrownQuiet(m0, o0, root, v, level, t, n);
      assert o0[n := Below(root, v, level)] == owner;
      FreeListKept(m1, o1, freelist, free, mem, owner);
    }

    /** walk: the lowest-level table for page v, or 0. */
    method Walk(root: nat, v: nat, alloc: bool) returns (t: nat)
      requires Valid() && IsRoot(owner, root) && v < MAXPAGE
      modifies this
      ensures Valid() && IsRoot(owner, root) && Quiet(old(mem), old(owner), mem, owner, root)
      ensures t != 0 ==> Reached(owner, root, v, 0, t) && t in mem && mem[t][Idx0(v)] == Lookup(mem, root, v)
      ensures t == 0 ==> Lookup(mem, root, v) == 0 && (alloc ==> free == [])
      ensures !alloc ==> mem == old(mem) && owner == old(owner) && free == old(free) && freelist == old(freelist)
      ensures |free| >= |old(free)| - 2
    {
      hide Trees, FreeList, Quiet, Idx2, Idx1, Idx0, V, Ppn, Lookup, Px;
      TreesFrames(mem, owner);
      QuietReflexive(mem, owner, root);
      t := root;
      var level := 2;
      while level > 0
        invariant 0 <= level <= 2 && t != 0
        invariant Valid() && IsRoot(owner, root) && Quiet(old(mem), old(owner), mem, owner, root)
        invariant Reached(owner, root, v, level, t)
        invariant !alloc ==> mem == old(mem) && owner == old(owner) && free == old(free) && freelist == old(freelist)
        invariant |free| >= |old(free)| - (2 - level)
      {
        Descend(mem, owner, root, v, level, t);
        var pte := mem[t][Px(level, v)];
        if V(pte) {
          t := Ppn(pte);
        } else {
          if !alloc { return 0; }
          ghost var m1, o1 := mem, owner;
          var n := Extend(root, v, level, t);
          if n == 0 { return 0; }
          QuietTransitive(old(mem), old(owner), m1, o1, mem, owner, root);
          t := n;
        }
        level := level - 1;
        TreesFrames(mem, owner);
      }
      Bottom(mem, owner, root, v, t);
    }

    /** The body of mappages's loop. */
    method MapPage(root: nat, v: nat, i: nat, ppn: nat, perm: nat, ghost m0: Mem, ghost o0: Owner) returns (ok: bool)
      requires Valid() && IsRoot(owner, root) && IsRoot(o0, root) && v + i < MAXPAGE && perm < 1024 && IsLeaf(perm)
      requires Entered(m0, o0, mem, owner, root, v, i, ppn, perm) && Lookup(m0, root, v + i) == 0
      requires v + i < TRAPFRAME ==> ppn + i in o0 && o0[ppn + i] == Held
      modifies this
      ensures Valid() && IsRoot(owner, root) && Entered(m0, o0, mem, owner, root, v, if ok then i + 1 else i, ppn, perm)
      ensures !ok ==> free == []
      ensures |free| >= |old(free)| - 2
    {
      hide Trees, FreeList, Quiet, Lookup, MakePte, IsLeaf, Idx0, EnteredUses, EnteredMap, SameData, Reached;
      ghost var m1, o1 := mem, owner;
      var t := Walk(root, v + i, true);
      EnteredQuiet(m0, o0, m1, o1, mem, owner, root, v, i, ppn, perm);
      if t == 0 { return false; }
      NextIsClear(m0, o0, mem, owner, root, v, i, ppn, perm);
      ReachedLow(owner, root, v + i, t);
      EnteredOne(m0, o0, mem, owner, root, v, i, ppn, perm, t);
      ghost var m2, o2 := mem, owner;
      mem := mem[t := mem[t][Idx0(v + i) := MakePte(ppn + i, perm)]];
      owner := Mapped(owner, root, v + i, ppn + i);
      MappedKeepsFree(m2, o2, freelist, free, root, v + i, t, ppn + i, MakePte(ppn + i, perm));
      EnteredRoot(m0, o0, mem, owner, root, v, i + 1, ppn, perm);
      return true;
    }

    /** mappages: maps n pages from v to the frames from ppn, or as many as table pages could be had for. */
    method Mappages(root: nat, v: nat, n: nat, ppn: nat, perm: nat) returns (ok: bool, ghost done: nat)
      requires Valid() && IsRoot(owner, root) && n > 0 && v + n <= MAXPAGE && perm < 1024 && IsLeaf(perm)
      requires forall w :: v <= w < v + n ==> Lookup(mem, root, w) == 0
      requires forall f :: ppn <= f < ppn + n && v + (f - ppn) < TRAPFRAME ==> f in owner && owner[f] == Held
      modifies this
      ensures Valid() && IsRoot(owner, root)
      ensures if ok then done == n else done < n && free == []
      ensures |free| >= |old(free)| - 2 * n
      ensures Entered(old(mem), old(owner), mem, owner, root, v, done, ppn, perm)
    {
      hide Trees, FreeList, Lookup, IsLeaf, Entered;
      TreesFrames(mem, owner);
      EnteredNone(mem, owner, root, v, ppn, perm);
      done := 0;
      var i := 0;
      while true
        invariant 0 <= i < n && done == i && |free| >= |old(free)| - 2 * i
        invariant Valid() && IsRoot(owner, root) && Entered(old(mem), old(owner), mem, owner, root, v, i, ppn, perm)
        decreases n - i
      {
        var mapped := MapPage(root, v, i, ppn, perm, old(mem), old(owner));
        if !mapped { return false, done; }
        done := done + 1;
        if i == n - 1 { break; }
        i := i + 1;
      }
      return true, done;
    }

    /** The body of uvmunmap's loop, for a mapped page. */
    method RemovePage(root: nat, v: nat, t: nat, doFree: bool)
      requires Valid() && IsRoot(owner, root) && Reached(owner, root, v, 0, t) && t in mem && V(mem[t][Idx0(v)])
      requires doFree ==> v < TRAPFRAME
      modifies this
      ensures Valid() && Removed(old(mem), old(owner), mem, owner, root, v, 1, if doFree then Free else Held)
      ensures doFree ==> free == [Ppn(old(mem)[t][Idx0(v)])] + old(free)
      ensures !doFree ==> free == old(free)
    {
      hide Trees, FreeList, Lookup, Idx0, Idx1, Idx2, V, Ppn, Removed, IsLeaf;
      ghost var m0, o0 := mem, owner;
      TreesFrames(mem, owner);
      MappedFrame(mem, owner, root, v, t);
      ZeroInvalid();
      var f := Ppn(mem[t][Idx0(v)]);
      if v < TRAPFRAME {
        owner := owner[f := Held];
        FreeListKept(mem, o0, freelist, free, mem, owner);
      }
      if doFree {
        Kfree(f);
        assert owner == o0[f := Free];
      }
      ghost var m1 := mem;
      mem := mem[t := mem[t][Idx0(v) := 0]];
      FreeListKept(m1, owner, freelist, free, mem, owner);
      if v < TRAPFRAME {
        assert m1 == m0[f := m1[f]];
        RemoveUser(m0, o0, root, v, t, f, m1[f], owner[f]);
        RemovedUser(m0, o0, root, v, t, f, m1[f], owner[f]);
      } else {
        RemoveLent(m0, o0, root, v, t);
        RemovedLent(m0, o0, root, v, t, Held);
      }
    }

    /** uvmunmap: the pages from v to v + n are unmapped, and their frames freed if doFree. */
    method Uvmunmap(root: nat, v: nat, n: nat, doFree: bool)
      requires Valid() && IsRoot(owner, root) && v + n <= MAXPAGE && (doFree ==> v + n <= TRAPFRAME)
      modifies this
      ensures Valid() && IsRoot(owner, root) && Removed(old(mem), old(owner), mem, owner, root, v, n, if doFree then
              Free else Held)
      ensures |free| <= |old(free)| + n
    {
      hide Trees, FreeList, Lookup, Idx0, V, Ppn, Removed, Reached, Quiet;
      ghost var to := if doFree then Free else Held;
      TreesFrames(mem, owner);
      RemovedNone(mem, owner, root, v, to);
      var a := v;
      while a < v + n
        invariant v <= a <= v + n && Valid() && IsRoot(owner, root) && |free| <= |old(free)| + (a - v)
        invariant Removed(old(mem), old(owner), mem, owner, root, v, a - v, to)
      {
        ghost var m1, o1 := mem, owner;
        var t := Walk(root, a, false);
        if t != 0 && V(mem[t][Idx0(a)]) {
          RemovePage(root, a, t, doFree);
        } else {
          if t != 0 {
            MappedFrame(mem, owner, root, a, t);
          }
          RemovedAbsent(mem, owner, root, a, to);
        }
        RemovedMore(old(mem), old(owner), m1, o1, mem, owner, root, v, a - v, to);
        RemovedRoot(m1, o1, mem, owner, root, a, 1, to, root);
        a := a + 1;
      }
    }

    /** The step shared by uvmalloc, uvmcopy and vmfault: a frame is taken, filled and mapped at a, or given back. */
    method AddPage(
      root: nat, a: nat, perm: nat, page: Page, ghost m0: Mem, ghost o0: Owner,
      ghost want: map<nat, Content>) returns (f: nat)
      requires Valid() && IsRoot(o0, root) && a < TRAPFRAME && perm < 1024 && IsLeaf(perm) && Lookup(mem, root, a) == 0
      requires Installed(m0, o0, mem, owner, root, want) && a !in want
      modifies this
      ensures Valid() && Installed(m0, o0, mem, owner, root, if f == 0 then want else want[a := Content(perm, page)])
      ensures f != 0 ==> f in owner && owner[f] == User(root, a) && Ppn(Lookup(mem, root, a)) == f
      ensures f == 0 ==> |free| <= 1
    {
      hide Trees, FreeList, Lookup, MakePte, IsLeaf, Entered, Installed, V, Ppn;
      InstalledRoot(m0, o0, mem, owner, root, want, root);
      ghost var m1, o1 := mem, owner;
      TreesFrames(mem, owner);
      f := Kalloc();
      if f == 0 { return; }
      ghost var m2, o2 := mem, owner;
      mem := mem[f := page];
      Outside(m1, o1, 0, 0, f, page, Held);
      assert mem == m1[f := page];
      OutsideLookup(m1, o1, 0, 0, f, page, root, a);
      FreeListKept(m2, o2, freelist, free, mem, owner);
      ghost var m3, o3 := mem, owner;
      var ok, done := Mappages(root, a, 1, f, perm);
      if !ok {
        ghost var m4, o4 := mem, owner;
        EnteredHeld(m3, o3, mem, owner, root, a, f, perm);
        Kfree(f);
        InstalledBack(m0, o0, m1, o1, root, want, f, page, m4, o4, mem, a, perm);
        return 0;
      }
      InstalledOne(m0, o0, m1, o1, root, want, f, page, mem, owner, a, perm);
      EnteredUser(m3, o3, mem, owner, root, a, f, perm);
    }

    /** uvmdealloc: shrinks from oldsz to newsz bytes. */
    method Uvmdealloc(root: nat, oldsz: nat, newsz: nat) returns (r: nat)
      requires Valid() && IsRoot(owner, root) && oldsz <= TRAPFRAME * PGSIZE
      modifies this
      ensures Valid() && IsRoot(owner, root)
      ensures if newsz >= oldsz then r == oldsz && mem == old(mem) && owner == old(owner)
              else r == newsz && Removed(old(mem), old(owner), mem, owner, root, Pages(newsz),
                Pages(oldsz) - Pages(newsz), Free)
      ensures |free| <= |old(free)| + if newsz >= oldsz then 0 else Pages(oldsz) - Pages(newsz)
    {
      hide Trees, FreeList, Removed, Lookup;
      if newsz >= oldsz { return oldsz; }
      PagesMonotone(newsz, oldsz);
      PagesMonotone(oldsz, TRAPFRAME * PGSIZE);
      if Pages(newsz) < Pages(oldsz) {
        Uvmunmap(root, Pages(newsz), Pages(oldsz) - Pages(newsz), true);
      } else {
        TreesFrames(mem, owner);
        RemovedNone(mem, owner, root, Pages(newsz), Free);
      }
      return newsz;
    }

    /** uvmalloc: grows from oldsz to newsz bytes with zeroed pages; on failure it returns 0 and every
        data page it took, and not more frames than it would have needed are free. */
    method Uvmalloc(root: nat, oldsz: nat, newsz: nat, xperm: nat) returns (r: nat)
      requires Valid() && IsRoot(owner, root) && newsz <= TRAPFRAME * PGSIZE &&
               (xperm == 0 || xperm == PTE_W || xperm == PTE_X || xperm == PTE_W + PTE_X)
      requires forall w :: Pages(oldsz) <= w < TRAPFRAME ==> Lookup(mem, root, w) == 0
      modifies this
      ensures Valid() && IsRoot(owner, root)
      ensures newsz < oldsz ==> r == oldsz && mem == old(mem) && owner == old(owner)
      ensures newsz >= oldsz ==> r == newsz || (r == 0 && Quiet(old(mem), old(owner), mem, owner, root))
      ensures r == 0 && newsz != 0 && newsz >= oldsz ==> |free| <= Pages(newsz) - Pages(oldsz)
      ensures newsz >= oldsz && r == newsz && r != 0 ==>
                Installed(old(mem), old(owner), mem, owner, root,
                  ZeroPages(Pages(oldsz), Pages(newsz), PTE_R + PTE_U + xperm))
    {
      hide Trees, FreeList, Lookup, IsLeaf, Installed, Filled, Pages, Quiet, Removed;
      if newsz < oldsz { return oldsz; }
      ghost var m0, o0 := mem, owner;
      TreesFrames(mem, owner);
      InstalledNone(mem, owner, root);
      var from := Pages(oldsz);
      var perm := PTE_R + PTE_U + xperm;
      GrowthPerm(xperm);
      PagesMonotone(newsz, TRAPFRAME * PGSIZE);
      PagesMonotone(oldsz, newsz);
      ghost var want: map<nat, Content> := map[];
      var a := from;
      PagesOf(a, newsz);
      while a * PGSIZE < newsz
        invariant from <= a <= Pages(newsz) && (a * PGSIZE < newsz <==> a < Pages(newsz))
        invariant Valid() && IsRoot(owner, root) && Installed(m0, o0, mem, owner, root, want)
        invariant want == ZeroPages(from, a, perm)
        decreases Pages(newsz) - a
      {
        InstalledLookup(m0, o0, mem, owner, root, want, root, a);
        var f := AddPage(root, a, perm, Filled(0), m0, o0, want);
        if f == 0 {
          InstalledRoot(m0, o0, mem, owner, root, want, root);
          ghost var m1, o1 := mem, owner;
          PagesOf(a, 0);
          PagesOf(from, 0);
          var _ := Uvmdealloc(root, a * PGSIZE, from * PGSIZE);
          if a == from {
            TreesFrames(mem, owner);
            RemovedNone(mem, owner, root, from, Free);
          }
          assert Removed(m1, o1, mem, owner, root, from, a - from, Free);
          InstalledRemoved(m0, o0, m1, o1, mem, owner, root, want, from, a - from);
          return 0;
        }
        want := want[a := Content(perm, Filled(0))];
        InstalledRoot(m0, o0, mem, owner, root, want, root);
        a := a + 1;
        PagesOf(a, newsz);
      }
      return newsz;
    }

    /** vmfault: a first touch of a page below sz maps a zeroed frame there; otherwise, or when frames
        run out, it returns 0 and changes no mapping. */
    method Vmfault(root: nat, va: nat, sz: nat) returns (f: nat)
      requires Valid() && IsRoot(owner, root) && sz <= TRAPFRAME * PGSIZE
      modifies this
      ensures Valid() && IsRoot(owner, root)
      ensures f == 0 ==>
                Quiet(old(mem), old(owner), mem, owner, root) &&
                (va >= sz || V(old(Lookup(mem, root, va / PGSIZE))) || |free| <= 1)
      ensures f != 0 ==> va < sz && old(Lookup(mem, root, va / PGSIZE)) == 0
                         && Installed(old(mem), old(owner), mem, owner, root,
                              map[va / PGSIZE := Content(PTE_W + PTE_U + PTE_R, Filled(0))])
                         && Ppn(Lookup(mem, root, va / PGSIZE)) == f
    {
      hide Trees, FreeList, Lookup, IsLeaf, Installed, Filled, Quiet, V, Ppn, Idx0, Reached;
      TreesFrames(mem, owner);
      QuietReflexive(mem, owner, root);
      if va >= sz { return 0; }
      var v := va / PGSIZE;
      var t := Walk(root, v, false);
      if t != 0 {
        if V(mem[t][Idx0(v)]) { return 0; }
        MappedFrame(mem, owner, root, v, t);
      }
      ghost var m0, o0 := mem, owner;
      InstalledNone(mem, owner, root);
      GrowthPerm(PTE_W);
      f := AddPage(root, v, PTE_W + PTE_U + PTE_R, Filled(0), m0, o0, map[]);
      if f == 0 {
        InstalledNothing(m0, o0, mem, owner, root);
        InstalledRoot(m0, o0, mem, owner, root, map[], root);
      } else {
        InstalledRoot(m0, o0, mem, owner, root, map[][v := Content(PTE_W + PTE_U + PTE_R, Filled(0))], root);
      }
    }

    /** uvmcopy: the child gets a copy, page by page, of what is mapped below sz; on failure every data page
        taken is returned. */
    method Uvmcopy(parent: nat, child: nat, sz: nat) returns (ok: bool)
      requires Valid() && IsRoot(owner, parent) && IsRoot(owner, child) && parent != child && sz <= TRAPFRAME * PGSIZE
      requires forall w :: 0 <= w < Pages(sz) ==> Lookup(mem, child, w) == 0
      modifies this
      ensures Valid() && IsRoot(owner, parent) && IsRoot(owner, child)
      ensures if ok then Installed(old(mem), old(owner), mem, owner, child, Copies(old(mem), parent, Pages(sz)))
              else Quiet(old(mem), old(owner), mem, owner, child) && |free| <= Pages(sz)
    {
      hide Trees, FreeList, Lookup, IsLeaf, Installed, Pages, Quiet, Removed, V, Ppn, Flags, Idx0, Reached, Copies,
           Filled;
      ghost var m0, o0 := mem, owner;
      TreesFrames(mem, owner);
      InstalledNone(mem, owner, child);
      PagesMonotone(sz, TRAPFRAME * PGSIZE);
      NoCopies(m0, parent);
      var i := 0;
      PagesOf(i, sz);
      while i * PGSIZE < sz
        invariant 0 <= i <= Pages(sz) && (i * PGSIZE < sz <==> i < Pages(sz))
        invariant Valid() && IsRoot(owner, parent) && IsRoot(owner, child)
        invariant Installed(m0, o0, mem, owner, child, Copies(m0, parent, i))
        decreases Pages(sz) - i
      {
        ghost var want := Copies(m0, parent, i);
        CopiesBelow(m0, parent, i);
        InstalledLookup(m0, o0, mem, owner, child, want, parent, i);
        InstalledLookup(m0, o0, mem, owner, child, want, child, i);
        ZeroInvalid();
        var t := Walk(parent, i, false);
        if t != 0 && V(mem[t][Idx0(i)]) {
          var pte := mem[t][Idx0(i)];
          MappedFrame(mem, owner, parent, i, t);
          LeafFlags(pte);
          CopiedFrame(m0, o0, mem, owner, child, want, Ppn(pte), parent, i);
          var f := AddPage(child, i, Flags(pte), mem[Ppn(pte)], m0, o0, want);
          if f == 0 {
            InstalledRoot(m0, o0, mem, owner, child, want, parent);
            InstalledRoot(m0, o0, mem, owner, child, want, child);
            ghost var m1, o1 := mem, owner;
            Uvmunmap(child, 0, i, true);
            InstalledRemoved(m0, o0, m1, o1, mem, owner, child, want, 0, i);
            RemovedRoot(m1, o1, mem, owner, child, 0, i, Free, parent);
            return false;
          }
          MoreCopies(m0, parent, i);
          InstalledRoot(m0, o0, mem, owner, child, Copies(m0, parent, i + 1), parent);
          InstalledRoot(m0, o0, mem, owner, child, Copies(m0, parent, i + 1), child);
        } else {
          if t != 0 {
            MappedFrame(mem, owner, parent, i, t);
          }
          MoreCopies(m0, parent, i);
        }
        i := i + 1;
        PagesOf(i, sz);
      }
      return true;
    }

    /** freewalk: frees a table whose leaves are gone, with every table below it, and never meets a leaf. */
    method Freewalk(f: nat, ghost level: nat, ghost p: nat, ghost k: nat)
      requires Valid() && f in owner && Table(owner[f]) && level == Depth(owner[f]) && Bare(mem, owner, f)
      requires owner[f].Root? || (p in owner && Table(owner[p]) && k < 512 && Child(owner[p], p, k) == owner[f])
      modifies this
      ensures FreeList(mem, owner, freelist, free) && Cleared(old(mem), old(owner), mem, owner, f)
      ensures if old(owner)[f].Root? then Trees(mem, owner, 0, 0) else Trees(mem, owner, p, k)
      decreases level
    {
      hide Trees, FreeList, V, IsLeaf, Ppn, Swept, Cleared, Bare, Gone;
      ghost var m0, o0 := mem, owner;
      TreesFrames(mem, owner);
      SweptNone(mem, owner, f);
      var i := 0;
      while i < 512
        invariant 0 <= i <= 512 && Valid() && f in owner && owner[f] == o0[f] && f in mem
        invariant Swept(m0, o0, mem, owner, f, i) && mem.Keys == owner.Keys == o0.Keys
      {
        SweptBare(m0, o0, mem, owner, f, i);
        EntryOf(mem, owner, f, i);
        var pte := mem[f][i];
        if V(pte) && !IsLeaf(pte) {
          ghost var m1, o1 := mem, owner;
          BareChild(m0, o0, mem, owner, f, i, Ppn(pte));
          Freewalk(Ppn(pte), level - 1, f, i);
          SweptChild(m0, o0, m1, o1, mem, owner, f, i, Ppn(pte));
          ClearedKeys(m1, o1, mem, owner, Ppn(pte));
          ClearedChild(m1, o1, mem, owner, f, i, Ppn(pte));
          CloseEntry(mem, owner, f, i, f, i);
          ghost var m2 := mem;
          mem := mem[f := mem[f][i := 0]];
          FreeListKept(m2, owner, freelist, free, mem, owner);
        } else if V(pte) {
          assert false;
        } else {
          SweptEmpty(m0, o0, mem, owner, f, i);
        }
        i := i + 1;
      }
      GiveUp(f, p, k, m0, o0);
    }

    /** The end of freewalk: the table, now empty, is freed. */
    method GiveUp(f: nat, ghost p: nat, ghost k: nat, ghost m0: Mem, ghost o0: Owner)
      requires Valid() && f in owner && f in o0 && Table(o0[f]) && owner[f] == o0[f] && f in mem &&
               Swept(m0, o0, mem, owner, f, 512) && mem.Keys == owner.Keys
      requires o0[f].Root? || (p in o0 && Table(o0[p]) && k < 512 && Child(o0[p], p, k) == o0[f])
      modifies this
      ensures FreeList(mem, owner, freelist, free) && Cleared(m0, o0, mem, owner, f)
      ensures if o0[f].Root? then Trees(mem, owner, 0, 0) else Trees(mem, owner, p, k)
    {
      hide Trees, FreeList, Swept, Cleared;
      ghost var m1: Mem, o1: Owner := mem, owner;
      SweptZero(m0, o0, mem, owner, f);
      if owner[f].Root? {
        OpenRoot(mem, owner, f);
      } else {
        SweptParent(m0, o0, mem, owner, f, p, k);
        OpenTable(mem, owner, f, p, k);
      }
      owner := owner[f := Held];
      FreeListKept(mem, o1, freelist, free, mem, owner);
      ghost var h, j := if o0[f].Root? then 0 else p, if o0[f].Root? then 0 else k;
      Kfree(f);
      assert mem == m1[f := mem[f]];
      Outside(m1, o1[f := Held], h, j, f, mem[f], Free);
      assert owner == o1[f := Held][f := Free] == o1[f := Free];
      SweptAll(m0, o0, m1, o1, mem, f);
    }

    /** uvmfree: frees the pages below sz and then all table pages. */
    method Uvmfree(root: nat, sz: nat)
      requires Valid() && IsRoot(owner, root) && sz <= TRAPFRAME * PGSIZE
      requires forall w: nat :: w >= Pages(sz) ==> Lookup(mem, root, w) == 0
      modifies this
      ensures Valid() && Released(old(owner), owner, root) && OthersKept(old(mem), old(owner), mem, root)
    {
      hide Trees, FreeList, Lookup, Removed, Cleared, Bare, Pages, Released, OthersKept;
      ghost var m0, o0 := mem, owner;
      TreesFrames(mem, owner);
      RemovedNone(mem, owner, root, 0, Free);
      PagesMonotone(sz, TRAPFRAME * PGSIZE);
      PagesOf(0, sz);
      if sz > 0 {
        Uvmunmap(root, 0, Pages(sz), true);
      }
      ghost var m1, o1 := mem, owner;
      AllRemoved(m0, o0, m1, o1, root, Pages(sz));
      BareRoot(mem, owner, root);
      Freewalk(root, 2, 0, 0);
      ReleasedAll(m0, o0, m1, o1, mem, owner, root, Pages(sz));
      ReleasedOthers(m0, o0, m1, o1, mem, owner, root, Pages(sz));
    }

    /** uvmcreate: an empty page table. */
    method Uvmcreate() returns (r: nat)
      requires Valid()
      modifies this
      ensures Valid() && (r == 0 <==> old(free) == []) && |free| >= |old(free)| - 1
      ensures r == 0 ==> mem == old(mem) && owner == old(owner)
      ensures r != 0 ==> IsRoot(owner, r) && Released(owner, old(owner), r) && OthersKept(old(mem), old(owner), mem, r)
                         && forall w: nat :: Lookup(mem, r, w) == 0
    {
      hide Trees, FreeList, Lookup, Filled, Released, OthersKept;
      ghost var m0, o0 := mem, owner;
      TreesFrames(mem, owner);
      r := Kalloc();
      if r == 0 { return; }
      ghost var m1, o1 := mem, owner;
      mem := mem[r := Filled(0)];
      owner := owner[r := Root];
      FreeListKept(m1, o1, freelist, free, mem, owner);
      CreatedRoot(m0, o0, r);
      assert mem == m0[r := Filled(0)] && owner == o0[r := Root];
    }

    /** proc_pagetable: a table with only the trampoline and the trapframe; on failure every frame is where it was. */
    method ProcPagetable(trampoline: nat, trapframe: nat) returns (r: nat)
      requires Valid()
      modifies this
      ensures Valid() && (r == 0 ==> owner == old(owner) && |old(free)| <= 5)
      ensures OthersKept(old(mem), old(owner), mem, r)
      ensures r != 0 ==> IsRoot(owner, r) && Released(owner, old(owner), r)
      ensures r != 0 ==> forall w: nat :: Lookup(mem, r, w) == LentEntry(w, trampoline, trapframe)
    {
      hide Trees, FreeList, Lookup, MakePte, IsLeaf, Entered, Removed, Released, OthersKept, Pages;
      ghost var m0, o0 := mem, owner;
      TreesFrames(mem, owner);
      KeptReflexive(mem, owner);
      r := Uvmcreate();
      if r == 0 { return; }
      KernelPerms();
      NoBytes();
      ghost var m1, o1 := mem, owner;
      var ok, done := Mappages(r, TRAMPOLINE, 1, trampoline, PTE_R + PTE_X);
      LentMapped(m0, o0, m1, o1, mem, owner, r, TRAMPOLINE, done, trampoline, PTE_R + PTE_X);
      if !ok {
        NothingMapped(m1, o1, mem, owner, r, TRAMPOLINE, trampoline, PTE_R + PTE_X);
        ghost var m2, o2 := mem, owner;
        Uvmfree(r, 0);
        CreatedAndFreed(m0, o0, m2, o2, mem, owner, r);
        return 0;
      }
      TrampolineOnly(m1, o1, mem, owner, r, trampoline);
      ghost var m2, o2 := mem, owner;
      var ok', done' := Mappages(r, TRAPFRAME, 1, trapframe, PTE_R + PTE_W);
      LentMapped(m0, o0, m2, o2, mem, owner, r, TRAPFRAME, done', trapframe, PTE_R + PTE_W);
      ghost var m3, o3 := mem, owner;
      if !ok' {
        NothingMapped(m2, o2, mem, owner, r, TRAPFRAME, trapframe, PTE_R + PTE_W);
        Uvmunmap(r, TRAMPOLINE, 1, false);
        LentRemoved(m3, o3, mem, owner, r, TRAMPOLINE);
        KeptTransitive(m0, o0, m3, o3, mem, r);
        ghost var m4, o4 := mem, owner;
        Uvmfree(r, 0);
        CreatedAndFreed(m0, o0, m4, o4, mem, owner, r);
        return 0;
      }
      BothMapped(m2, o2, mem, owner, r, trampoline, trapframe);
    }

    /** proc_freepagetable: frees every frame of the address space; the lent pages are not its own. */
    method ProcFreepagetable(root: nat, sz: nat)
      requires Valid() && IsRoot(owner, root) && sz <= TRAPFRAME * PGSIZE
      requires forall w: nat :: w >= Pages(sz) && w != TRAMPOLINE && w != TRAPFRAME ==> Lookup(mem, root, w) == 0
      modifies this
      ensures Valid() && Released(old(owner), owner, root) && OthersKept(old(mem), old(owner), mem, root)
    {
      hide Trees, FreeList, Lookup, Removed, Released, OthersKept, Pages;
      ghost var m0, o0 := mem, owner;
      Uvmunmap(root, TRAMPOLINE, 1, false);
      LentRemoved(m0, o0, mem, owner, root, TRAMPOLINE);
      ghost var m1, o1 := mem, owner;
      Uvmunmap(root, TRAPFRAME, 1, false);
      LentRemoved(m1, o1, mem, owner, root, TRAPFRAME);
      KeptTransitive(m0, o0, m1, o1, mem, root);
      ghost var m2, o2 := mem, owner;
      Uvmfree(root, sz);
      KeptTransitive(m0, o0, m2, o2, mem, root);
    }
  }
}
