/**
  * What the page tables of Vm mean to a user program: the address translation of the Sv39 scheme (sections 4.3
  * and 4.4 of the RISC-V Privileged Architecture), level by level over byte addresses and permission bits, and
  * what kernel/vm.c gives and denies through it.
  */
module Mmu {
  import opened Params
  import opened PageTables
  import opened Vm

  datatype Access = Load | Store | Fetch

  /** The nine bits of a virtual address that index the table of a level. */
  function Px(level: nat, va: nat): nat {
    (if level == 0 then va / 0x1000 else if level == 1 then va / 0x20_0000 else va / 0x4000_0000) % 512
  }

  predicate Readable(pte: nat) { pte / 2 % 2 == 1 }

  predicate Writable(pte: nat) { pte / 4 % 2 == 1 }

  predicate Executable(pte: nat) { pte / 8 % 2 == 1 }

  predicate ForUser(pte: nat) { pte / 16 % 2 == 1 }

  /** A user program may access a page in this way. */
  predicate Permits(pte: nat, a: Access) {
    && ForUser(pte) && (Writable(pte) ==> Readable(pte))
    && match a
       case Load => Readable(pte)
       case Store => Writable(pte)
       case Fetch => Executable(pte)
  }

  /** The physical address that the hardware finds for va in user mode, starting with the table of a level. */
  function Translate(mem: Mem, table: nat, va: nat, level: nat, a: Access): Option<nat>
    decreases level
  {
    var pte := Word(mem, table, Px(level, va));
    var pages := if level == 0 then 1 else if level == 1 then 512 else 262144;
    if pte % 2 == 0 || (!Readable(pte) && Writable(pte)) then None
    else if Readable(pte) || Executable(pte) then
      if Permits(pte, a) && pte / 1024 % pages == 0 then Some(pte / 1024 * PGSIZE + va % (pages * PGSIZE)) else None
    else if level == 0 then None
    else Translate(mem, pte / 1024, va, level - 1, a)
  }

  function UserView(mem: Mem, root: nat, va: nat, a: Access): Option<nat> {
    Translate(mem, root, va, 2, a)
  }

  lemma PxIs(v: nat, o: nat)
    requires v < MAXPAGE && o < PGSIZE
    ensures Px(2, v * PGSIZE + o) == Idx2(v) && Px(1, v * PGSIZE + o) == Idx1(v) && Px(0, v * PGSIZE + o) == Idx0(v)
  {
    var va := v * PGSIZE + o;
    assert va / 0x1000 == v;
    Chunk(va, 512);
    Chunk(va, 262144);
  }

  lemma Chunk(va: nat, n: nat)
    requires n == 512 || n == 262144
    ensures va / (0x1000 * n) == va / 0x1000 / n
  {
  }

  lemma LeafIs(pte: nat)
    ensures IsLeaf(pte) <==> Readable(pte) || Writable(pte) || Executable(pte)
  {
    var b := pte / 2;
    assert pte / 4 == b / 2 && pte / 8 == b / 4;
    LowBits(b);
  }

  /** The three low bits of a number. */
  lemma LowBits(b: nat)
    ensures b % 8 == b % 2 + 2 * (b / 2 % 2) + 4 * (b / 4 % 2)
  {
    var q, r := b / 8, b % 8;
    assert b == 8 * q + r;
    assert b / 2 == 4 * q + r / 2 && b / 4 == 2 * q + r / 4;
  }

  /** The three entries of a walk. */
  lemma Entries(mem: Mem, owner: Owner, r: nat, v: nat)
    requires Trees(mem, owner, 0, 0) && IsRoot(owner, r)
    ensures var upper := Word(mem, r, Idx2(v)); var lower := Word(mem, Ppn(upper), Idx1(v));
            && (upper == 0 || (V(upper) && !IsLeaf(upper)))
            && (V(upper) ==> lower == 0 || (V(lower) && !IsLeaf(lower)))
            && (Lookup(mem, r, v) == 0 || (V(Lookup(mem, r, v)) && IsLeaf(Lookup(mem, r, v))))
  {
    hide V, Idx2, Idx1, Idx0, Ppn, IsLeaf, Vpn;
    TreesFrames(mem, owner);
    ZeroInvalid();
    Path(mem, owner, 0, 0, r, v);
    var upper := Word(mem, r, Idx2(v));
    var lower := Word(mem, Ppn(upper), Idx1(v));
    assert Node(mem, owner, r, 0, 0);
    assert Idx2(v) < 512 ==> Points(upper, owner, Mid(r, Idx2(v)));
    if V(upper) {
      assert Node(mem, owner, Ppn(upper), 0, 0);
      assert Points(lower, owner, Low(r, Idx2(v), Idx1(v)));
      if V(lower) {
        assert Node(mem, owner, Ppn(lower), 0, 0);
        assert Maps(Word(mem, Ppn(lower), Idx0(v)), owner, r, Vpn(Idx2(v), Idx1(v), Idx0(v)));
      }
    }
  }

  lemma ZeroEntry()
    ensures !V(0) && !Readable(0) && !Writable(0) && !Executable(0)
  {
  }

  lemma Descends(mem: Mem, table: nat, va: nat, level: nat, a: Access)
    requires 0 < level <= 2
    ensures var pte := Word(mem, table, Px(level, va));
            && (pte == 0 ==> Translate(mem, table, va, level, a) == None)
            && (V(pte) && !IsLeaf(pte) ==>
                  Translate(mem, table, va, level, a) == Translate(mem, Ppn(pte), va, level - 1, a))
  {
    hide Px, Word;
    ZeroEntry();
    LeafIs(Word(mem, table, Px(level, va)));
  }

  lemma Bottom(mem: Mem, table: nat, v: nat, o: nat, a: Access)
    requires o < PGSIZE
    ensures var pte := Word(mem, table, Px(0, v * PGSIZE + o));
            Translate(mem, table, v * PGSIZE + o, 0, a)
            == if V(pte) && Permits(pte, a) then Some(Ppn(pte) * PGSIZE + o) else None
  {
    hide Px, Word, Readable, Writable, Executable, ForUser;
    assert (v * PGSIZE + o) % PGSIZE == o;
  }

  /** The hardware finds what walk finds: the tables mean the same to both. */
  lemma HardwareWalk(mem: Mem, owner: Owner, r: nat, v: nat, o: nat, a: Access)
    requires Trees(mem, owner, 0, 0) && IsRoot(owner, r) && v < MAXPAGE && o < PGSIZE
    ensures var pte := Lookup(mem, r, v);
            UserView(mem, r, v * PGSIZE + o, a)
            == if V(pte) && Permits(pte, a) then Some(Ppn(pte) * PGSIZE + o) else None
  {
    hide Trees, Translate, Px, V, Ppn, IsLeaf, Idx2, Idx1, Idx0, Permits, Word;
    PxIs(v, o);
    ZeroInvalid();
    Entries(mem, owner, r, v);
    var va := v * PGSIZE + o;
    var upper := Word(mem, r, Idx2(v));
    Descends(mem, r, va, 2, a);
    if upper != 0 {
      var lower := Word(mem, Ppn(upper), Idx1(v));
      Descends(mem, Ppn(upper), va, 1, a);
      if lower != 0 {
        Bottom(mem, Ppn(lower), v, o, a);
      }
    }
  }

  // ---- what user programs can reach

  /** The kernel's two pages at the top are as proc_pagetable made them. */
  ghost predicate Lent(mem: Mem, r: nat, trampoline: nat, trapframe: nat) {
    forall w: nat :: TRAPFRAME <= w < MAXPAGE ==> Lookup(mem, r, w) == LentEntry(w, trampoline, trapframe)
  }

  lemma LentFlags(ppn: nat, perm: nat)
    requires perm == PTE_R + PTE_X || perm == PTE_R + PTE_W
    ensures !ForUser(MakePte(ppn, perm))
  {
    assert MakePte(ppn, perm) == ppn * 1024 + perm + 1;
    assert (ppn * 1024 + perm + 1) / 16 == ppn * 64;
  }

  /** A user program cannot touch the trampoline or the trapframe. */
  lemma LentUnreachable(
    mem: Mem, owner: Owner, r: nat, trampoline: nat, trapframe: nat, v: nat, o: nat, a: Access)
    requires Trees(mem, owner, 0, 0) && IsRoot(owner, r) && Lent(mem, r, trampoline, trapframe)
    requires TRAPFRAME <= v < MAXPAGE && o < PGSIZE
    ensures UserView(mem, r, v * PGSIZE + o, a) == None
  {
    hide Trees, UserView, MakePte, V, Ppn, ForUser, Lookup;
    HardwareWalk(mem, owner, r, v, o, a);
    LentFlags(trampoline, PTE_R + PTE_X);
    LentFlags(trapframe, PTE_R + PTE_W);
    ZeroInvalid();
  }

  /** Isolation: what two user addresses reach in the same frame, they reach in the same process and page, and that
      frame is neither free nor a page table. */
  lemma Isolation(mem: Mem, owner: Owner, head: nat, free: seq<nat>, r: nat, s: nat, trampoline: nat, frameR: nat,
                  frameS: nat, v: nat, o: nat, a: Access, w: nat, p: nat, b: Access)
    requires Trees(mem, owner, 0, 0) && FreeList(mem, owner, head, free) && IsRoot(owner, r) && IsRoot(owner, s)
    requires Lent(mem, r, trampoline, frameR) && Lent(mem, s, trampoline, frameS)
    requires v < MAXPAGE && w < MAXPAGE && o < PGSIZE && p < PGSIZE
    requires var x, y := UserView(mem, r, v * PGSIZE + o, a), UserView(mem, s, w * PGSIZE + p, b);
             x.Some? && y.Some? && x.value / PGSIZE == y.value / PGSIZE
    ensures r == s && v == w
    ensures var f := UserView(mem, r, v * PGSIZE + o, a).value / PGSIZE;
            f !in free && f in owner && owner[f] == User(r, v)
  {
    hide Trees, FreeList, UserView, Lookup, V, Ppn, Permits, Lent;
    if v >= TRAPFRAME { LentUnreachable(mem, owner, r, trampoline, frameR, v, o, a); }
    if w >= TRAPFRAME { LentUnreachable(mem, owner, s, trampoline, frameS, w, p, b); }
    HardwareWalk(mem, owner, r, v, o, a);
    HardwareWalk(mem, owner, s, w, p, b);
    var f, g := Ppn(Lookup(mem, r, v)), Ppn(Lookup(mem, s, w));
    assert (f * PGSIZE + o) / PGSIZE == f && (g * PGSIZE + p) / PGSIZE == g;
    LeafOwner(mem, owner, r, v);
    NoSharing(mem, owner, head, free, r, v, s, w);
  }

  // ---- what the operations give

  lemma FlagBits(pte: nat, flags: nat)
    requires Flags(pte) == flags
    ensures Readable(pte) == Readable(flags) && Writable(pte) == Writable(flags) && Executable(pte) == Executable(flags)
    ensures ForUser(pte) == ForUser(flags)
  {
    var q := pte / 1024;
    assert pte == q * 1024 + flags;
    Bit1(q, flags);
    Bit2(q, flags);
    Bit3(q, flags);
    Bit4(q, flags);
  }

  lemma Even(a: nat, b: nat)
    ensures (2 * a + b) % 2 == b % 2
  {
  }

  lemma Bit1(q: nat, flags: nat)
    ensures (q * 1024 + flags) / 2 % 2 == flags / 2 % 2
  {
    assert (q * 1024 + flags) / 2 == 2 * (q * 256) + flags / 2;
    Even(q * 256, flags / 2);
  }

  lemma Bit2(q: nat, flags: nat)
    ensures (q * 1024 + flags) / 4 % 2 == flags / 4 % 2
  {
    assert (q * 1024 + flags) / 4 == 2 * (q * 128) + flags / 4;
    Even(q * 128, flags / 4);
  }

  lemma Bit3(q: nat, flags: nat)
    ensures (q * 1024 + flags) / 8 % 2 == flags / 8 % 2
  {
    assert (q * 1024 + flags) / 8 == 2 * (q * 64) + flags / 8;
    Even(q * 64, flags / 8);
  }

  lemma Bit4(q: nat, flags: nat)
    ensures (q * 1024 + flags) / 16 % 2 == flags / 16 % 2
  {
    assert (q * 1024 + flags) / 16 == 2 * (q * 32) + flags / 16;
    Even(q * 32, flags / 16);
  }

  /** The flags of a page that a program may read, and write or execute as xperm says. */
  lemma GrownFlags(xperm: nat)
    requires xperm == 0 || xperm == PTE_W || xperm == PTE_X || xperm == PTE_W + PTE_X
    ensures var flags := PTE_R + PTE_U + xperm + 1;
            && !V(PTE_R + PTE_U + xperm) && Permits(flags, Load)
            && (Permits(flags, Store) <==> xperm == PTE_W || xperm == PTE_W + PTE_X)
            && (Permits(flags, Fetch) <==> xperm == PTE_X || xperm == PTE_W + PTE_X)
  {
  }

  /** After uvmalloc the program can read zeroes in every new page, and write and execute there as asked. */
  lemma GrownIsUsable(m0: Mem, o0: Owner, m: Mem, owner: Owner, root: nat, from: nat, to: nat, xperm: nat,
                      v: nat, o: nat, a: Access)
    requires xperm == 0 || xperm == PTE_W || xperm == PTE_X || xperm == PTE_W + PTE_X
    requires Trees(m, owner, 0, 0) && IsRoot(owner, root) && from <= v < to <= TRAPFRAME && o < PGSIZE
    requires Installed(m0, o0, m, owner, root, ZeroPages(from, to, PTE_R + PTE_U + xperm))
    ensures var x := UserView(m, root, v * PGSIZE + o, a);
            && (x.Some? <==> match a
                             case Load => true
                             case Store => xperm == PTE_W || xperm == PTE_W + PTE_X
                             case Fetch => xperm == PTE_X || xperm == PTE_W + PTE_X)
            && (x.Some? ==> x.value % PGSIZE == o && x.value / PGSIZE in m && m[x.value / PGSIZE] == Filled(0))
  {
    hide Trees, UserView, Lookup, Permits, ZeroPages, InstalledUses, InstalledMap, SameData, Readable, Writable,
         Executable, ForUser;
    var want := ZeroPages(from, to, PTE_R + PTE_U + xperm);
    assert v in want && Holds(m, owner, root, v, want[v]);
    var pte := Lookup(m, root, v);
    GrownFlags(xperm);
    FlagBits(pte, PTE_R + PTE_U + xperm + 1);
    SamePermits(pte, PTE_R + PTE_U + xperm + 1, a);
    HardwareWalk(m, owner, root, v, o, a);
    assert (Ppn(pte) * PGSIZE + o) / PGSIZE == Ppn(pte) && (Ppn(pte) * PGSIZE + o) % PGSIZE == o;
  }

  lemma SamePermits(x: nat, y: nat, a: Access)
    requires Readable(x) == Readable(y) && Writable(x) == Writable(y) && Executable(x) == Executable(y)
    requires ForUser(x) == ForUser(y)
    ensures Permits(x, a) == Permits(y, a)
  {
  }

  lemma {:induction false} CopiesAre(mem: Mem, r: nat, n: nat, v: nat)
    requires v < n
    ensures v in Copies(mem, r, n) <==> V(Lookup(mem, r, v))
    ensures v in Copies(mem, r, n) ==>
              Copies(mem, r, n)[v] == Content(Flags(Lookup(mem, r, v)), Frame(mem, Ppn(Lookup(mem, r, v))))
  {
    hide Lookup, V, Flags, Ppn, Frame;
    if v < n - 1 {
      CopiesAre(mem, r, n - 1, v);
    } else {
      CopiesBelow(mem, r, n - 1);
    }
  }

  /** After uvmcopy the child may do at each address below the size exactly what the parent may, finds there what the
      parent had there, and has it in another frame. */
  lemma ForkedMemory(
    m0: Mem, o0: Owner, m: Mem, owner: Owner, parent: nat, child: nat, n: nat, v: nat, o: nat, a: Access)
    requires Trees(m0, o0, 0, 0) && Trees(m, owner, 0, 0) && IsRoot(o0, parent) && IsRoot(o0, child) && parent != child
    requires IsRoot(owner, parent) && IsRoot(owner, child) && v < n <= TRAPFRAME && o < PGSIZE
    requires Installed(m0, o0, m, owner, child, Copies(m0, parent, n)) && Lookup(m0, child, v) == 0
    ensures var x, y := UserView(m0, parent, v * PGSIZE + o, a), UserView(m, child, v * PGSIZE + o, a);
            && (y.Some? <==> x.Some?) && UserView(m, parent, v * PGSIZE + o, a) == x
            && (x.Some? ==>
                  && x.value / PGSIZE in m0 && y.value / PGSIZE in m && y.value / PGSIZE != x.value / PGSIZE
                  && y.value % PGSIZE == x.value % PGSIZE == o && m[y.value / PGSIZE] == m0[x.value / PGSIZE])
  {
    hide Trees, UserView, Lookup, Permits, Copies, InstalledUses, SameData, Readable, Writable, Executable, ForUser,
         InstalledMap, V, Ppn, Flags;
    HardwareWalk(m0, o0, parent, v, o, a);
    HardwareWalk(m, owner, parent, v, o, a);
    HardwareWalk(m, owner, child, v, o, a);
    ZeroInvalid();
    var want := Copies(m0, parent, n);
    CopiesAre(m0, parent, n, v);
    InstalledLookup(m0, o0, m, owner, child, want, parent, v);
    if V(Lookup(m0, parent, v)) {
      LeafOwner(m0, o0, parent, v);
      LeafOwner(m, owner, parent, v);
      assert Holds(m, owner, child, v, want[v]);
      CopiedFlags(Lookup(m0, parent, v));
      FlagBits(Lookup(m, child, v), Flags(Lookup(m0, parent, v)));
      FlagBits(Lookup(m0, parent, v), Flags(Lookup(m0, parent, v)));
      SamePermits(Lookup(m, child, v), Lookup(m0, parent, v), a);
      TreesFrames(m0, o0);
      InFrame(Ppn(Lookup(m0, parent, v)), o);
      InFrame(Ppn(Lookup(m, child, v)), o);
    } else {
      InstalledLookup(m0, o0, m, owner, child, want, child, v);
    }
  }

  lemma InFrame(f: nat, o: nat)
    requires o < PGSIZE
    ensures (f * PGSIZE + o) / PGSIZE == f && (f * PGSIZE + o) % PGSIZE == o
  {
  }

  lemma CopiedFlags(pte: nat)
    requires V(pte)
    ensures V(Flags(pte))
  {
    assert pte % 1024 % 2 == pte % 2;
  }
}
