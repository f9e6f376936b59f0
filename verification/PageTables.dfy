/**
  * Physical page frames and the three-level page tables built in them (kernel/riscv.h:384-400,
  * the Sv39 scheme of section 4.4 of the RISC-V Privileged Architecture).  A frame is named by
  * its physical page number, a virtual page by its virtual page number.
  */
module PageTables {
  const PGSIZE: nat := 4096
  const MAXPAGE: nat := 0x4000000
  const TRAMPOLINE: nat := MAXPAGE - 1
  const TRAPFRAME: nat := MAXPAGE - 2

  const PTE_R: nat := 2
  const PTE_W: nat := 4
  const PTE_X: nat := 8
  const PTE_U: nat := 16

  /** The contents of a frame, as 64-bit words. */
  type Page = p: seq<nat> | |p| == 512 witness seq(512, _ => 0)
  type Mem = map<nat, Page>

  /** What a frame is for. */
  datatype Use = Free | Root | Mid(root: nat, i: nat) | Low(root: nat, i: nat, j: nat) | User(root: nat, v: nat) | Held
  type Owner = map<nat, Use>

  predicate V(pte: nat) { pte % 2 == 1 }

  /** One of R, W and X is set. */
  predicate IsLeaf(pte: nat) { pte / 2 % 8 != 0 }

  function Ppn(pte: nat): nat { pte / 1024 }

  function Flags(pte: nat): nat { pte % 1024 }

  /** PA2PTE(pa) | perm | PTE_V */
  function MakePte(ppn: nat, perm: nat): nat
    requires perm < 1024
  {
    ppn * 1024 + if V(perm) then perm else perm + 1
  }

  lemma PteFields(ppn: nat, perm: nat)
    requires perm < 1024
    ensures var pte := MakePte(ppn, perm);
            pte != 0 && V(pte) && Ppn(pte) == ppn && (IsLeaf(pte) <==> IsLeaf(perm)) && Flags(pte) == if V(perm) then
              perm else perm + 1
  {
    hide IsLeaf;
    var pte := MakePte(ppn, perm);
    var p := if V(perm) then perm else perm + 1;
    LeafBits(ppn, p);
    LeafBits(0, perm);
    assert p / 2 == perm / 2;
  }

  lemma Mod8(a: nat, q: nat)
    ensures (a * 8 + q) % 8 == q % 8
  {
    assert a * 8 + q == 8 * (a + q / 8) + q % 8;
  }

  lemma LeafBits(ppn: nat, p: nat)
    ensures IsLeaf(ppn * 1024 + p) <==> p / 2 % 8 != 0
  {
    var q := p / 2;
    assert (ppn * 1024 + p) / 2 == ppn * 512 + q;
    Mod8(ppn * 64, q);
  }

  // ---- virtual page numbers

  function Idx2(v: nat): nat { v / 262144 }

  function Idx1(v: nat): (i: nat)
    ensures i < 512
  {
    v / 512 % 512
  }

  function Idx0(v: nat): (i: nat)
    ensures i < 512
  {
    v % 512
  }

  function Vpn(i: nat, j: nat, k: nat): nat { (i * 512 + j) * 512 + k }

  lemma Split(v: nat)
    ensures Vpn(Idx2(v), Idx1(v), Idx0(v)) == v
  {
    assert v / 262144 == v / 512 / 512;
  }

  lemma Joined(i: nat, j: nat, k: nat)
    requires j < 512 && k < 512
    ensures Idx2(Vpn(i, j, k)) == i && Idx1(Vpn(i, j, k)) == j && Idx0(Vpn(i, j, k)) == k
  {
    var v := Vpn(i, j, k);
    assert v / 512 == i * 512 + j && v / 262144 == v / 512 / 512;
  }

  /** Distinct pages reach distinct entries. */
  lemma Distinct(v: nat, w: nat)
    requires Idx2(v) == Idx2(w) && Idx1(v) == Idx1(w) && Idx0(v) == Idx0(w)
    ensures v == w
  {
    Split(v);
    Split(w);
  }

  // ---- the tree

  /** Entry i of frame f. */
  function Word(mem: Mem, f: nat, i: nat): nat {
    if f in mem && i < 512 then mem[f][i] else 0
  }

  /** The leaf entry for page v of the table at r, or 0. */
  function Lookup(mem: Mem, r: nat, v: nat): nat {
    var upper := Word(mem, r, Idx2(v));
    if !V(upper) then 0
    else
      var lower := Word(mem, Ppn(upper), Idx1(v));
      if !V(lower) then 0 else Word(mem, Ppn(lower), Idx0(v))
  }

  predicate Points(pte: nat, owner: Owner, use: Use) {
    pte == 0 || (V(pte) && !IsLeaf(pte) && Ppn(pte) in owner && owner[Ppn(pte)] == use)
  }

  /** A leaf below the trapframe refers to a frame of this table alone; the two pages above are lent by the kernel. */
  predicate Maps(pte: nat, owner: Owner, r: nat, v: nat) {
    pte == 0 || (V(pte) && IsLeaf(pte) && (v < TRAPFRAME ==> Ppn(pte) in owner && owner[Ppn(pte)] == User(r, v)))
  }

  predicate MidLink(mem: Mem, owner: Owner, r: nat, i: nat, f: nat) {
    r in owner && owner[r] == Root && i < 512 && V(Word(mem, r, i)) && Ppn(Word(mem, r, i)) == f
  }

  predicate LowLink(mem: Mem, owner: Owner, r: nat, i: nat, j: nat, f: nat) {
    var m := Ppn(Word(mem, r, i));
    MidLink(mem, owner, r, i, m) && m in owner && owner[m] == Mid(r, i) && j < 512 && V(Word(mem, m, j)) &&
      Ppn(Word(mem, m, j)) == f
  }

  predicate UserLink(mem: Mem, owner: Owner, r: nat, v: nat, f: nat) {
    var m := Ppn(Word(mem, r, Idx2(v)));
    var t := Ppn(Word(mem, m, Idx1(v)));
    && LowLink(mem, owner, r, Idx2(v), Idx1(v), t) && t in owner && owner[t] == Low(r, Idx2(v), Idx1(v))
    && V(Word(mem, t, Idx0(v))) && Ppn(Word(mem, t, Idx0(v))) == f
  }

  /** Frame f is what owner says, entry i of frame h apart. */
  predicate Node(mem: Mem, owner: Owner, f: nat, h: nat, i: nat)
    requires f in owner
  {
    match owner[f]
    case Free => true
    case Held => true
    case Root => forall k :: 0 <= k < 512 && !(f == h && k == i) ==> Points(Word(mem, f, k), owner, Mid(f, k))
    case Mid(r, a) =>
      && MidLink(mem, owner, r, a, f)
      && forall k :: 0 <= k < 512 && !(f == h && k == i) ==> Points(Word(mem, f, k), owner, Low(r, a, k))
    case Low(r, a, b) =>
      && LowLink(mem, owner, r, a, b, f)
      && forall k :: 0 <= k < 512 && !(f == h && k == i) ==> Maps(Word(mem, f, k), owner, r, Vpn(a, b, k))
    case User(r, v) => v < TRAPFRAME && UserLink(mem, owner, r, v, f)
  }

  ghost predicate Trees(mem: Mem, owner: Owner, h: nat, i: nat) {
    && mem.Keys == owner.Keys && 0 !in mem
    && forall f :: f in owner ==> Node(mem, owner, f, h, i)
  }

  /** The walk for page v goes through frames of r's own tree. */
  lemma Path(mem: Mem, owner: Owner, h: nat, i: nat, r: nat, v: nat)
    requires Trees(mem, owner, h, i) && r in owner && owner[r] == Root && (h in owner ==> owner[h].Low?)
    ensures var upper := Word(mem, r, Idx2(v));
            && (V(upper) ==> Ppn(upper) in owner && owner[Ppn(upper)] == Mid(r, Idx2(v)))
            && var lower := Word(mem, Ppn(upper), Idx1(v));
               V(upper) && V(lower) ==> Ppn(lower) in owner && owner[Ppn(lower)] == Low(r, Idx2(v), Idx1(v))
  {
    hide V, Idx2, Idx1, Ppn, IsLeaf;
    assert Node(mem, owner, r, h, i);
    var upper := Word(mem, r, Idx2(v));
    ZeroInvalid();
    if V(upper) {
      assert Points(upper, owner, Mid(r, Idx2(v)));
      assert Node(mem, owner, Ppn(upper), h, i);
      assert Points(Word(mem, Ppn(upper), Idx1(v)), owner, Low(r, Idx2(v), Idx1(v)));
    }
  }

  lemma ZeroInvalid()
    ensures !V(0)
  {
  }

  predicate Loose(use: Use) {
    use == Free || use == Held
  }

  predicate Table(use: Use) {
    use.Root? || use.Mid? || use.Low?
  }

  /** The frames of every tree are as before. */
  predicate TreesAgree(mem: Mem, owner: Owner, mem': Mem, owner': Owner) {
    && mem.Keys == owner.Keys == mem'.Keys == owner'.Keys
    && (forall x :: x in owner && !Loose(owner[x]) ==> owner'[x] == owner[x])
    && (forall x :: x in owner && Table(owner[x]) ==> mem'[x] == mem[x])
  }

  lemma NodeKept(mem: Mem, owner: Owner, mem': Mem, owner': Owner, g: nat, h: nat, i: nat)
    requires TreesAgree(mem, owner, mem', owner') && g in owner && !Loose(owner[g]) && Node(mem, owner, g, h, i)
    ensures Node(mem', owner', g, h, i)
  {
    hide V, Idx2, Idx1, Idx0, Ppn, IsLeaf, Vpn;
  }

  /** A frame outside every tree may change hands and contents. */
  lemma Outside(mem: Mem, owner: Owner, h: nat, i: nat, f: nat, page: Page, use: Use)
    requires Trees(mem, owner, h, i) && f in owner && Loose(owner[f]) && Loose(use)
    ensures Trees(mem[f := page], owner[f := use], h, i)
  {
    hide Node;
    var mem', owner' := mem[f := page], owner[f := use];
    forall g | g in owner' ensures Node(mem', owner', g, h, i) {
      if Loose(owner'[g]) {
        LooseNode(mem', owner', g, h, i);
      } else {
        NodeKept(mem, owner, mem', owner', g, h, i);
      }
    }
  }

  lemma LooseNode(mem: Mem, owner: Owner, g: nat, h: nat, i: nat)
    requires g in owner && Loose(owner[g])
    ensures Node(mem, owner, g, h, i)
  {
  }

  lemma OutsideLookup(mem: Mem, owner: Owner, h: nat, i: nat, f: nat, page: Page, r: nat, v: nat)
    requires Trees(mem, owner, h, i) && f in owner && Loose(owner[f]) && r in owner && owner[r] == Root &&
             (h in owner ==> owner[h].Low?)
    ensures Lookup(mem[f := page], r, v) == Lookup(mem, r, v)
  {
    hide V, Idx2, Idx1, Idx0, Ppn, Trees;
    Path(mem, owner, h, i, r, v);
  }

  /** A zeroed frame becomes an interior table below the root. */
  lemma AttachMid(mem: Mem, owner: Owner, r: nat, i: nat, f: nat)
    requires Trees(mem, owner, 0, 0) && r in owner && owner[r] == Root && i < 512 && f in owner && owner[f] == Held
    requires mem[r][i] == 0 && (forall k :: 0 <= k < 512 ==> mem[f][k] == 0)
    ensures Trees(mem[r := mem[r][i := MakePte(f, 0)]], owner[f := Mid(r, i)], 0, 0)
  {
    hide Node, MakePte, V, Ppn, IsLeaf, Flags;
    PteFields(f, 0);
    ZeroLeaf();
    var pte := MakePte(f, 0);
    var mem', owner' := mem[r := mem[r][i := pte]], owner[f := Mid(r, i)];
    forall g | g in owner' ensures Node(mem', owner', g, 0, 0) {
      AttachMidNode(mem, owner, r, i, f, pte, g);
    }
  }

  lemma ZeroLeaf()
    ensures !IsLeaf(0)
  {
  }

  lemma AttachMidNode(mem: Mem, owner: Owner, r: nat, i: nat, f: nat, pte: nat, g: nat)
    requires r in owner && r in mem && owner[r] == Root && i < 512 && f in owner && f in mem && owner[f] == Held
    requires mem[r][i] == 0 && (forall k :: 0 <= k < 512 ==> mem[f][k] == 0) && V(pte) && !IsLeaf(pte) && Ppn(pte) == f
    requires g in owner && Node(mem, owner, g, 0, 0) && mem.Keys == owner.Keys && 0 !in owner
    ensures Node(mem[r := mem[r][i := pte]], owner[f := Mid(r, i)], g, 0, 0)
  {
    hide V, Idx2, Idx1, Idx0, Ppn, IsLeaf, Vpn;
    ZeroInvalid();
  }

  lemma AttachMidLookup(mem: Mem, owner: Owner, r: nat, i: nat, f: nat, x: nat, v: nat)
    requires Trees(mem, owner, 0, 0) && r in owner && owner[r] == Root && i < 512 && f in owner && owner[f] == Held
    requires mem[r][i] == 0 && (forall k :: 0 <= k < 512 ==> mem[f][k] == 0) && x in owner && owner[x] == Root
    ensures Lookup(mem[r := mem[r][i := MakePte(f, 0)]], x, v) == Lookup(mem, x, v)
  {
    PteFields(f, 0);
    hide V, Idx2, Idx1, Idx0, Ppn, Node, MakePte;
    ZeroInvalid();
    Path(mem, owner, 0, 0, x, v);
  }

  /** A zeroed frame becomes a lowest-level table. */
  lemma AttachLow(mem: Mem, owner: Owner, r: nat, i: nat, j: nat, m: nat, f: nat)
    requires Trees(mem, owner, 0, 0) && m in owner && owner[m] == Mid(r, i) && j < 512 && f in owner && owner[f] == Held
    requires mem[m][j] == 0 && (forall k :: 0 <= k < 512 ==> mem[f][k] == 0)
    ensures Trees(mem[m := mem[m][j := MakePte(f, 0)]], owner[f := Low(r, i, j)], 0, 0)
  {
    hide Node, MakePte, V, Ppn, IsLeaf, Flags;
    PteFields(f, 0);
    ZeroLeaf();
    var pte := MakePte(f, 0);
    var mem', owner' := mem[m := mem[m][j := pte]], owner[f := Low(r, i, j)];
    forall g | g in owner' ensures Node(mem', owner', g, 0, 0) {
      AttachLowNode(mem, owner, r, i, j, m, f, pte, g);
    }
  }

  lemma AttachLowNode(mem: Mem, owner: Owner, r: nat, i: nat, j: nat, m: nat, f: nat, pte: nat, g: nat)
    requires m in owner && m in mem && owner[m] == Mid(r, i) && Node(mem, owner, m, 0, 0) && j < 512 && f in owner &&
             f in mem && owner[f] == Held
    requires mem[m][j] == 0 && (forall k :: 0 <= k < 512 ==> mem[f][k] == 0) && V(pte) && !IsLeaf(pte) && Ppn(pte) == f
    requires g in owner && Node(mem, owner, g, 0, 0) && mem.Keys == owner.Keys && 0 !in owner
    ensures Node(mem[m := mem[m][j := pte]], owner[f := Low(r, i, j)], g, 0, 0)
  {
    hide V, Idx2, Idx1, Idx0, Ppn, IsLeaf, Vpn;
    ZeroInvalid();
  }

  lemma AttachLowLookup(mem: Mem, owner: Owner, r: nat, i: nat, j: nat, m: nat, f: nat, x: nat, v: nat)
    requires Trees(mem, owner, 0, 0) && m in owner && owner[m] == Mid(r, i) && j < 512 && f in owner && owner[f] == Held
    requires mem[m][j] == 0 && (forall k :: 0 <= k < 512 ==> mem[f][k] == 0) && x in owner && owner[x] == Root
    ensures Lookup(mem[m := mem[m][j := MakePte(f, 0)]], x, v) == Lookup(mem, x, v)
  {
    PteFields(f, 0);
    hide V, Idx2, Idx1, Idx0, Ppn, Node, MakePte;
    ZeroInvalid();
    Path(mem, owner, 0, 0, x, v);
  }

  /** The use of the frame that the leaf of page v refers to. */
  function Mapped(owner: Owner, r: nat, v: nat, f: nat): Owner {
    if v < TRAPFRAME then owner[f := User(r, v)] else owner
  }

  /** A leaf is entered. */
  lemma EnterLeaf(mem: Mem, owner: Owner, r: nat, v: nat, t: nat, pte: nat)
    requires Trees(mem, owner, 0, 0) && t in owner && owner[t] == Low(r, Idx2(v), Idx1(v)) && mem[t][Idx0(v)] == 0
    requires V(pte) && IsLeaf(pte) && (v < TRAPFRAME ==> Ppn(pte) in owner && owner[Ppn(pte)] == Held)
    ensures Trees(mem[t := mem[t][Idx0(v) := pte]], Mapped(owner, r, v, Ppn(pte)), 0, 0)
  {
    hide Node, V, Ppn, IsLeaf, Idx2, Idx1, Idx0;
    var mem', owner' := mem[t := mem[t][Idx0(v) := pte]], Mapped(owner, r, v, Ppn(pte));
    forall g | g in owner' ensures Node(mem', owner', g, 0, 0) {
      EnterLeafNode(mem, owner, r, v, t, pte, g);
    }
  }

  lemma EnterLeafNode(mem: Mem, owner: Owner, r: nat, v: nat, t: nat, pte: nat, g: nat)
    requires t in owner && t in mem && owner[t] == Low(r, Idx2(v), Idx1(v)) && mem[t][Idx0(v)] == 0 &&
             Node(mem, owner, t, 0, 0)
    requires V(pte) && IsLeaf(pte) && (v < TRAPFRAME ==> Ppn(pte) in owner && owner[Ppn(pte)] == Held)
    requires g in owner && Node(mem, owner, g, 0, 0) && mem.Keys == owner.Keys && 0 !in owner
    ensures Node(mem[t := mem[t][Idx0(v) := pte]], Mapped(owner, r, v, Ppn(pte)), g, 0, 0)
  {
    Split(v);
    hide V, Idx2, Idx1, Idx0, Ppn, IsLeaf, Vpn;
    ZeroInvalid();
  }

  lemma LeafLookup(mem: Mem, owner: Owner, h: nat, i: nat, r: nat, v: nat, t: nat, pte: nat, x: nat, w: nat)
    requires Trees(mem, owner, h, i) && t in owner && owner[t] == Low(r, Idx2(v), Idx1(v)) && x in owner &&
             owner[x] == Root && (h in owner ==> owner[h].Low?)
    ensures Lookup(mem[t := mem[t][Idx0(v) := pte]], x, w) == if x == r && w == v then pte else Lookup(mem, x, w)
  {
    if Idx2(v) == Idx2(w) && Idx1(v) == Idx1(w) && Idx0(v) == Idx0(w) {
      Distinct(v, w);
    }
    hide V, Idx2, Idx1, Idx0, Ppn, IsLeaf;
    Path(mem, owner, h, i, x, w);
    assert Node(mem, owner, t, h, i);
  }

  // ---- taking a tree apart

  /** The frame behind a leaf is given up while the leaf is still there. */
  lemma OpenLeaf(mem: Mem, owner: Owner, r: nat, v: nat, t: nat, f: nat)
    requires Trees(mem, owner, 0, 0) && t in owner && owner[t] == Low(r, Idx2(v), Idx1(v)) && f in owner &&
             owner[f] == User(r, v)
    ensures Trees(mem, owner[f := Held], t, Idx0(v))
  {
    hide V, Idx2, Idx1, Idx0, Ppn, IsLeaf, Vpn;
    var owner' := owner[f := Held];
    assert Node(mem, owner, f, 0, 0) && Node(mem, owner, t, 0, 0);
    forall g | g in owner' ensures Node(mem, owner', g, t, Idx0(v)) {
      assert Node(mem, owner, g, 0, 0);
      UserLeaf(mem, owner, r, v, t, f);
      LeafOf(mem, owner, v, g, f);
    }
  }

  /** The leaf that leads to frame f is in table t. */
  lemma UserLeaf(mem: Mem, owner: Owner, r: nat, v: nat, t: nat, f: nat)
    requires Trees(mem, owner, 0, 0) && t in owner && owner[t] == Low(r, Idx2(v), Idx1(v)) && f in owner &&
             owner[f] == User(r, v)
    ensures V(Word(mem, t, Idx0(v))) && Ppn(Word(mem, t, Idx0(v))) == f && Lookup(mem, r, v) == Word(mem, t, Idx0(v))
  {
    hide V, Idx2, Idx1, Idx0, Ppn, IsLeaf, Vpn;
    assert Node(mem, owner, f, 0, 0) && Node(mem, owner, t, 0, 0);
  }

  /** No other leaf leads to f. */
  lemma LeafOf(mem: Mem, owner: Owner, v: nat, g: nat, f: nat)
    requires Trees(mem, owner, 0, 0) && g in owner && f in owner && owner[f].User? && owner[f].v == v
    ensures forall k ::
              0 <= k < 512 && owner[g] == Low(owner[f].root, Idx2(v), Idx1(v)) && Vpn(Idx2(v), Idx1(v), k) == v ==>
                k == Idx0(v)
    ensures forall r, a, b, k ::
              0 <= b < 512 && 0 <= k < 512 && owner[g] == Low(r, a, b) && Vpn(a, b, k) == v ==>
                a == Idx2(v) && b == Idx1(v) && k == Idx0(v)
  {
    forall r, a: nat, b: nat, k | 0 <= b < 512 && 0 <= k < 512 && owner[g] == Low(r, a, b) && Vpn(a, b, k) == v
      ensures a == Idx2(v) && b == Idx1(v) && k == Idx0(v)
    {
      Joined(a, b, k);
    }
    forall k | 0 <= k < 512 && Vpn(Idx2(v), Idx1(v), k) == v ensures k == Idx0(v) {
      Joined(Idx2(v), Idx1(v), k);
    }
  }

  /** What entry k of table t is for. */
  function Child(use: Use, t: nat, k: nat): Use
    requires Table(use)
  {
    match use
    case Root => Mid(t, k)
    case Mid(r, i) => Low(r, i, k)
    case Low(r, i, j) => User(r, Vpn(i, j, k))
  }

  /** The entry is cleared. */
  lemma CloseEntry(mem: Mem, owner: Owner, t: nat, k: nat, h: nat, i: nat)
    requires Trees(mem, owner, h, i) && t in owner && Table(owner[t]) && k < 512 && ((h == t && i == k) || h == 0)
    requires forall f :: f in owner ==> owner[f] != Child(owner[t], t, k)
    ensures Trees(mem[t := mem[t][k := 0]], owner, 0, 0)
  {
    hide Node, Child;
    var mem' := mem[t := mem[t][k := 0]];
    forall g | g in owner ensures Node(mem', owner, g, 0, 0) {
      CloseEntryNode(mem, owner, t, k, h, i, g);
    }
  }

  lemma CloseEntryNode(mem: Mem, owner: Owner, t: nat, k: nat, h: nat, i: nat, g: nat)
    requires t in owner && t in mem && Table(owner[t]) && k < 512 && ((h == t && i == k) || h == 0) &&
             mem.Keys == owner.Keys && 0 !in owner
    requires g in owner && Node(mem, owner, g, h, i)
    requires forall f :: f in owner ==> owner[f] != Child(owner[t], t, k)
    ensures Node(mem[t := mem[t][k := 0]], owner, g, 0, 0)
  {
    if owner[g].User? {
      Split(owner[g].v);
    }
    hide V, IsLeaf, Ppn, Vpn, Idx2, Idx1, Idx0;
  }

  /** An empty table is given up; the entry that leads to it remains. */
  lemma OpenTable(mem: Mem, owner: Owner, f: nat, p: nat, k: nat)
    requires Trees(mem, owner, 0, 0) && f in owner && Table(owner[f]) && (forall j :: 0 <= j < 512 ==> mem[f][j] == 0)
    requires p in owner && k < 512 && Table(owner[p]) && Child(owner[p], p, k) == owner[f]
    ensures Trees(mem, owner[f := Held], p, k)
  {
    hide V, IsLeaf, Ppn, Vpn;
    ZeroInvalid();
    var owner' := owner[f := Held];
    forall g | g in owner' ensures Node(mem, owner', g, p, k) {
      assert Node(mem, owner, g, 0, 0);
    }
  }

  lemma OpenRoot(mem: Mem, owner: Owner, f: nat)
    requires Trees(mem, owner, 0, 0) && f in owner && owner[f] == Root && (forall j :: 0 <= j < 512 ==> mem[f][j] == 0)
    ensures Trees(mem, owner[f := Held], 0, 0)
  {
    hide V, IsLeaf, Ppn, Vpn;
    ZeroInvalid();
    var owner' := owner[f := Held];
    forall g | g in owner' ensures Node(mem, owner', g, 0, 0) {
      assert Node(mem, owner, g, 0, 0);
    }
  }
}
