/**
 Who owns which disk block.  A block address is stored in one of three kinds of slot of an
 inode: a direct address, the address of its indirect table, or an entry of that table.
 `Owned` says that the free bitmap and the slots of all inodes agree; `spare` are blocks that
 an operation has allocated and not yet stored, or unhooked and not yet freed.
 */
module FsOwnership {
  import opened Params
  import opened FsBytes

  const NDIRECT: nat := 12
  const MAXFILE: nat := 268         // NDIRECT + NINDIRECT
  const IPB: nat := 16              // inodes per block

  /** The fixed part of the superblock.  Blocks from `datastart` on hold file contents. */
  datatype Superblock = Superblock(size: nat, ninodes: nat, inodestart: nat, bmapstart: nat, datastart: nat)

  datatype Dinode = Dinode(typ: nat, nlink: nat, size: nat, addrs: seq<nat>)

  const FREE_INODE := Dinode(0, 0, 0, seq(13, _ => 0))

  datatype Slot = Direct(inum: nat, k: nat) | Table(inum: nat) | Entry(inum: nat, k: nat)

  type Blocks = seq<Data>
  type Inodes = seq<Dinode>

  function BBlock(sb: Superblock, b: nat): nat {
    b / BPB + sb.bmapstart
  }

  function IBlock(sb: Superblock, inum: nat): nat {
    inum / IPB + sb.inodestart
  }

  /** The inodes stand one after the other from inodestart on, 64 bytes each, and so do the bits of the blocks from
      bmapstart on. */
  lemma DiskOffsets(sb: Superblock, inum: nat, b: nat)
    ensures IBlock(sb, inum) * BSIZE + inum % IPB * 64 == sb.inodestart * BSIZE + inum * 64
    ensures BBlock(sb, b) * (8 * BSIZE) + b % BPB == sb.bmapstart * (8 * BSIZE) + b
  {
  }

  /** The blocks of the bitmap that hold bits of the disk. */
  ghost function Bitmap(sb: Superblock): set<nat> {
    set b | 0 <= b < sb.size :: BBlock(sb, b)
  }

  lemma InBitmap(sb: Superblock, b: nat)
    requires b < sb.size
    ensures BBlock(sb, b) in Bitmap(sb)
  {
  }

  /** The blocks of the bitmap that hold the bits of these blocks. */
  ghost function Maps(sb: Superblock, bs: set<nat>): set<nat> {
    set b | b in bs :: BBlock(sb, b)
  }

  lemma BitmapCount(sb: Superblock)
    ensures |Bitmap(sb)| == (sb.size + BPB - 1) / BPB
  {
    var n := (sb.size + BPB - 1) / BPB;
    forall x: nat ensures x in Bitmap(sb) <==> sb.bmapstart <= x < sb.bmapstart + n {
      if sb.bmapstart <= x < sb.bmapstart + n {
        var b := (x - sb.bmapstart) * BPB;
        assert 0 <= b < sb.size && BBlock(sb, b) == x;
      }
    }
    RangeSize(Bitmap(sb), sb.bmapstart, n);
  }

  lemma {:induction false} RangeSize(s: set<nat>, lo: nat, n: nat)
    requires forall x: nat :: x in s <==> lo <= x < lo + n
    ensures |s| == n
  {
    if n > 0 {
      RangeSize(s - {lo + n - 1}, lo, n - 1);
    } else {
      assert s == {};
    }
  }

  /** boot block, superblock, log | inodes | bitmap | data */
  predicate Layout(sb: Superblock, blocks: Blocks, inodes: Inodes) {
    && Geometry(sb)
    && |blocks| == sb.size && |inodes| == sb.ninodes
    && (forall i :: 0 <= i < |inodes| ==> |inodes[i].addrs| == NDIRECT + 1)
  }

  predicate Geometry(sb: Superblock) {
    && 2 <= sb.inodestart && 0 < sb.datastart <= sb.size < UINT
    && (forall i :: 0 <= i < sb.ninodes ==> IBlock(sb, i) < sb.bmapstart)
    && (forall b :: 0 <= b < sb.size ==> BBlock(sb, b) < sb.datastart)
  }

  /** Every block that has changed, but x, is in the log. */
  predicate LogsBut(was: Blocks, now: Blocks, logged: set<nat>, x: nat) {
    |was| == |now| && forall b :: 0 <= b < |was| && b != x && now[b] != was[b] ==> b in logged
  }

  /** Every block that has changed is in the log; block 0 never changes. */
  predicate Logs(was: Blocks, now: Blocks, logged: set<nat>) {
    |was| == |now| && forall b :: 0 <= b < |was| && now[b] != was[b] ==> b in logged
  }

  lemma LogsNothing(blocks: Blocks, logged: set<nat>)
    ensures Logs(blocks, blocks, logged)
  {
  }

  lemma LogsOne(blocks: Blocks, t: nat, d: Data, logged: set<nat>)
    requires t < |blocks| && t in logged
    ensures Logs(blocks, blocks[t := d], logged)
  {
  }

  lemma LogsThenBut(a: Blocks, b: Blocks, c: Blocks, l: set<nat>, m: set<nat>, x: nat)
    requires Logs(a, b, l) && l <= m && LogsBut(b, c, m, x)
    ensures LogsBut(a, c, m, x) && (x == 0 && (|b| > 0 ==> c[0] == b[0]) ==> Logs(a, c, m))
  {
  }

  lemma LogsThen(a: Blocks, b: Blocks, c: Blocks, l: set<nat>, m: set<nat>)
    requires Logs(a, b, l) && l <= m && Logs(b, c, m)
    ensures Logs(a, c, m)
  {
  }

  /** The bitmap marks block b. */
  predicate Used(sb: Superblock, blocks: Blocks, b: nat)
    requires BBlock(sb, b) < |blocks|
  {
    TestBit(blocks[BBlock(sb, b)], b % BPB)
  }

  /** The address stored in a slot, 0 if none. */
  function Addr(blocks: Blocks, inodes: Inodes, s: Slot): nat {
    if s.inum >= |inodes| || |inodes[s.inum].addrs| != NDIRECT + 1 then 0 else
      var addrs := inodes[s.inum].addrs;
      match s
      case Direct(_, k) => if k < NDIRECT then addrs[k] else 0
      case Table(_) => addrs[NDIRECT]
      case Entry(_, k) => if k < NINDIRECT && 0 < addrs[NDIRECT] < |blocks| then Word(blocks[addrs[NDIRECT]], k) else 0
  }

  ghost predicate Owned(sb: Superblock, blocks: Blocks, inodes: Inodes, owner: map<nat, Slot>, spare: set<nat>) {
    && Layout(sb, blocks, inodes)
    && (forall b :: b in owner ==> sb.datastart <= b < sb.size && b !in spare && Addr(blocks, inodes, owner[b]) == b)
    && (forall s: Slot :: Addr(blocks, inodes, s) != 0 ==>
          Addr(blocks, inodes, s) in owner && owner[Addr(blocks, inodes, s)] == s)
    && (forall b :: b in spare ==> sb.datastart <= b < sb.size)
    && (forall b :: 0 <= b < sb.size ==> (Used(sb, blocks, b) <==> b < sb.datastart || b in owner || b in spare))
  }

  /** No block is free. */
  predicate DiskFull(sb: Superblock, blocks: Blocks) {
    forall b :: 0 <= b < sb.size ==> BBlock(sb, b) < |blocks| && Used(sb, blocks, b)
  }

  // ---- The bitmap ---------------------------------------------------------------------

  function Mark(sb: Superblock, blocks: Blocks, b: nat): (r: Blocks)
    requires BBlock(sb, b) < |blocks|
    ensures |r| == |blocks|
  {
    blocks[BBlock(sb, b) := SetBit(blocks[BBlock(sb, b)], b % BPB)]
  }

  function Unmark(sb: Superblock, blocks: Blocks, b: nat): (r: Blocks)
    requires BBlock(sb, b) < |blocks|
    ensures |r| == |blocks|
  {
    blocks[BBlock(sb, b) := ClearBit(blocks[BBlock(sb, b)], b % BPB)]
  }

  lemma SameBit(b: nat, c: nat)
    requires b / BPB == c / BPB && b % BPB == c % BPB
    ensures b == c
  {
  }

  lemma MarkedBits(sb: Superblock, blocks: Blocks, inodes: Inodes, b: nat, c: nat)
    requires Layout(sb, blocks, inodes) && b < sb.size && c < sb.size
    ensures Used(sb, Mark(sb, blocks, b), c) == (c == b || Used(sb, blocks, c))
    ensures Used(sb, Unmark(sb, blocks, b), c) == (c != b && Used(sb, blocks, c))
  {
    hide TestBit, SetBit, ClearBit;
    assert c % BPB < BPB && BBlock(sb, b) < sb.datastart && BBlock(sb, c) < sb.datastart;
    if b / BPB == c / BPB && b % BPB == c % BPB {
      SameBit(b, c);
    }
  }

  /** Blocks that hold no indirect table can change without changing any address. */
  lemma SameAddrs(blocks: Blocks, e: Blocks, inodes: Inodes, owner: map<nat, Slot>, s: Slot)
    requires |e| == |blocks|
    requires forall t: Slot :: t.Table? && 0 < Addr(blocks, inodes, t) < |blocks| ==>
               e[Addr(blocks, inodes, t)] == blocks[Addr(blocks, inodes, t)]
    ensures Addr(e, inodes, s) == Addr(blocks, inodes, s)
  {
    hide Word;
    assert Addr(e, inodes, Table(s.inum)) == Addr(blocks, inodes, Table(s.inum));
  }

  /** balloc: mark a free block and zero it; it is spare until it is stored. */
  lemma Allocate(sb: Superblock, blocks: Blocks, inodes: Inodes, owner: map<nat, Slot>, spare: set<nat>, b: nat)
    requires Owned(sb, blocks, inodes, owner, spare) && b < sb.size && !Used(sb, blocks, b)
    ensures Owned(sb, Mark(sb, blocks, b)[b := ZERO], inodes, owner, spare + {b})
    ensures b !in owner && b !in spare && b >= sb.datastart > 0
  {
    hide Used, Addr;
    var e := Mark(sb, blocks, b)[b := ZERO];
    forall s: Slot
      ensures Addr(e, inodes, s) == Addr(blocks, inodes, s)
    {
      SameAddrs(blocks, e, inodes, owner, s);
    }
    forall c | 0 <= c < sb.size
      ensures Used(sb, e, c) == (c == b || Used(sb, blocks, c))
    {
      MarkedBits(sb, blocks, inodes, b, c);
      SameBitmap(sb, Mark(sb, blocks, b), inodes, b, ZERO, c);
    }
  }

  /** Writing a data block leaves the bitmap alone. */
  lemma SameBitmap(sb: Superblock, blocks: Blocks, inodes: Inodes, b: nat, d: Data, c: nat)
    requires Layout(sb, blocks, inodes) && sb.datastart <= b < sb.size && c < sb.size
    ensures Used(sb, blocks[b := d], c) == Used(sb, blocks, c)
  {
    assert BBlock(sb, c) < sb.datastart;
  }

  /** bfree of a spare block. */
  lemma Release(sb: Superblock, blocks: Blocks, inodes: Inodes, owner: map<nat, Slot>, spare: set<nat>, b: nat)
    requires Owned(sb, blocks, inodes, owner, spare) && b in spare
    ensures Used(sb, blocks, b) && Owned(sb, Unmark(sb, blocks, b), inodes, owner, spare - {b})
  {
    hide Used, Addr;
    var e := Unmark(sb, blocks, b);
    forall s: Slot
      ensures Addr(e, inodes, s) == Addr(blocks, inodes, s)
    {
      SameAddrs(blocks, e, inodes, owner, s);
    }
    forall c | 0 <= c < sb.size
      ensures Used(sb, e, c) == (c != b && Used(sb, blocks, c))
    {
      MarkedBits(sb, blocks, inodes, b, c);
    }
  }

  // ---- Storing and removing addresses ---------------------------------------------------

  /** ip->addrs[k] = b */
  function StoreAddr(inodes: Inodes, i: nat, k: nat, b: nat): Inodes
    requires i < |inodes| && k < |inodes[i].addrs|
  {
    inodes[i := inodes[i].(addrs := inodes[i].addrs[k := b])]
  }

  lemma AttachDirect(
    sb: Superblock, blocks: Blocks, inodes: Inodes, owner: map<nat, Slot>, spare: set<nat>, i: nat, k: nat, b: nat)
    requires Owned(sb, blocks, inodes, owner, spare) && b in spare
    requires i < |inodes| && k < NDIRECT && Addr(blocks, inodes, Direct(i, k)) == 0
    ensures Owned(sb, blocks, StoreAddr(inodes, i, k, b), owner[b := Direct(i, k)], spare - {b})
  {
    hide Used, Word;
    var e := StoreAddr(inodes, i, k, b);
    assert forall s: Slot :: Addr(blocks, e, s) == if s == Direct(i, k) then b else Addr(blocks, inodes, s);
    hide Addr;
  }

  /** A new indirect table is zeroed, so it brings no entries. */
  lemma AttachTable(
    sb: Superblock, blocks: Blocks, inodes: Inodes, owner: map<nat, Slot>, spare: set<nat>, i: nat, b: nat)
    requires Owned(sb, blocks, inodes, owner, spare) && b in spare && blocks[b] == ZERO
    requires i < |inodes| && Addr(blocks, inodes, Table(i)) == 0
    ensures Owned(sb, blocks, StoreAddr(inodes, i, NDIRECT, b), owner[b := Table(i)], spare - {b})
  {
    hide Used, Word;
    var e := StoreAddr(inodes, i, NDIRECT, b);
    forall s: Slot
      ensures Addr(blocks, e, s) == if s == Table(i) then b else Addr(blocks, inodes, s)
    {
      if s.Entry? && s.k < NINDIRECT {
        ZeroWords(s.k);
      }
    }
    hide Addr;
  }

  /** a[k] = b in the table t of inode i changes that entry and no other address. */
  lemma EntryWritten(blocks: Blocks, inodes: Inodes, i: nat, t: nat, k: nat, b: nat, s: Slot)
    requires i < |inodes| && k < NINDIRECT && 0 < t < |blocks| && b < UINT && Addr(blocks, inodes, Table(i)) == t
    requires s.inum != i ==> Addr(blocks, inodes, Table(s.inum)) != t
    ensures Addr(blocks[t := SetWord(blocks[t], k, b)], inodes, s) == if s == Entry(i, k) then b
            else Addr(blocks, inodes, s)
  {
    hide Word, SetWord;
    assert s.inum < |inodes| ==>
             Addr(blocks, inodes, Table(s.inum)) == Addr(blocks[t := SetWord(blocks[t], k, b)], inodes, Table(s.inum));
  }

  lemma AttachEntry(
    sb: Superblock, blocks: Blocks, inodes: Inodes, owner: map<nat, Slot>, spare: set<nat>, i: nat, k: nat, b: nat)
    requires Owned(sb, blocks, inodes, owner, spare) && b in spare
    requires i < |inodes| && k < NINDIRECT && Addr(blocks, inodes, Table(i)) != 0 &&
             Addr(blocks, inodes, Entry(i, k)) == 0
    ensures var t := Addr(blocks, inodes, Table(i));
            t < |blocks| && b < UINT && Owned(sb, blocks[t := SetWord(blocks[t], k, b)], inodes,
              owner[b := Entry(i, k)], spare - {b})
  {
    var t := Addr(blocks, inodes, Table(i));
    assert t in owner;
    var e := blocks[t := SetWord(blocks[t], k, b)];
    hide Used, Word, SetWord, Addr;
    forall s: Slot
      ensures Addr(e, inodes, s) == if s == Entry(i, k) then b else Addr(blocks, inodes, s)
    {
      EntryWritten(blocks, inodes, i, t, k, b, s);
    }
    forall c | 0 <= c < sb.size
      ensures Used(sb, e, c) == Used(sb, blocks, c)
    {
      SameBitmap(sb, blocks, inodes, t, SetWord(blocks[t], k, b), c);
    }
  }

  lemma DetachDirect(
    sb: Superblock, blocks: Blocks, inodes: Inodes, owner: map<nat, Slot>, spare: set<nat>, i: nat, k: nat)
    requires Owned(sb, blocks, inodes, owner, spare) && i < |inodes| && k < NDIRECT &&
             Addr(blocks, inodes, Direct(i, k)) != 0
    ensures var b := Addr(blocks, inodes, Direct(i, k));
            Owned(sb, blocks, StoreAddr(inodes, i, k, 0), owner - {b}, spare + {b})
  {
    hide Used, Word;
    var e := StoreAddr(inodes, i, k, 0);
    assert forall s: Slot :: Addr(blocks, e, s) == if s == Direct(i, k) then 0 else Addr(blocks, inodes, s);
    hide Addr;
  }

  /** The table of inode i and the blocks its entries name. */
  function TableBlocks(owner: map<nat, Slot>, i: nat): set<nat> {
    set b | b in owner && owner[b].inum == i && !owner[b].Direct?
  }

  lemma DetachTable(sb: Superblock, blocks: Blocks, inodes: Inodes, owner: map<nat, Slot>, spare: set<nat>, i: nat)
    requires Owned(sb, blocks, inodes, owner, spare) && i < |inodes|
    ensures var gone := TableBlocks(owner, i);
            Owned(sb, blocks, StoreAddr(inodes, i, NDIRECT, 0), owner - gone, spare + gone)
  {
    hide Used, Word;
    var e := StoreAddr(inodes, i, NDIRECT, 0);
    assert forall s: Slot :: Addr(blocks, e, s) == if s.inum == i && !s.Direct? then 0 else Addr(blocks, inodes, s);
    hide Addr;
  }

  /** File contents can be written without touching ownership. */
  lemma WriteContents(
    sb: Superblock, blocks: Blocks, inodes: Inodes, owner: map<nat, Slot>, spare: set<nat>, s: Slot, d: Data)
    requires Owned(sb, blocks, inodes, owner, spare) && !s.Table? && Addr(blocks, inodes, s) != 0
    ensures Addr(blocks, inodes, s) < |blocks| && Owned(sb, blocks[Addr(blocks, inodes, s) := d], inodes, owner, spare)
    ensures forall t: Slot :: Addr(blocks[Addr(blocks, inodes, s) := d], inodes, t) == Addr(blocks, inodes, t)
    ensures forall t: Slot ::
              t != s && Addr(blocks, inodes, t) != 0 ==> Addr(blocks, inodes, t) != Addr(blocks, inodes, s)
  {
    hide Used, Addr;
    var b := Addr(blocks, inodes, s);
    var e := blocks[b := d];
    forall t: Slot
      ensures Addr(e, inodes, t) == Addr(blocks, inodes, t)
    {
      SameAddrs(blocks, e, inodes, owner, t);
    }
    forall c | 0 <= c < sb.size
      ensures Used(sb, e, c) == Used(sb, blocks, c)
    {
      SameBitmap(sb, blocks, inodes, b, d, c);
    }
  }

  // ---- File contents -----------------------------------------------------------------

  function BlockSlot(i: nat, bn: nat): Slot {
    if bn < NDIRECT then Direct(i, bn) else Entry(i, bn - NDIRECT)
  }

  function FileByte(blocks: Blocks, inodes: Inodes, i: nat, p: nat): byte {
    var b := Addr(blocks, inodes, BlockSlot(i, p / BSIZE));
    if b < |blocks| then blocks[b][p % BSIZE] else 0
  }

  function Contents(blocks: Blocks, inodes: Inodes, i: nat): (c: seq<byte>)
    requires i < |inodes|
    ensures |c| == inodes[i].size
  {
    seq(inodes[i].size, p requires p >= 0 => FileByte(blocks, inodes, i, p))
  }

  /** Every block below the size is mapped. */
  ghost predicate Mapped(blocks: Blocks, inodes: Inodes, i: nat, size: nat) {
    size <= MAXFILE * BSIZE &&
    forall bn: nat :: bn * BSIZE < size ==> Addr(blocks, inodes, BlockSlot(i, bn)) != 0
  }

  /** The slot holds the same address and, if it is contents, the same bytes. */
  predicate SameSlot(blocks: Blocks, inodes: Inodes, e: Blocks, f: Inodes, s: Slot) {
    var b := Addr(blocks, inodes, s);
    Addr(e, f, s) == b && (b < |blocks| && !s.Table? ==> b < |e| && e[b] == blocks[b])
  }

  /** Nothing about any inode other than i has changed. */
  ghost predicate OthersSame(blocks: Blocks, inodes: Inodes, e: Blocks, f: Inodes, i: nat) {
    && |e| == |blocks| && |f| == |inodes|
    && (forall j :: 0 <= j < |f| && j != i ==> f[j] == inodes[j])
    && (forall s: Slot :: s.inum != i && Addr(blocks, inodes, s) != 0 ==> SameSlot(blocks, inodes, e, f, s))
  }

  /** Inode i may have gained blocks, but keeps those it had. */
  ghost predicate Grows(blocks: Blocks, inodes: Inodes, e: Blocks, f: Inodes, i: nat) {
    && OthersSame(blocks, inodes, e, f, i)
    && (forall s: Slot :: s.inum == i && Addr(blocks, inodes, s) != 0 ==> SameSlot(blocks, inodes, e, f, s))
  }

  lemma OthersTransitive(a: Blocks, p: Inodes, b: Blocks, q: Inodes, c: Blocks, r: Inodes, i: nat)
    requires OthersSame(a, p, b, q, i) && OthersSame(b, q, c, r, i)
    ensures OthersSame(a, p, c, r, i)
  {
    hide Addr;
  }

  lemma GrowsTransitive(a: Blocks, p: Inodes, b: Blocks, q: Inodes, c: Blocks, r: Inodes, i: nat)
    requires Grows(a, p, b, q, i) && Grows(b, q, c, r, i)
    ensures Grows(a, p, c, r, i)
  {
    hide Addr;
  }

  /** Other files keep their contents and stay mapped. */
  lemma OthersKeepContents(blocks: Blocks, inodes: Inodes, e: Blocks, f: Inodes, i: nat, j: nat)
    requires OthersSame(blocks, inodes, e, f, i) && j != i && j < |inodes| && Mapped(blocks, inodes, j, inodes[j].size)
    ensures Contents(e, f, j) == Contents(blocks, inodes, j) && Mapped(e, f, j, f[j].size)
  {
    hide Addr;
    forall bn: nat | bn * BSIZE < inodes[j].size
      ensures SameSlot(blocks, inodes, e, f, BlockSlot(j, bn))
    {
    }
    forall p: nat | p < inodes[j].size
      ensures FileByte(e, f, j, p) == FileByte(blocks, inodes, j, p)
    {
      assert (p / BSIZE) * BSIZE < inodes[j].size;
      assert SameSlot(blocks, inodes, e, f, BlockSlot(j, p / BSIZE));
    }
  }

  /** Growing a file leaves the bytes below its size alone. */
  lemma GrowsKeepsBytes(blocks: Blocks, v: Inodes, e: Blocks, f: Inodes, i: nat, size: nat)
    requires Grows(blocks, v, e, f, i) && Mapped(blocks, v, i, size)
    ensures Mapped(e, f, i, size)
    ensures forall p: nat :: p < size ==> FileByte(e, f, i, p) == FileByte(blocks, v, i, p)
  {
    hide Addr;
    forall bn: nat | bn * BSIZE < size
      ensures SameSlot(blocks, v, e, f, BlockSlot(i, bn)) && Addr(blocks, v, BlockSlot(i, bn)) != 0
    {
    }
    forall p: nat | p < size
      ensures FileByte(e, f, i, p) == FileByte(blocks, v, i, p)
    {
      assert (p / BSIZE) * BSIZE < size;
      assert SameSlot(blocks, v, e, f, BlockSlot(i, p / BSIZE));
    }
  }

  /** The bytes of one block of the file are consecutive bytes of its contents. */
  lemma BlockSlice(blocks: Blocks, v: Inodes, i: nat, off: nat, m: nat)
    requires i < |v| && off + m <= v[i].size && off % BSIZE + m <= BSIZE
    requires Addr(blocks, v, BlockSlot(i, off / BSIZE)) < |blocks|
    ensures blocks[Addr(blocks, v, BlockSlot(i, off / BSIZE))][off % BSIZE..off % BSIZE + m] ==
            Contents(blocks, v, i)[off..off + m]
  {
    hide Addr;
    forall p | off <= p < off + m
      ensures FileByte(blocks, v, i, p) == blocks[Addr(blocks, v, BlockSlot(i, off / BSIZE))][off % BSIZE + (p - off)]
    {
      SameBlock(off, p - off);
    }
  }

  lemma SameBlock(off: nat, k: nat)
    requires off % BSIZE + k < BSIZE
    ensures (off + k) / BSIZE == off / BSIZE && (off + k) % BSIZE == off % BSIZE + k
  {
  }

  // ---- A write in progress -------------------------------------------------------------

  function Splice(d: Data, o: nat, w: seq<byte>): Data
    requires o + |w| <= BSIZE
  {
    d[..o] + w + d[o + |w|..]
  }

  /** The first `tot` bytes of src are at `off`; everything else below the old size is as it was. */
  ghost predicate Written(blocks: Blocks, v: Inodes, i: nat, was: seq<byte>, off: nat, src: seq<byte>, tot: nat) {
    && off <= |was| && tot <= |src|
    && Mapped(blocks, v, i, if |was| < off + tot then off + tot else |was|)
    && (forall p: nat :: p < |was| && !(off <= p < off + tot) ==> FileByte(blocks, v, i, p) == was[p])
    && (forall p: nat :: off <= p < off + tot ==> FileByte(blocks, v, i, p) == src[p - off])
  }

  lemma WrittenGrows(
    blocks: Blocks, v: Inodes, e: Blocks, f: Inodes, i: nat, was: seq<byte>, off: nat, src: seq<byte>, tot: nat)
    requires Written(blocks, v, i, was, off, src, tot) && Grows(blocks, v, e, f, i)
    ensures Written(e, f, i, was, off, src, tot)
  {
    hide FileByte, Grows, Mapped;
    GrowsKeepsBytes(blocks, v, e, f, i, if |was| < off + tot then off + tot else |was|);
  }

  /** After writing m bytes into the block that holds byte off + tot. */
  lemma WriteStep(sb: Superblock, blocks: Blocks, v: Inodes, owner: map<nat, Slot>, i: nat,
                  was: seq<byte>, off: nat, src: seq<byte>, tot: nat, m: nat)
    requires Owned(sb, blocks, v, owner, {}) && Written(blocks, v, i, was, off, src, tot)
    requires Addr(blocks, v, BlockSlot(i, (off + tot) / BSIZE)) != 0
    requires 0 < m <= BSIZE - (off + tot) % BSIZE && tot + m <= |src| && off + tot + m <= MAXFILE * BSIZE
    ensures Addr(blocks, v, BlockSlot(i, (off + tot) / BSIZE)) < |blocks|
    ensures var b := Addr(blocks, v, BlockSlot(i, (off + tot) / BSIZE));
            var e := blocks[b := Splice(blocks[b], (off + tot) % BSIZE, src[tot..tot + m])];
            && Owned(sb, e, v, owner, {}) && OthersSame(blocks, v, e, v, i)
            && Written(e, v, i, was, off, src, tot + m)
            && Addr(e, v, Table(i)) == Addr(blocks, v, Table(i)) && Addr(e, v, BlockSlot(i, (off + tot) / BSIZE)) == b
  {
    hide Addr, Used, Layout;
    var s := BlockSlot(i, (off + tot) / BSIZE);
    var b := Addr(blocks, v, s);
    WriteContents(sb, blocks, v, owner, {}, s, ZERO);
    var d := Splice(blocks[b], (off + tot) % BSIZE, src[tot..tot + m]);
    WriteContents(sb, blocks, v, owner, {}, s, d);
    hide Owned;
    var e := blocks[b := d];
    forall p: nat
      ensures FileByte(e, v, i, p) == if off + tot <= p < off + tot + m then src[p - off] else FileByte(blocks, v, i, p)
    {
      SplicedByte(blocks, v, e, i, off + tot, src[tot..tot + m], p);
    }
    hide FileByte;
    MappedFurther(e, v, i, if |was| < off + tot then off + tot else |was|, off + tot, m);
  }

  lemma SplicedByte(blocks: Blocks, v: Inodes, e: Blocks, i: nat, off: nat, w: seq<byte>, p: nat)
    requires off % BSIZE + |w| <= BSIZE && |w| > 0
    requires forall t: Slot :: Addr(e, v, t) == Addr(blocks, v, t)
    requires var s := BlockSlot(i, off / BSIZE);
             && Addr(blocks, v, s) < |blocks| && e == blocks[Addr(blocks, v, s) := Splice(blocks[Addr(blocks, v, s)],
                  off % BSIZE, w)]
             && Addr(blocks, v, s) != 0
             && (forall t: Slot :: t != s && Addr(blocks, v, t) != 0 ==> Addr(blocks, v, t) != Addr(blocks, v, s))
    ensures FileByte(e, v, i, p) == if off <= p < off + |w| then w[p - off] else FileByte(blocks, v, i, p)
  {
    hide Addr;
    if p / BSIZE != off / BSIZE {
      assert BlockSlot(i, p / BSIZE) != BlockSlot(i, off / BSIZE);
      OtherBlock(off, |w|, p);
    } else {
      assert p - off == p % BSIZE - off % BSIZE;
    }
  }

  lemma OtherBlock(off: nat, m: nat, p: nat)
    requires off % BSIZE + m <= BSIZE && m > 0 && p / BSIZE != off / BSIZE
    ensures !(off <= p < off + m)
  {
    if off <= p < off + m {
      SameBlock(off, p - off);
    }
  }

  lemma MappedFurther(blocks: Blocks, v: Inodes, i: nat, size: nat, off: nat, m: nat)
    requires Mapped(blocks, v, i, size) && off <= size && 0 < m <= BSIZE - off % BSIZE && off + m <= MAXFILE * BSIZE
    requires Addr(blocks, v, BlockSlot(i, off / BSIZE)) != 0
    ensures Mapped(blocks, v, i, if size < off + m then off + m else size)
  {
    hide Addr;
    forall bn: nat | bn * BSIZE < off + m
      ensures Addr(blocks, v, BlockSlot(i, bn)) != 0
    {
      if bn * BSIZE >= size {
        assert bn == off / BSIZE;
      }
    }
  }

  // ---- Soundness of the whole file system ----------------------------------------------

  /** The file system between operations. */
  ghost predicate Sound(sb: Superblock, blocks: Blocks, inodes: Inodes, owner: map<nat, Slot>) {
    && Owned(sb, blocks, inodes, owner, {})
    && forall i :: 0 <= i < |inodes| ==>
         Mapped(blocks, inodes, i, inodes[i].size) && (inodes[i].typ == 0 ==> Empty(inodes[i]))
  }

  /** An inode without contents. */
  predicate Empty(d: Dinode) {
    d.size == 0 && forall k :: 0 <= k < |d.addrs| ==> d.addrs[k] == 0
  }

  /** A bitmap that marks the blocks before the data, and free inodes. */
  lemma FreshIsSound(sb: Superblock, blocks: Blocks, inodes: Inodes)
    requires Layout(sb, blocks, inodes) && forall i :: 0 <= i < |inodes| ==> inodes[i].typ == 0 && Empty(inodes[i])
    requires forall b :: 0 <= b < sb.size ==> (Used(sb, blocks, b) <==> b < sb.datastart)
    ensures Sound(sb, blocks, inodes, map[])
  {
    hide Used, Word, Layout;
    forall s: Slot ensures Addr(blocks, inodes, s) == 0 {
    }
    hide Addr;
    forall i | 0 <= i < |inodes| ensures Mapped(blocks, inodes, i, inodes[i].size) {
      EmptyIsMapped(blocks, inodes, i);
    }
  }

  /** An inode without blocks may become another one without blocks. */
  lemma EmptySame(sb: Superblock, blocks: Blocks, v: Inodes, owner: map<nat, Slot>, i: nat, d: Dinode)
    requires Owned(sb, blocks, v, owner, {}) && i < |v| && Empty(v[i]) && Empty(d) && |d.addrs| == NDIRECT + 1
    ensures Owned(sb, blocks, v[i := d], owner, {}) && OthersSame(blocks, v, blocks, v[i := d], i)
  {
    hide Used, Word;
    var f := v[i := d];
    forall s: Slot ensures Addr(blocks, f, s) == Addr(blocks, v, s) {
    }
    hide Addr;
  }

  lemma EmptyIsMapped(blocks: Blocks, inodes: Inodes, i: nat)
    ensures Mapped(blocks, inodes, i, 0)
  {
  }

  /** No file other than i has changed. */
  lemma SoundAfter(
    sb: Superblock, blocks: Blocks, inodes: Inodes, owner: map<nat, Slot>, e: Blocks, f: Inodes, own: map<nat, Slot>,
    i: nat)
    requires Sound(sb, blocks, inodes, owner) && OthersSame(blocks, inodes, e, f, i) && i < |inodes|
    requires Owned(sb, e, f, own, {}) && Mapped(e, f, i, f[i].size) && (f[i].typ == 0 ==> Empty(f[i]))
    ensures Sound(sb, e, f, own)
    ensures forall j :: 0 <= j < |f| && j != i ==> f[j] == inodes[j] && Contents(e, f, j) == Contents(blocks, inodes, j)
  {
    hide Owned, Addr;
    forall j | 0 <= j < |f| && j != i
      ensures f[j] == inodes[j] && Mapped(e, f, j, f[j].size) && Contents(e, f, j) == Contents(blocks, inodes, j)
    {
      OthersKeepContents(blocks, inodes, e, f, i, j);
    }
  }
}
