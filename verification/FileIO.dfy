/**
 Reading and writing files (readi, writei of kernel/fs.c), the split of a write into
 transactions (filewrite of kernel/file.c), and the end of an inode (iput, ireclaim).
 */
module FileIO {
  import opened Params
  import opened FsBytes
  import opened FsOwnership
  import opened FileSystem

  /** The inode in memory describes a file all of whose blocks below the size are mapped. */
  ghost predicate Open(fs: Fs, ip: Inode)
    reads fs, ip
  {
    fs.Holding(ip, {}) && Mapped(fs.blocks, fs.View(ip), ip.inum, ip.d.size)
  }

  ghost function Bytes(fs: Fs, ip: Inode): seq<byte>
    requires ip.inum < |fs.inodes|
    reads fs, ip
  {
    Contents(fs.blocks, fs.View(ip), ip.inum)
  }

  /** How many bytes readi means to read. */
  function ReadLength(size: nat, off: nat, n: nat): nat {
    if off > size || off + n >= UINT then 0 else Min(off + n, size) - off
  }

  /** One iteration of readi: m bytes of the block of byte o. */
  method ReadOne(fs: Fs, ip: Inode, o: nat, m: nat) returns (piece: seq<byte>)
    requires Open(fs, ip) && o < ip.d.size && o + m <= ip.d.size && o % BSIZE + m <= BSIZE
    modifies fs`blocks, fs`logged, fs`peak, fs`owner, ip`d
    ensures Open(fs, ip) && fs.blocks == old(fs.blocks) && fs.logged == old(fs.logged) && ip.d == old(ip.d)
    ensures |Bytes(fs, ip)| == ip.d.size && Bytes(fs, ip) == old(Bytes(fs, ip)) && piece == Bytes(fs, ip)[o..o + m]
  {
    hide Owned, Addr, Used, Layout, Grows, Contents;
    assert (o / BSIZE) * BSIZE < ip.d.size;
    assert Addr(fs.blocks, fs.View(ip), BlockSlot(ip.inum, o / BSIZE)) != 0;
    var addr, _ := fs.Bmap(ip, o / BSIZE);
    SlotInRange(fs.sb, fs.blocks, fs.View(ip), fs.owner, BlockSlot(ip.inum, o / BSIZE));
    BlockSlice(fs.blocks, fs.View(ip), ip.inum, o, m);
    SizeIsLength(fs, ip);
    piece := fs.blocks[addr][o % BSIZE..o % BSIZE + m];
  }

  lemma SizeIsLength(fs: Fs, ip: Inode)
    requires Open(fs, ip)
    ensures ip.inum < |fs.inodes| && |Bytes(fs, ip)| == ip.d.size
  {
    hide Owned, Mapped, Layout;
  }

  lemma Joined(c: seq<byte>, off: nat, tot: nat, m: nat)
    requires off + tot + m <= |c|
    ensures c[off..off + tot] + c[off + tot..off + tot + m] == c[off..off + tot + m]
  {
  }

  /** readi.  The first `writable` bytes of the destination can be copied to; `data` is what was.  The sum
      off + n is a 32-bit sum. */
  method Readi(fs: Fs, ip: Inode, off: nat, n: nat, writable: nat) returns (r: int, data: seq<byte>)
    requires Open(fs, ip) && off < UINT && n < UINT
    modifies fs`blocks, fs`logged, fs`peak, fs`owner, ip`d
    ensures Open(fs, ip) && fs.blocks == old(fs.blocks) && fs.logged == old(fs.logged) && ip.d == old(ip.d)
    ensures r == if writable < ReadLength(ip.d.size, off, n) then -1 else ReadLength(ip.d.size, off, n)
    ensures data == if off > ip.d.size then []
                    else Bytes(fs, ip)[off..off + Min(writable, ReadLength(ip.d.size, off, n))]
  {
    hide Owned, Contents, Mapped, Open;
    SizeIsLength(fs, ip);
    if off > ip.d.size || off + n >= UINT {
      return 0, [];
    }
    var k := if off + n > ip.d.size then ip.d.size - off else n;
    var tot := 0;
    data := [];
    while tot < k
      invariant 0 <= tot <= k && tot <= writable && Open(fs, ip)
      invariant fs.blocks == old(fs.blocks) && fs.logged == old(fs.logged) && ip.d == old(ip.d) &&
                fs.inodes == old(fs.inodes)
      invariant data == Bytes(fs, ip)[off..off + tot]
    {
      var m := Min(k - tot, BSIZE - (off + tot) % BSIZE);
      var copied := Min(m, writable - tot);
      var piece := ReadOne(fs, ip, off + tot, copied);
      Joined(Bytes(fs, ip), off, tot, copied);
      data := data + piece;
      if copied < m {
        return -1, data;
      }
      tot := tot + m;
    }
    r := tot;
  }

  lemma SlotInRange(sb: Superblock, blocks: Blocks, v: Inodes, owner: map<nat, Slot>, s: Slot)
    requires Owned(sb, blocks, v, owner, {})
    ensures Addr(blocks, v, s) < |blocks|
  {
    hide Used, Addr;
  }

  /** The byte sequence c with w written at off. */
  function WriteAt(c: seq<byte>, off: nat, w: seq<byte>): seq<byte>
    requires off <= |c|
  {
    c[..off] + w + if off + |w| < |c| then c[off + |w|..] else []
  }

  /** The contents after q bytes of w went to off, of which r count as written and can make the file larger. */
  function After(c: seq<byte>, off: nat, w: seq<byte>, r: nat, q: nat): seq<byte>
    requires r <= q <= |w| && (q > 0 ==> off <= |c|)
  {
    if q == 0 then c else WriteAt(c, off, w[..q])[..Max(|c|, off + r)]
  }

  /** Bytes r to q of w, as far as they lie in c at off, are there already. */
  predicate Kept(c: seq<byte>, off: nat, w: seq<byte>, r: nat, q: nat)
    requires q <= |w|
  {
    forall j :: r <= j < q && off + j < |c| ==> w[j] == c[off + j]
  }

  /** The contents are those of a write of r bytes exactly when the bytes beyond it changed nothing. */
  lemma UnreportedBytes(c: seq<byte>, off: nat, w: seq<byte>, r: nat, q: nat)
    requires r <= q <= |w| && off <= |c|
    ensures After(c, off, w, r, q) == After(c, off, w, r, r) <==> Kept(c, off, w, r, q)
  {
    var a, b := After(c, off, w, r, q), After(c, off, w, r, r);
    assert |a| == |b| == Max(|c|, off + r);
    forall p | 0 <= p < |a| ensures a[p] == if off + r <= p < off + q then w[p - off] else b[p] {
    }
    forall p | off + r <= p < |a| ensures b[p] == c[p] {
    }
    if a == b {
      forall j | r <= j < q && off + j < |c| ensures w[j] == c[off + j] {
        assert a[off + j] == b[off + j];
      }
    }
  }

  /** What writei reports for n bytes at off of which the first `readable` can be copied: all, or those before
      the last block boundary that the readable ones reach. */
  function Reported(off: nat, n: nat, readable: nat): nat {
    var boundary := (off + readable) / BSIZE * BSIZE;
    if n <= readable then n else if boundary <= off then 0 else boundary - off
  }

  lemma ReportedBound(off: nat, n: nat, readable: nat)
    ensures Reported(off, n, readable) <= Min(readable, n)
  {
  }

  predicate Boundary(off: nat, tot: nat) {
    tot == 0 || (off + tot) % BSIZE == 0
  }

  /** The loop of writei stops at the piece of m bytes that cannot be copied whole. */
  lemma StopsAtPiece(off: nat, n: nat, readable: nat, tot: nat)
    requires tot < n && Boundary(off, tot) && tot <= readable < tot + Min(n - tot, BSIZE - (off + tot) % BSIZE)
    ensures Reported(off, n, readable) == tot
  {
    if tot > 0 {
      var k := (off + tot) / BSIZE;
      assert off + tot == k * BSIZE && k * BSIZE <= off + readable < (k + 1) * BSIZE;
      assert (off + readable) / BSIZE == k;
    } else {
      assert (off + readable) / BSIZE == off / BSIZE;
    }
  }

  /** Every boundary that the readable bytes reach is reported. */
  lemma ReportedIsLast(off: nat, n: nat, readable: nat, tot: nat)
    requires Boundary(off, tot) && tot <= readable && tot <= n
    ensures tot <= Reported(off, n, readable)
  {
    if tot > 0 {
      var k := (off + tot) / BSIZE;
      assert off + tot == k * BSIZE <= off + readable;
      assert (off + readable) / BSIZE >= k;
    }
  }

  /** How a write of n bytes at off, of which `readable` can be copied, to a file of this size ends: r bytes are
      reported and q are in the buffers.  It stops at a block that is past the end of the file and cannot be
      allocated, or else where the bytes that can be copied do. */
  predicate Ended(off: nat, n: nat, size: nat, readable: nat, r: nat, q: nat, full: bool) {
    if full then r == q < n && r <= readable && Boundary(off, r) && off + r >= size
    else r == Reported(off, n, readable) && q == Min(readable, n)
  }

  lemma EndedBounds(off: nat, n: nat, size: nat, readable: nat, r: nat, q: nat, full: bool)
    requires Ended(off, n, size, readable, r, q, full)
    ensures r <= q <= n && (r < n && !full ==> readable < n)
  {
    ReportedBound(off, n, readable);
  }

  /** The file holds the reported write and no more if and only if what can be copied of the block where it
      stops lies past the end of the file or was there before: a condition on the arguments alone. */
  lemma WritesWhatItReports(c: seq<byte>, off: nat, w: seq<byte>, readable: nat, r: nat, q: nat, full: bool)
    requires off <= |c| && Ended(off, |w|, |c|, readable, r, q, full)
    ensures r <= q <= |w|
    ensures After(c, off, w, r, q) == After(c, off, w, r, r) <==>
              Kept(c, off, w, Reported(off, |w|, readable), Min(readable, |w|))
  {
    hide After, Reported;
    EndedBounds(off, |w|, |c|, readable, r, q, full);
    if full {
      ReportedIsLast(off, |w|, readable, r);
    } else {
      UnreportedBytes(c, off, w, r, q);
    }
  }

  /** How many blocks of a file the bytes [off, off + n) lie in. */
  function Touched(off: nat, n: nat): nat {
    if n == 0 then 0 else (off + n - 1) / BSIZE - off / BSIZE + 1
  }

  /** At most this many of k blocks from off on are new: an unaligned first block is not. */
  function NewBlocks(off: nat, k: nat): nat {
    if off % BSIZE == 0 || k == 0 then k else k - 1
  }

  /** Blocks that writing n bytes at off can log: those written, the bitmap blocks of those
      allocated, the indirect table and its bitmap block, and the inode block. */
  function WriteCost(off: nat, n: nat): nat {
    Touched(off, n) + NewBlocks(off, Touched(off, n)) + 3
  }

  /** Everything logged since `was` is one of k written blocks, a bitmap block of one of them
      that is new, or the indirect table's. */
  predicate Budget(
    logged: set<nat>, was: set<nat>, written: set<nat>, maps: set<nat>, table: set<nat>, off: nat, k: nat)
  {
    logged <= was + written + maps + table && |written| <= k && |maps| <= NewBlocks(off, k)
  }

  lemma BudgetStart(logged: set<nat>, table: set<nat>, off: nat)
    ensures Budget(logged, logged, {}, {}, table, off, 0)
  {
  }

  lemma BudgetStep(
    l1: set<nat>, l2: set<nat>, was: set<nat>, written: set<nat>, maps: set<nat>, t1: set<nat>, t2: set<nat>,
                   off: nat, k: nat, addr: nat, isNew: bool, map1: nat, limit: nat)
    requires Budget(l1, was, written, maps, t1, off, k) && t1 <= t2 && k < limit
    requires l2 <= l1 + {addr} + (if isNew then {map1} else {}) + t2
    requires isNew && off % BSIZE != 0 ==> k > 0
    ensures Budget(l2, was, written + {addr}, if isNew then maps + {map1} else maps, t2, off, k + 1)
    ensures Budget(l2, was, written + {addr}, if isNew then maps + {map1} else maps, t2, off, limit)
  {
    assert addr in written ==> written + {addr} == written;
    assert map1 in maps ==> maps + {map1} == maps;
  }

  lemma BudgetSize(
    logged: set<nat>, was: set<nat>, written: set<nat>, maps: set<nat>, table: set<nat>, off: nat, k: nat)
    requires Budget(logged, was, written, maps, table, off, k) && |table| <= 2
    ensures |logged| <= |was| + k + NewBlocks(off, k) + 2
  {
    SubsetSize(logged, was + written + maps + table);
  }

  lemma {:induction false} SubsetSize<T>(a: set<T>, b: set<T>)
    requires a <= b
    ensures |a| <= |b|
  {
    if a != {} {
      var x :| x in a;
      SubsetSize(a - {x}, b - {x});
    }
  }

  /** The block count after the bytes of one more block. */
  lemma TouchedStep(off: nat, tot: nat, m: nat)
    requires 0 < m <= BSIZE - (off + tot) % BSIZE && (tot == 0 || (off + tot) % BSIZE == 0)
    ensures Touched(off, tot + m) == Touched(off, tot) + 1 && (Touched(off, tot) == 0 <==> tot == 0)
  {
    if tot == 0 {
      assert (off + m - 1) / BSIZE == off / BSIZE;
    } else {
      assert (off + tot - 1) / BSIZE == (off + tot) / BSIZE - 1;
      assert (off + tot + m - 1) / BSIZE == (off + tot) / BSIZE;
    }
  }

  lemma TouchedMore(off: nat, tot: nat, n: nat)
    requires tot < n && (tot == 0 || (off + tot) % BSIZE == 0)
    ensures Touched(off, tot) + 1 <= Touched(off, n)
  {
    if tot > 0 {
      assert (off + tot - 1) / BSIZE == (off + tot) / BSIZE - 1;
      assert (off + n - 1) / BSIZE >= (off + tot) / BSIZE;
    }
  }

  /** A write in progress: the file so far, the other files, and what has been logged for it. */
  ghost predicate Writing(
    fs: Fs, ip: Inode, b0: Blocks, v0: Inodes, disk: Inodes, was: seq<byte>, off: nat, src: seq<byte>, tot: nat)
    reads fs, ip
  {
    && fs.Holding(ip, {}) && fs.inodes == disk && ip.inum < |v0| && ip.d == v0[ip.inum].(addrs := ip.d.addrs)
    && Written(fs.blocks, fs.View(ip), ip.inum, was, off, src, tot)
    && OthersSame(b0, v0, fs.blocks, fs.View(ip), ip.inum)
  }

  /** One iteration of writei: find or allocate the block of byte off + tot and copy m bytes.  A copy that
      fails leaves in the buffer what it copied before it failed, up to byte q, and that is not logged. */
  method WriteOne(
    fs: Fs, ip: Inode, ghost b0: Blocks, ghost v0: Inodes, ghost was: seq<byte>, off: nat, src: seq<byte>, tot: nat,
    m: nat, readable: nat)
    returns (ok: bool, ghost q: nat, ghost full: bool, ghost addr: nat, ghost isNew: bool)
    requires Writing(fs, ip, b0, v0, fs.inodes, was, off, src, tot)
    requires 0 < m <= BSIZE - (off + tot) % BSIZE && tot + m <= |src| && off + tot + m <= MAXFILE * BSIZE
    modifies fs`blocks, fs`logged, fs`peak, fs`owner, ip`d
    ensures tot <= q <= |src| && Writing(fs, ip, b0, v0, old(fs.inodes), was, off, src, q)
    ensures if ok then q == tot + m <= readable && !full
            else if full then q == tot && NoRoom(fs, was, off + tot, old(fs.blocks))
            else readable < tot + m && q == Max(tot, readable)
    ensures LogsCopied(old(fs.blocks), fs.blocks, old(fs.logged), fs.logged, At(fs, ip, off + tot), ok || q == tot)
    ensures isNew == (old(Addr(fs.blocks, fs.View(ip), BlockSlot(ip.inum, (off + tot) / BSIZE))) == 0)
    ensures fs.logged <= old(fs.logged) + {addr} + (if isNew then {BBlock(fs.sb, addr)} else {})
                         + TableCost(fs.sb, Addr(fs.blocks, fs.View(ip), Table(ip.inum)))
    ensures var t := old(Addr(fs.blocks, fs.View(ip), Table(ip.inum)));
            t != 0 ==> Addr(fs.blocks, fs.View(ip), Table(ip.inum)) == t
    ensures fs.peak <= Max(old(fs.peak), |fs.logged|) && |old(fs.logged)| <= |fs.logged|
  {
    hide Owned, Addr, Used, Layout, Written, OthersSame, Splice, Logs, LogsBut;
    ghost var was0, l0 := fs.blocks, fs.logged;
    isNew := Addr(fs.blocks, fs.View(ip), BlockSlot(ip.inum, (off + tot) / BSIZE)) == 0;
    q := tot;
    var a := MapOne(fs, ip, b0, v0, was, off, src, tot);
    addr := a;
    full := a == 0;
    if a == 0 {
      return false, q, full, addr, isNew;
    }
    var copied := if tot + m <= readable then m else if tot < readable then readable - tot else 0;
    q := tot + copied;
    ghost var was1, l1 := fs.blocks, fs.logged;
    CopyOne(fs, ip, b0, v0, was, off, src, tot, copied, a);
    ok := copied == m;
    if ok {
      fs.LogWrite(a);
    }
    CopyLogged(was0, was1, fs.blocks, l1, fs.logged, a, ok || copied == 0);
  }

  /** What has been changed since is logged, all of it or all but block x, and nothing has left the log. */
  predicate LogsCopied(b0: Blocks, now: Blocks, l0: set<nat>, logged: set<nat>, x: nat, whole: bool) {
    l0 <= logged && if whole then Logs(b0, now, logged) else LogsBut(b0, now, logged, x)
  }

  /** The block of byte p of the file. */
  ghost function At(fs: Fs, ip: Inode, p: nat): nat
    reads fs, ip
  {
    Addr(fs.blocks, fs.View(ip), BlockSlot(ip.inum, p / BSIZE))
  }

  lemma CopyLogged(b0: Blocks, b1: Blocks, b2: Blocks, l1: set<nat>, l2: set<nat>, a: nat, whole: bool)
    requires Logs(b0, b1, l1) && l1 <= l2 && a < |b1| == |b2| && b2 == b1[a := b2[a]]
    requires whole ==> a in l2 || b2 == b1
    ensures if whole then Logs(b0, b2, l2) else LogsBut(b0, b2, l2, a)
  {
  }

  /** bmap in writei. */
  method MapOne(
    fs: Fs, ip: Inode, ghost b0: Blocks, ghost v0: Inodes, ghost was: seq<byte>, off: nat, src: seq<byte>, tot: nat)
    returns (a: nat)
    requires Writing(fs, ip, b0, v0, fs.inodes, was, off, src, tot) && off + tot < MAXFILE * BSIZE
    modifies fs`blocks, fs`logged, fs`peak, fs`owner, ip`d
    ensures Writing(fs, ip, b0, v0, old(fs.inodes), was, off, src, tot)
    ensures a == Addr(fs.blocks, fs.View(ip), BlockSlot(ip.inum, (off + tot) / BSIZE)) &&
            (a == 0 ==> NoRoom(fs, was, off + tot, old(fs.blocks)))
    ensures old(fs.logged) <= fs.logged && Logs(old(fs.blocks), fs.blocks, fs.logged)
    ensures old(Addr(fs.blocks, fs.View(ip), BlockSlot(ip.inum, (off + tot) / BSIZE))) != 0 ==>
              fs.logged == old(fs.logged)
    ensures fs.logged <= old(fs.logged) + TableCost(fs.sb, Addr(fs.blocks, fs.View(ip), Table(ip.inum)))
                         + if a == 0 then {} else {a, BBlock(fs.sb, a)}
    ensures var t := old(Addr(fs.blocks, fs.View(ip), Table(ip.inum)));
            t != 0 ==> Addr(fs.blocks, fs.View(ip), Table(ip.inum)) == t
    ensures fs.peak <= Max(old(fs.peak), |fs.logged|) && |old(fs.logged)| <= |fs.logged|
  {
    hide Owned, Addr, Used, Layout, Written, OthersSame, Logs;
    ghost var b1, v1 := fs.blocks, fs.View(ip);
    if off + tot < |was| {
      MappedBelow(b1, v1, ip.inum, was, off, src, tot);
    }
    var panic;
    a, panic := fs.Bmap(ip, (off + tot) / BSIZE);
    WrittenGrows(b1, v1, fs.blocks, fs.View(ip), ip.inum, was, off, src, tot);
    OthersTransitive(b0, v0, b1, v1, fs.blocks, fs.View(ip), ip.inum);
  }

  /** The copy in writei, as far as it gets. */
  method CopyOne(
    fs: Fs, ip: Inode, ghost b0: Blocks, ghost v0: Inodes, ghost was: seq<byte>, off: nat, src: seq<byte>, tot: nat,
    m: nat, a: nat)
    requires Writing(fs, ip, b0, v0, fs.inodes, was, off, src, tot)
    requires m <= BSIZE - (off + tot) % BSIZE && tot + m <= |src| && off + tot + m <= MAXFILE * BSIZE
    requires a == Addr(fs.blocks, fs.View(ip), BlockSlot(ip.inum, (off + tot) / BSIZE)) != 0
    modifies fs`blocks
    ensures Writing(fs, ip, b0, v0, fs.inodes, was, off, src, tot + m)
    ensures Addr(fs.blocks, fs.View(ip), Table(ip.inum)) == old(Addr(fs.blocks, fs.View(ip), Table(ip.inum)))
    ensures m == 0 ==> fs.blocks == old(fs.blocks)
    ensures a < |fs.blocks| == |old(fs.blocks)| && fs.blocks == old(fs.blocks)[a := fs.blocks[a]]
    ensures a == Addr(fs.blocks, fs.View(ip), BlockSlot(ip.inum, (off + tot) / BSIZE))
  {
    hide Owned, Addr, Used, Layout, Written, OthersSame, Splice;
    ghost var b1, v := fs.blocks, fs.View(ip);
    SlotInRange(fs.sb, b1, v, fs.owner, BlockSlot(ip.inum, (off + tot) / BSIZE));
    if m > 0 {
      WriteStep(fs.sb, b1, v, fs.owner, ip.inum, was, off, src, tot, m);
      fs.blocks := fs.blocks[a := Splice(fs.blocks[a], (off + tot) % BSIZE, src[tot..tot + m])];
      OthersTransitive(b0, v0, b1, v, fs.blocks, v, ip.inum);
      SameLayout(fs.sb, b1, fs.blocks, fs.inodes);
    }
  }

  /** Byte p is past the old end, no block is free, and none was if the block of p has a direct slot. */
  ghost predicate NoRoom(fs: Fs, was: seq<byte>, p: nat, before: Blocks)
    reads fs
  {
    && p >= |was| && DiskFull(fs.sb, fs.blocks)
    && (p / BSIZE < NDIRECT ==> fs.blocks == before)
  }

  lemma MappedBelow(
    blocks: Blocks, v: Inodes, i: nat, was: seq<byte>, off: nat, src: seq<byte>, tot: nat)
    requires Written(blocks, v, i, was, off, src, tot) && off + tot < |was|
    ensures Addr(blocks, v, BlockSlot(i, (off + tot) / BSIZE)) != 0
  {
    hide Addr, FileByte;
    assert (off + tot) / BSIZE * BSIZE <= off + tot;
  }

  lemma SameLayout(sb: Superblock, blocks: Blocks, e: Blocks, inodes: Inodes)
    requires Layout(sb, blocks, inodes) && |e| == |blocks|
    ensures Layout(sb, e, inodes)
  {
  }

  /** What writei has logged since l0, when it has come to the k-th block. */
  ghost predicate Spent(fs: Fs, ip: Inode, l0: set<nat>, written: set<nat>, maps: set<nat>, off: nat, k: nat)
    reads fs, ip
  {
    Budget(fs.logged, l0, written, maps, TableCost(fs.sb, Addr(fs.blocks, fs.View(ip), Table(ip.inum))), off, k)
  }

  /** One turn of writei's loop, with its share of the log. */
  method WriteTurn(
    fs: Fs, ip: Inode, ghost b0: Blocks, ghost v0: Inodes, ghost was: seq<byte>, off: nat, src: seq<byte>, tot: nat,
    readable: nat, ghost l0: set<nat>, ghost written: set<nat>, ghost maps: set<nat>)
    returns (ok: bool, m: nat, ghost q: nat, ghost full: bool, ghost written': set<nat>, ghost maps': set<nat>)
    requires Writing(fs, ip, b0, v0, fs.inodes, was, off, src, tot) && tot < |src| && off + |src| <= MAXFILE * BSIZE
    requires tot <= readable && Boundary(off, tot) && Spent(fs, ip, l0, written, maps, off, Touched(off, tot))
    modifies fs`blocks, fs`logged, fs`peak, fs`owner, ip`d
    ensures tot <= q <= |src| && Writing(fs, ip, b0, v0, old(fs.inodes), was, off, src, q)
    ensures 0 < m && tot + m <= |src|
    ensures if ok then q == tot + m <= readable && !full && (q == |src| || Boundary(off, q))
            else Ended(off, |src|, |was|, readable, tot, q, full)
    ensures full ==> NoRoom(fs, was, off + tot, old(fs.blocks))
    ensures LogsCopied(old(fs.blocks), fs.blocks, old(fs.logged), fs.logged, At(fs, ip, off + tot), ok || q == tot)
    ensures Spent(fs, ip, l0, written', maps', off, Touched(off, if ok then tot + m else |src|))
    ensures fs.peak <= Max(old(fs.peak), |fs.logged|) && |old(fs.logged)| <= |fs.logged|
  {
    hide Writing, Addr, Touched, DiskFull, Budget, NewBlocks, Reported, LogsCopied;
    m := Min(|src| - tot, BSIZE - (off + tot) % BSIZE);
    TouchedStep(off, tot, m);
    TouchedMore(off, tot, |src|);
    if tot == 0 && off % BSIZE != 0 {
      FirstIsMapped(fs, ip, b0, v0, was, off, src);
    }
    ghost var l1, t1 := fs.logged, TableCost(fs.sb, Addr(fs.blocks, fs.View(ip), Table(ip.inum)));
    ghost var addr, isNew;
    ok, q, full, addr, isNew := WriteOne(fs, ip, b0, v0, was, off, src, tot, m, readable);
    if !ok && !full {
      StopsAtPiece(off, |src|, readable, tot);
    }
    ghost var t2 := TableCost(fs.sb, Addr(fs.blocks, fs.View(ip), Table(ip.inum)));
    BudgetStep(l1, fs.logged, l0, written, maps, t1, t2, off, Touched(off, tot), addr, isNew, BBlock(fs.sb, addr),
      Touched(off, |src|));
    written', maps' := written + {addr}, if isNew then maps + {BBlock(fs.sb, addr)} else maps;
  }

  /** The loop of writei. */
  method WriteLoop(fs: Fs, ip: Inode, ghost was: seq<byte>, off: nat, src: seq<byte>, readable: nat)
    returns (tot: nat, ghost q: nat, ghost full: bool)
    requires Writing(fs, ip, fs.blocks, fs.View(ip), fs.inodes, was, off, src, 0) && off + |src| <= MAXFILE * BSIZE
    modifies fs`blocks, fs`logged, fs`peak, fs`owner, ip`d
    ensures tot <= q <= |src| && Ended(off, |src|, |was|, readable, tot, q, full)
    ensures Writing(fs, ip, old(fs.blocks), old(fs.View(ip)), old(fs.inodes), was, off, src, q)
    ensures full ==> DiskFull(fs.sb, fs.blocks)
    ensures full && tot == 0 && off / BSIZE < NDIRECT ==> fs.blocks == old(fs.blocks)
    ensures LogsCopied(old(fs.blocks), fs.blocks, old(fs.logged), fs.logged, At(fs, ip, off + tot), q == tot)
    ensures |fs.logged| <= |old(fs.logged)| + WriteCost(off, |src|) - 1
    ensures fs.peak <= Max(old(fs.peak), |fs.logged|)
  {
    hide Writing, Touched, DiskFull, Spent, NewBlocks, Ended, Boundary, Logs, LogsBut, At, Addr;
    ghost var b0, v0, l0, disk := fs.blocks, fs.View(ip), fs.logged, fs.inodes;
    SpentNone(fs, ip, off);
    AtStart(off);
    LogsNothing(fs.blocks, fs.logged);
    tot, q, full := 0, 0, false;
    var stop := false;
    ghost var written: set<nat>, maps: set<nat> := {}, {};
    while tot < |src| && !stop
      invariant 0 <= tot <= q <= |src| && Writing(fs, ip, b0, v0, disk, was, off, src, q) && fs.inodes == disk
      invariant tot <= readable && (tot == |src| || Boundary(off, tot))
      invariant if stop then tot < |src| && Ended(off, |src|, |was|, readable, tot, q, full) else q == tot && !full
      invariant Spent(fs, ip, l0, written, maps, off, Touched(off, if stop then |src| else tot))
      invariant full ==> DiskFull(fs.sb, fs.blocks)
      invariant LogsCopied(b0, fs.blocks, l0, fs.logged, At(fs, ip, off + tot), q == tot)
      invariant tot == 0 && !stop ==> fs.blocks == b0
      invariant full && tot == 0 && off / BSIZE < NDIRECT ==> fs.blocks == b0
      invariant fs.peak <= Max(old(fs.peak), |fs.logged|)
      decreases |src| - tot, !stop
    {
      ghost var b1, l1 := fs.blocks, fs.logged;
      var ok, m;
      ok, m, q, full, written, maps := WriteTurn(fs, ip, b0, v0, was, off, src, tot, readable, l0, written, maps);
      CopiedMore(b0, b1, fs.blocks, l0, l1, fs.logged, At(fs, ip, off + tot), ok || q == tot);
      if ok {
        tot := tot + m;
      } else {
        stop := true;
      }
    }
    if !stop {
      AllCopied(off, |src|, |was|, readable);
    }
    SpentAll(fs, ip, l0, written, maps, off, |src|);
  }

  lemma CopiedMore(
    b0: Blocks, b1: Blocks, b2: Blocks, l0: set<nat>, l1: set<nat>, l2: set<nat>, x: nat, whole: bool)
    requires l0 <= l1 && Logs(b0, b1, l1) && LogsCopied(b1, b2, l1, l2, x, whole)
    ensures LogsCopied(b0, b2, l0, l2, x, whole)
  {
    hide Logs, LogsBut;
    if whole {
      LogsThen(b0, b1, b2, l1, l2);
    } else {
      LogsThenBut(b0, b1, b2, l1, l2, x);
    }
  }

  lemma AtStart(off: nat)
    ensures Boundary(off, 0)
  {
  }

  lemma AllCopied(off: nat, n: nat, size: nat, readable: nat)
    requires n <= readable
    ensures Ended(off, n, size, readable, n, n, false)
  {
  }

  lemma SpentNone(fs: Fs, ip: Inode, off: nat)
    ensures Spent(fs, ip, fs.logged, {}, {}, off, Touched(off, 0))
  {
    BudgetStart(fs.logged, TableCost(fs.sb, Addr(fs.blocks, fs.View(ip), Table(ip.inum))), off);
  }

  lemma SpentAll(fs: Fs, ip: Inode, l0: set<nat>, written: set<nat>, maps: set<nat>, off: nat, n: nat)
    requires Spent(fs, ip, l0, written, maps, off, Touched(off, n))
    ensures |fs.logged| <= |l0| + WriteCost(off, n) - 1
  {
    hide Touched, Budget, Addr, NewBlocks;
    BudgetSize(fs.logged, l0, written, maps, TableCost(fs.sb, Addr(fs.blocks, fs.View(ip), Table(ip.inum))), off,
      Touched(off, n));
  }

  /** writei.  The first `readable` bytes of the source can be copied in.  q bytes have reached the buffers:
      more than r if a copy failed in the middle of a block, and then the rest of them is not logged. */
  method Writei(fs: Fs, ip: Inode, off: nat, src: seq<byte>, readable: nat)
    returns (r: int, ghost q: nat, ghost full: bool)
    requires Open(fs, ip) && off < UINT && |src| < UINT
    modifies fs`blocks, fs`logged, fs`peak, fs`owner, fs`inodes, ip`d
    ensures Open(fs, ip)
    ensures r == -1 <==> off > old(ip.d.size) || off + |src| >= UINT || off + |src| > MAXFILE * BSIZE
    ensures r == -1 ==> fs.blocks == old(fs.blocks) && fs.inodes == old(fs.inodes) && fs.logged == old(fs.logged)
                        && fs.peak == old(fs.peak) && ip.d == old(ip.d)
    ensures r != -1 ==>
              && 0 <= r <= q <= |src| && Ended(off, |src|, old(ip.d.size), readable, r, q, full)
              && Bytes(fs, ip) == After(old(Bytes(fs, ip)), off, src, r, q)
              && fs.inodes == old(fs.inodes)[ip.inum := ip.d]
              && OthersSame(old(fs.blocks), old(fs.View(ip)), fs.blocks, fs.View(ip), ip.inum)
    ensures r != -1 ==>
              (Bytes(fs, ip) == After(old(Bytes(fs, ip)), off, src, r, r) <==>
                 Kept(old(Bytes(fs, ip)), off, src, Reported(off, |src|, readable), Min(readable, |src|)))
    ensures r != -1 ==>
              LogsCopied(old(fs.blocks), fs.blocks, old(fs.logged), fs.logged, At(fs, ip, off + r), q == r) &&
              IBlock(fs.sb, ip.inum) in fs.logged
    ensures full ==> r != -1 && DiskFull(fs.sb, fs.blocks)
    ensures full && r == 0 && off / BSIZE < NDIRECT ==> DiskFull(fs.sb, old(fs.blocks))
    ensures |fs.logged| <= |old(fs.logged)| + WriteCost(off, |src|)
    ensures fs.peak <= Max(old(fs.peak), |old(fs.logged)| + WriteCost(off, |src|) - 1)
    ensures old(fs.Settled(ip)) ==> fs.Settled(ip)
  {
    hide Owned, Addr, Layout, Written, OthersSame, Contents, Mapped, DiskFull, WriteCost, Sound, After, Ended, Kept,
         Reported, LogsCopied;
    CostIsPositive(off, |src|);
    if off > ip.d.size || off + |src| >= UINT {
      return -1, 0, false;
    }
    if off + |src| > MAXFILE * BSIZE {
      return -1, 0, false;
    }
    ghost var b0, v0, was := fs.blocks, fs.View(ip), Bytes(fs, ip);
    OthersReflexive(b0, v0, ip.inum);
    NothingWritten(b0, v0, ip.inum, off, src);
    ghost var own := fs.owner;
    var tot;
    tot, q, full := WriteLoop(fs, ip, was, off, src, readable);
    WritesWhatItReports(was, off, src, readable, tot, q, full);
    ghost var v1, size := fs.View(ip), Max(ip.d.size, off + tot);
    if off + tot > ip.d.size {
      ip.d := ip.d.(size := off + tot);
    }
    ghost var v2 := fs.View(ip);
    assert v2 == SetSize(v1, ip.inum, size);
    SizeSame(fs.sb, fs.blocks, v1, fs.owner, ip.inum, size);
    FinishWrite(fs.blocks, v1, ip.inum, was, off, src, tot, q);
    OthersTransitive(b0, v0, fs.blocks, v1, fs.blocks, v2, ip.inum);
    ghost var l := fs.logged;
    fs.Iupdate(ip);
    assert fs.View(ip) == v2;
    MoreLogged(b0, fs.blocks, old(fs.logged), l, fs.logged, At(fs, ip, off + tot), q == tot);
    LayoutWith(fs.sb, fs.blocks, old(fs.inodes), v2, fs.owner, ip.inum);
    if old(fs.Settled(ip)) {
      assert v0 == old(fs.inodes) && v2 == fs.inodes;
      SoundAfter(fs.sb, b0, v0, own, fs.blocks, v2, fs.owner, ip.inum);
    }
    return tot, q, full;
  }

  lemma MoreLogged(b0: Blocks, now: Blocks, l0: set<nat>, l1: set<nat>, l2: set<nat>, x: nat, whole: bool)
    requires LogsCopied(b0, now, l0, l1, x, whole) && l1 <= l2
    ensures LogsCopied(b0, now, l0, l2, x, whole)
  {
  }

  lemma CostIsPositive(off: nat, n: nat)
    ensures WriteCost(off, n) >= 1
  {
  }

  /** With the new size the contents are the old ones with the write in them. */
  lemma FinishWrite(blocks: Blocks, v: Inodes, i: nat, was: seq<byte>, off: nat, src: seq<byte>, tot: nat, q: nat)
    requires i < |v| && v[i].size == |was| && Written(blocks, v, i, was, off, src, q) && tot <= q
    ensures var f := SetSize(v, i, Max(|was|, off + tot));
            && Contents(blocks, f, i) == After(was, off, src, tot, q)
            && Mapped(blocks, f, i, Max(|was|, off + tot))
  {
    hide Word;
    var f := SetSize(v, i, Max(|was|, off + tot));
    forall s: Slot
      ensures Addr(blocks, f, s) == Addr(blocks, v, s)
    {
    }
    hide Addr;
    var w := After(was, off, src, tot, q);
    assert |w| == Max(|was|, off + tot);
    forall p: nat | p < |w|
      ensures FileByte(blocks, f, i, p) == w[p]
    {
      assert FileByte(blocks, f, i, p) == FileByte(blocks, v, i, p);
    }
  }

  lemma NothingWritten(blocks: Blocks, v: Inodes, i: nat, off: nat, src: seq<byte>)
    requires i < |v| && Mapped(blocks, v, i, v[i].size) && off <= v[i].size
    ensures Written(blocks, v, i, Contents(blocks, v, i), off, src, 0)
  {
    hide Addr;
  }

  lemma FirstIsMapped(fs: Fs, ip: Inode, b0: Blocks, v0: Inodes, was: seq<byte>, off: nat, src: seq<byte>)
    requires Writing(fs, ip, b0, v0, fs.inodes, was, off, src, 0) && off % BSIZE != 0
    ensures Addr(fs.blocks, fs.View(ip), BlockSlot(ip.inum, off / BSIZE)) != 0
  {
    hide Addr, Owned, OthersSame, Layout;
    assert (off / BSIZE) * BSIZE < off;
  }

  // ---- filewrite

  const CHUNK: nat := ((MAXOPBLOCKS - 1 - 1 - 2) / 2) * BSIZE

  /** A chunk fits the log space that begin_op reserves: at worst an unaligned chunk writes four
      blocks of which three are new. */
  lemma ChunkFits(off: nat, n: nat)
    requires n <= CHUNK
    ensures WriteCost(off, n) <= MAXOPBLOCKS
  {
    if n > 0 {
      assert off == BSIZE * (off / BSIZE) + off % BSIZE;
      if off % BSIZE == 0 {
        assert (off + n - 1) / BSIZE <= off / BSIZE + 2;
      } else {
        assert (off + n - 1) / BSIZE <= off / BSIZE + 3;
      }
    }
  }

  lemma WriteAtTwice(c: seq<byte>, off: nat, a: seq<byte>, b: seq<byte>)
    requires off <= |c|
    ensures off + |a| <= |WriteAt(c, off, a)| && WriteAt(WriteAt(c, off, a), off + |a|, b) == WriteAt(c, off, a + b)
  {
  }

  /** struct file of type FD_INODE. */
  class OpenFile {
    const ip: Inode
    var off: nat

    constructor (i: Inode)
      ensures ip == i && off == 0
    {
      ip, off := i, 0;
    }
  }

  /** writei refuses n bytes at off. */
  predicate Refused(off: nat, n: nat, size: nat) {
    off > size || off + n > MAXFILE * BSIZE
  }

  /** The bytes of n at off in the chunks before the first that writei refuses. */
  function Accepted(off: nat, n: nat, size: nat): nat {
    if off > size then 0
    else if off + n <= MAXFILE * BSIZE then n
    else if off > MAXFILE * BSIZE then 0 else (MAXFILE * BSIZE - off) / CHUNK * CHUNK
  }

  /** How far filewrite moves the offset for n bytes at off, of which `readable` can be copied: to the last
      start of a chunk or block boundary that the readable ones reach. */
  function Moved(off: nat, n: nat, readable: nat): nat {
    if n <= readable then n else Max(readable / CHUNK * CHUNK, Reported(off, n, readable))
  }

  /** One transaction of filewrite: begin_op, writei, end_op. */
  method WriteChunk(fs: Fs, f: OpenFile, w: seq<byte>, readable: nat) returns (r: int, ghost q: nat, ghost full: bool)
    requires Open(fs, f.ip) && f.off < UINT && |w| <= CHUNK
    modifies fs`blocks, fs`logged, fs`peak, fs`owner, fs`inodes, fs`worst, fs`worstPeak, f.ip`d, f`off
    ensures Open(fs, f.ip) && -1 <= r <= |w| && f.off == old(f.off) + Count(r) < UINT
    ensures r == -1 <==> Refused(old(f.off), |w|, old(f.ip.d.size))
    ensures Count(r) <= q <= |w| && (r == -1 ==> q == 0 && !full) && (full ==> DiskFull(fs.sb, fs.blocks))
    ensures r != -1 ==> Ended(old(f.off), |w|, old(f.ip.d.size), readable, r, q, full)
    ensures q > 0 ==> old(f.off) <= old(f.ip.d.size)
    ensures Bytes(fs, f.ip) == After(old(Bytes(fs, f.ip)), old(f.off), w, Count(r), q)
    ensures OthersSame(old(fs.blocks), old(fs.View(f.ip)), fs.blocks, fs.View(f.ip), f.ip.inum)
    ensures r != -1 ==>
              IBlock(fs.sb, f.ip.inum) in fs.logged &&
              LogsCopied(old(fs.blocks), fs.blocks, {}, fs.logged, At(fs, f.ip, old(f.off) + r), q == r)
    ensures |fs.logged| <= MAXOPBLOCKS && fs.peak < MAXOPBLOCKS
    ensures fs.worst == Max(old(fs.worst), |fs.logged|) && fs.worstPeak == Max(old(fs.worstPeak), fs.peak)
    ensures old(fs.Settled(f.ip)) ==> fs.Settled(f.ip)
  {
    hide Owned, Addr, Layout, OthersSame, Contents, Mapped, DiskFull, WriteCost, Sound, LogsCopied, Ended,
         Kept, Reported;
    ChunkFits(f.off, |w|);
    OthersReflexive(fs.blocks, fs.View(f.ip), f.ip.inum);
    fs.BeginOp();
    r, q, full := Writei(fs, f.ip, f.off, w, readable);
    if r > 0 {
      f.off := f.off + r;
    }
    if r == -1 {
      q := 0;
    }
    fs.EndOp();
  }

  /** The bytes that a result of writei counts. */
  function Count(r: int): nat {
    if r > 0 then r else 0
  }

  /** filewrite on a file: `done` is how far the file offset moved, also when -1 is returned, and q how many
      bytes reached the buffers.  No transaction of it logs more than MAXOPBLOCKS blocks, and none calls
      log_write when it already has that many. */
  method FileWrite(fs: Fs, f: OpenFile, src: seq<byte>, readable: nat)
    returns (ret: int, ghost done: nat, ghost q: nat, ghost full: bool)
    requires Open(fs, f.ip) && f.off < UINT
    modifies fs`blocks, fs`logged, fs`peak, fs`owner, fs`inodes, fs`worst, fs`worstPeak, f.ip`d, f`off
    ensures Open(fs, f.ip) && done <= q <= |src| && f.off == old(f.off) + done
    ensures ret == if done == |src| then |src| else -1
    ensures !full ==>
              var n := Accepted(old(f.off), |src|, old(f.ip.d.size));
              done == Moved(old(f.off), n, readable) && q == Min(readable, n)
    ensures full ==> done == q < |src| && done <= readable && DiskFull(fs.sb, fs.blocks)
    ensures q > 0 ==> old(f.off) <= old(f.ip.d.size)
    ensures Bytes(fs, f.ip) == After(old(Bytes(fs, f.ip)), old(f.off), src, done, q)
    ensures OthersSame(old(fs.blocks), old(fs.View(f.ip)), fs.blocks, fs.View(f.ip), f.ip.inum)
    ensures fs.worst <= Max(old(fs.worst), MAXOPBLOCKS)
    ensures fs.worstPeak <= Max(old(fs.worstPeak), MAXOPBLOCKS - 1)
    ensures old(fs.Settled(f.ip)) ==> fs.Settled(f.ip)
  {
    hide Owned, Addr, Layout, OthersSame, Contents, Mapped, After, DiskFull, Sound, Ended, Accepted, Moved, Refused,
         LogsCopied, At;
    ghost var b0, v0, was, o0 := fs.blocks, fs.View(f.ip), Bytes(fs, f.ip), f.off;
    OthersReflexive(b0, v0, f.ip.inum);
    ContentsLength(was, o0, src, 0);
    var i, stop := 0, false;
    done, q, full := 0, 0, false;
    while i < |src| && !stop
      invariant 0 <= i <= done <= q <= |src| && f.off == o0 + done < UINT && Open(fs, f.ip)
      invariant if stop then done < |src| else i == done == q && !full
      invariant full ==> done == q <= readable && DiskFull(fs.sb, fs.blocks)
      invariant stop && !full ==> done == Moved(o0, Accepted(o0, |src|, |was|), readable)
      invariant stop && !full ==> q == Min(readable, Accepted(o0, |src|, |was|))
      invariant !stop ==> i <= readable && i <= Accepted(o0, |src|, |was|) && (i == |src| || ChunkStarts(i))
      invariant q > 0 ==> o0 <= |was|
      invariant Bytes(fs, f.ip) == After(was, o0, src, done, q)
      invariant OthersSame(b0, v0, fs.blocks, fs.View(f.ip), f.ip.inum)
      invariant fs.worst <= Max(old(fs.worst), MAXOPBLOCKS) && fs.worstPeak <= Max(old(fs.worstPeak), MAXOPBLOCKS - 1)
      invariant old(fs.Settled(f.ip)) ==> fs.Settled(f.ip)
      decreases |src| - i, !stop
    {
      var n1 := Min(|src| - i, CHUNK);
      ghost var b1, v1, c1 := fs.blocks, fs.View(f.ip), Bytes(fs, f.ip);
      ContentsLength(was, o0, src, i);
      var r;
      ghost var q1;
      r, q1, full := WriteChunk(fs, f, src[i..i + n1], readable - i);
      ChunkEnds(o0, |src|, |was|, readable, i, |c1|, r, q1, full);
      OthersTransitive(b0, v0, b1, v1, fs.blocks, fs.View(f.ip), f.ip.inum);
      AfterTwice(was, o0, src, i, n1, Count(r), q1, c1);
      done, q := done + Count(r), i + q1;
      if r != n1 {
        stop := true;
      } else {
        i := i + r;
      }
    }
    if !stop {
      AllMoved(o0, |src|, |was|, readable);
    }
    ret := if i == |src| then |src| else -1;
  }

  lemma AllMoved(off: nat, n: nat, size: nat, readable: nat)
    requires n <= readable && n <= Accepted(off, n, size)
    ensures Accepted(off, n, size) == n && Moved(off, n, readable) == n
  {
  }

  predicate ChunkStarts(i: nat) {
    i % CHUNK == 0
  }

  lemma NextChunk(i: nat)
    requires ChunkStarts(i)
    ensures ChunkStarts(i + CHUNK)
  {
  }

  /** One chunk of filewrite, at i, in terms of the whole write. */
  lemma ChunkEnds(off: nat, n: nat, size: nat, readable: nat, i: nat, now: nat, r: int, q: nat, full: bool)
    requires i < n && ChunkStarts(i) && i <= readable && i <= Accepted(off, n, size)
    requires now == if i == 0 then size else Max(size, off + i)
    requires r == -1 <==> Refused(off + i, Min(n - i, CHUNK), now)
    requires r == -1 ==> q == 0 && !full
    requires r != -1 ==> r >= 0 && Ended(off + i, Min(n - i, CHUNK), now, readable - i, r, q, full)
    ensures r == Min(n - i, CHUNK) ==> i + r <= readable && i + r <= Accepted(off, n, size) && !full && q == r
    ensures r == Min(n - i, CHUNK) ==> i + r == n || ChunkStarts(i + r)
    ensures full ==> q == r < n - i && i + r <= readable
    ensures r != Min(n - i, CHUNK) && !full ==> i + Count(r) == Moved(off, Accepted(off, n, size), readable)
    ensures r != Min(n - i, CHUNK) && !full ==> i + q == Min(readable, Accepted(off, n, size)) && i + Count(r) < n
  {
    hide Reported, Accepted, Moved, Refused, ChunkStarts;
    NextChunk(i);
    var n1 := Min(n - i, CHUNK);
    ReportedBound(off + i, n1, readable - i);
    AcceptedBound(off, n, size);
    if r == -1 {
      RefusedEnds(off, n, size, i, now);
      WholeChunks(off, i, readable);
    } else {
      AcceptedChunk(off, n, size, i, now);
      EndedBounds(off + i, n1, now, readable - i, r, q, full);
      if r != n1 && !full {
        PieceOfChunk(off, n, size, readable, i, n1);
      }
    }
  }

  lemma AcceptedBound(off: nat, n: nat, size: nat)
    ensures Accepted(off, n, size) <= n
  {
  }

  lemma RefusedEnds(off: nat, n: nat, size: nat, i: nat, now: nat)
    requires i < n && ChunkStarts(i) && i <= Accepted(off, n, size) && Refused(off + i, Min(n - i, CHUNK), now)
    requires now == if i == 0 then size else Max(size, off + i)
    ensures Accepted(off, n, size) == i
  {
    if off <= size && off + n > MAXFILE * BSIZE && off <= MAXFILE * BSIZE {
      var room, k := MAXFILE * BSIZE - off, i / CHUNK;
      assert i == k * CHUNK && room / CHUNK >= k;
      assert room < (k + 1) * CHUNK;
      assert room / CHUNK == k;
    }
  }

  lemma AcceptedChunk(off: nat, n: nat, size: nat, i: nat, now: nat)
    requires i < n && ChunkStarts(i) && i <= Accepted(off, n, size) && !Refused(off + i, Min(n - i, CHUNK), now)
    requires now == if i == 0 then size else Max(size, off + i)
    ensures i + Min(n - i, CHUNK) <= Accepted(off, n, size)
  {
    if off <= size && off + n > MAXFILE * BSIZE {
      var room, k := MAXFILE * BSIZE - off, i / CHUNK;
      assert i == k * CHUNK && room >= (k + 1) * CHUNK;
      assert room / CHUNK >= k + 1;
    }
  }

  lemma WholeChunks(off: nat, i: nat, readable: nat)
    requires ChunkStarts(i) && i <= readable
    ensures Moved(off, i, readable) == i
  {
  }

  /** A chunk that stops in the middle. */
  lemma PieceOfChunk(off: nat, n: nat, size: nat, readable: nat, i: nat, n1: nat)
    requires ChunkStarts(i) && i <= readable < i + n1 && n1 <= CHUNK && i + n1 <= Accepted(off, n, size)
    ensures Moved(off, Accepted(off, n, size), readable) == i + Reported(off + i, n1, readable - i)
  {
    hide Accepted;
    ChunkStart(i, readable);
    assert off + i + (readable - i) == off + readable;
  }

  lemma ChunkStart(i: nat, readable: nat)
    requires ChunkStarts(i) && i <= readable < i + CHUNK
    ensures readable / CHUNK * CHUNK == i
  {
    hide ChunkStarts;
    var k := Chunks(i);
    Quotient(k, readable - i);
    assert k * CHUNK + (readable - i) == readable;
  }

  lemma Chunks(i: nat) returns (k: nat)
    requires ChunkStarts(i)
    ensures i == k * CHUNK
  {
    k := i / CHUNK;
  }

  lemma Quotient(k: nat, d: nat)
    requires d < CHUNK
    ensures (k * CHUNK + d) / CHUNK == k
  {
  }

  lemma ContentsLength(c: seq<byte>, off: nat, w: seq<byte>, r: nat)
    requires r <= |w| && (r > 0 ==> off <= |c|)
    ensures After(c, off, w, r, r) == if r == 0 then c else WriteAt(c, off, w[..r])
    ensures r > 0 ==> |After(c, off, w, r, r)| == Max(|c|, off + r)
  {
  }

  lemma AfterTwice(was: seq<byte>, off: nat, src: seq<byte>, i: nat, n1: nat, r: nat, q: nat, c: seq<byte>)
    requires i + n1 <= |src| && r <= q <= n1 && (i > 0 ==> off <= |was|) && c == After(was, off, src, i, i)
    requires q > 0 ==> off + i <= |c|
    ensures q > 0 ==> off <= |was|
    ensures After(c, off + i, src[i..i + n1], r, q) == After(was, off, src, i + r, i + q)
  {
    ContentsLength(was, off, src, i);
    if q > 0 {
      var a, b := src[..i], src[i..i + n1][..q];
      assert a + b == src[..i + q];
      if i > 0 {
        WriteAtTwice(was, off, a, b);
      }
      hide WriteAt;
    }
  }

  // ---- ialloc, iput and ireclaim

  /** ialloc: the lowest free inode gets a type and is otherwise blank; 0 if there is none. */
  method Ialloc(fs: Fs, typ: nat) returns (inum: nat)
    requires Sound(fs.sb, fs.blocks, fs.inodes, fs.owner) && typ != 0
    modifies fs`inodes, fs`logged, fs`peak
    ensures Sound(fs.sb, fs.blocks, fs.inodes, fs.owner)
    ensures inum == 0 ==> fs.inodes == old(fs.inodes) && fs.logged == old(fs.logged)
    ensures inum == 0 ==> forall i :: 1 <= i < |fs.inodes| ==> fs.inodes[i].typ != 0
    ensures inum != 0 ==> inum < |old(fs.inodes)| && old(fs.inodes)[inum].typ == 0
    ensures inum != 0 ==> forall i :: 1 <= i < inum ==> old(fs.inodes)[i].typ != 0
    ensures inum != 0 ==> fs.inodes == old(fs.inodes)[inum := FREE_INODE.(typ := typ)]
    ensures inum != 0 ==> fs.logged == old(fs.logged) + {IBlock(fs.sb, inum)}
  {
    hide Owned, Addr, Layout, OthersSame, Contents, Mapped;
    SoundLayout(fs.sb, fs.blocks, fs.inodes, fs.owner);
    inum := 1;
    while inum < fs.sb.ninodes
      invariant 1 <= inum && fs.inodes == old(fs.inodes) && fs.logged == old(fs.logged)
      invariant forall i :: 1 <= i < inum && i < |fs.inodes| ==> fs.inodes[i].typ != 0
    {
      if fs.inodes[inum].typ == 0 {
        ghost var v := fs.inodes;
        fs.inodes := fs.inodes[inum := FREE_INODE.(typ := typ)];
        fs.LogWrite(IBlock(fs.sb, inum));
        EmptySame(fs.sb, fs.blocks, v, fs.owner, inum, FREE_INODE.(typ := typ));
        EmptyIsMapped(fs.blocks, fs.inodes, inum);
        SoundAfter(fs.sb, fs.blocks, v, fs.owner, fs.blocks, fs.inodes, fs.owner, inum);
        return;
      }
      inum := inum + 1;
    }
    inum := 0;
  }

  /** A file of two bytes on an empty disk. */
  method FileOfTwo(layout: Superblock) returns (fs: Fs, ip: Inode)
    requires Geometry(layout) && layout.ninodes > 1 && layout.datastart < layout.size
    ensures fresh(fs) && fresh(ip) && fs.Settled(ip) && Open(fs, ip) && Bytes(fs, ip) == [7, 8]
  {
    hide Owned, Addr, Layout, OthersSame, Contents, Mapped, DiskFull, WriteCost, Sound, Geometry, LogsCopied, At, Kept;
    fs := new Fs(layout);
    NotFull(fs.sb, fs.blocks, fs.inodes);
    assert fs.inodes[1].typ == 0;
    var inum := Ialloc(fs, 2);
    ip := new Inode(inum, 1, true, fs.inodes[inum]);
    EmptyFile(fs, ip);
    var r, q, full := Writei(fs, ip, 0, [7, 8], 2);
    assert Bytes(fs, ip) == [7, 8];
  }

  /** A run in which writei changes a byte that it does not report: a file of two bytes, and a write of two of
      which the second cannot be copied. */
  method UnreportedByte(layout: Superblock) returns (fs: Fs, ip: Inode, r: int)
    requires Geometry(layout) && layout.ninodes > 1 && layout.datastart < layout.size
    ensures fs.Settled(ip) && r == 0 && Bytes(fs, ip) == [1, 8]
  {
    hide Owned, Addr, Layout, OthersSame, Contents, Mapped, DiskFull, WriteCost, Sound, Geometry, LogsCopied, At, Kept,
         Open;
    fs, ip := FileOfTwo(layout);
    OpenSize(fs, ip);
    ghost var q, full;
    r, q, full := Writei(fs, ip, 0, [1, 2], 1);
  }

  lemma OpenSize(fs: Fs, ip: Inode)
    requires Open(fs, ip)
    ensures |Bytes(fs, ip)| == ip.d.size
  {
    hide Owned, Addr, Layout, Mapped, Contents;
  }

  lemma NotFull(sb: Superblock, blocks: Blocks, inodes: Inodes)
    requires Sound(sb, blocks, inodes, map[]) && sb.datastart < sb.size
    ensures !DiskFull(sb, blocks) && |inodes| == sb.ninodes
  {
    hide Used, Addr;
    assert !Used(sb, blocks, sb.datastart);
  }

  /** An allocated inode, read from the disk, is an open file. */
  lemma EmptyFile(fs: Fs, ip: Inode)
    requires fs.Settled(ip)
    ensures Open(fs, ip) && |Bytes(fs, ip)| == ip.d.size
  {
    hide Used, Addr, Mapped;
    assert fs.View(ip) == fs.inodes;
  }

  /** iput: drops a reference; the last one to an inode without links frees it and its blocks. */
  method Iput(fs: Fs, ip: Inode)
    requires Sound(fs.sb, fs.blocks, fs.inodes, fs.owner) && ip.inum < |fs.inodes| && ip.ref > 0
    requires ip.valid ==> ip.d == fs.inodes[ip.inum]
    modifies fs`blocks, fs`logged, fs`peak, fs`owner, fs`inodes, ip`d, ip`valid, ip`ref
    ensures Sound(fs.sb, fs.blocks, fs.inodes, fs.owner) && ip.ref == old(ip.ref) - 1
    ensures fs.LogGrows()
    ensures var frees := old(ip.ref) == 1 && old(ip.valid) && old(ip.d.nlink) == 0;
            if frees then
              && fs.logged == old(fs.logged) + Maps(fs.sb, BlocksOf(old(fs.owner), ip.inum)) + {IBlock(fs.sb, ip.inum)}
              && !ip.valid && fs.inodes == old(fs.inodes)[ip.inum := FREE_INODE] &&
                   fs.owner == Without(old(fs.owner), ip.inum)
              && forall j :: 0 <= j < |fs.inodes| && j != ip.inum ==>
                   Contents(fs.blocks, fs.inodes, j) == old(Contents(fs.blocks, fs.inodes, j))
            else fs.blocks == old(fs.blocks) && fs.inodes == old(fs.inodes) && fs.owner == old(fs.owner) &&
                 fs.logged == old(fs.logged)
  {
    hide Owned, Addr, Layout, OthersSame, Contents, Mapped, Without, Bitmap, Maps, BlocksOf;
    if ip.ref == 1 && ip.valid && ip.d.nlink == 0 {
      ghost var b0, v0, own := fs.blocks, fs.inodes, fs.owner;
      assert fs.View(ip) == v0;
      OwnedLayout(fs.sb, b0, v0, own);
      fs.Itrunc(ip);
      ghost var v1 := fs.inodes;
      assert fs.View(ip) == v1;
      ip.d := ip.d.(typ := 0);
      TypeSame(fs.sb, fs.blocks, v1, fs.owner, ip.inum);
      fs.Iupdate(ip);
      assert fs.inodes == v1[ip.inum := v1[ip.inum].(typ := 0)];
      OthersTransitive(b0, v0, fs.blocks, v1, fs.blocks, fs.inodes, ip.inum);
      EmptyIsMapped(fs.blocks, fs.inodes, ip.inum);
      SoundAfter(fs.sb, b0, v0, own, fs.blocks, fs.inodes, fs.owner, ip.inum);
      ip.valid := false;
    }
    ip.ref := ip.ref - 1;
  }

  lemma OwnedLayout(sb: Superblock, blocks: Blocks, v: Inodes, owner: map<nat, Slot>)
    requires Owned(sb, blocks, v, owner, {})
    ensures Layout(sb, blocks, v)
  {
    hide Used, Addr;
  }

  lemma TypeSame(sb: Superblock, blocks: Blocks, v: Inodes, owner: map<nat, Slot>, i: nat)
    requires Owned(sb, blocks, v, owner, {}) && i < |v|
    ensures var f := v[i := v[i].(typ := 0)]; Owned(sb, blocks, f, owner, {}) && OthersSame(blocks, v, blocks, f, i)
  {
    hide Used, Word;
    var f := v[i := v[i].(typ := 0)];
    assert forall s: Slot :: Addr(blocks, f, s) == Addr(blocks, v, s);
    hide Addr;
  }

  /** An inode that a crash left allocated but without links. */
  predicate Orphan(d: Dinode) {
    d.typ != 0 && d.nlink == 0
  }

  /** Blocks that freeing an inode can log: the bitmap and the inode's block. */
  function ReclaimCost(sb: Superblock): nat {
    (sb.size + BPB - 1) / BPB + 1
  }

  /** What freeing inode i logs: one block for each bitmap block that holds a bit of its blocks, and the inode's. */
  lemma ReclaimLogs(sb: Superblock, blocks: Blocks, inodes: Inodes, owner: map<nat, Slot>, i: nat)
    requires Sound(sb, blocks, inodes, owner) && i < |inodes|
    ensures var maps := Maps(sb, BlocksOf(owner, i)); |maps + {IBlock(sb, i)}| == |maps| + 1 <= ReclaimCost(sb)
  {
    hide Used, Addr;
    var maps := Maps(sb, BlocksOf(owner, i));
    BitmapCount(sb);
    assert maps <= Bitmap(sb);
    SubsetSize(maps, Bitmap(sb));
    assert IBlock(sb, i) !in maps;
  }

  /** Freeing an inode fits the reservation of an operation if and only if the bits of its blocks are in at most
      nine blocks of the bitmap, which is so on every disk that has no more than nine. */
  lemma ReclaimFits(sb: Superblock, blocks: Blocks, inodes: Inodes, owner: map<nat, Slot>, i: nat)
    requires Sound(sb, blocks, inodes, owner) && i < |inodes|
    ensures |Maps(sb, BlocksOf(owner, i)) + {IBlock(sb, i)}| <= MAXOPBLOCKS <==> |Maps(sb, BlocksOf(owner, i))| <= 9
    ensures sb.size <= 9 * BPB ==> |Maps(sb, BlocksOf(owner, i)) + {IBlock(sb, i)}| <= MAXOPBLOCKS
  {
    hide Sound, Maps, BlocksOf;
    ReclaimLogs(sb, blocks, inodes, owner, i);
  }

  /** ireclaim, at boot: every orphan is freed, with its blocks, and nothing else changes. */
  method Ireclaim(fs: Fs)
    requires Sound(fs.sb, fs.blocks, fs.inodes, fs.owner)
    modifies fs`blocks, fs`logged, fs`peak, fs`owner, fs`inodes, fs`worst, fs`worstPeak
    ensures Sound(fs.sb, fs.blocks, fs.inodes, fs.owner) && |fs.inodes| == |old(fs.inodes)|
    ensures fs.worst <= Max(old(fs.worst), ReclaimCost(fs.sb)) &&
            fs.worstPeak <= Max(old(fs.worstPeak), ReclaimCost(fs.sb))
    ensures forall i ::
              1 <= i < |fs.inodes| ==>
                fs.inodes[i] == if Orphan(old(fs.inodes)[i]) then FREE_INODE else old(fs.inodes)[i]
    ensures forall i :: 1 <= i < |fs.inodes| && !Orphan(old(fs.inodes)[i]) ==>
              Contents(fs.blocks, fs.inodes, i) == old(Contents(fs.blocks, fs.inodes, i))
  {
    hide Owned, Addr, Layout, OthersSame, Contents, Mapped, Without, Sound, Bitmap, ReclaimCost, Maps, BlocksOf, Logs;
    var inum := 1;
    SoundLayout(fs.sb, fs.blocks, fs.inodes, fs.owner);
    while inum < fs.sb.ninodes
      invariant 1 <= inum && |fs.inodes| == |old(fs.inodes)| == fs.sb.ninodes
      invariant Sound(fs.sb, fs.blocks, fs.inodes, fs.owner)
      invariant fs.worst <= Max(old(fs.worst), ReclaimCost(fs.sb))
      invariant fs.worstPeak <= Max(old(fs.worstPeak), ReclaimCost(fs.sb))
      invariant forall i :: 1 <= i < |fs.inodes| ==>
                  fs.inodes[i] == if i < inum && Orphan(old(fs.inodes)[i]) then FREE_INODE else old(fs.inodes)[i]
      invariant forall i :: 1 <= i < |fs.inodes| && !(i < inum && Orphan(old(fs.inodes)[i])) ==>
                  Contents(fs.blocks, fs.inodes, i) == old(Contents(fs.blocks, fs.inodes, i))
    {
      if Orphan(fs.inodes[inum]) {
        fs.BeginOp();
        var ip := new Inode(inum, 1, true, fs.inodes[inum]);
        ReclaimLogs(fs.sb, fs.blocks, fs.inodes, fs.owner, inum);
        ghost var maps := Maps(fs.sb, BlocksOf(fs.owner, inum));
        Iput(fs, ip);
        assert fs.logged == maps + {IBlock(fs.sb, inum)};
        fs.EndOp();
      }
      inum := inum + 1;
    }
  }

  lemma SoundLayout(sb: Superblock, blocks: Blocks, inodes: Inodes, owner: map<nat, Slot>)
    requires Sound(sb, blocks, inodes, owner)
    ensures |inodes| == sb.ninodes
  {
    hide Used, Addr;
  }
}
