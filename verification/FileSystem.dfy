/**
 The block allocator, the block map and the file contents of kernel/fs.c, and the chunked write
 of kernel/file.c.  `blocks` are the contents that bread() returns; `logged` are the blocks
 passed to log_write() since begin_op(), and `peak` the most there were when log_write() was
 called.  An inode in memory is an object; its fields reach `inodes` through iupdate().
 */
module FileSystem {
  import opened Params
  import opened FsBytes
  import opened FsOwnership

  /** struct inode, without the fields no operation here looks at. */
  class Inode {
    const inum: nat
    var ref: nat
    var valid: bool
    var d: Dinode

    constructor (n: nat, r: nat, v: bool, disk: Dinode)
      ensures inum == n && ref == r && valid == v && d == disk
    {
      inum, ref, valid, d := n, r, v, disk;
    }
  }

  /** What the indirect table of an inode can add to the log: itself and its bitmap block. */
  function TableCost(sb: Superblock, t: nat): set<nat> {
    if t == 0 then {} else {t, BBlock(sb, t)}
  }

  lemma NothingUsed(sb: Superblock, blocks: Blocks)
    requires Geometry(sb) && |blocks| == sb.size && forall b :: 0 <= b < |blocks| ==> blocks[b] == ZERO
    ensures forall b :: 0 <= b < sb.size ==> !Used(sb, blocks, b)
  {
    forall b | 0 <= b < sb.size ensures !Used(sb, blocks, b) {
      ZeroBits(b % BPB);
    }
  }

  lemma MarkedMaps(sb: Superblock, blocks: Blocks, b: nat)
    requires Geometry(sb) && |blocks| == sb.size && b < sb.size
    ensures forall c :: 0 <= c < sb.size && !(sb.bmapstart <= c < sb.datastart) ==> Mark(sb, blocks, b)[c] == blocks[c]
  {
    hide SetBit;
  }

  class Fs {
    const sb: Superblock
    var blocks: Blocks
    var inodes: Inodes
    var logged: set<nat>
    ghost var peak: nat
    ghost var worst: nat          // the most blocks any finished operation has logged
    ghost var worstPeak: nat      // the most that were logged before some log_write of one
    ghost var owner: map<nat, Slot>

    /** The disk that mkfs starts from: the blocks before the data are marked, and every inode is free. */
    constructor (layout: Superblock)
      requires Geometry(layout)
      ensures sb == layout && owner == map[] && Sound(sb, blocks, inodes, owner)
      ensures |inodes| == sb.ninodes && forall i :: 0 <= i < |inodes| ==> inodes[i] == FREE_INODE
      ensures |blocks| == sb.size && forall b :: 0 <= b < sb.size && !(sb.bmapstart <= b < sb.datastart) ==>
                                                   blocks[b] == ZERO
      ensures logged == {} && peak == 0 && worst == 0 && worstPeak == 0
    {
      sb := layout;
      blocks, inodes := seq(layout.size, _ => ZERO), seq(layout.ninodes, _ => FREE_INODE);
      logged, peak, worst, worstPeak, owner := {}, 0, 0, 0, map[];
      new;
      hide TestBit, SetBit, Used, Mark;
      NothingUsed(sb, blocks);
      ghost var v := inodes;
      var b := 0;
      while b < sb.datastart
        invariant 0 <= b <= sb.datastart && |blocks| == sb.size && inodes == v && owner == map[]
        invariant logged == {} && peak == 0 && worst == 0 && worstPeak == 0
        invariant forall c :: 0 <= c < sb.size ==> (Used(sb, blocks, c) <==> c < b)
        invariant forall c :: 0 <= c < sb.size && !(sb.bmapstart <= c < sb.datastart) ==> blocks[c] == ZERO
      {
        forall c | 0 <= c < sb.size ensures Used(sb, Mark(sb, blocks, b), c) <==> c < b + 1 {
          MarkedBits(sb, blocks, inodes, b, c);
        }
        MarkedMaps(sb, blocks, b);
        blocks := Mark(sb, blocks, b);
        b := b + 1;
      }
      FreshIsSound(sb, blocks, inodes);
    }

    /** A disk with a sound file system, as iinit finds it. */
    constructor Mounted(layout: Superblock, found: Blocks, disk: Inodes, ghost own: map<nat, Slot>)
      requires Sound(layout, found, disk, own)
      ensures sb == layout && blocks == found && inodes == disk && owner == own
      ensures logged == {} && peak == 0 && worst == 0 && worstPeak == 0
    {
      sb, blocks, inodes := layout, found, disk;
      logged, peak, worst, worstPeak, owner := {}, 0, 0, 0, own;
    }

    /** The inodes, with the one in memory in place of its copy on disk. */
    ghost function View(ip: Inode): Inodes
      reads this, ip
    {
      if ip.inum < |inodes| then inodes[ip.inum := ip.d] else inodes
    }

    ghost predicate Holding(ip: Inode, spare: set<nat>)
      reads this, ip
    {
      ip.inum < |inodes| && Layout(sb, blocks, inodes) && Owned(sb, blocks, View(ip), owner, spare)
    }

    /** The file system is sound, and the inode in memory is that of an allocated inode on disk. */
    ghost predicate Settled(ip: Inode)
      reads this, ip
    {
      Sound(sb, blocks, inodes, owner) && ip.inum < |inodes| && ip.d == inodes[ip.inum] && ip.d.typ != 0
    }

    /** More has been logged, and no log_write found more logged than there is now. */
    twostate predicate LogGrows()
      reads this
    {
      peak <= Max(old(peak), |logged|) && |old(logged)| <= |logged| && old(logged) <= logged &&
      Logs(old(blocks), blocks, logged)
    }

    method BeginOp()
      modifies this`logged, this`peak
      ensures logged == {} && peak == 0
    {
      logged, peak := {}, 0;
    }

    method EndOp()
      modifies this`worst, this`worstPeak
      ensures worst == Max(old(worst), |logged|) && worstPeak == Max(old(worstPeak), peak)
    {
      worst, worstPeak := Max(worst, |logged|), Max(worstPeak, peak);
    }

    method LogWrite(b: nat)
      modifies this`logged, this`peak
      ensures logged == old(logged) + {b}
      ensures peak == Max(old(peak), |old(logged)|) && |old(logged)| <= |logged| <= |old(logged)| + 1
    {
      peak := Max(peak, |logged|);
      assert b in logged ==> logged + {b} == logged;
      logged := logged + {b};
    }

    /** The end of balloc: block b is marked, at bit bi of block bno, and zeroed. */
    method Take(b: nat, bno: nat, bi: nat)
      requires Layout(sb, blocks, inodes) && b < sb.size && bno == BBlock(sb, b) && bi == b % BPB
      modifies this`blocks, this`logged, this`peak
      ensures blocks == Mark(sb, old(blocks), b)[b := ZERO] && logged == old(logged) + {BBlock(sb, b), b}
      ensures LogGrows()
    {
      hide SetBit, BBlock;
      blocks := blocks[bno := SetBit(blocks[bno], bi)];
      LogWrite(bno);
      blocks := blocks[b := ZERO];
      LogWrite(b);
    }

    /** balloc: the lowest free block, marked and zeroed; 0 if there is none. */
    method Balloc() returns (r: nat)
      requires Layout(sb, blocks, inodes) && Used(sb, blocks, 0)
      modifies this`blocks, this`logged, this`peak
      ensures |blocks| == |old(blocks)|
      ensures r == 0 ==> blocks == old(blocks) && logged == old(logged) && peak == old(peak)
      ensures r == 0 ==> DiskFull(sb, blocks)
      ensures r != 0 ==>
                r < sb.size && !Used(sb, old(blocks), r) && (forall b :: 0 <= b < r ==> Used(sb, old(blocks), b))
      ensures r != 0 ==> blocks == Mark(sb, old(blocks), r)[r := ZERO] && logged == old(logged) + {BBlock(sb, r), r}
      ensures LogGrows()
    {
      hide SetBit, TestBit, BBlock, Logs, Mark;
      LogsNothing(blocks, logged);
      var b := 0;
      while b < sb.size
        invariant 0 <= b && b % BPB == 0
        invariant blocks == old(blocks) && logged == old(logged) && peak == old(peak)
        invariant forall c :: 0 <= c < b && c < sb.size ==> Used(sb, blocks, c)
      {
        var bno := BBlock(sb, b);
        var bi := 0;
        while bi < BPB && b + bi < sb.size
          invariant 0 <= bi <= BPB
          invariant blocks == old(blocks) && logged == old(logged) && peak == old(peak)
          invariant forall c :: 0 <= c < b + bi && c < sb.size ==> Used(sb, blocks, c)
        {
          BitAt(sb, b, bi);
          if !TestBit(blocks[bno], bi) {
            Take(b + bi, bno, bi);
            return b + bi;
          }
          bi := bi + 1;
        }
        b := b + BPB;
      }
      return 0;
    }

    /** bfree: the result is false where the code panics with "freeing free block". */
    method Bfree(b: nat) returns (ok: bool)
      requires Layout(sb, blocks, inodes) && b < sb.size
      modifies this`blocks, this`logged, this`peak
      ensures ok == Used(sb, old(blocks), b)
      ensures blocks == if ok then Unmark(sb, old(blocks), b) else old(blocks)
      ensures logged == if ok then old(logged) + {BBlock(sb, b)} else old(logged)
      ensures logged <= old(logged) + Bitmap(sb) && LogGrows()
    {
      assert BBlock(sb, b) < sb.datastart;
      var bno, bi := BBlock(sb, b), b % BPB;
      if !TestBit(blocks[bno], bi) {
        return false;
      }
      blocks := blocks[bno := ClearBit(blocks[bno], bi)];
      InBitmap(sb, b);
      LogWrite(bno);
      return true;
    }

    /** iupdate: copy the inode in memory to its place on disk. */
    method Iupdate(ip: Inode)
      requires ip.inum < |inodes|
      modifies this`inodes, this`logged, this`peak
      ensures inodes == old(inodes)[ip.inum := ip.d]
      ensures logged == old(logged) + {IBlock(sb, ip.inum)} && peak == Max(old(peak), |old(logged)|)
      ensures LogGrows()
    {
      inodes := inodes[ip.inum := ip.d];
      LogWrite(IBlock(sb, ip.inum));
    }

    /** What every step of the block map keeps, and the relation to the state before it. */
    twostate predicate Extended(ip: Inode)
      reads this, ip
    {
      && Holding(ip, {}) && inodes == old(inodes)
      && ip.d == old(ip.d).(addrs := ip.d.addrs)
      && Grows(old(blocks), old(View(ip)), blocks, View(ip), ip.inum)
      && LogGrows()
    }

    /** A block for a direct slot, which has none. */
    method AllocDirect(ip: Inode, bn: nat) returns (addr: nat)
      requires Holding(ip, {}) && bn < NDIRECT && Addr(blocks, View(ip), Direct(ip.inum, bn)) == 0
      modifies this`blocks, this`logged, this`peak, this`owner, ip`d
      ensures Extended(ip)
      ensures addr == 0 ==> blocks == old(blocks) && ip.d == old(ip.d) && logged == old(logged)
      ensures addr == 0 ==> DiskFull(sb, blocks)
      ensures addr != 0 ==>
                Addr(blocks, View(ip), Direct(ip.inum, bn)) == addr && logged == old(logged) + {BBlock(sb, addr), addr}
      ensures Addr(blocks, View(ip), Table(ip.inum)) == old(Addr(blocks, View(ip), Table(ip.inum)))
    {
      hide Owned, Grows, Addr, Used, Mark, Layout, Logs;
      ghost var v := View(ip);
      BlockZeroUsed(sb, blocks, v, owner, {});
      GrowsReflexive(blocks, v, ip.inum);
      addr := Balloc();
      if addr != 0 {
        DirectAllocated(sb, old(blocks), inodes, v, owner, ip.inum, bn, addr);
        ip.d := ip.d.(addrs := ip.d.addrs[bn := addr]);
        owner := owner[addr := Direct(ip.inum, bn)];
        assert View(ip) == StoreAddr(v, ip.inum, bn, addr);
      }
    }

    /** The indirect table, which the inode does not have yet. */
    method AllocTable(ip: Inode) returns (addr: nat)
      requires Holding(ip, {}) && Addr(blocks, View(ip), Table(ip.inum)) == 0
      modifies this`blocks, this`logged, this`peak, this`owner, ip`d
      ensures Extended(ip)
      ensures addr == 0 ==> blocks == old(blocks) && ip.d == old(ip.d) && logged == old(logged)
      ensures addr == 0 ==> DiskFull(sb, blocks)
      ensures addr != 0 ==>
                Addr(blocks, View(ip), Table(ip.inum)) == addr && logged == old(logged) + {BBlock(sb, addr), addr}
      ensures forall k: nat :: Addr(blocks, View(ip), Entry(ip.inum, k)) == 0
    {
      hide Owned, Grows, Addr, Used, Mark, Layout, Logs;
      ghost var v := View(ip);
      BlockZeroUsed(sb, blocks, v, owner, {});
      GrowsReflexive(blocks, v, ip.inum);
      NoTableNoEntries(blocks, v, ip.inum);
      addr := Balloc();
      if addr != 0 {
        TableAllocated(sb, old(blocks), inodes, v, owner, ip.inum, addr);
        ip.d := ip.d.(addrs := ip.d.addrs[NDIRECT := addr]);
        owner := owner[addr := Table(ip.inum)];
        assert View(ip) == StoreAddr(v, ip.inum, NDIRECT, addr);
      }
    }

    /** A block for an empty entry of the indirect table. */
    method AllocEntry(ip: Inode, k: nat) returns (addr: nat)
      requires Holding(ip, {}) && k < NINDIRECT
      requires Addr(blocks, View(ip), Table(ip.inum)) != 0 && Addr(blocks, View(ip), Entry(ip.inum, k)) == 0
      modifies this`blocks, this`logged, this`peak, this`owner
      ensures Extended(ip) && ip.d == old(ip.d)
      ensures addr == 0 ==> blocks == old(blocks) && logged == old(logged)
      ensures addr == 0 ==> DiskFull(sb, blocks)
      ensures addr != 0 ==> Addr(blocks, View(ip), Entry(ip.inum, k)) == addr
      ensures addr != 0 ==> logged == old(logged) + {BBlock(sb, addr), addr} + {Addr(blocks, View(ip), Table(ip.inum))}
      ensures Addr(blocks, View(ip), Table(ip.inum)) == old(Addr(blocks, View(ip), Table(ip.inum)))
    {
      hide Owned, Grows, Used, Mark, Layout, SetWord, Word, Logs;
      ghost var v := View(ip);
      BlockZeroUsed(sb, blocks, v, owner, {});
      GrowsReflexive(blocks, v, ip.inum);
      addr := Balloc();
      if addr != 0 {
        EntryAllocated(sb, old(blocks), inodes, v, owner, ip.inum, k, addr);
        var t := ip.d.addrs[NDIRECT];
        assert t == Addr(old(blocks), v, Table(ip.inum));
        ghost var b1, l1 := blocks, logged;
        blocks := blocks[t := SetWord(blocks[t], k, addr)];
        LogWrite(t);
        LogsOne(b1, t, blocks[t], logged);
        LogsThen(old(blocks), b1, blocks, l1, logged);
        owner := owner[addr := Entry(ip.inum, k)];
      }
    }

    /** bmap: the address of block bn of the file, allocating what is missing; 0 if the disk is
        full, in which case the indirect table may have been added; panic is "bmap: out of range". */
    method Bmap(ip: Inode, bn: nat) returns (addr: nat, panic: bool)
      requires Holding(ip, {})
      modifies this`blocks, this`logged, this`peak, this`owner, ip`d
      ensures Extended(ip)
      ensures addr == Addr(blocks, View(ip), BlockSlot(ip.inum, bn))
      ensures panic <==> bn >= MAXFILE
      ensures addr == 0 && !panic ==> DiskFull(sb, blocks)
      ensures addr == 0 && bn < NDIRECT ==> blocks == old(blocks)
      ensures old(Addr(blocks, View(ip), BlockSlot(ip.inum, bn))) != 0 || panic ==>
                blocks == old(blocks) && ip.d == old(ip.d) && logged == old(logged) && peak == old(peak)
      ensures logged <= old(logged) + TableCost(sb, Addr(blocks, View(ip), Table(ip.inum)))
                        + if addr == 0 then {} else {addr, BBlock(sb, addr)}
      ensures var t := old(Addr(blocks, View(ip), Table(ip.inum)));
              t != 0 ==> Addr(blocks, View(ip), Table(ip.inum)) == t
    {
      hide Owned, Grows, Used, Layout, Word, Logs;
      LogsNothing(blocks, logged);
      GrowsReflexive(blocks, View(ip), ip.inum);
      ViewAddrs(sb, blocks, View(ip), owner, ip.inum);
      panic := false;
      if bn < NDIRECT {
        addr := ip.d.addrs[bn];
        if addr == 0 {
          addr := AllocDirect(ip, bn);
        }
        return;
      }
      var k := bn - NDIRECT;
      if k >= NINDIRECT {
        return 0, true;
      }
      var t := ip.d.addrs[NDIRECT];
      if t == 0 {
        t := AllocTable(ip);
        if t == 0 {
          return 0, false;
        }
      }
      ghost var mid, v, l := blocks, View(ip), logged;
      ViewAddrs(sb, blocks, v, owner, ip.inum);
      addr := Word(blocks[t], k);
      if addr == 0 {
        addr := AllocEntry(ip, k);
        LogsThen(old(blocks), mid, blocks, l, logged);
        GrowsTransitive(old(blocks), old(View(ip)), mid, v, blocks, View(ip), ip.inum);
      }
    }

    /** The first loop of itrunc: the direct blocks. */
    method FreeDirect(ip: Inode)
      requires Holding(ip, {})
      modifies this`blocks, this`logged, this`peak, this`owner, ip`d
      ensures Holding(ip, {}) && inodes == old(inodes)
      ensures |ip.d.addrs| == |old(ip.d.addrs)| == NDIRECT + 1 && ip.d == old(ip.d).(addrs := ip.d.addrs)
      ensures (forall j :: 0 <= j < NDIRECT ==> ip.d.addrs[j] == 0) && ip.d.addrs[NDIRECT] == old(ip.d.addrs)[NDIRECT]
      ensures OthersSame(old(blocks), old(View(ip)), blocks, View(ip), ip.inum)
      ensures owner == WithoutDirect(old(owner), ip.inum, NDIRECT)
      ensures owner.Keys <= old(owner).Keys && logged == old(logged) + Maps(sb, old(owner).Keys - owner.Keys)
      ensures LogGrows()
    {
      hide Owned, OthersSame, Addr, Used, Layout, Word, Unmark, Bitmap, Maps, WithoutDirect, BBlock, Logs;
      LogsNothing(blocks, logged);
      ghost var v0 := View(ip);
      OthersReflexive(blocks, v0, ip.inum);
      ViewAddrs(sb, blocks, v0, owner, ip.inum);
      NoneDropped(sb, owner, ip.inum);
      var i := 0;
      while i < NDIRECT
        invariant 0 <= i <= NDIRECT && Holding(ip, {}) && inodes == old(inodes)
        invariant |ip.d.addrs| == |old(ip.d.addrs)| == NDIRECT + 1 && ip.d == old(ip.d).(addrs := ip.d.addrs)
        invariant forall j :: 0 <= j < i ==> ip.d.addrs[j] == 0
        invariant forall j :: i <= j <= NDIRECT ==> ip.d.addrs[j] == old(ip.d.addrs)[j]
        invariant OthersSame(old(blocks), v0, blocks, View(ip), ip.inum)
        invariant owner == WithoutDirect(old(owner), ip.inum, i)
        invariant owner.Keys <= old(owner).Keys && logged == old(logged) + Maps(sb, old(owner).Keys - owner.Keys)
        invariant LogGrows()
      {
        ghost var before, v, own, l1 := blocks, View(ip), owner, logged;
        var b := ip.d.addrs[i];
        DropDirect(sb, blocks, v, owner, old(owner), ip.inum, i);
        if b != 0 {
          DirectReleased(sb, blocks, inodes, v, owner, ip.inum, i);
          var ok := Bfree(b);
          assert ok;                      // "freeing free block" is unreachable
          LogsThen(old(blocks), before, blocks, l1, logged);
          ip.d := ip.d.(addrs := ip.d.addrs[i := 0]);
          owner := owner - {b};
          MapsMore(sb, old(owner).Keys, own.Keys, owner.Keys, b);
          assert View(ip) == StoreAddr(v, ip.inum, i, 0);
          OthersTransitive(old(blocks), v0, before, v, blocks, View(ip), ip.inum);
        }
        i := i + 1;
      }
    }

    /** The second half of itrunc: the blocks in the indirect table, then the table. */
    method FreeTable(ip: Inode)
      requires Holding(ip, {}) && |ip.d.addrs| == NDIRECT + 1 && ip.d.addrs[NDIRECT] != 0
      modifies this`blocks, this`logged, this`peak, this`owner, ip`d
      ensures Holding(ip, {}) && inodes == old(inodes)
      ensures ip.d == old(ip.d).(addrs := old(ip.d.addrs)[NDIRECT := 0])
      ensures OthersSame(old(blocks), old(View(ip)), blocks, View(ip), ip.inum)
      ensures owner == old(owner) - TableBlocks(old(owner), ip.inum)
      ensures logged == old(logged) + Maps(sb, TableBlocks(old(owner), ip.inum)) && LogGrows()
    {
      hide Owned, OthersSame, Addr, Used, Layout, Word, Unmark, Remaining, TableBlocks, Bitmap, Maps, Logs;
      LogsNothing(blocks, logged);
      ghost var v0, own := View(ip), owner;
      var t := ip.d.addrs[NDIRECT];
      TableUnhooked(sb, blocks, v0, owner, ip.inum);
      ghost var f, rest := StoreAddr(v0, ip.inum, NDIRECT, 0), owner - TableBlocks(owner, ip.inum);
      ghost var all := Remaining(own, ip.inum, 0);
      assert all - all == {};
      MapsNone(sb);
      var a := blocks[t];
      var j := 0;
      while j < NINDIRECT
        invariant 0 <= j <= NINDIRECT && inodes == old(inodes) && ip.d == old(ip.d) && owner == own
        invariant t < |blocks| == |old(blocks)| && blocks[t] == a && Layout(sb, blocks, inodes)
        invariant Owned(sb, blocks, f, rest, Remaining(own, ip.inum, j))
        invariant OthersSame(old(blocks), v0, blocks, f, ip.inum)
        invariant Remaining(own, ip.inum, j) <= all && logged == old(logged) +
                  Maps(sb, all - Remaining(own, ip.inum, j))
        invariant LogGrows()
      {
        ghost var before, l1 := blocks, logged;
        EntryReleased(sb, old(blocks), blocks, inodes, v0, f, own, rest, ip.inum, j, t);
        var b := Word(a, j);
        if b != 0 {
          var ok := Bfree(b);
          assert ok;                      // "freeing free block" is unreachable
          MapsMore(sb, all, Remaining(own, ip.inum, j), Remaining(own, ip.inum, j + 1), b);
          LogsThen(old(blocks), before, blocks, l1, logged);
          OthersTransitive(old(blocks), v0, before, f, blocks, f, ip.inum);
        }
        j := j + 1;
      }
      ghost var before, l1 := blocks, logged;
      LastReleased(sb, old(blocks), blocks, inodes, v0, f, own, rest, ip.inum, t);
      var ok := Bfree(t);
      assert ok;                          // "freeing free block" is unreachable
      MapsMore(sb, all, {t}, {}, t);
      LogsThen(old(blocks), before, blocks, l1, logged);
      assert all - {} == all;
      OthersTransitive(old(blocks), v0, before, f, blocks, f, ip.inum);
      ip.d := ip.d.(addrs := ip.d.addrs[NDIRECT := 0]);
      owner := rest;
      assert View(ip) == f;
    }

    /** itrunc: every block of the file is freed, none of them twice, and nothing else is. */
    method Itrunc(ip: Inode)
      requires Holding(ip, {})
      modifies this`blocks, this`logged, this`peak, this`owner, this`inodes, ip`d
      ensures Holding(ip, {})
      ensures ip.d == old(ip.d).(size := 0, addrs := FREE_INODE.addrs) && inodes == old(inodes)[ip.inum := ip.d]
      ensures OthersSame(old(blocks), old(View(ip)), blocks, View(ip), ip.inum)
      ensures owner == Without(old(owner), ip.inum)
      ensures logged == old(logged) + Maps(sb, BlocksOf(old(owner), ip.inum)) + {IBlock(sb, ip.inum)} && LogGrows()
      ensures old(Settled(ip)) ==> Settled(ip)
    {
      hide Owned, OthersSame, Addr, Used, Layout, Word, Unmark, Without, WithoutDirect, TableBlocks, Sound, Bitmap,
           Maps, BlocksOf, Logs;
      ghost var v0, b0, own := View(ip), blocks, owner;
      FreeDirect(ip);
      ghost var v1, b1, l1 := View(ip), blocks, logged;
      if ip.d.addrs[NDIRECT] != 0 {
        FreeTable(ip);
        LogsThen(b0, b1, blocks, l1, logged);
        OthersTransitive(b0, v0, b1, v1, blocks, View(ip), ip.inum);
      }
      AllFreed(sb, b1, v1, WithoutDirect(own, ip.inum, NDIRECT), own, ip.inum);
      AllMaps(sb, own, ip.inum, v1[ip.inum].addrs[NDIRECT] == 0);
      ghost var v2 := View(ip);
      ip.d := ip.d.(size := 0);
      assert ip.d.addrs == FREE_INODE.addrs;
      SizeSame(sb, blocks, v2, owner, ip.inum, 0);
      ghost var v3 := View(ip);
      assert v3 == SetSize(v2, ip.inum, 0);
      OthersTransitive(b0, v0, blocks, v2, blocks, v3, ip.inum);
      ghost var l2 := logged;
      Iupdate(ip);
      LogsNothing(blocks, logged);
      LogsThen(b0, blocks, blocks, l2, logged);
      assert View(ip) == v3;
      LayoutWith(sb, blocks, old(inodes), v3, owner, ip.inum);
      if old(Settled(ip)) {
        assert v0 == old(inodes) && v3 == inodes;
        SoundAfter(sb, b0, v0, own, blocks, v3, owner, ip.inum);
      }
    }
  }

  lemma LayoutWith(sb: Superblock, blocks: Blocks, disk: Inodes, v: Inodes, owner: map<nat, Slot>, i: nat)
    requires Owned(sb, blocks, v, owner, {}) && Layout(sb, blocks, disk) && i < |v| == |disk|
    ensures Layout(sb, blocks, disk[i := v[i]])
  {
    hide Used, Addr;
  }

  function SetSize(v: Inodes, i: nat, n: nat): Inodes
    requires i < |v|
  {
    v[i := v[i].(size := n)]
  }

  /** ip->size does not affect ownership. */
  lemma SizeSame(sb: Superblock, blocks: Blocks, v: Inodes, owner: map<nat, Slot>, i: nat, n: nat)
    requires Owned(sb, blocks, v, owner, {}) && i < |v|
    ensures Owned(sb, blocks, SetSize(v, i, n), owner, {}) && Grows(blocks, v, blocks, SetSize(v, i, n), i)
    ensures forall s: Slot :: Addr(blocks, SetSize(v, i, n), s) == Addr(blocks, v, s)
    ensures OthersSame(blocks, v, blocks, SetSize(v, i, n), i)
  {
    hide Used, Word;
    assert forall s: Slot :: Addr(blocks, SetSize(v, i, n), s) == Addr(blocks, v, s);
    hide Addr;
  }

  /** Without its direct slots and its table an inode owns nothing. */
  lemma AllFreed(sb: Superblock, blocks: Blocks, v: Inodes, owner: map<nat, Slot>, whole: map<nat, Slot>, i: nat)
    requires Owned(sb, blocks, v, owner, {}) && owner == WithoutDirect(whole, i, NDIRECT) && i < |v|
    requires |v[i].addrs| == NDIRECT + 1 && forall k :: 0 <= k < NDIRECT ==> v[i].addrs[k] == 0
    ensures owner - TableBlocks(owner, i) == Without(whole, i)
    ensures v[i].addrs[NDIRECT] == 0 ==> owner == Without(whole, i)
  {
    hide Used, Word;
    forall b | b in owner && owner[b].inum == i
      ensures !owner[b].Direct? && v[i].addrs[NDIRECT] != 0
    {
      assert Addr(blocks, v, owner[b]) == b;
    }
    hide Addr;
  }

  /** The blocks of the indirect table that the loop has not freed before entry j. */
  function Remaining(owner: map<nat, Slot>, i: nat, j: nat): set<nat> {
    set b | b in owner && owner[b].inum == i && (owner[b].Table? || (owner[b].Entry? && owner[b].k >= j))
  }

  lemma TableUnhooked(sb: Superblock, blocks: Blocks, v: Inodes, owner: map<nat, Slot>, i: nat)
    requires Owned(sb, blocks, v, owner, {}) && i < |v| && |v[i].addrs| == NDIRECT + 1 && v[i].addrs[NDIRECT] != 0
    ensures var f := StoreAddr(v, i, NDIRECT, 0);
            && v[i].addrs[NDIRECT] < |blocks| && OthersSame(blocks, v, blocks, f, i)
            && Owned(sb, blocks, f, owner - TableBlocks(owner, i), Remaining(owner, i, 0))
    ensures TableBlocks(owner, i) == Remaining(owner, i, 0)
  {
    hide Used, Word;
    assert Addr(blocks, v, Table(i)) == v[i].addrs[NDIRECT];
    DetachTable(sb, blocks, v, owner, {}, i);
    StoreOthers(blocks, v, i, NDIRECT, 0);
    assert {} + TableBlocks(owner, i) == Remaining(owner, i, 0);
    hide Owned, OthersSame, Addr;
  }

  /** Entry j of the table: nothing to free, or a block that is still marked. */
  lemma EntryReleased(sb: Superblock, was: Blocks, blocks: Blocks, disk: Inodes, v: Inodes, f: Inodes,
                      owner: map<nat, Slot>, rest: map<nat, Slot>, i: nat, j: nat, t: nat)
    requires Owned(sb, was, v, owner, {}) && Owned(sb, blocks, f, rest, Remaining(owner, i, j)) &&
             Layout(sb, blocks, disk)
    requires i < |v| && |v[i].addrs| == NDIRECT + 1 && v[i].addrs[NDIRECT] == t != 0 && j < NINDIRECT
    requires t < |blocks| && |blocks| == |was| && blocks[t] == was[t]
    ensures var b := Word(blocks[t], j);
            && (b == 0 ==> Remaining(owner, i, j + 1) == Remaining(owner, i, j))
            && (b != 0 ==> b in Remaining(owner, i, j) && Remaining(owner, i, j + 1) == Remaining(owner, i, j) - {b})
            && (b != 0 ==>
                   b < sb.size && BBlock(sb, b) < |blocks| && Used(sb, blocks, b) &&
                   Unmark(sb, blocks, b)[t] == blocks[t]
                           && Layout(sb, Unmark(sb, blocks, b), disk)
                           && Owned(sb, Unmark(sb, blocks, b), f, rest, Remaining(owner, i, j + 1))
                           && OthersSame(blocks, f, Unmark(sb, blocks, b), f, i))
  {
    hide Used, Word;
    var b := Word(blocks[t], j);
    assert Addr(was, v, Entry(i, j)) == b && Addr(was, v, Table(i)) == t;
    NextRemaining(sb, was, v, owner, i, j);
    if b != 0 {
      assert b in Remaining(owner, i, j);
      Release(sb, blocks, f, rest, Remaining(owner, i, j), b);
      UnmarkGrows(sb, blocks, f, rest, Remaining(owner, i, j), b, i);
    }
  }

  lemma NextRemaining(sb: Superblock, blocks: Blocks, v: Inodes, owner: map<nat, Slot>, i: nat, j: nat)
    requires Owned(sb, blocks, v, owner, {})
    ensures var b := Addr(blocks, v, Entry(i, j));
            Remaining(owner, i, j + 1) == if b == 0 then Remaining(owner, i, j) else Remaining(owner, i, j) - {b}
  {
    hide Used, Addr;
  }

  /** After the loop the table itself is what remains. */
  lemma LastReleased(sb: Superblock, was: Blocks, blocks: Blocks, disk: Inodes, v: Inodes, f: Inodes,
                     owner: map<nat, Slot>, rest: map<nat, Slot>, i: nat, t: nat)
    requires Owned(sb, was, v, owner, {}) && Owned(sb, blocks, f, rest, Remaining(owner, i, NINDIRECT)) &&
             Layout(sb, blocks, disk)
    requires i < |v| && |v[i].addrs| == NDIRECT + 1 && v[i].addrs[NDIRECT] == t != 0
    ensures t < sb.size && BBlock(sb, t) < |blocks| && Used(sb, blocks, t) && Layout(sb, Unmark(sb, blocks, t), disk)
    ensures Owned(sb, Unmark(sb, blocks, t), f, rest, {}) && OthersSame(blocks, f, Unmark(sb, blocks, t), f, i)
    ensures Remaining(owner, i, NINDIRECT) == {t}
  {
    OnlyTableRemains(sb, was, v, owner, i, t);
    hide Used, Word, Unmark, Addr, Remaining;
    Release(sb, blocks, f, rest, {t}, t);
    UnmarkGrows(sb, blocks, f, rest, {t}, t, i);
    assert {t} - {t} == {};
  }

  lemma OnlyTableRemains(sb: Superblock, blocks: Blocks, v: Inodes, owner: map<nat, Slot>, i: nat, t: nat)
    requires Owned(sb, blocks, v, owner, {})
    requires i < |v| && |v[i].addrs| == NDIRECT + 1 && v[i].addrs[NDIRECT] == t != 0
    ensures Remaining(owner, i, NINDIRECT) == {t}
  {
    hide Used, Word;
    assert Addr(blocks, v, Table(i)) == t;
    forall b | b in Remaining(owner, i, NINDIRECT)
      ensures b == t
    {
      assert Addr(blocks, v, owner[b]) == b;
    }
  }

  /** The ownership map without inode i, or without its first k direct slots. */
  /** Where the bits of a bitmap block are. */
  lemma BitAt(sb: Superblock, b: nat, bi: nat)
    requires b % BPB == 0 && bi < BPB
    ensures BBlock(sb, b + bi) == BBlock(sb, b) && (b + bi) % BPB == bi
  {
  }

  function BlocksOf(owner: map<nat, Slot>, i: nat): set<nat> {
    set b | b in owner && owner[b].inum == i
  }

  lemma MapsNone(sb: Superblock)
    ensures Maps(sb, {}) == {}
  {
  }

  /** One more block is freed: its bit is in one more bitmap block, or in one that is logged already. */
  lemma MapsMore(sb: Superblock, all: set<nat>, left: set<nat>, less: set<nat>, b: nat)
    requires b in left && left <= all && less == left - {b}
    ensures Maps(sb, all - less) == Maps(sb, all - left) + {BBlock(sb, b)}
  {
    assert all - less == (all - left) + {b};
  }

  /** The direct blocks and those of the table are the blocks of the file. */
  lemma AllMaps(sb: Superblock, owner: map<nat, Slot>, i: nat, bare: bool)
    requires var rest := WithoutDirect(owner, i, NDIRECT);
             (if bare then rest else rest - TableBlocks(rest, i)) == Without(owner, i)
    ensures var rest := WithoutDirect(owner, i, NDIRECT);
            Maps(sb, BlocksOf(owner, i)) == Maps(sb, owner.Keys - rest.Keys) +
            (if bare then {} else Maps(sb, TableBlocks(rest, i)))
  {
    var rest := WithoutDirect(owner, i, NDIRECT);
    var table := if bare then {} else TableBlocks(rest, i);
    assert BlocksOf(owner, i) == owner.Keys - Without(owner, i).Keys;
    assert BlocksOf(owner, i) == (owner.Keys - rest.Keys) + table;
    MapsNone(sb);
  }

  function Without(owner: map<nat, Slot>, i: nat): map<nat, Slot> {
    map b | b in owner && owner[b].inum != i :: owner[b]
  }

  function WithoutDirect(owner: map<nat, Slot>, i: nat, k: nat): map<nat, Slot> {
    map b | b in owner && !(owner[b].inum == i && owner[b].Direct? && owner[b].k < k) :: owner[b]
  }

  lemma OthersReflexive(blocks: Blocks, v: Inodes, i: nat)
    ensures OthersSame(blocks, v, blocks, v, i)
  {
  }

  /** One more direct slot out of the map: at most the block stored there. */
  lemma NoneDropped(sb: Superblock, owner: map<nat, Slot>, i: nat)
    ensures WithoutDirect(owner, i, 0) == owner && Maps(sb, owner.Keys - owner.Keys) == {}
  {
    assert owner.Keys - owner.Keys == {};
  }

  lemma DropDirect(
    sb: Superblock, blocks: Blocks, v: Inodes, owner: map<nat, Slot>, whole: map<nat, Slot>, i: nat, k: nat)
    requires Owned(sb, blocks, v, owner, {}) && owner == WithoutDirect(whole, i, k) && i < |v| && k < NDIRECT
    ensures |v[i].addrs| == NDIRECT + 1 && v[i].addrs[k] < sb.size
    ensures v[i].addrs[k] != 0 ==> v[i].addrs[k] in owner
    ensures WithoutDirect(whole, i, k + 1) == if v[i].addrs[k] == 0 then owner else owner - {v[i].addrs[k]}
  {
    hide Used, Word;
    assert Addr(blocks, v, Direct(i, k)) == v[i].addrs[k];
    forall b | b in owner && owner[b] == Direct(i, k)
      ensures b == v[i].addrs[k]
    {
    }
  }

  /** Clearing a bitmap bit changes no file. */
  lemma UnmarkGrows(sb: Superblock, blocks: Blocks, v: Inodes, owner: map<nat, Slot>, spare: set<nat>, b: nat, i: nat)
    requires Owned(sb, blocks, v, owner, spare) && b < sb.size
    ensures OthersSame(blocks, v, Unmark(sb, blocks, b), v, i)
  {
    hide Used, Addr;
    forall s: Slot | Addr(blocks, v, s) != 0
      ensures SameSlot(blocks, v, Unmark(sb, blocks, b), v, s)
    {
      SameAddrs(blocks, Unmark(sb, blocks, b), v, owner, s);
    }
  }

  lemma StoreOthers(blocks: Blocks, v: Inodes, i: nat, k: nat, b: nat)
    requires i < |v| && |v[i].addrs| == NDIRECT + 1 && k <= NDIRECT
    ensures OthersSame(blocks, v, blocks, StoreAddr(v, i, k, b), i)
  {
    hide Word;
  }

  lemma DirectReleased(sb: Superblock, blocks: Blocks, disk: Inodes, v: Inodes, owner: map<nat, Slot>, i: nat, k: nat)
    requires Owned(sb, blocks, v, owner, {}) && Layout(sb, blocks, disk) && i < |v| && k < NDIRECT
    requires |v[i].addrs| == NDIRECT + 1 && v[i].addrs[k] != 0
    ensures var b := v[i].addrs[k];
            && b < sb.size && BBlock(sb, b) < |blocks| && Used(sb, blocks, b) && Layout(sb, Unmark(sb, blocks, b), disk)
            && Owned(sb, Unmark(sb, blocks, b), StoreAddr(v, i, k, 0), owner - {b}, {})
            && OthersSame(blocks, v, Unmark(sb, blocks, b), StoreAddr(v, i, k, 0), i)
  {
    hide Word;
    var b, f := v[i].addrs[k], StoreAddr(v, i, k, 0);
    assert b == Addr(blocks, v, Direct(i, k));
    DetachDirect(sb, blocks, v, owner, {}, i, k);
    Release(sb, blocks, f, owner - {b}, {b}, b);
    assert {} + {b} == {b} && {b} - {b} == {};
    UnmarkGrows(sb, blocks, f, owner - {b}, {b}, b, i);
    StoreOthers(blocks, v, i, k, 0);
    OthersTransitive(blocks, v, blocks, f, Unmark(sb, blocks, b), f, i);
  }

  lemma ViewAddrs(sb: Superblock, blocks: Blocks, v: Inodes, owner: map<nat, Slot>, i: nat)
    requires Owned(sb, blocks, v, owner, {}) && i < |v|
    ensures |v[i].addrs| == NDIRECT + 1 && v[i].addrs[NDIRECT] < |blocks|
  {
    hide Used, Word;
    assert Addr(blocks, v, Table(i)) == v[i].addrs[NDIRECT];
  }

  lemma NoTableNoEntries(blocks: Blocks, v: Inodes, i: nat)
    requires Addr(blocks, v, Table(i)) == 0
    ensures forall k: nat :: Addr(blocks, v, Entry(i, k)) == 0
  {
  }

  lemma TableAllocated(sb: Superblock, blocks: Blocks, disk: Inodes, v: Inodes, owner: map<nat, Slot>, i: nat, b: nat)
    requires Owned(sb, blocks, v, owner, {}) && Layout(sb, blocks, disk) && b < sb.size && !Used(sb, blocks, b)
    requires i < |v| && Addr(blocks, v, Table(i)) == 0
    ensures |v[i].addrs| == NDIRECT + 1
    ensures var e, f := Mark(sb, blocks, b)[b := ZERO], StoreAddr(v, i, NDIRECT, b);
            && Owned(sb, e, f, owner[b := Table(i)], {}) && Layout(sb, e, disk)
            && Grows(blocks, v, e, f, i)
            && Addr(e, f, Table(i)) == b && forall k: nat :: Addr(e, f, Entry(i, k)) == 0
  {
    var e, f := Mark(sb, blocks, b)[b := ZERO], StoreAddr(v, i, NDIRECT, b);
    Allocate(sb, blocks, v, owner, {}, b);
    AllocateGrows(sb, blocks, v, owner, b, i);
    AttachTable(sb, e, v, owner, {b}, i, b);
    StoreGrows(e, v, i, NDIRECT, b);
    GrowsTransitive(blocks, v, e, v, e, f, i);
    assert {b} - {b} == {};
    forall k: nat
      ensures Addr(e, f, Entry(i, k)) == 0
    {
      if k < NINDIRECT {
        ZeroWords(k);
      }
    }
    hide Owned, Grows, Used, Mark, Word;
  }

  lemma EntryAllocated(
    sb: Superblock, blocks: Blocks, disk: Inodes, v: Inodes, owner: map<nat, Slot>, i: nat, k: nat, b: nat)
    requires Owned(sb, blocks, v, owner, {}) && Layout(sb, blocks, disk) && b < sb.size && !Used(sb, blocks, b)
    requires i < |v| && k < NINDIRECT && Addr(blocks, v, Table(i)) != 0 && Addr(blocks, v, Entry(i, k)) == 0
    ensures |v[i].addrs| == NDIRECT + 1 && Addr(blocks, v, Table(i)) < |blocks| && b < UINT
    ensures var e, t := Mark(sb, blocks, b)[b := ZERO], Addr(blocks, v, Table(i));
            var g := e[t := SetWord(e[t], k, b)];
            && Owned(sb, g, v, owner[b := Entry(i, k)], {}) && Layout(sb, g, disk)
            && Grows(blocks, v, g, v, i)
            && Addr(g, v, Entry(i, k)) == b && Addr(g, v, Table(i)) == t
  {
    hide Used, Mark, Word, SetWord;
    var e, t := Mark(sb, blocks, b)[b := ZERO], Addr(blocks, v, Table(i));
    Allocate(sb, blocks, v, owner, {}, b);
    AllocateGrows(sb, blocks, v, owner, b, i);
    assert SameSlot(blocks, v, e, v, Table(i));
    AllocatedEmpty(sb, blocks, v, owner, b, Entry(i, k));
    AttachEntry(sb, e, v, owner, {b}, i, k, b);
    EntryGrows(sb, e, v, owner, {b}, i, k, b);
    GrowsTransitive(blocks, v, e, v, e[t := SetWord(e[t], k, b)], v, i);
    assert {b} - {b} == {};
  }

  lemma AllocatedEmpty(sb: Superblock, blocks: Blocks, v: Inodes, owner: map<nat, Slot>, b: nat, s: Slot)
    requires Owned(sb, blocks, v, owner, {}) && b < sb.size && !Used(sb, blocks, b)
    ensures Addr(Mark(sb, blocks, b)[b := ZERO], v, s) == Addr(blocks, v, s)
  {
    hide Used, Addr;
    SameAddrs(blocks, Mark(sb, blocks, b)[b := ZERO], v, owner, s);
  }

  lemma EntryGrows(
    sb: Superblock, blocks: Blocks, v: Inodes, owner: map<nat, Slot>, spare: set<nat>, i: nat, k: nat, b: nat)
    requires Owned(sb, blocks, v, owner, spare) && i < |v| && k < NINDIRECT && b < UINT
    requires Addr(blocks, v, Table(i)) != 0 && Addr(blocks, v, Entry(i, k)) == 0
    ensures var t := Addr(blocks, v, Table(i));
            t < |blocks| && Grows(blocks, v, blocks[t := SetWord(blocks[t], k, b)], v, i)
            && Addr(blocks[t := SetWord(blocks[t], k, b)], v, Entry(i, k)) == b
            && Addr(blocks[t := SetWord(blocks[t], k, b)], v, Table(i)) == t
  {
    hide Used, Word, SetWord, Addr;
    var t := Addr(blocks, v, Table(i));
    forall s: Slot
      ensures Addr(blocks[t := SetWord(blocks[t], k, b)], v, s) == if s == Entry(i, k) then b else Addr(blocks, v, s)
    {
      EntryWritten(blocks, v, i, t, k, b, s);
    }
  }

  lemma BlockZeroUsed(sb: Superblock, blocks: Blocks, inodes: Inodes, owner: map<nat, Slot>, spare: set<nat>)
    requires Owned(sb, blocks, inodes, owner, spare)
    ensures Used(sb, blocks, 0)
  {
  }

  lemma GrowsReflexive(blocks: Blocks, inodes: Inodes, i: nat)
    ensures Grows(blocks, inodes, blocks, inodes, i)
  {
  }

  lemma DirectAllocated(
    sb: Superblock, blocks: Blocks, disk: Inodes, v: Inodes, owner: map<nat, Slot>, i: nat, k: nat, b: nat)
    requires Owned(sb, blocks, v, owner, {}) && Layout(sb, blocks, disk) && b < sb.size && !Used(sb, blocks, b)
    requires i < |v| && k < NDIRECT && Addr(blocks, v, Direct(i, k)) == 0
    ensures |v[i].addrs| == NDIRECT + 1
    ensures var e, f := Mark(sb, blocks, b)[b := ZERO], StoreAddr(v, i, k, b);
            && Owned(sb, e, f, owner[b := Direct(i, k)], {}) && Layout(sb, e, disk)
            && Grows(blocks, v, e, f, i)
            && Addr(e, f, Direct(i, k)) == b && Addr(e, f, Table(i)) == Addr(blocks, v, Table(i))
  {
    var e, f := Mark(sb, blocks, b)[b := ZERO], StoreAddr(v, i, k, b);
    Allocate(sb, blocks, v, owner, {}, b);
    AllocateGrows(sb, blocks, v, owner, b, i);
    AttachDirect(sb, e, v, owner, {b}, i, k, b);
    StoreGrows(e, v, i, k, b);
    GrowsTransitive(blocks, v, e, v, e, f, i);
    assert {b} - {b} == {};
    hide Owned, Grows, Used, Mark;
  }

  /** Filling an empty slot keeps all others. */
  lemma StoreGrows(blocks: Blocks, v: Inodes, i: nat, k: nat, b: nat)
    requires i < |v| && |v[i].addrs| == NDIRECT + 1 && k <= NDIRECT && v[i].addrs[k] == 0
    ensures Grows(blocks, v, blocks, StoreAddr(v, i, k, b), i)
  {
    hide Word;
  }

  /** Allocating a block changes no file. */
  lemma AllocateGrows(sb: Superblock, blocks: Blocks, inodes: Inodes, owner: map<nat, Slot>, b: nat, i: nat)
    requires Owned(sb, blocks, inodes, owner, {}) && b < sb.size && !Used(sb, blocks, b)
    ensures Grows(blocks, inodes, Mark(sb, blocks, b)[b := ZERO], inodes, i)
  {
    hide Used, Addr;
    var e := Mark(sb, blocks, b)[b := ZERO];
    forall s: Slot | Addr(blocks, inodes, s) != 0
      ensures SameSlot(blocks, inodes, e, inodes, s)
    {
      SameAddrs(blocks, e, inodes, owner, s);
    }
  }
}
