/**
 The file system on the crash-safe disk.  The log and the cache (CacheLog) move blocks of 32-bit
 words; the file system (FsOwnership, FileSystem, FileIO) reads the same blocks as bytes, bitmap bits and
 inodes.  Whatever the moment of a crash, the boot that follows finds a sound file system with the
 contents of the last commit, and frees what no directory names any more.
 */
module CrashSafety {
  import opened Params
  import opened FsBytes
  import opened FsOwnership
  import opened FileSystem
  import opened FileIO
  import Log
  import CacheLog

  // ---- a block of words as the file system reads it

  /** Byte k of a 32-bit word in memory, lowest first. */
  function ByteOf(w: nat, k: nat): byte
    requires k < 4
  {
    (if k == 0 then w else if k == 1 then w / 0x100 else if k == 2 then w / 0x1_0000 else w / 0x100_0000) % 256
  }

  function BytesOf(b: Block): Data {
    seq(1024, k requires 0 <= k < 1024 => ByteOf(b[k / 4], k % 4))
  }

  /** struct dinode, the n-th of a block: sixteen words, of which the first two hold four shorts. */
  function DinodeAt(b: Block, n: nat): Dinode
    requires n < IPB
  {
    Dinode(b[16 * n] % 0x1_0000, b[16 * n + 1] / 0x1_0000 % 0x1_0000, b[16 * n + 2] % UINT,
           seq(13, k requires 0 <= k < 13 => b[16 * n + 3 + k] % UINT))
  }

  lemma WordBytes(w: nat)
    ensures LittleEndian(ByteOf(w, 0), ByteOf(w, 1), ByteOf(w, 2), ByteOf(w, 3)) == w % UINT
  {
    var w1 := w / 0x100;
    var w2 := w1 / 0x100;
    var w3 := w2 / 0x100;
    assert w / 0x1_0000 == w2 && w / 0x100_0000 == w3;
    assert w == ByteOf(w, 0) + 0x100 * w1;
    assert w1 == ByteOf(w, 1) + 0x100 * w2;
    assert w2 == ByteOf(w, 2) + 0x100 * w3;
    assert w3 == ByteOf(w, 3) + 0x100 * (w3 / 0x100);
  }

  /** An indirect table has as its entries the words that were logged. */
  lemma TableWords(b: Block, i: nat)
    requires i < NINDIRECT
    ensures Word(BytesOf(b), i) == b[i] % UINT
  {
    hide ByteOf;
    WordBytes(b[i]);
    forall k: nat | k < 4 ensures BytesOf(b)[4 * i + k] == ByteOf(b[i], k) {
      assert (4 * i + k) / 4 == i && (4 * i + k) % 4 == k;
    }
  }

  /** The words of a block of bytes. */
  function WordsOf(d: Data): Block {
    seq(256, i requires 0 <= i < 256 => Word(d, i))
  }

  lemma BytesOfWord(b0: byte, b1: byte, b2: byte, b3: byte)
    ensures var w := LittleEndian(b0, b1, b2, b3);
            ByteOf(w, 0) == b0 && ByteOf(w, 1) == b1 && ByteOf(w, 2) == b2 && ByteOf(w, 3) == b3
  {
    var w := LittleEndian(b0, b1, b2, b3);
    assert w / 0x100 == b1 + 0x100 * b2 + 0x1_0000 * b3;
    assert w / 0x1_0000 == b2 + 0x100 * b3;
    assert w / 0x100_0000 == b3;
  }

  /** Every block of bytes can be written as words and read back. */
  lemma BytesRoundTrip(d: Data)
    ensures BytesOf(WordsOf(d)) == d
  {
    hide BytesOf, WordsOf;
    forall k: nat | k < 1024 ensures BytesOf(WordsOf(d))[k] == d[k] {
      ByteRoundTrip(d, k);
    }
  }

  lemma ByteRoundTrip(d: Data, k: nat)
    requires k < 1024
    ensures BytesOf(WordsOf(d))[k] == d[k]
  {
    hide ByteOf, LittleEndian;
    var i := k / 4;
    BytesOfWord(d[4 * i], d[4 * i + 1], d[4 * i + 2], d[4 * i + 3]);
    assert k == 4 * i + k % 4;
  }

  // ---- an inode in its block

  function Short(lo: byte, hi: byte): nat {
    lo + 0x100 * hi
  }

  /** struct dinode in bytes: inode n of a block has its 64 bytes from 64 * n on, with type, major, minor and nlink
      as shorts, then size and the 13 addresses as 32-bit words, lowest byte first. */
  lemma DinodeBytes(b: Block, n: nat, k: nat)
    requires n < IPB && k < 13
    ensures var d, at, inode := BytesOf(b), 64 * n, DinodeAt(b, n);
            && inode.typ == Short(d[at], d[at + 1])
            && inode.nlink == Short(d[at + 6], d[at + 7])
            && inode.size == LittleEndian(d[at + 8], d[at + 9], d[at + 10], d[at + 11])
            && var p := at + 12 + 4 * k;
               |inode.addrs| == 13 && inode.addrs[k] == LittleEndian(d[p], d[p + 1], d[p + 2], d[p + 3])
  {
    hide BytesOf, Short, LittleEndian;
    Halves(b, 16 * n);
    Halves(b, 16 * n + 1);
    TableWords(b, 16 * n + 2);
    TableWords(b, 16 * n + 3 + k);
  }

  /** The two shorts of a word. */
  lemma Halves(b: Block, i: nat)
    requires i < 256
    ensures Short(BytesOf(b)[4 * i], BytesOf(b)[4 * i + 1]) == b[i] % 0x1_0000
    ensures Short(BytesOf(b)[4 * i + 2], BytesOf(b)[4 * i + 3]) == b[i] / 0x1_0000 % 0x1_0000
  {
    hide ByteOf, Short, BytesOf;
    ShortBytes(b[i]);
    ByteInWord(b, i, 0);
    ByteInWord(b, i, 1);
    ByteInWord(b, i, 2);
    ByteInWord(b, i, 3);
  }

  lemma ByteInWord(b: Block, i: nat, m: nat)
    requires i < 256 && m < 4
    ensures BytesOf(b)[4 * i + m] == ByteOf(b[i], m)
  {
    hide ByteOf;
    assert (4 * i + m) / 4 == i && (4 * i + m) % 4 == m;
  }

  lemma ShortBytes(w: nat)
    ensures Short(ByteOf(w, 0), ByteOf(w, 1)) == w % 0x1_0000
    ensures Short(ByteOf(w, 2), ByteOf(w, 3)) == w / 0x1_0000 % 0x1_0000
  {
    ShortOf(w);
    ShortOf(w / 0x1_0000);
    assert w / 0x1_0000 / 0x100 == w / 0x100_0000;
  }

  lemma ShortOf(x: nat)
    ensures x % 256 + 0x100 * (x / 0x100 % 256) == x % 0x1_0000
  {
    var y := x / 0x100;
    assert x == 0x100 * y + x % 256 && y == 256 * (y / 256) + y % 256;
  }

  /** The values that a struct dinode can hold. */
  predicate Storable(d: Dinode) {
    && d.typ < 0x1_0000 && d.nlink < 0x1_0000 && d.size < UINT && |d.addrs| == 13
    && forall k :: 0 <= k < 13 ==> d.addrs[k] < UINT
  }

  /** iupdate in the buffer: the sixteen words of inode n, and the rest of the block as it was. */
  function PutDinode(b: Block, n: nat, d: Dinode, major: nat, minor: nat): Block
    requires n < IPB && |d.addrs| == 13
  {
    seq(256, i requires 0 <= i < 256 => WordAfter(b, n, d, major, minor, i))
  }

  function WordAfter(b: Block, n: nat, d: Dinode, major: nat, minor: nat, i: nat): nat
    requires n < IPB && |d.addrs| == 13 && i < 256
  {
    if 16 * n <= i < 16 * n + 16 then DinodeWord(d, major, minor, i - 16 * n) else b[i]
  }

  function DinodeWord(d: Dinode, major: nat, minor: nat, i: nat): nat
    requires i < 16 && |d.addrs| == 13
  {
    if i == 0 then d.typ + 0x1_0000 * major
    else if i == 1 then minor + 0x1_0000 * d.nlink
    else if i == 2 then d.size
    else d.addrs[i - 3]
  }

  /** What iupdate has put in place n is read back from there, and the other inodes of the block are as before. */
  lemma DinodeReadBack(b: Block, n: nat, d: Dinode, major: nat, minor: nat, m: nat)
    requires n < IPB && m < IPB && Storable(d) && major < 0x1_0000 && minor < 0x1_0000
    ensures DinodeAt(PutDinode(b, n, d, major, minor), m) == if m == n then d else DinodeAt(b, m)
  {
    var c := PutDinode(b, n, d, major, minor);
    if m == n {
      assert (d.typ + 0x1_0000 * major) % 0x1_0000 == d.typ;
      assert (minor + 0x1_0000 * d.nlink) / 0x1_0000 == d.nlink;
      forall k | 0 <= k < 13 ensures DinodeAt(c, n).addrs[k] == d.addrs[k] {
        assert c[16 * n + 3 + k] == WordAfter(b, n, d, major, minor, 16 * n + 3 + k) == d.addrs[k];
      }
      assert DinodeAt(c, n).addrs == d.addrs;
    } else {
      assert forall i :: 16 * m <= i < 16 * m + 16 ==> c[i] == b[i];
      assert DinodeAt(c, m).addrs == DinodeAt(b, m).addrs;
    }
  }

  // ---- a disk as the file system reads it

  /** The log lies between the superblock and the inodes. */
  predicate Fits(sb: Superblock, start: nat, disk: Log.Disk) {
    Geometry(sb) && |disk| == sb.size && start + LOGBLOCKS < sb.inodestart
  }

  lemma InodesHome(sb: Superblock, start: nat, disk: Log.Disk, i: nat)
    requires Fits(sb, start, disk) && i < sb.ninodes
    ensures Log.IsHome(disk, start, IBlock(sb, i))
  {
    assert BBlock(sb, 0) < sb.datastart;
  }

  /** The home blocks; the log is not the file system's. */
  function FileBlocks(disk: Log.Disk, start: nat): Blocks {
    seq(|disk|, b requires 0 <= b < |disk| => if Log.InLog(start, b) then ZERO else BytesOf(disk[b]))
  }

  function FileInodes(disk: Log.Disk, start: nat, sb: Superblock): Inodes
    requires Fits(sb, start, disk)
  {
    assert forall i :: 0 <= i < sb.ninodes ==> Log.IsHome(disk, start, IBlock(sb, i)) by {
      forall i | 0 <= i < sb.ninodes ensures Log.IsHome(disk, start, IBlock(sb, i)) { InodesHome(sb, start, disk, i); }
    }
    seq(sb.ninodes, i requires 0 <= i < sb.ninodes && IBlock(sb, i) < |disk| => DinodeAt(disk[IBlock(sb, i)], i % IPB))
  }

  /** The disk holds a sound file system. */
  ghost predicate SoundDisk(sb: Superblock, start: nat, disk: Log.Disk) {
    Fits(sb, start, disk) && exists owner :: Sound(sb, FileBlocks(disk, start), FileInodes(disk, start, sb), owner)
  }

  ghost function SoundOn(sb: Superblock, start: nat): Log.Disk -> bool {
    disk => SoundDisk(sb, start, disk)
  }

  /** The file system sees only home blocks. */
  lemma SameFiles(sb: Superblock, start: nat, a: Log.Disk, b: Log.Disk)
    requires Fits(sb, start, a) && Log.SameHome(a, b, start)
    ensures Fits(sb, start, b)
    ensures FileBlocks(a, start) == FileBlocks(b, start) && FileInodes(a, start, sb) == FileInodes(b, start, sb)
  {
    hide BytesOf, DinodeAt;
    forall i | 0 <= i < sb.ninodes ensures IBlock(sb, i) < |a| && a[IBlock(sb, i)] == b[IBlock(sb, i)] {
      InodesHome(sb, start, a, i);
    }
  }

  /** iupdate on the disk of words is iupdate of the file system: one inode changes, and no other block. */
  lemma UpdateOnDisk(sb: Superblock, start: nat, disk: Log.Disk, i: nat, d: Dinode, major: nat, minor: nat)
    requires Fits(sb, start, disk) && i < sb.ninodes && Storable(d) && major < 0x1_0000 && minor < 0x1_0000
    ensures Log.IsHome(disk, start, IBlock(sb, i))
    ensures var c := IBlock(sb, i); var after := disk[c := PutDinode(disk[c], i % IPB, d, major, minor)];
            && Fits(sb, start, after) && FileInodes(after, start, sb) == FileInodes(disk, start, sb)[i := d]
            && forall x :: 0 <= x < |disk| && x != c ==> FileBlocks(after, start)[x] == FileBlocks(disk, start)[x]
  {
    hide PutDinode, DinodeAt, BytesOf, Geometry;
    InodesHome(sb, start, disk, i);
    var c := IBlock(sb, i);
    var after := disk[c := PutDinode(disk[c], i % IPB, d, major, minor)];
    forall x: nat | x < sb.ninodes
      ensures FileInodes(after, start, sb)[x] == if x == i then d else FileInodes(disk, start, sb)[x]
    {
      InodesHome(sb, start, disk, x);
      DinodeReadBack(disk[c], i % IPB, d, major, minor, x % IPB);
      SamePlace(sb, i, x);
    }
  }

  lemma SamePlace(sb: Superblock, i: nat, x: nat)
    ensures IBlock(sb, i) == IBlock(sb, x) && i % IPB == x % IPB ==> i == x
  {
  }

  /** A block of file contents, or of the bitmap, written as words is that block of the file system. */
  lemma WriteOnDisk(sb: Superblock, start: nat, disk: Log.Disk, b: nat, d: Data)
    requires Fits(sb, start, disk) && Log.IsHome(disk, start, b)
    requires forall i :: 0 <= i < sb.ninodes ==> IBlock(sb, i) != b
    ensures var after := disk[b := WordsOf(d)];
            && Fits(sb, start, after) && FileInodes(after, start, sb) == FileInodes(disk, start, sb)
            && FileBlocks(after, start) == FileBlocks(disk, start)[b := d]
  {
    hide WordsOf, DinodeAt, BytesOf, Geometry;
    BytesRoundTrip(d);
    var after := disk[b := WordsOf(d)];
    forall x: nat | x < sb.ninodes ensures FileInodes(after, start, sb)[x] == FileInodes(disk, start, sb)[x] {
      InodesHome(sb, start, disk, x);
    }
  }

  /** Soundness survives every crash: if the first disk is sound, and the file system is sound whenever the last
      operation in progress ends, then recovery after a crash in any state yields the contents of the last
      commit, and they are sound. */
  lemma SoundSurvives(
    sb: Superblock, disk: Log.Disk, nbuf: nat, start: nat, steps: seq<CacheLog.Step>, e: CacheLog.State)
    requires Log.ValidLog(disk, start) && Log.HeadCount(disk, start) == 0 && SoundDisk(sb, start, disk)
    requires CacheLog.RunKeeping(SoundOn(sb, start), CacheLog.Boot(disk, nbuf), start, steps, e)
    ensures SoundDisk(sb, start, e.committed)
    ensures Log.ValidLog(e.disk, start) && Log.SameHome(Log.Recovered(e.disk, start), e.committed, start)
    ensures e.phase.Open? && e.ops == map[] ==> Log.SameHome(e.committed, e.latest, start)
  {
    hide Log.SameHome, Sound, Fits, FileBlocks, CacheLog.RunKeeping, Log.ValidLog;
    var p := SoundOn(sb, start);
    forall a, b | Log.SameHome(a, b, start) && p(a) ensures p(b) {
      SameFiles(sb, start, a, b);
    }
    CacheLog.InvariantSurvives(p, disk, nbuf, start, steps, e);
  }

  /** The disk that mkfs starts from, in words: sound, with an empty log. */
  method FreshDisk(sb: Superblock, start: nat) returns (disk: Log.Disk)
    requires Geometry(sb) && start + LOGBLOCKS < sb.inodestart && sb.ninodes > 0
    ensures SoundDisk(sb, start, disk) && Log.ValidLog(disk, start) && Log.HeadCount(disk, start) == 0
  {
    hide Sound, BytesOf, WordsOf, DinodeAt;
    var fs := new Fs(sb);
    var blocks := fs.blocks;
    disk := seq(|blocks|, b requires 0 <= b < |blocks| => WordsOf(blocks[b]));
    assert IBlock(sb, 0) < sb.bmapstart && BBlock(sb, 0) < sb.datastart;
    forall b | 0 <= b < |blocks| ensures FileBlocks(disk, start)[b] == blocks[b] {
      BytesRoundTrip(blocks[b]);
    }
    assert FileBlocks(disk, start) == blocks;
    var zero := ZERO;
    forall i: nat | i < 256 ensures WordsOf(zero)[i] == 0 { ZeroWord(zero, i); }
    forall i | 0 <= i < sb.ninodes ensures FileInodes(disk, start, sb)[i] == FREE_INODE {
      InodesHome(sb, start, disk, i);
      assert disk[IBlock(sb, i)] == WordsOf(zero);
      ZeroDinode(WordsOf(zero), i % IPB);
    }
    assert FileInodes(disk, start, sb) == fs.inodes;
    assert disk[start] == WordsOf(zero);
  }

  /** A block of zeroes holds free inodes, or an empty log header. */
  lemma ZeroWord(d: Data, i: nat)
    requires i < 256 && forall k :: 0 <= k < 1024 ==> d[k] == 0
    ensures WordsOf(d)[i] == 0
  {
  }

  lemma ZeroDinode(b: Block, n: nat)
    requires n < IPB && forall i :: 0 <= i < 256 ==> b[i] == 0
    ensures DinodeAt(b, n) == FREE_INODE
  {
    assert DinodeAt(b, n).addrs == FREE_INODE.addrs;
  }

  /** The boot after a crash: recovery, then ireclaim.  Every file with a link has the contents of the last
      commit, every orphan is free, and the file system is sound. */
  method BootAfterCrash(sb: Superblock, ghost disk: Log.Disk, nbuf: nat, start: nat, ghost steps: seq<CacheLog.Step>,
                        e: CacheLog.State) returns (fs: Fs)
    requires Log.ValidLog(disk, start) && Log.HeadCount(disk, start) == 0 && SoundDisk(sb, start, disk)
    requires CacheLog.RunKeeping(SoundOn(sb, start), CacheLog.Boot(disk, nbuf), start, steps, e)
    ensures fresh(fs) && fs.sb == sb && Sound(sb, fs.blocks, fs.inodes, fs.owner) && Fits(sb, start, e.committed)
    ensures var v := FileInodes(e.committed, start, sb);
            && |fs.inodes| == |v|
            && forall i :: 1 <= i < |v| ==>
                 fs.inodes[i] == (if Orphan(v[i]) then FREE_INODE else v[i]) &&
                 (!Orphan(v[i]) ==> Contents(fs.blocks, fs.inodes, i) == Contents(FileBlocks(e.committed, start), v, i))
    ensures e.phase.Open? && e.ops == map[] ==>
              Fits(sb, start, e.latest) && FileBlocks(e.latest, start) == FileBlocks(e.committed, start) &&
              FileInodes(e.latest, start, sb) == FileInodes(e.committed, start, sb)
  {
    hide Log.SameHome, Sound, Fits, FileBlocks, CacheLog.RunKeeping, Log.ValidLog, Contents;
    SoundSurvives(sb, disk, nbuf, start, steps, e);
    if e.phase.Open? && e.ops == map[] {
      SameFiles(sb, start, e.committed, e.latest);
    }
    ghost var owner :| Sound(sb, FileBlocks(e.committed, start), FileInodes(e.committed, start, sb), owner);
    var found := Log.Recovered(e.disk, start);
    SameFilesBack(sb, start, found, e.committed);
    fs := new Fs.Mounted(sb, FileBlocks(found, start), FileInodes(found, start, sb), owner);
    Ireclaim(fs);
  }

  lemma SameFilesBack(sb: Superblock, start: nat, a: Log.Disk, b: Log.Disk)
    requires Fits(sb, start, b) && Log.SameHome(a, b, start)
    ensures Fits(sb, start, a)
    ensures FileBlocks(a, start) == FileBlocks(b, start) && FileInodes(a, start, sb) == FileInodes(b, start, sb)
  {
    hide Log.SameHome, Fits;
    CacheLog.SameHomeBack(a, b, start);
    SameFiles(sb, start, b, a);
  }
}
