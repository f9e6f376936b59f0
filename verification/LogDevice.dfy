/**
 kernel/log.c as it runs: the in-memory header, the buffer cache as far as the log can see it,
 and the disk.  Each method issues real block writes; `issued` records them, so that the crash
 results of module Log apply to what the code does.
 */
module LogDevice {
  import opened Params
  import opened Log

  datatype Outcome = Logged | TooBigATransaction | OutsideOfTransaction

  predicate HomeBlocks(d: Disk, start: nat, lh: seq<nat>) {
    forall i :: 0 <= i < |lh| ==> IsHome(d, start, lh[i])
  }

  /** A cached block that is not in the log header has the contents of the disk. */
  predicate CleanOutside(cached: Disk, d: Disk, lh: seq<nat>) {
    |cached| == |d| && forall b :: 0 <= b < |d| && b !in lh ==> cached[b] == d[b]
  }

  lemma EmptyLogIsClean(d: Disk, start: nat)
    ensures HomeBlocks(d, start, []) && CleanOutside(d, d, [])
  {
  }

  /** The disk and the cache after the same writes, of which the first k log writes are done. */
  predicate LoggedSoFar(d: Disk, cached: Disk, was: Disk, src: Disk, start: nat, lh: seq<nat>, k: nat) {
    && k <= |lh| && (forall i :: 0 <= i < |lh| ==> lh[i] < |src|)
    && d == Apply(was, LogWrites(start, lh, src, k))
    && cached == Apply(src, LogWrites(start, lh, src, k))
  }

  lemma NothingDoneYet(d: Disk, cached: Disk, start: nat, lh: seq<nat>)
    requires start + LOGBLOCKS < |d| == |cached| && |lh| <= LOGBLOCKS && HomeBlocks(d, start, lh)
    ensures LoggedSoFar(d, cached, d, cached, start, lh, 0) && LogWrites(start, lh, cached, 0) == []
    ensures InstalledSoFar(d, cached, d, cached, start, lh, 0) && InstallWrites(start, lh, cached, 0) == []
  {
  }

  lemma WriteLogStep(d: Disk, cached: Disk, was: Disk, src: Disk, start: nat, lh: seq<nat>, k: nat)
    requires start + LOGBLOCKS < |src| == |was| && |lh| <= LOGBLOCKS && k < |lh| && HomeBlocks(was, start, lh)
    requires LoggedSoFar(d, cached, was, src, start, lh, k)
    ensures |d| == |cached| == |src| && lh[k] < |src| && cached[lh[k]] == src[lh[k]]
    ensures LoggedSoFar(d[start + 1 + k := src[lh[k]]], cached[start + 1 + k := src[lh[k]]], was, src, start, lh, k + 1)
  {
    AfterLogWrites(src, start, lh, src, k);
    assert IsHome(was, start, lh[k]);
    var ws, w := LogWrites(start, lh, src, k), Write(start + k + 1, src[lh[k]]);
    LogWritesStep(start, lh, src, k);
    ApplyAppend(was, ws, w);
    ApplyAppend(src, ws, w);
    hide Apply, LogWrites, SameHome;
  }

  /** The same for the first k installs. */
  predicate InstalledSoFar(d: Disk, cached: Disk, was: Disk, src: Disk, start: nat, lh: seq<nat>, k: nat) {
    && k <= |lh| && start + |lh| < |src|
    && d == Apply(was, InstallWrites(start, lh, src, k))
    && cached == Apply(src, InstallWrites(start, lh, src, k))
  }

  lemma InstallTransStep(d: Disk, cached: Disk, was: Disk, src: Disk, start: nat, lh: seq<nat>, k: nat)
    requires start + LOGBLOCKS < |src| == |was| && |lh| <= LOGBLOCKS && k < |lh| && HomeBlocks(was, start, lh)
    requires InstalledSoFar(d, cached, was, src, start, lh, k)
    ensures |d| == |cached| == |src| && lh[k] < |src| && cached[start + 1 + k] == src[start + 1 + k]
    ensures InstalledSoFar(d[lh[k] := src[start + 1 + k]], cached[lh[k] := src[start + 1 + k]], was, src, start, lh,
            k + 1)
  {
    AfterInstallWrites(src, start, lh, src, k);
    assert IsHome(was, start, lh[k]);
    var ws, w := InstallWrites(start, lh, src, k), Write(lh[k], src[start + 1 + k]);
    ApplyAppend(was, ws, w);
    ApplyAppend(src, ws, w);
    InstallWritesStep(start, lh, src, k);
    hide Apply, InstallWrites;
  }

  /** Installing removes every difference between the cache and the disk. */
  lemma InstalledIsClean(d: Disk, cached: Disk, was: Disk, src: Disk, start: nat, lh: seq<nat>)
    requires InstalledSoFar(d, cached, was, src, start, lh, |lh|) && CleanOutside(src, was, lh)
    ensures cached == d
  {
    var ws := InstallWrites(start, lh, src, |lh|);
    forall b | 0 <= b < |src| && src[b] != was[b]
      ensures exists i :: 0 <= i < |ws| && ws[i].bno == b
    {
      var i :| 0 <= i < |lh| && lh[i] == b;
      InstallWriteAt(start, lh, src, |lh|, i);
    }
    ApplyErasesDifferences(src, was, ws);
  }

  /** Between the header write and the installation: the log holds the transaction. */
  lemma HeadWritten(d: Disk, latest: Disk, d1: Disk, c1: Disk, start: nat, lh: seq<nat>, image: Block)
    requires start + LOGBLOCKS < |d| && |lh| <= LOGBLOCKS && HomeBlocks(d, start, lh) && CleanOutside(latest, d, lh)
    requires LoggedSoFar(d1, c1, d, latest, start, lh, |lh|)
    ensures c1[start] == d[start] && |d1| == |c1| == |d|
    ensures HomeBlocks(d1[start := image], start, lh) && CleanOutside(c1[start := image], d1[start := image], lh)
    ensures LogHolds(c1[start := image], start, lh, latest, |lh|)
  {
    AfterLogWrites(latest, start, lh, latest, |lh|);
    AfterLogWrites(d, start, lh, latest, |lh|);
    hide Apply, LogWrites;
    assert start !in lh by {
      assert forall i :: 0 <= i < |lh| ==> IsHome(d, start, lh[i]);
    }
    forall b | 0 <= b < |d| && b !in lh && b != start
      ensures c1[b] == d1[b]
    {
      LogWritesAgree(d, latest, start, lh, b);
    }
  }

  lemma LogWritesAgree(d: Disk, latest: Disk, start: nat, lh: seq<nat>, b: nat)
    requires |d| == |latest| && b < |d| && latest[b] == d[b] && forall i :: 0 <= i < |lh| ==> lh[i] < |latest|
    ensures var ws := LogWrites(start, lh, latest, |lh|); Apply(latest, ws)[b] == Apply(d, ws)[b]
  {
    ApplyAt(latest, d, LogWrites(start, lh, latest, |lh|), b);
  }

  /** The writes of the four parts, in order, are CommitPlan. */
  lemma CommitComposes(d: Disk, latest: Disk, d2: Disk, c2: Disk, d3: Disk, c3: Disk, start: nat, lh: seq<nat>)
    requires Logging(d, start, lh, latest, 0) && lh != [] && |d2| == |c2| == |d|
    requires c2[start] == HeadImage(d[start], lh) && HomeBlocks(d2, start, lh)
    requires CleanOutside(c2, d2, lh) && LogHolds(c2, start, lh, latest, |lh|)
    requires InstalledSoFar(d3, c3, d2, c2, start, lh, |lh|)
    ensures c3 == d3 && |c3| == |d| && c3[start] == HeadImage(d[start], lh)
    ensures CommitPlan(d, start, lh, latest)
            == LogWrites(start, lh, latest, |lh|) + [Write(start, HeadImage(d[start], lh))]
               + InstallWrites(start, lh, c2, |lh|) + [Write(start, HeadImage(c3[start], []))]
  {
    InstalledIsClean(d3, c3, d2, c2, start, lh);
    AfterInstallWrites(c2, start, lh, c2, |lh|);
    hide Apply, InstallWrites, HeadImage, LogHolds;
    assert c3[start] == c2[start];
    CommitPlanInParts(d, start, lh, latest, c2);
    hide *;
  }

  lemma CommitStarts(d: Disk, start: nat, lh: seq<nat>, latest: Disk)
    requires ValidLog(d, start) && HeadCount(d, start) == 0 && |lh| <= LOGBLOCKS
    requires HomeBlocks(d, start, lh) && CleanOutside(latest, d, lh)
    ensures Logging(d, start, lh, latest, 0)
    ensures lh == [] ==> latest == d && CommitPlan(d, start, lh, latest) == []
  {
  }

  /** After the whole plan the disk is clean and holds the transaction. */
  lemma CommitDone(boot: Disk, issued: seq<Write>, d: Disk, start: nat, lh: seq<nat>, latest: Disk)
    requires d == Apply(boot, issued) && Logging(d, start, lh, latest, 0)
    ensures var e := Apply(boot, issued + CommitPlan(d, start, lh, latest));
            ValidLog(e, start) && HeadCount(e, start) == 0 && SameHome(e, latest, start)
  {
    var ws := CommitPlan(d, start, lh, latest);
    ApplyConcat(boot, issued, ws);
    assert ws[..|ws|] == ws;
    CommitIsAtomic(d, start, lh, latest, |ws|);
  }

  /** With a clean cache, installing keeps it clean and leaves the header alone. */
  lemma InstalledTwice(d: Disk, cached: Disk, was: Disk, start: nat, lh: seq<nat>)
    requires start + LOGBLOCKS < |was| && HomeBlocks(was, start, lh)
    requires InstalledSoFar(d, cached, was, was, start, lh, |lh|)
    ensures cached == d && |d| == |was| && d[start] == was[start]
  {
    AfterInstallWrites(was, start, lh, was, |lh|);
  }

  /** The writes of recover_from_log() leave an empty header and the recovered home blocks. */
  lemma RecoveryDone(boot: Disk, issued: seq<Write>, d: Disk, start: nat)
    requires d == Apply(boot, issued) && ValidLog(d, start)
    ensures start + LOGBLOCKS < |d| < UINT && d[start][0] <= LOGBLOCKS
    ensures var n := d[start][0];
            && HomeBlocks(d, start, d[start][1..n + 1])
            && RecoveryPlan(d, start) == InstallWrites(start, d[start][1..n + 1], d, n) +
                 [Write(start, HeadImage(d[start], []))]
    ensures var e := Apply(boot, issued + RecoveryPlan(d, start));
            ValidLog(e, start) && HeadCount(e, start) == 0 && SameHome(e, Recovered(d, start), start)
  {
    var ws := RecoveryPlan(d, start);
    RecoveryPlanInParts(d, start);
    ApplyConcat(boot, issued, ws);
    assert ws[..|ws|] == ws;
    RecoveryIsRedoable(d, start, |ws|);
    var lh := d[start][1..d[start][0] + 1];
    assert forall i :: 0 <= i < |lh| ==> lh[i] == HeadBlock(d, start, i);
  }

  class RedoLog {
    const start: nat
    ghost const boot: Disk        // the disk when the machine started
    ghost var issued: seq<Write>  // every bwrite since then
    var disk: Disk
    var cached: Disk              // what bread() returns for each block; a crash loses it
    var outstanding: nat
    var n: nat                    // log.lh.n
    const block: array<nat>       // log.lh.block

    ghost predicate Valid()
      reads this, block
    {
      && disk == Apply(boot, issued)
      && block.Length == LOGBLOCKS && n <= LOGBLOCKS
      && start + LOGBLOCKS < |disk| < UINT
      && HomeBlocks(disk, start, block[..n])
      && CleanOutside(cached, disk, block[..n])
    }

    /** Power-on: memory is empty, the disk is whatever the last crash left. */
    constructor (d: Disk, s: nat)
      requires s + LOGBLOCKS < |d| < UINT
      ensures Valid() && fresh(block)
      ensures start == s && boot == d && disk == d && issued == [] && n == 0 && outstanding == 0
    {
      start, boot, disk, issued, cached, n, outstanding := s, d, d, [], d, 0, 0;
      block := new nat[LOGBLOCKS](_ => 0);
    }

    /** bwrite() of a buffer holding `data`: buffer and disk agree afterwards. */
    method Bwrite(b: nat, data: Block)
      requires b < |disk| == |cached| && disk == Apply(boot, issued)
      modifies this`disk, this`cached, this`issued
      ensures disk == old(disk)[b := data] == Apply(boot, issued)
      ensures cached == old(cached)[b := data]
      ensures issued == old(issued) + [Write(b, data)]
    {
      ApplyAppend(boot, issued, Write(b, data));
      disk := disk[b := data];
      cached := cached[b := data];
      issued := issued + [Write(b, data)];
    }

    /** log_write() on a buffer whose new contents are `data`. */
    method LogWrite(b: nat, data: Block) returns (r: Outcome)
      requires Valid() && IsHome(disk, start, b)
      modifies this`cached, this`n, block
      ensures r == if old(n) >= LOGBLOCKS then TooBigATransaction
                   else if outstanding < 1 then OutsideOfTransaction else Logged
      ensures r != Logged ==> n == old(n) && block[..n] == old(block[..n]) && cached == old(cached)
      ensures r == Logged ==> Valid() && cached == old(cached)[b := data]
      ensures r == Logged ==> block[..n] == if b in old(block[..n]) then old(block[..n]) else old(block[..n]) + [b]
    {
      if n >= LOGBLOCKS {
        return TooBigATransaction;
      }
      if outstanding < 1 {
        return OutsideOfTransaction;
      }
      var i := 0;
      while i < n
        invariant 0 <= i <= n
        invariant b !in block[..i]
      {
        if block[i] == b {
          break;
        }
        i := i + 1;
      }
      ghost var was := block[..n];
      assert i < n ==> was[i] == b;
      block[i] := b;
      if i == n {
        n := n + 1;
      }
      assert block[..n] == if b in was then was else was + [b];
      cached := cached[b := data];
      return Logged;
    }

    /** The header image is built word by word in the buffer and written in one block write. */
    method WriteHead()
      requires block.Length == LOGBLOCKS && n <= LOGBLOCKS && start < |disk| == |cached| && disk == Apply(boot, issued)
      modifies this`disk, this`cached, this`issued
      ensures var image := HeadImage(old(cached[start]), block[..n]);
              && disk == old(disk)[start := image] == Apply(boot, issued)
              && cached == old(cached)[start := image]
              && issued == old(issued) + [Write(start, image)]
    {
      var hb := cached[start];
      ghost var was := hb;
      hb := hb[0 := n];
      var i := 0;
      while i < n
        invariant 0 <= i <= n
        invariant hb == [n] + block[..i] + was[i + 1..]
      {
        hb := hb[i + 1 := block[i]];
        i := i + 1;
      }
      Bwrite(start, hb);
    }

    /** read_head(): the in-memory header becomes the on-disk one. */
    method ReadHead()
      requires block.Length == LOGBLOCKS && start < |cached| && cached[start][0] <= LOGBLOCKS
      modifies this`n, block
      ensures n == cached[start][0] && block[..n] == cached[start][1..n + 1]
    {
      var hb := cached[start];
      n := hb[0];
      var i := 0;
      while i < n
        invariant 0 <= i <= n == hb[0]
        invariant block[..i] == hb[1..i + 1]
      {
        block[i] := hb[i + 1];
        i := i + 1;
      }
    }

    method WriteLog()
      requires Valid()
      modifies this`disk, this`cached, this`issued
      ensures LoggedSoFar(disk, cached, old(disk), old(cached), start, block[..n], n)
      ensures issued == old(issued) + LogWrites(start, block[..n], old(cached), n)
      ensures disk == Apply(boot, issued)
    {
      hide Apply, LogWrites, LoggedSoFar;
      ghost var lh := block[..n];
      var tail := 0;
      NothingDoneYet(disk, cached, start, lh);
      while tail < n
        invariant 0 <= tail <= n
        invariant LoggedSoFar(disk, cached, old(disk), old(cached), start, lh, tail)
        invariant issued == old(issued) + LogWrites(start, lh, old(cached), tail)
        invariant disk == Apply(boot, issued)
      {
        WriteLogStep(disk, cached, old(disk), old(cached), start, lh, tail);
        LogWritesStep(start, lh, old(cached), tail);
        Bwrite(start + tail + 1, cached[block[tail]]);
        tail := tail + 1;
      }
    }

    /** Copies the logged blocks home; the in-memory header comes from either caller. */
    method InstallTrans()
      requires start + LOGBLOCKS < |disk| == |cached| && disk == Apply(boot, issued)
      requires block.Length == LOGBLOCKS && n <= LOGBLOCKS && HomeBlocks(disk, start, block[..n])
      modifies this`disk, this`cached, this`issued
      ensures InstalledSoFar(disk, cached, old(disk), old(cached), start, block[..n], n)
      ensures issued == old(issued) + InstallWrites(start, block[..n], old(cached), n)
      ensures disk == Apply(boot, issued)
    {
      hide Apply, InstallWrites, InstalledSoFar;
      ghost var lh := block[..n];
      var tail := 0;
      NothingDoneYet(disk, cached, start, lh);
      while tail < n
        invariant 0 <= tail <= n
        invariant InstalledSoFar(disk, cached, old(disk), old(cached), start, lh, tail)
        invariant issued == old(issued) + InstallWrites(start, lh, old(cached), tail)
        invariant disk == Apply(boot, issued)
      {
        InstallTransStep(disk, cached, old(disk), old(cached), start, lh, tail);
        InstallWritesStep(start, lh, old(cached), tail);
        Bwrite(block[tail], cached[start + tail + 1]);
        tail := tail + 1;
      }
    }

    /** commit() issues exactly the writes of CommitPlan and leaves an empty log; cache and disk
        then agree on the contents that were cached before. */
    method Commit()
      requires Valid() && ValidLog(disk, start) && HeadCount(disk, start) == 0
      modifies this`disk, this`cached, this`issued, this`n
      ensures Logging(old(disk), start, old(block[..n]), old(cached), 0)
      ensures issued == old(issued) + CommitPlan(old(disk), start, old(block[..n]), old(cached))
      ensures Valid() && n == 0 && ValidLog(disk, start) && HeadCount(disk, start) == 0
      ensures cached == disk && SameHome(disk, old(cached), start)
    {
      hide Apply, LogWrites, InstallWrites, HeadImage, LogHolds, Logging, CommitPlan, SameHome;
      hide HomeBlocks, CleanOutside, LoggedSoFar, InstalledSoFar, ValidLog;
      ghost var d, lh, latest, was := disk, block[..n], cached, issued;
      CommitStarts(d, start, lh, latest);
      CommitDone(boot, was, d, start, lh, latest);
      if n > 0 {
        WriteLog();
        HeadWritten(d, latest, disk, cached, start, lh, HeadImage(d[start], lh));
        WriteHead();
        ghost var d2, c2 := disk, cached;
        InstallTrans();
        CommitComposes(d, latest, d2, c2, disk, cached, start, lh);
        n := 0;
        assert block[..n] == [];
        WriteHead();
        assert issued == was + CommitPlan(d, start, lh, latest);
        EmptyLogIsClean(disk, start);
      }
    }

    /** recover_from_log() on a freshly booted machine issues exactly RecoveryPlan. */
    method RecoverFromLog()
      requires Valid() && ValidLog(disk, start) && cached == disk
      modifies this`disk, this`cached, this`issued, this`n, block
      ensures issued == old(issued) + RecoveryPlan(old(disk), start)
      ensures Valid() && n == 0 && ValidLog(disk, start) && HeadCount(disk, start) == 0
      ensures cached == disk && SameHome(disk, Recovered(old(disk), start), start)
    {
      hide Apply, InstallWrites, HeadImage, SameHome, Recovered, RecoveryPlan;
      hide HomeBlocks, CleanOutside, InstalledSoFar, ValidLog;
      ghost var d, was := disk, issued;
      RecoveryDone(boot, was, d, start);
      ReadHead();
      ghost var lh := block[..n];
      InstallTrans();
      InstalledTwice(disk, cached, d, start, lh);
      n := 0;
      assert block[..n] == [];
      WriteHead();
      assert issued == was + RecoveryPlan(d, start);
      EmptyLogIsClean(disk, start);
    }
  }
}
