/**
 The redo log of kernel/log.c.  The disk is a sequence of blocks, every bwrite is one
 atomic ordered write, and a crash keeps exactly the writes done so far.  `CommitPlan` and
 `RecoveryPlan` are the write sequences that commit() and recover_from_log() are proved to
 issue; crash atomicity is a statement about every prefix of them.
 */
module Log {
  import opened Params

  type Disk = seq<Block>

  datatype Write = Write(bno: nat, data: Block)

  function Put(d: Disk, w: Write): (r: Disk)
    ensures |r| == |d|
  {
    if w.bno < |d| then d[w.bno := w.data] else d
  }

  /** The disk after the writes `ws`, first write first. */
  function Apply(d: Disk, ws: seq<Write>): (r: Disk)
    ensures |r| == |d|
  {
    if ws == [] then d else Put(Apply(d, ws[..|ws| - 1]), ws[|ws| - 1])
  }

  // The log occupies block `start` (header) and the LOGBLOCKS blocks after it.
  predicate InLog(start: nat, b: nat) {
    start <= b <= start + LOGBLOCKS
  }

  predicate IsHome(d: Disk, start: nat, b: nat) {
    b < |d| && !InLog(start, b)
  }

  function HeadCount(d: Disk, start: nat): nat
    requires start < |d|
  {
    d[start][0]
  }

  function HeadBlock(d: Disk, start: nat, i: nat): nat
    requires start < |d| && i < LOGBLOCKS
  {
    d[start][i + 1]
  }

  /** The log fits on the disk and the on-disk header lists only home blocks. */
  predicate ValidLog(d: Disk, start: nat) {
    && start + LOGBLOCKS < |d| < UINT
    && HeadCount(d, start) <= LOGBLOCKS
    && forall i :: 0 <= i < HeadCount(d, start) ==> IsHome(d, start, HeadBlock(d, start, i))
  }

  predicate SameHome(a: Disk, b: Disk, start: nat) {
    |a| == |b| && forall i :: 0 <= i < |a| && !InLog(start, i) ==> a[i] == b[i]
  }

  predicate SameLog(a: Disk, b: Disk, start: nat) {
    |a| == |b| && forall i :: 0 <= i < |a| && InLog(start, i) ==> a[i] == b[i]
  }

  /** The home blocks after installing the first k logged blocks, in order. */
  function Replay(d: Disk, start: nat, k: nat): (r: Disk)
    requires ValidLog(d, start) && k <= HeadCount(d, start)
    ensures SameLog(r, d, start)
  {
    if k == 0 then d else Replay(d, start, k - 1)[HeadBlock(d, start, k - 1) := d[start + k]]
  }

  /** What recovery makes of a disk that crashed: the header is the only judge. */
  function Recovered(d: Disk, start: nat): (r: Disk)
    requires ValidLog(d, start)
    ensures SameLog(r, d, start)
  {
    Replay(d, start, HeadCount(d, start))
  }

  lemma RecoveredIsReplay(d: Disk, start: nat)
    requires ValidLog(d, start)
    ensures Recovered(d, start) == Replay(d, start, HeadCount(d, start))
  {
  }

  // ---- The header block -------------------------------------------------------------

  /** hb->n = |lh|; hb->block[i] = lh[i] for i < |lh|; the rest of the block is untouched. */
  function HeadImage(was: Block, lh: seq<nat>): (r: Block)
    requires |lh| <= LOGBLOCKS
    ensures r[0] == |lh| && forall i :: 0 <= i < |lh| ==> r[i + 1] == lh[i]
  {
    [|lh|] + lh + was[|lh| + 1..]
  }

  // ---- Replay lemmas ----------------------------------------------------------------

  /** The last of the first k header entries that names block b, or -1. */
  function LastEntry(d: Disk, start: nat, k: nat, b: nat): (j: int)
    requires start < |d| && k <= LOGBLOCKS
    ensures -1 <= j < k
    ensures j >= 0 ==> HeadBlock(d, start, j) == b
    ensures forall i :: 0 <= i < k && HeadBlock(d, start, i) == b ==> i <= j
  {
    if k == 0 then -1
    else if HeadBlock(d, start, k - 1) == b then k - 1
    else LastEntry(d, start, k - 1, b)
  }

  /** A block named in the log ends up with the contents of its last log entry, any other
      block keeps what it had. */
  lemma {:induction false} ReplayAt(d: Disk, start: nat, k: nat, b: nat)
    requires ValidLog(d, start) && k <= HeadCount(d, start) && IsHome(d, start, b)
    ensures Replay(d, start, k)[b] ==
            var j := LastEntry(d, start, k, b); if j < 0 then d[b] else d[start + 1 + j]
  {
    if k > 0 {
      ReplayAt(d, start, k - 1, b);
    }
  }

  /** Two disks with the same log recover to the same home blocks, as long as they differ
      only on blocks that the log is going to overwrite. */
  lemma {:induction false} ReplayCongruent(a: Disk, d: Disk, start: nat, k: nat)
    requires ValidLog(a, start) && ValidLog(d, start) && SameLog(a, d, start)
    requires k <= HeadCount(a, start)
    requires forall b :: 0 <= b < |a| && !InLog(start, b) && a[b] != d[b] ==> LastEntry(a, start, k, b) >= 0
    ensures SameHome(Replay(a, start, k), Replay(d, start, k), start)
  {
    assert a[start] == d[start];
    forall b | 0 <= b < |a| && !InLog(start, b)
      ensures Replay(a, start, k)[b] == Replay(d, start, k)[b]
    {
      ReplayAt(a, start, k, b);
      ReplayAt(d, start, k, b);
      SameEntries(a, d, start, k, b);
    }
  }

  lemma {:induction false} SameEntries(a: Disk, d: Disk, start: nat, k: nat, b: nat)
    requires start < |a| && start < |d| && k <= LOGBLOCKS && a[start] == d[start]
    ensures LastEntry(a, start, k, b) == LastEntry(d, start, k, b)
  {
    if k > 0 {
      SameEntries(a, d, start, k - 1, b);
    }
  }

  // ---- The four phases of a commit, as predicates of the disk --------------------------

  /** A transaction: the blocks lh, whose latest contents are those of `latest`. */
  predicate ValidTransaction(d: Disk, start: nat, lh: seq<nat>, latest: Disk) {
    && |latest| == |d|
    && |lh| <= LOGBLOCKS
    && (forall i :: 0 <= i < |lh| ==> IsHome(d, start, lh[i]))
    && (forall b :: 0 <= b < |d| && !InLog(start, b) && b !in lh ==> latest[b] == d[b])
  }

  /** The header is empty and k blocks have been copied to the log. */
  predicate Logging(e: Disk, start: nat, lh: seq<nat>, latest: Disk, k: nat) {
    && ValidLog(e, start) && HeadCount(e, start) == 0
    && ValidTransaction(e, start, lh, latest)
    && k <= |lh|
    && forall i :: 0 <= i < k ==> e[start + 1 + i] == latest[lh[i]]
  }

  /** The header lists lh and k blocks have been installed. */
  predicate Installing(e: Disk, start: nat, lh: seq<nat>, latest: Disk, k: nat) {
    && ValidLog(e, start) && HeadCount(e, start) == |lh|
    && ValidTransaction(e, start, lh, latest)
    && k <= |lh|
    && (forall i :: 0 <= i < |lh| ==> HeadBlock(e, start, i) == lh[i] && e[start + 1 + i] == latest[lh[i]])
    && (forall i :: 0 <= i < k ==> e[lh[i]] == latest[lh[i]])
  }

  lemma LogStep(e: Disk, start: nat, lh: seq<nat>, latest: Disk, k: nat)
    requires Logging(e, start, lh, latest, k) && k < |lh|
    ensures var f := Put(e, Write(start + 1 + k, latest[lh[k]]));
            Logging(f, start, lh, latest, k + 1) && SameHome(f, e, start) && f[start] == e[start]
  {
  }

  lemma HeadStep(e: Disk, start: nat, lh: seq<nat>, latest: Disk)
    requires Logging(e, start, lh, latest, |lh|)
    ensures var f := Put(e, Write(start, HeadImage(e[start], lh)));
            Installing(f, start, lh, latest, 0) && SameHome(f, e, start) && f[start] == HeadImage(e[start], lh)
  {
    var f := Put(e, Write(start, HeadImage(e[start], lh)));
    assert forall i :: 0 <= i < |lh| ==> HeadBlock(f, start, i) == lh[i];
  }

  lemma InstallStep(e: Disk, start: nat, lh: seq<nat>, latest: Disk, k: nat)
    requires Installing(e, start, lh, latest, k) && k < |lh|
    ensures var f := Put(e, Write(lh[k], latest[lh[k]]));
            Installing(f, start, lh, latest, k + 1) && SameLog(f, e, start) && f[start] == e[start]
  {
    var f := Put(e, Write(lh[k], latest[lh[k]]));
    assert f[start] == e[start];
    assert forall i :: 0 <= i < |lh| ==> HeadBlock(f, start, i) == HeadBlock(e, start, i);
  }

  lemma EraseStep(e: Disk, start: nat, lh: seq<nat>, latest: Disk)
    requires Installing(e, start, lh, latest, |lh|)
    ensures var f := Put(e, Write(start, HeadImage(e[start], [])));
            ValidLog(f, start) && HeadCount(f, start) == 0 && SameHome(f, latest, start)
  {
  }

  /** An empty header means that the home blocks are what recovery returns. */
  lemma EmptyHeadRecovers(e: Disk, start: nat)
    requires ValidLog(e, start) && HeadCount(e, start) == 0
    ensures Recovered(e, start) == e
  {
  }

  /** Once the header is on disk, every partial installation recovers to `latest`. */
  lemma InstallingRecovers(e: Disk, start: nat, lh: seq<nat>, latest: Disk, k: nat)
    requires Installing(e, start, lh, latest, k)
    ensures SameHome(Recovered(e, start), latest, start)
  {
    forall b | 0 <= b < |e| && !InLog(start, b)
      ensures Recovered(e, start)[b] == latest[b]
    {
      ReplayAt(e, start, |lh|, b);
      var j := LastEntry(e, start, |lh|, b);
      if j < 0 {
        assert forall i :: 0 <= i < |lh| ==> HeadBlock(e, start, i) == lh[i] != b;
      }
    }
  }

  // ---- What commit() and recover_from_log() write, in order -----------------------------

  /** Write number k of commit(): copy to the log, write the header, install, erase. */
  function CommitWrite(d: Disk, start: nat, lh: seq<nat>, latest: Disk, k: nat): Write
    requires Logging(d, start, lh, latest, 0) && k < 2 * |lh| + 2
  {
    var n := |lh|;
    if k < n then Write(start + 1 + k, latest[lh[k]])
    else if k == n then Write(start, HeadImage(d[start], lh))
    else if k <= 2 * n then Write(lh[k - n - 1], latest[lh[k - n - 1]])
    else Write(start, HeadImage(HeadImage(d[start], lh), []))
  }

  function CommitPlan(d: Disk, start: nat, lh: seq<nat>, latest: Disk): (ws: seq<Write>)
    requires Logging(d, start, lh, latest, 0)
    ensures |ws| == if lh == [] then 0 else 2 * |lh| + 2
  {
    if lh == [] then []
    else seq(2 * |lh| + 2, k requires 0 <= k < 2 * |lh| + 2 => CommitWrite(d, start, lh, latest, k))
  }

  /** The first k writes of write_log(). */
  function LogWrites(start: nat, lh: seq<nat>, latest: Disk, k: nat): (ws: seq<Write>)
    requires k <= |lh| && forall i :: 0 <= i < k ==> lh[i] < |latest|
    ensures |ws| == k
  {
    if k == 0 then [] else LogWrites(start, lh, latest, k - 1) + [Write(start + k, latest[lh[k - 1]])]
  }

  /** The first k writes of install_trans(), when the log blocks hold those of `src`. */
  function InstallWrites(start: nat, lh: seq<nat>, src: Disk, k: nat): (ws: seq<Write>)
    requires k <= |lh| && start + |lh| < |src|
    ensures |ws| == k
  {
    if k == 0 then [] else InstallWrites(start, lh, src, k - 1) + [Write(lh[k - 1], src[start + k])]
  }

  lemma LogWritesStep(start: nat, lh: seq<nat>, latest: Disk, k: nat)
    requires k < |lh| && forall i :: 0 <= i <= k ==> lh[i] < |latest|
    ensures LogWrites(start, lh, latest, k + 1) == LogWrites(start, lh, latest, k) +
            [Write(start + k + 1, latest[lh[k]])]
  {
  }

  lemma {:induction false} LogWriteAt(start: nat, lh: seq<nat>, latest: Disk, k: nat, i: nat)
    requires i < k <= |lh| && forall i :: 0 <= i < k ==> lh[i] < |latest|
    ensures LogWrites(start, lh, latest, k)[i] == Write(start + 1 + i, latest[lh[i]])
  {
    if i < k - 1 {
      LogWriteAt(start, lh, latest, k - 1, i);
    }
  }

  lemma InstallWritesStep(start: nat, lh: seq<nat>, src: Disk, k: nat)
    requires k < |lh| && start + |lh| < |src|
    ensures InstallWrites(start, lh, src, k + 1) == InstallWrites(start, lh, src, k) +
            [Write(lh[k], src[start + 1 + k])]
  {
  }

  lemma {:induction false} InstallWriteAt(start: nat, lh: seq<nat>, src: Disk, k: nat, i: nat)
    requires i < k <= |lh| && start + |lh| < |src|
    ensures InstallWrites(start, lh, src, k)[i] == Write(lh[i], src[start + 1 + i])
  {
    if i < k - 1 {
      InstallWriteAt(start, lh, src, k - 1, i);
    }
  }

  lemma CommitPlanInParts(d: Disk, start: nat, lh: seq<nat>, latest: Disk, src: Disk)
    requires Logging(d, start, lh, latest, 0) && lh != []
    requires |src| == |d| && LogHolds(src, start, lh, latest, |lh|)
    ensures var head := HeadImage(d[start], lh);
            CommitPlan(d, start, lh, latest)
            == LogWrites(start, lh, latest, |lh|) + [Write(start, head)]
               + InstallWrites(start, lh, src, |lh|) + [Write(start, HeadImage(head, []))]
  {
    hide HeadImage, LogWrites, InstallWrites, CommitPlan;
    var head, n := HeadImage(d[start], lh), |lh|;
    var parts := LogWrites(start, lh, latest, n) + [Write(start, head)]
                 + InstallWrites(start, lh, src, n) + [Write(start, HeadImage(head, []))];
    forall k: nat | k < 2 * n + 2
      ensures parts[k] == CommitPlan(d, start, lh, latest)[k]
    {
      CommitPlanAt(d, start, lh, latest, src, k);
    }
  }

  lemma CommitPlanAt(d: Disk, start: nat, lh: seq<nat>, latest: Disk, src: Disk, k: nat)
    requires Logging(d, start, lh, latest, 0) && lh != [] && k < 2 * |lh| + 2
    requires |src| == |d| && LogHolds(src, start, lh, latest, |lh|)
    ensures var head, n := HeadImage(d[start], lh), |lh|;
            CommitPlan(d, start, lh, latest)[k]
            == if k < n then LogWrites(start, lh, latest, n)[k]
               else if k == n then Write(start, head)
               else if k <= 2 * n then InstallWrites(start, lh, src, n)[k - n - 1]
               else Write(start, HeadImage(head, []))
  {
    hide HeadImage, LogWrites, InstallWrites;
    var n := |lh|;
    if k < n {
      LogWriteAt(start, lh, latest, n, k);
    } else if n < k <= 2 * n {
      InstallWriteAt(start, lh, src, n, k - n - 1);
    }
  }

  lemma ApplyAppend(d: Disk, ws: seq<Write>, w: Write)
    ensures Apply(d, ws + [w]) == Put(Apply(d, ws), w)
  {
  }

  predicate LogHolds(e: Disk, start: nat, lh: seq<nat>, latest: Disk, k: nat) {
    && k <= |lh| && start + |lh| < |e|
    && forall i :: 0 <= i < k ==> lh[i] < |latest| && e[start + 1 + i] == latest[lh[i]]
  }

  lemma LogWriteStep(e: Disk, d: Disk, start: nat, lh: seq<nat>, latest: Disk, k: nat)
    requires start + LOGBLOCKS < |d| && 0 < k <= |lh| <= LOGBLOCKS && lh[k - 1] < |latest|
    requires SameHome(e, d, start) && e[start] == d[start] && LogHolds(e, start, lh, latest, k - 1)
    ensures var f := Put(e, Write(start + k, latest[lh[k - 1]]));
            SameHome(f, d, start) && f[start] == d[start] && LogHolds(f, start, lh, latest, k)
  {
  }

  /** Copying to the log leaves the home blocks and the header alone. */
  lemma {:induction false} AfterLogWrites(d: Disk, start: nat, lh: seq<nat>, latest: Disk, k: nat)
    requires start + LOGBLOCKS < |d| && k <= |lh| <= LOGBLOCKS && forall i :: 0 <= i < |lh| ==> lh[i] < |latest|
    ensures var e := Apply(d, LogWrites(start, lh, latest, k));
            SameHome(e, d, start) && e[start] == d[start] && LogHolds(e, start, lh, latest, k)
  {
    if k > 0 {
      hide SameHome, Put, LogHolds;
      AfterLogWrites(d, start, lh, latest, k - 1);
      var ws := LogWrites(start, lh, latest, k - 1);
      ApplyAppend(d, ws, Write(start + k, latest[lh[k - 1]]));
      hide Apply;
      LogWriteStep(Apply(d, ws), d, start, lh, latest, k);
    }
  }

  lemma ApplyNone(d: Disk)
    ensures Apply(d, []) == d
  {
  }

  /** A home block write leaves the log area alone. */
  lemma KeepsLog(e: Disk, d: Disk, start: nat, b: nat, data: Block)
    requires SameLog(e, d, start) && IsHome(d, start, b)
    ensures SameLog(Put(e, Write(b, data)), d, start)
  {
  }

  /** Installing leaves the log area alone. */
  lemma {:induction false} AfterInstallWrites(d: Disk, start: nat, lh: seq<nat>, src: Disk, k: nat)
    requires k <= |lh| && start + |lh| < |src| && forall i :: 0 <= i < |lh| ==> IsHome(d, start, lh[i])
    ensures SameLog(Apply(d, InstallWrites(start, lh, src, k)), d, start)
  {
    hide Apply;
    if k > 0 {
      AfterInstallWrites(d, start, lh, src, k - 1);
      var ws := InstallWrites(start, lh, src, k - 1);
      ApplyAppend(d, ws, Write(lh[k - 1], src[start + k]));
      KeepsLog(Apply(d, ws), d, start, lh[k - 1], src[start + k]);
    } else {
      ApplyNone(d);
    }
  }

  /** Two disks that differ only where `ws` writes are the same disk afterwards. */
  lemma {:induction false} ApplyErasesDifferences(a: Disk, d: Disk, ws: seq<Write>)
    requires |a| == |d|
    requires forall b :: 0 <= b < |a| && a[b] != d[b] ==> exists i :: 0 <= i < |ws| && ws[i].bno == b
    ensures Apply(a, ws) == Apply(d, ws)
  {
    forall b | 0 <= b < |a|
      ensures Apply(a, ws)[b] == Apply(d, ws)[b]
    {
      ApplyAt(a, d, ws, b);
    }
  }

  lemma {:induction false} ApplyAt(a: Disk, d: Disk, ws: seq<Write>, b: nat)
    requires |a| == |d| && b < |a|
    requires a[b] != d[b] ==> exists i :: 0 <= i < |ws| && ws[i].bno == b
    ensures Apply(a, ws)[b] == Apply(d, ws)[b]
  {
    if ws != [] && ws[|ws| - 1].bno != b {
      ApplyAt(a, d, ws[..|ws| - 1], b);
    }
  }

  lemma {:induction false} ApplyConcat(d: Disk, us: seq<Write>, ws: seq<Write>)
    ensures Apply(d, us + ws) == Apply(Apply(d, us), ws)
  {
    if ws == [] {
      assert us + ws == us;
    } else {
      ApplyConcat(d, us, ws[..|ws| - 1]);
      assert (us + ws)[..|us + ws| - 1] == us + ws[..|ws| - 1];
    }
  }

  lemma RecoveryPlanInParts(d: Disk, start: nat)
    requires ValidLog(d, start)
    ensures var n := HeadCount(d, start);
            RecoveryPlan(d, start) == InstallWrites(start, d[start][1..n + 1], d, n) +
              [Write(start, HeadImage(d[start], []))]
  {
    hide HeadImage;
    var n := HeadCount(d, start);
    var lh := d[start][1..n + 1];
    forall k | 0 <= k < n
      ensures InstallWrites(start, lh, d, n)[k] == RecoveryWrite(d, start, k)
    {
      InstallWriteAt(start, lh, d, n, k);
    }
  }

  /** Write number k of recover_from_log(): install what the header lists, then erase it. */
  function RecoveryWrite(d: Disk, start: nat, k: nat): Write
    requires ValidLog(d, start) && k <= HeadCount(d, start)
  {
    if k < HeadCount(d, start) then Write(HeadBlock(d, start, k), d[start + 1 + k])
    else Write(start, HeadImage(d[start], []))
  }

  function RecoveryPlan(d: Disk, start: nat): (ws: seq<Write>)
    requires ValidLog(d, start)
    ensures |ws| == HeadCount(d, start) + 1
  {
    seq(HeadCount(d, start) + 1, k requires 0 <= k <= HeadCount(d, start) => RecoveryWrite(d, start, k))
  }

  // ---- Crash atomicity -----------------------------------------------------------------

  lemma ApplyStep(d: Disk, ws: seq<Write>, k: nat)
    requires k < |ws|
    ensures Apply(d, ws[..k + 1]) == Put(Apply(d, ws[..k]), ws[k])
  {
    assert ws[..k + 1][..k] == ws[..k];
  }

  /** The phase the disk is in after the first k writes of a commit. */
  predicate CommitPhase(e: Disk, d: Disk, start: nat, lh: seq<nat>, latest: Disk, k: nat) {
    if k <= |lh| then Logging(e, start, lh, latest, k) && SameHome(e, d, start) && e[start] == d[start]
    else if k <= 2 * |lh| + 1 then
      Installing(e, start, lh, latest, k - |lh| - 1) && start < |d| && e[start] == HeadImage(d[start], lh)
    else ValidLog(e, start) && HeadCount(e, start) == 0 && SameHome(e, latest, start)
  }

  lemma PhaseStep(e: Disk, d: Disk, start: nat, lh: seq<nat>, latest: Disk, k: nat)
    requires Logging(d, start, lh, latest, 0) && CommitPhase(e, d, start, lh, latest, k)
    requires k < 2 * |lh| + 2
    ensures CommitPhase(Put(e, CommitWrite(d, start, lh, latest, k)), d, start, lh, latest, k + 1)
  {
    hide Installing, ValidTransaction;
    if k < |lh| {
      LogStep(e, start, lh, latest, k);
    } else if k == |lh| {
      HeadStep(e, start, lh, latest);
    } else if k <= 2 * |lh| {
      InstallStep(e, start, lh, latest, k - |lh| - 1);
    } else {
      EraseStep(e, start, lh, latest);
    }
  }

  lemma {:induction false} CommitPrefix(d: Disk, start: nat, lh: seq<nat>, latest: Disk, ws: seq<Write>, k: nat)
    requires Logging(d, start, lh, latest, 0)
    requires ws == CommitPlan(d, start, lh, latest) && k <= |ws|
    ensures CommitPhase(Apply(d, ws[..k]), d, start, lh, latest, k)
  {
    hide Installing, ValidTransaction, ValidLog, CommitWrite;
    if k == 0 {
      assert Apply(d, ws[..0]) == d;
    } else {
      CommitPrefix(d, start, lh, latest, ws, k - 1);
      var e := Apply(d, ws[..k - 1]);
      PhaseStep(e, d, start, lh, latest, k - 1);
      ApplyStep(d, ws, k - 1);
      assert Apply(d, ws[..k]) == Put(e, ws[k - 1]);
    }
  }

  /** A crash after any k writes of a commit recovers to the old state if the header write is
      not among them and to the new state if it is: never to a mix. */
  lemma CommitIsAtomic(d: Disk, start: nat, lh: seq<nat>, latest: Disk, k: nat)
    requires Logging(d, start, lh, latest, 0)
    requires k <= |CommitPlan(d, start, lh, latest)|
    ensures var e := Apply(d, CommitPlan(d, start, lh, latest)[..k]);
            && ValidLog(e, start)
            && SameHome(Recovered(e, start), if k <= |lh| then d else latest, start)
            && (k == |CommitPlan(d, start, lh, latest)| ==> HeadCount(e, start) == 0 && SameHome(e, latest, start))
  {
    CommitPrefix(d, start, lh, latest, CommitPlan(d, start, lh, latest), k);
    var e := Apply(d, CommitPlan(d, start, lh, latest)[..k]);
    if k <= |lh| {
      EmptyHeadRecovers(e, start);
    } else if k <= 2 * |lh| + 1 {
      InstallingRecovers(e, start, lh, latest, k - |lh| - 1);
    } else {
      EmptyHeadRecovers(e, start);
    }
  }

  lemma {:induction false} RecoveryPrefix(d: Disk, start: nat, k: nat)
    requires ValidLog(d, start) && k <= HeadCount(d, start)
    ensures Apply(d, RecoveryPlan(d, start)[..k]) == Replay(d, start, k)
  {
    hide ValidLog;
    if k > 0 {
      RecoveryPrefix(d, start, k - 1);
      ApplyStep(d, RecoveryPlan(d, start), k - 1);
    }
  }

  /** Replaying the whole log over a partial replay gives the same home blocks. */
  lemma ReplayIsRedoable(d: Disk, start: nat, k: nat)
    requires ValidLog(d, start) && k <= HeadCount(d, start)
    ensures ValidLog(Replay(d, start, k), start)
    ensures SameHome(Recovered(Replay(d, start, k), start), Recovered(d, start), start)
  {
    var e, n := Replay(d, start, k), HeadCount(d, start);
    assert e[start] == d[start];
    assert forall i :: 0 <= i < n ==> HeadBlock(e, start, i) == HeadBlock(d, start, i);
    forall b | 0 <= b < |d| && !InLog(start, b) && e[b] != d[b]
      ensures LastEntry(e, start, n, b) >= 0
    {
      ReplayAt(d, start, k, b);
      assert HeadBlock(e, start, LastEntry(d, start, k, b)) == b;
    }
    ReplayCongruent(e, d, start, n);
  }

  /** Recovery that is cut short after any k writes recovers, later, to the same home blocks. */
  lemma RecoveryIsRedoable(d: Disk, start: nat, k: nat)
    requires ValidLog(d, start) && k <= |RecoveryPlan(d, start)|
    ensures var e := Apply(d, RecoveryPlan(d, start)[..k]);
            && ValidLog(e, start)
            && SameHome(Recovered(e, start), Recovered(d, start), start)
            && (k == |RecoveryPlan(d, start)| ==> HeadCount(e, start) == 0 && SameHome(e, Recovered(d, start), start))
  {
    var ws, n := RecoveryPlan(d, start), HeadCount(d, start);
    RecoveryPrefix(d, start, if k <= n then k else n);
    if k <= n {
      hide ValidLog, SameHome, Recovered, RecoveryPlan;
      ReplayIsRedoable(d, start, k);
    } else {
      hide Recovered, Apply;
      ApplyStep(d, ws, n);
      var e := Apply(d, ws[..k]);
      assert e == Put(Replay(d, start, n), Write(start, HeadImage(d[start], [])));
      EmptyHeadRecovers(e, start);
      assert Replay(d, start, n) == Recovered(d, start) by { RecoveredIsReplay(d, start); }
    }
  }

  // ---- Every run of commits, crashes and reboots ----------------------------------------

  /** A transaction or a boot, of which only the first `writes` block writes happened before
      the machine stopped; all of them if it did not stop. */
  datatype Event =
    | Commit(lh: seq<nat>, latest: Disk, writes: nat)
    | Boot(writes: nat)

  /** `home` is the logical file system: it changes when a header write completes. */
  datatype System = System(disk: Disk, up: bool, home: Disk)

  predicate Enabled(s: System, start: nat, ev: Event) {
    match ev
    case Commit(lh, latest, k) =>
      s.up && Logging(s.disk, start, lh, latest, 0) && k <= |CommitPlan(s.disk, start, lh, latest)|
    case Boot(k) =>
      ValidLog(s.disk, start) && k <= |RecoveryPlan(s.disk, start)|
  }

  function Next(s: System, start: nat, ev: Event): System
    requires Enabled(s, start, ev)
  {
    match ev
    case Commit(lh, latest, k) =>
      var ws := CommitPlan(s.disk, start, lh, latest);
      System(Apply(s.disk, ws[..k]), k == |ws|, if k > |lh| then latest else s.home)
    case Boot(k) =>
      var ws := RecoveryPlan(s.disk, start);
      System(Apply(s.disk, ws[..k]), k == |ws|, s.home)
  }

  ghost predicate Run(s: System, start: nat, evs: seq<Event>, t: System)
    decreases |evs|
  {
    if evs == [] then s == t
    else Enabled(s, start, evs[0]) && Run(Next(s, start, evs[0]), start, evs[1..], t)
  }

  /** Recovery would yield exactly the logical file system, and a running system shows it. */
  predicate Consistent(s: System, start: nat) {
    && ValidLog(s.disk, start)
    && SameHome(Recovered(s.disk, start), s.home, start)
    && (s.up ==> HeadCount(s.disk, start) == 0 && SameHome(s.disk, s.home, start))
  }

  lemma NextConsistent(s: System, start: nat, ev: Event)
    requires Consistent(s, start) && Enabled(s, start, ev)
    ensures Consistent(Next(s, start, ev), start)
  {
    hide ValidLog;
    match ev
    case Commit(lh, latest, k) => {
      CommitIsAtomic(s.disk, start, lh, latest, k);
    }
    case Boot(k) => {
      RecoveryIsRedoable(s.disk, start, k);
    }
  }

  /** In every run, with crashes anywhere in commits and in any number of recoveries, what
      recovery yields is the state after the last transaction whose header was written. */
  lemma {:induction false} RunsAreCrashAtomic(s: System, start: nat, evs: seq<Event>, t: System)
    requires Consistent(s, start) && Run(s, start, evs, t)
    ensures Consistent(t, start)
    decreases |evs|
  {
    hide Enabled, Next, Consistent;
    if evs != [] {
      NextConsistent(s, start, evs[0]);
      RunsAreCrashAtomic(Next(s, start, evs[0]), start, evs[1..], t);
    }
  }
}
