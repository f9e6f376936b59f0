/**
 The buffer cache (kernel/bio.c) and the log (kernel/log.c) as one interleaved step system.
 Any number of threads read and modify buffers between begin_op and end_op, others only read,
 the last end_op commits while readers go on, and the machine may crash between any two steps.
 Each step is what the code does while it holds one lock or performs one block write.
 */
module CacheLog {
  import opened Params
  import opened Log

  type Tid = nat

  /** struct buf.  `users` are the threads counted in refcnt, `owner` holds the sleep-lock. */
  datatype Buf = Buf(dev: nat, blockno: nat, valid: bool, refcnt: nat, data: Block,
                     users: set<Tid>, owner: Option<Tid>)

  /** Where commit() stands.  A buffer index is that of the buffer filled but not yet written. */
  datatype Phase =
    | Open                            // no commit in progress
    | LogCopy(tail: nat)              // write_log, next block to copy; header next when all are done
    | LogWrite(tail: nat, b: nat)
    | HeadWrite(b: nat)
    | HomeCopy(tail: nat)             // install_trans; n = 0 next when all are done
    | HomeWrite(tail: nat, b: nat)
    | HomeUnpin(tail: nat)
    | EraseCopy
    | EraseWrite(b: nat)
    | Done                            // committing = 0 next
    | Recover(tail: nat)              // after a crash

  datatype State = State(
    disk: Disk,
    bufs: seq<Buf>,
    lh: seq<nat>,             // log.lh.block[0..n]
    outstanding: nat,
    committing: bool,
    phase: Phase,
    committer: Tid,
    // history
    ops: map<Tid, nat>,       // threads between begin_op and end_op, with the blocks each has added to lh
    dirty: set<nat>,          // buffers changed and neither logged nor written since
    pinned: set<nat>,         // blocks with a bpin not yet undone
    txn: seq<nat>,            // the blocks of the last header written
    latest: Disk,             // the contents last logged for each block
    committed: Disk)          // `latest` when the last header write completed

  datatype Step =
    | BeginOp(t: Tid)
    | EndOp(t: Tid)
    | BgetHit(t: Tid, b: nat)
    | BgetMiss(t: Tid, b: nat, blockno: nat)
    | Lock(t: Tid, b: nat)
    | Fill(t: Tid, b: nat)
    | Modify(t: Tid, b: nat, data: Block)
    | LogBuf(t: Tid, b: nat)
    | Unlock(t: Tid, b: nat)
    | Unref(t: Tid, b: nat)
    | CopyLog(to: nat, from: nat)
    | WriteLog
    | CopyHead(b: nat)
    | WriteHead
    | CopyHome(lbuf: nat, dbuf: nat)
    | WriteHome
    | Unpin(b: nat)
    | ResetCount
    | CopyErase(b: nat)
    | WriteErase
    | Finish
    | Crash
    | RecoverBlock
    | RecoverDone

  predicate Caches(bufs: seq<Buf>, b: nat, blockno: nat) {
    b < |bufs| && bufs[b].dev == 1 && bufs[b].blockno == blockno
  }

  predicate Holds(s: State, t: Tid, b: nat) {
    b < |s.bufs| && s.bufs[b].owner == Some(t)
  }

  /** The committing thread has read this block: the buffer is locked and valid. */
  predicate Ready(s: State, b: nat, blockno: nat) {
    Caches(s.bufs, b, blockno) && Holds(s, s.committer, b) && s.bufs[b].valid
  }

  /** log_write would panic with "too big a transaction". */
  predicate LogFull(s: State) {
    |s.lh| >= LOGBLOCKS
  }

  predicate Enabled(s: State, start: nat, step: Step) {
    if s.phase.Recover? then
      match step
      case Crash => true
      case RecoverBlock => ValidLog(s.disk, start) && s.phase.tail < HeadCount(s.disk, start)
      case RecoverDone => ValidLog(s.disk, start) && s.phase.tail >= HeadCount(s.disk, start)
      case _ => false
    else
      match step
      case BeginOp(t) =>
        t !in s.ops && !s.committing && |s.lh| + (s.outstanding + 1) * MAXOPBLOCKS <= LOGBLOCKS
      case EndOp(t) => t in s.ops && s.outstanding > 0 && forall b :: Holds(s, t, b) ==> b !in s.dirty
      case BgetHit(t, b) => b < |s.bufs| && s.bufs[b].dev == 1 && t !in s.bufs[b].users
      case BgetMiss(t, b, bno) =>
        && b < |s.bufs| && s.bufs[b].refcnt == 0 && bno < |s.disk|
        && forall c :: 0 <= c < |s.bufs| ==> !Caches(s.bufs, c, bno)
      case Lock(t, b) => b < |s.bufs| && t in s.bufs[b].users && s.bufs[b].owner == None
      case Fill(t, b) => Holds(s, t, b) && !s.bufs[b].valid && s.bufs[b].dev == 1 && s.bufs[b].blockno < |s.disk|
      case Modify(t, b, _) =>
        Holds(s, t, b) && s.bufs[b].valid && t in s.ops && !InLog(start, s.bufs[b].blockno)
      case LogBuf(t, b) =>
        // A client logs what it changed, and adds at most MAXOPBLOCKS blocks.
        && Holds(s, t, b) && s.bufs[b].valid && t in s.ops && !InLog(start, s.bufs[b].blockno)
        && !LogFull(s) && (s.bufs[b].blockno in s.lh || s.ops[t] < MAXOPBLOCKS)
        && s.bufs[b].blockno < |s.latest|
      case Unlock(t, b) => Holds(s, t, b) && b !in s.dirty
      case Unref(t, b) => b < |s.bufs| && t in s.bufs[b].users && s.bufs[b].owner != Some(t) && s.bufs[b].refcnt > 0
      case CopyLog(to, from) =>
        && s.phase.LogCopy? && s.phase.tail < |s.lh|
        && Ready(s, to, start + 1 + s.phase.tail) && Ready(s, from, s.lh[s.phase.tail])
      case WriteLog => s.phase.LogWrite? && s.phase.b < |s.bufs| && start + 1 + s.phase.tail < |s.disk|
      case CopyHead(b) => s.phase.LogCopy? && s.phase.tail == |s.lh| <= LOGBLOCKS && Ready(s, b, start)
      case WriteHead => s.phase.HeadWrite? && s.phase.b < |s.bufs| && start < |s.disk|
      case CopyHome(lbuf, dbuf) =>
        && s.phase.HomeCopy? && s.phase.tail < |s.lh|
        && Ready(s, lbuf, start + 1 + s.phase.tail) && Ready(s, dbuf, s.lh[s.phase.tail])
      case WriteHome => s.phase.HomeWrite? && s.phase.b < |s.bufs| && s.phase.tail < |s.lh| &&
        s.lh[s.phase.tail] < |s.disk|
      case Unpin(b) => s.phase.HomeUnpin? && s.phase.tail < |s.lh| && Ready(s, b, s.lh[s.phase.tail]) &&
        s.bufs[b].refcnt > 0
      case ResetCount => s.phase.HomeCopy? && s.phase.tail == |s.lh|
      case CopyErase(b) => s.phase.EraseCopy? && Ready(s, b, start)
      case WriteErase => s.phase.EraseWrite? && s.phase.b < |s.bufs| && start < |s.disk|
      case Finish => s.phase.Done?
      case Crash => true
      case RecoverBlock => false
      case RecoverDone => false
  }

  function Powered(n: nat): seq<Buf> {
    seq(n, _ => Buf(0, 0, false, 0, seq(WORDS, _ => 0), {}, None))
  }

  function Next(s: State, start: nat, step: Step): State
    requires Enabled(s, start, step)
  {
    match step
    case BeginOp(t) => s.(ops := s.ops[t := 0], outstanding := s.outstanding + 1)
    case EndOp(t) =>
      var e := s.(ops := s.ops - {t}, outstanding := s.outstanding - 1);
      if e.outstanding == 0 then e.(committing := true, committer := t, phase := if s.lh == [] then Done
        else LogCopy(0)) else e
    case BgetHit(t, b) =>
      var u := s.bufs[b];
      s.(bufs := s.bufs[b := u.(refcnt := u.refcnt + 1, users := u.users + {t})])
    case BgetMiss(t, b, bno) =>
      s.(bufs := s.bufs[b := Buf(1, bno, false, 1, s.bufs[b].data, {t}, s.bufs[b].owner)])
    case Lock(t, b) => s.(bufs := s.bufs[b := s.bufs[b].(owner := Some(t))])
    case Fill(t, b) => s.(bufs := s.bufs[b := s.bufs[b].(data := s.disk[s.bufs[b].blockno], valid := true)])
    case Modify(t, b, data) => s.(bufs := s.bufs[b := s.bufs[b].(data := data)], dirty := s.dirty + {b})
    case LogBuf(t, b) =>
      var u := s.bufs[b];
      var e := s.(dirty := s.dirty - {b}, latest := s.latest[u.blockno := u.data]);
      if u.blockno in s.lh then e
      else e.(lh := s.lh + [u.blockno], pinned := s.pinned + {u.blockno}, ops := s.ops[t := s.ops[t] + 1],
              bufs := s.bufs[b := u.(refcnt := u.refcnt + 1)])
    case Unlock(t, b) => s.(bufs := s.bufs[b := s.bufs[b].(owner := None)])
    case Unref(t, b) =>
      var u := s.bufs[b];
      s.(bufs := s.bufs[b := u.(refcnt := u.refcnt - 1, users := u.users - {t})])
    case CopyLog(to, from) =>
      s.(bufs := s.bufs[to := s.bufs[to].(data := s.bufs[from].data)], dirty := s.dirty + {to},
         phase := LogWrite(s.phase.tail, to))
    case WriteLog =>
      s.(disk := s.disk[start + 1 + s.phase.tail := s.bufs[s.phase.b].data], dirty := s.dirty - {s.phase.b},
         phase := LogCopy(s.phase.tail + 1))
    case CopyHead(b) =>
      s.(bufs := s.bufs[b := s.bufs[b].(data := HeadImage(s.bufs[b].data, s.lh))], dirty := s.dirty + {b},
         phase := HeadWrite(b))
    case WriteHead =>
      s.(disk := s.disk[start := s.bufs[s.phase.b].data], dirty := s.dirty - {s.phase.b}, phase := HomeCopy(0),
         txn := s.lh, committed := s.latest)
    case CopyHome(lbuf, dbuf) =>
      s.(bufs := s.bufs[dbuf := s.bufs[dbuf].(data := s.bufs[lbuf].data)], dirty := s.dirty + {dbuf},
         phase := HomeWrite(s.phase.tail, dbuf))
    case WriteHome =>
      s.(disk := s.disk[s.lh[s.phase.tail] := s.bufs[s.phase.b].data], dirty := s.dirty - {s.phase.b},
         phase := HomeUnpin(s.phase.tail))
    case Unpin(b) =>
      s.(bufs := s.bufs[b := s.bufs[b].(refcnt := s.bufs[b].refcnt - 1)], pinned := s.pinned - {s.lh[s.phase.tail]},
         phase := HomeCopy(s.phase.tail + 1))
    case ResetCount => s.(lh := [], phase := EraseCopy)
    case CopyErase(b) =>
      s.(bufs := s.bufs[b := s.bufs[b].(data := HeadImage(s.bufs[b].data, []))], dirty := s.dirty + {b},
         phase := EraseWrite(b))
    case WriteErase =>
      s.(disk := s.disk[start := s.bufs[s.phase.b].data], dirty := s.dirty - {s.phase.b}, phase := Done)
    case Finish => s.(committing := false, phase := Open)
    case Crash =>
      State(s.disk, Powered(|s.bufs|), [], 0, false, Recover(0), 0, map[], {}, {}, s.txn, s.committed, s.committed)
    case RecoverBlock =>
      s.(disk := Put(s.disk, Log.Write(HeadBlock(s.disk, start, s.phase.tail), s.disk[start + 1 + s.phase.tail])),
         phase := Recover(s.phase.tail + 1))
    case RecoverDone =>
      s.(disk := s.disk[start := HeadImage(s.disk[start], [])], phase := Open)
  }

  // ---- The invariant -----------------------------------------------------------------

  function Elems(q: seq<nat>): set<nat> {
    set x | x in q
  }

  predicate Distinct(q: seq<nat>) {
    forall i, j :: 0 <= i < j < |q| ==> q[i] != q[j]
  }

  predicate Sized(s: State, start: nat) {
    ValidLog(s.disk, start) && |s.latest| == |s.committed| == |s.disk|
  }

  /** A buffer that bget never assigned is not valid and not in use. */
  predicate Assigned(bufs: seq<Buf>, size: nat) {
    forall b :: 0 <= b < |bufs| ==>
      if bufs[b].dev == 1 then bufs[b].blockno < size
      else bufs[b].dev == 0 && !bufs[b].valid && bufs[b].users == {}
  }

  /** At most one buffer per block. */
  predicate Unique(bufs: seq<Buf>) {
    forall b, c :: 0 <= b < c < |bufs| && bufs[b].dev == 1 && bufs[c].dev == 1 ==> bufs[b].blockno != bufs[c].blockno
  }

  function Pin(pinned: set<nat>, u: Buf): nat {
    if u.dev == 1 && u.blockno in pinned then 1 else 0
  }

  /** refcnt counts the users and the pin, and only a user holds the lock. */
  predicate Counted(bufs: seq<Buf>, pinned: set<nat>) {
    forall b :: 0 <= b < |bufs| ==>
      && bufs[b].refcnt == |bufs[b].users| + Pin(pinned, bufs[b])
      && (bufs[b].owner.Some? ==> bufs[b].owner.value in bufs[b].users)
  }

  /** The logical contents of block b. */
  function View(disk: Disk, latest: Disk, start: nat, b: nat): Block
    requires b < |disk| == |latest|
  {
    if InLog(start, b) then disk[b] else latest[b]
  }

  /** A buffer nobody is changing shows the logical contents of its block. */
  predicate Shows(bufs: seq<Buf>, dirty: set<nat>, disk: Disk, latest: Disk, start: nat) {
    |disk| == |latest| &&
    forall b :: 0 <= b < |bufs| && bufs[b].valid && b !in dirty
                ==> bufs[b].blockno < |disk| && bufs[b].data == View(disk, latest, start, bufs[b].blockno)
  }

  /** A block that is not pinned has its logical contents on disk. */
  predicate Clean(disk: Disk, latest: Disk, pinned: set<nat>, start: nat) {
    |disk| == |latest| &&
    forall n :: 0 <= n < |disk| && !InLog(start, n) && n !in pinned ==> latest[n] == disk[n]
  }

  ghost predicate Cached(bufs: seq<Buf>, n: nat) {
    exists b: nat :: Caches(bufs, b, n) && bufs[b].valid
  }

  ghost predicate PinsCached(bufs: seq<Buf>, pinned: set<nat>, size: nat, start: nat) {
    forall n :: n in pinned ==> n < size && !InLog(start, n) && Cached(bufs, n)
  }

  function InFlight(p: Phase): Option<nat> {
    match p
    case LogWrite(_, b) => Some(b)
    case HeadWrite(b) => Some(b)
    case HomeWrite(_, b) => Some(b)
    case EraseWrite(b) => Some(b)
    case _ => None
  }

  /** A changed buffer is locked by an operation, or by the commit that is about to write it. */
  predicate DirtyIsLocked(bufs: seq<Buf>, dirty: set<nat>, ops: map<Tid, nat>, flight: Option<nat>) {
    forall b :: b in dirty ==>
      && b < |bufs| && bufs[b].valid && bufs[b].owner.Some?
      && (bufs[b].owner.value in ops || flight == Some(b))
  }

  predicate Operations(s: State) {
    && s.outstanding == |s.ops|
    && s.committing == (!s.phase.Open? && !s.phase.Recover?)
    && (!s.phase.Open? ==> s.ops == map[])
    && Distinct(s.lh) && |s.lh| <= LOGBLOCKS
  }

  /** The committer's buffer holds what is about to be written to block n. */
  predicate Filled(s: State, b: nat, n: nat, data: Block) {
    Ready(s, b, n) && b in s.dirty && s.bufs[b].data == data
  }

  /** How far the disk has got, for each phase. */
  predicate Progress(s: State, start: nat)
    requires Sized(s, start)
  {
    match s.phase
    case Open => HeadCount(s.disk, start) == 0 && s.pinned == Elems(s.lh) && SameHome(s.disk, s.committed, start)
    case LogCopy(i) =>
      Logging(s.disk, start, s.lh, s.latest, i) && s.pinned == Elems(s.lh) && SameHome(s.disk, s.committed, start)
    case LogWrite(i, b) =>
      && Logging(s.disk, start, s.lh, s.latest, i) && s.pinned == Elems(s.lh) && SameHome(s.disk, s.committed, start)
      && i < |s.lh| && Filled(s, b, start + 1 + i, s.latest[s.lh[i]])
    case HeadWrite(b) =>
      && Logging(s.disk, start, s.lh, s.latest, |s.lh|) && s.pinned == Elems(s.lh) &&
           SameHome(s.disk, s.committed, start)
      && Filled(s, b, start, HeadImage(s.disk[start], s.lh))
    case HomeCopy(i) =>
      Installing(s.disk, start, s.lh, s.latest, i) && s.pinned == Elems(s.lh[i..]) && s.committed == s.latest &&
        s.txn == s.lh
    case HomeWrite(i, b) =>
      && Installing(s.disk, start, s.lh, s.latest, i) && s.pinned == Elems(s.lh[i..]) && s.committed == s.latest &&
           s.txn == s.lh
      && i < |s.lh| && Filled(s, b, s.lh[i], s.latest[s.lh[i]])
    case HomeUnpin(i) =>
      && i < |s.lh| && Installing(s.disk, start, s.lh, s.latest, i + 1) && s.pinned == Elems(s.lh[i..])
      && s.committed == s.latest && s.txn == s.lh
    case EraseCopy =>
      Installing(s.disk, start, s.txn, s.latest, |s.txn|) && s.lh == [] && s.pinned == {} && s.committed == s.latest
    case EraseWrite(b) =>
      && Installing(s.disk, start, s.txn, s.latest, |s.txn|) && s.lh == [] && s.pinned == {} && s.committed == s.latest
      && Filled(s, b, start, HeadImage(s.disk[start], []))
    case Done => HeadCount(s.disk, start) == 0 && s.lh == [] && s.pinned == {} && SameHome(s.disk, s.committed, start)
    case Recover(i) =>
      && s.lh == [] && s.pinned == {} && s.latest == s.committed
      && (forall b :: 0 <= b < |s.bufs| ==> !s.bufs[b].valid)
      && (if HeadCount(s.disk, start) == 0 then i == 0 && SameHome(s.disk, s.committed, start)
          else Installing(s.disk, start, s.txn, s.committed, i))
  }

  ghost predicate Inv(s: State, start: nat) {
    && Sized(s, start)
    && Assigned(s.bufs, |s.disk|) && Unique(s.bufs) && Counted(s.bufs, s.pinned)
    && Shows(s.bufs, s.dirty, s.disk, s.latest, start)
    && (!s.phase.Recover? ==> Clean(s.disk, s.latest, s.pinned, start))
    && PinsCached(s.bufs, s.pinned, |s.disk|, start)
    && DirtyIsLocked(s.bufs, s.dirty, s.ops, InFlight(s.phase))
    && Operations(s) && Progress(s, start)
  }

  // ---- Preservation ------------------------------------------------------------------

  /** The same buffer, as far as the commit that filled it is concerned. */
  predicate SameFilling(u: Buf, v: Buf) {
    u.dev == v.dev && u.blockno == v.blockno && u.valid == v.valid && u.data == v.data && u.owner == v.owner
  }

  lemma ProgressFrame(s: State, e: State, start: nat)
    requires Sized(s, start) && Sized(e, start) && Progress(s, start)
    requires e.disk == s.disk && e.lh == s.lh && e.latest == s.latest && e.committed == s.committed && e.txn == s.txn
    requires e.phase == s.phase && e.pinned == s.pinned && e.committer == s.committer
    requires |e.bufs| == |s.bufs| && !s.phase.Recover?
    requires forall b :: 0 <= b < |s.bufs| && InFlight(s.phase) == Some(b) && b in s.dirty
               ==> b in e.dirty && SameFilling(s.bufs[b], e.bufs[b])
    ensures Progress(e, start)
  {
    hide Sized, Logging, Installing, SameHome, HeadImage;
  }

  /** Pinned blocks stay cached when buffers keep their blocks and stay valid. */
  lemma SameCaches(s: seq<Buf>, e: seq<Buf>, pinned: set<nat>, size: nat, start: nat)
    requires PinsCached(s, pinned, size, start) && |e| == |s|
    requires forall b :: 0 <= b < |s| && s[b].dev == 1 && s[b].blockno in pinned && s[b].valid ==>
               e[b].dev == 1 && e[b].blockno == s[b].blockno && e[b].valid
    ensures PinsCached(e, pinned, size, start)
  {
    forall n | n in pinned
      ensures Cached(e, n)
    {
      var c: nat :| Caches(s, c, n) && s[c].valid;
      assert Caches(e, c, n) && e[c].valid;
    }
  }

  /** A new value for a buffer that stays with its block. */
  ghost predicate KeepsBlock(s: State, b: nat, v: Buf) {
    && b < |s.bufs| && v.dev == s.bufs[b].dev && v.blockno == s.bufs[b].blockno && (s.bufs[b].valid ==> v.valid)
    && (v.dev != 1 ==> !v.valid && v.users == {})
    && v.refcnt == |v.users| + Pin(s.pinned, v) && (v.owner.Some? ==> v.owner.value in v.users)
    && (b in s.dirty ==> SameFilling(s.bufs[b], v))
  }

  /** A step that changes one buffer without giving it to another block. */
  lemma UpdateBuf(s: State, start: nat, b: nat, v: Buf)
    requires Inv(s, start) && KeepsBlock(s, b, v) && !s.phase.Recover?
    requires v.valid && b !in s.dirty ==>
               v.blockno < |s.disk| == |s.latest| && v.data == View(s.disk, s.latest, start, v.blockno)
    ensures Inv(s.(bufs := s.bufs[b := v]), start)
  {
    hide ValidLog, Clean, Unique, Assigned, Counted;
    var e := s.(bufs := s.bufs[b := v]);
    KeepsCounts(s.bufs, s.pinned, |s.disk|, b, v);
    SameCaches(s.bufs, e.bufs, s.pinned, |s.disk|, start);
    hide PinsCached;
    ProgressFrame(s, e, start);
    hide Progress;
  }

  lemma KeepsCounts(bufs: seq<Buf>, pinned: set<nat>, size: nat, b: nat, v: Buf)
    requires Assigned(bufs, size) && Unique(bufs) && Counted(bufs, pinned)
    requires b < |bufs| && v.dev == bufs[b].dev && v.blockno == bufs[b].blockno &&
             (v.dev != 1 ==> !v.valid && v.users == {})
    requires v.refcnt == |v.users| + Pin(pinned, v) && (v.owner.Some? ==> v.owner.value in v.users)
    ensures Assigned(bufs[b := v], size) && Unique(bufs[b := v]) && Counted(bufs[b := v], pinned)
  {
  }

  /** Every step on one buffer of bget, acquiresleep and brelse. */
  lemma CacheSteps(s: State, start: nat, step: Step)
    requires Inv(s, start) && Enabled(s, start, step)
    requires step.BgetHit? || step.Lock? || step.Unlock? || step.Unref?
    ensures Inv(Next(s, start, step), start)
  {
    hide Progress, Unique, ValidLog, PinsCached, Clean;
    UpdateBuf(s, start, step.b, Next(s, start, step).bufs[step.b]);
  }

  /** The buffer of a pinned block is the one that was pinned: it is valid. */
  lemma PinnedIsValid(bufs: seq<Buf>, pinned: set<nat>, size: nat, start: nat, b: nat)
    requires PinsCached(bufs, pinned, size, start) && Unique(bufs)
    requires b < |bufs| && bufs[b].dev == 1 && bufs[b].blockno in pinned
    ensures bufs[b].valid
  {
    var c: nat :| Caches(bufs, c, bufs[b].blockno) && bufs[c].valid;
  }

  /** A block is read from disk only when the disk has its logical contents. */
  lemma FillStep(s: State, start: nat, t: Tid, b: nat)
    requires Inv(s, start) && Enabled(s, start, Fill(t, b))
    ensures Inv(Next(s, start, Fill(t, b)), start)
  {
    hide Progress, ValidLog, Unique, PinsCached;
    var u := s.bufs[b];
    if u.blockno in s.pinned {
      PinnedIsValid(s.bufs, s.pinned, |s.disk|, start, b);
      assert false;
    }
    UpdateBuf(s, start, b, u.(data := s.disk[u.blockno], valid := true));
  }

  lemma PinnedIsCached(bufs: seq<Buf>, pinned: set<nat>, size: nat, start: nat, n: nat)
    requires PinsCached(bufs, pinned, size, start) && n in pinned
    ensures exists c :: 0 <= c < |bufs| && Caches(bufs, c, n)
  {
    var c: nat :| Caches(bufs, c, n) && bufs[c].valid;
  }

  lemma UniqueAfterMiss(bufs: seq<Buf>, b: nat, v: Buf)
    requires Unique(bufs) && b < |bufs| && forall c :: 0 <= c < |bufs| ==> !Caches(bufs, c, v.blockno)
    ensures Unique(bufs[b := v])
  {
    assert forall c ::
             0 <= c < |bufs| && bufs[c].dev == 1 && bufs[c].blockno == v.blockno ==> Caches(bufs, c, v.blockno);
  }

  /** Recycling takes a buffer that nobody uses and that no logged block is pinned in. */
  lemma BgetMissStep(s: State, start: nat, t: Tid, b: nat, bno: nat)
    requires Inv(s, start) && Enabled(s, start, BgetMiss(t, b, bno))
    ensures Inv(Next(s, start, BgetMiss(t, b, bno)), start)
  {
    hide ValidLog, PinsCached, Clean, Unique;
    var e := Next(s, start, BgetMiss(t, b, bno));
    assert b !in s.dirty && s.bufs[b].owner == None && s.bufs[b].users == {};
    SameCaches(s.bufs, e.bufs, s.pinned, |s.disk|, start);
    ProgressFrame(s, e, start);
    hide Progress;
    UniqueAfterMiss(s.bufs, b, e.bufs[b]);
    if bno in s.pinned {
      PinnedIsCached(s.bufs, s.pinned, |s.disk|, start, bno);
      assert false;
    }
  }

  // ---- Client operations

  lemma ModifyStep(s: State, start: nat, t: Tid, b: nat, data: Block)
    requires Inv(s, start) && Enabled(s, start, Modify(t, b, data))
    ensures Inv(Next(s, start, Modify(t, b, data)), start)
  {
    hide ValidLog, Clean, Unique;
    var e := Next(s, start, Modify(t, b, data));
    KeepsCounts(s.bufs, s.pinned, |s.disk|, b, e.bufs[b]);
    hide Counted;
    SameCaches(s.bufs, e.bufs, s.pinned, |s.disk|, start);
    hide PinsCached;
    assert s.phase.Open?;
    ProgressFrame(s, e, start);
    hide Progress;
  }

  /** Pinning a block counts one reference in its buffer and in no other. */
  lemma PinCounts(bufs: seq<Buf>, pinned: set<nat>, size: nat, b: nat)
    requires Assigned(bufs, size) && Unique(bufs) && Counted(bufs, pinned)
    requires b < |bufs| && bufs[b].dev == 1 && bufs[b].blockno !in pinned
    ensures var e := bufs[b := bufs[b].(refcnt := bufs[b].refcnt + 1)];
            Assigned(e, size) && Unique(e) && Counted(e, pinned + {bufs[b].blockno})
  {
  }

  /** After log_write the buffer shows what is now the logical contents, all others still do. */
  lemma LogShows(bufs: seq<Buf>, dirty: set<nat>, disk: Disk, latest: Disk, start: nat, b: nat, size: nat)
    requires Shows(bufs, dirty, disk, latest, start) && Unique(bufs) && Assigned(bufs, size) && |disk| == size
    requires b < |bufs| && bufs[b].dev == 1 && !InLog(start, bufs[b].blockno)
    ensures Shows(bufs, dirty - {b}, disk, latest[bufs[b].blockno := bufs[b].data], start)
  {
  }

  lemma ShowsIgnoresCounts(s: seq<Buf>, e: seq<Buf>, dirty: set<nat>, disk: Disk, latest: Disk, start: nat)
    requires Shows(s, dirty, disk, latest, start) && |e| == |s|
    requires forall b ::
               0 <= b < |s| ==> e[b].valid == s[b].valid && e[b].blockno == s[b].blockno && e[b].data == s[b].data
    ensures Shows(e, dirty, disk, latest, start)
  {
  }

  lemma LogAbsorbed(s: State, start: nat, t: Tid, b: nat)
    requires Inv(s, start) && s.phase.Open?
    requires Holds(s, t, b) && s.bufs[b].valid && !InLog(start, s.bufs[b].blockno) && s.bufs[b].blockno in s.lh
    ensures s.bufs[b].blockno < |s.latest|
    ensures Inv(s.(dirty := s.dirty - {b}, latest := s.latest[s.bufs[b].blockno := s.bufs[b].data]), start)
  {
    hide ValidLog, Unique, Counted, PinsCached;
    LogShows(s.bufs, s.dirty, s.disk, s.latest, start, b, |s.disk|);
  }

  lemma LogAppended(s: State, start: nat, t: Tid, b: nat)
    requires Inv(s, start) && s.phase.Open? && |s.lh| < LOGBLOCKS && t in s.ops
    requires Holds(s, t, b) && s.bufs[b].valid && !InLog(start, s.bufs[b].blockno) && s.bufs[b].blockno !in s.lh
    requires s.bufs[b].blockno < |s.latest|
    ensures var n := s.bufs[b].blockno;
            Inv(s.(lh := s.lh + [n], pinned := s.pinned + {n}, ops := s.ops[t := s.ops[t] + 1], dirty := s.dirty - {b},
                   latest := s.latest[n := s.bufs[b].data], bufs := s.bufs[b := s.bufs[b].(refcnt := s.bufs[b].refcnt +
                     1)]), start)
  {
    hide ValidLog, Unique, Counted;
    var n := s.bufs[b].blockno;
    var bufs := s.bufs[b := s.bufs[b].(refcnt := s.bufs[b].refcnt + 1)];
    assert s.bufs[b].dev == 1;
    LogShows(s.bufs, s.dirty, s.disk, s.latest, start, b, |s.disk|);
    ShowsIgnoresCounts(s.bufs, bufs, s.dirty - {b}, s.disk, s.latest[n := s.bufs[b].data], start);
    PinCounts(s.bufs, s.pinned, |s.disk|, b);
    SameCaches(s.bufs, bufs, s.pinned, |s.disk|, start);
    assert Caches(bufs, b, n) && bufs[b].valid;
    assert s.ops[t := s.ops[t] + 1].Keys == s.ops.Keys;
  }

  lemma LogBufStep(s: State, start: nat, t: Tid, b: nat)
    requires Inv(s, start) && Enabled(s, start, LogBuf(t, b))
    ensures Inv(Next(s, start, LogBuf(t, b)), start)
  {
    hide Sized, Unique, Counted, PinsCached, Progress, Shows, Clean, DirtyIsLocked, Assigned;
    if s.bufs[b].blockno in s.lh {
      LogAbsorbed(s, start, t, b);
    } else {
      LogAppended(s, start, t, b);
    }
  }

  lemma BeginOpStep(s: State, start: nat, t: Tid)
    requires Inv(s, start) && Enabled(s, start, BeginOp(t))
    ensures Inv(Next(s, start, BeginOp(t)), start)
  {
    hide ValidLog, Unique, Counted, Shows, Clean, PinsCached, Assigned;
  }

  lemma EndOpStep(s: State, start: nat, t: Tid)
    requires Inv(s, start) && Enabled(s, start, EndOp(t))
    ensures Inv(Next(s, start, EndOp(t)), start)
  {
    hide ValidLog, Unique, Counted, Shows, Assigned;
    assert |s.ops - {t}| == |s.ops| - 1;
    assert forall i :: 0 <= i < |s.lh| ==> s.lh[i] in s.pinned;
    forall b | b in s.dirty
      ensures s.bufs[b].owner.value != t
    {
      assert Holds(s, s.bufs[b].owner.value, b);
    }
  }

  // ---- The commit

  /** A block write from a buffer: the buffer is clean again. */
  lemma WriteShows(bufs: seq<Buf>, dirty: set<nat>, disk: Disk, latest: Disk, start: nat, b: nat, n: nat)
    requires Shows(bufs, dirty, disk, latest, start) && Unique(bufs) && Assigned(bufs, |disk|)
    requires Caches(bufs, b, n) && n < |disk| && (!InLog(start, n) ==> bufs[b].data == latest[n])
    ensures Shows(bufs, dirty - {b}, disk[n := bufs[b].data], latest, start)
  {
  }

  lemma WriteDirty(bufs: seq<Buf>, dirty: set<nat>, ops: map<Tid, nat>, b: nat)
    requires DirtyIsLocked(bufs, dirty, ops, Some(b))
    ensures DirtyIsLocked(bufs, dirty - {b}, ops, None)
  {
  }

  /** A block write of logical contents, or to the log. */
  lemma WriteClean(disk: Disk, latest: Disk, pinned: set<nat>, start: nat, n: nat, data: Block)
    requires Clean(disk, latest, pinned, start) && n < |disk| && (InLog(start, n) || data == latest[n])
    ensures Clean(disk[n := data], latest, pinned, start)
  {
  }

  /** A locked buffer filled by the commit. */
  lemma FillBuf(s: State, start: nat, b: nat, data: Block, phase: Phase)
    requires Inv(s, start) && !s.phase.Open? && !s.phase.Recover? && !phase.Open? && !phase.Recover?
    requires Holds(s, s.committer, b) && s.bufs[b].valid && InFlight(s.phase) == None && InFlight(phase) == Some(b)
    requires Progress(s.(bufs := s.bufs[b := s.bufs[b].(data := data)], dirty := s.dirty + {b}, phase := phase), start)
    ensures Inv(s.(bufs := s.bufs[b := s.bufs[b].(data := data)], dirty := s.dirty + {b}, phase := phase), start)
  {
    hide ValidLog, Clean, Progress, Unique, Counted;
    var v := s.bufs[b].(data := data);
    KeepsCountsOf(s, start, b, v);
    SameCaches(s.bufs, s.bufs[b := v], s.pinned, |s.disk|, start);
    hide PinsCached;
  }

  lemma KeepsCountsOf(s: State, start: nat, b: nat, v: Buf)
    requires Inv(s, start) && b < |s.bufs| && v == s.bufs[b].(data := v.data)
    ensures Assigned(s.bufs[b := v], |s.disk|) && Unique(s.bufs[b := v]) && Counted(s.bufs[b := v], s.pinned)
  {
    hide ValidLog, Clean, Progress, PinsCached, DirtyIsLocked, Shows;
  }

  /** While the commit is between two blocks no buffer is dirty. */
  lemma NothingDirty(s: State, start: nat)
    requires Inv(s, start) && !s.phase.Open? && InFlight(s.phase) == None
    ensures s.dirty == {}
  {
    hide ValidLog, Clean, Progress, PinsCached, Shows, Unique, Counted;
  }

  lemma CopyLogStep(s: State, start: nat, to: nat, from: nat)
    requires Inv(s, start) && Enabled(s, start, CopyLog(to, from))
    ensures Inv(Next(s, start, CopyLog(to, from)), start)
  {
    hide ValidLog, Clean, PinsCached, Unique, Counted, DirtyIsLocked;
    NothingDirty(s, start);
    var i := s.phase.tail;
    FillBuf(s, start, to, s.bufs[from].data, LogWrite(i, to));
  }

  lemma CopyHeadStep(s: State, start: nat, b: nat)
    requires Inv(s, start) && Enabled(s, start, CopyHead(b))
    ensures Inv(Next(s, start, CopyHead(b)), start)
  {
    hide ValidLog, Clean, PinsCached, Unique, Counted, DirtyIsLocked, HeadImage;
    NothingDirty(s, start);
    FillBuf(s, start, b, HeadImage(s.bufs[b].data, s.lh), HeadWrite(b));
  }

  lemma CopyHomeStep(s: State, start: nat, lbuf: nat, dbuf: nat)
    requires Inv(s, start) && Enabled(s, start, CopyHome(lbuf, dbuf))
    ensures Inv(Next(s, start, CopyHome(lbuf, dbuf)), start)
  {
    hide ValidLog, Clean, PinsCached, Unique, Counted, DirtyIsLocked;
    NothingDirty(s, start);
    FillBuf(s, start, dbuf, s.bufs[lbuf].data, HomeWrite(s.phase.tail, dbuf));
  }

  lemma CopyEraseStep(s: State, start: nat, b: nat)
    requires Inv(s, start) && Enabled(s, start, CopyErase(b))
    ensures Inv(Next(s, start, CopyErase(b)), start)
  {
    hide ValidLog, Clean, PinsCached, Unique, Counted, DirtyIsLocked, HeadImage;
    NothingDirty(s, start);
    FillBuf(s, start, b, HeadImage(s.bufs[b].data, []), EraseWrite(b));
  }

  lemma WriteLogStep(s: State, start: nat)
    requires Inv(s, start) && Enabled(s, start, WriteLog)
    ensures Inv(Next(s, start, WriteLog), start)
  {
    hide ValidLog, PinsCached, Unique, Counted, Assigned, Shows, Logging, Clean, DirtyIsLocked;
    var i, b := s.phase.tail, s.phase.b;
    WriteDirty(s.bufs, s.dirty, s.ops, b);
    WriteClean(s.disk, s.latest, s.pinned, start, start + 1 + i, s.bufs[b].data);
    LogStep(s.disk, start, s.lh, s.latest, i);
    WriteShows(s.bufs, s.dirty, s.disk, s.latest, start, b, start + 1 + i);
  }

  lemma WriteHeadStep(s: State, start: nat)
    requires Inv(s, start) && Enabled(s, start, WriteHead)
    ensures Inv(Next(s, start, WriteHead), start)
  {
    hide ValidLog, PinsCached, Unique, Counted, Assigned, Shows, Logging, Installing, HeadImage, Clean, DirtyIsLocked;
    WriteDirty(s.bufs, s.dirty, s.ops, s.phase.b);
    WriteClean(s.disk, s.latest, s.pinned, start, start, s.bufs[s.phase.b].data);
    HeadStep(s.disk, start, s.lh, s.latest);
    WriteShows(s.bufs, s.dirty, s.disk, s.latest, start, s.phase.b, start);
    assert s.lh[0..] == s.lh;
  }

  lemma WriteHomeStep(s: State, start: nat)
    requires Inv(s, start) && Enabled(s, start, WriteHome)
    ensures Inv(Next(s, start, WriteHome), start)
  {
    hide ValidLog, PinsCached, Unique, Counted, Assigned, Shows, Installing, Distinct, Clean, DirtyIsLocked, Elems;
    var i, b := s.phase.tail, s.phase.b;
    WriteDirty(s.bufs, s.dirty, s.ops, b);
    WriteClean(s.disk, s.latest, s.pinned, start, s.lh[i], s.bufs[b].data);
    InstallStep(s.disk, start, s.lh, s.latest, i);
    WriteShows(s.bufs, s.dirty, s.disk, s.latest, start, b, s.lh[i]);
  }

  lemma WriteEraseStep(s: State, start: nat)
    requires Inv(s, start) && Enabled(s, start, WriteErase)
    ensures Inv(Next(s, start, WriteErase), start)
  {
    hide ValidLog, PinsCached, Unique, Counted, Assigned, Shows, Installing, HeadImage, Clean, DirtyIsLocked;
    WriteDirty(s.bufs, s.dirty, s.ops, s.phase.b);
    WriteClean(s.disk, s.latest, s.pinned, start, start, s.bufs[s.phase.b].data);
    EraseStep(s.disk, start, s.txn, s.latest);
    WriteShows(s.bufs, s.dirty, s.disk, s.latest, start, s.phase.b, start);
  }

  /** bunpin takes back the one reference that log_write added. */
  lemma UnpinCounts(bufs: seq<Buf>, pinned: set<nat>, size: nat, b: nat)
    requires Assigned(bufs, size) && Unique(bufs) && Counted(bufs, pinned)
    requires b < |bufs| && bufs[b].dev == 1 && bufs[b].blockno in pinned
    ensures bufs[b].refcnt > 0
    ensures var e := bufs[b := bufs[b].(refcnt := bufs[b].refcnt - 1)];
            Assigned(e, size) && Unique(e) && Counted(e, pinned - {bufs[b].blockno})
  {
  }

  lemma DropFirst(q: seq<nat>, i: nat)
    requires Distinct(q) && i < |q|
    ensures q[i] in Elems(q[i..]) && Elems(q[i..]) - {q[i]} == Elems(q[i + 1..])
  {
    assert q[i..] == [q[i]] + q[i + 1..];
  }

  lemma UnpinStep(s: State, start: nat, b: nat)
    requires Inv(s, start) && Enabled(s, start, Unpin(b))
    ensures Inv(Next(s, start, Unpin(b)), start)
  {
    hide ValidLog, Unique, Counted, Assigned, Elems, Distinct, Shows, PinsCached, Clean, DirtyIsLocked;
    var i := s.phase.tail;
    var bufs, n := s.bufs[b := s.bufs[b].(refcnt := s.bufs[b].refcnt - 1)], s.lh[i];
    DropFirst(s.lh, i);
    UnpinCounts(s.bufs, s.pinned, |s.disk|, b);
    ShowsIgnoresCounts(s.bufs, bufs, s.dirty, s.disk, s.latest, start);
    SameCaches(s.bufs, bufs, s.pinned, |s.disk|, start);
    LessPinned(bufs, s.disk, s.latest, s.pinned, start, n);
    NothingDirty(s, start);
    NoneDirty(bufs, s.ops);
  }

  /** A block with its logical contents on disk need not be pinned. */
  lemma LessPinned(bufs: seq<Buf>, disk: Disk, latest: Disk, pinned: set<nat>, start: nat, n: nat)
    requires PinsCached(bufs, pinned, |disk|, start) && Clean(disk, latest, pinned, start)
    requires n < |disk| ==> latest[n] == disk[n]
    ensures PinsCached(bufs, pinned - {n}, |disk|, start) && Clean(disk, latest, pinned - {n}, start)
  {
  }

  lemma NoneDirty(bufs: seq<Buf>, ops: map<Tid, nat>)
    ensures DirtyIsLocked(bufs, {}, ops, None)
  {
  }

  lemma ResetCountStep(s: State, start: nat)
    requires Inv(s, start) && Enabled(s, start, ResetCount)
    ensures Inv(Next(s, start, ResetCount), start)
  {
    hide ValidLog, Unique, Counted, Assigned, Shows, PinsCached, Clean, Installing, DirtyIsLocked;
    assert s.lh[|s.lh|..] == [];
  }

  lemma FinishStep(s: State, start: nat)
    requires Inv(s, start) && Enabled(s, start, Finish)
    ensures Inv(Next(s, start, Finish), start)
  {
    hide ValidLog, Unique, Counted, Assigned, Shows, PinsCached, Clean, DirtyIsLocked;
  }

  // ---- Crash and recovery

  /** Whatever the phase, the header on disk is empty or lists a whole transaction. */
  lemma CrashStep(s: State, start: nat)
    requires Inv(s, start)
    ensures Inv(Next(s, start, Crash), start)
  {
    hide Unique, Counted, Assigned, Shows, PinsCached, Clean, DirtyIsLocked;
    var e := Next(s, start, Crash);
    PoweredIsClean(|s.bufs|, s.disk, s.committed, start);
    if HeadCount(s.disk, start) == 0 {
      EmptyHeaderIsHome(s, start);
    }
  }

  lemma PoweredIsClean(n: nat, disk: Disk, latest: Disk, start: nat)
    requires |disk| == |latest|
    ensures var p := Powered(n);
            && Assigned(p, |disk|) && Unique(p) && Counted(p, {}) && Shows(p, {}, disk, latest, start)
            && PinsCached(p, {}, |disk|, start) && DirtyIsLocked(p, {}, map[], None)
  {
  }

  lemma EmptyHeaderIsHome(s: State, start: nat)
    requires Sized(s, start) && Progress(s, start) && HeadCount(s.disk, start) == 0
    ensures SameHome(s.disk, s.committed, start)
  {
  }

  lemma RecoverBlockStep(s: State, start: nat)
    requires Inv(s, start) && Enabled(s, start, RecoverBlock)
    ensures Inv(Next(s, start, RecoverBlock), start)
  {
    hide ValidLog, Unique, Counted, Assigned, PinsCached, Clean, DirtyIsLocked;
    InstallStep(s.disk, start, s.txn, s.committed, s.phase.tail);
  }

  lemma RecoverDoneStep(s: State, start: nat)
    requires Inv(s, start) && Enabled(s, start, RecoverDone)
    ensures Inv(Next(s, start, RecoverDone), start)
  {
    hide Unique, Counted, Assigned, PinsCached, DirtyIsLocked;
    if HeadCount(s.disk, start) != 0 {
      EraseStep(s.disk, start, s.txn, s.committed);
    }
  }

  /** Every step of every thread keeps the invariant. */
  lemma StepKeepsInv(s: State, start: nat, step: Step)
    requires Inv(s, start) && Enabled(s, start, step)
    ensures Inv(Next(s, start, step), start)
  {
    hide Inv, Next;
    match step
    case BeginOp(t) => BeginOpStep(s, start, t);
    case EndOp(t) => EndOpStep(s, start, t);
    case BgetHit(t, b) => CacheSteps(s, start, step);
    case BgetMiss(t, b, bno) => BgetMissStep(s, start, t, b, bno);
    case Lock(t, b) => CacheSteps(s, start, step);
    case Fill(t, b) => FillStep(s, start, t, b);
    case Modify(t, b, data) => ModifyStep(s, start, t, b, data);
    case LogBuf(t, b) => LogBufStep(s, start, t, b);
    case Unlock(t, b) => CacheSteps(s, start, step);
    case Unref(t, b) => CacheSteps(s, start, step);
    case CopyLog(to, from) => CopyLogStep(s, start, to, from);
    case WriteLog => WriteLogStep(s, start);
    case CopyHead(b) => CopyHeadStep(s, start, b);
    case WriteHead => WriteHeadStep(s, start);
    case CopyHome(lbuf, dbuf) => CopyHomeStep(s, start, lbuf, dbuf);
    case WriteHome => WriteHomeStep(s, start);
    case Unpin(b) => UnpinStep(s, start, b);
    case ResetCount => ResetCountStep(s, start);
    case CopyErase(b) => CopyEraseStep(s, start, b);
    case WriteErase => WriteEraseStep(s, start);
    case Finish => FinishStep(s, start);
    case Crash => CrashStep(s, start);
    case RecoverBlock => RecoverBlockStep(s, start);
    case RecoverDone => RecoverDoneStep(s, start);
  }

  // ---- Log space ---------------------------------------------------------------------

  /** The log blocks that the operations have reserved and not used: ops[t] of the MAXOPBLOCKS
      of thread t are used. */
  function Reserved(ops: map<Tid, nat>): set<(Tid, nat)> {
    set t, k | t in ops.Keys && 0 <= k < MAXOPBLOCKS && ops[t] <= k :: (t, k)
  }

  function From(t: Tid, k: nat): set<(Tid, nat)> {
    set i | k <= i < MAXOPBLOCKS :: (t, i)
  }

  lemma {:induction false} FromCount(t: Tid, k: nat)
    requires k <= MAXOPBLOCKS
    ensures |From(t, k)| == MAXOPBLOCKS - k
    decreases MAXOPBLOCKS - k
  {
    if k < MAXOPBLOCKS {
      FromCount(t, k + 1);
      assert From(t, k) == {(t, k)} + From(t, k + 1);
    } else {
      assert From(t, k) == {};
    }
  }

  /** No operation reserves more than MAXOPBLOCKS. */
  lemma {:induction false} ReservedBound(ops: map<Tid, nat>)
    ensures |Reserved(ops)| <= MAXOPBLOCKS * |ops|
    decreases ops.Keys
  {
    if ops.Keys == {} {
      assert Reserved(ops) == {};
    } else {
      var t :| t in ops.Keys;
      var rest := ops - {t};
      ReservedBound(rest);
      FromCount(t, 0);
      assert rest.Keys == ops.Keys - {t};
      assert Reserved(ops) <= Reserved(rest) + From(t, 0);
      CardinalityOfSubset(Reserved(ops), Reserved(rest) + From(t, 0));
    }
  }

  lemma {:induction false} CardinalityOfSubset<T>(a: set<T>, b: set<T>)
    requires a <= b
    ensures |a| <= |b|
  {
    if a != {} {
      var x :| x in a;
      CardinalityOfSubset(a - {x}, b - {x});
    }
  }

  /** The log has room for everything that is still reserved. */
  ghost predicate Room(s: State) {
    && |s.lh| + |Reserved(s.ops)| <= LOGBLOCKS
    && forall t :: t in s.ops ==> s.ops[t] <= MAXOPBLOCKS
  }

  /** Which steps touch the operations, the header and the histories. */
  lemma Histories(s: State, start: nat, step: Step)
    requires Enabled(s, start, step)
    ensures var e := Next(s, start, step);
            match step
            case BeginOp(t) => e.ops == s.ops[t := 0] && e.lh == s.lh && e.latest == s.latest &&
              e.committed == s.committed
            case EndOp(t) => e.ops == s.ops - {t} && e.lh == s.lh && e.latest == s.latest && e.committed == s.committed
            case LogBuf(t, b) =>
              && b < |s.bufs| && t in s.ops && e.committed == s.committed
              && if s.bufs[b].blockno in s.lh then e.ops == s.ops && e.lh == s.lh
                 else e.ops == s.ops[t := s.ops[t] + 1] && e.lh == s.lh + [s.bufs[b].blockno] && s.ops[t] < MAXOPBLOCKS
            case WriteHead => e.ops == s.ops && e.lh == s.lh && e.latest == s.latest == e.committed && !s.phase.Open?
            case Crash => e.ops == map[] && e.lh == [] && e.latest == e.committed == s.committed
            case _ => e.ops == s.ops && |e.lh| <= |s.lh| && e.latest == s.latest && e.committed == s.committed
  {
    hide ValidLog, Powered, HeadImage, Put;
  }

  lemma RoomStep(s: State, start: nat, step: Step)
    requires Inv(s, start) && Room(s) && Enabled(s, start, step)
    ensures Room(Next(s, start, step))
  {
    hide Inv, Next, Reserved;
    Histories(s, start, step);
    match step
    case BeginOp(t) => {
      InvOperations(s, start);
      ReservedBound(s.ops);
      BeginReserves(s.ops, t);
    }
    case EndOp(t) => EndReserves(s.ops, t);
    case LogBuf(t, b) => {
      if s.bufs[b].blockno !in s.lh {
        LogReserves(s.ops, t);
      }
    }
    case Crash => assert Reserved(map[]) == {} by { NothingReserved(); }
    case _ =>
  }

  lemma InvOperations(s: State, start: nat)
    requires Inv(s, start)
    ensures s.outstanding == |s.ops| && (!s.phase.Open? ==> s.ops == map[])
  {
    hide Progress, Sized, Unique, Counted, Assigned, Shows, PinsCached, Clean, DirtyIsLocked;
  }

  lemma NothingReserved()
    ensures Reserved(map[]) == {}
  {
  }

  lemma NewReserved(ops: map<Tid, nat>, t: Tid)
    requires t !in ops
    ensures Reserved(ops[t := 0]) == Reserved(ops) + From(t, 0) && Reserved(ops) !! From(t, 0)
  {
  }

  lemma BeginReserves(ops: map<Tid, nat>, t: Tid)
    requires t !in ops
    ensures |Reserved(ops[t := 0])| == |Reserved(ops)| + MAXOPBLOCKS
  {
    FromCount(t, 0);
    NewReserved(ops, t);
    hide Reserved, From;
    assert |Reserved(ops) + From(t, 0)| == |Reserved(ops)| + |From(t, 0)|;
  }

  lemma EndReserves(ops: map<Tid, nat>, t: Tid)
    ensures |Reserved(ops - {t})| <= |Reserved(ops)|
  {
    CardinalityOfSubset(Reserved(ops - {t}), Reserved(ops));
  }

  lemma LogReserves(ops: map<Tid, nat>, t: Tid)
    requires t in ops && ops[t] < MAXOPBLOCKS
    ensures |Reserved(ops[t := ops[t] + 1])| == |Reserved(ops)| - 1
  {
    assert (t, ops[t]) in Reserved(ops);
    assert Reserved(ops[t := ops[t] + 1]) == Reserved(ops) - {(t, ops[t])};
  }

  // ---- Every run ---------------------------------------------------------------------

  /** Power-on over a disk whose log is empty, as mkfs makes it. */
  function Boot(disk: Disk, nbuf: nat): State {
    State(disk, Powered(nbuf), [], 0, false, Recover(0), 0, map[], {}, {}, [], disk, disk)
  }

  ghost predicate Run(s: State, start: nat, steps: seq<Step>, e: State)
    decreases |steps|
  {
    if steps == [] then s == e
    else Enabled(s, start, steps[0]) && Run(Next(s, start, steps[0]), start, steps[1..], e)
  }

  /** The last end_op commits: when no operation is in progress, and no commit, nothing is left in the log. */
  predicate Settled(s: State) {
    s.phase.Open? && s.ops == map[] ==> s.lh == []
  }

  lemma SettledStep(s: State, start: nat, step: Step)
    requires Inv(s, start) && Settled(s) && Enabled(s, start, step)
    ensures Settled(Next(s, start, step))
  {
    hide Inv, Next, Enabled;
    InvOperations(s, start);
    NothingLeft(s, start);
    Histories(s, start, step);
    var e := Next(s, start, step);
    if e.phase.Open? {
      StaysOpen(s, start, step);
      match step
      case BeginOp(t) => assert t in e.ops;
      case EndOp(t) => assert |s.ops - {t}| == |s.ops| - 1;
      case LogBuf(t, b) => assert t in e.ops;
      case _ =>
    }
  }

  lemma StaysOpen(s: State, start: nat, step: Step)
    requires Enabled(s, start, step) && Next(s, start, step).phase.Open?
    ensures s.phase.Open? || (step.Finish? && s.phase.Done?) || s.phase.Recover?
    ensures step.EndOp? ==> s.outstanding > 1 && step.t in s.ops
  {
    hide ValidLog, Powered, HeadImage, Put;
  }

  lemma NothingLeft(s: State, start: nat)
    requires Inv(s, start)
    ensures s.phase.Done? || s.phase.Recover? ==> s.lh == []
  {
    hide Unique, Counted, Assigned, Shows, PinsCached, Clean, DirtyIsLocked, SameHome, Operations;
  }

  lemma {:induction false} RunKeepsInv(s: State, start: nat, steps: seq<Step>, e: State)
    requires Inv(s, start) && Room(s) && Settled(s) && Run(s, start, steps, e)
    ensures Inv(e, start) && Room(e) && Settled(e)
    decreases |steps|
  {
    hide Inv, Next, Enabled, Room, Settled;
    if steps != [] {
      StepKeepsInv(s, start, steps[0]);
      RoomStep(s, start, steps[0]);
      SettledStep(s, start, steps[0]);
      RunKeepsInv(Next(s, start, steps[0]), start, steps[1..], e);
    }
  }

  ghost predicate Reachable(s: State, start: nat) {
    exists disk, nbuf, steps ::
      ValidLog(disk, start) && HeadCount(disk, start) == 0 && Run(Boot(disk, nbuf), start, steps, s)
  }

  lemma ReachableInv(s: State, start: nat)
    requires Reachable(s, start)
    ensures Inv(s, start) && Room(s) && Settled(s)
  {
    var disk, nbuf, steps :| ValidLog(disk, start) && HeadCount(disk, start) == 0 &&
      Run(Boot(disk, nbuf), start, steps, s);
    BootInv(disk, nbuf, start);
    RunKeepsInv(Boot(disk, nbuf), start, steps, s);
  }

  lemma BootInv(disk: Disk, nbuf: nat, start: nat)
    requires ValidLog(disk, start) && HeadCount(disk, start) == 0
    ensures Inv(Boot(disk, nbuf), start) && Room(Boot(disk, nbuf))
  {
    PoweredIsClean(nbuf, disk, disk, start);
    NothingReserved();
  }

  /** bread() returns the contents last logged, whatever was recycled or committed meanwhile. */
  lemma BreadReturnsLatest(s: State, start: nat, t: Tid, b: nat)
    requires Reachable(s, start)
    requires Holds(s, t, b) && s.bufs[b].valid && b !in s.dirty && !InLog(start, s.bufs[b].blockno)
    ensures s.bufs[b].blockno < |s.latest| && s.bufs[b].data == s.latest[s.bufs[b].blockno]
  {
    ReachableInv(s, start);
    hide Progress, Unique, Counted, PinsCached, ValidLog;
  }

  /** An unlocked buffer that differs from its block on disk is in the log header, carries
      exactly one pin, and so cannot be recycled. */
  lemma DifferenceIsPinned(s: State, start: nat, b: nat)
    requires Reachable(s, start) && !s.phase.Recover?
    requires b < |s.bufs| && s.bufs[b].valid && s.bufs[b].owner == None
    requires s.bufs[b].blockno >= |s.disk| || s.bufs[b].data != s.disk[s.bufs[b].blockno]
    ensures s.bufs[b].blockno in s.lh && s.bufs[b].refcnt == |s.bufs[b].users| + 1
    ensures forall t, n :: !Enabled(s, start, BgetMiss(t, b, n))
  {
    ReachableInv(s, start);
    hide PinsCached, Unique, ValidLog, Enabled;
    assert b !in s.dirty;
    PinnedIsListed(s, start);
    assert s.bufs[b].refcnt > 0;
    forall t, n
      ensures !Enabled(s, start, BgetMiss(t, b, n))
    {
      InUseIsKept(s, start, t, b, n);
    }
  }

  lemma InUseIsKept(s: State, start: nat, t: Tid, b: nat, n: nat)
    requires b < |s.bufs| && s.bufs[b].refcnt > 0
    ensures !Enabled(s, start, BgetMiss(t, b, n))
  {
  }

  lemma PinnedIsListed(s: State, start: nat)
    requires Sized(s, start) && Progress(s, start)
    ensures forall n :: n in s.pinned ==> n in s.lh
  {
    hide Logging, Installing, SameHome, ValidLog;
  }

  /** After a crash in any reachable state, recovery yields the logical contents at the last
      header write that completed. */
  lemma CrashYieldsCommitted(s: State, start: nat)
    requires Reachable(s, start)
    ensures ValidLog(s.disk, start) && SameHome(Recovered(s.disk, start), s.committed, start)
  {
    ReachableInv(s, start);
    RecoversCommitted(s, start);
  }

  lemma RecoversCommitted(s: State, start: nat)
    requires Inv(s, start)
    ensures ValidLog(s.disk, start) && SameHome(Recovered(s.disk, start), s.committed, start)
  {
    hide Unique, Counted, Assigned, Shows, PinsCached, Clean, DirtyIsLocked;
    if HeadCount(s.disk, start) == 0 {
      EmptyHeadRecovers(s.disk, start);
      EmptyHeaderIsHome(s, start);
    } else {
      HeaderIsInstalling(s, start);
    }
  }

  lemma HeaderIsInstalling(s: State, start: nat)
    requires Sized(s, start) && Progress(s, start) && HeadCount(s.disk, start) != 0
    ensures SameHome(Recovered(s.disk, start), s.committed, start)
  {
    hide ValidLog, SameHome, ValidTransaction, Recovered;
    match s.phase
    case HomeCopy(i) => InstallingRecovers(s.disk, start, s.lh, s.latest, i);
    case HomeWrite(i, _) => InstallingRecovers(s.disk, start, s.lh, s.latest, i);
    case HomeUnpin(i) => InstallingRecovers(s.disk, start, s.lh, s.latest, i + 1);
    case EraseCopy => InstallingRecovers(s.disk, start, s.txn, s.latest, |s.txn|);
    case EraseWrite(_) => InstallingRecovers(s.disk, start, s.txn, s.latest, |s.txn|);
    case Recover(i) => InstallingRecovers(s.disk, start, s.txn, s.committed, i);
    case _ =>
  }

  /** Durability: in every state without an operation or a commit in progress, everything logged has been
      committed, and a crash yields it. */
  lemma IdleIsDurable(s: State, start: nat)
    requires Reachable(s, start) && s.phase.Open? && s.ops == map[]
    ensures s.lh == [] && ValidLog(s.disk, start) && SameHome(Recovered(s.disk, start), s.latest, start)
  {
    ReachableInv(s, start);
    RecoversCommitted(s, start);
    hide Unique, Counted, Assigned, Shows, PinsCached, DirtyIsLocked, Recovered, ValidLog;
  }

  /** A run without a crash in which block n is not logged again. */
  ghost predicate RunLeaving(n: nat, s: State, start: nat, steps: seq<Step>, e: State)
    decreases |steps|
  {
    if steps == [] then s == e
    else
      && Enabled(s, start, steps[0]) && !steps[0].Crash?
      && (steps[0].LogBuf? ==> s.bufs[steps[0].b].blockno != n)
      && RunLeaving(n, Next(s, start, steps[0]), start, steps[1..], e)
  }

  lemma LatestStep(n: nat, s: State, start: nat, step: Step)
    requires Enabled(s, start, step) && !step.Crash? && (step.LogBuf? ==> s.bufs[step.b].blockno != n)
    ensures var e := Next(s, start, step);
            |e.latest| == |s.latest| && (n < |s.latest| ==> e.latest[n] == s.latest[n])
  {
    hide ValidLog, Powered, HeadImage, Put;
  }

  lemma {:induction false} LeavesLatest(n: nat, s: State, start: nat, steps: seq<Step>, e: State)
    requires RunLeaving(n, s, start, steps, e) && n < |s.latest|
    ensures Run(s, start, steps, e) && |e.latest| == |s.latest| && e.latest[n] == s.latest[n]
    decreases |steps|
  {
    hide Enabled, Next;
    if steps != [] {
      LatestStep(n, s, start, steps[0]);
      LeavesLatest(n, Next(s, start, steps[0]), start, steps[1..], e);
    }
  }

  lemma {:induction false} RunAfterRun(
    s: State, start: nat, steps: seq<Step>, m: State, more: seq<Step>, e: State)
    requires Run(s, start, steps, m) && Run(m, start, more, e)
    ensures Run(s, start, steps + more, e)
    decreases |steps|
  {
    hide Next, Enabled;
    if steps == [] {
      assert steps + more == more;
    } else {
      RunAfterRun(Next(s, start, steps[0]), start, steps[1..], m, more, e);
      assert (steps + more)[1..] == steps[1..] + more;
    }
  }

  lemma ReachableFrom(s: State, start: nat, more: seq<Step>, e: State)
    requires Reachable(s, start) && Run(s, start, more, e)
    ensures Reachable(e, start)
  {
    hide Next, Enabled, Run;
    var disk, nbuf, steps :| ValidLog(disk, start) && HeadCount(disk, start) == 0 &&
      Run(Boot(disk, nbuf), start, steps, s);
    RunAfterRun(Boot(disk, nbuf), start, steps, s, more, e);
  }

  lemma ReachableNext(s: State, start: nat, step: Step)
    requires Reachable(s, start) && Enabled(s, start, step)
    ensures Reachable(Next(s, start, step), start)
  {
    hide Next, Enabled, Reachable;
    var e := Next(s, start, step);
    assert Run(e, start, [step][1..], e);
    assert Run(s, start, [step], e);
    ReachableFrom(s, start, [step], e);
  }

  /** What a thread has put into a buffer and logged is on the disk, whatever crashes, as soon as no operation
      and no commit is in progress, and stays there until the block is logged again. */
  lemma LoggedIsDurable(s: State, start: nat, t: Tid, b: nat, data: Block, steps: seq<Step>, e: State)
    requires Reachable(s, start) && Enabled(s, start, Modify(t, b, data))
    requires Enabled(Next(s, start, Modify(t, b, data)), start, LogBuf(t, b))
    requires RunLeaving(s.bufs[b].blockno, Next(Next(s, start, Modify(t, b, data)), start, LogBuf(t, b)), start, steps,
             e)
    requires e.phase.Open? && e.ops == map[]
    ensures ValidLog(e.disk, start) && s.bufs[b].blockno < |Recovered(e.disk, start)|
    ensures Recovered(e.disk, start)[s.bufs[b].blockno] == data
  {
    var m := Next(s, start, Modify(t, b, data));
    var f := Next(m, start, LogBuf(t, b));
    var n := s.bufs[b].blockno;
    assert n < |f.latest| && f.latest[n] == data && !InLog(start, n);
    hide Next, Enabled, Reachable, RunLeaving, Run, Recovered, ValidLog;
    ReachableNext(s, start, Modify(t, b, data));
    ReachableNext(m, start, LogBuf(t, b));
    LeavesLatest(n, f, start, steps, e);
    ReachableFrom(f, start, steps, e);
    IdleIsDurable(e, start);
  }

  // ---- Progress of a commit

  /** The steps that are left of a commit. */
  function Left(s: State): int {
    var n := |s.lh|;
    match s.phase
    case LogCopy(i) => 10 + 3 * n + 2 * (n - i)
    case LogWrite(i, _) => 9 + 3 * n + 2 * (n - i)
    case HeadWrite(_) => 9 + 3 * n
    case HomeCopy(i) => 8 + 3 * (n - i)
    case HomeWrite(i, _) => 7 + 3 * (n - i)
    case HomeUnpin(i) => 6 + 3 * (n - i)
    case EraseCopy => 3
    case EraseWrite(_) => 2
    case Done => 1
    case _ => 0
  }

  predicate OfCommit(step: Step) {
    step.CopyLog? || step.WriteLog? || step.CopyHead? || step.WriteHead? || step.CopyHome? || step.WriteHome? ||
    step.Unpin? || step.ResetCount? || step.CopyErase? || step.WriteErase? || step.Finish?
  }

  /** Every step of a commit brings it nearer to its end, where new operations may begin, and no other step but a
      crash takes it back. */
  lemma CommitAdvances(s: State, start: nat, step: Step)
    requires Reachable(s, start) && s.committing && Enabled(s, start, step) && !step.Crash?
    ensures var e := Next(s, start, step);
            && Left(s) > 0 && (if OfCommit(step) then Left(e) < Left(s) else Left(e) == Left(s))
            && (e.phase.Open? <==> !e.committing) && (e.phase.Open? ==> Left(e) == 0)
  {
    hide Inv, Next, Enabled;
    ReachableInv(s, start);
    InvOperations(s, start);
    PhaseBounds(s, start);
    if OfCommit(step) {
      CommitSteps(s, start, step);
    } else {
      OtherSteps(s, start, step);
    }
  }

  lemma CommitSteps(s: State, start: nat, step: Step)
    requires Enabled(s, start, step) && OfCommit(step) && s.committing
    ensures var e := Next(s, start, step);
            Left(e) < Left(s) && (if step.Finish? then e.phase.Open? && !e.committing
                                  else !e.phase.Open? && !e.phase.Recover? && e.committing)
  {
    hide ValidLog, HeadImage, Put;
  }

  lemma OtherSteps(s: State, start: nat, step: Step)
    requires Enabled(s, start, step) && !OfCommit(step) && !step.Crash? && s.ops == map[] && !s.phase.Recover? &&
             s.committing
    ensures var e := Next(s, start, step); e.phase == s.phase && e.lh == s.lh && e.committing
  {
    hide ValidLog, HeadImage, Put;
  }

  lemma PhaseBounds(s: State, start: nat)
    requires Inv(s, start)
    ensures s.committing == (!s.phase.Open? && !s.phase.Recover?) && |s.lh| <= LOGBLOCKS
    ensures start + LOGBLOCKS < |s.disk| && forall i :: 0 <= i < |s.lh| && !s.phase.Open? ==> s.lh[i] < |s.disk|
    ensures match s.phase
            case LogCopy(i) => i <= |s.lh|
            case LogWrite(i, b) => i < |s.lh| && b < |s.bufs|
            case HeadWrite(b) => b < |s.bufs|
            case HomeCopy(i) => i <= |s.lh|
            case HomeWrite(i, b) => i < |s.lh| && b < |s.bufs|
            case HomeUnpin(i) => i < |s.lh| && s.lh[i] in s.pinned
            case EraseWrite(b) => b < |s.bufs|
            case _ => true
  {
    hide HeadImage, Unique, Counted, Assigned, Shows, PinsCached, Clean, DirtyIsLocked, SameHome;
  }

  lemma PinnedCount(s: State, start: nat, b: nat)
    requires Inv(s, start) && b < |s.bufs| && s.bufs[b].dev == 1 && s.bufs[b].blockno in s.pinned
    ensures s.bufs[b].refcnt > 0
  {
    hide Progress, Sized, Unique, Assigned, Shows, PinsCached, Clean, DirtyIsLocked;
  }

  /** The two blocks that the next step of a commit reads or fills. */
  function Reads(s: State, start: nat): (nat, nat) {
    match s.phase
    case LogCopy(i) => if i < |s.lh| then (start + 1 + i, s.lh[i]) else (start, start)
    case HomeCopy(i) => if i < |s.lh| then (start + 1 + i, s.lh[i]) else (start, start)
    case HomeUnpin(i) => if i < |s.lh| then (s.lh[i], s.lh[i]) else (start, start)
    case _ => (start, start)
  }

  /** A commit waits for nothing but the buffers of these two blocks. */
  lemma CommitIsEnabled(s: State, start: nat, x: nat, y: nat)
    requires Reachable(s, start) && s.committing
    requires Ready(s, x, Reads(s, start).0) && Ready(s, y, Reads(s, start).1)
    ensures exists step :: OfCommit(step) && Enabled(s, start, step)
  {
    hide Inv, ValidLog;
    ReachableInv(s, start);
    PhaseBounds(s, start);
    if s.phase.HomeUnpin? {
      PinnedCount(s, start, x);
    }
    var step := match s.phase
      case LogCopy(i) => if i < |s.lh| then CopyLog(x, y) else CopyHead(x)
      case LogWrite(_, _) => WriteLog
      case HeadWrite(_) => WriteHead
      case HomeCopy(i) => if i < |s.lh| then CopyHome(x, y) else ResetCount
      case HomeWrite(_, _) => WriteHome
      case HomeUnpin(_) => Unpin(x)
      case EraseCopy => CopyErase(x)
      case EraseWrite(_) => WriteErase
      case _ => Finish;
    assert OfCommit(step) && Enabled(s, start, step);
  }

  // ---- What the other threads wait for

  /** begin_op goes ahead exactly if no commit is in progress and the log has room for what the operations may
      still add, this one included. */
  lemma BeginsExactly(s: State, start: nat, t: Tid)
    requires Reachable(s, start) && !s.phase.Recover? && t !in s.ops
    ensures Enabled(s, start, BeginOp(t)) <==> s.phase.Open? && |s.lh| + (|s.ops| + 1) * 10 <= 30
  {
    hide Inv;
    ReachableInv(s, start);
    InvOperations(s, start);
    PhaseBounds(s, start);
  }

  /** end_op never waits, once the operation has logged what it changed, and the last one out commits. */
  lemma EndsAlways(s: State, start: nat, t: Tid)
    requires Reachable(s, start) && t in s.ops && forall b :: Holds(s, t, b) ==> b !in s.dirty
    ensures Enabled(s, start, EndOp(t))
    ensures var e := Next(s, start, EndOp(t));
            if s.ops.Keys == {t} then
              e.committing && e.committer == t && e.phase == (if s.lh == [] then Done else LogCopy(0))
            else
              e.phase.Open? && e.ops == s.ops - {t}
  {
    hide Inv;
    ReachableInv(s, start);
    InvOperations(s, start);
    assert |s.ops| == |s.ops.Keys|;
    if s.ops.Keys != {t} {
      var u :| u in s.ops.Keys && u != t;
      CardinalityOfSubset({t, u}, s.ops.Keys);
    }
  }

  /** bget of a cached block, bread of a block that is not valid, log_write within the reservation, and brelse go
      ahead at once. */
  lemma ClientsGoOn(s: State, start: nat, t: Tid, b: nat)
    requires Reachable(s, start) && !s.phase.Recover? && b < |s.bufs|
    ensures s.bufs[b].dev == 1 && t !in s.bufs[b].users ==> Enabled(s, start, BgetHit(t, b))
    ensures Holds(s, t, b) && !s.bufs[b].valid ==> Enabled(s, start, Fill(t, b))
    ensures Holds(s, t, b) && s.bufs[b].valid && t in s.ops && !InLog(start, s.bufs[b].blockno) &&
            (s.ops[t] < 10 || (s.bufs[b].blockno in s.lh && |s.lh| < 30)) ==>
              Enabled(s, start, LogBuf(t, b))
    ensures t in s.bufs[b].users && s.bufs[b].owner != Some(t) ==> Enabled(s, start, Unref(t, b))
  {
    ReachableInv(s, start);
    hide Progress, Unique, Shows, PinsCached, Clean, DirtyIsLocked, Operations, ValidLog;
    LogHasRoom(s, start, t);
    if t in s.bufs[b].users {
      CardinalityOfSubset({t}, s.bufs[b].users);
    }
  }

  /** Recovery goes on: a block to install, or the header to erase, and each block brings it nearer to the end. */
  lemma RecoveryGoesOn(s: State, start: nat)
    requires Reachable(s, start) && s.phase.Recover?
    ensures ValidLog(s.disk, start)
    ensures Enabled(s, start, RecoverBlock) <==> s.phase.tail < HeadCount(s.disk, start)
    ensures Enabled(s, start, RecoverDone) <==> !Enabled(s, start, RecoverBlock)
    ensures Enabled(s, start, RecoverBlock) ==>
              var e := Next(s, start, RecoverBlock); e.phase == Recover(s.phase.tail + 1)
    ensures Enabled(s, start, RecoverDone) ==> Next(s, start, RecoverDone).phase == Open
  {
    ReachableInv(s, start);
    hide Progress, Unique, Shows, PinsCached, Clean, DirtyIsLocked, Operations, Counted, Assigned;
  }

  /** A commit never splits an operation: while it runs no operation is in progress, no block is
      logged, and what the header write makes durable is everything logged so far. */
  lemma CommitsWholeOperations(s: State, start: nat, t: Tid, b: nat)
    requires Reachable(s, start) && s.committing
    ensures s.ops == map[] && s.outstanding == 0
    ensures !Enabled(s, start, LogBuf(t, b)) && !Enabled(s, start, BeginOp(t))
    ensures Enabled(s, start, WriteHead) ==> Next(s, start, WriteHead).committed == s.latest
  {
    ReachableInv(s, start);
    hide Progress, Sized, Unique, Counted, Assigned, Shows, PinsCached, Clean, DirtyIsLocked;
  }

  // ---- Invariants of the file system -------------------------------------------------

  /** A run in which p holds of the logical contents whenever the last operation in progress ends. */
  ghost predicate RunKeeping(p: Disk -> bool, s: State, start: nat, steps: seq<Step>, e: State)
    decreases |steps|
  {
    if steps == [] then s == e
    else
      && Enabled(s, start, steps[0])
      && (steps[0].EndOp? && Next(s, start, steps[0]).ops == map[] ==> p(Next(s, start, steps[0]).latest))
      && RunKeeping(p, Next(s, start, steps[0]), start, steps[1..], e)
  }

  /** p holds of what has been committed, and of the logical contents between operations. */
  predicate Between(p: Disk -> bool, s: State) {
    p(s.committed) && (s.ops == map[] ==> p(s.latest))
  }

  /** Nothing but the end of the last operation can break it: no header is written during one. */
  lemma StepKeepsBetween(p: Disk -> bool, s: State, start: nat, step: Step)
    requires Inv(s, start) && Enabled(s, start, step) && Between(p, s)
    requires step.EndOp? && Next(s, start, step).ops == map[] ==> p(Next(s, start, step).latest)
    ensures Between(p, Next(s, start, step))
  {
    hide Inv, Next, Enabled;
    Histories(s, start, step);
    InvOperations(s, start);
    match step
    case BeginOp(t) => assert t in Next(s, start, step).ops;
    case LogBuf(t, b) => assert t in Next(s, start, step).ops;
    case _ =>
  }

  lemma {:induction false} RunKeepsBetween(p: Disk -> bool, s: State, start: nat, steps: seq<Step>, e: State)
    requires Inv(s, start) && Room(s) && Between(p, s) && RunKeeping(p, s, start, steps, e)
    ensures Inv(e, start) && Room(e) && Between(p, e)
    decreases |steps|
  {
    hide Inv, Next, Enabled, Room, Between;
    if steps != [] {
      StepKeepsInv(s, start, steps[0]);
      RoomStep(s, start, steps[0]);
      StepKeepsBetween(p, s, start, steps[0]);
      RunKeepsBetween(p, Next(s, start, steps[0]), start, steps[1..], e);
    }
  }

  /** An invariant of the file system survives every crash: if p looks at home blocks only, holds of the
      first disk and holds whenever the last operation in progress ends, then it holds of what recovery
      yields after a crash in any state, in the middle of operations or of a commit. */
  lemma InvariantSurvives(p: Disk -> bool, disk: Disk, nbuf: nat, start: nat, steps: seq<Step>, e: State)
    requires forall a, b :: SameHome(a, b, start) && p(a) ==> p(b)
    requires ValidLog(disk, start) && HeadCount(disk, start) == 0 && p(disk)
    requires RunKeeping(p, Boot(disk, nbuf), start, steps, e)
    ensures ValidLog(e.disk, start) && p(Recovered(e.disk, start))
    ensures p(e.committed) && SameHome(Recovered(e.disk, start), e.committed, start)
    ensures e.phase.Open? && e.ops == map[] ==> SameHome(e.committed, e.latest, start)
    ensures e.ops == map[] ==> p(e.latest)
  {
    hide Inv, SameHome, Recovered, ValidLog, RunKeeping;
    BootInv(disk, nbuf, start);
    RunKeepsBetween(p, Boot(disk, nbuf), start, steps, e);
    RecoversCommitted(e, start);
    SameHomeBack(Recovered(e.disk, start), e.committed, start);
    if e.phase.Open? && e.ops == map[] {
      KeepingIsRun(p, Boot(disk, nbuf), start, steps, e);
      assert Reachable(e, start);
      IdleIsDurable(e, start);
      SameHomeVia(Recovered(e.disk, start), e.committed, e.latest, start);
    }
  }

  lemma {:induction false} KeepingIsRun(p: Disk -> bool, s: State, start: nat, steps: seq<Step>, e: State)
    requires RunKeeping(p, s, start, steps, e)
    ensures Run(s, start, steps, e)
    decreases |steps|
  {
    hide Next, Enabled;
    if steps != [] {
      KeepingIsRun(p, Next(s, start, steps[0]), start, steps[1..], e);
    }
  }

  lemma SameHomeVia(a: Disk, b: Disk, c: Disk, start: nat)
    requires SameHome(a, b, start) && SameHome(a, c, start)
    ensures SameHome(b, c, start)
  {
  }

  lemma SameHomeBack(a: Disk, b: Disk, start: nat)
    requires SameHome(a, b, start)
    ensures SameHome(b, a, start)
  {
  }

  /** The log never overflows, and an operation that has added fewer than MAXOPBLOCKS blocks
      cannot hit the panic in log_write, not even when its block is absorbed. */
  lemma LogHasRoom(s: State, start: nat, t: Tid)
    requires Reachable(s, start)
    ensures |s.lh| <= LOGBLOCKS
    ensures t in s.ops && s.ops[t] < MAXOPBLOCKS ==> !LogFull(s)
  {
    ReachableInv(s, start);
    hide Progress, Sized, Unique, Counted, Assigned, Shows, PinsCached, Clean, DirtyIsLocked;
    if t in s.ops && s.ops[t] < MAXOPBLOCKS {
      assert (t, s.ops[t]) in Reserved(s.ops);
    }
  }
}
