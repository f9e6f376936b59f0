/**
  * Processes, CPUs and their locks (kernel/proc.c, kernel/spinlock.c): any number of CPUs run
  * process threads and per-CPU scheduler threads, one shared-memory access at a time.  A lock
  * belongs to the CPU that acquired it, so p->lock passes from the scheduler to the process and
  * back through swtch.  A timer interrupt makes a process yield wherever it holds no lock.
  *
  * With n process slots, thread t < n is the kernel thread of slot t and thread n + c is the
  * scheduler of CPU c.
  */
module Processes {
  datatype Lock = Slot(i: nat) | WaitLock | KernelLock(l: nat)
  datatype Chan = NoChan | ProcChan(i: nat) | KernelChan(a: nat)
  datatype Status = UNUSED | USED | SLEEPING | RUNNABLE | RUNNING | ZOMBIE

  const NOBODY := -1
  const INIT: nat := 0

  datatype Proc = Proc(state: Status, chan: Chan, killed: bool, xstate: int, pid: nat, parent: int)

  /** What freeproc leaves. */
  const FREE := Proc(UNUSED, NoChan, false, 0, 0, NOBODY)

  /** Where wakeup returns to. */
  datatype Ret = ToClient(held: set<Lock>) | ToReparent(k: nat, status: int) | ToExit(status: int)

  datatype Pc =
      // any other code, holding some kernel locks
    | Client(held: set<Lock>)
      // sleep; kwait is the caller with lk == WaitLock
    | SleepLock(chan: Chan, lk: Lock) | SleepRelease(chan: Chan, lk: Lock) | SleepSet(chan: Chan, lk: Lock)
    | SleepSched(chan: Chan, lk: Lock) | SleepBack(chan: Chan, lk: Lock) | SleepUnlock(lk: Lock) | SleepRelock(lk: Lock)
      // yield, from a timer interrupt at back; Resume is also where a new process starts, in forkret
    | Yield(back: Pc) | YieldSet(back: Pc) | YieldSched(back: Pc) | Resume(back: Pc)
      // wakeup
    | Wake(chan: Chan, i: nat, ret: Ret) | WakeTest(chan: Chan, i: nat, ret: Ret) | WakeNext(chan: Chan, i: nat,
      ret: Ret)
      // kkill
    | Kill(pid: nat, i: nat) | KillTest(pid: nat, i: nat) | KillNext(pid: nat, i: nat) | KillDone(i: nat)
      // kfork, with allocproc
    | Fork(i: nat) | ForkTest(i: nat) | ForkNext(i: nat) | ForkMade(i: nat) | ForkFail(i: nat) | ForkRelease(i: nat)
    | ForkWait(i: nat) | ForkParent(i: nat) | ForkUnwait(i: nat) | ForkRelock(i: nat) | ForkStart(i: nat)
    | ForkDone(i: nat)
      // kexit, with reparent
    | Exit(status: int) | Reparent(k: nat, status: int) | ExitWake(status: int) | ExitLock(status: int)
    | ExitSet(status: int) | ExitRelease | ExitSched | Dead
      // kwait
    | WaitEnter | WaitScan(k: nat, kids: bool) | WaitKid(k: nat) | WaitTest(k: nat) | WaitNext(k: nat)
    | WaitFree(k: nat, pid: nat,
      status: int) | WaitDrop(k: nat) | WaitKilled | WaitRead | WaitUnlock(killed: bool) | WaitLeave
      // scheduler; Ran is inside swtch
    | Scan(i: nat) | Pick(i: nat) | Ran(i: nat) | Drop(i: nat)

  /** A completed kwait: what it returned, who called it and whose child it freed. */
  datatype Reaping = Reaping(pid: nat, status: int, reaper: nat, parent: int)

  /** cur[c] is the thread on CPU c; exited and reaped are the history of the run. */
  datatype State = State(procs: seq<Proc>, pcs: seq<Pc>, cur: seq<nat>, noff: seq<nat>, locks: map<Lock, nat>,
                         nextpid: nat, exited: map<nat, int>, reaped: seq<Reaping>)

  // ---- locks

  function RetHeld(ret: Ret): set<Lock> {
    match ret
    case ToClient(held) => held
    case _ => {WaitLock}
  }

  /** The locks that the thread at pc has acquired and not released. */
  function Held(pc: Pc, me: nat): set<Lock> {
    match pc
    case Client(held) => held
    case SleepLock(_, lk) => {lk}
    case SleepRelease(_, lk) => {lk, Slot(me)}
    case SleepSet(_, _) | SleepSched(_, _) | SleepBack(_,
      _) | SleepUnlock(_) | YieldSet(_) | YieldSched(_) | Resume(_) | ExitSched => {Slot(me)}
    case Wake(_, _, ret) => RetHeld(ret)
    case WakeTest(_, i, ret) => RetHeld(ret) + {Slot(i)}
    case WakeNext(_, i, ret) => RetHeld(ret) + {Slot(i)}
    case KillTest(_, i) => {Slot(i)}
    case KillNext(_, i) => {Slot(i)}
    case KillDone(i) => {Slot(i)}
    case ForkTest(i) => {Slot(i)}
    case ForkNext(i) => {Slot(i)}
    case ForkMade(i) => {Slot(i)}
    case ForkFail(i) => {Slot(i)}
    case ForkRelease(i) => {Slot(i)}
    case ForkStart(i) => {Slot(i)}
    case ForkDone(i) => {Slot(i)}
    case ForkParent(_) | ForkUnwait(_) | Reparent(_, _) | ExitWake(_) | ExitLock(_) | WaitScan(_,
      _) | WaitKid(_) | WaitKilled | WaitLeave => {WaitLock}
    case ExitSet(_) | ExitRelease | WaitRead | WaitUnlock(_) => {WaitLock, Slot(me)}
    case WaitTest(k) => {WaitLock, Slot(k)}
    case WaitNext(k) => {WaitLock, Slot(k)}
    case WaitFree(k, _, _) => {WaitLock, Slot(k)}
    case WaitDrop(k) => {WaitLock, Slot(k)}
    case Pick(i) => {Slot(i)}
    case Drop(i) => {Slot(i)}
    case _ => {}
  }

  /** The thread is about to acquire l. */
  predicate Wants(pc: Pc, me: nat, n: nat, l: Lock) {
    match pc
    case Client(held) => l.KernelLock? && l !in held
    case SleepLock(_, _) | Yield(_) | ExitLock(_) | WaitKilled => l == Slot(me)
    case SleepRelock(lk) => l == lk
    case Wake(_, i, _) => i < n && i != me && l == Slot(i)
    case Kill(_, i) => i < n && l == Slot(i)
    case Fork(i) => i < n && l == Slot(i)
    case ForkRelock(i) => l == Slot(i)
    case WaitKid(k) => l == Slot(k)
    case Scan(i) => l == Slot(i)
    case ForkWait(_) | Exit(_) | WaitEnter => l == WaitLock
    case _ => false
  }

  function Acquired(pc: Pc, l: Lock): Pc {
    match pc
    case Client(held) => Client(held + {l})
    case SleepLock(chan, lk) => SleepRelease(chan, lk)
    case SleepRelock(lk) => if lk == WaitLock then WaitScan(0, false) else Client({lk})
    case Yield(back) => YieldSet(back)
    case Wake(chan, i, ret) => WakeTest(chan, i, ret)
    case Kill(pid, i) => KillTest(pid, i)
    case Fork(i) => ForkTest(i)
    case ForkWait(i) => ForkParent(i)
    case ForkRelock(i) => ForkStart(i)
    case Exit(status) => Reparent(0, status)
    case ExitLock(status) => ExitSet(status)
    case WaitEnter => WaitScan(0, false)
    case WaitKid(k) => WaitTest(k)
    case WaitKilled => WaitRead
    case Scan(i) => Pick(i)
    case _ => pc
  }

  /** The thread is about to release l. */
  predicate Yields(pc: Pc, me: nat, l: Lock) {
    match pc
    case Client(held) => l in held
    case SleepRelease(_, lk) => l == lk
    case SleepUnlock(_) | Resume(_) | WaitUnlock(_) => l == Slot(me)
    case WakeNext(_, i, _) => l == Slot(i)
    case KillNext(_, i) => l == Slot(i)
    case KillDone(i) => l == Slot(i)
    case ForkNext(i) => l == Slot(i)
    case ForkFail(i) => l == Slot(i)
    case ForkRelease(i) => l == Slot(i)
    case ForkDone(i) => l == Slot(i)
    case WaitNext(k) => l == Slot(k)
    case WaitDrop(k) => l == Slot(k)
    case Drop(i) => l == Slot(i)
    case ForkUnwait(_) | ExitRelease | WaitLeave => l == WaitLock
    case _ => false
  }

  function Released(pc: Pc, me: nat, n: nat, l: Lock): Pc {
    match pc
    case Client(held) => Client(held - {l})
    case SleepRelease(chan, lk) => SleepSet(chan, lk)
    case SleepUnlock(lk) => SleepRelock(lk)
    case Resume(back) => back
    case WakeNext(chan, i, ret) => Wake(chan, i + 1, ret)
    case KillNext(pid, i) => Kill(pid, i + 1)
    case ForkNext(i) => Fork(i + 1)
    case ForkRelease(i) => ForkWait(i)
    case ForkUnwait(i) => ForkRelock(i)
    case ExitRelease => ExitSched
    case WaitNext(k) => WaitScan(k + 1, true)
    case WaitDrop(_) => WaitLeave
    case WaitUnlock(killed) => if killed then WaitLeave else SleepLock(ProcChan(me), WaitLock)
    case Drop(i) => if i + 1 < n then Scan(i + 1) else Client({})
    case _ => Client({})
  }

  // ---- steps between lock operations

  /** What code outside this file may ask for, and the two outcomes of copyout and of memory allocation. */
  datatype Act = Go | Fail | CallSleep(chan: Chan, lk: Lock) | CallWakeup(chan: Chan) | CallKill(pid: nat)
               | CallFork | CallExit(status: int) | CallWait | CallScan

  /** sleep needs its condition lock and no other; the other calls are made without locks; init does not exit. */
  predicate Callable(held: set<Lock>, a: Act, me: nat, n: nat) {
    match a
    case CallSleep(chan, lk) => me < n && lk.KernelLock? && held == {lk}
    case CallWakeup(_) => true
    case CallKill(_) | CallFork | CallWait => me < n && held == {}
    case CallExit(_) => me < n && held == {} && me != INIT
    case CallScan => me >= n && held == {}
    case _ => false
  }

  function Call(held: set<Lock>, a: Act): Pc {
    match a
    case CallSleep(chan, lk) => SleepLock(chan, lk)
    case CallWakeup(chan) => Wake(chan, 0, ToClient(held))
    case CallKill(pid) => Kill(pid, 0)
    case CallFork => Fork(0)
    case CallExit(status) => Exit(status)
    case CallWait => WaitEnter
    case _ => Scan(0)
  }

  /** A process here holds no lock, so interrupts are on and a timer interrupt makes it yield. */
  predicate Interruptible(pc: Pc) {
    match pc
    case Client(held) => held == {}
    case Wake(_, _, ret) => ret == ToClient({})
    case SleepRelock(_) | Kill(_, _) | Fork(_) | ForkWait(_) | ForkRelock(_) | Exit(_) | WaitEnter => true
    case _ => false
  }

  /** The thread at pc takes a step that acquires and releases nothing and does not switch. */
  predicate Moves(procs: seq<Proc>, pc: Pc, me: nat, a: Act) {
    var n := |procs|;
    match pc
    case Client(held) => Callable(held, a, me, n)
    case Wake(_, i, _) => i == me || i >= n
    case Kill(_, i) => i >= n
    case Fork(i) => i >= n
    case SleepSet(_, _) | SleepBack(_, _) | YieldSet(_) | WakeTest(_, _, _) | KillTest(_, _) | ForkTest(_) | ForkMade(_)
       | ForkParent(_) | ForkStart(_) | Reparent(_, _) | ExitWake(_) | ExitSet(_) | WaitScan(_, _) | WaitTest(_)
       | WaitFree(_, _, _) | WaitRead => true
    case Pick(i) => i < n && procs[i].state != RUNNABLE
    case _ => false
  }

  function Return(ret: Ret): Pc {
    match ret
    case ToClient(held) => Client(held)
    case ToReparent(k, status) => Reparent(k, status)
    case ToExit(status) => ExitLock(status)
  }

  function ChanOf(parent: int): Chan {
    if parent < 0 then NoChan else ProcChan(parent)
  }

  /** The program counter after such a step. */
  function Target(procs: seq<Proc>, pc: Pc, me: nat, a: Act): Pc
    requires Shape(pc, me, |procs|)
  {
    var n := |procs|;
    match pc
    case Client(held) => Call(held, a)
    case SleepSet(chan, lk) => SleepSched(chan, lk)
    case SleepBack(_, lk) => SleepUnlock(lk)
    case YieldSet(back) => YieldSched(back)
    case Wake(chan, i, ret) => if i < n then Wake(chan, i + 1, ret) else Return(ret)
    case WakeTest(chan, i, ret) => WakeNext(chan, i, ret)
    case KillTest(pid, i) => if procs[i].pid == pid then KillDone(i) else KillNext(pid, i)
    case ForkTest(i) => if procs[i].state == UNUSED then ForkMade(i) else ForkNext(i)
    case ForkMade(i) => if a == Fail then ForkFail(i) else ForkRelease(i)
    case ForkParent(i) => ForkUnwait(i)
    case ForkStart(i) => ForkDone(i)
    case Reparent(k, status) =>
      if k >= n then ExitWake(status)
      else if procs[k].parent == me then Wake(ProcChan(INIT), 0, ToReparent(k + 1, status))
      else Reparent(k + 1, status)
    case ExitWake(status) => Wake(ChanOf(procs[me].parent), 0, ToExit(status))
    case ExitSet(_) => ExitRelease
    case WaitScan(k, kids) =>
      if k >= n then (if kids then WaitKilled else WaitLeave)
      else if procs[k].parent == me then WaitKid(k)
      else WaitScan(k + 1, kids)
    case WaitTest(k) =>
      if procs[k].state != ZOMBIE then WaitNext(k)
      else if a == Fail then WaitDrop(k)
      else WaitFree(k, procs[k].pid, procs[k].xstate)
    case WaitFree(k, _, _) => WaitDrop(k)
    case WaitRead => WaitUnlock(procs[me].killed)
    case Pick(i) => Drop(i)
    case _ => Client({})
  }

  /** The slot that such a step writes, if any, and what it writes there. */
  function Written(procs: seq<Proc>, pc: Pc, me: nat, a: Act, nextpid: nat): (r: (nat, Proc))
    requires Shape(pc, me, |procs|) && |procs| > 0
    ensures r.0 < |procs|
  {
    match pc
    case SleepSet(chan, _) => (me, procs[me].(chan := chan, state := SLEEPING))
    case SleepBack(_, _) => (me, procs[me].(chan := NoChan))
    case YieldSet(_) => (me, procs[me].(state := RUNNABLE))
    case WakeTest(chan, i, _) =>
      (i, if procs[i].state == SLEEPING && procs[i].chan == chan then procs[i].(state := RUNNABLE) else procs[i])
    case KillTest(pid, i) =>
      if procs[i].pid != pid then (i, procs[i])
      else (i, procs[i].(killed := true, state := if procs[i].state == SLEEPING then RUNNABLE else procs[i].state))
    case ForkTest(i) => (i, if procs[i].state == UNUSED then procs[i].(pid := nextpid, state := USED) else procs[i])
    case ForkMade(i) => (i, if a == Fail then FREE else procs[i])
    case ForkParent(i) => (i, procs[i].(parent := me))
    case ForkStart(i) => (i, procs[i].(state := RUNNABLE))
    case Reparent(k, _) => if k < |procs| && procs[k].parent == me then (k, procs[k].(parent := INIT))
      else (0, procs[0])
    case ExitSet(status) => (me, procs[me].(xstate := status, state := ZOMBIE))
    case WaitFree(k, _, _) => (k, FREE)
    case _ => (0, procs[0])
  }

  /** A step on CPU c. */
  datatype Step = Acquire(c: nat, l: Lock) | Release(c: nat, l: Lock) | Move(c: nat,
    a: Act) | Tick(c: nat) | Dispatch(c: nat)
                | Switch(c: nat)

  predicate Sized(s: State) {
    && |s.procs| > 0
    && |s.pcs| == |s.procs| + |s.cur| && |s.noff| == |s.cur|
    && forall c :: 0 <= c < |s.cur| ==> s.cur[c] < |s.pcs|
  }

  /** Where a thread continues after the scheduler switches back to it; an exited one never does. */
  function Parked(pc: Pc): Pc {
    match pc
    case SleepSched(chan, lk) => SleepBack(chan, lk)
    case YieldSched(back) => Resume(back)
    case _ => Dead
  }

  predicate Enabled(s: State, e: Step) {
    && Sized(s) && e.c < |s.cur|
    && var t := s.cur[e.c];
       var pc := s.pcs[t];
       var n := |s.procs|;
       Shape(pc, t, n) &&
       match e
       case Acquire(_, l) => Wants(pc, t, n, l) && l !in s.locks
       case Release(c, l) => Yields(pc, t, l) && s.noff[c] > 0
       case Move(_, a) => Moves(s.procs, pc, t, a)
       case Tick(_) => t < n && Interruptible(pc)
       case Dispatch(_) => pc.Pick? && s.procs[pc.i].state == RUNNABLE
       case Switch(_) => pc.SleepSched? || pc.YieldSched? || pc.ExitSched?
  }

  function Next(s: State, e: Step): State
    requires Enabled(s, e)
  {
    var c := e.c;
    var t := s.cur[c];
    var pc := s.pcs[t];
    var n := |s.procs|;
    match e
    case Acquire(_, l) =>
      s.(pcs := s.pcs[t := Acquired(pc, l)], locks := s.locks[l := c], noff := s.noff[c := s.noff[c] + 1])
    case Release(_, l) =>
      s.(pcs := s.pcs[t := Released(pc, t, n, l)], locks := s.locks - {l}, noff := s.noff[c := s.noff[c] - 1])
    case Move(_, a) =>
      var w := Written(s.procs, pc, t, a, s.nextpid);
      s.(procs := s.procs[w.0 := w.1],
         pcs := MovedPcs(s, pc, t, a),
         nextpid := if Claims(s, pc) then s.nextpid + 1 else s.nextpid,
         exited := if pc.ExitSet? then s.exited[s.procs[t].pid := pc.status] else s.exited,
         reaped := if pc.WaitFree? then s.reaped + [Reaping(pc.pid, pc.status, t, s.procs[pc.k].parent)] else s.reaped)
    case Tick(_) => s.(pcs := s.pcs[t := Yield(pc)])
    case Dispatch(_) =>
      s.(procs := s.procs[pc.i := s.procs[pc.i].(state := RUNNING)], pcs := s.pcs[t := Ran(pc.i)],
        cur := s.cur[c := pc.i])
    case Switch(_) =>
      s.(pcs := s.pcs[t := Parked(pc)][n + c := Drop(t)], cur := s.cur[c := n + c])
  }

  /** allocproc takes an unused slot: it gets a new pid and a context that starts at forkret. */
  predicate Claims(s: State, pc: Pc) {
    pc.ForkTest? && pc.i < |s.procs| && s.procs[pc.i].state == UNUSED
  }

  function MovedPcs(s: State, pc: Pc, t: nat, a: Act): seq<Pc>
    requires Sized(s) && t < |s.pcs| && Shape(pc, t, |s.procs|)
  {
    var pcs := s.pcs[t := Target(s.procs, pc, t, a)];
    if Claims(s, pc) then pcs[pc.i := Resume(Client({}))] else pcs
  }

  // ---- what each program counter promises

  predicate RetShape(ret: Ret, me: nat, n: nat) {
    match ret
    case ToClient(held) => forall l :: l in held ==> l.KernelLock?
    case ToReparent(k, _) => me < n && me != INIT && k <= n
    case ToExit(_) => me < n && me != INIT
  }

  predicate Condition(chan: Chan, lk: Lock, me: nat) {
    lk.KernelLock? || (lk == WaitLock && chan == ProcChan(me))
  }

  /** Where a process may have been interrupted. */
  predicate BackShape(pc: Pc, me: nat, n: nat) {
    match pc
    case Client(held) => held == {}
    case Wake(_, i, ret) => i <= n && ret == ToClient({})
    case SleepRelock(lk) => !lk.Slot?
    case Kill(_, i) => i <= n
    case Fork(i) => i <= n
    case ForkWait(i) => i < n && i != me
    case ForkRelock(i) => i < n && i != me
    case Exit(_) => me != INIT
    case WaitEnter => true
    case _ => false
  }

  /** Arguments in range, and the right kind of thread. */
  predicate Shape(pc: Pc, me: nat, n: nat) {
    match pc
    case Client(held) => forall l :: l in held ==> l.KernelLock?
    case SleepLock(chan, lk) => me < n && Condition(chan, lk, me)
    case SleepRelease(chan, lk) => me < n && Condition(chan, lk, me)
    case SleepSet(chan, lk) => me < n && Condition(chan, lk, me)
    case SleepSched(chan, lk) => me < n && Condition(chan, lk, me)
    case SleepBack(chan, lk) => me < n && Condition(chan, lk, me)
    case SleepUnlock(lk) => me < n && !lk.Slot?
    case SleepRelock(lk) => me < n && !lk.Slot?
    case Wake(_, i, ret) => i <= n && RetShape(ret, me, n)
    case WakeTest(_, i, ret) => i < n && i != me && RetShape(ret, me, n)
    case WakeNext(_, i, ret) => i < n && i != me && RetShape(ret, me, n)
    case Kill(_, i) => me < n && i <= n
    case KillTest(_, i) => me < n && i < n
    case KillNext(_, i) => me < n && i < n
    case KillDone(i) => me < n && i < n
    case Fork(i) => me < n && i <= n
    case ForkTest(i) => me < n && i < n
    case ForkNext(i) => me < n && i < n
    case ForkMade(i) => me < n && i < n && i != me
    case ForkFail(i) => me < n && i < n && i != me
    case ForkRelease(i) => me < n && i < n && i != me
    case ForkWait(i) => me < n && i < n && i != me
    case ForkParent(i) => me < n && i < n && i != me
    case ForkUnwait(i) => me < n && i < n && i != me
    case ForkRelock(i) => me < n && i < n && i != me
    case ForkStart(i) => me < n && i < n && i != me
    case ForkDone(i) => me < n && i < n && i != me
    case Reparent(k, _) => me < n && me != INIT && k <= n
    case Exit(_) | ExitWake(_) | ExitLock(_) | ExitSet(_) | ExitRelease | ExitSched | Dead => me < n && me != INIT
    case WaitScan(k, _) => me < n && k <= n
    case WaitKid(k) => me < n && k < n && k != me
    case WaitTest(k) => me < n && k < n && k != me
    case WaitNext(k) => me < n && k < n && k != me
    case WaitFree(k, _, _) => me < n && k < n && k != me
    case WaitDrop(k) => me < n && k < n && k != me
    case Yield(back) => me < n && BackShape(back, me, n)
    case YieldSet(back) => me < n && BackShape(back, me, n)
    case YieldSched(back) => me < n && BackShape(back, me, n)
    case Resume(back) => me < n && BackShape(back, me, n)
    case WaitEnter | WaitKilled | WaitRead | WaitUnlock(_) | WaitLeave => me < n
    case Scan(i) => me >= n && i < n
    case Pick(i) => me >= n && i < n
    case Ran(i) => me >= n && i < n
    case Drop(i) => me >= n && i < n
  }
}
