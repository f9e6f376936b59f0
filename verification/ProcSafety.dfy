/**
  * What every run of the process machine keeps: mutual exclusion, no lost wakeup, no missed
  * exit, and each exit reported once.  The proof is by rely and guarantee: each thread's program
  * counter promises something about the shared table, and no step of another thread breaks it.
  */
module ProcessSafety {
  import opened Processes

  // ---- locks and threads

  /** The counters at which a thread may be switched out. */
  predicate Off(pc: Pc) {
    pc.SleepBack? || pc.Resume? || pc.Dead? || pc.Ran?
  }

  /** Which thread runs where. */
  predicate Placed(pcs: seq<Pc>, cur: seq<nat>, n: nat) {
    |pcs| == n + |cur| && Seated(cur, n) && Resting(pcs, cur, n)
  }

  /** A CPU runs a process or its own scheduler, and no process runs twice. */
  predicate Seated(cur: seq<nat>, n: nat) {
    && (forall c :: 0 <= c < |cur| ==> cur[c] < n || cur[c] == n + c)
    && (forall c, d :: 0 <= c < d < |cur| ==> cur[c] != cur[d])
  }

  /** The other threads are switched out. */
  predicate Resting(pcs: seq<Pc>, cur: seq<nat>, n: nat)
    requires |pcs| == n + |cur| && forall c :: 0 <= c < |cur| ==> cur[c] < |pcs|
  {
    && (forall c :: 0 <= c < |cur| && cur[c] != n + c ==> pcs[n + c] == Ran(cur[c]))
    && (forall t :: 0 <= t < |pcs| && t !in cur ==> Off(pcs[t]))
    && (forall c :: 0 <= c < |cur| ==> !pcs[cur[c]].Dead? && !pcs[cur[c]].Ran?)
  }

  predicate Shapes(pcs: seq<Pc>, n: nat) {
    forall t :: 0 <= t < |pcs| ==> Shape(pcs[t], t, n)
  }

  /** A lock is held by the CPU whose thread's counter says so, and by no other. */
  predicate Exclusion(pcs: seq<Pc>, cur: seq<nat>, noff: seq<nat>, locks: map<Lock, nat>) {
    && |noff| == |cur|
    && (forall c :: 0 <= c < |cur| ==> cur[c] < |pcs|)
    && (forall l :: l in locks ==> locks[l] < |cur| && l in Held(pcs[cur[locks[l]]], cur[locks[l]]))
    && (forall c, l :: 0 <= c < |cur| && l in Held(pcs[cur[c]], cur[c]) ==> l in locks && locks[l] == c)
    && (forall c :: 0 <= c < |cur| ==> noff[c] == |Held(pcs[cur[c]], cur[c])|)
  }

  /** The state of slot j agrees with the counter of its thread. */
  predicate Fits(p: Proc, pc: Pc, running: bool) {
    if running then
      p.state == (match pc
                  case SleepSched(_, _) => SLEEPING
                  case YieldSched(_) => RUNNABLE
                  case ExitRelease => ZOMBIE
                  case ExitSched => ZOMBIE
                  case _ => RUNNING)
      && (pc.SleepSched? ==> p.chan == pc.chan)
    else
      match p.state
      case UNUSED => p.parent == NOBODY && p.pid == 0 && (pc.Dead? || pc == Resume(Client({})))
      case USED => pc == Resume(Client({}))
      case SLEEPING => pc.SleepBack? && p.chan == pc.chan
      case RUNNABLE => pc.Resume? || pc.SleepBack?
      case RUNNING => false
      case ZOMBIE => pc.Dead?
  }

  predicate Table(procs: seq<Proc>, pcs: seq<Pc>, cur: seq<nat>) {
    |procs| <= |pcs| && forall j :: 0 <= j < |procs| ==> Fits(procs[j], pcs[j], j in cur)
  }

  ghost predicate Base(s: State) {
    && Sized(s)
    && Placed(s.pcs, s.cur, |s.procs|)
    && Shapes(s.pcs, |s.procs|)
    && Exclusion(s.pcs, s.cur, s.noff, s.locks)
    && Table(s.procs, s.pcs, s.cur)
  }

  // ---- what a counter promises about the process table

  predicate Live(st: Status) {
    st == RUNNABLE || st == RUNNING || st == SLEEPING
  }

  /** Committed to sleeping on chan, having entered sleep with lk: only a wakeup or a kill helps. */
  predicate Asleep(pc: Pc, st: Status, chan: Chan, lk: Lock) {
    && (pc.SleepRelease? || pc.SleepSet? || pc.SleepSched? || (pc.SleepBack? && st == SLEEPING))
    && pc.chan == chan && pc.lk == lk
  }

  predicate Waking(pc: Pc) {
    pc.Wake? || pc.WakeTest? || pc.WakeNext?
  }

  /** The slots below this one have been dealt with by the scan of wakeup. */
  function Passed(pc: Pc): nat
    requires Waking(pc)
  {
    if pc.WakeNext? then pc.i + 1 else pc.i
  }

  /** wakeup(chan) under a lock: nobody it has passed is asleep on chan under that lock. */
  predicate Roused(procs: seq<Proc>, pcs: seq<Pc>, u: nat)
    requires |procs| <= |pcs| && u < |pcs|
  {
    Waking(pcs[u]) ==>
      forall j, lk :: 0 <= j < |procs| && j < Passed(pcs[u]) && j != u && lk in RetHeld(pcs[u].ret) ==>
        !Asleep(pcs[j], procs[j].state, pcs[u].chan, lk)
  }

  /** The slots below this one are no longer children of the exiting thread. */
  function Disowned(pc: Pc, n: nat): nat {
    match pc
    case Reparent(k, _) => k
    case Wake(_, _, ret) => RetDisowned(ret, n)
    case WakeTest(_, _, ret) => RetDisowned(ret, n)
    case WakeNext(_, _, ret) => RetDisowned(ret, n)
    case ExitWake(_) | ExitLock(_) | ExitSet(_) | ExitRelease | ExitSched | Dead => n
    case _ => 0
  }

  function RetDisowned(ret: Ret, n: nat): nat {
    match ret
    case ToClient(_) => 0
    case ToReparent(k, _) => k
    case ToExit(_) => n
  }

  predicate Childless(procs: seq<Proc>, pc: Pc, u: nat) {
    forall j :: 0 <= j < |procs| && j < Disowned(pc, |procs|) ==> procs[j].parent != u
  }

  /** The slots below this one have been scanned by kwait. */
  function Scanned(pc: Pc, n: nat): nat {
    match pc
    case WaitScan(k, _) => k
    case WaitKid(k) => k
    case WaitTest(k) => k
    case WaitNext(k) => k + 1
    case WaitKilled | WaitRead | WaitUnlock(_) => n
    case SleepLock(_, lk) => if lk == WaitLock then n else 0
    case _ => 0
  }

  predicate NoZombies(procs: seq<Proc>, pc: Pc, u: nat) {
    forall j :: 0 <= j < |procs| && j < Scanned(pc, |procs|) && procs[j].parent == u ==> procs[j].state != ZOMBIE
  }

  /** kwait has found child k, or is about to free it. */
  predicate Found(procs: seq<Proc>, pc: Pc, u: nat)
    requires Shape(pc, u, |procs|)
  {
    && (pc.WaitKid? || pc.WaitTest? || pc.WaitNext? ==> procs[pc.k].parent == u)
    && (pc.WaitFree? ==>
           procs[pc.k].parent == u && procs[pc.k].state == ZOMBIE && procs[pc.k].pid == pc.pid &&
           procs[pc.k].xstate == pc.status)
  }

  /** kexit wakes its parent, which therefore is not asleep in kwait when the zombie appears. */
  predicate ParentAwake(procs: seq<Proc>, pcs: seq<Pc>, u: nat)
    requires |procs| <= |pcs| && u < |pcs|
  {
    && (Waking(pcs[u]) && pcs[u].ret.ToExit? && u < |procs| ==> pcs[u].chan == ChanOf(procs[u].parent))
    && (pcs[u].ExitLock? || pcs[u].ExitSet? ==>
          u < |procs| && var w := procs[u].parent;
                         0 <= w < |procs| ==> !Asleep(pcs[w], procs[w].state, ProcChan(w), WaitLock))
  }

  /** Where the thread is, or was when it was interrupted. */
  function Inner(pc: Pc): Pc {
    match pc
    case Yield(back) => back
    case YieldSet(back) => back
    case YieldSched(back) => back
    case Resume(back) => back
    case _ => pc
  }

  /** The counter is inside kfork with slot i allocated. */
  predicate Claiming(pc: Pc, i: nat) {
    Claimed(Inner(pc), i)
  }

  predicate Claimed(pc: Pc, i: nat) {
    && (pc.ForkMade? || pc.ForkRelease? || pc.ForkWait? || pc.ForkParent? || pc.ForkUnwait? || pc.ForkRelock? ||
         pc.ForkStart?)
    && pc.i == i
  }

  predicate Attached(pc: Pc) {
    pc.ForkUnwait? || pc.ForkStart? || Inner(pc).ForkRelock?
  }

  predicate Forking(procs: seq<Proc>, pc: Pc, u: nat) {
    forall i :: 0 <= i < |procs| && Claiming(pc, i) ==>
      procs[i].state == USED && procs[i].parent == if Attached(pc) then u else NOBODY
  }

  /** kwait knows that the thread has a child. */
  predicate KnowsChild(pc: Pc) {
    match pc
    case WaitScan(_, kids) => kids
    case WaitKid(_) | WaitTest(_) | WaitNext(_) | WaitKilled | WaitRead | WaitUnlock(_) => true
    case SleepLock(_, lk) => lk == WaitLock
    case _ => false
  }

  /** The slots below this one are known to kwait not to be children. */
  function Strangers(pc: Pc): nat {
    if pc.WaitScan? && !pc.kids then pc.k else 0
  }

  predicate HasChild(procs: seq<Proc>, u: nat) {
    exists j :: 0 <= j < |procs| && procs[j].parent == u
  }

  /** What kwait has found out about its children, and about having been killed. */
  predicate Waiting(procs: seq<Proc>, pc: Pc, u: nat) {
    && (KnowsChild(pc) ==> HasChild(procs, u))
    && (forall j :: 0 <= j < |procs| && j < Strangers(pc) ==> procs[j].parent != u)
    && (pc.WaitUnlock? ==> u < |procs| && pc.killed == procs[u].killed)
  }

  /** kkill has killed the process and it is not asleep; kfork has started its child. */
  predicate Completed(procs: seq<Proc>, pc: Pc, u: nat)
    requires Shape(pc, u, |procs|)
  {
    && (pc.KillDone? ==> procs[pc.i].killed && procs[pc.i].state != SLEEPING)
    && (pc.ForkDone? ==> procs[pc.i].state == RUNNABLE && procs[pc.i].parent == u)
  }

  predicate Promise(procs: seq<Proc>, pcs: seq<Pc>, u: nat)
    requires |procs| <= |pcs| && u < |pcs| && Shape(pcs[u], u, |procs|)
  {
    && Roused(procs, pcs, u)
    && Childless(procs, pcs[u], u)
    && NoZombies(procs, pcs[u], u)
    && Found(procs, pcs[u], u)
    && ParentAwake(procs, pcs, u)
    && Forking(procs, pcs[u], u)
    && Waiting(procs, pcs[u], u)
    && Completed(procs, pcs[u], u)
  }

  // ---- what holds of the table as a whole

  ghost predicate OneClaim(pcs: seq<Pc>) {
    forall u, v, i: nat :: 0 <= u < v < |pcs| && Claiming(pcs[u], i) ==> !Claiming(pcs[v], i)
  }

  /** The CPU that holds wait_lock is in wakeup(w). */
  predicate Rousing(pcs: seq<Pc>, cur: seq<nat>, locks: map<Lock, nat>, w: nat) {
    && WaitLock in locks && locks[WaitLock] < |cur| && cur[locks[WaitLock]] < |pcs|
    && var pc := pcs[cur[locks[WaitLock]]];
       Waking(pc) && pc.chan == ProcChan(w) && WaitLock in RetHeld(pc.ret)
  }

  /** A zombie's parent is not asleep in kwait, except while it is being woken. */
  predicate Waiters(procs: seq<Proc>, pcs: seq<Pc>, cur: seq<nat>, locks: map<Lock, nat>)
    requires |procs| <= |pcs|
  {
    forall w, k :: 0 <= w < |procs| && 0 <= k < |procs| && Unheard(procs, pcs, w, k) ==> Rousing(pcs, cur, locks, w)
  }

  /** k is a zombie whose parent w is asleep in kwait. */
  predicate Unheard(procs: seq<Proc>, pcs: seq<Pc>, w: nat, k: nat)
    requires w < |procs| <= |pcs| && k < |procs|
  {
    procs[k].parent == w && procs[k].state == ZOMBIE && Asleep(pcs[w], procs[w].state, ProcChan(w), WaitLock)
  }

  /** Every process but init has a live parent. */
  predicate Parents(procs: seq<Proc>) {
    && |procs| > 0 && Live(procs[INIT].state) && procs[INIT].parent == NOBODY
    && forall j :: 0 <= j < |procs| ==> HasParent(procs, j)
  }

  predicate HasParent(procs: seq<Proc>, j: nat)
    requires j < |procs|
  {
    if procs[j].parent == NOBODY then procs[j].state == UNUSED || procs[j].state == USED || j == INIT
    else 0 <= procs[j].parent < |procs| && procs[j].parent != j && Live(procs[procs[j].parent].state)
  }

  /** Pids are never reused, and the history agrees with the table. */
  ghost predicate Pids(procs: seq<Proc>, nextpid: nat, exited: map<nat, int>, reaped: seq<Reaping>) {
    TablePids(procs, nextpid, exited) && Recorded(procs, nextpid, exited, reaped)
  }

  predicate TablePids(procs: seq<Proc>, nextpid: nat, exited: map<nat, int>) {
    && nextpid > 0
    && (forall j :: 0 <= j < |procs| && procs[j].state != UNUSED ==> 0 < procs[j].pid < nextpid)
    && (forall j, k :: 0 <= j < k < |procs| && procs[j].state != UNUSED && procs[k].state != UNUSED ==>
          procs[j].pid != procs[k].pid)
    && (forall j :: 0 <= j < |procs| && procs[j].state != UNUSED ==>
          if procs[j].state == ZOMBIE then procs[j].pid in exited && exited[procs[j].pid] == procs[j].xstate
          else procs[j].pid !in exited)
  }

  ghost predicate Recorded(procs: seq<Proc>, nextpid: nat, exited: map<nat, int>, reaped: seq<Reaping>) {
    && (forall pid :: pid in exited ==> pid < nextpid && (Reported(reaped, pid) || Pending(procs, pid)))
    && (forall e :: e in reaped ==> TrueReport(e, exited) && !Pending(procs, e.pid))
    && (forall i, j :: 0 <= i < j < |reaped| ==> reaped[i].pid != reaped[j].pid)
  }

  /** A report of an exit, with its status, to the parent. */
  predicate TrueReport(e: Reaping, exited: map<nat, int>) {
    e.pid in exited && exited[e.pid] == e.status && e.reaper == e.parent
  }

  /** The exit of pid waits in the table. */
  predicate Pending(procs: seq<Proc>, pid: nat) {
    exists j :: 0 <= j < |procs| && procs[j].state == ZOMBIE && procs[j].pid == pid
  }

  /** Some kwait has returned pid. */
  predicate Reported(reaped: seq<Reaping>, pid: nat) {
    exists i :: 0 <= i < |reaped| && reaped[i].pid == pid
  }

  ghost predicate Inv(s: State) {
    && Base(s)
    && (forall u :: 0 <= u < |s.pcs| ==> Promise(s.procs, s.pcs, u))
    && OneClaim(s.pcs)
    && Waiters(s.procs, s.pcs, s.cur, s.locks)
    && Parents(s.procs)
    && Pids(s.procs, s.nextpid, s.exited, s.reaped)
  }

  // ---- what a step does to its own thread

  lemma AcquiredHeld(pc: Pc, me: nat, n: nat, l: Lock)
    requires Shape(pc, me, n) && Wants(pc, me, n, l)
    ensures Held(Acquired(pc, l), me) == Held(pc, me) + {l} && l !in Held(pc, me)
  {
  }

  lemma AcquiredShape(pc: Pc, me: nat, n: nat, l: Lock)
    requires Shape(pc, me, n) && Wants(pc, me, n, l)
    ensures Shape(Acquired(pc, l), me, n) && !Off(Acquired(pc, l))
  {
  }

  lemma ReleasedHeld(pc: Pc, me: nat, n: nat, l: Lock)
    requires Shape(pc, me, n) && Yields(pc, me, l)
    ensures Held(Released(pc, me, n, l), me) == Held(pc, me) - {l} && l in Held(pc, me)
  {
  }

  lemma ReleasedShape(pc: Pc, me: nat, n: nat, l: Lock)
    requires Shape(pc, me, n) && Yields(pc, me, l)
    ensures Shape(Released(pc, me, n, l), me, n) && !Off(Released(pc, me, n, l))
  {
  }

  lemma Called(held: set<Lock>, a: Act, me: nat, n: nat)
    requires Callable(held, a, me, n) && Shape(Client(held), me, n) && 0 < n
    ensures Held(Call(held, a), me) == held && Shape(Call(held, a), me, n) && !Off(Call(held, a))
  {
  }

  /** A call promises nothing yet. */
  lemma CallPromisesNothing(held: set<Lock>, a: Act, me: nat, n: nat)
    requires Callable(held, a, me, n)
    ensures var to := Call(held, a);
            && Disowned(to, n) == 0 && Scanned(to, n) == 0 && !to.WaitKid? && !to.WaitTest? && !to.WaitNext? &&
                 !to.WaitFree?
            && !to.ExitLock? && !to.ExitSet? && !to.ExitRelease? && !to.ExitSched? && !to.SleepSched? && !to.YieldSched?
            && (forall i: nat :: !Claiming(to, i)) && (Waking(to) ==> to == Wake(to.chan, 0, ToClient(held)))
            && !to.SleepRelease? && !to.SleepSet? && !to.SleepBack?
            && !KnowsChild(to) && Strangers(to) == 0 && !to.WaitUnlock? && !to.KillDone? && !to.ForkDone?
  {
  }

  lemma MovedHeld(procs: seq<Proc>, pc: Pc, me: nat, a: Act)
    requires Shape(pc, me, |procs|) && Moves(procs, pc, me, a) && |procs| > 0
    ensures Held(Target(procs, pc, me, a), me) == Held(pc, me)
  {
    hide Callable, Call, BackShape, Condition, RetShape;
    if pc.Client? {
      Called(pc.held, a, me, |procs|);
    }
  }

  lemma MovedShape(procs: seq<Proc>, pc: Pc, me: nat, a: Act)
    requires Shape(pc, me, |procs|) && Moves(procs, pc, me, a) && |procs| > 0
    requires me < |procs| ==> procs[me].state != UNUSED && procs[me].parent != me
    ensures Shape(Target(procs, pc, me, a), me, |procs|)
  {
    hide Callable, Call, BackShape, Target, Shape, Moves;
    if pc.Client? {
      CalledShape(procs, pc, me, a);
    } else if OfWait(pc) {
      WaitShape(procs, pc, me, a);
    } else {
      OtherShape(procs, pc, me, a);
    }
  }

  /** In kwait or kexit, or in the scheduler. */
  predicate OfWait(pc: Pc) {
    pc.Reparent? || pc.ExitWake? || pc.ExitSet? || pc.WaitScan? || pc.WaitTest? || pc.WaitFree? || pc.WaitRead? ||
      pc.Pick?
  }

  lemma CalledShape(procs: seq<Proc>, pc: Pc, me: nat, a: Act)
    requires Shape(pc, me, |procs|) && Moves(procs, pc, me, a) && |procs| > 0 && pc.Client?
    ensures Shape(Target(procs, pc, me, a), me, |procs|)
  {
    hide Callable, Call, BackShape;
    Called(pc.held, a, me, |procs|);
  }

  lemma WaitShape(procs: seq<Proc>, pc: Pc, me: nat, a: Act)
    requires Shape(pc, me, |procs|) && Moves(procs, pc, me, a) && |procs| > 0 && OfWait(pc)
    requires me < |procs| ==> procs[me].state != UNUSED && procs[me].parent != me
    ensures Shape(Target(procs, pc, me, a), me, |procs|)
  {
    hide Callable, Call, BackShape;
  }

  lemma OtherShape(procs: seq<Proc>, pc: Pc, me: nat, a: Act)
    requires Shape(pc, me, |procs|) && Moves(procs, pc, me, a) && |procs| > 0 && !pc.Client? && !OfWait(pc)
    requires me < |procs| ==> procs[me].state != UNUSED
    ensures Shape(Target(procs, pc, me, a), me, |procs|)
  {
    hide Callable, Call, BackShape;
  }

  lemma MovedOn(procs: seq<Proc>, pc: Pc, me: nat, a: Act)
    requires Shape(pc, me, |procs|) && Moves(procs, pc, me, a) && |procs| > 0
    ensures !Off(Target(procs, pc, me, a))
  {
    hide Callable, Call, Condition;
    if pc.Client? {
      Called(pc.held, a, me, |procs|);
    }
  }

  // ---- what a step does to the table

  /** The only ways in which a step of thread t, at pc, changes slot j from p to q. */
  predicate Guarantee(p: Proc, q: Proc, j: nat, pc: Pc, t: nat) {
    LockGuarantee(p, q, j, pc, t) && StateGuarantee(p, q, j, pc, t)
  }

  predicate LockGuarantee(p: Proc, q: Proc, j: nat, pc: Pc, t: nat) {
    && (Slot(j) !in Held(pc, t) ==> q == p.(parent := q.parent))
    && (q.parent != p.parent ==> WaitLock in Held(pc, t))
    && (q.parent != p.parent ==>
          || (Claiming(pc, j) && p.parent == NOBODY && q.parent == t)
          || (pc.Reparent? && p.parent == t && q.parent == INIT)
          || (pc.WaitFree? && pc.k == j && q == FREE))
  }

  predicate StateGuarantee(p: Proc, q: Proc, j: nat, pc: Pc, t: nat) {
    && (p.state != q.state ==>
          match q.state
          case UNUSED => q == FREE && ((pc.WaitFree? && pc.k == j && p.state == ZOMBIE) ||
            (Claiming(pc, j) && p.state == USED))
          case USED => pc.ForkTest? && pc.i == j && p.state == UNUSED
          case SLEEPING => pc.SleepSet? && j == t && p.state == RUNNING
          case RUNNABLE => (p.state == SLEEPING && Arouses(p, pc, j)) ||
            (pc.YieldSet? && j == t && p.state == RUNNING) ||
            (pc.ForkStart? && pc.i == j && p.state == USED)
          case RUNNING => pc.Pick? && p.state == RUNNABLE
          case ZOMBIE => pc.ExitSet? && j == t && p.state == RUNNING)
    && (p.killed != q.killed ==> q == FREE || (q.killed && Kills(p, pc, j)))
  }

  /** The thread is about to kill the process in slot j. */
  predicate Kills(p: Proc, pc: Pc, j: nat) {
    pc.KillTest? && pc.i == j && pc.pid == p.pid
  }

  /** Only a wakeup on its channel or a kill makes a sleeping process runnable. */
  predicate Arouses(p: Proc, pc: Pc, j: nat) {
    (pc.WakeTest? && pc.i == j && pc.chan == p.chan) || Kills(p, pc, j)
  }

  lemma WrittenGuarantee(procs: seq<Proc>, pc: Pc, t: nat, a: Act, nextpid: nat)
    requires Shape(pc, t, |procs|) && |procs| > 0 && Moves(procs, pc, t, a)
    requires Forking(procs, pc, t) && Found(procs, pc, t) && (t < |procs| ==> procs[t].state == RUNNING)
    ensures var w := Written(procs, pc, t, a, nextpid); Guarantee(procs[w.0], w.1, w.0, pc, t)
  {
    hide Callable, LockGuarantee, StateGuarantee, Written, Moves, Shape;
    WrittenLocked(procs, pc, t, a, nextpid);
    WrittenState(procs, pc, t, a, nextpid);
  }

  lemma WrittenLocked(procs: seq<Proc>, pc: Pc, t: nat, a: Act, nextpid: nat)
    requires Shape(pc, t, |procs|) && |procs| > 0 && Moves(procs, pc, t, a)
    requires Forking(procs, pc, t) && Found(procs, pc, t)
    ensures var w := Written(procs, pc, t, a, nextpid); LockGuarantee(procs[w.0], w.1, w.0, pc, t)
  {
    hide Callable, BackShape, RetShape, Condition;
    assert pc.ForkMade? || pc.ForkParent? || pc.ForkStart? ==> Claiming(pc, pc.i);
  }

  lemma WrittenState(procs: seq<Proc>, pc: Pc, t: nat, a: Act, nextpid: nat)
    requires Shape(pc, t, |procs|) && |procs| > 0 && Moves(procs, pc, t, a)
    requires Forking(procs, pc, t) && Found(procs, pc, t) && (t < |procs| ==> procs[t].state == RUNNING)
    ensures var w := Written(procs, pc, t, a, nextpid); StateGuarantee(procs[w.0], w.1, w.0, pc, t)
  {
    hide Callable, BackShape, RetShape, Condition;
    assert pc.ForkMade? || pc.ForkParent? || pc.ForkStart? ==> Claiming(pc, pc.i);
  }

  /** Nobody starts to sleep but the thread itself, on entering sleep. */
  predicate OnlyEnters(from: Pc, to: Pc) {
    to.SleepRelease? || to.SleepSet? || to.SleepSched? || to.SleepBack? ==>
      (from.SleepLock? || from.SleepRelease? || from.SleepSet? || from.SleepSched?) && from.chan == to.chan &&
        from.lk == to.lk
  }

  /** What a step on CPU c does, as far as the other threads can see. */
  predicate Rely(s: State, e: State, c: nat) {
    && Sized(s) && Sized(e) && c < |s.cur|
    && |e.procs| == |s.procs| && |e.cur| == |s.cur|
    && var t := s.cur[c];
       && (forall j :: 0 <= j < |s.procs| ==> Guarantee(s.procs[j], e.procs[j], j, s.pcs[t], t))
       && (forall u :: 0 <= u < |s.pcs| && u != t && e.pcs[u] != s.pcs[u] ==>
             Off(s.pcs[u]) && (e.pcs[u] == Resume(Client({})) || e.pcs[u].Drop?))
       && OnlyEnters(s.pcs[t], e.pcs[t])
  }

  lemma Still(p: Proc, j: nat, pc: Pc, t: nat)
    ensures Guarantee(p, p, j, pc, t)
  {
  }

  lemma Dispatched(p: Proc, j: nat, pc: Pc, t: nat)
    requires pc == Pick(j) && p.state == RUNNABLE
    ensures Guarantee(p, p.(state := RUNNING), j, pc, t)
  {
  }

  lemma MoveEnters(procs: seq<Proc>, pc: Pc, t: nat, a: Act)
    requires Shape(pc, t, |procs|) && Moves(procs, pc, t, a)
    ensures OnlyEnters(pc, Target(procs, pc, t, a))
  {
    hide Held, Call, Callable;
    if pc.Client? {
      CallPromisesNothing(pc.held, a, t, |procs|);
    }
  }

  /** A slot that allocproc can take has no running thread. */
  lemma UnusedIsOff(s: State, i: nat)
    requires Base(s) && i < |s.procs| && s.procs[i].state == UNUSED
    ensures i !in s.cur && Off(s.pcs[i])
  {
    hide Shapes, Exclusion;
  }

  lemma MoverRuns(s: State, c: nat, a: Act)
    requires Base(s) && Enabled(s, Move(c, a)) && s.cur[c] < |s.procs|
    ensures s.procs[s.cur[c]].state == RUNNING
  {
    hide Shapes, Exclusion, Placed, Shape;
  }

  lemma MoveRely(s: State, c: nat, a: Act)
    requires Inv(s) && Enabled(s, Move(c, a))
    ensures Rely(s, Next(s, Move(c, a)), c)
  {
    hide Guarantee, Base, Waiters, Pids, Parents, OneClaim, Roused, Childless, NoZombies, ParentAwake, Found, Forking,
         Waiting, Completed,
         Written,
         Target, Shape, Held, Moves, OnlyEnters, Off;
    var t := s.cur[c];
    var pc := s.pcs[t];
    var e := Next(s, Move(c, a));
    assert Promise(s.procs, s.pcs, t);
    if t < |s.procs| {
      MoverRuns(s, c, a);
    }
    WrittenGuarantee(s.procs, pc, t, a, s.nextpid);
    forall j | 0 <= j < |s.procs| ensures Guarantee(s.procs[j], e.procs[j], j, pc, t) {
      Still(s.procs[j], j, pc, t);
    }
    MoveEnters(s.procs, pc, t, a);
    if Claims(s, pc) {
      UnusedIsOff(s, pc.i);
    }
  }

  lemma AcquireEnters(pc: Pc, t: nat, n: nat, l: Lock)
    requires Wants(pc, t, n, l)
    ensures OnlyEnters(pc, Acquired(pc, l))
  {
  }

  lemma ReleaseEnters(pc: Pc, t: nat, n: nat, l: Lock)
    requires Shape(pc, t, n) && Yields(pc, t, l)
    ensures OnlyEnters(pc, Released(pc, t, n, l))
  {
  }

  lemma LockRely(s: State, e: Step)
    requires Inv(s) && Enabled(s, e) && (e.Acquire? || e.Release? || e.Tick?)
    ensures Rely(s, Next(s, e), e.c)
  {
    hide Guarantee, Base, Waiters, Pids, Parents, OneClaim, Promise, Shape, Held, Wants, Yields, Acquired, Released,
         OnlyEnters, Off;
    var t := s.cur[e.c];
    var pc := s.pcs[t];
    forall j | 0 <= j < |s.procs| ensures Guarantee(s.procs[j], s.procs[j], j, pc, t) {
      Still(s.procs[j], j, pc, t);
    }
    match e
    case Acquire(_, l) => AcquireEnters(pc, t, |s.procs|, l);
    case Release(_, l) => ReleaseEnters(pc, t, |s.procs|, l);
    case Tick(_) => TickEnters(pc);
  }

  lemma TickEnters(pc: Pc)
    ensures OnlyEnters(pc, Yield(pc))
  {
  }

  lemma DispatchRely(s: State, c: nat)
    requires Inv(s) && Enabled(s, Dispatch(c))
    ensures Rely(s, Next(s, Dispatch(c)), c)
  {
    hide Guarantee, Base, Waiters, Pids, Parents, OneClaim, Promise, Held;
    var t := s.cur[c];
    var pc := s.pcs[t];
    var e := Next(s, Dispatch(c));
    forall j | 0 <= j < |s.procs| ensures Guarantee(s.procs[j], e.procs[j], j, pc, t) {
      Still(s.procs[j], j, pc, t);
      if j == pc.i {
        Dispatched(s.procs[j], j, pc, t);
      }
    }
  }

  lemma SwitchRely(s: State, c: nat)
    requires Inv(s) && Enabled(s, Switch(c))
    ensures Rely(s, Next(s, Switch(c)), c)
  {
    hide Guarantee, Base, Waiters, Pids, Parents, OneClaim, Promise, Held;
    var t := s.cur[c];
    var pc := s.pcs[t];
    forall j | 0 <= j < |s.procs| ensures Guarantee(s.procs[j], s.procs[j], j, pc, t) {
      Still(s.procs[j], j, pc, t);
    }
    Switched(s, c);
  }

  /** While a process runs, its CPU's scheduler is inside swtch. */
  lemma Switched(s: State, c: nat)
    requires Base(s) && c < |s.cur| && s.cur[c] < |s.procs|
    ensures s.pcs[|s.procs| + c] == Ran(s.cur[c])
  {
    hide Shapes, Exclusion, Table;
  }

  /** Every step is one that the other threads can rely on. */
  lemma StepRely(s: State, e: Step)
    requires Inv(s) && Enabled(s, e)
    ensures Rely(s, Next(s, e), e.c)
  {
    hide Inv, Enabled, Next, Rely;
    match e
    case Move(c, a) => MoveRely(s, c, a);
    case Dispatch(c) => DispatchRely(s, c);
    case Switch(c) => SwitchRely(s, c);
    case _ => LockRely(s, e);
  }

  // ---- no other thread's promise is broken

  lemma Exclusive(s: State, c: nat, u: nat, l: Lock)
    requires Base(s) && c < |s.cur| && u < |s.pcs| && u != s.cur[c] && !Off(s.pcs[u]) && l in Held(s.pcs[u], u)
    ensures l !in Held(s.pcs[s.cur[c]], s.cur[c])
  {
    hide Held, Shapes, Table, Off;
    assert u in s.cur;
    var d :| 0 <= d < |s.cur| && s.cur[d] == u;
    assert s.locks[l] == d;
  }

  lemma NewSleeper(s: State, e: State, c: nat, j: nat, chan: Chan, lk: Lock)
    requires Rely(s, e, c) && j < |s.procs| && Asleep(e.pcs[j], e.procs[j].state, chan, lk)
    ensures Asleep(s.pcs[j], s.procs[j].state, chan, lk) || (j == s.cur[c] && s.pcs[j] == SleepLock(chan, lk))
  {
    hide Held, Shape;
    assert Guarantee(s.procs[j], e.procs[j], j, s.pcs[s.cur[c]], s.cur[c]);
  }

  ghost predicate Other(s: State, e: State, c: nat, u: nat) {
    && Base(s) && Rely(s, e, c) && |e.procs| == |s.procs| < |s.pcs| == |e.pcs| && c < |s.cur|
    && u < |s.pcs| && u != s.cur[c] && e.pcs[u] == s.pcs[u]
  }

  lemma StaysRoused(s: State, e: State, c: nat, u: nat)
    requires Other(s, e, c, u) && Roused(s.procs, s.pcs, u)
    ensures Roused(e.procs, e.pcs, u)
  {
    hide Asleep, Guarantee, Base, OnlyEnters, Rely;
    if Waking(s.pcs[u]) {
      forall j, lk | 0 <= j < |e.procs| && j < Passed(e.pcs[u]) && j != u && lk in RetHeld(e.pcs[u].ret)
        ensures !Asleep(e.pcs[j], e.procs[j].state, e.pcs[u].chan, lk)
      {
        if Asleep(e.pcs[j], e.procs[j].state, e.pcs[u].chan, lk) {
          NewSleeper(s, e, c, j, e.pcs[u].chan, lk);
          Exclusive(s, c, u, lk);
        }
      }
    }
  }

  lemma StaysChildless(s: State, e: State, c: nat, u: nat)
    requires Other(s, e, c, u) && Childless(s.procs, s.pcs[u], u) && Shape(s.pcs[u], u, |s.procs|)
    ensures Childless(e.procs, e.pcs[u], u)
  {
    hide Base, Held, OnlyEnters, Off;
    forall j | 0 <= j < |e.procs| && j < Disowned(e.pcs[u], |e.procs|) ensures e.procs[j].parent != u {
      assert Guarantee(s.procs[j], e.procs[j], j, s.pcs[s.cur[c]], s.cur[c]);
    }
  }

  lemma StaysScanned(s: State, e: State, c: nat, u: nat)
    requires Other(s, e, c, u) && NoZombies(s.procs, s.pcs[u], u)
    ensures NoZombies(e.procs, e.pcs[u], u)
  {
    hide Base, OnlyEnters, Rely;
    forall j | 0 <= j < |e.procs| && j < Scanned(e.pcs[u], |e.procs|) && e.procs[j].parent == u
      ensures e.procs[j].state != ZOMBIE
    {
      Exclusive(s, c, u, WaitLock);
      NoParentChange(s, e, c, j);
    }
  }

  /** Without wait_lock, no thread changes a parent or becomes a zombie. */
  lemma NoParentChange(s: State, e: State, c: nat, j: nat)
    requires Rely(s, e, c) && j < |s.procs| && WaitLock !in Held(s.pcs[s.cur[c]], s.cur[c])
    ensures e.procs[j].parent == s.procs[j].parent
    ensures e.procs[j].state == ZOMBIE ==> s.procs[j].state == ZOMBIE
  {
    hide OnlyEnters;
    assert Guarantee(s.procs[j], e.procs[j], j, s.pcs[s.cur[c]], s.cur[c]);
  }

  /** Without p->lock, no thread changes anything else in a slot. */
  lemma NoSlotChange(s: State, e: State, c: nat, j: nat)
    requires Rely(s, e, c) && j < |s.procs| && Slot(j) !in Held(s.pcs[s.cur[c]], s.cur[c])
    ensures e.procs[j] == s.procs[j].(parent := e.procs[j].parent)
  {
    hide OnlyEnters, Held;
    assert Guarantee(s.procs[j], e.procs[j], j, s.pcs[s.cur[c]], s.cur[c]);
  }

  lemma StaysFound(s: State, e: State, c: nat, u: nat)
    requires Other(s, e, c, u) && Shape(s.pcs[u], u, |s.procs|) && Found(s.procs, s.pcs[u], u)
    ensures Found(e.procs, e.pcs[u], u)
  {
    hide Base, Rely;
    var pc := s.pcs[u];
    if pc.WaitKid? || pc.WaitTest? || pc.WaitNext? || pc.WaitFree? {
      Exclusive(s, c, u, WaitLock);
      NoParentChange(s, e, c, pc.k);
      if pc.WaitFree? {
        Exclusive(s, c, u, Slot(pc.k));
        NoSlotChange(s, e, c, pc.k);
      }
    }
  }

  lemma StaysAwake(s: State, e: State, c: nat, u: nat)
    requires Other(s, e, c, u) && Shape(s.pcs[u], u, |s.procs|) && ParentAwake(s.procs, s.pcs, u)
    ensures ParentAwake(e.procs, e.pcs, u)
  {
    hide Base, Rely, Asleep;
    var pc := s.pcs[u];
    if (Waking(pc) && pc.ret.ToExit?) || pc.ExitLock? || pc.ExitSet? {
      Exclusive(s, c, u, WaitLock);
      NoParentChange(s, e, c, u);
      var w := s.procs[u].parent;
      if 0 <= w < |s.procs| && Asleep(e.pcs[w], e.procs[w].state, ProcChan(w), WaitLock) {
        NewSleeper(s, e, c, w, ProcChan(w), WaitLock);
      }
    }
  }

  lemma StaysForking(s: State, e: State, c: nat, u: nat)
    requires Other(s, e, c, u) && Forking(s.procs, s.pcs[u], u) && OneClaim(s.pcs)
    ensures Forking(e.procs, e.pcs[u], u)
  {
    hide Base, Held, OnlyEnters;
    var t := s.cur[c];
    forall i | 0 <= i < |e.procs| && Claiming(e.pcs[u], i)
      ensures e.procs[i].state == USED && e.procs[i].parent == if Attached(e.pcs[u]) then u else NOBODY
    {
      assert Guarantee(s.procs[i], e.procs[i], i, s.pcs[t], t);
      assert !Claiming(s.pcs[t], i);
    }
  }

  lemma StaysWaiting(s: State, e: State, c: nat, u: nat)
    requires Other(s, e, c, u) && Shape(s.pcs[u], u, |s.procs|) && Waiting(s.procs, s.pcs[u], u)
    ensures Waiting(e.procs, e.pcs[u], u)
  {
    hide Base, Rely;
    var pc := s.pcs[u];
    if KnowsChild(pc) || Strangers(pc) > 0 {
      Exclusive(s, c, u, WaitLock);
      forall j | 0 <= j < |s.procs| ensures j < |e.procs| && e.procs[j].parent == s.procs[j].parent {
        NoParentChange(s, e, c, j);
      }
      if KnowsChild(pc) {
        var j :| 0 <= j < |s.procs| && s.procs[j].parent == u;
        assert e.procs[j].parent == u;
      }
      if pc.WaitUnlock? {
        Exclusive(s, c, u, Slot(u));
        NoSlotChange(s, e, c, u);
      }
    }
  }

  lemma StaysCompleted(s: State, e: State, c: nat, u: nat)
    requires Other(s, e, c, u) && Shape(s.pcs[u], u, |s.procs|) && Completed(s.procs, s.pcs[u], u)
    ensures Shape(e.pcs[u], u, |e.procs|) && Completed(e.procs, e.pcs[u], u)
  {
    hide Base, OnlyEnters;
    var pc := s.pcs[u];
    if pc.KillDone? || pc.ForkDone? {
      Exclusive(s, c, u, Slot(pc.i));
      assert Guarantee(s.procs[pc.i], e.procs[pc.i], pc.i, s.pcs[s.cur[c]], s.cur[c]);
    }
  }

  lemma OthersKeepPromises(s: State, e: State, c: nat, u: nat)
    requires Inv(s) && Rely(s, e, c) && u < |s.pcs| && u != s.cur[c]
    ensures Shape(e.pcs[u], u, |e.procs|) ==> Promise(e.procs, e.pcs, u)
  {
    hide Placed, Exclusion, Table, Shape, Guarantee, OnlyEnters, Roused, Childless, NoZombies, Found, ParentAwake,
         Forking, Waiting, Completed, OneClaim, Waiters, Pids, Parents;
    assert Promise(s.procs, s.pcs, u);
    if e.pcs[u] == s.pcs[u] {
      assert Other(s, e, c, u);
      StaysRoused(s, e, c, u);
      StaysScanned(s, e, c, u);
      StaysAwake(s, e, c, u);
      StaysForking(s, e, c, u);
      StaysChildless(s, e, c, u);
      StaysFound(s, e, c, u);
      StaysWaiting(s, e, c, u);
      StaysCompleted(s, e, c, u);
    } else if Shape(e.pcs[u], u, |e.procs|) {
      IdlePromise(e.procs, e.pcs, u);
    }
  }

  lemma IdlePromise(procs: seq<Proc>, pcs: seq<Pc>, u: nat)
    requires |procs| <= |pcs| && u < |pcs| && Shape(pcs[u], u, |procs|) &&
             (pcs[u] == Resume(Client({})) || pcs[u].Drop? || pcs[u].Ran?)
    ensures Promise(procs, pcs, u)
  {
  }

  // ---- and the stepping thread makes its next promise true

  lemma MoveChildless(procs: seq<Proc>, pc: Pc, t: nat, a: Act, nextpid: nat)
    requires Shape(pc, t, |procs|) && Moves(procs, pc, t, a) && |procs| > 0 && Childless(procs, pc, t)
    ensures var w := Written(procs, pc, t, a, nextpid); Childless(procs[w.0 := w.1], Target(procs, pc, t, a), t)
  {
    hide Held, Call, Callable;
    if pc.Client? {
      CallPromisesNothing(pc.held, a, t, |procs|);
    }
  }

  lemma MoveScanned(procs: seq<Proc>, pc: Pc, t: nat, a: Act, nextpid: nat)
    requires Shape(pc, t, |procs|) && Moves(procs, pc, t, a) && |procs| > 0 && NoZombies(procs, pc, t)
    ensures var w := Written(procs, pc, t, a, nextpid); NoZombies(procs[w.0 := w.1], Target(procs, pc, t, a), t)
  {
    hide Held, Call, Callable;
    if pc.Client? {
      CallPromisesNothing(pc.held, a, t, |procs|);
    }
  }

  lemma MoveFound(procs: seq<Proc>, pc: Pc, t: nat, a: Act, nextpid: nat)
    requires Shape(pc, t, |procs|) && Moves(procs, pc, t, a) && |procs| > 0 && Found(procs, pc, t)
    requires Shape(Target(procs, pc, t, a), t, |procs|)
    ensures var w := Written(procs, pc, t, a, nextpid); Found(procs[w.0 := w.1], Target(procs, pc, t, a), t)
  {
    hide Held, Call, Callable;
    if pc.Client? {
      CallPromisesNothing(pc.held, a, t, |procs|);
    }
  }

  lemma MoveForking(procs: seq<Proc>, pc: Pc, t: nat, a: Act, nextpid: nat)
    requires Shape(pc, t, |procs|) && Moves(procs, pc, t, a) && |procs| > 0 && Forking(procs, pc, t)
    requires pc.ForkTest? && pc.i < |procs| && procs[pc.i].state == UNUSED ==> procs[pc.i].parent == NOBODY
    ensures var w := Written(procs, pc, t, a, nextpid); Forking(procs[w.0 := w.1], Target(procs, pc, t, a), t)
  {
    hide Held, Call, Callable;
    if pc.Client? {
      CallPromisesNothing(pc.held, a, t, |procs|);
    }
  }

  lemma MoveWaiting(procs: seq<Proc>, pc: Pc, t: nat, a: Act, nextpid: nat)
    requires Shape(pc, t, |procs|) && Moves(procs, pc, t, a) && |procs| > 0
    requires Waiting(procs, pc, t)
    ensures var w := Written(procs, pc, t, a, nextpid); Waiting(procs[w.0 := w.1], Target(procs, pc, t, a), t)
  {
    hide Held, Call, Callable, Target, Written, Moves, Shape;
    var w := Written(procs, pc, t, a, nextpid);
    MoveLooks(procs, pc, t, a, nextpid);
    assert w.1 == procs[w.0] ==> procs[w.0 := w.1] == procs;
  }

  /** kwait only looks while it scans. */
  lemma MoveLooks(procs: seq<Proc>, pc: Pc, t: nat, a: Act, nextpid: nat)
    requires Shape(pc, t, |procs|) && Moves(procs, pc, t, a) && |procs| > 0
    ensures var w := Written(procs, pc, t, a, nextpid); var to := Target(procs, pc, t, a);
            && (KnowsChild(to) || Strangers(to) > 0 || to.WaitUnlock? ==> w.1 == procs[w.0])
            && (KnowsChild(to) ==> KnowsChild(pc) || (pc.WaitScan? && pc.k < |procs| && procs[pc.k].parent == t))
            && (Strangers(to) <= Strangers(pc) ||
                (Strangers(to) == Strangers(pc) + 1 && Strangers(pc) < |procs| && procs[Strangers(pc)].parent != t))
            && (to.WaitUnlock? ==> t < |procs| && to.killed == procs[t].killed)
  {
    hide Held, Call, Callable;
    if pc.Client? {
      CallPromisesNothing(pc.held, a, t, |procs|);
    }
  }

  lemma MoveCompleted(procs: seq<Proc>, pc: Pc, t: nat, a: Act, nextpid: nat)
    requires Shape(pc, t, |procs|) && Moves(procs, pc, t, a) && |procs| > 0 && Forking(procs, pc, t)
    requires Shape(Target(procs, pc, t, a), t, |procs|)
    ensures var w := Written(procs, pc, t, a, nextpid); Completed(procs[w.0 := w.1], Target(procs, pc, t, a), t)
  {
    hide Held, Call, Callable;
    if pc.Client? {
      CallPromisesNothing(pc.held, a, t, |procs|);
    } else if pc.ForkStart? {
      assert Claiming(pc, pc.i);
    }
  }

  /** A step into or within wakeup either starts a scan or passes at most the slot it has just looked at. */
  predicate ScanStep(pc: Pc, to: Pc, t: nat) {
    Waking(to) ==>
      || Passed(to) == 0 || to.ret == ToClient({})
      || (Waking(pc) && to.chan == pc.chan && to.ret == pc.ret &&
          (Passed(to) == Passed(pc) || (Passed(to) == Passed(pc) + 1 && ((pc.Wake? && pc.i == t) || pc.WakeTest?))))
  }

  lemma MoveScan(procs: seq<Proc>, pc: Pc, t: nat, a: Act)
    requires Shape(pc, t, |procs|) && Moves(procs, pc, t, a)
    ensures ScanStep(pc, Target(procs, pc, t, a), t)
  {
    hide Held, Call, Callable;
    if pc.Client? {
      CallPromisesNothing(pc.held, a, t, |procs|);
    }
  }

  /** The process that wakeup has looked at, under its lock, is not asleep on chan any more. */
  lemma Tested(s: State, c: nat, a: Act)
    requires Inv(s) && Enabled(s, Move(c, a)) && s.pcs[s.cur[c]].WakeTest?
    ensures var e := Next(s, Move(c, a)); var pc := s.pcs[s.cur[c]];
            pc.i < |e.procs| < |e.pcs| && forall lk :: !Asleep(e.pcs[pc.i], e.procs[pc.i].state, pc.chan, lk)
  {
    hide Placed, Exclusion, Waiters, Pids, Parents, OneClaim, Promise, Guarantee, OnlyEnters, Callable;
    var t := s.cur[c];
    var pc := s.pcs[t];
    var i := pc.i;
    if s.pcs[i].SleepRelease? || s.pcs[i].SleepSet? || s.pcs[i].SleepSched? {
      Exclusive(s, c, i, Slot(i));
      assert false;
    }
    assert Fits(s.procs[i], s.pcs[i], i in s.cur);
  }

  lemma SelfRoused(s: State, e: State, c: nat)
    requires Inv(s) && Rely(s, e, c)
    requires ScanStep(s.pcs[s.cur[c]], e.pcs[s.cur[c]], s.cur[c])
    requires s.pcs[s.cur[c]].WakeTest? && e.pcs[s.cur[c]].WakeNext? ==>
               var i := s.pcs[s.cur[c]].i;
                 i < |e.procs| && forall lk :: !Asleep(e.pcs[i], e.procs[i].state, s.pcs[s.cur[c]].chan, lk)
    requires s.pcs[s.cur[c]].WakeTest? && Waking(e.pcs[s.cur[c]]) ==> e.pcs[s.cur[c]].WakeNext?
    ensures Roused(e.procs, e.pcs, s.cur[c])
  {
    hide Placed, Exclusion, Table, Waiters, Pids, Parents, OneClaim, Guarantee, OnlyEnters, Asleep,
         Childless, NoZombies, Found, ParentAwake, Forking, Waiting, Completed, Shape;
    var t := s.cur[c];
    var pc, to := s.pcs[t], e.pcs[t];
    assert Promise(s.procs, s.pcs, t);
    if Waking(to) && Passed(to) != 0 {
      forall j, lk | 0 <= j < |e.procs| && j < Passed(to) && j != t && lk in RetHeld(to.ret)
        ensures !Asleep(e.pcs[j], e.procs[j].state, to.chan, lk)
      {
        if Asleep(e.pcs[j], e.procs[j].state, to.chan, lk) {
          NewSleeper(s, e, c, j, to.chan, lk);
        }
      }
    }
  }

  lemma SelfAwake(s: State, e: State, c: nat)
    requires Inv(s) && Rely(s, e, c)
    requires ExitStep(s.procs, s.pcs[s.cur[c]], e.pcs[s.cur[c]], s.cur[c])
    ensures ParentAwake(e.procs, e.pcs, s.cur[c])
  {
    hide Placed, Exclusion, Table, Waiters, Pids, OneClaim, Guarantee, OnlyEnters, Asleep,
         Childless, NoZombies, Found, Forking, Waiting, Completed;
    var t := s.cur[c];
    var pc, to := s.pcs[t], e.pcs[t];
    assert Promise(s.procs, s.pcs, t);
    if (Waking(to) && to.ret.ToExit? && t < |s.procs|) || to.ExitLock? || to.ExitSet? {
      assert Shape(pc, t, |s.procs|) && t < |s.procs|;
      assert HasParent(s.procs, t);
      OwnParent(s, e, c);
      var w := s.procs[t].parent;
      if 0 <= w < |s.procs| && to.ExitLock? {
        assert pc.chan == ProcChan(w) && WaitLock in RetHeld(pc.ret);
        assert !Asleep(s.pcs[w], s.procs[w].state, pc.chan, WaitLock);
      }
      if 0 <= w < |s.procs| && !Waking(to) && Asleep(e.pcs[w], e.procs[w].state, ProcChan(w), WaitLock) {
        NewSleeper(s, e, c, w, ProcChan(w), WaitLock);
      }
    }
  }

  /** How a step of kexit continues. */
  predicate ExitStep(procs: seq<Proc>, pc: Pc, to: Pc, t: nat) {
    && (Waking(to) && to.ret.ToExit? && t < |procs| ==>
          (pc.ExitWake? && to.chan == ChanOf(procs[t].parent)) || (Waking(pc) && pc.ret.ToExit? && pc.chan == to.chan))
    && (to.ExitLock? ==> pc.Wake? && pc.i >= |procs| && pc.ret.ToExit?)
    && (to.ExitSet? ==> pc.ExitLock?)
  }

  lemma MoveExit(procs: seq<Proc>, pc: Pc, t: nat, a: Act)
    requires Shape(pc, t, |procs|) && Moves(procs, pc, t, a)
    ensures ExitStep(procs, pc, Target(procs, pc, t, a), t)
  {
    hide Held, Call, Callable;
    if pc.Client? {
      CallPromisesNothing(pc.held, a, t, |procs|);
    }
  }

  lemma OwnParent(s: State, e: State, c: nat)
    requires Rely(s, e, c) && s.cur[c] < |s.procs| && s.procs[s.cur[c]].parent != s.cur[c]
    requires Shape(s.pcs[s.cur[c]], s.cur[c], |s.procs|)
    ensures e.procs[s.cur[c]].parent == s.procs[s.cur[c]].parent
  {
    hide OnlyEnters, Held;
    assert Guarantee(s.procs[s.cur[c]], e.procs[s.cur[c]], s.cur[c], s.pcs[s.cur[c]], s.cur[c]);
  }

  /** The counter to promises nothing that pc did not. */
  ghost predicate Weaker(pc: Pc, to: Pc, n: nat) {
    && Disowned(to, n) <= Disowned(pc, n)
    && Scanned(to, n) <= Scanned(pc, n)
    && (to.WaitKid? || to.WaitTest? || to.WaitNext? ==> (pc.WaitKid? || pc.WaitTest? || pc.WaitNext?) && pc.k == to.k)
    && !to.WaitFree? && !to.ExitLock? && (to.ExitSet? ==> pc.ExitLock?)
    && (forall i: nat :: Claiming(to, i) ==> Claiming(pc, i) && Attached(to) == Attached(pc))
    && (Waking(to) && to.ret != ToClient({}) ==>
          Waking(pc) && Passed(to) == Passed(pc) && to.chan == pc.chan && to.ret == pc.ret)
    && !pc.WakeTest?
    && (KnowsChild(to) ==> KnowsChild(pc)) && Strangers(to) <= Strangers(pc) && !to.WaitUnlock?
    && !to.KillDone? && !to.ForkDone?
  }

  lemma AcquireWeaker(pc: Pc, t: nat, n: nat, l: Lock)
    requires Shape(pc, t, n) && Wants(pc, t, n, l)
    ensures Weaker(pc, Acquired(pc, l), n)
  {
    hide Held;
  }

  lemma ReleaseWeaker(pc: Pc, t: nat, n: nat, l: Lock)
    requires Shape(pc, t, n) && Yields(pc, t, l)
    ensures Weaker(pc, Released(pc, t, n, l), n)
  {
    hide Held;
  }

  lemma LockKeepsPromise(s: State, e: State, c: nat)
    requires Inv(s) && Rely(s, e, c) && e.procs == s.procs && Shape(e.pcs[s.cur[c]], s.cur[c], |e.procs|)
    requires Weaker(s.pcs[s.cur[c]], e.pcs[s.cur[c]], |s.procs|)
    ensures Promise(e.procs, e.pcs, s.cur[c])
  {
    hide Placed, Exclusion, Table, Waiters, Pids, OneClaim, Parents, Guarantee, OnlyEnters, Roused, ParentAwake, Shape;
    var t := s.cur[c];
    assert Promise(s.procs, s.pcs, t);
    SelfRoused(s, e, c);
    SelfAwake(s, e, c);
  }

  lemma MoveKeepsPromise(s: State, c: nat, a: Act)
    requires Inv(s) && Enabled(s, Move(c, a))
    ensures var e := Next(s, Move(c, a)); var t := s.cur[c];
            Rely(s, e, c) && Shape(e.pcs[t], t, |e.procs|) && !Off(e.pcs[t]) && Promise(e.procs, e.pcs, t)
  {
    hide Placed, Exclusion, Waiters, Pids, OneClaim, Guarantee, OnlyEnters, Roused, ParentAwake, Shape, Childless,
         NoZombies, Found,
         Forking, Waiting, Completed, Moves, Target, Written, Rely, ScanStep, ExitStep, Held, Off;
    var t := s.cur[c];
    var pc := s.pcs[t];
    var e := Next(s, Move(c, a));
    assert Promise(s.procs, s.pcs, t);
    MoveRely(s, c, a);
    OwnCounter(s, c, a);
    MoveChildless(s.procs, pc, t, a, s.nextpid);
    MoveScanned(s.procs, pc, t, a, s.nextpid);
    MoveFound(s.procs, pc, t, a, s.nextpid);
    MoveForking(s.procs, pc, t, a, s.nextpid);
    MoveWaiting(s.procs, pc, t, a, s.nextpid);
    MoveCompleted(s.procs, pc, t, a, s.nextpid);
    MoveScan(s.procs, pc, t, a);
    MoveExit(s.procs, pc, t, a);
    if pc.WakeTest? {
      Tested(s, c, a);
    }
    SelfRoused(s, e, c);
    SelfAwake(s, e, c);
  }

  lemma OwnCounter(s: State, c: nat, a: Act)
    requires Inv(s) && Enabled(s, Move(c, a))
    ensures var e := Next(s, Move(c, a)); var t := s.cur[c]; var pc := s.pcs[t];
            && t < |e.pcs| == |s.pcs| && e.pcs[t] == Target(s.procs, pc, t, a) && Shape(e.pcs[t], t, |e.procs|) &&
                 !Off(e.pcs[t])
            && (pc.WakeTest? ==> e.pcs[t].WakeNext?)
            && (Claims(s, pc) ==> pc.i != t && s.procs[pc.i].parent == NOBODY)
  {
    hide Placed, Exclusion, Waiters, Pids, OneClaim, Promise, Written, Held, Off, Moves;
    var t := s.cur[c];
    var pc := s.pcs[t];
    if t < |s.procs| {
      MoverRuns(s, c, a);
      assert HasParent(s.procs, t);
    }
    MovedShape(s.procs, pc, t, a);
    MovedOn(s.procs, pc, t, a);
    if Claims(s, pc) {
      UnusedIsOff(s, pc.i);
    }
  }

  lemma SwitchWeaker(pc: Pc, n: nat)
    requires pc.SleepSched? || pc.YieldSched? || pc.ExitSched?
    ensures Weaker(pc, Parked(pc), n)
  {
  }

  // ---- locks, threads and states stay consistent

  /** Only the thread on CPU c changes, from holding before to holding after. */
  predicate OnlyCpu(pcs: seq<Pc>, cur: seq<nat>, pcs': seq<Pc>, cur': seq<nat>, c: nat) {
    && c < |cur| == |cur'|
    && (forall d :: 0 <= d < |cur| ==> cur[d] < |pcs| && cur'[d] < |pcs'|)
    && (forall d :: 0 <= d < |cur| && d != c ==> cur'[d] == cur[d] && pcs'[cur'[d]] == pcs[cur[d]])
  }

  lemma SameLocks(
    pcs: seq<Pc>, cur: seq<nat>, pcs': seq<Pc>, cur': seq<nat>, c: nat, noff: seq<nat>, locks: map<Lock, nat>)
    requires OnlyCpu(pcs, cur, pcs', cur', c) && Exclusion(pcs, cur, noff, locks)
    requires Held(pcs'[cur'[c]], cur'[c]) == Held(pcs[cur[c]], cur[c])
    ensures Exclusion(pcs', cur', noff, locks)
  {
    hide Held;
  }

  lemma OneMoreLock(pcs: seq<Pc>, cur: seq<nat>, pcs': seq<Pc>, c: nat, noff: seq<nat>, locks: map<Lock, nat>, l: Lock)
    requires OnlyCpu(pcs, cur, pcs', cur, c) && Exclusion(pcs, cur, noff, locks) && l !in locks
    requires Held(pcs'[cur[c]], cur[c]) == Held(pcs[cur[c]], cur[c]) + {l}
    ensures Exclusion(pcs', cur, noff[c := noff[c] + 1], locks[l := c])
  {
    hide Held;
  }

  lemma OneLockLess(pcs: seq<Pc>, cur: seq<nat>, pcs': seq<Pc>, c: nat, noff: seq<nat>, locks: map<Lock, nat>, l: Lock)
    requires OnlyCpu(pcs, cur, pcs', cur, c) && Exclusion(pcs, cur, noff, locks)
    requires l in Held(pcs[cur[c]], cur[c]) && Held(pcs'[cur[c]], cur[c]) == Held(pcs[cur[c]], cur[c]) - {l}
    ensures noff[c] > 0 && Exclusion(pcs', cur, noff[c := noff[c] - 1], locks - {l})
  {
    hide Held;
    var h := Held(pcs[cur[c]], cur[c]);
    assert h == (h - {l}) + {l};
    assert |h - {l}| == |h| - 1;
    assert noff[c] == |h|;
    forall d, k | 0 <= d < |cur| && k in Held(pcs'[cur[d]], cur[d]) ensures k in locks - {l} && (locks - {l})[k] == d {
      assert locks[k] == d;
    }
    assert forall k :: k in locks - {l} ==> k in locks;
    assert forall k :: k in locks - {l} ==> locks[k] < |cur| && k in Held(pcs'[cur[locks[k]]], cur[locks[k]]);
  }

  lemma AcquireFits(p: Proc, pc: Pc, t: nat, n: nat, l: Lock)
    requires Fits(p, pc, true) && Wants(pc, t, n, l)
    ensures Fits(p, Acquired(pc, l), true)
  {
  }

  lemma ReleaseFits(p: Proc, pc: Pc, t: nat, n: nat, l: Lock)
    requires Shape(pc, t, n) && Fits(p, pc, true) && Yields(pc, t, l)
    ensures Fits(p, Released(pc, t, n, l), true)
  {
  }

  /** A new counter for a thread that stays on its CPU. */
  lemma PlacedKept(pcs: seq<Pc>, cur: seq<nat>, n: nat, c: nat, to: Pc)
    requires Placed(pcs, cur, n) && c < |cur| && cur[c] < |pcs| && !Off(to)
    ensures Placed(pcs[cur[c] := to], cur, n)
    ensures OnlyCpu(pcs, cur, pcs[cur[c] := to], cur, c)
  {
  }

  lemma AcquireBase(s: State, c: nat, l: Lock)
    requires Base(s) && Enabled(s, Acquire(c, l))
    ensures var e := Next(s, Acquire(c, l));
            Base(e) && OnlyCpu(s.pcs, s.cur, e.pcs, e.cur, c) && Weaker(s.pcs[s.cur[c]], e.pcs[s.cur[c]], |s.procs|)
  {
    hide Placed, Exclusion, Shape, Held, Fits, Wants, Acquired, Off, Weaker, OnlyCpu;
    var t := s.cur[c];
    var pc := s.pcs[t];
    AcquiredHeld(pc, t, |s.procs|, l);
    AcquiredShape(pc, t, |s.procs|, l);
    AcquireWeaker(pc, t, |s.procs|, l);
    PlacedKept(s.pcs, s.cur, |s.procs|, c, Acquired(pc, l));
    OneMoreLock(s.pcs, s.cur, s.pcs[t := Acquired(pc, l)], c, s.noff, s.locks, l);
    if t < |s.procs| {
      AcquireFits(s.procs[t], pc, t, |s.procs|, l);
    }
  }

  lemma ReleaseBase(s: State, c: nat, l: Lock)
    requires Base(s) && Enabled(s, Release(c, l))
    ensures var e := Next(s, Release(c, l));
            Base(e) && OnlyCpu(s.pcs, s.cur, e.pcs, e.cur, c) && Weaker(s.pcs[s.cur[c]], e.pcs[s.cur[c]], |s.procs|)
  {
    hide Placed, Exclusion, Shape, Held, Fits, Yields, Released, Off, Weaker, OnlyCpu;
    var t := s.cur[c];
    var pc := s.pcs[t];
    ReleasedHeld(pc, t, |s.procs|, l);
    ReleasedShape(pc, t, |s.procs|, l);
    ReleaseWeaker(pc, t, |s.procs|, l);
    PlacedKept(s.pcs, s.cur, |s.procs|, c, Released(pc, t, |s.procs|, l));
    OneLockLess(s.pcs, s.cur, s.pcs[t := Released(pc, t, |s.procs|, l)], c, s.noff, s.locks, l);
    if t < |s.procs| {
      ReleaseFits(s.procs[t], pc, t, |s.procs|, l);
    }
  }

  /** An interrupt where no lock is held. */
  lemma Ticked(pc: Pc, t: nat, n: nat)
    requires Shape(pc, t, n) && Interruptible(pc) && t < n
    ensures Held(Yield(pc), t) == Held(pc, t) == {} && Shape(Yield(pc), t, n) && !Off(Yield(pc))
    ensures Weaker(pc, Yield(pc), n) && SameWake(pc, Yield(pc), n)
    ensures forall p :: Fits(p, pc, true) ==> Fits(p, Yield(pc), true)
  {
  }

  lemma TickBase(s: State, c: nat)
    requires Base(s) && Enabled(s, Tick(c))
    ensures var e := Next(s, Tick(c));
            && Base(e) && OnlyCpu(s.pcs, s.cur, e.pcs, e.cur, c) && Weaker(s.pcs[s.cur[c]], e.pcs[s.cur[c]], |s.procs|)
            && SameWake(s.pcs[s.cur[c]], e.pcs[s.cur[c]], |s.procs|)
  {
    hide Placed, Exclusion, Shape, Held, Fits, Interruptible, Off, Weaker, OnlyCpu, SameWake;
    var t := s.cur[c];
    Ticked(s.pcs[t], t, |s.procs|);
    PlacedKept(s.pcs, s.cur, |s.procs|, c, Yield(s.pcs[t]));
    SameLocks(s.pcs, s.cur, s.pcs[t := Yield(s.pcs[t])], s.cur, c, s.noff, s.locks);
  }

  lemma InUpdate(cur: seq<nat>, c: nat, v: nat)
    requires c < |cur| && forall d :: 0 <= d < |cur| && d != c ==> cur[d] != cur[c]
    ensures forall t :: t in cur[c := v] <==> t == v || (t in cur && t != cur[c])
  {
    var cur' := cur[c := v];
    assert cur'[c] == v;
    forall t | t in cur && t != cur[c] ensures t in cur' {
      var d :| 0 <= d < |cur| && cur[d] == t;
      assert cur'[d] == t;
    }
  }

  lemma DispatchPlaced(pcs: seq<Pc>, cur: seq<nat>, n: nat, c: nat, i: nat)
    requires Placed(pcs, cur, n) && c < |cur| && cur[c] == n + c && i < n && i !in cur && !pcs[i].Dead? && !pcs[i].Ran?
    ensures Placed(pcs[n + c := Ran(i)], cur[c := i], n) && OnlyCpu(pcs, cur, pcs[n + c := Ran(i)], cur[c := i], c)
  {
    hide Off;
    InUpdate(cur, c, i);
    var pcs', cur' := pcs[n + c := Ran(i)], cur[c := i];
    assert forall u :: 0 <= u < |pcs| && u != n + c ==> pcs'[u] == pcs[u];
    assert forall d :: 0 <= d < |cur| && d != c ==> cur'[d] == cur[d] != n + c;
    RanIsOff(i);
  }

  lemma RanIsOff(i: nat)
    ensures Off(Ran(i))
  {
  }

  lemma DispatchTable(procs: seq<Proc>, pcs: seq<Pc>, cur: seq<nat>, c: nat, i: nat)
    requires Table(procs, pcs, cur) && c < |cur| && cur[c] == |procs| + c < |pcs| && i < |procs| && i !in cur
    requires pcs[i].Resume? || pcs[i].SleepBack?
    requires forall d :: 0 <= d < |cur| && d != c ==> cur[d] != cur[c]
    ensures Table(procs[i := procs[i].(state := RUNNING)], pcs[cur[c] := Ran(i)], cur[c := i])
  {
    InUpdate(cur, c, i);
  }

  lemma DispatchBase(s: State, c: nat)
    requires Base(s) && Enabled(s, Dispatch(c))
    ensures var e := Next(s, Dispatch(c)); Base(e) && OnlyCpu(s.pcs, s.cur, e.pcs, e.cur, c)
  {
    hide Placed, Exclusion, Held, Table, OnlyCpu, Off, BackShape, Condition, RetShape;
    var t := s.cur[c];
    var i := s.pcs[t].i;
    var e := Next(s, Dispatch(c));
    Separate(s, c);
    Parking(s, c, i);
    DispatchPlaced(s.pcs, s.cur, |s.procs|, c, i);
    DispatchTable(s.procs, s.pcs, s.cur, c, i);
    SameLocks(s.pcs, s.cur, e.pcs, e.cur, c, s.noff, s.locks);
  }

  /** The scheduler holds the lock of the process it is about to run, which is on no CPU. */
  lemma Parking(s: State, c: nat, i: nat)
    requires Base(s) && c < |s.cur| && i < |s.procs| && s.pcs[s.cur[c]] == Pick(i) && s.procs[i].state == RUNNABLE
    ensures i !in s.cur && s.cur[c] == |s.procs| + c && Held(s.pcs[i], i) == {Slot(i)} == Held(Pick(i), s.cur[c])
    ensures s.pcs[i].Resume? || s.pcs[i].SleepBack?
  {
    hide Exclusion;
    assert Shape(s.pcs[s.cur[c]], s.cur[c], |s.procs|);
    if i in s.cur {
      assert s.pcs[i].YieldSched?;
      Exclusive(s, c, i, Slot(i));
    }
  }

  lemma ParkedOff(pc: Pc)
    ensures Off(Parked(pc))
  {
  }

  lemma SwitchSeated(cur: seq<nat>, n: nat, c: nat)
    requires Seated(cur, n) && c < |cur| && cur[c] < n
    ensures Seated(cur[c := n + c], n)
  {
  }

  lemma SwitchPlaced(pcs: seq<Pc>, cur: seq<nat>, pcs': seq<Pc>, n: nat, c: nat)
    requires Placed(pcs, cur, n) && c < |cur| && cur[c] < n
    requires pcs' == pcs[cur[c] := Parked(pcs[cur[c]])][n + c := Drop(cur[c])]
    ensures Placed(pcs', cur[c := n + c], n)
  {
    hide Off, Parked;
    var t, cur' := cur[c], cur[c := n + c];
    SwitchSeated(cur, n, c);
    InUpdate(cur, c, n + c);
    ParkedOff(pcs[t]);
    Elsewhere(cur, n, c);
    assert forall u :: 0 <= u < |pcs| && u != t && u != n + c ==> pcs'[u] == pcs[u];
    hide Seated;
    forall u | 0 <= u < |pcs'| && u !in cur' ensures Off(pcs'[u]) {
      assert u != n + c && (u == t || u !in cur);
    }
  }

  /** The other CPUs run other threads. */
  lemma Elsewhere(cur: seq<nat>, n: nat, c: nat)
    requires Seated(cur, n) && c < |cur| && cur[c] < n
    ensures forall d :: 0 <= d < |cur| && d != c ==> cur[d] != cur[c] && cur[d] != n + c && cur[c := n + c][d] == cur[d]
    ensures cur[c := n + c][c] == n + c
  {
  }

  lemma SwitchOnlyCpu(pcs: seq<Pc>, cur: seq<nat>, pcs': seq<Pc>, n: nat, c: nat)
    requires Placed(pcs, cur, n) && c < |cur| && cur[c] < n
    requires pcs' == pcs[cur[c] := Parked(pcs[cur[c]])][n + c := Drop(cur[c])]
    ensures OnlyCpu(pcs, cur, pcs', cur[c := n + c], c)
  {
    hide Off, Parked;
  }

  lemma SwitchTable(procs: seq<Proc>, pcs: seq<Pc>, cur: seq<nat>, c: nat)
    requires Table(procs, pcs, cur) && c < |cur| && cur[c] < |procs| && |procs| + c < |pcs|
    requires pcs[cur[c]].SleepSched? || pcs[cur[c]].YieldSched? || pcs[cur[c]].ExitSched?
    requires forall d :: 0 <= d < |cur| && d != c ==> cur[d] != cur[c]
    ensures Table(procs, pcs[cur[c] := Parked(pcs[cur[c]])][|procs| + c := Drop(cur[c])], cur[c := |procs| + c])
  {
    InUpdate(cur, c, |procs| + c);
  }

  lemma Separate(s: State, c: nat)
    requires Base(s) && c < |s.cur|
    ensures forall d :: 0 <= d < |s.cur| && d != c ==> s.cur[d] != s.cur[c]
  {
    hide Exclusion, Table, Shapes;
  }

  lemma SwitchBase(s: State, c: nat)
    requires Base(s) && Enabled(s, Switch(c))
    ensures var e := Next(s, Switch(c)); Base(e) && OnlyCpu(s.pcs, s.cur, e.pcs, e.cur, c)
  {
    hide Placed, Exclusion, Held, Table, OnlyCpu, Fits;
    var t := s.cur[c];
    var e := Next(s, Switch(c));
    Separate(s, c);
    SwitchHeld(s.pcs[t], t, |s.procs| + c);
    SwitchTable(s.procs, s.pcs, s.cur, c);
    SwitchPlaced(s.pcs, s.cur, e.pcs, |s.procs|, c);
    SwitchOnlyCpu(s.pcs, s.cur, e.pcs, |s.procs|, c);
    SameLocks(s.pcs, s.cur, e.pcs, e.cur, c, s.noff, s.locks);
  }

  lemma SwitchHeld(pc: Pc, t: nat, me: nat)
    requires pc.SleepSched? || pc.YieldSched? || pc.ExitSched?
    ensures Held(Drop(t), me) == Held(pc, t)
  {
  }

  lemma PlacedIdle(pcs: seq<Pc>, cur: seq<nat>, pcs': seq<Pc>, n: nat, c: nat, i: nat)
    requires Placed(pcs', cur, n) && OnlyCpu(pcs, cur, pcs', cur, c) && i < n && i !in cur
    ensures Placed(pcs'[i := Resume(Client({}))], cur, n) && OnlyCpu(pcs, cur, pcs'[i := Resume(Client({}))], cur, c)
  {
  }

  lemma MoveOwnFits(procs: seq<Proc>, pc: Pc, t: nat, a: Act, nextpid: nat)
    requires Shape(pc, t, |procs|) && Moves(procs, pc, t, a) && t < |procs| && procs[t].state == RUNNING
    ensures var w := Written(procs, pc, t, a, nextpid); Fits(procs[w.0 := w.1][t], Target(procs, pc, t, a), true)
  {
    hide Held, Call, Callable;
    if pc.Client? {
      CallPromisesNothing(pc.held, a, t, |procs|);
    }
  }

  lemma MoveOtherFits(procs: seq<Proc>, pc: Pc, t: nat, a: Act, nextpid: nat, other: Pc)
    requires Shape(pc, t, |procs|) && Moves(procs, pc, t, a) && |procs| > 0 && Forking(procs, pc, t) &&
             Found(procs, pc, t)
    requires Fits(procs[Written(procs, pc, t, a, nextpid).0], other, false) && Written(procs, pc, t, a, nextpid).0 != t
    ensures var w := Written(procs, pc, t, a, nextpid);
            Fits(w.1, if pc.ForkTest? && procs[pc.i].state == UNUSED then Resume(Client({})) else other, false)
  {
    hide Held;
    assert pc.ForkMade? || pc.ForkParent? || pc.ForkStart? ==> Claiming(pc, pc.i);
  }

  lemma MoveRunningFits(procs: seq<Proc>, pc: Pc, t: nat, a: Act, nextpid: nat, other: Pc)
    requires Shape(pc, t, |procs|) && Moves(procs, pc, t, a) && |procs| > 0 && Forking(procs, pc, t) &&
             Found(procs, pc, t)
    requires var j := Written(procs, pc, t, a, nextpid).0;
             Fits(procs[j], other, true) && j != t && (Slot(j) in Held(pc, t) ==> procs[j].state == RUNNING)
    ensures var w := Written(procs, pc, t, a, nextpid); Fits(w.1, other, true)
  {
    assert pc.ForkMade? || pc.ForkParent? || pc.ForkStart? ==> Claiming(pc, pc.i);
  }

  /** A running process whose lock is held elsewhere is in state RUNNING. */
  lemma LockedOut(s: State, c: nat, j: nat)
    requires Base(s) && c < |s.cur| && j < |s.procs| && j in s.cur && j != s.cur[c] &&
             Slot(j) in Held(s.pcs[s.cur[c]], s.cur[c])
    ensures s.procs[j].state == RUNNING
  {
    hide Exclusion;
    if s.procs[j].state != RUNNING {
      Exclusive(s, c, j, Slot(j));
    }
  }

  lemma MoveTable(s: State, c: nat, a: Act)
    requires Inv(s) && Enabled(s, Move(c, a))
    ensures var e := Next(s, Move(c, a)); Table(e.procs, e.pcs, e.cur)
  {
    hide Placed, Exclusion, Shape, Held, Fits, Moves, Target, Off, Waiters, Pids, Parents, OneClaim, Roused, Childless,
         NoZombies,
         ParentAwake, Found, Forking, Waiting, Completed;
    var t := s.cur[c];
    var pc := s.pcs[t];
    var e := Next(s, Move(c, a));
    assert Promise(s.procs, s.pcs, t);
    OwnCounter(s, c, a);
    var j := Written(s.procs, pc, t, a, s.nextpid).0;
    if t < |s.procs| {
      MoverRuns(s, c, a);
      MoveOwnFits(s.procs, pc, t, a, s.nextpid);
    }
    if j != t {
      if j in s.cur {
        if Slot(j) in Held(pc, t) {
          LockedOut(s, c, j);
        }
        MoveRunningFits(s.procs, pc, t, a, s.nextpid, s.pcs[j]);
      } else {
        MoveOtherFits(s.procs, pc, t, a, s.nextpid, s.pcs[j]);
      }
    }
    if Claims(s, pc) {
      UnusedIsOff(s, pc.i);
    }
  }

  lemma MoveBase(s: State, c: nat, a: Act)
    requires Inv(s) && Enabled(s, Move(c, a))
    ensures var e := Next(s, Move(c, a)); Base(e) && OnlyCpu(s.pcs, s.cur, e.pcs, e.cur, c)
  {
    hide Placed, Exclusion, Shape, Held, Table, Moves, Target, Off, Waiters, Pids, Parents, OneClaim, Promise, OnlyCpu,
         Written;
    var t := s.cur[c];
    var pc := s.pcs[t];
    var e := Next(s, Move(c, a));
    OwnCounter(s, c, a);
    MoveTable(s, c, a);
    MovedHeld(s.procs, pc, t, a);
    PlacedKept(s.pcs, s.cur, |s.procs|, c, Target(s.procs, pc, t, a));
    if Claims(s, pc) {
      UnusedIsOff(s, pc.i);
      PlacedIdle(s.pcs, s.cur, s.pcs[t := Target(s.procs, pc, t, a)], |s.procs|, c, pc.i);
      ResumeShape(pc.i, |s.procs|);
    }
    SameLocks(s.pcs, s.cur, e.pcs, e.cur, c, s.noff, s.locks);
  }

  lemma ResumeShape(i: nat, n: nat)
    requires i < n
    ensures Shape(Resume(Client({})), i, n)
  {
  }

  // ---- the table as a whole

  lemma MoveClaims(procs: seq<Proc>, pc: Pc, t: nat, a: Act)
    requires Shape(pc, t, |procs|) && Moves(procs, pc, t, a)
    ensures forall i: nat ::
              Claiming(Target(procs, pc, t, a), i) ==> Claiming(pc, i) || (i < |procs| && procs[i].state == UNUSED)
  {
    hide Held, Call, Callable;
    if pc.Client? {
      CallPromisesNothing(pc.held, a, t, |procs|);
    }
  }

  lemma KeepsOneClaim(s: State, e: State, c: nat)
    requires Inv(s) && Rely(s, e, c)
    requires forall i: nat ::
               Claiming(e.pcs[s.cur[c]], i) ==>
                 Claiming(s.pcs[s.cur[c]], i) || (i < |s.procs| && s.procs[i].state == UNUSED)
    ensures OneClaim(e.pcs)
  {
    hide Placed, Exclusion, Table, Waiters, Pids, Parents, Guarantee, OnlyEnters, Roused, Childless, NoZombies, Found,
         ParentAwake, Shape;
    var t := s.cur[c];
    forall u, i: nat | 0 <= u < |s.pcs| && u != t && Claiming(e.pcs[u], i) ensures !Claiming(e.pcs[t], i) {
      assert Promise(s.procs, s.pcs, u);
      ClaimInRange(s, u, i);
    }
    assert forall u, i: nat :: 0 <= u < |s.pcs| && u != t && Claiming(e.pcs[u], i) ==> Claiming(s.pcs[u], i);
  }

  lemma ClaimInRange(s: State, u: nat, i: nat)
    requires Base(s) && u < |s.pcs| && Claiming(s.pcs[u], i)
    ensures i < |s.procs|
  {
    hide Placed, Exclusion, Table;
    assert Shape(s.pcs[u], u, |s.procs|);
  }

  /** Only kexit ends a live process. */
  lemma StaysLive(s: State, e: State, c: nat, w: nat)
    requires Rely(s, e, c) && w < |s.procs| && Live(s.procs[w].state) && !(s.pcs[s.cur[c]].ExitSet? && w == s.cur[c])
    ensures Live(e.procs[w].state)
  {
    hide OnlyEnters, Held;
    assert Guarantee(s.procs[w], e.procs[w], w, s.pcs[s.cur[c]], s.cur[c]);
  }

  lemma KeepsParent(s: State, e: State, c: nat, j: nat)
    requires Inv(s) && Rely(s, e, c) && j < |s.procs| && c < |s.cur|
    ensures HasParent(e.procs, j)
    ensures j == INIT ==> e.procs[j].parent == NOBODY
  {
    hide Placed, Exclusion, Waiters, Pids, OneClaim, OnlyEnters, Roused, NoZombies, ParentAwake, Held, Rely;
    var t := s.cur[c];
    assert Sized(e) && |e.procs| == |s.procs| && Guarantee(s.procs[j], e.procs[j], j, s.pcs[t],
           t) by { Slotwise(s, e, c, j); }
    assert HasParent(s.procs, j) && Promise(s.procs, s.pcs, t) && Shape(s.pcs[t], t, |s.procs|);
    if e.procs[j].parent == s.procs[j].parent {
      if s.procs[j].parent != NOBODY {
        StaysLive(s, e, c, s.procs[j].parent);
      }
    } else if Claiming(s.pcs[t], j) {
      assert s.procs[j].state == USED && Fits(s.procs[t], s.pcs[t], t in s.cur);
      StaysLive(s, e, c, t);
    } else if s.pcs[t].Reparent? {
      StaysLive(s, e, c, INIT);
    }
  }

  lemma Slotwise(s: State, e: State, c: nat, j: nat)
    requires Rely(s, e, c) && j < |s.procs|
    ensures Sized(e) && |e.procs| == |s.procs| && c < |s.cur| &&
            Guarantee(s.procs[j], e.procs[j], j, s.pcs[s.cur[c]], s.cur[c])
  {
    hide Guarantee;
  }

  lemma KeepsParents(s: State, e: State, c: nat)
    requires Inv(s) && Rely(s, e, c)
    ensures Parents(e.procs)
  {
    hide Base, Waiters, Pids, OneClaim, Guarantee, OnlyEnters, Promise;
    forall j | 0 <= j < |e.procs| ensures HasParent(e.procs, j) && (j == INIT ==> e.procs[j].parent == NOBODY) {
      KeepsParent(s, e, c, j);
    }
    InitStays(s, c);
    StaysLive(s, e, c, INIT);
  }

  lemma InitStays(s: State, c: nat)
    requires Base(s) && c < |s.cur|
    ensures !(s.pcs[s.cur[c]].ExitSet? && s.cur[c] == INIT)
  {
    hide Placed, Exclusion, Table;
    assert Shape(s.pcs[s.cur[c]], s.cur[c], |s.procs|);
  }

  /** Who holds wait_lock keeps it, and its counter, while another CPU steps. */
  predicate HolderStays(s: State, e: State, c: nat) {
    WaitLock in s.locks && s.locks[WaitLock] < |s.cur| == |e.cur| && s.locks[WaitLock] != c ==>
      var d := s.locks[WaitLock];
      WaitLock in e.locks && e.locks[WaitLock] == d && e.cur[d] == s.cur[d] < |s.pcs| == |e.pcs| &&
        e.pcs[e.cur[d]] == s.pcs[s.cur[d]]
  }

  /** A thread in wakeup under wait_lock stays there until its scan is complete. */
  predicate WakeStays(s: State, e: State, c: nat)
    requires c < |s.cur| && s.cur[c] < |s.pcs|
  {
    var pc := s.pcs[s.cur[c]];
    Waking(pc) && WaitLock in RetHeld(pc.ret) && Passed(pc) < |s.procs| ==>
      && WaitLock in e.locks && e.locks[WaitLock] == c && c < |e.cur| && e.cur[c] == s.cur[c] < |e.pcs|
      && Waking(e.pcs[s.cur[c]]) && e.pcs[s.cur[c]].chan == pc.chan && e.pcs[s.cur[c]].ret == pc.ret
  }

  /** When reparent gives a child to init, it goes on to wake init, still holding wait_lock. */
  predicate ReparentWakes(s: State, e: State, c: nat)
    requires c < |s.cur| && s.cur[c] < |s.pcs|
  {
    s.pcs[s.cur[c]].Reparent? && e.procs != s.procs ==> Rousing(e.pcs, e.cur, e.locks, INIT)
  }

  /** The scan in progress reaches w. */
  lemma StillRousing(s: State, e: State, c: nat, w: nat)
    requires Inv(s) && Rely(s, e, c) && HolderStays(s, e, c) && WakeStays(s, e, c)
    requires w < |s.procs| && Rousing(s.pcs, s.cur, s.locks, w) &&
             Asleep(s.pcs[w], s.procs[w].state, ProcChan(w), WaitLock)
    ensures Rousing(e.pcs, e.cur, e.locks, w)
  {
    hide Placed, Table, Pids, OneClaim, Waiters, Parents, OnlyEnters, Guarantee, Childless, NoZombies, Found,
         ParentAwake, Forking, Waiting, Completed, Shape;
    var t := s.cur[c];
    var d := s.locks[WaitLock];
    if d == c {
      var pc := s.pcs[t];
      assert Promise(s.procs, s.pcs, t);
      assert pc.chan == ProcChan(w) && WaitLock in RetHeld(pc.ret);
    }
  }

  lemma KeepsWaiters(s: State, e: State, c: nat, w: nat, k: nat)
    requires Inv(s) && c < |s.cur| && Rely(s, e, c) && w < |s.procs| && k < |s.procs|
    requires HolderStays(s, e, c) && WakeStays(s, e, c) && ReparentWakes(s, e, c)
    requires Unheard(e.procs, e.pcs, w, k)
    ensures Rousing(e.pcs, e.cur, e.locks, w)
  {
    hide Placed, Exclusion, Table, Pids, OneClaim, Parents, OnlyEnters, Asleep, Rely, HolderStays, WakeStays, Roused,
         Childless, Found, Rousing, Held;
    var t := s.cur[c];
    NewSleeper(s, e, c, w, ProcChan(w), WaitLock);
    Slotwise(s, e, c, k);
    assert Promise(s.procs, s.pcs, t);
    if Unheard(s.procs, s.pcs, w, k) {
      StillRousing(s, e, c, w);
    } else {
      assert !s.pcs[t].ExitSet?;
    }
  }

  predicate SameWake(pc: Pc, to: Pc, n: nat) {
    Waking(pc) && pc.ret != ToClient({}) && Passed(pc) < n ==> Waking(to) && to.chan == pc.chan && to.ret == pc.ret
  }

  lemma AcquireWakes(pc: Pc, t: nat, n: nat, l: Lock)
    requires Wants(pc, t, n, l)
    ensures SameWake(pc, Acquired(pc, l), n)
  {
  }

  lemma ReleaseWakes(pc: Pc, t: nat, n: nat, l: Lock)
    requires Yields(pc, t, l)
    ensures SameWake(pc, Released(pc, t, n, l), n)
  {
  }

  lemma MoveWakes(procs: seq<Proc>, pc: Pc, t: nat, a: Act)
    requires Shape(pc, t, |procs|) && Moves(procs, pc, t, a)
    ensures SameWake(pc, Target(procs, pc, t, a), |procs|)
  {
    hide Held, Call, Callable;
    if pc.Client? {
      CallPromisesNothing(pc.held, a, t, |procs|);
    }
  }

  lemma HolderKept(s: State, e: Step)
    requires Base(s) && Enabled(s, e)
    requires var f := Next(s, e); Base(f) && OnlyCpu(s.pcs, s.cur, f.pcs, f.cur, e.c)
    requires |Next(s, e).pcs| == |s.pcs|
    ensures HolderStays(s, Next(s, e), e.c)
  {
    hide Placed, Table, Shapes, Shape, Moves, Wants, Target, Written, Held, Acquired, Released, MovedPcs;
    if e.Release? {
      ReleasedHeld(s.pcs[s.cur[e.c]], s.cur[e.c], |s.procs|, e.l);
    }
  }

  lemma WakingHolds(pc: Pc, t: nat, l: Lock)
    requires Waking(pc) && l in RetHeld(pc.ret)
    ensures l in Held(pc, t)
  {
  }

  lemma WakeKept(s: State, e: State, c: nat)
    requires Base(s) && Base(e) && c < |s.cur| == |e.cur| && |e.procs| == |s.procs|
    requires SameWake(s.pcs[s.cur[c]], e.pcs[s.cur[c]], |s.procs|)
    requires Waking(s.pcs[s.cur[c]]) ==> e.cur == s.cur
    ensures WakeStays(s, e, c)
  {
    hide Placed, Table, Shapes, Held;
    var t := s.cur[c];
    var pc := s.pcs[t];
    if Waking(pc) && WaitLock in RetHeld(pc.ret) && Passed(pc) < |s.procs| {
      WakingHolds(e.pcs[t], t, WaitLock);
    }
  }

  lemma ReparentRouses(s: State, c: nat, a: Act)
    requires Base(s) && Enabled(s, Move(c, a)) && Base(Next(s, Move(c, a)))
    ensures ReparentWakes(s, Next(s, Move(c, a)), c)
  {
    hide Placed, Table, Shapes, Callable, Call, Held;
    var t := s.cur[c];
    var e := Next(s, Move(c, a));
    if s.pcs[t].Reparent? && e.procs != s.procs {
      WakingHolds(e.pcs[t], t, WaitLock);
    }
  }

  // ---- pids and the history of exits

  /** The step matters neither to pids nor to the history. */
  predicate SameExits(p: Proc, q: Proc) {
    q.pid == p.pid && q.xstate == p.xstate && (q.state == UNUSED <==> p.state == UNUSED) &&
      (q.state == ZOMBIE <==> p.state == ZOMBIE)
  }

  lemma PidsSame(procs: seq<Proc>, procs': seq<Proc>, nextpid: nat, exited: map<nat, int>, reaped: seq<Reaping>)
    requires Pids(procs, nextpid, exited, reaped) && |procs'| == |procs|
    requires forall j :: 0 <= j < |procs| ==> SameExits(procs[j], procs'[j])
    ensures Pids(procs', nextpid, exited, reaped)
  {
    hide Reported;
    forall pid: nat ensures Pending(procs', pid) == Pending(procs, pid) {
      if Pending(procs, pid) {
        var j :| 0 <= j < |procs| && procs[j].state == ZOMBIE && procs[j].pid == pid;
        assert procs'[j].state == ZOMBIE && procs'[j].pid == pid;
      }
    }
  }

  lemma PidsClaimed(procs: seq<Proc>, i: nat, q: Proc, nextpid: nat, exited: map<nat, int>, reaped: seq<Reaping>)
    requires Pids(procs, nextpid, exited, reaped) && i < |procs| && procs[i].state == UNUSED && q.state == USED &&
             q.pid == nextpid
    ensures Pids(procs[i := q], nextpid + 1, exited, reaped)
  {
    hide Reported;
    SamePending(procs, i, q);
  }

  lemma PidsFreed(procs: seq<Proc>, i: nat, q: Proc, nextpid: nat, exited: map<nat, int>, reaped: seq<Reaping>)
    requires Pids(procs, nextpid, exited, reaped) && i < |procs| && procs[i].state == USED && q.state == UNUSED
    ensures Pids(procs[i := q], nextpid, exited, reaped)
  {
    hide Reported;
    SamePending(procs, i, q);
  }

  lemma SamePending(procs: seq<Proc>, i: nat, q: Proc)
    requires i < |procs| && procs[i].state != ZOMBIE && q.state != ZOMBIE
    ensures forall pid: nat :: Pending(procs[i := q], pid) == Pending(procs, pid)
  {
    forall pid: nat ensures Pending(procs[i := q], pid) == Pending(procs, pid) {
      if Pending(procs, pid) {
        var j :| 0 <= j < |procs| && procs[j].state == ZOMBIE && procs[j].pid == pid;
        assert procs[i := q][j] == procs[j];
      }
    }
  }

  lemma PidsExited(procs: seq<Proc>, t: nat, q: Proc, nextpid: nat, exited: map<nat, int>, reaped: seq<Reaping>)
    requires Pids(procs, nextpid, exited, reaped) && t < |procs| && procs[t].state == RUNNING && q.state == ZOMBIE &&
             q.pid == procs[t].pid
    ensures Pids(procs[t := q], nextpid, exited[q.pid := q.xstate], reaped)
  {
    hide Reported;
    var procs' := procs[t := q];
    assert procs'[t] == q;
    forall pid: nat ensures Pending(procs', pid) <==> Pending(procs, pid) || pid == q.pid {
      if Pending(procs, pid) {
        var j :| 0 <= j < |procs| && procs[j].state == ZOMBIE && procs[j].pid == pid;
        assert procs'[j] == procs[j];
      }
    }
  }

  lemma PendingReaped(procs: seq<Proc>, k: nat, q: Proc, pid: nat)
    requires k < |procs| && procs[k].state == ZOMBIE && q.state == UNUSED
    requires forall j :: 0 <= j < |procs| && j != k && procs[j].state != UNUSED ==> procs[j].pid != procs[k].pid
    ensures Pending(procs[k := q], pid) <==> Pending(procs, pid) && pid != procs[k].pid
  {
    if Pending(procs, pid) && pid != procs[k].pid {
      var j :| 0 <= j < |procs| && procs[j].state == ZOMBIE && procs[j].pid == pid;
      assert procs[k := q][j] == procs[j];
    }
  }

  lemma ReportedMore(reaped: seq<Reaping>, r: Reaping, pid: nat)
    ensures Reported(reaped + [r], pid) <==> Reported(reaped, pid) || pid == r.pid
  {
    var more := reaped + [r];
    assert more[|reaped|] == r;
    if i :| 0 <= i < |reaped| && reaped[i].pid == pid {
      assert more[i].pid == pid;
    }
  }

  lemma RecordedReaped(
    procs: seq<Proc>, procs': seq<Proc>, nextpid: nat, exited: map<nat, int>, reaped: seq<Reaping>, r: Reaping)
    requires Recorded(procs, nextpid, exited, reaped) && Pending(procs, r.pid) && TrueReport(r, exited)
    requires forall pid: nat :: Pending(procs', pid) <==> Pending(procs, pid) && pid != r.pid
    ensures Recorded(procs', nextpid, exited, reaped + [r])
  {
    hide Pending, Reported, TrueReport;
    forall pid: nat ensures Reported(reaped + [r], pid) <==> Reported(reaped, pid) || pid == r.pid {
      ReportedMore(reaped, r, pid);
    }
    assert forall i :: 0 <= i < |reaped| ==> reaped[i] in reaped && (reaped + [r])[i] == reaped[i];
  }

  lemma PidsReaped(
    procs: seq<Proc>, k: nat, q: Proc, nextpid: nat, exited: map<nat, int>, reaped: seq<Reaping>, r: Reaping)
    requires Pids(procs, nextpid, exited, reaped) && k < |procs| && procs[k].state == ZOMBIE && q.state == UNUSED
    requires r.pid == procs[k].pid && r.status == procs[k].xstate && r.reaper == r.parent
    ensures Pids(procs[k := q], nextpid, exited, reaped + [r])
  {
    hide Recorded;
    assert Pending(procs, r.pid);
    forall pid: nat ensures Pending(procs[k := q], pid) <==> Pending(procs, pid) && pid != r.pid {
      PendingReaped(procs, k, q, pid);
    }
    hide Pending;
    RecordedReaped(procs, procs[k := q], nextpid, exited, reaped, r);
  }

  lemma MoveSameExits(procs: seq<Proc>, pc: Pc, t: nat, a: Act, nextpid: nat)
    requires Shape(pc, t, |procs|) && Moves(procs, pc, t, a) && |procs| > 0 && Forking(procs, pc, t) &&
             (t < |procs| ==> procs[t].state == RUNNING)
    requires !pc.ExitSet? && !pc.WaitFree? && !(pc.ForkTest? && procs[pc.i].state == UNUSED) &&
             !(pc.ForkMade? && a == Fail)
    ensures var w := Written(procs, pc, t, a, nextpid); SameExits(procs[w.0], w.1)
  {
    hide Held;
    assert pc.ForkParent? || pc.ForkStart? ==> Claiming(pc, pc.i);
  }

  lemma MovePids(s: State, c: nat, a: Act)
    requires Inv(s) && Enabled(s, Move(c, a))
    ensures var e := Next(s, Move(c, a)); Pids(e.procs, e.nextpid, e.exited, e.reaped)
  {
    hide Base, Moves, Held, Pids, Waiters, Parents, OneClaim, Roused, Childless, NoZombies, ParentAwake, SameExits,
         MovedPcs;
    var t := s.cur[c];
    var pc := s.pcs[t];
    var e := Next(s, Move(c, a));
    var w := Written(s.procs, pc, t, a, s.nextpid);
    assert Promise(s.procs, s.pcs, t);
    if t < |s.procs| {
      MoverRuns(s, c, a);
    }
    if pc.ExitSet? {
      PidsExited(s.procs, t, w.1, s.nextpid, s.exited, s.reaped);
    } else if pc.WaitFree? {
      PidsReaped(s.procs, pc.k, w.1, s.nextpid, s.exited, s.reaped,
        Reaping(pc.pid, pc.status, t, s.procs[pc.k].parent));
    } else if Claims(s, pc) {
      PidsClaimed(s.procs, pc.i, w.1, s.nextpid, s.exited, s.reaped);
    } else if pc.ForkMade? && a == Fail {
      assert Claiming(pc, pc.i);
      PidsFreed(s.procs, pc.i, w.1, s.nextpid, s.exited, s.reaped);
    } else {
      MoveSameExits(s.procs, pc, t, a, s.nextpid);
      forall j | 0 <= j < |s.procs| ensures SameExits(s.procs[j], e.procs[j]) {
        SameSelf(s.procs[j]);
      }
      PidsSame(s.procs, e.procs, s.nextpid, s.exited, s.reaped);
    }
  }

  lemma SameSelf(p: Proc)
    ensures SameExits(p, p)
  {
  }

  // ---- every step keeps the invariant

  lemma Assemble(s: State, f: State, c: nat)
    requires Inv(s) && Rely(s, f, c) && Base(f) && Promise(f.procs, f.pcs, s.cur[c]) && OneClaim(f.pcs)
    requires HolderStays(s, f, c) && WakeStays(s, f, c) && ReparentWakes(s, f, c) &&
             Pids(f.procs, f.nextpid, f.exited, f.reaped)
    ensures Inv(f)
  {
    hide Placed, Exclusion, Table, Shape, Promise, OneClaim, Waiters, Parents, Pids, HolderStays, WakeStays,
         ReparentWakes, Guarantee, OnlyEnters;
    forall u | 0 <= u < |f.pcs| ensures Promise(f.procs, f.pcs, u) {
      if u != s.cur[c] {
        OthersKeepPromises(s, f, c, u);
      }
    }
    KeepsParents(s, f, c);
    AllWaiters(s, f, c);
  }

  lemma AllWaiters(s: State, f: State, c: nat)
    requires Inv(s) && Rely(s, f, c) && HolderStays(s, f, c) && WakeStays(s, f, c) && ReparentWakes(s, f, c)
    ensures Waiters(f.procs, f.pcs, f.cur, f.locks)
  {
    hide Inv, Guarantee, OnlyEnters, HolderStays, WakeStays, ReparentWakes, Unheard, Rousing;
    forall w, k | 0 <= w < |f.procs| && 0 <= k < |f.procs| &&
      Unheard(f.procs, f.pcs, w, k) ensures Rousing(f.pcs, f.cur, f.locks, w) {
      KeepsWaiters(s, f, c, w, k);
    }
  }

  lemma AcquireKeepsInv(s: State, c: nat, l: Lock)
    requires Inv(s) && Enabled(s, Acquire(c, l))
    ensures Inv(Next(s, Acquire(c, l)))
  {
    hide Base, Promise, Waiters, Parents, OneClaim, Pids, Rely, OnlyCpu, Weaker, HolderStays, WakeStays, SameWake,
         Shape, Held, Wants, Acquired;
    var e := Acquire(c, l);
    var f := Next(s, e);
    var t := s.cur[c];
    LockRely(s, e);
    AcquireBase(s, c, l);
    BaseShape(f, t);
    LockKeepsPromise(s, f, c);
    AcquireWakes(s.pcs[t], t, |s.procs|, l);
    HolderKept(s, e);
    WakeKept(s, f, c);
    LockOneClaim(s, f, c);
    Assemble(s, f, c);
  }

  lemma ReleaseKeepsInv(s: State, c: nat, l: Lock)
    requires Inv(s) && Enabled(s, Release(c, l))
    ensures Inv(Next(s, Release(c, l)))
  {
    hide Base, Promise, Waiters, Parents, OneClaim, Pids, Rely, OnlyCpu, Weaker, HolderStays, WakeStays, SameWake,
         Shape, Held, Yields, Released;
    var e := Release(c, l);
    var f := Next(s, e);
    var t := s.cur[c];
    LockRely(s, e);
    ReleaseBase(s, c, l);
    BaseShape(f, t);
    LockKeepsPromise(s, f, c);
    ReleaseWakes(s.pcs[t], t, |s.procs|, l);
    HolderKept(s, e);
    WakeKept(s, f, c);
    LockOneClaim(s, f, c);
    Assemble(s, f, c);
  }

  lemma TickKeepsInv(s: State, c: nat)
    requires Inv(s) && Enabled(s, Tick(c))
    ensures Inv(Next(s, Tick(c)))
  {
    hide Base, Promise, Waiters, Parents, OneClaim, Pids, Rely, OnlyCpu, Weaker, HolderStays, WakeStays, SameWake,
         Shape, Held, Interruptible;
    var e := Tick(c);
    var f := Next(s, e);
    LockRely(s, e);
    TickBase(s, c);
    BaseShape(f, s.cur[c]);
    LockKeepsPromise(s, f, c);
    HolderKept(s, e);
    WakeKept(s, f, c);
    LockOneClaim(s, f, c);
    Assemble(s, f, c);
  }

  lemma BaseShape(s: State, t: nat)
    requires Base(s) && t < |s.pcs|
    ensures Shape(s.pcs[t], t, |s.procs|) && Sized(s)
  {
    hide Shape;
  }

  lemma LockOneClaim(s: State, f: State, c: nat)
    requires Inv(s) && Rely(s, f, c) && Weaker(s.pcs[s.cur[c]], f.pcs[s.cur[c]], |s.procs|)
    ensures OneClaim(f.pcs)
  {
    hide Inv, Guarantee, OnlyEnters;
    KeepsOneClaim(s, f, c);
  }

  lemma DispatchKeepsInv(s: State, c: nat)
    requires Inv(s) && Enabled(s, Dispatch(c))
    ensures Inv(Next(s, Dispatch(c)))
  {
    hide Base, Promise, Waiters, Parents, OneClaim, Pids, Rely, OnlyCpu, HolderStays, WakeStays, Held;
    var e := Dispatch(c);
    var f := Next(s, e);
    var t := s.cur[c];
    DispatchRely(s, c);
    DispatchBase(s, c);
    BaseShape(f, t);
    IdlePromise(f.procs, f.pcs, t);
    HolderKept(s, e);
    WakeKept(s, f, c);
    KeepsOneClaim(s, f, c);
    PidsSame(s.procs, f.procs, s.nextpid, s.exited, s.reaped);
    Assemble(s, f, c);
  }

  lemma SwitchKeepsInv(s: State, c: nat)
    requires Inv(s) && Enabled(s, Switch(c))
    ensures Inv(Next(s, Switch(c)))
  {
    hide Base, Promise, Waiters, Parents, OneClaim, Pids, Rely, OnlyCpu, HolderStays, WakeStays, Held, Weaker;
    var e := Switch(c);
    var f := Next(s, e);
    var t := s.cur[c];
    SwitchRely(s, c);
    SwitchBase(s, c);
    BaseShape(f, t);
    SwitchWeaker(s.pcs[t], |s.procs|);
    LockKeepsPromise(s, f, c);
    HolderKept(s, e);
    WakeKept(s, f, c);
    LockOneClaim(s, f, c);
    Assemble(s, f, c);
  }

  lemma MoveKeepsInv(s: State, c: nat, a: Act)
    requires Inv(s) && Enabled(s, Move(c, a))
    ensures Inv(Next(s, Move(c, a)))
  {
    hide Base, Promise, Waiters, Parents, OneClaim, Pids, Rely, OnlyCpu, HolderStays, WakeStays, ReparentWakes, Held,
         Shape, Moves, Target, Written, Off, SameWake;
    var e := Move(c, a);
    var f := Next(s, e);
    var t := s.cur[c];
    MoveKeepsPromise(s, c, a);
    MoveBase(s, c, a);
    OwnCounter(s, c, a);
    MoveWakes(s.procs, s.pcs[t], t, a);
    MoveClaims(s.procs, s.pcs[t], t, a);
    HolderKept(s, e);
    WakeKept(s, f, c);
    ReparentRouses(s, c, a);
    KeepsOneClaim(s, f, c);
    MovePids(s, c, a);
    Assemble(s, f, c);
  }

  lemma StepKeepsInv(s: State, e: Step)
    requires Inv(s) && Enabled(s, e)
    ensures Inv(Next(s, e))
  {
    hide Inv, Enabled, Next;
    match e
    case Acquire(c, l) => AcquireKeepsInv(s, c, l);
    case Release(c, l) => ReleaseKeepsInv(s, c, l);
    case Move(c, a) => MoveKeepsInv(s, c, a);
    case Tick(c) => TickKeepsInv(s, c);
    case Dispatch(c) => DispatchKeepsInv(s, c);
    case Switch(c) => SwitchKeepsInv(s, c);
  }

  // ---- runs

  /** After procinit and userinit: init waits to run, and every CPU enters its scheduler. */
  ghost predicate Boot(s: State) {
    && Sized(s)
    && (forall j :: 0 <= j < |s.procs| ==> s.procs[j] == if j == INIT then FREE.(state := RUNNABLE, pid := 1) else FREE)
    && (forall t :: 0 <= t < |s.pcs| ==> s.pcs[t] == if t < |s.procs| then Resume(Client({})) else Client({}))
    && (forall c :: 0 <= c < |s.cur| ==> s.cur[c] == |s.procs| + c && s.noff[c] == 0)
    && s.locks == map[] && s.nextpid == 2 && s.exited == map[] && s.reaped == []
  }

  /** A run visits the states of trace, one step of one CPU at a time. */
  ghost predicate Run(trace: seq<State>, steps: seq<Step>) {
    && |trace| == |steps| + 1
    && Boot(trace[0])
    && forall i :: 0 <= i < |steps| ==> Enabled(trace[i], steps[i]) && trace[i + 1] == Next(trace[i], steps[i])
  }

  lemma BootInv(s: State)
    requires Boot(s)
    ensures Inv(s)
  {
    hide Base, Pids, Promise, Placed, Exclusion, Table;
    BootPlaced(s);
    BootExclusion(s);
    BootTable(s);
    BootBase(s);
    BootPids(s);
    forall u | 0 <= u < |s.pcs| ensures Promise(s.procs, s.pcs, u) {
      BaseShape(s, u);
      BootPromise(s, u);
    }
  }

  lemma BootPromise(s: State, u: nat)
    requires Boot(s) && u < |s.pcs| && Shape(s.pcs[u], u, |s.procs|)
    ensures Promise(s.procs, s.pcs, u)
  {
  }

  lemma BootBase(s: State)
    requires Boot(s) && Placed(s.pcs, s.cur, |s.procs|) && Exclusion(s.pcs, s.cur, s.noff, s.locks) &&
             Table(s.procs, s.pcs, s.cur)
    ensures Base(s)
  {
    hide Placed, Exclusion, Table;
  }

  lemma BootPlaced(s: State)
    requires Boot(s)
    ensures Placed(s.pcs, s.cur, |s.procs|)
  {
    forall t | |s.procs| <= t < |s.pcs| ensures t in s.cur {
      assert s.cur[t - |s.procs|] == t;
    }
  }

  lemma BootExclusion(s: State)
    requires Boot(s)
    ensures Exclusion(s.pcs, s.cur, s.noff, s.locks)
  {
    assert forall c :: 0 <= c < |s.cur| ==> s.pcs[s.cur[c]] == Client({}) && Held(Client({}), s.cur[c]) == {};
  }

  lemma BootTable(s: State)
    requires Boot(s)
    ensures Table(s.procs, s.pcs, s.cur)
  {
  }

  lemma BootPids(s: State)
    requires Boot(s)
    ensures Pids(s.procs, s.nextpid, s.exited, s.reaped)
  {
  }

  lemma {:induction false} RunKeepsInv(trace: seq<State>, steps: seq<Step>, i: nat)
    requires Run(trace, steps) && i < |trace|
    ensures Inv(trace[i])
  {
    hide Inv, Boot, Enabled, Next;
    if i == 0 {
      BootInv(trace[0]);
    } else {
      RunKeepsInv(trace, steps, i - 1);
      StepKeepsInv(trace[i - 1], steps[i - 1]);
    }
  }

  /** Asleep on chan, having entered sleep(chan, lk). */
  predicate SleepingOn(s: State, p: nat, chan: Chan, lk: Lock)
    requires p < |s.procs| <= |s.pcs|
  {
    s.procs[p].state == SLEEPING && s.procs[p].chan == chan && (s.pcs[p].SleepSched? || s.pcs[p].SleepBack?) &&
      s.pcs[p].lk == lk
  }

  /** No lost wakeup: when wakeup(chan) has been completed by q, which holds lk, nobody else is asleep on
      chan under lk. */
  lemma NoLostWakeup(trace: seq<State>, steps: seq<Step>, i: nat, q: nat, lk: Lock, p: nat)
    requires Run(trace, steps) && i < |trace|
    requires var s := trace[i]; Sized(s) && q < |s.pcs| && p < |s.procs| && p != q
    requires var s := trace[i]; s.pcs[q].Wake? && s.pcs[q].i >= |s.procs| && lk in RetHeld(s.pcs[q].ret)
    ensures !SleepingOn(trace[i], p, trace[i].pcs[q].chan, lk)
  {
    hide Run, Placed, Exclusion, Shape, Waiters, Parents, OneClaim, Pids, Childless, NoZombies, Found, ParentAwake,
         Forking, Waiting, Completed;
    RunKeepsInv(trace, steps, i);
    var s := trace[i];
    assert Promise(s.procs, s.pcs, q);
    assert Fits(s.procs[p], s.pcs[p], p in s.cur);
    assert !Asleep(s.pcs[p], s.procs[p].state, s.pcs[q].chan, lk);
  }

  /** No missed exit: while wait_lock is free, no process asleep in kwait has a zombie child. */
  lemma NoMissedExit(trace: seq<State>, steps: seq<Step>, i: nat, w: nat, k: nat)
    requires Run(trace, steps) && i < |trace|
    requires var s := trace[i]; Sized(s) && w < |s.procs| && k < |s.procs| && WaitLock !in s.locks
    requires trace[i].procs[k].parent == w && trace[i].procs[k].state == ZOMBIE
    ensures !SleepingOn(trace[i], w, ProcChan(w), WaitLock)
  {
    hide Run, Placed, Exclusion, Shape, Parents, OneClaim, Pids, Promise;
    RunKeepsInv(trace, steps, i);
    var s := trace[i];
    assert Fits(s.procs[w], s.pcs[w], w in s.cur);
    assert !Unheard(s.procs, s.pcs, w, k);
  }

  /** Every report by kwait is of a process that exited, with the status it exited with, to its parent, and
      only once. */
  lemma ReportedOnce(trace: seq<State>, steps: seq<Step>, i: nat, a: nat, b: nat)
    requires Run(trace, steps) && i < |trace| && a < |trace[i].reaped| && b < |trace[i].reaped|
    ensures var s := trace[i]; var r := s.reaped[a];
            && r.pid in s.exited && s.exited[r.pid] == r.status && r.reaper == r.parent
            && (a != b ==> r.pid != s.reaped[b].pid)
  {
    hide Run, Base, Waiters, Parents, OneClaim, Promise;
    RunKeepsInv(trace, steps, i);
    assert trace[i].reaped[a] in trace[i].reaped;
  }

  /** No exit is forgotten: it has been reported, or waits in the table for a live parent. */
  lemma NotForgotten(trace: seq<State>, steps: seq<Step>, i: nat, pid: nat)
    requires Run(trace, steps) && i < |trace| && pid in trace[i].exited
    ensures var s := trace[i];
            || Reported(s.reaped, pid)
            || exists j ::
                   0 <= j < |s.procs| && s.procs[j].state == ZOMBIE && s.procs[j].pid == pid &&
                   s.procs[j].xstate == s.exited[pid]
                           && 0 <= s.procs[j].parent < |s.procs| && Live(s.procs[s.procs[j].parent].state)
  {
    hide Run, Base, Waiters, OneClaim, Promise, Reported;
    RunKeepsInv(trace, steps, i);
    var s := trace[i];
    if !Reported(s.reaped, pid) {
      assert Pending(s.procs, pid);
      var j :| 0 <= j < |s.procs| && s.procs[j].state == ZOMBIE && s.procs[j].pid == pid;
      assert HasParent(s.procs, j);
    }
  }

  lemma LockPanics(s: State, c: nat, l: Lock)
    requires Base(s) && c < |s.cur|
    ensures var t := s.cur[c]; var pc := s.pcs[t];
            && (Wants(pc, t, |s.procs|, l) ==> !(l in s.locks && s.locks[l] == c))
            && (Yields(pc, t, l) ==> l in s.locks && s.locks[l] == c && s.noff[c] > 0)
  {
    hide Placed, Table, Held, Wants, Yields, Shape;
    var t := s.cur[c];
    var pc := s.pcs[t];
    if Wants(pc, t, |s.procs|, l) {
      AcquiredHeld(pc, t, |s.procs|, l);
    }
    if Yields(pc, t, l) {
      ReleasedHeld(pc, t, |s.procs|, l);
      assert s.noff[c] == |Held(pc, t)|;
    }
  }

  lemma SchedPanics(s: State, c: nat)
    requires Base(s) && c < |s.cur|
    ensures var t := s.cur[c]; var pc := s.pcs[t];
            pc.SleepSched? || pc.YieldSched? || pc.ExitSched? ==>
              t < |s.procs| && Slot(t) in s.locks && s.locks[Slot(t)] == c && s.noff[c] == 1 &&
                s.procs[t].state != RUNNING
  {
    hide Placed, Held;
    var t := s.cur[c];
    var pc := s.pcs[t];
    assert Shape(pc, t, |s.procs|);
    if pc.SleepSched? || pc.YieldSched? || pc.ExitSched? {
      SwitchHeld(pc, t, t);
      DropHeld(t, t);
      assert Slot(t) in Held(pc, t);
      assert Fits(s.procs[t], pc, t in s.cur);
    }
  }

  lemma DropHeld(t: nat, me: nat)
    ensures Held(Drop(t), me) == {Slot(t)} && |Held(Drop(t), me)| == 1
  {
  }

  /** The panics of acquire, release, pop_off and sched are unreachable, and no process runs on two CPUs. */
  lemma NoPanics(trace: seq<State>, steps: seq<Step>, i: nat, c: nat, l: Lock)
    requires Run(trace, steps) && i < |trace| && Sized(trace[i]) && c < |trace[i].cur|
    ensures var s := trace[i]; var t := s.cur[c]; var pc := s.pcs[t];
            && Shape(pc, t, |s.procs|)
            && (Wants(pc, t, |s.procs|, l) ==> !(l in s.locks && s.locks[l] == c))
            && (Yields(pc, t, l) ==> l in s.locks && s.locks[l] == c && s.noff[c] > 0)
            && (pc.SleepSched? || pc.YieldSched? || pc.ExitSched? ==>
                  t < |s.procs| && Slot(t) in s.locks && s.locks[Slot(t)] == c && s.noff[c] == 1 &&
                    s.procs[t].state != RUNNING)
            && (forall d :: 0 <= d < |s.cur| && d != c ==> s.cur[d] != t)
  {
    hide Run, Base, Waiters, Parents, OneClaim, Pids, Promise, Held, Wants, Yields, Shape;
    RunKeepsInv(trace, steps, i);
    var s := trace[i];
    BaseShape(s, s.cur[c]);
    LockPanics(s, c, l);
    SchedPanics(s, c);
    Separate(s, c);
  }
}
