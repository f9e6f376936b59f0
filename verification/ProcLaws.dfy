/**
  * What the calls of kernel/proc.c are for, over every run of the machine: when kwait gives up and when it
  * sleeps, what kkill does and who may wake a sleeper, what kfork leaves, and that the loops over the process
  * table leave no slot out.
  */
module ProcessLaws {
  import opened Processes
  import opened ProcessSafety

  ghost predicate Reachable(s: State) {
    exists trace, steps, i :: Visits(trace, steps, i, s)
  }

  ghost predicate Visits(trace: seq<State>, steps: seq<Step>, i: nat, s: State) {
    Run(trace, steps) && i < |trace| && trace[i] == s
  }

  lemma ReachableInv(s: State)
    requires Reachable(s)
    ensures Inv(s)
  {
    hide Inv, Run;
    var trace, steps, i :| Visits(trace, steps, i, s);
    RunKeepsInv(trace, steps, i);
  }

  /** The promise of a thread. */
  lemma InvPromise(s: State, t: nat)
    requires Inv(s) && t < |s.pcs|
    ensures |s.procs| <= |s.pcs| && Shape(s.pcs[t], t, |s.procs|) && Promise(s.procs, s.pcs, t)
  {
    hide Placed, Exclusion, Table, Waiters, Parents, OneClaim, Pids, Shape, Promise;
  }

  predicate IsParent(s: State, t: nat) {
    exists j :: 0 <= j < |s.procs| && s.procs[j].parent == t
  }

  // ---- no thread is stuck

  /** The thread is inside a call and waits for a lock that a CPU holds. */
  predicate Spins(s: State, t: nat) {
    t < |s.pcs| && !s.pcs[t].Client? && exists l :: l in s.locks && Wants(s.pcs[t], t, |s.procs|, l)
  }

  lemma Running(s: State, c: nat)
    requires Inv(s) && c < |s.cur|
    ensures Sized(s) && s.cur[c] < |s.pcs| && !s.pcs[s.cur[c]].Dead? && !s.pcs[s.cur[c]].Ran?
    ensures Shape(s.pcs[s.cur[c]], s.cur[c], |s.procs|)
    ensures Held(s.pcs[s.cur[c]], s.cur[c]) != {} ==> s.noff[c] > 0
  {
    hide Promise, Waiters, Parents, OneClaim, Pids, Table, Shape, Held;
  }

  /** What the code of thread t does next. */
  function Following(procs: seq<Proc>, pc: Pc, t: nat, c: nat): Step {
    match pc
    case Client(_) => Move(c, CallWakeup(NoChan))
    case SleepLock(_, _) | Yield(_) | ExitLock(_) | WaitKilled => Acquire(c, Slot(t))
    case SleepRelock(lk) => Acquire(c, lk)
    case ForkWait(_) | Exit(_) | WaitEnter => Acquire(c, WaitLock)
    case Wake(_, i, _) => if i < |procs| && i != t then Acquire(c, Slot(i)) else Move(c, Go)
    case Kill(_, i) => if i < |procs| then Acquire(c, Slot(i)) else Move(c, Go)
    case Fork(i) => if i < |procs| then Acquire(c, Slot(i)) else Move(c, Go)
    case ForkRelock(i) => Acquire(c, Slot(i))
    case WaitKid(k) => Acquire(c, Slot(k))
    case Scan(i) => Acquire(c, Slot(i))
    case SleepRelease(_, lk) => Release(c, lk)
    case SleepUnlock(_) | Resume(_) | WaitUnlock(_) => Release(c, Slot(t))
    case ForkUnwait(_) | ExitRelease | WaitLeave => Release(c, WaitLock)
    case WakeNext(_, i, _) => Release(c, Slot(i))
    case KillNext(_, i) => Release(c, Slot(i))
    case KillDone(i) => Release(c, Slot(i))
    case ForkNext(i) => Release(c, Slot(i))
    case ForkFail(i) => Release(c, Slot(i))
    case ForkRelease(i) => Release(c, Slot(i))
    case ForkDone(i) => Release(c, Slot(i))
    case WaitNext(k) => Release(c, Slot(k))
    case WaitDrop(k) => Release(c, Slot(k))
    case Drop(i) => Release(c, Slot(i))
    case SleepSched(_, _) | YieldSched(_) | ExitSched => Switch(c)
    case Pick(i) => if i < |procs| && procs[i].state == RUNNABLE then Dispatch(c) else Move(c, Go)
    case _ => Move(c, Go)
  }

  lemma FollowingIsEnabled(s: State, c: nat)
    requires Sized(s) && c < |s.cur| && !s.pcs[s.cur[c]].Dead? && !s.pcs[s.cur[c]].Ran?
    requires Shape(s.pcs[s.cur[c]], s.cur[c], |s.procs|) && !Spins(s, s.cur[c])
    requires Held(s.pcs[s.cur[c]], s.cur[c]) != {} ==> s.noff[c] > 0
    ensures Enabled(s, Following(s.procs, s.pcs[s.cur[c]], s.cur[c], c))
  {
    hide BackShape, RetShape, Condition, Spins;
    var t := s.cur[c];
    var e := Following(s.procs, s.pcs[t], t, c);
    if e.Acquire? {
      NotSpinning(s, t, e.l);
    }
  }

  lemma NotSpinning(s: State, t: nat, l: Lock)
    requires !Spins(s, t) && t < |s.pcs| && !s.pcs[t].Client? && Wants(s.pcs[t], t, |s.procs|, l)
    ensures l !in s.locks
  {
  }

  /** In every reachable state the thread on each CPU can go on, unless it spins for a lock that is held. */
  lemma NoThreadIsStuck(s: State, c: nat)
    requires Reachable(s) && c < |s.cur|
    ensures Spins(s, s.cur[c]) || exists e: Step :: e.c == c && Enabled(s, e)
  {
    hide Inv, Reachable, Spins, Enabled, Held, Shape;
    ReachableInv(s);
    Running(s, c);
    if !Spins(s, s.cur[c]) {
      FollowingIsEnabled(s, c);
    }
  }

  // ---- no deadlock

  /** The order of the locks: the process locks come last. */
  function Rank(l: Lock): nat {
    if l.Slot? then 1 else 0
  }

  /** Inside the calls, a lock is acquired only by a thread whose locks all come before it. */
  lemma LocksInOrder(pc: Pc, me: nat, n: nat, l: Lock, h: Lock)
    requires Shape(pc, me, n) && !pc.Client? && Wants(pc, me, n, l) && h in Held(pc, me)
    ensures Rank(h) < Rank(l)
  {
  }

  /** The thread on CPU c is inside a call and waits for a lock that CPU d holds. */
  ghost predicate Awaits(s: State, c: nat, d: nat) {
    && c < |s.cur| && s.cur[c] < |s.pcs| && !s.pcs[s.cur[c]].Client?
    && exists l :: l in s.locks && s.locks[l] == d && Wants(s.pcs[s.cur[c]], s.cur[c], |s.procs|, l)
  }

  /** A spinning thread, the lock it waits for, and its holder. */
  lemma Awaited(s: State, c: nat) returns (l: Lock, d: nat)
    requires Inv(s) && c < |s.cur| && Spins(s, s.cur[c])
    ensures Awaits(s, c, d) && d < |s.cur| && s.cur[d] < |s.pcs| && l in Held(s.pcs[s.cur[d]], s.cur[d])
    ensures forall h :: h in Held(s.pcs[s.cur[c]], s.cur[c]) ==> Rank(h) < Rank(l)
  {
    hide Promise, Waiters, Parents, OneClaim, Pids, Table, Placed, Shape, Held, Wants, Rank;
    var t := s.cur[c];
    l :| l in s.locks && Wants(s.pcs[t], t, |s.procs|, l);
    d := s.locks[l];
    forall h | h in Held(s.pcs[t], t) ensures Rank(h) < Rank(l) {
      LocksInOrder(s.pcs[t], t, |s.procs|, l, h);
    }
  }

  /** No deadlock: follow the lock that a thread waits for to its holder, at most twice, and there is a thread that
      can go on. */
  lemma NoDeadlock(s: State, c: nat) returns (d: nat)
    requires Reachable(s) && c < |s.cur|
    ensures d == c || Awaits(s, c, d) || exists m :: Awaits(s, c, m) && Awaits(s, m, d)
    ensures exists e: Step :: e.c == d && Enabled(s, e)
  {
    hide Inv, Reachable, Awaits, Spins, Enabled, Held;
    ReachableInv(s);
    d := c;
    if Spins(s, s.cur[c]) {
      var l, m := Awaited(s, c);
      d := m;
      if Spins(s, s.cur[m]) {
        var l2, m2 := Awaited(s, m);
        assert Rank(l) < Rank(l2);
        d := m2;
        if Spins(s, s.cur[m2]) {
          var _, _ := Awaited(s, m2);
          assert false;
        }
      }
    }
    NoThreadIsStuck(s, d);
  }

  /** A process that holds no lock may be interrupted, and may fork, kill, wait and, but for init, exit; one that
      holds exactly its condition lock may sleep; any thread may wake sleepers; an idle scheduler may look for work. */
  lemma CallsAllowed(s: State, c: nat, chan: Chan, lk: Lock, pid: nat, status: int)
    requires Reachable(s) && c < |s.cur| && s.cur[c] < |s.pcs|
    ensures var t := s.cur[c]; var pc := s.pcs[t]; var n := |s.procs|;
            && (t < n && Held(pc, t) == {} && !pc.Yield? ==> Enabled(s, Tick(c)))
            && (pc == Client({}) && t < n ==>
                  Enabled(s, Move(c, CallFork)) && Enabled(s, Move(c, CallWait)) && Enabled(s, Move(c, CallKill(pid))))
            && (pc == Client({}) && t < n && t != INIT ==> Enabled(s, Move(c, CallExit(status))))
            && (lk.KernelLock? && pc == Client({lk}) && t < n ==> Enabled(s, Move(c, CallSleep(chan, lk))))
            && (pc.Client? ==> Enabled(s, Move(c, CallWakeup(chan))))
            && (pc == Client({}) && t >= n ==> Enabled(s, Move(c, CallScan)))
  {
    hide Inv, Reachable, BackShape, RetShape, Condition;
    ReachableInv(s);
    Running(s, c);
  }

  // ---- kwait

  /** At the end of a scan kwait gives up if and only if no process has the caller as its parent. */
  lemma ScanOutcome(s: State, e: Step)
    requires Reachable(s) && Enabled(s, e)
    requires var pc := s.pcs[s.cur[e.c]]; pc.WaitScan? && pc.k >= |s.procs|
    ensures var t := s.cur[e.c];
            t < |Next(s, e).pcs| && Next(s, e).pcs[t] == if IsParent(s, t) then WaitKilled else WaitLeave
  {
    hide Inv, Reachable, Held, Callable, Written, Roused, Childless, NoZombies, Found, ParentAwake, Forking, Completed;
    ReachableInv(s);
    InvPromise(s, s.cur[e.c]);
  }

  /** When it has children and has read its killed flag, kwait gives up if and only if it is killed; otherwise it
      goes on to sleep on its own slot under wait_lock, and none of its children is a zombie. */
  lemma KilledOutcome(s: State, e: Step)
    requires Reachable(s) && Enabled(s, e) && s.pcs[s.cur[e.c]].WaitUnlock?
    ensures var t := s.cur[e.c];
            && t < |s.procs| && t < |Next(s, e).pcs| && IsParent(s, t)
            && (forall j :: 0 <= j < |s.procs| && s.procs[j].parent == t ==> s.procs[j].state != ZOMBIE)
            && Next(s, e).pcs[t] == if s.procs[t].killed then WaitLeave else SleepLock(ProcChan(t), WaitLock)
  {
    hide Inv, Reachable, Held, Callable, Written, Roused, Childless, Found, ParentAwake, Forking, Completed;
    ReachableInv(s);
    InvPromise(s, s.cur[e.c]);
  }

  /** kwait returns only if the caller has no child or is killed, or if it has found a zombie. */
  lemma GivesUp(s: State, e: Step)
    requires Reachable(s) && Enabled(s, e)
    requires var t := s.cur[e.c]; !s.pcs[t].WaitLeave? && t < |Next(s, e).pcs| && Next(s, e).pcs[t].WaitLeave?
    ensures var t := s.cur[e.c]; s.pcs[t].WaitDrop? || !IsParent(s, t) || (t < |s.procs| && s.procs[t].killed)
  {
    hide Reachable, IsParent, Next, Enabled;
    LeavesFrom(s, e);
    if s.pcs[s.cur[e.c]].WaitUnlock? {
      KilledOutcome(s, e);
    } else if s.pcs[s.cur[e.c]].WaitScan? {
      ScanOutcome(s, e);
    }
  }

  lemma LeavesFrom(s: State, e: Step)
    requires Enabled(s, e)
    requires var t := s.cur[e.c]; !s.pcs[t].WaitLeave? && t < |Next(s, e).pcs| && Next(s, e).pcs[t].WaitLeave?
    ensures e.c < |s.cur| && s.cur[e.c] < |s.pcs|
    ensures var pc := s.pcs[s.cur[e.c]]; pc.WaitDrop? || pc.WaitUnlock? || (pc.WaitScan? && pc.k >= |s.procs|)
  {
    hide Held, Callable, Written;
  }

  /** A zombie child that kwait frees is reported by the pid and the status that it has, to its parent, and its
      slot is free; nothing else is ever reported. */
  lemma WaitReaps(s: State, e: Step)
    requires Reachable(s) && Enabled(s, e)
    ensures var f := Next(s, e); var t := s.cur[e.c]; var pc := s.pcs[t];
            if pc.WaitFree? then
              && pc.k < |s.procs| && s.procs[pc.k].state == ZOMBIE && s.procs[pc.k].parent == t
              && f.reaped == s.reaped + [Reaping(s.procs[pc.k].pid, s.procs[pc.k].xstate, t, t)]
              && f.procs == s.procs[pc.k := FREE]
            else f.reaped == s.reaped
  {
    hide Inv, Reachable, Held, Callable, Target, Roused, Childless, NoZombies, ParentAwake, Forking, Waiting, Completed;
    ReachableInv(s);
    InvPromise(s, s.cur[e.c]);
  }

  /** kwait frees every zombie child that it looks at, unless the status cannot be copied out. */
  lemma WaitFinds(s: State, c: nat, a: Act)
    requires Reachable(s) && Enabled(s, Move(c, a)) && s.pcs[s.cur[c]].WaitTest? && a != Fail
    ensures var t := s.cur[c]; var k := s.pcs[t].k; var to := Next(s, Move(c, a)).pcs[t];
            && k < |s.procs| && s.procs[k].parent == t
            && to == if s.procs[k].state == ZOMBIE then WaitFree(k, s.procs[k].pid, s.procs[k].xstate) else WaitNext(k)
  {
    hide Inv, Reachable, Held, Callable, Written, Roused, Childless, NoZombies, ParentAwake, Forking, Waiting,
         Completed;
    ReachableInv(s);
    InvPromise(s, s.cur[c]);
  }

  // ---- kkill, wakeup, kfork

  /** When kkill returns 0, the process it found is killed and not asleep. */
  lemma KillTakesEffect(s: State, t: nat)
    requires Reachable(s) && t < |s.pcs| && s.pcs[t].KillDone?
    ensures var k := s.pcs[t].i; k < |s.procs| && s.procs[k].killed && s.procs[k].state != SLEEPING
  {
    hide Inv, Reachable, Roused, Childless, NoZombies, Found, ParentAwake, Forking, Waiting;
    ReachableInv(s);
    InvPromise(s, t);
  }

  /** When kfork returns, its child is runnable and has the caller as its parent. */
  lemma ForkStarts(s: State, t: nat)
    requires Reachable(s) && t < |s.pcs| && s.pcs[t].ForkDone?
    ensures var k := s.pcs[t].i; k < |s.procs| && s.procs[k].state == RUNNABLE && s.procs[k].parent == t
  {
    hide Inv, Reachable, Roused, Childless, NoZombies, Found, ParentAwake, Forking, Waiting;
    ReachableInv(s);
    InvPromise(s, t);
  }

  lemma ReachableGuarantee(s: State, e: Step, j: nat)
    requires Reachable(s) && Enabled(s, e) && j < |s.procs|
    ensures j < |Next(s, e).procs|
    ensures var t := s.cur[e.c]; Guarantee(s.procs[j], Next(s, e).procs[j], j, s.pcs[t], t)
  {
    hide Inv, Reachable, Guarantee, OnlyEnters, Next;
    ReachableInv(s);
    StepRely(s, e);
  }

  /** A process becomes killed only by a kkill of its pid, and stays so until its slot is freed. */
  lemma KilledByKill(s: State, e: Step, j: nat)
    requires Reachable(s) && Enabled(s, e) && j < |s.procs|
    ensures j < |Next(s, e).procs|
    ensures var p, q := s.procs[j], Next(s, e).procs[j];
            && (!p.killed && q.killed ==> s.pcs[s.cur[e.c]] == KillTest(p.pid, j))
            && (p.killed && !q.killed ==> q == FREE)
  {
    hide Reachable, Held, Next;
    ReachableGuarantee(s, e, j);
  }

  /** A sleeping process stays asleep unless a wakeup on its channel, or a kkill of its pid, makes it runnable. */
  lemma SleepsUntilWoken(s: State, e: Step, j: nat)
    requires Reachable(s) && Enabled(s, e) && j < |s.procs| && s.procs[j].state == SLEEPING
    ensures j < |Next(s, e).procs|
    ensures var p, q, pc := s.procs[j], Next(s, e).procs[j], s.pcs[s.cur[e.c]];
            || q.state == SLEEPING
            || (q.state == RUNNABLE && (pc == KillTest(p.pid, j) || (pc.WakeTest? && pc.i == j && pc.chan == p.chan)))
  {
    hide Reachable, Held, Next;
    ReachableGuarantee(s, e, j);
  }

  // ---- the loops over the table

  /** kkill's search for a pid, allocproc's for an unused slot, and a pass of the scheduler. */
  datatype Loop = Killing(pid: nat) | Allocating | Scheduling

  predicate In(loop: Loop, pc: Pc) {
    match loop
    case Killing(pid) => (pc.Kill? || pc.KillTest? || pc.KillNext?) && pc.pid == pid
    case Allocating => pc.Fork? || pc.ForkTest? || pc.ForkNext?
    case Scheduling => pc.Scan? || pc.Pick? || pc.Ran? || pc.Drop?
  }

  /** The slots below this one have been looked at. */
  function Seen(loop: Loop, pc: Pc): nat
    requires In(loop, pc)
  {
    if pc.KillNext? || pc.ForkNext? || pc.Ran? || pc.Drop? then pc.i + 1 else pc.i
  }

  /** The thread looks at slot j, under its lock, and goes on. */
  predicate Looks(loop: Loop, s: State, t: nat, j: nat) {
    && t < |s.pcs| && j < |s.procs|
    && match loop
       case Killing(pid) => s.pcs[t] == KillTest(pid, j) && s.procs[j].pid != pid
       case Allocating => s.pcs[t] == ForkTest(j) && s.procs[j].state != UNUSED
       case Scheduling => s.pcs[t] == Pick(j)
  }

  lemma RunStep(trace: seq<State>, steps: seq<Step>, i: nat)
    requires Run(trace, steps) && i < |steps|
    ensures Enabled(trace[i], steps[i]) && trace[i + 1] == Next(trace[i], steps[i])
  {
  }

  lemma RunLength(trace: seq<State>, steps: seq<Step>)
    requires Run(trace, steps)
    ensures |trace| == |steps| + 1
  {
  }

  lemma StepInRange(s: State, e: Step)
    requires Enabled(s, e)
    ensures e.c < |s.cur| && s.cur[e.c] < |s.pcs|
  {
  }

  predicate Passes(loop: Loop, s: State, t: nat, to: Pc)
    requires t < |s.pcs| && In(loop, Inner(s.pcs[t])) && In(loop, Inner(to))
  {
    var k := Seen(loop, Inner(s.pcs[t]));
    Seen(loop, Inner(to)) <= k || (Seen(loop, Inner(to)) == k + 1 && Looks(loop, s, t, k))
  }

  /** A step of the loop passes at most one slot, which it has just looked at. */
  lemma LoopStep(loop: Loop, s: State, e: Step, t: nat)
    requires Inv(s) && Enabled(s, e) && t < |s.pcs| && e.c < |s.cur|
    requires In(loop, Inner(s.pcs[t])) && t < |Next(s, e).pcs| && In(loop, Inner(Next(s, e).pcs[t]))
    ensures Passes(loop, s, t, Next(s, e).pcs[t])
  {
    hide Inv, Held, Next, Enabled, In, Seen, Inner, Looks;
    if t != s.cur[e.c] {
      ElsewhereLoop(loop, s, e, t);
    } else {
      match e
      case Move(c, a) => MoveLoop(loop, s, c, a);
      case Acquire(_, _) => LockLoop(loop, s, e);
      case Release(_, _) => LockLoop(loop, s, e);
      case _ => SwitchLoop(loop, s, e);
    }
  }

  lemma ElsewhereLoop(loop: Loop, s: State, e: Step, t: nat)
    requires Inv(s) && Enabled(s, e) && t < |s.pcs| && t != s.cur[e.c]
    requires In(loop, Inner(s.pcs[t])) && t < |Next(s, e).pcs| && In(loop, Inner(Next(s, e).pcs[t]))
    ensures Passes(loop, s, t, Next(s, e).pcs[t])
  {
    hide Inv, Held, Callable, Written, Target, Moves, Wants, Yields, Acquired, Released, Shape;
    if e.Switch? {
      SwitchShape(s, e.c);
      InvSwitched(s, e.c);
    }
  }

  lemma SwitchShape(s: State, c: nat)
    requires Enabled(s, Switch(c))
    ensures s.cur[c] < |s.procs|
  {
    hide BackShape, RetShape, Condition;
  }

  lemma MoveLoop(loop: Loop, s: State, c: nat, a: Act)
    requires Enabled(s, Move(c, a)) && s.cur[c] < |Next(s, Move(c, a)).pcs|
    requires In(loop, Inner(s.pcs[s.cur[c]])) && In(loop, Inner(Next(s, Move(c, a)).pcs[s.cur[c]]))
    ensures Passes(loop, s, s.cur[c], Next(s, Move(c, a)).pcs[s.cur[c]])
  {
    hide Held, Callable, Written, BackShape, RetShape, Condition;
  }

  lemma LockLoop(loop: Loop, s: State, e: Step)
    requires Enabled(s, e) && (e.Acquire? || e.Release?) && s.cur[e.c] < |Next(s, e).pcs|
    requires In(loop, Inner(s.pcs[s.cur[e.c]])) && In(loop, Inner(Next(s, e).pcs[s.cur[e.c]]))
    ensures Passes(loop, s, s.cur[e.c], Next(s, e).pcs[s.cur[e.c]])
  {
    hide Held, BackShape, RetShape, Condition, Shape;
  }

  lemma SwitchLoop(loop: Loop, s: State, e: Step)
    requires Enabled(s, e) && (e.Tick? || e.Dispatch? || e.Switch?) && s.cur[e.c] < |Next(s, e).pcs|
    requires In(loop, Inner(s.pcs[s.cur[e.c]])) && In(loop, Inner(Next(s, e).pcs[s.cur[e.c]]))
    ensures Passes(loop, s, s.cur[e.c], Next(s, e).pcs[s.cur[e.c]])
  {
    hide Held, BackShape, RetShape, Condition;
  }

  lemma InvSwitched(s: State, c: nat)
    requires Inv(s) && c < |s.cur|
    ensures s.cur[c] < |s.procs| ==> s.pcs[|s.procs| + c] == Ran(s.cur[c])
  {
    hide Promise, Waiters, Parents, OneClaim, Pids, Shapes, Exclusion, Table;
  }

  /** A loop begins at the first slot. */
  lemma LoopBegins(loop: Loop, s: State, e: Step, t: nat)
    requires Inv(s) && Enabled(s, e) && t < |s.pcs| && t < |Next(s, e).pcs|
    requires !In(loop, Inner(s.pcs[t])) && In(loop, Inner(Next(s, e).pcs[t]))
    ensures Seen(loop, Inner(Next(s, e).pcs[t])) == 0
  {
    hide Inv, Held, Next, Enabled, In, Seen, Inner;
    StepInRange(s, e);
    if t != s.cur[e.c] {
      ElsewhereBegins(loop, s, e, t);
    } else {
      if e.Move? {
        OwnCounter(s, e.c, e.a);
      }
      OwnBegins(loop, s, e);
    }
  }

  lemma ElsewhereBegins(loop: Loop, s: State, e: Step, t: nat)
    requires Inv(s) && Enabled(s, e) && t < |s.pcs| && t != s.cur[e.c] && t < |Next(s, e).pcs|
    requires !In(loop, Inner(s.pcs[t]))
    ensures !In(loop, Inner(Next(s, e).pcs[t]))
  {
    hide Inv, Held, Callable, Written, Target, Moves, Wants, Yields, Acquired, Released, Shape;
    if e.Switch? {
      SwitchShape(s, e.c);
      InvSwitched(s, e.c);
    }
  }

  lemma OwnBegins(loop: Loop, s: State, e: Step)
    requires Enabled(s, e) && s.cur[e.c] < |Next(s, e).pcs| && !In(loop, Inner(s.pcs[s.cur[e.c]]))
    requires In(loop, Inner(Next(s, e).pcs[s.cur[e.c]]))
    requires e.Move? ==> Next(s, e).pcs[s.cur[e.c]] == Target(s.procs, s.pcs[s.cur[e.c]], s.cur[e.c], e.a)
    ensures Seen(loop, Inner(Next(s, e).pcs[s.cur[e.c]])) == 0
  {
    hide In, Seen, Inner, Target, Moves, Wants, Yields, Acquired, Released, Shape, Written, Held;
    var t := s.cur[e.c];
    var pc := s.pcs[t];
    match e
    case Move(_, a) => MoveBegins(loop, s.procs, pc, t, a);
    case Acquire(_, l) => LockBegins(loop, pc, t, |s.procs|, l);
    case Release(_, l) => LockBegins(loop, pc, t, |s.procs|, l);
    case Tick(_) => TickBegins(loop, pc);
    case Dispatch(_) => PickInLoop(loop, pc);
    case Switch(c) =>
      SwitchShape(s, c);
      ParkedBegins(loop, pc);
  }

  lemma MoveBegins(loop: Loop, procs: seq<Proc>, pc: Pc, me: nat, a: Act)
    requires Shape(pc, me, |procs|) && Moves(procs, pc, me, a) && !In(loop, Inner(pc))
    ensures var to := Target(procs, pc, me, a); In(loop, Inner(to)) ==> Seen(loop, Inner(to)) == 0
  {
    hide Callable, RetShape, Condition;
  }

  lemma LockBegins(loop: Loop, pc: Pc, me: nat, n: nat, l: Lock)
    requires Shape(pc, me, n) && !In(loop, Inner(pc))
    ensures Wants(pc, me, n, l) ==> !In(loop, Inner(Acquired(pc, l)))
    ensures Yields(pc, me, l) ==> !In(loop, Inner(Released(pc, me, n, l)))
  {
    hide RetShape, Condition;
  }

  lemma TickBegins(loop: Loop, pc: Pc)
    requires Interruptible(pc) && !In(loop, Inner(pc))
    ensures !In(loop, Inner(Yield(pc)))
  {
  }

  lemma PickInLoop(loop: Loop, pc: Pc)
    requires pc.Pick? && !In(loop, Inner(pc))
    ensures !In(loop, Inner(Ran(pc.i)))
  {
  }

  lemma ParkedBegins(loop: Loop, pc: Pc)
    requires (pc.SleepSched? || pc.YieldSched? || pc.ExitSched?) && !In(loop, Inner(pc))
    ensures !In(loop, Inner(Parked(pc)))
  {
  }

  ghost predicate Looked(loop: Loop, trace: seq<State>, t: nat, a: nat, i: nat, j: nat)
    requires a <= i < |trace|
  {
    exists m :: a <= m < i && Looks(loop, trace[m], t, j)
  }

  /** No slot is left out: since the loop began the thread has looked at every slot that it has passed. */
  lemma {:induction false} LoopCovers(loop: Loop, trace: seq<State>, steps: seq<Step>, t: nat, a: nat, i: nat, j: nat)
    requires Run(trace, steps) && a <= i < |trace|
    requires forall m :: a <= m <= i ==> t < |trace[m].pcs| && In(loop, Inner(trace[m].pcs[t]))
    requires Seen(loop, Inner(trace[a].pcs[t])) == 0 && j < Seen(loop, Inner(trace[i].pcs[t]))
    ensures Looked(loop, trace, t, a, i, j)
    decreases i
  {
    hide Run, Inv, In, Seen, Looks, Inner, Enabled, Next;
    RunLength(trace, steps);
    if a < i {
      RunKeepsInv(trace, steps, i - 1);
      RunStep(trace, steps, i - 1);
      StepInRange(trace[i - 1], steps[i - 1]);
      LoopStep(loop, trace[i - 1], steps[i - 1], t);
      if j < Seen(loop, Inner(trace[i - 1].pcs[t])) {
        LoopCovers(loop, trace, steps, t, a, i - 1, j);
        var m :| a <= m < i - 1 && Looks(loop, trace[m], t, j);
      } else {
        assert Looks(loop, trace[i - 1], t, j);
      }
    }
  }

  /** kkill returns -1 only after it has seen another pid in every slot; allocproc finds nothing only after it has
      seen every slot in use; and a pass of the scheduler ends only after it has looked at every slot. */
  lemma LoopEnds(loop: Loop, trace: seq<State>, steps: seq<Step>, t: nat, a: nat, i: nat, j: nat)
    requires Run(trace, steps) && 0 < a <= i < |steps| && j < |trace[i].procs|
    requires forall m :: a <= m <= i ==> t < |trace[m].pcs| && In(loop, Inner(trace[m].pcs[t]))
    requires t < |trace[a - 1].pcs| && !In(loop, Inner(trace[a - 1].pcs[t]))
    requires t < |trace[i + 1].pcs| && Inner(trace[i + 1].pcs[t]) == Client({})
    ensures Looked(loop, trace, t, a, i, j)
  {
    hide Run, Inv, Enabled, Next;
    RunLength(trace, steps);
    RunKeepsInv(trace, steps, a - 1);
    RunStep(trace, steps, a - 1);
    LoopBegins(loop, trace[a - 1], steps[a - 1], t);
    RunKeepsInv(trace, steps, i);
    RunStep(trace, steps, i);
    LoopLast(loop, trace[i], steps[i], t);
    LoopCovers(loop, trace, steps, t, a, i, j);
  }

  lemma LoopLast(loop: Loop, s: State, e: Step, t: nat)
    requires Inv(s) && Enabled(s, e) && t < |s.pcs|
    requires In(loop, Inner(s.pcs[t])) && t < |Next(s, e).pcs| && Inner(Next(s, e).pcs[t]) == Client({})
    ensures Seen(loop, Inner(s.pcs[t])) >= |s.procs|
  {
    hide Inv, Held, Next, Enabled, Inner, Seen, In;
    StepInRange(s, e);
    if t != s.cur[e.c] {
      ElsewhereEnds(loop, s, e, t);
    } else {
      if e.Move? {
        OwnCounter(s, e.c, e.a);
      }
      OwnEnds(loop, s, e);
    }
  }

  lemma ElsewhereEnds(loop: Loop, s: State, e: Step, t: nat)
    requires Inv(s) && Enabled(s, e) && t < |s.pcs| && t != s.cur[e.c] && In(loop, Inner(s.pcs[t]))
    requires t < |Next(s, e).pcs|
    ensures Inner(Next(s, e).pcs[t]) != Client({})
  {
    hide Inv, Held, Callable, Written, Target, Moves, Wants, Yields, Acquired, Released, Shape;
    if e.Move? && Claims(s, s.pcs[s.cur[e.c]]) {
      InvUnused(s, s.pcs[s.cur[e.c]].i);
    }
  }

  lemma OwnEnds(loop: Loop, s: State, e: Step)
    requires Enabled(s, e) && In(loop, Inner(s.pcs[s.cur[e.c]])) && s.cur[e.c] < |Next(s, e).pcs|
    requires Inner(Next(s, e).pcs[s.cur[e.c]]) == Client({})
    requires e.Move? ==> Next(s, e).pcs[s.cur[e.c]] == Target(s.procs, s.pcs[s.cur[e.c]], s.cur[e.c], e.a)
    ensures Seen(loop, Inner(s.pcs[s.cur[e.c]])) >= |s.procs|
  {
    hide Held, Callable, Written, BackShape, RetShape, Condition;
  }

  /** A slot that allocproc takes is not in a loop. */
  lemma InvUnused(s: State, i: nat)
    requires Inv(s) && i < |s.procs| && s.procs[i].state == UNUSED
    ensures i < |s.pcs| && (s.pcs[i].Dead? || s.pcs[i] == Resume(Client({})))
  {
    hide Promise, Waiters, Parents, OneClaim, Pids, Shapes, Exclusion;
  }

  // ---- the loops end

  datatype Scanning = NoScan | Kills | Forks | Schedules | Waits | Wakes | Reparents

  /** The scan of the table that a thread is in. */
  function ScanOf(pc: Pc): Scanning {
    match pc
    case Kill(_, _) | KillTest(_, _) | KillNext(_, _) => Kills
    case Fork(_) | ForkTest(_) | ForkNext(_) => Forks
    case Scan(_) | Pick(_) | Ran(_) | Drop(_) => Schedules
    case WaitScan(_, _) | WaitKid(_) | WaitTest(_) | WaitNext(_) => Waits
    case Wake(_, _, ret) => if ret.ToReparent? then Reparents else Wakes
    case WakeTest(_, _, ret) => if ret.ToReparent? then Reparents else Wakes
    case WakeNext(_, _, ret) => if ret.ToReparent? then Reparents else Wakes
    case Reparent(_, _) => Reparents
    case _ => NoScan
  }

  predicate SameScan(pc: Pc, to: Pc) {
    ScanOf(pc) == ScanOf(to) != NoScan
  }

  /** The slots that reparent has dealt with, and how far the scan of slots, or of wakeup, has come. */
  function Progress(pc: Pc): (int, int) {
    match pc
    case Wake(_, i, ret) => (if ret.ToReparent? then 2 * ret.k - 1 else 0, 3 * i)
    case WakeTest(_, i, ret) => (if ret.ToReparent? then 2 * ret.k - 1 else 0, 3 * i + 1)
    case WakeNext(_, i, ret) => (if ret.ToReparent? then 2 * ret.k - 1 else 0, 3 * i + 2)
    case Kill(_, i) => (0, 3 * i)
    case KillTest(_, i) => (0, 3 * i + 1)
    case KillNext(_, i) => (0, 3 * i + 2)
    case Fork(i) => (0, 3 * i)
    case ForkTest(i) => (0, 3 * i + 1)
    case ForkNext(i) => (0, 3 * i + 2)
    case Scan(i) => (0, 4 * i)
    case Pick(i) => (0, 4 * i + 1)
    case Ran(i) => (0, 4 * i + 2)
    case Drop(i) => (0, 4 * i + 3)
    case WaitScan(k, _) => (0, 4 * k)
    case WaitKid(k) => (0, 4 * k + 1)
    case WaitTest(k) => (0, 4 * k + 2)
    case WaitNext(k) => (0, 4 * k + 3)
    case Reparent(k, _) => (2 * k, 0)
    case _ => (0, 0)
  }

  predicate Later(pc: Pc, to: Pc) {
    var a, b := Progress(pc), Progress(to);
    a.0 < b.0 || (a.0 == b.0 && a.1 < b.1)
  }

  lemma MoveAdvances(procs: seq<Proc>, pc: Pc, me: nat, a: Act)
    requires Shape(pc, me, |procs|) && Moves(procs, pc, me, a) && SameScan(pc, Target(procs, pc, me, a))
    ensures Later(pc, Target(procs, pc, me, a))
  {
    hide Callable, BackShape, RetShape, Condition;
  }

  lemma AcquireAdvances(pc: Pc, me: nat, n: nat, l: Lock)
    requires Wants(pc, me, n, l) && SameScan(pc, Acquired(pc, l))
    ensures Later(pc, Acquired(pc, l))
  {
  }

  lemma ReleaseAdvances(pc: Pc, me: nat, n: nat, l: Lock)
    requires Shape(pc, me, n) && Yields(pc, me, l) && SameScan(pc, Released(pc, me, n, l))
    ensures Later(pc, Released(pc, me, n, l))
  {
    hide BackShape, RetShape, Condition;
  }

  /** Every step of a thread within a scan, but for being interrupted, brings it nearer to the end of the table. */
  lemma ScansAdvance(s: State, e: Step)
    requires Reachable(s) && Enabled(s, e) && (e.Move? || e.Acquire? || e.Release? || e.Dispatch?)
    requires s.cur[e.c] < |Next(s, e).pcs| && SameScan(s.pcs[s.cur[e.c]], Next(s, e).pcs[s.cur[e.c]])
    ensures Later(s.pcs[s.cur[e.c]], Next(s, e).pcs[s.cur[e.c]])
  {
    hide Reachable, Inv, SameScan, Later, Target, Moves, Wants, Yields, Acquired, Released, Shape, Written;
    var t := s.cur[e.c];
    match e
    case Move(c, a) =>
      ReachableInv(s);
      OwnCounter(s, c, a);
      MoveAdvances(s.procs, s.pcs[t], t, a);
    case Acquire(_, l) => AcquireAdvances(s.pcs[t], t, |s.procs|, l);
    case Release(_, l) => ReleaseAdvances(s.pcs[t], t, |s.procs|, l);
    case Dispatch(_) => DispatchAdvances(s.pcs[t].i);
  }

  lemma DispatchAdvances(i: nat)
    ensures Later(Pick(i), Ran(i))
  {
  }

  /** What the scheduler finds runnable it runs. */
  lemma RunsTheRunnable(s: State, e: Step)
    requires Enabled(s, e) && s.pcs[s.cur[e.c]].Pick?
    ensures var k := s.pcs[s.cur[e.c]].i; var f := Next(s, e);
            && k < |s.procs| && (s.procs[k].state == RUNNABLE <==> f.cur[e.c] == k)
            && (f.cur[e.c] == k ==> f.procs[k].state == RUNNING)
  {
  }
}
