/** Every step keeps processes, CPUs and ptable.lock in correspondence, across the context switch. */
module ProcPlaced {
  import opened ProcTable
  import opened Results

  /** The thread has ptable.lock, or will have it when the scheduler switches to it. */
  predicate PtHeld(pc: Pc) {
    || pc.SleepRel? || pc.SleepGo? || pc.Slept? || pc.UnlockWaking? || pc.UnlockPt? || pc.WaitScan? || pc.WaitSlept?
    || pc.YieldGo? || pc.LeavePt? || pc.ExitWake? || pc.ExitGo? || pc.ForkPick? || pc.ForkReady? || pc.KillScan?
  }

  /** The sleeplock whose spinlock the thread has. */
  function SpinOf(pc: Pc): Option<nat> {
    if pc.LockTest? || pc.SleepPt? || pc.SleepRel? || pc.UnlockClear? || pc.UnlockWake? || pc.UnlockWaking?
      || pc.UnlockPt? || pc.UnlockDone?
    then Some(pc.l) else None
  }

  /** Where the thread goes on after a yield or a release of ptable.lock. */
  function Base(pc: Pc): Pc {
    if pc.YieldAcq? || pc.YieldGo? || pc.LeavePt? then pc.k else pc
  }

  predicate PcOk(s: State, pc: Pc) {
    && (pc.YieldAcq? || pc.YieldGo? || pc.LeavePt? ==> Interruptible(pc.k) && PlainOk(s, pc.k))
    && PlainOk(s, pc)
  }

  predicate PlainOk(s: State, pc: Pc) {
    && (SpinOf(pc).Some? || pc.LockSpin? || pc.UnlockSpin? || pc.SleepGo? || pc.Slept? ==> pc.l < |s.locks|)
    && (pc.ForkFill? || pc.ForkLock? || pc.ForkReady? ==> pc.np < |s.procs|)
  }

  // ---- CPUs and the lock that goes through the context switch -------------------------------

  /** A thread off the CPUs is where it can be switched to, which is always with ptable.lock. */
  predicate Parked(x: Proc, p: nat) {
    match x.state
    case Unused => x.pc == User
    case Embryo => x.pc == LeavePt(User)
    case Sleeping => (x.pc.Slept? && x.chan == LockChan(x.pc.l)) || (x.pc.WaitSlept? && x.chan == ProcChan(p))
    case Runnable => x.pc.Slept? || x.pc.WaitSlept? || x.pc.LeavePt?
    case Running => false
    case Zombie => x.pc.Dead?
  }

  predicate ProcOk(s: State, p: nat)
    requires p < |s.procs|
  {
    var x := s.procs[p];
    && PcOk(s, x.pc)
    && match x.cpu
       case None => Parked(x, p)
       case Some(c) =>
         c < |s.cpus| && s.cpus[c].sched == Ran(p) && x.state == Running && !x.pc.Dead?
           && (PtHeld(x.pc) <==> s.pt == Some(c))
  }

  predicate CpuOk(s: State, c: nat)
    requires c < |s.cpus|
  {
    match s.cpus[c].sched
    case SchedAcq => s.cpus[c].proc == None && s.pt != Some(c)
    case Scan(i) => s.cpus[c].proc == None && s.pt == Some(c)
    case Ran(i) => i < |s.procs| && s.cpus[c].proc == Some(i) && s.procs[i].cpu == Some(c)
    case Back(i) => i < |s.procs| && s.cpus[c].proc == Some(i) && s.procs[i].cpu == None && s.pt == Some(c)
  }

  ghost predicate Placed(s: State) {
    && (forall c | 0 <= c < |s.cpus| :: CpuOk(s, c)) && (forall p | 0 <= p < |s.procs| :: ProcOk(s, p))
    && (s.pt.Some? ==> s.pt.value < |s.cpus|)
  }

  lemma PlacedInit(s: State)
    requires Init(s)
    ensures Placed(s)
  {
  }

  /** From `s` to `t` the thread of `p` stays on its CPU, and another process `q` stays or moves off the CPUs. */
  predicate NearAt(s: State, t: State, p: nat, q: nat)
    requires p < |s.procs| && q < |s.procs| == |t.procs|
  {
    var x, y := s.procs[q], t.procs[q];
    && y.cpu == x.cpu && PcOk(t, y.pc)
    && if x.cpu == None then Parked(y, q)
       else if q == p then y.state == Running && !y.pc.Dead? && (PtHeld(y.pc) <==> t.pt == x.cpu)
       else y.pc == x.pc && y.state == Running
  }

  /** ptable.lock is where it was, or the CPU of `p` took or released it. */
  ghost predicate Near(s: State, t: State, p: nat)
    requires OnCpu(s, p)
  {
    && t.cpus == s.cpus && |t.procs| == |s.procs| && |t.locks| == |s.locks|
    && (forall q | 0 <= q < |s.procs| :: NearAt(s, t, p, q))
    && (t.pt == s.pt || (s.pt == None && t.pt == s.procs[p].cpu) || (s.pt == s.procs[p].cpu && t.pt == None))
  }

  lemma PlacedNear(s: State, t: State, p: nat)
    requires Placed(s) && OnCpu(s, p) && Near(s, t, p)
    ensures Placed(t)
  {
    assert ProcOk(s, p) && NearAt(s, t, p, p);
    forall c | 0 <= c < |t.cpus| ensures CpuOk(t, c) {
      assert CpuOk(s, c);
      if s.cpus[c].proc.Some? {
        assert NearAt(s, t, p, s.cpus[c].proc.value);
      }
    }
    forall q | 0 <= q < |t.procs| ensures ProcOk(t, q) {
      assert ProcOk(s, q) && NearAt(s, t, p, q);
    }
  }

  lemma PlacedOut(s: State, p: nat, x: Proc)
    requires Placed(s) && OnCpu(s, p) && PtHeld(s.procs[p].pc) && PcOk(s, x.pc) && Parked(x, p)
    ensures Placed(SwitchOut(s, p, x))
  {
    var t, c := SwitchOut(s, p, x), s.procs[p].cpu.value;
    assert ProcOk(s, p) && CpuOk(s, c);
    forall d | 0 <= d < |t.cpus| ensures CpuOk(t, d) {
      assert CpuOk(s, d);
    }
    forall q | 0 <= q < |t.procs| ensures ProcOk(t, q) {
      assert ProcOk(s, q);
    }
  }

  lemma PlacedSched(s: State, c: nat)
    requires Placed(s) && Enabled(s, Sched(c))
    ensures Placed(ExecSched(s, c))
  {
    var t := ExecSched(s, c);
    assert CpuOk(s, c);
    if s.cpus[c].sched.Scan? && s.cpus[c].sched.i < |s.procs| {
      assert ProcOk(s, s.cpus[c].sched.i);
    }
    forall d | 0 <= d < |t.cpus| ensures CpuOk(t, d) {
      assert CpuOk(s, d);
    }
    forall q | 0 <= q < |t.procs| ensures ProcOk(t, q) {
      assert ProcOk(s, q);
    }
  }

  /** The slot that a thread in fork has taken. */
  function ForkOf(pc: Pc): Option<nat> {
    var b := Base(pc);
    if b.ForkFill? || b.ForkLock? || b.ForkReady? then Some(b.np) else None
  }

  predicate Exiting(pc: Pc) {
    Base(pc).ExitAcq? || Base(pc).ExitWake? || Base(pc).ExitGo?
  }

  /** The thread of `p` moves on; nobody's state, pid or parent changes. */
  ghost predicate Quiet(s: State, t: State, p: nat)
    requires OnCpu(s, p)
  {
    && t.cpus == s.cpus && |t.locks| == |s.locks| && |t.procs| == |s.procs| && t.procs == s.procs[p := t.procs[p]]
    && t.nextpid == s.nextpid && t.exits == s.exits && t.reaps == s.reaps
    && QuietAt(s.procs[p], t.procs[p], p)
    && PcOk(t, t.procs[p].pc) && !t.procs[p].pc.Dead? && (PtHeld(t.procs[p].pc) <==> t.pt == s.procs[p].cpu)
    && (t.pt == s.pt || (s.pt == None && t.pt == s.procs[p].cpu) || (s.pt == s.procs[p].cpu && t.pt == None))
  }

  predicate QuietAt(x: Proc, y: Proc, p: nat) {
    && y.state == x.state && y.pid == x.pid && y.parent == x.parent && y.cpu == x.cpu
    && ForkOf(y.pc) == ForkOf(x.pc) && (Base(y.pc).ForkFill? <==> Base(x.pc).ForkFill?)
    && !y.pc.ExitGo? && (Exiting(y.pc) ==> Exiting(x.pc) || p != INIT)
  }

  lemma PlacedQuiet(s: State, t: State, p: nat)
    requires Placed(s) && OnCpu(s, p) && Quiet(s, t, p)
    ensures Placed(t)
  {
    assert ProcOk(s, p);
    forall q | 0 <= q < |s.procs| ensures NearAt(s, t, p, q) {
      assert ProcOk(s, q);
    }
    PlacedNear(s, t, p);
  }

  // ---- Which steps are quiet ----------------------------------------------------------------

  lemma QuietAcquire(s: State, p: nat)
    requires Placed(s) && OnCpu(s, p) && CanGo(s, p) && InLock(s.procs[p].pc)
    requires var pc := s.procs[p].pc; pc.LockSpin? || pc.LockTest? || pc.SleepPt? || pc.SleepRel? || pc.Slept?
    ensures Quiet(s, GoLock(s, p), p)
  {
    assert ProcOk(s, p);
  }

  lemma QuietRelease(s: State, p: nat)
    requires Placed(s) && OnCpu(s, p) && CanGo(s, p) && InLock(s.procs[p].pc)
    requires var pc := s.procs[p].pc; pc.UnlockSpin? || pc.UnlockClear? || pc.UnlockWake? || pc.UnlockPt?
                                      || pc.UnlockDone?
    ensures Quiet(s, GoLock(s, p), p)
  {
    assert ProcOk(s, p);
  }

  lemma QuietWait(s: State, p: nat)
    requires Placed(s) && OnCpu(s, p) && CanGo(s, p) && (s.procs[p].pc.WaitAcq? || s.procs[p].pc.WaitSlept?)
    ensures Quiet(s, GoWait(s, p), p)
  {
    assert ProcOk(s, p);
  }

  lemma QuietYield(s: State, p: nat)
    requires Placed(s) && OnCpu(s, p) && CanGo(s, p) && (s.procs[p].pc.YieldAcq? || s.procs[p].pc.LeavePt?)
    ensures Quiet(s, GoYield(s, p), p)
  {
    assert ProcOk(s, p);
  }

  lemma QuietExit(s: State, p: nat)
    requires Placed(s) && OnCpu(s, p) && CanGo(s, p) && s.procs[p].pc.ExitAcq?
    ensures Quiet(s, GoExit(s, p), p)
  {
    assert ProcOk(s, p);
  }

  lemma QuietFork(s: State, p: nat)
    requires Placed(s) && OnCpu(s, p) && CanGo(s, p) && (s.procs[p].pc.ForkAcq? || s.procs[p].pc.ForkLock?)
    ensures Quiet(s, GoFork(s, p), p)
  {
    assert ProcOk(s, p);
  }

  lemma QuietKill(s: State, p: nat)
    requires Placed(s) && OnCpu(s, p) && CanGo(s, p) && s.procs[p].pc.KillAcq?
    ensures Quiet(s, GoKill(s, p), p)
  {
    assert ProcOk(s, p);
  }

  lemma QuietCall(s: State, p: nat, pc: Pc)
    requires Placed(s) && Enabled(s, Call(p, pc)) && PlainOk(s, pc)
    ensures Quiet(s, At(s, p, pc), p)
  {
    assert ProcOk(s, p);
  }

  lemma QuietTick(s: State, p: nat)
    requires Placed(s) && Enabled(s, Tick(p))
    ensures Quiet(s, At(s, p, YieldAcq(s.procs[p].pc)), p)
  {
    assert ProcOk(s, p);
  }

  // ---- The other steps ----------------------------------------------------------------------

  lemma NearWaking(s: State, p: nat)
    requires Placed(s) && OnCpu(s, p) && CanGo(s, p) && s.procs[p].pc.UnlockWaking?
    ensures Near(s, GoLock(s, p), p)
  {
    assert ProcOk(s, p);
    forall q | 0 <= q < |s.procs| ensures NearAt(s, GoLock(s, p), p, q) {
      assert ProcOk(s, q);
    }
  }

  lemma {:induction false} AbandonedAt(procs: seq<Proc>, p: nat, parent: nat, i: nat)
    requires i < |procs|
    ensures
      var x, y := procs[i], Abandoned(procs, p, parent)[i];
      && y == x.(state := y.state, parent := if HasParent(x, p) then Some(INIT) else x.parent)
      && (y.state == x.state || (x.state == Sleeping && y.state == Runnable)) && !SleepsOn(y, ProcChan(parent))
  {
  }

  /**
   * What exit does to each other process: it becomes runnable exactly if it sleeps in wait as the exiting
   * process's parent, or as init while init is given a child that has exited already.
   */
  lemma AbandonedIs(procs: seq<Proc>, p: nat, parent: nat, i: nat)
    requires i < |procs|
    ensures
      var x, y := procs[i], Abandoned(procs, p, parent)[i];
      && y == x.(state := y.state, parent := if HasParent(x, p) then Some(INIT) else x.parent)
      && y.state == if SleepsOn(x, ProcChan(parent)) || (SleepsOn(x, ProcChan(INIT)) && ExitedChild(procs, p))
        then Runnable else x.state
  {
    var woken := Wakeup(procs, ProcChan(parent));
    assert ExitedChild(woken, p) <==> ExitedChild(procs, p) by {
      forall j | 0 <= j < |procs| ensures DeadChild(woken[j], p) <==> DeadChild(procs[j], p) {
      }
    }
  }

  predicate ExitedChild(procs: seq<Proc>, p: nat) {
    exists j :: 0 <= j < |procs| && DeadChild(procs[j], p)
  }

  lemma {:induction false} AbandonedWakesInit(procs: seq<Proc>, p: nat, parent: nat, i: nat, j: nat)
    requires i < |procs| && j < |procs| && DeadChild(procs[j], p)
    ensures !SleepsOn(Abandoned(procs, p, parent)[i], ProcChan(INIT))
  {
    var woken := Wakeup(procs, ProcChan(parent));
    assert DeadChild(woken[j], p);
  }

  lemma NearExit(s: State, p: nat)
    requires Placed(s) && OnCpu(s, p) && CanGo(s, p) && s.procs[p].pc.ExitWake?
    ensures Near(s, GoExit(s, p), p)
  {
    assert ProcOk(s, p);
    forall q | 0 <= q < |s.procs| ensures NearAt(s, GoExit(s, p), p, q) {
      assert ProcOk(s, q);
      AbandonedAt(s.procs, p, s.procs[p].parent.value, q);
    }
  }

  /** wait finds an exited child, or has nothing to wait for. */
  predicate Returns(s: State, p: nat)
    requires p < |s.procs|
  {
    FirstDeadChild(s.procs, p, 0) < |s.procs| || !HasKids(s.procs, p) || s.procs[p].killed
  }

  lemma NearScan(s: State, p: nat)
    requires Placed(s) && OnCpu(s, p) && CanGo(s, p) && s.procs[p].pc.WaitScan? && Returns(s, p)
    ensures Near(s, GoWait(s, p), p)
  {
    assert ProcOk(s, p);
    forall q | 0 <= q < |s.procs| ensures NearAt(s, GoWait(s, p), p, q) {
      assert ProcOk(s, q);
    }
  }

  lemma NearKillAt(s: State, p: nat, t: State, q: nat)
    requires Placed(s) && OnCpu(s, p) && CanGo(s, p) && s.procs[p].pc.KillScan? && t == GoKill(s, p) && q < |s.procs|
    ensures |t.procs| == |s.procs| && NearAt(s, t, p, q)
  {
    assert ProcOk(s, p) && ProcOk(s, q);
    if q != p && q != FirstPid(s.procs, s.procs[p].pc.pid, 0) {
      assert t.procs[q] == s.procs[q];
    }
  }

  lemma NearKill(s: State, p: nat)
    requires Placed(s) && OnCpu(s, p) && CanGo(s, p) && s.procs[p].pc.KillScan?
    ensures Near(s, GoKill(s, p), p)
  {
    var t := GoKill(s, p);
    assert ProcOk(s, p);
    forall q | 0 <= q < |s.procs| ensures NearAt(s, t, p, q) {
      NearKillAt(s, p, t, q);
    }
  }

  lemma NearPick(s: State, p: nat)
    requires Placed(s) && OnCpu(s, p) && CanGo(s, p) && s.procs[p].pc.ForkPick?
    ensures Near(s, GoFork(s, p), p)
  {
    var t, np := GoFork(s, p), FirstUnused(s.procs, 0);
    assert ProcOk(s, p);
    forall q | 0 <= q < |s.procs| ensures NearAt(s, t, p, q) {
      assert ProcOk(s, q);
      if q != p && q != np {
        assert t.procs[q] == s.procs[q];
      }
    }
  }

  lemma NearFill(s: State, p: nat)
    requires Placed(s) && OnCpu(s, p) && CanGo(s, p) && s.procs[p].pc.ForkFill? && s.procs[s.procs[p].pc.np].state
      == Embryo
    ensures Near(s, GoFork(s, p), p)
  {
    assert ProcOk(s, p);
    forall q | 0 <= q < |s.procs| ensures NearAt(s, GoFork(s, p), p, q) {
      assert ProcOk(s, q);
    }
  }

  lemma NearReady(s: State, p: nat)
    requires Placed(s) && OnCpu(s, p) && CanGo(s, p) && s.procs[p].pc.ForkReady? && s.procs[s.procs[p].pc.np].state
      == Embryo
    ensures Near(s, GoFork(s, p), p)
  {
    assert ProcOk(s, p);
    forall q | 0 <= q < |s.procs| ensures NearAt(s, GoFork(s, p), p, q) {
      assert ProcOk(s, q);
    }
  }

  lemma NearNoMemory(s: State, p: nat)
    requires Placed(s) && Enabled(s, NoMemory(p)) && s.procs[s.procs[p].pc.np].state == Embryo
    ensures Near(s, Exec(s, NoMemory(p)), p)
  {
    assert ProcOk(s, p);
    forall q | 0 <= q < |s.procs| ensures NearAt(s, Exec(s, NoMemory(p)), p, q) {
      assert ProcOk(s, q);
    }
  }
}
