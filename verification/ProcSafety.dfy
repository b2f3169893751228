/** What holds in every reachable state of the process table, for any number of processes, CPUs, locks and steps. */
module ProcSafety {
  import opened ProcTable
  import opened ProcPlaced
  import opened ProcLocks
  import opened ProcFamily
  import opened Results

  ghost predicate Inv(s: State) {
    Placed(s) && Locked(s) && Kin(s)
  }

  lemma InvInit(s: State)
    requires Init(s)
    ensures Inv(s)
  {
    PlacedInit(s);
    LockedInit(s);
    KinInit(s);
  }

  lemma InvQuiet(s: State, t: State, p: nat)
    requires Inv(s) && OnCpu(s, p) && Quiet(s, t, p) && Locked(t)
    ensures Inv(t)
  {
    PlacedQuiet(s, t, p);
    KinQuiet(s, t, p);
  }

  lemma InvLock(s: State, p: nat)
    requires Inv(s) && OnCpu(s, p) && CanGo(s, p) && InLock(s.procs[p].pc)
    ensures Inv(GoLock(s, p))
  {
    var pc, t := s.procs[p].pc, GoLock(s, p);
    LockedLock(s, p);
    if pc.SleepGo? {
      assert ProcOk(s, p);
      PlacedOut(s, p, s.procs[p].(state := Sleeping, chan := LockChan(pc.l), pc := Slept(pc.l)));
      KinLock(s, p);
    } else if pc.UnlockWaking? {
      NearWaking(s, p);
      PlacedNear(s, t, p);
      KinLock(s, p);
    } else if pc.LockSpin? || pc.LockTest? || pc.SleepPt? || pc.SleepRel? || pc.Slept? {
      QuietAcquire(s, p);
      InvQuiet(s, t, p);
    } else {
      QuietRelease(s, p);
      InvQuiet(s, t, p);
    }
  }

  lemma InvWait(s: State, p: nat)
    requires Inv(s) && OnCpu(s, p) && CanGo(s, p) && InWait(s.procs[p].pc)
    ensures Inv(GoWait(s, p))
  {
    var t := GoWait(s, p);
    LockedWait(s, p);
    if !s.procs[p].pc.WaitScan? {
      QuietWait(s, p);
      InvQuiet(s, t, p);
    } else {
      var d := FirstDeadChild(s.procs, p, 0);
      if Returns(s, p) {
        NearScan(s, p);
        PlacedNear(s, t, p);
      } else {
        PlacedOut(s, p, s.procs[p].(state := Sleeping, chan := ProcChan(p), pc := WaitSlept));
      }
      if d < |s.procs| {
        KinReap(s, p, d);
      } else {
        KinNoChild(s, p);
      }
    }
  }

  lemma InvYield(s: State, p: nat)
    requires Inv(s) && OnCpu(s, p) && CanGo(s, p) && InYield(s.procs[p].pc)
    ensures Inv(GoYield(s, p))
  {
    LockedYield(s, p);
    if s.procs[p].pc.YieldGo? {
      assert ProcOk(s, p);
      PlacedOut(s, p, s.procs[p].(state := Runnable, pc := LeavePt(s.procs[p].pc.k)));
      KinYield(s, p);
    } else {
      QuietYield(s, p);
      InvQuiet(s, GoYield(s, p), p);
    }
  }

  lemma PlacedHistory(s: State, exits: seq<nat>)
    requires Placed(s)
    ensures Placed(s.(exits := exits))
  {
    var t := s.(exits := exits);
    forall c | 0 <= c < |t.cpus| ensures CpuOk(t, c) {
      assert CpuOk(s, c);
    }
    forall p | 0 <= p < |t.procs| ensures ProcOk(t, p) {
      assert ProcOk(s, p);
    }
  }

  lemma InvExit(s: State, p: nat)
    requires Inv(s) && OnCpu(s, p) && CanGo(s, p) && InExit(s.procs[p].pc)
    ensures Inv(GoExit(s, p))
  {
    var x, t := s.procs[p], GoExit(s, p);
    LockedExit(s, p);
    if x.pc.ExitGo? {
      PlacedHistory(s, s.exits + [x.pid]);
      PlacedOut(s.(exits := s.exits + [x.pid]), p, x.(state := Zombie, pc := Dead));
      KinExitGo(s, p);
    } else if x.pc.ExitWake? {
      NearExit(s, p);
      PlacedNear(s, t, p);
      KinExitWake(s, p);
    } else {
      QuietExit(s, p);
      InvQuiet(s, t, p);
    }
  }

  lemma InvFork(s: State, p: nat)
    requires Inv(s) && OnCpu(s, p) && CanGo(s, p) && InFork(s.procs[p].pc)
    ensures Inv(GoFork(s, p))
  {
    var pc, t := s.procs[p].pc, GoFork(s, p);
    LockedFork(s, p);
    assert ForkOk(s, p);
    if pc.ForkPick? {
      NearPick(s, p);
      PlacedNear(s, t, p);
      KinPick(s, p);
    } else if pc.ForkFill? {
      NearFill(s, p);
      PlacedNear(s, t, p);
      KinFork(s, p);
    } else if pc.ForkReady? {
      NearReady(s, p);
      PlacedNear(s, t, p);
      KinFork(s, p);
    } else {
      QuietFork(s, p);
      InvQuiet(s, t, p);
    }
  }

  lemma InvKill(s: State, p: nat)
    requires Inv(s) && OnCpu(s, p) && CanGo(s, p) && InKill(s.procs[p].pc)
    ensures Inv(GoKill(s, p))
  {
    LockedKill(s, p);
    if s.procs[p].pc.KillScan? {
      NearKill(s, p);
      PlacedNear(s, GoKill(s, p), p);
      KinKill(s, p);
    } else {
      QuietKill(s, p);
      InvQuiet(s, GoKill(s, p), p);
    }
  }

  lemma InvGo(s: State, p: nat)
    requires Inv(s) && OnCpu(s, p) && CanGo(s, p)
    ensures Inv(ExecGo(s, p))
  {
    var pc := s.procs[p].pc;
    if InLock(pc) {
      InvLock(s, p);
    } else if InWait(pc) {
      InvWait(s, p);
    } else if InYield(pc) {
      InvYield(s, p);
    } else if InExit(pc) {
      InvExit(s, p);
    } else if InFork(pc) {
      InvFork(s, p);
    } else {
      InvKill(s, p);
    }
  }

  /** Every step of every thread and scheduler keeps the invariant. */
  lemma InvStep(s: State, step: Step)
    requires Inv(s) && Enabled(s, step)
    ensures Inv(Exec(s, step))
  {
    match step
    case Call(p, pc) =>
      assert HoldOk(s, p);
      LockedCall(s, p, pc);
      QuietCall(s, p, pc);
      InvQuiet(s, At(s, p, pc), p);
    case Tick(p) =>
      LockedTick(s, p);
      QuietTick(s, p);
      InvQuiet(s, At(s, p, YieldAcq(s.procs[p].pc)), p);
    case Go(p) => InvGo(s, p);
    case NoMemory(p) =>
      assert ForkOk(s, p);
      LockedNoMemory(s, p);
      NearNoMemory(s, p);
      PlacedNear(s, Exec(s, step), p);
      KinNoMemory(s, p);
    case Sched(c) =>
      PlacedSched(s, c);
      LockedSched(s, c);
      KinSched(s, c);
  }

  lemma {:induction false} InvRun(s: State, steps: seq<Step>)
    requires Inv(s) && Runs(s, steps)
    ensures Inv(Final(s, steps))
    decreases |steps|
  {
    if steps != [] {
      InvStep(s, steps[0]);
      InvRun(Exec(s, steps[0]), steps[1..]);
    }
  }

  // ---- The theorems -------------------------------------------------------------------------

  /**
   * No lost wakeup: whenever ptable.lock and a sleeplock's own spinlock are free, a process asleep on the sleeplock
   * means that some process has it. At most one ever does, and holdingsleep says which.
   */
  lemma SleeplocksSafe(s: State, steps: seq<Step>, p: nat, q: nat, l: nat)
    requires Init(s) && Runs(s, steps) && p < |s.procs| && q < |s.procs| && l < |s.locks|
    ensures
      var t := Final(s, steps);
      && |t.procs| == |s.procs| && |t.locks| == |s.locks|
      && (t.pt == None && t.locks[l].spin == None && SleepsOn(t.procs[p], LockChan(l)) ==>
            t.locks[l].locked && exists h :: 0 <= h < |t.procs| && l in t.procs[h].held)
      && (l in t.procs[p].held && l in t.procs[q].held ==> p == q)
      && (Alive(t.procs[p].state) ==> (t.locks[l].locked && t.locks[l].pid == t.procs[p].pid <==> l in t.procs[p].held))
  {
    InvInit(s);
    InvRun(s, steps);
    SameSizes(s, steps);
    var t := Final(s, steps);
    assert WakeOk(t, p) && HoldOk(t, p) && HoldOk(t, q) && LockOk(t, l) && SpinOk(t, l);
    if t.locks[l].locked {
      var h := t.locks[l].owner;
      assert HoldOk(t, h) && l in t.procs[h].held;
    }
    assert SleepsOn(t.procs[p], LockChan(l)) ==> Waits(t.procs[p], l);
  }

  /**
   * Exit and wait: no process has an exited or unused parent; a process asleep in wait has no exited child; no pid
   * exits twice or is returned by two waits; a pid that exited was returned by a wait or is still a zombie's.
   */
  lemma ExitWaitSafe(s: State, steps: seq<Step>, p: nat, q: nat)
    requires Init(s) && Runs(s, steps) && p < |s.procs| && q < |s.procs|
    ensures
      var t := Final(s, steps);
      && |t.procs| == |s.procs|
      && (HasParent(t.procs[q], p) ==> t.procs[p].state != Zombie && t.procs[p].state != Unused)
      && (SleepsOn(t.procs[p], ProcChan(p)) ==> !DeadChild(t.procs[q], p))
      && Once(t.exits) && Once(t.reaps) && (forall x | x in t.reaps :: x in t.exits)
      && (forall x | x in t.exits && x !in t.reaps :: exists z: nat :: ZombieIs(t, z, x))
      && (t.procs[p].state == Zombie ==> t.procs[p].pid in t.exits && t.procs[p].pid !in t.reaps)
  {
    InvInit(s);
    InvRun(s, steps);
    SameSizes(s, steps);
    var t := Final(s, steps);
    assert ParentOk(t, q) && WaitOk(t, p) && PidOk(t, p);
  }

  /** A zombie's pid is what its parent's wait returns, and that wait frees the slot. */
  lemma WaitReaps(s: State, p: nat, d: nat)
    requires Inv(s) && OnCpu(s, p) && CanGo(s, p) && s.procs[p].pc.WaitScan? && d < |s.procs|
      && DeadChild(s.procs[d], p)
    ensures
      var t := ExecGo(s, p);
      exists z: nat :: z <= d && DeadChild(s.procs[z], p) && z < |t.procs| && t.procs[z].state == Unused
                       && t.reaps == s.reaps + [s.procs[z].pid]
  {
    var z := FirstDeadChild(s.procs, p, 0);
    assert ProcOk(s, p);
  }

  /** Whenever ptable.lock is free, a process is RUNNING if and only if exactly one CPU has it as its process. */
  lemma RunningOnOneCpu(s: State, steps: seq<Step>, p: nat)
    requires Init(s) && Runs(s, steps) && p < |s.procs|
    ensures
      var t := Final(s, steps);
      && |t.procs| == |s.procs| && |t.cpus| == |s.cpus|
      && (t.pt == None ==>
          (t.procs[p].state == Running <==> exists c :: 0 <= c < |t.cpus| && t.cpus[c].proc == Some(p)))
      && (forall c, d | 0 <= c < |t.cpus| && 0 <= d < |t.cpus| && t.cpus[c].proc == t.cpus[d].proc == Some(p) ::
          t.pt == None ==> c == d)
  {
    InvInit(s);
    InvRun(s, steps);
    SameSizes(s, steps);
    var t := Final(s, steps);
    assert ProcOk(t, p);
    if t.procs[p].cpu.Some? {
      assert CpuOk(t, t.procs[p].cpu.value);
    }
    forall c | 0 <= c < |t.cpus| && t.cpus[c].proc == Some(p) && t.pt == None ensures t.procs[p].cpu == Some(c) {
      assert CpuOk(t, c);
    }
  }

  lemma {:induction false} SameSizes(s: State, steps: seq<Step>)
    requires Runs(s, steps)
    ensures SameShape(s, Final(s, steps))
    decreases |steps|
  {
    if steps != [] {
      SameSizes(Exec(s, steps[0]), steps[1..]);
    }
  }

  /** A thread on a CPU that is in the code modelled here can always go on, unless it spins on a lock that is taken. */
  lemma NeverStuck(s: State, p: nat)
    requires Inv(s) && OnCpu(s, p) && !s.procs[p].pc.User? && (WantsPt(s.procs[p].pc) ==> s.pt == None)
    requires s.procs[p].pc.LockSpin? || s.procs[p].pc.UnlockSpin? ==>
              s.procs[p].pc.l >= |s.locks| || s.locks[s.procs[p].pc.l].spin == None
    ensures Enabled(s, Go(p))
  {
    assert ProcOk(s, p) && ParentOk(s, p) && ParentOk(s, INIT) && ForkOk(s, p);
  }
}
