/** Sleeplocks: at most one holder, and no wakeup is lost. */
module ProcLocks {
  import opened ProcTable
  import opened ProcPlaced
  import opened Results

  predicate Alive(state: ProcState) {
    state == Sleeping || state == Runnable || state == Running
  }

  /** The sleeplock that the thread is about to release. */
  predicate Unlocking(pc: Pc, l: nat) {
    Base(pc) == UnlockSpin(l) || pc == UnlockClear(l)
  }

  predicate SpinOk(s: State, l: nat)
    requires l < |s.locks|
  {
    s.locks[l].spin.Some? ==> s.locks[l].spin.value < |s.procs| && SpinOf(s.procs[s.locks[l].spin.value].pc) == Some(l)
  }

  predicate SpinsOk(s: State, p: nat)
    requires p < |s.procs|
  {
    SpinOf(s.procs[p].pc).Some? ==> SpinOf(s.procs[p].pc).value < |s.locks| && s.locks[SpinOf(s.procs[p].pc).value].spin
                                    == Some(p)
  }

  /** A spinlock is with the one thread that is where it has it. */
  ghost predicate Spins(s: State) {
    (forall l | 0 <= l < |s.locks| :: SpinOk(s, l)) && (forall p | 0 <= p < |s.procs| :: SpinsOk(s, p))
  }

  /** What a process holds is locked by it. */
  ghost predicate HoldOk(s: State, p: nat)
    requires p < |s.procs|
  {
    var x := s.procs[p];
    && (forall l | l in x.held :: l < |s.locks| && s.locks[l].locked && s.locks[l].owner == p
                                  && s.locks[l].pid == x.pid)
    && (x.held != {} ==> Alive(x.state)) && (Exiting(x.pc) ==> x.held == {})
      && (forall l | Unlocking(x.pc, l) :: l in x.held)
  }

  predicate LockOk(s: State, l: nat)
    requires l < |s.locks|
  {
    s.locks[l].locked ==> s.locks[l].owner < |s.procs| && l in s.procs[s.locks[l].owner].held
  }

  ghost predicate Holds(s: State) {
    (forall p | 0 <= p < |s.procs| :: HoldOk(s, p)) && (forall l | 0 <= l < |s.locks| :: LockOk(s, l))
  }

  /** A thread in releasesleep has cleared the lock and has still to wake the sleepers. */
  predicate Waking(s: State, l: nat)
    requires l < |s.locks|
  {
    var q := s.locks[l].spin;
    q.Some? && q.value < |s.procs| && (s.procs[q.value].pc == UnlockWake(l) || s.procs[q.value].pc == UnlockWaking(l))
  }

  /** A process sleeps on sleeplock `l`, or has let go of its spinlock to do so. */
  predicate Waits(x: Proc, l: nat) {
    SleepsOn(x, LockChan(l)) || x.pc == SleepGo(l)
  }

  ghost predicate WakeOk(s: State, p: nat)
    requires p < |s.procs|
  {
    var x := s.procs[p];
    && (forall l: nat | Waits(x, l) :: l < |s.locks| && (s.locks[l].locked || Waking(s, l)))
    && (x.pc.SleepPt? || x.pc.SleepRel? ==> x.pc.l < |s.locks| && s.locks[x.pc.l].locked)
  }

  ghost predicate Wakes(s: State) {
    forall p | 0 <= p < |s.procs| :: WakeOk(s, p)
  }

  /** Everything about sleeplocks. */
  ghost predicate Locked(s: State) {
    Spins(s) && Holds(s) && Wakes(s)
  }

  lemma LockedInit(s: State)
    requires Init(s)
    ensures Locked(s)
  {
  }

  // ---- Steps outside acquiresleep and releasesleep ------------------------------------------

  /** Process `q` does not move in or out of the code of sleeplocks. */
  ghost predicate NeutralAt(x: Proc, y: Proc) {
    && y.held == x.held && (SpinOf(x.pc).Some? || SpinOf(y.pc).Some? || y.pc.SleepGo? ==> y.pc == x.pc)
    && (x.held != {} ==> y.pid == x.pid && (Alive(x.state) ==> Alive(y.state)))
    && (forall l | Waits(y, l) :: Waits(x, l))
    && (Exiting(y.pc) ==> Exiting(x.pc) || y.held == {})
    && (forall l | Unlocking(y.pc, l) :: l in y.held || Unlocking(x.pc, l))
  }

  ghost predicate Neutral(s: State, t: State) {
    t.locks == s.locks && |t.procs| == |s.procs| && forall q | 0 <= q < |s.procs| :: NeutralAt(s.procs[q], t.procs[q])
  }

  lemma LockedNeutral(s: State, t: State)
    requires Locked(s) && Neutral(s, t)
    ensures Locked(t)
  {
    forall l | 0 <= l < |t.locks| ensures SpinOk(t, l) && LockOk(t, l) {
      assert SpinOk(s, l) && LockOk(s, l);
    }
    forall p | 0 <= p < |t.procs| ensures SpinsOk(t, p) && HoldOk(t, p) && WakeOk(t, p) {
      assert SpinsOk(s, p) && HoldOk(s, p) && WakeOk(s, p);
      assert NeutralAt(s.procs[p], t.procs[p]);
      forall l: nat | Waits(t.procs[p], l) ensures l < |t.locks| && (t.locks[l].locked || Waking(t, l)) {
        assert Waits(s.procs[p], l) && SpinOk(s, l);
        if Waking(s, l) {
          assert NeutralAt(s.procs[s.locks[l].spin.value], t.procs[s.locks[l].spin.value]);
        }
      }
    }
  }

  // ---- Steps inside -------------------------------------------------------------------------

  /** Process `p` moves on in the code of lock `l`, whose spinlock nobody else has; only they change. */
  ghost predicate Moves(s: State, t: State, p: nat, l: nat) {
    && p < |s.procs| == |t.procs| && l < |s.locks| == |t.locks|
    && t.procs == s.procs[p := t.procs[p]] && t.locks == s.locks[l := t.locks[l]]
    && SpinOf(s.procs[p].pc) in {None, Some(l)} && SpinOf(t.procs[p].pc) in {None, Some(l)}
    && s.locks[l].spin == (if SpinOf(s.procs[p].pc) == Some(l) then Some(p) else None)
    && t.locks[l].spin == (if SpinOf(t.procs[p].pc) == Some(l) then Some(p) else None)
    && t.procs[p].pid == s.procs[p].pid && t.procs[p].state == s.procs[p].state == Running
    && !Exiting(t.procs[p].pc)
  }

  /** The lock stays as it is, or `p` locks it, or `p` clears it. */
  ghost predicate HoldMoves(s: State, t: State, p: nat, l: nat)
    requires Moves(s, t, p, l)
  {
    var x, y, a, b := s.procs[p], t.procs[p], s.locks[l], t.locks[l];
    && (forall k: nat | Unlocking(y.pc, k) :: k == l && l in y.held)
    && (|| (y.held == x.held && b.locked == a.locked && b.owner == a.owner && b.pid == a.pid)
        || (!a.locked && b.locked && b.owner == p && b.pid == x.pid && y.held == x.held + {l})
        || (a.locked && !b.locked && l in x.held && y.held == x.held - {l}))
  }

  ghost predicate WakeMoves(s: State, t: State, p: nat, l: nat)
    requires Moves(s, t, p, l)
  {
    var y, b := t.procs[p], t.locks[l];
    && (b.locked || Waking(t, l) || forall q | 0 <= q < |s.procs| && q != p :: !Waits(s.procs[q], l))
    && (forall k: nat | Waits(y, k) :: k == l && b.locked) && (y.pc.SleepPt? || y.pc.SleepRel? ==>
        y.pc.l == l && b.locked)
  }

  lemma SpinsMoves(s: State, t: State, p: nat, l: nat)
    requires Spins(s) && Moves(s, t, p, l)
    ensures Spins(t)
  {
    forall k | 0 <= k < |t.locks| ensures SpinOk(t, k) {
      assert SpinOk(s, k);
    }
    forall q | 0 <= q < |t.procs| ensures SpinsOk(t, q) {
      assert SpinsOk(s, q);
    }
  }

  lemma HoldsMoves(s: State, t: State, p: nat, l: nat)
    requires Holds(s) && Moves(s, t, p, l) && HoldMoves(s, t, p, l)
    ensures Holds(t)
  {
    forall k | 0 <= k < |t.locks| ensures LockOk(t, k) {
      assert LockOk(s, k);
    }
    assert HoldOk(s, p);
    forall q | 0 <= q < |t.procs| ensures HoldOk(t, q) {
      assert HoldOk(s, q);
    }
  }

  lemma WakesMoves(s: State, t: State, p: nat, l: nat)
    requires Spins(s) && Wakes(s) && Moves(s, t, p, l) && WakeMoves(s, t, p, l)
    ensures Wakes(t)
  {
    forall q | 0 <= q < |t.procs| ensures WakeOk(t, q) {
      assert WakeOk(s, q) && SpinsOk(s, q);
      forall k: nat | Waits(t.procs[q], k) ensures k < |t.locks| && (t.locks[k].locked || Waking(t, k)) {
        if q != p {
          assert Waits(s.procs[q], k) && k < |s.locks|;
          if k != l && Waking(s, k) {
            assert SpinOk(s, k);
          }
        }
      }
    }
  }

  lemma LockedMoves(s: State, t: State, p: nat, l: nat)
    requires Locked(s) && Moves(s, t, p, l) && HoldMoves(s, t, p, l) && WakeMoves(s, t, p, l)
    ensures Locked(t)
  {
    SpinsMoves(s, t, p, l);
    HoldsMoves(s, t, p, l);
    WakesMoves(s, t, p, l);
  }

  /** Nobody waits for a lock that is free and whose sleepers are woken. */
  lemma NobodyWaits(s: State, l: nat)
    requires Wakes(s) && l < |s.locks| && !s.locks[l].locked && !Waking(s, l)
    ensures forall q | 0 <= q < |s.procs| :: !Waits(s.procs[q], l)
  {
    forall q | 0 <= q < |s.procs| ensures !Waits(s.procs[q], l) {
      assert WakeOk(s, q);
    }
  }

  lemma LockedAcquire(s: State, p: nat)
    requires Placed(s) && Locked(s) && OnCpu(s, p) && CanGo(s, p)
    requires var pc := s.procs[p].pc; pc.LockSpin? || pc.LockTest? || pc.SleepPt? || pc.SleepRel?
    ensures Locked(GoLock(s, p))
  {
    var t, l := GoLock(s, p), s.procs[p].pc.l;
    assert ProcOk(s, p) && SpinsOk(s, p) && HoldOk(s, p) && WakeOk(s, p) && LockOk(s, l);
    assert Moves(s, t, p, l);
    if !s.locks[l].locked {
      NobodyWaits(s, l);
    }
    LockedMoves(s, t, p, l);
  }

  lemma LockedClear(s: State, p: nat)
    requires Placed(s) && Locked(s) && OnCpu(s, p) && CanGo(s, p)
      && (s.procs[p].pc.UnlockSpin? || s.procs[p].pc.UnlockClear?)
    ensures Locked(GoLock(s, p))
  {
    var t, l := GoLock(s, p), s.procs[p].pc.l;
    assert ProcOk(s, p) && SpinsOk(s, p) && HoldOk(s, p) && LockOk(s, l);
    assert Unlocking(s.procs[p].pc, l) && Moves(s, t, p, l);
    LockedMoves(s, t, p, l);
  }

  lemma LockedRelease(s: State, p: nat)
    requires Placed(s) && Locked(s) && OnCpu(s, p) && CanGo(s, p)
    requires var pc := s.procs[p].pc; pc.UnlockWake? || pc.UnlockPt? || pc.UnlockDone?
    ensures Locked(GoLock(s, p))
  {
    var t, l := GoLock(s, p), s.procs[p].pc.l;
    assert ProcOk(s, p) && SpinsOk(s, p) && HoldOk(s, p) && LockOk(s, l);
    assert Moves(s, t, p, l);
    if !s.locks[l].locked && !Waking(s, l) {
      NobodyWaits(s, l);
    }
    LockedMoves(s, t, p, l);
  }

  /** Two threads that have ptable.lock on a CPU are one. */
  lemma OnePt(s: State, p: nat, q: nat)
    requires Placed(s) && OnCpu(s, p) && OnCpu(s, q) && PtHeld(s.procs[p].pc) && PtHeld(s.procs[q].pc)
    ensures p == q
  {
    assert ProcOk(s, p) && ProcOk(s, q);
  }

  lemma LockedWaking(s: State, p: nat)
    requires Placed(s) && Locked(s) && OnCpu(s, p) && CanGo(s, p) && s.procs[p].pc.UnlockWaking?
    ensures Locked(GoLock(s, p))
  {
    var t, l := GoLock(s, p), s.procs[p].pc.l;
    assert ProcOk(s, p);
    var s' := s.(procs := Wakeup(s.procs, LockChan(l)));
    LockedNeutral(s, s');
    assert SpinsOk(s', p) && HoldOk(s', p) && Moves(s', t, p, l);
    forall q | 0 <= q < |s.procs| && q != p ensures !Waits(s'.procs[q], l) {
      assert ProcOk(s, q);
    }
    LockedMoves(s', t, p, l);
  }

  lemma LockedSleep(s: State, p: nat)
    requires Placed(s) && Locked(s) && OnCpu(s, p) && CanGo(s, p) && (s.procs[p].pc.SleepGo? || s.procs[p].pc.Slept?)
    ensures Locked(GoLock(s, p))
  {
    assert ProcOk(s, p) && HoldOk(s, p);
    LockedNeutral(s, GoLock(s, p));
  }

  lemma LockedLock(s: State, p: nat)
    requires Placed(s) && Locked(s) && OnCpu(s, p) && CanGo(s, p) && InLock(s.procs[p].pc)
    ensures Locked(GoLock(s, p))
  {
    var pc := s.procs[p].pc;
    if pc.LockSpin? || pc.LockTest? || pc.SleepPt? || pc.SleepRel? {
      LockedAcquire(s, p);
    } else if pc.UnlockSpin? || pc.UnlockClear? {
      LockedClear(s, p);
    } else if pc.UnlockWake? || pc.UnlockPt? || pc.UnlockDone? {
      LockedRelease(s, p);
    } else if pc.UnlockWaking? {
      LockedWaking(s, p);
    } else {
      LockedSleep(s, p);
    }
  }

  // ---- The rest -----------------------------------------------------------------------------

  lemma NeutralScan(s: State, p: nat, q: nat)
    requires Placed(s) && Locked(s) && OnCpu(s, p) && CanGo(s, p) && q < |s.procs| && s.procs[p].pc.WaitScan?
    ensures NeutralAt(s.procs[q], GoWait(s, p).procs[q])
  {
    var d, x, y := FirstDeadChild(s.procs, p, 0), s.procs[q], GoWait(s, p).procs[q];
    assert HoldOk(s, q) && ProcOk(s, p);
    if q == p {
      assert y == x.(pc := y.pc, state := y.state, chan := y.chan, cpu := y.cpu)
        && (y.pc == LeavePt(User) || y.pc == WaitSlept);
    } else if q == d {
      assert ProcOk(s, q) && y == Blank() && x.held == {};
    } else {
      assert y == x;
    }
  }

  lemma NeutralWait(s: State, p: nat, q: nat)
    requires Placed(s) && Locked(s) && OnCpu(s, p) && CanGo(s, p) && q < |s.procs|
      && (s.procs[p].pc.WaitAcq? || s.procs[p].pc.WaitSlept?)
    ensures NeutralAt(s.procs[q], GoWait(s, p).procs[q])
  {
    assert ProcOk(s, q) && HoldOk(s, q);
  }

  lemma LockedWait(s: State, p: nat)
    requires Placed(s) && Locked(s) && OnCpu(s, p) && CanGo(s, p) && InWait(s.procs[p].pc)
    ensures Locked(GoWait(s, p))
  {
    forall q | 0 <= q < |s.procs| ensures NeutralAt(s.procs[q], GoWait(s, p).procs[q]) {
      if s.procs[p].pc.WaitScan? {
        NeutralScan(s, p, q);
      } else {
        NeutralWait(s, p, q);
      }
    }
    LockedNeutral(s, GoWait(s, p));
  }

  lemma LockedYield(s: State, p: nat)
    requires Placed(s) && Locked(s) && OnCpu(s, p) && CanGo(s, p) && InYield(s.procs[p].pc)
    ensures Locked(GoYield(s, p))
  {
    forall q | 0 <= q < |s.procs| ensures NeutralAt(s.procs[q], GoYield(s, p).procs[q]) {
      assert ProcOk(s, q) && HoldOk(s, q);
    }
    LockedNeutral(s, GoYield(s, p));
  }

  lemma NeutralExit(s: State, p: nat, q: nat)
    requires Placed(s) && Locked(s) && OnCpu(s, p) && CanGo(s, p) && q < |s.procs| && InExit(s.procs[p].pc)
    ensures NeutralAt(s.procs[q], GoExit(s, p).procs[q])
  {
    var x, y := s.procs[q], GoExit(s, p).procs[q];
    assert HoldOk(s, q) && ProcOk(s, q);
    if s.procs[p].pc.ExitWake? {
      AbandonedAt(s.procs, p, s.procs[p].parent.value, q);
      assert y == x.(state := y.state, parent := y.parent, pc := y.pc) && (q != p ==> y.pc == x.pc);
    } else if q != p {
      assert y == x;
    }
  }

  lemma LockedExit(s: State, p: nat)
    requires Placed(s) && Locked(s) && OnCpu(s, p) && CanGo(s, p) && InExit(s.procs[p].pc)
    ensures Locked(GoExit(s, p))
  {
    forall q | 0 <= q < |s.procs| ensures NeutralAt(s.procs[q], GoExit(s, p).procs[q]) {
      NeutralExit(s, p, q);
    }
    LockedNeutral(s, GoExit(s, p));
  }

  lemma NeutralPick(s: State, p: nat, q: nat)
    requires Placed(s) && Locked(s) && OnCpu(s, p) && CanGo(s, p) && q < |s.procs| && s.procs[p].pc.ForkPick?
    ensures NeutralAt(s.procs[q], GoFork(s, p).procs[q])
  {
    var np, x, y := FirstUnused(s.procs, 0), s.procs[q], GoFork(s, p).procs[q];
    assert HoldOk(s, q) && ProcOk(s, q);
    if q == p {
      assert y == x.(pc := y.pc) && (y.pc == LeavePt(User) || y.pc == LeavePt(ForkFill(np)));
    } else if q == np {
      assert x.held == {} && x.pc == User;
    } else {
      assert y == x;
    }
  }

  lemma NeutralFill(s: State, p: nat, q: nat)
    requires Placed(s) && Locked(s) && OnCpu(s, p) && CanGo(s, p) && q < |s.procs|
      && (s.procs[p].pc.ForkFill? || s.procs[p].pc.ForkReady?)
    ensures NeutralAt(s.procs[q], GoFork(s, p).procs[q])
  {
    assert ProcOk(s, q) && HoldOk(s, q);
  }

  lemma NeutralForkLock(s: State, p: nat, q: nat)
    requires Placed(s) && Locked(s) && OnCpu(s, p) && CanGo(s, p) && q < |s.procs|
      && (s.procs[p].pc.ForkAcq? || s.procs[p].pc.ForkLock?)
    ensures NeutralAt(s.procs[q], GoFork(s, p).procs[q])
  {
    assert ProcOk(s, q) && HoldOk(s, q);
  }

  lemma LockedFork(s: State, p: nat)
    requires Placed(s) && Locked(s) && OnCpu(s, p) && CanGo(s, p) && InFork(s.procs[p].pc)
    ensures Locked(GoFork(s, p))
  {
    forall q | 0 <= q < |s.procs| ensures NeutralAt(s.procs[q], GoFork(s, p).procs[q]) {
      if s.procs[p].pc.ForkPick? {
        NeutralPick(s, p, q);
      } else if (s.procs[p].pc.ForkFill? || s.procs[p].pc.ForkReady?) {
        NeutralFill(s, p, q);
      } else {
        NeutralForkLock(s, p, q);
      }
    }
    LockedNeutral(s, GoFork(s, p));
  }

  lemma LockedKill(s: State, p: nat)
    requires Placed(s) && Locked(s) && OnCpu(s, p) && CanGo(s, p) && InKill(s.procs[p].pc)
    ensures Locked(GoKill(s, p))
  {
    forall q | 0 <= q < |s.procs| ensures NeutralAt(s.procs[q], GoKill(s, p).procs[q]) {
      assert ProcOk(s, q) && HoldOk(s, q);
    }
    LockedNeutral(s, GoKill(s, p));
  }

  lemma LockedCall(s: State, p: nat, pc: Pc)
    requires Placed(s) && Locked(s) && Enabled(s, Call(p, pc))
    ensures Locked(At(s, p, pc))
  {
    forall q | 0 <= q < |s.procs| ensures NeutralAt(s.procs[q], At(s, p, pc).procs[q]) {
      assert ProcOk(s, q) && HoldOk(s, q);
    }
    LockedNeutral(s, At(s, p, pc));
  }

  lemma LockedTick(s: State, p: nat)
    requires Placed(s) && Locked(s) && Enabled(s, Tick(p))
    ensures Locked(At(s, p, YieldAcq(s.procs[p].pc)))
  {
    forall q | 0 <= q < |s.procs| ensures NeutralAt(s.procs[q], At(s, p, YieldAcq(s.procs[p].pc)).procs[q]) {
      assert ProcOk(s, q) && HoldOk(s, q);
    }
    LockedNeutral(s, At(s, p, YieldAcq(s.procs[p].pc)));
  }

  lemma LockedNoMemory(s: State, p: nat)
    requires Placed(s) && Locked(s) && Enabled(s, NoMemory(p)) && s.procs[s.procs[p].pc.np].state == Embryo
    ensures Locked(Exec(s, NoMemory(p)))
  {
    forall q | 0 <= q < |s.procs| ensures NeutralAt(s.procs[q], Exec(s, NoMemory(p)).procs[q]) {
      assert ProcOk(s, q) && HoldOk(s, q);
    }
    LockedNeutral(s, Exec(s, NoMemory(p)));
  }

  lemma LockedSched(s: State, c: nat)
    requires Placed(s) && Locked(s) && Enabled(s, Sched(c))
    ensures Locked(ExecSched(s, c))
  {
    forall q | 0 <= q < |s.procs| ensures NeutralAt(s.procs[q], ExecSched(s, c).procs[q]) {
      assert ProcOk(s, q) && HoldOk(s, q);
    }
    LockedNeutral(s, ExecSched(s, c));
  }
}
