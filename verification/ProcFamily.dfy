/** Parents, zombies and pids: what fork, exit, wait and kill keep. */
module ProcFamily {
  import opened ProcTable
  import opened ProcPlaced
  import opened ProcLocks
  import opened Results

  // ---- Slots in the hands of fork -----------------------------------------------------------

  predicate ForkOk(s: State, p: nat)
    requires p < |s.procs|
  {
    ForkOf(s.procs[p].pc).Some? ==>
      var np := ForkOf(s.procs[p].pc).value;
      && np < |s.procs| && np != p && s.procs[np].state == Embryo
      && s.procs[np].parent == if Base(s.procs[p].pc).ForkFill? then None else Some(p)
  }

  /** A slot that fork has taken is an embryo that no one else has. */
  ghost predicate Forks(s: State) {
    && (forall p | 0 <= p < |s.procs| :: ForkOk(s, p))
    && (forall p, q | 0 <= p < q < |s.procs| && ForkOf(s.procs[p].pc).Some? ::
        ForkOf(s.procs[p].pc) != ForkOf(s.procs[q].pc))
  }

  // ---- Parents and children -----------------------------------------------------------------

  /** The parent can still wait; only init has none. */
  predicate ParentOk(s: State, q: nat)
    requires q < |s.procs|
  {
    var x := s.procs[q];
    && (x.parent.Some? ==> x.parent.value < |s.procs| && x.parent.value != q && Alive(s.procs[x.parent.value].state))
    && (x.state == Unused ==> x.parent == None) && (x.state == Zombie ==> x.parent.Some?)
    && (Alive(x.state) && q != INIT ==> x.parent.Some?)
    && (q == INIT ==> Alive(x.state) && x.parent == None && !Exiting(x.pc))
  }

  /** A process asleep in wait has no exited child. */
  ghost predicate WaitOk(s: State, p: nat) {
    p < |s.procs| && SleepsOn(s.procs[p], ProcChan(p)) ==> forall q | 0 <= q < |s.procs| :: !DeadChild(s.procs[q], p)
  }

  /** A process about to become a zombie has no children left, and its parent is awake. */
  ghost predicate ExitOk(s: State, p: nat)
    requires p < |s.procs|
  {
    s.procs[p].pc.ExitGo? ==>
      && (forall q | 0 <= q < |s.procs| :: !HasParent(s.procs[q], p))
      && (s.procs[p].parent.Some? && s.procs[p].parent.value < |s.procs| ==>
            !SleepsOn(s.procs[s.procs[p].parent.value], ProcChan(s.procs[p].parent.value)))
  }

  ghost predicate Family(s: State) {
    |s.procs| > INIT && forall p | 0 <= p < |s.procs| :: ParentOk(s, p) && WaitOk(s, p) && ExitOk(s, p)
  }

  // ---- Pids ---------------------------------------------------------------------------------

  predicate PidOk(s: State, p: nat)
    requires p < |s.procs|
  {
    var x := s.procs[p];
    x.state != Unused ==> 0 < x.pid < s.nextpid && (x.pid in s.exits <==> x.state == Zombie)
                          && (x.state == Zombie ==> x.pid !in s.reaps)
  }

  predicate ZombieIs(s: State, p: nat, pid: nat) {
    p < |s.procs| && s.procs[p].state == Zombie && s.procs[p].pid == pid
  }

  predicate Once(pids: seq<nat>) {
    forall i, j | 0 <= i < j < |pids| :: pids[i] != pids[j]
  }

  /** Pids are unique; every pid exits once at most, and is then either a zombie's or was returned by one wait. */
  ghost predicate Pids(s: State) {
    && (forall p | 0 <= p < |s.procs| :: PidOk(s, p))
    && (forall p, q | 0 <= p < q < |s.procs| && s.procs[p].state != Unused && s.procs[q].state != Unused ::
        s.procs[p].pid != s.procs[q].pid)
    && s.nextpid > 0 && Once(s.exits) && Once(s.reaps) && (forall x | x in s.reaps :: x in s.exits)
      && (forall x | x in s.exits :: x < s.nextpid)
    && (forall x | x in s.exits && x !in s.reaps :: exists p: nat :: ZombieIs(s, p, x))
  }

  ghost predicate Kin(s: State) {
    Forks(s) && Family(s) && Pids(s)
  }

  lemma KinInit(s: State)
    requires Init(s)
    ensures Kin(s)
  {
  }

  // ---- Steps that change nobody's state, pid or parent --------------------------------------

  lemma ForksQuiet(s: State, t: State, p: nat)
    requires Forks(s) && OnCpu(s, p) && Quiet(s, t, p)
    ensures Forks(t)
  {
    forall q | 0 <= q < |t.procs| ensures ForkOk(t, q) {
      assert ForkOk(s, q);
    }
  }

  lemma FamilyQuiet(s: State, t: State, p: nat)
    requires Placed(s) && Family(s) && OnCpu(s, p) && Quiet(s, t, p)
    ensures Family(t)
  {
    assert ProcOk(s, p);
    forall q | 0 <= q < |t.procs| ensures ParentOk(t, q) && WaitOk(t, q) && ExitOk(t, q) {
      assert ParentOk(s, q) && WaitOk(s, q) && ExitOk(s, q);
    }
  }

  lemma PidsQuiet(s: State, t: State, p: nat)
    requires Pids(s) && OnCpu(s, p) && Quiet(s, t, p)
    ensures Pids(t)
  {
    forall q | 0 <= q < |t.procs| ensures PidOk(t, q) {
      assert PidOk(s, q);
    }
    forall x | x in t.exits && x !in t.reaps ensures exists q: nat :: ZombieIs(t, q, x) {
      var q: nat :| ZombieIs(s, q, x);
      assert ZombieIs(t, q, x);
    }
  }

  lemma KinQuiet(s: State, t: State, p: nat)
    requires Placed(s) && Kin(s) && OnCpu(s, p) && Quiet(s, t, p)
    ensures Kin(t)
  {
    ForksQuiet(s, t, p);
    FamilyQuiet(s, t, p);
    PidsQuiet(s, t, p);
  }

  // ---- Steps that only put to sleep, wake, run or mark --------------------------------------

  predicate CalmAt(x: Proc, y: Proc) {
    && y.pid == x.pid && y.parent == x.parent && (y.state == x.state || (Alive(x.state) && Alive(y.state)))
    && ForkOf(y.pc) == ForkOf(x.pc) && (Base(y.pc).ForkFill? <==> Base(x.pc).ForkFill?)
    && (Exiting(y.pc) ==> Exiting(x.pc)) && (y.pc.ExitGo? ==> x.pc.ExitGo?)
  }

  /** Nobody begins to sleep in wait. */
  predicate NoNewWait(x: Proc, y: Proc, q: nat) {
    SleepsOn(y, ProcChan(q)) ==> SleepsOn(x, ProcChan(q))
  }

  ghost predicate Calm(s: State, t: State) {
    && |t.procs| == |s.procs| && t.nextpid == s.nextpid && t.exits == s.exits && t.reaps == s.reaps
    && (forall q | 0 <= q < |s.procs| :: CalmAt(s.procs[q], t.procs[q]))
  }

  lemma ForksCalm(s: State, t: State)
    requires Forks(s) && Calm(s, t)
    ensures Forks(t)
  {
    forall q | 0 <= q < |t.procs| ensures ForkOk(t, q) {
      assert ForkOk(s, q) && CalmAt(s.procs[q], t.procs[q]);
      if ForkOf(s.procs[q].pc).Some? {
        assert CalmAt(s.procs[ForkOf(s.procs[q].pc).value], t.procs[ForkOf(s.procs[q].pc).value]);
      }
    }
    forall p, q | 0 <= p < q < |t.procs| && ForkOf(t.procs[p].pc).Some?
      ensures ForkOf(t.procs[p].pc) != ForkOf(t.procs[q].pc)
    {
      assert CalmAt(s.procs[p], t.procs[p]) && CalmAt(s.procs[q], t.procs[q]);
    }
  }

  /** The same pid in the same state, or alive before and after. */
  predicate PidCalm(x: Proc, y: Proc) {
    y.pid == x.pid && (y.state == x.state || (Alive(x.state) && Alive(y.state)))
  }

  lemma PidsCalm(s: State, t: State)
    requires Pids(s) && |t.procs| == |s.procs| && t.nextpid == s.nextpid && t.exits == s.exits && t.reaps == s.reaps
    requires forall q | 0 <= q < |s.procs| :: PidCalm(s.procs[q], t.procs[q])
    ensures Pids(t)
  {
    forall q | 0 <= q < |t.procs| ensures PidOk(t, q) {
      assert PidOk(s, q) && PidCalm(s.procs[q], t.procs[q]);
    }
    forall p, q | 0 <= p < q < |t.procs| && t.procs[p].state != Unused && t.procs[q].state != Unused
      ensures t.procs[p].pid != t.procs[q].pid
    {
      assert PidCalm(s.procs[p], t.procs[p]) && PidCalm(s.procs[q], t.procs[q]);
    }
    forall x | x in t.exits && x !in t.reaps ensures exists q: nat :: ZombieIs(t, q, x) {
      var q: nat :| ZombieIs(s, q, x);
      assert PidCalm(s.procs[q], t.procs[q]) && ZombieIs(t, q, x);
    }
  }

  lemma ParentsCalm(s: State, t: State)
    requires Family(s) && Calm(s, t)
    ensures forall q | 0 <= q < |t.procs| :: ParentOk(t, q)
  {
    forall q | 0 <= q < |t.procs| ensures ParentOk(t, q) {
      assert ParentOk(s, q) && CalmAt(s.procs[q], t.procs[q]);
      if s.procs[q].parent.Some? {
        assert CalmAt(s.procs[s.procs[q].parent.value], t.procs[s.procs[q].parent.value]);
      }
    }
  }

  /** `p` may begin to sleep in wait if it has no exited child and nobody is about to become one. */
  lemma KinCalm(s: State, t: State, p: nat)
    requires Kin(s) && Calm(s, t)
    requires forall q | 0 <= q < |s.procs| && q != p :: NoNewWait(s.procs[q], t.procs[q], q)
    requires p < |s.procs|
      && (NoNewWait(s.procs[p], t.procs[p], p)
      || (forall q | 0 <= q < |s.procs| :: !DeadChild(s.procs[q], p) && !t.procs[q].pc.ExitGo?))
    ensures Kin(t)
  {
    ForksCalm(s, t);
    forall q | 0 <= q < |s.procs| ensures PidCalm(s.procs[q], t.procs[q]) {
      assert CalmAt(s.procs[q], t.procs[q]);
    }
    PidsCalm(s, t);
    ParentsCalm(s, t);
    forall q | 0 <= q < |t.procs| ensures WaitOk(t, q) && ExitOk(t, q) {
      assert ParentOk(s, q) && WaitOk(s, q) && ExitOk(s, q) && CalmAt(s.procs[q], t.procs[q]);
      forall r | 0 <= r < |t.procs| ensures HasParent(t.procs[r], q) <==> HasParent(s.procs[r], q) {
        assert CalmAt(s.procs[r], t.procs[r]);
      }
      forall r | 0 <= r < |t.procs| ensures DeadChild(t.procs[r], q) <==> DeadChild(s.procs[r], q) {
        assert CalmAt(s.procs[r], t.procs[r]);
      }
    }
  }

  lemma KinLock(s: State, p: nat)
    requires Placed(s) && Kin(s) && OnCpu(s, p) && CanGo(s, p)
      && (s.procs[p].pc.SleepGo? || s.procs[p].pc.UnlockWaking?)
    ensures Kin(GoLock(s, p))
  {
    assert ProcOk(s, p);
    KinCalm(s, GoLock(s, p), p);
  }

  lemma KinYield(s: State, p: nat)
    requires Placed(s) && Kin(s) && OnCpu(s, p) && CanGo(s, p) && s.procs[p].pc.YieldGo?
    ensures Kin(GoYield(s, p))
  {
    assert ProcOk(s, p);
    KinCalm(s, GoYield(s, p), p);
  }

  lemma KinKill(s: State, p: nat)
    requires Placed(s) && Kin(s) && OnCpu(s, p) && CanGo(s, p) && s.procs[p].pc.KillScan?
    ensures Kin(GoKill(s, p))
  {
    assert ProcOk(s, p);
    KinCalm(s, GoKill(s, p), p);
  }

  lemma KinSched(s: State, c: nat)
    requires Placed(s) && Kin(s) && Enabled(s, Sched(c))
    ensures Kin(ExecSched(s, c))
  {
    KinCalm(s, ExecSched(s, c), INIT);
  }

  /** wait goes to sleep, or returns -1. */
  lemma KinNoChild(s: State, p: nat)
    requires Placed(s) && Kin(s) && OnCpu(s, p) && CanGo(s, p) && s.procs[p].pc.WaitScan?
      && FirstDeadChild(s.procs, p, 0) == |s.procs|
    ensures Kin(GoWait(s, p))
  {
    assert ProcOk(s, p);
    var t := GoWait(s, p);
    forall q | 0 <= q < |s.procs| ensures !DeadChild(s.procs[q], p) && !t.procs[q].pc.ExitGo? {
      assert ProcOk(s, q);
    }
    KinCalm(s, t, p);
  }

  // ---- fork ---------------------------------------------------------------------------------

  /** `p` is in fork with slot `np`; only they change, and `np` is not alive before. */
  predicate Forking(s: State, t: State, p: nat, np: nat) {
    && p < |s.procs| == |t.procs| && np < |s.procs| && np != p
    && t.procs == s.procs[np := t.procs[np]][p := s.procs[p].(pc := t.procs[p].pc)] && t.exits == s.exits
    && t.reaps == s.reaps
    && s.procs[p].state == Running && !s.procs[p].pc.ExitGo? && !Exiting(t.procs[p].pc) && !Exiting(t.procs[np].pc)
    && ForkOf(t.procs[np].pc) == None
    && s.procs[np].state in {Unused, Embryo} && t.procs[np].state in {Unused, Embryo, Runnable}
    && t.procs[np].parent in {None, Some(p)} && (t.procs[np].state == Unused ==> t.procs[np].parent == None)
    && (t.procs[np].state == Runnable ==> t.procs[np].parent == Some(p))
    && ForkOf(s.procs[p].pc) in {None, Some(np)} && ForkOf(t.procs[p].pc) in {None, Some(np)}
    && (ForkOf(t.procs[p].pc).Some? ==>
          t.procs[np].state == Embryo && t.procs[np].parent == if Base(t.procs[p].pc).ForkFill? then None else Some(p))
  }

  lemma ForksForking(s: State, t: State, p: nat, np: nat)
    requires Forks(s) && Forking(s, t, p, np) && forall q | 0 <= q < |s.procs| && q != p ::
              ForkOf(s.procs[q].pc) != Some(np)
    ensures Forks(t)
  {
    forall q | 0 <= q < |t.procs| ensures ForkOk(t, q) {
      assert ForkOk(s, q);
    }
  }

  lemma FamilyForking(s: State, t: State, p: nat, np: nat)
    requires Family(s) && Forking(s, t, p, np)
    ensures Family(t)
  {
    assert ParentOk(s, INIT) && ParentOk(s, p);
    forall q | 0 <= q < |t.procs| ensures ParentOk(t, q) && WaitOk(t, q) && ExitOk(t, q) {
      assert ParentOk(s, q) && WaitOk(s, q) && ExitOk(s, q);
    }
  }

  lemma PidsForking(s: State, t: State, p: nat, np: nat)
    requires Pids(s) && Forking(s, t, p, np) && t.nextpid >= s.nextpid
    requires t.procs[np].state != Unused ==> t.procs[np].pid < t.nextpid
    requires t.procs[np].state != Unused ==> (t.procs[np].pid == s.procs[np].pid && s.procs[np].state == Embryo)
                                             || t.procs[np].pid >= s.nextpid
    ensures Pids(t)
  {
    assert PidOk(s, np);
    forall q | 0 <= q < |t.procs| ensures PidOk(t, q) {
      assert PidOk(s, q);
    }
    forall i, j | 0 <= i < j < |t.procs| && t.procs[i].state != Unused && t.procs[j].state != Unused
      ensures t.procs[i].pid != t.procs[j].pid
    {
      assert PidOk(s, i) && PidOk(s, j);
    }
    forall x | x in t.exits && x !in t.reaps ensures exists q: nat :: ZombieIs(t, q, x) {
      var q: nat :| ZombieIs(s, q, x);
      assert ZombieIs(t, q, x);
    }
  }

  lemma KinPick(s: State, p: nat)
    requires Placed(s) && Kin(s) && OnCpu(s, p) && CanGo(s, p) && s.procs[p].pc.ForkPick?
    ensures Kin(GoFork(s, p))
  {
    var t, np := GoFork(s, p), FirstUnused(s.procs, 0);
    assert ProcOk(s, p);
    if np == |s.procs| {
      KinCalm(s, t, p);
    } else {
      assert ParentOk(s, np) && Forking(s, t, p, np);
      forall q | 0 <= q < |s.procs| && q != p ensures ForkOf(s.procs[q].pc) != Some(np) {
        assert ForkOk(s, q);
      }
      ForksForking(s, t, p, np);
      FamilyForking(s, t, p, np);
      PidsForking(s, t, p, np);
    }
  }

  lemma KinForking(s: State, t: State, p: nat, np: nat)
    requires Kin(s) && Forking(s, t, p, np) && ForkOf(s.procs[p].pc) == Some(np) && t.nextpid == s.nextpid
    requires s.procs[np].state == Embryo && t.procs[np].pid == s.procs[np].pid
    ensures Kin(t)
  {
    assert PidOk(s, np);
    ForksForking(s, t, p, np);
    FamilyForking(s, t, p, np);
    PidsForking(s, t, p, np);
  }

  lemma KinFork(s: State, p: nat)
    requires Placed(s) && Kin(s) && OnCpu(s, p) && CanGo(s, p) && (s.procs[p].pc.ForkFill? || s.procs[p].pc.ForkReady?)
    ensures Kin(GoFork(s, p))
  {
    assert ProcOk(s, p) && ForkOk(s, p) && ProcOk(s, s.procs[p].pc.np);
    KinForking(s, GoFork(s, p), p, s.procs[p].pc.np);
  }

  lemma KinNoMemory(s: State, p: nat)
    requires Placed(s) && Kin(s) && Enabled(s, NoMemory(p))
    ensures Kin(Exec(s, NoMemory(p)))
  {
    assert ProcOk(s, p) && ForkOk(s, p) && ProcOk(s, s.procs[p].pc.np);
    KinForking(s, Exec(s, NoMemory(p)), p, s.procs[p].pc.np);
  }

  // ---- exit and wait ------------------------------------------------------------------------

  /** No other thread is about to become a zombie while `p` has ptable.lock. */
  lemma AloneExiting(s: State, p: nat, q: nat)
    requires Placed(s) && OnCpu(s, p) && PtHeld(s.procs[p].pc) && q < |s.procs| && q != p
    ensures !s.procs[q].pc.ExitGo?
  {
    assert ProcOk(s, p) && ProcOk(s, q);
  }

  lemma ParentExitWake(s: State, p: nat, q: nat)
    requires Placed(s) && Family(s) && OnCpu(s, p) && CanGo(s, p) && s.procs[p].pc.ExitWake? && q < |s.procs|
    ensures ParentOk(GoExit(s, p), q)
  {
    var parent := s.procs[p].parent.value;
    assert ProcOk(s, p) && ParentOk(s, INIT) && ParentOk(s, p) && ParentOk(s, q);
    AbandonedAt(s.procs, p, parent, q);
    AbandonedAt(s.procs, p, parent, INIT);
    if s.procs[q].parent.Some? {
      AbandonedAt(s.procs, p, parent, s.procs[q].parent.value);
    }
  }

  lemma WaitExitWake(s: State, p: nat, q: nat)
    requires Placed(s) && Family(s) && OnCpu(s, p) && CanGo(s, p) && s.procs[p].pc.ExitWake? && q < |s.procs|
    ensures WaitOk(GoExit(s, p), q) && ExitOk(GoExit(s, p), q)
  {
    var t, parent := GoExit(s, p), s.procs[p].parent.value;
    assert ProcOk(s, p) && ParentOk(s, INIT) && ParentOk(s, p) && WaitOk(s, q);
    AbandonedAt(s.procs, p, parent, q);
    AbandonedAt(s.procs, p, parent, parent);
    forall r | 0 <= r < |t.procs| ensures
      && t.procs[r].parent == (if HasParent(s.procs[r], p) then Some(INIT) else s.procs[r].parent)
      && (t.procs[r].state == Zombie <==> s.procs[r].state == Zombie)
        && (DeadChild(s.procs[r], p) ==> !SleepsOn(t.procs[INIT], ProcChan(INIT)))
    {
      AbandonedAt(s.procs, p, parent, r);
      if DeadChild(s.procs[r], p) {
        AbandonedWakesInit(s.procs, p, parent, INIT, r);
      }
    }
    if q != p {
      AloneExiting(s, p, q);
    }
  }

  lemma KinExitWakeAt(s: State, p: nat, parent: nat, t: State, q: nat)
    requires Placed(s) && Kin(s) && OnCpu(s, p) && CanGo(s, p) && s.procs[p].pc.ExitWake?
      && s.procs[p].parent == Some(parent)
    requires t == GoExit(s, p) && q < |t.procs|
    ensures ParentOk(t, q) && WaitOk(t, q) && ExitOk(t, q) && ForkOk(t, q) && PidCalm(s.procs[q], t.procs[q])
  {
    assert ProcOk(s, p);
    ParentExitWake(s, p, q);
    WaitExitWake(s, p, q);
    AbandonedAt(s.procs, p, parent, q);
    assert ForkOk(s, q);
    if ForkOf(s.procs[q].pc).Some? {
      AbandonedAt(s.procs, p, parent, ForkOf(s.procs[q].pc).value);
    }
  }

  lemma KinExitWake(s: State, p: nat)
    requires Placed(s) && Kin(s) && OnCpu(s, p) && CanGo(s, p) && s.procs[p].pc.ExitWake?
    ensures Kin(GoExit(s, p))
  {
    var t, parent := GoExit(s, p), s.procs[p].parent.value;
    assert ProcOk(s, p);
    forall q | 0 <= q < |t.procs|
      ensures ParentOk(t, q) && WaitOk(t, q) && ExitOk(t, q) && ForkOk(t, q) && PidCalm(s.procs[q], t.procs[q])
    {
      KinExitWakeAt(s, p, parent, t, q);
    }
    PidsCalm(s, t);
    forall i, j | 0 <= i < j < |t.procs| && ForkOf(t.procs[i].pc).Some?
      ensures ForkOf(t.procs[i].pc) != ForkOf(t.procs[j].pc)
    {
      AbandonedAt(s.procs, p, parent, i);
      AbandonedAt(s.procs, p, parent, j);
    }
  }

  lemma FamilyExitGo(s: State, p: nat)
    requires Placed(s) && Family(s) && OnCpu(s, p) && CanGo(s, p) && s.procs[p].pc.ExitGo?
    ensures Family(GoExit(s, p))
  {
    var t := GoExit(s, p);
    assert ProcOk(s, p) && ParentOk(s, p) && ExitOk(s, p);
    forall q | 0 <= q < |t.procs| ensures ParentOk(t, q) && WaitOk(t, q) && ExitOk(t, q) {
      assert ParentOk(s, q) && WaitOk(s, q) && !HasParent(s.procs[q], p);
      if q != p {
        AloneExiting(s, p, q);
      }
    }
  }

  lemma PidsExitGo(s: State, p: nat)
    requires Placed(s) && Pids(s) && OnCpu(s, p) && CanGo(s, p) && s.procs[p].pc.ExitGo?
    ensures Pids(GoExit(s, p))
  {
    var t := GoExit(s, p);
    assert ProcOk(s, p) && PidOk(s, p);
    forall q | 0 <= q < |t.procs| ensures PidOk(t, q) {
      assert PidOk(s, q);
    }
    forall x | x in t.exits && x !in t.reaps ensures exists q: nat :: ZombieIs(t, q, x) {
      if x == s.procs[p].pid {
        assert ZombieIs(t, p, x);
      } else {
        var q: nat :| ZombieIs(s, q, x);
        assert ZombieIs(t, q, x);
      }
    }
  }

  lemma KinExitGo(s: State, p: nat)
    requires Placed(s) && Kin(s) && OnCpu(s, p) && CanGo(s, p) && s.procs[p].pc.ExitGo?
    ensures Kin(GoExit(s, p))
  {
    var t := GoExit(s, p);
    FamilyExitGo(s, p);
    PidsExitGo(s, p);
    assert ProcOk(s, p);
    forall q | 0 <= q < |t.procs| ensures ForkOk(t, q) {
      assert ForkOk(s, q);
    }
  }

  lemma FamilyReap(s: State, p: nat, d: nat)
    requires Placed(s) && Family(s) && OnCpu(s, p) && CanGo(s, p) && s.procs[p].pc.WaitScan?
      && d == FirstDeadChild(s.procs, p, 0) < |s.procs|
    ensures Family(GoWait(s, p))
  {
    var t := GoWait(s, p);
    assert ProcOk(s, p) && ParentOk(s, INIT);
    forall q | 0 <= q < |t.procs| ensures ParentOk(t, q) && WaitOk(t, q) && ExitOk(t, q) {
      assert ParentOk(s, q) && WaitOk(s, q) && ExitOk(s, q);
    }
  }

  lemma PidsReap(s: State, p: nat, d: nat)
    requires Placed(s) && Pids(s) && OnCpu(s, p) && CanGo(s, p) && s.procs[p].pc.WaitScan?
      && d == FirstDeadChild(s.procs, p, 0) < |s.procs|
    ensures Pids(GoWait(s, p))
  {
    var t := GoWait(s, p);
    assert ProcOk(s, p) && PidOk(s, d);
    forall q | 0 <= q < |t.procs| ensures PidOk(t, q) {
      assert PidOk(s, q);
    }
    forall x | x in t.exits && x !in t.reaps ensures exists q: nat :: ZombieIs(t, q, x) {
      var q: nat :| ZombieIs(s, q, x);
      assert ZombieIs(t, q, x);
    }
  }

  lemma KinReap(s: State, p: nat, d: nat)
    requires Placed(s) && Kin(s) && OnCpu(s, p) && CanGo(s, p) && s.procs[p].pc.WaitScan?
      && d == FirstDeadChild(s.procs, p, 0) < |s.procs|
    ensures Kin(GoWait(s, p))
  {
    var t := GoWait(s, p);
    FamilyReap(s, p, d);
    PidsReap(s, p, d);
    assert ProcOk(s, p) && ProcOk(s, d);
    forall q | 0 <= q < |t.procs| ensures ForkOk(t, q) {
      assert ForkOk(s, q);
    }
  }
}
