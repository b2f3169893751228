/**
 * The process table of proc.c with the sleeplocks of sleeplock.c, as steps of any number of processes and CPUs. A step
 * of a process is what its kernel thread does between two points where another thread could interfere; ptable.lock
 * and the spinlock in each sleeplock are taken and released by steps of their own.
 */
module ProcTable {
  import opened Results

  datatype ProcState = Unused | Embryo | Sleeping | Runnable | Running | Zombie

  /** What a process sleeps on: nothing, a sleeplock, or a process in wait. */
  datatype Chan = NoChan | LockChan(l: nat) | ProcChan(p: nat)

  /** Where a kernel thread is. The comments say which spinlocks it has there: `spin` is that of sleeplock `l`. */
  datatype Pc =
    | User                                  // anywhere outside the code modelled here
    | LockSpin(l: nat)                      // acquiresleep: about to take spin
    | LockTest(l: nat)                      // spin: tests locked
    | SleepPt(l: nat)                       // spin: in sleep, about to take ptable.lock
    | SleepRel(l: nat)                      // spin, ptable.lock: about to release spin
    | SleepGo(l: nat)                       // ptable.lock: about to sleep
    | Slept(l: nat)                         // ptable.lock: back from sched
    | UnlockSpin(l: nat)                    // releasesleep: about to take spin
    | UnlockClear(l: nat)                   // spin
    | UnlockWake(l: nat)                    // spin: in wakeup, about to take ptable.lock
    | UnlockWaking(l: nat)                  // spin, ptable.lock
    | UnlockPt(l: nat)                      // spin, ptable.lock: about to release ptable.lock
    | UnlockDone(l: nat)                    // spin: about to release it
    | WaitAcq                               // wait: about to take ptable.lock
    | WaitScan                              // ptable.lock: scans for children
    | WaitSlept                             // ptable.lock: back from sched
    | YieldAcq(k: Pc)                       // yield, called from k: about to take ptable.lock
    | YieldGo(k: Pc)                        // ptable.lock
    | LeavePt(k: Pc)                        // ptable.lock: about to release it and go on at k
    | ExitAcq                               // exit: about to take ptable.lock
    | ExitWake                              // ptable.lock: about to wake the parent and pass on the children
    | ExitGo                                // ptable.lock: about to become a zombie
    | Dead
    | ForkAcq                               // allocproc: about to take ptable.lock
    | ForkPick                              // ptable.lock: looks for an unused slot
    | ForkFill(np: nat)                     // has slot np, and no lock
    | ForkLock(np: nat)                     // about to take ptable.lock
    | ForkReady(np: nat)                    // ptable.lock: about to make np runnable
    | KillAcq(pid: nat)                     // kill: about to take ptable.lock
    | KillScan(pid: nat)                    // ptable.lock

  /** struct proc; `cpu` is where its thread runs, `held` are the sleeplocks it took and has not released. */
  datatype Proc = Proc(state: ProcState, pid: nat, parent: Option<nat>, chan: Chan, killed: bool, pc: Pc,
                       cpu: Option<nat>, held: set<nat>)

  /** Where a CPU's scheduler is: outside the lock, at slot i, running the process of slot i, or just back from it. */
  datatype Scheduler = SchedAcq | Scan(i: nat) | Ran(i: nat) | Back(i: nat)

  /** struct cpu. */
  datatype Cpu = Cpu(proc: Option<nat>, sched: Scheduler)

  /** struct sleeplock; `spin` is the process that has its spinlock, `owner` the last one that locked it. */
  datatype Lock = Lock(locked: bool, pid: nat, spin: Option<nat>, owner: nat)

  /** `pt` is the CPU that has ptable.lock; `exits` and `reaps` are the pids that exited and that wait returned. */
  datatype State = State(procs: seq<Proc>, cpus: seq<Cpu>, pt: Option<nat>, locks: seq<Lock>, nextpid: nat,
                         exits: seq<nat>, reaps: seq<nat>)

  const INIT: nat := 0

  // ---- Loops over the table -----------------------------------------------------------------

  predicate SleepsOn(x: Proc, chan: Chan) {
    x.state == Sleeping && x.chan == chan
  }

  /** wakeup1. */
  function Wakeup(procs: seq<Proc>, chan: Chan): (r: seq<Proc>)
    ensures |r| == |procs|
    ensures forall i | 0 <= i < |r| :: r[i] == if SleepsOn(procs[i], chan) then procs[i].(state := Runnable)
                                       else procs[i]
  {
    seq(|procs|, i requires 0 <= i < |procs| => if SleepsOn(procs[i], chan) then procs[i].(state := Runnable)
                                                else procs[i])
  }

  predicate HasParent(x: Proc, p: nat) {
    x.parent == Some(p)
  }

  /** exit's loop: every child of `p` goes to init. */
  function Passed(procs: seq<Proc>, p: nat): (r: seq<Proc>)
    ensures |r| == |procs|
    ensures forall i | 0 <= i < |r| :: r[i] == if HasParent(procs[i], p) then procs[i].(parent := Some(INIT))
                                       else procs[i]
  {
    seq(|procs|, i requires 0 <= i < |procs| => if HasParent(procs[i], p) then procs[i].(parent := Some(INIT))
                                                else procs[i])
  }

  predicate DeadChild(x: Proc, p: nat) {
    HasParent(x, p) && x.state == Zombie
  }

  /**
   * proc.c:276-285: exit wakes the parent, passes the children to init, and wakes init if it gets one that has
   * exited.
   */
  function Abandoned(procs: seq<Proc>, p: nat, parent: nat): (r: seq<Proc>)
    ensures |r| == |procs|
  {
    var woken := Wakeup(procs, ProcChan(parent));
    var passed := Passed(woken, p);
    if exists j :: 0 <= j < |woken| && DeadChild(woken[j], p) then Wakeup(passed, ProcChan(INIT)) else passed
  }

  /** The first slot from `i` on for which a loop over the table stops, or the table's size. */
  function FirstUnused(procs: seq<Proc>, i: nat): (r: nat)
    requires i <= |procs|
    ensures i <= r <= |procs| && (r < |procs| ==> procs[r].state == Unused) && forall j | i <= j < r ::
              procs[j].state != Unused
    decreases |procs| - i
  {
    if i == |procs| || procs[i].state == Unused then i else FirstUnused(procs, i + 1)
  }

  function FirstDeadChild(procs: seq<Proc>, p: nat, i: nat): (r: nat)
    requires i <= |procs|
    ensures i <= r <= |procs| && (r < |procs| ==> DeadChild(procs[r], p)) && forall j | i <= j < r ::
              !DeadChild(procs[j], p)
    decreases |procs| - i
  {
    if i == |procs| || DeadChild(procs[i], p) then i else FirstDeadChild(procs, p, i + 1)
  }

  function FirstPid(procs: seq<Proc>, pid: nat, i: nat): (r: nat)
    requires i <= |procs|
    ensures i <= r <= |procs| && (r < |procs| ==> procs[r].pid == pid) && forall j | i <= j < r :: procs[j].pid != pid
    decreases |procs| - i
  {
    if i == |procs| || procs[i].pid == pid then i else FirstPid(procs, pid, i + 1)
  }

  predicate HasKids(procs: seq<Proc>, p: nat) {
    exists i :: 0 <= i < |procs| && HasParent(procs[i], p)
  }

  // ---- Steps --------------------------------------------------------------------------------

  /** A thread here has no spinlock, so a timer interrupt may make it yield. */
  predicate Interruptible(pc: Pc) {
    pc.User? || pc.LockSpin? || pc.UnlockSpin? || pc.WaitAcq? || pc.ExitAcq? || pc.ForkAcq? || pc.ForkFill?
      || pc.ForkLock? || pc.KillAcq?
  }

  /** A call that a process may make: acquiresleep, releasesleep of a lock it has, wait, exit, fork or kill. */
  predicate Callable(s: State, p: nat, pc: Pc)
    requires p < |s.procs|
  {
    || (pc.LockSpin? && pc.l < |s.locks|) || (pc.UnlockSpin? && pc.l in s.procs[p].held)
    || pc.WaitAcq? || pc.ForkAcq? || pc.KillAcq? || (pc.ExitAcq? && p != INIT && s.procs[p].held == {})
  }

  datatype Step =
    | Call(p: nat, pc: Pc)
    | Tick(p: nat)              // timer interrupt
    | Go(p: nat)                // the thread goes on
    | NoMemory(p: nat)          // kalloc or copyuvm fails in fork
    | Sched(c: nat)             // the scheduler of a CPU goes on

  predicate OnCpu(s: State, p: nat) {
    p < |s.procs| && s.procs[p].cpu.Some? && s.procs[p].cpu.value < |s.cpus|
  }

  /** About to take ptable.lock. */
  predicate WantsPt(pc: Pc) {
    pc.SleepPt? || pc.UnlockWake? || pc.WaitAcq? || pc.YieldAcq? || pc.ExitAcq? || pc.ForkAcq? || pc.ForkLock?
      || pc.KillAcq?
  }

  /** The thread of `p` is not spinning on a lock or dead. */
  predicate CanGo(s: State, p: nat)
    requires OnCpu(s, p)
  {
    var pc := s.procs[p].pc;
    && !pc.User? && !pc.Dead? && (WantsPt(pc) ==> s.pt == None)
    && (pc.LockSpin? || pc.UnlockSpin? ==> pc.l < |s.locks| && s.locks[pc.l].spin == None)
    && (pc.LockTest? || pc.SleepRel? || pc.UnlockClear? || pc.UnlockDone? ==> pc.l < |s.locks|)
    && (pc.ForkFill? || pc.ForkReady? ==> pc.np < |s.procs| && pc.np != p)
    && (pc.ExitWake? ==> s.procs[p].parent.Some?)
  }

  predicate Enabled(s: State, step: Step) {
    match step
    case Call(p, pc) => OnCpu(s, p) && s.procs[p].pc == User && Callable(s, p, pc)
    case Tick(p) => OnCpu(s, p) && Interruptible(s.procs[p].pc)
    case Go(p) => OnCpu(s, p) && CanGo(s, p)
    case NoMemory(p) => OnCpu(s, p) && s.procs[p].pc.ForkFill? && s.procs[p].pc.np < |s.procs| && s.procs[p].pc.np != p
    case Sched(c) => c < |s.cpus| && !s.cpus[c].sched.Ran? && (s.cpus[c].sched.SchedAcq? ==> s.pt == None)
  }

  function At(s: State, p: nat, pc: Pc): State
    requires p < |s.procs|
  {
    s.(procs := s.procs[p := s.procs[p].(pc := pc)])
  }

  /** The thread takes ptable.lock. */
  function TakePt(s: State, p: nat, pc: Pc): State
    requires OnCpu(s, p)
  {
    At(s.(pt := s.procs[p].cpu), p, pc)
  }

  function LeaveTo(s: State, p: nat, pc: Pc): State
    requires p < |s.procs|
  {
    At(s.(pt := None), p, pc)
  }

  function Spin(s: State, l: nat, who: Option<nat>): State
    requires l < |s.locks|
  {
    s.(locks := s.locks[l := s.locks[l].(spin := who)])
  }

  predicate SameShape(s: State, t: State) {
    |t.procs| == |s.procs| && |t.locks| == |s.locks| && |t.cpus| == |s.cpus|
  }

  /** sched: the process with its new state `x` leaves the CPU, whose scheduler goes on with ptable.lock. */
  function SwitchOut(s: State, p: nat, x: Proc): State
    requires OnCpu(s, p)
  {
    var c := s.procs[p].cpu.value;
    s.(procs := s.procs[p := x.(cpu := None)], cpus := s.cpus[c := s.cpus[c].(sched := Back(p))])
  }

  function Exec(s: State, step: Step): (t: State)
    requires Enabled(s, step)
    ensures SameShape(s, t)
  {
    match step
    case Call(p, pc) => At(s, p, pc)
    case Tick(p) => At(s, p, YieldAcq(s.procs[p].pc))
    case Go(p) => ExecGo(s, p)
    case NoMemory(p) =>
      var np := s.procs[p].pc.np;
      At(s.(procs := s.procs[np := s.procs[np].(state := Unused, pc := User)]), p, User)
    case Sched(c) => ExecSched(s, c)
  }

  /** The scheduler's loop, proc.c:352-378. */
  function ExecSched(s: State, c: nat): (t: State)
    requires Enabled(s, Sched(c))
    ensures SameShape(s, t)
  {
    match s.cpus[c].sched
    case SchedAcq => s.(pt := Some(c), cpus := s.cpus[c := s.cpus[c].(sched := Scan(0))])
    case Scan(i) =>
      if i >= |s.procs| then s.(pt := None, cpus := s.cpus[c := s.cpus[c].(sched := SchedAcq)])
      else if s.procs[i].state != Runnable then s.(cpus := s.cpus[c := s.cpus[c].(sched := Scan(i + 1))])
      else
        s.(procs := s.procs[i := s.procs[i].(state := Running, cpu := Some(c))],
          cpus := s.cpus[c := Cpu(Some(i), Ran(i))])
    case Back(i) => s.(cpus := s.cpus[c := Cpu(None, Scan(i + 1))])
  }

  predicate InLock(pc: Pc) {
    pc.LockSpin? || pc.LockTest? || pc.SleepPt? || pc.SleepRel? || pc.SleepGo? || pc.Slept? || pc.UnlockSpin?
      || pc.UnlockClear? || pc.UnlockWake? || pc.UnlockWaking? || pc.UnlockPt? || pc.UnlockDone?
  }

  predicate InWait(pc: Pc) {
    pc.WaitAcq? || pc.WaitScan? || pc.WaitSlept?
  }

  predicate InYield(pc: Pc) {
    pc.YieldAcq? || pc.YieldGo? || pc.LeavePt?
  }

  predicate InExit(pc: Pc) {
    pc.ExitAcq? || pc.ExitWake? || pc.ExitGo?
  }

  predicate InFork(pc: Pc) {
    pc.ForkAcq? || pc.ForkPick? || pc.ForkFill? || pc.ForkLock? || pc.ForkReady?
  }

  predicate InKill(pc: Pc) {
    pc.KillAcq? || pc.KillScan?
  }

  /** acquiresleep, sleep and releasesleep. */
  function GoLock(s: State, p: nat): (t: State)
    requires OnCpu(s, p) && CanGo(s, p) && InLock(s.procs[p].pc)
    ensures SameShape(s, t)
  {
    var x := s.procs[p];
    match x.pc
    case LockSpin(l) => At(Spin(s, l, Some(p)), p, LockTest(l))
    case LockTest(l) =>
      if s.locks[l].locked then At(s, p, SleepPt(l))
      else
        s.(locks := s.locks[l := Lock(true, x.pid, None, p)],
          procs := s.procs[p := x.(pc := User, held := x.held + {l})])
    case SleepPt(l) => TakePt(s, p, SleepRel(l))
    case SleepRel(l) => At(Spin(s, l, None), p, SleepGo(l))
    case SleepGo(l) => SwitchOut(s, p, x.(state := Sleeping, chan := LockChan(l), pc := Slept(l)))
    case Slept(l) => LeaveTo(s.(procs := s.procs[p := x.(chan := NoChan)]), p, LockSpin(l))
    case UnlockSpin(l) => At(Spin(s, l, Some(p)), p, UnlockClear(l))
    case UnlockClear(l) =>
      s.(locks := s.locks[l := s.locks[l].(locked := false, pid := 0)],
        procs := s.procs[p := x.(pc := UnlockWake(l), held := x.held - {l})])
    case UnlockWake(l) => TakePt(s, p, UnlockWaking(l))
    case UnlockWaking(l) => At(s.(procs := Wakeup(s.procs, LockChan(l))), p, UnlockPt(l))
    case UnlockPt(l) => LeaveTo(s, p, UnlockDone(l))
    case UnlockDone(l) => At(Spin(s, l, None), p, User)
  }

  /** wait, with its sleep. */
  function GoWait(s: State, p: nat): (t: State)
    requires OnCpu(s, p) && CanGo(s, p) && InWait(s.procs[p].pc)
    ensures SameShape(s, t)
  {
    var x := s.procs[p];
    match x.pc
    case WaitAcq => TakePt(s, p, WaitScan)
    case WaitScan =>
      var q := FirstDeadChild(s.procs, p, 0);
      if q < |s.procs| then
        At(s.(procs := s.procs[q := Proc(Unused, 0, None, NoChan, false, User, None, {})],
          reaps := s.reaps + [s.procs[q].pid]), p, LeavePt(User))
      else if !HasKids(s.procs, p) || x.killed then At(s, p, LeavePt(User))
      else SwitchOut(s, p, x.(state := Sleeping, chan := ProcChan(p), pc := WaitSlept))
    case WaitSlept => At(s.(procs := s.procs[p := x.(chan := NoChan)]), p, WaitScan)
  }

  /** yield, and the release of ptable.lock at the end of most calls. */
  function GoYield(s: State, p: nat): (t: State)
    requires OnCpu(s, p) && CanGo(s, p) && InYield(s.procs[p].pc)
    ensures SameShape(s, t)
  {
    var x := s.procs[p];
    match x.pc
    case YieldAcq(k) => TakePt(s, p, YieldGo(k))
    case YieldGo(k) => SwitchOut(s, p, x.(state := Runnable, pc := LeavePt(k)))
    case LeavePt(k) => LeaveTo(s, p, k)
  }

  /** exit. */
  function GoExit(s: State, p: nat): (t: State)
    requires OnCpu(s, p) && CanGo(s, p) && InExit(s.procs[p].pc)
    ensures SameShape(s, t)
  {
    var x := s.procs[p];
    match x.pc
    case ExitAcq => TakePt(s, p, ExitWake)
    case ExitWake =>
      At(s.(procs := Abandoned(s.procs, p, x.parent.value)), p, ExitGo)
    case ExitGo => SwitchOut(s.(exits := s.exits + [x.pid]), p, x.(state := Zombie, pc := Dead))
  }

  /** allocproc and fork. */
  function GoFork(s: State, p: nat): (t: State)
    requires OnCpu(s, p) && CanGo(s, p) && InFork(s.procs[p].pc)
    ensures SameShape(s, t)
  {
    var x := s.procs[p];
    match x.pc
    case ForkAcq => TakePt(s, p, ForkPick)
    case ForkPick =>
      var np := FirstUnused(s.procs, 0);
      if np == |s.procs| then At(s, p, LeavePt(User))
      else
        At(s.(procs := s.procs[np := s.procs[np].(state := Embryo, pid := s.nextpid, pc := LeavePt(User))],
          nextpid := s.nextpid + 1),
           p, LeavePt(ForkFill(np)))
    case ForkFill(np) => At(s.(procs := s.procs[np := s.procs[np].(parent := Some(p))]), p, ForkLock(np))
    case ForkLock(np) => TakePt(s, p, ForkReady(np))
    case ForkReady(np) => At(s.(procs := s.procs[np := s.procs[np].(state := Runnable)]), p, LeavePt(User))
  }

  /** kill. */
  function GoKill(s: State, p: nat): (t: State)
    requires OnCpu(s, p) && CanGo(s, p) && InKill(s.procs[p].pc)
    ensures SameShape(s, t)
  {
    var x := s.procs[p];
    match x.pc
    case KillAcq(pid) => TakePt(s, p, KillScan(pid))
    case KillScan(pid) =>
      var q := FirstPid(s.procs, pid, 0);
      if q == |s.procs| then At(s, p, LeavePt(User))
      else
        var y := s.procs[q].(killed := true);
        At(s.(procs := s.procs[q := if y.state == Sleeping then y.(state := Runnable) else y]), p, LeavePt(User))
  }

  function ExecGo(s: State, p: nat): (t: State)
    requires OnCpu(s, p) && CanGo(s, p)
    ensures SameShape(s, t)
  {
    if InLock(s.procs[p].pc) then GoLock(s, p)
    else if InWait(s.procs[p].pc) then GoWait(s, p)
    else if InYield(s.procs[p].pc) then GoYield(s, p)
    else if InExit(s.procs[p].pc) then GoExit(s, p)
    else if InFork(s.procs[p].pc) then GoFork(s, p)
    else GoKill(s, p)
  }

  // ---- Runs ---------------------------------------------------------------------------------

  function Blank(): Proc {
    Proc(Unused, 0, None, NoChan, false, User, None, {})
  }

  /** After userinit: init can run, every CPU is about to enter its scheduler, nothing is locked. */
  ghost predicate Init(s: State) {
    && |s.procs| > 0 && s.procs[INIT] == Proc(Runnable, 1, None, NoChan, false, LeavePt(User), None, {})
    && (forall p | 0 < p < |s.procs| :: s.procs[p] == Blank())
    && (forall c | 0 <= c < |s.cpus| :: s.cpus[c] == Cpu(None, SchedAcq))
    && (forall l | 0 <= l < |s.locks| :: s.locks[l] == Lock(false, 0, None, 0))
    && s.pt == None && s.nextpid == 2 && s.exits == [] && s.reaps == []
  }

  ghost predicate Runs(s: State, steps: seq<Step>)
    decreases |steps|
  {
    steps == [] || (Enabled(s, steps[0]) && Runs(Exec(s, steps[0]), steps[1..]))
  }

  ghost function Final(s: State, steps: seq<Step>): State
    requires Runs(s, steps)
    decreases |steps|
  {
    if steps == [] then s else Final(Exec(s, steps[0]), steps[1..])
  }
}
