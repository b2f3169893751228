/** Crash atomicity and coherence of the log, over every run of LogProtocol that keeps to the log region. */
module LogSafety {
  import opened LogProtocol
  import opened LogReserve
  import opened Results

  // ---- Invariant of the committed data ------------------------------------------------------

  /** Changed by its holder, log_write still to come. */
  predicate Changed(buf: Buf) {
    buf.holder.Held? && buf.holder.changed
  }

  /** A clean buffer equals the disk, a dirty one the last logged write; only home blocks are ever locked. */
  predicate BufOk(g: Geometry, s: State, b: nat, buf: Buf)
    requires |s.disk| == |s.cur| == g.blocks
  {
    && b < g.blocks
    && (buf.dirty ==> b in s.lh)
    && (buf.holder.Held? ==> g.Home(b))
    && (if Changed(buf) then buf.holder.who in s.ops else buf.data == if buf.dirty then s.cur[b] else s.disk[b])
  }

  ghost predicate CacheOk(g: Geometry, s: State)
    requires |s.disk| == |s.cur| == g.blocks
  {
    forall b | b in s.cache :: BufOk(g, s, b, s.cache[b])
  }

  predicate HeaderIs(g: Geometry, d: Disk, lh: seq<nat>)
    requires g.Valid() && |d| == g.blocks
  {
    HeaderOk(d[g.start]) && Header(d[g.start]) == lh
  }

  /** The log on `d` holds block `lh[i]` of `st` in slot `i`, for `i < k`. */
  ghost predicate SlotsHold(g: Geometry, d: Disk, lh: seq<nat>, k: nat, st: Disk)
    requires g.Valid() && |d| == |st| == g.blocks && ValidLog(g, lh) && k <= |lh|
  {
    forall i | 0 <= i < k :: d[g.Slot(i)] == st[lh[i]]
  }

  ghost predicate Pinned(s: State, from: nat) {
    forall i | from <= i < |s.lh| :: s.lh[i] in s.cache && s.cache[s.lh[i]].dirty
  }

  /** Running recovery to its end on `d` would give `st`. */
  ghost predicate Recovers(g: Geometry, d: Disk, st: Disk) {
    && Readable(g, d) && |st| == g.blocks
    && var lh := Header(d[g.start]);
       && SlotsHold(g, d, lh, |lh|, st)
       && (forall b | 0 <= b < g.blocks && g.Home(b) && b !in lh :: d[b] == st[b])
  }

  /** Nothing committed is waiting in the log: the home blocks are the committed store. */
  ghost predicate Settled(g: Geometry, s: State)
    requires g.Valid() && |s.disk| == |s.base| == |s.cur| == g.blocks
  {
    && HeaderIs(g, s.disk, []) && SameHome(g, s.disk, s.base)
    && (forall b | 0 <= b < g.blocks && g.Home(b) && b !in s.lh :: s.cur[b] == s.base[b])
    && Pinned(s, 0)
  }

  /** The disk when install_trans has copied the first `tail` blocks of the log `lh` of store `st`. */
  ghost predicate HalfInstalled(g: Geometry, d: Disk, lh: seq<nat>, tail: nat, st: Disk)
    requires g.Valid() && |d| == |st| == g.blocks && ValidLog(g, lh)
  {
    && tail <= |lh| && HeaderIs(g, d, lh)
    && SlotsHold(g, d, lh, |lh|, st)
    && (forall i | 0 <= i < tail :: d[lh[i]] == st[lh[i]])
    && (forall b | 0 <= b < g.blocks && g.Home(b) && b !in lh :: d[b] == st[b])
  }

  /** install_trans has `tail` blocks behind it: those are clean, the rest still pinned (nothing is, after a boot). */
  ghost predicate Unpinned(s: State, tail: nat, boot: bool)
    requires tail <= |s.lh|
  {
    && (forall i | 0 <= i < tail && s.lh[i] in s.cache :: !s.cache[s.lh[i]].dirty)
    && (if boot then forall b | b in s.cache :: !s.cache[b].dirty else Pinned(s, tail))
  }

  ghost predicate Replaying(g: Geometry, s: State, tail: nat, boot: bool)
    requires g.Valid() && |s.disk| == |s.base| == |s.cur| == g.blocks && ValidLog(g, s.lh)
  {
    s.base == s.cur && HalfInstalled(g, s.disk, s.lh, tail, s.cur) && Unpinned(s, tail, boot)
  }

  ghost predicate Inv(g: Geometry, s: State) {
    && g.Valid() && |s.disk| == |s.base| == |s.cur| == g.blocks
    && ValidLog(g, s.lh) && CacheOk(g, s)
    && (s.ops.Keys != {} ==> s.phase.Idle?)
    && match s.phase
       case Idle => Settled(g, s)
       case WritingLog(tail) => Settled(g, s) && tail <= |s.lh| && SlotsHold(g, s.disk, s.lh, tail, s.cur)
       case Installing(tail, boot) => Replaying(g, s, tail, boot)
       case Finishing => Settled(g, s) && s.lh == []
       case Booting => s.cache == map[] && s.lh == [] && Recovers(g, s.disk, s.base) && s.base == s.cur
  }

  lemma InitInv(g: Geometry, s: State)
    requires Init(g, s)
    ensures Inv(g, s)
  {
  }

  /** Whatever the phase, a crash now loses nothing committed and exposes nothing uncommitted. */
  lemma InvRecovers(g: Geometry, s: State)
    requires Inv(g, s)
    ensures Recovers(g, s.disk, s.base)
  {
  }

  /** Replacing one buffer by a coherent one, dirty exactly when it was, keeps the invariant. */
  lemma BufferReplaced(g: Geometry, s: State, b: nat, buf: Buf)
    requires Inv(g, s) && !s.phase.Booting? && b < g.blocks && buf.dirty == Fetched(s, b).dirty && BufOk(g, s, b, buf)
    ensures Inv(g, s.(cache := s.cache[b := buf]))
  {
    var s' := s.(cache := s.cache[b := buf]);
    assert CacheOk(g, s');
    if s.phase.Installing? {
      assert Replaying(g, s', s.phase.tail, s.phase.boot);
    } else {
      assert Settled(g, s');
    }
  }

  lemma BufferStep(g: Geometry, s: State, step: Step)
    requires Inv(g, s) && Enabled(g, s, step) && (step.Bread? || step.Modify? || step.Brelse?)
    ensures Inv(g, Exec(g, s, step))
  {
    BufferReplaced(g, s, step.b, Exec(g, s, step).cache[step.b]);
  }

  lemma EvictStep(g: Geometry, s: State, b: nat)
    requires Inv(g, s) && Enabled(g, s, Evict(b))
    ensures Inv(g, Exec(g, s, Evict(b)))
  {
    var s' := Exec(g, s, Evict(b));
    assert CacheOk(g, s');
    if s.phase.Installing? {
      assert Replaying(g, s', s.phase.tail, s.phase.boot);
    } else {
      assert Settled(g, s');
    }
  }

  lemma OpCache(g: Geometry, s: State, step: Step)
    requires Inv(g, s) && Enabled(g, s, step) && (step.BeginOp? || step.EndOp?)
    ensures CacheOk(g, Exec(g, s, step))
  {
  }

  lemma OpStep(g: Geometry, s: State, step: Step)
    requires Inv(g, s) && Enabled(g, s, step) && (step.BeginOp? || step.EndOp?)
    ensures Inv(g, Exec(g, s, step))
  {
    OpCache(g, s, step);
    assert Settled(g, Exec(g, s, step));
  }

  lemma TestStep(g: Geometry, s: State, p: nat, b: nat)
    requires Inv(g, s) && Enabled(g, s, LogTest(p, b))
    ensures Inv(g, Exec(g, s, LogTest(p, b)))
  {
  }

  lemma LogWriteStep(g: Geometry, s: State, p: nat, b: nat)
    requires Inv(g, s) && Enabled(g, s, LogWrite(p, b)) && (b in s.lh || |s.lh| < g.Capacity())
    ensures Inv(g, Exec(g, s, LogWrite(p, b)))
  {
    var s' := Exec(g, s, LogWrite(p, b));
    assert ValidLog(g, s'.lh);
    assert CacheOk(g, s');
    assert Pinned(s', 0);
    assert Settled(g, s');
  }

  lemma CopyInCache(g: Geometry, s: State)
    requires Inv(g, s) && Enabled(g, s, CopyToLog)
    ensures var s' := Exec(g, s, CopyToLog); CacheOk(g, s') && Pinned(s', 0)
  {
    var s' := Exec(g, s, CopyToLog);
    var t := s.phase.tail;
    assert !g.Home(g.Slot(t)) && Fetched(s, s.lh[t]) == s.cache[s.lh[t]];
    assert CacheOk(g, s');
  }

  lemma CopyStep(g: Geometry, s: State)
    requires Inv(g, s) && Enabled(g, s, CopyToLog)
    ensures Inv(g, Exec(g, s, CopyToLog))
  {
    var s' := Exec(g, s, CopyToLog);
    var t := s.phase.tail;
    CopyInCache(g, s);
    assert !g.Home(g.Slot(t));
    assert Settled(g, s');
    assert SlotsHold(g, s'.disk, s'.lh, t + 1, s'.cur);
  }

  lemma CommitHeadCache(g: Geometry, s: State)
    requires Inv(g, s) && Enabled(g, s, WriteCommitHead)
    ensures CacheOk(g, Exec(g, s, WriteCommitHead))
  {
  }

  lemma CommitHeadDisk(g: Geometry, s: State)
    requires Inv(g, s) && Enabled(g, s, WriteCommitHead)
    ensures var s' := Exec(g, s, WriteCommitHead); s'.lh == s.lh && HalfInstalled(g, s'.disk, s'.lh, 0, s'.cur)
  {
    HeaderRoundTrip(Seen(s, g.start), s.lh);
  }

  lemma CommitHeadStep(g: Geometry, s: State)
    requires Inv(g, s) && Enabled(g, s, WriteCommitHead)
    ensures Inv(g, Exec(g, s, WriteCommitHead))
  {
    CommitHeadCache(g, s);
    CommitHeadDisk(g, s);
    assert Pinned(Exec(g, s, WriteCommitHead), 0);
  }

  lemma CommitNothingStep(g: Geometry, s: State)
    requires Inv(g, s) && Enabled(g, s, CommitNothing)
    ensures Inv(g, Exec(g, s, CommitNothing))
  {
  }

  lemma InstallOnDisk(g: Geometry, d: Disk, lh: seq<nat>, tail: nat, st: Disk)
    requires g.Valid() && |d| == |st| == g.blocks && ValidLog(g, lh) && HalfInstalled(g, d, lh, tail, st) && tail < |lh|
    ensures HalfInstalled(g, d[lh[tail] := st[lh[tail]]], lh, tail + 1, st)
  {
  }

  lemma InstallInCache(g: Geometry, s: State)
    requires Inv(g, s) && Enabled(g, s, InstallOne)
    ensures Seen(s, g.Slot(s.phase.tail)) == s.cur[s.lh[s.phase.tail]]
    ensures CacheOk(g, Exec(g, s, InstallOne))
  {
    assert !g.Home(g.Slot(s.phase.tail)) && g.Home(s.lh[s.phase.tail]);
  }

  /** One more block of the log is clean; `slot` is none of them. */
  lemma UnpinOne(s: State, tail: nat, slot: nat, boot: bool)
    requires tail < |s.lh| && Unpinned(s, tail, boot) && slot !in s.lh && slot < |s.disk| && s.lh[tail] < |s.disk|
    requires forall i, j | 0 <= i < j < |s.lh| :: s.lh[i] != s.lh[j]
    ensures Unpinned(Moved(s, slot, s.lh[tail]), tail + 1, boot)
  {
  }

  lemma InstallUnpins(g: Geometry, s: State, tail: nat, boot: bool)
    requires Inv(g, s) && s.phase == Installing(tail, boot) && Movable(g, s, tail)
    ensures Unpinned(Moved(s, g.Slot(tail), s.lh[tail]), tail + 1, boot)
  {
    assert !g.Home(g.Slot(tail));
    UnpinOne(s, tail, g.Slot(tail), boot);
  }

  lemma InstallStep(g: Geometry, s: State)
    requires Inv(g, s) && Enabled(g, s, InstallOne)
    ensures Inv(g, Exec(g, s, InstallOne))
  {
    InstallInCache(g, s);
    InstallUnpins(g, s, s.phase.tail, s.phase.boot);
    InstallOnDisk(g, s.disk, s.lh, s.phase.tail, s.cur);
  }

  lemma ClearDisk(g: Geometry, s: State)
    requires Inv(g, s) && Enabled(g, s, ClearHead)
    ensures
      var s' := Exec(g, s, ClearHead);
      HeaderIs(g, s'.disk, []) && SameHome(g, s'.disk, s'.base) && s'.base == s'.cur == s.cur && |s'.disk| == |s'.cur|
  {
    HeaderRoundTrip(Seen(s, g.start), []);
    forall b | 0 <= b < g.blocks && g.Home(b) ensures s.disk[b] == s.cur[b] {
      assert b in s.lh ==> exists i :: 0 <= i < |s.lh| && s.lh[i] == b;
    }
  }

  lemma ClearCache(g: Geometry, s: State)
    requires Inv(g, s) && Enabled(g, s, ClearHead)
    ensures CacheOk(g, Exec(g, s, ClearHead))
  {
  }

  lemma ClearStep(g: Geometry, s: State)
    requires Inv(g, s) && Enabled(g, s, ClearHead)
    ensures Inv(g, Exec(g, s, ClearHead))
  {
    ClearDisk(g, s);
    ClearCache(g, s);
  }

  lemma BootStep(g: Geometry, s: State, step: Step)
    requires Inv(g, s) && Enabled(g, s, step) && (step.Crash? || step.ReadHead? || step.FinishCommit?)
    ensures Inv(g, Exec(g, s, step))
  {
    InvRecovers(g, s);
  }

  /** The steps of operations. */
  predicate ByOperation(step: Step) {
    step.BeginOp? || step.EndOp? || step.Bread? || step.Modify? || step.Brelse? || step.LogTest? || step.LogWrite?
  }

  lemma OperationKeeps(g: Geometry, s: State, step: Step)
    requires Inv(g, s) && Enabled(g, s, step) && ByOperation(step)
    requires step.LogWrite? ==> step.b in s.lh || |s.lh| < g.Capacity()
    ensures Inv(g, Exec(g, s, step))
  {
    match step
    case LogTest(p, b) => TestStep(g, s, p, b);
    case LogWrite(p, b) => LogWriteStep(g, s, p, b);
    case BeginOp(_) => OpStep(g, s, step);
    case EndOp(_) => OpStep(g, s, step);
    case _ => BufferStep(g, s, step);
  }

  lemma StepKeeps(g: Geometry, s: State, step: Step)
    requires Inv(g, s) && Enabled(g, s, step)
    requires step.LogWrite? ==> step.b in s.lh || |s.lh| < g.Capacity()
    ensures Inv(g, Exec(g, s, step))
  {
    match step
    case Evict(b) => EvictStep(g, s, b);
    case CopyToLog => CopyStep(g, s);
    case WriteCommitHead => CommitHeadStep(g, s);
    case CommitNothing => CommitNothingStep(g, s);
    case InstallOne => InstallStep(g, s);
    case ClearHead => ClearStep(g, s);
    case FinishCommit => BootStep(g, s, step);
    case Crash => BootStep(g, s, step);
    case ReadHead => BootStep(g, s, step);
    case _ => OperationKeeps(g, s, step);
  }

  // ---- Staying inside the log region --------------------------------------------------------

  /** LOGSIZE blocks fit, or buffers run out first, or whoever passed the size test is alone and has room for one. */
  ghost predicate RoomLeft(g: Geometry, s: State)
    requires g.Valid()
  {
    || g.size > LOGSIZE || g.nbuf <= g.size
    || forall p | p in s.passed :: p in s.ops && s.passed.Keys == {p} && |s.lh| < g.Capacity()
  }

  /** Nobody is inside log_write, if the log has no slots. */
  predicate NoneInside(g: Geometry, s: State) {
    g.size == 1 ==> s.passed == map[]
  }

  /**
   * The log lists one block more than it has slots for, and these blocks pin every buffer. write_log gets no buffer
   * for a slot then, and the operations at hand can log no other block.
   */
  ghost predicate Stuck(g: Geometry, s: State) {
    && g.Valid() && |s.disk| == |s.base| == |s.cur| == g.blocks && 1 < g.size
    && |s.lh| == g.size && s.cache.Keys == Listed(s.lh) && |s.cache| == g.nbuf
    && (forall b | b in s.lh :: g.Home(b)) && Distinct(s.lh)
    && CacheOk(g, s) && Settled(g, s)
    && (s.ops.Keys != {} ==> s.phase.Idle?) && (s.phase.Idle? || s.phase == WritingLog(0))
  }

  function Listed(lh: seq<nat>): set<nat> {
    set b | b in lh
  }

  lemma {:induction false} ListedSize(lh: seq<nat>)
    requires Distinct(lh)
    ensures |Listed(lh)| == |lh|
  {
    if lh == [] {
      assert Listed(lh) == {};
    } else {
      var last := |lh| - 1;
      ListedSize(lh[..last]);
      assert Listed(lh) == Listed(lh[..last]) + {lh[last]};
    }
  }

  lemma {:induction false} SubsetFew(a: set<nat>, b: set<nat>)
    requires a <= b
    ensures |a| <= |b| && (|a| == |b| ==> a == b)
    decreases a
  {
    if a == {} {
      assert |b| == 0 ==> b == {};
    } else {
      var x :| x in a;
      SubsetFew(a - {x}, b - {x});
    }
  }

  /** Pinned blocks that are as many as there are buffers are all that is cached. */
  lemma AllPinned(s: State, nbuf: nat)
    requires Pinned(s, 0) && Distinct(s.lh) && |s.cache| <= nbuf
    ensures |s.lh| <= nbuf && (|s.lh| == nbuf ==> s.cache.Keys == Listed(s.lh) && |s.cache| == nbuf)
  {
    ListedSize(s.lh);
    forall b | b in Listed(s.lh) ensures b in s.cache.Keys {
      var i :| 0 <= i < |s.lh| && s.lh[i] == b;
    }
    SubsetFew(Listed(s.lh), s.cache.Keys);
  }

  /** What an append does to the log and its blocks, with a slot for it or not. */
  lemma Appended(g: Geometry, s: State, p: nat, b: nat)
    requires Inv(g, s) && Enabled(g, s, LogWrite(p, b)) && b !in s.lh
    ensures
      var s' := Exec(g, s, LogWrite(p, b));
      && CacheOk(g, s') && Settled(g, s') && s'.cache.Keys == s.cache.Keys && s'.lh == s.lh + [b] && g.Home(b)
      && (forall x | x in s'.lh :: g.Home(x)) && Distinct(s'.lh) && Pinned(s', 0)
  {
    var s' := Exec(g, s, LogWrite(p, b));
    assert CacheOk(g, s');
    assert Pinned(s', 0);
    assert Settled(g, s');
  }

  /** Appending a block that has no slot leaves the log stuck. */
  lemma AppendSticks(g: Geometry, s: State, p: nat, b: nat, s': State)
    requires Inv(g, s) && Fits(g, s) && g.nbuf <= g.size && 1 < g.size
    requires Enabled(g, s, LogWrite(p, b)) && s' == Exec(g, s, LogWrite(p, b)) && b !in s.lh && |s.lh| + 1 >= g.size
    ensures Stuck(g, s')
  {
    Appended(g, s, p, b);
    assert |s'.cache.Keys| == |s.cache.Keys|;
    AllPinned(s', g.nbuf);
  }

  /** A stuck log lets nothing go on but the operations at hand, and a crash. */
  predicate Idles(step: Step) {
    step.BeginOp? || step.EndOp? || step.Bread? || step.Modify? || step.Brelse? || step.LogWrite? || step.Crash?
  }

  lemma StuckIdles(g: Geometry, s: State, step: Step)
    requires Stuck(g, s) && Can(g, s, step)
    ensures Idles(step) && (step.Bread? || step.Modify? || step.Brelse? || step.LogWrite? ==> step.b in s.lh)
  {
    match step
    case Bread(_, b) => NoBuffer(g, s, Exec(g, s, step), b);
    case CopyToLog => NoBuffer(g, s, Exec(g, s, step), g.Slot(0));
    case _ =>
  }

  lemma NoBuffer(g: Geometry, s: State, s': State, b: nat)
    requires Stuck(g, s) && Fits(g, s') && s.cache.Keys + {b} <= s'.cache.Keys
    ensures b in s.lh
  {
    SubsetFew(s.cache.Keys + {b}, s'.cache.Keys);
  }

  lemma StuckReplaced(g: Geometry, s: State, b: nat, buf: Buf)
    requires Stuck(g, s) && b in s.cache && buf.dirty == s.cache[b].dirty && BufOk(g, s, b, buf)
    ensures Stuck(g, s.(cache := s.cache[b := buf]))
  {
    var s' := s.(cache := s.cache[b := buf]);
    assert s'.cache.Keys == s.cache.Keys;
    assert CacheOk(g, s');
    assert Settled(g, s');
  }

  lemma StuckBuffer(g: Geometry, s: State, step: Step)
    requires Stuck(g, s) && Enabled(g, s, step) && (step.Bread? || step.Modify? || step.Brelse?) && step.b in s.lh
    ensures Stuck(g, Exec(g, s, step))
  {
    StuckReplaced(g, s, step.b, Exec(g, s, step).cache[step.b]);
  }

  lemma StuckAbsorbs(g: Geometry, s: State, p: nat, b: nat)
    requires Stuck(g, s) && Enabled(g, s, LogWrite(p, b)) && b in s.lh
    ensures Stuck(g, Exec(g, s, LogWrite(p, b)))
  {
    var s' := Exec(g, s, LogWrite(p, b));
    assert s'.cache.Keys == s.cache.Keys;
    assert CacheOk(g, s');
    assert Settled(g, s');
  }

  lemma StuckOps(g: Geometry, s: State, step: Step)
    requires Stuck(g, s) && Enabled(g, s, step) && (step.BeginOp? || step.EndOp?)
    ensures Stuck(g, Exec(g, s, step))
  {
    var s' := Exec(g, s, step);
    assert CacheOk(g, s');
    assert Settled(g, s');
  }

  /** Whatever happens, a stuck log stays stuck until the machine crashes, and the crash loses nothing. */
  lemma StuckStep(g: Geometry, s: State, step: Step)
    requires Stuck(g, s) && Can(g, s, step)
    ensures if step.Crash? then Inv(g, Exec(g, s, step)) else Stuck(g, Exec(g, s, step))
  {
    StuckIdles(g, s, step);
    match step
    case BeginOp(_) => StuckOps(g, s, step);
    case EndOp(_) => StuckOps(g, s, step);
    case LogWrite(p, b) => StuckAbsorbs(g, s, p, b);
    case Crash => StuckRecovers(g, s);
    case _ => StuckBuffer(g, s, step);
  }

  lemma StuckRecovers(g: Geometry, s: State)
    requires Stuck(g, s)
    ensures Recovers(g, s.disk, s.base)
  {
  }

  lemma RoomStep(g: Geometry, s: State, step: Step)
    requires g.Valid() && Reserved(s) && RoomLeft(g, s) && NoneInside(g, s) && Enabled(g, s, step)
    requires g.Roomy() || (step.LogTest? ==> s.passed == map[])
    ensures RoomLeft(g, Exec(g, s, step)) && NoneInside(g, Exec(g, s, step))
    ensures step.LogWrite? && step.b !in s.lh && |s.lh| >= g.Capacity() ==>
              1 < g.size && g.nbuf <= g.size && |s.lh| + 1 >= g.size
  {
    if step.LogWrite? && step.b !in s.lh {
      EntryLeft(s, step.p, step.b);
    }
  }

  ghost predicate Safe(g: Geometry, s: State) {
    (Inv(g, s) || Stuck(g, s)) && Reserved(s) && RoomLeft(g, s) && NoneInside(g, s) && Fits(g, s)
  }

  lemma InitSafe(g: Geometry, s: State)
    requires Init(g, s)
    ensures Safe(g, s)
  {
    InitInv(g, s);
  }

  lemma SafeStep(g: Geometry, s: State, step: Step)
    requires Inv(g, s) && Fits(g, s) && Can(g, s, step)
    requires step.LogWrite? && step.b !in s.lh && |s.lh| >= g.Capacity() ==>
               1 < g.size && g.nbuf <= g.size && |s.lh| + 1 >= g.size
    ensures var s' := Exec(g, s, step); Inv(g, s') || Stuck(g, s')
  {
    if step.LogWrite? && step.b !in s.lh && |s.lh| >= g.Capacity() {
      AppendSticks(g, s, step.p, step.b, Exec(g, s, step));
    } else {
      StepKeeps(g, s, step);
    }
  }

  /** What every step keeps, if the geometry has room or the size tests come one at a time. */
  lemma StepInv(g: Geometry, s: State, step: Step)
    requires Safe(g, s) && Can(g, s, step)
    requires g.Roomy() || (step.LogTest? ==> s.passed == map[])
    ensures Safe(g, Exec(g, s, step))
  {
    ReservedStep(g, s, step);
    RoomStep(g, s, step);
    if Inv(g, s) {
      SafeStep(g, s, step);
    } else {
      StuckStep(g, s, step);
    }
  }

  lemma SafeRecovers(g: Geometry, s: State)
    requires Safe(g, s)
    ensures Recovers(g, s.disk, s.base)
  {
    if Inv(g, s) {
      InvRecovers(g, s);
    } else {
      StuckRecovers(g, s);
    }
  }

  // ---- History ------------------------------------------------------------------------------

  /** `base` and `cur` are what the recorded groups make of the initial disk, and the groups are whole. */
  ghost predicate Recorded(first: Disk, groups: seq<seq<Event>>, pending: seq<Event>, base: Disk, cur: Disk,
                           open: set<nat>) {
    && base == ReplayAll(first, groups)
    && cur == Replay(base, pending)
    && (forall i | 0 <= i < |groups| :: Whole(groups[i]))
    && Bracketed(pending) && Open(pending) == open
  }

  ghost predicate History(s: State, first: Disk) {
    Recorded(first, s.groups, s.pending, s.base, s.cur, s.ops.Keys)
  }

  /** One more event is pending. */
  lemma EventAdded(s: State, e: Event, cur: Disk, open: set<nat>, first: Disk)
    requires History(s, first)
    requires match e
             case Begin(p) => cur == s.cur && p !in s.ops && open == s.ops.Keys + {p}
             case Write(p, b, data) => b < |s.base| && cur == s.cur[b := data] && p in s.ops && open == s.ops.Keys
             case End(p) => cur == s.cur && p in s.ops && open == s.ops.Keys - {p}
    ensures Recorded(first, s.groups, s.pending + [e], s.base, cur, open)
  {
    assert (s.pending + [e])[..|s.pending|] == s.pending;
  }

  lemma GroupAdded(s: State, first: Disk)
    requires History(s, first) && s.ops.Keys == {}
    ensures Recorded(first, s.groups + [s.pending], [], s.cur, s.cur, {})
  {
    assert (s.groups + [s.pending])[..|s.groups|] == s.groups;
  }

  predicate RecordsNothing(step: Step) {
    !step.BeginOp? && !step.LogWrite? && !step.EndOp? && !step.CommitNothing? && !step.WriteCommitHead? && !step.Crash?
  }

  lemma NothingRecorded(g: Geometry, s: State, step: Step)
    requires g.Valid() && Enabled(g, s, step) && RecordsNothing(step)
    ensures var s' := Exec(g, s, step);
            s'.groups == s.groups && s'.pending == s.pending && s'.base == s.base && s'.cur == s.cur && s'.ops == s.ops
  {
  }

  lemma HistoryEvent(g: Geometry, s: State, step: Step, first: Disk)
    requires g.Valid() && Enabled(g, s, step) && History(s, first) && !RecordsNothing(step)
    requires |s.base| == |s.cur| && (s.ops.Keys != {} ==> s.phase.Idle?) && (step.LogWrite? ==> step.b < |s.cur|)
    ensures History(Exec(g, s, step), first)
    ensures s.groups <= Exec(g, s, step).groups
  {
    match step
    case BeginOp(p) => EventAdded(s, Begin(p), s.cur, s.ops.Keys + {p}, first);
    case LogWrite(p, b) => EventAdded(s, Write(p, b, s.cache[b].data), s.cur[b := s.cache[b].data], s.ops.Keys, first);
    case EndOp(p) => EventAdded(s, End(p), s.cur, s.ops.Keys - {p}, first);
    case CommitNothing => GroupAdded(s, first);
    case WriteCommitHead => GroupAdded(s, first);
    case Crash =>
  }

  lemma HistoryStep(g: Geometry, s: State, step: Step, first: Disk)
    requires Safe(g, s) && Enabled(g, s, step) && History(s, first)
    ensures History(Exec(g, s, step), first)
    ensures s.groups <= Exec(g, s, step).groups
  {
    if RecordsNothing(step) {
      NothingRecorded(g, s, step);
    } else {
      HistoryEvent(g, s, step, first);
    }
  }

  lemma {:induction false} RunInv(g: Geometry, s: State, steps: seq<Step>, first: Disk)
    requires Safe(g, s) && History(s, first) && Runs(g, s, steps) && Spaced(g, s, steps)
    ensures Safe(g, Final(g, s, steps)) && History(Final(g, s, steps), first)
    ensures s.groups <= Final(g, s, steps).groups
    decreases |steps|
  {
    if steps != [] {
      StepInv(g, s, steps[0]);
      HistoryStep(g, s, steps[0], first);
      RunInv(g, Exec(g, s, steps[0]), steps[1..], first);
    }
  }

  // ---- Main results -------------------------------------------------------------------------

  lemma {:induction false} InstalledHolds(g: Geometry, d: Disk, st: Disk, k: nat)
    requires Recovers(g, d, st) && k <= |Header(d[g.start])|
    ensures HalfInstalled(g, Installed(g, d, Header(d[g.start]), k), Header(d[g.start]), k, st)
  {
    if k > 0 {
      InstalledHolds(g, d, st, k - 1);
      InstallOnDisk(g, Installed(g, d, Header(d[g.start]), k - 1), Header(d[g.start]), k - 1, st);
    }
  }

  /** recover_from_log, run to its end, gives the committed store and an empty log. */
  lemma RecoveryGives(g: Geometry, d: Disk, st: Disk)
    requires Recovers(g, d, st)
    ensures SameHome(g, Recovered(g, d), st) && HeaderIs(g, Recovered(g, d), [])
  {
    var lh := Header(d[g.start]);
    InstalledHolds(g, d, st, |lh|);
    var done := Installed(g, d, lh, |lh|);
    HeaderRoundTrip(done[g.start], []);
    forall b | 0 <= b < g.blocks && g.Home(b) ensures Recovered(g, d)[b] == st[b] {
      if b in lh {
        var i :| 0 <= i < |lh| && lh[i] == b;
      }
    }
  }

  /**
   * Crash atomicity. After any run from a formatted disk, with any interleaving of operations and any
   * number of crashes (inside recovery too), recovering from the disk as it stands gives exactly the commit groups
   * whose header write finished, each made of whole operations; and every group that was committed at an earlier
   * point of the run is still among them. The geometry has room, or no two size tests of log_write overlap.
   */
  lemma CrashAtomicity(g: Geometry, s: State, before: seq<Step>, after: seq<Step>)
    requires Init(g, s) && Runs(g, s, before + after) && Spaced(g, s, before + after)
    ensures Runs(g, s, before)
    ensures
      var now := Final(g, s, before + after);
      && Readable(g, now.disk)
      && SameHome(g, Recovered(g, now.disk), ReplayAll(s.disk, now.groups))
      && (forall i | 0 <= i < |now.groups| :: Whole(now.groups[i]))
      && Final(g, s, before).groups <= now.groups
  {
    InitSafe(g, s);
    RunsPrefix(g, s, before, after);
    SerialAppend(g, s, before, after);
    RunsAppend(g, s, before, after);
    RunInv(g, s, before, s.disk);
    var mid := Final(g, s, before);
    RunInv(g, mid, after, s.disk);
    var now := Final(g, s, before + after);
    SafeRecovers(g, now);
    RecoveryGives(g, now.disk, now.base);
  }

  lemma {:induction false} RunsPrefix(g: Geometry, s: State, before: seq<Step>, after: seq<Step>)
    requires g.Valid() && Runs(g, s, before + after)
    ensures Runs(g, s, before)
    decreases |before|
  {
    if before != [] {
      assert (before + after)[0] == before[0] && (before + after)[1..] == before[1..] + after;
      RunsPrefix(g, Exec(g, s, before[0]), before[1..], after);
    }
  }

  /**
   * Coherence. In every reachable state whatever bread is allowed to look at, and nobody is half way through
   * changing, is the last logged write; and what the uncommitted log lists is pinned in the cache.
   */
  lemma ReadsLastWrite(g: Geometry, s: State, steps: seq<Step>, p: nat, b: nat)
    requires Init(g, s) && Runs(g, s, steps) && Spaced(g, s, steps)
    requires Enabled(g, Final(g, s, steps), Bread(p, b))
    ensures
      var now := Final(g, s, steps);
      && Seen(now, b) == Replay(ReplayAll(s.disk, now.groups), now.pending)[b]
      && ((now.phase.Idle? || now.phase.WritingLog?) && b in now.lh ==> !Enabled(g, now, Evict(b)))
  {
    InitSafe(g, s);
    RunInv(g, s, steps, s.disk);
  }
}
