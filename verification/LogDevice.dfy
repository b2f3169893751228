/**
 * log.c itself: the loops over the log header, each disk write being one step of LogProtocol. Where the committing
 * process has to wait for a buffer that someone has locked, or finds no buffer left, its loop stops and says so; it can
 * be called again to go on from there.
 */
module LogDevice {
  import opened Blocks
  import opened LogProtocol
  import opened LogReserve
  import opened LogSafety

  function Repeat(step: Step, k: nat): seq<Step> {
    seq(k, _ => step)
  }

  /** The disk writes of one commit of `n` blocks. */
  function CommitSteps(n: nat): seq<Step> {
    if n == 0 then [CommitNothing]
    else Repeat(CopyToLog, n) + [WriteCommitHead] + Repeat(InstallOne, n) + [ClearHead]
  }

  /** What is left of a commit, or of a recovery, of `n` blocks in phase `phase`. */
  function Rest(phase: Phase, n: nat): seq<Step> {
    match phase
    case WritingLog(t) =>
      if n == 0 then [CommitNothing]
      else if t > n then []
      else Repeat(CopyToLog, n - t) + [WriteCommitHead] + Repeat(InstallOne, n) + [ClearHead]
    case Installing(t, _) => if t > n then [] else Repeat(InstallOne, n - t) + [ClearHead]
    case _ => []
  }

  predicate OfCommit(step: Step) {
    step.CommitNothing? || step.CopyToLog? || step.WriteCommitHead? || step.InstallOne? || step.ClearHead?
  }

  lemma RepeatFirst(step: Step, k: nat)
    requires k > 0
    ensures Repeat(step, k) == [step] + Repeat(step, k - 1)
  {
  }

  lemma RestCopy(t: nat, n: nat)
    requires t < n
    ensures Rest(WritingLog(t), n) == [CopyToLog] + Rest(WritingLog(t + 1), n)
  {
    RepeatFirst(CopyToLog, n - t);
  }

  lemma RestHead(n: nat)
    requires 0 < n
    ensures Rest(WritingLog(n), n) == [WriteCommitHead] + Rest(Installing(0, false), n)
  {
  }

  lemma RestInstall(t: nat, n: nat, boot: bool)
    requires t < n
    ensures Rest(Installing(t, boot), n) == [InstallOne] + Rest(Installing(t + 1, boot), n)
  {
    RepeatFirst(InstallOne, n - t);
  }

  /** A step of a commit is the first of what is left. */
  lemma RestStep(g: Geometry, s: State, step: Step)
    requires g.Valid() && Enabled(g, s, step) && OfCommit(step)
    ensures var s' := Exec(g, s, step); Rest(s.phase, |s.lh|) == [step] + Rest(s'.phase, |s'.lh|)
  {
    var n := |s.lh|;
    match step
    case CopyToLog => RestCopy(s.phase.tail, n);
    case WriteCommitHead => RestHead(n);
    case InstallOne => RestInstall(s.phase.tail, n, s.phase.boot);
    case _ =>
  }

  /** A run without its evictions. */
  function Sans(steps: seq<Step>): seq<Step> {
    if steps == [] then []
    else
      var before, last := Sans(steps[..|steps| - 1]), steps[|steps| - 1];
      if last.Evict? then before else before + [last]
  }

  lemma SansOne(steps: seq<Step>, step: Step)
    ensures Sans(steps + [step]) == if step.Evict? then Sans(steps) else Sans(steps) + [step]
  {
    assert (steps + [step])[..|steps|] == steps;
  }

  lemma PlanOne(done: seq<Step>, step: Step, left: seq<Step>)
    ensures done + [step] + left == done + ([step] + left)
  {
  }

  /** The run grew by steps of the commit and evictions only. */
  predicate Grown(before: seq<Step>, steps: seq<Step>) {
    before <= steps && forall i | |before| <= i < |steps| :: OfCommit(steps[i]) || steps[i].Evict?
  }

  predicate InCommit(phase: Phase) {
    phase.WritingLog? || phase.Finishing? || (phase.Installing? && !phase.boot)
  }

  /** Blocks whose buffers bget may not recycle. */
  function Busy(cache: map<nat, Buf>): set<nat> {
    set b | b in cache && (cache[b].dirty || cache[b].holder != NoOne)
  }

  /** Blocks whose buffers it may, not counting `keep`. */
  function Clean(cache: map<nat, Buf>, keep: set<nat>): set<nat> {
    set b | b in cache && b !in keep && !cache[b].dirty && cache[b].holder == NoOne
  }

  // ---- What holds in every run, whatever the geometry ---------------------------------------

  /** The log lists home blocks, in memory and on disk, and the header's buffer is as the header. */
  ghost predicate Listing(g: Geometry, s: State) {
    && g.Valid() && |s.disk| == |s.base| == |s.cur| == g.blocks && (forall b | b in s.lh :: g.Home(b))
    && HeaderOk(s.disk[g.start]) && (forall b | b in Header(s.disk[g.start]) :: g.Home(b))
    && (g.start in s.cache ==> s.cache[g.start].data == s.disk[g.start])
  }

  /** Only home blocks are locked; nothing is locked or pinned before recovery is done; tails are in range. */
  ghost predicate Kept(g: Geometry, s: State) {
    && (forall b | b in s.cache && s.cache[b].holder.Held? :: g.Home(b))
    && (s.phase.Booting? ==> s.cache == map[] && s.lh == [])
    && (s.phase.Installing? && s.phase.boot ==> Busy(s.cache) == {})
    && (s.phase.WritingLog? || s.phase.Installing? ==> s.phase.tail <= |s.lh|)
  }

  lemma ListingOther(g: Geometry, s: State, step: Step)
    requires Listing(g, s) && Kept(g, s) && |s.lh| <= LOGSIZE && Enabled(g, s, step) && !OfCommit(step)
      && !step.ReadHead?
    ensures Listing(g, Exec(g, s, step))
  {
  }

  lemma ListingMove(g: Geometry, s: State, step: Step)
    requires Listing(g, s) && Enabled(g, s, step) && (step.CopyToLog? || step.InstallOne?)
    ensures Listing(g, Exec(g, s, step))
  {
    var home := s.lh[s.phase.tail];
    assert home in s.lh && home != g.start && g.Slot(s.phase.tail) != g.start;
  }

  lemma ListingHead(g: Geometry, s: State, step: Step)
    requires Listing(g, s) && |s.lh| <= LOGSIZE && Enabled(g, s, step)
    requires step.CommitNothing? || step.WriteCommitHead? || step.ClearHead? || step.ReadHead?
    ensures Listing(g, Exec(g, s, step))
  {
    HeaderRoundTrip(Seen(s, g.start), []);
    if step.WriteCommitHead? {
      HeaderRoundTrip(Seen(s, g.start), s.lh);
    }
  }

  lemma KeptStep(g: Geometry, s: State, step: Step)
    requires Listing(g, s) && Kept(g, s) && Reserved(s) && Enabled(g, s, step)
    ensures Kept(g, Exec(g, s, step))
  {
  }

  ghost predicate Regular(g: Geometry, s: State) {
    Listing(g, s) && Kept(g, s) && Reserved(s) && Fits(g, s)
  }

  lemma RegularStep(g: Geometry, s: State, step: Step)
    requires Regular(g, s) && Can(g, s, step)
    ensures Regular(g, Exec(g, s, step))
  {
    ReservedStep(g, s, step);
    KeptStep(g, s, step);
    if step.CopyToLog? || step.InstallOne? {
      ListingMove(g, s, step);
    } else if OfCommit(step) || step.ReadHead? {
      ListingHead(g, s, step);
    } else {
      ListingOther(g, s, step);
    }
  }

  lemma {:induction false} RegularRun(g: Geometry, s: State, steps: seq<Step>)
    requires Regular(g, s) && Runs(g, s, steps)
    ensures Regular(g, Final(g, s, steps))
    decreases |steps|
  {
    if steps != [] {
      RegularStep(g, s, steps[0]);
      RegularRun(g, Exec(g, s, steps[0]), steps[1..]);
    }
  }

  // ---- The buffers of the committing process ------------------------------------------------

  /** Why the committing process stops. */
  datatype Stop =
    | Done
    | Waits(b: nat)      // in acquiresleep, for whoever has the block locked, be it itself
    | NoBuffers          // bget panics
    | OutOfRange         // iderw panics: the slot is behind the end of the disk

  /** It is the reason why the committing process cannot go on now. */
  ghost predicate Stopped(g: Geometry, s: State, stop: Stop) {
    && (s.phase.WritingLog? || s.phase.Installing?)
    && var tail := s.phase.tail;
       match stop
       case Done => true
       case Waits(b) =>
         tail < |s.lh| && b in {s.lh[tail], g.Slot(tail)} && (!Unheld(s, b) || s.lh[tail] == g.Slot(tail))
       case NoBuffers => |Busy(s.cache) + if tail < |s.lh| then {s.lh[tail], g.Slot(tail)} else {g.start}| > g.nbuf
       case OutOfRange => tail < |s.lh| && g.Slot(tail) >= g.blocks
  }

  lemma HeadIs(g: Geometry, s: State)
    requires g.Valid() && Enabled(g, s, WriteCommitHead)
    ensures
      var s', hb := Exec(g, s, WriteCommitHead), PutHeader(Seen(s, g.start), s.lh);
      && s'.disk == s.disk[g.start := hb] && s'.cache == s.cache[g.start := Buf(hb, false, NoOne)] && s'.lh == s.lh
      && s'.ops == s.ops && s'.phase == Installing(0, false)
  {
  }

  lemma BusyFew(cache: map<nat, Buf>, keep: set<nat>)
    requires Clean(cache, keep) == {}
    ensures cache.Keys + keep == Busy(cache) + keep
  {
    forall b | b in cache.Keys ensures b in Busy(cache) + keep {
      assert b !in Clean(cache, keep);
    }
  }

  lemma BusyKept(cache: map<nat, Buf>, b: nat)
    requires b in Clean(cache, {})
    ensures Busy(cache - {b}) == Busy(cache)
  {
  }

  /** Nobody has block `b` locked and it is logged: moving it needs one buffer more than are busy. */
  lemma MoveNeeds(busy: set<nat>, home: nat, slot: nat, nbuf: nat)
    requires |busy| < nbuf && 2 <= nbuf && (home in busy || busy == {})
    ensures |busy + {home, slot}| <= nbuf
  {
    if home in busy {
      assert busy + {home, slot} == busy + {slot};
    } else {
      assert busy + {home, slot} == {home, slot};
    }
  }

  lemma Begun(g: Geometry, s: State, p: nat)
    requires g.Valid() && p !in s.ops && Enabled(g, s, BeginOp(p))
    ensures var s' := Exec(g, s, BeginOp(p));
            s' == s.(ops := s'.ops, pending := s'.pending) && |s'.ops| == |s.ops| + 1
  {
    assert Exec(g, s, BeginOp(p)).ops.Keys == s.ops.Keys + {p};
  }

  /** The commit goes through: the log is sound, nobody has a logged block locked, and a buffer is left. */
  ghost predicate Clear(g: Geometry, s: State) {
    Inv(g, s) && (forall b | b in s.lh :: Unheld(s, b)) && |Busy(s.cache)| < g.nbuf
  }

  /** Evicting keeps that. */
  lemma ClearEvict(g: Geometry, s: State, b: nat)
    requires Clear(g, s) && Enabled(g, s, Evict(b))
    ensures Clear(g, Exec(g, s, Evict(b)))
  {
    EvictStep(g, s, b);
    BusyKept(s.cache, b);
  }

  lemma MoveBusy(g: Geometry, s: State, step: Step)
    requires Inv(g, s) && Enabled(g, s, step) && (step.CopyToLog? || step.InstallOne?)
    ensures Busy(Exec(g, s, step).cache) <= Busy(s.cache)
  {
  }

  lemma HeadBusy(g: Geometry, s: State, step: Step)
    requires g.Valid() && Enabled(g, s, step) && OfCommit(step) && !step.CopyToLog? && !step.InstallOne?
    ensures Busy(Exec(g, s, step).cache) <= Busy(s.cache)
  {
  }

  lemma MoveUnheld(g: Geometry, s: State, step: Step)
    requires g.Valid() && Enabled(g, s, step) && OfCommit(step) && forall b | b in s.lh :: Unheld(s, b)
    ensures var s' := Exec(g, s, step); forall b | b in s'.lh :: Unheld(s', b)
  {
  }

  /** So do the steps of a commit. */
  lemma ClearCommit(g: Geometry, s: State, step: Step)
    requires Clear(g, s) && Enabled(g, s, step) && OfCommit(step)
    ensures Clear(g, Exec(g, s, step))
  {
    StepKeeps(g, s, step);
    MoveUnheld(g, s, step);
    if step.CopyToLog? || step.InstallOne? {
      MoveBusy(g, s, step);
    } else {
      HeadBusy(g, s, step);
    }
    SubsetFew(Busy(Exec(g, s, step).cache), Busy(s.cache));
  }

  /** A clear commit has no reason to stop. */
  lemma ClearGoesOn(g: Geometry, s: State, stop: Stop)
    requires Clear(g, s) && Kept(g, s) && Stopped(g, s, stop)
    ensures stop.Done?
  {
    var tail := s.phase.tail;
    if tail < |s.lh| {
      var home, slot := s.lh[tail], g.Slot(tail);
      assert home in s.lh && !g.Home(slot);
      MoveNeeds(Busy(s.cache), home, slot, g.nbuf);
    }
  }

  lemma {:induction false} ClearRun(g: Geometry, s: State, steps: seq<Step>)
    requires Clear(g, s) && Runs(g, s, steps) && forall i | 0 <= i < |steps| :: OfCommit(steps[i]) || steps[i].Evict?
    ensures Clear(g, Final(g, s, steps))
    decreases |steps|
  {
    if steps != [] {
      if steps[0].Evict? {
        ClearEvict(g, s, steps[0].b);
      } else {
        ClearCommit(g, s, steps[0]);
      }
      ClearRun(g, Exec(g, s, steps[0]), steps[1..]);
    }
  }

  lemma GrownClear(g: Geometry, first: State, before: seq<Step>, steps: seq<Step>)
    requires g.Valid() && Runs(g, first, before) && Runs(g, first, steps) && Grown(before, steps)
    requires Clear(g, Final(g, first, before))
    ensures Clear(g, Final(g, first, steps))
  {
    var more := steps[|before|..];
    assert steps == before + more;
    RunsAppend(g, first, before, more);
    ClearRun(g, Final(g, first, before), more);
  }

  class Log {
    const g: Geometry
    var disk: Disk
    var cache: map<nat, Buf>
    var n: nat
    const block: array<nat>
    var outstanding: nat
    var committing: bool

    // The run so far, from a formatted disk, and where it has led.
    ghost const first: State
    ghost var steps: seq<Step>
    ghost var now: State

    /** The history is a run of LogProtocol and leads to `now`. */
    ghost predicate OnRun()
      reads this
    {
      Init(g, first) && Runs(g, first, steps) && now == Final(g, first, steps)
    }

    /** Disk and memory are what the run leads to. */
    ghost predicate Coupled()
      reads this, block
    {
      && block.Length == LOGSIZE && n <= LOGSIZE
      && now.disk == disk && now.cache == cache && now.lh == block[..n]
      && |now.ops| == outstanding && InCommit(now.phase) == committing
    }

    ghost predicate Valid()
      reads this, block
    {
      OnRun() && Coupled()
    }

    /** What the run has done, evictions aside, and what is left of the commit or recovery at hand. */
    ghost function Plan(): seq<Step>
      reads this
    {
      Sans(steps) + Rest(now.phase, n)
    }

    lemma Known()
      requires OnRun()
      ensures Regular(g, now)
    {
      RegularRun(g, first, steps);
    }

    /** If the geometry has room or the size tests came one at a time. */
    lemma KnownSafe()
      requires OnRun() && Spaced(g, first, steps)
      ensures Safe(g, now) && History(now, first.disk)
    {
      InitSafe(g, first);
      RunInv(g, first, steps, first.disk);
    }

    /** A machine that has just come up on a disk some run left behind. */
    constructor (g: Geometry, ghost first: State, ghost steps: seq<Step>, disk: Disk)
      requires Init(g, first) && Runs(g, first, steps)
      requires Final(g, first, steps).disk == disk && Final(g, first, steps).phase.Booting?
      ensures Valid() && this.g == g && this.first == first && this.steps == steps
      ensures fresh(block)
    {
      this.g, this.first, this.steps, this.disk := g, first, steps, disk;
      now := Final(g, first, steps);
      cache, n, outstanding, committing := map[], 0, 0, false;
      block := new nat[LOGSIZE](_ => 0);
      new;
      Known();
    }

    /** `now` has moved on by one step from `before`: the run grows by it. */
    ghost method Record(step: Step, before: State)
      requires Init(g, first) && Runs(g, first, steps) && before == Final(g, first, steps)
      requires Can(g, before, step) && now == Exec(g, before, step)
      modifies this`steps
      ensures OnRun() && steps == old(steps) + [step]
      ensures Sans(steps) == if step.Evict? then Sans(old(steps)) else Sans(old(steps)) + [step]
    {
      Further(g, first, steps, step);
      SansOne(steps, step);
      steps := steps + [step];
    }

    /** bget: buffers for `blocks`, recycling clean ones that nobody has locked; false if there are too few. */
    method MakeRoom(blocks: set<nat>) returns (ok: bool)
      requires Valid()
      modifies this`cache, this`steps, this`now
      ensures Valid() && Sans(steps) == Sans(old(steps)) && now == old(now).(cache := cache)
      ensures Busy(cache) == Busy(old(cache))
      ensures ok <==> |Busy(cache) + blocks| <= g.nbuf
      ensures ok ==> |cache.Keys + blocks| <= g.nbuf
      ensures forall b :: Unheld(now, b) <==> Unheld(old(now), b)
      ensures Grown(old(steps), steps)
    {
      while |cache.Keys + blocks| > g.nbuf
        invariant Valid() && Sans(steps) == Sans(old(steps)) && now == old(now).(cache := cache)
        invariant Busy(cache) == Busy(old(cache))
        invariant forall b :: Unheld(now, b) <==> Unheld(old(now), b)
        invariant Grown(old(steps), steps)
        decreases |cache|
      {
        var clean := Clean(cache, blocks);
        if clean == {} {
          BusyFew(cache, blocks);
          return false;
        }
        var b :| b in clean;
        Recycle(b);
      }
      SubsetFew(Busy(cache) + blocks, cache.Keys + blocks);
      return true;
    }

    method Recycle(b: nat)
      requires Valid() && b in Clean(cache, {})
      modifies this`cache, this`steps, this`now
      ensures Valid() && Sans(steps) == Sans(old(steps)) && now == old(now).(cache := cache)
      ensures Busy(cache) == Busy(old(cache)) && |cache| < |old(cache)|
      ensures forall c :: Unheld(now, c) <==> Unheld(old(now), c)
      ensures steps == old(steps) + [Evict(b)]
    {
      Known();
      BusyKept(cache, b);
      ghost var before := now;
      cache := cache - {b};
      assert cache.Keys == old(cache).Keys - {b};
      now := Exec(g, now, Evict(b));
      Record(Evict(b), before);
    }

    /** bread: the block's data, read from the disk on a miss. */
    method Read(b: nat) returns (data: Block)
      requires b < |disk|
      modifies this`cache
      ensures cache == old(cache)[b := if b in old(cache) then old(cache[b]) else Buf(disk[b], false, NoOne)]
      ensures data == cache[b].data
    {
      if b !in cache {
        cache := cache[b := Buf(disk[b], false, NoOne)];
      }
      data := cache[b].data;
    }

    /** memmove into a buffer got by bread, then bwrite. */
    method Write(b: nat, data: Block)
      requires b < |disk|
      modifies this`cache, this`disk
      ensures disk == old(disk)[b := data] && cache == old(cache)[b := Buf(data, false, NoOne)]
    {
      disk := disk[b := data];
      cache := cache[b := Buf(data, false, NoOne)];
    }

    /** The body of the loops of write_log and install_trans. */
    method Transfer(from: nat, to: nat)
      requires now.disk == disk && now.cache == cache && from < |disk| && to < |disk| && from != to
      modifies this`cache, this`disk
      ensures disk == Moved(now, from, to).disk && cache == Moved(now, from, to).cache
    {
      var data := Read(from);
      var _ := Read(to);
      Write(to, data);
      assert cache == Moved(now, from, to).cache;
    }

    /** The loop at log.c:92. */
    method CopyHeader(buf: Block)
      requires block.Length == LOGSIZE && HeaderOk(buf)
      modifies this`n, block
      ensures n <= LOGSIZE && block[..n] == Header(buf)
    {
      n := Word(buf, 0);
      for i := 0 to n
        modifies block
        invariant forall j | 0 <= j < i :: block[j] == Word(buf, 1 + j)
      {
        block[i] := Word(buf, 1 + i);
      }
      assert block[..n] == Header(buf);
    }

    /** log.c:84. */
    method ReadLogHead()
      requires Coupled() && g.Valid() && Enabled(g, now, ReadHead)
      modifies this`cache, this`now, this`n, block
      ensures Coupled() && now == Exec(g, old(now), ReadHead)
    {
      var buf := Read(g.start);
      CopyHeader(buf);
      now := Exec(g, now, ReadHead);
    }

    /** log.c:98: the in-memory header goes to disk in one block write. */
    method WriteLogHead()
      requires block.Length == LOGSIZE && n <= LOGSIZE && g.Valid() && |disk| == g.blocks
      requires forall i | 0 <= i < n :: block[i] < WORD
      modifies this`cache, this`disk
      ensures
        var old' := if g.start in old(cache) then old(cache[g.start].data) else old(disk[g.start]);
        var hb := PutHeader(old', block[..n]);
        disk == old(disk)[g.start := hb] && cache == old(cache)[g.start := Buf(hb, false, NoOne)]
    {
      var was := Read(g.start);
      var hb := PutWord(was, 0, n);
      ghost var lh := block[..n];
      for i := 0 to n
        invariant hb == PutEntries(was, lh, i)
      {
        hb := PutWord(hb, 1 + i, block[i]);
      }
      Write(g.start, hb);
    }

    lemma CanMove(tail: nat, home: nat, slot: nat)
      requires Valid() && (now.phase.WritingLog? || now.phase.Installing?) && now.phase.tail == tail < n
      requires home == block[tail] && slot == g.Slot(tail)
      ensures g.Valid() && |disk| == |now.cur| == g.blocks && home == now.lh[tail] < g.blocks && home != g.start
      ensures now.phase.Installing? && now.phase.boot ==> Busy(cache) == {}
    {
      Known();
      assert now.lh[tail] == block[tail] && now.lh[tail] in now.lh;
    }

    /** Buffers for one round: both blocks are on the disk, nobody has them locked, and bget has room. */
    method Prepare(tail: nat, home: nat, slot: nat) returns (stop: Stop)
      requires Valid() && (now.phase.WritingLog? || now.phase.Installing?) && now.phase.tail == tail < n
      requires home == block[tail] && slot == g.Slot(tail)
      modifies this`cache, this`steps, this`now
      ensures Valid() && Plan() == old(Plan()) && now == old(now).(cache := cache) && Stopped(g, now, stop)
      ensures stop.Done? ==> slot < |disk| && slot != home && Unheld(now, home) && Unheld(now, slot)
      ensures stop.Done? ==> |cache.Keys + {home, slot}| <= g.nbuf
      ensures Grown(old(steps), steps)
    {
      CanMove(tail, home, slot);
      if slot >= |disk| {
        return OutOfRange;
      }
      if slot in cache && cache[slot].holder.Held? {
        return Waits(slot);
      }
      if home == slot || (home in cache && cache[home].holder.Held?) {
        return Waits(home);
      }
      var ok := MakeRoom({home, slot});
      stop := if ok then Done else NoBuffers;
    }

    /** `now` moves on by a step of the commit for which there are buffers. */
    ghost method Advance(step: Step, before: State)
      requires OfCommit(step) && Init(g, first) && Runs(g, first, steps) && before == Final(g, first, steps)
      requires Can(g, before, step) && now == Exec(g, before, step) && n == |now.lh|
      modifies this`steps
      ensures OnRun() && Plan() == Sans(old(steps)) + Rest(before.phase, |before.lh|)
      ensures Grown(old(steps), steps)
    {
      RestStep(g, before, step);
      Record(step, before);
      PlanOne(Sans(old(steps)), step, Rest(now.phase, n));
      assert Rest(before.phase, |before.lh|) == [step] + Rest(now.phase, n);
    }

    lemma MoveFits(step: Step, home: nat, slot: nat)
      requires Coupled() && g.Valid() && Enabled(g, now, step) && (step.CopyToLog? || step.InstallOne?)
      requires home == now.lh[now.phase.tail] && slot == g.Slot(now.phase.tail) && |cache.Keys + {home, slot}| <= g.nbuf
      ensures Can(g, now, step)
    {
      assert Exec(g, now, step).cache.Keys == cache.Keys + {home, slot};
    }

    /** Block `tail` goes to the log. */
    method Copy(tail: nat, home: nat, slot: nat)
      requires Valid() && g.Valid() && Can(g, now, CopyToLog) && now.phase == WritingLog(tail)
      requires tail < |now.lh| && home == now.lh[tail] && slot == g.Slot(tail)
      modifies this`cache, this`disk, this`steps, this`now
      ensures Valid() && Plan() == old(Plan()) && Grown(old(steps), steps) && now.phase == WritingLog(tail + 1)
    {
      ghost var before := now;
      Transfer(home, slot);
      now := Exec(g, now, CopyToLog);
      Advance(CopyToLog, before);
    }

    /** One round of the loop at log.c:182. */
    method CopyRound(tail: nat) returns (stop: Stop)
      requires Valid() && now.phase == WritingLog(tail) && tail < n
      modifies this`cache, this`disk, this`steps, this`now
      ensures Valid() && Plan() == old(Plan()) && Stopped(g, now, stop)
      ensures now.phase == WritingLog(if stop.Done? then tail + 1 else tail)
      ensures Grown(old(steps), steps)
    {
      var home, slot := block[tail], g.Slot(tail);
      stop := Prepare(tail, home, slot);
      if stop.Done? {
        CanMove(tail, home, slot);
        MoveFits(CopyToLog, home, slot);
        Copy(tail, home, slot);
      }
    }

    /** log.c:176, from block `from` on. */
    method CopyLog(from: nat) returns (stop: Stop)
      requires Valid() && now.phase == WritingLog(from)
      modifies this`cache, this`disk, this`steps, this`now
      ensures Valid() && Plan() == old(Plan()) && Stopped(g, now, stop) && now.phase.WritingLog?
      ensures from <= now.phase.tail <= n && (stop.Done? <==> now.phase.tail == n)
      ensures Grown(old(steps), steps)
    {
      Known();
      stop := Done;
      var tail := from;
      while tail < n && stop.Done?
        invariant Valid() && Plan() == old(Plan()) && Stopped(g, now, stop) && now.phase == WritingLog(tail)
        invariant from <= tail <= n && (!stop.Done? ==> tail < n)
        invariant Grown(old(steps), steps)
        decreases n - tail, stop.Done?
      {
        stop := CopyRound(tail);
        if stop.Done? {
          tail := tail + 1;
        }
      }
    }

    /** Block `tail` goes home. */
    method Install(tail: nat, home: nat, slot: nat)
      requires Valid() && g.Valid() && Can(g, now, InstallOne) && now.phase.Installing? && now.phase.tail == tail
      requires tail < |now.lh| && home == now.lh[tail] && slot == g.Slot(tail)
      modifies this`cache, this`disk, this`steps, this`now
      ensures Valid() && Plan() == old(Plan()) && Grown(old(steps), steps)
      ensures now.phase == Installing(tail + 1, old(now.phase.boot)) && now.groups == old(now.groups)
        && now.base == old(now.base)
    {
      ghost var before := now;
      Transfer(slot, home);
      now := Exec(g, now, InstallOne);
      Advance(InstallOne, before);
    }

    /** One round of the loop at log.c:74. */
    method InstallRound(tail: nat) returns (stop: Stop)
      requires Valid() && now.phase.Installing? && now.phase.tail == tail < n
      modifies this`cache, this`disk, this`steps, this`now
      ensures Valid() && Plan() == old(Plan()) && Stopped(g, now, stop) && now.groups == old(now.groups)
        && now.base == old(now.base)
      ensures now.phase == Installing(if stop.Done? then tail + 1 else tail, old(now.phase.boot))
      ensures Grown(old(steps), steps)
    {
      var home, slot := block[tail], g.Slot(tail);
      stop := Prepare(tail, home, slot);
      if stop.Done? {
        CanMove(tail, home, slot);
        MoveFits(InstallOne, home, slot);
        Install(tail, home, slot);
      }
    }

    /** log.c:68, from block `from` on. */
    method InstallTrans(from: nat) returns (stop: Stop)
      requires Valid() && now.phase.Installing? && now.phase.tail == from
      modifies this`cache, this`disk, this`steps, this`now
      ensures Valid() && Plan() == old(Plan()) && Stopped(g, now, stop) && now.groups == old(now.groups)
        && now.base == old(now.base)
      ensures now.phase.Installing? && now.phase.boot == old(now.phase.boot)
      ensures from <= now.phase.tail <= n && (stop.Done? <==> now.phase.tail == n)
      ensures Grown(old(steps), steps)
    {
      Known();
      stop := Done;
      var tail := from;
      while tail < n && stop.Done?
        invariant Valid() && Plan() == old(Plan()) && Stopped(g, now, stop) && now.groups == old(now.groups)
          && now.base == old(now.base)
        invariant now.phase == Installing(tail, old(now.phase.boot))
        invariant from <= tail <= n && (!stop.Done? ==> tail < n)
        invariant Grown(old(steps), steps)
        decreases n - tail, stop.Done?
      {
        stop := InstallRound(tail);
        if stop.Done? {
          tail := tail + 1;
        }
      }
    }

    /** The header can be written. */
    lemma CanWriteHead()
      requires Valid()
      ensures g.Valid() && |disk| == |now.cur| == g.blocks && Encodable(block[..n]) && Encodable([])
    {
      Known();
      forall i | 0 <= i < n ensures block[i] < WORD {
        assert now.lh[i] == block[i] && now.lh[i] in now.lh;
      }
    }

    lemma HeadFits(step: Step)
      requires Coupled() && g.Valid() && Enabled(g, now, step) && (step.WriteCommitHead? || step.ClearHead?)
      requires |cache.Keys + {g.start}| <= g.nbuf
      ensures Can(g, now, step)
    {
      assert Exec(g, now, step).cache.Keys == cache.Keys + {g.start};
    }

    method StoreHead()
      requires Coupled() && g.Valid() && Enabled(g, now, WriteCommitHead)
      modifies this`cache, this`disk, this`now
      ensures Coupled() && now == Exec(g, old(now), WriteCommitHead)
    {
      HeadIs(g, now);
      WriteLogHead();
      now := Exec(g, now, WriteCommitHead);
    }

    method WriteCommit()
      requires Valid() && g.Valid() && Can(g, now, WriteCommitHead) && now.phase == WritingLog(n)
      modifies this`cache, this`disk, this`steps, this`now
      ensures Valid() && Plan() == old(Plan()) && Grown(old(steps), steps) && now.phase == Installing(0, false)
    {
      ghost var before := now;
      StoreHead();
      Advance(WriteCommitHead, before);
    }

    /** write_head, which commits. */
    method CommitHead() returns (stop: Stop)
      requires Valid() && now.phase == WritingLog(n) && n > 0
      modifies this`cache, this`disk, this`steps, this`now
      ensures Valid() && Plan() == old(Plan()) && Stopped(g, now, stop)
      ensures now.phase == if stop.Done? then Installing(0, false) else WritingLog(n)
      ensures Grown(old(steps), steps)
    {
      CanWriteHead();
      var ok := MakeRoom({g.start});
      if !ok {
        return NoBuffers;
      }
      CanWriteHead();
      HeadFits(WriteCommitHead);
      WriteCommit();
      stop := Done;
    }

    method EraseHead()
      requires Coupled() && g.Valid() && Enabled(g, now, ClearHead)
      modifies this`cache, this`disk, this`now, this`n
      ensures Coupled() && now == Exec(g, old(now), ClearHead) && n == 0
    {
      n := 0;
      assert block[..n] == [];
      WriteLogHead();
      now := Exec(g, now, ClearHead);
    }

    method WriteClear()
      requires Valid() && g.Valid() && Can(g, now, ClearHead)
      modifies this`cache, this`disk, this`steps, this`now, this`n
      ensures Valid() && Plan() == old(Plan()) && Grown(old(steps), steps) && n == 0
      ensures now == Exec(g, old(now), ClearHead)
    {
      ghost var before := now;
      EraseHead();
      Advance(ClearHead, before);
    }

    /** `log.lh.n = 0; write_head();` */
    method EraseLog() returns (stop: Stop)
      requires Valid() && now.phase.Installing? && now.phase.tail == n
      modifies this`cache, this`disk, this`steps, this`now, this`n
      ensures Valid() && Plan() == old(Plan()) && now.groups == old(now.groups) && now.base == old(now.base)
      ensures stop.Done? ==> n == 0 && now.phase == if old(now.phase.boot) then Idle else Finishing
      ensures !stop.Done? ==> n == old(n) && now.phase == old(now.phase) && Stopped(g, now, stop)
      ensures Grown(old(steps), steps)
    {
      CanWriteHead();
      var ok := MakeRoom({g.start});
      if !ok {
        return NoBuffers;
      }
      CanWriteHead();
      HeadFits(ClearHead);
      WriteClear();
      stop := Done;
    }

    /** A commit of nothing. */
    method CommitEmpty()
      requires Valid() && now.phase == WritingLog(0) && n == 0
      modifies this`steps, this`now
      ensures Valid() && Plan() == old(Plan()) && Grown(old(steps), steps) && now.phase.Finishing?
    {
      Known();
      ghost var before := now;
      now := Exec(g, now, CommitNothing);
      Advance(CommitNothing, before);
    }

    /** log.c:192, between end_op's two locked sections, from where it stopped before. */
    method CommitFrom(at: Phase) returns (stop: Stop)
      requires Valid() && now.phase == at && InCommit(at) && !at.Finishing?
      modifies this`cache, this`disk, this`steps, this`now, this`n
      ensures Valid() && Plan() == old(Plan()) && Grown(old(steps), steps)
      ensures if stop.Done? then now.phase.Finishing? && n == 0
              else InCommit(now.phase) && n == old(n) && Stopped(g, now, stop)
    {
      Known();
      if at.WritingLog? {
        if n == 0 {
          CommitEmpty();
          return Done;
        }
        stop := CopyLog(at.tail);
        if !stop.Done? {
          return;
        }
        stop := CommitHead();
        if !stop.Done? {
          return;
        }
        stop := InstallTrans(0);
      } else {
        stop := InstallTrans(at.tail);
      }
      if stop.Done? {
        stop := EraseLog();
      }
    }

    /** It does not stop if the log is sound, nobody has a logged block locked, and a buffer is left. */
    method Commit(at: Phase) returns (stop: Stop)
      requires Valid() && now.phase == at && InCommit(at) && !at.Finishing?
      modifies this`cache, this`disk, this`steps, this`now, this`n
      ensures Valid() && Plan() == old(Plan())
      ensures if stop.Done? then now.phase.Finishing? && n == 0
              else InCommit(now.phase) && n == old(n) && Stopped(g, now, stop)
      ensures old(Clear(g, now)) ==> stop.Done?
    {
      ghost var before, clear := steps, Clear(g, now);
      stop := CommitFrom(at);
      if clear && !stop.Done? {
        GrownClear(g, first, before, steps);
        Known();
        ClearGoesOn(g, now, stop);
      }
    }

    /** A recovery that has just read the header of a log that no slot left: nothing stops it. */
    lemma BootClear(before: State)
      requires Inv(g, before) && before.phase.Booting? && Can(g, before, ReadHead) && now == Exec(g, before, ReadHead)
      ensures Clear(g, now) && now.base == before.base && now.groups == before.groups
    {
      StepKeeps(g, before, ReadHead);
      assert Busy(now.cache) == {};
    }

    /** After a clear recovery the home blocks are the committed store. */
    lemma Recovered()
      requires Valid() && Inv(g, now) && now.phase.Idle?
      ensures SameHome(g, disk, now.base) && HeaderIs(g, disk, [])
    {
    }

    lemma CanReadHead()
      requires Valid() && now.phase.Booting?
      ensures g.Valid() && Can(g, now, ReadHead)
    {
      Known();
      assert Exec(g, now, ReadHead).cache.Keys == {g.start};
    }

    /** read_head. */
    method Boot()
      requires Valid() && now.phase.Booting?
      modifies this`cache, this`steps, this`now, this`n, block
      ensures Valid() && now.phase == Installing(0, true) && Can(g, old(now), ReadHead)
      ensures now == Exec(g, old(now), ReadHead)
    {
      CanReadHead();
      ghost var before := now;
      ReadLogHead();
      Record(ReadHead, before);
    }

    /** install_trans and the write_head that empties the log. */
    method Replay() returns (stop: Stop)
      requires Valid() && now.phase == Installing(0, true)
      modifies this`cache, this`disk, this`steps, this`now, this`n
      ensures Valid() && Grown(old(steps), steps) && now.base == old(now.base)
      ensures if stop.Done? then now.phase.Idle? && n == 0 else Stopped(g, now, stop)
    {
      stop := InstallTrans(0);
      if stop.Done? {
        stop := EraseLog();
      }
    }

    /**
     * log.c:115. If the geometry has room, or the size tests before came one at a time, it runs to its end, the home
     * blocks become the committed groups applied to the first disk in the order they committed, and the log is empty.
     */
    method RecoverFromLog() returns (stop: Stop)
      requires Valid() && now.phase.Booting?
      modifies this`cache, this`disk, this`steps, this`now, this`n, block
      ensures Valid() && if stop.Done? then now.phase.Idle? && n == 0 else Stopped(g, now, stop)
      ensures Spaced(g, first, old(steps)) ==>
                stop.Done? && SameHome(g, disk, ReplayAll(first.disk, old(now.groups))) && HeaderIs(g, disk, [])
    {
      ghost var start, spaced := now, Spaced(g, first, steps);
      if spaced {
        KnownSafe();
      }
      Boot();
      ghost var before := steps;
      if spaced {
        BootClear(start);
      }
      stop := Replay();
      if spaced {
        GrownClear(g, first, before, steps);
        Known();
        if !stop.Done? {
          ClearGoesOn(g, now, stop);
        }
        Recovered();
      }
    }

    /** One pass of the loop at log.c:129: the operation is admitted, or has to wait for a commit. */
    method TryBeginOp(p: nat) returns (ok: bool)
      requires Valid() && p !in now.ops && (now.phase.Idle? || InCommit(now.phase))
      modifies this`outstanding, this`steps, this`now
      ensures Valid() && ok == (!committing && n + (old(outstanding) + 1) * MAXOPBLOCKS <= LOGSIZE)
      ensures outstanding == old(outstanding) + (if ok then 1 else 0)
      ensures steps == old(steps) + if ok then [BeginOp(p)] else []
    {
      ok := !committing && n + (outstanding + 1) * MAXOPBLOCKS <= LOGSIZE;
      if ok {
        CanBegin(p);
        ghost var before := now;
        Enter(p);
        Record(BeginOp(p), before);
      }
    }

    lemma CanBegin(p: nat)
      requires Valid() && p !in now.ops && (now.phase.Idle? || InCommit(now.phase))
      requires !committing && n + (outstanding + 1) * MAXOPBLOCKS <= LOGSIZE
      ensures g.Valid() && Can(g, now, BeginOp(p))
    {
      Known();
    }

    /** `log.outstanding += 1`. */
    method Enter(p: nat)
      requires Coupled() && p !in now.ops && g.Valid() && Enabled(g, now, BeginOp(p))
      modifies this`outstanding, this`now
      ensures Coupled() && now == Exec(g, old(now), BeginOp(p)) && outstanding == old(outstanding) + 1
    {
      Begun(g, now, p);
      outstanding := outstanding + 1;
      now := Exec(g, now, BeginOp(p));
    }

    /** The absorption scan at log.c:224. */
    method Absorb(b: nat)
      requires block.Length == LOGSIZE && n <= LOGSIZE && (n < LOGSIZE || b in block[..n])
      modifies this`n, block
      ensures n <= LOGSIZE && block[..n] == if b in old(block[..n]) then old(block[..n]) else old(block[..n]) + [b]
    {
      ghost var lh := block[..n];
      var i := 0;
      while i < n && block[i] != b
        invariant i <= n && forall j | 0 <= j < i :: block[j] != b
      {
        i := i + 1;
      }
      assert i < n ==> lh[i] == b;
      assert i == LOGSIZE ==> b !in lh;
      block[i] := b;
      if i == n {
        n := n + 1;
      }
    }

    /** log.c:218, before the lock is taken: false when it panics because the transaction is too big. */
    method TestSpace(p: nat, b: nat) returns (ok: bool)
      requires Valid() && Holds(now, p, b) && p in now.ops && p !in now.passed
      modifies this`steps, this`now
      ensures Valid() && ok == (n < LOGSIZE && n < g.size - 1)
      ensures steps == old(steps) + if ok then [LogTest(p, b)] else []
      ensures now == if ok then old(now).(passed := old(now.passed)[p := b]) else old(now)
    {
      Known();
      if n >= LOGSIZE || n >= g.size - 1 {
        return false;
      }
      ghost var before := now;
      now := Exec(g, now, LogTest(p, b));
      Record(LogTest(p, b), before);
      ok := true;
    }

    method Fetch(p: nat, b: nat)
      requires Coupled() && g.Valid() && Enabled(g, now, Bread(p, b)) && b < |disk|
      modifies this`cache, this`now
      ensures Coupled() && now == Exec(g, old(now), Bread(p, b)) && Holds(now, p, b)
    {
      var _ := Read(b);
      cache := cache[b := cache[b].(holder := Held(p, false))];
      now := Exec(g, now, Bread(p, b));
      assert cache == now.cache;
    }

    lemma CanLock(p: nat, b: nat)
      requires Valid() && g.Home(b) && p !in now.passed && (now.phase.Idle? || InCommit(now.phase)) && Unheld(now, b)
      ensures g.Valid() && b < |disk| && Enabled(g, now, Bread(p, b))
    {
      Known();
    }

    lemma LockFits(p: nat, b: nat)
      requires Coupled() && g.Valid() && Enabled(g, now, Bread(p, b)) && |cache.Keys + {b}| <= g.nbuf
      ensures Can(g, now, Bread(p, b))
    {
      assert Exec(g, now, Bread(p, b)).cache.Keys == cache.Keys + {b};
    }

    method Take(p: nat, b: nat)
      requires Valid() && g.Valid() && b < |disk| && Can(g, now, Bread(p, b))
      modifies this`cache, this`steps, this`now
      ensures Valid() && Sans(steps) == Sans(old(steps)) + [Bread(p, b)] && Holds(now, p, b)
    {
      ghost var before := now;
      Fetch(p, b);
      Record(Bread(p, b), before);
    }

    /** bread by an operation or a reader. */
    method Lock(p: nat, b: nat) returns (stop: Stop)
      requires Valid() && g.Home(b) && p !in now.passed && (now.phase.Idle? || InCommit(now.phase))
      modifies this`cache, this`steps, this`now
      ensures Valid() && Sans(steps) == Sans(old(steps)) + if stop.Done? then [Bread(p, b)] else []
      ensures stop == if !old(Unheld(now, b)) then Waits(b) else if |old(Busy(cache)) + {b}| <= g.nbuf then Done
        else NoBuffers
      ensures stop.Done? ==> Holds(now, p, b)
    {
      if b in cache && cache[b].holder.Held? {
        return Waits(b);
      }
      var ok := MakeRoom({b});
      if !ok {
        return NoBuffers;
      }
      CanLock(p, b);
      LockFits(p, b);
      Take(p, b);
      stop := Done;
    }

    /** The holder changes the data. */
    method Change(p: nat, b: nat, data: Block)
      requires Valid() && Holds(now, p, b) && p in now.ops && p !in now.passed
      modifies this`cache, this`steps, this`now
      ensures Valid() && steps == old(steps) + [Modify(p, b, data)]
    {
      Known();
      ghost var before := now;
      cache := cache[b := cache[b].(data := data, holder := Held(p, true))];
      assert cache.Keys == before.cache.Keys;
      now := Exec(g, now, Modify(p, b, data));
      Record(Modify(p, b, data), before);
    }

    /** brelse of a buffer whose changes were logged. */
    method Release(p: nat, b: nat)
      requires Valid() && Holds(now, p, b) && p !in now.passed && !cache[b].holder.changed
      modifies this`cache, this`steps, this`now
      ensures Valid() && steps == old(steps) + [Brelse(p, b)] && Unheld(now, b)
    {
      Known();
      ghost var before := now;
      cache := cache[b := cache[b].(holder := NoOne)];
      assert cache.Keys == before.cache.Keys;
      now := Exec(g, now, Brelse(p, b));
      Record(Brelse(p, b), before);
    }

    /** The header's array has a place for `b`. */
    lemma CanAppend(p: nat, b: nat)
      requires Valid() && Holds(now, p, b) && p in now.passed && now.passed[p] == b
      requires p in now.ops && |now.ops[p] + {b}| <= MAXOPBLOCKS
      ensures g.Valid() && Can(g, now, LogWrite(p, b)) && (n < LOGSIZE || b in block[..n])
    {
      Known();
      assert Exec(g, now, LogWrite(p, b)).cache.Keys == cache.Keys;
      if b !in now.lh {
        EntryLeft(now, p, b);
      }
    }

    /** log.c:223, under the lock, whatever happened since `p` made the test for `b`. */
    method RecordBlock(p: nat, b: nat)
      requires Valid() && Holds(now, p, b) && p in now.passed && now.passed[p] == b
      requires p in now.ops && |now.ops[p] + {b}| <= MAXOPBLOCKS
      modifies this`n, this`cache, this`steps, this`now, block
      ensures Valid() && steps == old(steps) + [LogWrite(p, b)]
      ensures block[..n] == if b in old(block[..n]) then old(block[..n]) else old(block[..n]) + [b]
    {
      CanAppend(p, b);
      ghost var before := now;
      now := Exec(g, now, LogWrite(p, b));
      assert now.ops.Keys == before.ops.Keys;
      Absorb(b);
      cache := cache[b := cache[b].(dirty := true, holder := Held(p, false))];
      Record(LogWrite(p, b), before);
    }

    /** The locked section at log.c:150: was this the last operation out? */
    method Leave(p: nat) returns (doCommit: bool)
      requires Coupled() && p in now.ops && now.phase.Idle? && g.Valid() && Enabled(g, now, EndOp(p))
      modifies this`outstanding, this`committing, this`now
      ensures Coupled() && now == Exec(g, old(now), EndOp(p))
      ensures outstanding == old(outstanding) - 1 && doCommit == (outstanding == 0) == committing
    {
      ghost var before := now;
      now := Exec(g, now, EndOp(p));
      assert now.ops.Keys == before.ops.Keys - {p};
      outstanding := outstanding - 1;
      doCommit := outstanding == 0;
      if doCommit {
        assert |before.ops.Keys - {p}| == 0;
        committing := true;
      }
    }

    /** The locked section at log.c:169. */
    method Reopen()
      requires Valid() && now.phase.Finishing?
      modifies this`committing, this`steps, this`now
      ensures Valid() && !committing && Sans(steps) == Sans(old(steps)) + [FinishCommit]
    {
      Known();
      ghost var before := now;
      now := Exec(g, now, FinishCommit);
      committing := false;
      Record(FinishCommit, before);
    }

    lemma CanEnd(p: nat)
      requires Valid() && p in now.ops && p !in now.passed && (forall b | b in cache :: !Holds(now, p, b))
      ensures g.Valid() && Can(g, now, EndOp(p)) && now.phase.Idle? && !committing
      ensures Clear(g, now) ==> Clear(g, Exec(g, now, EndOp(p)))
    {
      Known();
      if Clear(g, now) {
        OpStep(g, now, EndOp(p));
      }
    }

    /**
     end_op from the commit on: the committing process is at `at`, and lets operations begin again when it is
     through.
     */
    method FinishCommitting(at: Phase) returns (stop: Stop)
      requires Valid() && now.phase == at && InCommit(at) && !at.Finishing? && committing
      modifies this`committing, this`cache, this`disk, this`steps, this`now, this`n
      ensures Valid() && committing == !stop.Done?
      ensures if stop.Done? then n == 0 && Sans(steps) == old(Plan()) + [FinishCommit]
              else n == old(n) && Plan() == old(Plan()) && Stopped(g, now, stop)
      ensures old(Clear(g, now)) ==> stop.Done?
    {
      stop := Commit(at);
      if stop.Done? {
        Reopen();
      }
    }

    /**
     * log.c:146: the last operation out commits; `committing` is never found set. `p` has released its buffers, others
     * may hold theirs. If the commit stops for one of them, FinishCommitting is the rest.
     */
    method FinishOp(p: nat) returns (stop: Stop)
      requires Valid() && p in now.ops && p !in now.passed && (forall b | b in cache :: !Holds(now, p, b))
      modifies this`outstanding, this`committing, this`cache, this`disk, this`steps, this`now, this`n
      ensures Valid() && !old(committing) && outstanding == old(outstanding) - 1 && committing == !stop.Done?
      ensures outstanding > 0 ==> stop.Done? && Sans(steps) == Sans(old(steps)) + [EndOp(p)] && n == old(n)
      ensures outstanding == 0 && stop.Done? ==>
                Sans(steps) == Sans(old(steps)) + [EndOp(p)] + CommitSteps(old(n)) + [FinishCommit] && n == 0
      ensures outstanding == 0 && !stop.Done? ==>
                Plan() == Sans(old(steps)) + [EndOp(p)] + CommitSteps(old(n)) && Stopped(g, now, stop) && n == old(n)
      ensures old(Clear(g, now)) ==> stop.Done?
    {
      CanEnd(p);
      ghost var before := now;
      var doCommit := Leave(p);
      Record(EndOp(p), before);
      stop := Done;
      if doCommit {
        assert Rest(WritingLog(0), n) == CommitSteps(n);
        stop := FinishCommitting(WritingLog(0));
      }
    }
  }
}
