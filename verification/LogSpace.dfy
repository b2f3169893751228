/**
 * The space of the log: what begin_op's reservation promises, when log_write's size guard fires, and what goes
 * wrong with a log region of at most LOGSIZE blocks, the guard being tested outside the lock.
 */
module LogSpace {
  import opened Blocks
  import opened LogProtocol
  import opened LogReserve
  import opened LogSafety
  import opened LogAccepts
  import opened Results

  /**
   * In every reachable state the log plus what every outstanding operation may still add fits in LOGSIZE, so
   * the header's array is never overrun, and nothing commits while an operation is outstanding (so end_op never
   * finds `committing` set). This holds for any size of the log region and any interleaving.
   */
  lemma SpaceReservation(g: Geometry, s: State, steps: seq<Step>)
    requires Init(g, s) && Runs(g, s, steps)
    ensures
      var now := Final(g, s, steps);
      && |now.lh| + Reserve(now.ops) <= LOGSIZE
      && (now.ops.Keys != {} ==> now.phase.Idle?)
  {
    ReservedRun(g, s, steps);
  }

  /** Logged blocks are distinct home blocks, and the log is not too long or cannot be copied. */
  ghost predicate InLog(g: Geometry, s: State)
    requires g.Valid()
  {
    && (forall b | b in s.lh :: g.Home(b)) && Distinct(s.lh)
    && (|s.lh| > g.Capacity() ==> |s.lh| == g.size == g.nbuf && !Can(g, s, CopyToLog))
    && (Can(g, s, CopyToLog) || Can(g, s, InstallOne) ==> g.start < g.Slot(s.phase.tail) < g.start + g.size)
  }

  lemma InvSlots(g: Geometry, s: State)
    requires Inv(g, s)
    ensures InLog(g, s)
  {
  }

  lemma StuckSlots(g: Geometry, s: State)
    requires Stuck(g, s)
    ensures InLog(g, s)
  {
    ListedSize(s.lh);
    if Can(g, s, CopyToLog) {
      StuckIdles(g, s, CopyToLog);
    }
    if Can(g, s, InstallOne) {
      StuckIdles(g, s, InstallOne);
    }
  }

  /**
   * If the geometry has room, or the size tests come one at a time, logged block numbers are distinct home blocks and
   * every slot that write_log or install_trans comes to lies inside the log region. A log that lists one block too
   * many has pinned every buffer and is never copied. SlotLeavesLog is the converse.
   */
  lemma SlotsInLog(g: Geometry, s: State, steps: seq<Step>)
    requires Init(g, s) && Runs(g, s, steps) && Spaced(g, s, steps)
    ensures InLog(g, Final(g, s, steps))
  {
    InitSafe(g, s);
    RunInv(g, s, steps, s.disk);
    var now := Final(g, s, steps);
    if Inv(g, now) {
      InvSlots(g, now);
    } else {
      StuckSlots(g, now);
    }
  }

  // ---- The size guard -----------------------------------------------------------------------

  /** An operation that keeps to its allowance of MAXOPBLOCKS blocks calls log_write. */
  predicate Calls(s: State, p: nat, b: nat) {
    Holds(s, p, b) && p in s.ops && p !in s.passed && |s.ops[p] + {b}| <= MAXOPBLOCKS
  }

  /**
   * With more than LOGSIZE log blocks the guard stops such a call exactly if the log is full. Then every
   * operation has used up its allowance and the call logs one of its own blocks again: a new block is never
   * refused.
   */
  lemma GuardExact(g: Geometry, s: State, steps: seq<Step>, p: nat, b: nat)
    requires Init(g, s) && Runs(g, s, steps) && g.size > LOGSIZE && Calls(Final(g, s, steps), p, b)
    ensures
      var now := Final(g, s, steps);
      && (TooBig(g, now) <==> |now.lh| == LOGSIZE)
      && (TooBig(g, now) ==> Reserve(now.ops) == 0 && b in now.ops[p])
  {
    ReservedRun(g, s, steps);
    var now := Final(g, s, steps);
    ReserveSplit(now.ops, p);
    assert b !in now.ops[p] ==> |now.ops[p] + {b}| == |now.ops[p]| + 1;
  }

  // ---- Runs that fill the log ---------------------------------------------------------------

  /** The `k`th of the home blocks after the log region. */
  function Nth(g: Geometry, k: nat): nat {
    g.start + g.size + k
  }

  /** Among the first `k` home blocks after the log region. */
  predicate Among(g: Geometry, k: nat, blocks: set<nat>) {
    forall b | b in blocks :: Nth(g, 0) <= b < Nth(g, k)
  }

  /** Whose turn it is to log block `k`, when three operations take turns. */
  function Turn(k: nat): (p: nat)
    ensures p < 3
  {
    k % 3
  }

  /** How many of the first `k` blocks operation `p` logs. */
  function Share(k: nat, p: nat): nat {
    if k == 0 then 0 else Share(k - 1, p) + if Turn(k - 1) == p then 1 else 0
  }

  lemma {:induction false} ShareBound(k: nat, p: nat)
    requires p < 3
    ensures 3 * Share(k, p) <= k + 2 - p
  {
    if k > 0 {
      ShareBound(k - 1, p);
      if k > 1 {
        if k > 2 {
          ShareBound(k - 3, p);
          assert Share(k, p) == Share(k - 3, p) + 1;
        }
      }
    }
  }

  function Begins(n: nat): seq<Event> {
    if n == 0 then [] else Begins(n - 1) + [Begin(n - 1)]
  }

  function First(n: nat): (r: set<nat>)
    ensures |r| == n && forall p | p in r :: p < n
  {
    if n == 0 then {} else First(n - 1) + {n - 1}
  }

  /** Three operations begin and take turns to log the first `k` home blocks after the log region. */
  function Turns(g: Geometry, k: nat): seq<Event> {
    if k == 0 then Begins(3)
    else Turns(g, k - 1) + [Write(Turn(k - 1), Nth(g, k - 1), Zeroes())]
  }

  predicate OpsFilled(g: Geometry, ops: map<nat, set<nat>>, k: nat) {
    && ops.Keys == {0, 1, 2}
    && (forall p | p in ops :: Among(g, k, ops[p]) && |ops[p]| == Share(k, p))
    && (k > 0 ==> Nth(g, 0) in ops[0])
  }

  lemma OpsGrow(g: Geometry, ops: map<nat, set<nat>>, k: nat, next: nat, q: nat)
    requires OpsFilled(g, ops, k) && k < LOGSIZE && next == k + 1 && q == Turn(k)
    ensures |ops[q] + {Nth(g, k)}| <= MAXOPBLOCKS
    ensures OpsFilled(g, ops[q := ops[q] + {Nth(g, k)}], next)
  {
    assert Nth(g, k) !in ops[q];
    ShareBound(k, q);
    assert |ops[q] + {Nth(g, k)}| == Share(k, q) + 1;
  }

  /** What is gathered then: nothing is committed. */
  predicate TurnsTaken(g: Geometry, events: seq<Event>, k: nat) {
    && OpsFilled(g, OpsOf(events), k) && Among(g, k, Written(events)) && |Written(events)| == k
    && Gather(events) == Grouped([], events)
  }

  /** The operations of `begun` have begun and nothing more. */
  predicate Begun(g: Geometry, events: seq<Event>, begun: set<nat>) {
    && g.Valid() && Accepts(g, events) && Gather(events) == Grouped([], events) && Written(events) == {}
    && OpsOf(events).Keys == begun && forall p | p in OpsOf(events) :: OpsOf(events)[p] == {}
  }

  lemma OneBegins(g: Geometry, events: seq<Event>, p: nat, begun: set<nat>)
    requires Begun(g, events, begun) && p !in begun && |begun| < 3
    ensures Begun(g, events + [Begin(p)], begun + {p})
  {
    Last(events, Begin(p));
    assert |OpsOf(events)| == |OpsOf(events).Keys|;
  }

  lemma {:induction false} AllBegin(g: Geometry, n: nat)
    requires g.Valid() && n <= 3
    ensures Begun(g, Begins(n), First(n))
  {
    if n == 0 {
      assert Begins(n) == [];
    } else {
      var p := n - 1;
      AllBegin(g, p);
      var events, begun := Begins(p), First(p);
      OneBegins(g, events, p, begun);
    }
  }

  lemma BegunIsTaken(g: Geometry, events: seq<Event>)
    requires Begun(g, events, {0, 1, 2})
    ensures TurnsTaken(g, events, 0)
  {
  }

  lemma ThreeBegin(g: Geometry)
    requires g.Valid()
    ensures TurnsTaken(g, Turns(g, 0), 0) && Accepts(g, Turns(g, 0))
  {
    AllBegin(g, 3);
    assert First(3) == {0, 1, 2};
    BegunIsTaken(g, Turns(g, 0));
  }

  lemma OneMoreTurn(g: Geometry, events: seq<Event>, k: nat, next: nat, all: seq<Event>)
    requires g.Valid() && TurnsTaken(g, events, k) && Accepts(g, events) && k < g.Capacity() && next == k + 1 < g.nbuf
    requires Nth(g, LOGSIZE) <= g.blocks && all == events + [Write(Turn(k), Nth(g, k), Zeroes())]
    ensures TurnsTaken(g, all, next) && Accepts(g, all)
  {
    var p, b := Turn(k), Nth(g, k);
    Last(events, Write(p, b, Zeroes()));
    OpsGrow(g, OpsOf(events), k, next, p);
    OpsWrite(events, p, b, Zeroes());
    assert b !in Written(events);
  }

  lemma {:induction false} TurnsAccepted(g: Geometry, k: nat)
    requires g.Valid() && k <= g.Capacity() && k < g.nbuf && Nth(g, LOGSIZE) <= g.blocks
    ensures TurnsTaken(g, Turns(g, k), k) && Accepts(g, Turns(g, k))
  {
    if k == 0 {
      ThreeBegin(g);
    } else {
      TurnsAccepted(g, k - 1);
      OneMoreTurn(g, Turns(g, k - 1), k - 1, k, Turns(g, k));
    }
  }

  /** Three operations are outstanding and have logged `k` blocks between them in turn. */
  ghost predicate Filled(g: Geometry, s: State, k: nat) {
    && Still(g, s) && s.phase.Idle? && Sound(g, s.lh) && s.cache.Keys == Listed(s.lh) && |s.lh| == k
    && OpsFilled(g, s.ops, k) && Among(g, k, s.cache.Keys) && (k > 0 ==> Nth(g, 0) in s.cache.Keys)
    && s.groups == [] && HeaderIs(g, s.disk, [])
  }

  /** Some run leads there. */
  lemma Fill(g: Geometry, s: State, k: nat) returns (t: State)
    requires Init(g, s) && k <= g.Capacity() && k < g.nbuf && Nth(g, LOGSIZE) <= g.blocks
    ensures LeadsTo(g, s, t, true) && Filled(g, t, k)
  {
    TurnsAccepted(g, k);
    var steps := EventsRun(g, s, Turns(g, k));
    t := Final(g, s, steps);
    assert Leads(g, s, steps, t, true);
    SteadyCount(g, t, t.pending);
    InitSafe(g, s);
    RunInv(g, s, steps, s.disk);
    if k > 0 {
      assert Nth(g, 0) in t.ops[0];
      assert Nth(g, 0) in Listed(t.lh);
    }
  }

  /** One of three operations logs block `k`, for which there is a buffer, whether or not the log can be committed. */
  lemma FillOne(g: Geometry, s: State, k: nat, next: nat) returns (t: State)
    requires Filled(g, s, k) && k < g.Capacity() && next == k + 1 <= g.nbuf && Nth(g, LOGSIZE) <= g.blocks
    ensures LeadsTo(g, s, t, true) && Still(g, t) && t.phase.Idle? && OpsFilled(g, t.ops, next) && |t.lh| == next
    ensures t.cache.Keys == s.cache.Keys + {Nth(g, k)} && |t.cache| == next
  {
    var p, b := Turn(k), Nth(g, k);
    OpsGrow(g, s.ops, k, next, p);
    NextFits(g, s, k, next, b);
    t := LogReaches(g, s, p, b, Zeroes());
    OneMoreStill(g, s, b, Buf(Zeroes(), true, NoOne), t);
  }

  lemma OneMoreStill(g: Geometry, s: State, b: nat, buf: Buf, t: State)
    requires Still(g, s) && t.cache == s.cache[b := buf] && buf.holder == NoOne
    requires |t.disk| == |t.cur| == g.blocks && t.passed == map[]
    ensures Still(g, t) && t.cache.Keys == s.cache.Keys + {b}
  {
  }

  lemma NextFits(g: Geometry, s: State, k: nat, next: nat, b: nat)
    requires Filled(g, s, k) && k < g.Capacity() && b == Nth(g, k) < g.blocks && next == k + 1
    ensures g.Home(b) && b !in s.lh && |s.cache.Keys + {b}| == next && !TooBig(g, s)
  {
    NextNew(g, s, k, b);
    ListedSize(s.lh);
  }

  lemma NextNew(g: Geometry, s: State, k: nat, b: nat)
    requires Filled(g, s, k) && b >= Nth(g, k)
    ensures b !in s.cache && b !in s.lh
  {
    assert b !in Listed(s.lh);
  }

  lemma FullReached(g: Geometry, s: State) returns (t: State)
    requires Init(g, s) && Nth(g, LOGSIZE) <= g.blocks && g.size > LOGSIZE && g.nbuf >= NBUF
    ensures LeadsTo(g, s, t, true) && Still(g, t) && t.phase.Idle? && OpsFilled(g, t.ops, LOGSIZE) && |t.lh| == LOGSIZE
    ensures Nth(g, 0) in t.cache && Fits(g, t)
  {
    var last := LOGSIZE - 1;
    var s1 := Fill(g, s, last);
    t := FillOne(g, s1, last, LOGSIZE);
    ReachOn(g, s, s1, t, true);
  }

  /**
   * With more than LOGSIZE log blocks the guard does stop a call: three operations have logged ten blocks each
   * and the first logs one of its own again. The guard comes before the absorption scan.
   */
  lemma GuardStopsAbsorption(g: Geometry, s: State) returns (steps: seq<Step>, p: nat, b: nat)
    requires Init(g, s) && Nth(g, LOGSIZE) <= g.blocks && g.size > LOGSIZE && g.nbuf >= NBUF
    ensures Runs(g, s, steps)
    ensures
      var now := Final(g, s, steps);
      Calls(now, p, b) && b in now.ops[p] && TooBig(g, now)
  {
    p, b := 0, Nth(g, 0);
    var full := FullReached(g, s);
    ShareBound(LOGSIZE, 0);
    assert full.ops[0] + {b} == full.ops[0];
    var now := Exec(g, full, Bread(p, b));
    assert now.cache.Keys == full.cache.Keys;
    ReachStep(g, s, full, Bread(p, b), now, true);
    steps :| Leads(g, s, steps, now, true);
  }

  lemma Serially(g: Geometry, s: State, t: State)
    requires LeadsTo(g, s, t, true)
    ensures LeadsTo(g, s, t, false)
  {
    var steps :| Leads(g, s, steps, t, true);
    assert Leads(g, s, steps, t, false);
  }

  lemma OneLocks(g: Geometry, s: State, p: nat, b: nat, t: State)
    requires g.Valid() && |s.disk| == |s.cur| == g.blocks && s.phase.Idle? && s.passed == map[] && g.Home(b)
    requires b !in s.cache && |s.cache| < g.nbuf
      && t == s.(cache := s.cache[b := Buf(s.disk[b], false, Held(p, false))])
    ensures LeadsTo(g, s, t, false) && t.cache.Keys == s.cache.Keys + {b} && |t.cache| == |s.cache| + 1
  {
    assert t.cache.Keys == s.cache.Keys + {b};
    ReachSelf(g, s, false);
    ReachStep(g, s, s, Bread(p, b), t, false);
  }

  /** The operation whose turn it is has the next block locked. */
  lemma NextHeld(g: Geometry, s: State, k: nat, p: nat, b: nat) returns (t: State)
    requires Filled(g, s, k) && k < LOGSIZE && k < g.nbuf && Nth(g, LOGSIZE) <= g.blocks && p == Turn(k)
      && b == Nth(g, k)
    ensures LeadsTo(g, s, t, false) && Calls(t, p, b) && b !in t.lh && t.lh == s.lh
  {
    var next := k + 1;
    OpsGrow(g, s.ops, k, next, p);
    NextNew(g, s, k, b);
    ListedSize(s.lh);
    t := s.(cache := s.cache[b := Buf(s.disk[b], false, Held(p, false))]);
    OneLocks(g, s, p, b, t);
  }

  /** With LOGSIZE log blocks or fewer (mkfs writes exactly LOGSIZE) the guard stops even a new block. */
  lemma GuardStopsNewBlock(g: Geometry, s: State) returns (steps: seq<Step>, p: nat, b: nat)
    requires Init(g, s) && Nth(g, LOGSIZE) <= g.blocks && g.size <= LOGSIZE && g.size <= g.nbuf
    ensures Runs(g, s, steps)
    ensures
      var now := Final(g, s, steps);
      Calls(now, p, b) && b !in now.lh && TooBig(g, now)
  {
    var k := g.Capacity();
    p, b := Turn(k), Nth(g, k);
    var full := Fill(g, s, k);
    var now := NextHeld(g, full, k, p, b);
    Serially(g, s, full);
    ReachOn(g, s, full, now, false);
    steps :| Leads(g, s, steps, now, false);
  }

  // ---- A log of 2 to LOGSIZE blocks, with more buffers than that ----------------------------

  lemma OneChanges(g: Geometry, s: State, q: nat, c: nat, data: Block, t: State)
    requires g.Valid() && |s.disk| == |s.cur| == g.blocks && s.passed == map[] && Holds(s, q, c) && q in s.ops
      && Fits(g, s)
    requires t == s.(cache := s.cache[c := s.cache[c].(data := data, holder := Held(q, true))])
    ensures LeadsTo(g, s, t, false) && t.cache.Keys == s.cache.Keys
  {
    assert t.cache.Keys == s.cache.Keys;
    ReachSelf(g, s, false);
    ReachStep(g, s, s, Modify(q, c, data), t, false);
  }

  /** Two operations lock a block each. */
  lemma BothHold(g: Geometry, s: State, p: nat, b: nat, q: nat, c: nat) returns (t: State)
    requires Still(g, s) && s.phase.Idle? && b != c && |s.cache| + 2 <= g.nbuf
    requires g.Home(b) && b !in s.cache && g.Home(c) && c !in s.cache
    ensures LeadsTo(g, s, t, false) && |t.cache| == |s.cache| + 2
    ensures t == s.(cache := s.cache[b := Buf(s.disk[b], false, Held(p, false))][c := Buf(s.disk[c], false,
      Held(q, false))])
  {
    var s1 := s.(cache := s.cache[b := Buf(s.disk[b], false, Held(p, false))]);
    OneLocks(g, s, p, b, s1);
    t := s1.(cache := s1.cache[c := Buf(s.disk[c], false, Held(q, false))]);
    OneLocks(g, s1, q, c, t);
    ReachOn(g, s, s1, t, false);
  }

  lemma TwoMore(s: State, t: State, b: nat, x: Buf, c: nat, y: Buf, z: Buf)
    requires b !in s.cache && c !in s.cache && b != c && t.cache == s.cache[b := x][c := y][c := z]
    ensures t.cache.Keys == s.cache.Keys + {b, c} && t.cache[b] == x && t.cache[c] == z
    ensures forall d | d in s.cache :: t.cache[d] == s.cache[d]
  {
  }

  /** And the second changes its block. */
  lemma BothLock(g: Geometry, s: State, p: nat, b: nat, q: nat, c: nat, data: Block) returns (t: State)
    requires Still(g, s) && s.phase.Idle? && b != c && |s.cache| + 2 <= g.nbuf && q in s.ops
    requires g.Home(b) && b !in s.cache && g.Home(c) && c !in s.cache
    ensures LeadsTo(g, s, t, false) && |t.cache| == |s.cache| + 2 && t == s.(cache := t.cache)
    ensures t.cache.Keys == s.cache.Keys + {b, c} && Holds(t, p, b) && Holds(t, q, c) && t.cache[c].data == data
    ensures forall x | x in s.cache :: t.cache[x] == s.cache[x]
  {
    var s1 := BothHold(g, s, p, b, q, c);
    t := s1.(cache := s1.cache[c := s1.cache[c].(data := data, holder := Held(q, true))]);
    OneChanges(g, s1, q, c, data, t);
    ReachOn(g, s, s1, t, false);
    TwoMore(s, t, b, s1.cache[b], c, s1.cache[c], t.cache[c]);
  }

  /** Both pass the size test. */
  lemma BothTest(g: Geometry, s: State, p: nat, b: nat, q: nat, c: nat, t: State)
    requires g.Valid() && |s.disk| == |s.cur| == g.blocks && s.passed == map[] && !TooBig(g, s) && Fits(g, s)
    requires p != q && Holds(s, p, b) && Holds(s, q, c) && p in s.ops && q in s.ops
    requires t == s.(passed := map[p := b, q := c])
    ensures LeadsTo(g, s, t, false)
  {
    var s1 := Exec(g, s, LogTest(p, b));
    ReachSelf(g, s, false);
    ReachStep(g, s, s, LogTest(p, b), s1, false);
    assert Exec(g, s1, LogTest(q, c)).passed == t.passed;
    ReachStep(g, s, s1, LogTest(q, c), t, false);
  }

  /** One of them appends. */
  lemma OneAppends(g: Geometry, s: State, p: nat, b: nat) returns (t: State)
    requires g.Valid() && |s.disk| == |s.cur| == g.blocks && p in s.passed && s.passed[p] == b && b !in s.lh
      && Fits(g, s)
    requires p in s.ops && Holds(s, p, b) && b < g.blocks && |s.ops[p] + {b}| <= MAXOPBLOCKS
    ensures LeadsTo(g, s, t, false) && |t.cur| == g.blocks && t.cache == s.cache[b := Buf(s.cache[b].data, true, NoOne)]
    ensures t == s.(lh := s.lh + [b], ops := s.ops[p := s.ops[p] + {b}], passed := s.passed - {p}, cache := t.cache,
                    pending := t.pending, cur := t.cur)
  {
    var s1 := Exec(g, s, LogWrite(p, b));
    assert s1.cache.Keys == s.cache.Keys;
    ReachSelf(g, s, false);
    ReachStep(g, s, s, LogWrite(p, b), s1, false);
    t := Exec(g, s1, Brelse(p, b));
    assert t.cache.Keys == s1.cache.Keys;
    ReachStep(g, s, s1, Brelse(p, b), t, false);
  }

  /** Then both append and release. */
  lemma BothAppend(g: Geometry, s: State, p: nat, b: nat, q: nat, c: nat) returns (t: State)
    requires g.Valid() && |s.disk| == |s.cur| == g.blocks && s.passed == map[p := b, q := c] && Fits(g, s)
    requires p != q && b != c && b !in s.lh && c !in s.lh && b < g.blocks && c < g.blocks
    requires Holds(s, p, b) && Holds(s, q, c)
    requires p in s.ops && |s.ops[p] + {b}| <= MAXOPBLOCKS && q in s.ops && |s.ops[q] + {c}| <= MAXOPBLOCKS
    ensures LeadsTo(g, s, t, false) && |t.cur| == g.blocks && t.passed == map[] && t.ops.Keys == s.ops.Keys
    ensures t == s.(lh := s.lh + [b, c], ops := t.ops, passed := t.passed, cache := t.cache, pending := t.pending,
                    cur := t.cur)
    ensures t.cache == s.cache[b := Buf(s.cache[b].data, true, NoOne)][c := Buf(s.cache[c].data, true, NoOne)]
  {
    var s1 := OneAppends(g, s, p, b);
    assert s1.cache.Keys == s.cache.Keys;
    assert s1.passed == map[q := c];
    t := OneAppends(g, s1, q, c);
    ReachOn(g, s, s1, t, false);
    assert t.passed == map[];
    assert s.lh + [b] + [c] == s.lh + [b, c];
    assert t.ops.Keys == s.ops.Keys;
  }

  /** The log lists as many blocks as its region has, header included; the last of them holds `data`. */
  ghost predicate Overfull(g: Geometry, s: State, data: Block) {
    && Still(g, s) && s.groups == [] && HeaderIs(g, s.disk, []) && s.cache.Keys == Listed(s.lh)
    && Sound(g, s.lh) && |s.lh| == g.size && 2 <= g.size
    && var c := s.lh[g.size - 1];
       c in s.cache && s.cache[c].data == data && c != Nth(g, 0)
  }

  lemma TurnsDiffer(k: nat, next: nat)
    requires next == k + 1
    ensures Turn(k) != Turn(next)
  {
  }

  /** The next two blocks, in two operations that have some of their allowance left. */
  lemma NextTwo(g: Geometry, ops: map<nat, set<nat>>, k: nat, next: nat, last: nat, p: nat, q: nat, b: nat, c: nat)
    requires OpsFilled(g, ops, k) && next == k + 1 && last == k + 2 <= LOGSIZE && p == Turn(k) && q == Turn(next)
    requires b == Nth(g, k) && c == Nth(g, next) && p != q
    ensures p in ops && q in ops && |ops[p] + {b}| <= MAXOPBLOCKS && |ops[q] + {c}| <= MAXOPBLOCKS
  {
    OpsGrow(g, ops, k, next, p);
    var ops' := ops[p := ops[p] + {b}];
    assert ops'[q] == ops[q];
    OpsGrow(g, ops', next, last, q);
  }

  /** Both are between their tests and their appends. */
  lemma BothPass(g: Geometry, s: State, p: nat, b: nat, q: nat, c: nat, data: Block) returns (t: State)
    requires Still(g, s) && s.phase.Idle? && p != q && b != c && !TooBig(g, s) && |s.cache| + 2 <= g.nbuf
    requires g.Home(b) && b !in s.cache && g.Home(c) && c !in s.cache && p in s.ops && q in s.ops
    ensures LeadsTo(g, s, t, false) && t == s.(cache := t.cache, passed := map[p := b, q := c]) && Fits(g, t)
    ensures t.cache.Keys == s.cache.Keys + {b, c} && Holds(t, p, b) && Holds(t, q, c) && t.cache[c].data == data
    ensures forall x | x in s.cache :: t.cache[x] == s.cache[x]
  {
    var s1 := BothLock(g, s, p, b, q, c, data);
    t := s1.(passed := map[p := b, q := c]);
    BothTest(g, s1, p, b, q, c, t);
    ReachOn(g, s, s1, t, false);
  }

  lemma BothFree(s: State, s1: State, b: nat, c: nat, t: State)
    requires forall x | x in s.cache :: s.cache[x].holder == NoOne && x in s1.cache && s1.cache[x] == s.cache[x]
    requires b != c && b !in s.cache && c !in s.cache && s1.cache.Keys == s.cache.Keys + {b, c}
    requires t.cache == s1.cache[b := Buf(s1.cache[b].data, true, NoOne)][c := Buf(s1.cache[c].data, true, NoOne)]
    ensures t.cache.Keys == s1.cache.Keys && forall x | x in t.cache :: t.cache[x].holder == NoOne
  {
  }

  /** Two operations log a block each, their size tests overlapping. */
  lemma BothLog(g: Geometry, s: State, p: nat, b: nat, q: nat, c: nat, data: Block) returns (t: State)
    requires Still(g, s) && s.phase.Idle? && p != q && b != c && !TooBig(g, s) && |s.cache| + 2 <= g.nbuf
    requires b !in s.lh && c !in s.lh && g.Home(b) && b !in s.cache && g.Home(c) && c !in s.cache
    requires p in s.ops && |s.ops[p] + {b}| <= MAXOPBLOCKS && q in s.ops && |s.ops[q] + {c}| <= MAXOPBLOCKS
    ensures LeadsTo(g, s, t, false) && Still(g, t) && t.phase.Idle? && t.groups == s.groups && t.disk == s.disk
    ensures t.lh == s.lh + [b, c] && t.ops.Keys == s.ops.Keys && t.cache.Keys == s.cache.Keys + {b, c}
    ensures t.cache[c].data == data
  {
    var s1 := BothPass(g, s, p, b, q, c, data);
    t := BothAppend(g, s1, p, b, q, c);
    ReachOn(g, s, s1, t, false);
    BothFree(s, s1, b, c, t);
  }

  lemma SoundTwo(g: Geometry, lh: seq<nat>, b: nat, c: nat, lh': seq<nat>)
    requires Sound(g, lh) && b !in lh && c !in lh && b != c && g.Home(b) && g.Home(c) && lh' == lh + [b, c]
    requires |lh'| < g.nbuf && |lh'| <= LOGSIZE
    ensures Sound(g, lh') && Listed(lh') == Listed(lh) + {b, c}
  {
  }

  lemma OverfullIs(g: Geometry, s: State, b: nat, c: nat, data: Block, t: State)
    requires Still(g, t) && Sound(g, s.lh) && s.cache.Keys == Listed(s.lh) && t.cache.Keys == s.cache.Keys + {b, c}
    requires b !in s.lh && c !in s.lh && b != c && g.Home(b) && g.Home(c) && t.lh == s.lh + [b, c]
    requires 2 <= |t.lh| == g.size < g.nbuf && g.size <= LOGSIZE && t.groups == [] && HeaderIs(g, t.disk, [])
    requires t.cache[c].data == data && c != Nth(g, 0)
    ensures Overfull(g, t, data)
  {
    SoundTwo(g, s.lh, b, c, t.lh);
  }

  lemma Overfill(g: Geometry, s: State, k: nat, data: Block) returns (t: State)
    requires Filled(g, s, k) && k + 2 == g.size <= LOGSIZE && g.size < g.nbuf && Nth(g, LOGSIZE) <= g.blocks
    ensures LeadsTo(g, s, t, false) && Overfull(g, t, data) && t.phase.Idle? && t.ops.Keys == {0, 1, 2}
  {
    var next, last := k + 1, k + 2;
    var p, q, b, c := Turn(k), Turn(next), Nth(g, k), Nth(g, next);
    TurnsDiffer(k, next);
    NextTwo(g, s.ops, k, next, last, p, q, b, c);
    NextNew(g, s, k, b);
    NextNew(g, s, k, c);
    ListedSize(s.lh);
    t := BothLog(g, s, p, b, q, c, data);
    OverfullIs(g, s, b, c, data, t);
  }

  lemma OneEnds(g: Geometry, s: State, data: Block, p: nat) returns (t: State)
    requires Overfull(g, s, data) && s.phase.Idle? && p in s.ops
    ensures LeadsTo(g, s, t, false) && Overfull(g, t, data) && t.ops.Keys == s.ops.Keys - {p}
    ensures t.phase == if s.ops.Keys == {p} then WritingLog(0) else Idle
  {
    ListedSize(s.lh);
    t := Exec(g, s, EndOp(p));
    ReachSelf(g, s, false);
    ReachStep(g, s, s, EndOp(p), t, false);
  }

  lemma ThreeEnd(g: Geometry, s: State, data: Block) returns (t: State)
    requires Overfull(g, s, data) && s.phase.Idle? && s.ops.Keys == {0, 1, 2}
    ensures LeadsTo(g, s, t, false) && Overfull(g, t, data) && t.phase == WritingLog(0)
  {
    assert 1 in s.ops.Keys && 1 != 0;
    var s1 := OneEnds(g, s, data, 0);
    assert s1.ops.Keys == {1, 2} && 2 in {1, 2};
    var s2 := OneEnds(g, s1, data, 1);
    ReachOn(g, s, s1, s2, false);
    assert s2.ops.Keys == {2};
    t := OneEnds(g, s2, data, 2);
    ReachOn(g, s, s2, t, false);
  }

  /** write_log's rounds before the last stay inside the log region. */
  lemma CopyInside(g: Geometry, s: State, t: nat, data: Block) returns (s': State)
    requires Overfull(g, s, data) && s.phase == WritingLog(t) && t + 1 < g.size <= LOGSIZE
    ensures LeadsTo(g, s, s', false) && Overfull(g, s', data) && s'.phase == WritingLog(t + 1)
  {
    var slot, home := g.Slot(t), s.lh[t];
    SlotApart(g, s.lh, t, slot);
    var s1 := Moved(s, home, slot).(phase := WritingLog(t + 1));
    CopyRound(g, s, s.lh, t, slot, home, s1);
    s' := s1.(cache := s1.cache - {slot});
    EvictReached(g, s, s1, slot, s');
    Serially(g, s, s');
    assert s'.cache == s.cache;
  }

  lemma {:induction false} CopyUpTo(g: Geometry, s: State, t: nat, data: Block) returns (s': State)
    requires Overfull(g, s, data) && s.phase == WritingLog(0) && t < g.size <= LOGSIZE
    ensures LeadsTo(g, s, s', false) && Overfull(g, s', data) && s'.phase == WritingLog(t)
  {
    if t == 0 {
      s' := s;
      ReachSelf(g, s, false);
    } else {
      var s1 := CopyUpTo(g, s, t - 1, data);
      s' := CopyInside(g, s1, t - 1, data);
      ReachOn(g, s, s1, s', false);
    }
  }

  /** The last round writes the first home block after the region, with no commit yet. */
  lemma CopyOutside(g: Geometry, s: State, t: nat, home: nat, out: nat, data: Block, s': State)
    requires Overfull(g, s, data) && s.phase == WritingLog(t) && t + 1 == g.size && home == s.lh[t] < g.blocks
    requires out == Nth(g, 0) < g.blocks && s' == Moved(s, home, out).(phase := WritingLog(g.size))
    ensures LeadsTo(g, s, s', false)
  {
    ListedSize(s.lh);
    assert home in Listed(s.lh);
    CopyIs(g, s, t, home, out, s');
    assert s'.cache.Keys == Listed(s.lh) + {out};
    ReachSelf(g, s, false);
    ReachStep(g, s, s, CopyToLog, s', false);
  }

  /** A slot was outside the log region, and recovery shows what no group wrote. */
  ghost predicate Lost(g: Geometry, first: Disk, s: State) {
    && g.Valid() && |s.lh| > g.Capacity() && g.Slot(|s.lh| - 1) == g.start + g.size
    && Readable(g, s.disk) && !SameHome(g, Recovered(g, s.disk), ReplayAll(first, s.groups))
  }

  lemma Escaped(g: Geometry, first: Disk, s: State, home: nat, out: nat, data: Block, s': State)
    requires Overfull(g, s, data) && home == s.lh[g.size - 1] < g.blocks && |first| == g.blocks
    requires out == Nth(g, 0) < g.blocks && first[out] != data
    requires s' == Moved(s, home, out).(phase := WritingLog(g.size))
    ensures Lost(g, first, s')
  {
    assert s'.disk[out] == data && s'.disk[g.start] == s.disk[g.start];
    assert Recovered(g, s'.disk)[out] == data && g.Home(out);
  }

  lemma Another(was: Block) returns (data: Block)
    ensures data != was
  {
    data := if was == Zeroes() then Zeroes()[0 := 1] else Zeroes();
    assert Zeroes()[0] == 0;
  }

  /** Some run leads to the last round of write_log on an overfull log. */
  lemma UpToLast(g: Geometry, s: State, data: Block, t: nat) returns (s': State)
    requires Init(g, s) && 2 <= g.size <= LOGSIZE && g.size < g.nbuf && Nth(g, LOGSIZE) <= g.blocks && t + 1 == g.size
    ensures LeadsTo(g, s, s', false) && Overfull(g, s', data) && s'.phase == WritingLog(t)
  {
    var k := g.size - 2;
    var s1 := Fill(g, s, k);
    Serially(g, s, s1);
    var s2 := Overfill(g, s1, k, data);
    ReachOn(g, s, s1, s2, false);
    var s3 := ThreeEnd(g, s2, data);
    ReachOn(g, s, s2, s3, false);
    s' := CopyUpTo(g, s3, t, data);
    ReachOn(g, s, s3, s', false);
  }

  lemma LostReached(g: Geometry, s: State) returns (now: State)
    requires Init(g, s) && !g.Roomy() && Nth(g, LOGSIZE) <= g.blocks
    ensures LeadsTo(g, s, now, false) && Lost(g, s.disk, now)
  {
    var t, out := g.size - 1, Nth(g, 0);
    var data := Another(s.disk[out]);
    var before := UpToLast(g, s, data, t);
    var home := before.lh[t];
    assert home in before.lh;
    now := Moved(before, home, out).(phase := WritingLog(g.size));
    CopyOutside(g, before, t, home, out, data, now);
    ReachOn(g, s, before, now, false);
    Escaped(g, s.disk, before, home, out, data, now);
  }

  /**
   * With 2 to LOGSIZE log blocks and more buffers than log blocks, if size tests overlap, the log does leave its region
   * and atomicity is lost: from any formatted disk some run without a crash, before its first commit, overwrites a
   * home block that recovery then shows. So Roomy is exact.
   */
  lemma SlotLeavesLog(g: Geometry, s: State) returns (steps: seq<Step>)
    requires Init(g, s) && !g.Roomy() && Nth(g, LOGSIZE) <= g.blocks
    ensures Runs(g, s, steps)
    ensures Lost(g, s.disk, Final(g, s, steps))
  {
    var now := LostReached(g, s);
    steps :| Leads(g, s, steps, now, false);
  }
}
