/** Runs that exist: whatever operations may log under begin_op's admission, some run logs and commits. */
module LogAccepts {
  import opened Blocks
  import opened LogProtocol
  import opened LogSafety
  import opened Results

  // ---- What leads where ---------------------------------------------------------------------

  /** The run `steps` leads from `s` to `t`, with its size tests one at a time if `serial`. */
  ghost predicate Leads(g: Geometry, s: State, steps: seq<Step>, t: State, serial: bool) {
    g.Valid() && Runs(g, s, steps) && Final(g, s, steps) == t && (serial ==> Serial(g, s, steps))
  }

  ghost predicate LeadsTo(g: Geometry, s: State, t: State, serial: bool) {
    exists steps :: Leads(g, s, steps, t, serial)
  }

  lemma ReachSelf(g: Geometry, s: State, serial: bool)
    requires g.Valid()
    ensures LeadsTo(g, s, s, serial)
  {
    assert Leads(g, s, [], s, serial);
  }

  /** One more step. */
  lemma ReachStep(g: Geometry, s: State, t: State, step: Step, u: State, serial: bool)
    requires LeadsTo(g, s, t, serial) && g.Valid() && Can(g, t, step) && u == Exec(g, t, step)
    requires serial && step.LogTest? ==> t.passed == map[]
    ensures LeadsTo(g, s, u, serial)
  {
    var steps :| Leads(g, s, steps, t, serial);
    Further(g, s, steps, step);
    SerialAppend(g, s, steps, [step]);
    assert Leads(g, s, steps + [step], u, serial);
  }

  lemma ReachOn(g: Geometry, s: State, t: State, u: State, serial: bool)
    requires LeadsTo(g, s, t, serial) && LeadsTo(g, t, u, serial)
    ensures LeadsTo(g, s, u, serial)
  {
    var steps :| Leads(g, s, steps, t, serial);
    var more :| Leads(g, t, more, u, serial);
    RunsAppend(g, s, steps, more);
    SerialAppend(g, s, steps, more);
    assert Leads(g, s, steps + more, u, serial);
  }

  // ---- What the log accepts -----------------------------------------------------------------

  /** The outstanding operations after `events` and the blocks each has logged. */
  function OpsOf(events: seq<Event>): map<nat, set<nat>> {
    if events == [] then map[]
    else
      var ops := OpsOf(events[..|events| - 1]);
      match events[|events| - 1]
      case Begin(p) => ops[p := {}]
      case Write(p, b, _) => if p in ops then ops[p := ops[p] + {b}] else ops
      case End(p) => ops - {p}
  }

  function Written(events: seq<Event>): set<nat> {
    set k | 0 <= k < |events| && events[k].Write? :: events[k].b
  }

  /**
   * With `pending` gathered, the log has space for the next event: begin_op admits the operation, log_write's guard
   * lets the block through, within the operation's allowance, and a buffer is left to commit with.
   */
  predicate Space(g: Geometry, pending: seq<Event>, e: Event)
    requires g.Valid()
  {
    var ops := OpsOf(pending);
    match e
    case Begin(p) => |Written(pending)| + (|ops| + 1) * MAXOPBLOCKS <= LOGSIZE
    case Write(p, b, _) =>
      && (p in ops ==> |ops[p] + {b}| <= MAXOPBLOCKS)
      && |Written(pending)| < g.Capacity() && |Written(pending) + {b}| < g.nbuf
    case End(p) => true
  }

  /** Operations begin before they write home blocks and end. */
  predicate InOrder(g: Geometry, open: set<nat>, e: Event) {
    match e
    case Begin(p) => p !in open
    case Write(p, b, _) => p in open && g.Home(b)
    case End(p) => p in open
  }

  predicate Admits(g: Geometry, pending: seq<Event>, e: Event)
    requires g.Valid()
  {
    InOrder(g, OpsOf(pending).Keys, e) && Space(g, pending, e)
  }

  datatype Grouped = Grouped(groups: seq<seq<Event>>, pending: seq<Event>)

  /** Group commit: a group is complete whenever no operation is outstanding. */
  function Gather(events: seq<Event>): Grouped {
    if events == [] then Grouped([], [])
    else
      var before := Gather(events[..|events| - 1]);
      Gather1(before, events[|events| - 1])
  }

  function Gather1(before: Grouped, e: Event): Grouped {
    var pending := before.pending + [e];
    if e.End? && OpsOf(pending) == map[] then Grouped(before.groups + [pending], [])
      else Grouped(before.groups, pending)
  }

  predicate Accepts(g: Geometry, events: seq<Event>)
    requires g.Valid()
  {
    events == [] ||
    var before := events[..|events| - 1];
    Accepts(g, before) && Admits(g, Gather(before).pending, events[|events| - 1])
  }

  /** There is space for each event when it happens. */
  predicate HasSpace(g: Geometry, events: seq<Event>)
    requires g.Valid()
  {
    events == [] ||
    var before := events[..|events| - 1];
    HasSpace(g, before) && Space(g, Gather(before).pending, events[|events| - 1])
  }

  predicate AllInOrder(g: Geometry, events: seq<Event>) {
    events == [] ||
    var before := events[..|events| - 1];
    AllInOrder(g, before) && InOrder(g, Open(before), events[|events| - 1])
  }

  lemma {:induction false} GatherOpen(events: seq<Event>)
    ensures OpsOf(Gather(events).pending).Keys == Open(events)
  {
    if events != [] {
      var before, e := events[..|events| - 1], events[|events| - 1];
      GatherOpen(before);
      Last(Gather(before).pending, e);
    }
  }

  /** With no operation outstanding everything is committed. */
  lemma {:induction false} QuietPending(g: Geometry, events: seq<Event>)
    requires AllInOrder(g, events)
    ensures Open(events) == {} ==> Gather(events).pending == []
  {
    if events != [] {
      var before, e := events[..|events| - 1], events[|events| - 1];
      QuietPending(g, before);
      GatherOpen(before);
      GatherOpen(events);
      assert OpsOf(Gather(events).pending).Keys == {} ==> OpsOf(Gather(events).pending) == map[];
    }
  }

  /** Events in order with space for each are accepted. */
  lemma {:induction false} SpaceAccepts(g: Geometry, events: seq<Event>)
    requires g.Valid() && HasSpace(g, events) && AllInOrder(g, events)
    ensures Accepts(g, events)
  {
    if events != [] {
      var before := events[..|events| - 1];
      SpaceAccepts(g, before);
      GatherOpen(before);
    }
  }

  // ---- States of these runs -----------------------------------------------------------------

  /** Nobody is inside log_write or has a buffer locked. */
  predicate Still(g: Geometry, s: State) {
    && g.Valid() && |s.disk| == |s.cur| == g.blocks && s.passed == map[]
    && (forall b | b in s.cache :: s.cache[b].holder == NoOne)
  }

  /** A log of different home blocks, and a buffer for one more block than that. */
  predicate Sound(g: Geometry, lh: seq<nat>) {
    Distinct(lh) && (forall b | b in lh :: g.Home(b)) && |lh| < g.nbuf && |lh| <= LOGSIZE
  }

  /** `pending` is gathered, and nothing but its blocks is cached. */
  predicate Steady(g: Geometry, s: State, pending: seq<Event>) {
    && Still(g, s) && s.phase.Idle? && s.pending == pending && s.ops == OpsOf(pending)
    && Sound(g, s.lh) && Listed(s.lh) == Written(pending) == s.cache.Keys
  }

  lemma SteadyCount(g: Geometry, s: State, pending: seq<Event>)
    requires Steady(g, s, pending)
    ensures |s.lh| == |Written(pending)| == |s.cache| < g.nbuf
  {
    ListedSize(s.lh);
  }

  lemma Last(pending: seq<Event>, e: Event)
    ensures (pending + [e])[..|pending|] == pending
    ensures Written(pending + [e]) == Written(pending) + if e.Write? then {e.b} else {}
  {
    var all := pending + [e];
    assert all[..|pending|] == pending && all[|pending|] == e;
    forall b | b in Written(all) ensures b in Written(pending) + if e.Write? then {e.b} else {} {
      var k :| 0 <= k < |all| && all[k].Write? && all[k].b == b;
      assert k < |pending| ==> pending[k] == all[k];
    }
    forall b | b in Written(pending) ensures b in Written(all) {
      var k :| 0 <= k < |pending| && pending[k].Write? && pending[k].b == b;
      assert all[k] == pending[k];
    }
  }

  // ---- begin_op, log_write, end_op ----------------------------------------------------------

  lemma OpsBegin(pending: seq<Event>, p: nat)
    ensures OpsOf(pending + [Begin(p)]) == OpsOf(pending)[p := {}] && Written(pending + [Begin(p)]) == Written(pending)
  {
    Last(pending, Begin(p));
  }

  lemma BeginReached(g: Geometry, s: State, pending: seq<Event>, p: nat) returns (t: State)
    requires Steady(g, s, pending) && Admits(g, pending, Begin(p))
    ensures LeadsTo(g, s, t, true) && Steady(g, t, pending + [Begin(p)]) && t.groups == s.groups && t.lh == s.lh
  {
    SteadyCount(g, s, pending);
    OpsBegin(pending, p);
    t := Exec(g, s, BeginOp(p));
    ReachSelf(g, s, true);
    ReachStep(g, s, s, BeginOp(p), t, true);
  }

  /** bread and the change. */
  lemma HoldReached(g: Geometry, s: State, p: nat, b: nat, data: Block, t: State)
    requires Still(g, s) && s.phase.Idle? && g.Home(b) && p in s.ops && |s.cache.Keys + {b}| <= g.nbuf
    requires t == s.(cache := s.cache[b := Buf(data, Fetched(s, b).dirty, Held(p, true))])
    ensures LeadsTo(g, s, t, true)
  {
    var s1 := Exec(g, s, Bread(p, b));
    assert s1.cache.Keys == s.cache.Keys + {b};
    ReachSelf(g, s, true);
    ReachStep(g, s, s, Bread(p, b), s1, true);
    assert t == Exec(g, s1, Modify(p, b, data));
    assert t.cache.Keys == s1.cache.Keys;
    ReachStep(g, s, s1, Modify(p, b, data), t, true);
  }

  /** bread, the change, and log_write's test. */
  lemma ChangeReached(g: Geometry, s: State, p: nat, b: nat, data: Block) returns (t: State)
    requires Still(g, s) && s.phase.Idle? && g.Home(b) && p in s.ops && !TooBig(g, s) && |s.cache.Keys + {b}| <= g.nbuf
    ensures LeadsTo(g, s, t, true) && t == s.(cache := t.cache, passed := map[p := b])
    ensures t.cache == s.cache[b := Buf(data, Fetched(s, b).dirty, Held(p, true))]
    ensures t.cache.Keys == s.cache.Keys + {b}
  {
    var s1 := s.(cache := s.cache[b := Buf(data, Fetched(s, b).dirty, Held(p, true))]);
    HoldReached(g, s, p, b, data, s1);
    assert s1.cache.Keys == s.cache.Keys + {b};
    t := Exec(g, s1, LogTest(p, b));
    ReachStep(g, s, s1, LogTest(p, b), t, true);
  }

  /** log_write's append, and brelse. */
  lemma AppendReached(g: Geometry, s: State, p: nat, b: nat) returns (t: State)
    requires g.Valid() && |s.disk| == |s.cur| == g.blocks && s.passed == map[p := b] && Fits(g, s)
    requires p in s.ops && Holds(s, p, b) && b < g.blocks && |s.ops[p] + {b}| <= MAXOPBLOCKS
    ensures LeadsTo(g, s, t, true) && |t.cur| == g.blocks && t.passed == map[]
    ensures t == s.(lh := if b in s.lh then s.lh else s.lh + [b], passed := t.passed, ops := s.ops[p := s.ops[p] + {b}],
                    cache := t.cache, pending := s.pending + [Write(p, b, s.cache[b].data)], cur := t.cur)
    ensures t.cache == s.cache[b := Buf(s.cache[b].data, true, NoOne)]
  {
    var s1 := Exec(g, s, LogWrite(p, b));
    assert s1.passed == map[];
    assert s1.cache.Keys == s.cache.Keys;
    ReachSelf(g, s, true);
    ReachStep(g, s, s, LogWrite(p, b), s1, true);
    t := Exec(g, s1, Brelse(p, b));
    assert t.cache.Keys == s1.cache.Keys;
    ReachStep(g, s, s1, Brelse(p, b), t, true);
  }

  lemma SoundMore(g: Geometry, lh: seq<nat>, b: nat, lh': seq<nat>)
    requires Sound(g, lh) && g.Home(b) && lh' == (if b in lh then lh else lh + [b])
    requires |Listed(lh) + {b}| < g.nbuf && |lh| < LOGSIZE
    ensures Sound(g, lh') && Listed(lh') == Listed(lh) + {b}
  {
    assert Listed(lh') == Listed(lh) + {b};
    ListedSize(lh');
  }

  lemma OpsWrite(pending: seq<Event>, p: nat, b: nat, data: Block)
    requires p in OpsOf(pending)
    ensures Written(pending + [Write(p, b, data)]) == Written(pending) + {b}
    ensures OpsOf(pending + [Write(p, b, data)]) == OpsOf(pending)[p := OpsOf(pending)[p] + {b}]
  {
    Last(pending, Write(p, b, data));
  }

  lemma WriteSound(g: Geometry, s: State, b: nat, data: Block, t: State)
    requires Still(g, s) && Sound(g, s.lh) && s.cache.Keys == Listed(s.lh) && g.Home(b)
    requires |s.lh| < g.Capacity() && |Listed(s.lh) + {b}| < g.nbuf
    requires t == s.(lh := if b in s.lh then s.lh else s.lh + [b], ops := t.ops,
                     cache := s.cache[b := Buf(data, true, NoOne)], pending := t.pending, cur := t.cur)
    requires |t.cur| == g.blocks
    ensures Still(g, t) && Sound(g, t.lh) && t.cache.Keys == Listed(t.lh) == Listed(s.lh) + {b}
      && |t.lh| <= g.Capacity()
  {
    SoundMore(g, s.lh, b, t.lh);
    assert t.cache.Keys == s.cache.Keys + {b};
  }

  lemma LogReaches(g: Geometry, s: State, p: nat, b: nat, data: Block) returns (t: State)
    requires Still(g, s) && s.phase.Idle? && g.Home(b) && p in s.ops && !TooBig(g, s) && |s.cache.Keys + {b}| <= g.nbuf
    requires |s.ops[p] + {b}| <= MAXOPBLOCKS
    ensures LeadsTo(g, s, t, true) && |t.cur| == g.blocks && t.cache == s.cache[b := Buf(data, true, NoOne)]
    ensures t == s.(lh := t.lh, ops := t.ops, cache := t.cache, pending := t.pending, cur := t.cur)
    ensures t.lh == (if b in s.lh then s.lh else s.lh + [b]) && t.ops == s.ops[p := s.ops[p] + {b}]
    ensures t.pending == s.pending + [Write(p, b, data)]
  {
    var s1 := ChangeReached(g, s, p, b, data);
    t := AppendReached(g, s1, p, b);
    assert t.cache == s.cache[b := Buf(data, true, NoOne)];
    ReachOn(g, s, s1, t, true);
  }

  lemma WriteReached(g: Geometry, s: State, pending: seq<Event>, p: nat, b: nat, data: Block) returns (t: State)
    requires Steady(g, s, pending) && Admits(g, pending, Write(p, b, data))
    ensures LeadsTo(g, s, t, true) && Steady(g, t, pending + [Write(p, b, data)]) && t.groups == s.groups
    ensures |t.lh| <= g.Capacity()
  {
    SteadyCount(g, s, pending);
    t := LogReaches(g, s, p, b, data);
    var all := pending + [Write(p, b, data)];
    OpsWrite(pending, p, b, data);
    WriteSound(g, s, b, data, t);
    assert t.pending == all;
  }

  lemma LeaveReached(g: Geometry, s: State, pending: seq<Event>, p: nat) returns (t: State)
    requires Steady(g, s, pending) && Admits(g, pending, End(p)) && OpsOf(pending + [End(p)]) != map[]
    ensures LeadsTo(g, s, t, true) && Steady(g, t, pending + [End(p)]) && t.groups == s.groups && t.lh == s.lh
  {
    SteadyCount(g, s, pending);
    Last(pending, End(p));
    t := Exec(g, s, EndOp(p));
    assert s.ops.Keys == {p} ==> s.ops - {p} == map[];
    ReachSelf(g, s, true);
    ReachStep(g, s, s, EndOp(p), t, true);
  }

  // ---- The commit ---------------------------------------------------------------------------

  /** The commit of `lh` is in phase `phase`, with only the blocks of `keys` cached. */
  predicate Committing(g: Geometry, s: State, phase: Phase, lh: seq<nat>, keys: set<nat>, pending: seq<Event>) {
    && Still(g, s) && s.phase == phase && s.ops == map[] && s.lh == lh && Sound(g, lh) && s.cache.Keys == keys
    && s.pending == pending && |lh| <= g.Capacity()
  }

  /** A clean buffer goes. */
  lemma EvictReached(g: Geometry, s: State, t: State, b: nat, u: State)
    requires LeadsTo(g, s, t, true) && Still(g, t) && b in t.cache && !t.cache[b].dirty && |t.cache| <= g.nbuf
    requires u == t.(cache := t.cache - {b})
    ensures LeadsTo(g, s, u, true) && Still(g, u) && u.cache.Keys == t.cache.Keys - {b}
  {
    assert u.cache.Keys == t.cache.Keys - {b};
    ReachStep(g, s, t, Evict(b), u, true);
  }

  lemma Moves(g: Geometry, s: State, from: nat, to: nat, s': State)
    requires Still(g, s) && from < g.blocks && to < g.blocks && s' == Moved(s, from, to)
    ensures Still(g, s') && s'.cache.Keys == s.cache.Keys + {from, to} && !s'.cache[to].dirty
    ensures from != to && from !in s.cache ==> !s'.cache[from].dirty
  {
  }

  lemma CopyIs(g: Geometry, s: State, t: nat, home: nat, slot: nat, s': State)
    requires Still(g, s) && s.phase == WritingLog(t) && t < |s.lh| && s.lh[t] == home < g.blocks
    requires slot == g.Slot(t) < g.blocks && slot != home && s' == Moved(s, home, slot).(phase := WritingLog(t + 1))
    ensures Enabled(g, s, CopyToLog) && Exec(g, s, CopyToLog) == s'
  {
  }

  lemma SlotApart(g: Geometry, lh: seq<nat>, t: nat, slot: nat)
    requires g.Valid() && Sound(g, lh) && t < |lh| && t < g.Capacity() && slot == g.Slot(t)
    ensures slot !in Listed(lh) && lh[t] in Listed(lh) && lh[t] < g.blocks && slot < g.blocks && lh[t] != slot
    ensures |Listed(lh) + {slot}| == |lh| + 1
  {
    ListedSize(lh);
    assert lh[t] in lh;
    assert !g.Home(slot);
  }

  /** One round of write_log. */
  lemma CopyRound(g: Geometry, s: State, lh: seq<nat>, t: nat, slot: nat, home: nat, s': State)
    requires t < |lh| && home == lh[t] && slot == g.Slot(t) && Still(g, s) && s.phase == WritingLog(t) && s.lh == lh
    requires g.Valid() && Sound(g, lh) && t < g.Capacity() && s.cache.Keys == Listed(lh)
    requires home < g.blocks && slot < g.blocks && s' == Moved(s, home, slot).(phase := WritingLog(t + 1))
    ensures LeadsTo(g, s, s', true) && Still(g, s') && s'.cache.Keys == Listed(lh) + {slot} && !s'.cache[slot].dirty
  {
    SlotApart(g, lh, t, slot);
    CopyIs(g, s, t, home, slot, s');
    Moves(g, s, home, slot, Moved(s, home, slot));
    assert s'.cache.Keys == Listed(lh) + {slot};
    ReachSelf(g, s, true);
    ReachStep(g, s, s, CopyToLog, s', true);
  }

  /** After which the slot's buffer goes. */
  lemma CopyReached(g: Geometry, s: State, lh: seq<nat>, t: nat, next: nat, pending: seq<Event>) returns (s': State)
    requires Committing(g, s, WritingLog(t), lh, Listed(lh), pending) && t < |lh| && next == t + 1
    ensures LeadsTo(g, s, s', true) && Committing(g, s', WritingLog(next), lh, Listed(lh), pending)
    ensures s'.groups == s.groups
  {
    var slot, home := g.Slot(t), lh[t];
    SlotApart(g, lh, t, slot);
    var s1 := Moved(s, home, slot).(phase := WritingLog(t + 1));
    CopyRound(g, s, lh, t, slot, home, s1);
    s' := s1.(cache := s1.cache - {slot});
    EvictReached(g, s, s1, slot, s');
    assert Listed(lh) + {slot} - {slot} == Listed(lh);
  }

  lemma {:induction false} CopiesReached(g: Geometry, s: State, lh: seq<nat>, t: nat, pending: seq<Event>)
    returns (s': State)
    requires Committing(g, s, WritingLog(0), lh, Listed(lh), pending) && t <= |lh|
    ensures LeadsTo(g, s, s', true) && Committing(g, s', WritingLog(t), lh, Listed(lh), pending)
    ensures s'.groups == s.groups
  {
    if t == 0 {
      s' := s;
      ReachSelf(g, s, true);
    } else {
      var s1 := CopiesReached(g, s, lh, t - 1, pending);
      s' := CopyReached(g, s1, lh, t - 1, t, pending);
      ReachOn(g, s, s1, s', true);
    }
  }

  lemma SoundEncodable(g: Geometry, lh: seq<nat>)
    requires g.Valid() && Sound(g, lh)
    ensures Encodable(lh)
  {
    forall i | 0 <= i < |lh| ensures lh[i] < WORD {
      assert lh[i] in lh;
    }
  }

  /** write_head, which commits. */
  lemma HeadRound(g: Geometry, s: State, lh: seq<nat>, pending: seq<Event>) returns (t: State)
    requires Committing(g, s, WritingLog(|lh|), lh, Listed(lh), pending) && lh != []
    ensures LeadsTo(g, s, t, true) && t.phase == Installing(0, false) && t.groups == s.groups + [pending]
    ensures t == s.(disk := t.disk, base := t.base, cache := t.cache, phase := t.phase, groups := t.groups,
      pending := [])
    ensures g.start !in Listed(lh) && Still(g, t) && t.cache.Keys == Listed(lh) + {g.start} && !t.cache[g.start].dirty
  {
    ListedSize(lh);
    SoundEncodable(g, lh);
    t := Exec(g, s, WriteCommitHead);
    assert t.cache.Keys == Listed(lh) + {g.start};
    ReachSelf(g, s, true);
    ReachStep(g, s, s, WriteCommitHead, t, true);
  }

  /** After which the header's buffer goes. */
  lemma HeadReached(g: Geometry, s: State, lh: seq<nat>, pending: seq<Event>) returns (t: State)
    requires Committing(g, s, WritingLog(|lh|), lh, Listed(lh), pending) && lh != []
    ensures LeadsTo(g, s, t, true) && Committing(g, t, Installing(0, false), lh, Listed(lh[0..]), [])
    ensures t.groups == s.groups + [pending]
  {
    var s1 := HeadRound(g, s, lh, pending);
    ListedSize(lh);
    assert lh[0..] == lh;
    t := s1.(cache := s1.cache - {g.start});
    EvictReached(g, s, s1, g.start, t);
    assert Listed(lh) + {g.start} - {g.start} == Listed(lh);
  }

  lemma ListedRest(lh: seq<nat>, t: nat, next: nat)
    requires Distinct(lh) && t < |lh| && next == t + 1
    ensures lh[t] in Listed(lh[t..]) && Listed(lh[next..]) == Listed(lh[t..]) - {lh[t]}
    ensures |Listed(lh[t..])| <= |lh| && Listed(lh[t..]) <= Listed(lh)
  {
    ListedSize(lh[t..]);
    assert lh[t..][0] == lh[t] && lh[next..] == lh[t..][1..];
    forall b | b in Listed(lh[t..]) - {lh[t]} ensures b in Listed(lh[next..]) {
      var i :| 0 <= i < |lh[t..]| && lh[t..][i] == b;
      assert lh[t..][1..][i - 1] == b;
    }
  }

  lemma InstallIs(g: Geometry, s: State, t: nat, home: nat, slot: nat, s': State)
    requires Still(g, s) && s.phase == Installing(t, false) && t < |s.lh| && s.lh[t] == home < g.blocks
    requires slot == g.Slot(t) < g.blocks && slot != home
      && s' == Moved(s, slot, home).(phase := Installing(t + 1, false))
    ensures Enabled(g, s, InstallOne) && Exec(g, s, InstallOne) == s'
  {
  }

  /** One round of install_trans. */
  lemma InstallRound(g: Geometry, s: State, lh: seq<nat>, t: nat, slot: nat, home: nat, left: set<nat>, s': State)
    requires t < |lh| && home == lh[t] && slot == g.Slot(t) && Still(g, s) && s.phase == Installing(t, false)
    requires s.lh == lh && Sound(g, lh) && |lh| <= g.Capacity() && s.cache.Keys == left <= Listed(lh) && home in left
    requires home < g.blocks && slot < g.blocks && s' == Moved(s, slot, home).(phase := Installing(t + 1, false))
    ensures LeadsTo(g, s, s', true) && Still(g, s') && s'.cache.Keys == left + {slot}
    ensures slot !in left && !s'.cache[slot].dirty && !s'.cache[home].dirty
  {
    SlotApart(g, lh, t, slot);
    InstallIs(g, s, t, home, slot, s');
    Moves(g, s, slot, home, Moved(s, slot, home));
    assert s'.cache.Keys == left + {slot};
    SubsetFew(left + {slot}, Listed(lh) + {slot});
    ReachSelf(g, s, true);
    ReachStep(g, s, s, InstallOne, s', true);
  }

  /** After which both buffers go. */
  lemma InstallReached(g: Geometry, s: State, lh: seq<nat>, t: nat, next: nat) returns (s': State)
    requires t < |lh| && next == t + 1 && Committing(g, s, Installing(t, false), lh, Listed(lh[t..]), [])
    ensures LeadsTo(g, s, s', true) && Committing(g, s', Installing(next, false), lh, Listed(lh[next..]), [])
    ensures s'.groups == s.groups
  {
    ListedRest(lh, t, next);
    var slot, home, left := g.Slot(t), lh[t], Listed(lh[t..]);
    SlotApart(g, lh, t, slot);
    var s1 := Moved(s, slot, home).(phase := Installing(t + 1, false));
    InstallRound(g, s, lh, t, slot, home, left, s1);
    var s2 := s1.(cache := s1.cache - {slot});
    EvictReached(g, s, s1, slot, s2);
    assert s2.cache.Keys == left;
    s' := s2.(cache := s2.cache - {home});
    EvictReached(g, s, s2, home, s');
  }

  lemma {:induction false} InstallsReached(g: Geometry, s: State, lh: seq<nat>, t: nat) returns (s': State)
    requires t <= |lh| && Committing(g, s, Installing(0, false), lh, Listed(lh[0..]), [])
    ensures LeadsTo(g, s, s', true) && Committing(g, s', Installing(t, false), lh, Listed(lh[t..]), [])
    ensures s'.groups == s.groups
  {
    if t == 0 {
      s' := s;
      ReachSelf(g, s, true);
    } else {
      var s1 := InstallsReached(g, s, lh, t - 1);
      s' := InstallReached(g, s1, lh, t - 1, t);
      ReachOn(g, s, s1, s', true);
    }
  }

  /** The log is erased. */
  lemma EraseReached(g: Geometry, s: State, lh: seq<nat>) returns (t: State)
    requires Committing(g, s, Installing(|lh|, false), lh, {}, [])
    ensures LeadsTo(g, s, t, true) && Committing(g, t, Finishing, [], {}, []) && t.groups == s.groups
  {
    var s1 := Exec(g, s, ClearHead);
    assert s1.cache.Keys == {g.start};
    ReachSelf(g, s, true);
    ReachStep(g, s, s, ClearHead, s1, true);
    t := s1.(cache := s1.cache - {g.start});
    EvictReached(g, s, s1, g.start, t);
  }

  lemma LogReached(g: Geometry, s: State, lh: seq<nat>, pending: seq<Event>) returns (t: State)
    requires Committing(g, s, WritingLog(0), lh, Listed(lh), pending) && lh != []
    ensures LeadsTo(g, s, t, true) && Committing(g, t, Finishing, [], {}, []) && t.groups == s.groups + [pending]
  {
    var s1 := CopiesReached(g, s, lh, |lh|, pending);
    var s2 := HeadReached(g, s1, lh, pending);
    ReachOn(g, s, s1, s2, true);
    var s3 := InstallsReached(g, s2, lh, |lh|);
    ReachOn(g, s, s2, s3, true);
    assert Listed(lh[|lh|..]) == {};
    t := EraseReached(g, s3, lh);
    ReachOn(g, s, s3, t, true);
  }

  lemma CommitReached(g: Geometry, s: State, lh: seq<nat>, pending: seq<Event>) returns (t: State)
    requires Committing(g, s, WritingLog(0), lh, Listed(lh), pending)
    ensures LeadsTo(g, s, t, true) && Steady(g, t, []) && t.lh == [] && t.groups == s.groups + [pending]
  {
    var s1;
    if lh == [] {
      s1 := Exec(g, s, CommitNothing);
      ReachSelf(g, s, true);
      ReachStep(g, s, s, CommitNothing, s1, true);
    } else {
      s1 := LogReached(g, s, lh, pending);
    }
    t := Exec(g, s1, FinishCommit);
    ReachStep(g, s, s1, FinishCommit, t, true);
  }

  /** The last operation out commits. */
  lemma LastReached(g: Geometry, s: State, pending: seq<Event>, p: nat) returns (t: State)
    requires Steady(g, s, pending) && Admits(g, pending, End(p)) && OpsOf(pending + [End(p)]) == map[]
    requires |s.lh| <= g.Capacity()
    ensures LeadsTo(g, s, t, true) && Steady(g, t, []) && t.lh == [] && t.groups == s.groups + [pending + [End(p)]]
  {
    SteadyCount(g, s, pending);
    Last(pending, End(p));
    var s1 := Exec(g, s, EndOp(p));
    assert s.ops.Keys == {p};
    ReachSelf(g, s, true);
    ReachStep(g, s, s, EndOp(p), s1, true);
    t := CommitReached(g, s1, s.lh, pending + [End(p)]);
    ReachOn(g, s, s1, t, true);
  }

  // ---- Any events ---------------------------------------------------------------------------

  lemma ReadReached(g: Geometry, s: State) returns (t: State)
    requires Init(g, s)
    ensures LeadsTo(g, s, t, true) && Still(g, t) && t.phase == Installing(0, true) && t.cache.Keys == {g.start}
    ensures t.lh == [] && t.ops == map[] && t.pending == [] && t.groups == []
  {
    t := Exec(g, s, ReadHead);
    assert t.cache.Keys == {g.start};
    ReachSelf(g, s, true);
    ReachStep(g, s, s, ReadHead, t, true);
  }

  lemma BootReached(g: Geometry, s: State) returns (t: State)
    requires Init(g, s)
    ensures LeadsTo(g, s, t, true) && Steady(g, t, []) && t.groups == []
  {
    var s1 := ReadReached(g, s);
    var s2 := Exec(g, s1, ClearHead);
    assert s2.cache.Keys == {g.start};
    ReachStep(g, s, s1, ClearHead, s2, true);
    t := s2.(cache := s2.cache - {g.start});
    EvictReached(g, s, s2, g.start, t);
  }

  /** What is gathered, and that it has slots. */
  predicate After(g: Geometry, s: State, groups: seq<seq<Event>>, now: Grouped) {
    Steady(g, s, now.pending) && |s.lh| <= g.Capacity() && s.groups == groups + now.groups
  }

  lemma EndReached(g: Geometry, s: State, groups: seq<seq<Event>>, now: Grouped, p: nat) returns (t: State)
    requires After(g, s, groups, now) && Admits(g, now.pending, End(p))
    ensures LeadsTo(g, s, t, true) && After(g, t, groups, Gather1(now, End(p)))
  {
    var pending := now.pending + [End(p)];
    if OpsOf(pending) == map[] {
      t := LastReached(g, s, now.pending, p);
      assert groups + (now.groups + [pending]) == groups + now.groups + [pending];
    } else {
      t := LeaveReached(g, s, now.pending, p);
    }
  }

  lemma EventReached(g: Geometry, s: State, groups: seq<seq<Event>>, now: Grouped, e: Event) returns (t: State)
    requires After(g, s, groups, now) && Admits(g, now.pending, e)
    ensures LeadsTo(g, s, t, true) && After(g, t, groups, Gather1(now, e))
  {
    match e
    case Begin(p) => t := BeginReached(g, s, now.pending, p);
    case Write(p, b, data) => t := WriteReached(g, s, now.pending, p, b, data);
    case End(p) => t := EndReached(g, s, groups, now, p);
  }

  /** From a state with an empty log, some run logs the events that the log accepts, and commits them in groups. */
  lemma {:induction false} EventsReached(g: Geometry, s: State, events: seq<Event>) returns (t: State)
    requires Steady(g, s, []) && Accepts(g, events)
    ensures LeadsTo(g, s, t, true) && After(g, t, s.groups, Gather(events))
  {
    if events == [] {
      t := s;
      ReachSelf(g, s, true);
      SteadyCount(g, s, []);
    } else {
      var before, e := events[..|events| - 1], events[|events| - 1];
      var s1 := EventsReached(g, s, before);
      t := EventReached(g, s1, s.groups, Gather(before), e);
      ReachOn(g, s, s1, t, true);
    }
  }

  /**
   * Whatever the operations of any number of processes log, in any order: if begin_op admits each of them when it
   * begins and log_write's guard lets each block through, then from any formatted disk some run logs exactly that, and
   * has committed it up to the last point with no operation outstanding.
   */
  lemma EventsRun(g: Geometry, s: State, events: seq<Event>) returns (steps: seq<Step>)
    requires Init(g, s) && Accepts(g, events)
    ensures Runs(g, s, steps) && Serial(g, s, steps)
    ensures var now := Final(g, s, steps);
              Steady(g, now, now.pending) && Grouped(now.groups, now.pending) == Gather(events)
  {
    var up := BootReached(g, s);
    var t := EventsReached(g, up, events);
    ReachOn(g, s, up, t, true);
    steps :| Leads(g, s, steps, t, true);
    assert [] + Gather(events).groups == Gather(events).groups;
  }
}
