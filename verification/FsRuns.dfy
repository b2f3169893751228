/** The operations of the file system as runs of the log: whatever they log, some run logs and commits. */
module FsRuns {
  import opened Blocks
  import opened FsLayout
  import opened FsState
  import opened FsLog
  import opened FsCrash
  import opened LogAccepts
  import opened LogProtocol
  import LogSafety

  // ---- One operation ------------------------------------------------------------------------

  lemma PrefixBlocks(trace: seq<Entry>, k: nat, next: nat)
    requires k < |trace| && next == k + 1
    ensures BlocksOf(trace[..next]) == BlocksOf(trace[..k]) + {trace[k].b}
      && |BlocksOf(trace[..next])| <= |BlocksOf(trace)|
  {
    var part := trace[..next];
    forall b | b in BlocksOf(part) ensures b in BlocksOf(trace) && b in BlocksOf(trace[..k]) + {trace[k].b} {
      var j :| 0 <= j < next && part[j].b == b;
      assert trace[j].b == b && (j < k ==> trace[..k][j].b == b);
    }
    forall b | b in BlocksOf(trace[..k]) + {trace[k].b} ensures b in BlocksOf(part) {
      if b == trace[k].b {
        assert part[k].b == b;
      } else {
        var j :| 0 <= j < k && trace[..k][j].b == b;
        assert part[j].b == b;
      }
    }
    SubsetSize(BlocksOf(part), BlocksOf(trace));
  }

  lemma PrefixWrites(p: nat, trace: seq<Entry>, k: nat, next: nat)
    requires k < |trace| && next == k + 1
    ensures Writes(p, trace[..next]) == Writes(p, trace[..k]) + [Write(p, trace[k].b, trace[k].data)]
  {
  }

  /** begin_op and the calls of log_write so far. */
  function Part(p: nat, trace: seq<Entry>): seq<Event> {
    [Begin(p)] + Writes(p, trace)
  }

  /** Process `p` is alone in its operation and has logged `blocks`. */
  predicate Alone(g: Geometry, events: seq<Event>, p: nat, blocks: set<nat>) {
    && g.Valid() && Accepts(g, events) && Gather(events) == Grouped([], events)
    && OpsOf(events) == map[p := blocks] && Written(events) == blocks
  }

  /** Twelve log blocks and eleven buffers are enough for an operation by itself. */
  predicate Enough(g: Geometry) {
    g.Valid() && g.size >= MAXOPBLOCKS + 2 && g.nbuf > MAXOPBLOCKS
  }

  lemma BeginAlone(g: Geometry, p: nat, events: seq<Event>)
    requires g.Valid() && events == [] + [Begin(p)]
    ensures Alone(g, events, p, {})
  {
    Last([], Begin(p));
  }

  lemma WriteAlone(g: Geometry, events: seq<Event>, p: nat, blocks: set<nat>, b: nat, data: Block, events': seq<Event>,
                   blocks': set<nat>)
    requires Enough(g) && Alone(g, events, p, blocks) && g.Home(b) && events' == events + [Write(p, b, data)]
    requires blocks' == blocks + {b} && |blocks'| <= MAXOPBLOCKS
    ensures Alone(g, events', p, blocks')
  {
    Last(events, Write(p, b, data));
    OpsWrite(events, p, b, data);
    SubsetSize(blocks, blocks');
  }

  lemma EndAlone(g: Geometry, events: seq<Event>, p: nat, blocks: set<nat>, events': seq<Event>)
    requires Alone(g, events, p, blocks) && events' == events + [End(p)]
    ensures Accepts(g, events') && Gather(events') == Grouped([events'], [])
  {
    Last(events, End(p));
  }

  /** The first `k` calls of log_write. */
  lemma {:induction false} TraceAlone(g: Geometry, p: nat, trace: seq<Entry>, k: nat, part: seq<Event>,
                                      blocks: set<nat>)
    requires Enough(g) && k <= |trace| && |BlocksOf(trace)| <= MAXOPBLOCKS
    requires part == Part(p, trace[..k]) && blocks == BlocksOf(trace[..k])
    requires forall j | 0 <= j < |trace| :: g.Home(trace[j].b)
    ensures Alone(g, part, p, blocks)
  {
    if k == 0 {
      assert part == [] + [Begin(p)] && blocks == {};
      BeginAlone(g, p, part);
    } else {
      var j := k - 1;
      var part1, blocks1 := Part(p, trace[..j]), BlocksOf(trace[..j]);
      TraceAlone(g, p, trace, j, part1, blocks1);
      PrefixBlocks(trace, j, k);
      PrefixWrites(p, trace, j, k);
      assert part == part1 + [Write(p, trace[j].b, trace[j].data)];
      WriteAlone(g, part1, p, blocks1, trace[j].b, trace[j].data, part, blocks);
    }
  }

  /** A whole operation is a group. */
  lemma OperationGathers(g: Geometry, p: nat, trace: seq<Entry>)
    requires Enough(g) && |BlocksOf(trace)| <= MAXOPBLOCKS && forall j | 0 <= j < |trace| :: g.Home(trace[j].b)
    ensures Accepts(g, Events(p, trace)) && Gather(Events(p, trace)) == Grouped([Events(p, trace)], [])
  {
    assert trace[..|trace|] == trace;
    var part, blocks := Part(p, trace), BlocksOf(trace);
    TraceAlone(g, p, trace, |trace|, part, blocks);
    assert Events(p, trace) == part + [End(p)];
    EndAlone(g, part, p, blocks, Events(p, trace));
  }

  // ---- All operations -----------------------------------------------------------------------

  lemma HomeEntries(sb: Super, g: Geometry, trace: seq<Entry>)
    requires Beside(sb, g) && AtHome(sb, BlocksOf(trace))
    ensures forall j | 0 <= j < |trace| :: g.Home(trace[j].b)
  {
    forall j | 0 <= j < |trace| ensures g.Home(trace[j].b) {
      assert trace[j].b in BlocksOf(trace);
    }
  }

  /** One operation, committed by itself. */
  lemma OperationRuns(g: Geometry, s: State, p: nat, trace: seq<Entry>) returns (t: State)
    requires Steady(g, s, []) && Enough(g) && |BlocksOf(trace)| <= MAXOPBLOCKS
    requires forall j | 0 <= j < |trace| :: g.Home(trace[j].b)
    ensures LeadsTo(g, s, t, true) && Steady(g, t, []) && t.groups == s.groups + [Events(p, trace)]
  {
    OperationGathers(g, p, trace);
    t := EventsReached(g, s, Events(p, trace));
  }

  lemma FlatMore(groups: seq<seq<Event>>, procs: seq<nat>, traces: seq<seq<Entry>>, k: nat, n: nat, group: seq<Event>)
    requires k < n <= |traces| == |procs| && n == k + 1 && group == Events(procs[k], traces[k])
    requires |groups| == k && Flat(groups) == FirstEvents(procs, traces, k)
    ensures Flat(groups + [group]) == FirstEvents(procs, traces, n)
  {
    assert (groups + [group])[..k] == groups;
  }

  /** The groups are the first `n` operations. */
  ghost predicate GroupsAre(groups: seq<seq<Event>>, procs: seq<nat>, traces: seq<seq<Entry>>, n: nat) {
    && n <= |traces| == |procs| && |groups| == n && Flat(groups) == FirstEvents(procs, traces, n)
    && forall k | 0 <= k < n :: groups[k] == Events(procs[k], traces[k])
  }

  lemma OneMoreRuns(sb: Super, g: Geometry, s: State, v: View, v': View, procs: seq<nat>, traces: seq<seq<Entry>>,
                    k: nat,
                    n: nat) returns (t: State)
    requires Beside(sb, g) && Enough(g) && Steady(g, s, []) && GroupsAre(s.groups, procs, traces, k)
    requires n == k + 1 <= |traces| && Performs(sb, v, v', traces[k])
    ensures LeadsTo(g, s, t, true) && Steady(g, t, []) && GroupsAre(t.groups, procs, traces, n)
  {
    HomeEntries(sb, g, traces[k]);
    t := OperationRuns(g, s, procs[k], traces[k]);
    FlatMore(s.groups, procs, traces, k, n, Events(procs[k], traces[k]));
  }

  lemma {:induction false} OperationsReached(sb: Super, g: Geometry, s: State, states: seq<View>, procs: seq<nat>,
                                             traces: seq<seq<Entry>>, n: nat) returns (t: State)
    requires Beside(sb, g) && Init(g, s) && Enough(g) && OneByOne(sb, states, traces) && n <= |traces| == |procs|
    ensures LeadsTo(g, s, t, true) && Steady(g, t, []) && GroupsAre(t.groups, procs, traces, n)
  {
    if n == 0 {
      t := BootReached(g, s);
    } else {
      var k := n - 1;
      var s1 := OperationsReached(sb, g, s, states, procs, traces, k);
      assert Performs(sb, states[k], states[n], traces[k]);
      t := OneMoreRuns(sb, g, s1, states[k], states[n], procs, traces, k, n);
      ReachOn(g, s, s1, t, true);
    }
  }

  /**
   * From any formatted disk with a good file system some run does the operations, each a commit group, and its size
   * tests come one at a time.
   */
  lemma OperationsRun(sb: Super, g: Geometry, s: State, states: seq<View>, procs: seq<nat>, traces: seq<seq<Entry>>)
    returns (steps: seq<Step>)
    requires Beside(sb, g) && Init(g, s) && Enough(g) && OneByOne(sb, states, traces) && |traces| == |procs|
    ensures Runs(g, s, steps) && Serial(g, s, steps)
    ensures GroupsAre(Final(g, s, steps).groups, procs, traces, |traces|)
  {
    var t := OperationsReached(sb, g, s, states, procs, traces, |traces|);
    steps :| Leads(g, s, steps, t, true);
  }

  lemma {:induction false} FlatPrefix(groups: seq<seq<Event>>, more: seq<seq<Event>>)
    requires groups <= more
    ensures Flat(groups) <= Flat(more)
  {
    if |groups| < |more| {
      FlatPrefix(groups, more[..|more| - 1]);
    } else {
      assert groups == more;
    }
  }

  /**
   * Any run that makes such operations, in whatever groups, cut off by a crash anywhere: recovery gives the files
   * after some number of the operations.
   */
  lemma CrashAnywhere(sb: Super, g: Geometry, s: State, states: seq<View>, procs: seq<nat>, traces: seq<seq<Entry>>,
                      before: seq<Step>, after: seq<Step>) returns (n: nat)
    requires Beside(sb, g) && Init(g, s) && OneByOne(sb, states, traces) && |procs| == |traces|
    requires states[0].store == s.disk && Runs(g, s, before + after) && Spaced(g, s, before + after)
    requires Flat(Final(g, s, before + after).groups) == FirstEvents(procs, traces, |traces|)
    ensures Runs(g, s, before) && n <= |traces| && Flat(Final(g, s, before).groups) == FirstEvents(procs, traces, n)
    ensures Recovers(sb, g, Final(g, s, before).disk, states[n])
  {
    LogSafety.CrashAtomicity(g, s, before, after);
    SerialAppend(g, s, before, after);
    FlatPrefix(Final(g, s, before).groups, Final(g, s, before + after).groups);
    n := CrashKeepsFiles(sb, g, s, before, states, procs, traces);
  }
}
