/** Interleaved operations over the log: what a crash leaves of them. */
module FsThreadsCrash {
  import opened Blocks
  import opened FsLayout
  import opened FsState
  import opened FsWrite
  import opened FsCrash
  import opened FsThreads
  import opened FsRuns
  import LA = LogAccepts
  import LP = LogProtocol
  import LogSafety

  // ---- What a step logs ---------------------------------------------------------------------

  /** The block a step hands to log_write, or `sb.size` if it logs nothing. */
  ghost function BlockOf(sb: Super, s: State, step: Step): nat
    requires Enabled(sb, s, step)
  {
    match step
    case Begin(_, _, _, _) => sb.size
    case TakeBit(_, b) => sb.BitmapBlock(b)
    case Zero(p) => s.tasks[p].pc.b
    case AddEntry(p) => s.v.nodes[s.tasks[p].i].addrs[NDIRECT]
    case Copy(p) => Ref(s.v.store, s.v.nodes[s.tasks[p].i], SlotOf(s.tasks[p].end / BSIZE))
    case Finish(p) =>
      var t := s.tasks[p];
      if |t.src| > 0 && t.Last() > s.v.nodes[t.i].size then sb.InodeBlock(t.i) else sb.size
    case Trunc(_, _) => sb.size
    case FreeBit(_, b) => sb.BitmapBlock(b)
    case FinishTrunc(p) => sb.InodeBlock(s.tasks[p].i)
  }

  /** A step writes that block of the store and no other. */
  lemma StepWrites(sb: Super, s: State, step: Step)
    requires Enabled(sb, s, step)
    ensures
      var c, store' := BlockOf(sb, s, step), Exec(sb, s, step).v.store;
      && |store'| == |s.v.store| == sb.size
      && (if c < sb.size then store' == Put(s.v.store, c, store'[c]) else store' == s.v.store)
  {
  }

  /** The events of a step: begin_op with its start, end_op with its end. */
  ghost function StepEvents(sb: Super, s: State, step: Step): seq<LP.Event>
    requires Enabled(sb, s, step)
  {
    var c := BlockOf(sb, s, step);
    var write := if c < sb.size && c < |Exec(sb, s, step).v.store|
      then [LP.Write(step.p, c, Exec(sb, s, step).v.store[c])] else [];
    if Starts(step) then [LP.Begin(step.p)]
    else if step.Finish? || step.FinishTrunc? then write + [LP.End(step.p)]
    else write
  }

  /** One step of a run, with what it logs. */
  ghost predicate Stepped(sb: Super, s: State, step: Step, s': State, log: seq<LP.Event>) {
    Enabled(sb, s, step) && s' == Exec(sb, s, step) && log == StepEvents(sb, s, step)
  }

  // ---- Runs ---------------------------------------------------------------------------------

  /** A good file system with its files, and nothing under way. */
  ghost predicate AtStart(sb: Super, s: State) {
    && Good(sb, s.v) && s.tasks == map[] && |s.files| == |s.v.nodes|
    && forall j | 0 <= j < |s.files| :: FileIs(s.v.store, s.v.nodes[j], s.files[j])
  }

  ghost predicate Run(sb: Super, states: seq<State>, steps: seq<Step>, logs: seq<seq<LP.Event>>) {
    && |states| == |steps| + 1 && |logs| == |steps| && AtStart(sb, states[0])
    && (forall k, next | 0 <= k < |steps| && next == k + 1 :: Stepped(sb, states[k], steps[k], states[next], logs[k]))
  }

  /** In every state of every run the invariant holds. */
  lemma {:induction false} RunInv(sb: Super, states: seq<State>, steps: seq<Step>, logs: seq<seq<LP.Event>>, n: nat)
    requires Run(sb, states, steps, logs) && n <= |steps|
    ensures Inv(sb, states[n])
  {
    if n == 0 {
      GoodIsInv(sb, states[0]);
    } else {
      var k := n - 1;
      RunInv(sb, states, steps, logs, k);
      assert Stepped(sb, states[k], steps[k], states[n], logs[k]);
      SteppedInv(sb, states[k], steps[k], states[n], logs[k]);
    }
  }

  lemma SteppedInv(sb: Super, s: State, step: Step, s': State, log: seq<LP.Event>)
    requires Inv(sb, s) && Stepped(sb, s, step, s', log)
    ensures Inv(sb, s')
  {
    StepInv(sb, s, step);
  }

  lemma OneWrite(st: Store, p: nat, c: nat, data: Block)
    requires c < |st|
    ensures LP.Replay(st, [LP.Write(p, c, data)]) == Put(st, c, data)
  {
    var e := [LP.Write(p, c, data)];
    assert e[..0] == [];
  }

  lemma OneMark(st: Store, e: LP.Event)
    requires e.Begin? || e.End?
    ensures LP.Replay(st, [e]) == st
  {
    assert [e][..0] == [];
  }

  /** Replaying a step's events does what the step does to the store. */
  lemma StepReplay(sb: Super, s: State, step: Step, s': State, log: seq<LP.Event>)
    requires Stepped(sb, s, step, s', log)
    ensures LP.Replay(s.v.store, log) == s'.v.store
  {
    StepWrites(sb, s, step);
    var c, store' := BlockOf(sb, s, step), Exec(sb, s, step).v.store;
    if Starts(step) {
      OneMark(s.v.store, LP.Begin(step.p));
    } else {
      if c < sb.size {
        OneWrite(s.v.store, step.p, c, store'[c]);
      }
      if step.Finish? || step.FinishTrunc? {
        OneMark(store', LP.End(step.p));
        if c < sb.size {
          ReplayJoin(s.v.store, [LP.Write(step.p, c, store'[c])], [LP.End(step.p)]);
        }
      }
    }
  }

  /** The events of the first `n` steps, replayed, give the store after them. */
  lemma {:induction false} RunReplay(sb: Super, states: seq<State>, steps: seq<Step>, logs: seq<seq<LP.Event>>, n: nat)
    requires Run(sb, states, steps, logs) && n <= |steps|
    ensures LP.Replay(states[0].v.store, Flat(logs[..n])) == states[n].v.store
  {
    if n > 0 {
      var k := n - 1;
      RunReplay(sb, states, steps, logs, k);
      assert Stepped(sb, states[k], steps[k], states[n], logs[k]);
      StepReplay(sb, states[k], steps[k], states[n], logs[k]);
      ReplayJoin(states[0].v.store, Flat(logs[..k]), logs[k]);
      FlatNext(logs, k, n);
    }
  }

  lemma FlatNext(logs: seq<seq<LP.Event>>, k: nat, n: nat)
    requires k < |logs| && n == k + 1
    ensures Flat(logs[..n]) == Flat(logs[..k]) + logs[k]
  {
    assert logs[..n][..k] == logs[..k];
  }

  // ---- Operations that are open -------------------------------------------------------------

  lemma OpenOne(events: seq<LP.Event>, e: LP.Event)
    ensures LP.Open(events + [e])
         == if e.Begin? then LP.Open(events) + {e.op} else if e.End? then LP.Open(events) - {e.op} else LP.Open(events)
  {
    assert (events + [e])[..|events|] == events;
  }

  lemma TasksMove(sb: Super, s: State, step: Step)
    requires Enabled(sb, s, step)
    ensures
      var tasks' := Exec(sb, s, step).tasks;
      tasks'.Keys == if Starts(step) then s.tasks.Keys + {step.p}
                     else if step.Finish? || step.FinishTrunc? then s.tasks.Keys - {step.p}
                     else s.tasks.Keys
    ensures !Starts(step) ==> step.p in s.tasks
  {
  }

  lemma StepOpen(sb: Super, s: State, step: Step, s': State, log: seq<LP.Event>, events: seq<LP.Event>)
    requires Stepped(sb, s, step, s', log) && LP.Open(events) == s.tasks.Keys
    ensures LP.Open(events + log) == s'.tasks.Keys
  {
    TasksMove(sb, s, step);
    if |log| == 1 {
      OpenOne(events, log[0]);
      assert log == [log[0]];
    } else {
      OpenOne(events, log[0]);
      OpenOne(events + [log[0]], log[1]);
      assert events + log == events + [log[0]] + [log[1]];
    }
  }

  /** The operations open in the log are the tasks under way. */
  lemma {:induction false} RunOpen(sb: Super, states: seq<State>, steps: seq<Step>, logs: seq<seq<LP.Event>>, n: nat)
    requires Run(sb, states, steps, logs) && n <= |steps|
    ensures LP.Open(Flat(logs[..n])) == states[n].tasks.Keys
  {
    if n > 0 {
      var k := n - 1;
      RunOpen(sb, states, steps, logs, k);
      assert Stepped(sb, states[k], steps[k], states[n], logs[k]);
      StepOpen(sb, states[k], steps[k], states[n], logs[k], Flat(logs[..k]));
      FlatNext(logs, k, n);
    }
  }

  /** In the middle of a step its process is open. */
  lemma MiddleOpen(sb: Super, s: State, step: Step, s': State, log: seq<LP.Event>, events: seq<LP.Event>, k: nat)
    requires Stepped(sb, s, step, s', log) && LP.Open(events) == s.tasks.Keys && 0 < k < |log|
    ensures step.p in LP.Open(events + log[..k])
  {
    TasksMove(sb, s, step);
    assert k == 1 && log[..1] == [log[0]] && log[0].Write?;
    OpenOne(events, log[0]);
  }

  /** Events that end inside the last step leave an operation open. */
  lemma CutOpen(sb: Super, states: seq<State>, steps: seq<Step>, logs: seq<seq<LP.Event>>, last: nat, m: nat,
                events: seq<LP.Event>, k: nat)
    requires Run(sb, states, steps, logs) && last < |steps| && m == last + 1 && 0 < k < |logs[last]|
    requires events == Flat(logs[..last]) + logs[last][..k]
    ensures LP.Open(events) != {}
  {
    RunOpen(sb, states, steps, logs, last);
    assert Stepped(sb, states[last], steps[last], states[m], logs[last]);
    MiddleOpen(sb, states[last], steps[last], states[m], logs[last], Flat(logs[..last]), k);
  }

  /** Events with no operation open that begin a run are those up to a state with nothing under way. */
  lemma {:induction false} EndsQuiet(sb: Super, states: seq<State>, steps: seq<Step>, logs: seq<seq<LP.Event>>, m: nat,
                                     events: seq<LP.Event>)
    returns (n: nat)
    requires Run(sb, states, steps, logs) && m <= |steps| && events <= Flat(logs[..m]) && LP.Open(events) == {}
    ensures n <= m && events == Flat(logs[..n]) && states[n].tasks == map[]
  {
    if m == 0 {
      n := 0;
    } else {
      var last := m - 1;
      var first := Flat(logs[..last]);
      FlatNext(logs, last, m);
      if |events| <= |first| {
        n := EndsQuiet(sb, states, steps, logs, last, events);
      } else {
        var k := |events| - |first|;
        assert events == first + logs[last][..k];
        if k < |logs[last]| {
          CutOpen(sb, states, steps, logs, last, m, events, k);
        }
        assert logs[last][..k] == logs[last];
        RunOpen(sb, states, steps, logs, m);
        n := m;
      }
    }
  }

  // ---- Main results -------------------------------------------------------------------------

  /**
   * At every point of every interleaving with nothing under way, the file system is good and has the finished files.
   */
  lemma QuietRun(sb: Super, states: seq<State>, steps: seq<Step>, logs: seq<seq<LP.Event>>, n: nat)
    requires Run(sb, states, steps, logs) && n <= |steps| && states[n].tasks == map[]
    ensures Good(sb, states[n].v) && |states[n].files| == |states[n].v.nodes|
    ensures forall j | 0 <= j < |states[n].files| ::
              states[n].v.nodes[j].size <= MAXFILE * BSIZE && Contents(states[n].v.store, states[n].v.nodes[j])
                == states[n].files[j]
  {
    RunInv(sb, states, steps, logs, n);
    QuietIsGood(sb, states[n]);
  }

  /**
   * Group commit. Operations of any number of processes interleave in any way, and what the log has committed is
   * the beginning of what they logged. After a crash anywhere recovery gives a good file system; its files are
   * what the operations that had finished at some point with nothing under way made of them, each as a whole.
   */
  lemma CrashKeepsFinished(sb: Super, g: LP.Geometry, s: LP.State, lsteps: seq<LP.Step>, states: seq<State>,
                           steps: seq<Step>,
                           logs: seq<seq<LP.Event>>) returns (n: nat)
    requires Beside(sb, g) && LP.Init(g, s) && LP.Runs(g, s, lsteps) && LP.Spaced(g, s, lsteps)
    requires Run(sb, states, steps, logs) && states[0].v.store == s.disk
    requires Flat(LP.Final(g, s, lsteps).groups) <= Flat(logs)
    ensures n <= |steps| && states[n].tasks == map[] && Flat(LP.Final(g, s, lsteps).groups) == Flat(logs[..n])
    ensures Recovers(sb, g, LP.Final(g, s, lsteps).disk, states[n].v) && |states[n].files| == |states[n].v.nodes|
    ensures forall j | 0 <= j < |states[n].files| ::
              && states[n].v.nodes[j].size <= MAXFILE * BSIZE
              && Contents(LP.Recovered(g, LP.Final(g, s, lsteps).disk), states[n].v.nodes[j]) == states[n].files[j]
  {
    assert lsteps + [] == lsteps;
    LogSafety.CrashAtomicity(g, s, lsteps, []);
    var now := LP.Final(g, s, lsteps);
    FlatOpen(now.groups);
    assert logs[..|steps|] == logs;
    n := EndsQuiet(sb, states, steps, logs, |steps|, Flat(now.groups));
    FlatReplay(s.disk, now.groups);
    RunReplay(sb, states, steps, logs, n);
    QuietRun(sb, states, steps, logs, n);
    FilesKept(sb, states[n].v, LP.Recovered(g, now.disk));
  }

  // ---- Interleavings are runs of the log ----------------------------------------------------

  lemma RefAtHome(sb: Super, v: View, i: nat, slot: nat)
    requires sb.Valid() && |v.store| == sb.size && Shaped(v.nodes) && Refs(sb, v.store, v.nodes, v.own)
    requires i < |v.nodes| && slot < NSLOTS && Ref(v.store, v.nodes[i], slot) != 0
    ensures sb.inodestart <= Ref(v.store, v.nodes[i], slot)
  {
    assert Ref(v.store, v.nodes[i], slot) in v.own;
  }

  lemma HeldAtHome(sb: Super, s: State, p: nat)
    requires Inv(sb, s) && p in s.tasks && s.tasks[p].pc.Taken?
    ensures sb.inodestart <= s.tasks[p].pc.b
  {
    var b := s.tasks[p].pc.b;
    assert b in HeldOf(s.tasks[p]);
    assert b in Held(s.tasks);
  }

  lemma CopyAtHome(sb: Super, s: State, p: nat)
    requires Inv(sb, s) && Enabled(sb, s, Copy(p))
    ensures sb.inodestart <= BlockOf(sb, s, Copy(p))
  {
    var t := s.tasks[p];
    RefAtHome(sb, s.v, t.i, SlotOf(t.end / BSIZE));
  }

  lemma EntryAtHome(sb: Super, s: State, p: nat)
    requires Inv(sb, s) && Enabled(sb, s, AddEntry(p))
    ensures sb.inodestart <= BlockOf(sb, s, AddEntry(p))
  {
    var t := s.tasks[p];
    assert Ref(s.v.store, s.v.nodes[t.i], NDIRECT) == s.v.nodes[t.i].addrs[NDIRECT];
    RefAtHome(sb, s.v, t.i, NDIRECT);
  }

  /** A step logs an inode, free map or data block. */
  lemma BlockAtHome(sb: Super, s: State, step: Step)
    requires Inv(sb, s) && Enabled(sb, s, step)
    ensures sb.inodestart <= BlockOf(sb, s, step)
  {
    match step
    case Zero(p) => HeldAtHome(sb, s, p);
    case AddEntry(p) => EntryAtHome(sb, s, p);
    case Copy(p) => CopyAtHome(sb, s, p);
    case _ =>
  }

  lemma InOrderOne(g: LP.Geometry, events: seq<LP.Event>, e: LP.Event)
    requires LA.AllInOrder(g, events) && LA.InOrder(g, LP.Open(events), e)
    ensures LA.AllInOrder(g, events + [e])
  {
    assert (events + [e])[..|events|] == events;
  }

  /** The events of one step: at most a write and an end, of a process that is under way. */
  lemma StepEventsInOrder(sb: Super, g: LP.Geometry, s: State, step: Step, s': State, log: seq<LP.Event>)
    requires Beside(sb, g) && Stepped(sb, s, step, s', log) && sb.inodestart <= BlockOf(sb, s, step)
    ensures 1 <= |log| <= 2 && LA.InOrder(g, s.tasks.Keys, log[0])
    ensures |log| == 2 ==> log[0].Write? && LA.InOrder(g, s.tasks.Keys, log[1])
  {
    TasksMove(sb, s, step);
  }

  lemma StepInOrder(sb: Super, g: LP.Geometry, s: State, step: Step, s': State, log: seq<LP.Event>,
                    events: seq<LP.Event>)
    requires Beside(sb, g) && Stepped(sb, s, step, s', log) && sb.inodestart <= BlockOf(sb, s, step)
    requires LP.Open(events) == s.tasks.Keys && LA.AllInOrder(g, events)
    ensures LA.AllInOrder(g, events + log)
  {
    StepEventsInOrder(sb, g, s, step, s', log);
    InOrderOne(g, events, log[0]);
    if |log| == 1 {
      assert log == [log[0]];
    } else {
      OpenOne(events, log[0]);
      InOrderOne(g, events + [log[0]], log[1]);
      assert events + log == events + [log[0]] + [log[1]];
    }
  }

  /** What an interleaving logs is in order: operations begin before they log home blocks and end. */
  lemma {:induction false} RunInOrder(sb: Super, g: LP.Geometry, states: seq<State>, steps: seq<Step>,
                                      logs: seq<seq<LP.Event>>, n: nat)
    requires Beside(sb, g) && Run(sb, states, steps, logs) && n <= |steps|
    ensures LA.AllInOrder(g, Flat(logs[..n]))
  {
    if n > 0 {
      var k := n - 1;
      RunInOrder(sb, g, states, steps, logs, k);
      RunInv(sb, states, steps, logs, k);
      RunOpen(sb, states, steps, logs, k);
      assert Stepped(sb, states[k], steps[k], states[n], logs[k]);
      BlockAtHome(sb, states[k], steps[k]);
      StepInOrder(sb, g, states[k], steps[k], states[n], logs[k], Flat(logs[..k]));
      FlatNext(logs, k, n);
    }
  }

  lemma {:induction false} GatherFlat(events: seq<LP.Event>)
    ensures var now := LA.Gather(events); Flat(now.groups) + now.pending == events
  {
    if events != [] {
      var before, e := events[..|events| - 1], events[|events| - 1];
      GatherFlat(before);
      GatherFlatOne(LA.Gather(before), e);
      assert events == before + [e];
    }
  }

  lemma GatherFlatOne(now: LA.Grouped, e: LP.Event)
    ensures var next := LA.Gather1(now, e); Flat(next.groups) + next.pending == Flat(now.groups) + now.pending + [e]
  {
    var group := now.pending + [e];
    assert (now.groups + [group])[..|now.groups|] == now.groups;
    assert Flat(now.groups) + group == Flat(now.groups) + now.pending + [e];
  }

  /**
   * Every interleaving is a run of the log, provided that the log has space for it as it goes: begin_op admits each
   * operation, each keeps to MAXOPBLOCKS, and log_write's guard lets each block through. From any formatted disk some
   * run of the log then logs exactly what the interleaving does, commits whenever nothing is under way, and makes its
   * size tests one at a time.
   */
  lemma ThreadsRun(sb: Super, g: LP.Geometry, s: LP.State, states: seq<State>, steps: seq<Step>,
                   logs: seq<seq<LP.Event>>) returns (lsteps: seq<LP.Step>)
    requires Beside(sb, g) && LP.Init(g, s) && Run(sb, states, steps, logs) && LA.HasSpace(g, Flat(logs))
    ensures LP.Runs(g, s, lsteps) && LP.Serial(g, s, lsteps)
    ensures var now := LP.Final(g, s, lsteps); Flat(now.groups) + now.pending == Flat(logs)
    ensures states[|steps|].tasks == map[] ==> Flat(LP.Final(g, s, lsteps).groups) == Flat(logs)
  {
    assert logs[..|steps|] == logs;
    RunInOrder(sb, g, states, steps, logs, |steps|);
    LA.SpaceAccepts(g, Flat(logs));
    lsteps := LA.EventsRun(g, s, Flat(logs));
    GatherFlat(Flat(logs));
    RunOpen(sb, states, steps, logs, |steps|);
    LA.GatherOpen(Flat(logs));
    LA.QuietPending(g, Flat(logs));
  }

  /** And a crash at any point of any run that logs the interleaving leaves whole operations only. */
  lemma CrashAmongThreads(sb: Super, g: LP.Geometry, s: LP.State, before: seq<LP.Step>, after: seq<LP.Step>,
                          states: seq<State>, steps: seq<Step>, logs: seq<seq<LP.Event>>) returns (n: nat)
    requires Beside(sb, g) && LP.Init(g, s) && LP.Runs(g, s, before + after) && LP.Spaced(g, s, before + after)
    requires Run(sb, states, steps, logs) && states[0].v.store == s.disk
    requires Flat(LP.Final(g, s, before + after).groups) <= Flat(logs)
    ensures LP.Runs(g, s, before) && n <= |steps| && states[n].tasks == map[]
    ensures Flat(LP.Final(g, s, before).groups) == Flat(logs[..n])
    ensures Recovers(sb, g, LP.Final(g, s, before).disk, states[n].v) && |states[n].files| == |states[n].v.nodes|
    ensures forall j | 0 <= j < |states[n].files| ::
              && states[n].v.nodes[j].size <= MAXFILE * BSIZE
              && Contents(LP.Recovered(g, LP.Final(g, s, before).disk), states[n].v.nodes[j]) == states[n].files[j]
  {
    LogSafety.CrashAtomicity(g, s, before, after);
    LP.SerialAppend(g, s, before, after);
    FlatPrefix(LP.Final(g, s, before).groups, LP.Final(g, s, before + after).groups);
    n := CrashKeepsFinished(sb, g, s, before, states, steps, logs);
  }
}
