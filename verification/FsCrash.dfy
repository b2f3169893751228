/** The file system over the log: after a crash the files are those of the committed operations. */
module FsCrash {
  import opened Blocks
  import opened FsLayout
  import opened FsState
  import opened FsWrite
  import opened FsLog
  import opened FileWrite
  import LP = LogProtocol
  import LogSafety

  /** The file system lies behind the log of the same disk: boot and super block, log, inodes, free map, data. */
  ghost predicate Beside(sb: Super, g: LP.Geometry) {
    sb.Valid() && g.Valid() && g.blocks == sb.size && g.start + g.size <= sb.inodestart
  }

  /** Two stores that agree on inodes, free map and data. */
  ghost predicate Agree(sb: Super, store: Store, store': Store) {
    |store| == |store'| == sb.size && forall b | sb.inodestart <= b < sb.size :: store'[b] == store[b]
  }

  lemma ConsistentKept(sb: Super, v: View, store: Store)
    requires Good(sb, v) && Agree(sb, v.store, store)
    ensures SameRefs(v.nodes, v.store, store) && Consistent(sb, View(store, v.nodes, v.own), sb.ninodes)
  {
    RefsFrame(sb, v.store, store, v.nodes, v.own);
    forall b | 0 <= b < sb.size ensures Marked(sb, store, b) <==> Marked(sb, v.store, b) {
      assert sb.inodestart <= sb.BitmapBlock(b) < sb.size;
    }
    forall j | 0 <= j < |v.nodes| ensures InodeOnDisk(sb, store, j) == v.nodes[j] {
      assert sb.inodestart <= sb.InodeBlock(j) < sb.size;
    }
  }

  lemma ExtentKept(store: Store, store': Store, d: Dinode, m: nat)
    requires |d.addrs| == NDIRECT + 1 && Extent(store, d, m) && forall s | 0 <= s < NSLOTS ::
              Ref(store', d, s) == Ref(store, d, s)
    ensures Extent(store', d, m)
  {
    forall bn | 0 <= bn < MAXFILE ensures Ref(store', d, SlotOf(bn)) != 0 <==> bn < m {
      assert Ref(store', d, SlotOf(bn)) == Ref(store, d, SlotOf(bn));
    }
  }

  lemma FileKept(sb: Super, v: View, store: Store, j: nat)
    requires Good(sb, v) && Agree(sb, v.store, store) && SameRefs(v.nodes, v.store, store) && j < |v.nodes|
    ensures Filled(store, v.nodes[j]) && Contents(store, v.nodes[j]) == Contents(v.store, v.nodes[j])
  {
    var d := v.nodes[j];
    assert Filled(v.store, d);
    ExtentKept(v.store, store, d, BlocksFor(d.size));
    forall k | 0 <= k < d.size ensures ByteAt(store, d, k) == ByteAt(v.store, d, k) {
      var s := SlotOf(k / BSIZE);
      assert Ref(v.store, d, s) != 0 && Ref(store, d, s) == Ref(v.store, d, s);
      assert Ref(v.store, d, s) in v.own;
    }
  }

  /** A file system is its inode, free map and data blocks. */
  lemma FilesKept(sb: Super, v: View, store: Store)
    requires Good(sb, v) && Agree(sb, v.store, store)
    ensures Good(sb, View(store, v.nodes, v.own)) && SameFiles(v, store)
  {
    ConsistentKept(sb, v, store);
    forall j | 0 <= j < |v.nodes|
      ensures Filled(store, v.nodes[j]) && Contents(store, v.nodes[j]) == Contents(v.store, v.nodes[j])
    {
      FileKept(sb, v, store, j);
    }
  }

  /** Every file has the same bytes in `store`. */
  ghost predicate SameFiles(v: View, store: Store)
    requires Shaped(v.nodes)
  {
    forall j | 0 <= j < |v.nodes| && v.nodes[j].size <= MAXFILE * BSIZE ::
        Contents(store, v.nodes[j]) == Contents(v.store, v.nodes[j])
  }

  // ---- Operations as events of the log ------------------------------------------------------

  /** The calls of log_write in `trace`, made by process `p`. */
  function Writes(p: nat, trace: seq<Entry>): (r: seq<LP.Event>)
    ensures |r| == |trace|
  {
    seq(|trace|, k requires 0 <= k < |trace| => LP.Write(p, trace[k].b, trace[k].data))
  }

  /** A whole operation of process `p`. */
  function Events(p: nat, trace: seq<Entry>): seq<LP.Event> {
    [LP.Begin(p)] + Writes(p, trace) + [LP.End(p)]
  }

  /** The first `n` operations, one after the other. */
  function FirstEvents(procs: seq<nat>, traces: seq<seq<Entry>>, n: nat): seq<LP.Event>
    requires n <= |traces| == |procs|
  {
    if n == 0 then [] else FirstEvents(procs, traces, n - 1) + Events(procs[n - 1], traces[n - 1])
  }

  /** The events of all groups in order. */
  function Flat(groups: seq<seq<LP.Event>>): seq<LP.Event> {
    if groups == [] then [] else Flat(groups[..|groups| - 1]) + groups[|groups| - 1]
  }

  lemma {:induction false} ReplayJoin(st: Store, a: seq<LP.Event>, b: seq<LP.Event>)
    ensures LP.Replay(st, a + b) == LP.Replay(LP.Replay(st, a), b)
  {
    if b == [] {
      assert a + b == a;
    } else {
      var most := b[..|b| - 1];
      ReplayJoin(st, a, most);
      assert (a + b)[..|a + b| - 1] == a + most && (a + b)[|a + b| - 1] == b[|b| - 1];
    }
  }

  lemma {:induction false} FlatReplay(st: Store, groups: seq<seq<LP.Event>>)
    ensures LP.ReplayAll(st, groups) == LP.Replay(st, Flat(groups))
  {
    if groups != [] {
      var most := groups[..|groups| - 1];
      FlatReplay(st, most);
      ReplayJoin(st, Flat(most), groups[|groups| - 1]);
    }
  }

  lemma {:induction false} WritesReplay(st: Store, p: nat, trace: seq<Entry>)
    ensures LP.Replay(st, Writes(p, trace)) == Applied(st, trace)
  {
    if trace != [] {
      var most := trace[..|trace| - 1];
      WritesReplay(st, p, most);
      assert Writes(p, trace)[..|trace| - 1] == Writes(p, most);
    }
  }

  /** Begin and End change no block. */
  lemma EventsReplay(st: Store, p: nat, trace: seq<Entry>)
    ensures LP.Replay(st, Events(p, trace)) == Applied(st, trace)
  {
    var begin, writes, end := [LP.Begin(p)], Writes(p, trace), [LP.End(p)];
    assert begin[..0] == [] && LP.Replay(st, begin) == st;
    ReplayJoin(st, begin, writes);
    ReplayJoin(st, begin + writes, end);
    WritesReplay(st, p, trace);
    assert end[..0] == [];
  }

  /** The first `n` operations make `states[n]` of the first store. */
  lemma {:induction false} FirstReplay(sb: Super, states: seq<View>, procs: seq<nat>, traces: seq<seq<Entry>>, n: nat)
    requires OneByOne(sb, states, traces) && n <= |traces| == |procs|
    ensures LP.Replay(states[0].store, FirstEvents(procs, traces, n)) == states[n].store && Good(sb, states[n])
  {
    if n > 0 {
      var k := n - 1;
      FirstReplay(sb, states, procs, traces, k);
      assert Performs(sb, states[k], states[n], traces[k]);
      ReplayJoin(states[0].store, FirstEvents(procs, traces, k), Events(procs[k], traces[k]));
      EventsReplay(states[k].store, procs[k], traces[k]);
    }
  }

  // ---- Commit groups end between operations -------------------------------------------------

  lemma {:induction false} OpenJoin(a: seq<LP.Event>, b: seq<LP.Event>)
    requires LP.Open(a) == {}
    ensures LP.Open(a + b) == LP.Open(b)
  {
    if b == [] {
      assert a + b == a;
    } else {
      var most := b[..|b| - 1];
      OpenJoin(a, most);
      assert (a + b)[..|a + b| - 1] == a + most && (a + b)[|a + b| - 1] == b[|b| - 1];
    }
  }

  lemma {:induction false} FlatOpen(groups: seq<seq<LP.Event>>)
    requires forall i | 0 <= i < |groups| :: LP.Whole(groups[i])
    ensures LP.Open(Flat(groups)) == {}
  {
    if groups != [] {
      var most := groups[..|groups| - 1];
      FlatOpen(most);
      OpenJoin(Flat(most), groups[|groups| - 1]);
    }
  }

  /** Inside an operation its process is open. */
  lemma {:induction false} PartOpen(p: nat, trace: seq<Entry>, k: nat)
    requires 0 < k <= |trace| + 1
    ensures LP.Open(Events(p, trace)[..k]) == {p}
  {
    var part := Events(p, trace)[..k];
    if k == 1 {
      assert part == [LP.Begin(p)] && part[..0] == [];
    } else {
      PartOpen(p, trace, k - 1);
      assert part[..k - 1] == Events(p, trace)[..k - 1] && part[k - 1] == Writes(p, trace)[k - 2];
    }
  }

  lemma EventsClosed(p: nat, trace: seq<Entry>)
    ensures LP.Open(Events(p, trace)) == {}
  {
    var all := Events(p, trace);
    var k := |trace| + 1;
    PartOpen(p, trace, k);
    assert all[..|all| - 1] == all[..k];
  }

  lemma {:induction false} FirstClosed(procs: seq<nat>, traces: seq<seq<Entry>>, n: nat)
    requires n <= |traces| == |procs|
    ensures LP.Open(FirstEvents(procs, traces, n)) == {}
  {
    if n > 0 {
      FirstClosed(procs, traces, n - 1);
      OpenJoin(FirstEvents(procs, traces, n - 1), Events(procs[n - 1], traces[n - 1]));
      EventsClosed(procs[n - 1], traces[n - 1]);
    }
  }

  /** Events with no operation open that begin a history of operations are the first few of them. */
  lemma {:induction false} EndsBetween(procs: seq<nat>, traces: seq<seq<Entry>>, m: nat, events: seq<LP.Event>)
    returns (n: nat)
    requires m <= |traces| == |procs| && events <= FirstEvents(procs, traces, m) && LP.Open(events) == {}
    ensures n <= m && events == FirstEvents(procs, traces, n)
  {
    if m == 0 {
      n := 0;
    } else {
      var first, last := FirstEvents(procs, traces, m - 1), Events(procs[m - 1], traces[m - 1]);
      if |events| <= |first| {
        n := EndsBetween(procs, traces, m - 1, events);
      } else {
        var k := |events| - |first|;
        assert events == first + last[..k];
        FirstClosed(procs, traces, m - 1);
        OpenJoin(first, last[..k]);
        if k < |last| {
          PartOpen(procs[m - 1], traces[m - 1], k);
          assert false;
        }
        assert last[..k] == last;
        n := m;
      }
    }
  }

  // ---- Main results -------------------------------------------------------------------------

  /**
   * A run whose commit groups are made of operations, one after the other: after a crash anywhere, recovery
   * gives a good file system, and its files are byte for byte those after the first `n` of the operations.
   */
  lemma CrashKeepsFiles(sb: Super, g: LP.Geometry, s: LP.State, steps: seq<LP.Step>,
                        states: seq<View>, procs: seq<nat>, traces: seq<seq<Entry>>) returns (n: nat)
    requires Beside(sb, g) && LP.Init(g, s) && LP.Runs(g, s, steps) && LP.Spaced(g, s, steps)
    requires OneByOne(sb, states, traces) && |procs| == |traces| && states[0].store == s.disk
    requires Flat(LP.Final(g, s, steps).groups) <= FirstEvents(procs, traces, |traces|)
    ensures n <= |traces| && Flat(LP.Final(g, s, steps).groups) == FirstEvents(procs, traces, n)
    ensures Recovers(sb, g, LP.Final(g, s, steps).disk, states[n])
  {
    assert steps + [] == steps;
    LogSafety.CrashAtomicity(g, s, steps, []);
    var now := LP.Final(g, s, steps);
    FlatOpen(now.groups);
    n := EndsBetween(procs, traces, |traces|, Flat(now.groups));
    FlatReplay(s.disk, now.groups);
    FirstReplay(sb, states, procs, traces, n);
    FilesKept(sb, states[n], LP.Recovered(g, now.disk));
  }

  /** Recovery from `disk` gives the files of `v`. */
  ghost predicate Recovers(sb: Super, g: LP.Geometry, disk: LP.Disk, v: View) {
    && LP.Readable(g, disk) && Shaped(v.nodes)
    && Good(sb, View(LP.Recovered(g, disk), v.nodes, v.own)) && SameFiles(v, LP.Recovered(g, disk))
  }

  /** File `i` of `v` with the first `k` bytes of `src` written over it at `off`. */
  ghost function Partly(v: View, i: nat, off: nat, src: seq<Byte>, k: nat): seq<Byte>
    requires i < |v.nodes| && Shaped(v.nodes) && v.nodes[i].size <= MAXFILE * BSIZE && k <= |src|
      && (k > 0 ==> off <= v.nodes[i].size)
  {
    var c := Contents(v.store, v.nodes[i]);
    if k == 0 then c else Spliced(c, off, src[..k])
  }

  lemma PartContents(sb: Super, v: View, v': View, i: nat, off: nat, src: seq<Byte>, k: nat)
    requires AtBoundary(sb, v, v', i, off, src, k)
    ensures |v'.nodes| == |v.nodes| && Filled(v.store, v.nodes[i]) && Filled(v'.store, v'.nodes[i])
    ensures k > 0 ==> off <= v.nodes[i].size
    ensures Contents(v'.store, v'.nodes[i]) == Partly(v, i, off, src, k)
  {
    assert Filled(v.store, v.nodes[i]);
  }

  /**
   * A crash inside or after a filewrite whose operations come after `lo` others: either some of the others are
   * lost too, or the file has exactly the chunks up to `k` and no other file differs.
   */
  lemma CrashInFilewrite(sb: Super, g: LP.Geometry, s: LP.State, steps: seq<LP.Step>,
                         states: seq<View>, procs: seq<nat>, traces: seq<seq<Entry>>, lo: nat,
                         c: Chunks, v: View, v': View, i: nat, off: nat, src: seq<Byte>, done: nat)
    returns (n: nat, k: nat)
    requires Beside(sb, g) && LP.Init(g, s) && LP.Runs(g, s, steps) && LP.Spaced(g, s, steps)
    requires OneByOne(sb, states, traces) && |procs| == |traces| && states[0].store == s.disk
    requires Flat(LP.Final(g, s, steps).groups) <= FirstEvents(procs, traces, |traces|)
    requires lo <= |traces| && states[lo..] == c.states && traces[lo..] == c.traces
    requires Led(sb, c, v, v', i, off, src, done)
    ensures n <= |traces| && Flat(LP.Final(g, s, steps).groups) == FirstEvents(procs, traces, n)
    ensures Recovers(sb, g, LP.Final(g, s, steps).disk, states[n])
    ensures n >= lo ==> AtBoundary(sb, v, states[n], i, off, src, k) && |states[n].nodes| == |v.nodes|
    ensures n >= lo ==> v.nodes[i].size <= MAXFILE * BSIZE && states[n].nodes[i].size <= MAXFILE * BSIZE
    ensures n >= lo ==> k <= |src| && (k % CHUNK == 0 || k == |src|) && (k > 0 ==> off <= v.nodes[i].size)
    ensures n >= lo ==>
              Contents(LP.Recovered(g, LP.Final(g, s, steps).disk), states[n].nodes[i]) == Partly(v, i, off, src, k)
  {
    n := CrashKeepsFiles(sb, g, s, steps, states, procs, traces);
    k := 0;
    if n >= lo {
      var j := n - lo;
      k := c.at[j];
      assert c.states[j] == states[n];
      assert AtBoundary(sb, c.states[0], c.states[j], i, off, src, c.at[j]);
      PartContents(sb, v, states[n], i, off, src, k);
    }
  }
}
