/**
 * The write-ahead log of log.c as a step machine: file-system operations run concurrently between
 * begin_op and end_op, the last one out commits, and the machine may crash between any two disk writes.
 */
module LogProtocol {
  import opened Blocks

  const MAXOPBLOCKS := 10
  const LOGSIZE := MAXOPBLOCKS * 3
  const NBUF := MAXOPBLOCKS * 3

  // ---- The on-disk header block -------------------------------------------------------------

  predicate HeaderOk(b: Block) {
    Word(b, 0) <= LOGSIZE
  }

  /** The block numbers a header block lists: word 0 is `n`, words 1..n are `block[0..n]`. */
  function Header(b: Block): (lh: seq<nat>)
    requires HeaderOk(b)
    ensures |lh| == Word(b, 0)
  {
    seq(Word(b, 0), i requires 0 <= i < Word(b, 0) => Word(b, 1 + i))
  }

  predicate Encodable(lh: seq<nat>) {
    |lh| <= LOGSIZE && forall i | 0 <= i < |lh| :: lh[i] < WORD
  }

  /** write_head's buffer after its first `k` entries are stored; later entries stay as they were. */
  function PutEntries(b: Block, lh: seq<nat>, k: nat): Block
    requires Encodable(lh) && k <= |lh|
  {
    if k == 0 then PutWord(b, 0, |lh|) else PutWord(PutEntries(b, lh, k - 1), k, lh[k - 1])
  }

  function PutHeader(b: Block, lh: seq<nat>): Block
    requires Encodable(lh)
  {
    PutEntries(b, lh, |lh|)
  }

  lemma {:induction false} EntriesPut(b: Block, lh: seq<nat>, k: nat, j: nat)
    requires Encodable(lh) && k <= |lh| && j <= k
    ensures Word(PutEntries(b, lh, k), j) == if j == 0 then |lh| else lh[j - 1]
  {
    if k == 0 {
      WordPut(b, 0, |lh|, 0);
    } else {
      WordPut(PutEntries(b, lh, k - 1), k, lh[k - 1], j);
      if j < k {
        EntriesPut(b, lh, k - 1, j);
      }
    }
  }

  /** What write_head stores, read_head reads back, whatever the block held before. */
  lemma HeaderRoundTrip(b: Block, lh: seq<nat>)
    requires Encodable(lh)
    ensures HeaderOk(PutHeader(b, lh)) && Header(PutHeader(b, lh)) == lh
  {
    forall j | 0 <= j <= |lh| ensures Word(PutHeader(b, lh), j) == if j == 0 then |lh| else lh[j - 1] {
      EntriesPut(b, lh, |lh|, j);
    }
  }

  // ---- State --------------------------------------------------------------------------------

  type Disk = seq<Block>

  /** `log.start` and `log.size` from the super block, the number of blocks of the disk, and that of buffers. */
  datatype Geometry = Geometry(start: nat, size: nat, blocks: nat, nbuf: nat) {
    predicate Valid() {
      1 <= size && start + size <= blocks <= WORD && 2 <= nbuf
    }

    /** Blocks outside the log region: the ones the log protects. */
    predicate Home(b: nat) {
      b < blocks && !(start <= b < start + size)
    }

    /** log_write's limit: `lh.n >= LOGSIZE || lh.n >= log.size - 1` panics. */
    function Capacity(): nat
      requires Valid()
    {
      if size - 1 < LOGSIZE then size - 1 else LOGSIZE
    }

    /**
     * Whatever the interleaving, no slot outside the log region is written: there is room for LOGSIZE blocks behind
     * the header, or for none, or an overfull log pins every buffer, so that it cannot be copied. mkfs gives
     * `size == LOGSIZE` and param.h `nbuf == NBUF`, which is the last case.
     */
    predicate Roomy() {
      size == 1 || size > LOGSIZE || nbuf <= size
    }

    /** Where the `i`th logged block is kept. */
    function Slot(i: nat): nat {
      start + 1 + i
    }
  }

  /** Who has a buffer locked, and whether they changed it without calling log_write yet. */
  datatype Holder = NoOne | Held(who: nat, changed: bool)

  datatype Buf = Buf(data: Block, dirty: bool, holder: Holder)

  datatype Event = Begin(op: nat) | Write(op: nat, b: nat, data: Block) | End(op: nat)

  datatype Phase =
    | Idle                                  // not committing: operations may start
    | WritingLog(tail: nat)                 // commit: write_log has copied `tail` blocks
    | Installing(tail: nat, boot: bool)     // install_trans has copied `tail` blocks
    | Finishing                             // header cleared, committing still set
    | Booting                               // after a crash, before read_head

  /**
   * `disk` survives a crash; `cache`, `lh`, `ops`, `passed` and `phase` do not. The rest is history: `groups` lists
   * the commit groups whose header write finished, `pending` the events of the group being gathered,
   * `base` and `cur` the block store with the committed groups, and with everything, applied.
   */
  datatype State = State(
    disk: Disk,
    cache: map<nat, Buf>,
    lh: seq<nat>,
    ops: map<nat, set<nat>>,     // outstanding operations and the blocks each has logged
    passed: map<nat, nat>,       // processes between log_write's size test and its append, and for which block
    phase: Phase,
    groups: seq<seq<Event>>,
    pending: seq<Event>,
    base: Disk,
    cur: Disk)

  /** What bread finds in block `b`. */
  function Seen(s: State, b: nat): Block
    requires b < |s.disk|
  {
    if b in s.cache then s.cache[b].data else s.disk[b]
  }

  /** The buffer bread has after it looked block `b` up, reading the disk on a miss. */
  function Fetched(s: State, b: nat): Buf
    requires b < |s.disk|
  {
    if b in s.cache then s.cache[b] else Buf(s.disk[b], false, NoOne)
  }

  predicate Unheld(s: State, b: nat) {
    b in s.cache ==> s.cache[b].holder == NoOne
  }

  predicate Holds(s: State, p: nat, b: nat) {
    b in s.cache && s.cache[b].holder.Held? && s.cache[b].holder.who == p
  }

  /** log.c:218: the transaction is too big. */
  predicate TooBig(g: Geometry, s: State) {
    |s.lh| >= LOGSIZE || |s.lh| >= g.size - 1
  }

  // ---- Steps --------------------------------------------------------------------------------

  datatype Step =
    | BeginOp(p: nat)
    | Bread(p: nat, b: nat)
    | Modify(p: nat, b: nat, data: Block)
    | LogTest(p: nat, b: nat)        // log_write's size test, made before it takes the lock
    | LogWrite(p: nat, b: nat)       // the rest of log_write, under the lock
    | Brelse(p: nat, b: nat)
    | Evict(b: nat)
    | EndOp(p: nat)
    | CommitNothing
    | CopyToLog
    | WriteCommitHead
    | InstallOne
    | ClearHead
    | FinishCommit
    | Crash
    | ReadHead

  /** Entry `t` of the log can be moved between its slot and its home: bread gets both buffers. */
  predicate Movable(g: Geometry, s: State, t: nat) {
    && t < |s.lh| && s.lh[t] < g.blocks && g.Slot(t) < g.blocks && s.lh[t] != g.Slot(t)
    && Unheld(s, s.lh[t]) && Unheld(s, g.Slot(t))
  }

  predicate Enabled(g: Geometry, s: State, step: Step)
    requires g.Valid()
  {
    && |s.disk| == g.blocks && |s.cur| == g.blocks
    && match step
       case BeginOp(p) => s.phase.Idle? && p !in s.ops && |s.lh| + (|s.ops| + 1) * MAXOPBLOCKS <= LOGSIZE
       case Bread(p, b) =>
         && g.Home(b) && Unheld(s, b) && p !in s.passed
         && !s.phase.Booting? && !(s.phase.Installing? && s.phase.boot)
       case Modify(p, b, data) => Holds(s, p, b) && p in s.ops && p !in s.passed
       case LogTest(p, b) => Holds(s, p, b) && p in s.ops && p !in s.passed && !TooBig(g, s)
       case LogWrite(p, b) =>
         && Holds(s, p, b) && p in s.ops && p in s.passed && s.passed[p] == b
         && |s.ops[p] + {b}| <= MAXOPBLOCKS
       case Brelse(p, b) => Holds(s, p, b) && p !in s.passed && !s.cache[b].holder.changed
       case Evict(b) => b in s.cache && s.cache[b].holder == NoOne && !s.cache[b].dirty
       case EndOp(p) => p in s.ops && p !in s.passed && forall b | b in s.cache :: !Holds(s, p, b)
       case CommitNothing => s.phase == WritingLog(0) && s.lh == []
       case CopyToLog => s.phase.WritingLog? && Movable(g, s, s.phase.tail)
       case WriteCommitHead =>
         s.phase.WritingLog? && s.phase.tail == |s.lh| && s.lh != [] && Encodable(s.lh)
       case InstallOne => s.phase.Installing? && Movable(g, s, s.phase.tail)
       case ClearHead => s.phase.Installing? && s.phase.tail == |s.lh|
       case FinishCommit => s.phase.Finishing?
       case Crash => true
       case ReadHead => s.phase.Booting? && HeaderOk(Seen(s, g.start))
  }

  function Exec(g: Geometry, s: State, step: Step): State
    requires g.Valid() && Enabled(g, s, step)
  {
    match step
    case BeginOp(p) => s.(ops := s.ops[p := {}], pending := s.pending + [Begin(p)])
    case Bread(p, b) => s.(cache := s.cache[b := Fetched(s, b).(holder := Held(p, false))])
    case Modify(p, b, data) => s.(cache := s.cache[b := s.cache[b].(data := data, holder := Held(p, true))])
    case LogTest(p, b) => s.(passed := s.passed[p := b])
    case LogWrite(p, b) =>
      s.(passed := s.passed - {p},
         lh := if b in s.lh then s.lh else s.lh + [b],          // log absorption
         ops := s.ops[p := s.ops[p] + {b}],
         cache := s.cache[b := s.cache[b].(dirty := true, holder := Held(p, false))],
         pending := s.pending + [Write(p, b, s.cache[b].data)],
         cur := if b < |s.cur| then s.cur[b := s.cache[b].data] else s.cur)
    case Brelse(p, b) => s.(cache := s.cache[b := s.cache[b].(holder := NoOne)])
    case Evict(b) => s.(cache := s.cache - {b})
    case EndOp(p) =>
      s.(ops := s.ops - {p}, pending := s.pending + [End(p)],
         phase := if s.ops.Keys == {p} then WritingLog(0) else s.phase)
    case CommitNothing => Gathered(s).(phase := Finishing)
    case CopyToLog => Moved(s, s.lh[s.phase.tail], g.Slot(s.phase.tail)).(phase := WritingLog(s.phase.tail + 1))
    case WriteCommitHead => WriteHead(g, Gathered(s), s.lh).(phase := Installing(0, false))
    case InstallOne =>
      Moved(s, g.Slot(s.phase.tail), s.lh[s.phase.tail]).(phase := s.phase.(tail := s.phase.tail + 1))
    case ClearHead => WriteHead(g, s.(lh := []), []).(phase := if s.phase.boot then Idle else Finishing)
    case FinishCommit => s.(phase := Idle)
    case Crash => State(s.disk, map[], [], map[], map[], Booting, s.groups, [], s.base, s.base)
    case ReadHead =>
      s.(lh := Header(Seen(s, g.start)), cache := s.cache[g.start := Fetched(s, g.start)], phase := Installing(0, true))
  }

  /** bread both blocks, memmove, bwrite the destination. */
  function Moved(s: State, from: nat, to: nat): State
    requires from < |s.disk| && to < |s.disk|
  {
    var data := Seen(s, from);
    s.(disk := s.disk[to := data], cache := s.cache[from := Fetched(s, from)][to := Buf(data, false, NoOne)])
  }

  /** The pending events become a commit group. */
  function Gathered(s: State): State {
    s.(groups := s.groups + [s.pending], pending := [], base := s.cur)
  }

  /** write_head: the one disk write that commits a transaction, or erases it. */
  function WriteHead(g: Geometry, s: State, lh: seq<nat>): State
    requires g.Valid() && |s.disk| == g.blocks && Encodable(lh)
  {
    var hb := PutHeader(Seen(s, g.start), lh);
    s.(disk := s.disk[g.start := hb], cache := s.cache[g.start := Buf(hb, false, NoOne)])
  }

  /** No more blocks are cached than there are buffers. */
  predicate Fits(g: Geometry, s: State) {
    |s.cache| <= g.nbuf
  }

  /** A step can be taken if it is its turn and bget has the buffers for it. */
  predicate Can(g: Geometry, s: State, step: Step)
    requires g.Valid()
  {
    Enabled(g, s, step) && Fits(g, Exec(g, s, step))
  }

  // ---- Runs ---------------------------------------------------------------------------------

  /** A formatted disk with an empty log, nothing in memory. */
  predicate Init(g: Geometry, s: State) {
    && g.Valid() && |s.disk| == g.blocks
    && HeaderOk(s.disk[g.start]) && Header(s.disk[g.start]) == []
    && s == State(s.disk, map[], [], map[], map[], Booting, [], [], s.disk, s.disk)
  }

  /** `steps` can be taken one after the other from `s`. */
  predicate Runs(g: Geometry, s: State, steps: seq<Step>)
    requires g.Valid()
    decreases |steps|
  {
    steps == [] || (Can(g, s, steps[0]) && Runs(g, Exec(g, s, steps[0]), steps[1..]))
  }

  function Final(g: Geometry, s: State, steps: seq<Step>): State
    requires g.Valid() && Runs(g, s, steps)
    decreases |steps|
  {
    if steps == [] then s else Final(g, Exec(g, s, steps[0]), steps[1..])
  }

  lemma {:induction false} RunsAppend(g: Geometry, s: State, steps: seq<Step>, more: seq<Step>)
    requires g.Valid() && Runs(g, s, steps)
    ensures Runs(g, s, steps + more) == Runs(g, Final(g, s, steps), more)
    ensures Runs(g, s, steps + more) ==> Final(g, s, steps + more) == Final(g, Final(g, s, steps), more)
    decreases |steps|
  {
    if steps == [] {
      assert steps + more == more;
    } else {
      assert (steps + more)[0] == steps[0] && (steps + more)[1..] == steps[1..] + more;
      RunsAppend(g, Exec(g, s, steps[0]), steps[1..], more);
    }
  }

  /** One more step at the end. */
  lemma Further(g: Geometry, s: State, steps: seq<Step>, step: Step)
    requires g.Valid() && Runs(g, s, steps) && Can(g, Final(g, s, steps), step)
    ensures Runs(g, s, steps + [step]) && Final(g, s, steps + [step]) == Exec(g, Final(g, s, steps), step)
  {
    var mid := Final(g, s, steps);
    assert Runs(g, mid, [step]) && Final(g, mid, [step]) == Exec(g, mid, step) by {
      assert [step][1..] == [];
      assert Runs(g, Exec(g, mid, step), []);
    }
    RunsAppend(g, s, steps, [step]);
  }

  /** No process makes the size test while another is between its test and its append. */
  predicate Serial(g: Geometry, s: State, steps: seq<Step>)
    requires g.Valid() && Runs(g, s, steps)
    decreases |steps|
  {
    steps == [] || ((steps[0].LogTest? ==> s.passed == map[]) && Serial(g, Exec(g, s, steps[0]), steps[1..]))
  }

  /** No slot is written outside the log region, or the size tests are taken one at a time. */
  predicate Spaced(g: Geometry, s: State, steps: seq<Step>)
    requires g.Valid() && Runs(g, s, steps)
  {
    g.Roomy() || Serial(g, s, steps)
  }

  lemma {:induction false} SerialAppend(g: Geometry, s: State, steps: seq<Step>, more: seq<Step>)
    requires g.Valid() && Runs(g, s, steps) && Runs(g, s, steps + more)
    ensures Runs(g, Final(g, s, steps), more)
    ensures Serial(g, s, steps + more) == (Serial(g, s, steps) && Serial(g, Final(g, s, steps), more))
    decreases |steps|
  {
    if steps == [] {
      assert steps + more == more;
    } else {
      assert (steps + more)[0] == steps[0] && (steps + more)[1..] == steps[1..] + more;
      SerialAppend(g, Exec(g, s, steps[0]), steps[1..], more);
    }
  }

  // ---- What a run means ---------------------------------------------------------------------

  function Replay(st: Disk, events: seq<Event>): (r: Disk)
    ensures |r| == |st|
  {
    if events == [] then st
    else
      var before := Replay(st, events[..|events| - 1]);
      match events[|events| - 1]
      case Write(_, b, data) => if b < |st| then before[b := data] else before
      case _ => before
  }

  function ReplayAll(st: Disk, groups: seq<seq<Event>>): (r: Disk)
    ensures |r| == |st|
  {
    if groups == [] then st else Replay(ReplayAll(st, groups[..|groups| - 1]), groups[|groups| - 1])
  }

  /** Operations begun and not yet ended. */
  function Open(events: seq<Event>): set<nat> {
    if events == [] then {}
    else
      var before := Open(events[..|events| - 1]);
      match events[|events| - 1]
      case Begin(p) => before + {p}
      case Write(_, _, _) => before
      case End(p) => before - {p}
  }

  /** Operations begin once before they write or end. */
  predicate Bracketed(events: seq<Event>) {
    events == [] ||
    (var before := events[..|events| - 1];
     && Bracketed(before)
     && match events[|events| - 1]
        case Begin(p) => p !in Open(before)
        case Write(p, _, _) => p in Open(before)
        case End(p) => p in Open(before))
  }

  /** A group of whole operations: each that begins in it also ends in it. */
  predicate Whole(group: seq<Event>) {
    Bracketed(group) && Open(group) == {}
  }

  ghost predicate SameHome(g: Geometry, d: Disk, e: Disk) {
    |d| == |e| == g.blocks && forall b | 0 <= b < g.blocks && g.Home(b) :: d[b] == e[b]
  }

  // ---- Recovery as a function of the disk ---------------------------------------------------

  predicate ValidLog(g: Geometry, lh: seq<nat>)
    requires g.Valid()
  {
    && |lh| <= g.Capacity()
    && (forall i | 0 <= i < |lh| :: g.Home(lh[i]))
    && (forall i, j | 0 <= i < j < |lh| :: lh[i] != lh[j])
  }

  /** install_trans on a bare disk, up to block `k` of the log. */
  function Installed(g: Geometry, d: Disk, lh: seq<nat>, k: nat): (r: Disk)
    requires g.Valid() && |d| == g.blocks && ValidLog(g, lh) && k <= |lh|
    ensures |r| == |d|
  {
    if k == 0 then d
    else
      var before := Installed(g, d, lh, k - 1);
      before[lh[k - 1] := before[g.Slot(k - 1)]]
  }

  predicate Readable(g: Geometry, d: Disk) {
    g.Valid() && |d| == g.blocks && HeaderOk(d[g.start]) && ValidLog(g, Header(d[g.start]))
  }

  /** recover_from_log run to its end. */
  function Recovered(g: Geometry, d: Disk): (r: Disk)
    requires Readable(g, d)
    ensures |r| == |d|
  {
    var lh := Header(d[g.start]);
    var done := Installed(g, d, lh, |lh|);
    done[g.start := PutHeader(done[g.start], [])]
  }
}
