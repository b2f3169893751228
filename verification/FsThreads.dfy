/**
 * Several writei's and itrunc's at once, each on its own inode. A step is what one process does up to and including
 * one log_write: between two steps any other process may run. The locks are ilock, which keeps two processes off
 * one inode, and the lock of each buffer, which makes a step's read and write of a block one.
 */
module FsThreads {
  import opened Blocks
  import opened FsLayout
  import opened FsState
  import opened FsWrite
  import opened FsLog
  import opened FsTrunc

  /** Where a process is between two log_writes. */
  datatype Pc =
    | Ready                          // at the head of its loop, or of bmap
    | Taken(slot: nat, b: nat)       // balloc has set the bit of `b`, which is for slot `slot` of the inode
    | Zeroed(slot: nat, b: nat)      // and zeroed it; the entry in the indirect block is to come
    | Freeing(left: set<nat>)        // itrunc: these blocks of the file are still to be freed

  /** A writei of `src` at `off` of inode `i` that has got as far as `end`; or an itrunc of it. */
  datatype Task = Task(i: nat, off: nat, src: seq<Byte>, end: nat, pc: Pc) {
    function Last(): nat {
      off + |src|
    }
  }

  /** `files` is history: the contents of every file with each write done at once when it finishes. */
  datatype State = State(v: View, tasks: map<nat, Task>, files: seq<seq<Byte>>)

  datatype Step =
    | Begin(p: nat, i: nat, off: nat, src: seq<Byte>)
    | TakeBit(p: nat, b: nat)
    | Zero(p: nat)
    | AddEntry(p: nat)
    | Copy(p: nat)
    | Finish(p: nat)
    | Trunc(p: nat, i: nat)
    | FreeBit(p: nat, b: nat)
    | FinishTrunc(p: nat)

  // ---- Steps --------------------------------------------------------------------------------

  /** The slot bmap has to fill for file block `bn` of an inode, if any. */
  function Missing(store: Store, d: Dinode, bn: nat): nat
    requires |d.addrs| == NDIRECT + 1 && bn < MAXFILE
  {
    if bn >= NDIRECT && d.addrs[NDIRECT] == 0 then NDIRECT
    else if Ref(store, d, SlotOf(bn)) == 0 then SlotOf(bn)
    else NSLOTS
  }

  /** The inode and file block a task is at; false once it is through its loop. */
  ghost predicate Busy(sb: Super, s: State, p: nat) {
    && p in s.tasks && s.tasks[p].i < |s.v.nodes| && |s.v.nodes[s.tasks[p].i].addrs| == NDIRECT + 1
    && s.tasks[p].off <= s.tasks[p].end < s.tasks[p].Last() <= MAXFILE * BSIZE && |s.v.store| == sb.size
  }

  /** The slot that is missing where task `t` is. */
  function Wants(v: View, t: Task): nat
    requires t.i < |v.nodes| && |v.nodes[t.i].addrs| == NDIRECT + 1 && t.end < MAXFILE * BSIZE
  {
    Missing(v.store, v.nodes[t.i], t.end / BSIZE)
  }

  ghost predicate Enabled(sb: Super, s: State, step: Step) {
    sb.Valid() && |s.v.store| == sb.size && |s.v.nodes| == sb.ninodes == |s.files| && Shaped(s.v.nodes) &&
    match step
    case Begin(p, i, off, src) =>
      && p !in s.tasks && i < |s.v.nodes| && (forall q | q in s.tasks :: s.tasks[q].i != i)
      && Accepted(s.v.nodes[i].size, off, |src|)
    case TakeBit(p, b) =>
      && Busy(sb, s, p) && s.tasks[p].pc.Ready? && Wants(s.v, s.tasks[p]) < NSLOTS
      && b < sb.size && !Marked(sb, s.v.store, b)
    case Zero(p) => Busy(sb, s, p) && s.tasks[p].pc.Taken? && s.tasks[p].pc.b < sb.size
    case AddEntry(p) =>
      && Busy(sb, s, p) && s.tasks[p].pc.Zeroed? && NDIRECT < s.tasks[p].pc.slot < NSLOTS && s.tasks[p].pc.b < WORD
      && 0 < s.v.nodes[s.tasks[p].i].addrs[NDIRECT] < sb.size
    case Copy(p) =>
      && Busy(sb, s, p) && s.tasks[p].pc.Ready? && Wants(s.v, s.tasks[p]) == NSLOTS
      && Ref(s.v.store, s.v.nodes[s.tasks[p].i], SlotOf(s.tasks[p].end / BSIZE)) < sb.size
    case Finish(p) =>
      && p in s.tasks && s.tasks[p].pc.Ready? && s.tasks[p].end == s.tasks[p].Last() < WORD
      && s.tasks[p].i < |s.v.nodes| && s.tasks[p].off <= |s.files[s.tasks[p].i]|
    case Trunc(p, i) => p !in s.tasks && i < |s.v.nodes| && (forall q | q in s.tasks :: s.tasks[q].i != i)
    case FreeBit(p, b) =>
      p in s.tasks && s.tasks[p].pc.Freeing? && b in s.tasks[p].pc.left && b < sb.size && Marked(sb, s.v.store, b)
    case FinishTrunc(p) => p in s.tasks && s.tasks[p].pc == Freeing({}) && s.tasks[p].i < |s.v.nodes|
                           && s.tasks[p].Last() == 0
  }

  function Advance(s: State, p: nat, v: View, t: Task): State {
    State(v, s.tasks[p := t], s.files)
  }

  /** Slot `slot` of inode `i` itself becomes block `b`. */
  function Attach(v: View, store: Store, i: nat, slot: nat, b: nat): View
    requires i < |v.nodes| && slot < |v.nodes[i].addrs|
  {
    View(store, v.nodes[i := v.nodes[i].(addrs := v.nodes[i].addrs[slot := b])], Claim(v.own, b, i, slot))
  }

  /** Where the round that starts at `t.end` stops. */
  function Stop(t: Task): (stop: nat)
    requires t.end < t.Last()
    ensures t.end < stop <= t.Last() && stop - t.end <= BSIZE - t.end % BSIZE
  {
    NextStop(t.end, t.Last())
  }

  /** The bytes of that round. */
  function Piece(t: Task): seq<Byte>
    requires t.off <= t.end < t.Last()
  {
    t.src[t.end - t.off..Stop(t) - t.off]
  }

  /** That round's copy, into block `r`. */
  function Copied(v: View, t: Task, r: nat): View
    requires t.off <= t.end < t.Last() && r < |v.store|
  {
    v.(store := Put(v.store, r, Patch(v.store[r], t.end % BSIZE, Piece(t))))
  }

  ghost function Exec(sb: Super, s: State, step: Step): State
    requires Enabled(sb, s, step)
  {
    var v := s.v;
    match step
    case Begin(p, i, off, src) => Advance(s, p, v, Task(i, off, src, off, Ready))
    case TakeBit(p, b) =>
      var t := s.tasks[p];
      Advance(s, p, v.(store := MarkUsed(sb, v.store, b)), t.(pc := Taken(Wants(v, t), b)))
    case Zero(p) =>
      var t := s.tasks[p];
      var store := Put(v.store, t.pc.b, Zeroes());
      if t.pc.slot <= NDIRECT then Advance(s, p, Attach(v, store, t.i, t.pc.slot, t.pc.b), t.(pc := Ready))
      else Advance(s, p, v.(store := store), t.(pc := Zeroed(t.pc.slot, t.pc.b)))
    case AddEntry(p) =>
      var t := s.tasks[p];
      var store := PutEntry(v.store, v.nodes[t.i].addrs[NDIRECT], t.pc.slot - NDIRECT - 1, t.pc.b);
      Advance(s, p, View(store, v.nodes, Claim(v.own, t.pc.b, t.i, t.pc.slot)), t.(pc := Ready))
    case Copy(p) =>
      var t := s.tasks[p];
      Advance(s, p, Copied(v, t, Ref(v.store, v.nodes[t.i], SlotOf(t.end / BSIZE))), t.(end := Stop(t)))
    case Finish(p) =>
      var t := s.tasks[p];
      var grew := |t.src| > 0 && t.Last() > v.nodes[t.i].size;
      State(if grew then Saved(sb, Resized(v, t.i, t.Last()), t.i) else v, s.tasks - {p},
            s.files[t.i := Spliced(s.files[t.i], t.off, t.src)])
    case Trunc(p, i) => Advance(s, p, Cleared(v, i), Task(i, 0, [], 0, Freeing(Rest(v.own, i, 0, true))))
    case FreeBit(p, b) =>
      var t := s.tasks[p];
      Advance(s, p, v.(store := Freed(sb, v.store, b)), t.(pc := Freeing(t.pc.left - {b})))
    case FinishTrunc(p) =>
      var t := s.tasks[p];
      State(Saved(sb, Resized(v, t.i, 0), t.i), s.tasks - {p}, s.files[t.i := []])
  }

  // ---- Invariant ----------------------------------------------------------------------------

  function HeldOf(t: Task): set<nat> {
    match t.pc
    case Ready => {}
    case Taken(_, b) => {b}
    case Zeroed(_, b) => {b}
    case Freeing(left) => left
  }

  /** Blocks the free map marks though no inode points to them: taken and not yet used, or not yet freed. */
  function Held(tasks: map<nat, Task>): set<nat> {
    set p, b | p in tasks && b in HeldOf(tasks[p]) :: b
  }

  /** The inodes locked by a task. */
  function Locked(tasks: map<nat, Task>): set<nat> {
    set p | p in tasks :: tasks[p].i
  }

  /** No two tasks have the same inode or hold the same block. */
  ghost predicate Apart(tasks: map<nat, Task>) {
    forall p, q | p in tasks && q in tasks && p != q :: tasks[p].i != tasks[q].i && HeldOf(tasks[p]) !! HeldOf(tasks[q])
  }

  /** The disk block of every mapped file block is as it was. */
  ghost predicate SameFile(store: Store, store': Store, d: Dinode)
    requires |d.addrs| == NDIRECT + 1
  {
    && |store'| == |store|
    && forall s | 0 <= s < NSLOTS ::
         && Ref(store', d, s) == Ref(store, d, s)
         && (s != NDIRECT && 0 < Ref(store, d, s) < |store| ==> store'[Ref(store, d, s)] == store[Ref(store, d, s)])
  }

  /** The file block a task is at, or none. */
  function At(t: Task): nat {
    if t.end < t.Last() then t.end / BSIZE else MAXFILE
  }

  /** The first `m` file blocks are mapped and no other, but perhaps `bn`. */
  ghost predicate Covered(store: Store, d: Dinode, m: nat, bn: nat)
    requires |d.addrs| == NDIRECT + 1
  {
    && m <= MAXFILE
    && (forall x | 0 <= x < MAXFILE ::
        (x < m ==> Ref(store, d, SlotOf(x)) != 0) && (Ref(store, d, SlotOf(x)) != 0 ==> x < m || x == bn))
    && (m > NDIRECT ==> d.addrs[NDIRECT] != 0)
    && (d.addrs[NDIRECT] != 0 ==> m > NDIRECT || NDIRECT <= bn < MAXFILE)
  }

  /** Byte `k` of the file when the task has got as far as `t.end`. */
  function Due(c: seq<Byte>, t: Task, k: nat): Byte {
    if t.off <= k < t.end && k - t.off < |t.src| then t.src[k - t.off] else if k < |c| then c[k] else 0
  }

  ghost predicate Bytes(store: Store, d: Dinode, c: seq<Byte>, t: Task)
    requires |d.addrs| == NDIRECT + 1 && d.size <= MAXFILE * BSIZE && t.end <= MAXFILE * BSIZE
  {
    forall k | 0 <= k < Max(d.size, t.end) :: ByteAt(store, d, k) == Due(c, t, k)
  }

  /** The task's request, and that it is between rounds. */
  predicate TaskShape(d: Dinode, c: seq<Byte>, t: Task) {
    && |d.addrs| == NDIRECT + 1 && Accepted(d.size, t.off, |t.src|) && |c| == d.size
    && t.off <= t.end <= t.Last() && (t.end == t.off || t.end == t.Last() || t.end % BSIZE == 0)
  }

  /** What a write holds is for the slot it is missing. */
  ghost predicate PcOk(store: Store, d: Dinode, t: Task)
    requires |d.addrs| == NDIRECT + 1
  {
    t.pc.Taken? || t.pc.Zeroed? ==>
      && t.end < t.Last() <= MAXFILE * BSIZE && t.pc.slot == Missing(store, d, t.end / BSIZE) < NSLOTS
      && (t.pc.Zeroed? ==> t.pc.slot > NDIRECT)
  }

  ghost predicate WriteOk(store: Store, d: Dinode, c: seq<Byte>, t: Task) {
    && TaskShape(d, c, t) && Covered(store, d, Reached(d.size, t.end), At(t)) && Bytes(store, d, c, t)
    && PcOk(store, d, t)
  }

  /** An inode being truncated points nowhere. */
  predicate TruncOk(d: Dinode, t: Task) {
    d.addrs == NoAddrs() && t.Last() == 0
  }

  ghost predicate TaskOk(store: Store, d: Dinode, c: seq<Byte>, t: Task) {
    if t.pc.Freeing? then TruncOk(d, t) else WriteOk(store, d, c, t)
  }

  ghost predicate FileIs(store: Store, d: Dinode, c: seq<Byte>)
    requires |d.addrs| == NDIRECT + 1
  {
    Filled(store, d) && Contents(store, d) == c
  }

  ghost predicate Sized(sb: Super, s: State) {
    sb.Valid() && |s.v.store| == sb.size && |s.v.nodes| == sb.ninodes == |s.files| && Shaped(s.v.nodes)
  }

  /** Pointers, owners and free map agree, the blocks in `held` being marked and nobody's. */
  ghost predicate LayoutOk(sb: Super, v: View, held: set<nat>)
    requires sb.Valid() && |v.store| == sb.size && Shaped(v.nodes)
  {
    && Refs(sb, v.store, v.nodes, v.own) && Marks(sb, v.store, v.own, held)
    && (forall b | b in held :: b !in v.own && sb.DataStart() <= b < sb.size)
  }

  /** Inodes that nobody has locked are on disk as in memory and have their contents. */
  ghost predicate RestOk(sb: Super, v: View, files: seq<seq<Byte>>, locked: set<nat>)
    requires sb.Valid() && |v.store| == sb.size && |v.nodes| == sb.ninodes == |files| && Shaped(v.nodes)
  {
    forall j | 0 <= j < |v.nodes| && j !in locked ::
      InodeOnDisk(sb, v.store, j) == v.nodes[j] && FileIs(v.store, v.nodes[j], files[j])
  }

  ghost predicate TasksOk(v: View, files: seq<seq<Byte>>, tasks: map<nat, Task>) {
    forall p | p in tasks ::
      tasks[p].i < |v.nodes| && tasks[p].i < |files| && TaskOk(v.store, v.nodes[tasks[p].i], files[tasks[p].i],
        tasks[p])
  }

  /** The task moves the end of the file, so the inode will go to disk. */
  predicate Grows(d: Dinode, t: Task) {
    t.pc.Freeing? || (|t.src| > 0 && t.Last() > d.size)
  }

  /** Inodes that will not go to disk are there already. */
  ghost predicate OnDisk(sb: Super, v: View, tasks: map<nat, Task>)
    requires sb.Valid() && |v.store| == sb.size && |v.nodes| == sb.ninodes
  {
    forall p | p in tasks && tasks[p].i < |v.nodes| && !Grows(v.nodes[tasks[p].i], tasks[p]) ::
      InodeOnDisk(sb, v.store, tasks[p].i) == v.nodes[tasks[p].i]
  }

  ghost predicate Inv(sb: Super, s: State) {
    && Sized(sb, s) && Apart(s.tasks) && LayoutOk(sb, s.v, Held(s.tasks))
    && RestOk(sb, s.v, s.files, Locked(s.tasks)) && TasksOk(s.v, s.files, s.tasks) && OnDisk(sb, s.v, s.tasks)
  }

  // ---- What other processes' steps leave alone ----------------------------------------------

  /** Writing a block that file `j` does not own leaves the file alone. */
  lemma OtherBlock(sb: Super, v: View, c: nat, data: Block, j: nat)
    requires sb.Valid() && |v.store| == sb.size && Shaped(v.nodes) && Refs(sb, v.store, v.nodes, v.own)
    requires c < sb.size && j < |v.nodes| && (c in v.own ==> v.own[c].0 != j)
    ensures SameFile(v.store, Put(v.store, c, data), v.nodes[j])
  {
    var d, store' := v.nodes[j], Put(v.store, c, data);
    assert Ref(v.store, d, NDIRECT) == d.addrs[NDIRECT];
    forall s | 0 <= s < NSLOTS
      ensures Ref(store', d, s) == Ref(v.store, d, s)
      ensures s != NDIRECT && 0 < Ref(v.store, d, s) < sb.size ==>
                store'[Ref(v.store, d, s)] == v.store[Ref(v.store, d, s)]
    {
    }
  }

  lemma SameByte(store: Store, store': Store, d: Dinode, k: nat)
    requires |d.addrs| == NDIRECT + 1 && SameFile(store, store', d) && k < MAXFILE * BSIZE
      && Ref(store, d, SlotOf(k / BSIZE)) != 0
    ensures ByteAt(store', d, k) == ByteAt(store, d, k)
  {
  }

  lemma FileKept(store: Store, store': Store, d: Dinode, c: seq<Byte>)
    requires |d.addrs| == NDIRECT + 1 && SameFile(store, store', d) && FileIs(store, d, c)
    ensures FileIs(store', d, c)
  {
    forall k | 0 <= k < d.size ensures ByteAt(store', d, k) == ByteAt(store, d, k) {
      assert k / BSIZE < BlocksFor(d.size);
      SameByte(store, store', d, k);
    }
    assert Extent(store', d, BlocksFor(d.size)) by {
      forall bn | 0 <= bn < MAXFILE ensures Ref(store', d, SlotOf(bn)) == Ref(store, d, SlotOf(bn)) {
      }
    }
  }

  lemma BelowReached(size: nat, end: nat, k: nat)
    requires k < Max(size, end)
    ensures k / BSIZE < Reached(size, end)
  {
  }

  lemma BytesKept(store: Store, store': Store, d: Dinode, c: seq<Byte>, t: Task)
    requires TaskShape(d, c, t) && SameFile(store, store', d)
    requires Covered(store, d, Reached(d.size, t.end), At(t)) && Bytes(store, d, c, t)
    ensures Bytes(store', d, c, t)
  {
    forall k | 0 <= k < Max(d.size, t.end) ensures ByteAt(store', d, k) == Due(c, t, k) {
      BelowReached(d.size, t.end, k);
      SameByte(store, store', d, k);
    }
  }

  lemma CoveredKept(store: Store, store': Store, d: Dinode, m: nat, bn: nat)
    requires |d.addrs| == NDIRECT + 1 && SameFile(store, store', d) && Covered(store, d, m, bn)
    ensures Covered(store', d, m, bn)
  {
    forall x | 0 <= x < MAXFILE ensures Ref(store', d, SlotOf(x)) == Ref(store, d, SlotOf(x)) {
    }
  }

  lemma WriteKept(store: Store, store': Store, d: Dinode, c: seq<Byte>, t: Task)
    requires WriteOk(store, d, c, t) && SameFile(store, store', d)
    ensures WriteOk(store', d, c, t)
  {
    BytesKept(store, store', d, c, t);
    CoveredKept(store, store', d, Reached(d.size, t.end), At(t));
    if t.pc.Taken? || t.pc.Zeroed? {
      assert Ref(store', d, SlotOf(t.end / BSIZE)) == Ref(store, d, SlotOf(t.end / BSIZE));
    }
  }

  lemma TaskKept(store: Store, store': Store, d: Dinode, c: seq<Byte>, t: Task)
    requires TaskOk(store, d, c, t) && |d.addrs| == NDIRECT + 1 && SameFile(store, store', d)
    ensures TaskOk(store', d, c, t)
  {
    if !t.pc.Freeing? {
      WriteKept(store, store', d, c, t);
    }
  }

  /** `v'` differs from `v` in block `c`, and in inode `i` perhaps. */
  ghost predicate OneChange(sb: Super, v: View, v': View, c: nat, i: nat) {
    && |v.store| == |v'.store| == sb.size && c < sb.size && v'.store == Put(v.store, c, v'.store[c])
    && |v'.nodes| == |v.nodes| && (forall j | 0 <= j < |v.nodes| && j != i :: v'.nodes[j] == v.nodes[j])
    && (c in v.own ==> v.own[c].0 == i)
  }

  lemma OtherFile(sb: Super, v: View, v': View, c: nat, i: nat, j: nat)
    requires sb.Valid() && Shaped(v.nodes) && Refs(sb, v.store, v.nodes, v.own) && |v.store| == sb.size
    requires OneChange(sb, v, v', c, i) && j < |v.nodes| && j != i
    ensures v'.nodes[j] == v.nodes[j] && SameFile(v.store, v'.store, v.nodes[j])
  {
    OtherBlock(sb, v, c, v'.store[c], j);
  }

  /** The other tasks do not notice. */
  lemma OthersKept(sb: Super, s: State, v': View, c: nat, p: nat, t': Task)
    requires Inv(sb, s) && p in s.tasks && OneChange(sb, s.v, v', c, s.tasks[p].i) && Shaped(v'.nodes)
      && t'.i == s.tasks[p].i
    requires TaskOk(v'.store, v'.nodes[t'.i], s.files[t'.i], t')
    ensures TasksOk(v', s.files, s.tasks[p := t'])
  {
    var tasks' := s.tasks[p := t'];
    forall q | q in tasks'
      ensures tasks'[q].i < |v'.nodes| && tasks'[q].i < |s.files|
      ensures TaskOk(v'.store, v'.nodes[tasks'[q].i], s.files[tasks'[q].i], tasks'[q])
    {
      if q != p {
        var j := s.tasks[q].i;
        OtherFile(sb, s.v, v', c, t'.i, j);
        TaskKept(s.v.store, v'.store, s.v.nodes[j], s.files[j], s.tasks[q]);
      }
    }
  }

  /** Nor do the files that nobody has locked, if no inode block changed. */
  lemma RestKept(sb: Super, s: State, v': View, c: nat, p: nat)
    requires Inv(sb, s) && p in s.tasks && OneChange(sb, s.v, v', c, s.tasks[p].i) && Shaped(v'.nodes)
      && sb.bmapstart <= c
    ensures RestOk(sb, v', s.files, Locked(s.tasks))
  {
    forall j | 0 <= j < |v'.nodes| && j !in Locked(s.tasks)
      ensures InodeOnDisk(sb, v'.store, j) == v'.nodes[j] && FileIs(v'.store, v'.nodes[j], s.files[j])
    {
      assert s.tasks[p].i in Locked(s.tasks);
      OtherFile(sb, s.v, v', c, s.tasks[p].i, j);
      FileKept(s.v.store, v'.store, s.v.nodes[j], s.files[j]);
      assert sb.InodeBlock(j) < sb.bmapstart;
    }
  }

  lemma HeldSplit(tasks: map<nat, Task>, p: nat)
    requires p in tasks
    ensures Held(tasks) == Held(tasks - {p}) + HeldOf(tasks[p])
    ensures Apart(tasks) ==> HeldOf(tasks[p]) !! Held(tasks - {p})
  {
    var rest := tasks - {p};
    forall b | b in Held(tasks) ensures b in Held(rest) + HeldOf(tasks[p]) {
      var q :| q in tasks && b in HeldOf(tasks[q]);
      assert q == p || (q in rest && b in HeldOf(rest[q]));
    }
    forall b | b in Held(rest) + HeldOf(tasks[p]) ensures b in Held(tasks) {
      if b in Held(rest) {
        var q :| q in rest && b in HeldOf(rest[q]);
        assert q in tasks && b in HeldOf(tasks[q]);
      }
    }
    if Apart(tasks) {
      forall q | q in rest ensures HeldOf(tasks[p]) !! HeldOf(rest[q]) {
      }
    }
  }

  lemma LockedSame(tasks: map<nat, Task>, p: nat, t: Task)
    requires p in tasks && t.i == tasks[p].i
    ensures Locked(tasks[p := t]) == Locked(tasks)
  {
    var tasks' := tasks[p := t];
    forall j | j in Locked(tasks) ensures j in Locked(tasks') {
      var q :| q in tasks && tasks[q].i == j;
      assert q in tasks' && tasks'[q].i == j;
    }
  }

  /** A task changed block `c`, no inode block, and its own inode perhaps. */
  lemma StepKeeps(sb: Super, s: State, v': View, c: nat, p: nat, t': Task, held: set<nat>)
    requires Inv(sb, s) && p in s.tasks && t' == s.tasks[p].(end := t'.end, pc := t'.pc)
    requires OneChange(sb, s.v, v', c, t'.i) && sb.bmapstart <= c
    requires Shaped(v'.nodes) && held == Held(s.tasks[p := t']) && LayoutOk(sb, v', held) && Apart(s.tasks[p := t'])
    requires TaskOk(v'.store, v'.nodes[t'.i], s.files[t'.i], t')
    requires v'.nodes == s.v.nodes || Grows(v'.nodes[t'.i], t')
    requires t'.pc.Freeing? == s.tasks[p].pc.Freeing?
    ensures Inv(sb, Advance(s, p, v', t'))
  {
    OthersKept(sb, s, v', c, p, t');
    RestKept(sb, s, v', c, p);
    LockedSame(s.tasks, p, t');
    var tasks' := s.tasks[p := t'];
    forall q | q in tasks' && tasks'[q].i < |v'.nodes| && !Grows(v'.nodes[tasks'[q].i], tasks'[q])
      ensures InodeOnDisk(sb, v'.store, tasks'[q].i) == v'.nodes[tasks'[q].i]
    {
      assert sb.InodeBlock(tasks'[q].i) < sb.bmapstart;
      assert s.tasks[q].i == tasks'[q].i;
    }
  }

  lemma ApartKept(tasks: map<nat, Task>, p: nat, t: Task)
    requires Apart(tasks) && p in tasks && t.i == tasks[p].i && HeldOf(t) !! Held(tasks - {p})
    ensures Apart(tasks[p := t])
  {
    var tasks' := tasks[p := t];
    forall q, r | q in tasks' && r in tasks' && q != r
      ensures tasks'[q].i != tasks'[r].i && HeldOf(tasks'[q]) !! HeldOf(tasks'[r])
    {
      assert tasks[q].i != tasks[r].i && HeldOf(tasks[q]) !! HeldOf(tasks[r]);
      if q == p {
        assert HeldOf(tasks[r]) <= Held(tasks - {p}) by {
          assert r in tasks - {p} && (tasks - {p})[r] == tasks[r];
        }
      } else if r == p {
        assert HeldOf(tasks[q]) <= Held(tasks - {p}) by {
          assert q in tasks - {p} && (tasks - {p})[q] == tasks[q];
        }
      }
    }
  }

  // ---- Taking a block -----------------------------------------------------------------------

  lemma TakenLayout(sb: Super, v: View, held: set<nat>, b: nat)
    requires sb.Valid() && |v.store| == sb.size && Shaped(v.nodes) && LayoutOk(sb, v, held) && b < sb.size
      && !Marked(sb, v.store, b)
    ensures b !in held && LayoutOk(sb, v.(store := MarkUsed(sb, v.store, b)), held + {b})
    ensures sb.BitmapBlock(b) !in v.own && sb.bmapstart <= sb.BitmapBlock(b) < sb.size
  {
    var store' := MarkUsed(sb, v.store, b);
    assert sb.bmapstart <= sb.BitmapBlock(b) < sb.DataStart();
    RefsFrame(sb, v.store, store', v.nodes, v.own);
    forall c | 0 <= c < sb.size ensures Marked(sb, store', c) <==> c < sb.DataStart() || c in v.own || c in held + {b} {
      MarkedSet(sb, v.store, b, c);
    }
  }

  /** What the tasks hold when `p` goes from holding what it does to holding `HeldOf(t)`. */
  lemma HeldMoves(tasks: map<nat, Task>, p: nat, t: Task, rest: set<nat>)
    requires Apart(tasks) && p in tasks && t.i == tasks[p].i && rest == Held(tasks) - HeldOf(tasks[p])
    requires HeldOf(t) !! rest
    ensures Held(tasks[p := t]) == rest + HeldOf(t) && Apart(tasks[p := t])
  {
    HeldSplit(tasks, p);
    HeldSplit(tasks[p := t], p);
    assert tasks[p := t] - {p} == tasks - {p};
    ApartKept(tasks, p, t);
  }

  /** The same when `p` holds nothing afterwards. */
  lemma HeldFreed(tasks: map<nat, Task>, p: nat, t: Task, rest: set<nat>)
    requires Apart(tasks) && p in tasks && t.i == tasks[p].i && t.pc.Ready? && rest == Held(tasks) - HeldOf(tasks[p])
    ensures Held(tasks[p := t]) == rest && Apart(tasks[p := t])
  {
    HeldMoves(tasks, p, t, rest);
    assert rest + {} == rest;
  }

  /** And when it held nothing before. */
  lemma HeldStays(tasks: map<nat, Task>, p: nat, t: Task)
    requires Apart(tasks) && p in tasks && t.i == tasks[p].i && t.pc.Ready? && tasks[p].pc.Ready?
    ensures Held(tasks[p := t]) == Held(tasks) && Apart(tasks[p := t])
  {
    HeldFreed(tasks, p, t, Held(tasks));
  }

  lemma TakenTask(store: Store, store': Store, d: Dinode, c: seq<Byte>, t: Task, t': Task, b: nat)
    requires TaskOk(store, d, c, t) && SameFile(store, store', d) && t.pc.Ready? && t.end < t.Last() <= MAXFILE * BSIZE
    requires Missing(store, d, t.end / BSIZE) < NSLOTS && t' == t.(pc := Taken(Missing(store, d, t.end / BSIZE), b))
    ensures TaskOk(store', d, c, t')
  {
    TaskKept(store, store', d, c, t);
    assert Ref(store', d, SlotOf(t.end / BSIZE)) == Ref(store, d, SlotOf(t.end / BSIZE));
    assert Bytes(store', d, c, t');
  }

  lemma TakeBitParts(sb: Super, v: View, held: set<nat>, f: seq<Byte>, t: Task, b: nat, v': View, t': Task, c: nat)
    requires sb.Valid() && |v.store| == sb.size && Shaped(v.nodes) && LayoutOk(sb, v, held) && t.i < |v.nodes|
    requires TaskOk(v.store, v.nodes[t.i], f, t) && t.pc.Ready? && t.end < t.Last() <= MAXFILE * BSIZE
      && Wants(v, t) < NSLOTS
    requires b < sb.size && !Marked(sb, v.store, b) && c == sb.BitmapBlock(b)
    requires v' == v.(store := MarkUsed(sb, v.store, b)) && t' == t.(pc := Taken(Wants(v, t), b))
    ensures b !in held && LayoutOk(sb, v', held + {b}) && OneChange(sb, v, v', c, t.i) && sb.bmapstart <= c
    ensures TaskOk(v'.store, v'.nodes[t.i], f, t')
  {
    TakenLayout(sb, v, held, b);
    OtherBlock(sb, v, c, v'.store[c], t.i);
    TakenTask(v.store, v'.store, v.nodes[t.i], f, t, t', b);
  }

  lemma HeldMore(tasks: map<nat, Task>, p: nat, t: Task, b: nat)
    requires Apart(tasks) && p in tasks && t.i == tasks[p].i && tasks[p].pc.Ready? && HeldOf(t) == {b}
      && b !in Held(tasks)
    ensures Held(tasks[p := t]) == Held(tasks) + {b} && Apart(tasks[p := t])
  {
    HeldMoves(tasks, p, t, Held(tasks));
  }

  lemma TakeBitKeeps(sb: Super, s: State, p: nat, b: nat, t: Task, v': View, t': Task, c: nat)
    requires Inv(sb, s) && p in s.tasks && t == s.tasks[p] && t.pc.Ready? && t.end < t.Last() <= MAXFILE * BSIZE
    requires Wants(s.v, t) < NSLOTS && b < sb.size && !Marked(sb, s.v.store, b) && c == sb.BitmapBlock(b)
    requires v' == s.v.(store := MarkUsed(sb, s.v.store, b)) && t' == t.(pc := Taken(Wants(s.v, t), b))
    ensures Inv(sb, Advance(s, p, v', t'))
  {
    TakeBitParts(sb, s.v, Held(s.tasks), s.files[t.i], t, b, v', t', c);
    HeldMore(s.tasks, p, t', b);
    StepKeeps(sb, s, v', c, p, t', Held(s.tasks) + {b});
  }

  lemma TakeBitStep(sb: Super, s: State, p: nat, b: nat)
    requires Inv(sb, s) && Enabled(sb, s, TakeBit(p, b))
    ensures Inv(sb, Exec(sb, s, TakeBit(p, b)))
  {
    var t := s.tasks[p];
    TakeBitKeeps(sb, s, p, b, t, s.v.(store := MarkUsed(sb, s.v.store, b)), t.(pc := Taken(Wants(s.v, t), b)),
      sb.BitmapBlock(b));
  }

  /** Only a write that moves the end of the file has to take blocks. */
  lemma MissingGrows(store: Store, d: Dinode, c: seq<Byte>, t: Task)
    requires WriteOk(store, d, c, t) && t.end < t.Last() && Missing(store, d, t.end / BSIZE) < NSLOTS
    ensures Grows(d, t)
  {
    var bn := t.end / BSIZE;
    assert bn >= Reached(d.size, t.end);
  }

  // ---- Zeroing it ---------------------------------------------------------------------------

  lemma ZeroedLayout(sb: Super, v: View, held: set<nat>, b: nat)
    requires sb.Valid() && |v.store| == sb.size && Shaped(v.nodes) && LayoutOk(sb, v, held) && b in held
    ensures b < sb.size && b !in v.own && sb.DataStart() <= b && LayoutOk(sb, v.(store := Put(v.store, b, Zeroes())),
      held)
  {
    var store' := Put(v.store, b, Zeroes());
    RefsFrame(sb, v.store, store', v.nodes, v.own);
    MarksKept(sb, v.store, store', v.own, held);
  }

  lemma AttachedLayout(sb: Super, v: View, held: set<nat>, i: nat, slot: nat, b: nat)
    requires sb.Valid() && |v.store| == sb.size && Shaped(v.nodes) && LayoutOk(sb, v, held) && b in held
    requires i < |v.nodes| && slot <= NDIRECT && v.nodes[i].addrs[slot] == 0 && v.store[b] == Zeroes()
    ensures Shaped(Attach(v, v.store, i, slot, b).nodes) && LayoutOk(sb, Attach(v, v.store, i, slot, b), held - {b})
  {
    AttachInInode(sb, v.store, v.nodes, v.own, i, slot, b);
  }

  lemma AttachedRef(store: Store, d: Dinode, slot: nat, b: nat, x: nat)
    requires d.Fits() && slot <= NDIRECT && d.addrs[slot] == 0 && b < |store| && store[b] == Zeroes() && x < MAXFILE
    ensures Ref(store, d.(addrs := d.addrs[slot := b]), SlotOf(x)) == if SlotOf(x) == slot then b
      else Ref(store, d, SlotOf(x))
  {
    SlotPut(store, d, slot, b, SlotOf(x));
  }

  lemma AttachedCovered(store: Store, d: Dinode, slot: nat, b: nat, m: nat, bn: nat)
    requires d.Fits() && slot <= NDIRECT && d.addrs[slot] == 0 && 0 < b < |store| && store[b] == Zeroes()
    requires Covered(store, d, m, bn) && bn < MAXFILE && slot == Missing(store, d, bn)
    ensures Covered(store, d.(addrs := d.addrs[slot := b]), m, bn)
  {
    forall x | 0 <= x < MAXFILE
      ensures Ref(store, d.(addrs := d.addrs[slot := b]), SlotOf(x)) == if SlotOf(x) == slot then b
        else Ref(store, d, SlotOf(x))
    {
      AttachedRef(store, d, slot, b, x);
    }
  }

  lemma AttachedBytes(store: Store, d: Dinode, c: seq<Byte>, t: Task, slot: nat, b: nat)
    requires d.Fits() && slot <= NDIRECT && d.addrs[slot] == 0 && b < |store| && store[b] == Zeroes()
    requires TaskShape(d, c, t) && Covered(store, d, Reached(d.size, t.end), At(t)) && Bytes(store, d, c, t)
    requires t.end < t.Last() && slot == Missing(store, d, t.end / BSIZE)
    ensures Bytes(store, d.(addrs := d.addrs[slot := b]), c, t.(pc := Ready))
  {
    var d' := d.(addrs := d.addrs[slot := b]);
    forall k | 0 <= k < Max(d.size, t.end) ensures ByteAt(store, d', k) == Due(c, t, k) {
      BelowReached(d.size, t.end, k);
      AttachedRef(store, d, slot, b, k / BSIZE);
      assert Ref(store, d, SlotOf(k / BSIZE)) != 0;
    }
  }

  lemma AttachedTask(store: Store, d: Dinode, c: seq<Byte>, t: Task, slot: nat, b: nat)
    requires d.Fits() && TaskOk(store, d, c, t) && t.pc == Taken(slot, b) && slot <= NDIRECT && 0 < b < |store|
      && store[b] == Zeroes()
    ensures TaskOk(store, d.(addrs := d.addrs[slot := b]), c, t.(pc := Ready)) && Grows(d, t)
  {
    MissingGrows(store, d, c, t);
    assert d.addrs[slot] == 0;
    AttachedCovered(store, d, slot, b, Reached(d.size, t.end), t.end / BSIZE);
    AttachedBytes(store, d, c, t, slot, b);
  }

  lemma ZeroDirectLayout(sb: Super, v: View, held: set<nat>, i: nat, slot: nat, b: nat, z: Store)
    requires sb.Valid() && |v.store| == sb.size && Shaped(v.nodes) && LayoutOk(sb, v, held) && b in held && b < sb.size
    requires i < |v.nodes| && slot <= NDIRECT && v.nodes[i].addrs[slot] == 0 && z == Put(v.store, b, Zeroes())
    ensures Shaped(Attach(v, z, i, slot, b).nodes) && LayoutOk(sb, Attach(v, z, i, slot, b), held - {b})
    ensures 0 < b && sb.bmapstart <= b && b !in v.own && SameFile(v.store, z, v.nodes[i])
  {
    ZeroedLayout(sb, v, held, b);
    OtherBlock(sb, v, b, Zeroes(), i);
    AttachedLayout(sb, v.(store := z), held, i, slot, b);
  }

  /** The block in the inode itself, or the indirect block: `f` is the file's contents, `v'` the state after. */
  lemma ZeroDirectParts(sb: Super, v: View, held: set<nat>, f: seq<Byte>, t: Task, z: Store, v': View, t': Task)
    requires sb.Valid() && |v.store| == sb.size && Shaped(v.nodes) && LayoutOk(sb, v, held) && t.i < |v.nodes|
    requires TaskOk(v.store, v.nodes[t.i], f, t) && t.pc.Taken? && t.pc.slot <= NDIRECT && t.pc.b in held
      && t.pc.b < sb.size
    requires z == Put(v.store, t.pc.b, Zeroes()) && v' == Attach(v, z, t.i, t.pc.slot, t.pc.b) && t' == t.(pc := Ready)
    ensures Shaped(v'.nodes) && LayoutOk(sb, v', held - {t.pc.b}) && OneChange(sb, v, v', t.pc.b, t.i)
      && sb.bmapstart <= t.pc.b
    ensures TaskOk(v'.store, v'.nodes[t.i], f, t') && Grows(v'.nodes[t.i], t')
  {
    ZeroDirectLayout(sb, v, held, t.i, t.pc.slot, t.pc.b, z);
    TaskKept(v.store, z, v.nodes[t.i], f, t);
    AttachedTask(z, v.nodes[t.i], f, t, t.pc.slot, t.pc.b);
  }

  lemma ZeroDirectKeeps(sb: Super, s: State, p: nat, t: Task, z: Store, v': View, t': Task)
    requires Inv(sb, s) && p in s.tasks && t == s.tasks[p] && t.pc.Taken? && t.pc.slot <= NDIRECT && t.pc.b < sb.size
    requires z == Put(s.v.store, t.pc.b, Zeroes())
    requires t.i < |s.v.nodes| && v' == Attach(s.v, z, t.i, t.pc.slot, t.pc.b) && t' == t.(pc := Ready)
    ensures Inv(sb, Advance(s, p, v', t'))
  {
    var b, held := t.pc.b, Held(s.tasks);
    HeldSplit(s.tasks, p);
    ZeroDirectParts(sb, s.v, held, s.files[t.i], t, z, v', t');
    HeldFreed(s.tasks, p, t', held - {b});
    StepKeeps(sb, s, v', b, p, t', held - {b});
  }

  lemma ZeroedTask(store: Store, store': Store, d: Dinode, c: seq<Byte>, t: Task, t': Task)
    requires TaskOk(store, d, c, t) && SameFile(store, store', d) && t.pc.Taken? && t.pc.slot > NDIRECT
    requires t' == t.(pc := Zeroed(t.pc.slot, t.pc.b))
    ensures TaskOk(store', d, c, t')
  {
    TaskKept(store, store', d, c, t);
    assert Bytes(store', d, c, t');
  }

  /** A block for the indirect block. */
  lemma ZeroEntryParts(sb: Super, v: View, held: set<nat>, f: seq<Byte>, t: Task, v': View, t': Task)
    requires sb.Valid() && |v.store| == sb.size && Shaped(v.nodes) && LayoutOk(sb, v, held) && t.i < |v.nodes|
    requires TaskOk(v.store, v.nodes[t.i], f, t) && t.pc.Taken? && t.pc.slot > NDIRECT && t.pc.b in held
      && t.pc.b < sb.size
    requires v' == v.(store := Put(v.store, t.pc.b, Zeroes())) && t' == t.(pc := Zeroed(t.pc.slot, t.pc.b))
    ensures LayoutOk(sb, v', held) && OneChange(sb, v, v', t.pc.b, t.i) && sb.bmapstart <= t.pc.b
    ensures TaskOk(v'.store, v'.nodes[t.i], f, t')
  {
    ZeroedLayout(sb, v, held, t.pc.b);
    OtherBlock(sb, v, t.pc.b, Zeroes(), t.i);
    ZeroedTask(v.store, v'.store, v.nodes[t.i], f, t, t');
  }

  lemma HeldAgain(tasks: map<nat, Task>, p: nat, t: Task)
    requires Apart(tasks) && p in tasks && t.i == tasks[p].i && HeldOf(t) == HeldOf(tasks[p])
    ensures Held(tasks[p := t]) == Held(tasks) && Apart(tasks[p := t])
  {
    HeldSplit(tasks, p);
    HeldMoves(tasks, p, t, Held(tasks) - HeldOf(tasks[p]));
  }

  lemma ZeroEntryKeeps(sb: Super, s: State, p: nat, t: Task, v': View, t': Task)
    requires Inv(sb, s) && p in s.tasks && t == s.tasks[p] && t.pc.Taken? && t.pc.slot > NDIRECT && t.pc.b < sb.size
    requires v' == s.v.(store := Put(s.v.store, t.pc.b, Zeroes())) && t' == t.(pc := Zeroed(t.pc.slot, t.pc.b))
    ensures Inv(sb, Advance(s, p, v', t'))
  {
    HeldSplit(s.tasks, p);
    ZeroEntryParts(sb, s.v, Held(s.tasks), s.files[t.i], t, v', t');
    HeldAgain(s.tasks, p, t');
    StepKeeps(sb, s, v', t.pc.b, p, t', Held(s.tasks));
  }

  lemma ZeroStep(sb: Super, s: State, p: nat)
    requires Inv(sb, s) && Enabled(sb, s, Zero(p))
    ensures Inv(sb, Exec(sb, s, Zero(p)))
  {
    var t := s.tasks[p];
    var z := Put(s.v.store, t.pc.b, Zeroes());
    if t.pc.slot <= NDIRECT {
      ZeroDirectKeeps(sb, s, p, t, z, Attach(s.v, z, t.i, t.pc.slot, t.pc.b), t.(pc := Ready));
    } else {
      ZeroEntryKeeps(sb, s, p, t, s.v.(store := z), t.(pc := Zeroed(t.pc.slot, t.pc.b)));
    }
  }

  // ---- The entry in the indirect block ------------------------------------------------------

  lemma EntryMarks(sb: Super, v: View, held: set<nat>, i: nat, slot: nat, b: nat, a: nat, store': Store)
    requires sb.Valid() && |v.store| == |store'| == sb.size && Marks(sb, v.store, v.own, held) && b in held
    requires sb.DataStart() <= a < sb.size && store' == Put(v.store, a, store'[a])
    ensures Marks(sb, store', Claim(v.own, b, i, slot), held - {b})
  {
    MarksKept(sb, v.store, store', v.own, held);
  }

  lemma EntryLayout(sb: Super, v: View, held: set<nat>, i: nat, slot: nat, k: nat, b: nat, a: nat, store': Store)
    requires sb.Valid() && |v.store| == sb.size && Shaped(v.nodes) && LayoutOk(sb, v, held) && b in held
      && i < |v.nodes|
    requires slot == NDIRECT + 1 + k && k < NINDIRECT && Ref(v.store, v.nodes[i], slot) == 0
    requires a == v.nodes[i].addrs[NDIRECT] && 0 < a < sb.size && b < WORD && store' == PutEntry(v.store, a, k, b)
    ensures LayoutOk(sb, View(store', v.nodes, Claim(v.own, b, i, slot)), held - {b})
    ensures a in v.own && v.own[a] == (i, NDIRECT) && sb.bmapstart <= a
  {
    assert Ref(v.store, v.nodes[i], NDIRECT) == a;
    AttachInIndirect(sb, v.store, v.nodes, v.own, i, k, b);
    EntryMarks(sb, v, held, i, slot, b, a, store');
  }

  /** What the entry changes for its file: one more block. */
  ghost predicate EntryAddedTo(store: Store, store': Store, d: Dinode, slot: nat, b: nat)
    requires |d.addrs| == NDIRECT + 1
  {
    && |store'| == |store|
    && (forall x | 0 <= x < MAXFILE :: Ref(store', d, SlotOf(x)) == if SlotOf(x) == slot then b
                                       else Ref(store, d, SlotOf(x)))
    && (forall x | 0 <= x < MAXFILE && 0 < Ref(store, d, SlotOf(x)) < |store| ::
          store'[Ref(store, d, SlotOf(x))] == store[Ref(store, d, SlotOf(x))])
  }

  lemma EntryRefs(sb: Super, v: View, i: nat, slot: nat, k: nat, b: nat, a: nat, store': Store)
    requires sb.Valid() && |v.store| == sb.size && Shaped(v.nodes) && Refs(sb, v.store, v.nodes, v.own) && i < |v.nodes|
    requires slot == NDIRECT + 1 + k && k < NINDIRECT && a == v.nodes[i].addrs[NDIRECT] && 0 < a < sb.size
    requires b < WORD && store' == PutEntry(v.store, a, k, b)
    ensures EntryAddedTo(v.store, store', v.nodes[i], slot, b)
  {
    var d := v.nodes[i];
    assert Ref(v.store, d, NDIRECT) == a;
    forall x | 0 <= x < MAXFILE
      ensures Ref(store', d, SlotOf(x)) == if SlotOf(x) == slot then b else Ref(v.store, d, SlotOf(x))
      ensures 0 < Ref(v.store, d, SlotOf(x)) < sb.size ==>
                store'[Ref(v.store, d, SlotOf(x))] == v.store[Ref(v.store, d, SlotOf(x))]
    {
      EntryPut(sb, v.store, v.nodes, v.own, i, k, b, i, SlotOf(x));
    }
  }

  lemma EntryByte(store: Store, store': Store, d: Dinode, slot: nat, b: nat, k: nat)
    requires |d.addrs| == NDIRECT + 1 && EntryAddedTo(store, store', d, slot, b) && k < MAXFILE * BSIZE
    requires SlotOf(k / BSIZE) != slot && Ref(store, d, SlotOf(k / BSIZE)) != 0
    ensures ByteAt(store', d, k) == ByteAt(store, d, k)
  {
    var x := k / BSIZE;
    assert Ref(store', d, SlotOf(x)) == Ref(store, d, SlotOf(x));
  }

  lemma EntryTask(store: Store, store': Store, d: Dinode, c: seq<Byte>, t: Task, t': Task)
    requires TaskOk(store, d, c, t) && t.pc.Zeroed? && t' == t.(pc := Ready)
      && EntryAddedTo(store, store', d, t.pc.slot, t.pc.b)
    ensures TaskOk(store', d, c, t')
  {
    forall k | 0 <= k < Max(d.size, t.end) ensures ByteAt(store', d, k) == Due(c, t', k) {
      BelowReached(d.size, t.end, k);
      assert Ref(store, d, SlotOf(k / BSIZE)) != 0;
      EntryByte(store, store', d, t.pc.slot, t.pc.b, k);
    }
  }

  lemma AddEntryKeeps(sb: Super, s: State, p: nat, t: Task, v': View, t': Task, a: nat, k: nat)
    requires Inv(sb, s) && p in s.tasks && t == s.tasks[p] && t.pc.Zeroed? && t.pc.b < WORD && t.i < |s.v.nodes|
    requires t.pc.slot == NDIRECT + 1 + k && k < NINDIRECT && a == s.v.nodes[t.i].addrs[NDIRECT] && 0 < a < sb.size
    requires v' == View(PutEntry(s.v.store, a, k, t.pc.b), s.v.nodes, Claim(s.v.own, t.pc.b, t.i, t.pc.slot))
      && t' == t.(pc := Ready)
    ensures Inv(sb, Advance(s, p, v', t'))
  {
    var b, held := t.pc.b, Held(s.tasks);
    HeldSplit(s.tasks, p);
    EntryLayout(sb, s.v, held, t.i, t.pc.slot, k, b, a, v'.store);
    EntryRefs(sb, s.v, t.i, t.pc.slot, k, b, a, v'.store);
    EntryTask(s.v.store, v'.store, s.v.nodes[t.i], s.files[t.i], t, t');
    HeldFreed(s.tasks, p, t', held - {b});
    StepKeeps(sb, s, v', a, p, t', held - {b});
  }

  lemma AddEntryStep(sb: Super, s: State, p: nat)
    requires Inv(sb, s) && Enabled(sb, s, AddEntry(p))
    ensures Inv(sb, Exec(sb, s, AddEntry(p)))
  {
    var t := s.tasks[p];
    AddEntryKeeps(sb, s, p, t, Exec(sb, s, AddEntry(p)).v, t.(pc := Ready), s.v.nodes[t.i].addrs[NDIRECT],
      t.pc.slot - NDIRECT - 1);
  }

  // ---- The copy into the mapped block -------------------------------------------------------

  lemma CopyLayout(sb: Super, v: View, held: set<nat>, i: nat, slot: nat, r: nat, data: Block)
    requires sb.Valid() && |v.store| == sb.size && Shaped(v.nodes) && LayoutOk(sb, v, held) && i < |v.nodes|
      && slot < NSLOTS
    requires slot != NDIRECT && r == Ref(v.store, v.nodes[i], slot) != 0
    ensures r in v.own && v.own[r] == (i, slot) && sb.bmapstart <= r < sb.size
    ensures LayoutOk(sb, v.(store := Put(v.store, r, data)), held) && SameRefs(v.nodes, v.store, Put(v.store, r, data))
  {
    DataWriteKeepsRefs(sb, v.store, v.nodes, v.own, r, data);
    MarksKept(sb, v.store, Put(v.store, r, data), v.own, held);
  }

  /** The file with block `r`, its file block `bn`, rewritten. */
  ghost predicate Rewritten(store: Store, store': Store, d: Dinode, bn: nat, r: nat)
    requires |d.addrs| == NDIRECT + 1
  {
    && r < |store| == |store'| && store' == Put(store, r, store'[r])
    && (forall x | 0 <= x < MAXFILE :: Ref(store', d, SlotOf(x)) == Ref(store, d, SlotOf(x)))
    && (forall x | 0 <= x < MAXFILE && Ref(store, d, SlotOf(x)) != 0 :: Ref(store, d, SlotOf(x)) == r <==> x == bn)
  }

  lemma RewrittenFile(sb: Super, v: View, i: nat, bn: nat, r: nat, data: Block)
    requires sb.Valid() && |v.store| == sb.size && Shaped(v.nodes) && Refs(sb, v.store, v.nodes, v.own) && i < |v.nodes|
    requires bn < MAXFILE && r == Ref(v.store, v.nodes[i], SlotOf(bn)) != 0 && r < sb.size
    requires SameRefs(v.nodes, v.store, Put(v.store, r, data))
    ensures Rewritten(v.store, Put(v.store, r, data), v.nodes[i], bn, r)
  {
    forall x | 0 <= x < MAXFILE && Ref(v.store, v.nodes[i], SlotOf(x)) != 0
      ensures Ref(v.store, v.nodes[i], SlotOf(x)) == r <==> x == bn
    {
      assert v.own[Ref(v.store, v.nodes[i], SlotOf(x))] == (i, SlotOf(x)) && v.own[r] == (i, SlotOf(bn));
    }
  }

  lemma RewrittenByte(store: Store, store': Store, d: Dinode, bn: nat, r: nat, k: nat)
    requires |d.addrs| == NDIRECT + 1 && Rewritten(store, store', d, bn, r) && k < MAXFILE * BSIZE
    requires Ref(store, d, SlotOf(k / BSIZE)) != 0
    ensures ByteAt(store', d, k) == if k / BSIZE == bn then store'[r][k % BSIZE] else ByteAt(store, d, k)
    ensures k / BSIZE == bn ==> ByteAt(store, d, k) == store[r][k % BSIZE]
  {
    var x := k / BSIZE;
    assert Ref(store', d, SlotOf(x)) == Ref(store, d, SlotOf(x));
  }

  lemma TaskRound(d: Dinode, c: seq<Byte>, t: Task, stop: nat, bn: nat)
    requires TaskShape(d, c, t) && t.end < t.Last() && stop == Stop(t) && bn == t.end / BSIZE
    ensures Round(t.off, t.src, t.end, stop, bn)
  {
  }

  lemma ByteMapped(store: Store, d: Dinode, c: seq<Byte>, t: Task, stop: nat, bn: nat, r: nat, k: nat, m: nat)
    requires TaskShape(d, c, t) && t.end < t.Last() && stop == Stop(t) && bn == t.end / BSIZE
      && m == Reached(d.size, t.end)
    requires Covered(store, d, m, bn) && bn < MAXFILE && Ref(store, d, SlotOf(bn)) == r != 0 && k < Max(d.size, stop)
    ensures Round(t.off, t.src, t.end, stop, bn) && k < MAXFILE * BSIZE && Ref(store, d, SlotOf(k / BSIZE)) != 0
  {
    TaskRound(d, c, t, stop, bn);
    RoundCovers(d.size, t.off, t.src, t.end, stop, bn, m, k);
    assert k / BSIZE < m || k / BSIZE == bn;
  }

  lemma CopyByte(store: Store, store': Store, d: Dinode, c: seq<Byte>, t: Task, stop: nat, bn: nat, r: nat, k: nat,
                 m: nat)
    requires TaskShape(d, c, t) && t.off <= t.end < t.Last() && stop == Stop(t) && bn == t.end / BSIZE
      && m == Reached(d.size, t.end)
    requires Covered(store, d, m, bn) && Bytes(store, d, c, t) && bn < MAXFILE && Ref(store, d, SlotOf(bn)) == r != 0
    requires Rewritten(store, store', d, bn, r)
    requires store'[r] == Patch(store[r], t.end % BSIZE, Piece(t))
    requires k < Max(d.size, stop)
    ensures ByteAt(store', d, k) == Due(c, t.(end := stop), k)
  {
    ByteMapped(store, d, c, t, stop, bn, r, k, m);
    RewrittenByte(store, store', d, bn, r, k);
    PatchedByte(d.size, t.off, t.src, t.end, stop, bn, store[r], k, ByteAt(store, d, k), if k < |c| then c[k] else 0);
  }

  lemma CopyCovered(store: Store, store': Store, d: Dinode, c: seq<Byte>, t: Task, t': Task, stop: nat, bn: nat, r: nat)
    requires TaskShape(d, c, t) && t.end < t.Last() && stop == Stop(t) && bn == t.end / BSIZE && t' == t.(end := stop)
    requires Covered(store, d, Reached(d.size, t.end), bn) && bn < MAXFILE && Ref(store, d, SlotOf(bn)) == r != 0
    requires bn >= NDIRECT ==> d.addrs[NDIRECT] != 0
    requires Rewritten(store, store', d, bn, r)
    ensures TaskShape(d, c, t') && Covered(store', d, Reached(d.size, stop), At(t'))
  {
    TaskRound(d, c, t, stop, bn);
    RoundReaches(d.size, t.off, t.src, t.end, stop, bn);
  }

  lemma CopyTask(store: Store, store': Store, d: Dinode, c: seq<Byte>, t: Task, t': Task, stop: nat, bn: nat, r: nat)
    requires TaskOk(store, d, c, t) && t.pc.Ready? && t.off <= t.end < t.Last() && stop == Stop(t)
      && bn == t.end / BSIZE && bn < MAXFILE
    requires Missing(store, d, bn) == NSLOTS && Ref(store, d, SlotOf(bn)) == r && Rewritten(store, store', d, bn, r)
    requires store'[r] == Patch(store[r], t.end % BSIZE, Piece(t)) && t' == t.(end := stop)
    ensures TaskOk(store', d, c, t')
  {
    CopyCovered(store, store', d, c, t, t', stop, bn, r);
    forall k | 0 <= k < Max(d.size, stop) ensures ByteAt(store', d, k) == Due(c, t', k) {
      CopyByte(store, store', d, c, t, stop, bn, r, k, Reached(d.size, t.end));
    }
  }

  lemma CopyParts(sb: Super, v: View, held: set<nat>, f: seq<Byte>, t: Task, stop: nat, bn: nat, r: nat, v': View,
                  t': Task)
    requires sb.Valid() && |v.store| == sb.size && Shaped(v.nodes) && LayoutOk(sb, v, held) && t.i < |v.nodes|
    requires TaskOk(v.store, v.nodes[t.i], f, t) && t.pc.Ready? && t.off <= t.end < t.Last() && stop == Stop(t)
      && bn == t.end / BSIZE
    requires bn < MAXFILE && Missing(v.store, v.nodes[t.i], bn) == NSLOTS && r == Ref(v.store, v.nodes[t.i], SlotOf(bn))
      && r < sb.size
    requires v' == Copied(v, t, r) && t' == t.(end := stop)
    ensures LayoutOk(sb, v', held) && OneChange(sb, v, v', r, t.i) && sb.bmapstart <= r
    ensures TaskOk(v'.store, v'.nodes[t.i], f, t')
  {
    CopyLayout(sb, v, held, t.i, SlotOf(bn), r, v'.store[r]);
    RewrittenFile(sb, v, t.i, bn, r, v'.store[r]);
    CopyTask(v.store, v'.store, v.nodes[t.i], f, t, t', stop, bn, r);
  }

  lemma CopyKeeps(sb: Super, s: State, p: nat, t: Task, stop: nat, bn: nat, r: nat, v': View, t': Task)
    requires Inv(sb, s) && p in s.tasks && t == s.tasks[p] && t.pc.Ready?
      && t.off <= t.end < t.Last() <= MAXFILE * BSIZE
    requires t.i < |s.v.nodes| && stop == Stop(t) && bn == t.end / BSIZE && bn < MAXFILE
    requires Missing(s.v.store, s.v.nodes[t.i], bn) == NSLOTS && r == Ref(s.v.store, s.v.nodes[t.i], SlotOf(bn))
      && r < sb.size
    requires v' == Copied(s.v, t, r) && t' == t.(end := stop)
    ensures Inv(sb, Advance(s, p, v', t'))
  {
    var held := Held(s.tasks);
    assert TaskOk(s.v.store, s.v.nodes[t.i], s.files[t.i], t);
    CopyParts(sb, s.v, held, s.files[t.i], t, stop, bn, r, v', t');
    HeldStays(s.tasks, p, t');
    StepKeeps(sb, s, v', r, p, t', held);
  }

  lemma CopyStep(sb: Super, s: State, p: nat)
    requires Inv(sb, s) && Enabled(sb, s, Copy(p))
    ensures Inv(sb, Exec(sb, s, Copy(p)))
  {
    var t := s.tasks[p];
    var stop, bn := Stop(t), t.end / BSIZE;
    var r := Ref(s.v.store, s.v.nodes[t.i], SlotOf(bn));
    CopyKeeps(sb, s, p, t, stop, bn, r, Copied(s.v, t, r), t.(end := stop));
  }

  // ---- The end of a write -------------------------------------------------------------------

  /** The inode after the write. */
  function After(d: Dinode, t: Task): Dinode {
    if Grows(d, t) then d.(size := t.Last()) else d
  }

  lemma FinalSize(d: Dinode, c: seq<Byte>, t: Task)
    requires TaskShape(d, c, t) && t.pc.Ready? && t.end == t.Last()
    ensures After(d, t).size == Max(d.size, t.end) && BlocksFor(After(d, t).size) == Reached(d.size, t.end)
    ensures After(d, t).size <= MAXFILE * BSIZE
  {
  }

  lemma FinishedExtent(store: Store, d: Dinode, c: seq<Byte>, t: Task)
    requires WriteOk(store, d, c, t) && t.pc.Ready? && t.end == t.Last()
    ensures Filled(store, After(d, t))
  {
    FinalSize(d, c, t);
    var d' := After(d, t);
    forall x | 0 <= x < MAXFILE ensures Ref(store, d', SlotOf(x)) == Ref(store, d, SlotOf(x)) {
    }
  }

  lemma FinishedFile(store: Store, d: Dinode, c: seq<Byte>, t: Task)
    requires WriteOk(store, d, c, t) && t.pc.Ready? && t.end == t.Last() && t.off <= |c|
    ensures FileIs(store, After(d, t), Spliced(c, t.off, t.src))
  {
    FinalSize(d, c, t);
    FinishedExtent(store, d, c, t);
    var d', c' := After(d, t), Spliced(c, t.off, t.src);
    forall k | 0 <= k < d'.size ensures Contents(store, d')[k] == c'[k] {
      assert ByteAt(store, d', k) == ByteAt(store, d, k) == Due(c, t, k);
    }
    assert Contents(store, d') == c';
  }

  lemma TruncatedFile(store: Store, d: Dinode, t: Task)
    requires TruncOk(d, t) && t.pc.Freeing?
    ensures |d.addrs| == NDIRECT + 1 && FileIs(store, After(d, t), [])
  {
    var d' := After(d, t);
    forall x | 0 <= x < MAXFILE ensures Ref(store, d', SlotOf(x)) == 0 {
    }
  }

  lemma LockedLess(tasks: map<nat, Task>, p: nat)
    requires p in tasks && Apart(tasks)
    ensures Locked(tasks - {p}) == Locked(tasks) - {tasks[p].i}
  {
    var rest := tasks - {p};
    forall j | j in Locked(tasks) - {tasks[p].i} ensures j in Locked(rest) {
      var q :| q in tasks && tasks[q].i == j;
      assert q in rest && rest[q].i == j;
    }
    forall j | j in Locked(rest) ensures j in Locked(tasks) && j != tasks[p].i {
      var q :| q in rest && rest[q].i == j;
      assert q in tasks && q != p;
    }
  }

  /** The disk and the inodes when the task is done. */
  ghost function Done(sb: Super, v: View, t: Task): View
    requires sb.Valid() && |v.store| == sb.size && |v.nodes| == sb.ninodes && Shaped(v.nodes) && t.i < |v.nodes|
      && t.Last() < WORD
  {
    if Grows(v.nodes[t.i], t) then Saved(sb, Resized(v, t.i, t.Last()), t.i) else v
  }

  lemma DoneChange(sb: Super, v: View, held: set<nat>, t: Task, c: nat)
    requires sb.Valid() && |v.store| == sb.size && |v.nodes| == sb.ninodes && Shaped(v.nodes) && LayoutOk(sb, v, held)
    requires t.i < |v.nodes| && t.Last() < WORD && c == sb.InodeBlock(t.i)
    ensures OneChange(sb, v, Done(sb, v, t), c, t.i) && c < sb.bmapstart && c !in v.own
    ensures Done(sb, v, t).nodes == v.nodes[t.i := After(v.nodes[t.i], t)] && Done(sb, v, t).own == v.own
  {
    assert c < sb.bmapstart;
    assert Put(v.store, c, v.store[c]) == v.store;
    assert v.nodes[t.i := v.nodes[t.i]] == v.nodes;
  }

  lemma DoneLayout(sb: Super, v: View, held: set<nat>, t: Task, c: nat, v': View)
    requires sb.Valid() && |v.store| == sb.size && |v.nodes| == sb.ninodes && Shaped(v.nodes) && LayoutOk(sb, v, held)
    requires t.i < |v.nodes| && t.Last() < WORD && c == sb.InodeBlock(t.i) && v' == Done(sb, v, t)
    ensures Shaped(v'.nodes) && LayoutOk(sb, v', held)
  {
    DoneChange(sb, v, held, t, c);
    RefsFrame(sb, v.store, v'.store, v.nodes, v.own);
    MarksKept(sb, v.store, v'.store, v.own, held);
    forall j, s | 0 <= j < |v.nodes| && 0 <= s < NSLOTS
      ensures Ref(v'.store, v'.nodes[j], s) == Ref(v'.store, v.nodes[j], s)
    {
    }
  }

  lemma DoneInodes(sb: Super, v: View, t: Task, v': View, j: nat)
    requires sb.Valid() && |v.store| == sb.size && |v.nodes| == sb.ninodes && Shaped(v.nodes)
    requires t.i < |v.nodes| && t.Last() < WORD && v' == Done(sb, v, t) && j < |v.nodes|
    ensures j != t.i ==> InodeOnDisk(sb, v'.store, j) == InodeOnDisk(sb, v.store, j)
    ensures j == t.i && Grows(v.nodes[j], t) ==> InodeOnDisk(sb, v'.store, j) == v'.nodes[j]
    ensures !Grows(v.nodes[t.i], t) ==> v' == v
  {
    if Grows(v.nodes[t.i], t) && sb.InodeBlock(j) == sb.InodeBlock(t.i) {
      DinodeRoundTrip(v.store[sb.InodeBlock(t.i)], t.i % IPB, v'.nodes[t.i], j % IPB);
    }
  }

  /** The file itself is finished. */
  lemma FinishOwn(sb: Super, s: State, p: nat, t: Task, v': View, c: nat, d': Dinode, f: seq<Byte>)
    requires Inv(sb, s) && p in s.tasks && t == s.tasks[p] && t.Last() < WORD && t.i < |s.v.nodes|
    requires v' == Done(sb, s.v, t) && c == sb.InodeBlock(t.i) && OneChange(sb, s.v, v', c, t.i) && c !in s.v.own
    requires d' == After(s.v.nodes[t.i], t) && v'.nodes == s.v.nodes[t.i := d'] && FileIs(s.v.store, d', f)
    ensures InodeOnDisk(sb, v'.store, t.i) == d' && FileIs(v'.store, d', f)
  {
    DoneInodes(sb, s.v, t, v', t.i);
    OtherBlock(sb, s.v, c, v'.store[c], t.i);
    SameAddrs(s.v.store, v'.store, s.v.nodes[t.i], d');
    FileKept(s.v.store, v'.store, d', f);
  }

  lemma SameAddrs(store: Store, store': Store, d: Dinode, d': Dinode)
    requires |d.addrs| == NDIRECT + 1 && d'.addrs == d.addrs && SameFile(store, store', d)
    ensures SameFile(store, store', d')
  {
    forall s | 0 <= s < NSLOTS
      ensures Ref(store', d', s) == Ref(store', d, s) && Ref(store, d', s) == Ref(store, d, s)
    {
    }
  }

  /** The files of unlocked inodes stay. */
  lemma FinishOther(sb: Super, s: State, t: Task, v': View, c: nat, j: nat)
    requires Inv(sb, s) && t.Last() < WORD && t.i < |s.v.nodes| && v' == Done(sb, s.v, t) && c == sb.InodeBlock(t.i)
    requires OneChange(sb, s.v, v', c, t.i) && c !in s.v.own && j < |s.v.nodes| && j != t.i && j !in Locked(s.tasks)
    ensures InodeOnDisk(sb, v'.store, j) == v'.nodes[j] && FileIs(v'.store, v'.nodes[j], s.files[j])
  {
    DoneInodes(sb, s.v, t, v', j);
    OtherBlock(sb, s.v, c, v'.store[c], j);
    FileKept(s.v.store, v'.store, s.v.nodes[j], s.files[j]);
  }

  lemma FinishRest(sb: Super, s: State, p: nat, t: Task, v': View, files': seq<seq<Byte>>, c: nat, f: seq<Byte>)
    requires Inv(sb, s) && p in s.tasks && t == s.tasks[p] && t.Last() < WORD && t.i < |s.v.nodes|
    requires v' == Done(sb, s.v, t) && c == sb.InodeBlock(t.i) && Shaped(v'.nodes)
    requires files' == s.files[t.i := f] && OneChange(sb, s.v, v', c, t.i) && c !in s.v.own
    requires v'.nodes == s.v.nodes[t.i := After(s.v.nodes[t.i], t)] && FileIs(s.v.store, After(s.v.nodes[t.i], t), f)
    ensures RestOk(sb, v', files', Locked(s.tasks - {p}))
  {
    LockedLess(s.tasks, p);
    forall j | 0 <= j < |v'.nodes| && j !in Locked(s.tasks - {p})
      ensures InodeOnDisk(sb, v'.store, j) == v'.nodes[j] && FileIs(v'.store, v'.nodes[j], files'[j])
    {
      if j == t.i {
        FinishOwn(sb, s, p, t, v', c, v'.nodes[t.i], f);
      } else {
        FinishOther(sb, s, t, v', c, j);
      }
    }
  }

  lemma FinishTasks(sb: Super, s: State, p: nat, t: Task, v': View, files': seq<seq<Byte>>, c: nat)
    requires Inv(sb, s) && p in s.tasks && t == s.tasks[p] && t.Last() < WORD && t.i < |s.v.nodes|
    requires v' == Done(sb, s.v, t) && c == sb.InodeBlock(t.i) && Shaped(v'.nodes) && OneChange(sb, s.v, v', c, t.i)
      && c !in s.v.own
    requires |files'| == |s.files| && forall j | 0 <= j < |files'| && j != t.i :: files'[j] == s.files[j]
    ensures TasksOk(v', files', s.tasks - {p}) && OnDisk(sb, v', s.tasks - {p}) && Apart(s.tasks - {p})
  {
    var rest := s.tasks - {p};
    forall q | q in rest
      ensures rest[q].i < |v'.nodes| && rest[q].i < |files'| && TaskOk(v'.store, v'.nodes[rest[q].i], files'[rest[q].i],
        rest[q])
      ensures !Grows(v'.nodes[rest[q].i], rest[q]) ==> InodeOnDisk(sb, v'.store, rest[q].i) == v'.nodes[rest[q].i]
    {
      var j := rest[q].i;
      assert j != t.i && rest[q] == s.tasks[q];
      OtherFile(sb, s.v, v', c, t.i, j);
      TaskKept(s.v.store, v'.store, s.v.nodes[j], s.files[j], rest[q]);
      DoneInodes(sb, s.v, t, v', j);
    }
  }

  /** A task that holds nothing ends and leaves its file with contents `f`. */
  lemma FinishKeeps(sb: Super, s: State, p: nat, t: Task, v': View, files': seq<seq<Byte>>, f: seq<Byte>)
    requires Inv(sb, s) && p in s.tasks && t == s.tasks[p] && HeldOf(t) == {} && t.Last() < WORD && t.i < |s.v.nodes|
    requires v' == Done(sb, s.v, t) && files' == s.files[t.i := f] && FileIs(s.v.store, After(s.v.nodes[t.i], t), f)
    ensures Inv(sb, State(v', s.tasks - {p}, files'))
  {
    var c := sb.InodeBlock(t.i);
    HeldSplit(s.tasks, p);
    DoneChange(sb, s.v, Held(s.tasks), t, c);
    DoneLayout(sb, s.v, Held(s.tasks), t, c, v');
    FinishRest(sb, s, p, t, v', files', c, f);
    FinishTasks(sb, s, p, t, v', files', c);
    assert Held(s.tasks - {p}) + {} == Held(s.tasks - {p});
  }

  lemma FinishStep(sb: Super, s: State, p: nat)
    requires Inv(sb, s) && Enabled(sb, s, Finish(p))
    ensures Inv(sb, Exec(sb, s, Finish(p)))
  {
    var t := s.tasks[p];
    var f := Spliced(s.files[t.i], t.off, t.src);
    FinishedFile(s.v.store, s.v.nodes[t.i], s.files[t.i], t);
    FinishKeeps(sb, s, p, t, Done(sb, s.v, t), s.files[t.i := f], f);
  }

  // ---- itrunc -------------------------------------------------------------------------------

  lemma FinishTruncStep(sb: Super, s: State, p: nat)
    requires Inv(sb, s) && Enabled(sb, s, FinishTrunc(p))
    ensures Inv(sb, Exec(sb, s, FinishTrunc(p)))
  {
    var t := s.tasks[p];
    TruncatedFile(s.v.store, s.v.nodes[t.i], t);
    FinishKeeps(sb, s, p, t, Done(sb, s.v, t), s.files[t.i := []], []);
  }

  lemma FreedLayout(sb: Super, v: View, held: set<nat>, b: nat)
    requires sb.Valid() && |v.store| == sb.size && Shaped(v.nodes) && LayoutOk(sb, v, held) && b in held && b < sb.size
    ensures Marked(sb, v.store, b) && LayoutOk(sb, v.(store := Freed(sb, v.store, b)), held - {b})
    ensures sb.BitmapBlock(b) !in v.own && sb.bmapstart <= sb.BitmapBlock(b) < sb.size
  {
    FreedMarks(sb, v.store, v.own, held, b);
    assert sb.bmapstart <= sb.BitmapBlock(b) < sb.DataStart();
    RefsFrame(sb, v.store, Freed(sb, v.store, b), v.nodes, v.own);
  }

  lemma HeldLess(tasks: map<nat, Task>, p: nat, t: Task, b: nat)
    requires Apart(tasks) && p in tasks && t.i == tasks[p].i && b in HeldOf(tasks[p])
      && HeldOf(t) == HeldOf(tasks[p]) - {b}
    ensures Held(tasks[p := t]) == Held(tasks) - {b} && Apart(tasks[p := t])
  {
    HeldSplit(tasks, p);
    HeldMoves(tasks, p, t, Held(tasks) - HeldOf(tasks[p]));
  }

  lemma FreeBitKeeps(sb: Super, s: State, p: nat, b: nat, t: Task, v': View, t': Task, c: nat)
    requires Inv(sb, s) && p in s.tasks && t == s.tasks[p] && t.pc.Freeing? && b in t.pc.left && b < sb.size
      && Marked(sb, s.v.store, b)
    requires v' == s.v.(store := Freed(sb, s.v.store, b)) && t' == t.(pc := Freeing(t.pc.left - {b}))
      && c == sb.BitmapBlock(b)
    ensures Inv(sb, Advance(s, p, v', t'))
  {
    var held := Held(s.tasks);
    HeldSplit(s.tasks, p);
    FreedLayout(sb, s.v, held, b);
    HeldLess(s.tasks, p, t', b);
    StepKeeps(sb, s, v', c, p, t', held - {b});
  }

  lemma FreeBitStep(sb: Super, s: State, p: nat, b: nat)
    requires Inv(sb, s) && Enabled(sb, s, FreeBit(p, b))
    ensures Inv(sb, Exec(sb, s, FreeBit(p, b)))
  {
    var t := s.tasks[p];
    FreeBitKeeps(sb, s, p, b, t, s.v.(store := Freed(sb, s.v.store, b)), t.(pc := Freeing(t.pc.left - {b})),
      sb.BitmapBlock(b));
  }

  lemma ClearedLayout(sb: Super, v: View, held: set<nat>, i: nat, left: set<nat>, v': View)
    requires sb.Valid() && |v.store| == sb.size && Shaped(v.nodes) && LayoutOk(sb, v, held) && i < |v.nodes|
    requires left == Rest(v.own, i, 0, true) && v' == Cleared(v, i)
    ensures Shaped(v'.nodes) && LayoutOk(sb, v', held + left) && left !! held
  {
    forall j, s | 0 <= j < |v'.nodes| && 0 <= s < NSLOTS
      ensures Ref(v.store, v'.nodes[j], s) == if j == i then 0 else Ref(v.store, v.nodes[j], s)
    {
    }
  }

  lemma TruncTasks(sb: Super, s: State, p: nat, i: nat, v': View, t: Task)
    requires Inv(sb, s) && p !in s.tasks && i < |s.v.nodes| && i !in Locked(s.tasks)
    requires v' == Cleared(s.v, i) && t.i == i && t.pc.Freeing? && t.Last() == 0
    ensures TasksOk(v', s.files, s.tasks[p := t]) && OnDisk(sb, v', s.tasks[p := t])
  {
    var tasks' := s.tasks[p := t];
    forall q | q in tasks' && q != p
      ensures tasks'[q] == s.tasks[q] && v'.nodes[tasks'[q].i] == s.v.nodes[tasks'[q].i]
    {
      assert s.tasks[q].i in Locked(s.tasks);
    }
  }

  lemma TruncKeeps(sb: Super, s: State, p: nat, i: nat, v': View, t: Task, left: set<nat>)
    requires Inv(sb, s) && p !in s.tasks && i < |s.v.nodes| && i !in Locked(s.tasks)
    requires left == Rest(s.v.own, i, 0, true) && v' == Cleared(s.v, i) && t == Task(i, 0, [], 0, Freeing(left))
    ensures Inv(sb, Advance(s, p, v', t))
  {
    ClearedLayout(sb, s.v, Held(s.tasks), i, left, v');
    MoreTasks(s.tasks, p, t);
    TruncTasks(sb, s, p, i, v', t);
  }

  lemma TruncStep(sb: Super, s: State, p: nat, i: nat)
    requires Inv(sb, s) && Enabled(sb, s, Trunc(p, i))
    ensures Inv(sb, Exec(sb, s, Trunc(p, i)))
  {
    assert i !in Locked(s.tasks);
    var left := Rest(s.v.own, i, 0, true);
    TruncKeeps(sb, s, p, i, Cleared(s.v, i), Task(i, 0, [], 0, Freeing(left)), left);
  }

  // ---- The start of a write -----------------------------------------------------------------

  lemma StartedTask(store: Store, d: Dinode, c: seq<Byte>, t: Task)
    requires |d.addrs| == NDIRECT + 1 && FileIs(store, d, c) && Accepted(d.size, t.off, |t.src|) && t.end == t.off
      && t.pc.Ready?
    ensures TaskOk(store, d, c, t)
  {
    assert BlocksFor(t.off) <= BlocksFor(d.size);
    assert Reached(d.size, t.off) == BlocksFor(d.size);
    forall k | 0 <= k < Max(d.size, t.end) ensures ByteAt(store, d, k) == Due(c, t, k) {
      assert Contents(store, d)[k] == ByteAt(store, d, k);
    }
  }

  lemma MoreTasks(tasks: map<nat, Task>, p: nat, t: Task)
    requires p !in tasks && HeldOf(t) !! Held(tasks) && Apart(tasks) && t.i !in Locked(tasks)
    ensures Held(tasks[p := t]) == Held(tasks) + HeldOf(t) && Locked(tasks[p := t]) == Locked(tasks) + {t.i}
    ensures Apart(tasks[p := t])
  {
    var tasks' := tasks[p := t];
    HeldSplit(tasks', p);
    assert tasks' - {p} == tasks;
    forall j | j in Locked(tasks) ensures j in Locked(tasks') {
      var q :| q in tasks && tasks[q].i == j;
      assert q in tasks' && tasks'[q].i == j;
    }
    assert p in tasks' && tasks'[p].i == t.i;
    forall q | q in tasks ensures HeldOf(tasks[q]) <= Held(tasks) && tasks[q].i in Locked(tasks) {
    }
  }

  lemma BeginStep(sb: Super, s: State, p: nat, i: nat, off: nat, src: seq<Byte>)
    requires Inv(sb, s) && Enabled(sb, s, Begin(p, i, off, src))
    ensures Inv(sb, Exec(sb, s, Begin(p, i, off, src)))
  {
    var t := Task(i, off, src, off, Ready);
    assert i !in Locked(s.tasks);
    MoreTasks(s.tasks, p, t);
    assert Held(s.tasks) + {} == Held(s.tasks);
    StartedTask(s.v.store, s.v.nodes[i], s.files[i], t);
  }

  // ---- Every run ----------------------------------------------------------------------------

  /** What every step of every process keeps. */
  lemma StepInv(sb: Super, s: State, step: Step)
    requires Inv(sb, s) && Enabled(sb, s, step)
    ensures Inv(sb, Exec(sb, s, step))
  {
    match step
    case Begin(p, i, off, src) => BeginStep(sb, s, p, i, off, src);
    case TakeBit(p, b) => TakeBitStep(sb, s, p, b);
    case Zero(p) => ZeroStep(sb, s, p);
    case AddEntry(p) => AddEntryStep(sb, s, p);
    case Copy(p) => CopyStep(sb, s, p);
    case Finish(p) => FinishStep(sb, s, p);
    case Trunc(p, i) => TruncStep(sb, s, p, i);
    case FreeBit(p, b) => FreeBitStep(sb, s, p, b);
    case FinishTrunc(p) => FinishTruncStep(sb, s, p);
  }

  /** With no write under way the file system is good and every file is what the finished writes made it. */
  lemma QuietIsGood(sb: Super, s: State)
    requires Inv(sb, s) && s.tasks == map[]
    ensures Good(sb, s.v) && forall j | 0 <= j < |s.files| ::
              s.v.nodes[j].size <= MAXFILE * BSIZE && Contents(s.v.store, s.v.nodes[j]) == s.files[j]
  {
    assert Held(s.tasks) == {} && Locked(s.tasks) == {};
  }

  /** A good file system with no write under way. */
  lemma GoodIsInv(sb: Super, s: State)
    requires Good(sb, s.v) && s.tasks == map[] && |s.files| == |s.v.nodes|
    requires forall j | 0 <= j < |s.files| :: FileIs(s.v.store, s.v.nodes[j], s.files[j])
    ensures Inv(sb, s)
  {
    assert Held(s.tasks) == {} && Locked(s.tasks) == {};
  }

  /** A write that holds a block can go on. */
  lemma HolderGoesOn(sb: Super, s: State, p: nat) returns (step: Step)
    requires Inv(sb, s) && p in s.tasks && (s.tasks[p].pc.Taken? || s.tasks[p].pc.Zeroed?)
    ensures Enabled(sb, s, step) && !Starts(step) && step.p == p
  {
    var t := s.tasks[p];
    HeldSplit(s.tasks, p);
    if t.pc.Taken? {
      step := Zero(p);
    } else {
      var d := s.v.nodes[t.i];
      assert Ref(s.v.store, d, NDIRECT) == d.addrs[NDIRECT];
      step := AddEntry(p);
    }
  }

  lemma CopierGoesOn(sb: Super, s: State, p: nat)
    requires Inv(sb, s) && p in s.tasks && s.tasks[p].pc.Ready? && s.tasks[p].end < s.tasks[p].Last()
    requires Wants(s.v, s.tasks[p]) == NSLOTS
    ensures Enabled(sb, s, Copy(p))
  {
    var t := s.tasks[p];
    var r := Ref(s.v.store, s.v.nodes[t.i], SlotOf(t.end / BSIZE));
    assert r in s.v.own;
  }

  /** Blocks that are still to be freed are marked: the panic "freeing free block" cannot happen. */
  lemma TruncGoesOn(sb: Super, s: State, p: nat) returns (step: Step)
    requires Inv(sb, s) && p in s.tasks && s.tasks[p].pc.Freeing?
    ensures Enabled(sb, s, step) && !Starts(step) && step.p == p
  {
    var left := s.tasks[p].pc.left;
    if left == {} {
      step := FinishTrunc(p);
    } else {
      var b :| b in left;
      HeldSplit(s.tasks, p);
      assert b in Held(s.tasks);
      step := FreeBit(p, b);
    }
  }

  predicate Starts(step: Step) {
    step.Begin? || step.Trunc?
  }

  /** A task can always go on, unless it needs a block and none is free. */
  lemma CanGoOn(sb: Super, s: State, p: nat) returns (step: Step)
    requires Inv(sb, s) && p in s.tasks
    ensures (Enabled(sb, s, step) && !Starts(step) && step.p == p) || AllMarked(sb, s.v.store)
  {
    var t := s.tasks[p];
    step := Finish(p);
    if t.pc.Freeing? {
      step := TruncGoesOn(sb, s, p);
    } else if !t.pc.Ready? {
      step := HolderGoesOn(sb, s, p);
    } else if t.end < t.Last() {
      if Wants(s.v, t) == NSLOTS {
        CopierGoesOn(sb, s, p);
        step := Copy(p);
      } else if b: nat :| b < sb.size && !Marked(sb, s.v.store, b) {
        step := TakeBit(p, b);
      }
    }
  }
}
