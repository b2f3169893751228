/** What the file system hands to log_write: the calls in order, and the exact set of blocks. */
module FsLog {
  import opened Blocks
  import opened FsLayout
  import opened FsState
  import opened FsWrite
  import LP = LogProtocol

  // ---- The calls in order -------------------------------------------------------------------

  /** One call of log_write. */
  datatype Entry = Entry(b: nat, data: Block)

  /** The store after these calls. */
  function Applied(store: Store, trace: seq<Entry>): (r: Store)
    ensures |r| == |store|
  {
    if trace == [] then store
    else
      var before, last := Applied(store, trace[..|trace| - 1]), trace[|trace| - 1];
      if last.b < |store| then Put(before, last.b, last.data) else before
  }

  function BlocksOf(trace: seq<Entry>): set<nat> {
    set k | 0 <= k < |trace| :: trace[k].b
  }

  lemma OneMoreEntry(store: Store, trace: seq<Entry>, b: nat, data: Block)
    requires b < |store|
    ensures Applied(store, trace + [Entry(b, data)]) == Put(Applied(store, trace), b, data)
    ensures BlocksOf(trace + [Entry(b, data)]) == BlocksOf(trace) + {b}
  {
    var more := trace + [Entry(b, data)];
    assert more[..|more| - 1] == trace;
    forall c | c in BlocksOf(trace) + {b} ensures c in BlocksOf(more) {
      if c == b {
        assert more[|trace|].b == c;
      } else {
        var k :| 0 <= k < |trace| && trace[k].b == c;
        assert more[k].b == c;
      }
    }
  }

  /** Inodes, free map and data: nothing of the log region or before it. */
  ghost predicate AtHome(sb: Super, blocks: set<nat>) {
    forall b | b in blocks :: sb.inodestart <= b < sb.size
  }

  // ---- Free blocks --------------------------------------------------------------------------

  ghost predicate AllMarked(sb: Super, store: Store)
    requires sb.Valid() && |store| == sb.size
  {
    forall c | 0 <= c < sb.size :: Marked(sb, store, c)
  }

  /** The `n` blocks from `lo` on. */
  function Between(lo: nat, n: nat): (r: set<nat>)
    ensures forall c :: c in r <==> lo <= c < lo + n
  {
    if n == 0 then {} else Between(lo, n - 1) + {lo + (n - 1)}
  }

  lemma {:induction false} BetweenSize(lo: nat, n: nat)
    ensures |Between(lo, n)| == n
  {
    if n > 0 {
      BetweenSize(lo, n - 1);
    }
  }

  lemma SubsetSize(a: set<nat>, b: set<nat>)
    requires a <= b
    ensures |a| <= |b|
  {
    assert b == a + (b - a);
  }

  /** Fewer than `n` data blocks are free. */
  predicate Short(sb: Super, own: Owners, n: nat) {
    sb.nblocks < |own| + n
  }

  lemma OwnersFit(sb: Super, v: View, o: nat)
    requires Consistent(sb, v, o)
    ensures |v.own| <= sb.nblocks
  {
    BetweenSize(sb.DataStart(), sb.nblocks);
    SubsetSize(v.own.Keys, Between(sb.DataStart(), sb.nblocks));
    assert |v.own| == |v.own.Keys|;
  }

  /** balloc gives up only with every data block owned. */
  lemma MarkedIsShort(sb: Super, v: View, o: nat)
    requires Consistent(sb, v, o) && AllMarked(sb, v.store)
    ensures Short(sb, v.own, 1)
  {
    BetweenSize(sb.DataStart(), sb.nblocks);
    SubsetSize(Between(sb.DataStart(), sb.nblocks), v.own.Keys);
    assert |v.own| == |v.own.Keys|;
  }

  // ---- Blocks taken from the free map -------------------------------------------------------

  function NewBlocks(own: Owners, own': Owners): set<nat> {
    own'.Keys - own.Keys
  }

  /** The free map blocks that have the bits of `blocks`. */
  function Bits(sb: Super, blocks: set<nat>): set<nat> {
    set r | r in blocks :: sb.BitmapBlock(r)
  }

  ghost predicate EntryAdded(own: Owners, own': Owners) {
    exists r :: r in NewBlocks(own, own') && own'[r].1 > NDIRECT
  }

  /** The indirect block, at `a`, if an entry of it was filled. */
  ghost function EntryBlock(own: Owners, own': Owners, a: nat): set<nat> {
    if EntryAdded(own, own') then {a} else {}
  }

  /**
   * What is logged when an inode whose indirect block is at `a` takes blocks from the free map: the free map,
   * the zeroed blocks, the indirect block.
   */
  ghost function TakeLogged(sb: Super, own: Owners, own': Owners, a: nat): set<nat> {
    NewBlocks(own, own') + Bits(sb, NewBlocks(own, own')) + EntryBlock(own, own', a)
  }

  lemma TakeNothing(sb: Super, own: Owners, a: nat)
    ensures TakeLogged(sb, own, own, a) == {}
  {
  }

  lemma TakeOne(sb: Super, own: Owners, i: nat, s: nat, b: nat, a: nat)
    requires b !in own
    ensures NewBlocks(own, Claim(own, b, i, s)) == {b} && (EntryAdded(own, Claim(own, b, i, s)) <==> s > NDIRECT)
    ensures TakeLogged(sb, own, Claim(own, b, i, s), a) == {b, sb.BitmapBlock(b)} + if s > NDIRECT then {a} else {}
  {
    var own' := Claim(own, b, i, s);
    assert NewBlocks(own, own') == {b};
    assert Bits(sb, {b}) == {sb.BitmapBlock(b)};
    assert own'[b] == (i, s);
  }

  lemma BitsJoin(sb: Super, x: set<nat>, y: set<nat>)
    ensures Bits(sb, x + y) == Bits(sb, x) + Bits(sb, y)
  {
  }

  ghost predicate Within(own: Owners, own': Owners) {
    forall r | r in own :: r in own' && own'[r] == own[r]
  }

  lemma NewJoin(own: Owners, mid: Owners, own': Owners)
    requires Within(own, mid) && Within(mid, own')
    ensures NewBlocks(own, own') == NewBlocks(own, mid) + NewBlocks(mid, own')
    ensures EntryAdded(own, own') <==> EntryAdded(own, mid) || EntryAdded(mid, own')
  {
    if EntryAdded(own, mid) {
      var r :| r in NewBlocks(own, mid) && mid[r].1 > NDIRECT;
      assert r in NewBlocks(own, own');
    }
    if EntryAdded(mid, own') {
      var r :| r in NewBlocks(mid, own') && own'[r].1 > NDIRECT;
      assert r in NewBlocks(own, own');
    }
    if EntryAdded(own, own') {
      var r :| r in NewBlocks(own, own') && own'[r].1 > NDIRECT;
      assert r in NewBlocks(own, mid) || r in NewBlocks(mid, own');
    }
  }

  /** What is logged adds up over two stretches. */
  lemma TakeJoin(sb: Super, own: Owners, mid: Owners, own': Owners, a: nat, a': nat)
    requires Within(own, mid) && Within(mid, own') && (EntryAdded(own, mid) ==> a' == a)
    ensures TakeLogged(sb, own, own', a') == TakeLogged(sb, own, mid, a) + TakeLogged(sb, mid, own', a')
    ensures NewBlocks(own, own') == NewBlocks(own, mid) + NewBlocks(mid, own')
    ensures EntryBlock(own, own', a') == EntryBlock(own, mid, a) + EntryBlock(mid, own', a')
  {
    NewJoin(own, mid, own');
    BitsJoin(sb, NewBlocks(own, mid), NewBlocks(mid, own'));
  }

  // ---- What bmap takes ----------------------------------------------------------------------

  /** How many blocks bmap takes from the free map for file block `bn`. */
  function Takes(store: Store, d: Dinode, bn: nat): nat
    requires |d.addrs| == NDIRECT + 1 && bn < MAXFILE
  {
    (if Ref(store, d, SlotOf(bn)) == 0 then 1 else 0) + (if bn >= NDIRECT && d.addrs[NDIRECT] == 0 then 1 else 0)
  }

  /** A block that bmap took is the one asked for, or the indirect block. */
  lemma NewIsOneOf(sb: Super, v: View, v': View, i: nat, bn: nat, b: nat, r: nat)
    requires Consistent(sb, v, i) && i < |v.nodes| && bn < MAXFILE && Mapped(sb, v, v', i, bn, b)
    requires r in NewBlocks(v.own, v'.own)
    ensures r == b || (r == v'.nodes[i].addrs[NDIRECT] && v.nodes[i].addrs[NDIRECT] == 0 && bn >= NDIRECT)
  {
    assert v'.own[r].0 == i && v'.own[r].1 in Touches(bn);
    assert Ref(v'.store, v'.nodes[i], v'.own[r].1) == r;
    assert Ref(v.store, v.nodes[i], NDIRECT) == v.nodes[i].addrs[NDIRECT];
    assert v.nodes[i].addrs[NDIRECT] != 0 ==> v.nodes[i].addrs[NDIRECT] in v.own;
  }

  /** The indirect block is not owned before bmap takes it. */
  lemma IndirectIsNew(sb: Super, v: View, v': View, i: nat, bn: nat, b: nat)
    requires Consistent(sb, v, i) && i < |v.nodes| && NDIRECT <= bn < MAXFILE && Mapped(sb, v, v', i, bn, b)
    requires v.nodes[i].addrs[NDIRECT] == 0
    ensures var a := v'.nodes[i].addrs[NDIRECT]; a in NewBlocks(v.own, v'.own) && v'.own[a] == (i, NDIRECT)
  {
    var a := v'.nodes[i].addrs[NDIRECT];
    assert Ref(v'.store, v'.nodes[i], NDIRECT) == a != 0;
    assert Ref(v.store, v.nodes[i], NDIRECT) == 0;
  }

  lemma WantedIsNew(sb: Super, v: View, v': View, i: nat, bn: nat, b: nat)
    requires Consistent(sb, v, i) && i < |v.nodes| && bn < MAXFILE && Mapped(sb, v, v', i, bn, b)
    requires Ref(v.store, v.nodes[i], SlotOf(bn)) == 0
    ensures b in NewBlocks(v.own, v'.own) && v'.own[b] == (i, SlotOf(bn))
  {
  }

  /** The blocks bmap took: the one asked for and the indirect block, each if it was missing. */
  lemma MappedNew(sb: Super, v: View, v': View, i: nat, bn: nat, b: nat)
    requires Consistent(sb, v, i) && i < |v.nodes| && bn < MAXFILE && Mapped(sb, v, v', i, bn, b)
    requires Ref(v.store, v.nodes[i], SlotOf(bn)) == 0
    ensures
      var a := v'.nodes[i].addrs[NDIRECT];
      var first := bn >= NDIRECT && v.nodes[i].addrs[NDIRECT] == 0;
      && NewBlocks(v.own, v'.own) == {b} + (if first then {a} else {})
      && v'.own[b] == (i, SlotOf(bn)) && (first ==> a != b)
  {
    WantedIsNew(sb, v, v', i, bn, b);
    if bn >= NDIRECT && v.nodes[i].addrs[NDIRECT] == 0 {
      IndirectIsNew(sb, v, v', i, bn, b);
    }
    forall r | r in NewBlocks(v.own, v'.own)
      ensures r == b || (r == v'.nodes[i].addrs[NDIRECT] && v.nodes[i].addrs[NDIRECT] == 0 && bn >= NDIRECT)
    {
      NewIsOneOf(sb, v, v', i, bn, b, r);
    }
  }

  lemma MapGrows(own: Owners, own': Owners)
    requires Within(own, own')
    ensures |own'| == |own| + |NewBlocks(own, own')|
  {
    assert own'.Keys == own.Keys + NewBlocks(own, own');
    assert |own'| == |own'.Keys| && |own| == |own.Keys|;
  }

  lemma MappedTakes(sb: Super, v: View, v': View, i: nat, bn: nat, b: nat)
    requires Consistent(sb, v, i) && i < |v.nodes| && bn < MAXFILE && Mapped(sb, v, v', i, bn, b)
    ensures |v'.own| == |v.own| + Takes(v.store, v.nodes[i], bn)
  {
    if Ref(v.store, v.nodes[i], SlotOf(bn)) == 0 {
      MappedNew(sb, v, v', i, bn, b);
      MapGrows(v.own, v'.own);
    } else {
      assert bn >= NDIRECT ==> v.nodes[i].addrs[NDIRECT] != 0;
    }
  }

  /** bmap gave disk block `b` for file block `bn` and logged what it took for it. */
  ghost predicate Got(sb: Super, v: View, v': View, i: nat, bn: nat, b: nat, log: set<nat>, log': set<nat>)
    requires i < |v.nodes| && Shaped(v.nodes) && bn < MAXFILE
  {
    && Mapped(sb, v, v', i, bn, b)
    && log' == log + TakeLogged(sb, v.own, v'.own, v'.nodes[i].addrs[NDIRECT])
  }

  lemma GotAlready(sb: Super, v: View, i: nat, bn: nat, b: nat, log: set<nat>)
    requires Consistent(sb, v, i) && i < |v.nodes| && bn < MAXFILE && b == Ref(v.store, v.nodes[i], SlotOf(bn)) != 0
    ensures Got(sb, v, v, i, bn, b, log, log)
  {
    MappedAlready(sb, v, i, bn);
    TakeNothing(sb, v.own, v.nodes[i].addrs[NDIRECT]);
  }

  lemma GotDirect(sb: Super, v: View, i: nat, bn: nat, b: nat, log: set<nat>)
    requires Consistent(sb, v, i) && i < |v.nodes| && bn < NDIRECT && v.nodes[i].addrs[bn] == 0
    requires b < sb.size && !Marked(sb, v.store, b)
    ensures Got(sb, v, FillInode(sb, v, i, bn, b), i, bn, b, log, log + {sb.BitmapBlock(b), b})
  {
    MappedDirect(sb, v, i, bn, b);
    FreeBlock(sb, v, i, b);
    TakeOne(sb, v.own, i, bn, b, FillInode(sb, v, i, bn, b).nodes[i].addrs[NDIRECT]);
  }

  lemma GotEntry(sb: Super, v: View, i: nat, bn: nat, k: nat, s: nat, b: nat, a: nat, log: set<nat>)
    requires Consistent(sb, v, i) && i < |v.nodes| && bn == NDIRECT + k && k < NINDIRECT && s == NDIRECT + 1 + k
    requires a == v.nodes[i].addrs[NDIRECT] != 0 && a < sb.size
    requires Ref(v.store, v.nodes[i], SlotOf(bn)) == 0 && b < sb.size && !Marked(sb, v.store, b)
    ensures Got(sb, v, FillIndirect(sb, v, i, k, b, a), i, bn, b, log, log + {sb.BitmapBlock(b), b, a})
  {
    MappedIndirect(sb, v, i, bn, k, b, a);
    FreeBlock(sb, v, i, b);
    TakeOne(sb, v.own, i, s, b, a);
  }

  lemma TakeIndirect(sb: Super, own: Owners, mid: Owners, own': Owners, i: nat, a: nat, a': nat)
    requires a !in own && mid == Claim(own, a, i, NDIRECT) && Within(mid, own')
    ensures TakeLogged(sb, own, own', a') == {sb.BitmapBlock(a), a} + TakeLogged(sb, mid, own', a')
  {
    TakeOne(sb, own, i, NDIRECT, a, a);
    TakeJoin(sb, own, mid, own', a, a');
  }

  /** The indirect block is taken first, then the block asked for. */
  lemma GotAfterIndirect(sb: Super, v: View, i: nat, bn: nat, a: nat, v': View, b: nat, log: set<nat>, log1: set<nat>,
                         log': set<nat>)
    requires Consistent(sb, v, i) && i < |v.nodes| && NDIRECT <= bn < MAXFILE && v.nodes[i].addrs[NDIRECT] == 0
    requires a < sb.size && !Marked(sb, v.store, a) && Shaped(FillInode(sb, v, i, NDIRECT, a).nodes)
    requires Got(sb, FillInode(sb, v, i, NDIRECT, a), v', i, bn, b, log1, log') && log1 == log + {sb.BitmapBlock(a), a}
    ensures Got(sb, v, v', i, bn, b, log, log')
  {
    MappedAfterIndirect(sb, v, i, bn, a, v', b);
    FreeBlock(sb, v, i, a);
    TakeIndirect(sb, v.own, FillInode(sb, v, i, NDIRECT, a).own, v'.own, i, a, v'.nodes[i].addrs[NDIRECT]);
  }

  /** With the indirect block taken, one block is still to come. */
  lemma IndirectTaken(sb: Super, v: View, i: nat, bn: nat, a: nat)
    requires Consistent(sb, v, i) && i < |v.nodes| && NDIRECT <= bn < MAXFILE && v.nodes[i].addrs[NDIRECT] == 0
    requires a < sb.size && !Marked(sb, v.store, a)
    ensures
      var mid := FillInode(sb, v, i, NDIRECT, a);
      |mid.own| == |v.own| + 1 && Takes(mid.store, mid.nodes[i], bn) == 1
  {
    FreeBlock(sb, v, i, a);
    FreshIndirect(sb, v, i, a, bn);
    TakeOne(sb, v.own, i, NDIRECT, a, a);
    MapGrows(v.own, FillInode(sb, v, i, NDIRECT, a).own);
  }

  /** bmap of a block that is there changes nothing. */
  lemma GotNothing(sb: Super, v: View, v': View, i: nat, bn: nat, b: nat, log: set<nat>, log': set<nat>)
    requires i < |v.nodes| && Shaped(v.nodes) && bn < MAXFILE && Ref(v.store, v.nodes[i], SlotOf(bn)) != 0
    requires Got(sb, v, v', i, bn, b, log, log')
    ensures v' == v && log' == log && b == Ref(v.store, v.nodes[i], SlotOf(bn)) && b < sb.size
  {
    TakeNothing(sb, v.own, v.nodes[i].addrs[NDIRECT]);
  }

  // ---- What writei logs ---------------------------------------------------------------------

  /** One past the last file block that writing from `off` up to `end` goes to. */
  function Upto(off: nat, end: nat): (hi: nat)
    ensures off / BSIZE <= hi
  {
    if end <= off then off / BSIZE else BlocksFor(end)
  }

  /** Blocks taken from the free map by then, the indirect block included. */
  function Taken(size: nat, end: nat): nat {
    Reached(size, end) - BlocksFor(size) + if BlocksFor(size) <= NDIRECT < Reached(size, end) then 1 else 0
  }

  /** How many free blocks writing `n` bytes at `off` needs. */
  function Needs(size: nat, off: nat, n: nat): nat {
    Taken(size, off + n)
  }

  /** Writing went to file blocks `lo` to `hi` and took `taken` blocks from the free map. */
  datatype Tally = Tally(lo: nat, hi: nat, taken: nat)

  function TallyAt(size: nat, off: nat, end: nat): Tally {
    Tally(off / BSIZE, Upto(off, end), Taken(size, end))
  }

  /** The disk blocks of file blocks `lo` to `hi`. */
  function DataOf(store: Store, d: Dinode, lo: nat, hi: nat): set<nat>
    requires |d.addrs| == NDIRECT + 1 && hi <= MAXFILE
  {
    if hi <= lo then {} else DataOf(store, d, lo, hi - 1) + {Ref(store, d, SlotOf(hi - 1))}
  }

  /** The first `hi` file blocks are the same disk blocks. */
  ghost predicate SamePlaces(store: Store, d: Dinode, store': Store, d': Dinode, hi: nat)
    requires |d.addrs| == |d'.addrs| == NDIRECT + 1 && hi <= MAXFILE
  {
    forall c | 0 <= c < hi :: Ref(store', d', SlotOf(c)) == Ref(store, d, SlotOf(c))
  }

  lemma {:induction false} DataKept(store: Store, d: Dinode, store': Store, d': Dinode, lo: nat, hi: nat)
    requires |d.addrs| == |d'.addrs| == NDIRECT + 1 && hi <= MAXFILE && SamePlaces(store, d, store', d', hi)
    ensures DataOf(store', d', lo, hi) == DataOf(store, d, lo, hi)
  {
    if lo < hi {
      DataKept(store, d, store', d', lo, hi - 1);
    }
  }

  lemma {:induction false} DataSize(store: Store, d: Dinode, lo: nat, hi: nat)
    requires |d.addrs| == NDIRECT + 1 && lo <= hi <= MAXFILE
    ensures |DataOf(store, d, lo, hi)| <= hi - lo
  {
    if lo < hi {
      DataSize(store, d, lo, hi - 1);
    }
  }

  /**
   * Of inode `i` the file blocks `lo` to `hi` have been written since the owners were `own0`: they were logged,
   * and whatever was taken for them. What was taken is file blocks and the indirect block.
   */
  ghost predicate Accounted(sb: Super, own0: Owners, v: View, i: nat, lo: nat, hi: nat, log0: set<nat>, log: set<nat>)
    requires i < |v.nodes| && |v.nodes[i].addrs| == NDIRECT + 1 && hi <= MAXFILE
  {
    var data, a := DataOf(v.store, v.nodes[i], lo, hi), v.nodes[i].addrs[NDIRECT];
    && log == log0 + data + TakeLogged(sb, own0, v.own, a)
    && NewBlocks(own0, v.own) <= data + EntryBlock(own0, v.own, a)
  }

  lemma NothingAccounted(sb: Super, v: View, i: nat, lo: nat, log: set<nat>)
    requires i < |v.nodes| && |v.nodes[i].addrs| == NDIRECT + 1 && lo <= MAXFILE
    ensures Accounted(sb, v.own, v, i, lo, lo, log, log)
  {
    TakeNothing(sb, v.own, v.nodes[i].addrs[NDIRECT]);
  }

  lemma RoundTakes(store: Store, d: Dinode, size: nat, off: nat, src: seq<Byte>, end: nat, stop: nat, bn: nat)
    requires |d.addrs| == NDIRECT + 1 && Accepted(size, off, |src|) && Round(off, src, end, stop, bn) && bn < MAXFILE
    requires Extent(store, d, Reached(size, end))
    ensures TallyAt(size, off, end).hi == bn
    ensures TallyAt(size, off, stop) == Tally(off / BSIZE, bn + 1, Taken(size, end) + Takes(store, d, bn))
  {
    RoundReaches(size, off, src, end, stop, bn);
  }

  /** The file blocks before `bn` stay where they are. */
  lemma PlacesBefore(sb: Super, v: View, v1: View, v2: View, i: nat, bn: nat, b: nat)
    requires Consistent(sb, v, i) && i < |v.nodes| && bn < MAXFILE
    requires Mapped(sb, v, v1, i, bn, b) && v2.nodes == v1.nodes && SameRefs(v1.nodes, v1.store, v2.store)
    ensures SamePlaces(v.store, v.nodes[i], v2.store, v2.nodes[i], bn) && Ref(v2.store, v2.nodes[i], SlotOf(bn)) == b
  {
    assert Ref(v2.store, v2.nodes[i], SlotOf(bn)) == Ref(v1.store, v1.nodes[i], SlotOf(bn));
    forall c | 0 <= c < bn ensures Ref(v2.store, v2.nodes[i], SlotOf(c)) == Ref(v.store, v.nodes[i], SlotOf(c)) {
      MappedRefs(sb, v, v1, i, bn, c);
    }
  }

  lemma DataStep(store: Store, d: Dinode, store': Store, d': Dinode, bn: nat, b: nat, lo: nat, hi: nat)
    requires |d.addrs| == |d'.addrs| == NDIRECT + 1 && lo <= bn && bn < MAXFILE && hi == bn + 1
    requires SamePlaces(store, d, store', d', bn) && Ref(store', d', SlotOf(bn)) == b
    ensures DataOf(store', d', lo, hi) == DataOf(store, d, lo, bn) + {b}
  {
    DataKept(store, d, store', d', lo, bn);
  }

  /** Once an entry of the indirect block is filled, the indirect block stays. */
  lemma EntryNeedsIndirect(sb: Super, own0: Owners, v: View, i: nat, o: nat)
    requires Consistent(sb, v, o) && i < |v.nodes| && GrewFor(own0, v.own, i) && EntryAdded(own0, v.own)
    ensures v.nodes[i].addrs[NDIRECT] != 0
  {
    var r :| r in NewBlocks(own0, v.own) && v.own[r].1 > NDIRECT;
    assert v.own[r].0 == i && Ref(v.store, v.nodes[i], v.own[r].1) == r;
  }

  /** What bmap takes is the block asked for and, with an entry for it, the indirect block. */
  lemma MappedLogged(sb: Super, v: View, v': View, i: nat, bn: nat, b: nat)
    requires Consistent(sb, v, i) && i < |v.nodes| && bn < MAXFILE && Mapped(sb, v, v', i, bn, b)
    ensures NewBlocks(v.own, v'.own) <= {b} + EntryBlock(v.own, v'.own, v'.nodes[i].addrs[NDIRECT])
  {
    if Ref(v.store, v.nodes[i], SlotOf(bn)) == 0 {
      MappedNew(sb, v, v', i, bn, b);
      if bn >= NDIRECT {
        assert b in NewBlocks(v.own, v'.own) && v'.own[b].1 > NDIRECT;
      }
    }
  }

  lemma RoundTake(sb: Super, own0: Owners, v: View, v1: View, i: nat, bn: nat, b: nat, a: nat, a1: nat)
    requires Consistent(sb, v, i) && i < |v.nodes| && bn < MAXFILE && Mapped(sb, v, v1, i, bn, b)
      && GrewFor(own0, v.own, i)
    requires a == v.nodes[i].addrs[NDIRECT] && a1 == v1.nodes[i].addrs[NDIRECT]
    ensures Within(own0, v.own) && Within(v.own, v1.own) && (EntryAdded(own0, v.own) ==> a1 == a)
  {
    if EntryAdded(own0, v.own) {
      EntryNeedsIndirect(sb, own0, v, i, i);
    }
  }

  lemma AccountJoin(sb: Super, own0: Owners, own: Owners, own1: Owners, a: nat, a1: nat, data: set<nat>,
                    data': set<nat>, b: nat,
                    log0: set<nat>, log: set<nat>, log': set<nat>)
    requires Within(own0, own) && Within(own, own1) && (EntryAdded(own0, own) ==> a1 == a) && data' == data + {b}
    requires log == log0 + data + TakeLogged(sb, own0, own, a) && NewBlocks(own0, own) <= data + EntryBlock(own0, own,
      a)
    requires NewBlocks(own, own1) <= {b} + EntryBlock(own, own1, a1)
    requires log' == log + TakeLogged(sb, own, own1, a1) + {b}
    ensures log' == log0 + data' + TakeLogged(sb, own0, own1, a1)
    ensures NewBlocks(own0, own1) <= data' + EntryBlock(own0, own1, a1)
  {
    TakeJoin(sb, own0, own, own1, a, a1);
  }

  /** A round adds the block it writes and what bmap took for it. */
  lemma RoundAccounted(sb: Super, own0: Owners, v: View, v1: View, v2: View, i: nat, bn: nat, b: nat, lo: nat, hi: nat,
                       log0: set<nat>, log: set<nat>, log': set<nat>)
    requires Consistent(sb, v, i) && i < |v.nodes| && lo <= bn && bn < MAXFILE && hi == bn + 1
      && GrewFor(own0, v.own, i)
    requires Mapped(sb, v, v1, i, bn, b) && v2.nodes == v1.nodes && v2.own == v1.own
      && SameRefs(v1.nodes, v1.store, v2.store)
    requires Accounted(sb, own0, v, i, lo, bn, log0, log)
    requires log' == log + TakeLogged(sb, v.own, v1.own, v1.nodes[i].addrs[NDIRECT]) + {b}
    ensures Accounted(sb, own0, v2, i, lo, hi, log0, log')
  {
    PlacesBefore(sb, v, v1, v2, i, bn, b);
    DataStep(v.store, v.nodes[i], v2.store, v2.nodes[i], bn, b, lo, hi);
    MappedLogged(sb, v, v1, i, bn, b);
    var a, a1 := v.nodes[i].addrs[NDIRECT], v1.nodes[i].addrs[NDIRECT];
    RoundTake(sb, own0, v, v1, i, bn, b, a, a1);
    var data, data' := DataOf(v.store, v.nodes[i], lo, bn), DataOf(v2.store, v2.nodes[i], lo, hi);
    AccountJoin(sb, own0, v.own, v1.own, a, a1, data, data', b, log0, log, log');
  }

  // ---- A whole writei -----------------------------------------------------------------------

  /** Exactly the blocks that writing `n` bytes at `off` of inode `i` hands to log_write. */
  ghost function WriteLogged(sb: Super, v: View, v': View, i: nat, off: nat, n: nat): set<nat>
    requires i < |v.nodes| && i < |v'.nodes| && |v'.nodes[i].addrs| == NDIRECT + 1 && off + n <= MAXFILE * BSIZE
  {
    LoggedUpTo(sb, v, v', i, off, off + n)
  }

  ghost function LoggedUpTo(sb: Super, v: View, v': View, i: nat, off: nat, end: nat): set<nat>
    requires i < |v.nodes| && i < |v'.nodes| && |v'.nodes[i].addrs| == NDIRECT + 1 && off <= end <= MAXFILE * BSIZE
  {
    SpanLogged(sb, v.own, v', i, off / BSIZE, Upto(off, end)) + InodeLogged(sb, i, v.nodes[i].size, off, end)
  }

  /** The file blocks `lo` to `hi` and what was taken for them. */
  ghost function SpanLogged(sb: Super, own0: Owners, v: View, i: nat, lo: nat, hi: nat): set<nat>
    requires i < |v.nodes| && |v.nodes[i].addrs| == NDIRECT + 1 && hi <= MAXFILE
  {
    DataOf(v.store, v.nodes[i], lo, hi) + TakeLogged(sb, own0, v.own, v.nodes[i].addrs[NDIRECT])
  }

  /** The inode's block, if the write moves the end of the file. */
  function InodeLogged(sb: Super, i: nat, size: nat, off: nat, end: nat): set<nat> {
    if off < end && end > size then {sb.InodeBlock(i)} else {}
  }

  lemma WriteLoggedAt(sb: Super, v: View, v': View, i: nat, off: nat, n: nat, end: nat, lo: nat, hi: nat)
    requires i < |v.nodes| && i < |v'.nodes| && |v'.nodes[i].addrs| == NDIRECT + 1 && end == off + n <= MAXFILE * BSIZE
    requires lo == off / BSIZE && hi == Upto(off, end)
    ensures WriteLogged(sb, v, v', i, off, n) == SpanLogged(sb, v.own, v', i, lo, hi) + InodeLogged(sb, i,
      v.nodes[i].size, off, end)
  {
  }

  /** A bound on their number: two free map bits may lie in one block. */
  function LogBound(size: nat, off: nat, n: nat): nat {
    var m, m' := BlocksFor(size), Reached(size, off + n);
    Upto(off, off + n) - off / BSIZE + Taken(size, off + n)
    + (if m < m' && NDIRECT < m' then 1 else 0) + (if n > 0 && off + n > size then 1 else 0)
  }

  /** An entry is added only if the file grows past its direct blocks. */
  lemma EntryGrows(sb: Super, v0: View, v: View, i: nat, m: nat, m': nat, o: nat, o': nat)
    requires Consistent(sb, v0, o) && Consistent(sb, v, o') && i < |v0.nodes| && GrewFor(v0.own, v.own, i)
    requires EntryAdded(v0.own, v.own) && Extent(v0.store, v0.nodes[i], m) && Extent(v.store, v.nodes[i], m')
    ensures m < m' && NDIRECT < m'
  {
    var r :| r in NewBlocks(v0.own, v.own) && v.own[r].1 > NDIRECT;
    var s := v.own[r].1;
    var bn := s - 1;
    assert s == SlotOf(bn) && Ref(v.store, v.nodes[i], s) == r != 0;
    var r0 := Ref(v0.store, v0.nodes[i], s);
    assert r0 == 0 || r0 in v0.own;
  }

  lemma {:induction false} BitsSize(sb: Super, blocks: set<nat>)
    ensures |Bits(sb, blocks)| <= |blocks|
    decreases blocks
  {
    if blocks == {} {
      assert Bits(sb, blocks) == {};
    } else {
      var r :| r in blocks;
      BitsSize(sb, blocks - {r});
      assert Bits(sb, blocks) == Bits(sb, blocks - {r}) + {sb.BitmapBlock(r)};
    }
  }

  lemma FourSizes(a: set<nat>, b: set<nat>, c: set<nat>, d: set<nat>)
    ensures |a + b + c + d| <= |a| + |b| + |c| + |d|
  {
    assert |a + b| <= |a| + |b|;
    assert |a + b + c| <= |a + b| + |c|;
    assert |a + b + c + d| <= |a + b + c| + |d|;
  }

  /** Of the blocks taken only the free map bits count besides the file blocks and the indirect block. */
  lemma TakeSize(sb: Super, own: Owners, own': Owners, a: nat, data: set<nat>, inode: set<nat>)
    requires Within(own, own') && NewBlocks(own, own') <= data + EntryBlock(own, own', a)
    ensures |data + TakeLogged(sb, own, own', a) + inode|
         <= |data| + (|own'| - |own|) + |EntryBlock(own, own', a)| + |inode|
  {
    var bits, entry := Bits(sb, NewBlocks(own, own')), EntryBlock(own, own', a);
    assert data + TakeLogged(sb, own, own', a) + inode == data + bits + entry + inode;
    FourSizes(data, bits, entry, inode);
    BitsSize(sb, NewBlocks(own, own'));
    MapGrows(own, own');
  }

  /** writei's loop has got from `off` to `end`: the bytes are there and everything logged is accounted for. */
  ghost predicate Reaches(sb: Super, v0: View, v: View, i: nat, off: nat, src: seq<Byte>, end: nat, tally: Tally,
                          log0: set<nat>, log: set<nat>)
    requires i < |v0.nodes| && Shaped(v0.nodes) && Accepted(v0.nodes[i].size, off, |src|) && off <= end <= off + |src|
  {
    && tally.hi <= MAXFILE && Written(sb, v0, v, i, off, src, end)
    && Accounted(sb, v0.own, v, i, tally.lo, tally.hi, log0, log)
    && |v.own| == |v0.own| + tally.taken
  }

  lemma TallyStart(size: nat, off: nat)
    requires off <= size <= MAXFILE * BSIZE
    ensures TallyAt(size, off, off) == Tally(off / BSIZE, off / BSIZE, 0) && off / BSIZE <= MAXFILE
  {
    assert BlocksFor(off) <= BlocksFor(size);
  }

  lemma ReachesStart(sb: Super, v: View, i: nat, off: nat, src: seq<Byte>, tally: Tally, log: set<nat>)
    requires Good(sb, v) && i < |v.nodes| && Accepted(v.nodes[i].size, off, |src|)
    requires tally.lo == tally.hi <= MAXFILE && tally.taken == 0
    ensures Reaches(sb, v, v, i, off, src, off, tally, log, log) && Consistent(sb, v, i)
  {
    NothingWritten(sb, v, i, off, src);
    NothingAccounted(sb, v, i, tally.lo, log);
  }

  lemma StepRefs(sb: Super, v: View, v1: View, v2: View, i: nat, bn: nat, b: nat, at: nat, piece: seq<Byte>)
    requires Consistent(sb, v, i) && i < |v.nodes| && bn < MAXFILE && Mapped(sb, v, v1, i, bn, b) && b < |v1.store|
    requires at + |piece| <= BSIZE && v2 == Step(v1, b, at, piece)
    ensures v2.nodes == v1.nodes && v2.own == v1.own && SameRefs(v1.nodes, v1.store, v2.store)
  {
    BlockWritten(sb, v1, i, bn, Patch(v1.store[b], at, piece));
  }

  /** The tally after a round that went to file block `bn`. */
  ghost predicate Counts(tally: Tally, next: Tally, v: View, i: nat, bn: nat)
    requires i < |v.nodes| && |v.nodes[i].addrs| == NDIRECT + 1 && bn < MAXFILE
  {
    && tally.lo <= bn == tally.hi && next.lo == tally.lo && next.hi == bn + 1
    && next.taken == tally.taken + Takes(v.store, v.nodes[i], bn)
  }

  lemma RoundCounts(v: View, i: nat, size: nat, off: nat, src: seq<Byte>, end: nat, stop: nat, bn: nat, tally: Tally,
                    next: Tally)
    requires i < |v.nodes| && |v.nodes[i].addrs| == NDIRECT + 1 && Accepted(size, off, |src|)
      && Round(off, src, end, stop, bn)
    requires Extent(v.store, v.nodes[i], Reached(size, end)) && tally == TallyAt(size, off, end)
      && next == TallyAt(size, off, stop)
    ensures bn < MAXFILE && Counts(tally, next, v, i, bn)
  {
    RoundReaches(size, off, src, end, stop, bn);
    RoundTakes(v.store, v.nodes[i], size, off, src, end, stop, bn);
  }

  lemma RoundShort(sb: Super, v0: View, v: View, i: nat, bn: nat, tally: Tally, next: Tally)
    requires i < |v.nodes| && |v.nodes[i].addrs| == NDIRECT + 1 && bn < MAXFILE && Counts(tally, next, v, i, bn)
    requires |v.own| == |v0.own| + tally.taken && Short(sb, v.own, Takes(v.store, v.nodes[i], bn))
    ensures Short(sb, v0.own, next.taken)
  {
  }

  /** One round of writei's loop. */
  lemma ReachesStep(sb: Super, v0: View, v: View, v1: View, v2: View, i: nat, off: nat, src: seq<Byte>, end: nat,
                    stop: nat,
                    bn: nat, b: nat, at: nat, piece: seq<Byte>, tally: Tally, next: Tally,
                    log0: set<nat>, log: set<nat>, log1: set<nat>)
    requires i < |v0.nodes| && Shaped(v0.nodes) && Accepted(v0.nodes[i].size, off, |src|)
      && Round(off, src, end, stop, bn)
    requires Reaches(sb, v0, v, i, off, src, end, tally, log0, log) && bn < MAXFILE && Counts(tally, next, v, i, bn)
    requires Got(sb, v, v1, i, bn, b, log, log1) && b < |v1.store|
    requires at == end % BSIZE && piece == src[end - off..stop - off] && v2 == Step(v1, b, at, piece)
    ensures Reaches(sb, v0, v2, i, off, src, stop, next, log0, log1 + {b})
  {
    WrittenStep(sb, v0, v, v1, v2, i, off, src, end, stop, bn, b);
    StepRefs(sb, v, v1, v2, i, bn, b, at, piece);
    MappedTakes(sb, v, v1, i, bn, b);
    RoundAccounted(sb, v0.own, v, v1, v2, i, bn, b, tally.lo, next.hi, log0, log, log1 + {b});
  }

  // ---- The end of writei --------------------------------------------------------------------

  /** `v'` is `v`, its inode perhaps resized and on disk: files are mapped as before. */
  lemma SameLogged(sb: Super, own0: Owners, v: View, v': View, i: nat, lo: nat, hi: nat)
    requires i < |v.nodes| && |v.nodes[i].addrs| == NDIRECT + 1 && hi <= MAXFILE
    requires i < |v'.nodes| && v'.nodes[i].addrs == v.nodes[i].addrs && v'.own == v.own
    requires forall s | 0 <= s < NSLOTS :: Ref(v'.store, v'.nodes[i], s) == Ref(v.store, v.nodes[i], s)
    ensures SpanLogged(sb, own0, v', i, lo, hi) == SpanLogged(sb, own0, v, i, lo, hi)
  {
    assert SamePlaces(v.store, v.nodes[i], v'.store, v'.nodes[i], hi) by {
      forall c | 0 <= c < hi ensures Ref(v'.store, v'.nodes[i], SlotOf(c)) == Ref(v.store, v.nodes[i], SlotOf(c)) {
      }
    }
    DataKept(v.store, v.nodes[i], v'.store, v'.nodes[i], lo, hi);
  }

  lemma EntryCounts(sb: Super, v0: View, v: View, i: nat, m: nat, m': nat, o: nat, o': nat)
    requires Consistent(sb, v0, o) && Consistent(sb, v, o') && i < |v0.nodes| && GrewFor(v0.own, v.own, i)
    requires Extent(v0.store, v0.nodes[i], m) && Extent(v.store, v.nodes[i], m')
    ensures |EntryBlock(v0.own, v.own, v.nodes[i].addrs[NDIRECT])| <= if m < m' && NDIRECT < m' then 1 else 0
  {
    if EntryAdded(v0.own, v.own) {
      EntryGrows(sb, v0, v, i, m, m', o, o');
    }
  }

  lemma LogBoundAt(size: nat, off: nat, n: nat, end: nat, m: nat, m': nat, tally: Tally)
    requires end == off + n && m == BlocksFor(size) && m' == Reached(size, end) && tally == TallyAt(size, off, end)
    ensures LogBound(size, off, n)
         == tally.hi - tally.lo + tally.taken + (if m < m' && NDIRECT < m' then 1 else 0) + (if n > 0 && end > size
           then 1 else 0)
  {
  }

  lemma EntryOfWrite(sb: Super, v0: View, v: View, i: nat, off: nat, src: seq<Byte>, end: nat, m: nat, m': nat)
    requires Good(sb, v0) && i < |v0.nodes| && Accepted(v0.nodes[i].size, off, |src|) && end == off + |src|
    requires Written(sb, v0, v, i, off, src, end) && m == BlocksFor(v0.nodes[i].size)
      && m' == Reached(v0.nodes[i].size, end)
    ensures |EntryBlock(v0.own, v.own, v.nodes[i].addrs[NDIRECT])| <= (if m < m' && NDIRECT < m' then 1 else 0)
    ensures Within(v0.own, v.own)
  {
    assert Filled(v0.store, v0.nodes[i]);
    EntryCounts(sb, v0, v, i, m, m', sb.ninodes, i);
  }

  lemma LoggedBound(sb: Super, v0: View, v: View, i: nat, off: nat, src: seq<Byte>, end: nat, tally: Tally,
                    log0: set<nat>, log: set<nat>,
                    inode: set<nat>, m: nat, m': nat)
    requires Good(sb, v0) && i < |v0.nodes| && Accepted(v0.nodes[i].size, off, |src|) && end == off + |src|
    requires Reaches(sb, v0, v, i, off, src, end, tally, log0, log) && tally.lo <= tally.hi
    requires m == BlocksFor(v0.nodes[i].size) && m' == Reached(v0.nodes[i].size, end)
    ensures |SpanLogged(sb, v0.own, v, i, tally.lo, tally.hi) + inode|
         <= tally.hi - tally.lo + tally.taken + (if m < m' && NDIRECT < m' then 1 else 0) + |inode|
  {
    var data, a := DataOf(v.store, v.nodes[i], tally.lo, tally.hi), v.nodes[i].addrs[NDIRECT];
    EntryOfWrite(sb, v0, v, i, off, src, end, m, m');
    DataSize(v.store, v.nodes[i], tally.lo, tally.hi);
    TakeSize(sb, v0.own, v.own, a, data, inode);
  }

  lemma {:induction false} DataAtHome(sb: Super, store: Store, d: Dinode, lo: nat, hi: nat)
    requires |d.addrs| == NDIRECT + 1 && hi <= MAXFILE
    requires forall c | 0 <= c < hi :: sb.inodestart <= Ref(store, d, SlotOf(c)) < sb.size
    ensures AtHome(sb, DataOf(store, d, lo, hi))
  {
    if lo < hi {
      DataAtHome(sb, store, d, lo, hi - 1);
    }
  }

  lemma FileAtHome(sb: Super, v: View, i: nat, m: nat, lo: nat, hi: nat, o: nat)
    requires Consistent(sb, v, o) && i < |v.nodes| && Extent(v.store, v.nodes[i], m) && hi <= m
    ensures AtHome(sb, DataOf(v.store, v.nodes[i], lo, hi))
  {
    forall c | 0 <= c < hi ensures sb.inodestart <= Ref(v.store, v.nodes[i], SlotOf(c)) < sb.size {
      assert Ref(v.store, v.nodes[i], SlotOf(c)) in v.own;
    }
    DataAtHome(sb, v.store, v.nodes[i], lo, hi);
  }

  lemma EntryAtHome(sb: Super, own0: Owners, v: View, i: nat, o: nat)
    requires Consistent(sb, v, o) && i < |v.nodes| && GrewFor(own0, v.own, i)
    ensures AtHome(sb, EntryBlock(own0, v.own, v.nodes[i].addrs[NDIRECT]))
  {
    if EntryAdded(own0, v.own) {
      var r :| r in NewBlocks(own0, v.own) && v.own[r].1 > NDIRECT;
      assert Ref(v.store, v.nodes[i], v.own[r].1) == r;
      assert Ref(v.store, v.nodes[i], NDIRECT) == v.nodes[i].addrs[NDIRECT];
    }
  }

  lemma TakeAtHome(sb: Super, own0: Owners, v: View, i: nat, o: nat)
    requires Consistent(sb, v, o) && i < |v.nodes| && GrewFor(own0, v.own, i)
    ensures AtHome(sb, TakeLogged(sb, own0, v.own, v.nodes[i].addrs[NDIRECT]))
  {
    EntryAtHome(sb, own0, v, i, o);
    assert forall r | r in NewBlocks(own0, v.own) :: sb.inodestart <= r < sb.size;
    BitsAtHome(sb, NewBlocks(own0, v.own));
  }

  lemma BitsAtHome(sb: Super, blocks: set<nat>)
    requires sb.Valid() && forall r | r in blocks :: r < sb.size
    ensures AtHome(sb, Bits(sb, blocks))
  {
    forall b | b in Bits(sb, blocks) ensures sb.inodestart <= b < sb.size {
      var r :| r in blocks && b == sb.BitmapBlock(r);
    }
  }

  lemma UptoWithin(off: nat, end: nat, size: nat, m: nat)
    requires off <= end <= size && m == BlocksFor(size)
    ensures Upto(off, end) <= m
  {
  }

  lemma InodeAtHome(sb: Super, i: nat)
    requires sb.Valid() && i < sb.ninodes
    ensures AtHome(sb, {sb.InodeBlock(i)})
  {
  }

  /** Every block that writei logs is an inode, free map or data block. */
  lemma WriteAtHome(sb: Super, v0: View, v: View, i: nat, off: nat, end: nat, o: nat)
    requires Consistent(sb, v, o) && i < |v0.nodes| && i < |v.nodes| && GrewFor(v0.own, v.own, i)
      && Filled(v.store, v.nodes[i])
    requires off <= end <= v.nodes[i].size
    ensures AtHome(sb, LoggedUpTo(sb, v0, v, i, off, end))
  {
    var m, lo, hi := BlocksFor(v.nodes[i].size), off / BSIZE, Upto(off, end);
    UptoWithin(off, end, v.nodes[i].size, m);
    FileAtHome(sb, v, i, m, lo, hi, o);
    TakeAtHome(sb, v0.own, v, i, o);
    InodeAtHome(sb, i);
  }

  lemma TakenGrows(size: nat, stop: nat, last: nat)
    requires stop <= last
    ensures Taken(size, stop) <= Taken(size, last)
  {
    assert BlocksFor(stop) <= BlocksFor(last);
  }

  /**
   * What writing `src` at `off` of inode `i` does: its bytes are spliced in, no other file changes, blocks are
   * taken as the new size needs them, and exactly WriteLogged is logged, few enough blocks behind the log region.
   */
  ghost predicate Wrote(sb: Super, v: View, v': View, i: nat, off: nat, src: seq<Byte>, log: set<nat>, log': set<nat>)
    requires Good(sb, v) && Good(sb, v') && i < |v.nodes| && Accepted(v.nodes[i].size, off, |src|)
  {
    && SameElsewhere(v, v', i) && Filled(v.store, v.nodes[i]) && Filled(v'.store, v'.nodes[i])
    && Contents(v'.store, v'.nodes[i]) == Spliced(Contents(v.store, v.nodes[i]), off, src)
    && GrewFor(v.own, v'.own, i) && |v'.own| == |v.own| + Needs(v.nodes[i].size, off, |src|)
    && log' == log + WriteLogged(sb, v, v', i, off, |src|)
    && AtHome(sb, WriteLogged(sb, v, v', i, off, |src|))
    && |WriteLogged(sb, v, v', i, off, |src|)| <= LogBound(v.nodes[i].size, off, |src|)
  }

  /** The blocks logged, `w`, in terms of the state `v` that writei's loop leaves. */
  lemma LoggedIs(sb: Super, v0: View, v: View, v': View, i: nat, off: nat, n: nat, end: nat, tally: Tally)
    returns (w: set<nat>)
    requires i < |v0.nodes| && i < |v.nodes| && |v.nodes[i].addrs| == NDIRECT + 1 && end == off + n <= MAXFILE * BSIZE
    requires tally == TallyAt(v0.nodes[i].size, off, end)
    requires i < |v'.nodes| && v'.nodes[i].addrs == v.nodes[i].addrs && v'.own == v.own
    requires forall s | 0 <= s < NSLOTS :: Ref(v'.store, v'.nodes[i], s) == Ref(v.store, v.nodes[i], s)
    ensures w == WriteLogged(sb, v0, v', i, off, n) == LoggedUpTo(sb, v0, v', i, off, end)
    ensures w == SpanLogged(sb, v0.own, v, i, tally.lo, tally.hi) + InodeLogged(sb, i, v0.nodes[i].size, off, end)
  {
    w := LoggedUpTo(sb, v0, v', i, off, end);
    SameLogged(sb, v0.own, v, v', i, tally.lo, tally.hi);
  }

  lemma Regroup(a: set<nat>, b: set<nat>, c: set<nat>, d: set<nat>)
    ensures a + b + c + d == a + (b + c + d)
  {
  }

  /** What the loop has logged. */
  lemma ReachesLogged(sb: Super, v0: View, v: View, i: nat, off: nat, src: seq<Byte>, end: nat, tally: Tally,
                      log0: set<nat>, log: set<nat>, inode: set<nat>)
    requires i < |v0.nodes| && Shaped(v0.nodes) && Accepted(v0.nodes[i].size, off, |src|) && end == off + |src|
    requires Reaches(sb, v0, v, i, off, src, end, tally, log0, log)
    ensures i < |v.nodes| && |v.nodes[i].addrs| == NDIRECT + 1 && tally.hi <= MAXFILE
    ensures log + inode == log0 + (SpanLogged(sb, v0.own, v, i, tally.lo, tally.hi) + inode)
    ensures GrewFor(v0.own, v.own, i) && |v.own| == |v0.own| + tally.taken
  {
    var data, take := DataOf(v.store, v.nodes[i], tally.lo, tally.hi),
      TakeLogged(sb, v0.own, v.own, v.nodes[i].addrs[NDIRECT]);
    Regroup(log0, data, take, inode);
  }

  /** The file after a write ends no earlier than the write. */
  lemma SplicedSize(v0: View, v': View, i: nat, off: nat, src: seq<Byte>, end: nat)
    requires i < |v0.nodes| && i < |v'.nodes| && Shaped(v0.nodes) && Shaped(v'.nodes) && end == off + |src|
      && off <= v0.nodes[i].size
    requires Filled(v0.store, v0.nodes[i]) && Filled(v'.store, v'.nodes[i])
    requires Contents(v'.store, v'.nodes[i]) == Spliced(Contents(v0.store, v0.nodes[i]), off, src)
    ensures v'.nodes[i].size == Max(v0.nodes[i].size, end)
  {
    assert |Contents(v'.store, v'.nodes[i])| == v'.nodes[i].size;
  }

  /** What follows writei's loop: a file that grew gets its new size and its inode goes to disk. */
  ghost predicate Ended(sb: Super, v: View, v': View, i: nat, n: nat, last: nat)
    requires sb.Valid() && i < |v.nodes|
  {
    if n > 0 && last > v.nodes[i].size then Grown(sb, v, v', i, last) else v' == v
  }

  lemma EndedGood(sb: Super, v0: View, v: View, v': View, i: nat, off: nat, src: seq<Byte>, last: nat)
    requires Good(sb, v0) && i < |v0.nodes| && Accepted(v0.nodes[i].size, off, |src|) && last == off + |src|
    requires Written(sb, v0, v, i, off, src, last) && Ended(sb, v, v', i, |src|, last)
    ensures Good(sb, v') && SameElsewhere(v0, v', i) && Filled(v0.store, v0.nodes[i]) && Filled(v'.store, v'.nodes[i])
    ensures Contents(v'.store, v'.nodes[i]) == Spliced(Contents(v0.store, v0.nodes[i]), off, src)
  {
    assert Filled(v0.store, v0.nodes[i]);
    if |src| > 0 && last > v.nodes[i].size {
      WrotePastEnd(sb, v0, v, v', i, off, src, last);
      PastEndContents(sb, v0, v, v', i, off, src, last);
    } else {
      WroteInPlace(sb, v0, v, i, off, src, last);
    }
    assert Filled(v'.store, v'.nodes[i]);
  }

  lemma EndedSame(sb: Super, v: View, v': View, i: nat, n: nat, last: nat)
    requires Consistent(sb, v, i) && i < |v.nodes| && last < WORD && Ended(sb, v, v', i, n, last)
    ensures i < |v'.nodes| && v'.nodes[i].addrs == v.nodes[i].addrs && v'.own == v.own
    ensures forall s | 0 <= s < NSLOTS :: Ref(v'.store, v'.nodes[i], s) == Ref(v.store, v.nodes[i], s)
  {
    if n > 0 && last > v.nodes[i].size {
      GrownKeeps(sb, v, v', i, last);
    }
  }

  lemma TallyNeeds(size: nat, off: nat, n: nat, end: nat, tally: Tally)
    requires end == off + n && tally == TallyAt(size, off, end)
    ensures tally.taken == Needs(size, off, n)
  {
  }

  lemma FewIs(size: nat, off: nat, n: nat, end: nat, m: nat, m': nat, tally: Tally, inodes: nat, total: nat)
    requires end == off + n && m == BlocksFor(size) && m' == Reached(size, end) && tally == TallyAt(size, off, end)
    requires inodes <= if n > 0 && end > size then 1 else 0
    requires total <= tally.hi - tally.lo + tally.taken + (if m < m' && NDIRECT < m' then 1 else 0) + inodes
    ensures total <= LogBound(size, off, n)
  {
    LogBoundAt(size, off, n, end, m, m', tally);
  }

  /** Everything about a write, put together: `w` is what was logged. */
  lemma Assembled(sb: Super, v0: View, v': View, i: nat, off: nat, src: seq<Byte>, log0: set<nat>, log': set<nat>,
                  w: set<nat>)
    requires Good(sb, v0) && Good(sb, v') && i < |v0.nodes| && Accepted(v0.nodes[i].size, off, |src|)
      && SameElsewhere(v0, v', i)
    requires Filled(v0.store, v0.nodes[i]) && Filled(v'.store, v'.nodes[i])
    requires Contents(v'.store, v'.nodes[i]) == Spliced(Contents(v0.store, v0.nodes[i]), off, src)
    requires GrewFor(v0.own, v'.own, i) && |v'.own| == |v0.own| + Needs(v0.nodes[i].size, off, |src|)
    requires w == WriteLogged(sb, v0, v', i, off, |src|) && log' == log0 + w && AtHome(sb, w)
    requires |w| <= LogBound(v0.nodes[i].size, off, |src|)
    ensures Wrote(sb, v0, v', i, off, src, log0, log')
  {
  }

  /** writei's loop, then its end. */
  lemma WriteDone(sb: Super, v0: View, v: View, v': View, i: nat, off: nat, src: seq<Byte>, end: nat, tally: Tally,
                  log0: set<nat>, log: set<nat>, log': set<nat>)
    requires Good(sb, v0) && i < |v0.nodes| && Accepted(v0.nodes[i].size, off, |src|) && end == off + |src|
    requires Reaches(sb, v0, v, i, off, src, end, tally, log0, log) && tally == TallyAt(v0.nodes[i].size, off, end)
    requires Ended(sb, v, v', i, |src|, end) && log' == log + InodeLogged(sb, i, v0.nodes[i].size, off, end)
    ensures Good(sb, v') && Wrote(sb, v0, v', i, off, src, log0, log')
  {
    EndedGood(sb, v0, v, v', i, off, src, end);
    EndedSame(sb, v, v', i, |src|, end);
    var size, n := v0.nodes[i].size, |src|;
    var m, m', inode := BlocksFor(size), Reached(size, end), InodeLogged(sb, i, size, off, end);
    ReachesLogged(sb, v0, v, i, off, src, end, tally, log0, log, inode);
    LoggedBound(sb, v0, v, i, off, src, end, tally, log0, log, inode, m, m');
    TallyNeeds(size, off, n, end, tally);
    var w := LoggedIs(sb, v0, v, v', i, off, n, end, tally);
    FewIs(size, off, n, end, m, m', tally, |inode|, |w|);
    SplicedSize(v0, v', i, off, src, end);
    WriteAtHome(sb, v0, v', i, off, end, sb.ninodes);
    Assembled(sb, v0, v', i, off, src, log0, log', w);
  }

  // ---- Operations ---------------------------------------------------------------------------

  /** One operation, begin_op to end_op: a good file system made into another by logging few enough blocks. */
  ghost predicate Performs(sb: Super, v: View, v': View, trace: seq<Entry>) {
    && Good(sb, v) && Good(sb, v') && v'.store == Applied(v.store, trace)
    && AtHome(sb, BlocksOf(trace)) && |BlocksOf(trace)| <= LP.MAXOPBLOCKS
  }

  /** `states` are the file systems between operations that logged `traces`. */
  ghost predicate OneByOne(sb: Super, states: seq<View>, traces: seq<seq<Entry>>) {
    && |states| == |traces| + 1 && Good(sb, states[0])
    && (forall k, next | 0 <= k < |traces| && next == k + 1 :: Performs(sb, states[k], states[next], traces[k]))
  }

  lemma OneMoreOperation(sb: Super, states: seq<View>, traces: seq<seq<Entry>>, v: View, trace: seq<Entry>)
    requires OneByOne(sb, states, traces) && Performs(sb, states[|traces|], v, trace)
    ensures OneByOne(sb, states + [v], traces + [trace])
  {
    var states', traces' := states + [v], traces + [trace];
    forall k, next | 0 <= k < |traces'| && next == k + 1 ensures Performs(sb, states'[k], states'[next], traces'[k]) {
      if k < |traces| {
        assert Performs(sb, states[k], states[next], traces[k]);
      }
    }
  }
}
