/** What writing and reading through the block map does to the contents of files. */
module FsWrite {
  import opened Blocks
  import opened FsLayout
  import opened FsState

  function Max(a: nat, b: nat): nat {
    if a < b then b else a
  }

  /** Nothing but inode `i` and its blocks changed. */
  ghost predicate Others(v: View, v': View, i: nat)
    requires i < |v.nodes|
  {
    && |v'.nodes| == |v.nodes| && |v'.store| == |v.store|
    && (forall j | 0 <= j < |v.nodes| && j != i :: v'.nodes[j] == v.nodes[j])
    && GrewFor(v.own, v'.own, i)
    && (forall r | r in v.own && v.own[r].0 != i && v.own[r].1 != NDIRECT && r < |v.store| :: v'.store[r] == v.store[r])
  }

  lemma OthersTrans(v: View, mid: View, v': View, i: nat)
    requires i < |v.nodes| && Others(v, mid, i) && Others(mid, v', i)
    ensures Others(v, v', i)
  {
  }

  lemma ExtendsOthers(v: View, v': View, i: nat, bn: nat)
    requires i < |v.nodes| && bn < MAXFILE && Extends(v, v', i, Touches(bn))
    ensures Others(v, v', i)
  {
  }

  // ---- bmap seen from the contents ----------------------------------------------------------

  lemma MappedRefs(sb: Super, v: View, v': View, i: nat, bn: nat, c: nat)
    requires Consistent(sb, v, i) && Consistent(sb, v', i) && i < |v.nodes| && bn < MAXFILE && c < MAXFILE && c != bn
    requires Extends(v, v', i, Touches(bn))
    ensures Ref(v'.store, v'.nodes[i], SlotOf(c)) == Ref(v.store, v.nodes[i], SlotOf(c))
  {
    RefsKept(sb, v.store, v.nodes, v.own, v'.store, v'.nodes, v'.own, i, Touches(bn), i, SlotOf(c));
  }

  lemma MappedByte(sb: Super, v: View, v': View, i: nat, bn: nat, k: nat)
    requires Consistent(sb, v, i) && Consistent(sb, v', i) && i < |v.nodes| && bn < MAXFILE && k < MAXFILE * BSIZE
      && k / BSIZE != bn
    requires Extends(v, v', i, Touches(bn)) && Ref(v.store, v.nodes[i], SlotOf(k / BSIZE)) != 0
    ensures ByteAt(v'.store, v'.nodes[i], k) == ByteAt(v.store, v.nodes[i], k)
  {
    MappedRefs(sb, v, v', i, bn, k / BSIZE);
    var r := Ref(v.store, v.nodes[i], SlotOf(k / BSIZE));
    assert r in v.own && v.own[r] == (i, SlotOf(k / BSIZE));
  }

  /** Mapping the next file block leaves every byte of the blocks before it. */
  lemma MappedExtent(sb: Super, v: View, v': View, i: nat, bn: nat, b: nat, m: nat)
    requires Consistent(sb, v, i) && i < |v.nodes| && bn < MAXFILE && Mapped(sb, v, v', i, bn, b)
    requires Extent(v.store, v.nodes[i], m) && bn <= m
    ensures Extent(v'.store, v'.nodes[i], Max(m, bn + 1))
  {
    if bn == m {
      forall c | 0 <= c < MAXFILE && c != m
        ensures Ref(v'.store, v'.nodes[i], SlotOf(c)) == Ref(v.store, v.nodes[i], SlotOf(c))
      {
        MappedRefs(sb, v, v', i, bn, c);
      }
    }
  }

  // ---- Writing one block --------------------------------------------------------------------

  /** `piece` copied into a block at offset `at`. */
  function Patch(b: Block, at: nat, piece: seq<Byte>): Block
    requires at + |piece| <= BSIZE
  {
    b[..at] + piece + b[at + |piece|..]
  }

  /** Rewriting file block `bn` in place keeps every pointer. */
  lemma BlockWritten(sb: Super, v: View, i: nat, bn: nat, data: Block)
    requires Consistent(sb, v, i) && i < |v.nodes| && bn < MAXFILE && Ref(v.store, v.nodes[i], SlotOf(bn)) != 0
    ensures
      var r := Ref(v.store, v.nodes[i], SlotOf(bn));
      && r < sb.size
      && var v' := v.(store := Put(v.store, r, data));
         Consistent(sb, v', i) && Others(v, v', i) && SameRefs(v.nodes, v.store, v'.store)
  {
    var r := Ref(v.store, v.nodes[i], SlotOf(bn));
    assert r in v.own && v.own[r] == (i, SlotOf(bn));
    DataWriteKeepsRefs(sb, v.store, v.nodes, v.own, r, data);
    MarksKept(sb, v.store, Put(v.store, r, data), v.own, {});
    InodesKept(sb, v.store, Put(v.store, r, data), v.nodes, i);
  }

  /** A byte of the file is in the block just written, or is as it was. */
  lemma BytesWritten(sb: Super, v: View, i: nat, bn: nat, data: Block, k: nat)
    requires Consistent(sb, v, i) && i < |v.nodes| && bn < MAXFILE && k < MAXFILE * BSIZE
    requires var r := Ref(v.store, v.nodes[i], SlotOf(bn)); 0 < r < sb.size
    requires Ref(v.store, v.nodes[i], SlotOf(k / BSIZE)) != 0
    requires SameRefs(v.nodes, v.store, Put(v.store, Ref(v.store, v.nodes[i], SlotOf(bn)), data))
    ensures
      ByteAt(Put(v.store, Ref(v.store, v.nodes[i], SlotOf(bn)), data), v.nodes[i], k)
      == if k / BSIZE == bn then data[k % BSIZE] else ByteAt(v.store, v.nodes[i], k)
  {
    var r, r' := Ref(v.store, v.nodes[i], SlotOf(bn)), Ref(v.store, v.nodes[i], SlotOf(k / BSIZE));
    assert v.own[r] == (i, SlotOf(bn)) && v.own[r'] == (i, SlotOf(k / BSIZE));
  }

  // ---- writei, on its way from `off` to `off + |src|` ---------------------------------------

  /** The request writei accepts: it starts inside the file and ends inside the largest file. */
  predicate Accepted(size: nat, off: nat, n: nat) {
    off <= size <= MAXFILE * BSIZE && off + n <= MAXFILE * BSIZE
  }

  /** Byte `k` of the file once `src` is written from `off` up to `end`. */
  function Expected(v0: View, i: nat, off: nat, src: seq<Byte>, end: nat, k: nat): Byte
    requires i < |v0.nodes| && |v0.nodes[i].addrs| == NDIRECT + 1 && k < MAXFILE * BSIZE && off <= end <= off + |src|
  {
    if off <= k < end then src[k - off] else ByteAt(v0.store, v0.nodes[i], k)
  }

  /** The number of file blocks once a write has got as far as `end`. */
  function Reached(size: nat, end: nat): (m: nat)
    ensures BlocksFor(size) <= m
  {
    Max(BlocksFor(size), BlocksFor(end))
  }

  predicate SameInodeBlock(sb: Super, store: Store, store': Store, i: nat) {
    sb.InodeBlock(i) < |store| == |store'| && store'[sb.InodeBlock(i)] == store[sb.InodeBlock(i)]
  }

  ghost predicate Written(sb: Super, v0: View, v: View, i: nat, off: nat, src: seq<Byte>, end: nat)
    requires i < |v0.nodes| && Shaped(v0.nodes) && Accepted(v0.nodes[i].size, off, |src|) && off <= end <= off + |src|
  {
    && Consistent(sb, v, i) && Others(v0, v, i) && v.nodes[i] == v0.nodes[i].(addrs := v.nodes[i].addrs)
    && Extent(v.store, v.nodes[i], Reached(v0.nodes[i].size, end))
    && (end <= v0.nodes[i].size ==> v.nodes == v0.nodes && SameInodeBlock(sb, v0.store, v.store, i))
    && (forall k | 0 <= k < Max(v0.nodes[i].size, end) ::
          ByteAt(v.store, v.nodes[i], k) == Expected(v0, i, off, src, end, k))
  }

  /** One round of writei's loop, from `end` to `stop` in file block `bn`. */
  ghost predicate Round(off: nat, src: seq<Byte>, end: nat, stop: nat, bn: nat) {
    && off <= end < stop <= off + |src| && stop - end <= BSIZE - end % BSIZE && bn == end / BSIZE
    && (end == off || end % BSIZE == 0)
  }

  /** The state after a round: `piece` copied into the mapped block `b`. */
  function Step(v1: View, b: nat, at: nat, piece: seq<Byte>): View
    requires b < |v1.store| && at + |piece| <= BSIZE
  {
    v1.(store := Put(v1.store, b, Patch(v1.store[b], at, piece)))
  }

  lemma RoundReaches(size: nat, off: nat, src: seq<Byte>, end: nat, stop: nat, bn: nat)
    requires Accepted(size, off, |src|) && Round(off, src, end, stop, bn)
    ensures bn < MAXFILE && bn <= Reached(size, end) && Reached(size, stop) == Max(Reached(size, end), bn + 1)
  {
  }

  lemma RoundCovers(size: nat, off: nat, src: seq<Byte>, end: nat, stop: nat, bn: nat, m: nat, k: nat)
    requires Accepted(size, off, |src|) && Round(off, src, end, stop, bn) && m == Reached(size, end)
      && k < Max(size, stop)
    ensures k < MAXFILE * BSIZE && k < Max(m, bn + 1) * BSIZE && (k < Max(size, end) ==> k < m * BSIZE)
  {
  }

  /** Where a round stops: at the end of its block or of the request. */
  function NextStop(end: nat, last: nat): (stop: nat)
    requires end < last
    ensures end < stop <= last && stop - end <= BSIZE - end % BSIZE && (stop == last || stop % BSIZE == 0)
  {
    if last - end < BSIZE - end % BSIZE then last else end + (BSIZE - end % BSIZE)
  }

  /**
   * The byte arithmetic of one round: `was` is byte `k` before the round, `orig` before the call, `block` the
   * mapped block before the copy.
   */
  lemma PatchedByte(size: nat, off: nat, src: seq<Byte>, end: nat, stop: nat, bn: nat, block: Block, k: nat, was: Byte,
                    orig: Byte)
    requires Accepted(size, off, |src|) && Round(off, src, end, stop, bn) && k < Max(size, stop)
    requires k < Max(size, end) ==> was == if off <= k < end then src[k - off] else orig
    requires k / BSIZE == bn && k < Max(size, end) ==> block[k % BSIZE] == was
    ensures
      (if k / BSIZE == bn then Patch(block, end % BSIZE, src[end - off..stop - off])[k % BSIZE] else was)
      == if off <= k < stop then src[k - off] else orig
  {
    if k / BSIZE == bn && end <= k < stop {
      assert k % BSIZE == end % BSIZE + (k - end);
      assert src[end - off..stop - off][k - end] == src[k - off];
    }
  }

  /** After a round, byte `k` is in the block written or is what it was before the round. */
  lemma StepByte(sb: Super, v: View, v1: View, i: nat, bn: nat, b: nat, data: Block, m: nat, k: nat)
    requires Consistent(sb, v, i) && i < |v.nodes| && bn < MAXFILE && Mapped(sb, v, v1, i, bn, b) && k < MAXFILE * BSIZE
    requires Extent(v.store, v.nodes[i], m) && bn <= m && k < Max(m, bn + 1) * BSIZE
    requires b < |v1.store| && SameRefs(v1.nodes, v1.store, Put(v1.store, b, data))
    ensures ByteAt(Put(v1.store, b, data), v1.nodes[i], k)
         == if k / BSIZE == bn then data[k % BSIZE] else ByteAt(v.store, v.nodes[i], k)
    ensures k / BSIZE == bn && k < m * BSIZE ==> v1.store[b][k % BSIZE] == ByteAt(v.store, v.nodes[i], k)
  {
    MappedExtent(sb, v, v1, i, bn, b, m);
    BytesWritten(sb, v1, i, bn, data, k);
    if k / BSIZE != bn {
      MappedByte(sb, v, v1, i, bn, k);
    }
  }

  lemma StepOthers(v0: View, v: View, v1: View, v2: View, i: nat, bn: nat)
    requires i < |v0.nodes| && bn < MAXFILE && Others(v0, v, i) && Extends(v, v1, i, Touches(bn)) && Others(v1, v2, i)
    ensures Others(v0, v2, i)
  {
    ExtendsOthers(v, v1, i, bn);
    OthersTrans(v0, v, v1, i);
    OthersTrans(v0, v1, v2, i);
  }

  lemma StepBytes(sb: Super, v0: View, v: View, v1: View, v2: View, i: nat,
        off: nat, src: seq<Byte>, end: nat, stop: nat, bn: nat, b: nat, k: nat)
    requires i < |v0.nodes| && Shaped(v0.nodes) && Accepted(v0.nodes[i].size, off, |src|)
      && Round(off, src, end, stop, bn)
    requires Written(sb, v0, v, i, off, src, end) && bn < MAXFILE && Mapped(sb, v, v1, i, bn, b) && b < |v1.store|
    requires v2 == Step(v1, b, end % BSIZE, src[end - off..stop - off])
    requires k < Max(v0.nodes[i].size, stop) && SameRefs(v1.nodes, v1.store, v2.store)
    ensures ByteAt(v2.store, v1.nodes[i], k) == Expected(v0, i, off, src, stop, k)
  {
    var size := v0.nodes[i].size;
    var m := Reached(size, end);
    var data := Patch(v1.store[b], end % BSIZE, src[end - off..stop - off]);
    RoundReaches(size, off, src, end, stop, bn);
    RoundCovers(size, off, src, end, stop, bn, m, k);
    StepByte(sb, v, v1, i, bn, b, data, m, k);
    PatchedByte(size, off, src, end, stop, bn, v1.store[b], k, ByteAt(v.store, v.nodes[i], k),
      ByteAt(v0.store, v0.nodes[i], k));
  }

  lemma WrittenShape(sb: Super, v0: View, v: View, v1: View, v2: View, i: nat,
        off: nat, src: seq<Byte>, end: nat, stop: nat, bn: nat, b: nat)
    requires i < |v0.nodes| && Shaped(v0.nodes) && Accepted(v0.nodes[i].size, off, |src|)
      && Round(off, src, end, stop, bn)
    requires Written(sb, v0, v, i, off, src, end) && bn < MAXFILE && Mapped(sb, v, v1, i, bn, b) && b < |v1.store|
    requires v2 == Step(v1, b, end % BSIZE, src[end - off..stop - off])
    ensures Consistent(sb, v2, i) && Others(v0, v2, i) && SameRefs(v1.nodes, v1.store, v2.store)
    ensures stop <= v0.nodes[i].size ==> v2.nodes == v0.nodes && SameInodeBlock(sb, v0.store, v2.store, i)
  {
    var data := Patch(v1.store[b], end % BSIZE, src[end - off..stop - off]);
    if stop <= v0.nodes[i].size {
      assert bn < BlocksFor(v0.nodes[i].size) && v1 == v;
      assert b in v.own;
    }
    BlockWritten(sb, v1, i, bn, data);
    StepOthers(v0, v, v1, v2, i, bn);
  }

  lemma WrittenExtent(sb: Super, v0: View, v: View, v1: View, v2: View, i: nat,
        off: nat, src: seq<Byte>, end: nat, stop: nat, bn: nat, b: nat)
    requires i < |v0.nodes| && Shaped(v0.nodes) && Accepted(v0.nodes[i].size, off, |src|)
      && Round(off, src, end, stop, bn)
    requires Written(sb, v0, v, i, off, src, end) && bn < MAXFILE && Mapped(sb, v, v1, i, bn, b) && b < |v1.store|
    requires v2 == Step(v1, b, end % BSIZE, src[end - off..stop - off])
    requires SameRefs(v1.nodes, v1.store, v2.store)
    ensures Extent(v2.store, v2.nodes[i], Reached(v0.nodes[i].size, stop))
  {
    var m := Reached(v0.nodes[i].size, end);
    RoundReaches(v0.nodes[i].size, off, src, end, stop, bn);
    MappedExtent(sb, v, v1, i, bn, b, m);
  }

  lemma WrittenBytes(sb: Super, v0: View, v: View, v1: View, v2: View, i: nat,
        off: nat, src: seq<Byte>, end: nat, stop: nat, bn: nat, b: nat)
    requires i < |v0.nodes| && Shaped(v0.nodes) && Accepted(v0.nodes[i].size, off, |src|)
      && Round(off, src, end, stop, bn)
    requires Written(sb, v0, v, i, off, src, end) && bn < MAXFILE && Mapped(sb, v, v1, i, bn, b) && b < |v1.store|
    requires v2 == Step(v1, b, end % BSIZE, src[end - off..stop - off])
    requires SameRefs(v1.nodes, v1.store, v2.store)
    ensures stop <= MAXFILE * BSIZE && v0.nodes[i].size <= MAXFILE * BSIZE
    ensures forall k | 0 <= k < Max(v0.nodes[i].size, stop) ::
              ByteAt(v2.store, v2.nodes[i], k) == Expected(v0, i, off, src, stop, k)
  {
    forall k | 0 <= k < Max(v0.nodes[i].size, stop)
      ensures ByteAt(v2.store, v2.nodes[i], k) == Expected(v0, i, off, src, stop, k)
    {
      StepBytes(sb, v0, v, v1, v2, i, off, src, end, stop, bn, b, k);
    }
  }

  /** One round of writei's loop writes the next piece and touches nothing else. */
  lemma WrittenStep(sb: Super, v0: View, v: View, v1: View, v2: View, i: nat,
        off: nat, src: seq<Byte>, end: nat, stop: nat, bn: nat, b: nat)
    requires i < |v0.nodes| && Shaped(v0.nodes) && Accepted(v0.nodes[i].size, off, |src|)
      && Round(off, src, end, stop, bn)
    requires Written(sb, v0, v, i, off, src, end) && bn < MAXFILE && Mapped(sb, v, v1, i, bn, b) && b < |v1.store|
    requires v2 == Step(v1, b, end % BSIZE, src[end - off..stop - off])
    ensures Written(sb, v0, v2, i, off, src, stop)
  {
    WrittenShape(sb, v0, v, v1, v2, i, off, src, end, stop, bn, b);
    WrittenExtent(sb, v0, v, v1, v2, i, off, src, end, stop, bn, b);
    WrittenBytes(sb, v0, v, v1, v2, i, off, src, end, stop, bn, b);
  }

  // ---- Whole calls --------------------------------------------------------------------------

  /** The state between operations: consistent, on disk, and every file exactly the blocks its size needs. */
  ghost predicate Good(sb: Super, v: View) {
    Consistent(sb, v, sb.ninodes) && NoHoles(v, sb.ninodes)
  }

  ghost predicate NoHoles(v: View, open: nat)
    requires Shaped(v.nodes)
  {
    forall j | 0 <= j < |v.nodes| && j != open :: Filled(v.store, v.nodes[j])
  }

  ghost predicate Filled(store: Store, d: Dinode)
    requires |d.addrs| == NDIRECT + 1
  {
    d.size <= MAXFILE * BSIZE && Extent(store, d, BlocksFor(d.size))
  }

  /** Every file but `i` has the contents it had. */
  ghost predicate SameElsewhere(v: View, v': View, i: nat)
    requires Shaped(v.nodes) && Shaped(v'.nodes)
  {
    && |v'.nodes| == |v.nodes|
    && forall j | 0 <= j < |v.nodes| && j != i && Filled(v.store, v.nodes[j]) ::
         v'.nodes[j] == v.nodes[j] && Filled(v'.store, v'.nodes[j]) && Contents(v'.store, v'.nodes[j])
           == Contents(v.store, v.nodes[j])
  }

  lemma OthersSame(sb: Super, v: View, v': View, i: nat, o: nat, o': nat)
    requires Consistent(sb, v, o) && Consistent(sb, v', o') && i < |v.nodes| && Others(v, v', i)
    ensures SameElsewhere(v, v', i)
  {
    forall j | 0 <= j < |v.nodes| && j != i && Filled(v.store, v.nodes[j])
      ensures v'.nodes[j] == v.nodes[j] && Filled(v'.store, v'.nodes[j])
      ensures Contents(v'.store, v'.nodes[j]) == Contents(v.store, v.nodes[j])
    {
      ContentsKept(sb, v.store, v.nodes, v.own, v'.store, v'.nodes, v'.own, i, j);
    }
  }

  /** iupdate's effect: the in-memory inode goes to its place in its inode block. */
  function Saved(sb: Super, v: View, i: nat): View
    requires sb.Valid() && |v.store| == sb.size && |v.nodes| == sb.ninodes && Shaped(v.nodes) && i < |v.nodes|
  {
    v.(store := Put(v.store, sb.InodeBlock(i), PutDinode(v.store[sb.InodeBlock(i)], i % IPB, v.nodes[i])))
  }

  lemma SavedInodes(sb: Super, v: View, i: nat)
    requires Consistent(sb, v, i) && i < |v.nodes|
    ensures InodesOnDisk(sb, Saved(sb, v, i).store, v.nodes, sb.ninodes)
  {
    var b := v.store[sb.InodeBlock(i)];
    forall j | 0 <= j < |v.nodes| ensures InodeOnDisk(sb, Saved(sb, v, i).store, j) == v.nodes[j] {
      if j / IPB == i / IPB {
        DinodeRoundTrip(b, i % IPB, v.nodes[i], j % IPB);
      }
    }
  }

  /** The inodes went to disk; nothing from the free map on changed. */
  ghost predicate Flushed(sb: Super, v: View, v': View)
    requires sb.Valid()
  {
    && v'.nodes == v.nodes && v'.own == v.own && |v'.store| == |v.store| == sb.size && |v.nodes| == sb.ninodes
    && (forall c | sb.bmapstart <= c < sb.size :: v'.store[c] == v.store[c])
    && InodesOnDisk(sb, v'.store, v'.nodes, sb.ninodes)
  }

  lemma SavedFlushes(sb: Super, v: View, i: nat)
    requires Consistent(sb, v, i) && i < |v.nodes|
    ensures Flushed(sb, v, Saved(sb, v, i))
  {
    assert sb.InodeBlock(i) < sb.bmapstart;
    SavedInodes(sb, v, i);
  }

  /** After iupdate every inode is on disk as it is in memory; no data block and no pointer moved. */
  lemma FlushedKeeps(sb: Super, v: View, v': View, i: nat)
    requires Consistent(sb, v, i) && i < |v.nodes| && Flushed(sb, v, v')
    ensures Consistent(sb, v', sb.ninodes) && SameRefs(v.nodes, v.store, v'.store)
  {
    RefsFrame(sb, v.store, v'.store, v.nodes, v.own);
    MarksKept(sb, v.store, v'.store, v.own, {});
  }

  /** The file with `src` written over it at `off`. */
  function Spliced(c: seq<Byte>, off: nat, src: seq<Byte>): seq<Byte>
    requires off <= |c|
  {
    c[..off] + src + if off + |src| <= |c| then c[off + |src|..] else []
  }

  /** Inode `i` with a new size. */
  function Resized(v: View, i: nat, size: nat): View
    requires i < |v.nodes|
  {
    v.(nodes := v.nodes[i := v.nodes[i].(size := size)])
  }

  lemma ResizedKeeps(sb: Super, v: View, i: nat, size: nat)
    requires Consistent(sb, v, i) && i < |v.nodes| && size < WORD
    ensures Consistent(sb, Resized(v, i, size), i)
  {
    var nodes' := Resized(v, i, size).nodes;
    forall j, s | 0 <= j < |v.nodes| && 0 <= s < NSLOTS
      ensures Ref(v.store, nodes'[j], s) == Ref(v.store, v.nodes[j], s)
    {
    }
  }

  lemma SplicedContents(v0: View, store: Store, d: Dinode, i: nat, off: nat, src: seq<Byte>, end: nat)
    requires i < |v0.nodes| && Shaped(v0.nodes) && Accepted(v0.nodes[i].size, off, |src|) && d.Fits()
      && end == off + |src|
    requires d.size == Max(v0.nodes[i].size, end)
    requires forall k | 0 <= k < d.size :: ByteAt(store, d, k) == Expected(v0, i, off, src, end, k)
    ensures Contents(store, d) == Spliced(Contents(v0.store, v0.nodes[i]), off, src)
  {
    var c := Contents(v0.store, v0.nodes[i]);
    forall k | 0 <= k < d.size ensures Contents(store, d)[k] == Spliced(c, off, src)[k] {
      assert Contents(store, d)[k] == ByteAt(store, d, k);
    }
  }

  /** writei inside the file: contents spliced, nothing allocated, the inode on disk still right. */
  lemma WroteInPlace(sb: Super, v0: View, v: View, i: nat, off: nat, src: seq<Byte>, end: nat)
    requires Good(sb, v0) && i < |v0.nodes| && Accepted(v0.nodes[i].size, off, |src|) && end == off + |src|
    requires Written(sb, v0, v, i, off, src, end) && end <= v0.nodes[i].size
    ensures Good(sb, v) && SameElsewhere(v0, v, i)
    ensures Contents(v.store, v.nodes[i]) == Spliced(Contents(v0.store, v0.nodes[i]), off, src)
  {
    assert InodeOnDisk(sb, v.store, i) == InodeOnDisk(sb, v0.store, i);
    OthersSame(sb, v0, v, i, i, i);
    SplicedContents(v0, v.store, v.nodes[i], i, off, src, end);
    assert BlocksFor(end) <= BlocksFor(v0.nodes[i].size);
  }

  /** writei past the end: the inode has its new size and went to disk. */
  ghost predicate Grown(sb: Super, v: View, v': View, i: nat, size: nat)
    requires sb.Valid() && i < |v.nodes|
  {
    Flushed(sb, Resized(v, i, size), v')
  }

  lemma GrownKeeps(sb: Super, v: View, v': View, i: nat, size: nat)
    requires Consistent(sb, v, i) && i < |v.nodes| && size < WORD && Grown(sb, v, v', i, size)
    ensures Consistent(sb, v', sb.ninodes) && Others(v, v', i) && v'.nodes[i] == v.nodes[i].(size := size)
    ensures forall s | 0 <= s < NSLOTS :: Ref(v'.store, v'.nodes[i], s) == Ref(v.store, v.nodes[i], s)
  {
    ResizedKeeps(sb, v, i, size);
    var mid := Resized(v, i, size);
    FlushedKeeps(sb, mid, v', i);
    forall s | 0 <= s < NSLOTS ensures Ref(v'.store, v'.nodes[i], s) == Ref(v.store, v.nodes[i], s) {
      assert Ref(mid.store, mid.nodes[i], s) == Ref(v.store, v.nodes[i], s);
    }
  }

  lemma GrownByte(sb: Super, v: View, v': View, i: nat, size: nat, k: nat)
    requires Consistent(sb, v, i) && i < |v.nodes| && size < WORD && k < MAXFILE * BSIZE && Grown(sb, v, v', i, size)
    requires Ref(v.store, v.nodes[i], SlotOf(k / BSIZE)) != 0
    ensures |v'.nodes| == |v.nodes| && v'.nodes[i].Fits()
    ensures ByteAt(v'.store, v'.nodes[i], k) == ByteAt(v.store, v.nodes[i], k)
  {
    GrownKeeps(sb, v, v', i, size);
  }

  lemma GrownFilled(sb: Super, v0: View, v: View, v': View, i: nat, off: nat, src: seq<Byte>, size: nat)
    requires i < |v0.nodes| && Shaped(v0.nodes) && Accepted(v0.nodes[i].size, off, |src|) && size == off + |src|
    requires Written(sb, v0, v, i, off, src, size) && size > v0.nodes[i].size && Grown(sb, v, v', i, size)
    ensures |v'.nodes| == |v.nodes| && v'.nodes[i].Fits() && Filled(v'.store, v'.nodes[i])
  {
    assert BlocksFor(v0.nodes[i].size) <= BlocksFor(size);
    GrownKeeps(sb, v, v', i, size);
  }

  /** The first `n` bytes of inode `i` are mapped and are what writing `src` at `off` should give. */
  ghost predicate Holds(v0: View, v: View, i: nat, off: nat, src: seq<Byte>, n: nat)
    requires i < |v0.nodes| && Shaped(v0.nodes) && i < |v.nodes| && Shaped(v.nodes) && n <= MAXFILE * BSIZE
      && n == off + |src|
  {
    forall k | 0 <= k < n ::
      Ref(v.store, v.nodes[i], SlotOf(k / BSIZE)) != 0
      && ByteAt(v.store, v.nodes[i], k) == Expected(v0, i, off, src, n, k)
  }

  lemma WrittenHolds(sb: Super, v0: View, v: View, i: nat, off: nat, src: seq<Byte>, size: nat)
    requires i < |v0.nodes| && Shaped(v0.nodes) && Accepted(v0.nodes[i].size, off, |src|) && size == off + |src|
    requires Written(sb, v0, v, i, off, src, size) && size > v0.nodes[i].size
    ensures Holds(v0, v, i, off, src, size)
  {
    forall k | 0 <= k < size ensures Ref(v.store, v.nodes[i], SlotOf(k / BSIZE)) != 0 {
      assert k / BSIZE < BlocksFor(size);
    }
  }

  lemma GrownContents(sb: Super, v0: View, v: View, v': View, i: nat, off: nat, src: seq<Byte>, size: nat)
    requires i < |v0.nodes| && Shaped(v0.nodes) && Accepted(v0.nodes[i].size, off, |src|)
      && size == off + |src| > v0.nodes[i].size
    requires Consistent(sb, v, i) && i < |v.nodes| && Holds(v0, v, i, off, src, size) && Grown(sb, v, v', i, size)
    requires v'.nodes[i].Fits() && v'.nodes[i].size == size
    ensures Contents(v'.store, v'.nodes[i]) == Spliced(Contents(v0.store, v0.nodes[i]), off, src)
  {
    forall k | 0 <= k < size ensures ByteAt(v'.store, v'.nodes[i], k) == Expected(v0, i, off, src, size, k) {
      GrownByte(sb, v, v', i, size, k);
    }
    SplicedContents(v0, v'.store, v'.nodes[i], i, off, src, size);
  }

  lemma PastEndElsewhere(sb: Super, v0: View, v: View, v': View, i: nat, size: nat)
    requires Consistent(sb, v0, sb.ninodes) && Consistent(sb, v, i) && i < |v0.nodes| && Others(v0, v, i) && size < WORD
    requires Grown(sb, v, v', i, size)
    ensures Shaped(v'.nodes) && SameElsewhere(v0, v', i)
  {
    GrownKeeps(sb, v, v', i, size);
    OthersTrans(v0, v, v', i);
    OthersSame(sb, v0, v', i, sb.ninodes, sb.ninodes);
  }

  lemma NoHolesAgain(v0: View, v: View, i: nat, n: nat)
    requires Shaped(v0.nodes) && Shaped(v.nodes) && i < |v0.nodes| <= n && NoHoles(v0, n)
    requires SameElsewhere(v0, v, i) && Filled(v.store, v.nodes[i])
    ensures NoHoles(v, n)
  {
    forall j | 0 <= j < |v.nodes| && j != n ensures Filled(v.store, v.nodes[j]) {
      assert Filled(v0.store, v0.nodes[j]);
    }
  }

  lemma GrownGood(sb: Super, v0: View, v: View, v': View, i: nat, size: nat)
    requires Good(sb, v0) && i < |v0.nodes| && Consistent(sb, v, i) && Others(v0, v, i) && size < WORD
    requires Grown(sb, v, v', i, size) && v'.nodes[i].Fits() && Filled(v'.store, v'.nodes[i])
    ensures Good(sb, v') && SameElsewhere(v0, v', i)
  {
    GrownKeeps(sb, v, v', i, size);
    PastEndElsewhere(sb, v0, v, v', i, size);
    NoHolesAgain(v0, v', i, sb.ninodes);
  }

  lemma PastEndContents(sb: Super, v0: View, v: View, v': View, i: nat, off: nat, src: seq<Byte>, size: nat)
    requires i < |v0.nodes| && Shaped(v0.nodes) && Accepted(v0.nodes[i].size, off, |src|) && size == off + |src|
    requires Written(sb, v0, v, i, off, src, size) && size > v0.nodes[i].size && Grown(sb, v, v', i, size)
    ensures v'.nodes[i].Fits() && v'.nodes[i].size == size
    ensures Contents(v'.store, v'.nodes[i]) == Spliced(Contents(v0.store, v0.nodes[i]), off, src)
  {
    assert v'.nodes[i] == v.nodes[i].(size := size);
    WrittenHolds(sb, v0, v, i, off, src, size);
    GrownContents(sb, v0, v, v', i, off, src, size);
  }

  /** writei past the end: the file system is good again and other files are untouched. */
  lemma WrotePastEnd(sb: Super, v0: View, v: View, v': View, i: nat, off: nat, src: seq<Byte>, size: nat)
    requires Good(sb, v0) && i < |v0.nodes| && Accepted(v0.nodes[i].size, off, |src|) && size == off + |src|
    requires Written(sb, v0, v, i, off, src, size) && size > v0.nodes[i].size && Grown(sb, v, v', i, size)
    ensures Good(sb, v') && SameElsewhere(v0, v', i)
  {
    GrownFilled(sb, v0, v, v', i, off, src, size);
    GrownGood(sb, v0, v, v', i, size);
  }

  /** One round of readi's loop: the piece in the mapped block is the piece of the file. */
  lemma PieceRead(store: Store, d: Dinode, off: nat, end: nat, b: nat)
    requires d.Fits() && d.size <= MAXFILE * BSIZE && off < end <= d.size && off % BSIZE + (end - off) <= BSIZE
    requires b == Ref(store, d, SlotOf(off / BSIZE)) && b < |store|
    ensures store[b][off % BSIZE..off % BSIZE + (end - off)] == Contents(store, d)[off..end]
  {
    var c, at := Contents(store, d), off % BSIZE;
    forall k | off <= k < end ensures store[b][at + k - off] == c[k] {
      assert k / BSIZE == off / BSIZE && k % BSIZE == at + k - off;
      assert c[k] == ByteAt(store, d, k);
    }
    assert store[b][at..at + (end - off)] == c[off..end];
  }

  lemma SlicesJoin(c: seq<Byte>, x: nat, y: nat, z: nat)
    requires x <= y <= z <= |c|
    ensures c[x..y] + c[y..z] == c[x..z]
  {
  }

  /** Below its size a file is mapped already. */
  lemma BelowSize(sb: Super, v: View, i: nat, off: nat)
    requires Good(sb, v) && i < |v.nodes| && off < v.nodes[i].size
    ensures off / BSIZE < MAXFILE && Ref(v.store, v.nodes[i], SlotOf(off / BSIZE)) != 0 && Consistent(sb, v, i)
  {
    assert off / BSIZE < BlocksFor(v.nodes[i].size);
  }

  lemma NothingWritten(sb: Super, v: View, i: nat, off: nat, src: seq<Byte>)
    requires Good(sb, v) && i < |v.nodes| && Accepted(v.nodes[i].size, off, |src|)
    ensures Written(sb, v, v, i, off, src, off) && Consistent(sb, v, i)
  {
    assert BlocksFor(off) <= BlocksFor(v.nodes[i].size);
  }
}
