/** On-disk layout of the file system (fs.h) and who owns which block. */
module FsLayout {
  import opened Blocks

  const NDIRECT := 12
  const NINDIRECT := 128
  const MAXFILE := 140
  const IPB := 8
  const BPB := 4096
  const SHORT := 0x1_0000

  /** `nblocks` data blocks end the disk; everything before them is metadata. */
  datatype Super = Super(size: nat, nblocks: nat, ninodes: nat, inodestart: nat, bmapstart: nat) {
    ghost predicate Valid() {
      && 0 < inodestart && inodestart + ninodes / IPB + 1 <= bmapstart
      && bmapstart + size / BPB + 1 <= size - nblocks && size < WORD
    }

    function DataStart(): int {
      size - nblocks
    }

    /** IBLOCK. */
    function InodeBlock(i: nat): nat {
      i / IPB + inodestart
    }

    /** BBLOCK. */
    function BitmapBlock(b: nat): nat {
      b / BPB + bmapstart
    }
  }

  type Store = seq<Block>

  function Put(store: Store, b: nat, data: Block): (r: Store)
    requires b < |store|
    ensures |r| == |store|
  {
    store[b := data]
  }

  // ---- Inodes -------------------------------------------------------------------------------

  datatype Dinode = Dinode(typ: nat, major: nat, minor: nat, nlink: nat, size: nat, addrs: seq<nat>) {
    /** Every field fits its C type. */
    predicate Fits() {
      && typ < SHORT && major < SHORT && minor < SHORT && nlink < SHORT && size < WORD
      && |addrs| == NDIRECT + 1 && forall a | 0 <= a < |addrs| :: addrs[a] < WORD
    }
  }

  function Pack(d: Dinode): (ws: seq<nat>)
    requires d.Fits()
    ensures |ws| == 16 && forall k | 0 <= k < 16 :: ws[k] < WORD
  {
    [d.typ + SHORT * d.major, d.minor + SHORT * d.nlink, d.size] + d.addrs
  }

  function Unpack(ws: seq<nat>): (d: Dinode)
    requires |ws| == 16 && forall k | 0 <= k < 16 :: ws[k] < WORD
    ensures d.Fits()
  {
    Dinode(ws[0] % SHORT, ws[0] / SHORT, ws[1] % SHORT, ws[1] / SHORT, ws[2], ws[3..])
  }

  function WordsAt(b: Block, at: nat, n: nat): (ws: seq<nat>)
    requires at + n <= NWORDS
    ensures |ws| == n && forall k | 0 <= k < n :: ws[k] == Word(b, at + k)
  {
    if n == 0 then [] else WordsAt(b, at, n - 1) + [Word(b, at + n - 1)]
  }

  /** The inode in place `k` of an inode block. */
  function DinodeAt(b: Block, k: nat): (d: Dinode)
    requires k < IPB
    ensures d.Fits()
  {
    Unpack(WordsAt(b, 16 * k, 16))
  }

  function PutWords(b: Block, at: nat, ws: seq<nat>): Block
    requires at + |ws| <= NWORDS && forall k | 0 <= k < |ws| :: ws[k] < WORD
  {
    if ws == [] then b else PutWord(PutWords(b, at, ws[..|ws| - 1]), at + |ws| - 1, ws[|ws| - 1])
  }

  function PutDinode(b: Block, k: nat, d: Dinode): Block
    requires k < IPB && d.Fits()
  {
    PutWords(b, 16 * k, Pack(d))
  }

  lemma {:induction false} WordsPut(b: Block, at: nat, ws: seq<nat>, j: nat)
    requires at + |ws| <= NWORDS && j < NWORDS && forall k | 0 <= k < |ws| :: ws[k] < WORD
    ensures Word(PutWords(b, at, ws), j) == if at <= j < at + |ws| then ws[j - at] else Word(b, j)
  {
    if ws != [] {
      var most := ws[..|ws| - 1];
      WordPut(PutWords(b, at, most), at + |most|, ws[|most|], j);
      WordsPut(b, at, most, j);
    }
  }

  /** iupdate and ilock are inverse, and the other inodes of the block are left alone. */
  lemma DinodeRoundTrip(b: Block, k: nat, d: Dinode, j: nat)
    requires k < IPB && j < IPB && d.Fits()
    ensures DinodeAt(PutDinode(b, k, d), j) == if j == k then d else DinodeAt(b, j)
  {
    var c, ws := PutDinode(b, k, d), Pack(d);
    forall w | 16 * j <= w < 16 * j + 16 ensures Word(c, w) == if j == k then ws[w - 16 * j] else Word(b, w) {
      WordsPut(b, 16 * k, ws, w);
    }
    var got := WordsAt(c, 16 * j, 16);
    forall w | 0 <= w < 16 ensures got[w] == if j == k then ws[w] else Word(b, 16 * j + w) {
      assert got[w] == Word(c, 16 * j + w);
    }
    assert j == k ==> got == ws && ws[3..] == d.addrs;
    assert j != k ==> got == WordsAt(b, 16 * j, 16);
  }

  function InodeOnDisk(sb: Super, store: Store, i: nat): Dinode
    requires sb.InodeBlock(i) < |store|
  {
    DinodeAt(store[sb.InodeBlock(i)], i % IPB)
  }

  // ---- What an inode points to --------------------------------------------------------------

  const NSLOTS := NDIRECT + 1 + NINDIRECT

  /**
   * The block number in slot `s` of an inode: slots 0..11 are its direct blocks, slot 12 its indirect block,
   * and slots 13.. the entries of that indirect block. 0 means none.
   */
  function Ref(store: Store, d: Dinode, s: nat): nat
    requires |d.addrs| == NDIRECT + 1 && s < NSLOTS
  {
    if s <= NDIRECT then d.addrs[s]
    else if 0 < d.addrs[NDIRECT] < |store| then Word(store[d.addrs[NDIRECT]], s - NDIRECT - 1)
    else 0
  }

  /** The slot of file block `bn`. */
  function SlotOf(bn: nat): nat {
    if bn < NDIRECT then bn else bn + 1
  }

  /** Byte `k` of a file, through the block map. */
  function ByteAt(store: Store, d: Dinode, k: nat): Byte
    requires |d.addrs| == NDIRECT + 1 && k < MAXFILE * BSIZE
  {
    var r := Ref(store, d, SlotOf(k / BSIZE));
    if r < |store| then store[r][k % BSIZE] else 0
  }

  /** The contents of a file. */
  function Contents(store: Store, d: Dinode): (c: seq<Byte>)
    requires |d.addrs| == NDIRECT + 1 && d.size <= MAXFILE * BSIZE
    ensures |c| == d.size
  {
    seq(d.size, k requires 0 <= k < d.size => ByteAt(store, d, k))
  }

  /** The number of blocks that hold `n` bytes. */
  function BlocksFor(n: nat): nat {
    (n + BSIZE - 1) / BSIZE
  }

  /** Exactly the first `m` file blocks are mapped, and the indirect block is there exactly if one needs it. */
  ghost predicate Extent(store: Store, d: Dinode, m: nat)
    requires |d.addrs| == NDIRECT + 1
  {
    && m <= MAXFILE
    && (forall bn | 0 <= bn < MAXFILE :: Ref(store, d, SlotOf(bn)) != 0 <==> bn < m)
    && (d.addrs[NDIRECT] != 0 <==> m > NDIRECT)
  }

  // ---- Ownership ----------------------------------------------------------------------------

  /** Which inode and slot a data block belongs to. */
  type Owners = map<nat, (nat, nat)>

  predicate Shaped(nodes: seq<Dinode>) {
    forall i | 0 <= i < |nodes| :: nodes[i].Fits()
  }

  /** `own` says exactly who points where: no block is pointed to twice, none is owned and not pointed to. */
  ghost predicate Refs(sb: Super, store: Store, nodes: seq<Dinode>, own: Owners)
    requires Shaped(nodes)
  {
    && (forall r | r in own ::
          && sb.DataStart() <= r < sb.size && own[r].0 < |nodes| && own[r].1 < NSLOTS
          && Ref(store, nodes[own[r].0], own[r].1) == r)
    && (forall i, s | 0 <= i < |nodes| && 0 <= s < NSLOTS && Ref(store, nodes[i], s) != 0 ::
          Ref(store, nodes[i], s) in own && own[Ref(store, nodes[i], s)] == (i, s))
  }

  predicate Marked(sb: Super, store: Store, b: nat)
    requires sb.BitmapBlock(b) < |store|
  {
    Bit(store[sb.BitmapBlock(b)], b % BPB)
  }

  /** The free map marks the metadata, the owned blocks and `extra`, and nothing else. */
  ghost predicate Marks(sb: Super, store: Store, own: Owners, extra: set<nat>)
    requires sb.Valid() && |store| == sb.size
  {
    forall b | 0 <= b < sb.size :: Marked(sb, store, b) <==> b < sb.DataStart() || b in own || b in extra
  }

  /** Blocks that `own` lists did not change. */
  ghost predicate OwnedSame(store: Store, store': Store, own: Owners) {
    |store| == |store'| && forall r | r in own && r < |store| :: store'[r] == store[r]
  }

  ghost predicate SameRefs(nodes: seq<Dinode>, store: Store, store': Store)
    requires Shaped(nodes)
  {
    forall i, s | 0 <= i < |nodes| && 0 <= s < NSLOTS :: Ref(store', nodes[i], s) == Ref(store, nodes[i], s)
  }

  /** Who points where depends on the owned blocks only. */
  lemma RefsFrame(sb: Super, store: Store, store': Store, nodes: seq<Dinode>, own: Owners)
    requires sb.Valid() && |store| == sb.size && Shaped(nodes) && Refs(sb, store, nodes, own)
      && OwnedSame(store, store', own)
    ensures SameRefs(nodes, store, store') && Refs(sb, store', nodes, own)
  {
    forall i, s | 0 <= i < |nodes| && 0 <= s < NSLOTS ensures Ref(store', nodes[i], s) == Ref(store, nodes[i], s) {
      assert Ref(store, nodes[i], NDIRECT) == nodes[i].addrs[NDIRECT];
    }
  }

  /** Changing a block that is nobody's indirect block moves no pointer. */
  lemma DataWriteKeepsRefs(sb: Super, store: Store, nodes: seq<Dinode>, own: Owners, b: nat, data: Block)
    requires sb.Valid() && |store| == sb.size && Shaped(nodes) && Refs(sb, store, nodes, own)
    requires b < |store| && (b in own ==> own[b].1 != NDIRECT)
    ensures SameRefs(nodes, store, Put(store, b, data)) && Refs(sb, Put(store, b, data), nodes, own)
  {
    var store' := Put(store, b, data);
    forall i, s | 0 <= i < |nodes| && 0 <= s < NSLOTS ensures Ref(store', nodes[i], s) == Ref(store, nodes[i], s) {
      assert Ref(store, nodes[i], NDIRECT) == nodes[i].addrs[NDIRECT];
    }
  }

  // ---- Allocation ---------------------------------------------------------------------------

  /** The free map bit of `b` is set. */
  function MarkUsed(sb: Super, store: Store, b: nat): (r: Store)
    requires sb.Valid() && |store| == sb.size && b < sb.size && !Marked(sb, store, b)
    ensures |r| == |store|
  {
    Put(store, sb.BitmapBlock(b), SetBit(store[sb.BitmapBlock(b)], b % BPB))
  }

  /** balloc's effect when it takes block `b`: mark it, then zero it. */
  function Allocated(sb: Super, store: Store, b: nat): (r: Store)
    requires sb.Valid() && |store| == sb.size && b < sb.size && !Marked(sb, store, b)
    ensures |r| == |store|
  {
    Put(MarkUsed(sb, store, b), b, Zeroes())
  }

  /** bfree's effect. */
  function Freed(sb: Super, store: Store, b: nat): (r: Store)
    requires sb.Valid() && |store| == sb.size && b < sb.size && Marked(sb, store, b)
    ensures |r| == |store|
  {
    Put(store, sb.BitmapBlock(b), ClearBit(store[sb.BitmapBlock(b)], b % BPB))
  }

  /** The free map bit of `b` is all that setting it changes. */
  lemma MarkedSet(sb: Super, store: Store, b: nat, c: nat)
    requires sb.Valid() && |store| == sb.size && b < sb.size && c < sb.size && !Marked(sb, store, b)
    ensures Marked(sb, MarkUsed(sb, store, b), c) == (c == b || Marked(sb, store, c))
  {
    if sb.BitmapBlock(c) == sb.BitmapBlock(b) {
      BitSet(store[sb.BitmapBlock(b)], b % BPB, c % BPB);
    }
  }

  lemma MarkedClear(sb: Super, store: Store, b: nat, c: nat)
    requires sb.Valid() && |store| == sb.size && b < sb.size && c < sb.size && Marked(sb, store, b)
    ensures Marked(sb, Freed(sb, store, b), c) == (c != b && Marked(sb, store, c))
  {
    if sb.BitmapBlock(c) == sb.BitmapBlock(b) {
      BitClear(store[sb.BitmapBlock(b)], b % BPB, c % BPB);
    }
  }

  /** An allocated block is a data block nobody owned, it is zero, and no owned or inode block changed. */
  lemma AllocatedKeeps(sb: Super, store: Store, nodes: seq<Dinode>, own: Owners, b: nat)
    requires sb.Valid() && |store| == sb.size && Shaped(nodes) && Refs(sb, store, nodes, own)
      && Marks(sb, store, own, {})
    requires b < sb.size && !Marked(sb, store, b)
    ensures
      var store' := Allocated(sb, store, b);
      && b !in own && sb.DataStart() <= b && store'[b] == Zeroes()
      && OwnedSame(store, store', own) && Marks(sb, store', own, {b})
      && (forall c | 0 <= c < sb.bmapstart :: store'[c] == store[c])
  {
    var marked := MarkUsed(sb, store, b);
    forall c | 0 <= c < sb.size ensures Marked(sb, Allocated(sb, store, b), c) == (c == b || Marked(sb, store, c)) {
      MarkedSet(sb, store, b, c);
      assert Allocated(sb, store, b)[sb.BitmapBlock(c)] == marked[sb.BitmapBlock(c)];
    }
  }

  /** Filling empty slot `s` of inode `i` itself moves that pointer and no other. */
  lemma SlotPut(store: Store, d: Dinode, s: nat, b: nat, t: nat)
    requires d.Fits() && s <= NDIRECT && d.addrs[s] == 0 && b < |store| && t < NSLOTS
      && (s == NDIRECT ==> store[b] == Zeroes())
    ensures Ref(store, d.(addrs := d.addrs[s := b]), t) == if t == s then b else Ref(store, d, t)
  {
    if t > NDIRECT && s == NDIRECT {
      WordZero(t - NDIRECT - 1);
    }
  }

  /** An inode slot that was empty takes a fresh block. */
  lemma AttachInInode(sb: Super, store: Store, nodes: seq<Dinode>, own: Owners, i: nat, s: nat, b: nat)
    requires sb.Valid() && |store| == sb.size && Shaped(nodes) && Refs(sb, store, nodes, own)
    requires i < |nodes| && s <= NDIRECT && nodes[i].addrs[s] == 0
    requires b !in own && sb.DataStart() <= b < sb.size && (s == NDIRECT ==> store[b] == Zeroes())
    ensures
      var d := nodes[i].(addrs := nodes[i].addrs[s := b]);
      d.Fits() && Refs(sb, store, nodes[i := d], Claim(own, b, i, s))
  {
    var d := nodes[i].(addrs := nodes[i].addrs[s := b]);
    var nodes' := nodes[i := d];
    forall j, t | 0 <= j < |nodes| && 0 <= t < NSLOTS
      ensures Ref(store, nodes'[j], t) == if j == i && t == s then b else Ref(store, nodes[j], t)
    {
      if j == i {
        SlotPut(store, nodes[i], s, b, t);
      }
    }
  }

  /** The free map lies before the data blocks. */
  lemma MarksKept(sb: Super, store: Store, store': Store, own: Owners, extra: set<nat>)
    requires sb.Valid() && |store| == |store'| == sb.size && Marks(sb, store, own, extra)
    requires forall c | sb.bmapstart <= c < sb.DataStart() :: store'[c] == store[c]
    ensures Marks(sb, store', own, extra)
  {
    forall b | 0 <= b < sb.size ensures Marked(sb, store', b) == Marked(sb, store, b) {
      assert sb.bmapstart <= sb.BitmapBlock(b) < sb.DataStart();
    }
  }

  /** Entry `k` of the indirect block at `a` becomes `b`. */
  function PutEntry(store: Store, a: nat, k: nat, b: nat): (r: Store)
    requires a < |store| && k < NINDIRECT && b < WORD
    ensures |r| == |store|
  {
    Put(store, a, PutWord(store[a], k, b))
  }

  /** Block `b` now belongs to slot `s` of inode `i`. */
  function Claim(own: Owners, b: nat, i: nat, s: nat): Owners {
    own[b := (i, s)]
  }

  /** Writing entry `k` of inode `i`'s indirect block moves that pointer and no other. */
  lemma EntryPut(sb: Super, store: Store, nodes: seq<Dinode>, own: Owners, i: nat, k: nat, b: nat, j: nat, t: nat)
    requires sb.Valid() && |store| == sb.size && Shaped(nodes) && Refs(sb, store, nodes, own) && b < WORD
    requires i < |nodes| && k < NINDIRECT && 0 < nodes[i].addrs[NDIRECT] < sb.size && j < |nodes| && t < NSLOTS
    ensures
      var a := nodes[i].addrs[NDIRECT];
      Ref(PutEntry(store, a, k, b), nodes[j], t)
      == if j == i && t == NDIRECT + 1 + k then b else Ref(store, nodes[j], t)
  {
    var a := nodes[i].addrs[NDIRECT];
    assert Ref(store, nodes[i], NDIRECT) == a;
    assert Ref(store, nodes[j], NDIRECT) == nodes[j].addrs[NDIRECT];
    if j == i && t > NDIRECT {
      WordPut(store[a], k, b, t - NDIRECT - 1);
    }
  }

  /** An indirect-block entry that was 0 takes a fresh block. */
  lemma AttachInIndirect(sb: Super, store: Store, nodes: seq<Dinode>, own: Owners, i: nat, k: nat, b: nat)
    requires sb.Valid() && |store| == sb.size && Shaped(nodes) && Refs(sb, store, nodes, own)
    requires i < |nodes| && k < NINDIRECT && 0 < nodes[i].addrs[NDIRECT] < sb.size
    requires Ref(store, nodes[i], NDIRECT + 1 + k) == 0 && b !in own && sb.DataStart() <= b < sb.size
    ensures
      var a := nodes[i].addrs[NDIRECT];
      Refs(sb, PutEntry(store, a, k, b), nodes, Claim(own, b, i, NDIRECT + 1 + k))
  {
    var a := nodes[i].addrs[NDIRECT];
    var store' := PutEntry(store, a, k, b);
    forall j, t | 0 <= j < |nodes| && 0 <= t < NSLOTS
      ensures Ref(store', nodes[j], t) == if j == i && t == NDIRECT + 1 + k then b else Ref(store, nodes[j], t)
    {
      EntryPut(sb, store, nodes, own, i, k, b, j, t);
    }
  }

  // ---- Frames between two states ------------------------------------------------------------

  /** Ownership only grew, and only for inode `i`. */
  ghost predicate GrewFor(own: Owners, own': Owners, i: nat) {
    && (forall r | r in own :: r in own' && own'[r] == own[r])
    && (forall r | r in own' && r !in own :: own'[r].0 == i)
  }

  /** Ownership only grew, and only by slots `slots` of inode `i`. */
  ghost predicate Grew(own: Owners, own': Owners, i: nat, slots: set<nat>) {
    GrewFor(own, own', i) && forall r | r in own' && r !in own :: own'[r].1 in slots
  }

  /** Every owned block that is not an indirect block kept its data. */
  ghost predicate DataSame(store: Store, store': Store, own: Owners) {
    |store| == |store'| && forall r | r in own && own[r].1 != NDIRECT && r < |store| :: store'[r] == store[r]
  }

  /** What inode `j` points to is untouched where ownership did not grow. */
  lemma RefsKept(sb: Super, store: Store, nodes: seq<Dinode>, own: Owners, store': Store, nodes': seq<Dinode>,
                 own': Owners,
                 i: nat, slots: set<nat>, j: nat, s: nat)
    requires Shaped(nodes) && Shaped(nodes') && |nodes'| == |nodes| && j < |nodes| && s < NSLOTS
    requires Refs(sb, store, nodes, own) && Refs(sb, store', nodes', own') && Grew(own, own', i, slots)
    requires j != i || s !in slots
    ensures Ref(store', nodes'[j], s) == Ref(store, nodes[j], s)
  {
    var r, r' := Ref(store, nodes[j], s), Ref(store', nodes'[j], s);
    if r != 0 {
      assert own'[r] == (j, s);
    }
  }

  lemma RefsKeptElsewhere(sb: Super, store: Store, nodes: seq<Dinode>, own: Owners, store': Store, nodes': seq<Dinode>,
                          own': Owners,
                          i: nat, j: nat, s: nat)
    requires Shaped(nodes) && Shaped(nodes') && |nodes'| == |nodes| && j < |nodes| && s < NSLOTS && j != i
    requires Refs(sb, store, nodes, own) && Refs(sb, store', nodes', own') && GrewFor(own, own', i)
    ensures Ref(store', nodes'[j], s) == Ref(store, nodes[j], s)
  {
    var r, r' := Ref(store, nodes[j], s), Ref(store', nodes'[j], s);
    if r != 0 {
      assert own'[r] == (j, s);
    }
  }

  /** A file whose ownership and data blocks are untouched keeps its contents. */
  lemma ContentsKept(sb: Super, store: Store, nodes: seq<Dinode>, own: Owners, store': Store, nodes': seq<Dinode>,
                     own': Owners,
                     i: nat, j: nat)
    requires sb.Valid() && |store| == |store'| == sb.size
    requires Shaped(nodes) && Shaped(nodes') && |nodes'| == |nodes| && j < |nodes| && j != i && nodes'[j] == nodes[j]
    requires Refs(sb, store, nodes, own) && Refs(sb, store', nodes', own') && GrewFor(own, own', i)
    requires forall r | r in own && own[r].0 != i && own[r].1 != NDIRECT && r < |store| :: store'[r] == store[r]
    requires Extent(store, nodes[j], BlocksFor(nodes[j].size)) && nodes[j].size <= MAXFILE * BSIZE
    ensures Contents(store', nodes'[j]) == Contents(store, nodes[j])
    ensures Extent(store', nodes'[j], BlocksFor(nodes[j].size))
  {
    forall s | 0 <= s < NSLOTS ensures Ref(store', nodes'[j], s) == Ref(store, nodes[j], s) {
      RefsKeptElsewhere(sb, store, nodes, own, store', nodes', own', i, j, s);
    }
    forall k | 0 <= k < nodes[j].size ensures ByteAt(store', nodes'[j], k) == ByteAt(store, nodes[j], k) {
      assert Ref(store, nodes[j], SlotOf(k / BSIZE)) != 0;
    }
  }
}
