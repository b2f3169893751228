/**
 * A file system in which filewrite's chunk really logs MAXOPBLOCKS blocks: 59 inodes, every data block in use but
 * one in each of the four free map blocks, and a file that ends one byte into its last direct block.
 */
module FsWorst {
  import opened Blocks
  import opened FsLayout
  import opened FsState
  import opened FsWrite
  import opened FsLog
  import opened FileSystem
  import opened FileWrite
  import LP = LogProtocol
  import opened Results

  const SB := Super(12289, 8194, 59, 33, 41)
  const SIZE := 11 * BSIZE + 1

  // ---- Who owns what ------------------------------------------------------------------------

  /** The block in slot `s` of inode `j`: the largest file for every inode but 0. */
  function Place(j: nat, s: nat): nat {
    if j == 0 then (if s < 6 then 8185 + s else if s < 12 then 12276 + s else 0)
    else if j <= 29 then 4096 + 141 * (j - 1) + s
    else 8193 + 141 * (j - 30) + s
  }

  predicate Free(b: nat) {
    b == 4095 || b == 8191 || b == 8192 || b == 12288
  }

  function Owner(b: nat): (nat, nat)
    requires 4095 <= b < 12289 && !Free(b)
  {
    if b < 8185 then (1 + (b - 4096) / 141, (b - 4096) % 141)
    else if b < 8191 then (0, b - 8185)
    else if b < 12282 then (30 + (b - 8193) / 141, (b - 8193) % 141)
    else (0, b - 12276)
  }

  lemma OwnerPlaced(b: nat)
    requires 4095 <= b < 12289 && !Free(b)
    ensures Owner(b).0 < 59 && Owner(b).1 < NSLOTS && Place(Owner(b).0, Owner(b).1) == b
  {
  }

  lemma PlaceOwned(j: nat, s: nat)
    requires j < 59 && s < NSLOTS && Place(j, s) != 0
    ensures var b := Place(j, s); 4095 <= b < 12289 && !Free(b) && Owner(b) == (j, s)
  {
  }

  function Owned(): (own: Owners)
    ensures forall b :: b in own <==> 4095 <= b < 12289 && !Free(b)
    ensures forall b | b in own :: own[b] == Owner(b)
  {
    map b: nat | 4095 <= b < 12289 && !Free(b) :: Owner(b)
  }

  function FreeBlocks(): set<nat> {
    {4095, 8191, 8192, 12288}
  }

  lemma SizeWithout(all: set<nat>, some: set<nat>)
    requires some <= all
    ensures |all - some| == |all| - |some|
  {
    assert all == (all - some) + some;
  }

  lemma OwnedKeys(start: nat, n: nat)
    requires start == 4095 && n == 8194
    ensures FreeBlocks() <= Between(start, n) && Owned().Keys == Between(start, n) - FreeBlocks()
  {
    forall b: nat ensures b in Owned().Keys <==> b in Between(start, n) - FreeBlocks() {
      assert Free(b) <==> b in FreeBlocks();
    }
  }

  lemma OwnedSize(start: nat, n: nat)
    requires start == 4095 && n == 8194
    ensures |Owned()| == n - 4
  {
    OwnedKeys(start, n);
    BetweenSize(start, n);
    SizeWithout(Between(start, n), FreeBlocks());
    FourFree();
    KeysSize(Owned());
  }

  lemma FourFree()
    ensures |FreeBlocks()| == 4
  {
  }

  lemma KeysSize(own: Owners)
    ensures |own| == |own.Keys|
  {
  }

  // ---- Inodes -------------------------------------------------------------------------------

  function Addrs(j: nat): (addrs: seq<nat>)
    ensures |addrs| == NDIRECT + 1 && forall a | 0 <= a <= NDIRECT :: addrs[a] == Place(j, a)
  {
    seq(NDIRECT + 1, a requires 0 <= a <= NDIRECT => Place(j, a))
  }

  function Node(j: nat): (d: Dinode)
    requires j < 64
    ensures d.Fits()
  {
    Dinode(2, 0, 0, 1, if j == 0 then SIZE else MAXFILE * BSIZE, Addrs(j))
  }

  function Nodes(): (nodes: seq<Dinode>)
    ensures |nodes| == 59 && Shaped(nodes) && forall j | 0 <= j < 59 :: nodes[j] == Node(j)
  {
    seq(59, j requires 0 <= j < 59 => Node(j))
  }

  /** An inode block with its first `n` inodes stored. */
  function InodesIn(q: nat, n: nat): Block
    requires q < 8 && n <= IPB
  {
    if n == 0 then Zeroes() else PutDinode(InodesIn(q, n - 1), n - 1, Node(IPB * q + (n - 1)))
  }

  lemma {:induction false} InodeIn(q: nat, n: nat, k: nat)
    requires q < 8 && n <= IPB && k < n
    ensures DinodeAt(InodesIn(q, n), k) == Node(IPB * q + k)
  {
    var last := n - 1;
    DinodeRoundTrip(InodesIn(q, last), last, Node(IPB * q + last), k);
    if k < last {
      InodeIn(q, last, k);
    }
  }

  // ---- The free map -------------------------------------------------------------------------

  predicate Used(b: nat) {
    b < 12289 && !Free(b)
  }

  lemma {:induction false} ZeroTest(k: nat)
    ensures !TestBit(0, k)
  {
    if k > 0 {
      ZeroTest(k - 1);
    }
  }

  lemma BitZero(bi: nat)
    requires bi < NBITS
    ensures !Bit(Zeroes(), bi)
  {
    ZeroTest(bi % 8);
  }

  /** The `m`th free map block with its first `n` bits right and the rest clear. */
  function BitsIn(m: nat, n: nat): (r: Block)
    requires m < 4 && n <= NBITS
    ensures forall bi | 0 <= bi < NBITS :: Bit(r, bi) <==> bi < n && Used(BPB * m + bi)
  {
    if n == 0 then
      assert forall bi | 0 <= bi < NBITS :: !Bit(Zeroes(), bi) by {
        forall bi | 0 <= bi < NBITS ensures !Bit(Zeroes(), bi) {
          BitZero(bi);
        }
      }
      Zeroes()
    else
      var last := n - 1;
      var before := BitsIn(m, last);
      if Used(BPB * m + last) then
        var r: Block := SetBit(before, last);
        assert forall bi | 0 <= bi < NBITS :: Bit(r, bi) <==> bi < n && Used(BPB * m + bi) by {
          forall bi | 0 <= bi < NBITS ensures Bit(r, bi) <==> bi < n && Used(BPB * m + bi) {
            BitSet(before, last, bi);
          }
        }
        r
      else before
  }

  // ---- Indirect blocks ----------------------------------------------------------------------

  function EntriesUpTo(j: nat, n: nat): (ws: seq<nat>)
    requires 0 < j < 59 && n <= NINDIRECT
    ensures |ws| == n && forall k | 0 <= k < n :: ws[k] == Place(j, NDIRECT + 1 + k) < WORD
  {
    if n == 0 then [] else EntriesUpTo(j, n - 1) + [Place(j, NDIRECT + n)]
  }

  function Entries(j: nat): (ws: seq<nat>)
    requires 0 < j < 59
    ensures |ws| == NINDIRECT && forall k | 0 <= k < NINDIRECT :: ws[k] == Place(j, NDIRECT + 1 + k) < WORD
  {
    EntriesUpTo(j, NINDIRECT)
  }

  // ---- The disk -----------------------------------------------------------------------------

  function BlockAt(b: nat): Block
    requires b < 12289
  {
    if 33 <= b < 41 then InodesIn(b - 33, IPB)
    else if 41 <= b < 45 then BitsIn(b - 41, NBITS)
    else if 4095 <= b && !Free(b) && Owner(b).1 == NDIRECT && 0 < Owner(b).0 < 59
      then PutWords(Zeroes(), 0, Entries(Owner(b).0))
    else Zeroes()
  }

  function Disk(): (store: Store)
    ensures |store| == 12289 && forall b | 0 <= b < 12289 :: store[b] == BlockAt(b)
  {
    seq(12289, b requires 0 <= b < 12289 => BlockAt(b))
  }

  ghost function Worst(): View {
    View(Disk(), Nodes(), Owned())
  }

  lemma RefIs(j: nat, s: nat)
    requires j < 59 && s < NSLOTS
    ensures Ref(Disk(), Node(j), s) == Place(j, s)
  {
    if s > NDIRECT && j > 0 {
      var a := Place(j, NDIRECT);
      PlaceOwned(j, NDIRECT);
      assert Disk()[a] == PutWords(Zeroes(), 0, Entries(j));
      WordsPut(Zeroes(), 0, Entries(j), s - NDIRECT - 1);
    }
  }

  lemma WorstRefs()
    ensures Refs(SB, Disk(), Nodes(), Owned())
  {
    forall r | r in Owned()
      ensures SB.DataStart() <= r < SB.size && Owned()[r].0 < 59 && Owned()[r].1 < NSLOTS
      ensures Ref(Disk(), Nodes()[Owned()[r].0], Owned()[r].1) == r
    {
      OwnerPlaced(r);
      RefIs(Owner(r).0, Owner(r).1);
    }
    forall i, s | 0 <= i < 59 && 0 <= s < NSLOTS && Ref(Disk(), Nodes()[i], s) != 0
      ensures Ref(Disk(), Nodes()[i], s) in Owned() && Owned()[Ref(Disk(), Nodes()[i], s)] == (i, s)
    {
      RefIs(i, s);
      PlaceOwned(i, s);
    }
  }

  lemma WorstMarks()
    ensures Marks(SB, Disk(), Owned(), {})
  {
    forall b | 0 <= b < 12289 ensures Marked(SB, Disk(), b) <==> b < SB.DataStart() || b in Owned() {
      var m, bi := b / BPB, b % BPB;
      assert Disk()[41 + m] == BitsIn(m, NBITS);
      assert BPB * m + bi == b;
    }
  }

  lemma WorstInodes()
    ensures InodesOnDisk(SB, Disk(), Nodes(), 59)
  {
    forall j | 0 <= j < 59 ensures InodeOnDisk(SB, Disk(), j) == Nodes()[j] {
      var q, k := j / IPB, j % IPB;
      assert Disk()[33 + q] == InodesIn(q, IPB);
      InodeIn(q, IPB, k);
    }
  }

  lemma WorstFilled(j: nat)
    requires j < 59
    ensures Filled(Disk(), Node(j))
  {
    var m := BlocksFor(Node(j).size);
    assert m == if j == 0 then 12 else 140;
    forall bn | 0 <= bn < MAXFILE ensures Ref(Disk(), Node(j), SlotOf(bn)) != 0 <==> bn < m {
      RefIs(j, SlotOf(bn));
    }
  }

  lemma WorstGood()
    ensures Good(SB, Worst())
  {
    WorstRefs();
    WorstMarks();
    WorstInodes();
    forall j | 0 <= j < 59 ensures Filled(Disk(), Nodes()[j]) {
      WorstFilled(j);
    }
  }

  // ---- Writing a chunk at the end of file 0 -------------------------------------------------

  /** `v` is Worst after a chunk was appended to file 0. */
  ghost predicate Appended(v: View, src: seq<Byte>, log: set<nat>) {
    && Good(SB, Worst()) && Good(SB, v) && |src| == CHUNK
    && Wrote(SB, Worst(), v, 0, SIZE, src, {}, log)
  }

  /** What matters of it. */
  ghost predicate FileGrew(v: View) {
    && |v.nodes| == 59 && Shaped(v.nodes) && Refs(SB, v.store, v.nodes, v.own) && GrewFor(Owned(), v.own, 0)
    && |v.own| == 8194 && Extent(v.store, v.nodes[0], 15)
  }

  lemma ChunkNumbers(off: nat, end: nat, n: nat)
    requires off == SIZE && n == CHUNK && end == off + n
    ensures Needs(off, off, n) == 4 && off / BSIZE == 11 && Upto(off, end) == 15 && BlocksFor(end) == 15
  {
  }

  lemma AppendedGrew(v: View, src: seq<Byte>, log: set<nat>, start: nat, n: nat, off: nat, end: nat)
    requires Appended(v, src, log) && start == 4095 && n == 8194 && off == SIZE && end == off + |src|
    ensures FileGrew(v)
  {
    OwnedSize(start, n);
    ChunkNumbers(off, end, |src|);
    SplicedSize(Worst(), v, 0, off, src, end);
  }

  lemma AppendedLog(v: View, src: seq<Byte>, log: set<nat>, off: nat, end: nat)
    requires Appended(v, src, log) && |v.nodes| == 59 && off == SIZE && end == off + |src|
    ensures log == SpanLogged(SB, Owned(), v, 0, 11, 15) + {33}
  {
    ChunkNumbers(off, end, |src|);
    WriteLoggedAt(SB, Worst(), v, 0, off, |src|, end, 11, 15);
    AddNothing(WriteLogged(SB, Worst(), v, 0, off, |src|));
  }

  lemma AddNothing(w: set<nat>)
    ensures {} + w == w
  {
  }

  lemma SameSet(a: set<nat>, b: set<nat>)
    requires a <= b && |a| == |b|
    ensures a == b
  {
    assert b == a + (b - a);
  }

  /** All four free blocks are taken. */
  lemma AllTaken(v: View, start: nat, n: nat)
    requires FileGrew(v) && start == 4095 && n == 8194
    ensures NewBlocks(Owned(), v.own) == FreeBlocks()
  {
    OwnedKeys(start, n);
    BetweenSize(start, n);
    assert |v.own| == |v.own.Keys|;
    assert v.own.Keys <= Between(start, n);
    SameSet(v.own.Keys, Between(start, n));
  }

  /** What file 0 pointed to it still points to. */
  lemma OldPlace(v: View, s: nat)
    requires FileGrew(v) && s < 12
    ensures Ref(v.store, v.nodes[0], s) == Place(0, s) && Place(0, s) in Owned()
  {
    PlaceOwned(0, s);
  }

  /** Nothing else it points to was owned before. */
  lemma NotOwned(s: nat, b: nat)
    requires 12 <= s && b in Owned() && b != 0
    ensures Owned()[b] != (0, s)
  {
    OwnerPlaced(b);
  }

  lemma NewPlace(v: View, s: nat)
    requires FileGrew(v) && 12 <= s < NSLOTS && Ref(v.store, v.nodes[0], s) != 0
    ensures Ref(v.store, v.nodes[0], s) in NewBlocks(Owned(), v.own)
  {
    var b := Ref(v.store, v.nodes[0], s);
    assert b in v.own && v.own[b] == (0, s);
    if b in Owned() {
      NotOwned(s, b);
    }
  }

  lemma NewSlot(v: View, r: nat)
    requires FileGrew(v) && r in NewBlocks(Owned(), v.own)
    ensures v.own[r].0 == 0 && 12 <= v.own[r].1 < NSLOTS && Ref(v.store, v.nodes[0], v.own[r].1) == r
  {
    var s := v.own[r].1;
    if s < 12 {
      OldPlace(v, s);
    }
  }

  /** At most one of the new blocks is the indirect block. */
  lemma EntryTaken(v: View)
    requires FileGrew(v) && NewBlocks(Owned(), v.own) == FreeBlocks()
    ensures EntryAdded(Owned(), v.own)
  {
    NewSlot(v, 4095);
    NewSlot(v, 8191);
    assert v.own[4095].1 != v.own[8191].1;
    var r := if v.own[4095].1 > 12 then 4095 else 8191;
    assert r in NewBlocks(Owned(), v.own) && v.own[r].1 > NDIRECT;
  }

  lemma IndirectNew(v: View)
    requires FileGrew(v)
    ensures v.nodes[0].addrs[NDIRECT] in NewBlocks(Owned(), v.own)
  {
    assert Ref(v.store, v.nodes[0], NDIRECT) == v.nodes[0].addrs[NDIRECT];
    NewPlace(v, NDIRECT);
  }

  /** The chunk goes to the last direct block and three new blocks. */
  lemma ChunkBlock(v: View, bn: nat)
    requires FileGrew(v) && 12 <= bn < 15
    ensures Ref(v.store, v.nodes[0], SlotOf(bn)) in NewBlocks(Owned(), v.own)
  {
    assert Ref(v.store, v.nodes[0], SlotOf(bn)) != 0;
    NewPlace(v, SlotOf(bn));
  }

  lemma FourBlocks(store: Store, d: Dinode)
    requires |d.addrs| == NDIRECT + 1
    ensures DataOf(store, d, 11, 15) == {Ref(store, d, 11), Ref(store, d, 13), Ref(store, d, 14), Ref(store, d, 15)}
  {
    assert DataOf(store, d, 11, 12) == {Ref(store, d, 11)};
    assert DataOf(store, d, 11, 13) == DataOf(store, d, 11, 12) + {Ref(store, d, 13)};
    assert DataOf(store, d, 11, 14) == DataOf(store, d, 11, 13) + {Ref(store, d, 14)};
  }

  lemma ChunkData(v: View)
    requires FileGrew(v)
    ensures var data := DataOf(v.store, v.nodes[0], 11, 15);
              12287 in data && data <= NewBlocks(Owned(), v.own) + {12287}
  {
    FourBlocks(v.store, v.nodes[0]);
    OldPlace(v, 11);
    ChunkBlock(v, 12);
    ChunkBlock(v, 13);
    ChunkBlock(v, 14);
  }

  lemma FreeBits()
    ensures Bits(SB, FreeBlocks()) == {41, 42, 43, 44}
  {
    assert SB.BitmapBlock(4095) == 41 && SB.BitmapBlock(8191) == 42 && SB.BitmapBlock(8192) == 43
      && SB.BitmapBlock(12288) == 44;
    var bits := Bits(SB, FreeBlocks());
    assert 4095 in FreeBlocks() && 8191 in FreeBlocks() && 8192 in FreeBlocks() && 12288 in FreeBlocks();
    assert 41 in bits && 42 in bits && 43 in bits && 44 in bits;
  }

  lemma TenBlocks(data: set<nat>, a: nat, log: set<nat>)
    requires 12287 in data && data <= FreeBlocks() + {12287} && a in FreeBlocks()
    requires log == data + (FreeBlocks() + {41, 42, 43, 44} + {a}) + {33}
    ensures log == {33, 41, 42, 43, 44, 4095, 8191, 8192, 12287, 12288} && |log| == 10
  {
    var ten: set<nat> := {33, 41, 42, 43, 44, 4095, 8191, 8192, 12287, 12288};
    assert log <= ten && ten <= log;
    assert |ten| == 10;
  }

  /** Four data blocks, the indirect block, the four free map blocks and the inode, all different. */
  lemma ChunkLogsTen(v: View, src: seq<Byte>, log: set<nat>)
    requires Appended(v, src, log)
    ensures log == {33, 41, 42, 43, 44, 4095, 8191, 8192, 12287, 12288} && |log| == LP.MAXOPBLOCKS
  {
    var start, n, off := 4095, 8194, SIZE;
    AppendedGrew(v, src, log, start, n, off, off + |src|);
    AppendedLog(v, src, log, off, off + |src|);
    AllTaken(v, start, n);
    EntryTaken(v);
    IndirectNew(v);
    ChunkData(v);
    FreeBits();
    TenBlocks(DataOf(v.store, v.nodes[0], 11, 15), v.nodes[0].addrs[NDIRECT], log);
  }

  /** The state satisfies what one operation of filewrite asks for, and four blocks are enough for a chunk. */
  lemma WorstReady(start: nat, n: nat, off: nat)
    requires start == 4095 && n == 8194 && off == SIZE
    ensures Good(SB, Worst()) && Nodes()[0] == Node(0) && Accepted(Node(0).size, off, CHUNK)
    ensures !Short(SB, Owned(), Needs(Node(0).size, off, CHUNK))
  {
    WorstGood();
    OwnedSize(start, n);
    ChunkNumbers(off, off + CHUNK, CHUNK);
  }

  /** filewrite of one chunk to that file succeeds and logs exactly MAXOPBLOCKS blocks. */
  method WriteWorst(src: seq<Byte>) returns (r: Outcome<int, Reason>, ghost trace: seq<Entry>)
    requires |src| == CHUNK
    ensures r == Ok(CHUNK) && |BlocksOf(trace)| == LP.MAXOPBLOCKS
  {
    var off := SIZE;
    ghost var start, n := 4095, 8194;
    WorstReady(start, n, off);
    var fs := new FileSystem(SB, Disk(), Nodes(), Owned());
    var ip := new Inode(0, Node(0));
    var f := new OpenFile(off);
    r, trace := WriteOperation(fs, ip, f, src);
    ChunkLogsTen(fs.Now(), src, BlocksOf(trace));
  }
}
