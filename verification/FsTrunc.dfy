/** What itrunc does: every block of one inode goes back to the free map, nobody else's. */
module FsTrunc {
  import opened Blocks
  import opened FsLayout
  import opened FsState
  import opened FsWrite
  import opened FsLog

  /** `own` without inode `i`. */
  function Without(own: Owners, i: nat): Owners {
    map r | r in own && own[r].0 != i :: own[r]
  }

  /** Inode `i`'s blocks in slots from `lo` on, and its indirect block if `indirect`. */
  function Rest(own: Owners, i: nat, lo: nat, indirect: bool): set<nat> {
    set r | r in own && own[r].0 == i && (own[r].1 >= lo || (indirect && own[r].1 == NDIRECT))
  }

  function NoAddrs(): (addrs: seq<nat>)
    ensures |addrs| == NDIRECT + 1 && forall a | 0 <= a <= NDIRECT :: addrs[a] == 0
  {
    seq(NDIRECT + 1, _ => 0)
  }

  /** Inode `i` points nowhere and owns nothing, though the free map still marks its blocks. */
  function Cleared(v: View, i: nat): View
    requires i < |v.nodes|
  {
    View(v.store, v.nodes[i := v.nodes[i].(addrs := NoAddrs())], Without(v.own, i))
  }

  /** As Consistent, except that the free map also marks the unowned blocks `extra`. */
  ghost predicate Loose(sb: Super, v: View, open: nat, extra: set<nat>) {
    && sb.Valid() && |v.store| == sb.size && |v.nodes| == sb.ninodes && Shaped(v.nodes)
    && Refs(sb, v.store, v.nodes, v.own) && Marks(sb, v.store, v.own, extra)
    && InodesOnDisk(sb, v.store, v.nodes, open)
    && (forall b | b in extra :: b !in v.own && sb.DataStart() <= b < sb.size)
  }

  lemma ClearedRefs(sb: Super, v: View, o: nat, i: nat)
    requires Consistent(sb, v, o) && i < |v.nodes|
    ensures Shaped(Cleared(v, i).nodes) && Refs(sb, v.store, Cleared(v, i).nodes, Without(v.own, i))
  {
    var nodes' := Cleared(v, i).nodes;
    forall j, s | 0 <= j < |nodes'| && 0 <= s < NSLOTS
      ensures Ref(v.store, nodes'[j], s) == if j == i then 0 else Ref(v.store, v.nodes[j], s)
    {
    }
  }

  lemma ClearedLoose(sb: Super, v: View, i: nat)
    requires Consistent(sb, v, i) && i < |v.nodes|
    ensures Loose(sb, Cleared(v, i), i, Rest(v.own, i, 0, true))
  {
    ClearedRefs(sb, v, i, i);
  }

  lemma FreedMarks(sb: Super, store: Store, own: Owners, extra: set<nat>, b: nat)
    requires sb.Valid() && |store| == sb.size && Marks(sb, store, own, extra) && b in extra && b !in own
      && sb.DataStart() <= b < sb.size
    ensures Marked(sb, store, b) && Marks(sb, Freed(sb, store, b), own, extra - {b})
  {
    forall c | 0 <= c < sb.size ensures Marked(sb, Freed(sb, store, b), c) == (c != b && Marked(sb, store, c)) {
      MarkedClear(sb, store, b, c);
    }
  }

  /** bfree of a block that is still to be freed. */
  lemma FreedLoose(sb: Super, v: View, i: nat, extra: set<nat>, b: nat)
    requires Loose(sb, v, i, extra) && b in extra
    ensures Marked(sb, v.store, b) && Loose(sb, v.(store := Freed(sb, v.store, b)), i, extra - {b})
    ensures forall c | sb.DataStart() <= c < sb.size :: Freed(sb, v.store, b)[c] == v.store[c]
  {
    FreedMarks(sb, v.store, v.own, extra, b);
    var store' := Freed(sb, v.store, b);
    assert sb.bmapstart <= sb.BitmapBlock(b) < sb.DataStart();
    RefsFrame(sb, v.store, store', v.nodes, v.own);
    InodesKept(sb, v.store, store', v.nodes, i);
  }

  lemma RestLess(own: Owners, i: nat, s: nat, t: nat, b: nat)
    requires t == s + 1 && s != NDIRECT && b in own && own[b] == (i, s) && forall r | r in own && own[r] == (i, s) ::
              r == b
    ensures b in Rest(own, i, s, true) && Rest(own, i, t, true) == Rest(own, i, s, true) - {b}
  {
  }

  lemma RestSame(own: Owners, i: nat, s: nat, t: nat)
    requires t == s + 1 && s != NDIRECT && forall r | r in own :: own[r] != (i, s)
    ensures Rest(own, i, t, true) == Rest(own, i, s, true)
  {
  }

  /** Exactly the block in slot `s` of inode `i`, if any, is owned by it. */
  lemma SlotOwner(sb: Super, v: View, i: nat, s: nat)
    requires Consistent(sb, v, i) && i < |v.nodes| && s < NSLOTS
    ensures
      var b := Ref(v.store, v.nodes[i], s);
      && (b != 0 ==> b in v.own && v.own[b] == (i, s) && b < sb.size)
      && (forall r | r in v.own && v.own[r] == (i, s) :: r == b && b != 0)
  {
    var b := Ref(v.store, v.nodes[i], s);
    forall r | r in v.own && v.own[r] == (i, s) ensures r == b && b != 0 {
      assert Ref(v.store, v.nodes[v.own[r].0], v.own[r].1) == r;
    }
  }

  /** Going past slot `s` leaves one block less to free, if the slot held one. */
  lemma RestStep(sb: Super, v: View, i: nat, s: nat, t: nat, b: nat)
    requires Consistent(sb, v, i) && i < |v.nodes| && s < NSLOTS && s != NDIRECT && t == s + 1
      && b == Ref(v.store, v.nodes[i], s)
    ensures b != 0 ==> b in Rest(v.own, i, s, true) && b < sb.size
                       && Rest(v.own, i, t, true) == Rest(v.own, i, s, true) - {b}
    ensures b == 0 ==> Rest(v.own, i, t, true) == Rest(v.own, i, s, true)
  {
    SlotOwner(sb, v, i, s);
    if b != 0 {
      RestLess(v.own, i, s, t, b);
    } else {
      RestSame(v.own, i, s, t);
    }
  }

  lemma RestLast(sb: Super, v: View, i: nat)
    requires Consistent(sb, v, i) && i < |v.nodes|
    ensures
      var b := v.nodes[i].addrs[NDIRECT];
      && (b != 0 ==> b in Rest(v.own, i, NSLOTS, true) && b < sb.size && Rest(v.own, i, NSLOTS, true) == {b})
      && (b == 0 ==> Rest(v.own, i, NDIRECT, true) == {})
  {
    var b := v.nodes[i].addrs[NDIRECT];
    assert b == Ref(v.store, v.nodes[i], NDIRECT);
    if b == 0 {
      forall s | NDIRECT <= s < NSLOTS ensures Ref(v.store, v.nodes[i], s) == 0 {
      }
    }
  }

  // ---- Afterwards ---------------------------------------------------------------------------

  /** Dropping inode `i`'s blocks leaves what every other inode points to. */
  lemma OtherRefs(sb: Super, v: View, v': View, i: nat, j: nat, o: nat, o': nat)
    requires Consistent(sb, v, o) && Consistent(sb, v', o') && i < |v.nodes| && j < |v.nodes| && j != i
    requires v'.nodes[j] == v.nodes[j] && v'.own == Without(v.own, i)
    ensures forall s | 0 <= s < NSLOTS :: Ref(v'.store, v'.nodes[j], s) == Ref(v.store, v.nodes[j], s)
  {
    assert GrewFor(v'.own, v.own, i);
    forall s | 0 <= s < NSLOTS ensures Ref(v'.store, v'.nodes[j], s) == Ref(v.store, v.nodes[j], s) {
      RefsKeptElsewhere(sb, v'.store, v'.nodes, v'.own, v.store, v.nodes, v.own, i, j, s);
    }
  }

  lemma SameBytes(store: Store, store': Store, d: Dinode, start: nat)
    requires d.Fits() && Filled(store, d) && |store'| == |store|
    requires forall s | 0 <= s < NSLOTS :: Ref(store', d, s) == Ref(store, d, s)
    requires forall s | 0 <= s < NSLOTS && Ref(store, d, s) != 0 :: start <= Ref(store, d, s) < |store|
    requires forall c | start <= c < |store| :: store'[c] == store[c]
    ensures Filled(store', d) && Contents(store', d) == Contents(store, d)
  {
    forall k | 0 <= k < d.size ensures ByteAt(store', d, k) == ByteAt(store, d, k) {
      assert k / BSIZE < BlocksFor(d.size);
      assert Ref(store, d, SlotOf(k / BSIZE)) != 0;
    }
  }

  lemma OtherContents(sb: Super, v: View, v': View, i: nat, j: nat, o: nat, o': nat)
    requires Consistent(sb, v, o) && Consistent(sb, v', o') && i < |v.nodes| && j < |v.nodes| && j != i
    requires v'.nodes[j] == v.nodes[j] && v'.own == Without(v.own, i)
    requires forall c | sb.DataStart() <= c < sb.size :: v'.store[c] == v.store[c]
    requires Filled(v.store, v.nodes[j])
    ensures Filled(v'.store, v'.nodes[j]) && Contents(v'.store, v'.nodes[j]) == Contents(v.store, v.nodes[j])
  {
    OtherRefs(sb, v, v', i, j, o, o');
    SameBytes(v.store, v'.store, v.nodes[j], sb.DataStart());
  }

  lemma Truncated(sb: Super, v: View, v': View, i: nat)
    requires Good(sb, v) && Consistent(sb, v', sb.ninodes) && i < |v.nodes|
    requires v'.nodes == v.nodes[i := v.nodes[i].(addrs := NoAddrs(), size := 0)] && v'.own == Without(v.own, i)
    requires forall c | sb.DataStart() <= c < sb.size :: v'.store[c] == v.store[c]
    ensures Good(sb, v') && SameElsewhere(v, v', i)
  {
    forall j | 0 <= j < |v.nodes| && j != i
      ensures Filled(v'.store, v'.nodes[j]) && Contents(v'.store, v'.nodes[j]) == Contents(v.store, v.nodes[j])
    {
      OtherContents(sb, v, v', i, j, sb.ninodes, sb.ninodes);
    }
    assert Filled(v'.store, v'.nodes[i]) by {
      forall bn | 0 <= bn < MAXFILE ensures Ref(v'.store, v'.nodes[i], SlotOf(bn)) == 0 {
      }
    }
  }

  lemma LooseEnds(sb: Super, v: View, i: nat)
    requires Loose(sb, v, i, {})
    ensures Consistent(sb, v, i)
  {
  }

  lemma RestIndirect(own: Owners, i: nat)
    ensures Rest(own, i, NDIRECT, true) == Rest(own, i, NDIRECT + 1, true)
  {
  }

  /** The free map lost exactly the blocks inode `i` owned. */
  ghost predicate FreedExactly(sb: Super, v: View, v': View, i: nat)
    requires sb.Valid() && |v.store| == |v'.store| == sb.size
  {
    forall b | 0 <= b < sb.size ::
      Marked(sb, v'.store, b) <==> Marked(sb, v.store, b) && !(b in v.own && v.own[b].0 == i)
  }

  lemma FreedTheOwned(sb: Super, v: View, v': View, i: nat, o: nat, o': nat)
    requires Consistent(sb, v, o) && Consistent(sb, v', o') && v'.own == Without(v.own, i)
    ensures FreedExactly(sb, v, v', i)
  {
    forall b | 0 <= b < sb.size
      ensures Marked(sb, v'.store, b) <==> Marked(sb, v.store, b) && !(b in v.own && v.own[b].0 == i)
    {
      assert b in v.own ==> sb.DataStart() <= b;
    }
  }

  // ---- What is logged -----------------------------------------------------------------------

  /** Exactly the blocks that truncating inode `i` hands to log_write. */
  function TruncLogged(sb: Super, own: Owners, i: nat): set<nat> {
    Bits(sb, Rest(own, i, 0, true)) + {sb.InodeBlock(i)}
  }

  /** `log` and the free map blocks of inode `i`'s blocks that going from slot `lo` to slot `hi` frees. */
  function Freeing(sb: Super, own: Owners, i: nat, lo: nat, hi: nat, log: set<nat>): set<nat> {
    log + Bits(sb, Rest(own, i, lo, true) - Rest(own, i, hi, true))
  }

  lemma FreeingNone(sb: Super, own: Owners, i: nat, lo: nat, log: set<nat>)
    ensures Freeing(sb, own, i, lo, lo, log) == log
  {
  }

  lemma FreeingOne(sb: Super, own: Owners, i: nat, s: nat, t: nat, b: nat, log: set<nat>)
    requires b != 0 ==> b in Rest(own, i, s, true) && Rest(own, i, t, true) == Rest(own, i, s, true) - {b}
    requires b == 0 ==> Rest(own, i, t, true) == Rest(own, i, s, true)
    ensures Freeing(sb, own, i, s, t, log) == if b != 0 then log + {sb.BitmapBlock(b)} else log
  {
    var x, y := Rest(own, i, s, true), Rest(own, i, t, true);
    assert x - y == if b != 0 then {b} else {};
    assert Bits(sb, {b}) == {sb.BitmapBlock(b)};
  }

  lemma FreeingStep(sb: Super, own: Owners, i: nat, lo: nat, mid: nat, hi: nat, log: set<nat>)
    requires lo <= mid <= hi
    ensures Freeing(sb, own, i, mid, hi, Freeing(sb, own, i, lo, mid, log)) == Freeing(sb, own, i, lo, hi, log)
  {
    var x, y, z := Rest(own, i, lo, true), Rest(own, i, mid, true), Rest(own, i, hi, true);
    assert x - z == (x - y) + (y - z);
    BitsJoin(sb, x - y, y - z);
  }

  /** The indirect block goes after the blocks it lists. */
  lemma FreeingIndirect(sb: Super, own: Owners, i: nat, a: nat, log: set<nat>)
    requires Rest(own, i, NSLOTS, true) == {a}
    ensures Freeing(sb, own, i, NDIRECT + 1, NSLOTS, log) + {sb.BitmapBlock(a)} == log
      + Bits(sb, Rest(own, i, NDIRECT, true))
  {
    var x := Rest(own, i, NDIRECT, true);
    RestIndirect(own, i);
    assert x == (x - {a}) + {a};
    BitsJoin(sb, x - {a}, {a});
    assert Bits(sb, {a}) == {sb.BitmapBlock(a)};
  }

  lemma FreeingAll(sb: Super, own: Owners, i: nat, log: set<nat>)
    ensures Freeing(sb, own, i, 0, NDIRECT, log) + Bits(sb, Rest(own, i, NDIRECT, true)) + {sb.InodeBlock(i)}
         == log + TruncLogged(sb, own, i)
  {
    var x, y := Rest(own, i, 0, true), Rest(own, i, NDIRECT, true);
    assert x == (x - y) + y;
    BitsJoin(sb, x - y, y);
  }

  /** The free map has `size / BPB + 1` blocks. */
  lemma BitsFew(sb: Super, blocks: set<nat>)
    requires sb.Valid() && forall r | r in blocks :: r < sb.size
    ensures |Bits(sb, blocks)| <= sb.size / BPB + 1
  {
    var n := sb.size / BPB + 1;
    forall b | b in Bits(sb, blocks) ensures b in Between(sb.bmapstart, n) {
      var r :| r in blocks && b == sb.BitmapBlock(r);
      assert r / BPB <= sb.size / BPB;
    }
    BetweenSize(sb.bmapstart, n);
    SubsetSize(Bits(sb, blocks), Between(sb.bmapstart, n));
  }

  /** A truncation logs inode, free map and data blocks only, at most one more than the free map has blocks. */
  lemma TruncFits(sb: Super, v: View, i: nat, o: nat)
    requires Consistent(sb, v, o) && i < |v.nodes|
    ensures AtHome(sb, TruncLogged(sb, v.own, i)) && |TruncLogged(sb, v.own, i)| <= sb.size / BPB + 2
  {
    var blocks := Rest(v.own, i, 0, true);
    BitsFew(sb, blocks);
    BitsAtHome(sb, blocks);
    InodeAtHome(sb, i);
    assert |Bits(sb, blocks) + {sb.InodeBlock(i)}| <= |Bits(sb, blocks)| + 1;
  }
}
