/** States of the file system and what balloc, bmap and block writes do to them. */
module FsState {
  import opened Blocks
  import opened FsLayout

  /** The block store, every inode as the kernel holds it, and who owns each data block. */
  datatype View = View(store: Store, nodes: seq<Dinode>, own: Owners)

  /** Pointers, owners and free map agree, and every inode but `open` is on disk as it is in memory. */
  ghost predicate Consistent(sb: Super, v: View, open: nat) {
    && sb.Valid() && |v.store| == sb.size && |v.nodes| == sb.ninodes && Shaped(v.nodes)
    && Refs(sb, v.store, v.nodes, v.own) && Marks(sb, v.store, v.own, {})
    && InodesOnDisk(sb, v.store, v.nodes, open)
  }

  ghost predicate InodesOnDisk(sb: Super, store: Store, nodes: seq<Dinode>, open: nat)
    requires sb.Valid() && |store| == sb.size && |nodes| == sb.ninodes
  {
    forall j | 0 <= j < |nodes| && j != open :: InodeOnDisk(sb, store, j) == nodes[j]
  }

  lemma InodesKept(sb: Super, store: Store, store': Store, nodes: seq<Dinode>, open: nat)
    requires sb.Valid() && |store| == |store'| == sb.size && |nodes| == sb.ninodes
    requires forall c | 0 <= c < sb.bmapstart :: store'[c] == store[c]
    requires InodesOnDisk(sb, store, nodes, open)
    ensures InodesOnDisk(sb, store', nodes, open)
  {
  }

  // ---- Filling an empty slot ----------------------------------------------------------------

  /** Slot `s` of inode `i` itself takes block `b` from the free map. */
  function FillInode(sb: Super, v: View, i: nat, s: nat, b: nat): View
    requires sb.Valid() && |v.store| == sb.size && i < |v.nodes| && s < |v.nodes[i].addrs|
    requires b < sb.size && !Marked(sb, v.store, b)
  {
    View(Allocated(sb, v.store, b),
         v.nodes[i := v.nodes[i].(addrs := v.nodes[i].addrs[s := b])],
         Claim(v.own, b, i, s))
  }

  /** Entry `k` of inode `i`'s indirect block, at `a`, takes block `b` from the free map. */
  function FillIndirect(sb: Super, v: View, i: nat, k: nat, b: nat, a: nat): View
    requires sb.Valid() && |v.store| == sb.size && a < sb.size && k < NINDIRECT
    requires b < sb.size && !Marked(sb, v.store, b)
  {
    View(PutEntry(Allocated(sb, v.store, b), a, k, b), v.nodes, Claim(v.own, b, i, NDIRECT + 1 + k))
  }

  /** A free block is a data block nobody owns. */
  lemma FreeBlock(sb: Super, v: View, open: nat, b: nat)
    requires Consistent(sb, v, open) && b < sb.size && !Marked(sb, v.store, b)
    ensures b != 0 && b !in v.own && sb.DataStart() <= b
  {
  }

  lemma InodeFilled(sb: Super, v: View, i: nat, s: nat, b: nat)
    requires Consistent(sb, v, i) && i < |v.nodes| && s <= NDIRECT && v.nodes[i].addrs[s] == 0
    requires b < sb.size && !Marked(sb, v.store, b)
    ensures Consistent(sb, FillInode(sb, v, i, s, b), i)
    ensures OwnedSame(v.store, Allocated(sb, v.store, b), v.own)
  {
    var store' := Allocated(sb, v.store, b);
    AllocatedKeeps(sb, v.store, v.nodes, v.own, b);
    RefsFrame(sb, v.store, store', v.nodes, v.own);
    AttachInInode(sb, store', v.nodes, v.own, i, s, b);
    InodesKept(sb, v.store, store', v.nodes, i);
  }

  lemma IndirectPointer(sb: Super, v: View, open: nat, i: nat)
    requires Consistent(sb, v, open) && i < |v.nodes| && v.nodes[i].addrs[NDIRECT] != 0
    ensures
      var a := v.nodes[i].addrs[NDIRECT];
      a in v.own && v.own[a] == (i, NDIRECT) && sb.DataStart() <= a < sb.size
  {
    assert Ref(v.store, v.nodes[i], NDIRECT) == v.nodes[i].addrs[NDIRECT];
  }

  lemma EntryElsewhere(store: Store, own: Owners, a: nat, k: nat, b: nat)
    requires a in own && own[a].1 == NDIRECT && a < |store| && k < NINDIRECT && b < WORD
    ensures DataSame(store, PutEntry(store, a, k, b), own)
    ensures forall c | 0 <= c < |store| && c != a :: PutEntry(store, a, k, b)[c] == store[c]
  {
  }

  lemma IndirectFilledRefs(sb: Super, v: View, i: nat, k: nat, b: nat, a: nat)
    requires Consistent(sb, v, i) && i < |v.nodes| && k < NINDIRECT && a == v.nodes[i].addrs[NDIRECT] != 0
    requires Ref(v.store, v.nodes[i], NDIRECT + 1 + k) == 0 && b < sb.size && !Marked(sb, v.store, b) && a < sb.size
    ensures var v' := FillIndirect(sb, v, i, k, b, a); Refs(sb, v'.store, v'.nodes, v'.own)
  {
    var mid := Allocated(sb, v.store, b);
    AllocatedKeeps(sb, v.store, v.nodes, v.own, b);
    RefsFrame(sb, v.store, mid, v.nodes, v.own);
    assert Ref(mid, v.nodes[i], NDIRECT + 1 + k) == 0;
    AttachInIndirect(sb, mid, v.nodes, v.own, i, k, b);
  }

  lemma IndirectFilledMarks(sb: Super, v: View, i: nat, k: nat, b: nat, a: nat)
    requires Consistent(sb, v, i) && i < |v.nodes| && k < NINDIRECT && a == v.nodes[i].addrs[NDIRECT] != 0
    requires b < sb.size && !Marked(sb, v.store, b) && a < sb.size
    ensures var v' := FillIndirect(sb, v, i, k, b, a); Marks(sb, v'.store, v'.own, {})
  {
    var mid := Allocated(sb, v.store, b);
    IndirectPointer(sb, v, i, i);
    AllocatedKeeps(sb, v.store, v.nodes, v.own, b);
    MarksKept(sb, mid, PutEntry(mid, a, k, b), v.own, {b});
  }

  lemma IndirectFilledData(sb: Super, v: View, i: nat, k: nat, b: nat, a: nat)
    requires Consistent(sb, v, i) && i < |v.nodes| && k < NINDIRECT && a == v.nodes[i].addrs[NDIRECT] != 0
    requires b < sb.size && !Marked(sb, v.store, b) && a < sb.size
    ensures var store' := PutEntry(Allocated(sb, v.store, b), a, k, b);
            store'[b] == Zeroes() && DataSame(v.store, store', v.own)
  {
    var mid := Allocated(sb, v.store, b);
    IndirectPointer(sb, v, i, i);
    AllocatedKeeps(sb, v.store, v.nodes, v.own, b);
    EntryElsewhere(mid, v.own, a, k, b);
  }

  lemma IndirectFilledInodes(sb: Super, v: View, i: nat, k: nat, b: nat, a: nat)
    requires Consistent(sb, v, i) && i < |v.nodes| && k < NINDIRECT && a == v.nodes[i].addrs[NDIRECT] != 0
    requires b < sb.size && !Marked(sb, v.store, b) && a < sb.size
    ensures InodesOnDisk(sb, PutEntry(Allocated(sb, v.store, b), a, k, b), v.nodes, i)
  {
    var mid := Allocated(sb, v.store, b);
    IndirectPointer(sb, v, i, i);
    AllocatedKeeps(sb, v.store, v.nodes, v.own, b);
    InodesKept(sb, v.store, PutEntry(mid, a, k, b), v.nodes, i);
  }

  lemma IndirectFilled(sb: Super, v: View, i: nat, k: nat, b: nat, a: nat)
    requires Consistent(sb, v, i) && i < |v.nodes| && k < NINDIRECT && a == v.nodes[i].addrs[NDIRECT] != 0
    requires Ref(v.store, v.nodes[i], NDIRECT + 1 + k) == 0 && b < sb.size && !Marked(sb, v.store, b) && a < sb.size
    ensures Consistent(sb, FillIndirect(sb, v, i, k, b, a), i)
    ensures DataSame(v.store, FillIndirect(sb, v, i, k, b, a).store, v.own)
  {
    IndirectFilledRefs(sb, v, i, k, b, a);
    IndirectFilledMarks(sb, v, i, k, b, a);
    IndirectFilledData(sb, v, i, k, b, a);
    IndirectFilledInodes(sb, v, i, k, b, a);
  }

  // ---- bmap as a relation between states ----------------------------------------------------

  /** Only inode `i` gained anything, in `slots`; all data that was owned is as it was. */
  ghost predicate Extends(v: View, v': View, i: nat, slots: set<nat>)
    requires i < |v.nodes|
  {
    && |v'.nodes| == |v.nodes| && v'.nodes == v.nodes[i := v.nodes[i].(addrs := v'.nodes[i].addrs)]
    && Grew(v.own, v'.own, i, slots) && DataSame(v.store, v'.store, v.own)
  }

  lemma ExtendsTrans(v: View, mid: View, v': View, i: nat, slots: set<nat>)
    requires i < |v.nodes| && Extends(v, mid, i, slots) && Extends(mid, v', i, slots)
    ensures Extends(v, v', i, slots)
  {
    assert v'.nodes == v.nodes[i := v.nodes[i].(addrs := v'.nodes[i].addrs)];
  }

  /** The slots bmap may fill for file block `bn`. */
  function Touches(bn: nat): set<nat> {
    {SlotOf(bn), NDIRECT}
  }

  /** File block `bn` of inode `i` is disk block `b` in `v'`; it was there in `v`, or is fresh and zero. */
  ghost predicate NowAt(v: View, v': View, i: nat, bn: nat, b: nat)
    requires i < |v.nodes| && i < |v'.nodes| && Shaped(v.nodes) && Shaped(v'.nodes) && bn < MAXFILE
  {
    && 0 < b < |v'.store| && Ref(v'.store, v'.nodes[i], SlotOf(bn)) == b
    && (if v.nodes[i].addrs[NDIRECT] != 0 then v'.nodes[i].addrs[NDIRECT] == v.nodes[i].addrs[NDIRECT]
        else v'.nodes[i].addrs[NDIRECT] != 0 <==> bn >= NDIRECT)
    && (if Ref(v.store, v.nodes[i], SlotOf(bn)) != 0 then v' == v else b !in v.own && v'.store[b] == Zeroes())
  }

  ghost predicate Mapped(sb: Super, v: View, v': View, i: nat, bn: nat, b: nat)
    requires i < |v.nodes| && Shaped(v.nodes) && bn < MAXFILE
  {
    Consistent(sb, v', i) && Extends(v, v', i, Touches(bn)) && NowAt(v, v', i, bn, b)
  }

  lemma MappedAlready(sb: Super, v: View, i: nat, bn: nat)
    requires Consistent(sb, v, i) && i < |v.nodes| && bn < MAXFILE && Ref(v.store, v.nodes[i], SlotOf(bn)) != 0
    ensures Mapped(sb, v, v, i, bn, Ref(v.store, v.nodes[i], SlotOf(bn)))
  {
    if bn >= NDIRECT {
      assert v.nodes[i].addrs[NDIRECT] != 0;
    }
  }

  lemma FillInodeExtends(sb: Super, v: View, i: nat, s: nat, b: nat, slots: set<nat>)
    requires sb.Valid() && |v.store| == sb.size && i < |v.nodes| && s < |v.nodes[i].addrs| && s in slots
    requires b < sb.size && !Marked(sb, v.store, b) && b !in v.own
      && OwnedSame(v.store, Allocated(sb, v.store, b), v.own)
    ensures Extends(v, FillInode(sb, v, i, s, b), i, slots)
  {
  }

  lemma MappedDirect(sb: Super, v: View, i: nat, bn: nat, b: nat)
    requires Consistent(sb, v, i) && i < |v.nodes| && bn < NDIRECT && v.nodes[i].addrs[bn] == 0
    requires b < sb.size && !Marked(sb, v.store, b)
    ensures Mapped(sb, v, FillInode(sb, v, i, bn, b), i, bn, b)
  {
    InodeFilled(sb, v, i, bn, b);
    FreeBlock(sb, v, i, b);
    FillInodeExtends(sb, v, i, bn, b, Touches(bn));
  }

  lemma FillIndirectExtends(sb: Super, v: View, i: nat, bn: nat, k: nat, b: nat, a: nat)
    requires sb.Valid() && |v.store| == sb.size && i < |v.nodes| && bn == NDIRECT + k && k < NINDIRECT && a < sb.size
    requires b < sb.size && !Marked(sb, v.store, b) && b !in v.own
    requires DataSame(v.store, FillIndirect(sb, v, i, k, b, a).store, v.own)
    ensures Extends(v, FillIndirect(sb, v, i, k, b, a), i, Touches(bn))
  {
    assert v.nodes == v.nodes[i := v.nodes[i].(addrs := v.nodes[i].addrs)];
  }

  lemma MappedIndirect(sb: Super, v: View, i: nat, bn: nat, k: nat, b: nat, a: nat)
    requires Consistent(sb, v, i) && i < |v.nodes| && bn == NDIRECT + k && k < NINDIRECT
    requires a == v.nodes[i].addrs[NDIRECT] != 0 && a < sb.size
    requires Ref(v.store, v.nodes[i], SlotOf(bn)) == 0 && b < sb.size && !Marked(sb, v.store, b)
    ensures Mapped(sb, v, FillIndirect(sb, v, i, k, b, a), i, bn, b)
  {
    IndirectFilled(sb, v, i, k, b, a);
    FreeBlock(sb, v, i, b);
    var v' := FillIndirect(sb, v, i, k, b, a);
    assert v'.store[b] == Zeroes() by {
      IndirectFilledData(sb, v, i, k, b, a);
    }
    assert v'.own[b] == (i, SlotOf(bn));
    assert Ref(v'.store, v'.nodes[i], SlotOf(bn)) == b;
    FillIndirectExtends(sb, v, i, bn, k, b, a);
  }

  /** A fresh indirect block points nowhere. */
  lemma FreshIndirect(sb: Super, v: View, i: nat, a: nat, bn: nat)
    requires sb.Valid() && |v.store| == sb.size && i < |v.nodes| && |v.nodes[i].addrs| == NDIRECT + 1
    requires NDIRECT <= bn < MAXFILE && 0 < a < sb.size && !Marked(sb, v.store, a)
    ensures Ref(FillInode(sb, v, i, NDIRECT, a).store, FillInode(sb, v, i, NDIRECT, a).nodes[i], SlotOf(bn)) == 0
  {
    WordZero(bn - NDIRECT);
  }

  /** Allocating the indirect block first changes none of this. */
  lemma MappedAfterIndirect(sb: Super, v: View, i: nat, bn: nat, a: nat, v': View, b: nat)
    requires Consistent(sb, v, i) && i < |v.nodes| && NDIRECT <= bn < MAXFILE && v.nodes[i].addrs[NDIRECT] == 0
    requires a < sb.size && !Marked(sb, v.store, a) && Shaped(FillInode(sb, v, i, NDIRECT, a).nodes)
    requires Mapped(sb, FillInode(sb, v, i, NDIRECT, a), v', i, bn, b)
    ensures Mapped(sb, v, v', i, bn, b)
  {
    FreeBlock(sb, v, i, a);
    FreshIndirect(sb, v, i, a, bn);
    var mid := FillInode(sb, v, i, NDIRECT, a);
    assert Extends(v, mid, i, Touches(bn)) by {
      InodeFilled(sb, v, i, NDIRECT, a);
      FillInodeExtends(sb, v, i, NDIRECT, a, Touches(bn));
    }
    ExtendsTrans(v, mid, v', i, Touches(bn));
  }
}
