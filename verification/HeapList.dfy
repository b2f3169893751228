/** The free list of umalloc.c: headers in memory, one cycle through `base` in address order. Addresses count units. */
module HeapList {
  /** union header: one unit of memory, read as a list pointer and a size in units. */
  datatype Header = Header(ptr: nat, size: nat)

  type Memory = map<nat, Header>

  /** The addresses of blocks, free or live, with their sizes. */
  type Blocks = map<nat, nat>

  const NULL: nat := 0
  const BASE: nat := 1

  /** The place after the `k`th of `n` on the cycle. */
  function Next(k: nat, n: nat): nat {
    if k + 1 == n then 0 else k + 1
  }

  predicate Increasing(fl: seq<nat>) {
    forall j, k | 0 <= j < k < |fl| :: fl[j] < fl[k]
  }

  predicate LinkAt(mem: Memory, fl: seq<nat>, k: nat) {
    k < |fl| && fl[k] in mem && mem[fl[k]].ptr == fl[Next(k, |fl|)]
  }

  /** The headers link the addresses of `fl` into one cycle that starts at `base` and goes up. */
  ghost predicate Listed(mem: Memory, fl: seq<nat>) {
    && |fl| > 0 && fl[0] == BASE && Increasing(fl)
    && (forall k | 0 <= k < |fl| :: LinkAt(mem, fl, k))
  }

  /** Blocks have their size in their header, their units in memory, and no unit in common. */
  ghost predicate Laid(mem: Memory, blocks: Blocks, top: nat) {
    && BASE in blocks && blocks[BASE] == 0
    && (forall a | a in blocks :: a in mem && mem[a].size == blocks[a] && a >= BASE && (a != BASE ==> blocks[a] > 0))
    && (forall a, b | a in blocks && b in blocks && a < b :: a + blocks[a] <= b)
    && (forall a, u | a in blocks && a <= u < a + blocks[a] :: u in mem)
    && (forall u | u in mem :: u < top)
  }

  /** No two free blocks touch, but perhaps those from place `lo` up to `hi` and their successors. */
  ghost predicate Apart(fl: seq<nat>, blocks: Blocks, lo: nat, hi: nat)
    requires forall k | 0 <= k < |fl| :: fl[k] in blocks
  {
    forall k | 0 <= k < |fl| - 1 && !(lo <= k < hi) :: fl[k] + blocks[fl[k]] < fl[k + 1]
  }

  ghost predicate AllIn(fl: seq<nat>, blocks: Blocks) {
    forall k | 0 <= k < |fl| :: fl[k] in blocks
  }

  /** The units of all blocks below `n`. */
  ghost function Units(blocks: Blocks, n: nat): nat {
    if n == 0 then 0 else Units(blocks, n - 1) + if n - 1 in blocks then blocks[n - 1] else 0
  }

  /** Everything but that free blocks do not touch. */
  ghost predicate Good(mem: Memory, fl: seq<nat>, blocks: Blocks, top: nat, got: nat) {
    Listed(mem, fl) && Laid(mem, blocks, top) && AllIn(fl, blocks) && Units(blocks, top) == got
  }

  /** The heap: every unit got from sbrk is in one block, and free blocks are merged. */
  ghost predicate Heaped(mem: Memory, fl: seq<nat>, blocks: Blocks, top: nat, got: nat) {
    Good(mem, fl, blocks, top, got) && Apart(fl, blocks, 0, 0)
  }

  // ---- Sums ---------------------------------------------------------------------------------

  lemma {:induction false} UnitsSame(a: Blocks, b: Blocks, n: nat)
    requires forall x | 0 <= x < n :: (x in a <==> x in b) && (x in a ==> a[x] == b[x])
    ensures Units(a, n) == Units(b, n)
  {
    if n > 0 {
      UnitsSame(a, b, n - 1);
    }
  }

  /** One block more, or one of another size. */
  lemma {:induction false} UnitsPut(a: Blocks, n: nat, x: nat, size: nat)
    requires x < n
    ensures Units(a[x := size], n) + (if x in a then a[x] else 0) == Units(a, n) + size
  {
    if x == n - 1 {
      UnitsSame(a, a[x := size], n - 1);
    } else {
      UnitsPut(a, n - 1, x, size);
    }
  }

  lemma {:induction false} UnitsDrop(a: Blocks, n: nat, x: nat)
    requires x < n && x in a
    ensures Units(a - {x}, n) + a[x] == Units(a, n)
  {
    if x == n - 1 {
      UnitsSame(a, a - {x}, n - 1);
    } else {
      UnitsDrop(a, n - 1, x);
    }
  }

  /** Nothing is above the top. */
  lemma {:induction false} UnitsAbove(a: Blocks, m: nat, n: nat)
    requires m <= n && forall x | x in a :: x < m
    ensures Units(a, n) == Units(a, m)
    decreases n
  {
    if m < n {
      UnitsAbove(a, m, n - 1);
    }
  }

  // ---- Changes of the list ------------------------------------------------------------------

  /** `bp` goes between the `t`th free block and the next. */
  function Inserted(fl: seq<nat>, t: nat, bp: nat): seq<nat>
    requires t < |fl|
  {
    fl[..t + 1] + [bp] + fl[t + 1..]
  }

  function Link(mem: Memory, p: nat, bp: nat): Memory
    requires p in mem && bp in mem
  {
    mem[bp := mem[bp].(ptr := mem[p].ptr)][p := mem[p].(ptr := bp)]
  }

  /** `bp` belongs after the `t`th free block. */
  predicate Between(fl: seq<nat>, t: nat, bp: nat) {
    t < |fl| && fl[t] < bp && (t + 1 < |fl| ==> bp < fl[t + 1])
  }

  lemma InsertIncreasing(fl: seq<nat>, t: nat, bp: nat)
    requires Increasing(fl) && Between(fl, t, bp)
    ensures Increasing(Inserted(fl, t, bp))
  {
  }

  lemma InsertListed(mem: Memory, fl: seq<nat>, t: nat, bp: nat)
    requires Listed(mem, fl) && bp in mem && Between(fl, t, bp) && fl[t] in mem
    ensures Listed(Link(mem, fl[t], bp), Inserted(fl, t, bp))
  {
    InsertIncreasing(fl, t, bp);
    var gl, m := Inserted(fl, t, bp), Link(mem, fl[t], bp);
    assert LinkAt(mem, fl, t);
    forall k | 0 <= k < |gl| ensures LinkAt(m, gl, k) {
      if k < t {
        assert LinkAt(mem, fl, k) && gl[k] == fl[k] && gl[k + 1] == fl[k + 1];
      } else if k > t + 1 {
        assert LinkAt(mem, fl, k - 1) && gl[k] == fl[k - 1];
      }
    }
  }

  lemma InsertGood(mem: Memory, fl: seq<nat>, blocks: Blocks, top: nat, got: nat, t: nat, bp: nat)
    requires Heaped(mem, fl, blocks, top, got) && bp in blocks && Between(fl, t, bp)
    ensures Good(Link(mem, fl[t], bp), Inserted(fl, t, bp), blocks, top, got)
    ensures Apart(Inserted(fl, t, bp), blocks, t, t + 2)
  {
    InsertListed(mem, fl, t, bp);
    var gl := Inserted(fl, t, bp);
    forall k | 0 <= k < |gl| - 1 && !(t <= k < t + 2) ensures gl[k] + blocks[gl[k]] < gl[k + 1] {
      if k < t {
        assert gl[k] == fl[k] && gl[k + 1] == fl[k + 1];
      } else {
        assert gl[k] == fl[k - 1] && gl[k + 1] == fl[k];
      }
    }
  }

  /** The `k`th free block without its own place. */
  function Removed(fl: seq<nat>, k: nat): seq<nat>
    requires k < |fl|
  {
    fl[..k] + fl[k + 1..]
  }

  /** The header at `x` takes over the block at `y`. */
  function Swallow(mem: Memory, x: nat, y: nat): Memory
    requires x in mem && y in mem
  {
    mem[x := Header(mem[y].ptr, mem[x].size + mem[y].size)]
  }

  function Joined(blocks: Blocks, x: nat, y: nat): Blocks
    requires x in blocks && y in blocks
  {
    (blocks - {y})[x := blocks[x] + blocks[y]]
  }

  lemma RemoveListed(mem: Memory, fl: seq<nat>, k: nat, size: nat)
    requires Listed(mem, fl) && k + 1 < |fl| && fl[k + 1] in mem
    ensures Listed(mem[fl[k] := Header(mem[fl[k + 1]].ptr, size)], Removed(fl, k + 1))
  {
    var n, gl, m := |fl|, Removed(fl, k + 1), mem[fl[k] := Header(mem[fl[k + 1]].ptr, size)];
    assert LinkAt(mem, fl, k + 1);
    forall j | 0 <= j < |gl| ensures LinkAt(m, gl, j) {
      if j <= k {
        assert LinkAt(mem, fl, j);
      } else {
        assert LinkAt(mem, fl, j + 1);
      }
    }
  }

  lemma JoinLaid(mem: Memory, blocks: Blocks, top: nat, x: nat, y: nat)
    requires Laid(mem, blocks, top) && x in blocks && y in blocks && x + blocks[x] == y && x < y
    ensures Laid(Swallow(mem, x, y), Joined(blocks, x, y), top)
    ensures Units(Joined(blocks, x, y), top) == Units(blocks, top)
  {
    UnitsDrop(blocks, top, y);
    UnitsPut(blocks - {y}, top, x, blocks[x] + blocks[y]);
  }

  /** Two touching neighbours become one block. */
  lemma JoinGood(mem: Memory, fl: seq<nat>, blocks: Blocks, top: nat, got: nat, k: nat, x: nat, y: nat)
    requires Good(mem, fl, blocks, top, got) && k + 1 < |fl| && x == fl[k] && y == fl[k + 1] && x + blocks[x] == y
    ensures Good(Swallow(mem, x, y), Removed(fl, k + 1), Joined(blocks, x, y), top, got)
  {
    RemoveListed(mem, fl, k, mem[x].size + mem[y].size);
    JoinLaid(mem, blocks, top, x, y);
  }

  lemma JoinApart(fl: seq<nat>, blocks: Blocks, k: nat, x: nat, y: nat, lo: nat)
    requires AllIn(fl, blocks) && Increasing(fl) && k + 1 < |fl| && x == fl[k] && y == fl[k + 1] && x + blocks[x] == y
    requires lo <= k && Apart(fl, blocks, lo, k + 1)
    ensures AllIn(Removed(fl, k + 1), Joined(blocks, x, y)) && Apart(Removed(fl, k + 1), Joined(blocks, x, y), lo, k)
  {
    var gl, bl := Removed(fl, k + 1), Joined(blocks, x, y);
    forall j | 0 <= j < |gl| ensures gl[j] in bl {
      assert gl[j] == if j <= k then fl[j] else fl[j + 1];
    }
    forall j | 0 <= j < |gl| - 1 && !(lo <= j < k) ensures gl[j] + bl[gl[j]] < gl[j + 1] {
      assert gl[j] == if j <= k then fl[j] else fl[j + 1];
      assert gl[j + 1] == if j + 1 <= k then fl[j + 1] else fl[j + 2];
    }
  }

  // ---- free ---------------------------------------------------------------------------------

  /** umalloc.c:33-37: the freed block takes over the next one, or points to it. */
  function FreeUpper(mem: Memory, p: nat, bp: nat): Memory
    requires p in mem && bp in mem && mem[p].ptr in mem
  {
    var next := mem[p].ptr;
    if bp + mem[bp].size == next then Swallow(mem, bp, next) else mem[bp := mem[bp].(ptr := next)]
  }

  /** umalloc.c:38-42: the block before takes over the freed one, or points to it. */
  function FreeLower(mem: Memory, p: nat, bp: nat): Memory
    requires p in mem && bp in mem
  {
    if p + mem[p].size == bp then Swallow(mem, p, bp) else mem[p := mem[p].(ptr := bp)]
  }

  /** The same as first linking the freed block in, then joining it with its neighbours. */
  lemma FreeUpperLinks(mem: Memory, p: nat, bp: nat, next: nat)
    requires p in mem && bp in mem && next in mem && next == mem[p].ptr && p < bp && (p < next ==> bp < next)
    ensures
      var linked := Link(mem, p, bp);
      FreeUpper(mem, p, bp)[p := linked[p]] == if bp + mem[bp].size == next then Swallow(linked, bp, next) else linked
  {
  }

  lemma FreeLowerLinks(m1: Memory, l1: Memory, p: nat, bp: nat)
    requires p in m1 && bp in m1 && p != bp && l1 == m1[p := m1[p].(ptr := bp)]
    ensures FreeLower(m1, p, bp) == if p + l1[p].size == bp then Swallow(l1, p, bp) else l1
  {
  }

  ghost predicate Covers(fl: seq<nat>, blocks: Blocks, k: nat, bp: nat, size: nat) {
    k < |fl| && fl[k] in blocks && fl[k] <= bp && bp + size <= fl[k] + blocks[fl[k]]
  }

  lemma InsertedElements(fl: seq<nat>, t: nat, bp: nat)
    requires t < |fl|
    ensures forall a :: a in Inserted(fl, t, bp) <==> a in fl || a == bp
  {
    assert fl == fl[..t + 1] + fl[t + 1..];
  }

  lemma RemovedElements(fl: seq<nat>, k: nat)
    requires k < |fl| && Increasing(fl)
    ensures forall a :: a in Removed(fl, k) <==> a in fl && a != fl[k]
  {
    var gl := Removed(fl, k);
    forall a | a in gl ensures a in fl && a != fl[k] {
      var i :| 0 <= i < |gl| && gl[i] == a;
      assert a == if i < k then fl[i] else fl[i + 1];
    }
    forall a | a in fl && a != fl[k] ensures a in gl {
      var i :| 0 <= i < |fl| && fl[i] == a;
      assert a == if i < k then gl[i] else gl[i - 1];
    }
  }

  /** Memory with the list and the blocks in it. */
  datatype View = View(mem: Memory, fl: seq<nat>, blocks: Blocks)

  ghost predicate Touch(v: View, k: nat) {
    && k + 1 < |v.fl| && v.fl[k] in v.blocks && v.fl[k + 1] in v.blocks && v.fl[k] in v.mem && v.fl[k + 1] in v.mem
    && v.fl[k] + v.blocks[v.fl[k]] == v.fl[k + 1]
  }

  /** The `k`th free block takes over the next if they touch. */
  ghost function Merged(v: View, k: nat): View {
    if Touch(v, k) then
      var x, y := v.fl[k], v.fl[k + 1];
      View(Swallow(v.mem, x, y), Removed(v.fl, k + 1), Joined(v.blocks, x, y))
    else v
  }

  /** `bp` is live no more; the other live blocks are as they were. */
  ghost predicate FreedInto(v: View, bp: nat, w: View) {
    forall a :: ((a in v.blocks && a !in v.fl && a != bp) <==> (a in w.blocks && a !in w.fl))
                && (a in w.blocks && a !in w.fl ==> v.blocks[a] == w.blocks[a])
  }

  ghost predicate SameLive(v: View, w: View) {
    forall a :: ((a in v.blocks && a !in v.fl) <==> (a in w.blocks && a !in w.fl))
                && (a in v.blocks && a !in v.fl ==> v.blocks[a] == w.blocks[a])
  }

  lemma MergedGood(v: View, top: nat, got: nat, k: nat, lo: nat)
    requires Good(v.mem, v.fl, v.blocks, top, got) && lo <= k && Apart(v.fl, v.blocks, lo, k + 1)
    ensures var w := Merged(v, k); Good(w.mem, w.fl, w.blocks, top, got) && Apart(w.fl, w.blocks, lo, k)
  {
    if Touch(v, k) {
      JoinGood(v.mem, v.fl, v.blocks, top, got, k, v.fl[k], v.fl[k + 1]);
      JoinApart(v.fl, v.blocks, k, v.fl[k], v.fl[k + 1], lo);
    } else if k + 1 < |v.fl| {
      assert v.fl[k] < v.fl[k + 1];
    }
  }

  lemma MergedLive(v: View, top: nat, got: nat, k: nat)
    requires Good(v.mem, v.fl, v.blocks, top, got)
    ensures SameLive(v, Merged(v, k))
  {
    if Touch(v, k) {
      RemovedElements(v.fl, k + 1);
    }
  }

  /** A free block stays inside a free block. */
  lemma MergedCovers(v: View, top: nat, got: nat, k: nat, i: nat, bp: nat, size: nat) returns (j: nat)
    requires Good(v.mem, v.fl, v.blocks, top, got) && Covers(v.fl, v.blocks, i, bp, size)
    ensures Covers(Merged(v, k).fl, Merged(v, k).blocks, j, bp, size) && (i <= k ==> j == i)
  {
    j := i;
    if Touch(v, k) {
      var w := Merged(v, k);
      if i > k {
        j := i - 1;
        assert w.fl[j] == if i == k + 1 then v.fl[k] else v.fl[i];
      } else {
        assert w.fl[j] == v.fl[i];
      }
    }
  }

  /** The list and blocks after free of `bp`, which belongs after the `t`th free block. */
  ghost function FreedView(v: View, t: nat, bp: nat): View
    requires t < |v.fl| && bp in v.mem && v.fl[t] in v.mem
  {
    Merged(Merged(View(Link(v.mem, v.fl[t], bp), Inserted(v.fl, t, bp), v.blocks), t + 1), t)
  }

  lemma FreedGood(v: View, top: nat, got: nat, t: nat, bp: nat)
    requires Heaped(v.mem, v.fl, v.blocks, top, got) && bp in v.blocks && Between(v.fl, t, bp)
    ensures var w := FreedView(v, t, bp); Heaped(w.mem, w.fl, w.blocks, top, got)
  {
    InsertGood(v.mem, v.fl, v.blocks, top, got, t, bp);
    var w := View(Link(v.mem, v.fl[t], bp), Inserted(v.fl, t, bp), v.blocks);
    MergedGood(w, top, got, t + 1, t);
    MergedGood(Merged(w, t + 1), top, got, t, t);
  }

  /** free takes `bp` from the live blocks, changes no other, and leaves its units in a free block. */
  lemma FreedLive(v: View, top: nat, got: nat, t: nat, bp: nat) returns (k: nat)
    requires Heaped(v.mem, v.fl, v.blocks, top, got) && bp in v.blocks && Between(v.fl, t, bp)
    ensures var w := FreedView(v, t, bp); FreedInto(v, bp, w) && Covers(w.fl, w.blocks, k, bp, v.blocks[bp])
                                          && t < |w.fl| && w.fl[t] == v.fl[t]
  {
    InsertGood(v.mem, v.fl, v.blocks, top, got, t, bp);
    InsertedElements(v.fl, t, bp);
    var w := View(Link(v.mem, v.fl[t], bp), Inserted(v.fl, t, bp), v.blocks);
    MergedGood(w, top, got, t + 1, t);
    MergedLive(w, top, got, t + 1);
    k := MergedCovers(w, top, got, t + 1, t + 1, bp, v.blocks[bp]);
    var x := Merged(w, t + 1);
    MergedLive(x, top, got, t);
    k := MergedCovers(x, top, got, t, k, bp, v.blocks[bp]);
  }

  /** The assignments of free produce that memory. */
  lemma FreedMemory(v: View, top: nat, got: nat, t: nat, bp: nat, p: nat)
    requires Heaped(v.mem, v.fl, v.blocks, top, got) && bp in v.blocks && Between(v.fl, t, bp) && p == v.fl[t]
    ensures LinkAt(v.mem, v.fl, t) && v.mem[p].ptr in v.mem
    ensures FreeLower(FreeUpper(v.mem, p, bp), p, bp) == FreedView(v, t, bp).mem
  {
    assert LinkAt(v.mem, v.fl, t);
    var next := v.mem[p].ptr;
    assert next == v.fl[Next(t, |v.fl|)] && next in v.blocks;
    assert p < next ==> t + 1 < |v.fl|;
    FreeUpperLinks(v.mem, p, bp, next);
    var w := View(Link(v.mem, p, bp), Inserted(v.fl, t, bp), v.blocks);
    assert w.fl[t] == p && w.fl[t + 1] == bp && (t + 1 < |v.fl| ==> w.fl[t + 2] == next);
    assert Touch(w, t + 1) <==> bp + v.mem[bp].size == next;
    var x := Merged(w, t + 1);
    assert x.fl[t] == p && x.fl[t + 1] == bp;
    FreeLowerLinks(FreeUpper(v.mem, p, bp), x.mem, p, bp);
    assert Touch(x, t) <==> p + v.mem[p].size == bp;
  }

  /** The heap after free, as its parts. */
  lemma FreedParts(v: View, top: nat, got: nat, t: nat, bp: nat, p: nat) returns (w: View, k: nat)
    requires Heaped(v.mem, v.fl, v.blocks, top, got) && bp in v.blocks && Between(v.fl, t, bp) && p == v.fl[t]
    ensures p in v.mem && bp in v.mem && v.mem[p].ptr in v.mem && w.mem == FreeLower(FreeUpper(v.mem, p, bp), p, bp)
    ensures Heaped(w.mem, w.fl, w.blocks, top, got) && FreedInto(v, bp, w) && p in w.fl
      && Covers(w.fl, w.blocks, k, bp, v.blocks[bp])
  {
    FreedMemory(v, top, got, t, bp, p);
    FreedGood(v, top, got, t, bp);
    k := FreedLive(v, top, got, t, bp);
    w := FreedView(v, t, bp);
  }

  // ---- malloc -------------------------------------------------------------------------------

  lemma RemoveApart(fl: seq<nat>, blocks: Blocks, j: nat, k: nat)
    requires AllIn(fl, blocks) && Increasing(fl) && k == j + 1 < |fl| && Apart(fl, blocks, 0, 0)
    ensures AllIn(Removed(fl, k), blocks) && Apart(Removed(fl, k), blocks, 0, 0)
  {
    var gl := Removed(fl, k);
    forall i | 0 <= i < |gl| ensures gl[i] in blocks {
      assert gl[i] == if i < k then fl[i] else fl[i + 1];
    }
    forall i | 0 <= i < |gl| - 1 ensures gl[i] + blocks[gl[i]] < gl[i + 1] {
      if i < j {
        assert gl[i] == fl[i] && gl[i + 1] == fl[i + 1];
      } else if i == j {
        assert gl[i] == fl[i] && gl[i + 1] == fl[i + 2] && fl[i] + blocks[fl[i]] < fl[i + 1];
      } else {
        assert gl[i] == fl[i + 1] && gl[i + 1] == fl[i + 2];
      }
    }
  }

  /** umalloc.c:77: the free block after `prevp` leaves the list. */
  lemma TakeWhole(v: View, top: nat, got: nat, j: nat, k: nat)
    requires Heaped(v.mem, v.fl, v.blocks, top, got) && k == j + 1 < |v.fl|
    ensures v.fl[j] in v.mem && v.fl[k] in v.mem
    ensures Heaped(v.mem[v.fl[j] := v.mem[v.fl[j]].(ptr := v.mem[v.fl[k]].ptr)], Removed(v.fl, k), v.blocks, top, got)
  {
    RemoveListed(v.mem, v.fl, j, v.mem[v.fl[j]].size);
    RemoveApart(v.fl, v.blocks, j, k);
  }

  /** umalloc.c:79-81: the last `n` units of the free block at `p` become a block at `q`. */
  function Cut(mem: Memory, p: nat, q: nat, n: nat): Memory
    requires p in mem && q in mem && n <= mem[p].size
  {
    var m := mem[p := mem[p].(size := mem[p].size - n)];
    m[q := m[q].(size := n)]
  }

  lemma CutLaid(mem: Memory, blocks: Blocks, top: nat, p: nat, q: nat, m: nat, n: nat)
    requires Laid(mem, blocks, top) && p in blocks && m > 0 && n > 0 && blocks[p] == m + n && q == p + m
    ensures q in mem && q !in blocks && Laid(Cut(mem, p, q, n), blocks[p := m][q := n], top)
    ensures Units(blocks[p := m][q := n], top) == Units(blocks, top)
  {
    assert q in mem;
    UnitsPut(blocks, top, p, m);
    UnitsPut(blocks[p := m], top, q, n);
  }

  lemma TakeTail(v: View, top: nat, got: nat, p: nat, q: nat, m: nat, n: nat)
    requires Heaped(v.mem, v.fl, v.blocks, top, got) && p in v.fl && p in v.blocks && m > 0 && n > 0
      && v.blocks[p] == m + n && q == p + m
    ensures q in v.mem && q !in v.blocks && p in v.mem
    ensures Heaped(Cut(v.mem, p, q, n), v.fl, v.blocks[p := m][q := n], top, got)
  {
    CutLaid(v.mem, v.blocks, top, p, q, m, n);
    forall k | 0 <= k < |v.fl| ensures LinkAt(Cut(v.mem, p, q, n), v.fl, k) {
      assert LinkAt(v.mem, v.fl, k);
    }
  }

  /** sbrk's new units, which the kernel has cleared. */
  function Cleared(hp: nat, nu: nat): (r: Memory)
    ensures forall u :: u in r <==> hp <= u < hp + nu
    ensures forall u | u in r :: r[u] == Header(0, 0)
  {
    if nu == 0 then map[] else Cleared(hp, nu - 1)[hp + nu - 1 := Header(0, 0)]
  }

  /** The new units with a header for all of them. */
  function Grown(mem: Memory, hp: nat, nu: nat): Memory {
    (mem + Cleared(hp, nu))[hp := Header(0, nu)]
  }

  lemma GrownLaid(mem: Memory, blocks: Blocks, top: nat, hp: nat, nu: nat, top': nat)
    requires Laid(mem, blocks, top) && top <= hp && nu > 0 && top' == hp + nu
    ensures Laid(Grown(mem, hp, nu), blocks[hp := nu], top')
  {
    var m, bl := Grown(mem, hp, nu), blocks[hp := nu];
    forall a, b | a in bl && b in bl && a < b ensures a + bl[a] <= b {
      if b == hp {
        assert bl[a] > 0 ==> a + bl[a] - 1 in mem;
      }
    }
    forall a, u | a in bl && a <= u < a + bl[a] ensures u in m {
      if a != hp {
        assert u in mem;
      }
    }
  }

  lemma GrownHeaped(v: View, top: nat, got: nat, hp: nat, nu: nat, top': nat, got': nat)
    requires Heaped(v.mem, v.fl, v.blocks, top, got) && top <= hp && nu > 0 && top' == hp + nu && got' == got + nu
    ensures Heaped(Grown(v.mem, hp, nu), v.fl, v.blocks[hp := nu], top', got')
  {
    GrownLaid(v.mem, v.blocks, top, hp, nu, top');
    forall k | 0 <= k < |v.fl| ensures LinkAt(Grown(v.mem, hp, nu), v.fl, k) {
      assert LinkAt(v.mem, v.fl, k);
    }
    UnitsAbove(v.blocks, top, top');
    UnitsPut(v.blocks, top', hp, nu);
  }

  // ---- What stays ---------------------------------------------------------------------------

  /** The unit at another block's header is not in the block. */
  lemma HeaderOutside(mem: Memory, blocks: Blocks, top: nat, a: nat, b: nat)
    requires Laid(mem, blocks, top) && a in blocks && b in blocks && a != b
    ensures !(a <= b < a + blocks[a])
  {
  }

  /** Every unit of the blocks in `live` is the same in both memories. */
  ghost predicate Untouched(m: Memory, w: Memory, live: Blocks) {
    forall a, u | a in live && a <= u < a + live[a] :: u in m && u in w && m[u] == w[u]
  }
}
