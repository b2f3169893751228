/** umalloc.c: malloc, free and morecore over a heap that grows by sbrk. */
module Heap {
  import opened HeapList
  import opened Results

  /** sizeof(Header). */
  const HEADER: nat := 8

  /** The least number of units morecore asks for. */
  const CHUNK: nat := 4096

  /** Header plus payload in units. */
  function NUnits(nbytes: nat): nat {
    (nbytes + HEADER - 1) / HEADER + 1
  }

  /** Advances along a list of `n` from place `k` to place `f`. */
  function Distance(k: nat, f: nat, n: nat): (d: int)
    ensures k < n && f < n ==> 0 <= d < n
  {
    if k <= f then f - k else f - k + n
  }

  ghost function LiveOf(fl: seq<nat>, blocks: Blocks): Blocks {
    map a | a in blocks && a !in fl && a != BASE :: blocks[a]
  }

  class Heap {
    var mem: Memory
    var freep: nat
    ghost var fl: seq<nat>
    ghost var blocks: Blocks
    ghost var top: nat          // above every unit
    ghost var got: nat          // units sbrk has given

    ghost predicate Ready()
      reads this
    {
      Heaped(mem, fl, blocks, top, got) && freep in fl
    }

    ghost predicate Valid()
      reads this
    {
      if freep == NULL then mem.Keys == {BASE} && fl == [] && blocks == map[BASE := 0] && top == BASE + 1 && got == 0
        else Ready()
    }

    /** The blocks that malloc gave and free has not taken back. */
    ghost function Live(): Blocks
      reads this
    {
      LiveOf(fl, blocks)
    }

    ghost function Now(): View
      reads this
    {
      View(mem, fl, blocks)
    }

    constructor ()
      ensures Valid() && Live() == map[] && got == 0
    {
      mem, freep := map[BASE := Header(0, 0)], NULL;
      fl, blocks, top, got := [], map[BASE := 0], BASE + 1, 0;
    }

    /** free's search: the free block after which `bp` belongs. */
    method Search(bp: nat) returns (p: nat, ghost t: nat)
      requires Ready() && bp in Live()
      ensures Between(fl, t, bp) && p == fl[t]
    {
      ghost var n := |fl|;
      t := Place(fl, bp);
      ghost var k :| 0 <= k < n && fl[k] == freep;
      p := freep;
      Stops(mem, fl, k, t, bp);
      while !(bp > p && bp < mem[p].ptr)
        invariant 0 <= k < n && p == fl[k] && p in mem && mem[p].ptr == fl[Next(k, n)]
        invariant (bp > p && bp < mem[p].ptr) || (p >= mem[p].ptr && (bp > p || bp < mem[p].ptr)) <==> k == t
        decreases Distance(k, t, n)
      {
        if p >= mem[p].ptr && (bp > p || bp < mem[p].ptr) {
          break;
        }
        p := mem[p].ptr;
        k := Next(k, n);
        Stops(mem, fl, k, t, bp);
      }
    }

    /** The assignments of free, once the place is found. */
    method Relink(p: nat, bp: nat)
      requires p in mem && bp in mem && mem[p].ptr in mem && p != bp
      modifies this`mem, this`freep
      ensures mem == FreeLower(FreeUpper(old(mem), p, bp), p, bp) && freep == p
    {
      var next := mem[p].ptr;
      if bp + mem[bp].size == next {
        mem := mem[bp := Header(mem[next].ptr, mem[bp].size + mem[next].size)];
      } else {
        mem := mem[bp := mem[bp].(ptr := next)];
      }
      if p + mem[p].size == bp {
        mem := mem[p := Header(mem[bp].ptr, mem[p].size + mem[bp].size)];
      } else {
        mem := mem[p := mem[p].(ptr := bp)];
      }
      freep := p;
    }

    /**
     * free of the block whose header is at `bp`: it is live no more and inside a free block; every other live block
     * keeps its size and all its units.
     */
    method Free(ap: nat, ghost bp: nat)
      requires Ready() && ap == bp + 1 && bp in Live()
      modifies this
      ensures Ready() && Live() == old(Live()) - {bp} && top == old(top) && got == old(got)
      ensures Untouched(old(mem), mem, Live())
      ensures exists k :: Covers(fl, blocks, k, bp, old(blocks)[bp])
    {
      var hp := ap - 1;
      var p, t := Search(hp);
      ghost var v := Now();
      ghost var w, k := Freed(v, top, got, t, bp, p);
      Relink(p, hp);
      fl, blocks := w.fl, w.blocks;
      assert Covers(fl, blocks, k, bp, v.blocks[bp]);
    }

    /** morecore: asks sbrk for `nu` units or more; if it gets them, some free block holds that many. */
    method Morecore(nu: nat, sbrk: Option<nat>) returns (p: nat)
      requires Ready() && nu > 0 && (sbrk.Some? ==> sbrk.value >= top)
      modifies this
      ensures Ready() && Live() == old(Live()) && Untouched(old(mem), mem, Live())
      ensures sbrk.None? ==> p == NULL && Now() == old(Now()) && got == old(got) && top == old(top)
                             && freep == old(freep)
      ensures sbrk.Some? ==> p == freep && got == old(got) + Asked(nu) && (exists k :: Fits(fl, blocks, k, nu))
    {
      var n := if nu < CHUNK then CHUNK else nu;
      if sbrk.None? {
        return NULL;
      }
      Extend(sbrk.value, n);
      ghost var k :| Fits(fl, blocks, k, n);
      assert Fits(fl, blocks, k, nu);
      return freep;
    }

    /** The rest of morecore: the new units become one block, which is freed at once. */
    method Extend(hp: nat, n: nat)
      requires Ready() && n > 0 && hp >= top
      modifies this
      ensures Ready() && Live() == old(Live()) && Untouched(old(mem), mem, Live()) && got == old(got) + n
      ensures exists k :: Fits(fl, blocks, k, n)
    {
      ghost var m, live := mem, Live();
      Obtain(hp, n);
      ghost var m1 := mem;
      Free(hp + 1, hp);
      PutAndDrop(live, hp, n);
      UntouchedTwice(m, m1, mem, live);
      ghost var k :| Covers(fl, blocks, k, hp, n);
      assert Fits(fl, blocks, k, n);
    }

    /** sbrk's effect, and the header for the new units. */
    method Obtain(hp: nat, n: nat)
      requires Ready() && n > 0 && hp >= top
      modifies this
      ensures Ready() && Live() == old(Live())[hp := n] && hp !in old(Live()) && Untouched(old(mem), mem, old(Live()))
      ensures got == old(got) + n && blocks == old(blocks)[hp := n] && fl == old(fl)
    {
      ghost var v, top', got' := Now(), hp + n, got + n;
      ghost var m := Obtained(v, top, got, hp, n, top', got');
      mem := Grown(mem, hp, n);
      blocks, top, got := blocks[hp := n], top', got';
    }

    /** umalloc.c:76-84: takes the block at `p`, or the end of it. */
    method Take(prevp: nat, p: nat, n: nat, ghost j: nat) returns (q: nat)
      requires Ready() && n > 0 && j < |fl| && prevp == fl[j] && p == fl[Next(j, |fl|)] && p in mem && mem[p].size >= n
      modifies this
      ensures Ready() && q !in old(Live()) && Live() == old(Live())[q := n] && Untouched(old(mem), mem, old(Live()))
      ensures got == old(got) && top == old(top)
    {
      assert LinkAt(mem, fl, j);
      if mem[p].size == n {
        TakeAll(prevp, p, n, j, j + 1);
        q := p;
      } else {
        q := TakeEnd(p, n);
      }
      freep := prevp;
    }

    method TakeAll(prevp: nat, p: nat, n: nat, ghost j: nat, ghost k: nat)
      requires Ready() && n > 0 && k == j + 1 < |fl| && prevp == fl[j] && p == fl[k] && p in mem && mem[p].size == n
      modifies this`mem, this`fl
      ensures Heaped(mem, fl, blocks, top, got) && prevp in fl
      ensures p !in old(Live()) && Live() == old(Live())[p := n] && Untouched(old(mem), mem, old(Live()))
    {
      ghost var v := Now();
      ghost var w := TookWhole(v, top, got, j, k, n);
      mem := mem[prevp := mem[prevp].(ptr := mem[p].ptr)];
      fl := w.fl;
    }

    method TakeEnd(p: nat, n: nat) returns (q: nat)
      requires Ready() && p in fl && p in mem && 0 < n < mem[p].size
      modifies this`mem, this`blocks
      ensures Heaped(mem, fl, blocks, top, got)
      ensures q !in old(Live()) && Live() == old(Live())[q := n] && Untouched(old(mem), mem, old(Live()))
    {
      q := p + (mem[p].size - n);
      ghost var v := Now();
      ghost var m := mem[p].size - n;
      ghost var w := TookTail(v, top, got, p, q, m, n);
      mem := mem[p := mem[p].(size := mem[p].size - n)];
      mem := mem[q := mem[q].(size := n)];
      blocks := w.blocks;
    }

    /** umalloc.c:71-72. */
    method Start()
      requires Valid() && freep == NULL
      modifies this`mem, this`freep, this`fl
      ensures Ready() && Live() == old(Live()) == map[] && fl == [BASE] && freep == BASE
    {
      mem := mem[BASE := Header(BASE, 0)];
      freep, fl := BASE, [BASE];
      assert LinkAt(mem, fl, 0);
      assert Units(blocks, top) == Units(blocks, 1) + 0;
    }

    /** Asks for core at the end of a lap; `f` is the place of the new freep. */
    method Refill(n: nat, sbrk: Option<nat>) returns (p: nat, ghost f: nat)
      requires Ready() && n > 0 && (sbrk.Some? ==> sbrk.value >= top)
      modifies this
      ensures Ready() && Live() == old(Live()) && Untouched(old(mem), mem, Live())
      ensures p == NULL <==> sbrk.None?
      ensures sbrk.None? ==> got == old(got)
      ensures sbrk.Some? ==> p == freep && got == old(got) + Asked(n) && f < |fl| && fl[f] == p
                             && Hunt(fl, blocks, f, Next(f, |fl|), n, 1)
    {
      p := Morecore(n, sbrk);
      f := 0;
      if p != NULL {
        f :| 0 <= f < |fl| && fl[f] == freep;
        ghost var i :| Fits(fl, blocks, i, n);
        assert Ahead(fl, blocks, f, Next(f, |fl|), n, i);
      }
    }

    /** umalloc.c:86-88: the block at `p` is too small; at the end of the lap malloc asks for more. */
    method Turn(n: nat, sbrk: Option<nat>, p: nat, ghost f: nat, ghost k: nat, ghost asked: nat)
      returns (p': nat, ghost f': nat, ghost k': nat, ghost asked': nat)
      requires Ready() && n > 0 && f < |fl| && freep == fl[f] && k < |fl| && p == fl[k] && p in mem && mem[p].size < n
      requires Hunt(fl, blocks, f, k, n, asked) && (asked == 0 && sbrk.Some? ==> sbrk.value >= top)
      modifies this
      ensures Ready() && Live() == old(Live()) && Untouched(old(mem), mem, Live())
      ensures p' == NULL ==> asked' != asked
      ensures p' != NULL ==> f' < |fl| && freep == fl[f'] && k' < |fl| && p' == fl[k']
                             && Hunt(fl, blocks, f', Next(k', |fl|), n, asked')
      ensures asked' == asked ==> p' == p && Now() == old(Now()) && got == old(got) && top == old(top) && f' == f
                                  && k' == k
      ensures asked' == asked ==> Distance(Next(k, |fl|), f, |fl|) == Distance(k, f, |fl|) - 1
      ensures asked' != asked ==> asked == 0 && asked' == 1 && NoneFits(old(fl), old(blocks), n)
      ensures asked' != asked ==> (p' == NULL <==> sbrk.None?) && got == old(got) + if sbrk.Some? then Asked(n) else 0
    {
      if p == freep {
        Around(fl, blocks, f, k, n, asked);
        p', f' := Refill(n, sbrk);
        k', asked' := f', 1;
      } else {
        Onward(fl, blocks, f, k, n, asked);
        p', f', k', asked' := p, f, k, asked;
      }
    }

    /** One round of malloc's loop. */
    method Hop(n: nat, sbrk: Option<nat>, p: nat, ghost f: nat, ghost k: nat, ghost asked: nat)
      returns (prevp: nat, p': nat, ghost f': nat, ghost j': nat, ghost k': nat, ghost asked': nat)
      requires Ready() && n > 0 && f < |fl| && freep == fl[f] && k < |fl| && p == fl[k] && p in mem && mem[p].size < n
      requires Hunt(fl, blocks, f, k, n, asked) && (asked == 0 && sbrk.Some? ==> sbrk.value >= top)
      modifies this
      ensures Ready() && Live() == old(Live()) && Untouched(old(mem), mem, Live())
      ensures p' == NULL ==> asked' != asked
      ensures p' != NULL ==> At(fl, f', j', k', freep, prevp, p') && p' in mem && Hunt(fl, blocks, f', k', n, asked')
      ensures asked' == asked ==> Now() == old(Now()) && got == old(got) && top == old(top) && f' == f
                                  && Distance(k', f, |fl|) == Distance(k, f, |fl|) - 1
      ensures asked' != asked ==> asked == 0 && asked' == 1 && NoneFits(old(fl), old(blocks), n)
      ensures asked' != asked ==> (p' == NULL <==> sbrk.None?) && got == old(got) + if sbrk.Some? then Asked(n) else 0
    {
      prevp, f', j', asked' := Turn(n, sbrk, p, f, k, asked);
      k', p' := 0, NULL;
      if prevp != NULL {
        assert LinkAt(mem, fl, j');
        p', k' := mem[prevp].ptr, Next(j', |fl|);
      }
    }

    /**
     * malloc's loop, up to the first block met that is large enough: `p` at place after `prevp`, NULL if there is
     * none.
     */
    method Hunted(n: nat, sbrk: Option<nat>) returns (prevp: nat, p: nat, ghost j: nat, ghost asked: nat)
      requires Ready() && n > 0 && (sbrk.Some? ==> sbrk.value >= top)
      modifies this
      ensures Ready() && Live() == old(Live()) && Untouched(old(mem), mem, Live()) && asked <= 1
      ensures p == NULL <==> asked == 1 && sbrk.None?
      ensures p != NULL ==> j < |fl| && prevp == fl[j] && p == fl[Next(j, |fl|)] && p in mem && mem[p].size >= n
      ensures got == old(got) + if asked == 1 && sbrk.Some? then Asked(n) else 0
      ensures asked == 1 <==> NoneFits(old(fl), old(blocks), n)
    {
      ghost var v, live, before := Now(), Live(), got;
      asked, prevp := 0, freep;
      ghost var f: nat :| f < |fl| && fl[f] == freep;
      j := f;
      ghost var k := Next(f, |fl|);
      assert LinkAt(mem, fl, j) && Hunt(fl, blocks, f, k, n, 0);
      p := mem[prevp].ptr;
      while mem[p].size < n
        invariant Ready() && Live() == live && Untouched(v.mem, mem, live) && asked <= 1
        invariant At(fl, f, j, k, freep, prevp, p) && p in mem && Hunt(fl, blocks, f, k, n, asked)
        invariant asked == 0 ==> Now() == v && top == old(top)
        invariant asked == 1 ==> sbrk.Some? && NoneFits(v.fl, v.blocks, n)
        invariant got == before + if asked == 1 then Asked(n) else 0
        decreases 1 - asked, Distance(k, f, |fl|)
      {
        ghost var m := mem;
        prevp, p, f, j, k, asked := Hop(n, sbrk, p, f, k, asked);
        UntouchedTwice(v.mem, m, mem, live);
        if p == NULL {
          return;
        }
      }
      assert asked == 0 ==> Fits(v.fl, v.blocks, k, n);
    }

    /**
     * malloc: a new live block with room for `nbytes` bytes behind its header, or NULL. sbrk is asked at most once, and
     * only if no free block is large enough; the result is NULL only if sbrk then refuses.
     */
    method Malloc(nbytes: nat, sbrk: Option<nat>) returns (r: nat, ghost q: nat, ghost asked: nat)
      requires Valid() && (sbrk.Some? ==> sbrk.value >= top)
      modifies this
      ensures Ready() && asked <= 1 && Untouched(old(mem), mem, old(Live()))
      ensures r == NULL <==> asked == 1 && sbrk.None?
      ensures r == NULL ==> Live() == old(Live())
      ensures r != NULL ==> r == q + 1 && q !in old(Live()) && Live() == old(Live())[q := NUnits(nbytes)]
      ensures HEADER * (NUnits(nbytes) - 1) >= nbytes
      ensures got == old(got) + if asked == 1 && sbrk.Some? then Asked(NUnits(nbytes)) else 0
      ensures asked == 1 <==> NoneFits(old(fl), old(blocks), NUnits(nbytes))
    {
      var n := NUnits(nbytes);
      if freep == NULL {
        Start();
      }
      ghost var m, live := mem, Live();
      var prevp, p;
      ghost var j;
      prevp, p, j, asked := Hunted(n, sbrk);
      if p == NULL {
        return NULL, 0, asked;
      }
      ghost var m1 := mem;
      var hp := Take(prevp, p, n, j);
      UntouchedTwice(m, m1, mem, live);
      return hp + 1, hp, asked;
    }
  }

  /** malloc is at `p`, the free block after `prevp`. */
  ghost predicate At(fl: seq<nat>, f: nat, j: nat, k: nat, freep: nat, prevp: nat, p: nat) {
    f < |fl| && j < |fl| && freep == fl[f] && prevp == fl[j] && k == Next(j, |fl|) && p == fl[k]
  }

  ghost predicate NoneFits(fl: seq<nat>, blocks: Blocks, n: nat) {
    forall i :: !Fits(fl, blocks, i, n)
  }

  /** A block that is large enough comes at place `i`, before the lap ends at `f`. */
  ghost predicate Ahead(fl: seq<nat>, blocks: Blocks, f: nat, k: nat, n: nat, i: nat) {
    Fits(fl, blocks, i, n) && Distance(i, f, |fl|) <= Distance(k, f, |fl|)
  }

  /**
   * Before sbrk: the blocks met on the lap that ends at `f` were too small. After: one that is large enough is
   * ahead.
   */
  ghost predicate Hunt(fl: seq<nat>, blocks: Blocks, f: nat, k: nat, n: nat, asked: nat) {
    if asked == 0 then forall i :: Fits(fl, blocks, i, n) ==> Ahead(fl, blocks, f, k, n, i)
    else exists i :: Ahead(fl, blocks, f, k, n, i)
  }

  lemma Onward(fl: seq<nat>, blocks: Blocks, f: nat, k: nat, n: nat, asked: nat)
    requires f < |fl| && k < |fl| && k != f && Hunt(fl, blocks, f, k, n, asked) && !Fits(fl, blocks, k, n)
    ensures Hunt(fl, blocks, f, Next(k, |fl|), n, asked) && Distance(Next(k, |fl|), f, |fl|) == Distance(k, f, |fl|) - 1
  {
    if asked == 0 {
      forall i | Fits(fl, blocks, i, n) ensures Ahead(fl, blocks, f, Next(k, |fl|), n, i) {
        assert Ahead(fl, blocks, f, k, n, i);
      }
    } else {
      var i :| Ahead(fl, blocks, f, k, n, i);
      assert Ahead(fl, blocks, f, Next(k, |fl|), n, i);
    }
  }

  /** A lap that ends without success was the first, and nothing fits: after sbrk there is no second. */
  lemma Around(fl: seq<nat>, blocks: Blocks, f: nat, k: nat, n: nat, asked: nat)
    requires f < |fl| && k < |fl| && fl[k] == fl[f] && Increasing(fl) && Hunt(fl, blocks, f, k, n, asked)
      && !Fits(fl, blocks, k, n)
    ensures asked == 0 && NoneFits(fl, blocks, n)
  {
    assert k == f;
    if i: nat :| Ahead(fl, blocks, f, k, n, i) {
      assert false;
    }
  }

  lemma TookWhole(v: View, top: nat, got: nat, j: nat, k: nat, n: nat) returns (w: View)
    requires Heaped(v.mem, v.fl, v.blocks, top, got) && k == j + 1 < |v.fl| && n > 0 && v.blocks[v.fl[k]] == n
    ensures v.fl[j] in v.mem && v.fl[k] in v.mem && v.fl[j] in w.fl && w.blocks == v.blocks
    ensures w.mem == v.mem[v.fl[j] := v.mem[v.fl[j]].(ptr := v.mem[v.fl[k]].ptr)]
    ensures Heaped(w.mem, w.fl, w.blocks, top, got) && Untouched(v.mem, w.mem, LiveOf(v.fl, v.blocks))
    ensures v.fl[k] !in LiveOf(v.fl, v.blocks) && LiveOf(w.fl, w.blocks) == LiveOf(v.fl, v.blocks)[v.fl[k] := n]
  {
    TakeWhole(v, top, got, j, k);
    RemovedElements(v.fl, k);
    assert v.fl[j] < v.fl[k];
    w := View(v.mem[v.fl[j] := v.mem[v.fl[j]].(ptr := v.mem[v.fl[k]].ptr)], Removed(v.fl, k), v.blocks);
    forall a, u | a in LiveOf(v.fl, v.blocks) && a <= u < a + v.blocks[a] ensures u in v.mem && u != v.fl[j] {
      HeaderOutside(v.mem, v.blocks, top, a, v.fl[j]);
    }
  }

  lemma TookTail(v: View, top: nat, got: nat, p: nat, q: nat, m: nat, n: nat) returns (w: View)
    requires Heaped(v.mem, v.fl, v.blocks, top, got) && p in v.fl && p in v.blocks && m > 0 && n > 0
      && v.blocks[p] == m + n && q == p + m
    ensures q in v.mem && p in v.mem && q !in v.blocks && w.mem == Cut(v.mem, p, q, n) && w.fl == v.fl
    ensures Heaped(w.mem, w.fl, w.blocks, top, got) && Untouched(v.mem, w.mem, LiveOf(v.fl, v.blocks))
    ensures LiveOf(w.fl, w.blocks) == LiveOf(v.fl, v.blocks)[q := n]
  {
    TakeTail(v, top, got, p, q, m, n);
    var cut := v.blocks[p := m];
    w := View(Cut(v.mem, p, q, n), v.fl, cut[q := n]);
    CutLive(v.fl, v.blocks, p, q, m, n);
    CutUntouched(v.mem, v.fl, v.blocks, top, p, q, n);
  }

  lemma CutUntouched(mem: Memory, fl: seq<nat>, blocks: Blocks, top: nat, p: nat, q: nat, n: nat)
    requires Laid(mem, blocks, top) && p in fl && p in blocks && 0 < n < blocks[p] && q == p + blocks[p] - n && q in mem
    ensures Untouched(mem, Cut(mem, p, q, n), LiveOf(fl, blocks))
  {
    forall a, u | a in LiveOf(fl, blocks) && a <= u < a + blocks[a] ensures u in mem && u != p && u != q {
      HeaderOutside(mem, blocks, top, a, p);
    }
  }

  lemma CutLive(fl: seq<nat>, blocks: Blocks, p: nat, q: nat, m: nat, n: nat)
    requires p in fl && q !in blocks && BASE in blocks && forall a | a in fl :: a in blocks
    ensures LiveOf(fl, blocks[p := m][q := n]) == LiveOf(fl, blocks)[q := n]
  {
  }

  /** What morecore asks for when malloc needs `nu` units. */
  function Asked(nu: nat): nat {
    if nu < CHUNK then CHUNK else nu
  }

  /** The `k`th free block has at least `n` units. */
  ghost predicate Fits(fl: seq<nat>, blocks: Blocks, k: nat, n: nat) {
    k < |fl| && fl[k] in blocks && blocks[fl[k]] >= n
  }

  lemma PutAndDrop(live: Blocks, hp: nat, n: nat)
    requires hp !in live
    ensures live[hp := n] - {hp} == live
  {
  }

  lemma UntouchedTwice(m: Memory, m1: Memory, m2: Memory, live: Blocks)
    requires Untouched(m, m1, live) && Untouched(m1, m2, live)
    ensures Untouched(m, m2, live)
  {
  }

  lemma Obtained(v: View, top: nat, got: nat, hp: nat, n: nat, top': nat, got': nat) returns (m: Memory)
    requires Heaped(v.mem, v.fl, v.blocks, top, got) && n > 0 && hp >= top && top' == hp + n && got' == got + n
    ensures m == Grown(v.mem, hp, n) && Heaped(m, v.fl, v.blocks[hp := n], top', got') && hp !in v.blocks
    ensures LiveOf(v.fl, v.blocks[hp := n]) == LiveOf(v.fl, v.blocks)[hp := n]
      && Untouched(v.mem, m, LiveOf(v.fl, v.blocks))
  {
    m := Grown(v.mem, hp, n);
    GrownHeaped(v, top, got, hp, n, top', got');
    Beyond(v, top, got, hp);
    GrownLive(v.fl, v.blocks, hp, n);
    GrownUntouched(v.mem, LiveOf(v.fl, v.blocks), hp, n);
  }

  lemma GrownLive(fl: seq<nat>, blocks: Blocks, hp: nat, n: nat)
    requires hp !in fl && hp !in blocks && BASE in blocks
    ensures LiveOf(fl, blocks[hp := n]) == LiveOf(fl, blocks)[hp := n]
  {
  }

  lemma GrownUntouched(mem: Memory, live: Blocks, hp: nat, n: nat)
    requires n > 0 && forall a, u | a in live && a <= u < a + live[a] :: u in mem && u < hp
    ensures Untouched(mem, Grown(mem, hp, n), live)
  {
  }

  /** Nothing of the heap is at or above the top. */
  lemma Beyond(v: View, top: nat, got: nat, hp: nat)
    requires Heaped(v.mem, v.fl, v.blocks, top, got) && hp >= top
    ensures hp !in v.fl && hp !in v.blocks
    ensures forall a, u | a in v.blocks && a <= u < a + v.blocks[a] :: u in v.mem && u < hp
  {
  }

  /** All about what free does. */
  lemma Freed(v: View, top: nat, got: nat, t: nat, bp: nat, p: nat) returns (w: View, k: nat)
    requires Heaped(v.mem, v.fl, v.blocks, top, got) && bp in LiveOf(v.fl, v.blocks) && Between(v.fl, t, bp)
      && p == v.fl[t]
    ensures p in v.mem && bp in v.mem && v.mem[p].ptr in v.mem && w.mem == FreeLower(FreeUpper(v.mem, p, bp), p, bp)
    ensures Heaped(w.mem, w.fl, w.blocks, top, got) && p in w.fl && Covers(w.fl, w.blocks, k, bp, v.blocks[bp])
    ensures LiveOf(w.fl, w.blocks) == LiveOf(v.fl, v.blocks) - {bp} && Untouched(v.mem, w.mem, LiveOf(w.fl, w.blocks))
  {
    w, k := FreedParts(v, top, got, t, bp, p);
    FreedFromLive(v, bp, w);
    FreedUntouched(v, top, bp, p);
  }

  lemma FreedFromLive(v: View, bp: nat, w: View)
    requires FreedInto(v, bp, w)
    ensures LiveOf(w.fl, w.blocks) == LiveOf(v.fl, v.blocks) - {bp}
  {
  }

  /** The search stops at the right place and at no other. */
  lemma Stops(mem: Memory, fl: seq<nat>, k: nat, t: nat, bp: nat)
    requires Listed(mem, fl) && k < |fl| && Between(fl, t, bp) && bp !in fl
    ensures fl[k] in mem && mem[fl[k]].ptr == fl[Next(k, |fl|)]
    ensures
      var p, next := fl[k], mem[fl[k]].ptr;
      (bp > p && bp < next) || (p >= next && (bp > p || bp < next)) <==> k == t
  {
    assert LinkAt(mem, fl, k);
  }

  /** free writes to two headers only, and to no unit of a block that stays live. */
  lemma FreedUntouched(v: View, top: nat, bp: nat, p: nat)
    requires Laid(v.mem, v.blocks, top) && bp in v.blocks && p in v.fl && p in v.blocks && v.mem[p].ptr in v.mem
    ensures Untouched(v.mem, FreeLower(FreeUpper(v.mem, p, bp), p, bp), LiveOf(v.fl, v.blocks) - {bp})
  {
    forall a, u | a in LiveOf(v.fl, v.blocks) - {bp} && a <= u < a + v.blocks[a]
      ensures u in v.mem && u != bp && u != p
    {
      HeaderOutside(v.mem, v.blocks, top, a, bp);
      HeaderOutside(v.mem, v.blocks, top, a, p);
    }
  }

  /** The last place of an address below `bp`. */
  ghost function Place(fl: seq<nat>, bp: nat): (t: nat)
    requires |fl| > 0 && fl[0] < bp && bp !in fl && Increasing(fl)
    ensures Between(fl, t, bp)
  {
    if |fl| == 1 || bp < fl[1] then 0 else 1 + Place(fl[1..], bp)
  }

  ghost function FreeOf(fl: seq<nat>, blocks: Blocks): Blocks {
    map a | a in blocks && (a in fl || a == BASE) :: blocks[a]
  }

  lemma {:induction false} UnitsSplit(fl: seq<nat>, blocks: Blocks, n: nat)
    ensures Units(FreeOf(fl, blocks), n) + Units(LiveOf(fl, blocks), n) == Units(blocks, n)
  {
    if n > 0 {
      UnitsSplit(fl, blocks, n - 1);
    }
  }

  /** Free and live blocks together have exactly the units that sbrk gave, and no two of them share one. */
  lemma Conservation(h: Heap)
    requires h.Ready()
    ensures Units(FreeOf(h.fl, h.blocks), h.top) + Units(h.Live(), h.top) == h.got
    ensures forall a, b | a in h.blocks && b in h.blocks && a < b :: a + h.blocks[a] <= b
    ensures forall k | 0 <= k < |h.fl| - 1 :: h.fl[k] in h.blocks && h.fl[k] + h.blocks[h.fl[k]] < h.fl[k + 1]
  {
    UnitsSplit(h.fl, h.blocks, h.top);
  }
}
