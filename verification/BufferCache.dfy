/** bio.c: a least-recently-used write-back cache of disk blocks, and the block store it stands for. */
module BufferCache {
  import opened Blocks
  import opened BufferRing
  import LP = LogProtocol
  import opened Results

  /** The panics of bio.c and memide.c. */
  datatype Reason = NoBuffers | NotHeld | NothingToDo | NotDisk1 | OutOfRange

  const ROOTDEV := 1

  /** The buffer holds a block of the disk. */
  predicate Holding(b: Buf) {
    b.dev == ROOTDEV && b.valid
  }

  predicate Is(b: Buf, dev: nat, blockno: nat) {
    b.dev == dev && b.blockno == blockno
  }

  /** bget may recycle it. */
  predicate Idle(b: Buf) {
    b.refcnt == 0 && !b.dirty
  }

  /** The cache as LogProtocol sees it. */
  type Cached = map<nat, LP.Buf>

  function Shown(b: Buf): LP.Buf {
    LP.Buf(b.data, b.dirty, b.lock)
  }

  predicate Unlogged(b: LP.Buf) {
    b.holder.Held? && b.holder.changed
  }

  predicate Settled(lock: LP.Holder) {
    lock.Held? ==> !lock.changed
  }

  // ---- Invariants over the slots ------------------------------------------------------------

  /**
   * For real devices no two buffers are for the same block; locked buffers are in use, dirty ones
   * have data, and data is of the one disk.
   */
  ghost predicate SlotsOk(s: seq<Buf>, nbuf: nat)
    requires nbuf <= |s|
  {
    && (forall i, j | 0 <= i < j < nbuf && s[i].dev != 0 :: !Is(s[j], s[i].dev, s[i].blockno))
    && (forall i | 0 <= i < nbuf && s[i].lock.Held? :: s[i].refcnt > 0)
    && (forall i | 0 <= i < nbuf && s[i].dirty :: s[i].valid)
    && (forall i | 0 <= i < nbuf && s[i].valid :: s[i].dev == ROOTDEV)
  }

  /** `at` says which slot holds each cached block. */
  ghost predicate Shows(s: seq<Buf>, nbuf: nat, view: Cached, at: map<nat, nat>)
    requires nbuf <= |s|
  {
    && view.Keys == at.Keys
    && (forall i | 0 <= i < nbuf && Holding(s[i]) :: s[i].blockno in at && at[s[i].blockno] == i)
    && (forall b | b in at :: at[b] < nbuf && Holding(s[at[b]]) && s[at[b]].blockno == b && view[b] == Shown(s[at[b]]))
  }

  /** Clean buffers equal the disk; buffers nobody is changing, or else the disk, are the last logical write. */
  ghost predicate Coherent(view: Cached, disk: LP.Disk, logical: LP.Disk) {
    && |disk| == |logical|
    && (forall b | b in view :: b < |disk|)
    && (forall b | b in view && !Unlogged(view[b]) ::
        view[b].data == logical[b] && (!view[b].dirty ==> view[b].data == disk[b]))
    && (forall b | 0 <= b < |disk| && b !in view :: disk[b] == logical[b])
  }

  lemma RingKept(s: seq<Buf>, t: seq<Buf>, head: nat, order: seq<nat>)
    requires Ring(s, head, order) && |t| == |s| && forall i | 0 <= i < |s| ::
              t[i].prev == s[i].prev && t[i].next == s[i].next
    ensures Ring(t, head, order)
  {
    forall k | 0 <= k <= |order| ensures Linked(t, Chain(head, order)[k], Chain(head, order)[k + 1]) {
      assert Linked(s, Chain(head, order)[k], Chain(head, order)[k + 1]);
    }
  }

  /** A buffer without data may change its count and lock. */
  lemma SlotUnseen(s: seq<Buf>, nbuf: nat, view: Cached, at: map<nat, nat>, i: nat, b: Buf)
    requires nbuf <= |s| && SlotsOk(s, nbuf) && Shows(s, nbuf, view, at) && i < nbuf && !s[i].valid && !b.valid
      && !b.dirty
    requires Is(b, s[i].dev, s[i].blockno) && (b.lock.Held? ==> b.refcnt > 0)
    ensures SlotsOk(s[i := b], nbuf) && Shows(s[i := b], nbuf, view, at)
  {
  }

  /** A buffer that stays with its block may get data, or change anything else. */
  lemma SlotPut(s: seq<Buf>, nbuf: nat, view: Cached, at: map<nat, nat>, i: nat, b: Buf)
    requires nbuf <= |s| && SlotsOk(s, nbuf) && Shows(s, nbuf, view, at) && i < nbuf && s[i].dev == ROOTDEV
    requires Holding(b) && b.blockno == s[i].blockno && (b.lock.Held? ==> b.refcnt > 0)
    ensures SlotsOk(s[i := b], nbuf) && Shows(s[i := b], nbuf, view[b.blockno := Shown(b)], at[b.blockno := i])
    ensures s[i].valid <==> b.blockno in view
    ensures s[i].valid ==> view[b.blockno] == Shown(s[i]) && at[b.blockno := i] == at
  {
    if !s[i].valid && b.blockno in at {
      var j := at[b.blockno];
      assert j != i && Is(s[j], ROOTDEV, b.blockno);
      assert false;
    }
  }

  /** A change of holder between two holders with nothing unlogged. */
  lemma SettledCoherent(view: Cached, disk: LP.Disk, logical: LP.Disk, b: nat, w: LP.Buf)
    requires Coherent(view, disk, logical) && b in view && Settled(view[b].holder) && Settled(w.holder)
    requires w == view[b].(holder := w.holder)
    ensures Coherent(view[b := w], disk, logical)
  {
  }

  /** The block in one buffer changes, with the disk and the last logical write at that block. */
  lemma CoherentPut(view: Cached, disk: LP.Disk, logical: LP.Disk, b: nat, w: LP.Buf, onDisk: Block, last: Block)
    requires Coherent(view, disk, logical) && b < |disk|
    requires !Unlogged(w) ==> w.data == last && (!w.dirty ==> last == onDisk)
    ensures Coherent(view[b := w], disk[b := onDisk], logical[b := last])
  {
  }

  /** A recycled buffer forgets its old block and is the only one for its new one. */
  lemma SlotRecycled(s: seq<Buf>, nbuf: nat, view: Cached, at: map<nat, nat>, i: nat, b: Buf, gone: set<nat>)
    requires nbuf <= |s| && SlotsOk(s, nbuf) && Shows(s, nbuf, view, at) && i < nbuf
    requires gone == (if Holding(s[i]) then {s[i].blockno} else {})
    requires forall j | 0 <= j < nbuf :: !Is(s[j], b.dev, b.blockno)
    requires !b.valid && !b.dirty && !b.lock.Held?
    ensures SlotsOk(s[i := b], nbuf) && Shows(s[i := b], nbuf, view - gone, at - gone)
  {
  }

  /** What bget evicts is clean and in nobody's hands, so the disk already has it. */
  lemma EvictCoherent(view: Cached, disk: LP.Disk, logical: LP.Disk, gone: set<nat>)
    requires Coherent(view, disk, logical) && forall b | b in gone ::
              b in view && !view[b].dirty && view[b].holder == LP.NoOne
    ensures Coherent(view - gone, disk, logical)
  {
  }

  /** The `k`th most recently used buffer may be recycled, and none after it. */
  ghost predicate LeastRecent(s: seq<Buf>, order: seq<nat>, k: nat, i: nat) {
    && k < |order| && order[k] == i < |s| && Idle(s[i])
    && forall j | k < j < |order| && order[j] < |s| :: !Idle(s[order[j]])
  }

  /** A recycled buffer: it has a block but not yet its data. */
  function Blank(b: Buf, dev: nat, blockno: nat): Buf {
    b.(dev := dev, blockno := blockno, valid := false, dirty := false, refcnt := 1)
  }

  /** Slot `i` had the block; bget counted one more reference to it. */
  ghost predicate Hit(s: seq<Buf>, t: seq<Buf>, dev: nat, blockno: nat, i: nat) {
    i < |s| && Is(s[i], dev, blockno) && t == s[i := s[i].(refcnt := s[i].refcnt + 1)]
  }

  /** No buffer had the block; bget gave it the least recently used idle one. */
  ghost predicate Missed(s: seq<Buf>, t: seq<Buf>, nbuf: nat, order: seq<nat>, dev: nat, blockno: nat, i: nat) {
    && nbuf <= |s| && i < |s| && (forall j | 0 <= j < nbuf :: !Is(s[j], dev, blockno))
    && (exists k :: LeastRecent(s, order, k, i))
    && t == s[i := Blank(s[i], dev, blockno)]
  }

  /** Each block of `gone` may leave the cache. */
  ghost predicate Evictable(view: Cached, gone: set<nat>) {
    forall b | b in gone :: b in view && view[b].holder == LP.NoOne && !view[b].dirty
  }

  predicate HeldBy(b: Buf, p: nat) {
    b.lock.Held? && b.lock.who == p
  }

  /** iderw's panics in its order, or the data that buffer and disk share afterwards. */
  function IderwOutcome(b: Buf, p: nat, disk: LP.Disk): Outcome<Block, Reason> {
    if !HeldBy(b, p) then Panic(NotHeld)
    else if b.valid && !b.dirty then Panic(NothingToDo)
    else if b.dev != ROOTDEV then Panic(NotDisk1)
    else if b.blockno >= |disk| then Panic(OutOfRange)
    else Ok(if b.dirty then b.data else disk[b.blockno])
  }

  /** The buffer after iderw. */
  function Synced(b: Buf, p: nat, data: Block): Buf {
    b.(valid := true, dirty := false, data := data, lock := LP.Held(p, false))
  }

  /** The cache after a bread of block `b` of the disk by `p`. */
  function Looked(view: Cached, disk: LP.Disk, p: nat, b: nat): Cached
    requires b < |disk|
  {
    view[b := (if b in view then view[b] else LP.Buf(disk[b], false, LP.NoOne)).(holder := LP.Held(p, false))]
  }

  /** bread fails: the disk has no such block, or no buffer is left for it. */
  ghost predicate BreadPanics(s: seq<Buf>, nbuf: nat, dev: nat, blockno: nat, size: nat)
    requires nbuf <= |s|
  {
    dev != ROOTDEV || blockno >= size || forall i | 0 <= i < nbuf :: !Is(s[i], dev, blockno) && !Idle(s[i])
  }

  /** Someone has the block's buffer locked. */
  ghost predicate LockedFor(s: seq<Buf>, nbuf: nat, dev: nat, blockno: nat)
    requires nbuf <= |s|
  {
    exists i :: 0 <= i < nbuf && Is(s[i], dev, blockno) && s[i].lock.Held?
  }

  ghost function IndexOf(order: seq<nat>, i: nat): (k: nat)
    requires i in order
    ensures k < |order| && order[k] == i
  {
    if order[0] == i then 0 else 1 + IndexOf(order[1..], i)
  }

  /** The order of use after slot `i` was used last. */
  ghost function ToFront(order: seq<nat>, i: nat): seq<nat>
    requires i in order
  {
    [i] + Without(order, IndexOf(order, i))
  }

  lemma InFront(order: seq<nat>, i: nat)
    requires i in order
    ensures |ToFront(order, i)| == |order|
    ensures forall x :: x in ToFront(order, i) <==> x in order
  {
    var k := IndexOf(order, i);
    assert order == order[..k] + [i] + order[k + 1..];
  }

  /** The links do not show. */
  lemma LinksUnseen(s: seq<Buf>, t: seq<Buf>, nbuf: nat, view: Cached, at: map<nat, nat>)
    requires nbuf <= |s| && SlotsOk(s, nbuf) && Shows(s, nbuf, view, at) && SameButLinks(s, t)
    ensures SlotsOk(t, nbuf) && Shows(t, nbuf, view, at)
  {
  }

  /**
   * Slot `i`, its block on the disk, and its last logical write, all became the data the slot had; nothing else
   * changed.
   */
  ghost predicate SyncedNow(i: nat, p: nat, s: seq<Buf>, v: Cached, d: LP.Disk, l: LP.Disk, s': seq<Buf>, v': Cached,
                            d': LP.Disk, l': LP.Disk) {
    && i < |s| && s[i].blockno < |d| && |d| == |l|
    && s' == s[i := Synced(s[i], p, s[i].data)] && v' == v[s[i].blockno := Shown(s'[i])]
    && d' == d[s[i].blockno := s[i].data] && l' == l[s[i].blockno := s[i].data]
  }

  lemma BwriteLemma(i: nat, p: nat, s: seq<Buf>, v: Cached, d: LP.Disk, l: LP.Disk, s1: seq<Buf>, v1: Cached,
                    l1: LP.Disk,
                    s2: seq<Buf>, v2: Cached, d2: LP.Disk, l2: LP.Disk)
    requires i < |s| && s[i].blockno < |d| && |d| == |l|
    requires s1 == s[i := s[i].(dirty := true, lock := LP.Held(p, false))] && v1 == v[s[i].blockno := Shown(s1[i])]
    requires l1 == l[s[i].blockno := s[i].data]
    requires SyncedNow(i, p, s1, v1, d, l1, s2, v2, d2, l2)
    ensures SyncedNow(i, p, s, v, d, l, s2, v2, d2, l2)
  {
  }

  /** The buffers 0 to `n` - 1, last first. */
  function Countdown(n: nat): (r: seq<nat>)
    ensures |r| == n && forall k | 0 <= k < n :: r[k] == n - 1 - k
  {
    if n == 0 then [] else [n - 1] + Countdown(n - 1)
  }

  /** A buffer as binit leaves it, but for its links. */
  predicate Fresh(b: Buf) {
    Is(b, 0, 0) && !b.valid && !b.dirty && b.refcnt == 0 && b.lock == LP.NoOne
  }

  /** Equal but for links and count. */
  predicate SameBuffer(a: Buf, b: Buf) {
    b == a.(refcnt := b.refcnt, prev := b.prev, next := b.next)
  }

  /** LogProtocol's eviction and read steps do to its cache what Bread does to the buffers, if they hold the result. */
  lemma BreadRefines(g: LP.Geometry, s: LP.State, gone: set<nat>, x: nat, p: nat, b: nat, t: LP.State)
    requires g.Valid() && LP.Enabled(g, s, LP.Bread(p, b)) && Evictable(s.cache, gone) && gone <= {x} && LP.Fits(g, s)
    requires t == s.(cache := Looked(s.cache - gone, s.disk, p, b)) && LP.Fits(g, t)
    ensures
      var steps := if gone == {} then [LP.Bread(p, b)] else [LP.Evict(x), LP.Bread(p, b)];
      LP.Runs(g, s, steps) && LP.Final(g, s, steps) == t
  {
    if gone == {} {
      assert s.cache - gone == s.cache;
      assert LP.Exec(g, s, LP.Bread(p, b)) == t;
      LP.Further(g, s, [], LP.Bread(p, b));
      assert [] + [LP.Bread(p, b)] == [LP.Bread(p, b)];
    } else {
      assert gone == {x};
      var u := LP.Exec(g, s, LP.Evict(x));
      assert u.cache.Keys == s.cache.Keys - {x};
      LP.Further(g, s, [], LP.Evict(x));
      assert [] + [LP.Evict(x)] == [LP.Evict(x)];
      assert LP.Enabled(g, u, LP.Bread(p, b)) && LP.Exec(g, u, LP.Bread(p, b)) == t;
      LP.Further(g, s, [LP.Evict(x)], LP.Bread(p, b));
      assert [LP.Evict(x)] + [LP.Bread(p, b)] == [LP.Evict(x), LP.Bread(p, b)];
    }
  }

  /** Where LogProtocol can take `step` from a cache `view`, it leaves the cache `view'`. */
  ghost predicate IsStep(view: Cached, view': Cached, step: LP.Step) {
    forall g: LP.Geometry, s: LP.State | g.Valid() && s.cache == view && LP.Enabled(g, s, step) ::
      LP.Exec(g, s, step).cache == view'
  }

  lemma ReleaseIsStep(view: Cached, view': Cached, p: nat, b: nat)
    requires b in view && view' == view[b := LP.Buf(view[b].data, view[b].dirty, LP.NoOne)]
    ensures IsStep(view, view', LP.Brelse(p, b))
  {
  }

  lemma MarkIsStep(view: Cached, view': Cached, p: nat, b: nat)
    requires b in view && view' == view[b := LP.Buf(view[b].data, true, LP.Held(p, false))]
    ensures IsStep(view, view', LP.LogWrite(p, b))
  {
  }

  /**
   * Moving a block, as install_trans and write_log do: bread of both blocks, the copy, bwrite of the second and
   * brelse of both leave the cache and the disk that LogProtocol's Moved gives, whoever `p` is.
   */
  lemma MoveRefines(s: LP.State, p: nat, from: nat, to: nat, v1: Cached, v2: Cached, v3: Cached, v4: Cached, v5: Cached,
                    disk: LP.Disk)
    requires from < |s.disk| && to < |s.disk| && from != to
    requires LP.Unheld(s, from) && LP.Unheld(s, to)
    requires v1 == Looked(s.cache, s.disk, p, from) && v2 == Looked(v1, s.disk, p, to)
    requires v3 == v2[to := LP.Buf(v2[from].data, v2[to].dirty, LP.Held(p, true))]
    requires disk == s.disk[to := v3[to].data] && v4 == v3[to := LP.Buf(v3[to].data, false, LP.Held(p, false))]
    requires v5 == v4[from := v4[from].(holder := LP.NoOne)][to := v4[to].(holder := LP.NoOne)]
    ensures LP.Moved(s, from, to) == s.(disk := disk, cache := v5)
  {
    var moved := LP.Moved(s, from, to);
    assert moved.cache.Keys == v5.Keys;
    forall b | b in v5 ensures moved.cache[b] == v5[b] {
    }
    assert moved.cache == v5;
  }

  /** The slots that hold the blocks of `blocks`. */
  lemma {:induction false} SlotsOf(s: seq<Buf>, nbuf: nat, view: Cached, at: map<nat, nat>, blocks: set<nat>)
    returns (slots: set<nat>)
    requires nbuf <= |s| && Shows(s, nbuf, view, at) && blocks <= view.Keys
    ensures |slots| == |blocks| && forall i | i in slots :: i < nbuf && Holding(s[i]) && s[i].blockno in blocks
    decreases blocks
  {
    if blocks == {} {
      slots := {};
    } else {
      var b :| b in blocks;
      slots := SlotsOf(s, nbuf, view, at, blocks - {b});
      assert at[b] !in slots;
      slots := slots + {at[b]};
    }
  }

  lemma {:induction false} AllSlots(slots: set<nat>, n: nat, i: nat)
    requires (forall j | j in slots :: j < n) && |slots| == n && i < n
    ensures i in slots
  {
    var last := n - 1;
    if last in slots {
      if i < last {
        AllSlots(slots - {last}, last, i);
      }
    } else {
      Pigeons(slots, last);
    }
  }

  lemma {:induction false} Pigeons(slots: set<nat>, n: nat)
    requires forall j | j in slots :: j < n
    ensures |slots| <= n
  {
    if n == 0 {
      assert slots == {};
    } else {
      Pigeons(slots - {n - 1}, n - 1);
      assert n - 1 in slots ==> |slots - {n - 1}| == |slots| - 1;
      assert n - 1 !in slots ==> slots - {n - 1} == slots;
    }
  }

  /** Blocks that are cached have a buffer each. */
  lemma ViewFits(s: seq<Buf>, nbuf: nat, view: Cached, at: map<nat, nat>)
    requires nbuf <= |s| && Shows(s, nbuf, view, at)
    ensures |view| <= nbuf
  {
    var slots := SlotsOf(s, nbuf, view, at, view.Keys);
    Pigeons(slots, nbuf);
  }

  /**
   * With as many logged blocks pinned as there are buffers, bread of any other block panics: write_log cannot get
   * a buffer for a log block. NBUF is LOGSIZE, so this is a log of LOGSIZE blocks.
   */
  lemma PinnedFull(s: seq<Buf>, nbuf: nat, view: Cached, at: map<nat, nat>, blocks: set<nat>, b: nat, size: nat)
    requires nbuf <= |s| && Shows(s, nbuf, view, at) && |blocks| == nbuf && b !in view
    requires forall x | x in blocks :: x in view && view[x].dirty
    ensures BreadPanics(s, nbuf, ROOTDEV, b, size)
  {
    var slots := SlotsOf(s, nbuf, view, at, blocks);
    forall i | 0 <= i < nbuf ensures !Is(s[i], ROOTDEV, b) && !Idle(s[i]) {
      AllSlots(slots, nbuf, i);
    }
  }

  class BCache {
    const nbuf: nat
    const buf: array<Buf>            // buf[nbuf] is the list head
    var disk: LP.Disk
    ghost var order: seq<nat>        // slots, most recently used first
    ghost var view: Cached
    ghost var at: map<nat, nat>
    ghost var logical: LP.Disk       // every block's last logical write

    ghost predicate ListOk()
      reads this, buf
    {
      && buf.Length == nbuf + 1 && |order| == nbuf && Ring(buf[..], nbuf, order)
      && (forall k | 0 <= k < nbuf :: order[k] < nbuf) && (forall i | 0 <= i < nbuf :: i in order)
    }

    /** The list and the slots are in order, whatever the data. */
    ghost predicate Shaped()
      reads this, buf
    {
      ListOk() && SlotsOk(buf[..], nbuf) && Shows(buf[..], nbuf, view, at)
    }

    ghost predicate Valid()
      reads this, buf
    {
      Shaped() && Coherent(view, disk, logical)
    }

    /** binit: every buffer is free and empty, and the last one is the most recently used. */
    constructor (n: nat, d: LP.Disk)
      ensures Valid() && nbuf == n && disk == d && logical == d && view == map[] && fresh(buf)
      ensures forall i | 0 <= i < n :: Is(buf[i], 0, 0) && Idle(buf[i]) && !buf[i].valid && buf[i].lock == LP.NoOne
      ensures forall k | 0 <= k < n :: order[k] == n - 1 - k
    {
      nbuf, disk, logical, view, at, order := n, d, d, map[], map[], [];
      buf := new Buf[n + 1](_ => Buf(0, 0, false, false, 0, LP.NoOne, Zeroes(), n, n));
      new;
      var b := 0;
      while b < n
        invariant 0 <= b <= n && buf.Length == n + 1 && fresh(buf)
        invariant order == Countdown(b) && Ring(buf[..], n, order)
        invariant forall i | 0 <= i <= n :: Fresh(buf[i])
        invariant disk == d && logical == d && view == map[] && at == map[]
      {
        ghost var s := buf[..];
        PushFrontRing(s, n, order, b);
        var first := buf[n].next;
        buf[b] := buf[b].(next := first, prev := n);
        buf[first] := buf[first].(prev := b);
        buf[n] := buf[n].(next := b);
        assert buf[..] == PushFront(s, n, b);
        order := [b] + order;
        b := b + 1;
      }
      forall i | 0 <= i < n ensures i in order {
        assert order[n - 1 - i] == i;
      }
    }

    /** The scan at bio.c:69. */
    method Find(dev: nat, blockno: nat) returns (r: Option<nat>)
      requires ListOk()
      ensures r.Some? ==> r.value < nbuf && Is(buf[r.value], dev, blockno)
      ensures r.None? ==> forall i | 0 <= i < nbuf :: !Is(buf[i], dev, blockno)
    {
      ghost var c := Chain(nbuf, order);
      ghost var k := 1;
      assert Linked(buf[..], c[0], c[1]);
      var b := buf[nbuf].next;
      while b != nbuf
        invariant 1 <= k <= nbuf + 1 && b == c[k]
        invariant forall j | 1 <= j < k :: !Is(buf[c[j]], dev, blockno)
        decreases nbuf + 1 - k
      {
        assert c[k] == order[k - 1];
        if buf[b].dev == dev && buf[b].blockno == blockno {
          return Some(b);
        }
        assert Linked(buf[..], c[k], c[k + 1]);
        b := buf[b].next;
        k := k + 1;
      }
      AtEnd(k);
      forall i | 0 <= i < nbuf ensures !Is(buf[i], dev, blockno) {
        assert i in order;
        var j :| 0 <= j < nbuf && order[j] == i;
        assert c[j + 1] == i;
      }
      return None;
    }

    /** Only the last entry of the chain is the head again. */
    lemma AtEnd(k: nat)
      requires ListOk() && 1 <= k <= nbuf + 1 && Chain(nbuf, order)[k] == nbuf
      ensures k == nbuf + 1
    {
      if k <= nbuf {
        assert false;
      }
    }

    /** The scan at bio.c:81, from the least recently used end; `k` is the buffer's place in the order. */
    method FindIdle() returns (r: Option<nat>, ghost k: nat)
      requires ListOk()
      ensures r.Some? ==> k < nbuf && order[k] == r.value && Idle(buf[r.value])
      ensures r.Some? ==> forall j | k < j < nbuf :: !Idle(buf[order[j]])
      ensures r.None? ==> forall i | 0 <= i < nbuf :: !Idle(buf[i])
    {
      ghost var c := Chain(nbuf, order);
      k := nbuf;
      assert Linked(buf[..], c[nbuf], c[nbuf + 1]);
      var b := buf[nbuf].prev;
      while b != nbuf
        invariant 0 <= k <= nbuf && b == c[k]
        invariant forall j | k < j <= nbuf :: !Idle(buf[c[j]])
        decreases k
      {
        assert k > 0 && c[k] == order[k - 1];
        if buf[b].refcnt == 0 && !buf[b].dirty {
          k := k - 1;
          forall j | k < j < nbuf ensures !Idle(buf[order[j]]) {
            assert c[j + 1] == order[j];
          }
          return Some(b), k;
        }
        assert Linked(buf[..], c[k - 1], c[k]);
        b := buf[b].prev;
        k := k - 1;
      }
      assert k == 0;
      forall i | 0 <= i < nbuf ensures !Idle(buf[i]) {
        assert i in order;
        var j :| 0 <= j < nbuf && order[j] == i;
        assert c[j + 1] == i;
      }
      return None, k;
    }

    /** Puts `b` in slot `i` with the links the slot has. */
    method Put(i: nat, b: Buf)
      requires ListOk() && i < nbuf && b.prev == buf[i].prev && b.next == buf[i].next
      modifies buf
      ensures ListOk() && buf[..] == old(buf[..])[i := b]
    {
      ghost var s := buf[..];
      buf[i] := b;
      assert buf[..] == s[i := b];
      RingKept(s, buf[..], nbuf, order);
    }

    /**
     * bget up to the point where it takes the sleeplock. A hit only counts the new reference. A miss recycles the
     * least recently used buffer that is neither referenced nor dirty, and nothing but that buffer leaves the cache.
     */
    method Bget(dev: nat, blockno: nat) returns (r: Outcome<nat, Reason>, ghost gone: set<nat>)
      requires Valid()
      modifies this`view, this`at, buf
      ensures Valid() && view == old(view) - gone && Evictable(old(view), gone)
      ensures r.Panic? <==> forall i | 0 <= i < nbuf :: !Is(old(buf[i]), dev, blockno) && !Idle(old(buf[i]))
      ensures r.Panic? ==> r.why == NoBuffers && gone == {} && buf[..] == old(buf[..])
      ensures r.Ok? ==> r.value < nbuf
      ensures r.Ok? ==> Hit(old(buf[..]), buf[..], dev, blockno, r.value)
                        || Missed(old(buf[..]), buf[..], nbuf, order, dev, blockno, r.value)
      ensures gone != {} ==> r.Ok? && !Is(old(buf[r.value]), dev, blockno) && gone <= {old(buf[r.value]).blockno}
    {
      var hit := Find(dev, blockno);
      if hit.Some? {
        Refer(hit.value);
        return Ok(hit.value), {};
      }
      r, gone := Miss(dev, blockno);
    }

    /** bget's second scan. */
    method Miss(dev: nat, blockno: nat) returns (r: Outcome<nat, Reason>, ghost gone: set<nat>)
      requires Valid() && forall i | 0 <= i < nbuf :: !Is(buf[i], dev, blockno)
      modifies this`view, this`at, buf
      ensures Valid() && view == old(view) - gone && Evictable(old(view), gone)
      ensures r.Panic? <==> forall i | 0 <= i < nbuf :: !Idle(old(buf[i]))
      ensures r.Panic? ==> r.why == NoBuffers && gone == {} && buf[..] == old(buf[..])
      ensures r.Ok? ==> r.value < nbuf && Missed(old(buf[..]), buf[..], nbuf, order, dev, blockno, r.value)
      ensures r.Ok? ==> gone <= {old(buf[r.value]).blockno}
    {
      var idle, k := FindIdle();
      if idle.None? {
        return Panic(NoBuffers), {};
      }
      var i := idle.value;
      assert LeastRecent(buf[..], order, k, i);
      gone := Recycle(i, dev, blockno);
      return Ok(i), gone;
    }

    /** The assignments at bio.c:83, to a buffer the scans chose. */
    method Recycle(i: nat, dev: nat, blockno: nat) returns (ghost gone: set<nat>)
      requires Valid() && i < nbuf && Idle(buf[i]) && forall j | 0 <= j < nbuf :: !Is(buf[j], dev, blockno)
      modifies this`view, this`at, buf
      ensures Valid() && view == old(view) - gone && Evictable(old(view), gone)
      ensures buf[..] == old(buf[..])[i := Blank(old(buf[i]), dev, blockno)] && gone <= {old(buf[i]).blockno}
    {
      gone := if Holding(buf[i]) then {buf[i].blockno} else {};
      SlotRecycled(buf[..], nbuf, view, at, i, Blank(buf[i], dev, blockno), gone);
      EvictCoherent(view, disk, logical, gone);
      Put(i, Blank(buf[i], dev, blockno));
      view, at := view - gone, at - gone;
    }

    /** `b->refcnt++` changes nothing that the cache shows. */
    method Refer(i: nat)
      requires Valid() && i < nbuf
      modifies buf
      ensures Valid() && buf[..] == old(buf[..])[i := old(buf[i]).(refcnt := old(buf[i].refcnt) + 1)]
    {
      Put(i, buf[i].(refcnt := buf[i].refcnt + 1));
    }

    /** Puts `b` in slot `i`, which is and stays for a block of the disk and has its data now. */
    method PutData(i: nat, b: Buf)
      requires Shaped() && i < nbuf && buf[i].dev == ROOTDEV && Holding(b) && b.blockno == buf[i].blockno
      requires b.prev == buf[i].prev && b.next == buf[i].next && (b.lock.Held? ==> b.refcnt > 0)
      modifies this`view, this`at, buf
      ensures Shaped() && buf[..] == old(buf[..])[i := b] && view == old(view)[b.blockno := Shown(b)]
    {
      SlotPut(buf[..], nbuf, view, at, i, b);
      Put(i, b);
      view, at := view[b.blockno := Shown(b)], at[b.blockno := i];
    }

    /** The lock of a buffer that shows no unlogged change is taken or freed. */
    method Relock(i: nat, lock: LP.Holder)
      requires Valid() && i < nbuf && buf[i].refcnt > 0 && Settled(buf[i].lock) && Settled(lock)
      modifies this`view, this`at, buf
      ensures Valid() && buf[..] == old(buf[..])[i := old(buf[i]).(lock := lock)]
      ensures view == if Holding(buf[i]) then old(view)[buf[i].blockno := Shown(buf[i])] else old(view)
    {
      var b := buf[i].(lock := lock);
      if Holding(b) {
        assert SlotsOk(buf[..], nbuf) && Coherent(view[b.blockno := Shown(b)], disk, logical) by {
          SlotPut(buf[..], nbuf, view, at, i, b);
          SettledCoherent(view, disk, logical, b.blockno, Shown(b));
        }
        PutData(i, b);
      } else {
        SlotUnseen(buf[..], nbuf, view, at, i, b);
        Put(i, b);
      }
    }

    /** acquiresleep, at the moment the lock is free. */
    method Acquire(i: nat, p: nat)
      requires Valid() && i < nbuf && buf[i].refcnt > 0 && buf[i].lock == LP.NoOne
      modifies this`view, this`at, buf
      ensures Valid() && buf[..] == old(buf[..])[i := old(buf[i]).(lock := LP.Held(p, false))]
      ensures view == if Holding(buf[i]) then old(view)[buf[i].blockno := Shown(buf[i])] else old(view)
    {
      Relock(i, LP.Held(p, false));
    }

    /** iderw: writes a dirty buffer to the disk, or reads an empty one from it; either way buffer and disk agree. */
    method Iderw(i: nat, p: nat) returns (r: Outcome<Block, Reason>)
      requires Valid() && i < nbuf
      modifies this`view, this`at, this`disk, this`logical, buf
      ensures r == IderwOutcome(old(buf[i]), p, old(disk))
      ensures r.Panic? ==> buf[..] == old(buf[..]) && view == old(view) && disk == old(disk)
      ensures r.Ok? ==> Valid() && buf[..] == old(buf[..])[i := Synced(old(buf[i]), p, r.value)]
      ensures r.Ok? ==> view == old(view)[buf[i].blockno := Shown(buf[i])]
      ensures r.Ok? ==> disk == old(disk)[buf[i].blockno := r.value]
                        && logical == old(logical)[buf[i].blockno := r.value]
    {
      if !HeldBy(buf[i], p) {
        return Panic(NotHeld);
      }
      if buf[i].valid && !buf[i].dirty {
        return Panic(NothingToDo);
      }
      if buf[i].dev != ROOTDEV {
        return Panic(NotDisk1);
      }
      if buf[i].blockno >= |disk| {
        return Panic(OutOfRange);
      }
      if buf[i].dirty {
        Sync(i, p, buf[i].data);
      } else {
        Sync(i, p, disk[buf[i].blockno]);
      }
      return Ok(buf[i].data);
    }

    /** Buffer `i` and its block on the disk both become `data`. */
    method Sync(i: nat, p: nat, data: Block)
      requires Valid() && i < nbuf && HeldBy(buf[i], p) && buf[i].dev == ROOTDEV && buf[i].blockno < |disk|
      modifies this`view, this`at, this`disk, this`logical, buf
      ensures Valid() && buf[..] == old(buf[..])[i := Synced(old(buf[i]), p, data)]
      ensures view == old(view)[buf[i].blockno := Shown(buf[i])]
      ensures disk == old(disk)[buf[i].blockno := data] && logical == old(logical)[buf[i].blockno := data]
    {
      var n, b := buf[i].blockno, Synced(buf[i], p, data);
      CoherentPut(view, disk, logical, n, Shown(b), data, data);
      PutData(i, b);
      disk, logical := disk[n := data], logical[n := data];
    }

    /**
     * bread: the caller gets the buffer locked, with the block's last logical write in it. If someone else has the
     * buffer locked, the caller `waits` in acquiresleep with a reference to it, and Fill is the rest once it is free.
     */
    method Bread(dev: nat, blockno: nat, p: nat) returns (r: Outcome<nat, Reason>, waits: bool, ghost gone: set<nat>)
      requires Valid()
      modifies this`view, this`at, this`disk, this`logical, buf
      ensures waits ==> LockedFor(old(buf[..]), nbuf, dev, blockno)
      ensures dev != 0 && LockedFor(old(buf[..]), nbuf, dev, blockno) ==> waits
      ensures waits ==> Valid() && view == old(view) && disk == old(disk) && logical == old(logical)
      ensures waits ==> r.Ok? && r.value < nbuf && Hit(old(buf[..]), buf[..], dev, blockno, r.value)
                        && buf[r.value].lock.Held?
      ensures r.Ok? && !waits ==> Valid() && r.value < nbuf && HeldBy(buf[r.value], p) && Holding(buf[r.value])
      ensures r.Ok? && !waits ==> dev == ROOTDEV && blockno < |disk| && buf[r.value].blockno == blockno
                                  && buf[r.value].data == logical[blockno]
      ensures r.Ok? && !waits ==> disk == old(disk) && logical == old(logical)
      ensures r.Ok? && !waits ==> Evictable(old(view), gone) && gone <= {old(buf[r.value]).blockno}
                                  && (blockno in old(view) ==> gone == {})
      ensures r.Ok? && !waits ==> view == Looked(old(view) - gone, disk, p, blockno)
      ensures r.Panic? <==> !waits && BreadPanics(old(buf[..]), nbuf, dev, blockno, |old(disk)|)
    {
      waits := false;
      ghost var s := buf[..];
      r, gone := Bget(dev, blockno);
      if r.Ok? {
        assert dev != 0 && LockedFor(s, nbuf, dev, blockno) ==> s[r.value].lock.Held?;
        if buf[r.value].lock.Held? {
          return r, true, gone;
        }
        r := Fill(r.value, p);
      }
    }

    /** The rest of bread: takes the lock, and reads the block if the buffer has no data. */
    method Fill(i: nat, p: nat) returns (r: Outcome<nat, Reason>)
      requires Valid() && i < nbuf && buf[i].refcnt > 0 && buf[i].lock == LP.NoOne
      modifies this`view, this`at, this`disk, this`logical, buf
      ensures r.Panic? <==> old(buf[i].dev) != ROOTDEV || old(buf[i].blockno) >= |old(disk)|
      ensures r.Ok? ==> r.value == i && Valid() && HeldBy(buf[i], p) && Holding(buf[i])
                        && buf[i].blockno == old(buf[i].blockno)
      ensures r.Ok? ==> disk == old(disk) && logical == old(logical) && buf[i].data == logical[buf[i].blockno]
      ensures r.Ok? ==> view == Looked(old(view), disk, p, buf[i].blockno)
    {
      ghost var b := buf[i];
      FillLemma(b.blockno);
      Acquire(i, p);
      if !buf[i].valid {
        var w := Iderw(i, p);
        if w.Panic? {
          return Panic(w.why);
        }
      }
      return Ok(i);
    }

    /** Fits, with as many buffers as this. */
    lemma Fitting()
      requires Valid()
      ensures |view| <= nbuf
    {
      ViewFits(buf[..], nbuf, view, at);
    }

    /** A block that is not cached is on the disk as last written. */
    lemma FillLemma(b: nat)
      requires Valid()
      ensures b < |disk| && b !in view ==> logical[b] == disk[b] && disk[b := disk[b]] == disk
                                           && logical[b := disk[b]] == logical
    {
    }

    /** The holder of a buffer changes its data. */
    method Modify(i: nat, p: nat, data: Block)
      requires Valid() && i < nbuf && HeldBy(buf[i], p) && buf[i].valid
      modifies this`view, this`at, buf
      ensures Valid() && buf[..] == old(buf[..])[i := old(buf[i]).(data := data, lock := LP.Held(p, true))]
      ensures view == old(view)[buf[i].blockno := Shown(buf[i])]
      ensures IsStep(old(view), view, LP.Modify(p, buf[i].blockno, data))
    {
      var b := buf[i].(data := data, lock := LP.Held(p, true));
      CoherentPut(view, disk, logical, b.blockno, Shown(b), disk[b.blockno], logical[b.blockno]);
      assert disk[b.blockno := disk[b.blockno]] == disk && logical[b.blockno := logical[b.blockno]] == logical;
      PutData(i, b);
    }

    /** log_write's `b->flags |= B_DIRTY`: what is in the buffer is now the block's last logical write. */
    method MarkDirty(i: nat, p: nat)
      requires Valid() && i < nbuf && HeldBy(buf[i], p) && buf[i].valid
      modifies this`view, this`at, this`logical, buf
      ensures Valid() && buf[..] == old(buf[..])[i := old(buf[i]).(dirty := true, lock := LP.Held(p, false))]
      ensures view == old(view)[buf[i].blockno := Shown(buf[i])] && buf[i].blockno < |old(logical)|
      ensures logical == old(logical)[buf[i].blockno := buf[i].data]
      ensures IsStep(old(view), view, LP.LogWrite(p, buf[i].blockno))
    {
      var b := buf[i].(dirty := true, lock := LP.Held(p, false));
      CoherentPut(view, disk, logical, b.blockno, Shown(b), disk[b.blockno], b.data);
      assert disk[b.blockno := disk[b.blockno]] == disk;
      PutData(i, b);
      logical := logical[b.blockno := b.data];
      MarkIsStep(old(view), view, p, b.blockno);
    }

    /** bwrite: the block on the disk and its last logical write become the buffer's data. */
    method Bwrite(i: nat, p: nat) returns (r: Outcome<Block, Reason>)
      requires Valid() && i < nbuf
      modifies this`view, this`at, this`disk, this`logical, buf
      ensures r == IderwOutcome(old(buf[i]).(dirty := true), p, old(disk))
      ensures HeldBy(old(buf[i]), p) && old(buf[i].valid) ==> r.Ok?
      ensures r.Ok? ==> Valid() && SyncedNow(i, p, old(buf[..]), old(view), old(disk), old(logical), buf[..], view,
                        disk, logical)
    {
      if !HeldBy(buf[i], p) {
        return Panic(NotHeld);
      }
      if buf[i].valid {
        r := Flush(i, p);
      } else {
        r := FlushEmpty(i, p);
      }
    }

    /** `b->flags |= B_DIRTY; iderw(b);` for a buffer that bread returned. */
    method Flush(i: nat, p: nat) returns (r: Outcome<Block, Reason>)
      requires Valid() && i < nbuf && HeldBy(buf[i], p) && buf[i].valid
      modifies this`view, this`at, this`disk, this`logical, buf
      ensures r == Ok(old(buf[i].data)) && old(buf[i].dev) == ROOTDEV && old(buf[i].blockno) < |old(disk)|
      ensures Valid() && SyncedNow(i, p, old(buf[..]), old(view), old(disk), old(logical), buf[..], view, disk, logical)
    {
      ghost var s, v, d, l := buf[..], view, disk, logical;
      MarkDirty(i, p);
      ghost var s1, v1, l1 := buf[..], view, logical;
      r := Iderw(i, p);
      BwriteLemma(i, p, s, v, d, l, s1, v1, l1, buf[..], view, disk, logical);
    }

    /** The same for a locked buffer that has no data yet. */
    method FlushEmpty(i: nat, p: nat) returns (r: Outcome<Block, Reason>)
      requires Valid() && i < nbuf && HeldBy(buf[i], p) && !buf[i].valid
      modifies this`view, this`at, this`disk, this`logical, buf
      ensures r == IderwOutcome(old(buf[i]).(dirty := true), p, old(disk))
      ensures r.Ok? ==> Valid() && SyncedNow(i, p, old(buf[..]), old(view), old(disk), old(logical), buf[..], view,
                        disk, logical)
    {
      if buf[i].dev != ROOTDEV {
        return Panic(NotDisk1);
      }
      if buf[i].blockno >= |disk| {
        return Panic(OutOfRange);
      }
      r := Ok(buf[i].data);
      Sync(i, p, buf[i].data);
    }

    /** The lock of brelse: the caller may leave no unlogged change behind. */
    method Unlock(i: nat, p: nat)
      requires Valid() && i < nbuf && buf[i].lock == LP.Held(p, false)
      modifies this`view, this`at, buf
      ensures Valid() && buf[..] == old(buf[..])[i := old(buf[i]).(lock := LP.NoOne)]
      ensures view == if Holding(buf[i]) then old(view)[buf[i].blockno := Shown(buf[i])] else old(view)
    {
      Relock(i, LP.NoOne);
    }

    /**
     * The rest of brelse. The caller's own reference counts beside that of whoever has the lock by now. A buffer
     * nobody refers to any more becomes the most recently used one.
     */
    method Drop(i: nat)
      requires Valid() && i < nbuf && buf[i].refcnt > if buf[i].lock.Held? then 1 else 0
      modifies this`order, buf
      ensures Valid() && buf[i].refcnt == old(buf[i].refcnt) - 1
      ensures forall j | 0 <= j < nbuf ::
                SameBuffer(old(buf[j]), buf[j]) && (j != i ==> buf[j].refcnt == old(buf[j].refcnt))
      ensures order == if buf[i].refcnt == 0 then ToFront(old(order), i) else old(order)
    {
      Unrefer(i);
      if buf[i].refcnt == 0 {
        MoveFront(i);
      }
    }

    /** `b->refcnt--`. */
    method Unrefer(i: nat)
      requires Valid() && i < nbuf && buf[i].refcnt > if buf[i].lock.Held? then 1 else 0
      modifies buf
      ensures Valid() && buf[..] == old(buf[..])[i := old(buf[i]).(refcnt := old(buf[i].refcnt) - 1)]
    {
      Put(i, buf[i].(refcnt := buf[i].refcnt - 1));
    }

    /** brelse of a buffer whose changes were logged or written: the cached data and the disk stay. */
    method Brelse(i: nat, p: nat) returns (r: Outcome<nat, Reason>)
      requires Valid() && i < nbuf && Settled(buf[i].lock)
      modifies this`view, this`at, this`order, buf
      ensures r == if HeldBy(old(buf[i]), p) then Ok(i) else Panic(NotHeld)
      ensures Valid()
      ensures r.Ok? ==> buf[i].lock == LP.NoOne && buf[i].refcnt == old(buf[i].refcnt) - 1
                        && buf[i].data == old(buf[i].data)
      ensures r.Ok? ==> order == if buf[i].refcnt == 0 then ToFront(old(order), i) else old(order)
      ensures r.Ok? ==> view == if Holding(buf[i]) then old(view)[buf[i].blockno := Shown(buf[i])] else old(view)
      ensures r.Ok? && Holding(buf[i]) ==> IsStep(old(view), view, LP.Brelse(p, buf[i].blockno))
      ensures forall j | 0 <= j < nbuf && j != i ::
                SameBuffer(old(buf[j]), buf[j]) && buf[j].refcnt == old(buf[j].refcnt)
    {
      if !HeldBy(buf[i], p) {
        return Panic(NotHeld);
      }
      ghost var b, shown := buf[i].blockno, Holding(buf[i]);
      Unlock(i, p);
      if shown {
        ReleaseIsStep(old(view), view, p, b);
      }
      Drop(i);
      return Ok(i);
    }

    /** The pointer assignments of brelse. */
    method MoveFront(i: nat)
      requires Valid() && i < nbuf
      modifies this`order, buf
      ensures Valid() && SameButLinks(old(buf[..]), buf[..]) && order == ToFront(old(order), i)
    {
      ghost var s := buf[..];
      MoveToFront(s, nbuf, order, IndexOf(order, i));
      Relink(i);
      LinksUnseen(s, buf[..], nbuf, view, at);
      InFront(order, i);
      order := ToFront(order, i);
    }

    /** The six pointer assignments. */
    method Relink(i: nat)
      requires i < nbuf < buf.Length && buf[i].next < buf.Length && buf[i].prev < buf.Length
      requires Unlink(buf[..], i)[nbuf].next < buf.Length
      modifies buf
      ensures buf[..] == PushFront(Unlink(old(buf[..]), i), nbuf, i)
    {
      ghost var s := buf[..];
      var next, prev := buf[i].next, buf[i].prev;
      buf[next] := buf[next].(prev := prev);
      buf[prev] := buf[prev].(next := next);
      assert buf[..] == Unlink(s, i);
      var first := buf[nbuf].next;
      buf[i] := buf[i].(next := first, prev := nbuf);
      buf[first] := buf[first].(prev := i);
      buf[nbuf] := buf[nbuf].(next := i);
    }
  }
}
