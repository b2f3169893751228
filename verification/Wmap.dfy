/** sysproc.c: where wmap puts a mapping. Addresses are page numbers. */
module Wmap {
  import opened Results

  /** memHashNode. */
  datatype Node = Node(start: nat, pages: nat, length: nat, fd: int, flags: nat)

  const CHAINS: nat := 19          // MEM_HASH_SIZE
  const POOL: nat := 16            // MAX_WMMAP_INFO
  const PGSIZE: nat := 4096
  const LOW: nat := 0x60000        // 0x60000000
  const HIGH: nat := 0x80000       // 0x80000000
  const VPAGES: nat := 0x100000    // 32-bit addresses
  const MAXLENGTH := 0x7ffff000    // the longest that rounds up to an int
  const MAP_FIXED: nat := 8

  /**
   * The remainder of the address, which is an int: from 0x80000000 on it is negative, and no index, for all pages but
   * those where it is 0.
   */
  predicate HasChain(page: nat) {
    page < HIGH || (page < VPAGES && ((VPAGES - page) * PGSIZE) % CHAINS == 0)
  }

  function Hash(page: nat): (i: nat)
    requires HasChain(page)
    ensures i < CHAINS
  {
    if page < HIGH then (page * PGSIZE) % CHAINS else 0
  }

  /** Of two pages next to each other from there on, one has no chain; the first and the last have none. */
  lemma Chainless(page: nat)
    ensures page >= HIGH && HasChain(page) ==> !HasChain(page + 1)
    ensures !HasChain(HIGH) && !HasChain(VPAGES - 1)
  {
  }

  predicate Covers(n: Node, page: nat) {
    n.start <= page < n.start + n.pages
  }

  /** Pages needed for `length` bytes. */
  function Pages(length: nat): nat {
    (length + PGSIZE - 1) / PGSIZE
  }

  /** None of the mappings has a page from `a` up to `a` + `count`. */
  ghost predicate Misses(nodes: set<Node>, a: nat, count: nat) {
    forall n, p | n in nodes && a <= p < a + count :: !Covers(n, p)
  }

  /** No two mappings have a page in common. */
  ghost predicate Disjoint(nodes: set<Node>) {
    forall m, n, p | m in nodes && n in nodes && Covers(m, p) && Covers(n, p) :: m == n
  }

  /** The first place from `hint` on that misses every mapping. */
  ghost predicate FirstFit(nodes: set<Node>, hint: nat, count: nat, a: nat) {
    hint <= a && Misses(nodes, a, count) && forall b | hint <= b < a :: !Misses(nodes, b, count)
  }

  /** A page that is taken rules out every place from where the search is up to the end of the mapping that has it. */
  lemma JumpSkipsNothing(nodes: set<Node>, n: Node, a: nat, i: nat, count: nat, b: nat)
    requires n in nodes && i < count && Covers(n, a + i) && a <= b < n.start + n.pages
    ensures !Misses(nodes, b, count)
  {
    if b <= a + i {
      assert Covers(n, a + i);
    } else {
      assert Covers(n, b);
    }
  }

  /** A mapping put where it misses the others keeps them disjoint. */
  lemma StillDisjoint(nodes: set<Node>, n: Node)
    requires Disjoint(nodes) && Misses(nodes, n.start, n.pages)
    ensures Disjoint(nodes + {n})
  {
  }

  /** MAP_FIXED looks at the first page only: it misses every mapping if and only if none begins behind that page. */
  lemma FixedMisses(nodes: set<Node>, a: nat, count: nat)
    requires count > 0 && (forall n | n in nodes :: n.pages > 0 && !Covers(n, a))
    ensures Misses(nodes, a, count) <==> forall n | n in nodes :: !(a < n.start < a + count)
  {
    if Misses(nodes, a, count) {
      forall n | n in nodes ensures !(a < n.start < a + count) {
        assert !(a <= n.start < a + count) || !Covers(n, n.start);
      }
    }
  }

  /** As with two pages from 0x60000000 on and a mapping of the second. */
  lemma FixedOverlaps(n: Node)
    requires n.start == LOW + 1 && n.pages == 1
    ensures !Covers(n, LOW) && !Misses({n}, LOW, 2)
  {
    assert Covers(n, LOW + 1);
  }

  /** A mapping that the table can hold: it begins at a page with a chain and ends before the addresses do. */
  predicate Holdable(n: Node) {
    n.pages > 0 && n.start + n.pages < VPAGES && HasChain(n.start)
  }

  /** The first node of a chain that starts at the page. */
  function FirstStart(c: seq<Node>, page: nat): (r: Option<Node>)
    ensures r.Some? ==> r.value in c && r.value.start == page
    ensures r.None? ==> forall n | n in c :: n.start != page
  {
    if c == [] then None else if c[0].start == page then Some(c[0]) else FirstStart(c[1..], page)
  }

  /** The first that has it. */
  function FirstCover(c: seq<Node>, page: nat): (r: Option<Node>)
    ensures r.Some? ==> r.value in c && Covers(r.value, page)
    ensures r.None? ==> forall n | n in c :: !Covers(n, page)
  {
    if c == [] then None else if Covers(c[0], page) then Some(c[0]) else FirstCover(c[1..], page)
  }

  lemma {:induction false} CoverJoin(a: seq<Node>, b: seq<Node>, page: nat)
    ensures FirstCover(a + b, page) == if FirstCover(a, page).Some? then FirstCover(a, page) else FirstCover(b, page)
  {
    if a == [] {
      assert a + b == b;
    } else {
      assert (a + b)[1..] == a[1..] + b;
      CoverJoin(a[1..], b, page);
    }
  }

  /** Wild: the code overflows an int, or goes on outside its table or its pool, or through a null pointer. */
  datatype Result = Failed | Wild | Mapped(page: nat)

  class Table {
    var head: seq<Option<Node>>      // table[]: None for startAddress -1
    var rest: seq<seq<Node>>         // the chains behind it
    var mostRecent: Option<Node>
    var poolCounter: nat             // nodes of nodePool in use or used before

    ghost predicate Valid()
      reads this
    {
      && |head| == CHAINS && |rest| == CHAINS && poolCounter <= POOL
      && (forall k, n | 0 <= k < CHAINS && n in Chain(k) :: Holdable(n) && Hash(n.start) == k)
      && (mostRecent.Some? ==> Holdable(mostRecent.value) && mostRecent.value in Chain(Hash(mostRecent.value.start)))
    }

    ghost function Chain(k: nat): seq<Node>
      reads this
      requires |head| == |rest| == CHAINS && k < CHAINS
    {
      (if head[k].Some? then [head[k].value] else []) + rest[k]
    }

    /** The first `k` chains. */
    ghost function Chains(k: nat): (r: seq<Node>)
      reads this
      requires |head| == |rest| == CHAINS && k <= CHAINS
      ensures forall n :: n in r <==> exists i :: 0 <= i < k && n in Chain(i)
    {
      if k == 0 then [] else Chains(k - 1) + Chain(k - 1)
    }

    /** All mappings. */
    ghost function Nodes(): (r: set<Node>)
      requires Valid()
      reads this
    {
      set n | n in Chains(|head|)
    }

    lemma IsNode(n: Node)
      requires Valid()
      ensures n in Nodes() <==> HasChain(n.start) && n in Chain(Hash(n.start))
    {
    }

    /** What pageInMappings finds for a page. */
    ghost function Found(page: nat): (r: Option<Node>)
      requires Valid() && HasChain(page)
      reads this
      ensures r.Some? ==> r.value in Nodes() && Covers(r.value, page) && Holdable(r.value)
      ensures r.None? ==> forall n | n in Nodes() :: !Covers(n, page)
    {
      var n := FirstStart(Chain(Hash(page)), page);
      if n.Some? then n else FirstCover(Chains(|head|), page)
    }

    constructor ()
      ensures Valid() && Nodes() == {} && mostRecent == None && poolCounter == 0
    {
      head, rest, mostRecent, poolCounter := seq(CHAINS, _ => None), seq(CHAINS, _ => []), None, 0;
    }

    /** hashSearch. */
    method HashSearch(page: nat) returns (r: Option<Node>)
      requires Valid() && HasChain(page)
      ensures r == FirstStart(Chain(Hash(page)), page)
      ensures r.Some? ==> r.value in Nodes() && r.value.start == page
      ensures r.None? ==> forall n | n in Nodes() :: n.start != page
    {
      var k := Hash(page);
      if head[k].Some? && head[k].value.start == page {
        return head[k];
      }
      ghost var c := Chain(k);
      ghost var skipped := if head[k].Some? then 1 else 0;
      var j := 0;
      while j < |rest[k]|
        invariant 0 <= j <= |rest[k]| && FirstStart(c, page) == FirstStart(c[skipped + j..], page)
      {
        assert c[skipped + j] == rest[k][j];
        if rest[k][j].start == page {
          return Some(rest[k][j]);
        }
        assert c[skipped + j..][1..] == c[skipped + j + 1..];
        j := j + 1;
      }
      assert c[skipped + j..] == [];
      return None;
    }

    /** The scan of one chain. */
    method ScanChain(k: nat, page: nat) returns (r: Option<Node>)
      requires Valid() && k < CHAINS
      ensures r == FirstCover(Chain(k), page)
    {
      if head[k].Some? && Covers(head[k].value, page) {
        return head[k];
      }
      ghost var c := Chain(k);
      ghost var skipped := if head[k].Some? then 1 else 0;
      var j := 0;
      while j < |rest[k]|
        invariant 0 <= j <= |rest[k]| && FirstCover(c, page) == FirstCover(c[skipped + j..], page)
      {
        assert c[skipped + j] == rest[k][j];
        if Covers(rest[k][j], page) {
          return Some(rest[k][j]);
        }
        assert c[skipped + j..][1..] == c[skipped + j + 1..];
        j := j + 1;
      }
      assert c[skipped + j..] == [];
      return None;
    }

    /** pageInMappings: a mapping that has the page, if there is one. */
    method PageInMappings(page: nat) returns (r: Option<Node>)
      requires Valid() && HasChain(page)
      ensures r == Found(page)
      ensures r.Some? ==> r.value in Nodes() && Covers(r.value, page) && Holdable(r.value)
      ensures r.None? ==> forall n | n in Nodes() :: !Covers(n, page)
    {
      r := HashSearch(page);
      if r.Some? {
        return;
      }
      var k := 0;
      while k < CHAINS
        invariant 0 <= k <= CHAINS && FirstCover(Chains(k), page) == None
        invariant FirstStart(Chain(Hash(page)), page) == None
      {
        r := ScanChain(k, page);
        CoverJoin(Chains(k), Chain(k), page);
        if r.Some? {
          EarlyCover(k + 1, |head|, page);
          return;
        }
        k := k + 1;
      }
      return None;
    }

    lemma {:induction false} EarlyCover(k: nat, m: nat, page: nat)
      requires Valid() && k <= m <= CHAINS && FirstCover(Chains(k), page).Some?
      ensures FirstCover(Chains(m), page) == FirstCover(Chains(k), page)
    {
      if k < m {
        EarlyCover(k, m - 1, page);
        CoverJoin(Chains(m - 1), Chain(m - 1), page);
      }
    }

    /** A mapping at `page` needs a node of the pool and none is left. */
    ghost predicate Full(page: nat)
      requires Valid() && HasChain(page)
      reads this
    {
      head[Hash(page)].Some? && poolCounter == POOL
    }

    /** The table has `n` beside what it had: in the chain of its page, and in no other. */
    twostate lemma NodeAdded(n: Node)
      requires old(Valid()) && Valid() && Holdable(n)
      requires forall k | 0 <= k < CHAINS && k != Hash(n.start) :: Chain(k) == old(Chain(k))
      requires forall m :: m in Chain(Hash(n.start)) <==> m == n || m in old(Chain(Hash(n.start)))
      ensures Nodes() == old(Nodes()) + {n}
    {
      forall m ensures m in Nodes() <==> m in old(Nodes()) + {n} {
        IsNode(m);
        assert m in old(Nodes()) <==> exists i :: 0 <= i < |old(head)| && m in old(Chain(i));
      }
    }

    /** hashInsert: false if the new node would be the one behind the pool. */
    method HashInsert(n: Node) returns (ok: bool)
      requires Valid() && Holdable(n)
      modifies this
      ensures Valid() && ok == !old(Full(n.start))
      ensures ok ==> Nodes() == old(Nodes()) + {n} && mostRecent == Some(n)
      ensures ok ==> poolCounter == old(poolCounter) + if old(head)[Hash(n.start)].Some? then 1 else 0
      ensures !ok ==> unchanged(this) && Nodes() == old(Nodes())
    {
      var k := Hash(n.start);
      if head[k].None? {
        head := head[k := Some(n)];
        assert Chain(k) == [n] + old(Chain(k));
      } else {
        if poolCounter >= POOL {
          return false;
        }
        poolCounter := poolCounter + 1;
        rest := rest[k := [n] + rest[k]];
        assert Chain(k) == [old(head[k].value), n] + old(rest[k]);
      }
      mostRecent := Some(n);
      assert forall i | 0 <= i < CHAINS && i != k :: Chain(i) == old(Chain(i));
      NodeAdded(n);
      ok := true;
    }

    /**
     * Where a search for one page ends that begins at `a`: it goes to the end of each mapping that it meets, until it
     * comes to a page that is free, or to one that has no chain.
     */
    ghost function Landing(a: nat): Option<nat>
      requires Valid()
      reads this
      decreases if a < VPAGES then VPAGES - a else 0
    {
      if a >= VPAGES || !HasChain(a) then None
      else if Found(a).None? then Some(a)
      else Landing(Found(a).value.start + Found(a).value.pages)
    }

    /** The end of the mapping that has a page is the next place to look. */
    lemma Jump(n: Node, a: nat, i: nat, count: nat)
      requires Valid() && i < count && n in Nodes() && Covers(n, a + i)
      ensures forall b | a <= b < n.start + n.pages :: !Misses(Nodes(), b, count)
    {
      forall b | a <= b < n.start + n.pages ensures !Misses(Nodes(), b, count) {
        JumpSkipsNothing(Nodes(), n, a, i, count, b);
      }
    }

    lemma LandingJump(n: Node, a: nat, end: nat)
      requires Valid() && a < VPAGES && HasChain(a) && Found(a) == Some(n) && end == n.start + n.pages
      ensures a < end < VPAGES && Landing(a) == Landing(end)
    {
    }

    /** The search from `hint` has come to `a`. */
    ghost predicate ComeTo(hint: nat, count: nat, a: nat)
      requires Valid()
      reads this
    {
      && hint <= a < VPAGES && (forall b | hint <= b < a :: !Misses(Nodes(), b, count))
      && (count == 1 ==> Landing(hint) == Landing(a))
    }

    lemma ComeFurther(hint: nat, count: nat, a: nat, i: nat, n: Node, end: nat)
      requires Valid() && ComeTo(hint, count, a) && i < count && HasChain(a + i) && Found(a + i) == Some(n)
      requires end == n.start + n.pages
      ensures ComeTo(hint, count, end) && a < end
    {
      Jump(n, a, i, count);
      if count == 1 {
        LandingJump(n, a, end);
      }
    }

    /** It is a first fit; and without one it has left the range below 0x80000000, where nothing was free. */
    lemma {:induction false} LandingIs(a: nat)
      requires Valid()
      ensures Landing(a).Some? ==> FirstFit(Nodes(), a, 1, Landing(a).value) && HasChain(Landing(a).value)
      ensures Landing(a).None? ==> forall b | a <= b < HIGH :: !Misses(Nodes(), b, 1)
      decreases if a < VPAGES then VPAGES - a else 0
    {
      if a < VPAGES && HasChain(a) && Found(a).Some? {
        var n := Found(a).value;
        var end := n.start + n.pages;
        LandingJump(n, a, end);
        LandingIs(end);
        Jump(n, a, 0, 1);
      }
    }

    /** The search of wmap without MAP_FIXED for `count` pages from `hint` on would end at `a`. */
    ghost predicate Fits(hint: nat, count: nat, a: nat)
      requires Valid()
      reads this
    {
      FirstFit(Nodes(), hint, count, a) && (a + count <= HIGH || (count == 1 && Landing(hint) == Some(a)))
    }

    /**
     * What the search gives: the first place that fits. Beyond 0x80000000 only a single page can be such a place. It
     * goes wild exactly if it meets a page without a chain first; for more than one page that is exactly if nothing
     * fits below 0x80000000.
     */
    ghost predicate Searched(hint: nat, count: nat, r: Result)
      requires Valid()
      reads this
    {
      && !r.Failed? && (r.Mapped? ==> Fits(hint, count, r.page) && HasChain(r.page) && r.page + count < VPAGES)
      && (r.Mapped? && r.page + count > HIGH ==> count == 1 && r.page > HIGH)
      && (r.Wild? ==> forall a :: !Fits(hint, count, a))
      && (r.Wild? ==> forall a | hint <= a && a + count <= HIGH :: !Misses(Nodes(), a, count))
      && (count == 1 ==> r == if Landing(hint).Some? then Mapped(Landing(hint).value) else Wild)
    }

    /** All pages of a place have chains: it is below 0x80000000, or one page. */
    lemma PlaceBelow(a: nat, count: nat)
      requires count > 0 && forall p | a <= p < a + count :: HasChain(p)
      ensures HasChain(a) && (a + count <= HIGH || (count == 1 && a > HIGH && a + count < VPAGES))
    {
      Chainless(a);
      assert HasChain(a);
      assert a < HIGH < a + count ==> HasChain(HIGH);
      assert count > 1 ==> HasChain(a + 1);
    }

    lemma PlaceFound(hint: nat, count: nat, a: nat)
      requires Valid() && count > 0 && ComeTo(hint, count, a)
      requires (forall p | a <= p < a + count :: HasChain(p)) && Misses(Nodes(), a, count)
      ensures Searched(hint, count, Mapped(a))
    {
      PlaceBelow(a, count);
      assert count == 1 ==> Found(a).None?;
    }

    /** Searching past 0x80000000 leaves no place below it. */
    lemma LeftRange(hint: nat, count: nat, a: nat, i: nat)
      requires Valid() && ComeTo(hint, count, a) && i < count && !HasChain(a + i)
      ensures Searched(hint, count, Wild)
    {
    }

    /** The search of wmap without MAP_FIXED, from `hint` on. */
    method Search(hint: nat, count: nat) returns (r: Result)
      requires Valid() && count > 0 && hint < HIGH
      ensures Searched(hint, count, r)
    {
      var a := hint;
      while true
        invariant a < VPAGES && ComeTo(hint, count, a)
        decreases VPAGES - a
      {
        var i, n := Blocked(a, count);
        if i < count && n.None? {
          LeftRange(hint, count, a, i);
          return Wild;
        }
        if n.None? {
          PlaceFound(hint, count, a);
          return Mapped(a);
        }
        var end := n.value.start + n.value.pages;
        ComeFurther(hint, count, a, i, n.value, end);
        a := end;
      }
    }

    /** The inner loop: the first page from `a` on that is taken, and by what, or that has no chain. */
    method Blocked(a: nat, count: nat) returns (i: nat, n: Option<Node>)
      requires Valid() && count > 0
      ensures i <= count && (forall p | a <= p < a + i :: HasChain(p)) && Misses(Nodes(), a, i)
      ensures i < count && n.None? ==> !HasChain(a + i)
      ensures n.Some? ==> i < count && HasChain(a + i) && Found(a + i) == n
    {
      i := 0;
      while i < count
        invariant 0 <= i <= count && (forall p | a <= p < a + i :: HasChain(p)) && Misses(Nodes(), a, i)
      {
        if !HasChain(a + i) {
          return i, None;
        }
        n := PageInMappings(a + i);
        if n.Some? {
          return;
        }
        i := i + 1;
      }
      n := None;
    }

    /** The search ends at a place for which there is a node. */
    ghost predicate HasPlace(hint: nat, count: nat)
      requires Valid()
      reads this
    {
      exists a :: Fits(hint, count, a) && HasChain(a) && !Full(a)
    }

    lemma OnlyPlace(hint: nat, count: nat, a: nat)
      requires Valid() && Fits(hint, count, a) && HasChain(a)
      ensures HasPlace(hint, count) <==> !Full(a)
    {
      FirstFitOnce(Nodes(), hint, count, a);
    }

    /** One mapping from 0x60000000 to 0x80002000 leaves that page as the place for one page. */
    lemma LandsBehind(n: Node)
      requires Valid() && Nodes() == {n} && n.start == LOW && n.pages == HIGH + 2 - LOW && poolCounter < POOL
      ensures forall hint :: HintFor(0, hint) ==> hint == LOW
      ensures Fits(LOW, 1, HIGH + 2) && HasChain(HIGH + 2) && !Full(HIGH + 2) && HasPlace(LOW, 1)
      ensures forall a :: Fits(LOW, 1, a) ==> a == HIGH + 2
    {
      LandingIs(LOW);
      assert Found(LOW) == Some(n) by {
        assert Covers(n, LOW);
      }
      assert Landing(LOW) == Landing(HIGH + 2);
      assert Found(HIGH + 2).None?;
      FirstFitOnce(Nodes(), LOW, 1, HIGH + 2);
    }

    /** Where the search begins: behind the mapping that has the page, or behind the newest one. */
    ghost predicate HintFor(page: nat, hint: nat)
      requires Valid()
      reads this
    {
      exists n | n in Nodes() ::
        && (if exists m :: m in Nodes() && Covers(m, page) then Covers(n, page) else mostRecent == Some(n))
        && hint == if LOW <= n.start + n.pages < HIGH then n.start + n.pages else LOW
    }

    /** The page has a chain, and some mapping gives a hint where to begin. */
    ghost predicate CanSearch(page: nat)
      requires Valid()
      reads this
    {
      HasChain(page) && (mostRecent.Some? || exists n :: n in Nodes() && Covers(n, page))
    }

    /** pageInMappings of the address, and the hint from what it finds or from the newest mapping. */
    method Hint(page: nat) returns (r: Option<nat>)
      requires Valid()
      ensures r.Some? <==> CanSearch(page)
      ensures r.Some? ==> HintFor(page, r.value) && LOW <= r.value < HIGH
    {
      if !HasChain(page) {
        return None;
      }
      var n := PageInMappings(page);
      if n.None? {
        n := mostRecent;
      }
      if n.None? {
        return None;
      }
      IsNode(n.value);
      var begin := n.value.start + n.value.pages;
      r := Some(if begin < LOW || begin >= HIGH then LOW else begin);
    }

    /** What MAP_FIXED gives at a page. */
    ghost function FixedResult(page: nat): Result
      requires Valid()
      reads this
    {
      if page < LOW || page >= HIGH || exists n :: n in Nodes() && Covers(n, page) then Failed
      else if Full(page) then Wild
      else Mapped(page)
    }

    /** Where the mapping goes, before it is entered. */
    method Place(page: nat, count: nat, fixed: bool) returns (r: Result, ghost hint: nat)
      requires Valid() && 0 < count < HIGH
      ensures fixed ==> r == if page < LOW || page >= HIGH || exists n :: n in Nodes() && Covers(n, page) then Failed
                             else Mapped(page)
      ensures !fixed ==> !r.Failed? && (r.Mapped? ==> CanSearch(page))
      ensures !fixed && CanSearch(page) ==> HintFor(page, hint) && (r.Wild? ==> !HasPlace(hint, count))
      ensures !fixed && r.Mapped? ==> Fits(hint, count, r.page)
      ensures r.Mapped? ==> HasChain(r.page) && r.page + count < VPAGES
    {
      hint := 0;
      if fixed {
        if page < LOW || page >= HIGH {
          return Failed, hint;
        }
        var n := PageInMappings(page);
        r := if n.Some? then Failed else Mapped(page);
      } else {
        var begin := Hint(page);
        if begin.None? {
          return Wild, hint;
        }
        hint := begin.value;
        r := Search(begin.value, count);
      }
    }

    /**
     * wmap. Without MAP_FIXED it is first fit from its hint. It goes wild exactly if the length is too long, if there
     * is no hint to begin from, if nothing fits, or if the pool has no node left for the mapping.
     */
    method Map(addr: nat, length: int, flags: nat, fd: int) returns (r: Result, ghost hint: nat)
      requires Valid() && addr < VPAGES * PGSIZE && -0x8000_0000 <= length < 0x8000_0000
      modifies this
      ensures Valid()
      ensures length <= 0 ==> r == Failed
      ensures length > MAXLENGTH ==> r == Wild
      ensures !r.Mapped? ==> unchanged(this) && Nodes() == old(Nodes())
      ensures r.Mapped? ==> 0 < length <= MAXLENGTH
      ensures r.Mapped? ==>
                var n := Node(r.page, Pages(length), length, fd, flags);
                Nodes() == old(Nodes()) + {n} && mostRecent == Some(n) && poolCounter <= old(poolCounter) + 1
      ensures 0 < length <= MAXLENGTH && !Fixed(flags) ==> !r.Failed? && (r.Mapped? ==> old(CanSearch(addr / PGSIZE)))
      ensures 0 < length <= MAXLENGTH && !Fixed(flags) && old(CanSearch(addr / PGSIZE)) ==>
                old(HintFor(addr / PGSIZE, hint)) && (r.Mapped? <==> old(HasPlace(hint, Pages(length))))
      ensures r.Mapped? && !Fixed(flags) ==> old(Fits(hint, Pages(length), r.page))
      ensures r.Mapped? && !Fixed(flags) && old(Disjoint(Nodes())) ==> Disjoint(Nodes())
      ensures 0 < length <= MAXLENGTH && Fixed(flags) ==> r == old(FixedResult(addr / PGSIZE))
    {
      hint := 0;
      if length <= 0 {
        return Failed, hint;
      }
      if length > MAXLENGTH {
        return Wild, hint;
      }
      var page, count := addr / PGSIZE, Pages(length);
      r, hint := Place(page, count, Fixed(flags));
      if !r.Mapped? {
        return;
      }
      var n := Node(r.page, count, length, fd, flags);
      if !Fixed(flags) {
        OnlyPlace(hint, count, r.page);
        if Disjoint(Nodes()) {
          StillDisjoint(Nodes(), n);
        }
      }
      var ok := HashInsert(n);
      if !ok {
        r := Wild;
      }
    }
  }

  /** There is only one first fit. */
  lemma FirstFitOnce(nodes: set<Node>, hint: nat, count: nat, a: nat)
    requires FirstFit(nodes, hint, count, a)
    ensures forall b | FirstFit(nodes, hint, count, b) :: b == a
  {
  }

  predicate Fixed(flags: nat) {
    (flags / MAP_FIXED) % 2 == 1
  }

  method WideMapping() returns (t: Table, ghost n: Node)
    ensures fresh(t) && t.Valid() && t.Nodes() == {n} && t.mostRecent == Some(n) && t.poolCounter < POOL
    ensures n.start == LOW && n.pages == HIGH + 2 - LOW
  {
    t := new Table();
    var _, _ := t.Map(LOW * PGSIZE, 0x20002000, MAP_FIXED, -1);
    n := Node(LOW, HIGH + 2 - LOW, 0x20002000, -1, MAP_FIXED);
  }

  /**
   * The range of the hash function ends at 0x80000000, and yet: after MAP_FIXED of 0x20002000 bytes at 0x60000000, one
   * page without it goes to 0x80002000.
   */
  method LandsAbove() returns (r: Result)
    ensures r == Mapped(HIGH + 2)
  {
    var t, n := WideMapping();
    t.LandsBehind(n);
    ghost var hint;
    r, hint := t.Map(0, PGSIZE, 0, -1);
  }
}
