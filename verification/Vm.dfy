/** kalloc.c and vm.c: the page allocator, and address spaces built, grown, copied and freed over it. */
module Vm {
  import opened PageTables
  import opened Results

  /** Page numbers of memlayout.h: KERNBASE and DEVSPACE are virtual, EXTMEM and PHYSTOP physical. */
  const KERNBASE: nat := 0x80000
  const DEVSPACE: nat := 0xFE000
  const EXTMEM: nat := 0x100
  const PHYSTOP: nat := 0xE000
  const VPAGES: nat := 0x100000

  const PGSIZE: nat := 4096

  /** PGROUNDUP as a page number. */
  function Up(sz: nat): nat {
    (sz + PGSIZE - 1) / PGSIZE
  }

  lemma FreeTaken(free: seq<nat>, owner: Owners, pn: nat)
    requires FreeOk(free, owner) && free != [] && pn == free[0]
    ensures FreeOk(free[1..], owner[pn := Kernel])
  {
    var rest, owner' := free[1..], owner[pn := Kernel];
    assert free == [pn] + rest;
    forall x ensures x in rest <==> Owned(owner', x, Free) {
      if x in rest {
        var i :| 0 <= i < |rest| && rest[i] == x;
        assert free[i + 1] == x && x in free;
      }
      if Owned(owner', x, Free) {
        assert x in [pn] + rest;
      }
    }
  }

  lemma FreeGiven(free: seq<nat>, owner: Owners, pn: nat)
    requires FreeOk(free, owner) && pn in owner && owner[pn] != Free
    ensures FreeOk([pn] + free, owner[pn := Free])
  {
    assert pn !in free;
  }

  /** A page changes hands outside the page tables. */
  lemma KernelOwning(page: Pages, owner: Owners, pn: nat, o: Owner)
    requires Owning(page, owner) && pn in owner && (owner[pn] == Free || owner[pn] == Kernel)
      && (o == Free || o == Kernel)
    ensures Owning(page, owner[pn := o])
  {
    forall x | x in page ensures PageOk(page, owner[pn := o], x) {
      assert PageOk(page, owner, x);
    }
  }

  class Vm {
    var page: Pages
    var free: seq<nat>           // kmem.freelist, first one first
    ghost var owner: Owners

    ghost predicate Valid()
      reads this
    {
      Owning(page, owner) && FreeOk(free, owner) && forall pn | pn in page :: 0 < pn < PHYSTOP
    }

    /** kinit1 and kinit2 with freerange: every page from `first` up to PHYSTOP is free. */
    constructor (first: nat, contents: Pages)
      requires 0 < first <= PHYSTOP && forall pn :: pn in contents <==> first <= pn < PHYSTOP
      ensures Valid() && owner.Keys == contents.Keys && forall pn | pn in owner :: owner[pn] == Free
    {
      page, free, owner := contents, [], map pn | pn in contents :: Kernel;
      new;
      var p := first;
      while p < PHYSTOP
        invariant first <= p <= PHYSTOP && Valid() && owner.Keys == contents.Keys
        invariant forall pn | pn in owner :: owner[pn] == if pn < p then Free else Kernel
      {
        Release(p);
        p := p + 1;
      }
    }

    /** kalloc: the first free page. */
    method Kalloc() returns (r: Option<nat>)
      requires Valid()
      modifies this`free, this`owner
      ensures Valid() && (r.None? <==> old(free) == [])
      ensures r.None? ==> free == old(free) && owner == old(owner)
      ensures r.Some? ==> old(free) == [r.value] + free && Owned(old(owner), r.value, Free)
                          && owner == old(owner)[r.value := Kernel]
    {
      if free == [] {
        return None;
      }
      var pn := free[0];
      assert pn in free;
      FreeTaken(free, owner, pn);
      KernelOwning(page, owner, pn, Kernel);
      free, owner := free[1..], owner[pn := Kernel];
      return Some(pn);
    }

    /** kfree's change of memory and list; it panics for a page that is not in its range. */
    method Kfree(pn: nat)
      requires pn in page
      modifies this`page, this`free
      ensures page == old(page)[pn := Junk()] && free == [pn] + old(free)
    {
      page := page[pn := Junk()];
      free := [pn] + free;
    }

    /** kfree of a page that kalloc gave. */
    method Release(pn: nat)
      requires Valid() && Owned(owner, pn, Kernel)
      modifies this
      ensures Valid() && page == old(page)[pn := Junk()] && owner == old(owner)[pn := Free]
    {
      FreeGiven(free, owner, pn);
      KernelOwning(page, owner, pn, Free);
      KernelContents(page, owner[pn := Free], pn, Junk());
      Kfree(pn);
      owner := owner[pn := Free];
    }

    /** walkpgdir: the table with the entry of virtual page `n`, made if `alloc`; what `d` maps stays. */
    method Walk(d: nat, n: nat, alloc: bool) returns (r: Option<nat>)
      requires Valid() && Owned(owner, d, Dir) && n < VPAGES
      modifies this
      ensures Valid() && d in page && SameEntries(old(page), page, d) && Kept(old(page), old(owner), page, owner, d, {})
      ensures GrewOwners(old(owner), owner, d, 0, 0)
      ensures r.Some? ==> Owned(owner, r.value, Table(d, Pdx(n))) && Entry(page, d, n) == page[r.value][Ptx(n)]
      ensures r.None? ==> !Present(page[d][Pdx(n)]) && (alloc ==> free == [])
      ensures r.None? || !alloc ==> page == old(page) && owner == old(owner) && free == old(free)
    {
      assert PageOk(page, owner, d);
      if Present(page[d][Pdx(n)]) {
        assert Owned(owner, page[d][Pdx(n)].hi, Table(d, Pdx(n)));
        return Some(page[d][Pdx(n)].hi);
      }
      if !alloc {
        return None;
      }
      r := Kalloc();
      if r.Some? {
        var t := r.value;
        WithTableOwning(page, owner, d, Pdx(n), t);
        WithTableSame(page, owner, d, Pdx(n), t);
        FreeKept(free, owner, t, Table(d, Pdx(n)));
        page := page[t := Zero()];
        page := Put(page, d, Pdx(n), Word(t, PTE_P + PTE_W + PTE_U));
        owner := owner[t := Table(d, Pdx(n))];
      }
    }

    /** One round of mappages: virtual page `n` of `d` maps page `pn`, which is the kernel's if `n` is a user page. */
    method MapPage(d: nat, n: nat, pn: nat, perm: nat) returns (ok: bool)
      requires Valid() && Owned(owner, d, Dir) && n < VPAGES && (n < KERNBASE ==> Owned(owner, pn, Kernel))
      modifies this
      ensures Valid() && d in page && Kept(old(page), old(owner), page, owner, d, if n < KERNBASE then {pn} else {})
      ensures GrewOwners(old(owner), owner, d, 0, 0)
      ensures ok <==> Mapped(old(page), page, d, n, Word(pn, WithP(perm)))
      ensures ok && n < KERNBASE ==> Owned(owner, pn, User(d, Pdx(n), Ptx(n))) && pn in old(page)
                                     && page[pn] == old(page)[pn]
      ensures !ok ==> SameEntries(old(page), page, d) && (Present(Entry(old(page), d, n)) || free == [])
      ensures !ok && n < KERNBASE ==> Owned(owner, pn, Kernel)
    {
      var r := Walk(d, n, true);
      if r.None? {
        return false;
      }
      var t := r.value;
      if Present(page[t][Ptx(n)]) {
        return false;
      }
      ghost var page1, owner1 := page, owner;
      SetEntry(d, n, t, pn, perm);
      KeptThen(old(page), old(owner), page1, owner1, page, owner, d, if n < KERNBASE then {pn} else {});
      MappedThen(old(page), page1, page, d, n, Word(pn, WithP(perm)));
      return true;
    }

    /** `*pte = pa | perm | PTE_P` for an empty entry. */
    method SetEntry(d: nat, n: nat, t: nat, pn: nat, perm: nat)
      requires Valid() && Owned(owner, t, Table(d, Pdx(n))) && d in page && n < VPAGES
        && (n < KERNBASE ==> Owned(owner, pn, Kernel))
      requires !Present(page[t][Ptx(n)]) && Entry(page, d, n) == page[t][Ptx(n)]
      modifies this`page, this`owner
      ensures Valid() && d in page && Kept(old(page), old(owner), page, owner, d, if n < KERNBASE then {pn} else {})
      ensures Mapped(old(page), page, d, n, Word(pn, WithP(perm)))
      ensures n < KERNBASE ==> owner == old(owner)[pn := User(d, Pdx(n), Ptx(n))] && page[pn] == old(page)[pn]
      ensures n >= KERNBASE ==> owner == old(owner)
    {
      var w := Word(pn, WithP(perm));
      EntryPut(page, owner, d, n, t, w);
      if n < KERNBASE {
        MapOwning(page, owner, d, Pdx(n), t, Ptx(n), pn, WithP(perm));
        FreeKept(free, owner, pn, User(d, Pdx(n), Ptx(n)));
        owner := owner[pn := User(d, Pdx(n), Ptx(n))];
      } else {
        MapKernelOwning(page, owner, d, Pdx(n), t, Ptx(n), w);
      }
      page := Put(page, t, Ptx(n), w);
    }

    /**
     * mappages for `count` pages: all of them, or those before one that was mapped already or whose table could not be
     * made. The user pages to map are the kernel's, and in `but`.
     */
    method Mappages(d: nat, n: nat, count: nat, pn: nat, perm: nat, ghost but: set<nat>)
      returns (ok: bool, ghost done: nat)
      requires Valid() && Owned(owner, d, Dir) && count > 0 && n + count <= VPAGES
      requires ToMap(owner, d, n, count, pn, 0, but)
      modifies this
      ensures Valid() && d in page && Owned(owner, d, Dir) && done <= count && (ok <==> done == count)
      ensures Mapping(old(page), old(owner), page, owner, d, n, count, pn, done, perm, but)
      ensures !ok ==> Present(Entry(old(page), d, n + done)) || free == []
    {
      done := 0;
      ok := true;
      MappingStart(page, owner, d, n, count, pn, perm, but);
      var a, p, end := n, pn, n + count;
      while ok && a < end
        invariant n <= a <= end && a == n + done && p == pn + done && done <= count
        invariant !ok ==> a < end && (Present(Entry(old(page), d, a)) || free == [])
        invariant Valid() && Owned(owner, d, Dir) && d in page
          && Mapping(old(page), old(owner), page, owner, d, n, count, pn, done, perm, but)
        decreases end - a, ok
      {
        ok, done := MapStep(d, n, count, pn, perm, a, p, done, old(page), old(owner), but);
        if ok {
          a, p := a + 1, p + 1;
        }
      }
    }

    /** One round, in relation to the start. */
    method MapStep(d: nat, ghost n: nat, ghost count: nat, ghost pn: nat, perm: nat, a: nat, p: nat, ghost done: nat,
                   ghost page0: Pages, ghost owner0: Owners, ghost but: set<nat>) returns (ok: bool, ghost done': nat)
      requires Valid() && Owned(owner, d, Dir) && d in page0 && n + count <= VPAGES && done < count && a == n + done
        && p == pn + done
      requires Mapping(page0, owner0, page, owner, d, n, count, pn, done, perm, but)
      modifies this
      ensures Valid() && Owned(owner, d, Dir) && d in page && done' == if ok then done + 1 else done
      ensures Mapping(page0, owner0, page, owner, d, n, count, pn, done', perm, but)
      ensures !ok ==> Present(Entry(page0, d, a)) || free == []
    {
      ghost var page1, owner1 := page, owner;
      assert Slot(pn, n, a) == p;
      ok := MapPage(d, a, p, perm);
      done' := if ok then done + 1 else done;
      MapNext(page0, page1, page, owner1, owner, d, n, count, pn, done, perm, but, a, p, ok);
      KeptTwice(page0, owner0, page1, owner1, page, owner, d, but);
      GrewTwice(owner0, owner1, owner, d);
    }

    /** vm.c:279-287: the user page `u` that virtual page `n` maps is freed, and the entry cleared. */
    method Unmap(d: nat, n: nat, t: nat, ghost u: nat)
      requires Valid() && Owned(owner, t, Table(d, Pdx(n))) && n < KERNBASE && Present(page[t][Ptx(n)])
        && u == page[t][Ptx(n)].hi
      modifies this
      ensures Valid() && Owned(old(owner), u, User(d, Pdx(n), Ptx(n))) && owner == old(owner)[u := Free] && t != u
      ensures page == Put(old(page)[u := Junk()], t, Ptx(n), Word(0, 0))
    {
      var pn := page[t][Ptx(n)].hi;
      UnmapOwning(page, owner, d, Pdx(n), t, Ptx(n), pn);
      FreeGiven(free, owner, pn);
      Kfree(pn);
      page := Put(page, t, Ptx(n), Word(0, 0));
      owner := owner[pn := Free];
    }

    /** deallocuvm: every user page between the two sizes is freed and its entry cleared; nothing else changes. */
    method Deallocuvm(d: nat, oldsz: nat, newsz: nat) returns (r: nat)
      requires Valid() && Owned(owner, d, Dir) && oldsz <= KERNBASE * PGSIZE
      modifies this
      ensures Valid() && d in page && r == if newsz >= oldsz then oldsz else newsz
      ensures Cleared(old(page), old(owner), page, owner, d, Up(newsz), Up(oldsz))
    {
      if newsz >= oldsz {
        ClearedNone(page, owner, d, Up(newsz), Up(oldsz));
        return oldsz;
      }
      var a, hi := Up(newsz), Up(oldsz);
      ghost var lo := a;
      ClearedNone(page, owner, d, lo, lo);
      while a < hi
        invariant lo <= a && Valid() && Owned(owner, d, Dir) && d in page
        invariant Cleared(old(page), old(owner), page, owner, d, lo, Min(a, hi))
      {
        a := DeallocPage(d, a, hi, old(page), old(owner), lo);
      }
      return newsz;
    }

    /** One round of deallocuvm's loop, which skips to the next table where there is none. */
    method DeallocPage(d: nat, a: nat, hi: nat, ghost page0: Pages, ghost owner0: Owners, ghost lo: nat)
      returns (b: nat)
      requires Valid() && Owned(owner, d, Dir) && d in page0 && lo <= a < hi <= KERNBASE
        && Cleared(page0, owner0, page, owner, d, lo, a)
      modifies this
      ensures Valid() && Owned(owner, d, Dir) && a < b && Cleared(page0, owner0, page, owner, d, lo, Min(b, hi))
    {
      var w := Walk(d, a, false);
      if w.None? {
        b := (Pdx(a) + 1) * ENTRIES;       // PGADDR(PDX(a) + 1, 0, 0)
        ClearedSkip(page0, owner0, page, owner, d, lo, a, Min(b, hi));
      } else {
        b := a + 1;
        var t := w.value;
        if Present(page[t][Ptx(a)]) {
          ghost var page1, owner1, u := page, owner, page[t][Ptx(a)].hi;
          Unmap(d, a, t, u);
          ClearedStep(page0, owner0, page1, owner1, d, lo, a, b, t, u);
        } else {
          ClearedEmpty(page0, owner0, page, owner, d, lo, a, b);
        }
      }
    }

    /**
     * allocuvm: the pages up to the new size are mapped to zeroed pages, or none between the sizes is mapped, whether
     * allocuvm or an earlier call mapped it.
     */
    method Allocuvm(d: nat, oldsz: nat, newsz: nat) returns (r: nat)
      requires Valid() && Owned(owner, d, Dir)
      modifies this
      ensures Valid() && d in page && Owned(owner, d, Dir)
      ensures newsz >= KERNBASE * PGSIZE ==> r == 0 && page == old(page) && owner == old(owner)
      ensures newsz < KERNBASE * PGSIZE && newsz < oldsz ==> r == oldsz && page == old(page) && owner == old(owner)
      ensures oldsz <= newsz < KERNBASE * PGSIZE ==>
                || (r == newsz && Grew(old(page), old(owner), page, owner, d, Up(oldsz), Up(newsz)))
                || (r == 0 && Undone(old(page), old(owner), page, owner, d, Up(oldsz), Up(newsz)))
    {
      if newsz >= KERNBASE * PGSIZE {
        return 0;
      }
      if newsz < oldsz {
        return oldsz;
      }
      var a, hi := Up(oldsz), Up(newsz);
      ghost var lo := a;
      while a < hi
        invariant lo <= a && (a <= hi || a == lo) && Valid() && Owned(owner, d, Dir) && d in page
          && Grew(old(page), old(owner), page, owner, d, lo, a)
      {
        var ok := AllocPage(d, a, old(page), old(owner), lo, hi, oldsz, newsz);
        if !ok {
          return 0;
        }
        a := a + 1;
      }
      return newsz;
    }

    /** So allocuvm over a page that is mapped fails, and that page is gone. */
    method GrowOver(d: nat, oldsz: nat, newsz: nat, ghost n: nat) returns (r: nat)
      requires Valid() && Owned(owner, d, Dir) && oldsz <= newsz < KERNBASE * PGSIZE
      requires Up(oldsz) <= n < Up(newsz) && Present(Entry(page, d, n))
      modifies this
      ensures Valid() && d in page && r == 0 && !Present(Entry(page, d, n))
    {
      r := Allocuvm(d, oldsz, newsz);
    }

    /** One round of allocuvm's loop, with the clean-up if it fails. */
    method AllocPage(d: nat, a: nat, ghost page0: Pages, ghost owner0: Owners, ghost lo: nat, ghost hi: nat, oldsz: nat,
                     newsz: nat) returns (ok: bool)
      requires Valid() && Owned(owner, d, Dir) && d in page0 && owner0.Keys == page0.Keys
        && Grew(page0, owner0, page, owner, d, lo, a)
      requires lo == Up(oldsz) && hi == Up(newsz) && oldsz <= newsz < KERNBASE * PGSIZE && lo <= a < hi
      modifies this
      ensures Valid() && Owned(owner, d, Dir) && d in page
      ensures ok ==> Grew(page0, owner0, page, owner, d, lo, a + 1)
      ensures !ok ==> Undone(page0, owner0, page, owner, d, lo, hi)
    {
      ghost var page1, owner1 := page, owner;
      var mem := Kalloc();
      if mem.None? {
        Undo(d, page0, owner0, lo, a, hi, oldsz, newsz);
        return false;
      }
      ok := AllocInto(d, a, mem.value, page0, owner0, page1, owner1, lo, hi, oldsz, newsz);
    }

    /** The round once it has a page `mem`; `page1` and `owner1` are from before. */
    method AllocInto(d: nat, a: nat, mem: nat, ghost page0: Pages, ghost owner0: Owners, ghost page1: Pages,
                     ghost owner1: Owners,
                     ghost lo: nat, ghost hi: nat, oldsz: nat, newsz: nat) returns (ok: bool)
      requires Valid() && Owned(owner, d, Dir) && d in page0 && d in page1 && owner0.Keys == page0.Keys
        && Owning(page1, owner1) && Grew(page0, owner0, page1, owner1, d, lo, a)
      requires Owned(owner1, mem, Free) && page == page1 && owner == owner1[mem := Kernel]
      requires lo == Up(oldsz) && hi == Up(newsz) && oldsz <= newsz < KERNBASE * PGSIZE && lo <= a < hi
      modifies this
      ensures Valid() && Owned(owner, d, Dir) && d in page
      ensures ok ==> Grew(page0, owner0, page, owner, d, lo, a + 1)
      ensures !ok ==> Undone(page0, owner0, page, owner, d, lo, hi)
    {
      Clear(mem, d);
      ghost var page2, owner2 := page, owner;
      ok := MapPage(d, a, mem, PTE_W + PTE_U);
      if !ok {
        FailedMap(page0, owner0, page1, owner1, page2, owner2, page, owner, d, lo, a, mem);
        UndoMap(d, page0, owner0, lo, a, hi, oldsz, newsz, mem);
      } else {
        GrewStep(page0, owner0, page1, owner1, page2, owner2, page, owner, d, lo, a, a + 1, mem);
      }
    }

    /** vm.c:246. */
    method Undo(d: nat, ghost page0: Pages, ghost owner0: Owners, ghost lo: nat, ghost a: nat, ghost hi: nat,
                oldsz: nat, newsz: nat)
      requires Valid() && Owned(owner, d, Dir) && d in page0 && owner0.Keys == page0.Keys
        && Grew(page0, owner0, page, owner, d, lo, a)
      requires lo == Up(oldsz) && hi == Up(newsz) && oldsz <= newsz < KERNBASE * PGSIZE && lo <= a < hi
      modifies this
      ensures Valid() && Owned(owner, d, Dir) && d in page && Undone(page0, owner0, page, owner, d, lo, hi)
    {
      ghost var page1, owner1 := page, owner;
      var _ := Deallocuvm(d, newsz, oldsz);
      UndoneBy(page0, owner0, page1, owner1, page, owner, d, lo, a, hi);
    }

    /** vm.c:253-254. */
    method UndoMap(d: nat, ghost page0: Pages, ghost owner0: Owners, ghost lo: nat, ghost a: nat, ghost hi: nat,
                   oldsz: nat, newsz: nat, mem: nat)
      requires Valid() && Owned(owner, d, Dir) && d in page0 && owner0.Keys == page0.Keys && Owned(owner, mem, Kernel)
      requires GrewOwners(owner0, owner[mem := Free], d, lo, a) && Kept(page0, owner0, page, owner[mem := Free], d, {})
      requires forall n: nat | !(lo <= n < a) :: Entry(page, d, n) == Entry(page0, d, n)
      requires lo == Up(oldsz) && hi == Up(newsz) && oldsz <= newsz < KERNBASE * PGSIZE && lo <= a < hi
      modifies this
      ensures Valid() && Owned(owner, d, Dir) && d in page && Undone(page0, owner0, page, owner, d, lo, hi)
    {
      ghost var page3, owner3 := page, owner;
      var _ := Deallocuvm(d, newsz, oldsz);
      ghost var page4, owner4 := page, owner;
      Release(mem);
      ClearedRelease(page3, owner3, page4, owner4, d, lo, hi, mem);
      UndoneBy(page0, owner0, page3, owner3[mem := Free], page, owner, d, lo, a, hi);
    }

    /** memset of a page that kalloc gave. */
    method Clear(pn: nat, ghost d: nat)
      requires Valid() && Owned(owner, pn, Kernel) && Owned(owner, d, Dir)
      modifies this`page
      ensures Valid() && page == old(page)[pn := Zero()] && d in page && SameEntries(old(page), page, d)
    {
      KernelContents(page, owner, pn, Zero());
      forall n ensures Entry(page[pn := Zero()], d, n) == Entry(page, d, n) {
        ContentsEntry(page, owner, d, pn, Zero(), n);
      }
      page := page[pn := Zero()];
    }

    /** freevm: every page of the address space is free, and nothing else changes hands. */
    method Freevm(d: nat)
      requires Valid() && Owned(owner, d, Dir)
      modifies this
      ensures Valid() && Disowned(old(owner), owner, d) && OthersKept(old(page), old(owner), page, owner, d)
    {
      ghost var page0, owner0 := page, owner;
      var _ := Deallocuvm(d, KERNBASE * PGSIZE, 0);
      ghost var page1, owner1 := page, owner;
      NoUsers(page0, owner0, page, owner, d);
      FreeSame(free, owner, d);
      owner := Dismantled(owner, d);
      FreeTables(d, page1, owner1);
      ghost var page2, owner2 := page, owner;
      Release(d);
      AllFreed(page0, owner0, page1, owner1, page2, owner2, d);
    }

    /** freevm's loop over the directory. */
    method FreeTables(d: nat, ghost page1: Pages, ghost owner1: Owners)
      requires Valid() && d in page && page == page1 && owner == Dismantled(owner1, d) && Owning(page1, owner1)
        && Owned(owner1, d, Dir)
      modifies this
      ensures Valid() && TornDown(owner1, owner, d, ENTRIES) && OthersKept(page1, owner1, page, owner, d)
    {
      var i := 0;
      while i < ENTRIES
        invariant 0 <= i <= ENTRIES && Valid() && d in page && page[d] == page1[d]
        invariant TornDown(owner1, owner, d, i) && OthersKept(page1, owner1, page, owner, d)
      {
        ghost var page2, owner2 := page, owner;
        if Present(page[d][i]) {
          var t := page[d][i].hi;
          TornStep(page1, owner1, page, owner, d, i, i + 1, t);
          Release(t);
        } else {
          TornSkip(page1, owner1, owner, d, i, i + 1);
        }
        i := i + 1;
      }
    }

    /** setupkvm: a directory with the kernel's mappings and no others, or nothing at all. */
    method Setupkvm(data: nat) returns (r: Option<nat>)
      requires Valid() && EXTMEM < data < PHYSTOP
      modifies this
      ensures Valid()
      ensures r.None? ==> owner == old(owner) && InUseKept(old(page), old(owner), page)
      ensures r.Some? ==> Owned(owner, r.value, Dir) && Built(old(page), old(owner), page, owner, r.value)
      ensures r.Some? ==> forall n: nat :: Entry(page, r.value, n) == Kmapped(Kmap(data), 4, n)
    {
      ghost var page0, owner0 := page, owner;
      r := Kalloc();
      if r.None? {
        return;
      }
      var d := r.value;
      NewDir(d, page0, owner0);
      var rows := Kmap(data);
      var k := 0;
      while k < |rows|
        invariant 0 <= k <= |rows| && Valid() && Owned(owner, d, Dir) && Built(page0, owner0, page, owner, d)
        invariant forall n: nat :: Entry(page, d, n) == Kmapped(rows, k, n)
      {
        var ok := MapRow(d, rows, k, page0, owner0);
        if !ok {
          GiveBack(d, page0, owner0);
          return None;
        }
        k := k + 1;
      }
    }

    method MapRow(d: nat, rows: seq<Row>, k: nat, ghost page0: Pages, ghost owner0: Owners) returns (ok: bool)
      requires Valid() && Owned(owner, d, Dir) && Owning(page0, owner0) && Built(page0, owner0, page, owner, d)
        && k < |rows|
      requires rows[k].count > 0 && KERNBASE <= rows[k].virt && rows[k].virt + rows[k].count <= VPAGES
      requires forall n: nat :: Entry(page, d, n) == Kmapped(rows, k, n)
      modifies this
      ensures Valid() && Owned(owner, d, Dir) && Built(page0, owner0, page, owner, d)
      ensures ok ==> forall n: nat :: Entry(page, d, n) == Kmapped(rows, k + 1, n)
    {
      ghost var page1, owner1 := page, owner;
      ghost var done;
      ok, done := Mappages(d, rows[k].virt, rows[k].count, rows[k].phys, rows[k].perm, {});
      BuiltKept(page0, owner0, page1, owner1, page, owner, d);
    }

    /** freevm of an address space that was built on free pages. */
    method GiveBack(d: nat, ghost page0: Pages, ghost owner0: Owners)
      requires Valid() && Owned(owner, d, Dir) && Owning(page0, owner0) && Built(page0, owner0, page, owner, d)
      modifies this
      ensures Valid() && owner == owner0 && InUseKept(page0, owner0, page)
    {
      ghost var page1, owner1 := page, owner;
      Freevm(d);
      BuiltFreed(page0, owner0, page1, owner1, page, owner, d);
    }

    /** A zeroed page becomes a directory that maps nothing. */
    method NewDir(d: nat, ghost page0: Pages, ghost owner0: Owners)
      requires Valid() && Owning(page0, owner0) && Owned(owner0, d, Free) && page == page0
        && owner == owner0[d := Kernel]
      modifies this`page, this`owner
      ensures Valid() && Owned(owner, d, Dir) && Built(page0, owner0, page, owner, d)
      ensures forall n: nat :: Entry(page, d, n) == Word(0, 0)
    {
      NewDirOwning(page, owner, d);
      FreeKept(free, owner, d, Dir);
      page := page[d := Zero()];
      owner := owner[d := Dir];
    }

    /**
     * copyuvm: a second address space with the same contents and flags on other pages, or none at all and every page
     * back. It panics at a page of the parent that is not there.
     */
    method Copyuvm(d: nat, sz: nat, data: nat) returns (r: Copying)
      requires Valid() && Owned(owner, d, Dir) && sz <= KERNBASE * PGSIZE && EXTMEM < data < PHYSTOP
      modifies this
      ensures Valid()
      ensures r.Panicked? ==> exists n :: 0 <= n < Up(sz) && !Present(Entry(old(page), d, n))
      ensures r.NoMemory? ==> owner == old(owner) && InUseKept(old(page), old(owner), page)
      ensures r.Copied? ==> r.e != d && Owned(owner, r.e, Dir) && Built(old(page), old(owner), page, owner, r.e)
      ensures r.Copied? ==> CopyOf(old(page), page, owner, d, r.e, Up(sz)) && forall n: nat | n >= KERNBASE ::
                            Entry(page, r.e, n) == Kmapped(Kmap(data), 4, n)
    {
      ghost var page0, owner0 := page, owner;
      var e := Setupkvm(data);
      if e.None? {
        return NoMemory;
      }
      NoUserRows(Kmap(data));
      var i, hi := 0, Up(sz);
      while i < hi
        invariant 0 <= i <= hi <= KERNBASE && Valid() && Owned(owner, e.value, Dir)
          && Built(page0, owner0, page, owner, e.value)
        invariant CopyOf(page0, page, owner, d, e.value, i) && forall n: nat | n >= KERNBASE ::
                  Entry(page, e.value, n) == Kmapped(Kmap(data), 4, n)
      {
        var c := CopyPage(d, e.value, i, page0, owner0, data);
        if !c.Copied? {
          return c;
        }
        i := i + 1;
      }
      return Copied(e.value);
    }

    /** One round of copyuvm's loop, with the clean-up if memory runs out. */
    method CopyPage(d: nat, e: nat, i: nat, ghost page0: Pages, ghost owner0: Owners, ghost data: nat)
      returns (c: Copying)
      requires Valid() && Owning(page0, owner0) && Owned(owner0, d, Dir) && Owned(owner, e, Dir)
        && Built(page0, owner0, page, owner, e)
      requires i < KERNBASE && EXTMEM < data < PHYSTOP && CopyOf(page0, page, owner, d, e, i)
      requires forall n: nat | n >= KERNBASE :: Entry(page, e, n) == Kmapped(Kmap(data), 4, n)
      modifies this
      ensures Valid()
      ensures c.Panicked? ==> !Present(Entry(page0, d, i))
      ensures c.NoMemory? ==> owner == owner0 && InUseKept(page0, owner0, page)
      ensures c.Copied? ==> Owned(owner, e, Dir) && Built(page0, owner0, page, owner, e)
                            && CopyOf(page0, page, owner, d, e, i + 1)
      ensures c.Copied? ==> forall n: nat | n >= KERNBASE :: Entry(page, e, n) == Kmapped(Kmap(data), 4, n)
    {
      BuiltParent(page0, owner0, page, owner, d, e, i);
      ghost var page1, owner1 := page, owner;
      var t := Walk(d, i, false);
      if t.None? {
        return Panicked;
      }
      var w := page[t.value][Ptx(i)];
      if !Present(w) {
        return Panicked;
      }
      c := CopyInto(d, e, i, w, page0, owner0, data);
    }

    /** The copy of the page behind entry `w` of the parent. */
    method CopyInto(ghost d: nat, e: nat, i: nat, w: Word, ghost page0: Pages, ghost owner0: Owners, ghost data: nat)
      returns (c: Copying)
      requires Valid() && Owning(page0, owner0) && Owned(owner0, d, Dir) && Owned(owner, e, Dir)
        && Built(page0, owner0, page, owner, e)
      requires i < KERNBASE && EXTMEM < data < PHYSTOP && CopyOf(page0, page, owner, d, e, i)
      requires forall n: nat | n >= KERNBASE :: Entry(page, e, n) == Kmapped(Kmap(data), 4, n)
      requires w == Entry(page0, d, i) && Present(w) && w.hi in page0 && w.hi in page && page[w.hi] == page0[w.hi]
      modifies this
      ensures Valid() && !c.Panicked?
      ensures c.NoMemory? ==> owner == owner0 && InUseKept(page0, owner0, page)
      ensures c.Copied? ==> Owned(owner, e, Dir) && Built(page0, owner0, page, owner, e)
                            && CopyOf(page0, page, owner, d, e, i + 1)
      ensures c.Copied? ==> forall n: nat | n >= KERNBASE :: Entry(page, e, n) == Kmapped(Kmap(data), 4, n)
    {
      ghost var page1, owner1 := page, owner;
      var mem := Kalloc();
      if mem.None? {
        GiveBack(e, page0, owner0);
        return NoMemory;
      }
      FreeIsStranger(page0, owner0, e);
      Move(mem.value, w.hi, e);
      ghost var page2, owner2 := page, owner;
      var ok := MapPage(e, i, mem.value, w.lo);
      if !ok {
        BuiltFail(page0, owner0, page1, owner1, page2, owner2, page, owner, owner[mem.value := Free], e, mem.value);
        UndoCopy(e, mem.value, page0, owner0);
        return NoMemory;
      }
      BuiltStep(page0, owner0, page1, owner1, page2, owner2, page, owner, e, mem.value, i);
      CopyStep(page0, owner0, page1, owner1, page2, owner2, page, owner, d, e, i, i + 1, mem.value);
      return Copied(e);
    }

    /** vm.c:349 and 356. */
    method UndoCopy(e: nat, mem: nat, ghost page0: Pages, ghost owner0: Owners)
      requires Valid() && Owned(owner, e, Dir) && Owned(owner, mem, Kernel) && Owning(page0, owner0)
        && Built(page0, owner0, page, owner[mem := Free], e)
      requires Owned(owner0, mem, Free)
      modifies this
      ensures Valid() && owner == owner0 && InUseKept(page0, owner0, page)
    {
      Release(mem);
      GiveBack(e, page0, owner0);
    }

    /** memmove from page `src` to a page that kalloc gave. */
    method Move(pn: nat, src: nat, ghost e: nat)
      requires Valid() && Owned(owner, pn, Kernel) && src in page && Owned(owner, e, Dir)
      modifies this`page
      ensures Valid() && page == old(page)[pn := old(page)[src]] && e in page && SameEntries(old(page), page, e)
    {
      KernelContents(page, owner, pn, page[src]);
      forall n ensures Entry(page[pn := page[src]], e, n) == Entry(page, e, n) {
        ContentsEntry(page, owner, e, pn, page[src], n);
      }
      page := page[pn := page[src]];
    }
  }

  // ---- Freeing an address space -------------------------------------------------------------

  /** The pages of `d`, and no others, become free. */
  ghost predicate Disowned(owner: Owners, owner': Owners, d: nat) {
    owner'.Keys == owner.Keys && forall pn | pn in owner ::
        owner'[pn] == if Belongs(owner[pn], pn, d) then Free else owner[pn]
  }

  /** The directory and its tables are plain pages of the kernel. */
  ghost function Dismantled(owner: Owners, d: nat): Owners {
    map pn | pn in owner :: if Tabular(owner[pn], pn, d) then Kernel else owner[pn]
  }

  /** The first `i` tables of `d` are free, and the others and `d` the kernel's. */
  ghost predicate TornDown(owner: Owners, owner': Owners, d: nat, i: nat) {
    && owner'.Keys == owner.Keys
    && forall pn | pn in owner :: owner'[pn] ==
         if !Tabular(owner[pn], pn, d) then owner[pn] else if owner[pn].Table? && owner[pn].i < i then Free else Kernel
  }

  lemma TornStep(page1: Pages, owner1: Owners, page: Pages, owner: Owners, d: nat, i: nat, next: nat, t: nat)
    requires Owning(page1, owner1) && Owned(owner1, d, Dir) && TornDown(owner1, owner, d, i) && i < ENTRIES
      && next == i + 1
    requires Present(page1[d][i]) && t == page1[d][i].hi && OthersKept(page1, owner1, page, owner, d)
    ensures Owned(owner, t, Kernel) && t != d && TornDown(owner1, owner[t := Free], d, next)
    ensures OthersKept(page1, owner1, page[t := Junk()], owner[t := Free], d)
  {
    assert PageOk(page1, owner1, d);
    assert Owned(owner1, t, Table(d, i));
    forall pn | pn in owner1 && owner1[pn] == Table(d, i) ensures pn == t {
      assert PageOk(page1, owner1, pn);
    }
  }

  lemma TornSkip(page1: Pages, owner1: Owners, owner: Owners, d: nat, i: nat, next: nat)
    requires Owning(page1, owner1) && Owned(owner1, d, Dir) && TornDown(owner1, owner, d, i) && i < ENTRIES
      && next == i + 1 && !Present(page1[d][i])
    ensures TornDown(owner1, owner, d, next)
  {
    forall pn | pn in owner1 ensures owner1[pn] != Table(d, i) {
      assert PageOk(page1, owner1, pn);
    }
  }

  lemma Bounded(page: Pages, owner: Owners, pn: nat)
    requires Owning(page, owner) && pn in owner
    ensures owner[pn].User? ==> Vpn(owner[pn].i, owner[pn].j) < KERNBASE
    ensures owner[pn].Table? ==> owner[pn].i < ENTRIES
  {
    assert PageOk(page, owner, pn);
  }

  lemma AllDisowned(page0: Pages, owner0: Owners, page1: Pages, owner1: Owners, owner2: Owners, d: nat)
    requires Owning(page0, owner0) && Owning(page1, owner1) && Owned(owner0, d, Dir) && d in page1
      && Cleared(page0, owner0, page1, owner1, d, 0, KERNBASE)
    requires TornDown(owner1, owner2, d, ENTRIES)
    ensures Disowned(owner0, owner2[d := Free], d)
  {
    forall pn | pn in owner0 ensures owner2[d := Free][pn] == if Belongs(owner0[pn], pn, d) then Free else owner0[pn] {
      Bounded(page0, owner0, pn);
      Bounded(page1, owner1, pn);
      assert owner1[pn] == if InRange(owner0[pn], d, 0, KERNBASE) then Free else owner0[pn];
    }
  }

  lemma AllFreed(page0: Pages, owner0: Owners, page1: Pages, owner1: Owners, page2: Pages, owner2: Owners, d: nat)
    requires Owning(page0, owner0) && Owning(page1, owner1) && Owned(owner0, d, Dir) && d in page1
      && Cleared(page0, owner0, page1, owner1, d, 0, KERNBASE)
    requires TornDown(owner1, owner2, d, ENTRIES) && OthersKept(page1, owner1, page2, owner2, d)
    ensures Disowned(owner0, owner2[d := Free], d) && OthersKept(page0, owner0, page2[d := Junk()], owner2[d := Free],
      d)
  {
    AllDisowned(page0, owner0, page1, owner1, owner2, d);
    forall pn | pn in page0 && pn in owner0 && owner0[pn] != Free && !Belongs(owner0[pn], pn, d)
      ensures pn != d && pn in page2 && page2[pn] == page0[pn] && Owned(owner2, pn, owner0[pn])
    {
      assert owner1[pn] == owner0[pn] && page1[pn] == page0[pn];
    }
  }

  lemma FreeSame(free: seq<nat>, owner: Owners, d: nat)
    requires FreeOk(free, owner)
    ensures FreeOk(free, Dismantled(owner, d))
  {
  }

  /** Once no user page is left, the tables of `d` hold nothing together. */
  lemma NoUsers(page0: Pages, owner0: Owners, page: Pages, owner: Owners, d: nat)
    requires Owning(page0, owner0) && Owning(page, owner) && Owned(owner, d, Dir) && d in page0
      && Cleared(page0, owner0, page, owner, d, 0, KERNBASE)
    ensures Owning(page, Dismantled(owner, d)) && forall pn | pn in owner :: !(owner[pn].User? && owner[pn].d == d)
  {
    forall pn | pn in owner ensures !(owner[pn].User? && owner[pn].d == d) {
      assert PageOk(page0, owner0, pn);
    }
    forall pn | pn in page ensures PageOk(page, Dismantled(owner, d), pn) {
      assert PageOk(page, owner, pn);
    }
  }

  // ---- A new address space ------------------------------------------------------------------

  /** A row of kmap: `count` pages from virtual page `virt` on, to physical pages from `phys` on. */
  datatype Row = Row(virt: nat, phys: nat, count: nat, perm: nat)

  /** kmap, where `data` is the physical page of the kernel's data. */
  function Kmap(data: nat): (r: seq<Row>)
    requires EXTMEM < data < PHYSTOP
    ensures |r| == 4 && forall k | 0 <= k < 4 ::
              r[k].count > 0 && KERNBASE <= r[k].virt && r[k].virt + r[k].count <= VPAGES
  {
    [Row(KERNBASE, 0, EXTMEM, PTE_W), Row(KERNBASE + EXTMEM, EXTMEM, data - EXTMEM, 0),
     Row(KERNBASE + data, data, PHYSTOP - data, PTE_W), Row(DEVSPACE, DEVSPACE, VPAGES - DEVSPACE, PTE_W)]
  }

  /** What the first `k` rows map virtual page `n` to. */
  function Kmapped(rows: seq<Row>, k: nat, n: nat): Word
    requires k <= |rows|
  {
    if k == 0 then Word(0, 0)
    else if rows[k - 1].virt <= n < rows[k - 1].virt + rows[k - 1].count then
      Word(rows[k - 1].phys + (n - rows[k - 1].virt), WithP(rows[k - 1].perm))
    else Kmapped(rows, k - 1, n)
  }

  /** Pages in use keep their contents. */
  ghost predicate InUseKept(page: Pages, owner: Owners, page': Pages) {
    forall pn | pn in page && pn in owner && owner[pn] != Free :: pn in page' && page'[pn] == page[pn]
  }

  /** The address space of `d`, which was free, is made of free pages; pages in use are kept. */
  ghost predicate Built(page: Pages, owner: Owners, page': Pages, owner': Owners, d: nat) {
    && Owned(owner, d, Free) && owner'.Keys == owner.Keys && InUseKept(page, owner, page')
    && (forall pn | pn in owner :: if owner[pn] == Free then owner'[pn] == Free || Belongs(owner'[pn], pn, d)
                                   else owner'[pn] == owner[pn])
  }

  lemma NewDirOwning(page: Pages, owner: Owners, d: nat)
    requires Owning(page, owner) && Owned(owner, d, Kernel)
    ensures Owning(page[d := Zero()], owner[d := Dir])
  {
    KernelContents(page, owner, d, Zero());
    forall pn | pn in page ensures PageOk(page[d := Zero()], owner[d := Dir], pn) {
      assert PageOk(page[d := Zero()], owner, pn);
    }
  }

  /** No page in use belongs to `d`. */
  ghost predicate Stranger(owner: Owners, d: nat) {
    forall pn | pn in owner && owner[pn] != Free :: !Belongs(owner[pn], pn, d)
  }

  lemma FreeIsStranger(page: Pages, owner: Owners, d: nat)
    requires Owning(page, owner) && Owned(owner, d, Free)
    ensures Stranger(owner, d)
  {
    forall pn | pn in owner && owner[pn] != Free ensures !Belongs(owner[pn], pn, d) {
      assert PageOk(page, owner, pn);
    }
  }

  lemma BuiltKept(page0: Pages, owner0: Owners, page1: Pages, owner1: Owners, page2: Pages, owner2: Owners, d: nat)
    requires Owning(page0, owner0) && Built(page0, owner0, page1, owner1, d)
      && Kept(page1, owner1, page2, owner2, d, {})
    requires owner1.Keys == page1.Keys && GrewOwners(owner1, owner2, d, 0, 0)
    ensures Built(page0, owner0, page2, owner2, d)
  {
    forall pn | pn in owner0 && owner0[pn] != Free ensures !Belongs(owner0[pn], pn, d) {
      assert PageOk(page0, owner0, pn);
    }
  }

  /** Freeing what was built gives back every page. */
  lemma BuiltFreed(page0: Pages, owner0: Owners, page1: Pages, owner1: Owners, page2: Pages, owner2: Owners, d: nat)
    requires Owning(page0, owner0) && Built(page0, owner0, page1, owner1, d) && owner1.Keys == page1.Keys
    requires Disowned(owner1, owner2, d) && OthersKept(page1, owner1, page2, owner2, d)
    ensures owner2 == owner0 && InUseKept(page0, owner0, page2)
  {
    forall pn | pn in owner0 && owner0[pn] != Free ensures !Belongs(owner0[pn], pn, d) {
      assert PageOk(page0, owner0, pn);
    }
  }

  // ---- Copying ------------------------------------------------------------------------------

  datatype Copying = Panicked | NoMemory | Copied(e: nat)

  /** Virtual page `n` of `e` has the contents and flags that it had in `d`, on a page of its own. */
  ghost predicate CopiedPage(page: Pages, page': Pages, owner': Owners, d: nat, e: nat, n: nat)
    requires d in page && e in page'
  {
    var w, w' := Entry(page, d, n), Entry(page', e, n);
    && Present(w) && w'.lo == w.lo && w'.hi != w.hi && Owned(owner', w'.hi, User(e, Pdx(n), Ptx(n)))
    && w.hi in page && w'.hi in page' && page'[w'.hi] == page[w.hi]
  }

  /** The first `hi` pages of `e` are copies of those of `d`, and it has no other user pages. */
  ghost predicate CopyOf(page: Pages, page': Pages, owner': Owners, d: nat, e: nat, hi: nat) {
    && d in page && e in page' && (forall n: nat | n < hi :: CopiedPage(page, page', owner', d, e, n))
    && (forall n: nat | hi <= n < KERNBASE :: !Present(Entry(page', e, n)))
  }

  lemma {:induction false} NoUserRow(rows: seq<Row>, k: nat, n: nat)
    requires k <= |rows| && n < KERNBASE && forall i | 0 <= i < |rows| :: rows[i].virt >= KERNBASE
    ensures Kmapped(rows, k, n) == Word(0, 0)
  {
    if k > 0 {
      NoUserRow(rows, k - 1, n);
    }
  }

  lemma NoUserRows(rows: seq<Row>)
    requires |rows| == 4 && forall i | 0 <= i < |rows| :: rows[i].virt >= KERNBASE
    ensures forall n: nat | n < KERNBASE :: !Present(Kmapped(rows, 4, n))
  {
    forall n: nat | n < KERNBASE ensures !Present(Kmapped(rows, 4, n)) {
      NoUserRow(rows, 4, n);
    }
  }

  /** The parent's address space is as it was. */
  lemma BuiltParent(page0: Pages, owner0: Owners, page: Pages, owner: Owners, d: nat, e: nat, n: nat)
    requires Owning(page0, owner0) && Built(page0, owner0, page, owner, e) && Owned(owner0, d, Dir)
    ensures d in page && Entry(page, d, n) == Entry(page0, d, n) && Owned(owner, d, Dir) && d != e
    ensures Present(Entry(page0, d, n)) && n < KERNBASE ==>
              Owned(owner0, Entry(page0, d, n).hi, User(d, Pdx(n), Ptx(n))) && Entry(page0, d, n).hi in page
              && page[Entry(page0, d, n).hi] == page0[Entry(page0, d, n).hi]
  {
    assert PageOk(page0, owner0, d);
    if Pdx(n) < ENTRIES && Present(page0[d][Pdx(n)]) {
      var t := page0[d][Pdx(n)].hi;
      assert Owned(owner0, t, Table(d, Pdx(n))) && PageOk(page0, owner0, t);
      if n < KERNBASE && Present(page0[t][Ptx(n)]) {
        assert Owned(owner0, page0[t][Ptx(n)].hi, User(d, Pdx(n), Ptx(n)));
      }
    }
  }

  lemma BuiltFail(page0: Pages, owner0: Owners, page1: Pages, owner1: Owners, page2: Pages, owner2: Owners,
                  page3: Pages, owner3: Owners,
                  owner4: Owners, e: nat, mem: nat)
    requires Stranger(owner0, e) && owner1.Keys == page1.Keys && owner0.Keys == page0.Keys
      && Built(page0, owner0, page1, owner1, e) && Owned(owner1, mem, Free)
    requires owner2 == owner1[mem := Kernel] && mem in page2 && page2 == page1[mem := page2[mem]]
    requires Kept(page2, owner2, page3, owner3, e, {mem}) && GrewOwners(owner2, owner3, e, 0, 0)
      && owner4 == owner3[mem := Free]
    ensures Owned(owner0, mem, Free) && Built(page0, owner0, page3, owner4, e)
  {
    forall pn | pn in owner0 && owner0[pn] != Free
      ensures pn != mem && owner3[pn] == owner0[pn] && pn in page3 && page3[pn] == page0[pn]
    {
      assert owner2[pn] == owner0[pn] && page2[pn] == page0[pn];
    }
  }

  lemma BuiltStep(page0: Pages, owner0: Owners, page1: Pages, owner1: Owners, page2: Pages, owner2: Owners,
                  page3: Pages, owner3: Owners,
                  e: nat, mem: nat, i: nat)
    requires Stranger(owner0, e) && owner1.Keys == page1.Keys && owner0.Keys == page0.Keys
      && Built(page0, owner0, page1, owner1, e) && Owned(owner1, mem, Free)
    requires owner2 == owner1[mem := Kernel] && mem in page2 && page2 == page1[mem := page2[mem]]
    requires Kept(page2, owner2, page3, owner3, e, {mem}) && GrewOwners(owner2, owner3, e, 0, 0)
      && Owned(owner3, mem, User(e, Pdx(i), Ptx(i)))
    ensures Built(page0, owner0, page3, owner3, e)
  {
    forall pn | pn in owner0 && owner0[pn] != Free
      ensures pn != mem && owner3[pn] == owner0[pn] && pn in page3 && page3[pn] == page0[pn]
    {
      assert owner2[pn] == owner0[pn] && page2[pn] == page0[pn];
    }
  }

  lemma CopyStep(page0: Pages, owner0: Owners, page1: Pages, owner1: Owners, page2: Pages, owner2: Owners, page3: Pages,
                 owner3: Owners,
                 d: nat, e: nat, i: nat, next: nat, mem: nat)
    requires Owning(page0, owner0) && Owning(page1, owner1) && Built(page0, owner0, page1, owner1, e)
      && Owned(owner0, d, Dir) && Owned(owner1, mem, Free)
    requires owner2 == owner1[mem := Kernel] && mem in page2 && page2 == page1[mem := page2[mem]]
      && Kept(page2, owner2, page3, owner3, e, {mem})
    requires CopyOf(page0, page1, owner1, d, e, i) && e in page2 && e in page3 && SameEntries(page1, page2, e)
      && next == i + 1 && i < KERNBASE
    requires Present(Entry(page0, d, i)) && Entry(page0, d, i).hi in page0 && page2[mem] == page0[Entry(page0, d, i).hi]
    requires Mapped(page2, page3, e, i, Word(mem, Entry(page0, d, i).lo)) && mem in page3 && page3[mem] == page2[mem]
    requires Owned(owner3, mem, User(e, Pdx(i), Ptx(i)))
    ensures CopyOf(page0, page3, owner3, d, e, next)
  {
    BuiltParent(page0, owner0, page1, owner1, d, e, i);
    forall n: nat | n < next ensures CopiedPage(page0, page3, owner3, d, e, n) {
      if n < i {
        assert CopiedPage(page0, page1, owner1, d, e, n);
        var u := Entry(page1, e, n).hi;
        assert u != mem && u in page2 && Owned(owner2, u, User(e, Pdx(n), Ptx(n)));
      }
    }
  }

  // ---- Growing ------------------------------------------------------------------------------

  /** What a page that was free may have become while user pages `lo` up to `hi` of `d` were added. */
  predicate Fresh(o: Owner, d: nat, lo: nat, hi: nat) {
    o == Free || (o.Table? && o.d == d) || InRange(o, d, lo, hi)
  }

  predicate FreshPage(page: Pages, owner: Owners, d: nat, n: nat, w: Word) {
    w.lo == PTE_P + PTE_W + PTE_U && Owned(owner, w.hi, User(d, Pdx(n), Ptx(n))) && w.hi in page && page[w.hi] == Zero()
  }

  ghost predicate GrewOwners(owner: Owners, owner': Owners, d: nat, lo: nat, hi: nat) {
    owner'.Keys == owner.Keys && forall pn | pn in owner && owner[pn] == Free :: Fresh(owner'[pn], d, lo, hi)
  }

  ghost predicate GrewEntries(page: Pages, page': Pages, owner': Owners, d: nat, lo: nat, hi: nat)
    requires d in page && d in page'
  {
    && (forall n: nat | !(lo <= n < hi) :: Entry(page', d, n) == Entry(page, d, n))
    && (forall n: nat | lo <= n < hi ::
        !Present(Entry(page, d, n)) && FreshPage(page', owner', d, n, Entry(page', d, n)))
  }

  /**
   * User pages `lo` up to `hi` of `d` were not mapped and are now, to zeroed pages that were free; all else is kept.
   */
  ghost predicate Grew(page: Pages, owner: Owners, page': Pages, owner': Owners, d: nat, lo: nat, hi: nat)
    requires d in page && d in page'
  {
    GrewOwners(owner, owner', d, lo, hi) && Kept(page, owner, page', owner', d, {})
      && GrewEntries(page, page', owner', d, lo, hi)
  }

  /** Nothing is mapped from `lo` up to `hi`; every other mapping, and every page in use elsewhere, is kept. */
  ghost predicate Undone(page: Pages, owner: Owners, page': Pages, owner': Owners, d: nat, lo: nat, hi: nat)
    requires d in page && d in page'
  {
    && owner'.Keys == owner.Keys == page.Keys
    && (forall n: nat :: if lo <= n < hi then !Present(Entry(page', d, n)) else Entry(page', d, n) == Entry(page, d, n))
    && (forall pn | pn in owner :: if owner[pn] == Free then Fresh(owner'[pn], d, 0, 0)
                                   else owner'[pn] == if InRange(owner[pn], d, lo, hi) then Free else owner[pn])
    && (forall pn | pn in page && owner[pn] != Free && !Tabular(owner[pn], pn, d) && !InRange(owner[pn], d, lo, hi) ::
          pn in page' && page'[pn] == page[pn])
  }

  /** allocuvm's clean-up: what it added and what was mapped there before are gone. */
  lemma UndoneBy(page0: Pages, owner0: Owners, page1: Pages, owner1: Owners, page2: Pages, owner2: Owners, d: nat,
                 lo: nat, a: nat, hi: nat)
    requires d in page0 && d in page1 && d in page2 && owner0.Keys == page0.Keys && owner1.Keys == page1.Keys
      && lo <= a <= hi
    requires GrewOwners(owner0, owner1, d, lo, a) && Kept(page0, owner0, page1, owner1, d, {})
    requires forall n: nat | !(lo <= n < a) :: Entry(page1, d, n) == Entry(page0, d, n)
    requires Cleared(page1, owner1, page2, owner2, d, lo, hi)
    ensures Undone(page0, owner0, page2, owner2, d, lo, hi)
  {
  }

  lemma ClearedRelease(page: Pages, owner: Owners, page': Pages, owner': Owners, d: nat, lo: nat, hi: nat, mem: nat)
    requires d in page && d in page' && Cleared(page, owner, page', owner', d, lo, hi) && Owned(owner, mem, Kernel)
    requires Owning(page', owner') && Owned(owner', d, Dir)
    ensures Cleared(page, owner[mem := Free], page'[mem := Junk()], owner'[mem := Free], d, lo, hi)
  {
    forall n: nat ensures Entry(page'[mem := Junk()], d, n) == Entry(page', d, n) {
      ContentsEntry(page', owner', d, mem, Junk(), n);
    }
  }

  lemma FailedMap(page0: Pages, owner0: Owners, page1: Pages, owner1: Owners, page2: Pages, owner2: Owners,
                  page3: Pages, owner3: Owners,
                  d: nat, lo: nat, a: nat, mem: nat)
    requires Owning(page1, owner1) && d in page0 && d in page1 && d in page3 && owner0.Keys == page0.Keys
      && Grew(page0, owner0, page1, owner1, d, lo, a)
    requires Owned(owner1, mem, Free) && page2 == page1[mem := Zero()] && owner2 == owner1[mem := Kernel] && d in page2
      && SameEntries(page1, page2, d)
    requires Kept(page2, owner2, page3, owner3, d, {mem}) && SameEntries(page2, page3, d)
      && GrewOwners(owner2, owner3, d, 0, 0)
    requires Owned(owner3, mem, Kernel)
    ensures GrewOwners(owner0, owner3[mem := Free], d, lo, a) && Kept(page0, owner0, page3, owner3[mem := Free], d, {})
    ensures forall n: nat | !(lo <= n < a) :: Entry(page3, d, n) == Entry(page0, d, n)
  {
    KeptStep(page0, owner0, page1, owner1, page2, owner2, page3, owner3, d, mem, Zero());
    FailedOwners(owner0, owner1, owner2, owner3, d, lo, a, mem);
    FailedKept(page0, owner0, page1, owner1, page3, owner3, d, mem);
  }

  lemma FailedOwners(owner0: Owners, owner1: Owners, owner2: Owners, owner3: Owners, d: nat, lo: nat, a: nat, mem: nat)
    requires GrewOwners(owner0, owner1, d, lo, a) && Owned(owner1, mem, Free) && owner2 == owner1[mem := Kernel]
    requires GrewOwners(owner2, owner3, d, 0, 0) && Owned(owner3, mem, Kernel)
    requires forall pn | pn in owner2 && pn != mem && owner2[pn] != Free :: Owned(owner3, pn, owner2[pn])
    ensures GrewOwners(owner0, owner3[mem := Free], d, lo, a)
  {
  }

  lemma FailedKept(page0: Pages, owner0: Owners, page1: Pages, owner1: Owners, page3: Pages, owner3: Owners, d: nat,
                   mem: nat)
    requires Kept(page0, owner0, page1, owner1, d, {}) && Kept(page0, owner0, page3, owner3, d, {})
      && owner0.Keys == page0.Keys
    requires Owned(owner1, mem, Free)
    ensures Kept(page0, owner0, page3, owner3[mem := Free], d, {})
  {
  }

  lemma GrewStep(page0: Pages, owner0: Owners, page1: Pages, owner1: Owners, page2: Pages, owner2: Owners, page3: Pages,
                 owner3: Owners,
                 d: nat, lo: nat, a: nat, b: nat, mem: nat)
    requires Owning(page1, owner1) && Owned(owner1, d, Dir) && d in page0 && d in page3
      && Grew(page0, owner0, page1, owner1, d, lo, a)
    requires Owned(owner1, mem, Free) && page2 == page1[mem := Zero()] && owner2 == owner1[mem := Kernel] && b == a + 1
      && lo <= a
    requires Kept(page2, owner2, page3, owner3, d, {mem}) && GrewOwners(owner2, owner3, d, 0, 0)
    requires Mapped(page2, page3, d, a, Word(mem, PTE_P + PTE_W + PTE_U))
    requires Owned(owner3, mem, User(d, Pdx(a), Ptx(a))) && mem in page3 && page3[mem] == Zero()
    ensures Grew(page0, owner0, page3, owner3, d, lo, b)
  {
    OwnersStep(owner0, owner1, owner2, owner3, d, lo, a, b, mem);
    KeptStep(page0, owner0, page1, owner1, page2, owner2, page3, owner3, d, mem, Zero());
    EntriesStep(page0, page1, owner1, page2, owner2, page3, owner3, d, lo, a, b, mem, Word(mem, PTE_P + PTE_W + PTE_U));
  }

  /** A failed allocuvm leaves all user mappings as they were if and only if none was between the sizes before. */
  lemma FailureKeeps(page: Pages, owner: Owners, page': Pages, owner': Owners, d: nat, lo: nat, hi: nat)
    requires d in page && d in page' && Undone(page, owner, page', owner', d, lo, hi)
    ensures (forall n: nat :: SameMapping(Entry(page, d, n), Entry(page', d, n))) <==>
              (forall n: nat | lo <= n < hi :: !Present(Entry(page, d, n)))
  {
    if forall n: nat :: SameMapping(Entry(page, d, n), Entry(page', d, n)) {
      forall n: nat | lo <= n < hi ensures !Present(Entry(page, d, n)) {
        assert SameMapping(Entry(page, d, n), Entry(page', d, n));
      }
    }
  }

  /** Both entries map nothing, or they are equal. */
  predicate SameMapping(v: Word, w: Word) {
    if Present(v) then w == v else !Present(w)
  }

  /** A page outside the page tables has nothing to do with what they map. */
  lemma ContentsEntry(page: Pages, owner: Owners, d: nat, pn: nat, p: Page, n: nat)
    requires Owning(page, owner) && Owned(owner, d, Dir) && pn in owner && (owner[pn] == Free || owner[pn] == Kernel)
    ensures Entry(page[pn := p], d, n) == Entry(page, d, n)
  {
    assert PageOk(page, owner, d);
    if Pdx(n) < ENTRIES && Present(page[d][Pdx(n)]) {
      assert Owned(owner, page[d][Pdx(n)].hi, Table(d, Pdx(n)));
    }
  }

  lemma OwnersStep(owner0: Owners, owner1: Owners, owner2: Owners, owner3: Owners, d: nat, lo: nat, a: nat, b: nat,
                   mem: nat)
    requires GrewOwners(owner0, owner1, d, lo, a) && Owned(owner1, mem, Free) && owner2 == owner1[mem := Kernel]
      && b == a + 1 && lo <= a
    requires forall pn | pn in owner2 && pn != mem && owner2[pn] != Free :: Owned(owner3, pn, owner2[pn])
    requires Owned(owner3, mem, User(d, Pdx(a), Ptx(a))) && GrewOwners(owner2, owner3, d, 0, 0)
    ensures GrewOwners(owner0, owner3, d, lo, b)
  {
  }

  lemma KeptStep(page0: Pages, owner0: Owners, page1: Pages, owner1: Owners, page2: Pages, owner2: Owners, page3: Pages,
                 owner3: Owners,
                 d: nat, mem: nat, p: Page)
    requires Kept(page0, owner0, page1, owner1, d, {}) && Owned(owner1, mem, Free) && owner1.Keys == page1.Keys
    requires page2 == page1[mem := p] && owner2 == owner1[mem := Kernel] && Kept(page2, owner2, page3, owner3, d, {mem})
    ensures Kept(page0, owner0, page3, owner3, d, {})
  {
  }

  lemma EntriesStep(page0: Pages, page1: Pages, owner1: Owners, page2: Pages, owner2: Owners, page3: Pages,
                    owner3: Owners,
                    d: nat, lo: nat, a: nat, b: nat, mem: nat, w: Word)
    requires Owning(page1, owner1) && Owned(owner1, d, Dir) && d in page0 && d in page3
      && GrewEntries(page0, page1, owner1, d, lo, a)
    requires Owned(owner1, mem, Free) && page2 == page1[mem := Zero()] && owner2 == owner1[mem := Kernel] && b == a + 1
      && lo <= a
    requires Kept(page2, owner2, page3, owner3, d, {mem})
    requires Mapped(page2, page3, d, a, w) && w == Word(mem, PTE_P + PTE_W + PTE_U)
    requires Owned(owner3, mem, User(d, Pdx(a), Ptx(a))) && mem in page3 && page3[mem] == Zero()
    ensures GrewEntries(page0, page3, owner3, d, lo, b)
  {
    forall n: nat ensures Entry(page2, d, n) == Entry(page1, d, n) {
      ContentsEntry(page1, owner1, d, mem, Zero(), n);
    }
    forall n: nat | lo <= n < b
      ensures !Present(Entry(page0, d, n)) && FreshPage(page3, owner3, d, n, Entry(page3, d, n))
    {
      if n < a {
        var u := Entry(page1, d, n).hi;
        assert FreshPage(page1, owner1, d, n, Entry(page1, d, n));
        assert u != mem && u in page2 && Owned(owner2, u, User(d, Pdx(n), Ptx(n)));
      }
    }
  }

  function Min(a: nat, b: nat): nat {
    if a < b then a else b
  }

  predicate InRange(o: Owner, d: nat, lo: nat, hi: nat) {
    o.User? && o.d == d && lo <= Vpn(o.i, o.j) < hi
  }

  /**
   * The user pages of `d` from `lo` up to `hi` are free and their entries empty; every other page and entry is kept.
   */
  ghost predicate Cleared(page: Pages, owner: Owners, page': Pages, owner': Owners, d: nat, lo: nat, hi: nat)
    requires d in page && d in page'
  {
    && owner'.Keys == owner.Keys == page.Keys
    && (forall n: nat :: Entry(page', d, n) == if lo <= n < hi && Present(Entry(page, d, n)) then Word(0, 0)
                         else Entry(page, d, n))
    && (forall pn | pn in owner :: owner'[pn] == if InRange(owner[pn], d, lo, hi) then Free else owner[pn])
    && (forall pn | pn in page && owner[pn] != Free && !Tabular(owner[pn], pn, d) && !InRange(owner[pn], d, lo, hi) ::
          pn in page' && page'[pn] == page[pn])
  }

  lemma ClearedNone(page: Pages, owner: Owners, d: nat, lo: nat, hi: nat)
    requires Owning(page, owner) && d in page && lo >= hi
    ensures Cleared(page, owner, page, owner, d, lo, hi)
  {
  }

  /** Without a table nothing up to its end is mapped. */
  lemma ClearedSkip(page0: Pages, owner0: Owners, page: Pages, owner: Owners, d: nat, lo: nat, a: nat, hi: nat)
    requires Owning(page, owner) && d in page0 && d in page && Cleared(page0, owner0, page, owner, d, lo, a)
    requires Pdx(a) < ENTRIES && !Present(page[d][Pdx(a)]) && lo <= a <= hi <= (Pdx(a) + 1) * ENTRIES
    ensures Cleared(page0, owner0, page, owner, d, lo, hi)
  {
    forall n: nat | a <= n < hi ensures Pdx(n) == Pdx(a) && !Present(Entry(page0, d, n)) {
      assert Entry(page, d, n) == Entry(page0, d, n);
    }
    forall pn | pn in owner0 ensures InRange(owner0[pn], d, lo, hi) <==> InRange(owner0[pn], d, lo, a) {
      var o := owner0[pn];
      if InRange(o, d, a, hi) {
        assert owner[pn] == o && PageOk(page, owner, pn);
        VpnParts(o.i, o.j);
      }
    }
  }

  lemma ClearedEmpty(page0: Pages, owner0: Owners, page: Pages, owner: Owners, d: nat, lo: nat, a: nat, hi: nat)
    requires Owning(page, owner) && d in page0 && d in page && Cleared(page0, owner0, page, owner, d, lo, a)
    requires !Present(Entry(page, d, a)) && lo <= a && hi == a + 1
    ensures Cleared(page0, owner0, page, owner, d, lo, hi)
  {
    assert Entry(page, d, a) == Entry(page0, d, a);
    forall pn | pn in owner0 ensures InRange(owner0[pn], d, lo, hi) <==> InRange(owner0[pn], d, lo, a) {
      NotInRange(page, owner, d, a, pn);
    }
  }

  /** No page is mapped by an empty entry. */
  lemma NotInRange(page: Pages, owner: Owners, d: nat, a: nat, pn: nat)
    requires Owning(page, owner) && d in page && !Present(Entry(page, d, a)) && pn in owner
    ensures !(owner[pn].User? && owner[pn].d == d && Vpn(owner[pn].i, owner[pn].j) == a)
  {
    assert PageOk(page, owner, pn);
    if owner[pn].User? {
      VpnParts(owner[pn].i, owner[pn].j);
    }
  }

  lemma UnmapEntry(page: Pages, owner: Owners, d: nat, n: nat, t: nat, u: nat, m: nat)
    requires Owning(page, owner) && Owned(owner, t, Table(d, Pdx(n))) && Owned(owner, u, User(d, Pdx(n), Ptx(n)))
    ensures d in page && Entry(Put(page[u := Junk()], t, Ptx(n), Word(0, 0)), d, m) == if m == n then Word(0, 0)
      else Entry(page, d, m)
  {
    assert PageOk(page, owner, t) && PageOk(page, owner, d);
    if m != n && Pdx(m) == Pdx(n) && Ptx(m) == Ptx(n) {
      Split(m, n);
    }
    if Pdx(m) < ENTRIES && Present(page[d][Pdx(m)]) {
      assert Owned(owner, page[d][Pdx(m)].hi, Table(d, Pdx(m)));
    }
  }

  lemma ClearedStep(page0: Pages, owner0: Owners, page: Pages, owner: Owners, d: nat, lo: nat, a: nat, hi: nat, t: nat,
                    u: nat)
    requires Owning(page, owner) && d in page0 && d in page && Cleared(page0, owner0, page, owner, d, lo, a) && lo <= a
      && hi == a + 1
    requires Owned(owner, t, Table(d, Pdx(a))) && Owned(owner, u, User(d, Pdx(a), Ptx(a))) && Present(Entry(page, d, a))
    ensures t in page && t != u && Cleared(page0, owner0, Put(page[u := Junk()], t, Ptx(a), Word(0, 0)),
      owner[u := Free], d, lo, hi)
  {
    var page', owner' := Put(page[u := Junk()], t, Ptx(a), Word(0, 0)), owner[u := Free];
    assert Entry(page, d, a) == Entry(page0, d, a);
    forall n: nat ensures Entry(page', d, n) == if lo <= n < hi && Present(Entry(page0, d, n)) then Word(0, 0)
      else Entry(page0, d, n) {
      UnmapEntry(page, owner, d, a, t, u, n);
    }
    assert PageOk(page, owner, u);
    forall pn | pn in owner0 ensures InRange(owner0[pn], d, lo, hi) <==> InRange(owner0[pn], d, lo, a) || pn == u {
      var o := owner0[pn];
      if InRange(o, d, a, hi) {
        assert owner[pn] == o && PageOk(page, owner, pn);
        VpnParts(o.i, o.j);
      }
      if pn == u {
        assert o == owner[u];
      }
    }
  }

  lemma MappedThen(page: Pages, page1: Pages, page2: Pages, d: nat, n: nat, w: Word)
    requires d in page && d in page1 && d in page2 && SameEntries(page, page1, d) && Mapped(page1, page2, d, n, w)
    ensures Mapped(page, page2, d, n, w)
  {
  }

  /** One more page is mapped, or none. */
  lemma MapNext(page: Pages, page1: Pages, page2: Pages, owner1: Owners, owner2: Owners, d: nat, n: nat, count: nat,
                pn: nat,
                done: nat, perm: nat, but: set<nat>, a: nat, p: nat, ok: bool)
    requires d in page && d in page1 && d in page2 && done < count && a == n + done && p == pn + done
      && owner1.Keys == page1.Keys
    requires Ranged(page, page1, d, n, done, pn, perm) && ToMap(owner1, d, n, count, pn, done, but)
    requires Kept(page1, owner1, page2, owner2, d, if a < KERNBASE then {p} else {})
    requires if ok then Mapped(page1, page2, d, a, Word(p, WithP(perm))) else SameEntries(page1, page2, d)
    requires a < KERNBASE ==> Owned(owner2, p, if ok then User(d, Pdx(a), Ptx(a)) else Kernel)
    ensures Ranged(page, page2, d, n, if ok then done + 1 else done, pn, perm)
    ensures ToMap(owner2, d, n, count, pn, if ok then done + 1 else done, but)
    ensures Kept(page1, owner1, page2, owner2, d, but)
  {
    assert Slot(pn, n, a) == p;
  }

  /** Where mappages is after `done` pages. */
  ghost predicate Mapping(page: Pages, owner: Owners, page': Pages, owner': Owners, d: nat, n: nat, count: nat, pn: nat,
                          done: nat,
                          perm: nat, but: set<nat>)
    requires d in page && d in page'
  {
    && Kept(page, owner, page', owner', d, but) && GrewOwners(owner, owner', d, 0, 0)
    && Ranged(page, page', d, n, done, pn, perm)
    && ToMap(owner', d, n, count, pn, done, but)
  }

  lemma MappingStart(page: Pages, owner: Owners, d: nat, n: nat, count: nat, pn: nat, perm: nat, but: set<nat>)
    requires d in page && ToMap(owner, d, n, count, pn, 0, but)
    ensures Mapping(page, owner, page, owner, d, n, count, pn, 0, perm, but)
  {
  }

  lemma GrewTwice(owner0: Owners, owner1: Owners, owner2: Owners, d: nat)
    requires GrewOwners(owner0, owner1, d, 0, 0) && GrewOwners(owner1, owner2, d, 0, 0)
    requires forall pn | pn in owner1 && Tabular(owner1[pn], pn, d) :: Owned(owner2, pn, owner1[pn])
    ensures GrewOwners(owner0, owner2, d, 0, 0)
  {
  }

  function Slot(pn: nat, n: nat, m: nat): nat
    requires n <= m
  {
    pn + (m - n)
  }

  /** Of the user pages to map, those for the first `done` entries are mapped and the others still the kernel's. */
  ghost predicate ToMap(owner: Owners, d: nat, n: nat, count: nat, pn: nat, done: nat, but: set<nat>) {
    forall m | n <= m < n + count && m < KERNBASE ::
      Slot(pn, n, m) in but && Owned(owner, Slot(pn, n, m), if m < n + done then User(d, Pdx(m), Ptx(m)) else Kernel)
  }

  /** `count` entries from `n` on map the pages from `pn` on; no other entry changed. */
  ghost predicate Ranged(page: Pages, page': Pages, d: nat, n: nat, count: nat, pn: nat, perm: nat)
    requires d in page && d in page'
  {
    forall m: nat :: Entry(page', d, m) == if n <= m < n + count then Word(pn + (m - n), WithP(perm))
                     else Entry(page, d, m)
  }

  lemma EntryPut(page: Pages, owner: Owners, d: nat, n: nat, t: nat, w: Word)
    requires Owning(page, owner) && Owned(owner, t, Table(d, Pdx(n)))
    ensures d in page && forall m :: Entry(Put(page, t, Ptx(n), w), d, m) == if m == n then w else Entry(page, d, m)
  {
    assert PageOk(page, owner, t);
    forall m ensures Entry(Put(page, t, Ptx(n), w), d, m) == if m == n then w else Entry(page, d, m) {
      PutEntry(page, owner, d, Pdx(n), t, Ptx(n), w, m, n);
    }
  }

  /** Only the entry of virtual page `n` changes: it was empty and is now `w`. */
  ghost predicate Mapped(page: Pages, page': Pages, d: nat, n: nat, w: Word)
    requires d in page && d in page'
  {
    !Present(Entry(page, d, n)) && Entry(page', d, n) == w && forall m | m != n ::
        Entry(page', d, m) == Entry(page, d, m)
  }

  lemma FreeKept(free: seq<nat>, owner: Owners, pn: nat, o: Owner)
    requires FreeOk(free, owner) && pn in owner && owner[pn] != Free && o != Free
    ensures FreeOk(free, owner[pn := o])
  {
  }

  /** The contents of a page outside the page tables do not matter to them. */
  lemma KernelContents(page: Pages, owner: Owners, pn: nat, p: Page)
    requires Owning(page, owner) && pn in owner && (owner[pn] == Free || owner[pn] == Kernel)
    ensures Owning(page[pn := p], owner)
  {
    forall x | x in page ensures PageOk(page[pn := p], owner, x) {
      assert PageOk(page, owner, x);
      if owner[x].User? {
        assert PageOk(page, owner, owner[x].d);
      }
    }
  }
}
