/** Physical pages, two-level page tables, and who owns each page. Pages are named by their number. */
module PageTables {
  import opened Results

  /** A word as page number and low twelve bits: an entry of a directory or table, or data. */
  datatype Word = Word(hi: nat, lo: nat)

  const ENTRIES: nat := 1024

  /** Page directory entries for addresses below KERNBASE. */
  const UDIRS: nat := 512

  type Page = p: seq<Word> | |p| == ENTRIES witness Filled(Word(0, 0))

  function Filled(w: Word): (p: seq<Word>)
    ensures |p| == ENTRIES && forall i | 0 <= i < ENTRIES :: p[i] == w
  {
    seq(ENTRIES, _ => w)
  }

  /** After memset to zero, and after kfree's memset to ones. */
  function Zero(): Page {
    Filled(Word(0, 0))
  }

  function Junk(): Page {
    Filled(Word(0x01010, 0x101))
  }

  /** PTE_P. */
  predicate Present(w: Word) {
    w.lo % 2 == 1
  }

  /** Low bits with PTE_P set. */
  function WithP(flags: nat): (r: nat)
    ensures r % 2 == 1 && (flags % 2 == 1 ==> r == flags)
  {
    if flags % 2 == 1 then flags else flags + 1
  }

  const PTE_P: nat := 1
  const PTE_W: nat := 2
  const PTE_U: nat := 4

  /** PDX and PTX of the `n`th virtual page. */
  function Pdx(n: nat): nat {
    n / ENTRIES
  }

  function Ptx(n: nat): (r: nat)
    ensures r < ENTRIES
  {
    n % ENTRIES
  }

  function Vpn(i: nat, j: nat): nat {
    i * ENTRIES + j
  }

  lemma VpnParts(i: nat, j: nat)
    requires j < ENTRIES
    ensures Pdx(Vpn(i, j)) == i && Ptx(Vpn(i, j)) == j
  {
  }

  lemma Split(m: nat, n: nat)
    requires Pdx(m) == Pdx(n) && Ptx(m) == Ptx(n)
    ensures m == n
  {
  }

  // ---- Owners -------------------------------------------------------------------------------

  /** A page is free, the kernel's, a directory, the table of a directory's entry, or mapped by one user entry. */
  datatype Owner = Free | Kernel | Dir | Table(d: nat, i: nat) | User(d: nat, i: nat, j: nat)

  type Pages = map<nat, Page>
  type Owners = map<nat, Owner>

  predicate Owned(owner: Owners, pn: nat, o: Owner) {
    pn in owner && owner[pn] == o
  }

  predicate Holds(page: Pages, pn: nat, i: nat, to: nat) {
    pn in page && i < ENTRIES && Present(page[pn][i]) && page[pn][i].hi == to
  }

  ghost predicate DirOk(page: Pages, owner: Owners, d: nat)
    requires d in page
  {
    forall i | 0 <= i < ENTRIES && Present(page[d][i]) :: Owned(owner, page[d][i].hi, Table(d, i))
  }

  ghost predicate TableOk(page: Pages, owner: Owners, t: nat, d: nat, i: nat)
    requires t in page
  {
    && Owned(owner, d, Dir) && Holds(page, d, i, t)
    && (i < UDIRS ==> forall j | 0 <= j < ENTRIES && Present(page[t][j]) :: Owned(owner, page[t][j].hi, User(d, i, j)))
  }

  ghost predicate UserOk(page: Pages, owner: Owners, u: nat, d: nat, i: nat, j: nat) {
    && Owned(owner, d, Dir) && i < UDIRS && d in page && Present(page[d][i]) && Holds(page, page[d][i].hi, j, u)
  }

  ghost predicate PageOk(page: Pages, owner: Owners, pn: nat)
    requires pn in page && pn in owner
  {
    match owner[pn]
    case Free => true
    case Kernel => true
    case Dir => DirOk(page, owner, pn)
    case Table(d, i) => TableOk(page, owner, pn, d, i)
    case User(d, i, j) => UserOk(page, owner, pn, d, i, j)
  }

  ghost predicate FreeOk(free: seq<nat>, owner: Owners) {
    Distinct(free) && forall pn :: pn in free <==> Owned(owner, pn, Free)
  }

  /** Every page has one owner, and the free list, the directories and the tables agree with that. */
  ghost predicate Owning(page: Pages, owner: Owners) {
    owner.Keys == page.Keys && forall pn | pn in page :: PageOk(page, owner, pn)
  }

  // ---- What a directory maps ----------------------------------------------------------------

  /** The table entry for virtual page `n`, zero if there is no table. */
  function Entry(page: Pages, d: nat, n: nat): Word
    requires d in page
  {
    if Pdx(n) < ENTRIES && Present(page[d][Pdx(n)]) && page[d][Pdx(n)].hi in page then page[page[d][Pdx(n)].hi][Ptx(n)]
      else Word(0, 0)
  }

  /** The page belongs to the address space of `d`. */
  predicate Belongs(o: Owner, pn: nat, d: nat) {
    (o == Dir && pn == d) || (o.Table? && o.d == d) || (o.User? && o.d == d)
  }

  /** Pages in use that do not belong to `d` keep owner and contents. */
  ghost predicate OthersKept(page: Pages, owner: Owners, page': Pages, owner': Owners, d: nat) {
    forall pn | pn in page && pn in owner && owner[pn] != Free && !Belongs(owner[pn], pn, d) ::
      pn in page' && page'[pn] == page[pn] && Owned(owner', pn, owner[pn])
  }

  /** Then every other address space is as it was. */
  lemma OtherSpaces(page: Pages, owner: Owners, page': Pages, owner': Owners, d: nat, e: nat, n: nat)
    requires Owning(page, owner) && OthersKept(page, owner, page', owner', d) && Owned(owner, e, Dir) && e != d
    ensures e in page' && Entry(page', e, n) == Entry(page, e, n)
  {
    assert PageOk(page, owner, e);
    if Pdx(n) < ENTRIES && Present(page[e][Pdx(n)]) {
      assert Owned(owner, page[e][Pdx(n)].hi, Table(e, Pdx(n)));
    }
  }

  // ---- Elementary changes -------------------------------------------------------------------

  function Put(page: Pages, pn: nat, i: nat, w: Word): Pages
    requires pn in page && i < ENTRIES
  {
    page[pn := page[pn][i := w]]
  }

  /** walkpgdir's new table `t` for entry `i` of `d`. */
  function WithTable(page: Pages, d: nat, i: nat, t: nat): Pages
    requires d in page && i < ENTRIES
  {
    Put(page[t := Zero()], d, i, Word(t, PTE_P + PTE_W + PTE_U))
  }

  lemma WithTableOwning(page: Pages, owner: Owners, d: nat, i: nat, t: nat)
    requires Owning(page, owner) && Owned(owner, d, Dir) && i < ENTRIES && !Present(page[d][i])
      && Owned(owner, t, Kernel)
    ensures Owning(WithTable(page, d, i, t), owner[t := Table(d, i)])
  {
    var page', owner' := WithTable(page, d, i, t), owner[t := Table(d, i)];
    forall pn | pn in page' ensures PageOk(page', owner', pn) {
      assert PageOk(page, owner, pn);
    }
  }

  lemma WithTableEntries(page: Pages, owner: Owners, d: nat, i: nat, t: nat, n: nat)
    requires Owning(page, owner) && Owned(owner, d, Dir) && i < ENTRIES && !Present(page[d][i])
      && Owned(owner, t, Kernel)
    ensures Entry(WithTable(page, d, i, t), d, n) == Entry(page, d, n)
  {
    assert PageOk(page, owner, d);
    if Pdx(n) < ENTRIES && Present(page[d][Pdx(n)]) {
      assert Owned(owner, page[d][Pdx(n)].hi, Table(d, Pdx(n)));
    }
  }

  /** A user page of the kernel's goes into an empty entry. */
  lemma MapOwning(page: Pages, owner: Owners, d: nat, i: nat, t: nat, j: nat, u: nat, flags: nat)
    requires Owning(page, owner) && Owned(owner, t, Table(d, i)) && i < UDIRS && j < ENTRIES && !Present(page[t][j])
    requires Owned(owner, u, Kernel) && flags % 2 == 1
    ensures Owning(Put(page, t, j, Word(u, flags)), owner[u := User(d, i, j)])
  {
    var page', owner' := Put(page, t, j, Word(u, flags)), owner[u := User(d, i, j)];
    assert PageOk(page, owner, t);
    forall pn | pn in page' ensures PageOk(page', owner', pn) {
      assert PageOk(page, owner, pn);
    }
  }

  /** Entries of the kernel's part may be anything. */
  lemma MapKernelOwning(page: Pages, owner: Owners, d: nat, i: nat, t: nat, j: nat, w: Word)
    requires Owning(page, owner) && Owned(owner, t, Table(d, i)) && UDIRS <= i && j < ENTRIES
    ensures Owning(Put(page, t, j, w), owner)
  {
    var page' := Put(page, t, j, w);
    forall pn | pn in page' ensures PageOk(page', owner, pn) {
      assert PageOk(page, owner, pn);
      if owner[pn].User? {
        assert PageOk(page, owner, owner[pn].d);
      }
    }
  }

  /** deallocuvm's change: the page is free, its entry zero. */
  lemma UnmapOwning(page: Pages, owner: Owners, d: nat, i: nat, t: nat, j: nat, u: nat)
    requires Owning(page, owner) && Owned(owner, t, Table(d, i)) && i < UDIRS && j < ENTRIES && Present(page[t][j])
      && u == page[t][j].hi
    ensures Owned(owner, u, User(d, i, j)) && u != t
      && Owning(Put(page[u := Junk()], t, j, Word(0, 0)), owner[u := Free])
  {
    assert PageOk(page, owner, t);
    var page', owner' := Put(page[u := Junk()], t, j, Word(0, 0)), owner[u := Free];
    forall pn | pn in page' ensures PageOk(page', owner', pn) {
      assert PageOk(page, owner, pn);
    }
  }

  /** A change of entry `j` of table `t` of `d` changes one entry of one address space. */
  lemma PutEntry(page: Pages, owner: Owners, d: nat, i: nat, t: nat, j: nat, w: Word, m: nat, n: nat)
    requires Owning(page, owner) && Owned(owner, t, Table(d, i)) && j < ENTRIES && Pdx(n) == i && Ptx(n) == j
    ensures Entry(Put(page, t, j, w), d, m) == if m == n then w else Entry(page, d, m)
  {
    assert PageOk(page, owner, t) && PageOk(page, owner, d);
    if m != n && Pdx(m) == i && Ptx(m) == j {
      Split(m, n);
    }
    if Pdx(m) < ENTRIES && Present(page[d][Pdx(m)]) {
      assert Owned(owner, page[d][Pdx(m)].hi, Table(d, Pdx(m)));
    }
  }

  // ---- What stays ---------------------------------------------------------------------------

  /** The directory `d` itself, or one of its tables. */
  predicate Tabular(o: Owner, pn: nat, d: nat) {
    (o == Dir && pn == d) || (o.Table? && o.d == d)
  }

  /** Pages in use keep owner and contents, but for the directory and tables of `d` and the pages in `but`. */
  ghost predicate Kept(page: Pages, owner: Owners, page': Pages, owner': Owners, d: nat, but: set<nat>) {
    && (forall pn | pn in page && pn in owner && owner[pn] != Free && !Tabular(owner[pn], pn, d) && pn !in but ::
         pn in page' && page'[pn] == page[pn] && Owned(owner', pn, owner[pn]))
    && (forall pn | pn in owner && Tabular(owner[pn], pn, d) && pn !in but :: Owned(owner', pn, owner[pn]))
  }

  lemma KeptTwice(page: Pages, owner: Owners, page1: Pages, owner1: Owners, page2: Pages, owner2: Owners, d: nat,
                  but: set<nat>)
    requires Kept(page, owner, page1, owner1, d, but) && Kept(page1, owner1, page2, owner2, d, but)
      && owner1.Keys == page1.Keys
    ensures Kept(page, owner, page2, owner2, d, but)
  {
  }

  lemma KeptThen(page: Pages, owner: Owners, page1: Pages, owner1: Owners, page2: Pages, owner2: Owners, d: nat,
                 but: set<nat>)
    requires Kept(page, owner, page1, owner1, d, {}) && Kept(page1, owner1, page2, owner2, d, but)
      && owner1.Keys == page1.Keys
    ensures Kept(page, owner, page2, owner2, d, but)
  {
  }

  /** All entries of `d` are the same. */
  ghost predicate SameEntries(page: Pages, page': Pages, d: nat)
    requires d in page && d in page'
  {
    forall m :: Entry(page', d, m) == Entry(page, d, m)
  }

  /** A new table changes no entry. */
  lemma WithTableSame(page: Pages, owner: Owners, d: nat, i: nat, t: nat)
    requires Owning(page, owner) && Owned(owner, d, Dir) && i < ENTRIES && !Present(page[d][i])
    requires Owned(owner, t, Kernel)
    ensures d in page && d in WithTable(page, d, i, t) && SameEntries(page, WithTable(page, d, i, t), d)
  {
    forall m ensures Entry(WithTable(page, d, i, t), d, m) == Entry(page, d, m) {
      WithTableEntries(page, owner, d, i, t, m);
    }
  }
}
