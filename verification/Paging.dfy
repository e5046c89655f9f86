/** Physical pages and two-level page tables: who owns each page of the allocator's
    pool, and what each step of the page allocator and of the page-table code does to
    that ownership.  All kernel addresses are mapped one to one, so a page is named by
    its number, address / 4096. */
module Paging {
  import opened Words

  const PGSIZE: nat := 4096
  const ENTRIES: nat := 1024
  const NPAGES: nat := 4096        // PHYSTOP / PGSIZE
  const UPAGES: nat := 160         // USERTOP / PGSIZE
  const DEVBASE: nat := 0xF_E000   // 0xFE000000 / PGSIZE
  const VPAGES: nat := 0x10_0000   // virtual pages

  const PTE_P: nat := 1
  const PTE_W: nat := 2
  const PTE_U: nat := 4

  type Page = p: seq<word> | |p| == ENTRIES witness seq(ENTRIES, _ => 0)

  function Filled(w: word): (p: Page)
    ensures forall i :: 0 <= i < ENTRIES ==> p[i] == w
  {
    seq(ENTRIES, _ => w)
  }

  /** Who holds a page: a page directory; the table in slot `i` of a directory; page
      `vpn` of a user space; or some other part of the kernel. */
  datatype Owner = Other | Dir | Table(dir: nat, i: nat) | User(dir: nat, vpn: nat)

  datatype Phys = Phys(pages: seq<Page>, head: word, free: seq<nat>, owner: map<nat, Owner>)

  /** Where the linker put the kernel: its data section, and the first page after it. */
  datatype Kernel = Kernel(data: nat, end: nat) {
    predicate Ok() { 256 < data < end <= NPAGES }
    predicate Pool(p: nat) { end <= p < NPAGES }
  }

  // ---------- the free list ----------

  function Address(p: nat): word requires p < NPAGES { p * PGSIZE }

  /** The pages `free` are linked, in this order, through their first words. */
  ghost predicate Chain(k: Kernel, pages: seq<Page>, head: word, free: seq<nat>)
    requires |pages| == NPAGES
    decreases |free|
  {
    if free == [] then head == 0
    else k.Pool(free[0]) && free[0] !in free[1..] && head == Address(free[0]) && Chain(k, pages, pages[free[0]][0], free[1..])
  }

  lemma {:induction false} ChainFrame(k: Kernel, pages: seq<Page>, head: word, free: seq<nat>, pages': seq<Page>)
    requires |pages| == |pages'| == NPAGES && Chain(k, pages, head, free)
    requires forall p :: p in free && p < NPAGES ==> pages'[p] == pages[p]
    ensures Chain(k, pages', head, free)
    decreases |free|
  {
    if free != [] {
      assert free[0] in free;
      assert forall p :: p in free[1..] ==> p in free;
      ChainFrame(k, pages, pages[free[0]][0], free[1..], pages');
    }
  }

  lemma {:induction false} ChainInPool(k: Kernel, pages: seq<Page>, head: word, free: seq<nat>)
    requires |pages| == NPAGES && Chain(k, pages, head, free)
    ensures forall p :: p in free ==> k.Pool(p)
    decreases |free|
  {
    if free != [] {
      ChainInPool(k, pages, pages[free[0]][0], free[1..]);
      forall p | p in free
        ensures k.Pool(p)
      {
        if p != free[0] {
          assert p in free[1..];
        }
      }
    }
  }

  // ---------- entries ----------

  predicate Present(w: word) { w % 2 == 1 }

  /** The entry for page `p` with the given permission bits. */
  function Entry(p: nat, perm: nat): word
    requires p < VPAGES && perm < 8 && perm % 2 == 0
  {
    p * PGSIZE + perm + PTE_P
  }

  function PageOf(w: word): nat { w / PGSIZE }

  /** The mapping of a user page or a page table: writeable, user. */
  function UserEntry(p: nat): word requires p < NPAGES { Entry(p, PTE_W + PTE_U) }

  lemma EntryFields(p: nat, perm: nat)
    requires p < VPAGES && perm < 8 && perm % 2 == 0
    ensures Present(Entry(p, perm)) && PageOf(Entry(p, perm)) == p && Entry(p, perm) != 0
  {
  }

  /** Virtual pages that every address space maps to the same physical page. */
  predicate KernelPage(v: nat) { UPAGES <= v < NPAGES || DEVBASE <= v < VPAGES }

  /** Kernel text is read-only, everything else writeable. */
  function KernelPerm(k: Kernel, v: nat): nat { if 256 <= v < k.data then 0 else PTE_W }

  function KernelEntry(k: Kernel, v: nat): word requires v < VPAGES { Entry(v, KernelPerm(k, v)) }

  // ---------- ownership ----------

  ghost predicate Owned(owner: map<nat, Owner>, p: nat, o: Owner) { p in owner && owner[p] == o }

  ghost predicate DirEntryOk(owner: map<nat, Owner>, d: nat, i: nat, w: word) {
    w == 0 || (PageOf(w) < NPAGES && w == UserEntry(PageOf(w)) && Owned(owner, PageOf(w), Table(d, i)))
  }

  ghost predicate TableEntryOk(k: Kernel, owner: map<nat, Owner>, d: nat, v: nat, w: word)
    requires v < VPAGES
  {
    w == 0
    || (if v < UPAGES then PageOf(w) < NPAGES && w == UserEntry(PageOf(w)) && Owned(owner, PageOf(w), User(d, v))
        else KernelPage(v) && w == KernelEntry(k, v))
  }

  /** The page is used as its owner says, and its owner points at it. */
  ghost predicate PageOk(k: Kernel, pages: seq<Page>, owner: map<nat, Owner>, p: nat)
    requires |pages| == NPAGES && p in owner && p < NPAGES
  {
    match owner[p]
    case Other => true
    case Dir => forall i :: 0 <= i < ENTRIES ==> DirEntryOk(owner, p, i, pages[p][i])
    case Table(d, i) =>
      && d < NPAGES && i < ENTRIES && Owned(owner, d, Dir) && pages[d][i] == UserEntry(p)
      && forall j :: 0 <= j < ENTRIES ==> TableEntryOk(k, owner, d, i * ENTRIES + j, pages[p][j])
    case User(d, v) =>
      && d < NPAGES && v < UPAGES && Owned(owner, d, Dir)
      && Present(pages[d][0]) && PageOf(pages[d][0]) < NPAGES && pages[PageOf(pages[d][0])][v] == UserEntry(p)
  }

  /** Every page of the pool is free or has one owner, and is used accordingly. */
  ghost predicate Sound(k: Kernel, s: Phys) {
    && k.Ok() && |s.pages| == NPAGES && Chain(k, s.pages, s.head, s.free)
    && (forall p :: k.Pool(p) ==> (p in s.free <==> p !in s.owner))
    && (forall p :: p in s.owner ==> k.Pool(p) && PageOk(k, s.pages, s.owner, p))
  }

  // ---------- what a page directory maps ----------

  /** The entry for virtual page `v`; 0 when its page table is missing. */
  function Pte(s: Phys, d: nat, v: nat): word
    requires |s.pages| == NPAGES && d < NPAGES && v < VPAGES
  {
    var w := s.pages[d][v / ENTRIES];
    if Present(w) && PageOf(w) < NPAGES then s.pages[PageOf(w)][v % ENTRIES] else 0
  }

  ghost predicate IsDir(k: Kernel, s: Phys, d: nat) {
    Sound(k, s) && d < NPAGES && Owned(s.owner, d, Dir)
  }

  lemma TableThere(k: Kernel, s: Phys, d: nat, i: nat)
    requires IsDir(k, s, d) && i < ENTRIES && s.pages[d][i] != 0
    ensures var t := PageOf(s.pages[d][i]);
      Present(s.pages[d][i]) && t < NPAGES && Owned(s.owner, t, Table(d, i)) && s.pages[d][i] == UserEntry(t) && t != d
      && k.Pool(t)
  {
    hide Chain, TableEntryOk, Entry, Present, PageOf;
    assert PageOk(k, s.pages, s.owner, d);
    assert DirEntryOk(s.owner, d, i, s.pages[d][i]);
    EntryFields(PageOf(s.pages[d][i]), PTE_W + PTE_U);
  }

  /** An entry is empty, a kernel mapping, or names the one page that this virtual page owns. */
  lemma PteMeans(k: Kernel, s: Phys, d: nat, v: nat)
    requires IsDir(k, s, d) && v < VPAGES
    ensures TableEntryOk(k, s.owner, d, v, Pte(s, d, v))
  {
    var i, w := v / ENTRIES, s.pages[d][v / ENTRIES];
    if w != 0 {
      TableThere(k, s, d, i);
      var t := PageOf(w);
      assert PageOk(k, s.pages, s.owner, t);
      assert TableEntryOk(k, s.owner, d, i * ENTRIES + v % ENTRIES, s.pages[t][v % ENTRIES]);
      assert i * ENTRIES + v % ENTRIES == v;
    }
  }

  /** No page is mapped twice, in one user space or in two. */
  lemma NeverShared(k: Kernel, s: Phys, d: nat, v: nat, d': nat, v': nat)
    requires IsDir(k, s, d) && IsDir(k, s, d') && v < UPAGES && v' < UPAGES
    requires Pte(s, d, v) != 0 && Pte(s, d', v') != 0 && PageOf(Pte(s, d, v)) == PageOf(Pte(s, d', v'))
    ensures d == d' && v == v'
  {
    PteMeans(k, s, d, v);
    PteMeans(k, s, d', v');
  }

  // ---------- ownership through a step ----------

  /** Every page of an address space keeps its owner. */
  ghost predicate KeepsOwners(owner: map<nat, Owner>, owner': map<nat, Owner>) {
    forall p :: p in owner && owner[p] != Other ==> p in owner' && owner'[p] == owner[p]
  }

  ghost predicate SpacePage(s: Phys, p: nat) { p in s.owner && s.owner[p] != Other }

  /** Only pages outside the address spaces changed: every page of a space is still used as it should be. */
  lemma SpacesUntouched(k: Kernel, s: Phys, pages': seq<Page>, owner': map<nat, Owner>, p: nat)
    requires Sound(k, s) && |pages'| == NPAGES && KeepsOwners(s.owner, owner') && SpacePage(s, p)
    requires forall q: nat :: SpacePage(s, q) && q < NPAGES ==> pages'[q] == s.pages[q]
    ensures p < NPAGES && p in owner' && PageOk(k, pages', owner', p)
  {
    hide Chain, Entry, Present, PageOf, KernelPage, KernelEntry;
    assert PageOk(k, s.pages, s.owner, p);
    match s.owner[p]
    case Dir =>
      forall i | 0 <= i < ENTRIES
        ensures DirEntryOk(owner', p, i, pages'[p][i])
      {
        assert DirEntryOk(s.owner, p, i, s.pages[p][i]);
      }
    case Table(d, i) =>
      assert SpacePage(s, d);
      TableKept(k, s.pages, s.owner, pages', owner', p, d, i);
    case User(d, v) =>
      assert SpacePage(s, d);
      UserTable(k, s, p);
  }

  lemma TableKept(k: Kernel, pages: seq<Page>, owner: map<nat, Owner>, pages': seq<Page>, owner': map<nat, Owner>, t: nat, d: nat, i: nat)
    requires |pages| == |pages'| == NPAGES && t < NPAGES && Owned(owner, t, Table(d, i)) && PageOk(k, pages, owner, t)
    requires KeepsOwners(owner, owner') && pages'[t] == pages[t]
    ensures forall j :: 0 <= j < ENTRIES ==> TableEntryOk(k, owner', d, i * ENTRIES + j, pages'[t][j])
  {
    hide Entry, Present, PageOf, KernelPage, KernelEntry;
    forall j | 0 <= j < ENTRIES
      ensures TableEntryOk(k, owner', d, i * ENTRIES + j, pages'[t][j])
    {
      assert TableEntryOk(k, owner, d, i * ENTRIES + j, pages[t][j]);
    }
  }

  /** The page table that maps a user page. */
  lemma UserTable(k: Kernel, s: Phys, u: nat)
    requires Sound(k, s) && u in s.owner && s.owner[u].User?
    ensures var d, v := s.owner[u].dir, s.owner[u].vpn;
      && IsDir(k, s, d) && v < UPAGES && u < NPAGES && Pte(s, d, v) == UserEntry(u)
      && Present(s.pages[d][0]) && PageOf(s.pages[d][0]) < NPAGES
      && Owned(s.owner, PageOf(s.pages[d][0]), Table(d, 0))
  {
    hide Chain;
    assert PageOk(k, s.pages, s.owner, u);
    TableThere(k, s, s.owner[u].dir, 0);
  }

  // ---------- kalloc and kfree ----------

  /** `kalloc` on a nonempty list: its head goes to the caller. */
  function Popped(s: Phys): Phys
    requires |s.pages| == NPAGES && s.free != [] && s.free[0] < NPAGES
  {
    s.(head := s.pages[s.free[0]][0], free := s.free[1..], owner := s.owner[s.free[0] := Other])
  }

  lemma PopKeeps(k: Kernel, s: Phys)
    requires Sound(k, s) && s.free != []
    ensures k.Pool(s.free[0]) && s.free[0] !in s.owner && s.head == Address(s.free[0]) && Sound(k, Popped(s))
  {
    hide PageOk;
    var p, s' := s.free[0], Popped(s);
    assert p in s.free;
    forall q | q in s'.owner
      ensures k.Pool(q) && PageOk(k, s'.pages, s'.owner, q)
    {
      OtherOrKept(k, s, s'.pages, s'.owner, q);
    }
    forall q | k.Pool(q)
      ensures q in s'.free <==> q !in s'.owner
    {
      assert q in s.free <==> q == p || q in s.free[1..];
    }
  }

  lemma OtherOrKept(k: Kernel, s: Phys, pages': seq<Page>, owner': map<nat, Owner>, q: nat)
    requires Sound(k, s) && |pages'| == NPAGES && KeepsOwners(s.owner, owner') && q < NPAGES && q in owner'
    requires forall p: nat :: SpacePage(s, p) && p < NPAGES ==> pages'[p] == s.pages[p]
    requires owner'[q] != Other ==> SpacePage(s, q)
    ensures PageOk(k, pages', owner', q)
  {
    if owner'[q] != Other {
      SpacesUntouched(k, s, pages', owner', q);
    }
  }

  const JUNK: word := 0x0101_0101

  /** `kfree`: the page is filled with junk and pushed. */
  function Pushed(s: Phys, p: nat): Phys
    requires |s.pages| == NPAGES && p < NPAGES
  {
    Phys(s.pages[p := Filled(JUNK)[0 := s.head]], Address(p), [p] + s.free, s.owner - {p})
  }

  lemma PushKeeps(k: Kernel, s: Phys, p: nat)
    requires Sound(k, s) && Owned(s.owner, p, Other)
    ensures k.Pool(p) && Sound(k, Pushed(s, p))
  {
    hide PageOk;
    var s' := Pushed(s, p);
    ChainFrame(k, s.pages, s.head, s.free, s'.pages);
    assert s'.free[1..] == s.free;
    forall q | q in s'.owner
      ensures k.Pool(q) && PageOk(k, s'.pages, s'.owner, q)
    {
      OtherOrKept(k, s, s'.pages, s'.owner, q);
    }
  }

  // ---------- pages of an address space ----------

  /** A page held outside the address spaces is overwritten. */
  lemma OtherWrite(k: Kernel, s: Phys, p: nat, x: Page)
    requires Sound(k, s) && Owned(s.owner, p, Other)
    ensures p < NPAGES && Sound(k, s.(pages := s.pages[p := x]))
  {
    hide PageOk;
    var s' := s.(pages := s.pages[p := x]);
    ChainFrame(k, s.pages, s.head, s.free, s'.pages);
    forall q | q in s'.owner
      ensures k.Pool(q) && PageOk(k, s'.pages, s'.owner, q)
    {
      OtherOrKept(k, s, s'.pages, s'.owner, q);
    }
  }

  /** A zeroed page becomes an empty page directory. */
  lemma NewDir(k: Kernel, s: Phys, d: nat)
    requires Sound(k, s) && Owned(s.owner, d, Other) && d < NPAGES && s.pages[d] == Filled(0)
    ensures var s' := s.(owner := s.owner[d := Dir]);
      IsDir(k, s', d) && forall v :: 0 <= v < VPAGES ==> Pte(s', d, v) == 0
  {
    hide Chain;
    var s' := s.(owner := s.owner[d := Dir]);
    forall q | q in s'.owner
      ensures k.Pool(q) && PageOk(k, s'.pages, s'.owner, q)
    {
      if q != d {
        OtherOrKept(k, s, s'.pages, s'.owner, q);
      }
    }
  }

  /** One empty entry of one directory or table is filled in: no other page depended on it. */
  lemma EntryFilled(k: Kernel, s: Phys, x: nat, e: nat, w: word, owner': map<nat, Owner>, p: nat)
    requires Sound(k, s) && x < NPAGES && e < ENTRIES && s.pages[x][e] == 0 && KeepsOwners(s.owner, owner')
    requires SpacePage(s, p) && p != x
    ensures p < NPAGES && p in owner' && PageOk(k, s.pages[x := s.pages[x][e := w]], owner', p)
  {
    hide Chain, KernelPage, KernelEntry;
    var pages' := s.pages[x := s.pages[x][e := w]];
    assert PageOk(k, s.pages, s.owner, p);
    match s.owner[p]
    case Dir =>
      forall i | 0 <= i < ENTRIES
        ensures DirEntryOk(owner', p, i, pages'[p][i])
      {
        assert DirEntryOk(s.owner, p, i, s.pages[p][i]);
      }
    case Table(d, i) =>
      TableKept(k, s.pages, s.owner, pages', owner', p, d, i);
    case User(d, v) =>
      UserTable(k, s, p);
  }

  /** A page outside the spaces, or a page that did not depend on the entry filled in. */
  lemma FilledOrOther(k: Kernel, s: Phys, x: nat, e: nat, w: word, owner': map<nat, Owner>, p: nat)
    requires Sound(k, s) && x < NPAGES && e < ENTRIES && s.pages[x][e] == 0 && KeepsOwners(s.owner, owner')
    requires p in owner' && p < NPAGES && p != x && (owner'[p] != Other ==> SpacePage(s, p))
    ensures PageOk(k, s.pages[x := s.pages[x][e := w]], owner', p)
  {
    if owner'[p] != Other {
      EntryFilled(k, s, x, e, w, owner', p);
    }
  }

  /** The step of `walkpgdir` that adds the missing table `i` of directory `d`. */
  function Tabled(s: Phys, d: nat, i: nat, t: nat): Phys
    requires |s.pages| == NPAGES && d < NPAGES && t < NPAGES && i < ENTRIES
  {
    s.(pages := s.pages[d := s.pages[d][i := UserEntry(t)]], owner := s.owner[t := Table(d, i)])
  }

  lemma NewTable(k: Kernel, s: Phys, d: nat, i: nat, t: nat)
    requires IsDir(k, s, d) && i < ENTRIES && s.pages[d][i] == 0
    requires Owned(s.owner, t, Other) && t < NPAGES && s.pages[t] == Filled(0)
    ensures IsDir(k, Tabled(s, d, i, t), d)
  {
    hide Chain, Entry, Present, PageOf, KernelPage, KernelEntry;
    var s' := Tabled(s, d, i, t);
    assert k.Pool(d) && k.Pool(t) && PageOk(k, s.pages, s.owner, d);
    ChainFrame(k, s.pages, s.head, s.free, s'.pages);
    EntryFields(t, PTE_W + PTE_U);
    forall q | q in s'.owner
      ensures k.Pool(q) && PageOk(k, s'.pages, s'.owner, q)
    {
      if q == d {
        DirFilled(k, s, d, i, t);
      } else if q != t {
        FilledOrOther(k, s, d, i, UserEntry(t), s'.owner, q);
      }
    }
  }

  lemma DirFilled(k: Kernel, s: Phys, d: nat, i: nat, t: nat)
    requires IsDir(k, s, d) && i < ENTRIES && Owned(s.owner, t, Other) && t < NPAGES
    ensures PageOk(k, Tabled(s, d, i, t).pages, Tabled(s, d, i, t).owner, d)
  {
    hide Chain;
    var s' := Tabled(s, d, i, t);
    assert PageOk(k, s.pages, s.owner, d);
    EntryFields(t, PTE_W + PTE_U);
    forall m | 0 <= m < ENTRIES
      ensures DirEntryOk(s'.owner, d, m, s'.pages[d][m])
    {
      assert DirEntryOk(s.owner, d, m, s.pages[d][m]);
    }
  }

  /** The entry `w` is put in the page table, which is there, for virtual page `v`. */
  function Mapped(s: Phys, d: nat, v: nat, w: word): Phys
    requires |s.pages| == NPAGES && d < NPAGES && v < VPAGES && PageOf(s.pages[d][v / ENTRIES]) < NPAGES
  {
    var t := PageOf(s.pages[d][v / ENTRIES]);
    s.(pages := s.pages[t := s.pages[t][v % ENTRIES := w]])
  }

  /** A page held by the caller is mapped into user space. */
  lemma MapUser(k: Kernel, s: Phys, d: nat, v: nat, u: nat)
    requires IsDir(k, s, d) && v < UPAGES && Present(s.pages[d][0]) && Pte(s, d, v) == 0
    requires Owned(s.owner, u, Other) && u < NPAGES
    ensures PageOf(s.pages[d][0]) < NPAGES && v / ENTRIES == 0
    ensures IsDir(k, Mapped(s, d, v, UserEntry(u)).(owner := s.owner[u := User(d, v)]), d)
  {
    hide Chain, Entry, KernelPage, KernelEntry;
    TableThere(k, s, d, 0);
    var t := PageOf(s.pages[d][0]);
    assert v / ENTRIES == 0 && v % ENTRIES == v;
    var s' := Mapped(s, d, v, UserEntry(u)).(owner := s.owner[u := User(d, v)]);
    ChainFrame(k, s.pages, s.head, s.free, s'.pages);
    EntryFields(u, PTE_W + PTE_U);
    forall q | q in s'.owner
      ensures k.Pool(q) && PageOk(k, s'.pages, s'.owner, q)
    {
      if q == t {
        TableFilled(k, s, d, 0, t, v, UserEntry(u), s'.owner);
      } else if q != u {
        FilledOrOther(k, s, t, v, UserEntry(u), s'.owner, q);
      }
    }
  }

  lemma TableFilled(k: Kernel, s: Phys, d: nat, i: nat, t: nat, e: nat, w: word, owner': map<nat, Owner>)
    requires IsDir(k, s, d) && i < ENTRIES && e < ENTRIES && t < NPAGES && t != d && Owned(s.owner, t, Table(d, i))
    requires KeepsOwners(s.owner, owner') && TableEntryOk(k, owner', d, i * ENTRIES + e, w)
    ensures t in owner' && PageOk(k, s.pages[t := s.pages[t][e := w]], owner', t)
  {
    hide Chain, Entry, Present, PageOf, KernelPage, KernelEntry;
    var pages' := s.pages[t := s.pages[t][e := w]];
    assert PageOk(k, s.pages, s.owner, t);
    TableKept(k, s.pages, s.owner, s.pages, owner', t, d, i);
  }

  /** A kernel mapping is entered. */
  lemma MapKernel(k: Kernel, s: Phys, d: nat, v: nat)
    requires IsDir(k, s, d) && v < VPAGES && KernelPage(v) && Present(s.pages[d][v / ENTRIES]) && Pte(s, d, v) == 0
    ensures PageOf(s.pages[d][v / ENTRIES]) < NPAGES
    ensures IsDir(k, Mapped(s, d, v, KernelEntry(k, v)), d)
  {
    hide Chain, Entry, KernelEntry;
    var i := v / ENTRIES;
    TableThere(k, s, d, i);
    var t := PageOf(s.pages[d][i]);
    var s' := Mapped(s, d, v, KernelEntry(k, v));
    ChainFrame(k, s.pages, s.head, s.free, s'.pages);
    assert i * ENTRIES + v % ENTRIES == v;
    forall q | q in s'.owner
      ensures k.Pool(q) && PageOk(k, s'.pages, s'.owner, q)
    {
      if q == t {
        TableFilled(k, s, d, i, t, v % ENTRIES, KernelEntry(k, v), s'.owner);
      } else {
        FilledOrOther(k, s, t, v % ENTRIES, KernelEntry(k, v), s'.owner, q);
      }
    }
  }

  // ---------- unmapping ----------

  /** The step of `deallocuvm` on a mapped page: it goes back to the free list, then its entry is cleared. */
  function Unmapped(s: Phys, d: nat, v: nat): Phys
    requires |s.pages| == NPAGES && d < NPAGES && v < VPAGES && PageOf(Pte(s, d, v)) < NPAGES
    requires PageOf(s.pages[d][v / ENTRIES]) < NPAGES
  {
    var u, t, s1 := PageOf(Pte(s, d, v)), PageOf(s.pages[d][v / ENTRIES]), Pushed(s, PageOf(Pte(s, d, v)));
    s1.(pages := s1.pages[t := s1.pages[t][v % ENTRIES := 0]])
  }

  lemma UnmapKeeps(k: Kernel, s: Phys, d: nat, v: nat)
    requires IsDir(k, s, d) && v < UPAGES && Pte(s, d, v) != 0
    ensures PageOf(Pte(s, d, v)) < NPAGES && PageOf(s.pages[d][0]) < NPAGES && v / ENTRIES == 0
    ensures IsDir(k, Unmapped(s, d, v), d)
  {
    hide Chain, Entry, KernelPage, KernelEntry;
    PteMeans(k, s, d, v);
    TableThere(k, s, d, 0);
    var u, t, s' := PageOf(Pte(s, d, v)), PageOf(s.pages[d][0]), Unmapped(s, d, v);
    assert v / ENTRIES == 0 && v % ENTRIES == v && u != t && u != d;
    ChainFrame(k, s.pages, s.head, s.free, s'.pages);
    assert s'.free[1..] == s.free && s'.pages[u][0] == s.head;
    UnmapChain(k, s'.pages, s.head, s.free, u);
    forall q | q in s'.owner
      ensures k.Pool(q) && PageOk(k, s'.pages, s'.owner, q)
    {
      assert q != u && q in s.owner;
      UnmapPage(k, s, d, v, q);
    }
  }

  lemma UnmapChain(k: Kernel, pages: seq<Page>, head: word, free: seq<nat>, u: nat)
    requires |pages| == NPAGES && Chain(k, pages, head, free) && k.Pool(u) && u < NPAGES && u !in free && pages[u][0] == head
    ensures Chain(k, pages, Address(u), [u] + free)
  {
    assert ([u] + free)[1..] == free;
  }

  lemma UnmapPage(k: Kernel, s: Phys, d: nat, v: nat, q: nat)
    requires IsDir(k, s, d) && v < UPAGES && Pte(s, d, v) != 0 && q in s.owner && q != PageOf(Pte(s, d, v))
    requires PageOf(Pte(s, d, v)) < NPAGES && PageOf(s.pages[d][0]) < NPAGES && v / ENTRIES == 0
    ensures q < NPAGES && PageOk(k, Unmapped(s, d, v).pages, Unmapped(s, d, v).owner, q)
  {
    hide Chain, KernelPage, KernelEntry;
    PteMeans(k, s, d, v);
    TableThere(k, s, d, 0);
    assert PageOk(k, s.pages, s.owner, q);
    var s' := Unmapped(s, d, v);
    match s.owner[q]
    case Other =>
    case Dir =>
      forall i | 0 <= i < ENTRIES
        ensures DirEntryOk(s'.owner, q, i, s'.pages[q][i])
      {
        assert DirEntryOk(s.owner, q, i, s.pages[q][i]);
      }
    case Table(e, i) =>
      UnmapTable(k, s, d, v, q, e, i);
    case User(e, x) =>
      UserTable(k, s, q);
  }

  lemma UnmapTable(k: Kernel, s: Phys, d: nat, v: nat, q: nat, e: nat, i: nat)
    requires IsDir(k, s, d) && v < UPAGES && Pte(s, d, v) != 0 && Owned(s.owner, q, Table(e, i))
    requires PageOf(Pte(s, d, v)) < NPAGES && PageOf(s.pages[d][0]) < NPAGES && v / ENTRIES == 0
    ensures q < NPAGES && PageOk(k, Unmapped(s, d, v).pages, Unmapped(s, d, v).owner, q)
  {
    hide Chain, KernelPage, KernelEntry;
    PteMeans(k, s, d, v);
    TableThere(k, s, d, 0);
    assert PageOk(k, s.pages, s.owner, q);
    var s' := Unmapped(s, d, v);
    forall j | 0 <= j < ENTRIES
      ensures TableEntryOk(k, s'.owner, e, i * ENTRIES + j, s'.pages[q][j])
    {
      assert TableEntryOk(k, s.owner, e, i * ENTRIES + j, s.pages[q][j]);
    }
  }

  // ---------- what the hardware makes of an entry ----------

  /** Entry `w` of virtual page `v`, bit by bit: bit 0 present, bit 1 writeable, bit 2 user. User
      memory (below 0xA0000) is open to the user; the pages of the kernel, from there to
      0x1000000 and from 0xFE000000 on, are not, are mapped to themselves, and are
      writeable but for the text from 0x100000 up to the data section. */
  predicate BitsOk(k: Kernel, v: nat, w: word) {
    w == 0
    || (w % 2 == 1
        && if v < 160 then w / 2 % 2 == 1 && w / 4 % 2 == 1
           else (v < 4096 || v >= 0xF_E000) && w / 4 % 2 == 0 && w / 4096 == v && (w / 2 % 2 == 0 <==> 256 <= v < k.data))
  }

  /** No user program can touch the kernel through any page directory there is. */
  lemma EntryBits(k: Kernel, s: Phys, d: nat, v: nat)
    requires IsDir(k, s, d) && v < VPAGES
    ensures BitsOk(k, v, Pte(s, d, v))
  {
    PteMeans(k, s, d, v);
    MeansBits(k, s.owner, d, v, Pte(s, d, v));
  }

  lemma MeansBits(k: Kernel, owner: map<nat, Owner>, d: nat, v: nat, w: word)
    requires v < VPAGES && TableEntryOk(k, owner, d, v, w)
    ensures BitsOk(k, v, w)
  {
  }

  /** A page table is present, writeable and open to the user: what is allowed is up to its entries. */
  lemma DirectoryBits(k: Kernel, s: Phys, d: nat, i: nat)
    requires IsDir(k, s, d) && i < ENTRIES
    ensures s.pages[d][i] == 0 || (s.pages[d][i] % 8 == 7 && k.end <= s.pages[d][i] / 4096 < 4096)
  {
    if s.pages[d][i] != 0 {
      TableThere(k, s, d, i);
    }
  }

  /** Every entry of the directory is as it should be. */
  ghost predicate Guarded(k: Kernel, s: Phys, d: nat) {
    |s.pages| == 4096 && d < 4096 && forall v :: 0 <= v < 0x10_0000 ==> BitsOk(k, v, Pte(s, d, v))
  }

  lemma DirGuarded(k: Kernel, s: Phys, d: nat)
    requires IsDir(k, s, d)
    ensures Guarded(k, s, d)
  {
    hide Chain, PageOk, BitsOk, Pte;
    forall v | 0 <= v < VPAGES
      ensures BitsOk(k, v, Pte(s, d, v))
    {
      EntryBits(k, s, d, v);
    }
  }
}
