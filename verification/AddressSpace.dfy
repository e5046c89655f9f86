/** Whole address spaces: growing one, unmapping part of one, tearing one down; what
    each leaves to the others, and that giving up half way restores everything. */
module AddressSpace {
  import opened Words
  import opened Paging

  /** The page belongs to the address space of directory `d`. */
  predicate About(o: Owner, p: nat, d: nat) {
    p == d || (o.Table? && o.dir == d) || (o.User? && o.dir == d)
  }

  /** Everything the address space of `d` owns. */
  ghost function SpaceOf(owner: map<nat, Owner>, d: nat): set<nat> {
    set p | p in owner && About(owner[p], p, d)
  }

  /** The user pages `lo` up to `hi` of `d`. */
  ghost function UsersIn(owner: map<nat, Owner>, d: nat, lo: nat, hi: nat): set<nat> {
    set p | p in owner && owner[p].User? && owner[p].dir == d && lo <= owner[p].vpn < hi
  }

  /** Nothing that was owned changed hands or contents. */
  ghost predicate Extends(s: Phys, s': Phys) {
    && |s.pages| == |s'.pages| == NPAGES
    && (forall p :: p in s.owner ==> p in s'.owner && s'.owner[p] == s.owner[p])
    && (forall p: nat :: p in s.owner && p < NPAGES ==> s'.pages[p] == s.pages[p])
  }

  /** The same pages are owned, by the same, with the same contents. */
  ghost predicate Restored(s: Phys, s': Phys) {
    Extends(s, s') && s'.owner == s.owner
  }

  /** In particular the other address spaces are as they were, and so is their memory. */
  lemma OthersKept(k: Kernel, s: Phys, s': Phys, d: nat, v: nat)
    requires IsDir(k, s, d) && Sound(k, s') && v < VPAGES
    requires Extends(s, s')
    ensures IsDir(k, s', d) && Pte(s', d, v) == Pte(s, d, v)
    ensures v < UPAGES && Pte(s, d, v) != 0 ==>
              PageOf(Pte(s, d, v)) < NPAGES && s'.pages[PageOf(Pte(s, d, v))] == s.pages[PageOf(Pte(s, d, v))]
  {
    hide Chain, Entry, KernelEntry;
    if s.pages[d][v / ENTRIES] != 0 {
      TableThere(k, s, d, v / ENTRIES);
    }
    PteMeans(k, s, d, v);
  }

  // ---------- one more user page ----------

  /** A page off the free list, filled with `x` and mapped at `v`. */
  function WithPage(s: Phys, d: nat, v: nat, x: Page): Phys
    requires |s.pages| == NPAGES && d < NPAGES && v < VPAGES && s.free != [] && s.free[0] < NPAGES
    requires PageOf(s.pages[d][v / ENTRIES]) < NPAGES && s.free[0] != d
  {
    var u := s.free[0];
    var s1 := Popped(s).(pages := s.pages[u := x]);
    Mapped(s1, d, v, UserEntry(u)).(owner := s1.owner[u := User(d, v)])
  }

  lemma AddPage(k: Kernel, s: Phys, d: nat, v: nat, x: Page)
    requires IsDir(k, s, d) && v < UPAGES && Present(s.pages[d][0]) && Pte(s, d, v) == 0 && s.free != []
    ensures v / ENTRIES == 0 && PageOf(s.pages[d][0]) < NPAGES && k.Pool(s.free[0]) && s.free[0] !in s.owner
    ensures IsDir(k, WithPage(s, d, v, x), d)
  {
    hide Chain, Entry, KernelEntry, PageOk;
    PopKeeps(k, s);
    TableThere(k, s, d, 0);
    var u, t := s.free[0], PageOf(s.pages[d][0]);
    OtherWrite(k, Popped(s), u, x);
    var s1 := Popped(s).(pages := s.pages[u := x]);
    assert u != d && u != t && v / ENTRIES == 0;
    MapUser(k, s1, d, v, u);
    assert s1.owner[u := User(d, v)] == WithPage(s, d, v, x).owner;
  }

  lemma AddPageReads(k: Kernel, s: Phys, d: nat, v: nat, x: Page, y: nat)
    requires IsDir(k, s, d) && v < UPAGES && Present(s.pages[d][0]) && Pte(s, d, v) == 0 && s.free != [] && y < VPAGES
    requires v / ENTRIES == 0 && PageOf(s.pages[d][0]) < NPAGES && k.Pool(s.free[0]) && s.free[0] !in s.owner
    ensures Pte(WithPage(s, d, v, x), d, y) == if y == v then UserEntry(s.free[0]) else Pte(s, d, y)
  {
    hide Chain, Entry, KernelEntry, PageOk;
    var t, i := PageOf(s.pages[d][0]), y / ENTRIES;
    TableThere(k, s, d, 0);
    assert v % ENTRIES == v;
    if s.pages[d][i] != 0 {
      TableThere(k, s, d, i);
      if PageOf(s.pages[d][i]) == t {
        assert i == 0 && y % ENTRIES == y;
      }
    }
  }

  /** User pages `lo`, `lo + 1`, … of `d` were added, holding `c`; nothing else changed. */
  ghost predicate GrewBy(k: Kernel, s: Phys, s': Phys, d: nat, lo: nat, c: seq<Page>) {
    && IsDir(k, s, d) && IsDir(k, s', d) && Present(s.pages[d][0]) && lo + |c| <= UPAGES
    && |s.free| == |s'.free| + |c|
    && (forall v :: 0 <= v < VPAGES && !(lo <= v < lo + |c|) ==> Pte(s', d, v) == Pte(s, d, v))
    && (forall i :: 0 <= i < |c| ==> NewPage(s, s', d, lo + i, c[i]))
    && (forall p :: p in s.owner ==> KeptBut(s, s', p, PageOf(s.pages[d][0])))
    && (forall p :: p in s'.owner && p !in s.owner ==>
          s'.owner[p].User? && s'.owner[p].dir == d && lo <= s'.owner[p].vpn < lo + |c|)
  }

  /** Virtual page `v` of `d` is a page that was free, holding `x`. */
  ghost predicate NewPage(s: Phys, s': Phys, d: nat, v: nat, x: Page)
    requires |s'.pages| == NPAGES && d < NPAGES && v < VPAGES
  {
    var u := PageOf(Pte(s', d, v));
    Pte(s', d, v) != 0 && u < NPAGES && u in s.free && u !in s.owner && s'.pages[u] == x
  }

  /** Page `p` keeps its owner and, unless it is `t`, its contents. */
  ghost predicate KeptBut(s: Phys, s': Phys, p: nat, t: nat)
    requires p in s.owner && |s.pages| == |s'.pages| == NPAGES
  {
    p < NPAGES && p in s'.owner && s'.owner[p] == s.owner[p] && (p != t ==> s'.pages[p] == s.pages[p])
  }

  lemma GrewNothing(k: Kernel, s: Phys, d: nat, lo: nat)
    requires IsDir(k, s, d) && Present(s.pages[d][0]) && lo <= UPAGES
    ensures GrewBy(k, s, s, d, lo, [])
  {
    hide Chain, PageOk, Pte;
  }

  lemma GrewOneMore(k: Kernel, s: Phys, s1: Phys, d: nat, lo: nat, c: seq<Page>, x: Page)
    requires GrewBy(k, s, s1, d, lo, c) && lo + |c| < UPAGES && s1.free != [] && Pte(s, d, lo + |c|) == 0
    ensures k.Pool(s1.free[0]) && s1.free[0] != d && PageOf(s1.pages[d][0]) < NPAGES && (lo + |c|) / ENTRIES == 0
    ensures GrewBy(k, s, WithPage(s1, d, lo + |c|, x), d, lo, c + [x])
  {
    hide Chain, PageOk, Pte, Entry, KernelEntry, WithPage, NewPage;
    var v := lo + |c|;
    TableThere(k, s, d, 0);
    DirKept(k, s, s1, d, lo, c);
    assert Pte(s1, d, v) == 0;
    AddPage(k, s1, d, v, x);
    var s', u := WithPage(s1, d, v, x), s1.free[0];
    WithPageKeeps(s1, d, v, x);
    forall y | 0 <= y < VPAGES
      ensures Pte(s', d, y) == if y == v then UserEntry(u) else Pte(s1, d, y)
    {
      AddPageReads(k, s1, d, v, x, y);
    }
    forall i | 0 <= i < |c + [x]|
      ensures NewPage(s, s', d, lo + i, (c + [x])[i])
    {
      NewPages(k, s, s1, s', d, lo, c, x, i);
    }
    forall p | p in s.owner
      ensures KeptBut(s, s', p, PageOf(s.pages[d][0]))
    {
      assert KeptBut(s, s1, p, PageOf(s.pages[d][0]));
    }
  }

  lemma NewPages(k: Kernel, s: Phys, s1: Phys, s': Phys, d: nat, lo: nat, c: seq<Page>, x: Page, i: nat)
    requires GrewBy(k, s, s1, d, lo, c) && lo + |c| < UPAGES && s1.free != [] && i <= |c| && |s'.pages| == NPAGES
    requires k.Pool(s1.free[0]) && PageOf(s1.pages[d][0]) < NPAGES
    requires forall y :: 0 <= y < VPAGES ==> Pte(s', d, y) == if y == lo + |c| then UserEntry(s1.free[0]) else Pte(s1, d, y)
    requires s1.free[0] != PageOf(s1.pages[d][0]) ==> s'.pages[s1.free[0]] == x
    requires forall p :: 0 <= p < NPAGES && p != s1.free[0] && p != PageOf(s1.pages[d][0]) ==> s'.pages[p] == s1.pages[p]
    ensures NewPage(s, s', d, lo + i, (c + [x])[i])
  {
    hide Chain, PageOk, Pte, Entry, KernelEntry;
    var u, y := s1.free[0], lo + i;
    DirKept(k, s, s1, d, lo, c);
    NewlyFree(k, s, s1, d, lo, c, u);
    TableThere(k, s1, d, 0);
    EntryFields(u, PTE_W + PTE_U);
    if i < |c| {
      assert NewPage(s, s1, d, y, c[i]);
      PteMeans(k, s1, d, y);
    }
  }

  lemma DirKept(k: Kernel, s: Phys, s': Phys, d: nat, lo: nat, c: seq<Page>)
    requires GrewBy(k, s, s', d, lo, c)
    ensures s'.pages[d] == s.pages[d]
  {
    hide Chain, PageOk, Pte;
    TableThere(k, s, d, 0);
    assert KeptBut(s, s', d, PageOf(s.pages[d][0]));
  }

  lemma WithPageKeeps(s: Phys, d: nat, v: nat, x: Page)
    requires |s.pages| == NPAGES && d < NPAGES && v < VPAGES && s.free != [] && s.free[0] < NPAGES
    requires PageOf(s.pages[d][v / ENTRIES]) < NPAGES && s.free[0] != d
    ensures var s', u, t := WithPage(s, d, v, x), s.free[0], PageOf(s.pages[d][v / ENTRIES]);
      && s'.owner == s.owner[u := User(d, v)] && s'.free == s.free[1..] && |s'.pages| == NPAGES
      && (u != t ==> s'.pages[u] == x) && forall p :: 0 <= p < NPAGES && p != u && p != t ==> s'.pages[p] == s.pages[p]
  {
  }

  lemma NewlyFree(k: Kernel, s: Phys, s1: Phys, d: nat, lo: nat, c: seq<Page>, u: nat)
    requires GrewBy(k, s, s1, d, lo, c) && s1.free != [] && u == s1.free[0]
    ensures u in s.free && u !in s.owner && u !in s1.owner && u < NPAGES
  {
    hide PageOk, Pte;
    assert u in s1.free;
    if u in s.owner {
      StillOwned(k, s, s1, d, lo, c, u);
    }
  }

  lemma StillOwned(k: Kernel, s: Phys, s1: Phys, d: nat, lo: nat, c: seq<Page>, p: nat)
    requires GrewBy(k, s, s1, d, lo, c) && p in s.owner
    ensures p in s1.owner
  {
    hide PageOk, Pte, Chain;
    assert KeptBut(s, s1, p, PageOf(s.pages[d][0]));
  }

  // ---------- user pages taken away ----------

  /** The user pages `lo` up to `hi` of `d` went back to the free list, and nothing else. */
  ghost predicate Shrunk(k: Kernel, s: Phys, s': Phys, d: nat, lo: nat, hi: nat) {
    && IsDir(k, s, d) && IsDir(k, s', d) && lo <= hi <= UPAGES
    && s'.owner == s.owner - UsersIn(s.owner, d, lo, hi)
    && (forall v :: 0 <= v < VPAGES ==> Pte(s', d, v) == if lo <= v < hi then 0 else Pte(s, d, v))
    && (forall p: nat :: p in s'.owner && p < NPAGES && s'.owner[p] != Table(d, 0) ==> s'.pages[p] == s.pages[p])
  }

  lemma ShrunkNothing(k: Kernel, s: Phys, d: nat, lo: nat)
    requires IsDir(k, s, d) && lo <= UPAGES
    ensures Shrunk(k, s, s, d, lo, lo)
  {
    hide Chain, PageOk, Pte;
    assert UsersIn(s.owner, d, lo, lo) == {};
  }

  /** Who owns user page `v`, from the mapping and back. */
  lemma UserPage(k: Kernel, s: Phys, d: nat, v: nat)
    requires IsDir(k, s, d) && v < UPAGES
    ensures Pte(s, d, v) != 0 ==> PageOf(Pte(s, d, v)) < NPAGES && Owned(s.owner, PageOf(Pte(s, d, v)), User(d, v))
    ensures forall p :: Owned(s.owner, p, User(d, v)) ==> Pte(s, d, v) != 0 && p == PageOf(Pte(s, d, v))
  {
    hide Chain, PageOk, Pte, Entry, PageOf, Present;
    PteMeans(k, s, d, v);
    forall p | Owned(s.owner, p, User(d, v))
      ensures Pte(s, d, v) != 0 && p == PageOf(Pte(s, d, v))
    {
      UserTable(k, s, p);
      EntryFields(p, PTE_W + PTE_U);
    }
  }

  lemma MappedUser(k: Kernel, s: Phys, p: nat)
    requires Sound(k, s) && p in s.owner && s.owner[p].User?
    ensures var d, v := s.owner[p].dir, s.owner[p].vpn;
      IsDir(k, s, d) && v < UPAGES && Pte(s, d, v) != 0 && p in UsersIn(s.owner, d, 0, UPAGES)
  {
    hide Chain, PageOk, Pte, Entry;
    UserTable(k, s, p);
    EntryFields(p, PTE_W + PTE_U);
  }

  lemma ShrunkSkip(k: Kernel, s: Phys, s': Phys, d: nat, lo: nat, hi: nat)
    requires Shrunk(k, s, s', d, lo, hi) && hi < UPAGES && Pte(s', d, hi) == 0
    ensures Shrunk(k, s, s', d, lo, hi + 1)
  {
    hide Chain, PageOk, Pte;
    UserPage(k, s, d, hi);
    forall p | p in UsersIn(s.owner, d, lo, hi + 1)
      ensures p in UsersIn(s.owner, d, lo, hi)
    {
      assert s.owner[p].vpn == hi ==> Owned(s.owner, p, User(d, hi));
    }
    assert UsersIn(s.owner, d, lo, hi + 1) == UsersIn(s.owner, d, lo, hi);
  }

  lemma UnmappedReads(k: Kernel, s: Phys, d: nat, v: nat, y: nat)
    requires IsDir(k, s, d) && v < UPAGES && Pte(s, d, v) != 0 && y < VPAGES
    requires PageOf(Pte(s, d, v)) < NPAGES && PageOf(s.pages[d][0]) < NPAGES && v / ENTRIES == 0
    ensures |Unmapped(s, d, v).pages| == NPAGES
    ensures Pte(Unmapped(s, d, v), d, y) == if y == v then 0 else Pte(s, d, y)
  {
    hide Chain, Entry, KernelEntry, PageOk;
    PteMeans(k, s, d, v);
    TableThere(k, s, d, 0);
    var t, i := PageOf(s.pages[d][0]), y / ENTRIES;
    assert v % ENTRIES == v;
    if s.pages[d][i] != 0 {
      TableThere(k, s, d, i);
      if PageOf(s.pages[d][i]) == t {
        assert i == 0 && y % ENTRIES == y;
      }
    }
  }

  lemma UnmappedPages(k: Kernel, s: Phys, d: nat, v: nat)
    requires IsDir(k, s, d) && v < UPAGES && Pte(s, d, v) != 0
    requires PageOf(Pte(s, d, v)) < NPAGES && PageOf(s.pages[d][0]) < NPAGES && v / ENTRIES == 0
    ensures var s', u := Unmapped(s, d, v), PageOf(Pte(s, d, v));
      && s'.owner == s.owner - {u} && |s'.pages| == NPAGES
      && forall p: nat :: p in s'.owner && p < NPAGES && s'.owner[p] != Table(d, 0) ==> s'.pages[p] == s.pages[p]
  {
    hide Chain, Entry, KernelEntry, PageOk;
    TableThere(k, s, d, 0);
  }

  lemma ShrunkOne(k: Kernel, s: Phys, s1: Phys, d: nat, lo: nat, v: nat)
    requires Shrunk(k, s, s1, d, lo, v) && v < UPAGES && Pte(s1, d, v) != 0
    ensures PageOf(Pte(s1, d, v)) < NPAGES && PageOf(s1.pages[d][0]) < NPAGES && v / ENTRIES == 0
    ensures Shrunk(k, s, Unmapped(s1, d, v), d, lo, v + 1)
  {
    hide Chain, PageOk, Pte, Unmapped;
    UnmapKeeps(k, s1, d, v);
    UnmappedPages(k, s1, d, v);
    var s' := Unmapped(s1, d, v);
    forall y | 0 <= y < VPAGES
      ensures Pte(s', d, y) == if y == v then 0 else Pte(s1, d, y)
    {
      UnmappedReads(k, s1, d, v, y);
    }
    UserPage(k, s, d, v);
    UserPage(k, s1, d, v);
    var u := PageOf(Pte(s1, d, v));
    forall p | p in UsersIn(s.owner, d, lo, v + 1)
      ensures p in UsersIn(s.owner, d, lo, v) || p == u
    {
      assert s.owner[p].vpn == v ==> Owned(s.owner, p, User(d, v));
    }
    assert UsersIn(s.owner, d, lo, v + 1) == UsersIn(s.owner, d, lo, v) + {u};
  }

  // ---------- giving up half way ----------

  /** Pages added to a range that was empty, and then the range unmapped: everything is as before. */
  lemma Rollback(k: Kernel, s: Phys, s1: Phys, s': Phys, d: nat, lo: nat, hi: nat, c: seq<Page>)
    requires GrewBy(k, s, s1, d, lo, c) && Shrunk(k, s1, s', d, lo, hi) && lo + |c| <= hi
    requires forall v :: lo <= v < hi ==> Pte(s, d, v) == 0
    ensures Restored(s, s') && forall v :: 0 <= v < VPAGES ==> Pte(s', d, v) == Pte(s, d, v)
  {
    hide Chain, PageOk, Pte, NewPage;
    forall v | 0 <= v < VPAGES
      ensures Pte(s', d, v) == Pte(s, d, v)
    {
      assert Pte(s', d, v) == if lo <= v < hi then 0 else Pte(s1, d, v);
    }
    RollbackOwners(k, s, s1, s', d, lo, hi, c);
    forall p: nat | p in s.owner && p < NPAGES
      ensures s'.pages[p] == s.pages[p]
    {
      assert KeptBut(s, s1, p, PageOf(s.pages[d][0]));
      if s.owner[p] == Table(d, 0) {
        SameTable(k, s, s', d, p);
      } else {
        TableThere(k, s, d, 0);
      }
    }
  }

  lemma RollbackOwners(k: Kernel, s: Phys, s1: Phys, s': Phys, d: nat, lo: nat, hi: nat, c: seq<Page>)
    requires GrewBy(k, s, s1, d, lo, c) && Shrunk(k, s1, s', d, lo, hi) && lo + |c| <= hi
    requires forall v :: lo <= v < hi ==> Pte(s, d, v) == 0
    ensures s'.owner == s.owner
  {
    hide Chain, PageOk, Pte, NewPage;
    forall p | p in s.owner
      ensures p in s'.owner && s'.owner[p] == s.owner[p]
    {
      assert KeptBut(s, s1, p, PageOf(s.pages[d][0]));
      if s.owner[p].User? && s.owner[p].dir == d && lo <= s.owner[p].vpn < hi {
        MappedUser(k, s, p);
      }
    }
    forall p | p in s'.owner
      ensures p in s.owner
    {
    }
  }

  /** A table is determined by the entries read through its directory. */
  lemma SameTable(k: Kernel, s: Phys, s': Phys, d: nat, t: nat)
    requires IsDir(k, s, d) && IsDir(k, s', d) && t < NPAGES
    requires Owned(s.owner, t, Table(d, 0)) && Owned(s'.owner, t, Table(d, 0))
    requires forall v :: 0 <= v < VPAGES ==> Pte(s', d, v) == Pte(s, d, v)
    ensures s'.pages[t] == s.pages[t]
  {
    hide Chain, Entry;
    TableEntries(k, s, d, t);
    TableEntries(k, s', d, t);
    forall j | 0 <= j < ENTRIES
      ensures s'.pages[t][j] == s.pages[t][j]
    {
      assert Pte(s', d, j) == Pte(s, d, j);
    }
  }

  lemma TableEntries(k: Kernel, s: Phys, d: nat, t: nat)
    requires IsDir(k, s, d) && t < NPAGES && Owned(s.owner, t, Table(d, 0))
    ensures forall j :: 0 <= j < ENTRIES ==> Pte(s, d, j) == s.pages[t][j]
  {
    hide Chain, Entry;
    assert PageOk(k, s.pages, s.owner, t);
    EntryFields(t, PTE_W + PTE_U);
  }

  /** The owners determine the free pages, each of which is listed once. */
  lemma FreeIsTheRest(k: Kernel, s: Phys, p: nat)
    requires Sound(k, s)
    ensures multiset(s.free)[p] == if k.Pool(p) && p !in s.owner then 1 else 0
  {
    hide PageOk;
    ChainInPool(k, s.pages, s.head, s.free);
    ListedOnce(k, s.pages, s.head, s.free, p);
  }

  lemma {:induction false} ListedOnce(k: Kernel, pages: seq<Page>, head: word, free: seq<nat>, p: nat)
    requires |pages| == NPAGES && Chain(k, pages, head, free)
    ensures multiset(free)[p] == if p in free then 1 else 0
    decreases |free|
  {
    if free != [] {
      ListedOnce(k, pages, pages[free[0]][0], free[1..], p);
      assert free == [free[0]] + free[1..];
      assert multiset(free) == multiset{free[0]} + multiset(free[1..]);
    }
  }

  lemma RestoredFree(k: Kernel, s: Phys, s': Phys)
    requires Sound(k, s) && Sound(k, s') && s'.owner == s.owner
    ensures multiset(s'.free) == multiset(s.free) && |s'.free| == |s.free|
  {
    hide Chain, PageOk;
    forall p: nat
      ensures multiset(s'.free)[p] == multiset(s.free)[p]
    {
      FreeIsTheRest(k, s, p);
      FreeIsTheRest(k, s', p);
    }
    assert multiset(s'.free) == multiset(s.free);
    assert |multiset(s'.free)| == |s'.free| && |multiset(s.free)| == |s.free|;
  }

  // ---------- tearing down ----------

  ghost function TablesIn(owner: map<nat, Owner>, d: nat, n: nat): set<nat> {
    set p | p in owner && owner[p].Table? && owner[p].dir == d && owner[p].i < n
  }

  /** The tables in the first `n` slots of `d`, which maps no user page, are free again; `d` itself is not yet. */
  ghost predicate Dying(k: Kernel, s: Phys, s': Phys, d: nat, n: nat) {
    && IsDir(k, s, d) && UsersIn(s.owner, d, 0, UPAGES) == {} && n <= ENTRIES
    && |s'.pages| == NPAGES && Chain(k, s'.pages, s'.head, s'.free)
    && s'.owner == s.owner - TablesIn(s.owner, d, n)
    && (forall p :: k.Pool(p) ==> (p in s'.free <==> p !in s'.owner))
    && (forall p: nat :: p in s'.owner && p < NPAGES ==> s'.pages[p] == s.pages[p])
  }

  lemma DyingStart(k: Kernel, s: Phys, d: nat)
    requires IsDir(k, s, d) && UsersIn(s.owner, d, 0, UPAGES) == {}
    ensures Dying(k, s, s, d, 0)
  {
    hide PageOk;
    assert TablesIn(s.owner, d, 0) == {};
  }

  /** Slot `n` of the directory: its table, if there is one, is freed. */
  lemma DyingSkip(k: Kernel, s: Phys, s': Phys, d: nat, n: nat)
    requires Dying(k, s, s', d, n) && n < ENTRIES && !Present(s'.pages[d][n])
    ensures Dying(k, s, s', d, n + 1)
  {
    hide Chain;
    assert s'.pages[d] == s.pages[d];
    forall p | p in TablesIn(s.owner, d, n + 1)
      ensures p in TablesIn(s.owner, d, n)
    {
      if s.owner[p].i == n {
        TableSlot(k, s, p);
      }
    }
    assert TablesIn(s.owner, d, n + 1) == TablesIn(s.owner, d, n);
  }

  lemma TableSlot(k: Kernel, s: Phys, p: nat)
    requires Sound(k, s) && p in s.owner && s.owner[p].Table?
    ensures var d, i := s.owner[p].dir, s.owner[p].i;
      d < NPAGES && i < ENTRIES && p < NPAGES && Owned(s.owner, d, Dir)
      && Present(s.pages[d][i]) && PageOf(s.pages[d][i]) == p
  {
    hide Chain;
    assert PageOk(k, s.pages, s.owner, p);
    EntryFields(p, PTE_W + PTE_U);
  }

  lemma DyingOne(k: Kernel, s: Phys, s': Phys, d: nat, n: nat)
    requires Dying(k, s, s', d, n) && n < ENTRIES && Present(s'.pages[d][n])
    ensures k.Pool(PageOf(s'.pages[d][n])) && Dying(k, s, Pushed(s', PageOf(s'.pages[d][n])), d, n + 1)
  {
    hide Entry;
    assert s'.pages[d] == s.pages[d];
    TableThere(k, s, d, n);
    var t := PageOf(s.pages[d][n]);
    forall p | p in TablesIn(s.owner, d, n + 1)
      ensures p in TablesIn(s.owner, d, n) || p == t
    {
      if s.owner[p].i == n {
        TableSlot(k, s, p);
      }
    }
    assert TablesIn(s.owner, d, n + 1) == TablesIn(s.owner, d, n) + {t};
    assert t !in TablesIn(s.owner, d, n) && t !in s'.free;
    PushChain(k, s', t);
  }

  lemma PushChain(k: Kernel, s: Phys, p: nat)
    requires |s.pages| == NPAGES && Chain(k, s.pages, s.head, s.free) && k.Pool(p) && p !in s.free && p < NPAGES
    ensures var s' := Pushed(s, p); Chain(k, s'.pages, s'.head, s'.free)
  {
    var s' := Pushed(s, p);
    ChainFrame(k, s.pages, s.head, s.free, s'.pages);
    UnmapChain(k, s'.pages, s.head, s.free, p);
  }

  /** The space of `d` is gone: all it owned is free, everything else is untouched. */
  ghost predicate TornDown(k: Kernel, s: Phys, s': Phys, d: nat) {
    && Sound(k, s') && |s.pages| == NPAGES && s'.owner == s.owner - SpaceOf(s.owner, d)
    && forall p: nat :: p in s'.owner && p < NPAGES ==> s'.pages[p] == s.pages[p]
  }

  lemma DyingEnd(k: Kernel, s: Phys, s': Phys, d: nat)
    requires Dying(k, s, s', d, ENTRIES)
    ensures k.Pool(d) && TornDown(k, s, Pushed(s', d), d)
  {
    hide PageOk;
    var e := Pushed(s', d);
    forall p | p in SpaceOf(s.owner, d)
      ensures p == d || p in TablesIn(s.owner, d, ENTRIES)
    {
      if p != d {
        NoUsersLeft(k, s, d, p);
      }
    }
    assert SpaceOf(s.owner, d) == TablesIn(s.owner, d, ENTRIES) + {d};
    PushChain(k, s', d);
    forall p | p in e.owner
      ensures k.Pool(p) && PageOk(k, e.pages, e.owner, p)
    {
      SurvivorOk(k, s, e, d, p);
    }
  }

  lemma NoUsersLeft(k: Kernel, s: Phys, d: nat, p: nat)
    requires IsDir(k, s, d) && UsersIn(s.owner, d, 0, UPAGES) == {} && p in SpaceOf(s.owner, d) && p != d
    ensures p in TablesIn(s.owner, d, ENTRIES)
  {
    hide Chain;
    if s.owner[p].User? {
      MappedUser(k, s, p);
    } else {
      TableSlot(k, s, p);
    }
  }

  /** A page of another space does not depend on the pages of this one. */
  lemma SurvivorOk(k: Kernel, s: Phys, s': Phys, d: nat, p: nat)
    requires IsDir(k, s, d) && |s'.pages| == NPAGES && s'.owner == s.owner - SpaceOf(s.owner, d) && p in s'.owner
    requires forall q: nat :: q in s'.owner && q < NPAGES ==> s'.pages[q] == s.pages[q]
    ensures k.Pool(p) && PageOk(k, s'.pages, s'.owner, p)
  {
    hide Chain, Entry, Present, PageOf, KernelPage, KernelEntry;
    assert PageOk(k, s.pages, s.owner, p);
    match s.owner[p]
    case Other =>
    case Dir =>
      forall i | 0 <= i < ENTRIES
        ensures DirEntryOk(s'.owner, p, i, s'.pages[p][i])
      {
        assert DirEntryOk(s.owner, p, i, s.pages[p][i]);
      }
    case Table(e, i) =>
      assert e in s'.owner;
      forall j | 0 <= j < ENTRIES
        ensures TableEntryOk(k, s'.owner, e, i * ENTRIES + j, s'.pages[p][j])
      {
        assert TableEntryOk(k, s.owner, e, i * ENTRIES + j, s.pages[p][j]);
      }
    case User(e, v) =>
      UserTable(k, s, p);
      assert e in s'.owner && PageOf(s.pages[e][0]) in s'.owner;
  }

  /** Unmapping all user pages and then tearing down frees the whole space. */
  lemma TornDownAll(k: Kernel, s: Phys, s1: Phys, s': Phys, d: nat)
    requires Shrunk(k, s, s1, d, 0, UPAGES) && TornDown(k, s1, s', d)
    ensures TornDown(k, s, s', d)
  {
    hide Chain, PageOk, Pte;
    assert s'.owner == s.owner - SpaceOf(s.owner, d);
  }

  lemma NoUsers(k: Kernel, s: Phys, s': Phys, d: nat)
    requires Shrunk(k, s, s', d, 0, UPAGES)
    ensures UsersIn(s'.owner, d, 0, UPAGES) == {}
  {
    hide Chain, PageOk, Pte;
  }
}
