/** Entering a run of mappings into a page directory, with the page tables that takes,
    and the kernel's part of every address space. */
module Mappings {
  import opened Options
  import opened Words
  import opened Paging
  import opened AddressSpace

  // ---------- a page table where there was none ----------

  /** Tables missing from the slots `lo` up to `hi` of a directory. */
  function Missing(dir: Page, lo: nat, hi: nat): nat
    requires hi <= ENTRIES
  {
    if hi <= lo then 0 else Missing(dir, lo, hi - 1) + (if Present(dir[hi - 1]) then 0 else 1)
  }

  lemma {:induction false} MissingMonotone(dir: Page, lo: nat, h: nat, hi: nat)
    requires h <= hi <= ENTRIES
    ensures Missing(dir, lo, h) <= Missing(dir, lo, hi)
  {
    if h < hi {
      MissingMonotone(dir, lo, h, hi - 1);
    }
  }

  /** When exactly the slots below `top` have tables. */
  lemma {:induction false} MissingCount(dir: Page, lo: nat, hi: nat, top: nat)
    requires hi <= ENTRIES && forall i :: lo <= i < hi ==> (Present(dir[i]) <==> i < top)
    ensures Missing(dir, lo, hi) == if hi <= lo || hi <= top then 0 else hi - (if lo < top then top else lo)
  {
    if lo < hi {
      MissingCount(dir, lo, hi - 1, top);
    }
  }

  /** What `walkpgdir` does when the table is missing and it may create one. */
  function Grown(s: Phys, d: nat, i: nat): Phys
    requires |s.pages| == NPAGES && d < NPAGES && i < ENTRIES && s.free != [] && s.free[0] < NPAGES
  {
    var t := s.free[0];
    Tabled(Popped(s).(pages := s.pages[t := Filled(0)]), d, i, t)
  }

  /** `s'` is `s` with, if need be, a table in slot `i` of `d`. */
  ghost predicate Ready(k: Kernel, s: Phys, s': Phys, d: nat, i: nat) {
    && IsDir(k, s, d) && IsDir(k, s', d) && i < ENTRIES && Present(s'.pages[d][i])
    && (forall v :: 0 <= v < VPAGES ==> Pte(s', d, v) == Pte(s, d, v))
    && (forall m :: 0 <= m < ENTRIES ==> (Present(s'.pages[d][m]) <==> Present(s.pages[d][m]) || m == i))
    && |s.free| == |s'.free| + (if Present(s.pages[d][i]) then 0 else 1)
    && (forall p :: p in s.owner ==> Same(s, s', p, p == d))
    && (forall p :: p in s'.owner ==> p in s.owner || s'.owner[p] == Table(d, i))
  }

  ghost predicate Same(s: Phys, s': Phys, p: nat, written: bool)
    requires p in s.owner && |s.pages| == |s'.pages| == NPAGES
  {
    p < NPAGES && p in s'.owner && s'.owner[p] == s.owner[p] && (!written ==> s'.pages[p] == s.pages[p])
  }

  lemma AlreadyReady(k: Kernel, s: Phys, d: nat, i: nat)
    requires IsDir(k, s, d) && i < ENTRIES && Present(s.pages[d][i])
    ensures Ready(k, s, s, d, i)
  {
    hide Chain, PageOk, Pte;
  }

  lemma GrownReady(k: Kernel, s: Phys, d: nat, i: nat)
    requires IsDir(k, s, d) && i < ENTRIES && !Present(s.pages[d][i]) && s.free != []
    ensures k.Pool(s.free[0]) && s.free[0] != d && Ready(k, s, Grown(s, d, i), d, i)
  {
    hide Chain, PageOk, Pte, Entry;
    PopKeeps(k, s);
    var t := s.free[0];
    OtherWrite(k, Popped(s), t, Filled(0));
    var s1 := Popped(s).(pages := s.pages[t := Filled(0)]);
    if s.pages[d][i] != 0 {
      TableThere(k, s, d, i);
    }
    NewTable(k, s1, d, i, t);
    EntryFields(t, PTE_W + PTE_U);
    var s' := Grown(s, d, i);
    assert s'.owner == s.owner[t := Table(d, i)];
    forall v | 0 <= v < VPAGES
      ensures Pte(s', d, v) == Pte(s, d, v)
    {
      GrownReads(k, s, d, i, v);
    }
  }

  lemma GrownReads(k: Kernel, s: Phys, d: nat, i: nat, v: nat)
    requires IsDir(k, s, d) && i < ENTRIES && s.pages[d][i] == 0 && s.free != [] && v < VPAGES
    requires k.Pool(s.free[0]) && s.free[0] !in s.owner
    ensures Pte(Grown(s, d, i), d, v) == Pte(s, d, v)
  {
    hide Chain, PageOk, Entry;
    EntryFields(s.free[0], PTE_W + PTE_U);
    if s.pages[d][v / ENTRIES] != 0 {
      TableThere(k, s, d, v / ENTRIES);
    }
  }

  // ---------- one entry ----------

  /** The range `v0`, …, `v0 + n - 1` may be mapped to the physical pages from `base` on: it is
      part of the kernel's fixed map, or one user page for a page the caller holds. */
  ghost predicate MapOk(k: Kernel, s: Phys, v0: nat, n: nat, base: nat, perm: nat, user: Option<nat>) {
    v0 + n <= VPAGES && base + n <= VPAGES && perm < 8 && perm % 2 == 0
    && match user
       case None => base == v0 && forall v :: v0 <= v < v0 + n ==> KernelPage(v) && perm == KernelPerm(k, v)
       case Some(u) => n == 1 && v0 < UPAGES && base == u < NPAGES && perm == PTE_W + PTE_U && Owned(s.owner, u, Other)
  }

  function OwnerAfter(owner: map<nat, Owner>, d: nat, v: nat, user: Option<nat>): map<nat, Owner> {
    if user.Some? then owner[user.value := User(d, v)] else owner
  }

  /** The entry `w` for `v` is stored, and the user page, if it is one, changes hands. */
  function Stored(s: Phys, d: nat, v: nat, w: word, user: Option<nat>): Phys
    requires |s.pages| == NPAGES && d < NPAGES && v < VPAGES && PageOf(s.pages[d][v / ENTRIES]) < NPAGES
  {
    Mapped(s, d, v, w).(owner := OwnerAfter(s.owner, d, v, user))
  }

  lemma StoredOk(k: Kernel, s: Phys, d: nat, v: nat, v0: nat, n: nat, base: nat, perm: nat, user: Option<nat>)
    requires IsDir(k, s, d) && MapOk(k, s, v0, n, base, perm, user) && v0 <= v < v0 + n
    requires Present(s.pages[d][v / ENTRIES]) && Pte(s, d, v) == 0
    ensures PageOf(s.pages[d][v / ENTRIES]) < NPAGES && IsDir(k, Stored(s, d, v, Entry(base + v - v0, perm), user), d)
  {
    hide Chain, PageOk, Pte, Entry, Mapped;
    match user
    case None =>
      MapKernel(k, s, d, v);
      assert Stored(s, d, v, Entry(base + v - v0, perm), user) == Mapped(s, d, v, KernelEntry(k, v)) by {
        StoredKernel(k, s, d, v, Entry(base + v - v0, perm));
      }
    case Some(u) =>
      assert v / ENTRIES == 0;
      MapUser(k, s, d, v, u);
      StoredUser(s, d, v, UserEntry(u), u);
  }

  lemma StoredKernel(k: Kernel, s: Phys, d: nat, v: nat, w: word)
    requires |s.pages| == NPAGES && d < NPAGES && v < VPAGES && PageOf(s.pages[d][v / ENTRIES]) < NPAGES
    ensures Stored(s, d, v, w, None) == Mapped(s, d, v, w)
  {
  }

  lemma StoredUser(s: Phys, d: nat, v: nat, w: word, u: nat)
    requires |s.pages| == NPAGES && d < NPAGES && v < VPAGES && PageOf(s.pages[d][v / ENTRIES]) < NPAGES
    ensures Stored(s, d, v, w, Some(u)) == Mapped(s, d, v, w).(owner := s.owner[u := User(d, v)])
  {
  }

  lemma StoredReads(k: Kernel, s: Phys, d: nat, v: nat, w: word, user: Option<nat>, y: nat)
    requires IsDir(k, s, d) && v < VPAGES && Present(s.pages[d][v / ENTRIES]) && y < VPAGES
    ensures PageOf(s.pages[d][v / ENTRIES]) < NPAGES && |Stored(s, d, v, w, user).pages| == NPAGES
    ensures Pte(Stored(s, d, v, w, user), d, y) == if y == v then w else Pte(s, d, y)
  {
    hide Chain, PageOk, Entry;
    var i, t := v / ENTRIES, PageOf(s.pages[d][v / ENTRIES]);
    TableThere(k, s, d, i);
    var m := y / ENTRIES;
    if s.pages[d][m] != 0 {
      TableThere(k, s, d, m);
      if PageOf(s.pages[d][m]) == t {
        assert m == i && (y % ENTRIES == v % ENTRIES <==> y == v);
      }
    }
  }

  lemma StoredKeeps(k: Kernel, s: Phys, d: nat, v: nat, w: word, user: Option<nat>)
    requires IsDir(k, s, d) && v < VPAGES && Present(s.pages[d][v / ENTRIES])
    ensures PageOf(s.pages[d][v / ENTRIES]) < NPAGES
    ensures var s', t := Stored(s, d, v, w, user), PageOf(s.pages[d][v / ENTRIES]);
      && Owned(s.owner, t, Table(d, v / ENTRIES)) && t != d && s'.free == s.free && |s'.pages| == NPAGES
      && s'.owner == OwnerAfter(s.owner, d, v, user)
      && forall p :: 0 <= p < NPAGES && p != t ==> s'.pages[p] == s.pages[p]
  {
    hide Chain, PageOk, Entry;
    TableThere(k, s, d, v / ENTRIES);
  }

  // ---------- a run of entries ----------

  /** Table slots used by the pages `v0` up to `v`. */
  function Reached(v0: nat, v: nat): nat
    requires v0 <= v
  {
    if v == v0 then v0 / ENTRIES else (v - 1) / ENTRIES + 1
  }

  /** The pages `v0` up to `v` have been mapped to the pages from `base` on, and the tables
      that were missing for them taken off the free list. */
  ghost predicate Mapping(k: Kernel, s: Phys, s': Phys, d: nat, v0: nat, v: nat, base: nat, perm: nat, user: Option<nat>) {
    && IsDir(k, s, d) && IsDir(k, s', d) && v0 <= v <= VPAGES && base + (v - v0) <= VPAGES && perm < 8 && perm % 2 == 0
    && (forall y :: 0 <= y < VPAGES ==>
          Pte(s', d, y) == if v0 <= y < v then Entry(base + y - v0, perm) else Pte(s, d, y))
    && (forall m :: 0 <= m < ENTRIES ==>
          (Present(s'.pages[d][m]) <==> Present(s.pages[d][m]) || v0 / ENTRIES <= m < Reached(v0, v)))
    && Reached(v0, v) <= ENTRIES && |s.free| == |s'.free| + Missing(s.pages[d], v0 / ENTRIES, Reached(v0, v))
    && (forall p :: p in s.owner ==> Kept(s, s', d, p, v0, v, user))
    && (forall p :: p in s'.owner ==> p in s.owner || (s'.owner[p].Table? && s'.owner[p].dir == d))
  }

  /** A page outside the space keeps its owner, unless it is the user page just mapped, and its contents. */
  ghost predicate Kept(s: Phys, s': Phys, d: nat, p: nat, v0: nat, v: nat, user: Option<nat>)
    requires p in s.owner && |s.pages| == |s'.pages| == NPAGES
  {
    && p < NPAGES && p in s'.owner
    && s'.owner[p] == (if v0 < v && user == Some(p) then User(d, v0) else s.owner[p])
    && (!About(s.owner[p], p, d) ==> s'.pages[p] == s.pages[p])
  }

  lemma MappingNothing(k: Kernel, s: Phys, d: nat, v0: nat, base: nat, perm: nat, user: Option<nat>)
    requires IsDir(k, s, d) && v0 < VPAGES && base <= VPAGES && perm < 8 && perm % 2 == 0
    ensures Mapping(k, s, s, d, v0, v0, base, perm, user)
  {
    hide Chain, PageOk, Pte, Entry;
  }

  /** The next entry needs a new table exactly when it starts a slot that had none. */
  lemma TableCount(dir: Page, dir': Page, v0: nat, v: nat)
    requires v0 <= v < VPAGES
    requires forall m :: 0 <= m < ENTRIES ==> (Present(dir'[m]) <==> Present(dir[m]) || v0 / ENTRIES <= m < Reached(v0, v))
    ensures Reached(v0, v + 1) == v / ENTRIES + 1 <= ENTRIES && Reached(v0, v) <= ENTRIES
    ensures Missing(dir, v0 / ENTRIES, Reached(v0, v + 1))
         == Missing(dir, v0 / ENTRIES, Reached(v0, v)) + (if Present(dir'[v / ENTRIES]) then 0 else 1)
    ensures forall m :: 0 <= m < ENTRIES ==>
              (Present(dir'[m]) || m == v / ENTRIES <==> Present(dir[m]) || v0 / ENTRIES <= m < Reached(v0, v + 1))
  {
    hide Present;
    var i, lo := v / ENTRIES, v0 / ENTRIES;
    if v == v0 {
      assert Missing(dir, lo, i + 1) == Missing(dir, lo, i) + (if Present(dir[i]) then 0 else 1);
    } else if (v - 1) / ENTRIES == i {
      assert Reached(v0, v) == i + 1;
    } else {
      assert Reached(v0, v) == i && Present(dir'[i]) == Present(dir[i]);
      assert Missing(dir, lo, i + 1) == Missing(dir, lo, i) + (if Present(dir[i]) then 0 else 1);
    }
  }

  lemma MappingStep(k: Kernel, s: Phys, s1: Phys, s2: Phys, d: nat, v0: nat, n: nat, v: nat, base: nat, perm: nat, user: Option<nat>)
    requires Mapping(k, s, s1, d, v0, v, base, perm, user) && MapOk(k, s, v0, n, base, perm, user) && v < v0 + n
    requires Ready(k, s1, s2, d, v / ENTRIES) && Pte(s2, d, v) == 0
    ensures PageOf(s2.pages[d][v / ENTRIES]) < NPAGES
    ensures Mapping(k, s, Stored(s2, d, v, Entry(base + v - v0, perm), user), d, v0, v + 1, base, perm, user)
  {
    hide Chain, PageOk, Pte, Entry, Present, PageOf, Missing, Reached, Stored, About, KernelPage, KernelPerm, Kept, Same;
    var w := Entry(base + v - v0, perm);
    StillOk(k, s, s1, s2, d, v0, n, v, base, perm, user);
    StoredOk(k, s2, d, v, v0, n, base, perm, user);
    StoredKeeps(k, s2, d, v, w, user);
    TableCount(s.pages[d], s1.pages[d], v0, v);
    var s' := Stored(s2, d, v, w, user);
    forall y | 0 <= y < VPAGES
      ensures Pte(s', d, y) == if y == v then w else Pte(s1, d, y)
    {
      StoredReads(k, s2, d, v, w, user, y);
    }
    forall p | p in s.owner
      ensures Kept(s, s', d, p, v0, v + 1, user)
    {
      KeptStep(k, s, s1, s2, d, v0, n, v, base, perm, user, w, p);
    }
    forall p | p in s'.owner
      ensures p in s.owner || (s'.owner[p].Table? && s'.owner[p].dir == d)
    {
      NewStep(k, s, s1, s2, d, v0, n, v, base, perm, user, p);
    }
  }

  /** The page being mapped is still the caller's. */
  lemma StillOk(k: Kernel, s: Phys, s1: Phys, s2: Phys, d: nat, v0: nat, n: nat, v: nat, base: nat, perm: nat, user: Option<nat>)
    requires Mapping(k, s, s1, d, v0, v, base, perm, user) && MapOk(k, s, v0, n, base, perm, user) && v < v0 + n
    requires Ready(k, s1, s2, d, v / ENTRIES)
    ensures MapOk(k, s2, v0, n, base, perm, user)
  {
    hide Chain, PageOk, Pte, Entry, Present, PageOf, Missing, Reached, About, KernelPage, KernelPerm;
    if user.Some? {
      assert Kept(s, s1, d, user.value, v0, v, user);
      assert Same(s1, s2, user.value, user.value == d);
    }
  }

  lemma KeptStep(k: Kernel, s: Phys, s1: Phys, s2: Phys, d: nat, v0: nat, n: nat, v: nat, base: nat, perm: nat, user: Option<nat>,
                 w: word, p: nat)
    requires Mapping(k, s, s1, d, v0, v, base, perm, user) && MapOk(k, s, v0, n, base, perm, user) && v < v0 + n
    requires Ready(k, s1, s2, d, v / ENTRIES) && p in s.owner
    ensures PageOf(s2.pages[d][v / ENTRIES]) < NPAGES && |Stored(s2, d, v, w, user).pages| == NPAGES
    ensures Kept(s, Stored(s2, d, v, w, user), d, p, v0, v + 1, user)
  {
    hide Chain, PageOk, Pte, Entry, Present, PageOf, Missing, Reached, Stored, KernelPage, KernelPerm;
    StoredKeeps(k, s2, d, v, w, user);
    assert Kept(s, s1, d, p, v0, v, user);
    assert Same(s1, s2, p, p == d);
  }

  lemma NewStep(k: Kernel, s: Phys, s1: Phys, s2: Phys, d: nat, v0: nat, n: nat, v: nat, base: nat, perm: nat, user: Option<nat>, p: nat)
    requires Mapping(k, s, s1, d, v0, v, base, perm, user) && MapOk(k, s, v0, n, base, perm, user) && v < v0 + n
    requires Ready(k, s1, s2, d, v / ENTRIES) && p in OwnerAfter(s2.owner, d, v, user)
    ensures p in s.owner || (OwnerAfter(s2.owner, d, v, user)[p].Table? && OwnerAfter(s2.owner, d, v, user)[p].dir == d)
  {
    hide Chain, PageOk, Pte, Entry, Present, PageOf, Missing, Reached, About, KernelPage, KernelPerm;
    if user != Some(p) && p in s1.owner {
      assert Same(s1, s2, p, p == d);
    }
  }

  // ---------- the kernel's part of an address space ----------

  /** A row of the kernel's table of fixed mappings: addresses and permission. */
  datatype Region = Region(p: word, e: word, perm: nat)

  function Kmap(k: Kernel): (r: seq<Region>)
    requires k.Ok()
    ensures |r| == 4
  {
    [Region(UPAGES * PGSIZE, 0x10_0000, PTE_W), Region(0x10_0000, k.data * PGSIZE, 0),
     Region(k.data * PGSIZE, NPAGES * PGSIZE, PTE_W), Region(DEVBASE * PGSIZE, 0, PTE_W)]
  }

  /** First page of row `m`, and the page after its last. */
  function Lo(k: Kernel, m: nat): nat requires m < 4 {
    if m == 0 then UPAGES else if m == 1 then 256 else if m == 2 then k.data else DEVBASE
  }

  function Hi(k: Kernel, m: nat): nat requires m < 4 {
    if m == 0 then 256 else if m == 1 then k.data else if m == 2 then NPAGES else VPAGES
  }

  /** The rows are the pages that `Lo` and `Hi` say, 32-bit wrap-around of the last one included. */
  lemma Rows(k: Kernel, m: nat)
    requires k.Ok() && m < 4
    ensures var r := Kmap(k)[m];
      && r.p % PGSIZE == 0 && r.p / PGSIZE == Lo(k, m) < Hi(k, m) <= VPAGES
      && (r.p + (r.e - r.p) % WORD_LIMIT - 1) % WORD_LIMIT / PGSIZE == Hi(k, m) - 1 && (r.e - r.p) % WORD_LIMIT > 0
      && r.perm < 8 && r.perm % 2 == 0
      && forall v :: Lo(k, m) <= v < Hi(k, m) ==> KernelPage(v) && r.perm == KernelPerm(k, v)
  {
  }

  predicate Covered(k: Kernel, m: nat, v: nat) {
    || (m > 0 && UPAGES <= v < 256) || (m > 1 && 256 <= v < k.data)
    || (m > 2 && k.data <= v < NPAGES) || (m > 3 && DEVBASE <= v < VPAGES)
  }

  /** Table slots in use after `m` rows, and how many they are. */
  predicate Slots(k: Kernel, m: nat, i: nat)
    requires k.Ok()
  {
    || (m > 0 && i == 0) || (m > 1 && i <= (k.data - 1) / ENTRIES)
    || (m > 2 && i < 4) || (m > 3 && 1016 <= i < ENTRIES)
  }

  function Tables(k: Kernel, m: nat): nat
    requires k.Ok()
  {
    if m == 0 then 0 else if m == 1 then 1
    else if m == 2 then 1 + (k.data - 1) / ENTRIES else if m == 3 then 4 else 12
  }

  /** Page tables of the kernel part, and the directory itself. */
  const KVM_PAGES: nat := 13

  /** After `m` rows, directory `d`, taken off the free list of `s0`, maps them and nothing else. */
  ghost predicate Preparing(k: Kernel, s0: Phys, s: Phys, d: nat, m: nat) {
    && IsDir(k, s, d) && Extends(s0, s) && d !in s0.owner
    && (forall v :: 0 <= v < VPAGES ==> Pte(s, d, v) == if Covered(k, m, v) then KernelEntry(k, v) else 0)
    && (forall i :: 0 <= i < ENTRIES ==> (Present(s.pages[d][i]) <==> Slots(k, m, i)))
    && |s0.free| == |s.free| + 1 + Tables(k, m)
    && (forall p :: p in s.owner ==> p in s0.owner || About(s.owner[p], p, d))
  }

  lemma NotAbout(k: Kernel, s: Phys, d: nat, p: nat)
    requires Sound(k, s) && d !in s.owner && p in s.owner
    ensures !About(s.owner[p], p, d)
  {
    hide Chain;
    assert PageOk(k, s.pages, s.owner, p);
  }

  /** A new, empty directory. */
  lemma FreshDir(k: Kernel, s0: Phys)
    requires Sound(k, s0) && s0.free != []
    ensures k.Pool(s0.free[0])
    ensures var d := s0.free[0];
      Preparing(k, s0, Popped(s0).(pages := s0.pages[d := Filled(0)], owner := s0.owner[d := Dir]), d, 0)
  {
    hide Chain, PageOk, Entry;
    PopKeeps(k, s0);
    var d := s0.free[0];
    OtherWrite(k, Popped(s0), d, Filled(0));
    var s1 := Popped(s0).(pages := s0.pages[d := Filled(0)]);
    NewDir(k, s1, d);
    assert s1.(owner := s1.owner[d := Dir]) == Popped(s0).(pages := s0.pages[d := Filled(0)], owner := s0.owner[d := Dir]);
  }

  lemma RowMaps(k: Kernel, s0: Phys, s: Phys, d: nat, m: nat)
    requires Preparing(k, s0, s, d, m) && m < 4
    ensures forall v :: Lo(k, m) <= v < Hi(k, m) <= VPAGES ==> Pte(s, d, v) == 0
    ensures MapOk(k, s, Lo(k, m), Hi(k, m) - Lo(k, m), Lo(k, m), Kmap(k)[m].perm, None)
  {
    hide Chain, PageOk, Pte, Entry;
    Rows(k, m);
  }

  /** The tables a row needs. */
  lemma RowTables(k: Kernel, s0: Phys, s: Phys, d: nat, m: nat)
    requires Preparing(k, s0, s, d, m) && m < 4
    ensures Lo(k, m) < Hi(k, m) <= VPAGES && Reached(Lo(k, m), Hi(k, m)) == (Hi(k, m) - 1) / ENTRIES + 1 <= ENTRIES
    ensures Missing(s.pages[d], Lo(k, m) / ENTRIES, Reached(Lo(k, m), Hi(k, m))) == Tables(k, m + 1) - Tables(k, m)
    ensures Tables(k, m) <= Tables(k, m + 1) < KVM_PAGES
  {
    hide Chain, PageOk, Pte, Entry, Present;
    Rows(k, m);
    var lo, hi := Lo(k, m) / ENTRIES, (Hi(k, m) - 1) / ENTRIES + 1;
    assert forall i :: 0 <= i < ENTRIES ==> (Present(s.pages[d][i]) <==> Slots(k, m, i));
    MissingCount(s.pages[d], lo, hi, if m == 3 then 0 else Tables(k, m));
  }

  lemma RowDone(k: Kernel, s0: Phys, s: Phys, s': Phys, d: nat, m: nat)
    requires Preparing(k, s0, s, d, m) && m < 4 && Sound(k, s0)
    requires Mapping(k, s, s', d, Lo(k, m), Hi(k, m), Lo(k, m), Kmap(k)[m].perm, None)
    ensures Preparing(k, s0, s', d, m + 1)
  {
    hide Chain, PageOk, Pte, Entry, Present, Missing, About, Kept;
    Rows(k, m);
    RowTables(k, s0, s, d, m);
    RowReads(k, s0, s, s', d, m);
    RowSlots(k, s0, s, s', d, m);
    RowExtends(k, s0, s, s', d, Lo(k, m), Hi(k, m), Lo(k, m), Kmap(k)[m].perm, m);
  }

  lemma RowReads(k: Kernel, s0: Phys, s: Phys, s': Phys, d: nat, m: nat)
    requires Preparing(k, s0, s, d, m) && m < 4
    requires Mapping(k, s, s', d, Lo(k, m), Hi(k, m), Lo(k, m), Kmap(k)[m].perm, None)
    ensures forall v :: 0 <= v < VPAGES ==> Pte(s', d, v) == if Covered(k, m + 1, v) then KernelEntry(k, v) else 0
  {
    hide Chain, PageOk, Pte, Entry, Present, Missing, About, Kept, Kmap;
    Rows(k, m);
    forall v | 0 <= v < VPAGES
      ensures Pte(s', d, v) == if Covered(k, m + 1, v) then KernelEntry(k, v) else 0
    {
      assert Covered(k, m + 1, v) <==> Covered(k, m, v) || Lo(k, m) <= v < Hi(k, m);
      assert Pte(s, d, v) == if Covered(k, m, v) then KernelEntry(k, v) else 0;
    }
  }

  lemma RowSlots(k: Kernel, s0: Phys, s: Phys, s': Phys, d: nat, m: nat)
    requires Preparing(k, s0, s, d, m) && m < 4
    requires Mapping(k, s, s', d, Lo(k, m), Hi(k, m), Lo(k, m), Kmap(k)[m].perm, None)
    ensures forall i :: 0 <= i < ENTRIES ==> (Present(s'.pages[d][i]) <==> Slots(k, m + 1, i))
  {
    hide Chain, PageOk, Pte, Entry, Present, Missing, About, Kept, Kmap;
    Rows(k, m);
    forall i | 0 <= i < ENTRIES
      ensures Present(s'.pages[d][i]) <==> Slots(k, m + 1, i)
    {
      assert Present(s.pages[d][i]) <==> Slots(k, m, i);
      assert Slots(k, m + 1, i) <==> Slots(k, m, i) || Lo(k, m) / ENTRIES <= i < (Hi(k, m) - 1) / ENTRIES + 1;
    }
  }

  /** Part of a row or all of it: what was owned before is untouched. */
  lemma RowExtends(k: Kernel, s0: Phys, s: Phys, s': Phys, d: nat, v0: nat, v: nat, base: nat, perm: nat, m: nat)
    requires Preparing(k, s0, s, d, m) && Sound(k, s0) && Mapping(k, s, s', d, v0, v, base, perm, None)
    ensures Extends(s0, s') && forall p :: p in s'.owner ==> p in s0.owner || About(s'.owner[p], p, d)
  {
    hide Chain, PageOk, Pte, Entry, Present, Missing, Reached, Covered, Slots, Tables, KernelEntry;
    forall p | p in s0.owner
      ensures p in s'.owner && s'.owner[p] == s0.owner[p] && (p < NPAGES ==> s'.pages[p] == s0.pages[p])
    {
      NotAbout(k, s0, d, p);
      assert Kept(s, s', d, p, v0, v, None);
    }
    forall p | p in s'.owner
      ensures p in s0.owner || About(s'.owner[p], p, d)
    {
      if p in s.owner {
        assert Kept(s, s', d, p, v0, v, None);
      }
    }
  }

  /** The kernel's part, and nothing else, is mapped by `d`, which is new. */
  ghost predicate KernelOnly(k: Kernel, s0: Phys, s: Phys, d: nat) {
    && IsDir(k, s, d) && Extends(s0, s) && d !in s0.owner && Present(s.pages[d][0])
    && (forall v :: 0 <= v < VPAGES ==> Pte(s, d, v) == if KernelPage(v) then KernelEntry(k, v) else 0)
    && |s0.free| == |s.free| + KVM_PAGES
    && (forall p :: p in s.owner ==> p in s0.owner || About(s.owner[p], p, d))
  }

  lemma Prepared(k: Kernel, s0: Phys, s: Phys, d: nat)
    requires Preparing(k, s0, s, d, 4)
    ensures KernelOnly(k, s0, s, d)
  {
    hide Chain, PageOk, Pte, Entry, Present, About, KernelEntry;
    assert forall v :: 0 <= v < VPAGES ==> (Covered(k, 4, v) <==> KernelPage(v));
  }

  /** The kernel's part in plain numbers: exactly the pages from 0xA0000 to 0x1000000 and from
      0xFE000000 on are mapped, each to itself; none for the user; the text read-only. */
  ghost predicate KernelPart(k: Kernel, s: Phys, d: nat) {
    |s.pages| == 4096 && d < 4096
    && forall v :: 160 <= v < 0x10_0000 ==> KernelBits(k, v, Pte(s, d, v))
  }

  predicate KernelBits(k: Kernel, v: nat, w: word) {
    if v < 4096 || v >= 0xF_E000 then
      w / 4096 == v && w % 8 == (if 256 <= v < k.data then 1 else 3)
    else w == 0
  }

  lemma KernelEntryBits(k: Kernel, v: nat)
    requires 160 <= v < 0x10_0000
    ensures KernelBits(k, v, if KernelPage(v) then KernelEntry(k, v) else 0)
  {
  }

  lemma KernelPartIs(k: Kernel, s: Phys, d: nat, n: nat)
    requires |s.pages| == NPAGES && d < NPAGES && n <= UPAGES
    requires forall v :: n <= v < VPAGES ==> Pte(s, d, v) == if KernelPage(v) then KernelEntry(k, v) else 0
    ensures KernelPart(k, s, d)
  {
    hide Pte, KernelBits, KernelEntry, KernelPage;
    forall v | 160 <= v < 0x10_0000
      ensures KernelBits(k, v, Pte(s, d, v))
    {
      KernelEntryBits(k, v);
    }
  }
}
