/** The page allocator and the page-table code of the kernel, over physical memory. */
module VirtualMemory {
  import opened Options
  import opened Words
  import opened Paging
  import opened AddressSpace
  import opened Mappings

  /** What `mappages` comes to: 0, -1, or the "remap" panic. */
  datatype MapResult = Done | NoMemory | Remap

  function RoundUp(a: nat): nat { (a + PGSIZE - 1) / PGSIZE * PGSIZE }

  function PageCount(sz: nat): nat { (sz + PGSIZE - 1) / PGSIZE }

  /** The page of the last byte of `[la, la + size)`, in 32-bit arithmetic. */
  function Last(la: word, size: word): (v: nat)
    ensures v < VPAGES
  {
    (la + size - 1) % WORD_LIMIT / PGSIZE
  }

  class Memory {
    const k: Kernel
    var pages: seq<Page>
    var freelist: word
    ghost var free: seq<nat>
    ghost var owner: map<nat, Owner>

    ghost function Now(): Phys
      reads this
    {
      Phys(pages, freelist, free, owner)
    }

    // ---------- the page allocator ----------

    /** Put a page on the free list, filled with junk; anything but a page of the pool panics. */
    method Kfree(v: word) returns (ok: bool)
      requires |pages| == NPAGES && k.Ok()
      modifies this
      ensures ok == (v % PGSIZE == 0 && k.Pool(v / PGSIZE))
      ensures Now() == if ok then Pushed(old(Now()), v / PGSIZE) else old(Now())
      ensures old(Sound(k, Now())) && Owned(old(owner), v / PGSIZE, Other) && v % PGSIZE == 0 ==> ok && Sound(k, Now())
    {
      hide Chain, PageOk;
      if Sound(k, Now()) && Owned(owner, v / PGSIZE, Other) {
        PushKeeps(k, Now(), v / PGSIZE);
      }
      if v % PGSIZE != 0 || v < k.end * PGSIZE || v >= NPAGES * PGSIZE {
        return false;
      }
      var p := v / PGSIZE;
      var r := Filled(JUNK);
      r := r[0 := freelist];
      pages := pages[p := r];
      freelist := v;
      free, owner := [p] + free, owner - {p};
      return true;
    }

    /** The head of the free list; 0 when it is empty. */
    method Kalloc() returns (r: word)
      requires Sound(k, Now())
      modifies this
      ensures Sound(k, Now()) && (r == 0 <==> old(free) == [])
      ensures r == 0 ==> Now() == old(Now())
      ensures r != 0 ==> k.Pool(old(free)[0]) && r == Address(old(free)[0]) && Now() == Popped(old(Now()))
    {
      hide PageOk;
      r := freelist;
      if r != 0 {
        PopKeeps(k, Now());
        freelist := pages[r / PGSIZE][0];
        owner := owner[free[0] := Other];
        free := free[1..];
        assert Now() == Popped(old(Now()));
      }
    }

    /** At boot every page after the kernel goes on the list. */
    constructor (k: Kernel, pages: seq<Page>)
      requires k.Ok() && |pages| == NPAGES
      ensures this.k == k && Sound(k, Now()) && owner == map[]
    {
      hide PageOk;
      this.k, this.pages, freelist, free, owner := k, pages, 0, [], map[];
      new;
      var p := k.end;
      while p + 1 <= NPAGES
        invariant k.end <= p <= NPAGES && this.k == k && |this.pages| == NPAGES && owner == map[]
        invariant Chain(k, this.pages, freelist, free)
        invariant forall q :: q in free <==> k.end <= q < p
      {
        PushChain(k, Now(), p);
        var ok := Kfree(p * PGSIZE);
        p := p + 1;
      }
    }

    // ---------- page tables ----------

    /** The entry for `va`: its page table and the index in it, making the table if asked to. */
    method Walkpgdir(pgdir: nat, va: word, create: bool) returns (r: Option<(nat, nat)>)
      requires IsDir(k, Now(), pgdir)
      modifies this
      ensures var v := va / PGSIZE;
        if r.Some? then
          && Ready(k, old(Now()), Now(), pgdir, v / ENTRIES)
          && r.value == (PageOf(pages[pgdir][v / ENTRIES]), v % ENTRIES)
          && (!create || Present(old(pages)[pgdir][v / ENTRIES]) ==> Now() == old(Now()))
        else
          !Present(old(pages)[pgdir][v / ENTRIES]) && (create ==> old(free) == []) && Now() == old(Now())
      ensures !create && !Present(old(pages)[pgdir][va / PGSIZE / ENTRIES]) ==> r.None?
    {
      hide Chain, PageOk, Pte, Entry, Ready;
      var i := va / PGSIZE / ENTRIES;
      var pde := pages[pgdir][i];
      if Present(pde) {
        AlreadyReady(k, Now(), pgdir, i);
        return Some((PageOf(pde), va / PGSIZE % ENTRIES));
      }
      if !create {
        return None;
      }
      var pgtab := Kalloc();
      if pgtab == 0 {
        return None;
      }
      ghost var s := old(Now());
      GrownReady(k, s, pgdir, i);
      var t := pgtab / PGSIZE;
      pages := pages[t := Filled(0)];
      pages := pages[pgdir := pages[pgdir][i := pgtab + PTE_P + PTE_W + PTE_U]];
      owner := owner[t := Table(pgdir, i)];
      TableEntry(t);
      assert Now() == Grown(s, pgdir, i);
      return Some((t, va / PGSIZE % ENTRIES));
    }

    /** Map the pages of `[la, la + size)` to physical memory from `pa` on.  It runs out of
        memory only for want of page tables. */
    method Mappages(pgdir: nat, la: word, size: word, pa: word, perm: nat, ghost user: Option<nat>)
      returns (r: MapResult, ghost upto: nat)
      requires IsDir(k, Now(), pgdir) && size > 0 && pa % PGSIZE == 0 && Last(la, size) >= la / PGSIZE
      requires MapOk(k, Now(), la / PGSIZE, Last(la, size) + 1 - la / PGSIZE, pa / PGSIZE, perm, user)
      modifies this
      ensures la / PGSIZE <= upto <= Last(la, size) + 1
      ensures Mapping(k, old(Now()), Now(), pgdir, la / PGSIZE, upto, pa / PGSIZE, perm, user)
      ensures r.Done? ==> upto == Last(la, size) + 1 && forall v :: la / PGSIZE <= v < upto ==> Pte(old(Now()), pgdir, v) == 0
      ensures r.Remap? ==> upto <= Last(la, size) && Pte(old(Now()), pgdir, upto) != 0
      ensures Reached(la / PGSIZE, Last(la, size) + 1) <= ENTRIES
      ensures r.NoMemory? ==> free == []
      ensures r.NoMemory? ==>
                |old(free)| < Missing(old(pages)[pgdir], la / PGSIZE / ENTRIES, Reached(la / PGSIZE, Last(la, size) + 1))
      ensures var v := la / PGSIZE;
        v == Last(la, size) && Present(old(pages)[pgdir][v / ENTRIES]) && Pte(old(Now()), pgdir, v) == 0 ==>
          r.Done? && PageOf(old(pages)[pgdir][v / ENTRIES]) < NPAGES
          && Now() == Stored(old(Now()), pgdir, v, Entry(pa / PGSIZE, perm), user)
    {
      hide Sound, Pte, Entry, Mapping, MapOk, Reached, Missing, Present, PageOf, Stored, Last;
      ghost var s, v0, n := Now(), la / PGSIZE, Last(la, size) + 1 - la / PGSIZE;
      var a := la / PGSIZE * PGSIZE;
      var last := Last(la, size) * PGSIZE;
      var to := pa;
      DirShape(k, s, pgdir);
      MapOkMeans(k, s, v0, n, pa / PGSIZE, perm, user);
      MappingNothing(k, s, pgdir, v0, pa / PGSIZE, perm, user);
      upto := v0;
      TablesBound(s.pages[pgdir], v0, v0, v0 + n);
      while true
        invariant v0 <= upto < v0 + n && a == upto * PGSIZE && to == (pa / PGSIZE + upto - v0) * PGSIZE
        invariant Mapping(k, s, Now(), pgdir, v0, upto, pa / PGSIZE, perm, user)
        invariant forall v :: v0 <= v < upto ==> Pte(s, pgdir, v) == 0
        invariant upto == v0 ==> Now() == s
        decreases v0 + n - upto
      {
        r := MapPage(pgdir, a, to, perm, s, v0, n, upto, pa / PGSIZE, user);
        if r != Done {
          return;
        }
        upto := upto + 1;
        if a == last {
          break;
        }
        a, to := a + PGSIZE, to + PGSIZE;
      }
    }

    /** One round of the loop of `mappages`, at page `v`. */
    method MapPage(pgdir: nat, a: word, to: nat, perm: nat, ghost s: Phys, ghost v0: nat, ghost n: nat, ghost v: nat, ghost base: nat,
                   ghost user: Option<nat>)
      returns (r: MapResult)
      requires v0 <= v < v0 + n <= VPAGES && base + n <= VPAGES && perm < 8 && perm % 2 == 0
      requires a == v * PGSIZE && to == (base + v - v0) * PGSIZE && IsDir(k, s, pgdir)
      requires Mapping(k, s, Now(), pgdir, v0, v, base, perm, user) && MapOk(k, s, v0, n, base, perm, user)
      modifies this
      ensures r.Done? ==> Mapping(k, s, Now(), pgdir, v0, v + 1, base, perm, user) && Pte(s, pgdir, v) == 0
      ensures !r.Done? ==> Mapping(k, s, Now(), pgdir, v0, v, base, perm, user)
      ensures r.Remap? ==> Pte(s, pgdir, v) != 0
      ensures Reached(v0, v0 + n) <= ENTRIES
      ensures r.NoMemory? ==> free == []
      ensures r.NoMemory? ==> |s.free| < Missing(s.pages[pgdir], v0 / ENTRIES, Reached(v0, v0 + n))
      ensures IsDir(k, old(Now()), pgdir)
      ensures Present(old(pages)[pgdir][v / ENTRIES]) && Pte(s, pgdir, v) == 0 ==>
                r.Done? && PageOf(old(pages)[pgdir][v / ENTRIES]) < NPAGES
                && Now() == Stored(old(Now()), pgdir, v, Entry(base + v - v0, perm), user)
    {
      hide Sound, Pte, Entry, Ready, Mapping, MapOk, Reached, Missing, Present, PageOf, Stored, OwnerAfter;
      ghost var s1 := Now();
      MappingMeans(k, s, s1, pgdir, v0, v, base, perm, user);
      DirShape(k, s, pgdir);
      DirShape(k, s1, pgdir);
      TablesBound(s.pages[pgdir], v0, v, v0 + n);
      var pte := Walkpgdir(pgdir, a, true);
      if pte.None? {
        NoTable(s.pages[pgdir], s1.pages[pgdir], v0, v, n);
        return NoMemory;
      }
      ReadyMeans(k, s1, Now(), pgdir, v);
      DirShape(k, Now(), pgdir);
      var t, j := pte.value.0, pte.value.1;
      if Present(pages[t][j]) {
        PresentEntry(pages[t][j]);
        return Remap;
      }
      ghost var s2 := Now();
      MappingStep(k, s, s1, s2, pgdir, v0, n, v, base, perm, user);
      EntryValue(to, base + v - v0, perm);
      pages := pages[t := pages[t][j := to + perm + PTE_P]];
      owner := OwnerAfter(owner, pgdir, v, user);
      StoredIs(s2, pgdir, v, Entry(base + v - v0, perm), user);
      return Done;
    }

    /** A new directory with the kernel's mappings.  It takes thirteen pages, and fails
        exactly when there are fewer; it has then taken all there were and gives none back. */
    method Setupkvm() returns (r: Option<nat>)
      requires Sound(k, Now())
      modifies this
      ensures Sound(k, Now()) && Extends(old(Now()), Now())
      ensures r.Some? <==> |old(free)| >= KVM_PAGES
      ensures r.Some? ==> KernelOnly(k, old(Now()), Now(), r.value)
      ensures r.Some? ==> KernelPart(k, Now(), r.value) && Guarded(k, Now(), r.value)
      ensures r.None? ==> free == [] && (Restored(old(Now()), Now()) <==> old(free) == [])
    {
      hide KernelPart, Guarded, Chain, PageOk, Preparing, KernelOnly, Extends, Restored, Mapping, MapOk, Missing, Reached, Kmap, Lo, Hi, Tables, Pte, Entry,
           Present, PageOf, KernelPage, KernelPerm;
      ghost var s0 := Now();
      SameAsBefore(s0);
      var pgdir := Kalloc();
      if pgdir == 0 {
        return None;
      }
      FreshDir(k, s0);
      var d := pgdir / PGSIZE;
      TableEntry(d);
      pages := pages[d := Filled(0)];
      owner := owner[d := Dir];
      assert Now() == Popped(s0).(pages := s0.pages[d := Filled(0)], owner := s0.owner[d := Dir]);
      var m := 0;
      while m < |Kmap(k)|
        invariant m <= 4 && Preparing(k, s0, Now(), d, m)
      {
        var row := Kmap(k)[m];
        ghost var s := Now();
        PreparingMeans(k, s0, s, d, m);
        Rows(k, m);
        RowMaps(k, s0, s, d, m);
        RowTables(k, s0, s, d, m);
        var e;
        ghost var upto;
        e, upto := Mappages(d, row.p, (row.e - row.p) % WORD_LIMIT, row.p, row.perm, None);
        MappingMeans0(k, s, Now(), d, Lo(k, m), upto, Lo(k, m), row.perm);
        RowExtends(k, s0, s, Now(), d, Lo(k, m), upto, Lo(k, m), row.perm, m);
        if e.NoMemory? {
          LeftTaken(k, s0, s, Now(), d, m);
          return None;
        }
        RowDone(k, s0, s, Now(), d, m);
        m := m + 1;
      }
      PreparingMeans(k, s0, Now(), d, 4);
      Prepared(k, s0, Now(), d);
      KernelTotal(k, s0, Now(), d);
      KernelOnlyPart(k, s0, Now(), d);
      return Some(d);
    }

    // ---------- user memory ----------

    /** Unmap and free the user pages from `newsz` up to `oldsz`, wherever there are any. */
    method Deallocuvm(pgdir: nat, oldsz: word, newsz: word) returns (r: word)
      requires IsDir(k, Now(), pgdir) && oldsz <= UPAGES * PGSIZE
      modifies this
      ensures r == (if newsz >= oldsz then oldsz else newsz)
      ensures newsz >= oldsz ==> Now() == old(Now())
      ensures newsz < oldsz ==> Shrunk(k, old(Now()), Now(), pgdir, PageCount(newsz), PageCount(oldsz))
      ensures ApartFrom(old(Now()), Now(), pgdir)
    {
      hide Chain, PageOk, ApartFrom, Pte, Entry, Shrunk, Ready, Present, PageOf;
      ghost var s := Now();
      RestoredApart(s, s, pgdir);
      if newsz >= oldsz {
        return oldsz;
      }
      var a := RoundUp(newsz);
      CountBound(newsz, oldsz);
      ShrunkNothing(k, s, pgdir, PageCount(newsz));
      while a < oldsz
        invariant a % PGSIZE == 0 && PageCount(newsz) <= a / PGSIZE <= PageCount(oldsz)
        invariant Shrunk(k, s, Now(), pgdir, PageCount(newsz), a / PGSIZE)
        decreases PageCount(oldsz) - a / PGSIZE
      {
        ghost var s1, v := Now(), a / PGSIZE;
        CountInside(a, oldsz);
        ShrunkMeans(k, s, s1, pgdir, PageCount(newsz), v);
        NextPage(a);
        var pte := Walkpgdir(pgdir, a, false);
        WalkReads(k, s1, pgdir, v);
        if pte.Some? && Present(pages[pte.value.0][pte.value.1]) {
          var t, j := pte.value.0, pte.value.1;
          ShrunkOne(k, s, s1, pgdir, PageCount(newsz), v);
          UserAddress(k, s1, pgdir, v);
          var pa := PageOf(pages[t][j]) * PGSIZE;
          var ok := Kfree(pa);
          pages := pages[t := pages[t][j := 0]];
          assert Now() == Unmapped(s1, pgdir, v);
        } else {
          ShrunkSkip(k, s, s1, pgdir, PageCount(newsz), v);
        }
        a := a + PGSIZE;
      }
      CountExact(a, oldsz);
      ShrunkApart(k, s, Now(), pgdir, PageCount(newsz), PageCount(oldsz));
      return newsz;
    }

    /** Grow user memory from `oldsz` to `newsz`, with zeroed pages.  It succeeds exactly
        when there are enough free pages, page tables needing none; otherwise everything
        is as it was before the call. */
    method Allocuvm(pgdir: nat, oldsz: word, newsz: word) returns (r: word)
      requires IsDir(k, Now(), pgdir) && Present(pages[pgdir][0])
      requires newsz <= UPAGES * PGSIZE ==>
                 forall v :: PageCount(oldsz) <= v < PageCount(newsz) ==> Pte(Now(), pgdir, v) == 0
      modifies this
      ensures newsz > UPAGES * PGSIZE ==> r == 0 && Now() == old(Now())
      ensures newsz <= UPAGES * PGSIZE && newsz < oldsz ==> r == oldsz && Now() == old(Now())
      ensures oldsz <= newsz <= UPAGES * PGSIZE ==>
                var n := PageCount(newsz) - PageCount(oldsz);
                if n <= |old(free)| then
                  r == newsz && GrewBy(k, old(Now()), Now(), pgdir, PageCount(oldsz), seq(n, _ => Filled(0)))
                else
                  r == 0 && Sound(k, Now()) && Restored(old(Now()), Now())
                  && forall v :: 0 <= v < VPAGES ==> Pte(Now(), pgdir, v) == Pte(old(Now()), pgdir, v)
      ensures ApartFrom(old(Now()), Now(), pgdir) && Guarded(k, Now(), pgdir)
    {
      hide Guarded, Sound, ApartFrom, Pte, Entry, Shrunk, GrewBy, Restored, Present, PageOf, Mapping, MapOk, Stored, WithPage, Missing, Reached,
           PageCount, RoundUp;
      ghost var s := Now();
      DirShape(k, s, pgdir);
      DirGuarded(k, s, pgdir);
      RestoredApart(s, s, pgdir);
      if newsz > UPAGES * PGSIZE {
        return 0;
      }
      if newsz < oldsz {
        return oldsz;
      }
      ghost var lo, hi := PageCount(oldsz), PageCount(newsz);
      var a := RoundUp(oldsz);
      CountBound(oldsz, newsz);
      GrewNothing(k, s, pgdir, lo);
      ghost var c: seq<Page> := [];
      while a < newsz
        invariant a % PGSIZE == 0 && lo <= a / PGSIZE <= hi && |c| == a / PGSIZE - lo
        invariant forall i :: 0 <= i < |c| ==> c[i] == Filled(0)
        invariant GrewBy(k, s, Now(), pgdir, lo, c)
        decreases hi - a / PGSIZE
      {
        ghost var s1, v := Now(), a / PGSIZE;
        CountInside(a, newsz);
        GrewMeans(k, s, s1, pgdir, lo, c, v);
        NextPage(a);
        DirShape(k, s1, pgdir);
        var mem := Kalloc();
        if mem == 0 {
          var back := Deallocuvm(pgdir, newsz, oldsz);
          Rollback(k, s, s1, Now(), pgdir, lo, hi, c);
          ShrunkMeans(k, s1, Now(), pgdir, lo, hi);
          DirShape(k, Now(), pgdir);
          RestoredApart(s, Now(), pgdir);
          DirGuarded(k, Now(), pgdir);
          return 0;
        }
        GrewOneMore(k, s, s1, pgdir, lo, c, Filled(0));
        ghost var u := mem / PGSIZE;
        TableEntry(u);
        pages := pages[mem / PGSIZE := Filled(0)];
        PageTaken(k, s1, Now(), pgdir, v, Filled(0));
        var e;
        ghost var upto;
        e, upto := Mappages(pgdir, a, PGSIZE, mem, PTE_W + PTE_U, Some(u));
        c := c + [Filled(0)];
        a := a + PGSIZE;
      }
      CountExact(a, newsz);
      assert c == seq(hi - lo, _ => Filled(0));
      GrewTotal(k, s, Now(), pgdir, lo, c);
      GrewApart(k, s, Now(), pgdir, lo, c);
      DirGuarded(k, Now(), pgdir);
      return newsz;
    }

    /** Free a user space: its user pages, its page tables and its directory, and nothing else. */
    method Freevm(pgdir: nat)
      requires IsDir(k, Now(), pgdir)
      modifies this
      ensures TornDown(k, old(Now()), Now(), pgdir) && ApartFrom(old(Now()), Now(), pgdir)
    {
      hide ApartFrom, Chain, PageOk, Pte, Entry, Shrunk, Present, PageOf, Dying, TornDown;
      ghost var s := Now();
      assert PageCount(0) == 0 && PageCount(UPAGES * PGSIZE) == UPAGES;
      var sz := Deallocuvm(pgdir, UPAGES * PGSIZE, 0);
      ghost var s1 := Now();
      NoUsers(k, s, s1, pgdir);
      ShrunkMeans(k, s, s1, pgdir, 0, UPAGES);
      DyingStart(k, s1, pgdir);
      var i := 0;
      while i < ENTRIES
        invariant i <= ENTRIES && Dying(k, s1, Now(), pgdir, i)
      {
        DyingMeans(k, s1, Now(), pgdir, i);
        if Present(pages[pgdir][i]) {
          DyingOne(k, s1, Now(), pgdir, i);
          FrameAddress(k, PageOf(pages[pgdir][i]));
          var ok := Kfree(PageOf(pages[pgdir][i]) * PGSIZE);
        } else {
          DyingSkip(k, s1, Now(), pgdir, i);
        }
        i := i + 1;
      }
      DyingMeans(k, s1, Now(), pgdir, ENTRIES);
      DyingEnd(k, s1, Now(), pgdir);
      FrameAddress(k, pgdir);
      var ok := Kfree(pgdir * PGSIZE);
      TornDownAll(k, s, s1, Now(), pgdir);
      TornDownApart(k, s, Now(), pgdir);
    }

    /** One round of the loop of `copyuvm`: the page at `i` is copied to a new one, mapped at the
        same place by `d`.  The page table is there, so mapping it cannot fail. */
    method CopyPage(pgdir: nat, d: nat, i: nat, ghost s0: Phys, ghost s1: Phys, ghost c: seq<Page>)
      returns (ok: bool, ghost x: Page)
      requires IsDir(k, s0, pgdir) && KernelOnly(k, s0, s1, d) && GrewBy(k, s1, Now(), d, 0, c)
      requires i % PGSIZE == 0 && i / PGSIZE == |c| < UPAGES && i < WORD_LIMIT && Pte(s0, pgdir, |c|) != 0
      modifies this
      ensures ok ==> GrewBy(k, s1, Now(), d, 0, c + [x]) && Source(k, s0, pgdir, |c|, x)
      ensures !ok ==> Now() == old(Now()) && free == []
    {
      hide Sound, Pte, Entry, KernelOnly, GrewBy, Mapping, MapOk, Stored, WithPage, Missing, Reached, Present, PageOf, Source, Ready;
      ghost var s, v := Now(), i / PGSIZE;
      KernelMeans(k, s0, s1, d);
      GrewMeans(k, s1, s, d, 0, c, v);
      SourceThere(k, s0, s1, s, pgdir, d, c, v);
      DirShape(k, s, pgdir);
      var pte := Walkpgdir(pgdir, i, false);
      WalkReads(k, s, pgdir, v);
      var pa := PageOf(pages[pte.value.0][pte.value.1]);
      x := pages[pa];
      var mem := Kalloc();
      if mem == 0 {
        return false, x;
      }
      GrewOneMore(k, s1, s, d, 0, c, x);
      TableEntry(mem / PGSIZE);
      pages := pages[mem / PGSIZE := pages[pa]];
      PageTaken(k, s, Now(), d, v, x);
      var e;
      ghost var upto;
      e, upto := Mappages(d, i, PGSIZE, mem, PTE_W + PTE_U, Some(mem / PGSIZE));
      if e != Done {
        assert false;
      }
      return true, x;
    }

    /** A copy of the first `sz` bytes of a user space, every page of which is mapped.  It is made
        exactly when there are pages for the kernel part and for the copies; a failure puts
        everything back exactly when the kernel part fitted, or not even a first page was there. */
    method Copyuvm(pgdir: nat, sz: word) returns (r: Option<nat>)
      requires IsDir(k, Now(), pgdir) && sz <= UPAGES * PGSIZE
      requires forall v :: 0 <= v < PageCount(sz) ==> Pte(Now(), pgdir, v) != 0
      modifies this
      ensures Sound(k, Now()) && Extends(old(Now()), Now())
      ensures r.Some? <==> |old(free)| >= KVM_PAGES + PageCount(sz)
      ensures r.Some? ==> Copied(k, old(Now()), Now(), pgdir, r.value, PageCount(sz))
      ensures r.Some? ==> KernelPart(k, Now(), r.value) && Guarded(k, Now(), r.value)
      ensures r.None? ==> (Restored(old(Now()), Now()) <==> |old(free)| >= KVM_PAGES || old(free) == [])
    {
      hide KernelPart, Guarded, Chain, PageOk, Pte, Entry, KernelOnly, Extends, Restored, GrewBy, TornDown, Mapping, MapOk, Stored, WithPage, Missing,
           Reached, Present, PageOf, Copied, PageCount;
      ghost var s0, n := Now(), PageCount(sz);
      CountBound(0, sz);
      var kvm := Setupkvm();
      if kvm.None? {
        return None;
      }
      var d := kvm.value;
      ghost var s1 := Now();
      KernelMeans(k, s0, s1, d);
      GrewNothing(k, s1, d, 0);
      ghost var c: seq<Page> := [];
      var i := 0;
      assert PageCount(0) == 0 by {
        CountZero();
      }
      while i < sz
        invariant i % PGSIZE == 0 && i / PGSIZE <= n && |c| == i / PGSIZE
        invariant GrewBy(k, s1, Now(), d, 0, c) && Taken(k, s0, pgdir, c)
        decreases n - i / PGSIZE
      {
        ghost var s := Now();
        CountInside(i, sz);
        NextPage(i);
        var ok;
        ghost var x;
        ok, x := CopyPage(pgdir, d, i, s0, s1, c);
        if !ok {
          GrewTotal(k, s1, s, d, 0, c);
          Freevm(d);
          CopyUndone(k, s0, s1, s, Now(), d, c);
          return None;
        }
        TakenOneMore(k, s0, pgdir, c, x);
        c := c + [x];
        i := i + PGSIZE;
      }
      CountExact(i, sz);
      GrewTotal(k, s1, Now(), d, 0, c);
      CopyDone(k, s0, s1, Now(), pgdir, d, c);
      return Some(d);
    }
  }

  lemma TableEntry(t: nat)
    requires t < NPAGES
    ensures Address(t) / PGSIZE == t && Address(t) + PTE_P + PTE_W + PTE_U == UserEntry(t) && PageOf(UserEntry(t)) == t
  {
  }

  lemma MapOkMeans(k: Kernel, s: Phys, v0: nat, n: nat, base: nat, perm: nat, user: Option<nat>)
    requires MapOk(k, s, v0, n, base, perm, user)
    ensures v0 + n <= VPAGES && base + n <= VPAGES && perm < 8 && perm % 2 == 0
  {
  }

  lemma MappingMeans(k: Kernel, s: Phys, s1: Phys, d: nat, v0: nat, v: nat, base: nat, perm: nat, user: Option<nat>)
    requires Mapping(k, s, s1, d, v0, v, base, perm, user) && v < VPAGES
    ensures IsDir(k, s1, d) && Pte(s1, d, v) == Pte(s, d, v) && Reached(v0, v) <= ENTRIES
    ensures |s.free| == |s1.free| + Missing(s.pages[d], v0 / ENTRIES, Reached(v0, v))
    ensures forall m :: 0 <= m < ENTRIES ==>
              (Present(s1.pages[d][m]) <==> Present(s.pages[d][m]) || v0 / ENTRIES <= m < Reached(v0, v))
  {
    hide Chain, PageOk, Pte, Entry;
  }

  /** In a ready directory the entry read by the walk is the one for the page; it is 0 or present. */
  lemma ReadyMeans(k: Kernel, s: Phys, s': Phys, d: nat, v: nat)
    requires v < VPAGES && Ready(k, s, s', d, v / ENTRIES)
    ensures IsDir(k, s', d) && PageOf(s'.pages[d][v / ENTRIES]) < NPAGES
    ensures Pte(s', d, v) == Pte(s, d, v) == s'.pages[PageOf(s'.pages[d][v / ENTRIES])][v % ENTRIES]
    ensures !Present(Pte(s', d, v)) ==> Pte(s', d, v) == 0
    ensures Pte(s, d, v) != 0 ==> Present(s.pages[d][v / ENTRIES])
  {
    hide Chain, PageOk, Entry;
    TableThere(k, s', d, v / ENTRIES);
    PteMeans(k, s', d, v);
    if Pte(s', d, v) != 0 {
      if v < UPAGES {
        EntryFields(PageOf(Pte(s', d, v)), PTE_W + PTE_U);
      } else {
        EntryFields(v, KernelPerm(k, v));
      }
    }
  }

  lemma PresentEntry(w: word)
    requires Present(w)
    ensures w != 0
  {
  }

  lemma TablesBound(dir: Page, v0: nat, v: nat, hi: nat)
    requires v0 <= v < hi <= VPAGES
    ensures Reached(v0, v + 1) == v / ENTRIES + 1 <= Reached(v0, hi) <= ENTRIES && v / ENTRIES < ENTRIES
    ensures Missing(dir, v0 / ENTRIES, Reached(v0, v + 1)) <= Missing(dir, v0 / ENTRIES, Reached(v0, hi))
  {
    hide Missing;
    MissingMonotone(dir, v0 / ENTRIES, Reached(v0, v + 1), Reached(v0, hi));
  }

  /** With the free list empty and the next table missing, more were needed than there were. */
  lemma NoTable(dir: Page, dir1: Page, v0: nat, v: nat, n: nat)
    requires v0 <= v < v0 + n <= VPAGES && !Present(dir1[v / ENTRIES])
    requires forall m :: 0 <= m < ENTRIES ==> (Present(dir1[m]) <==> Present(dir[m]) || v0 / ENTRIES <= m < Reached(v0, v))
    ensures Reached(v0, v) <= ENTRIES && Reached(v0, v0 + n) <= ENTRIES
    ensures Missing(dir, v0 / ENTRIES, Reached(v0, v)) < Missing(dir, v0 / ENTRIES, Reached(v0, v0 + n))
  {
    hide Missing, Present, Reached;
    TableCount(dir, dir1, v0, v);
    TablesBound(dir, v0, v, v0 + n);
  }

  lemma EntryValue(to: nat, p: nat, perm: nat)
    requires to == p * PGSIZE && p < VPAGES && perm < 8 && perm % 2 == 0
    ensures to + perm + PTE_P == Entry(p, perm)
  {
  }

  lemma StoredIs(s: Phys, d: nat, v: nat, w: word, user: Option<nat>)
    requires |s.pages| == NPAGES && d < NPAGES && v < VPAGES && PageOf(s.pages[d][v / ENTRIES]) < NPAGES
    ensures var t := PageOf(s.pages[d][v / ENTRIES]);
      Stored(s, d, v, w, user) == Phys(s.pages[t := s.pages[t][v % ENTRIES := w]], s.head, s.free, OwnerAfter(s.owner, d, v, user))
  {
  }

  lemma SameAsBefore(s: Phys)
    requires |s.pages| == NPAGES
    ensures Extends(s, s) && Restored(s, s)
  {
  }

  /** A directory that was taken and not given back is owned now, and was not before. */
  lemma LeftTaken(k: Kernel, s0: Phys, s: Phys, s': Phys, d: nat, m: nat)
    requires Preparing(k, s0, s, d, m) && IsDir(k, s', d)
    ensures !Restored(s0, s')
  {
    hide Chain, PageOk, Pte;
  }

  lemma PreparingMeans(k: Kernel, s0: Phys, s: Phys, d: nat, m: nat)
    requires Preparing(k, s0, s, d, m)
    ensures IsDir(k, s, d) && Extends(s0, s) && |s0.free| == |s.free| + 1 + Tables(k, m)
  {
  }

  lemma MappingMeans0(k: Kernel, s: Phys, s1: Phys, d: nat, v0: nat, v: nat, base: nat, perm: nat)
    requires Mapping(k, s, s1, d, v0, v, base, perm, None)
    ensures IsDir(k, s1, d)
  {
  }

  lemma KernelOnlyPart(k: Kernel, s0: Phys, s: Phys, d: nat)
    requires KernelOnly(k, s0, s, d)
    ensures KernelPart(k, s, d) && Guarded(k, s, d)
  {
    hide Chain, PageOk, Pte, KernelEntry, KernelPage, KernelPart, Guarded;
    KernelPartIs(k, s, d, 0);
    DirGuarded(k, s, d);
  }

  lemma KernelTotal(k: Kernel, s0: Phys, s: Phys, d: nat)
    requires KernelOnly(k, s0, s, d)
    ensures |s0.free| >= KVM_PAGES
  {
  }

  // ---------- sizes and pages ----------

  lemma CountBound(a: word, b: word)
    requires a <= b <= UPAGES * PGSIZE
    ensures PageCount(a) <= PageCount(b) <= UPAGES && RoundUp(a) % PGSIZE == 0 && RoundUp(a) / PGSIZE == PageCount(a)
  {
  }

  /** The loop is at a page that holds a byte below the size. */
  lemma CountInside(a: nat, sz: nat)
    requires a % PGSIZE == 0 && a < sz <= UPAGES * PGSIZE
    ensures a / PGSIZE < PageCount(sz) <= UPAGES && a < WORD_LIMIT
  {
  }

  lemma CountExact(a: nat, sz: nat)
    requires a % PGSIZE == 0 && sz <= a && a / PGSIZE <= PageCount(sz)
    ensures a / PGSIZE == PageCount(sz)
  {
  }

  lemma NextPage(a: nat)
    requires a % PGSIZE == 0
    ensures (a + PGSIZE) % PGSIZE == 0 && (a + PGSIZE) / PGSIZE == a / PGSIZE + 1
  {
  }

  lemma ShrunkMeans(k: Kernel, s: Phys, s': Phys, d: nat, lo: nat, hi: nat)
    requires Shrunk(k, s, s', d, lo, hi)
    ensures IsDir(k, s', d)
  {
  }

  /** Reading a user entry through the walk. */
  lemma WalkReads(k: Kernel, s: Phys, d: nat, v: nat)
    requires IsDir(k, s, d) && v < UPAGES
    ensures v / ENTRIES == 0 && v % ENTRIES == v
    ensures var w := s.pages[d][0];
      if Present(w) then
        PageOf(w) < NPAGES && Pte(s, d, v) == s.pages[PageOf(w)][v] && (Present(Pte(s, d, v)) <==> Pte(s, d, v) != 0)
      else Pte(s, d, v) == 0
  {
    hide Chain, PageOk, Entry;
    PteMeans(k, s, d, v);
    if s.pages[d][0] != 0 {
      TableThere(k, s, d, 0);
    }
    if Pte(s, d, v) != 0 {
      EntryFields(PageOf(Pte(s, d, v)), PTE_W + PTE_U);
    }
  }

  lemma UserAddress(k: Kernel, s: Phys, d: nat, v: nat)
    requires IsDir(k, s, d) && v < UPAGES && Pte(s, d, v) != 0
    ensures var u := PageOf(Pte(s, d, v)); k.Pool(u) && u * PGSIZE % PGSIZE == 0 && u * PGSIZE / PGSIZE == u
  {
    hide Chain, PageOk, Entry;
    PteMeans(k, s, d, v);
  }

  lemma GrewMeans(k: Kernel, s: Phys, s1: Phys, d: nat, lo: nat, c: seq<Page>, v: nat)
    requires GrewBy(k, s, s1, d, lo, c) && v == lo + |c| && v < VPAGES
    ensures IsDir(k, s1, d) && Pte(s1, d, v) == Pte(s, d, v) && s1.pages[d] == s.pages[d] && |s.free| == |s1.free| + |c|
  {
    hide Chain, PageOk, Pte;
    DirKept(k, s, s1, d, lo, c);
  }

  lemma GrewTotal(k: Kernel, s: Phys, s1: Phys, d: nat, lo: nat, c: seq<Page>)
    requires GrewBy(k, s, s1, d, lo, c)
    ensures |s.free| == |s1.free| + |c| && IsDir(k, s1, d)
  {
  }

  /** A page taken and filled, ready to be mapped: what storing its entry makes. */
  lemma PageTaken(k: Kernel, s: Phys, s2: Phys, d: nat, v: nat, x: Page)
    requires IsDir(k, s, d) && Present(s.pages[d][0]) && v < UPAGES && Pte(s, d, v) == 0 && s.free != []
    requires k.Pool(s.free[0]) && s2 == Popped(s).(pages := s.pages[s.free[0] := x])
    ensures s.free[0] != d && v / ENTRIES == 0 && PageOf(s.pages[d][0]) < NPAGES
    ensures IsDir(k, s2, d) && s2.pages[d] == s.pages[d] && Pte(s2, d, v) == 0
    ensures MapOk(k, s2, v, 1, s.free[0], PTE_W + PTE_U, Some(s.free[0]))
    ensures Stored(s2, d, v, Entry(s.free[0], PTE_W + PTE_U), Some(s.free[0])) == WithPage(s, d, v, x)
  {
    hide Chain, PageOk, Entry;
    PopKeeps(k, s);
    TableThere(k, s, d, 0);
    OtherWrite(k, Popped(s), s.free[0], x);
    assert s2 == Popped(s).(pages := Popped(s).pages[s.free[0] := x]);
  }

  // ---------- tearing down, and copying ----------

  lemma DyingMeans(k: Kernel, s: Phys, s': Phys, d: nat, n: nat)
    requires Dying(k, s, s', d, n)
    ensures |s'.pages| == NPAGES && k.Ok() && k.Pool(d)
  {
    hide Chain, PageOk;
  }

  lemma FrameAddress(k: Kernel, p: nat)
    requires k.Pool(p)
    ensures p * PGSIZE < WORD_LIMIT && p * PGSIZE % PGSIZE == 0 && p * PGSIZE / PGSIZE == p
  {
  }

  lemma CountZero()
    ensures PageCount(0) == 0
  {
  }

  lemma KernelMeans(k: Kernel, s0: Phys, s: Phys, d: nat)
    requires KernelOnly(k, s0, s, d)
    ensures IsDir(k, s, d) && Present(s.pages[d][0]) && Extends(s0, s) && |s0.free| == |s.free| + KVM_PAGES
    ensures forall v :: 0 <= v < UPAGES ==> Pte(s, d, v) == 0
  {
    hide Chain, PageOk, Pte, Present, Extends, KernelEntry;
  }

  /** `c` holds the first pages of the user space of `d`. */
  ghost predicate Taken(k: Kernel, s: Phys, d: nat, c: seq<Page>) {
    IsDir(k, s, d) && |c| <= UPAGES && forall i :: 0 <= i < |c| ==> Source(k, s, d, i, c[i])
  }

  ghost predicate Source(k: Kernel, s: Phys, d: nat, v: nat, x: Page) {
    IsDir(k, s, d) && v < UPAGES && Pte(s, d, v) != 0 && PageOf(Pte(s, d, v)) < NPAGES && x == s.pages[PageOf(Pte(s, d, v))]
  }

  lemma TakenOneMore(k: Kernel, s: Phys, d: nat, c: seq<Page>, x: Page)
    requires Taken(k, s, d, c) && |c| < UPAGES && Source(k, s, d, |c|, x)
    ensures Taken(k, s, d, c + [x])
  {
    hide Source;
  }

  /** New pages aside, the copy so far left everything alone. */
  lemma StillExtends(k: Kernel, s0: Phys, s1: Phys, s: Phys, d: nat, c: seq<Page>)
    requires Sound(k, s0) && KernelOnly(k, s0, s1, d) && GrewBy(k, s1, s, d, 0, c)
    ensures Extends(s0, s) && forall p :: p in s.owner ==> p in s0.owner || About(s.owner[p], p, d)
  {
    hide Chain, PageOk, Pte, NewPage;
    TableThere(k, s1, d, 0);
    forall p | p in s0.owner
      ensures p in s.owner && s.owner[p] == s0.owner[p] && (p < NPAGES ==> s.pages[p] == s0.pages[p])
    {
      NotAbout(k, s0, d, p);
      assert KeptBut(s1, s, p, PageOf(s1.pages[d][0]));
    }
    forall p | p in s.owner
      ensures p in s0.owner || About(s.owner[p], p, d)
    {
      if p in s1.owner {
        assert KeptBut(s1, s, p, PageOf(s1.pages[d][0]));
      }
    }
  }

  /** The page to copy is where it was, with what it held. */
  lemma SourceThere(k: Kernel, s0: Phys, s1: Phys, s: Phys, src: nat, d: nat, c: seq<Page>, v: nat)
    requires IsDir(k, s0, src) && KernelOnly(k, s0, s1, d) && GrewBy(k, s1, s, d, 0, c) && v < UPAGES
    requires Pte(s0, src, v) != 0
    ensures IsDir(k, s, src) && Pte(s, src, v) == Pte(s0, src, v)
    ensures PageOf(Pte(s, src, v)) < NPAGES && Source(k, s0, src, v, s.pages[PageOf(Pte(s, src, v))])
  {
    hide Chain, PageOk, Pte, NewPage, About, KernelOnly;
    StillExtends(k, s0, s1, s, d, c);
    OthersKept(k, s0, s, src, v);
  }

  /** Directory `d` is new; its first `n` user pages hold what those of `src` hold, on pages
      that were free; the rest is the kernel's; nothing that was there before changed. */
  ghost predicate Copied(k: Kernel, s: Phys, s': Phys, src: nat, d: nat, n: nat) {
    && IsDir(k, s, src) && IsDir(k, s', d) && d !in s.owner && n <= UPAGES && Extends(s, s')
    && (forall v :: 0 <= v < n ==> CopyOf(s, s', src, d, v))
    && (forall v :: n <= v < VPAGES ==> Pte(s', d, v) == if KernelPage(v) then KernelEntry(k, v) else 0)
    && (forall p :: p in s'.owner ==> p in s.owner || About(s'.owner[p], p, d))
  }

  ghost predicate CopyOf(s: Phys, s': Phys, src: nat, d: nat, v: nat)
    requires |s.pages| == |s'.pages| == NPAGES && src < NPAGES && d < NPAGES && v < UPAGES
  {
    var w, u := PageOf(Pte(s, src, v)), PageOf(Pte(s', d, v));
    Pte(s, src, v) != 0 && w < NPAGES && Pte(s', d, v) != 0 && u < NPAGES && u !in s.owner && s'.pages[u] == s.pages[w]
  }

  lemma CopyDone(k: Kernel, s0: Phys, s1: Phys, s: Phys, src: nat, d: nat, c: seq<Page>)
    requires KernelOnly(k, s0, s1, d) && GrewBy(k, s1, s, d, 0, c) && Taken(k, s0, src, c)
    ensures Copied(k, s0, s, src, d, |c|) && Sound(k, s) && Extends(s0, s) && KernelPart(k, s, d) && Guarded(k, s, d)
  {
    hide Chain, PageOk, Pte, About, KernelEntry, KernelPage, KernelPart, Guarded;
    StillExtends(k, s0, s1, s, d, c);
    KernelPartIs(k, s, d, |c|);
    DirGuarded(k, s, d);
    forall v | 0 <= v < |c|
      ensures CopyOf(s0, s, src, d, v)
    {
      assert Source(k, s0, src, v, c[v]);
      assert NewPage(s1, s, d, 0 + v, c[v]);
    }
  }

  lemma CopyUndone(k: Kernel, s0: Phys, s1: Phys, s: Phys, s': Phys, d: nat, c: seq<Page>)
    requires Sound(k, s0) && KernelOnly(k, s0, s1, d) && GrewBy(k, s1, s, d, 0, c) && TornDown(k, s, s', d)
    ensures Restored(s0, s') && Extends(s0, s') && Sound(k, s')
  {
    hide Chain, PageOk, Pte, NewPage;
    StillExtends(k, s0, s1, s, d, c);
    forall p | p in s0.owner
      ensures p in s'.owner && s'.owner[p] == s0.owner[p] && (p < NPAGES ==> s'.pages[p] == s0.pages[p])
    {
      NotAbout(k, s0, d, p);
    }
    assert s'.owner == s0.owner;
  }

  lemma DirShape(k: Kernel, s: Phys, d: nat)
    requires IsDir(k, s, d)
    ensures |s.pages| == NPAGES && d < NPAGES && Sound(k, s) && forall p :: p in s.owner ==> p < NPAGES
  {
    hide Chain, PageOk;
  }

  // ---------- address spaces do not interfere ----------

  /** Every page that does not belong to the space of `d` keeps its owner and contents. */
  ghost predicate ApartFrom(s: Phys, s': Phys, d: nat) {
    && |s.pages| == |s'.pages| == NPAGES
    && forall p :: p in s.owner && !About(s.owner[p], p, d) ==> Same(s, s', p, false)
  }

  lemma RestoredApart(s: Phys, s': Phys, d: nat)
    requires |s.pages| == NPAGES && (s' == s || Restored(s, s')) && forall p :: p in s.owner ==> p < NPAGES
    ensures ApartFrom(s, s', d)
  {
  }

  lemma GrewApart(k: Kernel, s: Phys, s': Phys, d: nat, lo: nat, c: seq<Page>)
    requires GrewBy(k, s, s', d, lo, c)
    ensures ApartFrom(s, s', d)
  {
    hide Chain, PageOk, Pte, NewPage;
    TableThere(k, s, d, 0);
    forall p | p in s.owner && !About(s.owner[p], p, d)
      ensures Same(s, s', p, false)
    {
      assert KeptBut(s, s', p, PageOf(s.pages[d][0]));
    }
  }

  lemma ShrunkApart(k: Kernel, s: Phys, s': Phys, d: nat, lo: nat, hi: nat)
    requires Shrunk(k, s, s', d, lo, hi)
    ensures ApartFrom(s, s', d)
  {
    hide Chain, PageOk, Pte;
  }

  lemma TornDownApart(k: Kernel, s: Phys, s': Phys, d: nat)
    requires Sound(k, s) && TornDown(k, s, s', d)
    ensures ApartFrom(s, s', d)
  {
    hide Chain, PageOk, Pte;
  }

  /** Growing, shrinking or freeing one space leaves every other space its mappings and its memory. */
  lemma SpacesApart(k: Kernel, s: Phys, s': Phys, d: nat, e: nat, v: nat)
    requires IsDir(k, s, d) && IsDir(k, s, e) && Sound(k, s') && ApartFrom(s, s', d) && d != e && v < VPAGES
    ensures IsDir(k, s', e) && Pte(s', e, v) == Pte(s, e, v)
    ensures v < UPAGES && Pte(s, e, v) != 0 ==>
              PageOf(Pte(s, e, v)) < NPAGES && s'.pages[PageOf(Pte(s, e, v))] == s.pages[PageOf(Pte(s, e, v))]
  {
    hide Chain, PageOk, Entry, KernelEntry;
    assert Same(s, s', e, false);
    if s.pages[e][v / ENTRIES] != 0 {
      TableThere(k, s, e, v / ENTRIES);
      assert Same(s, s', PageOf(s.pages[e][v / ENTRIES]), false);
    }
    PteMeans(k, s, e, v);
    if v < UPAGES && Pte(s, e, v) != 0 {
      assert Same(s, s', PageOf(Pte(s, e, v)), false);
    }
  }

  /** A copy that is freed again leaves nothing behind. */
  lemma CopyThenFree(k: Kernel, s: Phys, s1: Phys, s': Phys, src: nat, d: nat, n: nat)
    requires Copied(k, s, s1, src, d, n) && TornDown(k, s1, s', d)
    ensures Restored(s, s') && multiset(s'.free) == multiset(s.free)
  {
    hide Chain, PageOk, Pte, CopyOf;
    forall p | p in s.owner
      ensures p in s'.owner && s'.owner[p] == s.owner[p] && (p < NPAGES ==> s'.pages[p] == s.pages[p])
    {
      NotAbout(k, s, d, p);
    }
    assert s'.owner == s.owner;
    RestoredFree(k, s, s');
  }
}
