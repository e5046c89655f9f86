/** The user-level allocator: `free`, `morecore` and `malloc` on header fields in memory.
    Addresses count headers (8 bytes); 0 is the null pointer. */
module Umalloc {
  import opened FreeList

  const HEADER: nat := 8
  const WORD: nat := 0x1_0000_0000
  const MORECORE: nat := 4096

  /** `nunits`, in the 32-bit arithmetic of the source. */
  function Nunits(nbytes: nat): nat {
    (nbytes + HEADER - 1) % WORD / HEADER + 1
  }

  /** A block of `Nunits` headers has room for `nbytes` exactly when the rounding did not wrap. */
  lemma RoomExact(nbytes: nat)
    requires nbytes < WORD
    ensures (Nunits(nbytes) - 1) * HEADER >= nbytes <==> nbytes <= 0xFFFF_FFF8
  {
    var x := nbytes + HEADER - 1;
    if nbytes <= 0xFFFF_FFF8 {
      assert x % WORD / HEADER == x / HEADER;
    } else {
      assert x % WORD == x - WORD < HEADER;
    }
  }

  /** The argument `sbrk` sees for `nu` headers: a 32-bit product read as a signed int. */
  function SbrkArg(nu: nat): int {
    var w := nu * HEADER % WORD;
    if w < 0x8000_0000 then w else w - WORD
  }

  /** The request to the system is what was meant exactly below 2^28 headers. */
  lemma SbrkArgExact(nu: nat)
    requires 0 < nu <= 0x2000_0000
    ensures SbrkArg(nu) == nu * HEADER <==> nu < 0x1000_0000
    ensures SbrkArg(nu) > 0 <==> nu < 0x1000_0000
  {
  }

  /** `BadRequest`: the argument of `sbrk` overflowed, so what it returns is no new memory. */
  datatype Result = Null | Block(ap: nat) | BadRequest

  class Allocator {
    const base: nat
    var freep: nat
    var ptr: map<nat, nat>
    var size: map<nat, nat>
    ghost var fl: seq<nat>
    ghost var live: map<nat, nat>
    ghost var home: map<nat, nat>

    ghost function H(): Heap
      reads this
    {
      Heap(base, ptr, size, fl, live, home)
    }

    ghost predicate Valid()
      reads this
    {
      base > 0 && if freep == 0 then fl == [] && live == map[] && home == map[] else Ok(H()) && freep in fl
    }

    constructor (base: nat)
      requires base > 0
      ensures Valid() && this.base == base && live == map[] && home == map[]
    {
      this.base := base;
      freep := 0;
      ptr, size, fl, live, home := map[], map[], [], map[], map[];
    }

    /** Walk the circular list from `freep` to the gap where the block belongs. */
    method Search(bp: nat, ghost k: nat) returns (p: nat)
      requires Walkable(H()) && freep in fl && Gap(fl, k, bp)
      ensures p == fl[k]
    {
      p := freep;
      ghost var i := IndexOf(fl, p);
      while !(bp > p && bp < ptr[p])
        invariant 0 <= i < |fl| && p == fl[i] && p in ptr
        decreases if i <= k then k - i else |fl| - i + k
      {
        assert ptr[p] == Succ(fl, i);
        GapIsStop(fl, k, bp, i);
        if p >= ptr[p] && (bp > p || bp < ptr[p]) {
          break;
        }
        i := if i + 1 < |fl| then i + 1 else 0;
        p := ptr[p];
      }
      assert ptr[p] == Succ(fl, i);
      GapIsStop(fl, k, bp, i);
    }

    /** Link block `bp` in after `p`, merging it with whichever neighbour it touches. */
    method Link(p: nat, bp: nat, ghost g: Heap)
      requires LinkedIn(H(), p, bp, g)
      modifies this
      ensures H() == g && freep == p
    {
      JoinRight(p, bp);
      JoinLeft(p, bp);
      fl, live, home := g.fl, g.live, g.home;
      freep := p;
    }

    method JoinRight(p: nat, bp: nat)
      requires p in ptr && bp in size
      requires bp + size[bp] == ptr[p] ==> ptr[p] in size && ptr[p] in ptr
      modifies this`size, this`ptr
      ensures var nx := old(ptr)[p]; var right := bp + old(size)[bp] == nx;
        && size == (if right then old(size)[bp := old(size)[bp] + old(size)[nx]] else old(size))
        && ptr == old(ptr)[bp := if right then old(ptr)[nx] else nx]
    {
      if bp + size[bp] == ptr[p] {
        size := size[bp := size[bp] + size[ptr[p]]];
        ptr := ptr[bp := ptr[ptr[p]]];
      } else {
        ptr := ptr[bp := ptr[p]];
      }
    }

    method JoinLeft(p: nat, bp: nat)
      requires p in size && bp in size && bp in ptr
      modifies this`size, this`ptr
      ensures var left := p + old(size)[p] == bp;
        && size == (if left then old(size)[p := old(size)[p] + old(size)[bp]] else old(size))
        && ptr == old(ptr)[p := if left then old(ptr)[bp] else bp]
    {
      if p + size[p] == bp {
        size := size[p := size[p] + size[bp]];
        ptr := ptr[p := ptr[bp]];
      } else {
        ptr := ptr[p := bp];
      }
    }

    /** Give a block back. */
    method Free(ap: nat)
      requires Valid() && ap > 0 && ap - 1 in live
      modifies this
      ensures Valid() && freep != 0
      ensures live == old(live) - {ap - 1} && home.Keys == old(home).Keys
      ensures Within(H(), ap - 1, old(live)[ap - 1])
    {
      var bp := ap - 1;
      ghost var h := H();
      ghost var k := StartPlace(h, bp);
      ghost var g := Freed(h, k, bp);
      FreeOk(h, k, bp);
      FreedFields(h, k, bp);
      hide *;
      var p := Search(bp, k);
      Link(p, bp, g);
    }

    /** Get at least `nunits` headers from the system and free them into the list.
        `grant` is the system's answer: the address of fresh memory, or a refusal. */
    method Morecore(nunits: nat, grant: Grant) returns (r: Result)
      requires Valid() && freep != 0
      requires grant.Memory? ==> Fresh(H(), grant.at, Clamp(nunits))
      modifies this
      ensures Valid() && freep != 0 && live == old(live)
      ensures r == (if !AskedRight(nunits) then BadRequest else if grant.Refused? then Null else Block(freep))
      ensures !r.Block? ==> H() == old(H()) && freep == old(freep)
      ensures r.Block? ==> home.Keys == old(home).Keys + Units(grant.at, Clamp(nunits))
                           && Within(H(), grant.at, Clamp(nunits))
    {
      var nu := Clamp(nunits);
      if !AskedRight(nunits) {
        return BadRequest;
      }
      if grant.Refused? {
        return Null;
      }
      var hp := grant.at;
      ExtendOk(H(), hp, nu);
      ghost var e := Extend(H(), hp, nu);
      assert e.live - {hp} == live && e.live[hp] == nu && hp in e.live;
      assert Ok(e) && freep in e.fl;
      hide *;
      size := size[hp := nu];
      live, home := e.live, e.home;
      assert H() == e;
      Free(hp + 1);
      return Block(freep);
    }

    /** Hand out free block `p`, found at position `i` of the list: unlink an exact fit,
        cut the tail off a larger one. */
    method Take(p: nat, prevp: nat, n: nat, ghost i: nat, ghost g: Heap) returns (r: Result)
      requires 0 < i < |fl| && p == fl[i] && prevp == fl[i - 1]
      requires p in size && p in ptr && 0 < n <= size[p] && g == Taken(H(), i, n)
      modifies this
      ensures freep == prevp && r == old(Block(TakenAt(H(), i, n) + 1)) && H() == g
    {
      var b := p;
      if size[p] == n {
        ptr := ptr[prevp := ptr[p]];
      } else {
        size := size[p := size[p] - n];
        b := p + size[p];
        size := size[b := n];
      }
      fl, live, home := g.fl, g.live, g.home;
      freep := prevp;
      r := Block(b + 1);
    }

    /** The first call makes `base` a free list of its own. */
    method Start()
      requires Valid()
      modifies this
      ensures Ok(H()) && freep in fl && freep != 0
      ensures live == old(live) && home == old(home)
      ensures old(freep) != 0 ==> H() == old(H()) && freep == old(freep)
      ensures old(freep) == 0 ==> old(fl) == [] && fl == [base]
    {
      if freep == 0 {
        ptr, freep := ptr[base := base], base;
        size := size[base := 0];
        fl := [base];
        assert Linked(H(), 0);
      }
    }

    /** Walk from the block after `freep` to the first one with `n` units, at most once around. */
    method Walk(n: nat) returns (found: bool, p: nat, prevp: nat, ghost s: nat, ghost d: nat)
      requires Ring(H()) && freep in fl && n > 0
      ensures !found ==> !HasFit(H(), n)
      ensures found ==> FitAt(H(), freep, s, d, n, p, prevp)
    {
      s, d := IndexOf(fl, freep), 1;
      ghost var h := H();
      ScanStart(h, s, n);
      ScanFields(h, s, 1, n);
      hide Ring, HasFit, Cyc, Scanning;
      p, prevp := ptr[freep], freep;
      while size[p] < n
        invariant 0 <= s < |fl| && 1 <= d <= |fl| && freep == fl[s] && p in size
        invariant Scanning(h, s, d, n) && p == WalkAt(h, s, d) && prevp == WalkAt(h, s, d - 1)
        decreases |fl| - d
      {
        BackAtStart(h, s, d, n);
        if p == freep {
          AllSeen(h, s, n);
          return false, p, prevp, s, d;
        }
        ScanStep(h, s, d, n);
        ScanFields(h, s, d + 1, n);
        d, prevp := d + 1, p;
        p := ptr[p];
      }
      found := true;
    }

    /** Hand out the block the walk has found. */
    method Give(p: nat, prevp: nat, n: nat, ghost s: nat, ghost d: nat, ghost h0: Heap, ghost start: nat,
                ghost grant: Grant, ghost grown: bool) returns (r: Result)
      requires Valid() && freep != 0 && n > 0 && FitAt(H(), freep, s, d, n, p, prevp)
      requires Progress(h0, start, n, grant, grown, H(), freep)
      modifies this
      ensures Valid() && freep != 0 && Outcome(h0, start, n, grant, r, H())
    {
      hide Ring, Partition, Coalesced, Progress, Outcome, Taken, TakenAt, FitAt;
      ghost var i, g := CanTake(h0, start, n, grant, grown, H(), freep, s, d, p, prevp);
      r := Take(p, prevp, n, i, g);
    }

    /** Next fit: take the first block that fits; when nothing fits, grow the heap and walk on. */
    method Scan(n: nat, grant: Grant) returns (r: Result)
      requires Valid() && freep != 0 && n > 0
      requires grant.Memory? ==> Fresh(H(), grant.at, Clamp(n))
      modifies this
      ensures Valid() && freep != 0
      ensures Outcome(old(H()), old(freep), n, grant, r, H())
    {
      ghost var h0, start, grown := H(), freep, false;
      assert Progress(h0, start, n, grant, false, h0, start);
      hide Ring, Partition, Coalesced, Progress, Outcome, Clamp, AskedRight, Fresh, HasFit, FitAt;
      while true
        invariant Valid() && freep != 0
        invariant Progress(h0, start, n, grant, grown, H(), freep)
        decreases !grown
      {
        var found, p, prevp;
        ghost var s, d;
        found, p, prevp, s, d := Walk(n);
        if found {
          r := Give(p, prevp, n, s, d, h0, start, grant, grown);
          return;
        }
        NothingFits(h0, start, n, grant, grown, H(), freep);
        r := Morecore(n, grant);
        if !r.Block? {
          return;
        }
        HasGrown(h0, start, n, grant, H(), freep);
        grown := true;
      }
    }

    /** Hand out a block with room for `nbytes`. */
    method Malloc(nbytes: nat, grant: Grant) returns (r: Result)
      requires Valid() && nbytes < WORD
      requires grant.Memory? ==> Fresh(H(), grant.at, Clamp(Nunits(nbytes)))
      modifies this
      ensures Valid() && freep != 0
      ensures Outcome(old(H()), old(freep), Nunits(nbytes), grant, r, H())
    {
      ghost var before, first := H(), freep;
      Start();
      SameStart(before, first, H(), freep, Nunits(nbytes), grant);
      r := Scan(Nunits(nbytes), grant);
    }
  }

  /** Some free block has `n` units. */
  ghost predicate HasFit(h: Heap, n: nat) {
    exists i :: 0 <= i < |h.fl| && h.fl[i] in h.size && h.size[h.fl[i]] >= n
  }

  /** The first block after `start` that fits was taken. */
  ghost predicate Served(h: Heap, start: nat, n: nat, ap: nat, g: Heap) {
    && Walkable(h) && start in h.fl
    && var i := FirstFit(h, IndexOf(h.fl, start), 1, n);
       0 < i && n <= h.size[h.fl[i]] && g == Taken(h, i, n) && ap == TakenAt(h, i, n) + 1
  }

  /** List position of the first block with `n` units, looking from `d` steps after `s` on, once around. */
  ghost function FirstFit(h: Heap, s: nat, d: nat, n: nat): (i: nat)
    requires Walkable(h) && s < |h.fl| && d <= |h.fl|
    ensures i < |h.fl|
    decreases |h.fl| - d
  {
    if d == |h.fl| || h.size[WalkAt(h, s, d)] >= n then Cyc(s, d, |h.fl|) else FirstFit(h, s, d + 1, n)
  }

  lemma {:induction false} FirstFitFound(h: Heap, s: nat, e: nat, d: nat, n: nat)
    requires Scanning(h, s, d, n) && h.size[WalkAt(h, s, d)] >= n && 1 <= e <= d
    ensures FirstFit(h, s, e, n) == Cyc(s, d, |h.fl|)
    decreases d - e
  {
    if e < d {
      FirstFitFound(h, s, e + 1, d, n);
    }
  }

  /** `g` is `h` with a new live block of `n` units at `ap - 1`, over a heap made of `units`. */
  ghost predicate HandedOut(h: Heap, n: nat, ap: nat, units: set<nat>, g: Heap) {
    ap > 0 && ap - 1 !in h.live && g.live == h.live[ap - 1 := n] && g.home.Keys == units
  }

  /** What `malloc` does: a fitting block is always used; the system is asked only when none fits. */
  ghost predicate Outcome(h: Heap, start: nat, n: nat, grant: Grant, r: Result, g: Heap) {
    if HasFit(h, n) then
      r.Block? && HandedOut(h, n, r.ap, h.home.Keys, g) && Served(h, start, n, r.ap, g)
    else if !AskedRight(n) then
      r == BadRequest && g.live == h.live && g.home == h.home
    else if grant.Refused? then
      r == Null && g.live == h.live && g.home == h.home
    else
      r.Block? && HandedOut(h, n, r.ap, h.home.Keys + Units(grant.at, Clamp(n)), g)
  }

  /** The walk is on the heap `malloc` found, or on the one it grew after nothing fitted. */
  ghost predicate Progress(h0: Heap, start: nat, n: nat, grant: Grant, grown: bool, h: Heap, freep: nat) {
    if !grown then h == h0 && freep == start
    else !HasFit(h0, n) && Grew(h0, n, grant, h)
  }

  ghost predicate Grew(h0: Heap, n: nat, grant: Grant, h: Heap) {
    && HasFit(h, n) && AskedRight(n) && grant.Memory?
    && h.live == h0.live && h.home.Keys == h0.home.Keys + Units(grant.at, Clamp(n))
  }

  /** `p` is the first block after `freep` that fits, `prevp` the one before it in the list. */
  ghost predicate FitAt(h: Heap, freep: nat, s: nat, d: nat, n: nat, p: nat, prevp: nat) {
    && Scanning(h, s, d, n) && freep == h.fl[s]
    && p == WalkAt(h, s, d) && prevp == WalkAt(h, s, d - 1) && h.size[p] >= n
  }

  lemma SameStart(before: Heap, first: nat, h0: Heap, start: nat, n: nat, grant: Grant)
    requires n > 0 && h0.live == before.live && h0.home == before.home
    requires if first != 0 then h0 == before && start == first else before.fl == [] && h0.fl == [h0.base] && Ring(h0)
    ensures forall r, g :: Outcome(h0, start, n, grant, r, g) ==> Outcome(before, first, n, grant, r, g)
  {
    if first == 0 {
      assert !HasFit(before, n) && !HasFit(h0, n);
    }
  }

  lemma Handed(h0: Heap, start: nat, n: nat, grant: Grant, grown: bool, h: Heap, freep: nat, s: nat, d: nat, ap: nat,
               g: Heap)
    requires Ring(h) && Progress(h0, start, n, grant, grown, h, freep) && FitsFirst(h, s, d, n) && h.fl[s] == freep
    requires HandedOut(h, n, ap, h.home.Keys, g)
    requires g == Taken(h, Cyc(s, d, |h.fl|), n) && ap == TakenAt(h, Cyc(s, d, |h.fl|), n) + 1
    ensures Outcome(h0, start, n, grant, Block(ap), g)
  {
    FitIsFit(h, s, d, n);
    assert Served(h, freep, n, ap, g) by {
      assert IndexOf(h.fl, freep) == s;
      FirstFitFound(h, s, 1, d, n);
    }
    hide Taken, TakenAt, Served, FitsFirst, HasFit, AskedRight, Ring;
  }

  /** At a block that fits, `Take` leaves the heap in order and gives the promised outcome. */
  lemma CanTake(h0: Heap, start: nat, n: nat, grant: Grant, grown: bool, h: Heap, freep: nat, s: nat, d: nat,
                p: nat, prevp: nat) returns (i: nat, g: Heap)
    requires Ok(h) && n > 0 && Progress(h0, start, n, grant, grown, h, freep) && FitAt(h, freep, s, d, n, p, prevp)
    ensures 0 < i < |h.fl| && p == h.fl[i] && prevp == h.fl[i - 1] && p in h.ptr && p in h.size && n <= h.size[p]
    ensures g == Taken(h, i, n) && Ok(g) && prevp in g.fl && g.base == h.base && h.base <= prevp
    ensures Outcome(h0, start, n, grant, Block(TakenAt(h, i, n) + 1), g)
  {
    hide Ring, Partition, Coalesced, Progress, Outcome, Taken, TakenAt, HasFit, HandedOut;
    ScanFound(h, s, d, n);
    i := Cyc(s, d, |h.fl|);
    TakenOk(h, i, n);
    g := Taken(h, i, n);
    Handed(h0, start, n, grant, grown, h, freep, s, d, TakenAt(h, i, n) + 1, g);
  }

  lemma FitIsFit(h: Heap, s: nat, d: nat, n: nat)
    requires FitsFirst(h, s, d, n)
    ensures HasFit(h, n)
  {
    assert h.fl[Cyc(s, d, |h.fl|)] == WalkAt(h, s, d);
  }

  /** The walk fails only before the heap has grown. */
  lemma NothingFits(h0: Heap, start: nat, n: nat, grant: Grant, grown: bool, h: Heap, freep: nat)
    requires Progress(h0, start, n, grant, grown, h, freep) && !HasFit(h, n)
    ensures !grown && h == h0
    ensures !AskedRight(n) ==> Outcome(h0, start, n, grant, BadRequest, h)
    ensures AskedRight(n) && grant.Refused? ==> Outcome(h0, start, n, grant, Null, h)
  {
    hide HasFit, AskedRight;
  }

  /** After growing, the next walk is bound to find a fit. */
  lemma HasGrown(h: Heap, start: nat, n: nat, grant: Grant, g: Heap, freep: nat)
    requires grant.Memory? && AskedRight(n) && g.live == h.live && Within(g, grant.at, Clamp(n)) && !HasFit(h, n)
    requires g.home.Keys == h.home.Keys + Units(grant.at, Clamp(n))
    ensures Progress(h, start, n, grant, true, g, freep)
  {
  }

  /** The system's answer to `sbrk`. */
  datatype Grant = Memory(at: nat) | Refused

  /** `morecore` asks for no less than 4096 headers. */
  function Clamp(nunits: nat): (nu: nat)
    ensures nu >= nunits && nu > 0
  {
    if nunits < MORECORE then MORECORE else nunits
  }

  /** The system sees the number of bytes that was meant. */
  predicate AskedRight(nunits: nat) {
    SbrkArg(Clamp(nunits)) == Clamp(nunits) * HEADER
  }

  /** The heap after `n` units of free block `i` are handed out, and the header given. */
  function Taken(h: Heap, i: nat, n: nat): Heap
    requires 0 < i < |h.fl| && h.fl[i] in h.ptr && h.fl[i] in h.size && n <= h.size[h.fl[i]]
  {
    if h.size[h.fl[i]] == n then Unlink(h, i) else Carve(h, i, n)
  }

  function TakenAt(h: Heap, i: nat, n: nat): nat
    requires i < |h.fl| && h.fl[i] in h.size && n <= h.size[h.fl[i]]
  {
    h.fl[i] + h.size[h.fl[i]] - n
  }

  /** Some free block contains the `n` units from `b` on. */
  ghost predicate Within(h: Heap, b: nat, n: nat) {
    exists m :: 0 <= m < |h.fl| && h.fl[m] in h.size && h.fl[m] <= b && b + n <= h.fl[m] + h.size[h.fl[m]]
  }

  /** What the pointer-walking loops need: every list entry has its fields, linked in order. */
  ghost predicate Walkable(h: Heap) {
    && |h.fl| > 0
    && (forall i :: 0 <= i < |h.fl| ==> h.fl[i] in h.ptr && h.fl[i] in h.size)
    && (forall i :: 0 <= i < |h.fl| ==> h.ptr[h.fl[i]] == Succ(h.fl, i))
  }

  ghost predicate Gap(fl: seq<nat>, k: nat, b: nat) {
    && k < |fl| && Ascending(fl) && b !in fl && fl[0] < b
    && fl[k] < b && (k + 1 < |fl| ==> b < fl[k + 1])
  }

  // ---------- malloc's walk ----------

  /** Position `d` steps after `s` on a circle of `n`. */
  function Cyc(s: nat, d: nat, n: nat): (i: nat)
    requires s < n && d <= n
    ensures i < n
  {
    if s + d < n then s + d else s + d - n
  }

  /** The `d`-th block after position `s` of the circular list. */
  ghost function WalkAt(h: Heap, s: nat, d: nat): nat
    requires s < |h.fl| && d <= |h.fl|
  {
    h.fl[Cyc(s, d, |h.fl|)]
  }

  /** The walk that started at position `s` has reached its `d`-th block; none before it fits. */
  ghost predicate Scanning(h: Heap, s: nat, d: nat, n: nat) {
    && s < |h.fl| && 1 <= d <= |h.fl| && Walkable(h)
    && forall e :: 1 <= e < d ==> h.size[WalkAt(h, s, e)] < n
  }

  ghost predicate FitsFirst(h: Heap, s: nat, d: nat, n: nat) {
    Scanning(h, s, d, n) && h.size[WalkAt(h, s, d)] >= n && Cyc(s, d, |h.fl|) > 0
  }

  lemma ScanStart(h: Heap, s: nat, n: nat)
    requires Ring(h) && s < |h.fl|
    ensures Scanning(h, s, 1, n)
  {
    RingWalkable(h);
  }

  lemma ScanStep(h: Heap, s: nat, d: nat, n: nat)
    requires Scanning(h, s, d, n) && d < |h.fl| && h.size[WalkAt(h, s, d)] < n
    ensures Scanning(h, s, d + 1, n)
  {
  }

  /** The header fields the walk reads: the `ptr` of one block leads to the next. */
  lemma ScanFields(h: Heap, s: nat, d: nat, n: nat)
    requires Scanning(h, s, d, n)
    ensures s < |h.fl| && 1 <= d <= |h.fl| && WalkAt(h, s, d) in h.size && WalkAt(h, s, d) in h.ptr
    ensures WalkAt(h, s, d - 1) in h.ptr && h.ptr[WalkAt(h, s, d - 1)] == WalkAt(h, s, d)
  {
    var i := Cyc(s, d - 1, |h.fl|);
    assert h.ptr[h.fl[i]] == Succ(h.fl, i);
  }

  lemma ScanFound(h: Heap, s: nat, d: nat, n: nat)
    requires Ring(h) && Scanning(h, s, d, n) && h.size[WalkAt(h, s, d)] >= n > 0
    ensures 1 <= d <= |h.fl| && FitsFirst(h, s, d, n) && 0 < Cyc(s, d, |h.fl|)
    ensures WalkAt(h, s, d - 1) == h.fl[Cyc(s, d, |h.fl|) - 1]
    ensures WalkAt(h, s, d) == h.fl[Cyc(s, d, |h.fl|)] && WalkAt(h, s, d) in h.ptr && WalkAt(h, s, d) in h.size
  {
    assert h.size[h.fl[0]] == 0;
    hide Ring, Linked, Ascending;
  }

  /** The walk is back at the start exactly after a full turn. */
  lemma BackAtStart(h: Heap, s: nat, d: nat, n: nat)
    requires Ring(h) && Scanning(h, s, d, n)
    ensures WalkAt(h, s, d) == h.fl[s] <==> d == |h.fl|
  {
    hide Walkable, Linked;
    var i := Cyc(s, d, |h.fl|);
    if i < s {
      assert h.fl[i] < h.fl[s];
    } else if s < i {
      assert h.fl[s] < h.fl[i];
    }
  }

  /** After a full turn every block has been seen. */
  lemma AllSeen(h: Heap, s: nat, n: nat)
    requires Scanning(h, s, |h.fl|, n) && h.size[WalkAt(h, s, |h.fl|)] < n
    ensures !HasFit(h, n)
  {
    forall i | 0 <= i < |h.fl|
      ensures h.size[h.fl[i]] < n
    {
      var e := if i > s then i - s else i + |h.fl| - s;
      assert WalkAt(h, s, e) == h.fl[i];
    }
  }

  lemma TakenOk(h: Heap, i: nat, n: nat)
    requires Ok(h) && 0 < i < |h.fl| && h.fl[i] in h.ptr && h.fl[i] in h.size && 0 < n <= h.size[h.fl[i]]
    ensures var g := Taken(h, i, n);
      Ok(g) && HandedOut(h, n, TakenAt(h, i, n) + 1, h.home.Keys, g) && h.fl[i - 1] in g.fl && g.base == h.base
      && h.fl[i - 1] >= h.base
  {
    assert h.fl[0] <= h.fl[i - 1];
    if h.size[h.fl[i]] == n {
      TakenExact(h, i, n);
    } else {
      TakenTail(h, i, n);
    }
    hide *;
  }

  lemma TakenExact(h: Heap, i: nat, n: nat)
    requires Ok(h) && 0 < i < |h.fl| && h.fl[i] in h.ptr && h.fl[i] in h.size && 0 < n == h.size[h.fl[i]]
    ensures var g := Taken(h, i, n);
      Ok(g) && HandedOut(h, n, TakenAt(h, i, n) + 1, h.home.Keys, g) && h.fl[i - 1] in g.fl && g.base == h.base
  {
    hide Ring, Partition, Coalesced, Ok, Removed;
    UnlinkOk(h, i);
  }

  lemma TakenTail(h: Heap, i: nat, n: nat)
    requires Ok(h) && 0 < i < |h.fl| && h.fl[i] in h.ptr && h.fl[i] in h.size && 0 < n < h.size[h.fl[i]]
    ensures var g := Taken(h, i, n);
      Ok(g) && HandedOut(h, n, TakenAt(h, i, n) + 1, h.home.Keys, g) && h.fl[i - 1] in g.fl && g.base == h.base
  {
    hide Ring, Partition, Coalesced, Ok, Removed;
    CarveOk(h, i, n);
    assert h.fl[i - 1] in h.fl;
  }

  /** The two exit conditions of the search hold at the right gap and nowhere else. */
  lemma GapIsStop(fl: seq<nat>, k: nat, b: nat, i: nat)
    requires Gap(fl, k, b) && i < |fl|
    ensures i == k <==> || (b > fl[i] && b < Succ(fl, i))
                        || (fl[i] >= Succ(fl, i) && (b > fl[i] || b < Succ(fl, i)))
  {
    assert fl[0] <= fl[i];
    if i < k {
      assert fl[i] < fl[i + 1] <= fl[k];
    } else if k < i {
      assert fl[k + 1] <= fl[i];
    }
  }

  /** What a caller relies on: blocks handed out lie above `base`, in memory the system gave,
      and never overlap each other or a free block. */
  lemma LiveBlocksApart(h: Heap, a: nat, b: nat)
    requires Ok(h) && a in h.live && IsBlock(h, b) && a != b
    ensures h.base < a && h.live[a] > 0 && forall u :: a <= u < a + h.live[a] ==> u in h.home
    ensures b in h.size && (a + h.live[a] <= b || b + h.size[b] <= a)
  {
    assert IsBlock(h, a);
    assert Covers(h, a);
    if a < b {
      Disjoint(h, a, b);
    } else {
      Disjoint(h, b, a);
    }
  }

  lemma IndexOfLemma(s: seq<nat>, x: nat)
    requires x in s
    ensures exists i :: 0 <= i < |s| && s[i] == x
  {
  }

  ghost function IndexOf(s: seq<nat>, x: nat): (i: nat)
    requires x in s
    ensures i < |s| && s[i] == x
  {
    IndexOfLemma(s, x);
    var i :| 0 <= i < |s| && s[i] == x;
    i
  }

  lemma StartPlace(h: Heap, b: nat) returns (k: nat)
    requires Ok(h) && b in h.live
    ensures Place(h, k, b) && b in h.size && h.size[b] == h.live[b] && Gap(h.fl, k, b) && Walkable(h)
  {
    assert IsBlock(h, b);
    assert Covers(h, b);
    k := PlaceExists(h, b, 0);
    RingWalkable(h);
  }

  lemma RingWalkable(h: Heap)
    requires Ring(h)
    ensures Walkable(h)
  {
    forall i | 0 <= i < |h.fl|
      ensures h.ptr[h.fl[i]] == Succ(h.fl, i)
    {
      assert Linked(h, i);
    }
  }

  /** Heap `g` holds the header fields that linking `b` in after `p` stores. */
  ghost predicate LinkedIn(h: Heap, p: nat, b: nat, g: Heap) {
    && p in h.ptr && p in h.size && b in h.size && p != b && h.ptr[p] != b && g.base == h.base
    && var nx := h.ptr[p];
       var right := b + h.size[b] == nx;
       var left := p + h.size[p] == b;
       (right ==> nx in h.size && nx in h.ptr)
       && g.size == (var s1 := if right then h.size[b := h.size[b] + h.size[nx]] else h.size;
                     if left then s1[p := s1[p] + s1[b]] else s1)
       && g.ptr == (var q1 := h.ptr[b := if right then h.ptr[nx] else nx];
                    q1[p := if left then q1[b] else b])
  }

  lemma FreedFields(h: Heap, k: nat, b: nat)
    requires Ok(h) && b in h.live && b in h.size && Place(h, k, b)
    ensures LinkedIn(h, h.fl[k], b, Freed(h, k, b))
  {
    assert Linked(h, k) && b !in h.fl && h.fl[0] <= h.fl[k] && h.base < b;
    assert k + 1 < |h.fl| ==> h.fl[k + 1] in h.size && h.fl[k + 1] in h.ptr;
    hide Partition, Coalesced, Apart, Added, Removed, Ascending;
  }
}
