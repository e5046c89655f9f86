/** The free list of the user-level allocator as a value: one circular list in
    address order over header addresses (in units of one header), and the map that
    says which block every unit obtained from the system belongs to. */
module FreeList {

  /** `ptr` and `size` are the header fields in memory; `fl` the free list from `base`
      on; `live` the blocks handed out; `home` the block of every unit of the heap. */
  datatype Heap = Heap(base: nat, ptr: map<nat, nat>, size: map<nat, nat>,
                       fl: seq<nat>, live: map<nat, nat>, home: map<nat, nat>)

  function Succ(fl: seq<nat>, i: nat): nat
    requires i < |fl|
  {
    if i + 1 < |fl| then fl[i + 1] else fl[0]
  }

  ghost predicate Linked(h: Heap, i: nat)
    requires i < |h.fl|
  {
    h.fl[i] in h.ptr && h.ptr[h.fl[i]] == Succ(h.fl, i)
  }

  /** One circular list in address order, starting at the empty block `base`. */
  ghost predicate Ring(h: Heap) {
    && |h.fl| > 0 && h.fl[0] == h.base
    && Ascending(h.fl)
    && (forall i :: 0 <= i < |h.fl| ==> h.fl[i] in h.ptr && h.fl[i] in h.size)
    && (forall i :: 0 <= i < |h.fl| ==> Linked(h, i))
    && h.size[h.base] == 0
  }

  /** A block of the heap other than `base`: free or handed out. */
  ghost predicate IsBlock(h: Heap, b: nat) {
    b in h.size && (b in h.live || (b in h.fl && b != h.base))
  }

  ghost predicate Covers(h: Heap, b: nat)
    requires b in h.size
  {
    h.size[b] > 0 && b > h.base && forall u :: b <= u < b + h.size[b] ==> u in h.home && h.home[u] == b
  }

  /** Free and handed-out blocks partition the heap: every unit has exactly one block. */
  ghost predicate Partition(h: Heap) {
    && (forall b :: b in h.live ==> b in h.size && h.size[b] == h.live[b] && b !in h.fl)
    && (forall b :: IsBlock(h, b) ==> Covers(h, b))
    && (forall u :: u in h.home ==> IsBlock(h, h.home[u]) && h.home[u] <= u < h.home[u] + h.size[h.home[u]])
  }

  /** No two neighbouring free blocks touch. */
  ghost predicate Apart(h: Heap, i: nat) {
    i + 1 < |h.fl| && h.fl[i] in h.size ==> h.fl[i] + h.size[h.fl[i]] < h.fl[i + 1]
  }

  ghost predicate Coalesced(h: Heap) {
    forall i :: 0 <= i < |h.fl| ==> Apart(h, i)
  }

  ghost predicate Ok(h: Heap) {
    Ring(h) && Partition(h) && Coalesced(h)
  }

  /** Two distinct blocks never overlap. */
  lemma Disjoint(h: Heap, a: nat, b: nat)
    requires Partition(h) && IsBlock(h, a) && IsBlock(h, b) && a < b
    ensures a + h.size[a] <= b
  {
    assert Covers(h, a) && Covers(h, b);
    assert b in h.home && h.home[b] == b;
  }

  /** Only the first unit of a block has itself as home. */
  lemma NotBlock(h: Heap, q: nat)
    requires Ring(h) && Partition(h) && q != h.base && (q in h.home ==> h.home[q] != q)
    ensures q !in h.fl && q !in h.live
  {
    if IsBlock(h, q) {
      BlockHome(h, q);
    }
  }

  lemma BlockHome(h: Heap, b: nat)
    requires Partition(h) && IsBlock(h, b)
    ensures b in h.home && h.home[b] == b
  {
    assert Covers(h, b);
  }

  // ---------- sequences of addresses ----------

  predicate Ascending(s: seq<nat>) {
    forall i, j :: 0 <= i < j < |s| ==> s[i] < s[j]
  }

  function Added(s: seq<nat>, k: nat, b: nat): (r: seq<nat>)
    requires k < |s|
    ensures |r| == |s| + 1
    ensures forall i :: 0 <= i < |r| ==> r[i] == if i <= k then s[i] else if i == k + 1 then b else s[i - 1]
  {
    s[..k + 1] + [b] + s[k + 1..]
  }

  function Removed(s: seq<nat>, k: nat): (r: seq<nat>)
    requires k < |s|
    ensures |r| == |s| - 1
    ensures forall i :: 0 <= i < |r| ==> r[i] == if i < k then s[i] else s[i + 1]
  {
    s[..k] + s[k + 1..]
  }

  lemma AddedAscending(s: seq<nat>, k: nat, b: nat)
    requires k < |s| && Ascending(s) && s[k] < b && (k + 1 < |s| ==> b < s[k + 1])
    ensures Ascending(Added(s, k, b))
  {
  }

  lemma RemovedAscending(s: seq<nat>, k: nat)
    requires k < |s| && Ascending(s)
    ensures Ascending(Removed(s, k))
  {
  }

  lemma AddedMembers(s: seq<nat>, k: nat, b: nat)
    requires k < |s|
    ensures forall x :: x in Added(s, k, b) <==> x in s || x == b
  {
    var r := Added(s, k, b);
    hide Added;
    forall x
      ensures x in r <==> x in s || x == b
    {
      if x in s {
        var i :| 0 <= i < |s| && s[i] == x;
        assert r[if i <= k then i else i + 1] == x;
      }
      assert r[k + 1] == b;
    }
  }

  lemma RemovedMembers(s: seq<nat>, k: nat)
    requires k < |s| && Ascending(s)
    ensures forall x :: x in Removed(s, k) <==> x in s && x != s[k]
  {
    var r := Removed(s, k);
    hide Removed;
    forall x
      ensures x in r <==> x in s && x != s[k]
    {
      if x in s && x != s[k] {
        var i :| 0 <= i < |s| && s[i] == x;
        assert r[if i < k then i else i - 1] == x;
      }
      if x in r {
        var i :| 0 <= i < |r| && r[i] == x;
        assert s[if i < k then i else i + 1] == x;
      }
    }
  }

  // ---------- giving a block back: put it in place, then merge neighbours ----------

  /** Handed-out block `b` becomes the free block after position `k`. */
  function Insert(h: Heap, k: nat, b: nat): Heap
    requires k < |h.fl| && h.fl[k] in h.ptr
  {
    var p := h.fl[k];
    h.(ptr := h.ptr[b := h.ptr[p]][p := b], fl := Added(h.fl, k, b), live := h.live - {b})
  }

  /** Free block `k` swallows the free block after it. */
  function Merge(h: Heap, k: nat): Heap
    requires k + 1 < |h.fl| && h.fl[k] in h.size && h.fl[k + 1] in h.size && h.fl[k + 1] in h.ptr
  {
    var p, b := h.fl[k], h.fl[k + 1];
    h.(ptr := h.ptr[p := h.ptr[b]], size := h.size[p := h.size[p] + h.size[b]], fl := Removed(h.fl, k + 1),
       home := map u | u in h.home :: if h.home[u] == b then p else h.home[u])
  }

  ghost predicate Place(h: Heap, k: nat, b: nat) {
    k < |h.fl| && h.fl[k] < b && (k + 1 < |h.fl| ==> b < h.fl[k + 1])
  }

  /** A block that belongs between two list entries is not an entry. */
  lemma NotInPlace(h: Heap, k: nat, b: nat)
    requires Ring(h) && Place(h, k, b)
    ensures b !in h.fl && forall i :: 0 <= i < |h.fl| && i != k ==> h.fl[i] != h.fl[k]
  {
    forall i | 0 <= i < |h.fl|
      ensures h.fl[i] != b
    {
      if i <= k {
        assert h.fl[i] <= h.fl[k];
      } else {
        assert h.fl[k + 1] <= h.fl[i];
      }
    }
  }

  lemma InsertedLink(h: Heap, k: nat, b: nat, i: nat)
    requires Ring(h) && Place(h, k, b) && i <= |h.fl| && b !in h.fl
    requires forall j :: 0 <= j < |h.fl| && j != k ==> h.fl[j] != h.fl[k]
    ensures i < |Insert(h, k, b).fl| && Linked(Insert(h, k, b), i)
  {
    assert Linked(h, k);
    hide Ascending;
    if i <= k {
      assert Linked(h, i);
    } else if i > k + 1 {
      assert Linked(h, i - 1);
    }
  }

  lemma InsertRing(h: Heap, k: nat, b: nat)
    requires Ring(h) && b in h.size && Place(h, k, b)
    ensures Ring(Insert(h, k, b))
  {
    var g := Insert(h, k, b);
    AddedAscending(h.fl, k, b);
    assert g.fl == Added(h.fl, k, b);
    NotInPlace(h, k, b);
    hide Added, Ascending;
    forall i | 0 <= i < |g.fl|
      ensures Linked(g, i)
    {
      InsertedLink(h, k, b, i);
    }
  }

  lemma InsertPartition(h: Heap, k: nat, b: nat)
    requires Ring(h) && Partition(h) && b in h.live && Place(h, k, b)
    ensures Partition(Insert(h, k, b))
  {
    var g := Insert(h, k, b);
    assert IsBlock(h, b);
    AddedMembers(h.fl, k, b);
    hide Added, Ring;
    forall x | IsBlock(g, x)
      ensures Covers(g, x)
    {
      assert IsBlock(h, x);
      assert Covers(h, x);
    }
    forall u | u in g.home
      ensures IsBlock(g, g.home[u]) && g.home[u] <= u < g.home[u] + g.size[g.home[u]]
    {
      assert IsBlock(h, h.home[u]);
    }
  }

  lemma MergeRing(h: Heap, k: nat)
    requires Ring(h) && 0 < k && k + 1 < |h.fl|
    ensures Ring(Merge(h, k))
  {
    var g := Merge(h, k);
    RemovedAscending(h.fl, k + 1);
    assert g.fl == Removed(h.fl, k + 1);
    assert h.fl[k] != h.fl[k + 1] && forall i :: 0 <= i < |h.fl| && i != k ==> h.fl[i] != h.fl[k];
    assert h.fl[0] < h.fl[k];
    hide Removed, Ascending;
    forall i | 0 <= i < |g.fl|
      ensures Linked(g, i)
    {
      if i < k {
        assert Linked(h, i);
      } else if i > k {
        assert Linked(h, i + 1);
      } else {
        assert Linked(h, k) && Linked(h, k + 1);
      }
    }
  }

  lemma MergePartition(h: Heap, k: nat)
    requires Ring(h) && Partition(h) && 0 < k && k + 1 < |h.fl|
    requires h.fl[k] + h.size[h.fl[k]] == h.fl[k + 1]
    ensures Partition(Merge(h, k)) && Merge(h, k).home.Keys == h.home.Keys
  {
    var p, b := h.fl[k], h.fl[k + 1];
    assert p in h.fl && b in h.fl && h.base < p < b;
    RemovedMembers(h.fl, k + 1);
    MergeBlocks(h, k, p, b);
  }

  /** Two touching free blocks read as one. */
  lemma MergeBlocks(h: Heap, k: nat, p: nat, b: nat)
    requires Partition(h) && k + 1 < |h.fl| && p == h.fl[k] && b == h.fl[k + 1] && h.base < p < b
    requires p in h.size && b in h.size && b in h.ptr && p + h.size[p] == b
    requires forall x :: x in Removed(h.fl, k + 1) <==> x in h.fl && x != b
    ensures Partition(Merge(h, k)) && Merge(h, k).home.Keys == h.home.Keys
  {
    var g := Merge(h, k);
    assert g.fl == Removed(h.fl, k + 1);
    assert IsBlock(h, p) && IsBlock(h, b);
    hide Removed, Merge, Covers;
    forall x | IsBlock(g, x)
      ensures Covers(g, x)
    {
      MergedCovers(h, k, p, b, x);
    }
    forall u | u in g.home
      ensures IsBlock(g, g.home[u]) && g.home[u] <= u < g.home[u] + g.size[g.home[u]]
    {
      MergedHome(h, k, p, b, u);
    }
    MergedLive(h, k, p, b);
  }

  lemma MergedCovers(h: Heap, k: nat, p: nat, b: nat, x: nat)
    requires Partition(h) && k + 1 < |h.fl| && p == h.fl[k] && b == h.fl[k + 1] && IsBlock(h, p) && IsBlock(h, b)
    requires h.base < p < b && b in h.ptr && p + h.size[p] == b
    requires forall y :: y in Merge(h, k).fl <==> y in h.fl && y != b
    requires IsBlock(Merge(h, k), x)
    ensures Covers(Merge(h, k), x)
  {
    hide Removed;
    assert Covers(h, p) && Covers(h, b);
    assert IsBlock(h, x);
    assert Covers(h, x);
  }

  lemma MergedHome(h: Heap, k: nat, p: nat, b: nat, u: nat)
    requires Partition(h) && k + 1 < |h.fl| && p == h.fl[k] && b == h.fl[k + 1] && IsBlock(h, p) && IsBlock(h, b)
    requires h.base < p < b && b in h.ptr && p + h.size[p] == b
    requires forall y :: y in Merge(h, k).fl <==> y in h.fl && y != b
    requires u in h.home
    ensures var g := Merge(h, k);
      u in g.home && IsBlock(g, g.home[u]) && g.home[u] <= u < g.home[u] + g.size[g.home[u]]
  {
    hide Removed, Covers;
    assert IsBlock(h, h.home[u]);
  }

  lemma MergedLive(h: Heap, k: nat, p: nat, b: nat)
    requires Partition(h) && k + 1 < |h.fl| && p == h.fl[k] && b == h.fl[k + 1] && IsBlock(h, p) && IsBlock(h, b)
    requires b in h.ptr && forall y :: y in Merge(h, k).fl <==> y in h.fl && y != b
    ensures var g := Merge(h, k);
      g.home.Keys == h.home.Keys && forall x :: x in g.live ==> x in g.size && g.size[x] == g.live[x] && x !in g.fl
  {
    hide Removed, Covers;
  }

  lemma MergeApart(h: Heap, k: nat, i: nat)
    requires Ring(h) && k + 1 < |h.fl| && i + 1 < |h.fl|
    requires h.fl[k] + h.size[h.fl[k]] == h.fl[k + 1]
    requires if i < k then Apart(h, i) else Apart(h, i + 1)
    ensures Apart(Merge(h, k), i)
  {
  }

  /** The heap after `free`: put in place, then merged to the right and to the left. */
  function Freed(h: Heap, k: nat, b: nat): Heap
    requires Ring(h) && b in h.size && Place(h, k, b)
  {
    InsertRing(h, k, b);
    var h1 := Insert(h, k, b);
    var right := k + 1 < |h.fl| && b + h.size[b] == h.fl[k + 1];
    var h2 := if right then Merge(h1, k + 1) else h1;
    assert right ==> Ring(h2) by {
      if right {
        MergeRing(h1, k + 1);
      }
    }
    if h.fl[k] + h.size[h.fl[k]] == b then Merge(h2, k) else h2
  }

  lemma FreeOk(h: Heap, k: nat, b: nat)
    requires Ok(h) && b in h.live && b in h.size && Place(h, k, b)
    ensures var g := Freed(h, k, b);
      Ok(g) && g.live == h.live - {b} && g.home.Keys == h.home.Keys && g.base == h.base
      && h.fl[k] in g.fl
      && exists m :: 0 <= m < |g.fl| && g.fl[m] <= b && b + h.size[b] <= g.fl[m] + g.size[g.fl[m]]
  {
    var h1 := Insert(h, k, b);
    var right := k + 1 < |h.fl| && b + h.size[b] == h.fl[k + 1];
    var h2 := if right then Merge(h1, k + 1) else h1;
    InsertRing(h, k, b);
    InsertPartition(h, k, b);
    InsertApart(h, k, b);
    RightOk(h1, k, right);
    LeftOk(h2, k, b, h.size[b]);
  }

  /** Between putting `b` in place and the merges only the two gaps at `b` are open. */
  ghost predicate ApartBut(h: Heap, i: nat, j: nat) {
    forall m :: 0 <= m < |h.fl| && m != i && m != j ==> Apart(h, m)
  }

  lemma InsertApart(h: Heap, k: nat, b: nat)
    requires Ok(h) && b in h.live && Place(h, k, b)
    ensures var g := Insert(h, k, b);
      ApartBut(g, k, k + 1) && h.fl[k] + h.size[h.fl[k]] <= b
      && (k + 1 < |h.fl| ==> b + h.size[b] <= h.fl[k + 1])
  {
    var g := Insert(h, k, b);
    assert g.fl == Added(h.fl, k, b);
    assert IsBlock(h, b);
    assert Covers(h, b);
    if k > 0 {
      assert h.fl[k] in h.fl && h.fl[0] < h.fl[k];
      Disjoint(h, h.fl[k], b);
    }
    if k + 1 < |h.fl| {
      assert h.fl[k + 1] in h.fl && h.fl[0] < h.fl[k + 1];
      Disjoint(h, b, h.fl[k + 1]);
    }
    forall m | 0 <= m < |g.fl| && m != k && m != k + 1
      ensures Apart(g, m)
    {
      assert Apart(h, if m < k then m else m - 1);
    }
  }

  lemma RightOk(h: Heap, k: nat, right: bool)
    requires Ring(h) && Partition(h) && ApartBut(h, k, k + 1) && k + 1 < |h.fl|
    requires right <==> k + 2 < |h.fl| && h.fl[k + 1] + h.size[h.fl[k + 1]] == h.fl[k + 2]
    requires k + 2 < |h.fl| ==> h.fl[k + 1] + h.size[h.fl[k + 1]] <= h.fl[k + 2]
    ensures var g := if right then Merge(h, k + 1) else h;
      Ring(g) && Partition(g) && ApartBut(g, k, k) && k + 1 < |g.fl| && g.home.Keys == h.home.Keys
      && g.fl[k] == h.fl[k] && g.fl[k + 1] == h.fl[k + 1] && g.size[g.fl[k]] == h.size[h.fl[k]]
      && g.size[g.fl[k + 1]] >= h.size[h.fl[k + 1]] && g.live == h.live
  {
    if right {
      RightMerged(h, k);
    } else {
      forall m | 0 <= m < |h.fl| && m != k
        ensures Apart(h, m)
      {
      }
    }
    hide Ring, Partition, ApartBut, Removed;
  }

  lemma RightMerged(h: Heap, k: nat)
    requires Ring(h) && Partition(h) && ApartBut(h, k, k + 1)
    requires k + 2 < |h.fl| && h.fl[k + 1] + h.size[h.fl[k + 1]] == h.fl[k + 2]
    ensures var g := Merge(h, k + 1);
      Ring(g) && Partition(g) && ApartBut(g, k, k) && k + 1 < |g.fl| && g.home.Keys == h.home.Keys
      && g.fl[k] == h.fl[k] && g.fl[k + 1] == h.fl[k + 1] && g.size[g.fl[k]] == h.size[h.fl[k]]
      && g.size[g.fl[k + 1]] >= h.size[h.fl[k + 1]] && g.live == h.live
  {
    MergeRing(h, k + 1);
    MergePartition(h, k + 1);
    MergedRight(h, k);
    MergedApart(h, k);
    hide *;
  }

  lemma MergedRight(h: Heap, k: nat)
    requires Ring(h) && Partition(h) && k + 2 < |h.fl|
    ensures var g := Merge(h, k + 1);
      && k + 1 < |g.fl| && g.fl[k] == h.fl[k] && g.fl[k + 1] == h.fl[k + 1] && g.live == h.live
      && g.fl[k] in g.size && g.fl[k + 1] in g.size
      && g.size[g.fl[k]] == h.size[h.fl[k]] && g.size[g.fl[k + 1]] >= h.size[h.fl[k + 1]]
  {
    assert h.fl[k] != h.fl[k + 1];
    hide Partition, Linked, Ascending;
  }

  lemma MergedApart(h: Heap, k: nat)
    requires Ring(h) && ApartBut(h, k, k + 1) && k + 2 < |h.fl| && h.fl[k + 1] + h.size[h.fl[k + 1]] == h.fl[k + 2]
    ensures ApartBut(Merge(h, k + 1), k, k)
  {
    hide Linked, Ascending;
    var g := Merge(h, k + 1);
    forall m | 0 <= m < |g.fl| && m != k
      ensures Apart(g, m)
    {
      if m + 1 < |g.fl| {
        assert if m < k + 1 then Apart(h, m) else Apart(h, m + 1);
        MergeApart(h, k + 1, m);
      }
    }
  }

  lemma LeftOk(h: Heap, k: nat, b: nat, n: nat)
    requires Ring(h) && Partition(h) && ApartBut(h, k, k) && k + 1 < |h.fl| && h.fl[k + 1] == b && n <= h.size[b]
    requires h.fl[k] + h.size[h.fl[k]] <= b
    ensures var g := if h.fl[k] + h.size[h.fl[k]] == b then Merge(h, k) else h;
      Ok(g) && g.home.Keys == h.home.Keys && g.live == h.live && g.base == h.base && h.fl[k] in g.fl
      && exists m :: 0 <= m < |g.fl| && g.fl[m] <= b && b + n <= g.fl[m] + g.size[g.fl[m]]
  {
    if h.fl[k] + h.size[h.fl[k]] == b {
      assert k > 0 by {
        assert h.fl[0] < h.fl[k + 1];
      }
      MergeRing(h, k);
      MergePartition(h, k);
      var g := Merge(h, k);
      assert g.fl == Removed(h.fl, k + 1);
      assert g.fl[k] == h.fl[k];
      forall m | 0 <= m < |g.fl|
        ensures Apart(g, m)
      {
        if m + 1 < |g.fl| {
          assert if m < k then Apart(h, m) else Apart(h, m + 1);
          MergeApart(h, k, m);
        }
      }
    } else {
      assert h.fl[k] in h.fl;
      forall m | 0 <= m < |h.fl|
        ensures Apart(h, m)
      {
      }
    }
  }

  // ---------- handing a block out ----------

  /** Free block `i` fits exactly: unlink it. */
  function Unlink(h: Heap, i: nat): Heap
    requires 0 < i < |h.fl| && h.fl[i] in h.ptr && h.fl[i] in h.size
  {
    var b := h.fl[i];
    h.(ptr := h.ptr[h.fl[i - 1] := h.ptr[b]], fl := Removed(h.fl, i), live := h.live[b := h.size[b]])
  }

  /** Free block `i` is larger: its last `n` units become a block of their own. */
  function Carve(h: Heap, i: nat, n: nat): Heap
    requires i < |h.fl| && h.fl[i] in h.size && n < h.size[h.fl[i]]
  {
    var p := h.fl[i];
    var q := p + h.size[p] - n;
    h.(size := h.size[p := h.size[p] - n][q := n], live := h.live[q := n],
       home := map u | u in h.home :: if q <= u < q + n then q else h.home[u])
  }

  /** `nu` fresh units from the system at `a`, as a handed-out block (about to be freed). */
  function Extend(h: Heap, a: nat, nu: nat): Heap {
    h.(size := h.size[a := nu], live := h.live[a := nu],
       home := map u | u in h.home.Keys + Units(a, nu) :: if a <= u < a + nu then a else h.home[u])
  }

  function Units(a: nat, n: nat): (s: set<nat>)
    ensures forall u :: u in s <==> a <= u < a + n
  {
    if n == 0 then {} else Units(a, n - 1) + {a + n - 1}
  }

  lemma UnlinkOk(h: Heap, i: nat)
    requires Ok(h) && 0 < i < |h.fl|
    ensures var g := Unlink(h, i);
      Ok(g) && g.live == h.live[h.fl[i] := h.size[h.fl[i]]] && h.fl[i] !in h.live && h.fl[i - 1] in g.fl
  {
    var b := h.fl[i];
    assert b in h.fl && h.fl[0] < b;
    RemovedMembers(h.fl, i);
    UnlinkRing(h, i);
    UnlinkBlocks(h, i, b);
    UnlinkApart(h, i);
  }

  lemma UnlinkRing(h: Heap, i: nat)
    requires Ring(h) && 0 < i < |h.fl|
    ensures Ring(Unlink(h, i)) && h.fl[i - 1] in Unlink(h, i).fl
  {
    var g := Unlink(h, i);
    RemovedAscending(h.fl, i);
    assert g.fl == Removed(h.fl, i);
    assert h.fl[i - 1] == g.fl[i - 1];
    assert forall m :: 0 <= m < |h.fl| && m != i - 1 ==> h.fl[m] != h.fl[i - 1];
    hide Removed, Ascending;
    forall m | 0 <= m < |g.fl|
      ensures Linked(g, m)
    {
      if m < i - 1 {
        assert Linked(h, m);
      } else if m == i - 1 {
        assert Linked(h, i);
      } else {
        assert Linked(h, m + 1);
      }
    }
  }

  lemma UnlinkApart(h: Heap, i: nat)
    requires Ring(h) && Coalesced(h) && 0 < i < |h.fl|
    ensures Coalesced(Unlink(h, i))
  {
    var g := Unlink(h, i);
    assert g.fl == Removed(h.fl, i);
    hide Removed, Linked;
    forall m | 0 <= m < |g.fl|
      ensures Apart(g, m)
    {
      if m + 1 < |g.fl| {
        assert Apart(h, m) && Apart(h, m + 1);
      }
    }
  }

  lemma UnlinkBlocks(h: Heap, i: nat, b: nat)
    requires Partition(h) && 0 < i < |h.fl| && b == h.fl[i] && b in h.size && b in h.ptr && b != h.base && b in h.fl
    requires forall x :: x in Removed(h.fl, i) <==> x in h.fl && x != b
    ensures Partition(Unlink(h, i)) && b !in h.live
  {
    var g := Unlink(h, i);
    hide Removed;
    forall x | IsBlock(g, x)
      ensures Covers(g, x)
    {
      assert IsBlock(h, x);
      assert Covers(h, x);
    }
    forall u | u in g.home
      ensures IsBlock(g, g.home[u]) && g.home[u] <= u < g.home[u] + g.size[g.home[u]]
    {
      assert IsBlock(h, h.home[u]);
    }
  }

  lemma CarveOk(h: Heap, i: nat, n: nat)
    requires Ok(h) && 0 < i < |h.fl| && 0 < n < h.size[h.fl[i]]
    ensures var g := Carve(h, i, n); var q := h.fl[i] + h.size[h.fl[i]] - n;
      Ok(g) && q !in h.live && g.home.Keys == h.home.Keys && g.fl == h.fl
  {
    var g := Carve(h, i, n);
    var p := h.fl[i];
    var q := p + h.size[p] - n;
    assert p in h.fl && h.fl[0] < p;
    assert IsBlock(h, p);
    assert Covers(h, p);
    assert h.home[q] == p;
    NotBlock(h, q);
    CarveBlocks(h, i, n, p, q);
    CarveRing(h, i, n, q);
  }

  lemma CarveRing(h: Heap, i: nat, n: nat, q: nat)
    requires Ring(h) && Coalesced(h) && 0 < i < |h.fl| && 0 < n < h.size[h.fl[i]]
    requires q == h.fl[i] + h.size[h.fl[i]] - n && q !in h.fl
    ensures Ring(Carve(h, i, n)) && Coalesced(Carve(h, i, n))
  {
    var g := Carve(h, i, n);
    forall m | 0 <= m < |g.fl|
      ensures Linked(g, m) && Apart(g, m)
    {
      assert Linked(h, m) && Apart(h, m);
    }
  }

  lemma CarveBlocks(h: Heap, i: nat, n: nat, p: nat, q: nat)
    requires Partition(h) && i < |h.fl| && p == h.fl[i] && p in h.size && p in h.fl && p > h.base && 0 < n < h.size[p]
    requires q == p + h.size[p] - n && q !in h.fl && q !in h.live
    ensures Partition(Carve(h, i, n)) && Carve(h, i, n).home.Keys == h.home.Keys
  {
    var g := Carve(h, i, n);
    assert IsBlock(h, p);
    assert Covers(h, p);
    hide Covers;
    forall x | IsBlock(g, x)
      ensures Covers(g, x)
    {
      CarvedCovers(h, i, n, p, q, x);
    }
    forall u | u in g.home
      ensures IsBlock(g, g.home[u]) && g.home[u] <= u < g.home[u] + g.size[g.home[u]]
    {
      assert IsBlock(h, h.home[u]);
    }
  }

  lemma CarvedCovers(h: Heap, i: nat, n: nat, p: nat, q: nat, x: nat)
    requires Partition(h) && i < |h.fl| && p == h.fl[i] && IsBlock(h, p) && p > h.base && 0 < n < h.size[p]
    requires q == p + h.size[p] - n && q !in h.fl && q !in h.live && IsBlock(Carve(h, i, n), x)
    ensures Covers(Carve(h, i, n), x)
  {
    assert Covers(h, p);
    if x != q {
      assert IsBlock(h, x);
      assert Covers(h, x);
    }
  }

  /** Fresh memory above `base` that overlaps nothing obtained before. */
  ghost predicate Fresh(h: Heap, a: nat, nu: nat) {
    a > h.base && nu > 0 && forall u :: a <= u < a + nu ==> u !in h.home
  }

  lemma ExtendOk(h: Heap, a: nat, nu: nat)
    requires Ok(h) && Fresh(h, a, nu)
    ensures var g := Extend(h, a, nu);
      Ok(g) && a !in h.live && g.home.Keys == h.home.Keys + Units(a, nu)
  {
    var g := Extend(h, a, nu);
    NotBlock(h, a);
    ExtendBlocks(h, a, nu);
    forall m | 0 <= m < |g.fl|
      ensures Linked(g, m) && Apart(g, m)
    {
      assert Linked(h, m) && Apart(h, m);
    }
  }

  lemma ExtendBlocks(h: Heap, a: nat, nu: nat)
    requires Partition(h) && Fresh(h, a, nu) && a !in h.fl && a !in h.live
    ensures Partition(Extend(h, a, nu))
  {
    var g := Extend(h, a, nu);
    hide Covers;
    forall x | IsBlock(g, x)
      ensures Covers(g, x)
    {
      ExtendedCovers(h, a, nu, x);
    }
    forall u | u in g.home
      ensures IsBlock(g, g.home[u]) && g.home[u] <= u < g.home[u] + g.size[g.home[u]]
    {
      if !(a <= u < a + nu) {
        assert IsBlock(h, h.home[u]);
      }
    }
  }

  lemma ExtendedCovers(h: Heap, a: nat, nu: nat, x: nat)
    requires Partition(h) && Fresh(h, a, nu) && a !in h.fl && a !in h.live && IsBlock(Extend(h, a, nu), x)
    ensures Covers(Extend(h, a, nu), x)
  {
    if x != a {
      assert IsBlock(h, x);
      assert Covers(h, x);
    }
  }

  /** Where a block belongs in the list. */
  lemma {:induction false} PlaceExists(h: Heap, b: nat, j: nat) returns (k: nat)
    requires Ring(h) && b > h.base && b !in h.fl && j < |h.fl| && h.fl[j] < b
    ensures Place(h, k, b)
    decreases |h.fl| - j
  {
    if j + 1 < |h.fl| && h.fl[j + 1] < b {
      k := PlaceExists(h, b, j + 1);
    } else {
      assert j + 1 < |h.fl| ==> h.fl[j + 1] in h.fl;
      k := j;
    }
  }
}
