/** The exact replacement rule of the buffer cache when each sector is read and released
    before the next one is asked for. */
module ExactLru {
  import opened Options
  import opened Words
  import opened Recency
  import opened Buffers
  import opened BufferList

  /** The cache between two accesses. */
  datatype Contents = Contents(order: seq<nat>, bufs: seq<Buf>)

  ghost predicate AllFree(c: Contents) {
    |c.bufs| == NBUF && Permutation(c.order, NBUF) && forall b :: 0 <= b < NBUF ==> !c.bufs[b].busy
  }

  /** `bread` of a sector, which fills the buffer if it was not cached, then `brelse`. */
  function Access(c: Contents, key: Key, disk: Key -> Block): Contents {
    var got := Chosen(c.order, c.bufs, key);
    if !got.Have? || got.b >= |c.bufs| then c
    else
      var buf := Marked(c.bufs, got.b, 0, key);
      var full := if buf.valid then buf else buf.(valid := true, data := disk(key));
      Contents(MoveToFront(c.order, got.b), c.bufs[got.b := full.(busy := false)])
  }

  ghost function ContentsOf(c: Bcache): Contents
    reads c, c.bufs
  {
    Contents(c.order, c.bufs[..])
  }

  /** The linked list performs exactly this access. */
  method ReadAndRelease(c: Bcache, key: Key, disk: Key -> Block)
    requires c.Valid() && AllFree(ContentsOf(c))
    modifies c, c.next, c.prev, c.bufs
    ensures c.Valid() && ContentsOf(c) == Access(old(ContentsOf(c)), key, disk)
    ensures AllFree(ContentsOf(c))
  {
    SomeBuffer(ContentsOf(c), key);
    var got := c.Bget(0, key);
    if !c.bufs[got.b].valid {
      c.bufs[got.b] := c.bufs[got.b].(valid := true, data := disk(key));
    }
    c.Brelse(got.b);
  }

  lemma SomeBuffer(c: Contents, key: Key)
    requires AllFree(c)
    ensures Chosen(c.order, c.bufs, key).Have?
  {
    assert c.order[0] in c.order;
  }

  function After(c: Contents, h: seq<Key>, disk: Key -> Block): Contents
    decreases |h|
  {
    if h == [] then c else Access(After(c, h[..|h| - 1], disk), h[|h| - 1], disk)
  }

  predicate Hits(c: Contents, key: Key) {
    HitIn(c.order, c.bufs, key).Some?
  }

  /** The cache as `binit` leaves it. */
  ghost predicate Fresh(c: Contents) {
    AllFree(c) && forall b :: 0 <= b < NBUF ==> c.bufs[b].key == UNUSED
  }

  /** Position `i` of the list has the `i`-th most recently released sector. */
  ghost predicate KeyAt(c: Contents, r: seq<Key>, i: nat)
    requires AllFree(c)
  {
    i < NBUF ==> c.order[i] in c.order && c.bufs[c.order[i]].key == if i < |r| then r[i] else UNUSED
  }

  ghost predicate Follows(c: Contents, r: seq<Key>) {
    && AllFree(c) && Distinct(r) && UNUSED !in r
    && forall i :: 0 <= i < NBUF ==> KeyAt(c, r, i)
  }

  lemma HitWhere(c: Contents, r: seq<Key>, key: Key) returns (k: nat)
    requires Follows(c, r) && key != UNUSED
    ensures Hits(c, key) <==> k < NBUF && k < |r| && r[k] == key
    ensures Hits(c, key) ==> HitIn(c.order, c.bufs, key) == Option.Some(c.order[k])
    ensures !Hits(c, key) ==> forall i :: 0 <= i < NBUF && i < |r| ==> r[i] != key
  {
    k := NBUF;
    if Hits(c, key) {
      var b := HitIn(c.order, c.bufs, key).value;
      k :| 0 <= k < |c.order| && c.order[k] == b;
      assert KeyAt(c, r, k);
    } else {
      forall i | 0 <= i < NBUF && i < |r|
        ensures r[i] != key
      {
        assert KeyAt(c, r, i);
      }
    }
  }

  /** With every buffer free, a miss reuses the last one of the list. */
  lemma MissTakesLast(c: Contents, key: Key)
    requires AllFree(c) && !Hits(c, key)
    ensures Chosen(c.order, c.bufs, key) == Have(c.order[NBUF - 1])
  {
    assert c.order[NBUF - 1] in c.order;
  }

  /** One access keeps the correspondence with the recency order. */
  lemma AccessFollows(c: Contents, r: seq<Key>, key: Key, disk: Key -> Block)
    requires Follows(c, r) && key != UNUSED
    ensures Follows(Access(c, key, disk), MoveToFront(r, key))
  {
    var k := HitWhere(c, r, key);
    if !Hits(c, key) {
      MissTakesLast(c, key);
      k := NBUF - 1;
    }
    var b := c.order[k];
    assert b in c.order;
    MoveToFrontPermutes(c.order, NBUF, b);
    WithoutAt(c.order, k);
    MoveToFrontDistinct(r, key);
    if key in r {
      var j :| 0 <= j < |r| && r[j] == key;
      WithoutAt(r, j);
      AccessKeys(c, r, key, disk, k, j);
    } else {
      WithoutAbsent(r, key);
      AccessKeys(c, r, key, disk, k, |r|);
    }
  }

  lemma AccessKeys(c: Contents, r: seq<Key>, key: Key, disk: Key -> Block, k: nat, j: nat)
    requires Follows(c, r) && key != UNUSED && k < NBUF
    requires Chosen(c.order, c.bufs, key) == Have(c.order[k]) && c.order[k] < NBUF
    requires AllFree(Access(c, key, disk))
    requires Without(c.order, c.order[k]) == c.order[..k] + c.order[k + 1..]
    requires if j < |r| then Without(r, key) == r[..j] + r[j + 1..] else j == |r| && Without(r, key) == r
    requires k == j || (k == NBUF - 1 && (j >= NBUF - 1 || j == |r|))
    ensures forall i :: 0 <= i < NBUF ==> KeyAt(Access(c, key, disk), MoveToFront(r, key), i)
  {
    var d, q := Access(c, key, disk), MoveToFront(r, key);
    assert d.order == [c.order[k]] + (c.order[..k] + c.order[k + 1..]);
    assert forall b :: 0 <= b < NBUF ==> d.bufs[b].key == if b == c.order[k] then key else c.bufs[b].key;
    assert q == [key] + (if j < |r| then r[..j] + r[j + 1..] else r);
    hide Access, Chosen, MoveToFront, Without;
    forall i | 0 <= i < NBUF
      ensures KeyAt(d, q, i)
    {
      KeyMoved(c, r, key, k, j, d, q, i);
    }
  }

  /** Position `i` after the buffer at position `k`, and the sector at position `j`, moved to the front. */
  lemma KeyMoved(c: Contents, r: seq<Key>, key: Key, k: nat, j: nat, d: Contents, q: seq<Key>, i: nat)
    requires Follows(c, r) && k < NBUF && AllFree(d) && i < NBUF && j <= |r|
    requires d.order == [c.order[k]] + (c.order[..k] + c.order[k + 1..])
    requires forall b :: 0 <= b < NBUF ==> d.bufs[b].key == if b == c.order[k] then key else c.bufs[b].key
    requires q == [key] + (if j < |r| then r[..j] + r[j + 1..] else r)
    requires k == j || (k == NBUF - 1 && (j >= NBUF - 1 || j == |r|))
    ensures KeyAt(d, q, i)
  {
    var was := if i == 0 then k else if i <= k then i - 1 else i;
    assert KeyAt(c, r, was);
    assert d.order[i] == c.order[was] && d.order[i] in d.order;
    assert i != 0 ==> c.order[was] != c.order[k];
    hide Follows;
    if i != 0 && i < |q| {
      assert q[i] == (if j < |r| then r[..j] + r[j + 1..] else r)[i - 1];
    }
  }

  lemma {:induction false} AfterFollows(c: Contents, h: seq<Key>, disk: Key -> Block)
    requires Fresh(c) && UNUSED !in h
    ensures Follows(After(c, h, disk), ByRecency(h))
    decreases |h|
  {
    if h == [] {
      assert forall i :: 0 <= i < NBUF ==> KeyAt(c, [], i) by {
        forall i | 0 <= i < NBUF
          ensures KeyAt(c, [], i)
        {
          assert c.order[i] in c.order;
        }
      }
    } else {
      AfterFollows(c, h[..|h| - 1], disk);
      AccessFollows(After(c, h[..|h| - 1], disk), ByRecency(h[..|h| - 1]), h[|h| - 1], disk);
    }
  }

  /** A sector is found in the cache if and only if it was released before and fewer than NBUF
      other sectors have been released since. */
  lemma HitExactly(c: Contents, h: seq<Key>, key: Key, disk: Key -> Block)
    requires Fresh(c) && UNUSED !in h && key != UNUSED
    ensures Hits(After(c, h, disk), key) <==> key in h && |Since(h, key)| < NBUF
  {
    var r := ByRecency(h);
    AfterFollows(c, h, disk);
    var k := HitWhere(After(c, h, disk), r, key);
    RecencyDistinct(h);
    if key in h {
      BeforeIsSince(h, key);
      var j :| 0 <= j < |r| && r[j] == key;
      BeforeCounts(r, j);
    }
  }
}
