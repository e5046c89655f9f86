/** The buffer list itself: `prev` and `next` links among the buffers and the list head,
    kept as one circle in release order by `binit`, `bget` and `brelse`. */
module BufferList {
  import opened Options
  import opened Words
  import opened Recency
  import opened Buffers

  const HEAD: nat := 10
  const UNUSED: Key := Key(0xFFFF_FFFF, 0)

  /** The circle: the head, the buffers in order, the head again. */
  function At(order: seq<nat>, i: nat): nat
    requires i <= |order| + 1
  {
    if 1 <= i <= |order| then order[i - 1] else HEAD
  }

  ghost predicate JoinedAt(next: seq<nat>, prev: seq<nat>, order: seq<nat>, i: nat)
    requires i <= |order|
  {
    && At(order, i) < |next| && next[At(order, i)] == At(order, i + 1)
    && At(order, i + 1) < |prev| && prev[At(order, i + 1)] == At(order, i)
  }

  /** Both link fields run through exactly the buffers of `order`, once each. */
  ghost predicate Circle(next: seq<nat>, prev: seq<nat>, order: seq<nat>) {
    && |next| == |prev| == NBUF + 1 && Distinct(order)
    && (forall b :: b in order ==> b < NBUF)
    && forall i :: 0 <= i <= |order| ==> JoinedAt(next, prev, order, i)
  }

  /** The circle passes the head only at its ends and no buffer twice. */
  lemma AtFacts(order: seq<nat>)
    requires Distinct(order) && forall b :: b in order ==> b < NBUF
    ensures forall i :: 0 <= i <= |order| + 1 ==> (At(order, i) == HEAD <==> i == 0 || i == |order| + 1)
    ensures forall i :: 1 <= i <= |order| ==> At(order, i) in order
    ensures forall i, j :: 1 <= i < j <= |order| + 1 ==> At(order, i) != At(order, j)
  {
    forall i | 1 <= i <= |order|
      ensures At(order, i) in order
    {
      assert order[i - 1] in order;
    }
  }

  /** Linking a buffer in behind the head. */
  lemma LinkCircle(next: seq<nat>, prev: seq<nat>, order: seq<nat>, b: nat)
    requires Circle(next, prev, order) && b < NBUF && b !in order
    ensures next[HEAD] < |prev|
    ensures Circle(next[b := next[HEAD]][HEAD := b], prev[b := HEAD][next[HEAD] := b], [b] + order)
  {
    assert JoinedAt(next, prev, order, 0);
    AtFacts(order);
    var next1, prev1 := next[b := next[HEAD]][HEAD := b], prev[b := HEAD][next[HEAD] := b];
    var longer := [b] + order;
    forall i | 0 <= i <= |longer|
      ensures JoinedAt(next1, prev1, longer, i)
    {
      if i > 0 {
        assert JoinedAt(next, prev, order, i - 1);
      }
    }
  }

  /** Unlinking the buffer at position `k`. */
  lemma UnlinkCircle(next: seq<nat>, prev: seq<nat>, order: seq<nat>, k: nat)
    requires Circle(next, prev, order) && k < |order|
    ensures var b := order[k];
      b < NBUF && next[b] < |prev| && prev[b] < |next|
      && Circle(next[prev[b] := next[b]], prev[next[b] := prev[b]], order[..k] + order[k + 1..])
  {
    var b := order[k];
    AtFacts(order);
    assert At(order, k + 1) == b;
    assert JoinedAt(next, prev, order, k) && JoinedAt(next, prev, order, k + 1);
    var next1, prev1 := next[prev[b] := next[b]], prev[next[b] := prev[b]];
    var shorter := order[..k] + order[k + 1..];
    WithoutAt(order, k);
    WithoutDistinct(order, b);
    forall i | 0 <= i <= |shorter|
      ensures JoinedAt(next1, prev1, shorter, i)
    {
      assert JoinedAt(next, prev, order, i) && JoinedAt(next, prev, order, i + 1);
      assert At(shorter, i) == At(order, if i <= k then i else i + 1);
      assert At(shorter, i + 1) == At(order, if i < k then i + 1 else i + 2);
    }
  }

  /** What one pass of `bget` under the lock comes to. */
  datatype Got = Have(b: nat) | SleepOn(b: nat) | NoBuffers

  function Chosen(order: seq<nat>, bufs: seq<Buf>, key: Key): Got {
    var hit := HitIn(order, bufs, key);
    if hit.Some? then (if bufs[hit.value].busy then SleepOn(hit.value) else Have(hit.value))
    else
      var free := VictimIn(order, bufs);
      if free.Some? then Have(free.value) else NoBuffers
  }

  function Marked(bufs: seq<Buf>, b: nat, p: nat, key: Key): Buf
    requires b < |bufs|
  {
    if bufs[b].key == key then Reused(bufs[b], p) else Recycled(bufs[b], p, key)
  }

  /** The concurrent machine takes exactly this decision in its scan. */
  lemma ScanIsBget(s: State, p: nat)
    requires p < |s.procs| && s.procs[p].op.Get?
    ensures var key := s.procs[p].op.key; var got := Chosen(s.order, s.bufs, key);
      && (got.NoBuffers? <==> OutOfBuffers(s, key))
      && (got.Have? ==> got.b < |s.bufs| && ScanNext(s, p).bufs == s.bufs[got.b := Marked(s.bufs, got.b, p, key)])
      && (got.SleepOn? ==> ScanNext(s, p) == SetOp(s, p, GetSleep(key, got.b)))
  {
  }

  class Bcache {
    const next: array<nat>
    const prev: array<nat>
    const bufs: array<Buf>
    ghost var order: seq<nat>

    ghost predicate Valid()
      reads this, next, prev, bufs
    {
      && next != prev && next.Length == prev.Length == NBUF + 1 && bufs.Length == NBUF
      && Permutation(order, NBUF) && Circle(next[..], prev[..], order)
    }

    /** `binit`: every buffer is linked in behind the head, filed under device -1. */
    constructor (blank: Block)
      ensures Valid() && fresh(next) && fresh(prev) && fresh(bufs)
      ensures order == seq(NBUF, (i: nat) => NBUF - 1 - i)
      ensures forall b :: 0 <= b < NBUF ==> bufs[b] == Buf(UNUSED, false, false, false, blank, 0)
    {
      next := new nat[NBUF + 1](_ => HEAD);
      prev := new nat[NBUF + 1](_ => HEAD);
      bufs := new Buf[NBUF](_ => Buf(UNUSED, false, false, false, blank, 0));
      order := [];
      new;
      assert JoinedAt(next[..], prev[..], order, 0);
      var b := 0;
      while b < NBUF
        invariant b <= NBUF && fresh(next) && fresh(prev) && fresh(bufs)
        invariant order == seq(b, i requires 0 <= i < b => b - 1 - i)
        invariant Circle(next[..], prev[..], order)
        invariant forall c :: 0 <= c < NBUF ==> bufs[c] == Buf(UNUSED, false, false, false, blank, 0)
        invariant next != prev && next.Length == prev.Length == NBUF + 1 && bufs.Length == NBUF
      {
        LinkFront(b);
        b := b + 1;
      }
      forall c | 0 <= c < NBUF
        ensures c in order
      {
        assert order[NBUF - 1 - c] == c;
      }
    }

    method LinkFront(b: nat)
      requires next != prev && Circle(next[..], prev[..], order) && b < NBUF && b !in order
      requires next.Length == prev.Length == NBUF + 1
      modifies this, next, prev
      ensures order == [b] + old(order) && Circle(next[..], prev[..], order)
    {
      LinkCircle(next[..], prev[..], order, b);
      ghost var was: seq<nat>, before: seq<nat> := next[..], prev[..];
      next[b] := next[HEAD];
      prev[b] := HEAD;
      prev[next[HEAD]] := b;
      next[HEAD] := b;
      assert next[..] == was[b := was[HEAD]][HEAD := b];
      assert prev[..] == before[b := HEAD][was[HEAD] := b];
      order := [b] + order;
    }

    /** `brelse`: move the buffer to the front and let it go. */
    method Brelse(b: nat)
      requires Valid() && b < NBUF
      modifies this, next, prev, bufs
      ensures Valid() && order == MoveToFront(old(order), b)
      ensures bufs[..] == old(bufs[..])[b := old(bufs[b]).(busy := false)]
    {
      assert b in order;
      ghost var k :| 0 <= k < |order| && order[k] == b;
      UnlinkCircle(next[..], prev[..], order, k);
      WithoutAt(order, k);
      MoveToFrontPermutes(order, NBUF, b);
      ghost var was: seq<nat>, before: seq<nat> := next[..], prev[..];
      prev[next[b]] := prev[b];
      next[prev[b]] := next[b];
      assert next[..] == was[before[b] := was[b]];
      assert prev[..] == before[was[b] := before[b]];
      order := Without(order, b);
      LinkFront(b);
      bufs[b] := bufs[b].(busy := false);
    }

    /** One pass of `bget` under the lock: look along `next` for the sector, then along `prev`
        for a free buffer. */
    method Bget(p: nat, key: Key) returns (r: Got)
      requires Valid()
      modifies bufs
      ensures Valid() && r == Chosen(order, old(bufs[..]), key)
      ensures r.Have? ==> r.b < NBUF && bufs[..] == old(bufs[..])[r.b := Marked(old(bufs[..]), r.b, p, key)]
      ensures !r.Have? ==> bufs[..] == old(bufs[..])
    {
      ghost var was := bufs[..];
      ghost var i := 1;
      assert JoinedAt(next[..], prev[..], order, 0);
      var b := next[HEAD];
      while b != HEAD
        invariant 1 <= i <= |order| + 1 && b == At(order, i)
        invariant bufs[..] == was && HitIn(order, was, key) == HitIn(order[i - 1..], was, key)
        decreases |order| + 1 - i
      {
        assert b in order;
        if bufs[b].key == key {
          assert HitIn(order[i - 1..], was, key) == Some(b);
          if !bufs[b].busy {
            bufs[b] := Reused(bufs[b], p);
            return Have(b);
          }
          return SleepOn(b);
        }
        assert JoinedAt(next[..], prev[..], order, i);
        assert order[i - 1..][1..] == order[i..];
        b := next[b];
        i := i + 1;
      }
      AtFacts(order);
      assert order[i - 1..] == [];
      assert HitIn(order, was, key).None?;
      r := Recycle(p, key);
    }

    method Recycle(p: nat, key: Key) returns (r: Got)
      requires Valid() && HitIn(order, bufs[..], key).None?
      modifies bufs
      ensures Valid() && r == Chosen(order, old(bufs[..]), key)
      ensures r.Have? ==> r.b < NBUF && bufs[..] == old(bufs[..])[r.b := Marked(old(bufs[..]), r.b, p, key)]
      ensures !r.Have? ==> bufs[..] == old(bufs[..])
    {
      ghost var was := bufs[..];
      ghost var i := |order|;
      assert JoinedAt(next[..], prev[..], order, |order|);
      assert order[..i] == order;
      var b := prev[HEAD];
      while b != HEAD
        invariant 0 <= i <= |order| && b == At(order, i)
        invariant bufs[..] == was && VictimIn(order, was) == VictimIn(order[..i], was)
        decreases i
      {
        assert b in order;
        if !bufs[b].busy {
          assert VictimIn(order[..i], was) == Some(b);
          assert was[b].key != key;
          bufs[b] := Recycled(bufs[b], p, key);
          return Have(b);
        }
        assert JoinedAt(next[..], prev[..], order, i - 1);
        assert order[..i][..i - 1] == order[..i - 1];
        b := prev[b];
        i := i - 1;
      }
      AtFacts(order);
      assert order[..i] == [];
      r := NoBuffers;
    }
  }
}
