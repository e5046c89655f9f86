/** Calls on a pipe get somewhere: with room, `pipewrite` stores all its bytes; with bytes or
    without writers, `piperead` takes all it can; who must wait sleeps, and every change that
    can end the wait wakes the sleepers. */
module PipeProgress {
  import opened Words
  import opened Pipes

  /** Process `p` takes `n` steps. */
  function Goes(p: nat, n: nat): seq<Step> {
    if n == 0 then [] else [Go(p)] + Goes(p, n - 1)
  }

  lemma GoOne(s: State, p: nat, n: nat)
    requires Enabled(s, Go(p))
    ensures Run(s, Goes(p, n + 1)) == Run(GoNext(s, p), Goes(p, n))
  {
    hide GoNext, Ready;
    assert ([Go(p)] + Goes(p, n))[1..] == Goes(p, n);
  }

  lemma Stopped(s: State, p: nat)
    ensures Run(s, Goes(p, 0)) == [s]
  {
  }

  /** Only process `p` has moved, and sleepers of one side have been woken. */
  predicate ReadersWoken(s: State, t: State, p: nat) {
    && |t.procs| == |s.procs|
    && forall q :: 0 <= q < |s.procs| && q != p ==>
         t.procs[q] == s.procs[q].(op := if s.procs[q].op.RSleep? then RWake(s.procs[q].op.n) else s.procs[q].op)
  }

  predicate WritersWoken(s: State, t: State, p: nat) {
    && |t.procs| == |s.procs|
    && forall q :: 0 <= q < |s.procs| && q != p ==>
         t.procs[q] == s.procs[q].(op := if s.procs[q].op.WSleep? then WWake(s.procs[q].op.bytes, s.procs[q].op.i)
                                         else s.procs[q].op)
  }

  predicate NoOtherMoved(s: State, t: State, p: nat) {
    |t.procs| == |s.procs| && forall q :: 0 <= q < |s.procs| && q != p ==> t.procs[q] == s.procs[q]
  }

  predicate SameEnds(s: State, t: State) {
    t.readopen == s.readopen && t.writeopen == s.writeopen
  }

  // ---------- writing ----------

  /** The writer is at byte `i`, with the lock. */
  predicate Inside(s: State, p: nat, op: Op) {
    p < |s.procs| && s.procs[p].op == op && s.lock == By(p)
  }

  lemma StoreStep(s: State, p: nat, bytes: seq<byte>, i: nat)
    requires Safe(s) && Inside(s, p, WLoop(bytes, i)) && i < |bytes| && |s.sent| < |s.got| + 512
    ensures Enabled(s, Go(p))
    ensures var t := GoNext(s, p);
      && Safe(t) && Inside(t, p, WLoop(bytes, i + 1)) && t.sent == s.sent + [bytes[i]] && t.got == s.got
      && NoOtherMoved(s, t, p) && SameEnds(s, t)
  {
    CountersExact(s);
    StoreSafe(s, p);
    hide Safe;
  }

  lemma {:induction false} StoresAll(s: State, p: nat, bytes: seq<byte>, i: nat, more: nat) returns (t: State)
    requires Safe(s) && Inside(s, p, WLoop(bytes, i)) && i <= |bytes| && |s.sent| + |bytes| - i <= |s.got| + 512
    ensures Run(s, Goes(p, |bytes| - i + more)) == Run(t, Goes(p, more))
    ensures Safe(t) && Inside(t, p, WLoop(bytes, |bytes|)) && t.sent == s.sent + bytes[i..] && t.got == s.got
    ensures NoOtherMoved(s, t, p) && SameEnds(s, t)
    decreases |bytes| - i
  {
    hide Safe, GoNext, Ready, Goes, Run;
    t := s;
    if i < |bytes| {
      StoreStep(s, p, bytes, i);
      var u := GoNext(s, p);
      t := StoresAll(u, p, bytes, i + 1, more);
      GoOne(s, p, |bytes| - i - 1 + more);
      assert bytes[i..] == [bytes[i]] + bytes[i + 1..];
    }
  }

  /** The lock is taken. */
  lemma WriteEnters(s: State, p: nat, bytes: seq<byte>)
    requires Safe(s) && p < |s.procs| && s.procs[p].op == WEnter(bytes) && s.lock == Free
    ensures Enabled(s, Go(p))
    ensures var t := GoNext(s, p);
      && Safe(t) && Inside(t, p, WLoop(bytes, 0)) && t.sent == s.sent && t.got == s.got && NoOtherMoved(s, t, p) && SameEnds(s, t)
  {
    GoSafe(s, p);
    hide Safe;
  }

  lemma WriteEnds(s: State, p: nat, bytes: seq<byte>)
    requires Safe(s) && Inside(s, p, WLoop(bytes, |bytes|))
    ensures Enabled(s, Go(p))
    ensures var t := GoNext(s, p);
      && t.lock == Free && ReadersWoken(s, t, p) && p < |t.procs| && t.procs[p].op == Returned(|bytes|, [])
      && t.sent == s.sent && t.got == s.got && SameEnds(s, t)
  {
  }

  /** With room for its bytes, `pipewrite` stores them all, wakes the readers and returns the count. */
  lemma WriteCompletes(s: State, p: nat, bytes: seq<byte>) returns (t: State)
    requires Safe(s) && p < |s.procs| && s.procs[p].op == WEnter(bytes) && s.lock == Free
    requires |s.sent| + |bytes| <= |s.got| + 512
    ensures Run(s, Goes(p, |bytes| + 2)) == [t]
    ensures t.lock == Free && ReadersWoken(s, t, p) && t.procs[p].op == Returned(|bytes|, [])
    ensures t.sent == s.sent + bytes && t.got == s.got && SameEnds(s, t)
  {
    hide Safe, GoNext, Ready, Goes, Run;
    WriteEnters(s, p, bytes);
    var u := GoNext(s, p);
    GoOne(s, p, |bytes| + 1);
    var v := StoresAll(u, p, bytes, 0, 1);
    WriteEnds(v, p, bytes);
    GoOne(v, p, 0);
    t := GoNext(v, p);
    Stopped(t, p);
    assert bytes[0..] == bytes;
  }

  /** A full pipe: the writer sleeps without the lock and wakes the readers, or gives up when
      nobody can read any more or it was killed. */
  lemma WriteWaits(s: State, p: nat, bytes: seq<byte>, i: nat)
    requires Safe(s) && Inside(s, p, WLoop(bytes, i)) && i < |bytes| && |s.sent| == |s.got| + 512
    ensures Enabled(s, Go(p))
    ensures var t := GoNext(s, p);
      && t.lock == Free && t.sent == s.sent && t.got == s.got && SameEnds(s, t) && p < |t.procs|
      && if s.readopen && !s.procs[p].killed then t.procs[p].op == WSleep(bytes, i) && ReadersWoken(s, t, p)
         else t.procs[p].op == Returned(-1, []) && NoOtherMoved(s, t, p)
  {
    CountersExact(s);
    hide Safe, Full;
  }

  // ---------- reading ----------

  lemma FetchStep(s: State, p: nat, n: nat, out: seq<byte>)
    requires Safe(s) && Inside(s, p, RCopy(n, out)) && |out| < n && |s.got| < |s.sent|
    ensures Enabled(s, Go(p))
    ensures var t := GoNext(s, p);
      && Safe(t) && Inside(t, p, RCopy(n, out + [s.sent[|s.got|]])) && t.sent == s.sent && t.got == s.got + [s.sent[|s.got|]]
      && NoOtherMoved(s, t, p) && SameEnds(s, t)
  {
    CountersExact(s);
    FetchFifo(s, p, n, out);
    FetchSafe(s, p);
    hide Safe, Fifo;
  }

  lemma {:induction false} FetchesAll(s: State, p: nat, n: nat, out: seq<byte>, k: nat, more: nat) returns (t: State)
    requires Safe(s) && Inside(s, p, RCopy(n, out)) && |out| + k <= n && |s.got| + k <= |s.sent|
    ensures Run(s, Goes(p, k + more)) == Run(t, Goes(p, more))
    ensures Safe(t) && Inside(t, p, RCopy(n, out + s.sent[|s.got|..|s.got| + k])) && t.sent == s.sent && |t.got| == |s.got| + k
    ensures NoOtherMoved(s, t, p) && SameEnds(s, t)
    decreases k
  {
    hide Safe, GoNext, Ready, Goes, Run;
    t := s;
    var g := |s.got|;
    if k == 0 {
      assert out + s.sent[g..g] == out;
    } else {
      FetchStep(s, p, n, out);
      var u := GoNext(s, p);
      t := FetchesAll(u, p, n, out + [s.sent[g]], k - 1, more);
      GoOne(s, p, k - 1 + more);
      assert out + [s.sent[g]] + s.sent[g + 1..g + k] == out + s.sent[g..g + k];
    }
  }

  lemma ReadEnters(s: State, p: nat, n: nat)
    requires Safe(s) && p < |s.procs| && s.procs[p].op == REnter(n) && s.lock == Free
    ensures Enabled(s, Go(p))
    ensures var t := GoNext(s, p);
      && Safe(t) && Inside(t, p, RWait(n)) && t.procs[p].killed == s.procs[p].killed && t.sent == s.sent && t.got == s.got
      && NoOtherMoved(s, t, p) && SameEnds(s, t)
  {
    GoSafe(s, p);
    hide Safe;
  }

  lemma ReadGoesOn(s: State, p: nat, n: nat)
    requires Safe(s) && Inside(s, p, RWait(n)) && (|s.got| < |s.sent| || !s.writeopen)
    ensures Enabled(s, Go(p))
    ensures var t := GoNext(s, p);
      && Safe(t) && Inside(t, p, RCopy(n, [])) && t.sent == s.sent && t.got == s.got && NoOtherMoved(s, t, p) && SameEnds(s, t)
  {
    CountersExact(s);
    GoSafe(s, p);
    hide Safe, Empty;
  }

  lemma ReadEnds(s: State, p: nat, n: nat, out: seq<byte>)
    requires Safe(s) && Inside(s, p, RCopy(n, out)) && (|out| == n || |s.got| == |s.sent|)
    ensures Enabled(s, Go(p))
    ensures var t := GoNext(s, p);
      && t.lock == Free && WritersWoken(s, t, p) && p < |t.procs| && t.procs[p].op == Returned(|out|, out)
      && t.sent == s.sent && t.got == s.got && SameEnds(s, t)
  {
    CountersExact(s);
    hide Safe, Empty;
  }

  /** With bytes in the pipe, or nobody to write any, `piperead` takes the next bytes, as many as
      it asked for and there are, wakes the writers and returns them. */
  lemma ReadCompletes(s: State, p: nat, n: nat, k: nat) returns (t: State)
    requires Safe(s) && p < |s.procs| && s.procs[p].op == REnter(n) && s.lock == Free
    requires |s.got| < |s.sent| || !s.writeopen
    requires |s.got| + k <= |s.sent| && k <= n && (k == n || |s.got| + k == |s.sent|)
    ensures Run(s, Goes(p, k + 3)) == [t]
    ensures t.lock == Free && WritersWoken(s, t, p) && t.procs[p].op == Returned(k, s.sent[|s.got|..|s.got| + k])
    ensures t.sent == s.sent && |t.got| == |s.got| + k && SameEnds(s, t)
  {
    hide Safe, Goes, Run, WritersWoken;
    var v := ReadBegins(s, p, n, k + 1);
    t := CopyCompletes(v, p, n, k);
    WokenSince(s, v, t, p);
  }

  lemma ReadBegins(s: State, p: nat, n: nat, more: nat) returns (v: State)
    requires Safe(s) && p < |s.procs| && s.procs[p].op == REnter(n) && s.lock == Free
    requires |s.got| < |s.sent| || !s.writeopen
    ensures Run(s, Goes(p, more + 2)) == Run(v, Goes(p, more))
    ensures Safe(v) && Inside(v, p, RCopy(n, [])) && v.sent == s.sent && v.got == s.got && NoOtherMoved(s, v, p) && SameEnds(s, v)
  {
    hide Safe, GoNext, Ready, Goes, Run;
    ReadEnters(s, p, n);
    var u := GoNext(s, p);
    GoOne(s, p, more + 1);
    ReadGoesOn(u, p, n);
    v := GoNext(u, p);
    GoOne(u, p, more);
  }

  lemma WokenSince(s: State, v: State, t: State, p: nat)
    requires |v.procs| == |s.procs| && (forall q :: 0 <= q < |s.procs| && q != p ==> v.procs[q] == s.procs[q]) && WritersWoken(v, t, p)
    ensures WritersWoken(s, t, p)
  {
  }

  lemma CopyCompletes(s: State, p: nat, n: nat, k: nat) returns (t: State)
    requires Safe(s) && Inside(s, p, RCopy(n, [])) && |s.got| + k <= |s.sent| && k <= n
    requires k == n || |s.got| + k == |s.sent|
    ensures Run(s, Goes(p, k + 1)) == [t]
    ensures t.lock == Free && WritersWoken(s, t, p) && t.procs[p].op == Returned(k, s.sent[|s.got|..|s.got| + k])
    ensures t.sent == s.sent && |t.got| == |s.got| + k && SameEnds(s, t)
  {
    hide Safe, GoNext, Ready, Goes, Run;
    var w := FetchesAll(s, p, n, [], k, 1);
    var out := s.sent[|s.got|..|s.got| + k];
    assert [] + out == out;
    ReadEnds(w, p, n, out);
    GoOne(w, p, 0);
    t := GoNext(w, p);
    Stopped(t, p);
    WokenSince(s, w, t, p);
  }

  /** An empty pipe that can still be written: the reader sleeps without the lock, or gives up if killed. */
  lemma ReadWaits(s: State, p: nat, n: nat)
    requires Safe(s) && Inside(s, p, RWait(n)) && |s.got| == |s.sent| && s.writeopen
    ensures Enabled(s, Go(p))
    ensures var t := GoNext(s, p);
      && t.lock == Free && t.sent == s.sent && t.got == s.got && SameEnds(s, t) && NoOtherMoved(s, t, p) && p < |t.procs|
      && t.procs[p].op == if s.procs[p].killed then Returned(-1, []) else RSleep(n)
  {
    CountersExact(s);
    hide Safe, Empty;
  }

  // ---------- what ends a wait ----------

  /** Closing an end wakes every sleeper of the other one; a kill wakes its victim. */
  lemma ClosingWakes(s: State, q: nat)
    requires q < |s.procs|
    ensures Enabled(s, Close(true)) && s.procs[q].op.RSleep? ==>
              !Next(s, Close(true)).writeopen && Next(s, Close(true)).procs[q].op == RWake(s.procs[q].op.n)
    ensures Enabled(s, Close(false)) && s.procs[q].op.WSleep? ==>
              !Next(s, Close(false)).readopen && Next(s, Close(false)).procs[q].op == WWake(s.procs[q].op.bytes, s.procs[q].op.i)
    ensures var t := Next(s, Kill(q));
      && t.procs[q].killed && (s.procs[q].op.RSleep? ==> t.procs[q].op == RWake(s.procs[q].op.n))
      && (s.procs[q].op.WSleep? ==> t.procs[q].op == WWake(s.procs[q].op.bytes, s.procs[q].op.i))
  {
  }
}
