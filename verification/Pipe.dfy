/** A pipe shared by any number of reading and writing processes: one lock, a ring of 512
    bytes with 32-bit counters that wrap, and two sleep channels. */
module Pipes {
  import opened Words

  const PIPESIZE: nat := 512

  /** Where a process is. Writers: `WEnter` before the lock, `WLoop` at the loop test with the
      lock, `WSleep` asleep on `nwrite`, `WWake` woken but without the lock. Readers alike;
      `RWait` is the test for an empty pipe, `RCopy` the copying loop. */
  datatype Op =
    | Idle
    | Returned(code: int, out: seq<byte>)
    | WEnter(bytes: seq<byte>)
    | WLoop(bytes: seq<byte>, i: nat)
    | WSleep(bytes: seq<byte>, i: nat)
    | WWake(bytes: seq<byte>, i: nat)
    | REnter(n: nat)
    | RWait(n: nat)
    | RSleep(n: nat)
    | RWake(n: nat)
    | RCopy(n: nat, out: seq<byte>)

  datatype Proc = Proc(op: Op, killed: bool)

  datatype Holder = Free | By(p: nat)

  /** `sent` and `got` record every byte ever stored and taken, `who` the writer of each byte stored. */
  datatype State = State(
    data: seq<byte>, nread: word, nwrite: word, readopen: bool, writeopen: bool,
    lock: Holder, procs: seq<Proc>, sent: seq<byte>, who: seq<nat>, got: seq<byte>)

  datatype Step =
    | Write(p: nat, bytes: seq<byte>)
    | Read(p: nat, n: nat)
    | Go(p: nat)
    | Close(writable: bool)
    | Kill(p: nat)

  predicate Full(s: State) {
    s.nwrite as int == (s.nread as int + PIPESIZE) % WORD_LIMIT
  }

  predicate Empty(s: State) {
    s.nread == s.nwrite
  }

  predicate Writing(op: Op) {
    op.WEnter? || op.WLoop? || op.WSleep? || op.WWake?
  }

  predicate Reading(op: Op) {
    op.REnter? || op.RWait? || op.RSleep? || op.RWake? || op.RCopy?
  }

  predicate Outside(op: Op) {
    op.Idle? || op.Returned?
  }

  /** A process waits for the lock, or has it, or is asleep. */
  predicate Ready(s: State, p: nat)
    requires p < |s.procs|
  {
    var op := s.procs[p].op;
    if op.WEnter? || op.WWake? || op.REnter? || op.RWake? then s.lock == Free
    else (op.WLoop? || op.RWait? || op.RCopy?) && s.lock == By(p)
  }

  /** An end can be used only while it is open, and is closed when nobody is inside it:
      a process in a call still has the file open. */
  predicate Enabled(s: State, e: Step) {
    match e
    case Write(p, bytes) => p < |s.procs| && Outside(s.procs[p].op) && s.writeopen
    case Read(p, n) => p < |s.procs| && Outside(s.procs[p].op) && s.readopen
    case Go(p) => p < |s.procs| && |s.data| == PIPESIZE && Ready(s, p)
    case Close(writable) =>
      s.lock == Free
      && if writable then s.writeopen && forall p :: 0 <= p < |s.procs| ==> !Writing(s.procs[p].op)
         else s.readopen && forall p :: 0 <= p < |s.procs| ==> !Reading(s.procs[p].op)
    case Kill(p) => p < |s.procs|
  }

  function WokenReader(op: Op): Op {
    if op.RSleep? then RWake(op.n) else op
  }

  function WokenWriter(op: Op): Op {
    if op.WSleep? then WWake(op.bytes, op.i) else op
  }

  /** `wakeup(&nread)` and `wakeup(&nwrite)`. */
  function WakeReaders(procs: seq<Proc>): (r: seq<Proc>)
    ensures |r| == |procs|
    ensures forall p :: 0 <= p < |r| ==> r[p] == procs[p].(op := WokenReader(procs[p].op))
  {
    seq(|procs|, p requires 0 <= p < |procs| => procs[p].(op := WokenReader(procs[p].op)))
  }

  function WakeWriters(procs: seq<Proc>): (r: seq<Proc>)
    ensures |r| == |procs|
    ensures forall p :: 0 <= p < |r| ==> r[p] == procs[p].(op := WokenWriter(procs[p].op))
  {
    seq(|procs|, p requires 0 <= p < |procs| => procs[p].(op := WokenWriter(procs[p].op)))
  }

  function At(s: State, p: nat, op: Op, lock: Holder): State
    requires p < |s.procs|
  {
    s.(procs := s.procs[p := s.procs[p].(op := op)], lock := lock)
  }

  function Increment(w: word): word {
    if w == 0xFFFF_FFFF then 0 else w + 1
  }

  function Store(s: State, p: nat, bytes: seq<byte>, i: nat): State
    requires p < |s.procs| && i < |bytes| && |s.data| == PIPESIZE
  {
    At(s.(data := s.data[s.nwrite % PIPESIZE := bytes[i]], nwrite := Increment(s.nwrite),
          sent := s.sent + [bytes[i]], who := s.who + [p]),
       p, WLoop(bytes, i + 1), By(p))
  }

  function Fetch(s: State, p: nat, n: nat, out: seq<byte>): State
    requires p < |s.procs| && |s.data| == PIPESIZE
  {
    var b := s.data[s.nread % PIPESIZE];
    At(s.(nread := Increment(s.nread), got := s.got + [b]), p, RCopy(n, out + [b]), By(p))
  }

  function GoNext(s: State, p: nat): State
    requires p < |s.procs| && |s.data| == PIPESIZE && Ready(s, p)
  {
    var op := s.procs[p].op;
    var killed := s.procs[p].killed;
    if op.WEnter? then At(s, p, WLoop(op.bytes, 0), By(p))
    else if op.WWake? then At(s, p, WLoop(op.bytes, op.i), By(p))
    else if op.REnter? || op.RWake? then At(s, p, RWait(op.n), By(p))
    else if op.WLoop? then
      if op.i >= |op.bytes| then At(s.(procs := WakeReaders(s.procs)), p, Returned(|op.bytes|, []), Free)
      else if !Full(s) then Store(s, p, op.bytes, op.i)
      else if !s.readopen || killed then At(s, p, Returned(-1, []), Free)
      else At(s.(procs := WakeReaders(s.procs)), p, WSleep(op.bytes, op.i), Free)
    else if op.RWait? then
      if !(Empty(s) && s.writeopen) then At(s, p, RCopy(op.n, []), By(p))
      else if killed then At(s, p, Returned(-1, []), Free)
      else At(s, p, RSleep(op.n), Free)
    else
      if |op.out| < op.n && !Empty(s) then Fetch(s, p, op.n, op.out)
      else At(s.(procs := WakeWriters(s.procs)), p, Returned(|op.out|, op.out), Free)
  }

  function Next(s: State, e: Step): State
    requires Enabled(s, e)
  {
    match e
    case Write(p, bytes) => At(s, p, WEnter(bytes), s.lock)
    case Read(p, n) => At(s, p, REnter(n), s.lock)
    case Go(p) => GoNext(s, p)
    case Close(writable) =>
      if writable then s.(writeopen := false, procs := WakeReaders(s.procs))
      else s.(readopen := false, procs := WakeWriters(s.procs))
    case Kill(p) => s.(procs := s.procs[p := Proc(WokenReader(WokenWriter(s.procs[p].op)), true)])
  }

  /** What `pipealloc` sets up; the counters of a page fresh from the kernel are set to 0. */
  ghost predicate Boot(s: State) {
    && |s.data| == PIPESIZE && s.nread == 0 && s.nwrite == 0 && s.readopen && s.writeopen && s.lock == Free
    && s.sent == [] && s.who == [] && s.got == []
    && forall p :: 0 <= p < |s.procs| ==> s.procs[p] == Proc(Idle, false)
  }

  function Run(s: State, es: seq<Step>): (r: seq<State>)
    ensures |r| <= 1
    decreases |es|
  {
    if es == [] then [s]
    else if Enabled(s, es[0]) then Run(Next(s, es[0]), es[1..])
    else []
  }

  // ---------- first in, first out ----------

  /** The bytes taken are a prefix of the bytes stored, the rest is in the ring in order, and
      the counters are the lengths of both histories in 32 bits. */
  ghost predicate Fifo(s: State) {
    && |s.data| == PIPESIZE && |s.who| == |s.sent|
    && |s.got| <= |s.sent| <= |s.got| + PIPESIZE
    && s.nread as int == |s.got| % WORD_LIMIT && s.nwrite as int == |s.sent| % WORD_LIMIT
    && s.got == s.sent[..|s.got|]
    && forall j :: |s.got| <= j < |s.sent| ==> s.data[j % PIPESIZE] == s.sent[j]
  }

  /** A copying reader has so far the latest bytes taken, no more than it asked for, and comes
      away with nothing only from a pipe that is empty and closed for writing. */
  ghost predicate Copying(s: State, p: nat)
    requires p < |s.procs|
  {
    var op := s.procs[p].op;
    op.RCopy? ==>
      && |op.out| <= |s.got| && |op.out| <= op.n && op.out == s.got[|s.got| - |op.out|..]
      && (op.out == [] ==> !(Empty(s) && s.writeopen))
  }

  /** The bytes of `sent` that process `p` stored. */
  function Part(sent: seq<byte>, who: seq<nat>, p: nat): seq<byte>
    requires |who| == |sent|
  {
    if sent == [] then []
    else
      var n := |sent| - 1;
      Part(sent[..n], who[..n], p) + if who[n] == p then [sent[n]] else []
  }

  predicate EndsWith(s: seq<byte>, t: seq<byte>) {
    |t| <= |s| && s[|s| - |t|..] == t
  }

  /** A writer has stored the first `i` of its bytes, in order. */
  ghost predicate Stored(s: State, p: nat)
    requires p < |s.procs| && |s.who| == |s.sent|
  {
    var op := s.procs[p].op;
    op.WLoop? || op.WSleep? || op.WWake? ==>
      op.i <= |op.bytes| && EndsWith(Part(s.sent, s.who, p), op.bytes[..op.i])
  }

  /** The lock holder is where it holds the lock, and an end in use is open. */
  ghost predicate Locking(s: State, p: nat)
    requires p < |s.procs|
  {
    var op := s.procs[p].op;
    && (s.lock == By(p) <==> op.WLoop? || op.RWait? || op.RCopy?)
    && (Writing(op) ==> s.writeopen) && (Reading(op) ==> s.readopen)
  }

  ghost predicate Safe(s: State) {
    && Fifo(s)
    && (s.lock.By? ==> s.lock.p < |s.procs|)
    && (forall p :: 0 <= p < |s.procs| ==> Copying(s, p) && Locking(s, p) && Stored(s, p))
  }

  lemma RingIndex(a: int)
    requires a >= 0
    ensures (a % WORD_LIMIT) % PIPESIZE == a % PIPESIZE
    ensures (a + 1) % WORD_LIMIT == if a % WORD_LIMIT == 0xFFFF_FFFF then 0 else a % WORD_LIMIT + 1
  {
    assert WORD_LIMIT == 8388608 * PIPESIZE;
    var q := a / WORD_LIMIT;
    assert a == q * WORD_LIMIT + a % WORD_LIMIT;
    assert q * WORD_LIMIT == (q * 8388608) * PIPESIZE;
    ModShift(a % WORD_LIMIT, q * 8388608);
  }

  lemma ModShift(r: int, k: int)
    ensures (r + k * PIPESIZE) % PIPESIZE == r % PIPESIZE
  {
  }

  /** The tests for full and empty are right although the counters wrap. */
  lemma CountersExact(s: State)
    requires Fifo(s)
    ensures Full(s) <==> |s.sent| == |s.got| + PIPESIZE
    ensures Empty(s) <==> |s.sent| == |s.got|
    ensures s.nwrite % PIPESIZE == |s.sent| % PIPESIZE && s.nread % PIPESIZE == |s.got| % PIPESIZE
    ensures Increment(s.nwrite) as int == (|s.sent| + 1) % WORD_LIMIT
    ensures Increment(s.nread) as int == (|s.got| + 1) % WORD_LIMIT
  {
    RingIndex(|s.sent|);
    RingIndex(|s.got|);
    WordDistance(|s.got|, |s.sent|);
  }

  /** Lengths less than 2^32 apart are equal in 32 bits only if they are equal. */
  lemma WordDistance(a: nat, b: nat)
    requires a <= b <= a + PIPESIZE
    ensures a % WORD_LIMIT == b % WORD_LIMIT <==> a == b
    ensures b % WORD_LIMIT == (a % WORD_LIMIT + PIPESIZE) % WORD_LIMIT <==> b == a + PIPESIZE
  {
  }

  lemma StoreFifo(s: State, p: nat, bytes: seq<byte>, i: nat)
    requires Fifo(s) && !Full(s) && p < |s.procs| && i < |bytes|
    ensures Fifo(Store(s, p, bytes, i))
  {
    CountersExact(s);
    var t := Store(s, p, bytes, i);
    forall j | |t.got| <= j < |t.sent|
      ensures t.data[j % PIPESIZE] == t.sent[j]
    {
      if j < |s.sent| {
        SlotsApart(j, |s.sent|);
      }
    }
  }

  /** Positions less than a ring apart have different slots. */
  lemma SlotsApart(a: nat, b: nat)
    requires a < b < a + PIPESIZE
    ensures a % PIPESIZE != b % PIPESIZE
  {
  }

  lemma FetchFifo(s: State, p: nat, n: nat, out: seq<byte>)
    requires Fifo(s) && !Empty(s) && p < |s.procs|
    ensures Fifo(Fetch(s, p, n, out)) && Fetch(s, p, n, out).got == s.got + [s.sent[|s.got|]]
  {
    CountersExact(s);
  }

  lemma PartStore(s: State, p: nat, b: byte, q: nat)
    requires |s.who| == |s.sent|
    ensures Part(s.sent + [b], s.who + [p], q) == Part(s.sent, s.who, q) + if p == q then [b] else []
  {
    assert (s.sent + [b])[..|s.sent|] == s.sent && (s.who + [p])[..|s.who|] == s.who;
  }

  // ---------- every step is safe ----------

  lemma BootSafe(s: State)
    requires Boot(s)
    ensures Safe(s)
  {
  }

  lemma StoreSafe(s: State, p: nat)
    requires Safe(s) && p < |s.procs| && s.procs[p].op.WLoop? && s.lock == By(p) && !Full(s)
    requires s.procs[p].op.i < |s.procs[p].op.bytes|
    ensures Safe(Store(s, p, s.procs[p].op.bytes, s.procs[p].op.i))
  {
    var op := s.procs[p].op;
    var t := Store(s, p, op.bytes, op.i);
    StoreFifo(s, p, op.bytes, op.i);
    forall q | 0 <= q < |t.procs|
      ensures Copying(t, q) && Locking(t, q) && Stored(t, q)
    {
      StoreOne(s, p, q);
    }
    hide Fifo, Copying, Locking, Stored;
  }

  lemma StoreOne(s: State, p: nat, q: nat)
    requires Safe(s) && p < |s.procs| && s.procs[p].op.WLoop? && s.lock == By(p) && q < |s.procs|
    requires s.procs[p].op.i < |s.procs[p].op.bytes|
    ensures var t := Store(s, p, s.procs[p].op.bytes, s.procs[p].op.i);
      q < |t.procs| && |t.who| == |t.sent| && Copying(t, q) && Locking(t, q) && Stored(t, q)
  {
    var op := s.procs[p].op;
    assert Copying(s, q) && Locking(s, q) && Stored(s, q);
    PartStore(s, p, op.bytes[op.i], q);
    assert op.bytes[..op.i + 1] == op.bytes[..op.i] + [op.bytes[op.i]];
    hide Part, Fifo, Safe;
  }

  lemma FetchSafe(s: State, p: nat)
    requires Safe(s) && p < |s.procs| && s.procs[p].op.RCopy? && s.lock == By(p) && !Empty(s)
    requires |s.procs[p].op.out| < s.procs[p].op.n
    ensures Safe(Fetch(s, p, s.procs[p].op.n, s.procs[p].op.out))
  {
    var op := s.procs[p].op;
    var t := Fetch(s, p, op.n, op.out);
    FetchFifo(s, p, op.n, op.out);
    forall q | 0 <= q < |t.procs|
      ensures Copying(t, q) && Locking(t, q) && Stored(t, q)
    {
      assert Copying(s, q) && Locking(s, q) && Stored(s, q);
    }
  }

  /** A step that leaves the ring alone. */
  lemma QuietSafe(s: State, t: State)
    requires Safe(s) && t.data == s.data && t.nread == s.nread && t.nwrite == s.nwrite
    requires t.sent == s.sent && t.who == s.who && t.got == s.got && |t.procs| == |s.procs|
    requires t.lock.By? ==> t.lock.p < |t.procs|
    requires forall q :: 0 <= q < |t.procs| ==> Copying(t, q) && Locking(t, q) && Stored(t, q)
    ensures Safe(t)
  {
  }

  /** The step stores or takes a byte. */
  predicate Moves(s: State, p: nat)
    requires p < |s.procs|
  {
    var op := s.procs[p].op;
    || (op.WLoop? && op.i < |op.bytes| && !Full(s))
    || (op.RCopy? && |op.out| < op.n && !Empty(s))
  }

  lemma QuietSelfStored(s: State, p: nat)
    requires Enabled(s, Go(p)) && !Moves(s, p) && |s.who| == |s.sent| && Stored(s, p)
    ensures var t := GoNext(s, p); p < |t.procs| && |t.who| == |t.sent| && Stored(t, p)
  {
    var op := s.procs[p].op;
    if op.WEnter? {
      assert op.bytes[..0] == [];
    }
    hide Part, Full, WakeReaders, WakeWriters;
  }

  lemma QuietSelf(s: State, p: nat)
    requires Enabled(s, Go(p)) && !Moves(s, p) && Copying(s, p) && Locking(s, p)
    ensures var t := GoNext(s, p); p < |t.procs| && Copying(t, p) && Locking(t, p)
  {
    hide Full, WakeReaders, WakeWriters;
  }

  lemma QuietOther(s: State, p: nat, q: nat)
    requires Safe(s) && Enabled(s, Go(p)) && !Moves(s, p) && q < |s.procs| && q != p
    ensures var t := GoNext(s, p);
      |t.procs| == |s.procs| && |t.who| == |t.sent| && Copying(t, q) && Locking(t, q) && Stored(t, q)
  {
    assert Copying(s, q) && Locking(s, q) && Stored(s, q) && |s.who| == |s.sent|;
    assert Locking(s, p);
    hide Fifo, Part, Safe, Full;
  }

  lemma GoSafe(s: State, p: nat)
    requires Safe(s) && Enabled(s, Go(p))
    ensures Safe(GoNext(s, p))
  {
    assert Locking(s, p);
    if Moves(s, p) {
      if s.procs[p].op.WLoop? {
        StoreSafe(s, p);
      } else {
        FetchSafe(s, p);
      }
    } else {
      var t := GoNext(s, p);
      forall q | 0 <= q < |s.procs|
        ensures |t.who| == |t.sent| && q < |t.procs| && Copying(t, q) && Locking(t, q) && Stored(t, q)
      {
        assert Copying(s, q) && Locking(s, q) && Stored(s, q);
        if q == p {
          QuietSelf(s, p);
          QuietSelfStored(s, p);
        } else {
          QuietOther(s, p, q);
        }
      }
      hide Fifo, Copying, Locking, Stored;
      QuietSafe(s, t);
    }
  }

  lemma NextSafe(s: State, e: Step)
    requires Safe(s) && Enabled(s, e)
    ensures Safe(Next(s, e))
  {
    if e.Go? {
      GoSafe(s, e.p);
    } else {
      var t := Next(s, e);
      forall q | 0 <= q < |t.procs|
        ensures Copying(t, q) && Locking(t, q) && Stored(t, q)
      {
        assert Copying(s, q) && Locking(s, q) && Stored(s, q);
      }
    }
  }

  lemma {:induction false} RunSafe(s: State, es: seq<Step>)
    requires Safe(s)
    ensures forall t :: t in Run(s, es) ==> Safe(t)
    decreases |es|
  {
    hide Safe, Next;
    if es != [] && Enabled(s, es[0]) {
      NextSafe(s, es[0]);
      RunSafe(Next(s, es[0]), es[1..]);
    }
  }
}
