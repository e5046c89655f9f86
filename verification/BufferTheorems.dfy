/** What the invariant of the buffer cache gives over whole runs: coherence with a plain
    disk array, reads that return the last write, no lost wakeups, service in order. */
module BufferTheorems {
  import opened Options
  import opened Words
  import opened Recency
  import opened Buffers
  import opened BufferInv
  import opened BufferSteps

  lemma NextKeeps(s: State, e: Step)
    requires Inv(s) && Enabled(s, e) && !Faults(s, e)
    ensures Inv(Next(s, e))
  {
    hide Inv;
    match e
    case Bread(p, key) => BreadKeeps(s, p, key);
    case Scan(p) => ScanKeeps(s, p);
    case CheckValid(p) => CheckValidKeeps(s, p);
    case Change(p, b, data) => ChangeKeeps(s, p, b, data);
    case Bwrite(p, b) => BwriteKeeps(s, p, b);
    case Enqueue(p) => EnqueueKeeps(s, p);
    case Recheck(p) => RecheckKeeps(s, p);
    case Brelse(p, b) => BrelseKeeps(s, p, b);
    case Complete => CompleteKeeps(s);
    case Interrupt => InterruptKeeps(s);
  }

  lemma {:induction false} RunKeeps(s: State, es: seq<Step>)
    requires Inv(s)
    ensures Run(s, es).Some? ==> Inv(Run(s, es).value)
    decreases |es|
  {
    hide Inv, Next;
    if es != [] && Enabled(s, es[0]) && !Faults(s, es[0]) {
      NextKeeps(s, es[0]);
      RunKeeps(Next(s, es[0]), es[1..]);
    }
  }

  lemma ReachableInv(s: State, es: seq<Step>)
    requires Boot(s)
    ensures Run(s, es).Some? ==> Inv(Run(s, es).value)
  {
    BootInv(s);
    hide Inv;
    RunKeeps(s, es);
  }

  // ---------- coherence ----------

  /** The four promises of the cache, in any state. */
  ghost predicate Coherent(s: State) {
    // each sector is in at most one buffer
    && (forall a, b :: 0 <= a < b < |s.bufs| && Proper(s.two, s.bufs[a].key) ==> s.bufs[a].key != s.bufs[b].key)
    // a buffer is busy exactly if some process holds it, and then one only
    && (forall b :: 0 <= b < |s.bufs| ==> (s.bufs[b].busy <==> exists p :: Holds(s, p, b)))
    && (forall p, q, b :: Holds(s, p, b) && Holds(s, q, b) ==> p == q)
    // a free buffer is clean, and if valid it agrees with the disk and with the last write
    && (forall b :: 0 <= b < |s.bufs| && !s.bufs[b].busy ==>
          !s.bufs[b].dirty
          && (s.bufs[b].valid ==> s.bufs[b].data == s.disk(s.bufs[b].key) == s.last(s.bufs[b].key)))
  }

  lemma CoherentEver(s: State, es: seq<Step>)
    requires Boot(s)
    ensures Run(s, es).Some? ==> Coherent(Run(s, es).value)
  {
    ReachableInv(s, es);
    if Run(s, es).Some? {
      InvCoherent(Run(s, es).value);
    }
  }

  lemma InvCoherent(s: State)
    requires Inv(s)
    ensures Coherent(s)
  {
    forall a, b | 0 <= a < b < |s.bufs| && Proper(s.two, s.bufs[a].key)
      ensures s.bufs[a].key != s.bufs[b].key
    {
      assert KeysApart(s, a, b);
    }
    forall p: nat, b: nat | Holds(s, p, b)
      ensures b < |s.bufs| && s.bufs[b].busy && p == s.bufs[b].holder
    {
      assert HeldOk(s, p, b);
    }
    forall b | 0 <= b < |s.bufs|
      ensures s.bufs[b].busy <==> exists p :: Holds(s, p, b)
      ensures !s.bufs[b].busy ==> !s.bufs[b].dirty
      ensures !s.bufs[b].busy && s.bufs[b].valid ==> s.bufs[b].data == s.disk(s.bufs[b].key) == s.last(s.bufs[b].key)
    {
      assert BufOk(s, b);
      if !s.bufs[b].busy && s.bufs[b].valid {
        FreeOnDisk(s, b);
      }
    }
  }

  lemma FreeOnDisk(s: State, b: nat)
    requires Inv(s) && b < |s.bufs| && !s.bufs[b].busy && s.bufs[b].valid
    ensures s.bufs[b].data == s.disk(s.bufs[b].key) == s.last(s.bufs[b].key)
  {
    assert BufOk(s, b);
    assert SectorOk(s, s.bufs[b].key);
    forall c | DirtyAt(s, c, s.bufs[b].key)
      ensures c == b
    {
      assert KeysApart(s, b, c);
    }
  }

  // ---------- bread returns the last bwrite ----------

  /** Step `e` makes a process return from `bread` or `bwrite` with the buffer it then holds. */
  predicate Returns(s: State, e: Step) {
    && (e.CheckValid? || e.Recheck?) && Enabled(s, e) && !Faults(s, e)
    && Next(s, e).procs[e.p].op.Idle?
  }

  lemma ReturnsLast(s: State, e: Step)
    requires Inv(s) && Returns(s, e)
    ensures var op := s.procs[e.p].op; var t := Next(s, e);
      && Holds(t, e.p, op.b) && op.b < |t.bufs| && t.bufs[op.b].key == op.key && t.bufs[op.b].valid
      && t.bufs[op.b].data == s.last(op.key)
  {
    assert OpOk(s, e.p);
  }

  /** Some step of the run is a `bwrite` of sector `k`. */
  predicate Writes(s: State, es: seq<Step>, k: Key)
    requires Run(s, es).Some?
    decreases |es|
  {
    es != [] && ((es[0].Bwrite? && s.bufs[es[0].b].key == k) || Writes(Next(s, es[0]), es[1..], k))
  }

  lemma {:induction false} LastStays(s: State, es: seq<Step>, k: Key)
    requires Run(s, es).Some? && !Writes(s, es, k)
    ensures Run(s, es).value.last(k) == s.last(k)
    decreases |es|
  {
    if es != [] {
      LastStays(Next(s, es[0]), es[1..], k);
    }
  }

  /** Whoever reads a sector next, after any run without another write to it, gets the bytes
      that were in the buffer when `bwrite` was called. */
  lemma ReadGivesLastWrite(s: State, p: nat, b: nat, es: seq<Step>, e: Step)
    requires Inv(s) && Enabled(s, Bwrite(p, b)) && !Faults(s, Bwrite(p, b))
    requires var t := Next(s, Bwrite(p, b));
      && Run(t, es).Some? && !Writes(t, es, s.bufs[b].key)
      && Returns(Run(t, es).value, e) && Run(t, es).value.procs[e.p].op.key == s.bufs[b].key
    ensures var u := Run(Next(s, Bwrite(p, b)), es).value;
      u.procs[e.p].op.b < |u.bufs| && Next(u, e).bufs[u.procs[e.p].op.b].data == s.bufs[b].data
  {
    var t := Next(s, Bwrite(p, b));
    NextKeeps(s, Bwrite(p, b));
    RunKeeps(t, es);
    LastStays(t, es, s.bufs[b].key);
    ReturnsLast(Run(t, es).value, e);
  }

  /** And before any write, what was on the disk at boot. */
  lemma ReadGivesDisk(s: State, es: seq<Step>, e: Step)
    requires Boot(s) && Run(s, es).Some? && Returns(Run(s, es).value, e)
    requires !Writes(s, es, Run(s, es).value.procs[e.p].op.key)
    ensures var u := Run(s, es).value;
      u.procs[e.p].op.b < |u.bufs| && Next(u, e).bufs[u.procs[e.p].op.b].data == s.disk(u.procs[e.p].op.key)
  {
    ReachableInv(s, es);
    LastStays(s, es, Run(s, es).value.procs[e.p].op.key);
    ReturnsLast(Run(s, es).value, e);
  }

  // ---------- panics ----------

  /** From boot, the only panic there is: `bget` with every one of the buffers in use. */
  lemma OnlyPanic(s: State, es: seq<Step>, e: Step)
    requires Boot(s) && Run(s, es).Some? && Enabled(Run(s, es).value, e) && Faults(Run(s, es).value, e)
    ensures var u := Run(s, es).value;
      e.Scan? && (forall b :: 0 <= b < |u.bufs| ==> u.bufs[b].busy && u.bufs[b].key != u.procs[e.p].op.key)
  {
    var u := Run(s, es).value;
    ReachableInv(s, es);
    OnlyBuffersFault(u, e);
    forall b | 0 <= b < |u.bufs|
      ensures u.bufs[b].busy && u.bufs[b].key != u.procs[e.p].op.key
    {
      assert b in u.order;
    }
  }

  // ---------- wakeups and service ----------

  /** A process asleep in `iderw` has its request in the queue and the drive at work; one asleep
      in `bget` waits for a buffer of its sector that some other process holds. */
  lemma SleepersCovered(s: State, es: seq<Step>, p: nat)
    requires Boot(s) && Run(s, es).Some? && p < |Run(s, es).value.procs|
    ensures var u := Run(s, es).value; var op := u.procs[p].op;
      && (op.Wait? ==> op.b in u.queue && !u.drive.Ready?)
      && (op.GetSleep? ==> op.b < |u.bufs| && u.bufs[op.b].key == op.key && exists q :: Holds(u, q, op.b))
  {
    var u := Run(s, es).value;
    ReachableInv(s, es);
    assert OpOk(u, p);
    if u.procs[p].op.GetSleep? {
      assert BufOk(u, u.procs[p].op.b);
    }
  }

  function Interrupts(es: seq<Step>): nat {
    if es == [] then 0 else (if es[0].Interrupt? then 1 else 0) + Interrupts(es[1..])
  }

  /** Steps move the queue only from its head, by interrupts, and at its tail. */
  lemma QueueMoves(s: State, e: Step, p: nat, i: nat)
    requires Inv(s) && Enabled(s, e) && !Faults(s, e) && i < |s.queue| && p < |s.procs|
    requires s.procs[p].op.Wait? && s.procs[p].op.b == s.queue[i]
    ensures var t := Next(s, e);
      if e.Interrupt? && i == 0 then t.procs[p].op == Woken(s.procs[p].op.key, s.queue[0])
      else t.procs[p].op == s.procs[p].op
           && var j := if e.Interrupt? then i - 1 else i; j < |t.queue| && t.queue[j] == s.queue[i]
  {
    assert OpOk(s, p) && HeldOk(s, p, s.queue[i]);
    if e.Brelse? {
      assert HeldOk(s, e.p, e.b);
    }
  }

  /** A request is finished after as many interrupts as there are requests up to and including it,
      whatever else happens. */
  lemma {:induction false} ServedInOrder(s: State, es: seq<Step>, p: nat, i: nat) returns (n: nat)
    requires Inv(s) && Run(s, es).Some? && i < |s.queue| && p < |s.procs|
    requires s.procs[p].op.Wait? && s.procs[p].op.b == s.queue[i]
    requires Interrupts(es) > i
    ensures n <= |es| && Interrupts(es[..n]) == i + 1 && Run(s, es[..n]).Some?
    ensures p < |Run(s, es[..n]).value.procs|
    ensures Run(s, es[..n]).value.procs[p].op == Woken(s.procs[p].op.key, s.procs[p].op.b)
    decreases |es|
  {
    var t := Next(s, es[0]);
    QueueMoves(s, es[0], p, i);
    if es[0].Interrupt? && i == 0 {
      n := 1;
      assert es[..1] == [es[0]];
      assert Run(t, []) == Some(t);
      assert es[..1][1..] == [];
    } else {
      NextKeeps(s, es[0]);
      var m := ServedInOrder(t, es[1..], p, if es[0].Interrupt? then i - 1 else i);
      n := m + 1;
      assert es[..n][1..] == es[1..][..m];
      assert es[..n][0] == es[0];
    }
  }
}
