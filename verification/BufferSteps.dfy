/** Every step of the buffer cache machine keeps the invariant, and every run from boot
    stays inside it. */
module BufferSteps {
  import opened Options
  import opened Words
  import opened Recency
  import opened Buffers
  import opened BufferInv

  // ---------- steps of one process ----------

  lemma BreadKeeps(s: State, p: nat, key: Key)
    requires Inv(s) && Enabled(s, Bread(p, key))
    ensures Inv(Next(s, Bread(p, key)))
  {
    forall b | 0 <= b
      ensures HeldOk(SetOp(s, p, Get(key)), p, b)
    {
      assert HeldOk(s, p, b);
    }
    KeepOp(s, p, Get(key));
  }

  lemma CheckValidKeeps(s: State, p: nat)
    requires Inv(s) && Enabled(s, CheckValid(p)) && !Faults(s, CheckValid(p))
    ensures Inv(Next(s, CheckValid(p)))
  {
    var op := s.procs[p].op;
    var now := if s.bufs[op.b].valid then Idle else Start(op.key, op.b);
    assert OpOk(s, p);
    forall b | 0 <= b
      ensures HeldOk(SetOp(s, p, now), p, b)
    {
      assert HeldOk(s, p, b);
    }
    KeepOp(s, p, now);
  }

  lemma RecheckKeeps(s: State, p: nat)
    requires Inv(s) && Enabled(s, Recheck(p)) && !Faults(s, Recheck(p))
    ensures Inv(Next(s, Recheck(p)))
  {
    assert OpOk(s, p);
    forall b | 0 <= b
      ensures HeldOk(SetOp(s, p, Idle), p, b)
    {
      assert HeldOk(s, p, b);
    }
    KeepOp(s, p, Idle);
  }

  lemma SleepKeeps(s: State, p: nat, b: nat)
    requires Inv(s) && p < |s.procs| && s.procs[p].op.Get? && b < |s.bufs| && s.bufs[b].busy
    requires s.bufs[b].key == s.procs[p].op.key
    ensures Inv(SetOp(s, p, GetSleep(s.procs[p].op.key, b)))
  {
    var op := GetSleep(s.procs[p].op.key, b);
    assert OpOk(s, p);
    forall c | 0 <= c
      ensures HeldOk(SetOp(s, p, op), p, c)
    {
      assert HeldOk(s, p, c);
    }
    KeepOp(s, p, op);
  }

  // ---------- taking a buffer ----------

  /** A free buffer is handed out under key `key`, either because it has that key or afresh. */
  lemma GrabKeeps(s: State, p: nat, b: nat, buf: Buf)
    requires Inv(s) && p < |s.procs| && s.procs[p].op.Get? && b < |s.bufs| && !s.bufs[b].busy
    requires buf.key == s.procs[p].op.key && buf.busy && !buf.dirty && buf.holder == p
    requires || buf == s.bufs[b].(busy := true, holder := p)
             || (!buf.valid && forall a :: 0 <= a < |s.bufs| ==> s.bufs[a].key != buf.key)
    ensures Inv(Grab(s, p, s.procs[p].op.key, b, buf))
  {
    var t := Grab(s, p, s.procs[p].op.key, b, buf);
    assert OpOk(s, p) && BufOk(s, b);
    forall q | 0 <= q < |s.procs| && q != p
      ensures OtherOk(s, t, b, q)
    {
      assert HeldOk(s, q, b);
    }
    forall c | 0 <= c
      ensures HeldOk(t, p, c)
    {
      assert HeldOk(s, p, c) && HeldOk(s, p, b);
    }
    forall a | 0 <= a < |t.bufs|
      ensures KeysApart(t, a, b) && KeysApart(t, b, a)
    {
      assert KeysApart(s, a, b) && KeysApart(s, b, a);
    }
    GrabSector(s, t, b);
    KeepOne(s, t, p, b);
  }

  lemma GrabSector(s: State, t: State, b: nat)
    requires Inv(s) && b < |s.bufs| == |t.bufs| && !s.bufs[b].busy && t.two == s.two
    requires forall a :: 0 <= a < |s.bufs| && a != b ==> t.bufs[a] == s.bufs[a]
    requires forall k :: t.disk(k) == s.disk(k) && t.last(k) == s.last(k)
    ensures SectorOk(t, s.bufs[b].key)
  {
    var k := s.bufs[b].key;
    assert SectorOk(s, k) && BufOk(s, b);
    forall c | DirtyAt(s, c, k)
      ensures DirtyAt(t, c, k)
    {
    }
    SectorFrame(s, t, k);
  }

  lemma ScanKeeps(s: State, p: nat)
    requires Inv(s) && Enabled(s, Scan(p)) && !Faults(s, Scan(p))
    ensures Inv(Next(s, Scan(p)))
  {
    var key := s.procs[p].op.key;
    if Hit(s, key).Some? {
      var b := Hit(s, key).value;
      if s.bufs[b].busy {
        SleepKeeps(s, p, b);
      } else {
        assert BufOk(s, b);
        GrabKeeps(s, p, b, s.bufs[b].(busy := true, holder := p));
      }
    } else {
      var b := Victim(s).value;
      forall a | 0 <= a < |s.bufs|
        ensures s.bufs[a].key != key
      {
        assert a in s.order;
      }
      GrabKeeps(s, p, b, s.bufs[b].(key := key, busy := true, valid := false, dirty := false, holder := p));
    }
  }

  // ---------- the holder's own steps ----------

  lemma HolderAlone(s: State, t: State, p: nat, b: nat)
    requires Inv(s) && Holds(s, p, b) && |t.bufs| == |s.bufs| && |t.procs| == |s.procs|
    requires forall q :: 0 <= q < |s.procs| && q != p ==>
                         (|| t.procs[q] == s.procs[q].(op := WakeOp(s.procs[q].op, b))
                          || (t.procs[q] == s.procs[q] && b < |s.bufs| && t.bufs[b].busy && t.bufs[b].key == s.bufs[b].key))
    ensures b < |s.bufs| && s.bufs[b].busy && forall q :: 0 <= q < |s.procs| && q != p ==> OtherOk(s, t, b, q)
  {
    assert HeldOk(s, p, b);
    forall q | 0 <= q < |s.procs| && q != p
      ensures OtherOk(s, t, b, q)
    {
      assert HeldOk(s, q, b);
    }
  }

  lemma ChangeKeeps(s: State, p: nat, b: nat, data: Block)
    requires Inv(s) && Enabled(s, Change(p, b, data))
    ensures Inv(Next(s, Change(p, b, data)))
  {
    var t := Next(s, Change(p, b, data));
    assert HeldOk(s, p, b);
    HolderStep(s, t, p, b);
    assert SectorOk(s, s.bufs[b].key);
    SectorFrame(s, t, s.bufs[b].key);
    KeepOne(s, t, p, b);
  }

  /** `p` changes only the data or the dirty bit of a buffer it holds. */
  lemma HolderStep(s: State, t: State, p: nat, b: nat)
    requires Inv(s) && IdleHolder(s, p, b) && Shape(t)
    requires |t.bufs| == |s.bufs| && (forall a :: 0 <= a < |s.bufs| && a != b ==> t.bufs[a] == s.bufs[a])
    requires t.bufs[b] == s.bufs[b].(data := t.bufs[b].data, dirty := t.bufs[b].dirty)
    requires t.bufs[b].dirty ==> t.bufs[b].data == t.last(t.bufs[b].key)
    requires |t.procs| == |s.procs| && (forall q :: 0 <= q < |s.procs| && q != p ==> t.procs[q] == s.procs[q])
    requires t.procs[p].held == s.procs[p].held
    requires t.procs[p].op == if t.bufs[b].dirty then Start(s.bufs[b].key, b) else Idle
    requires t.queue == s.queue && t.drive == s.drive && t.two == s.two
    requires forall k :: t.disk(k) == s.disk(k) && (k != s.bufs[b].key ==> t.last(k) == s.last(k))
    ensures OneChanged(s, t, p, b) && OneOk(t, p, b)
  {
    assert HeldOk(s, p, b) && BufOk(s, b);
    HolderAlone(s, t, p, b);
    forall c | 0 <= c
      ensures HeldOk(t, p, c)
    {
      assert HeldOk(s, p, c);
    }
    forall a | 0 <= a < |t.bufs|
      ensures KeysApart(t, a, b) && KeysApart(t, b, a)
    {
      assert KeysApart(s, a, b) && KeysApart(s, b, a);
    }
  }

  lemma BwriteKeeps(s: State, p: nat, b: nat)
    requires Inv(s) && Enabled(s, Bwrite(p, b)) && !Faults(s, Bwrite(p, b))
    ensures Inv(Next(s, Bwrite(p, b)))
  {
    var t := Next(s, Bwrite(p, b));
    HolderStep(s, t, p, b);
    assert DirtyAt(t, b, s.bufs[b].key);
    KeepOne(s, t, p, b);
  }

  lemma BrelseKeeps(s: State, p: nat, b: nat)
    requires Inv(s) && Enabled(s, Brelse(p, b)) && !Faults(s, Brelse(p, b))
    ensures Inv(Next(s, Brelse(p, b)))
  {
    var t := Next(s, Brelse(p, b));
    assert HeldOk(s, p, b) && BufOk(s, b);
    MoveToFrontPermutes(s.order, NBUF, b);
    HolderAlone(s, t, p, b);
    forall c | 0 <= c
      ensures HeldOk(t, p, c)
    {
      assert HeldOk(s, p, c);
    }
    forall a | 0 <= a < |t.bufs|
      ensures KeysApart(t, a, b) && KeysApart(t, b, a)
    {
      assert KeysApart(s, a, b) && KeysApart(s, b, a);
    }
    assert SectorOk(s, s.bufs[b].key);
    SectorFrame(s, t, s.bufs[b].key);
    KeepOne(s, t, p, b);
  }

  // ---------- the queue and the drive ----------

  lemma EnqueueKeeps(s: State, p: nat)
    requires Inv(s) && Enabled(s, Enqueue(p)) && !Faults(s, Enqueue(p))
    ensures Inv(Next(s, Enqueue(p)))
  {
    var t := Next(s, Enqueue(p));
    var b := s.procs[p].op.b;
    assert OpOk(s, p) && HeldOk(s, p, b);
    forall a | 0 <= a < |t.bufs|
      ensures BufOk(t, a)
    {
      assert BufOk(s, a);
    }
    forall a, c | 0 <= a < |t.bufs| && 0 <= c < |t.bufs|
      ensures KeysApart(t, a, c)
    {
      assert KeysApart(s, a, c);
    }
    forall q, c | 0 <= q < |t.procs| && 0 <= c
      ensures HeldOk(t, q, c)
    {
      assert HeldOk(s, q, c) && HeldOk(s, q, b);
    }
    EnqueueOps(s, p, t, b);
    forall k
      ensures SectorOk(t, k)
    {
      assert SectorOk(s, k);
      SectorFrame(s, t, k);
    }
  }

  lemma EnqueueOps(s: State, p: nat, t: State, b: nat)
    requires Inv(s) && Enabled(s, Enqueue(p)) && !Faults(s, Enqueue(p))
    requires t == Next(s, Enqueue(p)) && b == s.procs[p].op.b
    ensures forall q :: 0 <= q < |t.procs| ==> OpOk(t, q)
    ensures forall i :: 0 <= i < |t.queue| ==> QueuedOk(t, i)
    ensures Distinct(t.queue) && DriveOk(t)
  {
    assert OpOk(s, p) && HeldOk(s, p, b) && BufOk(s, b);
    forall q | 0 <= q < |t.procs|
      ensures OpOk(t, q)
    {
      assert OpOk(s, q) && HeldOk(s, q, b);
    }
    forall i | 0 <= i < |t.queue|
      ensures QueuedOk(t, i)
    {
      if i < |s.queue| {
        assert QueuedOk(s, i);
      }
    }
  }

  /** Proper sectors are selected exactly. */
  lemma SelectedProper(two: bool, k: Key)
    requires Proper(two, k)
    ensures Selected(k) == k
  {
  }

  /** The head of the queue: its sector is addressed exactly, and nobody else has it dirty. */
  lemma HeadFacts(s: State) returns (b: nat, p: nat)
    requires Inv(s) && s.queue != []
    ensures b == s.queue[0] && b < |s.bufs| && s.bufs[b].busy && Proper(s.two, s.bufs[b].key)
    ensures Selected(s.bufs[b].key) == s.bufs[b].key && s.drive.cmd == CommandFor(s.bufs[b])
    ensures p == s.bufs[b].holder && p < |s.procs| && b in s.procs[p].held && s.procs[p].op == Wait(s.bufs[b].key, b)
    ensures s.bufs[b].dirty ==> s.bufs[b].data == s.last(s.bufs[b].key)
    ensures !s.bufs[b].dirty ==> s.disk(s.bufs[b].key) == s.last(s.bufs[b].key)
  {
    b := s.queue[0];
    assert QueuedOk(s, 0);
    assert BufOk(s, b);
    p := s.bufs[b].holder;
    SelectedProper(s.two, s.bufs[b].key);
    assert SectorOk(s, s.bufs[b].key);
    forall c | DirtyAt(s, c, s.bufs[b].key)
      ensures c == b
    {
      assert KeysApart(s, b, c);
    }
  }

  lemma CompleteKeeps(s: State)
    requires Inv(s) && s.drive.Running?
    ensures Inv(Next(s, Complete))
  {
    var t := Next(s, Complete);
    var b, p := HeadFacts(s);
    forall a | 0 <= a < |t.bufs|
      ensures BufOk(t, a)
    {
      assert BufOk(s, a);
    }
    forall a, c | 0 <= a < |t.bufs| && 0 <= c < |t.bufs|
      ensures KeysApart(t, a, c)
    {
      assert KeysApart(s, a, c);
    }
    forall q, c | 0 <= q < |t.procs| && 0 <= c
      ensures HeldOk(t, q, c)
    {
      assert HeldOk(s, q, c);
    }
    forall q | 0 <= q < |t.procs|
      ensures OpOk(t, q)
    {
      assert OpOk(s, q);
    }
    forall i | 0 <= i < |t.queue|
      ensures QueuedOk(t, i)
    {
      assert QueuedOk(s, i);
    }
    forall k
      ensures SectorOk(t, k)
    {
      assert SectorOk(s, k);
      if t.disk(k) == s.disk(k) {
        SectorFrame(s, t, k);
      }
    }
  }

  /** The interrupt finishes the head request: the buffer now has what was last written. */
  lemma InterruptBufs(s: State, t: State, b: nat, p: nat)
    requires Inv(s) && s.queue != [] && s.drive.Done? && InRange(s.queue, |s.bufs|) && t == InterruptNext(s)
    requires b == s.queue[0] && b < |s.bufs| && s.bufs[b].busy && Proper(s.two, s.bufs[b].key)
    requires Selected(s.bufs[b].key) == s.bufs[b].key && s.drive.cmd == CommandFor(s.bufs[b])
    requires p == s.bufs[b].holder && p < |s.procs| && b in s.procs[p].held && s.procs[p].op == Wait(s.bufs[b].key, b)
    requires s.bufs[b].dirty ==> s.bufs[b].data == s.last(s.bufs[b].key)
    requires !s.bufs[b].dirty ==> s.disk(s.bufs[b].key) == s.last(s.bufs[b].key)
    ensures t.bufs[b] == s.bufs[b].(valid := true, dirty := false, data := s.last(s.bufs[b].key))
    ensures b !in t.queue && (forall a :: a in s.queue && a != b ==> a in t.queue) && s.queue == [b] + t.queue
    ensures s.disk(s.bufs[b].key) == s.last(s.bufs[b].key)
    ensures Distinct(t.queue) && DriveOk(t)
  {
    assert s.queue == [b] + s.queue[1..];
    assert t.queue == s.queue[1..];
    if t.queue != [] {
      assert QueuedOk(s, 1);
    }
  }

  ghost predicate HeadFinished(s: State, t: State)
    requires s.queue != []
  {
    var b := s.queue[0];
    && b < |s.bufs| && t.queue == s.queue[1..]
    && t.bufs == s.bufs[b := s.bufs[b].(valid := true, dirty := false, data := s.last(s.bufs[b].key))]
    && (t.queue != [] ==> t.queue[0] < |t.bufs| && t.drive == Running(CommandFor(t.bufs[t.queue[0]])))
  }

  /** The interrupt finishes the request at the head of the queue, whose buffer now holds the
      last data written to its sector, and starts the next; without a request it does nothing. */
  lemma InterruptKeeps(s: State)
    requires Inv(s) && Enabled(s, Interrupt) && !Faults(s, Interrupt)
    ensures Inv(Next(s, Interrupt))
    ensures s.queue == [] ==> Next(s, Interrupt) == s
    ensures s.queue != [] ==> HeadFinished(s, Next(s, Interrupt))
  {
    if s.queue != [] {
      var t := Next(s, Interrupt);
      var b, p := HeadFacts(s);
      InterruptBufs(s, t, b, p);
      hide InterruptNext, StartDrive, DriveOk, Permutation;
      forall a | 0 <= a < |t.bufs|
        ensures BufOk(t, a)
      {
        assert BufOk(s, a);
      }
      forall a, c | 0 <= a < |t.bufs| && 0 <= c < |t.bufs|
        ensures KeysApart(t, a, c)
      {
        assert KeysApart(s, a, c);
      }
      InterruptProcs(s, t, b, p);
      forall k
        ensures SectorOk(t, k)
      {
        assert SectorOk(s, k);
        if k != s.bufs[b].key {
          SectorFrame(s, t, k);
        }
      }
    }
  }

  lemma InterruptProcs(s: State, t: State, b: nat, p: nat)
    requires Inv(s) && b < |s.bufs| && s.bufs[b].busy && s.bufs[b].holder == p < |s.procs| && b in s.procs[p].held
    requires s.procs[p].op == Wait(s.bufs[b].key, b)
    requires t.bufs == s.bufs[b := s.bufs[b].(valid := true, dirty := false, data := s.last(s.bufs[b].key))]
    requires t.procs == Wakeup(s.procs, b) && s.queue == [b] + t.queue && b !in t.queue
    requires t.two == s.two && t.last == s.last
    ensures forall q, c :: 0 <= q < |t.procs| && 0 <= c ==> HeldOk(t, q, c)
    ensures forall q :: 0 <= q < |t.procs| ==> OpOk(t, q)
    ensures forall i :: 0 <= i < |t.queue| ==> QueuedOk(t, i)
  {
    forall q, c | 0 <= q < |t.procs| && 0 <= c
      ensures HeldOk(t, q, c)
    {
      assert HeldOk(s, q, c);
    }
    forall q | 0 <= q < |t.procs|
      ensures OpOk(t, q)
    {
      assert OpOk(s, q) && HeldOk(s, q, b);
    }
    forall i | 0 <= i < |t.queue|
      ensures QueuedOk(t, i)
    {
      assert QueuedOk(s, i + 1);
      assert t.queue[i] == s.queue[i + 1];
    }
  }
}
