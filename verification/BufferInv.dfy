/** The invariant of the buffer cache machine, kept by every step of every process, of the
    drive and of the interrupt. */
module BufferInv {
  import opened Words
  import opened Recency
  import opened Buffers

  predicate Pending(b: Buf) {
    !b.valid || b.dirty
  }

  predicate InQueue(s: State, b: nat) {
    b in s.queue
  }

  /** A buffer: busy exactly while its holder has it; never dirty when free; valid and free only
      with the data last written; a dirty buffer holds the data last written. */
  ghost predicate BufOk(s: State, b: nat)
    requires b < |s.bufs|
  {
    var buf := s.bufs[b];
    && (buf.busy ==> Holds(s, buf.holder, b) && Proper(s.two, buf.key))
    && (!buf.busy ==> !buf.dirty && !InQueue(s, b))
    && (!buf.busy && buf.valid ==> Proper(s.two, buf.key) && buf.data == s.last(buf.key))
    && (buf.dirty ==> buf.data == s.last(buf.key))
  }

  /** No proper sector is in two buffers. */
  ghost predicate KeysApart(s: State, a: nat, b: nat)
    requires a < |s.bufs| && b < |s.bufs|
  {
    a != b && Proper(s.two, s.bufs[a].key) ==> s.bufs[a].key != s.bufs[b].key
  }

  /** A buffer that a process holds and is not busy with: clean, valid and not queued. */
  ghost predicate Settled(s: State, b: nat)
    requires b < |s.bufs|
  {
    s.bufs[b].valid && !s.bufs[b].dirty && !InQueue(s, b)
  }

  ghost predicate HeldOk(s: State, p: nat, b: nat)
    requires p < |s.procs|
  {
    b in s.procs[p].held ==>
      && b < |s.bufs| && s.bufs[b].busy && s.bufs[b].holder == p
      && (!Using(s.procs[p].op, b) ==> Settled(s, b))
  }

  predicate Using(op: Op, b: nat) {
    (op.Check? || op.Start? || op.Wait? || op.Woken?) && op.b == b
  }

  /** Where a process is says what its buffer is like; a sleeper always has something that will wake it. */
  ghost predicate OpOk(s: State, p: nat)
    requires p < |s.procs|
  {
    var op := s.procs[p].op;
    match op
    case Idle => true
    case Get(key) => Proper(s.two, key)
    case GetSleep(key, b) => Proper(s.two, key) && b < |s.bufs| && s.bufs[b].busy && s.bufs[b].key == key
    case Check(key, b) =>
      && b < |s.bufs| && b in s.procs[p].held && s.bufs[b].key == key && !s.bufs[b].dirty && !InQueue(s, b)
      && (s.bufs[b].valid ==> s.bufs[b].data == s.last(key))
    case Start(key, b) =>
      b < |s.bufs| && b in s.procs[p].held && s.bufs[b].key == key && Pending(s.bufs[b]) && !InQueue(s, b)
    case Wait(key, b) =>
      b < |s.bufs| && b in s.procs[p].held && s.bufs[b].key == key && InQueue(s, b)
    case Woken(key, b) =>
      b < |s.bufs| && b in s.procs[p].held && s.bufs[b].key == key && Settled(s, b) && s.bufs[b].data == s.last(key)
  }

  /** A queued buffer is pending, and its holder sleeps for it. */
  ghost predicate QueuedOk(s: State, i: nat)
    requires i < |s.queue|
  {
    var b := s.queue[i];
    && b < |s.bufs| && Pending(s.bufs[b]) && s.bufs[b].busy
    && s.bufs[b].holder < |s.procs| && s.procs[s.bufs[b].holder].op == Wait(s.bufs[b].key, b)
  }

  /** The drive works on the head of the queue, with the data that buffer still has. */
  ghost predicate DriveOk(s: State) {
    if s.queue == [] then s.drive.Ready?
    else
      && s.queue[0] < |s.bufs| && !s.drive.Ready? && s.drive.cmd == CommandFor(s.bufs[s.queue[0]])
      && (s.drive.Done? && s.drive.cmd.Read? ==> s.drive.latch == s.disk(s.drive.cmd.at))
      && (s.drive.Done? && s.drive.cmd.Write? ==> s.disk(s.drive.cmd.at) == s.drive.cmd.data)
  }

  predicate DirtyAt(s: State, b: nat, k: Key) {
    b < |s.bufs| && s.bufs[b].dirty && s.bufs[b].key == k
  }

  /** The disk has what was last written, except for a sector with a dirty buffer. */
  ghost predicate SectorOk(s: State, k: Key) {
    Proper(s.two, k) ==> s.disk(k) == s.last(k) || exists b :: DirtyAt(s, b, k)
  }

  ghost predicate Shape(s: State) {
    |s.bufs| == NBUF && Permutation(s.order, NBUF) && Distinct(s.queue)
  }

  ghost predicate Inv(s: State) {
    && Shape(s)
    && (forall b :: 0 <= b < |s.bufs| ==> BufOk(s, b))
    && (forall a, b :: 0 <= a < |s.bufs| && 0 <= b < |s.bufs| ==> KeysApart(s, a, b))
    && (forall p, b :: 0 <= p < |s.procs| && 0 <= b ==> HeldOk(s, p, b))
    && (forall p :: 0 <= p < |s.procs| ==> OpOk(s, p))
    && (forall i :: 0 <= i < |s.queue| ==> QueuedOk(s, i))
    && DriveOk(s)
    && (forall k :: SectorOk(s, k))
  }

  lemma BootInv(s: State)
    requires Boot(s)
    ensures Inv(s)
  {
  }

  /** The only panic is running out of buffers. */
  lemma OnlyBuffersFault(s: State, e: Step)
    requires Inv(s) && Enabled(s, e)
    ensures Faults(s, e) <==> e.Scan? && OutOfBuffers(s, s.procs[e.p].op.key)
  {
    if e.CheckValid? || e.Enqueue? || e.Recheck? {
      assert OpOk(s, e.p);
      var b := s.procs[e.p].op.b;
      assert HeldOk(s, e.p, b) && BufOk(s, b);
    } else if e.Bwrite? || e.Brelse? {
      assert HeldOk(s, e.p, e.b);
    }
    if e.Enqueue? || e.Interrupt? {
      forall i | 0 <= i < |s.queue|
        ensures s.queue[i] < |s.bufs|
      {
        assert QueuedOk(s, i);
      }
    }
  }

  // ---------- steps that move one process only ----------

  /** Nothing but the place of process `p` changes, and it was and is not in the queue. */
  lemma KeepOp(s: State, p: nat, op: Op)
    requires Inv(s) && p < |s.procs| && !s.procs[p].op.Wait?
    requires OpOk(SetOp(s, p, op), p)
    requires forall b :: 0 <= b ==> HeldOk(SetOp(s, p, op), p, b)
    ensures Inv(SetOp(s, p, op))
  {
    var t := SetOp(s, p, op);
    forall b | 0 <= b < |t.bufs|
      ensures BufOk(t, b)
    {
      assert BufOk(s, b);
    }
    forall a, b | 0 <= a < |t.bufs| && 0 <= b < |t.bufs|
      ensures KeysApart(t, a, b)
    {
      assert KeysApart(s, a, b);
    }
    forall q, b | 0 <= q < |t.procs| && 0 <= b
      ensures HeldOk(t, q, b)
    {
      assert HeldOk(s, q, b);
    }
    forall q | 0 <= q < |t.procs|
      ensures OpOk(t, q)
    {
      assert OpOk(s, q);
    }
    forall i | 0 <= i < |t.queue|
      ensures QueuedOk(t, i)
    {
      assert QueuedOk(s, i);
    }
    forall k
      ensures SectorOk(t, k)
    {
      assert SectorOk(s, k);
      SectorFrame(s, t, k);
    }
  }

  lemma SectorFrame(s: State, t: State, k: Key)
    requires SectorOk(s, k) && t.two == s.two && t.disk(k) == s.disk(k) && t.last(k) == s.last(k)
    requires forall b :: DirtyAt(s, b, k) ==> DirtyAt(t, b, k)
    ensures SectorOk(t, k)
  {
  }

  // ---------- steps that change one buffer, outside the queue, and the process that holds it ----------

  /** What the other processes may notice: a sleeper on a buffer that is let go is woken. */
  ghost predicate OtherOk(s: State, t: State, b: nat, q: nat)
    requires b < |s.bufs| == |t.bufs| && q < |s.procs| == |t.procs|
  {
    && t.procs[q].held == s.procs[q].held && b !in s.procs[q].held
    && (|| t.procs[q].op == WakeOp(s.procs[q].op, b)
        || (t.procs[q].op == s.procs[q].op
            && (s.bufs[b].busy ==> t.bufs[b].busy && t.bufs[b].key == s.bufs[b].key)))
  }

  /** `t` differs from `s` only at buffer `b`, process `p`, and what `b`'s sector should read as. */
  ghost predicate OneChanged(s: State, t: State, p: nat, b: nat) {
    && |t.bufs| == |s.bufs| && |t.procs| == |s.procs| && p < |s.procs| && b < |s.bufs|
    && t.queue == s.queue && t.drive == s.drive && t.two == s.two && b !in s.queue && !s.procs[p].op.Wait?
    && (forall a :: 0 <= a < |s.bufs| && a != b ==> t.bufs[a] == s.bufs[a])
    && (forall q :: 0 <= q < |s.procs| && q != p ==> OtherOk(s, t, b, q))
    && (forall k :: t.disk(k) == s.disk(k) && (k != s.bufs[b].key ==> t.last(k) == s.last(k)))
    && (s.bufs[b].busy || forall k :: t.last(k) == s.last(k))
  }

  /** Buffer `b` and process `p` are in order again. */
  ghost predicate OneOk(t: State, p: nat, b: nat)
    requires b < |t.bufs| && p < |t.procs|
  {
    && BufOk(t, b) && OpOk(t, p)
    && (forall c :: 0 <= c ==> HeldOk(t, p, c))
    && (forall a :: 0 <= a < |t.bufs| ==> KeysApart(t, a, b) && KeysApart(t, b, a))
  }

  lemma KeepOneBuf(s: State, t: State, p: nat, b: nat, a: nat)
    requires Inv(s) && OneChanged(s, t, p, b) && a < |s.bufs| && a != b
    requires forall c :: 0 <= c ==> HeldOk(t, p, c)
    requires t.procs[p].held + {b} == s.procs[p].held + {b}
    ensures BufOk(t, a)
  {
    assert BufOk(s, a) && BufOk(s, b) && KeysApart(s, a, b);
    if s.bufs[a].busy && s.bufs[a].holder != p {
      assert OtherOk(s, t, b, s.bufs[a].holder);
    }
  }

  lemma KeepOneOther(s: State, t: State, p: nat, b: nat, q: nat)
    requires Inv(s) && OneChanged(s, t, p, b) && q < |s.procs| && q != p
    ensures OpOk(t, q) && forall c :: 0 <= c ==> HeldOk(t, q, c)
  {
    assert OtherOk(s, t, b, q);
    assert OpOk(s, q);
    forall c | 0 <= c
      ensures HeldOk(t, q, c)
    {
      assert HeldOk(s, q, c);
    }
    var op := s.procs[q].op;
    if op.Check? || op.Woken? {
      assert HeldOk(s, q, op.b);
      assert BufOk(s, op.b) && BufOk(s, b) && KeysApart(s, op.b, b);
    }
  }

  lemma KeepOneQueue(s: State, t: State, p: nat, b: nat)
    requires Inv(s) && OneChanged(s, t, p, b)
    ensures forall i :: 0 <= i < |t.queue| ==> QueuedOk(t, i)
    ensures DriveOk(t)
  {
    forall i | 0 <= i < |t.queue|
      ensures QueuedOk(t, i)
    {
      assert QueuedOk(s, i);
      assert s.queue[i] != b;
      assert OtherOk(s, t, b, s.bufs[s.queue[i]].holder);
    }
    if s.queue != [] {
      assert s.queue[0] != b;
    }
  }

  lemma KeepOneSector(s: State, t: State, p: nat, b: nat, k: Key)
    requires Inv(s) && OneChanged(s, t, p, b)
    requires SectorOk(t, s.bufs[b].key)
    ensures SectorOk(t, k)
  {
    if k != s.bufs[b].key {
      assert SectorOk(s, k);
      forall c | DirtyAt(s, c, k)
        ensures DirtyAt(t, c, k)
      {
        assert c != b;
      }
      SectorFrame(s, t, k);
    }
  }

  lemma KeepOne(s: State, t: State, p: nat, b: nat)
    requires Inv(s) && OneChanged(s, t, p, b) && Shape(t) && OneOk(t, p, b)
    requires SectorOk(t, s.bufs[b].key)
    requires t.procs[p].held + {b} == s.procs[p].held + {b}
    ensures Inv(t)
  {
    forall a | 0 <= a < |t.bufs|
      ensures BufOk(t, a)
    {
      if a != b {
        KeepOneBuf(s, t, p, b, a);
      }
    }
    forall a, c | 0 <= a < |t.bufs| && 0 <= c < |t.bufs|
      ensures KeysApart(t, a, c)
    {
      if a != b && c != b {
        assert KeysApart(s, a, c);
      }
    }
    forall q | 0 <= q < |t.procs|
      ensures OpOk(t, q)
    {
      if q != p {
        KeepOneOther(s, t, p, b, q);
      }
    }
    forall q, c | 0 <= q < |t.procs| && 0 <= c
      ensures HeldOk(t, q, c)
    {
      if q != p {
        KeepOneOther(s, t, p, b, q);
      }
    }
    KeepOneQueue(s, t, p, b);
    forall k
      ensures SectorOk(t, k)
    {
      KeepOneSector(s, t, p, b, k);
    }
  }
}
