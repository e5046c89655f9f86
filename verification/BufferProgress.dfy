/** Calls on the buffer cache get somewhere: an uncontended `bread` returns with the sector, a
    `bwrite` returns with its data on the disk, a release lets the sleepers look again. */
module BufferProgress {
  import opened Options
  import opened Words
  import opened Recency
  import opened Buffers
  import opened BufferInv
  import opened BufferSteps
  import opened BufferTheorems

  // ---------- runs ----------

  /** The run `es` leads from `s` to `t`. */
  ghost predicate Leads(s: State, es: seq<Step>, t: State) {
    Run(s, es) == Some(t)
  }

  lemma First(s: State, e: Step, es: seq<Step>, t: State)
    requires Enabled(s, e) && !Faults(s, e) && Leads(Next(s, e), es, t)
    ensures Leads(s, [e] + es, t)
  {
    assert ([e] + es)[1..] == es;
    hide Enabled, Faults, Next;
  }

  lemma {:induction false} Joined(s: State, es: seq<Step>, t: State, fs: seq<Step>, u: State)
    requires Leads(s, es, t) && Leads(t, fs, u)
    ensures Leads(s, es + fs, u)
    decreases |es|
  {
    hide Enabled, Faults, Next;
    if es == [] {
      assert es + fs == fs;
    } else {
      Joined(Next(s, es[0]), es[1..], t, fs, u);
      assert es + fs == [es[0]] + (es[1..] + fs);
      assert (es + fs)[1..] == es[1..] + fs;
    }
  }

  // ---------- the queue is served ----------

  /** What stays as it is while the drive works: everything but the disk, the queue and who waits for it. */
  ghost predicate Same(s: State, t: State, p: nat) {
    && t.last == s.last && t.two == s.two && t.order == s.order && |t.procs| == |s.procs| && |t.bufs| == |s.bufs|
    && (p < |s.procs| ==> t.procs[p].held == s.procs[p].held)
    && forall b :: 0 <= b < |s.bufs| ==> t.bufs[b].key == s.bufs[b].key && t.bufs[b].busy == s.bufs[b].busy
  }

  /** The drive finishes its command. */
  lemma DriveTurns(s: State, p: nat) returns (es: seq<Step>, t: State)
    requires Inv(s) && s.queue != []
    ensures Inv(t) && |es| <= 1 && Leads(s, es, t) && t.drive.Done? && t.queue == s.queue && t.procs == s.procs && Same(s, t, p)
  {
    if s.drive.Running? {
      es := [Complete];
      t := Next(s, Complete);
      CompleteKeeps(s);
      assert Leads(t, [], t);
      First(s, Complete, [], t);
      assert [Complete] + [] == [Complete];
    } else {
      es := [];
      t := s;
    }
    hide Inv;
  }

  /** The interrupt takes the head from the queue and wakes its process. */
  lemma InterruptTurns(s: State, p: nat, i: nat) returns (t: State)
    requires Inv(s) && s.drive.Done? && i < |s.queue| && p < |s.procs| && s.procs[p].op.Wait? && s.procs[p].op.b == s.queue[i]
    ensures Enabled(s, Interrupt) && !Faults(s, Interrupt) && t == Next(s, Interrupt) && Inv(t) && Same(s, t, p)
    ensures i == 0 ==> t.procs[p].op == Woken(s.procs[p].op.key, s.queue[0])
    ensures i > 0 ==> t.procs[p].op == s.procs[p].op && i - 1 < |t.queue| && t.queue[i - 1] == s.queue[i]
  {
    OnlyBuffersFault(s, Interrupt);
    t := Next(s, Interrupt);
    InterruptKeeps(s);
    QueueMoves(s, Interrupt, p, i);
    hide Inv;
  }

  lemma {:induction false} Served(s: State, p: nat, i: nat) returns (es: seq<Step>, t: State)
    requires Inv(s) && i < |s.queue| && p < |s.procs| && s.procs[p].op.Wait? && s.procs[p].op.b == s.queue[i]
    ensures Inv(t) && Leads(s, es, t) && |es| <= 2 * i + 2 && Same(s, t, p)
    ensures p < |t.procs| && t.procs[p].op == Woken(s.procs[p].op.key, s.queue[i])
    decreases i
  {
    hide Inv, Next, Enabled, Faults, Leads;
    var fs, u := DriveTurns(s, p);
    var v := InterruptTurns(u, p, i);
    var gs: seq<Step> := [];
    t := v;
    if i > 0 {
      gs, t := Served(v, p, i - 1);
    } else {
      Here(v);
    }
    First(u, Interrupt, gs, t);
    Joined(s, fs, u, [Interrupt] + gs, t);
    es := fs + ([Interrupt] + gs);
  }

  lemma Here(s: State)
    ensures Leads(s, [], s)
  {
  }

  // ---------- bread and bwrite ----------

  /** Process `p` has returned holding `b` with the sector as last written, which the disk has, too. */
  ghost predicate Fetched(t: State, p: nat, b: nat, key: Key) {
    && p < |t.procs| && t.procs[p].op.Idle? && b in t.procs[p].held && b < |t.bufs| && t.bufs[b].key == key
    && t.bufs[b].valid && !t.bufs[b].dirty && t.bufs[b].data == t.last(key) && t.disk(key) == t.last(key)
  }

  lemma SettledOnDisk(s: State, b: nat)
    requires Inv(s) && b < |s.bufs| && s.bufs[b].busy && !s.bufs[b].dirty
    ensures s.disk(s.bufs[b].key) == s.last(s.bufs[b].key)
  {
    assert BufOk(s, b) && SectorOk(s, s.bufs[b].key);
    forall c | DirtyAt(s, c, s.bufs[b].key)
      ensures c == b
    {
      assert KeysApart(s, b, c);
    }
  }

  /** Woken with its request done, the process returns. */
  lemma Rechecked(s: State, p: nat, key: Key, b: nat) returns (t: State)
    requires Inv(s) && p < |s.procs| && s.procs[p].op == Woken(key, b)
    ensures Inv(t) && Leads(s, [Recheck(p)], t) && Same(s, t, p) && Fetched(t, p, b, key)
  {
    assert OpOk(s, p) && HeldOk(s, p, b);
    SettledOnDisk(s, b);
    RecheckKeeps(s, p);
    t := Next(s, Recheck(p));
    Here(t);
    First(s, Recheck(p), [], t);
    assert [Recheck(p)] + [] == [Recheck(p)];
    hide Inv, OpOk, HeldOk;
  }

  lemma Queued(s: State, p: nat, key: Key, b: nat) returns (t: State)
    requires Inv(s) && p < |s.procs| && s.procs[p].op == Start(key, b)
    ensures Enabled(s, Enqueue(p)) && !Faults(s, Enqueue(p)) && t == Next(s, Enqueue(p)) && Inv(t) && Same(s, t, p)
    ensures t.queue == s.queue + [b] && p < |t.procs| && t.procs[p].op == Wait(key, b)
  {
    OnlyBuffersFault(s, Enqueue(p));
    EnqueueKeeps(s, p);
    t := Next(s, Enqueue(p));
    hide Inv;
  }

  /** A request is queued, served and returned from. */
  lemma Carried(s: State, p: nat, key: Key, b: nat) returns (es: seq<Step>, t: State)
    requires Inv(s) && p < |s.procs| && s.procs[p].op == Start(key, b)
    ensures Inv(t) && Leads(s, es, t) && |es| <= 2 * |s.queue| + 4 && Same(s, t, p) && Fetched(t, p, b, key)
  {
    hide Inv, Next, Enabled, Faults, Leads, Fetched;
    var u := Queued(s, p, key, b);
    var fs, v := Served(u, p, |s.queue|);
    t := Rechecked(v, p, key, b);
    Joined(u, fs, v, [Recheck(p)], t);
    First(s, Enqueue(p), fs + [Recheck(p)], t);
    es := [Enqueue(p)] + (fs + [Recheck(p)]);
  }

  /** The sector can be had: its buffer is free, or it has none and some buffer is free. */
  predicate Available(s: State, key: Key, b: nat) {
    && b < |s.bufs| && !s.bufs[b].busy
    && (s.bufs[b].key == key || forall c :: 0 <= c < |s.bufs| ==> s.bufs[c].key != key)
  }

  lemma Scanned(s: State, p: nat, key: Key, free: nat) returns (t: State, b: nat)
    requires Inv(s) && p < |s.procs| && s.procs[p].op == Get(key) && Available(s, key, free)
    ensures Enabled(s, Scan(p)) && !Faults(s, Scan(p)) && t == Next(s, Scan(p)) && Inv(t)
    ensures t.last == s.last && t.queue == s.queue && |t.procs| == |s.procs| && |t.bufs| == |s.bufs|
    ensures t.procs[p] == Proc(s.procs[p].held + {b}, Check(key, b)) && b < |s.bufs| && !s.bufs[b].busy
    ensures s.bufs[free].key == key ==> b == free && t.bufs[b].valid == s.bufs[b].valid
  {
    OnlyBuffersFault(s, Scan(p));
    assert free in s.order;
    assert OpOk(s, p);
    if Hit(s, key).Some? {
      var h := Hit(s, key).value;
      assert KeysApart(s, free, h);
    }
    ScanKeeps(s, p);
    t := Next(s, Scan(p));
    b := t.procs[p].op.b;
    hide Inv;
  }

  lemma Checked(s: State, p: nat, key: Key, b: nat) returns (t: State)
    requires Inv(s) && p < |s.procs| && s.procs[p].op == Check(key, b)
    ensures Enabled(s, CheckValid(p)) && !Faults(s, CheckValid(p)) && t == Next(s, CheckValid(p)) && Inv(t) && Same(s, t, p)
    ensures t.queue == s.queue && p < |t.procs| && b < |s.bufs|
    ensures if s.bufs[b].valid then Fetched(t, p, b, key) else t.procs[p].op == Start(key, b)
  {
    OnlyBuffersFault(s, CheckValid(p));
    assert OpOk(s, p) && HeldOk(s, p, b);
    SettledOnDisk(s, b);
    CheckValidKeeps(s, p);
    t := Next(s, CheckValid(p));
    hide Inv, OpOk, HeldOk;
  }

  /** `bread` of a sector that can be had returns, after a number of steps bounded by the queue,
      with a buffer that was free and now holds what was last written to the sector; a valid
      cached buffer is returned at once. */
  lemma ReadCompletes(s: State, p: nat, key: Key, free: nat) returns (es: seq<Step>, t: State, b: nat)
    requires Inv(s) && p < |s.procs| && s.procs[p].op.Idle? && Proper(s.two, key) && Available(s, key, free)
    ensures Inv(t) && Leads(s, es, t) && |es| <= 2 * |s.queue| + 7
    ensures Fetched(t, p, b, key) && t.procs[p].held == s.procs[p].held + {b} && t.last == s.last
    ensures b < |s.bufs| && !s.bufs[b].busy
    ensures s.bufs[free].key == key ==> b == free && (s.bufs[b].valid ==> |es| == 3)
  {
    hide Inv, Next, Enabled, Faults, Leads, Fetched;
    var s1 := Asked(s, p, key);
    var s2;
    s2, b := Scanned(s1, p, key, free);
    var s3 := Checked(s2, p, key, b);
    var fs: seq<Step> := [];
    t := s3;
    if s2.bufs[b].valid {
      Here(t);
    } else {
      fs, t := Carried(s3, p, key, b);
    }
    First(s2, CheckValid(p), fs, t);
    First(s1, Scan(p), [CheckValid(p)] + fs, t);
    First(s, Bread(p, key), [Scan(p)] + ([CheckValid(p)] + fs), t);
    es := [Bread(p, key)] + ([Scan(p)] + ([CheckValid(p)] + fs));
  }

  lemma Asked(s: State, p: nat, key: Key) returns (t: State)
    requires Inv(s) && p < |s.procs| && s.procs[p].op.Idle? && Proper(s.two, key)
    ensures Enabled(s, Bread(p, key)) && !Faults(s, Bread(p, key)) && t == Next(s, Bread(p, key)) && Inv(t)
    ensures t.procs == s.procs[p := Proc(s.procs[p].held, Get(key))] && t.bufs == s.bufs && t.queue == s.queue && t.last == s.last
  {
    BreadKeeps(s, p, key);
    t := Next(s, Bread(p, key));
    hide Inv;
  }

  lemma WriteStarts(s: State, p: nat, b: nat) returns (t: State)
    requires Inv(s) && IdleHolder(s, p, b)
    ensures Enabled(s, Bwrite(p, b)) && !Faults(s, Bwrite(p, b)) && t == Next(s, Bwrite(p, b)) && Inv(t)
    ensures p < |t.procs| && t.procs[p] == Proc(s.procs[p].held, Start(s.bufs[b].key, b)) && t.queue == s.queue
    ensures forall k :: t.last(k) == if k == s.bufs[b].key then s.bufs[b].data else s.last(k)
  {
    OnlyBuffersFault(s, Bwrite(p, b));
    BwriteKeeps(s, p, b);
    t := Next(s, Bwrite(p, b));
    hide Inv;
  }

  /** `bwrite` returns, after a number of steps bounded by the queue, and then the disk has the
      bytes that were in the buffer. */
  lemma WriteCompletes(s: State, p: nat, b: nat) returns (es: seq<Step>, t: State)
    requires Inv(s) && IdleHolder(s, p, b)
    ensures Inv(t) && Leads(s, es, t) && |es| <= 2 * |s.queue| + 5
    ensures p < |t.procs| && t.procs[p].op.Idle? && t.procs[p].held == s.procs[p].held
    ensures t.disk(s.bufs[b].key) == s.bufs[b].data
    ensures forall k :: t.last(k) == if k == s.bufs[b].key then s.bufs[b].data else s.last(k)
  {
    hide Inv, Next, Enabled, Faults, Leads;
    var u := WriteStarts(s, p, b);
    var fs;
    fs, t := Carried(u, p, s.bufs[b].key, b);
    First(s, Bwrite(p, b), fs, t);
    es := [Bwrite(p, b)] + fs;
  }

  // ---------- change and release ----------

  /** The holder's bytes go into the buffer and nowhere else. */
  lemma ChangeStores(s: State, p: nat, b: nat, data: Block)
    requires Enabled(s, Change(p, b, data))
    ensures var t := Next(s, Change(p, b, data));
      && |t.bufs| == |s.bufs| && t.bufs[b].data == data && t.bufs[b].key == s.bufs[b].key
      && (forall c :: 0 <= c < |s.bufs| && c != b ==> t.bufs[c] == s.bufs[c])
      && t.procs == s.procs && t.queue == s.queue && t.disk == s.disk && t.last == s.last
  {
  }

  /** A released buffer is free and in front; who slept for it looks through the cache again. */
  lemma ReleaseFrees(s: State, p: nat, b: nat)
    requires Inv(s) && Enabled(s, Brelse(p, b))
    ensures !Faults(s, Brelse(p, b))
    ensures var t := Next(s, Brelse(p, b));
      && b < |t.bufs| && !t.bufs[b].busy && t.bufs[b].data == s.bufs[b].data && t.bufs[b].key == s.bufs[b].key
      && t.order != [] && t.order[0] == b && p < |t.procs| == |s.procs| && b !in t.procs[p].held
      && forall q :: 0 <= q < |s.procs| && s.procs[q].op.GetSleep? && s.procs[q].op.b == b ==>
           t.procs[q].op == Get(s.procs[q].op.key)
  {
    OnlyBuffersFault(s, Brelse(p, b));
    hide Inv;
  }
}
