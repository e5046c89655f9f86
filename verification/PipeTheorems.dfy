/** Pipes over whole runs: first in first out, what a call returns, and when nobody is left
    asleep who could go on. */
module PipeTheorems {
  import opened Words
  import opened Pipes

  /** In every run the bytes taken are a prefix of the bytes stored, and at most PIPESIZE are outstanding. */
  lemma FifoEver(s: State, es: seq<Step>)
    requires Boot(s)
    ensures forall t :: t in Run(s, es) ==> t.got <= t.sent && |t.sent| - |t.got| <= PIPESIZE
  {
    BootSafe(s);
    RunSafe(s, es);
  }

  /** What `piperead` returns: the next bytes of the stream, fewer than asked for only from an
      empty pipe, none only at the end of the stream. */
  lemma ReadReturns(s: State, p: nat)
    requires Safe(s) && Enabled(s, Go(p)) && s.procs[p].op.RCopy?
    ensures var op := s.procs[p].op; var t := GoNext(s, p);
      t.procs[p].op.Returned? ==>
        && t.procs[p].op == Returned(|op.out|, op.out) && |op.out| <= op.n
        && |op.out| <= |t.got| && op.out == t.sent[|t.got| - |op.out|..|t.got|]
        && (|op.out| < op.n ==> t.got == t.sent)
        && (op.out == [] && op.n > 0 ==> !t.writeopen)
  {
    assert Copying(s, p);
    CountersExact(s);
  }

  /** `pipewrite` returns its count only after storing exactly its bytes, in order; otherwise it
      fails, and only with the pipe full and the reader gone or the writer killed. */
  lemma WriteReturns(s: State, p: nat)
    requires Safe(s) && Enabled(s, Go(p)) && s.procs[p].op.WLoop?
    ensures var op := s.procs[p].op; var t := GoNext(s, p);
      t.procs[p].op.Returned? ==>
        if t.procs[p].op.code == -1 then Full(s) && (!s.readopen || s.procs[p].killed)
        else t.procs[p].op.code == |op.bytes| && |t.who| == |t.sent| && EndsWith(Part(t.sent, t.who, p), op.bytes)
  {
    var op := s.procs[p].op;
    assert Stored(s, p);
    if op.i >= |op.bytes| {
      assert op.bytes[..op.i] == op.bytes;
    }
  }

  // ---------- nobody sleeps in vain ----------

  predicate HolderIs(s: State, write: bool) {
    s.lock.By? && s.lock.p < |s.procs|
    && if write then s.procs[s.lock.p].op.WLoop? else s.procs[s.lock.p].op.RCopy?
  }

  /** A reader sleeps only on an empty pipe with a writer to come, except while a writer is at work. */
  predicate ReaderCovered(s: State, p: nat)
    requires p < |s.procs|
  {
    s.procs[p].op.RSleep? ==> (Empty(s) && s.writeopen) || HolderIs(s, true)
  }

  predicate WriterCovered(s: State, p: nat)
    requires p < |s.procs|
  {
    s.procs[p].op.WSleep? ==> (Full(s) && s.readopen) || HolderIs(s, false)
  }

  ghost predicate Live(s: State) {
    forall p :: 0 <= p < |s.procs| ==> ReaderCovered(s, p) && WriterCovered(s, p)
  }

  predicate ReaderAsleep(s: State, p: nat) {
    p < |s.procs| && s.procs[p].op.RSleep?
  }

  /** A killed writer gives up on a full pipe without waking the readers that sleep. */
  ghost predicate Strands(s: State, e: Step) {
    && e.Go? && e.p < |s.procs| && s.procs[e.p].op.WLoop? && s.procs[e.p].op.i < |s.procs[e.p].op.bytes|
    && Full(s) && s.readopen && s.procs[e.p].killed && exists r: nat :: ReaderAsleep(s, r)
  }

  lemma BootLive(s: State)
    requires Boot(s)
    ensures Live(s)
  {
  }

  lemma NotBoth(s: State)
    requires Safe(s)
    ensures !(Empty(s) && Full(s))
  {
    CountersExact(s);
  }

  lemma GoLiveSelf(s: State, p: nat)
    requires Safe(s) && Live(s) && Enabled(s, Go(p))
    ensures var t := GoNext(s, p); p < |t.procs| && ReaderCovered(t, p) && WriterCovered(t, p)
  {
    assert Locking(s, p);
    hide Safe, Live, Store, Fetch, Part;
  }

  /** The other sleepers: those the step can disturb are woken by it, unless it strands them. */
  lemma GoLiveOther(s: State, p: nat, q: nat)
    requires Safe(s) && Live(s) && Enabled(s, Go(p)) && !Strands(s, Go(p)) && q < |s.procs| && q != p
    ensures var t := GoNext(s, p); |t.procs| == |s.procs| && ReaderCovered(t, q) && WriterCovered(t, q)
  {
    assert Locking(s, p) && Locking(s, q);
    assert ReaderCovered(s, q) && WriterCovered(s, q);
    assert ReaderAsleep(s, q) <==> s.procs[q].op.RSleep?;
    NotBoth(s);
    hide Safe, Live, Full, Empty, Part;
  }

  lemma OtherStepsLive(s: State, e: Step)
    requires Safe(s) && Live(s) && Enabled(s, e) && !e.Go?
    ensures Live(Next(s, e))
  {
    var t := Next(s, e);
    assert s.lock.By? ==> Locking(s, s.lock.p);
    forall p | 0 <= p < |t.procs|
      ensures ReaderCovered(t, p) && WriterCovered(t, p)
    {
      assert ReaderCovered(s, p) && WriterCovered(s, p);
    }
  }

  lemma StrandedNotLive(s: State, e: Step)
    requires Safe(s) && Enabled(s, e) && Strands(s, e)
    ensures !Live(Next(s, e))
  {
    var r: nat :| ReaderAsleep(s, r);
    NotBoth(s);
    var t := Next(s, e);
    assert t.procs[r].op.RSleep? && t.lock == Free;
    assert !ReaderCovered(t, r);
  }

  /** The promise survives a step if and only if the step is not a killed writer giving up on a
      full pipe in front of a sleeping reader. */
  lemma LiveExactly(s: State, e: Step)
    requires Safe(s) && Live(s) && Enabled(s, e)
    ensures Live(Next(s, e)) <==> !Strands(s, e)
  {
    if Strands(s, e) {
      StrandedNotLive(s, e);
    } else if e.Go? {
      var t := GoNext(s, e.p);
      forall q | 0 <= q < |t.procs|
        ensures ReaderCovered(t, q) && WriterCovered(t, q)
      {
        if q == e.p {
          GoLiveSelf(s, q);
        } else {
          GoLiveOther(s, e.p, q);
        }
      }
    } else {
      OtherStepsLive(s, e);
    }
  }

  ghost predicate NobodyKilled(s: State) {
    forall p :: 0 <= p < |s.procs| ==> !s.procs[p].killed
  }

  lemma StillNobodyKilled(s: State, e: Step)
    requires NobodyKilled(s) && Enabled(s, e) && !e.Kill?
    ensures NobodyKilled(Next(s, e))
  {
    forall p | 0 <= p < |Next(s, e).procs|
      ensures !Next(s, e).procs[p].killed
    {
      assert !s.procs[p].killed;
    }
  }

  lemma {:induction false} RunLive(s: State, es: seq<Step>)
    requires Safe(s) && Live(s) && NobodyKilled(s) && forall e :: e in es ==> !e.Kill?
    ensures forall t :: t in Run(s, es) ==> Safe(t) && Live(t)
    decreases |es|
  {
    hide Safe, Live, Next, NobodyKilled;
    if es != [] && Enabled(s, es[0]) {
      var e := es[0];
      assert e in es;
      NextSafe(s, e);
      NotStranded(s, e);
      LiveExactly(s, e);
      StillNobodyKilled(s, e);
      RunLive(Next(s, e), es[1..]);
    }
  }

  lemma NotStranded(s: State, e: Step)
    requires NobodyKilled(s)
    ensures !Strands(s, e)
  {
  }

  /** With nobody killed, whenever the lock is free: a sleeping reader means an empty pipe with
      writers, a sleeping writer a full one with readers, and never are both asleep. */
  lemma SleepersCovered(s: State, es: seq<Step>, t: State, r: nat, w: nat)
    requires Boot(s) && (forall e :: e in es ==> !e.Kill?) && t in Run(s, es) && t.lock == Free
    requires r < |t.procs| && w < |t.procs|
    ensures t.procs[r].op.RSleep? ==> t.got == t.sent && t.writeopen
    ensures t.procs[w].op.WSleep? ==> |t.sent| == |t.got| + PIPESIZE && t.readopen
    ensures !(t.procs[r].op.RSleep? && t.procs[w].op.WSleep?)
  {
    BootSafe(s);
    BootLive(s);
    RunLive(s, es);
    assert ReaderCovered(t, r) && WriterCovered(t, w);
    CountersExact(t);
  }

  // ---------- the run that strands a reader ----------

  function Times(p: nat, k: nat): (es: seq<Step>)
    ensures |es| == k
  {
    if k == 0 then [] else [Go(p)] + Times(p, k - 1)
  }

  lemma {:induction false} RunJoin(s: State, es: seq<Step>, fs: seq<Step>, t: State)
    requires Run(s, es) == [t]
    ensures Run(s, es + fs) == Run(t, fs)
    decreases |es|
  {
    if es == [] {
      assert es + fs == fs;
    } else {
      assert (es + fs)[0] == es[0] && (es + fs)[1..] == es[1..] + fs;
      RunJoin(Next(s, es[0]), es[1..], fs, t);
    }
  }

  /** A writer alone fills the pipe, byte by byte, under one hold of the lock. */
  lemma {:induction false} Fill(s: State, k: nat) returns (t: State)
    requires Safe(s) && |s.procs| == 2 && s.lock == By(1) && s.procs[1].op.WLoop? && s.readopen
    requires |s.sent| + k == |s.got| + PIPESIZE && s.procs[1].op.i + k < |s.procs[1].op.bytes|
    ensures Run(s, Times(1, k)) == [t] && Safe(t) && Full(t) && t.lock == By(1) && t.readopen && |t.procs| == 2
    ensures t.procs[0] == s.procs[0] && t.procs[1].killed == s.procs[1].killed
    ensures t.procs[1].op.WLoop? && t.procs[1].op.i < |t.procs[1].op.bytes|
    decreases k
  {
    CountersExact(s);
    if k == 0 {
      t := s;
    } else {
      NextSafe(s, Go(1));
      t := Fill(Next(s, Go(1)), k - 1);
      assert Times(1, k)[1..] == Times(1, k - 1);
    }
  }

  /** One reader asleep, one writer killed in the middle of a long write: after this run the
      reader sleeps although the pipe is full and the lock is free. */
  lemma StrandedRun(s: State) returns (es: seq<Step>, u: State)
    requires Boot(s) && |s.procs| == 2
    ensures u in Run(s, es) && u.lock == Free && Full(u) && u.procs != [] && u.procs[0].op.RSleep?
  {
    var bytes := Zeros(513);
    BootSafe(s);
    var s1 := Next(s, Read(0, 1));
    var s2 := Next(s1, Go(0));
    var s3 := Next(s2, Go(0));
    var s4 := Next(s3, Write(1, bytes));
    var s5 := Next(s4, Kill(1));
    var s6 := Next(s5, Go(1));
    var start := [Read(0, 1), Go(0), Go(0), Write(1, bytes), Kill(1), Go(1)];
    RunSix(s, start);
    RunSafe(s, start);
    var t := Fill(s6, PIPESIZE);
    es := start + Times(1, PIPESIZE) + [Go(1)];
    RunJoin(s, start, Times(1, PIPESIZE), s6);
    RunJoin(s, start + Times(1, PIPESIZE), [Go(1)], t);
    u := Next(t, Go(1));
    assert Run(t, [Go(1)]) == Run(u, []);
  }

  lemma RunSix(s: State, es: seq<Step>)
    requires |es| == 6 && Enabled(s, es[0])
    requires Enabled(Next(s, es[0]), es[1])
    requires Enabled(Next(Next(s, es[0]), es[1]), es[2])
    requires Enabled(Next(Next(Next(s, es[0]), es[1]), es[2]), es[3])
    requires Enabled(Next(Next(Next(Next(s, es[0]), es[1]), es[2]), es[3]), es[4])
    requires Enabled(Next(Next(Next(Next(Next(s, es[0]), es[1]), es[2]), es[3]), es[4]), es[5])
    ensures Run(s, es) == [Next(Next(Next(Next(Next(Next(s, es[0]), es[1]), es[2]), es[3]), es[4]), es[5])]
  {
    hide Next, Enabled;
    var e1, e2, e3, e4, e5 := es[1..], es[2..], es[3..], es[4..], es[5..];
    assert e1[1..] == e2 && e2[1..] == e3 && e3[1..] == e4 && e4[1..] == e5 && e5[1..] == [];
    var s1 := Next(s, es[0]);
    var s2 := Next(s1, es[1]);
    var s3 := Next(s2, es[2]);
    var s4 := Next(s3, es[3]);
    var s5 := Next(s4, es[4]);
    assert Run(s5, e5) == Run(Next(s5, es[5]), []);
    assert Run(s4, e4) == Run(s5, e5);
    assert Run(s3, e3) == Run(s4, e4);
    assert Run(s2, e2) == Run(s3, e3);
    assert Run(s1, e1) == Run(s2, e2);
  }
}
