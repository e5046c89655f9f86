/** What the calls of the process module accomplish: the scheduler runs what is runnable,
    and each call, carried through by its CPU while the table lock is to be had, does its
    work, told field by field. */
module KernelCalls {
  import opened Options
  import opened Kernel
  import opened KernelInv
  import opened KernelSteps
  import opened KernelSpecial
  import opened KernelRuns
  import opened KernelTheorems

  // ---------- runs one step longer ----------

  lemma {:induction false} RunSnoc(s: State, es: seq<Event>, e: Event)
    requires IsRun(s, es) && Enabled(Run(s, es), e)
    ensures IsRun(s, es + [e]) && Run(s, es + [e]) == Next(Run(s, es), e)
    decreases |es|
  {
    hide Enabled, Next;
    if es == [] {
      assert ([] + [e])[1..] == [];
    } else {
      assert (es + [e])[1..] == es[1..] + [e];
      RunSnoc(Next(s, es[0]), es[1..], e);
    }
  }

  lemma ReachableNext(s: State, e: Event)
    requires Reachable(s) && Enabled(s, e)
    ensures Reachable(Next(s, e))
  {
    hide Enabled, Next, Boot;
    var s0, es :| Boot(s0) && IsRun(s0, es) && Run(s0, es) == s;
    RunSnoc(s0, es, e);
  }

  // ---------- the scheduler ----------

  /** CPU `c` now runs process `i` on its stack and its page directory. */
  predicate RunsProcess(t: State, c: nat, i: nat) {
    && c < |t.cpus| && i < |t.procs|
    && t.cpus[c].on == Kthread(i) && t.cpus[c].proc == Some(i) && t.cpus[c].pgdir == Some(i)
    && t.procs[i].state == RUNNING && t.procs[i].cpu == Some(c)
  }

  /** Scanning a runnable slot, the scheduler switches to it: the process runs on this CPU, with
      the interrupt state it had when it left one, and nothing else has changed. */
  lemma SchedulerRuns(s: State, c: nat, i: nat)
    requires Reachable(s) && c < |s.cpus| && s.cpus[c].on == Scheduler && s.cpus[c].spc == Scan(i)
    requires i < |s.procs| && s.procs[i].state == RUNNABLE
    ensures Enabled(s, Sched(c))
    ensures var t := Next(s, Sched(c));
      && |t.cpus| == |s.cpus| && |t.procs| == |s.procs| && RunsProcess(t, c, i)
      && t.procs[i].pc == s.procs[i].pc && (!s.procs[i].pc.ForkRet? ==> t.cpus[c].intena == s.procs[i].saved)
      && t.procs[i].parent == s.procs[i].parent && t.procs[i].killed == s.procs[i].killed
      && t.locks == s.locks && t.init == s.init
      && (forall d :: 0 <= d < |s.cpus| && d != c ==> t.cpus[d] == s.cpus[d])
      && (forall q :: 0 <= q < |s.procs| && q != i ==> t.procs[q] == s.procs[q])
  {
  }

  /** `n` steps of the scheduler on CPU `c`. */
  function Turns(c: nat, n: nat): (es: seq<Event>)
    ensures |es| == n && forall k :: 0 <= k < n ==> es[k] == Sched(c)
  {
    seq(n, _ => Sched(c))
  }

  lemma TurnsTail(c: nat, n: nat)
    requires n > 0
    ensures Turns(c, n)[1..] == Turns(c, n - 1)
  {
  }

  lemma OneTurn(s: State, c: nat, n: nat)
    requires Enabled(s, Sched(c)) && IsRun(Next(s, Sched(c)), Turns(c, n))
    ensures IsRun(s, Turns(c, n + 1)) && Run(s, Turns(c, n + 1)) == Run(Next(s, Sched(c)), Turns(c, n))
  {
    hide Enabled, Next;
    TurnsTail(c, n + 1);
  }

  /** From slot `k` on, `i` is the first runnable one. */
  predicate FirstRunnable(s: State, k: nat, i: nat) {
    k <= i < |s.procs| && s.procs[i].state == RUNNABLE && forall q :: k <= q < i ==> s.procs[q].state != RUNNABLE
  }

  lemma {:induction false} ScanReaches(s: State, c: nat, k: nat, i: nat)
    requires c < |s.cpus| && s.cpus[c].on == Scheduler && s.cpus[c].spc == Scan(k) && FirstRunnable(s, k, i)
    ensures IsRun(s, Turns(c, i - k + 1)) && RunsProcess(Run(s, Turns(c, i - k + 1)), c, i)
    decreases i - k
  {
    var t := Next(s, Sched(c));
    if k == i {
      assert Turns(c, 0) == [];
      assert RunsProcess(t, c, i);
      OneTurn(s, c, 0);
    } else {
      assert t.cpus[c] == s.cpus[c].(spc := Scan(k + 1)) && t.procs == s.procs && |t.cpus| == |s.cpus|;
      ScanReaches(t, c, k + 1, i);
      OneTurn(s, c, i - k);
    }
  }

  /** A CPU in its scheduler, the table lock free, some process runnable: within as many steps as
      there are slots, and two more, the first runnable process is on this CPU. */
  lemma SchedulerProgress(s: State, c: nat, i: nat)
    requires Reachable(s) && c < |s.cpus| && s.cpus[c].on == Scheduler && Free(s, PTable) && FirstRunnable(s, 0, i)
    ensures exists n: nat :: n <= |s.procs| + 2 && IsRun(s, Turns(c, n)) && RunsProcess(Run(s, Turns(c, n)), c, i)
  {
    hide Reachable, Next, IsRun, Run, RunsProcess;
    SchedulerIdle(s, c);
    if s.cpus[c].spc == Top {
      FromTop(s, c, i);
    } else {
      FromReady(s, c, i);
    }
  }

  /** Without the table lock, the scheduler is at the top of its loop. */
  lemma SchedulerIdle(s: State, c: nat)
    requires Reachable(s) && c < |s.cpus| && s.cpus[c].on == Scheduler && Free(s, PTable)
    ensures s.cpus[c].spc == Top || s.cpus[c].spc == Ready
  {
    ReachableInv(s);
    assert COk(s, c);
    assert PTable !in HeldBy(s, c);
  }

  lemma FromTop(s: State, c: nat, i: nat)
    requires c < |s.cpus| && s.cpus[c].on == Scheduler && s.cpus[c].spc == Top && Free(s, PTable) && FirstRunnable(s, 0, i)
    ensures IsRun(s, Turns(c, i + 3)) && RunsProcess(Run(s, Turns(c, i + 3)), c, i)
  {
    hide RunsProcess;
    var t := Next(s, Sched(c));
    FromReady(t, c, i);
    OneTurn(s, c, i + 2);
  }

  lemma FromReady(s: State, c: nat, i: nat)
    requires c < |s.cpus| && s.cpus[c].on == Scheduler && s.cpus[c].spc == Ready && Free(s, PTable) && FirstRunnable(s, 0, i)
    ensures IsRun(s, Turns(c, i + 2)) && RunsProcess(Run(s, Turns(c, i + 2)), c, i)
  {
    var t := Next(s, Sched(c));
    ScanReaches(t, c, 0, i);
    OneTurn(s, c, i + 1);
  }

  /** Back from a process, the scheduler runs on the kernel's page directory and goes on behind its slot. */
  lemma SchedulerResumes(s: State, c: nat, i: nat)
    requires Reachable(s) && c < |s.cpus| && s.cpus[c].on == Scheduler && s.cpus[c].spc == Back(i)
    ensures Enabled(s, Sched(c))
    ensures Next(s, Sched(c)) == s.(cpus := s.cpus[c := s.cpus[c].(pgdir := None, proc := None, spc := Scan(i + 1))])
  {
  }

  /** With nothing runnable from slot `k` on, the scan ends, the table lock is free again and the
      scheduler is at the top of its loop. */
  lemma {:induction false} ScanEnds(s: State, c: nat, k: nat)
    requires Reachable(s) && c < |s.cpus| && s.cpus[c].on == Scheduler && s.cpus[c].spc == Scan(k)
    requires forall q :: k <= q < |s.procs| ==> s.procs[q].state != RUNNABLE
    ensures var n := if k < |s.procs| then |s.procs| - k + 1 else 1;
      && IsRun(s, Turns(c, n))
      && var t := Run(s, Turns(c, n));
      c < |t.cpus| && t.cpus[c].spc == Top && t.cpus[c].on == Scheduler && Free(t, PTable) && t.procs == s.procs
    decreases |s.procs| - k
  {
    ScanHolds(s, c);
    hide Reachable;
    var t := Next(s, Sched(c));
    if k < |s.procs| {
      assert t.cpus[c] == s.cpus[c].(spc := Scan(k + 1)) && t.procs == s.procs && |t.cpus| == |s.cpus|;
      ReachableNext(s, Sched(c));
      ScanEnds(t, c, k + 1);
      OneTurn(s, c, |s.procs| - k);
    } else {
      assert Turns(c, 0) == [];
      OneTurn(s, c, 0);
    }
  }

  lemma ScanHolds(s: State, c: nat)
    requires Reachable(s) && c < |s.cpus| && s.cpus[c].on == Scheduler && s.cpus[c].spc.Scan?
    ensures Holds(s, c, PTable) && s.cpus[c].ncli > 0
  {
    ReachableInv(s);
    assert COk(s, c);
    assert PTable in HeldBy(s, c);
  }

  // ---------- interrupts and locks ----------

  /** An interrupt stops the thread where it is, with interrupts off, and its return goes on there
      with interrupts on; a handler on an idle CPU wakes its channel. */
  lemma InterruptDoes(s: State, c: nat, p: nat, lk: nat, ch: Chan)
    requires c < |s.cpus|
    ensures Enabled(s, Preempt(c)) && s.cpus[c].on == Kthread(p) ==>
              var t := Next(s, Preempt(c));
              && p < |s.procs| && t.procs == s.procs[p := s.procs[p].(pc := Intr(s.procs[p].pc), want := false)]
              && t.cpus == s.cpus[c := s.cpus[c].(iflag := false)] && t.locks == s.locks
              && Enabled(t, Start(c, CIret))
              && var u := Next(t, Start(c, CIret));
              u.procs == s.procs[p := s.procs[p].(want := true)] && u.cpus == s.cpus && u.locks == s.locks
    ensures Enabled(s, IdleInterrupt(c, lk, ch)) ==>
              var t := Next(s, IdleInterrupt(c, lk, ch));
              && t.cpus == s.cpus && t.locks == s.locks && |t.procs| == |s.procs|
              && forall q :: 0 <= q < |s.procs| ==>
                   t.procs[q] == s.procs[q].(state := if s.procs[q].state == SLEEPING && s.procs[q].chan == Some(ch) then RUNNABLE
                                                      else s.procs[q].state)
  {
    if Enabled(s, Preempt(c)) {
      var q := s.cpus[c].on.p;
      var t := Next(s, Preempt(c));
      assert t.procs[q := t.procs[q].(pc := s.procs[q].pc, want := true)] == s.procs[q := s.procs[q].(want := true)];
      assert t.cpus[c := t.cpus[c].(iflag := true)] == s.cpus;
    }
  }

  /** `acquire` holds the lock with interrupts off; the matching `release` restores the lock, the
      nesting and the interrupt flag. */
  lemma LockDoes(s: State, c: nat, lk: nat)
    requires c < |s.cpus| && Enabled(s, Start(c, CAcquire(lk))) && (s.cpus[c].ncli > 0 ==> !s.cpus[c].iflag)
    ensures var t := Next(s, Start(c, CAcquire(lk)));
      && Ordinary(lk) in t.locks && t.locks[Ordinary(lk)] == c && !t.cpus[c].iflag && t.cpus[c].ncli == s.cpus[c].ncli + 1
      && t.procs == s.procs && !Enabled(t, Start(c, CAcquire(lk)))
      && Enabled(t, Start(c, CRelease(lk)))
      && var u := Next(t, Start(c, CRelease(lk))); u.locks == s.locks && u.procs == s.procs && SameCpu(s.cpus[c], u.cpus[c])
  {
    var t := Next(s, Start(c, CAcquire(lk)));
    assert s.locks[Ordinary(lk) := c] - {Ordinary(lk)} == s.locks;
  }

  // ---------- one call, carried through ----------

  /** `n` steps of the thread on CPU `c`, if they can all be taken. */
  function Steps(s: State, c: nat, ok: bool, n: nat): Option<State>
    decreases n
  {
    if n == 0 then Some(s)
    else if Enabled(s, Step(c, ok)) then Steps(Next(s, Step(c, ok)), c, ok, n - 1)
    else None
  }

  /** The call is made and its first `n` steps are taken. */
  function Call(s: State, c: nat, call: Kernel.Call, ok: bool, n: nat): Option<State> {
    if Enabled(s, Start(c, call)) then Steps(Next(s, Start(c, call)), c, ok, n) else None
  }

  /** The thread of process `p` runs on CPU `c` and is at `pc`. */
  predicate At(s: State, c: nat, p: nat, pc: Pc) {
    Runs(s, c) && s.cpus[c].on.p == p && s.procs[p].pc == pc
  }

  /** Taking the first step leads to `s1`, and the others go on from there. */
  ghost predicate Leads(s: State, c: nat, ok: bool, s1: State) {
    Reachable(s1) && Onto(s, c, ok, s1)
  }

  ghost predicate Onto(s: State, c: nat, ok: bool, s1: State) {
    forall n: nat :: Steps(s, c, ok, n + 1) == Steps(s1, c, ok, n)
  }

  /** The thread can take its next step unless that takes a lock that is not free. */
  lemma CanStep(s: State, c: nat, p: nat, pc: Pc, ok: bool)
    requires Reachable(s) && At(s, c, p, pc) && !pc.Kern? && !pc.Intr?
    requires (AcquiresPTable(pc) ==> Free(s, PTable)) && (pc.SleepF? ==> Free(s, Ordinary(pc.lk)))
    ensures Enabled(s, Step(c, ok)) && Leads(s, c, ok, Next(s, Step(c, ok)))
  {
    hide Next, Enabled, Reachable;
    OnlyLocksBlock(s, c, ok);
    ReachableNext(s, Step(c, ok));
  }

  /** The first point of a call. */
  function Entry(call: Kernel.Call, pc: Pc): Pc {
    match call
    case CWake(ch) => WakeA(ch, pc)
    case CKill(v) => KillA(v, pc)
    case CSleep(ch, lk) => SleepA(ch, lk)
    case CWait => WaitA
    case CYield => YieldA(pc)
    case CExit => ExitA
    case CFork => ForkA
    case _ => pc
  }

  predicate IsCall(call: Kernel.Call) {
    call.CWake? || call.CKill? || call.CSleep? || call.CWait? || call.CYield? || call.CExit? || call.CFork?
  }

  /** The call is entered; only the thread's place has changed. */
  lemma Entered(s: State, c: nat, p: nat, call: Kernel.Call, ok: bool)
    requires Reachable(s) && Enabled(s, Start(c, call)) && IsCall(call) && Free(s, PTable) && c < |s.cpus| && s.cpus[c].on == Kthread(p)
    ensures p < |s.procs| && s.procs[p].state == RUNNING && s.procs[p].cpu == Some(c) && (s.cpus[c].ncli > 0 ==> !s.cpus[c].iflag)
    ensures var s0 := Goto(s, p, Entry(call, s.procs[p].pc));
      && Reachable(s0) && At(s0, c, p, Entry(call, s.procs[p].pc)) && Free(s0, PTable)
      && forall n: nat :: Call(s, c, call, ok, n) == Steps(s0, c, ok, n)
  {
    hide Reachable, Panics, Inv;
    ReachableNext(s, Start(c, call));
    ReachableInv(s);
    RunningNow(s, c);
  }

  lemma RunningNow(s: State, c: nat)
    requires Inv(s) && Runs(s, c)
    ensures !AtSwitch(s.procs[s.cpus[c].on.p].pc) ==> s.procs[s.cpus[c].on.p].state == RUNNING
    ensures s.procs[s.cpus[c].on.p].cpu == Some(c) && (s.cpus[c].ncli > 0 ==> !s.cpus[c].iflag)
  {
    Running(s, c);
    hide Inv, TreeOk, ForkOk, RetOk, HeldOk;
  }

  predicate AtSwitch(pc: Pc) {
    pc.SleepSwitch? || pc.WaitSwitch? || pc.YieldSwitch? || pc.ExitSwitch?
  }

  /** The table lock is taken. */
  lemma Took(s: State, c: nat, p: nat, pc: Pc, ok: bool)
    requires Reachable(s) && At(s, c, p, pc) && Free(s, PTable) && AcquiresPTable(pc)
    ensures c < |s.cpus| && p < |s.procs|
    ensures var s1 := Goto(Acquire(s, c, PTable), p, AfterLock(pc));
      Leads(s, c, ok, s1) && At(s1, c, p, AfterLock(pc)) && Holds(s1, c, PTable)
  {
    hide Reachable, Next, Enabled, Leads;
    CanStep(s, c, p, pc, ok);
    LockStep(s, c, ok);
  }

  /** The table lock is released. */
  lemma Gave(s: State, c: nat, p: nat, pc: Pc, ok: bool)
    requires Reachable(s) && At(s, c, p, pc) && ReleasesPTable(pc)
    ensures s.cpus[c].ncli > 0
    ensures var s1 := Goto(Release(s, c, PTable), p, AfterLock(pc));
      Leads(s, c, ok, s1) && At(s1, c, p, AfterLock(pc)) && Free(s1, PTable)
  {
    hide Reachable, Next, Enabled, Leads;
    CanStep(s, c, p, pc, ok);
    LockStep(s, c, ok);
  }

  lemma Leaves(s: State, c: nat, p: nat, pc: Pc, ok: bool)
    requires Reachable(s) && At(s, c, p, pc) && AtSwitch(pc)
    ensures s.cpus[c].ncli == 1 && Leads(s, c, ok, SwitchOut(s, c, p, Resumed(pc)))
  {
    hide Reachable, Next, Enabled, Leads;
    CanStep(s, c, p, pc, ok);
    SwitchOutNext(s, c, ok);
  }

  lemma Recorded(s: State, c: nat, p: nat, pc: Pc, ok: bool)
    requires Reachable(s) && At(s, c, p, pc) && RecordPoint(pc)
    ensures var s1 := s.(procs := s.procs[p := NewRecord(s.procs[p], p)]);
      Leads(s, c, ok, s1) && At(s1, c, p, NewRecord(s.procs[p], p).pc)
  {
    hide Reachable, Next, Enabled, Leads;
    CanStep(s, c, p, pc, ok);
    RecordStep(s, c, ok);
  }

  lemma Finished(s: State, c: nat, ok: bool)
    ensures Steps(s, c, ok, 0) == Some(s)
  {
  }

  /** The CPU is as it was: same thread, same nesting of locks, same interrupt flag. */
  predicate SameCpu(k: Cpu, k': Cpu) {
    k' == k.(intena := k'.intena)
  }

  /** Locks and CPUs are as before the call. */
  predicate Quiet(s: State, t: State, c: nat) {
    && |t.procs| == |s.procs| && |t.cpus| == |s.cpus| && c < |s.cpus| && t.locks == s.locks && t.init == s.init
    && SameCpu(s.cpus[c], t.cpus[c]) && forall d :: 0 <= d < |s.cpus| && d != c ==> t.cpus[d] == s.cpus[d]
  }

  /** The process has left the CPU, which holds the table lock in its scheduler. */
  predicate GaveUp(s: State, t: State, c: nat, p: nat) {
    && |t.procs| == |s.procs| && |t.cpus| == |s.cpus| && c < |s.cpus| && p < |t.procs|
    && t.cpus[c].on == Scheduler && t.procs[p].cpu == None && PTable in t.locks && t.locks[PTable] == c
    && forall d :: 0 <= d < |s.cpus| && d != c ==> t.cpus[d] == s.cpus[d]
  }

  lemma Placed(s: State, p: nat, pc: Pc)
    requires p < |s.procs|
    ensures var t := Goto(s, p, pc);
      && t.procs == s.procs[p := s.procs[p].(pc := pc)] && t.cpus == s.cpus && t.locks == s.locks && t.init == s.init
  {
  }

  // ---------- wakeup and kill ----------

  lemma WakeBLeads(s: State, c: nat, p: nat, ch: Chan, ret: Pc, ok: bool)
    requires Reachable(s) && At(s, c, p, WakeB(ch, ret))
    ensures var s1 := Goto(s.(procs := Wakeup1(s.procs, ch)), p, WakeC(ret)); Leads(s, c, ok, s1) && At(s1, c, p, WakeC(ret))
  {
    hide Reachable, Leads, Panics;
    CanStep(s, c, p, WakeB(ch, ret), ok);
  }

  /** `wakeup`: exactly the processes asleep on the channel become runnable. */
  lemma WakeupDoes(s: State, c: nat, p: nat, ch: Chan, ok: bool)
    requires Reachable(s) && Free(s, PTable) && Enabled(s, Start(c, CWake(ch))) && c < |s.cpus| && s.cpus[c].on == Kthread(p)
    ensures var r := Call(s, c, CWake(ch), ok, 3);
      && r.Some? && Quiet(s, r.value, c)
      && forall q :: 0 <= q < |s.procs| ==>
           r.value.procs[q] == s.procs[q].(state := if s.procs[q].state == SLEEPING && s.procs[q].chan == Some(ch) then RUNNABLE
                                                    else s.procs[q].state)
  {
    hide Reachable, Next, Enabled, Steps, Call, Goto, PushCli, PopCli, Wakeup1, Free, Quiet;
    Entered(s, c, p, CWake(ch), ok);
    var ret := s.procs[p].pc;
    var s0 := Goto(s, p, WakeA(ch, ret));
    Took(s0, c, p, WakeA(ch, ret), ok);
    var s1 := Goto(Acquire(s0, c, PTable), p, WakeB(ch, ret));
    WakeBLeads(s1, c, p, ch, ret, ok);
    var s2 := Goto(s1.(procs := Wakeup1(s1.procs, ch)), p, WakeC(ret));
    Gave(s2, c, p, WakeC(ret), ok);
    var s3 := Goto(Release(s2, c, PTable), p, ret);
    Finished(s3, c, ok);
    EnteredTable(s, c, p, WakeA(ch, ret), WakeB(ch, ret));
    Placed(s1.(procs := Wakeup1(s1.procs, ch)), p, WakeC(ret));
    Once(s, c, p, WakeA(ch, ret), WakeB(ch, ret), s2, ret);
    WakeupFields(s, p, ch, s1.procs, Wakeup1(s1.procs, ch));
  }

  lemma WakeupFields(s: State, p: nat, ch: Chan, t1: seq<Proc>, t2: seq<Proc>)
    requires p < |s.procs| && s.procs[p].state == RUNNING
    requires t1 == s.procs[p := s.procs[p].(pc := WakeB(ch, s.procs[p].pc))]
    requires t2 == Wakeup1(t1, ch)
    ensures forall q :: 0 <= q < |s.procs| ==>
              t2[p := t2[p].(pc := s.procs[p].pc)][q]
              == s.procs[q].(state := if s.procs[q].state == SLEEPING && s.procs[q].chan == Some(ch) then RUNNABLE
                                      else s.procs[q].state)
  {
  }

  // ---------- between taking and giving back the table lock ----------

  lemma EnteredTable(s: State, c: nat, p: nat, first: Pc, mid: Pc)
    requires c < |s.cpus| && p < |s.procs|
    ensures var s1 := Goto(Acquire(Goto(s, p, first), c, PTable), p, mid);
      && s1.procs == s.procs[p := s.procs[p].(pc := mid)] && s1.init == s.init
      && s1.cpus == s.cpus[c := PushCli(s.cpus[c])] && s1.locks == s.locks[PTable := c] && s1.cpus[c].ncli > 0
  {
  }

  lemma LeftTable(s: State, c: nat, p: nat, last: Pc)
    requires c < |s.cpus| && p < |s.procs| && s.cpus[c].ncli > 0
    ensures var t := Goto(Release(s, c, PTable), p, last);
      && t.procs == s.procs[p := s.procs[p].(pc := last)] && t.init == s.init
      && t.cpus == s.cpus[c := PopCli(s.cpus[c])] && t.locks == s.locks - {PTable}
  {
    hide PopCli;
  }

  /** What was pushed is popped: CPUs and locks are as before the call. */
  lemma Bracketed(s: State, t: State, c: nat)
    requires c < |s.cpus| && Free(s, PTable) && (s.cpus[c].ncli > 0 ==> !s.cpus[c].iflag)
    requires |t.procs| == |s.procs| && t.init == s.init
    requires t.cpus == s.cpus[c := PushCli(s.cpus[c])][c := PopCli(PushCli(s.cpus[c]))] && t.locks == s.locks[PTable := c] - {PTable}
    ensures Quiet(s, t, c)
  {
    assert t.locks == s.locks;
  }

  /** A call that works on the table once, under the lock. */
  lemma Once(s: State, c: nat, p: nat, first: Pc, mid: Pc, s2: State, last: Pc)
    requires c < |s.cpus| && p < |s.procs| && Free(s, PTable) && (s.cpus[c].ncli > 0 ==> !s.cpus[c].iflag)
    requires var s1 := Goto(Acquire(Goto(s, p, first), c, PTable), p, mid);
      s2.cpus == s1.cpus && s2.locks == s1.locks && s2.init == s1.init && |s2.procs| == |s.procs|
    ensures c < |s2.cpus| && s2.cpus[c].ncli > 0
    ensures var t := Goto(Release(s2, c, PTable), p, last);
      Quiet(s, t, c) && t.procs == s2.procs[p := s2.procs[p].(pc := last)]
  {
    hide Goto, PushCli, PopCli, Quiet;
    EnteredTable(s, c, p, first, mid);
    LeftTable(s2, c, p, last);
    Bracketed(s, Goto(Release(s2, c, PTable), p, last), c);
  }

  /** The call is made and the table lock is taken. */
  lemma Begins(s: State, c: nat, p: nat, call: Kernel.Call, mid: Pc, ok: bool) returns (s1: State)
    requires Reachable(s) && Free(s, PTable) && Enabled(s, Start(c, call)) && c < |s.cpus| && s.cpus[c].on == Kthread(p)
    requires IsCall(call) && p < |s.procs| && mid == AfterLock(Entry(call, s.procs[p].pc))
    ensures s.procs[p].state == RUNNING && (s.cpus[c].ncli > 0 ==> !s.cpus[c].iflag)
    ensures s1 == Goto(Acquire(Goto(s, p, Entry(call, s.procs[p].pc)), c, PTable), p, mid) && Reachable(s1) && At(s1, c, p, mid)
    ensures s1.procs == s.procs[p := s.procs[p].(pc := mid)] && s1.init == s.init && Holds(s1, c, PTable)
    ensures s1.cpus == s.cpus[c := PushCli(s.cpus[c])] && s1.locks == s.locks[PTable := c] && s1.cpus[c].ncli > 0
    ensures forall n: nat :: Call(s, c, call, ok, n + 1) == Steps(s1, c, ok, n)
  {
    hide Reachable, Next, Enabled, Steps, Call, Goto, PushCli, PopCli, Free;
    Entered(s, c, p, call, ok);
    var first := Entry(call, s.procs[p].pc);
    var s0 := Goto(s, p, first);
    Took(s0, c, p, first, ok);
    EnteredTable(s, c, p, first, mid);
    s1 := Goto(Acquire(s0, c, PTable), p, mid);
  }

  /** What a thread that may call `wait`, `exit` or `fork` is known by. */
  lemma Caller(s: State, c: nat, p: nat, call: Kernel.Call)
    requires Enabled(s, Start(c, call)) && (call.CWait? || call.CExit? || call.CFork?) && c < |s.cpus| && s.cpus[c].on == Kthread(p)
    ensures p < |s.procs| && s.procs[p].pc.Kern?
  {
  }

  lemma KillBLeads(s: State, c: nat, p: nat, v: nat, ret: Pc, ok: bool)
    requires Reachable(s) && At(s, c, p, KillB(v, ret)) && v < |s.procs|
    ensures var s1 := Goto(Kill1(s, v), p, KillC(ret)); Leads(s, c, ok, s1) && At(s1, c, p, KillC(ret))
  {
    hide Reachable, Leads, Panics;
    CanStep(s, c, p, KillB(v, ret), ok);
  }

  /** `kill`: the victim is marked, and made runnable if it was asleep. */
  lemma KillDoes(s: State, c: nat, p: nat, v: nat, ok: bool)
    requires Reachable(s) && Free(s, PTable) && Enabled(s, Start(c, CKill(v))) && c < |s.cpus| && s.cpus[c].on == Kthread(p)
    ensures var r := Call(s, c, CKill(v), ok, 3);
      && r.Some? && Quiet(s, r.value, c) && v < |s.procs|
      && r.value.procs[v] == s.procs[v].(killed := true, state := if s.procs[v].state == SLEEPING then RUNNABLE else s.procs[v].state)
      && forall q :: 0 <= q < |s.procs| && q != v ==> r.value.procs[q] == s.procs[q]
  {
    hide Reachable, Next, Enabled, Steps, Call, Goto, PushCli, PopCli, Kill1, Free, Quiet, Onto;
    KillVictim(s, c, p, v);
    var ret := s.procs[p].pc;
    var s1 := Begins(s, c, p, CKill(v), KillB(v, ret), ok);
    KillBLeads(s1, c, p, v, ret, ok);
    KillFields(s1, v);
    Placed(Kill1(s1, v), p, KillC(ret));
    var s2 := Goto(Kill1(s1, v), p, KillC(ret));
    Gave(s2, c, p, KillC(ret), ok);
    Once(s, c, p, KillA(v, ret), KillB(v, ret), s2, ret);
    var t := Goto(Release(s2, c, PTable), p, ret);
    TwoMore(s, c, CKill(v), ok, s1, s2, t);
    KillTable(s, p, v, s1.procs, Kill1(s1, v).procs);
  }

  lemma KillVictim(s: State, c: nat, p: nat, v: nat)
    requires Enabled(s, Start(c, CKill(v))) && c < |s.cpus| && s.cpus[c].on == Kthread(p)
    ensures v < |s.procs| && p < |s.procs|
  {
  }

  lemma KillTable(s: State, p: nat, v: nat, t1: seq<Proc>, t2: seq<Proc>)
    requires p < |s.procs| && v < |s.procs| && s.procs[p].state == RUNNING
    requires t1 == s.procs[p := s.procs[p].(pc := KillB(v, s.procs[p].pc))]
    requires t2 == t1[v := t1[v].(killed := true, state := if t1[v].state == SLEEPING then RUNNABLE else t1[v].state)]
    ensures var t := t2[p := t2[p].(pc := s.procs[p].pc)];
      && t[v] == s.procs[v].(killed := true, state := if s.procs[v].state == SLEEPING then RUNNABLE else s.procs[v].state)
      && forall q :: 0 <= q < |s.procs| && q != v ==> t[q] == s.procs[q]
  {
  }

  lemma KillFields(s: State, v: nat)
    requires v < |s.procs|
    ensures var t := Kill1(s, v);
      && t.cpus == s.cpus && t.locks == s.locks && t.init == s.init && |t.procs| == |s.procs|
      && t.procs == s.procs[v := s.procs[v].(killed := true, state := if s.procs[v].state == SLEEPING then RUNNABLE
                                                                       else s.procs[v].state)]
  {
  }

  // ---------- wait ----------

  /** Slot `z` is the first zombie whose parent is `p`. */
  predicate FirstZombieChild(s: State, p: nat, z: nat) {
    z < |s.procs| && s.procs[z].parent == Some(p) && s.procs[z].state == ZOMBIE
    && forall q :: 0 <= q < z ==> !(s.procs[q].parent == Some(p) && s.procs[q].state == ZOMBIE)
  }

  predicate NoZombieChild(s: State, p: nat) {
    forall q :: 0 <= q < |s.procs| ==> !(s.procs[q].parent == Some(p) && s.procs[q].state == ZOMBIE)
  }

  predicate Childless(s: State, p: nat) {
    forall q :: 0 <= q < |s.procs| ==> s.procs[q].parent != Some(p)
  }

  lemma ScanLeads(s: State, c: nat, p: nat, z: nat, ok: bool)
    requires Reachable(s) && At(s, c, p, WaitScan)
    ensures FirstZombieChild(s, p, z) ==>
              z < |s.procs| && var s1 := Goto(Reap(s, z), p, WaitE); Leads(s, c, ok, s1) && At(s1, c, p, WaitE)
    ensures NoZombieChild(s, p) && (Childless(s, p) || s.procs[p].killed) ==>
              var s1 := Goto(s, p, WaitE); Leads(s, c, ok, s1) && At(s1, c, p, WaitE)
    ensures NoZombieChild(s, p) && !Childless(s, p) && !s.procs[p].killed ==>
              var s1 := Goto(s, p, WaitSleep); Leads(s, c, ok, s1) && At(s1, c, p, WaitSleep)
  {
    hide Reachable, Leads, Next, Enabled;
    CanStep(s, c, p, WaitScan, ok);
    WaitScanNext(s, c, ok);
  }

  /** `wait` with a zombie child: the first one's slot is free again, its stack and page directory
      with it; no other process has changed. */
  lemma WaitReaps(s: State, c: nat, p: nat, z: nat, ok: bool)
    requires Reachable(s) && Free(s, PTable) && Enabled(s, Start(c, CWait)) && c < |s.cpus| && s.cpus[c].on == Kthread(p)
    requires FirstZombieChild(s, p, z)
    ensures var r := Call(s, c, CWait, ok, 3);
      && r.Some? && Quiet(s, r.value, c)
      && var q := r.value.procs[z];
      && q.state == UNUSED && !q.kstack && !q.vm && q.parent == None && !q.killed
      && forall k :: 0 <= k < |s.procs| && k != z ==> r.value.procs[k] == s.procs[k]
  {
    hide Reachable, Next, Enabled, Steps, Call, Goto, PushCli, PopCli, Free, Quiet, Onto, Reap, FirstZombieChild;
    Caller(s, c, p, CWait);
    var s1 := Begins(s, c, p, CWait, WaitScan, ok);
    ReapFields(s, s1, p, z);
    ScanLeads(s1, c, p, z, ok);
    Placed(Reap(s1, z), p, WaitE);
    var s2 := Goto(Reap(s1, z), p, WaitE);
    Gave(s2, c, p, WaitE, ok);
    Once(s, c, p, WaitA, WaitScan, s2, Kern);
    var t := Goto(Release(s2, c, PTable), p, Kern);
    TwoMore(s, c, CWait, ok, s1, s2, t);
    ReapTable(s.procs, p, z, Reap(s1, z).procs);
  }

  lemma ReapFields(s: State, s1: State, p: nat, z: nat)
    requires p < |s.procs| && s1.procs == s.procs[p := s.procs[p].(pc := WaitScan)]
    requires FirstZombieChild(s, p, z) && s.procs[p].state == RUNNING
    ensures z < |s1.procs| && z != p && FirstZombieChild(s1, p, z)
    ensures var t := Reap(s1, z);
      && t.cpus == s1.cpus && t.locks == s1.locks && t.init == s1.init
      && t.procs == s1.procs[z := s1.procs[z].(kstack := false, vm := false, state := UNUSED, parent := None, killed := false)]
  {
  }

  lemma ReapTable(procs: seq<Proc>, p: nat, z: nat, b: seq<Proc>)
    requires p < |procs| && z < |procs| && p != z && procs[p].pc.Kern?
    requires var a := procs[p := procs[p].(pc := WaitScan)];
      b == a[z := a[z].(kstack := false, vm := false, state := UNUSED, parent := None, killed := false)]
    ensures var d := b[p := b[p].(pc := WaitE)]; var t := d[p := d[p].(pc := Kern)];
      && t[z].state == UNUSED && !t[z].kstack && !t[z].vm && t[z].parent == None && !t[z].killed
      && forall k :: 0 <= k < |procs| && k != z ==> t[k] == procs[k]
  {
  }

  /** `wait` without children, or killed, and no zombie: it comes back with nothing changed. */
  lemma WaitRefuses(s: State, c: nat, p: nat, ok: bool)
    requires Reachable(s) && Free(s, PTable) && Enabled(s, Start(c, CWait)) && c < |s.cpus| && s.cpus[c].on == Kthread(p)
    requires NoZombieChild(s, p) && p < |s.procs| && (Childless(s, p) || s.procs[p].killed)
    ensures var r := Call(s, c, CWait, ok, 3); r.Some? && Quiet(s, r.value, c) && r.value.procs == s.procs
  {
    hide Reachable, Next, Enabled, Steps, Call, Goto, PushCli, PopCli, Free, Quiet, Onto, NoZombieChild, Childless, FirstZombieChild;
    Caller(s, c, p, CWait);
    var s1 := Begins(s, c, p, CWait, WaitScan, ok);
    SameChildren(s, s1, p);
    ScanLeads(s1, c, p, 0, ok);
    Placed(s1, p, WaitE);
    var s2 := Goto(s1, p, WaitE);
    Gave(s2, c, p, WaitE, ok);
    Once(s, c, p, WaitA, WaitScan, s2, Kern);
    var t := Goto(Release(s2, c, PTable), p, Kern);
    TwoMore(s, c, CWait, ok, s1, s2, t);
    Replaced(s.procs, p, WaitScan, WaitE);
  }

  lemma TwoMore(s: State, c: nat, call: Kernel.Call, ok: bool, s1: State, s2: State, t: State)
    requires forall n: nat :: Call(s, c, call, ok, n + 1) == Steps(s1, c, ok, n)
    requires Leads(s1, c, ok, s2) && Leads(s2, c, ok, t)
    ensures Call(s, c, call, ok, 3) == Some(t)
  {
    hide Reachable, Call, Enabled, Next;
    assert Call(s, c, call, ok, 2 + 1) == Steps(s1, c, ok, 2);
    assert Steps(s1, c, ok, 1 + 1) == Steps(s2, c, ok, 1);
    assert Steps(s2, c, ok, 0 + 1) == Steps(t, c, ok, 0);
  }

  lemma Replaced(procs: seq<Proc>, p: nat, x: Pc, y: Pc)
    requires p < |procs| && procs[p].pc.Kern?
    ensures var a := procs[p := procs[p].(pc := x)]; var b := a[p := a[p].(pc := y)]; b[p := b[p].(pc := Kern)] == procs
  {
  }

  lemma SameChildren(s: State, s1: State, p: nat)
    requires p < |s.procs| && |s1.procs| == |s.procs| && s1.procs == s.procs[p := s.procs[p].(pc := s1.procs[p].pc)]
    ensures NoZombieChild(s1, p) == NoZombieChild(s, p) && Childless(s1, p) == Childless(s, p) && s1.procs[p].killed == s.procs[p].killed
  {
    assert forall q :: 0 <= q < |s.procs| ==> s1.procs[q].parent == s.procs[q].parent && s1.procs[q].state == s.procs[q].state;
  }

  /** `wait` with living children only: it sleeps on its own address. */
  lemma WaitSleeps(s: State, c: nat, p: nat, ok: bool)
    requires Reachable(s) && Free(s, PTable) && Enabled(s, Start(c, CWait)) && c < |s.cpus| && s.cpus[c].on == Kthread(p)
    requires NoZombieChild(s, p) && p < |s.procs| && !Childless(s, p) && !s.procs[p].killed
    ensures var r := Call(s, c, CWait, ok, 4);
      && r.Some? && GaveUp(s, r.value, c, p)
      && r.value.procs[p].state == SLEEPING && r.value.procs[p].chan == Some(ProcAddr(p))
      && forall q :: 0 <= q < |s.procs| && q != p ==> r.value.procs[q] == s.procs[q]
  {
    hide Reachable, Next, Enabled, Steps, Call, Goto, PushCli, PopCli, Free;
    Caller(s, c, p, CWait);
    var s1 := Begins(s, c, p, CWait, WaitScan, ok);
    SameChildren(s, s1, p);
    ScanLeads(s1, c, p, 0, ok);
    Placed(s1, p, WaitSleep);
    var s2 := Goto(s1, p, WaitSleep);
    Recorded(s2, c, p, WaitSleep, ok);
    var s3 := s2.(procs := s2.procs[p := NewRecord(s2.procs[p], p)]);
    Leaves(s3, c, p, WaitSwitch, ok);
    Finished(SwitchOut(s3, c, p, WaitD), c, ok);
  }

  // ---------- yield and sleep ----------

  /** `yield`: the process is runnable and off the CPU. */
  lemma YieldDoes(s: State, c: nat, p: nat, ok: bool)
    requires Reachable(s) && Free(s, PTable) && Enabled(s, Start(c, CYield)) && c < |s.cpus| && s.cpus[c].on == Kthread(p)
    ensures var r := Call(s, c, CYield, ok, 3);
      && r.Some? && GaveUp(s, r.value, c, p) && r.value.procs[p].state == RUNNABLE
      && forall q :: 0 <= q < |s.procs| && q != p ==> r.value.procs[q] == s.procs[q]
  {
    hide Reachable, Next, Enabled, Steps, Call, Goto, PushCli, PopCli, Free;
    Entered(s, c, p, CYield, ok);
    var ret := s.procs[p].pc;
    var s0 := Goto(s, p, YieldA(ret));
    Took(s0, c, p, YieldA(ret), ok);
    EnteredTable(s, c, p, YieldA(ret), YieldB(ret));
    var s1 := Goto(Acquire(s0, c, PTable), p, YieldB(ret));
    Recorded(s1, c, p, YieldB(ret), ok);
    var s2 := s1.(procs := s1.procs[p := NewRecord(s1.procs[p], p)]);
    Leaves(s2, c, p, YieldSwitch(ret), ok);
    Finished(SwitchOut(s2, c, p, YieldD(ret)), c, ok);
  }

  lemma SleepBLeads(s: State, c: nat, p: nat, ch: Chan, lk: nat, ok: bool)
    requires Reachable(s) && At(s, c, p, SleepB(ch, lk))
    ensures s.cpus[c].ncli > 0
    ensures var s1 := Goto(Release(s, c, Ordinary(lk)), p, SleepC(ch, lk)); Leads(s, c, ok, s1) && At(s1, c, p, SleepC(ch, lk))
  {
    hide Reachable, Leads;
    CanStep(s, c, p, SleepB(ch, lk), ok);
  }

  /** `sleep`: the lock is released, the process asleep on the channel and off the CPU. */
  lemma SleepDoes(s: State, c: nat, p: nat, ch: Chan, lk: nat, ok: bool)
    requires Reachable(s) && Free(s, PTable) && Enabled(s, Start(c, CSleep(ch, lk))) && c < |s.cpus| && s.cpus[c].on == Kthread(p)
    ensures var r := Call(s, c, CSleep(ch, lk), ok, 4);
      && r.Some? && GaveUp(s, r.value, c, p) && Ordinary(lk) !in r.value.locks
      && r.value.procs[p].state == SLEEPING && r.value.procs[p].chan == Some(ch)
      && forall q :: 0 <= q < |s.procs| && q != p ==> r.value.procs[q] == s.procs[q]
  {
    hide Reachable, Next, Enabled, Steps, Call, Goto, PushCli, PopCli, Free;
    Entered(s, c, p, CSleep(ch, lk), ok);
    var s0 := Goto(s, p, SleepA(ch, lk));
    Took(s0, c, p, SleepA(ch, lk), ok);
    EnteredTable(s, c, p, SleepA(ch, lk), SleepB(ch, lk));
    var s1 := Goto(Acquire(s0, c, PTable), p, SleepB(ch, lk));
    SleepBLeads(s1, c, p, ch, lk, ok);
    Placed(Release(s1, c, Ordinary(lk)), p, SleepC(ch, lk));
    var s2 := Goto(Release(s1, c, Ordinary(lk)), p, SleepC(ch, lk));
    Recorded(s2, c, p, SleepC(ch, lk), ok);
    var s3 := s2.(procs := s2.procs[p := NewRecord(s2.procs[p], p)]);
    Leaves(s3, c, p, SleepSwitch(ch, lk), ok);
    Finished(SwitchOut(s3, c, p, SleepD(ch, lk)), c, ok);
  }

  lemma SleepFLeads(s: State, c: nat, p: nat, lk: nat, ok: bool)
    requires Reachable(s) && At(s, c, p, SleepF(lk)) && Free(s, Ordinary(lk))
    ensures var s1 := Goto(Acquire(s, c, Ordinary(lk)), p, Kern); Leads(s, c, ok, s1) && At(s1, c, p, Kern)
  {
    hide Reachable, Leads, Panics;
    CanStep(s, c, p, SleepF(lk), ok);
  }

  /** Run again, `sleep` forgets the channel and comes back holding its lock, the table lock free. */
  lemma SleepReturns(s: State, c: nat, p: nat, ch: Chan, lk: nat, ok: bool)
    requires Reachable(s) && At(s, c, p, SleepD(ch, lk)) && Free(s, Ordinary(lk))
    ensures var r := Steps(s, c, ok, 3);
      && r.Some? && var t := r.value;
      && |t.procs| == |s.procs| && t.procs[p] == s.procs[p].(chan := None, pc := Kern)
      && Ordinary(lk) in t.locks && t.locks[Ordinary(lk)] == c && PTable !in t.locks
      && forall q :: 0 <= q < |s.procs| && q != p ==> t.procs[q] == s.procs[q]
  {
    hide Reachable, Next, Enabled, Steps, Goto, PushCli, PopCli;
    Recorded(s, c, p, SleepD(ch, lk), ok);
    var s1 := s.(procs := s.procs[p := NewRecord(s.procs[p], p)]);
    Gave(s1, c, p, SleepE(lk), ok);
    LeftTable(s1, c, p, SleepF(lk));
    var s2 := Goto(Release(s1, c, PTable), p, SleepF(lk));
    SleepFLeads(s2, c, p, lk, ok);
    Placed(Acquire(s2, c, Ordinary(lk)), p, Kern);
    Finished(Goto(Acquire(s2, c, Ordinary(lk)), p, Kern), c, ok);
  }

  // ---------- exit ----------

  lemma ExitBLeads(s: State, c: nat, p: nat, ok: bool)
    requires Reachable(s) && At(s, c, p, ExitB)
    ensures var procs := if s.procs[p].parent.Some? then Wakeup1(s.procs, ProcAddr(s.procs[p].parent.value)) else s.procs;
      var s1 := Goto(s.(procs := procs), p, ExitC); Leads(s, c, ok, s1) && At(s1, c, p, ExitC)
  {
    hide Reachable, Leads, Panics, Wakeup1;
    CanStep(s, c, p, ExitB, ok);
    assert s.(procs := s.procs) == s;
  }

  lemma ExitCLeads(s: State, c: nat, p: nat, ok: bool)
    requires Reachable(s) && At(s, c, p, ExitC)
    ensures var s1 := Goto(s.(procs := Adopt(s.procs, p, s.init)), p, ExitD); Leads(s, c, ok, s1) && At(s1, c, p, ExitD)
  {
    hide Reachable, Leads, Panics;
    CanStep(s, c, p, ExitC, ok);
  }

  /** Some zombie is a child of `p`. */
  predicate LeavesZombie(s: State, p: nat) {
    exists z :: 0 <= z < |s.procs| && s.procs[z].parent == Some(p) && s.procs[z].state == ZOMBIE
  }

  /** Whether the exit of `p` wakes a process sleeping on `chan`: the parent of `p` in `wait`, and
      `init` in `wait` when it inherits a zombie. */
  predicate ExitWakesOn(s: State, p: nat, chan: Option<Chan>)
    requires p < |s.procs|
  {
    || (s.procs[p].parent.Some? && chan == Some(ProcAddr(s.procs[p].parent.value)))
    || (LeavesZombie(s, p) && chan == Some(ProcAddr(s.init)))
  }

  /** A process other than the one that exits, before and after. */
  predicate Orphaned(s: State, p: nat, q: Proc, r: Proc)
    requires p < |s.procs|
  {
    r == q.(parent := if q.parent == Some(p) then Some(s.init) else q.parent,
            state := if q.state == SLEEPING && ExitWakesOn(s, p, q.chan) then RUNNABLE else q.state)
  }

  /** `exit`: a zombie off the CPU; its children belong to `init`; its parent is woken if it waits,
      and `init` if it waits and inherits a zombie. */
  lemma ExitDoes(s: State, c: nat, p: nat, ok: bool)
    requires Reachable(s) && Free(s, PTable) && Enabled(s, Start(c, CExit)) && c < |s.cpus| && s.cpus[c].on == Kthread(p)
    ensures var r := Call(s, c, CExit, ok, 5);
      && r.Some? && GaveUp(s, r.value, c, p) && r.value.procs[p].state == ZOMBIE
      && forall q :: 0 <= q < |s.procs| && q != p ==> Orphaned(s, p, s.procs[q], r.value.procs[q])
  {
    hide Reachable, Next, Enabled, Steps, Call, Goto, PushCli, PopCli, Free, Wakeup1, Adopt, Orphaned, Onto;
    Caller(s, c, p, CExit);
    var s1 := Begins(s, c, p, CExit, ExitB, ok);
    var s2, s3 := ExitWorks(s1, c, p, ok);
    var s4, t := ExitEnds(s3, c, p, ok);
    FourMore(s, c, CExit, ok, s1, s2, s3, s4, t);
    SameOrphans(s, s1, p, ExitB);
    ScheduledAway(s, c, s1.cpus, t);
  }

  /** The two steps on the table: the parent is woken, the children are handed over. */
  lemma ExitWorks(s: State, c: nat, p: nat, ok: bool) returns (s1: State, s2: State)
    requires Reachable(s) && At(s, c, p, ExitB) && s.procs[p].state == RUNNING
    ensures Leads(s, c, ok, s1) && Leads(s1, c, ok, s2) && At(s2, c, p, ExitD)
    ensures |s2.procs| == |s.procs| && s2.locks == s.locks && s2.cpus == s.cpus && s2.init == s.init
    ensures forall q :: 0 <= q < |s.procs| && q != p ==> Orphaned(s, p, s.procs[q], s2.procs[q])
  {
    hide Reachable, Next, Enabled, Steps, Goto, Wakeup1, Adopt, Orphaned, Onto;
    ExitBLeads(s, c, p, ok);
    var t1 := if s.procs[p].parent.Some? then Wakeup1(s.procs, ProcAddr(s.procs[p].parent.value)) else s.procs;
    Placed(s.(procs := t1), p, ExitC);
    s1 := Goto(s.(procs := t1), p, ExitC);
    ExitCLeads(s1, c, p, ok);
    var t2 := Adopt(s1.procs, p, s1.init);
    Placed(s1.(procs := t2), p, ExitD);
    s2 := Goto(s1.(procs := t2), p, ExitD);
    ExitTable(s, p, t1, s1.procs, t2);
  }

  lemma SameOrphans(s: State, s1: State, p: nat, pc: Pc)
    requires p < |s.procs| && s1.procs == s.procs[p := s.procs[p].(pc := pc)] && s1.init == s.init
    ensures forall q: Proc, r: Proc :: Orphaned(s1, p, q, r) <==> Orphaned(s, p, q, r)
  {
    assert forall z :: 0 <= z < |s.procs| ==> s1.procs[z].parent == s.procs[z].parent && s1.procs[z].state == s.procs[z].state;
    assert LeavesZombie(s1, p) == LeavesZombie(s, p);
    hide LeavesZombie;
  }

  lemma ScheduledAway(s: State, c: nat, cpus: seq<Cpu>, t: State)
    requires c < |s.cpus| && cpus == s.cpus[c := PushCli(s.cpus[c])] && t.cpus == cpus[c := cpus[c].(on := Scheduler)]
    ensures |t.cpus| == |s.cpus| && t.cpus[c].on == Scheduler && forall d :: 0 <= d < |s.cpus| && d != c ==> t.cpus[d] == s.cpus[d]
  {
    hide PushCli;
  }

  /** The last two steps: a zombie, off the CPU. */
  lemma ExitEnds(s: State, c: nat, p: nat, ok: bool) returns (s1: State, t: State)
    requires Reachable(s) && At(s, c, p, ExitD)
    ensures Leads(s, c, ok, s1) && Leads(s1, c, ok, t)
    ensures |t.procs| == |s.procs| && t.locks == s.locks && t.cpus == s.cpus[c := s.cpus[c].(on := Scheduler)]
    ensures t.procs[p].state == ZOMBIE && t.procs[p].cpu == None
    ensures forall q :: 0 <= q < |s.procs| && q != p ==> t.procs[q] == s.procs[q]
  {
    hide Reachable, Next, Enabled, Steps, Onto;
    Recorded(s, c, p, ExitD, ok);
    s1 := s.(procs := s.procs[p := NewRecord(s.procs[p], p)]);
    Leaves(s1, c, p, ExitSwitch, ok);
    t := SwitchOut(s1, c, p, Dead);
  }

  lemma FourMore(s: State, c: nat, call: Kernel.Call, ok: bool, s1: State, s2: State, s3: State, s4: State, t: State)
    requires forall n: nat :: Call(s, c, call, ok, n + 1) == Steps(s1, c, ok, n)
    requires Leads(s1, c, ok, s2) && Leads(s2, c, ok, s3) && Leads(s3, c, ok, s4) && Leads(s4, c, ok, t)
    ensures Call(s, c, call, ok, 5) == Some(t)
  {
    hide Reachable, Call, Enabled, Next;
    assert Call(s, c, call, ok, 4 + 1) == Steps(s1, c, ok, 4);
    assert Steps(s1, c, ok, 3 + 1) == Steps(s2, c, ok, 3);
    assert Steps(s2, c, ok, 2 + 1) == Steps(s3, c, ok, 2);
    assert Steps(s3, c, ok, 1 + 1) == Steps(s4, c, ok, 1);
    assert Steps(s4, c, ok, 0 + 1) == Steps(t, c, ok, 0);
  }

  lemma ExitTable(s: State, p: nat, b1: seq<Proc>, a2: seq<Proc>, b2: seq<Proc>)
    requires p < |s.procs| && s.procs[p].state == RUNNING && s.procs[p].pc.ExitB?
    requires b1 == if s.procs[p].parent.Some? then Wakeup1(s.procs, ProcAddr(s.procs[p].parent.value)) else s.procs
    requires a2 == b1[p := b1[p].(pc := ExitC)] && b2 == Adopt(a2, p, s.init)
    ensures |b2| == |s.procs| && forall q :: 0 <= q < |s.procs| && q != p ==> Orphaned(s, p, s.procs[q], b2[q])
  {
    hide Orphaned, Wakeup1, Adopt;
    assert forall q :: 0 <= q < |s.procs| ==> a2[q].parent == s.procs[q].parent && (a2[q].state == ZOMBIE <==> s.procs[q].state == ZOMBIE);
    assert OrphanZombie(a2, p) == LeavesZombie(s, p);
    forall q | 0 <= q < |s.procs| && q != p
      ensures Orphaned(s, p, s.procs[q], b2[q])
    {
      OrphanOne(s, p, s.procs[q], b1[q], b2[q]);
    }
  }

  lemma OrphanOne(s: State, p: nat, q: Proc, b: Proc, r: Proc)
    requires p < |s.procs|
    requires b == if s.procs[p].parent.Some? then Wake1(q, ProcAddr(s.procs[p].parent.value)) else q
    requires r == var a := Adopt1(b, p, s.init); if LeavesZombie(s, p) then Wake1(a, ProcAddr(s.init)) else a
    ensures Orphaned(s, p, q, r)
  {
    hide LeavesZombie;
  }

  // ---------- fork ----------

  /** Slot `n` is the first unused one. */
  predicate FirstFree(s: State, n: nat) {
    n < |s.procs| && s.procs[n].state == UNUSED && forall q :: 0 <= q < n ==> s.procs[q].state != UNUSED
  }

  lemma ForkBLeads(s: State, c: nat, p: nat, n: nat, ok: bool)
    requires Reachable(s) && At(s, c, p, ForkB)
    ensures FirstFree(s, n) ==>
              (n < |s.procs| && var s1 := Goto(s.(procs := s.procs[n := s.procs[n].(state := EMBRYO)]), p, ForkFound(n));
               Leads(s, c, ok, s1) && At(s1, c, p, ForkFound(n)))
    ensures (forall q :: 0 <= q < |s.procs| ==> s.procs[q].state != UNUSED) ==>
              var s1 := Goto(s, p, ForkNone); Leads(s, c, ok, s1) && At(s1, c, p, ForkNone)
  {
    hide Reachable, Leads, Panics;
    CanStep(s, c, p, ForkB, ok);
  }

  lemma ForkCLeads(s: State, c: nat, p: nat, n: nat, ok: bool)
    requires Reachable(s) && At(s, c, p, ForkC(n)) && n < |s.procs| && n != p
    ensures var q := if ok then s.procs[n].(kstack := true, pc := ForkRet) else s.procs[n].(state := UNUSED);
      var next := if ok then ForkD(n) else Kern;
      var s1 := Goto(s.(procs := s.procs[n := q]), p, next); Leads(s, c, ok, s1) && At(s1, c, p, next)
  {
    hide Reachable, Leads, Panics;
    CanStep(s, c, p, ForkC(n), ok);
  }

  lemma ForkDLeads(s: State, c: nat, p: nat, n: nat, ok: bool)
    requires Reachable(s) && At(s, c, p, ForkD(n)) && n < |s.procs| && n != p
    ensures var q := if ok then s.procs[n].(vm := true, parent := Some(p)) else s.procs[n].(kstack := false, state := UNUSED);
      var next := if ok then ForkE(n) else Kern;
      var s1 := Goto(s.(procs := s.procs[n := q]), p, next); Leads(s, c, ok, s1) && At(s1, c, p, next)
  {
    hide Reachable, Leads, Panics;
    CanStep(s, c, p, ForkD(n), ok);
  }

  lemma ForkELeads(s: State, c: nat, p: nat, n: nat, ok: bool)
    requires Reachable(s) && At(s, c, p, ForkE(n)) && n < |s.procs| && n != p
    ensures var s1 := Goto(s.(procs := s.procs[n := s.procs[n].(state := RUNNABLE)]), p, Kern); Leads(s, c, ok, s1) && At(s1, c, p, Kern)
  {
    hide Reachable, Leads, Panics;
    CanStep(s, c, p, ForkE(n), ok);
  }

  /** The call is made and the slot is found: from here on the table lock is free. */
  lemma ForkFinds(s: State, c: nat, p: nat, n: nat, ok: bool) returns (t: State)
    requires Reachable(s) && Free(s, PTable) && Enabled(s, Start(c, CFork)) && c < |s.cpus| && s.cpus[c].on == Kthread(p)
    requires FirstFree(s, n)
    ensures p < |s.procs| && p != n && s.procs[p].pc.Kern? && Quiet(s, t, c) && Reachable(t) && At(t, c, p, ForkC(n))
    ensures t.procs == s.procs[n := s.procs[n].(state := EMBRYO)][p := s.procs[p].(pc := ForkC(n))]
    ensures forall m: nat :: Call(s, c, CFork, ok, m + 3) == Steps(t, c, ok, m)
  {
    hide Reachable, Next, Enabled, Steps, Call, Goto, PushCli, PopCli, Free, Quiet, Onto;
    Caller(s, c, p, CFork);
    var s1 := Begins(s, c, p, CFork, ForkB, ok);
    assert FirstFree(s1, n);
    ForkBLeads(s1, c, p, n, ok);
    var u := s1.(procs := s1.procs[n := s1.procs[n].(state := EMBRYO)]);
    Placed(u, p, ForkFound(n));
    var s2 := Goto(u, p, ForkFound(n));
    Gave(s2, c, p, ForkFound(n), ok);
    Once(s, c, p, ForkA, ForkB, s2, ForkC(n));
    t := Goto(Release(s2, c, PTable), p, ForkC(n));
    AfterThree(s, c, CFork, ok, s1, s2, t);
    FoundTable(s.procs, p, n);
  }

  lemma FoundTable(procs: seq<Proc>, p: nat, n: nat)
    requires p < |procs| && n < |procs| && p != n
    ensures var a := procs[p := procs[p].(pc := ForkB)]; var b := a[n := a[n].(state := EMBRYO)]; var d := b[p := b[p].(pc := ForkFound(n))];
      d[p := d[p].(pc := ForkC(n))] == procs[n := procs[n].(state := EMBRYO)][p := procs[p].(pc := ForkC(n))]
  {
  }

  lemma AfterThree(s: State, c: nat, call: Kernel.Call, ok: bool, s1: State, s2: State, t: State)
    requires forall n: nat :: Call(s, c, call, ok, n + 1) == Steps(s1, c, ok, n)
    requires Leads(s1, c, ok, s2) && Leads(s2, c, ok, t)
    ensures Reachable(t) && forall m: nat :: Call(s, c, call, ok, m + 3) == Steps(t, c, ok, m)
  {
    hide Reachable, Call, Enabled, Next, Steps;
    forall m: nat
      ensures Call(s, c, call, ok, m + 3) == Steps(t, c, ok, m)
    {
      assert Call(s, c, call, ok, m + 2 + 1) == Steps(s1, c, ok, m + 2);
      assert Steps(s1, c, ok, m + 1 + 1) == Steps(s2, c, ok, m + 1);
      assert Steps(s2, c, ok, m + 1) == Steps(t, c, ok, m);
    }
  }

  /** `fork` with memory: the first unused slot is a runnable child with a stack and a page
      directory that starts in `forkret`; nothing else has changed. */
  lemma ForkDoes(s: State, c: nat, p: nat, n: nat)
    requires Reachable(s) && Free(s, PTable) && Enabled(s, Start(c, CFork)) && c < |s.cpus| && s.cpus[c].on == Kthread(p)
    requires FirstFree(s, n)
    ensures var r := Call(s, c, CFork, true, 6);
      && r.Some? && Quiet(s, r.value, c)
      && r.value.procs[n] == s.procs[n].(state := RUNNABLE, parent := Some(p), kstack := true, vm := true, pc := ForkRet)
      && forall q :: 0 <= q < |s.procs| && q != n ==> r.value.procs[q] == s.procs[q]
  {
    hide Reachable, Next, Enabled, Steps, Call, Goto, Free, Onto, FirstFree;
    NotItself(s, c, p, n);
    var t := ForkFinds(s, c, p, n, true);
    var u := ForkBuilds(t, c, p, n);
    assert Call(s, c, CFork, true, 3 + 3) == Steps(t, c, true, 3);
    BuiltTable(s.procs, p, n);
  }

  lemma NotItself(s: State, c: nat, p: nat, n: nat)
    requires FirstFree(s, n)
    ensures n < |s.procs|
  {
  }

  lemma BuiltTable(procs: seq<Proc>, p: nat, n: nat)
    requires p < |procs| && n < |procs| && p != n && procs[p].pc.Kern?
    ensures var a := procs[n := procs[n].(state := EMBRYO)][p := procs[p].(pc := ForkC(n))];
      a[n := a[n].(kstack := true, pc := ForkRet, vm := true, parent := Some(p), state := RUNNABLE)][p := a[p].(pc := Kern)]
      == procs[n := procs[n].(state := RUNNABLE, parent := Some(p), kstack := true, vm := true, pc := ForkRet)]
  {
  }

  /** The slot is filled, with memory at hand. */
  lemma ForkBuilds(t: State, c: nat, p: nat, n: nat) returns (u: State)
    requires Reachable(t) && At(t, c, p, ForkC(n)) && n < |t.procs| && n != p
    ensures p < |t.procs| && Steps(t, c, true, 3) == Some(u) && u.cpus == t.cpus && u.locks == t.locks && u.init == t.init
    ensures u.procs == t.procs[n := t.procs[n].(kstack := true, pc := ForkRet, vm := true, parent := Some(p), state := RUNNABLE)]
                              [p := t.procs[p].(pc := Kern)]
  {
    hide Reachable, Next, Enabled, Steps, Call, Goto, Onto;
    ForkCLeads(t, c, p, n, true);
    var u1 := t.(procs := t.procs[n := t.procs[n].(kstack := true, pc := ForkRet)]);
    Placed(u1, p, ForkD(n));
    var s1 := Goto(u1, p, ForkD(n));
    Reached(t, c, true, s1);
    ForkDLeads(s1, c, p, n, true);
    var u2 := s1.(procs := s1.procs[n := s1.procs[n].(vm := true, parent := Some(p))]);
    Placed(u2, p, ForkE(n));
    var s2 := Goto(u2, p, ForkE(n));
    Reached(s1, c, true, s2);
    ForkELeads(s2, c, p, n, true);
    var u3 := s2.(procs := s2.procs[n := s2.procs[n].(state := RUNNABLE)]);
    Placed(u3, p, Kern);
    var s3 := Goto(u3, p, Kern);
    u := s3;
    ThreeFrom(t, c, true, s1, s2, s3);
  }

  lemma Reached(s: State, c: nat, ok: bool, t: State)
    requires Leads(s, c, ok, t)
    ensures Reachable(t)
  {
    hide Reachable, Steps;
  }

  lemma ThreeFrom(s: State, c: nat, ok: bool, s1: State, s2: State, s3: State)
    requires Leads(s, c, ok, s1) && Leads(s1, c, ok, s2) && Leads(s2, c, ok, s3)
    ensures Steps(s, c, ok, 3) == Some(s3)
  {
    hide Reachable, Enabled, Next;
    assert Steps(s, c, ok, 2 + 1) == Steps(s1, c, ok, 2);
    assert Steps(s1, c, ok, 1 + 1) == Steps(s2, c, ok, 1);
    assert Steps(s2, c, ok, 0 + 1) == Steps(s3, c, ok, 0);
  }

  /** `fork` without memory for the stack: the slot is unused again and nothing has changed. */
  lemma ForkRefused(s: State, c: nat, p: nat, n: nat)
    requires Reachable(s) && Free(s, PTable) && Enabled(s, Start(c, CFork)) && c < |s.cpus| && s.cpus[c].on == Kthread(p)
    requires FirstFree(s, n)
    ensures var r := Call(s, c, CFork, false, 4); r.Some? && Quiet(s, r.value, c) && r.value.procs == s.procs
  {
    hide Reachable, Next, Enabled, Steps, Call, Goto, Free, Onto;
    var t := ForkFinds(s, c, p, n, false);
    ForkCLeads(t, c, p, n, false);
    var u := t.(procs := t.procs[n := t.procs[n].(state := UNUSED)]);
    Placed(u, p, Kern);
    var s1 := Goto(u, p, Kern);
    assert Call(s, c, CFork, false, 1 + 3) == Steps(t, c, false, 1);
    OneFrom(t, c, false, s1);
    assert s1.procs == s.procs;
  }

  lemma OneFrom(s: State, c: nat, ok: bool, s1: State)
    requires Leads(s, c, ok, s1)
    ensures Steps(s, c, ok, 1) == Some(s1)
  {
    hide Reachable, Enabled, Next;
    assert Steps(s, c, ok, 0 + 1) == Steps(s1, c, ok, 0);
  }

  /** `fork` without an unused slot: nothing has changed. */
  lemma ForkFull(s: State, c: nat, p: nat, ok: bool)
    requires Reachable(s) && Free(s, PTable) && Enabled(s, Start(c, CFork)) && c < |s.cpus| && s.cpus[c].on == Kthread(p)
    requires forall q :: 0 <= q < |s.procs| ==> s.procs[q].state != UNUSED
    ensures var r := Call(s, c, CFork, ok, 3); r.Some? && Quiet(s, r.value, c) && r.value.procs == s.procs
  {
    hide Reachable, Next, Enabled, Steps, Call, Goto, PushCli, PopCli, Free, Quiet, Onto;
    Caller(s, c, p, CFork);
    var s1 := Begins(s, c, p, CFork, ForkB, ok);
    ForkBLeads(s1, c, p, 0, ok);
    Placed(s1, p, ForkNone);
    var s2 := Goto(s1, p, ForkNone);
    Gave(s2, c, p, ForkNone, ok);
    Once(s, c, p, ForkA, ForkB, s2, Kern);
    var t := Goto(Release(s2, c, PTable), p, Kern);
    TwoMore(s, c, CFork, ok, s1, s2, t);
    Replaced(s.procs, p, ForkB, ForkNone);
  }
}
