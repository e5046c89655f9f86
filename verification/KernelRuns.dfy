/** Context switches and the scheduler keep the invariant; so every reachable state
    has it, and with it the safety properties of the process module. */
module KernelRuns {
  import opened Options
  import opened Kernel
  import opened KernelInv
  import opened KernelSteps
  import opened KernelSpecial

  lemma ExitStepKeeps(s: State, c: nat, ok: bool)
    requires Inv(s) && Enabled(s, Step(c, ok))
    requires s.procs[s.cpus[c].on.p].pc.ExitB? || s.procs[s.cpus[c].on.p].pc.ExitC?
    ensures Inv(Next(s, Step(c, ok)))
  {
    HoldsPTable(s, c);
    var p := s.cpus[c].on.p;
    if s.procs[p].pc.ExitB? {
      hide Inv, Wakeup1;
      assert s.procs[p].parent.Some?;
      ExitWakes(s, c, s.procs[p].parent.value);
    } else {
      hide Inv, Adopt;
      ExitAdopts(s, c);
    }
  }

  // ---------- context switches ----------

  function Resumed(pc: Pc): Pc {
    if pc.SleepSwitch? then SleepD(pc.ch, pc.lk)
    else if pc.WaitSwitch? then WaitD
    else if pc.YieldSwitch? then YieldD(pc.ret)
    else Dead
  }

  lemma SwitchOutNext(s: State, c: nat, ok: bool)
    requires Enabled(s, Step(c, ok)) && CallsSched(s.procs[s.cpus[c].on.p].pc)
    ensures Next(s, Step(c, ok)) == SwitchOut(s, c, s.cpus[c].on.p, Resumed(s.procs[s.cpus[c].on.p].pc))
    ensures s.cpus[c].ncli == 1
  {
  }

  /** The thread leaves its CPU; what it saved in `sched` is its own interrupt state. */
  lemma SwitchOutKeeps(s: State, c: nat, ok: bool)
    requires Inv(s) && Enabled(s, Step(c, ok)) && CallsSched(s.procs[s.cpus[c].on.p].pc)
    ensures Inv(Next(s, Step(c, ok)))
  {
    SwitchOutNext(s, c, ok);
    hide Next, Enabled;
    LeavesOk(s, c);
    var p := s.cpus[c].on.p;
    var s' := SwitchOut(s, c, p, Resumed(s.procs[p].pc));
    assert forall d: nat :: HeldBy(s', d) == HeldBy(s, d);
    hide OffOk, POk, COk, ForkStep, ForkOk, Distinct, RetOk, HeldOk, HeldBy, OnOk, TreeOk, TreeStep, Base;
    LocalKeeps(s, s', c, p);
    forall q | 0 <= q < |s.procs|
      ensures TreeStep(s.procs[q], s'.procs[q], q == s.init) && ForkStep(s.procs[q], s'.procs[q])
    {
      if q != p {
        SoftSteps(s.procs[q], s'.procs[q], q == s.init);
      }
    }
    ForestKeeps(s, s');
  }

  lemma LeavesOk(s: State, c: nat)
    requires Inv(s) && Runs(s, c) && CallsSched(s.procs[s.cpus[c].on.p].pc) && s.cpus[c].ncli == 1
    ensures var p := s.cpus[c].on.p; var s' := SwitchOut(s, c, p, Resumed(s.procs[p].pc));
      POk(s', p) && COk(s', c) && TreeStep(s.procs[p], s'.procs[p], p == s.init) && ForkStep(s.procs[p], s'.procs[p])
  {
    Running(s, c);
    var p := s.cpus[c].on.p;
    var s' := SwitchOut(s, c, p, Resumed(s.procs[p].pc));
    assert HeldBy(s', c) == HeldBy(s, c);
    assert TreeOk(s, p);
    hide Inv, ForkOk, TreeOk;
  }

  // ---------- the scheduler thread ----------

  lemma SchedLocal(s: State, s': State, c: nat)
    requires Inv(s) && c < |s.cpus| && s.cpus[c].on == Scheduler && Elsewhere(s, s', c) && s'.procs == s.procs
    requires COk(s', c)
    ensures Inv(s')
  {
    hide TreeOk, ForkOk, Distinct, HeldOk, RetOk, HeldBy, OffOk;
    forall d | 0 <= d < |s.cpus| && d != c
      ensures COk(s', d)
    {
      assert COk(s, d);
      OtherC(s, s', c, d);
    }
    forall q | 0 <= q < |s.procs|
      ensures POk(s', q)
    {
      assert POk(s, q);
      OtherP(s, s', c, q);
    }
    assert forall q :: 0 <= q < |s.procs| ==> TreeOk(s', q) by {
      SameForest(s, s');
    }
    SameForest(s, s');
  }

  lemma SameForest(s: State, s': State)
    requires Inv(s) && s'.procs == s.procs && s'.init == s.init
    ensures forall q :: 0 <= q < |s.procs| ==> TreeOk(s', q)
    ensures forall q :: 0 <= q < |s.procs| ==> ForkOk(s', q)
    ensures forall q, r :: 0 <= q < |s.procs| && 0 <= r < |s.procs| ==> Distinct(s', q, r)
  {
    hide COk, POk, Base;
    forall q | 0 <= q < |s.procs|
      ensures TreeOk(s', q) && ForkOk(s', q)
    {
      assert TreeOk(s, q) && ForkOk(s, q);
    }
    forall q, r | 0 <= q < |s.procs| && 0 <= r < |s.procs|
      ensures Distinct(s', q, r)
    {
      assert Distinct(s, q, r);
    }
  }

  lemma SchedLockKeeps(s: State, c: nat)
    requires Inv(s) && Enabled(s, Sched(c))
    requires s.cpus[c].spc == Ready || (s.cpus[c].spc.Scan? && s.cpus[c].spc.i >= |s.procs|)
    ensures Inv(Next(s, Sched(c)))
  {
    assert COk(s, c);
    var s' := Next(s, Sched(c));
    hide Inv;
    if s.cpus[c].spc == Ready {
      forall d: nat
        ensures HeldBy(s', d) == if d == c then HeldBy(s, c) + {PTable} else HeldBy(s, d)
      {
        AcquireHeld(s, c, PTable, d);
      }
      AcquireHeld(s, c, PTable, c);
    } else {
      assert PTable in HeldBy(s, c);
      forall d: nat
        ensures HeldBy(s', d) == if d == c then HeldBy(s, c) - {PTable} else HeldBy(s, d)
      {
        ReleaseHeld(s, c, PTable, d);
      }
      ReleaseHeld(s, c, PTable, c);
    }
    SchedLocal(s, s', c);
  }

  lemma SchedMoveKeeps(s: State, c: nat)
    requires Inv(s) && Enabled(s, Sched(c))
    requires var k := s.cpus[c];
      k.spc == Top || k.spc.Back? || (k.spc.Scan? && k.spc.i < |s.procs| && s.procs[k.spc.i].state != RUNNABLE)
    ensures Inv(Next(s, Sched(c)))
  {
    assert COk(s, c);
    var s' := Next(s, Sched(c));
    hide Inv;
    assert forall d: nat :: HeldBy(s', d) == HeldBy(s, d);
    SchedLocal(s, s', c);
  }

  /** The scheduler's choice is on no CPU and has a stack and a page directory; it
      resumes with its own interrupt state. */
  lemma SwitchInKeeps(s: State, c: nat)
    requires Inv(s) && Enabled(s, Sched(c))
    requires var k := s.cpus[c]; k.spc.Scan? && k.spc.i < |s.procs| && s.procs[k.spc.i].state == RUNNABLE
    ensures var i := s.cpus[c].spc.i; s.procs[i].cpu == None && s.procs[i].kstack && s.procs[i].vm
    ensures Inv(Next(s, Sched(c)))
  {
    var i := s.cpus[c].spc.i;
    var s' := SwitchIn(s, c, i);
    assert Next(s, Sched(c)) == s';
    assert COk(s, c) && TreeOk(s, i);
    assert PTable in HeldBy(s, c);
    Excluded(s, c, i);
    EntersOk(s, c, i);
    assert forall d: nat :: HeldBy(s', d) == HeldBy(s, d);
    hide Next, Enabled, OffOk, ForkStep, ForkOk, Distinct, RetOk, HeldOk, HeldBy, OnOk, TreeOk, TreeStep, Base;
    forall d | 0 <= d < |s.cpus| && d != c
      ensures COk(s', d)
    {
      assert COk(s, d);
      OtherC(s, s', c, d);
    }
    forall q | 0 <= q < |s.procs| && q != i
      ensures POk(s', q)
    {
      assert POk(s, q);
      OtherP(s, s', c, q);
    }
    forall q | 0 <= q < |s.procs|
      ensures TreeStep(s.procs[q], s'.procs[q], q == s.init) && ForkStep(s.procs[q], s'.procs[q])
    {
      if q != i {
        SoftSteps(s.procs[q], s'.procs[q], q == s.init);
      }
    }
    ForestKeeps(s, s');
  }

  lemma EntersOk(s: State, c: nat, i: nat)
    requires Inv(s) && c < |s.cpus| && i < |s.procs| && s.procs[i].state == RUNNABLE && s.procs[i].cpu == None
    requires s.cpus[c].on == Scheduler && s.cpus[c].spc == Scan(i)
    ensures var s' := SwitchIn(s, c, i);
      POk(s', i) && COk(s', c) && TreeStep(s.procs[i], s'.procs[i], i == s.init) && ForkStep(s.procs[i], s'.procs[i])
  {
    assert COk(s, c) && POk(s, i) && TreeOk(s, i);
    var s' := SwitchIn(s, c, i);
    assert HeldBy(s', c) == HeldBy(s, c);
    hide Inv, TreeOk, ForkOk;
  }

  lemma IdleKeeps(s: State, c: nat, lk: nat, ch: Chan)
    requires Inv(s) && Enabled(s, IdleInterrupt(c, lk, ch))
    ensures Inv(Next(s, IdleInterrupt(c, lk, ch)))
  {
    var s' := Next(s, IdleInterrupt(c, lk, ch));
    assert COk(s, c);
    assert forall d: nat :: HeldBy(s', d) == HeldBy(s, d);
    hide OffOk, ForkStep, ForkOk, Distinct, RetOk, HeldOk, HeldBy, OnOk, TreeOk, TreeStep, Base;
    forall d | 0 <= d < |s.cpus|
      ensures COk(s', d)
    {
      assert COk(s, d);
    }
    forall q | 0 <= q < |s.procs|
      ensures POk(s', q) && TreeStep(s.procs[q], s'.procs[q], q == s.init) && ForkStep(s.procs[q], s'.procs[q])
    {
      assert POk(s, q);
      OtherP(s, s', c, q);
      SoftSteps(s.procs[q], s'.procs[q], q == s.init);
    }
    ForestKeeps(s, s');
  }
}
