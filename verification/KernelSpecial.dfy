/** The steps that change the process tree, the table slots of other processes,
    or the thread a CPU runs. */
module KernelSpecial {
  import opened Options
  import opened Kernel
  import opened KernelInv
  import opened KernelSteps

  // ---------- under ptable.lock nobody else is inside the process module ----------

  /** Another thread cannot be at a point that needs `ptable.lock` while CPU `c` holds it. */
  lemma Excluded(s: State, c: nat, q: nat)
    requires Inv(s) && c < |s.cpus| && Holds(s, c, PTable) && q < |s.procs| && s.cpus[c].on != Kthread(q)
    ensures !s.procs[q].pc.WaitSleep? && !s.procs[q].pc.WaitSwitch?
    ensures s.procs[q].state == RUNNING ==> !s.procs[q].pc.ExitC? && !s.procs[q].pc.ExitD?
    ensures s.procs[q].state == ZOMBIE || s.procs[q].state == SLEEPING || s.procs[q].state == RUNNABLE ==> s.procs[q].cpu == None
    ensures InWait(s.procs[q]) ==> s.procs[q].state == SLEEPING && s.procs[q].chan == Some(ProcAddr(q))
    ensures s.procs[q].state == UNUSED || s.procs[q].state == EMBRYO ==> s.procs[q].cpu == None
  {
    hide TreeOk, ForkOk, Distinct, COk, RetOk, Base;
    assert POk(s, q);
    if s.procs[q].cpu.Some? {
      var d := s.procs[q].cpu.value;
      assert PTable !in HeldBy(s, d);
    }
  }

  /** A running thread that moves from `pc0` to `pc` without touching locks or CPU. */
  lemma SelfOk(s: State, s': State, c: nat, pc: Pc)
    requires Inv(s) && Runs(s, c) && s'.cpus == s.cpus && s'.locks == s.locks && s'.init == s.init && |s'.procs| == |s.procs|
    requires s'.procs[s.cpus[c].on.p] == s.procs[s.cpus[c].on.p].(pc := pc)
    requires s.procs[s.cpus[c].on.p].state == RUNNING && StateAt(pc) == RUNNING && RetOk(pc) && HeldOk(pc, HeldBy(s, c))
    requires !InIntr(pc) && !pc.SleepSwitch? && !pc.WaitSwitch?
    ensures Elsewhere(s, s', c) && COk(s', c) && POk(s', s.cpus[c].on.p)
  {
    Running(s, c);
    hide Inv, TreeOk, ForkOk, HeldOk, RetOk, StateAt, InIntr;
    assert forall d: nat :: HeldBy(s', d) == HeldBy(s, d);
  }

  /** The running thread is at a point that holds exactly `ptable.lock`. */
  lemma HoldsPTable(s: State, c: nat)
    requires Inv(s) && Runs(s, c)
    requires var pc := s.procs[s.cpus[c].on.p].pc; pc.WaitScan? || pc.ExitB? || pc.ExitC? || pc.ForkB?
    ensures HeldBy(s, c) == {PTable} && Holds(s, c, PTable) && s.procs[s.cpus[c].on.p].state == RUNNING
    ensures s.procs[s.cpus[c].on.p].cpu == Some(c)
    ensures TreeOk(s, s.cpus[c].on.p)
  {
    Running(s, c);
    hide Inv, TreeOk, ForkOk;
    assert PTable in HeldBy(s, c);
  }

  // ---------- wait ----------

  lemma ToWaitSleep(s: State, c: nat)
    requires Inv(s) && Runs(s, c) && s.procs[s.cpus[c].on.p].pc.WaitScan?
    requires FirstZombie(s.procs, s.cpus[c].on.p, 0) == |s.procs|
    ensures Inv(Goto(s, s.cpus[c].on.p, WaitSleep))
  {
    var p := s.cpus[c].on.p;
    var s' := Goto(s, p, WaitSleep);
    HoldsPTable(s, c);
    assert ForkStep(s.procs[p], s'.procs[p]);
    SelfOk(s, s', c, WaitSleep);
    hide Inv, OffOk, POk, COk, ForkStep, ForkOk, Distinct, RetOk, HeldOk, HeldBy, OnOk, TreeOk;
    LocalKeeps(s, s', c, p);
    forall q | 0 <= q < |s.procs|
      ensures ForkStep(s.procs[q], s'.procs[q]) && TreeOk(s', q)
    {
      WaitSleepTree(s, c, p, q);
      if q != p {
        SoftSteps(s.procs[q], s'.procs[q], q == s.init);
      }
    }
    ForksKeep(s, s');
  }

  lemma WaitSleepTree(s: State, c: nat, p: nat, q: nat)
    requires Inv(s) && c < |s.cpus| && s.cpus[c].on == Kthread(p) && p < |s.procs| && s.procs[p].pc.WaitScan?
    requires s.procs[p].state == RUNNING && Holds(s, c, PTable)
    requires FirstZombie(s.procs, p, 0) == |s.procs| && q < |s.procs|
    ensures TreeOk(Goto(s, p, WaitSleep), q)
  {
    assert TreeOk(s, q) && TreeOk(s, p);
    hide ForkOk, Distinct, COk, POk, Inv, RetOk, HeldOk, HeldBy;
    if q != p {
      Excluded(s, c, q);
    }
  }

  lemma ForksKeep(s: State, s': State)
    requires Inv(s) && |s'.procs| == |s.procs|
    requires forall q :: 0 <= q < |s.procs| ==> ForkStep(s.procs[q], s'.procs[q])
    ensures forall q :: 0 <= q < |s.procs| ==> ForkOk(s', q)
    ensures forall q, r :: 0 <= q < |s.procs| && 0 <= r < |s.procs| ==> Distinct(s', q, r)
  {
    hide COk, POk, TreeOk, ForkStep, ForkOk, Distinct;
    forall q | 0 <= q < |s.procs|
      ensures ForkOk(s', q)
    {
      ForkKeeps(s, s', q);
    }
    forall q, r | 0 <= q < |s.procs| && 0 <= r < |s.procs|
      ensures Distinct(s', q, r)
    {
      StepPc(s.procs[q], s'.procs[q]);
      StepPc(s.procs[r], s'.procs[r]);
      DistinctKeeps(s, s', q, r);
    }
  }

  /** Reaping a zombie child. */
  lemma ReapKeeps(s: State, c: nat, z: nat)
    requires Inv(s) && Runs(s, c) && s.procs[s.cpus[c].on.p].pc.WaitScan?
    requires z < |s.procs| && s.procs[z].parent == Some(s.cpus[c].on.p) && s.procs[z].state == ZOMBIE
    ensures Inv(Goto(Reap(s, z), s.cpus[c].on.p, WaitE))
  {
    var p := s.cpus[c].on.p;
    var s' := Goto(Reap(s, z), p, WaitE);
    HoldsPTable(s, c);
    assert z != p && ForkStep(s.procs[p], s'.procs[p]);
    SelfOk(s, s', c, WaitE);
    Excluded(s, c, z);
    assert POk(s, z);
    assert Settled(s, s', c, z) && ForkStep(s.procs[z], s'.procs[z]);
    hide Inv, OffOk, POk, COk, ForkStep, ForkOk, Distinct, RetOk, HeldOk, HeldBy, OnOk, TreeOk;
    LocalKeeps(s, s', c, p);
    forall q | 0 <= q < |s.procs|
      ensures ForkStep(s.procs[q], s'.procs[q]) && TreeOk(s', q)
    {
      ReapTree(s, p, z, q);
      if q != p && q != z {
        SoftSteps(s.procs[q], s'.procs[q], q == s.init);
      }
    }
    ForksKeep(s, s');
  }

  lemma ReapTree(s: State, p: nat, z: nat, q: nat)
    requires Inv(s) && p < |s.procs| && z < |s.procs| && q < |s.procs| && z != p
    requires s.procs[p].pc.WaitScan? && s.procs[p].state == RUNNING && s.procs[z].state == ZOMBIE
    ensures TreeOk(Goto(Reap(s, z), p, WaitE), q)
  {
    assert TreeOk(s, q) && TreeOk(s, z) && TreeOk(s, p);
    hide Inv;
  }

  lemma WaitScanNext(s: State, c: nat, ok: bool)
    requires Enabled(s, Step(c, ok)) && s.procs[s.cpus[c].on.p].pc.WaitScan?
    ensures var p := s.cpus[c].on.p; var z := FirstZombie(s.procs, p, 0);
      Next(s, Step(c, ok)) ==
      if z < |s.procs| then Goto(Reap(s, z), p, WaitE)
      else if !HasChild(s.procs, p) || s.procs[p].killed then Goto(s, p, WaitE)
      else Goto(s, p, WaitSleep)
  {
  }

  lemma WaitGivesUp(s: State, c: nat)
    requires Inv(s) && Runs(s, c) && s.procs[s.cpus[c].on.p].pc.WaitScan?
    ensures Inv(Goto(s, s.cpus[c].on.p, WaitE))
  {
    Running(s, c);
    hide Inv, ForkOk, TreeOk, COk;
    MoveKeeps(s, c, WaitE);
  }

  lemma WaitScanKeeps(s: State, c: nat, ok: bool)
    requires Inv(s) && Enabled(s, Step(c, ok)) && s.procs[s.cpus[c].on.p].pc.WaitScan?
    ensures Inv(Next(s, Step(c, ok)))
  {
    WaitScanNext(s, c, ok);
    hide Inv, Next, Goto, Reap;
    var p := s.cpus[c].on.p;
    var z := FirstZombie(s.procs, p, 0);
    if z < |s.procs| {
      ReapKeeps(s, c, z);
    } else if !HasChild(s.procs, p) || s.procs[p].killed {
      WaitGivesUp(s, c);
    } else {
      ToWaitSleep(s, c);
    }
  }

  // ---------- exit ----------

  /** `exit` wakes its parent: from here on the parent does not sleep in `wait`. */
  lemma ExitWakes(s: State, c: nat, r: nat)
    requires Inv(s) && Runs(s, c) && s.procs[s.cpus[c].on.p].pc.ExitB? && s.procs[s.cpus[c].on.p].parent == Some(r)
    ensures Inv(Goto(s.(procs := Wakeup1(s.procs, ProcAddr(r))), s.cpus[c].on.p, ExitC))
  {
    var p := s.cpus[c].on.p;
    var s' := Goto(s.(procs := Wakeup1(s.procs, ProcAddr(r))), p, ExitC);
    HoldsPTable(s, c);
    assert ForkStep(s.procs[p], s'.procs[p]);
    SelfOk(s, s', c, ExitC);
    hide Inv, OffOk, POk, COk, ForkStep, ForkOk, Distinct, RetOk, HeldOk, HeldBy, OnOk, TreeOk;
    LocalKeeps(s, s', c, p);
    forall q | 0 <= q < |s.procs|
      ensures ForkStep(s.procs[q], s'.procs[q]) && TreeOk(s', q)
    {
      ExitWakesTree(s, c, p, r, q);
      if q != p {
        SoftSteps(s.procs[q], s'.procs[q], q == s.init);
      }
    }
    ForksKeep(s, s');
  }

  lemma ExitWakesTree(s: State, c: nat, p: nat, r: nat, q: nat)
    requires Inv(s) && c < |s.cpus| && s.cpus[c].on == Kthread(p) && p < |s.procs| && s.procs[p].pc.ExitB?
    requires s.procs[p].state == RUNNING && s.procs[p].parent == Some(r) && Holds(s, c, PTable) && q < |s.procs|
    ensures TreeOk(Goto(s.(procs := Wakeup1(s.procs, ProcAddr(r))), p, ExitC), q)
  {
    assert TreeOk(s, q) && TreeOk(s, p);
    assert s.procs[q].parent.Some? ==> ParentOk(s, s.procs[q], s.procs[q].parent.value);
    Excluded(s, c, r);
    if q == p {
      ExitWakesSelf(s, p, r);
    } else {
      hide ForkOk, Distinct, COk, POk, Inv, RetOk, HeldOk, HeldBy;
    }
  }

  lemma ExitWakesSelf(s: State, p: nat, r: nat)
    requires p < |s.procs| && s.procs[p].pc.ExitB? && s.procs[p].state == RUNNING && s.procs[p].parent == Some(r)
    requires TreeOk(s, p) && r < |s.procs| && !s.procs[r].pc.WaitSleep? && !s.procs[r].pc.WaitSwitch?
    requires s.procs[r].pc.WaitD? && s.procs[r].state == SLEEPING ==> s.procs[r].chan == Some(ProcAddr(r))
    ensures TreeOk(Goto(s.(procs := Wakeup1(s.procs, ProcAddr(r))), p, ExitC), p)
  {
  }

  /** `exit` gives its children to init; nobody is left pointing at it. */
  lemma ExitAdopts(s: State, c: nat)
    requires Inv(s) && Runs(s, c) && s.procs[s.cpus[c].on.p].pc.ExitC?
    ensures Inv(Goto(s.(procs := Adopt(s.procs, s.cpus[c].on.p, s.init)), s.cpus[c].on.p, ExitD))
  {
    var p := s.cpus[c].on.p;
    var s' := Goto(s.(procs := Adopt(s.procs, p, s.init)), p, ExitD);
    HoldsPTable(s, c);
    assert s'.procs[p] == s.procs[p].(pc := ExitD);
    SelfOk(s, s', c, ExitD);
    hide Inv, OffOk, POk, COk, ForkStep, PcStep, ForkOk, Distinct, RetOk, HeldOk, HeldBy, OnOk, TreeOk, OrphanZombie;
    LocalKeeps(s, s', c, p);
    forall q | 0 <= q < |s.procs|
      ensures TreeOk(s', q) && ForkOk(s', q)
    {
      AdoptTree(s, c, p, q);
      AdoptFork(s, p, q);
    }
    forall q, r | 0 <= q < |s.procs| && 0 <= r < |s.procs|
      ensures Distinct(s', q, r)
    {
      AdoptPc(s, p, q);
      AdoptPc(s, p, r);
      DistinctKeeps(s, s', q, r);
    }
  }

  lemma AdoptPc(s: State, p: nat, q: nat)
    requires p < |s.procs| && q < |s.procs|
    ensures PcStep(s.procs[q], Goto(s.(procs := Adopt(s.procs, p, s.init)), p, ExitD).procs[q])
  {
    hide OrphanZombie;
  }

  /** An embryo's parent, once set, is the process still in `fork`, never the one in `exit`. */
  lemma AdoptFork(s: State, p: nat, q: nat)
    requires Inv(s) && p < |s.procs| && q < |s.procs| && s.procs[p].pc.ExitC? && s.procs[p].state == RUNNING
    ensures ForkOk(Goto(s.(procs := Adopt(s.procs, p, s.init)), p, ExitD), q)
  {
    assert ForkOk(s, q);
    if q == p {
      AdoptForkSelf(s, p);
    } else {
      AdoptForkOther(s, p, q);
    }
  }

  lemma AdoptForkOther(s: State, p: nat, q: nat)
    requires p < |s.procs| && q < |s.procs| && q != p && s.procs[p].state == RUNNING && ForkOk(s, q)
    ensures ForkOk(Goto(s.(procs := Adopt(s.procs, p, s.init)), p, ExitD), q)
  {
    AdoptSame(s, p, q);
    var b := Base(s.procs[q].pc);
    if ForkPoint(b) {
      AdoptSame(s, p, b.np);
    }
    hide Adopt, Goto, Base;
  }

  /** Adoption keeps program counters, and every embryo whose parent is not the one leaving. */
  lemma AdoptSame(s: State, p: nat, i: nat)
    requires p < |s.procs| && i < |s.procs| && i != p
    ensures var s' := Goto(s.(procs := Adopt(s.procs, p, s.init)), p, ExitD);
      && |s'.procs| == |s.procs| && s'.procs[i].pc == s.procs[i].pc
      && (s.procs[i].state == EMBRYO && s.procs[i].parent != Some(p) ==> s'.procs[i] == s.procs[i])
  {
    hide OrphanZombie;
  }

  lemma AdoptForkSelf(s: State, p: nat)
    requires p < |s.procs| && s.procs[p].pc.ExitC? && s.procs[p].state == RUNNING && ForkOk(s, p)
    ensures ForkOk(Goto(s.(procs := Adopt(s.procs, p, s.init)), p, ExitD), p)
  {
    ExitBase(s.procs[p].pc);
    hide OrphanZombie, Base;
  }

  lemma ExitBase(pc: Pc)
    requires pc.ExitC? || pc.ExitD?
    ensures Base(pc) == pc
  {
  }

  lemma AdoptTree(s: State, c: nat, p: nat, q: nat)
    requires Inv(s) && c < |s.cpus| && s.cpus[c].on == Kthread(p) && p < |s.procs| && s.procs[p].pc.ExitC?
    requires s.procs[p].state == RUNNING && Holds(s, c, PTable) && q < |s.procs|
    ensures TreeOk(Goto(s.(procs := Adopt(s.procs, p, s.init)), p, ExitD), q)
  {
    var s' := Goto(s.(procs := Adopt(s.procs, p, s.init)), p, ExitD);
    assert TreeOk(s, q) && TreeOk(s, p) && TreeOk(s, s.init);
    AdoptParent(s, c, p, q);
    if q == p {
      assert s'.procs[p] == s.procs[p].(pc := ExitD);
      ExitBase(s.procs[p].pc);
      hide Inv, OrphanZombie, ParentOk, Adopt, Goto, Base;
    } else {
      hide Inv, OrphanZombie, ParentOk;
    }
  }

  lemma AdoptParent(s: State, c: nat, p: nat, q: nat)
    requires Inv(s) && c < |s.cpus| && s.cpus[c].on == Kthread(p) && p < |s.procs| && s.procs[p].pc.ExitC?
    requires s.procs[p].state == RUNNING && Holds(s, c, PTable) && q < |s.procs|
    ensures var s' := Goto(s.(procs := Adopt(s.procs, p, s.init)), p, ExitD);
      s'.procs[q].parent.Some? ==> ParentOk(s', s'.procs[q], s'.procs[q].parent.value)
  {
    assert TreeOk(s, q) && TreeOk(s, p) && TreeOk(s, s.init);
    Excluded(s, c, s.init);
    if q != p {
      Excluded(s, c, q);
    }
    if s.procs[q].parent == Some(p) {
      AdoptedByInit(s, p, q);
    } else if s.procs[q].parent.Some? {
      hide Inv, Base, OrphanZombie, InWait, Leaving, Alive, Adopt;
      AdoptedKept(s, p, q, s.procs[q].parent.value);
    }
  }

  lemma AdoptedKept(s: State, p: nat, q: nat, r: nat)
    requires s.init < |s.procs| && p < |s.procs| && q < |s.procs| && s.procs[p].pc.ExitC? && s.procs[p].state == RUNNING
    requires s.procs[q].parent == Some(r) && r != p && ParentOk(s, s.procs[q], r)
    ensures var s' := Goto(s.(procs := Adopt(s.procs, p, s.init)), p, ExitD);
      s'.procs[q].parent == Some(r) && ParentOk(s', s'.procs[q], r)
  {
    hide OrphanZombie, Adopt;
    var a := Adopt(s.procs, p, s.init);
    AdoptSoft(s.procs, p, s.init, r);
    AdoptSoft(s.procs, p, s.init, q);
    assert a[q].parent == Some(r);
  }

  lemma AdoptSoft(procs: seq<Proc>, p: nat, init: nat, q: nat)
    requires q < |procs|
    ensures Soft(procs[q], Adopt(procs, p, init)[q])
    ensures procs[q].parent != Some(p) ==> Adopt(procs, p, init)[q].parent == procs[q].parent
  {
    hide OrphanZombie, Adopt;
  }

  lemma AdoptedByInit(s: State, p: nat, q: nat)
    requires s.init < |s.procs| && p < |s.procs| && q < |s.procs| && p != q && p != s.init && s.procs[p].pc.ExitC?
    requires s.procs[q].parent == Some(p) && Alive(s.procs[s.init])
    requires InWait(s.procs[s.init]) ==> s.procs[s.init].state == SLEEPING && s.procs[s.init].chan == Some(ProcAddr(s.init))
    requires !s.procs[s.init].pc.WaitSleep?
    requires Leaving(s.procs[q]) ==> s.procs[q].state == ZOMBIE
    ensures var s' := Goto(s.(procs := Adopt(s.procs, p, s.init)), p, ExitD);
      s'.procs[q].parent == Some(s.init) && ParentOk(s', s'.procs[q], s.init)
  {
    assert s.procs[q].state == ZOMBIE ==> OrphanZombie(s.procs, p);
    var a := Adopt(s.procs, p, s.init);
    var woken := OrphanZombie(s.procs, p);
    InitWoken(s.procs[s.init], p, s.init, woken);
    ChildAdopted(s.procs[q], p, s.init, woken);
    var s' := Goto(s.(procs := a), p, ExitD);
    assert s'.procs[q] == a[q] && s'.procs[s.init] == a[s.init];
    hide OrphanZombie, Adopt, Adopt1, Wake1, Alive, InWait, Leaving, Goto;
  }

  /** `p` hands child `q` over to init: it only gets another parent, and at most becomes runnable. */
  lemma ChildAdopted(q: Proc, p: nat, init: nat, woken: bool)
    requires q.parent == Some(p)
    ensures var q' := if woken then Wake1(Adopt1(q, p, init), ProcAddr(init)) else Adopt1(q, p, init);
      q'.parent == Some(init) && (Leaving(q') ==> Leaving(q))
  {
  }

  lemma InitWoken(r: Proc, p: nat, init: nat, woken: bool)
    requires Alive(r) && !r.pc.WaitSleep? && (InWait(r) ==> r.state == SLEEPING && r.chan == Some(ProcAddr(init)))
    ensures var r' := if woken then Wake1(Adopt1(r, p, init), ProcAddr(init)) else Adopt1(r, p, init);
      Alive(r') && (woken ==> !InWait(r'))
  {
  }

  // ---------- fork ----------

  /** A step of `allocproc` or `fork`: the record of slot `n`, which no CPU runs and
      only this process refers to, and the position of the running thread. */
  ghost predicate SlotStep(s: State, s': State, c: nat, n: nat, pc: Pc) {
    && Runs(s, c) && n < |s.procs| && n != s.cpus[c].on.p && |s'.procs| == |s.procs|
    && s' == s.(procs := s.procs[n := s'.procs[n]][s.cpus[c].on.p := s.procs[s.cpus[c].on.p].(pc := pc)])
    && s.procs[n].cpu == None && s'.procs[n].cpu == None && OffOk(s'.procs[n], n) && !ForkPoint(Base(s'.procs[n].pc))
    && (s.procs[n].state == UNUSED || s.procs[n].state == EMBRYO) && s'.procs[n].state != ZOMBIE
    && !InWait(s'.procs[n]) && s'.procs[n].parent != Some(n)
    && (s'.procs[n].state == UNUSED ==> s'.procs[n].parent == None)
    && (s'.procs[n].state == RUNNABLE ==> s'.procs[n].kstack && s'.procs[n].vm && s'.procs[n].parent.Some?)
    && s'.procs[n].state != SLEEPING
    && (s'.procs[n].parent == s.procs[n].parent || s'.procs[n].parent == Some(s.cpus[c].on.p))
  }

  /** The fork point the running thread comes to, and the thread itself, are well-placed. */
  ghost predicate ForkMove(s: State, s': State, c: nat, n: nat, pc: Pc)
    requires Runs(s, c)
  {
    var q := s.procs[s.cpus[c].on.p];
    && q.state == RUNNING && StateAt(pc) == RUNNING && RetOk(pc) && HeldOk(pc, HeldBy(s, c)) && !InIntr(pc)
    && !pc.SleepSwitch? && !pc.WaitSwitch? && !InWait(q) && !InWait(q.(pc := pc)) && !pc.ExitC? && !pc.ExitD? && !Exits(Base(pc))
    && !q.pc.ExitD? && !q.pc.ExitC?
    && s.cpus[c].on.p < |s'.procs| && ForkOk(s', s.cpus[c].on.p) && (ForkPoint(Base(pc)) ==> Base(pc).np == n)
  }

  lemma SlotKeeps(s: State, s': State, c: nat, n: nat, pc: Pc)
    requires Inv(s) && SlotStep(s, s', c, n, pc) && ForkMove(s, s', c, n, pc)
    requires forall r :: 0 <= r < |s.procs| && r != s.cpus[c].on.p && ForkPoint(Base(s.procs[r].pc)) ==> Base(s.procs[r].pc).np != n
    ensures Inv(s')
  {
    SelfOk(s, s', c, pc);
    var p := s.cpus[c].on.p;
    forall q | 0 <= q < |s.procs| && q != p
      ensures Settled(s, s', c, q)
    {
    }
    hide OffOk, POk, COk, ForkOk, Distinct, RetOk, HeldOk, HeldBy, OnOk, TreeOk, Base, Elsewhere, Settled;
    LocalKeeps(s, s', c, p);
    forall q | 0 <= q < |s.procs|
      ensures TreeOk(s', q) && ForkOk(s', q)
    {
      SlotTree(s, s', c, n, pc, q);
      if q != p {
        SlotFork(s, s', c, n, pc, q);
      }
    }
    forall q, r | 0 <= q < |s.procs| && 0 <= r < |s.procs|
      ensures Distinct(s', q, r)
    {
      SlotDistinct(s, s', c, n, pc, q, r);
    }
  }

  lemma SlotTree(s: State, s': State, c: nat, n: nat, pc: Pc, q: nat)
    requires Inv(s) && SlotStep(s, s', c, n, pc) && ForkMove(s, s', c, n, pc) && q < |s.procs|
    ensures TreeOk(s', q)
  {
    var p := s.cpus[c].on.p;
    assert TreeOk(s, q) && TreeOk(s, n) && TreeOk(s, p);
    hide Inv, OffOk, ForkOk, RetOk, HeldOk, HeldBy, Base, StateAt, InIntr;
  }

  lemma SlotFork(s: State, s': State, c: nat, n: nat, pc: Pc, q: nat)
    requires Inv(s) && SlotStep(s, s', c, n, pc) && q < |s.procs| && q != s.cpus[c].on.p
    requires s.procs[s.cpus[c].on.p].state == RUNNING
    requires ForkPoint(Base(s.procs[q].pc)) ==> Base(s.procs[q].pc).np != n
    ensures ForkOk(s', q)
  {
    assert ForkOk(s, q);
    hide Inv, OffOk, RetOk, HeldOk, HeldBy, Base, StateAt, InIntr;
  }

  lemma SlotDistinct(s: State, s': State, c: nat, n: nat, pc: Pc, q: nat, r: nat)
    requires Inv(s) && SlotStep(s, s', c, n, pc) && q < |s.procs| && r < |s.procs|
    requires forall r :: 0 <= r < |s.procs| && r != s.cpus[c].on.p && ForkPoint(Base(s.procs[r].pc)) ==> Base(s.procs[r].pc).np != n
    requires ForkPoint(Base(pc)) ==> Base(pc).np == n
    ensures Distinct(s', q, r)
  {
    assert Distinct(s, q, r);
    hide Inv, OffOk, RetOk, HeldOk, HeldBy, Base, StateAt, InIntr;
  }

  /** The slot a process is building is referred to by no other process. */
  lemma OwnSlot(s: State, c: nat)
    requires Inv(s) && Runs(s, c)
    requires var pc := s.procs[s.cpus[c].on.p].pc; pc.ForkC? || pc.ForkD? || pc.ForkE?
    ensures var p := s.cpus[c].on.p; var n := s.procs[p].pc.np;
      && n < |s.procs| && n != p && s.procs[n].state == EMBRYO && s.procs[n].cpu == None && OffOk(s.procs[n], n)
      && Base(s.procs[p].pc) == s.procs[p].pc && HeldBy(s, c) == {} && s.procs[p].state == RUNNING && ForkOk(s, p)
      && forall r :: 0 <= r < |s.procs| && r != p && ForkPoint(Base(s.procs[r].pc)) ==> Base(s.procs[r].pc).np != n
  {
    Running(s, c);
    var p := s.cpus[c].on.p;
    var n := s.procs[p].pc.np;
    assert POk(s, n);
    hide OffOk, RetOk, TreeOk, POk, COk;
    forall r | 0 <= r < |s.procs| && r != p && ForkPoint(Base(s.procs[r].pc))
      ensures Base(s.procs[r].pc).np != n
    {
      assert Distinct(s, p, r);
    }
  }

  function SlotResult(s: State, p: nat, n: nat, rec: Proc, pc: Pc): State
    requires p < |s.procs| && n < |s.procs|
  {
    s.(procs := s.procs[n := rec][p := s.procs[p].(pc := pc)])
  }

  ghost predicate Builds(s: State, c: nat, n: nat)
    requires Runs(s, c)
  {
    var p := s.cpus[c].on.p;
    && n < |s.procs| && n != p && s.procs[n].state == EMBRYO && s.procs[n].cpu == None && OffOk(s.procs[n], n)
    && HeldBy(s, c) == {} && s.procs[p].state == RUNNING && ForkOk(s, p)
  }

  lemma ForkCKeeps(s: State, c: nat, ok: bool)
    requires Inv(s) && Enabled(s, Step(c, ok)) && s.procs[s.cpus[c].on.p].pc.ForkC?
    ensures Inv(Next(s, Step(c, ok)))
  {
    OwnSlot(s, c);
    var p := s.cpus[c].on.p;
    var n := s.procs[p].pc.np;
    var pc, rec := if ok then ForkD(n) else Kern, if ok then s.procs[n].(kstack := true, pc := ForkRet) else s.procs[n].(state := UNUSED);
    assert Next(s, Step(c, ok)) == SlotResult(s, p, n, rec, pc);
    hide Next, Inv;
    ForkCFits(s, c, n, ok);
    hide *;
    SlotKeeps(s, SlotResult(s, p, n, rec, pc), c, n, pc);
  }

  lemma ForkCFits(s: State, c: nat, n: nat, ok: bool)
    requires Runs(s, c) && s.procs[s.cpus[c].on.p].pc == ForkC(n) && Builds(s, c, n)
    ensures var pc, rec := if ok then ForkD(n) else Kern, if ok then s.procs[n].(kstack := true, pc := ForkRet) else s.procs[n].(state := UNUSED);
      var s' := SlotResult(s, s.cpus[c].on.p, n, rec, pc);
      SlotStep(s, s', c, n, pc) && ForkMove(s, s', c, n, pc)
  {
  }

  lemma ForkDKeeps(s: State, c: nat, ok: bool)
    requires Inv(s) && Enabled(s, Step(c, ok)) && s.procs[s.cpus[c].on.p].pc.ForkD?
    ensures Inv(Next(s, Step(c, ok)))
  {
    OwnSlot(s, c);
    var p := s.cpus[c].on.p;
    var n := s.procs[p].pc.np;
    var pc, rec := if ok then ForkE(n) else Kern, if ok then s.procs[n].(vm := true, parent := Some(s.cpus[c].on.p)) else s.procs[n].(kstack := false, state := UNUSED);
    assert Next(s, Step(c, ok)) == SlotResult(s, p, n, rec, pc);
    hide Next, Inv;
    ForkDFits(s, c, n, ok);
    hide *;
    SlotKeeps(s, SlotResult(s, p, n, rec, pc), c, n, pc);
  }

  lemma ForkDFits(s: State, c: nat, n: nat, ok: bool)
    requires Runs(s, c) && s.procs[s.cpus[c].on.p].pc == ForkD(n) && Builds(s, c, n)
    ensures var pc, rec := if ok then ForkE(n) else Kern, if ok then s.procs[n].(vm := true, parent := Some(s.cpus[c].on.p)) else s.procs[n].(kstack := false, state := UNUSED);
      var s' := SlotResult(s, s.cpus[c].on.p, n, rec, pc);
      SlotStep(s, s', c, n, pc) && ForkMove(s, s', c, n, pc)
  {
  }

  lemma ForkEKeeps(s: State, c: nat, ok: bool)
    requires Inv(s) && Enabled(s, Step(c, ok)) && s.procs[s.cpus[c].on.p].pc.ForkE?
    ensures Inv(Next(s, Step(c, ok)))
  {
    OwnSlot(s, c);
    var p := s.cpus[c].on.p;
    var n := s.procs[p].pc.np;
    var pc, rec := Kern, s.procs[n].(state := RUNNABLE);
    assert Next(s, Step(c, ok)) == SlotResult(s, p, n, rec, pc);
    hide Next, Inv;
    ForkEFits(s, c, n, ok);
    hide *;
    SlotKeeps(s, SlotResult(s, p, n, rec, pc), c, n, pc);
  }

  lemma ForkEFits(s: State, c: nat, n: nat, ok: bool)
    requires Runs(s, c) && s.procs[s.cpus[c].on.p].pc == ForkE(n) && Builds(s, c, n)
    ensures var pc, rec := Kern, s.procs[n].(state := RUNNABLE);
      var s' := SlotResult(s, s.cpus[c].on.p, n, rec, pc);
      SlotStep(s, s', c, n, pc) && ForkMove(s, s', c, n, pc)
  {
  }

  /** `allocproc` takes an unused slot, or gives up when there is none. */
  lemma ForkBKeeps(s: State, c: nat, ok: bool)
    requires Inv(s) && Enabled(s, Step(c, ok)) && s.procs[s.cpus[c].on.p].pc.ForkB?
    ensures Inv(Next(s, Step(c, ok)))
  {
    var p := s.cpus[c].on.p;
    var n := FirstUnused(s.procs, 0);
    assert Next(s, Step(c, ok))
        == if n == |s.procs| then Goto(s, p, ForkNone) else SlotResult(s, p, n, s.procs[n].(state := EMBRYO), ForkFound(n)) by {
      HoldsPTable(s, c);
    }
    hide Next, Inv, Enabled, Goto;
    if n == |s.procs| {
      NoSlot(s, c);
    } else {
      TakeSlot(s, c, n);
    }
  }

  lemma NoSlot(s: State, c: nat)
    requires Inv(s) && Runs(s, c) && s.procs[s.cpus[c].on.p].pc.ForkB?
    ensures Inv(Goto(s, s.cpus[c].on.p, ForkNone))
  {
    HoldsPTable(s, c);
    Running(s, c);
    hide Inv, ForkOk, TreeOk, COk;
    MoveKeeps(s, c, ForkNone);
  }

  lemma TakeSlot(s: State, c: nat, n: nat)
    requires Inv(s) && Runs(s, c) && s.procs[s.cpus[c].on.p].pc.ForkB? && n < |s.procs| && s.procs[n].state == UNUSED
    ensures Inv(SlotResult(s, s.cpus[c].on.p, n, s.procs[n].(state := EMBRYO), ForkFound(n)))
  {
    HoldsPTable(s, c);
    UnusedSlot(s, c, n);
    hide Inv;
    TakeSlotFits(s, c, n);
    hide *;
    SlotKeeps(s, SlotResult(s, s.cpus[c].on.p, n, s.procs[n].(state := EMBRYO), ForkFound(n)), c, n, ForkFound(n));
  }

  lemma TakeSlotFits(s: State, c: nat, n: nat)
    requires Runs(s, c) && s.procs[s.cpus[c].on.p].pc.ForkB? && HeldBy(s, c) == {PTable} && s.procs[s.cpus[c].on.p].state == RUNNING
    requires n < |s.procs| && n != s.cpus[c].on.p && s.procs[n].state == UNUSED && s.procs[n].cpu == None
    requires OffOk(s.procs[n], n) && s.procs[n].parent == None
    ensures var s' := SlotResult(s, s.cpus[c].on.p, n, s.procs[n].(state := EMBRYO), ForkFound(n));
      SlotStep(s, s', c, n, ForkFound(n)) && ForkMove(s, s', c, n, ForkFound(n))
  {
  }

  lemma UnusedSlot(s: State, c: nat, n: nat)
    requires Inv(s) && c < |s.cpus| && Holds(s, c, PTable) && n < |s.procs| && s.procs[n].state == UNUSED
    requires s.cpus[c].on != Kthread(n)
    ensures s.procs[n].cpu == None && OffOk(s.procs[n], n) && s.procs[n].parent == None
    ensures forall r :: 0 <= r < |s.procs| && ForkPoint(Base(s.procs[r].pc)) ==> Base(s.procs[r].pc).np != n
  {
    Excluded(s, c, n);
    assert POk(s, n) && TreeOk(s, n);
    hide OffOk, POk, COk, TreeOk;
    forall r | 0 <= r < |s.procs| && ForkPoint(Base(s.procs[r].pc))
      ensures Base(s.procs[r].pc).np != n
    {
      assert ForkOk(s, r);
    }
  }
}
