/** Every step of the process state machine keeps the invariant. */
module KernelSteps {
  import opened Options
  import opened Kernel
  import opened KernelInv

  lemma OneLock(h: set<Lock>, lk: Lock)
    requires |h| == 1 && lk in h
    ensures h == {lk}
  {
    assert |h - {lk}| == 0;
    forall x | x in h
      ensures x == lk
    {
      assert x != lk ==> x in h - {lk};
    }
  }

  /** What the invariant says of the running thread. */
  lemma Running(s: State, c: nat)
    requires Inv(s) && Runs(s, c)
    ensures var p := s.cpus[c].on.p;
      s.procs[p].cpu == Some(c) && OnOk(s, p, c) && COk(s, c) && TreeOk(s, p) && ForkOk(s, p)
      && s.procs[p].state != EMBRYO && s.procs[p].state != UNUSED
  {
    hide TreeOk, ForkOk, Distinct, HeldOk, RetOk;
    assert COk(s, c);
    var p := s.cpus[c].on.p;
    assert POk(s, p) && TreeOk(s, p) && ForkOk(s, p);
  }

  /** A step that only moves the running thread's own record and its CPU, taking no lock. */
  lemma OwnStep(s: State, s': State, c: nat, me: Proc)
    requires Inv(s) && Runs(s, c) && s'.init == s.init && s'.locks == s.locks
    requires |s'.cpus| == |s.cpus| && forall d :: 0 <= d < |s.cpus| && d != c ==> s'.cpus[d] == s.cpus[d]
    requires s'.procs == s.procs[s.cpus[c].on.p := me]
    requires s'.cpus[c] == s.cpus[c].(iflag := s'.cpus[c].iflag)
    requires me.cpu == s.procs[s.cpus[c].on.p].cpu && OnOk(s', s.cpus[c].on.p, c)
    requires TreeStep(s.procs[s.cpus[c].on.p], me, s.cpus[c].on.p == s.init) && ForkStep(s.procs[s.cpus[c].on.p], me)
    ensures Inv(s')
  {
    hide TreeStep, ForkStep, TreeOk, ForkOk, Distinct, OnOk, Inv;
    Running(s, c);
    assert forall d :: HeldBy(s', d) == HeldBy(s, d);
    ThreadKeeps(s, s', c, s.cpus[c].on.p);
  }

  /** `acquire` followed by a move of the running thread. */
  lemma AcquireStep(s: State, c: nat, lk: Lock, pc: Pc)
    requires Inv(s) && Runs(s, c) && Free(s, lk)
    requires var q := s.procs[s.cpus[c].on.p];
      HeldOk(pc, HeldBy(s, c) + {lk}) && RetOk(pc) && StateAt(pc) == RUNNING && q.state == RUNNING
      && (InIntr(pc) ==> InIntr(q.pc)) && !pc.SleepSwitch? && !pc.WaitSwitch?
      && TreeStep(q, q.(pc := pc), s.cpus[c].on.p == s.init) && ForkStep(q, q.(pc := pc))
    ensures Inv(Goto(Acquire(s, c, lk), s.cpus[c].on.p, pc))
  {
    hide TreeStep, ForkStep, TreeOk, ForkOk, Distinct, HeldOk, RetOk, Inv, InIntr, StateAt;
    Running(s, c);
    var p := s.cpus[c].on.p;
    var s' := Goto(Acquire(s, c, lk), p, pc);
    forall d: nat
      ensures HeldBy(s', d) == if d == c then HeldBy(s, c) + {lk} else HeldBy(s, d)
    {
      AcquireHeld(s, c, lk, d);
    }
    AcquireHeld(s, c, lk, c);
    ThreadKeeps(s, s', c, p);
  }

  /** `release` followed by a move of the running thread. */
  lemma ReleaseStep(s: State, c: nat, lk: Lock, pc: Pc)
    requires Inv(s) && Runs(s, c) && Holds(s, c, lk)
    requires var q := s.procs[s.cpus[c].on.p];
      HeldOk(pc, HeldBy(s, c) - {lk}) && RetOk(pc) && StateAt(pc) == RUNNING && q.state == RUNNING
      && (InIntr(pc) ==> InIntr(q.pc)) && !pc.SleepSwitch? && !pc.WaitSwitch?
      && TreeStep(q, q.(pc := pc), s.cpus[c].on.p == s.init) && ForkStep(q, q.(pc := pc))
    ensures s.cpus[c].ncli > 0 && Inv(Goto(Release(s, c, lk), s.cpus[c].on.p, pc))
  {
    hide TreeStep, ForkStep, TreeOk, ForkOk, Distinct, HeldOk, RetOk, Inv, InIntr, StateAt;
    Running(s, c);
    var p := s.cpus[c].on.p;
    NonEmptyCount(HeldBy(s, c), lk);
    var s' := Goto(Release(s, c, lk), p, pc);
    forall d: nat
      ensures HeldBy(s', d) == if d == c then HeldBy(s, c) - {lk} else HeldBy(s, d)
    {
      ReleaseHeld(s, c, lk, d);
    }
    ReleaseHeld(s, c, lk, c);
    ThreadKeeps(s, s', c, p);
  }

  lemma NonEmptyCount(h: set<Lock>, lk: Lock)
    requires lk in h
    ensures |h| > 0
  {
  }

  // ---------- calls from generic code, interrupts ----------

  /** A call or return that only changes where the running thread is. */
  lemma MoveKeeps(s: State, c: nat, pc: Pc)
    requires Inv(s) && Runs(s, c) && HeldOk(pc, HeldBy(s, c)) && RetOk(pc) && StateAt(pc) == RUNNING
    requires var q := s.procs[s.cpus[c].on.p];
      q.state == RUNNING && (InIntr(pc) ==> InIntr(q.pc)) && !pc.SleepSwitch? && !pc.WaitSwitch?
      && TreeStep(q, q.(pc := pc), s.cpus[c].on.p == s.init) && ForkStep(q, q.(pc := pc))
    ensures Inv(Goto(s, s.cpus[c].on.p, pc))
  {
    Running(s, c);
    hide TreeStep, ForkStep, TreeOk, ForkOk, HeldOk, RetOk, Inv, InIntr, StateAt;
    var p := s.cpus[c].on.p;
    var s' := Goto(s, p, pc);
    assert HeldBy(s', c) == HeldBy(s, c);
    OwnStep(s, s', c, s'.procs[p]);
  }

  /** Interrupts switched on or off by a thread that holds no lock. */
  lemma InterruptsKeep(s: State, c: nat, on: bool, pc: Pc)
    requires Inv(s) && Runs(s, c) && s.cpus[c].ncli == 0 && HeldOk(pc, {}) && RetOk(pc) && StateAt(pc) == RUNNING
    requires var q := s.procs[s.cpus[c].on.p];
      q.state == RUNNING && (InIntr(pc) ==> !on) && !pc.SleepSwitch? && !pc.WaitSwitch?
      && TreeStep(q, q.(pc := pc), s.cpus[c].on.p == s.init) && ForkStep(q, q.(pc := pc))
    ensures Inv(Interrupts(s, c, s.cpus[c].on.p, on, pc))
  {
    Running(s, c);
    hide TreeOk, ForkOk, HeldOk, RetOk, Inv, InIntr, StateAt, Base;
    var p := s.cpus[c].on.p;
    var s' := Interrupts(s, c, p, on, pc);
    assert HeldBy(s', c) == HeldBy(s, c) == {};
    OwnStep(s, s', c, s'.procs[p]);
  }

  lemma CallKeeps(s: State, c: nat, call: Call)
    requires Inv(s) && Enabled(s, Start(c, call))
    ensures Inv(Next(s, Start(c, call)))
  {
    match call
    case CAcquire(lk) => LockCallKeeps(s, c, call);
    case CRelease(lk) => LockCallKeeps(s, c, call);
    case CSleep(ch, lk) => SleepCallKeeps(s, c, ch, lk);
    case CInterrupts(on) => InterruptCallKeeps(s, c, call);
    case CIret => InterruptCallKeeps(s, c, call);
    case _ => PlainCallKeeps(s, c, call);
  }

  lemma LockCallKeeps(s: State, c: nat, call: Call)
    requires Inv(s) && Enabled(s, Start(c, call)) && (call.CAcquire? || call.CRelease?)
    ensures Inv(Next(s, Start(c, call)))
  {
    Running(s, c);
    hide Inv, TreeOk, ForkOk;
    var p := s.cpus[c].on.p;
    var pc, lk := s.procs[p].pc, Ordinary(call.lk);
    if call.CAcquire? {
      AcquireStep(s, c, lk, pc);
      assert Goto(Acquire(s, c, lk), p, pc) == Acquire(s, c, lk);
    } else {
      ReleaseStep(s, c, lk, pc);
      assert Goto(Release(s, c, lk), p, pc) == Release(s, c, lk);
    }
  }

  lemma SleepCallKeeps(s: State, c: nat, ch: Chan, lk: nat)
    requires Inv(s) && Enabled(s, Start(c, CSleep(ch, lk)))
    ensures Inv(Next(s, Start(c, CSleep(ch, lk))))
  {
    Running(s, c);
    hide Inv, TreeOk, ForkOk;
    OneLock(HeldBy(s, c), Ordinary(lk));
    MoveKeeps(s, c, SleepA(ch, lk));
  }

  lemma InterruptCallKeeps(s: State, c: nat, call: Call)
    requires Inv(s) && Enabled(s, Start(c, call)) && (call.CInterrupts? || call.CIret?)
    ensures Inv(Next(s, Start(c, call)))
  {
    Running(s, c);
    hide Inv, TreeOk, ForkOk;
    var pc := s.procs[s.cpus[c].on.p].pc;
    if call.CInterrupts? {
      InterruptsKeep(s, c, call.on, pc);
    } else {
      ReturnOk(pc.ret);
      InterruptsKeep(s, c, true, pc.ret);
    }
  }

  function CallPc(pc: Pc, call: Call): Pc {
    match call
    case CWake(ch) => WakeA(ch, pc)
    case CKill(v) => KillA(v, pc)
    case CWait => WaitA
    case CYield => YieldA(pc)
    case CExit => ExitA
    case CFork => ForkA
    case _ => pc
  }

  predicate PlainCall(call: Call) {
    call.CWake? || call.CKill? || call.CWait? || call.CYield? || call.CExit? || call.CFork?
  }

  lemma PlainCallOk(s: State, c: nat, call: Call, h: set<Lock>)
    requires Enabled(s, Start(c, call)) && PlainCall(call)
    requires var p := s.cpus[c].on.p; var q := s.procs[p];
      q.state == RUNNING && RetOk(q.pc) && HeldOk(q.pc, h) && (s.cpus[c].ncli == 0 ==> h == {})
      && (p == s.init ==> !Exits(Base(q.pc)))
    ensures var p := s.cpus[c].on.p; var q := s.procs[p]; var pc := CallPc(q.pc, call);
      Next(s, Start(c, call)) == Goto(s, p, pc) && HeldOk(pc, h) && RetOk(pc) && StateAt(pc) == RUNNING
      && (InIntr(pc) ==> InIntr(q.pc)) && !pc.SleepSwitch? && !pc.WaitSwitch?
      && TreeStep(q, q.(pc := pc), p == s.init) && ForkStep(q, q.(pc := pc))
  {
  }

  lemma PlainCallKeeps(s: State, c: nat, call: Call)
    requires Inv(s) && Enabled(s, Start(c, call)) && PlainCall(call)
    ensures Inv(Next(s, Start(c, call)))
  {
    Running(s, c);
    hide Inv, ForkOk;
    var p := s.cpus[c].on.p;
    assert p == s.init ==> !Exits(Base(s.procs[p].pc));
    assert s.procs[p].state == RUNNING;
    PlainCallOk(s, c, call, HeldBy(s, c));
    hide *;
    MoveKeeps(s, c, CallPc(s.procs[p].pc, call));
  }

  /** A handler returns to a running point outside any handler. */
  lemma ReturnOk(r: Pc)
    requires HeldOk(r, {})
    ensures StateAt(r) == RUNNING && !r.SleepSwitch? && !r.WaitSwitch?
  {
  }

  lemma PreemptKeeps(s: State, c: nat)
    requires Inv(s) && Enabled(s, Preempt(c))
    ensures Inv(Next(s, Preempt(c)))
  {
    Running(s, c);
    hide Inv, TreeOk, ForkOk;
    InterruptsKeep(s, c, false, Intr(s.procs[s.cpus[c].on.p].pc));
  }

  // ---------- steps of the running thread that take or give a lock ----------

  function AfterLock(pc: Pc): Pc {
    if pc.WakeA? then WakeB(pc.ch, pc.ret)
    else if pc.KillA? then KillB(pc.victim, pc.ret)
    else if pc.SleepA? then SleepB(pc.ch, pc.lk)
    else if pc.WaitA? then WaitScan
    else if pc.YieldA? then YieldB(pc.ret)
    else if pc.ExitA? then ExitB
    else if pc.ForkA? then ForkB
    else if pc.WakeC? || pc.KillC? || pc.YieldD? then pc.ret
    else if pc.SleepE? then SleepF(pc.lk)
    else if pc.ForkFound? then ForkC(pc.np)
    else Kern
  }

  lemma LockStepKeeps(s: State, c: nat, ok: bool)
    requires Inv(s) && Enabled(s, Step(c, ok))
    requires var pc := s.procs[s.cpus[c].on.p].pc; AcquiresPTable(pc) || ReleasesPTable(pc)
    ensures Inv(Next(s, Step(c, ok)))
  {
    Running(s, c);
    var p := s.cpus[c].on.p;
    var pc := s.procs[p].pc;
    assert p == s.init ==> !Exits(Base(pc));
    assert ReleasesPTable(pc) ==> PTable in HeldBy(s, c);
    LockStep(s, c, ok);
    hide Inv, TreeOk, ForkOk, Next, HeldOk, RetOk, StateAt, Base, InIntr, TreeStep, ForkStep, AfterLock;
    AfterLockOk(pc, HeldBy(s, c), s.procs[p], p == s.init);
    AfterLockTree(pc, s.procs[p], p == s.init);
    if AcquiresPTable(pc) {
      AcquireStep(s, c, PTable, AfterLock(pc));
    } else {
      ReleaseStep(s, c, PTable, AfterLock(pc));
    }
  }

  lemma LockStep(s: State, c: nat, ok: bool)
    requires Enabled(s, Step(c, ok))
    requires var pc := s.procs[s.cpus[c].on.p].pc; AcquiresPTable(pc) || ReleasesPTable(pc)
    ensures var p := s.cpus[c].on.p; var pc := s.procs[p].pc;
      if AcquiresPTable(pc) then Free(s, PTable) && Next(s, Step(c, ok)) == Goto(Acquire(s, c, PTable), p, AfterLock(pc))
      else Holds(s, c, PTable) && s.cpus[c].ncli > 0 && Next(s, Step(c, ok)) == Goto(Release(s, c, PTable), p, AfterLock(pc))
  {
  }

  lemma AfterLockOk(pc: Pc, h: set<Lock>, q: Proc, isInit: bool)
    requires q.pc == pc && RetOk(pc) && HeldOk(pc, h) && q.state == StateAt(pc) == RUNNING
    requires AcquiresPTable(pc) || ReleasesPTable(pc)
    requires isInit ==> !Exits(Base(pc))
    ensures RetOk(AfterLock(pc)) && StateAt(AfterLock(pc)) == RUNNING
    ensures HeldOk(AfterLock(pc), if AcquiresPTable(pc) then h + {PTable} else h - {PTable})
    ensures InIntr(AfterLock(pc)) ==> InIntr(pc)
    ensures !AfterLock(pc).SleepSwitch? && !AfterLock(pc).WaitSwitch?
  {
  }

  lemma AfterLockTree(pc: Pc, q: Proc, isInit: bool)
    requires q.pc == pc && q.state == RUNNING && (AcquiresPTable(pc) || ReleasesPTable(pc))
    requires RetOk(pc) && (isInit ==> !Exits(Base(pc)))
    ensures TreeStep(q, q.(pc := AfterLock(pc)), isInit) && ForkStep(q, q.(pc := AfterLock(pc)))
  {
  }

  lemma SleepUnlockKeeps(s: State, c: nat, ok: bool)
    requires Inv(s) && Enabled(s, Step(c, ok)) && s.procs[s.cpus[c].on.p].pc.SleepB?
    ensures Inv(Next(s, Step(c, ok)))
  {
    Running(s, c);
    hide Inv, TreeOk, ForkOk;
    var pc := s.procs[s.cpus[c].on.p].pc;
    assert HeldBy(s, c) - {Ordinary(pc.lk)} == {PTable};
    assert Ordinary(pc.lk) in HeldBy(s, c);
    ReleaseStep(s, c, Ordinary(pc.lk), SleepC(pc.ch, pc.lk));
  }

  lemma SleepRelockKeeps(s: State, c: nat, ok: bool)
    requires Inv(s) && Enabled(s, Step(c, ok)) && s.procs[s.cpus[c].on.p].pc.SleepF?
    ensures Inv(Next(s, Step(c, ok)))
  {
    Running(s, c);
    hide Inv, TreeOk, ForkOk;
    var pc := s.procs[s.cpus[c].on.p].pc;
    AcquireStep(s, c, Ordinary(pc.lk), Kern);
  }

  // ---------- steps that only change the running thread's record ----------

  function NewRecord(q: Proc, p: nat): Proc {
    var pc := q.pc;
    if pc.SleepC? then q.(chan := Some(pc.ch), state := SLEEPING, pc := SleepSwitch(pc.ch, pc.lk))
    else if pc.SleepD? then q.(chan := None, pc := SleepE(pc.lk))
    else if pc.WaitSleep? then q.(chan := Some(ProcAddr(p)), state := SLEEPING, pc := WaitSwitch)
    else if pc.WaitD? then q.(chan := None, pc := WaitScan)
    else if pc.YieldB? then q.(state := RUNNABLE, pc := YieldSwitch(pc.ret))
    else if pc.ExitD? then q.(state := ZOMBIE, pc := ExitSwitch)
    else q
  }

  predicate RecordPoint(pc: Pc) {
    pc.SleepC? || pc.SleepD? || pc.WaitSleep? || pc.WaitD? || pc.YieldB? || pc.ExitD?
  }

  lemma RecordStep(s: State, c: nat, ok: bool)
    requires Enabled(s, Step(c, ok)) && RecordPoint(s.procs[s.cpus[c].on.p].pc)
    ensures var p := s.cpus[c].on.p; Next(s, Step(c, ok)) == s.(procs := s.procs[p := NewRecord(s.procs[p], p)])
  {
  }

  /** The new record of the running thread fits the invariant and loses nothing the tree needs. */
  ghost predicate GoodMove(q: Proc, q': Proc, p: nat, isInit: bool, h: set<Lock>) {
    && q'.state == StateAt(q'.pc) && RetOk(q'.pc) && HeldOk(q'.pc, h) && (InIntr(q'.pc) ==> InIntr(q.pc))
    && (q'.pc.SleepSwitch? ==> q'.chan == Some(q'.pc.ch)) && (q'.pc.WaitSwitch? ==> q'.chan == Some(ProcAddr(p)))
    && q' == q.(chan := q'.chan, state := q'.state, pc := q'.pc)
    && TreeStep(q, q', isInit) && ForkStep(q, q')
  }

  ghost predicate GoodStart(q: Proc, isInit: bool, h: set<Lock>) {
    q.state == RUNNING && RetOk(q.pc) && HeldOk(q.pc, h) && (isInit ==> !Exits(Base(q.pc)))
  }

  lemma SleepCGood(q: Proc, p: nat, isInit: bool, h: set<Lock>)
    requires q.pc.SleepC? && GoodStart(q, isInit, h)
    ensures GoodMove(q, NewRecord(q, p), p, isInit, h)
  {
  }

  lemma SleepDGood(q: Proc, p: nat, isInit: bool, h: set<Lock>)
    requires q.pc.SleepD? && GoodStart(q, isInit, h)
    ensures GoodMove(q, NewRecord(q, p), p, isInit, h)
  {
  }

  lemma WaitSleepGood(q: Proc, p: nat, isInit: bool, h: set<Lock>)
    requires q.pc.WaitSleep? && GoodStart(q, isInit, h)
    ensures GoodMove(q, NewRecord(q, p), p, isInit, h)
  {
  }

  lemma WaitDGood(q: Proc, p: nat, isInit: bool, h: set<Lock>)
    requires q.pc.WaitD? && GoodStart(q, isInit, h)
    ensures GoodMove(q, NewRecord(q, p), p, isInit, h)
  {
  }

  lemma YieldBGood(q: Proc, p: nat, isInit: bool, h: set<Lock>)
    requires q.pc.YieldB? && GoodStart(q, isInit, h)
    ensures GoodMove(q, NewRecord(q, p), p, isInit, h)
  {
  }

  lemma ExitDGood(q: Proc, p: nat, isInit: bool, h: set<Lock>)
    requires q.pc.ExitD? && GoodStart(q, isInit, h)
    ensures GoodMove(q, NewRecord(q, p), p, isInit, h)
  {
  }

  lemma RecordGood(q: Proc, p: nat, isInit: bool, h: set<Lock>)
    requires RecordPoint(q.pc) && GoodStart(q, isInit, h)
    ensures GoodMove(q, NewRecord(q, p), p, isInit, h)
  {
    hide GoodMove, GoodStart, NewRecord;
    if q.pc.SleepC? {
      SleepCGood(q, p, isInit, h);
    } else if q.pc.SleepD? {
      SleepDGood(q, p, isInit, h);
    } else if q.pc.WaitSleep? {
      WaitSleepGood(q, p, isInit, h);
    } else if q.pc.WaitD? {
      WaitDGood(q, p, isInit, h);
    } else if q.pc.YieldB? {
      YieldBGood(q, p, isInit, h);
    } else if q.pc.ExitD? {
      ExitDGood(q, p, isInit, h);
    }
  }

  lemma RecordStepKeeps(s: State, c: nat, ok: bool)
    requires Inv(s) && Enabled(s, Step(c, ok)) && RecordPoint(s.procs[s.cpus[c].on.p].pc)
    ensures Inv(Next(s, Step(c, ok)))
  {
    Running(s, c);
    RecordStep(s, c, ok);
    var p := s.cpus[c].on.p;
    assert GoodStart(s.procs[p], p == s.init, HeldBy(s, c));
    RecordGood(s.procs[p], p, p == s.init, HeldBy(s, c));
    hide Inv, ForkOk, TreeOk, Next, Enabled, NewRecord, HeldOk, RetOk, StateAt, Base, InIntr, TreeStep, ForkStep, RecordPoint;
    var s' := s.(procs := s.procs[p := NewRecord(s.procs[p], p)]);
    assert HeldBy(s', c) == HeldBy(s, c);
    OwnStep(s, s', c, s'.procs[p]);
  }

  // ---------- wakeup and kill ----------

  lemma WakeStepKeeps(s: State, c: nat, procs: seq<Proc>, pc: Pc)
    requires Inv(s) && Runs(s, c) && Holds(s, c, PTable) && |procs| == |s.procs|
    requires forall q :: 0 <= q < |procs| ==> Soft(s.procs[q], procs[q]) && procs[q].parent == s.procs[q].parent
    requires var q := s.procs[s.cpus[c].on.p];
      procs[s.cpus[c].on.p].state == q.state == StateAt(pc) == RUNNING && RetOk(pc) && HeldOk(pc, HeldBy(s, c))
      && (InIntr(pc) ==> InIntr(q.pc)) && !pc.SleepSwitch? && !pc.WaitSwitch?
      && TreeStep(q, procs[s.cpus[c].on.p].(pc := pc), s.cpus[c].on.p == s.init)
      && ForkStep(q, procs[s.cpus[c].on.p].(pc := pc))
    ensures Inv(Goto(s.(procs := procs), s.cpus[c].on.p, pc))
  {
    Running(s, c);
    hide Inv, ForkOk, TreeOk, HeldOk, RetOk, StateAt, InIntr, TreeStep, ForkStep;
    var p := s.cpus[c].on.p;
    var s' := Goto(s.(procs := procs), p, pc);
    assert forall d: nat :: HeldBy(s', d) == HeldBy(s, d);
    ThreadKeeps(s, s', c, p);
  }

  lemma WakeupKeeps(s: State, c: nat, ok: bool)
    requires Inv(s) && Enabled(s, Step(c, ok)) && s.procs[s.cpus[c].on.p].pc.WakeB?
    ensures Inv(Next(s, Step(c, ok)))
  {
    Running(s, c);
    hide Inv, ForkOk, TreeOk;
    var q := s.procs[s.cpus[c].on.p];
    assert PTable in HeldBy(s, c);
    WakeStepKeeps(s, c, Wakeup1(s.procs, q.pc.ch), WakeC(q.pc.ret));
  }

  lemma KillKeeps(s: State, c: nat, ok: bool)
    requires Inv(s) && Enabled(s, Step(c, ok)) && s.procs[s.cpus[c].on.p].pc.KillB?
    ensures Inv(Next(s, Step(c, ok)))
  {
    Running(s, c);
    hide Inv, ForkOk, TreeOk;
    var q := s.procs[s.cpus[c].on.p];
    assert PTable in HeldBy(s, c);
    WakeStepKeeps(s, c, Kill1(s, q.pc.victim).procs, KillC(q.pc.ret));
  }
}
