/** What holds in every reachable state of the process module. */
module KernelTheorems {
  import opened Options
  import opened Kernel
  import opened KernelInv
  import opened KernelSteps
  import opened KernelSpecial
  import opened KernelRuns

  lemma StepKeeps(s: State, c: nat, ok: bool)
    requires Inv(s) && Enabled(s, Step(c, ok))
    ensures Inv(Next(s, Step(c, ok)))
  {
    var pc := s.procs[s.cpus[c].on.p].pc;
    hide Inv, Next;
    if AcquiresPTable(pc) || ReleasesPTable(pc) {
      LockStepKeeps(s, c, ok);
    } else if pc.SleepB? {
      SleepUnlockKeeps(s, c, ok);
    } else if pc.SleepF? {
      SleepRelockKeeps(s, c, ok);
    } else if RecordPoint(pc) {
      RecordStepKeeps(s, c, ok);
    } else if pc.WakeB? {
      WakeupKeeps(s, c, ok);
    } else if pc.KillB? {
      KillKeeps(s, c, ok);
    } else if pc.WaitScan? {
      WaitScanKeeps(s, c, ok);
    } else if pc.ExitB? || pc.ExitC? {
      ExitStepKeeps(s, c, ok);
    } else if CallsSched(pc) {
      SwitchOutKeeps(s, c, ok);
    } else if pc.ForkB? {
      ForkBKeeps(s, c, ok);
    } else if pc.ForkC? {
      ForkCKeeps(s, c, ok);
    } else if pc.ForkD? {
      ForkDKeeps(s, c, ok);
    } else if pc.ForkE? {
      ForkEKeeps(s, c, ok);
    }
  }

  lemma SchedKeeps(s: State, c: nat)
    requires Inv(s) && Enabled(s, Sched(c))
    ensures Inv(Next(s, Sched(c)))
  {
    var k := s.cpus[c];
    hide Inv, Next;
    if k.spc == Ready || (k.spc.Scan? && k.spc.i >= |s.procs|) {
      SchedLockKeeps(s, c);
    } else if k.spc.Scan? && s.procs[k.spc.i].state == RUNNABLE {
      SwitchInKeeps(s, c);
    } else {
      SchedMoveKeeps(s, c);
    }
  }

  /** Every step of every CPU keeps the invariant. */
  lemma NextKeeps(s: State, e: Event)
    requires Inv(s) && Enabled(s, e)
    ensures Inv(Next(s, e))
  {
    hide Inv, Next;
    match e
    case Start(c, call) => CallKeeps(s, c, call);
    case Preempt(c) => PreemptKeeps(s, c);
    case Step(c, ok) => StepKeeps(s, c, ok);
    case Sched(c) => SchedKeeps(s, c);
    case IdleInterrupt(c, lk, ch) => IdleKeeps(s, c, lk, ch);
  }

  lemma {:induction false} RunKeeps(s: State, es: seq<Event>)
    requires Inv(s) && IsRun(s, es)
    ensures Inv(Run(s, es))
    decreases |es|
  {
    hide Inv, Next, Enabled;
    if es != [] {
      NextKeeps(s, es[0]);
      RunKeeps(Next(s, es[0]), es[1..]);
    }
  }

  ghost predicate Reachable(s: State) {
    exists s0, es :: Boot(s0) && IsRun(s0, es) && Run(s0, es) == s
  }

  lemma ReachableInv(s: State)
    requires Reachable(s)
    ensures Inv(s)
  {
    var s0, es :| Boot(s0) && IsRun(s0, es) && Run(s0, es) == s;
    BootInv(s0);
    RunKeeps(s0, es);
  }

  // ---------- locks and the context switch ----------

  /** None of the panics of `acquire`, `release`, `popcli`, `sched`, `exit` is ever hit,
      and `sched` is entered holding exactly `ptable.lock`. */
  lemma NoPanic(s: State, c: nat)
    requires Reachable(s) && Runs(s, c)
    ensures !Panics(s, c)
    ensures CallsSched(s.procs[s.cpus[c].on.p].pc) ==> HeldBy(s, c) == {PTable} && s.cpus[c].ncli == 1
  {
    ReachableInv(s);
    Running(s, c);
    var p := s.cpus[c].on.p;
    assert p == s.init ==> !Exits(Base(s.procs[p].pc));
    hide Inv, ForkOk, TreeOk, Reachable;
    assert PTable in HeldBy(s, c) <==> Holds(s, c, PTable);
    if s.procs[p].pc.SleepB? {
      assert Ordinary(s.procs[p].pc.lk) in HeldBy(s, c);
    }
    if s.procs[p].pc.SleepF? {
      assert Ordinary(s.procs[p].pc.lk) !in HeldBy(s, c);
    }
    if HeldBy(s, c) != {} {
      var lk :| lk in HeldBy(s, c);
      NonEmptyCount(HeldBy(s, c), lk);
    }
  }

  /** A thread inside the process module waits for nothing but a lock. */
  lemma OnlyLocksBlock(s: State, c: nat, ok: bool)
    requires Reachable(s) && Runs(s, c)
    requires var pc := s.procs[s.cpus[c].on.p].pc; !pc.Kern? && !pc.Intr?
    ensures var pc := s.procs[s.cpus[c].on.p].pc;
      || Enabled(s, Step(c, ok))
      || (AcquiresPTable(pc) && !Free(s, PTable))
      || (pc.SleepF? && !Free(s, Ordinary(pc.lk)))
  {
    NoPanic(s, c);
    hide Reachable;
  }

  /** The interrupt flag belongs to the thread: outside all locks it is the thread's
      own, inside them `intena` remembers it, on whatever CPU the thread now runs. */
  lemma InterruptStateFollows(s: State, c: nat)
    requires Reachable(s) && Runs(s, c)
    ensures var q, k := s.procs[s.cpus[c].on.p], s.cpus[c];
      if k.ncli == 0 then k.iflag == q.want else !k.iflag && k.intena == q.want
  {
    ReachableInv(s);
    Running(s, c);
    hide Inv, Reachable;
  }

  function Killed(r: Proc): (r': Proc)
    ensures r'.want == r.want
  {
    r.(killed := true, state := if r.state == SLEEPING then RUNNABLE else r.state)
  }

  function Reaped(r: Proc): (r': Proc)
    ensures r'.want == r.want
  {
    r.(kstack := false, vm := false, state := UNUSED, parent := None, killed := false)
  }

  /** The slot that `allocproc` and `fork` are building. */
  function Built(r: Proc, pc: Pc, ok: bool, p: nat): (r': Proc)
    ensures r'.want == r.want
  {
    if pc.ForkC? then (if ok then r.(kstack := true, pc := ForkRet) else r.(state := UNUSED))
    else if pc.ForkD? then
      (if ok then r.(vm := true, parent := Some(p)) else r.(kstack := false, state := UNUSED))
    else if pc.ForkE? then r.(state := RUNNABLE)
    else r.(state := EMBRYO)
  }

  /** The channel on which the thread's next step runs `wakeup1`. */
  function WakeChan(me: Proc): Option<Chan> {
    if me.pc.WakeB? then Some(me.pc.ch)
    else if me.pc.ExitB? && me.parent.Some? then Some(ProcAddr(me.parent.value))
    else None
  }

  /** The slot the thread's next step frees or builds; |procs| if none. */
  function SlotOf(s: State, p: nat): nat
    requires p < |s.procs|
  {
    var pc := s.procs[p].pc;
    if pc.WaitScan? then FirstZombie(s.procs, p, 0)
    else if pc.ForkB? then FirstUnused(s.procs, 0)
    else if pc.ForkC? || pc.ForkD? || pc.ForkE? then pc.np
    else |s.procs|
  }

  /** What a step of the thread on CPU `c` does to the record of another process. */
  function OtherEffect(s: State, c: nat, ok: bool, q: nat): (r': Proc)
    requires Runs(s, c) && q < |s.procs|
    ensures r'.want == s.procs[q].want
  {
    var p := s.cpus[c].on.p;
    var me, r := s.procs[p], s.procs[q];
    if WakeChan(me).Some? then Wake1(r, WakeChan(me).value)
    else if me.pc.KillB? && me.pc.victim == q then Killed(r)
    else if me.pc.ExitC? then AdoptSoft(s.procs, p, s.init, q); Adopt(s.procs, p, s.init)[q]
    else if q == SlotOf(s, p) then (if me.pc.WaitScan? then Reaped(r) else Built(r, me.pc, ok, p))
    else r
  }

  /** The process table after a step of the thread on CPU `c`. */
  ghost predicate StepEffect(s: State, c: nat, ok: bool, s': State)
    requires Runs(s, c)
  {
    var p := s.cpus[c].on.p;
    && |s'.procs| == |s.procs| && s'.procs[p].want == s.procs[p].want
    && (forall q :: 0 <= q < |s.procs| && q != p ==> s'.procs[q] == OtherEffect(s, c, ok, q))
  }

  lemma LockEffect(s: State, c: nat, ok: bool)
    requires Enabled(s, Step(c, ok))
    requires var pc := s.procs[s.cpus[c].on.p].pc; AcquiresPTable(pc) || ReleasesPTable(pc)
    ensures StepEffect(s, c, ok, Next(s, Step(c, ok)))
  {
    LockStep(s, c, ok);
    QuietEffect(s, c, ok);
    hide Next, Panics, Enabled, OtherEffect;
  }

  lemma SleepEffect(s: State, c: nat, ok: bool)
    requires Enabled(s, Step(c, ok)) && (s.procs[s.cpus[c].on.p].pc.SleepB? || s.procs[s.cpus[c].on.p].pc.SleepF?)
    ensures StepEffect(s, c, ok, Next(s, Step(c, ok)))
  {
    QuietEffect(s, c, ok);
    hide Panics, OtherEffect;
  }

  lemma QuietEffect(s: State, c: nat, ok: bool)
    requires Runs(s, c)
    requires var pc := s.procs[s.cpus[c].on.p].pc;
      AcquiresPTable(pc) || ReleasesPTable(pc) || RecordPoint(pc) || CallsSched(pc) || pc.SleepB? || pc.SleepF?
    ensures forall q :: 0 <= q < |s.procs| ==> OtherEffect(s, c, ok, q) == s.procs[q]
  {
    hide Wake1, Killed, Adopt, Reaped, Built, FirstZombie, FirstUnused;
  }

  lemma RecordEffect(s: State, c: nat, ok: bool)
    requires Enabled(s, Step(c, ok)) && RecordPoint(s.procs[s.cpus[c].on.p].pc)
    ensures StepEffect(s, c, ok, Next(s, Step(c, ok)))
  {
    RecordStep(s, c, ok);
    QuietEffect(s, c, ok);
    hide Next, Panics, Enabled, OtherEffect;
  }

  lemma WakeEffect(s: State, c: nat, ok: bool)
    requires Enabled(s, Step(c, ok))
    requires var pc := s.procs[s.cpus[c].on.p].pc; pc.WakeB? || pc.KillB?
    ensures StepEffect(s, c, ok, Next(s, Step(c, ok)))
  {
    hide Panics;
  }

  lemma ExitEffect(s: State, c: nat, ok: bool)
    requires Enabled(s, Step(c, ok))
    requires var pc := s.procs[s.cpus[c].on.p].pc; pc.ExitB? || pc.ExitC?
    ensures StepEffect(s, c, ok, Next(s, Step(c, ok)))
  {
    if s.procs[s.cpus[c].on.p].pc.ExitB? {
      ExitWakeEffect(s, c, ok);
    } else {
      ExitAdoptEffect(s, c, ok);
    }
    hide *;
  }

  lemma ExitWakeEffect(s: State, c: nat, ok: bool)
    requires Enabled(s, Step(c, ok)) && s.procs[s.cpus[c].on.p].pc.ExitB?
    ensures StepEffect(s, c, ok, Next(s, Step(c, ok)))
  {
    hide Panics, Adopt, OrphanZombie;
  }

  lemma ExitAdoptEffect(s: State, c: nat, ok: bool)
    requires Enabled(s, Step(c, ok)) && s.procs[s.cpus[c].on.p].pc.ExitC?
    ensures StepEffect(s, c, ok, Next(s, Step(c, ok)))
  {
    hide Panics, Adopt, OrphanZombie;
  }

  lemma WaitEffect(s: State, c: nat, ok: bool)
    requires Enabled(s, Step(c, ok)) && s.procs[s.cpus[c].on.p].pc.WaitScan?
    requires FirstZombie(s.procs, s.cpus[c].on.p, 0) != s.cpus[c].on.p
    ensures StepEffect(s, c, ok, Next(s, Step(c, ok)))
  {
    WaitScanNext(s, c, ok);
    hide Next, Panics, Enabled;
  }

  lemma SwitchEffect(s: State, c: nat, ok: bool)
    requires Enabled(s, Step(c, ok)) && CallsSched(s.procs[s.cpus[c].on.p].pc)
    ensures StepEffect(s, c, ok, Next(s, Step(c, ok)))
  {
    SwitchOutNext(s, c, ok);
    QuietEffect(s, c, ok);
    hide Next, Panics, Enabled, OtherEffect;
  }

  lemma ForkEffect(s: State, c: nat, ok: bool)
    requires Enabled(s, Step(c, ok))
    requires var pc := s.procs[s.cpus[c].on.p].pc; pc.ForkC? || pc.ForkD? || pc.ForkE?
    ensures StepEffect(s, c, ok, Next(s, Step(c, ok)))
  {
    hide Panics;
  }

  lemma AllocEffect(s: State, c: nat, ok: bool)
    requires Enabled(s, Step(c, ok)) && s.procs[s.cpus[c].on.p].pc.ForkB?
    ensures StepEffect(s, c, ok, Next(s, Step(c, ok)))
  {
    hide Panics;
  }

  lemma StepEffects(s: State, c: nat, ok: bool)
    requires Inv(s) && Enabled(s, Step(c, ok))
    ensures StepEffect(s, c, ok, Next(s, Step(c, ok)))
  {
    Running(s, c);
    var pc := s.procs[s.cpus[c].on.p].pc;
    assert pc.WaitScan? ==> s.procs[s.cpus[c].on.p].state == RUNNING;
    hide Inv, TreeOk, ForkOk, COk, OnOk;
    hide Next, StepEffect;
    if AcquiresPTable(pc) || ReleasesPTable(pc) {
      LockEffect(s, c, ok);
    } else if pc.SleepB? || pc.SleepF? {
      SleepEffect(s, c, ok);
    } else if RecordPoint(pc) {
      RecordEffect(s, c, ok);
    } else if pc.WakeB? || pc.KillB? {
      WakeEffect(s, c, ok);
    } else if pc.WaitScan? {
      WaitEffect(s, c, ok);
    } else if pc.ExitB? || pc.ExitC? {
      ExitEffect(s, c, ok);
    } else if CallsSched(pc) {
      SwitchEffect(s, c, ok);
    } else if pc.ForkB? {
      AllocEffect(s, c, ok);
    } else {
      ForkEffect(s, c, ok);
    }
  }

  /** ... and only the thread itself changes it, never a switch to another CPU. */
  lemma InterruptStateIsOwn(s: State, e: Event, p: nat)
    requires Reachable(s) && Enabled(s, e) && p < |s.procs|
    ensures |Next(s, e).procs| == |s.procs|
    ensures Next(s, e).procs[p].want != s.procs[p].want ==>
              || (e.Preempt? && s.cpus[e.c].on == Kthread(p))
              || (e.Start? && s.cpus[e.c].on == Kthread(p) && (e.call.CInterrupts? || e.call.CIret?))
              || (e.Sched? && s.cpus[e.c].spc == Scan(p) && s.procs[p].pc.ForkRet?)
  {
    ReachableInv(s);
    if e.Step? {
      StepEffects(s, e.c, e.ok);
      EffectWant(s, e.c, e.ok, p, Next(s, e));
      hide *;
    } else {
      OtherEventsWant(s, e, p);
      hide *;
    }
  }

  lemma OtherEventsWant(s: State, e: Event, p: nat)
    requires Enabled(s, e) && p < |s.procs| && !e.Step?
    ensures |Next(s, e).procs| == |s.procs|
    ensures Next(s, e).procs[p].want != s.procs[p].want ==>
              || (e.Preempt? && s.cpus[e.c].on == Kthread(p))
              || (e.Start? && s.cpus[e.c].on == Kthread(p) && (e.call.CInterrupts? || e.call.CIret?))
              || (e.Sched? && s.cpus[e.c].spc == Scan(p) && s.procs[p].pc.ForkRet?)
  {
    if e.Sched? {
      SchedWant(s, e.c, p);
    } else if e.Start? {
      StartWant(s, e.c, e.call, p);
    } else {
      hide ThreadStep, Panics, SchedStep, StartCall;
    }
  }

  lemma SchedWant(s: State, c: nat, p: nat)
    requires Enabled(s, Sched(c)) && p < |s.procs|
    ensures var s' := Next(s, Sched(c));
      |s'.procs| == |s.procs| && (s'.procs[p].want != s.procs[p].want ==> s.cpus[c].spc == Scan(p) && s.procs[p].pc.ForkRet?)
  {
    hide ThreadStep, Panics, StartCall;
  }

  lemma StartWant(s: State, c: nat, call: Call, p: nat)
    requires Enabled(s, Start(c, call)) && p < |s.procs|
    ensures var s' := Next(s, Start(c, call));
      |s'.procs| == |s.procs|
      && (s'.procs[p].want != s.procs[p].want ==> s.cpus[c].on == Kthread(p) && (call.CInterrupts? || call.CIret?))
  {
    hide ThreadStep, Panics, SchedStep;
  }

  lemma EffectWant(s: State, c: nat, ok: bool, q: nat, s': State)
    requires Runs(s, c) && q < |s.procs| && StepEffect(s, c, ok, s')
    ensures |s'.procs| == |s.procs| && s'.procs[q].want == s.procs[q].want
  {
    hide OtherEffect;
  }

  // ---------- exit, wait, scheduler ----------

  lemma OneCpu(s: State, c: nat, d: nat, p: nat)
    requires Reachable(s) && c < |s.cpus| && d < |s.cpus|
    requires s.cpus[c].on == Kthread(p) && s.cpus[d].on == Kthread(p)
    ensures c == d
  {
    ReachableInv(s);
    assert COk(s, c) && COk(s, d);
  }

  /** When `wait` frees a zombie, no CPU is on its stack, has its page directory
      loaded, or is between leaving it and `switchkvm`. */
  lemma ReapSafe(s: State, c: nat, ok: bool, z: nat)
    requires Reachable(s) && Enabled(s, Step(c, ok)) && s.procs[s.cpus[c].on.p].pc.WaitScan?
    requires z == FirstZombie(s.procs, s.cpus[c].on.p, 0) && z < |s.procs|
    ensures var s' := Next(s, Step(c, ok));
      !s'.procs[z].kstack && !s'.procs[z].vm && s.procs[z].kstack && s.procs[z].vm
    ensures forall d :: 0 <= d < |s.cpus| ==>
              s.cpus[d].on != Kthread(z) && s.cpus[d].pgdir != Some(z) && s.cpus[d].proc != Some(z) && s.cpus[d].spc != Back(z)
  {
    WaitScanNext(s, c, ok);
    ReachableInv(s);
    HoldsPTable(s, c);
    Excluded(s, c, z);
    assert TreeOk(s, z) && COk(s, c);
    hide Next, Enabled, Reachable, TreeOk, ForkOk, Distinct, POk;
    forall d | 0 <= d < |s.cpus|
      ensures s.cpus[d].on != Kthread(z) && s.cpus[d].pgdir != Some(z) && s.cpus[d].proc != Some(z) && s.cpus[d].spc != Back(z)
    {
      OffZombie(s, c, d, z);
    }
  }

  lemma OffZombie(s: State, c: nat, d: nat, z: nat)
    requires Inv(s) && c < |s.cpus| && d < |s.cpus| && Holds(s, c, PTable) && s.cpus[c].on.Kthread? && s.cpus[c].on.p != z
    requires z < |s.procs| && s.procs[z].cpu == None
    ensures s.cpus[d].on != Kthread(z) && s.cpus[d].pgdir != Some(z) && s.cpus[d].proc != Some(z) && s.cpus[d].spc != Back(z)
  {
    assert COk(s, c) && COk(s, d);
    assert d != c ==> PTable !in HeldBy(s, d);
    hide Inv;
  }

  /** The scheduler never resumes a slot without a kernel stack or page directory. */
  lemma ScheduledHasMemory(s: State, c: nat)
    requires Reachable(s) && c < |s.cpus| && s.cpus[c].on == Scheduler && s.cpus[c].spc.Scan?
    requires s.cpus[c].spc.i < |s.procs| && s.procs[s.cpus[c].spc.i].state == RUNNABLE
    ensures s.procs[s.cpus[c].spc.i].kstack && s.procs[s.cpus[c].spc.i].vm && s.procs[s.cpus[c].spc.i].cpu == None
  {
    ReachableInv(s);
    assert Enabled(s, Sched(c));
    SwitchInKeeps(s, c);
  }

  /** Every process past EMBRYO but init has a parent, and a parent link never points
      to a slot that is free, being created, or dead. */
  lemma ParentsLive(s: State, p: nat)
    requires Reachable(s) && p < |s.procs|
    ensures s.procs[p].state != UNUSED && s.procs[p].state != EMBRYO && p != s.init ==> s.procs[p].parent.Some?
    ensures s.procs[p].parent.Some? ==>
              var r := s.procs[p].parent.value;
              r < |s.procs| && r != p && s.procs[r].state != UNUSED && s.procs[r].state != EMBRYO && s.procs[r].state != ZOMBIE
    ensures s.init < |s.procs| && s.procs[s.init].state != ZOMBIE && s.procs[s.init].state != UNUSED
  {
    ReachableInv(s);
    assert TreeOk(s, p) && TreeOk(s, s.init);
  }

  /** No process sleeps in `wait` while it has a zombie child. */
  lemma NoZombieUnnoticed(s: State, p: nat, z: nat)
    requires Reachable(s) && p < |s.procs| && z < |s.procs|
    requires s.procs[p].state == SLEEPING && (s.procs[p].pc.WaitD? || s.procs[p].pc.WaitSwitch?)
    ensures !(s.procs[z].parent == Some(p) && s.procs[z].state == ZOMBIE)
  {
    ReachableInv(s);
    assert TreeOk(s, z);
  }

  // ---------- no lost wakeups ----------

  /** The process has tested its condition under `lk`, called `sleep(ch, lk)`, and has
      not been woken. */
  predicate Waiting(s: State, p: nat, ch: Chan, lk: nat)
    requires p < |s.procs|
  {
    var q := s.procs[p];
    || q.pc == SleepA(ch, lk) || q.pc == SleepB(ch, lk) || q.pc == SleepC(ch, lk) || q.pc == SleepSwitch(ch, lk)
    || (q.pc == SleepD(ch, lk) && q.state == SLEEPING)
  }

  /** From the call of `sleep` until it is woken, a process holds `lk`, or holds
      `ptable.lock`, or is marked sleeping on the channel. */
  lemma WaitingCovered(s: State, p: nat, ch: Chan, lk: nat)
    requires Reachable(s) && p < |s.procs| && Waiting(s, p, ch, lk)
    ensures || (s.procs[p].cpu.Some? && Holds(s, s.procs[p].cpu.value, Ordinary(lk)))
            || (s.procs[p].cpu.Some? && Holds(s, s.procs[p].cpu.value, PTable))
            || (s.procs[p].cpu == None && s.procs[p].state == SLEEPING && s.procs[p].chan == Some(ch))
  {
    ReachableInv(s);
    assert POk(s, p);
    hide Inv, Reachable;
    if s.procs[p].cpu.Some? {
      var c := s.procs[p].cpu.value;
      assert PTable in HeldBy(s, c) || Ordinary(lk) in HeldBy(s, c);
    }
  }

  /** A wakeup on the channel by any later holder of `lk` makes the process runnable. */
  lemma WakeupNotLost(s: State, e: Event, p: nat, ch: Chan, lk: nat)
    requires Reachable(s) && Enabled(s, e) && p < |s.procs| && Waiting(s, p, ch, lk)
    requires || (e.Step? && s.procs[s.cpus[e.c].on.p].pc.WakeB? && s.procs[s.cpus[e.c].on.p].pc.ch == ch
                 && Holds(s, e.c, Ordinary(lk)))
             || e == IdleInterrupt(e.c, lk, ch)
    ensures |Next(s, e).procs| == |s.procs| && Next(s, e).procs[p].state == RUNNABLE && Next(s, e).procs[p].pc == SleepD(ch, lk)
  {
    WaitingCovered(s, p, ch, lk);
    ReachableInv(s);
    assert POk(s, p);
    hide Reachable, TreeOk, ForkOk, Distinct;
    if e.Step? {
      Running(s, e.c);
      assert PTable in HeldBy(s, e.c);
    }
    WakerExcludes(s, e, p, ch, lk);
    if e.Step? {
      StepEffects(s, e.c, e.ok);
    }
  }

  lemma CoveredBy(s: State, p: nat, ch: Chan, lk: nat)
    requires Inv(s) && p < |s.procs| && Waiting(s, p, ch, lk)
    ensures forall d :: s.procs[p].cpu == Some(d) ==> Holds(s, d, PTable) || Holds(s, d, Ordinary(lk))
  {
    assert POk(s, p);
    forall d | s.procs[p].cpu == Some(d)
      ensures Holds(s, d, PTable) || Holds(s, d, Ordinary(lk))
    {
      assert PTable in HeldBy(s, d) || Ordinary(lk) in HeldBy(s, d);
    }
  }

  /** Holding `lk` and `ptable.lock`, the waker excludes every point of `sleep` before the switch. */
  lemma WakerExcludes(s: State, e: Event, p: nat, ch: Chan, lk: nat)
    requires Inv(s) && Enabled(s, e) && p < |s.procs| && Waiting(s, p, ch, lk)
    requires || (e.Step? && s.procs[s.cpus[e.c].on.p].pc.WakeB? && Holds(s, e.c, Ordinary(lk)) && Holds(s, e.c, PTable))
             || e == IdleInterrupt(e.c, lk, ch)
    ensures s.procs[p].cpu == None && (e.Step? ==> s.cpus[e.c].on != Kthread(p))
  {
    assert POk(s, p);
    assert forall d :: 0 <= d < |s.cpus| && HeldBy(s, d) != {} ==> COk(s, d);
    CoveredBy(s, p, ch, lk);
    hide Next, Inv, TreeOk, ForkOk, Distinct, RetOk;
  }

  /** The event runs `wakeup1` on the channel, in `wakeup` or in `exit`, or kills the process. */
  predicate WakesOn(s: State, e: Event, p: nat, ch: Chan)
    requires Enabled(s, e)
  {
    match e
    case Step(c, _) =>
      var me := s.procs[s.cpus[c].on.p];
      || (me.pc.WakeB? && me.pc.ch == ch)
      || (me.pc.KillB? && me.pc.victim == p)
      || (me.pc.ExitB? && me.parent.Some? && ch == ProcAddr(me.parent.value))
      || (me.pc.ExitC? && ch == ProcAddr(s.init))
    case IdleInterrupt(_, _, ch') => ch' == ch
    case _ => false
  }

  /** Nothing but a wakeup on its channel or a `kill` ends the wait: every other step
      leaves the process waiting. */
  lemma WaitingEnds(s: State, e: Event, p: nat, ch: Chan, lk: nat)
    requires Reachable(s) && Enabled(s, e) && p < |s.procs| && Waiting(s, p, ch, lk) && !WakesOn(s, e, p, ch)
    ensures |Next(s, e).procs| == |s.procs| && Waiting(Next(s, e), p, ch, lk)
  {
    ReachableInv(s);
    match e
    case Step(c, ok) =>
      if s.cpus[c].on == Kthread(p) {
        WaitingMoves(s, c, ok, ch, lk);
      } else {
        WaitingUntouched(s, c, ok, p, ch, lk);
      }
    case Sched(c) => WaitingNotScheduled(s, c, p, ch, lk);
    case _ =>
      WaitingKeepsLock(s, e, p, ch, lk);
  }

  lemma WaitingMoves(s: State, c: nat, ok: bool, ch: Chan, lk: nat)
    requires Inv(s) && Enabled(s, Step(c, ok)) && Waiting(s, s.cpus[c].on.p, ch, lk)
    ensures |Next(s, Step(c, ok)).procs| == |s.procs| && Waiting(Next(s, Step(c, ok)), s.cpus[c].on.p, ch, lk)
  {
    Running(s, c);
    hide Inv, ForkOk, TreeOk, Panics;
  }

  lemma WaitingUntouched(s: State, c: nat, ok: bool, p: nat, ch: Chan, lk: nat)
    requires Inv(s) && Enabled(s, Step(c, ok)) && p < |s.procs| && s.cpus[c].on != Kthread(p)
    requires Waiting(s, p, ch, lk) && !WakesOn(s, Step(c, ok), p, ch)
    ensures |Next(s, Step(c, ok)).procs| == |s.procs| && Waiting(Next(s, Step(c, ok)), p, ch, lk)
  {
    StepEffects(s, c, ok);
    Running(s, c);
    var me := s.cpus[c].on.p;
    ForkBaseOfPoint(s.procs[me].pc);
    assert POk(s, p);
    assert s.procs[p].state == SLEEPING || s.procs[p].state == RUNNING;
    assert ForkPoint(s.procs[me].pc) ==> s.procs[me].pc.np < |s.procs| && s.procs[s.procs[me].pc.np].state == EMBRYO;
    assert s.procs[p].state == SLEEPING ==> s.procs[p].chan == Some(ch);
    hide Next, Inv, TreeOk, COk, RetOk, Base, POk, ForkOk, OnOk;
    WaitingEffect(s, c, ok, p, ch, lk);
  }

  lemma WaitingEffect(s: State, c: nat, ok: bool, p: nat, ch: Chan, lk: nat)
    requires Enabled(s, Step(c, ok)) && p < |s.procs| && Waiting(s, p, ch, lk) && !WakesOn(s, Step(c, ok), p, ch)
    requires s.procs[p].state == SLEEPING || s.procs[p].state == RUNNING
    requires s.procs[p].state == SLEEPING ==> s.procs[p].chan == Some(ch)
    requires var pc := s.procs[s.cpus[c].on.p].pc; ForkPoint(pc) ==> pc.np < |s.procs| && s.procs[pc.np].state == EMBRYO
    ensures OtherEffect(s, c, ok, p).pc == s.procs[p].pc && OtherEffect(s, c, ok, p).state == s.procs[p].state
  {
    assert Runs(s, c);
    var me := s.cpus[c].on.p;
    hide Next, Enabled, Adopt;
    AdoptWakesInit(s.procs, me, s.init, p);
    assert p != SlotOf(s, me);
    assert WakeChan(s.procs[me]) != Some(ch);
    hide SlotOf, WakeChan, Built, Reaped;
  }

  lemma ForkBaseOfPoint(pc: Pc)
    ensures ForkPoint(pc) ==> Base(pc) == pc
  {
  }

  lemma AdoptWakesInit(procs: seq<Proc>, p: nat, init: nat, q: nat)
    requires q < |procs|
    ensures var r := Adopt(procs, p, init)[q];
      r.pc == procs[q].pc && (procs[q].chan != Some(ProcAddr(init)) ==> r.state == procs[q].state)
  {
    hide Adopt, OrphanZombie;
  }

  lemma WaitingNotScheduled(s: State, c: nat, p: nat, ch: Chan, lk: nat)
    requires Inv(s) && Enabled(s, Sched(c)) && p < |s.procs| && Waiting(s, p, ch, lk)
    ensures |Next(s, Sched(c)).procs| == |s.procs| && Waiting(Next(s, Sched(c)), p, ch, lk)
  {
    assert POk(s, p) && COk(s, c);
    if s.cpus[c].spc == Scan(p) {
      Excluded(s, c, p) by {
        assert PTable in HeldBy(s, c);
      }
    }
    hide Inv, TreeOk, ForkOk, RetOk;
  }

  lemma WaitingKeepsLock(s: State, e: Event, p: nat, ch: Chan, lk: nat)
    requires Inv(s) && Enabled(s, e) && p < |s.procs| && Waiting(s, p, ch, lk)
    requires (e.IdleInterrupt? && e.ch != ch) || e.Start? || e.Preempt?
    ensures |Next(s, e).procs| == |s.procs| && Waiting(Next(s, e), p, ch, lk)
  {
    assert POk(s, p);
    if e.Preempt? {
      Running(s, e.c);
    }
    hide Inv, TreeOk, ForkOk, RetOk;
  }

  // ---------- over whole runs ----------

  /** No step of the run wakes or kills the process. */
  predicate Undisturbed(s: State, es: seq<Event>, p: nat, ch: Chan)
    requires IsRun(s, es)
    decreases |es|
  {
    es == [] || (!WakesOn(s, es[0], p, ch) && Undisturbed(Next(s, es[0]), es[1..], p, ch))
  }

  lemma ReachableNext(s: State, e: Event)
    requires Reachable(s) && Enabled(s, e)
    ensures Reachable(Next(s, e))
  {
    var s0, es :| Boot(s0) && IsRun(s0, es) && Run(s0, es) == s;
    RunAppend(s0, es, e);
  }

  lemma {:induction false} RunAppend(s0: State, es: seq<Event>, e: Event)
    requires IsRun(s0, es) && Enabled(Run(s0, es), e)
    ensures IsRun(s0, es + [e]) && Run(s0, es + [e]) == Next(Run(s0, es), e)
    decreases |es|
  {
    hide Next, Enabled;
    if es == [] {
      assert es + [e] == [e];
      assert [e][1..] == [];
    } else {
      RunAppend(Next(s0, es[0]), es[1..], e);
      assert (es + [e])[1..] == es[1..] + [e];
    }
  }

  /** A process that went to sleep is still waiting after any run that does not wake
      it; so the wakeup it waits for, whenever it comes, finds it. */
  lemma {:induction false} WaitsThroughRun(s: State, es: seq<Event>, p: nat, ch: Chan, lk: nat)
    requires Reachable(s) && IsRun(s, es) && p < |s.procs| && Waiting(s, p, ch, lk) && Undisturbed(s, es, p, ch)
    ensures |Run(s, es).procs| == |s.procs| && Waiting(Run(s, es), p, ch, lk) && Reachable(Run(s, es))
    decreases |es|
  {
    hide Next, Enabled, WakesOn, Waiting, Reachable;
    if es != [] {
      WaitingEnds(s, es[0], p, ch, lk);
      ReachableNext(s, es[0]);
      WaitsThroughRun(Next(s, es[0]), es[1..], p, ch, lk);
    }
  }
}
