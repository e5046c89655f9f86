/** The invariant of the process state machine, kept by every step. */
module KernelInv {
  import opened Options
  import opened Kernel

  ghost function HeldBy(s: State, c: nat): set<Lock> {
    set lk | lk in s.locks && s.locks[lk] == c
  }

  /** Which locks a thread at `pc` may hold. */
  ghost predicate HeldOk(pc: Pc, h: set<Lock>) {
    if Loose(pc) then PTable !in h
    else if Locked(pc) then PTable in h
    else if pc.SleepA? then h == {Ordinary(pc.lk)}
    else if pc.SleepB? then h == {Ordinary(pc.lk), PTable}
    else if Bare(pc) then h == {}
    else !pc.Dead? && h == {PTable}
  }

  predicate Loose(pc: Pc) { pc.Kern? || pc.Intr? || pc.WakeA? || pc.KillA? }

  predicate Locked(pc: Pc) { pc.WakeB? || pc.WakeC? || pc.KillB? || pc.KillC? }

  predicate Bare(pc: Pc) {
    pc.SleepF? || pc.WaitA? || pc.YieldA? || pc.ExitA? || pc.ForkA? || pc.ForkC? || pc.ForkD? || pc.ForkE?
  }

  function StateAt(pc: Pc): ProcState {
    if pc.SleepSwitch? || pc.WaitSwitch? then SLEEPING
    else if pc.YieldSwitch? then RUNNABLE
    else if pc.ExitSwitch? then ZOMBIE
    else RUNNING
  }

  predicate InCall(pc: Pc) { pc.WakeA? || pc.WakeB? || pc.WakeC? || pc.KillA? || pc.KillB? || pc.KillC? }

  predicate InYield(pc: Pc) { pc.YieldA? || pc.YieldB? || pc.YieldSwitch? || pc.YieldD? }

  /** Calls return to generic code, and a handler to a point that holds no lock. */
  ghost predicate RetOk(pc: Pc) {
    if pc.Intr? then HeldOk(pc.ret, {}) && !InIntr(pc.ret) && RetOk(pc.ret)
    else if InCall(pc) then (pc.ret.Kern? || pc.ret.Intr?) && RetOk(pc.ret)
    else InYield(pc) ==> pc.ret.Intr? && RetOk(pc.ret)
  }

  /** The point of the thread below any interrupt handler. */
  function Base(pc: Pc): Pc {
    if pc.Intr? || InCall(pc) || InYield(pc) then Base(pc.ret) else pc
  }

  /** The thread is inside an interrupt handler, where interrupts stay off. */
  predicate InIntr(pc: Pc) {
    pc.Intr? || InYield(pc) || (InCall(pc) && pc.ret.Intr?)
  }

  ghost predicate OnOk(s: State, p: nat, c: nat)
    requires p < |s.procs| && c < |s.cpus|
  {
    var q, k := s.procs[p], s.cpus[c];
    && k.on == Kthread(p) && q.state == StateAt(q.pc) && RetOk(q.pc) && HeldOk(q.pc, HeldBy(s, c))
    && (if k.ncli > 0 then !k.iflag && k.intena == q.want else k.iflag == q.want)
    && (InIntr(q.pc) ==> !q.want)
    && (q.pc.SleepSwitch? ==> q.chan == Some(q.pc.ch))
    && (q.pc.WaitSwitch? ==> q.chan == Some(ProcAddr(p)))
  }

  ghost predicate OffOk(q: Proc, p: nat) {
    match q.state
    case UNUSED => q.pc.Kern? || q.pc.Dead? || q.pc.ForkRet?
    case EMBRYO => q.pc.Kern? || q.pc.Dead? || q.pc.ForkRet?
    case RUNNABLE =>
      || q.pc.ForkRet?
      || ((q.pc.SleepD? || q.pc.WaitD?) && q.saved == q.want)
      || (q.pc.YieldD? && RetOk(q.pc) && q.saved == q.want == false)
    case SLEEPING =>
      q.saved == q.want
      && ((q.pc.SleepD? && q.chan == Some(q.pc.ch)) || (q.pc.WaitD? && q.chan == Some(ProcAddr(p))))
    case ZOMBIE => q.pc.Dead?
    case RUNNING => false
  }

  ghost predicate POk(s: State, p: nat)
    requires p < |s.procs|
  {
    match s.procs[p].cpu
    case Some(c) => c < |s.cpus| && OnOk(s, p, c)
    case None => OffOk(s.procs[p], p)
  }

  ghost predicate COk(s: State, c: nat)
    requires c < |s.cpus|
  {
    var k := s.cpus[c];
    && k.ncli == |HeldBy(s, c)|
    && match k.on
       case Kthread(p) =>
         p < |s.procs| && s.procs[p].cpu == Some(c) && k.proc == Some(p) && k.pgdir == Some(p) && k.spc == Back(p)
       case Scheduler =>
         match k.spc
         case Top => HeldBy(s, c) == {} && k.proc == None && k.pgdir == None
         case Ready => HeldBy(s, c) == {} && k.proc == None && k.pgdir == None && k.iflag
         case Scan(i) => HeldBy(s, c) == {PTable} && k.proc == None && k.pgdir == None && !k.iflag
         case Back(i) => HeldBy(s, c) == {PTable} && k.proc == Some(i) && k.pgdir == Some(i) && !k.iflag
  }

  // ---------- the process tree ----------

  predicate Alive(q: Proc) {
    (q.state == SLEEPING || q.state == RUNNABLE || q.state == RUNNING) && !q.pc.ExitD?
  }

  /** About to sleep, or asleep, in `wait`. */
  predicate InWait(q: Proc) {
    q.pc.WaitSleep? || (q.state == SLEEPING && (q.pc.WaitD? || q.pc.WaitSwitch?))
  }

  /** Exited, or past the point of `exit` where the parent has been woken. */
  predicate Leaving(q: Proc) {
    q.state == ZOMBIE || (q.state == RUNNING && (q.pc.ExitC? || q.pc.ExitD?))
  }

  predicate Exits(pc: Pc) {
    pc.ExitA? || pc.ExitB? || pc.ExitC? || pc.ExitD? || pc.ExitSwitch? || pc.Dead?
  }

  predicate ParentOk(s: State, q: Proc, r: nat) {
    r < |s.procs| && Alive(s.procs[r]) && (Leaving(q) ==> !InWait(s.procs[r]))
  }

  predicate TreeOk(s: State, p: nat)
    requires p < |s.procs|
  {
    var q := s.procs[p];
    && (q.parent.Some? ==> ParentOk(s, q, q.parent.value))
    && (q.state != UNUSED && q.state != EMBRYO ==> q.kstack && q.vm && (p != s.init ==> q.parent.Some?))
    && (q.state == UNUSED ==> q.parent == None) && q.parent != Some(p)
    && (p == s.init ==> q.parent == None && Alive(q) && !Exits(Base(q.pc)))
  }

  // ---------- processes being created ----------

  predicate ForkPoint(pc: Pc) {
    pc.ForkFound? || pc.ForkC? || pc.ForkD? || pc.ForkE?
  }

  predicate ForkOk(s: State, p: nat)
    requires p < |s.procs|
  {
    var b := Base(s.procs[p].pc);
    ForkPoint(b) ==>
      b.np < |s.procs| && b.np != p && var n := s.procs[b.np];
      && n.state == EMBRYO && n.cpu == None
      && (b.ForkD? || b.ForkE? ==> n.kstack && n.pc.ForkRet?)
      && (if b.ForkE? then n.vm && n.parent == Some(p) else n.parent == None)
  }

  predicate Distinct(s: State, p: nat, r: nat)
    requires p < |s.procs| && r < |s.procs|
  {
    var a, b := Base(s.procs[p].pc), Base(s.procs[r].pc);
    p != r && ForkPoint(a) && ForkPoint(b) ==> a.np != b.np
  }

  ghost predicate Inv(s: State) {
    && s.init < |s.procs|
    && (forall c :: 0 <= c < |s.cpus| ==> COk(s, c))
    && (forall p :: 0 <= p < |s.procs| ==> POk(s, p))
    && (forall p :: 0 <= p < |s.procs| ==> TreeOk(s, p))
    && (forall p :: 0 <= p < |s.procs| ==> ForkOk(s, p))
    && (forall p, r :: 0 <= p < |s.procs| && 0 <= r < |s.procs| ==> Distinct(s, p, r))
  }

  lemma BootInv(s: State)
    requires Boot(s)
    ensures Inv(s)
  {
    forall c | 0 <= c < |s.cpus|
      ensures COk(s, c)
    {
      assert HeldBy(s, c) == {};
    }
  }

  // ---------- locks ----------

  lemma AcquireHeld(s: State, c: nat, lk: Lock, d: nat)
    requires c < |s.cpus| && Free(s, lk)
    ensures HeldBy(Acquire(s, c, lk), d) == if d == c then HeldBy(s, c) + {lk} else HeldBy(s, d)
    ensures lk !in HeldBy(s, c) && |HeldBy(s, c) + {lk}| == |HeldBy(s, c)| + 1
  {
  }

  lemma ReleaseHeld(s: State, c: nat, lk: Lock, d: nat)
    requires c < |s.cpus| && s.cpus[c].ncli > 0 && Holds(s, c, lk)
    ensures HeldBy(Release(s, c, lk), d) == if d == c then HeldBy(s, c) - {lk} else HeldBy(s, d)
    ensures lk in HeldBy(s, c) && |HeldBy(s, c) - {lk}| == |HeldBy(s, c)| - 1
  {
  }

  // ---------- what the other CPUs and processes see of a step on CPU `c` ----------

  ghost predicate Elsewhere(s: State, s': State, c: nat) {
    && |s'.cpus| == |s.cpus| && |s'.procs| == |s.procs| && s'.init == s.init && c < |s.cpus|
    && (forall d :: 0 <= d < |s.cpus| && d != c ==> s'.cpus[d] == s.cpus[d] && HeldBy(s', d) == HeldBy(s, d))
  }

  /** A process touched by another thread: killed, woken or adopted, nothing more. */
  predicate Soft(q: Proc, q': Proc) {
    q' == q.(state := q'.state, killed := q'.killed, parent := q'.parent)
    && (q'.state == q.state || (q.state == SLEEPING && q'.state == RUNNABLE))
  }

  /** `ptable.lock` is held by CPU `c` or by nobody. */
  predicate NoOtherHolder(s: State, c: nat) {
    PTable in s.locks ==> s.locks[PTable] == c
  }

  /** Asleep but still on its stack: between the store to `state` and the switch. */
  lemma SleepingHolds(s: State, q: nat, d: nat)
    requires q < |s.procs| && d < |s.cpus| && OnOk(s, q, d) && s.procs[q].state != RUNNING
    ensures PTable in s.locks && s.locks[PTable] == d && HeldBy(s, d) == {PTable}
  {
    assert PTable in HeldBy(s, d);
  }

  lemma OtherP(s: State, s': State, c: nat, q: nat)
    requires Inv(s) && Elsewhere(s, s', c) && q < |s.procs| && s.procs[q].cpu != Some(c)
    requires Soft(s.procs[q], s'.procs[q])
    requires s'.procs[q].state == s.procs[q].state || NoOtherHolder(s, c)
    ensures POk(s', q)
  {
    hide TreeOk, ForkOk, Distinct, COk;
    assert POk(s, q);
    if s.procs[q].cpu.Some? {
      var d := s.procs[q].cpu.value;
      if s.procs[q].state == SLEEPING {
        SleepingHolds(s, q, d);
      }
    }
  }

  lemma OtherC(s: State, s': State, c: nat, d: nat)
    requires Inv(s) && Elsewhere(s, s', c) && d < |s.cpus| && d != c
    requires s.cpus[d].on.Kthread? && s.cpus[d].on.p < |s.procs| ==> s'.procs[s.cpus[d].on.p].cpu == Some(d)
    ensures COk(s', d)
  {
    hide TreeOk, ForkOk, Distinct, POk;
    assert COk(s, d);
  }

  // ---------- the tree and the embryos under harmless steps ----------

  predicate TreeStep(q: Proc, q': Proc, isInit: bool) {
    && q'.parent == q.parent && (q.kstack ==> q'.kstack) && (q.vm ==> q'.vm)
    && (Alive(q) ==> Alive(q')) && (InWait(q') ==> InWait(q)) && (Leaving(q') ==> Leaving(q))
    && (q'.state == UNUSED <==> q.state == UNUSED) && (q'.state == EMBRYO <==> q.state == EMBRYO)
    && (isInit ==> Exits(Base(q'.pc)) ==> Exits(Base(q.pc)))
  }

  lemma TreeKeeps(s: State, s': State, p: nat)
    requires |s'.procs| == |s.procs| && s'.init == s.init && p < |s.procs|
    requires forall q :: 0 <= q < |s.procs| ==> TreeOk(s, q)
    requires forall q :: 0 <= q < |s.procs| ==> TreeStep(s.procs[q], s'.procs[q], q == s.init)
    ensures TreeOk(s', p)
  {
    hide Base, Exits, Alive, InWait, Leaving;
    assert TreeOk(s, p);
    assert TreeStep(s.procs[p], s'.procs[p], p == s.init);
    if s.procs[p].parent.Some? {
      var r := s.procs[p].parent.value;
      assert TreeStep(s.procs[r], s'.procs[r], r == s.init);
    }
  }

  predicate PcStep(q: Proc, q': Proc) {
    var b, b' := Base(q.pc), Base(q'.pc);
    ForkPoint(b') ==> ForkPoint(b) && b'.np == b.np && (b'.ForkE? <==> b.ForkE?) && (b'.ForkD? ==> b.ForkD?)
  }

  predicate ForkStep(q: Proc, q': Proc) {
    && PcStep(q, q')
    && (q.state == EMBRYO && q.cpu == None ==>
          q'.state == EMBRYO && q'.cpu == None && q'.kstack == q.kstack && q'.vm == q.vm && q'.pc == q.pc && q'.parent == q.parent)
  }

  lemma ForkKeeps(s: State, s': State, p: nat)
    requires |s'.procs| == |s.procs| && p < |s.procs|
    requires forall q :: 0 <= q < |s.procs| ==> ForkOk(s, q)
    requires forall q :: 0 <= q < |s.procs| ==> ForkStep(s.procs[q], s'.procs[q])
    ensures ForkOk(s', p)
  {
    hide Base;
    assert ForkOk(s, p) && ForkStep(s.procs[p], s'.procs[p]);
    var b := Base(s.procs[p].pc);
    if ForkPoint(b) {
      assert ForkStep(s.procs[b.np], s'.procs[b.np]);
    }
  }

  lemma DistinctKeeps(s: State, s': State, p: nat, r: nat)
    requires |s'.procs| == |s.procs| && p < |s.procs| && r < |s.procs|
    requires Distinct(s, p, r) && PcStep(s.procs[p], s'.procs[p]) && PcStep(s.procs[r], s'.procs[r])
    ensures Distinct(s', p, r)
  {
    hide Base;
  }

  /** A record another thread's step may leave behind: touched softly, or off every CPU and well-formed. */
  ghost predicate Settled(s: State, s': State, c: nat, q: nat)
    requires q < |s.procs| == |s'.procs|
  {
    || (Soft(s.procs[q], s'.procs[q]) && (s'.procs[q].state == s.procs[q].state || NoOtherHolder(s, c)))
    || (s.procs[q].cpu == None && s'.procs[q].cpu == None && OffOk(s'.procs[q], q))
  }

  /** CPUs and threads are consistent again after a step of thread `p` on CPU `c`. */
  lemma LocalKeeps(s: State, s': State, c: nat, p: nat)
    requires Inv(s) && Runs(s, c) && p == s.cpus[c].on.p && Elsewhere(s, s', c)
    requires forall q :: 0 <= q < |s.procs| && q != p ==> Settled(s, s', c, q)
    requires POk(s', p) && COk(s', c)
    ensures forall d :: 0 <= d < |s'.cpus| ==> COk(s', d)
    ensures forall q :: 0 <= q < |s'.procs| ==> POk(s', q)
  {
    hide TreeOk, ForkOk, Distinct, HeldOk, RetOk, Base, HeldBy, StateAt, InIntr;
    assert COk(s, c) && POk(s, p);
    forall d | 0 <= d < |s.cpus| && d != c
      ensures COk(s', d)
    {
      assert COk(s, d);
      if s.cpus[d].on.Kthread? {
        assert POk(s, s.cpus[d].on.p) && Settled(s, s', c, s.cpus[d].on.p);
      }
      OtherC(s, s', c, d);
    }
    forall q | 0 <= q < |s.procs| && q != p
      ensures POk(s', q)
    {
      assert POk(s, q) && Settled(s, s', c, q);
      if s.procs[q].cpu.Some? || Soft(s.procs[q], s'.procs[q]) {
        SettledP(s, s', c, q);
      }
    }
  }

  lemma SettledP(s: State, s': State, c: nat, q: nat)
    requires Inv(s) && Elsewhere(s, s', c) && q < |s.procs| && s.procs[q].cpu != Some(c) && Settled(s, s', c, q)
    ensures POk(s', q)
  {
    hide TreeOk, ForkOk, Distinct, HeldOk, RetOk, Base, HeldBy, StateAt, InIntr;
    if Soft(s.procs[q], s'.procs[q]) && (s'.procs[q].state == s.procs[q].state || NoOtherHolder(s, c)) {
      OtherP(s, s', c, q);
    }
  }

  /** The steps that move one thread and at most wake or kill others. */
  lemma ThreadKeeps(s: State, s': State, c: nat, p: nat)
    requires Inv(s) && Runs(s, c) && p == s.cpus[c].on.p && Elsewhere(s, s', c)
    requires forall q :: 0 <= q < |s.procs| && q != p ==>
               Soft(s.procs[q], s'.procs[q]) && s'.procs[q].parent == s.procs[q].parent
               && (s'.procs[q].state == s.procs[q].state || NoOtherHolder(s, c))
    requires POk(s', p) && COk(s', c)
    requires TreeStep(s.procs[p], s'.procs[p], p == s.init) && ForkStep(s.procs[p], s'.procs[p])
    ensures Inv(s')
  {
    hide TreeOk, ForkOk, Distinct, OffOk, POk, COk, TreeStep, ForkStep;
    LocalKeeps(s, s', c, p);
    forall q | 0 <= q < |s.procs|
      ensures TreeStep(s.procs[q], s'.procs[q], q == s.init) && ForkStep(s.procs[q], s'.procs[q])
    {
      if q != p {
        SoftSteps(s.procs[q], s'.procs[q], q == s.init);
      }
    }
    ForestKeeps(s, s');
  }

  lemma SoftSteps(q: Proc, q': Proc, isInit: bool)
    requires Soft(q, q') && q'.parent == q.parent
    ensures TreeStep(q, q', isInit) && ForkStep(q, q')
  {
    hide Base;
  }

  lemma ForestKeeps(s: State, s': State)
    requires Inv(s) && |s'.procs| == |s.procs| && s'.init == s.init
    requires forall q :: 0 <= q < |s.procs| ==> TreeStep(s.procs[q], s'.procs[q], q == s.init) && ForkStep(s.procs[q], s'.procs[q])
    ensures forall q :: 0 <= q < |s.procs| ==> TreeOk(s', q)
    ensures forall q :: 0 <= q < |s.procs| ==> ForkOk(s', q)
    ensures forall q, r :: 0 <= q < |s.procs| && 0 <= r < |s.procs| ==> Distinct(s', q, r)
  {
    hide COk, POk, TreeStep, ForkStep, TreeOk, ForkOk, Distinct;
    forall q | 0 <= q < |s.procs|
      ensures TreeOk(s', q) && ForkOk(s', q)
    {
      TreeKeeps(s, s', q);
      ForkKeeps(s, s', q);
    }
    forall q, r | 0 <= q < |s.procs| && 0 <= r < |s.procs|
      ensures Distinct(s', q, r)
    {
      StepPc(s.procs[q], s'.procs[q]);
      StepPc(s.procs[r], s'.procs[r]);
      DistinctKeeps(s, s', q, r);
    }
  }

  lemma StepPc(q: Proc, q': Proc)
    requires ForkStep(q, q')
    ensures PcStep(q, q')
  {
  }
}
