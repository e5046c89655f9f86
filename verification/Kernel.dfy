/** The process table, the spinlocks and the context switch of the kernel as a
    state machine: any number of CPUs and process slots, one atomic step at a time.

    A step is one lock operation, one context switch, or one stretch of code that
    touches the process table under `ptable.lock` (or, in `fork` and `allocproc`,
    the unlocked stores the source makes).  Interrupts may preempt a kernel thread
    wherever its CPU has interrupts enabled. */
module Kernel {
  import opened Options

  datatype ProcState = UNUSED | EMBRYO | SLEEPING | RUNNABLE | RUNNING | ZOMBIE

  /** A sleep channel: the address of a process slot (used by `wait`) or any other address. */
  datatype Chan = ProcAddr(slot: nat) | Addr(a: nat)

  datatype Lock = PTable | Ordinary(id: nat)

  /** Where a kernel thread is.  `Kern` is kernel or user code outside the process
      module, `Intr(r)` an interrupt handler that will return to `r`.  A trailing
      letter orders the steps of one function. */
  datatype Pc =
    | Kern
    | Intr(ret: Pc)
    | WakeA(ch: Chan, ret: Pc) | WakeB(ch: Chan, ret: Pc) | WakeC(ret: Pc)
    | KillA(victim: nat, ret: Pc) | KillB(victim: nat, ret: Pc) | KillC(ret: Pc)
    | SleepA(ch: Chan, lk: nat) | SleepB(ch: Chan, lk: nat) | SleepC(ch: Chan, lk: nat)
    | SleepSwitch(ch: Chan, lk: nat) | SleepD(ch: Chan, lk: nat) | SleepE(lk: nat) | SleepF(lk: nat)
    | WaitA | WaitScan | WaitSleep | WaitSwitch | WaitD | WaitE
    | YieldA(ret: Pc) | YieldB(ret: Pc) | YieldSwitch(ret: Pc) | YieldD(ret: Pc)
    | ExitA | ExitB | ExitC | ExitD | ExitSwitch | Dead
    | ForkA | ForkB | ForkFound(np: nat) | ForkNone | ForkC(np: nat) | ForkD(np: nat) | ForkE(np: nat)
    | ForkRet

  datatype Proc = Proc(
    state: ProcState, chan: Option<Chan>, parent: Option<nat>, killed: bool,
    kstack: bool, vm: bool,       // kernel stack and page directory allocated
    pc: Pc,
    saved: bool,                  // the local `intena` of `sched`
    want: bool,                   // interrupt flag of this thread outside all its locks
    cpu: Option<nat>              // the CPU this thread's stack is in use on
  )

  datatype Thread = Scheduler | Kthread(p: nat)

  /** The scheduler loop: top, interrupts on, scanning slot `i`, switched away to slot `i`. */
  datatype SchedPc = Top | Ready | Scan(i: nat) | Back(i: nat)

  datatype Cpu = Cpu(
    ncli: nat, intena: bool, iflag: bool,
    on: Thread,                   // whose stack the CPU is on
    proc: Option<nat>,            // cpu->proc
    pgdir: Option<nat>,           // whose page directory is loaded; None is kpgdir
    spc: SchedPc
  )

  datatype State = State(cpus: seq<Cpu>, procs: seq<Proc>, locks: map<Lock, nat>, init: nat)

  // ---------- spinlocks ----------

  function PushCli(k: Cpu): Cpu {
    k.(iflag := false, ncli := k.ncli + 1, intena := if k.ncli == 0 then k.iflag else k.intena)
  }

  function PopCli(k: Cpu): Cpu
    requires k.ncli > 0
  {
    k.(ncli := k.ncli - 1, iflag := k.ncli == 1 && k.intena)
  }

  predicate Holds(s: State, c: nat, lk: Lock) {
    lk in s.locks && s.locks[lk] == c
  }

  function Acquire(s: State, c: nat, lk: Lock): State
    requires c < |s.cpus|
  {
    s.(cpus := s.cpus[c := PushCli(s.cpus[c])], locks := s.locks[lk := c])
  }

  function Release(s: State, c: nat, lk: Lock): State
    requires c < |s.cpus| && s.cpus[c].ncli > 0
  {
    s.(cpus := s.cpus[c := PopCli(s.cpus[c])], locks := s.locks - {lk})
  }

  function Goto(s: State, p: nat, pc: Pc): State
    requires p < |s.procs|
  {
    s.(procs := s.procs[p := s.procs[p].(pc := pc)])
  }

  // ---------- the process table ----------

  function Wake1(q: Proc, ch: Chan): Proc {
    if q.state == SLEEPING && q.chan == Some(ch) then q.(state := RUNNABLE) else q
  }

  /** `wakeup1`: every process sleeping on `ch` becomes runnable. */
  function Wakeup1(procs: seq<Proc>, ch: Chan): (r: seq<Proc>)
    ensures |r| == |procs| && forall i :: 0 <= i < |procs| ==> r[i] == Wake1(procs[i], ch)
  {
    seq<Proc>(|procs|, i requires 0 <= i < |procs| => Wake1(procs[i], ch))
  }

  function Adopt1(q: Proc, p: nat, init: nat): Proc {
    if q.parent == Some(p) then q.(parent := Some(init)) else q
  }

  /** The loop of `exit`: children of `p` go to init, which is woken for zombies. */
  function Adopt(procs: seq<Proc>, p: nat, init: nat): (r: seq<Proc>)
    ensures |r| == |procs|
    ensures forall i :: 0 <= i < |procs| ==>
              r[i] == var q := Adopt1(procs[i], p, init); if OrphanZombie(procs, p) then Wake1(q, ProcAddr(init)) else q
  {
    var a := seq<Proc>(|procs|, i requires 0 <= i < |procs| => Adopt1(procs[i], p, init));
    if OrphanZombie(procs, p) then Wakeup1(a, ProcAddr(init)) else a
  }

  predicate OrphanZombie(procs: seq<Proc>, p: nat) {
    exists i :: 0 <= i < |procs| && procs[i].parent == Some(p) && procs[i].state == ZOMBIE
  }

  /** The first slot from `i` on that satisfies the test; |procs| if none. */
  function FirstUnused(procs: seq<Proc>, i: nat): (r: nat)
    requires i <= |procs|
    ensures i <= r <= |procs| && (r < |procs| ==> procs[r].state == UNUSED)
    ensures forall k :: i <= k < r ==> procs[k].state != UNUSED
    decreases |procs| - i
  {
    if i == |procs| || procs[i].state == UNUSED then i else FirstUnused(procs, i + 1)
  }

  function FirstZombie(procs: seq<Proc>, p: nat, i: nat): (r: nat)
    requires i <= |procs|
    ensures i <= r <= |procs| && (r < |procs| ==> procs[r].parent == Some(p) && procs[r].state == ZOMBIE)
    ensures forall k :: i <= k < r ==> !(procs[k].parent == Some(p) && procs[k].state == ZOMBIE)
    decreases |procs| - i
  {
    if i == |procs| || (procs[i].parent == Some(p) && procs[i].state == ZOMBIE) then i
    else FirstZombie(procs, p, i + 1)
  }

  predicate HasChild(procs: seq<Proc>, p: nat) {
    exists i :: 0 <= i < |procs| && procs[i].parent == Some(p)
  }

  /** `swtch` to the scheduler: `sched` keeps `intena` in the thread's frame. */
  function SwitchOut(s: State, c: nat, p: nat, pc: Pc): State
    requires c < |s.cpus| && p < |s.procs|
  {
    s.(procs := s.procs[p := s.procs[p].(pc := pc, saved := s.cpus[c].intena, cpu := None)],
       cpus := s.cpus[c := s.cpus[c].(on := Scheduler)])
  }

  // ---------- steps ----------

  /** What generic kernel code may start. */
  datatype Call =
    | CWake(ch: Chan) | CKill(victim: nat) | CSleep(ch: Chan, lk: nat) | CWait | CYield | CExit | CFork
    | CAcquire(lk: nat) | CRelease(lk: nat) | CInterrupts(on: bool) | CIret

  datatype Event =
    | Start(c: nat, call: Call)      // generic code makes a call
    | Preempt(c: nat)                // an interrupt arrives
    | Step(c: nat, ok: bool)         // the thread on c takes its next step; ok: the allocator has memory
    | Sched(c: nat)                  // the scheduler thread on c takes its next step
    | IdleInterrupt(c: nat, lk: nat, ch: Chan)  // a handler on a CPU without process: acquire lk; wakeup; release

  predicate Free(s: State, lk: Lock) { lk !in s.locks }

  predicate Runs(s: State, c: nat) {
    c < |s.cpus| && s.cpus[c].on.Kthread? && s.cpus[c].on.p < |s.procs|
  }

  predicate Enabled(s: State, e: Event) {
    match e
    case Start(c, call) =>
      Runs(s, c) && var p, k := s.cpus[c].on.p, s.cpus[c]; var pc := s.procs[p].pc;
      (match call
       case CWake(ch) => pc.Kern? || pc.Intr?
       case CKill(v) => (pc.Kern? || pc.Intr?) && v < |s.procs|
       case CSleep(ch, lk) => pc.Kern? && k.ncli == 1 && Holds(s, c, Ordinary(lk))
       case CWait => pc.Kern? && k.ncli == 0
       case CYield => pc.Intr? && k.ncli == 0
       case CExit => pc.Kern? && k.ncli == 0 && p != s.init
       case CFork => pc.Kern? && k.ncli == 0
       case CAcquire(lk) => (pc.Kern? || pc.Intr?) && Free(s, Ordinary(lk))
       case CRelease(lk) => (pc.Kern? || pc.Intr?) && Holds(s, c, Ordinary(lk)) && k.ncli > 0
       case CInterrupts(on) => pc.Kern? && k.ncli == 0
       case CIret => pc.Intr? && k.ncli == 0)
    case Preempt(c) => Runs(s, c) && s.cpus[c].iflag && s.cpus[c].ncli == 0
    case Step(c, ok) =>
      Runs(s, c) && var p := s.cpus[c].on.p; var pc := s.procs[p].pc;
      if AcquiresPTable(pc) then Free(s, PTable)
      else if pc.SleepF? then Free(s, Ordinary(pc.lk))
      else !pc.Kern? && !pc.Intr? && !pc.Dead? && !Panics(s, c)
    case Sched(c) =>
      c < |s.cpus| && s.cpus[c].on == Scheduler
      && (s.cpus[c].spc == Ready ==> Free(s, PTable))
      && (s.cpus[c].spc.Scan? && s.cpus[c].spc.i >= |s.procs| ==> s.cpus[c].ncli > 0)
    case IdleInterrupt(c, lk, ch) =>
      c < |s.cpus| && s.cpus[c].on == Scheduler && s.cpus[c].iflag && s.cpus[c].ncli == 0
      && Free(s, PTable) && Free(s, Ordinary(lk))
  }

  predicate AcquiresPTable(pc: Pc) {
    pc.WakeA? || pc.KillA? || pc.SleepA? || pc.WaitA? || pc.YieldA? || pc.ExitA? || pc.ForkA?
  }

  predicate ReleasesPTable(pc: Pc) {
    pc.WakeC? || pc.KillC? || pc.SleepE? || pc.WaitE? || pc.YieldD? || pc.ForkFound? || pc.ForkNone? || pc.ForkRet?
  }

  predicate CallsSched(pc: Pc) {
    pc.SleepSwitch? || pc.WaitSwitch? || pc.YieldSwitch? || pc.ExitSwitch?
  }

  /** The `panic` calls of `acquire`, `release`, `popcli`, `sched` and `exit` that the
      process module's own code could run into at the thread on CPU `c`. */
  predicate Panics(s: State, c: nat)
    requires Runs(s, c)
  {
    var p, k := s.cpus[c].on.p, s.cpus[c];
    var pc := s.procs[p].pc;
    || (AcquiresPTable(pc) && Holds(s, c, PTable))                       // acquire
    || (ReleasesPTable(pc) && !(Holds(s, c, PTable) && k.ncli > 0 && !k.iflag))  // release, popcli
    || (pc.SleepB? && !(Holds(s, c, Ordinary(pc.lk)) && k.ncli > 0 && !k.iflag))
    || (pc.SleepF? && Holds(s, c, Ordinary(pc.lk)))
    || (CallsSched(pc) && !Holds(s, c, PTable))                          // sched ptable.lock
    || (CallsSched(pc) && k.ncli != 1)                                   // sched locks
    || (CallsSched(pc) && s.procs[p].state == RUNNING)                   // sched running
    || (CallsSched(pc) && k.iflag)                                       // sched interruptible
    || pc.Dead?                                                        // zombie exit
    || ((pc.ExitB? || pc.ExitC? || pc.ExitD?) && p == s.init)            // init exiting
  }

  function Next(s: State, e: Event): State
    requires Enabled(s, e)
  {
    match e
    case Start(c, call) => StartCall(s, c, s.cpus[c].on.p, call)
    case Preempt(c) =>
      var p := s.cpus[c].on.p;
      s.(cpus := s.cpus[c := s.cpus[c].(iflag := false)],
         procs := s.procs[p := s.procs[p].(pc := Intr(s.procs[p].pc), want := false)])
    case Step(c, ok) => ThreadStep(s, c, s.cpus[c].on.p, ok)
    case Sched(c) => SchedStep(s, c)
    case IdleInterrupt(c, lk, ch) => s.(procs := Wakeup1(s.procs, ch))
  }

  function StartCall(s: State, c: nat, p: nat, call: Call): State
    requires Enabled(s, Start(c, call)) && p == s.cpus[c].on.p
  {
    var pc := s.procs[p].pc;
    match call
    case CWake(ch) => Goto(s, p, WakeA(ch, pc))
    case CKill(v) => Goto(s, p, KillA(v, pc))
    case CSleep(ch, lk) => Goto(s, p, SleepA(ch, lk))
    case CWait => Goto(s, p, WaitA)
    case CYield => Goto(s, p, YieldA(pc))
    case CExit => Goto(s, p, ExitA)
    case CFork => Goto(s, p, ForkA)
    case CAcquire(lk) => Acquire(s, c, Ordinary(lk))
    case CRelease(lk) => Release(s, c, Ordinary(lk))
    case CInterrupts(on) => Interrupts(s, c, p, on, pc)
    case CIret => Interrupts(s, c, p, true, pc.ret)
  }

  function Interrupts(s: State, c: nat, p: nat, on: bool, pc: Pc): State
    requires c < |s.cpus| && p < |s.procs|
  {
    s.(cpus := s.cpus[c := s.cpus[c].(iflag := on)], procs := s.procs[p := s.procs[p].(pc := pc, want := on)])
  }

  function ThreadStep(s: State, c: nat, p: nat, ok: bool): State
    requires Enabled(s, Step(c, ok)) && p == s.cpus[c].on.p
  {
    var me := s.procs[p];
    match me.pc
    // wakeup, kill
    case WakeA(ch, r) => Goto(Acquire(s, c, PTable), p, WakeB(ch, r))
    case WakeB(ch, r) => Goto(s.(procs := Wakeup1(s.procs, ch)), p, WakeC(r))
    case WakeC(r) => Goto(Release(s, c, PTable), p, r)
    case KillA(v, r) => Goto(Acquire(s, c, PTable), p, KillB(v, r))
    case KillB(v, r) => Goto(Kill1(s, v), p, KillC(r))
    case KillC(r) => Goto(Release(s, c, PTable), p, r)
    // sleep
    case SleepA(ch, lk) => Goto(Acquire(s, c, PTable), p, SleepB(ch, lk))
    case SleepB(ch, lk) => Goto(Release(s, c, Ordinary(lk)), p, SleepC(ch, lk))
    case SleepC(ch, lk) => s.(procs := s.procs[p := me.(chan := Some(ch), state := SLEEPING, pc := SleepSwitch(ch, lk))])
    case SleepSwitch(ch, lk) => SwitchOut(s, c, p, SleepD(ch, lk))
    case SleepD(ch, lk) => s.(procs := s.procs[p := me.(chan := None, pc := SleepE(lk))])
    case SleepE(lk) => Goto(Release(s, c, PTable), p, SleepF(lk))
    case SleepF(lk) => Goto(Acquire(s, c, Ordinary(lk)), p, Kern)
    // wait
    case WaitA => Goto(Acquire(s, c, PTable), p, WaitScan)
    case WaitScan =>
      var z := FirstZombie(s.procs, p, 0);
      if z < |s.procs| then Goto(Reap(s, z), p, WaitE)
      else if !HasChild(s.procs, p) || me.killed then Goto(s, p, WaitE)
      else Goto(s, p, WaitSleep)
    case WaitSleep => s.(procs := s.procs[p := me.(chan := Some(ProcAddr(p)), state := SLEEPING, pc := WaitSwitch)])
    case WaitSwitch => SwitchOut(s, c, p, WaitD)
    case WaitD => s.(procs := s.procs[p := me.(chan := None, pc := WaitScan)])
    case WaitE => Goto(Release(s, c, PTable), p, Kern)
    // yield
    case YieldA(r) => Goto(Acquire(s, c, PTable), p, YieldB(r))
    case YieldB(r) => s.(procs := s.procs[p := me.(state := RUNNABLE, pc := YieldSwitch(r))])
    case YieldSwitch(r) => SwitchOut(s, c, p, YieldD(r))
    case YieldD(r) => Goto(Release(s, c, PTable), p, r)
    // exit
    case ExitA => Goto(Acquire(s, c, PTable), p, ExitB)
    case ExitB => Goto(if me.parent.Some? then s.(procs := Wakeup1(s.procs, ProcAddr(me.parent.value))) else s, p, ExitC)
    case ExitC => Goto(s.(procs := Adopt(s.procs, p, s.init)), p, ExitD)
    case ExitD => s.(procs := s.procs[p := me.(state := ZOMBIE, pc := ExitSwitch)])
    case ExitSwitch => SwitchOut(s, c, p, Dead)
    // fork, allocproc
    case ForkA => Goto(Acquire(s, c, PTable), p, ForkB)
    case ForkB =>
      var np := FirstUnused(s.procs, 0);
      if np == |s.procs| then Goto(s, p, ForkNone)
      else Goto(s.(procs := s.procs[np := s.procs[np].(state := EMBRYO)]), p, ForkFound(np))
    case ForkNone => Goto(Release(s, c, PTable), p, Kern)
    case ForkFound(np) => Goto(Release(s, c, PTable), p, ForkC(np))
    case ForkC(np) =>
      if np >= |s.procs| then s
      else if ok then Goto(s.(procs := s.procs[np := s.procs[np].(kstack := true, pc := ForkRet)]), p, ForkD(np))
      else Goto(s.(procs := s.procs[np := s.procs[np].(state := UNUSED)]), p, Kern)
    case ForkD(np) =>
      if np >= |s.procs| then s
      else if ok then Goto(s.(procs := s.procs[np := s.procs[np].(vm := true, parent := Some(p))]), p, ForkE(np))
      else Goto(s.(procs := s.procs[np := s.procs[np].(kstack := false, state := UNUSED)]), p, Kern)
    case ForkE(np) =>
      if np >= |s.procs| then s
      else Goto(s.(procs := s.procs[np := s.procs[np].(state := RUNNABLE)]), p, Kern)
    case ForkRet => Goto(Release(s, c, PTable), p, Kern)
    case _ => s
  }

  /** `kill`: mark the victim and make it runnable if it sleeps. */
  function Kill1(s: State, v: nat): State {
    if v >= |s.procs| then s
    else
      var q := s.procs[v];
      s.(procs := s.procs[v := q.(killed := true, state := if q.state == SLEEPING then RUNNABLE else q.state)])
  }

  /** `wait` frees the slot of a zombie child: stack, page directory, parent link. */
  function Reap(s: State, z: nat): State
    requires z < |s.procs|
  {
    s.(procs := s.procs[z := s.procs[z].(kstack := false, vm := false, state := UNUSED, parent := None, killed := false)])
  }

  function SchedStep(s: State, c: nat): State
    requires Enabled(s, Sched(c))
  {
    var k := s.cpus[c];
    match k.spc
    case Top => s.(cpus := s.cpus[c := k.(iflag := true, spc := Ready)])
    case Ready => var a := Acquire(s, c, PTable); a.(cpus := a.cpus[c := a.cpus[c].(spc := Scan(0))])
    case Scan(i) =>
      if i >= |s.procs| then var a := Release(s, c, PTable); a.(cpus := a.cpus[c := a.cpus[c].(spc := Top)])
      else if s.procs[i].state != RUNNABLE then s.(cpus := s.cpus[c := k.(spc := Scan(i + 1))])
      else SwitchIn(s, c, i)
    case Back(i) => s.(cpus := s.cpus[c := k.(pgdir := None, proc := None, spc := Scan(i + 1))])
  }

  /** The scheduler loads slot `i` and switches to it; a thread that had called
      `sched` gets its `intena` back, a new one starts in `forkret`. */
  function SwitchIn(s: State, c: nat, i: nat): State
    requires c < |s.cpus| && i < |s.procs|
  {
    var k, q := s.cpus[c], s.procs[i];
    var intena := if q.pc.ForkRet? then k.intena else q.saved;
    s.(cpus := s.cpus[c := k.(on := Kthread(i), proc := Some(i), pgdir := Some(i), spc := Back(i), intena := intena)],
       procs := s.procs[i := q.(state := RUNNING, cpu := Some(c), want := if q.pc.ForkRet? then k.intena else q.want)])
  }

  // ---------- runs ----------

  predicate IsRun(s: State, es: seq<Event>)
    decreases |es|
  {
    es == [] || (Enabled(s, es[0]) && IsRun(Next(s, es[0]), es[1..]))
  }

  function Run(s: State, es: seq<Event>): State
    requires IsRun(s, es)
    decreases |es|
  {
    if es == [] then s else Run(Next(s, es[0]), es[1..])
  }

  /** After boot: the CPUs are at the top of `scheduler`, no lock is held, and
      `userinit` has made the first process runnable. */
  predicate Boot(s: State) {
    && s.locks == map[] && s.init < |s.procs|
    && (forall c :: 0 <= c < |s.cpus| ==>
          var k := s.cpus[c]; k.ncli == 0 && k.on == Scheduler && k.proc == None && k.pgdir == None && k.spc == Top)
    && (forall p :: 0 <= p < |s.procs| ==>
          var q := s.procs[p];
          q.cpu == None && q.parent == None
          && if p == s.init then q.state == RUNNABLE && q.pc.ForkRet? && q.kstack && q.vm else q.state == UNUSED && q.pc.Kern?)
  }
}
