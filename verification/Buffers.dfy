/** The buffer cache and the disk queue as a state machine: processes in `bread`, `bwrite`
    and `brelse`, the disk interrupt, and the drive. Each step is one critical section. */
module Buffers {
  import opened Options
  import opened Words
  import opened Recency

  const NBUF: nat := 10

  datatype Key = Key(dev: nat, sector: nat)

  /** A buffer; `holder` is the process that last marked it busy. */
  datatype Buf = Buf(key: Key, busy: bool, valid: bool, dirty: bool, data: Block, holder: nat)

  /** Where a process is: `Get` about to scan the cache, `GetSleep` asleep there, `Check` just
      handed a buffer, `Start` about to queue it, `Wait` asleep in `iderw`, `Woken` after that. */
  datatype Op =
    | Idle
    | Get(key: Key)
    | GetSleep(key: Key, b: nat)
    | Check(key: Key, b: nat)
    | Start(key: Key, b: nat)
    | Wait(key: Key, b: nat)
    | Woken(key: Key, b: nat)

  datatype Proc = Proc(held: set<nat>, op: Op)

  datatype Command = Read(at: Key) | Write(at: Key, data: Block)

  datatype Drive = Ready | Running(cmd: Command) | Done(cmd: Command, latch: Block)

  /** `last` is what each sector should read as: the data of the latest `bwrite`. */
  datatype State = State(
    bufs: seq<Buf>, order: seq<nat>, queue: seq<nat>, drive: Drive, two: bool,
    procs: seq<Proc>, disk: Key -> Block, last: Key -> Block)

  /** The sector the drive registers select: one bit of the device, 28 bits of the sector. */
  function Selected(k: Key): Key {
    Key(k.dev % 2, k.sector % 0x1000_0000)
  }

  /** Requests the driver can carry out. */
  predicate Proper(two: bool, k: Key) {
    (k.dev == 0 || (k.dev == 1 && two)) && k.sector < 0x1000_0000
  }

  function CommandFor(b: Buf): Command {
    if b.dirty then Write(Selected(b.key), b.data) else Read(Selected(b.key))
  }

  datatype Step =
    | Bread(p: nat, key: Key)
    | Scan(p: nat)
    | CheckValid(p: nat)
    | Change(p: nat, b: nat, data: Block)
    | Bwrite(p: nat, b: nat)
    | Enqueue(p: nat)
    | Recheck(p: nat)
    | Brelse(p: nat, b: nat)
    | Complete
    | Interrupt

  predicate Holds(s: State, p: nat, b: nat) {
    p < |s.procs| && b in s.procs[p].held
  }

  predicate IdleHolder(s: State, p: nat, b: nat) {
    Holds(s, p, b) && s.procs[p].op.Idle? && b < |s.bufs|
  }

  /** When a step can be taken. The client's part: ask for proper sectors only, change a buffer
      only while holding it, and write changes back before releasing it. */
  predicate Enabled(s: State, e: Step) {
    match e
    case Bread(p, key) => p < |s.procs| && s.procs[p].op.Idle? && Proper(s.two, key)
    case Scan(p) => p < |s.procs| && s.procs[p].op.Get?
    case CheckValid(p) => p < |s.procs| && s.procs[p].op.Check?
    case Change(p, b, data) => IdleHolder(s, p, b)
    case Bwrite(p, b) => IdleHolder(s, p, b)
    case Enqueue(p) => p < |s.procs| && s.procs[p].op.Start?
    case Recheck(p) => p < |s.procs| && s.procs[p].op.Woken?
    case Brelse(p, b) => IdleHolder(s, p, b) && s.bufs[b].data == s.last(s.bufs[b].key)
    case Complete => s.drive.Running?
    case Interrupt => s.queue == [] || s.drive.Done?
  }

  /** The step would panic, or touch a buffer that does not exist. */
  predicate Faults(s: State, e: Step)
    requires Enabled(s, e)
  {
    match e
    case Scan(p) => OutOfBuffers(s, s.procs[p].op.key)
    case CheckValid(p) => s.procs[p].op.b >= |s.bufs|
    case Bwrite(p, b) => !s.bufs[b].busy
    case Enqueue(p) => s.procs[p].op.b >= |s.bufs| || !InRange(s.queue, |s.bufs|)
                       || IderwPanics(s.bufs[s.procs[p].op.b], s.two)
    case Recheck(p) => s.procs[p].op.b >= |s.bufs|
    case Brelse(p, b) => !s.bufs[b].busy
    case Interrupt => !InRange(s.queue, |s.bufs|)
    case _ => false
  }

  /** The three panics of `iderw`: not busy, nothing to do, disk 1 not present. */
  predicate IderwPanics(b: Buf, two: bool) {
    !b.busy || (b.valid && !b.dirty) || (b.key.dev != 0 && !two)
  }

  predicate InRange(q: seq<nat>, n: nat) {
    forall i :: 0 <= i < |q| ==> q[i] < n
  }

  /** The cached buffer of a sector, looked for from the most recently released on. */
  function HitIn(order: seq<nat>, bufs: seq<Buf>, key: Key): (r: Option<nat>)
    ensures r.Some? ==> r.value in order && r.value < |bufs| && bufs[r.value].key == key
  {
    First(order, (b: nat) => b < |bufs| && bufs[b].key == key)
  }

  /** The buffer to reuse: the least recently released one that is free. */
  function VictimIn(order: seq<nat>, bufs: seq<Buf>): (r: Option<nat>)
    ensures r.Some? ==> r.value in order && r.value < |bufs| && !bufs[r.value].busy
  {
    Last(order, (b: nat) => b < |bufs| && !bufs[b].busy)
  }

  function Hit(s: State, key: Key): (r: Option<nat>)
    ensures r.Some? ==> r.value in s.order && r.value < |s.bufs| && s.bufs[r.value].key == key
  {
    HitIn(s.order, s.bufs, key)
  }

  function Victim(s: State): (r: Option<nat>)
    ensures r.Some? ==> r.value in s.order && r.value < |s.bufs| && !s.bufs[r.value].busy
  {
    VictimIn(s.order, s.bufs)
  }

  /** `bget` panics. */
  predicate OutOfBuffers(s: State, key: Key) {
    Hit(s, key).None? && Victim(s).None?
  }

  function SetOp(s: State, p: nat, op: Op): State
    requires p < |s.procs|
  {
    s.(procs := s.procs[p := s.procs[p].(op := op)])
  }

  /** `wakeup(b)`: every process asleep on the buffer becomes runnable. */
  function WakeOp(op: Op, b: nat): Op {
    if op.GetSleep? && op.b == b then Get(op.key)
    else if op.Wait? && op.b == b then Woken(op.key, b)
    else op
  }

  function Wakeup(procs: seq<Proc>, b: nat): (r: seq<Proc>)
    ensures |r| == |procs|
    ensures forall p :: 0 <= p < |procs| ==> r[p] == procs[p].(op := WakeOp(procs[p].op, b))
  {
    seq(|procs|, p requires 0 <= p < |procs| => procs[p].(op := WakeOp(procs[p].op, b)))
  }

  function Put(f: Key -> Block, k: Key, d: Block): (g: Key -> Block)
    ensures forall j :: g(j) == if j == k then d else f(j)
  {
    j => if j == k then d else f(j)
  }

  /** `bget` once it has chosen buffer `b`: mark it busy and hand it out. */
  function Grab(s: State, p: nat, key: Key, b: nat, buf: Buf): State
    requires p < |s.procs| && b < |s.bufs|
  {
    s.(bufs := s.bufs[b := buf],
       procs := s.procs[p := Proc(s.procs[p].held + {b}, Check(key, b))])
  }

  /** A cached buffer is marked busy; a recycled one keeps nothing but its bytes. */
  function Reused(b: Buf, p: nat): Buf {
    b.(busy := true, holder := p)
  }

  function Recycled(b: Buf, p: nat, key: Key): Buf {
    b.(key := key, busy := true, valid := false, dirty := false, holder := p)
  }

  function ScanNext(s: State, p: nat): State
    requires p < |s.procs| && s.procs[p].op.Get? && !OutOfBuffers(s, s.procs[p].op.key)
  {
    var key := s.procs[p].op.key;
    if Hit(s, key).Some? then
      var b := Hit(s, key).value;
      if s.bufs[b].busy then SetOp(s, p, GetSleep(key, b))
      else Grab(s, p, key, b, Reused(s.bufs[b], p))
    else
      var b := Victim(s).value;
      Grab(s, p, key, b, Recycled(s.bufs[b], p, key))
  }

  function StartDrive(s: State): State
    requires InRange(s.queue, |s.bufs|)
  {
    s.(drive := if s.queue == [] then Ready else Running(CommandFor(s.bufs[s.queue[0]])))
  }

  function EnqueueNext(s: State, p: nat, key: Key, b: nat): State
    requires p < |s.procs| && b < |s.bufs| && InRange(s.queue, |s.bufs|)
  {
    var s1 := SetOp(s.(queue := s.queue + [b]), p, Wait(key, b));
    if s.queue == [] then StartDrive(s1) else s1
  }

  function InterruptNext(s: State): State
    requires InRange(s.queue, |s.bufs|) && (s.queue == [] || s.drive.Done?)
  {
    if s.queue == [] then s
    else
      var b := s.queue[0];
      var buf := s.bufs[b];
      var data := if buf.dirty then buf.data else s.drive.latch;
      StartDrive(s.(queue := s.queue[1..], bufs := s.bufs[b := buf.(valid := true, dirty := false, data := data)],
                    procs := Wakeup(s.procs, b)))
  }

  function Next(s: State, e: Step): State
    requires Enabled(s, e) && !Faults(s, e)
  {
    match e
    case Bread(p, key) => SetOp(s, p, Get(key))
    case Scan(p) => ScanNext(s, p)
    case CheckValid(p) =>
      var op := s.procs[p].op;
      SetOp(s, p, if s.bufs[op.b].valid then Idle else Start(op.key, op.b))
    case Change(p, b, data) => s.(bufs := s.bufs[b := s.bufs[b].(data := data)])
    case Bwrite(p, b) =>
      var buf := s.bufs[b];
      SetOp(s.(bufs := s.bufs[b := buf.(dirty := true)], last := Put(s.last, buf.key, buf.data)), p, Start(buf.key, b))
    case Enqueue(p) => EnqueueNext(s, p, s.procs[p].op.key, s.procs[p].op.b)
    case Recheck(p) =>
      var op := s.procs[p].op;
      SetOp(s, p, if s.bufs[op.b].valid && !s.bufs[op.b].dirty then Idle else Wait(op.key, op.b))
    case Brelse(p, b) =>
      s.(order := MoveToFront(s.order, b), bufs := s.bufs[b := s.bufs[b].(busy := false)],
         procs := Wakeup(s.procs[p := s.procs[p].(held := s.procs[p].held - {b})], b))
    case Complete =>
      var cmd := s.drive.cmd;
      if cmd.Write? then s.(disk := Put(s.disk, cmd.at, cmd.data), drive := Done(cmd, cmd.data))
      else s.(drive := Done(cmd, s.disk(cmd.at)))
    case Interrupt => InterruptNext(s)
  }

  // ---------- the start ----------

  /** After `binit`: every buffer unused, filed under device -1; the disk as it is. */
  ghost predicate Boot(s: State) {
    && |s.bufs| == NBUF && Permutation(s.order, NBUF)
    && (forall b :: 0 <= b < NBUF ==> s.bufs[b].key == Key(0xFFFF_FFFF, 0)
                                      && !s.bufs[b].busy && !s.bufs[b].valid && !s.bufs[b].dirty)
    && s.queue == [] && s.drive.Ready?
    && (forall p :: 0 <= p < |s.procs| ==> s.procs[p] == Proc({}, Idle))
    && forall k :: s.disk(k) == s.last(k)
  }

  function Run(s: State, es: seq<Step>): Option<State>
    decreases |es|
  {
    if es == [] then Some(s)
    else if Enabled(s, es[0]) && !Faults(s, es[0]) then Run(Next(s, es[0]), es[1..])
    else None
  }
}
