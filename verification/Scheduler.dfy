/**
 Sleep and wakeup, sleep-locks, the scheduler's lock hand-off, and exit and wait
 (kernel/proc/proc.c, kernel/lock/sleeplock.c, kernel/lock/spinlock.c), as a step
 relation over any number of processes and CPUs.

 A step is one action of the thread that a CPU is executing: acquiring a
 spin-lock (possible only when it is free), releasing one, or changing fields
 that the locks held protect. `Pc` says where a process's kernel thread is.
 */
module Scheduler {
  import opened Common

  datatype ProcState = UNUSED | SLEEPING | RUNNABLE | RUNNING | ZOMBIE

  /** What a process can sleep on: a sleep-lock, or itself, in wait(). */
  datatype Chan = Nothing | OnLock(l: nat) | OnProc(p: nat)

  /** The spin-locks: p->lock of each process, and the lock inside each sleep-lock. */
  datatype Lock = PLock(p: nat) | LK(l: nat)

  /** Where a thread continues when the scheduler switches to it. */
  datatype Saved = AfterYield(back: Pc) | AfterSleep(l: nat) | AfterWait | ForkRet | Dead

  datatype Pc =
    | User                                   // no modelled lock held
    | YieldWant(back: Pc) | YieldSet(back: Pc) | YieldGo(back: Pc)
    | Resume(k: Saved)                       // from swtch, with p->lock held
    | AcqWant(l: nat) | AcqTest(l: nat) | AcqDone(l: nat)
    | SleepWant(l: nat) | SleepBoth(l: nat) | SleepChan(l: nat)
    | SleepState(l: nat) | SleepGo(l: nat) | SleepTidy(l: nat)
    | RelWant(l: nat) | RelClear(l: nat) | Wake(l: nat, i: nat) | WakeHold(l: nat, i: nat)
    | WaitWant | WaitScan(i: nat, kids: bool) | WaitLock(i: nat) | WaitHold(i: nat) | WaitFreed(i: nat) | WaitEnd
    | WaitChan | WaitState | WaitGo
    | KillScan(i: nat) | KillHold(i: nat)
    | ForkScan(i: nat) | ForkHold(i: nat) | ForkDone(i: nat)
    | ExitInitWant | ExitInit | ExitSelfWant | ExitSelf | ExitParentWant(pp: nat) | ExitOwnWant(pp: nat)
    | ExitRep(pp: nat, i: nat) | ExitRepWant(pp: nat, i: nat) | ExitRepHold(pp: nat, i: nat)
    | ExitZombie(pp: nat) | ExitLeave(pp: nat) | ExitGo

  /**
   History variables: `held` is the sleep-locks between acquiresleep and releasesleep, `adopted`
   says that an exiting parent gave the process to init.
   */
  datatype Proc = Proc(state: ProcState, chan: Chan, parent: Option<nat>, killed: bool, pc: Pc, held: set<nat>,
      adopted: bool)

  /** The scheduler thread of a CPU. */
  datatype SchedPc =
    | Scan(i: nat)        // about to acquire process i's lock
    | Picked(i: nat)      // lock held, state not looked at
    | Starting(i: nat)    // state set to RUNNING
    | Current(i: nat)     // c->proc set, about to swtch
    | Back(i: nat)        // returned from swtch
    | Leaving(i: nat)     // about to release the lock

  datatype On = Sched(spc: SchedPc) | Run(p: nat)

  datatype Cpu = Cpu(proc: Option<nat>, on: On)

  datatype State = State(
    cpus: seq<Cpu>,
    procs: seq<Proc>,
    locked: seq<bool>,         // sleep-locks
    owner: map<Lock, nat>,     // the CPU that holds a spin-lock; free ones are absent
    initproc: nat)

  /** What a process in kernel mode does next. */
  datatype Op = OpYield | OpAcquire(l: nat) | OpRelease(l: nat) | OpWait | OpExit | OpKill | OpFork

  /** CPU c takes a step; op is used when the process chooses, flag when the outcome of
      something outside the model decides (copyout, uvmcopy, a pid comparison). */
  datatype Action = Action(c: nat, op: Op, flag: bool)

  // ---------------------------------------------------------------- locks held

  /** The spin-locks that process p's thread holds while it executes at pc. */
  function LocksOf(p: nat, pc: Pc): set<Lock> {
    match pc
    case YieldSet(_) => {PLock(p)}
    case YieldGo(_) => {PLock(p)}
    case Resume(_) => {PLock(p)}
    case AcqTest(l) => {LK(l)}
    case AcqDone(l) => {LK(l)}
    case SleepWant(l) => {LK(l)}
    case SleepBoth(l) => {LK(l), PLock(p)}
    case SleepChan(l) => {PLock(p)}
    case SleepState(l) => {PLock(p)}
    case SleepGo(l) => {PLock(p)}
    case SleepTidy(l) => {PLock(p)}
    case RelClear(l) => {LK(l)}
    case Wake(l, i) => {LK(l)}
    case WakeHold(l, i) => {LK(l), PLock(i)}
    case WaitScan(i, _) => {PLock(p)}
    case WaitLock(i) => {PLock(p)}
    case WaitHold(i) => {PLock(p), PLock(i)}
    case WaitFreed(i) => {PLock(p), PLock(i)}
    case WaitEnd => {PLock(p)}
    case WaitChan => {PLock(p)}
    case WaitState => {PLock(p)}
    case WaitGo => {PLock(p)}
    case KillHold(i) => {PLock(i)}
    case ForkHold(i) => {PLock(i)}
    case ForkDone(i) => {PLock(i)}
    case ExitSelf => {PLock(p)}
    case ExitOwnWant(pp) => {PLock(pp)}
    case ExitRep(pp, i) => {PLock(pp), PLock(p)}
    case ExitRepWant(pp, i) => {PLock(pp), PLock(p)}
    case ExitRepHold(pp, i) => {PLock(pp), PLock(p), PLock(i)}
    case ExitZombie(pp) => {PLock(pp), PLock(p)}
    case ExitLeave(pp) => {PLock(pp), PLock(p)}
    case ExitGo => {PLock(p)}
    case _ => {}
  }

  function SchedLocks(spc: SchedPc): set<Lock> {
    if spc.Scan? then {} else {PLock(spc.i)}
  }

  /** ExitInit holds the lock of the init process, which is part of the state. */
  function HeldBy(s: State, p: nat): set<Lock>
    requires p < |s.procs|
  {
    LocksAt(s.initproc, p, s.procs[p].pc)
  }

  function LocksAt(initproc: nat, p: nat, pc: Pc): set<Lock> {
    if pc.ExitInit? then {PLock(initproc)} else LocksOf(p, pc)
  }

  function HeldOn(s: State, c: nat): set<Lock>
    requires c < |s.cpus|
  {
    match s.cpus[c].on
    case Sched(spc) => SchedLocks(spc)
    case Run(p) => if p < |s.procs| then HeldBy(s, p) else {}
  }

  // ---------------------------------------------------------------- steps

  function SetProc(s: State, p: nat, r: Proc): State
    requires p < |s.procs|
  {
    s.(procs := s.procs[p := r])
  }

  function Goto(s: State, p: nat, pc: Pc): State
    requires p < |s.procs|
  {
    SetProc(s, p, s.procs[p].(pc := pc))
  }

  function Take(s: State, c: nat, L: Lock): State { s.(owner := s.owner[L := c]) }

  function Drop(s: State, L: Lock): State { s.(owner := s.owner - {L}) }

  /** Set a sleeping process to RUNNABLE if it sleeps on ch. */
  function Woken(r: Proc, ch: Chan): Proc {
    if r.state == SLEEPING && r.chan == ch then r.(state := RUNNABLE) else r
  }

  /** What freeproc, fork and kill make of a record. */
  function Unused(r: Proc): Proc {
    r.(state := UNUSED, chan := Nothing, parent := None, killed := false, adopted := false)
  }

  function Forked(r: Proc, parent: nat): Proc {
    r.(parent := Some(parent), pc := Resume(ForkRet), held := {}, state := RUNNABLE, adopted := false)
  }

  function Killed(r: Proc): Proc {
    r.(killed := true, state := if r.state == SLEEPING then RUNNABLE else r.state)
  }

  function Switch(s: State, c: nat, on: On): State
    requires c < |s.cpus|
  {
    s.(cpus := s.cpus[c := s.cpus[c].(on := on)])
  }

  /** The lock the thread on CPU c is spinning on, if its next action is an acquire. */
  function Wants(s: State, c: nat): Option<Lock>
    requires c < |s.cpus|
  {
    match s.cpus[c].on
    case Sched(Scan(i)) => Some(PLock(i))
    case Sched(_) => None
    case Run(p) =>
      if p >= |s.procs| then None
      else
        match s.procs[p].pc
        case YieldWant(_) => Some(PLock(p))
        case AcqWant(l) => Some(LK(l))
        case SleepWant(l) => Some(PLock(p))
        case RelWant(l) => Some(LK(l))
        case Wake(l, i) => if i < |s.procs| then Some(PLock(i)) else None
        case WaitWant => Some(PLock(p))
        case WaitLock(i) => Some(PLock(i))
        case KillScan(i) => if i < |s.procs| then Some(PLock(i)) else None
        case ForkScan(i) => if i < |s.procs| then Some(PLock(i)) else None
        case ExitInitWant => Some(PLock(s.initproc))
        case ExitSelfWant => Some(PLock(p))
        case ExitParentWant(pp) => Some(PLock(pp))
        case ExitOwnWant(pp) => Some(PLock(p))
        case ExitRepWant(pp, i) => Some(PLock(i))
        case _ => None
  }

  /** Where an acquire leads. */
  function Acquired(pc: Pc): Pc {
    match pc
    case YieldWant(back) => YieldSet(back)
    case AcqWant(l) => AcqTest(l)
    case SleepWant(l) => SleepBoth(l)
    case RelWant(l) => RelClear(l)
    case Wake(l, i) => WakeHold(l, i)
    case WaitWant => WaitScan(0, false)
    case WaitLock(i) => WaitHold(i)
    case KillScan(i) => KillHold(i)
    case ForkScan(i) => ForkHold(i)
    case ExitInitWant => ExitInit
    case ExitSelfWant => ExitSelf
    case ExitParentWant(pp) => ExitOwnWant(pp)
    case ExitOwnWant(pp) => ExitRep(pp, 0)
    case ExitRepWant(pp, i) => ExitRepHold(pp, i)
    case _ => pc
  }

  /** Kernel points without a spin-lock held: interrupts are on, and a timer interrupt yields. */
  predicate Preemptible(pc: Pc) {
    || pc.User? || pc.AcqWant? || pc.RelWant? || pc.WaitWant? || pc.KillScan? || pc.ForkScan?
    || pc.ExitInitWant? || pc.ExitSelfWant? || pc.ExitParentWant?
  }

  /** The thread at pc is interrupted by the timer. */
  predicate Preempts(op: Op, pc: Pc) { op.OpYield? && Preemptible(pc) }

  /** From User: the start of an operation. Only a sleep-lock's holder releases it. */
  function Begin(s: State, p: nat, op: Op): Pc
    requires p < |s.procs|
  {
    match op
    case OpYield => User
    case OpAcquire(l) => if l < |s.locked| then AcqWant(l) else User
    case OpRelease(l) => if l in s.procs[p].held then RelWant(l) else User
    case OpWait => WaitWant
    case OpExit => if p == s.initproc then User else ExitInitWant   // init exiting is a panic
    case OpKill => KillScan(0)
    case OpFork => ForkScan(0)
  }

  predicate Enabled(s: State, a: Action) {
    && a.c < |s.cpus|
    && (s.cpus[a.c].on.Run? ==> s.cpus[a.c].on.p < |s.procs|)
    && (s.cpus[a.c].on.Sched? ==> s.cpus[a.c].on.spc.i < |s.procs|)
    && (Wants(s, a.c).Some? ==> Wants(s, a.c).value !in s.owner || Interrupted(s, a))
  }

  /** The step is a timer interrupt instead of the thread's own next action. */
  predicate Interrupted(s: State, a: Action)
    requires a.c < |s.cpus|
  {
    s.cpus[a.c].on.Run? && s.cpus[a.c].on.p < |s.procs| && Preempts(a.op, s.procs[s.cpus[a.c].on.p].pc)
  }

  function DoSched(s: State, c: nat, spc: SchedPc): State
    requires c < |s.cpus| && spc.i < |s.procs|
  {
    var i := spc.i;
    match spc
    case Scan(_) => Switch(Take(s, c, PLock(i)), c, Sched(Picked(i)))
    case Picked(_) =>
      if s.procs[i].state == RUNNABLE
      then Switch(SetProc(s, i, s.procs[i].(state := RUNNING)), c, Sched(Starting(i)))
      else Switch(s, c, Sched(Leaving(i)))
    case Starting(_) => s.(cpus := s.cpus[c := Cpu(Some(i), Sched(Current(i)))])
    case Current(_) => Switch(s, c, Run(i))
    case Back(_) => s.(cpus := s.cpus[c := Cpu(None, Sched(Leaving(i)))])
    case Leaving(_) => Switch(Drop(s, PLock(i)), c, Sched(Scan(if i + 1 < |s.procs| then i + 1 else 0)))
  }

  /** swtch back to the scheduler of this CPU, leaving k as the continuation. */
  function SwitchOut(s: State, c: nat, p: nat, k: Saved): State
    requires c < |s.cpus| && p < |s.procs|
  {
    Switch(Goto(s, p, Resume(k)), c, Sched(Back(p)))
  }

  function DoProc(s: State, c: nat, p: nat, op: Op, flag: bool): State
    requires c < |s.cpus| && p < |s.procs|
  {
    if Preempts(op, s.procs[p].pc) then Goto(s, p, YieldWant(s.procs[p].pc)) else DoNext(s, c, p, op, flag)
  }

  /** The thread's own next action. */
  function DoNext(s: State, c: nat, p: nat, op: Op, flag: bool): State
    requires c < |s.cpus| && p < |s.procs|
  {
    var r := s.procs[p];
    var n := |s.procs|;
    match r.pc
    case User => Goto(s, p, Begin(s, p, op))
    case YieldWant(back) => Goto(Take(s, c, PLock(p)), p, YieldSet(back))
    case YieldSet(back) => SetProc(s, p, r.(state := RUNNABLE, pc := YieldGo(back)))
    case YieldGo(back) => SwitchOut(s, c, p, AfterYield(back))
    case Resume(k) => (
      match k
      case AfterYield(back) => Goto(Drop(s, PLock(p)), p, back)
      case ForkRet => Goto(Drop(s, PLock(p)), p, User)
      case AfterSleep(l) => SetProc(s, p, r.(chan := Nothing, pc := SleepTidy(l)))
      case AfterWait => SetProc(s, p, r.(chan := Nothing, pc := WaitScan(0, false)))
      case Dead => s)
    // acquiresleep and sleep
    case AcqWant(l) => Goto(Take(s, c, LK(l)), p, AcqTest(l))
    case AcqTest(l) =>
      if l < |s.locked| && !s.locked[l]
      then SetProc(s, p, r.(held := r.held + {l}, pc := AcqDone(l))).(locked := s.locked[l := true])
      else Goto(s, p, SleepWant(l))
    case AcqDone(l) => Goto(Drop(s, LK(l)), p, User)
    case SleepWant(l) => Goto(Take(s, c, PLock(p)), p, SleepBoth(l))
    case SleepBoth(l) => Goto(Drop(s, LK(l)), p, SleepChan(l))
    case SleepChan(l) => SetProc(s, p, r.(chan := OnLock(l), pc := SleepState(l)))
    case SleepState(l) => SetProc(s, p, r.(state := SLEEPING, pc := SleepGo(l)))
    case SleepGo(l) => SwitchOut(s, c, p, AfterSleep(l))
    case SleepTidy(l) => Goto(Drop(s, PLock(p)), p, AcqWant(l))
    // releasesleep and wakeup
    case RelWant(l) => Goto(Take(s, c, LK(l)), p, RelClear(l))
    case RelClear(l) =>
      SetProc(s, p, r.(held := r.held - {l}, pc := Wake(l, 0)))
        .(locked := if l < |s.locked| then s.locked[l := false] else s.locked)
    case Wake(l, i) =>
      if i < n then Goto(Take(s, c, PLock(i)), p, WakeHold(l, i)) else Goto(Drop(s, LK(l)), p, User)
    case WakeHold(l, i) =>
      if i < n then Goto(Drop(SetProc(s, i, Woken(s.procs[i], OnLock(l))), PLock(i)), p, Wake(l, i + 1)) else s
    // wait
    case WaitWant => Goto(Take(s, c, PLock(p)), p, WaitScan(0, false))
    case WaitScan(i, kids) =>
      if i < n then Goto(s, p, if s.procs[i].parent == Some(p) then WaitLock(i) else WaitScan(i + 1, kids))
      else Goto(s, p, if !kids || r.killed then WaitEnd else WaitChan)
    case WaitLock(i) => Goto(Take(s, c, PLock(i)), p, WaitHold(i))
    case WaitHold(i) =>
      if i < n && s.procs[i].state == ZOMBIE && !flag then
        Goto(SetProc(s, i, Unused(s.procs[i])), p, WaitFreed(i))
      else if i < n && s.procs[i].state == ZOMBIE then Goto(s, p, WaitFreed(i))   // copyout failed: nothing freed
      else Goto(Drop(s, PLock(i)), p, WaitScan(i + 1, true))
    case WaitFreed(i) => Goto(Drop(s, PLock(i)), p, WaitEnd)
    case WaitEnd => Goto(Drop(s, PLock(p)), p, User)
    case WaitChan => SetProc(s, p, r.(chan := OnProc(p), pc := WaitState))
    case WaitState => SetProc(s, p, r.(state := SLEEPING, pc := WaitGo))
    case WaitGo => SwitchOut(s, c, p, AfterWait)
    // kill
    case KillScan(i) => if i < n then Goto(Take(s, c, PLock(i)), p, KillHold(i)) else Goto(s, p, User)
    case KillHold(i) =>
      if i < n && flag then
        Goto(Drop(SetProc(s, i, Killed(s.procs[i])), PLock(i)), p, User)
      else Goto(Drop(s, PLock(i)), p, KillScan(i + 1))
    // fork
    case ForkScan(i) => if i < n then Goto(Take(s, c, PLock(i)), p, ForkHold(i)) else Goto(s, p, User)
    case ForkHold(i) =>
      if i < n && s.procs[i].state == UNUSED && !flag then
        Goto(SetProc(s, i, Forked(s.procs[i], p)), p, ForkDone(i))
      else if i < n && s.procs[i].state == UNUSED then Goto(Drop(s, PLock(i)), p, User)   // uvmcopy failed
      else Goto(Drop(s, PLock(i)), p, ForkScan(i + 1))
    case ForkDone(i) => Goto(Drop(s, PLock(i)), p, User)
    // exit
    case ExitInitWant => Goto(Take(s, c, PLock(s.initproc)), p, ExitInit)
    case ExitInit =>
      if s.initproc < n then
        Goto(Drop(SetProc(s, s.initproc, Woken(s.procs[s.initproc], OnProc(s.initproc))), PLock(s.initproc)), p,
            ExitSelfWant)
      else s
    case ExitSelfWant => Goto(Take(s, c, PLock(p)), p, ExitSelf)
    case ExitSelf => if r.parent.Some? then Goto(Drop(s, PLock(p)), p, ExitParentWant(r.parent.value)) else s
    case ExitParentWant(pp) => Goto(Take(s, c, PLock(pp)), p, ExitOwnWant(pp))
    case ExitOwnWant(pp) => Goto(Take(s, c, PLock(p)), p, ExitRep(pp, 0))
    case ExitRep(pp, i) =>
      if i < n then Goto(s, p, if s.procs[i].parent == Some(p) then ExitRepWant(pp, i) else ExitRep(pp, i + 1))
      else Goto(s, p, ExitZombie(pp))
    case ExitRepWant(pp, i) => Goto(Take(s, c, PLock(i)), p, ExitRepHold(pp, i))
    case ExitRepHold(pp, i) =>
      if i < n then
        Goto(Drop(SetProc(s, i, s.procs[i].(parent := Some(s.initproc), adopted := true)), PLock(i)), p,
            ExitRep(pp, i + 1))
      else s
    case ExitZombie(pp) =>   // wakeup1(original_parent), then ZOMBIE
      if pp < n && pp != p then
        var s1 := SetProc(s, pp, Woken(s.procs[pp], OnProc(pp)));
        SetProc(s1, p, s1.procs[p].(state := ZOMBIE, pc := ExitLeave(pp)))
      else s
    case ExitLeave(pp) => Goto(Drop(s, PLock(pp)), p, ExitGo)
    case ExitGo => SwitchOut(s, c, p, Dead)
  }

  function Do(s: State, a: Action): State
    requires Enabled(s, a)
  {
    match s.cpus[a.c].on
    case Sched(spc) => DoSched(s, a.c, spc)
    case Run(p) => DoProc(s, a.c, p, a.op, a.flag)
  }

  /** After boot: every CPU in its scheduler, one process ready, no lock held. */
  predicate Booted(s: State) {
    && s.initproc < |s.procs|
    && (forall c :: 0 <= c < |s.cpus| ==> s.cpus[c] == Cpu(None, Sched(Scan(0))))
    && (forall p :: 0 <= p < |s.procs| ==>
          s.procs[p].held == {} && !s.procs[p].adopted && s.procs[p].chan == Nothing
              && s.procs[p].pc == Resume(ForkRet) && s.procs[p].parent.None?
          && s.procs[p].state == (if p == s.initproc then RUNNABLE else UNUSED))
    && (forall l :: 0 <= l < |s.locked| ==> !s.locked[l])
    && s.owner == map[]
  }

  ghost predicate ValidRun(s: State, acts: seq<Action>)
    decreases |acts|
  {
    |acts| > 0 ==> Enabled(s, acts[0]) && ValidRun(Do(s, acts[0]), acts[1..])
  }

  ghost function Path(s: State, acts: seq<Action>): State
    requires ValidRun(s, acts)
    decreases |acts|
  {
    if |acts| == 0 then s else Path(Do(s, acts[0]), acts[1..])
  }

  // ---------------------------------------------------------------- the invariant

  /** The process that CPU c executes or is about to switch to. */
  function Busy(s: State, c: nat): Option<nat>
    requires c < |s.cpus|
  {
    match s.cpus[c].on
    case Run(p) => Some(p)
    case Sched(Starting(i)) => Some(i)
    case Sched(Current(i)) => Some(i)
    case Sched(_) => None
  }

  ghost predicate Idle(s: State, p: nat) {
    forall c :: 0 <= c < |s.cpus| ==> Busy(s, c) != Some(p)
  }

  /** The state of a process executing at pc. */
  function StateAt(pc: Pc): ProcState {
    match pc
    case YieldGo(_) => RUNNABLE
    case SleepGo(_) => SLEEPING
    case WaitGo => SLEEPING
    case ExitLeave(_) => ZOMBIE
    case ExitGo => ZOMBIE
    case _ => RUNNING
  }

  /** Indices are in range and the locks held at pc are distinct. */
  predicate PcOk(s: State, p: nat, pc: Pc) {
    match pc
    case Resume(k) => k != Dead
    case AcqWant(l) => l < |s.locked|
    case AcqTest(l) => l < |s.locked|
    case SleepWant(l) => l < |s.locked|
    case SleepBoth(l) => l < |s.locked|
    case SleepChan(l) => l < |s.locked|
    case SleepState(l) => l < |s.locked|
    case SleepGo(l) => l < |s.locked|
    case SleepTidy(l) => l < |s.locked|
    case RelWant(l) => l < |s.locked|
    case RelClear(l) => l < |s.locked|
    case Wake(l, i) => i <= |s.procs|
    case WakeHold(l, i) => i < |s.procs|
    case WaitLock(i) => i < |s.procs|
    case WaitHold(i) => i < |s.procs| && i != p
    case WaitFreed(i) => i < |s.procs| && i != p
    case KillHold(i) => i < |s.procs|
    case ForkHold(i) => i < |s.procs|
    case ForkDone(i) => i < |s.procs|
    case ExitParentWant(pp) => pp < |s.procs|
    case ExitOwnWant(pp) => pp < |s.procs|
    case ExitRep(pp, i) => pp < |s.procs| && pp != p
    case ExitRepWant(pp, i) => pp < |s.procs| && pp != p && i < |s.procs|
    case ExitRepHold(pp, i) => pp < |s.procs| && pp != p && i < |s.procs| && i != p && i != pp
    case ExitZombie(pp) => pp < |s.procs| && pp != p
    case ExitLeave(pp) => pp < |s.procs| && pp != p
    case _ => true
  }

  /** A point at which a process was interrupted. */
  predicate BackOk(back: Pc, held: set<nat>, nlocks: nat, nprocs: nat) {
    && Preemptible(back)
    && (back.AcqWant? || back.RelWant? ==> back.l < nlocks)
    && (back.RelWant? ==> back.l in held)
    && (back.ExitParentWant? ==> back.pp < nprocs)
  }

  /** A process while it executes. */
  predicate LiveOk(s: State, p: nat)
    requires p < |s.procs|
  {
    var r := s.procs[p];
    && PcOk(s, p, r.pc) && r.state == StateAt(r.pc)
    && (r.pc.SleepState? || r.pc.SleepGo? ==> r.chan == OnLock(r.pc.l))
    && (r.pc.WaitState? || r.pc.WaitGo? ==> r.chan == OnProc(p))
    && (r.pc.RelWant? || r.pc.RelClear? ==> r.pc.l in r.held)
    && (r.pc.YieldWant? || r.pc.YieldSet? || r.pc.YieldGo? ==> BackOk(r.pc.back, r.held, |s.locked|, |s.procs|))
  }

  predicate CanRun(r: Proc, nlocks: nat, nprocs: nat) {
    && r.pc.Resume? && r.pc.k != Dead && (r.pc.k.AfterSleep? ==> r.pc.k.l < nlocks)
    && (r.pc.k.AfterYield? ==> BackOk(r.pc.k.back, r.held, nlocks, nprocs))
  }

  /** A process that no CPU executes. */
  predicate SuspendedOk(s: State, p: nat)
    requires p < |s.procs|
  {
    var r := s.procs[p];
    && r.pc.Resume? && r.state != RUNNING
    && (r.state == RUNNABLE ==> CanRun(r, |s.locked|, |s.procs|))
    && (r.state == SLEEPING ==>
          CanRun(r, |s.locked|, |s.procs|)
              && (if r.pc.k.AfterSleep? then r.chan == OnLock(r.pc.k.l) else r.pc.k.AfterWait? && r.chan == OnProc(p)))
    && (r.state == ZOMBIE ==> r.pc.k == Dead)
  }

  predicate CpuOk(s: State, c: nat)
    requires c < |s.cpus|
  {
    match s.cpus[c].on
    case Run(p) =>
        p < |s.procs| && s.cpus[c].proc == Some(p) && LiveOk(s, p)
        && (s.procs[p].pc.Resume? ==> CanRun(s.procs[p], |s.locked|, |s.procs|))
    case Sched(spc) =>
      && spc.i < |s.procs|
      && s.cpus[c].proc == (if spc.Current? || spc.Back? then Some(spc.i) else None)
      && (spc.Starting? || spc.Current? ==>
          s.procs[spc.i].state == RUNNING && CanRun(s.procs[spc.i], |s.locked|, |s.procs|))
  }

  predicate Owns(s: State, c: nat, L: Lock) {
    L in s.owner && s.owner[L] == c
  }

  /** The owner recorded for a lock is the CPU whose thread holds it. */
  ghost predicate LockInv(s: State) {
    && (forall L :: L in s.owner ==> s.owner[L] < |s.cpus|)
    && (forall c: nat, L :: c < |s.cpus| ==> (Owns(s, c, L) <==> L in HeldOn(s, c)))
  }

  ghost predicate BusyUnique(s: State) {
    forall c, d :: 0 <= c < d < |s.cpus| && Busy(s, c).Some? ==> Busy(s, c) != Busy(s, d)
  }

  /** No process is c->proc of two CPUs. */
  ghost predicate CurrentUnique(s: State) {
    forall c: nat, d: nat :: c < d < |s.cpus| && s.cpus[c].proc.Some? ==> s.cpus[c].proc != s.cpus[d].proc
  }

  ghost predicate ProcsOk(s: State) {
    && s.initproc < |s.procs|
    && (forall p :: 0 <= p < |s.procs| && Idle(s, p) ==> SuspendedOk(s, p))
    && (forall p :: 0 <= p < |s.procs| && s.procs[p].parent.Some? ==> s.procs[p].parent.value < |s.procs|)
  }

  predicate Locked(s: State, l: nat) {
    l < |s.locked| && s.locked[l]
  }

  /** A sleep-lock that a process holds is locked, and no other process holds it. */
  ghost predicate HeldInv(s: State) {
    && (forall p: nat, l: nat :: p < |s.procs| && l in s.procs[p].held ==> Locked(s, l))
    && (forall p: nat, q: nat, l: nat :: p < q < |s.procs| && l in s.procs[p].held ==> l !in s.procs[q].held)
  }

  /** p has found l locked and is on its way to sleep on it, or is asleep on it. */
  predicate Committed(r: Proc, l: nat) {
    || r.pc == SleepWant(l) || r.pc == SleepBoth(l) || r.pc == SleepChan(l) || r.pc == SleepState(l)
        || r.pc == SleepGo(l)
    || (r.state == SLEEPING && r.chan == OnLock(l))
  }

  predicate WakesFrom(pc: Pc, l: nat, p: nat) {
    (pc.Wake? || pc.WakeHold?) && pc.l == l && pc.i <= p
  }

  /** Some process is in wakeup(l) and has not passed p yet. */
  ghost predicate Waking(s: State, l: nat, p: nat) {
    exists c :: 0 <= c < |s.cpus| && s.cpus[c].on.Run? && s.cpus[c].on.p < |s.procs|
                && WakesFrom(s.procs[s.cpus[c].on.p].pc, l, p)
  }

  ghost predicate WakeInv(s: State) {
    forall p: nat, l: nat :: p < |s.procs| && Committed(s.procs[p], l) ==> Locked(s, l) || Waking(s, l, p)
  }

  ghost predicate Inv(s: State) {
    && LockInv(s) && BusyUnique(s) && CurrentUnique(s) && ProcsOk(s) && HeldInv(s) && WakeInv(s)
    && forall c :: 0 <= c < |s.cpus| ==> CpuOk(s, c)
  }

  // ---------------------------------------------------------------- what holding a lock excludes

  /** A process whose lock another thread holds is RUNNING if it is on a CPU at all. */
  lemma LockedOut(s: State, c: nat, d: nat, q: nat)
    requires Inv(s) && c < |s.cpus| && d < |s.cpus| && c != d && q < |s.procs|
    requires PLock(q) in HeldOn(s, c) && Busy(s, d) == Some(q)
    ensures s.cpus[d].on == Run(q) && s.procs[q].state == RUNNING && PLock(q) !in HeldBy(s, q)
  {
    hide WakeInv, HeldInv, ProcsOk;
    assert CpuOk(s, d);
    assert Owns(s, c, PLock(q)) && !Owns(s, d, PLock(q));
    StateWithoutLock(s, q);
  }

  lemma StateWithoutLock(s: State, q: nat)
    requires q < |s.procs| && PLock(q) !in HeldBy(s, q)
    ensures StateAt(s.procs[q].pc) == RUNNING
    ensures !s.procs[q].pc.SleepChan? && !s.procs[q].pc.SleepState? && !s.procs[q].pc.SleepBoth?
  {
  }

  // ---------------------------------------------------------------- steps of an executing process

  /** What a step does to the spin-locks. */
  datatype Effect = Same | Plus(L: Lock) | Minus(L: Lock)

  predicate LockEffect(s: State, s': State, c: nat, p: nat, e: Effect)
    requires p < |s.procs| == |s'.procs|
  {
    match e
    case Same => s'.owner == s.owner && HeldBy(s', p) == HeldBy(s, p)
    case Plus(L) => L !in s.owner && s'.owner == s.owner[L := c] && HeldBy(s', p) == HeldBy(s, p) + {L}
    case Minus(L) => L in HeldBy(s, p) && s'.owner == s.owner - {L} && HeldBy(s', p) == HeldBy(s, p) - {L}
  }

  /** What the holder of a process's lock may do to that process. */
  predicate RemoteOk(r: Proc, r': Proc) {
    && (r'.held == r.held || (r.state == UNUSED && r'.held == {}))
    && (|| (r'.state == r.state && r'.chan == r.chan && r'.pc == r.pc && r'.held == r.held)
        || (r.state == SLEEPING && r'.state == RUNNABLE && r'.chan == r.chan && r'.pc == r.pc)
        || (r.state == ZOMBIE && r'.state == UNUSED && r'.chan == Nothing && r'.pc == r.pc)
        || (r.state == UNUSED && r'.state == RUNNABLE && r'.chan == r.chan && r'.pc == Resume(ForkRet)))
  }

  /** A step of process p on CPU c that is not a switch. */
  ghost predicate Move(s: State, s': State, c: nat, p: nat, e: Effect) {
    && c < |s.cpus| && s.cpus[c].on == Run(p) && p < |s.procs| == |s'.procs|
    && s'.cpus == s.cpus && s'.initproc == s.initproc && |s'.locked| == |s.locked|
    && LockEffect(s, s', c, p, e)
    && LiveOk(s', p) && !s'.procs[p].pc.Resume?
    && (forall q :: 0 <= q < |s.procs| && q != p ==>
          s'.procs[q] == s.procs[q] || (PLock(q) in HeldBy(s, p) && RemoteOk(s.procs[q], s'.procs[q])))
    && (forall q :: 0 <= q < |s'.procs| && s'.procs[q].parent.Some? ==> s'.procs[q].parent.value < |s'.procs|)
  }

  /** A process on another CPU keeps its place and its locks. */
  lemma MoveElsewhere(s: State, s': State, c: nat, p: nat, e: Effect, d: nat)
    requires Inv(s) && Move(s, s', c, p, e) && d < |s.cpus| && d != c
    ensures CpuOk(s', d) && HeldOn(s', d) == HeldOn(s, d)
    ensures s.cpus[d].on.Run? ==>
        s.cpus[d].on.p < |s.procs| && s'.procs[s.cpus[d].on.p].pc == s.procs[s.cpus[d].on.p].pc
  {
    hide WakeInv, HeldInv, ProcsOk, LockInv, HeldBy;
    assert CpuOk(s, d) && Busy(s, c) == Some(p) && Busy(s, d) != Some(p);
    if Busy(s, d).Some? {
      var q := Busy(s, d).value;
      if s'.procs[q] != s.procs[q] { LockedOut(s, c, d, q); }
      assert s'.procs[q].pc == s.procs[q].pc;
      SamePlace(s, s', q);
    }
  }

  lemma SamePlace(s: State, s': State, q: nat)
    requires q < |s.procs| == |s'.procs| && s'.initproc == s.initproc && s'.procs[q].pc == s.procs[q].pc
    ensures HeldBy(s', q) == HeldBy(s, q)
  {
  }

  lemma MoveLocks(s: State, s': State, c: nat, p: nat, e: Effect)
    requires Inv(s) && Move(s, s', c, p, e)
    ensures LockInv(s')
  {
    hide WakeInv, HeldInv, ProcsOk, CpuOk, HeldBy;
    forall d: nat, L | d < |s'.cpus| ensures Owns(s', d, L) <==> L in HeldOn(s', d) {
      assert Owns(s, d, L) <==> L in HeldOn(s, d);
      assert Owns(s, c, L) <==> L in HeldOn(s, c);
      if d != c { MoveElsewhere(s, s', c, p, e, d); }
    }
  }

  lemma MoveProcs(s: State, s': State, c: nat, p: nat, e: Effect)
    requires Inv(s) && Move(s, s', c, p, e)
    ensures ProcsOk(s') && BusyUnique(s') && CurrentUnique(s') && forall d :: 0 <= d < |s'.cpus| ==> CpuOk(s', d)
  {
    hide WakeInv, HeldInv, LockInv, HeldBy, LockEffect;
    forall d | 0 <= d < |s'.cpus| ensures Busy(s', d) == Busy(s, d) {}
    forall d | 0 <= d < |s'.cpus| ensures CpuOk(s', d) {
      if d != c { MoveElsewhere(s, s', c, p, e, d); } else { assert CpuOk(s, c); }
    }
    assert Busy(s, c) == Some(p);
    forall q | 0 <= q < |s'.procs| && Idle(s', q) ensures SuspendedOk(s', q) {
      assert Idle(s, q) && SuspendedOk(s, q);
    }
  }

  lemma WakingKept(s: State, s': State, c: nat, p: nat, e: Effect, l: nat, q: nat)
    requires Inv(s) && Move(s, s', c, p, e) && Waking(s, l, q)
    requires WakesFrom(s.procs[p].pc, l, q) ==> WakesFrom(s'.procs[p].pc, l, q)
    ensures Waking(s', l, q)
  {
    hide WakeInv, HeldInv, LockInv, HeldBy, LockEffect, ProcsOk;
    var d :| 0 <= d < |s.cpus| && s.cpus[d].on.Run? && s.cpus[d].on.p < |s.procs|
        && WakesFrom(s.procs[s.cpus[d].on.p].pc, l, q);
    if d != c { MoveElsewhere(s, s', c, p, e, d); }
    assert s'.cpus[d] == s.cpus[d];
  }

  /** A step that neither unlocks a sleep-lock nor passes a process in wakeup. */
  lemma MoveWake(s: State, s': State, c: nat, p: nat, e: Effect)
    requires Inv(s) && Move(s, s', c, p, e)
    requires forall l :: 0 <= l < |s.locked| && s.locked[l] ==> s'.locked[l]
    requires forall l: nat :: Committed(s'.procs[p], l) ==> Committed(s.procs[p], l) || Locked(s', l)
    requires forall l: nat, q: nat :: q < |s.procs| && WakesFrom(s.procs[p].pc, l, q) && Committed(s'.procs[q], l)
               ==> WakesFrom(s'.procs[p].pc, l, q)
    ensures WakeInv(s')
  {
    hide HeldInv, LockInv, HeldBy, LockEffect, ProcsOk, CpuOk;
    forall q: nat, l: nat | q < |s'.procs| && Committed(s'.procs[q], l)
      ensures Locked(s', l) || Waking(s', l, q)
    {
      assert q != p ==> Committed(s.procs[q], l);
      if !Locked(s', l) {
        WakingKept(s, s', c, p, e, l, q);
      }
    }
  }

  /** The step keeps everything when it leaves the sleep-locks and the wakeups alone. */
  lemma MoveInv(s: State, s': State, c: nat, p: nat, e: Effect)
    requires Inv(s) && Move(s, s', c, p, e) && s'.locked == s.locked && s'.procs[p].held == s.procs[p].held
    requires forall l: nat :: Committed(s'.procs[p], l) ==> Committed(s.procs[p], l) || Locked(s, l)
    requires forall l: nat, q: nat :: q < |s.procs| && WakesFrom(s.procs[p].pc, l, q) && Committed(s'.procs[q], l)
               ==> WakesFrom(s'.procs[p].pc, l, q)
    ensures Inv(s')
  {
    MoveLocks(s, s', c, p, e);
    MoveProcs(s, s', c, p, e);
    MoveWake(s, s', c, p, e);
    MoveHeld(s, s', c, p, e);
  }

  lemma MoveHeld(s: State, s': State, c: nat, p: nat, e: Effect)
    requires Inv(s) && Move(s, s', c, p, e) && s'.locked == s.locked && s'.procs[p].held == s.procs[p].held
    ensures HeldInv(s')
  {
    hide WakeInv, LockInv, HeldBy, LockEffect, ProcsOk, CpuOk;
    forall q: nat, l: nat | q < |s'.procs| && l in s'.procs[q].held ensures l in s.procs[q].held && Locked(s', l) {
      assert l in s.procs[q].held;
      assert Locked(s, l);
    }
  }

  // ---------------------------------------------------------------- every kind of step

  lemma AcquireStep(s: State, c: nat, p: nat, op: Op, flag: bool)
    requires Inv(s) && c < |s.cpus| && s.cpus[c].on == Run(p) && p < |s.procs|
    requires Wants(s, c).Some? && Wants(s, c).value !in s.owner
    ensures Inv(DoNext(s, c, p, op, flag))
  {
    var L, pc := Wants(s, c).value, s.procs[p].pc;
    AcquireShape(s, c, p, op, flag);
    AcquireHeld(s, c, p);
    var s' := Goto(Take(s, c, L), p, Acquired(pc));
    AcquirePc(s, c, p);
    hide Inv, HeldBy, PcOk, Acquired, Wants, DoNext;
    MoveInv(s, s', c, p, Plus(L));
  }

  lemma AcquireShape(s: State, c: nat, p: nat, op: Op, flag: bool)
    requires c < |s.cpus| && s.cpus[c].on == Run(p) && p < |s.procs| && Wants(s, c).Some?
    ensures DoNext(s, c, p, op, flag) == Goto(Take(s, c, Wants(s, c).value), p, Acquired(s.procs[p].pc))
  {
  }

  lemma AcquireHeld(s: State, c: nat, p: nat)
    requires c < |s.cpus| && s.cpus[c].on == Run(p) && p < |s.procs| && Wants(s, c).Some?
    ensures var L := Wants(s, c).value;
            HeldBy(Goto(Take(s, c, L), p, Acquired(s.procs[p].pc)), p) == HeldBy(s, p) + {L}
  {
  }

  lemma AcquirePc(s: State, c: nat, p: nat)
    requires Inv(s) && c < |s.cpus| && s.cpus[c].on == Run(p) && p < |s.procs|
    requires Wants(s, c).Some? && Wants(s, c).value !in s.owner
    ensures var L := Wants(s, c).value;
            var s' := Goto(Take(s, c, L), p, Acquired(s.procs[p].pc));
            && Move(s, s', c, p, Plus(L))
            && (forall l: nat :: Committed(s'.procs[p], l) ==> Committed(s.procs[p], l))
            && (forall l: nat, q: nat :: WakesFrom(s.procs[p].pc, l, q) ==> WakesFrom(s'.procs[p].pc, l, q))
  {
    hide WakeInv, HeldInv;
    var L := Wants(s, c).value;
    AcquireHeld(s, c, p);
    assert CpuOk(s, c);
    assert Owns(s, c, L) <==> L in HeldOn(s, c);
    assert L !in HeldBy(s, p);
    assert Owns(s, c, PLock(p)) <==> PLock(p) in HeldOn(s, c);
    AcquireLive(s, p, L, c);
  }

  lemma AcquireLive(s: State, p: nat, L: Lock, c: nat)
    requires p < |s.procs| && LiveOk(s, p) && c < |s.cpus| && s.cpus[c].on == Run(p) && Wants(s, c) == Some(L)
    requires L !in HeldBy(s, p)
    ensures var s' := Goto(Take(s, c, L), p, Acquired(s.procs[p].pc));
            && LiveOk(s', p) && !s'.procs[p].pc.Resume?
            && (forall l: nat :: Committed(s'.procs[p], l) ==> Committed(s.procs[p], l))
            && (forall l: nat, q: nat :: WakesFrom(s.procs[p].pc, l, q) ==> WakesFrom(s'.procs[p].pc, l, q))
  {
    var s' := Goto(Take(s, c, L), p, Acquired(s.procs[p].pc));
    AcquiredPc(s, p, L, c);
    SamePcOk(s, s', p, s'.procs[p].pc);
    hide PcOk, HeldBy;
  }

  lemma AcquiredPc(s: State, p: nat, L: Lock, c: nat)
    requires p < |s.procs| && PcOk(s, p, s.procs[p].pc) && c < |s.cpus| && s.cpus[c].on == Run(p)
    requires Wants(s, c) == Some(L)
    requires L !in HeldBy(s, p)
    ensures PcOk(s, p, Acquired(s.procs[p].pc))
  {
  }

  /** No lock is taken or released, and only p changes. */
  predicate IsLocal(s: State, p: nat)
    requires p < |s.procs|
  {
    var pc := s.procs[p].pc;
    || pc.User? || pc.YieldSet? || pc.SleepChan? || pc.SleepState? || pc.WaitScan? || pc.WaitChan? || pc.WaitState?
        || pc.ExitRep?
    || (pc.Resume? && (pc.k.AfterSleep? || pc.k.AfterWait?))
    || (pc.AcqTest? && Locked(s, pc.l))
    || ((pc.KillScan? || pc.ForkScan?) && pc.i >= |s.procs|)
  }

  /** The new record of p in a local step. */
  function LocalProc(s: State, p: nat, op: Op): Proc
    requires p < |s.procs|
  {
    var r, n := s.procs[p], |s.procs|;
    match r.pc
    case User => r.(pc := Begin(s, p, op))
    case YieldSet(back) => r.(state := RUNNABLE, pc := YieldGo(back))
    case SleepChan(l) => r.(chan := OnLock(l), pc := SleepState(l))
    case SleepState(l) => r.(state := SLEEPING, pc := SleepGo(l))
    case WaitChan => r.(chan := OnProc(p), pc := WaitState)
    case WaitState => r.(state := SLEEPING, pc := WaitGo)
    case Resume(AfterSleep(l)) => r.(chan := Nothing, pc := SleepTidy(l))
    case Resume(AfterWait) => r.(chan := Nothing, pc := WaitScan(0, false))
    case AcqTest(l) => r.(pc := SleepWant(l))
    case WaitScan(i, kids) =>
      r.(pc := if i < n then (if s.procs[i].parent == Some(p) then WaitLock(i) else WaitScan(i + 1, kids))
               else if !kids || r.killed then WaitEnd else WaitChan)
    case ExitRep(pp, i) =>
      r.(pc := if i < n then (if s.procs[i].parent == Some(p) then ExitRepWant(pp, i) else ExitRep(pp, i + 1))
               else ExitZombie(pp))
    case _ => r.(pc := User)
  }

  lemma LocalShape(s: State, c: nat, p: nat, op: Op, flag: bool)
    requires c < |s.cpus| && p < |s.procs| && IsLocal(s, p)
    ensures DoNext(s, c, p, op, flag) == SetProc(s, p, LocalProc(s, p, op))
  {
  }

  lemma LocalLive(s: State, p: nat, op: Op)
    requires p < |s.procs| && IsLocal(s, p) && LiveOk(s, p)
    requires s.procs[p].pc.Resume? ==> CanRun(s.procs[p], |s.locked|, |s.procs|)
    requires forall l: nat :: l in s.procs[p].held ==> Locked(s, l)
    ensures var s' := SetProc(s, p, LocalProc(s, p, op));
            LiveOk(s', p) && !s'.procs[p].pc.Resume?
  {
    LocalState(s, p, op);
    LocalPc(s, p, op);
    hide LocalProc, IsLocal, PcOk, StateAt;
    SamePcOk(s, SetProc(s, p, LocalProc(s, p, op)), p, LocalProc(s, p, op).pc);
  }

  lemma LocalPc(s: State, p: nat, op: Op)
    requires p < |s.procs| && IsLocal(s, p) && PcOk(s, p, s.procs[p].pc)
    requires s.procs[p].pc.Resume? ==> CanRun(s.procs[p], |s.locked|, |s.procs|)
    requires forall l: nat :: l in s.procs[p].held ==> Locked(s, l)
    ensures PcOk(s, p, LocalProc(s, p, op).pc) && !LocalProc(s, p, op).pc.Resume?
  {
    hide Begin, Locked, BackOk;
    BeginPc(s, p, op);
    LockedBound(s);
  }

  lemma BeginPc(s: State, p: nat, op: Op)
    requires p < |s.procs| && forall l: nat :: l in s.procs[p].held ==> Locked(s, l)
    ensures PcOk(s, p, Begin(s, p, op)) && !Begin(s, p, op).Resume?
  {
  }

  lemma LockedBound(s: State)
    ensures forall l: nat :: Locked(s, l) ==> l < |s.locked|
  {
  }

  lemma LocalState(s: State, p: nat, op: Op)
    requires p < |s.procs| && IsLocal(s, p) && LiveOk(s, p)
    ensures var r := LocalProc(s, p, op);
            && r.state == StateAt(r.pc)
            && (r.pc.SleepState? || r.pc.SleepGo? ==> r.chan == OnLock(r.pc.l))
            && (r.pc.WaitState? || r.pc.WaitGo? ==> r.chan == OnProc(p))
            && (r.pc.RelWant? || r.pc.RelClear? ==> r.pc.l in r.held)
            && (r.pc.YieldWant? || r.pc.YieldSet? || r.pc.YieldGo? ==> BackOk(r.pc.back, r.held, |s.locked|, |s.procs|))
  {
    hide PcOk, BackOk;
  }

  lemma LocalHeld(s: State, p: nat, op: Op)
    requires p < |s.procs| && IsLocal(s, p)
    ensures HeldBy(SetProc(s, p, LocalProc(s, p, op)), p) == HeldBy(s, p)
  {
  }

  lemma LocalWake(s: State, p: nat, op: Op)
    requires p < |s.procs| && IsLocal(s, p) && LiveOk(s, p)
    ensures var r' := LocalProc(s, p, op);
            && r'.held == s.procs[p].held && r'.parent == s.procs[p].parent
            && (forall l: nat :: Committed(r', l) ==> Committed(s.procs[p], l) || Locked(s, l))
            && !s.procs[p].pc.Wake? && !s.procs[p].pc.WakeHold?
  {
  }

  lemma LocalStep(s: State, c: nat, p: nat, op: Op, flag: bool)
    requires Inv(s) && c < |s.cpus| && s.cpus[c].on == Run(p) && p < |s.procs| && IsLocal(s, p)
    ensures Inv(DoNext(s, c, p, op, flag))
  {
    hide WakeInv, DoNext, HeldBy, LocalProc, IsLocal, PcOk, LockInv;
    assert CpuOk(s, c);
    var s' := SetProc(s, p, LocalProc(s, p, op));
    LocalShape(s, c, p, op, flag);
    LocalLive(s, p, op);
    LocalHeld(s, p, op);
    LocalWake(s, p, op);
    assert Move(s, s', c, p, Same);
    MoveInv(s, s', c, p, Same);
  }

  /** A lock is released, and only p changes. */
  predicate IsRelease(s: State, p: nat, flag: bool)
    requires p < |s.procs|
  {
    var pc := s.procs[p].pc;
    || pc.AcqDone? || pc.SleepBoth? || pc.SleepTidy? || pc.WaitFreed? || pc.WaitEnd? || pc.ForkDone? || pc.ExitLeave?
    || (pc.Resume? && (pc.k.AfterYield? || pc.k.ForkRet?))
    || (pc.Wake? && pc.i >= |s.procs|)
    || (pc.WaitHold? && pc.i < |s.procs| && s.procs[pc.i].state != ZOMBIE)
    || (pc.KillHold? && !flag)
    || (pc.ForkHold? && pc.i < |s.procs| && (s.procs[pc.i].state != UNUSED || flag))
    || (pc.ExitSelf? && s.procs[p].parent.Some?)
  }

  function Released(s: State, p: nat): (Lock, Pc)
    requires p < |s.procs|
  {
    match s.procs[p].pc
    case AcqDone(l) => (LK(l), User)
    case SleepBoth(l) => (LK(l), SleepChan(l))
    case SleepTidy(l) => (PLock(p), AcqWant(l))
    case WaitFreed(i) => (PLock(i), WaitEnd)
    case ForkDone(i) => (PLock(i), User)
    case ExitLeave(pp) => (PLock(pp), ExitGo)
    case Wake(l, i) => (LK(l), User)
    case WaitHold(i) => (PLock(i), WaitScan(i + 1, true))
    case KillHold(i) => (PLock(i), KillScan(i + 1))
    case ForkHold(i) => (PLock(i), if i < |s.procs| && s.procs[i].state == UNUSED then User else ForkScan(i + 1))
    case Resume(AfterYield(back)) => (PLock(p), back)
    case ExitSelf => (PLock(p), if s.procs[p].parent.Some? then ExitParentWant(s.procs[p].parent.value) else User)
    case _ => (PLock(p), User)
  }

  lemma ReleaseShape(s: State, c: nat, p: nat, op: Op, flag: bool)
    requires c < |s.cpus| && p < |s.procs| && IsRelease(s, p, flag)
    ensures DoNext(s, c, p, op, flag) == Goto(Drop(s, Released(s, p).0), p, Released(s, p).1)
  {
  }

  lemma ReleaseLive(s: State, p: nat, flag: bool)
    requires p < |s.procs| && IsRelease(s, p, flag) && LiveOk(s, p)
    requires s.procs[p].pc.Resume? ==> CanRun(s.procs[p], |s.locked|, |s.procs|)
    requires s.procs[p].parent.Some? ==> s.procs[p].parent.value < |s.procs|
    ensures var (L, pc') := Released(s, p);
            var s' := Goto(Drop(s, L), p, pc');
            && LiveOk(s', p) && !pc'.Resume?
            && L in HeldBy(s, p) && HeldBy(s', p) == HeldBy(s, p) - {L}
            && (forall l: nat :: Committed(s'.procs[p], l) ==> Committed(s.procs[p], l))
            && (forall l: nat, q: nat :: WakesFrom(s.procs[p].pc, l, q) ==> q >= |s.procs|)
  {
    hide Goto, Drop, HeldBy, LiveOk, Released, IsRelease;
    ReleaseHeld(s, p, flag);
    ReleaseSleep(s, p, flag);
  }

  lemma ReleaseHeld(s: State, p: nat, flag: bool)
    requires p < |s.procs| && IsRelease(s, p, flag) && LiveOk(s, p)
    requires s.procs[p].pc.Resume? ==> CanRun(s.procs[p], |s.locked|, |s.procs|)
    requires s.procs[p].parent.Some? ==> s.procs[p].parent.value < |s.procs|
    ensures var (L, pc') := Released(s, p);
            var s' := Goto(Drop(s, L), p, pc');
            LiveOk(s', p) && !pc'.Resume? && L in HeldBy(s, p) && HeldBy(s', p) == HeldBy(s, p) - {L}
  {
    hide PcOk, HeldBy, Released, IsRelease, StateAt, BackOk;
    ReleasePc(s, p, flag);
    ReleaseState(s, p, flag);
    ReleaseLocks(s, p, flag);
    SamePcOk(s, Goto(Drop(s, Released(s, p).0), p, Released(s, p).1), p, Released(s, p).1);
  }

  lemma ReleasePc(s: State, p: nat, flag: bool)
    requires p < |s.procs| && IsRelease(s, p, flag) && PcOk(s, p, s.procs[p].pc)
    requires s.procs[p].pc.Resume? ==> CanRun(s.procs[p], |s.locked|, |s.procs|)
    requires s.procs[p].parent.Some? ==> s.procs[p].parent.value < |s.procs|
    ensures PcOk(s, p, Released(s, p).1) && !Released(s, p).1.Resume?
  {
  }

  lemma ReleaseState(s: State, p: nat, flag: bool)
    requires p < |s.procs| && IsRelease(s, p, flag)
    requires s.procs[p].pc.Resume? ==> CanRun(s.procs[p], |s.locked|, |s.procs|)
    ensures var pc' := Released(s, p).1;
            && StateAt(pc') == StateAt(s.procs[p].pc)
            && !pc'.SleepState? && !pc'.SleepGo? && !pc'.WaitState? && !pc'.WaitGo? && !pc'.RelClear?
            && !pc'.YieldWant? && !pc'.YieldSet? && !pc'.YieldGo? && (pc'.RelWant? ==> pc'.l in s.procs[p].held)
  {
  }

  lemma ReleaseLocks(s: State, p: nat, flag: bool)
    requires p < |s.procs| && IsRelease(s, p, flag) && PcOk(s, p, s.procs[p].pc)
    requires s.procs[p].pc.Resume? ==> CanRun(s.procs[p], |s.locked|, |s.procs|)
    ensures var (L, pc') := Released(s, p);
            L in HeldBy(s, p) && HeldBy(Goto(Drop(s, L), p, pc'), p) == HeldBy(s, p) - {L}
  {
    hide LocksAt, Released, IsRelease, PcOk;
    ReleasePlaces(s, p, flag);
  }

  lemma ReleasePlaces(s: State, p: nat, flag: bool)
    requires p < |s.procs| && IsRelease(s, p, flag) && PcOk(s, p, s.procs[p].pc)
    requires s.procs[p].pc.Resume? ==> CanRun(s.procs[p], |s.locked|, |s.procs|)
    ensures var (L, pc') := Released(s, p);
            var was := LocksAt(s.initproc, p, s.procs[p].pc);
            L in was && LocksAt(s.initproc, p, pc') == was - {L}
  {
  }

  lemma ReleaseSleep(s: State, p: nat, flag: bool)
    requires p < |s.procs| && IsRelease(s, p, flag) && LiveOk(s, p)
    requires s.procs[p].pc.Resume? ==> CanRun(s.procs[p], |s.locked|, |s.procs|)
    ensures var (L, pc') := Released(s, p);
            var s' := Goto(Drop(s, L), p, pc');
            && (forall l: nat :: Committed(s'.procs[p], l) ==> Committed(s.procs[p], l))
            && (forall l: nat, q: nat :: WakesFrom(s.procs[p].pc, l, q) ==> q >= |s.procs|)
  {
  }

  lemma ReleaseStep(s: State, c: nat, p: nat, op: Op, flag: bool)
    requires Inv(s) && c < |s.cpus| && s.cpus[c].on == Run(p) && p < |s.procs| && IsRelease(s, p, flag)
    ensures Inv(DoNext(s, c, p, op, flag))
  {
    hide WakeInv, DoNext, HeldBy, Released, IsRelease, PcOk, LockInv, HeldInv;
    assert CpuOk(s, c);
    var (L, pc') := Released(s, p);
    var s' := Goto(Drop(s, L), p, pc');
    ReleaseShape(s, c, p, op, flag);
    ReleaseLive(s, p, flag);
    assert Move(s, s', c, p, Minus(L));
    MoveInv(s, s', c, p, Minus(L));
  }

  /** Another process changes, under its lock. */
  datatype Remote = Remote(q: nat, r: Proc, pc: Pc, e: Effect)

  /** A step in which p changes process q while holding q's lock. */
  predicate IsRemote(s: State, p: nat, flag: bool)
    requires p < |s.procs|
  {
    var pc := s.procs[p].pc;
    || (pc.WaitHold? && pc.i < |s.procs| && s.procs[pc.i].state == ZOMBIE)
    || (pc.KillHold? && pc.i < |s.procs| && flag)
    || (pc.ForkHold? && pc.i < |s.procs| && s.procs[pc.i].state == UNUSED && !flag)
    || (pc.WakeHold? && pc.i < |s.procs|)
    || (pc.ExitInit? && s.initproc < |s.procs|)
    || (pc.ExitRepHold? && pc.i < |s.procs|)
  }

  function RemoteOf(s: State, p: nat, flag: bool): Remote
    requires p < |s.procs| && IsRemote(s, p, flag)
  {
    match s.procs[p].pc
    case WaitHold(i) =>
      Remote(i, if flag then s.procs[i] else Unused(s.procs[i]), WaitFreed(i), Same)
    case KillHold(i) =>
      Remote(i, Killed(s.procs[i]), User, Minus(PLock(i)))
    case ForkHold(i) =>
      Remote(i, Forked(s.procs[i], p), ForkDone(i), Same)
    case WakeHold(l, i) => Remote(i, Woken(s.procs[i], OnLock(l)), Wake(l, i + 1), Minus(PLock(i)))
    case ExitInit =>
      Remote(s.initproc, Woken(s.procs[s.initproc], OnProc(s.initproc)), ExitSelfWant, Minus(PLock(s.initproc)))
    case ExitRepHold(pp, i) =>
        Remote(i, s.procs[i].(parent := Some(s.initproc), adopted := true), ExitRep(pp, i + 1), Minus(PLock(i)))
  }

  function AfterRemote(s: State, p: nat, m: Remote): State
    requires p < |s.procs| && m.q < |s.procs|
  {
    var s1 := SetProc(s, m.q, m.r);
    Goto(if m.e.Minus? then Drop(s1, m.e.L) else s1, p, m.pc)
  }

  lemma RemoteShape(s: State, c: nat, p: nat, op: Op, flag: bool)
    requires c < |s.cpus| && p < |s.procs| && IsRemote(s, p, flag)
    ensures RemoteOf(s, p, flag).q < |s.procs|
    ensures DoNext(s, c, p, op, flag) == AfterRemote(s, p, RemoteOf(s, p, flag))
  {
    hide Goto, Drop, SetProc, Woken;
    if s.procs[p].pc.WaitHold? {
      SetSame(s, s.procs[p].pc.i);
    }
  }

  lemma SetSame(s: State, q: nat)
    requires q < |s.procs|
    ensures SetProc(s, q, s.procs[q]) == s
  {
    assert SetProc(s, q, s.procs[q]).procs == s.procs;
  }

  lemma RemoteLive(s: State, p: nat, flag: bool)
    requires p < |s.procs| && IsRemote(s, p, flag) && LiveOk(s, p) && s.initproc < |s.procs|
    ensures var m := RemoteOf(s, p, flag);
            && m.q < |s.procs| && PLock(m.q) in HeldBy(s, p) && !m.pc.Resume?
            && LiveOk(AfterRemote(s, p, m), p)
            && LockEffect(s, AfterRemote(s, p, m), 0, p, m.e) && !m.e.Plus?
            && AfterRemote(s, p, m).procs[p].held == s.procs[p].held
  {
    hide PcOk, HeldBy, StateAt, RemoteOf, IsRemote, BackOk;
    RemotePc(s, p, flag);
    RemoteNext(s, p, flag);
    RemoteLocks(s, p, flag);
    var m := RemoteOf(s, p, flag);
    SamePcOk(s, AfterRemote(s, p, m), p, m.pc);
  }

  lemma RemoteNext(s: State, p: nat, flag: bool)
    requires p < |s.procs| && IsRemote(s, p, flag) && PcOk(s, p, s.procs[p].pc) && s.initproc < |s.procs|
    ensures var pc' := RemoteOf(s, p, flag).pc;
            && PcOk(s, p, pc') && StateAt(pc') == RUNNING && !pc'.Resume?
            && !pc'.SleepState? && !pc'.SleepGo? && !pc'.WaitState? && !pc'.WaitGo? && !pc'.RelWant? && !pc'.RelClear?
            && !pc'.YieldWant? && !pc'.YieldSet? && !pc'.YieldGo?
  {
  }

  lemma RemoteLocks(s: State, p: nat, flag: bool)
    requires p < |s.procs| && IsRemote(s, p, flag) && LiveOk(s, p) && s.initproc < |s.procs|
    ensures var m := RemoteOf(s, p, flag);
            && m.q < |s.procs| && PLock(m.q) in HeldBy(s, p)
            && LockEffect(s, AfterRemote(s, p, m), 0, p, m.e) && !m.e.Plus?
  {
    hide LocksAt, RemoteOf, IsRemote, PcOk, StateAt, BackOk;
    RemotePc(s, p, flag);
    RemotePlaces(s, p, flag);
  }

  lemma RemotePlaces(s: State, p: nat, flag: bool)
    requires p < |s.procs| && IsRemote(s, p, flag) && PcOk(s, p, s.procs[p].pc) && s.initproc < |s.procs|
    ensures var m, was := RemoteOf(s, p, flag), LocksAt(s.initproc, p, s.procs[p].pc);
            && m.q < |s.procs| && PLock(m.q) in was && !m.e.Plus? && (m.e.Minus? ==> m.e.L in was)
            && LocksAt(s.initproc, p, m.pc) == if m.e.Minus? then was - {m.e.L} else was
  {
  }

  /** p's own record changes only in pc, and in the fields an executing process may have changed by others. */
  lemma RemotePc(s: State, p: nat, flag: bool)
    requires p < |s.procs| && IsRemote(s, p, flag) && LiveOk(s, p) && s.initproc < |s.procs|
    ensures var m := RemoteOf(s, p, flag); m.q < |s.procs|
    ensures var m := RemoteOf(s, p, flag);
            var r, r' := s.procs[p], AfterRemote(s, p, m).procs[p];
            r'.pc == m.pc && r'.state == r.state && r'.chan == r.chan && r'.held == r.held && r.state == RUNNING
  {
  }

  lemma RemoteAllowed(s: State, p: nat, flag: bool)
    requires p < |s.procs| && IsRemote(s, p, flag) && s.initproc < |s.procs|
    ensures var m := RemoteOf(s, p, flag);
            && m.q < |s.procs| && RemoteOk(s.procs[m.q], m.r)
            && (m.r.parent.Some? ==> m.r.parent == s.procs[m.q].parent || m.r.parent.value < |s.procs|)
  {
  }

  /** After wakeup has dealt with process i, it is not on its way to sleep on l. */
  lemma WokenNotCommitted(s: State, c: nat, p: nat, l: nat, i: nat)
    requires Inv(s) && c < |s.cpus| && s.cpus[c].on == Run(p) && p < |s.procs| && s.procs[p].pc == WakeHold(l, i)
    requires i < |s.procs|
    ensures i != p ==> !Committed(Woken(s.procs[i], OnLock(l)), l)
  {
    hide WakeInv, HeldInv, HeldBy, PcOk;
    if i != p {
      assert HeldOn(s, c) == {LK(l), PLock(i)} by { WakeLocks(s, p, l, i); }
      if Idle(s, i) {
        assert SuspendedOk(s, i);
      } else {
        var d :| 0 <= d < |s.cpus| && Busy(s, d) == Some(i);
        LockedOut(s, c, d, i);
        StateWithoutLock(s, i);
        assert CpuOk(s, d);
        assert Owns(s, c, LK(l)) && !Owns(s, d, LK(l));
        SleepWantLock(s, i, l);
      }
    }
  }

  lemma WakeLocks(s: State, p: nat, l: nat, i: nat)
    requires p < |s.procs| && s.procs[p].pc == WakeHold(l, i)
    ensures HeldBy(s, p) == {LK(l), PLock(i)}
  {
  }

  lemma SleepWantLock(s: State, i: nat, l: nat)
    requires i < |s.procs|
    ensures s.procs[i].pc == SleepWant(l) ==> LK(l) in HeldBy(s, i)
  {
  }

  lemma RemoteStep(s: State, c: nat, p: nat, op: Op, flag: bool)
    requires Inv(s) && c < |s.cpus| && s.cpus[c].on == Run(p) && p < |s.procs| && IsRemote(s, p, flag)
    ensures Inv(DoNext(s, c, p, op, flag))
  {
    hide WakeInv, DoNext, HeldBy, RemoteOf, IsRemote, PcOk, LockInv, HeldInv, RemoteOk;
    assert CpuOk(s, c);
    var m := RemoteOf(s, p, flag);
    RemoteShape(s, c, p, op, flag);
    RemoteLive(s, p, flag);
    RemotePc(s, p, flag);
    RemoteAllowed(s, p, flag);
    var s' := AfterRemote(s, p, m);
    assert Move(s, s', c, p, m.e);
    RemoteWake(s, c, p, flag);
    MoveInv(s, s', c, p, m.e);
  }

  lemma RemoteWake(s: State, c: nat, p: nat, flag: bool)
    requires Inv(s) && c < |s.cpus| && s.cpus[c].on == Run(p) && p < |s.procs| && IsRemote(s, p, flag)
    ensures RemoteOf(s, p, flag).q < |s.procs|
    ensures var s' := AfterRemote(s, p, RemoteOf(s, p, flag));
            && (forall l: nat :: Committed(s'.procs[p], l) ==> Committed(s.procs[p], l))
            && (forall l: nat, q: nat :: q < |s.procs| && WakesFrom(s.procs[p].pc, l, q) && Committed(s'.procs[q], l)
                  ==> WakesFrom(s'.procs[p].pc, l, q))
  {
    hide WakeInv, HeldInv, HeldBy, PcOk, LockInv;
    assert CpuOk(s, c);
    if s.procs[p].pc.WakeHold? { WokenNotCommitted(s, c, p, s.procs[p].pc.l, s.procs[p].pc.i); }
  }

  /** exit: the parent is woken and p becomes a ZOMBIE, both locks held. */
  lemma ZombieStep(s: State, c: nat, p: nat, op: Op, flag: bool)
    requires Inv(s) && c < |s.cpus| && s.cpus[c].on == Run(p) && p < |s.procs| && s.procs[p].pc.ExitZombie?
    ensures Inv(DoNext(s, c, p, op, flag))
  {
    hide WakeInv, HeldInv, LockInv, DoNext, HeldBy, Move, ProcsOk, BusyUnique, CurrentUnique;
    assert CpuOk(s, c);
    ZombieShape(s, c, p, op, flag);
    ZombieMove(s, c, p, s.procs[p].pc.pp);
    MoveInv(s, AfterZombie(s, p, s.procs[p].pc.pp), c, p, Same);
  }

  lemma ZombieMove(s: State, c: nat, p: nat, pp: nat)
    requires Inv(s) && c < |s.cpus| && s.cpus[c].on == Run(p) && p < |s.procs| && s.procs[p].pc == ExitZombie(pp)
    ensures pp < |s.procs| && pp != p && Move(s, AfterZombie(s, p, pp), c, p, Same)
  {
    hide WakeInv, HeldInv, LockInv, HeldBy, BusyUnique, CurrentUnique;
    assert CpuOk(s, c);
    ZombieLocks(s, p, pp);
    ZombieLocks(AfterZombie(s, p, pp), p, pp);
  }

  function AfterZombie(s: State, p: nat, pp: nat): State
    requires p < |s.procs| && pp < |s.procs| && p != pp
  {
    var s1 := SetProc(s, pp, Woken(s.procs[pp], OnProc(pp)));
    SetProc(s1, p, s1.procs[p].(state := ZOMBIE, pc := ExitLeave(pp)))
  }

  lemma ZombieShape(s: State, c: nat, p: nat, op: Op, flag: bool)
    requires c < |s.cpus| && p < |s.procs| && s.procs[p].pc.ExitZombie? && s.procs[p].pc.pp < |s.procs|
    requires s.procs[p].pc.pp != p
    ensures DoNext(s, c, p, op, flag) == AfterZombie(s, p, s.procs[p].pc.pp)
  {
  }

  lemma ZombieLocks(s: State, p: nat, pp: nat)
    requires p < |s.procs| && (s.procs[p].pc == ExitZombie(pp) || s.procs[p].pc == ExitLeave(pp))
    ensures HeldBy(s, p) == {PLock(pp), PLock(p)}
  {
  }

  /** acquiresleep finds the lock free. */
  lemma TakeLockStep(s: State, c: nat, p: nat, op: Op, flag: bool)
    requires Inv(s) && c < |s.cpus| && s.cpus[c].on == Run(p) && p < |s.procs|
    requires s.procs[p].pc.AcqTest? && !Locked(s, s.procs[p].pc.l)
    ensures Inv(DoNext(s, c, p, op, flag))
  {
    var l := s.procs[p].pc.l;
    assert CpuOk(s, c);
    var s' := SetProc(s, p,
        s.procs[p].(held := s.procs[p].held + {l}, pc := AcqDone(l))).(locked := s.locked[l := true]);
    assert s' == DoNext(s, c, p, op, flag);
    TakeLockHeld(s, c, p, l);
    hide Inv, DoNext;
    TakeLockMove(s, s', c, p, l);
    MoveLocks(s, s', c, p, Same);
    MoveProcs(s, s', c, p, Same);
    MoveWake(s, s', c, p, Same);
    InvParts(s');
  }

  lemma InvParts(s: State)
    requires LockInv(s) && BusyUnique(s) && CurrentUnique(s) && ProcsOk(s) && HeldInv(s) && WakeInv(s)
    requires forall c :: 0 <= c < |s.cpus| ==> CpuOk(s, c)
    ensures Inv(s)
  {
    hide LockInv, BusyUnique, CurrentUnique, ProcsOk, HeldInv, WakeInv, CpuOk;
  }

  lemma TakeLockMove(s: State, s': State, c: nat, p: nat, l: nat)
    requires Inv(s) && c < |s.cpus| && s.cpus[c].on == Run(p) && p < |s.procs| && l < |s.locked|
    requires s.procs[p].pc == AcqTest(l)
    requires s' ==
        SetProc(s, p, s.procs[p].(held := s.procs[p].held + {l}, pc := AcqDone(l))).(locked := s.locked[l := true])
    ensures Move(s, s', c, p, Same)
  {
    hide WakeInv, HeldInv, LockInv;
    assert CpuOk(s, c);
  }

  lemma TakeLockHeld(s: State, c: nat, p: nat, l: nat)
    requires Inv(s) && p < |s.procs| && l < |s.locked| && !s.locked[l]
    ensures HeldInv(SetProc(s, p,
        s.procs[p].(held := s.procs[p].held + {l}, pc := AcqDone(l))).(locked := s.locked[l := true]))
  {
    hide WakeInv, LockInv, ProcsOk, BusyUnique, CpuOk;
    var s' := SetProc(s, p,
        s.procs[p].(held := s.procs[p].held + {l}, pc := AcqDone(l))).(locked := s.locked[l := true]);
    forall q: nat, k: nat | q < |s.procs| && k in s.procs[q].held ensures k != l { assert Locked(s, k); }
    forall q: nat, k: nat | q < |s'.procs| && k in s'.procs[q].held ensures Locked(s', k) {
      if k != l { assert k in s.procs[q].held && Locked(s, k); }
    }
  }

  /** releasesleep clears the lock and starts its wakeup. */
  lemma ClearStep(s: State, c: nat, p: nat, op: Op, flag: bool)
    requires Inv(s) && c < |s.cpus| && s.cpus[c].on == Run(p) && p < |s.procs| && s.procs[p].pc.RelClear?
    ensures Inv(DoNext(s, c, p, op, flag))
  {
    var l := s.procs[p].pc.l;
    assert CpuOk(s, c);
    var s' := SetProc(s, p,
        s.procs[p].(held := s.procs[p].held - {l}, pc := Wake(l, 0))).(locked := s.locked[l := false]);
    assert s' == DoNext(s, c, p, op, flag);
    assert l in s.procs[p].held;
    ClearHeld(s, c, p, l);
    hide Inv, DoNext;
    ClearMove(s, s', c, p, l);
    MoveLocks(s, s', c, p, Same);
    MoveProcs(s, s', c, p, Same);
    ClearWake(s, s', c, p, l);
    InvParts(s');
  }

  lemma ClearMove(s: State, s': State, c: nat, p: nat, l: nat)
    requires Inv(s) && c < |s.cpus| && s.cpus[c].on == Run(p) && p < |s.procs| && l < |s.locked|
    requires s.procs[p].pc == RelClear(l)
    requires s' ==
        SetProc(s, p, s.procs[p].(held := s.procs[p].held - {l}, pc := Wake(l, 0))).(locked := s.locked[l := false])
    ensures Move(s, s', c, p, Same)
  {
    hide WakeInv, HeldInv, LockInv;
    assert CpuOk(s, c);
  }

  lemma ClearHeld(s: State, c: nat, p: nat, l: nat)
    requires Inv(s) && p < |s.procs| && l < |s.locked| && l in s.procs[p].held
    ensures HeldInv(SetProc(s, p,
        s.procs[p].(held := s.procs[p].held - {l}, pc := Wake(l, 0))).(locked := s.locked[l := false]))
  {
    hide WakeInv, LockInv, ProcsOk, BusyUnique, CpuOk;
    var s' := SetProc(s, p,
        s.procs[p].(held := s.procs[p].held - {l}, pc := Wake(l, 0))).(locked := s.locked[l := false]);
    forall q: nat, k: nat | q < |s'.procs| && k in s'.procs[q].held ensures Locked(s', k) {
      assert k in s.procs[q].held && Locked(s, k);
      assert k != l;
    }
  }

  lemma ClearWake(s: State, s': State, c: nat, p: nat, l: nat)
    requires Inv(s) && Move(s, s', c, p, Same) && s.procs[p].pc == RelClear(l) && s'.procs[p].pc == Wake(l, 0)
    requires l < |s.locked| && s'.locked == s.locked[l := false]
    requires forall q :: 0 <= q < |s.procs| && q != p ==> s'.procs[q] == s.procs[q]
    ensures WakeInv(s')
  {
    hide HeldInv, LockInv, HeldBy, LockEffect, ProcsOk, CpuOk;
    forall q: nat, k: nat | q < |s'.procs| && Committed(s'.procs[q], k) ensures Locked(s', k) || Waking(s', k, q) {
      if k == l {
        assert s'.cpus[c].on.p < |s'.procs| && WakesFrom(s'.procs[s'.cpus[c].on.p].pc, l, q);
      } else {
        assert q != p;
        if !Locked(s, k) { WakingKept(s, s', c, p, Same, k, q); }
      }
    }
  }

  // ---------------------------------------------------------------- switches

  /** The places from which sched() is called, and what it leaves behind. */
  function Continuation(pc: Pc): Option<Saved> {
    match pc
    case YieldGo(back) => Some(AfterYield(back))
    case SleepGo(l) => Some(AfterSleep(l))
    case WaitGo => Some(AfterWait)
    case ExitGo => Some(Dead)
    case _ => None
  }

  /** Nothing but CPU c and process p changes, and p's lock-free view of the sleep-locks is the same. */
  ghost predicate CpuMove(s: State, s': State, c: nat, p: nat) {
    && c < |s.cpus| == |s'.cpus| && p < |s.procs| == |s'.procs|
    && s'.initproc == s.initproc && s'.locked == s.locked
    && (forall d :: 0 <= d < |s.cpus| && d != c ==> s'.cpus[d] == s.cpus[d])
    && (forall q :: 0 <= q < |s.procs| && q != p ==> s'.procs[q] == s.procs[q])
    && (forall d :: 0 <= d < |s.cpus| && d != c ==> Busy(s, d) != Some(p) || s'.procs[p] == s.procs[p])
    && s'.procs[p].held == s.procs[p].held && s'.procs[p].parent == s.procs[p].parent
    && (forall l: nat :: Committed(s'.procs[p], l) ==> Committed(s.procs[p], l))
    && (s.cpus[c].on.Run? ==> s.cpus[c].on.p == p && !s.procs[p].pc.Wake? && !s.procs[p].pc.WakeHold?)
  }

  /** Another CPU sees no difference. */
  lemma CpuElsewhere(s: State, s': State, c: nat, p: nat, d: nat)
    requires Inv(s) && CpuMove(s, s', c, p) && d < |s.cpus| && d != c
    ensures CpuOk(s', d) && HeldOn(s', d) == HeldOn(s, d) && Busy(s', d) == Busy(s, d)
  {
    hide WakeInv, HeldInv, ProcsOk, LockInv, HeldBy, PcOk;
    assert CpuOk(s, d);
    if Busy(s, d).Some? { SamePlace(s, s', Busy(s, d).value); SameLive(s, s', Busy(s, d).value); }
  }

  lemma SameLive(s: State, s': State, q: nat)
    requires q < |s.procs| == |s'.procs| && s'.procs[q] == s.procs[q] && |s'.locked| == |s.locked|
    ensures LiveOk(s', q) == LiveOk(s, q)
  {
    SamePcOk(s, s', q, s.procs[q].pc);
  }

  lemma SamePcOk(s: State, s': State, q: nat, pc: Pc)
    requires |s.procs| == |s'.procs| && |s'.locked| == |s.locked|
    ensures PcOk(s', q, pc) == PcOk(s, q, pc)
  {
  }

  lemma CpuWake(s: State, s': State, c: nat, p: nat)
    requires Inv(s) && CpuMove(s, s', c, p)
    ensures WakeInv(s') && HeldInv(s')
  {
    hide ProcsOk, LockInv, HeldBy, CpuOk;
    forall q: nat, l: nat | q < |s'.procs| && Committed(s'.procs[q], l) ensures Locked(s', l) || Waking(s', l, q) {
      assert Committed(s.procs[q], l);
      if !Locked(s, l) {
        var d :| 0 <= d < |s.cpus| && s.cpus[d].on.Run? && s.cpus[d].on.p < |s.procs|
            && WakesFrom(s.procs[s.cpus[d].on.p].pc, l, q);
        assert d != c && Busy(s, d) == Some(s.cpus[d].on.p);
        assert s'.procs[s.cpus[d].on.p] == s.procs[s.cpus[d].on.p];
        assert s'.cpus[d] == s.cpus[d];
      }
    }
    forall q: nat, l: nat | q < |s'.procs| && l in s'.procs[q].held ensures l in s.procs[q].held && Locked(s', l) {
      assert Locked(s, l);
    }
  }

  /** The invariant after a switch or a scheduler step, from what is particular to it. */
  lemma CpuInv(s: State, s': State, c: nat, p: nat)
    requires Inv(s) && CpuMove(s, s', c, p)
    requires CpuOk(s', c) && CurrentUnique(s')
    requires forall L :: L in s'.owner ==> s'.owner[L] < |s'.cpus|
    requires forall d: nat, L :: d < |s.cpus| && d != c ==> (Owns(s', d, L) <==> Owns(s, d, L))
    requires forall L :: Owns(s', c, L) <==> L in HeldOn(s', c)
    requires Busy(s', c).Some? ==> Busy(s', c) == Some(p) && forall d :: 0 <= d < |s.cpus| && d != c ==>
        Busy(s, d) != Some(p)
    requires Busy(s, c).Some? ==> Busy(s, c) == Some(p)
    requires Busy(s', c).None? && Idle(s', p) ==> SuspendedOk(s', p)
    ensures Inv(s')
  {
    hide HeldInv, WakeInv, HeldBy, PcOk;
    CpuWake(s, s', c, p);
    forall d | 0 <= d < |s.cpus| && d != c
      ensures CpuOk(s', d) && HeldOn(s', d) == HeldOn(s, d) && Busy(s', d) == Busy(s, d)
    {
      CpuElsewhere(s, s', c, p, d);
    }
    forall q | 0 <= q < |s'.procs| && Idle(s', q) ensures SuspendedOk(s', q) {
      if q != p {
        forall d | 0 <= d < |s.cpus| ensures Busy(s, d) != Some(q) { assert Busy(s', d) != Some(q); }
        assert SuspendedOk(s, q);
      }
    }
    forall d: nat, L | d < |s'.cpus| ensures Owns(s', d, L) <==> L in HeldOn(s', d) {
      assert Owns(s, d, L) <==> L in HeldOn(s, d);
    }
    InvParts(s');
  }

  lemma SwitchStep(s: State, c: nat, p: nat, op: Op, flag: bool)
    requires Inv(s) && c < |s.cpus| && s.cpus[c].on == Run(p) && p < |s.procs| && Continuation(s.procs[p].pc).Some?
    ensures Inv(DoNext(s, c, p, op, flag))
  {
    hide WakeInv, HeldInv;
    assert CpuOk(s, c);
    var s' := SwitchOut(s, c, p, Continuation(s.procs[p].pc).value);
    assert s' == DoNext(s, c, p, op, flag);
    assert Busy(s, c) == Some(p);
    assert HeldBy(s, p) == {PLock(p)};
    forall L ensures Owns(s', c, L) <==> L in HeldOn(s', c) { assert Owns(s, c, L) <==> L in HeldOn(s, c); }
    hide Inv, DoNext, HeldBy;
    CpuInv(s, s', c, p);
  }

  lemma CurrentStays(s: State, c: nat, spc: SchedPc)
    requires Inv(s) && c < |s.cpus| && s.cpus[c].on == Sched(spc) && spc.i < |s.procs|
    ensures CurrentUnique(DoSched(s, c, spc))
  {
    hide WakeInv, HeldInv, ProcsOk, HeldBy;
    var s', i := DoSched(s, c, spc), spc.i;
    assert CpuOk(s, c);
    if spc.Starting? {
      forall d: nat | d < |s.cpus| && d != c ensures s.cpus[d].proc != Some(i) {
        assert CpuOk(s, d);
        assert if c < d then Busy(s, c) != Busy(s, d) else Busy(s, d).None? || Busy(s, d) != Busy(s, c);
        assert Owns(s, c, PLock(i)) && !Owns(s, d, PLock(i));
      }
    }
  }

  lemma SchedStep(s: State, c: nat, spc: SchedPc)
    requires Inv(s) && c < |s.cpus| && s.cpus[c].on == Sched(spc) && spc.i < |s.procs|
    requires spc.Scan? ==> PLock(spc.i) !in s.owner
    ensures Inv(DoSched(s, c, spc))
  {
    hide WakeInv, HeldInv;
    var s', i := DoSched(s, c, spc), spc.i;
    assert CpuOk(s, c);
    forall L ensures Owns(s', c, L) <==> L in HeldOn(s', c) { assert Owns(s, c, L) <==> L in HeldOn(s, c); }
    forall d: nat, L | d < |s.cpus| && d != c ensures Owns(s', d, L) <==> Owns(s, d, L) {
      assert Owns(s, c, PLock(i)) <==> PLock(i) in HeldOn(s, c);
    }
    if spc.Picked? && s.procs[i].state == RUNNABLE {
      forall d | 0 <= d < |s.cpus| && d != c ensures Busy(s, d) != Some(i) {
        if Busy(s, d) == Some(i) { LockedOut(s, c, d, i); }
      }
      assert Idle(s, i) && SuspendedOk(s, i);
    }
    if Busy(s, c).Some? {
      forall d | 0 <= d < |s.cpus| && d != c ensures Busy(s, d) != Some(i) {
        assert if c < d then Busy(s, c) != Busy(s, d) else Busy(s, d).None? || Busy(s, d) != Busy(s, c);
      }
    } else if Busy(s', c).None? && Idle(s', i) {
      forall d | 0 <= d < |s.cpus| ensures Busy(s, d) != Some(i) { assert Busy(s', d) != Some(i); }
      assert SuspendedOk(s, i);
    }
    CurrentStays(s, c, spc);
    hide Inv, HeldBy, CurrentUnique;
    CpuInv(s, s', c, i);
  }

  /** A timer interrupt at a kernel point where no lock is held. */
  lemma PreemptStep(s: State, c: nat, p: nat)
    requires Inv(s) && c < |s.cpus| && s.cpus[c].on == Run(p) && p < |s.procs| && Preemptible(s.procs[p].pc)
    ensures Inv(Goto(s, p, YieldWant(s.procs[p].pc)))
  {
    hide WakeInv, HeldInv, LockInv, Move, ProcsOk, BusyUnique, CurrentUnique;
    PreemptMove(s, c, p);
    MoveInv(s, Goto(s, p, YieldWant(s.procs[p].pc)), c, p, Same);
  }

  lemma PreemptMove(s: State, c: nat, p: nat)
    requires Inv(s) && c < |s.cpus| && s.cpus[c].on == Run(p) && p < |s.procs| && Preemptible(s.procs[p].pc)
    ensures Move(s, Goto(s, p, YieldWant(s.procs[p].pc)), c, p, Same)
  {
    hide WakeInv, HeldInv, LockInv, BusyUnique, CurrentUnique;
    assert CpuOk(s, c);
  }

  // ---------------------------------------------------------------- all runs

  /** Every step of an executing process is one of the kinds above. */
  lemma Classified(s: State, c: nat, p: nat, flag: bool)
    requires Inv(s) && c < |s.cpus| && s.cpus[c].on == Run(p) && p < |s.procs|
    ensures || Wants(s, c).Some? || IsLocal(s, p) || IsRelease(s, p, flag) || IsRemote(s, p, flag)
            || s.procs[p].pc.ExitZombie? || s.procs[p].pc.AcqTest? || s.procs[p].pc.RelClear?
            || Continuation(s.procs[p].pc).Some? || (s.procs[p].pc.ExitSelf? && s.procs[p].parent.None?)
  {
    hide WakeInv, HeldInv, LockInv, HeldBy;
    assert CpuOk(s, c);
  }

  lemma StepInv(s: State, a: Action)
    requires Inv(s) && Enabled(s, a)
    ensures Inv(Do(s, a))
  {
    var c := a.c;
    if s.cpus[c].on.Sched? {
      SchedStep(s, c, s.cpus[c].on.spc);
    } else {
      var p := s.cpus[c].on.p;
      Classified(s, c, p, a.flag);
      hide Inv, DoNext, IsLocal, IsRelease, IsRemote, Wants, Preempts;
      if Preempts(a.op, s.procs[p].pc) { PreemptStep(s, c, p); }
      else if Wants(s, c).Some? { AcquireStep(s, c, p, a.op, a.flag); }
      else if IsLocal(s, p) { LocalStep(s, c, p, a.op, a.flag); }
      else if IsRelease(s, p, a.flag) { ReleaseStep(s, c, p, a.op, a.flag); }
      else if IsRemote(s, p, a.flag) { RemoteStep(s, c, p, a.op, a.flag); }
      else if s.procs[p].pc.ExitZombie? { ZombieStep(s, c, p, a.op, a.flag); }
      else if s.procs[p].pc.AcqTest? { NotLocal(s, p); TakeLockStep(s, c, p, a.op, a.flag); }
      else if s.procs[p].pc.RelClear? { ClearStep(s, c, p, a.op, a.flag); }
      else if Continuation(s.procs[p].pc).Some? { SwitchStep(s, c, p, a.op, a.flag); }
      else { ExitSelfStuck(s, c, p, a.op, a.flag); }
    }
  }

  lemma NotLocal(s: State, p: nat)
    requires p < |s.procs| && s.procs[p].pc.AcqTest? && !IsLocal(s, p)
    ensures !Locked(s, s.procs[p].pc.l)
  {
  }

  lemma ExitSelfStuck(s: State, c: nat, p: nat, op: Op, flag: bool)
    requires c < |s.cpus| && p < |s.procs| && s.procs[p].pc.ExitSelf? && s.procs[p].parent.None?
    ensures DoNext(s, c, p, op, flag) == s
  {
  }

  lemma InitInv(s: State)
    requires Booted(s)
    ensures Inv(s)
  {
    forall c | 0 <= c < |s.cpus| ensures CpuOk(s, c) {}
    forall p | 0 <= p < |s.procs| ensures SuspendedOk(s, p) {}
  }

  lemma {:induction false} RunInv(s: State, acts: seq<Action>)
    requires Inv(s) && ValidRun(s, acts)
    ensures Inv(Path(s, acts))
    decreases |acts|
  {
    if |acts| > 0 {
      StepInv(s, acts[0]);
      RunInv(Do(s, acts[0]), acts[1..]);
    }
  }

  /** At most one process is between acquiresleep and releasesleep on a lock. */
  lemma MutualExclusion(s0: State, acts: seq<Action>, p: nat, q: nat, l: nat)
    requires Booted(s0) && ValidRun(s0, acts)
    requires var s := Path(s0, acts);
             p < |s.procs| && q < |s.procs| && l in s.procs[p].held && l in s.procs[q].held
    ensures p == q && Locked(Path(s0, acts), l)
  {
    InitInv(s0);
    RunInv(s0, acts);
  }

  /**
   No lost wakeup: whenever a sleep-lock is free and its spin-lock is not held, so that no
   releasesleep is under way, no process is asleep on it.
   */
  lemma NoLostWakeup(s0: State, acts: seq<Action>, p: nat, l: nat)
    requires Booted(s0) && ValidRun(s0, acts)
    requires var s := Path(s0, acts); p < |s.procs| && !Locked(s, l) && LK(l) !in s.owner
    ensures var r := Path(s0, acts).procs[p]; !(r.state == SLEEPING && r.chan == OnLock(l))
  {
    InitInv(s0);
    RunInv(s0, acts);
    NobodyWaking(Path(s0, acts), l, p);
  }

  lemma NobodyWaking(s: State, l: nat, p: nat)
    requires Inv(s) && LK(l) !in s.owner
    ensures !Waking(s, l, p)
  {
    hide WakeInv, HeldInv, ProcsOk, CpuOk;
    forall c | 0 <= c < |s.cpus| && s.cpus[c].on.Run? && s.cpus[c].on.p < |s.procs|
      ensures !WakesFrom(s.procs[s.cpus[c].on.p].pc, l, p)
    {
      assert Owns(s, c, LK(l)) <==> LK(l) in HeldOn(s, c);
    }
  }

  /**
   Scheduler exclusivity: no process is current on two CPUs, and a process whose lock is free is
   RUNNING if and only if it is current on a CPU, which is then executing it.
   */
  lemma Exclusivity(s0: State, acts: seq<Action>, p: nat)
    requires Booted(s0) && ValidRun(s0, acts) && p < |Path(s0, acts).procs|
    ensures var s := Path(s0, acts);
            && (forall c: nat, d: nat ::
                  c < |s.cpus| && d < |s.cpus| && s.cpus[c].proc == s.cpus[d].proc == Some(p) ==> c == d)
            && (PLock(p) !in s.owner ==>
                  (s.procs[p].state == RUNNING <==>
                      exists c :: 0 <= c < |s.cpus| && s.cpus[c].proc == Some(p) && s.cpus[c].on == Run(p)))
            && (PLock(p) !in s.owner ==> forall c :: 0 <= c < |s.cpus| && s.cpus[c].proc == Some(p) ==>
                s.cpus[c].on == Run(p))
  {
    InitInv(s0);
    RunInv(s0, acts);
    hide WakeInv, HeldInv;
    if PLock(p) !in Path(s0, acts).owner { CurrentMeansRunning(Path(s0, acts), p); }
  }

  lemma CurrentMeansRunning(s: State, p: nat)
    requires Inv(s) && p < |s.procs| && PLock(p) !in s.owner
    ensures s.procs[p].state == RUNNING <==>
        exists c :: 0 <= c < |s.cpus| && s.cpus[c].proc == Some(p) && s.cpus[c].on == Run(p)
    ensures forall c :: 0 <= c < |s.cpus| && s.cpus[c].proc == Some(p) ==> s.cpus[c].on == Run(p)
  {
    hide WakeInv, HeldInv, HeldBy, PcOk;
    forall c: nat | c < |s.cpus| ensures PLock(p) !in HeldOn(s, c) {
      assert Owns(s, c, PLock(p)) <==> PLock(p) in HeldOn(s, c);
    }
    forall c | 0 <= c < |s.cpus| && s.cpus[c].proc == Some(p)
      ensures s.cpus[c].on == Run(p) && s.procs[p].state == RUNNING
    {
      assert CpuOk(s, c);
      assert PLock(p) !in HeldOn(s, c);
      StateWithoutLock(s, p);
    }
    if s.procs[p].state == RUNNING {
      assert Idle(s, p) ==> SuspendedOk(s, p);
      var c :| 0 <= c < |s.cpus| && Busy(s, c) == Some(p);
      assert CpuOk(s, c);
      assert PLock(p) !in HeldOn(s, c);
    }
  }

  /**
   A ZOMBIE that wait() finds under its lock is executing on no CPU and will never run again, so
   freeproc does not free a stack in use.
   */
  lemma ZombieIsOff(s0: State, acts: seq<Action>, c: nat, w: nat, i: nat)
    requires Booted(s0) && ValidRun(s0, acts)
    requires var s := Path(s0, acts);
             && c < |s.cpus| && s.cpus[c].on == Run(w) && w < |s.procs| && s.procs[w].pc == WaitHold(i)
             && i < |s.procs| && s.procs[i].state == ZOMBIE
    ensures var s := Path(s0, acts);
            && (forall d :: 0 <= d < |s.cpus| ==> s.cpus[d].on != Run(i) && s.cpus[d].proc != Some(i))
            && s.procs[i].pc == Resume(Dead)
  {
    InitInv(s0);
    RunInv(s0, acts);
    ZombieFound(Path(s0, acts), c, w, i);
  }

  lemma ZombieFound(s: State, c: nat, w: nat, i: nat)
    requires Inv(s) && c < |s.cpus| && s.cpus[c].on == Run(w) && w < |s.procs| && s.procs[w].pc == WaitHold(i)
    requires i < |s.procs| && s.procs[i].state == ZOMBIE
    ensures forall d :: 0 <= d < |s.cpus| ==> s.cpus[d].on != Run(i) && s.cpus[d].proc != Some(i)
    ensures s.procs[i].pc == Resume(Dead)
  {
    hide WakeInv, HeldInv;
    assert CpuOk(s, c);
    assert PLock(i) in HeldOn(s, c);
    forall d: nat | d < |s.cpus| ensures s.cpus[d].on != Run(i) && s.cpus[d].proc != Some(i) && Busy(s, d) != Some(i) {
      if d != c {
        assert CpuOk(s, d);
        if Busy(s, d) == Some(i) { LockedOut(s, c, d, i); }
        assert Owns(s, c, PLock(i)) && !Owns(s, d, PLock(i));
      }
    }
    assert Idle(s, i);
    assert SuspendedOk(s, i);
  }

  /**
   What sched() checks before it switches: p->lock is held, it is the only lock this CPU holds,
   and the state is no longer RUNNING.
   */
  lemma SchedChecks(s0: State, acts: seq<Action>, c: nat, p: nat)
    requires Booted(s0) && ValidRun(s0, acts)
    requires var s := Path(s0, acts);
             c < |s.cpus| && s.cpus[c].on == Run(p) && p < |s.procs| && Continuation(s.procs[p].pc).Some?
    ensures var s := Path(s0, acts);
            (forall L :: Owns(s, c, L) <==> L == PLock(p)) && s.procs[p].state != RUNNING
  {
    InitInv(s0);
    RunInv(s0, acts);
    var s := Path(s0, acts);
    assert CpuOk(s, c);
    assert HeldOn(s, c) == {PLock(p)};
    forall L ensures Owns(s, c, L) <==> L == PLock(p) { assert Owns(s, c, L) <==> L in HeldOn(s, c); }
  }

  // ---------------------------------------------------------------- wait and exit

  /** The parent an exiting process has looked up. */
  function ExitParent(pc: Pc): Option<nat> {
    match pc
    case ExitParentWant(pp) => Some(pp)
    case ExitOwnWant(pp) => Some(pp)
    case ExitRep(pp, _) => Some(pp)
    case ExitRepWant(pp, _) => Some(pp)
    case ExitRepHold(pp, _) => Some(pp)
    case ExitZombie(pp) => Some(pp)
    case YieldWant(ExitParentWant(pp)) => Some(pp)
    case YieldSet(ExitParentWant(pp)) => Some(pp)
    case YieldGo(ExitParentWant(pp)) => Some(pp)
    case Resume(AfterYield(ExitParentWant(pp))) => Some(pp)
    case _ => None
  }

  /** p, in wait, has looked at process i and will not look again before it sleeps, or is asleep. */
  predicate Passed(p: nat, r: Proc, i: nat) {
    || ((r.pc.WaitScan? || r.pc.WaitLock? || r.pc.WaitHold?) && i < r.pc.i)
    || r.pc.WaitChan? || r.pc.WaitState? || r.pc.WaitGo?
    || (r.state == SLEEPING && r.chan == OnProc(p))
  }

  /** An exiting process has the right parent in hand, unless it was given to init; adopted ones are init's. */
  predicate ExitOk(r: Proc, initproc: nat) {
    && (ExitParent(r.pc).Some? && !r.adopted ==> r.parent == ExitParent(r.pc))
    && (r.adopted ==> r.parent == Some(initproc))
  }

  /** i is a child of p that p could reap and that was not given to it by another. */
  predicate OwnZombie(r: Proc, p: nat) { r.parent == Some(p) && r.state == ZOMBIE && !r.adopted }

  ghost predicate KidsInv(s: State) {
    && (forall i :: 0 <= i < |s.procs| ==> ExitOk(s.procs[i], s.initproc))
    && (forall p: nat, i: nat :: p < |s.procs| && i < |s.procs| && OwnZombie(s.procs[i], p) ==>
        !Passed(p, s.procs[p], i))
  }

  /** A change of a record that makes no zombie and no wrong parent. */
  ghost predicate Calm(r: Proc, r': Proc, initproc: nat) {
    && ExitOk(r', initproc)
    && (forall p: nat :: OwnZombie(r', p) ==> OwnZombie(r, p))
  }

  /** p passes no zombie child of its own. */
  ghost predicate NoneMissed(s: State, s': State, p: nat)
    requires p < |s.procs| == |s'.procs|
  {
    forall i: nat :: i < |s.procs| && Passed(p, s'.procs[p], i) ==>
        Passed(p, s.procs[p], i) || !OwnZombie(s.procs[i], p)
  }

  lemma KidsCalm(s: State, s': State)
    requires KidsInv(s) && |s'.procs| == |s.procs| && s'.initproc == s.initproc
    requires forall q :: 0 <= q < |s.procs| ==> Calm(s.procs[q], s'.procs[q], s.initproc)
    requires forall q: nat :: q < |s.procs| ==> NoneMissed(s, s', q)
    ensures KidsInv(s')
  {
    hide ExitOk, OwnZombie, Passed;
    forall p: nat, i: nat | p < |s'.procs| && i < |s'.procs| && OwnZombie(s'.procs[i], p)
      ensures !Passed(p, s'.procs[p], i)
    {
      assert Calm(s.procs[i], s'.procs[i], s.initproc);
      assert OwnZombie(s.procs[i], p) && NoneMissed(s, s', p);
    }
  }

  lemma CalmSame(s: State, s': State, q: nat)
    requires KidsInv(s) && q < |s.procs| == |s'.procs| && s'.procs[q] == s.procs[q]
    ensures Calm(s.procs[q], s'.procs[q], s.initproc) && NoneMissed(s, s', q)
  {
    hide ExitOk, OwnZombie, Passed;
  }

  /** Only p changes. */
  lemma KidsOne(s: State, s': State, p: nat)
    requires KidsInv(s) && p < |s.procs| == |s'.procs| && s'.initproc == s.initproc
    requires forall q :: 0 <= q < |s.procs| && q != p ==> s'.procs[q] == s.procs[q]
    requires Calm(s.procs[p], s'.procs[p], s.initproc) && NoneMissed(s, s', p)
    ensures KidsInv(s')
  {
    hide Calm, NoneMissed, KidsInv;
    forall q: nat | q < |s.procs| ensures Calm(s.procs[q], s'.procs[q], s.initproc) && NoneMissed(s, s', q) {
      if q != p { CalmSame(s, s', q); }
    }
    KidsCalm(s, s');
  }

  /** A change of p's place only. */
  predicate PlaceCalm(s: State, p: nat, pc': Pc)
    requires p < |s.procs|
  {
    var r := s.procs[p];
    && (ExitParent(pc').Some? ==> ExitParent(pc') == ExitParent(r.pc) || ExitParent(pc') == r.parent)
    && (forall i: nat :: i < |s.procs| && Passed(p, r.(pc := pc'), i) ==> Passed(p, r, i) || !OwnZombie(s.procs[i], p))
  }

  lemma KidsGoto(s: State, s': State, p: nat, pc': Pc)
    requires KidsInv(s) && p < |s.procs| && PlaceCalm(s, p, pc') && s'.initproc == s.initproc
    requires s'.procs == Goto(s, p, pc').procs
    ensures KidsInv(s')
  {
    hide Passed, ExitParent;
    assert ExitOk(s.procs[p], s.initproc);
    KidsOne(s, s', p);
  }

  lemma AcquireCalm(s: State, c: nat, p: nat)
    requires c < |s.cpus| && s.cpus[c].on == Run(p) && p < |s.procs| && Wants(s, c).Some?
    ensures PlaceCalm(s, p, Acquired(s.procs[p].pc))
  {
    hide OwnZombie;
  }

  lemma ReleaseCalm(s: State, p: nat, flag: bool)
    requires p < |s.procs| && IsRelease(s, p, flag)
    requires s.procs[p].pc.Resume? ==> CanRun(s.procs[p], |s.locked|, |s.procs|)
    ensures PlaceCalm(s, p, Released(s, p).1)
  {
  }

  lemma LocalCalm(s: State, p: nat, op: Op)
    requires KidsInv(s) && p < |s.procs| && IsLocal(s, p) && LiveOk(s, p)
    requires s.procs[p].pc.Resume? ==> CanRun(s.procs[p], |s.locked|, |s.procs|)
    ensures var s' := SetProc(s, p, LocalProc(s, p, op));
            Calm(s.procs[p], s'.procs[p], s.initproc) && NoneMissed(s, s', p)
  {
    hide KidsInv, PcOk, OwnZombie, BackOk, LocalProc, Passed, IsLocal;
    assert ExitOk(s.procs[p], s.initproc) by { KidsAt(s, p); }
    LocalRecord(s, p, op);
    LocalPassed(s, p, op);
    OwnZombieState(s.procs[p], LocalProc(s, p, op));
  }

  lemma KidsAt(s: State, i: nat)
    requires KidsInv(s) && i < |s.procs|
    ensures ExitOk(s.procs[i], s.initproc)
  {
  }

  lemma OwnZombieState(r: Proc, r': Proc)
    requires r'.state != ZOMBIE || (r'.state == r.state && r'.parent == r.parent && r'.adopted == r.adopted)
    ensures forall p: nat :: OwnZombie(r', p) ==> OwnZombie(r, p)
  {
  }

  lemma LocalRecord(s: State, p: nat, op: Op)
    requires p < |s.procs| && IsLocal(s, p) && LiveOk(s, p)
    ensures var r, r' := s.procs[p], LocalProc(s, p, op);
            && r'.parent == r.parent && r'.adopted == r.adopted && (r'.state == ZOMBIE ==> r.state == ZOMBIE)
            && (ExitParent(r'.pc).Some? ==> ExitParent(r'.pc) == ExitParent(r.pc))
  {
  }

  lemma LocalPassed(s: State, p: nat, op: Op)
    requires p < |s.procs| && IsLocal(s, p) && LiveOk(s, p)
    ensures forall i: nat :: i < |s.procs| && Passed(p, LocalProc(s, p, op), i) ==>
              Passed(p, s.procs[p], i) || !OwnZombie(s.procs[i], p)
  {
    hide PcOk, BackOk;
  }

  lemma KidsLocal(s: State, c: nat, p: nat, op: Op, flag: bool)
    requires Inv(s) && KidsInv(s) && c < |s.cpus| && s.cpus[c].on == Run(p) && p < |s.procs| && IsLocal(s, p)
    ensures KidsInv(DoNext(s, c, p, op, flag))
  {
    assert CpuOk(s, c);
    hide Inv, KidsInv, DoNext, IsLocal, LocalProc, Calm, NoneMissed;
    LocalShape(s, c, p, op, flag);
    LocalCalm(s, p, op);
    KidsOne(s, SetProc(s, p, LocalProc(s, p, op)), p);
  }

  /** Another process changes under its lock, and p moves on. */
  lemma RemoteCalm(s: State, p: nat, flag: bool)
    requires KidsInv(s) && p < |s.procs| && IsRemote(s, p, flag) && s.initproc < |s.procs|
    requires s.procs[p].pc.WaitHold? ==> ExitParent(s.procs[s.procs[p].pc.i].pc).None?
    ensures var m := RemoteOf(s, p, flag);
            && m.q < |s.procs| && Calm(s.procs[m.q], m.r, s.initproc)
            && (ExitParent(m.pc).Some? ==> ExitParent(m.pc) == ExitParent(s.procs[p].pc) && m.r.pc == s.procs[m.q].pc)
            && (forall i: nat :: Passed(m.q, m.r, i) ==> Passed(m.q, s.procs[m.q], i))
            && (forall r: Proc, i: nat :: Passed(p, r.(pc := m.pc), i) ==> Passed(p, r, i))
  {
    var m := RemoteOf(s, p, flag);
    assert m.q < |s.procs| && ExitOk(s.procs[m.q], s.initproc) by { KidsAt(s, m.q); }
  }

  lemma KidsRemote(s: State, c: nat, p: nat, op: Op, flag: bool)
    requires Inv(s) && KidsInv(s) && c < |s.cpus| && s.cpus[c].on == Run(p) && p < |s.procs| && IsRemote(s, p, flag)
    ensures KidsInv(DoNext(s, c, p, op, flag))
  {
    RemoteZombie(s, c, p, flag);
    hide DoNext, IsRemote, RemoteOf, Calm, KidsInv, Passed, ExitParent, WakeInv, HeldInv, LockInv;
    RemoteShape(s, c, p, op, flag);
    RemoteCalm(s, p, flag);
    var m := RemoteOf(s, p, flag);
    var s1 := SetProc(s, m.q, m.r);
    KidsOne(s, s1, m.q);
    var s2 := if m.e.Minus? then Drop(s1, m.e.L) else s1;
    KidsGoto(s1, Goto(s2, p, m.pc), p, m.pc);
  }

  lemma RemoteZombie(s: State, c: nat, p: nat, flag: bool)
    requires Inv(s) && c < |s.cpus| && s.cpus[c].on == Run(p) && p < |s.procs| && IsRemote(s, p, flag)
    ensures s.procs[p].pc.WaitHold? ==> ExitParent(s.procs[s.procs[p].pc.i].pc).None?
  {
    hide Inv;
    if s.procs[p].pc.WaitHold? { ZombieFound(s, c, p, s.procs[p].pc.i); }
  }

  /** The holder of a parent's lock keeps it out of wait; asleep there, it is woken. */
  lemma ParentAwake(s: State, c: nat, p: nat, pp: nat, i: nat)
    requires Inv(s) && c < |s.cpus| && s.cpus[c].on == Run(p) && p < |s.procs| && s.procs[p].pc == ExitZombie(pp)
    ensures pp < |s.procs| && pp != p && !Passed(pp, Woken(s.procs[pp], OnProc(pp)), i)
  {
    hide WakeInv, HeldInv;
    assert CpuOk(s, c);
    ZombieLocks(s, p, pp);
    if Idle(s, pp) {
      assert SuspendedOk(s, pp);
    } else {
      var d :| 0 <= d < |s.cpus| && Busy(s, d) == Some(pp);
      LockedOut(s, c, d, pp);
    }
  }

  lemma KidsZombie(s: State, c: nat, p: nat, op: Op, flag: bool)
    requires Inv(s) && KidsInv(s) && c < |s.cpus| && s.cpus[c].on == Run(p) && p < |s.procs|
    requires s.procs[p].pc.ExitZombie?
    ensures KidsInv(DoNext(s, c, p, op, flag))
  {
    var pp := s.procs[p].pc.pp;
    ParentAwake(s, c, p, pp, p);
    ZombieShape(s, c, p, op, flag);
    hide Inv, DoNext;
    var s' := AfterZombie(s, p, pp);
    assert ExitOk(s.procs[p], s.initproc) && ExitOk(s.procs[pp], s.initproc);
    forall q: nat, i: nat | q < |s'.procs| && i < |s'.procs| && OwnZombie(s'.procs[i], q)
      ensures !Passed(q, s'.procs[q], i)
    {
      if i != p { assert OwnZombie(s.procs[i], q) && !Passed(q, s.procs[q], i); }
    }
  }

  lemma KidsSched(s: State, c: nat, spc: SchedPc)
    requires KidsInv(s) && c < |s.cpus| && spc.i < |s.procs|
    ensures KidsInv(DoSched(s, c, spc))
  {
    assert ExitOk(s.procs[spc.i], s.initproc);
    KidsOne(s, DoSched(s, c, spc), spc.i);
  }

  /** p only moves on, and may change what it holds. */
  lemma KidsHeld(s: State, s': State, p: nat, held: set<nat>, pc': Pc)
    requires KidsInv(s) && p < |s.procs| && s'.initproc == s.initproc
    requires ExitParent(pc').None? && !pc'.WaitScan? && !pc'.WaitLock? && !pc'.WaitHold? && !pc'.WaitChan?
    requires !pc'.WaitState? && !pc'.WaitGo?
    requires s'.procs == s.procs[p := s.procs[p].(held := held, pc := pc')]
    ensures KidsInv(s')
  {
    hide ExitParent;
    assert ExitOk(s.procs[p], s.initproc);
    KidsOne(s, s', p);
  }

  lemma KidsPreempt(s: State, p: nat)
    requires KidsInv(s) && p < |s.procs| && Preemptible(s.procs[p].pc)
    ensures KidsInv(Goto(s, p, YieldWant(s.procs[p].pc)))
  {
    hide KidsInv, OwnZombie;
    KidsGoto(s, Goto(s, p, YieldWant(s.procs[p].pc)), p, YieldWant(s.procs[p].pc));
  }

  lemma KidsSwitch(s: State, c: nat, p: nat, op: Op, flag: bool)
    requires KidsInv(s) && c < |s.cpus| && p < |s.procs| && Continuation(s.procs[p].pc).Some?
    ensures KidsInv(DoNext(s, c, p, op, flag))
  {
    hide KidsInv, OwnZombie;
    var k := Continuation(s.procs[p].pc).value;
    KidsGoto(s, SwitchOut(s, c, p, k), p, Resume(k));
  }

  lemma KidsStep(s: State, a: Action)
    requires Inv(s) && KidsInv(s) && Enabled(s, a)
    ensures KidsInv(Do(s, a))
  {
    var c := a.c;
    if s.cpus[c].on.Sched? {
      KidsSched(s, c, s.cpus[c].on.spc);
    } else {
      var p := s.cpus[c].on.p;
      KidsNext(s, a, c, p);
    }
  }

  lemma KidsNext(s: State, a: Action, c: nat, p: nat)
    requires Inv(s) && KidsInv(s) && c < |s.cpus| && s.cpus[c].on == Run(p) && p < |s.procs|
    ensures KidsInv(DoProc(s, c, p, a.op, a.flag))
  {
    assert CpuOk(s, c);
    Classified(s, c, p, a.flag);
    hide Inv, KidsInv, DoNext, IsLocal, IsRelease, IsRemote, Wants, Released, Acquired, PlaceCalm, ExitParent;
    var r := s.procs[p];
    if Preempts(a.op, r.pc) {
      KidsPreempt(s, p);
    } else if Wants(s, c).Some? {
      AcquireShape(s, c, p, a.op, a.flag);
      AcquireCalm(s, c, p);
      KidsGoto(s, DoNext(s, c, p, a.op, a.flag), p, Acquired(r.pc));
    } else if IsLocal(s, p) {
      KidsLocal(s, c, p, a.op, a.flag);
    } else if IsRelease(s, p, a.flag) {
      ReleaseShape(s, c, p, a.op, a.flag);
      ReleaseCalm(s, p, a.flag);
      KidsGoto(s, DoNext(s, c, p, a.op, a.flag), p, Released(s, p).1);
    } else if IsRemote(s, p, a.flag) {
      KidsRemote(s, c, p, a.op, a.flag);
    } else if r.pc.ExitZombie? {
      KidsZombie(s, c, p, a.op, a.flag);
    } else if Continuation(r.pc).Some? {
      KidsSwitch(s, c, p, a.op, a.flag);
    } else {
      KidsOther(s, c, p, a.op, a.flag);
    }
  }

  lemma KidsOther(s: State, c: nat, p: nat, op: Op, flag: bool)
    requires KidsInv(s) && c < |s.cpus| && p < |s.procs| && LiveOk(s, p)
    requires s.procs[p].pc.AcqTest? || s.procs[p].pc.RelClear? || (s.procs[p].pc.ExitSelf? && s.procs[p].parent.None?)
    ensures KidsInv(DoNext(s, c, p, op, flag))
  {
    hide KidsInv;
    var s' := DoNext(s, c, p, op, flag);
    if !s.procs[p].pc.ExitSelf? { KidsHeld(s, s', p, s'.procs[p].held, s'.procs[p].pc); }
  }

  lemma {:induction false} KidsRun(s: State, acts: seq<Action>)
    requires Inv(s) && KidsInv(s) && ValidRun(s, acts)
    ensures KidsInv(Path(s, acts))
    decreases |acts|
  {
    hide Inv, KidsInv;
    if |acts| > 0 {
      StepInv(s, acts[0]);
      KidsStep(s, acts[0]);
      KidsRun(Do(s, acts[0]), acts[1..]);
    }
  }

  /**
   No exit is missed: a parent asleep in wait has no ZOMBIE child, except init, which can have one
   that an exiting parent gave to it.
   */
  lemma WaitMissesOnlyAdopted(s0: State, acts: seq<Action>, p: nat, i: nat)
    requires Booted(s0) && ValidRun(s0, acts)
    requires var s := Path(s0, acts);
             && p < |s.procs| && i < |s.procs| && s.procs[p].state == SLEEPING && s.procs[p].chan == OnProc(p)
             && s.procs[i].parent == Some(p) && s.procs[i].state == ZOMBIE
    ensures p == Path(s0, acts).initproc && Path(s0, acts).procs[i].adopted
  {
    InitInv(s0);
    KidsRun(s0, acts);
    hide Inv;
    var s := Path(s0, acts);
    assert ExitOk(s.procs[i], s.initproc);
    assert Passed(p, s.procs[p], i);
  }
}
