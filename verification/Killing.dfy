/**
 kill and the states of a process (kernel/proc/proc.c): a killed process never stays asleep in
 wait, stays killed until it is freed, and every process goes through its states only by the
 steps meant for them.
 */
module Killing {
  import opened Common
  import opened Scheduler

  // ---------------------------------------------------------------- what a step does to each process

  /** The process that takes the step, if it is not the scheduler or a timer interrupt. */
  function Actor(s: State, a: Action): Option<nat>
    requires Enabled(s, a)
  {
    if s.cpus[a.c].on.Sched? || Interrupted(s, a) then None else Some(s.cpus[a.c].on.p)
  }

  predicate ActsAt(s: State, a: Action, pc: Pc)
    requires Enabled(s, a)
  {
    Actor(s, a).Some? && s.procs[Actor(s, a).value].pc == pc
  }

  /** kill finds process q. */
  predicate Kills(s: State, a: Action, q: nat)
    requires Enabled(s, a)
  {
    ActsAt(s, a, KillHold(q)) && a.flag
  }

  /** fork takes the slot q. */
  predicate Forks(s: State, a: Action, q: nat)
    requires Enabled(s, a) && q < |s.procs|
  {
    ActsAt(s, a, ForkHold(q)) && s.procs[q].state == UNUSED && !a.flag
  }

  /** wait frees process q. */
  predicate Reaps(s: State, a: Action, q: nat)
    requires Enabled(s, a) && q < |s.procs|
  {
    ActsAt(s, a, WaitHold(q)) && s.procs[q].state == ZOMBIE && !a.flag
  }

  /** Someone calls wakeup on what q sleeps on, or kills it. */
  predicate Wakes(s: State, a: Action, q: nat)
    requires Enabled(s, a) && q < |s.procs|
  {
    && s.procs[q].state == SLEEPING
    && match s.procs[q].chan
       case Nothing => Kills(s, a, q)
       case OnLock(l) => Kills(s, a, q) || ActsAt(s, a, WakeHold(l, q))
       case OnProc(x) =>
           Kills(s, a, q) || (x == q && (ActsAt(s, a, ExitZombie(q)) || (ActsAt(s, a, ExitInit) && q == s.initproc)))
  }

  /** The state the actor gives itself. */
  function OwnState(r: Proc): ProcState {
    match r.pc
    case YieldSet(_) => RUNNABLE
    case SleepState(_) => SLEEPING
    case WaitState => SLEEPING
    case ExitZombie(_) => ZOMBIE
    case _ => r.state
  }

  /** The state that process q has after the step. */
  function NextState(s: State, a: Action, q: nat): ProcState
    requires Enabled(s, a) && q < |s.procs|
  {
    var r := s.procs[q];
    if Forks(s, a, q) || Wakes(s, a, q) then RUNNABLE
    else if Reaps(s, a, q) then UNUSED
    else if s.cpus[a.c].on == Sched(Picked(q)) && r.state == RUNNABLE then RUNNING
    else if Actor(s, a) == Some(q) then OwnState(r)
    else r.state
  }

  predicate Untouched(s: State, a: Action, q: nat)
    requires Enabled(s, a) && q < |s.procs|
  {
    !Kills(s, a, q) && !Forks(s, a, q) && !Reaps(s, a, q) && !Wakes(s, a, q) && !GivesAway(s, a, q)
  }

  /** Whether process q is killed after the step. */
  predicate NextKilled(s: State, a: Action, q: nat)
    requires Enabled(s, a) && q < |s.procs|
  {
    Kills(s, a, q) || (s.procs[q].killed && !Reaps(s, a, q))
  }

  /** An exiting process gives its child q to init. */
  predicate GivesAway(s: State, a: Action, q: nat)
    requires Enabled(s, a)
  {
    && Actor(s, a).Some?
    && s.procs[Actor(s, a).value].pc.ExitRepHold? && s.procs[Actor(s, a).value].pc.i == q
  }

  /** Process q's parent after the step. */
  function NextParent(s: State, a: Action, q: nat): Option<nat>
    requires Enabled(s, a) && q < |s.procs|
  {
    if Forks(s, a, q) then Actor(s, a)
    else if Reaps(s, a, q) then None
    else if GivesAway(s, a, q) then Some(s.initproc)
    else s.procs[q].parent
  }

  /** wait has found no reason to return. */
  predicate WaitPc(pc: Pc) { pc.WaitChan? || pc.WaitState? || pc.WaitGo? }

  /** p is asleep in wait or about to be. */
  predicate InWait(p: nat, r: Proc) { (r.state == SLEEPING && r.chan == OnProc(p)) || WaitPc(r.pc) }

  /** A record that is killed and in wait was in wait before; kill itself leaves none asleep. */
  predicate Lingers(s: State, a: Action, q: nat, r': Proc)
    requires Enabled(s, a) && q < |s.procs|
  {
    r'.killed && InWait(q, r') ==> InWait(q, s.procs[q]) && (Kills(s, a, q) ==> WaitPc(s.procs[q].pc))
  }

  predicate StepOk(s: State, a: Action, s': State, q: nat)
    requires Enabled(s, a) && q < |s.procs| == |s'.procs|
  {
    && s'.procs[q].state == NextState(s, a, q) && (s'.procs[q].killed <==> NextKilled(s, a, q))
    && s'.procs[q].parent == NextParent(s, a, q)
    && Lingers(s, a, q, s'.procs[q])
  }

  lemma SchedStates(s: State, a: Action, q: nat)
    requires Enabled(s, a) && s.cpus[a.c].on.Sched? && q < |s.procs|
    ensures StepOk(s, a, Do(s, a), q)
  {
  }

  /** A step that touches no other process. */
  lemma OnlyActor(s: State, a: Action, p: nat, q: nat)
    requires Enabled(s, a) && s.cpus[a.c].on == Run(p) && q < |s.procs|
    requires Interrupted(s, a) || (!IsRemote(s, p, a.flag) && !s.procs[p].pc.ExitZombie?)
    ensures Untouched(s, a, q)
  {
  }

  /** Only the actor's record changes. */
  lemma OwnStates(s: State, a: Action, s': State, p: nat, r': Proc, q: nat)
    requires Enabled(s, a) && s.cpus[a.c].on == Run(p) && q < |s.procs|
    requires Interrupted(s, a) || (!IsRemote(s, p, a.flag) && !s.procs[p].pc.ExitZombie?)
    requires s'.procs == s.procs[p := r'] && r'.killed == s.procs[p].killed && r'.parent == s.procs[p].parent
    requires r'.state == if Interrupted(s, a) then s.procs[p].state else OwnState(s.procs[p])
    requires r'.killed && InWait(p, r') ==> InWait(p, s.procs[p])
    ensures StepOk(s, a, s', q)
  {
    OnlyActor(s, a, p, q);
    hide Kills, Forks, Reaps, Wakes, GivesAway, IsRemote, Interrupted;
  }

  lemma LocalEffect(s: State, p: nat, op: Op)
    requires p < |s.procs| && IsLocal(s, p) && LiveOk(s, p)
    ensures var r, r' := s.procs[p], LocalProc(s, p, op);
            && r'.state == OwnState(r) && r'.killed == r.killed && r'.parent == r.parent && !r.pc.ExitZombie?
            && (r'.killed && InWait(p, r') ==> InWait(p, r))
  {
  }

  lemma QuietAcquire(s: State, c: nat, p: nat, flag: bool)
    requires c < |s.cpus| && s.cpus[c].on == Run(p) && p < |s.procs| && Wants(s, c).Some?
    ensures OwnState(s.procs[p]) == s.procs[p].state && !IsRemote(s, p, flag) && !s.procs[p].pc.ExitZombie?
    ensures !WaitPc(Acquired(s.procs[p].pc))
  {
  }

  lemma QuietLocal(s: State, p: nat, flag: bool)
    requires p < |s.procs| && IsLocal(s, p)
    ensures !IsRemote(s, p, flag)
  {
  }

  lemma QuietRelease(s: State, p: nat, flag: bool)
    requires p < |s.procs| && IsRelease(s, p, flag)
    requires s.procs[p].pc.Resume? ==> CanRun(s.procs[p], |s.locked|, |s.procs|)
    ensures OwnState(s.procs[p]) == s.procs[p].state && !IsRemote(s, p, flag) && !s.procs[p].pc.ExitZombie?
    ensures !WaitPc(Released(s, p).1)
  {
  }

  /** One process's record is changed under its lock, and the actor goes on. */
  lemma OtherStates(s: State, a: Action, s': State, p: nat, x: nat, r': Proc, pc': Pc, q: nat)
    requires Enabled(s, a) && Actor(s, a) == Some(p) && p < |s.procs| && q < |s.procs| && x < |s.procs|
    requires s'.procs == s.procs[x := r'][p := (if x == p then r' else s.procs[p]).(pc := pc')]
    requires OwnState(s.procs[p]) == s.procs[p].state
    requires q != x ==> Untouched(s, a, q)
    requires r'.state == NextState(s, a, x) && (r'.killed <==> NextKilled(s, a, x)) && Lingers(s, a, x, r')
    requires r'.parent == NextParent(s, a, x) && !WaitPc(pc')
    ensures StepOk(s, a, s', q)
  {
    hide Kills, Forks, Reaps, Wakes, GivesAway, OwnState;
  }

  lemma RemoteStates(s: State, a: Action, p: nat, q: nat)
    requires Enabled(s, a) && s.cpus[a.c].on == Run(p) && !Interrupted(s, a) && q < |s.procs| && IsRemote(s, p, a.flag)
    ensures |Do(s, a).procs| == |s.procs| && StepOk(s, a, Do(s, a), q)
  {
    hide DoNext;
    RemoteShape(s, a.c, p, a.op, a.flag);
    var m := RemoteOf(s, p, a.flag);
    RemoteTarget(s, a, p);
    RemoteOthers(s, a, p, q);
    hide Kills, Forks, Reaps, Wakes, GivesAway, OwnState, IsRemote, RemoteOf, Interrupted, NextState, NextKilled,
        Lingers,
      NextParent;
    OtherStates(s, a, Do(s, a), p, m.q, m.r, m.pc, q);
  }

  lemma RemoteTarget(s: State, a: Action, p: nat)
    requires Enabled(s, a) && s.cpus[a.c].on == Run(p) && !Interrupted(s, a) && IsRemote(s, p, a.flag)
    requires RemoteOf(s, p, a.flag).q < |s.procs|
    ensures var m := RemoteOf(s, p, a.flag);
            && m.r.state == NextState(s, a, m.q) && (m.r.killed <==> NextKilled(s, a, m.q))
            && m.r.parent == NextParent(s, a, m.q) && Lingers(s, a, m.q, m.r) && !WaitPc(m.pc)
  {
    hide Wants, Preemptible;
  }

  lemma RemoteOthers(s: State, a: Action, p: nat, q: nat)
    requires Enabled(s, a) && s.cpus[a.c].on == Run(p) && !Interrupted(s, a) && IsRemote(s, p, a.flag) && q < |s.procs|
    ensures OwnState(s.procs[p]) == s.procs[p].state
    ensures q != RemoteOf(s, p, a.flag).q ==> Untouched(s, a, q)
  {
  }

  lemma ZombieStates(s: State, a: Action, p: nat, q: nat)
    requires Enabled(s, a) && s.cpus[a.c].on == Run(p) && s.procs[p].pc.ExitZombie? && q < |s.procs|
    requires s.procs[p].pc.pp < |s.procs| && s.procs[p].pc.pp != p && s.procs[p].state == RUNNING
    ensures |Do(s, a).procs| == |s.procs| && StepOk(s, a, Do(s, a), q)
  {
    hide DoNext, Kills, Forks, Reaps, Wakes, GivesAway, Wants;
    ZombieActs(s, a, p, q);
    ZombieShape(s, a.c, p, a.op, a.flag);
  }

  lemma ZombieActs(s: State, a: Action, p: nat, q: nat)
    requires Enabled(s, a) && s.cpus[a.c].on == Run(p) && s.procs[p].pc.ExitZombie? && q < |s.procs|
    ensures !Kills(s, a, q) && !Forks(s, a, q) && !Reaps(s, a, q) && !GivesAway(s, a, q)
    ensures Wakes(s, a, q) <==> q == s.procs[p].pc.pp && s.procs[q].state == SLEEPING && s.procs[q].chan == OnProc(q)
  {
  }

  lemma SwitchStates(s: State, a: Action, p: nat, q: nat)
    requires Enabled(s, a) && s.cpus[a.c].on == Run(p) && !Interrupted(s, a) && Continuation(s.procs[p].pc).Some?
    requires q < |s.procs|
    ensures |Do(s, a).procs| == |s.procs| && StepOk(s, a, Do(s, a), q)
  {
    var k := Continuation(s.procs[p].pc).value;
    assert DoNext(s, a.c, p, a.op, a.flag) == SwitchOut(s, a.c, p, k);
    hide DoNext;
    OwnStates(s, a, Do(s, a), p, s.procs[p].(pc := Resume(k)), q);
  }

  lemma HeldStates(s: State, a: Action, p: nat, q: nat)
    requires Enabled(s, a) && s.cpus[a.c].on == Run(p) && q < |s.procs|
    requires s.procs[p].pc.AcqTest? || s.procs[p].pc.RelClear? || (s.procs[p].pc.ExitSelf? && s.procs[p].parent.None?)
    ensures |Do(s, a).procs| == |s.procs| && StepOk(s, a, Do(s, a), q)
  {
    OwnStates(s, a, Do(s, a), p, Do(s, a).procs[p], q);
  }

  /** Every step changes states and killed flags as NextState and NextKilled say. */
  lemma StepStates(s: State, a: Action, q: nat)
    requires Inv(s) && Enabled(s, a) && q < |s.procs|
    ensures |Do(s, a).procs| == |s.procs| && StepOk(s, a, Do(s, a), q)
  {
    if s.cpus[a.c].on.Sched? {
      SchedStates(s, a, q);
    } else {
      var p := s.cpus[a.c].on.p;
      var r := s.procs[p];
      assert CpuOk(s, a.c);
      Classified(s, a.c, p, a.flag);
      hide Inv, DoNext, IsLocal, IsRelease, IsRemote, Wants, Released, Acquired, LocalProc, StepOk, OwnState, PcOk,
          Preempts;
      if Interrupted(s, a) {
        OwnStates(s, a, Do(s, a), p, r.(pc := YieldWant(r.pc)), q);
      } else if Wants(s, a.c).Some? {
        AcquireShape(s, a.c, p, a.op, a.flag);
        QuietAcquire(s, a.c, p, a.flag);
        OwnStates(s, a, Do(s, a), p, r.(pc := Acquired(r.pc)), q);
      } else if IsLocal(s, p) {
        LocalShape(s, a.c, p, a.op, a.flag);
        LocalEffect(s, p, a.op);
        QuietLocal(s, p, a.flag);
        OwnStates(s, a, Do(s, a), p, LocalProc(s, p, a.op), q);
      } else if IsRelease(s, p, a.flag) {
        ReleaseShape(s, a.c, p, a.op, a.flag);
        QuietRelease(s, p, a.flag);
        OwnStates(s, a, Do(s, a), p, r.(pc := Released(s, p).1), q);
      } else if IsRemote(s, p, a.flag) {
        RemoteStates(s, a, p, q);
      } else if r.pc.ExitZombie? {
        ZombiePlace(s, p);
        ZombieStates(s, a, p, q);
      } else if Continuation(r.pc).Some? {
        SwitchStates(s, a, p, q);
      } else {
        HeldStates(s, a, p, q);
      }
    }
  }

  lemma ZombiePlace(s: State, p: nat)
    requires p < |s.procs| && LiveOk(s, p) && s.procs[p].pc.ExitZombie?
    ensures s.procs[p].pc.pp < |s.procs| && s.procs[p].pc.pp != p && s.procs[p].state == RUNNING
  {
  }

  // ---------------------------------------------------------------- all runs

  /** While kill holds q's lock, q is not about to sleep in wait. */
  lemma KillerHasLock(s: State, a: Action, q: nat)
    requires Inv(s) && Enabled(s, a) && q < |s.procs| && Kills(s, a, q)
    ensures !WaitPc(s.procs[q].pc)
  {
    hide WakeInv, HeldInv;
    var p := s.cpus[a.c].on.p;
    assert CpuOk(s, a.c);
    if q != p {
      assert PLock(q) in HeldOn(s, a.c);
      if Idle(s, q) {
        assert SuspendedOk(s, q);
      } else {
        var d :| 0 <= d < |s.cpus| && Busy(s, d) == Some(q);
        LockedOut(s, a.c, d, q);
      }
    }
  }

  ghost predicate KillInv(s: State) { forall q :: 0 <= q < |s.procs| && s.procs[q].killed ==> !InWait(q, s.procs[q]) }

  lemma StepKill(s: State, a: Action)
    requires Inv(s) && KillInv(s) && Enabled(s, a)
    ensures KillInv(Do(s, a))
  {
    hide Inv, Do, Enabled, NextState, InWait, Reaps, Kills;
    SameProcs(s, a);
    forall q | 0 <= q < |Do(s, a).procs| && Do(s, a).procs[q].killed ensures !InWait(q, Do(s, a).procs[q]) {
      StepStates(s, a, q);
      if Kills(s, a, q) { KillerHasLock(s, a, q); }
    }
  }

  lemma SameProcs(s: State, a: Action)
    requires Inv(s) && Enabled(s, a)
    ensures |Do(s, a).procs| == |s.procs|
  {
    StepStates(s, a, s.initproc);
  }

  lemma {:induction false} RunKill(s: State, acts: seq<Action>)
    requires Inv(s) && KillInv(s) && ValidRun(s, acts)
    ensures KillInv(Path(s, acts))
    decreases |acts|
  {
    hide Inv, KillInv, Do, Enabled;
    if |acts| > 0 {
      StepInv(s, acts[0]);
      StepKill(s, acts[0]);
      RunKill(Do(s, acts[0]), acts[1..]);
    }
  }

  lemma BootKill(s: State)
    requires Booted(s)
    ensures KillInv(s)
  {
  }

  /** In every interleaving no killed process is asleep in wait or on its way there. */
  lemma KilledNotWaiting(s0: State, acts: seq<Action>, p: nat)
    requires Booted(s0) && ValidRun(s0, acts) && p < |Path(s0, acts).procs| && Path(s0, acts).procs[p].killed
    ensures var r := Path(s0, acts).procs[p]; !(r.state == SLEEPING && r.chan == OnProc(p)) && !WaitPc(r.pc)
  {
    InitInv(s0);
    BootKill(s0);
    RunKill(s0, acts);
  }

  /** Some wait frees process q in the run. */
  ghost predicate Reaped(s: State, acts: seq<Action>, q: nat)
    requires ValidRun(s, acts)
    decreases |acts|
  {
    |acts| > 0 && ((q < |s.procs| && Reaps(s, acts[0], q)) || Reaped(Do(s, acts[0]), acts[1..], q))
  }

  lemma {:induction false} StaysKilled(s: State, acts: seq<Action>, q: nat)
    requires Inv(s) && ValidRun(s, acts) && q < |s.procs| && s.procs[q].killed && !Reaped(s, acts, q)
    ensures |Path(s, acts).procs| == |s.procs| && Path(s, acts).procs[q].killed
    decreases |acts|
  {
    hide Inv, Do, Enabled, NextState, NextParent, Reaps, Kills, Lingers;
    if |acts| > 0 {
      StepInv(s, acts[0]);
      StepStates(s, acts[0], q);
      StaysKilled(Do(s, acts[0]), acts[1..], q);
    }
  }

  /**
   kill takes hold: whatever the interleaving, from kill's step on the victim is killed and not
   asleep in wait, until a wait frees it.
   */
  lemma KillTakes(s0: State, acts: seq<Action>, a: Action, more: seq<Action>, q: nat)
    requires Booted(s0) && ValidRun(s0, acts) && q < |Path(s0, acts).procs|
    requires Enabled(Path(s0, acts), a) && Kills(Path(s0, acts), a, q) && ValidRun(Do(Path(s0, acts), a), more)
    requires !Reaped(Do(Path(s0, acts), a), more, q)
    ensures var t := Path(Do(Path(s0, acts), a), more);
            q < |t.procs| && t.procs[q].killed && !InWait(q, t.procs[q])
  {
    InitInv(s0);
    RunInv(s0, acts);
    BootKill(s0);
    RunKill(s0, acts);
    hide Inv, KillInv, Do, Enabled, NextState, Reaps, Kills, Lingers, Booted;
    var s := Path(s0, acts);
    StepInv(s, a);
    StepKill(s, a);
    StepStates(s, a, q);
    StaysKilled(Do(s, a), more, q);
    RunKill(Do(s, a), more);
    Spared(Path(Do(s, a), more), q);
  }

  lemma Spared(s: State, q: nat)
    requires KillInv(s) && q < |s.procs| && s.procs[q].killed
    ensures !InWait(q, s.procs[q])
  {
  }

  /**
   In every interleaving a process changes its state exactly as NextState says: RUNNABLE when
   forked, woken on what it sleeps on, killed asleep or yielding; RUNNING when the scheduler picks
   it; SLEEPING and ZOMBIE by its own step; UNUSED when a wait frees it. It is killed by kill and
   until it is freed, and its parent is the one that forked it until that one exits.
   */
  lemma Lifecycle(s0: State, acts: seq<Action>, a: Action, q: nat)
    requires Booted(s0) && ValidRun(s0, acts) && Enabled(Path(s0, acts), a) && q < |Path(s0, acts).procs|
    ensures var s, s' := Path(s0, acts), Do(Path(s0, acts), a);
            && q < |s'.procs| && s'.procs[q].state == NextState(s, a, q)
            && (s'.procs[q].killed <==> NextKilled(s, a, q)) && s'.procs[q].parent == NextParent(s, a, q)
  {
    InitInv(s0);
    RunInv(s0, acts);
    hide Inv, Do, Enabled, NextState, NextKilled, NextParent, Booted;
    StepStates(Path(s0, acts), a, q);
  }
}
