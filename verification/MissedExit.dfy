/**
 A run in which init sleeps in wait() over a ZOMBIE child (kernel/proc/proc.c:290-433).
 What a thread does while the others stand still is stated for any state first.
 */
module MissedExit {
  import opened Common
  import opened Scheduler

  // ---------------------------------------------------------------- runs from one state to another

  ghost predicate Reaches(s: State, s': State) { exists acts :: ValidRun(s, acts) && Path(s, acts) == s' }

  lemma {:induction false} PathConcat(s: State, a: seq<Action>, b: seq<Action>)
    requires ValidRun(s, a) && ValidRun(Path(s, a), b)
    ensures ValidRun(s, a + b) && Path(s, a + b) == Path(Path(s, a), b)
    decreases |a|
  {
    hide Enabled, Do;
    if |a| == 0 {
      assert a + b == b;
    } else {
      assert (a + b)[1..] == a[1..] + b;
      PathConcat(Do(s, a[0]), a[1..], b);
    }
  }

  lemma Trans(s: State, t: State, u: State)
    requires Reaches(s, t) && Reaches(t, u)
    ensures Reaches(s, u)
  {
    hide Enabled, Do;
    var a :| ValidRun(s, a) && Path(s, a) == t;
    var b :| ValidRun(t, b) && Path(t, b) == u;
    PathConcat(s, a, b);
  }

  lemma One(s: State, c: nat, op: Op)
    requires Enabled(s, Action(c, op, false))
    ensures Reaches(s, Do(s, Action(c, op, false)))
  {
    hide Enabled, Do;
    var a := Action(c, op, false);
    assert [a][1..] == [];
    assert ValidRun(s, [a]) && Path(s, [a]) == Do(s, a);
  }

  lemma Then(s: State, t: State, c: nat, op: Op, u: State)
    requires Reaches(s, t) && Enabled(t, Action(c, op, false)) && Do(t, Action(c, op, false)) == u
    ensures Reaches(s, u)
  {
    hide Enabled, Do;
    One(t, c, op);
    Trans(s, t, u);
  }

  lemma Stay(s: State)
    ensures Reaches(s, s)
  {
    assert ValidRun(s, []) && Path(s, []) == s;
  }

  /** Taking a lock that is free and giving it back. */
  lemma TakeGive(owner: map<Lock, nat>, L: Lock, c: nat)
    requires L !in owner
    ensures owner[L := c] - {L} == owner
  {
  }

  function Scanning(s: State, c: nat, i: nat): State
    requires c < |s.cpus|
  {
    s.(cpus := s.cpus[c := Cpu(None, Sched(Scan(i)))])
  }

  // ---------------------------------------------------------------- the scheduler

  predicate AtScan(s: State, c: nat, i: nat) {
    c < |s.cpus| && i < |s.procs| && s.cpus[c] == Cpu(None, Sched(Scan(i))) && PLock(i) !in s.owner
  }

  /** The scheduler passes over a process that is not RUNNABLE. */
  lemma PassOver(s: State, c: nat, i: nat)
    requires AtScan(s, c, i) && i + 1 < |s.procs| && s.procs[i].state != RUNNABLE
    ensures Reaches(s, Scanning(s, c, i + 1))
  {
    Stay(s);
    var s1 := Switch(Take(s, c, PLock(i)), c, Sched(Picked(i)));
    var s2 := Switch(s1, c, Sched(Leaving(i)));
    TakeGive(s.owner, PLock(i), c);
    assert Drop(s2, PLock(i)).owner == s.owner;
    Then(s, s, c, OpWait, s1);
    Then(s, s1, c, OpWait, s2);
    Then(s, s2, c, OpWait, Scanning(s, c, i + 1));
  }

  /** Process i runs on CPU c, at User. */
  function Started(s: State, c: nat, i: nat): State
    requires c < |s.cpus| && i < |s.procs|
  {
    s.(cpus := s.cpus[c := Cpu(Some(i), Run(i))], procs := s.procs[i := s.procs[i].(state := RUNNING, pc := User)])
  }

  /** A new process starts and returns from forkret. */
  lemma Start(s: State, c: nat, i: nat)
    requires AtScan(s, c, i) && s.procs[i].state == RUNNABLE && s.procs[i].pc == Resume(ForkRet)
    ensures Reaches(s, Started(s, c, i))
  {
    hide DoNext;
    Stay(s);
    var s1 := Switch(Take(s, c, PLock(i)), c, Sched(Picked(i)));
    var s2 := Switch(SetProc(s1, i, s1.procs[i].(state := RUNNING)), c, Sched(Starting(i)));
    var s3 := s2.(cpus := s2.cpus[c := Cpu(Some(i), Sched(Current(i)))]);
    var s4 := Switch(s3, c, Run(i));
    Then(s, s, c, OpWait, s1);
    Then(s, s1, c, OpWait, s2);
    Then(s, s2, c, OpWait, s3);
    Then(s, s3, c, OpWait, s4);
    TakeGive(s.owner, PLock(i), c);
    ReleaseShape(s4, c, i, OpWait, false);
    var s5 := Goto(Scheduler.Drop(s4, PLock(i)), i, User);
    assert s5 == Started(s, c, i);
    Then(s, s4, c, OpWait, s5);
  }

  // ---------------------------------------------------------------- single steps of a process

  predicate OnCpu(s: State, c: nat, p: nat) {
    c < |s.cpus| && s.cpus[c].on == Run(p) && p < |s.procs|
  }

  lemma StepOf(s0: State, s: State, c: nat, p: nat, op: Op, s': State)
    requires Reaches(s0, s) && OnCpu(s, c, p) && op != OpYield && DoNext(s, c, p, op, false) == s'
    requires Wants(s, c).Some? ==> Wants(s, c).value !in s.owner
    ensures Reaches(s0, s')
  {
    hide DoNext, Wants;
    Then(s0, s, c, op, s');
  }

  lemma Acquires(s0: State, s: State, c: nat, p: nat, op: Op, L: Lock)
    requires Reaches(s0, s) && OnCpu(s, c, p) && op != OpYield && Wants(s, c) == Some(L) && L !in s.owner
    ensures Reaches(s0, Goto(Take(s, c, L), p, Acquired(s.procs[p].pc)))
  {
    hide DoNext, Wants, Acquired;
    AcquireShape(s, c, p, op, false);
    StepOf(s0, s, c, p, op, Goto(Take(s, c, L), p, Acquired(s.procs[p].pc)));
  }

  lemma Releases(s0: State, s: State, c: nat, p: nat, op: Op)
    requires Reaches(s0, s) && OnCpu(s, c, p) && op != OpYield && IsRelease(s, p, false)
    ensures Reaches(s0, Goto(Drop(s, Released(s, p).0), p, Released(s, p).1))
  {
    hide DoNext, Released;
    ReleaseShape(s, c, p, op, false);
    StepOf(s0, s, c, p, op, Goto(Drop(s, Released(s, p).0), p, Released(s, p).1));
  }

  lemma Locally(s0: State, s: State, c: nat, p: nat, op: Op)
    requires Reaches(s0, s) && OnCpu(s, c, p) && op != OpYield && IsLocal(s, p)
    ensures Reaches(s0, SetProc(s, p, LocalProc(s, p, op)))
  {
    hide DoNext, LocalProc;
    LocalShape(s, c, p, op, false);
    StepOf(s0, s, c, p, op, SetProc(s, p, LocalProc(s, p, op)));
  }

  lemma Remotely(s0: State, s: State, c: nat, p: nat, op: Op)
    requires Reaches(s0, s) && OnCpu(s, c, p) && op != OpYield && IsRemote(s, p, false)
    ensures RemoteOf(s, p, false).q < |s.procs| && Reaches(s0, AfterRemote(s, p, RemoteOf(s, p, false)))
  {
    hide DoNext, RemoteOf, AfterRemote;
    RemoteShape(s, c, p, op, false);
    StepOf(s0, s, c, p, op, AfterRemote(s, p, RemoteOf(s, p, false)));
  }

  // ---------------------------------------------------------------- fork

  lemma ForkLook(s: State, c: nat, p: nat, i: nat)
    requires OnCpu(s, c, p) && s.procs[p].pc == ForkScan(i) && i < |s.procs| && PLock(i) !in s.owner
    ensures Reaches(s, Goto(Take(s, c, PLock(i)), p, ForkHold(i)))
  {
    hide Reaches;
    Stay(s);
    Acquires(s, s, c, p, OpFork, PLock(i));
  }

  lemma ForkSkip(s: State, c: nat, p: nat, i: nat)
    requires OnCpu(s, c, p) && s.procs[p].pc == ForkHold(i) && i < |s.procs| && s.procs[i].state != UNUSED
    ensures Reaches(s, Goto(Drop(s, PLock(i)), p, ForkScan(i + 1)))
  {
    hide Reaches;
    Stay(s);
    Releases(s, s, c, p, OpFork);
  }

  lemma ForkOver(s: State, c: nat, p: nat, i: nat)
    requires OnCpu(s, c, p) && s.procs[p].pc == ForkScan(i) && i < |s.procs| && PLock(i) !in s.owner
    requires s.procs[i].state != UNUSED
    ensures Reaches(s, Goto(s, p, ForkScan(i + 1)))
  {
    hide Reaches;
    ForkLook(s, c, p, i);
    var s1 := Goto(Take(s, c, PLock(i)), p, ForkHold(i));
    ForkSkip(s1, c, p, i);
    TakeGive(s.owner, PLock(i), c);
    assert Goto(Drop(s1, PLock(i)), p, ForkScan(i + 1)) == Goto(s, p, ForkScan(i + 1));
    Trans(s, s1, Goto(s, p, ForkScan(i + 1)));
  }

  /** p, at User, has forked process i. */
  function AfterFork(s: State, p: nat, i: nat): State
    requires p < |s.procs| && i < |s.procs|
  {
    Goto(SetProc(s, i, Forked(s.procs[i], p)), p, User)
  }

  lemma ForkHere(s: State, c: nat, p: nat, i: nat)
    requires OnCpu(s, c, p) && s.procs[p].pc == ForkScan(i) && i < |s.procs| && PLock(i) !in s.owner && i != p
    requires s.procs[i].state == UNUSED
    ensures Reaches(s, AfterFork(s, p, i))
  {
    hide Reaches;
    ForkLook(s, c, p, i);
    var s1 := Goto(Take(s, c, PLock(i)), p, ForkHold(i));
    ForkEnds(s1, c, p, i);
    TakeGive(s.owner, PLock(i), c);
    assert AfterFork(s1.(owner := s.owner), p, i) == AfterFork(s, p, i);
    Trans(s, s1, AfterFork(s, p, i));
  }

  lemma ForkEnds(s: State, c: nat, p: nat, i: nat)
    requires OnCpu(s, c, p) && s.procs[p].pc == ForkHold(i) && i < |s.procs| && i != p && s.procs[i].state == UNUSED
    ensures Reaches(s, AfterFork(s.(owner := s.owner - {PLock(i)}), p, i))
  {
    hide Wants, Reaches;
    Stay(s);
    Remotely(s, s, c, p, OpFork);
    var s1 := Goto(SetProc(s, i, Forked(s.procs[i], p)), p, ForkDone(i));
    assert AfterRemote(s, p, RemoteOf(s, p, false)) == s1;
    Releases(s, s1, c, p, OpFork);
    assert Goto(Drop(s1, PLock(i)), p, User) == AfterFork(s.(owner := s.owner - {PLock(i)}), p, i);
  }

  lemma Begins(s: State, c: nat, p: nat, op: Op)
    requires OnCpu(s, c, p) && s.procs[p].pc == User && op != OpYield
    ensures Reaches(s, Goto(s, p, Begin(s, p, op)))
  {
    Stay(s);
    Locally(s, s, c, p, op);
  }

  // ---------------------------------------------------------------- exit

  /** exit wakes init, which here does not sleep. */
  lemma WakeInit(s: State, c: nat, p: nat)
    requires OnCpu(s, c, p) && s.procs[p].pc == ExitInitWant && p != s.initproc && s.initproc < |s.procs|
    requires PLock(s.initproc) !in s.owner && s.procs[s.initproc].state != SLEEPING
    ensures Reaches(s, Goto(s, p, ExitSelfWant))
  {
    hide Reaches;
    Stay(s);
    var L := PLock(s.initproc);
    Acquires(s, s, c, p, OpExit, L);
    var s1 := Goto(Take(s, c, L), p, ExitInit);
    hide Wants, Acquired;
    Remotely(s, s1, c, p, OpExit);
    TakeGive(s.owner, L, c);
    var s2 := AfterRemote(s1, p, RemoteOf(s1, p, false));
    assert s2.procs == Goto(s, p, ExitSelfWant).procs;
    assert s2 == Goto(s, p, ExitSelfWant);
  }

  lemma BeginExit(s: State, c: nat, p: nat)
    requires OnCpu(s, c, p) && s.procs[p].pc == User && p != s.initproc && s.initproc < |s.procs|
    requires PLock(s.initproc) !in s.owner && s.procs[s.initproc].state != SLEEPING
    ensures Reaches(s, Goto(s, p, ExitSelfWant))
  {
    hide Reaches;
    Begins(s, c, p, OpExit);
    var s1 := Goto(s, p, ExitInitWant);
    WakeInit(s1, c, p);
    assert Goto(s1, p, ExitSelfWant) == Goto(s, p, ExitSelfWant);
    Trans(s, s1, Goto(s, p, ExitSelfWant));
  }

  /** p holds its parent's lock and its own. */
  function Both(s: State, c: nat, p: nat, pp: nat, pc: Pc): State
    requires p < |s.procs|
  {
    Goto(s.(owner := s.owner[PLock(pp) := c][PLock(p) := c]), p, pc)
  }

  lemma ReadParent(s: State, c: nat, p: nat, pp: nat)
    requires OnCpu(s, c, p) && s.procs[p].pc == ExitSelfWant && s.procs[p].parent == Some(pp) && PLock(p) !in s.owner
    ensures Reaches(s, Goto(s, p, ExitParentWant(pp)))
  {
    hide Reaches;
    Stay(s);
    Acquires(s, s, c, p, OpExit, PLock(p));
    var s1 := Goto(Take(s, c, PLock(p)), p, ExitSelf);
    hide Wants, Acquired;
    Releases(s, s1, c, p, OpExit);
    TakeGive(s.owner, PLock(p), c);
    assert Goto(Drop(s1, PLock(p)), p, ExitParentWant(pp)) == Goto(s, p, ExitParentWant(pp));
  }

  lemma FindParent(s: State, c: nat, p: nat, pp: nat)
    requires OnCpu(s, c, p) && s.procs[p].pc == ExitSelfWant && s.procs[p].parent == Some(pp) && pp != p
    requires PLock(p) !in s.owner && PLock(pp) !in s.owner
    ensures Reaches(s, Both(s, c, p, pp, ExitRep(pp, 0)))
  {
    hide Reaches;
    ReadParent(s, c, p, pp);
    var s1 := Goto(s, p, ExitParentWant(pp));
    LockBoth(s1, c, p, pp);
    assert Both(s1, c, p, pp, ExitRep(pp, 0)) == Both(s, c, p, pp, ExitRep(pp, 0));
    Trans(s, s1, Both(s, c, p, pp, ExitRep(pp, 0)));
  }

  lemma LockBoth(s: State, c: nat, p: nat, pp: nat)
    requires OnCpu(s, c, p) && s.procs[p].pc == ExitParentWant(pp) && pp != p
    requires PLock(p) !in s.owner && PLock(pp) !in s.owner
    ensures Reaches(s, Both(s, c, p, pp, ExitRep(pp, 0)))
  {
    hide Reaches;
    Stay(s);
    Acquires(s, s, c, p, OpExit, PLock(pp));
    var s1 := Goto(Take(s, c, PLock(pp)), p, ExitOwnWant(pp));
    Acquires(s, s1, c, p, OpExit, PLock(p));
    assert Goto(Take(s1, c, PLock(p)), p, ExitRep(pp, 0)) == Both(s, c, p, pp, ExitRep(pp, 0));
  }

  lemma RepOver(s: State, c: nat, p: nat, pp: nat, i: nat)
    requires OnCpu(s, c, p) && s.procs[p].pc == ExitRep(pp, i) && i < |s.procs| && s.procs[i].parent != Some(p)
    ensures Reaches(s, Goto(s, p, ExitRep(pp, i + 1)))
  {
    Stay(s);
    Locally(s, s, c, p, OpExit);
  }

  /** Process i is given to init. */
  function Adopted(s: State, p: nat, pp: nat, i: nat): State
    requires p < |s.procs| && i < |s.procs|
  {
    Goto(SetProc(s, i, s.procs[i].(parent := Some(s.initproc), adopted := true)), p, ExitRep(pp, i + 1))
  }

  lemma RepFind(s: State, c: nat, p: nat, pp: nat, i: nat)
    requires OnCpu(s, c, p) && s.procs[p].pc == ExitRep(pp, i) && i < |s.procs| && s.procs[i].parent == Some(p)
    ensures Reaches(s, Goto(s, p, ExitRepWant(pp, i)))
  {
    hide Reaches;
    Stay(s);
    Locally(s, s, c, p, OpExit);
  }

  lemma RepGive(s: State, c: nat, p: nat, pp: nat, i: nat)
    requires OnCpu(s, c, p) && s.procs[p].pc == ExitRepWant(pp, i) && i < |s.procs| && PLock(i) !in s.owner && i != p
    ensures Reaches(s, Adopted(s, p, pp, i))
  {
    hide Reaches;
    Stay(s);
    Acquires(s, s, c, p, OpExit, PLock(i));
    var s1 := Goto(Take(s, c, PLock(i)), p, ExitRepHold(pp, i));
    hide Wants, Acquired;
    Remotely(s, s1, c, p, OpExit);
    TakeGive(s.owner, PLock(i), c);
    assert AfterRemote(s1, p, RemoteOf(s1, p, false)) == Adopted(s, p, pp, i);
  }

  lemma RepHere(s: State, c: nat, p: nat, pp: nat, i: nat)
    requires OnCpu(s, c, p) && s.procs[p].pc == ExitRep(pp, i) && i < |s.procs| && s.procs[i].parent == Some(p)
    requires PLock(i) !in s.owner && i != p
    ensures Reaches(s, Adopted(s, p, pp, i))
  {
    hide Reaches;
    RepFind(s, c, p, pp, i);
    var s1 := Goto(s, p, ExitRepWant(pp, i));
    RepGive(s1, c, p, pp, i);
    assert Adopted(s1, p, pp, i) == Adopted(s, p, pp, i);
    Trans(s, s1, Adopted(s, p, pp, i));
  }

  /** Where the scheduler goes on after process p. */
  function After(s: State, p: nat): nat { if p + 1 < |s.procs| then p + 1 else 0 }

  /** p has switched to its CPU's scheduler, which has released p's lock. */
  function Left(s: State, c: nat, p: nat, k: Saved): State
    requires c < |s.cpus| && p < |s.procs|
  {
    Scanning(Goto(Drop(s, PLock(p)), p, Resume(k)), c, After(s, p))
  }

  lemma Leaves(s: State, c: nat, p: nat, k: Saved, op: Op)
    requires OnCpu(s, c, p) && s.cpus[c].proc == Some(p) && op != OpYield && Continuation(s.procs[p].pc) == Some(k)
    ensures Reaches(s, Left(s, c, p, k))
  {
    hide Reaches;
    Stay(s);
    var s1 := SwitchOut(s, c, p, k);
    assert DoNext(s, c, p, op, false) == s1;
    StepOf(s, s, c, p, op, s1);
    hide DoNext;
    var s2 := s1.(cpus := s1.cpus[c := Cpu(None, Sched(Scheduler.Leaving(p)))]);
    Then(s, s1, c, op, s2);
    Then(s, s2, c, op, Left(s, c, p, k));
  }

  /** p is a ZOMBIE and its parent was told. */
  function Zombie(s: State, c: nat, p: nat, pp: nat): State
    requires c < |s.cpus| && p < |s.procs|
  {
    Scanning(SetProc(s.(owner := s.owner - {PLock(pp)} - {PLock(p)}), p,
        s.procs[p].(state := ZOMBIE, pc := Resume(Dead))),
             c, After(s, p))
  }

  lemma RepEnd(s: State, c: nat, p: nat, pp: nat)
    requires OnCpu(s, c, p) && s.procs[p].pc == ExitRep(pp, |s.procs|)
    ensures Reaches(s, Goto(s, p, ExitZombie(pp)))
  {
    hide Reaches;
    Stay(s);
    Locally(s, s, c, p, OpExit);
  }

  lemma EndExit(s: State, c: nat, p: nat, pp: nat)
    requires OnCpu(s, c, p) && s.cpus[c].proc == Some(p) && s.procs[p].pc == ExitRep(pp, |s.procs|)
    requires pp < |s.procs| && pp != p && s.procs[pp].state != SLEEPING
    ensures Reaches(s, Zombie(s, c, p, pp))
  {
    hide Reaches, Zombie;
    RepEnd(s, c, p, pp);
    var s1 := Goto(s, p, ExitZombie(pp));
    BecomeZombie(s1, c, p, pp);
    var s2 := SetProc(s, p, s.procs[p].(state := ZOMBIE, pc := ExitLeave(pp)));
    assert SetProc(s1, p, s1.procs[p].(state := ZOMBIE, pc := ExitLeave(pp))) == s2;
    Trans(s, s1, s2);
    LeaveZombie(s2, c, p, pp);
    ZombieSame(s, c, p, pp);
    Trans(s, s2, Zombie(s, c, p, pp));
  }

  lemma ZombieSame(s: State, c: nat, p: nat, pp: nat)
    requires c < |s.cpus| && p < |s.procs|
    ensures Zombie(SetProc(s, p, s.procs[p].(state := ZOMBIE, pc := ExitLeave(pp))), c, p, pp) == Zombie(s, c, p, pp)
  {
  }

  lemma BecomeZombie(s: State, c: nat, p: nat, pp: nat)
    requires OnCpu(s, c, p) && s.procs[p].pc == ExitZombie(pp) && pp < |s.procs| && pp != p
    requires s.procs[pp].state != SLEEPING
    ensures Reaches(s, SetProc(s, p, s.procs[p].(state := ZOMBIE, pc := ExitLeave(pp))))
  {
    hide Reaches;
    Stay(s);
    ZombieShape(s, c, p, OpExit, false);
    var s' := SetProc(s, p, s.procs[p].(state := ZOMBIE, pc := ExitLeave(pp)));
    assert AfterZombie(s, p, pp).procs == s'.procs;
    hide DoNext;
    StepOf(s, s, c, p, OpExit, s');
  }

  lemma TellParent(s: State, c: nat, p: nat, pp: nat)
    requires OnCpu(s, c, p) && s.procs[p].pc == ExitLeave(pp)
    ensures Reaches(s, Goto(Drop(s, PLock(pp)), p, ExitGo))
  {
    hide Reaches;
    Stay(s);
    Releases(s, s, c, p, OpExit);
  }

  lemma LeaveZombie(s: State, c: nat, p: nat, pp: nat)
    requires OnCpu(s, c, p) && s.cpus[c].proc == Some(p) && s.procs[p].pc == ExitLeave(pp) && s.procs[p].state == ZOMBIE
    ensures Reaches(s, Zombie(s, c, p, pp))
  {
    hide Reaches;
    TellParent(s, c, p, pp);
    var s1 := Goto(Drop(s, PLock(pp)), p, ExitGo);
    Leaves(s1, c, p, Dead, OpExit);
    assert Left(s1, c, p, Dead) == Zombie(s, c, p, pp);
    Trans(s, s1, Zombie(s, c, p, pp));
  }

  // ---------------------------------------------------------------- wait

  function Own(s: State, c: nat, p: nat, pc: Pc): State
    requires p < |s.procs|
  {
    Goto(Take(s, c, PLock(p)), p, pc)
  }

  lemma BeginWait(s: State, c: nat, p: nat)
    requires OnCpu(s, c, p) && s.procs[p].pc == User && PLock(p) !in s.owner
    ensures Reaches(s, Own(s, c, p, WaitScan(0, false)))
  {
    hide Reaches;
    Begins(s, c, p, OpWait);
    var s1 := Goto(s, p, WaitWant);
    Acquires(s, s1, c, p, OpWait, PLock(p));
    assert Goto(Take(s1, c, PLock(p)), p, WaitScan(0, false)) == Own(s, c, p, WaitScan(0, false));
  }

  lemma WaitOver(s: State, c: nat, p: nat, i: nat, kids: bool)
    requires OnCpu(s, c, p) && s.procs[p].pc == WaitScan(i, kids) && i < |s.procs| && s.procs[i].parent != Some(p)
    ensures Reaches(s, Goto(s, p, WaitScan(i + 1, kids)))
  {
    Stay(s);
    Locally(s, s, c, p, OpWait);
  }

  /** A child that has not exited. */
  lemma WaitKid(s: State, c: nat, p: nat, i: nat, kids: bool)
    requires OnCpu(s, c, p) && s.procs[p].pc == WaitScan(i, kids) && i < |s.procs| && s.procs[i].parent == Some(p)
    requires PLock(i) !in s.owner && s.procs[i].state != ZOMBIE && i != p
    ensures Reaches(s, Goto(s, p, WaitScan(i + 1, true)))
  {
    hide Reaches;
    WaitFind(s, c, p, i, kids);
    var s1 := Goto(s, p, WaitLock(i));
    WaitLook(s1, c, p, i);
    assert Goto(s1, p, WaitScan(i + 1, true)) == Goto(s, p, WaitScan(i + 1, true));
    Trans(s, s1, Goto(s, p, WaitScan(i + 1, true)));
  }

  lemma WaitFind(s: State, c: nat, p: nat, i: nat, kids: bool)
    requires OnCpu(s, c, p) && s.procs[p].pc == WaitScan(i, kids) && i < |s.procs| && s.procs[i].parent == Some(p)
    ensures Reaches(s, Goto(s, p, WaitLock(i)))
  {
    hide Reaches;
    Stay(s);
    Locally(s, s, c, p, OpWait);
  }

  lemma WaitLook(s: State, c: nat, p: nat, i: nat)
    requires OnCpu(s, c, p) && s.procs[p].pc == WaitLock(i) && i < |s.procs|
    requires PLock(i) !in s.owner && s.procs[i].state != ZOMBIE && i != p
    ensures Reaches(s, Goto(s, p, WaitScan(i + 1, true)))
  {
    hide Reaches;
    Stay(s);
    Acquires(s, s, c, p, OpWait, PLock(i));
    var s1 := Goto(Take(s, c, PLock(i)), p, WaitHold(i));
    hide Wants, Acquired;
    Releases(s, s1, c, p, OpWait);
    TakeGive(s.owner, PLock(i), c);
    assert Goto(Drop(s1, PLock(i)), p, WaitScan(i + 1, true)) == Goto(s, p, WaitScan(i + 1, true));
  }

  function Asleep(s: State, c: nat, p: nat): State
    requires c < |s.cpus| && p < |s.procs|
  {
    Left(SetProc(s, p, s.procs[p].(state := SLEEPING, chan := OnProc(p))), c, p, AfterWait)
  }

  /** The three assignments before sched. */
  lemma SetSleep(s: State, c: nat, p: nat)
    requires OnCpu(s, c, p) && s.procs[p].pc == WaitChan
    ensures Reaches(s, SetProc(s, p, s.procs[p].(state := SLEEPING, chan := OnProc(p), pc := WaitGo)))
  {
    hide Reaches;
    Stay(s);
    Locally(s, s, c, p, OpWait);
    var s1 := SetProc(s, p, s.procs[p].(chan := OnProc(p), pc := WaitState));
    Locally(s, s1, c, p, OpWait);
    assert SetProc(s1, p, s1.procs[p].(state := SLEEPING, pc := WaitGo))
        == SetProc(s, p, s.procs[p].(state := SLEEPING, chan := OnProc(p), pc := WaitGo));
  }

  lemma WaitNone(s: State, c: nat, p: nat)
    requires OnCpu(s, c, p) && s.procs[p].pc == WaitScan(|s.procs|, true) && !s.procs[p].killed
    ensures Reaches(s, Goto(s, p, WaitChan))
  {
    hide Reaches;
    Stay(s);
    Locally(s, s, c, p, OpWait);
  }

  lemma FallAsleep(s: State, c: nat, p: nat)
    requires OnCpu(s, c, p) && s.cpus[c].proc == Some(p) && s.procs[p].pc == WaitScan(|s.procs|, true)
    requires !s.procs[p].killed
    ensures Reaches(s, Asleep(s, c, p))
  {
    hide Reaches;
    WaitNone(s, c, p);
    var s1 := Goto(s, p, WaitChan);
    SetSleep(s1, c, p);
    var s2 := SetProc(s, p, s.procs[p].(state := SLEEPING, chan := OnProc(p), pc := WaitGo));
    assert SetProc(s1, p, s1.procs[p].(state := SLEEPING, chan := OnProc(p), pc := WaitGo)) == s2;
    Trans(s, s1, s2);
    Leaves(s2, c, p, AfterWait, OpWait);
    assert Left(s2, c, p, AfterWait) == Asleep(s, c, p);
    Trans(s, s2, Asleep(s, c, p));
  }

  // ---------------------------------------------------------------- the run

  function Rec(state: ProcState, parent: Option<nat>, pc: Pc): Proc {
    Proc(state, Nothing, parent, false, pc, {}, false)
  }

  function Running(p: nat): Cpu { Cpu(Some(p), Run(p)) }

  function Looking(i: nat): Cpu { Cpu(None, Sched(Scan(i))) }

  /** Four CPUs and four processes, the last of which is init; no spin-lock is held. */
  function Four(cpus: seq<Cpu>, procs: seq<Proc>): State { State(cpus, procs, [], map[], 3) }

  const UNUSED_PROC: Proc := Rec(UNUSED, None, Resume(ForkRet))
  const INIT: Proc := Rec(RUNNING, None, User)

  /** Process 0, 1 or 2 with its parent, new and at User. */
  function New(parent: nat): Proc { Rec(RUNNABLE, Some(parent), Resume(ForkRet)) }

  function Live(parent: nat): Proc { Rec(RUNNING, Some(parent), User) }

  const START: State :=
    Four([Looking(0), Looking(0), Looking(0), Looking(0)],
         [UNUSED_PROC, UNUSED_PROC, UNUSED_PROC, Rec(RUNNABLE, None, Resume(ForkRet))])

  /** init forks P, P forks A, A forks B, each on a CPU of its own. */
  const FAMILY1: State :=
    Four([Running(3), Looking(0), Looking(0), Looking(0)], [New(3), UNUSED_PROC, UNUSED_PROC, INIT])
  const FAMILY2: State :=
    Four([Running(3), Running(0), Looking(0), Looking(0)], [Live(3), New(0), UNUSED_PROC, INIT])
  const FAMILY3: State := Four([Running(3), Running(0), Running(1), Looking(0)], [Live(3), Live(0), New(1), INIT])

  /** B exits; A starts to exit and wakes init, which does not sleep; init waits; A goes on. */
  const B_DONE: State :=
    Four([Running(3), Running(0), Running(1), Looking(3)],
         [Live(3), Live(0), Rec(ZOMBIE, Some(1), Resume(Dead)), INIT])
  const A_EXITS: State :=
    Four([Running(3), Running(0), Running(1), Looking(3)],
         [Live(3), Rec(RUNNING, Some(0), ExitSelfWant), Rec(ZOMBIE, Some(1), Resume(Dead)), INIT])
  const SLEEPER: Proc := Proc(SLEEPING, OnProc(3), None, false, Resume(AfterWait), {}, false)
  const INIT_SLEEPS: State :=
    Four([Looking(0), Running(0), Running(1), Looking(3)],
         [Live(3), Rec(RUNNING, Some(0), ExitSelfWant), Rec(ZOMBIE, Some(1), Resume(Dead)), SLEEPER])
  const MISSED: State :=
    Four([Looking(0), Running(0), Looking(2), Looking(3)],
         [Live(3), Rec(ZOMBIE, Some(0), Resume(Dead)), B_AFTER, SLEEPER])

  lemma InitForks()
    ensures Reaches(START, FAMILY1)
  {
    hide Reaches;
    var s := START;
    PassOver(s, 0, 0);
    var s1 := Scanning(s, 0, 1);
    PassOver(s1, 0, 1);
    Trans(s, s1, Scanning(s1, 0, 2));
    var s2 := Scanning(s, 0, 2);
    assert Scanning(s1, 0, 2) == s2;
    PassOver(s2, 0, 2);
    Trans(s, s2, Scanning(s2, 0, 3));
    var s3 := Four([Looking(3), Looking(0), Looking(0), Looking(0)], s.procs);
    assert Scanning(s2, 0, 3) == s3;
    Start(s3, 0, 3);
    Trans(s, s3, Started(s3, 0, 3));
    var s4 := Four([Running(3), Looking(0), Looking(0), Looking(0)], [UNUSED_PROC, UNUSED_PROC, UNUSED_PROC, INIT]);
    assert Started(s3, 0, 3) == s4;
    Begins(s4, 0, 3, OpFork);
    var s5 := Goto(s4, 3, ForkScan(0));
    Trans(s, s4, s5);
    ForkHere(s5, 0, 3, 0);
    assert AfterFork(s5, 3, 0) == FAMILY1;
    Trans(s, s5, FAMILY1);
  }

  lemma PForks()
    ensures Reaches(FAMILY1, FAMILY2)
  {
    hide Reaches;
    var s := FAMILY1;
    Start(s, 1, 0);
    var s1 := Four([Running(3), Running(0), Looking(0), Looking(0)], [Live(3), UNUSED_PROC, UNUSED_PROC, INIT]);
    assert Started(s, 1, 0) == s1;
    Begins(s1, 1, 0, OpFork);
    var s2 := Goto(s1, 0, ForkScan(0));
    Trans(s, s1, s2);
    ForkOver(s2, 1, 0, 0);
    var s3 := Goto(s1, 0, ForkScan(1));
    assert Goto(s2, 0, ForkScan(1)) == s3;
    Trans(s, s2, s3);
    ForkHere(s3, 1, 0, 1);
    assert AfterFork(s3, 0, 1) == FAMILY2;
    Trans(s, s3, FAMILY2);
  }

  lemma AStarts()
    ensures Reaches(FAMILY2,
        Four([Running(3), Running(0), Running(1), Looking(0)], [Live(3), Live(0), UNUSED_PROC, INIT]))
  {
    hide Reaches;
    var s := FAMILY2;
    PassOver(s, 2, 0);
    var s1 := Four([Running(3), Running(0), Looking(1), Looking(0)], s.procs);
    assert Scanning(s, 2, 1) == s1;
    Start(s1, 2, 1);
    var s2 := Four([Running(3), Running(0), Running(1), Looking(0)], [Live(3), Live(0), UNUSED_PROC, INIT]);
    assert Started(s1, 2, 1) == s2;
    Trans(s, s1, s2);
  }

  lemma AForks()
    ensures Reaches(FAMILY2, FAMILY3)
  {
    hide Reaches;
    AStarts();
    var s := Four([Running(3), Running(0), Running(1), Looking(0)], [Live(3), Live(0), UNUSED_PROC, INIT]);
    Begins(s, 2, 1, OpFork);
    var s1 := Goto(s, 1, ForkScan(0));
    ForkOver(s1, 2, 1, 0);
    var s2 := Goto(s, 1, ForkScan(1));
    assert Goto(s1, 1, ForkScan(1)) == s2;
    Trans(s, s1, s2);
    ForkOver(s2, 2, 1, 1);
    var s3 := Goto(s, 1, ForkScan(2));
    assert Goto(s2, 1, ForkScan(2)) == s3;
    Trans(s, s2, s3);
    ForkHere(s3, 2, 1, 2);
    assert AfterFork(s3, 1, 2) == FAMILY3;
    Trans(s, s3, FAMILY3);
    Trans(FAMILY2, s, FAMILY3);
  }

  lemma BStarts()
    ensures Reaches(FAMILY3, Goto(Started(Scanning(FAMILY3, 3, 2), 3, 2), 2, ExitSelfWant))
  {
    hide Reaches;
    var s := FAMILY3;
    PassOver(s, 3, 0);
    var s1 := Scanning(s, 3, 1);
    PassOver(s1, 3, 1);
    var s2 := Scanning(s, 3, 2);
    assert Scanning(s1, 3, 2) == s2;
    Trans(s, s1, s2);
    Start(s2, 3, 2);
    var s3 := Started(s2, 3, 2);
    Trans(s, s2, s3);
    BeginExit(s3, 3, 2);
    Trans(s, s3, Goto(s3, 2, ExitSelfWant));
  }

  /** The rest of exit for a process without children of its own from i on. */
  lemma {:induction false} RepAll(s: State, c: nat, p: nat, pp: nat, i: nat)
    requires OnCpu(s, c, p) && s.procs[p].pc == ExitRep(pp, i) && i <= |s.procs|
    requires forall j :: i <= j < |s.procs| ==> s.procs[j].parent != Some(p)
    ensures Reaches(s, Goto(s, p, ExitRep(pp, |s.procs|)))
    decreases |s.procs| - i
  {
    hide Reaches;
    if i == |s.procs| {
      Stay(s);
      assert Goto(s, p, ExitRep(pp, i)).procs == s.procs;
    } else {
      RepOver(s, c, p, pp, i);
      var s1 := Goto(s, p, ExitRep(pp, i + 1));
      forall j | i + 1 <= j < |s1.procs| ensures s1.procs[j].parent != Some(p) {
        assert s1.procs[j].parent == s.procs[j].parent;
      }
      RepAll(s1, c, p, pp, i + 1);
      assert Goto(s1, p, ExitRep(pp, |s.procs|)) == Goto(s, p, ExitRep(pp, |s.procs|));
      Trans(s, s1, Goto(s, p, ExitRep(pp, |s.procs|)));
    }
  }

  lemma BExits()
    ensures Reaches(FAMILY3, B_DONE)
  {
    hide Reaches;
    BStarts();
    var s := Four([Running(3), Running(0), Running(1), Running(2)],
                  [Live(3), Live(0), Rec(RUNNING, Some(1), ExitSelfWant), INIT]);
    assert Goto(Started(Scanning(FAMILY3, 3, 2), 3, 2), 2, ExitSelfWant) == s;
    FindParent(s, 3, 2, 1);
    var s1 := Both(s, 3, 2, 1, ExitRep(1, 0));
    Trans(FAMILY3, s, s1);
    RepAll(s1, 3, 2, 1, 0);
    var s2 := Both(s, 3, 2, 1, ExitRep(1, 4));
    assert Goto(s1, 2, ExitRep(1, 4)) == s2;
    Trans(FAMILY3, s1, s2);
    EndExit(s2, 3, 2, 1);
    assert s2.owner - {PLock(1)} - {PLock(2)} == map[];
    assert Zombie(s2, 3, 2, 1) == B_DONE;
    Trans(FAMILY3, s2, B_DONE);
  }

  lemma AStartsToExit()
    ensures Reaches(B_DONE, A_EXITS)
  {
    BeginExit(B_DONE, 2, 1);
    assert Goto(B_DONE, 1, ExitSelfWant) == A_EXITS;
  }

  lemma InitWaits()
    ensures Reaches(A_EXITS, INIT_SLEEPS)
  {
    hide Reaches;
    var s := A_EXITS;
    BeginWait(s, 0, 3);
    var s1 := Own(s, 0, 3, WaitScan(0, false));
    WaitKid(s1, 0, 3, 0, false);
    var s2 := Own(s, 0, 3, WaitScan(1, true));
    assert Goto(s1, 3, WaitScan(1, true)) == s2;
    Trans(s, s1, s2);
    WaitOver(s2, 0, 3, 1, true);
    var s3 := Own(s, 0, 3, WaitScan(2, true));
    assert Goto(s2, 3, WaitScan(2, true)) == s3;
    Trans(s, s2, s3);
    WaitOver(s3, 0, 3, 2, true);
    var s4 := Own(s, 0, 3, WaitScan(3, true));
    assert Goto(s3, 3, WaitScan(3, true)) == s4;
    Trans(s, s3, s4);
    WaitOver(s4, 0, 3, 3, true);
    var s5 := Own(s, 0, 3, WaitScan(4, true));
    assert Goto(s4, 3, WaitScan(4, true)) == s5;
    Trans(s, s4, s5);
    FallAsleep(s5, 0, 3);
    assert s5.owner - {PLock(3)} == map[];
    assert Asleep(s5, 0, 3) == INIT_SLEEPS;
    Trans(s, s5, INIT_SLEEPS);
  }

  /** A holds P's lock and its own and has looked at some processes. */
  function Giving(i: nat, b: Proc): State {
    State([Looking(0), Running(0), Running(1), Looking(3)],
          [Live(3), Rec(RUNNING, Some(0), ExitRep(0, i)), b, SLEEPER], [], map[PLock(0) := 2, PLock(1) := 2], 3)
  }

  const B_BEFORE: Proc := Rec(ZOMBIE, Some(1), Resume(Dead))
  const B_AFTER: Proc := Proc(ZOMBIE, Nothing, Some(3), false, Resume(Dead), {}, true)

  lemma ALocks()
    ensures Reaches(INIT_SLEEPS, Giving(0, B_BEFORE))
  {
    hide Reaches;
    FindParent(INIT_SLEEPS, 2, 1, 0);
    assert Both(INIT_SLEEPS, 2, 1, 0, ExitRep(0, 0)) == Giving(0, B_BEFORE);
  }

  lemma AFindsB()
    ensures Reaches(INIT_SLEEPS, Giving(2, B_BEFORE))
  {
    hide Reaches;
    ALocks();
    var s0, s1, s2 := Giving(0, B_BEFORE), Giving(1, B_BEFORE), Giving(2, B_BEFORE);
    RepOver(s0, 2, 1, 0, 0);
    assert Goto(s0, 1, ExitRep(0, 1)) == s1;
    RepOver(s1, 2, 1, 0, 1);
    assert Goto(s1, 1, ExitRep(0, 2)) == s2;
    Trans(s0, s1, s2);
    Trans(INIT_SLEEPS, s0, s2);
  }

  lemma AGivesBAway()
    ensures Reaches(Giving(2, B_BEFORE), MISSED)
  {
    hide Reaches;
    var s, s1, s2 := Giving(2, B_BEFORE), Giving(3, B_AFTER), Giving(4, B_AFTER);
    RepHere(s, 2, 1, 0, 2);
    assert Adopted(s, 1, 0, 2) == s1;
    RepOver(s1, 2, 1, 0, 3);
    assert Goto(s1, 1, ExitRep(0, 4)) == s2;
    Trans(s, s1, s2);
    EndExit(s2, 2, 1, 0);
    assert s2.owner - {PLock(0)} - {PLock(1)} == map[];
    assert Zombie(s2, 2, 1, 0) == MISSED;
    Trans(s, s2, MISSED);
  }

  /**
   init can sleep over a ZOMBIE child: a run from boot ends with every spin-lock free, init
   asleep in wait and a ZOMBIE child of init, which an exiting parent gave to it.
   */
  lemma InitMissesExit()
    ensures Booted(START)
    ensures exists acts :: ValidRun(START, acts) && var s := Path(START, acts);
              && s.owner == map[] && s.initproc < |s.procs|
              && s.procs[s.initproc].state == SLEEPING && s.procs[s.initproc].chan == OnProc(s.initproc)
              && exists i :: 0 <= i < |s.procs| && s.procs[i].state == ZOMBIE && s.procs[i].parent == Some(s.initproc)
  {
    hide Enabled, Do;
    InitForks();
    PForks();
    Trans(START, FAMILY1, FAMILY2);
    AForks();
    Trans(START, FAMILY2, FAMILY3);
    BExits();
    Trans(START, FAMILY3, B_DONE);
    AStartsToExit();
    Trans(START, B_DONE, A_EXITS);
    InitWaits();
    Trans(START, A_EXITS, INIT_SLEEPS);
    AFindsB();
    Trans(START, INIT_SLEEPS, Giving(2, B_BEFORE));
    AGivesBAway();
    Trans(START, Giving(2, B_BEFORE), MISSED);
    var acts :| ValidRun(START, acts) && Path(START, acts) == MISSED;
    assert MISSED.procs[2].state == ZOMBIE;
  }
}
