/**
 What the operations on processes and sleep-locks come to when nothing interferes
 (kernel/proc/proc.c:245-433, 560-614, kernel/lock/sleeplock.c): from any state in which the
 spin-locks needed are free, the steps of one thread reach the state the operation promises.
 */
module Alone {
  import opened Common
  import opened Scheduler
  import opened MissedExit

  /** p is in the kernel on CPU c with no operation under way, and no spin-lock is held. */
  predicate Ready(s: State, c: nat, p: nat) {
    OnCpu(s, c, p) && s.procs[p].pc == User && s.procs[p].state == RUNNING && s.owner == map[]
  }

  // ---------------------------------------------------------------- the scheduler

  /** p runs on CPU c, at the point where it left the CPU, with its lock held. */
  function Picked(s: State, c: nat, p: nat): State
    requires c < |s.cpus| && p < |s.procs|
  {
    s.(cpus := s.cpus[c := Cpu(Some(p), Run(p))], owner := s.owner[PLock(p) := c],
       procs := s.procs[p := s.procs[p].(state := RUNNING)])
  }

  lemma PickAlone(s: State, c: nat, p: nat)
    requires AtScan(s, c, p) && s.procs[p].state == RUNNABLE
    ensures Reaches(s, Picked(s, c, p))
  {
    hide DoNext, Reaches;
    Stay(s);
    var s1 := Switch(Take(s, c, PLock(p)), c, Sched(SchedPc.Picked(p)));
    var s2 := Switch(SetProc(s1, p, s1.procs[p].(state := RUNNING)), c, Sched(Starting(p)));
    var s3 := s2.(cpus := s2.cpus[c := Cpu(Some(p), Sched(Current(p)))]);
    Then(s, s, c, OpWait, s1);
    Then(s, s1, c, OpWait, s2);
    Then(s, s2, c, OpWait, s3);
    Then(s, s3, c, OpWait, Picked(s, c, p));
  }

  // ---------------------------------------------------------------- acquiresleep and releasesleep

  /** acquiresleep of a free lock. */
  lemma AcquireAlone(s: State, c: nat, p: nat, l: nat)
    requires Ready(s, c, p) && l < |s.locked| && !s.locked[l]
    ensures Reaches(s, SetProc(s, p, s.procs[p].(held := s.procs[p].held + {l})).(locked := s.locked[l := true]))
  {
    hide Reaches;
    Begins(s, c, p, OpAcquire(l));
    var s1 := Goto(s, p, AcqWant(l));
    TakesFree(s1, c, p, l);
    var t := SetProc(s, p, s.procs[p].(held := s.procs[p].held + {l})).(locked := s.locked[l := true]);
    assert HasTaken(s1, p, l).procs == t.procs;
    Trans(s, s1, t);
  }

  /** Every process from i on that sleeps on l is RUNNABLE. */
  function WokenFrom(procs: seq<Proc>, l: nat, i: nat): (r: seq<Proc>)
    ensures |r| == |procs|
  {
    seq(|procs|, j requires 0 <= j < |procs| => if j >= i then Woken(procs[j], OnLock(l)) else procs[j])
  }

  lemma WakeOne(s: State, c: nat, p: nat, l: nat, i: nat)
    requires OnCpu(s, c, p) && s.procs[p].pc == Wake(l, i) && s.procs[p].state == RUNNING && i < |s.procs|
    requires s.owner == map[LK(l) := c]
    ensures Reaches(s, Goto(SetProc(s, i, Woken(s.procs[i], OnLock(l))), p, Wake(l, i + 1)))
  {
    hide Reaches;
    Stay(s);
    Acquires(s, s, c, p, OpWait, PLock(i));
    var s1 := Goto(Take(s, c, PLock(i)), p, WakeHold(l, i));
    hide Wants, Acquired;
    Remotely(s, s1, c, p, OpWait);
    TakeGive(s.owner, PLock(i), c);
    var s2 := AfterRemote(s1, p, RemoteOf(s1, p, false));
    assert s2 == Goto(SetProc(s, i, Woken(s.procs[i], OnLock(l))), p, Wake(l, i + 1));
  }

  lemma {:induction false} WakeRest(s: State, c: nat, p: nat, l: nat, i: nat)
    requires OnCpu(s, c, p) && s.procs[p].pc == Wake(l, i) && s.procs[p].state == RUNNING && i <= |s.procs|
    requires s.owner == map[LK(l) := c]
    ensures Reaches(s, Goto(s.(procs := WokenFrom(s.procs, l, i), owner := map[]), p, User))
    decreases |s.procs| - i
  {
    hide Reaches;
    var t := Goto(s.(procs := WokenFrom(s.procs, l, i), owner := map[]), p, User);
    if i == |s.procs| {
      assert WokenFrom(s.procs, l, i) == s.procs;
      Stay(s);
      Releases(s, s, c, p, OpWait);
      assert s.owner - {LK(l)} == map[];
      assert Goto(Drop(s, LK(l)), p, User) == t;
    } else {
      WakeOne(s, c, p, l, i);
      var s1 := Goto(SetProc(s, i, Woken(s.procs[i], OnLock(l))), p, Wake(l, i + 1));
      WakeRest(s1, c, p, l, i + 1);
      assert Goto(s1.(procs := WokenFrom(s1.procs, l, i + 1), owner := map[]), p, User).procs == t.procs;
      Trans(s, s1, t);
    }
  }

  /** releasesleep by the holder: the lock is free and everyone who slept on it is RUNNABLE. */
  lemma ReleaseAlone(s: State, c: nat, p: nat, l: nat)
    requires Ready(s, c, p) && l < |s.locked| && l in s.procs[p].held
    ensures var s1 := SetProc(s, p, s.procs[p].(held := s.procs[p].held - {l}));
            Reaches(s, s1.(procs := WokenFrom(s1.procs, l, 0), locked := s.locked[l := false]))
  {
    hide Reaches;
    Begins(s, c, p, OpRelease(l));
    var s1 := Goto(s, p, RelWant(l));
    Acquires(s, s1, c, p, OpWait, LK(l));
    var s2 := Goto(Take(s1, c, LK(l)), p, RelClear(l));
    var s3 := SetProc(s2, p, s2.procs[p].(held := s2.procs[p].held - {l}, pc := Wake(l, 0)))
                .(locked := s2.locked[l := false]);
    StepOf(s, s2, c, p, OpWait, s3);
    assert s3.owner == map[LK(l) := c];
    WakeRest(s3, c, p, l, 0);
    var t := Goto(s3.(procs := WokenFrom(s3.procs, l, 0), owner := map[]), p, User);
    var u := SetProc(s, p, s.procs[p].(held := s.procs[p].held - {l}));
    assert t.procs == WokenFrom(u.procs, l, 0);
    Trans(s, s3, t);
  }

  // ---------------------------------------------------------------- kill

  lemma KillPasses(s: State, c: nat, p: nat, i: nat)
    requires OnCpu(s, c, p) && s.procs[p].pc == KillScan(i) && i < |s.procs| && s.owner == map[]
    ensures Reaches(s, Goto(s, p, KillScan(i + 1)))
  {
    hide Reaches;
    Stay(s);
    Acquires(s, s, c, p, OpWait, PLock(i));
    var s1 := Goto(Take(s, c, PLock(i)), p, KillHold(i));
    hide Wants, Acquired;
    Releases(s, s1, c, p, OpWait);
    TakeGive(s.owner, PLock(i), c);
    assert Goto(Drop(s1, PLock(i)), p, KillScan(i + 1)) == Goto(s, p, KillScan(i + 1));
  }

  lemma KillHits(s: State, c: nat, p: nat, q: nat)
    requires OnCpu(s, c, p) && s.procs[p].pc == KillScan(q) && q < |s.procs| && s.owner == map[]
    ensures Reaches(s, Goto(SetProc(s, q, Killed(s.procs[q])), p, User))
  {
    hide Reaches;
    Stay(s);
    Acquires(s, s, c, p, OpWait, PLock(q));
    var s1 := Goto(Take(s, c, PLock(q)), p, KillHold(q));
    var a := Action(c, OpWait, true);
    RemoteShape(s1, c, p, OpWait, true);
    OneAction(s1, a);
    TakeGive(s.owner, PLock(q), c);
    var t := Goto(SetProc(s, q, Killed(s.procs[q])), p, User);
    assert Do(s1, a).procs == t.procs;
    assert Do(s1, a) == t;
    Trans(s, s1, t);
  }

  lemma OneAction(s: State, a: Action)
    requires Enabled(s, a)
    ensures Reaches(s, Do(s, a))
  {
    hide Enabled, Do;
    assert [a][1..] == [];
    assert ValidRun(s, [a]) && Path(s, [a]) == Do(s, a);
  }

  lemma {:induction false} KillFrom(s: State, c: nat, p: nat, i: nat, q: nat)
    requires OnCpu(s, c, p) && s.procs[p].pc == KillScan(i) && i <= q < |s.procs| && s.owner == map[]
    ensures Reaches(s, Goto(SetProc(s, q, Killed(s.procs[q])), p, User))
    decreases q - i
  {
    hide Reaches;
    if i == q {
      KillHits(s, c, p, q);
    } else {
      KillPasses(s, c, p, i);
      var s1 := Goto(s, p, KillScan(i + 1));
      KillFrom(s1, c, p, i + 1, q);
      var t := Goto(SetProc(s, q, Killed(s.procs[q])), p, User);
      assert Goto(SetProc(s1, q, Killed(s1.procs[q])), p, User).procs == t.procs;
      Trans(s, s1, t);
    }
  }

  /** kill of process q: it is killed, and no longer asleep. */
  lemma KillAlone(s: State, c: nat, p: nat, q: nat)
    requires Ready(s, c, p) && q < |s.procs|
    ensures var r := s.procs[q];
            Reaches(s, SetProc(s, q, r.(killed := true, state := if r.state == SLEEPING then RUNNABLE else r.state)))
  {
    hide Reaches;
    Begins(s, c, p, OpKill);
    var s1 := Goto(s, p, KillScan(0));
    KillFrom(s1, c, p, 0, q);
    var t := SetProc(s, q, Killed(s.procs[q]));
    assert Goto(SetProc(s1, q, Killed(s1.procs[q])), p, User).procs == t.procs;
    Trans(s, s1, t);
  }

  // ---------------------------------------------------------------- fork

  lemma {:induction false} ForkFrom(s: State, c: nat, p: nat, i: nat, q: nat)
    requires OnCpu(s, c, p) && s.procs[p].pc == ForkScan(i) && i <= q < |s.procs| && s.owner == map[] && q != p
    requires s.procs[q].state == UNUSED && forall j :: i <= j < q ==> s.procs[j].state != UNUSED
    ensures Reaches(s, AfterFork(s, p, q))
    decreases q - i
  {
    hide Reaches;
    if i == q {
      ForkHere(s, c, p, q);
    } else {
      ForkOver(s, c, p, i);
      var s1 := Goto(s, p, ForkScan(i + 1));
      ForkFrom(s1, c, p, i + 1, q);
      assert AfterFork(s1, p, q).procs == AfterFork(s, p, q).procs;
      Trans(s, s1, AfterFork(s, p, q));
    }
  }

  /** fork: the first UNUSED slot becomes a RUNNABLE child of p. */
  lemma ForkAlone(s: State, c: nat, p: nat, q: nat)
    requires Ready(s, c, p) && q < |s.procs| && s.procs[q].state == UNUSED
    requires forall j :: 0 <= j < q ==> s.procs[j].state != UNUSED
    ensures var r := s.procs[q];
            Reaches(s, SetProc(s, q, r.(state := RUNNABLE, parent := Some(p), pc := Resume(ForkRet), held := {},
                                        adopted := false)))
  {
    hide Reaches;
    Begins(s, c, p, OpFork);
    var s1 := Goto(s, p, ForkScan(0));
    ForkFrom(s1, c, p, 0, q);
    var t := SetProc(s, q, Forked(s.procs[q], p));
    assert AfterFork(s1, p, q).procs == t.procs;
    Trans(s, s1, t);
  }

  // ---------------------------------------------------------------- wait

  /** p scans its children with its own lock held. */
  predicate Scans(s: State, c: nat, p: nat, i: nat) {
    && OnCpu(s, c, p) && s.procs[p].pc.WaitScan? && s.procs[p].pc.i == i && s.owner == map[PLock(p) := c]
    && s.procs[p].parent != Some(p)
  }

  lemma ScanPasses(s: State, c: nat, p: nat, i: nat) returns (kids: bool)
    requires Scans(s, c, p, i) && i < |s.procs| && (s.procs[i].parent == Some(p) ==> s.procs[i].state != ZOMBIE)
    ensures Reaches(s, Goto(s, p, WaitScan(i + 1, kids)))
  {
    hide Reaches;
    Stay(s);
    Locally(s, s, c, p, OpWait);
    kids := s.procs[p].pc.kids;
    if s.procs[i].parent == Some(p) {
      var s1 := Goto(s, p, WaitLock(i));
      Acquires(s, s1, c, p, OpWait, PLock(i));
      var s2 := Goto(Take(s1, c, PLock(i)), p, WaitHold(i));
      hide Wants, Acquired;
      Releases(s, s2, c, p, OpWait);
      TakeGive(s.owner, PLock(i), c);
      kids := true;
      assert Goto(Drop(s2, PLock(i)), p, WaitScan(i + 1, true)) == Goto(s, p, WaitScan(i + 1, true));
    }
  }

  lemma ScanReaps(s: State, c: nat, p: nat, i: nat)
    requires Scans(s, c, p, i) && i < |s.procs| && s.procs[i].parent == Some(p) && s.procs[i].state == ZOMBIE
    ensures Reaches(s, Goto(SetProc(s, i, Unused(s.procs[i])), p, User).(owner := map[]))
  {
    hide Reaches;
    Stay(s);
    Locally(s, s, c, p, OpWait);
    var s1 := Goto(s, p, WaitLock(i));
    Acquires(s, s1, c, p, OpWait, PLock(i));
    var s2 := Goto(Take(s1, c, PLock(i)), p, WaitHold(i));
    HoldReaps(s2, c, p, i);
    var t := Goto(SetProc(s, i, Unused(s.procs[i])), p, User).(owner := map[]);
    assert Goto(SetProc(s2, i, Unused(s2.procs[i])), p, User).(owner := map[]).procs == t.procs;
    Trans(s, s2, t);
  }

  lemma HoldReaps(s: State, c: nat, p: nat, i: nat)
    requires OnCpu(s, c, p) && s.procs[p].pc == WaitHold(i) && i < |s.procs| && s.procs[i].state == ZOMBIE && i != p
    requires s.owner == map[PLock(p) := c][PLock(i) := c]
    ensures Reaches(s, Goto(SetProc(s, i, Unused(s.procs[i])), p, User).(owner := map[]))
  {
    hide Reaches, Wants;
    Stay(s);
    Remotely(s, s, c, p, OpWait);
    var s3 := Goto(SetProc(s, i, Unused(s.procs[i])), p, WaitFreed(i));
    assert AfterRemote(s, p, RemoteOf(s, p, false)) == s3;
    Releases(s, s3, c, p, OpWait);
    var s4 := Goto(Drop(s3, PLock(i)), p, WaitEnd);
    Releases(s, s4, c, p, OpWait);
    var t := Goto(SetProc(s, i, Unused(s.procs[i])), p, User).(owner := map[]);
    assert Drop(Drop(s3, PLock(i)), PLock(p)).owner == map[];
    assert Goto(Drop(s4, PLock(p)), p, User).procs == t.procs;
    assert Goto(Drop(s4, PLock(p)), p, User) == t;
  }

  lemma {:induction false} ScanFrom(s: State, c: nat, p: nat, i: nat, q: nat)
    requires Scans(s, c, p, i) && i <= q < |s.procs| && s.procs[q].parent == Some(p) && s.procs[q].state == ZOMBIE
    requires forall j :: i <= j < q && s.procs[j].parent == Some(p) ==> s.procs[j].state != ZOMBIE
    ensures Reaches(s, Goto(SetProc(s, q, Unused(s.procs[q])), p, User).(owner := map[]))
    decreases q - i
  {
    hide Reaches;
    if i == q {
      ScanReaps(s, c, p, q);
    } else {
      var kids := ScanPasses(s, c, p, i);
      var s1 := Goto(s, p, WaitScan(i + 1, kids));
      ScanFrom(s1, c, p, i + 1, q);
      var t := Goto(SetProc(s, q, Unused(s.procs[q])), p, User).(owner := map[]);
      assert Goto(SetProc(s1, q, Unused(s1.procs[q])), p, User).procs == t.procs;
      Trans(s, s1, t);
    }
  }

  /** wait with a ZOMBIE child: the first such slot is freed. */
  lemma WaitAlone(s: State, c: nat, p: nat, q: nat)
    requires Ready(s, c, p) && s.procs[p].parent != Some(p)
    requires q < |s.procs| && s.procs[q].parent == Some(p) && s.procs[q].state == ZOMBIE
    requires forall j :: 0 <= j < q && s.procs[j].parent == Some(p) ==> s.procs[j].state != ZOMBIE
    ensures var r := s.procs[q];
            Reaches(s, SetProc(s, q, r.(state := UNUSED, chan := Nothing, parent := None, killed := false,
                                        adopted := false)))
  {
    hide Reaches;
    Begins(s, c, p, OpWait);
    var s1 := Goto(s, p, WaitWant);
    Acquires(s, s1, c, p, OpWait, PLock(p));
    var s2 := Goto(Take(s1, c, PLock(p)), p, WaitScan(0, false));
    ScanFrom(s2, c, p, 0, q);
    var t := SetProc(s, q, Unused(s.procs[q]));
    assert Goto(SetProc(s2, q, Unused(s2.procs[q])), p, User).(owner := map[]).procs == t.procs;
    Trans(s, s2, t);
  }

  // ---------------------------------------------------------------- yield

  /** p was interrupted and left the CPU: it goes on from the same point when it is picked. */
  function Yielded(s: State, c: nat, p: nat): State
    requires c < |s.cpus| && p < |s.procs|
  {
    var next := if p + 1 < |s.procs| then p + 1 else 0;
    s.(cpus := s.cpus[c := Cpu(None, Sched(Scan(next)))],
       procs := s.procs[p := s.procs[p].(state := RUNNABLE, pc := Resume(AfterYield(s.procs[p].pc)))])
  }

  /** A timer interrupt at any point where no spin-lock is held. */
  lemma YieldAlone(s: State, c: nat, p: nat)
    requires OnCpu(s, c, p) && Preemptible(s.procs[p].pc) && s.owner == map[]
    ensures Reaches(s, Yielded(s, c, p))
  {
    hide Reaches;
    var pc := s.procs[p].pc;
    Stay(s);
    var s1 := Goto(s, p, YieldWant(pc));
    Then(s, s, c, OpYield, s1);
    Acquires(s, s1, c, p, OpWait, PLock(p));
    var s2 := Goto(Take(s1, c, PLock(p)), p, YieldSet(pc));
    YieldLeaves(s2, c, p);
    TakeGive(s.owner, PLock(p), c);
    assert Left(s2, c, p, pc).procs == Yielded(s, c, p).procs;
    Trans(s, s2, Yielded(s, c, p));
  }

  function Left(s: State, c: nat, p: nat, pc: Pc): State
    requires c < |s.cpus| && p < |s.procs|
  {
    Yielded(Goto(s, p, pc), c, p).(owner := s.owner - {PLock(p)})
  }

  lemma YieldLeaves(s: State, c: nat, p: nat)
    requires OnCpu(s, c, p) && s.procs[p].pc.YieldSet?
    ensures Reaches(s, Left(s, c, p, s.procs[p].pc.back))
  {
    hide Reaches;
    var pc := s.procs[p].pc.back;
    Stay(s);
    Locally(s, s, c, p, OpWait);
    var s1 := SetProc(s, p, s.procs[p].(state := RUNNABLE, pc := YieldGo(pc)));
    var s2 := SwitchOut(s1, c, p, AfterYield(pc));
    StepOf(s, s1, c, p, OpWait, s2);
    var s3 := s2.(cpus := s2.cpus[c := Cpu(None, Sched(Leaving(p)))]);
    Then(s, s2, c, OpWait, s3);
    var t := Left(s, c, p, pc);
    assert Do(s3, Action(c, OpWait, false)).procs == t.procs;
    Then(s, s3, c, OpWait, t);
  }

  /** The scheduler picks an interrupted process, which goes on where it was. */
  lemma ResumeAlone(s: State, c: nat, p: nat, back: Pc)
    requires AtScan(s, c, p) && s.procs[p].state == RUNNABLE && s.procs[p].pc == Resume(AfterYield(back))
    ensures Reaches(s, s.(cpus := s.cpus[c := Cpu(Some(p), Run(p))],
                          procs := s.procs[p := s.procs[p].(state := RUNNING, pc := back)]))
  {
    hide DoNext, Reaches;
    PickAlone(s, c, p);
    var s4 := Picked(s, c, p);
    TakeGive(s.owner, PLock(p), c);
    Releases(s, s4, c, p, OpWait);
    var t := s.(cpus := s.cpus[c := Cpu(Some(p), Run(p))],
                procs := s.procs[p := s.procs[p].(state := RUNNING, pc := back)]);
    assert Goto(Scheduler.Drop(s4, PLock(p)), p, back).procs == t.procs;
    assert Goto(Scheduler.Drop(s4, PLock(p)), p, back) == t;
  }

  // ---------------------------------------------------------------- going to sleep and waking up

  /** p left CPU c asleep on ch, to go on at k. */
  function Asleep(s: State, c: nat, p: nat, ch: Chan, k: Saved): State
    requires c < |s.cpus| && p < |s.procs|
  {
    s.(cpus := s.cpus[c := s.cpus[c].(on := Sched(Back(p)))], owner := map[PLock(p) := c],
       procs := s.procs[p := s.procs[p].(state := SLEEPING, chan := ch, pc := Resume(k))])
  }

  /** acquiresleep of a lock that someone holds: the process sleeps on it. */
  lemma SleepAlone(s: State, c: nat, p: nat, l: nat)
    requires Ready(s, c, p) && l < |s.locked| && s.locked[l]
    ensures Reaches(s, Asleep(s, c, p, OnLock(l), AfterSleep(l)))
  {
    hide Reaches;
    Begins(s, c, p, OpAcquire(l));
    var s1 := Goto(s, p, AcqWant(l));
    Acquires(s, s1, c, p, OpWait, LK(l));
    var s2 := Goto(Take(s1, c, LK(l)), p, AcqTest(l));
    Locally(s, s2, c, p, OpWait);
    var s3 := Goto(s2, p, SleepWant(l));
    Acquires(s, s3, c, p, OpWait, PLock(p));
    var s4 := Goto(Take(s3, c, PLock(p)), p, SleepBoth(l));
    Releases(s, s4, c, p, OpWait);
    var s5 := Goto(Drop(s4, LK(l)), p, SleepChan(l));
    assert s5.owner == map[PLock(p) := c];
    FallsAsleep(s5, c, p, l);
    assert Asleep(s5, c, p, OnLock(l), AfterSleep(l)).procs == Asleep(s, c, p, OnLock(l), AfterSleep(l)).procs;
    Trans(s, s5, Asleep(s, c, p, OnLock(l), AfterSleep(l)));
  }

  lemma FallsAsleep(s: State, c: nat, p: nat, l: nat)
    requires OnCpu(s, c, p) && s.procs[p].pc == SleepChan(l) && s.owner == map[PLock(p) := c]
    ensures Reaches(s, Asleep(s, c, p, OnLock(l), AfterSleep(l)))
  {
    hide Reaches;
    Stay(s);
    Locally(s, s, c, p, OpWait);
    var s1 := SetProc(s, p, s.procs[p].(chan := OnLock(l), pc := SleepState(l)));
    Locally(s, s1, c, p, OpWait);
    var s2 := SetProc(s1, p, s1.procs[p].(state := SLEEPING, pc := SleepGo(l)));
    var t := Asleep(s, c, p, OnLock(l), AfterSleep(l));
    assert SwitchOut(s2, c, p, AfterSleep(l)).procs == t.procs;
    StepOf(s, s2, c, p, OpWait, t);
  }

  /** A process woken on a lock that is free takes it before it goes on. */
  lemma WakesAndTakes(s: State, c: nat, p: nat, l: nat)
    requires AtScan(s, c, p) && s.procs[p].state == RUNNABLE && s.procs[p].pc == Resume(AfterSleep(l))
    requires s.owner == map[] && l < |s.locked| && !s.locked[l]
    ensures var r := s.procs[p];
            Reaches(s, s.(cpus := s.cpus[c := Cpu(Some(p), Run(p))], locked := s.locked[l := true],
                          procs := s.procs[p :=
                              r.(state := RUNNING, chan := Nothing, pc := User, held := r.held + {l})]))
  {
    hide Reaches;
    var r := s.procs[p];
    PickAlone(s, c, p);
    var s1 := Picked(s, c, p);
    Locally(s, s1, c, p, OpWait);
    var s2 := SetProc(s1, p, s1.procs[p].(chan := Nothing, pc := SleepTidy(l)));
    Releases(s, s2, c, p, OpWait);
    var s3 := Goto(Drop(s2, PLock(p)), p, AcqWant(l));
    assert s3.owner == map[];
    TakesFree(s3, c, p, l);
    var t := s.(cpus := s.cpus[c := Cpu(Some(p), Run(p))], locked := s.locked[l := true],
                procs := s.procs[p := r.(state := RUNNING, chan := Nothing, pc := User, held := r.held + {l})]);
    assert HasTaken(s3, p, l).procs == t.procs;
    Trans(s, s3, t);
  }

  function HasTaken(s: State, p: nat, l: nat): State
    requires p < |s.procs| && l < |s.locked|
  {
    SetProc(s, p, s.procs[p].(held := s.procs[p].held + {l}, pc := User)).(locked := s.locked[l := true])
  }

  lemma TakesFree(s: State, c: nat, p: nat, l: nat)
    requires OnCpu(s, c, p) && s.procs[p].pc == AcqWant(l) && s.owner == map[] && l < |s.locked| && !s.locked[l]
    ensures Reaches(s, HasTaken(s, p, l))
  {
    hide Reaches;
    Stay(s);
    Acquires(s, s, c, p, OpWait, LK(l));
    var s2 := Goto(Take(s, c, LK(l)), p, AcqTest(l));
    var s3 := SetProc(s2, p, s2.procs[p].(held := s2.procs[p].held + {l}, pc := AcqDone(l)))
                .(locked := s2.locked[l := true]);
    StepOf(s, s2, c, p, OpWait, s3);
    Releases(s, s3, c, p, OpWait);
    TakeGive(s.owner, LK(l), c);
    assert Goto(Drop(s3, LK(l)), p, User).procs == HasTaken(s, p, l).procs;
    assert Goto(Drop(s3, LK(l)), p, User) == HasTaken(s, p, l);
  }

  /** A process woken in wait looks at its children again, and frees a ZOMBIE. */
  lemma WakesAndReaps(s: State, c: nat, p: nat, q: nat)
    requires AtScan(s, c, p) && s.procs[p].state == RUNNABLE && s.procs[p].pc == Resume(AfterWait)
    requires s.owner == map[] && s.procs[p].parent != Some(p) && q != p
    requires q < |s.procs| && s.procs[q].parent == Some(p) && s.procs[q].state == ZOMBIE
    requires forall j :: 0 <= j < q && s.procs[j].parent == Some(p) ==> s.procs[j].state != ZOMBIE
    ensures Reaches(s, s.(cpus := s.cpus[c := Cpu(Some(p), Run(p))],
                          procs := s.procs[q := Unused(s.procs[q])]
                                          [p := s.procs[p].(state := RUNNING, chan := Nothing, pc := User)]))
  {
    hide Reaches;
    PickAlone(s, c, p);
    var s1 := Picked(s, c, p);
    Locally(s, s1, c, p, OpWait);
    var s2 := SetProc(s1, p, s1.procs[p].(chan := Nothing, pc := WaitScan(0, false)));
    ScanFrom(s2, c, p, 0, q);
    var t := s.(cpus := s.cpus[c := Cpu(Some(p), Run(p))],
                procs := s.procs[q := Unused(s.procs[q])]
                                [p := s.procs[p].(state := RUNNING, chan := Nothing, pc := User)]);
    assert Goto(SetProc(s2, q, Unused(s2.procs[q])), p, User).procs == t.procs;
    Trans(s, s2, t);
  }
}
