/**
 Who is whose parent (kernel/proc/proc.c), and that no CPU spins on a lock it holds itself,
 on which acquire() would panic (kernel/lock/spinlock.c:25-26).
 */
module Family {
  import opened Common
  import opened Scheduler

  /** A process at this point has decided to exit. */
  predicate Exits(pc: Pc) {
    match pc
    case YieldWant(back) => ExitPoint(back)
    case YieldSet(back) => ExitPoint(back)
    case YieldGo(back) => ExitPoint(back)
    case Resume(AfterYield(back)) => ExitPoint(back)
    case Resume(Dead) => true
    case _ => ExitPoint(pc)
  }

  predicate ExitPoint(pc: Pc) {
    || pc.ExitInitWant? || pc.ExitInit? || pc.ExitSelfWant? || pc.ExitSelf? || pc.ExitParentWant? || pc.ExitOwnWant?
    || pc.ExitRep? || pc.ExitRepWant? || pc.ExitRepHold? || pc.ExitZombie? || pc.ExitLeave? || pc.ExitGo?
  }

  /** The child a process in wait or exit is about to lock or has locked. */
  function Watch(pc: Pc): Option<nat> {
    match pc
    case WaitLock(i) => Some(i)
    case WaitHold(i) => Some(i)
    case ExitRepWant(_, i) => Some(i)
    case ExitRepHold(_, i) => Some(i)
    case _ => None
  }

  /** The process has no child i: it was given away, or the process is gone. */
  predicate NoKid(r: Proc, i: nat) {
    || ((r.pc.ExitRep? || r.pc.ExitRepWant? || r.pc.ExitRepHold?) && i < r.pc.i)
    || r.pc.ExitZombie? || r.pc.ExitLeave? || r.pc.ExitGo? || r.pc == Resume(Dead)
    || r.state == UNUSED || r.state == ZOMBIE
  }

  /** A process's parent is another one that still has it, and is not its child. */
  predicate ParentOk(procs: seq<Proc>, p: nat)
    requires p < |procs|
  {
    procs[p].parent.Some? ==>
      var q := procs[p].parent.value;
      q < |procs| && q != p && procs[q].parent != Some(p) && !NoKid(procs[q], p)
  }

  /** The parent that an exiting process has looked up is not its child. */
  predicate FoundOk(procs: seq<Proc>, p: nat)
    requires p < |procs|
  {
    ExitParent(procs[p].pc).Some? ==>
      var pp := ExitParent(procs[p].pc).value;
      pp < |procs| && pp != p && procs[pp].parent != Some(p)
  }

  predicate WatchOk(procs: seq<Proc>, p: nat)
    requires p < |procs|
  {
    Watch(procs[p].pc).Some? ==>
      Watch(procs[p].pc).value < |procs| && procs[Watch(procs[p].pc).value].parent == Some(p)
  }

  predicate MemberOk(procs: seq<Proc>, initproc: nat, p: nat)
    requires p < |procs|
  {
    && (procs[p].state == UNUSED ==> procs[p].parent.None?)
    && (Exits(procs[p].pc) ==> p != initproc)
    && ParentOk(procs, p) && FoundOk(procs, p) && WatchOk(procs, p)
  }

  ghost predicate FamilyInv(s: State) {
    && s.initproc < |s.procs| && s.procs[s.initproc].parent.None?
    && s.procs[s.initproc].state != UNUSED && s.procs[s.initproc].state != ZOMBIE
    && forall p :: 0 <= p < |s.procs| ==> MemberOk(s.procs, s.initproc, p)
  }

  // ---------------------------------------------------------------- steps on one record

  /** The new record of p keeps its parent, and p loses no child that it has. */
  ghost predicate Mild(s: State, p: nat, r': Proc)
    requires p < |s.procs|
  {
    && r'.parent == s.procs[p].parent
    && (forall i: nat :: i < |s.procs| && NoKid(r', i) ==> NoKid(s.procs[p], i) || s.procs[i].parent != Some(p))
    && (p == s.initproc ==> r'.state != UNUSED && r'.state != ZOMBIE)
  }

  lemma OneChanges(s: State, s': State, p: nat)
    requires FamilyInv(s) && p < |s.procs| == |s'.procs| && s'.initproc == s.initproc
    requires forall x :: 0 <= x < |s.procs| && x != p ==> s'.procs[x] == s.procs[x]
    requires Mild(s, p, s'.procs[p]) && MemberOk(s'.procs, s.initproc, p)
    ensures FamilyInv(s')
  {
    hide NoKid, ExitParent, Watch, Exits;
    forall x | 0 <= x < |s'.procs| ensures MemberOk(s'.procs, s'.initproc, x) {
      if x != p { assert MemberOk(s.procs, s.initproc, x); }
    }
  }

  /** A change of place. */
  predicate PlaceOk(s: State, p: nat, pc': Pc)
    requires p < |s.procs|
  {
    var r := s.procs[p];
    && (Exits(pc') ==> Exits(r.pc) || p != s.initproc)
    && (ExitParent(pc').Some? ==> ExitParent(pc') == ExitParent(r.pc) || ExitParent(pc') == r.parent)
    && (Watch(pc').Some? ==>
          || Watch(pc') == Watch(r.pc)
          || (Watch(pc').value < |s.procs| && s.procs[Watch(pc').value].parent == Some(p)))
    && (forall i: nat :: i < |s.procs| && NoKid(r.(pc := pc'), i) ==> NoKid(r, i) || s.procs[i].parent != Some(p))
  }

  /** The record of a process that is neither UNUSED nor a ZOMBIE, at a place that is right. */
  predicate Lively(r: Proc, r': Proc) {
    r'.parent == r.parent && (r'.state == r.state || (r'.state != UNUSED && r'.state != ZOMBIE))
  }

  lemma MovesTo(s: State, s': State, p: nat, r': Proc)
    requires FamilyInv(s) && p < |s.procs| && PlaceOk(s, p, r'.pc) && Lively(s.procs[p], r')
    requires s'.initproc == s.initproc && s'.procs == s.procs[p := r']
    ensures FamilyInv(s')
  {
    assert MemberOk(s.procs, s.initproc, p);
    assert forall i: nat :: NoKid(r', i) ==> NoKid(s.procs[p].(pc := r'.pc), i);
    hide NoKid, ExitParent, Watch, Exits;
    if r'.parent.Some? {
      var q := r'.parent.value;
      assert s'.procs[q] == s.procs[q];
    }
    OneChanges(s, s', p);
  }

  lemma AcquirePlace(s: State, c: nat, p: nat)
    requires c < |s.cpus| && s.cpus[c].on == Run(p) && p < |s.procs| && Wants(s, c).Some?
    ensures PlaceOk(s, p, Acquired(s.procs[p].pc))
  {
  }

  lemma ReleasePlace(s: State, p: nat, flag: bool)
    requires p < |s.procs| && IsRelease(s, p, flag)
    requires s.procs[p].pc.Resume? ==> CanRun(s.procs[p], |s.locked|, |s.procs|)
    ensures PlaceOk(s, p, Released(s, p).1)
  {
    hide IsRelease, Released, NoKid, ExitParent, Watch, Exits;
    ReleaseExits(s, p, flag);
    ReleaseWatch(s, p, flag);
    ReleaseFound(s, p, flag);
    ReleaseKids(s, p, flag);
  }

  lemma ReleaseExits(s: State, p: nat, flag: bool)
    requires p < |s.procs| && IsRelease(s, p, flag)
    requires s.procs[p].pc.Resume? ==> CanRun(s.procs[p], |s.locked|, |s.procs|)
    ensures Exits(Released(s, p).1) ==> Exits(s.procs[p].pc)
  {
  }

  lemma ReleaseWatch(s: State, p: nat, flag: bool)
    requires p < |s.procs| && IsRelease(s, p, flag)
    requires s.procs[p].pc.Resume? ==> CanRun(s.procs[p], |s.locked|, |s.procs|)
    ensures Watch(Released(s, p).1).None?
  {
  }

  lemma ReleaseFound(s: State, p: nat, flag: bool)
    requires p < |s.procs| && IsRelease(s, p, flag)
    requires s.procs[p].pc.Resume? ==> CanRun(s.procs[p], |s.locked|, |s.procs|)
    ensures var r, pc' := s.procs[p], Released(s, p).1;
            ExitParent(pc').Some? ==> ExitParent(pc') == ExitParent(r.pc) || ExitParent(pc') == r.parent
  {
  }

  lemma ReleaseKids(s: State, p: nat, flag: bool)
    requires p < |s.procs| && IsRelease(s, p, flag)
    requires s.procs[p].pc.Resume? ==> CanRun(s.procs[p], |s.locked|, |s.procs|)
    ensures forall i: nat :: NoKid(s.procs[p].(pc := Released(s, p).1), i) ==> NoKid(s.procs[p], i)
  {
  }

  lemma LocalPlace(s: State, p: nat, op: Op)
    requires p < |s.procs| && IsLocal(s, p) && LiveOk(s, p)
    ensures PlaceOk(s, p, LocalProc(s, p, op).pc) && Lively(s.procs[p], LocalProc(s, p, op))
  {
    hide IsLocal, LocalProc, PcOk, NoKid, ExitParent, Watch, Exits;
    LocalRecord(s, p, op);
    LocalExits(s, p, op);
    LocalWatch(s, p, op);
    LocalKids(s, p, op);
    LocalLively(s, p, op);
  }

  lemma LocalExits(s: State, p: nat, op: Op)
    requires p < |s.procs| && IsLocal(s, p)
    ensures Exits(LocalProc(s, p, op).pc) ==> Exits(s.procs[p].pc) || p != s.initproc
  {
  }

  lemma LocalWatch(s: State, p: nat, op: Op)
    requires p < |s.procs| && IsLocal(s, p)
    ensures var w := Watch(LocalProc(s, p, op).pc);
            w.Some? ==> w.value < |s.procs| && s.procs[w.value].parent == Some(p)
  {
  }

  lemma LocalKids(s: State, p: nat, op: Op)
    requires p < |s.procs| && IsLocal(s, p)
    ensures var r := s.procs[p];
            forall i: nat :: i < |s.procs| && NoKid(r.(pc := LocalProc(s, p, op).pc), i) ==>
              NoKid(r, i) || s.procs[i].parent != Some(p)
  {
  }

  lemma LocalLively(s: State, p: nat, op: Op)
    requires p < |s.procs| && IsLocal(s, p)
    ensures Lively(s.procs[p], LocalProc(s, p, op))
  {
  }

  lemma PreemptPlace(s: State, p: nat)
    requires p < |s.procs| && Preemptible(s.procs[p].pc)
    ensures PlaceOk(s, p, YieldWant(s.procs[p].pc))
  {
  }

  lemma SwitchPlace(s: State, p: nat)
    requires p < |s.procs| && Continuation(s.procs[p].pc).Some?
    ensures PlaceOk(s, p, Resume(Continuation(s.procs[p].pc).value))
  {
  }

  /** Waking or killing: only the state changes, from SLEEPING to RUNNABLE. */
  lemma Stirred(s: State, s': State, q: nat, r': Proc)
    requires FamilyInv(s) && q < |s.procs| && s'.initproc == s.initproc && s'.procs == s.procs[q := r']
    requires r'.pc == s.procs[q].pc && Lively(s.procs[q], r')
    ensures FamilyInv(s')
  {
    hide NoKid, ExitParent, Watch, Exits;
    MovesTo(s, s', q, r');
  }

  // ---------------------------------------------------------------- steps on the parent of another

  /** q's record becomes rq and p, another process, is at pc'. */
  function Pair(s: State, p: nat, pc': Pc, q: nat, rq: Proc): seq<Proc>
    requires p < |s.procs| && q < |s.procs|
  {
    s.procs[q := rq][p := s.procs[p].(pc := pc')]
  }

  /** wait frees a ZOMBIE, which has no children. */
  lemma Frees(s: State, s': State, p: nat, i: nat)
    requires FamilyInv(s) && p < |s.procs| && i < |s.procs| && i != p && s'.initproc == s.initproc
    requires s.procs[p].pc == WaitHold(i) && s.procs[p].state == RUNNING && s.procs[i].state == ZOMBIE
    requires s.procs[i].pc == Resume(Dead)
    requires s'.procs == Pair(s, p, WaitFreed(i), i, Unused(s.procs[i]))
    ensures FamilyInv(s')
  {
    FreePlaces(s.procs[p], s.procs[i], p, i);
    hide NoKid, ExitParent, Watch, Exits;
    assert MemberOk(s.procs, s.initproc, p) && MemberOk(s.procs, s.initproc, i);
    forall x | 0 <= x < |s'.procs| ensures MemberOk(s'.procs, s'.initproc, x) {
      assert MemberOk(s.procs, s.initproc, x);
    }
  }

  lemma FreePlaces(rp: Proc, ri: Proc, p: nat, i: nat)
    requires rp.pc == WaitHold(i) && rp.state == RUNNING && ri.state == ZOMBIE && ri.pc == Resume(Dead)
    ensures var pc' := WaitFreed(i);
            && Watch(rp.pc) == Some(i) && Watch(pc').None? && ExitParent(pc').None? && !Exits(pc')
            && (forall x :: NoKid(ri, x) && !NoKid(rp.(pc := pc'), x))
            && Watch(ri.pc).None? && ExitParent(ri.pc).None?
  {
  }

  /** fork takes an UNUSED process, which has no children. */
  lemma Forks(s: State, s': State, p: nat, i: nat)
    requires FamilyInv(s) && p < |s.procs| && i < |s.procs| && s'.initproc == s.initproc
    requires s.procs[p].pc == ForkHold(i) && s.procs[p].state == RUNNING && s.procs[i].state == UNUSED
    requires s'.procs == Pair(s, p, ForkDone(i), i, Forked(s.procs[i], p))
    ensures FamilyInv(s')
  {
    ForkPlaces(s.procs[p], s.procs[i], p, i);
    hide NoKid, ExitParent, Watch, Exits;
    assert MemberOk(s.procs, s.initproc, p) && MemberOk(s.procs, s.initproc, i);
    forall x | 0 <= x < |s'.procs| ensures MemberOk(s'.procs, s'.initproc, x) {
      assert MemberOk(s.procs, s.initproc, x);
    }
  }

  lemma ForkPlaces(rp: Proc, ri: Proc, p: nat, i: nat)
    requires rp.pc == ForkHold(i) && rp.state == RUNNING && ri.state == UNUSED
    ensures var pc' := ForkDone(i);
            && ExitParent(rp.pc).None? && Watch(pc').None? && ExitParent(pc').None? && !Exits(pc')
            && (forall x :: NoKid(ri, x) && !NoKid(rp.(pc := pc'), x) && !NoKid(Forked(ri, p), x))
            && Watch(Resume(ForkRet)).None? && ExitParent(Resume(ForkRet)).None? && !Exits(Resume(ForkRet))
  {
  }

  /** An exiting process gives a child to init. */
  lemma GivesAway(s: State, s': State, p: nat, pp: nat, i: nat)
    requires FamilyInv(s) && p < |s.procs| && i < |s.procs| && i != p && s'.initproc == s.initproc
    requires s.procs[p].pc == ExitRepHold(pp, i) && s.procs[p].state == RUNNING
    requires s'.procs == Pair(s, p, ExitRep(pp, i + 1), i, s.procs[i].(parent := Some(s.initproc), adopted := true))
    ensures FamilyInv(s')
  {
    GivePlaces(s.procs[p], s.procs[i], s.procs[s.initproc], pp, i, s.initproc);
    ExitNotInit(s);
    hide NoKid, ExitParent, Watch, Exits;
    assert MemberOk(s.procs, s.initproc, p) && MemberOk(s.procs, s.initproc, i);
    forall x | 0 <= x < |s'.procs| ensures MemberOk(s'.procs, s'.initproc, x) {
      GivesAwayAt(s, s', p, pp, i, x);
    }
  }

  lemma GivesAwayAt(s: State, s': State, p: nat, pp: nat, i: nat, x: nat)
    requires FamilyInv(s) && p < |s.procs| && i < |s.procs| && i != p && x < |s.procs| && s'.initproc == s.initproc
    requires s.procs[p].pc == ExitRepHold(pp, i) && s.procs[p].state == RUNNING
    requires s'.procs == Pair(s, p, ExitRep(pp, i + 1), i, s.procs[i].(parent := Some(s.initproc), adopted := true))
    ensures MemberOk(s'.procs, s.initproc, x)
  {
    GivePlaces(s.procs[p], s.procs[i], s.procs[s.initproc], pp, i, s.initproc);
    ExitNotInit(s);
    hide NoKid, ExitParent, Watch, Exits;
    assert MemberOk(s.procs, s.initproc, p) && MemberOk(s.procs, s.initproc, i) && MemberOk(s.procs, s.initproc, x);
    assert MemberOk(s.procs, s.initproc, s.initproc);
    GiveParent(s, s', p, pp, i, x);
  }

  lemma GiveParent(s: State, s': State, p: nat, pp: nat, i: nat, x: nat)
    requires FamilyInv(s) && p < |s.procs| && i < |s.procs| && i != p && x < |s.procs|
    requires s.procs[p].pc == ExitRepHold(pp, i) && s.procs[p].state == RUNNING
    requires s'.procs == Pair(s, p, ExitRep(pp, i + 1), i, s.procs[i].(parent := Some(s.initproc), adopted := true))
    ensures ParentOk(s'.procs, x)
  {
    GivePlaces(s.procs[p], s.procs[i], s.procs[s.initproc], pp, i, s.initproc);
    ExitNotInit(s);
    hide NoKid, ExitParent, Watch, Exits;
    assert MemberOk(s.procs, s.initproc, p) && MemberOk(s.procs, s.initproc, i) && MemberOk(s.procs, s.initproc, x);
    assert MemberOk(s.procs, s.initproc, s.initproc);
  }

  lemma ExitNotInit(s: State)
    requires FamilyInv(s)
    ensures forall x :: 0 <= x < |s.procs| && ExitParent(s.procs[x].pc).Some? ==> x != s.initproc
    ensures forall x: nat :: !NoKid(s.procs[s.initproc], x)
  {
    assert MemberOk(s.procs, s.initproc, s.initproc);
  }

  lemma GivePlaces(rp: Proc, ri: Proc, rinit: Proc, pp: nat, i: nat, initproc: nat)
    requires rp.pc == ExitRepHold(pp, i) && rp.state == RUNNING
    ensures var pc' := ExitRep(pp, i + 1);
            && Watch(rp.pc) == Some(i) && Watch(pc').None? && ExitParent(pc') == ExitParent(rp.pc) && Exits(rp.pc)
            && (forall x :: NoKid(rp.(pc := pc'), x) ==> x == i || NoKid(rp, x))
            && (forall x :: NoKid(ri.(parent := Some(initproc), adopted := true), x) ==> NoKid(ri, x))
  {
  }

  // ---------------------------------------------------------------- every step

  lemma RemoteFamily(s: State, c: nat, p: nat, op: Op, flag: bool)
    requires Inv(s) && FamilyInv(s) && c < |s.cpus| && s.cpus[c].on == Run(p) && p < |s.procs| && IsRemote(s, p, flag)
    ensures FamilyInv(DoNext(s, c, p, op, flag))
  {
    hide DoNext, WakeInv, HeldInv, LockInv;
    assert CpuOk(s, c);
    RemoteShape(s, c, p, op, flag);
    var s' := AfterRemote(s, p, RemoteOf(s, p, flag));
    match s.procs[p].pc
    case WaitHold(i) =>
      if flag {
        FreesNothing(s, s', p, i);
      } else {
        ZombieFound(s, c, p, i);
        hide Inv;
        Frees(s, s', p, i);
      }
    case ForkHold(i) =>
      hide Inv;
      Forks(s, s', p, i);
    case ExitRepHold(pp, i) =>
      hide Inv;
      GivesAway(s, s', p, pp, i);
    case _ =>
      hide Inv;
      StirsOne(s, s', p, flag);
  }

  lemma FreesNothing(s: State, s': State, p: nat, i: nat)
    requires FamilyInv(s) && p < |s.procs| && i < |s.procs| && s.procs[p].pc == WaitHold(i)
    requires s'.initproc == s.initproc && s'.procs == s.procs[i := s.procs[i]][p := s.procs[p].(pc := WaitFreed(i))]
    ensures FamilyInv(s')
  {
    assert s.procs[i := s.procs[i]] == s.procs;
    MovesTo(s, s', p, s.procs[p].(pc := WaitFreed(i)));
  }

  lemma StirsOne(s: State, s': State, p: nat, flag: bool)
    requires FamilyInv(s) && p < |s.procs| && IsRemote(s, p, flag) && s.initproc < |s.procs|
    requires s.procs[p].pc.KillHold? || s.procs[p].pc.WakeHold? || s.procs[p].pc.ExitInit?
    requires RemoteOf(s, p, flag).q < |s.procs| && s' == AfterRemote(s, p, RemoteOf(s, p, flag))
    ensures FamilyInv(s')
  {
    var m := RemoteOf(s, p, flag);
    var s1 := SetProc(s, m.q, m.r);
    assert m.r.pc == s.procs[m.q].pc && Lively(s.procs[m.q], m.r);
    assert PlaceOk(s1, p, m.pc);
    hide NoKid, ExitParent, Watch, Exits, RemoteOf, IsRemote, FamilyInv;
    Stirred(s, s1, m.q, m.r);
    MovesTo(s1, s', p, s1.procs[p].(pc := m.pc));
  }

  lemma ZombieFamily(s: State, c: nat, p: nat, op: Op, flag: bool)
    requires Inv(s) && FamilyInv(s) && c < |s.cpus| && s.cpus[c].on == Run(p) && p < |s.procs|
    requires s.procs[p].pc.ExitZombie?
    ensures FamilyInv(DoNext(s, c, p, op, flag))
  {
    hide WakeInv, HeldInv, LockInv, ProcsOk, FamilyInv, DoNext;
    assert CpuOk(s, c);
    var pp := s.procs[p].pc.pp;
    ZombieShape(s, c, p, op, flag);
    var s1 := SetProc(s, pp, Woken(s.procs[pp], OnProc(pp)));
    Stirred(s, s1, pp, Woken(s.procs[pp], OnProc(pp)));
    BecomesZombie(s1, AfterZombie(s, p, pp), p, pp);
  }

  lemma BecomesZombie(s: State, s': State, p: nat, pp: nat)
    requires FamilyInv(s) && p < |s.procs| && s.procs[p].pc == ExitZombie(pp) && s'.initproc == s.initproc
    requires s'.procs == s.procs[p := s.procs[p].(state := ZOMBIE, pc := ExitLeave(pp))]
    ensures FamilyInv(s')
  {
    assert MemberOk(s.procs, s.initproc, p);
    if s.procs[p].parent.Some? {
      assert s'.procs[s.procs[p].parent.value] == s.procs[s.procs[p].parent.value];
    }
    assert MemberOk(s'.procs, s'.initproc, p);
    OneChanges(s, s', p);
  }

  lemma OtherFamily(s: State, c: nat, p: nat, op: Op, flag: bool)
    requires FamilyInv(s) && c < |s.cpus| && p < |s.procs|
    requires s.procs[p].pc.AcqTest? || s.procs[p].pc.RelClear? || (s.procs[p].pc.ExitSelf? && s.procs[p].parent.None?)
    ensures FamilyInv(DoNext(s, c, p, op, flag))
  {
    var s' := DoNext(s, c, p, op, flag);
    if !s.procs[p].pc.ExitSelf? { MovesTo(s, s', p, s'.procs[p]); }
  }

  lemma SchedFamily(s: State, c: nat, spc: SchedPc)
    requires FamilyInv(s) && c < |s.cpus| && spc.i < |s.procs|
    ensures FamilyInv(DoSched(s, c, spc))
  {
    if spc.Picked? && s.procs[spc.i].state == RUNNABLE {
      Stirred(s, DoSched(s, c, spc), spc.i, s.procs[spc.i].(state := RUNNING));
    }
  }

  lemma NextFamily(s: State, a: Action, c: nat, p: nat)
    requires Inv(s) && FamilyInv(s) && c < |s.cpus| && s.cpus[c].on == Run(p) && p < |s.procs|
    ensures FamilyInv(DoProc(s, c, p, a.op, a.flag))
  {
    assert CpuOk(s, c);
    Classified(s, c, p, a.flag);
    hide Inv, FamilyInv, DoNext, IsLocal, IsRelease, IsRemote, Wants, Released, Acquired, LocalProc, PlaceOk;
    var r, s' := s.procs[p], DoNext(s, c, p, a.op, a.flag);
    if Preempts(a.op, r.pc) {
      PreemptPlace(s, p);
      MovesTo(s, Goto(s, p, YieldWant(r.pc)), p, r.(pc := YieldWant(r.pc)));
    } else if Wants(s, c).Some? {
      AcquireShape(s, c, p, a.op, a.flag);
      AcquirePlace(s, c, p);
      MovesTo(s, s', p, r.(pc := Acquired(r.pc)));
    } else if IsLocal(s, p) {
      LocalShape(s, c, p, a.op, a.flag);
      LocalPlace(s, p, a.op);
      MovesTo(s, s', p, LocalProc(s, p, a.op));
    } else if IsRelease(s, p, a.flag) {
      ReleaseShape(s, c, p, a.op, a.flag);
      ReleasePlace(s, p, a.flag);
      MovesTo(s, s', p, r.(pc := Released(s, p).1));
    } else if IsRemote(s, p, a.flag) {
      RemoteFamily(s, c, p, a.op, a.flag);
    } else if r.pc.ExitZombie? {
      ZombieFamily(s, c, p, a.op, a.flag);
    } else if Continuation(r.pc).Some? {
      SwitchFamily(s, c, p, a.op, a.flag);
    } else {
      OtherFamily(s, c, p, a.op, a.flag);
    }
  }

  lemma SwitchFamily(s: State, c: nat, p: nat, op: Op, flag: bool)
    requires FamilyInv(s) && c < |s.cpus| && p < |s.procs| && Continuation(s.procs[p].pc).Some?
    ensures FamilyInv(DoNext(s, c, p, op, flag))
  {
    hide FamilyInv, PlaceOk;
    var k := Continuation(s.procs[p].pc).value;
    assert DoNext(s, c, p, op, flag) == SwitchOut(s, c, p, k);
    SwitchPlace(s, p);
    MovesTo(s, SwitchOut(s, c, p, k), p, s.procs[p].(pc := Resume(k)));
  }

  lemma StepFamily(s: State, a: Action)
    requires Inv(s) && FamilyInv(s) && Enabled(s, a)
    ensures FamilyInv(Do(s, a))
  {
    if s.cpus[a.c].on.Sched? {
      SchedFamily(s, a.c, s.cpus[a.c].on.spc);
    } else {
      NextFamily(s, a, a.c, s.cpus[a.c].on.p);
    }
  }

  lemma {:induction false} RunFamily(s: State, acts: seq<Action>)
    requires Inv(s) && FamilyInv(s) && ValidRun(s, acts)
    ensures FamilyInv(Path(s, acts))
    decreases |acts|
  {
    hide Inv, FamilyInv, Do, Enabled;
    if |acts| > 0 {
      StepInv(s, acts[0]);
      StepFamily(s, acts[0]);
      RunFamily(Do(s, acts[0]), acts[1..]);
    }
  }

  lemma BootFamily(s: State)
    requires Booted(s)
    ensures FamilyInv(s)
  {
    forall p | 0 <= p < |s.procs| ensures MemberOk(s.procs, s.initproc, p) {}
  }

  /** The lock a thread wants is not one it holds. */
  lemma WantsOther(s: State, c: nat)
    requires Inv(s) && FamilyInv(s) && c < |s.cpus| && Wants(s, c).Some?
    ensures Wants(s, c).value !in HeldOn(s, c)
  {
    hide WakeInv, HeldInv, LockInv, ProcsOk;
    assert CpuOk(s, c);
    if s.cpus[c].on.Run? {
      assert MemberOk(s.procs, s.initproc, s.cpus[c].on.p);
    }
  }

  /**
   In every interleaving no process is its own parent or its child's child, init has no parent,
   and no CPU is about to acquire a spin-lock that it holds, so that acquire never panics.
   */
  lemma NoSelfDeadlock(s0: State, acts: seq<Action>, c: nat)
    requires Booted(s0) && ValidRun(s0, acts)
    ensures var s := Path(s0, acts);
            && FamilyInv(s)
            && (c < |s.cpus| && Wants(s, c).Some? ==>
                  Wants(s, c).value !in HeldOn(s, c) && !Owns(s, c, Wants(s, c).value))
  {
    InitInv(s0);
    BootFamily(s0);
    RunInv(s0, acts);
    RunFamily(s0, acts);
    hide FamilyInv, Booted, Do, Enabled;
    var s := Path(s0, acts);
    if c < |s.cpus| && Wants(s, c).Some? {
      WantsOther(s, c);
      OwnsHeld(s, c, Wants(s, c).value);
    }
  }

  lemma OwnsHeld(s: State, c: nat, L: Lock)
    requires Inv(s) && c < |s.cpus|
    ensures Owns(s, c, L) <==> L in HeldOn(s, c)
  {
    hide WakeInv, HeldInv, ProcsOk, CpuOk, BusyUnique, CurrentUnique;
  }
}
