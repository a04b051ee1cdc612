/**
 begin_op, log_write and end_op called by any number of processes in any
 interleaving, with the commit's and the recovery's disk writes as separate
 steps and a crash possible between any two steps (kernel/fs/log.c:115-234).

 The state keeps history fields: the updates of the running group, the groups
 committed so far, every update ever made, and the operations whose commit has
 finished. Runs are sequences of actions.
 */
module LogProtocol {
  import opened DiskLog

  /** Operation `op` changed the cached contents of block `blockno`. */
  datatype Update = Update(op: nat, blockno: nat, data: Block)

  /** An operation between begin_op and end_op: `dirty` blocks are modified and still
      locked, `logged` ones have been passed to log_write. */
  datatype Op = Op(id: nat, logged: set<nat>, dirty: set<nat>)

  datatype Mode =
    | Up
    | Committing(d0: seq<Block>, v0: seq<Block>, k: nat)   // k of the commit's writes done
    | Recovering(d0: seq<Block>, k: nat)                   // k of the recovery's writes done

  datatype State = State(
    disk: seq<Block>,
    view: seq<Block>,               // what bread returns
    lh: seq<nat>,                   // in-memory log header
    ops: seq<Op>,                   // log.outstanding operations
    mode: Mode,
    nextId: nat,
    cur: seq<Update>,               // updates of the running group
    ended: set<nat>,                // operations of the running group that called end_op
    committed: seq<seq<Update>>,    // groups whose header write reached the disk
    issued: seq<Update>,            // every update, crashed ones included
    durable: set<nat>)              // operations whose group's commit has finished

  datatype Action =
    | Begin
    | Modify(i: nat, b: nat, data: Block)
    | LogWrite(i: nat, b: nat)
    | End(i: nat)
    | DiskWrite
    | Finish
    | Crash

  // ---------------------------------------------------------------- steps

  function Pending(lay: Layout, s: State): (ws: seq<Write>) {
    match s.mode
    case Up => []
    case Committing(_, v0, _) => if Coherent(lay, s.lh, v0) then CommitWrites(lay, s.lh, v0) else []
    case Recovering(d0, _) => if HeaderOk(lay, d0) then RecoverWrites(lay, d0) else []
  }

  /** The caller's side of log_write: a block it has modified, within its allowance. */
  predicate MayLog(s: State, i: nat, b: nat) {
    && s.mode.Up?
    && i < |s.ops|
    && b in s.ops[i].dirty
    && |s.ops[i].logged + {b}| <= MAXOPBLOCKS
  }

  predicate Enabled(lay: Layout, s: State, a: Action) {
    match a
    case Begin => MayBegin(|s.lh|, |s.ops|, !s.mode.Up?)
    case Modify(i, b, _) =>
      && s.mode.Up? && i < |s.ops| && lay.Home(b) && b < |s.view|
      && forall j :: 0 <= j < |s.ops| && j != i ==> b !in s.ops[j].dirty
    case LogWrite(i, b) => MayLog(s, i, b) && !TooBig(lay, |s.lh|)
    case End(i) => s.mode.Up? && i < |s.ops| && s.ops[i].dirty == {}
    case DiskWrite => !s.mode.Up? && s.mode.k < |Pending(lay, s)|
    case Finish => !s.mode.Up? && s.mode.k == |Pending(lay, s)|
    case Crash => true
  }

  function Put(d: seq<Block>, w: Write): (r: seq<Block>)
    ensures |r| == |d|
  {
    if w.blockno < |d| then d[w.blockno := w.data] else d
  }

  function Do(lay: Layout, s: State, a: Action): State
    requires Enabled(lay, s, a)
  {
    match a
    case Begin => s.(ops := s.ops + [Op(s.nextId, {}, {})], nextId := s.nextId + 1)
    case Modify(i, b, data) =>
      var u := Update(s.ops[i].id, b, data);
      s.(view := s.view[b := data],
         ops := s.ops[i := s.ops[i].(dirty := s.ops[i].dirty + {b})],
         cur := s.cur + [u],
         issued := s.issued + [u])
    case LogWrite(i, b) =>
      s.(lh := Absorb(s.lh, b),
         ops := s.ops[i := s.ops[i].(dirty := s.ops[i].dirty - {b}, logged := s.ops[i].logged + {b})])
    case End(i) =>
      s.(ops := s.ops[..i] + s.ops[i + 1..],
         ended := s.ended + {s.ops[i].id},
         mode := if |s.ops| == 1 then Committing(s.disk, s.view, 0) else Up)
    case DiskWrite =>
      var w := Pending(lay, s)[s.mode.k];
      var s1 := s.(disk := Put(s.disk, w), view := Put(s.view, w), mode := s.mode.(k := s.mode.k + 1));
      if s.mode.Committing? && s.mode.k == |s.lh|   // the header write: the group commits
      then s1.(committed := s.committed + [s.cur], cur := [])
      else s1
    case Finish => s.(mode := Up, lh := [], durable := s.durable + s.ended, ended := {})
    case Crash =>
      s.(view := s.disk, lh := [], ops := [], cur := [], ended := {}, mode := Recovering(s.disk, 0))
  }

  /** Power-on: recovery starts on whatever disk there is. */
  predicate Init(lay: Layout, s: State) {
    && HeaderOk(lay, s.disk)
    && s.view == s.disk && s.lh == [] && s.ops == []
    && s.mode == Recovering(s.disk, 0)
    && s.nextId == 0 && s.cur == [] && s.ended == {} && s.committed == [] && s.issued == [] && s.durable == {}
  }

  ghost predicate ValidRun(lay: Layout, s: State, acts: seq<Action>)
    decreases |acts|
  {
    |acts| > 0 ==> Enabled(lay, s, acts[0]) && ValidRun(lay, Do(lay, s, acts[0]), acts[1..])
  }

  ghost function Run(lay: Layout, s: State, acts: seq<Action>): State
    requires ValidRun(lay, s, acts)
    decreases |acts|
  {
    if |acts| == 0 then s else Run(lay, Do(lay, s, acts[0]), acts[1..])
  }

  // ---------------------------------------------------------------- what updates mean

  function Replay(d: seq<Block>, us: seq<Update>): (r: seq<Block>)
    ensures |r| == |d|
    decreases |us|
  {
    if |us| == 0 then d
    else
      var before := Replay(d, us[..|us| - 1]);
      var u := us[|us| - 1];
      if u.blockno < |d| then before[u.blockno := u.data] else before
  }

  function Flatten(gs: seq<seq<Update>>): seq<Update>
    decreases |gs|
  {
    if |gs| == 0 then [] else Flatten(gs[..|gs| - 1]) + gs[|gs| - 1]
  }

  /** The updates made by operation o. */
  function By(us: seq<Update>, o: nat): (r: seq<Update>)
    decreases |us|
  {
    if |us| == 0 then []
    else
      var u := us[|us| - 1];
      By(us[..|us| - 1], o) + if u.op == o then [u] else []
  }

  lemma ReplayOneMore(d: seq<Block>, us: seq<Update>, u: Update)
    ensures Replay(d, us + [u]) == if u.blockno < |d| then Replay(d, us)[u.blockno := u.data] else Replay(d, us)
  {
    assert (us + [u])[..|us|] == us;
  }

  lemma {:induction false} ReplayConcat(d: seq<Block>, a: seq<Update>, b: seq<Update>)
    ensures Replay(d, a + b) == Replay(Replay(d, a), b)
    decreases |b|
  {
    if |b| == 0 {
      assert a + b == a;
    } else {
      assert (a + b)[..|a + b| - 1] == a + b[..|b| - 1];
      ReplayConcat(d, a, b[..|b| - 1]);
    }
  }

  lemma {:induction false} ReplaySameHome(lay: Layout, a: seq<Block>, b: seq<Block>, us: seq<Update>)
    requires SameHome(lay, a, b)
    ensures SameHome(lay, Replay(a, us), Replay(b, us))
    decreases |us|
  {
    if |us| > 0 { ReplaySameHome(lay, a, b, us[..|us| - 1]); }
  }

  lemma {:induction false} ByConcat(a: seq<Update>, b: seq<Update>, o: nat)
    ensures By(a + b, o) == By(a, o) + By(b, o)
    decreases |b|
  {
    if |b| == 0 {
      assert a + b == a;
    } else {
      assert (a + b)[..|a + b| - 1] == a + b[..|b| - 1];
      ByConcat(a, b[..|b| - 1], o);
    }
  }

  lemma {:induction false} ByNone(us: seq<Update>, o: nat)
    requires forall i :: 0 <= i < |us| ==> us[i].op != o
    ensures By(us, o) == []
    decreases |us|
  {
    if |us| > 0 { ByNone(us[..|us| - 1], o); }
  }

  lemma FlattenOneMore(gs: seq<seq<Update>>, g: seq<Update>)
    ensures Flatten(gs + [g]) == Flatten(gs) + g
  {
    assert (gs + [g])[..|gs|] == gs;
  }

  // ---------------------------------------------------------------- the invariant

  ghost predicate IsDirty(s: State, b: nat) {
    exists i :: 0 <= i < |s.ops| && b in s.ops[i].dirty
  }

  ghost predicate InGroup(s: State, o: nat) {
    o in s.ended || exists i :: 0 <= i < |s.ops| && s.ops[i].id == o
  }

  predicate HeaderWritten(s: State) {
    s.mode.Committing? && s.mode.k > |s.lh|
  }

  ghost predicate UpInv(lay: Layout, s: State) {
    && Coherent(lay, s.lh, s.view)
    && HeaderOk(lay, s.disk) && Logged(lay, s.disk) == []
    && s.view[lay.start] == s.disk[lay.start]
    && SameHome(lay, s.view, Replay(s.disk, s.cur))
    && (forall b :: 0 <= b < lay.blocks && lay.Home(b) && b !in s.lh && !IsDirty(s, b) ==> s.view[b] == s.disk[b])
    && (forall b :: IsDirty(s, b) ==> lay.Home(b))
    && (forall i :: 0 <= i < |s.cur| ==> s.cur[i].blockno in s.lh || IsDirty(s, s.cur[i].blockno))
  }

  ghost predicate CommitInv(lay: Layout, s: State)
    requires s.mode.Committing?
  {
    var d0, v0, k := s.mode.d0, s.mode.v0, s.mode.k;
    && s.ops == []
    && ReadyToCommit(lay, s.lh, v0, d0)
    && k <= |CommitWrites(lay, s.lh, v0)|
    && s.disk == ApplyWrites(d0, CommitWrites(lay, s.lh, v0)[..k])
    && s.view == ApplyWrites(v0, CommitWrites(lay, s.lh, v0)[..k])
    && (if k > |s.lh| then s.cur == [] else SameHome(lay, v0, Replay(d0, s.cur)) && (s.lh == [] ==> s.cur == []))
  }

  ghost predicate RecoverInv(lay: Layout, s: State)
    requires s.mode.Recovering?
  {
    var d0, k := s.mode.d0, s.mode.k;
    && s.ops == [] && s.cur == [] && s.ended == {} && s.lh == []
    && HeaderOk(lay, d0)
    && k <= |RecoverWrites(lay, d0)|
    && s.disk == s.view == ApplyWrites(d0, RecoverWrites(lay, d0)[..k])
  }

  /** Where the updates of operation o are. */
  ghost predicate OpInv(s: State, o: nat) {
    var done := By(Flatten(s.committed), o);
    && (done == [] || done == By(s.issued, o))
    && (InGroup(s, o) && !HeaderWritten(s) ==> done == [] && By(s.cur, o) == By(s.issued, o))
    && (InGroup(s, o) && HeaderWritten(s) ==> done == By(s.issued, o))
    && (!InGroup(s, o) ==> By(s.cur, o) == [])
    && (o in s.durable ==> !InGroup(s, o) && done == By(s.issued, o))
    && (InGroup(s, o) || o in s.durable ==> o < s.nextId)
    && (o >= s.nextId ==> By(s.issued, o) == [])
  }

  ghost predicate DistinctIds(s: State) {
    && (forall i, j :: 0 <= i < j < |s.ops| ==> s.ops[i].id != s.ops[j].id)
    && (forall i :: 0 <= i < |s.ops| ==> s.ops[i].id !in s.ended)
  }

  /** The log space still reserved for the operations in progress. */
  function Unused(ops: seq<Op>): int
    decreases |ops|
  {
    if |ops| == 0 then 0
    else Unused(ops[..|ops| - 1]) + (MAXOPBLOCKS - |ops[|ops| - 1].logged|)
  }

  ghost predicate BudgetInv(s: State) {
    && |s.lh| + Unused(s.ops) <= LOGSIZE
    && (forall i :: 0 <= i < |s.ops| ==> |s.ops[i].logged| <= MAXOPBLOCKS)
    && (forall i, b :: 0 <= i < |s.ops| && b in s.ops[i].logged ==> b in s.lh)
  }

  // ---------------------------------------------------------------- disk part

  ghost predicate DiskInv(lay: Layout, r0: seq<Block>, s: State) {
    && HeaderOk(lay, s.disk)
    && |s.view| == |r0| == lay.blocks
    && SameHome(lay, Recovered(lay, s.disk), Replay(r0, Flatten(s.committed)))
    && match s.mode
       case Up => UpInv(lay, s)
       case Committing(_, _, _) => CommitInv(lay, s)
       case Recovering(_, _) => RecoverInv(lay, s)
  }

  lemma BeginDisk(lay: Layout, r0: seq<Block>, s: State)
    requires DiskInv(lay, r0, s) && Enabled(lay, s, Begin)
    ensures DiskInv(lay, r0, Do(lay, s, Begin))
  {
    var s' := Do(lay, s, Begin);
    forall b ensures IsDirty(s', b) <==> IsDirty(s, b) {
      if IsDirty(s, b) {
        var i :| 0 <= i < |s.ops| && b in s.ops[i].dirty;
        assert b in s'.ops[i].dirty;
      }
    }
  }

  lemma ModifyDisk(lay: Layout, r0: seq<Block>, s: State, i: nat, b: nat, data: Block)
    requires DiskInv(lay, r0, s) && Enabled(lay, s, Modify(i, b, data))
    ensures DiskInv(lay, r0, Do(lay, s, Modify(i, b, data)))
  {
    var s' := Do(lay, s, Modify(i, b, data));
    DirtyUpdate(s, s', i);
    assert b in s'.ops[i].dirty;
    assert IsDirty(s', b);
    ReplayOneMore(s.disk, s.cur, Update(s.ops[i].id, b, data));
  }

  /** Only operation i's dirty set changed, and by at most one block. */
  lemma DirtyUpdate(s: State, s': State, i: nat)
    requires i < |s.ops| == |s'.ops| && s'.ops == s.ops[i := s'.ops[i]]
    ensures forall c :: c !in s.ops[i].dirty - s'.ops[i].dirty && IsDirty(s, c) ==> IsDirty(s', c)
    ensures forall c :: c !in s'.ops[i].dirty - s.ops[i].dirty && IsDirty(s', c) ==> IsDirty(s, c)
  {
    forall c | c !in s.ops[i].dirty - s'.ops[i].dirty && IsDirty(s, c) ensures IsDirty(s', c) {
      var j :| 0 <= j < |s.ops| && c in s.ops[j].dirty;
      assert c in s'.ops[j].dirty;
    }
    forall c | c !in s'.ops[i].dirty - s.ops[i].dirty && IsDirty(s', c) ensures IsDirty(s, c) {
      var j :| 0 <= j < |s'.ops| && c in s'.ops[j].dirty;
      assert c in s.ops[j].dirty;
    }
  }

  lemma LogWriteDisk(lay: Layout, r0: seq<Block>, s: State, i: nat, b: nat)
    requires DiskInv(lay, r0, s) && Enabled(lay, s, LogWrite(i, b))
    ensures DiskInv(lay, r0, Do(lay, s, LogWrite(i, b)))
  {
    var s' := Do(lay, s, LogWrite(i, b));
    assert IsDirty(s, b);
    DirtyUpdate(s, s', i);
    assert lay.Loggable(s'.lh);
    forall c | 0 <= c < lay.blocks && lay.Home(c) && c !in s'.lh && !IsDirty(s', c)
      ensures s'.view[c] == s'.disk[c]
    {
      assert c != b;
      assert !IsDirty(s, c);
    }
  }

  lemma EndDisk(lay: Layout, r0: seq<Block>, s: State, i: nat)
    requires DiskInv(lay, r0, s) && Enabled(lay, s, End(i))
    ensures DiskInv(lay, r0, Do(lay, s, End(i)))
  {
    var s' := Do(lay, s, End(i));
    forall c ensures IsDirty(s', c) <==> IsDirty(s, c) {
      if IsDirty(s, c) {
        var j :| 0 <= j < |s.ops| && c in s.ops[j].dirty;
        assert c in s'.ops[if j < i then j else j - 1].dirty;
      }
      if IsDirty(s', c) {
        var j :| 0 <= j < |s'.ops| && c in s'.ops[j].dirty;
        assert c in s.ops[if j < i then j else j + 1].dirty;
      }
    }
    if |s.ops| == 1 {
      assert forall c :: !IsDirty(s, c);
      assert s.lh == [] ==> s.cur == [];
      var ws := CommitWrites(lay, s.lh, s.view);
      assert ws[..0] == [];
    }
  }

  lemma PutIsApply(d: seq<Block>, d0: seq<Block>, ws: seq<Write>, k: nat)
    requires k < |ws| && d == ApplyWrites(d0, ws[..k])
    ensures Put(d, ws[k]) == ApplyWrites(d0, ws[..k + 1])
  {
    assert ws[..k + 1][..k] == ws[..k];
  }

  lemma RecoveryWriteDisk(lay: Layout, r0: seq<Block>, s: State)
    requires DiskInv(lay, r0, s) && s.mode.Recovering? && Enabled(lay, s, DiskWrite)
    ensures DiskInv(lay, r0, Do(lay, s, DiskWrite))
  {
    var k := s.mode.k;
    PutIsApply(s.disk, s.mode.d0, Pending(lay, s), k);
    RecoveryCrash(lay, s.mode.d0, k);
    RecoveryCrash(lay, s.mode.d0, k + 1);
  }

  lemma CommitWriteDisk(lay: Layout, r0: seq<Block>, s: State)
    requires DiskInv(lay, r0, s) && s.mode.Committing? && Enabled(lay, s, DiskWrite) && s.mode.k != |s.lh|
    ensures DiskInv(lay, r0, Do(lay, s, DiskWrite))
  {
    hide CommitWrites, Recovered, Logged, Flatten, Replay;
    var ws, k, d0, v0 := Pending(lay, s), s.mode.k, s.mode.d0, s.mode.v0;
    PutIsApply(s.disk, d0, ws, k);
    PutIsApply(s.view, v0, ws, k);
    OtherWriteInvisible(lay, s.lh, v0, d0, k);
  }

  /** A commit write other than the header write does not change what recovery would produce. */
  lemma OtherWriteInvisible(lay: Layout, lh: seq<nat>, view: seq<Block>, d: seq<Block>, k: nat)
    requires ReadyToCommit(lay, lh, view, d) && k < |CommitWrites(lay, lh, view)| && k != |lh|
    ensures var ws := CommitWrites(lay, lh, view);
            var d1, d2 := ApplyWrites(d, ws[..k]), ApplyWrites(d, ws[..k + 1]);
            && HeaderOk(lay, d1) && HeaderOk(lay, d2)
            && SameHome(lay, Recovered(lay, d1), Recovered(lay, d2))
  {
    hide CommitWrites, ApplyWrites, Recovered, ReadyToCommit, HeaderOk, Logged;
    CommitCrash(lay, lh, view, d, k);
    CommitCrash(lay, lh, view, d, k + 1);
  }

  /** The header write takes the recovered disk from the old contents to those of the group. */
  lemma HeaderWriteDisk(lay: Layout, r0: seq<Block>, s: State)
    requires DiskInv(lay, r0, s) && s.mode.Committing? && Enabled(lay, s, DiskWrite) && s.mode.k == |s.lh|
    ensures DiskInv(lay, r0, Do(lay, s, DiskWrite))
  {
    var ws, k, d0, v0 := Pending(lay, s), s.mode.k, s.mode.d0, s.mode.v0;
    PutIsApply(s.disk, d0, ws, k);
    PutIsApply(s.view, v0, ws, k);
    CommitCrash(lay, s.lh, v0, d0, k);
    CommitCrash(lay, s.lh, v0, d0, k + 1);
    GroupReplayed(lay, r0, s, d0, v0);
  }

  lemma GroupReplayed(lay: Layout, r0: seq<Block>, s: State, d0: seq<Block>, v0: seq<Block>)
    requires |r0| == lay.blocks
    requires SameHome(lay, d0, Replay(r0, Flatten(s.committed)))
    requires SameHome(lay, v0, Replay(d0, s.cur))
    ensures SameHome(lay, v0, Replay(r0, Flatten(s.committed + [s.cur])))
  {
    FlattenOneMore(s.committed, s.cur);
    ReplayConcat(r0, Flatten(s.committed), s.cur);
    ReplaySameHome(lay, d0, Replay(r0, Flatten(s.committed)), s.cur);
  }

  lemma FinishRecovery(lay: Layout, r0: seq<Block>, s: State)
    requires DiskInv(lay, r0, s) && s.mode.Recovering? && Enabled(lay, s, Finish)
    ensures DiskInv(lay, r0, Do(lay, s, Finish))
  {
    RecoveryCrash(lay, s.mode.d0, s.mode.k);
    assert lay.Loggable([]);
    assert Replay(s.disk, []) == s.disk;
  }

  lemma FinishCommit(lay: Layout, r0: seq<Block>, s: State)
    requires DiskInv(lay, r0, s) && s.mode.Committing? && Enabled(lay, s, Finish)
    ensures DiskInv(lay, r0, Do(lay, s, Finish))
  {
    hide CommitWrites, ApplyWrites, Recovered, Flatten;
    CommitDone(lay, s.lh, s.mode.v0, s.mode.d0);
    var ws := CommitWrites(lay, s.lh, s.mode.v0);
    assert ws[..|ws|] == ws;
    assert lay.Loggable([]);
    assert Replay(s.disk, []) == s.disk;
  }

  /** After the commit's last write, cache and disk agree again and the log is empty. */
  lemma CommitDone(lay: Layout, lh: seq<nat>, view: seq<Block>, d: seq<Block>)
    requires ReadyToCommit(lay, lh, view, d)
    ensures var ws := CommitWrites(lay, lh, view);
            var d', v' := ApplyWrites(d, ws), ApplyWrites(view, ws);
            && HeaderOk(lay, d') && Logged(lay, d') == []
            && SameHome(lay, v', d')
            && v'[lay.start] == d'[lay.start]
  {
    var ws := CommitWrites(lay, lh, view);
    assert ws[..|ws|] == ws;
    CommitCrash(lay, lh, view, d, |ws|);
    CommitCrash(lay, lh, view, view, |ws|);
    if |lh| == 0 {
      assert ws == [];
    } else {
      assert ws[|ws| - 1].blockno == lay.start;
    }
  }

  lemma CrashDisk(lay: Layout, r0: seq<Block>, s: State)
    requires DiskInv(lay, r0, s)
    ensures DiskInv(lay, r0, Do(lay, s, Crash))
  {
    var ws := RecoverWrites(lay, s.disk);
    assert ws[..0] == [];
  }

  lemma StepDisk(lay: Layout, r0: seq<Block>, s: State, a: Action)
    requires DiskInv(lay, r0, s) && Enabled(lay, s, a)
    ensures DiskInv(lay, r0, Do(lay, s, a))
  {
    match a
    case Begin => BeginDisk(lay, r0, s);
    case Modify(i, b, data) => ModifyDisk(lay, r0, s, i, b, data);
    case LogWrite(i, b) => LogWriteDisk(lay, r0, s, i, b);
    case End(i) => EndDisk(lay, r0, s, i);
    case DiskWrite =>
      if s.mode.Recovering? { RecoveryWriteDisk(lay, r0, s); }
      else if s.mode.k == |s.lh| { HeaderWriteDisk(lay, r0, s); }
      else { CommitWriteDisk(lay, r0, s); }
    case Finish => if s.mode.Recovering? { FinishRecovery(lay, r0, s); } else { FinishCommit(lay, r0, s); }
    case Crash => CrashDisk(lay, r0, s);
  }

  // ---------------------------------------------------------------- operations part

  ghost predicate OpsInv(s: State) {
    && (forall o: nat :: OpInv(s, o))
    && DistinctIds(s)
  }

  lemma BeginOps(lay: Layout, s: State)
    requires OpsInv(s) && Enabled(lay, s, Begin)
    ensures OpsInv(Do(lay, s, Begin))
  {
    var s' := Do(lay, s, Begin);
    forall i | 0 <= i < |s.ops| ensures s.ops[i].id < s.nextId {
      assert InGroup(s, s.ops[i].id);
      assert OpInv(s, s.ops[i].id);
    }
    assert s.nextId !in s.ended by { assert OpInv(s, s.nextId); }
    forall o: nat ensures OpInv(s', o) {
      assert OpInv(s, o);
      if InGroup(s, o) && o !in s.ended {
        var i :| 0 <= i < |s.ops| && s.ops[i].id == o;
        assert s'.ops[i].id == o;
      }
      if o == s.nextId { assert s'.ops[|s.ops|].id == o; }
    }
  }

  lemma ModifyOps(lay: Layout, s: State, i: nat, b: nat, data: Block)
    requires OpsInv(s) && Enabled(lay, s, Modify(i, b, data))
    ensures OpsInv(Do(lay, s, Modify(i, b, data)))
  {
    var s' := Do(lay, s, Modify(i, b, data));
    var u := Update(s.ops[i].id, b, data);
    assert InGroup(s, u.op);
    forall o: nat ensures OpInv(s', o) {
      assert OpInv(s, o);
      SameGroup(s, s', o);
      ByOneMore(s.cur, u, o);
      ByOneMore(s.issued, u, o);
    }
  }

  lemma ByOneMore(us: seq<Update>, u: Update, o: nat)
    ensures By(us + [u], o) == By(us, o) + if u.op == o then [u] else []
  {
    assert (us + [u])[..|us|] == us;
  }

  lemma SameGroup(s: State, s': State, o: nat)
    requires |s'.ops| == |s.ops| && s'.ended == s.ended
    requires forall i :: 0 <= i < |s.ops| ==> s'.ops[i].id == s.ops[i].id
    ensures InGroup(s', o) <==> InGroup(s, o)
  {
    if o !in s.ended {
      if i :| 0 <= i < |s.ops| && s.ops[i].id == o { assert s'.ops[i].id == o; }
    }
  }

  lemma LogWriteOps(lay: Layout, s: State, i: nat, b: nat)
    requires OpsInv(s) && Enabled(lay, s, LogWrite(i, b))
    ensures OpsInv(Do(lay, s, LogWrite(i, b)))
  {
    var s' := Do(lay, s, LogWrite(i, b));
    forall o: nat ensures OpInv(s', o) {
      assert OpInv(s, o);
      SameGroup(s, s', o);
    }
  }

  lemma EndOps(lay: Layout, s: State, i: nat)
    requires OpsInv(s) && Enabled(lay, s, End(i))
    ensures OpsInv(Do(lay, s, End(i)))
  {
    hide By, Flatten, Replay;
    var s' := Do(lay, s, End(i));
    forall o: nat ensures OpInv(s', o) {
      assert OpInv(s, o);
      assert InGroup(s', o) <==> InGroup(s, o) by {
        if InGroup(s, o) && o !in s'.ended {
          var j :| 0 <= j < |s.ops| && s.ops[j].id == o;
          assert s'.ops[if j < i then j else j - 1].id == o;
        }
        if InGroup(s', o) && o !in s'.ended {
          var j :| 0 <= j < |s'.ops| && s'.ops[j].id == o;
          assert s.ops[if j < i then j else j + 1].id == o;
        }
        if o == s.ops[i].id { assert InGroup(s, o); }
      }
    }
  }

  lemma DiskWriteOps(lay: Layout, r0: seq<Block>, s: State)
    requires DiskInv(lay, r0, s) && OpsInv(s) && Enabled(lay, s, DiskWrite)
    ensures OpsInv(Do(lay, s, DiskWrite))
  {
    hide By, Flatten, Replay, Recovered, ApplyWrites, SameHome, CommitWrites, RecoverWrites;
    var s' := Do(lay, s, DiskWrite);
    if s.mode.Committing? && s.mode.k == |s.lh| {
      FlattenOneMore(s.committed, s.cur);
      assert By([], 0) == [] by { ByNone([], 0); }
    }
    forall o: nat ensures OpInv(s', o) {
      assert OpInv(s, o);
      SameGroup(s, s', o);
      ByConcat(Flatten(s.committed), s.cur, o);
      ByNone([], o);
    }
  }

  lemma FinishOps(lay: Layout, r0: seq<Block>, s: State)
    requires DiskInv(lay, r0, s) && OpsInv(s) && Enabled(lay, s, Finish)
    ensures OpsInv(Do(lay, s, Finish))
  {
    var s' := Do(lay, s, Finish);
    forall o: nat ensures OpInv(s', o) {
      assert OpInv(s, o);
      assert !InGroup(s', o);
      assert InGroup(s, o) <==> o in s.ended;
    }
  }

  lemma CrashOps(lay: Layout, s: State)
    requires OpsInv(s)
    ensures OpsInv(Do(lay, s, Crash))
  {
    var s' := Do(lay, s, Crash);
    forall o: nat ensures OpInv(s', o) {
      assert OpInv(s, o);
    }
  }

  lemma StepOps(lay: Layout, r0: seq<Block>, s: State, a: Action)
    requires DiskInv(lay, r0, s) && OpsInv(s) && Enabled(lay, s, a)
    ensures OpsInv(Do(lay, s, a))
  {
    match a
    case Begin => BeginOps(lay, s);
    case Modify(i, b, data) => ModifyOps(lay, s, i, b, data);
    case LogWrite(i, b) => LogWriteOps(lay, s, i, b);
    case End(i) => EndOps(lay, s, i);
    case DiskWrite => DiskWriteOps(lay, r0, s);
    case Finish => FinishOps(lay, r0, s);
    case Crash => CrashOps(lay, s);
  }

  // ---------------------------------------------------------------- log space part

  lemma UnusedOneMore(ops: seq<Op>, o: Op)
    ensures Unused(ops + [o]) == Unused(ops) + (MAXOPBLOCKS - |o.logged|)
  {
    assert (ops + [o])[..|ops|] == ops;
  }

  lemma {:induction false} UnusedConcat(a: seq<Op>, b: seq<Op>)
    ensures Unused(a + b) == Unused(a) + Unused(b)
    decreases |b|
  {
    if |b| == 0 {
      assert a + b == a;
    } else {
      assert (a + b)[..|a + b| - 1] == a + b[..|b| - 1];
      UnusedConcat(a, b[..|b| - 1]);
    }
  }

  lemma UnusedAt(ops: seq<Op>, i: nat, o: Op)
    requires i < |ops|
    ensures Unused(ops[i := o]) == Unused(ops[..i]) + (MAXOPBLOCKS - |o.logged|) + Unused(ops[i + 1..])
  {
    assert ops[i := o] == (ops[..i] + [o]) + ops[i + 1..];
    UnusedConcat(ops[..i] + [o], ops[i + 1..]);
    UnusedOneMore(ops[..i], o);
  }

  lemma UnusedUpdate(ops: seq<Op>, i: nat, o: Op)
    requires i < |ops|
    ensures Unused(ops[i := o]) == Unused(ops) + |ops[i].logged| - |o.logged|
  {
    UnusedAt(ops, i, o);
    UnusedAt(ops, i, ops[i]);
    assert ops[i := ops[i]] == ops;
  }

  lemma UnusedRemove(ops: seq<Op>, i: nat)
    requires i < |ops|
    ensures Unused(ops[..i] + ops[i + 1..]) == Unused(ops) - (MAXOPBLOCKS - |ops[i].logged|)
  {
    UnusedAt(ops, i, ops[i]);
    assert ops[i := ops[i]] == ops;
    UnusedConcat(ops[..i], ops[i + 1..]);
  }

  lemma {:induction false} UnusedBound(ops: seq<Op>)
    requires forall i :: 0 <= i < |ops| ==> |ops[i].logged| <= MAXOPBLOCKS
    ensures 0 <= Unused(ops) <= MAXOPBLOCKS * |ops|
    ensures forall i :: 0 <= i < |ops| ==> MAXOPBLOCKS - |ops[i].logged| <= Unused(ops)
    decreases |ops|
  {
    if |ops| > 0 {
      UnusedBound(ops[..|ops| - 1]);
      assert forall i :: 0 <= i < |ops| - 1 ==> ops[..|ops| - 1][i] == ops[i];
    }
  }

  lemma LogWriteBudget(lay: Layout, s: State, i: nat, b: nat)
    requires BudgetInv(s) && Enabled(lay, s, LogWrite(i, b))
    ensures BudgetInv(Do(lay, s, LogWrite(i, b)))
  {
    var s' := Do(lay, s, LogWrite(i, b));
    UnusedUpdate(s.ops, i, s'.ops[i]);
    if b in s.ops[i].logged {
      assert s.ops[i].logged + {b} == s.ops[i].logged;
      assert s'.lh == s.lh;
    }
  }

  lemma EndBudget(lay: Layout, s: State, i: nat)
    requires BudgetInv(s) && Enabled(lay, s, End(i))
    ensures BudgetInv(Do(lay, s, End(i)))
  {
    var s' := Do(lay, s, End(i));
    UnusedRemove(s.ops, i);
    forall j | 0 <= j < |s'.ops|
      ensures |s'.ops[j].logged| <= MAXOPBLOCKS && forall b :: b in s'.ops[j].logged ==> b in s'.lh
    {
      assert s'.ops[j] == s.ops[if j < i then j else j + 1];
    }
  }

  lemma BeginBudget(lay: Layout, s: State)
    requires BudgetInv(s) && Enabled(lay, s, Begin)
    ensures BudgetInv(Do(lay, s, Begin))
  {
    UnusedBound(s.ops);
    UnusedOneMore(s.ops, Op(s.nextId, {}, {}));
  }

  lemma ModifyBudget(lay: Layout, s: State, i: nat, b: nat, data: Block)
    requires BudgetInv(s) && Enabled(lay, s, Modify(i, b, data))
    ensures BudgetInv(Do(lay, s, Modify(i, b, data)))
  {
    UnusedUpdate(s.ops, i, s.ops[i].(dirty := s.ops[i].dirty + {b}));
  }

  lemma StepBudget(lay: Layout, r0: seq<Block>, s: State, a: Action)
    requires DiskInv(lay, r0, s) && BudgetInv(s) && Enabled(lay, s, a)
    ensures BudgetInv(Do(lay, s, a))
  {
    match a
    case Begin => BeginBudget(lay, s);
    case Modify(i, b, data) => ModifyBudget(lay, s, i, b, data);
    case LogWrite(i, b) => LogWriteBudget(lay, s, i, b);
    case End(i) => EndBudget(lay, s, i);
    case DiskWrite =>
    case Finish => assert s.ops == [];
    case Crash =>
  }

  // ---------------------------------------------------------------- all runs

  /** r0 is the disk that recovery makes of the one the system was booted from. */
  ghost predicate Inv(lay: Layout, r0: seq<Block>, s: State) {
    DiskInv(lay, r0, s) && OpsInv(s) && BudgetInv(s)
  }

  lemma InitInv(lay: Layout, s: State)
    requires Init(lay, s)
    ensures Inv(lay, Recovered(lay, s.disk), s)
  {
    assert RecoverWrites(lay, s.disk)[..0] == [];
  }

  lemma StepInv(lay: Layout, r0: seq<Block>, s: State, a: Action)
    requires Inv(lay, r0, s) && Enabled(lay, s, a)
    ensures Inv(lay, r0, Do(lay, s, a))
    ensures s.committed <= Do(lay, s, a).committed && s.durable <= Do(lay, s, a).durable
  {
    hide DiskInv, OpsInv, BudgetInv;
    StepDisk(lay, r0, s, a);
    StepOps(lay, r0, s, a);
    StepBudget(lay, r0, s, a);
  }

  lemma {:induction false} RunInv(lay: Layout, r0: seq<Block>, s: State, acts: seq<Action>)
    requires Inv(lay, r0, s) && ValidRun(lay, s, acts)
    ensures Inv(lay, r0, Run(lay, s, acts))
    ensures s.committed <= Run(lay, s, acts).committed
    ensures s.durable <= Run(lay, s, acts).durable
    decreases |acts|
  {
    if |acts| > 0 {
      StepInv(lay, r0, s, acts[0]);
      RunInv(lay, r0, Do(lay, s, acts[0]), acts[1..]);
    }
  }

  /**
   Whole-operation atomicity. After any run with any crashes, what recovery makes of the disk
   is the booted disk with the committed groups replayed in order, and an operation has either
   no update or all of its updates in those groups.
   */
  lemma Atomicity(lay: Layout, s0: State, acts: seq<Action>, o: nat)
    requires Init(lay, s0) && ValidRun(lay, s0, acts)
    ensures var s := Run(lay, s0, acts);
            && HeaderOk(lay, s.disk)
            && SameHome(lay, Recovered(lay, s.disk), Replay(Recovered(lay, s0.disk), Flatten(s.committed)))
            && (By(Flatten(s.committed), o) == [] || By(Flatten(s.committed), o) == By(s.issued, o))
  {
    InitInv(lay, s0);
    RunInv(lay, Recovered(lay, s0.disk), s0, acts);
    assert OpInv(Run(lay, s0, acts), o);
  }

  /**
   Durability. Once the commit of an operation's group has finished, all its updates stay in
   the recovered disk, whatever happens later; committed groups are never lost or reordered.
   */
  lemma Durability(lay: Layout, s0: State, acts: seq<Action>, more: seq<Action>, o: nat)
    requires Init(lay, s0) && ValidRun(lay, s0, acts) && ValidRun(lay, Run(lay, s0, acts), more)
    ensures var s, t := Run(lay, s0, acts), Run(lay, Run(lay, s0, acts), more);
            && s.committed <= t.committed
            && (o in s.durable ==> By(Flatten(t.committed), o) == By(t.issued, o))
  {
    InitInv(lay, s0);
    RunInv(lay, Recovered(lay, s0.disk), s0, acts);
    RunInv(lay, Recovered(lay, s0.disk), Run(lay, s0, acts), more);
    assert OpInv(Run(lay, Run(lay, s0, acts), more), o);
  }

  // ---------------------------------------------------------------- the last operation out commits

  /** No operation outstanding and no commit under way: the group is empty. */
  predicate Quiet(s: State) { s.mode.Up? && s.ops == [] }

  predicate QuietInv(s: State) { Quiet(s) ==> s.lh == [] && s.cur == [] && s.ended == {} }

  lemma StepQuiet(lay: Layout, r0: seq<Block>, s: State, a: Action)
    requires DiskInv(lay, r0, s) && QuietInv(s) && Enabled(lay, s, a)
    ensures QuietInv(Do(lay, s, a))
  {
    if a.Finish? && s.mode.Committing? {
      assert s.mode.k > |s.lh| || s.lh == [];
    }
  }

  /** The operations that called end_op since the last crash, `before` being those before this run. */
  ghost function Returned(lay: Layout, s: State, acts: seq<Action>, before: set<nat>): set<nat>
    requires ValidRun(lay, s, acts)
    decreases |acts|
  {
    if |acts| == 0 then before
    else
      var now := match acts[0]
                 case End(i) => before + {s.ops[i].id}
                 case Crash => {}
                 case _ => before;
      Returned(lay, Do(lay, s, acts[0]), acts[1..], now)
  }

  lemma {:induction false} RunQuiet(lay: Layout, r0: seq<Block>, s: State, acts: seq<Action>, before: set<nat>)
    requires Inv(lay, r0, s) && QuietInv(s) && ValidRun(lay, s, acts) && before <= s.durable + s.ended
    ensures var t := Run(lay, s, acts); QuietInv(t) && Returned(lay, s, acts, before) <= t.durable + t.ended
    decreases |acts|
  {
    hide DiskInv, OpsInv, BudgetInv, QuietInv;
    if |acts| > 0 {
      StepQuiet(lay, r0, s, acts[0]);
      StepInv(lay, r0, s, acts[0]);
      var now := match acts[0]
                 case End(i) => before + {s.ops[i].id}
                 case Crash => {}
                 case _ => before;
      RunQuiet(lay, r0, Do(lay, s, acts[0]), acts[1..], now);
    }
  }

  /**
   The last operation out commits. Whenever the system is up with no operation outstanding, the
   log is empty, every operation that called end_op since the last crash is durable, with all its
   updates in the recovered disk, and the disk has what bread returns.
   */
  lemma EndedIsDurable(lay: Layout, s0: State, acts: seq<Action>)
    requires Init(lay, s0) && ValidRun(lay, s0, acts) && Quiet(Run(lay, s0, acts))
    ensures var s := Run(lay, s0, acts);
            && s.lh == [] && s.cur == [] && s.ended == {}
            && HeaderOk(lay, s.disk)
            && SameHome(lay, s.disk, s.view) && SameHome(lay, Recovered(lay, s.disk), s.view)
            && Returned(lay, s0, acts, {}) <= s.durable
            && forall o :: o in Returned(lay, s0, acts, {}) ==> By(Flatten(s.committed), o) == By(s.issued, o)
  {
    var r0 := Recovered(lay, s0.disk);
    InitInv(lay, s0);
    RunInv(lay, r0, s0, acts);
    RunQuiet(lay, r0, s0, acts, {});
    var s := Run(lay, s0, acts);
    assert Replay(s.disk, []) == s.disk;
    RecoveredEmpty(lay, s.disk);
    forall o | o in Returned(lay, s0, acts, {}) ensures By(Flatten(s.committed), o) == By(s.issued, o) {
      assert OpInv(s, o);
    }
  }

  /** The disk's own steps: writes and the end of a commit or a recovery. */
  predicate DiskOnly(acts: seq<Action>) { forall j :: 0 <= j < |acts| ==> acts[j].DiskWrite? || acts[j].Finish? }

  function NextDisk(lay: Layout, s: State): Action
    requires !s.mode.Up?
  {
    if s.mode.k < |Pending(lay, s)| then DiskWrite else Finish
  }

  /** The groups on disk once the commit or the recovery under way has ended. */
  function Groups(s: State): seq<seq<Update>> {
    if s.mode.Committing? && s.mode.k <= |s.lh| && s.lh != [] then s.committed + [s.cur] else s.committed
  }

  lemma DiskStep(lay: Layout, r0: seq<Block>, s: State)
    requires Inv(lay, r0, s) && !s.mode.Up?
    ensures var a := NextDisk(lay, s);
            && (a.DiskWrite? <==> s.mode.k < |Pending(lay, s)|) && (a.DiskWrite? || a.Finish?)
            && Enabled(lay, s, a)
            && var t := Do(lay, s, a);
               && Groups(t) == Groups(s) && s.durable + s.ended <= t.durable + t.ended
               && (a.DiskWrite? ==> !t.mode.Up? && Pending(lay, t) == Pending(lay, s) && t.mode.k == s.mode.k + 1)
               && (a.Finish? ==> Quiet(t) && t.ended == {})
  {
    hide OpsInv, BudgetInv;
  }

  /** A commit or a recovery comes to its end by disk writes alone, and no operation begins meanwhile. */
  lemma {:induction false} Settles(lay: Layout, r0: seq<Block>, s: State) returns (acts: seq<Action>)
    requires Inv(lay, r0, s) && !s.mode.Up?
    ensures DiskOnly(acts) && ValidRun(lay, s, acts) && Inv(lay, r0, Run(lay, s, acts)) && Quiet(Run(lay, s, acts))
    ensures s.durable + s.ended <= Run(lay, s, acts).durable
    ensures Run(lay, s, acts).committed == Groups(s)
    decreases |Pending(lay, s)| - s.mode.k
  {
    hide Inv, Do, Pending, Enabled, NextDisk;
    var a := NextDisk(lay, s);
    DiskStep(lay, r0, s);
    StepInv(lay, r0, s, a);
    acts := [];
    if a.DiskWrite? {
      acts := Settles(lay, r0, Do(lay, s, a));
    }
    assert ([a] + acts)[1..] == acts;
    acts := [a] + acts;
  }

  /**
   From every state in which the last operation can end, end_op and then disk writes alone reach
   a state with no operation outstanding in which that operation is durable.
   */
  lemma LastEndCommits(lay: Layout, s0: State, acts: seq<Action>) returns (more: seq<Action>)
    requires Init(lay, s0) && ValidRun(lay, s0, acts) && |Run(lay, s0, acts).ops| == 1
    requires Enabled(lay, Run(lay, s0, acts), End(0))
    ensures var s := Run(lay, s0, acts);
            && DiskOnly(more) && ValidRun(lay, s, [End(0)] + more)
            && var t := Run(lay, s, [End(0)] + more);
               Quiet(t) && s.ended + {s.ops[0].id} <= t.durable
               && t.committed == if s.lh == [] then s.committed else s.committed + [s.cur]
  {
    var r0, s := Recovered(lay, s0.disk), Run(lay, s0, acts);
    InitInv(lay, s0);
    RunInv(lay, r0, s0, acts);
    StepInv(lay, r0, s, End(0));
    more := Settles(lay, r0, Do(lay, s, End(0)));
    assert ([End(0)] + more)[1..] == more;
  }

  /**
   After a crash at any point of any run, recovery's disk writes alone bring the system up again,
   and bread then sees exactly the groups committed before the crash.
   */
  lemma CrashRecovers(lay: Layout, s0: State, acts: seq<Action>) returns (more: seq<Action>)
    requires Init(lay, s0) && ValidRun(lay, s0, acts)
    ensures var s := Run(lay, s0, acts);
            && DiskOnly(more) && ValidRun(lay, s, [Crash] + more)
            && var t := Run(lay, s, [Crash] + more);
               Quiet(t) && t.committed == s.committed
               && SameHome(lay, t.view, Replay(Recovered(lay, s0.disk), Flatten(s.committed)))
  {
    var r0, s := Recovered(lay, s0.disk), Run(lay, s0, acts);
    InitInv(lay, s0);
    RunInv(lay, r0, s0, acts);
    StepInv(lay, r0, s, Crash);
    more := Settles(lay, r0, Do(lay, s, Crash));
    assert ([Crash] + more)[1..] == more;
    RunConcat(lay, s0, acts, [Crash] + more);
    var t := Run(lay, s, [Crash] + more);
    EndedIsDurable(lay, s0, acts + ([Crash] + more));
    assert SameHome(lay, Recovered(lay, t.disk), Replay(r0, Flatten(t.committed)));
  }

  /** While the system is up, bread sees every committed group and then the running group's updates. */
  lemma LogicalContents(lay: Layout, s0: State, acts: seq<Action>)
    requires Init(lay, s0) && ValidRun(lay, s0, acts)
    ensures var s := Run(lay, s0, acts);
            s.mode.Up? ==>
              SameHome(lay, s.view, Replay(Recovered(lay, s0.disk), Flatten(s.committed) + s.cur))
  {
    var r0 := Recovered(lay, s0.disk);
    InitInv(lay, s0);
    RunInv(lay, r0, s0, acts);
    var s := Run(lay, s0, acts);
    if s.mode.Up? {
      RecoveredEmpty(lay, s.disk);
      ReplaySameHome(lay, s.disk, Replay(r0, Flatten(s.committed)), s.cur);
      ReplayConcat(r0, Flatten(s.committed), s.cur);
    }
  }

  /**
   The reservation: the logged blocks are distinct, and together with what the operations in
   progress may still log they fit in the log.
   */
  lemma Reservation(lay: Layout, s0: State, acts: seq<Action>)
    requires Init(lay, s0) && ValidRun(lay, s0, acts)
    ensures var s := Run(lay, s0, acts);
            && Distinct(s.lh)
            && |s.lh| + Unused(s.ops) <= LOGSIZE
  {
    InitInv(lay, s0);
    RunInv(lay, Recovered(lay, s0.disk), s0, acts);
  }

  // ---------------------------------------------------------------- "too big a transaction"

  /** A log region larger than LOGSIZE: an operation that has not used up its allowance never panics. */
  lemma NoPanicWithinAllowance(lay: Layout, s0: State, acts: seq<Action>, i: nat, b: nat)
    requires Init(lay, s0) && ValidRun(lay, s0, acts) && MayLog(Run(lay, s0, acts), i, b)
    requires lay.size > LOGSIZE && |Run(lay, s0, acts).ops[i].logged| < MAXOPBLOCKS
    ensures !TooBig(lay, |Run(lay, s0, acts).lh|)
  {
    InitInv(lay, s0);
    RunInv(lay, Recovered(lay, s0.disk), s0, acts);
    UnusedBound(Run(lay, s0, acts).ops);
  }

  /** With such a log region, log_write panics exactly when LOGSIZE blocks are in the log; then every
      operation in progress has used up its allowance, and the block is in the log already. */
  lemma PanicExactly(lay: Layout, s0: State, acts: seq<Action>, i: nat, b: nat)
    requires Init(lay, s0) && ValidRun(lay, s0, acts) && MayLog(Run(lay, s0, acts), i, b)
    requires lay.size > LOGSIZE
    ensures var s := Run(lay, s0, acts);
            && (TooBig(lay, |s.lh|) <==> |s.lh| == LOGSIZE)
            && (|s.lh| == LOGSIZE ==> b in s.lh && forall j :: 0 <= j < |s.ops| ==> |s.ops[j].logged| == MAXOPBLOCKS)
  {
    InitInv(lay, s0);
    RunInv(lay, Recovered(lay, s0.disk), s0, acts);
    var s := Run(lay, s0, acts);
    UnusedBound(s.ops);
    if |s.lh| == LOGSIZE {
      AddOne(s.ops[i].logged, b);
    }
  }

  lemma AddOne(s: set<nat>, b: nat)
    ensures |s + {b}| == |s| + if b in s then 0 else 1
  {
    if b in s { assert s + {b} == s; }
  }

  lemma {:induction false} RunConcat(lay: Layout, s: State, a: seq<Action>, b: seq<Action>)
    requires ValidRun(lay, s, a) && ValidRun(lay, Run(lay, s, a), b)
    ensures ValidRun(lay, s, a + b)
    ensures Run(lay, s, a + b) == Run(lay, Run(lay, s, a), b)
    decreases |a|
  {
    if |a| == 0 {
      assert a + b == b;
    } else {
      assert (a + b)[1..] == a[1..] + b;
      RunConcat(lay, Do(lay, s, a[0]), a[1..], b);
    }
  }

  function ZeroBlock(): Block { seq(WORDS, _ => 0) }

  /** The m-th block after the log region. */
  function After(lay: Layout, m: nat): nat { lay.start + lay.size + m }

  /** Three operations in progress that have logged m blocks between them, ten each in turn. */
  ghost predicate Filled(lay: Layout, s: State, m: nat) {
    && s.mode.Up? && |s.view| == lay.blocks
    && |s.lh| == m && (forall j :: 0 <= j < m ==> s.lh[j] == After(lay, j))
    && |s.ops| == 3
    && (forall j :: 0 <= j < 3 ==> s.ops[j].dirty == {})
    && (forall j :: 0 <= j < 3 ==>
        |s.ops[j].logged| == if m >= 10 * j + 10 then 10 else if m <= 10 * j then 0 else m - 10 * j)
    && (forall j, b :: 0 <= j < 3 && b in s.ops[j].logged ==> b < After(lay, m))
    && (m > 0 ==> After(lay, 0) in s.ops[0].logged)
  }

  lemma FillSteps(lay: Layout, s: State, m: nat)
    requires lay.Valid() && Filled(lay, s, m) && m < LOGSIZE && m < lay.size - 1 && After(lay, m) < lay.blocks
    ensures var a0, a1 := Modify(m / 10, After(lay, m), ZeroBlock()), LogWrite(m / 10, After(lay, m));
            && Enabled(lay, s, a0) && Enabled(lay, Do(lay, s, a0), a1)
            && Filled(lay, Do(lay, Do(lay, s, a0), a1), m + 1)
  {
    var i, b := m / 10, After(lay, m);
    var a0, a1 := Modify(i, b, ZeroBlock()), LogWrite(i, b);
    var s1 := Do(lay, s, a0);
    assert b !in s.ops[i].logged;
    assert |s.ops[i].logged + {b}| == |s.ops[i].logged| + 1;
    assert Enabled(lay, s1, a1);
    assert b !in s.lh;
  }

  lemma FillOne(lay: Layout, s: State, m: nat)
    requires lay.Valid() && Filled(lay, s, m) && m < LOGSIZE && m < lay.size - 1 && After(lay, m) < lay.blocks
    ensures var acts := [Modify(m / 10, After(lay, m), ZeroBlock()), LogWrite(m / 10, After(lay, m))];
            ValidRun(lay, s, acts) && Filled(lay, Run(lay, s, acts), m + 1)
  {
    hide Do, Enabled, Filled;
    FillSteps(lay, s, m);
    var a0, a1 := Modify(m / 10, After(lay, m), ZeroBlock()), LogWrite(m / 10, After(lay, m));
    var s1 := Do(lay, s, a0);
    assert [a0, a1][1..] == [a1] && [a1][1..] == [];
    assert Run(lay, s1, [a1]) == Do(lay, s1, a1);
  }

  lemma {:induction false} FillMany(lay: Layout, s: State, m: nat) returns (acts: seq<Action>)
    requires lay.Valid() && Filled(lay, s, 0) && m <= LOGSIZE && m <= lay.size - 1 && After(lay, m) <= lay.blocks
    ensures ValidRun(lay, s, acts) && Filled(lay, Run(lay, s, acts), m)
  {
    hide Do, Enabled, Filled, ZeroBlock;
    if m == 0 {
      acts := [];
    } else {
      acts := FillMany(lay, s, m - 1);
      var t := Run(lay, s, acts);
      FillOne(lay, t, m - 1);
      var more := [Modify((m - 1) / 10, After(lay, m - 1), ZeroBlock()), LogWrite((m - 1) / 10, After(lay, m - 1))];
      RunConcat(lay, s, acts, more);
      acts := acts + more;
    }
  }

  /** Boot from an all-zero disk and start three operations. */
  lemma BootAndBegin(lay: Layout) returns (s0: State, acts: seq<Action>)
    requires lay.Valid()
    ensures Init(lay, s0) && ValidRun(lay, s0, acts) && Filled(lay, Run(lay, s0, acts), 0)
  {
    var up;
    s0, up := BootUp(lay);
    var s2 := Run(lay, s0, up);
    BeginOne(lay, s2, 0);
    var s3 := Do(lay, s2, Begin);
    BeginOne(lay, s3, 1);
    var s4 := Do(lay, s3, Begin);
    BeginOne(lay, s4, 2);
    hide Enabled, Do, Init;
    var more := [Begin, Begin, Begin];
    assert more[1..] == [Begin, Begin] && more[1..][1..] == [Begin] && more[1..][1..][1..] == [];
    var s5 := Do(lay, s4, Begin);
    assert ValidRun(lay, s5, []) && Run(lay, s5, []) == s5;
    assert ValidRun(lay, s4, [Begin]) && Run(lay, s4, [Begin]) == s5;
    assert ValidRun(lay, s3, more[1..]) && Run(lay, s3, more[1..]) == s5;
    RunConcat(lay, s0, up, more);
    acts := up + more;
  }

  /** The machine is up and some operations have begun and logged nothing. */
  ghost predicate Fresh(lay: Layout, s: State, n: nat) {
    && s.mode.Up? && |s.view| == lay.blocks && s.lh == [] && |s.ops| == n
    && forall j :: 0 <= j < n ==> s.ops[j].dirty == {} && s.ops[j].logged == {}
  }

  lemma BeginOne(lay: Layout, s: State, n: nat)
    requires Fresh(lay, s, n) && n < 3
    ensures Enabled(lay, s, Begin) && Fresh(lay, Do(lay, s, Begin), n + 1)
    ensures n == 2 ==> Filled(lay, Do(lay, s, Begin), 0)
  {
  }

  lemma BootUp(lay: Layout) returns (s0: State, acts: seq<Action>)
    requires lay.Valid()
    ensures Init(lay, s0) && ValidRun(lay, s0, acts) && Fresh(lay, Run(lay, s0, acts), 0)
  {
    var disk := seq(lay.blocks, _ => ZeroBlock());
    s0 := State(disk, disk, [], [], Recovering(disk, 0), 0, [], {}, [], [], {});
    assert HeaderOk(lay, disk);
    var s1 := Do(lay, s0, DiskWrite);
    var s2 := Do(lay, s1, Finish);
    acts := [DiskWrite, Finish];
    assert acts[1..] == [Finish] && acts[1..][1..] == [];
    assert Run(lay, s1, [Finish]) == s2;
  }

  /**
   A log region of at most LOGSIZE blocks, as mkfs makes it: three operations within their
   allowance drive log_write into the panic. With NoPanicWithinAllowance, an operation with
   allowance left is safe if and only if log.size > LOGSIZE.
   */
  lemma SmallLogPanics(lay: Layout) returns (s0: State, acts: seq<Action>, i: nat, b: nat)
    requires lay.Valid() && lay.size <= LOGSIZE && After(lay, LOGSIZE) <= lay.blocks
    ensures Init(lay, s0) && ValidRun(lay, s0, acts) && MayLog(Run(lay, s0, acts), i, b)
    ensures |Run(lay, s0, acts).ops[i].logged| < MAXOPBLOCKS
    ensures TooBig(lay, |Run(lay, s0, acts).lh|)
  {
    var boot, fill;
    s0, boot := BootAndBegin(lay);
    var m := lay.size - 1;
    fill := FillMany(lay, Run(lay, s0, boot), m);
    RunConcat(lay, s0, boot, fill);
    i, b := m / 10, After(lay, m);
    var t := Run(lay, s0, boot + fill);
    var last := [Modify(i, b, ZeroBlock())];
    assert last[1..] == [];
    assert ValidRun(lay, t, last);
    RunConcat(lay, s0, boot + fill, last);
    acts := boot + fill + last;
    assert t.ops[i].logged + {b} == {b} + t.ops[i].logged;
  }

  /**
   The test in log_write comes before absorption: with a full log, logging an already logged
   block again panics although it would not grow the log.
   */
  lemma AbsorbedWritePanics(lay: Layout) returns (s0: State, acts: seq<Action>, i: nat, b: nat)
    requires lay.Valid() && lay.size > LOGSIZE && After(lay, LOGSIZE) <= lay.blocks
    ensures Init(lay, s0) && ValidRun(lay, s0, acts) && MayLog(Run(lay, s0, acts), i, b)
    ensures var s := Run(lay, s0, acts); b in s.lh && Absorb(s.lh, b) == s.lh && TooBig(lay, |s.lh|)
  {
    var boot, fill;
    s0, boot := BootAndBegin(lay);
    fill := FillMany(lay, Run(lay, s0, boot), LOGSIZE);
    RunConcat(lay, s0, boot, fill);
    i, b := 0, After(lay, 0);
    var t := Run(lay, s0, boot + fill);
    assert t.lh[0] == b;
    var last := [Modify(i, b, ZeroBlock())];
    assert last[1..] == [];
    assert ValidRun(lay, t, last);
    RunConcat(lay, s0, boot + fill, last);
    acts := boot + fill + last;
    assert t.ops[i].logged + {b} == t.ops[i].logged;
  }
}
