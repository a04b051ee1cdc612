/**
 The redo log of the file system (kernel/fs/log.c) on a disk whose single-block
 writes are atomic.

 The functions give, as lists of block writes, what `write_log`, `write_head`,
 `install_trans`, `commit` and `recover_from_log` send to the disk; the class `Log`
 holds the imperative code and is proved to issue exactly those lists. A crash
 between two writes is a prefix of such a list.
 */
module DiskLog {

  const LOGSIZE: nat := 30      // include/param.h: MAXOPBLOCKS * 3
  const MAXOPBLOCKS: nat := 10
  const WORDS: nat := 256       // BSIZE / sizeof(uint32_t)

  /** A block's contents, as the array of words that the header code casts it to. */
  type Block = seq<int>

  datatype Write = Write(blockno: nat, data: Block)

  /** log.start, log.size and the number of blocks of the device. */
  datatype Layout = Layout(start: nat, size: nat, blocks: nat) {
    predicate Valid() {
      1 <= size && start + size <= blocks
    }

    predicate Home(b: nat) {
      b < blocks && !(start <= b < start + size)
    }

    /** A list of logged block numbers that the log region can hold. */
    predicate Loggable(lh: seq<nat>) {
      && |lh| <= LOGSIZE
      && |lh| <= size - 1
      && Distinct(lh)
      && forall i :: 0 <= i < |lh| ==> Home(lh[i])
    }
  }

  predicate Distinct(s: seq<nat>) {
    forall i, j :: 0 <= i < j < |s| ==> s[i] != s[j]
  }

  // ---------------------------------------------------------------- header block

  /** write_head: the count and the block numbers overwrite a prefix of the old header block. */
  function PackHeader(prior: Block, lh: seq<nat>): (b: Block)
    requires |prior| == WORDS && |lh| <= LOGSIZE
    ensures |b| == WORDS
  {
    [|lh|] + lh + prior[|lh| + 1..]
  }

  predicate HeaderWellFormed(b: Block) {
    && |b| == WORDS
    && 0 <= b[0] <= LOGSIZE
    && forall i :: 1 <= i <= b[0] ==> 0 <= b[i]
  }

  /** read_head: the block numbers listed in a header block. */
  function UnpackHeader(b: Block): (lh: seq<nat>)
    requires HeaderWellFormed(b)
    ensures |lh| == b[0]
  {
    seq(b[0], i requires 0 <= i < b[0] => b[i + 1])
  }

  lemma HeaderRoundTrip(prior: Block, lh: seq<nat>)
    requires |prior| == WORDS && |lh| <= LOGSIZE
    ensures HeaderWellFormed(PackHeader(prior, lh))
    ensures UnpackHeader(PackHeader(prior, lh)) == lh
  {
    var b := PackHeader(prior, lh);
    assert forall i :: 1 <= i <= |lh| ==> b[i] == lh[i - 1];
  }

  // ---------------------------------------------------------------- lists of writes

  function ApplyWrites(d: seq<Block>, ws: seq<Write>): (r: seq<Block>)
    ensures |r| == |d|
    decreases |ws|
  {
    if |ws| == 0 then d
    else
      var before := ApplyWrites(d, ws[..|ws| - 1]);
      var w := ws[|ws| - 1];
      if w.blockno < |d| then before[w.blockno := w.data] else before
  }

  predicate DistinctTargets(ws: seq<Write>) {
    forall i, j :: 0 <= i < j < |ws| ==> ws[i].blockno != ws[j].blockno
  }

  lemma {:induction false} ApplyMiss(d: seq<Block>, ws: seq<Write>, b: nat)
    requires b < |d|
    requires forall i :: 0 <= i < |ws| ==> ws[i].blockno != b
    ensures ApplyWrites(d, ws)[b] == d[b]
    decreases |ws|
  {
    if |ws| > 0 { ApplyMiss(d, ws[..|ws| - 1], b); }
  }

  lemma {:induction false} ApplyHit(d: seq<Block>, ws: seq<Write>, i: nat)
    requires i < |ws| && DistinctTargets(ws) && ws[i].blockno < |d|
    ensures ApplyWrites(d, ws)[ws[i].blockno] == ws[i].data
    decreases |ws|
  {
    if i < |ws| - 1 { ApplyHit(d, ws[..|ws| - 1], i); }
  }

  lemma {:induction false} ApplyConcat(d: seq<Block>, a: seq<Write>, b: seq<Write>)
    ensures ApplyWrites(d, a + b) == ApplyWrites(ApplyWrites(d, a), b)
    decreases |b|
  {
    if |b| == 0 {
      assert a + b == a;
    } else {
      assert (a + b)[..|a + b| - 1] == a + b[..|b| - 1];
      ApplyConcat(d, a, b[..|b| - 1]);
    }
  }

  /** write_log: the cached contents of the logged blocks, into the log region. */
  function LogWrites(lay: Layout, lh: seq<nat>, view: seq<Block>): (ws: seq<Write>)
    requires forall i :: 0 <= i < |lh| ==> lh[i] < |view|
    ensures |ws| == |lh|
  {
    seq(|lh|, i requires 0 <= i < |lh| => Write(lay.start + 1 + i, view[lh[i]]))
  }

  /** install_trans: the log region's blocks, to their home locations. */
  function InstallWrites(lay: Layout, lh: seq<nat>, view: seq<Block>): (ws: seq<Write>)
    requires lay.start + |lh| < |view|
    ensures |ws| == |lh|
  {
    seq(|lh|, i requires 0 <= i < |lh| => Write(lh[i], view[lay.start + 1 + i]))
  }

  predicate Coherent(lay: Layout, lh: seq<nat>, view: seq<Block>) {
    && lay.Valid()
    && |view| == lay.blocks
    && lay.Loggable(lh)
    && |view[lay.start]| == WORDS
  }

  /** commit: log, header, home locations, empty header. Nothing if no block was logged. */
  function CommitWrites(lay: Layout, lh: seq<nat>, view: seq<Block>): (ws: seq<Write>)
    requires Coherent(lay, lh, view)
    ensures |ws| == if |lh| == 0 then 0 else 2 * |lh| + 2
  {
    if |lh| == 0 then []
    else
      var logs := LogWrites(lay, lh, view);
      var head := PackHeader(view[lay.start], lh);
      logs + [Write(lay.start, head)]
      + InstallWrites(lay, lh, ApplyWrites(view, logs))
      + [Write(lay.start, PackHeader(head, []))]
  }

  /** A disk whose header block lists blocks that the log can hold. */
  predicate HeaderOk(lay: Layout, d: seq<Block>) {
    && lay.Valid()
    && |d| == lay.blocks
    && HeaderWellFormed(d[lay.start])
    && lay.Loggable(UnpackHeader(d[lay.start]))
  }

  function Logged(lay: Layout, d: seq<Block>): (lh: seq<nat>)
    requires HeaderOk(lay, d)
    ensures lay.Loggable(lh)
  {
    UnpackHeader(d[lay.start])
  }

  /** recover_from_log at boot, when every block is read from the disk itself. */
  function RecoverWrites(lay: Layout, d: seq<Block>): (ws: seq<Write>)
    requires HeaderOk(lay, d)
    ensures |ws| == |Logged(lay, d)| + 1
  {
    InstallWrites(lay, Logged(lay, d), d) + [Write(lay.start, PackHeader(d[lay.start], []))]
  }

  /** The disk that an undisturbed recovery produces. */
  function Recovered(lay: Layout, d: seq<Block>): (r: seq<Block>)
    requires HeaderOk(lay, d)
    ensures |r| == |d|
  {
    ApplyWrites(d, RecoverWrites(lay, d))
  }

  /** Both disks hold the same contents in every block outside the log region. */
  ghost predicate SameHome(lay: Layout, a: seq<Block>, b: seq<Block>) {
    && |a| == |b| == lay.blocks
    && forall i :: 0 <= i < lay.blocks && lay.Home(i) ==> a[i] == b[i]
  }

  // ---------------------------------------------------------------- recovery

  /** What recovery makes of one home block, stated without the list of writes. */
  lemma RecoveredHome(lay: Layout, d: seq<Block>, b: nat)
    requires HeaderOk(lay, d) && lay.Home(b)
    ensures b !in Logged(lay, d) ==> Recovered(lay, d)[b] == d[b]
    ensures forall i :: 0 <= i < |Logged(lay, d)| && Logged(lay, d)[i] == b
              ==> Recovered(lay, d)[b] == d[lay.start + 1 + i]
  {
    var lh := Logged(lay, d);
    var ws := InstallWrites(lay, lh, d);
    assert RecoverWrites(lay, d)[..|ws|] == ws;
    assert Recovered(lay, d)[b] == ApplyWrites(d, ws)[b];
    if b !in lh {
      ApplyMiss(d, ws, b);
    } else {
      var i :| 0 <= i < |lh| && lh[i] == b;
      ApplyHit(d, ws, i);
    }
  }

  /** A disk with the header emptied is its own recovery. */
  lemma RecoveredEmpty(lay: Layout, d: seq<Block>)
    requires HeaderOk(lay, d) && Logged(lay, d) == []
    ensures SameHome(lay, Recovered(lay, d), d)
  {
    forall b | 0 <= b < lay.blocks && lay.Home(b) ensures Recovered(lay, d)[b] == d[b] {
      RecoveredHome(lay, d, b);
    }
  }

  /** A crash after any k writes of recovery leaves a disk with the same recovery. */
  lemma RecoveryCrash(lay: Layout, d: seq<Block>, k: nat)
    requires HeaderOk(lay, d) && k <= |RecoverWrites(lay, d)|
    ensures var d' := ApplyWrites(d, RecoverWrites(lay, d)[..k]);
            && HeaderOk(lay, d')
            && SameHome(lay, Recovered(lay, d'), Recovered(lay, d))
            && (k == |RecoverWrites(lay, d)| ==> Logged(lay, d') == [])
  {
    var lh := Logged(lay, d);
    var ws := RecoverWrites(lay, d);
    var d' := ApplyWrites(d, ws[..k]);
    if k == |ws| {
      assert ws[..k] == ws;
      HeaderRoundTrip(d[lay.start], []);
      RecoveredEmpty(lay, d');
    } else {
      forall b | 0 <= b < lay.blocks && !lay.Home(b) ensures d'[b] == d[b] {
        ApplyMiss(d, ws[..k], b);
      }
      forall b | 0 <= b < lay.blocks && lay.Home(b)
        ensures Recovered(lay, d')[b] == Recovered(lay, d)[b]
      {
        RecoveredHome(lay, d, b);
        RecoveredHome(lay, d', b);
        if b !in lh { ApplyMiss(d, ws[..k], b); }
      }
    }
  }

  /** The disk after recoveries cut short by crashes, the i-th after cuts[i] writes. */
  function Interrupted(lay: Layout, d: seq<Block>, cuts: seq<nat>): (r: seq<Block>)
    requires lay.Valid() && |d| == lay.blocks
    ensures |r| == |d|
    decreases |cuts|
  {
    if |cuts| == 0 || !HeaderOk(lay, d) then d
    else
      var ws := RecoverWrites(lay, d);
      Interrupted(lay, ApplyWrites(d, if cuts[0] <= |ws| then ws[..cuts[0]] else ws), cuts[1..])
  }

  /** Any number of crashes during recovery: the recovery that completes gives the same disk. */
  lemma {:induction false} RepeatedRecovery(lay: Layout, d: seq<Block>, cuts: seq<nat>)
    requires HeaderOk(lay, d)
    ensures HeaderOk(lay, Interrupted(lay, d, cuts))
    ensures SameHome(lay, Recovered(lay, Interrupted(lay, d, cuts)), Recovered(lay, d))
    decreases |cuts|
  {
    if |cuts| > 0 {
      var ws := RecoverWrites(lay, d);
      var k := if cuts[0] <= |ws| then cuts[0] else |ws|;
      assert ws[..|ws|] == ws;
      RecoveryCrash(lay, d, k);
      RepeatedRecovery(lay, ApplyWrites(d, ws[..k]), cuts[1..]);
    }
  }

  // ---------------------------------------------------------------- commit

  /** When the last operation ends: the disk's header is empty and only logged blocks differ. */
  ghost predicate ReadyToCommit(lay: Layout, lh: seq<nat>, view: seq<Block>, d: seq<Block>) {
    && Coherent(lay, lh, view)
    && HeaderOk(lay, d) && Logged(lay, d) == []
    && view[lay.start] == d[lay.start]
    && forall b :: 0 <= b < lay.blocks && lay.Home(b) && b !in lh ==> view[b] == d[b]
  }

  /** Crash before the header write: nothing but the log region has changed. */
  lemma CrashBeforeHeader(lay: Layout, lh: seq<nat>, view: seq<Block>, d: seq<Block>, k: nat)
    requires ReadyToCommit(lay, lh, view, d) && |lh| > 0 && k <= |lh|
    ensures var d' := ApplyWrites(d, CommitWrites(lay, lh, view)[..k]);
            && HeaderOk(lay, d') && Logged(lay, d') == []
            && SameHome(lay, d', d)
            && forall i :: 0 <= i < k ==> d'[lay.start + 1 + i] == view[lh[i]]
  {
    var logs := LogWrites(lay, lh, view);
    var ws := CommitWrites(lay, lh, view)[..k];
    assert ws == logs[..k];
    forall b | 0 <= b < lay.blocks && (lay.Home(b) || b == lay.start)
      ensures ApplyWrites(d, ws)[b] == d[b]
    {
      ApplyMiss(d, ws, b);
    }
    forall i | 0 <= i < k ensures ApplyWrites(d, ws)[lay.start + 1 + i] == view[lh[i]] {
      ApplyHit(d, ws, i);
    }
  }

  /** The log region holds the logged blocks, both in the cache and on the disk. */
  lemma SameInstalls(lay: Layout, lh: seq<nat>, view: seq<Block>, d: seq<Block>)
    requires Coherent(lay, lh, view) && |d| == lay.blocks
    requires forall i :: 0 <= i < |lh| ==> d[lay.start + 1 + i] == view[lh[i]]
    ensures InstallWrites(lay, lh, ApplyWrites(view, LogWrites(lay, lh, view))) == InstallWrites(lay, lh, d)
  {
    var logs := LogWrites(lay, lh, view);
    var a, b := InstallWrites(lay, lh, ApplyWrites(view, logs)), InstallWrites(lay, lh, d);
    forall i | 0 <= i < |lh| ensures a[i] == b[i] {
      ApplyHit(view, logs, i);
    }
  }

  /** The commit's writes up to the header write, and after it. */
  lemma CommitParts(lay: Layout, lh: seq<nat>, view: seq<Block>)
    requires Coherent(lay, lh, view) && |lh| > 0
    ensures var ws, head := CommitWrites(lay, lh, view), PackHeader(view[lay.start], lh);
            && ws[..|lh|] == LogWrites(lay, lh, view)
            && ws[..|lh| + 1] == ws[..|lh|] + [Write(lay.start, head)]
            && ws[|lh| + 1..] == InstallWrites(lay, lh, ApplyWrites(view, LogWrites(lay, lh, view)))
                                 + [Write(lay.start, PackHeader(head, []))]
  {
  }

  /** The disk right after the header write: committed, nothing installed yet. */
  lemma AfterHeader(lay: Layout, lh: seq<nat>, view: seq<Block>, d: seq<Block>)
    requires ReadyToCommit(lay, lh, view, d) && |lh| > 0
    ensures var d' := ApplyWrites(d, CommitWrites(lay, lh, view)[..|lh| + 1]);
            && HeaderOk(lay, d') && Logged(lay, d') == lh
            && SameHome(lay, Recovered(lay, d'), view)
            && RecoverWrites(lay, d') == CommitWrites(lay, lh, view)[|lh| + 1..]
  {
    var n := |lh|;
    var ws := CommitWrites(lay, lh, view);
    CrashBeforeHeader(lay, lh, view, d, n);
    CommitParts(lay, lh, view);
    var d1 := ApplyWrites(d, ws[..n]);
    var head := PackHeader(view[lay.start], lh);
    HeaderRoundTrip(view[lay.start], lh);
    HeaderWritten(lay, lh, view, d, d1, head);
    ApplyConcat(d, ws[..n], [Write(lay.start, head)]);
    assert ApplyWrites(d, ws[..n + 1]) == ApplyWrites(d1, [Write(lay.start, head)]);
  }

  lemma HeaderWritten(lay: Layout, lh: seq<nat>, view: seq<Block>, d: seq<Block>, d1: seq<Block>, head: Block)
    requires ReadyToCommit(lay, lh, view, d) && |d1| == lay.blocks && SameHome(lay, d1, d)
    requires forall i :: 0 <= i < |lh| ==> d1[lay.start + 1 + i] == view[lh[i]]
    requires HeaderWellFormed(head) && UnpackHeader(head) == lh
    ensures var d' := ApplyWrites(d1, [Write(lay.start, head)]);
            && HeaderOk(lay, d') && Logged(lay, d') == lh && d'[lay.start] == head
            && SameHome(lay, Recovered(lay, d'), view)
            && InstallWrites(lay, lh, d') == InstallWrites(lay, lh, ApplyWrites(view, LogWrites(lay, lh, view)))
  {
    var d' := d1[lay.start := head];
    assert [Write(lay.start, head)][..0] == [];
    assert ApplyWrites(d1, [Write(lay.start, head)]) == d';
    CommittedDisk(lay, lh, view, d, d');
    SameInstalls(lay, lh, view, d');
  }

  lemma CommittedDisk(lay: Layout, lh: seq<nat>, view: seq<Block>, d: seq<Block>, d': seq<Block>)
    requires ReadyToCommit(lay, lh, view, d) && HeaderOk(lay, d') && Logged(lay, d') == lh
    requires SameHome(lay, d', d)
    requires forall i :: 0 <= i < |lh| ==> d'[lay.start + 1 + i] == view[lh[i]]
    ensures SameHome(lay, Recovered(lay, d'), view)
  {
    forall b | 0 <= b < lay.blocks && lay.Home(b) ensures Recovered(lay, d')[b] == view[b] {
      RecoveredHome(lay, d', b);
    }
  }

  /**
   Crash atomicity: whatever number k of the commit's writes reached the disk, recovery
   yields the state before the transaction if the header write is not among them, and the
   whole transaction if it is.
   */
  lemma CommitCrash(lay: Layout, lh: seq<nat>, view: seq<Block>, d: seq<Block>, k: nat)
    requires ReadyToCommit(lay, lh, view, d) && k <= |CommitWrites(lay, lh, view)|
    ensures var d' := ApplyWrites(d, CommitWrites(lay, lh, view)[..k]);
            && HeaderOk(lay, d')
            && SameHome(lay, Recovered(lay, d'), if k > |lh| then view else d)
            && (k == |CommitWrites(lay, lh, view)| ==> Logged(lay, d') == [] && SameHome(lay, d', view))
  {
    if |lh| == 0 {
      assert CommitWrites(lay, lh, view)[..k] == [];
      RecoveredEmpty(lay, d);
    } else if k <= |lh| {
      CrashBeforeHeader(lay, lh, view, d, k);
      RecoveredEmpty(lay, ApplyWrites(d, CommitWrites(lay, lh, view)[..k]));
    } else {
      CrashAfterHeader(lay, lh, view, d, k);
    }
  }

  /** Crash after the header write: recovery goes on from where installing stopped. */
  lemma CrashAfterHeader(lay: Layout, lh: seq<nat>, view: seq<Block>, d: seq<Block>, k: nat)
    requires ReadyToCommit(lay, lh, view, d) && 0 < |lh| < k <= |CommitWrites(lay, lh, view)|
    ensures var d' := ApplyWrites(d, CommitWrites(lay, lh, view)[..k]);
            && HeaderOk(lay, d')
            && SameHome(lay, Recovered(lay, d'), view)
            && (k == |CommitWrites(lay, lh, view)| ==> Logged(lay, d') == [] && SameHome(lay, d', view))
  {
    hide Recovered, RecoverWrites, CommitWrites, ApplyWrites, HeaderOk, Coherent, SameHome, PackHeader;
    var n := |lh|;
    var ws := CommitWrites(lay, lh, view);
    AfterHeader(lay, lh, view, d);
    var d1, d' := ApplyWrites(d, ws[..n + 1]), ApplyWrites(d, ws[..k]);
    assert ws[..k] == ws[..n + 1] + ws[n + 1..][..k - n - 1];
    ApplyConcat(d, ws[..n + 1], ws[n + 1..][..k - n - 1]);
    RecoveryCrash(lay, d1, k - n - 1);
    SameHomeTrans(lay, Recovered(lay, d'), Recovered(lay, d1), view);
    if k == |ws| {
      RecoveredEmpty(lay, d');
      SameHomeTrans(lay, d', Recovered(lay, d'), view);
    }
  }

  lemma SameHomeTrans(lay: Layout, a: seq<Block>, b: seq<Block>, c: seq<Block>)
    requires (SameHome(lay, a, b) || SameHome(lay, b, a)) && SameHome(lay, b, c)
    ensures SameHome(lay, a, c)
  {
  }

  /** Crash atomicity with any number of further crashes while recovering. */
  lemma CommitThenInterrupted(lay: Layout, lh: seq<nat>, view: seq<Block>, d: seq<Block>, k: nat, cuts: seq<nat>)
    requires ReadyToCommit(lay, lh, view, d) && k <= |CommitWrites(lay, lh, view)|
    ensures var d' := Interrupted(lay, ApplyWrites(d, CommitWrites(lay, lh, view)[..k]), cuts);
            && HeaderOk(lay, d')
            && Logged(lay, Recovered(lay, d')) == []
            && SameHome(lay, Recovered(lay, d'), if k > |lh| then view else d)
  {
    CommitCrash(lay, lh, view, d, k);
    var d1 := ApplyWrites(d, CommitWrites(lay, lh, view)[..k]);
    RepeatedRecovery(lay, d1, cuts);
    var d' := Interrupted(lay, d1, cuts);
    var ws := RecoverWrites(lay, d');
    assert ws[..|ws|] == ws;
    RecoveryCrash(lay, d', |ws|);
  }

  // ---------------------------------------------------------------- the code

  /** log_write's effect on the list of logged blocks, with absorption. */
  function Absorb(lh: seq<nat>, b: nat): (r: seq<nat>)
    ensures forall x :: x in r <==> x in lh || x == b
    ensures Distinct(lh) ==> Distinct(r)
  {
    if b in lh then lh else lh + [b]
  }

  /** begin_op proceeds: no commit is running and the new operation's reservation fits. */
  predicate MayBegin(n: nat, outstanding: nat, committing: bool) {
    !committing && n + (outstanding + 1) * MAXOPBLOCKS <= LOGSIZE
  }

  /** log_write's "too big a transaction" test. */
  predicate TooBig(lay: Layout, n: nat) {
    n >= LOGSIZE || n >= lay.size - 1
  }

  /** The global `log`, the disk, and what bread returns for every block. */
  class Log {
    const lay: Layout
    var disk: seq<Block>
    var view: seq<Block>
    var lh: seq<nat>
    var outstanding: int
    var committing: bool
    ghost var writes: seq<Write>   // every bwrite since boot, oldest first

    ghost predicate Valid()
      reads this
    {
      && |disk| == lay.blocks
      && Coherent(lay, lh, view)
    }

    /** initlog on a disk whose header block is well formed. */
    constructor (lay: Layout, disk: seq<Block>)
      requires HeaderOk(lay, disk)
      ensures this.lay == lay && Valid() && lh == [] && outstanding == 0 && !committing
      ensures writes == RecoverWrites(lay, disk)
      ensures this.disk == view == Recovered(lay, disk)
    {
      this.lay := lay;
      this.disk := disk;
      view := disk;
      lh := [];
      outstanding := 0;
      committing := false;
      writes := [];
      new;
      RecoverFromLog();
    }

    method Bwrite(b: nat)
      requires b < |view| == |disk|
      modifies `disk, `writes
      ensures writes == old(writes) + [Write(b, view[b])]
      ensures disk == old(disk)[b := view[b]]
    {
      disk := disk[b := view[b]];
      writes := writes + [Write(b, view[b])];
    }

    method InstallTrans()
      requires Valid()
      modifies `disk, `view, `writes
      ensures Valid()
      ensures writes == old(writes) + InstallWrites(lay, lh, old(view))
      ensures disk == ApplyWrites(old(disk), InstallWrites(lay, lh, old(view)))
      ensures view == ApplyWrites(old(view), InstallWrites(lay, lh, old(view)))
    {
      ghost var ws := InstallWrites(lay, lh, view);
      var tail := 0;
      while tail < |lh|
        invariant 0 <= tail <= |lh|
        invariant |disk| == |view| == lay.blocks
        invariant disk == ApplyWrites(old(disk), ws[..tail])
        invariant view == ApplyWrites(old(view), ws[..tail])
        invariant writes == old(writes) + ws[..tail]
      {
        ApplyMiss(old(view), ws[..tail], lay.start + tail + 1);
        view := view[lh[tail] := view[lay.start + tail + 1]];
        Bwrite(lh[tail]);
        assert ws[..tail + 1] == ws[..tail] + [ws[tail]];
        tail := tail + 1;
      }
      assert ws[..|lh|] == ws;
      ApplyMiss(old(view), ws, lay.start);
    }

    method ReadHead()
      requires lay.Valid() && |view| == lay.blocks && HeaderWellFormed(view[lay.start])
      modifies `lh
      ensures lh == UnpackHeader(view[lay.start])
    {
      var b := view[lay.start];
      lh := [];
      var i := 0;
      while i < b[0]
        invariant 0 <= i <= b[0]
        invariant lh == UnpackHeader(b)[..i]
      {
        lh := lh + [b[i + 1]];
        i := i + 1;
      }
    }

    method WriteHead()
      requires Valid()
      modifies `disk, `view, `writes
      ensures Valid()
      ensures var head := PackHeader(old(view[lay.start]), lh);
              && writes == old(writes) + [Write(lay.start, head)]
              && disk == old(disk)[lay.start := head]
              && view == old(view)[lay.start := head]
    {
      ghost var before := view[lay.start];
      var hb := view[lay.start][0 := |lh|];
      var i := 0;
      while i < |lh|
        invariant 0 <= i <= |lh|
        invariant hb == [|lh|] + lh[..i] + before[i + 1..]
      {
        hb := hb[i + 1 := lh[i]];
        i := i + 1;
      }
      assert lh[..|lh|] == lh;
      assert hb == PackHeader(before, lh);
      view := view[lay.start := hb];
      Bwrite(lay.start);
    }

    method RecoverFromLog()
      requires HeaderOk(lay, disk) && view == disk && writes == []
      modifies `disk, `view, `lh, `writes
      ensures Valid() && lh == []
      ensures writes == RecoverWrites(lay, old(disk))
      ensures disk == view == Recovered(lay, old(disk))
    {
      ReadHead();
      InstallTrans();
      ApplyMiss(old(disk), InstallWrites(lay, lh, old(disk)), lay.start);
      ghost var ws := InstallWrites(lay, lh, old(disk));
      lh := [];
      WriteHead();
      ApplyConcat(old(disk), ws, [Write(lay.start, view[lay.start])]);
    }

    method WriteLog()
      requires Valid()
      modifies `disk, `view, `writes
      ensures Valid()
      ensures writes == old(writes) + LogWrites(lay, lh, old(view))
      ensures disk == ApplyWrites(old(disk), LogWrites(lay, lh, old(view)))
      ensures view == ApplyWrites(old(view), LogWrites(lay, lh, old(view)))
    {
      ghost var ws := LogWrites(lay, lh, view);
      var tail := 0;
      while tail < |lh|
        invariant 0 <= tail <= |lh|
        invariant |disk| == |view| == lay.blocks
        invariant disk == ApplyWrites(old(disk), ws[..tail])
        invariant view == ApplyWrites(old(view), ws[..tail])
        invariant writes == old(writes) + ws[..tail]
      {
        ApplyMiss(old(view), ws[..tail], lh[tail]);
        view := view[lay.start + tail + 1 := view[lh[tail]]];
        Bwrite(lay.start + tail + 1);
        assert ws[..tail + 1] == ws[..tail] + [ws[tail]];
        tail := tail + 1;
      }
      assert ws[..|lh|] == ws;
      ApplyMiss(old(view), ws, lay.start);
    }

    /** commit issues exactly CommitWrites, so CommitCrash speaks about every crash point in it. */
    method Commit()
      requires Valid()
      modifies `disk, `view, `lh, `writes
      ensures Valid() && lh == []
      ensures writes == old(writes) + CommitWrites(lay, old(lh), old(view))
      ensures disk == ApplyWrites(old(disk), CommitWrites(lay, old(lh), old(view)))
      ensures view == ApplyWrites(old(view), CommitWrites(lay, old(lh), old(view)))
    {
      if |lh| > 0 {
        ghost var d0, v0 := disk, view;
        WriteLog();
        ghost var d1, v1 := disk, view;
        ApplyMiss(v0, LogWrites(lay, lh, v0), lay.start);
        WriteHead();
        ghost var d2, v2 := disk, view;
        InstallTrans();
        ApplyMiss(v2, InstallWrites(lay, lh, v2), lay.start);
        ghost var head := PackHeader(v0[lay.start], lh);
        ghost var clear := PackHeader(head, []);
        SameInstallsAfterHeader(lay, lh, v1, head);
        CommitEffect(lay, lh, v0, d0);
        CommitEffect(lay, lh, v0, v0);
        lh := [];
        WriteHead();
      }
    }

    /** One pass of begin_op's loop; false when it would sleep on the log. */
    method BeginOp() returns (ok: bool)
      requires 0 <= outstanding
      modifies `outstanding
      ensures ok == MayBegin(|lh|, old(outstanding), committing)
      ensures outstanding == old(outstanding) + if ok then 1 else 0
    {
      if committing {
        ok := false;
      } else if |lh| + (outstanding + 1) * MAXOPBLOCKS > LOGSIZE {
        ok := false;
      } else {
        outstanding := outstanding + 1;
        ok := true;
      }
    }

    /** end_op when no other operation starts meanwhile; panic is "log.committing". */
    method EndOp() returns (panic: bool)
      requires Valid() && outstanding >= 1
      modifies `disk, `view, `lh, `writes, `outstanding, `committing
      ensures panic == old(committing)
      ensures outstanding == old(outstanding) - 1 && committing == old(committing)
      ensures !panic ==> Valid()
      ensures panic || outstanding > 0
              ==> disk == old(disk) && view == old(view) && lh == old(lh) && writes == old(writes)
      ensures !panic && outstanding == 0 ==>
                && lh == []
                && writes == old(writes) + CommitWrites(lay, old(lh), old(view))
                && disk == ApplyWrites(old(disk), CommitWrites(lay, old(lh), old(view)))
    {
      outstanding := outstanding - 1;
      panic := committing;
      if panic { return; }
      if outstanding == 0 {
        committing := true;
        Commit();
        committing := false;
      }
    }

    /** log_write of a block already modified in the cache. */
    method LogWrite(b: nat) returns (panic: bool)
      modifies `lh
      ensures panic == (TooBig(lay, |old(lh)|) || outstanding < 1)
      ensures lh == if panic then old(lh) else Absorb(old(lh), b)
    {
      if |lh| >= LOGSIZE || |lh| >= lay.size - 1 { return true; }
      if outstanding < 1 { return true; }
      var i := 0;
      while i < |lh| && lh[i] != b
        invariant 0 <= i <= |lh|
        invariant b !in lh[..i]
      {
        i := i + 1;
      }
      if i == |lh| {
        lh := lh + [b];
      } else {
        lh := lh[i := b];
        assert lh == old(lh);
      }
      panic := false;
    }
  }

  lemma SameInstallsAfterHeader(lay: Layout, lh: seq<nat>, view: seq<Block>, head: Block)
    requires Coherent(lay, lh, view)
    ensures InstallWrites(lay, lh, view[lay.start := head]) == InstallWrites(lay, lh, view)
  {
  }

  /** The commit's writes, applied part by part. */
  lemma CommitEffect(lay: Layout, lh: seq<nat>, view: seq<Block>, d: seq<Block>)
    requires Coherent(lay, lh, view) && |lh| > 0 && |d| == lay.blocks
    ensures var logs, head := LogWrites(lay, lh, view), PackHeader(view[lay.start], lh);
            var d2 := ApplyWrites(d, logs)[lay.start := head];
            var d3 := ApplyWrites(d2, InstallWrites(lay, lh, ApplyWrites(view, logs)));
            ApplyWrites(d, CommitWrites(lay, lh, view)) == d3[lay.start := PackHeader(head, [])]
  {
    var logs, head := LogWrites(lay, lh, view), PackHeader(view[lay.start], lh);
    var inst := InstallWrites(lay, lh, ApplyWrites(view, logs));
    FourParts(d, logs, Write(lay.start, head), inst, Write(lay.start, PackHeader(head, [])));
  }

  lemma FourParts(d: seq<Block>, a: seq<Write>, w: Write, b: seq<Write>, w': Write)
    requires w.blockno < |d| && w'.blockno < |d|
    ensures ApplyWrites(d, a + [w] + b + [w'])
         == ApplyWrites(ApplyWrites(d, a)[w.blockno := w.data], b)[w'.blockno := w'.data]
  {
    ApplyOneMore(d, a + [w] + b, w');
    ApplyConcat(d, a + [w], b);
    ApplyOneMore(d, a, w);
  }

  lemma ApplyOneMore(d: seq<Block>, ws: seq<Write>, w: Write)
    requires w.blockno < |d|
    ensures ApplyWrites(d, ws + [w]) == ApplyWrites(d, ws)[w.blockno := w.data]
  {
    assert (ws + [w])[..|ws|] == ws;
  }
}
