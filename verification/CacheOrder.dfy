/**
 Which buffer is recycled, and that a commit leaves none pinned (kernel/fs/bio.c:57-142,
 kernel/fs/log.c:68-82): over any run of the cache.
 */
module CacheOrder {
  import opened BufferCache
  import opened CacheLimits
  import opened DiskLog
  import opened IntrusiveList

  // ---------------------------------------------------------------- least recently released

  /** The buffer that a step gives back for good: its last reference went. */
  ghost function FreedBy(s: State, a: Action): seq<nat>
    requires Enabled(s, a)
  {
    if a.Put? && Do(s, a).bufs[s.handles[a.h].i].refcnt == 0 then [s.handles[a.h].i] else []
  }

  /** The buffers given back in a run, first to last. */
  ghost function Freed(s: State, acts: seq<Action>): seq<nat>
    requires ValidRun(s, acts)
    decreases |acts|
  {
    if |acts| == 0 then [] else FreedBy(s, acts[0]) + Freed(Do(s, acts[0]), acts[1..])
  }

  /** When buffer i was last given back: its last place in the history, 0 for never. */
  function LastTime(history: seq<nat>, i: nat): (t: nat)
    ensures t <= |history| && (t > 0 ==> history[t - 1] == i)
    decreases |history|
  {
    if |history| == 0 then 0
    else if history[|history| - 1] == i then |history|
    else LastTime(history[..|history| - 1], i)
  }

  /** A list from its end. */
  function Reversed(l: seq<nat>): (r: seq<nat>)
    ensures |r| == |l| && forall k :: 0 <= k < |l| ==> r[k] == l[|l| - 1 - k]
  {
    seq(|l|, k requires 0 <= k < |l| => l[|l| - 1 - k])
  }

  /** The list has the buffers in order of their last release, the latest first. */
  ghost predicate Recent(lru: seq<nat>, history: seq<nat>) {
    forall a, b :: 0 <= a < b < |lru| ==> LastTime(history, lru[a]) > LastTime(history, lru[b])
  }

  lemma OneLater(history: seq<nat>, x: nat, i: nat)
    ensures LastTime(history + [x], i) == if i == x then |history| + 1 else LastTime(history, i)
  {
    assert (history + [x])[..|history|] == history;
  }

  lemma {:induction false} TimesFrom(l: seq<nat>, k: nat)
    requires NoDuplicates(l) && k < |l|
    ensures LastTime(Reversed(l), l[k]) == |l| - k
  {
    TimeAt(Reversed(l), |l| - 1 - k);
  }

  lemma {:induction false} TimeAt(h: seq<nat>, k: nat)
    requires k < |h| && forall j :: k < j < |h| ==> h[j] != h[k]
    ensures LastTime(h, h[k]) == k + 1
    decreases |h|
  {
    if k < |h| - 1 { TimeAt(h[..|h| - 1], k); }
  }

  lemma StartRecent(l: seq<nat>)
    requires NoDuplicates(l)
    ensures Recent(l, Reversed(l))
  {
    forall a, b | 0 <= a < b < |l| ensures LastTime(Reversed(l), l[a]) > LastTime(Reversed(l), l[b]) {
      TimesFrom(l, a);
      TimesFrom(l, b);
    }
  }

  lemma FrontRecent(lru: seq<nat>, history: seq<nat>, i: nat)
    requires NoDuplicates(lru) && i in lru && Recent(lru, history)
    ensures Recent(MoveToFront(lru, i), history + [i])
  {
    var k := Index(lru, i);
    var r := MoveToFront(lru, i);
    forall a, b | 0 <= a < b < |r| ensures LastTime(history + [i], r[a]) > LastTime(history + [i], r[b]) {
      OneLater(history, i, r[a]);
      OneLater(history, i, r[b]);
      assert r[b] == lru[if b - 1 < k then b - 1 else b];
      if a > 0 { assert r[a] == lru[if a - 1 < k then a - 1 else a]; }
    }
  }

  lemma StepRecent(s: State, history: seq<nat>, a: Action)
    requires Inv(s) && Enabled(s, a) && Recent(s.lru, history)
    ensures Recent(Do(s, a).lru, history + FreedBy(s, a))
  {
    hide Inv, MoveToFront, LastTime;
    assert history + [] == history;
    if a.Put? && FreedBy(s, a) != [] {
      LruParts(s);
      FrontRecent(s.lru, history, s.handles[a.h].i);
    }
  }

  lemma LruParts(s: State)
    requires Inv(s)
    ensures NoDuplicates(s.lru) && forall x :: x in s.lru <==> x in s.bufs
  {
  }

  lemma {:induction false} RunRecent(s: State, history: seq<nat>, acts: seq<Action>)
    requires Inv(s) && ValidRun(s, acts) && Recent(s.lru, history)
    ensures Recent(Run(s, acts).lru, history + Freed(s, acts))
    decreases |acts|
  {
    hide Inv, Do, Enabled, Recent, FreedBy;
    if |acts| > 0 {
      Step(s, acts[0]);
      StepRecent(s, history, acts[0]);
      RunRecent(Do(s, acts[0]), history + FreedBy(s, acts[0]), acts[1..]);
      assert history + FreedBy(s, acts[0]) + Freed(Do(s, acts[0]), acts[1..]) == history + Freed(s, acts);
    } else {
      assert history + [] == history;
    }
  }

  /**
   In every run, the buffer that bget recycles is the one, of those without a reference, whose last
   release is the longest ago; buffers never released come first, from the end of the first list.
   */
  lemma RecyclesOldest(s0: State, acts: seq<Action>, b: nat, j: nat)
    requires Init(s0) && ValidRun(s0, acts)
    requires var s := Run(s0, acts); j in s.bufs && s.bufs[j].refcnt == 0
    ensures var s, history := Run(s0, acts), Reversed(s0.lru) + Freed(s0, acts);
            && (forall x :: x in s.lru <==> x in s.bufs)
            && var g := Pick(s.bufs, s.lru, ROOTDEV, b);
               g.Recycled? ==> s.bufs[g.i].refcnt == 0 && (j == g.i || LastTime(history, g.i) < LastTime(history, j))
  {
    var s, history := Run(s0, acts), Reversed(s0.lru) + Freed(s0, acts);
    InitInv(s0);
    StartRecent(s0.lru);
    RunRecent(s0, Reversed(s0.lru), acts);
    RunInv(s0, acts);
    LruParts(s);
    hide Inv, Run, Freed, LastTime, Init;
    var g := Pick(s.bufs, s.lru, ROOTDEV, b);
    if g.Recycled? && j != g.i {
      var k :| 0 <= k < |s.lru| && s.lru[k] == j;
      var v := VictimBelow(s.bufs, s.lru, |s.lru|);
      assert g.i == s.lru[v];
    }
  }

  // ---------------------------------------------------------------- the commit's unpins

  /** Writing a pinned block to its home and unpinning it, as install_trans does. */
  function InstallOne(b: nat): seq<Action> {
    [Get(b)] + ([Lock(0)] + ([Bwrite(0)] + ([Unpin(0)] + ([Unlock(0)] + ([Put(0)] + [])))))
  }

  /** A process alone has the buffer v of block b, which is cached and pinned. */
  ghost predicate Alone(s: State, s': State, v: nat, b: nat, phase: Phase) {
    && b < |s.disk| == |s.view| && v in s'.bufs && v in s'.lru && s'.handles == [Handle(v, b, phase)]
    && Holds(s'.bufs[v], ROOTDEV, b) && s'.bufs[v].valid && s'.bufs[v].data == s.view[b]
    && s'.view == s.view && |s'.disk| == |s.disk|
  }

  lemma PinnedHit(s: State, b: nat) returns (v: nat)
    requires Inv(s) && s.handles == [] && b in s.pinned
    ensures Enabled(s, Get(b)) && Alone(s, Do(s, Get(b)), v, b, Waiting)
    ensures Do(s, Get(b)).pinned == s.pinned && Do(s, Get(b)).disk == s.disk
  {
    assert Cached(s, b);
    var i :| i in s.bufs && Holds(s.bufs[i], ROOTDEV, b) && s.bufs[i].valid;
    LruParts(s);
    var k :| 0 <= k < |s.lru| && s.lru[k] == i;
    var g := Pick(s.bufs, s.lru, ROOTDEV, b);
    assert g.Hit? && Holds(s.bufs[g.i], ROOTDEV, b);
    v := g.i;
    assert v == i;
    assert BufInv(s, i);
  }

  lemma InstallSteps(s: State, s1: State, v: nat, b: nat)
    requires Alone(s, s1, v, b, Waiting) && b in s1.pinned
    ensures Enabled(s1, Lock(0)) && Enabled(Do(s1, Lock(0)), Bwrite(0))
    ensures var s3 := Do(Do(s1, Lock(0)), Bwrite(0));
            && Enabled(s3, Unpin(0)) && Enabled(Do(s3, Unpin(0)), Unlock(0))
            && Enabled(Do(Do(s3, Unpin(0)), Unlock(0)), Put(0))
            && var s6 := Do(Do(Do(s3, Unpin(0)), Unlock(0)), Put(0));
               s6.handles == [] && s6.pinned == s1.pinned - {b} && s6.view == s.view
                   && s6.disk == s1.disk[b := s.view[b]]
  {
    hide Increment, Decrement, MoveToFront;
    var s2 := Do(s1, Lock(0));
    assert s2.handles == [Handle(v, b, Locked(false))];
    var s3 := Do(s2, Bwrite(0));
    assert s3.handles == [Handle(v, b, Locked(false))];
    var s4 := Do(s3, Unpin(0));
    var s5 := Do(s4, Unlock(0));
    assert s5.handles == [Handle(v, b, Released)];
    assert s5.handles[..0] + s5.handles[1..] == [];
  }

  lemma InstallPath(s: State, b: nat)
    requires Enabled(s, Get(b)) && Enabled(Do(s, Get(b)), Lock(0))
    requires var s2 := Do(Do(s, Get(b)), Lock(0)); Enabled(s2, Bwrite(0)) && Enabled(Do(s2, Bwrite(0)), Unpin(0))
    requires var s4 := Do(Do(Do(Do(s, Get(b)), Lock(0)), Bwrite(0)), Unpin(0));
             Enabled(s4, Unlock(0)) && Enabled(Do(s4, Unlock(0)), Put(0))
    ensures var s4 := Do(Do(Do(Do(s, Get(b)), Lock(0)), Bwrite(0)), Unpin(0));
            ValidRun(s, InstallOne(b)) && Run(s, InstallOne(b)) == Do(Do(s4, Unlock(0)), Put(0))
  {
    hide Enabled, Do;
    var s1 := Do(s, Get(b));
    var s2 := Do(s1, Lock(0));
    var s3 := Do(s2, Bwrite(0));
    var s4 := Do(s3, Unpin(0));
    var s5 := Do(s4, Unlock(0));
    var acts: seq<Action> := [];
    RunFirst(s5, Put(0), acts);
    acts := [Put(0)] + acts;
    RunFirst(s4, Unlock(0), acts);
    acts := [Unlock(0)] + acts;
    RunFirst(s3, Unpin(0), acts);
    acts := [Unpin(0)] + acts;
    RunFirst(s2, Bwrite(0), acts);
    acts := [Bwrite(0)] + acts;
    RunFirst(s1, Lock(0), acts);
    acts := [Lock(0)] + acts;
    RunFirst(s, Get(b), acts);
  }

  lemma InstallOneRuns(s: State, b: nat)
    requires Inv(s) && s.handles == [] && b in s.pinned
    ensures ValidRun(s, InstallOne(b)) && b < |s.disk| == |s.view|
    ensures var s' := Run(s, InstallOne(b));
            && Inv(s') && s'.handles == [] && s'.pinned == s.pinned - {b} && s'.view == s.view
            && s'.disk == s.disk[b := s.view[b]]
  {
    hide Inv, Enabled, Do, InstallOne, ValidRun, Run;
    var v := PinnedHit(s, b);
    InstallSteps(s, Do(s, Get(b)), v, b);
    InstallPath(s, b);
    RunInv(s, InstallOne(b));
  }

  /**
   From every reachable state without references, installing the pinned blocks one by one leaves no
   buffer referenced, every buffer recyclable and the disk with the contents last stored.
   */
  lemma CommitUnpins(s0: State, acts: seq<Action>) returns (more: seq<Action>)
    requires Init(s0) && ValidRun(s0, acts) && Run(s0, acts).handles == []
    ensures ValidRun(Run(s0, acts), more)
    ensures var s, t := Run(s0, acts), Run(Run(s0, acts), more);
            && t.handles == [] && t.pinned == {} && t.view == s.view && t.disk == t.view
            && forall i :: i in t.bufs ==> t.bufs[i].refcnt == 0
  {
    InitInv(s0);
    RunInv(s0, acts);
    more := Drains(Run(s0, acts));
    AllFree(Run(Run(s0, acts), more));
  }

  lemma {:induction false} Drains(s: State) returns (more: seq<Action>)
    requires Inv(s) && s.handles == []
    ensures ValidRun(s, more)
    ensures var t := Run(s, more); Inv(t) && t.handles == [] && t.pinned == {} && t.view == s.view
    decreases |s.pinned|
  {
    hide Inv, Enabled, Do, InstallOne;
    more := [];
    if s.pinned != {} {
      var b :| b in s.pinned;
      InstallOneRuns(s, b);
      var t := Run(s, InstallOne(b));
      more := Drains(t);
      RunConcat(s, InstallOne(b), more);
      more := InstallOne(b) + more;
    }
  }

  lemma AllFree(t: State)
    requires Inv(t) && t.handles == [] && t.pinned == {}
    ensures t.disk == t.view && forall i :: i in t.bufs ==> t.bufs[i].refcnt == 0
  {
    forall i | i in t.bufs ensures t.bufs[i].refcnt == 0 {
      assert BufInv(t, i);
    }
    assert forall b :: 0 <= b < |t.disk| ==> t.view[b] == t.disk[b];
  }
}
