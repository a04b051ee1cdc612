/**
 Where the buffer cache's promises end (kernel/fs/bio.c, kernel/fs/log.c): what recovery
 at boot does to the reference counts, and when bget finds no buffer.
 */
module CacheLimits {
  import opened Common
  import opened DiskLog
  import opened IntrusiveList
  import opened BufferCache

  const NBUF: nat := 30

  // ---------------------------------------------------------------- recovery at boot

  /** The buffers of a set keep their keys. */
  ghost predicate SameKeys(s: State, s': State, only: set<nat>) {
    && s'.bufs.Keys == s.bufs.Keys
    && forall i :: i in only && i in s.bufs ==>
        s'.bufs[i].dev == s.bufs[i].dev && s'.bufs[i].blockno == s.bufs[i].blockno
  }

  /** No handle, pin or stored contents change. */
  predicate Rest(s: State, s': State) {
    s'.view == s.view && s'.handles == s.handles && s'.pinned == s.pinned && |s'.disk| == |s.disk|
  }

  /** bread with nobody else about: the buffer is referenced and filled. None is bget's panic. */
  ghost function ReadIn(s: State, b: nat): (r: Option<(State, nat)>)
    requires Permutation(s.lru, s.bufs.Keys) && b < |s.disk|
    ensures r.Some? ==> r.value.0 == s.(bufs := r.value.0.bufs) && Rest(s, r.value.0)
    ensures r.Some? ==> r.value.0.bufs.Keys == s.bufs.Keys && r.value.1 in s.bufs
  {
    var g := Pick(s.bufs, s.lru, ROOTDEV, b);
    if g.NoBuffers? then None
    else
      var bufs := AfterGet(s.bufs, g, ROOTDEV, b);
      var x := bufs[g.i];
      Some((s.(bufs := bufs[g.i := x.(valid := true, data := if x.valid then x.data else s.disk[b])]), g.i))
  }

  /** brelse */
  ghost function GiveBack(s: State, i: nat): (r: State)
    requires Permutation(s.lru, s.bufs.Keys) && i in s.bufs
    ensures Permutation(r.lru, r.bufs.Keys) && SameKeys(s, r, s.bufs.Keys) && Rest(s, r)
  {
    var n := Decrement(s.bufs[i].refcnt);
    MoveKeepsPermutation(s.lru, i, s.bufs.Keys);
    s.(bufs := s.bufs[i := s.bufs[i].(refcnt := n)], lru := if n == 0 then MoveToFront(s.lru, i) else s.lru)
  }

  /** The contents of a referenced buffer are replaced and written to the disk. */
  ghost function Store(s: State, i: nat, data: Block): (r: State)
    requires Permutation(s.lru, s.bufs.Keys) && i in s.bufs
    ensures Permutation(r.lru, r.bufs.Keys) && SameKeys(s, r, s.bufs.Keys) && Rest(s, r)
  {
    var b := s.bufs[i].blockno;
    s.(bufs := s.bufs[i := s.bufs[i].(data := data)], disk := if b < |s.disk| then s.disk[b := data] else s.disk)
  }

  /** bunpin */
  ghost function Drop(s: State, i: nat): (r: State)
    requires i in s.bufs
    ensures SameKeys(s, r, s.bufs.Keys) && Rest(s, r) && r.lru == s.lru
  {
    s.(bufs := s.bufs[i := s.bufs[i].(refcnt := Decrement(s.bufs[i].refcnt))])
  }

  /** One round of install_trans: log block l to its home b. */
  ghost function Install(s: State, l: nat, b: nat): (r: Option<State>)
    requires Permutation(s.lru, s.bufs.Keys) && l < |s.disk| && b < |s.disk|
    ensures r.Some? ==> Permutation(r.value.lru, r.value.bufs.Keys) && |r.value.disk| == |s.disk|
  {
    var from := ReadIn(s, l);
    if from.None? then None
    else
      var (s1, i) := from.value;
      var to := ReadIn(s1, b);
      if to.None? then None
      else
        var (s2, j) := to.value;
        Some(GiveBack(GiveBack(Drop(Store(s2, j, s2.bufs[i].data), j), i), j))
  }

  ghost function InstallFrom(s: State, lay: Layout, lh: seq<nat>, k: nat): (r: Option<State>)
    requires Permutation(s.lru, s.bufs.Keys) && k <= |lh| && lay.Valid() && lay.Loggable(lh) && |s.disk| == lay.blocks
    ensures r.Some? ==> Permutation(r.value.lru, r.value.bufs.Keys) && |r.value.disk| == |s.disk|
    decreases |lh| - k
  {
    if k == |lh| then Some(s)
    else
      var s1 := Install(s, lay.start + k + 1, lh[k]);
      if s1.None? then None else InstallFrom(s1.value, lay, lh, k + 1)
  }

  /** bread, a change of the contents, bwrite, brelse: write_head, and read_head without a change. */
  ghost function Rewrite(s: State, b: nat, data: Block -> Block): (r: Option<State>)
    requires Permutation(s.lru, s.bufs.Keys) && b < |s.disk|
    ensures r.Some? ==> Permutation(r.value.lru, r.value.bufs.Keys) && |r.value.disk| == |s.disk|
  {
    var got := ReadIn(s, b);
    if got.None? then None
    else
      var (s1, i) := got.value;
      Some(GiveBack(Store(s1, i, data(s1.bufs[i].data)), i))
  }

  function Emptied(head: Block): Block { if |head| > 0 then head[0 := 0] else head }

  /** recover_from_log, after which the contents of every block are the disk's. */
  ghost function Recover(s: State, lay: Layout): (r: Option<State>)
    requires Permutation(s.lru, s.bufs.Keys) && HeaderOk(lay, s.disk)
  {
    var s1 := Rewrite(s, lay.start, x => x);
    if s1.None? then None
    else
      var s2 := InstallFrom(s1.value, lay, Logged(lay, s.disk), 0);
      if s2.None? then None
      else
        var s3 := Rewrite(s2.value, lay.start, Emptied);
        if s3.None? then None else Some(s3.value.(view := s3.value.disk))
  }

  // ---------------------------------------------------------------- the counts recovery leaves

  /** Buffers agree with the disk; the counts are one for the held ones, -1 for the stuck ones, else 0. */
  ghost predicate Counts(s: State, stuck: set<nat>, held: set<nat>) {
    && Permutation(s.lru, s.bufs.Keys) && UniqueKeys(s.bufs)
    && stuck <= s.bufs.Keys && held <= s.bufs.Keys && stuck !! held
    && (forall i :: i in s.bufs ==> CountOk(s.bufs[i], i in stuck, i in held) && Clean(s, s.bufs[i]))
  }

  predicate CountOk(b: Buf, stuck: bool, held: bool) {
    b.refcnt == if stuck then UINT32 - 1 else if held then 1 else 0
  }

  predicate Clean(s: State, b: Buf) {
    if b.dev == 0 then b.refcnt == 0
    else b.dev == ROOTDEV && b.blockno < |s.disk| && (b.valid ==> b.data == s.disk[b.blockno])
  }

  ghost predicate Unheld(s: State, busy: set<nat>, b: nat) {
    forall i :: i in busy && i in s.bufs ==> !Holds(s.bufs[i], ROOTDEV, b)
  }

  lemma AllBusy(busy: set<nat>, keys: set<nat>)
    requires busy <= keys
    ensures |busy| <= |keys| && (|busy| == |keys| <==> busy == keys)
  {
    assert keys == busy + (keys - busy);
  }

  /** Reading a block that no busy buffer has takes a free buffer, and fails exactly when there is none. */
  lemma ReadInCounts(s: State, stuck: set<nat>, held: set<nat>, b: nat)
    requires Counts(s, stuck, held) && b < |s.disk| && Unheld(s, stuck + held, b)
    ensures ReadIn(s, b).None? <==> |stuck| + |held| == |s.bufs|
    ensures ReadIn(s, b).Some? ==>
              var (s', i) := ReadIn(s, b).value;
              && i in s.bufs && i !in stuck + held && Counts(s', stuck, held + {i})
              && Holds(s'.bufs[i], ROOTDEV, b) && s'.bufs[i].valid
              && forall j :: j in s.bufs && j != i ==> s'.bufs[j] == s.bufs[j]
  {
    AllBusy(stuck + held, s.bufs.Keys);
    assert |stuck + held| == |stuck| + |held|;
    PickFree(s, stuck, held, b);
    if ReadIn(s, b).Some? { ReadInKeeps(s, stuck, held, b); }
  }

  lemma PickFree(s: State, stuck: set<nat>, held: set<nat>, b: nat)
    requires Counts(s, stuck, held) && b < |s.disk| && Unheld(s, stuck + held, b)
    ensures var g := Pick(s.bufs, s.lru, ROOTDEV, b);
            && (g.NoBuffers? <==> stuck + held == s.bufs.Keys)
            && (!g.NoBuffers? ==> g.i in s.bufs && g.i !in stuck + held)
            && (g.Recycled? ==> forall i :: i in s.bufs ==> !Holds(s.bufs[i], ROOTDEV, b))
  {
    hide Clean, UniqueKeys;
    var g := Pick(s.bufs, s.lru, ROOTDEV, b);
    if !g.Hit? {
      forall i | i in s.bufs ensures !Holds(s.bufs[i], ROOTDEV, b) {
        var k :| 0 <= k < |s.lru| && s.lru[k] == i;
      }
    }
    if g.NoBuffers? {
      forall i | i in s.bufs ensures i in stuck + held {
        var k :| 0 <= k < |s.lru| && s.lru[k] == i;
        assert CountOk(s.bufs[i], i in stuck, i in held);
      }
    }
  }

  lemma ReadInKeeps(s: State, stuck: set<nat>, held: set<nat>, b: nat)
    requires Counts(s, stuck, held) && b < |s.disk| && Unheld(s, stuck + held, b) && ReadIn(s, b).Some?
    ensures var (s', i) := ReadIn(s, b).value;
            && i in s.bufs && i !in stuck + held && Counts(s', stuck, held + {i})
            && Holds(s'.bufs[i], ROOTDEV, b) && s'.bufs[i].valid
            && forall j :: j in s.bufs && j != i ==> s'.bufs[j] == s.bufs[j]
  {
    PickFree(s, stuck, held, b);
    var g := Pick(s.bufs, s.lru, ROOTDEV, b);
    assert CountOk(s.bufs[g.i], false, false) && Clean(s, s.bufs[g.i]);
    IncrementIs(0);
  }

  lemma KeysUnique(s: State, s': State)
    requires UniqueKeys(s.bufs) && SameKeys(s, s', s.bufs.Keys)
    ensures UniqueKeys(s'.bufs)
  {
  }

  /** A buffer's record is replaced by one with the same key. */
  lemma CountsSet(s: State, s': State, stuck: set<nat>, held: set<nat>, stuck': set<nat>, held': set<nat>, i: nat)
    requires Counts(s, stuck, held) && i in s.bufs && SameKeys(s, s', s.bufs.Keys)
    requires Permutation(s'.lru, s'.bufs.Keys) && |s'.disk| == |s.disk|
    requires stuck' <= s.bufs.Keys && held' <= s.bufs.Keys && stuck' !! held'
    requires forall j :: j in s.bufs && j != i ==>
        s'.bufs[j] == s.bufs[j] && (j in stuck' <==> j in stuck) && (j in held' <==> j in held)
    requires s'.disk == s.disk || (s.bufs[i].dev == ROOTDEV && s'.disk == s.disk[s.bufs[i].blockno := s'.bufs[i].data])
    requires CountOk(s'.bufs[i], i in stuck', i in held') && Clean(s', s'.bufs[i])
    ensures Counts(s', stuck', held')
  {
    KeysUnique(s, s');
    hide Permutation;
    forall j | j in s'.bufs ensures CountOk(s'.bufs[j], j in stuck', j in held') && Clean(s', s'.bufs[j]) {
      assert CountOk(s.bufs[j], j in stuck, j in held) && Clean(s, s.bufs[j]);
    }
  }

  lemma CountAt(s: State, stuck: set<nat>, held: set<nat>, i: nat)
    requires Counts(s, stuck, held) && i in s.bufs
    ensures CountOk(s.bufs[i], i in stuck, i in held) && Clean(s, s.bufs[i]) && Permutation(s.lru, s.bufs.Keys)
    ensures stuck <= s.bufs.Keys && held <= s.bufs.Keys && stuck !! held
  {
  }

  /** A held buffer given back is free again. */
  lemma GiveBackCounts(s: State, stuck: set<nat>, held: set<nat>, i: nat)
    requires Counts(s, stuck, held) && i in held && i in s.bufs
    ensures Counts(GiveBack(s, i), stuck, held - {i})
  {
    hide Counts, Decrement, MoveToFront, Permutation;
    CountAt(s, stuck, held, i);
    DecrementIs(1);
    CountsSet(s, GiveBack(s, i), stuck, held, stuck, held - {i}, i);
  }

  /** bunpin of a held buffer that was not pinned makes it look free, and brelse then wraps its count. */
  lemma DropCounts(s: State, stuck: set<nat>, held: set<nat>, i: nat)
    requires Counts(s, stuck, held) && i in held && i in s.bufs
    ensures Counts(Drop(s, i), stuck, held - {i})
  {
    hide Counts, Decrement, Permutation;
    CountAt(s, stuck, held, i);
    DecrementIs(1);
    CountsSet(s, Drop(s, i), stuck, held, stuck, held - {i}, i);
  }

  lemma GetsStuck(s: State, stuck: set<nat>, held: set<nat>, i: nat)
    requires Counts(s, stuck, held) && i in s.bufs && i !in stuck + held && s.bufs[i].dev == ROOTDEV
    ensures Counts(GiveBack(s, i), stuck + {i}, held)
  {
    hide Counts, Decrement, MoveToFront, Permutation;
    CountAt(s, stuck, held, i);
    DecrementIs(0);
    CountsSet(s, GiveBack(s, i), stuck, held, stuck + {i}, held, i);
  }

  lemma StoreCounts(s: State, stuck: set<nat>, held: set<nat>, i: nat, data: Block)
    requires Counts(s, stuck, held) && i in held && i in s.bufs && s.bufs[i].dev == ROOTDEV
    ensures Counts(Store(s, i, data), stuck, held)
  {
    hide Counts, Permutation;
    CountAt(s, stuck, held, i);
    CountsSet(s, Store(s, i, data), stuck, held, stuck, held, i);
  }

  /** A block installed at boot leaves one more buffer stuck; it needs two free ones. */
  lemma InstallCounts(s: State, stuck: set<nat>, l: nat, b: nat) returns (j: nat)
    requires Counts(s, stuck, {}) && l < |s.disk| && b < |s.disk| && l != b && Unheld(s, stuck, l)
    requires Unheld(s, stuck, b)
    ensures Install(s, l, b).None? <==> |stuck| + 2 > |s.bufs|
    ensures Install(s, l, b).Some? ==> Installed(s, Install(s, l, b).value, stuck, b, j)
  {
    hide Counts, ReadIn, GiveBack, Store, Drop, Permutation, Unheld, Installed;
    j := 0;
    CountsParts(s, stuck, {});
    assert stuck + {} == stuck;
    ReadInCounts(s, stuck, {}, l);
    if ReadIn(s, l).Some? {
      var (s1, i) := ReadIn(s, l).value;
      assert {} + {i} == {i};
      UnheldMore(s, s1, stuck, i, l, b);
      ReadInCounts(s1, stuck, {i}, b);
      if ReadIn(s1, b).Some? {
        j := ReadIn(s1, b).value.1;
        InstallRest(s, s1, stuck, i, b);
      }
    }
  }

  lemma InstallRest(s: State, s1: State, stuck: set<nat>, i: nat, b: nat)
    requires Counts(s1, stuck, {i}) && b < |s1.disk| && Unheld(s1, stuck + {i}, b) && ReadIn(s1, b).Some?
    requires s1.bufs.Keys == s.bufs.Keys && i in s.bufs && i !in stuck && Rest(s, s1)
    requires forall k :: k in s.bufs && k != i ==> s1.bufs[k] == s.bufs[k]
    ensures var (s2, j) := ReadIn(s1, b).value;
            Installed(s, GiveBack(GiveBack(Drop(Store(s2, j, s2.bufs[i].data), j), i), j), stuck, b, j)
  {
    hide Counts, ReadIn, GiveBack, Store, Drop, Permutation, Unheld, Installed;
    ReadInCounts(s1, stuck, {i}, b);
    var (s2, j) := ReadIn(s1, b).value;
    assert {i} + {j} == {i, j};
    InstallEnds(s2, stuck, i, j);
    InstalledTrans(s, s1, s2, GiveBack(GiveBack(Drop(Store(s2, j, s2.bufs[i].data), j), i), j), stuck, i, j, b);
  }

  /** What a round of install_trans at boot leaves. */
  ghost predicate Installed(s: State, s': State, stuck: set<nat>, b: nat, j: nat) {
    && j in s.bufs && j !in stuck && Counts(s', stuck + {j}, {}) && SameKeys(s, s', stuck)
    && Holds(s'.bufs[j], ROOTDEV, b) && Rest(s, s')
  }

  lemma UnheldMore(s: State, s1: State, stuck: set<nat>, i: nat, l: nat, b: nat)
    requires Unheld(s, stuck, b) && i in s.bufs && i !in stuck && s1.bufs.Keys == s.bufs.Keys && l != b
    requires Holds(s1.bufs[i], ROOTDEV, l) && forall j :: j in s.bufs && j != i ==> s1.bufs[j] == s.bufs[j]
    ensures Unheld(s1, stuck + {i}, b)
  {
  }

  lemma InstalledTrans(s: State, s1: State, s2: State, s': State, stuck: set<nat>, i: nat, j: nat, b: nat)
    requires s1.bufs.Keys == s2.bufs.Keys == s.bufs.Keys && i in s.bufs && j in s.bufs && i !in stuck && j !in stuck
    requires forall k :: k in s.bufs && k != i ==> s1.bufs[k] == s.bufs[k]
    requires forall k :: k in s.bufs && k != j ==> s2.bufs[k] == s1.bufs[k]
    requires Holds(s2.bufs[j], ROOTDEV, b) && SameKeys(s2, s', s.bufs.Keys) && Counts(s', stuck + {j}, {})
    requires Rest(s, s1) && Rest(s1, s2) && Rest(s2, s')
    ensures Installed(s, s', stuck, b, j)
  {
    hide Counts;
  }

  lemma CountsParts(s: State, stuck: set<nat>, held: set<nat>)
    requires Counts(s, stuck, held)
    ensures Permutation(s.lru, s.bufs.Keys) && stuck <= s.bufs.Keys && held <= s.bufs.Keys && |stuck| <= |s.bufs|
    ensures forall i :: i in s.bufs && s.bufs[i].dev == ROOTDEV ==> s.bufs[i].blockno < |s.disk|
  {
    AllBusy(stuck, s.bufs.Keys);
  }

  lemma InstallEnds(s: State, stuck: set<nat>, i: nat, j: nat)
    requires Counts(s, stuck, {i, j}) && i != j && s.bufs[j].dev == ROOTDEV
    ensures var s' := GiveBack(GiveBack(Drop(Store(s, j, s.bufs[i].data), j), i), j);
            Counts(s', stuck + {j}, {}) && SameKeys(s, s', s.bufs.Keys) && Rest(s, s')
  {
    hide Counts, GiveBack, Store, Drop, Permutation;
    CountsParts(s, stuck, {i, j});
    var s1 := Store(s, j, s.bufs[i].data);
    StoreCounts(s, stuck, {i, j}, j, s.bufs[i].data);
    var s2 := Drop(s1, j);
    DropCounts(s1, stuck, {i, j}, j);
    assert {i, j} - {j} == {i} && {i} - {i} == {};
    CountsParts(s2, stuck, {i});
    GiveBackCounts(s2, stuck, {i}, i);
    var s3 := GiveBack(s2, i);
    NotStuck(s, stuck, {i, j}, j);
    GetsStuck(s3, stuck, {}, j);
  }

  lemma NotStuck(s: State, stuck: set<nat>, held: set<nat>, j: nat)
    requires Counts(s, stuck, held) && j in held
    ensures j !in stuck
  {
  }

  ghost predicate StuckAre(s: State, stuck: set<nat>, blocks: seq<nat>) {
    forall i :: i in stuck && i in s.bufs ==> s.bufs[i].dev == ROOTDEV && s.bufs[i].blockno in blocks
  }

  lemma {:induction false} InstallFromCounts(s: State, lay: Layout, lh: seq<nat>, k: nat, stuck: set<nat>)
      returns (stuck': set<nat>)
    requires Counts(s, stuck, {}) && k <= |lh| && lay.Valid() && lay.Loggable(lh) && |s.disk| == lay.blocks
    requires |stuck| == k && StuckAre(s, stuck, lh[..k])
    ensures InstallFrom(s, lay, lh, k).None? <==> k < |lh| && |lh| + 1 > |s.bufs|
    ensures InstallFrom(s, lay, lh, k).Some? ==>
              var s' := InstallFrom(s, lay, lh, k).value;
              && Counts(s', stuck', {}) && |stuck'| == |lh| && StuckAre(s', stuck', lh)
              && Rest(s, s') && s'.bufs.Keys == s.bufs.Keys
    decreases |lh| - k
  {
    hide Counts, Install, Permutation, StuckAre, Installed, Unheld;
    stuck' := stuck;
    CountsParts(s, stuck, {});
    if k == |lh| {
      assert lh[..k] == lh;
    } else {
      var l, b := lay.start + k + 1, lh[k];
      NotStuckBlocks(s, stuck, lay, lh, k);
      var j := InstallCounts(s, stuck, l, b);
      if Install(s, l, b).Some? {
        var s1 := Install(s, l, b).value;
        OneMoreStuck(s, s1, stuck, lh, k, j);
        stuck' := InstallFromCounts(s1, lay, lh, k + 1, stuck + {j});
      }
    }
  }

  lemma OneMoreStuck(s: State, s1: State, stuck: set<nat>, lh: seq<nat>, k: nat, j: nat)
    requires k < |lh| && StuckAre(s, stuck, lh[..k]) && Installed(s, s1, stuck, lh[k], j)
    ensures StuckAre(s1, stuck + {j}, lh[..k + 1]) && |stuck + {j}| == |stuck| + 1
    ensures Counts(s1, stuck + {j}, {}) && Rest(s, s1) && s1.bufs.Keys == s.bufs.Keys
  {
    hide Counts;
    assert lh[..k + 1] == lh[..k] + [lh[k]];
    forall i | i in stuck + {j} && i in s1.bufs ensures s1.bufs[i].dev == ROOTDEV && s1.bufs[i].blockno in lh[..k + 1] {
    }
  }

  lemma NotStuckBlocks(s: State, stuck: set<nat>, lay: Layout, lh: seq<nat>, k: nat)
    requires k < |lh| && lay.Valid() && lay.Loggable(lh) && StuckAre(s, stuck, lh[..k])
    ensures lay.Home(lh[k]) && lay.start + k + 1 < lay.blocks && lay.start + k + 1 != lh[k]
    ensures Unheld(s, stuck, lay.start + k + 1) && Unheld(s, stuck, lh[k])
  {
    forall i | i in stuck && i in s.bufs
      ensures !Holds(s.bufs[i], ROOTDEV, lay.start + k + 1) && !Holds(s.bufs[i], ROOTDEV, lh[k])
    {
      var m :| 0 <= m < k && lh[m] == s.bufs[i].blockno;
      assert lay.Home(lh[m]);
    }
  }

  lemma RewriteCounts(s: State, stuck: set<nat>, b: nat, data: Block -> Block)
    requires Counts(s, stuck, {}) && b < |s.disk| && Unheld(s, stuck, b)
    ensures Rewrite(s, b, data).None? <==> |stuck| == |s.bufs|
    ensures Rewrite(s, b, data).Some? ==>
              var s' := Rewrite(s, b, data).value;
              && Counts(s', stuck, {}) && SameKeys(s, s', stuck)
              && Rest(s, s')
  {
    hide Counts, ReadIn, GiveBack, Store, Permutation;
    CountsParts(s, stuck, {});
    assert stuck + {} == stuck;
    ReadInCounts(s, stuck, {}, b);
    if ReadIn(s, b).Some? {
      var (s1, i) := ReadIn(s, b).value;
      assert {} + {i} == {i};
      RewriteEnds(s1, stuck, i, data(s1.bufs[i].data));
      assert SameKeys(s, s1, stuck);
    }
  }

  lemma RewriteEnds(s: State, stuck: set<nat>, i: nat, data: Block)
    requires Counts(s, stuck, {i}) && s.bufs[i].dev == ROOTDEV
    ensures var s' := GiveBack(Store(s, i, data), i);
            && Counts(s', stuck, {}) && SameKeys(s, s', s.bufs.Keys)
            && Rest(s, s')
  {
    hide Counts, GiveBack, Store, Permutation;
    CountsParts(s, stuck, {i});
    StoreCounts(s, stuck, {i}, i, data);
    GiveBackCounts(Store(s, i, data), stuck, {i}, i);
    assert {i} - {i} == {};
  }

  /** Nobody has a reference yet, as after binit and the first reads. */
  ghost predicate Quiet(s: State) {
    Counts(s, {}, {}) && s.handles == [] && s.pinned == {}
  }

  /** Recovery finishes exactly when the cache has more buffers than the log lists blocks. */
  lemma RecoverExactly(s: State, lay: Layout) returns (stuck: set<nat>)
    requires Quiet(s) && HeaderOk(lay, s.disk)
    ensures Recover(s, lay).None? <==> |Logged(lay, s.disk)| >= |s.bufs|
    ensures Recover(s, lay).Some? ==>
              var s' := Recover(s, lay).value;
              && Counts(s', stuck, {}) && |stuck| == |Logged(lay, s.disk)| && StuckAre(s', stuck, Logged(lay, s.disk))
              && s'.handles == [] && s'.pinned == {} && s'.view == s'.disk && |s'.disk| == |s.disk|
              && s'.bufs.Keys == s.bufs.Keys
  {
    hide Counts, Rewrite, InstallFrom, Permutation, HeaderOk, StuckAre;
    stuck := {};
    CountsParts(s, {}, {});
    HeaderParts(lay, s.disk);
    var lh := Logged(lay, s.disk);
    NoneHeld(s, lay.start);
    RewriteCounts(s, {}, lay.start, x => x);
    var r1 := Rewrite(s, lay.start, x => x);
    if r1.Some? {
      var s1 := r1.value;
      NoneStuck(s1, lh);
      stuck := InstallFromCounts(s1, lay, lh, 0, {});
      var r2 := InstallFrom(s1, lay, lh, 0);
      if r2.Some? {
        var s2 := r2.value;
        HeadNotStuck(s2, stuck, lay, lh);
        RewriteCounts(s2, stuck, lay.start, Emptied);
        var r3 := Rewrite(s2, lay.start, Emptied);
        if r3.Some? {
          var s3 := r3.value;
          StuckStay(s2, s3, stuck, lh);
          ViewIrrelevant(s3, stuck, {}, lh);
        }
      }
    }
  }

  lemma HeaderParts(lay: Layout, d: seq<Block>)
    requires HeaderOk(lay, d)
    ensures lay.Valid() && |d| == lay.blocks && lay.start < |d| && lay.Loggable(Logged(lay, d))
  {
  }

  lemma NoneHeld(s: State, b: nat)
    ensures Unheld(s, {}, b)
  {
  }

  lemma NoneStuck(s: State, lh: seq<nat>)
    ensures StuckAre(s, {}, lh[..0])
  {
  }

  lemma HeadNotStuck(s: State, stuck: set<nat>, lay: Layout, lh: seq<nat>)
    requires lay.Valid() && lay.Loggable(lh) && StuckAre(s, stuck, lh)
    ensures Unheld(s, stuck, lay.start)
  {
    forall i | i in stuck && i in s.bufs ensures !Holds(s.bufs[i], ROOTDEV, lay.start) {
      var m :| 0 <= m < |lh| && lh[m] == s.bufs[i].blockno;
      assert lay.Home(lh[m]);
    }
  }

  lemma StuckStay(s: State, s': State, stuck: set<nat>, lh: seq<nat>)
    requires StuckAre(s, stuck, lh) && SameKeys(s, s', stuck)
    ensures StuckAre(s', stuck, lh)
  {
  }

  lemma ViewIrrelevant(s: State, stuck: set<nat>, held: set<nat>, lh: seq<nat>)
    requires Counts(s, stuck, held) && StuckAre(s, stuck, lh)
    ensures Counts(s.(view := s.disk), stuck, held) && StuckAre(s.(view := s.disk), stuck, lh)
  {
    hide Permutation, UniqueKeys;
    var s' := s.(view := s.disk);
    forall i | i in s'.bufs ensures Clean(s', s'.bufs[i]) && CountOk(s'.bufs[i], i in stuck, i in held) {
      assert Clean(s, s.bufs[i]) && CountOk(s.bufs[i], i in stuck, i in held);
    }
  }

  /** With nothing stuck the cache's invariant holds. */
  lemma QuietInv(s: State)
    requires Quiet(s) && s.view == s.disk
    ensures Inv(s)
  {
    forall i | i in s.bufs ensures BufInv(s, i) {
      assert CountOk(s.bufs[i], false, false) && Clean(s, s.bufs[i]);
    }
  }

  // ---------------------------------------------------------------- a buffer recycled under its holder

  function Free(bufs: Bufs): set<nat> { set i | i in bufs && bufs[i].refcnt == 0 }

  function BlocksBelow(n: nat): (r: set<nat>)
    ensures |r| == n && forall b :: b in r <==> 0 <= b < n
  {
    if n == 0 then {} else BlocksBelow(n - 1) + {n - 1}
  }

  lemma {:induction false} CachedFew(bufs: Bufs, keys: set<nat>) returns (blocks: set<nat>)
    requires keys <= bufs.Keys
    ensures |blocks| <= |keys| && forall i :: i in keys ==> bufs[i].blockno in blocks
    decreases |keys|
  {
    blocks := {};
    if keys != {} {
      var i :| i in keys;
      blocks := CachedFew(bufs, keys - {i});
      blocks := blocks + {bufs[i].blockno};
    }
  }

  /** With more blocks than buffers some block is not cached. */
  lemma Uncached(s: State) returns (b: nat)
    requires |s.disk| > |s.bufs|
    ensures b < |s.disk| && forall i :: i in s.bufs ==> s.bufs[i].blockno != b
  {
    var blocks := CachedFew(s.bufs, s.bufs.Keys);
    var all := BlocksBelow(|s.disk|);
    if all <= blocks {
      AllBusy(all, blocks);
      assert false;
    }
    b :| b in all && b !in blocks;
  }

  /** A process holds a buffer whose count is 0. */
  predicate Exposed(s: State, h: nat) {
    && Holding(s, h) && Holds(BufOf(s, h), ROOTDEV, s.handles[h].blockno) && BufOf(s, h).refcnt == 0
  }

  lemma GetUncached(s: State, h: nat, b: nat)
    requires Permutation(s.lru, s.bufs.Keys) && Exposed(s, h) && |s.handles| < MAXREFS
    requires b < |s.disk| && forall i :: i in s.bufs ==> s.bufs[i].blockno != b
    ensures var g := Pick(s.bufs, s.lru, ROOTDEV, b);
            && g.Recycled? && Enabled(s, Get(b)) && g.i in Free(s.bufs)
            && Free(Do(s, Get(b)).bufs) == Free(s.bufs) - {g.i}
                && Permutation(Do(s, Get(b)).lru, Do(s, Get(b)).bufs.Keys)
            && (g.i != s.handles[h].i ==> Exposed(Do(s, Get(b)), h))
  {
    var g := Pick(s.bufs, s.lru, ROOTDEV, b);
    var i := s.handles[h].i;
    assert i in s.lru;
    var k :| 0 <= k < |s.lru| && s.lru[k] == i;
    assert !g.NoBuffers?;
  }

  /** Sooner or later bget gives such a buffer to another block. */
  lemma {:induction false} Steal(s: State, h: nat) returns (acts: seq<Action>)
    requires Permutation(s.lru, s.bufs.Keys) && Exposed(s, h) && |s.disk| > |s.bufs|
    requires |s.handles| + |Free(s.bufs)| < MAXREFS
    ensures ValidRun(s, acts)
    ensures var s' := Run(s, acts);
            Holding(s', h) && s'.handles[h] == s.handles[h] && BufOf(s', h).blockno != s'.handles[h].blockno
    decreases |Free(s.bufs)|
  {
    hide Pick, AfterGet, Permutation;
    var b := Uncached(s);
    GetUncached(s, h, b);
    var g, s1 := Pick(s.bufs, s.lru, ROOTDEV, b), Do(s, Get(b));
    if g.i == s.handles[h].i {
      acts := [Get(b)];
      assert acts[1..] == [];
      Stolen(s, h, b);
      assert Run(s, acts) == Run(s1, []) == s1;
    } else {
      SameSize(s, b);
      var more := Steal(s1, h);
      acts := [Get(b)] + more;
      assert acts[1..] == more;
    }
  }

  lemma Stolen(s: State, h: nat, b: nat)
    requires Exposed(s, h) && Enabled(s, Get(b)) && Pick(s.bufs, s.lru, ROOTDEV, b) == Recycled(s.handles[h].i)
    requires forall i :: i in s.bufs ==> s.bufs[i].blockno != b
    ensures var s1 := Do(s, Get(b));
            Holding(s1, h) && s1.handles[h] == s.handles[h] && BufOf(s1, h).blockno != s1.handles[h].blockno
  {
  }

  lemma SameSize(s: State, b: nat)
    requires Enabled(s, Get(b))
    ensures var s1 := Do(s, Get(b));
            && |s1.bufs| == |s.bufs| && |s1.disk| == |s.disk| && |s1.handles| == |s.handles| + 1
            && (forall h :: 0 <= h < |s.handles| ==> s1.handles[h] == s.handles[h])
  {
    var s1 := Do(s, Get(b));
    assert s1.bufs.Keys == s.bufs.Keys;
  }

  /**
   After a recovery that installed a block, a process that reads that block holds a buffer
   whose count has wrapped to 0, and a run gives the buffer to another block under it.
   */
  lemma RecoveredRecycles(s0: State, lay: Layout) returns (acts: seq<Action>, h: nat)
    requires Quiet(s0) && HeaderOk(lay, s0.disk) && |s0.disk| > |s0.bufs| && |s0.bufs| + 1 < MAXREFS
    requires Recover(s0, lay).Some? && Logged(lay, s0.disk) != []
    ensures var s := Recover(s0, lay).value;
            && ValidRun(s, acts) && Holding(Run(s, acts), h) && !Agrees(Run(s, acts), h)
            && BufOf(Run(s, acts), h).blockno != Run(s, acts).handles[h].blockno
  {
    hide Recover, HeaderOk, Counts;
    CountsParts(s0, {}, {});
    var stuck := RecoverExactly(s0, lay);
    var s := Recover(s0, lay).value;
    assert |s.bufs| == |s0.bufs|;
    CountsParts(s, stuck, {});
    var i :| i in stuck;
    acts, h := StuckRecycles(s, stuck, i);
  }

  lemma StuckRecycles(s: State, stuck: set<nat>, i: nat) returns (acts: seq<Action>, h: nat)
    requires Counts(s, stuck, {}) && i in stuck && i in s.bufs && s.bufs[i].dev == ROOTDEV && s.handles == []
    requires |s.disk| > |s.bufs| && |s.bufs| + 1 < MAXREFS
    ensures ValidRun(s, acts) && Holding(Run(s, acts), h) && !Agrees(Run(s, acts), h)
    ensures BufOf(Run(s, acts), h).blockno != Run(s, acts).handles[h].blockno
  {
    hide Counts, Enabled, Do, Permutation, Exposed;
    var b := s.bufs[i].blockno;
    HitStuck(s, stuck, i);
    var s1 := Do(s, Get(b));
    var s2 := Do(s1, Lock(0));
    FreeFew(s2);
    assert |s2.bufs| == |s.bufs|;
    var more := Steal(s2, 0);
    acts, h := [Get(b), Lock(0)] + more, 0;
    assert acts[1..] == [Lock(0)] + more && acts[1..][1..] == more;
    assert ValidRun(s1, acts[1..]) && Run(s1, acts[1..]) == Run(s2, more);
  }

  lemma FreeFew(s: State)
    ensures |Free(s.bufs)| <= |s.bufs|
  {
    AllBusy(Free(s.bufs), s.bufs.Keys);
  }

  lemma HitStuck(s: State, stuck: set<nat>, i: nat)
    requires Counts(s, stuck, {}) && i in stuck && i in s.bufs && s.bufs[i].dev == ROOTDEV && s.handles == []
    ensures var b := s.bufs[i].blockno;
            && Enabled(s, Get(b)) && Enabled(Do(s, Get(b)), Lock(0))
            && var s2 := Do(Do(s, Get(b)), Lock(0));
               Permutation(s2.lru, s2.bufs.Keys) && Exposed(s2, 0) && |s2.handles| == 1 && s2.disk == s.disk
               && s2.bufs.Keys == s.bufs.Keys
  {
    CountAt(s, stuck, {}, i);
    var b := s.bufs[i].blockno;
    var k :| 0 <= k < |s.lru| && s.lru[k] == i;
    var g := Pick(s.bufs, s.lru, ROOTDEV, b);
    assert g == Hit(i) by {
      assert g.Hit? && Holds(s.bufs[g.i], ROOTDEV, b);
    }
    IncrementIs(UINT32 - 1);
  }

  /**
   The cache keeps its promise in every run after boot exactly when recovery installed
   nothing.
   */
  lemma AgreesExactly(s0: State, lay: Layout)
    requires Quiet(s0) && HeaderOk(lay, s0.disk) && |s0.disk| > |s0.bufs| && |s0.bufs| + 1 < MAXREFS
    requires Recover(s0, lay).Some?
    ensures var s := Recover(s0, lay).value;
            (forall acts, h :: ValidRun(s, acts) && Holding(Run(s, acts), h) ==> Agrees(Run(s, acts), h))
            <==> Logged(lay, s0.disk) == []
  {
    var s := Recover(s0, lay).value;
    if Logged(lay, s0.disk) == [] {
      var stuck := RecoverExactly(s0, lay);
      assert stuck == {};
      QuietInv(s);
      hide Recover, Counts;
      forall acts, h | ValidRun(s, acts) && Holding(Run(s, acts), h) ensures Agrees(Run(s, acts), h) {
        RunInv(s, acts);
        InvAgrees(Run(s, acts), h);
      }
    } else {
      var acts, h := RecoveredRecycles(s0, lay);
      assert ValidRun(s, acts) && Holding(Run(s, acts), h) && !Agrees(Run(s, acts), h);
    }
  }

  // ---------------------------------------------------------------- no buffer left

  /** Buffers of blocks in the log, and others that some process has a reference to. */
  ghost function PinnedBufs(s: State): set<nat> { set i | i in s.bufs && Pin(s, i) == 1 }

  ghost function HeldBufs(s: State): set<nat> { set i | i in s.bufs && Pin(s, i) == 0 && Refs(s.handles, i) > 0 }

  /** Different buffers have different blocks, so a set of them has as many blocks. */
  lemma {:induction false} SameCount(bufs: Bufs, keys: set<nat>, blocks: set<nat>)
    requires keys <= bufs.Keys && UniqueKeys(bufs)
    requires forall i :: i in keys ==> bufs[i].dev == ROOTDEV && bufs[i].blockno in blocks
    requires forall b :: b in blocks ==> exists i :: i in keys && bufs[i].blockno == b
    ensures |keys| == |blocks|
    decreases |keys|
  {
    if keys == {} {
      assert blocks == {};
    } else {
      var i :| i in keys;
      var b := bufs[i].blockno;
      forall c | c in blocks - {b} ensures exists j :: j in keys - {i} && bufs[j].blockno == c {
        var j :| j in keys && bufs[j].blockno == c;
        assert j in keys - {i};
      }
      forall j | j in keys - {i} ensures bufs[j].blockno in blocks - {b} {
        assert !Holds(bufs[j], bufs[i].dev, bufs[i].blockno);
      }
      SameCount(bufs, keys - {i}, blocks - {b});
    }
  }

  lemma PinnedCount(s: State)
    requires Inv(s)
    ensures |PinnedBufs(s)| == |s.pinned|
  {
    forall i | i in PinnedBufs(s) ensures s.bufs[i].dev == ROOTDEV && s.bufs[i].blockno in s.pinned {
      assert BufInv(s, i);
    }
    forall b | b in s.pinned ensures exists i :: i in PinnedBufs(s) && s.bufs[i].blockno == b {
      assert Cached(s, b);
      var i :| i in s.bufs && Holds(s.bufs[i], ROOTDEV, b) && s.bufs[i].valid;
      assert i in PinnedBufs(s);
    }
    SameCount(s.bufs, PinnedBufs(s), s.pinned);
  }

  lemma BusyBufs(s: State)
    requires Inv(s)
    ensures forall i :: i in s.bufs ==> (s.bufs[i].refcnt != 0 <==> i in PinnedBufs(s) + HeldBufs(s))
  {
    forall i | i in s.bufs ensures s.bufs[i].refcnt != 0 <==> i in PinnedBufs(s) + HeldBufs(s) {
      assert BufInv(s, i);
    }
  }

  /**
   bget's panic: after any run from an empty log, bget of a block finds no buffer exactly when
   the block is not cached and the blocks in the log and the other buffers held are together
   as many as there are buffers.
   */
  lemma NoBufferExactly(s0: State, acts: seq<Action>, b: nat)
    requires Init(s0) && ValidRun(s0, acts)
    ensures var s := Run(s0, acts);
            && Permutation(s.lru, s.bufs.Keys)
            && (Pick(s.bufs, s.lru, ROOTDEV, b).NoBuffers? <==>
                  (forall i :: i in s.bufs ==> !Holds(s.bufs[i], ROOTDEV, b)) && |s.pinned| + |HeldBufs(s)| == |s.bufs|)
  {
    InitInv(s0);
    RunInv(s0, acts);
    NoBuffer(Run(s0, acts), b);
  }

  lemma NoBuffer(s: State, b: nat)
    requires Inv(s)
    ensures Pick(s.bufs, s.lru, ROOTDEV, b).NoBuffers? <==>
              (forall i :: i in s.bufs ==> !Holds(s.bufs[i], ROOTDEV, b)) && |s.pinned| + |HeldBufs(s)| == |s.bufs|
  {
    PinnedCount(s);
    BusyBufs(s);
    var busy := PinnedBufs(s) + HeldBufs(s);
    assert |busy| == |PinnedBufs(s)| + |HeldBufs(s)|;
    AllBusy(busy, s.bufs.Keys);
    PickBusy(s, b);
  }

  lemma PickBusy(s: State, b: nat)
    requires Permutation(s.lru, s.bufs.Keys)
    ensures Pick(s.bufs, s.lru, ROOTDEV, b).NoBuffers? <==>
              forall i :: i in s.bufs ==> !Holds(s.bufs[i], ROOTDEV, b) && s.bufs[i].refcnt != 0
  {
    if Pick(s.bufs, s.lru, ROOTDEV, b).NoBuffers? {
      forall i | i in s.bufs ensures !Holds(s.bufs[i], ROOTDEV, b) && s.bufs[i].refcnt != 0 {
        var k :| 0 <= k < |s.lru| && s.lru[k] == i;
      }
    }
  }

  ghost predicate NotCached(s: State, b: nat) { forall i :: i in s.bufs ==> !Holds(s.bufs[i], ROOTDEV, b) }

  /** A process has filled a buffer for block b, alone. */
  ghost predicate Filled(s: State, s': State, v: nat, b: nat) {
    && v in s.bufs && s'.handles == [Handle(v, b, Locked(false))] && s'.pinned == s.pinned
    && s'.bufs.Keys == s.bufs.Keys && Holds(s'.bufs[v], ROOTDEV, b) && s'.bufs[v].valid && v in s'.lru
    && |s'.disk| == |s.disk| && |s'.view| == |s.view|
    && forall i :: i in s.bufs && i != v ==> s'.bufs[i] == s.bufs[i]
  }

  lemma FillOne(s: State, b: nat) returns (v: nat)
    requires Inv(s) && s.handles == [] && |s.pinned| < |s.bufs| && b < |s.disk| && NotCached(s, b)
    ensures Enabled(s, Get(b)) && Enabled(Do(s, Get(b)), Lock(0)) && Enabled(Do(Do(s, Get(b)), Lock(0)), Fill(0))
    ensures Filled(s, Do(Do(Do(s, Get(b)), Lock(0)), Fill(0)), v, b)
  {
    assert HeldBufs(s) == {};
    NoBuffer(s, b);
    var g := Pick(s.bufs, s.lru, ROOTDEV, b);
    v := g.i;
    assert g.Recycled? && |s.view| == |s.disk|;
    hide Inv, Pick;
    hide HeldBufs, NoDuplicates, FindFrom, VictimBelow;
    var s1 := Do(s, Get(b));
    assert s1.handles == [Handle(v, b, Waiting)];
    var s2 := Do(s1, Lock(0));
    assert s2.handles == [Handle(v, b, Locked(false))];
  }

  lemma LogFilled(s: State, s': State, v: nat, b: nat, data: Block)
    requires Filled(s, s', v, b) && b < |s'.view| && b !in s.pinned
    ensures Enabled(s', Modify(0, data))
    ensures var s4 := Do(s', Modify(0, data)); Enabled(s4, LogWrite(0)) && Enabled(Do(s4, LogWrite(0)), Unlock(0))
    ensures var s6 := Do(Do(Do(s', Modify(0, data)), LogWrite(0)), Unlock(0));
            && Enabled(s6, Put(0))
            && var s7 := Do(s6, Put(0));
               && s7.handles == [] && s7.pinned == s.pinned + {b} && s7.bufs.Keys == s.bufs.Keys
                   && |s7.disk| == |s.disk|
               && Holds(s7.bufs[v], ROOTDEV, b)
               && forall i :: i in s.bufs && i != v ==> s7.bufs[i] == s.bufs[i]
  {
    hide Increment, Decrement, MoveToFront;
    var s4 := Do(s', Modify(0, data));
    assert s4.handles == [Handle(v, b, Locked(true))];
    var s5 := Do(s4, LogWrite(0));
    assert s5.handles == [Handle(v, b, Locked(false))];
    var s6 := Do(s5, Unlock(0));
    assert s6.handles == [Handle(v, b, Released)];
    assert s6.handles[..0] + s6.handles[1..] == [];
  }

  /** Reading a block, changing it and logging it. */
  function LogOne(b: nat, data: Block): seq<Action> {
    [Get(b)] + ([Lock(0)] + ([Fill(0)] + ([Modify(0, data)] + ([LogWrite(0)] + ([Unlock(0)] + ([Put(0)] + []))))))
  }

  lemma RunFirst(s: State, a: Action, acts: seq<Action>)
    requires Enabled(s, a) && ValidRun(Do(s, a), acts)
    ensures ValidRun(s, [a] + acts) && Run(s, [a] + acts) == Run(Do(s, a), acts)
  {
    assert ([a] + acts)[1..] == acts;
  }

  lemma LogOneRuns(s: State, b: nat, data: Block)
    requires Inv(s) && s.handles == [] && |s.pinned| < |s.bufs| && b < |s.disk| && NotCached(s, b)
    ensures ValidRun(s, LogOne(b, data))
    ensures var s' := Run(s, LogOne(b, data));
            && Inv(s') && s'.handles == [] && s'.pinned == s.pinned + {b} && b !in s.pinned
            && |s'.bufs| == |s.bufs| && |s'.disk| == |s.disk|
            && forall c :: c != b && NotCached(s, c) ==> NotCached(s', c)
  {
    NotPinned(s, b);
    var v := FillOne(s, b);
    var s3 := Do(Do(Do(s, Get(b)), Lock(0)), Fill(0));
    LogFilled(s, s3, v, b, data);
    hide Inv, Enabled, Do, LogOne, NotCached;
    LogOnePath(s, b, data);
    RunInv(s, LogOne(b, data));
    var s' := Run(s, LogOne(b, data));
    assert |s'.bufs| == |s'.bufs.Keys| == |s.bufs|;
    forall c | c != b && NotCached(s, c) ensures NotCached(s', c) { StillNotCached(s, s', v, b, c); }
  }

  lemma NotPinned(s: State, b: nat)
    requires Inv(s) && NotCached(s, b)
    ensures b !in s.pinned && |s.view| == |s.disk|
  {
    assert b in s.pinned ==> Cached(s, b);
  }

  lemma StillNotCached(s: State, s': State, v: nat, b: nat, c: nat)
    requires NotCached(s, c) && c != b && v in s.bufs && s'.bufs.Keys == s.bufs.Keys && Holds(s'.bufs[v], ROOTDEV, b)
    requires forall i :: i in s.bufs && i != v ==> s'.bufs[i] == s.bufs[i]
    ensures NotCached(s', c)
  {
  }

  lemma LogOnePath(s: State, b: nat, data: Block)
    requires Enabled(s, Get(b)) && Enabled(Do(s, Get(b)), Lock(0))
    requires var s2 := Do(Do(s, Get(b)), Lock(0)); Enabled(s2, Fill(0)) && Enabled(Do(s2, Fill(0)), Modify(0, data))
    requires var s4 := Do(Do(Do(Do(s, Get(b)), Lock(0)), Fill(0)), Modify(0, data));
             Enabled(s4, LogWrite(0)) && Enabled(Do(s4, LogWrite(0)), Unlock(0))
             && Enabled(Do(Do(s4, LogWrite(0)), Unlock(0)), Put(0))
    ensures var s4 := Do(Do(Do(Do(s, Get(b)), Lock(0)), Fill(0)), Modify(0, data));
            && ValidRun(s, LogOne(b, data))
            && Run(s, LogOne(b, data)) == Do(Do(Do(s4, LogWrite(0)), Unlock(0)), Put(0))
  {
    hide Enabled, Do;
    var s1 := Do(s, Get(b));
    var s2 := Do(s1, Lock(0));
    var s3 := Do(s2, Fill(0));
    var s4 := Do(s3, Modify(0, data));
    var s5 := Do(s4, LogWrite(0));
    var s6 := Do(s5, Unlock(0));
    var acts: seq<Action> := [];
    RunFirst(s6, Put(0), acts);
    acts := [Put(0)] + acts;
    RunFirst(s5, Unlock(0), acts);
    acts := [Unlock(0)] + acts;
    RunFirst(s4, LogWrite(0), acts);
    acts := [LogWrite(0)] + acts;
    RunFirst(s3, Modify(0, data), acts);
    acts := [Modify(0, data)] + acts;
    RunFirst(s2, Fill(0), acts);
    acts := [Fill(0)] + acts;
    RunFirst(s1, Lock(0), acts);
    acts := [Lock(0)] + acts;
    RunFirst(s, Get(b), acts);
  }

  lemma {:induction false} RunConcat(s: State, a: seq<Action>, b: seq<Action>)
    requires ValidRun(s, a) && ValidRun(Run(s, a), b)
    ensures ValidRun(s, a + b) && Run(s, a + b) == Run(Run(s, a), b)
    decreases |a|
  {
    hide Enabled, Do;
    if |a| == 0 {
      assert a + b == b;
    } else {
      assert (a + b)[1..] == a[1..] + b;
      RunConcat(Do(s, a[0]), a[1..], b);
    }
  }

  /** Logging the blocks one after the other pins a buffer for each. */
  lemma {:induction false} LogMany(s: State, blocks: seq<nat>, k: nat, data: Block) returns (acts: seq<Action>)
    requires Inv(s) && s.handles == [] && s.pinned == {} && k <= |blocks| <= |s.bufs| && Distinct(blocks)
    requires forall j :: 0 <= j < |blocks| ==> blocks[j] < |s.disk| && NotCached(s, blocks[j])
    ensures ValidRun(s, acts)
    ensures var s' := Run(s, acts);
            && Inv(s') && s'.handles == [] && |s'.pinned| == k && |s'.bufs| == |s.bufs| && |s'.disk| == |s.disk|
            && forall c :: c !in blocks[..k] && NotCached(s, c) ==> NotCached(s', c)
  {
    hide Inv, Enabled, Do, LogOne, NotCached;
    if k == 0 {
      acts := [];
    } else {
      acts := LogMany(s, blocks, k - 1, data);
      var t, b := Run(s, acts), blocks[k - 1];
      assert blocks[..k] == blocks[..k - 1] + [b];
      assert b !in blocks[..k - 1];
      LogOneRuns(t, b, data);
      RunConcat(s, acts, LogOne(b, data));
      acts := acts + LogOne(b, data);
    }
  }

  /**
   A group of operations that logs as many blocks as there are buffers leaves none for the
   commit: with NBUF = LOGSIZE, thirty logged blocks do, and bread of a log block panics.
   */
  lemma FullGroupStopsCommit(s0: State, blocks: seq<nat>, data: Block, l: nat) returns (acts: seq<Action>)
    requires Init(s0) && |s0.bufs| == NBUF && |blocks| == LOGSIZE && Distinct(blocks)
    requires (forall j :: 0 <= j < |blocks| ==> blocks[j] < |s0.disk|) && l < |s0.disk| && l !in blocks
    ensures ValidRun(s0, acts)
    ensures var s := Run(s0, acts);
            && s.handles == [] && |s.pinned| == LOGSIZE && Permutation(s.lru, s.bufs.Keys)
            && Pick(s.bufs, s.lru, ROOTDEV, l).NoBuffers?
  {
    InitInv(s0);
    acts := LogMany(s0, blocks, |blocks|, data);
    assert blocks[..|blocks|] == blocks;
    var s := Run(s0, acts);
    NoBuffer(s, l);
    assert HeldBufs(s) == {};
    assert NotCached(s0, l);
  }
}
