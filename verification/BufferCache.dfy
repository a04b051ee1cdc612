/**
 The buffer cache (kernel/fs/bio.c) under the log (kernel/fs/log.c).

 First the effect of each critical section as a function of the buffers and the
 LRU order, then the step relation for any number of processes that hold
 references to buffers while the log pins some of them, then the code itself,
 on the doubly linked list.
 */
module BufferCache {
  import opened DiskLog
  import opened IntrusiveList

  const ROOTDEV: nat := 1
  const UINT32: nat := 0x1_0000_0000
  const MAXREFS: nat := UINT32 - 2   // references that can exist at once without refcnt wrapping

  datatype Buf = Buf(valid: bool, dev: nat, blockno: nat, refcnt: nat, data: Block)

  /** Buffers by address. */
  type Bufs = map<nat, Buf>

  predicate Holds(b: Buf, dev: nat, blockno: nat) {
    b.dev == dev && b.blockno == blockno
  }

  // ---------------------------------------------------------------- bget's two scans

  /** The first position from k on, in list order, of a buffer for the block; |order| if none. */
  function FindFrom(bufs: Bufs, order: seq<nat>, dev: nat, blockno: nat, k: nat): (r: nat)
    requires k <= |order| && forall x :: x in order ==> x in bufs
    ensures k <= r <= |order|
    ensures r < |order| ==> Holds(bufs[order[r]], dev, blockno)
    ensures forall j :: k <= j < r ==> !Holds(bufs[order[j]], dev, blockno)
    decreases |order| - k
  {
    if k == |order| || Holds(bufs[order[k]], dev, blockno) then k
    else FindFrom(bufs, order, dev, blockno, k + 1)
  }

  /** The last position below k of an unreferenced buffer; |order| if none. */
  function VictimBelow(bufs: Bufs, order: seq<nat>, k: nat): (r: nat)
    requires k <= |order| && forall x :: x in order ==> x in bufs
    ensures r < k || r == |order|
    ensures r < |order| ==> bufs[order[r]].refcnt == 0 && forall j :: r < j < k ==> bufs[order[j]].refcnt != 0
    ensures r == |order| ==> forall j :: 0 <= j < k ==> bufs[order[j]].refcnt != 0
  {
    if k == 0 then |order|
    else if bufs[order[k - 1]].refcnt == 0 then k - 1
    else VictimBelow(bufs, order, k - 1)
  }

  datatype Got = Hit(i: nat) | Recycled(i: nat) | NoBuffers

  /** Which buffer bget picks. */
  function Pick(bufs: Bufs, order: seq<nat>, dev: nat, blockno: nat): (g: Got)
    requires forall x :: x in order ==> x in bufs
    ensures !g.NoBuffers? ==> g.i in order
  {
    var h := FindFrom(bufs, order, dev, blockno, 0);
    if h < |order| then Hit(order[h])
    else
      var v := VictimBelow(bufs, order, |order|);
      if v < |order| then Recycled(order[v]) else NoBuffers
  }

  /** The unsigned increment of refcnt. */
  function Increment(refcnt: nat): nat {
    (refcnt + 1) % UINT32
  }

  lemma IncrementIs(refcnt: nat)
    requires refcnt < UINT32
    ensures Increment(refcnt) == if refcnt == UINT32 - 1 then 0 else refcnt + 1
  {
  }

  function AfterGet(bufs: Bufs, g: Got, dev: nat, blockno: nat): (r: Bufs)
    requires !g.NoBuffers? ==> g.i in bufs
    ensures r.Keys == bufs.Keys
  {
    match g
    case Hit(i) => bufs[i := bufs[i].(refcnt := Increment(bufs[i].refcnt))]
    case Recycled(i) => bufs[i := Buf(false, dev, blockno, 1, bufs[i].data)]
    case NoBuffers => bufs
  }

  /** The unsigned decrement of refcnt. */
  function Decrement(refcnt: nat): nat {
    (refcnt + UINT32 - 1) % UINT32
  }

  lemma DecrementIs(refcnt: nat)
    requires refcnt <= UINT32
    ensures Decrement(refcnt) == if refcnt == 0 then UINT32 - 1 else refcnt - 1
  {
  }

  function Index(order: seq<nat>, i: nat): (k: nat)
    requires i in order
    ensures k < |order| && order[k] == i
  {
    if order[0] == i then 0 else 1 + Index(order[1..], i)
  }

  /** brelse's move to the front of the list. */
  function MoveToFront(order: seq<nat>, i: nat): (r: seq<nat>)
    requires i in order
  {
    [i] + Without(order, Index(order, i))
  }

  ghost predicate Permutation(order: seq<nat>, keys: set<nat>) {
    NoDuplicates(order) && forall x :: x in order <==> x in keys
  }

  lemma MoveKeepsPermutation(order: seq<nat>, i: nat, keys: set<nat>)
    requires Permutation(order, keys) && i in order
    ensures Permutation(MoveToFront(order, i), keys)
  {
    var k := Index(order, i);
    WithoutContents(order, k);
    var r := MoveToFront(order, i);
    assert r[0] == i;
    assert forall x :: x in r <==> x == i || x in Without(order, k);
  }

  // ---------------------------------------------------------------- any number of processes

  /** A reference obtained by bget for a block: waiting for the buffer's sleep-lock, holding it, or
      past releasesleep in brelse. `dirty` says that the holder changed the data since. */
  datatype Phase = Waiting | Locked(dirty: bool) | Released

  datatype Handle = Handle(i: nat, blockno: nat, phase: Phase)

  datatype State = State(
    bufs: Bufs,
    lru: seq<nat>,
    disk: seq<Block>,
    view: seq<Block>,        // the contents last stored in each block
    handles: seq<Handle>,
    pinned: set<nat>)        // blocks in the log's header

  datatype Action =
    | Get(blockno: nat)
    | Lock(h: nat)
    | Fill(h: nat)
    | Modify(h: nat, data: Block)
    | LogWrite(h: nat)
    | Bwrite(h: nat)
    | Unpin(h: nat)
    | Unlock(h: nat)
    | Put(h: nat)

  predicate Holding(s: State, h: nat) {
    h < |s.handles| && s.handles[h].phase.Locked? && s.handles[h].i in s.bufs
  }

  function BufOf(s: State, h: nat): Buf
    requires Holding(s, h)
  {
    s.bufs[s.handles[h].i]
  }

  predicate OnDisk(s: State, b: Buf) {
    b.blockno < |s.disk| && b.blockno < |s.view|
  }

  predicate Enabled(s: State, a: Action) {
    match a
    case Get(b) =>
      && b < |s.disk| && (forall x :: x in s.lru ==> x in s.bufs)
      && |s.handles| < MAXREFS
      && !Pick(s.bufs, s.lru, ROOTDEV, b).NoBuffers?
    case Lock(h) =>
      && h < |s.handles| && s.handles[h].phase.Waiting?
      && forall g :: 0 <= g < |s.handles| && s.handles[g].phase.Locked? ==> s.handles[g].i != s.handles[h].i
    case Fill(h) => Holding(s, h) && OnDisk(s, BufOf(s, h)) && !BufOf(s, h).valid
    case Modify(h, _) => Holding(s, h) && s.handles[h].blockno < |s.view| && BufOf(s, h).valid
    case LogWrite(h) => Holding(s, h) && s.handles[h].phase.dirty
    case Bwrite(h) => Holding(s, h) && OnDisk(s, BufOf(s, h)) && BufOf(s, h).valid
    case Unpin(h) =>   // install_trans, right after its bwrite
      && Holding(s, h) && OnDisk(s, BufOf(s, h)) && BufOf(s, h).blockno in s.pinned
      && s.disk[BufOf(s, h).blockno] == BufOf(s, h).data
    case Unlock(h) => Holding(s, h) && BufOf(s, h).valid && !s.handles[h].phase.dirty
    case Put(h) =>
        h < |s.handles| && s.handles[h].phase.Released? && s.handles[h].i in s.bufs && s.handles[h].i in s.lru
  }

  function SetBuf(s: State, i: nat, b: Buf): State {
    s.(bufs := s.bufs[i := b])
  }

  function SetPhase(s: State, h: nat, p: Phase): State
    requires h < |s.handles|
  {
    s.(handles := s.handles[h := s.handles[h].(phase := p)])
  }

  function Do(s: State, a: Action): State
    requires Enabled(s, a)
  {
    match a
    case Get(b) =>
      var g := Pick(s.bufs, s.lru, ROOTDEV, b);
      s.(bufs := AfterGet(s.bufs, g, ROOTDEV, b), handles := s.handles + [Handle(g.i, b, Waiting)])
    case Lock(h) => SetPhase(s, h, Locked(false))
    case Fill(h) =>
      var b := BufOf(s, h);
      SetBuf(s, s.handles[h].i, b.(data := s.disk[b.blockno], valid := true))
    case Modify(h, data) =>
      var s1 := SetBuf(s, s.handles[h].i, BufOf(s, h).(data := data));
      SetPhase(s1.(view := s.view[s.handles[h].blockno := data]), h, Locked(true))
    case LogWrite(h) =>
      var b := BufOf(s, h);
      var r := if b.blockno in s.pinned then b.refcnt else Increment(b.refcnt);
      SetPhase(SetBuf(s, s.handles[h].i, b.(refcnt := r)).(pinned := s.pinned + {b.blockno}), h, Locked(false))
    case Bwrite(h) =>
      var b := BufOf(s, h);
      SetPhase(s, h, Locked(false)).(disk := s.disk[b.blockno := b.data])
    case Unpin(h) =>
      var b := BufOf(s, h);
      SetBuf(s, s.handles[h].i, b.(refcnt := Decrement(b.refcnt))).(pinned := s.pinned - {b.blockno})
    case Unlock(h) => SetPhase(s, h, Released)
    case Put(h) =>
      var i := s.handles[h].i;
      var r := Decrement(s.bufs[i].refcnt);
      s.(bufs := s.bufs[i := s.bufs[i].(refcnt := r)],
         lru := if r == 0 then MoveToFront(s.lru, i) else s.lru,
         handles := s.handles[..h] + s.handles[h + 1..])
  }

  /** binit, with an empty log: no buffer is in use and the contents are the disk's. */
  ghost predicate Init(s: State) {
    && Permutation(s.lru, s.bufs.Keys)
    && (forall i :: i in s.bufs ==> !s.bufs[i].valid && s.bufs[i].dev == 0 && s.bufs[i].refcnt == 0)
    && s.view == s.disk && s.handles == [] && s.pinned == {}
  }

  ghost predicate ValidRun(s: State, acts: seq<Action>)
    decreases |acts|
  {
    |acts| > 0 ==> Enabled(s, acts[0]) && ValidRun(Do(s, acts[0]), acts[1..])
  }

  ghost function Run(s: State, acts: seq<Action>): State
    requires ValidRun(s, acts)
    decreases |acts|
  {
    if |acts| == 0 then s else Run(Do(s, acts[0]), acts[1..])
  }

  // ---------------------------------------------------------------- the invariant

  function Refs(hs: seq<Handle>, i: nat): (n: nat)
    ensures n <= |hs|
    decreases |hs|
  {
    if |hs| == 0 then 0
    else Refs(hs[..|hs| - 1], i) + if hs[|hs| - 1].i == i then 1 else 0
  }

  function Pin(s: State, i: nat): nat
    requires i in s.bufs
  {
    if s.bufs[i].dev != 0 && s.bufs[i].blockno in s.pinned then 1 else 0
  }

  ghost predicate BufInv(s: State, i: nat)
    requires i in s.bufs
  {
    var b := s.bufs[i];
    && b.refcnt == Refs(s.handles, i) + Pin(s, i)
    && (b.dev == 0 ==> b.refcnt == 0)
    && (b.dev != 0 ==> b.dev == ROOTDEV && b.blockno < |s.disk|)
    && (b.dev != 0 && b.valid ==> b.blockno < |s.view| && b.data == s.view[b.blockno])
  }

  ghost predicate HandleInv(s: State, h: nat)
    requires h < |s.handles|
  {
    var hd := s.handles[h];
    && hd.i in s.bufs && Holds(s.bufs[hd.i], ROOTDEV, hd.blockno)
    && (hd.phase.Locked? && hd.phase.dirty ==> s.bufs[hd.i].valid)
    && (hd.phase.Released? ==> s.bufs[hd.i].valid)
  }

  /** Some process has changed block b and still holds its buffer. */
  ghost predicate InHand(s: State, b: nat) {
    exists h :: 0 <= h < |s.handles| && s.handles[h].phase == Locked(true)
                && s.handles[h].i in s.bufs && Holds(s.bufs[s.handles[h].i], ROOTDEV, b)
  }

  ghost predicate Cached(s: State, b: nat) {
    exists i :: i in s.bufs && Holds(s.bufs[i], ROOTDEV, b) && s.bufs[i].valid
  }

  ghost predicate UniqueKeys(bufs: Bufs) {
    forall i, j :: i in bufs && j in bufs && i != j && bufs[i].dev != 0
      ==> !Holds(bufs[j], bufs[i].dev, bufs[i].blockno)
  }

  ghost predicate OneHolder(hs: seq<Handle>) {
    forall h, g :: 0 <= h < g < |hs| && hs[h].phase.Locked? && hs[g].phase.Locked? ==> hs[h].i != hs[g].i
  }

  ghost predicate PinnedCached(s: State) {
    forall b :: b in s.pinned ==> Cached(s, b)
  }

  /** Contents that the disk does not have are pinned or in the hands of their writer. */
  ghost predicate DirtyTracked(s: State) {
    |s.view| == |s.disk| && forall b :: 0 <= b < |s.disk| && s.view[b] != s.disk[b] ==> b in s.pinned || InHand(s, b)
  }

  ghost predicate Inv(s: State) {
    && |s.handles| <= MAXREFS
    && Permutation(s.lru, s.bufs.Keys)
    && (forall i :: i in s.bufs ==> BufInv(s, i))
    && UniqueKeys(s.bufs)
    && (forall h :: 0 <= h < |s.handles| ==> HandleInv(s, h))
    && OneHolder(s.handles)
    && PinnedCached(s)
    && DirtyTracked(s)
  }

  lemma {:induction false} RefsPositive(hs: seq<Handle>, h: nat)
    requires h < |hs|
    ensures Refs(hs, hs[h].i) >= 1
    decreases |hs|
  {
    if h < |hs| - 1 { RefsPositive(hs[..|hs| - 1], h); }
  }

  lemma RefsAppend(hs: seq<Handle>, hd: Handle, i: nat)
    ensures Refs(hs + [hd], i) == Refs(hs, i) + if hd.i == i then 1 else 0
  {
    assert (hs + [hd])[..|hs|] == hs;
  }

  lemma {:induction false} RefsConcat(a: seq<Handle>, b: seq<Handle>, i: nat)
    ensures Refs(a + b, i) == Refs(a, i) + Refs(b, i)
    decreases |b|
  {
    if |b| == 0 {
      assert a + b == a;
    } else {
      assert (a + b)[..|a + b| - 1] == a + b[..|b| - 1];
      RefsConcat(a, b[..|b| - 1], i);
    }
  }

  lemma RefsAt(hs: seq<Handle>, h: nat, hd: Handle, i: nat)
    requires h < |hs|
    ensures Refs(hs[h := hd], i) == Refs(hs[..h], i) + (if hd.i == i then 1 else 0) + Refs(hs[h + 1..], i)
  {
    assert hs[h := hd] == (hs[..h] + [hd]) + hs[h + 1..];
    RefsConcat(hs[..h] + [hd], hs[h + 1..], i);
    RefsAppend(hs[..h], hd, i);
  }

  lemma RefsPhase(hs: seq<Handle>, h: nat, p: Phase, i: nat)
    requires h < |hs|
    ensures Refs(hs[h := hs[h].(phase := p)], i) == Refs(hs, i)
  {
    RefsAt(hs, h, hs[h].(phase := p), i);
    RefsAt(hs, h, hs[h], i);
    assert hs[h := hs[h]] == hs;
  }

  lemma RefsRemove(hs: seq<Handle>, h: nat, i: nat)
    requires h < |hs|
    ensures Refs(hs[..h] + hs[h + 1..], i) == Refs(hs, i) - if hs[h].i == i then 1 else 0
  {
    RefsAt(hs, h, hs[h], i);
    assert hs[h := hs[h]] == hs;
    RefsConcat(hs[..h], hs[h + 1..], i);
  }

  /** A buffer that nobody references and the log does not pin agrees with the disk. */
  lemma CleanIfUnused(s: State, i: nat)
    requires Inv(s) && i in s.bufs && s.bufs[i].refcnt == 0
    ensures forall h :: 0 <= h < |s.handles| ==> s.handles[h].i != i
    ensures s.bufs[i].dev != 0 ==> s.bufs[i].blockno !in s.pinned
  {
    assert BufInv(s, i);
    forall h | 0 <= h < |s.handles| ensures s.handles[h].i != i {
      RefsPositive(s.handles, h);
    }
  }

  /** Buffers and dirty handles that stay as they were keep blocks cached and in hand. */
  lemma CachedKept(s: State, s': State, b: nat)
    requires Cached(s, b) && s'.bufs.Keys == s.bufs.Keys
    requires forall i :: i in s.bufs && Holds(s.bufs[i], ROOTDEV, b) && s.bufs[i].valid
               ==> Holds(s'.bufs[i], ROOTDEV, b) && s'.bufs[i].valid
    ensures Cached(s', b)
  {
    var i :| i in s.bufs && Holds(s.bufs[i], ROOTDEV, b) && s.bufs[i].valid;
    assert i in s'.bufs;
  }

  lemma InHandKept(s: State, s': State, b: nat)
    requires InHand(s, b) && |s.handles| <= |s'.handles| && s'.bufs.Keys == s.bufs.Keys
    requires forall h :: 0 <= h < |s.handles| && s.handles[h].phase == Locked(true)
               && s.handles[h].i in s.bufs && Holds(s.bufs[s.handles[h].i], ROOTDEV, b)
               ==> s'.handles[h] == s.handles[h] && Holds(s'.bufs[s.handles[h].i], ROOTDEV, b)
    ensures InHand(s', b)
  {
    var h :| 0 <= h < |s.handles| && s.handles[h].phase == Locked(true)
             && s.handles[h].i in s.bufs && Holds(s.bufs[s.handles[h].i], ROOTDEV, b);
    assert s'.handles[h].i in s'.bufs;
  }

  /** A step that keeps contents, pins and every dirty handle keeps the last two invariants. */
  lemma TrackingKept(s: State, s': State)
    requires PinnedCached(s) && DirtyTracked(s)
    requires s'.view == s.view && s'.disk == s.disk && s'.pinned == s.pinned
    requires s'.bufs.Keys == s.bufs.Keys && |s.handles| <= |s'.handles|
    requires forall i :: i in s.bufs && s.bufs[i].refcnt != 0
               ==> Holds(s'.bufs[i], s.bufs[i].dev, s.bufs[i].blockno) && (s.bufs[i].valid ==> s'.bufs[i].valid)
    requires forall i :: i in s.bufs && s.bufs[i].refcnt == 0 ==> s.bufs[i].blockno !in s.pinned || s.bufs[i].dev == 0
    requires forall h :: 0 <= h < |s.handles| && s.handles[h].phase == Locked(true)
               ==> s'.handles[h] == s.handles[h] && (s.handles[h].i in s.bufs ==> s.bufs[s.handles[h].i].refcnt != 0)
    ensures PinnedCached(s') && DirtyTracked(s')
  {
    forall c | c in s'.pinned ensures Cached(s', c) { CachedKept(s, s', c); }
    forall c | 0 <= c < |s'.disk| && s'.view[c] != s'.disk[c] ensures c in s'.pinned || InHand(s', c) {
      if c !in s.pinned { InHandKept(s, s', c); }
    }
  }

  lemma Referenced(s: State)
    requires Inv(s)
    ensures forall h :: 0 <= h < |s.handles| ==> s.handles[h].i in s.bufs && s.bufs[s.handles[h].i].refcnt != 0
    ensures forall i :: i in s.bufs && s.bufs[i].refcnt == 0 ==> s.bufs[i].blockno !in s.pinned || s.bufs[i].dev == 0
  {
    forall h | 0 <= h < |s.handles| ensures s.handles[h].i in s.bufs && s.bufs[s.handles[h].i].refcnt != 0 {
      assert HandleInv(s, h) && BufInv(s, s.handles[h].i);
      RefsPositive(s.handles, h);
    }
    forall i | i in s.bufs && s.bufs[i].refcnt == 0 ensures s.bufs[i].blockno !in s.pinned || s.bufs[i].dev == 0 {
      assert BufInv(s, i);
    }
  }

  lemma NotFound(s: State, b: nat)
    requires Inv(s) && (forall x :: x in s.lru ==> x in s.bufs) && !Pick(s.bufs, s.lru, ROOTDEV, b).Hit?
    ensures forall i :: i in s.bufs ==> !Holds(s.bufs[i], ROOTDEV, b)
  {
    forall i | i in s.bufs ensures !Holds(s.bufs[i], ROOTDEV, b) {
      assert i in s.lru;
      var k :| 0 <= k < |s.lru| && s.lru[k] == i;
      assert FindFrom(s.bufs, s.lru, ROOTDEV, b, 0) == |s.lru|;
    }
  }

  lemma StepGet(s: State, b: nat)
    requires Inv(s) && Enabled(s, Get(b))
    ensures Inv(Do(s, Get(b)))
  {
    var s' := Do(s, Get(b));
    Referenced(s);
    GetKeys(s, b);
    GetBufs(s, b);
    GetHandles(s, b);
    hide BufInv, HandleInv, Refs, OneHolder, UniqueKeys;
    TrackingKept(s, s');
  }

  lemma GetBufs(s: State, b: nat)
    requires Inv(s) && Enabled(s, Get(b))
    ensures var s' := Do(s, Get(b)); forall i :: i in s'.bufs ==> BufInv(s', i)
  {
    var s' := Do(s, Get(b));
    var g := Pick(s.bufs, s.lru, ROOTDEV, b);
    GetKeys(s, b);
    forall i | i in s'.bufs ensures BufInv(s', i) {
      assert BufInv(s, i);
      IncrementIs(s.bufs[i].refcnt);
      RefsAppend(s.handles, Handle(g.i, b, Waiting), i);
    }
  }

  lemma GetKeys(s: State, b: nat)
    requires Inv(s) && Enabled(s, Get(b))
    ensures UniqueKeys(Do(s, Get(b)).bufs)
    ensures Pick(s.bufs, s.lru, ROOTDEV, b).Recycled? ==> b !in s.pinned
  {
    if Pick(s.bufs, s.lru, ROOTDEV, b).Recycled? {
      NotFound(s, b);
      assert b in s.pinned ==> Cached(s, b);
    }
  }

  lemma GetHandles(s: State, b: nat)
    requires Inv(s) && Enabled(s, Get(b))
    ensures var s' := Do(s, Get(b));
            OneHolder(s'.handles) && forall h :: 0 <= h < |s'.handles| ==> HandleInv(s', h)
  {
    var s' := Do(s, Get(b));
    Referenced(s);
    forall h | 0 <= h < |s'.handles| ensures HandleInv(s', h) {
      if h < |s.handles| { assert HandleInv(s, h); }
    }
  }

  /** The parts of the invariant that a step on handle h's buffer, keeping its key, leaves alone. */
  lemma StepOnHeld(s: State, s': State, h: nat, b': Buf, p: Phase)
    requires Inv(s) && h < |s.handles| && s.handles[h].i in s.bufs
    requires var b := s.bufs[s.handles[h].i]; b'.dev == b.dev && b'.blockno == b.blockno && (b.valid ==> b'.valid)
    requires (p.Locked? && p.dirty) || p.Released? ==> b'.valid
    requires p.Locked? && !s.handles[h].phase.Locked? ==>
               forall g :: 0 <= g < |s.handles| && s.handles[g].phase.Locked? ==> s.handles[g].i != s.handles[h].i
    requires s'.bufs == s.bufs[s.handles[h].i := b'] && s'.lru == s.lru
    requires s'.handles == s.handles[h := s.handles[h].(phase := p)]
    ensures Permutation(s'.lru, s'.bufs.Keys) && UniqueKeys(s'.bufs) && OneHolder(s'.handles)
    ensures forall g :: 0 <= g < |s'.handles| ==> HandleInv(s', g)
    ensures forall i :: Refs(s'.handles, i) == Refs(s.handles, i)
  {
    assert s'.bufs.Keys == s.bufs.Keys;
    forall g | 0 <= g < |s'.handles| ensures HandleInv(s', g) {
      assert HandleInv(s, g);
    }
    forall i ensures Refs(s'.handles, i) == Refs(s.handles, i) { RefsPhase(s.handles, h, p, i); }
  }

  lemma StepPhase(s: State, h: nat, p: Phase)
    requires Inv(s) && h < |s.handles|
    requires s.handles[h].phase != Locked(true)
    requires if p.Released? then s.handles[h].i in s.bufs && s.bufs[s.handles[h].i].valid
             else p == Locked(false)
                  && forall g :: 0 <= g < |s.handles| && s.handles[g].phase.Locked? ==> s.handles[g].i != s.handles[h].i
    ensures Inv(SetPhase(s, h, p))
  {
    var s' := SetPhase(s, h, p);
    var i := s.handles[h].i;
    Referenced(s);
    assert s.bufs[i := s.bufs[i]] == s.bufs;
    StepOnHeld(s, s', h, s.bufs[i], p);
    forall j | j in s'.bufs ensures BufInv(s', j) { assert BufInv(s, j); }
    TrackingKept(s, s');
  }

  lemma StepFill(s: State, h: nat)
    requires Inv(s) && Enabled(s, Fill(h))
    ensures Inv(Do(s, Fill(h)))
  {
    var s' := Do(s, Fill(h));
    var i := s.handles[h].i;
    var b := s.bufs[i];
    Referenced(s);
    assert BufInv(s, i) && HandleInv(s, h);
    assert s.handles[h := s.handles[h]] == s.handles;
    StepOnHeld(s, s', h, s'.bufs[i], s.handles[h].phase);
    InvalidIsClean(s, i);
    forall j | j in s'.bufs ensures BufInv(s', j) { assert BufInv(s, j); }
    TrackingKept(s, s');
  }

  lemma StepModify(s: State, h: nat, data: Block)
    requires Inv(s) && Enabled(s, Modify(h, data))
    ensures Inv(Do(s, Modify(h, data)))
  {
    var s' := Do(s, Modify(h, data));
    var i := s.handles[h].i;
    var b := s.bufs[i];
    assert BufInv(s, i) && HandleInv(s, h);
    Referenced(s);
    StepOnHeld(s, s', h, s'.bufs[i], Locked(true));
    ModifyBufs(s, h, data);
    hide BufInv, HandleInv, Refs, Permutation, OneHolder, UniqueKeys;
    forall c | c in s'.pinned ensures Cached(s', c) { CachedKept(s, s', c); }
    assert InHand(s', b.blockno) by { assert s'.handles[h].i in s'.bufs && s'.handles[h].phase == Locked(true); }
    forall c | 0 <= c < |s'.disk| && s'.view[c] != s'.disk[c] ensures c in s'.pinned || InHand(s', c) {
      if c != b.blockno && c !in s.pinned { InHandKept(s, s', c); }
    }
  }

  lemma ModifyBufs(s: State, h: nat, data: Block)
    requires Inv(s) && Enabled(s, Modify(h, data))
    requires forall i :: Refs(Do(s, Modify(h, data)).handles, i) == Refs(s.handles, i)
    ensures forall j :: j in Do(s, Modify(h, data)).bufs ==> BufInv(Do(s, Modify(h, data)), j)
  {
    hide Refs, DirtyTracked, Permutation;
    var s' := Do(s, Modify(h, data));
    assert BufInv(s, s.handles[h].i) && HandleInv(s, h);
    Referenced(s);
    forall j | j in s'.bufs ensures BufInv(s', j) { assert BufInv(s, j); }
  }

  lemma LogWriteBufs(s: State, h: nat)
    requires Inv(s) && Enabled(s, LogWrite(h))
    requires forall i :: Refs(Do(s, LogWrite(h)).handles, i) == Refs(s.handles, i)
    ensures forall j :: j in Do(s, LogWrite(h)).bufs ==> BufInv(Do(s, LogWrite(h)), j)
  {
    hide Refs, DirtyTracked, Permutation;
    var s' := Do(s, LogWrite(h));
    var i := s.handles[h].i;
    assert BufInv(s, i) && HandleInv(s, h);
    Referenced(s);
    IncrementIs(s.bufs[i].refcnt);
    forall j | j in s'.bufs ensures BufInv(s', j) { assert BufInv(s, j); }
  }

  lemma StepLogWrite(s: State, h: nat)
    requires Inv(s) && Enabled(s, LogWrite(h))
    ensures Inv(Do(s, LogWrite(h)))
  {
    var s' := Do(s, LogWrite(h));
    var i := s.handles[h].i;
    var b := s.bufs[i];
    assert BufInv(s, i) && HandleInv(s, h);
    Referenced(s);
    StepOnHeld(s, s', h, s'.bufs[i], Locked(false));
    LogWriteBufs(s, h);
    hide BufInv, HandleInv, Refs, Permutation, OneHolder, UniqueKeys, Cached, InHand;
    LogWriteTracked(s, h);
  }

  lemma LogWriteTracked(s: State, h: nat)
    requires Inv(s) && Enabled(s, LogWrite(h))
    ensures var s' := Do(s, LogWrite(h));
            && (forall c :: c in s'.pinned ==> Cached(s', c))
            && (forall c :: 0 <= c < |s'.disk| && s'.view[c] != s'.disk[c] ==> c in s'.pinned || InHand(s', c))
  {
    var s' := Do(s, LogWrite(h));
    var i := s.handles[h].i;
    var b := s.bufs[i];
    assert BufInv(s, i) && HandleInv(s, h);
    Referenced(s);
    hide Refs, Permutation, OneHolder, UniqueKeys;
    assert Cached(s', b.blockno) by { assert Holds(s'.bufs[i], ROOTDEV, b.blockno); }
    forall c | c in s'.pinned ensures Cached(s', c) {
      if c != b.blockno { CachedKept(s, s', c); }
    }
    forall c | 0 <= c < |s'.disk| && s'.view[c] != s'.disk[c] ensures c in s'.pinned || InHand(s', c) {
      if c !in s'.pinned { InHandKept(s, s', c); }
    }
  }

  lemma StepBwrite(s: State, h: nat)
    requires Inv(s) && Enabled(s, Bwrite(h))
    ensures Inv(Do(s, Bwrite(h)))
  {
    var s' := Do(s, Bwrite(h));
    var i := s.handles[h].i;
    var b := s.bufs[i];
    assert BufInv(s, i) && HandleInv(s, h);
    Referenced(s);
    assert s.bufs[i := b] == s.bufs;
    StepOnHeld(s, s', h, b, Locked(false));
    forall j | j in s'.bufs ensures BufInv(s', j) { assert BufInv(s, j); }
    forall c | c in s'.pinned ensures Cached(s', c) { CachedKept(s, s', c); }
    forall c | 0 <= c < |s'.disk| && s'.view[c] != s'.disk[c] ensures c in s'.pinned || InHand(s', c) {
      if c !in s'.pinned { InHandKept(s, s', c); }
    }
  }

  lemma StepUnpin(s: State, h: nat)
    requires Inv(s) && Enabled(s, Unpin(h))
    ensures Inv(Do(s, Unpin(h)))
  {
    var s' := Do(s, Unpin(h));
    var i := s.handles[h].i;
    var b := s.bufs[i];
    assert BufInv(s, i) && HandleInv(s, h);
    Referenced(s);
    assert Cached(s, b.blockno);
    assert s.handles[h := s.handles[h]] == s.handles;
    StepOnHeld(s, s', h, s'.bufs[i], s.handles[h].phase);
    UnpinBufs(s, h);
    forall c | c in s'.pinned ensures Cached(s', c) { CachedKept(s, s', c); }
    forall c | 0 <= c < |s'.disk| && s'.view[c] != s'.disk[c] ensures c in s'.pinned || InHand(s', c) {
      if c !in s.pinned { InHandKept(s, s', c); }
    }
  }

  lemma UnpinBufs(s: State, h: nat)
    requires Inv(s) && Enabled(s, Unpin(h))
    ensures var s' := Do(s, Unpin(h)); forall j :: j in s'.bufs ==> BufInv(s', j)
  {
    var s' := Do(s, Unpin(h));
    var i := s.handles[h].i;
    RefsPositive(s.handles, h);
    assert BufInv(s, i);
    DecrementIs(s.bufs[i].refcnt);
    forall j | j in s'.bufs ensures BufInv(s', j) { assert BufInv(s, j); }
  }

  lemma StepPut(s: State, h: nat)
    requires Inv(s) && Enabled(s, Put(h))
    ensures Inv(Do(s, Put(h)))
  {
    var s' := Do(s, Put(h));
    var i := s.handles[h].i;
    assert s'.bufs.Keys == s.bufs.Keys;
    MoveKeepsPermutation(s.lru, i, s.bufs.Keys);
    PutBufs(s, h);
    PutTracking(s, h);
  }

  lemma PutBufs(s: State, h: nat)
    requires Inv(s) && Enabled(s, Put(h))
    ensures var s' := Do(s, Put(h)); UniqueKeys(s'.bufs) && forall j :: j in s'.bufs ==> BufInv(s', j)
  {
    var s' := Do(s, Put(h));
    var i := s.handles[h].i;
    assert BufInv(s, i);
    RefsPositive(s.handles, h);
    DecrementIs(s.bufs[i].refcnt);
    forall j | j in s'.bufs ensures BufInv(s', j) {
      assert BufInv(s, j);
      RefsRemove(s.handles, h, j);
    }
  }

  lemma PutTracking(s: State, h: nat)
    requires Inv(s) && Enabled(s, Put(h))
    ensures var s' := Do(s, Put(h));
            && (forall g :: 0 <= g < |s'.handles| ==> HandleInv(s', g))
            && OneHolder(s'.handles) && PinnedCached(s') && DirtyTracked(s')
  {
    hide Refs, Permutation, UniqueKeys, Pin;
    var s' := Do(s, Put(h));
    assert s'.bufs.Keys == s.bufs.Keys;
    forall g | 0 <= g < |s'.handles| ensures HandleInv(s', g) {
      assert HandleInv(s, if g < h then g else g + 1);
    }
    forall c | c in s'.pinned ensures Cached(s', c) { CachedKept(s, s', c); }
    forall c | 0 <= c < |s'.disk| && s'.view[c] != s'.disk[c] ensures c in s'.pinned || InHand(s', c) {
      if c !in s.pinned {
        var g :| 0 <= g < |s.handles| && s.handles[g].phase == Locked(true)
                 && s.handles[g].i in s.bufs && Holds(s.bufs[s.handles[g].i], ROOTDEV, c);
        assert s'.handles[if g < h then g else g - 1] == s.handles[g];
      }
    }
  }

  lemma Step(s: State, a: Action)
    requires Inv(s) && Enabled(s, a)
    ensures Inv(Do(s, a))
  {
    match a
    case Get(b) => StepGet(s, b);
    case Lock(h) => StepPhase(s, h, Locked(false));
    case Fill(h) => StepFill(s, h);
    case Modify(h, data) => StepModify(s, h, data);
    case LogWrite(h) => StepLogWrite(s, h);
    case Bwrite(h) => StepBwrite(s, h);
    case Unpin(h) => StepUnpin(s, h);
    case Unlock(h) => StepPhase(s, h, Released);
    case Put(h) => StepPut(s, h);
  }

  lemma {:induction false} RunInv(s: State, acts: seq<Action>)
    requires Inv(s) && ValidRun(s, acts)
    ensures Inv(Run(s, acts))
    decreases |acts|
  {
    if |acts| > 0 {
      Step(s, acts[0]);
      RunInv(Do(s, acts[0]), acts[1..]);
    }
  }

  lemma InitInv(s: State)
    requires Init(s)
    ensures Inv(s)
  {
    forall i | i in s.bufs ensures BufInv(s, i) {}
  }

  /**
   The cache agrees with the logical disk: after any run from an empty log the LRU list is a
   permutation of the buffers, no block has two buffers, and a process that holds a buffer has one
   for the block it asked for and, once bread has filled it, sees the contents last stored there.
   */
  lemma CacheAgrees(s0: State, acts: seq<Action>, h: nat)
    requires Init(s0) && ValidRun(s0, acts) && Holding(Run(s0, acts), h)
    ensures Permutation(Run(s0, acts).lru, Run(s0, acts).bufs.Keys) && Agrees(Run(s0, acts), h)
  {
    InitInv(s0);
    RunInv(s0, acts);
    InvAgrees(Run(s0, acts), h);
  }

  /** What a process that holds a buffer relies on. */
  ghost predicate Agrees(s: State, h: nat)
    requires Holding(s, h)
  {
    var b, blockno := BufOf(s, h), s.handles[h].blockno;
    && Holds(b, ROOTDEV, blockno) && blockno < |s.view|
    && (b.valid ==> b.data == s.view[blockno])
    && (!b.valid ==> |s.disk| == |s.view| && s.disk[blockno] == s.view[blockno])
    && forall j :: j in s.bufs && Holds(s.bufs[j], ROOTDEV, blockno) ==> j == s.handles[h].i
  }

  lemma InvAgrees(s: State, h: nat)
    requires Inv(s) && Holding(s, h)
    ensures Agrees(s, h)
  {
    Referenced(s);
    assert BufInv(s, s.handles[h].i) && HandleInv(s, h);
    if !BufOf(s, h).valid { InvalidIsClean(s, s.handles[h].i); }
  }

  /** An invalid buffer's block has not changed since it was last on the disk. */
  lemma InvalidIsClean(s: State, i: nat)
    requires Inv(s) && i in s.bufs && s.bufs[i].dev != 0 && !s.bufs[i].valid
    ensures s.bufs[i].blockno < |s.disk| == |s.view| && s.disk[s.bufs[i].blockno] == s.view[s.bufs[i].blockno]
  {
    var b := s.bufs[i].blockno;
    assert BufInv(s, i);
    assert b in s.pinned ==> Cached(s, b);
    forall g | 0 <= g < |s.handles| && s.handles[g].phase == Locked(true)
      ensures s.handles[g].i in s.bufs && !Holds(s.bufs[s.handles[g].i], ROOTDEV, b)
    {
      assert HandleInv(s, g);
    }
    assert !InHand(s, b);
  }

  /**
   A logged but not yet installed block stays in the cache, and a buffer that bget recycles holds
   nothing that the disk does not have.
   */
  lemma RecyclingLosesNothing(s0: State, acts: seq<Action>, blockno: nat)
    requires Init(s0) && ValidRun(s0, acts) && Enabled(Run(s0, acts), Get(blockno))
    ensures var s := Run(s0, acts);
            && (forall b :: b in s.pinned ==> Cached(s, b) && Cached(Do(s, Get(blockno)), b))
            && (Pick(s.bufs, s.lru, ROOTDEV, blockno).Recycled? ==>
                  var v := s.bufs[Pick(s.bufs, s.lru, ROOTDEV, blockno).i];
                  v.dev != 0 ==> v.blockno !in s.pinned
                                 && v.blockno < |s.view| == |s.disk| && s.view[v.blockno] == s.disk[v.blockno])
  {
    InitInv(s0);
    RunInv(s0, acts);
    var s := Run(s0, acts);
    StepGet(s, blockno);
    var g := Pick(s.bufs, s.lru, ROOTDEV, blockno);
    if g.Recycled? {
      CleanIfUnused(s, g.i);
      assert BufInv(s, g.i);
      assert s.bufs[g.i].dev != 0 ==> !InHand(s, s.bufs[g.i].blockno);
    }
  }

  // ---------------------------------------------------------------- the code

  /** brelse's six assignments: unlink, then insert after the head. */
  lemma MoveRing(next: map<nat, nat>, prev: map<nat, nat>, h: nat, s: seq<nat>, i: nat)
    requires Ring(next, prev, h, s) && i in s
    ensures i in next && i in prev
    ensures var next1, prev1 := next[prev[i] := next[i]], prev[next[i] := prev[i]];
            && h in next1
            && Ring(next1[i := next1[h]][h := i], prev1[i := h][next1[h] := i], h, MoveToFront(s, i))
  {
    var k := Index(s, i);
    UnlinkRing(next, prev, h, s, k);
    WithoutContents(s, k);
    PushRing(UnlinkNext(next, prev, i), UnlinkPrev(next, prev, i), h, Without(s, k), i);
  }

  class Cache {
    const head: nat
    var bufs: Bufs
    var next: map<nat, nat>
    var prev: map<nat, nat>
    var locked: set<nat>         // buffers whose sleep-lock is held
    var disk: seq<Block>
    ghost var lru: seq<nat>      // from head.next, the most recently used, to head.prev

    ghost predicate Valid()
      reads this
    {
      && Ring(next, prev, head, lru)
      && Permutation(lru, bufs.Keys)
      && forall i :: i in bufs ==> bufs[i].refcnt < UINT32
    }

    /** binit: the buffers have addresses 1 to nbuf. */
    constructor (nbuf: nat, disk: seq<Block>)
      ensures Valid() && this.disk == disk && locked == {}
      ensures forall i :: i in bufs <==> 1 <= i <= nbuf
      ensures forall i :: i in bufs ==> !bufs[i].valid && bufs[i].dev == 0 && bufs[i].refcnt == 0
    {
      head := nbuf + 1;
      this.disk := disk;
      bufs, lru, locked := map[], [], {};
      next, prev := map[nbuf + 1 := nbuf + 1], map[nbuf + 1 := nbuf + 1];
      new;
      assert Linked(next, prev, head, lru, 0);
      var b := 1;
      while b <= nbuf
        invariant 1 <= b <= nbuf + 1
        invariant Ring(next, prev, head, lru)
        invariant forall x :: x in lru <==> 1 <= x < b
        invariant forall x :: x in bufs <==> 1 <= x < b
        invariant forall i :: i in bufs ==> !bufs[i].valid && bufs[i].dev == 0 && bufs[i].refcnt == 0
        invariant this.disk == disk && locked == {}
      {
        Neighbours(next, prev, head, lru, head);
        PushRing(next, prev, head, lru, b);
        bufs := bufs[b := Buf(false, 0, 0, 0, [])];
        var first := next[head];
        next := next[b := first];
        prev := prev[b := head];
        prev := prev[first := b];
        next := next[head := b];
        lru := [b] + lru;
        b := b + 1;
      }
    }

    /** bget; when the pick is not NoBuffers, it returns with the picked buffer's sleep-lock held. */
    method Bget(dev: nat, blockno: nat) returns (g: Got)
      requires Valid()
      requires var p := Pick(bufs, lru, dev, blockno); !p.NoBuffers? ==> p.i !in locked
      modifies `bufs, `locked
      ensures Valid() && g == Pick(old(bufs), lru, dev, blockno)
      ensures bufs == AfterGet(old(bufs), g, dev, blockno)
      ensures locked == if g.NoBuffers? then old(locked) else old(locked) + {g.i}
    {
      var found, b := Search(dev, blockno);
      if found {
        bufs := bufs[b := bufs[b].(refcnt := (bufs[b].refcnt + 1) % UINT32)];
        locked := locked + {b};
        return Hit(b);
      }
      found, b := Victim();
      if found {
        bufs := bufs[b := bufs[b].(dev := dev, blockno := blockno, valid := false, refcnt := 1)];
        locked := locked + {b};
        return Recycled(b);
      }
      g := NoBuffers;
    }

    /** bget's first loop: the first buffer of the list that holds the block. */
    method Search(dev: nat, blockno: nat) returns (found: bool, b: nat)
      requires Valid()
      ensures var h := FindFrom(bufs, lru, dev, blockno, 0); found == (h < |lru|) && (found ==> b == lru[h])
    {
      ghost var k := 0;
      assert Linked(next, prev, head, lru, 0);
      b := next[head];
      while b != head
        invariant 0 <= k <= |lru| && b == At(head, lru, k + 1)
        invariant FindFrom(bufs, lru, dev, blockno, 0) == FindFrom(bufs, lru, dev, blockno, k)
        invariant b == head <==> k == |lru|
        decreases |lru| - k
      {
        assert lru[k] == b;
        if bufs[b].dev == dev && bufs[b].blockno == blockno {
          return true, b;
        }
        assert Linked(next, prev, head, lru, k + 1);
        b := next[b];
        k := k + 1;
      }
      found := false;
    }

    /** bget's second loop: the last buffer of the list that nobody references. */
    method Victim() returns (found: bool, b: nat)
      requires Valid()
      ensures var v := VictimBelow(bufs, lru, |lru|); found == (v < |lru|) && (found ==> b == lru[v])
    {
      ghost var k := |lru|;
      assert Linked(next, prev, head, lru, |lru|);
      b := prev[head];
      while b != head
        invariant 0 <= k <= |lru| && b == At(head, lru, k)
        invariant VictimBelow(bufs, lru, |lru|) == VictimBelow(bufs, lru, k)
        invariant b == head <==> k == 0
        decreases k
      {
        assert lru[k - 1] == b;
        if bufs[b].refcnt == 0 {
          return true, b;
        }
        assert Linked(next, prev, head, lru, k - 1);
        b := prev[b];
        k := k - 1;
      }
      found := false;
    }

    method Bread(dev: nat, blockno: nat) returns (g: Got)
      requires Valid() && blockno < |disk|
      requires var p := Pick(bufs, lru, dev, blockno); !p.NoBuffers? ==> p.i !in locked
      modifies `bufs, `locked
      ensures Valid() && g == Pick(old(bufs), lru, dev, blockno)
      ensures !g.NoBuffers? ==>
                var b := AfterGet(old(bufs), g, dev, blockno)[g.i];
                && Holds(b, dev, blockno)
                && bufs == AfterGet(old(bufs), g, dev, blockno)
                             [g.i := b.(valid := true, data := if b.valid then b.data else disk[blockno])]
                && locked == old(locked) + {g.i}
    {
      g := Bget(dev, blockno);
      if !g.NoBuffers? && !bufs[g.i].valid {
        bufs := bufs[g.i := bufs[g.i].(data := disk[bufs[g.i].blockno], valid := true)];
      }
    }

    method Bwrite(i: nat) returns (panic: bool)
      requires i in bufs && bufs[i].blockno < |disk|
      modifies `disk
      ensures panic == (i !in locked)
      ensures disk == if panic then old(disk) else old(disk)[bufs[i].blockno := bufs[i].data]
    {
      if i !in locked { return true; }
      disk := disk[bufs[i].blockno := bufs[i].data];
      panic := false;
    }

    /** The list surgery at the end of brelse. */
    method Touch(i: nat)
      requires Valid() && i in bufs
      modifies `next, `prev, `lru
      ensures Valid() && lru == MoveToFront(old(lru), i)
    {
      hide Ring, MoveToFront;
      MoveRing(next, prev, head, lru, i);
      MoveKeepsPermutation(lru, i, bufs.Keys);
      var p, n := prev[i], next[i];
      prev := prev[n := p];
      next := next[p := n];
      var first := next[head];
      next := next[i := first];
      prev := prev[i := head];
      prev := prev[first := i];
      next := next[head := i];
      lru := MoveToFront(lru, i);
    }

    method Brelse(i: nat) returns (panic: bool)
      requires Valid() && i in bufs
      modifies `bufs, `locked, `next, `prev, `lru
      ensures Valid() && panic == (i !in old(locked))
      ensures panic ==> bufs == old(bufs) && lru == old(lru) && locked == old(locked)
      ensures !panic ==>
                && locked == old(locked) - {i}
                && bufs == old(bufs)[i := old(bufs)[i].(refcnt := Decrement(old(bufs)[i].refcnt))]
                && lru == if bufs[i].refcnt == 0 then MoveToFront(old(lru), i) else old(lru)
    {
      hide Ring, Permutation, MoveToFront;
      if i !in locked { return true; }
      locked := locked - {i};
      var r: nat := (bufs[i].refcnt + UINT32 - 1) % UINT32;
      bufs := bufs[i := bufs[i].(refcnt := r)];
      assert bufs.Keys == old(bufs).Keys;
      if r == 0 {
        Touch(i);
      }
      panic := false;
    }

    method Bpin(i: nat)
      requires i in bufs
      modifies `bufs
      ensures bufs == old(bufs)[i := old(bufs)[i].(refcnt := Increment(old(bufs)[i].refcnt))]
    {
      bufs := bufs[i := bufs[i].(refcnt := (bufs[i].refcnt + 1) % UINT32)];
    }

    method Bunpin(i: nat)
      requires i in bufs
      modifies `bufs
      ensures bufs == old(bufs)[i := old(bufs)[i].(refcnt := Decrement(old(bufs)[i].refcnt))]
    {
      bufs := bufs[i := bufs[i].(refcnt := (bufs[i].refcnt + UINT32 - 1) % UINT32)];
    }

    /**
     What install_trans does with a destination block: bread, overwrite, bwrite, bunpin, brelse.
     The buffer ends with one reference less than it had; for a block that was not pinned, as on
     the recovery path, the counter wraps.
     */
    method InstallBlock(blockno: nat, data: Block) returns (g: Got)
      requires Valid() && blockno < |disk|
      requires var p := Pick(bufs, lru, ROOTDEV, blockno); !p.NoBuffers? ==> p.i !in locked
      modifies this
      ensures Valid() && g == Pick(old(bufs), old(lru), ROOTDEV, blockno)
      ensures !g.NoBuffers? ==>
                && g.i in bufs && g.i in old(bufs)
                && disk == old(disk)[blockno := data]
                && locked == old(locked)
                && Holds(bufs[g.i], ROOTDEV, blockno)
                && bufs[g.i].refcnt == if g.Hit? && old(bufs)[g.i].refcnt > 0 then old(bufs)[g.i].refcnt - 1
                                       else UINT32 - 1
    {
      hide Pick, Ring, Permutation, Decrement, Increment;
      g := Bread(ROOTDEV, blockno);
      if !g.NoBuffers? {
        IncrementIs(old(bufs)[g.i].refcnt);
        WriteBack(g.i, data);
      }
    }

    method WriteBack(i: nat, data: Block)
      requires Valid() && i in bufs && i in locked && bufs[i].blockno < |disk|
      modifies this
      ensures Valid() && locked == old(locked) - {i} && disk == old(disk)[old(bufs)[i].blockno := data]
      ensures i in bufs
      ensures var r := old(bufs)[i].refcnt;
              bufs[i] == old(bufs)[i].(data := data, refcnt := if r > 1 then r - 2 else UINT32 + r - 2)
    {
      hide Decrement;
      ghost var r := bufs[i].refcnt;
      bufs := bufs[i := bufs[i].(data := data)];
      assert bufs.Keys == old(bufs).Keys;
      var panic := Bwrite(i);
      DecrementIs(r);
      DecrementIs(Decrement(r));
      Bunpin(i);
      panic := Brelse(i);
    }
  }
}
