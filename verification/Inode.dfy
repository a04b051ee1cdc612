/**
 Blocks, inodes and file contents (kernel/fs/fs.c). A file's bytes are found through
 direct block numbers in the inode and, past the first twelve, through an indirect
 block of 32-bit numbers. What is proved is that every block belongs to at most one
 place in one inode, so that the files behave as separate byte arrays.

 The state is the logical disk that the buffer cache shows; in-memory inodes agree
 with it. Each operation runs inside a transaction.
 */
module InodeLayer {
  import opened Common

  const BSIZE: nat := 1024
  const BPB: nat := 8192
  const NDIRECT: nat := 12
  const NINDIRECT: nat := 256
  const MAXFILE: nat := 268
  const U32: nat := 0x1_0000_0000

  /** addrs[NDIRECT] is the indirect block. */
  datatype Inode = Inode(addrs: seq<nat>, size: nat)

  /** The free-block bitmap, the blocks and the inodes. */
  datatype State = State(used: seq<bool>, blocks: seq<seq<Byte>>, inodes: seq<Inode>)

  // ---------------------------------------------------------------- words in an indirect block

  function Word4(a: int, b: int, c: int, d: int): int { a + 0x100 * b + 0x1_0000 * c + 0x100_0000 * d }

  function Word(b: seq<Byte>, j: nat): (r: nat)
    requires |b| == BSIZE && j < NINDIRECT
  {
    Word4(b[4 * j], b[4 * j + 1], b[4 * j + 2], b[4 * j + 3])
  }

  function PutWord(b: seq<Byte>, j: nat, v: nat): (r: seq<Byte>)
    requires |b| == BSIZE && j < NINDIRECT
    ensures |r| == BSIZE
  {
    b[4 * j := v % 256][4 * j + 1 := v / 0x100 % 256]
     [4 * j + 2 := v / 0x1_0000 % 256][4 * j + 3 := v / 0x100_0000 % 256]
  }

  lemma Digits(v: nat)
    requires v < U32
    ensures Word4(v % 256, v / 0x100 % 256, v / 0x1_0000 % 256, v / 0x100_0000 % 256) == v
  {
    assert v / 0x1_0000 == v / 0x100 / 256 && v / 0x100_0000 == v / 0x1_0000 / 256;
    assert v / 0x100_0000 < 256;
  }

  lemma WordPut(b: seq<Byte>, j: nat, v: nat, i: nat)
    requires |b| == BSIZE && j < NINDIRECT && i < NINDIRECT && v < U32
    ensures Word(PutWord(b, j, v), i) == if i == j then v else Word(b, i)
  {
    Digits(v);
  }

  function ZeroBlock(): (r: seq<Byte>)
    ensures |r| == BSIZE && forall i :: 0 <= i < BSIZE ==> r[i] == 0
  {
    seq(BSIZE, i => 0)
  }

  // ---------------------------------------------------------------- references

  /** A state of the right shape: block numbers fit 32 bits, inodes have thirteen addresses and legal sizes. */
  predicate Shape(s: State) {
    && |s.used| == |s.blocks| <= U32
    && (forall b :: 0 <= b < |s.blocks| ==> |s.blocks[b]| == BSIZE)
    && (forall i :: 0 <= i < |s.inodes| ==> |s.inodes[i].addrs| == NDIRECT + 1 && s.inodes[i].size <= MAXFILE * BSIZE)
  }

  const NREFS: nat := 269

  /** An inode's references: its thirteen addresses, then the words of its indirect block. 0 is none. */
  function Ref(s: State, i: nat, k: nat): nat
    requires Shape(s) && i < |s.inodes| && k < NREFS
  {
    var addrs := s.inodes[i].addrs;
    if k <= NDIRECT then addrs[k]
    else if addrs[NDIRECT] == 0 || addrs[NDIRECT] >= |s.blocks| then 0
    else Word(s.blocks[addrs[NDIRECT]], k - NDIRECT - 1)
  }

  /** The reference to a file's nth block. */
  function Slot(n: nat): (k: nat)
    requires n < MAXFILE
    ensures k < NREFS && k != NDIRECT
  {
    if n < NDIRECT then n else n + 1
  }

  /** Every reference is to a block that is marked in use. */
  predicate RefsUsed(s: State)
    requires Shape(s)
  {
    forall i: nat, k: nat {:trigger Ref(s, i, k)} :: i < |s.inodes| && k < NREFS && Ref(s, i, k) != 0 ==>
      Ref(s, i, k) < |s.used| && s.used[Ref(s, i, k)]
  }

  /** No block is referred to twice. */
  predicate RefsApart(s: State)
    requires Shape(s)
  {
    forall i: nat, k: nat, j: nat, l: nat {:trigger Ref(s, i, k), Ref(s, j, l)} ::
      i < |s.inodes| && k < NREFS && j < |s.inodes| && l < NREFS && Ref(s, i, k) == Ref(s, j, l) != 0 ==>
        i == j && k == l
  }

  /** The blocks up to a file's size are there. */
  predicate NoHoles(s: State)
    requires Shape(s)
  {
    forall i: nat, n: nat {:trigger Ref(s, i, Slot(n))} ::
        i < |s.inodes| && n < MAXFILE && n * BSIZE < s.inodes[i].size ==>
      Ref(s, i, Slot(n)) != 0
  }

  /** Block 0, the boot block, is never free. */
  predicate BootUsed(s: State) { |s.used| > 0 && s.used[0] }

  predicate Inv(s: State) {
    Shape(s) && BootUsed(s) && RefsUsed(s) && RefsApart(s) && NoHoles(s)
  }

  /** A byte of a file. */
  function ByteOf(s: State, i: nat, a: nat): Byte
    requires Shape(s) && i < |s.inodes| && a < MAXFILE * BSIZE
  {
    var b := Ref(s, i, Slot(a / BSIZE));
    if b < |s.blocks| then s.blocks[b][a % BSIZE] else 0
  }

  /** A file's contents. */
  function Content(s: State, i: nat): (r: seq<Byte>)
    requires Shape(s) && i < |s.inodes|
    ensures |r| == s.inodes[i].size
  {
    seq(s.inodes[i].size, a requires 0 <= a < s.inodes[i].size => ByteOf(s, i, a))
  }

  /** The references there are, and the bytes of their blocks, are as they were. */
  predicate Kept(s: State, s': State)
    requires Shape(s) && Shape(s')
  {
    && |s'.inodes| == |s.inodes| && |s'.used| == |s.used|
    && (forall i :: 0 <= i < |s.inodes| ==> s'.inodes[i].size == s.inodes[i].size)
    && (forall i: nat, k: nat {:trigger Ref(s', i, k)} :: i < |s.inodes| && k < NREFS && Ref(s, i, k) != 0 ==>
        Ref(s', i, k) == Ref(s, i, k))
    && (forall i: nat, a: nat {:trigger ByteOf(s', i, a)} ::
          i < |s.inodes| && a < MAXFILE * BSIZE && Ref(s, i, Slot(a / BSIZE)) != 0 ==>
              ByteOf(s', i, a) == ByteOf(s, i, a))
  }

  lemma KeptTrans(s0: State, s1: State, s2: State)
    requires Shape(s0) && Shape(s1) && Shape(s2) && Kept(s0, s1) && Kept(s1, s2)
    ensures Kept(s0, s2)
  {
    hide Ref, ByteOf, Slot;
    forall i: nat, k: nat | i < |s0.inodes| && k < NREFS && Ref(s0, i, k) != 0 ensures Ref(s2, i, k) == Ref(s0, i, k) {
      assert Ref(s1, i, k) == Ref(s0, i, k);
    }
    forall i: nat, a: nat | i < |s0.inodes| && a < MAXFILE * BSIZE && Ref(s0, i, Slot(a / BSIZE)) != 0
      ensures ByteOf(s2, i, a) == ByteOf(s0, i, a)
    {
      assert Ref(s1, i, Slot(a / BSIZE)) == Ref(s0, i, Slot(a / BSIZE));
      assert ByteOf(s1, i, a) == ByteOf(s0, i, a);
    }
  }

  /** So every file has the contents it had. */
  lemma KeptContent(s: State, s': State, i: nat)
    requires Inv(s) && Shape(s') && Kept(s, s') && i < |s.inodes|
    ensures Content(s', i) == Content(s, i)
  {
    hide Ref, ByteOf, Slot;
    forall a: nat | a < s.inodes[i].size ensures ByteOf(s', i, a) == ByteOf(s, i, a) {
      InFile(s, i, a);
    }
  }

  /** A byte of a file is in a block. */
  lemma InFile(s: State, i: nat, a: nat)
    requires Inv(s) && i < |s.inodes| && a < s.inodes[i].size
    ensures a / BSIZE < MAXFILE && Ref(s, i, Slot(a / BSIZE)) != 0
  {
    hide Ref, RefsApart, RefsUsed;
    assert a / BSIZE * BSIZE <= a;
  }

  // ---------------------------------------------------------------- allocating a block for a reference

  /** A reference, until now none, becomes a zeroed block that was free; nothing else an inode can see changes. */
  predicate Attached(s: State, s': State, i: nat, k: nat, b: nat)
    requires Shape(s) && Shape(s') && i < |s.inodes| && k < NREFS
  {
    && |s'.inodes| == |s.inodes| && |s'.used| == |s.used|
    && 0 < b < |s.used| && !s.used[b] && s'.used == s.used[b := true]
    && Ref(s, i, k) == 0
    && (forall j: nat, l: nat {:trigger Ref(s', j, l)} :: j < |s.inodes| && l < NREFS ==>
          Ref(s', j, l) == if j == i && l == k then b else Ref(s, j, l))
    && (forall j :: 0 <= j < |s.inodes| ==> s'.inodes[j].size == s.inodes[j].size)
    && (forall c {:trigger s'.blocks[c]} :: 0 <= c < |s.blocks| && c != b && c != s.inodes[i].addrs[NDIRECT] ==>
        s'.blocks[c] == s.blocks[c])
  }

  lemma AttachInv(s: State, s': State, i: nat, k: nat, b: nat)
    requires Inv(s) && Shape(s') && i < |s.inodes| && k < NREFS && Attached(s, s', i, k, b)
    ensures Inv(s')
  {
    hide Ref, Shape;
    ShapeSizes(s);
    ShapeSizes(s');
    forall j: nat, n: nat | j < |s'.inodes| && n < MAXFILE && n * BSIZE < s'.inodes[j].size
      ensures Ref(s', j, Slot(n)) != 0
    {
      assert Ref(s, j, Slot(n)) != 0;
    }
  }

  lemma ShapeSizes(s: State)
    requires Shape(s)
    ensures |s.used| == |s.blocks|
  {
  }

  lemma AttachKept(s: State, s': State, i: nat, k: nat, b: nat)
    requires Inv(s) && Shape(s') && i < |s.inodes| && k < NREFS && Attached(s, s', i, k, b)
    ensures Kept(s, s')
  {
    hide Ref, RefsApart, Slot;
    forall j: nat, a: nat | j < |s.inodes| && a < MAXFILE * BSIZE && Ref(s, j, Slot(a / BSIZE)) != 0
      ensures ByteOf(s', j, a) == ByteOf(s, j, a)
    {
      var c := Ref(s, j, Slot(a / BSIZE));
      assert c < |s.used| && s.used[c];
      assert Ref(s', j, Slot(a / BSIZE)) == c;
      NotIndirect(s, i, j, Slot(a / BSIZE));
      assert s'.blocks[c] == s.blocks[c];
    }
  }

  /** A file's data block is no inode's indirect block. */
  lemma NotIndirect(s: State, i: nat, j: nat, k: nat)
    requires Shape(s) && RefsApart(s) && i < |s.inodes| && j < |s.inodes| && k < NREFS && k != NDIRECT
    requires Ref(s, j, k) != 0
    ensures Ref(s, j, k) != s.inodes[i].addrs[NDIRECT]
  {
    assert Ref(s, i, NDIRECT) == s.inodes[i].addrs[NDIRECT];
  }

  /** balloc's effect on the blocks. */
  function WithBlock(s: State, b: nat): (r: State)
    requires Shape(s) && b < |s.used|
    ensures Shape(r) && |r.blocks| == |s.blocks| && r.inodes == s.inodes
  {
    s.(used := s.used[b := true], blocks := s.blocks[b := ZeroBlock()])
  }

  function SetAddr(s: State, i: nat, k: nat, b: nat): (r: State)
    requires Shape(s) && i < |s.inodes| && k <= NDIRECT
    ensures Shape(r)
  {
    var addrs: seq<nat> := s.inodes[i].addrs[k := b];
    s.(inodes := s.inodes[i := s.inodes[i].(addrs := addrs)])
  }

  function SetIndirect(s: State, i: nat, k: nat, b: nat): (r: State)
    requires Shape(s) && i < |s.inodes| && NDIRECT < k < NREFS && s.inodes[i].addrs[NDIRECT] < |s.blocks|
    ensures Shape(r)
  {
    var x := s.inodes[i].addrs[NDIRECT];
    s.(blocks := s.blocks[x := PutWord(s.blocks[x], k - NDIRECT - 1, b)])
  }

  lemma ZeroWord(j: nat)
    requires j < NINDIRECT
    ensures Word(ZeroBlock(), j) == 0
  {
  }

  lemma AttachAddrRef(s: State, i: nat, k: nat, b: nat, j: nat, l: nat)
    requires Inv(s) && i < |s.inodes| && k <= NDIRECT && Ref(s, i, k) == 0 && b < |s.used| && !s.used[b]
    requires j < |s.inodes| && l < NREFS
    ensures Ref(SetAddr(WithBlock(s, b), i, k, b), j, l) == if j == i && l == k then b else Ref(s, j, l)
  {
    hide Word, ZeroBlock, RefsApart, NoHoles;
    assert Ref(s, j, NDIRECT) == s.inodes[j].addrs[NDIRECT];
    if l > NDIRECT {
      ZeroWord(l - NDIRECT - 1);
    }
  }

  lemma AttachAddr(s: State, i: nat, k: nat, b: nat)
    requires Inv(s) && i < |s.inodes| && k <= NDIRECT && Ref(s, i, k) == 0 && b < |s.used| && !s.used[b]
    ensures Attached(s, SetAddr(WithBlock(s, b), i, k, b), i, k, b)
  {
    hide RefsApart, RefsUsed, NoHoles, Ref;
    var s' := SetAddr(WithBlock(s, b), i, k, b);
    forall j: nat, l: nat | j < |s.inodes| && l < NREFS
      ensures Ref(s', j, l) == if j == i && l == k then b else Ref(s, j, l)
    {
      AttachAddrRef(s, i, k, b, j, l);
    }
  }

  lemma AttachWordRef(s: State, i: nat, k: nat, b: nat, j: nat, l: nat)
    requires Inv(s) && i < |s.inodes| && NDIRECT < k < NREFS && Ref(s, i, NDIRECT) != 0 && Ref(s, i, k) == 0
    requires b < |s.used| && !s.used[b]
    requires j < |s.inodes| && l < NREFS
    ensures s.inodes[i].addrs[NDIRECT] < |s.blocks|
    ensures Ref(SetIndirect(WithBlock(s, b), i, k, b), j, l) == if j == i && l == k then b else Ref(s, j, l)
  {
    hide Word, ZeroBlock, PutWord, NoHoles;
    assert Ref(s, i, NDIRECT) == s.inodes[i].addrs[NDIRECT];
    assert Ref(s, j, NDIRECT) == s.inodes[j].addrs[NDIRECT];
    if l > NDIRECT {
      WordPut(s.blocks[s.inodes[i].addrs[NDIRECT]], k - NDIRECT - 1, b, l - NDIRECT - 1);
    }
  }

  lemma AttachWord(s: State, i: nat, k: nat, b: nat)
    requires Inv(s) && i < |s.inodes| && NDIRECT < k < NREFS && Ref(s, i, NDIRECT) != 0 && Ref(s, i, k) == 0
    requires b < |s.used| && !s.used[b]
    ensures s.inodes[i].addrs[NDIRECT] < |s.blocks|
    ensures Attached(s, SetIndirect(WithBlock(s, b), i, k, b), i, k, b)
  {
    hide RefsApart, RefsUsed, NoHoles, Ref, PutWord;
    AttachWordRef(s, i, k, b, 0, 0);
    var s' := SetIndirect(WithBlock(s, b), i, k, b);
    forall j: nat, l: nat | j < |s.inodes| && l < NREFS
      ensures Ref(s', j, l) == if j == i && l == k then b else Ref(s, j, l)
    {
      AttachWordRef(s, i, k, b, j, l);
    }
    BootFree(s, b);
  }

  lemma BootFree(s: State, b: nat)
    requires Inv(s) && b < |s.used| && !s.used[b]
    ensures b > 0
  {
  }

  predicate AllUsed(used: seq<bool>) { forall b :: 0 <= b < |used| ==> used[b] }

  // ---------------------------------------------------------------- how many blocks a write needs

  function FreeSet(used: seq<bool>): set<nat> { set b: nat | b < |used| && !used[b] }

  /** The references on the way to a file's nth block. */
  function Path(n: nat): (r: set<nat>)
    requires n < MAXFILE
    ensures forall k :: k in r ==> k < NREFS
  {
    if n < NDIRECT then {n} else {NDIRECT, n + 1}
  }

  /** The references on the way to the bytes at an offset. */
  function Needed(at: nat, len: nat): (r: set<nat>)
    requires at + len <= MAXFILE * BSIZE
    ensures forall k :: k in r ==> k < NREFS
  {
    set n: nat, k: nat | n < MAXFILE && k in Path(n) && len > 0 && at / BSIZE <= n <= (at + len - 1) / BSIZE :: k
  }

  /** Those of an inode's references that have no block yet. */
  function Missing(s: State, i: nat, refs: set<nat>): set<nat>
    requires Shape(s) && i < |s.inodes| && forall k :: k in refs ==> k < NREFS
  {
    set k | k in refs && Ref(s, i, k) == 0
  }

  /** The references have got blocks, each missing one a free one; no other reference of the inode changed. */
  predicate Filled(s: State, s': State, i: nat, refs: set<nat>)
    requires Shape(s) && Shape(s') && i < |s.inodes| == |s'.inodes| && forall k :: k in refs ==> k < NREFS
  {
    && |FreeSet(s'.used)| == |FreeSet(s.used)| - |Missing(s, i, refs)|
    && (forall k: nat {:trigger Ref(s', i, k)} :: k < NREFS ==>
        if k in refs then Ref(s', i, k) != 0 else Ref(s', i, k) == Ref(s, i, k))
  }

  lemma UseOne(used: seq<bool>, b: nat)
    requires b < |used| && !used[b]
    ensures |FreeSet(used[b := true])| == |FreeSet(used)| - 1
  {
    assert FreeSet(used[b := true]) == FreeSet(used) - {b};
  }

  lemma NoneFree(used: seq<bool>)
    ensures AllUsed(used) <==> |FreeSet(used)| == 0
  {
    if AllUsed(used) { assert FreeSet(used) == {}; }
    if |FreeSet(used)| == 0 {
      forall b | 0 <= b < |used| ensures used[b] { assert b !in FreeSet(used); }
    }
  }

  lemma MissingOne(s: State, i: nat, k: nat)
    requires Shape(s) && i < |s.inodes| && k < NREFS
    ensures |Missing(s, i, {k})| == if Ref(s, i, k) == 0 then 1 else 0
  {
    assert Missing(s, i, {k}) == if Ref(s, i, k) == 0 then {k} else {};
  }

  lemma TwoMissing(s: State, i: nat, k: nat, l: nat)
    requires Shape(s) && i < |s.inodes| && k < NREFS && l < NREFS && k != l
    ensures |Missing(s, i, {k, l})| == |Missing(s, i, {k})| + |Missing(s, i, {l})|
    ensures |Missing(s, i, {k})| == if Ref(s, i, k) == 0 then 1 else 0
  {
    hide Ref;
    MissingOne(s, i, k);
    assert Missing(s, i, {k, l}) == Missing(s, i, {k}) + Missing(s, i, {l});
  }

  lemma SecondMissing(s: State, s1: State, i: nat, k: nat, l: nat)
    requires Shape(s) && Shape(s1) && i < |s.inodes| == |s1.inodes| && k < NREFS && l < NREFS && k != l
    requires Filled(s, s1, i, {k})
    ensures |FreeSet(s1.used)| == |FreeSet(s.used)| - |Missing(s, i, {k})| && Missing(s1, i, {l}) == Missing(s, i, {l})
  {
    hide Ref;
    assert Ref(s1, i, l) == Ref(s, i, l);
  }

  /** One reference after another. */
  lemma FilledTwo(s: State, s1: State, s2: State, i: nat, k: nat, l: nat)
    requires Shape(s) && Shape(s1) && Shape(s2) && i < |s.inodes| == |s1.inodes| == |s2.inodes|
    requires k < NREFS && l < NREFS && k != l && Filled(s, s1, i, {k}) && Filled(s1, s2, i, {l})
    ensures |Missing(s, i, {k, l})| == |Missing(s, i, {k})| + |Missing(s1, i, {l})| && Filled(s, s2, i, {k, l})
  {
    hide Ref;
    assert Ref(s1, i, l) == Ref(s, i, l);
    assert Missing(s, i, {k, l}) == Missing(s, i, {k}) + Missing(s1, i, {l});
    forall m: nat | m < NREFS ensures if m in {k, l} then Ref(s2, i, m) != 0 else Ref(s2, i, m) == Ref(s, i, m) {
      assert if m == l then Ref(s2, i, m) != 0 else Ref(s2, i, m) == Ref(s1, i, m);
      assert if m == k then Ref(s1, i, m) != 0 else Ref(s1, i, m) == Ref(s, i, m);
    }
  }

  /** Filling some references takes as many free blocks as there are fewer missing. */
  lemma FilledSpare(s: State, s': State, i: nat, some: set<nat>, refs: set<nat>)
    requires Shape(s) && Shape(s') && i < |s.inodes| == |s'.inodes| && forall k :: k in refs ==> k < NREFS
    requires some <= refs && Filled(s, s', i, some)
    ensures |Missing(s, i, some)| <= |Missing(s, i, refs)|
    ensures |FreeSet(s'.used)| - |Missing(s', i, refs)| == |FreeSet(s.used)| - |Missing(s, i, refs)|
  {
    hide Ref;
    forall k | k in refs ensures Ref(s', i, k) == 0 <==> k !in some && Ref(s, i, k) == 0 { }
    assert Missing(s', i, refs) !! Missing(s, i, some);
    assert Missing(s, i, refs) == Missing(s', i, refs) + Missing(s, i, some);
  }

  lemma PathShort(s: State, i: nat, n: nat, refs: set<nat>)
    requires Shape(s) && i < |s.inodes| && n < MAXFILE && Path(n) <= refs && forall k :: k in refs ==> k < NREFS
    ensures |Missing(s, i, Path(n))| <= |Missing(s, i, refs)|
  {
    hide Ref, Path;
    CardMono(Missing(s, i, Path(n)), Missing(s, i, refs));
  }

  lemma CardMono(a: set<nat>, b: set<nat>)
    requires a <= b
    ensures |a| <= |b|
  {
    assert b == a + (b - a);
  }

  lemma PathNeeded(at: nat, len: nat, off: nat)
    requires at + len <= MAXFILE * BSIZE && at <= off < at + len
    ensures off / BSIZE < MAXFILE && Path(off / BSIZE) <= Needed(at, len)
  {
    hide Path;
  }

  lemma SpareSame(s: State, s': State, i: nat, refs: set<nat>)
    requires Shape(s) && Shape(s') && i < |s.inodes| == |s'.inodes| && forall k :: k in refs ==> k < NREFS
    requires s'.used == s.used && forall k: nat {:trigger Ref(s', i, k)} :: k < NREFS ==> Ref(s', i, k) == Ref(s, i, k)
    ensures Missing(s', i, refs) == Missing(s, i, refs)
  {
    hide Ref;
  }

  /** Once every byte's block is there, no reference is missing. */
  lemma NoneMissing(s: State, i: nat, at: nat, len: nat)
    requires Shape(s) && i < |s.inodes| && at + len <= MAXFILE * BSIZE
    requires forall a: nat :: at <= a < at + len ==> a / BSIZE < MAXFILE && Ref(s, i, Slot(a / BSIZE)) != 0
    ensures Missing(s, i, Needed(at, len)) == {}
  {
    hide Ref;
    forall k | k in Needed(at, len) ensures Ref(s, i, k) != 0 {
      var n: nat :| n < MAXFILE && k in Path(n) && len > 0 && at / BSIZE <= n <= (at + len - 1) / BSIZE;
      var a := if at > n * BSIZE then at else n * BSIZE;
      assert at <= a < at + len && a / BSIZE == n;
      assert Ref(s, i, Slot(n)) != 0;
      if n >= NDIRECT { IndirectFirst(s, i, n + 1); }
    }
  }

  // ---------------------------------------------------------------- the code

  class FileSystem {
    var used: seq<bool>
    var blocks: seq<seq<Byte>>
    var inodes: seq<Inode>
    var panicked: bool

    function View(): State
      reads this
    {
      State(used, blocks, inodes)
    }

    /** balloc: the first free block, marked and zeroed; a panic when there is none. */
    method Balloc() returns (b: nat)
      requires Shape(View()) && !panicked
      modifies this`used, this`blocks, this`panicked
      ensures panicked <==> AllUsed(old(used))
      ensures panicked ==> View() == old(View())
      ensures !panicked ==>
          b < |old(used)| && !old(used)[b] && AllUsed(old(used)[..b]) && View() == WithBlock(old(View()), b)
    {
      var first := 0;
      while first < |used|
        invariant View() == old(View()) && !panicked && AllUsed(used[..if first < |used| then first else |used|])
        decreases |used| - first
      {
        var bi: nat := 0;
        while bi < BPB && first + bi < |used|
          invariant bi <= BPB && first + bi <= |used| && View() == old(View()) && !panicked
          invariant AllUsed(used[..first + bi])
          decreases BPB - bi
        {
          if !used[first + bi] {
            b := first + bi;
            used := used[b := true];
            blocks := blocks[b := ZeroBlock()];
            return;
          }
          assert used[..first + bi + 1] == used[..first + bi] + [used[first + bi]];
          bi := bi + 1;
        }
        first := first + BPB;
      }
      assert used[..|used|] == used;
      b := 0;
      panicked := true;
    }

    /** bfree: clears a block's mark; a panic when it was clear. */
    method Bfree(b: nat)
      requires b < |used| && !panicked
      modifies this`used, this`panicked
      ensures panicked <==> !old(used)[b]
      ensures used == if panicked then old(used) else old(used)[b := false]
    {
      if !used[b] {
        panicked := true;
        return;
      }
      used := used[b := false];
    }

    /** A reference filled with a new block if it has none (the two halves of bmap). */
    method FillAddr(i: nat, k: nat)
      requires Inv(View()) && !panicked && i < |inodes| && k <= NDIRECT
      modifies this
      ensures panicked <==> Ref(old(View()), i, k) == 0 && AllUsed(old(used))
      ensures panicked ==> AllUsed(used)
      ensures Ref(old(View()), i, k) != 0 ==> View() == old(View())
      ensures !panicked ==>
          Inv(View()) && |inodes| == |old(inodes)| && Kept(old(View()), View()) && Ref(View(), i, k) != 0
      ensures !panicked ==> OnlyRef(old(View()), View(), i, k) && Filled(old(View()), View(), i, {k})
    {
      hide Inv, Kept, Attached, Ref, SetAddr, WithBlock, AllUsed, Filled, OnlyRef;
      ghost var s := View();
      InvParts(s);
      AddrIsRef(s, i, k);
      if inodes[i].addrs[k] != 0 {
        KeptRefl(s);
        FilledNone(s, i, k);
        return;
      }
      var b := Balloc();
      if panicked {
        return;
      }
      AttachAddr(s, i, k, b);
      SetAddrFields(View(), i, k, b);
      var addrs: seq<nat> := inodes[i].addrs[k := b];
      inodes := inodes[i := inodes[i].(addrs := addrs)];
      AttachInv(s, View(), i, k, b);
      AttachKept(s, View(), i, k, b);
      AttachOnly(s, View(), i, k, b);
      AttachFilled(s, View(), i, k, b);
    }

    method FillWord(i: nat, k: nat)
      requires Inv(View()) && !panicked && i < |inodes| && NDIRECT < k < NREFS && Ref(View(), i, NDIRECT) != 0
      modifies this
      ensures panicked <==> Ref(old(View()), i, k) == 0 && AllUsed(old(used))
      ensures panicked ==> AllUsed(used)
      ensures Ref(old(View()), i, k) != 0 ==> View() == old(View())
      ensures !panicked ==>
          Inv(View()) && |inodes| == |old(inodes)| && Kept(old(View()), View()) && Ref(View(), i, k) != 0
      ensures !panicked ==> OnlyRef(old(View()), View(), i, k) && Filled(old(View()), View(), i, {k})
    {
      hide Inv, Kept, Attached, Ref, SetIndirect, WithBlock, AllUsed, Word, PutWord, Filled, OnlyRef;
      ghost var s := View();
      InvParts(s);
      WordIsRef(s, i, k);
      var x := inodes[i].addrs[NDIRECT];
      if Word(blocks[x], k - NDIRECT - 1) != 0 {
        KeptRefl(s);
        FilledNone(s, i, k);
        return;
      }
      var b := Balloc();
      if panicked {
        return;
      }
      AttachWord(s, i, k, b);
      SetIndirectFields(View(), i, k, b);
      blocks := blocks[x := PutWord(blocks[x], k - NDIRECT - 1, b)];
      AttachInv(s, View(), i, k, b);
      AttachKept(s, View(), i, k, b);
      AttachOnly(s, View(), i, k, b);
      AttachFilled(s, View(), i, k, b);
    }

    /**
     bmap: the nth block of a file, allocated if there is none. No reference there was
     and no byte of a referenced block changes. It panics exactly past the largest file
     and when fewer blocks are free than are missing on the way.
     */
    method Bmap(i: nat, n: nat) returns (b: nat)
      requires Inv(View()) && !panicked && i < |inodes|
      modifies this
      ensures panicked <==> n >= MAXFILE || |FreeSet(old(used))| < |Missing(old(View()), i, Path(n))|
      ensures panicked ==> n >= MAXFILE || AllUsed(used)
      ensures !panicked ==>
          Inv(View()) && |inodes| == |old(inodes)| && Kept(old(View()), View()) && b == Ref(View(), i, Slot(n)) != 0
      ensures !panicked ==> Filled(old(View()), View(), i, Path(n))
      ensures n < MAXFILE && Ref(old(View()), i, Slot(n)) != 0 ==> !panicked && View() == old(View())
    {
      hide Inv, Kept, Ref, AllUsed, Word, OnlyRef, FreeSet, Missing, Filled;
      InvParts(View());
      NoneFree(used);
      b := 0;
      if n < NDIRECT {
        MissingOne(View(), i, n);
        FillAddr(i, n);
        if !panicked {
          InvParts(View());
          AddrIsRef(View(), i, n);
          b := inodes[i].addrs[n];
        }
        return;
      }
      if n >= MAXFILE {
        panicked := true;
        return;
      }
      ghost var s := View();
      IndirectFirst(s, i, n + 1);
      TwoMissing(s, i, NDIRECT, n + 1);
      FillAddr(i, NDIRECT);
      if panicked {
        return;
      }
      ghost var s1 := View();
      InvParts(s1);
      NoneFree(used);
      MissingOne(s1, i, n + 1);
      SecondMissing(s, s1, i, NDIRECT, n + 1);
      FillWord(i, n + 1);
      if panicked {
        return;
      }
      InvParts(View());
      FilledTwo(s, s1, View(), i, NDIRECT, n + 1);
      KeptTrans(s, s1, View());
      KeptRef(s1, View(), i, NDIRECT);
      WordIsRef(View(), i, n + 1);
      b := Word(blocks[inodes[i].addrs[NDIRECT]], n - NDIRECT);
    }

    /**
     writei: the file becomes the old one with the bytes put in at the offset, longer if
     need be, and no other file changes. It fails, changing nothing, exactly when the
     offset is past the end or the file would be too long, and panics exactly when fewer
     blocks are free than the range still needs. Only the first `good` bytes can be copied
     (all of them from the kernel): a failed copy puts these in, lets the file grow only to
     the end of the last block that was copied whole, and is not reported.
     */
    method Writei(i: nat, at: nat, src: seq<Byte>, good: nat) returns (res: int)
      requires Inv(View()) && !panicked && i < |inodes| && at < U32 && |src| < U32
      modifies this
      ensures res == if at > old(inodes)[i].size || at + |src| >= U32 || at + |src| > MAXFILE * BSIZE then -1 else |src|
      ensures res == -1 ==> !panicked && View() == old(View())
      ensures res != -1 ==>
                (panicked <==> |FreeSet(old(used))| < |Missing(old(View()), i, Needed(at, Fetched(at, |src|, good)))|)
      ensures panicked ==> AllUsed(used)
      ensures !panicked && res != -1 ==>
                && Inv(View()) && |inodes| == |old(inodes)|
                && Content(View(), i) == WrittenTo(Content(old(View()), i), at, src, good)
                && (forall j: nat :: j < |inodes| && j != i ==> Content(View(), j) == Content(old(View()), j))
    {
      hide Inv, Kept, Ref, AllUsed, Wrote, Content, ByteOf, FreeSet, Missing, Needed, WholeEnd, Fetched;
      ghost var s0 := View();
      InvParts(s0);
      if at > inodes[i].size || at + |src| >= U32 {
        return -1;
      }
      if at + |src| > MAXFILE * BSIZE {
        return -1;
      }
      res := |src|;
      var off := WriteBlocks(i, at, src, good);
      if panicked {
        return;
      }
      ghost var s3 := View();
      InvParts(s3);
      if |src| > 0 {
        if off > inodes[i].size {
          inodes := inodes[i := inodes[i].(size := off)];
        }
      }
      WroteContent(s0, s3, View(), i, at, src, good);
    }

    /** writei's loop: where it ends, and what is then in the file's blocks. */
    method WriteBlocks(i: nat, at: nat, src: seq<Byte>, good: nat) returns (off: nat)
      requires Inv(View()) && !panicked && i < |inodes| && at + |src| <= MAXFILE * BSIZE
      modifies this
      ensures panicked <==> |FreeSet(old(used))| < |Missing(old(View()), i, Needed(at, Fetched(at, |src|, good)))|
      ensures panicked ==> AllUsed(used)
      ensures !panicked ==> Inv(View()) && |inodes| == |old(inodes)| && off == WholeEnd(at, |src|, good)
      ensures !panicked ==> Wrote(old(View()), View(), i, at, src[..Least(good, |src|)])
    {
      hide Inv, Kept, Ref, AllUsed, Wrote, ByteOf, BytesSet, Splice, Slot, FreeSet, Missing, Filled, Needed, Path,
          WholeEnd, Fetched;
      ghost var s0 := View();
      InvParts(s0);
      var tot: nat, fault := 0, false;
      off := at;
      ghost var refs := Needed(at, Fetched(at, |src|, good));
      WroteNone(s0, i, at);
      while tot < |src| && !fault
        invariant Inv(View()) && !panicked && |inodes| == |s0.inodes| && Shape(View())
        invariant tot <= |src| && tot <= good && off == at + tot && (tot == 0 || off % BSIZE == 0 || tot == |src|)
        invariant fault ==> tot <= good < |src| && off == WholeEnd(at, |src|, good) && off / BSIZE < MAXFILE
        invariant Wrote(s0, View(), i, at, src[..if fault then good else tot])
        invariant fault ==> Ref(View(), i, Slot(off / BSIZE)) != 0
        invariant |FreeSet(used)| - |Missing(View(), i, refs)| == |FreeSet(s0.used)| - |Missing(s0, i, refs)|
        decreases |src| - tot, !fault
      {
        ghost var s1 := View();
        StillWithin(at, |src|, good, tot);
        PathNeeded(at, Fetched(at, |src|, good), off);
        PathShort(s1, i, off / BSIZE, refs);
        var b := Bmap(i, off / BSIZE);
        if panicked {
          return;
        }
        ghost var s2 := View();
        InvParts(s2);
        FilledSpare(s1, s2, i, Path(off / BSIZE), refs);
        var m: nat := if |src| - tot < BSIZE - off % BSIZE then |src| - tot else BSIZE - off % BSIZE;
        var k: nat := if tot + m <= good then m else good - tot;
        var bytes := src[tot..tot + k];
        WriteBytes(s2, i, off, bytes);
        blocks := blocks[b := Splice(blocks[b], off % BSIZE, bytes)];
        WriteRefs(s2, i, Slot(off / BSIZE), blocks[b]);
        SpareSame(s2, View(), i, refs);
        WroteMore(s0, s1, s2, View(), i, at, src[..tot], bytes);
        assert src[..tot + k] == src[..tot] + bytes;
        if k < m {
          StopsHere(at, |src|, good, tot, m);
          fault := true;
        } else {
          tot, off := tot + m, off + m;
        }
      }
      if fault {
        FetchedTo(s0, View(), i, at, src, good, tot);
      } else {
        assert src[..tot] == src;
        EndsAll(at, |src|, good);
        WroteAll(s0, View(), i, at, src);
      }
    }

    /**
     readi: the bytes of the file from the offset on, up to its end, and nothing changes.
     It fails exactly when the offset is past the end or the range wraps. Only the first
     `good` bytes can be copied (all of them into the kernel); a failed copy delivers these
     and is not reported.
     */
    method Readi(i: nat, at: nat, n: nat, good: nat) returns (res: int, dst: seq<Byte>)
      requires Inv(View()) && !panicked && i < |inodes| && at < U32 && n < U32
      modifies this
      ensures !panicked && View() == old(View()) && Shape(View())
      ensures at > inodes[i].size || at + n >= U32 ==> res == -1 && dst == []
      ensures at <= inodes[i].size && at + n < U32 ==>
                var end := if at + n > inodes[i].size then inodes[i].size else at + n;
                dst == Content(View(), i)[at..Least(at + good, end)] && res == end - at
    {
      hide Inv, Kept, Ref, AllUsed, ByteOf, Slot, Content, FreeSet, Missing, Filled, Path;
      ghost var s := View();
      InvParts(s);
      ContentSize(s, i);
      dst := [];
      if at > inodes[i].size || at + n >= U32 {
        return -1, [];
      }
      var end := if at + n > inodes[i].size then inodes[i].size else at + n;
      res := end - at;
      var off: nat := at;
      while off < end
        invariant View() == s && !panicked && at <= off <= end <= inodes[i].size && off <= at + good
        invariant dst == Content(s, i)[at..off]
        decreases end - off
      {
        InFile(s, i, off);
        var b := Bmap(i, off / BSIZE);
        var m: nat := if end - off < BSIZE - off % BSIZE then end - off else BSIZE - off % BSIZE;
        var k: nat := if off + m <= at + good then m else at + good - off;
        ReadBytes(s, i, off, m);
        TakeMore(Content(s, i), at, off, m, k);
        dst := dst + blocks[b][off % BSIZE..off % BSIZE + m][..k];
        if k < m {
          return;
        }
        off := off + m;
      }
    }

    /**
     itrunc: every block of the file is freed and it becomes empty; no other file
     changes, and bfree never meets a free block.
     */
    method Itrunc(i: nat)
      requires Inv(View()) && !panicked && i < |inodes|
      modifies this
      ensures !panicked && Inv(View()) && |inodes| == |old(inodes)| && |used| == |old(used)|
      ensures inodes[i].size == 0 && Content(View(), i) == []
      ensures forall k: nat :: k < NREFS ==> Ref(View(), i, k) == 0
      ensures forall j: nat :: j < |inodes| && j != i ==>
          inodes[j] == old(inodes)[j] && Content(View(), j) == Content(old(View()), j)
      ensures forall b: nat :: b < |used| ==> (used[b] <==> old(used)[b] && b !in Blocks(old(View()), i))
    {
      hide Inv, Kept, Ref, ByteOf, Slot, Content, FreedTo, Blocks, Word;
      ghost var s0 := View();
      InvParts(s0);
      FreedNone(s0, i);
      var t := 0;
      while t < NDIRECT
        invariant 0 <= t <= NDIRECT && !panicked && blocks == s0.blocks && Cleared(s0, inodes, i, t)
        invariant Freed(s0, used, i, t)
      {
        FreeOne(s0, used, i, t);
        AddrIsRef(s0, i, t);
        if inodes[i].addrs[t] != 0 {
          Bfree(inodes[i].addrs[t]);
          SetAddrTo(i, t);
        }
        t := t + 1;
      }
      AddrIsRef(s0, i, NDIRECT);
      var x := inodes[i].addrs[NDIRECT];
      if x != 0 {
        var j := 0;
        while j < NINDIRECT
          invariant 0 <= j <= NINDIRECT && !panicked && blocks == s0.blocks && Cleared(s0, inodes, i, NDIRECT)
          invariant Freed(s0, used, i, NDIRECT + j)
        {
          FreeOne(s0, used, i, NDIRECT + j);
          WordIsRef(s0, i, NDIRECT + 1 + j);
          if Word(blocks[x], j) != 0 {
            Bfree(Word(blocks[x], j));
          }
          j := j + 1;
        }
        FreeOne(s0, used, i, NREFS - 1);
        Bfree(x);
        SetAddrTo(i, NDIRECT);
      } else {
        NoIndirect(s0, used, i);
      }
      assert Cleared(s0, inodes, i, NDIRECT + 1) && Freed(s0, used, i, NREFS);
      inodes := inodes[i := inodes[i].(size := 0)];
      Truncated(s0, View(), i);
    }

    method SetAddrTo(i: nat, k: nat)
      requires i < |inodes| && k < |inodes[i].addrs|
      modifies this`inodes
      ensures |inodes| == |old(inodes)| && (forall j :: 0 <= j < |inodes| && j != i ==> inodes[j] == old(inodes)[j])
      ensures inodes[i].size == old(inodes)[i].size && inodes[i].addrs == old(inodes)[i].addrs[k := 0]
    {
      var addrs: seq<nat> := inodes[i].addrs[k := 0];
      inodes := inodes[i := inodes[i].(addrs := addrs)];
    }
  }

  lemma WordIsRef(s: State, i: nat, k: nat)
    requires Inv(s) && i < |s.inodes| && NDIRECT < k < NREFS && Ref(s, i, NDIRECT) != 0
    ensures |s.inodes[i].addrs| == NDIRECT + 1 && s.inodes[i].addrs[NDIRECT] < |s.blocks|
    ensures |s.blocks[s.inodes[i].addrs[NDIRECT]]| == BSIZE
    ensures Ref(s, i, k) == Word(s.blocks[s.inodes[i].addrs[NDIRECT]], k - NDIRECT - 1)
  {
    hide Word;
    assert Ref(s, i, NDIRECT) == s.inodes[i].addrs[NDIRECT];
  }

  lemma SetIndirectFields(s: State, i: nat, k: nat, b: nat)
    requires Shape(s) && i < |s.inodes| && NDIRECT < k < NREFS && s.inodes[i].addrs[NDIRECT] < |s.blocks|
    ensures var x := s.inodes[i].addrs[NDIRECT];
            SetIndirect(s, i, k, b) == State(s.used, s.blocks[x := PutWord(s.blocks[x], k - NDIRECT - 1, b)], s.inodes)
  {
    hide PutWord;
  }

  /** Without an indirect block there are no indirect references. */
  lemma IndirectFirst(s: State, i: nat, k: nat)
    requires Shape(s) && i < |s.inodes| && NDIRECT < k < NREFS
    ensures Ref(s, i, NDIRECT) == 0 ==> Ref(s, i, k) == 0
  {
    hide Word;
  }

  lemma KeptRef(s: State, s': State, i: nat, k: nat)
    requires Shape(s) && Shape(s') && Kept(s, s') && i < |s.inodes| && k < NREFS && Ref(s, i, k) != 0
    ensures i < |s'.inodes| && Ref(s', i, k) == Ref(s, i, k)
  {
    hide Ref, ByteOf;
  }

  /** References other than one are as they were. */
  predicate OnlyRef(s: State, s': State, i: nat, k: nat)
    requires Shape(s) && Shape(s')
  {
    |s'.inodes| == |s.inodes| &&
    forall j: nat, l: nat {:trigger Ref(s', j, l)} :: j < |s.inodes| && l < NREFS && !(j == i && l == k) ==>
        Ref(s', j, l) == Ref(s, j, l)
  }

  lemma AttachOnly(s: State, s': State, i: nat, k: nat, b: nat)
    requires Shape(s) && Shape(s') && i < |s.inodes| && k < NREFS && Attached(s, s', i, k, b)
    ensures OnlyRef(s, s', i, k) && Ref(s', i, k) == b && b != 0
  {
    hide Ref;
  }

  lemma AttachFilled(s: State, s': State, i: nat, k: nat, b: nat)
    requires Shape(s) && Shape(s') && i < |s.inodes| && k < NREFS && Attached(s, s', i, k, b)
    ensures Filled(s, s', i, {k})
  {
    hide Ref;
    UseOne(s.used, b);
    MissingOne(s, i, k);
  }

  lemma FilledNone(s: State, i: nat, k: nat)
    requires Shape(s) && i < |s.inodes| && k < NREFS && Ref(s, i, k) != 0
    ensures Filled(s, s, i, {k})
  {
    hide Ref;
    MissingOne(s, i, k);
  }

  lemma InvParts(s: State)
    requires Inv(s)
    ensures Shape(s) && |s.used| == |s.blocks| && BootUsed(s)
  {
  }

  lemma AddrIsRef(s: State, i: nat, k: nat)
    requires Shape(s) && i < |s.inodes| && k <= NDIRECT
    ensures |s.inodes[i].addrs| == NDIRECT + 1 && Ref(s, i, k) == s.inodes[i].addrs[k]
  {
  }

  lemma KeptRefl(s: State)
    requires Shape(s)
    ensures Kept(s, s) && forall i: nat, k: nat :: OnlyRef(s, s, i, k)
  {
    hide Ref, ByteOf;
  }

  lemma SetAddrFields(s: State, i: nat, k: nat, b: nat)
    requires Shape(s) && i < |s.inodes| && k <= NDIRECT
    ensures |s.inodes[i].addrs| == NDIRECT + 1
    ensures var addrs: seq<nat> := s.inodes[i].addrs[k := b];
            SetAddr(s, i, k, b) == State(s.used, s.blocks, s.inodes[i := s.inodes[i].(addrs := addrs)])
  {
  }

  // ---------------------------------------------------------------- file contents

  /** Bytes replaced in a block. */
  function Splice(block: seq<Byte>, off: nat, bytes: seq<Byte>): (r: seq<Byte>)
    requires off + |bytes| <= |block|
    ensures |r| == |block|
    ensures forall x :: 0 <= x < |block| ==> r[x] == if off <= x < off + |bytes| then bytes[x - off] else block[x]
  {
    block[..off] + bytes + block[off + |bytes|..]
  }

  function SetBlock(s: State, b: nat, block: seq<Byte>): (r: State)
    requires Shape(s) && b < |s.blocks| && |block| == BSIZE
    ensures Shape(r)
  {
    s.(blocks := s.blocks[b := block])
  }

  /** Bytes of one file, from an address on, were replaced; every other byte is as it was. */
  predicate BytesSet(s: State, s': State, i: nat, at: nat, bytes: seq<Byte>)
    requires Shape(s) && Shape(s')
  {
    && |s'.inodes| == |s.inodes|
    && (forall j: nat, a: nat {:trigger ByteOf(s', j, a)} ::
        j < |s.inodes| && a < MAXFILE * BSIZE && Ref(s, j, Slot(a / BSIZE)) != 0 ==>
          ByteOf(s', j, a) == if j == i && at <= a < at + |bytes| then bytes[a - at] else ByteOf(s, j, a))
  }

  /** Writing a data block keeps every reference. */
  lemma WriteRefs(s: State, i: nat, k: nat, block: seq<Byte>)
    requires Inv(s) && i < |s.inodes| && k < NREFS && k != NDIRECT && Ref(s, i, k) != 0 && |block| == BSIZE
    ensures Ref(s, i, k) < |s.blocks|
    ensures var s' := SetBlock(s, Ref(s, i, k), block);
            Inv(s') && forall j: nat, l: nat {:trigger Ref(s', j, l)} :: j < |s.inodes| && l < NREFS ==>
                Ref(s', j, l) == Ref(s, j, l)
  {
    hide Word;
    var b := Ref(s, i, k);
    var s' := SetBlock(s, b, block);
    forall j: nat, l: nat | j < |s.inodes| && l < NREFS ensures Ref(s', j, l) == Ref(s, j, l) {
      NotIndirect(s, j, i, k);
    }
    SameRefsInv(s, s');
  }

  lemma SameRefsInv(s: State, s': State)
    requires Inv(s) && Shape(s') && s'.used == s.used && s'.inodes == s.inodes
    requires forall j: nat, l: nat {:trigger Ref(s', j, l)} :: j < |s.inodes| && l < NREFS ==>
        Ref(s', j, l) == Ref(s, j, l)
    ensures Inv(s')
  {
    hide Ref;
    forall j: nat, n: nat | j < |s'.inodes| && n < MAXFILE && n * BSIZE < s'.inodes[j].size
      ensures Ref(s', j, Slot(n)) != 0
    {
      assert Ref(s, j, Slot(n)) != 0;
    }
  }

  lemma WriteBytes(s: State, i: nat, at: nat, bytes: seq<Byte>)
    requires Inv(s) && i < |s.inodes| && at < MAXFILE * BSIZE && at % BSIZE + |bytes| <= BSIZE
    requires Ref(s, i, Slot(at / BSIZE)) != 0
    ensures Ref(s, i, Slot(at / BSIZE)) < |s.blocks|
    ensures var b := Ref(s, i, Slot(at / BSIZE));
            |s.blocks[b]| == BSIZE && BytesSet(s, SetBlock(s, b, Splice(s.blocks[b], at % BSIZE, bytes)), i, at, bytes)
  {
    hide Splice, RefsUsed;
    var k := Slot(at / BSIZE);
    var b := Ref(s, i, k);
    WriteRefs(s, i, k, ZeroBlock());
    var block := Splice(s.blocks[b], at % BSIZE, bytes);
    var s' := SetBlock(s, b, block);
    WriteRefs(s, i, k, block);
    forall j: nat, a: nat | j < |s.inodes| && a < MAXFILE * BSIZE && Ref(s, j, Slot(a / BSIZE)) != 0
      ensures ByteOf(s', j, a) == if j == i && at <= a < at + |bytes| then bytes[a - at] else ByteOf(s, j, a)
    {
      SameBlock(a, at, |bytes|);
      assert Ref(s', j, Slot(a / BSIZE)) == Ref(s, j, Slot(a / BSIZE));
    }
  }

  lemma SameBlock(a: nat, at: nat, n: nat)
    requires at % BSIZE + n <= BSIZE
    ensures at <= a < at + n <==> a / BSIZE == at / BSIZE && at % BSIZE <= a % BSIZE < at % BSIZE + n
    ensures at <= a < at + n ==> a - at == a % BSIZE - at % BSIZE
  {
    assert a == a / BSIZE * BSIZE + a % BSIZE && at == at / BSIZE * BSIZE + at % BSIZE;
  }

  /** A file with bytes put in at an offset. */
  function Overwrite(c: seq<Byte>, at: nat, src: seq<Byte>): (r: seq<Byte>)
    requires at <= |c|
    ensures |r| == if at + |src| > |c| then at + |src| else |c|
    ensures forall a :: 0 <= a < |r| ==> r[a] == if at <= a < at + |src| then src[a - at] else c[a]
  {
    c[..at] + src + (if at + |src| < |c| then c[at + |src|..] else [])
  }

  /** writei's progress: bytes from at on are in the file's blocks, every other byte there was is as it was. */
  predicate Wrote(s0: State, s: State, i: nat, at: nat, bytes: seq<Byte>)
    requires Shape(s0) && Shape(s) && i < |s.inodes|
  {
    && |s.inodes| == |s0.inodes| && |s.used| == |s0.used|
    && (forall j :: 0 <= j < |s0.inodes| ==> s.inodes[j].size == s0.inodes[j].size)
    && (forall j: nat, k: nat {:trigger Ref(s, j, k)} :: j < |s0.inodes| && k < NREFS && Ref(s0, j, k) != 0 ==>
        Ref(s, j, k) == Ref(s0, j, k))
    && (forall j: nat, a: nat {:trigger ByteOf(s, j, a)} ::
        j < |s0.inodes| && a < MAXFILE * BSIZE && Ref(s0, j, Slot(a / BSIZE)) != 0 ==>
          ByteOf(s, j, a) == if j == i && at <= a < at + |bytes| then bytes[a - at] else ByteOf(s0, j, a))
    && (forall a: nat {:trigger ByteOf(s, i, a)} :: at <= a < at + |bytes| && a < MAXFILE * BSIZE ==>
          Ref(s, i, Slot(a / BSIZE)) != 0 && ByteOf(s, i, a) == bytes[a - at])
  }

  lemma WroteNone(s: State, i: nat, at: nat)
    requires Shape(s) && i < |s.inodes|
    ensures Wrote(s, s, i, at, [])
  {
    hide Ref, ByteOf, Slot;
  }

  lemma WroteAll(s0: State, s: State, i: nat, at: nat, bytes: seq<Byte>)
    requires Shape(s0) && Shape(s) && i < |s.inodes| && Wrote(s0, s, i, at, bytes) && at + |bytes| <= MAXFILE * BSIZE
    ensures Missing(s, i, Needed(at, |bytes|)) == {}
  {
    hide Ref, ByteOf, Slot, Missing, Needed;
    forall a: nat | at <= a < at + |bytes| ensures a / BSIZE < MAXFILE && Ref(s, i, Slot(a / BSIZE)) != 0 {
      assert ByteOf(s, i, a) == bytes[a - at];
    }
    NoneMissing(s, i, at, |bytes|);
  }

  lemma BlockBound(off: nat, end: nat)
    requires off < end <= MAXFILE * BSIZE
    ensures off / BSIZE < MAXFILE
  {
  }

  lemma WroteMore(s0: State, s1: State, s2: State, s3: State, i: nat, at: nat, a: seq<Byte>, b: seq<Byte>)
    requires Shape(s0) && Shape(s1) && Shape(s2) && Shape(s3) && i < |s1.inodes| && i < |s2.inodes|
    requires Wrote(s0, s1, i, at, a) && Kept(s1, s2) && at + |a| < MAXFILE * BSIZE && (at + |a|) % BSIZE + |b| <= BSIZE
    requires Ref(s2, i, Slot((at + |a|) / BSIZE)) != 0 && BytesSet(s2, s3, i, at + |a|, b)
        && s3.inodes == s2.inodes && |s3.used| == |s2.used|
    requires forall j: nat, k: nat {:trigger Ref(s3, j, k)} :: j < |s2.inodes| && k < NREFS ==>
        Ref(s3, j, k) == Ref(s2, j, k)
    ensures Wrote(s0, s3, i, at, a + b)
  {
    hide Ref, ByteOf, Slot;
    forall j: nat, k: nat | j < |s0.inodes| && k < NREFS && Ref(s0, j, k) != 0 ensures Ref(s3, j, k) == Ref(s0, j, k) {
      assert Ref(s1, j, k) == Ref(s0, j, k);
      assert Ref(s2, j, k) == Ref(s1, j, k);
    }
    forall j: nat, x: nat | j < |s0.inodes| && x < MAXFILE * BSIZE && Ref(s0, j, Slot(x / BSIZE)) != 0
      ensures ByteOf(s3, j, x) == if j == i && at <= x < at + |a + b| then (a + b)[x - at] else ByteOf(s0, j, x)
    {
      var k := Slot(x / BSIZE);
      assert Ref(s1, j, k) == Ref(s0, j, k) && Ref(s2, j, k) == Ref(s1, j, k);
      assert ByteOf(s2, j, x) == ByteOf(s1, j, x);
    }
    forall x: nat | at <= x < at + |a + b| && x < MAXFILE * BSIZE
      ensures Ref(s3, i, Slot(x / BSIZE)) != 0 && ByteOf(s3, i, x) == (a + b)[x - at]
    {
      if x < at + |a| {
        assert ByteOf(s1, i, x) == a[x - at] && Ref(s1, i, Slot(x / BSIZE)) != 0;
        assert Ref(s2, i, Slot(x / BSIZE)) == Ref(s1, i, Slot(x / BSIZE));
        assert ByteOf(s2, i, x) == ByteOf(s1, i, x);
      } else {
        SameBlock(x, at + |a|, |b|);
      }
    }
  }

  function Least(a: nat, b: nat): nat { if a < b then a else b }

  /** Where writei's loop stops: at the end, or at the start of the block whose copy fails. */
  function WholeEnd(at: nat, n: nat, good: nat): (r: nat)
    ensures at <= r <= at + n && r <= at + good
  {
    if good >= n then at + n
    else if (at + good) / BSIZE * BSIZE > at then (at + good) / BSIZE * BSIZE
    else at
  }

  /** The bytes whose blocks the loop looks up, the failing one included. */
  function Fetched(at: nat, n: nat, good: nat): (r: nat)
    ensures r <= n
  {
    if good >= n then n else WholeEnd(at, n, good) - at + 1
  }

  /** The contents after writei of which the first `good` bytes could be copied. */
  function WrittenTo(c: seq<Byte>, at: nat, src: seq<Byte>, good: nat): (r: seq<Byte>)
    requires at <= |c|
    ensures good >= |src| ==> r == Overwrite(c, at, src)
  {
    var end := WholeEnd(at, |src|, good);
    assert src[..|src|] == src;
    Overwrite(c, at, src[..Least(good, |src|)])[..if end > |c| then end else |c|]
  }

  lemma StillWithin(at: nat, n: nat, good: nat, tot: nat)
    requires tot < n && tot <= good && (tot == 0 || (at + tot) % BSIZE == 0) && at + n <= MAXFILE * BSIZE
    ensures at + tot < at + Fetched(at, n, good) <= MAXFILE * BSIZE && (at + tot) / BSIZE < MAXFILE
  {
    if good < n && tot > 0 {
      Multiple(at + tot, at + good);
    }
  }

  lemma Multiple(x: nat, y: nat)
    requires x % BSIZE == 0 && x <= y
    ensures x <= y / BSIZE * BSIZE
  {
    assert x == x / BSIZE * BSIZE;
    assert x / BSIZE <= y / BSIZE;
  }

  lemma StopsHere(at: nat, n: nat, good: nat, tot: nat, m: nat)
    requires tot < n && tot <= good < tot + m <= n && (tot == 0 || (at + tot) % BSIZE == 0)
    requires m <= BSIZE - (at + tot) % BSIZE
    ensures good < n && at + tot == WholeEnd(at, n, good)
  {
    var x, y := at + tot, at + good;
    assert y / BSIZE == x / BSIZE;
    assert x / BSIZE * BSIZE <= x;
    assert x % BSIZE == 0 ==> x / BSIZE * BSIZE == x;
  }

  lemma EndsAll(at: nat, n: nat, good: nat)
    requires good >= n
    ensures WholeEnd(at, n, good) == at + n && Fetched(at, n, good) == n && Least(good, n) == n
  {
  }

  /** After a failed copy the blocks up to and including its own are there. */
  lemma FetchedTo(s0: State, s: State, i: nat, at: nat, src: seq<Byte>, good: nat, tot: nat)
    requires Shape(s0) && Shape(s) && i < |s.inodes| && tot <= good < |src| && at + |src| <= MAXFILE * BSIZE
    requires Wrote(s0, s, i, at, src[..good]) && at + tot == WholeEnd(at, |src|, good)
    requires (at + tot) / BSIZE < MAXFILE && Ref(s, i, Slot((at + tot) / BSIZE)) != 0
    ensures Fetched(at, |src|, good) == tot + 1 && Least(good, |src|) == good
    ensures Missing(s, i, Needed(at, Fetched(at, |src|, good))) == {}
  {
    hide Ref, ByteOf, Slot, Missing, Needed;
    forall a: nat | at <= a < at + (tot + 1) ensures a / BSIZE < MAXFILE && Ref(s, i, Slot(a / BSIZE)) != 0 {
      if a < at + tot { assert ByteOf(s, i, a) == src[..good][a - at]; }
    }
    NoneMissing(s, i, at, tot + 1);
  }

  lemma WroteContent(s0: State, s3: State, s4: State, i: nat, at: nat, src: seq<Byte>, good: nat)
    requires Inv(s0) && Inv(s3) && i < |s0.inodes| && i < |s3.inodes|
    requires Wrote(s0, s3, i, at, src[..Least(good, |src|)])
    requires at <= s0.inodes[i].size && at + |src| <= MAXFILE * BSIZE
    requires var off := WholeEnd(at, |src|, good);
             var grown := s3.(inodes := s3.inodes[i := s3.inodes[i].(size := off)]);
             s4 == if |src| > 0 && off > s3.inodes[i].size then grown else s3
    ensures Inv(s4) && |s4.inodes| == |s0.inodes|
    ensures Content(s4, i) == WrittenTo(Content(s0, i), at, src, good)
    ensures forall j: nat :: j < |s0.inodes| && j != i ==> Content(s4, j) == Content(s0, j)
  {
    hide Overwrite, RefsUsed, RefsApart, Ref, ByteOf, Slot, WholeEnd;
    var put, off := src[..Least(good, |src|)], WholeEnd(at, |src|, good);
    SizeOnly(s3, s4);
    WroteHoles(s0, s3, s4, i, at, put, off);
    var size := s4.inodes[i].size;
    forall a: nat | a < size
      ensures ByteOf(s4, i, a) == if at <= a < at + |put| then put[a - at] else ByteOf(s0, i, a)
      ensures !(at <= a < at + |put|) ==> a < s0.inodes[i].size
    {
      if !(at <= a < at + |put|) {
        InFile(s0, i, a);
      }
      assert ByteOf(s4, i, a) == ByteOf(s3, i, a);
    }
    forall j: nat | j < |s0.inodes| && j != i ensures Content(s4, j) == Content(s0, j) {
      forall a: nat | a < s0.inodes[j].size ensures ByteOf(s4, j, a) == ByteOf(s0, j, a) {
        InFile(s0, j, a);
        assert ByteOf(s4, j, a) == ByteOf(s3, j, a);
      }
    }
  }

  /** A size is no part of references and bytes. */
  lemma SizeOnly(s: State, s': State)
    requires Shape(s) && Shape(s') && s'.used == s.used && s'.blocks == s.blocks && |s'.inodes| == |s.inodes|
    requires forall j :: 0 <= j < |s.inodes| ==> s'.inodes[j].addrs == s.inodes[j].addrs
    ensures forall j: nat, k: nat {:trigger Ref(s', j, k)} :: j < |s.inodes| && k < NREFS ==>
        Ref(s', j, k) == Ref(s, j, k)
    ensures forall j: nat, a: nat {:trigger ByteOf(s', j, a)} :: j < |s.inodes| && a < MAXFILE * BSIZE ==>
        ByteOf(s', j, a) == ByteOf(s, j, a)
  {
    hide Word, Slot;
  }

  lemma WroteHoles(s0: State, s3: State, s4: State, i: nat, at: nat, src: seq<Byte>, end: nat)
    requires Inv(s0) && Inv(s3) && Shape(s4) && i < |s0.inodes| && i < |s3.inodes| && Wrote(s0, s3, i, at, src)
    requires at <= s0.inodes[i].size && at + |src| <= MAXFILE * BSIZE && |s4.inodes| == |s3.inodes|
    requires s4.used == s3.used && end <= at + |src|
    requires forall j: nat, k: nat {:trigger Ref(s4, j, k)} :: j < |s3.inodes| && k < NREFS ==>
        Ref(s4, j, k) == Ref(s3, j, k)
    requires forall j :: 0 <= j < |s3.inodes| ==>
        s4.inodes[j].size == s3.inodes[j].size || (j == i && s4.inodes[j].size == end)
    ensures Inv(s4)
  {
    hide Ref, ByteOf;
    forall j: nat, n: nat | j < |s4.inodes| && n < MAXFILE && n * BSIZE < s4.inodes[j].size
      ensures Ref(s4, j, Slot(n)) != 0
    {
      if n * BSIZE < s3.inodes[j].size {
        assert Ref(s3, j, Slot(n)) != 0;
      } else {
        var a := n * BSIZE;
        assert a / BSIZE == n;
        assert ByteOf(s3, i, a) == src[a - at];
      }
    }
  }

  lemma ContentSize(s: State, i: nat)
    requires Shape(s) && i < |s.inodes|
    ensures |Content(s, i)| == s.inodes[i].size
  {
  }

  lemma TakeMore<T>(c: seq<T>, at: nat, off: nat, m: nat, k: nat)
    requires at <= off && off + m <= |c| && k <= m
    ensures c[at..off] + c[off..off + m][..k] == c[at..off + k]
  {
  }

  lemma ReadBytes(s: State, i: nat, off: nat, m: nat)
    requires Inv(s) && i < |s.inodes| && off + m <= s.inodes[i].size && off % BSIZE + m <= BSIZE && m > 0
    ensures off / BSIZE < MAXFILE && Ref(s, i, Slot(off / BSIZE)) < |s.blocks|
    ensures |s.blocks[Ref(s, i, Slot(off / BSIZE))]| == BSIZE
    ensures s.blocks[Ref(s, i, Slot(off / BSIZE))][off % BSIZE..off % BSIZE + m] == Content(s, i)[off..off + m]
  {
    hide Ref, RefsApart, Slot;
    InFile(s, i, off);
    var b := Ref(s, i, Slot(off / BSIZE));
    assert b < |s.used|;
    var got, want := s.blocks[b][off % BSIZE..off % BSIZE + m], Content(s, i)[off..off + m];
    forall x | 0 <= x < m ensures got[x] == want[x] {
      SameBlock(off + x, off, m);
      assert Content(s, i)[off + x] == ByteOf(s, i, off + x);
    }
  }

  // ---------------------------------------------------------------- truncation

  /** The order in which itrunc frees references: the direct ones, the indirect ones, the indirect block. */
  function Order(t: nat): (k: nat)
    requires t < NREFS
    ensures k < NREFS
  {
    if t < NDIRECT then t else if t < NREFS - 1 then t + 1 else NDIRECT
  }

  /** The blocks an inode refers to. */
  function Blocks(s: State, i: nat): set<nat>
    requires Shape(s) && i < |s.inodes|
  {
    set k | 0 <= k < NREFS && Ref(s, i, k) != 0 :: Ref(s, i, k)
  }

  function FreedTo(s: State, i: nat, t: nat): set<nat>
    requires Shape(s) && i < |s.inodes| && t <= NREFS
  {
    set u | 0 <= u < t && Ref(s, i, Order(u)) != 0 :: Ref(s, i, Order(u))
  }

  /** The first t blocks, in that order, are no longer marked. */
  predicate Freed(s: State, used: seq<bool>, i: nat, t: nat)
    requires Shape(s) && i < |s.inodes| && t <= NREFS
  {
    |used| == |s.used| && forall b: nat {:trigger used[b]} :: b < |used| ==>
        (used[b] <==> s.used[b] && b !in FreedTo(s, i, t))
  }

  /** The first t addresses of an inode are cleared. */
  predicate Cleared(s: State, inodes: seq<Inode>, i: nat, t: nat)
    requires Shape(s) && i < |s.inodes| && t <= NDIRECT + 1
  {
    && |inodes| == |s.inodes|
    && (forall j :: 0 <= j < |inodes| && j != i ==> inodes[j] == s.inodes[j])
    && inodes[i].size == s.inodes[i].size && |inodes[i].addrs| == NDIRECT + 1
    && (forall k :: 0 <= k < t ==> inodes[i].addrs[k] == 0)
    && (forall k :: t <= k <= NDIRECT ==> inodes[i].addrs[k] == s.inodes[i].addrs[k])
  }

  lemma FreedNone(s: State, i: nat)
    requires Shape(s) && i < |s.inodes|
    ensures Freed(s, s.used, i, 0) && Cleared(s, s.inodes, i, 0)
  {
  }

  /** The next block is still marked, and clearing its mark is the next step; a missing reference needs none. */
  lemma FreeOne(s: State, used: seq<bool>, i: nat, t: nat)
    requires Inv(s) && i < |s.inodes| && t < NREFS && Freed(s, used, i, t)
    ensures var b := Ref(s, i, Order(t));
            if b == 0 then Freed(s, used, i, t + 1) else b < |used| && used[b] && Freed(s, used[b := false], i, t + 1)
  {
    hide Ref, NoHoles, FreedTo;
    var b := Ref(s, i, Order(t));
    FreedGrow(s, i, t);
  }

  lemma FreedGrow(s: State, i: nat, t: nat)
    requires Inv(s) && i < |s.inodes| && t < NREFS
    ensures var b := Ref(s, i, Order(t)); FreedTo(s, i, t + 1) == FreedTo(s, i, t) + if b == 0 then {} else {b}
    ensures Ref(s, i, Order(t)) != 0 ==> Ref(s, i, Order(t)) !in FreedTo(s, i, t)
  {
    hide Ref, NoHoles;
  }

  /** Without an indirect block there is nothing more to free. */
  lemma NoIndirect(s: State, used: seq<bool>, i: nat)
    requires Shape(s) && i < |s.inodes| && s.inodes[i].addrs[NDIRECT] == 0 && Freed(s, used, i, NDIRECT)
    ensures Freed(s, used, i, NREFS)
  {
    hide Word;
    assert FreedTo(s, i, NREFS) == FreedTo(s, i, NDIRECT);
  }

  lemma FreedAll(s: State, i: nat)
    requires Shape(s) && i < |s.inodes|
    ensures FreedTo(s, i, NREFS) == Blocks(s, i)
  {
    hide Ref;
    forall k: nat | k < NREFS && Ref(s, i, k) != 0 ensures Ref(s, i, k) in FreedTo(s, i, NREFS) {
      var t := if k < NDIRECT then k else if k == NDIRECT then NREFS - 1 else k - 1;
      assert Order(t) == k;
    }
  }

  lemma Truncated(s: State, s': State, i: nat)
    requires Inv(s) && i < |s.inodes| && s'.blocks == s.blocks && |s'.inodes| == |s.inodes| && s'.inodes[i].size == 0
    requires |s'.inodes[i].addrs| == NDIRECT + 1 && (forall k :: 0 <= k <= NDIRECT ==> s'.inodes[i].addrs[k] == 0)
    requires forall j :: 0 <= j < |s.inodes| && j != i ==> s'.inodes[j] == s.inodes[j]
    requires Freed(s, s'.used, i, NREFS)
    ensures Inv(s') && Content(s', i) == []
    ensures forall k: nat :: k < NREFS ==> Ref(s', i, k) == 0
    ensures forall j: nat :: j < |s.inodes| && j != i ==> Content(s', j) == Content(s, j)
    ensures forall b: nat :: b < |s.used| ==> (s'.used[b] <==> s.used[b] && b !in Blocks(s, i))
  {
    hide Blocks, FreedTo, Word, Slot;
    FreedAll(s, i);
    assert forall k: nat :: k < NREFS ==> Ref(s', i, k) == 0;
    assert forall j: nat, k: nat {:trigger Ref(s', j, k)} :: j < |s.inodes| && j != i && k < NREFS ==>
        Ref(s', j, k) == Ref(s, j, k);
    TruncatedInv(s, s', i);
    forall j: nat | j < |s.inodes| && j != i ensures Content(s', j) == Content(s, j) {
      assert forall a: nat :: a < s.inodes[j].size ==> ByteOf(s', j, a) == ByteOf(s, j, a);
    }
  }

  lemma TruncatedInv(s: State, s': State, i: nat)
    requires Inv(s) && Shape(s') && i < |s.inodes| && |s'.inodes| == |s.inodes| && s'.inodes[i].size == 0
    requires |s'.used| == |s.used|
    requires forall j :: 0 <= j < |s.inodes| && j != i ==> s'.inodes[j] == s.inodes[j]
    requires forall k: nat :: k < NREFS ==> Ref(s', i, k) == 0
    requires forall j: nat, k: nat {:trigger Ref(s', j, k)} :: j < |s.inodes| && j != i && k < NREFS ==>
        Ref(s', j, k) == Ref(s, j, k)
    requires forall b: nat :: b < |s.used| ==> (s'.used[b] <==> s.used[b] && b !in Blocks(s, i))
    ensures Inv(s')
  {
    hide Ref;
    forall j: nat, k: nat | j < |s.inodes| && k < NREFS && Ref(s', j, k) != 0
      ensures Ref(s', j, k) < |s'.used| && s'.used[Ref(s', j, k)]
    {
      assert j != i;
      assert Ref(s, j, k) !in Blocks(s, i);
    }
    forall j: nat, n: nat | j < |s'.inodes| && n < MAXFILE && n * BSIZE < s'.inodes[j].size
      ensures Ref(s', j, Slot(n)) != 0
    {
      assert j != i && Ref(s, j, Slot(n)) != 0;
    }
  }
}
