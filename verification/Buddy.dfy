/**
 The buddy allocator (kernel/lib/buddy.c; kernel/lib/ufkalloc.c has the same
 algorithm with other sizes), on the intrusive free lists of kernel/lib/list.c.

 A bitmap is the set of its set bits. The bit for block number i of size class
 k on page pg is `Node(pg, k, i)`. `live` is a history variable: the blocks
 handed out and not yet freed.
 */
module Buddy {
  import opened IntrusiveList

  /** LEAF_SIZE and MAX_SIZE (which is NSIZES - 1). */
  datatype Geometry = Geometry(leaf: nat, max: nat)

  datatype Node = Node(pg: nat, k: nat, i: nat)

  /** The table: page addresses, bitmaps and free lists (block addresses, by size class). */
  datatype Bits = Bits(pages: seq<nat>, alloc: set<Node>, split: set<Node>, free: seq<seq<nat>>)

  // ---------------------------------------------------------------- sizes and indices

  /** BLK_SIZE(k) */
  function Blk(g: Geometry, k: nat): (r: nat)
    ensures g.leaf >= 1 ==> r >= 1
  {
    if k == 0 then g.leaf else 2 * Blk(g, k - 1)
  }

  /** blk_index(k, p, base) for p at offset x of its page. */
  function BlkIndex(g: Geometry, k: nat, x: nat): nat
    requires g.leaf >= 1
  {
    Quotient(x, Blk(g, k))
  }

  function Quotient(x: nat, b: nat): nat
    requires b >= 1
  {
    x / b
  }

  lemma DivRange(x: nat, b: nat)
    requires b >= 1
    ensures (x / b) * b <= x < (x / b + 1) * b
  {
    assert x == (x / b) * b + x % b;
    assert (x / b + 1) * b == (x / b) * b + b;
  }

  lemma DivUnique(x: nat, b: nat, q: nat)
    requires b >= 1 && q * b <= x < q * b + b
    ensures x / b == q
  {
    DivRange(x, b);
    var p := x / b;
    assert (q + 1) * b == q * b + b;
    if p < q { Scale(p + 1, q, b); }
  }

  lemma Scale(a: nat, c: nat, b: nat)
    requires a <= c
    ensures a * b <= c * b
  {
    assert c * b == a * b + (c - a) * b;
  }

  /** The index at the next size class is half the index. */
  lemma IndexUp(g: Geometry, k: nat, x: nat)
    requires g.leaf >= 1
    ensures BlkIndex(g, k + 1, x) == BlkIndex(g, k, x) / 2
  {
    var b := Blk(g, k);
    var i := x / b;
    DivRange(x, b);
    var q, r := i / 2, i % 2;
    assert i == 2 * q + r;
    assert i * b == q * (2 * b) + r * b by {
      assert (2 * q + r) * b == (2 * q) * b + r * b;
      assert (2 * q) * b == q * (2 * b);
    }
    assert (i + 1) * b == i * b + b;
    assert r * b + b <= 2 * b by { if r == 0 {} else { assert r * b == b; } }
    assert 0 <= r * b by { Scale(0, r, b); }
    DivUnique(x, 2 * b, q);
  }

  function Parent(n: Node): Node { Node(n.pg, n.k + 1, n.i / 2) }

  function Left(n: Node): Node
    requires n.k >= 1
  {
    Node(n.pg, n.k - 1, 2 * n.i)
  }

  function Right(n: Node): Node
    requires n.k >= 1
  {
    Node(n.pg, n.k - 1, 2 * n.i + 1)
  }

  /** The buddy's index, as bd_free computes it. */
  function Sibling(n: Node): (r: Node)
    ensures Parent(r) == Parent(n) && r != n && r.k == n.k && r.pg == n.pg
  {
    Node(n.pg, n.k, if n.i % 2 == 0 then n.i + 1 else n.i - 1)
  }

  /** Offset in the page. */
  function Offset(g: Geometry, n: Node): nat { n.i * Blk(g, n.k) }

  /** addr(k, bi, base) */
  function Addr(g: Geometry, pages: seq<nat>, n: Node): nat
    requires n.pg < |pages|
  {
    pages[n.pg] + Offset(g, n)
  }

  lemma OffsetLeft(g: Geometry, n: Node)
    requires n.k >= 1
    ensures Offset(g, Left(n)) == Offset(g, n)
    ensures Offset(g, Right(n)) == Offset(g, n) + Blk(g, n.k - 1)
  {
    var b := Blk(g, n.k - 1);
    assert (2 * n.i) * b == n.i * (2 * b);
    assert (2 * n.i + 1) * b == (2 * n.i) * b + b;
  }

  /** A node covers the offsets x of its block. */
  predicate Covers(g: Geometry, n: Node, x: nat)
    requires g.leaf >= 1
  {
    BlkIndex(g, n.k, x) == n.i
  }

  lemma CoversRange(g: Geometry, n: Node, x: nat)
    requires g.leaf >= 1
    ensures Covers(g, n, x) <==> Offset(g, n) <= x < Offset(g, n) + Blk(g, n.k)
  {
    DivRange(x, Blk(g, n.k));
    if Offset(g, n) <= x < Offset(g, n) + Blk(g, n.k) { DivUnique(x, Blk(g, n.k), n.i); }
    assert (n.i + 1) * Blk(g, n.k) == n.i * Blk(g, n.k) + Blk(g, n.k);
  }

  // ---------------------------------------------------------------- the invariant

  predicate PagesOk(g: Geometry, pages: seq<nat>) {
    && g.leaf >= 1
    && (forall a :: 0 <= a < |pages| ==> pages[a] >= 1)
    && (forall a, c :: 0 <= a < c < |pages| ==>
          pages[a] + Blk(g, g.max) <= pages[c] || pages[c] + Blk(g, g.max) <= pages[a])
  }

  /** The block exists: it is a whole page or half of a split block. */
  predicate Present(g: Geometry, b: Bits, n: Node) {
    && n.pg < |b.pages| && n.k <= g.max
    && if n.k == g.max then n.i == 0 else Parent(n) in b.split
  }

  /** Present and not split: either free or handed out. */
  predicate Block(g: Geometry, b: Bits, n: Node) {
    Present(g, b, n) && n !in b.split
  }

  predicate IsFree(g: Geometry, b: Bits, n: Node) {
    n.k < |b.free| && n.pg < |b.pages| && Addr(g, b.pages, n) in b.free[n.k]
  }

  ghost predicate SplitOk(g: Geometry, b: Bits) {
    forall n :: n in b.split ==> n.k >= 1 && Present(g, b, n)
  }

  /** Every block is free or live, and not both. */
  ghost predicate StatusOk(g: Geometry, b: Bits, live: set<Node>) {
    && (forall n :: n in live ==> Block(g, b, n))
    && (forall n :: Block(g, b, n) ==> (n in live <==> !IsFree(g, b, n)))
  }

  /** What the alloc bits say, below the largest size and but for a block in hand. */
  ghost predicate AllocOk(g: Geometry, b: Bits, live: set<Node>, hand: set<Node>) {
    forall n: Node :: n.k < g.max && n !in hand ==> (n in b.alloc <==> n in live || n in b.split)
  }

  /** Two halves of a split block are never both free. */
  ghost predicate Coalesced(g: Geometry, b: Bits) {
    forall n :: n in b.split && n.k >= 1 ==> !(IsFree(g, b, Left(n)) && IsFree(g, b, Right(n)))
  }

  /** The free list of class k holds addresses of blocks of class k, each once. */
  ghost predicate ListOk(g: Geometry, b: Bits, k: nat)
    requires k < |b.free|
  {
    && NoDuplicates(b.free[k])
    && forall a :: a in b.free[k] ==> exists n: Node :: n.k == k && Block(g, b, n) && Addr(g, b.pages, n) == a
  }

  ghost predicate Inv(g: Geometry, b: Bits, live: set<Node>, hand: set<Node>) {
    && PagesOk(g, b.pages) && |b.free| == g.max + 1
    && SplitOk(g, b) && StatusOk(g, b, live) && AllocOk(g, b, live, hand) && Coalesced(g, b)
    && forall k :: 0 <= k <= g.max ==> ListOk(g, b, k)
  }

  // ---------------------------------------------------------------- tiling

  /** Every block that contains a given block is split. */
  lemma {:induction false} AncestorSplit(g: Geometry, b: Bits, n: Node, m: Node, x: nat)
    requires g.leaf >= 1 && SplitOk(g, b) && Present(g, b, n) && n.pg == m.pg && n.k < m.k <= g.max
    requires Covers(g, n, x) && Covers(g, m, x)
    ensures m in b.split
    decreases g.max - n.k
  {
    IndexUp(g, n.k, x);
    if m.k > n.k + 1 { AncestorSplit(g, b, Parent(n), m, x); }
  }

  /** Two blocks that share a byte are the same block. */
  lemma BlocksDisjoint(g: Geometry, b: Bits, n: Node, m: Node, x: nat)
    requires g.leaf >= 1 && SplitOk(g, b) && Block(g, b, n) && Block(g, b, m) && n.pg == m.pg
    requires Covers(g, n, x) && Covers(g, m, x)
    ensures n == m
  {
    if n.k < m.k { AncestorSplit(g, b, n, m, x); }
    if m.k < n.k { AncestorSplit(g, b, m, n, x); }
  }

  /** Every byte of a page is in a block. */
  lemma {:induction false} SomeBlock(g: Geometry, b: Bits, n: Node, x: nat) returns (m: Node)
    requires g.leaf >= 1 && SplitOk(g, b) && Present(g, b, n) && Covers(g, n, x)
    ensures Block(g, b, m) && m.pg == n.pg && m.k <= n.k && Covers(g, m, x)
    decreases n.k
  {
    if n !in b.split {
      m := n;
    } else {
      IndexUp(g, n.k - 1, x);
      var c := Node(n.pg, n.k - 1, BlkIndex(g, n.k - 1, x));
      assert Parent(c) == n;
      m := SomeBlock(g, b, c, x);
    }
  }

  /** A block lies inside its page. */
  lemma {:induction false} InsidePage(g: Geometry, b: Bits, n: Node)
    requires g.leaf >= 1 && SplitOk(g, b) && Present(g, b, n)
    ensures Offset(g, n) + Blk(g, n.k) <= Blk(g, g.max)
    decreases g.max - n.k
  {
    if n.k < g.max {
      InsidePage(g, b, Parent(n));
      OffsetLeft(g, Parent(n));
      assert n == Left(Parent(n)) || n == Right(Parent(n));
    }
  }

  /** Blocks at the same address are the same block. */
  lemma SameAddress(g: Geometry, b: Bits, n: Node, m: Node)
    requires PagesOk(g, b.pages) && SplitOk(g, b) && Block(g, b, n) && Block(g, b, m)
    requires Addr(g, b.pages, n) == Addr(g, b.pages, m)
    ensures n == m
  {
    InsidePage(g, b, n);
    InsidePage(g, b, m);
    CoversRange(g, n, Offset(g, n));
    CoversRange(g, m, Offset(g, m));
    BlocksDisjoint(g, b, n, m, Offset(g, n));
  }

  /**
   Tiling: every byte of every managed page is in exactly one block, which is either
   handed out or on the free list of its size class.
   */
  lemma Tiling(g: Geometry, b: Bits, live: set<Node>, pg: nat, x: nat) returns (n: Node)
    requires Inv(g, b, live, {}) && pg < |b.pages| && x < Blk(g, g.max)
    ensures Block(g, b, n) && n.pg == pg && Offset(g, n) <= x < Offset(g, n) + Blk(g, n.k)
    ensures n in live <==> !IsFree(g, b, n)
    ensures forall m :: Block(g, b, m) && m.pg == pg && Offset(g, m) <= x < Offset(g, m) + Blk(g, m.k) ==> m == n
  {
    var top := Node(pg, g.max, 0);
    CoversRange(g, top, x);
    n := SomeBlock(g, b, top, x);
    CoversRange(g, n, x);
    forall m | Block(g, b, m) && m.pg == pg && Offset(g, m) <= x < Offset(g, m) + Blk(g, m.k) ensures m == n {
      CoversRange(g, m, x);
      BlocksDisjoint(g, b, n, m, x);
    }
  }

  /** Blocks, free or handed out, do not overlap, whatever their pages. */
  lemma BlocksApart(g: Geometry, b: Bits, live: set<Node>, n: Node, m: Node)
    requires Inv(g, b, live, {}) && Block(g, b, n) && Block(g, b, m) && n != m
    ensures Addr(g, b.pages, n) + Blk(g, n.k) <= Addr(g, b.pages, m)
         || Addr(g, b.pages, m) + Blk(g, m.k) <= Addr(g, b.pages, n)
  {
    InsidePage(g, b, n);
    InsidePage(g, b, m);
    if n.pg == m.pg && Offset(g, n) < Offset(g, m) + Blk(g, m.k) && Offset(g, m) < Offset(g, n) + Blk(g, n.k) {
      var x := if Offset(g, n) < Offset(g, m) then Offset(g, m) else Offset(g, n);
      CoversRange(g, n, x);
      CoversRange(g, m, x);
      BlocksDisjoint(g, b, n, m, x);
    }
  }

  /** Live blocks do not overlap, whatever their pages. */
  lemma LiveDisjoint(g: Geometry, b: Bits, live: set<Node>, n: Node, m: Node)
    requires Inv(g, b, live, {}) && n in live && m in live && n != m
    ensures Addr(g, b.pages, n) + Blk(g, n.k) <= Addr(g, b.pages, m)
         || Addr(g, b.pages, m) + Blk(g, m.k) <= Addr(g, b.pages, n)
  {
    BlocksApart(g, b, live, n, m);
  }

  // ---------------------------------------------------------------- coalescing

  lemma {:induction false} NothingSplit(g: Geometry, b: Bits, live: set<Node>, pg: nat, k: nat)
    requires Inv(g, b, live, {}) && forall n :: n in live ==> n.pg != pg
    ensures forall n :: n in b.split && n.pg == pg ==> n.k > k
    decreases k
  {
    if k > 0 {
      NothingSplit(g, b, live, pg, k - 1);
      forall n | n in b.split && n.pg == pg ensures n.k > k {
        assert Parent(Left(n)) == n && Parent(Right(n)) == n;
        assert Present(g, b, Left(n)) && Present(g, b, Right(n));
      }
    }
  }

  /** Maximal coalescing: a page without live blocks is one free block of the largest size. */
  lemma AllFreed(g: Geometry, b: Bits, live: set<Node>, pg: nat)
    requires Inv(g, b, live, {}) && pg < |b.pages| && forall n :: n in live ==> n.pg != pg
    ensures IsFree(g, b, Node(pg, g.max, 0))
    ensures forall n :: Block(g, b, n) && n.pg == pg ==> n == Node(pg, g.max, 0)
  {
    NothingSplit(g, b, live, pg, g.max);
    assert Block(g, b, Node(pg, g.max, 0));
  }

  // ---------------------------------------------------------------- the four steps

  /** Present blocks of one size class have distinct addresses. */
  lemma SameLevel(g: Geometry, b: Bits, n: Node, m: Node)
    requires PagesOk(g, b.pages) && SplitOk(g, b) && Present(g, b, n) && Present(g, b, m)
    requires n.k == m.k && Addr(g, b.pages, n) == Addr(g, b.pages, m)
    ensures n == m
  {
    InsidePage(g, b, n);
    InsidePage(g, b, m);
    CoversRange(g, n, Offset(g, n));
    CoversRange(g, m, Offset(g, n));
  }

  lemma FreeIsBlock(g: Geometry, b: Bits, live: set<Node>, hand: set<Node>, n: Node)
    requires Inv(g, b, live, hand) && Present(g, b, n) && IsFree(g, b, n)
    ensures Block(g, b, n) && n !in live
  {
    assert ListOk(g, b, n.k);
    var m: Node :| m.k == n.k && Block(g, b, m) && Addr(g, b.pages, m) == Addr(g, b.pages, n);
    SameLevel(g, b, n, m);
  }

  /** A block's address is on no list but, if the block is free, that of its own class. */
  lemma ListedOnce(g: Geometry, b: Bits, live: set<Node>, hand: set<Node>, n: Node, k: nat)
    requires Inv(g, b, live, hand) && Block(g, b, n) && k <= g.max && Addr(g, b.pages, n) in b.free[k]
    ensures k == n.k
  {
    assert ListOk(g, b, k);
    var m: Node :| m.k == k && Block(g, b, m) && Addr(g, b.pages, m) == Addr(g, b.pages, n);
    SameAddress(g, b, n, m);
  }

  /** The block at the head of a free list. */
  lemma HeadBlock(g: Geometry, b: Bits, live: set<Node>, k: nat) returns (n: Node)
    requires Inv(g, b, live, {}) && k <= g.max && b.free[k] != []
    ensures n.k == k && Block(g, b, n) && Addr(g, b.pages, n) == b.free[k][0] && n !in live
  {
    assert ListOk(g, b, k);
    assert b.free[k][0] in b.free[k];
    n :| n.k == k && Block(g, b, n) && Addr(g, b.pages, n) == b.free[k][0];
    FreeIsBlock(g, b, live, {}, n);
  }

  function SetFree(b: Bits, k: nat, l: seq<nat>): Bits
    requires k < |b.free|
  {
    b.(free := b.free[k := l])
  }

  /** A list that keeps only addresses it had. */
  lemma ListShrinks(g: Geometry, b: Bits, b': Bits, k: nat)
    requires k < |b.free| == |b'.free| && ListOk(g, b, k) && NoDuplicates(b'.free[k]) && b'.pages == b.pages
    requires forall a :: a in b'.free[k] ==> a in b.free[k]
    requires forall n: Node :: n.k == k && Block(g, b, n) && Addr(g, b.pages, n) in b'.free[k] ==> Block(g, b', n)
    ensures ListOk(g, b', k)
  {
    forall a | a in b'.free[k] ensures exists n: Node :: n.k == k && Block(g, b', n) && Addr(g, b'.pages, n) == a {
      var n: Node :| n.k == k && Block(g, b, n) && Addr(g, b.pages, n) == a;
      assert Block(g, b', n);
    }
  }

  /** Take the block at the head of its free list and set its alloc bit. */
  function AfterTake(b: Bits, n: Node): Bits
    requires n.k < |b.free| && b.free[n.k] != []
  {
    SetFree(b, n.k, b.free[n.k][1..]).(alloc := b.alloc + {n})
  }

  lemma TakeFree(g: Geometry, b: Bits, live: set<Node>, n: Node, m: Node)
    requires Inv(g, b, live, {}) && Block(g, b, n) && b.free[n.k] != [] && Addr(g, b.pages, n) == b.free[n.k][0]
    requires Present(g, b, m)
    ensures IsFree(g, AfterTake(b, n), m) <==> IsFree(g, b, m) && m != n
  {
    hide Blk, Offset, AllocOk, Coalesced, StatusOk;
    var l := b.free[n.k];
    assert ListOk(g, b, n.k);
    assert l == [l[0]] + l[1..];
    if m.k == n.k && Addr(g, b.pages, m) == l[0] { SameLevel(g, b, n, m); }
  }

  lemma TakeStep(g: Geometry, b: Bits, live: set<Node>, n: Node)
    requires Inv(g, b, live, {}) && Block(g, b, n) && n !in live && b.free[n.k] != []
    requires Addr(g, b.pages, n) == b.free[n.k][0]
    ensures Inv(g, AfterTake(b, n), live + {n}, {})
  {
    hide Blk, Offset, ListOk, AllocOk, IsFree;
    var b', live' := AfterTake(b, n), live + {n};
    forall m ensures Present(g, b', m) <==> Present(g, b, m) {}
    assert forall m :: Block(g, b', m) <==> Block(g, b, m);
    forall m | Block(g, b', m) ensures m in live' <==> !IsFree(g, b', m) { TakeFree(g, b, live, n, m); }
    forall m | m in b'.split && m.k >= 1 ensures !(IsFree(g, b', Left(m)) && IsFree(g, b', Right(m))) {
      assert Parent(Left(m)) == m && Parent(Right(m)) == m;
      assert Present(g, b, Left(m)) && Present(g, b, Right(m));
      TakeFree(g, b, live, n, Left(m));
      TakeFree(g, b, live, n, Right(m));
    }
    TakeAlloc(g, b, live, n);
    forall k | 0 <= k <= g.max ensures ListOk(g, b', k) { TakeLists(g, b, live, n, k); }
  }

  lemma TakeAlloc(g: Geometry, b: Bits, live: set<Node>, n: Node)
    requires AllocOk(g, b, live, {}) && n.k < |b.free| && b.free[n.k] != []
    ensures AllocOk(g, AfterTake(b, n), live + {n}, {})
  {
  }

  lemma TakeLists(g: Geometry, b: Bits, live: set<Node>, n: Node, k: nat)
    requires Inv(g, b, live, {}) && n.k < |b.free| && b.free[n.k] != [] && k <= g.max
    ensures ListOk(g, AfterTake(b, n), k)
  {
    hide Blk, Offset, AllocOk, Coalesced, StatusOk, SplitOk;
    var b' := AfterTake(b, n);
    assert ListOk(g, b, k);
    forall m ensures Block(g, b', m) <==> Block(g, b, m) {}
    ListShrinks(g, b, b', k);
  }

  function AfterSplit(g: Geometry, b: Bits, n: Node): Bits
    requires n.k >= 1 && n.k <= |b.free| && n.pg < |b.pages|
  {
    SetFree(b, n.k - 1, [Addr(g, b.pages, Right(n))] + b.free[n.k - 1])
      .(split := b.split + {n}, alloc := b.alloc + {Left(n)})
  }

  /** No address inside a live block is on a free list. */
  lemma HalfListed(g: Geometry, b: Bits, live: set<Node>, n: Node, x: nat, k: nat)
    requires Inv(g, b, live, {}) && n in live && Offset(g, n) <= x < Offset(g, n) + Blk(g, n.k) && k <= g.max
    ensures b.pages[n.pg] + x !in b.free[k]
  {
    hide Blk, Offset, BlkIndex, Coalesced, AllocOk, SplitOk;
    assert Block(g, b, n) && ListOk(g, b, k);
    InsidePage(g, b, n);
    if b.pages[n.pg] + x in b.free[k] {
      var m: Node :| m.k == k && Block(g, b, m) && Addr(g, b.pages, m) == b.pages[n.pg] + x;
      InsidePage(g, b, m);
      CoversRange(g, n, x);
      CoversRange(g, m, Offset(g, m));
      BlocksDisjoint(g, b, n, m, x);
    }
  }

  /** Before a live block is split, its halves do not exist and their bits are clear. */
  lemma HalvesAbsent(g: Geometry, b: Bits, live: set<Node>, n: Node)
    requires Inv(g, b, live, {}) && n in live && n.k >= 1
    ensures Parent(Left(n)) == n && Parent(Right(n)) == n && Left(n) != Right(n)
    ensures !Present(g, b, Left(n)) && !Present(g, b, Right(n))
    ensures Left(n) !in b.alloc && Right(n) !in b.alloc
    ensures n.pg < |b.pages| && n.k <= g.max
  {
    assert Block(g, b, n);
  }

  lemma HalvesUnlisted(g: Geometry, b: Bits, live: set<Node>, n: Node, k: nat)
    requires Inv(g, b, live, {}) && n in live && n.k >= 1 && k <= g.max
    ensures n.pg < |b.pages|
    ensures Addr(g, b.pages, Right(n)) !in b.free[k] && Addr(g, b.pages, Left(n)) !in b.free[k]
  {
    hide Blk, Offset, Coalesced, AllocOk, SplitOk, ListOk;
    assert Block(g, b, n);
    HalvesInside(g, n);
    HalfListed(g, b, live, n, Offset(g, Right(n)), k);
    HalfListed(g, b, live, n, Offset(g, Left(n)), k);
  }

  lemma HalvesInside(g: Geometry, n: Node)
    requires n.k >= 1 && g.leaf >= 1
    ensures Offset(g, n) == Offset(g, Left(n)) < Offset(g, Right(n)) < Offset(g, n) + Blk(g, n.k)
  {
    OffsetLeft(g, n);
  }

  lemma SplitStep(g: Geometry, b: Bits, live: set<Node>, n: Node)
    requires Inv(g, b, live, {}) && n in live && n.k >= 1
    ensures n.pg < |b.pages| && n.k <= |b.free|
    ensures Inv(g, AfterSplit(g, b, n), live - {n} + {Left(n)}, {})
  {
    assert Block(g, b, n);
    SplitPresent(g, b, live, n);
    SplitStatus(g, b, live, n);
    SplitAlloc(g, b, live, n);
    SplitCoalesced(g, b, live, n);
    forall k | 0 <= k <= g.max ensures ListOk(g, AfterSplit(g, b, n), k) { SplitLists(g, b, live, n, k); }
  }

  lemma SplitPresent(g: Geometry, b: Bits, live: set<Node>, n: Node)
    requires Inv(g, b, live, {}) && n in live && n.k >= 1
    ensures Block(g, b, n)
    ensures var b' := AfterSplit(g, b, n);
            && SplitOk(g, b')
            && (forall m :: Present(g, b', m) <==> Present(g, b, m) || m == Left(n) || m == Right(n))
            && (forall m :: Block(g, b', m) <==> (Block(g, b, m) && m != n) || m == Left(n) || m == Right(n))
  {
    var b' := AfterSplit(g, b, n);
    HalvesAbsent(g, b, live, n);
    forall m ensures Present(g, b', m) <==> Present(g, b, m) || m == Left(n) || m == Right(n) {
      if Parent(m) == n { assert m == Left(n) || m == Right(n); }
    }
  }

  lemma SplitStatus(g: Geometry, b: Bits, live: set<Node>, n: Node)
    requires Inv(g, b, live, {}) && n in live && n.k >= 1
    ensures Block(g, b, n) && StatusOk(g, AfterSplit(g, b, n), live - {n} + {Left(n)})
  {
    hide Blk, Offset, SplitOk, AllocOk, Coalesced, ListOk;
    var b', live' := AfterSplit(g, b, n), live - {n} + {Left(n)};
    SplitPresent(g, b, live, n);
    HalvesAbsent(g, b, live, n);
    HalvesUnlisted(g, b, live, n, n.k - 1);
    HalvesInside(g, n);
    forall m | Block(g, b', m) ensures m in live' <==> !IsFree(g, b', m) {
      if m.k == n.k - 1 && Addr(g, b.pages, m) == Addr(g, b.pages, Right(n)) { SameLevel(g, b', m, Right(n)); }
    }
  }

  lemma SplitAlloc(g: Geometry, b: Bits, live: set<Node>, n: Node)
    requires Inv(g, b, live, {}) && n in live && n.k >= 1
    ensures Block(g, b, n) && AllocOk(g, AfterSplit(g, b, n), live - {n} + {Left(n)}, {})
  {
    hide Blk, Offset;
    assert Block(g, b, n);
  }

  lemma SplitCoalesced(g: Geometry, b: Bits, live: set<Node>, n: Node)
    requires Inv(g, b, live, {}) && n in live && n.k >= 1
    ensures Block(g, b, n) && Coalesced(g, AfterSplit(g, b, n))
  {
    hide Blk, Offset, AllocOk, ListOk;
    var b' := AfterSplit(g, b, n);
    SplitPresent(g, b, live, n);
    SplitStatus(g, b, live, n);
    forall m | m in b'.split && m.k >= 1 ensures !(IsFree(g, b', Left(m)) && IsFree(g, b', Right(m))) {
      if m == n {
        assert Block(g, b', Left(n));
      } else {
        SplitOthers(g, b, live, n, m);
      }
    }
  }

  /** The halves of another split block are free after the step only if they were before. */
  lemma SplitOthers(g: Geometry, b: Bits, live: set<Node>, n: Node, m: Node)
    requires Inv(g, b, live, {}) && n in live && n.k >= 1 && m in b.split && m.k >= 1
    ensures Block(g, b, n)
    ensures IsFree(g, AfterSplit(g, b, n), Left(m)) ==> IsFree(g, b, Left(m))
    ensures IsFree(g, AfterSplit(g, b, n), Right(m)) ==> IsFree(g, b, Right(m))
  {
    hide Blk, Offset, AllocOk, ListOk, Coalesced, StatusOk;
    SplitPresent(g, b, live, n);
    var b' := AfterSplit(g, b, n);
    HalvesAbsent(g, b, live, n);
    assert Parent(Left(m)) == m && Parent(Right(m)) == m;
    assert Present(g, b', Left(m)) && Present(g, b', Right(m)) && Present(g, b', Right(n));
    if m.k == n.k && Addr(g, b.pages, Left(m)) == Addr(g, b.pages, Right(n)) { SameLevel(g, b', Left(m), Right(n)); }
    if m.k == n.k && Addr(g, b.pages, Right(m)) == Addr(g, b.pages, Right(n)) { SameLevel(g, b', Right(m), Right(n)); }
  }

  lemma SplitLists(g: Geometry, b: Bits, live: set<Node>, n: Node, k: nat)
    requires Inv(g, b, live, {}) && n in live && n.k >= 1 && k <= g.max
    ensures Block(g, b, n) && ListOk(g, AfterSplit(g, b, n), k)
  {
    hide Blk, Offset, AllocOk, Coalesced, SplitOk;
    var b' := AfterSplit(g, b, n);
    SplitPresent(g, b, live, n);
    HalvesUnlisted(g, b, live, n, n.k - 1);
    assert ListOk(g, b, k);
    forall a | a in b'.free[k] ensures exists m: Node :: m.k == k && Block(g, b', m) && Addr(g, b'.pages, m) == a {
      if a in b.free[k] {
        var m: Node :| m.k == k && Block(g, b, m) && Addr(g, b.pages, m) == a;
        assert IsFree(g, b, m);
        assert Block(g, b', m);
      } else {
        assert Block(g, b', Right(n));
      }
    }
  }

  /** The block in hand and its free buddy become their parent, in hand. */
  function AfterMerge(b: Bits, n: Node, idx: nat): Bits
    requires n.k < |b.free| && idx < |b.free[n.k]|
  {
    SetFree(b, n.k, Without(b.free[n.k], idx))
      .(alloc := b.alloc - {n} - {Parent(n)}, split := b.split - {Parent(n)})
  }

  /** A buddy whose alloc bit is clear is a free block, so it is on the free list of its class. */
  lemma BuddyIsFree(g: Geometry, b: Bits, live: set<Node>, n: Node)
    requires Inv(g, b, live, {n}) && n in live && n.k < g.max && Sibling(n) !in b.alloc
    ensures Block(g, b, n) && Parent(n) in b.split && Present(g, b, Parent(n))
    ensures Block(g, b, Sibling(n)) && IsFree(g, b, Sibling(n)) && !IsFree(g, b, n) && !IsFree(g, b, Parent(n))
  {
    hide Blk, Offset, Coalesced, ListOk;
    assert Block(g, b, n);
    assert Block(g, b, Sibling(n));
    if IsFree(g, b, Parent(n)) { FreeIsBlock(g, b, live, {n}, Parent(n)); }
  }

  lemma MergePresent(g: Geometry, b: Bits, live: set<Node>, n: Node, idx: nat)
    requires Inv(g, b, live, {n}) && n in live && n.k < g.max && Sibling(n) !in b.alloc && idx < |b.free[n.k]|
    ensures var b' := AfterMerge(b, n, idx);
            && SplitOk(g, b')
            && (forall m :: Present(g, b', m) <==> Present(g, b, m) && m != n && m != Sibling(n))
            && (forall m :: Block(g, b', m) <==> (Block(g, b, m) && m != n && m != Sibling(n)) || m == Parent(n))
  {
    hide Blk, Offset, Coalesced, ListOk, AllocOk;
    var b' := AfterMerge(b, n, idx);
    BuddyIsFree(g, b, live, n);
    forall m ensures Present(g, b', m) <==> Present(g, b, m) && m != n && m != Sibling(n) {
      if Parent(m) == Parent(n) { assert m == n || m == Sibling(n); }
    }
  }

  /** The step takes exactly the buddy off the free lists. */
  lemma MergeFree(g: Geometry, b: Bits, live: set<Node>, n: Node, idx: nat, m: Node)
    requires Inv(g, b, live, {n}) && n in live && n.k < g.max && Sibling(n) !in b.alloc
    requires n.pg < |b.pages| && idx < |b.free[n.k]| && b.free[n.k][idx] == Addr(g, b.pages, Sibling(n))
    requires Present(g, b, m)
    ensures IsFree(g, AfterMerge(b, n, idx), m) <==> IsFree(g, b, m) && m != Sibling(n)
  {
    hide Blk, Offset, Coalesced, AllocOk, StatusOk;
    assert ListOk(g, b, n.k);
    WithoutContents(b.free[n.k], idx);
    BuddyIsFree(g, b, live, n);
    if m.k == n.k && Addr(g, b.pages, m) == Addr(g, b.pages, Sibling(n)) { SameLevel(g, b, m, Sibling(n)); }
  }

  lemma MergeLists(g: Geometry, b: Bits, live: set<Node>, n: Node, idx: nat, k: nat)
    requires Inv(g, b, live, {n}) && n in live && n.k < g.max && Sibling(n) !in b.alloc && k <= g.max
    requires n.pg < |b.pages| && idx < |b.free[n.k]| && b.free[n.k][idx] == Addr(g, b.pages, Sibling(n))
    ensures ListOk(g, AfterMerge(b, n, idx), k)
  {
    hide Blk, Offset, Coalesced, AllocOk;
    var b' := AfterMerge(b, n, idx);
    assert ListOk(g, b, k);
    if k == n.k { WithoutContents(b.free[k], idx); }
    BuddyIsFree(g, b, live, n);
    MergePresent(g, b, live, n, idx);
    ListShrinks(g, b, b', k);
  }

  lemma MergeStep(g: Geometry, b: Bits, live: set<Node>, n: Node, idx: nat)
    requires Inv(g, b, live, {n}) && n in live && n.k < g.max && Sibling(n) !in b.alloc
    requires n.pg < |b.pages| && idx < |b.free[n.k]| && b.free[n.k][idx] == Addr(g, b.pages, Sibling(n))
    ensures Inv(g, AfterMerge(b, n, idx), live - {n} + {Parent(n)}, {Parent(n)})
  {
    hide Blk, Offset, ListOk, AllocOk, Coalesced, SplitOk, StatusOk;
    MergePresent(g, b, live, n, idx);
    MergeStatus(g, b, live, n, idx);
    MergeAlloc(g, b, live, n, idx);
    MergeCoalesced(g, b, live, n, idx);
    forall k | 0 <= k <= g.max ensures ListOk(g, AfterMerge(b, n, idx), k) { MergeLists(g, b, live, n, idx, k); }
  }

  lemma MergeStatus(g: Geometry, b: Bits, live: set<Node>, n: Node, idx: nat)
    requires Inv(g, b, live, {n}) && n in live && n.k < g.max && Sibling(n) !in b.alloc
    requires n.pg < |b.pages| && idx < |b.free[n.k]| && b.free[n.k][idx] == Addr(g, b.pages, Sibling(n))
    ensures StatusOk(g, AfterMerge(b, n, idx), live - {n} + {Parent(n)})
  {
    hide Blk, Offset, ListOk, AllocOk, Coalesced, SplitOk;
    var b', live' := AfterMerge(b, n, idx), live - {n} + {Parent(n)};
    BuddyIsFree(g, b, live, n);
    MergePresent(g, b, live, n, idx);
    forall m | Block(g, b', m) ensures m in live' <==> !IsFree(g, b', m) { MergeFree(g, b, live, n, idx, m); }
  }

  lemma MergeAlloc(g: Geometry, b: Bits, live: set<Node>, n: Node, idx: nat)
    requires Inv(g, b, live, {n}) && n in live && n.k < g.max && Sibling(n) !in b.alloc && idx < |b.free[n.k]|
    ensures AllocOk(g, AfterMerge(b, n, idx), live - {n} + {Parent(n)}, {Parent(n)})
  {
    hide Blk, Offset, ListOk, Coalesced;
    assert Block(g, b, n);
  }

  lemma MergeCoalesced(g: Geometry, b: Bits, live: set<Node>, n: Node, idx: nat)
    requires Inv(g, b, live, {n}) && n in live && n.k < g.max && Sibling(n) !in b.alloc
    requires n.pg < |b.pages| && idx < |b.free[n.k]| && b.free[n.k][idx] == Addr(g, b.pages, Sibling(n))
    ensures Coalesced(g, AfterMerge(b, n, idx))
  {
    hide Blk, Offset, ListOk, AllocOk, StatusOk;
    var b' := AfterMerge(b, n, idx);
    forall m | m in b'.split && m.k >= 1 ensures !(IsFree(g, b', Left(m)) && IsFree(g, b', Right(m))) {
      assert Parent(Left(m)) == m && Parent(Right(m)) == m;
      MergeFree(g, b, live, n, idx, Left(m));
      MergeFree(g, b, live, n, idx, Right(m));
    }
  }

  /** The block in hand goes on the free list of its class. */
  function AfterPut(g: Geometry, b: Bits, n: Node): Bits
    requires n.k < |b.free| && n.pg < |b.pages|
  {
    SetFree(b, n.k, [Addr(g, b.pages, n)] + b.free[n.k])
      .(alloc := if n.k < g.max then b.alloc - {n} else b.alloc)
  }

  lemma PutFree(g: Geometry, b: Bits, live: set<Node>, n: Node, m: Node)
    requires Inv(g, b, live, {n}) && n in live && Block(g, b, n) && Present(g, b, m)
    ensures IsFree(g, AfterPut(g, b, n), m) <==> IsFree(g, b, m) || m == n
  {
    hide Blk, Offset, Coalesced, AllocOk, StatusOk, ListOk;
    if m.k == n.k && Addr(g, b.pages, m) == Addr(g, b.pages, n) { SameLevel(g, b, m, n); }
  }

  lemma PutStep(g: Geometry, b: Bits, live: set<Node>, n: Node)
    requires Inv(g, b, live, {n}) && n in live && (n.k == g.max || Sibling(n) in b.alloc)
    ensures Block(g, b, n) && Inv(g, AfterPut(g, b, n), live - {n}, {})
  {
    hide Blk, Offset, ListOk, AllocOk, IsFree, Coalesced;
    assert Block(g, b, n);
    PutStatus(g, b, live, n);
    PutAlloc(g, b, live, n);
    PutAllCoalesced(g, b, live, n);
    forall k | 0 <= k <= g.max ensures ListOk(g, AfterPut(g, b, n), k) { PutLists(g, b, live, n, k); }
  }

  lemma PutStatus(g: Geometry, b: Bits, live: set<Node>, n: Node)
    requires Inv(g, b, live, {n}) && n in live && Block(g, b, n)
    ensures SplitOk(g, AfterPut(g, b, n)) && StatusOk(g, AfterPut(g, b, n), live - {n})
  {
    hide Blk, Offset, ListOk, AllocOk, IsFree, Coalesced;
    var b', live' := AfterPut(g, b, n), live - {n};
    forall m ensures Present(g, b', m) <==> Present(g, b, m) {}
    assert forall m :: Block(g, b', m) <==> Block(g, b, m);
    forall m | Block(g, b', m) ensures m in live' <==> !IsFree(g, b', m) { PutFree(g, b, live, n, m); }
  }

  lemma PutAllCoalesced(g: Geometry, b: Bits, live: set<Node>, n: Node)
    requires Inv(g, b, live, {n}) && n in live && Block(g, b, n) && (n.k == g.max || Sibling(n) in b.alloc)
    ensures Coalesced(g, AfterPut(g, b, n))
  {
    hide Blk, Offset, IsFree, ListOk, AllocOk, StatusOk, SplitOk;
    forall m | m in b.split && m.k >= 1
      ensures !(IsFree(g, AfterPut(g, b, n), Left(m)) && IsFree(g, AfterPut(g, b, n), Right(m)))
    {
      PutCoalesced(g, b, live, n, m);
    }
  }

  lemma PutAlloc(g: Geometry, b: Bits, live: set<Node>, n: Node)
    requires AllocOk(g, b, live, {n}) && StatusOk(g, b, live) && n in live && n.k < |b.free| && n.pg < |b.pages|
    ensures AllocOk(g, AfterPut(g, b, n), live - {n}, {})
  {
    assert Block(g, b, n);
  }

  lemma PutCoalesced(g: Geometry, b: Bits, live: set<Node>, n: Node, m: Node)
    requires Inv(g, b, live, {n}) && n in live && Block(g, b, n) && (n.k == g.max || Sibling(n) in b.alloc)
    requires m in b.split && m.k >= 1
    ensures !(IsFree(g, AfterPut(g, b, n), Left(m)) && IsFree(g, AfterPut(g, b, n), Right(m)))
  {
    hide Blk, Offset, ListOk;
    assert Parent(Left(m)) == m && Parent(Right(m)) == m;
    assert Present(g, b, Left(m)) && Present(g, b, Right(m));
    PutFree(g, b, live, n, Left(m));
    PutFree(g, b, live, n, Right(m));
    if m == Parent(n) {
      var s := Sibling(n);
      assert Present(g, b, s);
      if IsFree(g, b, s) { FreeIsBlock(g, b, live, {n}, s); }
      assert n == Left(m) || n == Right(m);
      assert s == Left(m) || s == Right(m);
    }
  }

  lemma PutLists(g: Geometry, b: Bits, live: set<Node>, n: Node, k: nat)
    requires Inv(g, b, live, {n}) && n in live && Block(g, b, n) && k <= g.max
    ensures ListOk(g, AfterPut(g, b, n), k)
  {
    hide Blk, Offset, Coalesced, AllocOk, SplitOk;
    var b' := AfterPut(g, b, n);
    assert ListOk(g, b, k);
    forall m ensures Block(g, b', m) <==> Block(g, b, m) {}
    forall a | a in b'.free[k] ensures exists m: Node :: m.k == k && Block(g, b', m) && Addr(g, b'.pages, m) == a {
      if a in b.free[k] {
        var m: Node :| m.k == k && Block(g, b, m) && Addr(g, b.pages, m) == a;
        assert Block(g, b', m);
      } else {
        assert Block(g, b', n);
      }
    }
  }

  /** A block that is not free is on no list at all. */
  lemma LiveUnlisted(g: Geometry, b: Bits, live: set<Node>, hand: set<Node>, n: Node, k: nat)
    requires Inv(g, b, live, hand) && n in live && k <= g.max
    ensures Block(g, b, n) && Addr(g, b.pages, n) !in b.free[k]
  {
    hide Blk, Offset, Coalesced, AllocOk, SplitOk, ListOk;
    assert Block(g, b, n);
    if Addr(g, b.pages, n) in b.free[k] { ListedOnce(g, b, live, hand, n, k); }
  }

  // ---------------------------------------------------------------- size recovery

  /**
   blk_size: going up from the smallest class, the first split bit found on the way is that
   of the live block's parent, so its size is recovered from the address alone.
   */
  lemma SizeRecovered(g: Geometry, b: Bits, live: set<Node>, n: Node, k: nat)
    requires Inv(g, b, live, {}) && n in live && k < g.max
    ensures k < n.k ==> Node(n.pg, k + 1, BlkIndex(g, k + 1, Offset(g, n))) !in b.split
    ensures k == n.k ==> Node(n.pg, k + 1, BlkIndex(g, k + 1, Offset(g, n))) in b.split
  {
    hide Blk, Offset, BlkIndex, ListOk, AllocOk, Coalesced, IsFree;
    var x := Offset(g, n);
    assert Block(g, b, n);
    CoversRange(g, n, x);
    var m := Node(n.pg, k + 1, BlkIndex(g, k + 1, x));
    if k + 1 < n.k && m in b.split { AncestorSplit(g, b, m, n, x); }
    if k == n.k { IndexUp(g, k, x); }
  }

  // ---------------------------------------------------------------- the state is determined by the live blocks

  /** m lies in the block n. */
  predicate Within(g: Geometry, m: Node, n: Node)
    requires g.leaf >= 1
  {
    m.pg == n.pg && m.k <= n.k && Covers(g, n, Offset(g, m))
  }

  /** A split block has a live block inside, for else its halves would have been merged. */
  lemma {:induction false} LiveInside(g: Geometry, b: Bits, live: set<Node>, n: Node) returns (m: Node)
    requires Inv(g, b, live, {}) && n in b.split
    ensures m in live && m.k < n.k && Within(g, m, n)
    decreases n.k
  {
    hide Blk, Offset, BlkIndex, ListOk, AllocOk;
    assert Parent(Left(n)) == n && Parent(Right(n)) == n;
    var c := if IsFree(g, b, Left(n)) then Right(n) else Left(n);
    assert Present(g, b, c) && !IsFree(g, b, c);
    if c in b.split {
      m := LiveInside(g, b, live, c);
      WithinUp(g, m, c);
    } else {
      assert Block(g, b, c);
      m := c;
      CoversRange(g, c, Offset(g, c));
      WithinUp(g, m, c);
    }
  }

  lemma WithinUp(g: Geometry, m: Node, c: Node)
    requires g.leaf >= 1 && Within(g, m, c)
    ensures Within(g, m, Parent(c))
  {
    hide Blk, Offset, BlkIndex;
    IndexUp(g, c.k, Offset(g, m));
  }

  /** The split bits are exactly the blocks with a smaller live block inside. */
  lemma SplitExactly(g: Geometry, b: Bits, live: set<Node>, n: Node)
    requires Inv(g, b, live, {})
    ensures n in b.split <==> n.k <= g.max && exists m :: m in live && m.k < n.k && Within(g, m, n)
  {
    hide Blk, Offset, BlkIndex, ListOk, AllocOk, IsFree;
    if n in b.split {
      var m := LiveInside(g, b, live, n);
    }
    forall m | m in live && m.k < n.k <= g.max && Within(g, m, n) ensures n in b.split {
      assert Block(g, b, m);
      CoversRange(g, m, Offset(g, m));
      AncestorSplit(g, b, m, n, Offset(g, m));
    }
  }

  /**
   Two states with the same pages and the same live blocks have the same split bits, the same
   free blocks and, below the largest size, the same alloc bits: an allocation followed by its
   free undoes every split.
   */
  lemma Canonical(g: Geometry, b: Bits, b': Bits, live: set<Node>, n: Node)
    requires Inv(g, b, live, {}) && Inv(g, b', live, {}) && b.pages == b'.pages
    ensures n in b.split <==> n in b'.split
    ensures Block(g, b, n) <==> Block(g, b', n)
    ensures Block(g, b, n) ==> (IsFree(g, b, n) <==> IsFree(g, b', n))
    ensures n.k < g.max ==> (n in b.alloc <==> n in b'.alloc)
  {
    hide Blk, Offset, ListOk, IsFree;
    SplitExactly(g, b, live, n);
    SplitExactly(g, b', live, n);
    SplitExactly(g, b, live, Parent(n));
    SplitExactly(g, b', live, Parent(n));
  }

  // ---------------------------------------------------------------- adding a page

  function AfterAdd(g: Geometry, b: Bits, p: nat): Bits
    requires |b.free| == g.max + 1
  {
    SetFree(b, g.max, [p] + b.free[g.max]).(pages := b.pages + [p])
  }

  /** The new page is apart from the others. */
  ghost predicate FreshPage(g: Geometry, pages: seq<nat>, p: nat) {
    p >= 1 && forall a :: 0 <= a < |pages| ==> pages[a] + Blk(g, g.max) <= p || p + Blk(g, g.max) <= pages[a]
  }

  /** Addresses inside the managed pages. */
  ghost predicate InPages(g: Geometry, pages: seq<nat>, a: nat) {
    exists pg :: 0 <= pg < |pages| && pages[pg] <= a < pages[pg] + Blk(g, g.max)
  }

  lemma FreeInPages(g: Geometry, b: Bits, live: set<Node>, hand: set<Node>, k: nat, a: nat)
    requires Inv(g, b, live, hand) && k <= g.max && a in b.free[k]
    ensures InPages(g, b.pages, a)
  {
    hide Blk, Offset, AllocOk, Coalesced, StatusOk;
    assert ListOk(g, b, k);
    var n: Node :| n.k == k && Block(g, b, n) && Addr(g, b.pages, n) == a;
    InsidePage(g, b, n);
    assert b.pages[n.pg] <= a;
  }

  lemma AddStep(g: Geometry, b: Bits, live: set<Node>, p: nat)
    requires Inv(g, b, live, {}) && FreshPage(g, b.pages, p)
    ensures Inv(g, AfterAdd(g, b, p), live, {})
  {
    hide Blk, Offset, ListOk, IsFree;
    var b', top := AfterAdd(g, b, p), Node(|b.pages|, g.max, 0);
    forall m ensures Present(g, b', m) <==> Present(g, b, m) || m == top {}
    assert forall m :: Block(g, b', m) <==> Block(g, b, m) || m == top;
    forall m | Block(g, b', m) ensures m in live <==> !IsFree(g, b', m) { AddFree(g, b, live, p, m); }
    forall m | m in b'.split && m.k >= 1 ensures !(IsFree(g, b', Left(m)) && IsFree(g, b', Right(m))) {
      assert Parent(Left(m)) == m && Parent(Right(m)) == m;
      AddFree(g, b, live, p, Left(m));
      AddFree(g, b, live, p, Right(m));
    }
    forall k | 0 <= k <= g.max ensures ListOk(g, b', k) { AddLists(g, b, live, p, k); }
  }

  lemma AddFree(g: Geometry, b: Bits, live: set<Node>, p: nat, m: Node)
    requires Inv(g, b, live, {}) && FreshPage(g, b.pages, p) && Present(g, AfterAdd(g, b, p), m)
    ensures IsFree(g, AfterAdd(g, b, p), m) <==> IsFree(g, b, m) || m == Node(|b.pages|, g.max, 0)
  {
    hide Blk, AllocOk, Coalesced, StatusOk, ListOk;
    if m.pg < |b.pages| {
      assert Present(g, b, m);
      InsidePage(g, b, m);
      assert Addr(g, b.pages, m) == Addr(g, b.pages + [p], m);
    }
  }

  lemma AddLists(g: Geometry, b: Bits, live: set<Node>, p: nat, k: nat)
    requires Inv(g, b, live, {}) && FreshPage(g, b.pages, p) && k <= g.max
    ensures ListOk(g, AfterAdd(g, b, p), k)
  {
    hide Blk, AllocOk, Coalesced, StatusOk;
    var b', top := AfterAdd(g, b, p), Node(|b.pages|, g.max, 0);
    assert ListOk(g, b, k);
    assert p !in b.free[g.max] by {
      if p in b.free[g.max] { FreeInPages(g, b, live, {}, g.max, p); }
    }
    forall a | a in b'.free[k] ensures exists n: Node :: n.k == k && Block(g, b', n) && Addr(g, b'.pages, n) == a {
      if a in b.free[k] {
        var n: Node :| n.k == k && Block(g, b, n) && Addr(g, b.pages, n) == a;
        assert Block(g, b', n) && Addr(g, b'.pages, n) == a;
      } else {
        assert Block(g, b', top) && Addr(g, b'.pages, top) == a;
      }
    }
  }

  // ---------------------------------------------------------------- firstk

  lemma {:induction false} BlkMonotone(g: Geometry, j: nat, k: nat)
    requires j <= k
    ensures Blk(g, j) <= Blk(g, k)
    decreases k
  {
    if j < k { BlkMonotone(g, j, k - 1); }
  }

  /** The least size class whose blocks have n bytes. */
  ghost predicate IsFirst(g: Geometry, n: int, k: nat) {
    Blk(g, k) >= n && (k == 0 || Blk(g, k - 1) < n)
  }

  /** No free block has n bytes. */
  ghost predicate NoRoom(g: Geometry, b: Bits, n: int) {
    forall k :: 0 <= k <= g.max && k < |b.free| && Blk(g, k) >= n ==> b.free[k] == []
  }

  lemma RoomFound(g: Geometry, b: Bits, n: int, fk: nat, k: nat)
    requires IsFirst(g, n, fk) && fk <= k <= g.max && k < |b.free| && b.free[k] != []
    ensures !NoRoom(g, b, n)
  {
    BlkMonotone(g, fk, k);
  }

  method Firstk(g: Geometry, n: int) returns (k: nat)
    requires g.leaf >= 1
    ensures IsFirst(g, n, k)
    ensures forall j: nat :: Blk(g, j) >= n ==> j >= k
  {
    k := 0;
    var size := g.leaf;
    while size < n
      invariant size == Blk(g, k) && size >= 1
      invariant k == 0 || Blk(g, k - 1) < n
      decreases n - size
    {
      k := k + 1;
      size := size * 2;
    }
    forall j: nat | Blk(g, j) >= n ensures j >= k {
      if k > 0 && j <= k - 1 { BlkMonotone(g, j, k - 1); }
    }
  }

  // ---------------------------------------------------------------- the code

  /** The free-list heads are distinct, outside the pages, and head all the lists there are. */
  ghost predicate HeadsOk(g: Geometry, heads: seq<nat>, pages: seq<nat>, lists: map<nat, seq<nat>>) {
    && |heads| == g.max + 1 && NoDuplicates(heads)
    && (forall h :: h in lists <==> h in heads)
    && (forall h :: h in heads ==> !InPages(g, pages, h))
  }

  /** The lists as the allocator indexes them. */
  ghost function FreeLists(heads: seq<nat>, lists: map<nat, seq<nat>>): (f: seq<seq<nat>>)
    requires forall h :: h in heads ==> h in lists
    ensures |f| == |heads|
  {
    seq(|heads|, k requires 0 <= k < |heads| => lists[heads[k]])
  }

  lemma FreeListsUpdate(heads: seq<nat>, lists: map<nat, seq<nat>>, k: nat, l: seq<nat>)
    requires (forall h :: h in heads ==> h in lists) && NoDuplicates(heads) && k < |heads|
    ensures FreeLists(heads, lists[heads[k] := l]) == FreeLists(heads, lists)[k := l]
  {
  }

  /** A block's address that no free list has may be pushed. */
  lemma MayPush(g: Geometry, b: Bits, live: set<Node>, hand: set<Node>, heads: seq<nat>, lists: map<nat, seq<nat>>,
      a: nat)
    requires HeadsOk(g, heads, b.pages, lists) && b.free == FreeLists(heads, lists)
    requires InPages(g, b.pages, a) && forall k :: 0 <= k <= g.max ==> a !in b.free[k]
    ensures Unlisted(lists, a)
  {
    hide Blk;
    forall h | h in lists ensures a !in lists[h] {
      var k :| 0 <= k < |heads| && heads[k] == h;
      assert b.free[k] == lists[h];
    }
  }

  lemma BlockInPages(g: Geometry, b: Bits, n: Node)
    requires PagesOk(g, b.pages) && SplitOk(g, b) && Present(g, b, n)
    ensures InPages(g, b.pages, Addr(g, b.pages, n)) && Addr(g, b.pages, n) >= 1
    ensures b.pages[n.pg] <= Addr(g, b.pages, n) < b.pages[n.pg] + Blk(g, g.max)
    ensures BlkIndex(g, n.k, Addr(g, b.pages, n) - b.pages[n.pg]) == n.i
  {
    hide Blk, Offset, BlkIndex;
    InsidePage(g, b, n);
    CoversRange(g, n, Offset(g, n));
  }

  lemma RoundUp(x: nat, b: nat)
    requires b >= 1
    ensures x <= (x + b - 1) / b * b < x + b
  {
    DivRange(x + b - 1, b);
  }

  /** The number of whole pages of a size between two addresses, the first rounded up. */
  function WholePages(start: nat, end: nat, size: nat): nat
    requires size >= 1
  {
    var p := (start + size - 1) / size * size;
    if p <= end then (end - p) / size else 0
  }

  lemma WholeCount(start: nat, end: nat, size: nat, n: nat, p: nat)
    requires size >= 1 && p == (start + size - 1) / size * size + n * size && p + size > end && (n > 0 ==> p <= end)
    ensures n == WholePages(start, end, size)
  {
    var first := (start + size - 1) / size * size;
    if first <= end {
      DivUnique(end - first, size, n);
    }
  }

  lemma Aligned(start: nat, size: nat, n: nat)
    requires size >= 1
    ensures ((start + size - 1) / size * size + n * size) % size == 0
  {
    var k := (start + size - 1) / size;
    assert k * size + n * size == (k + n) * size;
    MultipleMod(k + n, size);
  }

  lemma MultipleMod(k: nat, size: nat)
    requires size >= 1
    ensures k * size % size == 0
  {
    DivUnique(k * size, size, k);
  }

  lemma NotFull(n: nat, max: nat, size: nat, start: nat, p: nat, end: nat)
    requires size >= 1 && n * size + start <= p && p + size <= end <= start + max * size
    ensures n < max && (n + 1) * size == n * size + size
  {
    assert (n + 1) * size == n * size + size;
    if n >= max { Scale(max, n, size); }
  }

  lemma EmptyInv(g: Geometry, free: seq<seq<nat>>)
    requires g.leaf >= 1 && |free| == g.max + 1 && forall k :: 0 <= k < |free| ==> free[k] == []
    ensures Inv(g, Bits([], {}, {}, free), {}, {})
  {
    hide Blk, Offset;
  }

  lemma PageUnlisted(g: Geometry, b: Bits, live: set<Node>, heads: seq<nat>, lists: map<nat, seq<nat>>, p: nat)
    requires Inv(g, b, live, {}) && FreshPage(g, b.pages, p)
    requires HeadsOk(g, heads, b.pages, lists) && b.free == FreeLists(heads, lists)
    requires forall h :: h in heads ==> !(p <= h < p + Blk(g, g.max))
    ensures Unlisted(lists, p) && p >= 1 && |heads| == g.max + 1
  {
    forall h | h in lists ensures p !in lists[h] {
      var k :| 0 <= k < |heads| && heads[k] == h;
      assert b.free[k] == lists[h];
      if p in b.free[k] { FreeInPages(g, b, live, {}, k, p); }
    }
  }

  lemma HeadsAdd(g: Geometry, heads: seq<nat>, pages: seq<nat>, lists: map<nat, seq<nat>>, p: nat)
    requires HeadsOk(g, heads, pages, lists)
    requires forall h :: h in heads ==> !(p <= h < p + Blk(g, g.max))
    ensures HeadsOk(g, heads, pages + [p], lists)
    ensures forall l: map<nat, seq<nat>> :: l.Keys == lists.Keys ==> HeadsOk(g, heads, pages + [p], l)
  {
    forall h | h in heads ensures !InPages(g, pages + [p], h) {
      forall pg | 0 <= pg < |pages| ensures !(pages[pg] <= h < pages[pg] + Blk(g, g.max)) {
        assert !InPages(g, pages, h);
      }
    }
  }

  /** The page found for an address is the page of the block. */
  lemma PageOf(g: Geometry, pages: seq<nat>, a: nat, pg: nat, i: int)
    requires PagesOk(g, pages) && pg < |pages| && pages[pg] <= a < pages[pg] + Blk(g, g.max)
    requires i == -1 || (0 <= i < |pages| && pages[i] <= a < pages[i] + Blk(g, g.max))
    requires i == -1 ==> !InPages(g, pages, a)
    ensures i == pg
  {
    assert InPages(g, pages, a);
  }

  lemma TakeFacts(g: Geometry, b: Bits, live: set<Node>, n: Node)
    requires Inv(g, b, live, {}) && Block(g, b, n)
    ensures PagesOk(g, b.pages) && n.pg < |b.pages|
    ensures b.pages[n.pg] <= Addr(g, b.pages, n) < b.pages[n.pg] + Blk(g, g.max) && Addr(g, b.pages, n) >= 1
    ensures BlkIndex(g, n.k, Addr(g, b.pages, n) - b.pages[n.pg]) == n.i
  {
    hide Blk, Offset, BlkIndex;
    BlockInPages(g, b, n);
  }

  lemma SplitFacts(g: Geometry, b: Bits, live: set<Node>, heads: seq<nat>, lists: map<nat, seq<nat>>, n: Node)
    requires Inv(g, b, live, {}) && n in live && n.k >= 1
    requires HeadsOk(g, heads, b.pages, lists) && b.free == FreeLists(heads, lists)
    ensures n.pg < |b.pages| && n.k <= g.max && |heads| == g.max + 1
    ensures var p := Addr(g, b.pages, n);
            && p >= b.pages[n.pg]
            && Addr(g, b.pages, Left(n)) == p && Addr(g, b.pages, Right(n)) == p + Blk(g, n.k - 1)
            && BlkIndex(g, n.k, p - b.pages[n.pg]) == n.i
            && BlkIndex(g, n.k - 1, p - b.pages[n.pg]) == 2 * n.i
            && Unlisted(lists, p + Blk(g, n.k - 1))
  {
    hide Blk, Offset, BlkIndex, AllocOk, Coalesced, ListOk;
    assert Block(g, b, n);
    OffsetLeft(g, n);
    CoversRange(g, n, Offset(g, n));
    CoversRange(g, Left(n), Offset(g, n));
    InsidePage(g, b, n);
    HalvesInside(g, n);
    var q := Addr(g, b.pages, Right(n));
    assert b.pages[n.pg] <= q < b.pages[n.pg] + Blk(g, g.max);
    forall k | 0 <= k <= g.max ensures q !in b.free[k] { HalvesUnlisted(g, b, live, n, k); }
    MayPush(g, b, live, {}, heads, lists, q);
  }

  lemma LeftIsNew(g: Geometry, b: Bits, live: set<Node>, before: set<Node>, n: Node)
    requires Inv(g, b, live, {}) && n in live && n.k >= 1 && before <= live
    ensures Left(n) !in before && n.k <= g.max
  {
    HalvesAbsent(g, b, live, n);
  }

  lemma LiveFacts(g: Geometry, b: Bits, live: set<Node>, hand: set<Node>, n: Node)
    requires Inv(g, b, live, hand) && n in live
    ensures PagesOk(g, b.pages) && n.pg < |b.pages| && n.k <= g.max && Block(g, b, n)
    ensures b.pages[n.pg] <= Addr(g, b.pages, n) < b.pages[n.pg] + Blk(g, g.max) && Addr(g, b.pages, n) >= 1
    ensures BlkIndex(g, n.k, Addr(g, b.pages, n) - b.pages[n.pg]) == n.i
    ensures Addr(g, b.pages, n) - b.pages[n.pg] == Offset(g, n)
  {
    hide Blk, Offset, BlkIndex, AllocOk, Coalesced, ListOk;
    assert Block(g, b, n);
    BlockInPages(g, b, n);
  }

  lemma HandUnlisted(g: Geometry, b: Bits, live: set<Node>, n: Node, heads: seq<nat>, lists: map<nat, seq<nat>>)
    requires Inv(g, b, live, {n}) && n in live
    requires HeadsOk(g, heads, b.pages, lists) && b.free == FreeLists(heads, lists)
    ensures Block(g, b, n) && Unlisted(lists, Addr(g, b.pages, n)) && |heads| == g.max + 1
  {
    hide Blk, Offset, BlkIndex, AllocOk, Coalesced, ListOk;
    assert Block(g, b, n);
    BlockInPages(g, b, n);
    forall k | 0 <= k <= g.max ensures Addr(g, b.pages, n) !in b.free[k] { LiveUnlisted(g, b, live, {n}, n, k); }
    MayPush(g, b, live, {n}, heads, lists, Addr(g, b.pages, n));
  }

  lemma HandFrom(g: Geometry, b: Bits, live: set<Node>, n: Node)
    requires Inv(g, b, live, {})
    ensures Inv(g, b, live, {n})
  {
    hide Blk, Offset, ListOk, IsFree;
  }

  lemma ClearHand(g: Geometry, b: Bits, live: set<Node>, n: Node)
    requires Inv(g, b, live, {n})
    ensures Inv(g, b.(alloc := b.alloc - {n}), live, {n})
  {
    hide Blk, Offset;
    var b' := b.(alloc := b.alloc - {n});
    assert forall m :: Present(g, b', m) <==> Present(g, b, m);
    assert forall m :: Block(g, b', m) <==> Block(g, b, m);
    assert forall m :: IsFree(g, b', m) <==> IsFree(g, b, m);
    forall k | 0 <= k <= g.max ensures ListOk(g, b', k) {
      assert ListOk(g, b, k);
      ListShrinks(g, b, b', k);
    }
  }

  lemma ParentIsNew(g: Geometry, b: Bits, live: set<Node>, n: Node)
    requires Inv(g, b, live, {n}) && n in live && n.k < g.max
    ensures Parent(n) !in live
  {
    hide Blk, Offset, ListOk, IsFree;
    assert Block(g, b, n);
    assert Parent(n) in live ==> Block(g, b, Parent(n));
  }

  /** The addresses bd_free computes for the buddy and for the merged block. */
  lemma MergeFacts(g: Geometry, b: Bits, live: set<Node>, n: Node)
    requires Inv(g, b, live, {n}) && n in live && n.k < g.max && Sibling(n) !in b.alloc
    ensures n.pg < |b.pages| && Addr(g, b.pages, n) >= b.pages[n.pg]
    ensures var base, s := b.pages[n.pg], Sibling(n);
            && BlkIndex(g, n.k, Addr(g, b.pages, n) - base) == n.i
            && Addr(g, b.pages, s) == base + s.i * Blk(g, n.k)
            && Addr(g, b.pages, s) in b.free[n.k]
            && Addr(g, b.pages, Parent(n)) == (if s.i % 2 == 0 then Addr(g, b.pages, s) else Addr(g, b.pages, n))
            && BlkIndex(g, n.k + 1, Addr(g, b.pages, Parent(n)) - base) == Parent(n).i
  {
    hide Blk, Offset, BlkIndex, AllocOk, Coalesced, ListOk, StatusOk;
    BuddyIsFree(g, b, live, n);
    LiveFacts(g, b, live, {n}, n);
    MergeAddress(g, n);
    BlockInPages(g, b, Parent(n));
  }

  lemma MergeAddress(g: Geometry, n: Node)
    ensures Offset(g, Parent(n)) == Offset(g, if Sibling(n).i % 2 == 0 then Sibling(n) else n)
    ensures Offset(g, Sibling(n)) == Sibling(n).i * Blk(g, n.k)
  {
    OffsetLeft(g, Parent(n));
  }

  class Table {
    const g: Geometry
    const maxPages: nat
    const heads: seq<nat>       // addresses of freelist[0..]
    const lists: ListMemory
    var pages: seq<nat>         // the non-zero entries of plist
    var alloc: set<Node>
    var split: set<Node>
    ghost var live: set<Node>

    ghost predicate Wired()
      reads this, lists
    {
      lists.Valid() && g.leaf >= 1 && HeadsOk(g, heads, pages, lists.lists)
    }

    ghost function View(): (b: Bits)
      requires Wired()
      reads this, lists
    {
      Bits(pages, alloc, split, FreeLists(heads, lists.lists))
    }

    ghost predicate Valid()
      reads this, lists
    {
      Wired() && Inv(g, View(), live, {})
    }

    /** get_page_index: the page that holds an address. */
    method PageIndex(a: nat) returns (i: int)
      requires g.leaf >= 1
      ensures i == -1 || (0 <= i < |pages| && pages[i] <= a < pages[i] + Blk(g, g.max))
      ensures i == -1 ==> !InPages(g, pages, a)
    {
      i := 0;
      while i < |pages|
        invariant 0 <= i <= |pages|
        invariant forall j :: 0 <= j < i ==> !(pages[j] <= a < pages[j] + Blk(g, g.max))
      {
        if pages[i] <= a && a - pages[i] < Blk(g, g.max) { return; }
        i := i + 1;
      }
      i := -1;
    }

    /** bd_init: empty lists, no pages. */
    constructor (g: Geometry, maxPages: nat, heads: seq<nat>)
      requires g.leaf >= 1 && |heads| == g.max + 1 && NoDuplicates(heads) && 0 !in heads
      ensures Valid() && fresh(lists) && this.g == g && this.maxPages == maxPages && this.heads == heads
      ensures pages == [] && live == {}
    {
      this.g, this.maxPages, this.heads := g, maxPages, heads;
      pages, alloc, split, live := [], {}, {}, {};
      lists := new ListMemory();
      new;
      var i := 0;
      while i < |heads|
        invariant 0 <= i <= |heads|
        invariant fresh(lists) && lists.Valid()
        invariant forall h :: h in lists.lists <==> h in heads[..i]
        invariant forall h :: h in lists.lists ==> lists.lists[h] == []
        invariant pages == [] && alloc == {} && split == {} && live == {}
      {
        lists.LstInit(heads[i]);
        i := i + 1;
      }
      assert heads[..i] == heads;
      EmptyInv(g, FreeLists(heads, lists.lists));
    }

    /** bd_addpage, and one round of table_init's loop; false stands for its panic. */
    method AddPage(p: nat) returns (ok: bool)
      requires Valid() && FreshPage(g, pages, p)
      requires forall h :: h in heads ==> !(p <= h < p + Blk(g, g.max))
      modifies this, lists
      ensures Valid() && live == old(live)
      ensures ok == (|old(pages)| < maxPages)
      ensures pages == if ok then old(pages) + [p] else old(pages)
      ensures if ok then View() == AfterAdd(g, old(View()), p) else View() == old(View())
    {
      if |pages| >= maxPages { return false; }
      hide Blk, Inv;
      ghost var b := View();
      AddStep(g, b, live, p);
      PageUnlisted(g, b, live, heads, lists.lists, p);
      HeadsAdd(g, heads, pages, lists.lists, p);
      FreeListsUpdate(heads, lists.lists, g.max, [p] + lists.lists[heads[g.max]]);
      lists.LstPush(heads[g.max], p);
      pages := pages + [p];
      assert View() == AfterAdd(g, b, p);
      ok := true;
    }

    /** table_init: as many whole pages as there are from start, rounded up, to end. */
    method TableInit(start: nat, end: nat)
      requires Valid() && pages == [] && live == {} && Blk(g, g.max) >= 1
      requires 1 <= start <= end <= start + maxPages * Blk(g, g.max)
      requires forall h :: h in heads ==> h < start
      modifies this, lists
      ensures Valid() && live == {}
      ensures |pages| == WholePages(start, end, Blk(g, g.max))
      ensures forall a :: 0 <= a < |pages| ==>
          start <= pages[a] && pages[a] + Blk(g, g.max) <= end && pages[a] % Blk(g, g.max) == 0
    {
      hide Blk, Inv, HeadsOk;
      var size := Blk(g, g.max);
      RoundUp(start, size);
      var p := (start + size - 1) / size * size;
      ghost var first := p;
      while p + size <= end
        invariant start <= p == first + |pages| * size && (|pages| > 0 ==> p <= end)
        invariant Valid() && live == {}
        invariant forall a :: 0 <= a < |pages| ==>
            start <= pages[a] && pages[a] + size <= p && pages[a] + size <= end && pages[a] % size == 0
        decreases end - p
      {
        NotFull(|pages|, maxPages, size, start, p, end);
        Aligned(start, size, |pages|);
        var ok := AddPage(p);
        p := p + size;
      }
      WholeCount(start, end, size, |pages|, p);
    }

    /** Take the head of freelist[k] and mark it allocated. */
    method Pop(k: nat, ghost n: Node) returns (p: nat, pg: int)
      requires Valid() && k <= g.max && n.k == k && View().free[k] != []
      requires Block(g, View(), n) && n !in live && Addr(g, pages, n) == View().free[k][0]
      modifies this, lists
      ensures Valid() && pages == old(pages) && live == old(live) + {n} && View() == AfterTake(old(View()), n)
      ensures n.pg < |pages| && pg == n.pg && p == Addr(g, pages, n) && p >= 1
    {
      hide Blk, Offset, BlkIndex, Inv;
      ghost var b := View();
      TakeStep(g, b, live, n);
      TakeFacts(g, b, live, n);
      FreeListsUpdate(heads, lists.lists, k, lists.lists[heads[k]][1..]);
      p := lists.LstPop(heads[k]);
      pg := PageIndex(p);
      PageOf(g, pages, p, n.pg, pg);
      alloc := alloc + {Node(pg, k, BlkIndex(g, k, p - pages[pg]))};
      live := live + {n};
      assert View() == AfterTake(b, n);
    }

    /** lst_push on a free list. */
    method PushFree(k: nat, q: nat)
      requires Wired() && k <= g.max && q != 0 && Unlisted(lists.lists, q)
      modifies lists
      ensures Wired() && View() == SetFree(old(View()), k, [q] + old(View()).free[k])
    {
      FreeListsUpdate(heads, lists.lists, k, [q] + lists.lists[heads[k]]);
      lists.LstPush(heads[k], q);
    }

    /** One round of the splitting loop: the lower half stays allocated, the upper half is freed. */
    method SplitBlock(p: nat, pg: nat, k: nat, ghost n: Node)
      requires Valid() && n in live && n.pg == pg < |pages| && n.k == k >= 1 && p == Addr(g, pages, n)
      modifies this, lists
      ensures Valid() && pages == old(pages) && live == old(live) - {n} + {Left(n)}
      ensures View() == AfterSplit(g, old(View()), n) && p == Addr(g, pages, Left(n))
    {
      hide Blk, Offset, BlkIndex, Inv, HeadsOk, FreeLists, Unlisted;
      ghost var b := View();
      SplitStep(g, b, live, n);
      SplitFacts(g, b, live, heads, lists.lists, n);
      var q := p + Blk(g, k - 1);
      var whole, half := Node(pg, k, BlkIndex(g, k, p - pages[pg])), Node(pg, k - 1, BlkIndex(g, k - 1, p - pages[pg]));
      PushFree(k - 1, q);
      split, alloc, live := split + {whole}, alloc + {half}, live - {n} + {Left(n)};
      assert View() == AfterSplit(g, b, n);
    }

    /** The first size class from fk on with a free block; g.max + 1 or more if there is none. */
    method FindClass(fk: nat) returns (k: nat)
      requires Valid()
      ensures k >= fk
      ensures k <= g.max ==> k < |View().free| && View().free[k] != []
      ensures forall j :: fk <= j < k && j <= g.max ==> View().free[j] == []
    {
      hide Blk, Inv;
      k := fk;
      while k <= g.max
        invariant fk <= k
        invariant forall j :: fk <= j < k && j <= g.max ==> View().free[j] == []
        decreases g.max + 1 - k
      {
        var empty := lists.LstEmpty(heads[k]);
        if !empty { return; }
        k := k + 1;
      }
    }

    /** bd_alloc; 0 means no free block is large enough. n is the block handed out. */
    method Alloc(nbytes: int) returns (p: nat, ghost n: Node)
      requires Valid()
      modifies this, lists
      ensures Valid() && pages == old(pages)
      ensures p == 0 <==> NoRoom(g, old(View()), nbytes)
      ensures p == 0 ==> live == old(live) && View() == old(View())
      ensures p != 0 ==> n !in old(live) && live == old(live) + {n} && IsFirst(g, nbytes, n.k)
                         && n.pg < |pages| && p == Addr(g, pages, n)
    {
      hide Blk, Offset, BlkIndex, Inv, HeadsOk, IsFirst;
      n := Node(0, 0, 0);
      var fk := Firstk(g, nbytes);
      var k := FindClass(fk);
      if k > g.max { return 0, n; }
      RoomFound(g, View(), nbytes, fk, k);
      n := HeadBlock(g, View(), live, k);
      TakeFacts(g, View(), live, n);
      var pg: int;
      p, pg := Pop(k, n);
      while k > fk
        invariant fk <= k && n.k == k && n in live && n.pg == pg < |pages|
        invariant Valid() && pages == old(pages) && live == old(live) + {n} && n !in old(live)
        invariant p == Addr(g, pages, n) && p != 0
      {
        LeftIsNew(g, View(), live, old(live), n);
        SplitBlock(p, pg, k, n);
        n := Left(n);
        k := k - 1;
      }
    }

    /** blk_size: the size class of a live block, found from its address. */
    method BlkSize(p: nat, pg: nat, ghost n: Node) returns (k: nat)
      requires Valid() && n in live && n.pg == pg < |pages| && p == Addr(g, pages, n)
      ensures k == n.k
    {
      hide Blk, Offset, BlkIndex, Inv;
      LiveFacts(g, View(), live, {}, n);
      k := 0;
      while k < g.max
        invariant 0 <= k <= n.k
      {
        SizeRecovered(g, View(), live, n, k);
        if Node(pg, k + 1, BlkIndex(g, k + 1, p - pages[pg])) in split { return; }
        k := k + 1;
      }
    }

    /** lst_remove of the buddy and the clearing of the parent's bits. */
    method Merge(p: nat, pg: nat, k: nat, ghost m: Node) returns (p': nat)
      requires Wired() && Inv(g, View(), live, {m}) && m in live && m.pg == pg < |pages| && m.k == k < g.max
      requires p == Addr(g, pages, m) && Sibling(m) !in alloc && m !in alloc
      modifies this, lists
      ensures Wired() && Inv(g, View(), live, {Parent(m)}) && pages == old(pages)
      ensures live == old(live) - {m} + {Parent(m)} && p' == Addr(g, pages, Parent(m))
    {
      hide Blk, Offset, BlkIndex, Inv;
      ghost var b := View();
      var bi := BlkIndex(g, k, p - pages[pg]);
      var buddy := if bi % 2 == 0 then bi + 1 else bi - 1;
      MergeFacts(g, b, live, m);
      var q := pages[pg] + buddy * Blk(g, k);
      ghost var idx :| 0 <= idx < |b.free[k]| && b.free[k][idx] == q;
      MergeStep(g, b, live, m, idx);
      FreeListsUpdate(heads, lists.lists, k, Without(lists.lists[heads[k]], idx));
      lists.LstRemove(q, heads[k], idx);
      p' := if buddy % 2 == 0 then q else p;
      var up := Node(pg, k + 1, BlkIndex(g, k + 1, p' - pages[pg]));
      alloc, split, live := alloc - {up}, split - {up}, live - {m} + {Parent(m)};
      assert View() == AfterMerge(b, m, idx);
    }

    /** bd_free of a live block, known by its address only. */
    method Free(p: nat, ghost n: Node)
      requires Valid() && n in live && n.pg < |pages| && p == Addr(g, pages, n)
      modifies this, lists
      ensures Valid() && pages == old(pages) && live == old(live) - {n}
    {
      hide Blk, Offset, BlkIndex, Inv;
      LiveFacts(g, View(), live, {}, n);
      var pg := PageIndex(p);
      PageOf(g, pages, p, n.pg, pg);
      var k := BlkSize(p, pg, n);
      var a := p;
      ghost var m := n;
      HandFrom(g, View(), live, m);
      assert live == old(live) - {n} + {m};
      while k < g.max
        invariant Wired() && Inv(g, View(), live, {m}) && pages == old(pages)
        invariant m in live && m.pg == pg < |pages| && m.k == k <= g.max && a == Addr(g, pages, m)
        invariant live == old(live) - {n} + {m} && m !in old(live) - {n}
        decreases g.max - k
      {
        LiveFacts(g, View(), live, {m}, m);
        var bi := BlkIndex(g, k, a - pages[pg]);
        ClearHand(g, View(), live, m);
        alloc := alloc - {Node(pg, k, bi)};
        var buddy := if bi % 2 == 0 then bi + 1 else bi - 1;
        if Node(pg, k, buddy) in alloc { break; }
        ParentIsNew(g, View(), live, m);
        a := Merge(a, pg, k, m);
        k := k + 1;
        m := Parent(m);
      }
      PutBlock(a, k, m);
    }

    method PutBlock(p: nat, k: nat, ghost m: Node)
      requires Wired() && Inv(g, View(), live, {m}) && m in live && m.pg < |pages| && m.k == k <= g.max
      requires p == Addr(g, pages, m) && (k == g.max || (Sibling(m) in alloc && m !in alloc))
      modifies this, lists
      ensures Valid() && pages == old(pages) && live == old(live) - {m}
    {
      hide Blk, Offset, BlkIndex, Inv;
      ghost var b := View();
      PutStep(g, b, live, m);
      LiveFacts(g, b, live, {m}, m);
      HandUnlisted(g, b, live, m, heads, lists.lists);
      FreeListsUpdate(heads, lists.lists, k, [p] + lists.lists[heads[k]]);
      lists.LstPush(heads[k], p);
      live := live - {m};
      assert View() == AfterPut(g, b, m);
    }
  }
}