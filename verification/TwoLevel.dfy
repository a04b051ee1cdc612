/**
 The two-level kernel allocator (kernel/lib/ufkalloc.c): large blocks from an
 8K..512K buddy table, blocks below a page from a 32..4096 byte table whose pages
 are the halves of 8K leaves taken from the first. The otherwise unused row
 split[0] of the large table marks those leaves.
 */
module TwoLevel {
  import opened Buddy
  import opened IntrusiveList

  const PGSIZE: nat := 4096
  const MAX_PAGES: nat := 128
  const NBIGPGS: nat := 1024
  const LARGE: Geometry := Geometry(8192, 6)
  const SMALL: Geometry := Geometry(32, 7)

  lemma Sizes()
    ensures Blk(SMALL, 7) == PGSIZE && Blk(LARGE, 0) == 2 * PGSIZE
  {
    assert Blk(SMALL, 1) == 64 && Blk(SMALL, 2) == 128 && Blk(SMALL, 3) == 256;
    assert Blk(SMALL, 4) == 512 && Blk(SMALL, 5) == 1024 && Blk(SMALL, 6) == 2048;
  }

  lemma BigPage()
    ensures Blk(LARGE, 6) == 524288
  {
    assert Blk(LARGE, 1) == 16384 && Blk(LARGE, 2) == 32768 && Blk(LARGE, 3) == 65536;
    assert Blk(LARGE, 4) == 131072 && Blk(LARGE, 5) == 262144;
  }

  /** A block in the hands of a caller of ufkalloc. */
  datatype Handle = Small(n: Node) | Large(n: Node)

  /** The two tables and the marked leaves. */
  datatype Levels = Levels(large: Bits, largeLive: set<Node>, small: Bits, smallLive: set<Node>, marks: set<Node>)

  /** a is half of a marked leaf. */
  ghost predicate InHalf(pages: seq<nat>, marks: set<Node>, a: nat) {
    exists m :: m in marks && m.pg < |pages| && (a == Addr(LARGE, pages, m) || a == Addr(LARGE, pages, m) + PGSIZE)
  }

  /** The small table's pages are the halves of the marked leaves. */
  ghost predicate Linked2(s: Levels) {
    && (forall m :: m in s.marks ==> m in s.largeLive && m.k == 0)
    && (forall pg :: 0 <= pg < |s.small.pages| ==> InHalf(s.large.pages, s.marks, s.small.pages[pg]))
    && (forall m :: m in s.marks && m.pg < |s.large.pages| ==>
          Addr(LARGE, s.large.pages, m) in s.small.pages && Addr(LARGE, s.large.pages, m) + PGSIZE in s.small.pages)
  }

  ghost predicate Inv2(s: Levels) {
    && Inv(LARGE, s.large, s.largeLive, {})
    && Inv(SMALL, s.small, s.smallLive, {})
    && Linked2(s)
  }

  /** The blocks handed out: small blocks, and large blocks not lent to the small table. */
  ghost predicate Issued(s: Levels, h: Handle) {
    match h
    case Small(n) => n in s.smallLive && n.pg < |s.small.pages|
    case Large(n) => n in s.largeLive && n !in s.marks && n.pg < |s.large.pages|
  }

  ghost function Start(s: Levels, h: Handle): nat
    requires Issued(s, h)
  {
    match h
    case Small(n) => Addr(SMALL, s.small.pages, n)
    case Large(n) => Addr(LARGE, s.large.pages, n)
  }

  ghost function Size(h: Handle): nat {
    match h
    case Small(n) => Blk(SMALL, n.k)
    case Large(n) => Blk(LARGE, n.k)
  }

  // ---------------------------------------------------------------- where small blocks are

  /** A small block lies in a marked leaf. */
  lemma SmallInLeaf(s: Levels, n: Node) returns (m: Node)
    requires Inv2(s) && Block(SMALL, s.small, n)
    ensures m in s.marks && m.pg < |s.large.pages| && Block(LARGE, s.large, m) && m.k == 0
    ensures Addr(LARGE, s.large.pages, m) <= Addr(SMALL, s.small.pages, n)
    ensures Addr(SMALL, s.small.pages, n) + Blk(SMALL, n.k) <= Addr(LARGE, s.large.pages, m) + Blk(LARGE, 0)
  {
    hide Blk, Offset, AllocOk, Coalesced, ListOk, IsFree;
    Sizes();
    InsidePage(SMALL, s.small, n);
    assert InHalf(s.large.pages, s.marks, s.small.pages[n.pg]);
    m :| m in s.marks && m.pg < |s.large.pages|
         && (s.small.pages[n.pg] == Addr(LARGE, s.large.pages, m)
             || s.small.pages[n.pg] == Addr(LARGE, s.large.pages, m) + PGSIZE);
    assert Block(LARGE, s.large, m);
  }

  /** Blocks handed out never overlap, at whatever levels they are. */
  lemma IssuedDisjoint(s: Levels, h: Handle, h': Handle)
    requires Inv2(s) && Issued(s, h) && Issued(s, h') && h != h'
    ensures Start(s, h) + Size(h) <= Start(s, h') || Start(s, h') + Size(h') <= Start(s, h)
  {
    hide Blk, Offset, AllocOk, Coalesced, ListOk, IsFree;
    match (h, h')
    case (Small(n), Small(m)) => LiveDisjoint(SMALL, s.small, s.smallLive, n, m);
    case (Large(n), Large(m)) => LiveDisjoint(LARGE, s.large, s.largeLive, n, m);
    case (Small(n), Large(m)) =>
      assert Block(SMALL, s.small, n);
      var l := SmallInLeaf(s, n);
      LiveDisjoint(LARGE, s.large, s.largeLive, l, m);
    case (Large(n), Small(m)) =>
      assert Block(SMALL, s.small, m);
      var l := SmallInLeaf(s, m);
      LiveDisjoint(LARGE, s.large, s.largeLive, l, n);
  }

  /** A block of either table, free or handed out; a leaf lent to the small table is not one. */
  ghost predicate Tile(s: Levels, h: Handle) {
    match h
    case Small(n) => Block(SMALL, s.small, n)
    case Large(n) => Block(LARGE, s.large, n) && n !in s.marks
  }

  ghost function TileStart(s: Levels, h: Handle): nat
    requires Tile(s, h)
  {
    match h
    case Small(n) => Addr(SMALL, s.small.pages, n)
    case Large(n) => Addr(LARGE, s.large.pages, n)
  }

  /** All blocks, free ones and those handed out, at both levels, are pairwise disjoint. */
  lemma TilesDisjoint(s: Levels, h: Handle, h': Handle)
    requires Inv2(s) && Tile(s, h) && Tile(s, h') && h != h'
    ensures TileStart(s, h) + Size(h) <= TileStart(s, h') || TileStart(s, h') + Size(h') <= TileStart(s, h)
  {
    hide Blk, Offset, AllocOk, Coalesced, ListOk, IsFree;
    match (h, h')
    case (Small(n), Small(m)) => BlocksApart(SMALL, s.small, s.smallLive, n, m);
    case (Large(n), Large(m)) => BlocksApart(LARGE, s.large, s.largeLive, n, m);
    case (Small(n), Large(m)) =>
      var l := SmallInLeaf(s, n);
      BlocksApart(LARGE, s.large, s.largeLive, l, m);
    case (Large(n), Small(m)) =>
      var l := SmallInLeaf(s, m);
      BlocksApart(LARGE, s.large, s.largeLive, l, n);
  }

  /** The leaf that holds an address, as ufkfree computes it. */
  function LeafOf(s: Levels, pg: nat, a: nat): Node
    requires pg < |s.large.pages| && a >= s.large.pages[pg]
  {
    Node(pg, 0, BlkIndex(LARGE, 0, a - s.large.pages[pg]))
  }

  /** The leaf at an offset inside block n is marked exactly if n is. */
  lemma LeafMarked(b: Bits, marks: set<Node>, n: Node, x: nat)
    requires SplitOk(LARGE, b) && Block(LARGE, b, n) && Covers(LARGE, n, x)
    requires forall m :: m in marks ==> Block(LARGE, b, m) && m.k == 0
    ensures Node(n.pg, 0, BlkIndex(LARGE, 0, x)) in marks <==> n in marks
  {
    hide Blk, BlkIndex, SplitOk;
    var leaf := Node(n.pg, 0, BlkIndex(LARGE, 0, x));
    assert Covers(LARGE, leaf, x);
    if leaf in marks { BlocksDisjoint(LARGE, b, n, leaf, x); }
    if n in marks { assert n == leaf; }
  }

  lemma MarksAreBlocks(s: Levels)
    requires Inv2(s)
    ensures SplitOk(LARGE, s.large) && forall m :: m in s.marks ==> Block(LARGE, s.large, m) && m.k == 0
  {
    hide Blk, Offset, AllocOk, Coalesced, ListOk, IsFree, SplitOk;
  }

  lemma RouteSmall(s: Levels, n: Node) returns (pg: nat)
    requires Inv2(s) && Issued(s, Small(n))
    ensures pg < |s.large.pages| && s.large.pages[pg] <= Start(s, Small(n)) < s.large.pages[pg] + Blk(LARGE, 6)
    ensures LeafOf(s, pg, Start(s, Small(n))) in s.marks
  {
    hide Blk, Offset, BlkIndex, Inv, Linked2, Covers;
    var m := LeafOfSmall(s, n);
    pg := m.pg;
    var x := Start(s, Small(n)) - s.large.pages[pg];
    MarksAreBlocks(s);
    CoversRange(LARGE, m, x);
    LeafMarked(s.large, s.marks, m, x);
  }

  lemma LeafOfSmall(s: Levels, n: Node) returns (m: Node)
    requires Inv2(s) && Issued(s, Small(n))
    ensures m in s.marks && m.pg < |s.large.pages| && m.k == 0
    ensures var x := Start(s, Small(n)) - s.large.pages[m.pg];
            Offset(LARGE, m) <= x < Offset(LARGE, m) + Blk(LARGE, m.k) <= Blk(LARGE, 6)
  {
    hide Blk, Offset, BlkIndex, AllocOk, Coalesced, ListOk, IsFree, Covers;
    assert Block(SMALL, s.small, n);
    m := SmallInLeaf(s, n);
    InsidePage(LARGE, s.large, m);
  }

  lemma RouteLarge(s: Levels, n: Node)
    requires Inv2(s) && Issued(s, Large(n))
    ensures s.large.pages[n.pg] <= Start(s, Large(n)) < s.large.pages[n.pg] + Blk(LARGE, 6)
    ensures LeafOf(s, n.pg, Start(s, Large(n))) !in s.marks
  {
    hide Blk, Offset, BlkIndex, Linked2, Covers, AllocOk, Coalesced, ListOk, IsFree;
    assert Block(LARGE, s.large, n);
    MarksAreBlocks(s);
    InsidePage(LARGE, s.large, n);
    CoversRange(LARGE, n, Offset(LARGE, n));
    LeafMarked(s.large, s.marks, n, Offset(LARGE, n));
  }

  /**
   Routing: for a pointer that is live, the mark of its leaf tells which table issued it.
   */
  lemma Routing(s: Levels, h: Handle) returns (pg: nat)
    requires Inv2(s) && Issued(s, h)
    ensures pg < |s.large.pages| && s.large.pages[pg] <= Start(s, h) < s.large.pages[pg] + Blk(LARGE, 6)
    ensures LeafOf(s, pg, Start(s, h)) in s.marks <==> h.Small?
  {
    hide *;
    if h.Small? {
      pg := RouteSmall(s, h.n);
    } else {
      pg := PageOfLarge(s, h.n);
    }
    assert h == Small(h.n) || h == Large(h.n);
  }

  lemma PageOfLarge(s: Levels, n: Node) returns (pg: nat)
    requires Inv2(s) && Issued(s, Large(n))
    ensures pg < |s.large.pages| && s.large.pages[pg] <= Start(s, Large(n)) < s.large.pages[pg] + Blk(LARGE, 6)
    ensures LeafOf(s, pg, Start(s, Large(n))) !in s.marks
  {
    hide Blk, Offset, BlkIndex, Inv2;
    pg := n.pg;
    RouteLarge(s, n);
  }

  /** A byte a of a marked leaf is in a block of the small table. */
  lemma SmallTiling(s: Levels, n: Node, a: nat) returns (m: Node)
    requires Inv2(s) && n in s.marks && n.pg < |s.large.pages|
    requires Addr(LARGE, s.large.pages, n) <= a < Addr(LARGE, s.large.pages, n) + Blk(LARGE, n.k)
    ensures Block(SMALL, s.small, m) && (m in s.smallLive <==> !IsFree(SMALL, s.small, m))
    ensures Addr(SMALL, s.small.pages, m) <= a < Addr(SMALL, s.small.pages, m) + Blk(SMALL, m.k)
  {
    hide Blk, Offset, Inv, IsFree;
    Sizes();
    var base := Addr(LARGE, s.large.pages, n);
    var half := if a < base + PGSIZE then base else base + PGSIZE;
    var q :| 0 <= q < |s.small.pages| && s.small.pages[q] == half;
    m := Tiling(SMALL, s.small, s.smallLive, q, a - half);
  }

  /**
   Two-level tiling: every byte of the managed memory is in a block handed out, in a free large
   block or in a free small block.
   */
  lemma TwoLevelTiling(s: Levels, pg: nat, x: nat) returns (h: Handle)
    requires Inv2(s) && pg < |s.large.pages| && x < Blk(LARGE, 6)
    ensures match h
            case Large(n) =>
              && Block(LARGE, s.large, n) && n !in s.marks && n.pg == pg
              && Offset(LARGE, n) <= x < Offset(LARGE, n) + Blk(LARGE, n.k)
              && (Issued(s, h) <==> !IsFree(LARGE, s.large, n))
            case Small(n) =>
              && Block(SMALL, s.small, n)
              && Addr(SMALL, s.small.pages, n) <= s.large.pages[pg] + x
              && s.large.pages[pg] + x < Addr(SMALL, s.small.pages, n) + Blk(SMALL, n.k)
              && (Issued(s, h) <==> !IsFree(SMALL, s.small, n))
  {
    hide Blk, Offset, Inv, IsFree, Linked2;
    var n := Tiling(LARGE, s.large, s.largeLive, pg, x);
    if n !in s.marks {
      h := Large(n);
    } else {
      var m := SmallTiling(s, n, s.large.pages[pg] + x);
      h := Small(m);
    }
  }

  // ---------------------------------------------------------------- lending a leaf

  /** A fresh leaf's halves are apart from the small table's pages. */
  lemma HalvesFresh(s: Levels, n: Node)
    requires Inv2(s) && n in s.largeLive && n !in s.marks && n.k == 0 && n.pg < |s.large.pages|
    ensures var p := Addr(LARGE, s.large.pages, n);
            FreshPage(SMALL, s.small.pages, p) && FreshPage(SMALL, s.small.pages + [p], p + PGSIZE)
  {
    hide Blk, Offset, AllocOk, Coalesced, ListOk, IsFree;
    Sizes();
    var p := Addr(LARGE, s.large.pages, n);
    assert Block(LARGE, s.large, n);
    forall a | 0 <= a < |s.small.pages|
      ensures s.small.pages[a] + PGSIZE <= p || p + 2 * PGSIZE <= s.small.pages[a]
    {
      assert InHalf(s.large.pages, s.marks, s.small.pages[a]);
      var m :| m in s.marks && m.pg < |s.large.pages|
           && (s.small.pages[a] == Addr(LARGE, s.large.pages, m)
               || s.small.pages[a] == Addr(LARGE, s.large.pages, m) + PGSIZE);
      LiveDisjoint(LARGE, s.large, s.largeLive, n, m);
    }
    assert s.large.pages[n.pg] >= 1;
  }

  /** The state after lending leaf n. */
  ghost predicate Lent(s: Levels, s': Levels, n: Node) {
    && n in s.largeLive && n !in s.marks && n.k == 0 && n.pg < |s.large.pages|
    && s'.large == s.large && s'.largeLive == s.largeLive && s'.smallLive == s.smallLive
    && s'.small.pages == s.small.pages + [Addr(LARGE, s.large.pages, n)] + [Addr(LARGE, s.large.pages, n) + PGSIZE]
    && s'.marks == s.marks + {n}
  }

  lemma OneMark(s: Levels, s': Levels, n: Node)
    requires Lent(s, s', n)
    ensures |s'.marks| == |s.marks| + 1
  {
  }

  lemma LendStep(s: Levels, s': Levels, n: Node)
    requires Inv2(s) && Lent(s, s', n) && Inv(SMALL, s'.small, s'.smallLive, {})
    ensures Inv2(s')
  {
    hide Blk, Offset, Inv, Addr, InHalf;
    forall pg | 0 <= pg < |s'.small.pages| ensures InHalf(s'.large.pages, s'.marks, s'.small.pages[pg]) {
      LendHalf(s, s', n, pg);
    }
    forall m | m in s'.marks && m.pg < |s'.large.pages|
      ensures Addr(LARGE, s'.large.pages, m) in s'.small.pages
      ensures Addr(LARGE, s'.large.pages, m) + PGSIZE in s'.small.pages
    {
      var p := Addr(LARGE, s.large.pages, m);
      if m == n {
        assert s'.small.pages[|s.small.pages|] == p && s'.small.pages[|s.small.pages| + 1] == p + PGSIZE;
      } else {
        assert p in s.small.pages && p + PGSIZE in s.small.pages;
      }
    }
  }

  lemma LendHalf(s: Levels, s': Levels, n: Node, pg: nat)
    requires Linked2(s) && Lent(s, s', n) && pg < |s'.small.pages|
    ensures InHalf(s'.large.pages, s'.marks, s'.small.pages[pg])
  {
    hide Blk, Offset, Addr;
    if pg < |s.small.pages| { assert InHalf(s.large.pages, s.marks, s.small.pages[pg]); } else { assert n in s'.marks; }
  }

  lemma LendIssued(s: Levels, s': Levels, n: Node, h: Handle)
    requires Inv2(s) && Lent(s, s', n)
    ensures Issued(s', h) <==> Issued(s, h) && h != Large(n)
  {
    hide Blk, Offset, Inv, Linked2;
    SmallOnOldPages(s, h);
  }

  lemma SmallOnOldPages(s: Levels, h: Handle)
    requires Inv2(s)
    ensures h.Small? && h.n in s.smallLive ==> h.n.pg < |s.small.pages|
  {
    hide Blk, Offset, AllocOk, Coalesced, ListOk, IsFree;
    if h.Small? && h.n in s.smallLive { assert Block(SMALL, s.small, h.n); }
  }

  // ---------------------------------------------------------------- steps of one table

  /** A block handed out by, or returned to, the large table. */
  lemma LargeStep(s: Levels, s': Levels, n: Node)
    requires Inv2(s) && Inv(LARGE, s'.large, s'.largeLive, {}) && n !in s.marks
    requires s'.small == s.small && s'.smallLive == s.smallLive && s'.marks == s.marks
    requires s'.large.pages == s.large.pages
    requires s'.largeLive == s.largeLive + {n} || s'.largeLive == s.largeLive - {n}
    ensures Inv2(s')
  {
    hide Blk, Offset, Inv, Addr, InHalf;
  }

  lemma SmallStep(s: Levels, s': Levels)
    requires Inv2(s) && Inv(SMALL, s'.small, s'.smallLive, {})
    requires s'.large == s.large && s'.largeLive == s.largeLive && s'.marks == s.marks
    requires s'.small.pages == s.small.pages
    ensures Inv2(s')
  {
    hide Blk, Offset, Inv, Addr, InHalf;
  }

  lemma MarkIsLive(s: Levels, n: Node)
    requires Inv2(s) && n !in s.largeLive
    ensures n !in s.marks
  {
    hide Inv;
  }

  lemma LeafSize(k: nat)
    requires IsFirst(LARGE, PGSIZE, k)
    ensures k == 0
  {
    if k > 0 { BlkMonotone(LARGE, 0, k - 1); }
  }

  lemma HeadsOutside(s: Levels, heads: seq<nat>, n: Node)
    requires Inv2(s) && n in s.largeLive && n.k == 0 && n.pg < |s.large.pages|
    requires forall h :: h in heads ==> !InPages(LARGE, s.large.pages, h)
    ensures var p := Addr(LARGE, s.large.pages, n);
            forall h :: h in heads ==> !(p <= h < p + Blk(SMALL, 7)) && !(p + PGSIZE <= h < p + PGSIZE + Blk(SMALL, 7))
  {
    hide Blk, Offset, AllocOk, Coalesced, ListOk, IsFree;
    assert Block(LARGE, s.large, n);
    Sizes();
    InsidePage(LARGE, s.large, n);
  }

  lemma LargeLeaf(s: Levels, n: Node)
    requires Inv2(s) && n in s.largeLive
    ensures PagesOk(LARGE, s.large.pages) && n.pg < |s.large.pages|
    ensures var p, base := Addr(LARGE, s.large.pages, n), s.large.pages[n.pg];
            base <= p < base + Blk(LARGE, 6) && BlkIndex(LARGE, n.k, p - base) == n.i
  {
    hide Blk, Offset, BlkIndex, Inv;
    LiveFacts(LARGE, s.large, s.largeLive, {}, n);
  }

  /** A page just added satisfies every request below a page. */
  lemma PageIsRoom(b: Bits, p: nat, n: int)
    requires |b.free| == 8 && n < PGSIZE
    ensures !NoRoom(SMALL, AfterAdd(SMALL, b, p), n)
  {
    Sizes();
    assert AfterAdd(SMALL, b, p).free[7] != [];
  }

  /** What the callers of ufkalloc and ufkfree can see of a step that issues h. */
  ghost predicate Adds(s: Levels, s': Levels, h: Handle) {
    && !Issued(s, h) && Issued(s', h)
    && (forall h' :: h' != h ==> (Issued(s', h') <==> Issued(s, h')))
    && (forall h' :: Issued(s, h') && Issued(s', h') ==> Start(s', h') == Start(s, h'))
  }

  ghost predicate Removes(s: Levels, s': Levels, h: Handle) {
    && Issued(s, h) && !Issued(s', h)
    && (forall h' :: h' != h ==> (Issued(s', h') <==> Issued(s, h')))
    && (forall h' :: Issued(s, h') && Issued(s', h') ==> Start(s', h') == Start(s, h'))
  }

  lemma LargeAdds(s: Levels, s': Levels, n: Node)
    requires Inv2(s) && Inv2(s') && n !in s.largeLive && n.pg < |s.large.pages|
    requires s'.small == s.small && s'.smallLive == s.smallLive && s'.marks == s.marks
    requires s'.large.pages == s.large.pages
    requires s'.largeLive == s.largeLive + {n}
    ensures Adds(s, s', Large(n))
  {
    hide Blk, Offset, Inv, Addr;
    MarkIsLive(s, n);
  }

  lemma SmallAdds(s: Levels, s': Levels, n: Node)
    requires Inv2(s) && n !in s.smallLive && n.pg < |s.small.pages|
    requires s'.large == s.large && s'.largeLive == s.largeLive && s'.marks == s.marks
    requires s'.small.pages == s.small.pages
    requires s'.smallLive == s.smallLive + {n}
    ensures Adds(s, s', Small(n))
  {
    hide Blk, Offset, Inv, Addr;
  }

  /** Handing out a leaf, lending it and then a small block: only the small block is issued. */
  lemma LendAdds(s: Levels, s1: Levels, s2: Levels, s': Levels, n: Node, m: Node)
    requires Inv2(s1) && Lent(s1, s2, n) && Adds(s, s1, Large(n)) && Adds(s2, s', Small(m))
    requires s.small == s1.small && s.smallLive == s1.smallLive
    ensures Adds(s, s', Small(m))
  {
    hide Inv2, Blk, Offset;
    forall h ensures Issued(s2, h) <==> Issued(s1, h) && h != Large(n) { LendIssued(s1, s2, n, h); }
    forall h' | Issued(s, h') && Issued(s', h') ensures Start(s', h') == Start(s, h') {
      LendStart(s1, s2, n, h');
    }
  }

  lemma LendStart(s: Levels, s': Levels, n: Node, h: Handle)
    requires Lent(s, s', n) && Issued(s, h) && Issued(s', h)
    ensures Start(s', h) == Start(s, h)
  {
    hide Blk, Offset;
  }

  // ---------------------------------------------------------------- the code

  lemma LargeRemoves(s: Levels, s': Levels, n: Node)
    requires Inv2(s) && Issued(s, Large(n))
    requires s'.small == s.small && s'.smallLive == s.smallLive && s'.marks == s.marks
    requires s'.large.pages == s.large.pages
    requires s'.largeLive == s.largeLive - {n}
    ensures Removes(s, s', Large(n))
  {
    hide Blk, Offset, Inv, Addr;
  }

  lemma SmallRemoves(s: Levels, s': Levels, n: Node)
    requires Inv2(s) && Issued(s, Small(n))
    requires s'.large == s.large && s'.largeLive == s.largeLive && s'.marks == s.marks
    requires s'.small.pages == s.small.pages
    requires s'.smallLive == s.smallLive - {n}
    ensures Removes(s, s', Small(n))
  {
    hide Blk, Offset, Inv, Addr;
  }

  lemma PagesAreOk(s: Levels)
    requires Inv2(s)
    ensures PagesOk(LARGE, s.large.pages)
  {
    hide Blk, SplitOk, StatusOk, AllocOk, Coalesced, ListOk;
  }

  lemma LeafUnmarked(s: Levels, s1: Levels, n: Node)
    requires Adds(s, s1, Large(n))
    ensures n in s1.largeLive && n !in s1.marks
  {
    hide Start;
  }

  lemma StartInv(s: Levels)
    requires Inv(LARGE, s.large, s.largeLive, {}) && Inv(SMALL, s.small, s.smallLive, {})
    requires s.marks == {} && s.small.pages == []
    ensures Inv2(s)
  {
    hide Inv;
  }

  /** The small table after the two halves of leaf n were added. */
  lemma LendDone(s: Levels, s': Levels, n: Node, b1: Bits)
    requires Inv2(s) && n in s.largeLive && n !in s.marks && n.k == 0 && n.pg < |s.large.pages|
    requires s'.large == s.large && s'.largeLive == s.largeLive && s'.smallLive == s.smallLive
    requires s'.marks == s.marks + {n}
    requires Inv(SMALL, b1, s.smallLive, {}) && Inv(SMALL, s'.small, s.smallLive, {})
    requires |s.small.free| == |b1.free| == 8
    requires var p := Addr(LARGE, s.large.pages, n);
             b1 == AfterAdd(SMALL, s.small, p) && s'.small == AfterAdd(SMALL, b1, p + PGSIZE)
    ensures Inv2(s') && Lent(s, s', n)
    ensures forall b: int :: b < PGSIZE ==> !NoRoom(SMALL, s'.small, b)
  {
    hide Blk, Offset, Inv, Linked2, NoRoom;
    LendStep(s, s', n);
    forall b: int | b < PGSIZE ensures !NoRoom(SMALL, s'.small, b) {
      PageIsRoom(b1, Addr(LARGE, s.large.pages, n) + PGSIZE, b);
    }
  }

  class Allocator {
    const large: Table
    const small: Table
    var marks: set<Node>         // split[0] of the large table

    /** ufkinit: whole large pages between the end of the kernel and the end of memory. The list
        heads are static data of the kernel, below its end. */
    constructor (largeHeads: seq<nat>, smallHeads: seq<nat>, start: nat, end: nat)
      requires |largeHeads| == 7 && NoDuplicates(largeHeads) && 0 !in largeHeads
      requires |smallHeads| == 8 && NoDuplicates(smallHeads) && 0 !in smallHeads
      requires 1 <= start <= end <= start + NBIGPGS * 524288
      requires forall h :: h in largeHeads || h in smallHeads ==> h < start
      ensures Valid() && marks == {} && small.pages == [] && large.live == {} && small.live == {}
      ensures |large.pages| == WholePages(start, end, Blk(LARGE, 6))
      ensures fresh(large) && fresh(small) && fresh(large.lists) && fresh(small.lists)
    {
      large := new Table(LARGE, NBIGPGS, largeHeads);
      small := new Table(SMALL, MAX_PAGES, smallHeads);
      marks := {};
      new;
      BigPage();
      large.TableInit(start, end);
      StartInv(Levels(large.View(), {}, small.View(), {}, {}));
    }

    ghost predicate Apart()
      reads this, large, small, large.lists, small.lists
    {
      && large != small && large.lists != small.lists
      && large.g == LARGE && small.g == SMALL && small.maxPages == MAX_PAGES
      && large.Valid() && small.Valid()
      && |small.pages| % 2 == 0
      && forall h :: h in small.heads ==> !InPages(LARGE, large.pages, h)
    }

    ghost function State(): Levels
      requires Apart()
      reads this, large, small, large.lists, small.lists
    {
      Levels(large.View(), large.live, small.View(), small.live, marks)
    }

    ghost predicate Valid()
      reads this, large, small, large.lists, small.lists
    {
      Apart() && Inv2(State())
    }

    /** Lend leaf n, at address p, to the small table. */
    method Lend(p: nat, ghost n: Node)
      requires Valid() && |small.pages| < MAX_PAGES
      requires n in large.live && n !in marks && n.k == 0 && n.pg < |large.pages| && p == Addr(LARGE, large.pages, n)
      modifies this, small, small.lists
      ensures Valid() && Lent(old(State()), State(), n) && |marks| == |old(marks)| + 1
      ensures forall b: int :: b < PGSIZE ==> !NoRoom(SMALL, small.View(), b)
    {
      hide Blk, Offset, BlkIndex, Inv, Inv2, NoRoom, InPages, FreshPage, AfterAdd, Lent;
      ghost var s := State();
      HalvesFresh(s, n);
      HeadsOutside(s, small.heads, n);
      LargeLeaf(s, n);
      var pg := large.PageIndex(p);
      PageOf(LARGE, large.pages, p, n.pg, pg);
      marks := marks + {Node(pg, 0, BlkIndex(LARGE, 0, p - large.pages[pg]))};
      var ok := small.AddPage(p);
      ghost var b1 := small.View();
      ok := small.AddPage(p + PGSIZE);
      LendDone(s, State(), n, b1);
      OneMark(s, State(), n);
    }

    /** ufkalloc of a page or more. */
    method AllocLarge(nbytes: int) returns (p: nat, ghost n: Node)
      requires Valid()
      modifies large, large.lists
      ensures Valid() && large.pages == old(large.pages)
      ensures p == 0 <==> NoRoom(LARGE, old(large.View()), nbytes)
      ensures p == 0 ==> State() == old(State())
      ensures p != 0 ==> IsFirst(LARGE, nbytes, n.k) && n.pg < |large.pages| && p == Addr(LARGE, large.pages, n)
                         && n in large.live && Adds(old(State()), State(), Large(n))
      ensures small.View() == old(small.View()) && small.live == old(small.live)
    {
      hide Blk, Offset, Inv, Inv2, Adds, IsFirst, NoRoom, InPages;
      ghost var s := State();
      p, n := large.Alloc(nbytes);
      if p != 0 {
        MarkIsLive(s, n);
        LargeStep(s, State(), n);
        LargeAdds(s, State(), n);
      } else {
        assert State() == s;
      }
    }

    method AllocSmall(nbytes: int) returns (p: nat, ghost n: Node)
      requires Valid()
      modifies small, small.lists
      ensures Valid() && small.pages == old(small.pages)
      ensures p == 0 <==> NoRoom(SMALL, old(small.View()), nbytes)
      ensures p == 0 ==> State() == old(State())
      ensures p != 0 ==> IsFirst(SMALL, nbytes, n.k) && n.pg < |small.pages| && p == Addr(SMALL, small.pages, n)
                         && Adds(old(State()), State(), Small(n))
    {
      hide Blk, Offset, Inv, Inv2, Adds, IsFirst, NoRoom, InPages;
      ghost var s := State();
      p, n := small.Alloc(nbytes);
      if p != 0 {
        SmallStep(s, State());
        SmallAdds(s, State(), n);
      } else {
        assert State() == s;
      }
    }

    /**
     ufkalloc. It panics exactly when no free block is large enough and, for a small request, no
     leaf can be lent either; otherwise the new block is of the smallest class that is large enough
     and is the only change to the set of blocks handed out. A leaf is lent only to a small table
     without room.
     */
    method Ufkalloc(nbytes: int) returns (panic: bool, p: nat, ghost h: Handle)
      requires Valid()
      modifies this, large, small, large.lists, small.lists
      ensures panic <==> if nbytes >= PGSIZE then NoRoom(LARGE, old(large.View()), nbytes)
                         else && NoRoom(SMALL, old(small.View()), nbytes)
                              && (NoRoom(LARGE, old(large.View()), PGSIZE) || |old(small.pages)| >= MAX_PAGES)
      ensures !panic ==> && Valid() && Adds(old(State()), State(), h)
                         && p == Start(State(), h) && Size(h) >= nbytes && p != 0
      ensures !panic ==> (h.Large? <==> nbytes >= PGSIZE) && IsFirst(if h.Large? then LARGE else SMALL, nbytes, h.n.k)
      ensures !panic ==> |marks| == |old(marks)|
                                    + if nbytes < PGSIZE && NoRoom(SMALL, old(small.View()), nbytes) then 1 else 0
    {
      hide Blk, Offset, BlkIndex, Inv, Inv2, Adds, NoRoom, InPages, Lent;
      panic, p, h := false, 0, Large(Node(0, 0, 0));
      ghost var n: Node, m: Node;
      if nbytes >= PGSIZE {
        p, n := AllocLarge(nbytes);
        h := Large(n);
        panic := p == 0;
          return;
      }
      p, m := AllocSmall(nbytes);
      h := Small(m);
      if p == 0 {
        var leaf;
        ghost var s := State();
        leaf, n := AllocLarge(PGSIZE);
        if leaf == 0 || |small.pages| >= MAX_PAGES { return true, 0, h; }
        LeafSize(n.k);
        ghost var s1 := State();
        LeafUnmarked(s, s1, n);
        Lend(leaf, n);
        ghost var s2 := State();
        p, m := AllocSmall(nbytes);
        h := Small(m);
        LendAdds(s, s1, s2, State(), n, m);
      }
    }

    /** ufkfree of a pointer that is live. */
    method Ufkfree(p: nat, ghost h: Handle)
      requires Valid() && Issued(State(), h) && p == Start(State(), h)
      modifies large, small, large.lists, small.lists
      ensures Valid() && Removes(old(State()), State(), h)
    {
      hide Blk, Offset, BlkIndex, Inv, Inv2, InPages, Removes;
      ghost var s := State();
      ghost var q := Routing(s, h);
      PagesAreOk(s);
      var pg := large.PageIndex(p);
      PageOf(LARGE, large.pages, p, q, pg);
      if Node(pg, 0, BlkIndex(LARGE, 0, p - large.pages[pg])) in marks {
        small.Free(p, h.n);
        SmallStep(s, State());
        SmallRemoves(s, State(), h.n);
      } else {
        large.Free(p, h.n);
        LargeStep(s, State(), h.n);
        LargeRemoves(s, State(), h.n);
      }
    }
  }
}
