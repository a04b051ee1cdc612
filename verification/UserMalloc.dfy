/**
 The user-level allocator (user/ulib/umalloc.c; section 8.7 of Kernighan and Ritchie,
 "The C Programming Language"). Memory is counted in header-sized units and a block is
 named by the unit of its header. Free blocks are linked in a circle through their
 headers.

 What is proved is that the circle is the free blocks in address order, closed by one
 step down from the highest to the static header base; that no two free blocks touch;
 and that free and live blocks together are exactly the units obtained from sbrk.
 */
module UserMalloc {
  import opened Common

  const UNIT: nat := 16              // sizeof(Header)
  const MIN_CORE: nat := 4096

  type Links = map<nat, nat>

  /** The block each unit is in. */
  type Owner = map<nat, nat>

  function Succ(l: seq<nat>, i: nat): nat
    requires i < |l|
  {
    if i + 1 < |l| then l[i + 1] else l[0]
  }

  /** The list is linked in a circle. */
  predicate Linked(l: seq<nat>, ptr: Links) {
    forall i: nat :: i < |l| ==> LinkAt(l, ptr, i)
  }

  predicate LinkAt(l: seq<nat>, ptr: Links, i: nat)
    requires i < |l|
  {
    l[i] in ptr && ptr[l[i]] == Succ(l, i)
  }

  /** The list has base, of size 0, first, then blocks by address, none touching the next. */
  predicate Spaced(l: seq<nat>, size: Links) {
    && |l| > 0
    && (forall i {:trigger l[i]} :: 0 <= i < |l| ==> l[i] in size && (size[l[i]] == 0 <==> i == 0))
    && (forall i, j {:trigger l[i], l[j]} :: 0 <= i < j < |l| ==> l[i] + size[l[i]] < l[j])
  }

  /** The free list. */
  predicate Circle(l: seq<nat>, ptr: Links, size: Links) {
    Spaced(l, size) && Linked(l, ptr)
  }

  predicate IsBlock(l: seq<nat>, live: set<nat>, b: nat) {
    b in live || (b in l && b != l[0])
  }

  predicate Covers(size: Links, b: nat, u: nat) { b in size && b <= u < b + size[b] }

  predicate InBlock(owner: Owner, b: nat, u: nat) { u in owner && owner[u] == b }

  /** Every unit is in the one block that owner says, and a block's units are all there. */
  ghost predicate Tiles(l: seq<nat>, live: set<nat>, size: Links, owner: Owner)
    requires |l| > 0
  {
    && (forall u: nat {:trigger owner[u]} :: u in owner ==> IsBlock(l, live, owner[u]) && Covers(size, owner[u], u))
    && (forall b: nat, u: nat {:trigger Covers(size, b, u)} :: IsBlock(l, live, b) && Covers(size, b, u) ==>
        InBlock(owner, b, u))
    && (forall b: nat {:trigger IsBlock(l, live, b)} :: IsBlock(l, live, b) ==> b in size && size[b] > 0 && b > l[0])
    && (forall b :: b in live ==> b !in l)
  }

  // ---------------------------------------------------------------- freeing a block

  /** Where a block goes: after the last free block below it. */
  predicate Place(l: seq<nat>, k: nat, b: nat) {
    k < |l| && l[k] < b && (k + 1 < |l| ==> b < l[k + 1])
  }

  function PlaceFrom(l: seq<nat>, b: nat, i: nat): (k: nat)
    requires i < |l| && l[i] < b && b !in l
    ensures i <= k < |l| && Place(l, k, b)
    decreases |l| - i
  {
    if i + 1 < |l| && l[i + 1] < b then PlaceFrom(l, b, i + 1) else i
  }

  /** The list with a block put in after index k, taking the place of m blocks there. */
  function Inserted(l: seq<nat>, k: nat, b: nat, m: nat): seq<nat>
    requires k + 1 + m <= |l|
  {
    l[..k + 1] + [b] + l[k + 1 + m..]
  }

  /** The list with m blocks after index k taken out. */
  function Removed(l: seq<nat>, k: nat, m: nat): seq<nat>
    requires k + 1 + m <= |l|
  {
    l[..k + 1] + l[k + 1 + m..]
  }

  /** The blocks next to where b goes lie outside it. */
  predicate Fits(l: seq<nat>, k: nat, b: nat, size: Links)
    requires k < |l|
  {
    && b in size && size[b] > 0
    && (forall i {:trigger l[i]} :: 0 <= i <= k ==> l[i] in size && l[i] + size[l[i]] <= b)
    && (forall i {:trigger l[i]} :: k < i < |l| ==> b + size[b] <= l[i])
  }

  lemma InsertedAt(l: seq<nat>, k: nat, b: nat, m: nat, i: nat)
    requires k + 1 + m <= |l| && i < |Inserted(l, k, b, m)|
    ensures Inserted(l, k, b, m)[i] == if i <= k then l[i] else if i == k + 1 then b else l[i - 1 + m]
  {
  }

  lemma RemovedAt(l: seq<nat>, k: nat, m: nat, i: nat)
    requires k + 1 + m <= |l| && i < |Removed(l, k, m)|
    ensures Removed(l, k, m)[i] == if i <= k then l[i] else l[i + m]
  {
  }

  lemma InsertLinked(l: seq<nat>, ptr: Links, size: Links, k: nat, b: nat, m: nat)
    requires Circle(l, ptr, size) && k + 1 + m <= |l| && b !in l
    ensures Linked(Inserted(l, k, b, m), ptr[b := Succ(l, k + m)][l[k] := b])
  {
    hide Inserted;
    var l' := Inserted(l, k, b, m);
    var ptr' := ptr[b := Succ(l, k + m)][l[k] := b];
    InsertedSize(l, k, b, m);
    forall i: nat | i < |l'| ensures LinkAt(l', ptr', i) {
      InsertedAt(l, k, b, m, i);
      InsertedAt(l, k, b, m, 0);
      assert LinkAt(l, ptr, if i <= k then i else if i == k + 1 then k + m else i - 1 + m);
      if i + 1 < |l'| {
        InsertedAt(l, k, b, m, i + 1);
      }
    }
  }

  lemma InsertedSize(l: seq<nat>, k: nat, b: nat, m: nat)
    requires k + 1 + m <= |l|
    ensures |Inserted(l, k, b, m)| == |l| + 1 - m && |Removed(l, k, m)| == |l| - m
  {
  }

  lemma InsertSpaced(l: seq<nat>, size: Links, k: nat, b: nat, m: nat, n: nat)
    requires Spaced(l, size) && k + 1 + m <= |l| && m <= 1 && Fits(l, k, b, size) && b !in l
    requires l[k] + size[l[k]] != b
    requires if m == 0 then k + 1 < |l| ==> b + size[b] != l[k + 1] else b + size[b] == l[k + 1]
    requires n == size[b] + (if m == 0 then 0 else size[l[k + 1]])
    ensures Spaced(Inserted(l, k, b, m), size[b := n])
  {
    hide Inserted;
    var l' := Inserted(l, k, b, m);
    var size' := size[b := n];
    InsertedSize(l, k, b, m);
    forall i | 0 <= i < |l'| ensures l'[i] in size' && (size'[l'[i]] == 0 <==> i == 0) {
      InsertedAt(l, k, b, m, i);
    }
    forall i, j | 0 <= i < j < |l'| ensures l'[i] + size'[l'[i]] < l'[j] {
      InsertedAt(l, k, b, m, i);
      InsertedAt(l, k, b, m, j);
    }
  }

  lemma GrowLinked(l: seq<nat>, ptr: Links, size: Links, k: nat, m: nat)
    requires Circle(l, ptr, size) && k + 1 + m <= |l|
    ensures Linked(Removed(l, k, m), ptr[l[k] := Succ(l, k + m)])
  {
    hide Removed;
    var l' := Removed(l, k, m);
    var ptr' := ptr[l[k] := Succ(l, k + m)];
    InsertedSize(l, k, 0, m);
    forall i: nat | i < |l'| ensures LinkAt(l', ptr', i) {
      RemovedAt(l, k, m, i);
      RemovedAt(l, k, m, 0);
      assert LinkAt(l, ptr, if i <= k then i else i + m);
      if i + 1 < |l'| {
        RemovedAt(l, k, m, i + 1);
      }
    }
  }

  lemma GrowSpaced(l: seq<nat>, size: Links, k: nat, b: nat, m: nat, n: nat)
    requires Spaced(l, size) && k + 1 + m <= |l| && m <= 1 && Fits(l, k, b, size) && b !in l && k > 0
    requires l[k] + size[l[k]] == b
    requires if m == 0 then k + 1 < |l| ==> b + size[b] != l[k + 1] else b + size[b] == l[k + 1]
    requires n == size[l[k]] + size[b] + (if m == 0 then 0 else size[l[k + 1]])
    ensures Spaced(Removed(l, k, m), size[l[k] := n])
  {
    hide Removed;
    var l' := Removed(l, k, m);
    var size' := size[l[k] := n];
    InsertedSize(l, k, b, m);
    forall i | 0 <= i < |l'| ensures l'[i] in size' && (size'[l'[i]] == 0 <==> i == 0) {
      RemovedAt(l, k, m, i);
    }
    forall i, j | 0 <= i < j < |l'| ensures l'[i] + size'[l'[i]] < l'[j] {
      RemovedAt(l, k, m, i);
      RemovedAt(l, k, m, j);
    }
  }

  /** The blocks in from become part of another. */
  function Reown(owner: Owner, from: set<nat>, to: nat): (r: Owner)
    ensures r.Keys == owner.Keys
    ensures forall u {:trigger r[u]} :: u in owner ==> r[u] == if owner[u] in from then to else owner[u]
  {
    map u | u in owner :: if owner[u] in from then to else owner[u]
  }

  /** The block next after index k if it is to be merged. */
  function NextOf(l: seq<nat>, k: nat, m: nat): set<nat>
    requires k + 1 + m <= |l| && m <= 1
  {
    if m == 1 then {l[k + 1]} else {}
  }

  lemma InsertedElems(l: seq<nat>, size: Links, k: nat, b: nat, m: nat, x: nat)
    requires Spaced(l, size) && k + 1 + m <= |l| && m <= 1
    ensures x in Inserted(l, k, b, m) <==> x == b || (x in l && x !in NextOf(l, k, m))
    ensures x in Removed(l, k, m) <==> x in l && x !in NextOf(l, k, m)
    ensures Inserted(l, k, b, m)[0] == l[0] && Removed(l, k, m)[0] == l[0]
  {
    hide Inserted, Removed;
    var l1, l2 := Inserted(l, k, b, m), Removed(l, k, m);
    InsertedSize(l, k, b, m);
    InsertedAt(l, k, b, m, k + 1);
    InsertedAt(l, k, b, m, 0);
    RemovedAt(l, k, m, 0);
    if x in l && x !in NextOf(l, k, m) {
      var i :| 0 <= i < |l| && l[i] == x;
      if i <= k {
        InsertedAt(l, k, b, m, i);
        RemovedAt(l, k, m, i);
      } else {
        InsertedAt(l, k, b, m, i + 1 - m);
        RemovedAt(l, k, m, i - m);
      }
    }
    if x in l1 && x != b {
      var i :| 0 <= i < |l1| && l1[i] == x;
      InsertedAt(l, k, b, m, i);
    }
    if x in l2 {
      var i :| 0 <= i < |l2| && l2[i] == x;
      RemovedAt(l, k, m, i);
    }
  }

  lemma InsertTiles(l: seq<nat>, live: set<nat>, size: Links, owner: Owner, k: nat, b: nat, m: nat, n: nat)
    requires Spaced(l, size) && Tiles(l, live, size, owner) && k + 1 + m <= |l| && m <= 1 && b in live && b in size
    requires m == 1 ==> b + size[b] == l[k + 1]
    requires n == size[b] + (if m == 0 then 0 else size[l[k + 1]])
    ensures Inserted(l, k, b, m) != []
    ensures Tiles(Inserted(l, k, b, m), live - {b}, size[b := n], Reown(owner, NextOf(l, k, m), b))
  {
    hide Inserted, Reown, Removed;
    var l', live', size', owner' := Inserted(l, k, b, m), live - {b}, size[b := n], Reown(owner, NextOf(l, k, m), b);
    InsertedSize(l, k, b, m);
    InsertedElems(l, size, k, b, m, b);
    forall x: nat ensures IsBlock(l', live', x) <==> IsBlock(l, live, x) && x !in NextOf(l, k, m) {
      InsertedElems(l, size, k, b, m, x);
    }
    assert b > l[0] by { assert IsBlock(l, live, b); }
    if m == 1 {
      assert IsBlock(l, live, l[k + 1]);
    }
    assert forall c :: c in live' ==> c !in l' by {
      forall c | c in live' ensures c !in l' {
        InsertedElems(l, size, k, b, m, c);
      }
    }
    MergedTiles(l, live, size, owner, l', live', size', owner', b, b, if m == 1 then l[k + 1] else b);
  }

  lemma GrowTiles(l: seq<nat>, live: set<nat>, size: Links, owner: Owner, k: nat, b: nat, m: nat, n: nat)
    requires Spaced(l, size) && Tiles(l, live, size, owner) && k + 1 + m <= |l| && m <= 1 && b in live && b in size
    requires k > 0
    requires l[k] + size[l[k]] == b && (m == 1 ==> b + size[b] == l[k + 1])
    requires n == size[l[k]] + size[b] + (if m == 0 then 0 else size[l[k + 1]])
    ensures Removed(l, k, m) != []
    ensures Tiles(Removed(l, k, m), live - {b}, size[l[k] := n], Reown(owner, {b} + NextOf(l, k, m), l[k]))
  {
    hide Inserted, Reown, Removed;
    var l', live', size', owner' := Removed(l, k, m), live - {b}, size[l[k] := n],
        Reown(owner, {b} + NextOf(l, k, m), l[k]);
    InsertedSize(l, k, b, m);
    InsertedElems(l, size, k, b, m, l[k]);
    forall x: nat ensures IsBlock(l', live', x) <==> IsBlock(l, live, x) && x !in {b} + NextOf(l, k, m) {
      InsertedElems(l, size, k, b, m, x);
    }
    assert IsBlock(l, live, b) && IsBlock(l, live, l[k]);
    if m == 1 {
      assert IsBlock(l, live, l[k + 1]);
    }
    assert forall c :: c in live' ==> c !in l' by {
      forall c | c in live' ensures c !in l' {
        InsertedElems(l, size, k, b, m, c);
      }
    }
    MergedTiles(l, live, size, owner, l', live', size', owner', l[k], b, if m == 1 then l[k + 1] else b);
  }

  /** Up to three neighbouring blocks, a the lowest, become one. */
  lemma MergedTiles(l: seq<nat>, live: set<nat>, size: Links, owner: Owner, l': seq<nat>, live': set<nat>,
      size': Links, owner': Owner, a: nat, b: nat, c: nat)
    requires |l| > 0 && |l'| > 0 && l'[0] == l[0] && Tiles(l, live, size, owner)
    requires IsBlock(l, live, a) && IsBlock(l, live, b) && IsBlock(l, live, c)
    requires (a == b || a + size[a] == b) && (b == c || b + size[b] == c)
    requires size' == size[a := size[a] + (if b == a then 0 else size[b]) + (if c == b then 0 else size[c])]
    requires forall x: nat {:trigger IsBlock(l', live', x)} ::
               IsBlock(l', live', x) <==> IsBlock(l, live, x) && (x == a || (x != b && x != c))
    requires owner'.Keys == owner.Keys
    requires forall u {:trigger owner'[u]} :: u in owner ==>
        owner'[u] == if owner[u] == a || owner[u] == b || owner[u] == c then a else owner[u]
    requires forall x :: x in live' ==> x !in l'
    ensures Tiles(l', live', size', owner')
  {
    forall x: nat, u: nat | IsBlock(l', live', x) && Covers(size', x, u) ensures InBlock(owner', x, u) {
      if x == a {
        var y := if u < a + size[a] then a else if u < b + size[b] then b else c;
        assert Covers(size, y, u);
      } else {
        assert Covers(size, x, u);
      }
    }
    forall u: nat | u in owner' ensures IsBlock(l', live', owner'[u]) && Covers(size', owner'[u], u) {
      assert IsBlock(l, live, owner[u]) && Covers(size, owner[u], u);
      assert IsBlock(l', live', owner'[u]);
    }
    forall x: nat | IsBlock(l', live', x) ensures x in size' && size'[x] > 0 && x > l'[0] {
      assert IsBlock(l, live, x);
    }
  }

  /** A live block lies between the free blocks around it. */
  lemma PlaceFits(l: seq<nat>, live: set<nat>, size: Links, owner: Owner, k: nat, b: nat)
    requires Spaced(l, size) && Tiles(l, live, size, owner) && b in live && Place(l, k, b)
    ensures Fits(l, k, b, size) && b !in l
  {
    assert IsBlock(l, live, b);
    assert Covers(size, b, b);
    forall i | 0 <= i <= k ensures l[i] in size && l[i] + size[l[i]] <= b {
      if i > 0 {
        assert IsBlock(l, live, l[i]);
        assert i == k || l[i] + size[l[i]] < l[k];
        assert !Covers(size, l[i], b);
      }
    }
    forall i | k < i < |l| ensures b + size[b] <= l[i] {
      assert IsBlock(l, live, l[i]) && Covers(size, l[i], l[i]);
      assert i == k + 1 || l[k + 1] + size[l[k + 1]] < l[i];
      assert !Covers(size, b, l[i]);
    }
  }

  // ---------------------------------------------------------------- taking a block

  lemma RemoveSpaced(l: seq<nat>, size: Links, j: nat)
    requires Spaced(l, size) && 0 < j < |l|
    ensures Spaced(Removed(l, j - 1, 1), size)
  {
    hide Removed;
    var l' := Removed(l, j - 1, 1);
    InsertedSize(l, j - 1, 0, 1);
    forall i | 0 <= i < |l'| ensures l'[i] in size && (size[l'[i]] == 0 <==> i == 0) {
      RemovedAt(l, j - 1, 1, i);
    }
    forall i, k | 0 <= i < k < |l'| ensures l'[i] + size[l'[i]] < l'[k] {
      RemovedAt(l, j - 1, 1, i);
      RemovedAt(l, j - 1, 1, k);
    }
  }

  /** A free block that fits exactly becomes live. */
  lemma TakeWhole(l: seq<nat>, live: set<nat>, ptr: Links, size: Links, owner: Owner, j: nat)
    requires Circle(l, ptr, size) && Tiles(l, live, size, owner) && 0 < j < |l|
    ensures l[j] in ptr && l[j] !in live && Removed(l, j - 1, 1) != [] && l[j - 1] in Removed(l, j - 1, 1)
        && Removed(l, j - 1, 1)[0] == l[0]
    ensures Circle(Removed(l, j - 1, 1), ptr[l[j - 1] := ptr[l[j]]], size)
    ensures Tiles(Removed(l, j - 1, 1), live + {l[j]}, size, owner)
  {
    hide Removed, Inserted;
    var l', live' := Removed(l, j - 1, 1), live + {l[j]};
    assert LinkAt(l, ptr, j);
    GrowLinked(l, ptr, size, j - 1, 1);
    RemoveSpaced(l, size, j);
    InsertedElems(l, size, j - 1, 0, 1, l[j - 1]);
    assert IsBlock(l, live, l[j]);
    forall x: nat ensures IsBlock(l', live', x) <==> IsBlock(l, live, x) {
      InsertedElems(l, size, j - 1, 0, 1, x);
    }
    forall x | x in live' ensures x !in l' {
      InsertedElems(l, size, j - 1, 0, 1, x);
    }
  }

  /** The unit where the tail starts heads no block yet. */
  lemma TailFresh(l: seq<nat>, live: set<nat>, size: Links, owner: Owner, p: nat, q: nat)
    requires |l| > 0 && Tiles(l, live, size, owner) && IsBlock(l, live, p) && Covers(size, p, q) && p < q
    ensures !IsBlock(l, live, q) && q > l[0] && q !in l && q !in live
  {
    assert p > l[0] && InBlock(owner, p, q);
    assert IsBlock(l, live, q) ==> Covers(size, q, q);
  }

  lemma TailSpaced(l: seq<nat>, size: Links, j: nat, n: nat, q: nat)
    requires Spaced(l, size) && 0 < j < |l| && 0 < n < size[l[j]] && q !in l
    ensures Spaced(l, size[l[j] := size[l[j]] - n][q := n])
  {
    var size' := size[l[j] := size[l[j]] - n][q := n];
    forall i | 0 <= i < |l| ensures l[i] in size' && size'[l[i]] == if i == j then size[l[i]] - n else size[l[i]] {
    }
  }

  function SplitOwner(owner: Owner, q: nat, n: nat): (r: Owner)
    ensures r.Keys == owner.Keys
    ensures forall u {:trigger r[u]} :: u in owner ==> r[u] == if q <= u < q + n then q else owner[u]
  {
    map u | u in owner :: if q <= u < q + n then q else owner[u]
  }

  lemma TailTiles(l: seq<nat>, live: set<nat>, size: Links, owner: Owner, p: nat, q: nat, n: nat)
    requires |l| > 0 && Tiles(l, live, size, owner) && IsBlock(l, live, p) && p in size && 0 < n < size[p]
    requires q == p + size[p] - n
    ensures Tiles(l, live + {q}, size[p := size[p] - n][q := n], SplitOwner(owner, q, n))
  {
    hide SplitOwner;
    var size', live', owner' := size[p := size[p] - n][q := n], live + {q}, SplitOwner(owner, q, n);
    TailFresh(l, live, size, owner, p, q);
    forall u: nat | u in owner' ensures IsBlock(l, live', owner'[u]) && Covers(size', owner'[u], u) {
      assert IsBlock(l, live, owner[u]) && Covers(size, owner[u], u);
    }
    forall x: nat, u: nat | IsBlock(l, live', x) && Covers(size', x, u) ensures InBlock(owner', x, u) {
      if x == q {
        assert Covers(size, p, u);
      } else {
        assert IsBlock(l, live, x) && Covers(size, x, u);
        if x != p {
          TailOutside(l, live, size, owner, p, q, n, x, u);
        }
      }
    }
    forall x: nat | IsBlock(l, live', x) ensures x in size' && size'[x] > 0 && x > l[0] {
      if x != q {
        assert IsBlock(l, live, x);
      }
    }
  }

  lemma TailOutside(l: seq<nat>, live: set<nat>, size: Links, owner: Owner, p: nat, q: nat, n: nat, x: nat, u: nat)
    requires |l| > 0 && Tiles(l, live, size, owner) && IsBlock(l, live, p) && p in size && 0 < n < size[p]
    requires q == p + size[p] - n
    requires IsBlock(l, live, x) && Covers(size, x, u) && x != p
    ensures InBlock(owner, x, u) && !(q <= u < q + n)
  {
    assert q <= u < q + n ==> Covers(size, p, u);
  }

  /** The tail of a larger free block becomes live. */
  lemma TakeTail(l: seq<nat>, live: set<nat>, ptr: Links, size: Links, owner: Owner, j: nat, n: nat)
    requires Circle(l, ptr, size) && Tiles(l, live, size, owner) && 0 < j < |l| && 0 < n < size[l[j]]
    ensures var p, q := l[j], l[j] + size[l[j]] - n;
            var size' := size[p := size[p] - n][q := n];
            && q !in l && q !in live && Circle(l, ptr, size')
            && Tiles(l, live + {q}, size', SplitOwner(owner, q, n))
  {
    hide Tiles, SplitOwner;
    var p, q: nat := l[j], l[j] + size[l[j]] - n;
    assert IsBlock(l, live, p) && Covers(size, p, q);
    TailFresh(l, live, size, owner, p, q);
    TailSpaced(l, size, j, n, q);
    TailTiles(l, live, size, owner, p, q, n);
  }

  // ---------------------------------------------------------------- what the invariant says

  /** A unit obtained from sbrk that no live block has. */
  predicate FreeUnit(owner: Owner, live: set<nat>, u: nat) { u in owner && owner[u] !in live }

  /** Two blocks never share a unit. */
  lemma BlocksApart(l: seq<nat>, live: set<nat>, size: Links, owner: Owner, b: nat, c: nat, u: nat)
    requires |l| > 0 && Tiles(l, live, size, owner) && IsBlock(l, live, b) && IsBlock(l, live, c)
    requires Covers(size, b, u) && Covers(size, c, u)
    ensures b == c
  {
    assert InBlock(owner, b, u) && InBlock(owner, c, u);
  }

  /** The free blocks are the maximal runs of free units: coalescing is complete. */
  lemma MaximalRuns(l: seq<nat>, live: set<nat>, ptr: Links, size: Links, owner: Owner, i: nat)
    requires Circle(l, ptr, size) && Tiles(l, live, size, owner) && 0 < i < |l|
    ensures forall u: nat :: Covers(size, l[i], u) ==> FreeUnit(owner, live, u)
    ensures !FreeUnit(owner, live, l[i] + size[l[i]])
    ensures l[i] > 0 && !FreeUnit(owner, live, l[i] - 1)
  {
    assert IsBlock(l, live, l[i]);
    NoFreeNeighbour(l, live, ptr, size, owner, i, l[i] + size[l[i]]);
    NoFreeNeighbour(l, live, ptr, size, owner, i, l[i] - 1);
  }

  lemma NoFreeNeighbour(l: seq<nat>, live: set<nat>, ptr: Links, size: Links, owner: Owner, i: nat, u: nat)
    requires Circle(l, ptr, size) && Tiles(l, live, size, owner) && 0 < i < |l|
    requires u == l[i] + size[l[i]] || u + 1 == l[i]
    ensures !FreeUnit(owner, live, u)
  {
    forall j | 0 <= j < |l| ensures !Covers(size, l[j], u) {
    }
    assert u in owner ==> IsBlock(l, live, owner[u]) && Covers(size, owner[u], u);
  }

  // ---------------------------------------------------------------- the code

  class Heap {
    const base: nat              // the static header, below everything sbrk gives
    var ptr: Links
    var size: Links
    var freep: nat
    var ready: bool              // freep is not null
    ghost var list: seq<nat>     // base and the free blocks
    ghost var live: set<nat>
    ghost var owner: Owner       // its keys are the units obtained from sbrk

    ghost predicate Valid()
      reads this
    {
      && (!ready ==> live == {} && owner == map[])
      && (ready ==> Circle(list, ptr, size) && list[0] == base && Tiles(list, live, size, owner) && freep in list)
    }

    constructor (b: nat)
      ensures Valid() && base == b && !ready && live == {} && owner == map[]
    {
      base := b;
      ptr, size, freep, ready := map[], map[], 0, false;
      list, live, owner := [], {}, map[];
    }

    /** free's search: the free block, or base, that the block goes after. */
    method FindPlace(b: nat, ghost k: nat) returns (p: nat)
      requires Circle(list, ptr, size) && freep in list && b !in list && Place(list, k, b) && b > list[0]
      ensures p == list[k] && p in ptr
    {
      hide Circle;
      p := freep;
      ghost var i: nat :| i < |list| && list[i] == p;
      CircleAt(list, ptr, size, i);
      CircleOrder(list, ptr, size, i, k);
      while !(b > p && b < ptr[p])
        invariant i < |list| && p == list[i] && p in ptr && ptr[p] == Succ(list, i)
        invariant i != k ==> !(b > p && b < ptr[p])
        decreases if i <= k then k - i else |list| - i + k
      {
        CircleOrder(list, ptr, size, i, k);
        if p >= ptr[p] && (b > p || b < ptr[p]) {
          break;
        }
        p := ptr[p];
        i := if i + 1 < |list| then i + 1 else 0;
        CircleAt(list, ptr, size, i);
        CircleOrder(list, ptr, size, i, k);
      }
      CircleOrder(list, ptr, size, i, k);
    }

    /** free's second half: the block is linked after p, joined to the free blocks it touches. */
    method Join(b: nat, p: nat, ghost k: nat)
      requires Valid() && ready && b in live && Place(list, k, b) && p == list[k]
      modifies this
      ensures Valid() && ready && live == old(live) - {b} && owner.Keys == old(owner).Keys
      ensures size.Keys == old(size).Keys && forall c :: c in size && c != b && c !in old(list) ==>
          size[c] == old(size)[c]
      ensures b in size && b in owner && owner[b] in list && b + old(size)[b] <= owner[b] + size[owner[b]]
    {
      hide Circle, Tiles, Inserted, Removed, Reown;
      LiveBlock(list, live, ptr, size, owner, b);
      CircleAt(list, ptr, size, k);
      PlaceParts(list, live, ptr, size, owner, k, b);
      var pt, sz := ptr, size;
      ghost var m: nat := 0;
      if b + sz[b] == pt[p] {
        m := 1;
        NextPart(list, ptr, size, k, b);
        sz := sz[b := sz[b] + sz[pt[p]]];
        pt := pt[b := pt[pt[p]]];
      } else {
        pt := pt[b := pt[p]];
      }
      ghost var n := sz[b];
      assert sz == size[b := n] && pt == ptr[b := Succ(list, k + m)];
      if p + sz[p] == b {
        sz := sz[p := sz[p] + sz[b]];
        pt := pt[p := pt[b]];
        ghost var l', o' := Removed(list, k, m), Reown(owner, {b} + NextOf(list, k, m), p);
        GrowMaps(list, live, ptr, size, owner, k, b, m, n, sz[p]);
        list, owner := l', o';
      } else {
        pt := pt[p := b];
        InsertAll(list, live, ptr, size, owner, k, b, m, n);
        list, owner := Inserted(list, k, b, m), Reown(owner, NextOf(list, k, m), b);
      }
      ptr, size, freep, live := pt, sz, p, live - {b};
    }

    /**
     free: a live block goes back to the free list, joined to the free blocks it
     touches. The units obtained from sbrk and every other live block stay.
     */
    method Free(b: nat)
      requires Valid() && ready && b in live
      modifies this
      ensures Valid() && ready && live == old(live) - {b} && owner.Keys == old(owner).Keys
      ensures SizesKept(live, old(size), size)
      ensures b in old(size) && b in owner && owner[b] in list && owner[b] in size
      ensures b + old(size)[b] <= owner[b] + size[owner[b]]
      ensures owner[b] <= b
    {
      hide Circle, Tiles;
      LiveBlock(list, live, ptr, size, owner, b);
      ghost var k := PlaceFrom(list, b, 0);
      var p := FindPlace(b, k);
      Join(b, p, k);
      OwnerBelow(list, live, size, owner, b);
    }

    /** morecore: new units from sbrk, at least 4096, freed into the list; core is what sbrk answers. */
    method MoreCore(n: nat, core: Option<nat>) returns (ok: bool)
      requires Valid() && ready && (core.Some? ==> Fresh(owner, base, core.value, CoreUnits(n)))
      modifies this
      ensures Valid() && ready && ok == core.Some? && live == old(live)
      ensures SizesKept(live, old(size), size)
      ensures !ok ==> list == old(list) && size == old(size) && owner == old(owner)
      ensures ok ==>
          owner.Keys == old(owner).Keys + Region(core.value, CoreUnits(n)) && HasFit(list, size, CoreUnits(n))
    {
      hide Circle, Tiles, HasFit;
      LiveSizes(list, live, size, owner);
      if core.None? {
        return false;
      }
      var nu := CoreUnits(n);
      var a := core.value;
      AddCore(list, live, ptr, size, owner, a, nu);
      size := size[a := nu];
      owner := WithCore(owner, a, nu);
      live := live + {a};
      Free(a);
      FitAt(list, size, owner[a], nu);
      return true;
    }

    /** The end of malloc: the block p after prevp, or its tail, becomes live. */
    method Take(prevp: nat, p: nat, n: nat, ghost j: nat) returns (r: nat)
      requires Valid() && ready && 0 < j < |list| && p == list[j] && prevp == list[j - 1] && p in size
      requires size[p] >= n > 0
      modifies this
      ensures Valid() && ready && owner.Keys == old(owner).Keys
      ensures r !in old(live) && live == old(live) + {r} && r in size && size[r] == n
      ensures r + n == p + old(size)[p] && freep == prevp
      ensures SizesKept(old(live), old(size), size)
    {
      hide Circle, Tiles, SplitOwner, Removed;
      LiveSizes(list, live, size, owner);
      CircleAt(list, ptr, size, j - 1);
      if size[p] == n {
        TakeWhole(list, live, ptr, size, owner, j);
        ptr := ptr[prevp := ptr[p]];
        r := p;
        list := Removed(list, j - 1, 1);
      } else {
        TakeTail(list, live, ptr, size, owner, j, n);
        r := p + (size[p] - n);
        FreeNotLive(list, live, size, owner, p);
        size := size[p := size[p] - n][r := n];
        owner := SplitOwner(owner, r, n);
      }
      live := live + {r};
      freep := prevp;
    }

    /** The first call makes a list of the empty block base. */
    method FirstUse(ghost n: nat)
      requires Valid() && n > 0
      modifies this
      ensures Valid() && ready && live == old(live) && owner == old(owner)
      ensures old(ready) ==> list == old(list) && size == old(size) && freep == old(freep)
      ensures SizesKept(live, old(size), size)
      ensures HasFit(list, size, n) <==> old(ready) && HasFit(old(list), old(size), n)
    {
      if !ready {
        ptr, size, freep, ready := ptr[base := base], size[base := 0], base, true;
        list := [base];
        StartCircle(base, ptr, size);
      } else {
        LiveSizes(list, live, size, owner);
      }
    }

    /**
     malloc: a new live block with room for the bytes, from the free list if some free
     block is large enough, otherwise from one call of sbrk; null exactly when that call
     fails. Every other live block stays.
     */
    method Malloc(nbytes: nat, core: Option<nat>) returns (r: Option<nat>)
      requires Valid() && (core.Some? ==> Fresh(owner, base, core.value, CoreUnits(Units(nbytes))))
      modifies this
      ensures Valid() && ready
      ensures var fit := old(ready) && HasFit(old(list), old(size), Units(nbytes));
              && (r.Some? <==> fit || core.Some?)
              && owner.Keys ==
                  (if fit || core.None? then old(owner).Keys
                  else old(owner).Keys + Region(core.value, CoreUnits(Units(nbytes))))
      ensures r.Some? ==>
                && r.value !in old(live) && live == old(live) + {r.value}
                && r.value in size && size[r.value] == Units(nbytes)
                && nbytes <= (size[r.value] - 1) * UNIT < nbytes + UNIT
      ensures old(ready) && HasFit(old(list), old(size), Units(nbytes)) && r.Some? ==>
                NextFit(old(list), old(size), old(freep), Units(nbytes), r.value, freep)
      ensures r.None? ==> live == old(live)
      ensures SizesKept(old(live), old(size), size)
    {
      hide Circle, Tiles, HasFit, CoreUnits, Fresh, Region, Units, NoFitIn, NextFit, SizesKept;
      var n := Units(nbytes);
      UnitsEnough(nbytes);
      FirstUse(n);
      ghost var fit := HasFit(list, size, n);
      ghost var list0, size0, freep0 := list, size, freep;
      ghost var f: nat :| f < |list| && list[f] == freep;
      ghost var i: nat, j: nat := f, NextIx(list, f);
      var prevp := freep;
      CircleAt(list, ptr, size, f);
      var p := ptr[prevp];
      ghost var grown := false;
      NothingSeen(list, size, f, n);
      while true
        invariant Valid() && ready && f < |list| && i < |list| && j == NextIx(list, i)
        invariant list[f] == freep && list[i] == prevp && list[j] == p
        invariant NoFitIn(list, size, f, i, n)
        invariant live == old(live) && SizesKept(live, old(size), size)
        invariant !grown ==> list == list0 && size == size0 && freep == freep0
        invariant if grown then core.Some? && !fit && HasFit(list, size, n)
                                && owner.Keys == old(owner).Keys + Region(core.value, CoreUnits(n))
                  else owner == old(owner) && HasFit(list, size, n) == fit
        decreases !grown, if j <= f then f - j else |list| - j + f
      {
        CircleAt(list, ptr, size, j);
        if size[p] >= n {
          BaseEmpty(list, ptr, size, j, n);
          FitAt(list, size, p, n);
          ghost var before, sizes := list, size;
          var b := Take(prevp, p, n, j);
          KeptOn(old(live), old(size), sizes, size);
          TookNext(before, sizes, f, i, n, b);
          return Some(b);
        }
        SeenOne(list, ptr, size, f, i, n);
        if p == freep {
          SeenAll(list, ptr, size, f, j, n);
          CoreLarge(n);
          ghost var sizes := size;
          var ok := MoreCore(n, core);
          KeptOn(live, old(size), sizes, size);
          if !ok {
            return None;
          }
          FitLess(list, size, CoreUnits(n), n);
          grown := true;
          p := freep;
          f :| f < |list| && list[f] == freep;
          j := f;
          NothingSeen(list, size, f, n);
          CircleAt(list, ptr, size, j);
        } else {
          SeenMore(list, ptr, size, f, i, n);
        }
        prevp, i := p, j;
        p := ptr[p];
        j := NextIx(list, j);
      }
    }
  }

  /** These blocks are there with the sizes they had. */
  predicate SizesKept(live: set<nat>, size0: Links, size: Links) {
    forall c :: c in live ==> c in size && c in size0 && size[c] == size0[c]
  }

  lemma KeptOn(live: set<nat>, size0: Links, size1: Links, size2: Links)
    requires SizesKept(live, size0, size1) && SizesKept(live, size1, size2)
    ensures SizesKept(live, size0, size2)
  {
  }

  /** nunits: header-sized units for the bytes and the header. */
  function Units(nbytes: nat): nat { (nbytes + UNIT - 1) / UNIT + 1 }

  lemma UnitsEnough(nbytes: nat)
    ensures Units(nbytes) > 0 && nbytes <= (Units(nbytes) - 1) * UNIT < nbytes + UNIT
  {
  }

  function CoreUnits(n: nat): nat { if n < MIN_CORE then MIN_CORE else n }

  lemma CoreLarge(n: nat)
    ensures CoreUnits(n) >= n && CoreUnits(n) > 0
  {
  }

  predicate Within(a: nat, n: nat, u: nat) { a <= u < a + n }

  function Region(a: nat, n: nat): (r: set<nat>)
    ensures forall u: nat :: u in r <==> Within(a, n, u)
  {
    set u: nat | a <= u < a + n && Within(a, n, u)
  }

  /** New units: above base and not obtained before. */
  predicate Fresh(owner: Owner, base: nat, a: nat, n: nat) { a > base && owner.Keys !! Region(a, n) }

  function WithCore(owner: Owner, a: nat, n: nat): (r: Owner)
    ensures r.Keys == owner.Keys + Region(a, n)
    ensures forall u :: u in r ==> r[u] == if u in Region(a, n) then a else owner[u]
  {
    map u | u in owner.Keys + Region(a, n) :: if u in Region(a, n) then a else owner[u]
  }

  /** Some free block is large enough. */
  ghost predicate HasFit(l: seq<nat>, size: Links, n: nat) {
    exists i :: 0 <= i < |l| && l[i] in size && size[l[i]] >= n
  }

  lemma FitAt(l: seq<nat>, size: Links, b: nat, n: nat)
    requires b in l && b in size && size[b] >= n
    ensures HasFit(l, size, n)
  {
    var i :| 0 <= i < |l| && l[i] == b;
  }

  lemma FitLess(l: seq<nat>, size: Links, n: nat, m: nat)
    requires HasFit(l, size, n) && m <= n
    ensures HasFit(l, size, m)
  {
  }

  lemma AddCore(l: seq<nat>, live: set<nat>, ptr: Links, size: Links, owner: Owner, a: nat, n: nat)
    requires Circle(l, ptr, size) && Tiles(l, live, size, owner) && Fresh(owner, l[0], a, n) && n > 0
    ensures a !in live && a !in l
    ensures Circle(l, ptr, size[a := n]) && Tiles(l, live + {a}, size[a := n], WithCore(owner, a, n))
  {
    hide WithCore;
    var size', live', owner' := size[a := n], live + {a}, WithCore(owner, a, n);
    assert a in Region(a, n);
    assert IsBlock(l, live, a) ==> Covers(size, a, a);
    assert !IsBlock(l, live, a) && a !in l;
    forall u: nat | u in owner' ensures IsBlock(l, live', owner'[u]) && Covers(size', owner'[u], u) {
      if u !in Region(a, n) {
        assert IsBlock(l, live, owner[u]) && Covers(size, owner[u], u);
      }
    }
    forall x: nat, u: nat | IsBlock(l, live', x) && Covers(size', x, u) ensures InBlock(owner', x, u) {
      if x != a {
        assert IsBlock(l, live, x) && Covers(size, x, u);
      }
    }
    forall x: nat | IsBlock(l, live', x) ensures x in size' && size'[x] > 0 && x > l[0] {
      if x != a {
        assert IsBlock(l, live, x);
      }
    }
  }

  lemma LiveSizes(l: seq<nat>, live: set<nat>, size: Links, owner: Owner)
    requires |l| > 0 && Tiles(l, live, size, owner)
    ensures forall c :: c in live ==> c in size && c !in l
  {
    forall c | c in live ensures c in size {
      assert IsBlock(l, live, c);
    }
  }

  lemma FreeNotLive(l: seq<nat>, live: set<nat>, size: Links, owner: Owner, p: nat)
    requires |l| > 0 && Tiles(l, live, size, owner) && p in l
    ensures p !in live
  {
  }

  lemma StartCircle(base: nat, ptr: Links, size: Links)
    requires base in ptr && ptr[base] == base && base in size && size[base] == 0
    ensures Circle([base], ptr, size) && Tiles([base], {}, size, map[])
    ensures forall n: nat :: n > 0 ==> !HasFit([base], size, n)
  {
    assert LinkAt([base], ptr, 0);
  }

  // ---------------------------------------------------------------- malloc's search

  function NextIx(l: seq<nat>, i: nat): (r: nat)
    requires i < |l|
    ensures r < |l|
  {
    if i + 1 < |l| then i + 1 else 0
  }

  /** The indices after f up to i, going round; none when i is f. */
  predicate InArc(f: nat, i: nat, x: nat) {
    if i == f then false else if f < i then f < x <= i else x > f || x <= i
  }

  /** The blocks passed so far are too small. */
  predicate NoFitIn(l: seq<nat>, size: Links, f: nat, i: nat, n: nat) {
    forall x: nat {:trigger InArc(f, i, x)} :: x < |l| && InArc(f, i, x) ==> l[x] in size && size[l[x]] < n
  }

  /**
   The block r of n units is the end of the first block large enough after the one at freep, going
   round, and the search goes on from the block before that one.
   */
  ghost predicate NextFit(l: seq<nat>, size: Links, freep: nat, n: nat, r: nat, freep': nat) {
    exists f: nat, i: nat ::
      && f < |l| && i < |l| && l[f] == freep && l[i] == freep' && NoFitIn(l, size, f, i, n)
      && l[NextIx(l, i)] in size && size[l[NextIx(l, i)]] >= n && r + n == l[NextIx(l, i)] + size[l[NextIx(l, i)]]
  }

  lemma TookNext(l: seq<nat>, size: Links, f: nat, i: nat, n: nat, r: nat)
    requires f < |l| && i < |l| && NoFitIn(l, size, f, i, n)
    requires l[NextIx(l, i)] in size && size[l[NextIx(l, i)]] >= n
    requires r + n == l[NextIx(l, i)] + size[l[NextIx(l, i)]]
    ensures NextFit(l, size, l[f], n, r, l[i])
  {
  }

  lemma NothingSeen(l: seq<nat>, size: Links, f: nat, n: nat)
    ensures NoFitIn(l, size, f, f, n)
  {
  }

  /** base, of size 0, is never taken, so the block taken has one before it. */
  lemma BaseEmpty(l: seq<nat>, ptr: Links, size: Links, j: nat, n: nat)
    requires Circle(l, ptr, size) && j < |l| && l[j] in size && size[l[j]] >= n > 0
    ensures j > 0
  {
  }

  lemma Distinct(l: seq<nat>, ptr: Links, size: Links, i: nat, j: nat)
    requires Circle(l, ptr, size) && i < |l| && j < |l| && l[i] == l[j]
    ensures i == j
  {
  }

  lemma SeenOne(l: seq<nat>, ptr: Links, size: Links, f: nat, i: nat, n: nat)
    requires Circle(l, ptr, size) && f < |l| && i < |l|
    ensures l[NextIx(l, i)] == l[f] <==> NextIx(l, i) == f
  {
    if l[NextIx(l, i)] == l[f] {
      Distinct(l, ptr, size, NextIx(l, i), f);
    }
  }

  lemma SeenMore(l: seq<nat>, ptr: Links, size: Links, f: nat, i: nat, n: nat)
    requires Circle(l, ptr, size) && f < |l| && i < |l| && NoFitIn(l, size, f, i, n)
    requires var j := NextIx(l, i); l[j] in size && size[l[j]] < n && j != f
    ensures NoFitIn(l, size, f, NextIx(l, i), n)
  {
    var j := NextIx(l, i);
    forall x: nat | x < |l| && InArc(f, j, x) ensures l[x] in size && size[l[x]] < n {
      assert x == j || InArc(f, i, x);
    }
  }

  /** Once round: no block fits. */
  lemma SeenAll(l: seq<nat>, ptr: Links, size: Links, f: nat, j: nat, n: nat)
    requires Circle(l, ptr, size) && f < |l| && j == f && l[j] in size && size[l[j]] < n
    requires exists i: nat :: i < |l| && NextIx(l, i) == j && NoFitIn(l, size, f, i, n)
    ensures !HasFit(l, size, n)
  {
    var i: nat :| i < |l| && NextIx(l, i) == j && NoFitIn(l, size, f, i, n);
    forall x: nat | x < |l| ensures size[l[x]] < n {
      assert x == f || InArc(f, i, x);
    }
  }

  lemma OwnerBelow(l: seq<nat>, live: set<nat>, size: Links, owner: Owner, u: nat)
    requires |l| > 0 && Tiles(l, live, size, owner) && u in owner
    ensures owner[u] <= u && owner[u] in size
  {
  }

  lemma CircleAt(l: seq<nat>, ptr: Links, size: Links, i: nat)
    requires Circle(l, ptr, size) && i < |l|
    ensures l[i] in ptr && ptr[l[i]] == Succ(l, i) && l[i] in size
  {
    assert LinkAt(l, ptr, i);
  }

  /** Only the last step of the circle goes down. */
  lemma CircleOrder(l: seq<nat>, ptr: Links, size: Links, i: nat, k: nat)
    requires Circle(l, ptr, size) && i < |l| && k < |l|
    ensures i + 1 < |l| ==> l[i] < l[i + 1]
    ensures l[0] <= l[i]
    ensures i < k ==> l[i] < l[k] && l[i + 1] <= l[k]
    ensures i > k ==> l[k] < l[i] && l[k + 1] <= l[i]
  {
  }

  lemma LiveBlock(l: seq<nat>, live: set<nat>, ptr: Links, size: Links, owner: Owner, b: nat)
    requires Circle(l, ptr, size) && Tiles(l, live, size, owner) && b in live
    ensures b in size && size[b] > 0 && b !in l && |l| > 0 && l[0] < b && InBlock(owner, b, b)
    ensures forall c :: c in live ==> c in size && c !in l
  {
    assert IsBlock(l, live, b) && Covers(size, b, b);
    forall c | c in live ensures c in size {
      assert IsBlock(l, live, c);
    }
  }

  lemma PlaceParts(l: seq<nat>, live: set<nat>, ptr: Links, size: Links, owner: Owner, k: nat, b: nat)
    requires Circle(l, ptr, size) && Tiles(l, live, size, owner) && b in live && Place(l, k, b)
    ensures Fits(l, k, b, size) && l[k] in size && l[k] + size[l[k]] <= b
    ensures Succ(l, k) == b + size[b] <==> k + 1 < |l| && l[k + 1] == b + size[b]
    ensures l[k] + size[l[k]] == b ==> k > 0
  {
    PlaceFits(l, live, size, owner, k, b);
    assert IsBlock(l, live, b);
  }

  lemma NextPart(l: seq<nat>, ptr: Links, size: Links, k: nat, b: nat)
    requires Circle(l, ptr, size) && k + 1 < |l|
    ensures l[k + 1] in ptr && l[k + 1] in size && ptr[l[k + 1]] == Succ(l, k + 1)
  {
    assert LinkAt(l, ptr, k + 1);
  }

  lemma InsertAll(l: seq<nat>, live: set<nat>, ptr: Links, size: Links, owner: Owner, k: nat, b: nat, m: nat, n: nat)
    requires Circle(l, ptr, size) && Tiles(l, live, size, owner) && b in live && Place(l, k, b) && m <= 1
    requires k + 1 + m <= |l|
    requires b in size && l[k] in size && l[k] + size[l[k]] != b
    requires if m == 0 then k + 1 < |l| ==> b + size[b] != l[k + 1] else b + size[b] == l[k + 1] && l[k + 1] in size
    requires n == size[b] + (if m == 0 then 0 else size[l[k + 1]])
    ensures var l', size', owner' := Inserted(l, k, b, m), size[b := n], Reown(owner, NextOf(l, k, m), b);
            && l' != [] && l'[0] == l[0] && l[k] in l' && b in l'
            && Circle(l', ptr[b := Succ(l, k + m)][l[k] := b], size') && Tiles(l', live - {b}, size', owner')
            && owner'.Keys == owner.Keys && InBlock(owner', b, b)
  {
    hide Inserted, Removed, Reown;
    PlaceFits(l, live, size, owner, k, b);
    InsertedElems(l, size, k, b, m, b);
    InsertedElems(l, size, k, b, m, l[k]);
    InsertLinked(l, ptr, size, k, b, m);
    InsertSpaced(l, size, k, b, m, n);
    InsertTiles(l, live, size, owner, k, b, m, n);
    assert IsBlock(l, live, b) && Covers(size, b, b);
    assert InBlock(owner, b, b);
  }

  lemma GrowAll(l: seq<nat>, live: set<nat>, ptr: Links, size: Links, owner: Owner, k: nat, b: nat, m: nat, n: nat)
    requires Circle(l, ptr, size) && Tiles(l, live, size, owner) && b in live && Place(l, k, b) && m <= 1
    requires k + 1 + m <= |l|
    requires b in size && k > 0 && l[k] in size && l[k] + size[l[k]] == b
    requires if m == 0 then k + 1 < |l| ==> b + size[b] != l[k + 1] else b + size[b] == l[k + 1] && l[k + 1] in size
    requires n == size[l[k]] + size[b] + (if m == 0 then 0 else size[l[k + 1]])
    ensures var l', size', owner' := Removed(l, k, m), size[l[k] := n], Reown(owner, {b} + NextOf(l, k, m), l[k]);
            && l' != [] && l'[0] == l[0] && l[k] in l' && b !in l'
            && Circle(l', ptr[l[k] := Succ(l, k + m)], size') && Tiles(l', live - {b}, size', owner')
            && owner'.Keys == owner.Keys && InBlock(owner', l[k], b)
  {
    hide Inserted, Removed, Reown;
    PlaceFits(l, live, size, owner, k, b);
    InsertedElems(l, size, k, b, m, l[k]);
    InsertedElems(l, size, k, b, m, b);
    GrowLinked(l, ptr, size, k, m);
    GrowSpaced(l, size, k, b, m, n);
    GrowTiles(l, live, size, owner, k, b, m, n);
    assert IsBlock(l, live, b) && Covers(size, b, b);
    assert InBlock(owner, b, b);
  }

  /** The block's own header does not matter once it is joined to the one before. */
  lemma GrowMaps(l: seq<nat>, live: set<nat>, ptr: Links, size: Links, owner: Owner, k: nat, b: nat, m: nat, nb: nat,
      n: nat)
    requires Circle(l, ptr, size) && Tiles(l, live, size, owner) && b in live && Place(l, k, b) && m <= 1
    requires k + 1 + m <= |l|
    requires b in size && k > 0 && l[k] in size && l[k] + size[l[k]] == b
    requires if m == 0 then k + 1 < |l| ==> b + size[b] != l[k + 1] else b + size[b] == l[k + 1] && l[k + 1] in size
    requires n == size[l[k]] + size[b] + (if m == 0 then 0 else size[l[k + 1]])
    ensures var l', owner' := Removed(l, k, m), Reown(owner, {b} + NextOf(l, k, m), l[k]);
            var ptr', size' := ptr[b := Succ(l, k + m)][l[k] := Succ(l, k + m)], size[b := nb][l[k] := n];
            && l' != [] && l'[0] == l[0] && l[k] in l' && b !in l'
            && Circle(l', ptr', size') && Tiles(l', live - {b}, size', owner')
            && owner'.Keys == owner.Keys && InBlock(owner', l[k], b)
  {
    hide Circle, Tiles, Removed, Reown, InBlock;
    GrowAll(l, live, ptr, size, owner, k, b, m, n);
    var l', owner' := Removed(l, k, m), Reown(owner, {b} + NextOf(l, k, m), l[k]);
    SizeIrrelevant(l', live - {b}, ptr[l[k] := Succ(l, k + m)], size[l[k] := n], owner',
                   ptr[b := Succ(l, k + m)][l[k] := Succ(l, k + m)], size[b := nb][l[k] := n], b);
  }

  /** What a header holds after its block was merged away does not matter. */
  lemma SizeIrrelevant(l: seq<nat>, live: set<nat>, ptr: Links, size: Links, owner: Owner, ptr': Links, size': Links,
      b: nat)
    requires Circle(l, ptr, size) && Tiles(l, live, size, owner) && b !in l && b !in live
    requires forall x :: x in ptr && x != b ==> x in ptr' && ptr'[x] == ptr[x]
    requires forall x :: x in size && x != b ==> x in size' && size'[x] == size[x]
    ensures Circle(l, ptr', size') && Tiles(l, live, size', owner)
  {
    forall i: nat | i < |l| ensures LinkAt(l, ptr', i) {
      assert LinkAt(l, ptr, i);
    }
    forall x: nat, u: nat | IsBlock(l, live, x) && Covers(size', x, u) ensures InBlock(owner, x, u) {
      assert Covers(size, x, u);
    }
    forall u: nat | u in owner ensures IsBlock(l, live, owner[u]) && Covers(size', owner[u], u) {
      assert Covers(size, owner[u], u);
    }
  }
}
