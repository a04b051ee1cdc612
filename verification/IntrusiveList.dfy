/**
 Intrusive circular doubly linked lists (kernel/lib/list.c), as used by the two
 buddy allocators and, open-coded, by the buffer cache's LRU list.

 Memory is a pair of maps from the address of a node to the addresses stored in
 its `next` and `prev` fields. Several lists share the memory; each is known by
 the address of its head node, and address 0 is the null pointer.
 */
module IntrusiveList {

  /** Node number i of the ring made of head h and elements s; number |s| + 1 is h again. */
  function At(h: nat, s: seq<nat>, i: nat): nat
    requires i <= |s| + 1
  {
    if i == 0 || i == |s| + 1 then h else s[i - 1]
  }

  predicate NoDuplicates(s: seq<nat>) {
    forall i, j :: 0 <= i < j < |s| ==> s[i] != s[j]
  }

  /** The two fields that link node i to node i + 1. */
  ghost predicate Linked(next: map<nat, nat>, prev: map<nat, nat>, h: nat, s: seq<nat>, i: nat)
    requires i <= |s|
  {
    && At(h, s, i) in next && next[At(h, s, i)] == At(h, s, i + 1)
    && At(h, s, i + 1) in prev && prev[At(h, s, i + 1)] == At(h, s, i)
  }

  /** From h, `next` visits the elements of s in order and returns to h; `prev` is its inverse. */
  ghost predicate Ring(next: map<nat, nat>, prev: map<nat, nat>, h: nat, s: seq<nat>) {
    && h != 0 && h !in s && 0 !in s
    && NoDuplicates(s)
    && forall i :: 0 <= i <= |s| ==> Linked(next, prev, h, s, i)
  }

  /** The memory written by lst_remove(e). */
  function UnlinkNext(next: map<nat, nat>, prev: map<nat, nat>, e: nat): map<nat, nat>
    requires e in next && e in prev
  {
    next[prev[e] := next[e]]
  }

  function UnlinkPrev(next: map<nat, nat>, prev: map<nat, nat>, e: nat): map<nat, nat>
    requires e in next && e in prev
  {
    prev[next[e] := prev[e]]
  }

  function Without(s: seq<nat>, i: nat): (r: seq<nat>)
    requires i < |s|
    ensures |r| == |s| - 1
    ensures forall j :: 0 <= j < |r| ==> r[j] == s[if j < i then j else j + 1]
  {
    s[..i] + s[i + 1..]
  }

  lemma WithoutContents(s: seq<nat>, i: nat)
    requires i < |s| && NoDuplicates(s)
    ensures NoDuplicates(Without(s, i))
    ensures forall x :: x in Without(s, i) <==> x in s && x != s[i]
  {
    forall x | x in s && x != s[i] ensures x in Without(s, i) {
      var j :| 0 <= j < |s| && s[j] == x;
      assert Without(s, i)[if j < i then j else j - 1] == x;
    }
  }

  /** Unlinking the i-th element of a ring leaves the ring of the others. */
  lemma UnlinkRing(next: map<nat, nat>, prev: map<nat, nat>, h: nat, s: seq<nat>, i: nat)
    requires Ring(next, prev, h, s) && i < |s|
    ensures s[i] in next && s[i] in prev
    ensures Ring(UnlinkNext(next, prev, s[i]), UnlinkPrev(next, prev, s[i]), h, Without(s, i))
  {
    var e, r := s[i], Without(s, i);
    assert Linked(next, prev, h, s, i) && Linked(next, prev, h, s, i + 1);
    var next', prev' := UnlinkNext(next, prev, e), UnlinkPrev(next, prev, e);
    WithoutContents(s, i);
    forall j | 0 <= j <= |r| ensures Linked(next', prev', h, r, j) {
      if j < i {
        assert Linked(next, prev, h, s, j);
        AtDistinct(h, s, j, i);
        AtDistinct(h, s, j + 1, i + 2);
      } else if j > i {
        assert Linked(next, prev, h, s, j + 1);
        AtDistinct(h, s, i, j + 1);
        AtDistinct(h, s, i + 2, j + 2);
      }
    }
  }

  lemma AtDistinct(h: nat, s: seq<nat>, i: nat, j: nat)
    requires h !in s && NoDuplicates(s) && i < j <= |s| + 1 && (i > 0 || j <= |s|)
    ensures At(h, s, i) != At(h, s, j)
  {
  }

  /** Pushing e right after the head of a ring. */
  lemma PushRing(next: map<nat, nat>, prev: map<nat, nat>, h: nat, s: seq<nat>, e: nat)
    requires Ring(next, prev, h, s) && e != 0 && e != h && e !in s
    ensures h in next
    ensures var q := next[h];
            Ring(next[e := q][h := e], prev[e := h][q := e], h, [e] + s)
  {
    assert Linked(next, prev, h, s, 0);
    var q, t := At(h, s, 1), [e] + s;
    var next', prev' := next[e := q][h := e], prev[e := h][q := e];
    forall j | 0 <= j <= |t| ensures Linked(next', prev', h, t, j) {
      if j >= 2 {
        assert Linked(next, prev, h, s, j - 1);
        AtDistinct(h, s, 1, j);
      }
    }
  }

  /** A ring is not affected by writes to nodes outside it. */
  lemma RingFrame(next: map<nat, nat>, prev: map<nat, nat>, next': map<nat, nat>, prev': map<nat, nat>, h: nat,
      s: seq<nat>)
    requires Ring(next, prev, h, s)
    requires forall a :: (a == h || a in s) ==> (a in next ==> a in next' && next'[a] == next[a])
    requires forall a :: (a == h || a in s) ==> (a in prev ==> a in prev' && prev'[a] == prev[a])
    ensures Ring(next', prev', h, s)
  {
    forall i | 0 <= i <= |s| ensures Linked(next', prev', h, s, i) {
      assert Linked(next, prev, h, s, i);
    }
  }

  /** The neighbours of a ring's node are in the ring. */
  lemma Neighbours(next: map<nat, nat>, prev: map<nat, nat>, h: nat, s: seq<nat>, e: nat)
    requires Ring(next, prev, h, s) && (e == h || e in s)
    ensures e in next && (next[e] == h || next[e] in s) && next[e] != 0
    ensures e in prev && (prev[e] == h || prev[e] in s) && prev[e] != 0
  {
    var i :| 0 <= i <= |s| && At(h, s, i) == e by {
      if e == h { assert At(h, s, 0) == e; }
      else {
        var j :| 0 <= j < |s| && s[j] == e;
        assert At(h, s, j + 1) == e;
      }
    }
    assert Linked(next, prev, h, s, i);
    assert Linked(next, prev, h, s, if i == 0 then |s| else i - 1);
  }

  /** All lists of the memory: rings that share no node. */
  ghost predicate AllRings(next: map<nat, nat>, prev: map<nat, nat>, lists: map<nat, seq<nat>>) {
    && (forall h :: h in lists ==> Ring(next, prev, h, lists[h]))
    && (forall h, g :: h in lists && g in lists && h != g ==> h !in lists[g] && DisjointSeqs(lists[h], lists[g]))
  }

  ghost predicate DisjointSeqs(a: seq<nat>, b: seq<nat>) {
    forall x :: x in a ==> x !in b
  }

  /** e is neither a head nor an element of any list. */
  ghost predicate Unlisted(lists: map<nat, seq<nat>>, e: nat) {
    e !in lists && forall h :: h in lists ==> e !in lists[h]
  }

  class ListMemory {
    var next: map<nat, nat>
    var prev: map<nat, nat>
    ghost var lists: map<nat, seq<nat>>   // contents of the list headed by each address

    ghost predicate Valid()
      reads this
    {
      AllRings(next, prev, lists)
    }

    constructor ()
      ensures Valid() && lists == map[]
    {
      next, prev, lists := map[], map[], map[];
    }

    method LstInit(lst: nat)
      requires Valid() && lst != 0 && Unlisted(lists, lst)
      modifies this
      ensures Valid() && lists == old(lists)[lst := []]
    {
      next := next[lst := lst];
      prev := prev[lst := lst];
      lists := lists[lst := []];
      forall h | h in lists ensures Ring(next, prev, h, lists[h]) {
        if h != lst { RingFrame(old(next), old(prev), next, prev, h, lists[h]); }
      }
    }

    method LstEmpty(lst: nat) returns (empty: bool)
      requires Valid() && lst in lists
      ensures empty <==> lists[lst] == []
    {
      Neighbours(next, prev, lst, lists[lst], lst);
      empty := next[lst] == lst;
      assert Linked(next, prev, lst, lists[lst], 0);
    }

    /** lst_remove is given only the element; it leaves the list that holds it.
        Removing the head of an empty list changes nothing. */
    method LstRemove(e: nat, ghost h: nat, ghost i: nat)
      requires Valid() && h in lists
      requires if lists[h] == [] then e == h else i < |lists[h]| && lists[h][i] == e
      modifies this
      ensures Valid()
      ensures lists == if old(lists)[h] == [] then old(lists) else old(lists)[h := Without(old(lists)[h], i)]
    {
      Neighbours(next, prev, h, lists[h], e);
      ghost var next0, prev0 := next, prev;
      if lists[h] == [] {
        assert Linked(next, prev, h, lists[h], 0);
      } else {
        UnlinkRing(next, prev, h, lists[h], i);
        WithoutContents(lists[h], i);
      }
      var p, n := prev[e], next[e];
      next := next[p := n];
      prev := prev[n := p];
      if lists[h] != [] {
        lists := lists[h := Without(lists[h], i)];
      } else {
        assert next == next0 && prev == prev0;
      }
      forall g | g in lists ensures Ring(next, prev, g, lists[g]) {
        if g != h { RingFrame(next0, prev0, next, prev, g, lists[g]); }
      }
    }

    /** On an empty list lst_pop returns the head itself. */
    method LstPop(lst: nat) returns (p: nat)
      requires Valid() && lst in lists
      modifies this
      ensures Valid()
      ensures old(lists)[lst] == [] ==> p == lst && lists == old(lists)
      ensures old(lists)[lst] != [] ==>
                p == old(lists)[lst][0] && lists == old(lists)[lst := old(lists)[lst][1..]]
    {
      Neighbours(next, prev, lst, lists[lst], lst);
      p := next[lst];
      assert Linked(next, prev, lst, lists[lst], 0);
      if lists[lst] != [] {
        assert Without(lists[lst], 0) == lists[lst][1..];
      }
      LstRemove(p, lst, 0);
    }

    method LstPush(lst: nat, e: nat)
      requires Valid() && lst in lists && e != 0 && Unlisted(lists, e)
      modifies this
      ensures Valid() && lists == old(lists)[lst := [e] + old(lists)[lst]]
    {
      Neighbours(next, prev, lst, lists[lst], lst);
      PushRing(next, prev, lst, lists[lst], e);
      next := next[e := next[lst]];
      prev := prev[e := lst];
      prev := prev[next[lst] := e];
      next := next[lst := e];
      lists := lists[lst := [e] + lists[lst]];
      forall g | g in lists ensures Ring(next, prev, g, lists[g]) {
        if g != lst { RingFrame(old(next), old(prev), next, prev, g, lists[g]); }
      }
    }
  }
}
