/**
 The packet queue (kernel/net/mbuf.c:92-136): a singly linked list with a tail
 pointer, over a memory of `next` fields; address 0 is null.
 */
module MbufQueue {

  /** From head, `next` visits the items in order and ends in null. */
  ghost predicate Chain(next: map<nat, nat>, head: nat, items: seq<nat>)
    decreases |items|
  {
    if items == [] then head == 0
    else
      && head == items[0] && head != 0 && head in next && head !in items[1..]
      && Chain(next, next[head], items[1..])
  }

  lemma {:induction false} ChainFrame(next: map<nat, nat>, next': map<nat, nat>, head: nat, items: seq<nat>)
    requires Chain(next, head, items)
    requires forall a :: a in items ==> (a in next ==> a in next' && next'[a] == next[a])
    ensures Chain(next', head, items)
    decreases |items|
  {
    if items != [] {
      assert items == [items[0]] + items[1..];
      ChainFrame(next, next', next[head], items[1..]);
    }
  }

  /** Linking m behind an item appends it there and cuts off what followed. */
  lemma {:induction false} ChainCut(next: map<nat, nat>, head: nat, items: seq<nat>, k: nat, m: nat)
    requires Chain(next, head, items) && k < |items| && m != 0 && m !in items
    ensures Chain(next[m := 0][items[k] := m], head, items[..k + 1] + [m])
    decreases |items|
  {
    var next', kept := next[m := 0][items[k] := m], items[..k + 1] + [m];
    assert items == [items[0]] + items[1..];
    if k == 0 {
      assert kept == [head, m] && kept[1..] == [m] && [m][1..] == [];
    } else {
      assert kept[1..] == items[1..][..k] + [m];
      assert items[1..][k - 1] == items[k];
      ChainCut(next, next[head], items[1..], k - 1, m);
    }
  }

  lemma {:induction false} ChainDistinct(next: map<nat, nat>, head: nat, items: seq<nat>)
    requires Chain(next, head, items)
    ensures forall i, j :: 0 <= i < j < |items| ==> items[i] != items[j]
    decreases |items|
  {
    if items != [] {
      ChainDistinct(next, next[head], items[1..]);
      assert forall j :: 0 < j < |items| ==> items[j] == items[1..][j - 1];
    }
  }

  class Queue {
    var next: map<nat, nat>
    var head: nat
    var tail: nat
    ghost var items: seq<nat>

    ghost predicate Valid()
      reads this
    {
      Chain(next, head, items)
    }

    /** The tail pointer can be used. */
    ghost predicate TailOk()
      reads this
    {
      items != [] ==> tail == items[|items| - 1]
    }

    constructor ()
      ensures Valid() && TailOk() && items == []
    {
      next, head, tail, items := map[], 0, 0, [];
    }

    /**
     Appends behind the packet the tail pointer names. With the right pointer this is the end of
     the queue; with a stale one inside the queue the packets behind it are cut off, and with one
     outside the new packet is lost.
     */
    method PushTail(m: nat)
      requires Valid() && m != 0 && m !in items
      modifies this
      ensures Valid() && tail == m
      ensures old(items) == [] ==> items == [m]
      ensures forall k :: 0 <= k < |old(items)| && old(items)[k] == old(tail) ==> items == old(items)[..k + 1] + [m]
      ensures old(items) != [] && old(tail) !in old(items) ==> items == old(items)
      ensures TailOk() <==> old(items) == [] || old(tail) in old(items)
      ensures old(TailOk()) <==> items == old(items) + [m]
    {
      next := next[m := 0];
      if head == 0 {
        head, tail := m, m;
        items := [m];
        assert [m][1..] == [];
        return;
      }
      if tail in items {
        ghost var k :| 0 <= k < |items| && items[k] == tail;
        ChainCut(old(next), head, items, k, m);
        ChainDistinct(old(next), head, items);
        items := items[..k + 1] + [m];
      } else {
        ChainFrame(old(next), next[tail := m], head, items);
      }
      next := next[tail := m];
      tail := m;
    }

    /** Always prepends; the tail pointer stays usable exactly if the queue was not empty, or was
        emptied by popping this very packet. */
    method PushHead(m: nat)
      requires Valid() && m != 0 && m !in items
      modifies this
      ensures Valid() && items == [m] + old(items) && tail == old(tail)
      ensures TailOk() <==> if old(items) == [] then old(tail) == m else old(TailOk())
    {
      next := next[m := head];
      ChainFrame(old(next), next, head, items);
      head := m;
      items := [m] + items;
      assert items[1..] == old(items);
    }

    method PopHead() returns (m: nat)
      requires Valid()
      modifies `head, `items
      ensures Valid() && tail == old(tail) && next == old(next)
      ensures old(items) == [] ==> m == 0 && items == []
      ensures old(items) != [] ==> m == old(items)[0] && items == old(items)[1..] && m != 0 && m !in items
      ensures old(TailOk()) ==> TailOk()
    {
      m := head;
      if m == 0 { return; }
      head := next[m];
      items := items[1..];
    }

    /** sockrecv's way to keep the rest of a packet: pop it, and push the same one back. */
    method PopAndPutBack() returns (m: nat)
      requires Valid() && items != [] && TailOk()
      modifies this
      ensures Valid() && TailOk() && items == old(items) && m == items[0]
    {
      m := PopHead();
      PushHead(m);
    }
  }
}
