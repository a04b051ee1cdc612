/**
 Sv39 page tables (kernel/mem/vm.c; section 4.4 of the RISC-V Privileged
 Architecture). Page-table pages are 512 64-bit words in physical frames, linked by
 the frame numbers inside the words. What is proved is that such a tree of frames
 behaves as a flat map from pages to words, and that frames are never shared, lost or
 freed twice.
 */
module PageTable {
  import opened Common

  const PGSIZE: nat := 4096
  const MAXVA: nat := 0x40_0000_0000
  const NPAGES: nat := 0x400_0000      // MAXVA / PGSIZE
  const U64: nat := 0x1_0000_0000_0000_0000

  const PTE_V: nat := 1
  const PTE_RWXU: nat := 30

  // ---------------------------------------------------------------- words and indices

  predicate IsValid(w: nat) { w % 2 == 1 }

  predicate IsUser(w: nat) { w / 16 % 2 == 1 }

  /** One of R, W and X. */
  predicate IsLeaf(w: nat) { w / 2 % 8 != 0 }

  function FlagsOf(w: nat): nat { w % 1024 }

  function FrameOf(w: nat): nat { w / 1024 }

  /** PA2PTE(pa) | perm | PTE_V, pa being in frame f. */
  function Pte(f: nat, perm: nat): nat
    requires perm < 1024
  {
    f * 1024 + (if perm % 2 == 1 then perm else perm + 1)
  }

  lemma PteRoundTrip(f: nat, perm: nat)
    requires perm < 1024
    ensures FrameOf(Pte(f, perm)) == f && IsValid(Pte(f, perm))
    ensures FlagsOf(Pte(f, perm)) == (if perm % 2 == 1 then perm else perm + 1)
  {
  }

  /** PX(level, va) */
  function Px(level: nat, va: nat): (r: nat)
    requires level <= 2
    ensures r < 512
  {
    (if level == 2 then va / 0x4000_0000 else if level == 1 then va / 0x20_0000 else va / 0x1000) % 512
  }

  /** The three indices of a page. */
  function Ix(v: nat): (r: seq<nat>)
    ensures |r| == 3 && r[0] < 512 && r[1] < 512 && r[2] < 512
  {
    [v / 0x4_0000 % 512, v / 512 % 512, v % 512]
  }

  lemma PxIx(va: nat)
    ensures Ix(va / PGSIZE) == [Px(2, va), Px(1, va), Px(0, va)]
    ensures va < MAXVA ==> Px(2, va) < 256
  {
    assert va / 0x4000_0000 == va / PGSIZE / 0x4_0000;
    assert va / 0x20_0000 == va / PGSIZE / 512;
  }

  /** Distinct pages have distinct indices. */
  lemma IxInjective(v: nat, u: nat)
    requires v < NPAGES && u < NPAGES && Ix(v) == Ix(u)
    ensures v == u
  {
    assert v == v / 0x4_0000 * 0x4_0000 + v / 512 % 512 * 512 + v % 512;
    assert u == u / 0x4_0000 * 0x4_0000 + u / 512 % 512 * 512 + u % 512;
    assert v / 0x4_0000 < 512 && u / 0x4_0000 < 512;
    assert Ix(v)[0] == Ix(u)[0] && Ix(v)[1] == Ix(u)[1] && Ix(v)[2] == Ix(u)[2];
  }

  // ---------------------------------------------------------------- the tree and the flat map

  type Tables = map<nat, seq<nat>>

  /** Where the table for a sequence of indices is: the root for none, then one level down for each. */
  type Space = map<seq<nat>, nat>

  predicate IsTable(t: Tables, f: nat) { f in t && |t[f]| == 512 }

  /** The word that walking down the tables finds for a page, if all of it is valid. */
  function Lookup(t: Tables, f: nat, ix: seq<nat>): Option<nat>
    decreases |ix|
  {
    if |ix| == 0 || !IsTable(t, f) || ix[0] >= 512 || !IsValid(t[f][ix[0]]) then None
    else if |ix| == 1 then Some(t[f][ix[0]])
    else Lookup(t, FrameOf(t[f][ix[0]]), ix[1..])
  }

  predicate PathOk(sp: Space, p: seq<nat>) {
    |p| <= 2 && (|p| > 0 ==> p[..|p| - 1] in sp && p[|p| - 1] < 512 && p[0] < 256)
  }

  /** The valid words of an upper table lead to the tables of the space below it, and only they are valid. */
  predicate LinksOk(t: Tables, sp: Space, p: seq<nat>)
    requires p in sp && IsTable(t, sp[p])
  {
    forall i {:trigger t[sp[p]][i]} {:trigger p + [i]} :: 0 <= i < 512 ==>
      && (IsValid(t[sp[p]][i]) <==> p + [i] in sp)
      && (p + [i] in sp ==> t[sp[p]][i] == Pte(sp[p + [i]], 0))
  }

  /** The tables in t that sp names are a tree: each has a frame of its own and is linked from the one above. */
  predicate Tree(t: Tables, sp: Space) {
    && [] in sp
    && (forall p :: p in sp ==> PathOk(sp, p) && IsTable(t, sp[p]))
    && (forall p, q :: p in sp && q in sp && p != q ==> sp[p] != sp[q])
    && (forall p :: p in sp && |p| < 2 ==> LinksOk(t, sp, p))
  }

  /** What a page is mapped to. */
  function At(t: Tables, sp: Space, v: nat): Option<nat>
    requires [] in sp
  {
    Lookup(t, sp[[]], Ix(v))
  }

  /** The same without walking. */
  function Flat(t: Tables, sp: Space, ix: seq<nat>): Option<nat>
    requires Tree(t, sp) && |ix| == 3 && ix[2] < 512
  {
    var p := [ix[0], ix[1]];
    if p in sp && IsValid(t[sp[p]][ix[2]]) then Some(t[sp[p]][ix[2]]) else None
  }

  lemma LookupFlat(t: Tables, sp: Space, ix: seq<nat>)
    requires Tree(t, sp) && |ix| == 3 && ix[0] < 512 && ix[1] < 512 && ix[2] < 512
    ensures Lookup(t, sp[[]], ix) == Flat(t, sp, ix)
  {
    var p1: seq<nat> := [ix[0]];
    var p2: seq<nat> := [ix[0], ix[1]];
    assert [] + [ix[0]] == p1 && p1 + [ix[1]] == p2 && p2[..1] == p1;
    assert LinksOk(t, sp, []);
    var w := t[sp[[]]][ix[0]];
    if IsValid(w) {
      PteRoundTrip(sp[p1], 0);
      assert LinksOk(t, sp, p1);
      var w1 := t[sp[p1]][ix[1]];
      assert Lookup(t, sp[[]], ix) == Lookup(t, sp[p1], ix[1..]);
      assert ix[1..][0] == ix[1] && ix[1..][1..] == [ix[2]];
      if IsValid(w1) {
        PteRoundTrip(sp[p2], 0);
        assert Lookup(t, sp[p1], ix[1..]) == Lookup(t, sp[p2], [ix[2]]);
      } else {
        assert p2 !in sp;
      }
    } else {
      assert p1 !in sp;
    }
  }

  // ---------------------------------------------------------------- the two ways tables change

  function SetWord(t: Tables, f: nat, i: nat, w: nat): (r: Tables)
    requires IsTable(t, f) && i < 512
    ensures r.Keys == t.Keys && IsTable(r, f) && r[f][i] == w
    ensures forall j :: 0 <= j < 512 && j != i ==> r[f][j] == t[f][j]
    ensures forall g :: g in t && g != f ==> r[g] == t[g]
  {
    var words: seq<nat> := t[f][i := w];
    t[f := words]
  }

  /** Writing a word of a lowest table keeps the tree and changes that page only. */
  lemma WriteLeaf(t: Tables, sp: Space, p: seq<nat>, i: nat, w: nat)
    requires Tree(t, sp) && p in sp && |p| == 2 && i < 512
    ensures var t' := SetWord(t, sp[p], i, w);
            && Tree(t', sp)
            && (forall ix: seq<nat> {:trigger Flat(t', sp, ix)} :: |ix| == 3 && ix[2] < 512 ==>
                  Flat(t', sp, ix) == if ix == p + [i] then (if IsValid(w) then Some(w) else None) else Flat(t, sp, ix))
  {
    var t' := SetWord(t, sp[p], i, w);
    forall q | q in sp && |q| < 2 ensures LinksOk(t', sp, q) {
      assert LinksOk(t, sp, q) && sp[q] != sp[p];
    }
    forall ix: seq<nat> | |ix| == 3 && ix[2] < 512
      ensures Flat(t', sp, ix) == if ix == p + [i] then (if IsValid(w) then Some(w) else None) else Flat(t, sp, ix)
    {
      var q := [ix[0], ix[1]];
      assert ix == q + [ix[2]] && (p + [i])[..2] == p && (p + [i])[2] == i && ix[..2] == q;
      if q in sp && q != p {
        assert sp[q] != sp[p];
      }
    }
  }

  /** Linking a zeroed frame below a table keeps the tree and every page's word. */
  lemma AddTable(t: Tables, sp: Space, p: seq<nat>, i: nat, f: nat)
    requires Tree(t, sp) && p in sp && |p| < 2 && i < 512 && (p + [i])[0] < 256 && p + [i] !in sp && f !in t
    ensures var t' := SetWord(t[f := Zeros()], sp[p], i, Pte(f, 0));
            var sp' := sp[p + [i] := f];
            && Tree(t', sp')
            && (forall ix: seq<nat> {:trigger Flat(t', sp', ix)} :: |ix| == 3 && ix[2] < 512 ==>
                Flat(t', sp', ix) == Flat(t, sp, ix))
  {
    var c := p + [i];
    var t' := SetWord(t[f := Zeros()], sp[p], i, Pte(f, 0));
    var sp' := sp[c := f];
    assert c[..|c| - 1] == p;
    forall q | q in sp' ensures PathOk(sp', q) && IsTable(t', sp'[q]) {
      if q != c {
        assert PathOk(sp, q) && IsTable(t, sp[q]);
      }
    }
    forall q | q in sp' && |q| < 2 ensures LinksOk(t', sp', q) {
      AddTableLinks(t, sp, p, i, f, q);
    }
  }

  lemma AddTableLinks(t: Tables, sp: Space, p: seq<nat>, i: nat, f: nat, q: seq<nat>)
    requires Tree(t, sp) && p in sp && |p| < 2 && i < 512 && (p + [i])[0] < 256 && p + [i] !in sp && f !in t
    requires (q in sp || q == p + [i]) && |q| < 2
    ensures var t' := SetWord(t[f := Zeros()], sp[p], i, Pte(f, 0)); LinksOk(t', sp[p + [i] := f], q)
  {
    var c := p + [i];
    var t' := SetWord(t[f := Zeros()], sp[p], i, Pte(f, 0));
    var sp' := sp[c := f];
    PteRoundTrip(f, 0);
    assert c[..|c| - 1] == p;
    forall j | 0 <= j < 512
      ensures IsValid(t'[sp'[q]][j]) <==> q + [j] in sp'
      ensures q + [j] in sp' ==> t'[sp'[q]][j] == Pte(sp'[q + [j]], 0)
    {
      var d := q + [j];
      assert d[..|d| - 1] == q && d[|d| - 1] == j;
      if q == c {
        assert d !in sp;
      } else {
        assert LinksOk(t, sp, q);
        if q == p && j == i {
          assert d == c;
        } else {
          assert d != c;
        }
      }
    }
  }

  function Zeros(): (r: seq<nat>)
    ensures |r| == 512 && forall i :: 0 <= i < 512 ==> r[i] == 0
  {
    seq(512, i => 0)
  }

  /** The table that holds a page's word. */
  function Dir(v: nat): (r: seq<nat>)
    ensures |r| == 2
  {
    [Ix(v)[0], Ix(v)[1]]
  }

  /** The same pages mapped to the same words. */
  predicate SameMap(t: Tables, sp: Space, t': Tables, sp': Space)
    requires [] in sp && [] in sp'
  {
    forall u: nat {:trigger At(t', sp', u)} :: u < NPAGES ==> At(t', sp', u) == At(t, sp, u)
  }

  /** One page's word replaced. */
  predicate PageSet(t: Tables, t': Tables, sp: Space, v: nat, w: nat)
    requires [] in sp
  {
    forall u: nat {:trigger At(t', sp, u)} :: u < NPAGES ==>
      At(t', sp, u) == if u == v then (if IsValid(w) then Some(w) else None) else At(t, sp, u)
  }

  lemma WritePage(t: Tables, sp: Space, v: nat, w: nat)
    requires Tree(t, sp) && v < NPAGES && Dir(v) in sp
    ensures var t' := SetWord(t, sp[Dir(v)], Ix(v)[2], w); Tree(t', sp) && PageSet(t, t', sp, v, w)
  {
    hide Tree, Lookup, Flat, SetWord, Ix;
    TreeTable(t, sp, Dir(v));
    var t' := SetWord(t, sp[Dir(v)], Ix(v)[2], w);
    WriteLeaf(t, sp, Dir(v), Ix(v)[2], w);
    forall u: nat | u < NPAGES
      ensures At(t', sp, u) == if u == v then (if IsValid(w) then Some(w) else None) else At(t, sp, u)
    {
      LookupFlat(t, sp, Ix(u));
      LookupFlat(t', sp, Ix(u));
      assert Dir(v) + [Ix(v)[2]] == Ix(v);
      if Ix(u) == Ix(v) {
        IxInjective(u, v);
      }
    }
  }

  lemma TreeTable(t: Tables, sp: Space, p: seq<nat>)
    requires Tree(t, sp) && p in sp
    ensures IsTable(t, sp[p]) && [] in sp && |p| <= 2
  {
  }

  lemma GrowKeeps(t: Tables, sp: Space, p: seq<nat>, i: nat, f: nat)
    requires Tree(t, sp) && p in sp && |p| < 2 && i < 512 && (p + [i])[0] < 256 && p + [i] !in sp && f !in t
    ensures var t' := SetWord(t[f := Zeros()], sp[p], i, Pte(f, 0));
            var sp' := sp[p + [i] := f];
            Tree(t', sp') && SameMap(t, sp, t', sp')
  {
    hide Tree, Lookup, Flat, SetWord, Ix;
    TreeTable(t, sp, p);
    AddTable(t, sp, p, i, f);
    var t' := SetWord(t[f := Zeros()], sp[p], i, Pte(f, 0));
    var sp' := sp[p + [i] := f];
    TreeTable(t', sp', p);
    forall u: nat | u < NPAGES ensures At(t', sp', u) == At(t, sp, u) {
      LookupFlat(t, sp, Ix(u));
      LookupFlat(t', sp', Ix(u));
    }
  }

  /** An invalid word above the lowest level leaves the page unmapped. */
  lemma NoTable(t: Tables, sp: Space, v: nat, p: seq<nat>)
    requires Tree(t, sp) && v < NPAGES && p in sp && |p| < 2 && p == Ix(v)[..|p|]
    requires !IsValid(t[sp[p]][Ix(v)[|p|]])
    ensures At(t, sp, v) == None && Dir(v) !in sp
  {
    var c := p + [Ix(v)[|p|]];
    assert LinksOk(t, sp, p) && c !in sp;
    if |p| == 0 {
      assert Dir(v)[..1] == c;
    } else {
      assert Dir(v) == c;
    }
    LookupFlat(t, sp, Ix(v));
  }

  /** A valid word leads to the next table. */
  lemma NextTable(t: Tables, sp: Space, p: seq<nat>, i: nat)
    requires Tree(t, sp) && p in sp && |p| < 2 && i < 512
    ensures IsValid(t[sp[p]][i]) ==> p + [i] in sp && FrameOf(t[sp[p]][i]) == sp[p + [i]]
    ensures !IsValid(t[sp[p]][i]) ==> p + [i] !in sp
  {
    assert LinksOk(t, sp, p);
    if p + [i] in sp {
      PteRoundTrip(sp[p + [i]], 0);
    }
  }

  predicate Distinct(s: seq<nat>) { forall i, j :: 0 <= i < j < |s| ==> s[i] != s[j] }

  /** The tables outside a space are as they were. */
  predicate Others(t: Tables, t': Tables, sp: Space) {
    forall f :: f in t && f !in sp.Values ==> f in t' && t'[f] == t[f]
  }

  /** A space grew only by frames that were free. */
  predicate Grown(sp: Space, sp': Space, free: seq<nat>) {
    && (forall p :: p in sp ==> p in sp' && sp'[p] == sp[p])
    && (forall p :: p in sp' && p !in sp ==> sp'[p] in free)
  }

  predicate Subset(s: seq<nat>, s': seq<nat>) { forall f :: f in s ==> f in s' }

  /**
   A space is still a tree with the same root, grown only by free frames, and other spaces'
   tables are as they were.
   */
  predicate Kept(t: Tables, sp: Space, free: seq<nat>, t': Tables, sp': Space, free': seq<nat>)
    requires [] in sp
  {
    && Tree(t', sp') && sp'[[]] == sp[[]]
    && Others(t, t', sp)
    && Grown(sp, sp', free)
    && Subset(free', free)
  }

  /** Tables were added to a space and nothing else changed. */
  predicate Linked(t: Tables, sp: Space, free: seq<nat>, t': Tables, sp': Space, free': seq<nat>)
    requires [] in sp
  {
    Kept(t, sp, free, t', sp', free') && SameMap(t, sp, t', sp')
  }

  lemma LinkedRefl(t: Tables, sp: Space, free: seq<nat>)
    requires Tree(t, sp)
    ensures Linked(t, sp, free, t, sp, free)
  {
    hide Tree, At;
    TreeRoot(t, sp);
  }

  lemma TreeRoot(t: Tables, sp: Space)
    requires Tree(t, sp)
    ensures [] in sp
  {
  }

  lemma KeptTrans(t0: Tables, sp0: Space, free0: seq<nat>, t1: Tables, sp1: Space, free1: seq<nat>, t2: Tables,
      sp2: Space, free2: seq<nat>)
    requires [] in sp0 && Kept(t0, sp0, free0, t1, sp1, free1) && [] in sp1 && Kept(t1, sp1, free1, t2, sp2, free2)
    requires forall f :: f in t0 ==> f !in free0
    ensures Kept(t0, sp0, free0, t2, sp2, free2)
  {
    hide Tree, At;
    forall f | f in t0 && f !in sp0.Values ensures f in t2 && t2[f] == t0[f] {
      assert f !in sp1.Values;
    }
  }

  lemma LinkedTrans(t0: Tables, sp0: Space, free0: seq<nat>, t1: Tables, sp1: Space, free1: seq<nat>,
      t2: Tables, sp2: Space, free2: seq<nat>)
    requires [] in sp0 && Linked(t0, sp0, free0, t1, sp1, free1) && [] in sp1 && Linked(t1, sp1, free1, t2, sp2, free2)
    requires forall f :: f in t0 ==> f !in free0
    ensures Linked(t0, sp0, free0, t2, sp2, free2)
  {
    hide Kept, At, Tree;
    KeptTrans(t0, sp0, free0, t1, sp1, free1, t2, sp2, free2);
    KeptTree(t1, sp1, free1, t2, sp2, free2);
    forall u: nat | u < NPAGES ensures At(t2, sp2, u) == At(t0, sp0, u) {
      assert At(t1, sp1, u) == At(t0, sp0, u);
    }
  }

  lemma KeptTree(t: Tables, sp: Space, free: seq<nat>, t': Tables, sp': Space, free': seq<nat>)
    requires [] in sp && Kept(t, sp, free, t', sp', free')
    ensures Tree(t', sp') && [] in sp' && sp'[[]] == sp[[]]
  {
  }

  lemma LinkedKept(t: Tables, sp: Space, free: seq<nat>, t': Tables, sp': Space, free': seq<nat>)
    requires [] in sp && Linked(t, sp, free, t', sp', free')
    ensures Tree(t', sp') && [] in sp' && sp'[[]] == sp[[]] && Kept(t, sp, free, t', sp', free')
    ensures SameMap(t, sp, t', sp')
  {
  }

  /** The word in a page's slot is what the page is mapped to. */
  lemma SlotAt(t: Tables, sp: Space, v: nat)
    requires Tree(t, sp) && Dir(v) in sp
    ensures IsTable(t, sp[Dir(v)])
    ensures var w := t[sp[Dir(v)]][Ix(v)[2]]; At(t, sp, v) == if IsValid(w) then Some(w) else None
  {
    hide Lookup, Ix;
    LookupFlat(t, sp, Ix(v));
  }

  /** Writing a page's slot. */
  lemma WriteKept(t: Tables, sp: Space, free: seq<nat>, v: nat, w: nat)
    requires Tree(t, sp) && v < NPAGES && Dir(v) in sp
    ensures [] in sp && IsTable(t, sp[Dir(v)])
    ensures var t' := SetWord(t, sp[Dir(v)], Ix(v)[2], w); Kept(t, sp, free, t', sp, free) && PageSet(t, t', sp, v, w)
  {
    hide Tree, PageSet, Ix;
    TreeTable(t, sp, Dir(v));
    WritePage(t, sp, v, w);
  }

  // ---------------------------------------------------------------- ranges of pages

  /** The page of va + size - 1, in 64-bit arithmetic. */
  function LastPage(va: nat, size: nat): nat {
    (va + size + U64 - 1) % U64 / PGSIZE
  }

  /** A range of pages was mapped to consecutive frames and no other page changed. */
  predicate RangeMapped(t: Tables, sp: Space, t': Tables, sp': Space, first: nat, n: nat, frame: nat, perm: nat)
    requires [] in sp && [] in sp' && perm < 1024
  {
    forall u: nat {:trigger At(t', sp', u)} :: u < NPAGES ==>
      At(t', sp', u) == if first <= u < first + n then Some(Pte(frame + (u - first), perm)) else At(t, sp, u)
  }

  /** A range of pages was unmapped and no other page changed. */
  predicate RangeCleared(t: Tables, t': Tables, sp: Space, first: nat, n: nat)
    requires [] in sp
  {
    forall u: nat {:trigger At(t', sp, u)} :: u < NPAGES ==>
      At(t', sp, u) == if first <= u < first + n then None else At(t, sp, u)
  }

  predicate RangeFree(t: Tables, sp: Space, first: nat, n: nat)
    requires [] in sp
  {
    forall u: nat {:trigger At(t, sp, u)} :: first <= u < first + n ==> At(t, sp, u) == None
  }

  /** The pages of a range are mapped by words with more than the valid bit. */
  predicate RangeUsed(t: Tables, sp: Space, first: nat, n: nat)
    requires [] in sp
  {
    forall u: nat {:trigger At(t, sp, u)} :: first <= u < first + n ==>
        At(t, sp, u).Some? && FlagsOf(At(t, sp, u).value) != PTE_V
  }

  /** The frames a range of pages is mapped to. */
  function RangeFrames(t: Tables, sp: Space, first: nat, n: nat): set<nat>
    requires [] in sp
  {
    set u | first <= u < first + n && At(t, sp, u).Some? :: FrameOf(At(t, sp, u).value)
  }

  /** A range of pages has data frames of its own. */
  predicate RangeOwned(t: Tables, sp: Space, first: nat, n: nat, data: set<nat>)
    requires [] in sp
  {
    && (forall u: nat {:trigger At(t, sp, u)} :: first <= u < first + n && At(t, sp, u).Some? ==>
        FrameOf(At(t, sp, u).value) in data)
    && (forall u: nat, v: nat {:trigger At(t, sp, u), At(t, sp, v)} ::
          first <= u < first + n && first <= v < first + n && u != v && At(t, sp, u).Some? && At(t, sp, v).Some? ==>
            FrameOf(At(t, sp, u).value) != FrameOf(At(t, sp, v).value))
  }

  /** One page was mapped and no other changed. */
  predicate PageMapped(t: Tables, sp: Space, t': Tables, sp': Space, v: nat, w: nat)
    requires [] in sp && [] in sp'
  {
    forall u: nat {:trigger At(t', sp', u)} :: u < NPAGES ==> At(t', sp', u) == if u == v then Some(w) else At(t, sp, u)
  }

  lemma LinkThenSet(t: Tables, sp: Space, t1: Tables, sp1: Space, t2: Tables, v: nat, w: nat)
    requires [] in sp && [] in sp1 && v < NPAGES && IsValid(w)
    requires SameMap(t, sp, t1, sp1) && PageSet(t1, t2, sp1, v, w)
    ensures PageMapped(t, sp, t2, sp1, v, w)
  {
    hide At;
    forall u: nat | u < NPAGES ensures At(t2, sp1, u) == if u == v then Some(w) else At(t, sp, u) {
      assert At(t1, sp1, u) == At(t, sp, u);
    }
  }

  lemma MapOne(t0: Tables, sp0: Space, t1: Tables, sp1: Space, t2: Tables, sp2: Space, first: nat, n: nat, frame: nat,
      perm: nat)
    requires [] in sp0 && [] in sp1 && [] in sp2 && perm < 1024 && first + n < NPAGES
    requires RangeMapped(t0, sp0, t1, sp1, first, n, frame, perm)
    requires PageMapped(t1, sp1, t2, sp2, first + n, Pte(frame + n, perm))
    ensures RangeMapped(t0, sp0, t2, sp2, first, n + 1, frame, perm)
    ensures At(t1, sp1, first + n) == At(t0, sp0, first + n)
  {
    hide At;
    forall u: nat | u < NPAGES
      ensures At(t2, sp2, u) == if first <= u < first + (n + 1) then Some(Pte(frame + (u - first), perm))
          else At(t0, sp0, u)
    {
      assert At(t1, sp1, u) == if first <= u < first + n then Some(Pte(frame + (u - first), perm)) else At(t0, sp0, u);
    }
  }

  lemma ClearOne(t0: Tables, t1: Tables, t2: Tables, sp: Space, first: nat, n: nat)
    requires [] in sp && first + n < NPAGES
    requires RangeCleared(t0, t1, sp, first, n) && PageSet(t1, t2, sp, first + n, 0)
    ensures RangeCleared(t0, t2, sp, first, n + 1)
    ensures At(t1, sp, first + n) == At(t0, sp, first + n)
  {
    hide At;
    forall u: nat | u < NPAGES ensures At(t2, sp, u) == if first <= u < first + (n + 1) then None else At(t0, sp, u) {
      assert At(t1, sp, u) == if first <= u < first + n then None else At(t0, sp, u);
    }
  }

  // ---------------------------------------------------------------- physical memory and the code

  /** Physical frames: page-table pages, pages of data, and the free ones (ufkalloc(PGSIZE) takes the first). */
  class Vm {
    var tables: Tables
    var data: map<nat, seq<Byte>>
    var free: seq<nat>
    var panicked: bool

    ghost predicate Valid()
      reads this
    {
      && Distinct(free)
      && (forall f :: f in tables ==> |tables[f]| == 512 && f !in data && f !in free)
      && (forall f :: f in data ==> |data[f]| == PGSIZE && f !in free)
    }

    /** Every frame there is: no operation loses one. */
    ghost function Frames(): set<nat>
      reads this
    {
      tables.Keys + data.Keys + (set f | f in free)
    }

    method AllocTable() returns (f: nat)
      requires Valid() && !panicked
      modifies this`free, this`tables, this`panicked
      ensures Valid() && Frames() == old(Frames())
      ensures panicked <==> old(free) == []
      ensures panicked ==> free == []
      ensures !panicked ==> [f] + free == old(free) && f !in old(tables) && tables == old(tables)[f := Zeros()]
    {
      f := 0;
      if |free| == 0 {
        panicked := true;
        return;
      }
      f := free[0];
      free := free[1..];
      tables := tables[f := Zeros()];
      assert [f] + free == old(free);
      assert forall g :: g in old(free) <==> g == f || g in free;
    }

    method AllocData(bytes: seq<Byte>) returns (f: nat)
      requires Valid() && !panicked && |bytes| == PGSIZE
      modifies this`free, this`data, this`panicked
      ensures Valid() && Frames() == old(Frames())
      ensures panicked <==> old(free) == []
      ensures panicked ==> free == []
      ensures !panicked ==> [f] + free == old(free) && f !in old(data) && data == old(data)[f := bytes]
    {
      f := 0;
      if |free| == 0 {
        panicked := true;
        return;
      }
      f := free[0];
      free := free[1..];
      data := data[f := bytes];
      assert [f] + free == old(free);
      assert forall g :: g in old(free) <==> g == f || g in free;
    }

    method FreeData(f: nat)
      requires Valid() && f in data
      modifies this`free, this`data
      ensures Valid() && Frames() == old(Frames())
      ensures data == old(data) - {f} && free == [f] + old(free)
    {
      data := data - {f};
      free := [f] + free;
    }

    /** One round of walk's loop. */
    method Descend(ghost sp: Space, ghost p: seq<nat>, f: nat, i: nat, alloc: bool)
      returns (next: Option<nat>, ghost sp': Space)
      requires Valid() && !panicked && Tree(tables, sp) && p in sp && |p| < 2 && f == sp[p] && i < 512
      requires (p + [i])[0] < 256
      modifies this`tables, this`free, this`panicked
      ensures Valid() && Frames() == old(Frames())
      ensures !alloc ==> sp' == sp && tables == old(tables) && free == old(free) && !panicked
      ensures panicked ==> free == []
      ensures !panicked ==> Linked(old(tables), sp, old(free), tables, sp', free)
      ensures !panicked && next.None? ==> !alloc && !IsValid(tables[f][i])
      ensures !panicked && next.Some? ==> p + [i] in sp' && next.value == sp'[p + [i]]
    {
      hide Tree, SameMap, SetWord;
      TreeTable(tables, sp, p);
      NextTable(tables, sp, p, i);
      next, sp' := None, sp;
      LinkedRefl(tables, sp, free);
      var w := tables[f][i];
      if IsValid(w) {
        next := Some(FrameOf(w));
        return;
      }
      if !alloc {
        return;
      }
      var g := AllocTable();
      if panicked {
        return;
      }
      GrowKeeps(old(tables), sp, p, i, g);
      tables := SetWord(tables, f, i, Pte(g, 0));
      sp' := sp[p + [i] := g];
      next := Some(g);
    }

    /**
     walk: the slot of a page's word. With alloc it links the missing tables, which
     changes no page's word; without, it changes nothing and fails exactly when a table
     is missing. It panics beyond MAXVA and when no frame is left.
     */
    method Walk(ghost sp: Space, root: nat, va: nat, alloc: bool) returns (slot: Option<(nat, nat)>, ghost sp': Space)
      requires Valid() && !panicked && Tree(tables, sp) && root == sp[[]]
      modifies this`tables, this`free, this`panicked
      ensures Valid() && Frames() == old(Frames())
      ensures !alloc ==> sp' == sp && tables == old(tables) && free == old(free) && (panicked <==> va >= MAXVA)
      ensures panicked ==> va >= MAXVA || free == []
      ensures !panicked ==> va < MAXVA && Linked(old(tables), sp, old(free), tables, sp', free)
      ensures !panicked && slot.None? ==> !alloc && Dir(va / PGSIZE) !in sp && At(tables, sp', va / PGSIZE) == None
      ensures !panicked && slot.Some? ==>
                Dir(va / PGSIZE) in sp' && slot.value == (sp'[Dir(va / PGSIZE)], Ix(va / PGSIZE)[2])
    {
      hide Tree, Linked, Lookup, Ix, At, Px;
      slot, sp' := None, sp;
      TreeRoot(tables, sp);
      if va >= MAXVA {
        panicked := true;
        return;
      }
      var f := root;
      var level := 2;
      ghost var v := va / PGSIZE;
      ghost var p: seq<nat> := [];
      PxIx(va);
      LinkedRefl(tables, sp, free);
      while level > 0
        invariant 0 <= level <= 2
        invariant Valid() && !panicked && Frames() == old(Frames())
        invariant p == Ix(v)[..2 - level] && p in sp' && f == sp'[p]
        invariant Tree(tables, sp') && [] in sp' && Linked(old(tables), sp, old(free), tables, sp', free)
        invariant !alloc ==> sp' == sp && tables == old(tables) && free == old(free)
      {
        var i := Px(level, va);
        ghost var t1, sp1, free1 := tables, sp', free;
        var next;
        next, sp' := Descend(sp', p, f, i, alloc);
        if panicked {
          return;
        }
        LinkedTrans(old(tables), sp, old(free), t1, sp1, free1, tables, sp', free);
        LinkedKept(t1, sp1, free1, tables, sp', free);
        if next.None? {
          NoTable(tables, sp, v, p);
          return;
        }
        p, f := p + [i], next.value;
        level := level - 1;
      }
      assert p == Dir(v);
      slot := Some((f, Px(0, va)));
    }

    /** A round of mappages' loop: one page. */
    method MapPage(ghost sp: Space, root: nat, v: nat, w: nat) returns (ghost sp': Space)
      requires Valid() && !panicked && Tree(tables, sp) && root == sp[[]] && IsValid(w)
      modifies this`tables, this`free, this`panicked
      ensures Valid() && Frames() == old(Frames()) && [] in sp
      ensures panicked ==> v >= NPAGES || free == [] || At(old(tables), sp, v) != None
      ensures !panicked ==>
                && v < NPAGES && At(old(tables), sp, v) == None
                && Kept(old(tables), sp, old(free), tables, sp', free) && Tree(tables, sp') && [] in sp'
                    && sp'[[]] == root
                && PageMapped(old(tables), sp, tables, sp', v, w)
    {
      hide Tree, Kept, Linked, PageSet, PageMapped, SetWord, Ix, Lookup;
      TreeRoot(tables, sp);
      var a := v * PGSIZE;
      assert a / PGSIZE == v;
      var slot;
      slot, sp' := Walk(sp, root, a, true);
      if panicked {
        return;
      }
      ghost var t1, free1 := tables, free;
      LinkedKept(old(tables), sp, old(free), t1, sp', free1);
      var (f, i) := slot.value;
      SlotAt(tables, sp', v);
      WriteKept(tables, sp', free, v, w);
      if IsValid(tables[f][i]) {
        panicked := true;
        return;
      }
      tables := SetWord(tables, f, i, w);
      KeptTrans(old(tables), sp, old(free), t1, sp', free1, tables, sp', free);
      KeptTree(t1, sp', free1, tables, sp', free);
      LinkThenSet(old(tables), sp, t1, sp', tables, v, w);
    }

    /** mappages: maps a range of unmapped pages to consecutive frames, or panics. */
    method MapPages(ghost sp: Space, root: nat, va: nat, size: nat, pa: nat, perm: nat) returns (ghost sp': Space)
      requires Valid() && !panicked && Tree(tables, sp) && root == sp[[]] && va < U64 && size < U64 && perm < 1024
      modifies this`tables, this`free, this`panicked
      ensures Valid() && Frames() == old(Frames()) && [] in sp
      ensures var first, last := va / PGSIZE, LastPage(va, size);
              && (!panicked ==>
                    && first <= last < NPAGES
                    && Kept(old(tables), sp, old(free), tables, sp', free) && Tree(tables, sp') && [] in sp'
                        && sp'[[]] == root
                    && RangeFree(old(tables), sp, first, last + 1 - first)
                    && RangeMapped(old(tables), sp, tables, sp', first, last + 1 - first, pa / PGSIZE, perm))
              && (panicked ==>
                  last < first || last >= NPAGES || free == [] || !RangeFree(old(tables), sp, first, last + 1 - first))
    {
      hide Tree, Kept, PageMapped, RangeMapped, At, Pte, IsValid, LastPage;
      var first, last := va / PGSIZE, LastPage(va, size);
      var frame := pa / PGSIZE;
      var n: nat := 0;
      sp' := sp;
      TreeRoot(tables, sp);
      MapNone(tables, sp, first, frame, perm);
      LinkedRefl(tables, sp, free);
      LinkedKept(tables, sp, free, tables, sp, free);
      while true
        invariant Valid() && !panicked && Frames() == old(Frames())
        invariant Tree(tables, sp') && [] in sp' && sp'[[]] == root
        invariant Kept(old(tables), sp, old(free), tables, sp', free)
        invariant RangeMapped(old(tables), sp, tables, sp', first, n, frame, perm)
        invariant RangeFree(old(tables), sp, first, n)
        invariant last < first || first + n <= last
        decreases NPAGES - (first + n)
      {
        ghost var t1, sp1, free1 := tables, sp', free;
        PteRoundTrip(frame + n, perm);
        sp' := MapPage(sp', root, first + n, Pte(frame + n, perm));
        UnmappedYet(old(tables), sp, t1, sp1, first, n, frame, perm);
        if panicked {
          return;
        }
        KeptTrans(old(tables), sp, old(free), t1, sp1, free1, tables, sp', free);
        MapOne(old(tables), sp, t1, sp1, tables, sp', first, n, frame, perm);
        n := n + 1;
        if first + n == last + 1 {
          return;
        }
      }
    }

    /** A round of uvmunmap's loop: one page. */
    method UnmapPage(ghost sp: Space, root: nat, v: nat, doFree: bool)
      requires Valid() && !panicked && Tree(tables, sp) && root == sp[[]]
      requires doFree && v < NPAGES && At(tables, sp, v).Some? ==> FrameOf(At(tables, sp, v).value) in data
      modifies this
      ensures Valid() && Frames() == old(Frames()) && [] in sp
      ensures panicked <==>
          v >= NPAGES || old(At(tables, sp, v)) == None || FlagsOf(old(At(tables, sp, v)).value) == PTE_V
      ensures !panicked ==>
                && Tree(tables, sp) && Others(old(tables), tables, sp) && PageSet(old(tables), tables, sp, v, 0)
                && tables.Keys == old(tables).Keys
                && data == (if doFree then old(data) - {FrameOf(old(At(tables, sp, v)).value)} else old(data))
    {
      hide Tree, Kept, PageSet, SetWord, Ix, Lookup, FlagsOf;
      TreeRoot(tables, sp);
      var a := v * PGSIZE;
      assert a / PGSIZE == v;
      var slot, _ := Walk(sp, root, a, false);
      if panicked {
        return;
      }
      if slot.None? {
        panicked := true;
        return;
      }
      var (f, i) := slot.value;
      SlotAt(tables, sp, v);
      WriteKept(tables, sp, [], v, 0);
      var w := tables[f][i];
      if !IsValid(w) || FlagsOf(w) == PTE_V {
        panicked := true;
        return;
      }
      if doFree {
        FreeData(FrameOf(w));
      }
      tables := SetWord(tables, f, i, 0);
      KeptOthers(old(tables), sp, [], tables, sp, []);
    }

    /**
     uvmunmap: unmaps a range of pages, all of them mapped by leaves, and gives their
     frames back if asked to. It panics exactly when some page of the range is not.
     */
    method UvmUnmap(ghost sp: Space, root: nat, va: nat, size: nat, doFree: bool)
      requires Valid() && !panicked && Tree(tables, sp) && root == sp[[]] && va < U64 && size < U64
      requires doFree ==> RangeOwned(tables, sp, va / PGSIZE, PageCount(va, size), data.Keys)
      modifies this
      ensures Valid() && Frames() == old(Frames()) && [] in sp
      ensures var first, last := va / PGSIZE, LastPage(va, size);
              && (panicked <==> last < first || last >= NPAGES || !RangeUsed(old(tables), sp, first, last + 1 - first))
              && (!panicked ==>
                    && Tree(tables, sp) && Others(old(tables), tables, sp)
                    && RangeCleared(old(tables), tables, sp, first, last + 1 - first)
                    && tables.Keys == old(tables).Keys
                    && data == (if doFree then old(data) - RangeFrames(old(tables), sp, first, last + 1 - first)
                        else old(data)))
    {
      hide Tree, PageSet, RangeCleared, At, FlagsOf, FrameOf, LastPage, RangeOwned;
      var first, last := va / PGSIZE, LastPage(va, size);
      var n: nat := 0;
      TreeRoot(tables, sp);
      ClearNone(tables, sp, first);
      while true
        invariant Valid() && !panicked && Frames() == old(Frames())
        invariant Tree(tables, sp) && Others(old(tables), tables, sp) && tables.Keys == old(tables).Keys
        invariant RangeCleared(old(tables), tables, sp, first, n) && RangeUsed(old(tables), sp, first, n)
        invariant data == if doFree then old(data) - RangeFrames(old(tables), sp, first, n) else old(data)
        invariant last < first || first + n <= last
        invariant n > 0 ==> first + n <= NPAGES
        decreases NPAGES - (first + n)
      {
        ghost var t1 := tables;
        UnclearedYet(old(tables), tables, sp, first, n);
        if doFree {
          StillOwned(old(tables), sp, first, n, PageCount(va, size), old(data));
        }
        UnmapPage(sp, root, first + n, doFree);
        if panicked {
          return;
        }
        OthersTrans(old(tables), t1, tables, sp);
        ClearOne(old(tables), t1, tables, sp, first, n);
        RangeFramesGrow(old(tables), sp, first, n);
        n := n + 1;
        if first + n == last + 1 {
          return;
        }
      }
    }

    method FreeTable(f: nat)
      requires Valid() && f in tables
      modifies this`free, this`tables
      ensures Valid() && Frames() == old(Frames())
      ensures tables == old(tables) - {f} && free == [f] + old(free)
    {
      tables := tables - {f};
      free := [f] + free;
    }

    /**
     freewalk: gives back a table and every table below it, each once, and panics
     exactly when a page is still mapped there.
     */
    method Freewalk(ghost sp: Space, f: nat, ghost p: seq<nat>)
      requires Valid() && !panicked && SpaceOk(sp) && p in sp && f == sp[p]
      requires SubTree(tables, sp, p) && ProperLeaves(tables, sp, p)
      modifies this`tables, this`free, this`panicked
      ensures Valid() && Frames() == old(Frames())
      ensures panicked <==> !NoLeaves(old(tables), sp, p)
      ensures !panicked ==> tables == old(tables) - Below(sp, p)
      decreases 2 - |p|
    {
      hide SpaceOk, SubTree, ProperLeaves, NoLeaves, NoLeavesTo, Below, DoneTo, SetWord;
      var i := 0;
      FreeStart(tables, sp, p);
      while i < 512
        invariant 0 <= i <= 512 && Valid() && !panicked && Frames() == old(Frames())
        invariant f in tables && PartlyFreed(old(tables), tables, sp, p, i)
        invariant NoLeavesTo(old(tables), sp, p, i)
      {
        var w := tables[f][i];
        ghost var t := old(tables);
        ghost var t1 := tables;
        FreeRound(t, sp, p, i);
        if IsValid(w) && !IsLeaf(w) {
          FreeBelow(t, tables, sp, p, i);
          Freewalk(sp, FrameOf(w), p + [i]);
          LeavesRound(t, t1, sp, p, i);
          if panicked {
            return;
          }
          FreeChild(t, t1, sp, p, i);
          tables := SetWord(tables, f, i, 0);
        } else if IsValid(w) {
          panicked := true;
          return;
        }
        i := i + 1;
      }
      FreeEnd(old(tables), tables, sp, p);
      FreeTable(f);
    }
  }

  // ---------------------------------------------------------------- freeing a tree

  predicate SpaceOk(sp: Space) {
    && (forall p :: p in sp ==> PathOk(sp, p))
    && (forall p, q :: p in sp && q in sp && p != q ==> sp[p] != sp[q])
  }

  predicate SubTree(t: Tables, sp: Space, p: seq<nat>) {
    forall q :: q in sp && p <= q ==> IsTable(t, sp[q]) && (|q| < 2 ==> LinksOk(t, sp, q))
  }

  predicate AllInvalid(words: seq<nat>) { forall i :: 0 <= i < |words| ==> !IsValid(words[i]) }

  /** The lowest tables below p map nothing. */
  predicate NoLeaves(t: Tables, sp: Space, p: seq<nat>) {
    forall q :: q in sp && p <= q && |q| == 2 && sp[q] in t ==> AllInvalid(t[sp[q]])
  }

  /** Every page mapped below p can be read, written or executed. */
  predicate ProperLeaves(t: Tables, sp: Space, p: seq<nat>) {
    forall q :: q in sp && p <= q && |q| == 2 && sp[q] in t ==> ProperWords(t[sp[q]])
  }

  predicate ProperWords(words: seq<nat>) { forall i :: 0 <= i < |words| && IsValid(words[i]) ==> IsLeaf(words[i]) }

  /** The frames of the tables at and below p. */
  function Below(sp: Space, p: seq<nat>): set<nat> { set q | q in sp && p <= q :: sp[q] }

  /** The part of it under the first i words. */
  function DoneTo(sp: Space, p: seq<nat>, i: nat): set<nat> { set q | q in sp && p < q && q[|p|] < i :: sp[q] }

  /** freewalk's progress in table p: what is under the first i words is gone, the rest is as it was. */
  predicate PartlyFreed(t: Tables, t': Tables, sp: Space, p: seq<nat>, i: nat)
    requires p in sp && sp[p] in t && |t[sp[p]]| == 512 && i <= 512
  {
    && t'.Keys == t.Keys - DoneTo(sp, p, i)
    && (forall g :: g in t' && g != sp[p] ==> t'[g] == t[g])
    && sp[p] in t' && |t'[sp[p]]| == 512
    && (forall j :: i <= j < 512 ==> t'[sp[p]][j] == t[sp[p]][j])
  }

  predicate NoLeavesTo(t: Tables, sp: Space, p: seq<nat>, i: nat)
    requires p in sp && sp[p] in t && |t[sp[p]]| == 512 && i <= 512
  {
    if |p| == 2 then AllInvalid(t[sp[p]][..i])
    else forall q :: q in sp && p < q && |q| == 2 && q[|p|] < i && sp[q] in t ==> AllInvalid(t[sp[q]])
  }

  lemma PrefixIn(sp: Space, q: seq<nat>, k: nat)
    requires SpaceOk(sp) && q in sp && k <= |q|
    ensures q[..k] in sp
    decreases |q|
  {
    if k == |q| {
      assert q[..k] == q;
    } else {
      assert PathOk(sp, q);
      PrefixIn(sp, q[..|q| - 1], k);
      assert q[..|q| - 1][..k] == q[..k];
    }
  }

  /** A table strictly below p is under one of p's words. */
  lemma UnderWord(sp: Space, p: seq<nat>, q: seq<nat>)
    requires SpaceOk(sp) && p in sp && q in sp && p < q
    ensures q[|p|] < 512 && p + [q[|p|]] in sp && p + [q[|p|]] <= q && |p| < 2
  {
    PrefixIn(sp, q, |p| + 1);
    var c := q[..|p| + 1];
    assert c == p + [q[|p|]];
    assert PathOk(sp, c) && PathOk(sp, q);
  }

  lemma FreeStart(t: Tables, sp: Space, p: seq<nat>)
    requires SpaceOk(sp) && p in sp && SubTree(t, sp, p)
    ensures IsTable(t, sp[p]) && |p| <= 2 && PartlyFreed(t, t, sp, p, 0) && NoLeavesTo(t, sp, p, 0)
  {
    assert PathOk(sp, p);
    assert DoneTo(sp, p, 0) == {};
  }

  /** What a word of table p says. */
  lemma FreeRound(t: Tables, sp: Space, p: seq<nat>, i: nat)
    requires SpaceOk(sp) && p in sp && SubTree(t, sp, p) && ProperLeaves(t, sp, p) && i < 512
    ensures IsTable(t, sp[p]) && |p| <= 2
    ensures var w := t[sp[p]][i];
            && (IsValid(w) && !IsLeaf(w) ==> |p| < 2 && p + [i] in sp && FrameOf(w) == sp[p + [i]])
            && (IsValid(w) && IsLeaf(w) ==> !NoLeaves(t, sp, p))
            && (!IsValid(w) ==>
                DoneTo(sp, p, i + 1) == DoneTo(sp, p, i) && (NoLeavesTo(t, sp, p, i) ==> NoLeavesTo(t, sp, p, i + 1)))
  {
    assert PathOk(sp, p);
    var w := t[sp[p]][i];
    if |p| < 2 {
      assert LinksOk(t, sp, p);
      if p + [i] in sp {
        PteRoundTrip(sp[p + [i]], 0);
        PointerBits(sp[p + [i]]);
      } else {
        forall q | q in sp && p < q ensures q[|p|] != i {
          UnderWord(sp, p, q);
        }
      }
    } else if IsValid(w) {
      assert ProperWords(t[sp[p]]);
      assert !AllInvalid(t[sp[p]]);
    } else {
      assert t[sp[p]][..i + 1] == t[sp[p]][..i] + [w];
      forall q | q in sp && p < q ensures false {
        UnderWord(sp, p, q);
      }
    }
  }

  lemma PointerBits(f: nat)
    ensures !IsLeaf(Pte(f, 0))
  {
    assert Pte(f, 0) / 2 == f * 512;
  }

  /** What is under word i is still whole. */
  lemma FreeBelow(t: Tables, t1: Tables, sp: Space, p: seq<nat>, i: nat)
    requires SpaceOk(sp) && p in sp && SubTree(t, sp, p) && ProperLeaves(t, sp, p) && i < 512 && p + [i] in sp
    requires IsTable(t, sp[p]) && PartlyFreed(t, t1, sp, p, i)
    ensures SubTree(t1, sp, p + [i]) && ProperLeaves(t1, sp, p + [i])
    ensures NoLeaves(t1, sp, p + [i]) <==> NoLeaves(t, sp, p + [i])
  {
    hide DoneTo, IsLeaf;
    forall q | q in sp && p + [i] <= q
      ensures p <= q && sp[q] in t1 && t1[sp[q]] == t[sp[q]] && IsTable(t, sp[q]) && (|q| < 2 ==> LinksOk(t1, sp, q))
    {
      NotDone(sp, p, q, i);
      assert sp[q] != sp[p];
      if |q| < 2 {
        assert LinksOk(t, sp, q);
      }
    }
  }

  lemma NotDone(sp: Space, p: seq<nat>, q: seq<nat>, i: nat)
    requires SpaceOk(sp) && q in sp && p + [i] <= q
    ensures sp[q] !in DoneTo(sp, p, i) && p < q
  {
    assert q[|p|] == i;
  }

  lemma LeavesRound(t: Tables, t1: Tables, sp: Space, p: seq<nat>, i: nat)
    requires SpaceOk(sp) && p in sp && IsTable(t, sp[p]) && i < 512 && |p| < 2
    requires NoLeavesTo(t, sp, p, i) && (NoLeaves(t1, sp, p + [i]) <==> NoLeaves(t, sp, p + [i]))
    ensures if NoLeaves(t1, sp, p + [i]) then NoLeavesTo(t, sp, p, i + 1) else !NoLeaves(t, sp, p)
  {
    hide AllInvalid;
    if NoLeaves(t, sp, p + [i]) {
      forall q | q in sp && p < q && |q| == 2 && q[|p|] < i + 1 && sp[q] in t ensures AllInvalid(t[sp[q]]) {
        if q[|p|] == i {
          assert p + [i] <= q;
        }
      }
    }
  }

  lemma FreeChild(t: Tables, t1: Tables, sp: Space, p: seq<nat>, i: nat)
    requires SpaceOk(sp) && p in sp && IsTable(t, sp[p]) && i < 512 && p + [i] in sp && PartlyFreed(t, t1, sp, p, i)
    ensures var t2 := t1 - Below(sp, p + [i]);
            IsTable(t2, sp[p]) && PartlyFreed(t, SetWord(t2, sp[p], i, 0), sp, p, i + 1)
  {
    var c := p + [i];
    assert DoneTo(sp, p, i + 1) == DoneTo(sp, p, i) + Below(sp, c) by {
      forall q | q in sp && p < q && q[|p|] == i ensures c <= q {
      }
    }
    assert sp[p] !in Below(sp, c);
  }

  lemma FreeEnd(t: Tables, t1: Tables, sp: Space, p: seq<nat>)
    requires SpaceOk(sp) && p in sp && IsTable(t, sp[p]) && PartlyFreed(t, t1, sp, p, 512) && NoLeavesTo(t, sp, p, 512)
    ensures NoLeaves(t, sp, p) && t1 - {sp[p]} == t - Below(sp, p)
  {
    forall q | q in sp && p < q ensures q[|p|] < 512 && |p| < 2 {
      UnderWord(sp, p, q);
    }
    forall q | q in sp && p <= q ensures sp[q] in DoneTo(sp, p, 512) + {sp[p]} {
      if |q| == |p| {
        assert q == p;
      } else {
        assert p < q && q[|p|] < 512;
      }
    }
    assert Below(sp, p) == DoneTo(sp, p, 512) + {sp[p]};
    assert t[sp[p]][..512] == t[sp[p]];
  }

  /** How many pages a range operation may visit. */
  function PageCount(va: nat, size: nat): nat {
    var first, last := va / PGSIZE, LastPage(va, size);
    if first <= last then last + 1 - first else if first < NPAGES then NPAGES - first else 0
  }

  lemma ClearNone(t: Tables, sp: Space, first: nat)
    requires [] in sp
    ensures RangeCleared(t, t, sp, first, 0) && RangeUsed(t, sp, first, 0) && RangeFrames(t, sp, first, 0) == {}
  {
    hide At;
  }

  lemma UnclearedYet(t0: Tables, t1: Tables, sp: Space, first: nat, n: nat)
    requires [] in sp && RangeCleared(t0, t1, sp, first, n)
    ensures first + n < NPAGES ==> At(t1, sp, first + n) == At(t0, sp, first + n)
  {
    hide At;
  }

  /** The next page's frame was not given back with the pages before it. */
  lemma StillOwned(t: Tables, sp: Space, first: nat, n: nat, count: nat, data: map<nat, seq<Byte>>)
    requires [] in sp && RangeOwned(t, sp, first, count, data.Keys)
    ensures n < count && At(t, sp, first + n).Some? ==>
        FrameOf(At(t, sp, first + n).value) in data - RangeFrames(t, sp, first, n)
  {
    hide At, FrameOf;
  }

  lemma RangeFramesGrow(t: Tables, sp: Space, first: nat, n: nat)
    requires [] in sp && At(t, sp, first + n).Some?
    ensures RangeFrames(t, sp, first, n + 1) == RangeFrames(t, sp, first, n) + {FrameOf(At(t, sp, first + n).value)}
  {
    hide At, FrameOf;
    var grown := RangeFrames(t, sp, first, n + 1);
    forall f | f in grown
      ensures f in RangeFrames(t, sp, first, n) + {FrameOf(At(t, sp, first + n).value)}
    {
      var u :| first <= u < first + (n + 1) && At(t, sp, u).Some? && f == FrameOf(At(t, sp, u).value);
      assert u == first + n || u < first + n;
    }
  }

  lemma OthersTrans(t0: Tables, t1: Tables, t2: Tables, sp: Space)
    requires Others(t0, t1, sp) && Others(t1, t2, sp)
    ensures Others(t0, t2, sp)
  {
  }

  lemma KeptOthers(t: Tables, sp: Space, free: seq<nat>, t': Tables, sp': Space, free': seq<nat>)
    requires [] in sp && Kept(t, sp, free, t', sp', free')
    ensures Tree(t', sp') && Others(t, t', sp)
  {
  }

  lemma MapNone(t: Tables, sp: Space, first: nat, frame: nat, perm: nat)
    requires [] in sp && perm < 1024
    ensures RangeMapped(t, sp, t, sp, first, 0, frame, perm) && RangeFree(t, sp, first, 0)
  {
    hide At;
  }

  /** The pages after the part mapped so far are as they were. */
  lemma UnmappedYet(t0: Tables, sp0: Space, t1: Tables, sp1: Space, first: nat, n: nat, frame: nat, perm: nat)
    requires [] in sp0 && [] in sp1 && perm < 1024
    requires RangeMapped(t0, sp0, t1, sp1, first, n, frame, perm)
    ensures first + n < NPAGES ==> At(t1, sp1, first + n) == At(t0, sp0, first + n)
  {
    hide At;
  }
}
