/**
 User address spaces (kernel/mem/vm.c): growing, shrinking, copying and freeing
 them, and moving bytes across the user boundary. An address space is a page table
 whose user pages have data frames of their own.
 */
module UserMemory {
  import opened Common
  import opened PageTable

  /** Pages needed for a size (PGROUNDUP(sz) / PGSIZE). */
  function Pages(sz: nat): nat { (sz + PGSIZE - 1) / PGSIZE }

  /** The first n pages are mapped, each to a data frame of its own. */
  predicate Owns(t: Tables, sp: Space, n: nat, data: set<nat>)
    requires [] in sp
  {
    RangeUsed(t, sp, 0, n) && RangeOwned(t, sp, 0, n, data)
  }

  /** What pages m, m + 1, … are to hold: their flags and bytes. */
  type Wanted = seq<(nat, seq<Byte>)>

  /** A page with the flags wanted, on a frame that is new and has the bytes wanted. */
  predicate NewPage(t: Tables, sp: Space, d: map<nat, seq<Byte>>, d': map<nat, seq<Byte>>, m: nat, want: Wanted, u: nat)
    requires [] in sp
  {
    && m <= u < m + |want|
    && At(t, sp, u).Some? && FlagsOf(At(t, sp, u).value) == want[u - m].0
    && FrameOf(At(t, sp, u).value) !in d && FrameOf(At(t, sp, u).value) in d'
        && d'[FrameOf(At(t, sp, u).value)] == want[u - m].1
  }

  predicate Apart(t: Tables, sp: Space, u: nat, v: nat)
    requires [] in sp
  {
    At(t, sp, u).Some? && At(t, sp, v).Some? ==> FrameOf(At(t, sp, u).value) != FrameOf(At(t, sp, v).value)
  }

  /**
   Pages from m on were given new frames with the wanted contents; other pages and the frames
   there were are as before.
   */
  predicate Populated(t: Tables, sp: Space, d: map<nat, seq<Byte>>, t': Tables, sp': Space, d': map<nat, seq<Byte>>,
      m: nat, want: Wanted)
    requires [] in sp && [] in sp'
  {
    && (forall u: nat {:trigger At(t', sp', u)} :: u < NPAGES && !(m <= u < m + |want|) ==>
        At(t', sp', u) == At(t, sp, u))
    && (forall u: nat :: m <= u < m + |want| ==> NewPage(t', sp', d, d', m, want, u))
    && (forall u: nat, v: nat {:trigger Apart(t', sp', u, v)} ::
        m <= u < m + |want| && m <= v < m + |want| && u != v ==>
        Apart(t', sp', u, v))
    && (forall f :: f in d ==> f in d' && d'[f] == d[f])
  }

  lemma PopulateOne(t0: Tables, sp0: Space, d0: map<nat, seq<Byte>>, t: Tables, sp: Space, d: map<nat, seq<Byte>>,
      m: nat, want: Wanted, t': Tables, sp': Space, f: nat, perm: nat, bytes: seq<Byte>)
    requires [] in sp0 && [] in sp && [] in sp' && perm < 1024 && m + |want| < NPAGES && f !in d
    requires Populated(t0, sp0, d0, t, sp, d, m, want)
    requires PageMapped(t, sp, t', sp', m + |want|, Pte(f, perm))
    ensures Populated(t0, sp0, d0, t', sp', d[f := bytes], m, want + [(FlagsOf(Pte(f, perm)), bytes)])
  {
    hide At, FlagsOf, FrameOf, Pte;
    var n := m + |want|;
    var d' := d[f := bytes];
    var want' := want + [(FlagsOf(Pte(f, perm)), bytes)];
    PteRoundTrip(f, perm);
    assert At(t', sp', n) == Some(Pte(f, perm));
    forall u: nat | m <= u <= n ensures NewPage(t', sp', d0, d', m, want', u) {
      if u < n {
        assert At(t', sp', u) == At(t, sp, u) && NewPage(t, sp, d0, d, m, want, u);
      }
    }
    forall u: nat, v: nat | m <= u <= n && m <= v <= n && u != v ensures Apart(t', sp', u, v) {
      assert At(t', sp', u) == if u == n then Some(Pte(f, perm)) else At(t, sp, u);
      assert At(t', sp', v) == if v == n then Some(Pte(f, perm)) else At(t, sp, v);
      if u < n && v < n {
        assert Apart(t, sp, u, v);
      } else {
        var w := if u == n then v else u;
        assert NewPage(t, sp, d0, d, m, want, w);
      }
    }
    forall u: nat | u < NPAGES && !(m <= u <= n) ensures At(t', sp', u) == At(t0, sp0, u) {
      assert At(t', sp', u) == At(t, sp, u);
    }
  }

  lemma PopulatedOwns(t: Tables, sp: Space, d: map<nat, seq<Byte>>, t': Tables, sp': Space, d': map<nat, seq<Byte>>,
      m: nat, want: Wanted)
    requires [] in sp && [] in sp' && m + |want| <= NPAGES
    requires Owns(t, sp, m, d.Keys) && Populated(t, sp, d, t', sp', d', m, want)
    requires forall i :: 0 <= i < |want| ==> want[i].0 != PTE_V
    ensures Owns(t', sp', m + |want|, d'.Keys)
  {
    hide At, FlagsOf, FrameOf;
    var n := m + |want|;
    forall u: nat | u < n
      ensures At(t', sp', u).Some? && FlagsOf(At(t', sp', u).value) != PTE_V && FrameOf(At(t', sp', u).value) in d'
      ensures u < m ==> FrameOf(At(t', sp', u).value) in d
      ensures u >= m ==> FrameOf(At(t', sp', u).value) !in d
    {
      if u < m {
        assert At(t, sp, u).Some?;
      } else {
        assert NewPage(t', sp', d, d', m, want, u);
      }
    }
    forall u: nat, v: nat | u < n && v < n && u != v
      ensures FrameOf(At(t', sp', u).value) != FrameOf(At(t', sp', v).value)
    {
      if u < m && v < m {
        assert At(t, sp, u).Some? && At(t, sp, v).Some?;
      } else if u >= m && v >= m {
        assert Apart(t', sp', u, v);
      }
    }
  }

  lemma PopulateNone(t: Tables, sp: Space, d: map<nat, seq<Byte>>, m: nat)
    requires [] in sp
    ensures Populated(t, sp, d, t, sp, d, m, [])
  {
    hide At;
  }

  function ZeroPage(): (r: seq<Byte>)
    ensures |r| == PGSIZE && forall i :: 0 <= i < PGSIZE ==> r[i] == 0
  {
    seq(PGSIZE, i => 0)
  }

  /** A new frame with some contents, mapped at a page. */
  method AddPage(vm: Vm, ghost sp: Space, root: nat, v: nat, bytes: seq<Byte>, perm: nat)
      returns (f: nat, ghost sp': Space)
    requires vm.Valid() && !vm.panicked && Tree(vm.tables, sp) && root == sp[[]] && |bytes| == PGSIZE
        && perm < 1024 && v * PGSIZE < U64 - PGSIZE
    modifies vm
    ensures vm.Valid() && vm.Frames() == old(vm.Frames()) && [] in sp
    ensures vm.panicked ==> v >= NPAGES || vm.free == [] || At(old(vm.tables), sp, v) != None
    ensures !vm.panicked ==>
              && v < NPAGES && At(old(vm.tables), sp, v) == None
              && Kept(old(vm.tables), sp, old(vm.free), vm.tables, sp', vm.free)
              && Tree(vm.tables, sp') && [] in sp' && sp'[[]] == root
              && PageMapped(old(vm.tables), sp, vm.tables, sp', v, Pte(f, perm))
              && f !in old(vm.data) && f in old(vm.free) && vm.data == old(vm.data)[f := bytes]
  {
    hide Tree, Kept, PageMapped, RangeMapped, At, Pte;
    TreeRoot(vm.tables, sp);
    sp' := sp;
    f := vm.AllocData(bytes);
    if vm.panicked {
      return;
    }
    ghost var free1 := vm.free;
    OnePage(v, f);
    sp' := vm.MapPages(sp, root, v * PGSIZE, PGSIZE, f * PGSIZE, perm);
    if vm.panicked {
      return;
    }
    OneMapped(old(vm.tables), sp, vm.tables, sp', v, f, perm);
    KeptMoreFree(old(vm.tables), sp, free1, vm.tables, sp', vm.free, old(vm.free));
  }

  lemma OnePage(v: nat, f: nat)
    requires v * PGSIZE < U64 - PGSIZE
    ensures v * PGSIZE / PGSIZE == v && LastPage(v * PGSIZE, PGSIZE) == v && f * PGSIZE / PGSIZE == f
  {
    var x := v * PGSIZE + (PGSIZE - 1);
    assert v * PGSIZE + PGSIZE + U64 - 1 == x + U64;
    assert (x + U64) % U64 == x;
    assert x / PGSIZE == v;
  }

  lemma OneMapped(t: Tables, sp: Space, t': Tables, sp': Space, v: nat, f: nat, perm: nat)
    requires [] in sp && [] in sp' && perm < 1024
    requires RangeMapped(t, sp, t', sp', v, 1, f, perm)
    requires RangeFree(t, sp, v, 1)
    ensures PageMapped(t, sp, t', sp', v, Pte(f, perm)) && At(t, sp, v) == None
  {
    hide At, Pte;
  }

  lemma KeptMoreFree(t: Tables, sp: Space, free: seq<nat>, t': Tables, sp': Space, free': seq<nat>, more: seq<nat>)
    requires [] in sp && Kept(t, sp, free, t', sp', free') && Subset(free, more)
    ensures Kept(t, sp, more, t', sp', free')
  {
    hide Tree;
  }

  /**
   uvmalloc: every page between the sizes gets a zeroed frame of its own with all
   permissions, and nothing else changes. It panics only when the new size is beyond the
   address space, a page between the sizes is taken, or no frame is left.
   */
  method UvmAlloc(vm: Vm, ghost sp: Space, root: nat, oldsz: nat, newsz: nat)
      returns (sz: nat, ghost sp': Space, ghost want: Wanted)
    requires vm.Valid() && !vm.panicked && Tree(vm.tables, sp) && root == sp[[]]
    requires oldsz < U64 - PGSIZE && newsz < U64 - PGSIZE
    requires Owns(vm.tables, sp, Pages(oldsz), vm.data.Keys) && Pages(oldsz) <= NPAGES
    modifies vm
    ensures vm.Valid() && vm.Frames() == old(vm.Frames()) && [] in sp
    ensures sz == if newsz < oldsz then oldsz else newsz
    ensures vm.panicked ==>
              || Pages(newsz) > NPAGES || vm.free == []
              || exists u: nat :: Pages(oldsz) <= u < Pages(newsz) && At(old(vm.tables), sp, u) != None
    ensures !vm.panicked ==>
              && Kept(old(vm.tables), sp, old(vm.free), vm.tables, sp', vm.free) && Tree(vm.tables, sp') && [] in sp'
              && Pages(oldsz) + |want| == Pages(sz) <= NPAGES
              && (forall i :: 0 <= i < |want| ==> want[i] == (PTE_V + PTE_RWXU, ZeroPage()))
              && Populated(old(vm.tables), sp, old(vm.data), vm.tables, sp', vm.data, Pages(oldsz), want)
              && Owns(vm.tables, sp', Pages(sz), vm.data.Keys)
  {
    hide Tree, Kept, PageMapped, Populated, Owns, At, Pte, FlagsOf;
    TreeRoot(vm.tables, sp);
    sp', want := sp, [];
    LinkedRefl(vm.tables, sp, vm.free);
    LinkedKept(vm.tables, sp, vm.free, vm.tables, sp, vm.free);
    PopulateNone(vm.tables, sp, vm.data, Pages(oldsz));
    if newsz < oldsz {
      sz := oldsz;
      return;
    }
    sz := newsz;
    var m := Pages(oldsz);
    var v := m;
    while v * PGSIZE < newsz
      invariant vm.Valid() && !vm.panicked && vm.Frames() == old(vm.Frames())
      invariant Tree(vm.tables, sp') && [] in sp' && sp'[[]] == root
      invariant Kept(old(vm.tables), sp, old(vm.free), vm.tables, sp', vm.free)
      invariant v == m + |want| && m <= v <= NPAGES && (v - 1) * PGSIZE < newsz
      invariant forall i :: 0 <= i < |want| ==> want[i] == (PTE_V + PTE_RWXU, ZeroPage())
      invariant Populated(old(vm.tables), sp, old(vm.data), vm.tables, sp', vm.data, m, want)
      decreases NPAGES - v
    {
      ghost var t1, sp1, d1, free1 := vm.tables, sp', vm.data, vm.free;
      PagesBound(v, newsz);
      NextTarget(old(vm.tables), sp, old(vm.data), t1, sp1, d1, m, want);
      var f;
      f, sp' := AddPage(vm, sp', root, v, ZeroPage(), PTE_RWXU);
      if vm.panicked {
        return;
      }
      KeptTrans(old(vm.tables), sp, old(vm.free), t1, sp1, free1, vm.tables, sp', vm.free);
      PopulateOne(old(vm.tables), sp, old(vm.data), t1, sp1, d1, m, want, vm.tables, sp', f, PTE_RWXU, ZeroPage());
      PteRoundTrip(f, PTE_RWXU);
      want := want + [(FlagsOf(Pte(f, PTE_RWXU)), ZeroPage())];
      v := v + 1;
    }
    PopulatedOwns(old(vm.tables), sp, old(vm.data), vm.tables, sp', vm.data, m, want);
  }

  /**
   uvmdealloc: the pages above the new size are unmapped and their frames given back,
   the pages below it keep theirs. It panics exactly when one of the pages above is not
   mapped, so oldsz may not exceed the process size.
   */
  method UvmDealloc(vm: Vm, ghost sp: Space, root: nat, oldsz: nat, newsz: nat) returns (sz: nat)
    requires vm.Valid() && !vm.panicked && Tree(vm.tables, sp) && root == sp[[]] && oldsz < U64 - PGSIZE && newsz < U64
    requires RangeOwned(vm.tables, sp, 0, Pages(oldsz), vm.data.Keys)
    modifies vm
    ensures vm.Valid() && vm.Frames() == old(vm.Frames()) && [] in sp
    ensures sz == (if newsz < oldsz then newsz else oldsz)
    ensures var first, n := Pages(sz), Pages(oldsz) - Pages(sz);
            && (vm.panicked <==> n > 0 && (Pages(oldsz) > NPAGES || !RangeUsed(old(vm.tables), sp, first, n)))
            && (!vm.panicked ==>
                  && Tree(vm.tables, sp) && Others(old(vm.tables), vm.tables, sp)
                      && vm.tables.Keys == old(vm.tables).Keys
                  && RangeCleared(old(vm.tables), vm.tables, sp, first, n)
                  && vm.data == old(vm.data) - RangeFrames(old(vm.tables), sp, first, n))
    ensures !vm.panicked && Owns(old(vm.tables), sp, Pages(oldsz), old(vm.data).Keys) && Pages(oldsz) <= NPAGES ==>
              Owns(vm.tables, sp, Pages(sz), vm.data.Keys)
  {
    hide Tree, Owns, RangeCleared, RangeFrames, RangeUsed, RangeOwned, At, LastPage;
    TreeRoot(vm.tables, sp);
    if newsz >= oldsz {
      sz := oldsz;
      ClearNone(vm.tables, sp, Pages(sz));
      return;
    }
    sz := newsz;
    var newup := Pages(newsz) * PGSIZE;
    if newup < Pages(oldsz) * PGSIZE {
      LastOfSize(newup, oldsz);
      OwnedPart(vm.tables, sp, Pages(newsz), Pages(oldsz), vm.data.Keys);
      vm.UvmUnmap(sp, root, newup, oldsz - newup, true);
    } else {
      ClearNone(vm.tables, sp, Pages(sz));
    }
    if !vm.panicked && Owns(old(vm.tables), sp, Pages(oldsz), old(vm.data).Keys) && Pages(oldsz) <= NPAGES {
      OwnsRest(old(vm.tables), vm.tables, sp, Pages(newsz), Pages(oldsz), old(vm.data), vm.data);
    }
  }

  lemma LastOfSize(newup: nat, oldsz: nat)
    requires newup < Pages(oldsz) * PGSIZE && newup % PGSIZE == 0 && oldsz < U64 - PGSIZE
    ensures newup < oldsz && LastPage(newup, oldsz - newup) == Pages(oldsz) - 1
    ensures oldsz <= MAXVA ==> Pages(oldsz) <= NPAGES
  {
    var k := newup / PGSIZE;
    assert newup == k * PGSIZE && k < Pages(oldsz);
    assert (Pages(oldsz) - 1) * PGSIZE < oldsz <= Pages(oldsz) * PGSIZE;
    assert newup + (oldsz - newup) + U64 - 1 == (oldsz - 1) + U64;
    assert (oldsz - 1 + U64) % U64 == oldsz - 1;
  }

  lemma OwnedPart(t: Tables, sp: Space, first: nat, n: nat, data: set<nat>)
    requires [] in sp && RangeOwned(t, sp, 0, n, data) && first <= n
    ensures RangeOwned(t, sp, first, n - first, data)
  {
    hide At, FlagsOf, FrameOf;
  }

  lemma OwnsRest(t: Tables, t': Tables, sp: Space, m: nat, n: nat, d: map<nat, seq<Byte>>, d': map<nat, seq<Byte>>)
    requires [] in sp && m <= n <= NPAGES && Owns(t, sp, n, d.Keys)
    requires RangeCleared(t, t', sp, m, n - m) && d' == d - RangeFrames(t, sp, m, n - m)
    ensures Owns(t', sp, m, d'.Keys)
  {
    hide At, FlagsOf, FrameOf;
    forall u: nat | u < m
      ensures At(t', sp, u) == At(t, sp, u) && At(t, sp, u).Some? && FrameOf(At(t, sp, u).value) in d'
    {
      assert FrameOf(At(t, sp, u).value) in d;
      assert FrameOf(At(t, sp, u).value) !in RangeFrames(t, sp, m, n - m);
    }
  }

  /** Every mapped page can be read, written or executed. */
  predicate Proper(t: Tables, sp: Space)
    requires [] in sp
  {
    forall u: nat {:trigger At(t, sp, u)} :: u < NPAGES && At(t, sp, u).Some? ==> IsLeaf(At(t, sp, u).value)
  }

  /** The page whose word is word i of a lowest table. */
  function PageOf(p: seq<nat>, i: nat): nat
    requires |p| == 2
  {
    p[0] * 0x4_0000 + p[1] * 512 + i
  }

  lemma PageOfIx(p: seq<nat>, i: nat)
    requires |p| == 2 && p[0] < 256 && p[1] < 512 && i < 512
    ensures PageOf(p, i) < NPAGES && Ix(PageOf(p, i)) == p + [i] && Dir(PageOf(p, i)) == p
  {
    var v := PageOf(p, i);
    assert v % 512 == i && v / 512 == p[0] * 512 + p[1];
    assert v / 0x4_0000 == p[0];
  }

  /** The words of the lowest tables are the mapped pages. */
  lemma LeavesArePages(t: Tables, sp: Space)
    requires Tree(t, sp) && Proper(t, sp)
    ensures SpaceOk(sp) && SubTree(t, sp, []) && ProperLeaves(t, sp, [])
    ensures NoLeaves(t, sp, []) <==> RangeFree(t, sp, 0, NPAGES)
  {
    hide Lookup, IsValid, IsLeaf, Pte, Ix, At;
    forall p, i: nat | p in sp && |p| == 2 && i < 512
      ensures PageOf(p, i) < NPAGES && sp[p] in t && |t[sp[p]]| == 512
      ensures At(t, sp, PageOf(p, i)) == if IsValid(t[sp[p]][i]) then Some(t[sp[p]][i]) else None
    {
      TablePage(t, sp, p, i);
    }
    assert ProperLeaves(t, sp, []) by {
      forall p | p in sp && |p| == 2 ensures ProperWords(t[sp[p]]) {
      }
    }
    if NoLeaves(t, sp, []) {
      forall u: nat | u < NPAGES ensures At(t, sp, u) == None {
        EmptyPage(t, sp, u);
      }
    }
    if RangeFree(t, sp, 0, NPAGES) {
      forall p | p in sp && |p| == 2 ensures AllInvalid(t[sp[p]]) {
      }
    }
  }

  lemma TablePage(t: Tables, sp: Space, p: seq<nat>, i: nat)
    requires Tree(t, sp) && p in sp && |p| == 2 && i < 512
    ensures PageOf(p, i) < NPAGES && IsTable(t, sp[p])
    ensures At(t, sp, PageOf(p, i)) == if IsValid(t[sp[p]][i]) then Some(t[sp[p]][i]) else None
  {
    hide Lookup, Ix, PageOf;
    assert PathOk(sp, p);
    assert PathOk(sp, p[..1]);
    PageOfIx(p, i);
    SlotAt(t, sp, PageOf(p, i));
  }

  lemma EmptyPage(t: Tables, sp: Space, u: nat)
    requires Tree(t, sp) && NoLeaves(t, sp, []) && u < NPAGES
    ensures At(t, sp, u) == None
  {
    hide Lookup, Ix;
    LookupFlat(t, sp, Ix(u));
    if Dir(u) in sp {
      assert AllInvalid(t[sp[Dir(u)]]);
    }
  }

  /**
   uvmfree: gives back every frame of an address space, data and tables, each once. It
   panics exactly when the size is 0 or another page is still mapped.
   */
  method UvmFree(vm: Vm, ghost sp: Space, root: nat, sz: nat)
    requires vm.Valid() && !vm.panicked && Tree(vm.tables, sp) && root == sp[[]] && sz <= MAXVA
    requires Owns(vm.tables, sp, Pages(sz), vm.data.Keys) && Proper(vm.tables, sp)
    requires sz == 0 ==> RangeOwned(vm.tables, sp, 0, PageCount(0, 0), vm.data.Keys)
    modifies vm
    ensures vm.Valid() && vm.Frames() == old(vm.Frames()) && [] in sp
    ensures vm.panicked <==> sz == 0 || !RangeFree(old(vm.tables), sp, Pages(sz), NPAGES - Pages(sz))
    ensures !vm.panicked ==>
              && vm.tables == old(vm.tables) - Below(sp, [])
              && vm.data == old(vm.data) - RangeFrames(old(vm.tables), sp, 0, Pages(sz))
  {
    hide Tree, RangeCleared, RangeFrames, RangeUsed, RangeOwned, Proper, At, LastPage, PageCount;
    TreeRoot(vm.tables, sp);
    if sz == 0 {
      LastOfNone();
    } else {
      LastOfSize(0, sz);
      CountOfSize(sz);
    }
    vm.UvmUnmap(sp, root, 0, sz, true);
    if vm.panicked {
      return;
    }
    StillProper(old(vm.tables), vm.tables, sp, Pages(sz));
    LeavesArePages(vm.tables, sp);
    ghost var t1 := vm.tables;
    vm.Freewalk(sp, root, []);
    if !vm.panicked {
      OnlyBelow(old(vm.tables), t1, sp);
    }
  }

  lemma LastOfNone()
    ensures LastPage(0, 0) >= NPAGES
  {
  }

  lemma CountOfSize(sz: nat)
    requires LastPage(0, sz) == Pages(sz) - 1
    ensures PageCount(0, sz) == Pages(sz)
  {
  }

  lemma StillProper(t: Tables, t': Tables, sp: Space, n: nat)
    requires [] in sp && Proper(t, sp) && RangeCleared(t, t', sp, 0, n) && n <= NPAGES
    ensures Proper(t', sp)
    ensures RangeFree(t', sp, 0, NPAGES) <==> RangeFree(t, sp, n, NPAGES - n)
  {
    hide At, IsLeaf;
    if RangeFree(t', sp, 0, NPAGES) {
      forall u: nat | n <= u < NPAGES ensures At(t, sp, u) == None {
        assert At(t', sp, u) == None;
      }
    }
  }

  /** Unmapping changed only tables that are given back. */
  lemma OnlyBelow(t: Tables, t1: Tables, sp: Space)
    requires Others(t, t1, sp) && t1.Keys == t.Keys
    ensures t1 - Below(sp, []) == t - Below(sp, [])
  {
    forall f | f in sp.Values ensures f in Below(sp, []) {
      var p :| p in sp && sp[p] == f;
      assert [] <= p;
    }
  }

  // ---------------------------------------------------------------- copying an address space

  predicate Disjoint(sp1: Space, sp2: Space) { forall p, q :: p in sp1 && q in sp2 ==> sp1[p] != sp2[q] }

  /** A space whose tables are as they were still maps the same pages to the same words. */
  lemma SameTables(t: Tables, t': Tables, sp: Space)
    requires Tree(t, sp) && forall p :: p in sp ==> sp[p] in t' && t'[sp[p]] == t[sp[p]]
    ensures [] in sp && Tree(t', sp) && SameMap(t, sp, t', sp)
  {
    hide Lookup, Ix, IsValid, Pte;
    forall p | p in sp && |p| < 2 ensures LinksOk(t', sp, p) {
      assert LinksOk(t, sp, p);
    }
    forall u: nat | u < NPAGES ensures At(t', sp, u) == At(t, sp, u) {
      LookupFlat(t, sp, Ix(u));
      LookupFlat(t', sp, Ix(u));
    }
  }

  /** Changes to one space leave a disjoint one alone. */
  lemma OtherSpace(t: Tables, t': Tables, sp1: Space, sp2: Space, free: seq<nat>, sp2': Space, free': seq<nat>)
    requires Tree(t, sp1) && [] in sp2 && Disjoint(sp1, sp2) && Kept(t, sp2, free, t', sp2', free')
    requires forall f :: f in t ==> f !in free
    ensures [] in sp1 && Tree(t', sp1) && SameMap(t, sp1, t', sp1) && Disjoint(sp1, sp2')
  {
    hide SameMap, LinksOk, PathOk;
    forall p | p in sp1 ensures sp1[p] in t' && t'[sp1[p]] == t[sp1[p]] {
      assert sp1[p] !in sp2.Values;
    }
    SameTables(t, t', sp1);
  }

  /** What copying a space's first pages should give. */
  predicate Copies(t: Tables, sp: Space, d: map<nat, seq<Byte>>, want: Wanted)
    requires [] in sp
  {
    forall u: nat {:trigger want[u]} :: u < |want| ==>
      && At(t, sp, u).Some? && FrameOf(At(t, sp, u).value) in d
      && want[u] == (FlagsOf(At(t, sp, u).value), d[FrameOf(At(t, sp, u).value)])
  }

  /**
   uvmcopy: the child's pages get frames of their own with the parent's bytes and
   flags; the parent and everything else stay as they were. It panics only when a page
   of the parent is missing, a page of the child is taken, or no frame is left.
   */
  method UvmCopy(vm: Vm, ghost sp1: Space, root1: nat, ghost sp2: Space, root2: nat,
      sz: nat) returns (ghost sp2': Space, ghost want: Wanted)
    requires vm.Valid() && !vm.panicked && Tree(vm.tables, sp1) && Tree(vm.tables, sp2) && Disjoint(sp1, sp2)
    requires root1 == sp1[[]] && root2 == sp2[[]] && sz < U64 - PGSIZE
    requires RangeOwned(vm.tables, sp1, 0, Pages(sz), vm.data.Keys)
    modifies vm
    ensures vm.Valid() && vm.Frames() == old(vm.Frames()) && [] in sp1 && [] in sp2
    ensures vm.panicked ==>
              || Pages(sz) > NPAGES || vm.free == []
              || exists u: nat :: u < Pages(sz)
                  && (At(old(vm.tables), sp1, u) == None || At(old(vm.tables), sp2, u) != None)
    ensures !vm.panicked ==>
              && Tree(vm.tables, sp1) && SameMap(old(vm.tables), sp1, vm.tables, sp1)
              && Kept(old(vm.tables), sp2, old(vm.free), vm.tables, sp2', vm.free) && [] in sp2' && Disjoint(sp1, sp2')
              && |want| == Pages(sz) && Copies(old(vm.tables), sp1, old(vm.data), want)
              && Populated(old(vm.tables), sp2, old(vm.data), vm.tables, sp2', vm.data, 0, want)
  {
    hide Tree, Kept, PageMapped, Populated, SameMap, At, Pte, FlagsOf, FrameOf, Ix, RangeOwned, Disjoint, Copies,
        IsValid;
    ghost var t0, d0, free0 := vm.tables, vm.data, vm.free;
    TreeRoot(t0, sp1);
    TreeRoot(t0, sp2);
    sp2', want := sp2, [];
    LinkedRefl(t0, sp2, free0);
    LinkedKept(t0, sp2, free0, t0, sp2, free0);
    LinkedRefl(t0, sp1, free0);
    LinkedKept(t0, sp1, free0, t0, sp1, free0);
    PopulateNone(t0, sp2, d0, 0);
    CopiesNone(t0, sp1, d0);
    var v := 0;
    while v * PGSIZE < sz
      invariant vm.Valid() && !vm.panicked && vm.Frames() == old(vm.Frames())
      invariant Tree(vm.tables, sp1) && SameMap(t0, sp1, vm.tables, sp1) && Disjoint(sp1, sp2')
      invariant Tree(vm.tables, sp2') && [] in sp2' && sp2'[[]] == root2
      invariant Kept(t0, sp2, free0, vm.tables, sp2', vm.free)
      invariant v == |want| && v <= NPAGES && (v > 0 ==> (v - 1) * PGSIZE < sz)
      invariant Copies(t0, sp1, d0, want)
      invariant Populated(t0, sp2, d0, vm.tables, sp2', vm.data, 0, want)
      decreases NPAGES - v
    {
      ghost var t1, sp21, d1, free1 := vm.tables, sp2', vm.data, vm.free;
      PagesBound(v, sz);
      var w := Present(vm, sp1, root1, v);
      SourcePage(t0, t1, sp1, v, Pages(sz), d0);
      if vm.panicked {
        return;
      }
      BytesKept(t0, sp2, d0, t1, sp21, d1, want);
      NextTarget(t0, sp2, d0, t1, sp21, d1, 0, want);
      var bytes := vm.data[FrameOf(w)];
      FlagsBound(w);
      var f;
      f, sp2' := AddPage(vm, sp2', root2, v, bytes, FlagsOf(w));
      if vm.panicked {
        return;
      }
      OtherSpace(t1, vm.tables, sp1, sp21, free1, sp2', vm.free);
      SameTrans(t0, t1, vm.tables, sp1);
      KeptTrans(t0, sp2, free0, t1, sp21, free1, vm.tables, sp2', vm.free);
      CopiedPage(t0, sp1, sp2, d0, t1, sp21, d1, want, vm.tables, sp2', f, w);
      want := want + [(FlagsOf(w), bytes)];
      v := v + 1;
    }
  }

  lemma CopiedPage(t0: Tables, sp1: Space, sp2: Space, d0: map<nat, seq<Byte>>, t1: Tables, sp21: Space,
      d1: map<nat, seq<Byte>>, want: Wanted, t2: Tables, sp22: Space, f: nat, w: nat)
    requires [] in sp1 && [] in sp2 && [] in sp21 && [] in sp22 && |want| < NPAGES && f !in d1 && IsValid(w)
    requires Copies(t0, sp1, d0, want) && At(t0, sp1, |want|) == Some(w) && FrameOf(w) in d0
    requires Populated(t0, sp2, d0, t1, sp21, d1, 0, want) && PageMapped(t1, sp21, t2, sp22, |want|, Pte(f, FlagsOf(w)))
    ensures var want' := want + [(FlagsOf(w), d0[FrameOf(w)])];
            Copies(t0, sp1, d0, want') && Populated(t0, sp2, d0, t2, sp22, d1[f := d0[FrameOf(w)]], 0, want')
  {
    hide At, Pte, FlagsOf, FrameOf, Populated, PageMapped, Copies;
    FlagsBound(w);
    PopulateOne(t0, sp2, d0, t1, sp21, d1, 0, want, t2, sp22, f, FlagsOf(w), d0[FrameOf(w)]);
    FlagsKept(f, w);
    CopiesMore(t0, sp1, d0, want, w);
  }

  lemma CopiesNone(t: Tables, sp: Space, d: map<nat, seq<Byte>>)
    requires [] in sp
    ensures Copies(t, sp, d, [])
  {
  }

  lemma CopiesMore(t: Tables, sp: Space, d: map<nat, seq<Byte>>, want: Wanted, w: nat)
    requires [] in sp && Copies(t, sp, d, want) && At(t, sp, |want|) == Some(w) && FrameOf(w) in d
    ensures Copies(t, sp, d, want + [(FlagsOf(w), d[FrameOf(w)])])
  {
    hide At, FlagsOf, FrameOf;
    var want' := want + [(FlagsOf(w), d[FrameOf(w)])];
    forall u: nat | u < |want'|
      ensures At(t, sp, u).Some? && FrameOf(At(t, sp, u).value) in d
          && want'[u] == (FlagsOf(At(t, sp, u).value), d[FrameOf(At(t, sp, u).value)])
    {
      if u < |want| {
        assert want'[u] == want[u];
      }
    }
  }

  /** The parent's word for a page, or a panic. */
  method Present(vm: Vm, ghost sp: Space, root: nat, v: nat) returns (w: nat)
    requires vm.Valid() && !vm.panicked && Tree(vm.tables, sp) && root == sp[[]]
    modifies vm`panicked, vm`tables, vm`free
    ensures [] in sp && vm.tables == old(vm.tables) && vm.free == old(vm.free)
    ensures vm.panicked <==> v >= NPAGES || At(vm.tables, sp, v) == None
    ensures !vm.panicked ==> At(vm.tables, sp, v) == Some(w) && IsValid(w)
  {
    hide Tree, Ix, Lookup;
    TreeRoot(vm.tables, sp);
    w := 0;
    assert v * PGSIZE / PGSIZE == v;
    var slot, _ := vm.Walk(sp, root, v * PGSIZE, false);
    if vm.panicked {
      return;
    }
    if slot.None? {
      vm.panicked := true;
      return;
    }
    SlotAt(vm.tables, sp, v);
    var (f, i) := slot.value;
    w := vm.tables[f][i];
    if !IsValid(w) {
      vm.panicked := true;
    }
  }

  lemma PagesBound(v: nat, sz: nat)
    requires v * PGSIZE < sz
    ensures v < Pages(sz)
  {
  }

  lemma SourcePage(t0: Tables, t1: Tables, sp: Space, v: nat, n: nat, d: map<nat, seq<Byte>>)
    requires [] in sp && SameMap(t0, sp, t1, sp) && RangeOwned(t0, sp, 0, n, d.Keys) && v < n
    ensures v < NPAGES ==> At(t1, sp, v) == At(t0, sp, v)
    ensures v < NPAGES && At(t0, sp, v).Some? ==> FrameOf(At(t0, sp, v).value) in d
  {
    hide At, FrameOf;
  }

  lemma BytesKept(t: Tables, sp: Space, d: map<nat, seq<Byte>>, t': Tables, sp': Space, d': map<nat, seq<Byte>>,
      want: Wanted)
    requires [] in sp && [] in sp' && Populated(t, sp, d, t', sp', d', 0, want)
    ensures forall f :: f in d ==> f in d' && d'[f] == d[f]
  {
    hide At, NewPage, Apart;
  }

  lemma NextTarget(t: Tables, sp: Space, d: map<nat, seq<Byte>>, t': Tables, sp': Space, d': map<nat, seq<Byte>>,
      m: nat, want: Wanted)
    requires [] in sp && [] in sp' && Populated(t, sp, d, t', sp', d', m, want)
    ensures m + |want| < NPAGES ==> At(t', sp', m + |want|) == At(t, sp, m + |want|)
  {
    hide At, NewPage, Apart;
  }

  lemma SameTrans(t0: Tables, t1: Tables, t2: Tables, sp: Space)
    requires [] in sp && SameMap(t0, sp, t1, sp) && SameMap(t1, sp, t2, sp)
    ensures SameMap(t0, sp, t2, sp)
  {
    hide At;
    forall u: nat | u < NPAGES ensures At(t2, sp, u) == At(t0, sp, u) {
      assert At(t1, sp, u) == At(t0, sp, u);
    }
  }

  lemma FlagsBound(w: nat)
    ensures FlagsOf(w) < 1024
  {
  }

  lemma FlagsKept(f: nat, w: nat)
    requires IsValid(w)
    ensures FlagsOf(w) < 1024 && FlagsOf(Pte(f, FlagsOf(w))) == FlagsOf(w)
  {
    assert FlagsOf(w) % 2 == 1;
    PteRoundTrip(f, FlagsOf(w));
  }

  // ---------------------------------------------------------------- bytes across the user boundary

  /** The frame behind a page the user may access. */
  function UserFrame(t: Tables, sp: Space, u: nat): Option<nat>
    requires [] in sp
  {
    if u < NPAGES && At(t, sp, u).Some? && IsUser(At(t, sp, u).value) then Some(FrameOf(At(t, sp, u).value)) else None
  }

  /** User pages have data frames of their own, none of them frame 0. */
  ghost predicate UserOwned(t: Tables, sp: Space, d: map<nat, seq<Byte>>)
    requires [] in sp
  {
    && (forall u: nat {:trigger UserFrame(t, sp, u)} :: UserFrame(t, sp, u).Some? ==>
          UserFrame(t, sp, u).value in d && UserFrame(t, sp, u).value != 0)
    && (forall u: nat, v: nat {:trigger UserFrame(t, sp, u), UserFrame(t, sp, v)} ::
          UserFrame(t, sp, u).Some? && UserFrame(t, sp, u) == UserFrame(t, sp, v) ==> u == v)
  }

  /** The byte the user sees at an address. */
  function ByteAt(t: Tables, sp: Space, d: map<nat, seq<Byte>>, va: nat): Option<Byte>
    requires [] in sp
  {
    var f := UserFrame(t, sp, va / PGSIZE);
    if f.Some? && f.value in d && |d[f.value]| == PGSIZE then Some(d[f.value][va % PGSIZE]) else None
  }

  /** The user may access a range of addresses. */
  predicate Accessible(t: Tables, sp: Space, d: map<nat, seq<Byte>>, va: nat, n: nat)
    requires [] in sp
  {
    forall a: nat {:trigger ByteAt(t, sp, d, a)} :: va <= a < va + n ==> ByteAt(t, sp, d, a).Some?
  }

  lemma AccessMore(t: Tables, sp: Space, d: map<nat, seq<Byte>>, dst: nat, k: nat, n: nat, f: nat)
    requires [] in sp && Accessible(t, sp, d, dst, k) && UserFrame(t, sp, (dst + k) / PGSIZE) == Some(f)
    requires f in d && |d[f]| == PGSIZE && (dst + k) % PGSIZE + n <= PGSIZE
    ensures Accessible(t, sp, d, dst, k + n)
  {
    hide UserFrame;
    forall a: nat | dst <= a < dst + (k + n) ensures ByteAt(t, sp, d, a).Some? {
      if a >= dst + k {
        SamePage(a, dst + k, n);
      }
    }
  }

  /** Bytes replaced in a page. */
  function Splice(page: seq<Byte>, off: nat, bytes: seq<Byte>): (r: seq<Byte>)
    requires off + |bytes| <= |page|
    ensures |r| == |page|
    ensures forall i :: 0 <= i < |page| ==> r[i] == if off <= i < off + |bytes| then bytes[i - off] else page[i]
  {
    page[..off] + bytes + page[off + |bytes|..]
  }

  /** User memory was overwritten from an address on, and nowhere else. */
  ghost predicate Written(t: Tables, sp: Space, d: map<nat, seq<Byte>>, d': map<nat, seq<Byte>>, dst: nat,
      bytes: seq<Byte>)
    requires [] in sp
  {
    forall va: nat {:trigger ByteAt(t, sp, d', va)} ::
      ByteAt(t, sp, d', va) == if dst <= va < dst + |bytes| then Some(bytes[va - dst]) else ByteAt(t, sp, d, va)
  }

  /** Writing into one page's frame writes those user bytes. */
  lemma WriteFrame(t: Tables, sp: Space, d: map<nat, seq<Byte>>, dst: nat, bytes: seq<Byte>, f: nat)
    requires [] in sp && UserOwned(t, sp, d) && UserFrame(t, sp, dst / PGSIZE) == Some(f)
    requires f in d && |d[f]| == PGSIZE && dst % PGSIZE + |bytes| <= PGSIZE
    ensures Written(t, sp, d, d[f := Splice(d[f], dst % PGSIZE, bytes)], dst, bytes)
  {
    hide At, Splice, UserFrame;
    var d' := d[f := Splice(d[f], dst % PGSIZE, bytes)];
    forall va: nat
      ensures ByteAt(t, sp, d', va) == if dst <= va < dst + |bytes| then Some(bytes[va - dst]) else ByteAt(t, sp, d, va)
    {
      SamePage(va, dst, |bytes|);
    }
  }

  lemma SamePage(va: nat, dst: nat, n: nat)
    requires dst % PGSIZE + n <= PGSIZE
    ensures dst <= va < dst + n <==> va / PGSIZE == dst / PGSIZE && dst % PGSIZE <= va % PGSIZE < dst % PGSIZE + n
    ensures dst <= va < dst + n ==> va - dst == va % PGSIZE - dst % PGSIZE
  {
    assert va == va / PGSIZE * PGSIZE + va % PGSIZE && dst == dst / PGSIZE * PGSIZE + dst % PGSIZE;
  }

  lemma WrittenMore(t: Tables, sp: Space, d0: map<nat, seq<Byte>>, d1: map<nat, seq<Byte>>, d2: map<nat,
      seq<Byte>>, dst: nat, a: seq<Byte>, b: seq<Byte>)
    requires [] in sp && Written(t, sp, d0, d1, dst, a) && Written(t, sp, d1, d2, dst + |a|, b)
    ensures Written(t, sp, d0, d2, dst, a + b)
  {
    hide ByteAt;
    forall va: nat
      ensures ByteAt(t, sp, d2, va) == if dst <= va < dst + |a + b| then Some((a + b)[va - dst])
          else ByteAt(t, sp, d0, va)
    {
      assert ByteAt(t, sp, d1, va) == if dst <= va < dst + |a| then Some(a[va - dst]) else ByteAt(t, sp, d0, va);
    }
  }

  /** walkaddr, giving the frame: none when the page is not the user's. */
  method WalkAddr(vm: Vm, ghost sp: Space, root: nat, va: nat) returns (f: nat)
    requires vm.Valid() && !vm.panicked && Tree(vm.tables, sp) && root == sp[[]]
    modifies vm`panicked, vm`tables, vm`free
    ensures [] in sp && !vm.panicked && vm.tables == old(vm.tables) && vm.free == old(vm.free)
    ensures f == if UserFrame(vm.tables, sp, va / PGSIZE).Some? then UserFrame(vm.tables, sp, va / PGSIZE).value else 0
  {
    hide Tree, Ix, Lookup, Flat;
    TreeRoot(vm.tables, sp);
    f := 0;
    if va >= MAXVA {
      return;
    }
    var slot, _ := vm.Walk(sp, root, va, false);
    if slot.None? {
      return;
    }
    SlotAt(vm.tables, sp, va / PGSIZE);
    var (g, i) := slot.value;
    var w := vm.tables[g][i];
    if !IsValid(w) || !IsUser(w) {
      return;
    }
    f := FrameOf(w);
  }

  /**
   copyout: user memory from dst on is overwritten with the bytes, up to the first
   address the user may not access, and nothing else changes.
   */
  method Copyout(vm: Vm, ghost sp: Space, root: nat, dst: nat, src: seq<Byte>) returns (ok: bool, ghost k: nat)
    requires vm.Valid() && !vm.panicked && Tree(vm.tables, sp) && root == sp[[]] && UserOwned(vm.tables, sp, vm.data)
    modifies vm
    ensures vm.Valid() && !vm.panicked && [] in sp && vm.tables == old(vm.tables) && vm.free == old(vm.free)
    ensures vm.data.Keys == old(vm.data).Keys && UserOwned(vm.tables, sp, vm.data)
    ensures Accessible(vm.tables, sp, old(vm.data), dst, k)
    ensures k <= |src| && (ok <==> k == |src|) && (!ok ==> ByteAt(vm.tables, sp, old(vm.data), dst + k) == None)
    ensures Written(vm.tables, sp, old(vm.data), vm.data, dst, src[..k])
  {
    hide Tree, Written, UserOwned, Splice, UserFrame, ByteAt, Accessible;
    TreeRoot(vm.tables, sp);
    k, ok := 0, true;
    var left: nat, va: nat := |src|, dst;
    WrittenNone(vm.tables, sp, vm.data, dst);
    AccessNone(vm.tables, sp, vm.data, dst);
    while left > 0
      invariant vm.Valid() && !vm.panicked && vm.tables == old(vm.tables) && vm.free == old(vm.free)
      invariant vm.data.Keys == old(vm.data).Keys && UserOwned(vm.tables, sp, vm.data)
      invariant k + left == |src| && va == dst + k && Accessible(vm.tables, sp, old(vm.data), dst, k)
      invariant Written(vm.tables, sp, old(vm.data), vm.data, dst, src[..k])
    {
      var off := va % PGSIZE;
      var f := WalkAddr(vm, sp, root, va - off);
      PageStart(va);
      OwnedFrame(vm.tables, sp, vm.data, va / PGSIZE);
      if f == 0 {
        NoByte(vm.tables, sp, old(vm.data), va);
        return false, k;
      }
      var n: nat := PGSIZE - off;
      if n > left {
        n := left;
      }
      ghost var d1 := vm.data;
      var bytes := src[|src| - left..|src| - left + n];
      WriteFrame(vm.tables, sp, vm.data, va, bytes, f);
      AccessMore(vm.tables, sp, old(vm.data), dst, k, n, f);
      vm.data := vm.data[f := Splice(vm.data[f], off, bytes)];
      OwnedKeys(vm.tables, sp, d1, vm.data);
      WrittenMore(vm.tables, sp, old(vm.data), d1, vm.data, dst, src[..k], bytes);
      assert src[..k + n] == src[..k] + bytes;
      left, va, k := left - n, va + n, k + n;
    }
  }

  lemma AccessNone(t: Tables, sp: Space, d: map<nat, seq<Byte>>, dst: nat)
    requires [] in sp
    ensures Accessible(t, sp, d, dst, 0)
  {
  }

  lemma WrittenNone(t: Tables, sp: Space, d: map<nat, seq<Byte>>, dst: nat)
    requires [] in sp
    ensures Written(t, sp, d, d, dst, [])
  {
    hide ByteAt;
  }

  lemma PageStart(va: nat)
    ensures (va - va % PGSIZE) / PGSIZE == va / PGSIZE
  {
  }

  lemma OwnedFrame(t: Tables, sp: Space, d: map<nat, seq<Byte>>, u: nat)
    requires [] in sp && UserOwned(t, sp, d)
    ensures UserFrame(t, sp, u).Some? ==> UserFrame(t, sp, u).value in d && UserFrame(t, sp, u).value != 0
  {
    hide UserFrame;
  }

  lemma OwnedKeys(t: Tables, sp: Space, d: map<nat, seq<Byte>>, d': map<nat, seq<Byte>>)
    requires [] in sp && UserOwned(t, sp, d) && d'.Keys == d.Keys
    ensures UserOwned(t, sp, d')
  {
    hide UserFrame;
  }

  lemma NoByte(t: Tables, sp: Space, d: map<nat, seq<Byte>>, va: nat)
    requires [] in sp && UserFrame(t, sp, va / PGSIZE) == None
    ensures ByteAt(t, sp, d, va) == None
  {
    hide UserFrame;
  }

  /** The user sees these bytes from an address on. */
  predicate Reads(t: Tables, sp: Space, d: map<nat, seq<Byte>>, va: nat, bytes: seq<Byte>)
    requires [] in sp
  {
    forall a: nat {:trigger ByteAt(t, sp, d, a)} :: va <= a < va + |bytes| ==>
        ByteAt(t, sp, d, a) == Some(bytes[a - va])
  }

  /** copyin: the bytes the user sees from src on, all of them or up to the first address the user may not access. */
  method Copyin(vm: Vm, ghost sp: Space, root: nat, src: nat, len: nat) returns (ok: bool, dst: seq<Byte>)
    requires vm.Valid() && !vm.panicked && Tree(vm.tables, sp) && root == sp[[]] && UserOwned(vm.tables, sp, vm.data)
    modifies vm`panicked, vm`tables, vm`free
    ensures !vm.panicked && [] in sp && vm.tables == old(vm.tables) && vm.free == old(vm.free)
    ensures |dst| <= len && (ok <==> |dst| == len) && (!ok ==> ByteAt(vm.tables, sp, vm.data, src + |dst|) == None)
    ensures Reads(vm.tables, sp, vm.data, src, dst)
  {
    hide Tree, UserOwned, UserFrame, ByteAt, Reads;
    TreeRoot(vm.tables, sp);
    ok, dst := true, [];
    var left: nat, va: nat := len, src;
    ReadNone(vm.tables, sp, vm.data, src);
    while left > 0
      invariant vm.Valid() && !vm.panicked && vm.tables == old(vm.tables) && vm.free == old(vm.free)
      invariant |dst| + left == len && va == src + |dst|
      invariant Reads(vm.tables, sp, vm.data, src, dst)
    {
      var off := va % PGSIZE;
      var f := WalkAddr(vm, sp, root, va - off);
      PageStart(va);
      OwnedFrame(vm.tables, sp, vm.data, va / PGSIZE);
      if f == 0 {
        NoByte(vm.tables, sp, vm.data, va);
        return false, dst;
      }
      var n: nat := PGSIZE - off;
      if n > left {
        n := left;
      }
      ReadFrame(vm.tables, sp, vm.data, va, n, f);
      ReadMore(vm.tables, sp, vm.data, src, dst, vm.data[f][off..off + n]);
      dst := dst + vm.data[f][off..off + n];
      left, va := left - n, va + n;
    }
  }

  lemma ReadNone(t: Tables, sp: Space, d: map<nat, seq<Byte>>, va: nat)
    requires [] in sp
    ensures Reads(t, sp, d, va, [])
  {
  }

  lemma ReadFrame(t: Tables, sp: Space, d: map<nat, seq<Byte>>, va: nat, n: nat, f: nat)
    requires [] in sp && UserFrame(t, sp, va / PGSIZE) == Some(f) && f in d && |d[f]| == PGSIZE
    requires va % PGSIZE + n <= PGSIZE
    ensures Reads(t, sp, d, va, d[f][va % PGSIZE..va % PGSIZE + n])
  {
    hide UserFrame;
    forall a: nat | va <= a < va + n ensures ByteAt(t, sp, d, a) == Some(d[f][va % PGSIZE..va % PGSIZE + n][a - va]) {
      SamePage(a, va, n);
    }
  }

  lemma ReadMore(t: Tables, sp: Space, d: map<nat, seq<Byte>>, va: nat, a: seq<Byte>, b: seq<Byte>)
    requires [] in sp && Reads(t, sp, d, va, a) && Reads(t, sp, d, va + |a|, b)
    ensures Reads(t, sp, d, va, a + b)
  {
    hide ByteAt;
  }

  /** What copyout put in user memory, copyin reads back. */
  method CopyRoundTrip(vm: Vm, ghost sp: Space, root: nat, va: nat, bytes: seq<Byte>)
      returns (ok: bool, back: seq<Byte>)
    requires vm.Valid() && !vm.panicked && Tree(vm.tables, sp) && root == sp[[]] && UserOwned(vm.tables, sp, vm.data)
    modifies vm
    ensures ok ==> back == bytes
    ensures [] in sp && (ok <==> Accessible(old(vm.tables), sp, old(vm.data), va, |bytes|))
  {
    hide Tree, UserOwned, ByteAt, Written;
    TreeRoot(vm.tables, sp);
    ghost var k;
    back := [];
    ok, k := Copyout(vm, sp, root, va, bytes);
    if ok {
      assert bytes[..k] == bytes;
      WrittenReads(vm.tables, sp, old(vm.data), vm.data, va, bytes);
      ok, back := Copyin(vm, sp, root, va, |bytes|);
      ReadsSame(vm.tables, sp, vm.data, va, bytes, back);
    }
  }

  lemma WrittenReads(t: Tables, sp: Space, d: map<nat, seq<Byte>>, d': map<nat, seq<Byte>>, va: nat, bytes: seq<Byte>)
    requires [] in sp && Written(t, sp, d, d', va, bytes)
    ensures Reads(t, sp, d', va, bytes)
  {
    hide ByteAt;
  }

  lemma ReadsSame(t: Tables, sp: Space, d: map<nat, seq<Byte>>, va: nat, a: seq<Byte>, b: seq<Byte>)
    requires [] in sp && Reads(t, sp, d, va, a) && Reads(t, sp, d, va, b) && |b| <= |a|
    ensures b == a[..|b|]
  {
    hide ByteAt;
    forall i | 0 <= i < |b| ensures b[i] == a[i] {
      assert ByteAt(t, sp, d, va + i) == Some(a[i]);
      assert Some(b[(va + i) - va]) == Some(a[(va + i) - va]);
    }
  }

  // ---------------------------------------------------------------- the guard page

  const PTE_U: nat := 16

  /** *pte &= ~PTE_U */
  function Cleared(w: nat): nat { if w / PTE_U % 2 == 1 then w - PTE_U else w }

  /** The user bit alone goes: frame, validity, R, W, X and the higher flags stay. */
  lemma ClearedWord(w: nat)
    ensures !IsUser(Cleared(w))
    ensures FrameOf(Cleared(w)) == FrameOf(w) && IsValid(Cleared(w)) == IsValid(w) && IsLeaf(Cleared(w)) == IsLeaf(w)
    ensures FlagsOf(Cleared(w)) % 16 == FlagsOf(w) % 16 && FlagsOf(Cleared(w)) / 32 == FlagsOf(w) / 32
  {
    var q, c, r := TakeApart(w);
    WordBits(w, q, c, r);
    WordBits(w - 16 * c, q, 0, r);
  }

  /** A word taken apart at the user bit. */
  lemma WordBits(w: nat, q: nat, c: nat, r: nat)
    requires w == 32 * q + 16 * c + r && c < 2 && r < 16
    ensures w % 2 == r % 2 && w / 2 % 8 == r / 2 && w / 16 % 2 == c && w / 1024 == q / 32
    ensures w % 1024 % 16 == r && w % 1024 / 32 == q % 32
  {
    LowBits(w, 2 * q + c, r);
    UserBit(w, q, c, r);
    HighBits(w, q, c, r);
  }

  lemma TakeApart(w: nat) returns (q: nat, c: nat, r: nat)
    ensures w == 32 * q + 16 * c + r && c < 2 && r < 16
  {
    q, c, r := w / 32, w / 16 % 2, w % 16;
  }

  lemma LowBits(w: nat, a: nat, r: nat)
    requires w == 16 * a + r && r < 16
    ensures w % 2 == r % 2 && w / 2 % 8 == r / 2
  {
    assert w / 2 == 8 * a + r / 2;
  }

  lemma UserBit(w: nat, q: nat, c: nat, r: nat)
    requires w == 32 * q + 16 * c + r && c < 2 && r < 16
    ensures w / 16 % 2 == c
  {
    assert w / 16 == 2 * q + c;
  }

  lemma HighBits(w: nat, q: nat, c: nat, r: nat)
    requires w == 32 * q + 16 * c + r && c < 2 && r < 16
    ensures w / 1024 == q / 32 && w % 1024 % 16 == r && w % 1024 / 32 == q % 32
  {
    var a, m, b := q / 32, q % 32, 16 * c + r;
    var low := 32 * m + b;
    assert w == 1024 * a + low && low < 1024;
    assert w / 1024 == a && w % 1024 == low;
    assert low / 32 == m;
    assert low == 16 * (2 * m + c) + r;
  }

  /** What the permission bits of a word mean. */
  lemma PermBits(f: nat, r: nat, w: nat, x: nat, u: nat)
    requires r < 2 && w < 2 && x < 2 && u < 2
    ensures var pte := Pte(f, 2 * r + 4 * w + 8 * x + 16 * u);
            (IsLeaf(pte) <==> r == 1 || w == 1 || x == 1) && (IsUser(pte) <==> u == 1)
  {
    var pte := Pte(f, 2 * r + 4 * w + 8 * x + 16 * u);
    WordBits(pte, 32 * f, u, 1 + 2 * r + 4 * w + 8 * x);
  }

  /** What uvmclear does to the pages' words. */
  predicate UserCleared(t: Tables, t': Tables, sp: Space, v: nat)
    requires [] in sp
  {
    forall u: nat {:trigger At(t', sp, u)} :: u < NPAGES ==>
      At(t', sp, u) == if u == v && At(t, sp, u).Some? then Some(Cleared(At(t, sp, u).value)) else At(t, sp, u)
  }

  lemma SetCleared(t: Tables, t': Tables, sp: Space, v: nat, w: nat)
    requires [] in sp && v < NPAGES && At(t, sp, v) == (if IsValid(w) then Some(w) else None)
    requires PageSet(t, t', sp, v, Cleared(w))
    ensures UserCleared(t, t', sp, v)
  {
    hide At, Cleared;
    ClearedWord(w);
  }

  /** uvmclear: takes user access from one page; a panic exactly when there is no table for it. */
  method UvmClear(vm: Vm, ghost sp: Space, root: nat, va: nat)
    requires vm.Valid() && !vm.panicked && Tree(vm.tables, sp) && root == sp[[]]
    modifies vm`panicked, vm`tables, vm`free
    ensures vm.Valid() && vm.Frames() == old(vm.Frames()) && [] in sp && vm.free == old(vm.free)
    ensures vm.panicked <==> va >= MAXVA || Dir(va / PGSIZE) !in sp
    ensures !vm.panicked ==>
              Tree(vm.tables, sp) && Others(old(vm.tables), vm.tables, sp)
              && UserCleared(old(vm.tables), vm.tables, sp, va / PGSIZE)
  {
    hide Tree, Kept, PageSet, SetWord, Ix, Lookup, Cleared, UserCleared;
    TreeRoot(vm.tables, sp);
    var slot, _ := vm.Walk(sp, root, va, false);
    if vm.panicked {
      return;
    }
    if slot.None? {
      vm.panicked := true;
      return;
    }
    var (f, i) := slot.value;
    SlotAt(vm.tables, sp, va / PGSIZE);
    var w := vm.tables[f][i];
    WriteKept(vm.tables, sp, [], va / PGSIZE, Cleared(w));
    ghost var t := vm.tables;
    vm.tables := SetWord(vm.tables, f, i, Cleared(w));
    KeptOthers(t, sp, [], vm.tables, sp, []);
    SetCleared(t, vm.tables, sp, va / PGSIZE, w);
  }

  /** After uvmclear the user has no byte of that page, and every other byte as before. */
  lemma ClearedBytes(t: Tables, t': Tables, sp: Space, d: map<nat, seq<Byte>>, v: nat, va: nat)
    requires [] in sp && UserCleared(t, t', sp, v)
    ensures ByteAt(t', sp, d, va) == if va / PGSIZE == v then None else ByteAt(t, sp, d, va)
  {
    hide At, Cleared;
    var u := va / PGSIZE;
    if u < NPAGES {
      assert At(t', sp, u) == if u == v && At(t, sp, u).Some? then Some(Cleared(At(t, sp, u).value)) else At(t, sp, u);
      if At(t, sp, u).Some? { ClearedWord(At(t, sp, u).value); }
    }
  }

  /** A word with the flags of uvmalloc is the user's. */
  lemma AllFlagsUser(w: nat)
    requires FlagsOf(w) == PTE_V + PTE_RWXU
    ensures IsUser(w) && IsLeaf(w)
  {
    var q := w / 1024;
    assert w == 1024 * q + 31;
    WordBits(w, 32 * q, 1, 15);
  }

  /** The user reads zeros from the pages that uvmalloc adds, and the other pages as before. */
  lemma AllocatedBytes(t: Tables, sp: Space, d: map<nat, seq<Byte>>, t': Tables, sp': Space, d': map<nat, seq<Byte>>,
      m: nat, want: Wanted, va: nat)
    requires [] in sp && [] in sp' && m + |want| <= NPAGES && Populated(t, sp, d, t', sp', d', m, want)
    requires forall i :: 0 <= i < |want| ==> want[i] == (PTE_V + PTE_RWXU, ZeroPage())
    requires UserOwned(t, sp, d)
    ensures ByteAt(t', sp', d', va) == if m <= va / PGSIZE < m + |want| then Some(0) else ByteAt(t, sp, d, va)
  {
    hide At, IsUser, FlagsOf, FrameOf, IsLeaf;
    var u := va / PGSIZE;
    if m <= u < m + |want| {
      assert NewPage(t', sp', d, d', m, want, u);
      AllFlagsUser(At(t', sp', u).value);
    } else if u < NPAGES {
      assert At(t', sp', u) == At(t, sp, u);
      assert UserFrame(t, sp, u).Some? ==> UserFrame(t, sp, u).value in d;
    }
  }

  /**
   exec's user stack: two new pages above the size, the lower one out of the user's reach. The
   upper page reads as zeros, and nothing below changes.
   */
  method StackPages(vm: Vm, ghost sp: Space, root: nat, sz0: nat) returns (sz: nat, ghost sp': Space)
    requires vm.Valid() && !vm.panicked && Tree(vm.tables, sp) && root == sp[[]] && sz0 < U64 - 4 * PGSIZE
    requires Owns(vm.tables, sp, Pages(sz0), vm.data.Keys) && Pages(sz0) <= NPAGES && UserOwned(vm.tables, sp, vm.data)
    modifies vm
    ensures vm.Valid() && vm.Frames() == old(vm.Frames()) && [] in sp
    ensures sz == (Pages(sz0) + 2) * PGSIZE
    ensures vm.panicked ==>
              || Pages(sz0) + 2 > NPAGES || vm.free == []
              || exists u: nat :: Pages(sz0) <= u < Pages(sz0) + 2 && At(old(vm.tables), sp, u) != None
    ensures !vm.panicked ==>
              && Tree(vm.tables, sp') && [] in sp'
              && forall va: nat {:trigger ByteAt(vm.tables, sp', vm.data, va)} ::
                   ByteAt(vm.tables, sp', vm.data, va) == if sz - 2 * PGSIZE <= va < sz - PGSIZE then None
                                                          else if sz - PGSIZE <= va < sz then Some(0)
                                                          else ByteAt(old(vm.tables), sp, old(vm.data), va)
  {
    hide Tree, Kept, Populated, Owns, UserOwned, ByteAt, UserCleared, UserFrame;
    TreeRoot(vm.tables, sp);
    var m := Pages(sz0);
    ghost var want: Wanted;
    PagesWhole(m);
    PagesWhole(m + 2);
    sz, sp', want := UvmAlloc(vm, sp, root, m * PGSIZE, m * PGSIZE + 2 * PGSIZE);
    if vm.panicked {
      return;
    }
    ghost var t1 := vm.tables;
    TreeRoot(vm.tables, sp');
    HasTable(old(vm.tables), sp, old(vm.data), vm.tables, sp', vm.data, m, want);
    KeptRoot(old(vm.tables), sp, old(vm.free), vm.tables, sp', vm.free);
    UvmClear(vm, sp', root, sz - 2 * PGSIZE);
    forall va: nat
      ensures ByteAt(vm.tables, sp', vm.data, va) == if sz - 2 * PGSIZE <= va < sz - PGSIZE then None
                                                     else if sz - PGSIZE <= va < sz then Some(0)
                                                     else ByteAt(old(vm.tables), sp, old(vm.data), va)
    {
      ClearedBytes(t1, vm.tables, sp', vm.data, m, va);
      AllocatedBytes(old(vm.tables), sp, old(vm.data), t1, sp', vm.data, m, want, va);
      WhichPage(va, m);
    }
  }

  lemma KeptRoot(t: Tables, sp: Space, free: seq<nat>, t': Tables, sp': Space, free': seq<nat>)
    requires [] in sp && Kept(t, sp, free, t', sp', free')
    ensures [] in sp' && sp'[[]] == sp[[]]
  {
  }

  /** A page that was given a frame has a table. */
  lemma HasTable(t: Tables, sp: Space, d: map<nat, seq<Byte>>, t': Tables, sp': Space, d': map<nat, seq<Byte>>,
      m: nat, want: Wanted)
    requires [] in sp && [] in sp' && |want| > 0 && Populated(t, sp, d, t', sp', d', m, want) && Tree(t', sp')
    ensures Dir(m) in sp'
  {
    hide Tree, Lookup, Ix;
    assert NewPage(t', sp', d, d', m, want, m);
    LookupFlat(t', sp', Ix(m));
  }

  lemma PagesWhole(m: nat)
    ensures Pages(m * PGSIZE) == m && m * PGSIZE / PGSIZE == m
  {
  }

  lemma WhichPage(va: nat, m: nat)
    ensures va / PGSIZE == m <==> m * PGSIZE <= va < (m + 1) * PGSIZE
    ensures va / PGSIZE == m + 1 <==> (m + 1) * PGSIZE <= va < (m + 2) * PGSIZE
  {
  }

  // ---------------------------------------------------------------- what a copied address space shows

  lemma UserByFlags(w: nat)
    ensures IsUser(w) <==> FlagsOf(w) / 16 % 2 == 1
  {
    var q, c, r := TakeApart(w);
    WordBits(w, q, c, r);
    var low := w % 1024;
    assert low == 32 * (q % 32) + 16 * c + r;
    UserBit(low, q % 32, c, r);
  }

  /** After uvmcopy the child sees at every address below the size what the parent sees there. */
  lemma CopiedBytes(t: Tables, sp1: Space, sp2: Space, d: map<nat, seq<Byte>>, t': Tables, sp2': Space,
      d': map<nat, seq<Byte>>, want: Wanted, va: nat)
    requires [] in sp1 && [] in sp2 && [] in sp2' && |want| <= NPAGES && va / PGSIZE < |want|
    requires Copies(t, sp1, d, want) && Populated(t, sp2, d, t', sp2', d', 0, want)
    ensures ByteAt(t', sp2', d', va) == ByteAt(t, sp1, d, va)
  {
    hide At, IsUser, FlagsOf, FrameOf;
    var u := va / PGSIZE;
    assert NewPage(t', sp2', d, d', 0, want, u);
    UserByFlags(At(t', sp2', u).value);
    assert want[u] == (FlagsOf(At(t, sp1, u).value), d[FrameOf(At(t, sp1, u).value)]);
    UserByFlags(At(t, sp1, u).value);
  }
}
