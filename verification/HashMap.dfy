/**
 The Robin Hood hash map (kernel/lib/hashmap.c) refines a finite map.

 An item is a key and a value; two items compare equal when their keys are
 equal, and the 48-bit hash of a key is an arbitrary function of it. The table
 size is a power of two, so `& mask` is written as a wrap-around.
 */
module RobinHood {
  import opened Common

  /** A bucket; an empty one is a bucket whose dib field is 0. */
  datatype Slot<+K, +V> = Empty | Full(hash: nat, dib: nat, key: K, val: V)

  function Dib<K, V>(b: Slot<K, V>): nat {
    if b.Empty? then 0 else b.dib
  }

  // ---------------------------------------------------------------- positions on the circle

  function Next(i: nat, n: nat): (r: nat)
    requires i < n
    ensures r < n
  {
    if i + 1 == n then 0 else i + 1
  }

  /** t steps forward from i. */
  function Fwd(i: nat, t: nat, n: nat): (r: nat)
    requires i < n && t < n
    ensures r < n
  {
    if i + t < n then i + t else i + t - n
  }

  /** Number of steps forward from i to j. */
  function Dist(i: nat, j: nat, n: nat): (r: nat)
    requires i < n && j < n
    ensures r < n
  {
    if i <= j then j - i else j + n - i
  }

  function Home(hash: nat, n: nat): (r: nat)
    requires n > 0
    ensures r < n
  {
    hash % n
  }

  // ---------------------------------------------------------------- the table invariant

  /** A full bucket's hash is its key's, and its dib is its probe distance plus one. */
  ghost predicate SlotOk<K(!new), V>(hash: K -> nat, s: seq<Slot<K, V>>, i: nat)
    requires i < |s|
  {
    s[i].Full? ==> s[i].hash == hash(s[i].key) && s[i].dib == Dist(Home(s[i].hash, |s|), i, |s|) + 1
  }

  ghost predicate SlotsOk<K(!new), V>(hash: K -> nat, s: seq<Slot<K, V>>) {
    forall i :: 0 <= i < |s| ==> SlotOk(hash, s, i)
  }

  /** From one bucket to the next, the dib grows by at most one. */
  ghost predicate Smooth<K, V>(s: seq<Slot<K, V>>) {
    forall i :: 0 <= i < |s| ==> Dib(s[Next(i, |s|)]) <= Dib(s[i]) + 1
  }

  ghost predicate UniqueKeys<K, V>(s: seq<Slot<K, V>>) {
    forall i, j :: 0 <= i < j < |s| && s[i].Full? && s[j].Full? ==> s[i].key != s[j].key
  }

  ghost predicate Table<K(!new), V>(hash: K -> nat, s: seq<Slot<K, V>>) {
    |s| >= 2 && SlotsOk(hash, s) && Smooth(s) && UniqueKeys(s)
  }

  ghost predicate HasKey<K, V>(s: seq<Slot<K, V>>, k: K) {
    exists i :: 0 <= i < |s| && s[i].Full? && s[i].key == k
  }

  /** The full buckets hold exactly the bindings of m. */
  ghost predicate Represents<K, V>(s: seq<Slot<K, V>>, m: map<K, V>) {
    && (forall i :: 0 <= i < |s| && s[i].Full? ==> s[i].key in m && m[s[i].key] == s[i].val)
    && (forall k :: k in m ==> HasKey(s, k))
  }

  // ---------------------------------------------------------------- probing

  /** Going back from a bucket, the dib drops by at most one per step. */
  lemma {:induction false} DibBehind<K(!new), V>(hash: K -> nat, s: seq<Slot<K, V>>, i: nat, t: nat)
    requires Smooth(s) && i < |s| && t < |s|
    ensures Dib(s[Fwd(i, t, |s|)]) <= Dib(s[i]) + t
    decreases t
  {
    if t > 0 {
      DibBehind(hash, s, i, t - 1);
      assert Next(Fwd(i, t - 1, |s|), |s|) == Fwd(i, t, |s|);
    }
  }

  /** Robin Hood order: key k, if present, is at most at the first bucket, going forward from
      its home, whose dib is less than the number of buckets passed plus one. */
  lemma AbsentBeyond<K(!new), V>(hash: K -> nat, s: seq<Slot<K, V>>, k: K, d: nat)
    requires Table(hash, s) && d < |s|
    requires var home := Home(hash(k), |s|);
             && Dib(s[Fwd(home, d, |s|)]) < d + 1
             && forall t :: 0 <= t < d ==> s[Fwd(home, t, |s|)].Empty? || s[Fwd(home, t, |s|)].key != k
    ensures !HasKey(s, k)
  {
    var n, home := |s|, Home(hash(k), |s|);
    forall j | 0 <= j < n && s[j].Full? ensures s[j].key != k {
      assert SlotOk(hash, s, j);
      var dj := Dist(home, j, n);
      assert Fwd(home, dj, n) == j;
      if dj >= d {
        assert Fwd(Fwd(home, d, n), dj - d, n) == j;
        DibBehind(hash, s, Fwd(home, d, n), dj - d);
      }
    }
  }

  /** Every bucket on the way from a key's home to the key is full. */
  lemma PathFull<K(!new), V>(hash: K -> nat, s: seq<Slot<K, V>>, j: nat, t: nat)
    requires Table(hash, s) && j < |s| && s[j].Full? && t < s[j].dib
    ensures s[j].dib <= |s|
    ensures s[Fwd(Home(s[j].hash, |s|), t, |s|)].Full?
  {
    var n := |s|;
    assert SlotOk(hash, s, j);
    var home := Home(s[j].hash, n);
    var dj := s[j].dib - 1;
    DibBehind(hash, s, Fwd(home, t, n), dj - t);
    assert Fwd(Fwd(home, t, n), dj - t, n) == j;
  }

  // ---------------------------------------------------------------- counting

  /** Full buckets on a path have distinct keys. */
  lemma {:induction false} PathAtMost<K, V>(s: seq<Slot<K, V>>, home: nat, t: nat, keys: set<K>)
    requires UniqueKeys(s) && home < |s| && t <= |s|
    requires forall u :: 0 <= u < t ==> s[Fwd(home, u, |s|)].Full? && s[Fwd(home, u, |s|)].key in keys
    ensures t <= |keys|
    decreases t
  {
    if t > 0 {
      var i := Fwd(home, t - 1, |s|);
      forall u | 0 <= u < t - 1 ensures s[Fwd(home, u, |s|)].key in keys - {s[i].key} {
        assert Fwd(home, u, |s|) != i;
      }
      PathAtMost(s, home, t - 1, keys - {s[i].key});
    }
  }

  /** A table with fewer bindings than buckets has an empty bucket. */
  lemma HasEmpty<K, V>(s: seq<Slot<K, V>>, m: map<K, V>) returns (e: nat)
    requires UniqueKeys(s) && Represents(s, m) && |m| < |s|
    ensures e < |s| && s[e].Empty?
  {
    if forall u :: 0 <= u < |s| ==> s[Fwd(0, u, |s|)].Full? {
      PathAtMost(s, 0, |s|, m.Keys);
      assert false;
    }
    var u :| 0 <= u < |s| && !s[Fwd(0, u, |s|)].Full?;
    e := Fwd(0, u, |s|);
  }

  /** A bucket's dib is at most the number of items, so 16 bits hold it up to 2^16 buckets. */
  lemma DibAtMostCount<K(!new), V>(hash: K -> nat, s: seq<Slot<K, V>>, m: map<K, V>, i: nat)
    requires Table(hash, s) && Represents(s, m) && i < |s|
    ensures Dib(s[i]) <= |m|
  {
    if s[i].Full? {
      assert SlotOk(hash, s, i);
      var home := Home(s[i].hash, |s|);
      forall u | 0 <= u < s[i].dib ensures s[Fwd(home, u, |s|)].Full? {
        PathFull(hash, s, i, u);
      }
      PathAtMost(s, home, s[i].dib, m.Keys);
    }
  }

  // ---------------------------------------------------------------- displacement

  function Prev(i: nat, n: nat): (r: nat)
    requires i < n
    ensures r < n && Next(r, n) == i
  {
    if i == 0 then n - 1 else i - 1
  }

  /** An item that is about to be tried at bucket i. */
  ghost predicate InHand<K(!new), V>(hash: K -> nat, s: seq<Slot<K, V>>, i: nat, e: Slot<K, V>) {
    && i < |s| && e.Full?
    && e.hash == hash(e.key)
    && e.dib == Dist(Home(e.hash, |s|), i, |s|) + 1
    && e.dib <= Dib(s[Prev(i, |s|)]) + 1
  }

  /** An empty bucket lies beyond every item's stretch. */
  lemma EmptyBeyond<K(!new), V>(hash: K -> nat, s: seq<Slot<K, V>>, j: nat, z: nat)
    requires Table(hash, s) && j < |s| && z < |s| && s[j].Full? && s[z].Empty?
    ensures s[j].dib + Dist(j, z, |s|) <= |s|
  {
    assert SlotOk(hash, s, j);
    var home := Home(s[j].hash, |s|);
    var dz := Dist(home, z, |s|);
    assert Fwd(home, dz, |s|) == z;
    if dz < s[j].dib { PathFull(hash, s, j, dz); }
  }

  /** Taking a bucket, empty or with a smaller dib, keeps the table in order. */
  lemma TakeBucket<K(!new), V>(hash: K -> nat, s: seq<Slot<K, V>>, i: nat, e: Slot<K, V>)
    requires Table(hash, s) && InHand(hash, s, i, e) && !HasKey(s, e.key) && Dib(s[i]) < e.dib
    ensures Table(hash, s[i := e])
  {
    var s', n := s[i := e], |s|;
    forall j | 0 <= j < n ensures Dib(s'[Next(j, n)]) <= Dib(s'[j]) + 1 {
      if Next(j, n) == i { assert j == Prev(i, n); }
    }
    forall j | 0 <= j < n ensures SlotOk(hash, s', j) { assert SlotOk(hash, s, j); }
  }

  /** The item in hand moves on to the next bucket. */
  lemma MoveOn<K(!new), V>(hash: K -> nat, s: seq<Slot<K, V>>, i: nat, e: Slot<K, V>, z: nat)
    requires |s| >= 2 && i < |s| && e.Full? && e.hash == hash(e.key)
    requires e.dib == Dist(Home(e.hash, |s|), i, |s|) + 1 && e.dib <= Dib(s[i])
    requires z < |s| && z != i && e.dib + Dist(i, z, |s|) <= |s|
    ensures InHand(hash, s, Next(i, |s|), e.(dib := e.dib + 1))
    ensures (e.dib + 1) + Dist(Next(i, |s|), z, |s|) <= |s|
  {
    assert Prev(Next(i, |s|), |s|) == i;
  }

  /** Overwriting a bucket, seen as a change of the bindings. */
  lemma Overwrite<K, V>(s: seq<Slot<K, V>>, m: map<K, V>, i: nat, e: Slot<K, V>)
    requires UniqueKeys(s) && Represents(s, m) && i < |s| && e.Full?
    requires !HasKey(s, e.key) || (s[i].Full? && s[i].key == e.key)
    ensures var m' := if s[i].Full? then m - {s[i].key} else m;
            Represents(s[i := e], m'[e.key := e.val])
  {
    var s' := s[i := e];
    var m' := (if s[i].Full? then m - {s[i].key} else m)[e.key := e.val];
    forall j | 0 <= j < |s'| && s'[j].Full? ensures s'[j].key in m' && m'[s'[j].key] == s'[j].val {
      if j != i {
        assert s[j].key in m;
        assert s[j].key != e.key;
      }
    }
    forall k | k in m' ensures HasKey(s', k) {
      if k == e.key {
        assert s'[i].key == k;
      } else {
        assert HasKey(s, k);
        var j :| 0 <= j < |s| && s[j].Full? && s[j].key == k;
        assert s'[j] == s[j];
      }
    }
  }

  lemma RepresentsKeys<K, V>(s: seq<Slot<K, V>>, m: map<K, V>, k: K)
    requires Represents(s, m)
    ensures HasKey(s, k) <==> k in m
  {
  }

  // ---------------------------------------------------------------- backward shift

  /** A table but for bucket p, whose contents are stale; it used to have dib h. */
  ghost predicate Hole<K(!new), V>(hash: K -> nat, s: seq<Slot<K, V>>, p: nat, h: nat) {
    && |s| >= 2 && p < |s|
    && var t := s[p := Empty];
       && SlotsOk(hash, t) && UniqueKeys(t)
       && (forall i :: 0 <= i < |t| && i != p ==> Dib(t[Next(i, |t|)]) <= Dib(t[i]) + 1)
       && 1 <= h <= Dib(t[Prev(p, |t|)]) + 1
       && Dib(t[Next(p, |t|)]) <= h + 1
  }

  lemma OpenHole<K(!new), V>(hash: K -> nat, s: seq<Slot<K, V>>, m: map<K, V>, p: nat)
    requires Table(hash, s) && Represents(s, m) && p < |s| && s[p].Full?
    ensures Hole(hash, s, p, s[p].dib)
    ensures Represents(s[p := Empty], m - {s[p].key})
  {
    var t, n := s[p := Empty], |s|;
    assert SlotOk(hash, s, p);
    forall i | 0 <= i < n ensures SlotOk(hash, t, i) { assert SlotOk(hash, s, i); }
    assert Dib(s[Next(Prev(p, n), n)]) <= Dib(s[Prev(p, n)]) + 1;
    forall k | k in m - {s[p].key} ensures HasKey(t, k) {
      assert HasKey(s, k);
      var j :| 0 <= j < n && s[j].Full? && s[j].key == k;
      assert t[j] == s[j];
    }
    forall j | 0 <= j < n && t[j].Full? ensures t[j].key in m - {s[p].key} && m[t[j].key] == t[j].val {
      assert j != p && s[j].key != s[p].key;
    }
  }

  lemma ShiftBack<K(!new), V>(hash: K -> nat, s: seq<Slot<K, V>>, m: map<K, V>, p: nat, h: nat)
    requires Hole(hash, s, p, h) && Represents(s[p := Empty], m) && Dib(s[Next(p, |s|)]) > 1
    ensures var q := Next(p, |s|);
            var s' := s[p := s[q].(dib := s[q].dib - 1)];
            Hole(hash, s', q, s[q].dib) && Represents(s'[q := Empty], m)
  {
    ShiftedSlots(hash, s, p);
    ShiftedOrder(hash, s, p, h);
    ShiftedContents(s, m, p);
  }

  lemma ShiftedOrder<K(!new), V>(hash: K -> nat, s: seq<Slot<K, V>>, p: nat, h: nat)
    requires Hole(hash, s, p, h) && Dib(s[Next(p, |s|)]) > 1
    ensures var n, q := |s|, Next(p, |s|);
            var t' := s[p := s[q].(dib := s[q].dib - 1)][q := Empty];
            && (forall i :: 0 <= i < n && i != q ==> Dib(t'[Next(i, n)]) <= Dib(t'[i]) + 1)
            && s[q].dib <= Dib(t'[Prev(q, n)]) + 1
            && Dib(t'[Next(q, n)]) <= s[q].dib + 1
  {
    var n, q := |s|, Next(p, |s|);
    var t, t' := s[p := Empty], s[p := s[q].(dib := s[q].dib - 1)][q := Empty];
    assert Prev(q, n) == p;
    forall i | 0 <= i < n && i != q ensures Dib(t'[Next(i, n)]) <= Dib(t'[i]) + 1 {
      if i != p {
        if Next(i, n) == p { assert i == Prev(p, n); }
      }
    }
  }

  lemma ShiftedContents<K, V>(s: seq<Slot<K, V>>, m: map<K, V>, p: nat)
    requires |s| >= 2 && p < |s| && Represents(s[p := Empty], m) && Dib(s[Next(p, |s|)]) > 1
    ensures var q := Next(p, |s|);
            Represents(s[p := s[q].(dib := s[q].dib - 1)][q := Empty], m)
  {
    var n, q := |s|, Next(p, |s|);
    var t, t' := s[p := Empty], s[p := s[q].(dib := s[q].dib - 1)][q := Empty];
    forall k | k in m ensures HasKey(t', k) {
      assert HasKey(t, k);
      var j :| 0 <= j < n && t[j].Full? && t[j].key == k;
      assert t'[if j == q then p else j].key == k;
    }
    forall j | 0 <= j < n && t'[j].Full? ensures t'[j].key in m && m[t'[j].key] == t'[j].val {
      assert t[if j == p then q else j].Full?;
    }
  }

  lemma ShiftedSlots<K(!new), V>(hash: K -> nat, s: seq<Slot<K, V>>, p: nat)
    requires |s| >= 2 && p < |s| && SlotsOk(hash, s[p := Empty]) && UniqueKeys(s[p := Empty])
    requires Dib(s[Next(p, |s|)]) > 1
    ensures var q := Next(p, |s|);
            var t' := s[p := s[q].(dib := s[q].dib - 1)][q := Empty];
            SlotsOk(hash, t') && UniqueKeys(t')
  {
    var n, q := |s|, Next(p, |s|);
    var t, t' := s[p := Empty], s[p := s[q].(dib := s[q].dib - 1)][q := Empty];
    forall j | 0 <= j < n ensures SlotOk(hash, t', j) {
      assert SlotOk(hash, t, if j == p then q else j);
    }
    forall i, j | 0 <= i < j < n && t'[i].Full? && t'[j].Full? ensures t'[i].key != t'[j].key {
      var i', j' := if i == p then q else i, if j == p then q else j;
      assert t[i'].key == t'[i].key && t[j'].key == t'[j].key && i' != j';
    }
  }

  lemma CloseHole<K(!new), V>(hash: K -> nat, s: seq<Slot<K, V>>, p: nat, h: nat)
    requires Hole(hash, s, p, h) && Dib(s[Next(p, |s|)]) <= 1
    ensures Table(hash, s[p := Empty])
  {
  }

  /** hashmap_delete's inner loop: bucket i is the gap, the other buckets hold m. */
  ghost predicate Shifting<K(!new), V>(hash: K -> nat, s: seq<Slot<K, V>>, m: map<K, V>, i: nat, h: nat, z: nat) {
    && Hole(hash, s, i, h) && Represents(s[i := Empty], m)
    && z < |s| && z != i && s[z].Empty?
  }

  lemma ShiftStart<K(!new), V>(hash: K -> nat, s: seq<Slot<K, V>>, m: map<K, V>, i: nat) returns (h: nat, z: nat)
    requires Table(hash, s) && Represents(s, m) && |m| < |s| && i < |s| && s[i].Full?
    ensures z < |s| && Shifting(hash, s[i := Empty], m - {s[i].key}, i, h, z)
  {
    z := HasEmpty(s, m);
    h := s[i].dib;
    OpenHole(hash, s, m, i);
    assert s[i := Empty][i := Empty] == s[i := Empty];
  }

  lemma ShiftStep<K(!new), V>(hash: K -> nat, s: seq<Slot<K, V>>, m: map<K, V>, i: nat, h: nat, z: nat)
    requires i < |s| && z < |s| && Shifting(hash, s, m, i, h, z) && s[Next(i, |s|)].Full? && s[Next(i, |s|)].dib > 1
    ensures var q := Next(i, |s|);
            && Shifting(hash, s[i := s[q].(dib := s[q].dib - 1)], m, q, s[q].dib, z)
            && Dist(q, z, |s|) < Dist(i, z, |s|)
  {
    ShiftBack(hash, s, m, i, h);
  }

  lemma ShiftEnd<K(!new), V>(hash: K -> nat, s: seq<Slot<K, V>>, m: map<K, V>, i: nat, h: nat, z: nat)
    requires i < |s| && Shifting(hash, s, m, i, h, z)
    requires s[Next(i, |s|)].Empty? || s[Next(i, |s|)].dib <= 1
    ensures Table(hash, s[i := Empty]) && Represents(s[i := Empty], m)
  {
    CloseHole(hash, s, i, h);
  }

  // ---------------------------------------------------------------- sizes

  function Pow2(k: nat): nat {
    if k == 0 then 1 else 2 * Pow2(k - 1)
  }

  ghost predicate PowerOfTwo(n: nat) {
    exists k: nat :: n == Pow2(k)
  }

  /** The size hashmap_new chooses: the least power of two that is at least 16 and at least cap. */
  method TableSize(cap: nat) returns (n: nat)
    ensures PowerOfTwo(n) && n >= 16 && n >= cap
    ensures n == 16 || n / 2 < cap
  {
    n := 16;
    ghost var k := 4;
    assert Pow2(4) == 16;
    while n < cap
      invariant n == Pow2(k) && n >= 16
      invariant n == 16 || n / 2 < cap
    {
      n := n * 2;
      k := k + 1;
    }
  }

  lemma ExactSize(n: nat, r: nat)
    requires PowerOfTwo(n) && n >= 16
    requires PowerOfTwo(r) && r >= n && (r == 16 || r / 2 < n)
    ensures r == n
  {
    var j: nat :| n == Pow2(j);
    var k: nat :| r == Pow2(k);
    if k > j { Pow2Monotone(j, k - 1); } else { Pow2Monotone(k, j); }
  }

  lemma {:induction false} Pow2Monotone(a: nat, b: nat)
    requires a <= b
    ensures Pow2(a) <= Pow2(b)
    decreases b
  {
    if a < b { Pow2Monotone(a, b - 1); }
  }

  lemma PowerHalf(n: nat)
    requires PowerOfTwo(n) && n >= 2
    ensures PowerOfTwo(n / 2) && PowerOfTwo(2 * n) && n % 2 == 0
  {
    var k: nat :| n == Pow2(k);
    assert n == 2 * Pow2(k - 1);
    assert n / 2 == Pow2(k - 1);
    assert 2 * n == Pow2(k + 1);
  }

  lemma {:induction false} PowerOrder(a: nat, b: nat)
    requires PowerOfTwo(a) && PowerOfTwo(b) && a < b
    ensures a <= b / 2
  {
    var j: nat :| a == Pow2(j);
    var k: nat :| b == Pow2(k);
    if k <= j { Pow2Monotone(k, j); } else { Pow2Monotone(j, k - 1); }
  }

  // ---------------------------------------------------------------- the code

  /** An item whose key the table (holding m) does not have, tried at bucket j while bucket z is empty. */
  ghost predicate Inserting<K(!new), V>(hash: K -> nat, s: seq<Slot<K, V>>, m: map<K, V>, j: nat, e: Slot<K, V>,
      z: nat, goal: map<K, V>) {
    && Table(hash, s) && Represents(s, m) && InHand(hash, s, j, e)
    && e.key !in m && m[e.key := e.val] == goal
    && z < |s| && s[z].Empty? && e.dib + Dist(j, z, |s|) <= |s|
  }

  lemma StartInserting<K(!new), V>(hash: K -> nat, s: seq<Slot<K, V>>, m: map<K, V>, e: Slot<K, V>) returns (z: nat)
    requires Table(hash, s) && Represents(s, m) && |m| < |s|
    requires e.Full? && e.hash == hash(e.key) && e.key !in m
    ensures z < |s| && Inserting(hash, s, m, Home(e.hash, |s|), Full(e.hash, 1, e.key, e.val), z, m[e.key := e.val])
  {
    z := HasEmpty(s, m);
  }

  lemma PlaceStep<K(!new), V>(hash: K -> nat, s: seq<Slot<K, V>>, m: map<K, V>, j: nat, e: Slot<K, V>, z: nat,
      goal: map<K, V>)
    requires Inserting(hash, s, m, j, e, z, goal) && s[j].Empty?
    ensures Table(hash, s[j := e]) && Represents(s[j := e], goal)
  {
    RepresentsKeys(s, m, e.key);
    TakeBucket(hash, s, j, e);
    Overwrite(s, m, j, e);
  }

  lemma PassStep<K(!new), V>(hash: K -> nat, s: seq<Slot<K, V>>, m: map<K, V>, j: nat, e: Slot<K, V>, z: nat,
      goal: map<K, V>)
    requires Inserting(hash, s, m, j, e, z, goal) && s[j].Full? && s[j].dib >= e.dib
    ensures Inserting(hash, s, m, Next(j, |s|), e.(dib := e.dib + 1), z, goal)
    ensures Dist(Next(j, |s|), z, |s|) < Dist(j, z, |s|)
  {
    MoveOn(hash, s, j, e, z);
  }

  lemma SwapStep<K(!new), V>(hash: K -> nat, s: seq<Slot<K, V>>, m: map<K, V>, j: nat, e: Slot<K, V>, z: nat,
      goal: map<K, V>)
    returns (m': map<K, V>)
    requires Inserting(hash, s, m, j, e, z, goal) && s[j].Full? && s[j].dib < e.dib
    ensures Inserting(hash, s[j := e], m', Next(j, |s|), s[j].(dib := s[j].dib + 1), z, goal)
    ensures Dist(Next(j, |s|), z, |s|) < Dist(j, z, |s|)
  {
    m' := (m - {s[j].key})[e.key := e.val];
    RepresentsKeys(s, m, e.key);
    TakeBucket(hash, s, j, e);
    Overwrite(s, m, j, e);
    EmptyBeyond(hash, s, j, z);
    assert SlotOk(hash, s, j);
    MoveOn(hash, s[j := e], j, s[j], z);
  }

  // ---------------------------------------------------------------- lookup

  /** k has not been found in the buckets from its home up to bucket j; bucket z is empty. */
  ghost predicate Looking<K(!new), V>(hash: K -> nat, s: seq<Slot<K, V>>, m: map<K, V>, k: K, j: nat, z: nat) {
    && Table(hash, s) && Represents(s, m) && j < |s| && z < |s| && s[z].Empty?
    && var home := Home(hash(k), |s|);
       && Dist(home, j, |s|) + Dist(j, z, |s|) < |s|
       && forall t :: 0 <= t < Dist(home, j, |s|) ==> s[Fwd(home, t, |s|)].Full? && s[Fwd(home, t, |s|)].key != k
  }

  lemma LookStart<K(!new), V>(hash: K -> nat, s: seq<Slot<K, V>>, m: map<K, V>, k: K) returns (z: nat)
    requires Table(hash, s) && Represents(s, m) && |m| < |s|
    ensures z < |s| && Looking(hash, s, m, k, Home(hash(k), |s|), z)
  {
    z := HasEmpty(s, m);
  }

  lemma LookEmpty<K(!new), V>(hash: K -> nat, s: seq<Slot<K, V>>, m: map<K, V>, k: K, j: nat, z: nat)
    requires Looking(hash, s, m, k, j, z) && s[j].Empty?
    ensures k !in m
  {
    var home := Home(hash(k), |s|);
    assert Fwd(home, Dist(home, j, |s|), |s|) == j;
    AbsentBeyond(hash, s, k, Dist(home, j, |s|));
    RepresentsKeys(s, m, k);
  }

  /** hash equality and compare together are key equality. */
  lemma LookHit<K(!new), V>(hash: K -> nat, s: seq<Slot<K, V>>, m: map<K, V>, k: K, j: nat, z: nat)
    requires Looking(hash, s, m, k, j, z) && s[j].Full?
    ensures s[j].key == k ==> s[j].hash == hash(k)
    ensures s[j].key in m && m[s[j].key] == s[j].val
  {
    assert SlotOk(hash, s, j);
  }

  lemma LookNext<K(!new), V>(hash: K -> nat, s: seq<Slot<K, V>>, m: map<K, V>, k: K, j: nat, z: nat)
    requires Looking(hash, s, m, k, j, z) && s[j].Full? && s[j].key != k
    ensures Looking(hash, s, m, k, Next(j, |s|), z)
    ensures Dist(Next(j, |s|), z, |s|) < Dist(j, z, |s|)
  {
    var n, home := |s|, Home(hash(k), |s|);
    assert j != z;
    assert Dist(home, Next(j, n), n) == Dist(home, j, n) + 1;
    assert Fwd(home, Dist(home, j, n), n) == j;
  }

  // ---------------------------------------------------------------- insert or replace

  /** hashmap_set before its first swap: the new item has passed only buckets of other keys,
      whose dib is at least what its own was there. */
  ghost predicate Seeking<K(!new), V>(hash: K -> nat, s: seq<Slot<K, V>>, m: map<K, V>, j: nat, e: Slot<K, V>, z: nat,
      goal: map<K, V>) {
    && e.Full? && InHand(hash, s, j, e) && m[e.key := e.val] == goal
    && Looking(hash, s, m, e.key, j, z)
  }

  lemma SeekStart<K(!new), V>(hash: K -> nat, s: seq<Slot<K, V>>, m: map<K, V>, k: K, v: V) returns (z: nat)
    requires Table(hash, s) && Represents(s, m) && |m| < |s|
    ensures z < |s| && Seeking(hash, s, m, Home(hash(k), |s|), Full(hash(k), 1, k, v), z, m[k := v])
  {
    z := LookStart(hash, s, m, k);
  }

  /** An empty bucket, or one whose item is closer to home: the key is not in the table. */
  lemma SeekInserts<K(!new), V>(hash: K -> nat, s: seq<Slot<K, V>>, m: map<K, V>, j: nat, e: Slot<K, V>, z: nat,
      goal: map<K, V>)
    requires Seeking(hash, s, m, j, e, z, goal) && Dib(s[j]) < e.dib
    ensures Inserting(hash, s, m, j, e, z, goal)
  {
    var home := Home(hash(e.key), |s|);
    assert Fwd(home, Dist(home, j, |s|), |s|) == j;
    AbsentBeyond(hash, s, e.key, Dist(home, j, |s|));
    RepresentsKeys(s, m, e.key);
  }

  lemma SeekPass<K(!new), V>(hash: K -> nat, s: seq<Slot<K, V>>, m: map<K, V>, j: nat, e: Slot<K, V>, z: nat,
      goal: map<K, V>)
    requires Seeking(hash, s, m, j, e, z, goal) && s[j].Full? && s[j].dib >= e.dib && s[j].key != e.key
    ensures Seeking(hash, s, m, Next(j, |s|), e.(dib := e.dib + 1), z, goal)
    ensures Dist(Next(j, |s|), z, |s|) < Dist(j, z, |s|)
  {
    LookNext(hash, s, m, e.key, j, z);
    MoveOn(hash, s, j, e, z);
  }

  lemma SeekHit<K(!new), V>(hash: K -> nat, s: seq<Slot<K, V>>, m: map<K, V>, j: nat, e: Slot<K, V>, z: nat,
      goal: map<K, V>)
    requires Seeking(hash, s, m, j, e, z, goal) && s[j].Full? && s[j].key == e.key
    ensures var s' := s[j := s[j].(key := e.key, val := e.val)];
            && Table(hash, s') && Represents(s', goal)
            && e.key in m && m[e.key] == s[j].val
  {
    var s' := s[j := s[j].(key := e.key, val := e.val)];
    forall i | 0 <= i < |s| ensures SlotOk(hash, s', i) { assert SlotOk(hash, s, i); }
    Overwrite(s, m, j, s'[j]);
    assert (m - {e.key})[e.key := e.val] == m[e.key := e.val];
  }

  /** hashmap_set's loop at any time: still seeking, or a displaced item in hand. */
  ghost predicate Setting<K(!new), V>(hash: K -> nat, s: seq<Slot<K, V>>, m: map<K, V>, j: nat, e: Slot<K, V>, z: nat,
                                      goal: map<K, V>, swapped: bool) {
    if swapped then Inserting(hash, s, m, j, e, z, goal) else Seeking(hash, s, m, j, e, z, goal)
  }

  lemma SettingStart<K(!new), V>(hash: K -> nat, s: seq<Slot<K, V>>, m: map<K, V>, j: nat, e: Slot<K, V>, z: nat,
      goal: map<K, V>)
    requires Seeking(hash, s, m, j, e, z, goal)
    ensures Setting(hash, s, m, j, e, z, goal, false)
  {
  }

  lemma SetEmpty<K(!new), V>(hash: K -> nat, s: seq<Slot<K, V>>, m: map<K, V>, j: nat, e: Slot<K, V>, z: nat,
      goal: map<K, V>, swapped: bool)
    requires j < |s| && e.Full? && Setting(hash, s, m, j, e, z, goal, swapped) && s[j].Empty?
    ensures Table(hash, s[j := e]) && Represents(s[j := e], goal) && e.key !in m
  {
    if !swapped { SeekInserts(hash, s, m, j, e, z, goal); }
    PlaceStep(hash, s, m, j, e, z, goal);
  }

  lemma SetHit<K(!new), V>(hash: K -> nat, s: seq<Slot<K, V>>, m: map<K, V>, j: nat, e: Slot<K, V>, z: nat,
      goal: map<K, V>, swapped: bool)
    requires j < |s| && e.Full? && Setting(hash, s, m, j, e, z, goal, swapped) && s[j].Full? && s[j].key == e.key
    ensures !swapped
    ensures var s' := s[j := s[j].(key := e.key, val := e.val)];
            && Table(hash, s') && Represents(s', goal)
            && e.key in m && m[e.key] == s[j].val
  {
    assert Represents(s, m);
    assert !swapped;
    SeekHit(hash, s, m, j, e, z, goal);
  }

  lemma SetSwap<K(!new), V>(hash: K -> nat, s: seq<Slot<K, V>>, m: map<K, V>, j: nat, e: Slot<K, V>, z: nat,
      goal: map<K, V>, swapped: bool)
    returns (m': map<K, V>)
    requires j < |s| && z < |s| && e.Full? && Setting(hash, s, m, j, e, z, goal, swapped) && s[j].Full?
    requires s[j].dib < e.dib
    ensures e.key !in m
    ensures Setting(hash, s[j := e], m', Next(j, |s|), s[j].(dib := s[j].dib + 1), z, goal, true)
    ensures Dist(Next(j, |s|), z, |s|) < Dist(j, z, |s|)
  {
    if !swapped { SeekInserts(hash, s, m, j, e, z, goal); }
    m' := SwapStep(hash, s, m, j, e, z, goal);
  }

  lemma SetPass<K(!new), V>(hash: K -> nat, s: seq<Slot<K, V>>, m: map<K, V>, j: nat, e: Slot<K, V>, z: nat,
      goal: map<K, V>, swapped: bool)
    requires j < |s| && z < |s| && e.Full? && Setting(hash, s, m, j, e, z, goal, swapped)
    requires s[j].Full? && s[j].dib >= e.dib && s[j].key != e.key
    ensures Setting(hash, s, m, Next(j, |s|), e.(dib := e.dib + 1), z, goal, swapped)
    ensures Dist(Next(j, |s|), z, |s|) < Dist(j, z, |s|)
  {
    if swapped { PassStep(hash, s, m, j, e, z, goal); } else { SeekPass(hash, s, m, j, e, z, goal); }
  }

  /** The stored hash of an item equals the hash in hand whenever the keys are equal. */
  lemma SetHash<K(!new), V>(hash: K -> nat, s: seq<Slot<K, V>>, m: map<K, V>, j: nat, e: Slot<K, V>, z: nat,
      goal: map<K, V>, swapped: bool)
    requires j < |s| && e.Full? && Setting(hash, s, m, j, e, z, goal, swapped) && s[j].Full?
    ensures s[j].key == e.key ==> s[j].hash == e.hash
  {
    assert SlotOk(hash, s, j);
  }

  // ---------------------------------------------------------------- resize

  ghost predicate AmongFirst<K, V>(s: seq<Slot<K, V>>, i: nat, k: K) {
    exists j :: 0 <= j < i <= |s| && s[j].Full? && s[j].key == k
  }

  /** mi is the part of m held by the first i buckets. */
  ghost predicate Part<K, V>(s: seq<Slot<K, V>>, m: map<K, V>, i: nat, mi: map<K, V>) {
    && i <= |s|
    && (forall k :: k in mi ==> k in m && m[k] == mi[k] && AmongFirst(s, i, k))
    && (forall j :: 0 <= j < i && s[j].Full? ==> s[j].key in mi)
  }

  lemma PartNext<K(!new), V>(hash: K -> nat, s: seq<Slot<K, V>>, m: map<K, V>, i: nat, mi: map<K, V>)
    requires Table(hash, s) && Represents(s, m) && Part(s, m, i, mi) && i < |s|
    ensures |mi| <= |m|
    ensures if s[i].Empty? then Part(s, m, i + 1, mi)
            else s[i].hash == hash(s[i].key) && s[i].key !in mi && Part(s, m, i + 1, mi[s[i].key := s[i].val])
  {
    assert |mi| <= |m| by { SubsetSize(mi.Keys, m.Keys); }
    assert s[i].Full? ==> s[i].hash == hash(s[i].key) by { assert SlotOk(hash, s, i); }
    assert s[i].Full? ==> s[i].key in m && m[s[i].key] == s[i].val;
    hide SlotsOk, Smooth, Represents, AmongFirst;
    if s[i].Full? { PartFull(s, m, i, mi); } else { PartMore(s, i); }
  }

  lemma PartMore<K, V>(s: seq<Slot<K, V>>, i: nat)
    requires i < |s|
    ensures forall k :: AmongFirst(s, i, k) ==> AmongFirst(s, i + 1, k)
  {
    forall k | AmongFirst(s, i, k) ensures AmongFirst(s, i + 1, k) {
      var j :| 0 <= j < i <= |s| && s[j].Full? && s[j].key == k;
    }
  }

  lemma PartFull<K, V>(s: seq<Slot<K, V>>, m: map<K, V>, i: nat, mi: map<K, V>)
    requires UniqueKeys(s) && Part(s, m, i, mi) && i < |s| && s[i].Full? && s[i].key in m && m[s[i].key] == s[i].val
    ensures s[i].key !in mi && Part(s, m, i + 1, mi[s[i].key := s[i].val])
  {
    PartMore(s, i);
    assert !AmongFirst(s, i, s[i].key);
    assert AmongFirst(s, i + 1, s[i].key);
  }

  lemma PartNone<K, V>(s: seq<Slot<K, V>>, m: map<K, V>)
    ensures Part(s, m, 0, map[])
  {
  }

  lemma PartWhole<K, V>(s: seq<Slot<K, V>>, m: map<K, V>, mi: map<K, V>)
    requires Represents(s, m) && Part(s, m, |s|, mi)
    ensures mi == m
  {
    forall k | k in m ensures k in mi { assert HasKey(s, k); }
  }

  lemma {:induction false} SubsetSize<T>(a: set<T>, b: set<T>)
    requires a <= b
    ensures |a| <= |b|
    decreases |a|
  {
    if a != {} {
      var x :| x in a;
      SubsetSize(a - {x}, b - {x});
    }
  }

  lemma EmptyTable<K(!new), V>(hash: K -> nat, s: seq<Slot<K, V>>)
    requires |s| >= 2 && forall i :: 0 <= i < |s| ==> s[i] == Empty
    ensures Table(hash, s) && Represents(s, map[])
  {
  }

  /** A table represents one map only, so its contents are a function of the buckets. */
  lemma RepresentsOne<K, V>(s: seq<Slot<K, V>>, m: map<K, V>, m': map<K, V>)
    requires Represents(s, m) && Represents(s, m')
    ensures m == m'
  {
    forall k | k in m || k in m' ensures k in m && k in m' && m[k] == m'[k] {
      assert HasKey(s, k);
    }
  }

  /** The 16-bit dib field never overflows in a table of at most 2^16 buckets that is at most
      half full, not even in the item in hand. */
  lemma DibFits<K(!new), V>(hash: K -> nat, s: seq<Slot<K, V>>, m: map<K, V>, j: nat, e: Slot<K, V>, z: nat,
      goal: map<K, V>, swapped: bool)
    requires j < |s| <= 0x1_0000 && e.Full? && Setting(hash, s, m, j, e, z, goal, swapped) && |m| <= |s| / 2
    ensures e.dib < 0x1_0000 && forall i :: 0 <= i < |s| ==> Dib(s[i]) < 0x1_0000
  {
    forall i | 0 <= i < |s| ensures Dib(s[i]) <= |m| { DibAtMostCount(hash, s, m, i); }
  }

  /**
   struct hashmap. An item's key stands for its class under `compare`, and `hash` is any function
   of the key. hmmalloc may fail: whether it does is the `mem` argument.
   */
  class HashMap<K(==, !new), V> {
    const hash: K -> nat
    const cap: nat
    var buckets: array<Slot<K, V>>
    var count: nat
    var growat: nat
    var shrinkat: nat
    var oom: bool
    ghost var contents: map<K, V>

    ghost predicate Shape()
      reads this
    {
      && PowerOfTwo(cap) && cap >= 16
      && PowerOfTwo(buckets.Length) && buckets.Length >= cap
      && growat == buckets.Length / 2 && shrinkat == buckets.Length / 10
      && count == |contents|
    }

    ghost predicate Valid()
      reads this, buckets
    {
      && Shape() && count <= growat
      && Table(hash, buckets[..]) && Represents(buckets[..], contents)
    }

    /** hashmap_new, when memory is available. */
    constructor (cap: nat, hash: K -> nat)
      ensures Valid() && fresh(buckets) && contents == map[] && !oom && this.hash == hash
      ensures this.cap >= cap && buckets.Length == this.cap
    {
      var n := TableSize(cap);
      this.hash := hash;
      this.cap := n;
      buckets := new Slot<K, V>[n](_ => Empty);
      count, growat, shrinkat, oom := 0, n / 2, n / 10, false;
      contents := map[];
      new;
      EmptyTable(hash, buckets[..]);
    }

    /** resize, to a size that is a power of two and leaves the table at most half full. */
    method Resize(newCap: nat, mem: bool) returns (ok: bool)
      requires Shape() && Table(hash, buckets[..]) && Represents(buckets[..], contents)
      requires PowerOfTwo(newCap) && newCap >= cap && 2 * count <= newCap
      modifies `buckets, `growat, `shrinkat
      ensures ok == mem
      ensures Shape() && Table(hash, buckets[..]) && Represents(buckets[..], contents)
      ensures if ok then fresh(buckets) && buckets.Length == newCap
              else buckets == old(buckets) && growat == old(growat) && shrinkat == old(shrinkat)
    {
      if !mem { return false; }
      var n := TableSize(newCap);
      ExactSize(newCap, n);
      var b := Rehash(n);
      buckets := b;
      growat, shrinkat := n / 2, n / 10;
      ok := true;
    }

    /** resize's inner loop: insert an item whose key is not in the new table. */
    method Reinsert(a: array<Slot<K, V>>, item: Slot<K, V>, ghost m: map<K, V>)
      requires Table(hash, a[..]) && Represents(a[..], m) && |m| < a.Length
      requires item.Full? && item.hash == hash(item.key) && item.key !in m
      modifies a
      ensures Table(hash, a[..]) && Represents(a[..], m[item.key := item.val])
    {
      hide *;
      var n := a.Length;
      ghost var z := StartInserting(hash, a[..], m, item);
      var entry := Full(item.hash, 1, item.key, item.val);
      var j: nat := Home(entry.hash, n);
      ghost var m', goal := m, m[item.key := item.val];   // the table holds m', short of the item in hand
      while true
        invariant j < n && entry.Full? && z < n
        invariant Inserting(hash, a[..], m', j, entry, z, goal)
        decreases Dist(j, z, n)
      {
        ghost var s := a[..];
        var bucket := a[j];
        if bucket.Empty? {
          PlaceStep(hash, s, m', j, entry, z, goal);
          a[j] := entry;
          assert a[..] == s[j := entry];
          return;
        }
        if bucket.dib < entry.dib {
          m' := SwapStep(hash, s, m', j, entry, z, goal);
          a[j] := entry;
          assert a[..] == s[j := entry];
          entry := bucket;
        } else {
          PassStep(hash, s, m', j, entry, z, goal);
        }
        j := Next(j, n);
        entry := entry.(dib := entry.dib + 1);
      }
    }

    /** resize's two loops: every item of the table, inserted into n fresh buckets. */
    method Rehash(n: nat) returns (b: array<Slot<K, V>>)
      requires Table(hash, buckets[..]) && Represents(buckets[..], contents) && |contents| < n && n >= 2
      ensures fresh(b) && b.Length == n
      ensures Table(hash, b[..]) && Represents(b[..], contents)
    {
      hide *;
      b := new Slot<K, V>[n](_ => Empty);
      EmptyTable(hash, b[..]);
      ghost var mi := map[];
      ghost var s := buckets[..];
      PartNone(s, contents);
      var i := 0;
      while i < buckets.Length
        invariant 0 <= i <= |s| == buckets.Length && s == buckets[..]
        invariant fresh(b) && b.Length == n
        invariant Part(s, contents, i, mi)
        invariant Table(hash, b[..]) && Represents(b[..], mi)
      {
        PartNext(hash, s, contents, i, mi);
        var item := buckets[i];
        if !item.Empty? {
          Reinsert(b, item, mi);
          mi := mi[item.key := item.val];
        }
        i := i + 1;
      }
      PartWhole(s, contents, mi);
    }

    /** hashmap_get: the item for the key, if there is one. */
    method Get(k: K) returns (r: Option<V>)
      requires Valid()
      ensures r == if k in contents then Some(contents[k]) else None
    {
      var h := hash(k);
      var n := buckets.Length;
      ghost var s := buckets[..];
      var i: nat := Home(h, n);
      ghost var z := LookStart(hash, s, contents, k);
      while true
        invariant i < n && z < n && Looking(hash, s, contents, k, i, z)
        decreases Dist(i, z, n)
      {
        hide *;
        var b := buckets[i];
        assert b == s[i];
        if b.Empty? {
          LookEmpty(hash, s, contents, k, i, z);
          return None;
        }
        LookHit(hash, s, contents, k, i, z);
        if b.hash == h && b.key == k {
          return Some(b.val);
        }
        LookNext(hash, s, contents, k, i, z);
        i := Next(i, n);
      }
    }

    /** hashmap_set's loop. */
    method Insert(k: K, v: V) returns (r: Option<V>)
      requires Table(hash, buckets[..]) && Represents(buckets[..], contents)
      requires |contents| < buckets.Length && count == |contents|
      modifies `count, `contents, buckets
      ensures Table(hash, buckets[..]) && Represents(buckets[..], contents)
      ensures contents == old(contents)[k := v]
      ensures r == if k in old(contents) then Some(old(contents)[k]) else None
      ensures count == old(count) + if k in old(contents) then 0 else 1
    {
      hide *;
      var n := buckets.Length;
      var entry := Full(hash(k), 1, k, v);
      var i: nat := Home(entry.hash, n);
      ghost var z := SeekStart(hash, buckets[..], contents, k, v);
      ghost var m, goal, swapped := contents, contents[k := v], false;
      SettingStart(hash, buckets[..], contents, i, entry, z, goal);
      while true
        invariant i < n && z < n && entry.Full?
        invariant Setting(hash, buckets[..], m, i, entry, z, goal, swapped)
        invariant if swapped then k !in contents else m == contents && entry.key == k && entry.val == v
        invariant contents == old(contents) && count == old(count)
        decreases Dist(i, z, n)
      {
        ghost var s := buckets[..];
        var b := buckets[i];
        if b.Empty? {
          SetEmpty(hash, s, m, i, entry, z, goal, swapped);
          buckets[i] := entry;
          assert buckets[..] == s[i := entry];
          contents := goal;
          count := count + 1;
          return None;
        }
        SetHash(hash, s, m, i, entry, z, goal, swapped);
        if entry.hash == b.hash && entry.key == b.key {
          SetHit(hash, s, m, i, entry, z, goal, swapped);
          buckets[i] := b.(key := entry.key, val := entry.val);
          assert buckets[..] == s[i := s[i].(key := entry.key, val := entry.val)];
          contents := goal;
          return Some(b.val);
        }
        if b.dib < entry.dib {
          m := SetSwap(hash, s, m, i, entry, z, goal, swapped);
          buckets[i] := entry;
          assert buckets[..] == s[i := entry];
          entry := b;
          swapped := true;
        } else {
          SetPass(hash, s, m, i, entry, z, goal, swapped);
        }
        i := Next(i, n);
        entry := entry.(dib := entry.dib + 1);
      }
    }

    /** hashmap_set: insert or replace; only a failed allocation while growing leaves the map as it was. */
    method Set(k: K, v: V, mem: bool) returns (r: Option<V>)
      requires Valid()
      modifies this, buckets
      ensures Valid() && (buckets == old(buckets) || fresh(buckets))
      ensures oom == (old(count == growat) && !mem)
      ensures contents == if oom then old(contents) else old(contents)[k := v]
      ensures r == if !oom && k in old(contents) then Some(old(contents)[k]) else None
      ensures buckets.Length == if old(count == growat) && mem then 2 * old(buckets.Length) else old(buckets.Length)
    {
      oom := false;
      if count == growat {
        PowerHalf(buckets.Length);
        var ok := Resize(2 * buckets.Length, mem);
        if !ok {
          oom := true;
          return None;
        }
      }
      r := Insert(k, v);
      assert |old(contents)[k := v]| == |old(contents)| + if k in old(contents) then 0 else 1;
    }

    /** The backward shift that closes the gap left by bucket i. */
    method ShiftDown(start: nat, ghost m: map<K, V>)
      requires start < buckets.Length
      requires Table(hash, buckets[..]) && Represents(buckets[..], m) && |m| < buckets.Length && buckets[start].Full?
      modifies buckets
      ensures Table(hash, buckets[..]) && Represents(buckets[..], m - {old(buckets[start]).key})
    {
      hide *;
      var n := buckets.Length;
      ghost var m' := m - {buckets[start].key};
      ghost var h, z := ShiftStart(hash, buckets[..], m, start);
      ghost var s0 := buckets[..];
      buckets[start] := Empty;
      assert buckets[..] == s0[start := Empty];
      var i: nat := start;
      while true
        invariant i < n && z < n
        invariant Shifting(hash, buckets[..], m', i, h, z)
        decreases Dist(i, z, n)
      {
        ghost var s := buckets[..];
        var prev := i;
        i := Next(i, n);
        var b := buckets[i];
        if b.Empty? || b.dib <= 1 {
          ShiftEnd(hash, s, m', prev, h, z);
          buckets[prev] := Empty;
          assert buckets[..] == s[prev := Empty];
          return;
        }
        ShiftStep(hash, s, m', prev, h, z);
        buckets[prev] := b.(dib := b.dib - 1);
        assert buckets[..] == s[prev := s[i].(dib := s[i].dib - 1)];
        h := b.dib;
      }
    }

    /** hashmap_delete; a failed allocation while shrinking is ignored. */
    method Delete(k: K, mem: bool) returns (r: Option<V>)
      requires Valid()
      modifies this, buckets
      ensures Valid() && (buckets == old(buckets) || fresh(buckets)) && !oom
      ensures contents == old(contents) - {k}
      ensures r == if k in old(contents) then Some(old(contents)[k]) else None
      ensures buckets.Length == if r.Some? && mem && old(buckets.Length) > cap && |contents| <= old(shrinkat)
                                then old(buckets.Length) / 2 else old(buckets.Length)
    {
      oom := false;
      var i := Find(k);
      if i.None? {
        assert contents - {k} == contents;
        return None;
      }
      r := Some(buckets[i.value].val);
      TakeOut(i.value, k);
      if buckets.Length > cap && count <= shrinkat {
        PowerHalf(buckets.Length);
        PowerOrder(cap, buckets.Length);
        var ok := Resize(buckets.Length / 2, mem);
      }
    }

    method TakeOut(i: nat, k: K)
      requires Valid() && i < buckets.Length && buckets[i].Full? && buckets[i].key == k && k in contents
      modifies this`contents, this`count, buckets
      ensures Valid() && contents == old(contents) - {k}
    {
      hide Table, Represents, PowerOfTwo;
      ShiftDown(i, contents);
      contents := contents - {k};
      count := count - 1;
      assert old(contents).Keys == contents.Keys + {k};
    }

    /** hashmap_delete's search. */
    method Find(k: K) returns (r: Option<nat>)
      requires Valid()
      ensures r.None? <==> k !in contents
      ensures r.Some? ==> r.value < buckets.Length && buckets[r.value].Full?
                          && buckets[r.value].key == k && buckets[r.value].val == contents[k]
    {
      var h := hash(k);
      var n := buckets.Length;
      ghost var s := buckets[..];
      var i: nat := Home(h, n);
      ghost var z := LookStart(hash, s, contents, k);
      while true
        invariant i < n && z < n && Looking(hash, s, contents, k, i, z)
        decreases Dist(i, z, n)
      {
        hide *;
        var b := buckets[i];
        assert b == s[i];
        if b.Empty? {
          LookEmpty(hash, s, contents, k, i, z);
          return None;
        }
        LookHit(hash, s, contents, k, i, z);
        if b.hash == h && b.key == k {
          return Some(i);
        }
        LookNext(hash, s, contents, k, i, z);
        i := Next(i, n);
      }
    }
  }
}
