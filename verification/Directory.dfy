/**
 Directories (kernel/fs/fs.c:520-584): files of 16-byte entries, an inode number and
 a name of up to 14 bytes. An entry with inode number 0 is empty. What is proved is
 that dirlookup and dirlink act on the finite map from names to inode numbers that
 the entries spell out.
 */
module Directory {
  import opened Common
  import opened InodeLayer

  const DIRSIZ: nat := 14
  const ENTRY: nat := 16

  // ---------------------------------------------------------------- names

  /** A C string. */
  predicate IsName(name: seq<Byte>) { forall i :: 0 <= i < |name| ==> name[i] != 0 }

  /** The part of a name field before the first 0. */
  function Trim(field: seq<Byte>): (r: seq<Byte>)
    ensures IsName(r) && |r| <= |field|
  {
    if |field| == 0 || field[0] == 0 then [] else [field[0]] + Trim(field[1..])
  }

  /** What of a name counts: its first 14 bytes. */
  function Key(name: seq<Byte>): (r: seq<Byte>)
    ensures |r| <= DIRSIZ && (IsName(name) ==> IsName(r))
  {
    if |name| > DIRSIZ then name[..DIRSIZ] else name
  }

  /** strncpy(field, name, DIRSIZ) */
  function Pad(name: seq<Byte>): (r: seq<Byte>)
    ensures |r| == DIRSIZ
  {
    Key(name) + seq(DIRSIZ - |Key(name)|, i => 0)
  }

  lemma {:induction false} TrimAppend(name: seq<Byte>, zeros: seq<Byte>)
    requires IsName(name) && forall i :: 0 <= i < |zeros| ==> zeros[i] == 0
    ensures Trim(name + zeros) == name
  {
    if |name| == 0 {
      assert name + zeros == zeros;
    } else {
      assert (name + zeros)[1..] == name[1..] + zeros;
      TrimAppend(name[1..], zeros);
    }
  }

  lemma PadTrim(name: seq<Byte>)
    requires IsName(name)
    ensures Trim(Pad(name)) == Key(name)
  {
    TrimAppend(Key(name), seq(DIRSIZ - |Key(name)|, i => 0));
  }

  // ---------------------------------------------------------------- entries

  function Entries(c: seq<Byte>): nat { |c| / ENTRY }

  function Inum(c: seq<Byte>, k: nat): nat
    requires k < Entries(c)
  {
    Word2(c[16 * k], c[16 * k + 1])
  }

  function Word2(lo: int, hi: int): int { lo + 256 * hi }

  function NameAt(c: seq<Byte>, k: nat): seq<Byte>
    requires k < Entries(c)
  {
    Trim(c[16 * k + 2..16 * k + 16])
  }

  /** An entry in use with this name. */
  predicate Hit(c: seq<Byte>, k: nat, key: seq<Byte>)
    requires k < Entries(c)
  {
    Inum(c, k) != 0 && NameAt(c, k) == key
  }

  /** The inode number of a name: that of the first entry for it. */
  function Lookup(c: seq<Byte>, key: seq<Byte>, from: nat): Option<nat>
    requires from <= Entries(c)
    decreases Entries(c) - from
  {
    if from == Entries(c) then None
    else if Hit(c, from, key) then Some(Inum(c, from))
    else Lookup(c, key, from + 1)
  }

  /** The first entry not in use, or the end. */
  function FirstEmpty(c: seq<Byte>, from: nat): (k: nat)
    requires from <= Entries(c)
    ensures from <= k <= Entries(c) && (k < Entries(c) ==> Inum(c, k) == 0)
    ensures forall j :: from <= j < k ==> Inum(c, j) != 0
    decreases Entries(c) - from
  {
    if from == Entries(c) || Inum(c, from) == 0 then from else FirstEmpty(c, from + 1)
  }

  /** An entry's 16 bytes. The inode number is cut to 16 bits. */
  function Encode(name: seq<Byte>, inum: nat): (r: seq<Byte>)
    ensures |r| == ENTRY
  {
    [inum % 256, inum / 256 % 256] + Pad(name)
  }

  lemma EncodeRoundTrip(name: seq<Byte>, inum: nat)
    requires IsName(name)
    ensures Inum(Encode(name, inum), 0) == inum % 0x1_0000 && NameAt(Encode(name, inum), 0) == Key(name)
  {
    hide Trim, Pad, Key;
    PadTrim(name);
    var e := Encode(name, inum);
    assert e[2..16] == Pad(name);
    LowHalf(inum);
  }

  lemma LowHalf(n: nat)
    ensures Word2(n % 256, n / 256 % 256) == n % 0x1_0000
  {
  }

  /** The directory after dirlink. */
  function Linked(c: seq<Byte>, name: seq<Byte>, inum: nat): (r: seq<Byte>)
    requires |c| % ENTRY == 0
  {
    Overwrite(c, 16 * FirstEmpty(c, 0), Encode(name, inum))
  }

  lemma LinkedSize(c: seq<Byte>, name: seq<Byte>, inum: nat)
    requires |c| % ENTRY == 0
    ensures var e := FirstEmpty(c, 0);
            Entries(Linked(c, name, inum)) == if e == Entries(c) then Entries(c) + 1 else Entries(c)
  {
    hide Overwrite, FirstEmpty, Encode, Inum;
  }

  lemma NewEntry(c: seq<Byte>, name: seq<Byte>, inum: nat)
    requires |c| % ENTRY == 0 && IsName(name)
    ensures var e, c' := FirstEmpty(c, 0), Linked(c, name, inum);
            e < Entries(c') && Inum(c', e) == inum % 0x1_0000 && NameAt(c', e) == Key(name)
  {
    hide Overwrite, Trim, Pad, FirstEmpty, Encode, Key, Word2, NameAt, Inum;
    LinkedSize(c, name, inum);
    var e, c' := FirstEmpty(c, 0), Linked(c, name, inum);
    EncodeRoundTrip(name, inum);
    assert c'[16 * e..16 * e + 16] == Encode(name, inum);
    EntryAt(c', e);
  }

  lemma OldEntry(c: seq<Byte>, name: seq<Byte>, inum: nat, k: nat)
    requires |c| % ENTRY == 0 && k < Entries(c) && k != FirstEmpty(c, 0)
    ensures var c' := Linked(c, name, inum);
            k < Entries(c') && Inum(c', k) == Inum(c, k) && NameAt(c', k) == NameAt(c, k)
  {
    hide Overwrite, Trim, Pad, FirstEmpty, Encode, Key, Word2, NameAt, Inum;
    LinkedSize(c, name, inum);
    var c' := Linked(c, name, inum);
    assert c'[16 * k..16 * k + 16] == c[16 * k..16 * k + 16];
    EntryAt(c, k);
    EntryAt(c', k);
  }

  /** Entries of the linked directory. */
  lemma LinkedEntries(c: seq<Byte>, name: seq<Byte>, inum: nat, k: nat)
    requires |c| % ENTRY == 0 && IsName(name)
    ensures var e := FirstEmpty(c, 0);
            Entries(Linked(c, name, inum)) == if e == Entries(c) then Entries(c) + 1 else Entries(c)
    ensures var e, c' := FirstEmpty(c, 0), Linked(c, name, inum);
            && (k == e ==> Inum(c', k) == inum % 0x1_0000 && NameAt(c', k) == Key(name))
            && (k < Entries(c) && k != e ==> Inum(c', k) == Inum(c, k) && NameAt(c', k) == NameAt(c, k))
  {
    hide Linked, FirstEmpty, NameAt, Inum, Key;
    LinkedSize(c, name, inum);
    NewEntry(c, name, inum);
    if k < Entries(c) && k != FirstEmpty(c, 0) {
      OldEntry(c, name, inum, k);
    }
  }

  lemma {:induction false} LinkedLookup(c: seq<Byte>, name: seq<Byte>, inum: nat, key: seq<Byte>, from: nat)
    requires |c| % ENTRY == 0 && IsName(name) && from <= Entries(c) && from <= Entries(Linked(c, name, inum))
    requires Lookup(c, Key(name), from) == None
    ensures Lookup(Linked(c, name, inum), key, from) ==
              if key == Key(name) && inum % 0x1_0000 != 0 && from <= FirstEmpty(c, 0) then Some(inum % 0x1_0000)
                  else Lookup(c, key, from)
    decreases Entries(c) - from
  {
    hide Overwrite, NameAt, Inum, Linked, FirstEmpty, Key;
    LinkedEntries(c, name, inum, from);
    if from < Entries(c) {
      LinkedLookup(c, name, inum, key, from + 1);
    } else if from < Entries(Linked(c, name, inum)) {
      assert Lookup(Linked(c, name, inum), key, from + 1) == None;
    }
  }

  /**
   dirlink of a name that is not there extends the directory's map by it and keeps the
   rest: for every name, what dirlookup finds afterwards is what the extended map says.
   */
  lemma LinkExtends(c: seq<Byte>, name: seq<Byte>, inum: nat, key: seq<Byte>)
    requires |c| % ENTRY == 0 && IsName(name) && Lookup(c, Key(name), 0) == None && 0 < inum < 0x1_0000
    ensures Lookup(Linked(c, name, inum), key, 0) == if key == Key(name) then Some(inum) else Lookup(c, key, 0)
  {
    hide Linked, FirstEmpty, Lookup, Key;
    LinkedLookup(c, name, inum, key, 0);
  }

  /** No name has two entries. */
  predicate Unique(c: seq<Byte>) {
    forall j: nat, k: nat ::
        j < Entries(c) && k < Entries(c) && Inum(c, j) != 0 && Inum(c, k) != 0 && NameAt(c, j) == NameAt(c, k) ==>
        j == k
  }

  lemma {:induction false} LookupNone(c: seq<Byte>, key: seq<Byte>, from: nat)
    requires from <= Entries(c) && Lookup(c, key, from) == None
    ensures forall k :: from <= k < Entries(c) ==> !Hit(c, k, key)
    decreases Entries(c) - from
  {
    if from < Entries(c) {
      LookupNone(c, key, from + 1);
    }
  }

  lemma LinkUnique(c: seq<Byte>, name: seq<Byte>, inum: nat)
    requires |c| % ENTRY == 0 && IsName(name) && Lookup(c, Key(name), 0) == None && Unique(c)
    ensures Unique(Linked(c, name, inum))
  {
    hide Overwrite, NameAt, Inum, Linked, FirstEmpty, Key, Lookup;
    LookupNone(c, Key(name), 0);
    var c' := Linked(c, name, inum);
    forall j: nat, k: nat | j < Entries(c') && k < Entries(c') && Inum(c', j) != 0 && Inum(c', k) != 0
        && NameAt(c', j) == NameAt(c', k)
      ensures j == k
    {
      LinkedEntries(c, name, inum, j);
      LinkedEntries(c, name, inum, k);
      if j < Entries(c) {
        assert Hit(c, j, Key(name)) || Inum(c, j) == 0 || NameAt(c, j) != Key(name);
      }
      if k < Entries(c) {
        assert Hit(c, k, Key(name)) || Inum(c, k) == 0 || NameAt(c, k) != Key(name);
      }
    }
  }

  // ---------------------------------------------------------------- the code

  /** An entry's bytes are the directory's. */
  lemma EntryAt(c: seq<Byte>, k: nat)
    requires k < Entries(c)
    ensures var e := c[16 * k..16 * k + 16]; Entries(e) == 1 && Inum(e, 0) == Inum(c, k) && NameAt(e, 0) == NameAt(c, k)
  {
    var e := c[16 * k..16 * k + 16];
    assert e[2..16] == c[16 * k + 2..16 * k + 16];
  }

  /**
   dirlookup: the inode number of a name, and nothing changes. It panics only when the
   directory's size is not a multiple of the entry size.
   */
  method Dirlookup(fs: FileSystem, dp: nat, name: seq<Byte>) returns (inum: Option<nat>)
    requires Inv(fs.View()) && !fs.panicked && dp < |fs.inodes| && IsName(name)
    modifies fs
    ensures fs.View() == old(fs.View()) && Shape(fs.View())
    ensures fs.panicked ==> fs.inodes[dp].size % ENTRY != 0
    ensures !fs.panicked && fs.inodes[dp].size % ENTRY == 0 ==> inum == Lookup(Content(fs.View(), dp), Key(name), 0)
    ensures !fs.panicked && fs.inodes[dp].size % ENTRY != 0 ==> inum.Some?
  {
    hide Inv, Content, NameAt, Inum, Key, Hit;
    InvParts(fs.View());
    SizeBound(fs.View(), dp);
    ghost var c := Content(fs.View(), dp);
    var k: nat := 0;
    inum := None;
    while 16 * k < fs.inodes[dp].size
      invariant fs.View() == old(fs.View()) && !fs.panicked && 16 * k <= fs.inodes[dp].size
      invariant fs.inodes[dp].size % ENTRY == 0 ==>
          k <= Entries(c) && Lookup(c, Key(name), 0) == Lookup(c, Key(name), k)
      decreases fs.inodes[dp].size - 16 * k
    {
      var n, e := fs.Readi(dp, 16 * k, ENTRY, ENTRY);
      if n != ENTRY {
        fs.panicked := true;
        return;
      }
      EntryAt(c, k);
      HitEntry(c, k, Key(name));
      if Inum(e, 0) != 0 && NameAt(e, 0) == Key(name) {
        return Some(Inum(e, 0));
      }
      k := k + 1;
    }
  }

  lemma HitEntry(c: seq<Byte>, k: nat, key: seq<Byte>)
    requires k < Entries(c)
    ensures Hit(c, k, key) <==> Inum(c, k) != 0 && NameAt(c, k) == key
  {
  }

  lemma SizeBound(s: State, i: nat)
    requires Shape(s) && i < |s.inodes|
    ensures s.inodes[i].size <= MAXFILE * BSIZE
  {
  }

  /** An entry at this offset would be past the largest file, or the disk has too few blocks for it. */
  predicate NoRoom(s: State, dp: nat, at: nat)
    requires Shape(s) && dp < |s.inodes|
  {
    at + ENTRY > MAXFILE * BSIZE || |FreeSet(s.used)| < |Missing(s, dp, Needed(at, ENTRY))|
  }

  /**
   dirlink: fails, changing nothing, exactly when the name is there; otherwise the
   directory becomes the linked one and no other file changes. On a well-formed
   directory it panics exactly when the name is not there and there is no room for it.
   */
  method Dirlink(fs: FileSystem, dp: nat, name: seq<Byte>, inum: nat) returns (res: int)
    requires Inv(fs.View()) && !fs.panicked && dp < |fs.inodes| && IsName(name)
    modifies fs
    ensures old(fs.inodes)[dp].size % ENTRY != 0 ==> fs.panicked || (res == -1 && fs.View() == old(fs.View()))
    ensures var c := Content(old(fs.View()), dp);
            && (|c| % ENTRY == 0 ==>
                  (fs.panicked <==>
                     Lookup(c, Key(name), 0) == None && NoRoom(old(fs.View()), dp, 16 * FirstEmpty(c, 0))))
            && (!fs.panicked && |c| % ENTRY == 0 ==>
                  && Inv(fs.View()) && |fs.inodes| == |old(fs.inodes)|
                  && res == (if Lookup(c, Key(name), 0) == None then 0 else -1)
                  && Content(fs.View(), dp) == (if res == 0 then Linked(c, name, inum) else c)
                  && (forall j: nat :: j < |fs.inodes| && j != dp ==>
                      Content(fs.View(), j) == Content(old(fs.View()), j)))
  {
    hide Inv, Content, NameAt, Inum, Key, Hit, Lookup, Encode, AllUsed, Overwrite, FirstEmpty;
    ghost var s := fs.View();
    InvParts(s);
    SizeBound(s, dp);
    ghost var c := Content(s, dp);
    var found := Dirlookup(fs, dp, name);
    if fs.panicked {
      return 0;
    }
    if found.Some? {
      return -1;
    }
    var k: nat := 0;
    while 16 * k < fs.inodes[dp].size
      invariant fs.View() == s && !fs.panicked && k <= Entries(c) && FirstEmpty(c, 0) == FirstEmpty(c, k)
      decreases fs.inodes[dp].size - 16 * k
    {
      var n, e := fs.Readi(dp, 16 * k, ENTRY, ENTRY);
      EntryAt(c, k);
      EmptyStep(c, k);
      if Inum(e, 0) == 0 {
        break;
      }
      k := k + 1;
    }
    EmptyStep(c, k);
    var n := fs.Writei(dp, 16 * k, Encode(name, inum), ENTRY);
    if n != ENTRY {
      fs.panicked := true;
      return 0;
    }
    res := 0;
  }

  lemma EmptyStep(c: seq<Byte>, k: nat)
    requires k <= Entries(c)
    ensures FirstEmpty(c, k) == if k == Entries(c) || Inum(c, k) == 0 then k else FirstEmpty(c, k + 1)
  {
    hide Inum;
  }
}
