/**
 The Internet checksum (kernel/net/netutil.c:12-26; section 1 of RFC 1071) and
 its use on TCP segments (kernel/net/tcp.c:35-46, 131-145, 645-650).

 Machine integers are `nat` with the width written out.
 */
module Checksum {
  import opened Common

  const U16: nat := 0x1_0000
  const U32: nat := 0x1_0000_0000

  type Bytes = seq<Byte>

  // ---------------------------------------------------------------- what is summed

  /** A 16-bit word from its high and low bytes. */
  function Word(hi: int, lo: int): int {
    hi * 256 + lo
  }

  /** The sum of the big-endian 16-bit words; an odd last byte is the high byte of a word. */
  function WordSum(d: Bytes): (r: nat)
    decreases |d|
  {
    if |d| == 0 then 0
    else if |d| == 1 then Word(d[0], 0)
    else Word(d[0], d[1]) + WordSum(d[2..])
  }

  lemma {:induction false} WordSumBound(d: Bytes)
    ensures WordSum(d) <= ((|d| + 1) / 2) * 65535
    decreases |d|
  {
    if |d| >= 2 { WordSumBound(d[2..]); }
  }

  lemma {:induction false} WordSumConcat(a: Bytes, b: Bytes)
    requires |a| % 2 == 0
    ensures WordSum(a + b) == WordSum(a) + WordSum(b)
    decreases |a|
  {
    if |a| == 0 {
      assert a + b == b;
    } else {
      assert (a + b)[2..] == a[2..] + b;
      WordSumConcat(a[2..], b);
    }
  }

  /** One folding step: the carries are added back in. */
  function Fold(sum: nat): nat {
    sum % U16 + sum / U16
  }

  /** What cksum16 makes of a 32-bit total. */
  function Finish(total: nat): nat
    requires total < U32
  {
    U16 - 1 - Fold(Fold(total)) % U16
  }

  /** Two folds of a 32-bit total leave 16 bits, congruent to it modulo 65535, and 0 only for 0. */
  lemma TwoFolds(total: nat)
    requires total < U32
    ensures Fold(Fold(total)) < U16
    ensures Fold(Fold(total)) % 65535 == total % 65535
    ensures Fold(Fold(total)) == 0 <==> total == 0
  {
    FoldStep(total);
    FoldStep(Fold(total));
  }

  lemma FoldStep(x: nat)
    ensures Fold(x) % 65535 == x % 65535
    ensures Fold(x) == 0 <==> x == 0
    ensures x < U32 ==> Fold(x) < 2 * U16 - 1
  {
    var q, r := x / U16, x % U16;
    assert x == q * 65535 + Fold(x);
    ModPlusMultiple(Fold(x), q, 65535);
  }

  lemma ModPlusMultiple(x: nat, q: nat, m: nat)
    requires m > 0
    ensures (q * m + x) % m == x % m
    decreases q
  {
    if q > 0 {
      ModPlusMultiple(x, q - 1, m);
      assert q * m + x == ((q - 1) * m + x) + m;
      ModPlusOne((q - 1) * m + x, m);
    }
  }

  lemma ModPlusOne(x: nat, m: nat)
    requires m > 0
    ensures (x + m) % m == x % m
  {
    assert x + m == (x / m + 1) * m + x % m;
    ModOf(x + m, x / m + 1, x % m, m);
  }

  lemma ModOf(x: nat, q: nat, r: nat, m: nat)
    requires m > 0 && x == q * m + r && r < m
    ensures x % m == r
  {
    var q', r' := x / m, x % m;
    assert x == q' * m + r';
    assert (q + 1) * m == q * m + m && (q' + 1) * m == q' * m + m;
    if q' > q { MulLe(q + 1, q', m); }
    if q' < q { MulLe(q' + 1, q, m); }
  }

  lemma MulLe(a: nat, b: nat, m: nat)
    requires a <= b
    ensures a * m <= b * m
  {
    assert b * m == a * m + (b - a) * m;
  }

  // ---------------------------------------------------------------- cksum16

  /**
   cksum16 with its 32-bit accumulator. For every size a 16-bit length allows and every seed up to
   2^32 - 2^31 the accumulator does not overflow, so the result is that of the exact sum.
   */
  method Cksum16(data: Bytes, init: nat) returns (r: nat)
    requires |data| < U16 && init < 0x8000_0000
    ensures init + WordSum(data) < U32
    ensures r == Finish(init + WordSum(data)) && r < U16
  {
    hide WordSum;
    var sum := AddWords(data, init);
    TwoFolds(sum);
    sum := sum % U16 + sum / U16;
    sum := sum % U16 + sum / U16;
    r := U16 - 1 - sum % U16;
  }

  /** The loop of cksum16, and the odd byte. */
  method AddWords(data: Bytes, init: nat) returns (sum: nat)
    requires |data| < U16 && init < 0x8000_0000
    ensures sum == init + WordSum(data) < U32
  {
    hide WordSum, Word;
    TotalBound(data, init);
    assert data[..0] == [] && data[0..] == data;
    ShortSums(0);
    sum := init;
    var i := 0;
    while |data| - i > 1
      invariant 0 <= i <= |data| && i % 2 == 0
      invariant sum == init + WordSum(data[..i]) && WordSum(data) == WordSum(data[..i]) + WordSum(data[i..])
    {
      SumStep(data, i);
      AddWraps(sum, Word(data[i], 0));
      AddWraps(sum + Word(data[i], 0), data[i + 1]);
      sum := (sum + Word(data[i], 0)) % U32;
      sum := (sum + data[i + 1]) % U32;
      i := i + 2;
    }
    if |data| - i > 0 {
      assert data[i..] == [data[i]];
      ShortSums(data[i]);
      AddWraps(sum, Word(data[i], 0));
      sum := (sum + Word(data[i], 0)) % U32;
    } else {
      assert data[i..] == [];
    }
  }

  lemma SumStep(data: Bytes, i: nat)
    requires i + 1 < |data| && i % 2 == 0
    ensures WordSum(data[..i + 2]) == WordSum(data[..i]) + Word(data[i], data[i + 1])
    ensures WordSum(data) == WordSum(data[..i + 2]) + WordSum(data[i + 2..])
    ensures Word(data[i], data[i + 1]) == Word(data[i], 0) + data[i + 1] && Word(data[i], 0) >= 0
  {
    hide WordSum;
    var pair := [data[i], data[i + 1]];
    assert data[..i + 2] == data[..i] + pair;
    WordSumConcat(data[..i], pair);
    PairSum(data[i], data[i + 1]);
    assert data == data[..i + 2] + data[i + 2..];
    WordSumConcat(data[..i + 2], data[i + 2..]);
  }

  lemma TotalBound(data: Bytes, init: nat)
    requires |data| < U16 && init < 0x8000_0000
    ensures init + WordSum(data) < U32
  {
    hide WordSum;
    WordSumBound(data);
  }

  lemma AddWraps(sum: nat, w: nat)
    requires sum + w < U32
    ensures (sum + w) % U32 == sum + w
  {
  }

  lemma ShortSums(b: Byte)
    ensures WordSum([]) == 0 && WordSum([b]) == Word(b, 0) >= 0
  {
  }

  lemma PairSum(hi: Byte, lo: Byte)
    ensures WordSum([hi, lo]) == Word(hi, lo)
  {
    assert [hi, lo][2..] == [];
  }

  /** The receiver's test passes exactly for a positive multiple of 65535. */
  lemma ZeroExactly(total: nat)
    requires total < U32
    ensures Finish(total) == 0 <==> total > 0 && total % 65535 == 0
  {
    TwoFolds(total);
    var f := Fold(Fold(total));
    assert f < U16;
  }

  // ---------------------------------------------------------------- the TCP checksum

  /** An address in memory, loaded as a little-endian 32-bit word. */
  function Load32(a: Bytes): nat
    requires |a| == 4
  {
    Word(a[1], a[0]) + U16 * Word(a[3], a[2])
  }

  /** ntohs */
  function Bswaps(x: nat): nat
    requires x < U16
  {
    x % 256 * 256 + x / 256
  }

  /** The seed tcp_checksum builds from the pseudo-header. */
  function Pseudo(src: Bytes, dst: Bytes, proto: Byte, len: nat): (r: nat)
    requires |src| == 4 && |dst| == 4
  {
    Bswaps(Load32(src) / U16 % U16) + Bswaps(Load32(src) % U16)
    + Bswaps(Load32(dst) / U16 % U16) + Bswaps(Load32(dst) % U16) + proto + len
  }

  lemma LoadHalves(a: Bytes)
    requires |a| == 4
    ensures Bswaps(Load32(a) % U16) == Word(a[0], a[1])
    ensures Bswaps(Load32(a) / U16 % U16) == Word(a[2], a[3])
  {
    Halves(Load32(a), Word(a[3], a[2]), Word(a[1], a[0]));
    SwapWord(a[1], a[0]);
    SwapWord(a[3], a[2]);
  }

  lemma Halves(x: nat, hi: nat, lo: nat)
    requires hi < U16 && lo < U16 && x == lo + U16 * hi
    ensures x % U16 == lo && x / U16 % U16 == hi
  {
  }

  lemma SwapWord(hi: Byte, lo: Byte)
    ensures Bswaps(Word(hi, lo)) == Word(lo, hi)
  {
  }

  /** The seed is the word sum of the pseudo-header in network byte order. */
  lemma PseudoIsHeader(src: Bytes, dst: Bytes, proto: Byte, len: nat)
    requires |src| == 4 && |dst| == 4 && len < U16
    ensures Pseudo(src, dst, proto, len) == WordSum(src + dst + [0, proto, len / 256, len % 256])
    ensures Pseudo(src, dst, proto, len) < 6 * U16
  {
    LoadHalves(src);
    LoadHalves(dst);
    FourBytes(src);
    FourBytes(dst);
    var tail: Bytes := [0, proto, len / 256, len % 256];
    FourBytes(tail);
    WordSumConcat(src + dst, tail);
    WordSumConcat(src, dst);
  }

  lemma FourBytes(a: Bytes)
    requires |a| == 4
    ensures WordSum(a) == Word(a[0], a[1]) + Word(a[2], a[3])
  {
    assert a[2..][2..] == [];
    assert WordSum(a[2..]) == Word(a[2], a[3]) + WordSum(a[2..][2..]);
  }

  /** Everything tcp_checksum adds up: it fits in 32 bits. */
  function Total(src: Bytes, dst: Bytes, proto: Byte, seg: Bytes): (r: nat)
    requires |src| == 4 && |dst| == 4 && |seg| < U16
    ensures r < U32
  {
    PseudoIsHeader(src, dst, proto, |seg|);
    WordSumBound(seg);
    Pseudo(src, dst, proto, |seg|) + WordSum(seg)
  }

  /** tcp_checksum: the checksum of a segment under its pseudo-header. */
  function TcpChecksum(src: Bytes, dst: Bytes, proto: Byte, seg: Bytes): (r: nat)
    requires |src| == 4 && |dst| == 4 && |seg| < U16
    ensures r < U16
  {
    Finish(Total(src, dst, proto, seg))
  }

  /** Store a 16-bit value big-endian at an even offset, as htons does on a little-endian machine. */
  function Insert(seg: Bytes, at: nat, v: nat): (r: Bytes)
    requires at + 1 < |seg| && v < U16
    ensures |r| == |seg|
  {
    seg[at := v / 256][at + 1 := v % 256]
  }

  lemma InsertSum(seg: Bytes, at: nat, v: nat)
    requires at + 1 < |seg| && at % 2 == 0 && v < U16
    ensures WordSum(Insert(seg, at, v)) == WordSum(seg) - Word(seg[at], seg[at + 1]) + v
  {
    SplitAt(seg, at);
    var seg' := Insert(seg, at, v);
    SplitAt(seg', at);
    assert seg'[..at] == seg[..at] && seg'[at + 2..] == seg[at + 2..];
  }

  lemma SplitAt(seg: Bytes, at: nat)
    requires at + 1 < |seg| && at % 2 == 0
    ensures WordSum(seg) == WordSum(seg[..at]) + Word(seg[at], seg[at + 1]) + WordSum(seg[at + 2..])
  {
    assert seg == seg[..at] + seg[at..];
    WordSumConcat(seg[..at], seg[at..]);
    assert seg[at..][2..] == seg[at + 2..];
  }

  /**
   Round trip: the checksum computed with the field zeroed and stored in it makes the receiver's
   checksum of the whole segment 0.
   */
  lemma SenderReceiver(src: Bytes, dst: Bytes, proto: Byte, seg: Bytes, at: nat)
    requires |src| == 4 && |dst| == 4 && |seg| < U16 && at + 1 < |seg| && at % 2 == 0
    requires seg[at] == 0 && seg[at + 1] == 0
    ensures TcpChecksum(src, dst, proto, Insert(seg, at, TcpChecksum(src, dst, proto, seg))) == 0
  {
    hide Pseudo, WordSum, Insert, Fold;
    var sum := TcpChecksum(src, dst, proto, seg);
    var total := Total(src, dst, proto, seg);
    InsertSum(seg, at, sum);
    TwoFolds(total);
    SumWithComplement(total, Fold(Fold(total)));
    ZeroExactly(total + sum);
  }

  lemma SumWithComplement(total: nat, f: nat)
    requires f <= 65535 && f % 65535 == total % 65535 && (f == 0 <==> total == 0)
    ensures (total + (65535 - f)) % 65535 == 0 && total + (65535 - f) > 0
  {
    var q, r := total / 65535, total % 65535;
    assert total == q * 65535 + r;
    if f == 65535 {
      assert r == 0;
      ModPlusMultiple(0, q, 65535);
    } else {
      assert f == r;
      assert total + (65535 - f) == (q + 1) * 65535;
      ModPlusMultiple(0, q + 1, 65535);
    }
  }

  /**
   Detection: when a segment passes and one aligned word of it is changed, the changed segment
   passes too exactly when the words are 0x0000 and 0xffff.
   */
  lemma DetectsWord(src: Bytes, dst: Bytes, proto: Byte, seg: Bytes, at: nat, v: nat)
    requires |src| == 4 && |dst| == 4 && |seg| < U16 && at + 1 < |seg| && at % 2 == 0 && v < U16
    requires TcpChecksum(src, dst, proto, seg) == 0
    requires v != Word(seg[at], seg[at + 1])
    ensures var w := Word(seg[at], seg[at + 1]);
            TcpChecksum(src, dst, proto, Insert(seg, at, v)) == 0 <==> (v == 0 && w == 65535) || (v == 65535 && w == 0)
  {
    hide Pseudo, WordSum, Insert, Fold, Finish;
    var total := Total(src, dst, proto, seg);
    var w := Word(seg[at], seg[at + 1]);
    var changed := Total(src, dst, proto, Insert(seg, at, v));
    InsertSum(seg, at, v);
    ZeroExactly(total);
    ZeroExactly(changed);
    assert changed == total - w + v;
    LengthCounts(src, dst, proto, |seg|);
    OneApart(total, changed);
  }

  /** The pseudo-header's length keeps the total positive. */
  lemma LengthCounts(src: Bytes, dst: Bytes, proto: Byte, len: nat)
    requires |src| == 4 && |dst| == 4
    ensures Pseudo(src, dst, proto, len) >= len
  {
  }

  lemma OneApart(a: nat, b: nat)
    requires a % 65535 == 0 && a != b
    ensures b % 65535 == 0 ==> a + 65535 <= b || b + 65535 <= a
    ensures b == a + 65535 || a == b + 65535 ==> b % 65535 == 0
  {
  }
}
