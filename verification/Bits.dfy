/** Bit packing of lib/lists.hpp and lib/merkleize.hpp: bitvectors, bitlists and their delimiter bit. */
module Bits {
  import opened Bytes
  import opened Buffers
  import opened MathHelpers

  // ---- one byte ----

  /** (upper << 1) | low */
  function Shift(upper: nat, low: bool): (b: nat)
    ensures b / 2 == upper && Low(b) == low
  {
    2 * upper + if low then 1 else 0
  }

  predicate Low(b: nat)
  {
    b % 2 == 1
  }

  /** (b >> i) & 1 */
  function Bit(b: nat, i: nat): bool
    decreases i
  {
    if i == 0 then Low(b) else Bit(b / 2, i - 1)
  }

  /** b | (1 << k) */
  function OrBit(b: nat, k: nat): nat
    decreases k
  {
    if k == 0 then Shift(b / 2, true) else Shift(OrBit(b / 2, k - 1), Low(b))
  }

  /** b & ~(1 << k) */
  function ClearBit(b: nat, k: nat): nat
    decreases k
  {
    if k == 0 then Shift(b / 2, false) else Shift(ClearBit(b / 2, k - 1), Low(b))
  }

  /** The right fold of eight_bits_to_byte: the first bit is the least significant one. */
  function BitsToNat(s: seq<bool>): (b: nat)
    ensures b < Pow2(|s|)
  {
    if s == [] then 0 else Shift(BitsToNat(s[1..]), s[0])
  }

  lemma EightBits()
    ensures Pow2(8) == 256
  {
    assert Pow2(4) == 16 && Pow2(8) == 16 * Pow2(4);
  }

  function ByteOf(s: seq<bool>): Byte
    requires |s| <= 8
  {
    EightBits();
    Pow2Monotone(|s|, 8);
    BitsToNat(s)
  }

  lemma {:induction false} BitOfBits(s: seq<bool>, i: nat)
    ensures Bit(BitsToNat(s), i) == (i < |s| && s[i])
    decreases i
  {
    if s == [] {
      NoBits(i);
    } else if i > 0 {
      assert BitsToNat(s) / 2 == BitsToNat(s[1..]);
      BitOfBits(s[1..], i - 1);
    }
  }

  lemma {:induction false} NoBits(i: nat)
    ensures !Bit(0, i)
    decreases i
  {
    if i > 0 { NoBits(i - 1); }
  }

  /** Bit i is the i-th binary digit. */
  lemma {:induction false} BitIsDigit(b: nat, i: nat)
    ensures Bit(b, i) <==> b / Pow2(i) % 2 == 1
    decreases i
  {
    if i > 0 {
      BitIsDigit(b / 2, i - 1);
      HalveFirst(b, Pow2(i - 1));
    }
  }

  lemma HalveFirst(b: nat, m: nat)
    requires m > 0
    ensures b / (2 * m) == b / 2 / m
  {
    var q, r := b / 2, b % 2;
    var p, s := q / m, q % m;
    assert 2 * m * p == 2 * (m * p);
    QuotientUnique(b, 2 * m, p, 2 * s + r);
  }

  /** b | (1 << k) sets bit k and no other... */
  lemma {:induction false} BitOfOrBit(b: nat, k: nat, i: nat)
    ensures Bit(OrBit(b, k), i) == (i == k || Bit(b, i))
    decreases k
  {
    hide Shift, Low;
    if k > 0 && i > 0 { BitOfOrBit(b / 2, k - 1, i - 1); }
  }

  /** ...and b & ~(1 << k) clears it. */
  lemma {:induction false} BitOfClearBit(b: nat, k: nat, i: nat)
    ensures Bit(ClearBit(b, k), i) == (i != k && Bit(b, i))
    decreases k
  {
    hide Shift, Low;
    if k > 0 && i > 0 { BitOfClearBit(b / 2, k - 1, i - 1); }
  }

  /** A number below 2^n is determined by its n bits. */
  lemma {:induction false} SameBits(a: nat, b: nat, n: nat)
    requires a < Pow2(n) && b < Pow2(n)
    requires forall i :: 0 <= i < n ==> Bit(a, i) == Bit(b, i)
    ensures a == b
    decreases n
  {
    if n > 0 {
      forall i | 0 <= i < n - 1
        ensures Bit(a / 2, i) == Bit(b / 2, i)
      {
        assert Bit(a, i + 1) == Bit(b, i + 1);
      }
      SameBits(a / 2, b / 2, n - 1);
      assert Bit(a, 0) == Bit(b, 0);
    }
  }

  lemma {:induction false} HighBitsClear(b: nat, n: nat, i: nat)
    requires b < Pow2(n) && n <= i
    ensures !Bit(b, i)
    decreases i
  {
    if i == 0 {
      assert b == 0;
    } else if n == 0 {
      NoBits(i);
    } else {
      HighBitsClear(b / 2, n - 1, i - 1);
    }
  }

  lemma {:induction false} TopBitSet(b: nat)
    requires b > 0
    ensures Bit(b, BitLength(b) - 1)
  {
    if b > 1 { TopBitSet(b / 2); }
  }

  lemma Halved(b: nat, n: nat)
    requires b < Pow2(n) && n > 0
    ensures b / 2 < Pow2(n - 1)
  {
    assert Pow2(n) == 2 * Pow2(n - 1);
  }

  lemma Doubled(upper: nat, low: bool, n: nat)
    requires n > 0 && upper < Pow2(n - 1)
    ensures Shift(upper, low) < Pow2(n)
  {
    assert Pow2(n) == 2 * Pow2(n - 1);
  }

  lemma {:induction false} OrBitBound(b: nat, k: nat, n: nat)
    requires b < Pow2(n) && k < n
    ensures OrBit(b, k) < Pow2(n)
    decreases k
  {
    hide Pow2, Shift, Low;
    Halved(b, n);
    if k == 0 {
      Doubled(b / 2, true, n);
    } else {
      OrBitBound(b / 2, k - 1, n - 1);
      Doubled(OrBit(b / 2, k - 1), Low(b), n);
    }
  }

  /** a | b */
  function Or(a: nat, b: nat): nat
    decreases a + b
  {
    if a == 0 then b
    else if b == 0 then a
    else Shift(Or(a / 2, b / 2), Low(a) || Low(b))
  }

  lemma {:induction false} BitOfOr(a: nat, b: nat, i: nat)
    ensures Bit(Or(a, b), i) == (Bit(a, i) || Bit(b, i))
    decreases i
  {
    hide Shift, Low;
    if a == 0 || b == 0 {
      NoBits(i);
    } else if i > 0 {
      BitOfOr(a / 2, b / 2, i - 1);
    }
  }

  lemma {:induction false} OrBound(a: nat, b: nat, n: nat)
    requires a < Pow2(n) && b < Pow2(n)
    ensures Or(a, b) < Pow2(n)
    decreases n
  {
    hide Shift, Low;
    if a > 0 && b > 0 {
      Halved(a, n);
      Halved(b, n);
      OrBound(a / 2, b / 2, n - 1);
      Doubled(Or(a / 2, b / 2), Low(a) || Low(b), n);
    }
  }

  /** a | b on bytes */
  function OrBytes(a: Byte, b: Byte): Byte
  {
    EightBits();
    OrBound(a, b, 8);
    Or(a, b)
  }

  /** b | (1 << k) on bytes */
  function OrByte(b: Byte, k: nat): Byte
    requires k < 8
  {
    EightBits();
    OrBitBound(b, k, 8);
    OrBit(b, k)
  }

  /** OR-ing in one more bit: (a | b) | (1 << k) is a | (b | (1 << k)). */
  lemma {:induction false} OrOneMoreBit(a: nat, b: nat, k: nat)
    ensures OrBit(Or(a, b), k) == Or(a, OrBit(b, k))
    decreases k
  {
    hide Shift, Low;
    OrIsPositive(b, k);
    if a == 0 {
    } else if k == 0 {
      assert Or(a / 2, 0) == a / 2;
      assert Or(a, b) / 2 == Or(a / 2, b / 2);
    } else {
      assert Or(a / 2, 0) == a / 2;
      assert Or(a, b) / 2 == Or(a / 2, b / 2);
      OrOneMoreBit(a / 2, b / 2, k - 1);
      OrLow(a, b);
    }
  }

  lemma OrLow(a: nat, b: nat)
    ensures Low(Or(a, b)) == (Low(a) || Low(b))
  {}

  lemma {:induction false} OrIsPositive(b: nat, k: nat)
    ensures OrBit(b, k) > 0
    decreases k
  {
    if k > 0 { OrIsPositive(b / 2, k - 1); }
  }

  /** OR-ing in the bit behind those already packed appends it. */
  lemma {:induction false} OrAppends(s: seq<bool>)
    ensures OrBit(BitsToNat(s), |s|) == BitsToNat(s + [true])
    ensures BitsToNat(s) == BitsToNat(s + [false])
  {
    if s == [] {
      assert [true][1..] == [] && [false][1..] == [];
    } else {
      hide Shift, Low;
      OrAppends(s[1..]);
      assert (s + [true])[1..] == s[1..] + [true];
      assert (s + [false])[1..] == s[1..] + [false];
    }
  }

  /** The delimiter is the highest bit of its byte; clearing it leaves the bits below. */
  lemma {:induction false} DelimiterOnTop(s: seq<bool>)
    ensures BitLength(BitsToNat(s + [true])) == |s| + 1
    ensures ClearBit(BitsToNat(s + [true]), |s|) == BitsToNat(s)
  {
    if s == [] {
      assert [true][1..] == [];
    } else {
      hide Shift, Low;
      DelimiterOnTop(s[1..]);
      assert (s + [true])[1..] == s[1..] + [true];
    }
  }

  // ---- sequences of bytes ----

  function Group(bits: seq<bool>, i: nat): (g: seq<bool>)
    requires 8 * i <= |bits|
    ensures |g| == Min(8, |bits| - 8 * i)
  {
    bits[8 * i..Min(8 * i + 8, |bits|)]
  }

  /** The plain packing into ceil(n/8) bytes. */
  function PackBits(bits: seq<bool>): (bs: seq<Byte>)
    ensures |bs| == CeilDiv(|bits|, 8)
  {
    seq(CeilDiv(|bits|, 8), i requires 0 <= i < CeilDiv(|bits|, 8) => ByteOf(Group(bits, i)))
  }

  /** Bit k of a byte string; there are none behind its end. */
  function BitAt(bs: seq<Byte>, k: nat): bool
  {
    k / 8 < |bs| && Bit(bs[k / 8], k % 8)
  }

  function UnpackBits(bs: seq<Byte>, n: nat): (bits: seq<bool>)
    ensures |bits| == n
    ensures forall k :: 0 <= k < n ==> bits[k] == BitAt(bs, k)
  {
    seq(n, k requires 0 <= k < n => BitAt(bs, k))
  }

  lemma PackedBitAt(bits: seq<bool>, k: nat)
    ensures BitAt(PackBits(bits), k) == (k < |bits| && bits[k])
  {
    if k / 8 < CeilDiv(|bits|, 8) {
      BitOfBits(Group(bits, k / 8), k % 8);
    }
  }

  lemma SameBytes(a: seq<Byte>, b: seq<Byte>)
    requires |a| == |b|
    requires forall k :: 0 <= k < 8 * |a| ==> BitAt(a, k) == BitAt(b, k)
    ensures a == b
  {
    EightBits();
    forall q | 0 <= q < |a|
      ensures a[q] == b[q]
    {
      forall i | 0 <= i < 8
        ensures Bit(a[q], i) == Bit(b[q], i)
      {
        assert BitAt(a, 8 * q + i) == BitAt(b, 8 * q + i);
      }
      SameBits(a[q], b[q], 8);
    }
  }

  /** Reading back what was packed. */
  lemma UnpackPacked(bits: seq<bool>, n: nat)
    requires n <= |bits|
    ensures UnpackBits(PackBits(bits), n) == bits[..n]
  {
    forall k | 0 <= k < n
      ensures BitAt(PackBits(bits), k) == bits[k]
    {
      PackedBitAt(bits, k);
    }
  }

  // ---- bitvectors ----

  /** The bits of the last byte behind the n-th bit are zero. */
  predicate ZeroPadded(bs: seq<Byte>, n: nat)
  {
    |bs| == CeilDiv(n, 8) && (n % 8 > 0 ==> bs[n / 8] < Pow2(n % 8))
  }

  lemma PackedIsPadded(bits: seq<bool>)
    ensures ZeroPadded(PackBits(bits), |bits|)
  {
    if |bits| % 8 > 0 {
      assert |Group(bits, |bits| / 8)| == |bits| % 8;
    }
  }

  lemma PaddingBit(bs: seq<Byte>, n: nat, k: nat)
    requires ZeroPadded(bs, n) && n <= k < 8 * |bs|
    ensures !BitAt(bs, k)
  {
    hide Bit;
    assert k / 8 == n / 8 && 0 < n % 8 <= k % 8;
    HighBitsClear(bs[n / 8], n % 8, k % 8);
  }

  lemma BitvectorBytes(bs: seq<Byte>, n: nat)
    requires ZeroPadded(bs, n)
    ensures PackBits(UnpackBits(bs, n)) == bs
  {
    hide PackBits, BitAt;
    var bits := UnpackBits(bs, n);
    forall k | 0 <= k < 8 * |bs|
      ensures BitAt(PackBits(bits), k) == BitAt(bs, k)
    {
      PackedBitAt(bits, k);
      if k >= n { PaddingBit(bs, n, k); }
    }
    SameBytes(PackBits(bits), bs);
  }

  // ---- bitlists ----

  /** A bitlist is written as its bits followed by a delimiter bit. */
  function BitlistBytes(bits: seq<bool>): (bs: seq<Byte>)
    ensures |bs| == |bits| / 8 + 1
  {
    PackBits(bits + [true])
  }

  /** Bit k of the encoding is bit k of the list; the delimiter comes right behind the last one, and then zeros. */
  lemma BitlistBitAt(bits: seq<bool>, k: nat)
    ensures BitAt(BitlistBytes(bits), k) == if k < |bits| then bits[k] else k == |bits|
  {
    hide PackBits, BitAt;
    PackedBitAt(bits + [true], k);
  }

  /** Number of bits below the highest set bit of the last byte: CHAR_BIT - countl_zero(last) - 1, or none. */
  function BelowTop(last: Byte): nat
  {
    if last == 0 then 0 else BitLength(last) - 1
  }

  lemma BelowTopAsWritten(last: Byte)
    ensures last < Pow2(8)
    ensures var top := 8 - CountlZero(last, 8) - 1; BelowTop(last) == if top < 0 then 0 else top
  {
    EightBits();
    CountlZeroBitLength(last, 8);
  }

  lemma BelowTopBound(last: Byte)
    ensures BelowTop(last) <= 7
  {
    EightBits();
    BitLengthBounds(last);
    if BitLength(last) > 8 { Pow2Monotone(8, BitLength(last) - 1); }
  }

  /** The bits the reader finds: all of every byte but the last, and those below the last byte's highest set bit. */
  function BitlistOf(bs: seq<Byte>): seq<bool>
    requires bs != []
  {
    UnpackBits(bs, 8 * (|bs| - 1) + BelowTop(bs[|bs| - 1]))
  }

  lemma LastByte(bits: seq<bool>)
    ensures var tail := bits[8 * (|bits| / 8)..];
      && |tail| == |bits| % 8
      && BitlistBytes(bits)[|bits| / 8] == BitsToNat(tail + [true])
      && (|tail| > 0 ==> PackBits(bits)[|bits| / 8] == BitsToNat(tail))
  {
    var q := |bits| / 8;
    assert Group(bits + [true], q) == bits[8 * q..] + [true];
    if |bits| % 8 > 0 {
      assert Group(bits, q) == bits[8 * q..];
    }
  }

  /** The full bytes are the same with and without the delimiter. */
  lemma FullBytes(bits: seq<bool>)
    ensures BitlistBytes(bits)[..|bits| / 8] == PackBits(bits)[..|bits| / 8]
  {
    forall i | 0 <= i < |bits| / 8
      ensures BitlistBytes(bits)[i] == PackBits(bits)[i]
    {
      assert Group(bits + [true], i) == Group(bits, i);
    }
  }

  lemma BitlistRoundTrip(bits: seq<bool>)
    ensures BitlistOf(BitlistBytes(bits)) == bits
  {
    hide PackBits, UnpackBits;
    LastByte(bits);
    TopOfLast(bits[8 * (|bits| / 8)..]);
    UnpackPacked(bits + [true], |bits|);
    assert (bits + [true])[..|bits|] == bits;
  }

  lemma TopOfLast(tail: seq<bool>)
    requires |tail| < 8
    ensures BitsToNat(tail + [true]) < 256 && BelowTop(BitsToNat(tail + [true])) == |tail|
  {
    var last := ByteOf(tail + [true]);
    DelimiterOnTop(tail);
  }

  lemma BitlistBytesRoundTrip(bs: seq<Byte>)
    requires bs != [] && bs[|bs| - 1] > 0
    ensures BitlistBytes(BitlistOf(bs)) == bs
  {
    BelowTopBound(bs[|bs| - 1]);
    forall k | 0 <= k < 8 * |bs|
      ensures BitAt(BitlistBytes(BitlistOf(bs)), k) == BitAt(bs, k)
    {
      BitOfBitlist(bs, k);
    }
    SameBytes(BitlistBytes(BitlistOf(bs)), bs);
  }

  lemma BitOfBitlist(bs: seq<Byte>, k: nat)
    requires bs != [] && bs[|bs| - 1] > 0 && k < 8 * |bs|
    ensures BitAt(BitlistBytes(BitlistOf(bs)), k) == BitAt(bs, k)
  {
    hide PackBits;
    var last, bits := bs[|bs| - 1], BitlistOf(bs);
    PackedBitAt(bits + [true], k);
    if k == |bits| {
      BelowTopBound(last);
      TopBitSet(last);
    } else if k > |bits| {
      BitLengthBounds(last);
      HighBitsClear(last, BitLength(last), k % 8);
    }
  }

  /** The reader's guard, 8 * bytes <= N, accepts the written form of n bits exactly when n < 8 * (N / 8). */
  lemma GuardAccepts(bits: seq<bool>, limit: nat)
    ensures 8 * |BitlistBytes(bits)| <= limit <==> |bits| < 8 * (limit / 8)
  {}

  // ---- stripping the delimiter before hashing ----

  lemma {:induction false} ClearBitBelow(b: nat, k: nat)
    ensures ClearBit(b, k) <= b
    decreases k
  {
    if k > 0 { ClearBitBelow(b / 2, k - 1); }
  }

  /** What hash_tree_root of a bitlist does to the written bytes: pop the last one or clear its highest bit. */
  function StripDelimiter(bs: seq<Byte>): seq<Byte>
    requires bs != []
  {
    var last := bs[|bs| - 1];
    var highestBit := BelowTop(last);
    if highestBit == 0 then bs[..|bs| - 1] else
      ClearBitBelow(last, highestBit);
      bs[|bs| - 1 := ClearBit(last, highestBit)]
  }

  /** For every length, multiples of 8 included, the plain packing is left. */
  lemma StripLeavesPacking(bits: seq<bool>)
    ensures StripDelimiter(BitlistBytes(bits)) == PackBits(bits)
  {
    hide BitsToNat, ClearBit, PackBits, BitlistBytes;
    LastByte(bits);
    DelimiterOnTop(bits[8 * (|bits| / 8)..]);
    FullBytes(bits);
    if |bits| % 8 == 0 {
      assert PackBits(bits)[..|bits| / 8] == PackBits(bits);
    } else {
      var q, stripped := |bits| / 8, StripDelimiter(BitlistBytes(bits));
      assert stripped[..q] == BitlistBytes(bits)[..q];
      SameUpToLast(stripped, PackBits(bits), q);
    }
  }

  lemma SameUpToLast(a: seq<Byte>, b: seq<Byte>, q: nat)
    requires |a| == |b| == q + 1 && a[..q] == b[..q] && a[q] == b[q]
    ensures a == b
  {
    assert a == a[..q] + [a[q]] && b == b[..q] + [b[q]];
  }

  // ---- writing ----

  /** _serialize_bitvector */
  method WritePacked(buf: array<Byte>, at: nat, bits: seq<bool>)
    requires at + CeilDiv(|bits|, 8) <= buf.Length
    modifies buf
    ensures buf[..] == Splice(old(buf[..]), at, PackBits(bits))
  {
    hide Splice, PackBits;
    ghost var was, packed := buf[..], PackBits(bits);
    SpliceNothing(was, at);
    for i := 0 to CeilDiv(|bits|, 8)
      invariant buf[..] == Splice(was, at, packed[..i])
    {
      PackedAt(bits, i);
      SpliceSnoc(was, at, packed[..i], packed[i]);
      assert packed[..i + 1] == packed[..i] + [packed[i]];
      buf[at + i] := ByteOf(Group(bits, i));
    }
    assert packed[..|packed|] == packed;
  }

  lemma PackedAt(bits: seq<bool>, i: nat)
    requires i < CeilDiv(|bits|, 8)
    ensures 8 * i <= |bits| && PackBits(bits)[i] == ByteOf(Group(bits, i))
  {}

  /** The bytes a bitlist leaves in a buffer whose byte under the delimiter was `under` before. */
  function BitlistOver(bits: seq<bool>, under: Byte): seq<Byte>
  {
    if |bits| % 8 > 0 then BitlistBytes(bits) else PackBits(bits) + [OrByte(under, 0)]
  }

  lemma BitlistSplit(bits: seq<bool>)
    ensures var q, tail := |bits| / 8, bits[8 * (|bits| / 8)..];
      BitlistBytes(bits) == PackBits(bits)[..q] + [ByteOf(tail + [true])]
  {
    LastByte(bits);
    FullBytes(bits);
  }

  /** It is the bitlist's encoding exactly when the delimiter shares its byte with bits, or that byte was 0 or 1. */
  lemma BitlistNeedsZero(bits: seq<bool>, under: Byte)
    ensures BitlistOver(bits, under) == BitlistBytes(bits) <==> |bits| % 8 > 0 || under <= 1
  {
    hide PackBits, BitlistBytes;
    BitlistSplit(bits);
    OrAppends([]);
    if |bits| % 8 == 0 {
      assert bits[8 * (|bits| / 8)..] == [];
      assert PackBits(bits)[..|bits| / 8] == PackBits(bits);
      assert BitlistOver(bits, under)[|bits| / 8] == OrByte(under, 0);
    }
  }

  /** Serialize a bitlist: pack, then OR the delimiter into the byte behind the last full one. */
  method WriteBitlist(buf: array<Byte>, at: nat, bits: seq<bool>)
    requires at + |bits| / 8 + 1 <= buf.Length
    modifies buf
    ensures buf[..] == Splice(old(buf[..]), at, BitlistOver(bits, old(buf[at + |bits| / 8])))
  {
    hide Splice, PackBits, BitlistBytes, OrByte;
    ghost var was := buf[..];
    WritePacked(buf, at, bits);
    var q, r := |bits| / 8, |bits| % 8;
    if r == 0 {
      SpliceSnoc(was, at, PackBits(bits), OrByte(was[at + q], 0));
    } else {
      SpliceUpdate(was, at, PackBits(bits), q, OrByte(PackBits(bits)[q], r));
      DelimiterInPlace(bits);
    }
    buf[at + q] := OrByte(buf[at + q], r);
  }

  lemma DelimiterInPlace(bits: seq<bool>)
    requires |bits| % 8 > 0
    ensures var q, packed := |bits| / 8, PackBits(bits);
      packed[q := OrByte(packed[q], |bits| % 8)] == BitlistBytes(bits)
  {
    LastByte(bits);
    BitlistSplit(bits);
    OrAppends(bits[8 * (|bits| / 8)..]);
  }

  /** The bits of group q among the first n. */
  function GroupBelow(bits: seq<bool>, q: nat, n: nat): (g: seq<bool>)
    requires n <= |bits|
    ensures |g| <= 8
  {
    bits[Min(8 * q, n)..Min(8 * q + 8, n)]
  }

  lemma GroupGrows(bits: seq<bool>, n: nat)
    requires n < |bits|
    ensures |GroupBelow(bits, n / 8, n)| == n % 8
    ensures GroupBelow(bits, n / 8, n + 1) == GroupBelow(bits, n / 8, n) + [bits[n]]
    ensures forall q: nat :: q != n / 8 ==> GroupBelow(bits, q, n + 1) == GroupBelow(bits, q, n)
  {}

  /** The packing once the first n bits are in place. */
  function PartlyPacked(bits: seq<bool>, n: nat): (bs: seq<Byte>)
    requires n <= |bits|
    ensures |bs| == CeilDiv(|bits|, 8)
  {
    seq(CeilDiv(|bits|, 8), q requires 0 <= q < CeilDiv(|bits|, 8) => ByteOf(GroupBelow(bits, q, n)))
  }

  lemma PackOneMore(bits: seq<bool>, n: nat)
    requires n < |bits|
    ensures var bs, q := PartlyPacked(bits, n), n / 8;
      PartlyPacked(bits, n + 1) == if bits[n] then bs[q := OrByte(bs[q], n % 8)] else bs
  {
    hide GroupBelow;
    GroupGrows(bits, n);
    OrAppends(GroupBelow(bits, n / 8, n));
  }

  lemma PackedInTheEnd(bits: seq<bool>)
    ensures PartlyPacked(bits, 0) == Zeros(CeilDiv(|bits|, 8))
    ensures PartlyPacked(bits, |bits|) == PackBits(bits)
  {
    forall q | 0 <= q < CeilDiv(|bits|, 8)
      ensures GroupBelow(bits, q, |bits|) == Group(bits, q) && GroupBelow(bits, q, 0) == []
    {}
  }

  /** The bytes a bitset leaves where `under` was before. */
  function BitsetOver(bits: seq<bool>, under: seq<Byte>): (bs: seq<Byte>)
    requires |under| == CeilDiv(|bits|, 8)
    ensures |bs| == |under|
  {
    OrAll(under, PackBits(bits))
  }

  function OrAll(a: seq<Byte>, b: seq<Byte>): (bs: seq<Byte>)
    requires |a| == |b|
    ensures |bs| == |a|
    ensures forall q :: 0 <= q < |a| ==> bs[q] == OrBytes(a[q], b[q])
  {
    seq(|a|, q requires 0 <= q < |a| => OrBytes(a[q], b[q]))
  }

  lemma BitOfAll(a: seq<Byte>, b: seq<Byte>, k: nat)
    requires |a| == |b|
    ensures BitAt(OrAll(a, b), k) == (BitAt(a, k) || BitAt(b, k))
  {
    if k / 8 < |a| { BitOfOr(a[k / 8], b[k / 8], k % 8); }
  }

  /** Whatever was there before: bits that were set stay set, the bits of the bitset are set, and no others. */
  lemma BitsetOverAt(bits: seq<bool>, under: seq<Byte>, k: nat)
    requires |under| == CeilDiv(|bits|, 8)
    ensures BitAt(BitsetOver(bits, under), k) == (BitAt(under, k) || (k < |bits| && bits[k]))
  {
    BitOfAll(under, PackBits(bits), k);
    PackedBitAt(bits, k);
  }

  /** It is the bitset's encoding exactly when each bit that was set before is one of those that are to be set. */
  lemma BitsetNeedsClear(bits: seq<bool>, under: seq<Byte>)
    requires |under| == CeilDiv(|bits|, 8)
    ensures BitsetOver(bits, under) == PackBits(bits) <==> forall k: nat :: BitAt(under, k) ==> k < |bits| && bits[k]
  {
    hide BitsetOver, PackBits, BitAt;
    forall k: nat
      ensures BitAt(PackBits(bits), k) == (k < |bits| && bits[k])
      ensures BitAt(BitsetOver(bits, under), k) == (BitAt(under, k) || (k < |bits| && bits[k]))
    {
      PackedBitAt(bits, k);
      BitsetOverAt(bits, under, k);
    }
    if forall k: nat :: BitAt(under, k) ==> k < |bits| && bits[k] {
      SameBytes(BitsetOver(bits, under), PackBits(bits));
    }
  }

  /** In zeroed bytes it always is. */
  lemma BitsetOverZeros(bits: seq<bool>)
    ensures BitsetOver(bits, Zeros(CeilDiv(|bits|, 8))) == PackBits(bits)
  {
    var under := Zeros(CeilDiv(|bits|, 8));
    forall k: nat
      ensures !BitAt(under, k)
    {
      NoBits(k % 8);
    }
    BitsetNeedsClear(bits, under);
  }

  /** Buffers in which a bitlist and a bitset do not leave their encoding. */
  lemma OldBitsSpoil()
    ensures BitlistOver([], 2) != BitlistBytes([])
    ensures BitsetOver([false], [1]) != PackBits([false])
  {
    hide BitlistOver, BitlistBytes, BitsetOver, PackBits;
    BitlistNeedsZero([], 2);
    BitsetNeedsClear([false], [1]);
    assert BitAt([1], 0);
  }

  /** OR-ing in one bit after another. */
  lemma OrAllStep(under: seq<Byte>, bits: seq<bool>, n: nat)
    requires |under| == CeilDiv(|bits|, 8) && n < |bits|
    ensures var bs, q := OrAll(under, PartlyPacked(bits, n)), n / 8;
      OrAll(under, PartlyPacked(bits, n + 1)) == if bits[n] then bs[q := OrByte(bs[q], n % 8)] else bs
  {
    hide PartlyPacked;
    PackOneMore(bits, n);
    var p, q := PartlyPacked(bits, n), n / 8;
    if bits[n] {
      OrOneMoreBit(under[q], p[q], n % 8);
    }
  }

  lemma OrAllZeros(under: seq<Byte>)
    ensures OrAll(under, Zeros(|under|)) == under
  {
    forall q | 0 <= q < |under|
      ensures OrBytes(under[q], 0) == under[q]
    {}
  }

  /** Serialize a bitset, bit by bit, with an OR for every set bit. */
  method WriteBitset(buf: array<Byte>, at: nat, bits: seq<bool>)
    requires at + CeilDiv(|bits|, 8) <= buf.Length
    modifies buf
    ensures buf[..] == Splice(old(buf[..]), at, BitsetOver(bits, old(buf[at..at + CeilDiv(|bits|, 8)])))
  {
    hide PartlyPacked, PackBits, Splice, OrByte, Zeros, OrAll;
    ghost var was, under := buf[..], buf[at..at + CeilDiv(|bits|, 8)];
    PackedInTheEnd(bits);
    OrAllZeros(under);
    SpliceSame(was, at, CeilDiv(|bits|, 8));
    for i := 0 to |bits|
      invariant buf[..] == Splice(was, at, OrAll(under, PartlyPacked(bits, i)))
    {
      OrAllStep(under, bits, i);
      if bits[i] {
        ghost var bs := OrAll(under, PartlyPacked(bits, i));
        SpliceUpdate(was, at, bs, i / 8, OrByte(bs[i / 8], i % 8));
        buf[at + i / 8] := OrByte(buf[at + i / 8], i % 8);
      }
    }
  }

  // ---- reading ----

  lemma UnpackOneMore(bs: seq<Byte>, n: nat)
    ensures UnpackBits(bs, n + 1) == UnpackBits(bs, n) + [BitAt(bs, n)]
  {}

  /** deserialize into std::vector<bool>, the container of a bitlist. */
  method ReadBitlist(bs: seq<Byte>) returns (bits: seq<bool>)
    requires bs != []
    ensures bits == BitlistOf(bs)
  {
    hide UnpackBits, BelowTop;
    bits := [];
    for i := 0 to |bs| - 1
      invariant bits == UnpackBits(bs, 8 * i)
    {
      for j := 0 to 8
        invariant bits == UnpackBits(bs, 8 * i + j)
      {
        UnpackOneMore(bs, 8 * i + j);
        bits := bits + [Bit(bs[i], j)];
      }
    }
    var last := bs[|bs| - 1];
    BelowTopBound(last);
    for i := 0 to BelowTop(last)
      invariant bits == UnpackBits(bs, 8 * (|bs| - 1) + i)
    {
      UnpackOneMore(bs, 8 * (|bs| - 1) + i);
      bits := bits + [Bit(last, i)];
    }
  }

  /** deserialize into std::bitset<N>: bits without a byte stay clear, surplus bits and bytes are ignored. */
  method ReadBitset(bs: seq<Byte>, n: nat) returns (bits: seq<bool>)
    ensures bits == UnpackBits(bs, n)
  {
    bits := seq(n, _ => false);
    for i := 0 to |bs|
      invariant |bits| == n
      invariant forall k :: 0 <= k < n ==> bits[k] == (k < 8 * i && BitAt(bs, k))
    {
      var j := 0;
      while j < 8 && 8 * i + j < n
        invariant 0 <= j <= 8 && |bits| == n
        invariant forall k :: 0 <= k < n ==> bits[k] == (k < 8 * i + j && BitAt(bs, k))
      {
        if Bit(bs[i], j) {
          bits := bits[8 * i + j := true];
        }
        j := j + 1;
      }
    }
  }
}
