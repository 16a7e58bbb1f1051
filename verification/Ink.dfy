/** What a writer does to the bytes of a buffer: some it overwrites, into others it ORs bits. */
module Ink {
  import opened Bytes
  import opened Buffers
  import opened Bits

  datatype Mark = Set(byte: Byte) | OrIn(byte: Byte)

  function Over(m: Mark, under: Byte): Byte
  {
    if m.Set? then m.byte else OrBytes(under, m.byte)
  }

  /** `s` after marking it from `at` on: the whole effect of an in-place writer, whatever the buffer held before. */
  function Paint(s: seq<Byte>, at: nat, ink: seq<Mark>): (r: seq<Byte>)
    requires at + |ink| <= |s|
    ensures |r| == |s|
    ensures forall k :: 0 <= k < |s| ==> r[k] == if at <= k < at + |ink| then Over(ink[k - at], s[k]) else s[k]
  {
    seq(|s|, k requires 0 <= k < |s| => if at <= k < at + |ink| then Over(ink[k - at], s[k]) else s[k])
  }

  function Plain(bs: seq<Byte>): (ink: seq<Mark>)
    ensures |ink| == |bs|
    ensures forall k :: 0 <= k < |bs| ==> ink[k] == Set(bs[k])
  {
    seq(|bs|, k requires 0 <= k < |bs| => Set(bs[k]))
  }

  function Ored(bs: seq<Byte>): (ink: seq<Mark>)
    ensures |ink| == |bs|
    ensures forall k :: 0 <= k < |bs| ==> ink[k] == OrIn(bs[k])
  {
    seq(|bs|, k requires 0 <= k < |bs| => OrIn(bs[k]))
  }

  /** The bytes meant, which is what is left in zeroed bytes. */
  function BytesOf(ink: seq<Mark>): (bs: seq<Byte>)
    ensures |bs| == |ink|
    ensures forall k :: 0 <= k < |ink| ==> bs[k] == ink[k].byte
  {
    seq(|ink|, k requires 0 <= k < |ink| => ink[k].byte)
  }

  lemma PaintNothing(s: seq<Byte>, at: nat)
    requires at <= |s|
    ensures Paint(s, at, []) == s
  {}

  lemma PaintAppend(s: seq<Byte>, at: nat, a: seq<Mark>, b: seq<Mark>)
    requires at + |a| + |b| <= |s|
    ensures Paint(s, at, a + b) == Paint(Paint(s, at, a), at + |a|, b)
  {
    hide Over;
  }

  lemma PaintSwap(s: seq<Byte>, i: nat, a: seq<Mark>, j: nat, b: seq<Mark>)
    requires i + |a| <= j && j + |b| <= |s|
    ensures Paint(Paint(s, i, a), j, b) == Paint(Paint(s, j, b), i, a)
  {
    hide Over;
  }

  /** Two cursors: writing the heads of both remaining parts first leaves the two rests to write. */
  lemma PaintTwoCursors(s: seq<Byte>, i: nat, a: seq<Mark>, a': seq<Mark>, j: nat, b: seq<Mark>, b': seq<Mark>)
    requires i + |a| + |a'| <= j && j + |b| + |b'| <= |s|
    ensures Paint(Paint(s, i, a + a'), j, b + b')
         == Paint(Paint(Paint(Paint(s, i, a), j, b), i + |a|, a'), j + |b|, b')
  {
    hide Over;
    var s1 := Paint(s, i, a);
    PaintAppend(s, i, a, a');
    PaintAppend(Paint(s1, i + |a|, a'), j, b, b');
    PaintSwap(s1, i + |a|, a', j, b);
  }

  lemma PaintPlain(s: seq<Byte>, at: nat, bs: seq<Byte>)
    requires at + |bs| <= |s|
    ensures Paint(s, at, Plain(bs)) == Splice(s, at, bs)
  {}

  lemma PaintOred(s: seq<Byte>, at: nat, bs: seq<Byte>)
    requires at + |bs| <= |s|
    ensures Paint(s, at, Ored(bs)) == Splice(s, at, OrAll(s[at..at + |bs|], bs))
  {
    hide OrBytes;
    var l, r := Paint(s, at, Ored(bs)), Splice(s, at, OrAll(s[at..at + |bs|], bs));
    forall k | 0 <= k < |s|
      ensures l[k] == r[k]
    {
      if at <= k < at + |bs| { assert s[at..at + |bs|][k - at] == s[k]; }
    }
  }

  /** Every bit of a is one of b. */
  ghost predicate Within(a: nat, b: nat)
  {
    forall i: nat :: Bit(a, i) ==> Bit(b, i)
  }

  lemma OrAbsorbs(a: Byte, b: Byte)
    ensures OrBytes(a, b) == b <==> Within(a, b)
  {
    hide Bit, Or;
    EightBits();
    OrBound(a, b, 8);
    forall i: nat
      ensures Bit(OrBytes(a, b), i) == (Bit(a, i) || Bit(b, i))
    {
      BitOfOr(a, b, i);
    }
    if Within(a, b) {
      SameBits(OrBytes(a, b), b, 8);
    }
  }

  lemma MarkIsByte(s: seq<Byte>, at: nat, ink: seq<Mark>, k: nat)
    requires at + |ink| <= |s| && k < |ink|
    ensures Paint(s, at, ink)[at + k] == Splice(s, at, BytesOf(ink))[at + k]
       <==> (ink[k].OrIn? ==> Within(s[at + k], ink[k].byte))
  {
    hide OrBytes, Within;
    OrAbsorbs(s[at + k], ink[k].byte);
  }

  lemma SameOutside(s: seq<Byte>, at: nat, ink: seq<Mark>, k: nat)
    requires at + |ink| <= |s| && k < |s| && (k < at || at + |ink| <= k)
    ensures Paint(s, at, ink)[k] == Splice(s, at, BytesOf(ink))[k]
  {}

  /** The bytes meant are left exactly where no bit was set before that is not to be set. */
  lemma PaintIsSplice(s: seq<Byte>, at: nat, ink: seq<Mark>)
    requires at + |ink| <= |s|
    ensures Paint(s, at, ink) == Splice(s, at, BytesOf(ink))
       <==> forall k :: 0 <= k < |ink| && ink[k].OrIn? ==> Within(s[at + k], ink[k].byte)
  {
    hide Over, Within, Paint, Splice, BytesOf;
    var l, r := Paint(s, at, ink), Splice(s, at, BytesOf(ink));
    if l == r {
      forall k | 0 <= k < |ink| && ink[k].OrIn?
        ensures Within(s[at + k], ink[k].byte)
      {
        MarkIsByte(s, at, ink, k);
      }
    }
    if forall k :: 0 <= k < |ink| && ink[k].OrIn? ==> Within(s[at + k], ink[k].byte) {
      forall k | 0 <= k < |s|
        ensures l[k] == r[k]
      {
        if at <= k < at + |ink| { MarkIsByte(s, at, ink, k - at); } else { SameOutside(s, at, ink, k); }
      }
      assert l == r;
    }
  }

  lemma ZeroIsWithin(b: nat)
    ensures Within(0, b)
  {
    forall i: nat
      ensures !Bit(0, i)
    {
      NoBits(i);
    }
  }

  /** A bitlist is packed over what was there; a delimiter in a byte of its own is OR-ed in. */
  function BitlistInk(bits: seq<bool>): (ink: seq<Mark>)
    ensures |ink| == |bits| / 8 + 1
  {
    if |bits| % 8 > 0 then Plain(BitlistBytes(bits)) else Plain(PackBits(bits)) + [OrIn(1)]
  }

  lemma BitlistInkBytes(bits: seq<bool>)
    ensures BytesOf(BitlistInk(bits)) == BitlistBytes(bits)
  {
    hide PackBits;
    if |bits| % 8 == 0 {
      BitlistNeedsZero(bits, 0);
      assert OrByte(0, 0) == 1;
    }
  }

  lemma PaintOne(s: seq<Byte>, at: nat, m: Mark)
    requires at < |s|
    ensures Paint(s, at, [m]) == s[at := Over(m, s[at])]
  {
    hide Over;
  }

  lemma PaintBitlist(s: seq<Byte>, at: nat, bits: seq<bool>)
    requires at + |bits| / 8 + 1 <= |s|
    ensures Paint(s, at, BitlistInk(bits)) == Splice(s, at, BitlistOver(bits, s[at + |bits| / 8]))
  {
    hide PackBits, BitlistBytes, Splice, Paint, Plain, Over;
    if |bits| % 8 > 0 {
      PaintPlain(s, at, BitlistBytes(bits));
    } else {
      PaintDelimiter(s, at, PackBits(bits));
    }
  }

  lemma PaintDelimiter(s: seq<Byte>, at: nat, packed: seq<Byte>)
    requires at + |packed| < |s|
    ensures Paint(s, at, Plain(packed) + [OrIn(1)]) == Splice(s, at, packed + [OrByte(s[at + |packed|], 0)])
  {
    hide Splice, Paint, Plain, OrByte, OrBytes;
    var under := s[at + |packed|];
    PaintAppend(s, at, Plain(packed), [OrIn(1)]);
    PaintPlain(s, at, packed);
    SpliceSnoc(s, at, packed, OrByte(under, 0));
    PaintOne(Splice(s, at, packed), at + |packed|, OrIn(1));
    LowestBit(under);
  }

  lemma LowestBit(b: Byte)
    ensures OrBytes(b, 1) == OrByte(b, 0)
  {
    assert Or(b / 2, 0) == b / 2;
  }
}
