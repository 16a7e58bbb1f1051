/** Bytes and little-endian numbers (lib/basic_types.hpp on a little-endian machine). */
module Bytes {
  import opened MathHelpers

  type Byte = b: nat | b < 256

  /** Sizes of the unsigned integer types. */
  predicate BasicWidth(w: nat)
  {
    w == 1 || w == 2 || w == 4 || w == 8 || w == 32
  }

  function Zeros(n: nat): (s: seq<Byte>)
    ensures |s| == n
    ensures forall i :: 0 <= i < n ==> s[i] == 0
  {
    seq(n, _ => 0)
  }

  function Pow256(w: nat): (p: nat)
    ensures p >= 1
  {
    if w == 0 then 1 else 256 * Pow256(w - 1)
  }

  /** The low `w` bytes of `n`, least significant first: higher digits are truncated away, as a cast does. */
  function LittleEndian(n: nat, w: nat): (s: seq<Byte>)
    ensures |s| == w
  {
    if w == 0 then [] else [n % 256] + LittleEndian(n / 256, w - 1)
  }

  function FromLittleEndian(s: seq<Byte>): nat
  {
    if s == [] then 0 else s[0] + 256 * FromLittleEndian(s[1..])
  }

  lemma NextDigits(n: nat, b: nat)
    requires b > 0
    ensures n / (256 * b) == n / 256 / b
  {
    var q, r := n / 256, n % 256;
    var p, s := q / b, q % b;
    assert 256 * b * p == 256 * (b * p);
    QuotientUnique(n, 256 * b, p, 256 * s + r);
  }

  /** Byte i is the i-th digit of the number in base 256, the least significant one first. */
  lemma {:induction false} DigitAt(n: nat, w: nat, i: nat)
    requires i < w
    ensures LittleEndian(n, w)[i] == n / Pow256(i) % 256
    decreases i
  {
    if i > 0 {
      DigitAt(n / 256, w - 1, i - 1);
      NextDigits(n, Pow256(i - 1));
    }
  }

  lemma {:induction false} ZeroNumber(w: nat)
    ensures LittleEndian(0, w) == Zeros(w)
  {
    if w > 0 { ZeroNumber(w - 1); }
  }

  /** More bytes than a number needs are zeros behind it. */
  lemma {:induction false} WiderNumber(n: nat, w: nat, k: nat)
    requires n < Pow256(w)
    ensures LittleEndian(n, w + k) == LittleEndian(n, w) + Zeros(k)
    decreases w
  {
    if w == 0 { ZeroNumber(k); } else { WiderNumber(n / 256, w - 1, k); }
  }

  lemma {:induction false} NumberRoundTrip(n: nat, w: nat)
    requires n < Pow256(w)
    ensures FromLittleEndian(LittleEndian(n, w)) == n
  {
    if w > 0 {
      NumberRoundTrip(n / 256, w - 1);
      assert LittleEndian(n, w)[1..] == LittleEndian(n / 256, w - 1);
    }
  }

  lemma {:induction false} BytesRoundTrip(s: seq<Byte>)
    ensures FromLittleEndian(s) < Pow256(|s|)
    ensures LittleEndian(FromLittleEndian(s), |s|) == s
  {
    if s != [] {
      BytesRoundTrip(s[1..]);
      var n := FromLittleEndian(s);
      assert n % 256 == s[0] && n / 256 == FromLittleEndian(s[1..]);
      assert s == [s[0]] + s[1..];
    }
  }

  lemma FourBytes()
    ensures Pow256(4) == 0x1_0000_0000
    ensures Pow256(8) == 0x1_0000_0000_0000_0000
  {
    assert Pow256(4) == 256 * (256 * (256 * (256 * Pow256(0))));
    assert Pow256(8) == 256 * (256 * (256 * (256 * Pow256(4))));
  }
}
