/** lib/math.hpp and the bit arithmetic of the standard library that the tree depths rest on. */
module MathHelpers {
  function Max(a: nat, b: nat): nat { if a < b then b else a }

  function Min(a: nat, b: nat): nat { if a < b then a else b }

  function Minus(a: nat, b: nat): nat { if a < b then 0 else a - b }

  function CeilDiv(n: nat, d: nat): nat
    requires d > 0
  {
    (n + d - 1) / d
  }

  function Pow2(k: nat): (p: nat)
    ensures p >= 1
  {
    if k == 0 then 1 else 2 * Pow2(k - 1)
  }

  /** Number of significant binary digits. */
  function BitLength(m: nat): nat
  {
    if m == 0 then 0 else 1 + BitLength(m / 2)
  }

  /** std::countl_zero of a `width`-bit number. */
  function CountlZero(m: nat, width: nat): (z: nat)
    requires m < Pow2(width)
    ensures z <= width
  {
    if width == 0 || Pow2(width - 1) <= m then 0 else 1 + CountlZero(m, width - 1)
  }

  function PopCount(m: nat): nat
  {
    if m == 0 then 0 else m % 2 + PopCount(m / 2)
  }

  /** helpers::log2ceil. `Log2CeilAsWritten` ties it to the 64-bit expression of the source. */
  function Log2Ceil(n: nat): nat
  {
    if n == 0 then 0 else BitLength(n - 1)
  }

  /** std::bit_ceil */
  function BitCeil(n: nat): nat
  {
    Pow2(Log2Ceil(n))
  }

  lemma {:induction false} Pow2Monotone(a: nat, b: nat)
    requires a <= b
    ensures Pow2(a) <= Pow2(b)
  {
    if a < b {
      Pow2Monotone(a, b - 1);
    }
  }

  lemma {:induction false} Pow2Add(a: nat, b: nat)
    ensures Pow2(a + b) == Pow2(a) * Pow2(b)
  {
    if a > 0 {
      Pow2Add(a - 1, b);
      assert Pow2(a + b) == 2 * (Pow2(a - 1) * Pow2(b));
    }
  }

  lemma {:induction false} BitLengthBounds(m: nat)
    ensures m < Pow2(BitLength(m))
    ensures m > 0 ==> Pow2(BitLength(m) - 1) <= m
  {
    if m > 0 {
      BitLengthBounds(m / 2);
      if m / 2 > 0 {
        assert Pow2(BitLength(m) - 1) == 2 * Pow2(BitLength(m / 2) - 1);
      }
    }
  }

  /** log2ceil(n) is the exponent of the smallest power of two that is not below n. */
  lemma {:induction false} Log2CeilLeast(n: nat, k: nat)
    ensures n <= Pow2(k) <==> Log2Ceil(n) <= k
  {
    if n > 0 {
      BitLengthBounds(n - 1);
      var b := BitLength(n - 1);
      if b <= k {
        Pow2Monotone(b, k);
      } else {
        Pow2Monotone(k, b - 1);
      }
    }
  }

  lemma {:induction false} CountlZeroBitLength(m: nat, width: nat)
    requires m < Pow2(width)
    ensures CountlZero(m, width) + BitLength(m) == width
  {
    BitLengthBounds(m);
    if width == 0 {
    } else if Pow2(width - 1) <= m {
      if BitLength(m) < width { Pow2Monotone(BitLength(m), width - 1); }
      if BitLength(m) > width { Pow2Monotone(width, BitLength(m) - 1); }
    } else {
      CountlZeroBitLength(m, width - 1);
    }
  }

  /** The source's expression, 64 - countl_zero(n - 1), for a 64-bit unsigned argument. */
  lemma Log2CeilAsWritten(n: nat)
    requires n < Pow2(64)
    ensures Log2Ceil(n) == if n == 0 then 0 else 64 - CountlZero(n - 1, 64)
  {
    if n > 0 {
      CountlZeroBitLength(n - 1, 64);
    }
  }

  lemma {:induction false} Log2CeilOfPow2(k: nat)
    ensures Log2Ceil(Pow2(k)) == k
  {
    Log2CeilLeast(Pow2(k), k);
    var b := Log2Ceil(Pow2(k));
    Log2CeilLeast(Pow2(k), b);
    if b < k {
      Pow2Monotone(b, k - 1);
    }
  }

  /** Halving the power of two at or above n >= 2 leaves a first half 2^k and a last half of 1 to 2^k elements. */
  lemma SplitPoint(n: nat) returns (k: nat)
    requires n >= 2
    ensures BitCeil(n) / 2 == Pow2(k)
    ensures Pow2(k) < n <= Pow2(k + 1)
    ensures Log2Ceil(n) == k + 1
  {
    BitLengthBounds(n - 1);
    k := BitLength(n - 1) - 1;
    assert Pow2(k + 1) == 2 * Pow2(k);
  }

  /** The least number of groups of d that hold n. */
  lemma CeilDivLeast(n: nat, d: nat, q: nat)
    requires d > 0
    ensures n <= d * q <==> CeilDiv(n, d) <= q
  {
    var c := CeilDiv(n, d);
    assert d * c <= n + d - 1 < d * c + d;
    if c > q {
      AtLeastOnce(d, c, q);
    } else {
      assert d * q == d * c + d * (q - c);
      assert d * (q - c) >= 0;
    }
  }

  lemma QuotientUnique(n: nat, d: nat, q: nat, r: nat)
    requires d > 0 && n == d * q + r && r < d
    ensures n / d == q
  {
    var q' := n / d;
    if q > q' { AtLeastOnce(d, q, q'); }
    if q < q' { AtLeastOnce(d, q', q); }
  }

  lemma AtLeastOnce(d: nat, big: nat, small: nat)
    requires big > small
    ensures d * big >= d * small + d
  {
    assert d * big == d * small + d * (big - small);
    assert d * (big - small) == d + d * (big - small - 1);
  }

  lemma DivAddOne(a: nat, m: nat)
    requires m > 0
    ensures (a + m) / m == a / m + 1
  {
    QuotientUnique(a + m, m, a / m + 1, a % m);
  }

  lemma DivTwice(a: nat, m: nat)
    requires m > 0
    ensures a / (2 * m) == (a / m) / 2
  {
    var q, r := a / m, a % m;
    var p := q / 2;
    if q == 2 * p {
      QuotientUnique(a, 2 * m, p, r);
    } else {
      assert m * (2 * p + 1) == 2 * m * p + m;
      QuotientUnique(a, 2 * m, p, m + r);
    }
  }
}
