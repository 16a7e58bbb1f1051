/**
 What a root commits to. No hash on 32-byte chunks is injective, so the claim is: two values of a type with equal
 roots are equal, or two different pairs that were hashed on the way to these very roots have the same hash.
 */
module Binding {
  import opened Bytes
  import opened MathHelpers
  import opened MerkleTree
  import opened SparseTree
  import opened Bits
  import opened Schema
  import opened ObjectRoot

  /** Two inputs of the hash. */
  datatype Clash<T> = Clash(p: (T, T), q: (T, T))

  predicate Genuine<T(==)>(h: (T, T) -> T, x: Clash<T>)
  {
    x.p != x.q && h(x.p.0, x.p.1) == h(x.q.0, x.q.1)
  }

  // ---- trees ----

  ghost predicate PairIn<T>(s: seq<T>, p: (T, T))
  {
    |s| >= 2 && (p == (s[0], s[1]) || PairIn(s[2..], p))
  }

  /** The pair is hashed on the way from the layer `s` to its root. */
  ghost predicate TreeHashes<T>(h: (T, T) -> T, s: seq<T>, depth: nat, p: (T, T))
    requires |s| == Pow2(depth)
    decreases depth
  {
    depth > 0 && (PairIn(s, p) || TreeHashes(h, PairUp(h, s), depth - 1, p))
  }

  lemma {:induction false} LayerBinding<T>(h: (T, T) -> T, s: seq<T>, r: seq<T>, dummy: Clash<T>) returns (x: Clash<T>)
    requires |s| == |r| && |s| % 2 == 0 && PairUp(h, s) == PairUp(h, r)
    ensures s == r || (Genuine(h, x) && PairIn(s, x.p) && PairIn(r, x.q))
    decreases |s|
  {
    x := dummy;
    if s != [] {
      var p, q := (s[0], s[1]), (r[0], r[1]);
      assert PairUp(h, s)[0] == h(p.0, p.1) && PairUp(h, r)[0] == h(q.0, q.1);
      if p != q {
        x := Clash(p, q);
      } else {
        assert PairUp(h, s)[1..] == PairUp(h, s[2..]) && PairUp(h, r)[1..] == PairUp(h, r[2..]);
        x := LayerBinding(h, s[2..], r[2..], dummy);
        if s[2..] == r[2..] {
          assert s == [s[0], s[1]] + s[2..] && r == [r[0], r[1]] + r[2..];
        }
      }
    }
  }

  lemma {:induction false} TreeBinding<T>(h: (T, T) -> T, s: seq<T>, r: seq<T>, depth: nat, dummy: Clash<T>)
    returns (x: Clash<T>)
    requires |s| == |r| == Pow2(depth) && TreeRoot(h, s, depth) == TreeRoot(h, r, depth)
    ensures s == r || (Genuine(h, x) && TreeHashes(h, s, depth, x.p) && TreeHashes(h, r, depth, x.q))
    decreases depth
  {
    if depth == 0 {
      x := dummy;
    } else {
      x := TreeBinding(h, PairUp(h, s), PairUp(h, r), depth - 1, dummy);
      if PairUp(h, s) == PairUp(h, r) {
        x := LayerBinding(h, s, r, dummy);
      }
    }
  }

  lemma PadInjective<T>(s: seq<T>, r: seq<T>, z: T, n: nat)
    requires |s| == |r| <= n && Pad(s, z, n) == Pad(r, z, n)
    ensures s == r
  {
    assert Pad(s, z, n)[..|s|] == s && Pad(r, z, n)[..|r|] == r;
  }

  lemma {:induction false} ChunkifyInjective(a: seq<Byte>, b: seq<Byte>)
    requires |a| == |b| && Chunkify(a) == Chunkify(b)
    ensures a == b
    decreases |a|
  {
    if |a| >= 32 {
      ChunkifyHead(a);
      ChunkifyHead(b);
      assert Chunkify(a)[0] == a[..32] && Chunkify(b)[0] == b[..32];
      assert Chunkify(a)[1..] == Chunkify(a[32..]) && Chunkify(b)[1..] == Chunkify(b[32..]);
      ChunkifyInjective(a[32..], b[32..]);
      assert a == a[..32] + a[32..] && b == b[..32] + b[32..];
    } else if a != [] {
      var z := Zeros(32 - |a|);
      assert Chunkify(a)[0] == a + z && Chunkify(b)[0] == b + z;
      assert (a + z)[..|a|] == a && (b + z)[..|b|] == b;
    }
  }

  // ---- packed values ----

  lemma {:induction false} HeadsInjective(t: Type, vs: seq<Value>, ws: seq<Value>, i: nat, offset: nat)
    requires HaveTypes(t, vs) && HaveTypes(t, ws) && |vs| == |ws| && i <= |vs|
    requires (t.Vector? || t.List?) && t.elem.Uint?
    requires Heads(t, vs, i, offset) == Heads(t, ws, i, offset)
    ensures vs[i..] == ws[i..]
    decreases |vs| - i
  {
    if i < |vs| {
      var w := t.elem.width;
      var a, b := LittleEndian(vs[i].n, w), LittleEndian(ws[i].n, w);
      var as', bs' := Heads(t, vs, i + 1, offset), Heads(t, ws, i + 1, offset);
      assert HasType(Member(t, i), vs[i]) && HasType(Member(t, i), ws[i]);
      assert (a + as')[..w] == a && (b + bs')[..w] == b && (a + as')[w..] == as' && (b + bs')[w..] == bs';
      NumberRoundTrip(vs[i].n, w);
      NumberRoundTrip(ws[i].n, w);
      HeadsInjective(t, vs, ws, i + 1, offset);
      assert vs[i..] == [vs[i]] + vs[i + 1..] && ws[i..] == [ws[i]] + ws[i + 1..];
    }
  }

  lemma PackedInjective(t: Type, v: Value, w: Value)
    requires WellFormed(t) && HasType(t, v) && HasType(t, w) && Packed(t)
    requires t.List? || t.Bitlist? ==> Length(v) == Length(w)
    requires PackedBytes(t, v) == PackedBytes(t, w)
    ensures v == w
  {
    match t
    case Uint(n) =>
      NumberRoundTrip(v.n, n);
      NumberRoundTrip(w.n, n);
    case Bool =>
    case Bitvector(_) => BitsInjective(v.bits, w.bits);
    case Bitlist(_) => BitsInjective(v.bits, w.bits);
    case _ => ItemsInjective(t, v, w);
  }

  lemma BitsInjective(a: seq<bool>, b: seq<bool>)
    requires |a| == |b| && PackBits(a) == PackBits(b)
    ensures a == b
  {
    UnpackPacked(a, |a|);
    UnpackPacked(b, |b|);
    assert a[..|a|] == a && b[..|b|] == b;
  }

  lemma ItemsInjective(t: Type, v: Value, w: Value)
    requires WellFormed(t) && HasType(t, v) && HasType(t, w) && (t.Vector? || t.List?) && t.elem.Uint?
    requires |v.items| == |w.items| && Serialize(t, v) == Serialize(t, w)
    ensures v == w
  {
    var vs, ws := v.items, w.items;
    assert HaveTypes(t, vs) && HaveTypes(t, ws);
    var h := HeadLength(t, 0, |vs|);
    NoTails(t, vs, 0);
    NoTails(t, ws, 0);
    assert Heads(t, vs, 0, h) + [] == Heads(t, vs, 0, h) && Heads(t, ws, 0, h) + [] == Heads(t, ws, 0, h);
    HeadsInjective(t, vs, ws, 0, h);
    assert vs[0..] == vs && ws[0..] == ws;
  }

  // ---- objects ----

  ghost function Leaves(h: Hash, t: Type, v: Value): (s: seq<Chunk>)
    requires WellFormed(t) && HasType(t, v)
    ensures |s| == Pow2(Log2Ceil(ChunkCount(t)))
  {
    ChunksFit(t, v);
    Log2CeilLeast(ChunkCount(t), Log2Ceil(ChunkCount(t)));
    Pad(ChunksOf(h, t, v), ZERO, Pow2(Log2Ceil(ChunkCount(t))))
  }

  /** Root of the chunks, before a length is mixed in. */
  ghost function DataRoot(h: Hash, t: Type, v: Value): Chunk
    requires WellFormed(t) && HasType(t, v)
  {
    TreeRoot(h, Leaves(h, t, v), Log2Ceil(ChunkCount(t)))
  }

  lemma RootParts(h: Hash, t: Type, v: Value)
    requires WellFormed(t) && HasType(t, v)
    ensures RootOf(h, t, v)
         == if t.List? || t.Bitlist? then h(DataRoot(h, t, v), LengthChunk(Length(v))) else DataRoot(h, t, v)
  {
    hide ChunksOf, Serialize, PackedBytes, LengthChunk;
    ChunksFit(t, v);
    if ChunkCount(t) == 0 { assert |ChunksOf(h, t, v)| == 0; }
  }

  /** The pair is hashed on the way to the root of the object. */
  ghost predicate ObjectHashes(h: Hash, t: Type, v: Value, p: (Chunk, Chunk))
    requires WellFormed(t) && HasType(t, v)
    decreases v, 1
  {
    || TreeHashes(h, Leaves(h, t, v), Log2Ceil(ChunkCount(t)), p)
    || ((t.List? || t.Bitlist?) && p == (DataRoot(h, t, v), LengthChunk(Length(v))))
    || (!Packed(t) && MembersHash(h, t, v.items, p))
  }

  ghost predicate MembersHash(h: Hash, t: Type, vs: seq<Value>, p: (Chunk, Chunk))
    requires WellFormed(t) && HaveTypes(t, vs)
    decreases vs, 0
  {
    exists i :: 0 <= i < |vs| && ObjectHashes(h, Member(t, i), vs[i], p)
  }

  /** Within the table of zero hashes no list is too long for its 64-bit length. */
  lemma LengthFits(t: Type, v: Value)
    requires WellFormed(t) && HasType(t, v) && Shallow(t) && (t.List? || t.Bitlist?)
    ensures Length(v) < Pow256(8)
  {
    Log2CeilLeast(ChunkCount(t), 41);
    TwoToThe41();
    FourBytes();
    if t.List? && t.elem.Uint? {
      LimitInChunks(t.limit, t.elem.width);
    }
  }

  lemma LimitInChunks(limit: nat, w: nat)
    requires w > 0
    ensures limit <= 32 * CeilDiv(limit * w, 32)
  {
    assert limit <= limit * w by { assert limit * (w - 1) >= 0; }
  }

  lemma TwoToThe41()
    ensures Pow2(41) == 0x200_0000_0000
  {
    assert Pow2(10) == 1024 by { assert Pow2(5) == 32 && Pow2(10) == 32 * Pow2(5); }
    Pow2Add(10, 10);
    Pow2Add(20, 20);
    assert Pow2(41) == 2 * Pow2(40);
  }

  lemma LengthChunkInjective(m: nat, n: nat)
    requires m < Pow256(8) && n < Pow256(8) && LengthChunk(m) == LengthChunk(n)
    ensures m == n
  {
    assert LengthChunk(m)[..8] == LittleEndian(m, 8) && LengthChunk(n)[..8] == LittleEndian(n, 8);
    NumberRoundTrip(m, 8);
    NumberRoundTrip(n, 8);
  }

  const NOTHING: Clash<Chunk> := Clash((ZERO, ZERO), (ZERO, ZERO))

  /** `x` shows the same hash for two different inputs, one from the root of `v`, one from that of `w`. */
  ghost predicate Shows(h: Hash, t: Type, v: Value, w: Value, x: Clash<Chunk>)
    requires WellFormed(t) && HasType(t, v) && HasType(t, w)
  {
    Genuine(h, x) && ObjectHashes(h, t, v, x.p) && ObjectHashes(h, t, w, x.q)
  }

  /** Equal roots: equal values, or a clash among what was hashed for them. */
  lemma {:induction false} RootBinds(h: Hash, t: Type, v: Value, w: Value) returns (x: Clash<Chunk>)
    requires WellFormed(t) && Shallow(t) && HasType(t, v) && HasType(t, w)
    requires RootOf(h, t, v) == RootOf(h, t, w)
    ensures v == w || Shows(h, t, v, w, x)
    decreases v, 1, 0
  {
    hide RootOf, ChunksOf, Serialize, Leaves, DataRoot, LengthChunk, Shallow;
    RootParts(h, t, v);
    RootParts(h, t, w);
    x := NOTHING;
    if t.List? || t.Bitlist? {
      x := Clash((DataRoot(h, t, v), LengthChunk(Length(v))), (DataRoot(h, t, w), LengthChunk(Length(w))));
      if x.p != x.q { return; }
      LengthFits(t, v);
      LengthFits(t, w);
      LengthChunkInjective(Length(v), Length(w));
    }
    x := DataBinds(h, t, v, w);
  }

  /** Equal roots of the chunks of equally long values. */
  lemma {:induction false} DataBinds(h: Hash, t: Type, v: Value, w: Value) returns (x: Clash<Chunk>)
    requires WellFormed(t) && Shallow(t) && HasType(t, v) && HasType(t, w)
    requires DataRoot(h, t, v) == DataRoot(h, t, w)
    requires t.List? || t.Bitlist? ==> Length(v) == Length(w)
    ensures v == w || Shows(h, t, v, w, x)
    decreases v, 0, 0
  {
    hide RootOf, ChunksOf, HasType, Serialize, Leaves, LengthChunk, PackedBytes, MemberRoots, Chunkify, TreeRoot;
    x := TreeBinding(h, Leaves(h, t, v), Leaves(h, t, w), Log2Ceil(ChunkCount(t)), NOTHING);
    if Leaves(h, t, v) == Leaves(h, t, w) {
      SameChunks(h, t, v, w);
      if Packed(t) {
        PackedBinds(h, t, v, w);
      } else {
        ItemsHaveTypes(t, v);
        ItemsHaveTypes(t, w);
        ChunksAreRoots(h, t, v);
        ChunksAreRoots(h, t, w);
        x := MembersBind(h, t, v.items, w.items, 0);
        assert v.items[0..] == v.items && w.items[0..] == w.items;
      }
    }
  }

  lemma ItemsHaveTypes(t: Type, v: Value)
    requires HasType(t, v) && Composite(t)
    ensures v.Items? && HaveTypes(t, v.items)
  {}

  lemma ChunksAreRoots(h: Hash, t: Type, v: Value)
    requires WellFormed(t) && HasType(t, v) && !Packed(t)
    ensures v.Items? && HaveTypes(t, v.items)
    ensures ChunksOf(h, t, v) == MemberRoots(h, t, v.items, 0, |v.items|)
  {
    hide MemberRoots;
  }

  lemma SameChunks(h: Hash, t: Type, v: Value, w: Value)
    requires WellFormed(t) && HasType(t, v) && HasType(t, w)
    requires t.List? || t.Bitlist? ==> Length(v) == Length(w)
    requires Leaves(h, t, v) == Leaves(h, t, w)
    ensures Packed(t) ==> |PackedBytes(t, v)| == |PackedBytes(t, w)|
    ensures !Packed(t) ==> |v.items| == |w.items|
    ensures ChunksOf(h, t, v) == ChunksOf(h, t, w)
  {
    hide RootOf, MemberRoots, Chunkify, Serialize;
    SameLength(t, v, w);
    ChunksFit(t, v);
    ChunksFit(t, w);
    PadInjective(ChunksOf(h, t, v), ChunksOf(h, t, w), ZERO, Pow2(Log2Ceil(ChunkCount(t))));
  }

  lemma SameLength(t: Type, v: Value, w: Value)
    requires WellFormed(t) && HasType(t, v) && HasType(t, w)
    requires t.List? || t.Bitlist? ==> Length(v) == Length(w)
    ensures Packed(t) ==> |PackedBytes(t, v)| == |PackedBytes(t, w)|
    ensures !Packed(t) ==> |v.items| == |w.items|
  {
    if Packed(t) && (t.Vector? || t.List?) {
      PackedLength(t, v);
      PackedLength(t, w);
    }
  }

  lemma PackedBinds(h: Hash, t: Type, v: Value, w: Value)
    requires WellFormed(t) && HasType(t, v) && HasType(t, w) && Packed(t)
    requires t.List? || t.Bitlist? ==> Length(v) == Length(w)
    requires |PackedBytes(t, v)| == |PackedBytes(t, w)| && ChunksOf(h, t, v) == ChunksOf(h, t, w)
    ensures v == w
  {
    hide PackedBytes, HasType;
    ChunkifyInjective(PackedBytes(t, v), PackedBytes(t, w));
    PackedInjective(t, v, w);
  }

  /** Equal roots of all members from i on. */
  lemma {:induction false} MembersBind(h: Hash, t: Type, vs: seq<Value>, ws: seq<Value>, i: nat)
    returns (x: Clash<Chunk>)
    requires WellFormed(t) && Shallow(t) && HaveTypes(t, vs) && HaveTypes(t, ws) && |vs| == |ws| && i <= |vs|
    requires MemberRoots(h, t, vs, 0, |vs|) == MemberRoots(h, t, ws, 0, |ws|)
    ensures vs[i..] == ws[i..] || (Genuine(h, x) && MembersHash(h, t, vs, x.p) && MembersHash(h, t, ws, x.q))
    decreases vs, 0, |vs| - i
  {
    hide RootOf, HasType, ObjectHashes, MemberRoots, MembersHash;
    x := NOTHING;
    if i < |vs| {
      MemberRootAt(h, t, vs, 0, |vs|, i);
      MemberRootAt(h, t, ws, 0, |ws|, i);
      x := RootBinds(h, Member(t, i), vs[i], ws[i]);
      if vs[i] == ws[i] {
        x := MembersBind(h, t, vs, ws, i + 1);
        SameSuffix(vs, ws, i);
      } else {
        MemberHashes(h, t, vs, i, x.p);
        MemberHashes(h, t, ws, i, x.q);
      }
    }
  }

  lemma SameSuffix(vs: seq<Value>, ws: seq<Value>, i: nat)
    requires i < |vs| == |ws| && vs[i] == ws[i]
    ensures vs[i + 1..] == ws[i + 1..] ==> vs[i..] == ws[i..]
  {
    assert vs[i..] == [vs[i]] + vs[i + 1..] && ws[i..] == [ws[i]] + ws[i + 1..];
  }

  lemma MemberHashes(h: Hash, t: Type, vs: seq<Value>, i: nat, p: (Chunk, Chunk))
    requires WellFormed(t) && HaveTypes(t, vs) && i < |vs| && ObjectHashes(h, Member(t, i), vs[i], p)
    ensures MembersHash(h, t, vs, p)
  {
    hide ObjectHashes, HasType;
  }

  // ---- why the length is mixed in ----

  /** Trailing zeros do not change the root of the chunks, whatever the limit... */
  lemma {:induction false} ZeroByteIsPadding(bs: seq<Byte>, n: nat)
    requires CeilDiv(|bs| + 1, 32) <= n
    ensures Pad(Chunkify(bs), ZERO, n) == Pad(Chunkify(bs + [0]), ZERO, n)
    decreases |bs|
  {
    if |bs| >= 32 {
      ChunkifyHead(bs);
      ChunkifyHead(bs + [0]);
      assert (bs + [0])[32..] == bs[32..] + [0] && (bs + [0])[..32] == bs[..32];
      ZeroByteIsPadding(bs[32..], n - 1);
      PadHead(bs[..32], Chunkify(bs[32..]), n);
      PadHead(bs[..32], Chunkify(bs[32..] + [0]), n);
    } else if bs == [] {
      assert bs + [0] == [0];
      assert Chunkify([0]) == [[0] + Zeros(31)] && [0] + Zeros(31) == ZERO;
      assert Pad(Chunkify([]), ZERO, n) == Pad([ZERO], ZERO, n);
    } else {
      assert bs + [0] + Zeros(31 - |bs|) == bs + Zeros(32 - |bs|);
      assert Chunkify(bs + [0]) == [bs + [0] + Zeros(32 - |bs + [0]|)];
    }
  }

  lemma PadHead(c: Chunk, cs: seq<Chunk>, n: nat)
    requires |cs| + 1 <= n
    ensures Pad([c] + cs, ZERO, n) == [c] + Pad(cs, ZERO, n - 1)
  {}

  lemma {:induction false} ZerosArePadding(bs: seq<Byte>, m: nat, n: nat)
    requires CeilDiv(|bs| + m, 32) <= n
    ensures Pad(Chunkify(bs), ZERO, n) == Pad(Chunkify(bs + Zeros(m)), ZERO, n)
    decreases m
  {
    hide Chunkify, Pad;
    if m == 0 {
      assert bs + Zeros(0) == bs;
    } else {
      ZerosArePadding(bs, m - 1, n);
      ZeroByteIsPadding(bs + Zeros(m - 1), n);
      assert bs + Zeros(m - 1) + [0] == bs + Zeros(m);
    }
  }

  /** The numbers of `ws` are those of `vs` followed by zeros. */
  predicate ZeroNumbersBehind(vs: seq<Value>, ws: seq<Value>)
  {
    && vs <= ws
    && (forall j :: 0 <= j < |ws| ==> ws[j].Number?)
    && forall j :: |vs| <= j < |ws| ==> ws[j] == Number(0)
  }

  lemma ZeroInFront(w: nat, vs: seq<Value>, ws: seq<Value>, i: nat)
    requires ZeroNumbersBehind(vs, ws) && |vs| <= i < |ws|
    ensures Memory(w, ws, i) == LittleEndian(0, w) + Memory(w, ws, i + 1)
  {
    hide LittleEndian;
    assert ws[i] == Number(0);
  }

  predicate AllZero(bs: seq<Byte>)
  {
    forall k :: 0 <= k < |bs| ==> bs[k] == 0
  }

  lemma AllZeroSum(a: seq<Byte>, b: seq<Byte>)
    requires AllZero(a) && AllZero(b)
    ensures AllZero(a + b)
  {}

  lemma AllZeroIs(bs: seq<Byte>)
    requires AllZero(bs)
    ensures bs == Zeros(|bs|)
  {}

  lemma {:induction false} MemoryOfZeros(w: nat, vs: seq<Value>, ws: seq<Value>, i: nat)
    requires ZeroNumbersBehind(vs, ws) && |vs| <= i <= |ws|
    ensures AllZero(Memory(w, ws, i))
    decreases |ws| - i
  {
    if i < |ws| {
      hide LittleEndian, Memory;
      ZeroInFront(w, vs, ws, i);
      MemoryOfZeros(w, vs, ws, i + 1);
      ZeroNumber(w);
      hide AllZero;
      AllZeroSum(LittleEndian(0, w), Memory(w, ws, i + 1));
    }
  }

  lemma {:induction false} MemoryBehind(w: nat, vs: seq<Value>, ws: seq<Value>, i: nat)
    requires ZeroNumbersBehind(vs, ws) && i <= |vs|
    ensures forall j :: 0 <= j < |vs| ==> vs[j].Number?
    ensures Memory(w, ws, i) == Memory(w, vs, i) + Zeros((|ws| - |vs|) * w)
    decreases |vs| - i
  {
    if i < |vs| {
      MemoryBehind(w, vs, ws, i + 1);
    } else {
      MemoryOfZeros(w, vs, ws, i);
      AllZeroIs(Memory(w, ws, i));
    }
  }

  lemma BitBehind(bs: seq<Byte>, m: nat, k: nat)
    ensures BitAt(bs + Zeros(m), k) == BitAt(bs, k)
  {
    if |bs| <= k / 8 < |bs| + m { NoBits(k % 8); }
  }

  lemma FalseBitsBehind(bits: seq<bool>, k: nat)
    ensures CeilDiv(|bits|, 8) <= CeilDiv(|bits| + k, 8)
    ensures PackBits(bits + Falses(k)) == PackBits(bits) + Zeros(CeilDiv(|bits| + k, 8) - CeilDiv(|bits|, 8))
  {
    hide PackBits, BitAt;
    var m := CeilDiv(|bits| + k, 8) - CeilDiv(|bits|, 8);
    forall q: nat
      ensures BitAt(PackBits(bits + Falses(k)), q) == BitAt(PackBits(bits) + Zeros(m), q)
    {
      PackedBitAt(bits + Falses(k), q);
      PackedBitAt(bits, q);
      BitBehind(PackBits(bits), m, q);
    }
    SameBytes(PackBits(bits + Falses(k)), PackBits(bits) + Zeros(m));
  }

  function Falses(k: nat): (s: seq<bool>)
    ensures |s| == k && forall i :: 0 <= i < k ==> !s[i]
  {
    seq(k, _ => false)
  }

  /** `w` is `v` with k more zeros at the end: bits, numbers, or elements whose own root is zero. */
  ghost predicate ZerosBehind(h: Hash, t: Type, v: Value, w: Value, k: nat)
    requires WellFormed(t) && HasType(t, v) && HasType(t, w) && (t.List? || t.Bitlist?)
  {
    if t.Bitlist? then w.bits == v.bits + Falses(k)
    else
      && HaveTypes(t, w.items) && |w.items| == |v.items| + k && v.items <= w.items
      && forall j :: |v.items| <= j < |w.items| ==>
           if t.elem.Uint? then w.items[j] == Number(0) else RootOf(h, Member(t, j), w.items[j]) == ZERO
  }

  lemma PackedBehind(h: Hash, t: Type, v: Value, w: Value, k: nat) returns (m: nat)
    requires WellFormed(t) && HasType(t, v) && HasType(t, w) && (t.List? || t.Bitlist?) && ZerosBehind(h, t, v, w, k)
    requires Packed(t)
    ensures PackedBytes(t, w) == PackedBytes(t, v) + Zeros(m)
  {
    hide PackBits;
    if t.Bitlist? {
      FalseBitsBehind(v.bits, k);
      m := CeilDiv(|v.bits| + k, 8) - CeilDiv(|v.bits|, 8);
    } else {
      MemoryOf(t, v);
      MemoryOf(t, w);
      MemoryBehind(t.elem.width, v.items, w.items, 0);
      m := (|w.items| - |v.items|) * t.elem.width;
    }
  }

  lemma RootsBehind(h: Hash, t: Type, v: Value, w: Value, k: nat, n: nat)
    requires WellFormed(t) && HasType(t, v) && HasType(t, w) && t.List? && !Packed(t) && ZerosBehind(h, t, v, w, k)
    requires |w.items| <= n
    ensures HaveTypes(t, v.items) && HaveTypes(t, w.items)
    ensures Pad(MemberRoots(h, t, v.items, 0, |v.items|), ZERO, n)
         == Pad(MemberRoots(h, t, w.items, 0, |w.items|), ZERO, n)
  {
    hide RootOf, MemberRoots, HasType;
    ItemsHaveTypes(t, v);
    ItemsHaveTypes(t, w);
    var a, b := MemberRoots(h, t, v.items, 0, |v.items|), MemberRoots(h, t, w.items, 0, |w.items|);
    forall j | 0 <= j < |w.items|
      ensures b[j] == if j < |v.items| then a[j] else ZERO
    {
      MemberRootAt(h, t, w.items, 0, |w.items|, j);
      if j < |v.items| { MemberRootAt(h, t, v.items, 0, |v.items|, j); }
    }
    assert Pad(a, ZERO, n) == Pad(b, ZERO, n);
  }

  lemma SameLeaves(h: Hash, t: Type, v: Value, w: Value, k: nat)
    requires WellFormed(t) && HasType(t, v) && HasType(t, w) && (t.List? || t.Bitlist?) && ZerosBehind(h, t, v, w, k)
    ensures Leaves(h, t, v) == Leaves(h, t, w)
  {
    hide RootOf, MemberRoots, Chunkify, PackBits, Serialize, PackedBytes, Pad, HasType, ZerosBehind, Log2Ceil;
    ChunksFit(t, v);
    ChunksFit(t, w);
    Log2CeilLeast(ChunkCount(t), Log2Ceil(ChunkCount(t)));
    var n := Pow2(Log2Ceil(ChunkCount(t)));
    if Packed(t) {
      var m := PackedBehind(h, t, v, w, k);
      ZerosArePadding(PackedBytes(t, v), m, n);
    } else {
      RootsBehind(h, t, v, w, k, n);
    }
  }

  /** ...so lists that differ in trailing zeros are told apart by the length, and by it alone. */
  lemma LengthSeparates(h: Hash, t: Type, v: Value, w: Value, k: nat)
    requires WellFormed(t) && Shallow(t) && HasType(t, v) && HasType(t, w) && (t.List? || t.Bitlist?)
    requires k > 0 && ZerosBehind(h, t, v, w, k)
    ensures var r := DataRoot(h, t, v);
      && DataRoot(h, t, w) == r
      && LengthChunk(Length(v)) != LengthChunk(Length(w))
      && RootOf(h, t, v) == h(r, LengthChunk(Length(v))) && RootOf(h, t, w) == h(r, LengthChunk(Length(w)))
  {
    hide RootOf, Leaves, LengthChunk;
    RootParts(h, t, v);
    RootParts(h, t, w);
    SameLeaves(h, t, v, w, k);
    LengthFits(t, v);
    LengthFits(t, w);
    if LengthChunk(Length(v)) == LengthChunk(Length(w)) {
      LengthChunkInjective(Length(v), Length(w));
    }
  }
}
