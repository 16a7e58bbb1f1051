/** hash_tree_root of every kind of object (lib/merkleize.hpp, lib/container.hpp). */
module ObjectRoot {
  import opened Bytes
  import opened Buffers
  import opened MathHelpers
  import opened MerkleTree
  import opened SparseTree
  import opened VectorRoot
  import opened Bits
  import opened Schema

  // ---- the "Merkleization" section of simple-serialize.md ----

  /** Types whose values are packed into chunks, rather than represented by the roots of their members. */
  predicate Packed(t: Type)
  {
    t.Uint? || t.Bool? || t.Bitvector? || t.Bitlist? || ((t.Vector? || t.List?) && t.elem.Uint?)
  }

  /** chunk_count(type) */
  function ChunkCount(t: Type): nat
  {
    match t
    case Uint(_) => 1
    case Bool => 1
    case Bitvector(n) => CeilDiv(n, 256)
    case Bitlist(limit) => CeilDiv(limit, 256)
    case Vector(elem, n) => if elem.Uint? then CeilDiv(n * elem.width, 32) else n
    case List(elem, limit) => if elem.Uint? then CeilDiv(limit * elem.width, 32) else limit
    case Container(fields) => |fields|
  }

  /** Trees of all types inside stay within the table of zero hashes, also when a list is empty. */
  predicate Shallow(t: Type)
  {
    && Log2Ceil(ChunkCount(t)) <= (if t.List? || t.Bitlist? then ZERO_HASH_DEPTH - 1 else ZERO_HASH_DEPTH)
    && match t
       case Vector(elem, _) => Shallow(elem)
       case List(elem, _) => Shallow(elem)
       case Container(fields) => forall i :: 0 <= i < |fields| ==> Shallow(fields[i])
       case _ => true
  }

  ghost function PackedBytes(t: Type, v: Value): seq<Byte>
    requires HasType(t, v)
  {
    if t.Bitlist? then PackBits(v.bits) else Serialize(t, v)
  }

  ghost function ChunksOf(h: Hash, t: Type, v: Value): (cs: seq<Chunk>)
    requires WellFormed(t) && HasType(t, v)
    ensures |cs| == if Packed(t) then CeilDiv(|PackedBytes(t, v)|, 32) else |v.items|
    decreases v, 1, 0
  {
    if Packed(t) then Chunkify(PackedBytes(t, v)) else MemberRoots(h, t, v.items, 0, |v.items|)
  }

  ghost function MemberRoots(h: Hash, t: Type, vs: seq<Value>, lo: nat, hi: nat): (cs: seq<Chunk>)
    requires WellFormed(t) && HaveTypes(t, vs) && lo <= hi <= |vs|
    ensures |cs| == hi - lo
    decreases vs, 0, hi - lo
  {
    if lo == hi then [] else [RootOf(h, Member(t, lo), vs[lo])] + MemberRoots(h, t, vs, lo + 1, hi)
  }

  function LengthChunk(n: nat): Chunk
  {
    LittleEndian(n, 8) + Zeros(24)
  }

  /** The mixed-in length is a little-endian number of 32 bytes. */
  lemma LengthIsNumber(n: nat)
    requires n < Pow256(8)
    ensures LengthChunk(n) == LittleEndian(n, 32)
  {
    WiderNumber(n, 8, 24);
  }

  /** mix_in_length */
  function MixIn(h: Hash, root: Chunk, length: nat): Chunk
  {
    h(root, LengthChunk(length))
  }

  function Length(v: Value): nat
    requires v.BitString? || v.Items?
  {
    if v.BitString? then |v.bits| else |v.items|
  }

  ghost function RootOf(h: Hash, t: Type, v: Value): Chunk
    requires WellFormed(t) && HasType(t, v)
    decreases v, 2, 0
  {
    ChunksFit(t, v);
    var root := VectorRootOf(h, ChunksOf(h, t, v), ChunkCount(t));
    if t.List? || t.Bitlist? then MixIn(h, root, Length(v)) else root
  }

  // ---- chunk counts ----

  lemma PackedLength(t: Type, v: Value)
    requires WellFormed(t) && HasType(t, v) && Packed(t) && (t.Vector? || t.List?)
    ensures |PackedBytes(t, v)| == |v.items| * t.elem.width
  {
    HeadsLength(t, v.items, 0, HeadLength(t, 0, |v.items|));
    NoTails(t, v.items, 0);
    UniformHeads(t, 0, |v.items|);
  }

  /** There is room for all chunks; only lists may have fewer than there is room for. */
  lemma ChunksFit(t: Type, v: Value)
    requires WellFormed(t) && HasType(t, v)
    ensures var n := if Packed(t) then CeilDiv(|PackedBytes(t, v)|, 32) else |v.items|;
      n <= ChunkCount(t) && (t.List? || t.Bitlist? || n == ChunkCount(t))
  {
    match t
    case Vector(elem, n) => if elem.Uint? { PackedLength(t, v); }
    case List(elem, limit) =>
      if elem.Uint? {
        PackedLength(t, v);
        assert |v.items| * elem.width <= limit * elem.width by {
          assert (limit - |v.items|) * elem.width >= 0;
        }
      }
    case _ =>
  }

  /** A list or bitlist with as many members as its limit allows has as many chunks as its tree has room for. */
  lemma LimitIsMet(t: Type, v: Value)
    requires WellFormed(t) && HasType(t, v) && (t.List? || t.Bitlist?) && Length(v) == t.limit
    ensures (if Packed(t) then CeilDiv(|PackedBytes(t, v)|, 32) else |v.items|) == ChunkCount(t)
  {
    if t.List? && t.elem.Uint? { PackedLength(t, v); }
  }

  /** With no limit given, a type other than a list gets the depth its chunk count asks for. */
  lemma NoLimit(h: Hash, t: Type, v: Value)
    requires WellFormed(t) && HasType(t, v) && !t.List? && !t.Bitlist?
    ensures RootOf(h, t, v) == VectorRootOf(h, ChunksOf(h, t, v), 0)
  {
    ChunksFit(t, v);
  }

  lemma LimitIsGood(t: Type, v: Value)
    requires WellFormed(t) && HasType(t, v) && Shallow(t)
    ensures var n := if Packed(t) then CeilDiv(|PackedBytes(t, v)|, 32) else |v.items|;
      GoodLimit(n, ChunkCount(t)) && (!t.List? && !t.Bitlist? ==> GoodLimit(n, 0))
  {
    hide Log2Ceil, PackedBytes, CeilDiv;
    ChunksFit(t, v);
    if !t.List? && !t.Bitlist? { ChunksExist(t); }
  }

  lemma ChunksExist(t: Type)
    requires WellFormed(t) && !t.List? && !t.Bitlist?
    ensures ChunkCount(t) > 0
  {
    if t.Vector? && t.elem.Uint? { assert t.length * t.elem.width >= t.length; }
  }

  lemma {:induction false} MemberRootAt(h: Hash, t: Type, vs: seq<Value>, lo: nat, hi: nat, i: nat)
    requires WellFormed(t) && HaveTypes(t, vs) && lo <= hi <= |vs| && i < hi - lo
    ensures MemberRoots(h, t, vs, lo, hi)[i] == RootOf(h, Member(t, lo + i), vs[lo + i])
    decreases i
  {
    hide RootOf;
    if i > 0 {
      MemberRootAt(h, t, vs, lo + 1, hi, i - 1);
    }
  }

  lemma {:induction false} MemberRootsSplit(h: Hash, t: Type, vs: seq<Value>, lo: nat, mid: nat, hi: nat)
    requires WellFormed(t) && HaveTypes(t, vs) && lo <= mid <= hi <= |vs|
    ensures MemberRoots(h, t, vs, lo, hi) == MemberRoots(h, t, vs, lo, mid) + MemberRoots(h, t, vs, mid, hi)
    decreases mid - lo
  {
    hide RootOf;
    if lo < mid {
      MemberRootsSplit(h, t, vs, lo + 1, mid, hi);
    }
  }

  // ---- the memory of vectors of basic elements ----

  /** The object representation of the elements from i on, on a little-endian machine. */
  function Memory(w: nat, vs: seq<Value>, i: nat): (bs: seq<Byte>)
    requires i <= |vs| && forall j :: 0 <= j < |vs| ==> vs[j].Number?
    ensures |bs| == (|vs| - i) * w
    decreases |vs| - i
  {
    if i == |vs| then [] else
      assert (|vs| - i) * w == w + (|vs| - i - 1) * w;
      LittleEndian(vs[i].n, w) + Memory(w, vs, i + 1)
  }

  lemma {:induction false} MemoryIsPacked(t: Type, vs: seq<Value>, i: nat, offset: nat)
    requires HaveTypes(t, vs) && (t.Vector? || t.List?) && t.elem.Uint? && i <= |vs|
    ensures forall j :: 0 <= j < |vs| ==> vs[j].Number?
    ensures Memory(t.elem.width, vs, i) == Heads(t, vs, i, offset)
    decreases |vs| - i
  {
    if i < |vs| {
      MemoryIsPacked(t, vs, i + 1, offset);
    }
  }

  lemma MemoryOf(t: Type, v: Value)
    requires HasType(t, v) && (t.Vector? || t.List?) && t.elem.Uint?
    ensures forall j :: 0 <= j < |v.items| ==> v.items[j].Number?
    ensures Memory(t.elem.width, v.items, 0) == PackedBytes(t, v)
  {
    var h := HeadLength(t, 0, |v.items|);
    assert HaveTypes(t, v.items);
    MemoryIsPacked(t, v.items, 0, h);
    NoTails(t, v.items, 0);
    assert Heads(t, v.items, 0, h) + [] == Heads(t, v.items, 0, h);
  }

  // ---- objects of a single chunk ----

  lemma OneChunk(h: Hash, bs: seq<Byte>)
    requires 0 < |bs| <= 32
    ensures |Chunkify(bs)| == 1
    ensures VectorRootOf(h, Chunkify(bs), 1) == bs + Zeros(32 - |bs|)
  {
    assert Log2Ceil(1) == 0;
    SingleNode(h, ZERO, Chunkify(bs));
  }

  lemma BasicRoot(h: Hash, t: Type, v: Value)
    requires WellFormed(t) && HasType(t, v) && (t.Uint? || t.Bool?)
    ensures 0 < |Serialize(t, v)| <= 32
    ensures RootOf(h, t, v) == Serialize(t, v) + Zeros(32 - |Serialize(t, v)|)
  {
    OneChunk(h, Serialize(t, v));
  }

  lemma RootRoot(h: Hash, v: Value)
    requires HasType(ROOT, v)
    ensures forall j :: 0 <= j < |v.items| ==> v.items[j].Number?
    ensures RootOf(h, ROOT, v) == Memory(1, v.items, 0)
  {
    MemoryOf(ROOT, v);
    OneChunk(h, PackedBytes(ROOT, v));
    assert Memory(1, v.items, 0) + Zeros(0) == Memory(1, v.items, 0);
  }

  // ---- hash_tree_root ----

  ghost function VectorChunks(h: Hash, t: Type, vs: seq<Value>): seq<Chunk>
    requires WellFormed(t) && HaveTypes(t, vs) && (t.Vector? || t.List?)
  {
    if t.elem.Uint? then
      MemoryIsPacked(t, vs, 0, 0);
      Chunkify(Memory(t.elem.width, vs, 0))
    else MemberRoots(h, t, vs, 0, |vs|)
  }

  lemma VectorChunksAre(h: Hash, t: Type, v: Value)
    requires WellFormed(t) && HasType(t, v) && (t.Vector? || t.List?)
    ensures HaveTypes(t, v.items)
    ensures VectorChunks(h, t, v.items) == ChunksOf(h, t, v)
  {
    if t.elem.Uint? { MemoryOf(t, v); }
  }

  /** The root of an object goes to one slot; a basic object writes its bytes only and needs the rest zeroed. */
  method HashTreeRoot(e: Engine, out: array<Chunk>, at: nat, t: Type, v: Value, cpuCount: nat, hardware: nat)
    requires e.Valid() && at < out.Length && WellFormed(t) && HasType(t, v) && Shallow(t)
    requires t.Uint? || t.Bool? ==> out[at] == ZERO
    modifies out
    ensures out[..] == old(out[..])[at := RootOf(e.hash, t, v)]
    decreases v, 3, 0
  {
    hide RootOf, ChunksOf, VectorRootOf, GoodLimit, Serialize, MixIn, VectorChunks, Log2Ceil, InTable;
    LimitIsGood(t, v);
    match t
    case Uint(w) =>
      BasicRoot(e.hash, t, v);
      NumberBytes(t, v);
      out[at] := LittleEndian(v.n, w) + out[at][w..];
    case Bool =>
      BasicRoot(e.hash, t, v);
      BoolBytes(t, v);
      out[at] := [if v.b then 1 else 0] + out[at][1..];
    case Bitvector(n) =>
      NoLimit(e.hash, t, v);
      HashBitvector(e, out, at, t, v, cpuCount, hardware);
    case Bitlist(limit) =>
      HashBitlist(e, out, at, t, v, cpuCount, hardware);
    case Vector(elem, n) =>
      NoLimit(e.hash, t, v);
      VectorChunksAre(e.hash, t, v);
      HashTreeRootVector(e, out, at, t, v.items, cpuCount, 0, hardware);
    case List(elem, limit) =>
      VectorChunksAre(e.hash, t, v);
      ListRoot(e.hash, t, v);
      var hash := new Chunk[1](_ => ZERO);
      HashTreeRootVector(e, hash, 0, t, v.items, cpuCount, ListLimit(t), hardware);
      out[at] := MixIn(e.hash, hash[0], |v.items|);
    case Container(fields) =>
      HashContainer(e, out, at, t, v, cpuCount, hardware);
  }

  /** The limit as the list overloads compute it. */
  function ListLimit(t: Type): nat
    requires t.List?
  {
    if t.elem.Uint? then (t.limit * t.elem.width + 31) / 32 else t.limit
  }

  lemma ListRoot(h: Hash, t: Type, v: Value)
    requires WellFormed(t) && HasType(t, v) && t.List?
    ensures ListLimit(t) == ChunkCount(t)
    ensures |ChunksOf(h, t, v)| <= ChunkCount(t)
    ensures RootOf(h, t, v) == MixIn(h, VectorRootOf(h, ChunksOf(h, t, v), ChunkCount(t)), |v.items|)
  {
    ChunksFit(t, v);
  }

  lemma NumberBytes(t: Type, v: Value)
    requires WellFormed(t) && t.Uint? && HasType(t, v)
    ensures Serialize(t, v) == LittleEndian(v.n, t.width)
    ensures ZERO[t.width..] == Zeros(32 - t.width)
  {}

  lemma BoolBytes(t: Type, v: Value)
    requires t.Bool? && HasType(t, v)
    ensures Serialize(t, v) == [if v.b then 1 else 0]
    ensures ZERO[1..] == Zeros(31)
  {}

  lemma BitvectorRoot(h: Hash, t: Type, v: Value)
    requires WellFormed(t) && HasType(t, v) && t.Bitvector? && Shallow(t)
    ensures v.BitString? && GoodLimit(CeilDiv(CeilDiv(|v.bits|, 8), 32), (|v.bits| + 255) / 256)
    ensures RootOf(h, t, v) == VectorRootOf(h, Chunkify(PackBits(v.bits)), (|v.bits| + 255) / 256)
  {
    hide Chunkify, PackBits, MemberRoots, GoodLimit, Shallow, VectorRootOf;
    LimitIsGood(t, v);
    ChunksFit(t, v);
  }

  method HashBitvector(e: Engine, out: array<Chunk>, at: nat, t: Type, v: Value, cpuCount: nat, hardware: nat)
    requires e.Valid() && at < out.Length && WellFormed(t) && HasType(t, v) && t.Bitvector? && Shallow(t)
    modifies out
    ensures out[..] == old(out[..])[at := RootOf(e.hash, t, v)]
  {
    hide VectorRootOf, GoodLimit, PackBits, BitsetOver, Chunkify, RootOf, Splice, Shallow, HasType, WellFormed, Zeros;
    BitvectorRoot(e.hash, t, v);
    var bytes := new Byte[(|v.bits| + 7) / 8](_ => 0);
    assert bytes[0..0 + CeilDiv(|v.bits|, 8)] == Zeros(CeilDiv(|v.bits|, 8));
    BitsetOverZeros(v.bits);
    SpliceWhole(bytes[..], PackBits(v.bits));
    WriteBitset(bytes, 0, v.bits);
    HashTreeRootBasic(e, out, at, bytes[..], bytes.Length, 1, cpuCount, (|v.bits| + 255) / 256, hardware);
  }

  method HashBitlist(e: Engine, out: array<Chunk>, at: nat, t: Type, v: Value, cpuCount: nat, hardware: nat)
    requires e.Valid() && at < out.Length && WellFormed(t) && HasType(t, v) && t.Bitlist? && Shallow(t)
    modifies out
    ensures out[..] == old(out[..])[at := RootOf(e.hash, t, v)]
  {
    hide RootOf, VectorRootOf, GoodLimit, PackBits, Chunkify, BitlistBytes, BitlistOver, StripDelimiter, MixIn;
    BitlistRoot(e.hash, t, v);
    var bytes := new Byte[|v.bits| / 8 + 1](_ => 0);
    BitlistNeedsZero(v.bits, 0);
    SpliceWhole(bytes[..], BitlistBytes(v.bits));
    WriteBitlist(bytes, 0, v.bits);
    StripLeavesPacking(v.bits);
    var data := StripDelimiter(bytes[..]);
    var hash := new Chunk[1](_ => ZERO);
    HashTreeRootBasic(e, hash, 0, data, |data|, 1, cpuCount, (t.limit + 255) / 256, hardware);
    out[at] := MixIn(e.hash, hash[0], |v.bits|);
  }

  lemma BitlistRoot(h: Hash, t: Type, v: Value)
    requires WellFormed(t) && HasType(t, v) && t.Bitlist? && Shallow(t)
    ensures GoodLimit(CeilDiv(CeilDiv(|v.bits|, 8), 32), (t.limit + 255) / 256)
    ensures RootOf(h, t, v) == MixIn(h, VectorRootOf(h, Chunkify(PackBits(v.bits)), (t.limit + 255) / 256), |v.bits|)
  {
    hide Chunkify, PackBits, Serialize, MemberRoots, MixIn, GoodLimit, Shallow, VectorRootOf;
    LimitIsGood(t, v);
    BitlistLimit(t);
    ChunksFit(t, v);
  }

  lemma BitlistLimit(t: Type)
    requires t.Bitlist?
    ensures Packed(t) && ChunkCount(t) == (t.limit + 255) / 256
  {}

  /** The three overloads for vectors: basic elements, roots, everything else. */
  method HashTreeRootVector(e: Engine, out: array<Chunk>, at: nat, t: Type, vs: seq<Value>,
                            cpuCount: nat, limit: nat, hardware: nat)
    requires e.Valid() && at < out.Length && WellFormed(t) && HaveTypes(t, vs) && (t.Vector? || t.List?)
    requires Shallow(t) && GoodLimit(|VectorChunks(e.hash, t, vs)|, limit)
    modifies out
    ensures out[..] == old(out[..])[at := VectorRootOf(e.hash, VectorChunks(e.hash, t, vs), limit)]
    decreases vs, 2, 0
  {
    hide RootOf, VectorRootOf, GoodLimit, Chunkify;
    if t.elem.Uint? {
      MemoryIsPacked(t, vs, 0, 0);
      HashTreeRootBasic(e, out, at, Memory(t.elem.width, vs, 0), |vs|, t.elem.width, cpuCount, limit, hardware);
    } else if t.elem == ROOT {
      RootsAreMembers(e.hash, t, vs, 0);
      HashTreeRootRoots(e, out, at, Roots(vs, 0), cpuCount, limit, hardware);
    } else {
      HashTreeRootComposite(e, out, at, t, vs, 0, |vs|, cpuCount, limit, hardware);
    }
  }

  /** The memory of a vector of roots is the sequence of these roots. */
  function Roots(vs: seq<Value>, i: nat): (cs: seq<Chunk>)
    requires i <= |vs| && forall j :: 0 <= j < |vs| ==> HasType(ROOT, vs[j])
    ensures |cs| == |vs| - i
    decreases |vs| - i
  {
    if i == |vs| then [] else
      RootBytes(vs[i]);
      [Memory(1, vs[i].items, 0)] + Roots(vs, i + 1)
  }

  lemma RootBytes(v: Value)
    requires HasType(ROOT, v)
    ensures |v.items| == 32 && forall j :: 0 <= j < |v.items| ==> v.items[j].Number?
  {
    MemoryOf(ROOT, v);
  }

  lemma {:induction false} RootsAreMembers(h: Hash, t: Type, vs: seq<Value>, i: nat)
    requires WellFormed(t) && HaveTypes(t, vs) && (t.Vector? || t.List?) && t.elem == ROOT && i <= |vs|
    ensures forall j :: 0 <= j < |vs| ==> HasType(ROOT, vs[j])
    ensures Roots(vs, i) == MemberRoots(h, t, vs, i, |vs|)
    decreases |vs| - i
  {
    hide RootOf, HasType;
    assert forall j :: 0 <= j < |vs| ==> HasType(Member(t, j), vs[j]);
    if i < |vs| {
      RootRoot(h, vs[i]);
      RootsAreMembers(h, t, vs, i + 1);
    }
  }

  /** Vectors of composite elements: fork and join down to a few elements, whose roots are then a byte vector. */
  method HashTreeRootComposite(e: Engine, result: array<Chunk>, at: nat, t: Type, vs: seq<Value>, lo: nat, hi: nat,
                               cpuCount: nat, limit: nat, hardware: nat)
    requires e.Valid() && at < result.Length && WellFormed(t) && HaveTypes(t, vs) && (t.Vector? || t.List?)
    requires !t.elem.Uint? && lo <= hi <= |vs| && Shallow(t) && GoodLimit(hi - lo, limit)
    modifies result
    ensures result[..] == old(result[..])[at := VectorRootOf(e.hash, MemberRoots(e.hash, t, vs, lo, hi), limit)]
    decreases vs, 1, hi - lo
  {
    hide RootOf, MemberRoots, VectorRootOf, GoodLimit, Log2Ceil, BitCeil, Raise;
    var cpu, rsize := Resolve(cpuCount, hardware), hi - lo;
    if cpu < 2 || rsize < 4 {
      HashElements(e, result, at, t, vs, lo, hi, limit, hardware);
      return;
    }
    ghost var k := RootSplit(rsize);
    var half := BitCeil(rsize) / 2;
    RootHalves(rsize, half, k, limit);
    MemberRootsSplit(e.hash, t, vs, lo, lo + half, hi);
    var twoBlocks := new Chunk[2](_ => ZERO);
    HashTreeRootComposite(e, twoBlocks, 1, t, vs, lo + half, hi, cpu / 2, half, hardware);
    HashTreeRootComposite(e, twoBlocks, 0, t, vs, lo, lo + half, cpu / 2, half, hardware);
    JoinHalves(e.hash, MemberRoots(e.hash, t, vs, lo, hi), limit, k);
    JoinAndTopUp(e, result, at, twoBlocks, Log2Ceil(half) + 1, limit);
  }

  /** The sequential path: the roots of the elements, each on one thread. */
  method HashElements(e: Engine, result: array<Chunk>, at: nat, t: Type, vs: seq<Value>, lo: nat, hi: nat,
                      limit: nat, hardware: nat)
    requires e.Valid() && at < result.Length && WellFormed(t) && HaveTypes(t, vs) && (t.Vector? || t.List?)
    requires !t.elem.Uint? && lo <= hi <= |vs| && Shallow(t) && GoodLimit(hi - lo, limit)
    modifies result
    ensures result[..] == old(result[..])[at := VectorRootOf(e.hash, MemberRoots(e.hash, t, vs, lo, hi), limit)]
    decreases vs, 0, 0
  {
    hide RootOf, MemberRoots, VectorRootOf, GoodLimit;
    var chunks := new Chunk[hi - lo](_ => ZERO);
    for i := 0 to hi - lo
      invariant result[..] == old(result[..])
      invariant forall j :: 0 <= j < hi - lo ==>
        chunks[j] == if j < i then MemberRoots(e.hash, t, vs, lo, hi)[j] else ZERO
    {
      MemberRootAt(e.hash, t, vs, lo, hi, i);
      HashTreeRoot(e, chunks, i, t.elem, vs[lo + i], 1, hardware);
    }
    assert chunks[..] == MemberRoots(e.hash, t, vs, lo, hi);
    ChunkifyFlatten(chunks[..]);
    HashTreeRootBasic(e, result, at, Flatten(chunks[..]), 32 * chunks.Length, 1, 1, limit, hardware);
  }

  /** _container_hash */
  method HashContainer(e: Engine, result: array<Chunk>, at: nat, t: Type, v: Value, cpuCount: nat, hardware: nat)
    requires e.Valid() && at < result.Length && WellFormed(t) && HasType(t, v) && t.Container? && Shallow(t)
    modifies result
    ensures result[..] == old(result[..])[at := RootOf(e.hash, t, v)]
    decreases v, 2, 0
  {
    hide RootOf, MemberRoots, VectorRootOf, GoodLimit;
    NoLimit(e.hash, t, v);
    LimitIsGood(t, v);
    ghost var vs, roots := v.items, ChunksOf(e.hash, t, v);
    var ret := new Chunk[|t.fields|](_ => ZERO);
    for i := 0 to |t.fields|
      invariant result[..] == old(result[..])
      invariant forall j :: 0 <= j < |t.fields| ==> ret[j] == if j < i then roots[j] else ZERO
    {
      MemberRootAt(e.hash, t, vs, 0, |vs|, i);
      HashTreeRoot(e, ret, i, t.fields[i], v.items[i], cpuCount, hardware);
    }
    assert ret[..] == roots;
    ChunkifyFlatten(ret[..]);
    HashTreeRootBasic(e, result, at, Flatten(ret[..]), 32 * ret.Length, 1, cpuCount, 0, hardware);
  }
}
