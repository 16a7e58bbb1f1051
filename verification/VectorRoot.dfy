/** The fork-join hash_tree_root of lib/merkleize.hpp for vectors of basic elements and of roots. */
module VectorRoot {
  import opened Bytes
  import opened MathHelpers
  import opened MerkleTree
  import opened SparseTree

  /** A cpu count of 0 stands for whatever number of threads the hardware reports, which may be 0 too. */
  function Resolve(cpuCount: nat, hardware: nat): nat
  {
    if cpuCount == 0 then hardware else cpuCount
  }

  /** What a limit must be for hash_tree_root: none, or room for all chunks, within the table of zero hashes. */
  predicate GoodLimit(count: nat, limit: nat)
  {
    && (limit == 0 || count <= limit)
    && InTable(count, limit)
  }

  /** merkleize(chunks, limit) */
  function VectorRootOf(h: Hash, cs: seq<Chunk>, limit: nat): Chunk
    requires limit == 0 || |cs| <= limit
  {
    TreeFits(|cs|, limit);
    Merkleize(h, ZERO, cs, TreeDepth(|cs|, limit))
  }

  // ---- split arithmetic ----

  lemma WidthIsPow2(w: nat) returns (a: nat)
    requires BasicWidth(w)
    ensures a <= 5 && w == Pow2(a)
  {
    assert Pow2(1) == 2 && Pow2(2) == 4 && Pow2(3) == 8;
    assert Pow2(5) == 4 * Pow2(3);
    a := if w == 1 then 0 else if w == 2 then 1 else if w == 4 then 2 else if w == 8 then 3 else 5;
  }

  /** From 128 elements on the split falls on a chunk boundary and the first half is a power of two of chunks. */
  lemma BasicSplit(rsize: nat, w: nat) returns (k: nat)
    requires rsize >= 128 && BasicWidth(w)
    ensures var half := BitCeil(rsize) / 2;
      && 0 < half < rsize && rsize - half <= half
      && half * w == 32 * Pow2(k)
      && CeilDiv(half * w, 32) == Pow2(k) && Log2Ceil(CeilDiv(half * w, 32)) == k
      && Pow2(k) < CeilDiv(rsize * w, 32) <= Pow2(k + 1)
      && Log2Ceil(CeilDiv(rsize * w, 32)) == k + 1
  {
    hide Log2Ceil;
    var j := SplitPoint(rsize);
    SixBits(j);
    k := HalfInChunks(j, w);
    ScaledBounds(Pow2(j), rsize, w, Pow2(k));
    Log2CeilOfPow2(k);
    Log2CeilBetween(CeilDiv(rsize * w, 32), k);
  }

  lemma HalfInChunks(j: nat, w: nat) returns (k: nat)
    requires j >= 6 && BasicWidth(w)
    ensures Pow2(j) * w == 32 * Pow2(k)
  {
    var a := WidthIsPow2(w);
    k := j + a - 5;
    Pow2Add(j, a);
    Pow2Add(k, 5);
    assert Pow2(5) == 32 by { assert Pow2(5) == 4 * Pow2(3); assert Pow2(3) == 8; }
  }

  lemma Log2CeilBetween(c: nat, k: nat)
    requires Pow2(k) < c <= Pow2(k + 1)
    ensures Log2Ceil(c) == k + 1
  {
    Log2CeilLeast(c, k);
    Log2CeilLeast(c, k + 1);
  }

  lemma SixBits(j: nat)
    requires 128 <= Pow2(j + 1)
    ensures j >= 6
  {
    assert Pow2(6) == 64 by { assert Pow2(3) == 8 && Pow2(6) == 8 * Pow2(3); }
    if j < 6 {
      Pow2Monotone(j + 1, 6);
    }
  }

  lemma ScaledBounds(half: nat, rsize: nat, w: nat, p: nat)
    requires half < rsize <= 2 * half && w > 0 && half * w == 32 * p
    ensures p < CeilDiv(rsize * w, 32) <= 2 * p
  {
    assert rsize * w == half * w + (rsize - half) * w;
    assert (rsize - half) * w >= 1;
    assert rsize * w <= 2 * half * w by { assert (2 * half - rsize) * w >= 0; }
  }

  /** From two roots on the halves are non-empty and the first is a power of two of roots. */
  lemma RootSplit(rsize: nat) returns (k: nat)
    requires rsize >= 2
    ensures var half := BitCeil(rsize) / 2;
      && 0 < half < rsize && rsize - half <= half
      && half == Pow2(k) && Log2Ceil(half) == k
      && Log2Ceil(rsize) == k + 1
  {
    k := SplitPoint(rsize);
    Log2CeilOfPow2(k);
  }

  /** The depth reached by topping up from k + 1 is that of the whole tree. */
  lemma TopUpDepth(count: nat, limit: nat, k: nat)
    requires limit == 0 || count <= limit
    requires Log2Ceil(count) == k + 1
    ensures TreeDepth(count, limit) == Max(k + 1, Log2Ceil(limit))
  {
    if limit > 0 {
      Log2CeilLeast(limit, Log2Ceil(limit));
      Log2CeilLeast(count, Log2Ceil(limit));
    }
  }

  /** Joining the two halves, each padded to 2^k chunks, and topping up gives the root of the whole. */
  lemma JoinHalves(h: Hash, cs: seq<Chunk>, limit: nat, k: nat)
    requires GoodLimit(|cs|, limit)
    requires Pow2(k) < |cs| && Log2Ceil(|cs|) == k + 1
    ensures |cs| <= Pow2(k + 1)
    ensures var first, last := cs[..Pow2(k)], cs[Pow2(k)..];
      Raise(h, ZERO, h(VectorRootOf(h, first, Pow2(k)), VectorRootOf(h, last, Pow2(k))), k + 1, Log2Ceil(limit))
      == VectorRootOf(h, cs, limit)
  {
    var depth := Max(k + 1, Log2Ceil(limit));
    Log2CeilLeast(|cs|, k + 1);
    Log2CeilOfPow2(k);
    TopUpDepth(|cs|, limit, k);
    ForkJoin(h, ZERO, cs, k, depth);
  }

  // ---- the three fork-join methods share their tail ----

  /** hash(result, two_blocks, 1) and the loop that folds in zero hashes up to the limit. */
  method JoinAndTopUp(e: Engine, result: array<Chunk>, at: nat, twoBlocks: array<Chunk>, from: nat, limit: nat)
    requires e.Valid() && at < result.Length && twoBlocks.Length == 2 && twoBlocks != result
    requires Log2Ceil(limit) <= ZERO_HASH_DEPTH
    modifies result
    ensures result[..] == old(result[..])[at := Raise(e.hash, ZERO,
              e.hash(old(twoBlocks[0]), old(twoBlocks[1])), from, Log2Ceil(limit))]
  {
    hide Log2Ceil, ZeroHash;
    result[at] := e.hash(twoBlocks[0], twoBlocks[1]);
    ghost var goal := Raise(e.hash, ZERO, result[at], from, Log2Ceil(limit));
    var i := from;
    while i < Log2Ceil(limit)
      invariant Raise(e.hash, ZERO, result[at], i, Log2Ceil(limit)) == goal
      invariant result[..] == old(result[..])[at := result[at]]
    {
      result[at] := e.hash(result[at], e.zeros[i]);
      i := i + 1;
    }
  }

  /** The sequential path: build the sparse tree and copy its last 32 bytes. */
  method SequentialRoot(e: Engine, chunks: seq<Byte>, limit: nat) returns (root: Chunk)
    requires e.Valid() && GoodLimit(CeilDiv(|chunks|, 32), limit)
    ensures root == VectorRootOf(e.hash, Chunkify(chunks), limit)
  {
    var tree := SparseHashTree(e, chunks, limit);
    return tree[tree.Length - 1];
  }

  /** Vectors of basic elements; `r` is the memory of `rsize` elements of `width` bytes. */
  method HashTreeRootBasic(e: Engine, result: array<Chunk>, at: nat, r: seq<Byte>, rsize: nat, width: nat,
                           cpuCount: nat, limit: nat, hardware: nat)
    requires e.Valid() && at < result.Length && BasicWidth(width) && |r| == rsize * width
    requires GoodLimit(CeilDiv(|r|, 32), limit)
    modifies result
    ensures result[..] == old(result[..])[at := VectorRootOf(e.hash, Chunkify(r), limit)]
    decreases rsize
  {
    hide VectorRootOf, GoodLimit, Log2Ceil, BitCeil, Chunkify, Raise;
    var cpu := Resolve(cpuCount, hardware);
    if cpu < 2 || rsize < 128 {
      var root := SequentialRoot(e, r, limit);
      result[at] := root;
      return;
    }
    ghost var k := BasicSplit(rsize, width);
    var half := BitCeil(rsize) / 2;
    var chunkSize := (half * width + 31) / 32;
    Remainder(rsize, half, width);
    BasicHalves(r, half * width, k, limit);
    var first, last := r[..half * width], r[half * width..];
    var twoBlocks := new Chunk[2](_ => ZERO);
    HashTreeRootBasic(e, twoBlocks, 1, last, rsize - half, width, cpu / 2, chunkSize, hardware);
    HashTreeRootBasic(e, twoBlocks, 0, first, half, width, cpu / 2, chunkSize, hardware);
    JoinHalves(e.hash, Chunkify(r), limit, k);
    JoinAndTopUp(e, result, at, twoBlocks, Log2Ceil(chunkSize) + 1, limit);
  }

  lemma Remainder(rsize: nat, half: nat, width: nat)
    requires half <= rsize
    ensures rsize * width - half * width == (rsize - half) * width
    ensures half * width <= rsize * width
  {
    assert (rsize - half) * width >= 0;
  }

  lemma BasicHalves(r: seq<Byte>, cut: nat, k: nat, limit: nat)
    requires cut <= |r| && cut == 32 * Pow2(k)
    requires CeilDiv(|r|, 32) <= Pow2(k + 1) && Log2Ceil(CeilDiv(|r|, 32)) == k + 1
    requires GoodLimit(CeilDiv(|r|, 32), limit)
    ensures Pow2(k) <= |Chunkify(r)|
    ensures Chunkify(r[..cut]) == Chunkify(r)[..Pow2(k)] && Chunkify(r[cut..]) == Chunkify(r)[Pow2(k)..]
    ensures GoodLimit(CeilDiv(cut, 32), Pow2(k)) && GoodLimit(CeilDiv(|r| - cut, 32), Pow2(k))
    ensures Log2Ceil(limit) <= ZERO_HASH_DEPTH
  {
    ChunkifySplit(r, Pow2(k));
    Log2CeilOfPow2(k);
    TopUpDepth(CeilDiv(|r|, 32), limit, k);
  }

  /** Vectors of roots, hashed without a copy. */
  method HashTreeRootRoots(e: Engine, result: array<Chunk>, at: nat, r: seq<Chunk>,
                           cpuCount: nat, limit: nat, hardware: nat)
    requires e.Valid() && at < result.Length && GoodLimit(|r|, limit)
    modifies result
    ensures result[..] == old(result[..])[at := VectorRootOf(e.hash, r, limit)]
    decreases |r|
  {
    hide VectorRootOf, GoodLimit, Log2Ceil, BitCeil, Chunkify, Raise;
    var cpu := Resolve(cpuCount, hardware);
    if cpu < 2 || |r| < 4 {
      ChunkifyFlatten(r);
      var root := SequentialRoot(e, Flatten(r), limit);
      result[at] := root;
      return;
    }
    ghost var k := RootSplit(|r|);
    var half := BitCeil(|r|) / 2;
    RootHalves(|r|, half, k, limit);
    var first, last := r[..half], r[half..];
    var twoBlocks := new Chunk[2](_ => ZERO);
    HashTreeRootRoots(e, twoBlocks, 1, last, cpu / 2, half, hardware);
    HashTreeRootRoots(e, twoBlocks, 0, first, cpu / 2, half, hardware);
    JoinHalves(e.hash, r, limit, k);
    JoinAndTopUp(e, result, at, twoBlocks, Log2Ceil(half) + 1, limit);
  }

  lemma RootHalves(rsize: nat, half: nat, k: nat, limit: nat)
    requires half == Pow2(k) && 0 < half < rsize <= 2 * half && Log2Ceil(rsize) == k + 1 && GoodLimit(rsize, limit)
    ensures GoodLimit(half, half) && GoodLimit(rsize - half, half)
    ensures Log2Ceil(limit) <= ZERO_HASH_DEPTH
  {
    Log2CeilOfPow2(k);
    TopUpDepth(rsize, limit, k);
  }
}
