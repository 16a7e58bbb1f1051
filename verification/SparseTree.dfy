/**
 lib/merkleize.hpp up to sparse_hash_tree: the sparse tree built layer by layer in one buffer.
 Buffers that hold hashes are arrays of 32-byte units; inputs are bytes.
 */
module SparseTree {
  import opened Bytes
  import opened Buffers
  import opened MathHelpers
  import opened MerkleTree

  type Chunk = c: seq<Byte> | |c| == 32 witness Zeros(32)
  type Hash = (Chunk, Chunk) -> Chunk

  const ZERO: Chunk := Zeros(32)
  const ZERO_HASH_DEPTH := 42

  /** The hash together with the table zero_hash_array built from it. */
  datatype Engine = Engine(hash: Hash, zeros: seq<Chunk>) {
    ghost predicate Valid() {
      && |zeros| == ZERO_HASH_DEPTH
      && forall i {:trigger zeros[i]} :: 0 <= i < |zeros| ==> zeros[i] == ZeroHash(hash, ZERO, i)
    }
  }

  /** pack: cut into chunks of 32 bytes, the last one filled up with zeros. */
  function Chunkify(data: seq<Byte>): (cs: seq<Chunk>)
    ensures |cs| == CeilDiv(|data|, 32)
  {
    if data == [] then []
    else if |data| <= 32 then [data + Zeros(32 - |data|)]
    else [data[..32]] + Chunkify(data[32..])
  }

  function Flatten(cs: seq<Chunk>): (data: seq<Byte>)
    ensures |data| == 32 * |cs|
  {
    if cs == [] then [] else cs[0] + Flatten(cs[1..])
  }

  /** The j-th whole chunk of some bytes. */
  function ChunkAt(data: seq<Byte>, j: nat): Chunk
    requires 32 * j + 32 <= |data|
  {
    data[32 * j..32 * j + 32]
  }

  /** What the hash library computes for the blocks i to count - 1 of 64 bytes each. */
  function HashedBlocks(h: Hash, input: seq<Byte>, i: nat, count: nat): (out: seq<Chunk>)
    requires i <= count && 64 * count <= |input|
    ensures |out| == count - i
    decreases count - i
  {
    if i == count then [] else
      [h(ChunkAt(input, 2 * i), ChunkAt(input, 2 * i + 1))] + HashedBlocks(h, input, i + 1, count)
  }

  // ---- bytes and chunks ----

  lemma ChunkifyHead(data: seq<Byte>)
    requires |data| >= 32
    ensures Chunkify(data) == [data[..32]] + Chunkify(data[32..])
  {
    if |data| == 32 {
      assert data + Zeros(0) == data;
    }
  }

  /** Byte k of chunk j is byte 32 j + k of the data; behind its end come zeros. */
  lemma {:induction false} ChunkifyAt(data: seq<Byte>, j: nat, k: nat)
    requires j < CeilDiv(|data|, 32) && k < 32
    ensures Chunkify(data)[j][k] == if 32 * j + k < |data| then data[32 * j + k] else 0
    decreases j
  {
    if j > 0 {
      ChunkifyHead(data);
      ChunkifyAt(data[32..], j - 1, k);
    } else if |data| > 32 {
      ChunkifyHead(data);
    }
  }

  lemma {:induction false} ChunkifyFlatten(cs: seq<Chunk>)
    ensures Chunkify(Flatten(cs)) == cs
  {
    if cs != [] {
      ChunkifyFlatten(cs[1..]);
      ChunkifyHead(Flatten(cs));
    }
  }

  /** Cutting at a chunk boundary cuts the chunk sequence there. */
  lemma {:induction false} ChunkifySplit(data: seq<Byte>, n: nat)
    requires 32 * n <= |data|
    ensures n <= |Chunkify(data)|
    ensures Chunkify(data[..32 * n]) == Chunkify(data)[..n]
    ensures Chunkify(data[32 * n..]) == Chunkify(data)[n..]
    decreases n
  {
    hide Chunkify;
    if n == 0 {
      assert data[0..] == data && data[..0] == [];
      NoChunks();
    } else {
      var rest := data[32..];
      CutBehind(data, n);
      ChunkifyHead(data);
      ChunkifyHead(data[..32 * n]);
      ChunkifySplit(rest, n - 1);
    }
  }

  lemma NoChunks()
    ensures Chunkify([]) == []
  {}

  lemma CutBehind(data: seq<Byte>, n: nat)
    requires 0 < n && 32 * n <= |data|
    ensures data[..32 * n][32..] == data[32..][..32 * (n - 1)]
    ensures data[..32 * n][..32] == data[..32]
    ensures data[32 * n..] == data[32..][32 * (n - 1)..]
  {}

  lemma ChunkifyFrom(data: seq<Byte>, i: nat)
    requires 32 * i + 32 <= |data|
    ensures Chunkify(data[32 * i..]) == [ChunkAt(data, i)] + Chunkify(data[32 * (i + 1)..])
  {
    ChunkifyHead(data[32 * i..]);
    assert data[32 * i..][32..] == data[32 * (i + 1)..];
    assert data[32 * i..][..32] == ChunkAt(data, i);
  }

  /** One block of the layer above whatever follows it. */
  lemma LayerBlock(h: Hash, data: seq<Byte>, i: nat, z: Chunk)
    requires 64 * i + 64 <= |data|
    ensures StepLayer(h, Chunkify(data[64 * i..]), z)
         == [h(ChunkAt(data, 2 * i), ChunkAt(data, 2 * i + 1))] + StepLayer(h, Chunkify(data[64 * (i + 1)..]), z)
  {
    ChunkifyFrom(data, 2 * i);
    ChunkifyFrom(data, 2 * i + 1);
    StepTwo(h, ChunkAt(data, 2 * i), ChunkAt(data, 2 * i + 1), Chunkify(data[64 * (i + 1)..]), z);
  }

  lemma StepTwo<T>(h: (T, T) -> T, l: T, r: T, rest: seq<T>, z: T)
    ensures StepLayer(h, [l] + ([r] + rest), z) == [h(l, r)] + StepLayer(h, rest, z)
  {
    assert ([l] + ([r] + rest))[2..] == rest;
  }

  /** Hashing whole blocks first leaves the layer of what follows them. */
  lemma {:induction false} BlocksThenRest(h: Hash, data: seq<Byte>, i: nat, n: nat, z: Chunk)
    requires i <= n && 64 * n <= |data|
    ensures StepLayer(h, Chunkify(data[64 * i..]), z)
         == HashedBlocks(h, data, i, n) + StepLayer(h, Chunkify(data[64 * n..]), z)
    decreases n - i
  {
    hide StepLayer, Chunkify;
    if i < n {
      LayerBlock(h, data, i, z);
      BlocksThenRest(h, data, i + 1, n, z);
    }
  }

  lemma ShortBlock(data: seq<Byte>)
    requires |data| <= 32
    ensures (data + Zeros(64 - |data|))[..32] == data + Zeros(32 - |data|)
    ensures (data + Zeros(64 - |data|))[32..] == ZERO
  {}

  lemma LongBlock(data: seq<Byte>)
    requires 32 < |data| <= 64
    ensures (data + Zeros(64 - |data|))[..32] == data[..32]
    ensures (data + Zeros(64 - |data|))[32..] == data[32..] + Zeros(64 - |data|)
  {}

  lemma StepOfTwo<T>(h: (T, T) -> T, l: T, r: T, z: T)
    ensures StepLayer(h, [l, r], z) == [h(l, r)]
  {
    assert [l, r][2..] == [];
  }

  lemma TwoChunks(data: seq<Byte>)
    requires 32 < |data| <= 64
    ensures Chunkify(data) == [data[..32], data[32..] + Zeros(64 - |data|)]
  {
    var rest := data[32..];
    assert Chunkify(rest) == [rest + Zeros(32 - |rest|)];
  }

  /** The two halves of the last one or two chunks copied into a zeroed block. */
  function LastHalves(data: seq<Byte>): (halves: (Chunk, Chunk))
    requires |data| <= 64
  {
    var block := data + Zeros(64 - |data|);
    (block[..32], block[32..])
  }

  /** They hash to the last node of the layer. */
  lemma LastBlock(h: Hash, data: seq<Byte>)
    requires 0 < |data| <= 64
    ensures StepLayer(h, Chunkify(data), ZERO) == [h(LastHalves(data).0, LastHalves(data).1)]
  {
    if |data| <= 32 {
      ShortBlock(data);
    } else {
      LongBlock(data);
      TwoChunks(data);
      StepOfTwo(h, LastHalves(data).0, LastHalves(data).1, ZERO);
    }
  }

  // ---- the hash calls ----

  /** ssz::hash of `count` blocks of a byte range. */
  method HashFrom(h: Hash, out: array<Chunk>, at: nat, input: seq<Byte>, count: nat) returns (end: nat)
    requires 64 * count <= |input| && at + count <= out.Length
    modifies out
    ensures end == at + count
    ensures out[..] == Splice(old(out[..]), at, HashedBlocks(h, input, 0, count))
  {
    ghost var goal := Splice(out[..], at, HashedBlocks(h, input, 0, count));
    end := at;
    for i := 0 to count
      invariant end == at + i
      invariant goal == Splice(out[..], end, HashedBlocks(h, input, i, count))
    {
      var c := h(ChunkAt(input, 2 * i), ChunkAt(input, 2 * i + 1));
      SpliceOne(out[..], end, c, HashedBlocks(h, input, i + 1, count));
      out[end] := c;
      end := end + 1;
    }
    SpliceNothing(out[..], end);
  }

  /** ssz::hash within one buffer: the output must lie behind the input. */
  method HashWithin<T>(h: (T, T) -> T, buf: array<T>, dst: nat, src: nat, count: nat) returns (end: nat)
    requires src + 2 * count <= dst && dst + count <= buf.Length
    modifies buf
    ensures end == dst + count
    ensures buf[..] == Splice(old(buf[..]), dst, PairsAt(h, old(buf[..]), src, count))
  {
    hide Splice;
    ghost var was := buf[..];
    ghost var goal := Splice(was, dst, PairsAt(h, was, src, count));
    end := dst;
    var from := src;
    for i := 0 to count
      invariant end == dst + i && from == src + 2 * i
      invariant forall k :: 0 <= k < dst ==> buf[k] == was[k]
      invariant goal == Splice(buf[..], end, PairsAt(h, was, from, count - i))
    {
      var c := h(buf[from], buf[from + 1]);
      SpliceOne(buf[..], end, c, PairsAt(h, was, from + 2, count - i - 1));
      buf[end] := c;
      end := end + 1;
      from := from + 2;
    }
    SpliceNothing(buf[..], end);
  }

  // ---- building the tree ----

  /** zero_hash_array_helper */
  method ZeroHashArray(h: Hash, n: nat) returns (ret: array<Chunk>)
    requires n > 0
    ensures fresh(ret) && ret.Length == n
    ensures forall i {:trigger ret[i]} :: 0 <= i < n ==> ret[i] == ZeroHash(h, ZERO, i)
  {
    ret := new Chunk[n](_ => ZERO);
    for i := 1 to n
      invariant forall j {:trigger ret[j]} :: 0 <= j < i ==> ret[j] == ZeroHash(h, ZERO, j)
    {
      ret[i] := h(ret[i - 1], ret[i - 1]);
    }
  }

  method MakeEngine(h: Hash) returns (e: Engine)
    ensures e.Valid() && e.hash == h
  {
    var zeros := ZeroHashArray(h, ZERO_HASH_DEPTH);
    return Engine(h, zeros[..]);
  }

  /** Bytes needed for the tree: an exact count, in closed form when the tree is deep enough for its chunks. */
  method ComputeHashtreeSize(chunkCount: nat, depth: nat) returns (size: nat)
    ensures size == if depth == 0 then 32 else 32 * LayerSum(chunkCount, depth)
    ensures 0 < depth && 1 <= chunkCount <= Pow2(depth) ==>
      size == 32 * (depth + (chunkCount - 1) - PopCount(chunkCount - 1))
  {
    if 1 <= chunkCount <= Pow2(depth) {
      LayerSumClosedForm(chunkCount, depth);
    }
    if depth == 0 { return 32; }
    var ret: nat, c: nat, d: nat := 0, chunkCount, depth;
    while d > 0
      invariant ret + LayerSum(c, d) == LayerSum(chunkCount, depth)
    {
      if c % 2 == 1 { c := c + 1; }
      c := c / 2;
      ret := ret + c;
      d := d - 1;
    }
    return ret * 32;
  }

  lemma WholeBlocks(h: Hash, data: seq<Byte>, count: nat)
    requires |data| == 64 * count
    ensures CeilDiv(|data|, 32) == 2 * count
    ensures HashedBlocks(h, data, 0, count) == StepLayer(h, Chunkify(data), ZERO)
  {
    hide StepLayer, HashedBlocks;
    BlocksThenRest(h, data, 0, count, ZERO);
    assert data[64 * 0..] == data && data[64 * count..] == [];
    NoStep(h, ZERO);
  }

  lemma NoStep(h: Hash, z: Chunk)
    ensures StepLayer(h, Chunkify([]), z) == []
  {}

  lemma BlocksThenLast(h: Hash, data: seq<Byte>, count: nat)
    requires 64 * count < |data| <= 64 * count + 64
    ensures CeilDiv(|data|, 32) == 2 * count + CeilDiv(|data| - 64 * count, 32)
    ensures var halves := LastHalves(data[64 * count..]);
      StepLayer(h, Chunkify(data), ZERO) == HashedBlocks(h, data, 0, count) + [h(halves.0, halves.1)]
  {
    hide StepLayer, HashedBlocks, Chunkify, LastHalves;
    BlocksThenRest(h, data, 0, count, ZERO);
    assert data[64 * 0..] == data;
    LastBlock(h, data[64 * count..]);
  }

  /** Whole blocks only, or whole blocks and a last one that is copied. */
  lemma BlockCount(n: nat)
    ensures var c := (n + 31) / 32;
      if c % 2 == 0 && n % 32 == 0 then n == 64 * (c / 2) && (c + 1) / 2 == c / 2
      else c > 0 && 64 * ((c - 1) / 2) < n <= 64 * ((c - 1) / 2) + 64 && (c + 1) / 2 == (c - 1) / 2 + 1
  {}

  /** hash_first_layer: the pairwise hashes of the zero-padded chunks, copying no more than the last block. */
  method HashFirstLayer(h: Hash, tree: array<Chunk>, at: nat, chunks: seq<Byte>) returns (last: nat)
    requires at + (CeilDiv(|chunks|, 32) + 1) / 2 <= tree.Length
    modifies tree
    ensures last == at + (CeilDiv(|chunks|, 32) + 1) / 2
    ensures tree[..] == Splice(old(tree[..]), at, StepLayer(h, Chunkify(chunks), ZERO))
  {
    hide StepLayer, HashedBlocks, Chunkify, LastHalves, Splice;
    BlockCount(|chunks|);
    var chunkCount := (|chunks| + 31) / 32;
    var leftOverBytes := |chunks| % 32 != 0;
    ghost var was := tree[..];
    if chunkCount % 2 == 0 && !leftOverBytes {
      WholeBlocks(h, chunks, chunkCount / 2);
      last := HashFrom(h, tree, at, chunks, chunkCount / 2);
      return;
    }
    var firstBlocks := (chunkCount - 1) / 2;
    last := at;
    BlocksThenLast(h, chunks, firstBlocks);
    if firstBlocks != 0 {
      last := HashFrom(h, tree, at, chunks, firstBlocks);
    } else {
      NoBlocks(h, chunks);
      SpliceNothing(was, at);
    }
    var (left, right) := LastHalves(chunks[64 * firstBlocks..]);
    last := Append(tree, at, last, h(left, right), was, HashedBlocks(h, chunks, 0, firstBlocks));
  }

  lemma NoBlocks(h: Hash, data: seq<Byte>)
    ensures HashedBlocks(h, data, 0, 0) == []
  {}

  /** hash_2_chunks behind what was written so far. */
  method Append<T>(tree: array<T>, at: nat, last: nat, node: T, ghost was: seq<T>, ghost done: seq<T>)
    returns (end: nat)
    requires |was| == tree.Length && last == at + |done| < tree.Length
    requires tree[..] == Splice(was, at, done)
    modifies tree
    ensures end == last + 1
    ensures tree[..] == Splice(was, at, done + [node])
  {
    SpliceSnoc(was, at, done, node);
    tree[last] := node;
    return last + 1;
  }

  /** One more layer behind the newest one, which occupies [first, last). */
  method HashNextLayer(e: Engine, tree: array<Chunk>, first: nat, last: nat, height: nat) returns (end: nat)
    requires e.Valid() && height < ZERO_HASH_DEPTH
    requires first < last && last + (last - first + 1) / 2 <= tree.Length
    modifies tree
    ensures end == last + (last - first + 1) / 2
    ensures tree[..] == Splice(old(tree[..]), last,
              StepLayer(e.hash, old(tree[..])[first..last], ZeroHash(e.hash, ZERO, height)))
  {
    var dist := last - first;
    ghost var was := tree[..];
    LayerPairs(e.hash, was, e.zeros[height], first, last);
    end := last;
    if dist > 1 {
      end := HashWithin(e.hash, tree, last, first, dist / 2);
    } else {
      SpliceNothing(was, last);
    }
    if dist % 2 == 1 {
      var node := e.hash(tree[last - 1], e.zeros[height]);
      assert tree[last - 1] == was[last - 1];
      end := Append(tree, last, end, node, was, PairsAt(e.hash, was, first, dist / 2));
    }
  }

  /** The loop over the heights above the first layer, which occupies the first `end` places. */
  method HashUpperLayers(e: Engine, tree: array<Chunk>, end: nat, depth: nat, ghost layers: nat, ghost one: Chunk)
    requires e.Valid() && 0 < end && depth == 1 + layers && layers < ZERO_HASH_DEPTH
    requires one == ZeroHash(e.hash, ZERO, 1)
    requires tree.Length == end + LayerSum(end, layers)
    modifies tree
    ensures tree[..] == old(WithLayers(e.hash, tree[..], 0, end, one, layers))
  {
    hide WithLayers, Splice, Layers, StepLayer, LayerSum, ZeroHash;
    var first: nat, last: nat := 0, end;
    ghost var count: nat, left: nat, z := end, layers, one;
    ghost var goal := WithLayers(e.hash, tree[..], first, count, z, left);
    for height := 1 to depth
      invariant count > 0 && last == first + count && left == depth - height
      invariant z == ZeroHash(e.hash, ZERO, height)
      invariant tree.Length == last + LayerSum(count, left)
      invariant WithLayers(e.hash, tree[..], first, count, z, left) == goal
    {
      WithOneLayer(e.hash, tree[..], first, count, z, left);
      NextZeroHash(e.hash, height);
      var nextFirst := last;
      last := HashNextLayer(e, tree, first, last, height);
      first := nextFirst;
      z, count, left := e.hash(z, z), (count + 1) / 2, left - 1;
    }
    WithNoLayer(e.hash, tree[..], first, count, z);
  }

  lemma NextZeroHash(h: Hash, k: nat)
    ensures ZeroHash(h, ZERO, k + 1) == h(ZeroHash(h, ZERO, k), ZeroHash(h, ZERO, k))
  {}

  /** The buffer once all `d` layers above its `count` nodes from `first` on are written behind them. */
  ghost function WithLayers<T>(h: (T, T) -> T, s: seq<T>, first: nat, count: nat, z: T, d: nat): seq<T>
    requires first + count + LayerSum(count, d) <= |s|
  {
    Splice(s, first + count, Layers(h, s[first..first + count], z, d))
  }

  lemma WithNoLayer<T>(h: (T, T) -> T, s: seq<T>, first: nat, count: nat, z: T)
    requires first + count <= |s|
    ensures WithLayers(h, s, first, count, z, 0) == s
  {}

  /** Writing the next layer is the first step towards writing them all. */
  lemma WithOneLayer<T>(h: (T, T) -> T, s: seq<T>, first: nat, count: nat, z: T, d: nat)
    requires d > 0 && first + count + LayerSum(count, d) <= |s|
    ensures LayerSum(count, d) == (count + 1) / 2 + LayerSum((count + 1) / 2, d - 1)
    ensures WithLayers(h, Splice(s, first + count, StepLayer(h, s[first..first + count], z)),
                       first + count, (count + 1) / 2, h(z, z), d - 1)
         == WithLayers(h, s, first, count, z, d)
  {
    hide Splice, StepLayer;
    var last, next := first + count, StepLayer(h, s[first..first + count], z);
    SpliceRead(s, last, next);
    SpliceAppend(s, last, next, Layers(h, next, h(z, z), d - 1));
  }

  /** sparse_hash_tree into a buffer: it holds all the layers, one after another, and nothing else. */
  method SparseHashTreeInto(e: Engine, tree: array<Chunk>, chunks: seq<Byte>, depth: nat)
    requires e.Valid() && depth <= ZERO_HASH_DEPTH
    requires 1 <= CeilDiv(|chunks|, 32) <= Pow2(depth)
    requires tree.Length == if depth == 0 then 1 else LayerSum(CeilDiv(|chunks|, 32), depth)
    requires depth == 0 ==> tree[0] == ZERO
    modifies tree
    ensures depth > 0 ==> tree[..] == Layers(e.hash, Chunkify(chunks), ZERO, depth)
    ensures Last(tree[..]) == Merkleize(e.hash, ZERO, Chunkify(chunks), depth)
  {
    if depth == 0 {
      tree[0] := chunks + tree[0][|chunks|..];
      SingleNode(e.hash, ZERO, Chunkify(chunks));
    } else {
      BuildLayers(e, tree, chunks, depth);
      LastIsRoot(e.hash, Chunkify(chunks), ZERO, depth);
    }
  }

  /** The part of sparse_hash_tree for a depth of at least 1. */
  method BuildLayers(e: Engine, tree: array<Chunk>, chunks: seq<Byte>, depth: nat)
    requires e.Valid() && 0 < depth <= ZERO_HASH_DEPTH && chunks != []
    requires tree.Length == LayerSum(CeilDiv(|chunks|, 32), depth)
    modifies tree
    ensures tree[..] == Layers(e.hash, Chunkify(chunks), ZERO, depth)
  {
    hide WithLayers, Splice, Layers, StepLayer, LayerSum, ZeroHash;
    FirstOfAll(e.hash, tree[..], Chunkify(chunks), ZERO, depth - 1);
    var last := HashFirstLayer(e.hash, tree, 0, chunks);
    HashUpperLayers(e, tree, last, depth, depth - 1, e.hash(ZERO, ZERO));
  }

  lemma FirstOfAll(h: Hash, s: seq<Chunk>, cs: seq<Chunk>, z: Chunk, d: nat)
    requires |s| == LayerSum(|cs|, d + 1)
    ensures |s| == (|cs| + 1) / 2 + LayerSum((|cs| + 1) / 2, d)
    ensures WithLayers(h, Splice(s, 0, StepLayer(h, cs, z)), 0, (|cs| + 1) / 2, h(z, z), d) == Layers(h, cs, z, d + 1)
    ensures ZeroHash(h, ZERO, 1) == h(ZERO, ZERO)
  {
    var next := StepLayer(h, cs, z);
    SpliceRead(s, 0, next);
    SpliceAppend(s, 0, next, Layers(h, next, h(z, z), d));
    SpliceWhole(s, Layers(h, cs, z, d + 1));
    assert ZeroHash(h, ZERO, 0) == ZERO;
  }

  /** sparse_hash_tree: allocate exactly what is needed; the root ends up in the last 32 bytes. */
  method SparseHashTree(e: Engine, chunks: seq<Byte>, limit: nat) returns (ret: array<Chunk>)
    requires e.Valid()
    requires limit == 0 || CeilDiv(|chunks|, 32) <= limit
    requires InTable(CeilDiv(|chunks|, 32), limit)
    ensures fresh(ret) && ret.Length > 0
    ensures FitsTree(CeilDiv(|chunks|, 32), limit)
    ensures Last(ret[..]) == Merkleize(e.hash, ZERO, Chunkify(chunks), TreeDepth(CeilDiv(|chunks|, 32), limit))
  {
    var chunkCount := (|chunks| + 31) / 32;
    var depth := if limit == 0 then Log2Ceil(chunkCount) else Log2Ceil(limit);
    TreeFits(chunkCount, limit);
    if chunkCount == 0 {
      ret := new Chunk[2](_ => ZERO);
      ret[1] := e.zeros[depth];
      ZeroTree(e.hash, ZERO, depth);
      return;
    }
    var size := ComputeHashtreeSize(chunkCount, depth);
    ret := new Chunk[size / 32](_ => ZERO);
    SparseHashTreeInto(e, ret, chunks, depth);
  }

  /** Depth of the tree over `count` chunks: a limit of 0 stands for the count itself. */
  function TreeDepth(count: nat, limit: nat): nat
  {
    if limit == 0 then Log2Ceil(count) else Log2Ceil(limit)
  }

  /** The zero hashes that are used are in the table: no chunks take that of the whole tree, others only lower ones. */
  predicate InTable(count: nat, limit: nat)
  {
    TreeDepth(count, limit) <= if count == 0 then ZERO_HASH_DEPTH - 1 else ZERO_HASH_DEPTH
  }

  predicate FitsTree(count: nat, limit: nat)
  {
    count <= Pow2(TreeDepth(count, limit))
  }

  lemma TreeFits(count: nat, limit: nat)
    requires limit == 0 || count <= limit
    ensures FitsTree(count, limit)
  {
    Log2CeilLeast(count, Log2Ceil(count));
    Log2CeilLeast(limit, Log2Ceil(limit));
  }
}
