/**
 The reference tree: pad the leaves to a power of two with a filler and hash neighbours until one node is left.
 Everything is for an arbitrary hash `h` over an arbitrary type of nodes.
 */
module MerkleTree {
  import opened MathHelpers

  /** Hash neighbours of a layer. */
  function PairUp<T>(h: (T, T) -> T, s: seq<T>): (r: seq<T>)
    requires |s| % 2 == 0
    ensures |r| == |s| / 2
  {
    if s == [] then [] else [h(s[0], s[1])] + PairUp(h, s[2..])
  }

  /** Root of a full layer of 2^depth nodes. */
  function TreeRoot<T>(h: (T, T) -> T, s: seq<T>, depth: nat): T
    requires |s| == Pow2(depth)
    decreases depth
  {
    if depth == 0 then s[0] else TreeRoot(h, PairUp(h, s), depth - 1)
  }

  function Pad<T>(s: seq<T>, z: T, n: nat): (r: seq<T>)
    requires |s| <= n
    ensures |r| == n
    ensures forall i :: 0 <= i < n ==> r[i] == if i < |s| then s[i] else z
  {
    s + seq(n - |s|, _ => z)
  }

  /** merkleize(chunks, limit) of the Merkleization section, for a tree of the given depth. */
  function Merkleize<T>(h: (T, T) -> T, z: T, s: seq<T>, depth: nat): T
    requires |s| <= Pow2(depth)
  {
    TreeRoot(h, Pad(s, z, Pow2(depth)), depth)
  }

  /** Root of the tree of height k whose leaves are all fillers. */
  function ZeroHash<T>(h: (T, T) -> T, z: T, k: nat): T
  {
    if k == 0 then z else h(ZeroHash(h, z, k - 1), ZeroHash(h, z, k - 1))
  }

  /** The layer above `s` when the missing right neighbour of an odd last node is `z`. */
  function StepLayer<T>(h: (T, T) -> T, s: seq<T>, z: T): (r: seq<T>)
    ensures |r| == (|s| + 1) / 2
  {
    if |s| == 0 then []
    else if |s| == 1 then [h(s[0], z)]
    else [h(s[0], s[1])] + StepLayer(h, s[2..], z)
  }

  /** Hash `count` neighbouring pairs of a buffer from position `from` on, as the hash library does. */
  function PairsAt<T>(h: (T, T) -> T, s: seq<T>, from: nat, count: nat): (r: seq<T>)
    requires from + 2 * count <= |s|
    ensures |r| == count
    decreases count
  {
    if count == 0 then [] else [h(s[from], s[from + 1])] + PairsAt(h, s, from + 2, count - 1)
  }

  /** The stored part of layer k: only nodes with a real leaf below them. */
  function Layer<T>(h: (T, T) -> T, z: T, s: seq<T>, k: nat): seq<T>
  {
    if k == 0 then s else StepLayer(h, Layer(h, z, s, k - 1), ZeroHash(h, z, k - 1))
  }

  /** Layers 1 to `depth` of a sparse tree one after another, `z` being the filler of the layer `s`. */
  function Layers<T>(h: (T, T) -> T, s: seq<T>, z: T, depth: nat): (r: seq<T>)
    ensures |r| == LayerSum(|s|, depth)
    decreases depth
  {
    if depth == 0 then [] else
      var next := StepLayer(h, s, z);
      next + Layers(h, next, h(z, z), depth - 1)
  }

  /** Number of nodes the layers above `c` leaves hold together. */
  function LayerSum(c: nat, depth: nat): nat
  {
    if depth == 0 then 0 else (c + 1) / 2 + LayerSum((c + 1) / 2, depth - 1)
  }

  /** Fold in the zero hashes of heights i to depth - 1: the top-up after the two halves are joined. */
  function Raise<T>(h: (T, T) -> T, z: T, root: T, i: nat, depth: nat): T
    decreases depth - i
  {
    if i >= depth then root else Raise(h, z, h(root, ZeroHash(h, z, i)), i + 1, depth)
  }

  // ---- layers inside a buffer ----

  /** The layer above the part [from, to) of a buffer: its whole pairs, then an odd node with the filler. */
  lemma {:induction false} LayerPairs<T>(h: (T, T) -> T, s: seq<T>, z: T, from: nat, to: nat)
    requires from <= to <= |s|
    ensures StepLayer(h, s[from..to], z)
         == PairsAt(h, s, from, (to - from) / 2) + (if (to - from) % 2 == 1 then [h(s[to - 1], z)] else [])
    decreases |s| - from
  {
    var part := s[from..to];
    if to - from >= 2 {
      LayerPairs(h, s, z, from + 2, to);
      assert part[2..] == s[from + 2..to];
    }
  }

  // ---- the tree from its halves ----

  lemma PairUpFront<T>(h: (T, T) -> T, s: seq<T>)
    requires |s| >= 2 && |s| % 2 == 0
    ensures PairUp(h, s) == [h(s[0], s[1])] + PairUp(h, s[2..])
  {}

  lemma PairUpNothing<T>(h: (T, T) -> T)
    ensures PairUp(h, []) == []
  {}

  lemma DropTwo<T>(a: seq<T>, b: seq<T>)
    requires |a| >= 2
    ensures (a + b)[0] == a[0] && (a + b)[1] == a[1] && (a + b)[2..] == a[2..] + b
  {}

  lemma {:induction false} PairUpAppend<T>(h: (T, T) -> T, a: seq<T>, b: seq<T>)
    requires |a| % 2 == 0 && |b| % 2 == 0
    ensures PairUp(h, a + b) == PairUp(h, a) + PairUp(h, b)
    decreases |a|
  {
    hide PairUp;
    if a == [] {
      assert a + b == b;
      PairUpNothing(h);
    } else {
      DropTwo(a, b);
      PairUpFront(h, a + b);
      PairUpFront(h, a);
      PairUpAppend(h, a[2..], b);
    }
  }

  lemma {:induction false} TreeSplit<T>(h: (T, T) -> T, a: seq<T>, b: seq<T>, d: nat)
    requires |a| == |b| == Pow2(d)
    ensures TreeRoot(h, a + b, d + 1) == h(TreeRoot(h, a, d), TreeRoot(h, b, d))
    decreases d
  {
    if d == 0 {
      assert (a + b)[2..] == [];
      assert PairUp(h, a + b) == [h(a[0], b[0])];
    } else {
      PairUpAppend(h, a, b);
      TreeSplit(h, PairUp(h, a), PairUp(h, b), d - 1);
    }
  }

  lemma PadHalves<T>(s: seq<T>, z: T, m: nat)
    requires |s| <= 2 * m
    ensures Pad(s, z, 2 * m) == Pad(s[..Min(m, |s|)], z, m) + Pad(s[Min(m, |s|)..], z, m)
  {}

  /** A tree one level deeper joins the roots of its first 2^d leaves and of the rest, which may be none. */
  lemma {:induction false} MerkleizeHalves<T>(h: (T, T) -> T, z: T, s: seq<T>, d: nat)
    requires |s| <= Pow2(d + 1)
    ensures Merkleize(h, z, s, d + 1)
         == h(Merkleize(h, z, s[..Min(Pow2(d), |s|)], d), Merkleize(h, z, s[Min(Pow2(d), |s|)..], d))
  {
    var m := Pow2(d);
    PadHalves(s, z, m);
    TreeSplit(h, Pad(s[..Min(m, |s|)], z, m), Pad(s[Min(m, |s|)..], z, m), d);
  }

  lemma {:induction false} ZeroTree<T>(h: (T, T) -> T, z: T, d: nat)
    ensures Merkleize(h, z, [], d) == ZeroHash(h, z, d)
  {
    if d > 0 {
      ZeroTree(h, z, d - 1);
      MerkleizeHalves(h, z, [], d - 1);
    }
  }

  /** Raising the limit by one level folds in one zero hash. */
  lemma {:induction false} MerkleizeRaise<T>(h: (T, T) -> T, z: T, s: seq<T>, d: nat)
    requires |s| <= Pow2(d)
    ensures Merkleize(h, z, s, d + 1) == h(Merkleize(h, z, s, d), ZeroHash(h, z, d))
  {
    MerkleizeHalves(h, z, s, d);
    ZeroTree(h, z, d);
    assert s[..|s|] == s && s[|s|..] == [];
  }

  /** Raising the limit by any number of levels is the top-up loop. */
  lemma {:induction false} RaiseIsDeeper<T>(h: (T, T) -> T, z: T, s: seq<T>, i: nat, depth: nat)
    requires |s| <= Pow2(i) && i <= depth
    ensures |s| <= Pow2(depth)
    ensures Raise(h, z, Merkleize(h, z, s, i), i, depth) == Merkleize(h, z, s, depth)
    decreases depth - i
  {
    Pow2Monotone(i, depth);
    if i < depth {
      MerkleizeRaise(h, z, s, i);
      RaiseIsDeeper(h, z, s, i + 1, depth);
    }
  }

  /** Divide and conquer: split at a power of two, join, top up to the limit. */
  lemma {:induction false} ForkJoin<T>(h: (T, T) -> T, z: T, s: seq<T>, k: nat, depth: nat)
    requires Pow2(k) < |s| <= Pow2(k + 1) && k + 1 <= depth
    ensures |s| <= Pow2(depth)
    ensures Raise(h, z, h(Merkleize(h, z, s[..Pow2(k)], k), Merkleize(h, z, s[Pow2(k)..], k)), k + 1, depth)
         == Merkleize(h, z, s, depth)
  {
    MerkleizeHalves(h, z, s, k);
    RaiseIsDeeper(h, z, s, k + 1, depth);
  }

  // ---- the tree from its layers ----

  /** Padding and then hashing a layer is hashing its stored part and then padding. */
  lemma {:induction false} StepKeepsRoot<T>(h: (T, T) -> T, s: seq<T>, z: T, d: nat)
    requires |s| <= Pow2(d + 1)
    ensures |StepLayer(h, s, z)| <= Pow2(d)
    ensures Merkleize(h, z, s, d + 1) == Merkleize(h, h(z, z), StepLayer(h, s, z), d)
  {
    PairUpPadded(h, s, z, Pow2(d));
  }

  function Rest<T>(s: seq<T>, n: nat): seq<T>
  {
    s[Min(n, |s|)..]
  }

  lemma PadFront<T>(s: seq<T>, z: T, n: nat)
    requires |s| <= n && n > 0
    ensures Pad(s, z, n) == [At(s, z, 0)] + Pad(Rest(s, 1), z, n - 1)
  {}

  lemma StepFront<T>(h: (T, T) -> T, s: seq<T>, z: T)
    ensures At(StepLayer(h, s, z), h(z, z), 0) == h(At(s, z, 0), At(Rest(s, 1), z, 0))
    ensures Rest(StepLayer(h, s, z), 1) == StepLayer(h, Rest(Rest(s, 1), 1), z)
  {
    assert Rest(Rest(s, 1), 1) == Rest(s, 2);
  }

  lemma DropOne<T>(x: T, rest: seq<T>)
    ensures ([x] + rest)[1..] == rest
  {}

  lemma PairUpTwo<T>(h: (T, T) -> T, l: T, r: T, rest: seq<T>)
    requires |rest| % 2 == 0
    ensures PairUp(h, [l] + ([r] + rest)) == [h(l, r)] + PairUp(h, rest)
  {
    hide PairUp;
    var s := [l] + ([r] + rest);
    DropOne(l, [r] + rest);
    DropOne(r, rest);
    assert s[2..] == s[1..][1..];
    PairUpFront(h, s);
  }

  lemma {:induction false} PairUpPadded<T>(h: (T, T) -> T, s: seq<T>, z: T, n: nat)
    requires |s| <= 2 * n
    ensures PairUp(h, Pad(s, z, 2 * n)) == Pad(StepLayer(h, s, z), h(z, z), n)
    decreases n
  {
    if n > 0 {
      hide Pad, PairUp, StepLayer, At;
      var rest := Rest(Rest(s, 1), 1);
      PadFront(s, z, 2 * n);
      PadFront(Rest(s, 1), z, 2 * n - 1);
      PairUpTwo(h, At(s, z, 0), At(Rest(s, 1), z, 0), Pad(rest, z, 2 * (n - 1)));
      PairUpPadded(h, rest, z, n - 1);
      StepFront(h, s, z);
      PadFront(StepLayer(h, s, z), h(z, z), n);
    }
  }

  lemma {:induction false} LayerCount<T>(h: (T, T) -> T, z: T, s: seq<T>, k: nat)
    ensures |Layer(h, z, s, k)| == CeilDiv(|s|, Pow2(k))
  {
    if k > 0 {
      LayerCount(h, z, s, k - 1);
      CeilHalves(|s|, Pow2(k - 1));
    }
  }

  lemma CeilHalves(n: nat, m: nat)
    requires m > 0
    ensures CeilDiv(n, 2 * m) == (CeilDiv(n, m) + 1) / 2
  {
    DivAddOne(n + m - 1, m);
    DivTwice(n + 2 * m - 1, m);
  }

  /** The root is unchanged from layer to layer: layer k, with the zero hash of height k as filler, has it too. */
  lemma {:induction false} LayerKeepsRoot<T>(h: (T, T) -> T, z: T, s: seq<T>, k: nat, depth: nat)
    requires |s| <= Pow2(depth) && k <= depth
    ensures |Layer(h, z, s, k)| <= Pow2(depth - k)
    ensures Merkleize(h, ZeroHash(h, z, k), Layer(h, z, s, k), depth - k) == Merkleize(h, z, s, depth)
  {
    if k > 0 {
      LayerKeepsRoot(h, z, s, k - 1, depth);
      StepKeepsRoot(h, Layer(h, z, s, k - 1), ZeroHash(h, z, k - 1), depth - k);
    }
  }

  /** The leaves below node j of layer k: at most 2^k of them, and none for a node that is not stored. */
  function Below<T>(s: seq<T>, k: nat, j: nat): (r: seq<T>)
  {
    if k > 0 then Below(s, k - 1, 2 * j) + Below(s, k - 1, 2 * j + 1)
    else if j < |s| then [s[j]] else []
  }

  /** The j-th run of m elements, cut short by the end. */
  function Run<T>(s: seq<T>, m: nat, j: nat): seq<T>
  {
    s[Min(j * m, |s|)..Min(j * m + m, |s|)]
  }

  lemma RunHalves<T>(s: seq<T>, m: nat, j: nat)
    ensures Run(s, 2 * m, j) == Run(s, m, 2 * j) + Run(s, m, 2 * j + 1)
  {
    assert j * (2 * m) == (2 * j) * m;
    assert (2 * j + 1) * m == (2 * j) * m + m;
  }

  /** The leaves below node j of layer k are the j-th run of 2^k leaves. */
  lemma {:induction false} BelowIsRun<T>(s: seq<T>, k: nat, j: nat)
    ensures Below(s, k, j) == Run(s, Pow2(k), j)
    decreases k
  {
    hide Run;
    if k > 0 {
      BelowIsRun(s, k - 1, 2 * j);
      BelowIsRun(s, k - 1, 2 * j + 1);
      RunHalves(s, Pow2(k - 1), j);
    } else {
      RunOfOne(s, j);
    }
  }

  lemma RunOfOne<T>(s: seq<T>, j: nat)
    ensures Run(s, 1, j) == if j < |s| then [s[j]] else []
  {
    assert j * 1 == j;
  }

  lemma BelowHalves<T>(s: seq<T>, k: nat, j: nat)
    ensures |Below(s, k, j)| <= Pow2(k)
    ensures var b, m := Below(s, k + 1, j), Pow2(k);
            && b[..Min(m, |b|)] == Below(s, k, 2 * j)
            && b[Min(m, |b|)..] == Below(s, k, 2 * j + 1)
  {
    BelowIsRun(s, k, j);
    BelowIsRun(s, k, 2 * j);
    BelowIsRun(s, k, 2 * j + 1);
    assert (2 * j + 1) * Pow2(k) == (2 * j) * Pow2(k) + Pow2(k);
  }

  /** Node j of a layer, stored or not. */
  function At<T>(s: seq<T>, z: T, j: nat): T
  {
    if j < |s| then s[j] else z
  }

  lemma {:induction false} StepAt<T>(h: (T, T) -> T, s: seq<T>, z: T, j: nat)
    ensures At(StepLayer(h, s, z), h(z, z), j) == h(At(s, z, 2 * j), At(s, z, 2 * j + 1))
    decreases j
  {
    if j > 0 && |s| >= 2 {
      StepAt(h, s[2..], z, j - 1);
    }
  }

  /** Root of the leaves below node j of layer k. */
  function Node<T>(h: (T, T) -> T, z: T, s: seq<T>, k: nat, j: nat): T
  {
    BelowHalves(s, k, j);
    Merkleize(h, z, Below(s, k, j), k)
  }

  lemma NodeSplit<T>(h: (T, T) -> T, z: T, s: seq<T>, k: nat, j: nat)
    ensures Node(h, z, s, k + 1, j) == h(Node(h, z, s, k, 2 * j), Node(h, z, s, k, 2 * j + 1))
  {
    BelowHalves(s, k + 1, j);
    BelowHalves(s, k, j);
    MerkleizeHalves(h, z, Below(s, k + 1, j), k);
  }

  /** Node j of layer k is the root of its own 2^k leaves, padded; a node not stored is the zero hash. */
  lemma {:induction false} LayerNode<T>(h: (T, T) -> T, z: T, s: seq<T>, k: nat, j: nat)
    ensures At(Layer(h, z, s, k), ZeroHash(h, z, k), j) == Node(h, z, s, k, j)
    decreases k
  {
    if k == 0 {
      SingleNode(h, z, Below(s, 0, j));
    } else {
      LayerNode(h, z, s, k - 1, 2 * j);
      LayerNode(h, z, s, k - 1, 2 * j + 1);
      NodeSplit(h, z, s, k - 1, j);
      StepAt(h, Layer(h, z, s, k - 1), ZeroHash(h, z, k - 1), j);
    }
  }

  /** After the last layer one node is left, stored last, and it is the root. */
  lemma {:induction false} LastIsRoot<T>(h: (T, T) -> T, s: seq<T>, z: T, depth: nat)
    requires depth > 0 && 0 < |s| <= Pow2(depth)
    ensures Layers(h, s, z, depth) != []
    ensures Last(Layers(h, s, z, depth)) == Merkleize(h, z, s, depth)
    decreases depth
  {
    var d, next, z' := depth - 1, StepLayer(h, s, z), h(z, z);
    StepKeepsRoot(h, s, z, d);
    if d > 0 {
      LastIsRoot(h, next, z', d);
      LastOfSum(next, Layers(h, next, z', d));
    } else {
      SingleNode(h, z', next);
      assert next + [] == next;
    }
  }

  function Last<T>(s: seq<T>): T
    requires s != []
  {
    s[|s| - 1]
  }

  lemma LastOfSum<T>(a: seq<T>, b: seq<T>)
    requires b != []
    ensures Last(a + b) == Last(b)
  {}

  /** The layers above layer k: i of them, then those above layer k + i. */
  lemma {:induction false} LayersSplit<T>(h: (T, T) -> T, z: T, s: seq<T>, k: nat, i: nat, d: nat)
    ensures Layers(h, Layer(h, z, s, k), ZeroHash(h, z, k), i + d)
         == Layers(h, Layer(h, z, s, k), ZeroHash(h, z, k), i)
          + Layers(h, Layer(h, z, s, k + i), ZeroHash(h, z, k + i), d)
    decreases i
  {
    hide StepLayer, Layers, Layer, ZeroHash;
    var layer, z' := Layer(h, z, s, k), ZeroHash(h, z, k);
    var above := Layers(h, Layer(h, z, s, k + i), ZeroHash(h, z, k + i), d);
    if i == 0 {
      NoLayer(h, layer, z');
      assert [] + above == above;
    } else {
      NextLayer(h, z, s, k);
      OneMoreLayer(h, layer, z', i + d);
      OneMoreLayer(h, layer, z', i);
      LayersSplit(h, z, s, k + 1, i - 1, d);
      Associate(Layer(h, z, s, k + 1), Layers(h, Layer(h, z, s, k + 1), ZeroHash(h, z, k + 1), i - 1), above);
    }
  }

  lemma NextLayer<T>(h: (T, T) -> T, z: T, s: seq<T>, k: nat)
    ensures Layer(h, z, s, k + 1) == StepLayer(h, Layer(h, z, s, k), ZeroHash(h, z, k))
    ensures ZeroHash(h, z, k + 1) == h(ZeroHash(h, z, k), ZeroHash(h, z, k))
  {}

  lemma NoLayer<T>(h: (T, T) -> T, s: seq<T>, z: T)
    ensures Layers(h, s, z, 0) == []
  {}

  lemma OneMoreLayer<T>(h: (T, T) -> T, s: seq<T>, z: T, d: nat)
    requires d > 0
    ensures Layers(h, s, z, d) == StepLayer(h, s, z) + Layers(h, StepLayer(h, s, z), h(z, z), d - 1)
  {}

  lemma Associate<T>(a: seq<T>, b: seq<T>, c: seq<T>)
    ensures a + (b + c) == (a + b) + c
  {}

  /** In the buffer of a sparse tree layer i follows the layers below it. */
  lemma LayerInBuffer<T>(h: (T, T) -> T, z: T, s: seq<T>, depth: nat, i: nat)
    requires 1 <= i <= depth
    ensures Layers(h, s, z, depth)
         == Layers(h, s, z, i - 1) + (Layer(h, z, s, i) + Layers(h, Layer(h, z, s, i), ZeroHash(h, z, i), depth - i))
  {
    hide StepLayer, Layers;
    LayersSplit(h, z, s, 0, i - 1, depth - i + 1);
    OneMoreLayer(h, Layer(h, z, s, i - 1), ZeroHash(h, z, i - 1), depth - i + 1);
  }

  lemma SingleNode<T>(h: (T, T) -> T, z: T, s: seq<T>)
    requires |s| <= 1
    ensures Merkleize(h, z, s, 0) == if s == [] then z else s[0]
  {}

  /** Closed form of the node count of a sparse tree that is deep enough. */
  lemma {:induction false} LayerSumClosedForm(c: nat, depth: nat)
    requires 1 <= c <= Pow2(depth)
    ensures LayerSum(c, depth) == depth + (c - 1) - PopCount(c - 1)
  {
    if depth > 0 {
      LayerSumClosedForm((c + 1) / 2, depth - 1);
      assert (c + 1) / 2 - 1 == (c - 1) / 2;
    }
  }
}
