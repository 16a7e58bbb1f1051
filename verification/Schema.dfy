/**
 The SSZ types and values, and the "Serialization" section of simple-serialize.md as one recursive function:
 the members of a vector, list or container are written as heads (the member itself, or the offset of a member of
 variable size) followed by tails (the members of variable size).
 */
module Schema {
  import opened Bytes
  import opened MathHelpers
  import opened Bits

  datatype Type =
    | Uint(width: nat)
    | Bool
    | Vector(elem: Type, length: nat)
    | Bitvector(length: nat)
    | List(elem: Type, limit: nat)
    | Bitlist(limit: nat)
    | Container(fields: seq<Type>)

  datatype Value =
    | Number(n: nat)
    | Flag(b: bool)
    | BitString(bits: seq<bool>)
    | Items(items: seq<Value>)

  /** Root of lib/beaconchain.hpp: 32 bytes, which are their own hash_tree_root. */
  const ROOT := Vector(Uint(1), 32)

  const OFFSET_BYTES := 4
  const TWO_TO_THE_32 := 0x1_0000_0000

  predicate Composite(t: Type)
  {
    t.Vector? || t.List? || t.Container?
  }

  /** `n` members can be counted off. */
  predicate Indexes(t: Type, n: nat)
  {
    Composite(t) && (t.Container? ==> n <= |t.fields|)
  }

  /** Type of the i-th member. */
  function Member(t: Type, i: nat): (m: Type)
    requires Indexes(t, i + 1)
    ensures m < t
  {
    match t
    case Vector(elem, _) => elem
    case List(elem, _) => elem
    case Container(fields) => fields[i]
  }

  predicate IsVariable(t: Type)
  {
    match t
    case Vector(elem, _) => IsVariable(elem)
    case List(_, _) => true
    case Bitlist(_) => true
    case Container(fields) => exists i :: 0 <= i < |fields| && IsVariable(fields[i])
    case _ => false
  }

  /** The types of the library: no zero sizes, no sequences of plain bools, vectors only of fixed-size elements. */
  predicate WellFormed(t: Type)
  {
    match t
    case Uint(w) => BasicWidth(w)
    case Bool => true
    case Vector(elem, n) => n > 0 && WellFormed(elem) && !elem.Bool? && !IsVariable(elem)
    case Bitvector(n) => n > 0
    case List(elem, _) => WellFormed(elem) && !elem.Bool?
    case Bitlist(_) => true
    case Container(fields) => fields != [] && forall i :: 0 <= i < |fields| ==> WellFormed(fields[i])
  }

  /** How many members a value may have. */
  predicate CountFits(t: Type, n: nat)
    requires Composite(t)
  {
    match t
    case Vector(_, length) => n == length
    case List(_, limit) => n <= limit
    case Container(fields) => n == |fields|
  }

  ghost predicate HasType(t: Type, v: Value)
    decreases v, 1
  {
    match t
    case Uint(w) => v.Number? && v.n < Pow256(w)
    case Bool => v.Flag?
    case Bitvector(n) => v.BitString? && |v.bits| == n
    case Bitlist(limit) => v.BitString? && |v.bits| <= limit
    case _ => v.Items? && CountFits(t, |v.items|) && HaveTypes(t, v.items)
  }

  /** The values are members of `t`, from the first one on. */
  ghost predicate HaveTypes(t: Type, vs: seq<Value>)
    decreases vs, 0
  {
    Indexes(t, |vs|) && forall i :: 0 <= i < |vs| ==> HasType(Member(t, i), vs[i])
  }

  // ---- sizes that depend on the type alone ----

  /** Size of any value of a type of fixed size. */
  function FixedSize(t: Type): nat
    decreases t, 1, 0
  {
    match t
    case Uint(w) => w
    case Bool => 1
    case Vector(_, n) => HeadLength(t, 0, n)
    case Bitvector(n) => CeilDiv(n, 8)
    case Container(fields) => HeadLength(t, 0, |fields|)
    case _ => 0
  }

  /** size_or_placeholder */
  function HeadSize(t: Type): nat
    decreases t, 2, 0
  {
    if IsVariable(t) then OFFSET_BYTES else FixedSize(t)
  }

  /** compute_fixed_length of the members i to n - 1 */
  function HeadLength(t: Type, i: nat, n: nat): nat
    requires i <= n && Indexes(t, n)
    decreases t, 0, n - i
  {
    if i == n then 0 else HeadSize(Member(t, i)) + HeadLength(t, i + 1, n)
  }

  // ---- the encoding ----

  ghost function Serialize(t: Type, v: Value): (bs: seq<Byte>)
    requires HasType(t, v)
    decreases v, 1, 0
  {
    match t
    case Uint(w) => LittleEndian(v.n, w)
    case Bool => [if v.b then 1 else 0]
    case Bitvector(_) => PackBits(v.bits)
    case Bitlist(_) => BitlistBytes(v.bits)
    case _ => Heads(t, v.items, 0, HeadLength(t, 0, |v.items|)) + Tails(t, v.items, 0)
  }

  /** Heads of the members from i on, the next tail being at `offset`. Offsets are 32-bit numbers. */
  ghost function Heads(t: Type, vs: seq<Value>, i: nat, offset: nat): (bs: seq<Byte>)
    requires HaveTypes(t, vs) && i <= |vs|
    decreases vs, 0, |vs| - i
  {
    if i == |vs| then [] else
      var head := Serialize(Member(t, i), vs[i]);
      if IsVariable(Member(t, i))
      then LittleEndian(offset, OFFSET_BYTES) + Heads(t, vs, i + 1, offset + |head|)
      else head + Heads(t, vs, i + 1, offset)
  }

  ghost function Tails(t: Type, vs: seq<Value>, i: nat): (bs: seq<Byte>)
    requires HaveTypes(t, vs) && i <= |vs|
    decreases vs, 0, |vs| - i
  {
    if i == |vs| then []
    else if IsVariable(Member(t, i)) then Serialize(Member(t, i), vs[i]) + Tails(t, vs, i + 1)
    else Tails(t, vs, i + 1)
  }

  /** A value of a fixed-size type takes the size of its type. */
  lemma {:induction false} FixedSizeIsLength(t: Type, v: Value)
    requires HasType(t, v) && !IsVariable(t)
    ensures |Serialize(t, v)| == FixedSize(t)
    decreases v, 1, 0
  {
    if Composite(t) {
      HeadsLength(t, v.items, 0, HeadLength(t, 0, |v.items|));
      NoTails(t, v.items, 0);
    }
  }

  lemma {:induction false} NoTails(t: Type, vs: seq<Value>, i: nat)
    requires HaveTypes(t, vs) && i <= |vs|
    requires forall j :: i <= j < |vs| ==> !IsVariable(Member(t, j))
    ensures Tails(t, vs, i) == []
    decreases |vs| - i
  {
    if i < |vs| {
      NoTails(t, vs, i + 1);
    }
  }

  lemma {:induction false} HeadsLength(t: Type, vs: seq<Value>, i: nat, offset: nat)
    requires HaveTypes(t, vs) && i <= |vs|
    ensures |Heads(t, vs, i, offset)| == HeadLength(t, i, |vs|)
    decreases vs, 0, |vs| - i
  {
    hide Serialize, FixedSize, LittleEndian;
    if i < |vs| {
      var m := Member(t, i);
      if IsVariable(m) {
        HeadsLength(t, vs, i + 1, offset + |Serialize(m, vs[i])|);
      } else {
        FixedSizeIsLength(m, vs[i]);
        HeadsLength(t, vs, i + 1, offset);
      }
    }
  }

  /** All elements of a vector or list have the same head size. */
  lemma {:induction false} UniformHeads(t: Type, i: nat, n: nat)
    requires t.Vector? || t.List?
    requires i <= n
    ensures HeadLength(t, i, n) == (n - i) * HeadSize(t.elem)
    decreases n - i
  {
    if i < n {
      UniformHeads(t, i + 1, n);
      assert (n - i) * HeadSize(t.elem) == HeadSize(t.elem) + (n - i - 1) * HeadSize(t.elem);
    }
  }
}
