/** Reading what the writer wrote, over the whole type universe. */
module RoundTrips {
  import opened Bytes
  import opened MathHelpers
  import opened Bits
  import opened Schema
  import opened EncodingLayout
  import opened Reader
  import opened Wrappers

  /** Every bitlist inside stays below the reader's guard. */
  ghost predicate Readable(t: Type, v: Value)
    requires HasType(t, v)
    decreases v, 1
  {
    match t
    case Bitlist(limit) => |v.bits| < 8 * (limit / 8)
    case Vector(_, _) => AllReadable(t, v.items, 0)
    case List(_, _) => AllReadable(t, v.items, 0)
    case Container(_) => AllReadable(t, v.items, 0)
    case _ => true
  }

  ghost predicate AllReadable(t: Type, vs: seq<Value>, i: nat)
    requires HaveTypes(t, vs)
    decreases vs, 0
  {
    forall j :: i <= j < |vs| ==> Readable(Member(t, j), vs[j])
  }

  ghost function Expected(t: Type, v: Value, guard: bool): Reading<Value>
    requires HasType(t, v)
  {
    if guard ==> Readable(t, v) then Ok(v) else Err(OutOfRange)
  }

  ghost function ExpectedRest(t: Type, vs: seq<Value>, i: nat, guard: bool): Reading<seq<Value>>
    requires HaveTypes(t, vs) && i <= |vs|
  {
    if guard ==> AllReadable(t, vs, i) then Ok(vs[i..]) else Err(OutOfRange)
  }

  lemma ExpectedOneMore(t: Type, vs: seq<Value>, i: nat, guard: bool)
    requires HaveTypes(t, vs) && i < |vs|
    ensures ExpectedRest(t, vs, i, guard) ==
      if guard ==> Readable(Member(t, i), vs[i])
      then Prepend([vs[i]], ExpectedRest(t, vs, i + 1, guard))
      else Err(OutOfRange)
  {
    hide Readable;
    assert vs[i..] == [vs[i]] + vs[i + 1..];
  }

  /** The slots the first pass fills, and the offsets it finds. */
  ghost function SlotsOf(t: Type, vs: seq<Value>, i: nat): seq<Option<Value>>
    requires HaveTypes(t, vs) && i <= |vs|
    decreases |vs| - i
  {
    if i == |vs| then [] else [if IsVariable(Member(t, i)) then None else Some(vs[i])] + SlotsOf(t, vs, i + 1)
  }

  ghost function OffsetsOf(t: Type, vs: seq<Value>, i: nat, offset: nat): seq<nat>
    requires HaveTypes(t, vs) && i <= |vs|
    decreases |vs| - i
  {
    if i == |vs| then []
    else if IsVariable(Member(t, i))
    then [offset] + OffsetsOf(t, vs, i + 1, offset + |Serialize(Member(t, i), vs[i])|)
    else OffsetsOf(t, vs, i + 1, offset)
  }

  /** Bitlists have variable size, so values of fixed size are always readable. */
  lemma {:induction false} FixedIsReadable(t: Type, v: Value)
    requires HasType(t, v) && !IsVariable(t)
    ensures Readable(t, v)
    decreases v
  {
    if Composite(t) {
      assert HaveTypes(t, v.items);
      forall j | 0 <= j < |v.items|
        ensures Readable(Member(t, j), v.items[j])
      {
        FixedIsReadable(Member(t, j), v.items[j]);
      }
    }
  }

  /** The first of the remaining offsets is where the remaining tails start; without any there are no tails. */
  lemma {:induction false} FirstOffset(t: Type, vs: seq<Value>, i: nat, offset: nat)
    requires HaveTypes(t, vs) && i <= |vs|
    ensures var os := OffsetsOf(t, vs, i, offset);
      if os == [] then Tails(t, vs, i) == [] else os[0] == offset
    decreases |vs| - i
  {
    if i < |vs| && !IsVariable(Member(t, i)) {
      FirstOffset(t, vs, i + 1, offset);
    }
  }

  /**
   The value comes back exactly when every bitlist in it has fewer than 8 * (limit / 8) bits;
   otherwise the reader throws out_of_range.
   */
  lemma {:induction false} RoundTrip(t: Type, v: Value, guard: bool)
    requires WellFormed(t) && HasType(t, v) && |Serialize(t, v)| < TWO_TO_THE_32
    ensures Read(t, Serialize(t, v), guard) == Expected(t, v, guard)
    decreases v, 1, 0
  {
    hide ReadMembers, ReadList, ReadChunks, Heads, Tails, UnpackBits, PackBits, BitlistOf, BitlistBytes;
    match t
    case Uint(w) =>
      NumberRoundTrip(v.n, w);
      assert LittleEndian(v.n, w)[..w] == LittleEndian(v.n, w);
    case Bool =>
    case Bitvector(n) =>
      UnpackPacked(v.bits, n);
      assert v.bits[..n] == v.bits;
    case Bitlist(limit) =>
      GuardAccepts(v.bits, limit);
      BitlistRoundTrip(v.bits);
    case Container(_) => ContainerRoundTrip(t, v, guard);
    case Vector(_, _) => FixedSequenceRoundTrip(t, v, guard);
    case List(elem, _) =>
      if IsVariable(elem) { VariableListRoundTrip(t, v, guard); } else { FixedSequenceRoundTrip(t, v, guard); }
  }

  lemma {:induction false} FixedSequenceRoundTrip(t: Type, v: Value, guard: bool)
    requires WellFormed(t) && HasType(t, v) && |Serialize(t, v)| < TWO_TO_THE_32
    requires (t.Vector? || t.List?) && !IsVariable(t.elem)
    ensures Read(t, Serialize(t, v), guard) == Expected(t, v, guard)
    decreases v, 0, 0
  {
    var vs, bs := v.items, Serialize(t, v);
    var h := HeadLength(t, 0, |vs|);
    assert HaveTypes(t, vs);
    HeadsLength(t, vs, 0, h);
    NoTails(t, vs, 0);
    assert bs == Heads(t, vs, 0, h);
    ChunksRoundTrip(t, vs, 0, h, guard);
    SizeIsPositive(t.elem);
    FixedChunks(t, |vs|);
    assert vs[0..] == vs && bs[..|bs|] == bs;
    forall j | 0 <= j < |vs|
      ensures Readable(Member(t, j), vs[j])
    {
      FixedIsReadable(Member(t, j), vs[j]);
    }
    assert AllReadable(t, vs, 0);
    assert ReadChunks(t, 0, |vs|, bs, guard) == Ok(vs);
    assert |bs| == FixedSize(t.elem) * |vs|;
  }

  lemma {:induction false} FixedChunks(t: Type, n: nat)
    requires (t.Vector? || t.List?) && !IsVariable(t.elem) && FixedSize(t.elem) > 0
    ensures HeadLength(t, 0, n) == FixedSize(t.elem) * n
    ensures HeadLength(t, 0, n) % FixedSize(t.elem) == 0 && HeadLength(t, 0, n) / FixedSize(t.elem) == n
  {
    UniformHeads(t, 0, n);
    QuotientUnique(FixedSize(t.elem) * n, FixedSize(t.elem), n, 0);
  }

  lemma {:induction false} ChunksRoundTrip(t: Type, vs: seq<Value>, i: nat, offset: nat, guard: bool)
    requires WellFormed(t) && HaveTypes(t, vs) && i <= |vs|
    requires (t.Vector? || t.List?) && !IsVariable(t.elem)
    requires |Heads(t, vs, i, offset)| < TWO_TO_THE_32
    ensures ReadChunks(t, i, |vs|, Heads(t, vs, i, offset), guard) == Ok(vs[i..])
    decreases vs, 0, |vs| - i
  {
    hide Serialize, Read;
    if i < |vs| {
      var b, rest := Serialize(t.elem, vs[i]), Heads(t, vs, i + 1, offset);
      FixedSizeIsLength(t.elem, vs[i]);
      FixedIsReadable(t.elem, vs[i]);
      SizeIsPositive(t.elem);
      RoundTrip(t.elem, vs[i], guard);
      ChunksRoundTrip(t, vs, i + 1, offset, guard);
      assert (b + rest)[..|b|] == b && (b + rest)[|b|..] == rest;
      assert vs[i..] == [vs[i]] + vs[i + 1..];
    }
  }

  // ---- containers ----

  lemma {:induction false} ContainerRoundTrip(t: Type, v: Value, guard: bool)
    requires WellFormed(t) && HasType(t, v) && |Serialize(t, v)| < TWO_TO_THE_32 && t.Container?
    ensures Read(t, Serialize(t, v), guard) == Expected(t, v, guard)
    decreases v, 0, 0
  {
    Layout(t, v);
    hide Serialize, Heads, Tails;
    var vs, bs := v.items, Serialize(t, v);
    var h := HeadLength(t, 0, |vs|);
    HeadsRoundTrip(t, vs, 0, h, Tails(t, vs, 0), guard);
    TailsRoundTrip(t, vs, 0, bs, h, guard);
    assert vs[0..] == vs;
  }

  lemma {:induction false} HeadsRoundTrip(t: Type, vs: seq<Value>, i: nat, offset: nat, rest: seq<Byte>, guard: bool)
    requires WellFormed(t) && t.Container? && HaveTypes(t, vs) && |vs| == |t.fields| && i <= |vs|
    requires HeadLength(t, i, |vs|) < TWO_TO_THE_32 && offset + |Tails(t, vs, i)| < TWO_TO_THE_32
    ensures ReadHeads(t, i, Heads(t, vs, i, offset) + rest, guard)
         == Ok((SlotsOf(t, vs, i), OffsetsOf(t, vs, i, offset)))
    decreases vs, 0, |vs| - i
  {
    hide Serialize, Read, LittleEndian, FromLittleEndian, ReadHeads;
    if i == |vs| {
      NoHeadsToRead(t, rest, guard);
    } else if IsVariable(t.fields[i]) {
      var b := Serialize(t.fields[i], vs[i]);
      var o, heads := LittleEndian(offset, OFFSET_BYTES), Heads(t, vs, i + 1, offset + |b|);
      HeadsRoundTrip(t, vs, i + 1, offset + |b|, rest, guard);
      FourBytes();
      NumberRoundTrip(offset, OFFSET_BYTES);
      ReadOffset(t, i, o, heads, rest, guard);
    } else {
      var b, heads := Serialize(t.fields[i], vs[i]), Heads(t, vs, i + 1, offset);
      FixedSizeIsLength(t.fields[i], vs[i]);
      FixedIsReadable(t.fields[i], vs[i]);
      RoundTrip(t.fields[i], vs[i], guard);
      HeadsRoundTrip(t, vs, i + 1, offset, rest, guard);
      ReadMember(t, i, b, heads, rest, vs[i], guard);
    }
  }

  lemma NoHeadsToRead(t: Type, rest: seq<Byte>, guard: bool)
    requires WellFormed(t) && t.Container?
    ensures ReadHeads(t, |t.fields|, [] + rest, guard) == Ok(([], []))
  {}

  lemma ReadOffset(t: Type, i: nat, o: seq<Byte>, heads: seq<Byte>, rest: seq<Byte>, guard: bool)
    requires WellFormed(t) && t.Container? && i < |t.fields| && IsVariable(t.fields[i]) && |o| == OFFSET_BYTES
    requires ReadHeads(t, i + 1, heads + rest, guard).Ok?
    ensures var r := ReadHeads(t, i + 1, heads + rest, guard).value;
      ReadHeads(t, i, o + heads + rest, guard) == Ok(([None] + r.0, [FromLittleEndian(o)] + r.1))
  {
    hide Read, FromLittleEndian;
    CutFront(o, heads, rest);
  }

  lemma ReadMember(t: Type, i: nat, b: seq<Byte>, heads: seq<Byte>, rest: seq<Byte>, v: Value, guard: bool)
    requires WellFormed(t) && t.Container? && i < |t.fields| && !IsVariable(t.fields[i])
    requires |b| == FixedSize(t.fields[i]) && Read(t.fields[i], b, guard) == Ok(v)
    requires ReadHeads(t, i + 1, heads + rest, guard).Ok?
    ensures var r := ReadHeads(t, i + 1, heads + rest, guard).value;
      ReadHeads(t, i, b + heads + rest, guard) == Ok(([Some(v)] + r.0, r.1))
  {
    hide Read, FromLittleEndian, FixedSize;
    CutFront(b, heads, rest);
  }

  lemma CutFront(a: seq<Byte>, b: seq<Byte>, c: seq<Byte>)
    ensures |a + b + c| >= |a| && (a + b + c)[..|a|] == a && (a + b + c)[|a|..] == b + c
  {}

  lemma {:induction false} TailsRoundTrip(t: Type, vs: seq<Value>, i: nat, bs: seq<Byte>, offset: nat, guard: bool)
    requires WellFormed(t) && t.Container? && HaveTypes(t, vs) && |vs| == |t.fields| && i <= |vs|
    requires offset <= |bs| < TWO_TO_THE_32 && bs[offset..] == Tails(t, vs, i)
    ensures ReadTails(t, i, SlotsOf(t, vs, i), bs, OffsetsOf(t, vs, i, offset), guard) == ExpectedRest(t, vs, i, guard)
    decreases vs, 0, |vs| - i
  {
    hide Serialize, Read, Readable, Drop;
    if i == |vs| {
      assert vs[i..] == [];
    } else if IsVariable(t.fields[i]) {
      var b := Serialize(t.fields[i], vs[i]);
      var next := offset + |b|;
      assert bs[offset..] == b + Tails(t, vs, i + 1);
      SliceIsMember(bs, offset, b, Tails(t, vs, i + 1));
      FirstOffset(t, vs, i + 1, next);
      RoundTrip(t.fields[i], vs[i], guard);
      TailsRoundTrip(t, vs, i + 1, bs, next, guard);
      ExpectedOneMore(t, vs, i, guard);
    } else {
      FixedIsReadable(t.fields[i], vs[i]);
      TailsRoundTrip(t, vs, i + 1, bs, offset, guard);
      ExpectedOneMore(t, vs, i, guard);
    }
  }

  lemma SliceIsMember(bs: seq<Byte>, offset: nat, b: seq<Byte>, rest: seq<Byte>)
    requires offset <= |bs| && bs[offset..] == b + rest
    ensures offset + |b| <= |bs| && bs[offset..offset + |b|] == b && bs[offset + |b|..] == rest
    ensures rest == [] ==> Drop(bs, offset) == b
  {
    assert |bs| == offset + |b| + |rest|;
    assert bs[offset..][..|b|] == b && bs[offset..][|b|..] == rest;
    if rest == [] { assert b + rest == b; }
  }

  // ---- lists of elements of variable size ----

  lemma {:induction false} VariableListRoundTrip(t: Type, v: Value, guard: bool)
    requires WellFormed(t) && HasType(t, v) && |Serialize(t, v)| < TWO_TO_THE_32 && t.List? && IsVariable(t.elem)
    ensures Read(t, Serialize(t, v), guard) == Expected(t, v, guard)
    decreases v, 0, 1
  {
    hide Serialize, ReadList, AllReadable;
    ListReads(t, v, guard);
    assert v.items[0..] == v.items;
  }

  lemma {:induction false} ListReads(t: Type, v: Value, guard: bool)
    requires WellFormed(t) && HasType(t, v) && |Serialize(t, v)| < TWO_TO_THE_32 && t.List? && IsVariable(t.elem)
    ensures HaveTypes(t, v.items)
    ensures ReadList(t, Serialize(t, v), guard) == ExpectedRest(t, v.items, 0, guard)
    decreases v, 0, 0
  {
    Layout(t, v);
    hide Serialize, ReadList, ExpectedRest, Heads, Tails, HeadLength;
    ListItemsRoundTrip(t, v.items, Serialize(t, v), guard);
  }

  lemma {:induction false} ListItemsRoundTrip(t: Type, vs: seq<Value>, bs: seq<Byte>, guard: bool)
    requires WellFormed(t) && t.List? && IsVariable(t.elem) && HaveTypes(t, vs) && |bs| < TWO_TO_THE_32
    requires var h := HeadLength(t, 0, |vs|);
      h <= |bs| && bs[..h] == Heads(t, vs, 0, h) && bs[h..] == Tails(t, vs, 0)
    requires vs == [] ==> bs == []
    ensures ReadList(t, bs, guard) == ExpectedRest(t, vs, 0, guard)
    decreases vs, 1, 0
  {
    hide LittleEndian, FromLittleEndian, Heads, Tails, Readable, Serialize, Read;
    var h := HeadLength(t, 0, |vs|);
    UniformHeads(t, 0, |vs|);
    assert bs[OFFSET_BYTES * 0..OFFSET_BYTES * 0 + h] == bs[..h];
    if vs != [] {
      TableEntry(t, vs, bs, 0, h);
      assert bs[OFFSET_BYTES * 0..OFFSET_BYTES * 0 + OFFSET_BYTES] == bs[..OFFSET_BYTES];
      ElementsRoundTrip(t, vs, 0, bs, h, guard);
    }
  }

  /** The offset table from entry i on. */
  lemma TableEntry(t: Type, vs: seq<Value>, bs: seq<Byte>, i: nat, offset: nat)
    requires t.List? && IsVariable(t.elem) && HaveTypes(t, vs) && i < |vs|
    requires offset < TWO_TO_THE_32
    requires OFFSET_BYTES * i + HeadLength(t, i, |vs|) <= |bs|
    requires bs[OFFSET_BYTES * i..OFFSET_BYTES * i + HeadLength(t, i, |vs|)] == Heads(t, vs, i, offset)
    ensures var from := OFFSET_BYTES * i;
      && from + OFFSET_BYTES + HeadLength(t, i + 1, |vs|) == from + HeadLength(t, i, |vs|)
      && FromLittleEndian(bs[from..from + OFFSET_BYTES]) == offset
      && bs[from + OFFSET_BYTES..from + HeadLength(t, i, |vs|)]
         == Heads(t, vs, i + 1, offset + |Serialize(t.elem, vs[i])|)
  {
    hide Serialize, LittleEndian, FromLittleEndian;
    var from, to := OFFSET_BYTES * i, OFFSET_BYTES * i + HeadLength(t, i, |vs|);
    var o, rest := LittleEndian(offset, OFFSET_BYTES), Heads(t, vs, i + 1, offset + |Serialize(t.elem, vs[i])|);
    FourBytes();
    NumberRoundTrip(offset, OFFSET_BYTES);
    var table := bs[from..to];
    assert table == o + rest;
    assert bs[from..from + OFFSET_BYTES] == table[..OFFSET_BYTES] == o;
    assert bs[from + OFFSET_BYTES..to] == table[OFFSET_BYTES..] == rest;
  }

  lemma ReadNextElement(t: Type, i: nat, n: nat, bs: seq<Byte>, offset: nat, next: nat, guard: bool)
    requires WellFormed(t) && t.List? && i + 1 < n && OFFSET_BYTES * (i + 1) + OFFSET_BYTES <= |bs|
    requires next == FromLittleEndian(bs[OFFSET_BYTES * (i + 1)..OFFSET_BYTES * (i + 1) + OFFSET_BYTES])
    requires offset <= next <= |bs|
    ensures ReadElements(t, i, n, bs, offset, guard) ==
      var v := Read(t.elem, bs[offset..next], guard);
      if v.Err? then Err(v.error) else Prepend([v.value], ReadElements(t, i + 1, n, bs, next, guard))
  {
    hide Read, FromLittleEndian;
  }

  lemma ReadLastElement(t: Type, i: nat, bs: seq<Byte>, offset: nat, guard: bool)
    requires WellFormed(t) && t.List?
    ensures ReadElements(t, i, i + 1, bs, offset, guard) ==
      var v := Read(t.elem, Drop(bs, offset), guard); if v.Err? then Err(v.error) else Ok([v.value])
  {
    hide Read, FromLittleEndian;
  }

  lemma LastExpected(t: Type, vs: seq<Value>, i: nat, guard: bool)
    requires HaveTypes(t, vs) && i + 1 == |vs|
    ensures ExpectedRest(t, vs, i, guard) ==
      if guard ==> Readable(Member(t, i), vs[i]) then Ok([vs[i]]) else Err(OutOfRange)
  {
    hide Readable;
    assert vs[i..] == [vs[i]];
  }

  lemma {:induction false} ElementsRoundTrip(t: Type, vs: seq<Value>, i: nat, bs: seq<Byte>, offset: nat, guard: bool)
    requires WellFormed(t) && t.List? && IsVariable(t.elem) && HaveTypes(t, vs) && i < |vs|
    requires offset <= |bs| < TWO_TO_THE_32 && bs[offset..] == Tails(t, vs, i)
    requires OFFSET_BYTES * i + HeadLength(t, i, |vs|) <= |bs|
    requires bs[OFFSET_BYTES * i..OFFSET_BYTES * i + HeadLength(t, i, |vs|)] == Heads(t, vs, i, offset)
    ensures ReadElements(t, i, |vs|, bs, offset, guard) == ExpectedRest(t, vs, i, guard)
    decreases vs, 0, |vs| - i
  {
    hide Serialize, Read, Readable, LittleEndian, FromLittleEndian, Heads, ReadElements, ExpectedRest, Drop, HeadLength;
    var b, tails := Serialize(t.elem, vs[i]), Tails(t, vs, i + 1);
    assert bs[offset..] == b + tails;
    SliceIsMember(bs, offset, b, tails);
    RoundTrip(t.elem, vs[i], guard);
    TableEntry(t, vs, bs, i, offset);
    if i + 1 == |vs| {
      ReadLastElement(t, i, bs, offset, guard);
      LastExpected(t, vs, i, guard);
    } else {
      TableEntry(t, vs, bs, i + 1, offset + |b|);
      ReadNextElement(t, i, |vs|, bs, offset, offset + |b|, guard);
      ElementsRoundTrip(t, vs, i + 1, bs, offset + |b|, guard);
      ExpectedOneMore(t, vs, i, guard);
    }
  }

  // ---- consequences ----

  /** The source's reader gives the value back if and only if all its bitlists are below the guard. */
  lemma ComesBack(t: Type, v: Value)
    requires WellFormed(t) && HasType(t, v) && |Serialize(t, v)| < TWO_TO_THE_32
    ensures Read(t, Serialize(t, v), true) == Ok(v) <==> Readable(t, v)
    ensures !Readable(t, v) ==> Read(t, Serialize(t, v), true) == Err(OutOfRange)
  {
    RoundTrip(t, v, true);
  }

  /** Different values of a type are written differently. */
  lemma SerializeInjective(t: Type, v: Value, w: Value)
    requires WellFormed(t) && HasType(t, v) && HasType(t, w) && |Serialize(t, v)| < TWO_TO_THE_32
    requires Serialize(t, v) == Serialize(t, w)
    ensures v == w
  {
    RoundTrip(t, v, false);
    RoundTrip(t, w, false);
  }

  // ---- the full committee ----

  const CHECKPOINT := Container([Uint(8), ROOT])
  const ATTESTATION_DATA := Container([Uint(8), Uint(8), ROOT, CHECKPOINT, CHECKPOINT])
  const SIGNATURE := Vector(Uint(1), 96)

  /** attestation_t of lib/attestation.hpp */
  const ATTESTATION := Container([Bitlist(2048), ATTESTATION_DATA, SIGNATURE])

  lemma FixedContainer(t: Type)
    requires t.Container? && t.fields != []
    requires forall i :: 0 <= i < |t.fields| ==> WellFormed(t.fields[i]) && !IsVariable(t.fields[i])
    ensures WellFormed(t) && !IsVariable(t)
  {}

  lemma RootSize()
    ensures WellFormed(ROOT) && !IsVariable(ROOT) && HeadSize(ROOT) == 32
    ensures WellFormed(SIGNATURE) && !IsVariable(SIGNATURE) && HeadSize(SIGNATURE) == 96
  {
    UniformHeads(ROOT, 0, 32);
    UniformHeads(SIGNATURE, 0, 96);
    assert HeadSize(Uint(1)) == 1;
  }

  lemma TwoHeads(t: Type)
    requires t.Container? && |t.fields| == 2
    ensures HeadLength(t, 0, 2) == HeadSize(t.fields[0]) + HeadSize(t.fields[1])
  {
    assert HeadLength(t, 1, 2) == HeadSize(t.fields[1]) + HeadLength(t, 2, 2);
  }

  lemma FiveHeads(t: Type)
    requires t.Container? && |t.fields| == 5
    ensures HeadLength(t, 0, 5) == HeadSize(t.fields[0]) + HeadSize(t.fields[1]) + HeadSize(t.fields[2])
                                 + HeadSize(t.fields[3]) + HeadSize(t.fields[4])
  {
    hide HeadSize;
    assert HeadLength(t, 4, 5) == HeadSize(t.fields[4]) + HeadLength(t, 5, 5);
    assert HeadLength(t, 3, 5) == HeadSize(t.fields[3]) + HeadLength(t, 4, 5);
    assert HeadLength(t, 2, 5) == HeadSize(t.fields[2]) + HeadLength(t, 3, 5);
    assert HeadLength(t, 1, 5) == HeadSize(t.fields[1]) + HeadLength(t, 2, 5);
  }

  lemma CheckpointSize()
    ensures WellFormed(CHECKPOINT) && !IsVariable(CHECKPOINT) && HeadSize(CHECKPOINT) == 40
  {
    hide HeadSize;
    RootSize();
    NumberSize();
    FixedContainer(CHECKPOINT);
    TwoHeads(CHECKPOINT);
    SizeOfContainer(CHECKPOINT);
  }

  lemma NumberSize()
    ensures WellFormed(Uint(8)) && !IsVariable(Uint(8)) && HeadSize(Uint(8)) == 8
  {}

  lemma SizeOfContainer(t: Type)
    requires t.Container? && !IsVariable(t)
    ensures HeadSize(t) == HeadLength(t, 0, |t.fields|)
  {}

  lemma DataSize()
    ensures WellFormed(ATTESTATION_DATA) && !IsVariable(ATTESTATION_DATA) && HeadSize(ATTESTATION_DATA) == 128
  {
    hide HeadSize;
    RootSize();
    NumberSize();
    CheckpointSize();
    FixedContainer(ATTESTATION_DATA);
    FiveHeads(ATTESTATION_DATA);
    SizeOfContainer(ATTESTATION_DATA);
  }

  lemma AttestationIsWellFormed()
    ensures WellFormed(ATTESTATION)
  {
    RootSize();
    DataSize();
  }

  lemma ThreeHeads(t: Type)
    requires t.Container? && |t.fields| == 3
    ensures HeadLength(t, 0, 3) == HeadSize(t.fields[0]) + HeadSize(t.fields[1]) + HeadSize(t.fields[2])
  {
    hide HeadSize;
    assert HeadLength(t, 2, 3) == HeadSize(t.fields[2]) + HeadLength(t, 3, 3);
    assert HeadLength(t, 1, 3) == HeadSize(t.fields[1]) + HeadLength(t, 2, 3);
  }

  /** An attestation takes 228 bytes and those of its bits. */
  lemma AttestationLength(v: Value)
    requires HasType(ATTESTATION, v)
    ensures |v.items| == 3 && HasType(Bitlist(2048), v.items[0])
    ensures |Serialize(ATTESTATION, v)| == 228 + |v.items[0].bits| / 8 + 1
  {
    var t, vs := ATTESTATION, v.items;
    hide Heads, HeadSize, Tails;
    RootSize();
    DataSize();
    assert HasType(Member(t, 0), vs[0]);
    assert HeadSize(Bitlist(2048)) == 4 by { OffsetSize(); }
    ThreeHeads(t);
    HeadsLength(t, vs, 0, HeadLength(t, 0, 3));
    NoTails(t, vs, 1);
    OneTail(t, vs);
  }

  lemma OffsetSize()
    ensures HeadSize(Bitlist(2048)) == 4
  {}

  lemma OneTail(t: Type, vs: seq<Value>)
    requires HaveTypes(t, vs) && vs != [] && IsVariable(Member(t, 0)) && Tails(t, vs, 1) == []
    ensures Tails(t, vs, 0) == Serialize(Member(t, 0), vs[0])
  {
    hide Serialize;
  }

  /** Such a value exists... */
  function FullCommittee(): Value
  {
    var zero := Number(0);
    var root := Items(seq(32, _ => zero));
    var checkpoint := Items([zero, root]);
    var data := Items([zero, zero, root, checkpoint, checkpoint]);
    Items([BitString(seq(2048, _ => true)), data, Items(seq(96, _ => zero))])
  }

  lemma FullCommitteeIsTyped()
    ensures HasType(ATTESTATION, FullCommittee()) && |FullCommittee().items[0].bits| == 2048
  {
    var zero := Number(0);
    var root, signature := Items(seq(32, _ => zero)), Items(seq(96, _ => zero));
    var checkpoint := Items([zero, root]);
    var data := Items([zero, zero, root, checkpoint, checkpoint]);
    assert HasType(Uint(1), zero) && HasType(Uint(8), zero);
    assert HasType(ROOT, root) by { assert HaveTypes(ROOT, root.items); }
    assert HasType(SIGNATURE, signature) by { assert HaveTypes(SIGNATURE, signature.items); }
    assert HasType(CHECKPOINT, checkpoint) by { assert HaveTypes(CHECKPOINT, checkpoint.items); }
    assert HasType(ATTESTATION_DATA, data) by { assert HaveTypes(ATTESTATION_DATA, data.items); }
    assert HaveTypes(ATTESTATION, FullCommittee().items);
  }

  /** ...and no attestation by a full committee of 2048, whatever its data, can be read back. */
  lemma FullCommitteeIsLost(v: Value)
    requires HasType(ATTESTATION, v) && v.items[0].BitString? && |v.items[0].bits| == 2048
    ensures WellFormed(ATTESTATION) && |Serialize(ATTESTATION, v)| == 485
    ensures Read(ATTESTATION, Serialize(ATTESTATION, v), true) == Err(OutOfRange)
  {
    hide Read, Serialize;
    AttestationIsWellFormed();
    AttestationLength(v);
    ComesBack(ATTESTATION, v);
    assert !Readable(Member(ATTESTATION, 0), v.items[0]);
  }

  // ---- limits ----

  /** The same type up to the limits of lists other than bitlists, at any depth. */
  predicate SameButLimits(s: Type, t: Type)
  {
    match s
    case List(elem, _) => t.List? && SameButLimits(elem, t.elem)
    case Vector(elem, length) => t.Vector? && t.length == length && SameButLimits(elem, t.elem)
    case Container(fields) =>
      t.Container? && |t.fields| == |fields| && forall i :: 0 <= i < |fields| ==> SameButLimits(fields[i], t.fields[i])
    case _ => s == t
  }

  /** Types of fixed size contain no lists. */
  lemma {:induction false} FixedIsSame(s: Type, t: Type)
    requires SameButLimits(s, t)
    ensures IsVariable(s) == IsVariable(t)
    ensures !IsVariable(s) ==> s == t
    decreases s
  {
    match s
    case Vector(elem, _) => FixedIsSame(elem, t.elem);
    case Container(fields) =>
      forall i | 0 <= i < |fields|
        ensures IsVariable(fields[i]) == IsVariable(t.fields[i])
        ensures !IsVariable(fields[i]) ==> fields[i] == t.fields[i]
      {
        FixedIsSame(fields[i], t.fields[i]);
      }
      if !IsVariable(s) { assert fields == t.fields; }
    case _ =>
  }

  lemma {:induction false} SameIsWellFormed(s: Type, t: Type)
    requires WellFormed(s) && SameButLimits(s, t)
    ensures WellFormed(t)
    decreases s
  {
    match s
    case Vector(elem, _) => FixedIsSame(elem, t.elem);
    case List(elem, _) => SameIsWellFormed(elem, t.elem);
    case Container(fields) =>
      forall i | 0 <= i < |fields|
        ensures WellFormed(t.fields[i])
      {
        SameIsWellFormed(fields[i], t.fields[i]);
      }
    case _ =>
  }

  /** Only bitlists are checked against their limit: all other lists, however deep inside, read the same under any. */
  lemma {:induction false} LimitIsIgnored(s: Type, t: Type, bs: seq<Byte>, guard: bool)
    requires WellFormed(s) && SameButLimits(s, t)
    ensures WellFormed(t) && Read(s, bs, guard) == Read(t, bs, guard)
    decreases s, 2, 0
  {
    hide ReadList, ReadChunks, ReadMembers, FixedSize, UnpackBits, SameButLimits;
    SameIsWellFormed(s, t);
    FixedIsSame(s, t);
    if IsVariable(s) {
      SameParts(s, t);
      if s.Container? {
        MembersIgnoreLimits(s, t, bs, guard);
      } else if s.List? {
        FixedIsSame(s.elem, t.elem);
        if IsVariable(s.elem) {
          ListIgnoresLimits(s, t, bs, guard);
        } else {
          SizeIsPositive(s.elem);
          ChunksIgnoreLimit(s, t, 0, |bs| / FixedSize(s.elem), bs, guard);
        }
      }
    }
  }

  lemma SameParts(s: Type, t: Type)
    requires SameButLimits(s, t) && WellFormed(s) && IsVariable(s)
    ensures s.List? ==> t.List? && SameButLimits(s.elem, t.elem)
    ensures s.Container? ==> t.Container? && |t.fields| == |s.fields|
    ensures s.Container? ==> forall i :: 0 <= i < |s.fields| ==> SameButLimits(s.fields[i], t.fields[i])
    ensures s.List? || s.Container? || s == t
  {}

  lemma {:induction false} ChunksIgnoreLimit(s: Type, t: Type, i: nat, n: nat, bs: seq<Byte>, guard: bool)
    requires WellFormed(s) && WellFormed(t) && s.List? && t.List? && s.elem == t.elem && i <= n
    ensures ReadChunks(s, i, n, bs, guard) == ReadChunks(t, i, n, bs, guard)
    decreases n - i
  {
    hide Read;
    if bs != [] && i < n {
      ChunksIgnoreLimit(s, t, i + 1, n, bs[Min(FixedSize(s.elem), |bs|)..], guard);
    }
  }

  lemma {:induction false} ListIgnoresLimits(s: Type, t: Type, bs: seq<Byte>, guard: bool)
    requires WellFormed(s) && WellFormed(t) && s.List? && t.List? && SameButLimits(s.elem, t.elem)
    ensures ReadList(s, bs, guard) == ReadList(t, bs, guard)
    decreases s, 1, 0
  {
    hide FromLittleEndian, ReadElements;
    if |bs| >= OFFSET_BYTES {
      var offset := FromLittleEndian(bs[..OFFSET_BYTES]);
      if offset / OFFSET_BYTES > 0 {
        ElementsIgnoreLimits(s, t, 0, offset / OFFSET_BYTES, bs, offset, guard);
      }
    }
  }

  lemma {:induction false} ElementsIgnoreLimits(s: Type, t: Type, i: nat, n: nat, bs: seq<Byte>, offset: nat,
                                                guard: bool)
    requires WellFormed(s) && WellFormed(t) && s.List? && t.List? && SameButLimits(s.elem, t.elem) && i < n
    ensures ReadElements(s, i, n, bs, offset, guard) == ReadElements(t, i, n, bs, offset, guard)
    decreases s, 0, n - i
  {
    hide Read, FromLittleEndian, SameButLimits;
    if i + 1 == n {
      LimitIsIgnored(s.elem, t.elem, Drop(bs, offset), guard);
    } else if |bs| >= OFFSET_BYTES * (i + 1) + OFFSET_BYTES {
      var idx := OFFSET_BYTES * (i + 1);
      var next := FromLittleEndian(bs[idx..idx + OFFSET_BYTES]);
      if InOrder(offset, next, bs) {
        LimitIsIgnored(s.elem, t.elem, bs[offset..next], guard);
        ElementsIgnoreLimits(s, t, i + 1, n, bs, next, guard);
      }
    }
  }

  /** The fields of two containers differ in limits only. */
  ghost predicate SameFields(s: Type, t: Type)
  {
    && WellFormed(s) && WellFormed(t) && s.Container? && t.Container? && |s.fields| == |t.fields|
    && forall i :: 0 <= i < |s.fields| ==> SameButLimits(s.fields[i], t.fields[i])
  }

  lemma {:induction false} MembersIgnoreLimits(s: Type, t: Type, bs: seq<Byte>, guard: bool)
    requires SameFields(s, t)
    ensures ReadMembers(s, bs, guard) == ReadMembers(t, bs, guard)
    decreases s, 1, 0
  {
    hide ReadHeads, ReadTails;
    HeadsIgnoreLimits(s, t, 0, bs, guard);
    var heads := ReadHeads(s, 0, bs, guard);
    if heads.Ok? { TailsIgnoreLimits(s, t, 0, heads.value.0, bs, heads.value.1, guard); }
  }

  lemma {:induction false} HeadsIgnoreLimits(s: Type, t: Type, i: nat, bs: seq<Byte>, guard: bool)
    requires SameFields(s, t) && i <= |s.fields|
    ensures ReadHeads(s, i, bs, guard) == ReadHeads(t, i, bs, guard)
    decreases s, 0, |s.fields| - i
  {
    hide Read, FromLittleEndian, SameButLimits, FixedSize;
    if i < |s.fields| {
      FixedIsSame(s.fields[i], t.fields[i]);
      if IsVariable(s.fields[i]) {
        if |bs| >= OFFSET_BYTES { HeadsIgnoreLimits(s, t, i + 1, bs[OFFSET_BYTES..], guard); }
      } else {
        HeadsIgnoreLimits(s, t, i + 1, bs[Min(FixedSize(s.fields[i]), |bs|)..], guard);
      }
    }
  }

  lemma {:induction false} TailsIgnoreLimits(s: Type, t: Type, i: nat, slots: seq<Option<Value>>, bs: seq<Byte>,
                                             offsets: seq<nat>, guard: bool)
    requires SameFields(s, t) && i <= |s.fields|
    ensures ReadTails(s, i, slots, bs, offsets, guard) == ReadTails(t, i, slots, bs, offsets, guard)
    decreases s, 0, |s.fields| - i
  {
    hide Read, SameButLimits;
    if i < |s.fields| && slots != [] {
      if slots[0].Some? {
        TailsIgnoreLimits(s, t, i + 1, slots[1..], bs, offsets, guard);
      } else if Slice(bs, offsets).Ok? {
        LimitIsIgnored(s.fields[i], t.fields[i], Slice(bs, offsets).value, guard);
        TailsIgnoreLimits(s, t, i + 1, slots[1..], bs, offsets[1..], guard);
      }
    }
  }
}
