/** ssz::size and the in-place ssz::serialize of lib/basic_types.hpp, lib/lists.hpp and lib/container.hpp. */
module Writer {
  import opened Bytes
  import opened Buffers
  import opened MathHelpers
  import opened Bits
  import opened Ink
  import opened Schema

  // ---- ssz::size ----

  /** Sizes of containers are 32-bit numbers. */
  function Truncate(n: nat): nat
  {
    n % TWO_TO_THE_32
  }

  function Size(t: Type, v: Value): nat
    requires HasType(t, v)
    decreases v, 1, 0
  {
    match t
    case Uint(w) => w
    case Bool => 1
    case Bitvector(n) => CeilDiv(n, 8)
    case Bitlist(_) => |v.bits| / 8 + 1
    case Container(_) => TotalLength(t, v.items, 0)
    case _ => SequenceSize(t, v.items)
  }

  /** Elements of fixed size all have the size of the first one. */
  function SequenceSize(t: Type, vs: seq<Value>): nat
    requires HaveTypes(t, vs)
    decreases vs, 1, 0
  {
    if |vs| == 0 then 0
    else if IsVariable(Member(t, 0)) then FoldSizes(t, vs, 0)
    else |vs| * Size(Member(t, 0), vs[0])
  }

  /** The fold over a list of elements of variable size. */
  function FoldSizes(t: Type, vs: seq<Value>, i: nat): nat
    requires HaveTypes(t, vs) && i <= |vs|
    decreases vs, 0, |vs| - i
  {
    if i == |vs| then 0 else OFFSET_BYTES + Size(Member(t, i), vs[i]) + FoldSizes(t, vs, i + 1)
  }

  /** compute_total_length, a fold of size_plus_placeholder */
  function TotalLength(t: Type, vs: seq<Value>, i: nat): nat
    requires HaveTypes(t, vs) && i <= |vs|
    decreases vs, 0, |vs| - i
  {
    if i == |vs| then 0 else
      var m := Member(t, i);
      var plusPlaceholder := Truncate(Size(m, vs[i]) + if IsVariable(m) then OFFSET_BYTES else 0);
      Truncate(plusPlaceholder + TotalLength(t, vs, i + 1))
  }

  /** ssz::size is the length of the encoding, as long as that fits a 32-bit number. */
  lemma {:induction false} SizeIsLength(t: Type, v: Value)
    requires HasType(t, v) && |Serialize(t, v)| < TWO_TO_THE_32
    ensures Size(t, v) == |Serialize(t, v)|
    decreases v, 1, 0
  {
    if Composite(t) {
      var vs := v.items;
      HeadsLength(t, vs, 0, HeadLength(t, 0, |vs|));
      if t.Container? {
        TotalLengthAddsUp(t, vs, 0);
      } else if |vs| > 0 && IsVariable(t.elem) {
        FoldAddsUp(t, vs, 0);
      } else {
        UniformSize(t, vs);
        if |vs| > 0 { SizeIsLength(t.elem, vs[0]); }
      }
    }
  }

  lemma UniformSize(t: Type, vs: seq<Value>)
    requires HaveTypes(t, vs) && (t.Vector? || t.List?) && (vs == [] || !IsVariable(t.elem))
    ensures Tails(t, vs, 0) == []
    ensures HeadLength(t, 0, |vs|) == |vs| * HeadSize(t.elem)
    ensures vs != [] ==> |Serialize(t.elem, vs[0])| == HeadSize(t.elem) <= HeadLength(t, 0, |vs|)
  {
    NoTails(t, vs, 0);
    UniformHeads(t, 0, |vs|);
    if vs != [] {
      FixedSizeIsLength(t.elem, vs[0]);
      assert |vs| * FixedSize(t.elem) >= FixedSize(t.elem);
    }
  }

  lemma {:induction false} TotalLengthAddsUp(t: Type, vs: seq<Value>, i: nat)
    requires HaveTypes(t, vs) && i <= |vs|
    requires HeadLength(t, i, |vs|) + |Tails(t, vs, i)| < TWO_TO_THE_32
    ensures TotalLength(t, vs, i) == HeadLength(t, i, |vs|) + |Tails(t, vs, i)|
    decreases vs, 0, |vs| - i
  {
    hide Serialize, Tails, HeadLength, Size, Truncate;
    if i < |vs| {
      var m := Member(t, i);
      var plusPlaceholder := Size(m, vs[i]) + if IsVariable(m) then OFFSET_BYTES else 0;
      OneMember(t, vs, i);
      TotalLengthAddsUp(t, vs, i + 1);
      SizeIsLength(m, vs[i]);
      Fits(plusPlaceholder);
      Fits(plusPlaceholder + TotalLength(t, vs, i + 1));
    } else {
      NoMembers(t, vs);
    }
  }

  /** The sum without truncation. */
  function UntruncatedTotal(t: Type, vs: seq<Value>, i: nat): nat
    requires HaveTypes(t, vs) && i <= |vs|
    decreases |vs| - i
  {
    if i == |vs| then 0 else
      Size(Member(t, i), vs[i]) + (if IsVariable(Member(t, i)) then OFFSET_BYTES else 0)
      + UntruncatedTotal(t, vs, i + 1)
  }

  /** Whatever the sizes: the 32-bit sums wrap around once, however they are grouped. */
  lemma {:induction false} TotalLengthWraps(t: Type, vs: seq<Value>, i: nat)
    requires HaveTypes(t, vs) && i <= |vs|
    ensures TotalLength(t, vs, i) == Truncate(UntruncatedTotal(t, vs, i))
    decreases |vs| - i
  {
    hide Size, Truncate;
    if i == |vs| {
      Fits(0);
    } else {
      TotalLengthWraps(t, vs, i + 1);
      WrapSum(Size(Member(t, i), vs[i]) + (if IsVariable(Member(t, i)) then OFFSET_BYTES else 0),
              UntruncatedTotal(t, vs, i + 1));
    }
  }

  lemma WrapSum(a: nat, b: nat)
    ensures Truncate(Truncate(a) + Truncate(b)) == Truncate(a + b)
  {
    var n, q := TWO_TO_THE_32, a / TWO_TO_THE_32 + b / TWO_TO_THE_32;
    assert a + b == n * q + (Truncate(a) + Truncate(b));
  }

  lemma Fits(n: nat)
    requires n < TWO_TO_THE_32
    ensures Truncate(n) == n
  {}

  lemma OneMember(t: Type, vs: seq<Value>, i: nat)
    requires HaveTypes(t, vs) && i < |vs|
    ensures HeadLength(t, i, |vs|) + |Tails(t, vs, i)|
         == |Serialize(Member(t, i), vs[i])| + (if IsVariable(Member(t, i)) then OFFSET_BYTES else 0)
            + HeadLength(t, i + 1, |vs|) + |Tails(t, vs, i + 1)|
  {
    hide Serialize;
    if !IsVariable(Member(t, i)) { FixedSizeIsLength(Member(t, i), vs[i]); }
  }

  lemma NoMembers(t: Type, vs: seq<Value>)
    requires HaveTypes(t, vs)
    ensures HeadLength(t, |vs|, |vs|) == 0 && Tails(t, vs, |vs|) == []
  {}

  lemma {:induction false} FoldAddsUp(t: Type, vs: seq<Value>, i: nat)
    requires HaveTypes(t, vs) && i <= |vs| && (t.Vector? || t.List?) && IsVariable(t.elem)
    requires HeadLength(t, i, |vs|) + |Tails(t, vs, i)| < TWO_TO_THE_32
    ensures FoldSizes(t, vs, i) == HeadLength(t, i, |vs|) + |Tails(t, vs, i)|
    decreases vs, 0, |vs| - i
  {
    hide Serialize, Tails, HeadLength;
    if i < |vs| {
      OneMember(t, vs, i);
      FoldAddsUp(t, vs, i + 1);
      SizeIsLength(t.elem, vs[i]);
    } else {
      NoMembers(t, vs);
    }
  }

  // ---- what serialize does to a buffer ----

  /** The marks that the writer of a value leaves: those of its encoding, with the bits of bitsets OR-ed in. */
  ghost function InkOf(t: Type, v: Value): (ink: seq<Mark>)
    requires HasType(t, v)
    ensures |ink| == |Serialize(t, v)|
    decreases v, 1, 0
  {
    match t
    case Uint(_) => Plain(Serialize(t, v))
    case Bool => Plain(Serialize(t, v))
    case Bitvector(_) => Ored(PackBits(v.bits))
    case Bitlist(_) => BitlistInk(v.bits)
    case _ => HeadInk(t, v.items, 0, HeadLength(t, 0, |v.items|)) + TailInk(t, v.items, 0)
  }

  ghost function HeadInk(t: Type, vs: seq<Value>, i: nat, offset: nat): (ink: seq<Mark>)
    requires HaveTypes(t, vs) && i <= |vs|
    ensures |ink| == |Heads(t, vs, i, offset)|
    decreases vs, 0, |vs| - i
  {
    if i == |vs| then []
    else if IsVariable(Member(t, i))
    then Plain(LittleEndian(offset, OFFSET_BYTES)) + HeadInk(t, vs, i + 1, offset + |Serialize(Member(t, i), vs[i])|)
    else InkOf(Member(t, i), vs[i]) + HeadInk(t, vs, i + 1, offset)
  }

  ghost function TailInk(t: Type, vs: seq<Value>, i: nat): (ink: seq<Mark>)
    requires HaveTypes(t, vs) && i <= |vs|
    ensures |ink| == |Tails(t, vs, i)|
    decreases vs, 0, |vs| - i
  {
    if i == |vs| then []
    else if IsVariable(Member(t, i)) then InkOf(Member(t, i), vs[i]) + TailInk(t, vs, i + 1)
    else TailInk(t, vs, i + 1)
  }

  /** The bytes meant are the encoding. */
  lemma {:induction false} InkBytes(t: Type, v: Value)
    requires HasType(t, v)
    ensures BytesOf(InkOf(t, v)) == Serialize(t, v)
    decreases v, 1, 0
  {
    hide PackBits, BitlistBytes, LittleEndian, HeadLength, Heads, Tails, HeadInk, TailInk;
    match t
    case Bitlist(_) => BitlistInkBytes(v.bits);
    case Uint(_) =>
    case Bool =>
    case Bitvector(_) =>
    case _ =>
      HeadInkBytes(t, v.items, 0, HeadLength(t, 0, |v.items|));
      TailInkBytes(t, v.items, 0);
      BytesOfSum(HeadInk(t, v.items, 0, HeadLength(t, 0, |v.items|)), TailInk(t, v.items, 0));
  }

  lemma BytesOfSum(a: seq<Mark>, b: seq<Mark>)
    ensures BytesOf(a + b) == BytesOf(a) + BytesOf(b)
  {}

  lemma {:induction false} HeadInkBytes(t: Type, vs: seq<Value>, i: nat, offset: nat)
    requires HaveTypes(t, vs) && i <= |vs|
    ensures BytesOf(HeadInk(t, vs, i, offset)) == Heads(t, vs, i, offset)
    decreases vs, 0, |vs| - i
  {
    hide Serialize, InkOf, LittleEndian, Plain, Heads, HeadInk;
    if i == |vs| {
      NoHeads(t, vs, offset);
    } else if IsVariable(Member(t, i)) {
      var next := offset + |Serialize(Member(t, i), vs[i])|;
      HeadsVariable(t, vs, i, offset);
      HeadInkVariable(t, vs, i, offset);
      HeadInkBytes(t, vs, i + 1, next);
      BytesOfPlain(LittleEndian(offset, OFFSET_BYTES));
      BytesOfSum(Plain(LittleEndian(offset, OFFSET_BYTES)), HeadInk(t, vs, i + 1, next));
    } else {
      HeadsFixed(t, vs, i, offset);
      InkBytes(Member(t, i), vs[i]);
      HeadInkBytes(t, vs, i + 1, offset);
      BytesOfSum(InkOf(Member(t, i), vs[i]), HeadInk(t, vs, i + 1, offset));
    }
  }

  lemma BytesOfPlain(bs: seq<Byte>)
    ensures BytesOf(Plain(bs)) == bs
  {}

  lemma NoHeads(t: Type, vs: seq<Value>, offset: nat)
    requires HaveTypes(t, vs)
    ensures Heads(t, vs, |vs|, offset) == [] && HeadInk(t, vs, |vs|, offset) == []
  {}

  lemma HeadsVariable(t: Type, vs: seq<Value>, i: nat, offset: nat)
    requires HaveTypes(t, vs) && i < |vs| && IsVariable(Member(t, i))
    ensures var next := offset + |Serialize(Member(t, i), vs[i])|;
      Heads(t, vs, i, offset) == LittleEndian(offset, OFFSET_BYTES) + Heads(t, vs, i + 1, next)
  {
    hide Serialize, LittleEndian;
  }

  lemma HeadInkVariable(t: Type, vs: seq<Value>, i: nat, offset: nat)
    requires HaveTypes(t, vs) && i < |vs| && IsVariable(Member(t, i))
    ensures var next := offset + |Serialize(Member(t, i), vs[i])|;
      HeadInk(t, vs, i, offset) == Plain(LittleEndian(offset, OFFSET_BYTES)) + HeadInk(t, vs, i + 1, next)
  {
    hide Serialize, Heads, InkOf, LittleEndian, Plain;
  }

  lemma HeadsFixed(t: Type, vs: seq<Value>, i: nat, offset: nat)
    requires HaveTypes(t, vs) && i < |vs| && !IsVariable(Member(t, i))
    ensures Heads(t, vs, i, offset) == Serialize(Member(t, i), vs[i]) + Heads(t, vs, i + 1, offset)
    ensures HeadInk(t, vs, i, offset) == InkOf(Member(t, i), vs[i]) + HeadInk(t, vs, i + 1, offset)
  {
    hide Serialize, InkOf;
  }

  lemma {:induction false} TailInkBytes(t: Type, vs: seq<Value>, i: nat)
    requires HaveTypes(t, vs) && i <= |vs|
    ensures BytesOf(TailInk(t, vs, i)) == Tails(t, vs, i)
    decreases vs, 0, |vs| - i
  {
    hide Serialize, InkOf, BytesOf;
    if i < |vs| {
      TailInkBytes(t, vs, i + 1);
      if IsVariable(Member(t, i)) {
        InkBytes(Member(t, i), vs[i]);
        BytesOfSum(InkOf(Member(t, i), vs[i]), TailInk(t, vs, i + 1));
      }
    }
  }

  // ---- the two cursors ----

  function PaintBoth(s: seq<Byte>, i: nat, a: seq<Mark>, j: nat, b: seq<Mark>): (r: seq<Byte>)
    requires i + |a| <= j && j + |b| <= |s|
    ensures |r| == |s|
  {
    Paint(Paint(s, i, a), j, b)
  }

  /** The buffer once the members from i on are written, heads from `head` and tails from `tail` on. */
  ghost function Rest(s: seq<Byte>, t: Type, vs: seq<Value>, i: nat, begin: nat, head: nat, tail: nat): seq<Byte>
    requires HaveTypes(t, vs) && i <= |vs| && begin <= tail
    requires head + HeadLength(t, i, |vs|) <= tail && tail + |Tails(t, vs, i)| <= |s|
  {
    hide HeadInk, TailInk, Heads, Tails, HeadLength, Paint;
    InkLengths(t, vs, i, tail - begin);
    PaintBoth(s, head, HeadInk(t, vs, i, tail - begin), tail, TailInk(t, vs, i))
  }

  lemma NextVariable(t: Type, vs: seq<Value>, i: nat, offset: nat)
    requires HaveTypes(t, vs) && i < |vs| && IsVariable(Member(t, i))
    ensures var ink := InkOf(Member(t, i), vs[i]);
      && HeadLength(t, i, |vs|) == OFFSET_BYTES + HeadLength(t, i + 1, |vs|)
      && |Tails(t, vs, i)| == |ink| + |Tails(t, vs, i + 1)|
      && HeadInk(t, vs, i, offset)
         == Plain(LittleEndian(offset, OFFSET_BYTES)) + HeadInk(t, vs, i + 1, offset + |ink|)
      && TailInk(t, vs, i) == ink + TailInk(t, vs, i + 1)
  {
    hide Serialize, InkOf, LittleEndian, Plain, HeadInk, TailInk, Heads;
    HeadInkVariable(t, vs, i, offset);
    TailInkVariable(t, vs, i);
  }

  lemma TailInkVariable(t: Type, vs: seq<Value>, i: nat)
    requires HaveTypes(t, vs) && i < |vs| && IsVariable(Member(t, i))
    ensures TailInk(t, vs, i) == InkOf(Member(t, i), vs[i]) + TailInk(t, vs, i + 1)
  {
    hide Serialize, InkOf, Tails;
  }

  lemma NextFixed(t: Type, vs: seq<Value>, i: nat, offset: nat)
    requires HaveTypes(t, vs) && i < |vs| && !IsVariable(Member(t, i))
    ensures var ink := InkOf(Member(t, i), vs[i]);
      && HeadLength(t, i, |vs|) == |ink| + HeadLength(t, i + 1, |vs|)
      && Tails(t, vs, i) == Tails(t, vs, i + 1)
      && HeadInk(t, vs, i, offset) == ink + HeadInk(t, vs, i + 1, offset)
      && TailInk(t, vs, i) == TailInk(t, vs, i + 1)
  {
    hide Serialize, InkOf;
    FixedSizeIsLength(Member(t, i), vs[i]);
  }

  lemma InkLengths(t: Type, vs: seq<Value>, i: nat, offset: nat)
    requires HaveTypes(t, vs) && i <= |vs|
    ensures |HeadInk(t, vs, i, offset)| == HeadLength(t, i, |vs|)
    ensures |TailInk(t, vs, i)| == |Tails(t, vs, i)|
  {
    HeadsLength(t, vs, i, offset);
  }

  /** A member of variable size: its offset at one cursor, itself at the other. */
  lemma RestVariable(s: seq<Byte>, t: Type, vs: seq<Value>, i: nat, begin: nat, head: nat, tail: nat)
    requires HaveTypes(t, vs) && i < |vs| && begin <= tail && IsVariable(Member(t, i))
    requires head + HeadLength(t, i, |vs|) <= tail && tail + |Tails(t, vs, i)| <= |s|
    ensures var ink, o := InkOf(Member(t, i), vs[i]), LittleEndian(tail - begin, OFFSET_BYTES);
      && head + OFFSET_BYTES + HeadLength(t, i + 1, |vs|) == head + HeadLength(t, i, |vs|)
      && |Tails(t, vs, i)| == |ink| + |Tails(t, vs, i + 1)|
      && Rest(Paint(Paint(s, head, Plain(o)), tail, ink), t, vs, i + 1, begin, head + OFFSET_BYTES, tail + |ink|)
         == Rest(s, t, vs, i, begin, head, tail)
  {
    hide Paint, LittleEndian, Serialize, InkOf, Plain, HeadInk, TailInk, Heads, Tails, HeadLength;
    var ink, offset := InkOf(Member(t, i), vs[i]), tail - begin;
    NextVariable(t, vs, i, offset);
    InkLengths(t, vs, i + 1, offset + |ink|);
    PaintTwoCursors(s, head, Plain(LittleEndian(offset, OFFSET_BYTES)), HeadInk(t, vs, i + 1, offset + |ink|),
                    tail, ink, TailInk(t, vs, i + 1));
  }

  /** A member of fixed size moves one cursor only. */
  lemma RestFixed(s: seq<Byte>, t: Type, vs: seq<Value>, i: nat, begin: nat, head: nat, tail: nat)
    requires HaveTypes(t, vs) && i < |vs| && begin <= tail && !IsVariable(Member(t, i))
    requires head + HeadLength(t, i, |vs|) <= tail && tail + |Tails(t, vs, i)| <= |s|
    ensures var ink := InkOf(Member(t, i), vs[i]);
      && head + |ink| + HeadLength(t, i + 1, |vs|) == head + HeadLength(t, i, |vs|)
      && Tails(t, vs, i) == Tails(t, vs, i + 1)
      && Rest(Paint(s, head, ink), t, vs, i + 1, begin, head + |ink|, tail) == Rest(s, t, vs, i, begin, head, tail)
  {
    hide Paint, Serialize, InkOf, HeadInk, TailInk, Heads, Tails, HeadLength;
    var ink := InkOf(Member(t, i), vs[i]);
    NextFixed(t, vs, i, tail - begin);
    InkLengths(t, vs, i + 1, tail - begin);
    PaintAppend(s, head, ink, HeadInk(t, vs, i + 1, tail - begin));
  }

  lemma RestNothing(s: seq<Byte>, t: Type, vs: seq<Value>, begin: nat, head: nat, tail: nat)
    requires HaveTypes(t, vs) && begin <= tail && head <= tail <= |s|
    ensures Rest(s, t, vs, |vs|, begin, head, tail) == s
  {
    PaintNothing(s, head);
    PaintNothing(s, tail);
  }

  lemma InkParts(t: Type, v: Value)
    requires HasType(t, v) && Composite(t)
    ensures HaveTypes(t, v.items)
    ensures |Serialize(t, v)| == HeadLength(t, 0, |v.items|) + |Tails(t, v.items, 0)|
    ensures InkOf(t, v) == HeadInk(t, v.items, 0, HeadLength(t, 0, |v.items|)) + TailInk(t, v.items, 0)
  {
    hide Heads, Tails, HeadInk, TailInk, HeadLength;
    HeadsLength(t, v.items, 0, HeadLength(t, 0, |v.items|));
  }

  /** At the start the cursors are the length of all heads apart. */
  lemma RestEverything(s: seq<Byte>, t: Type, v: Value, at: nat)
    requires HasType(t, v) && Composite(t) && at + |Serialize(t, v)| <= |s|
    ensures var n := |v.items|;
      && |Serialize(t, v)| == HeadLength(t, 0, n) + |Tails(t, v.items, 0)|
      && Rest(s, t, v.items, 0, at, at, at + HeadLength(t, 0, n)) == Paint(s, at, InkOf(t, v))
  {
    hide Paint, Serialize, InkOf, Heads, Tails, HeadInk, TailInk, HeadLength;
    var h := HeadLength(t, 0, |v.items|);
    InkParts(t, v);
    InkLengths(t, v.items, 0, h);
    PaintAppend(s, at, HeadInk(t, v.items, 0, h), TailInk(t, v.items, 0));
  }

  // ---- ssz::serialize in place ----

  /** Space for the members from i on, at both cursors; offsets stay 32-bit numbers. */
  ghost predicate Room(s: seq<Byte>, t: Type, vs: seq<Value>, i: nat, begin: nat, head: nat, tail: nat)
  {
    && HaveTypes(t, vs) && i <= |vs| && begin <= tail
    && head + HeadLength(t, i, |vs|) <= tail && tail + |Tails(t, vs, i)| <= |s|
    && HeadLength(t, i, |vs|) + |Tails(t, vs, i)| < TWO_TO_THE_32
  }

  method WriteNumber(buf: array<Byte>, at: nat, n: nat, w: nat)
    requires at + w <= buf.Length
    modifies buf
    ensures buf[..] == Splice(old(buf[..]), at, LittleEndian(n, w))
  {
    ghost var goal := Splice(buf[..], at, LittleEndian(n, w));
    var m := n;
    for i := 0 to w
      invariant goal == Splice(buf[..], at + i, LittleEndian(m, w - i))
    {
      SpliceOne(buf[..], at + i, m % 256, LittleEndian(m / 256, w - i - 1));
      buf[at + i] := m % 256;
      m := m / 256;
    }
    SpliceNothing(buf[..], at + w);
  }

  /** Any buffer will do; `WrittenIff` says when what is left in it is the encoding. */
  method Write(buf: array<Byte>, at: nat, t: Type, v: Value)
    requires HasType(t, v) && at + |Serialize(t, v)| <= buf.Length && |Serialize(t, v)| < TWO_TO_THE_32
    modifies buf
    ensures buf[..] == Paint(old(buf[..]), at, InkOf(t, v))
    decreases v, 2, 0
  {
    hide Paint, Splice, PackBits, OrAll, LittleEndian, BitlistInk, BitlistOver;
    match t
    case Uint(w) =>
      PaintPlain(buf[..], at, LittleEndian(v.n, w));
      WriteNumber(buf, at, v.n, w);
    case Bool =>
      PaintPlain(buf[..], at, [if v.b then 1 else 0]);
      Copy(buf, at, [if v.b then 1 else 0]);
    case Bitvector(_) =>
      PaintOred(buf[..], at, PackBits(v.bits));
      WriteBitset(buf, at, v.bits);
    case Bitlist(_) =>
      PaintBitlist(buf[..], at, v.bits);
      WriteBitlist(buf, at, v.bits);
    case _ => WriteComposite(buf, at, t, v);
  }

  method WriteComposite(buf: array<Byte>, at: nat, t: Type, v: Value)
    requires HasType(t, v) && Composite(t)
    requires at + |Serialize(t, v)| <= buf.Length && |Serialize(t, v)| < TWO_TO_THE_32
    modifies buf
    ensures buf[..] == Paint(old(buf[..]), at, InkOf(t, v))
    decreases v, 1, 0
  {
    hide Serialize, Paint, Rest, InkOf;
    RestEverything(buf[..], t, v, at);
    RoomAtStart(buf[..], t, v, at);
    if t.Container? {
      WriteContainer(buf, at, t, v.items);
    } else if IsVariable(t.elem) {
      WriteVariableList(buf, at, t, v.items);
    } else {
      WriteFixedList(buf, at, t, v.items);
    }
  }

  lemma RoomAtStart(s: seq<Byte>, t: Type, v: Value, at: nat)
    requires HasType(t, v) && Composite(t)
    requires at + |Serialize(t, v)| <= |s| && |Serialize(t, v)| < TWO_TO_THE_32
    ensures HaveTypes(t, v.items)
    ensures Room(s, t, v.items, 0, at, at, at + HeadLength(t, 0, |v.items|))
  {
    RestEverything(s, t, v, at);
  }

  lemma RoomAfterInline(s: seq<Byte>, t: Type, vs: seq<Value>, i: nat, begin: nat, head: nat, tail: nat)
    requires Room(s, t, vs, i, begin, head, tail) && i < |vs| && !IsVariable(Member(t, i))
    ensures var b := Serialize(Member(t, i), vs[i]);
      |b| < TWO_TO_THE_32 && head + |b| <= |s| && Room(s, t, vs, i + 1, begin, head + |b|, tail)
  {
    hide Serialize, InkOf, HeadInk, TailInk, Heads, Tails, HeadLength;
    NextFixed(t, vs, i, tail - begin);
  }

  lemma RoomAfterOutline(s: seq<Byte>, t: Type, vs: seq<Value>, i: nat, begin: nat, head: nat, tail: nat)
    requires Room(s, t, vs, i, begin, head, tail) && i < |vs| && IsVariable(Member(t, i))
    ensures var b := Serialize(Member(t, i), vs[i]);
      && |b| < TWO_TO_THE_32 && head + OFFSET_BYTES <= tail && tail + |b| <= |s|
      && Room(s, t, vs, i + 1, begin, head + OFFSET_BYTES, tail + |b|)
  {
    hide Serialize, InkOf, HeadInk, TailInk, Heads, Tails, HeadLength;
    NextVariable(t, vs, i, tail - begin);
  }

  lemma SameRoom(s: seq<Byte>, s': seq<Byte>, t: Type, vs: seq<Value>, i: nat, begin: nat, head: nat, tail: nat)
    requires Room(s, t, vs, i, begin, head, tail) && |s'| == |s|
    ensures Room(s', t, vs, i, begin, head, tail)
  {}

  /** A member of fixed size goes to the head cursor. */
  method WriteInline(buf: array<Byte>, t: Type, vs: seq<Value>, i: nat, ghost begin: nat, head: nat, ghost tail: nat)
    returns (next: nat)
    requires Room(buf[..], t, vs, i, begin, head, tail) && i < |vs| && !IsVariable(Member(t, i))
    modifies buf
    ensures Room(buf[..], t, vs, i + 1, begin, next, tail)
    ensures Rest(buf[..], t, vs, i + 1, begin, next, tail) == old(Rest(buf[..], t, vs, i, begin, head, tail))
    decreases vs, 0, 0
  {
    hide Serialize, Paint, Rest, InkOf, Room;
    ghost var was := buf[..];
    RoomParts(was, t, vs, i, begin, head, tail);
    RoomAfterInline(was, t, vs, i, begin, head, tail);
    RestFixed(was, t, vs, i, begin, head, tail);
    SizeIsLength(Member(t, i), vs[i]);
    Write(buf, head, Member(t, i), vs[i]);
    next := head + Size(Member(t, i), vs[i]);
    SameRoom(was, buf[..], t, vs, i + 1, begin, next, tail);
  }

  lemma RoomParts(s: seq<Byte>, t: Type, vs: seq<Value>, i: nat, begin: nat, head: nat, tail: nat)
    requires Room(s, t, vs, i, begin, head, tail)
    ensures HaveTypes(t, vs) && i <= |vs| && begin <= tail
    ensures head + HeadLength(t, i, |vs|) <= tail && tail + |Tails(t, vs, i)| <= |s|
  {}

  /** A member of variable size: its offset goes to the head cursor, itself to the tail cursor. */
  method WriteOutline(buf: array<Byte>, t: Type, vs: seq<Value>, i: nat, begin: nat, head: nat, tail: nat)
    returns (nextHead: nat, nextTail: nat)
    requires Room(buf[..], t, vs, i, begin, head, tail) && i < |vs| && IsVariable(Member(t, i))
    modifies buf
    ensures nextHead == head + OFFSET_BYTES
    ensures Room(buf[..], t, vs, i + 1, begin, nextHead, nextTail)
    ensures Rest(buf[..], t, vs, i + 1, begin, nextHead, nextTail) == old(Rest(buf[..], t, vs, i, begin, head, tail))
    decreases vs, 0, 0
  {
    hide Serialize, Splice, Paint, Rest, LittleEndian, InkOf, Plain, Room;
    ghost var was := buf[..];
    RoomParts(was, t, vs, i, begin, head, tail);
    RoomAfterOutline(was, t, vs, i, begin, head, tail);
    RestVariable(was, t, vs, i, begin, head, tail);
    SizeIsLength(Member(t, i), vs[i]);
    PaintPlain(was, head, LittleEndian(tail - begin, OFFSET_BYTES));
    WriteNumber(buf, head, tail - begin, OFFSET_BYTES);
    Write(buf, tail, Member(t, i), vs[i]);
    nextHead := head + OFFSET_BYTES;
    nextTail := tail + Size(Member(t, i), vs[i]);
    SameRoom(was, buf[..], t, vs, i + 1, begin, nextHead, nextTail);
  }

  /** The members of a container, one after another. */
  method WriteContainer(buf: array<Byte>, begin: nat, t: Type, vs: seq<Value>)
    requires t.Container? && HaveTypes(t, vs) && Room(buf[..], t, vs, 0, begin, begin, begin + HeadLength(t, 0, |vs|))
    modifies buf
    ensures buf[..] == old(Rest(buf[..], t, vs, 0, begin, begin, begin + HeadLength(t, 0, |vs|)))
    decreases vs, 1, 0
  {
    hide Rest;
    var fsize := HeadLength(t, 0, |vs|) % TWO_TO_THE_32;
    var head: nat, tail: nat := begin, begin + fsize;
    ghost var goal := Rest(buf[..], t, vs, 0, begin, head, tail);
    for i := 0 to |vs|
      invariant Room(buf[..], t, vs, i, begin, head, tail)
      invariant Rest(buf[..], t, vs, i, begin, head, tail) == goal
    {
      if !IsVariable(Member(t, i)) {
        head := WriteInline(buf, t, vs, i, begin, head, tail);
      } else {
        head, tail := WriteOutline(buf, t, vs, i, begin, head, tail);
      }
    }
    RestNothing(buf[..], t, vs, begin, head, tail);
  }

  /** Elements of variable size: the offset table, then the elements. */
  method WriteVariableList(buf: array<Byte>, result: nat, t: Type, vs: seq<Value>)
    requires (t.Vector? || t.List?) && IsVariable(t.elem)
    requires HaveTypes(t, vs) && Room(buf[..], t, vs, 0, result, result, result + HeadLength(t, 0, |vs|))
    modifies buf
    ensures buf[..] == old(Rest(buf[..], t, vs, 0, result, result, result + HeadLength(t, 0, |vs|)))
    decreases vs, 1, 0
  {
    hide Rest;
    UniformHeads(t, 0, |vs|);
    var data: nat := result + |vs| * OFFSET_BYTES;
    ghost var goal := Rest(buf[..], t, vs, 0, result, result, data);
    for idx := 0 to |vs|
      invariant Room(buf[..], t, vs, idx, result, result + idx * OFFSET_BYTES, data)
      invariant Rest(buf[..], t, vs, idx, result, result + idx * OFFSET_BYTES, data) == goal
    {
      var _, next := WriteOutline(buf, t, vs, idx, result, result + idx * OFFSET_BYTES, data);
      data := next;
    }
    RestNothing(buf[..], t, vs, result, result + |vs| * OFFSET_BYTES, data);
  }

  /** Elements of fixed size, one behind the other. */
  method WriteFixedList(buf: array<Byte>, begin: nat, t: Type, vs: seq<Value>)
    requires (t.Vector? || t.List?) && !IsVariable(t.elem)
    requires HaveTypes(t, vs) && Room(buf[..], t, vs, 0, begin, begin, begin + HeadLength(t, 0, |vs|))
    modifies buf
    ensures buf[..] == old(Rest(buf[..], t, vs, 0, begin, begin, begin + HeadLength(t, 0, |vs|)))
    decreases vs, 1, 0
  {
    hide Rest;
    var result: nat := begin;
    ghost var tail: nat := begin + HeadLength(t, 0, |vs|);
    ghost var goal := Rest(buf[..], t, vs, 0, begin, result, tail);
    for i := 0 to |vs|
      invariant Room(buf[..], t, vs, i, begin, result, tail)
      invariant Rest(buf[..], t, vs, i, begin, result, tail) == goal
    {
      result := WriteInline(buf, t, vs, i, begin, result, tail);
    }
    RestNothing(buf[..], t, vs, begin, result, tail);
  }

  // ---- when the encoding is left ----

  /** A buffer of any contents holds the encoding afterwards exactly when no bit that is to be OR-ed was set in vain. */
  lemma WrittenIff(s: seq<Byte>, at: nat, t: Type, v: Value)
    requires HasType(t, v) && at + |Serialize(t, v)| <= |s|
    ensures Paint(s, at, InkOf(t, v)) == Splice(s, at, Serialize(t, v))
       <==> forall k :: 0 <= k < |Serialize(t, v)| && InkOf(t, v)[k].OrIn? ==> Within(s[at + k], Serialize(t, v)[k])
  {
    hide InkOf, Serialize, Within, Paint, Splice;
    InkBytes(t, v);
    PaintIsSplice(s, at, InkOf(t, v));
  }

  lemma WrittenInZeros(s: seq<Byte>, at: nat, t: Type, v: Value)
    requires HasType(t, v) && at + |Serialize(t, v)| <= |s|
    requires forall k :: at <= k < at + |Serialize(t, v)| ==> s[k] == 0
    ensures Paint(s, at, InkOf(t, v)) == Splice(s, at, Serialize(t, v))
  {
    hide InkOf, Serialize, Within, Paint, Splice;
    forall k | 0 <= k < |Serialize(t, v)|
      ensures Within(s[at + k], Serialize(t, v)[k])
    {
      ZeroIsWithin(Serialize(t, v)[k]);
    }
    WrittenIff(s, at, t, v);
  }

  /** Types whose writers OR bits into the buffer. */
  predicate HasBits(t: Type)
  {
    match t
    case Bitvector(_) => true
    case Bitlist(_) => true
    case Vector(elem, _) => HasBits(elem)
    case List(elem, _) => HasBits(elem)
    case Container(fields) => exists i :: 0 <= i < |fields| && HasBits(fields[i])
    case _ => false
  }

  /** The writers of all other types overwrite: their encoding is left in any buffer. */
  lemma {:induction false} NoBitsNoOr(t: Type, v: Value)
    requires HasType(t, v) && !HasBits(t)
    ensures InkOf(t, v) == Plain(Serialize(t, v))
    decreases v, 1, 0
  {
    hide Heads, Tails, HeadInk, TailInk, HeadLength;
    if Composite(t) {
      assert forall i :: 0 <= i < |v.items| ==> !HasBits(Member(t, i));
      HeadsNoOr(t, v.items, 0, HeadLength(t, 0, |v.items|));
      TailsNoOr(t, v.items, 0);
      PlainSum(Heads(t, v.items, 0, HeadLength(t, 0, |v.items|)), Tails(t, v.items, 0));
    }
  }

  lemma PlainSum(a: seq<Byte>, b: seq<Byte>)
    ensures Plain(a + b) == Plain(a) + Plain(b)
  {}

  lemma {:induction false} HeadsNoOr(t: Type, vs: seq<Value>, i: nat, offset: nat)
    requires HaveTypes(t, vs) && i <= |vs| && forall j :: 0 <= j < |vs| ==> !HasBits(Member(t, j))
    ensures HeadInk(t, vs, i, offset) == Plain(Heads(t, vs, i, offset))
    decreases vs, 0, |vs| - i
  {
    hide Serialize, InkOf, LittleEndian, Plain, Heads, HeadInk;
    if i == |vs| {
      NoHeads(t, vs, offset);
    } else if IsVariable(Member(t, i)) {
      var next := offset + |Serialize(Member(t, i), vs[i])|;
      HeadsVariable(t, vs, i, offset);
      HeadInkVariable(t, vs, i, offset);
      HeadsNoOr(t, vs, i + 1, next);
      PlainSum(LittleEndian(offset, OFFSET_BYTES), Heads(t, vs, i + 1, next));
    } else {
      HeadsFixed(t, vs, i, offset);
      NoBitsNoOr(Member(t, i), vs[i]);
      HeadsNoOr(t, vs, i + 1, offset);
      PlainSum(Serialize(Member(t, i), vs[i]), Heads(t, vs, i + 1, offset));
    }
  }

  lemma {:induction false} TailsNoOr(t: Type, vs: seq<Value>, i: nat)
    requires HaveTypes(t, vs) && i <= |vs| && forall j :: 0 <= j < |vs| ==> !HasBits(Member(t, j))
    ensures TailInk(t, vs, i) == Plain(Tails(t, vs, i))
    decreases vs, 0, |vs| - i
  {
    hide Serialize, InkOf, Plain;
    if i < |vs| {
      TailsNoOr(t, vs, i + 1);
      if IsVariable(Member(t, i)) {
        NoBitsNoOr(Member(t, i), vs[i]);
        PlainSum(Serialize(Member(t, i), vs[i]), Tails(t, vs, i + 1));
      }
    }
  }

  /** The allocating serialize: a zeroed vector of exactly ssz::size bytes. */
  method SerializeToVector(t: Type, v: Value) returns (ret: array<Byte>)
    requires HasType(t, v) && |Serialize(t, v)| < TWO_TO_THE_32
    ensures fresh(ret) && ret[..] == Serialize(t, v)
  {
    hide Serialize, InkOf, Paint, Splice;
    SizeIsLength(t, v);
    ret := new Byte[Size(t, v)](_ => 0);
    SpliceWhole(ret[..], Serialize(t, v));
    WrittenInZeros(ret[..], 0, t, v);
    Write(ret, 0, t, v);
  }
}
