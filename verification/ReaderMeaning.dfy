/**
 What the reader makes of any bytes, said without its cursors: which bytes belong to which element or member, exactly
 when all of them are read, and when the reader throws.
 */
module ReaderMeaning {
  import opened Bytes
  import opened Wrappers
  import opened MathHelpers
  import opened Bits
  import opened Schema
  import opened EncodingLayout
  import opened Reader
  import opened CanonicalBytes

  // ---- basic types ----

  /** Too few bytes throw, and so does a bool that is neither 0 nor 1; otherwise surplus bytes are ignored. */
  lemma BasicRead(t: Type, bs: seq<Byte>, guard: bool)
    requires WellFormed(t) && (t.Uint? || t.Bool?)
    ensures |bs| < FixedSize(t) <==> Read(t, bs, guard) == Err(NotEnoughBytes)
    ensures |bs| >= FixedSize(t) ==> (Read(t, bs, guard).Ok? <==> Canonical(t, bs[..FixedSize(t)]))
    ensures |bs| >= FixedSize(t) && !Canonical(t, bs[..FixedSize(t)]) ==> t.Bool? && Read(t, bs, guard) == Err(NotABool)
    ensures Read(t, bs, guard).Ok? ==> var v := Read(t, bs, guard).value;
      |bs| >= FixedSize(t) && HasType(t, v) && Serialize(t, v) == bs[..FixedSize(t)]
  {
    if t.Uint? && |bs| >= t.width { BytesRoundTrip(bs[..t.width]); }
  }

  // ---- bits ----

  /** A bitvector is read from any bytes: bits without a byte are clear, surplus bits and bytes are ignored. */
  lemma BitvectorRead(n: nat, bs: seq<Byte>, guard: bool)
    requires WellFormed(Bitvector(n))
    ensures var r := Read(Bitvector(n), bs, guard);
      r.Ok? && r.value.BitString? && |r.value.bits| == n && forall k :: 0 <= k < n ==> r.value.bits[k] == BitAt(bs, k)
  {}

  /** A bitlist is read from all non-empty bytes that the guard lets pass, zero last bytes included. */
  lemma BitlistRead(limit: nat, bs: seq<Byte>, guard: bool)
    ensures var r := Read(Bitlist(limit), bs, guard);
      && (guard && 8 * |bs| > limit <==> r == Err(OutOfRange))
      && (r.Ok? <==> bs != [] && !(guard && 8 * |bs| > limit))
      && (r.Ok? ==> r.value.BitString? && |r.value.bits| == 8 * (|bs| - 1) + BelowTop(bs[|bs| - 1])
                    && forall k :: 0 <= k < |r.value.bits| ==> r.value.bits[k] == BitAt(bs, k))
  {}

  // ---- chunks ----

  /** bytes | views::chunk(size): the j-th of them, the last one possibly short. */
  function ChunkOf(bs: seq<Byte>, size: nat, j: nat): seq<Byte>
  {
    bs[Min(j * size, |bs|)..Min(j * size + size, |bs|)]
  }

  lemma NextChunk(bs: seq<Byte>, size: nat, j: nat)
    requires size > 0
    ensures ChunkOf(bs, size, j + 1) == ChunkOf(bs[Min(size, |bs|)..], size, j)
  {
    assert (j + 1) * size == j * size + size;
  }

  lemma FirstChunk(bs: seq<Byte>, size: nat)
    ensures ChunkOf(bs, size, 0) == bs[..Min(size, |bs|)]
  {
    assert 0 * size == 0;
  }

  lemma ChunksLeft(bs: seq<Byte>, size: nat)
    requires bs != [] && size > 0
    ensures CeilDiv(|bs|, size) == CeilDiv(|bs[Min(size, |bs|)..]|, size) + 1
  {
    if |bs| > size {
      DivAddOne(|bs| - size + size - 1, size);
    } else {
      QuotientUnique(|bs| + size - 1, size, 1, |bs| - 1);
      QuotientUnique(size - 1, size, 0, size - 1);
    }
  }

  /** All chunks can be read. */
  ghost predicate ChunksRead(t: Type, n: nat, bs: seq<Byte>, guard: bool)
    requires WellFormed(t) && (t.Vector? || t.List?)
  {
    && CeilDiv(|bs|, Positive(t.elem)) == n
    && forall j {:trigger ChunkOf(bs, FixedSize(t.elem), j)} :: 0 <= j < n ==>
         Read(t.elem, ChunkOf(bs, FixedSize(t.elem), j), guard).Ok?
  }

  /** FixedSize of an element type that has one. */
  function Positive(t: Type): (n: nat)
    ensures n > 0
  {
    Max(1, FixedSize(t))
  }

  lemma {:induction false} ChunksMean(t: Type, i: nat, n: nat, bs: seq<Byte>, guard: bool)
    requires WellFormed(t) && (t.Vector? || t.List?) && !IsVariable(t.elem) && i <= n
    ensures ReadChunks(t, i, n, bs, guard).Ok? <==> ChunksRead(t, n - i, bs, guard)
    ensures ReadChunks(t, i, n, bs, guard).Ok? ==> var vs := ReadChunks(t, i, n, bs, guard).value;
      |vs| == n - i && forall j {:trigger vs[j]} :: 0 <= j < n - i ==>
        Read(t.elem, ChunkOf(bs, FixedSize(t.elem), j), guard) == Ok(vs[j])
    decreases n - i
  {
    hide Read, FixedSize, ChunkOf, CeilDiv;
    var size := FixedSize(t.elem);
    SizeIsPositive(t.elem);
    if bs == [] {
      NoChunks(size);
    } else {
      var rest := bs[Min(size, |bs|)..];
      ChunksLeft(bs, size);
      if i < n {
        FirstChunk(bs, size);
        ChunksMean(t, i + 1, n, rest, guard);
        forall j: nat
          ensures ChunkOf(bs, size, j + 1) == ChunkOf(rest, size, j)
        {
          NextChunk(bs, size, j);
        }
        OneMoreChunk(t, n - i, bs, guard);
      }
    }
  }

  lemma NoChunks(size: nat)
    requires size > 0
    ensures CeilDiv(0, size) == 0
  {
    QuotientUnique(size - 1, size, 0, size - 1);
  }

  lemma OneMoreChunk(t: Type, n: nat, bs: seq<Byte>, guard: bool)
    requires WellFormed(t) && (t.Vector? || t.List?) && !IsVariable(t.elem) && n > 0 && bs != []
    ensures ChunksRead(t, n, bs, guard) <==>
      && Read(t.elem, ChunkOf(bs, FixedSize(t.elem), 0), guard).Ok?
      && ChunksRead(t, n - 1, bs[Min(FixedSize(t.elem), |bs|)..], guard)
  {
    hide Read, FixedSize, ChunkOf, CeilDiv;
    var size := FixedSize(t.elem);
    SizeIsPositive(t.elem);
    ChunksLeft(bs, size);
    var rest := bs[Min(size, |bs|)..];
    forall j: nat
      ensures ChunkOf(bs, size, j + 1) == ChunkOf(rest, size, j)
    {
      NextChunk(bs, size, j);
    }
    if ChunksRead(t, n, bs, guard) {
      forall j | 0 <= j < n - 1
        ensures Read(t.elem, ChunkOf(rest, size, j), guard).Ok?
      {
        assert Read(t.elem, ChunkOf(bs, size, j + 1), guard).Ok?;
      }
    } else if Read(t.elem, ChunkOf(bs, size, 0), guard).Ok? && ChunksRead(t, n - 1, rest, guard) {
      forall j | 0 <= j < n
        ensures Read(t.elem, ChunkOf(bs, size, j), guard).Ok?
      {
        if j > 0 { assert ChunkOf(bs, size, j) == ChunkOf(rest, size, j - 1); }
      }
      assert false;
    }
  }

  lemma WholeChunks(bytes: nat, size: nat)
    requires size > 0 && bytes % size == 0
    ensures CeilDiv(bytes, size) == bytes / size && bytes == bytes / size * size
  {
    var q := bytes / size;
    assert bytes == size * q;
    QuotientUnique(bytes + size - 1, size, q, size - 1);
  }

  /** A list of elements of fixed size: no surplus bytes, and each element from its own chunk. */
  lemma FixedListRead(t: Type, bs: seq<Byte>, guard: bool)
    requires WellFormed(t) && t.List? && !IsVariable(t.elem)
    ensures FixedSize(t.elem) > 0
    ensures |bs| % FixedSize(t.elem) != 0 ==> Read(t, bs, guard) == Err(NotAMultiple)
    ensures Read(t, bs, guard).Ok? <==>
      |bs| % FixedSize(t.elem) == 0 && ChunksRead(t, |bs| / FixedSize(t.elem), bs, guard)
    ensures Read(t, bs, guard).Ok? ==> var v := Read(t, bs, guard).value;
      && v.Items? && |bs| == |v.items| * FixedSize(t.elem)
      && forall j {:trigger v.items[j]} :: 0 <= j < |v.items| ==>
           Read(t.elem, ChunkOf(bs, FixedSize(t.elem), j), guard) == Ok(v.items[j])
  {
    hide ReadChunks, ChunksRead, ChunkOf, FixedSize;
    SizeIsPositive(t.elem);
    var size := FixedSize(t.elem);
    if |bs| % size == 0 {
      WholeChunks(|bs|, size);
      ChunksMean(t, 0, |bs| / size, bs, guard);
    }
  }

  /** A vector of composite elements: as many chunks as elements, the last of which may be short. */
  lemma CompositeVectorRead(t: Type, bs: seq<Byte>, guard: bool)
    requires WellFormed(t) && t.Vector? && !t.elem.Uint?
    ensures Read(t, bs, guard).Ok? <==> ChunksRead(t, t.length, bs, guard)
    ensures Read(t, bs, guard).Ok? ==> var v := Read(t, bs, guard).value;
      && v.Items? && |v.items| == t.length
      && forall j {:trigger v.items[j]} :: 0 <= j < |v.items| ==>
           Read(t.elem, ChunkOf(bs, FixedSize(t.elem), j), guard) == Ok(v.items[j])
  {
    hide ReadChunks, ChunksRead, ChunkOf;
    ChunksMean(t, 0, t.length, bs, guard);
  }

  lemma ChunkInside(bs: seq<Byte>, w: nat, n: nat, j: nat)
    requires j < n && w * n <= |bs|
    ensures |ChunkOf(bs, w, j)| == w && ChunkOf(bs[..w * n], w, j) == ChunkOf(bs, w, j)
  {
    EndsInside(w, n, j);
    CutTwice(bs, w * n, j * w, w);
  }

  lemma TimesSum(w: nat, j: nat, k: nat)
    ensures w * (j + 1 + k) == j * w + w + w * k
  {}

  lemma EndsInside(w: nat, n: nat, j: nat)
    requires j < n
    ensures j * w + w <= w * n
  {
    TimesSum(w, j, n - j - 1);
    assert w * (n - j - 1) >= 0;
  }

  lemma CutTwice(bs: seq<Byte>, m: nat, p: nat, w: nat)
    requires p + w <= m <= |bs|
    ensures bs[..m][Min(p, m)..Min(p + w, m)] == bs[Min(p, |bs|)..Min(p + w, |bs|)]
    ensures |bs[Min(p, |bs|)..Min(p + w, |bs|)]| == w
  {}

  /** A vector of numbers: too few bytes throw, surplus bytes are ignored. */
  lemma NumberVectorRead(t: Type, bs: seq<Byte>, guard: bool)
    requires WellFormed(t) && t.Vector? && t.elem.Uint?
    ensures |bs| < t.elem.width * t.length <==> Read(t, bs, guard) == Err(NotEnoughBytes)
    ensures Read(t, bs, guard).Ok? <==> |bs| >= t.elem.width * t.length
    ensures Read(t, bs, guard).Ok? ==> var v := Read(t, bs, guard).value;
      && v.Items? && |v.items| == t.length
      && forall j {:trigger v.items[j]} :: 0 <= j < |v.items| ==>
           Read(t.elem, ChunkOf(bs, t.elem.width, j), guard) == Ok(v.items[j])
  {
    hide ReadChunks, ChunkOf;
    var w, n := t.elem.width, t.length;
    if |bs| >= w * n {
      assert WellFormed(t.elem) && FixedSize(t.elem) == w;
      forall j | 0 <= j < n
        ensures |ChunkOf(bs, w, j)| == w && ChunkOf(bs[..w * n], w, j) == ChunkOf(bs, w, j)
      {
        ChunkInside(bs, w, n, j);
      }
      assert w * n % w == 0 && w * n / w == n by { QuotientUnique(w * n, w, n, 0); }
      WholeChunks(w * n, w);
      ChunksMean(t, 0, n, bs[..w * n], guard);
    }
  }

  // ---- lists of elements of variable size ----

  /** The i-th entry of the offset table. */
  function Entry(bs: seq<Byte>, i: nat): nat
  {
    if OFFSET_BYTES * i + OFFSET_BYTES <= |bs|
    then FromLittleEndian(bs[OFFSET_BYTES * i..OFFSET_BYTES * i + OFFSET_BYTES])
    else 0
  }

  /** From one offset to another that is not before it and not behind the end. */
  function Between(bs: seq<Byte>, from: nat, to: nat): seq<Byte>
  {
    if InOrder(from, to, bs) then bs[from..to] else []
  }

  /** The bytes of element i of n: up to the next offset, or to the end. */
  function Part(bs: seq<Byte>, i: nat, n: nat): seq<Byte>
  {
    if i + 1 < n then Between(bs, Entry(bs, i), Entry(bs, i + 1)) else Drop(bs, Entry(bs, i))
  }

  /** Element i is not behind its successor, and can be read. */
  ghost predicate PartReads(t: Type, i: nat, n: nat, bs: seq<Byte>, guard: bool)
    requires WellFormed(t) && t.List?
  {
    && (i + 1 < n ==> InOrder(Entry(bs, i), Entry(bs, i + 1), bs))
    && Read(t.elem, Part(bs, i, n), guard).Ok?
  }

  /** The table is there, and so are the elements from i on. */
  ghost predicate PartsRead(t: Type, i: nat, n: nat, bs: seq<Byte>, guard: bool)
    requires WellFormed(t) && t.List?
  {
    OFFSET_BYTES * n <= |bs| && forall j :: i <= j < n ==> PartReads(t, j, n, bs, guard)
  }

  lemma OneMorePart(t: Type, i: nat, n: nat, bs: seq<Byte>, guard: bool)
    requires WellFormed(t) && t.List? && i + 1 < n
    ensures PartsRead(t, i, n, bs, guard) <==> PartReads(t, i, n, bs, guard) && PartsRead(t, i + 1, n, bs, guard)
  {
    hide PartReads;
  }

  lemma {:induction false} PartsMean(t: Type, i: nat, n: nat, bs: seq<Byte>, guard: bool)
    requires WellFormed(t) && t.List? && i < n && OFFSET_BYTES * i + OFFSET_BYTES <= |bs|
    ensures var r := ReadElements(t, i, n, bs, Entry(bs, i), guard);
      && (r.Ok? <==> PartsRead(t, i, n, bs, guard))
      && (r.Ok? ==> |r.value| == n - i
                    && forall j {:trigger r.value[j]} :: 0 <= j < n - i ==>
                         Read(t.elem, Part(bs, i + j, n), guard) == Ok(r.value[j]))
    decreases n - i
  {
    hide Read, FromLittleEndian, PartsRead, InOrder, Entry, ReadElements;
    if i + 1 == n {
      LastPart(t, i, bs, guard);
    } else if OFFSET_BYTES * (i + 1) + OFFSET_BYTES > |bs| {
      NoTable(t, i, n, bs, guard);
    } else {
      OneMorePart(t, i, n, bs, guard);
      PartsMean(t, i + 1, n, bs, guard);
      ElementThenRest(t, i, n, bs, guard);
    }
  }

  lemma LastPart(t: Type, i: nat, bs: seq<Byte>, guard: bool)
    requires WellFormed(t) && t.List? && OFFSET_BYTES * i + OFFSET_BYTES <= |bs|
    ensures var r := ReadElements(t, i, i + 1, bs, Entry(bs, i), guard);
      && (r.Ok? <==> PartsRead(t, i, i + 1, bs, guard))
      && (r.Ok? ==> |r.value| == 1 && Read(t.elem, Part(bs, i, i + 1), guard) == Ok(r.value[0]))
  {
    hide Read, Entry;
    assert Part(bs, i, i + 1) == Drop(bs, Entry(bs, i));
    assert PartsRead(t, i, i + 1, bs, guard) <==> PartReads(t, i, i + 1, bs, guard);
  }

  lemma NoTable(t: Type, i: nat, n: nat, bs: seq<Byte>, guard: bool)
    requires WellFormed(t) && t.List? && i + 1 < n && OFFSET_BYTES * (i + 1) + OFFSET_BYTES > |bs|
    ensures !PartsRead(t, i, n, bs, guard) && ReadElements(t, i, n, bs, Entry(bs, i), guard).Err?
  {
    hide Read, Entry;
    assert OFFSET_BYTES * n >= OFFSET_BYTES * (i + 1) + OFFSET_BYTES;
  }

  /** The first element in front of what the rest gives. */
  lemma ElementThenRest(t: Type, i: nat, n: nat, bs: seq<Byte>, guard: bool)
    requires WellFormed(t) && t.List? && i + 1 < n && OFFSET_BYTES * (i + 1) + OFFSET_BYTES <= |bs|
    ensures var r := ReadElements(t, i, n, bs, Entry(bs, i), guard);
      var first, rest := Read(t.elem, Part(bs, i, n), guard), ReadElements(t, i + 1, n, bs, Entry(bs, i + 1), guard);
      && (r.Ok? <==> InOrder(Entry(bs, i), Entry(bs, i + 1), bs) && first.Ok? && rest.Ok?)
      && (r.Ok? ==> r.value == [first.value] + rest.value)
  {
    hide Read, FromLittleEndian;
  }

  /**
   A list of elements of variable size: empty bytes are an empty list. Otherwise a quarter of the first offset is the
   number of elements, and each is read from its own offset up to the next one, the last one up to the end.
   */
  lemma VariableListRead(t: Type, bs: seq<Byte>, guard: bool)
    requires WellFormed(t) && t.List? && IsVariable(t.elem)
    ensures var n := Entry(bs, 0) / OFFSET_BYTES;
      Read(t, bs, guard).Ok? <==> bs == [] || (n > 0 && PartsRead(t, 0, n, bs, guard))
    ensures Read(t, bs, guard).Ok? ==> var v, n := Read(t, bs, guard).value, Entry(bs, 0) / OFFSET_BYTES;
      && v.Items? && |v.items| == (if bs == [] then 0 else n)
      && forall j {:trigger v.items[j]} :: 0 <= j < |v.items| ==>
           Read(t.elem, Part(bs, j, n), guard) == Ok(v.items[j])
  {
    hide ReadElements, PartsRead, FromLittleEndian, Part;
    if |bs| >= OFFSET_BYTES {
      var n := Entry(bs, 0) / OFFSET_BYTES;
      assert bs[OFFSET_BYTES * 0..OFFSET_BYTES * 0 + OFFSET_BYTES] == bs[..OFFSET_BYTES];
      if n > 0 { PartsMean(t, 0, n, bs, guard); }
    }
  }

  // ---- containers ----

  /** Where the head of field i starts, or the end of the bytes. */
  function Position(t: Type, i: nat, bs: seq<Byte>): nat
    requires t.Container? && i <= |t.fields|
  {
    Min(HeadLength(t, 0, i), |bs|)
  }

  function HeadBytes(t: Type, i: nat, bs: seq<Byte>): seq<Byte>
    requires t.Container? && i < |t.fields|
  {
    HeadsMoveOn(t, i);
    bs[Position(t, i, bs)..Position(t, i + 1, bs)]
  }

  lemma {:induction false} HeadsMoveOn(t: Type, i: nat)
    requires t.Container? && i < |t.fields|
    ensures HeadLength(t, 0, i + 1) == HeadLength(t, 0, i) + HeadSize(t.fields[i])
  {
    HeadLengthSnoc(t, 0, i);
  }

  lemma {:induction false} HeadLengthSnoc(t: Type, k: nat, i: nat)
    requires t.Container? && k <= i < |t.fields|
    ensures HeadLength(t, k, i + 1) == HeadLength(t, k, i) + HeadSize(t.fields[i])
    decreases i - k
  {
    hide HeadSize;
    if k < i { HeadLengthSnoc(t, k + 1, i); }
  }

  /** The offset that stands for field i. */
  function OffsetOf(t: Type, i: nat, bs: seq<Byte>): nat
    requires t.Container? && i < |t.fields|
  {
    FromLittleEndian(HeadBytes(t, i, bs))
  }

  /** The first field of variable size from i on, or the number of fields. */
  function NextVariable(t: Type, i: nat): (j: nat)
    requires t.Container? && i <= |t.fields|
    ensures i <= j <= |t.fields| && (j < |t.fields| ==> IsVariable(t.fields[j]))
    decreases |t.fields| - i
  {
    if i == |t.fields| || IsVariable(t.fields[i]) then i else NextVariable(t, i + 1)
  }

  /** The bytes of field i: its head, or from its offset up to that of the next field of variable size or to the end. */
  function FieldBytes(t: Type, i: nat, bs: seq<Byte>): seq<Byte>
    requires t.Container? && i < |t.fields|
  {
    if !IsVariable(t.fields[i]) then HeadBytes(t, i, bs)
    else if NextVariable(t, i + 1) < |t.fields|
    then Between(bs, OffsetOf(t, i, bs), OffsetOf(t, NextVariable(t, i + 1), bs))
    else Drop(bs, OffsetOf(t, i, bs))
  }

  /** The head of field i can be read: the field itself, or its whole offset. */
  ghost predicate HeadReads(t: Type, i: nat, bs: seq<Byte>, guard: bool)
    requires WellFormed(t) && t.Container? && i < |t.fields|
  {
    if IsVariable(t.fields[i]) then HeadLength(t, 0, i + 1) <= |bs|
    else Read(t.fields[i], HeadBytes(t, i, bs), guard).Ok?
  }

  /** The tail of field i does not start behind the next tail, or behind the end if there is a next one. */
  predicate TailInOrder(t: Type, i: nat, bs: seq<Byte>)
    requires t.Container? && i < |t.fields|
  {
    hide HeadBytes, IsVariable;
    var j := NextVariable(t, i + 1);
    j < |t.fields| ==> InOrder(OffsetOf(t, i, bs), OffsetOf(t, j, bs), bs)
  }

  /** Its tail, if it has one, can be read. */
  ghost predicate TailReads(t: Type, i: nat, bs: seq<Byte>, guard: bool)
    requires WellFormed(t) && t.Container? && i < |t.fields|
  {
    IsVariable(t.fields[i]) ==> TailInOrder(t, i, bs) && Read(t.fields[i], FieldBytes(t, i, bs), guard).Ok?
  }

  ghost predicate HeadsRead(t: Type, i: nat, bs: seq<Byte>, guard: bool)
    requires WellFormed(t) && t.Container? && i <= |t.fields|
  {
    forall k :: i <= k < |t.fields| ==> HeadReads(t, k, bs, guard)
  }

  ghost predicate TailsRead(t: Type, i: nat, bs: seq<Byte>, guard: bool)
    requires WellFormed(t) && t.Container? && i <= |t.fields|
  {
    forall k :: i <= k < |t.fields| ==> TailReads(t, k, bs, guard)
  }

  /** What the first pass gives: values for the fields of fixed size, and the offsets of the others in order. */
  function SlotOf(t: Type, i: nat, bs: seq<Byte>, guard: bool): Option<Value>
    requires WellFormed(t) && t.Container? && i < |t.fields|
  {
    if IsVariable(t.fields[i]) || Read(t.fields[i], HeadBytes(t, i, bs), guard).Err? then None
    else Some(Read(t.fields[i], HeadBytes(t, i, bs), guard).value)
  }

  function SlotsFrom(t: Type, i: nat, bs: seq<Byte>, guard: bool): seq<Option<Value>>
    requires WellFormed(t) && t.Container? && i <= |t.fields|
    decreases |t.fields| - i
  {
    if i == |t.fields| then [] else [SlotOf(t, i, bs, guard)] + SlotsFrom(t, i + 1, bs, guard)
  }

  function OffsetsFrom(t: Type, i: nat, bs: seq<Byte>): seq<nat>
    requires t.Container? && i <= |t.fields|
    decreases |t.fields| - i
  {
    if i == |t.fields| then [] else
      (if IsVariable(t.fields[i]) then [OffsetOf(t, i, bs)] else []) + OffsetsFrom(t, i + 1, bs)
  }

  lemma {:induction false} HeadsMean(t: Type, i: nat, bs: seq<Byte>, guard: bool)
    requires WellFormed(t) && t.Container? && i <= |t.fields|
    ensures var r := ReadHeads(t, i, bs[Position(t, i, bs)..], guard);
      && (r.Ok? <==> HeadsRead(t, i, bs, guard))
      && (r.Ok? ==> r.value == (SlotsFrom(t, i, bs, guard), OffsetsFrom(t, i, bs)))
    decreases |t.fields| - i
  {
    hide Read, FromLittleEndian, ReadHeads, HeadReads, HeadBytes;
    if i == |t.fields| {
      NoHeads(t, bs[Position(t, i, bs)..], guard);
    } else {
      HeadsMean(t, i + 1, bs, guard);
      HeadThenRest(t, i, bs, guard);
      assert HeadsRead(t, i, bs, guard) <==> HeadReads(t, i, bs, guard) && HeadsRead(t, i + 1, bs, guard);
    }
  }

  lemma NoHeads(t: Type, rest: seq<Byte>, guard: bool)
    requires WellFormed(t) && t.Container?
    ensures ReadHeads(t, |t.fields|, rest, guard) == Ok(([], []))
  {}

  lemma HeadThenRest(t: Type, i: nat, bs: seq<Byte>, guard: bool)
    requires WellFormed(t) && t.Container? && i < |t.fields|
    ensures var r := ReadHeads(t, i, bs[Position(t, i, bs)..], guard);
      var rest := ReadHeads(t, i + 1, bs[Position(t, i + 1, bs)..], guard);
      && (r.Ok? <==> HeadReads(t, i, bs, guard) && rest.Ok?)
      && (r.Ok? ==> r.value == ([SlotOf(t, i, bs, guard)] + rest.value.0,
                                (if IsVariable(t.fields[i]) then [OffsetOf(t, i, bs)] else []) + rest.value.1))
  {
    hide Read, FromLittleEndian, HeadLength, FixedSize;
    HeadsMoveOn(t, i);
    CutHead(bs, HeadLength(t, 0, i), HeadSize(t.fields[i]));
    var now, rest := bs[Position(t, i, bs)..], bs[Position(t, i + 1, bs)..];
    var size := Min(HeadSize(t.fields[i]), |now|);
    assert now[..size] == HeadBytes(t, i, bs) && now[size..] == rest;
    if IsVariable(t.fields[i]) {
      assert |now| >= OFFSET_BYTES <==> HeadLength(t, 0, i + 1) <= |bs|;
    } else {
      assert forall offsets: seq<nat> :: [] + offsets == offsets;
    }
  }

  lemma CutHead(bs: seq<Byte>, p: nat, size: nat)
    ensures var rest := bs[Min(p, |bs|)..];
      && rest[..Min(size, |rest|)] == bs[Min(p, |bs|)..Min(p + size, |bs|)]
      && rest[Min(size, |rest|)..] == bs[Min(p + size, |bs|)..]
  {}

  /** The offset after the i-th field's, if it has one, comes first among those that follow. */
  lemma {:induction false} FirstFollows(t: Type, i: nat, bs: seq<Byte>)
    requires t.Container? && i <= |t.fields|
    ensures var j, os := NextVariable(t, i), OffsetsFrom(t, i, bs);
      if j == |t.fields| then os == [] else os != [] && os[0] == OffsetOf(t, j, bs)
    decreases |t.fields| - i
  {
    hide OffsetOf;
    if i < |t.fields| && !IsVariable(t.fields[i]) { FirstFollows(t, i + 1, bs); }
  }

  /** So the slice that the second pass takes is that of the field. */
  lemma SliceIsField(t: Type, i: nat, bs: seq<Byte>)
    requires t.Container? && i < |t.fields| && IsVariable(t.fields[i])
    ensures var os, j := OffsetsFrom(t, i, bs), NextVariable(t, i + 1);
      && os != [] && os[1..] == OffsetsFrom(t, i + 1, bs)
      && (Slice(bs, os).Ok? <==> (j < |t.fields| ==> InOrder(OffsetOf(t, i, bs), OffsetOf(t, j, bs), bs)))
      && (Slice(bs, os).Ok? ==> Slice(bs, os).value == FieldBytes(t, i, bs))
  {
    hide OffsetOf, NextVariable;
    FirstFollows(t, i + 1, bs);
    assert OffsetsFrom(t, i, bs) == [OffsetOf(t, i, bs)] + OffsetsFrom(t, i + 1, bs);
  }

  /** What comes out as field i. */
  ghost predicate FieldIs(t: Type, i: nat, bs: seq<Byte>, guard: bool, v: Value)
    requires WellFormed(t) && t.Container? && i < |t.fields|
  {
    Read(t.fields[i], FieldBytes(t, i, bs), guard) == Ok(v)
  }

  lemma {:induction false} TailsMean(t: Type, i: nat, bs: seq<Byte>, guard: bool)
    requires WellFormed(t) && t.Container? && i <= |t.fields| && HeadsRead(t, i, bs, guard)
    ensures var r := ReadTails(t, i, SlotsFrom(t, i, bs, guard), bs, OffsetsFrom(t, i, bs), guard);
      && (r.Ok? <==> TailsRead(t, i, bs, guard))
      && (r.Ok? ==> |r.value| == |t.fields| - i
                    && forall j {:trigger r.value[j]} :: 0 <= j < |r.value| ==>
                         FieldIs(t, i + j, bs, guard, r.value[j]))
    decreases |t.fields| - i
  {
    hide Read, ReadTails, HeadReads, TailReads, FieldIs, SlotOf, OffsetOf;
    if i == |t.fields| {
      NoTailsToRead(t, bs, guard);
    } else {
      TailsMean(t, i + 1, bs, guard);
      assert HeadReads(t, i, bs, guard);
      FieldThenRest(t, i, bs, guard);
      assert TailsRead(t, i, bs, guard) <==> TailReads(t, i, bs, guard) && TailsRead(t, i + 1, bs, guard);
    }
  }

  lemma NoTailsToRead(t: Type, bs: seq<Byte>, guard: bool)
    requires WellFormed(t) && t.Container?
    ensures ReadTails(t, |t.fields|, [], bs, [], guard) == Ok([])
  {}

  lemma FieldThenRest(t: Type, i: nat, bs: seq<Byte>, guard: bool)
    requires WellFormed(t) && t.Container? && i < |t.fields| && HeadReads(t, i, bs, guard)
    ensures var r := ReadTails(t, i, SlotsFrom(t, i, bs, guard), bs, OffsetsFrom(t, i, bs), guard);
      var rest := ReadTails(t, i + 1, SlotsFrom(t, i + 1, bs, guard), bs, OffsetsFrom(t, i + 1, bs), guard);
      && (r.Ok? <==> TailReads(t, i, bs, guard) && rest.Ok?)
      && (r.Ok? ==> |r.value| == |rest.value| + 1 && r.value[1..] == rest.value && FieldIs(t, i, bs, guard, r.value[0]))
  {
    hide Read, OffsetOf, HeadBytes, Slice;
    var slots := SlotsFrom(t, i, bs, guard);
    assert slots[0] == SlotOf(t, i, bs, guard) && slots[1..] == SlotsFrom(t, i + 1, bs, guard);
    if IsVariable(t.fields[i]) {
      SliceIsField(t, i, bs);
    } else {
      assert OffsetsFrom(t, i, bs) == OffsetsFrom(t, i + 1, bs);
    }
  }

  /**
   A container: fields of fixed size are read where their heads are, the others from their offset up to the next one,
   the last one up to the end. All of them are read or none.
   */
  lemma ContainerRead(t: Type, bs: seq<Byte>, guard: bool)
    requires WellFormed(t) && t.Container?
    ensures Read(t, bs, guard).Ok? <==>
      forall k :: 0 <= k < |t.fields| ==> HeadReads(t, k, bs, guard) && TailReads(t, k, bs, guard)
    ensures Read(t, bs, guard).Ok? ==> var v := Read(t, bs, guard).value;
      && v.Items? && |v.items| == |t.fields|
      && forall k :: 0 <= k < |t.fields| ==> FieldIs(t, k, bs, guard, v.items[k])
  {
    hide ReadHeads, ReadTails, HeadReads, TailReads, FieldIs, SlotsFrom, OffsetsFrom;
    assert bs[Position(t, 0, bs)..] == bs;
    HeadsMean(t, 0, bs, guard);
    if HeadsRead(t, 0, bs, guard) {
      TailsMean(t, 0, bs, guard);
      assert TailsRead(t, 0, bs, guard) <==> forall k :: 0 <= k < |t.fields| ==> TailReads(t, k, bs, guard);
    } else {
      var k :| 0 <= k < |t.fields| && !HeadReads(t, k, bs, guard);
    }
  }
}
