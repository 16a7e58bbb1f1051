/**
 ssz::deserialize of lib/basic_types.hpp, lib/lists.hpp and lib/container.hpp. `Read` is what bytes come out as;
 the methods below it do the reading with the cursors of the source.
 */
module Reader {
  import opened Bytes
  import opened MathHelpers
  import opened Bits
  import opened Schema
  import opened Wrappers

  /**
   The exceptions of the source, and `Unspecified` for bytes on which it neither throws nor determines the value:
   it would read or write outside its range, or leave members as they were.
   */
  datatype Error = NotEnoughBytes | NotAMultiple | NotABool | OutOfRange | Unspecified

  type Reading<T> = Result<T, Error>

  /** bytes | views::drop(n) */
  function Drop(bs: seq<Byte>, n: nat): seq<Byte>
  {
    bs[Min(n, |bs|)..]
  }

  predicate InOrder(from: nat, to: nat, bs: seq<Byte>)
  {
    from <= to <= |bs|
  }

  lemma {:induction false} SizeIsPositive(t: Type)
    requires WellFormed(t) && !IsVariable(t)
    ensures FixedSize(t) > 0
    decreases t
  {
    match t
    case Vector(elem, n) =>
      SizeIsPositive(elem);
      assert HeadLength(t, 0, n) == HeadSize(Member(t, 0)) + HeadLength(t, 1, n);
    case Container(fields) =>
      SizeIsPositive(fields[0]);
      assert HeadLength(t, 0, |fields|) == HeadSize(Member(t, 0)) + HeadLength(t, 1, |fields|);
    case _ =>
  }

  /** What `bs` reads as. The source always has the `guard` of bitlists, 8 * bytes <= limit, in force. */
  function Read(t: Type, bs: seq<Byte>, guard: bool): Reading<Value>
    requires WellFormed(t)
    decreases t, 2, 0
  {
    match t
    case Uint(w) => if |bs| < w then Err(NotEnoughBytes) else Ok(Number(FromLittleEndian(bs[..w])))
    case Bool =>
      if |bs| == 0 then Err(NotEnoughBytes)
      else if bs[0] == 0 then Ok(Flag(false))
      else if bs[0] == 1 then Ok(Flag(true))
      else Err(NotABool)
    case Bitvector(n) => Ok(BitString(UnpackBits(bs, n)))
    case Bitlist(limit) =>
      if guard && 8 * |bs| > limit then Err(OutOfRange)
      else if bs == [] then Err(Unspecified)
      else Ok(BitString(BitlistOf(bs)))
    case Vector(elem, n) =>
      if elem.Uint? && |bs| < elem.width * n then Err(NotEnoughBytes) else
        var used := if elem.Uint? then bs[..elem.width * n] else bs;
        var items :- ReadChunks(t, 0, n, used, guard);
        Ok(Items(items))
    case List(elem, _) =>
      if IsVariable(elem) then
        var items :- ReadList(t, bs, guard);
        Ok(Items(items))
      else
        SizeIsPositive(elem);
        if |bs| % FixedSize(elem) != 0 then Err(NotAMultiple) else
          var items :- ReadChunks(t, 0, |bs| / FixedSize(elem), bs, guard);
          Ok(Items(items))
    case Container(fields) =>
      var items :- ReadMembers(t, bs, guard);
      Ok(Items(items))
  }

  /** deserialize_container */
  function ReadMembers(t: Type, bs: seq<Byte>, guard: bool): Reading<seq<Value>>
    requires WellFormed(t) && t.Container?
    decreases t, 1, 0
  {
    var heads :- ReadHeads(t, 0, bs, guard);
    ReadTails(t, 0, heads.0, bs, heads.1, guard)
  }

  /** Elements i to n - 1 from consecutive chunks; the room for elements and the chunks must run out together. */
  function ReadChunks(t: Type, i: nat, n: nat, bs: seq<Byte>, guard: bool): Reading<seq<Value>>
    requires WellFormed(t) && (t.Vector? || t.List?) && i <= n
    decreases t, 0, n - i
  {
    if bs == [] then (if i == n then Ok([]) else Err(Unspecified))
    else if i == n then Err(Unspecified)
    else
      var size := Min(FixedSize(t.elem), |bs|);
      var v :- Read(t.elem, bs[..size], guard);
      var rest :- ReadChunks(t, i + 1, n, bs[size..], guard);
      Ok([v] + rest)
  }

  /** The first offset tells how many elements of variable size there are. */
  function ReadList(t: Type, bs: seq<Byte>, guard: bool): Reading<seq<Value>>
    requires WellFormed(t) && t.List?
    decreases t, 1, 0
  {
    if bs == [] then Ok([])
    else if |bs| < OFFSET_BYTES then Err(Unspecified)
    else
      var offset := FromLittleEndian(bs[..OFFSET_BYTES]);
      if offset / OFFSET_BYTES == 0 then Err(Unspecified)
      else ReadElements(t, 0, offset / OFFSET_BYTES, bs, offset, guard)
  }

  /** Elements i to n - 1, the i-th one starting at `offset`; the next offset is the (i+1)-th entry of the table. */
  function ReadElements(t: Type, i: nat, n: nat, bs: seq<Byte>, offset: nat, guard: bool): Reading<seq<Value>>
    requires WellFormed(t) && t.List? && i < n
    decreases t, 0, n - i
  {
    if i + 1 == n then
      var v :- Read(t.elem, Drop(bs, offset), guard);
      Ok([v])
    else
      var idx := OFFSET_BYTES * (i + 1);
      if |bs| < idx + OFFSET_BYTES then Err(Unspecified) else
        var next := FromLittleEndian(bs[idx..idx + OFFSET_BYTES]);
        if !InOrder(offset, next, bs) then Err(Unspecified) else
          var v :- Read(t.elem, bs[offset..next], guard);
          var rest :- ReadElements(t, i + 1, n, bs, next, guard);
          Ok([v] + rest)
  }

  /** deserialize_fixed_size_members: the members of fixed size from i on, and the offsets of the others. */
  function ReadHeads(t: Type, i: nat, bs: seq<Byte>, guard: bool): Reading<(seq<Option<Value>>, seq<nat>)>
    requires WellFormed(t) && t.Container? && i <= |t.fields|
    decreases t, 0, |t.fields| - i
  {
    if i == |t.fields| then Ok(([], []))
    else if !IsVariable(t.fields[i]) then
      var size := Min(FixedSize(t.fields[i]), |bs|);
      var v :- Read(t.fields[i], bs[..size], guard);
      var rest :- ReadHeads(t, i + 1, bs[size..], guard);
      Ok(([Some(v)] + rest.0, rest.1))
    else if |bs| < OFFSET_BYTES then Err(Unspecified)
    else
      var rest :- ReadHeads(t, i + 1, bs[OFFSET_BYTES..], guard);
      Ok(([None] + rest.0, [FromLittleEndian(bs[..OFFSET_BYTES])] + rest.1))
  }

  /** The bytes of the member whose offset comes first: up to the next offset, or to the end. */
  function Slice(bs: seq<Byte>, offsets: seq<nat>): Reading<seq<Byte>>
  {
    if |offsets| == 0 then Err(Unspecified)
    else if |offsets| == 1 then Ok(Drop(bs, offsets[0]))
    else if InOrder(offsets[0], offsets[1], bs) then Ok(bs[offsets[0]..offsets[1]])
    else Err(Unspecified)
  }

  /** deserialize_variable_size_members: fill in what the first pass left open. */
  function ReadTails(t: Type, i: nat, slots: seq<Option<Value>>, bs: seq<Byte>, offsets: seq<nat>, guard: bool)
    : Reading<seq<Value>>
    requires WellFormed(t) && t.Container? && i <= |t.fields|
    decreases t, 0, |t.fields| - i
  {
    if i == |t.fields| || slots == [] then Ok([])
    else if slots[0].Some? then
      var rest :- ReadTails(t, i + 1, slots[1..], bs, offsets, guard);
      Ok([slots[0].value] + rest)
    else
      var part :- Slice(bs, offsets);
      var v :- Read(t.fields[i], part, guard);
      var rest :- ReadTails(t, i + 1, slots[1..], bs, offsets[1..], guard);
      Ok([v] + rest)
  }

  // ---- reading with cursors ----

  /** `done`, followed by whatever the rest of the reading gives. */
  ghost function Prepend<T>(done: seq<T>, rest: Reading<seq<T>>): Reading<seq<T>>
  {
    if rest.Ok? then Ok(done + rest.value) else rest
  }

  lemma PrependOne<T>(done: seq<T>, x: T, rest: Reading<seq<T>>)
    ensures Prepend(done, Prepend([x], rest)) == Prepend(done + [x], rest)
  {
    if rest.Ok? {
      assert done + ([x] + rest.value) == done + [x] + rest.value;
    }
  }

  lemma PrependNone<T>(done: seq<T>)
    ensures Prepend(done, Ok([])) == Ok(done)
  {
    assert done + [] == done;
  }

  lemma PrependToNone<T>(rest: Reading<seq<T>>)
    ensures Prepend([], rest) == rest
  {
    if rest.Ok? { assert [] + rest.value == rest.value; }
  }

  method Deserialize(t: Type, bs: seq<Byte>) returns (r: Reading<Value>)
    requires WellFormed(t)
    ensures r == Read(t, bs, true)
    decreases t, 2, 0
  {
    match t
    case Uint(w) =>
      if |bs| < w { return Err(NotEnoughBytes); }
      return Ok(Number(FromLittleEndian(bs[..w])));
    case Bool =>
      if |bs| == 0 { return Err(NotEnoughBytes); }
      if bs[0] == 0 { return Ok(Flag(false)); }
      if bs[0] == 1 { return Ok(Flag(true)); }
      return Err(NotABool);
    case Bitvector(n) =>
      var bits := ReadBitset(bs, n);
      return Ok(BitString(bits));
    case Bitlist(limit) =>
      if |bs| * 8 > limit { return Err(OutOfRange); }
      if bs == [] { return Err(Unspecified); }
      var bits := ReadBitlist(bs);
      return Ok(BitString(bits));
    case Vector(elem, n) =>
      var used := bs;
      if elem.Uint? {
        if |bs| < elem.width * n { return Err(NotEnoughBytes); }
        used := bs[..elem.width * n];
      }
      var items := DeserializeChunked(t, n, used);
      return if items.Ok? then Ok(Items(items.value)) else Err(items.error);
    case List(elem, _) =>
      var items;
      if IsVariable(elem) {
        items := DeserializeList(t, bs);
      } else {
        SizeIsPositive(elem);
        if |bs| % FixedSize(elem) != 0 { return Err(NotAMultiple); }
        items := DeserializeChunked(t, |bs| / FixedSize(elem), bs);
      }
      return if items.Ok? then Ok(Items(items.value)) else Err(items.error);
    case Container(_) =>
      var items := DeserializeContainer(t, bs);
      return if items.Ok? then Ok(Items(items.value)) else Err(items.error);
  }

  method DeserializeChunked(t: Type, n: nat, bs: seq<Byte>) returns (r: Reading<seq<Value>>)
    requires WellFormed(t) && (t.Vector? || t.List?)
    ensures r == ReadChunks(t, 0, n, bs, true)
    decreases t, 1, 0
  {
    hide Read, Prepend;
    var items, rest, i := [], bs, 0;
    PrependToNone(ReadChunks(t, 0, n, bs, true));
    while rest != []
      invariant 0 <= i <= n
      invariant Prepend(items, ReadChunks(t, i, n, rest, true)) == ReadChunks(t, 0, n, bs, true)
      decreases n - i
    {
      ghost var now := ReadChunks(t, i, n, rest, true);
      FailedPrepend(items, now);
      if i == n { return Err(Unspecified); }
      var size := Min(FixedSize(t.elem), |rest|);
      var v := Deserialize(t.elem, rest[..size]);
      if v.Err? { return Err(v.error); }
      rest := rest[size..];
      PrependedTo(v.value, ReadChunks(t, i + 1, n, rest, true));
      PrependOne(items, v.value, ReadChunks(t, i + 1, n, rest, true));
      items := items + [v.value];
      i := i + 1;
    }
    PrependNone(items);
    FailedPrepend(items, ReadChunks(t, i, n, rest, true));
    return if i == n then Ok(items) else Err(Unspecified);
  }

  lemma FailedPrepend<T>(done: seq<T>, rest: Reading<seq<T>>)
    ensures rest.Err? ==> Prepend(done, rest) == Err(rest.error)
  {}

  lemma PrependedTo<T>(x: T, rest: Reading<seq<T>>)
    ensures Prepend([x], rest) == if rest.Err? then Err(rest.error) else Ok([x] + rest.value)
  {}

  method DeserializeList(t: Type, bs: seq<Byte>) returns (r: Reading<seq<Value>>)
    requires WellFormed(t) && t.List?
    ensures r == ReadList(t, bs, true)
    decreases t, 1, 0
  {
    hide Read, Prepend, FromLittleEndian;
    if bs == [] { return Ok([]); }
    if |bs| < OFFSET_BYTES { return Err(Unspecified); }
    var offset: nat := FromLittleEndian(bs[..OFFSET_BYTES]);
    var n := offset / OFFSET_BYTES;
    if n == 0 { return Err(Unspecified); }
    var items, idx: nat, i: nat := [], OFFSET_BYTES, 0;
    PrependToNone(ReadElements(t, 0, n, bs, offset, true));
    while i + 1 < n
      invariant 0 <= i < n && idx == OFFSET_BYTES * (i + 1)
      invariant Prepend(items, ReadElements(t, i, n, bs, offset, true)) == ReadList(t, bs, true)
      decreases n - i
    {
      ghost var now := ReadElements(t, i, n, bs, offset, true);
      FailedPrepend(items, now);
      if |bs| < idx + OFFSET_BYTES { return Err(Unspecified); }
      var next := FromLittleEndian(bs[idx..idx + OFFSET_BYTES]);
      if !InOrder(offset, next, bs) { return Err(Unspecified); }
      var v := Deserialize(t.elem, bs[offset..next]);
      if v.Err? { return Err(v.error); }
      PrependedTo(v.value, ReadElements(t, i + 1, n, bs, next, true));
      PrependOne(items, v.value, ReadElements(t, i + 1, n, bs, next, true));
      items := items + [v.value];
      offset := next;
      idx := idx + OFFSET_BYTES;
      i := i + 1;
    }
    var last := Deserialize(t.elem, Drop(bs, offset));
    FailedPrepend(items, ReadElements(t, i, n, bs, offset, true));
    if last.Err? { return Err(last.error); }
    PrependedTo(last.value, Ok([]));
    assert [last.value] + [] == [last.value];
    PrependOne(items, last.value, Ok([]));
    PrependNone(items + [last.value]);
    return Ok(items + [last.value]);
  }

  ghost function PrependHeads(done: (seq<Option<Value>>, seq<nat>), rest: Reading<(seq<Option<Value>>, seq<nat>)>)
    : Reading<(seq<Option<Value>>, seq<nat>)>
  {
    if rest.Ok? then Ok((done.0 + rest.value.0, done.1 + rest.value.1)) else rest
  }

  lemma PrependNoHeads(rest: Reading<(seq<Option<Value>>, seq<nat>)>)
    ensures PrependHeads(([], []), rest) == rest
  {
    if rest.Ok? { assert [] + rest.value.0 == rest.value.0 && [] + rest.value.1 == rest.value.1; }
  }

  lemma PrependHead(done: (seq<Option<Value>>, seq<nat>), head: Option<Value>, offset: seq<nat>,
                    rest: Reading<(seq<Option<Value>>, seq<nat>)>)
    ensures PrependHeads(done, PrependHeads(([head], offset), rest))
         == PrependHeads((done.0 + [head], done.1 + offset), rest)
  {
    if rest.Ok? {
      assert done.0 + ([head] + rest.value.0) == done.0 + [head] + rest.value.0;
      assert done.1 + (offset + rest.value.1) == done.1 + offset + rest.value.1;
    }
  }

  method DeserializeHeads(t: Type, bs: seq<Byte>) returns (r: Reading<(seq<Option<Value>>, seq<nat>)>)
    requires WellFormed(t) && t.Container?
    ensures r == ReadHeads(t, 0, bs, true)
    decreases t, 0, 0
  {
    hide Read, FromLittleEndian;
    var slots: seq<Option<Value>>, offsets: seq<nat>, shifted := [], [], bs;
    PrependNoHeads(ReadHeads(t, 0, bs, true));
    for i := 0 to |t.fields|
      invariant PrependHeads((slots, offsets), ReadHeads(t, i, shifted, true)) == ReadHeads(t, 0, bs, true)
    {
      if !IsVariable(t.fields[i]) {
        var size := Min(FixedSize(t.fields[i]), |shifted|);
        var v := Deserialize(t.fields[i], shifted[..size]);
        if v.Err? { return Err(v.error); }
        PrependHead((slots, offsets), Some(v.value), [], ReadHeads(t, i + 1, shifted[size..], true));
        slots := slots + [Some(v.value)];
        assert offsets + [] == offsets;
        shifted := shifted[size..];
      } else {
        if |shifted| < OFFSET_BYTES { return Err(Unspecified); }
        var offset := FromLittleEndian(shifted[..OFFSET_BYTES]);
        PrependHead((slots, offsets), None, [offset], ReadHeads(t, i + 1, shifted[OFFSET_BYTES..], true));
        slots := slots + [None];
        offsets := offsets + [offset];
        shifted := shifted[OFFSET_BYTES..];
      }
    }
    assert slots + [] == slots && offsets + [] == offsets;
    return Ok((slots, offsets));
  }

  function Open(slots: seq<Option<Value>>): nat
  {
    if slots == [] then 0 else (if slots[0].None? then 1 else 0) + Open(slots[1..])
  }

  /** The first pass leaves open exactly as many members as it found offsets. */
  lemma {:induction false} OneOffsetEach(t: Type, i: nat, bs: seq<Byte>)
    requires WellFormed(t) && t.Container? && i <= |t.fields|
    requires ReadHeads(t, i, bs, true).Ok?
    ensures var heads := ReadHeads(t, i, bs, true).value; |heads.0| == |t.fields| - i && Open(heads.0) == |heads.1|
    decreases |t.fields| - i
  {
    hide Read, FromLittleEndian;
    if i < |t.fields| {
      if IsVariable(t.fields[i]) {
        OneOffsetEach(t, i + 1, bs[OFFSET_BYTES..]);
      } else {
        OneOffsetEach(t, i + 1, bs[Min(FixedSize(t.fields[i]), |bs|)..]);
      }
    }
  }

  /** The second pass, collecting what the first one read on its way. */
  method DeserializeTails(t: Type, bs: seq<Byte>, slots: seq<Option<Value>>, offsets: seq<nat>)
    returns (r: Reading<seq<Value>>)
    requires WellFormed(t) && t.Container? && |slots| == |t.fields| && Open(slots) == |offsets|
    ensures r == ReadTails(t, 0, slots, bs, offsets, true)
    decreases t, 0, 0
  {
    hide Read, Prepend;
    var items, k, current := [], 0, if offsets == [] then 0 else offsets[0];
    assert slots[0..] == slots && offsets[0..] == offsets;
    PrependToNone(ReadTails(t, 0, slots, bs, offsets, true));
    for i := 0 to |t.fields|
      invariant 0 <= k && k + Open(slots[i..]) == |offsets| && (k < |offsets| ==> current == offsets[k])
      invariant Prepend(items, ReadTails(t, i, slots[i..], bs, offsets[k..], true))
             == ReadTails(t, 0, slots, bs, offsets, true)
    {
      assert slots[i..][1..] == slots[i + 1..];
      FailedPrepend(items, ReadTails(t, i, slots[i..], bs, offsets[k..], true));
      if slots[i].Some? {
        PrependedTo(slots[i].value, ReadTails(t, i + 1, slots[i + 1..], bs, offsets[k..], true));
        PrependOne(items, slots[i].value, ReadTails(t, i + 1, slots[i + 1..], bs, offsets[k..], true));
        items := items + [slots[i].value];
      } else {
        assert offsets[k..][1..] == offsets[k + 1..];
        k := k + 1;
        var part;
        if k < |offsets| {
          var next := offsets[k];
          if !InOrder(current, next, bs) { return Err(Unspecified); }
          part := bs[current..next];
          current := next;
        } else {
          part := Drop(bs, current);
        }
        var v := Deserialize(t.fields[i], part);
        if v.Err? { return Err(v.error); }
        PrependedTo(v.value, ReadTails(t, i + 1, slots[i + 1..], bs, offsets[k..], true));
        PrependOne(items, v.value, ReadTails(t, i + 1, slots[i + 1..], bs, offsets[k..], true));
        items := items + [v.value];
      }
    }
    PrependNone(items);
    return Ok(items);
  }

  method DeserializeContainer(t: Type, bs: seq<Byte>) returns (r: Reading<seq<Value>>)
    requires WellFormed(t) && t.Container?
    ensures r == ReadMembers(t, bs, true)
    decreases t, 1, 0
  {
    var heads := DeserializeHeads(t, bs);
    if heads.Err? { return Err(heads.error); }
    OneOffsetEach(t, 0, bs);
    r := DeserializeTails(t, bs, heads.value.0, heads.value.1);
  }
}
