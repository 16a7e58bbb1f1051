/** What can come out of the reader for bytes of any origin. */
module ReaderSafety {
  import opened Bytes
  import opened MathHelpers
  import opened Bits
  import opened Schema
  import opened Wrappers
  import opened Reader

  /** A value of the type, up to the limits of lists other than bitlists, which the reader does not look at. */
  ghost predicate HasShape(t: Type, v: Value)
    decreases v, 1
  {
    match t
    case Uint(w) => v.Number? && v.n < Pow256(w)
    case Bool => v.Flag?
    case Bitvector(n) => v.BitString? && |v.bits| == n
    case Bitlist(limit) => v.BitString? && |v.bits| <= limit
    case List(_, _) => v.Items? && MembersHaveShape(t, 0, v.items)
    case _ => v.Items? && CountFits(t, |v.items|) && MembersHaveShape(t, 0, v.items)
  }

  /** The values are members of `t` from the i-th on. */
  ghost predicate MembersHaveShape(t: Type, i: nat, vs: seq<Value>)
    decreases vs, 0
  {
    Indexes(t, i + |vs|) && forall j :: 0 <= j < |vs| ==> HasShape(Member(t, i + j), vs[j])
  }

  /** The limits of all lists inside are kept. */
  ghost predicate WithinLimits(t: Type, v: Value)
    requires HasShape(t, v)
    decreases v, 1
  {
    Composite(t) ==>
      (t.List? ==> |v.items| <= t.limit) && MembersWithinLimits(t, v.items)
  }

  ghost predicate MembersWithinLimits(t: Type, vs: seq<Value>)
    requires MembersHaveShape(t, 0, vs)
    decreases vs, 0
  {
    forall j :: 0 <= j < |vs| ==> WithinLimits(Member(t, 0 + j), vs[j])
  }

  lemma MemberInFront(t: Type, i: nat, v: Value, rest: seq<Value>)
    requires Indexes(t, i + 1) && HasShape(Member(t, i), v) && MembersHaveShape(t, i + 1, rest)
    ensures MembersHaveShape(t, i, [v] + rest)
  {
    hide HasShape;
    var all := [v] + rest;
    forall j | 0 <= j < |all|
      ensures HasShape(Member(t, i + j), all[j])
    {
      if j > 0 { assert all[j] == rest[j - 1] && HasShape(Member(t, i + 1 + (j - 1)), rest[j - 1]); }
    }
  }

  /** Whatever the bytes: if the reader neither throws nor leaves its range, the value has the type's shape. */
  lemma {:induction false} ReadHasShape(t: Type, bs: seq<Byte>)
    requires WellFormed(t) && Read(t, bs, true).Ok?
    ensures HasShape(t, Read(t, bs, true).value)
    decreases t, 2, 0
  {
    hide ReadChunks, ReadElements, ReadHeads, ReadTails, UnpackBits, MembersHaveShape;
    match t
    case Uint(w) => BytesRoundTrip(bs[..w]);
    case Bool =>
    case Bitvector(_) =>
    case Bitlist(_) => BelowTopBound(bs[|bs| - 1]);
    case Vector(elem, n) =>
      ChunksHaveShape(t, 0, n, if elem.Uint? then bs[..elem.width * n] else bs);
    case List(elem, _) =>
      if IsVariable(elem) {
        ListHasShape(t, bs);
      } else {
        SizeIsPositive(elem);
        ChunksHaveShape(t, 0, |bs| / FixedSize(elem), bs);
      }
    case Container(_) => ContainerHasShape(t, bs);
  }

  lemma {:induction false} ChunksHaveShape(t: Type, i: nat, n: nat, bs: seq<Byte>)
    requires WellFormed(t) && (t.Vector? || t.List?) && i <= n && ReadChunks(t, i, n, bs, true).Ok?
    ensures var vs := ReadChunks(t, i, n, bs, true).value; |vs| == n - i && MembersHaveShape(t, i, vs)
    decreases t, 1, n - i
  {
    hide Read, HasShape;
    if bs != [] {
      var size := Min(FixedSize(t.elem), |bs|);
      ReadHasShape(t.elem, bs[..size]);
      ChunksHaveShape(t, i + 1, n, bs[size..]);
      MemberInFront(t, i, Read(t.elem, bs[..size], true).value, ReadChunks(t, i + 1, n, bs[size..], true).value);
    }
  }

  lemma {:induction false} ListHasShape(t: Type, bs: seq<Byte>)
    requires WellFormed(t) && t.List? && ReadList(t, bs, true).Ok?
    ensures MembersHaveShape(t, 0, ReadList(t, bs, true).value)
    decreases t, 1, |bs| + 1
  {
    hide Read, FromLittleEndian;
    if bs != [] {
      var offset := FromLittleEndian(bs[..OFFSET_BYTES]);
      ElementsHaveShape(t, 0, offset / OFFSET_BYTES, bs, offset);
    }
  }

  lemma {:induction false} ElementsHaveShape(t: Type, i: nat, n: nat, bs: seq<Byte>, offset: nat)
    requires WellFormed(t) && t.List? && i < n && ReadElements(t, i, n, bs, offset, true).Ok?
    ensures MembersHaveShape(t, i, ReadElements(t, i, n, bs, offset, true).value)
    decreases t, 0, n - i
  {
    hide Read, FromLittleEndian, HasShape;
    if i + 1 == n {
      ReadHasShape(t.elem, Drop(bs, offset));
      MemberInFront(t, i, Read(t.elem, Drop(bs, offset), true).value, []);
      assert [Read(t.elem, Drop(bs, offset), true).value] + [] == [Read(t.elem, Drop(bs, offset), true).value];
    } else {
      var idx := OFFSET_BYTES * (i + 1);
      var next := FromLittleEndian(bs[idx..idx + OFFSET_BYTES]);
      ReadHasShape(t.elem, bs[offset..next]);
      ElementsHaveShape(t, i + 1, n, bs, next);
      MemberInFront(t, i, Read(t.elem, bs[offset..next], true).value, ReadElements(t, i + 1, n, bs, next, true).value);
    }
  }

  /** What the first pass filled in has the shape of its member. */
  ghost predicate SlotsHaveShape(t: Type, i: nat, slots: seq<Option<Value>>)
  {
    t.Container? && i + |slots| == |t.fields|
    && forall j :: 0 <= j < |slots| && slots[j].Some? ==> HasShape(t.fields[i + j], slots[j].value)
  }

  lemma {:induction false} HeadsHaveShape(t: Type, i: nat, bs: seq<Byte>)
    requires WellFormed(t) && t.Container? && i <= |t.fields| && ReadHeads(t, i, bs, true).Ok?
    ensures SlotsHaveShape(t, i, ReadHeads(t, i, bs, true).value.0)
    decreases t, 0, |t.fields| - i
  {
    hide Read, FromLittleEndian, HasShape;
    if i < |t.fields| {
      if IsVariable(t.fields[i]) {
        HeadsHaveShape(t, i + 1, bs[OFFSET_BYTES..]);
        SlotInFront(t, i, None, ReadHeads(t, i + 1, bs[OFFSET_BYTES..], true).value.0);
      } else {
        var size := Min(FixedSize(t.fields[i]), |bs|);
        ReadHasShape(t.fields[i], bs[..size]);
        HeadsHaveShape(t, i + 1, bs[size..]);
        SlotInFront(t, i, Some(Read(t.fields[i], bs[..size], true).value),
                    ReadHeads(t, i + 1, bs[size..], true).value.0);
      }
    }
  }

  lemma SlotInFront(t: Type, i: nat, slot: Option<Value>, rest: seq<Option<Value>>)
    requires t.Container? && i < |t.fields| && SlotsHaveShape(t, i + 1, rest)
    requires slot.Some? ==> HasShape(t.fields[i], slot.value)
    ensures SlotsHaveShape(t, i, [slot] + rest)
  {
    hide HasShape;
    var all := [slot] + rest;
    forall j | 0 <= j < |all| && all[j].Some?
      ensures HasShape(t.fields[i + j], all[j].value)
    {
      if j > 0 { assert all[j] == rest[j - 1] && t.fields[i + j] == t.fields[i + 1 + (j - 1)]; }
    }
  }

  lemma {:induction false} TailsHaveShape(t: Type, i: nat, slots: seq<Option<Value>>, bs: seq<Byte>, offsets: seq<nat>)
    requires WellFormed(t) && t.Container? && i <= |t.fields| && SlotsHaveShape(t, i, slots)
    requires ReadTails(t, i, slots, bs, offsets, true).Ok?
    ensures var vs := ReadTails(t, i, slots, bs, offsets, true).value;
      |vs| == |t.fields| - i && MembersHaveShape(t, i, vs)
    decreases t, 0, |t.fields| - i
  {
    hide Read, HasShape;
    if i < |t.fields| {
      var rest, v;
      if slots[0].Some? {
        v, rest := slots[0].value, offsets;
        assert t.fields[i] == t.fields[i + 0];
      } else {
        var part := Slice(bs, offsets).value;
        ReadHasShape(t.fields[i], part);
        v, rest := Read(t.fields[i], part, true).value, offsets[1..];
      }
      RestOfSlots(t, i, slots);
      TailsHaveShape(t, i + 1, slots[1..], bs, rest);
      MemberInFront(t, i, v, ReadTails(t, i + 1, slots[1..], bs, rest, true).value);
    }
  }

  lemma RestOfSlots(t: Type, i: nat, slots: seq<Option<Value>>)
    requires SlotsHaveShape(t, i, slots) && slots != []
    ensures SlotsHaveShape(t, i + 1, slots[1..])
  {
    hide HasShape;
    var rest := slots[1..];
    forall j | 0 <= j < |rest| && rest[j].Some?
      ensures HasShape(t.fields[i + 1 + j], rest[j].value)
    {
      assert rest[j] == slots[j + 1] && t.fields[i + 1 + j] == t.fields[i + (j + 1)];
    }
  }

  lemma {:induction false} ContainerHasShape(t: Type, bs: seq<Byte>)
    requires WellFormed(t) && t.Container? && ReadMembers(t, bs, true).Ok?
    ensures var vs := ReadMembers(t, bs, true).value; |vs| == |t.fields| && MembersHaveShape(t, 0, vs)
    decreases t, 1, 0
  {
    HeadsHaveShape(t, 0, bs);
    var heads := ReadHeads(t, 0, bs, true).value;
    TailsHaveShape(t, 0, heads.0, bs, heads.1);
  }

  /** A value of the right shape is a value of the type exactly when the limits of its lists are kept. */
  lemma {:induction false} ShapeAndLimits(t: Type, v: Value)
    requires HasShape(t, v)
    ensures HasType(t, v) <==> WithinLimits(t, v)
    decreases v
  {
    if Composite(t) {
      assert MembersHaveShape(t, 0, v.items);
      forall j | 0 <= j < |v.items|
        ensures HasType(Member(t, j), v.items[j]) <==> WithinLimits(Member(t, 0 + j), v.items[j])
      {
        assert HasShape(Member(t, 0 + j), v.items[j]);
        ShapeAndLimits(Member(t, j), v.items[j]);
      }
    }
  }

  // ---- conditions on the bytes ----

  /** What is looked for in the bytes of lists and of bitlists. */
  datatype Check = Counts | Guards

  /**
   Counts: no list inside these bytes has more elements than its limit. Elements of fixed size are counted by the bytes
   they take, elements of variable size by the first offset. Guards: no bitlist inside has more than limit / 8 bytes.
   */
  predicate Passes(c: Check, t: Type, bs: seq<Byte>)
    requires WellFormed(t)
    decreases t, 2, 0
  {
    match t
    case Bitlist(limit) => c.Guards? ==> 8 * |bs| <= limit
    case List(elem, limit) =>
      if IsVariable(elem) then
        |bs| >= OFFSET_BYTES ==>
          var offset := FromLittleEndian(bs[..OFFSET_BYTES]);
          && (c.Counts? ==> offset / OFFSET_BYTES <= limit)
          && ElementsPass(c, t, 0, offset / OFFSET_BYTES, bs, offset)
      else
        SizeIsPositive(elem);
        c.Counts? ==> |bs| / FixedSize(elem) <= limit
    case Container(_) => MembersPass(c, t, 0, bs, Offsets(t, 0, bs))
    case _ => true
  }

  predicate CountsFit(t: Type, bs: seq<Byte>)
    requires WellFormed(t)
  {
    Passes(Counts, t, bs)
  }

  predicate GuardsFit(t: Type, bs: seq<Byte>)
    requires WellFormed(t)
  {
    Passes(Guards, t, bs)
  }

  /** Elements i to n - 1, the i-th one starting at `offset`. */
  predicate ElementsPass(c: Check, t: Type, i: nat, n: nat, bs: seq<Byte>, offset: nat)
    requires WellFormed(t) && t.List?
    decreases t, 0, Minus(n, i)
  {
    if i >= n then true
    else if i + 1 == n then Passes(c, t.elem, Drop(bs, offset))
    else
      var idx := OFFSET_BYTES * (i + 1);
      |bs| >= idx + OFFSET_BYTES ==>
        var next := FromLittleEndian(bs[idx..idx + OFFSET_BYTES]);
        InOrder(offset, next, bs) ==> Passes(c, t.elem, bs[offset..next]) && ElementsPass(c, t, i + 1, n, bs, next)
  }

  /** The offsets among the heads of the members from i on. */
  function Offsets(t: Type, i: nat, bs: seq<Byte>): seq<nat>
    requires t.Container? && i <= |t.fields|
    decreases |t.fields| - i
  {
    if i == |t.fields| then []
    else if !IsVariable(t.fields[i]) then Offsets(t, i + 1, Drop(bs, FixedSize(t.fields[i])))
    else if |bs| < OFFSET_BYTES then []
    else [FromLittleEndian(bs[..OFFSET_BYTES])] + Offsets(t, i + 1, bs[OFFSET_BYTES..])
  }

  /** Members from i on, in the slices between consecutive offsets. */
  predicate MembersPass(c: Check, t: Type, i: nat, bs: seq<Byte>, offsets: seq<nat>)
    requires WellFormed(t) && t.Container? && i <= |t.fields|
    decreases t, 0, |t.fields| - i
  {
    if i == |t.fields| then true
    else if !IsVariable(t.fields[i]) then MembersPass(c, t, i + 1, bs, offsets)
    else
      Slice(bs, offsets).Ok? ==>
        Passes(c, t.fields[i], Slice(bs, offsets).value) && MembersPass(c, t, i + 1, bs, offsets[1..])
  }

  /** There are no lists in values of fixed size. */
  lemma {:induction false} FixedWithinLimits(t: Type, v: Value)
    requires HasShape(t, v) && !IsVariable(t)
    ensures WithinLimits(t, v)
    decreases v
  {
    if Composite(t) {
      assert MembersHaveShape(t, 0, v.items);
      forall j | 0 <= j < |v.items|
        ensures WithinLimits(Member(t, 0 + j), v.items[j])
      {
        assert HasShape(Member(t, 0 + j), v.items[j]);
        FixedWithinLimits(Member(t, 0 + j), v.items[j]);
      }
    }
  }

  lemma {:induction false} FixedPasses(c: Check, t: Type, bs: seq<Byte>)
    requires WellFormed(t) && !IsVariable(t)
    ensures Passes(c, t, bs)
  {
    if t.Container? { FixedMembersPass(c, t, 0, bs, Offsets(t, 0, bs)); }
  }

  lemma {:induction false} FixedMembersPass(c: Check, t: Type, i: nat, bs: seq<Byte>, offsets: seq<nat>)
    requires WellFormed(t) && t.Container? && !IsVariable(t) && i <= |t.fields|
    ensures MembersPass(c, t, i, bs, offsets)
    decreases |t.fields| - i
  {
    if i < |t.fields| { FixedMembersPass(c, t, i + 1, bs, offsets); }
  }

  /** The members `vs`, which start at the i-th, keep the limits. */
  ghost predicate KeepLimits(t: Type, i: nat, vs: seq<Value>)
    requires MembersHaveShape(t, i, vs)
  {
    forall j :: 0 <= j < |vs| ==> WithinLimits(Member(t, i + j), vs[j])
  }

  lemma KeptAt(t: Type, i: nat, vs: seq<Value>, j: nat)
    requires MembersHaveShape(t, i, vs) && KeepLimits(t, i, vs) && j < |vs|
    ensures Indexes(t, i + j + 1) && HasShape(Member(t, i + j), vs[j]) && WithinLimits(Member(t, i + j), vs[j])
  {
    hide HasShape, WithinLimits;
  }

  lemma KeepBoth(t: Type, i: nat, v: Value, rest: seq<Value>)
    requires Indexes(t, i + 1) && HasShape(Member(t, i), v) && MembersHaveShape(t, i + 1, rest)
    requires WithinLimits(Member(t, i), v) && KeepLimits(t, i + 1, rest)
    ensures MembersHaveShape(t, i, [v] + rest) && KeepLimits(t, i, [v] + rest)
  {
    hide HasShape, WithinLimits, Member, MembersHaveShape;
    MemberInFront(t, i, v, rest);
    var all := [v] + rest;
    forall j | 0 <= j < |all|
      ensures Indexes(t, i + j + 1) && HasShape(Member(t, i + j), all[j]) && WithinLimits(Member(t, i + j), all[j])
    {
      if j > 0 {
        assert all[j] == rest[j - 1] && i + j == i + 1 + (j - 1);
        KeptAt(t, i + 1, rest, j - 1);
      }
    }
  }

  lemma KeepFront(t: Type, i: nat, v: Value, rest: seq<Value>)
    requires Indexes(t, i + 1) && HasShape(Member(t, i), v) && MembersHaveShape(t, i + 1, rest)
    requires MembersHaveShape(t, i, [v] + rest) && KeepLimits(t, i, [v] + rest)
    ensures WithinLimits(Member(t, i), v) && KeepLimits(t, i + 1, rest)
  {
    hide HasShape, WithinLimits, Member, MembersHaveShape;
    var all := [v] + rest;
    KeptAt(t, i, all, 0);
    forall j | 0 <= j < |rest|
      ensures Indexes(t, i + 1 + j + 1)
      ensures HasShape(Member(t, i + 1 + j), rest[j]) && WithinLimits(Member(t, i + 1 + j), rest[j])
    {
      assert all[j + 1] == rest[j] && i + (j + 1) == i + 1 + j;
      KeptAt(t, i, all, j + 1);
    }
  }

  lemma KeepOneMore(t: Type, i: nat, v: Value, rest: seq<Value>)
    requires Indexes(t, i + 1) && HasShape(Member(t, i), v) && MembersHaveShape(t, i + 1, rest)
    ensures MembersHaveShape(t, i, [v] + rest)
    ensures KeepLimits(t, i, [v] + rest) <==> WithinLimits(Member(t, i), v) && KeepLimits(t, i + 1, rest)
  {
    hide HasShape, WithinLimits, KeepLimits, MembersHaveShape;
    MemberInFront(t, i, v, rest);
    if KeepLimits(t, i, [v] + rest) {
      KeepFront(t, i, v, rest);
    } else if WithinLimits(Member(t, i), v) && KeepLimits(t, i + 1, rest) {
      KeepBoth(t, i, v, rest);
      assert false;
    }
  }

  /** Whatever is read keeps its limits exactly when the counts found in the bytes do. */
  lemma {:induction false} ReadWithinLimits(t: Type, bs: seq<Byte>)
    requires WellFormed(t) && Read(t, bs, true).Ok?
    ensures HasShape(t, Read(t, bs, true).value)
    ensures WithinLimits(t, Read(t, bs, true).value) <==> Passes(Counts, t, bs)
    decreases t, 2, 0
  {
    hide ReadChunks, ReadElements, ReadHeads, ReadTails, MembersHaveShape, HasShape, UnpackBits, ReadList, ReadMembers;
    hide Offsets, MembersPass, ElementsPass, MembersWithinLimits, KeepLimits;
    ReadHasShape(t, bs);
    if !IsVariable(t) {
      FixedWithinLimits(t, Read(t, bs, true).value);
      FixedPasses(Counts, t, bs);
    } else if t.Container? {
      ContainerWithinLimits(t, bs);
    } else if t.List? {
      if IsVariable(t.elem) { ListWithinLimits(t, bs); } else { FixedListWithinLimits(t, bs); }
    }
  }

  lemma ItemsWithinLimits(t: Type, v: Value)
    requires HasShape(t, v) && Composite(t)
    ensures v.Items? && MembersHaveShape(t, 0, v.items)
    ensures WithinLimits(t, v) <==> (t.List? ==> |v.items| <= t.limit) && KeepLimits(t, 0, v.items)
  {}

  lemma {:induction false} FixedListWithinLimits(t: Type, bs: seq<Byte>)
    requires WellFormed(t) && t.List? && !IsVariable(t.elem) && Read(t, bs, true).Ok?
    requires HasShape(t, Read(t, bs, true).value)
    ensures WithinLimits(t, Read(t, bs, true).value) <==> Passes(Counts, t, bs)
  {
    hide HasShape, WithinLimits, ReadChunks;
    var v := Read(t, bs, true).value;
    SizeIsPositive(t.elem);
    ChunksHaveShape(t, 0, |bs| / FixedSize(t.elem), bs);
    ItemsWithinLimits(t, v);
    forall j | 0 <= j < |v.items|
      ensures WithinLimits(Member(t, 0 + j), v.items[j])
    {
      FixedWithinLimits(Member(t, 0 + j), v.items[j]);
    }
  }

  lemma {:induction false} ListWithinLimits(t: Type, bs: seq<Byte>)
    requires WellFormed(t) && t.List? && IsVariable(t.elem) && Read(t, bs, true).Ok?
    requires HasShape(t, Read(t, bs, true).value)
    ensures WithinLimits(t, Read(t, bs, true).value) <==> Passes(Counts, t, bs)
    decreases t, 1, 0
  {
    hide HasShape, WithinLimits, ReadElements, ElementsPass, FromLittleEndian, KeepLimits;
    var v := Read(t, bs, true).value;
    ItemsWithinLimits(t, v);
    if bs == [] {
      NothingToKeep(t, 0);
    } else {
      var offset := FromLittleEndian(bs[..OFFSET_BYTES]);
      ElementsWithinLimits(t, 0, offset / OFFSET_BYTES, bs, offset);
    }
  }

  lemma NothingToKeep(t: Type, i: nat)
    requires Indexes(t, i)
    ensures MembersHaveShape(t, i, []) && KeepLimits(t, i, [])
  {}

  lemma {:induction false} ElementsWithinLimits(t: Type, i: nat, n: nat, bs: seq<Byte>, offset: nat)
    requires WellFormed(t) && t.List? && i < n && ReadElements(t, i, n, bs, offset, true).Ok?
    ensures var vs := ReadElements(t, i, n, bs, offset, true).value;
      && |vs| == n - i && MembersHaveShape(t, i, vs)
      && (KeepLimits(t, i, vs) <==> ElementsPass(Counts, t, i, n, bs, offset))
    decreases t, 0, n - i
  {
    hide Read, FromLittleEndian, HasShape, WithinLimits, KeepLimits, Passes, MembersHaveShape;
    if i + 1 == n {
      var v := Read(t.elem, Drop(bs, offset), true).value;
      ReadWithinLimits(t.elem, Drop(bs, offset));
      NothingToKeep(t, i + 1);
      KeepOneMore(t, i, v, []);
      assert [v] + [] == [v];
    } else {
      var idx := OFFSET_BYTES * (i + 1);
      var next := FromLittleEndian(bs[idx..idx + OFFSET_BYTES]);
      ReadWithinLimits(t.elem, bs[offset..next]);
      ElementsWithinLimits(t, i + 1, n, bs, next);
      KeepOneMore(t, i, Read(t.elem, bs[offset..next], true).value, ReadElements(t, i + 1, n, bs, next, true).value);
    }
  }

  /** The first pass finds these offsets. */
  lemma {:induction false} HeadsGiveOffsets(t: Type, i: nat, bs: seq<Byte>)
    requires WellFormed(t) && t.Container? && i <= |t.fields| && ReadHeads(t, i, bs, true).Ok?
    ensures ReadHeads(t, i, bs, true).value.1 == Offsets(t, i, bs)
    ensures SlotsFollowTypes(t, i, ReadHeads(t, i, bs, true).value.0)
    decreases |t.fields| - i
  {
    hide Read, FromLittleEndian;
    if i < |t.fields| {
      if IsVariable(t.fields[i]) {
        HeadsGiveOffsets(t, i + 1, bs[OFFSET_BYTES..]);
      } else {
        var size := Min(FixedSize(t.fields[i]), |bs|);
        HeadsGiveOffsets(t, i + 1, bs[size..]);
      }
    }
  }

  /** It fills in the members of fixed size. */
  ghost predicate SlotsFollowTypes(t: Type, i: nat, slots: seq<Option<Value>>)
    requires t.Container? && i <= |t.fields|
    decreases |slots|
  {
    i + |slots| == |t.fields|
    && (slots != [] ==> (slots[0].None? <==> IsVariable(t.fields[i])) && SlotsFollowTypes(t, i + 1, slots[1..]))
  }

  lemma {:induction false} TailsWithinLimits(t: Type, i: nat, slots: seq<Option<Value>>, bs: seq<Byte>,
                                             offsets: seq<nat>)
    requires WellFormed(t) && t.Container? && i <= |t.fields|
    requires SlotsHaveShape(t, i, slots) && SlotsFollowTypes(t, i, slots)
    requires ReadTails(t, i, slots, bs, offsets, true).Ok?
    ensures var vs := ReadTails(t, i, slots, bs, offsets, true).value;
      && |vs| == |t.fields| - i && MembersHaveShape(t, i, vs)
      && (KeepLimits(t, i, vs) <==> MembersPass(Counts, t, i, bs, offsets))
    decreases t, 0, |t.fields| - i
  {
    hide Read, HasShape, WithinLimits, KeepLimits, Passes, MembersHaveShape;
    if i == |t.fields| {
      NothingToKeep(t, i);
    } else {
      RestOfSlots(t, i, slots);
      if slots[0].Some? {
        assert HasShape(t.fields[i + 0], slots[0].value);
        FixedWithinLimits(t.fields[i], slots[0].value);
        TailsWithinLimits(t, i + 1, slots[1..], bs, offsets);
        KeepOneMore(t, i, slots[0].value, ReadTails(t, i + 1, slots[1..], bs, offsets, true).value);
      } else {
        var part := Slice(bs, offsets).value;
        ReadWithinLimits(t.fields[i], part);
        TailsWithinLimits(t, i + 1, slots[1..], bs, offsets[1..]);
        KeepOneMore(t, i, Read(t.fields[i], part, true).value,
                    ReadTails(t, i + 1, slots[1..], bs, offsets[1..], true).value);
      }
    }
  }

  lemma {:induction false} ContainerWithinLimits(t: Type, bs: seq<Byte>)
    requires WellFormed(t) && t.Container? && Read(t, bs, true).Ok?
    requires HasShape(t, Read(t, bs, true).value)
    ensures WithinLimits(t, Read(t, bs, true).value) <==> Passes(Counts, t, bs)
    decreases t, 1, 0
  {
    hide ReadHeads, ReadTails, HasShape, WithinLimits, Offsets, MembersPass, KeepLimits;
    ItemsWithinLimits(t, Read(t, bs, true).value);
    HeadsHaveShape(t, 0, bs);
    HeadsGiveOffsets(t, 0, bs);
    var heads := ReadHeads(t, 0, bs, true).value;
    TailsWithinLimits(t, 0, heads.0, bs, heads.1);
  }

  /** So a value read from any bytes is a value of its type if and only if the counts in the bytes keep the limits. */
  lemma ReadIsTyped(t: Type, bs: seq<Byte>)
    requires WellFormed(t) && Read(t, bs, true).Ok?
    ensures HasType(t, Read(t, bs, true).value) <==> CountsFit(t, bs)
  {
    hide Read, HasShape, HasType, WithinLimits, Passes;
    ReadWithinLimits(t, bs);
    ShapeAndLimits(t, Read(t, bs, true).value);
  }

  /** A list without room for any element reads one. */
  lemma TooManyAreRead()
    ensures var t, v := List(Uint(1), 0), Items([Number(7)]);
      Read(t, [7], true) == Ok(v) && !HasType(t, v) && !CountsFit(t, [7])
  {
    var t, bs: seq<Byte> := List(Uint(1), 0), [7];
    assert FixedSize(t.elem) == 1 && |bs| / 1 == 1;
    assert bs[..1] == bs && bs[1..] == [];
    assert Read(t.elem, bs, true) == Ok(Number(7)) by { assert FromLittleEndian(bs) == 7 + 256 * FromLittleEndian([]); }
    assert ReadChunks(t, 1, 1, bs[1..], true) == Ok([]);
    assert ReadChunks(t, 0, 1, bs, true) == Ok([Number(7)] + []);
    assert |bs| % FixedSize(t.elem) == 0;
    assert !IsVariable(t.elem);
    assert Read(t, bs, true) == Ok(Items([Number(7)] + []));
    assert [Number(7)] + [] == [Number(7)];
  }

  // ---- when the guard throws ----

  /** With the guard in force the reader gives what it gives without, or throws because of a bitlist. */
  ghost predicate Guarded<T>(passes: bool, with: Reading<T>, without: Reading<T>)
  {
    with == if passes then without else Err(OutOfRange)
  }

  /** Bytes that read without the guard read the same with it exactly when all bitlists found in them fit. */
  lemma {:induction false} GuardThrowsIff(t: Type, bs: seq<Byte>)
    requires WellFormed(t) && Read(t, bs, false).Ok?
    ensures Read(t, bs, true) == if GuardsFit(t, bs) then Read(t, bs, false) else Err(OutOfRange)
    decreases t, 2, 0
  {
    hide ReadChunks, ReadElements, ReadHeads, ReadTails, ReadList, ReadMembers, ElementsPass, MembersPass, Offsets;
    match t
    case Vector(elem, n) =>
      FixedPasses(Guards, t, bs);
      ChunksUnguarded(t, 0, n, if elem.Uint? then bs[..elem.width * n] else bs);
    case List(elem, _) =>
      if IsVariable(elem) {
        ListGuarded(t, bs);
      } else {
        SizeIsPositive(elem);
        ChunksUnguarded(t, 0, |bs| / FixedSize(elem), bs);
      }
    case Container(_) => ContainerGuarded(t, bs);
    case _ =>
  }

  lemma {:induction false} ChunksUnguarded(t: Type, i: nat, n: nat, bs: seq<Byte>)
    requires WellFormed(t) && (t.Vector? || t.List?) && !IsVariable(t.elem) && i <= n
    requires ReadChunks(t, i, n, bs, false).Ok?
    ensures ReadChunks(t, i, n, bs, true) == ReadChunks(t, i, n, bs, false)
    decreases t, 0, n - i
  {
    hide Read, Passes, FixedSize;
    if bs != [] {
      var size := Min(FixedSize(t.elem), |bs|);
      GuardThrowsIff(t.elem, bs[..size]);
      FixedPasses(Guards, t.elem, bs[..size]);
      ChunksUnguarded(t, i + 1, n, bs[size..]);
    }
  }

  lemma {:induction false} ListGuarded(t: Type, bs: seq<Byte>)
    requires WellFormed(t) && t.List? && IsVariable(t.elem) && ReadList(t, bs, false).Ok?
    ensures Guarded(Passes(Guards, t, bs), ReadList(t, bs, true), ReadList(t, bs, false))
    decreases t, 1, 0
  {
    hide ReadElements, ElementsPass, FromLittleEndian;
    if bs != [] {
      var offset := FromLittleEndian(bs[..OFFSET_BYTES]);
      ElementsGuarded(t, 0, offset / OFFSET_BYTES, bs, offset);
    }
  }

  lemma {:induction false} ElementsGuarded(t: Type, i: nat, n: nat, bs: seq<Byte>, offset: nat)
    requires WellFormed(t) && t.List? && i < n && ReadElements(t, i, n, bs, offset, false).Ok?
    ensures Guarded(ElementsPass(Guards, t, i, n, bs, offset),
                    ReadElements(t, i, n, bs, offset, true), ReadElements(t, i, n, bs, offset, false))
    decreases t, 0, n - i
  {
    hide Read, FromLittleEndian, Passes;
    if i + 1 == n {
      GuardThrowsIff(t.elem, Drop(bs, offset));
    } else {
      var idx := OFFSET_BYTES * (i + 1);
      var next := FromLittleEndian(bs[idx..idx + OFFSET_BYTES]);
      GuardThrowsIff(t.elem, bs[offset..next]);
      ElementsGuarded(t, i + 1, n, bs, next);
    }
  }

  lemma {:induction false} HeadsUnguarded(t: Type, i: nat, bs: seq<Byte>)
    requires WellFormed(t) && t.Container? && i <= |t.fields| && ReadHeads(t, i, bs, false).Ok?
    ensures ReadHeads(t, i, bs, true) == ReadHeads(t, i, bs, false)
    decreases t, 0, |t.fields| - i
  {
    hide Read, FromLittleEndian, Passes, FixedSize;
    if i < |t.fields| {
      if IsVariable(t.fields[i]) {
        HeadsUnguarded(t, i + 1, bs[OFFSET_BYTES..]);
      } else {
        var size := Min(FixedSize(t.fields[i]), |bs|);
        GuardThrowsIff(t.fields[i], bs[..size]);
        FixedPasses(Guards, t.fields[i], bs[..size]);
        HeadsUnguarded(t, i + 1, bs[size..]);
      }
    }
  }

  lemma {:induction false} TailsGuarded(t: Type, i: nat, slots: seq<Option<Value>>, bs: seq<Byte>, offsets: seq<nat>)
    requires WellFormed(t) && t.Container? && i <= |t.fields| && SlotsFollowTypes(t, i, slots)
    requires ReadTails(t, i, slots, bs, offsets, false).Ok?
    ensures Guarded(MembersPass(Guards, t, i, bs, offsets),
                    ReadTails(t, i, slots, bs, offsets, true), ReadTails(t, i, slots, bs, offsets, false))
    decreases t, 0, |t.fields| - i
  {
    hide Read, Passes;
    if i < |t.fields| {
      if slots[0].Some? {
        TailsGuarded(t, i + 1, slots[1..], bs, offsets);
      } else {
        GuardThrowsIff(t.fields[i], Slice(bs, offsets).value);
        TailsGuarded(t, i + 1, slots[1..], bs, offsets[1..]);
      }
    }
  }

  lemma {:induction false} ContainerGuarded(t: Type, bs: seq<Byte>)
    requires WellFormed(t) && t.Container? && ReadMembers(t, bs, false).Ok?
    ensures Guarded(Passes(Guards, t, bs), ReadMembers(t, bs, true), ReadMembers(t, bs, false))
    decreases t, 1, 0
  {
    hide ReadHeads, ReadTails, Offsets, MembersPass;
    HeadsUnguarded(t, 0, bs);
    HeadsGiveOffsets(t, 0, bs);
    var heads := ReadHeads(t, 0, bs, true).value;
    TailsGuarded(t, 0, heads.0, bs, heads.1);
  }
}
