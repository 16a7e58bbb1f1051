/** Which byte strings are encodings, said without the writer; they and the values of a type are in bijection. */
module CanonicalBytes {
  import opened Bytes
  import opened Wrappers
  import opened MathHelpers
  import opened Bits
  import opened Schema
  import opened EncodingLayout
  import opened Reader
  import opened ReaderSafety
  import opened RoundTrips

  /** The first offset among the heads of members i to n - 1, or `end` if there is none. */
  function NextOffset(t: Type, i: nat, n: nat, heads: seq<Byte>, end: nat): nat
    requires i <= n && Indexes(t, n) && |heads| == HeadLength(t, i, n)
    decreases n - i
  {
    if i == n then end
    else if IsVariable(Member(t, i)) then FromLittleEndian(heads[..HeadSize(Member(t, i))])
    else NextOffset(t, i + 1, n, heads[HeadSize(Member(t, i))..], end)
  }

  /**
   Exact lengths, zero bit padding, a delimiter bit in the last byte of a bitlist, the first offset where the heads
   end, offsets in order and in range, and members that are canonical themselves.
   */
  ghost predicate Canonical(t: Type, bs: seq<Byte>)
    decreases t, 1, 0
  {
    match t
    case Uint(w) => |bs| == w
    case Bool => |bs| == 1 && bs[0] <= 1
    case Bitvector(n) => ZeroPadded(bs, n)
    case Bitlist(limit) =>
      bs != [] && bs[|bs| - 1] > 0 && 8 * (|bs| - 1) + BelowTop(bs[|bs| - 1]) <= limit
    case _ => exists n :: CountFits(t, n) && CanonicalParts(t, n, bs)
  }

  /** `bs` is the encoding of n members, heads first. */
  ghost predicate CanonicalParts(t: Type, n: nat, bs: seq<Byte>)
    requires Composite(t) && CountFits(t, n)
    decreases t, 0, n + 1
  {
    var h := HeadLength(t, 0, n);
    h <= |bs| && CanonicalMembers(t, 0, n, bs[..h], bs[h..], h)
  }

  /** Members i to n - 1 with these heads, and with tails that start at `offset`. */
  ghost predicate CanonicalMembers(t: Type, i: nat, n: nat, heads: seq<Byte>, tails: seq<Byte>, offset: nat)
    requires i <= n && Indexes(t, n) && |heads| == HeadLength(t, i, n)
    decreases t, 0, n - i
  {
    if i == n then tails == []
    else
      var m := Member(t, i);
      var size := HeadSize(m);
      if IsVariable(m) then
        var next := NextOffset(t, i + 1, n, heads[size..], offset + |tails|);
        && FromLittleEndian(heads[..size]) == offset
        && offset <= next <= offset + |tails|
        && Canonical(m, tails[..next - offset])
        && CanonicalMembers(t, i + 1, n, heads[size..], tails[next - offset..], next)
      else
        && Canonical(m, heads[..size])
        && CanonicalMembers(t, i + 1, n, heads[size..], tails, offset)
  }

  // ---- what is written is canonical ----

  lemma {:induction false} WrittenIsCanonical(t: Type, v: Value)
    requires HasType(t, v) && |Serialize(t, v)| < TWO_TO_THE_32
    ensures Canonical(t, Serialize(t, v))
    decreases v, 1, 0
  {
    hide CanonicalParts, Heads, Tails, HeadLength, PackBits, BitlistBytes, BitsToNat;
    match t
    case Uint(_) =>
    case Bool =>
    case Bitvector(_) => PackedIsPadded(v.bits);
    case Bitlist(_) =>
      LastByte(v.bits);
      DelimiterOnTop(v.bits[8 * (|v.bits| / 8)..]);
    case _ =>
      PartsAreCanonical(t, v);
      assert CountFits(t, |v.items|) && CanonicalParts(t, |v.items|, Serialize(t, v));
  }

  lemma {:induction false} PartsAreCanonical(t: Type, v: Value)
    requires HasType(t, v) && Composite(t) && |Serialize(t, v)| < TWO_TO_THE_32
    ensures CanonicalParts(t, |v.items|, Serialize(t, v))
    decreases v, 0, 0
  {
    hide Serialize, CanonicalMembers, Heads, Tails;
    Layout(t, v);
    MembersAreCanonical(t, v.items, 0, HeadLength(t, 0, |v.items|));
  }

  lemma {:induction false} MembersAreCanonical(t: Type, vs: seq<Value>, i: nat, offset: nat)
    requires HaveTypes(t, vs) && i <= |vs|
    requires HeadLength(t, i, |vs|) < TWO_TO_THE_32 && offset + |Tails(t, vs, i)| < TWO_TO_THE_32
    ensures |Heads(t, vs, i, offset)| == HeadLength(t, i, |vs|)
    ensures CanonicalMembers(t, i, |vs|, Heads(t, vs, i, offset), Tails(t, vs, i), offset)
    decreases vs, 0, |vs| - i
  {
    hide Serialize, Canonical, CanonicalMembers;
    HeadsLength(t, vs, i, offset);
    if i == |vs| {
      NoMemberIsCanonical(t, vs, offset);
    } else {
      var m := Member(t, i);
      var b := Serialize(m, vs[i]);
      WrittenIsCanonical(m, vs[i]);
      if IsVariable(m) {
        MembersAreCanonical(t, vs, i + 1, offset + |b|);
        VariableMemberIsCanonical(t, vs, i, offset);
      } else {
        FixedSizeIsLength(m, vs[i]);
        MembersAreCanonical(t, vs, i + 1, offset);
        Cut(b, Heads(t, vs, i + 1, offset));
        FixedMemberIsCanonical(t, vs, i, offset);
      }
    }
  }

  lemma NoMemberIsCanonical(t: Type, vs: seq<Value>, offset: nat)
    requires HaveTypes(t, vs)
    ensures Heads(t, vs, |vs|, offset) == []
    ensures CanonicalMembers(t, |vs|, |vs|, [], Tails(t, vs, |vs|), offset)
  {}

  lemma FixedMemberIsCanonical(t: Type, vs: seq<Value>, i: nat, offset: nat)
    requires HaveTypes(t, vs) && i < |vs| && !IsVariable(Member(t, i))
    requires |Heads(t, vs, i + 1, offset)| == HeadLength(t, i + 1, |vs|)
    requires var b := Serialize(Member(t, i), vs[i]); |b| == HeadSize(Member(t, i)) && Canonical(Member(t, i), b)
    requires CanonicalMembers(t, i + 1, |vs|, Heads(t, vs, i + 1, offset), Tails(t, vs, i + 1), offset)
    ensures |Heads(t, vs, i, offset)| == HeadLength(t, i, |vs|)
    ensures CanonicalMembers(t, i, |vs|, Heads(t, vs, i, offset), Tails(t, vs, i), offset)
  {
    hide Serialize, Canonical, NextOffset;
    Cut(Serialize(Member(t, i), vs[i]), Heads(t, vs, i + 1, offset));
  }

  lemma VariableMemberIsCanonical(t: Type, vs: seq<Value>, i: nat, offset: nat)
    requires HaveTypes(t, vs) && i < |vs| && IsVariable(Member(t, i))
    requires offset + |Tails(t, vs, i)| < TWO_TO_THE_32 && Canonical(Member(t, i), Serialize(Member(t, i), vs[i]))
    requires var b := Serialize(Member(t, i), vs[i]);
      && |Heads(t, vs, i + 1, offset + |b|)| == HeadLength(t, i + 1, |vs|)
      && CanonicalMembers(t, i + 1, |vs|, Heads(t, vs, i + 1, offset + |b|), Tails(t, vs, i + 1), offset + |b|)
    ensures |Heads(t, vs, i, offset)| == HeadLength(t, i, |vs|)
    ensures CanonicalMembers(t, i, |vs|, Heads(t, vs, i, offset), Tails(t, vs, i), offset)
  {
    hide Serialize, LittleEndian, FromLittleEndian, Canonical, NextOffset, CanonicalMembers;
    var b := Serialize(Member(t, i), vs[i]);
    FourBytes();
    NumberRoundTrip(offset, OFFSET_BYTES);
    NextIsOffset(t, vs, i + 1, offset + |b|);
    PrependVariable(t, i, |vs|, LittleEndian(offset, OFFSET_BYTES), Heads(t, vs, i + 1, offset + |b|),
                    b, Tails(t, vs, i + 1), offset);
  }

  /** A member of variable size in front of canonical members. */
  lemma PrependVariable(t: Type, i: nat, n: nat, o: seq<Byte>, heads: seq<Byte>, b: seq<Byte>, tails: seq<Byte>,
                        offset: nat)
    requires i < n && Indexes(t, n) && IsVariable(Member(t, i)) && |heads| == HeadLength(t, i + 1, n)
    requires |o| == OFFSET_BYTES && FromLittleEndian(o) == offset && Canonical(Member(t, i), b)
    requires NextOffset(t, i + 1, n, heads, offset + |b| + |tails|) == offset + |b|
    requires CanonicalMembers(t, i + 1, n, heads, tails, offset + |b|)
    ensures |o + heads| == HeadLength(t, i, n)
    ensures CanonicalMembers(t, i, n, o + heads, b + tails, offset)
  {
    hide FromLittleEndian, Canonical, NextOffset;
    Cut(o, heads);
    Cut(b, tails);
  }

  /** And the other way round: what comes off in front of canonical members. */
  lemma SplitVariable(t: Type, i: nat, n: nat, heads: seq<Byte>, tails: seq<Byte>, offset: nat) returns (size: nat)
    requires i < n && Indexes(t, n) && IsVariable(Member(t, i)) && |heads| == HeadLength(t, i, n)
    requires CanonicalMembers(t, i, n, heads, tails, offset)
    ensures |heads| == OFFSET_BYTES + HeadLength(t, i + 1, n) && size <= |tails|
    ensures heads[..OFFSET_BYTES] == LittleEndian(offset, OFFSET_BYTES)
    ensures Canonical(Member(t, i), tails[..size])
    ensures CanonicalMembers(t, i + 1, n, heads[OFFSET_BYTES..], tails[size..], offset + size)
  {
    hide LittleEndian, FromLittleEndian, Canonical, NextOffset;
    size := NextOffset(t, i + 1, n, heads[OFFSET_BYTES..], offset + |tails|) - offset;
    OffsetBytes(heads[..OFFSET_BYTES]);
  }

  lemma Cut(a: seq<Byte>, b: seq<Byte>)
    ensures (a + b)[..|a|] == a && (a + b)[|a|..] == b
  {}

  lemma {:induction false} NextIsOffset(t: Type, vs: seq<Value>, i: nat, offset: nat)
    requires HaveTypes(t, vs) && i <= |vs| && offset < TWO_TO_THE_32
    ensures |Heads(t, vs, i, offset)| == HeadLength(t, i, |vs|)
    ensures NextOffset(t, i, |vs|, Heads(t, vs, i, offset), offset + |Tails(t, vs, i)|) == offset
    decreases |vs| - i
  {
    hide Serialize, LittleEndian, FromLittleEndian;
    HeadsLength(t, vs, i, offset);
    if i < |vs| {
      var m := Member(t, i);
      if IsVariable(m) {
        FourBytes();
        NumberRoundTrip(offset, OFFSET_BYTES);
        Cut(LittleEndian(offset, OFFSET_BYTES), Heads(t, vs, i + 1, offset + |Serialize(m, vs[i])|));
      } else {
        FixedSizeIsLength(m, vs[i]);
        NextIsOffset(t, vs, i + 1, offset);
        Cut(Serialize(m, vs[i]), Heads(t, vs, i + 1, offset));
      }
    }
  }

  // ---- what is canonical was written ----

  /** The value a canonical string encodes. */
  lemma {:induction false} CanonicalIsWritten(t: Type, bs: seq<Byte>) returns (v: Value)
    requires Canonical(t, bs)
    ensures HasType(t, v) && Serialize(t, v) == bs
    decreases t, 1, 0
  {
    match t
    case Uint(w) =>
      v := Number(FromLittleEndian(bs));
      BytesRoundTrip(bs);
    case Bool => v := Flag(bs[0] == 1);
    case Bitvector(n) =>
      v := BitString(UnpackBits(bs, n));
      BitvectorBytes(bs, n);
    case Bitlist(_) =>
      v := BitString(BitlistOf(bs));
      BitlistBytesRoundTrip(bs);
    case _ =>
      var n :| CountFits(t, n) && CanonicalParts(t, n, bs);
      v := PartsAreWritten(t, n, bs);
  }

  lemma {:induction false} PartsAreWritten(t: Type, n: nat, bs: seq<Byte>) returns (v: Value)
    requires Composite(t) && CountFits(t, n) && CanonicalParts(t, n, bs)
    ensures HasType(t, v) && Serialize(t, v) == bs
    decreases t, 0, n + 1
  {
    hide CanonicalMembers;
    var h := HeadLength(t, 0, n);
    var vs := MembersAreWritten(t, n, [], bs[..h], bs[h..], h);
    v := Items(vs);
    assert bs == bs[..h] + bs[h..];
  }

  /** Extend the members read so far to all of them. */
  lemma {:induction false} MembersAreWritten(t: Type, n: nat, done: seq<Value>, heads: seq<Byte>, tails: seq<Byte>,
                                             offset: nat) returns (vs: seq<Value>)
    requires HaveTypes(t, done) && |done| <= n && Indexes(t, n) && |heads| == HeadLength(t, |done|, n)
    requires CanonicalMembers(t, |done|, n, heads, tails, offset)
    ensures |vs| == n && done <= vs && HaveTypes(t, vs)
    ensures Heads(t, vs, |done|, offset) == heads && Tails(t, vs, |done|) == tails
    decreases t, 0, n - |done|
  {
    hide Serialize, LittleEndian, Canonical, HasType, HaveTypes, NextOffset, CanonicalMembers;
    var i := |done|;
    if i == n {
      vs := done;
      NothingLeft(t, n, heads, tails, offset);
    } else {
      var m := Member(t, i);
      if IsVariable(m) {
        var size := SplitVariable(t, i, n, heads, tails, offset);
        var v := CanonicalIsWritten(m, tails[..size]);
        OneMoreMember(t, n, done, v);
        vs := MembersAreWritten(t, n, done + [v], heads[OFFSET_BYTES..], tails[size..], offset + size);
        Extends(done, v, vs);
        Rejoin(heads, OFFSET_BYTES);
        Rejoin(tails, size);
      } else {
        var size := HeadSize(m);
        SplitFixed(t, i, n, heads, tails, offset);
        var v := CanonicalIsWritten(m, heads[..size]);
        OneMoreMember(t, n, done, v);
        vs := MembersAreWritten(t, n, done + [v], heads[size..], tails, offset);
        Extends(done, v, vs);
        Rejoin(heads, size);
      }
    }
  }

  lemma NothingLeft(t: Type, n: nat, heads: seq<Byte>, tails: seq<Byte>, offset: nat)
    requires Indexes(t, n) && |heads| == HeadLength(t, n, n) && CanonicalMembers(t, n, n, heads, tails, offset)
    ensures heads == [] && tails == []
  {}

  lemma SplitFixed(t: Type, i: nat, n: nat, heads: seq<Byte>, tails: seq<Byte>, offset: nat)
    requires i < n && Indexes(t, n) && !IsVariable(Member(t, i)) && |heads| == HeadLength(t, i, n)
    requires CanonicalMembers(t, i, n, heads, tails, offset)
    ensures |heads| == HeadSize(Member(t, i)) + HeadLength(t, i + 1, n)
    ensures Canonical(Member(t, i), heads[..HeadSize(Member(t, i))])
    ensures CanonicalMembers(t, i + 1, n, heads[HeadSize(Member(t, i))..], tails, offset)
  {
    hide Canonical, NextOffset;
  }

  lemma OneMoreMember(t: Type, n: nat, done: seq<Value>, v: Value)
    requires HaveTypes(t, done) && |done| < n && Indexes(t, n) && HasType(Member(t, |done|), v)
    ensures HaveTypes(t, done + [v])
  {
    hide HasType;
  }

  lemma Extends<T>(done: seq<T>, x: T, all: seq<T>)
    requires done + [x] <= all
    ensures done <= all && all[|done|] == x
  {
    assert all[|done|] == (done + [x])[|done|];
  }

  lemma Rejoin<T>(s: seq<T>, n: nat)
    requires n <= |s|
    ensures s == s[..n] + s[n..]
  {}

  lemma OffsetBytes(o: seq<Byte>)
    requires |o| == OFFSET_BYTES
    ensures LittleEndian(FromLittleEndian(o), OFFSET_BYTES) == o
  {
    BytesRoundTrip(o);
  }

  // ---- the bijection ----

  /** The canonical strings are the encodings, of one value each. */
  lemma CanonicalIffWritten(t: Type, bs: seq<Byte>)
    requires WellFormed(t) && |bs| < TWO_TO_THE_32
    ensures Canonical(t, bs) <==> exists v :: HasType(t, v) && Serialize(t, v) == bs
    ensures forall v, w :: HasType(t, v) && HasType(t, w) && Serialize(t, v) == bs == Serialize(t, w) ==> v == w
  {
    if Canonical(t, bs) {
      var v := CanonicalIsWritten(t, bs);
    }
    forall v | HasType(t, v) && Serialize(t, v) == bs
      ensures Canonical(t, bs)
    {
      WrittenIsCanonical(t, v);
    }
    forall v, w | HasType(t, v) && HasType(t, w) && Serialize(t, v) == bs == Serialize(t, w)
      ensures v == w
    {
      SerializeInjective(t, v, w);
    }
  }

  /**
   Reading a canonical string and writing the result gives the string back if all bitlists found in it are below the
   guard; otherwise the reader throws.
   */
  lemma ReadThenWrite(t: Type, bs: seq<Byte>)
    requires WellFormed(t) && Canonical(t, bs) && |bs| < TWO_TO_THE_32
    ensures var r := Read(t, bs, true);
      if GuardsFit(t, bs) then r.Ok? && HasType(t, r.value) && Serialize(t, r.value) == bs && Readable(t, r.value)
      else r == Err(OutOfRange) && exists v :: HasType(t, v) && Serialize(t, v) == bs && !Readable(t, v)
  {
    hide Read, Canonical, GuardsFit;
    var v := CanonicalIsWritten(t, bs);
    RoundTrip(t, v, false);
    RoundTrip(t, v, true);
    GuardThrowsIff(t, bs);
  }

  /** Bytes that read, with counts within the limits, are written back as they were exactly when they are canonical. */
  lemma WrittenBackIff(t: Type, bs: seq<Byte>)
    requires WellFormed(t) && |bs| < TWO_TO_THE_32 && Read(t, bs, true).Ok? && CountsFit(t, bs)
    ensures HasType(t, Read(t, bs, true).value)
    ensures Serialize(t, Read(t, bs, true).value) == bs <==> Canonical(t, bs)
  {
    hide Read, Serialize, Canonical, GuardsFit;
    ReadIsTyped(t, bs);
    if Canonical(t, bs) { ReadThenWrite(t, bs); }
    if Serialize(t, Read(t, bs, true).value) == bs { WrittenIsCanonical(t, Read(t, bs, true).value); }
  }

  /** The reader accepts other strings, too: bits in the padding of a bitvector... */
  lemma PaddingIsAccepted()
    ensures var t, v := Bitvector(1), BitString([false]);
      Read(t, [2], true) == Ok(v) && HasType(t, v) && Serialize(t, v) == [0] && !Canonical(t, [2])
  {
    var bits := UnpackBits([2], 1);
    assert bits == [false];
    assert PackBits([false]) == [0] by {
      assert Group([false], 0) == [false];
      assert BitsToNat([false]) == 0 by { assert [false][1..] == []; }
    }
    assert Pow2(1) == 2;
  }

  /** ...and bytes behind the last member of a container. */
  lemma TrailingBytesAreAccepted()
    ensures var t, v := Container([Uint(1)]), Items([Number(5)]);
      && WellFormed(t) && Read(t, [5, 9], true) == Ok(v) && HasType(t, v)
      && Serialize(t, v) == [5] && !Canonical(t, [5, 9])
  {
    var t, v, bs: seq<Byte> := Container([Uint(1)]), Items([Number(5)]), [5, 9];
    assert WellFormed(t) by { assert WellFormed(t.fields[0]); }
    FiveIsRead(t, bs);
    FiveIsWritten(t, v);
    WrittenBackIff(t, bs);
  }

  lemma FiveIsRead(t: Type, bs: seq<Byte>)
    requires WellFormed(t) && t == Container([Uint(1)]) && bs == [5, 9]
    ensures Read(t, bs, true) == Ok(Items([Number(5)]))
  {
    assert Read(Uint(1), bs[..1], true) == Ok(Number(5)) by {
      assert bs[..1] == [5] && bs[..1][..1] == [5];
      assert FromLittleEndian([5]) == 5 + 256 * FromLittleEndian([]);
    }
    assert ReadHeads(t, 1, bs[1..], true) == Ok(([], []));
    assert ReadHeads(t, 0, bs, true) == Ok(([Some(Number(5))] + [], []));
    assert [Some(Number(5))] + [] == [Some(Number(5))] && [Some(Number(5))][1..] == [];
    assert ReadTails(t, 0, [Some(Number(5))], bs, [], true) == Ok([Number(5)] + []);
    assert [Number(5)] + [] == [Number(5)];
  }

  lemma FiveIsWritten(t: Type, v: Value)
    requires t == Container([Uint(1)]) && v == Items([Number(5)])
    ensures HasType(t, v) && Serialize(t, v) == [5]
  {
    assert HasType(Uint(1), Number(5));
    assert HaveTypes(t, v.items);
    assert LittleEndian(5, 1) == [5] + LittleEndian(0, 0);
    assert Heads(t, v.items, 1, 1) == [] && Tails(t, v.items, 1) == [];
    assert HeadLength(t, 0, 1) == 1;
    assert Heads(t, v.items, 0, 1) == Serialize(Uint(1), Number(5)) + [];
    assert Tails(t, v.items, 0) == [];
  }
}
