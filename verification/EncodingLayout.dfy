/** Where the members of a vector, list or container are found in its encoding. */
module EncodingLayout {
  import opened Bytes
  import opened Schema

  /** Length of the encodings of those of the members i to k - 1 that have variable size. */
  ghost function TailsLength(t: Type, vs: seq<Value>, i: nat, k: nat): nat
    requires HaveTypes(t, vs) && i <= k <= |vs|
    decreases k - i
  {
    if i == k then 0 else
      (if IsVariable(Member(t, i)) then |Serialize(Member(t, i), vs[i])| else 0) + TailsLength(t, vs, i + 1, k)
  }

  /** Behind all heads and the members of variable size that come first. */
  ghost function TailStart(t: Type, vs: seq<Value>, k: nat): nat
    requires HaveTypes(t, vs) && k <= |vs|
  {
    HeadLength(t, 0, |vs|) + TailsLength(t, vs, 0, k)
  }

  /** What is written as the head of a member whose tail, if it has one, starts at `offset`. */
  ghost function HeadOf(t: Type, v: Value, offset: nat): seq<Byte>
    requires HasType(t, v)
  {
    if IsVariable(t) then LittleEndian(offset, OFFSET_BYTES) else Serialize(t, v)
  }

  lemma HeadOfLength(t: Type, v: Value, offset: nat)
    requires HasType(t, v)
    ensures |HeadOf(t, v, offset)| == HeadSize(t)
  {
    hide Serialize, FixedSize;
    if !IsVariable(t) { FixedSizeIsLength(t, v); }
  }

  lemma HeadsFront(t: Type, vs: seq<Value>, i: nat, offset: nat)
    requires HaveTypes(t, vs) && i < |vs|
    ensures Heads(t, vs, i, offset)
         == HeadOf(Member(t, i), vs[i], offset) + Heads(t, vs, i + 1, offset + TailsLength(t, vs, i, i + 1))
  {
    hide Serialize, LittleEndian;
    assert TailsLength(t, vs, i + 1, i + 1) == 0;
  }

  /** `b` is found in `s` at `p`. */
  predicate FoundAt(s: seq<Byte>, p: nat, b: seq<Byte>)
  {
    p + |b| <= |s| && s[p..p + |b|] == b
  }

  lemma FoundInFront(a: seq<Byte>, b: seq<Byte>, p: nat, x: seq<Byte>)
    requires FoundAt(a, p, x)
    ensures FoundAt(a + b, p, x)
  {
    assert (a + b)[p..p + |x|] == a[p..p + |x|];
  }

  lemma FoundBehind(a: seq<Byte>, b: seq<Byte>, p: nat, x: seq<Byte>)
    requires FoundAt(b, p, x)
    ensures FoundAt(a + b, |a| + p, x)
  {
    assert (a + b)[|a| + p..|a| + p + |x|] == b[p..p + |x|];
  }

  lemma FoundFirst(a: seq<Byte>, b: seq<Byte>)
    ensures FoundAt(a + b, 0, a)
  {}

  lemma {:induction false} HeadFound(t: Type, vs: seq<Value>, i: nat, offset: nat, k: nat)
    requires HaveTypes(t, vs) && i <= k < |vs|
    ensures FoundAt(Heads(t, vs, i, offset), HeadLength(t, i, k),
                    HeadOf(Member(t, k), vs[k], offset + TailsLength(t, vs, i, k)))
    decreases k - i
  {
    hide Heads, HeadOf, Serialize, HeadSize, FoundAt;
    var front, next := HeadOf(Member(t, i), vs[i], offset), offset + TailsLength(t, vs, i, i + 1);
    HeadsFront(t, vs, i, offset);
    HeadOfLength(Member(t, i), vs[i], offset);
    if i == k {
      FoundFirst(front, Heads(t, vs, i + 1, next));
    } else {
      HeadFound(t, vs, i + 1, next, k);
      TailsLengthsAdd(t, vs, i, i + 1, k);
      FoundBehind(front, Heads(t, vs, i + 1, next), HeadLength(t, i + 1, k),
                  HeadOf(Member(t, k), vs[k], next + TailsLength(t, vs, i + 1, k)));
    }
  }

  lemma {:induction false} TailsLengthsAdd(t: Type, vs: seq<Value>, i: nat, j: nat, k: nat)
    requires HaveTypes(t, vs) && i <= j <= k <= |vs|
    ensures TailsLength(t, vs, i, k) == TailsLength(t, vs, i, j) + TailsLength(t, vs, j, k)
    decreases j - i
  {
    hide Serialize;
    if i < j { TailsLengthsAdd(t, vs, i + 1, j, k); }
  }

  lemma TailsFront(t: Type, vs: seq<Value>, i: nat)
    requires HaveTypes(t, vs) && i < |vs|
    ensures Tails(t, vs, i)
         == (if IsVariable(Member(t, i)) then Serialize(Member(t, i), vs[i]) else []) + Tails(t, vs, i + 1)
  {
    hide Serialize;
  }

  lemma {:induction false} TailFound(t: Type, vs: seq<Value>, i: nat, k: nat)
    requires HaveTypes(t, vs) && i <= k < |vs| && IsVariable(Member(t, k))
    ensures FoundAt(Tails(t, vs, i), TailsLength(t, vs, i, k), Serialize(Member(t, k), vs[k]))
    decreases k - i
  {
    hide Serialize, Tails, FoundAt;
    var front := if IsVariable(Member(t, i)) then Serialize(Member(t, i), vs[i]) else [];
    TailsFront(t, vs, i);
    if i == k {
      FoundFirst(front, Tails(t, vs, i + 1));
    } else {
      TailFound(t, vs, i + 1, k);
      FoundBehind(front, Tails(t, vs, i + 1), TailsLength(t, vs, i + 1, k), Serialize(Member(t, k), vs[k]));
    }
  }

  lemma {:induction false} TailsLengthIs(t: Type, vs: seq<Value>, i: nat)
    requires HaveTypes(t, vs) && i <= |vs|
    ensures |Tails(t, vs, i)| == TailsLength(t, vs, i, |vs|)
    decreases |vs| - i
  {
    hide Serialize;
    if i < |vs| { TailsLengthIs(t, vs, i + 1); }
  }

  /** The encoding of a composite value: all heads, then all tails. */
  lemma Layout(t: Type, v: Value)
    requires HasType(t, v) && Composite(t)
    ensures HaveTypes(t, v.items)
    ensures var h, bs := HeadLength(t, 0, |v.items|), Serialize(t, v);
      && h <= |bs| && bs == Heads(t, v.items, 0, h) + Tails(t, v.items, 0)
      && bs[..h] == Heads(t, v.items, 0, h) && bs[h..] == Tails(t, v.items, 0)
      && (v.items == [] ==> bs == [])
  {
    HeadsLength(t, v.items, 0, HeadLength(t, 0, |v.items|));
  }

  /** The encoding ends with the last tail. */
  lemma EncodingLength(t: Type, v: Value)
    requires HasType(t, v) && Composite(t)
    ensures HaveTypes(t, v.items) && |Serialize(t, v)| == TailStart(t, v.items, |v.items|)
  {
    hide Heads, Tails, HeadLength;
    HeadsLength(t, v.items, 0, HeadLength(t, 0, |v.items|));
    TailsLengthIs(t, v.items, 0);
  }

  /** `s` is what is written for these members, heads first. */
  ghost predicate Encodes(s: seq<Byte>, t: Type, vs: seq<Value>)
    requires HaveTypes(t, vs)
  {
    s == Heads(t, vs, 0, HeadLength(t, 0, |vs|)) + Tails(t, vs, 0)
  }

  lemma EncodesItems(t: Type, v: Value)
    requires HasType(t, v) && Composite(t)
    ensures v.Items? && HaveTypes(t, v.items) && Encodes(Serialize(t, v), t, v.items)
  {
    hide Heads, Tails, HeadLength;
  }

  /** The two parts, and what is found in each of them. */
  lemma FoundInParts(s: seq<Byte>, a: seq<Byte>, b: seq<Byte>, p: nat, x: seq<Byte>)
    requires s == a + b
    ensures FoundAt(a, p, x) ==> FoundAt(s, p, x)
    ensures FoundAt(b, p, x) ==> FoundAt(s, |a| + p, x)
  {
    hide FoundAt;
    if FoundAt(a, p, x) { FoundInFront(a, b, p, x); }
    if FoundAt(b, p, x) { FoundBehind(a, b, p, x); }
  }

  lemma EncodedParts(s: seq<Byte>, t: Type, vs: seq<Value>)
    requires HaveTypes(t, vs) && Encodes(s, t, vs)
    ensures var h := HeadLength(t, 0, |vs|); s == Heads(t, vs, 0, h) + Tails(t, vs, 0) && |Heads(t, vs, 0, h)| == h
  {
    hide Heads, Tails, HasType, IsVariable;
    HeadsLength(t, vs, 0, HeadLength(t, 0, |vs|));
  }

  /** Behind the heads of the members before it comes the head of member k. */
  lemma HeadAt(s: seq<Byte>, t: Type, vs: seq<Value>, k: nat)
    requires HaveTypes(t, vs) && Encodes(s, t, vs) && k < |vs|
    ensures FoundAt(s, HeadLength(t, 0, k), HeadOf(Member(t, k), vs[k], TailStart(t, vs, k)))
  {
    hide Encodes, Heads, Tails, HeadSize, HeadLength, HeadOf, TailsLength, FoundAt, HasType, IsVariable;
    var h := HeadLength(t, 0, |vs|);
    HeadFound(t, vs, 0, h, k);
    HeadInWhole(s, t, vs, HeadLength(t, 0, k), HeadOf(Member(t, k), vs[k], TailStart(t, vs, k)));
  }

  lemma HeadInWhole(s: seq<Byte>, t: Type, vs: seq<Value>, p: nat, x: seq<Byte>)
    requires HaveTypes(t, vs) && Encodes(s, t, vs) && FoundAt(Heads(t, vs, 0, HeadLength(t, 0, |vs|)), p, x)
    ensures FoundAt(s, p, x)
  {
    EncodedParts(s, t, vs);
    hide Heads, Tails, FoundAt, Encodes, HeadLength, HasType, IsVariable;
    FoundInParts(s, Heads(t, vs, 0, HeadLength(t, 0, |vs|)), Tails(t, vs, 0), p, x);
  }

  lemma TailInWhole(s: seq<Byte>, t: Type, vs: seq<Value>, p: nat, x: seq<Byte>)
    requires HaveTypes(t, vs) && Encodes(s, t, vs) && FoundAt(Tails(t, vs, 0), p, x)
    ensures FoundAt(s, HeadLength(t, 0, |vs|) + p, x)
  {
    EncodedParts(s, t, vs);
    hide Heads, Tails, FoundAt, Encodes, HeadLength, HasType, IsVariable;
    FoundInParts(s, Heads(t, vs, 0, HeadLength(t, 0, |vs|)), Tails(t, vs, 0), p, x);
  }

  /** Where it starts it is. */
  lemma TailAt(s: seq<Byte>, t: Type, vs: seq<Value>, k: nat)
    requires HaveTypes(t, vs) && Encodes(s, t, vs) && k < |vs| && IsVariable(Member(t, k))
    ensures FoundAt(s, TailStart(t, vs, k), Serialize(Member(t, k), vs[k]))
  {
    hide Encodes, Heads, Tails, HeadLength, Serialize, TailsLength, FoundAt, HasType, IsVariable;
    TailFound(t, vs, 0, k);
    TailInWhole(s, t, vs, TailsLength(t, vs, 0, k), Serialize(Member(t, k), vs[k]));
  }

  /** Where the members of a value are found in its encoding: all heads in order, then all tails, without gaps. */
  lemma MembersFound(t: Type, v: Value)
    requires HasType(t, v) && Composite(t)
    ensures v.Items? && HaveTypes(t, v.items)
    ensures forall k :: 0 <= k < |v.items| ==>
      FoundAt(Serialize(t, v), HeadLength(t, 0, k),
              if IsVariable(Member(t, k)) then LittleEndian(TailStart(t, v.items, k), OFFSET_BYTES)
              else Serialize(Member(t, k), v.items[k]))
    ensures forall k :: 0 <= k < |v.items| && IsVariable(Member(t, k)) ==>
      FoundAt(Serialize(t, v), TailStart(t, v.items, k), Serialize(Member(t, k), v.items[k]))
    ensures |Serialize(t, v)| == TailStart(t, v.items, |v.items|)
  {
    hide Serialize, FoundAt, Encodes, HeadLength, LittleEndian, HasType, TailStart;
    EncodesItems(t, v);
    EncodingLength(t, v);
    forall k | 0 <= k < |v.items|
      ensures FoundAt(Serialize(t, v), HeadLength(t, 0, k),
                      if IsVariable(Member(t, k)) then LittleEndian(TailStart(t, v.items, k), OFFSET_BYTES)
                      else Serialize(Member(t, k), v.items[k]))
    {
      HeadAt(Serialize(t, v), t, v.items, k);
    }
    forall k | 0 <= k < |v.items| && IsVariable(Member(t, k))
      ensures FoundAt(Serialize(t, v), TailStart(t, v.items, k), Serialize(Member(t, k), v.items[k]))
    {
      TailAt(Serialize(t, v), t, v.items, k);
    }
  }
}
