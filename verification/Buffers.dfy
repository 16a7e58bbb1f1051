/** The vocabulary for writing into a buffer in place. */
module Buffers {
  /** `s` with the elements from `at` on overwritten by `data`: the whole effect of an in-place writer. */
  function Splice<T>(s: seq<T>, at: nat, data: seq<T>): (r: seq<T>)
    requires at + |data| <= |s|
    ensures |r| == |s|
  {
    s[..at] + data + s[at + |data|..]
  }

  lemma SpliceNothing<T>(s: seq<T>, at: nat)
    requires at <= |s|
    ensures Splice(s, at, []) == s
  {}

  lemma SpliceAppend<T>(s: seq<T>, at: nat, a: seq<T>, b: seq<T>)
    requires at + |a| + |b| <= |s|
    ensures Splice(s, at, a + b) == Splice(Splice(s, at, a), at + |a|, b)
  {}

  lemma SpliceOne<T>(s: seq<T>, at: nat, x: T, rest: seq<T>)
    requires at + 1 + |rest| <= |s|
    ensures Splice(s, at, [x] + rest) == Splice(s[at := x], at + 1, rest)
  {}

  lemma SpliceSnoc<T>(s: seq<T>, at: nat, done: seq<T>, x: T)
    requires at + |done| < |s|
    ensures Splice(s, at, done)[at + |done|] == s[at + |done|]
    ensures Splice(s, at, done + [x]) == Splice(s, at, done)[at + |done| := x]
  {}

  lemma SpliceUpdate<T>(s: seq<T>, at: nat, data: seq<T>, i: nat, x: T)
    requires at + |data| <= |s| && i < |data|
    ensures Splice(s, at, data)[at + i] == data[i]
    ensures Splice(s, at, data)[at + i := x] == Splice(s, at, data[i := x])
  {}

  lemma SpliceSame<T>(s: seq<T>, at: nat, n: nat)
    requires at + n <= |s|
    ensures Splice(s, at, s[at..at + n]) == s
  {}

  lemma SpliceRead<T>(s: seq<T>, at: nat, data: seq<T>)
    requires at + |data| <= |s|
    ensures Splice(s, at, data)[at..at + |data|] == data
  {}

  lemma SpliceWhole<T>(s: seq<T>, data: seq<T>)
    requires |data| == |s|
    ensures Splice(s, 0, data) == data
  {}

  /** std::copy into a buffer. */
  method Copy<T>(out: array<T>, at: nat, data: seq<T>)
    requires at + |data| <= out.Length
    modifies out
    ensures out[..] == Splice(old(out[..]), at, data)
  {
    for i := 0 to |data|
      invariant forall k :: 0 <= k < out.Length ==>
        out[k] == if at <= k < at + i then data[k - at] else old(out[k])
    {
      out[at + i] := data[i];
    }
    assert out[..] == Splice(old(out[..]), at, data);
  }
}
