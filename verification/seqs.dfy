/** Prefixes and suffixes of sequences, shared by the resolution trace, the
    stream of messages and the error messages. */
module Seqs {

  /** `a` is an initial segment of `b`. */
  predicate IsPrefix<T(==)>(a: seq<T>, b: seq<T>) {
    |a| <= |b| && a == b[..|a|]
  }

  /** `a` is a final segment of `b`. */
  predicate IsSuffix<T(==)>(a: seq<T>, b: seq<T>) {
    |a| <= |b| && a == b[|b| - |a|..]
  }

  /** A sequence is a prefix of itself followed by anything. */
  lemma PrefixOfConcat<T>(a: seq<T>, b: seq<T>)
    ensures IsPrefix(a, a + b)
  {
    assert (a + b)[..|a|] == a;
  }

  /** Putting the same elements in front keeps a prefix a prefix. */
  lemma PrefixExtends<T>(a: seq<T>, p: seq<T>, b: seq<T>)
    ensures IsPrefix(p, b) ==> IsPrefix(a + p, a + b)
  {
  }

  /** A sequence is a suffix of anything followed by it. */
  lemma SuffixOfConcat<T>(a: seq<T>, b: seq<T>)
    ensures IsSuffix(b, a + b)
  {
    assert (a + b)[|a|..] == b;
  }

  /** A suffix of a suffix is a suffix. */
  lemma SuffixTransitive<T>(a: seq<T>, b: seq<T>, c: seq<T>)
    requires IsSuffix(a, b) && IsSuffix(b, c)
    ensures IsSuffix(a, c)
  {
    assert c[|c| - |a|..] == c[|c| - |b|..][|b| - |a|..];
  }

  /** Two prefixes of one sequence: the shorter is a prefix of the longer. */
  lemma PrefixesOfOneSequence<T>(a: seq<T>, b: seq<T>, c: seq<T>)
    requires IsPrefix(a, c) && IsPrefix(b, c) && |a| <= |b|
    ensures IsPrefix(a, b)
  {
    assert b[..|a|] == c[..|b|][..|a|];
  }
}
