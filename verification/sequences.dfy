/**
 * Facts about slicing and concatenation, each stated once so that the proofs that
 * fold over rule lists use them as equations instead of re-deriving them.
 */
module Sequences {
  /** The elements from position a up to b, listed one by one. The proofs that need
      it as the subsequence `s[a..b]` say so through SliceIsSubsequence. */
  function Slice<T>(s: seq<T>, a: nat, b: nat): seq<T>
    requires a <= b <= |s|
  {
    seq(b - a, i requires 0 <= i < b - a => s[a + i])
  }

  lemma SliceIsSubsequence<T>(s: seq<T>, a: nat, b: nat)
    requires a <= b <= |s|
    ensures Slice(s, a, b) == s[a..b]
  {
  }

  /** Dropping the last element of a concatenation with a non-empty right part. */
  lemma LastSplit<T>(a: seq<T>, b: seq<T>)
    requires b != []
    ensures (a + b)[..|a + b| - 1] == a + b[..|b| - 1]
    ensures (a + b)[|a + b| - 1] == b[|b| - 1]
  {
  }

  /** The first k elements of the first k + 1. */
  lemma PrefixOfPrefix<T>(s: seq<T>, k: nat)
    requires k < |s|
    ensures s[..k + 1][..k] == s[..k]
    ensures s[..k + 1][k] == s[k]
  {
  }

  /** A prefix of a prefix. */
  lemma TakeTake<T>(s: seq<T>, k: nat, m: nat)
    requires k <= m <= |s|
    ensures s[..m][..k] == s[..k]
    ensures forall i :: 0 <= i < m ==> s[..m][i] == s[i]
  {
  }

  /** A sequence cut around its element at k. */
  lemma CutAt<T>(s: seq<T>, k: nat)
    requires k < |s|
    ensures s == s[..k + 1] + s[k + 1..]
    ensures s[..k + 1] == s[..k] + [s[k]]
  {
  }

  lemma WholePrefix<T>(s: seq<T>)
    ensures s[..|s|] == s
  {
  }

  lemma AppendAssoc<T>(a: seq<T>, b: seq<T>, c: seq<T>)
    ensures a + b + c == a + (b + c)
  {
  }

  lemma AppendEmpty<T>(a: seq<T>)
    ensures a + [] == a
  {
  }
}
