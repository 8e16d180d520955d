/** Facts about sequences of any element type, used where a proof would
    otherwise compare the elements themselves (strings, filters). */
module Seqs {

  /** A non-empty sequence is its front followed by its last element. */
  lemma SplitLast<T>(s: seq<T>)
    requires s != []
    ensures s == s[..|s| - 1] + [s[|s| - 1]]
  {
  }

  /** A prefix of a concatenation, cut inside the first part or past it. */
  lemma PrefixOfConcat<T>(xs: seq<T>, ys: seq<T>, n: nat)
    requires n <= |xs| + |ys|
    ensures n <= |xs| ==> (xs + ys)[..n] == xs[..n]
    ensures n >= |xs| ==> (xs + ys)[..n] == xs + ys[..n - |xs|]
  {
    if n <= |xs| {
      assert forall i :: 0 <= i < n ==> (xs + ys)[..n][i] == xs[..n][i];
    }
    if n >= |xs| {
      assert forall i :: 0 <= i < n ==> (xs + ys)[..n][i] == (xs + ys[..n - |xs|])[i];
    }
  }
}
