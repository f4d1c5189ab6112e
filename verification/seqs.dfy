/** Generic facts about sequences that the generators' proofs rely on. */
module Seqs {

  lemma SameHeadAndTail<X>(a: seq<X>, b: seq<X>)
    requires a != [] && b != [] && a[0] == b[0] && a[1..] == b[1..]
    ensures a == b
  {
    assert a == [a[0]] + a[1..];
    assert b == [b[0]] + b[1..];
  }

  /** A slice split at `mid` is the two slices, one after the other. */
  lemma SplitSlice<X>(xs: seq<X>, lo: nat, mid: nat)
    requires lo <= mid <= |xs|
    ensures xs[lo..] == xs[lo..mid] + xs[mid..]
  {
  }

  /** The last element of a concatenation with a non-empty right part. */
  lemma LastOfAppend<X>(a: seq<X>, b: seq<X>)
    requires b != []
    ensures a + b != [] && (a + b)[|a + b| - 1] == b[|b| - 1]
  {
  }

  /** The head and tail of a concatenation whose left part is non-empty. */
  lemma TailOfAppend<X>(a: seq<X>, b: seq<X>)
    requires a != []
    ensures (a + b)[0] == a[0] && (a + b)[1..] == a[1..] + b
  {
  }
}
