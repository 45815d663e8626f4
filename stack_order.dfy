/**
 * The order in which a stack gives its elements back. Both stack templates
 * store their elements bottom first, so the elements that successive
 * top-then-pop rounds yield are the stored sequence read from its end.
 */
module StackOrder {

  /** The sequence s read from its last element to its first. */
  function Reversed<T>(s: seq<T>): (r: seq<T>)
    ensures |r| == |s|
    decreases |s|
  {
    if s == [] then [] else [s[|s| - 1]] + Reversed(s[..|s| - 1])
  }

  /** The k-th element handed back is the k-th from the top. */
  lemma {:induction false} ReversedAt<T>(s: seq<T>, k: nat)
    requires k < |s|
    ensures Reversed(s)[k] == s[|s| - 1 - k]
    decreases |s|
  {
    if k > 0 {
      ReversedAt(s[..|s| - 1], k - 1);
    }
  }
}
