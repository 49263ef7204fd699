/**
 * Fisher-Yates shuffle as `rand`'s `SliceRandom::shuffle` performs it on a
 * slice of length n: for i from n-1 down to 1 it swaps position i with a
 * position j drawn uniformly from 0..=i.  The random draws are a parameter:
 * draws[k] is the j picked when i == n-1-k.
 */
module Shuffling {
  /** Draws that `shuffle` could make on a slice of length n. */
  predicate ValidDraws(n: nat, draws: seq<nat>)
  {
    |draws| == (if n == 0 then 0 else n - 1) &&
    forall k :: 0 <= k < |draws| ==> draws[k] <= n - 1 - k
  }

  method FisherYates<T>(s: seq<T>, draws: seq<nat>) returns (r: seq<T>)
    requires ValidDraws(|s|, draws)
    ensures |r| == |s|
    ensures multiset(r) == multiset(s)
  {
    r := s;
    var k := 0;
    while k < |draws|
      invariant 0 <= k <= |draws|
      invariant |r| == |s|
      invariant multiset(r) == multiset(s)
    {
      var i := |s| - 1 - k;
      var j := draws[k];
      r := r[i := r[j]][j := r[i]];
      k := k + 1;
    }
  }
}
