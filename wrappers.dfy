/** Small value wrappers and sequence helpers shared by the model. */
module Wrappers {

  /** A value that may be absent (a median of an empty planet, say). */
  datatype Option<+T> = None | Some(value: T)

  /** The success or the error of one step of ingestion. */
  datatype Outcome<+E> = Pass | Fail(error: E)
}

module Seqs {

  /** `s` without its element at index `k`: what popping the top of a queue leaves behind. */
  function RemoveAt<T>(s: seq<T>, k: nat): (r: seq<T>)
    requires k < |s|
    ensures |r| == |s| - 1
    ensures forall i :: 0 <= i < k ==> r[i] == s[i]
    ensures forall i :: k <= i < |r| ==> r[i] == s[i + 1]
  {
    s[..k] + s[k + 1..]
  }

  /** Removing the element at `k` removes exactly one copy of it and nothing else. */
  lemma RemoveAtValues<T>(s: seq<T>, k: nat)
    requires k < |s|
    ensures multiset(RemoveAt(s, k)) == multiset(s) - multiset{s[k]}
    ensures forall x :: x in RemoveAt(s, k) ==> x in s
  {
    assert s == s[..k] + [s[k]] + s[k + 1..];
  }
}
