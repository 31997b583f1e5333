/** Order facts shared by the filters of the widget. */
module Sequences {
  /** `a` is `b` with some elements left out, the rest in their order. */
  predicate IsSubsequence<T(==)>(a: seq<T>, b: seq<T>)
    decreases |b|
  {
    if a == [] then true
    else if b == [] then false
    else (a[0] == b[0] && IsSubsequence(a[1..], b[1..])) || IsSubsequence(a, b[1..])
  }

  /** Keeping or dropping a leading element preserves being a subsequence. */
  lemma SubsequenceCons<T>(a: seq<T>, b: seq<T>, x: T, keep: bool)
    requires IsSubsequence(a, b)
    ensures IsSubsequence(if keep then [x] + a else a, [x] + b)
  {
    var c := [x] + b;
    assert c[1..] == b;
    if keep {
      assert ([x] + a)[1..] == a;
    }
  }
}
