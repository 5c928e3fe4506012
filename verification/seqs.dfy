/** Order relations between sequences, shared by the filters of the model. */
module Seqs {
  /** `a` is `b` with some elements removed, order kept. */
  predicate Subsequence<T(==)>(a: seq<T>, b: seq<T>)
    decreases |b|
  {
    a == [] || (b != [] && ((a[0] == b[0] && Subsequence(a[1..], b[1..])) || Subsequence(a, b[1..])))
  }

  /** A common first element extends a subsequence. */
  lemma SubsequenceKeep<T>(x: T, a: seq<T>, b: seq<T>)
    requires Subsequence(a, b)
    ensures Subsequence([x] + a, [x] + b)
  {
    assert ([x] + a)[1..] == a && ([x] + b)[1..] == b;
  }

  /** An extra first element of the longer sequence keeps a subsequence. */
  lemma SubsequenceSkip<T>(x: T, a: seq<T>, b: seq<T>)
    requires Subsequence(a, b)
    ensures Subsequence(a, [x] + b)
  {
    assert ([x] + b)[1..] == b;
  }

  /** Every prefix of a subsequence is a subsequence. */
  lemma {:induction false} SubsequencePrefix<T>(a: seq<T>, b: seq<T>, k: nat)
    requires Subsequence(a, b) && k <= |a|
    ensures Subsequence(a[..k], b)
    decreases |b|
  {
    if k > 0 {
      assert [b[0]] + b[1..] == b;
      if a[0] == b[0] && Subsequence(a[1..], b[1..]) {
        SubsequencePrefix(a[1..], b[1..], k - 1);
        assert a[..k] == [b[0]] + a[1..][..k - 1];
        SubsequenceKeep(b[0], a[1..][..k - 1], b[1..]);
      } else {
        SubsequencePrefix(a, b[1..], k);
        SubsequenceSkip(b[0], a[..k], b[1..]);
      }
    }
  }
}
