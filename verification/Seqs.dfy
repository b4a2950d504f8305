/** Sequences without repetition. */
module Seqs {

  predicate Distinct<T(==)>(s: seq<T>) {
    forall i, j :: 0 <= i < j < |s| ==> s[i] != s[j]
  }

  /** Distinct numbers below n: there are at most n. */
  lemma {:induction false} Pigeons(q: seq<nat>, n: nat)
    requires Distinct(q) && forall i :: 0 <= i < |q| ==> q[i] < n
    ensures |q| <= n
    decreases n
  {
    if |q| > 0 {
      assert q[0] < n;
      if n - 1 in q {
        var k :| 0 <= k < |q| && q[k] == n - 1;
        var r := q[..k] + q[k + 1..];
        assert forall i :: 0 <= i < |r| ==> r[i] == q[if i < k then i else i + 1];
        Pigeons(r, n - 1);
      } else {
        forall i | 0 <= i < |q| ensures q[i] < n - 1 { assert q[i] in q; }
        Pigeons(q, n - 1);
      }
    }
  }
}
