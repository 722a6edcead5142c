/** Counting facts used by more than one module. */
module Counting {
  /** Distinct whole numbers between lo and hi number at most hi - lo + 1. */
  lemma {:induction false} DistinctInRange(xs: seq<int>, lo: int, hi: int)
    requires forall i, j :: 0 <= i < j < |xs| ==> xs[i] != xs[j]
    requires forall i :: 0 <= i < |xs| ==> lo <= xs[i] <= hi
    requires lo <= hi + 1
    ensures |xs| <= hi - lo + 1
    decreases hi - lo + 1
  {
    if xs != [] {
      assert lo <= xs[0] <= hi;
      if exists k :: 0 <= k < |xs| && xs[k] == hi {
        var k :| 0 <= k < |xs| && xs[k] == hi;
        var rest := xs[..k] + xs[k + 1..];
        forall i, j | 0 <= i < j < |rest| ensures rest[i] != rest[j] {
          assert rest[i] == xs[if i < k then i else i + 1];
          assert rest[j] == xs[if j < k then j else j + 1];
        }
        forall i | 0 <= i < |rest| ensures lo <= rest[i] <= hi - 1 {
          assert rest[i] == xs[if i < k then i else i + 1];
        }
        DistinctInRange(rest, lo, hi - 1);
      } else {
        DistinctInRange(xs, lo, hi - 1);
      }
    }
  }
}
