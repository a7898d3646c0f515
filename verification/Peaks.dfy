/** The highest value that a counter has had: the max_used fields of the three allocators. */
module Peaks {
  /** A running maximum. */
  function Peak(m: int, u: int): int {
    if u > m then u else m
  }

  /** `m` is the largest of the first `k + 1` values of `us`. */
  ghost predicate IsPeak(us: seq<int>, k: nat, m: int)
    requires k < |us|
  {
    (forall i :: 0 <= i <= k ==> us[i] <= m) && exists i :: 0 <= i <= k && us[i] == m
  }

  /** A step brings the maximum up to date, or leaves it alone while the value does not grow. */
  predicate Accounted(m: int, u: int, m': int, u': int) {
    m' == Peak(m, u') || (m' == m && u' <= u)
  }

  lemma {:induction false} RunningPeak(us: seq<int>, ms: seq<int>, k: nat)
    requires |us| == |ms| && k < |us| && ms[0] == us[0]
    requires forall a, b :: 0 <= a && b == a + 1 && b < |us| ==> Accounted(ms[a], us[a], ms[b], us[b])
    ensures IsPeak(us, k, ms[k])
  {
    if k > 0 {
      var a := k - 1;
      RunningPeak(us, ms, a);
      assert Accounted(ms[a], us[a], ms[k], us[k]);
      var i :| 0 <= i <= a && us[i] == ms[a];
      if ms[k] == ms[a] { assert us[i] == ms[k]; }
    }
  }
}
