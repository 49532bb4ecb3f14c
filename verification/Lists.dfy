/** Repetition-free lists of indices. */
module Lists {

  predicate Distinct(p: seq<nat>) {
    forall i, j :: 0 <= i < j < |p| ==> p[i] != p[j]
  }

  ghost function Below(n: nat): (r: set<nat>)
    ensures |r| == n && forall s: nat :: s in r <==> s < n
  {
    if n == 0 then {} else Below(n - 1) + {n - 1}
  }

  lemma {:induction false} DistinctBounded(p: seq<nat>, r: set<nat>)
    requires Distinct(p)
    requires forall i :: 0 <= i < |p| ==> p[i] in r
    ensures |p| <= |r|
  {
    if |p| > 0 {
      var last := |p| - 1;
      forall i | 0 <= i < last ensures p[..last][i] in r - {p[last]} {}
      DistinctBounded(p[..last], r - {p[last]});
    }
  }
}
