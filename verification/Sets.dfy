/** Facts about finite sets the protocols need. */
module Sets {

  lemma SubsetSize<T>(a: set<T>, b: set<T>)
    requires a <= b
    ensures |a| <= |b|
  {
    if a != {} {
      var x :| x in a;
      SubsetSize(a - {x}, b - {x});
    }
  }

  lemma RemovedCount<K, V>(m: map<K, V>, ids: set<K>)
    requires ids <= m.Keys
    ensures |ids| + |m - ids| == |m|
  {
    assert m.Keys == (m - ids).Keys + ids && (m - ids).Keys !! ids;
    assert |m| == |m.Keys| && |m - ids| == |(m - ids).Keys|;
  }

  /** Some number is not in use yet. */
  lemma Unused(s: set<nat>) returns (n: nat)
    ensures n !in s
  {
    n := 0;
    var below: set<nat> := {};
    assert forall x: nat :: x !in below;
    while n in s
      invariant below <= s && |below| == n
      invariant forall x: nat :: x in below <==> x < n
      decreases |s| - n
    {
      below := below + {n};
      SubsetSize(below, s);
      n := n + 1;
    }
  }
}
