/** Sizes of finite sets. */
module Finite {

  lemma Fewer<T>(a: set<T>, b: set<T>)
    requires a <= b
    ensures |a| <= |b| && (a != b ==> |a| < |b|)
  {
    var rest := b - a;
    assert b == a + rest && |b| == |a| + |rest|;
    if rest == {} { assert a == b; }
  }
}
