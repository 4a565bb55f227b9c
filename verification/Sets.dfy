module Sets {

  lemma SubsetCount<T>(a: set<T>, b: set<T>)
    requires a <= b
    ensures |a| <= |b|
    ensures |a| == |b| <==> a == b
  {
    assert |b - a| + |a| == |b| by {
      assert b == (b - a) + a;
    }
  }
}
