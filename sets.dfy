/** Facts about finite sets of names shared by the table and file models. */
module Sets {

  /** A subset has no more elements than the set containing it. */
  lemma SubsetCard<T>(a: set<T>, b: set<T>)
    requires a <= b
    ensures |a| <= |b|
  {
    assert b == a + (b - a);
  }
}
