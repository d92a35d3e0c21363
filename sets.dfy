/** Cardinality facts about finite sets that several modules count with. */
module Sets {

  /** A subset is no larger, and a proper subset is strictly smaller. */
  lemma {:induction false} SubsetCardinality<T>(a: set<T>, b: set<T>)
    requires a <= b
    ensures |a| <= |b|
    ensures a < b ==> |a| < |b|
    decreases |b|
  {
    if b != {} {
      var x :| x in b;
      if x in a {
        SubsetCardinality(a - {x}, b - {x});
        if a < b {
          var y :| y in b && y !in a;
          assert y in b - {x} && y !in a - {x};
        }
      } else {
        SubsetCardinality(a, b - {x});
      }
    }
  }
}
