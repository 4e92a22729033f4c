/** Small pieces shared by every module. */
module Common {

  datatype Option<+T> = None | Some(value: T)

  /** No element occurs twice. */
  ghost predicate NoDuplicates<T>(s: seq<T>) {
    forall i, j | 0 <= i < j < |s| :: s[i] != s[j]
  }

  lemma DistinctSeqCardinality<T>(s: seq<T>, bound: set<T>)
    requires NoDuplicates(s)
    requires forall x | x in s :: x in bound
    ensures |s| <= |bound|
    decreases |s|
  {
    if s == [] {
    } else {
      var x := s[|s| - 1];
      assert forall y | y in s[..|s| - 1] :: y in bound - {x};
      DistinctSeqCardinality(s[..|s| - 1], bound - {x});
    }
  }
}
