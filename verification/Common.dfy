/** What several components share. */
module Common {
  datatype Option<+T> = None | Some(value: T)

  /** One more than the largest `uint`. */
  const UINT := 0x1_0000_0000

  ghost predicate Distinct(c: seq<nat>) {
    forall i, j :: 0 <= i < j < |c| ==> c[i] != c[j]
  }

  lemma SubsetSize(a: set<nat>, b: set<nat>)
    requires a <= b
    ensures |a| <= |b|
  {
    assert b == a + (b - a);
  }
}
