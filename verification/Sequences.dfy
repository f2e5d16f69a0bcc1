/** Sequences without repetition. */
module Sequences {

  ghost predicate Distinct<T>(s: seq<T>) {
    forall i, j :: 0 <= i < j < |s| ==> s[i] != s[j]
  }

  lemma DistinctAppend<T>(left: seq<T>, right: seq<T>)
    requires Distinct(left) && Distinct(right) && forall x :: x in left ==> x !in right
    ensures Distinct(left + right)
  {
    var s := left + right;
    forall i, j | 0 <= i < j < |s| ensures s[i] != s[j] {
      if i < |left| <= j {
        assert s[i] in left && s[j] == right[j - |left|];
      }
    }
  }
}
