/** Facts about sequences shared by the sorted lists of the model. */
module Sequences {

  /** Sequences with the same elements are empty together. */
  lemma SameElementsEmpty(a: seq<int>, b: seq<int>)
    requires (forall x :: x in a ==> x in b) && (forall x :: x in b ==> x in a)
    ensures a == [] <==> b == []
  {
    if a != [] {
      var x := a[0];
      assert x in a;
      assert x in b;
    }
    if b != [] {
      var x := b[0];
      assert x in b;
      assert x in a;
    }
  }

  /** Extending a sequence by one element keeps its elements. */
  lemma SnocKeeps<T>(a: seq<T>, x: T, i: nat)
    requires i < |a|
    ensures (a + [x])[i] == a[i]
  {
  }

}
