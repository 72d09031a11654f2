/** Optional values: the model's stand-in for the source's `T | null`. */
module Wrappers {

  datatype Option<+T> = None | Some(value: T)

  /** Elements of `s` counted as a multiset: each one occurs at most once. */
  ghost predicate Distinct<T(!new)>(s: seq<T>) {
    forall x :: multiset(s)[x] <= 1
  }

  /** Sequences with the same multiset of elements have the same members. */
  lemma SameMembers<T>(a: seq<T>, b: seq<T>)
    requires multiset(a) == multiset(b)
    ensures forall x :: x in a <==> x in b
  {
    forall x
      ensures x in a <==> x in b
    {
      assert x in a <==> x in multiset(a);
      assert x in b <==> x in multiset(b);
    }
  }
}
