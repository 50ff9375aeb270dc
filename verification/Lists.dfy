/** Lists put end to end, as the context does with what its proactors hold. */
module Lists {

  function Concat<T>(lists: seq<seq<T>>): seq<T> {
    if lists == [] then [] else Concat(lists[..|lists| - 1]) + lists[|lists| - 1]
  }

  lemma ConcatSnoc<T>(lists: seq<seq<T>>, i: nat)
    requires i < |lists|
    ensures Concat(lists[..i + 1]) == Concat(lists[..i]) + lists[i]
  {
    assert lists[..i + 1][..i] == lists[..i];
  }

  lemma ConcatEmpty<T>()
    ensures Concat<T>([]) == []
  {}
}
