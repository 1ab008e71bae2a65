/** Optional values and results with an error, used wherever the Python code
    returns None or raises, and the removal of a card from a hand. */
module Common {

  datatype Option<+T> = None | Some(value: T)

  datatype Result<+T, +E> = Success(value: T) | Failure(error: E)

  function Count<T(==)>(xs: seq<T>, x: T): nat
  {
    multiset(xs)[x]
  }

  /** The list without every copy of `c`; every other element stays in
      order. Both engines remove a played card from the hand this way. */
  function Without<T(==,!new)>(hand: seq<T>, c: T): (r: seq<T>)
    ensures forall x :: x in r <==> x in hand && x != c
    ensures |r| == |hand| - Count(hand, c)
    ensures c in hand ==> |r| < |hand|
  {
    if |hand| == 0 then []
    else
      var init := hand[..|hand| - 1];
      var last := hand[|hand| - 1];
      assert hand == init + [last];
      assert multiset(hand) == multiset(init) + multiset{last};
      Without(init, c) + (if last == c then [] else [last])
  }

  /** Removal keeps every copy of every other element and drops every
      copy of the removed one. */
  lemma {:induction false} WithoutCounts<T(!new)>(hand: seq<T>, c: T)
    ensures multiset(Without(hand, c)) == multiset(hand)[c := 0]
  {
    if |hand| > 0 {
      var init := hand[..|hand| - 1];
      var last := hand[|hand| - 1];
      assert hand == init + [last];
      WithoutCounts(init, c);
    }
  }

  /** Removal keeps order: a card added at the end of the list stays at
      the end of the result unless it is the removed one. */
  lemma WithoutSnoc<T(!new)>(hand: seq<T>, x: T, c: T)
    ensures Without(hand + [x], c) == Without(hand, c) + (if x == c then [] else [x])
  {
  }

}
