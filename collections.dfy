/** Kotlin's `any` and `filter` over lists, used by the service-level queries. */
module Collections {
  /** `any`: some element satisfies f. */
  function Any<T>(xs: seq<T>, f: T -> bool): (b: bool)
    ensures b <==> exists i | 0 <= i < |xs| :: f(xs[i])
  {
    if xs == [] then false
    else
      assert forall i | 0 <= i < |xs| - 1 :: xs[..|xs| - 1][i] == xs[i];
      Any(xs[..|xs| - 1], f) || f(xs[|xs| - 1])
  }

  /** `filter`: the elements satisfying f, in their original order. */
  function Filter<T(!new)>(xs: seq<T>, f: T -> bool): (r: seq<T>)
    ensures |r| <= |xs|
    ensures forall x :: x in r <==> x in xs && f(x)
  {
    if xs == [] then []
    else
      var init := xs[..|xs| - 1];
      assert xs == init + [xs[|xs| - 1]];
      Filter(init, f) + (if f(xs[|xs| - 1]) then [xs[|xs| - 1]] else [])
  }
}
