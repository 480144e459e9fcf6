/** Sequences as bags: taking out one element. */
module Bags {
  function Without<T>(xs: seq<T>, i: nat): seq<T>
    requires i < |xs|
  {
    xs[..i] + xs[i + 1..]
  }

  lemma WithoutMembers<T>(xs: seq<T>, i: nat, x: T)
    requires i < |xs|
    ensures x in xs <==> x == xs[i] || x in Without(xs, i)
  {
    if x in xs {
      var j :| 0 <= j < |xs| && xs[j] == x;
      if j < i {
        assert Without(xs, i)[j] == x;
      } else if j > i {
        assert Without(xs, i)[j - 1] == x;
      }
    }
  }
}
