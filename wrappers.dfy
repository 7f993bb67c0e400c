/** The optional value used for Python's `None`, and the present values of a sequence of them. */
module Wrappers {

  datatype Option<+T> = None | Some(value: T)

  /** The values of the `Some` entries of `xs`, in order. */
  function Somes<T>(xs: seq<Option<T>>): (r: seq<T>)
    ensures |r| <= |xs|
  {
    if xs == [] then []
    else
      var last := xs[|xs| - 1];
      Somes(xs[..|xs| - 1]) + if last.Some? then [last.value] else []
  }

  /** A value is among the present values exactly when some entry carries it. */
  lemma {:induction false} SomesMembers<T>(xs: seq<Option<T>>, x: T)
    ensures x in Somes(xs) <==> Some(x) in xs
  {
    if xs != [] {
      var init := xs[..|xs| - 1];
      SomesMembers(init, x);
      assert xs == init + [xs[|xs| - 1]];
    }
  }

  /** Appending an entry appends its value, if it has one. */
  lemma SomesAppend<T>(xs: seq<Option<T>>, y: Option<T>)
    ensures Somes(xs + [y]) == Somes(xs) + if y.Some? then [y.value] else []
  {
    assert (xs + [y])[..|xs|] == xs;
  }

  /** Every value of `xs` as a present entry. */
  function AllSome<T>(xs: seq<T>): (r: seq<Option<T>>)
    ensures |r| == |xs| && forall k :: 0 <= k < |xs| ==> r[k] == Some(xs[k])
  {
    seq(|xs|, k requires 0 <= k < |xs| => Some(xs[k]))
  }

  /** Entries that are all present give back their values. */
  lemma {:induction false} SomesAllSome<T>(xs: seq<T>)
    ensures Somes(AllSome(xs)) == xs
  {
    if xs != [] {
      var init := xs[..|xs| - 1];
      SomesAllSome(init);
      assert AllSome(xs)[..|xs| - 1] == AllSome(init);
    }
  }
}
