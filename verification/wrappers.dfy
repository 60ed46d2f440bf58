/** Optional values, the counterpart of Swift's `T?`. */
module Wrappers {

  /** `None` is Swift's `nil`; `Some(v)` a present value. */
  datatype Option<+T> = None | Some(value: T) {

    /** The value, or `default` when absent (Swift's `??`). */
    function GetOr(default: T): T {
      match this
      case Some(v) => v
      case None => default
    }
  }

  /** Swift's `compactMap`: keep the present values, in order. */
  function CompactMap<T>(xs: seq<Option<T>>): (r: seq<T>)
    ensures |r| <= |xs|
    ensures forall x :: x in r ==> Some(x) in xs
    ensures forall i :: 0 <= i < |xs| && xs[i].Some? ==> xs[i].value in r
  {
    if |xs| == 0 then []
    else
      var rest := CompactMap(xs[1..]);
      assert forall i :: 1 <= i < |xs| ==> xs[i] == xs[1..][i - 1];
      match xs[0]
      case Some(v) => [v] + rest
      case None => rest
  }

  /** Swift's `first(where:)`: the index of the first element satisfying `p`. */
  function FirstIndex<T>(xs: seq<T>, p: T -> bool): (r: Option<nat>)
    ensures r.Some? ==> r.value < |xs| && p(xs[r.value])
    ensures r.Some? ==> forall j :: 0 <= j < r.value ==> !p(xs[j])
    ensures r.None? ==> forall j :: 0 <= j < |xs| ==> !p(xs[j])
  {
    if |xs| == 0 then None
    else if p(xs[0]) then Some(0)
    else
      match FirstIndex(xs[1..], p)
      case Some(k) => Some(k + 1)
      case None => None
  }

  /** When every element is present, `CompactMap` keeps them all, in order. */
  lemma {:induction false} CompactMapAllSome<T>(xs: seq<Option<T>>)
    requires forall i :: 0 <= i < |xs| ==> xs[i].Some?
    ensures |CompactMap(xs)| == |xs|
    ensures forall i :: 0 <= i < |xs| ==> CompactMap(xs)[i] == xs[i].value
  {
    if |xs| > 0 {
      CompactMapAllSome(xs[1..]);
    }
  }

  /** `compactMap` works piece by piece: the present values of a concatenation
      are those of the first part followed by those of the second. */
  lemma {:induction false} CompactMapAppend<T>(a: seq<Option<T>>, b: seq<Option<T>>)
    ensures CompactMap(a + b) == CompactMap(a) + CompactMap(b)
    decreases |a|
  {
    if |a| == 0 {
      assert a + b == b;
    } else {
      assert (a + b)[1..] == a[1..] + b;
      CompactMapAppend(a[1..], b);
    }
  }
}
