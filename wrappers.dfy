/** Option and Result, used wherever the source returns None or raises. */
module Wrappers {

  datatype Option<+T> = None | Some(value: T) {
    function GetOr(default: T): T {
      match this
      case Some(v) => v
      case None => default
    }
  }

  datatype Result<+R, +E> = Success(value: R) | Failure(error: E)

  /** Python's `min` and `max` on two integers. */
  function MinInt(a: int, b: int): int {
    if a <= b then a else b
  }

  function MaxInt(a: int, b: int): int {
    if a >= b then a else b
  }

  /** `[y for x in xs if (y := f(x)) is not None]`: the elements that yield a value, in order. */
  function Collect<A, B>(xs: seq<A>, f: A -> Option<B>): seq<B>
    decreases |xs|
  {
    if xs == [] then []
    else
      Collect(xs[..|xs| - 1], f)
        + match f(xs[|xs| - 1])
          case Some(y) => [y]
          case None => []
  }

  /** What comes out is what the elements yield: no more than the elements, nothing invented, nothing lost. */
  lemma {:induction false} CollectMembers<A, B>(xs: seq<A>, f: A -> Option<B>)
    ensures |Collect(xs, f)| <= |xs|
    ensures forall y :: y in Collect(xs, f) ==> exists j :: 0 <= j < |xs| && f(xs[j]) == Some(y)
    ensures forall j :: 0 <= j < |xs| && f(xs[j]).Some? ==> f(xs[j]).value in Collect(xs, f)
    decreases |xs|
  {
    if xs != [] {
      var init := xs[..|xs| - 1];
      CollectMembers(init, f);
      assert forall j :: 0 <= j < |init| ==> init[j] == xs[j];
    }
  }

  /** Collecting a concatenation collects each part in turn. */
  lemma {:induction false} CollectAppend<A, B>(xs: seq<A>, ys: seq<A>, f: A -> Option<B>)
    ensures Collect(xs + ys, f) == Collect(xs, f) + Collect(ys, f)
    decreases |ys|
  {
    if ys == [] {
      assert xs + ys == xs;
    } else {
      var init := ys[..|ys| - 1];
      assert (xs + ys)[..|xs + ys| - 1] == xs + init;
      assert (xs + ys)[|xs + ys| - 1] == ys[|ys| - 1];
      CollectAppend(xs, init, f);
    }
  }

  /** Collecting one more element appends what it yields. */
  lemma CollectSnoc<A, B>(xs: seq<A>, j: nat, f: A -> Option<B>)
    requires j < |xs|
    ensures Collect(xs[..j + 1], f) == Collect(xs[..j], f) + (if f(xs[j]).Some? then [f(xs[j]).value] else [])
  {
    assert xs[..j + 1][..j] == xs[..j];
  }
}
