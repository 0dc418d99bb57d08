/** Failure-compatible wrappers shared by the blog model, and the one
    "map a fallible step over a sequence" combinator every serialiser uses. */
module Wrappers {

  datatype Option<+T> = None | Some(value: T)

  /** The outcome of an operation that the source can abort by raising. */
  datatype Result<+T, +E> = Success(value: T) | Failure(error: E) {

    predicate IsFailure() {
      Failure?
    }

    function PropagateFailure<U>(): Result<U, E>
      requires Failure?
    {
      Failure(error)
    }

    function Extract(): T
      requires Success?
    {
      value
    }
  }

  /** No element occurs twice. */
  predicate Distinct<T(==)>(xs: seq<T>) {
    forall i, j :: 0 <= i < j < |xs| ==> xs[i] != xs[j]
  }

  /** Applies `f` to every element in order; the first failure aborts the
      whole traversal, as an exception raised inside a list comprehension does. */
  function MapAll<A, B, E>(xs: seq<A>, f: A -> Result<B, E>): (r: Result<seq<B>, E>)
    ensures r.Success? <==> forall i :: 0 <= i < |xs| ==> f(xs[i]).Success?
    ensures r.Success? ==> |r.value| == |xs|
    ensures r.Success? ==> forall i :: 0 <= i < |xs| ==> r.value[i] == f(xs[i]).value
    ensures r.Failure? ==> exists i :: 0 <= i < |xs| && f(xs[i]) == Failure(r.error)
  {
    if |xs| == 0 then Success([])
    else
      var head :- f(xs[0]);
      var tail :- MapAll(xs[1..], f);
      Success([head] + tail)
  }

  /** A successful traversal holds a value exactly when that value is the
      result of some element. */
  lemma MapAllMembers<A, B, E>(xs: seq<A>, f: A -> Result<B, E>)
    ensures MapAll(xs, f).Success? ==>
      forall y :: y in MapAll(xs, f).value <==> exists x :: x in xs && f(x) == Success(y)
  {
    if MapAll(xs, f).Success? {
      var ys := MapAll(xs, f).value;
      forall y | y in ys ensures exists x :: x in xs && f(x) == Success(y) {
        var k :| 0 <= k < |ys| && ys[k] == y;
        assert xs[k] in xs;
      }
      forall x | x in xs ensures f(x).value in ys {
        var k :| 0 <= k < |xs| && xs[k] == x;
        assert ys[k] == f(x).value;
      }
    }
  }
}
