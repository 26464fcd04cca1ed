/** Optional values, and results that carry the exception the Python code
    would raise instead of a value. */
module Outcomes {

  datatype Option<+T> = None | Some(value: T)

  /** The exceptions the modelled code can raise. */
  datatype Error =
    | ValueError(text: string)   // `float(text)` rejected its argument
    | KeyError(key: string)      // a dictionary subscript with a missing key
    | TypeError(message: string) // a call with the wrong number of arguments
    | AttributeError(name: string) // a method called on a value that lacks it

  datatype Result<+T> = Success(value: T) | Failure(error: Error) {
    predicate IsFailure()
    {
      Failure?
    }

    function PropagateFailure<U>(): Result<U>
      requires Failure?
    {
      Failure(error)
    }

    function Extract(): T
      requires Success?
    {
      value
    }
  }

  /** The values of the leading successes, up to the first failure: what a
      loop that stops at its first exception has read. */
  function Leading<B>(results: seq<Result<B>>): (values: seq<B>)
    ensures |values| <= |results|
  {
    if results == [] || results[0].Failure? then []
    else [results[0].value] + Leading(results[1..])
  }

  /** The leading values are the values of the first results, and the prefix
      stops only at a failure. */
  lemma {:induction false} LeadingSpec<B>(results: seq<Result<B>>)
    ensures var values := Leading(results);
      && (forall j :: 0 <= j < |values| ==> results[j] == Success(values[j]))
      && (|values| < |results| ==> results[|values|].Failure?)
  {
    if results != [] && results[0].Success? {
      LeadingSpec(results[1..]);
      assert forall j :: 1 <= j < |results| ==> results[j] == results[1..][j - 1];
    }
  }

  /** Whether result i succeeds decides whether the prefix goes past it. */
  lemma LeadingAt<B>(results: seq<Result<B>>, i: nat)
    requires i <= |Leading(results)| && i < |results|
    ensures results[i].Success? ==> i < |Leading(results)| && Leading(results)[i] == results[i].value
    ensures results[i].Failure? ==> |Leading(results)| == i
  {
    LeadingSpec(results);
  }

  /** Apply `f` to every element in order; the first failure is the result,
      as when a Python loop lets the exception escape. */
  function MapAll<A, B>(xs: seq<A>, f: A -> Result<B>): Result<seq<B>>
  {
    if xs == [] then Success([])
    else
      var init :- MapAll(xs[..|xs| - 1], f);
      var y :- f(xs[|xs| - 1]);
      Success(init + [y])
  }

  /** MapAll succeeds exactly when every element succeeds, and then gives one
      result per element, in order. */
  lemma {:induction false} MapAllSuccess<A, B>(xs: seq<A>, f: A -> Result<B>)
    ensures MapAll(xs, f).Success? <==> forall k :: 0 <= k < |xs| ==> f(xs[k]).Success?
    ensures MapAll(xs, f).Success? ==>
      |MapAll(xs, f).value| == |xs| && forall k :: 0 <= k < |xs| ==> f(xs[k]) == Success(MapAll(xs, f).value[k])
  {
    if xs != [] {
      var init := xs[..|xs| - 1];
      MapAllSuccess(init, f);
      assert forall k :: 0 <= k < |init| ==> init[k] == xs[k];
    }
  }

  /** When MapAll fails, its error is that of the first element that fails. */
  lemma {:induction false} MapAllFailure<A, B>(xs: seq<A>, f: A -> Result<B>)
    requires MapAll(xs, f).Failure?
    ensures exists k ::
      (0 <= k < |xs| && f(xs[k]) == Failure(MapAll(xs, f).error) && forall j :: 0 <= j < k ==> f(xs[j]).Success?)
  {
    var init := xs[..|xs| - 1];
    assert forall k :: 0 <= k < |init| ==> init[k] == xs[k];
    if MapAll(init, f).Failure? {
      MapAllFailure(init, f);
    } else {
      MapAllSuccess(init, f);
    }
  }

  /** A failing prefix decides the whole result. */
  lemma {:induction false} MapAllPrefixFailure<A, B>(xs: seq<A>, i: nat, f: A -> Result<B>)
    requires i <= |xs| && MapAll(xs[..i], f).Failure?
    ensures MapAll(xs, f) == MapAll(xs[..i], f)
  {
    if i == |xs| {
      assert xs[..i] == xs;
    } else {
      assert xs[..|xs| - 1][..i] == xs[..i];
      MapAllPrefixFailure(xs[..|xs| - 1], i, f);
    }
  }

  /** One more element: MapAll of the prefix, then that element. */
  lemma MapAllSnoc<A, B>(xs: seq<A>, x: A, f: A -> Result<B>)
    ensures MapAll(xs + [x], f) ==
      match MapAll(xs, f)
      case Failure(e) => Failure(e)
      case Success(ys) => (match f(x) case Failure(e) => Failure(e) case Success(y) => Success(ys + [y]))
  {
    assert (xs + [x])[..|xs|] == xs;
  }
}
