/**
 * promiseAllSettledPlus: validate the input, settle every item with
 * Promise.allSettled, and wrap the settled list in a read-only view whose
 * six getters summarise it.
 */
module SettledPlus {
  import opened JsArray

  /** The terminal state of one settled item: `{status: 'fulfilled', value}` or `{status: 'rejected', reason}`. */
  datatype Outcome<+V, +R> = Fulfilled(value: V) | Rejected(reason: R)

  /** `fulfilledTest`: the status is 'fulfilled', which is exactly when it is not 'rejected'. */
  predicate FulfilledTest<V, R>(el: Outcome<V, R>): (b: bool)
    ensures b <==> !el.Rejected?
  {
    el.Fulfilled?
  }

  /** `rejectedTest`: the status is 'rejected', which is exactly when it is not 'fulfilled'. */
  predicate RejectedTest<V, R>(el: Outcome<V, R>): (b: bool)
    ensures b <==> !FulfilledTest(el)
  {
    el.Rejected?
  }

  /** The object promiseAllSettledPlus resolves with: the settled list and its getters. */
  datatype View<V, R> = View(rawResult: seq<Outcome<V, R>>) {

    /** `rawResult.filter(fulfilledTest).length`. */
    function FulfilledCount(): (n: nat)
      ensures n <= |rawResult|
      ensures n == |set i | 0 <= i < |rawResult| && rawResult[i].Fulfilled?|
    {
      FilterLengthIsIndexCount(rawResult, FulfilledTest);
      assert IndicesWhere(rawResult, FulfilledTest) == set i | 0 <= i < |rawResult| && rawResult[i].Fulfilled?;
      |Filter(rawResult, FulfilledTest)|
    }

    /** `rawResult.filter(rejectedTest).length`. */
    function RejectedCount(): (n: nat)
      ensures n <= |rawResult|
      ensures n == |set i | 0 <= i < |rawResult| && rawResult[i].Rejected?|
    {
      FilterLengthIsIndexCount(rawResult, RejectedTest);
      assert IndicesWhere(rawResult, RejectedTest) == set i | 0 <= i < |rawResult| && rawResult[i].Rejected?;
      |Filter(rawResult, RejectedTest)|
    }

    /** `rawResult.length > 0 && rawResult.every(fulfilledTest)`. */
    function AllFulfilled(): (b: bool)
      ensures b <==> |rawResult| > 0 && FulfilledCount() == |rawResult|
      ensures b <==> |rawResult| > 0 && forall i :: 0 <= i < |rawResult| ==> rawResult[i].Fulfilled?
    {
      FilterKeepsAllIffEvery(rawResult, FulfilledTest);
      |rawResult| > 0 && Every(rawResult, FulfilledTest)
    }

    /** `rawResult.length > 0 && rawResult.every(rejectedTest)`. */
    function AllRejected(): (b: bool)
      ensures b <==> |rawResult| > 0 && RejectedCount() == |rawResult|
      ensures b <==> |rawResult| > 0 && forall i :: 0 <= i < |rawResult| ==> rawResult[i].Rejected?
    {
      FilterKeepsAllIffEvery(rawResult, RejectedTest);
      |rawResult| > 0 && Every(rawResult, RejectedTest)
    }

    /** `rawResult.length > 0 && rawResult.some(fulfilledTest)`. */
    function HasFulfilled(): (b: bool)
      ensures b <==> FulfilledCount() > 0
      ensures b <==> exists i :: 0 <= i < |rawResult| && rawResult[i].Fulfilled?
    {
      FilterNonEmptyIffSome(rawResult, FulfilledTest);
      |rawResult| > 0 && Some(rawResult, FulfilledTest)
    }

    /** `rawResult.length > 0 && rawResult.some(rejectedTest)`. */
    function HasRejected(): (b: bool)
      ensures b <==> RejectedCount() > 0
      ensures b <==> exists i :: 0 <= i < |rawResult| && rawResult[i].Rejected?
    {
      FilterNonEmptyIffSome(rawResult, RejectedTest);
      |rawResult| > 0 && Some(rawResult, RejectedTest)
    }
  }

  /** Every outcome is counted exactly once: by one of the two counts. */
  lemma CountsPartition<V, R>(v: View<V, R>)
    ensures v.FulfilledCount() + v.RejectedCount() == |v.rawResult|
  {
    forall x: Outcome<V, R> ensures FulfilledTest(x) != RejectedTest(x) {
      assert RejectedTest(x) == !FulfilledTest(x);
    }
    FilterComplementLengths(v.rawResult, FulfilledTest, RejectedTest);
  }

  /** On an empty list no flag holds, not even vacuously, and both counts are zero. */
  lemma EmptyView<V, R>(v: View<V, R>)
    requires v.rawResult == []
    ensures !v.AllFulfilled() && !v.AllRejected() && !v.HasFulfilled() && !v.HasRejected()
    ensures v.FulfilledCount() == 0 && v.RejectedCount() == 0
  {
  }

  /** The two "all" flags never hold together. */
  lemma AllFlagsExclusive<V, R>(v: View<V, R>)
    ensures !(v.AllFulfilled() && v.AllRejected())
  {
  }

  /** Everything fulfilled means something fulfilled and nothing rejected. */
  lemma AllFulfilledImplies<V, R>(v: View<V, R>)
    ensures v.AllFulfilled() ==> v.HasFulfilled() && !v.HasRejected()
  {
  }

  /** Everything rejected means something rejected and nothing fulfilled. */
  lemma AllRejectedImplies<V, R>(v: View<V, R>)
    ensures v.AllRejected() ==> v.HasRejected() && !v.HasFulfilled()
  {
  }

  /** Some flag among the two "has" flags holds exactly when the list is non-empty. */
  lemma HasSomeIffNonEmpty<V, R>(v: View<V, R>)
    ensures v.HasFulfilled() || v.HasRejected() <==> |v.rawResult| > 0
  {
  }

  /** What promiseAllSettledPlus accepts: a JavaScript array, or any other value. */
  datatype Input<P> = Array(items: seq<P>) | NotArray

  /** The two exceptions the guard throws. */
  datatype Thrown = TypeError(message: string) | Error(message: string)

  datatype Result<T, E> = Success(value: T) | Failure(error: E)

  const InputNotArrayMessage: string := "input must be an array"
  const AllSettledMissingMessage: string := "Promise.allSettled must be present for promiseAllSettledPlus to work."

  /**
   * Promise.allSettled, with the waiting abstracted away: `settle` gives each
   * item's terminal outcome, and the list keeps the input's length and order.
   */
  function AllSettled<P, V, R>(items: seq<P>, settle: P -> Outcome<V, R>): (r: seq<Outcome<V, R>>)
    ensures |r| == |items|
    ensures forall i :: 0 <= i < |items| ==> r[i] == settle(items[i])
    decreases |items|
  {
    if items == [] then [] else [settle(items[0])] + AllSettled(items[1..], settle)
  }

  /** Settling commutes with concatenation: one item's outcome never moves or disturbs another's. */
  lemma AllSettledConcat<P, V, R>(a: seq<P>, b: seq<P>, settle: P -> Outcome<V, R>)
    ensures AllSettled(a + b, settle) == AllSettled(a, settle) + AllSettled(b, settle)
  {
  }

  /**
   * promiseAllSettledPlus(promises): throws a TypeError for a non-array
   * before anything else, then an Error when Promise.allSettled is missing;
   * otherwise resolves (never rejects) with the view over the settled list.
   */
  function PromiseAllSettledPlus<P, V, R>(promises: Input<P>, allSettledPresent: bool, settle: P -> Outcome<V, R>)
    : (r: Result<View<V, R>, Thrown>)
    ensures promises.NotArray? ==> r == Failure(TypeError(InputNotArrayMessage))
    ensures promises.Array? && !allSettledPresent ==> r == Failure(Error(AllSettledMissingMessage))
    ensures promises.Array? && allSettledPresent ==>
      && r.Success?
      && |r.value.rawResult| == |promises.items|
      && forall i :: 0 <= i < |promises.items| ==> r.value.rawResult[i] == settle(promises.items[i])
  {
    if !promises.Array? then
      Failure(TypeError(InputNotArrayMessage))
    else if !allSettledPresent then
      Failure(Error(AllSettledMissingMessage))
    else
      Success(View(AllSettled(promises.items, settle)))
  }

  /** A guard failure does not depend on `settle`: it is decided from the input and the capability flag alone. */
  lemma GuardIgnoresSettle<P, V, R>(promises: Input<P>, allSettledPresent: bool,
                                    s1: P -> Outcome<V, R>, s2: P -> Outcome<V, R>)
    requires PromiseAllSettledPlus(promises, allSettledPresent, s1).Failure?
    ensures PromiseAllSettledPlus(promises, allSettledPresent, s2) == PromiseAllSettledPlus(promises, allSettledPresent, s1)
  {
  }
}
