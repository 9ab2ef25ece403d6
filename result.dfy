/** The non-generic Result (Client/Infra/Result.cs): a Success, or a Fail that
    carries the reason for the failure. */
module Results {
  import opened Runtime

  /** The one field of a Result: its failure message, null (None) for a
      Success. Results are never changed after construction. */
  datatype Result = Result(failureMessage: Option<string>)
  {
    /** The invariant the constructors establish: a failure message is never
        blank. */
    ghost predicate Valid()
    {
      failureMessage.Some? ==> !IsNullOrWhiteSpace(failureMessage)
    }

    predicate IsFailure()
    {
      failureMessage.Some?
    }

    /** Exactly one of IsSuccess and IsFailure holds. */
    predicate IsSuccess(): (b: bool)
      ensures b <==> !IsFailure()
    {
      failureMessage.None?
    }

    /** The failure message; reading it on a Success throws. On a valid
        Result the message read is never blank. */
    function FailureMessage(): (r: Outcome<string>)
      ensures r.Ok? <==> IsFailure()
      ensures r.Throws? ==> r.exception == InvalidOperationException
      ensures Valid() && r.Ok? ==> !IsNullOrWhiteSpace(Some(r.value))
    {
      if failureMessage.Some? then Ok(failureMessage.value)
      else Throws(InvalidOperationException)
    }
  }

  /** Result.Fail(message), i.e. the protected Result(string) constructor:
      rejects a null, empty or whitespace-only message with an
      ArgumentException naming the parameter failureMessage. */
  function Fail(message: Option<string>): (r: Outcome<Result>)
    ensures r.Throws? <==> IsNullOrWhiteSpace(message)
    ensures r.Throws? ==> r.exception == ArgumentException(FailureMessageParam)
    ensures r.Ok? ==> r.value.Valid() && r.value.IsFailure() && !r.value.IsSuccess()
    ensures r.Ok? ==> r.value.FailureMessage() == Ok(message.value)
  {
    if IsNullOrWhiteSpace(message) then Throws(ArgumentException(FailureMessageParam))
    else Ok(Result(message))
  }

  /** Result.Success(): a valid Result on which FailureMessage throws. */
  function Success(): (r: Result)
    ensures r.Valid() && r.IsSuccess() && !r.IsFailure()
    ensures r.FailureMessage() == Throws(InvalidOperationException)
  {
    Result(None)
  }

  /** Element k of results is the first failure in argument order. */
  predicate FirstFailureAt(results: seq<Result>, k: int)
  {
    && 0 <= k < |results|
    && results[k].IsFailure()
    && forall j :: 0 <= j < k ==> results[j].IsSuccess()
  }

  /** Result.Combine: a left-to-right, short-circuiting "and". It returns the
      first failing element itself, or a new Success when every element (of
      possibly none) succeeds; it never invents a failure. */
  method Combine(results: seq<Result>) returns (r: Result)
    ensures forall k :: FirstFailureAt(results, k) ==> r == results[k]
    ensures (forall i :: 0 <= i < |results| ==> results[i].IsSuccess()) ==> r == Success()
    ensures r.IsFailure() ==> exists k :: FirstFailureAt(results, k)
    ensures (forall i :: 0 <= i < |results| ==> results[i].Valid()) ==> r.Valid()
  {
    var i := 0;
    while i < |results|
      invariant 0 <= i <= |results|
      invariant forall j :: 0 <= j < i ==> results[j].IsSuccess()
    {
      if results[i].IsFailure() {
        assert FirstFailureAt(results, i);
        return results[i];
      }
      i := i + 1;
    }
    return Success();
  }

  /** Combine(Success(), Success(), Fail(x), Success()) reports Fail(x). */
  method CombineReportsFirstFailure(x: string) returns (r: Result)
    requires !IsNullOrWhiteSpace(Some(x))
    ensures r.FailureMessage() == Ok(x)
  {
    var failure := Fail(Some(x)).value;
    r := Combine([Success(), Success(), failure, Success()]);
    assert FirstFailureAt([Success(), Success(), failure, Success()], 2);
  }
}
