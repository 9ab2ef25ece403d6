/** ApiResult<T> (Client/Infra/ApiResult.cs): a Result<T> for a sent HTTP
    request that also records the response's status code, if any. */
module ApiResults {
  import opened Runtime
  import ValueResults

  /** HttpStatusCode.Unused, the sentinel the documentation of Fail mentions
      but the code never substitutes. */
  const Unused: int := 306

  /** Status codes from here up denote client or server errors. */
  const FirstErrorCode: int := 400

  /** An ApiResult<T>: the base Result<T> and StatusCode, the HttpStatusCode?
      cast to int; None is null. */
  datatype ApiResult<T> = ApiResult(base: ValueResults.Result<T>, statusCode: Option<int>)
  {
    /** The invariant the two constructors establish: the status code, when
        present, agrees with the tag. */
    ghost predicate Valid()
    {
      && base.Valid()
      && (base.IsFailure() && statusCode.Some? ==> statusCode.value >= FirstErrorCode)
      && (base.IsSuccess() && statusCode.Some? ==> statusCode.value < FirstErrorCode)
    }

    predicate IsFailure()
    {
      base.IsFailure()
    }

    predicate IsSuccess(): (b: bool)
      ensures b <==> !IsFailure()
    {
      base.IsSuccess()
    }

    function FailureMessage(): (r: Outcome<string>)
      ensures r.Ok? <==> IsFailure()
      ensures Valid() && r.Ok? ==> !IsNullOrWhiteSpace(Some(r.value))
    {
      base.FailureMessage()
    }

    function Value(): (r: Outcome<T>)
      ensures Valid() ==> (r.Ok? <==> IsSuccess())
      ensures r.Throws? ==> r.exception == InvalidOperationException
    {
      base.Value()
    }

    /** StatusCode is readable whatever the tag; on a valid ApiResult a code
        that is present lies on the side of 400 its tag calls for. */
    function StatusCode(): (s: Option<int>)
      ensures Valid() && IsFailure() && s.Some? ==> s.value >= FirstErrorCode
      ensures Valid() && IsSuccess() && s.Some? ==> s.value < FirstErrorCode
    {
      statusCode
    }
  }

  /** ApiResult<T>.Fail(message, statusCode): the base constructor rejects a
      blank message first; then a status code below 400 is rejected with an
      ArgumentException. A null code is stored as null. */
  function Fail<T>(message: Option<string>, statusCode: Option<int>): (r: Outcome<ApiResult<T>>)
    ensures IsNullOrWhiteSpace(message) ==> r == Throws(ArgumentException(FailureMessageParam))
    ensures && !IsNullOrWhiteSpace(message)
            && statusCode.Some? && statusCode.value < FirstErrorCode
            ==> r == Throws(ArgumentException(StatusCodeParam))
    ensures r.Ok? <==> !IsNullOrWhiteSpace(message) && (statusCode.None? || statusCode.value >= FirstErrorCode)
    ensures r.Ok? ==> r.value.Valid() && r.value.IsFailure()
    ensures r.Ok? ==> r.value.FailureMessage() == Ok(message.value) && r.value.StatusCode() == statusCode
    ensures r.Ok? ==> r.value.Value() == Throws(InvalidOperationException)
  {
    match ValueResults.Fail<T>(message)
    case Throws(e) => Throws(e)
    case Ok(b) =>
      if statusCode.Some? && statusCode.value < FirstErrorCode then Throws(ArgumentException(StatusCodeParam))
      else Ok(ApiResult(b, statusCode))
  }

  /** ApiResult<T>.Success(value, statusCode): a status code of 400 or more
      is rejected with an ArgumentException. */
  function Success<T>(value: T, statusCode: Option<int>): (r: Outcome<ApiResult<T>>)
    ensures r.Throws? <==> statusCode.Some? && statusCode.value >= FirstErrorCode
    ensures r.Throws? ==> r.exception == ArgumentException(StatusCodeParam)
    ensures r.Ok? ==> r.value.Valid() && r.value.IsSuccess()
    ensures r.Ok? ==> r.value.Value() == Ok(value) && r.value.StatusCode() == statusCode
    ensures r.Ok? ==> r.value.FailureMessage() == Throws(InvalidOperationException)
  {
    if statusCode.Some? && statusCode.value >= FirstErrorCode then Throws(ArgumentException(StatusCodeParam))
    else Ok(ApiResult(ValueResults.Success(value), statusCode))
  }

  /** Substituting HttpStatusCode.Unused for a null code, as the
      documentation of Fail describes, would make every Fail throw: the
      sentinel is below 400. */
  lemma UnusedCodeRejectedByFail<T>(message: string)
    requires !IsNullOrWhiteSpace(Some(message))
    ensures Fail<T>(Some(message), Some(Unused)) == Throws(ArgumentException(StatusCodeParam))
    ensures Fail<T>(Some(message), None).Ok?
  {
  }
}
