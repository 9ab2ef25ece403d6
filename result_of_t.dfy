/** The value-carrying Result<T> (Client/Infra/Result`1.cs): a Result whose
    Success also holds a value of type T. */
module ValueResults {
  import opened Runtime
  import Results

  /** A Result<T>: the base Result and the private value field, which is
      only assigned (Some) by the Success constructor and otherwise keeps
      its default (None). */
  datatype Result<T> = Result(base: Results.Result, value: Option<T>)
  {
    ghost predicate Valid()
    {
      base.Valid() && (base.IsSuccess() <==> value.Some?)
    }

    predicate IsFailure()
    {
      base.IsFailure()
    }

    predicate IsSuccess(): (b: bool)
      ensures b <==> !IsFailure()
    {
      base.IsSuccess()
    }

    function FailureMessage(): (r: Outcome<string>)
      ensures r.Ok? <==> IsFailure()
      ensures Valid() && r.Ok? ==> !IsNullOrWhiteSpace(Some(r.value))
    {
      base.FailureMessage()
    }

    /** Value: the value on a Success; reading it on a failure throws. */
    function Value(): (r: Outcome<T>)
      ensures Valid() ==> (r.Ok? <==> IsSuccess())
      ensures r.Ok? ==> value == Some(r.value)
      ensures r.Throws? ==> r.exception == InvalidOperationException
    {
      if IsSuccess() && value.Some? then Ok(value.value)
      else Throws(InvalidOperationException)
    }
  }

  /** Result<T>.Fail(message): the base constructor's check on the message,
      and no value. */
  function Fail<T>(message: Option<string>): (r: Outcome<Result<T>>)
    ensures r.Throws? <==> IsNullOrWhiteSpace(message)
    ensures r.Throws? ==> r.exception == ArgumentException(FailureMessageParam)
    ensures r.Ok? ==> r.value.Valid() && r.value.IsFailure()
    ensures r.Ok? ==> r.value.FailureMessage() == Ok(message.value)
    ensures r.Ok? ==> r.value.Value() == Throws(InvalidOperationException)
  {
    match Results.Fail(message)
    case Throws(e) => Throws(e)
    case Ok(b) => Ok(Result(b, None))
  }

  /** Result<T>.Success(value): a valid Success whose Value is `value`. */
  function Success<T>(value: T): (r: Result<T>)
    ensures r.Valid() && r.IsSuccess()
    ensures r.Value() == Ok(value)
    ensures r.FailureMessage() == Throws(InvalidOperationException)
  {
    Result(Results.Success(), Some(value))
  }
}
