/** The same four operations with the defect of Client/Infra/SafeItemClient.cs
    corrected: a failure is reported with the response's status code only
    when that code is an error code (400 or more), and with no code
    otherwise, so ApiResult's guard never turns a reported failure into an
    ArgumentException. */
module FixedSafeItemClient {
  import opened Runtime
  import opened Dtos
  import opened Entities
  import opened Extensions
  import opened ApiResults
  import opened SafeItemClient

  /** The status code a failure may carry: codes below 400 are dropped. */
  function FailureCode(code: Option<int>): (c: Option<int>)
    ensures c.Some? ==> c.value >= FirstErrorCode
    ensures code.Some? && code.value >= FirstErrorCode <==> c.Some?
    ensures c.Some? ==> c == code
  {
    if code.Some? && code.value < FirstErrorCode then None else code
  }

  function GetItemsFixed(exchange: Exchange<seq<Option<ItemDto>>>): (r: Outcome<ApiResult<seq<ItemFields>>>)
    ensures r.Ok? ==> r.value.Valid()
    ensures r.Throws? <==> || exchange.Canceled?
                           || (&& exchange.Response? && IsSuccessStatusCode(exchange.statusCode)
                               && (exchange.content.Malformed?
                                   || (exchange.content.Json? && ToItems(exchange.content.value).Throws?)))
    ensures exchange.Response? && IsSuccessStatusCode(exchange.statusCode) && exchange.content.Json? ==>
              var items := ToItems(exchange.content.value);
              items.Ok? ==> SucceededWith(r, items.value, Some(exchange.statusCode))
    ensures exchange.Response? && IsSuccessStatusCode(exchange.statusCode) && exchange.content.NullJson? ==>
              FailedWith(r, None)
    ensures exchange.Response? && !IsSuccessStatusCode(exchange.statusCode) ==>
              FailedWith(r, FailureCode(Some(exchange.statusCode)))
    ensures exchange.RequestException? ==> FailedWith(r, FailureCode(exchange.code))
  {
    match exchange
    case Canceled => Throws(OperationCanceledException)
    case RequestException(m, code) =>
      FailWith("Exception", " retrieving Items from Server, Message=\"" + m + "\"", FailureCode(code))
    case Response(status, content) =>
      if IsSuccessStatusCode(status) then
        match content
        case Malformed => Throws(JsonException)
        case NullJson => FailWith("Cannot", " deserialize response to List<ItemDto>", FailureCode(Some(status)))
        case Json(dtos) =>
          match ToItems(dtos)
          case Throws(e) => Throws(e)
          case Ok(items) => Success(items, Some(status))
      else FailWith("Error", " Getting Items from the Server", FailureCode(Some(status)))
  }

  function PostItemFixed(item: ItemFields, exchange: Exchange<ItemDto>): (r: Outcome<ApiResult<ItemFields>>)
    ensures r.Ok? ==> r.value.Valid()
    ensures r.Throws? <==> || exchange.Canceled?
                           || (&& exchange.Response? && IsSuccessStatusCode(exchange.statusCode)
                               && (exchange.content.Malformed?
                                   || (exchange.content.Json? && ToItemFields(exchange.content.value).Throws?)))
    ensures exchange.Response? && IsSuccessStatusCode(exchange.statusCode) && exchange.content.Json? ==>
              var created := ToItemFields(exchange.content.value);
              created.Ok? ==> SucceededWith(r, created.value, Some(exchange.statusCode))
    ensures exchange.Response? && IsSuccessStatusCode(exchange.statusCode) && exchange.content.NullJson? ==>
              FailedWith(r, None)
    ensures exchange.Response? && !IsSuccessStatusCode(exchange.statusCode) ==>
              FailedWith(r, FailureCode(Some(exchange.statusCode)))
    ensures exchange.RequestException? ==> FailedWith(r, FailureCode(exchange.code))
  {
    match exchange
    case Canceled => Throws(OperationCanceledException)
    case RequestException(m, code) =>
      FailWith("Exception", " creating " + item.name + "; Message=\"" + m + "\".", FailureCode(code))
    case Response(status, content) =>
      if IsSuccessStatusCode(status) then
        match content
        case Malformed => Throws(JsonException)
        case NullJson => FailWith("Error", " deserializing Item \"" + item.name + "\"", FailureCode(Some(status)))
        case Json(dto) =>
          match ToItemFields(dto)
          case Throws(e) => Throws(e)
          case Ok(created) => Success(created, Some(status))
      else FailWith("Error", " creating Item \"" + item.name + "\"", FailureCode(Some(status)))
  }

  function PutItemFixed<B>(item: ItemFields, exchange: Exchange<B>): (r: Outcome<ApiResult<ItemFields>>)
    ensures r.Ok? ==> r.value.Valid()
    ensures r.Throws? <==> exchange.Canceled?
    ensures exchange.Response? && IsSuccessStatusCode(exchange.statusCode) ==>
              SucceededWith(r, item, Some(exchange.statusCode))
    ensures exchange.Response? && !IsSuccessStatusCode(exchange.statusCode) ==>
              FailedWith(r, FailureCode(Some(exchange.statusCode)))
    ensures exchange.RequestException? ==> FailedWith(r, FailureCode(exchange.code))
  {
    match exchange
    case Canceled => Throws(OperationCanceledException)
    case RequestException(m, code) =>
      FailWith("Exception", " updating " + item.name + " at at items/" + GuidText(item.id)
               + ", Message=\"" + m + "\".", FailureCode(code))
    case Response(status, _) =>
      if IsSuccessStatusCode(status) then Success(item, Some(status))
      else FailWith("Error", " Putting Item \"" + item.name + "\" at items/" + GuidText(item.id),
                    FailureCode(Some(status)))
  }

  function DeleteItemFixed<B>(item: ItemFields, exchange: Exchange<B>): (r: Outcome<ApiResult<ItemFields>>)
    ensures r.Ok? ==> r.value.Valid()
    ensures r.Throws? <==> exchange.Canceled?
    ensures exchange.Response? && IsSuccessStatusCode(exchange.statusCode) ==>
              SucceededWith(r, item, Some(exchange.statusCode))
    ensures exchange.Response? && !IsSuccessStatusCode(exchange.statusCode) ==>
              FailedWith(r, FailureCode(Some(exchange.statusCode)))
    ensures exchange.RequestException? ==> FailedWith(r, FailureCode(exchange.code))
  {
    match exchange
    case Canceled => Throws(OperationCanceledException)
    case RequestException(m, code) =>
      FailWith("Exception", " deleting Item \"" + item.name + "\" with Id " + GuidText(item.id)
               + "); Message=\"" + m + "\".", FailureCode(code))
    case Response(status, _) =>
      if IsSuccessStatusCode(status) then Success(item, Some(status))
      else FailWith("Error", " deleting Item \"" + item.name + "\" (" + GuidText(item.id) + ")",
                    FailureCode(Some(status)))
  }

  /** The correction changes only the calls on which the code as written
      throws ApiResult's status-code ArgumentException; every other outcome,
      message included, is the same. */
  lemma FixChangesOnlyRejectedCalls<B>(
    item: ItemFields, get: Exchange<seq<Option<ItemDto>>>, post: Exchange<ItemDto>, other: Exchange<B>)
    ensures GetItems(get) != Throws(ArgumentException(StatusCodeParam)) ==> GetItemsFixed(get) == GetItems(get)
    ensures PostItem(item, post) != Throws(ArgumentException(StatusCodeParam))
            ==> PostItemFixed(item, post) == PostItem(item, post)
    ensures PutItem(item, other) != Throws(ArgumentException(StatusCodeParam))
            ==> PutItemFixed(item, other) == PutItem(item, other)
    ensures DeleteItem(item, other) != Throws(ArgumentException(StatusCodeParam))
            ==> DeleteItemFixed(item, other) == DeleteItem(item, other)
  {
  }

  /** The inputs that show the defect: a 2xx response whose body is the JSON
      literal null makes GET and POST throw, and a 304 response makes every
      operation throw, where the corrected versions report failures. */
  lemma RejectedStatusCodes<B>(item: ItemFields, content: Content<B>)
    ensures GetItems(Response(200, NullJson)) == Throws(ArgumentException(StatusCodeParam))
    ensures PostItem(item, Response(201, NullJson)) == Throws(ArgumentException(StatusCodeParam))
    ensures PutItem(item, Response(304, content)) == Throws(ArgumentException(StatusCodeParam))
    ensures DeleteItem(item, Response(304, content)) == Throws(ArgumentException(StatusCodeParam))
    ensures FailedWith(GetItemsFixed(Response(200, NullJson)), None)
    ensures FailedWith(PostItemFixed(item, Response(201, NullJson)), None)
    ensures FailedWith(PutItemFixed(item, Response(304, content)), None)
    ensures FailedWith(DeleteItemFixed(item, Response(304, content)), None)
  {
  }
}
