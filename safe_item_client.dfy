/** SafeItemClient (Client/Infra/SafeItemClient.cs): how each of GET, POST,
    PUT and DELETE turns the outcome of its HTTP exchange into an
    ApiResult. The exchange itself (request building, sending, reading the
    body as JSON) is abstracted to an Exchange value. */
module SafeItemClient {
  import opened Runtime
  import opened Dtos
  import opened Entities
  import opened Extensions
  import opened ApiResults

  /** What ReadFromJsonAsync makes of a response body: the JSON literal null,
      a value, or text it cannot read (a JsonException). */
  datatype Content<B> = NullJson | Json(value: B) | Malformed

  /** How the exchange ended: a response with its status code and content,
      an HttpRequestException with its message and optional status code, or
      a cancellation (the token or the client's timeout). */
  datatype Exchange<B> =
    | Response(statusCode: int, content: Content<B>)
    | RequestException(message: string, code: Option<int>)
    | Canceled

  /** HttpResponseMessage.IsSuccessStatusCode */
  predicate IsSuccessStatusCode(code: int)
  {
    200 <= code <= 299
  }

  /** r is a valid failed ApiResult with the given status code. */
  ghost predicate FailedWith<T>(r: Outcome<ApiResult<T>>, code: Option<int>)
  {
    r.Ok? && r.value.Valid() && r.value.IsFailure() && r.value.StatusCode() == code
  }

  /** r is a valid successful ApiResult holding `value` and the status code. */
  ghost predicate SucceededWith<T>(r: Outcome<ApiResult<T>>, value: T, code: Option<int>)
  {
    r.Ok? && r.value.Valid() && r.value.IsSuccess() && r.value.Value() == Ok(value) && r.value.StatusCode() == code
  }

  /** What ApiResult.Fail with a non-blank message makes of a status code:
      a failure for a null code or one of 400 or more, and otherwise the
      guard's ArgumentException. */
  ghost predicate ReportsFailure<T>(r: Outcome<ApiResult<T>>, code: Option<int>)
  {
    if code.Some? && code.value < FirstErrorCode then r == Throws(ArgumentException(StatusCodeParam))
    else FailedWith(r, code)
  }

  /** ApiResult.Fail for one of this class's messages: each starts with a
      literal word (`lead`), so the blank-message check never fires. */
  function FailWith<T>(lead: string, rest: string, code: Option<int>): (r: Outcome<ApiResult<T>>)
    requires |lead| > 0 && !IsWhiteSpace(lead[0])
    ensures ReportsFailure(r, code)
    ensures r.Ok? ==> r.value.FailureMessage() == Ok(lead + rest)
  {
    NotBlankWhenLeadIsVisible(lead, rest);
    Fail(Some(lead + rest), code)
  }

  /** dto.ToItem() on one element of a received list: a JSON null element
      (None) is dereferenced and throws NullReferenceException; any other
      element goes through ToItemFields. */
  function ElementToItem(dto: Option<ItemDto>): (r: Outcome<ItemFields>)
    ensures r.Ok? <==> dto.Some? && ToItemFields(dto.value).Ok?
    ensures dto.None? ==> r == Throws(NullReferenceException)
    ensures dto.Some? ==> r == ToItemFields(dto.value)
  {
    match dto
    case None => Throws(NullReferenceException)
    case Some(d) => ToItemFields(d)
  }

  /** The first element of dtos that ElementToItem rejects is at index k. */
  predicate FirstRejectedAt(dtos: seq<Option<ItemDto>>, k: int)
  {
    && 0 <= k < |dtos|
    && ElementToItem(dtos[k]).Throws?
    && forall j :: 0 <= j < k ==> ElementToItem(dtos[j]).Ok?
  }

  /** dtos.Select(dto => dto.ToItem()).ToList(): the items in order, or the
      exception of the first element that is null or that the constructor
      rejects. */
  function ToItems(dtos: seq<Option<ItemDto>>): (r: Outcome<seq<ItemFields>>)
    ensures r.Ok? <==> forall i :: 0 <= i < |dtos| ==> dtos[i].Some? && ToItemFields(dtos[i].value).Ok?
    ensures r.Ok? ==> |r.value| == |dtos|
    ensures r.Ok? ==> forall i :: 0 <= i < |dtos| ==> dtos[i].Some? && ToItemFields(dtos[i].value) == Ok(r.value[i])
    ensures r.Throws? ==> exists k :: FirstRejectedAt(dtos, k)
    ensures forall k :: FirstRejectedAt(dtos, k) ==> ElementToItem(dtos[k]) == Throws(r.exception)
  {
    if |dtos| == 0 then Ok([])
    else
      match ElementToItem(dtos[0])
      case Throws(e) =>
        assert FirstRejectedAt(dtos, 0);
        Throws(e)
      case Ok(first) =>
        match ToItems(dtos[1..])
        case Throws(e) =>
          assert forall k :: FirstRejectedAt(dtos[1..], k) ==> FirstRejectedAt(dtos, k + 1);
          Throws(e)
        case Ok(rest) =>
          assert forall i :: 1 <= i < |dtos| ==> dtos[i] == dtos[1..][i - 1];
          Ok([first] + rest)
  }

  /** GetItemsAsync: only HttpRequestException is caught; every ApiResult
      returned keeps the status/tag invariant. */
  function GetItems(exchange: Exchange<seq<Option<ItemDto>>>): (r: Outcome<ApiResult<seq<ItemFields>>>)
    ensures r.Ok? ==> r.value.Valid()
    ensures r != Throws(ArgumentException(FailureMessageParam))
    ensures exchange.Response? && IsSuccessStatusCode(exchange.statusCode) && exchange.content.Json? ==>
              var items := ToItems(exchange.content.value);
              && (items.Throws? ==> r == Throws(items.exception))
              && (items.Ok? ==> SucceededWith(r, items.value, Some(exchange.statusCode)))
    ensures exchange.Response? && IsSuccessStatusCode(exchange.statusCode) && exchange.content.NullJson? ==>
              r == Throws(ArgumentException(StatusCodeParam))
    ensures exchange.Response? && IsSuccessStatusCode(exchange.statusCode) && exchange.content.Malformed? ==>
              r == Throws(JsonException)
    ensures exchange.Response? && !IsSuccessStatusCode(exchange.statusCode) ==>
              ReportsFailure(r, Some(exchange.statusCode))
    ensures exchange.RequestException? ==> ReportsFailure(r, exchange.code)
    ensures exchange.Canceled? ==> r == Throws(OperationCanceledException)
  {
    match exchange
    case Canceled => Throws(OperationCanceledException)
    case RequestException(m, code) =>
      FailWith("Exception", " retrieving Items from Server, Message=\"" + m + "\"", code)
    case Response(status, content) =>
      if IsSuccessStatusCode(status) then
        match content
        case Malformed => Throws(JsonException)
        case NullJson => FailWith("Cannot", " deserialize response to List<ItemDto>", Some(status))
        case Json(dtos) =>
          match ToItems(dtos)
          case Throws(e) => Throws(e)
          case Ok(items) => Success(items, Some(status))
      else FailWith("Error", " Getting Items from the Server", Some(status))
  }

  /** PostItemAsync: on a 2xx response with a body the result holds the
      server's item (the body through ToItem), not the argument. */
  function PostItem(item: ItemFields, exchange: Exchange<ItemDto>): (r: Outcome<ApiResult<ItemFields>>)
    ensures r.Ok? ==> r.value.Valid()
    ensures r != Throws(ArgumentException(FailureMessageParam))
    ensures exchange.Response? && IsSuccessStatusCode(exchange.statusCode) && exchange.content.Json? ==>
              var created := ToItemFields(exchange.content.value);
              && (created.Throws? ==> r == Throws(created.exception))
              && (created.Ok? ==> SucceededWith(r, created.value, Some(exchange.statusCode)))
    ensures exchange.Response? && IsSuccessStatusCode(exchange.statusCode) && exchange.content.NullJson? ==>
              r == Throws(ArgumentException(StatusCodeParam))
    ensures exchange.Response? && IsSuccessStatusCode(exchange.statusCode) && exchange.content.Malformed? ==>
              r == Throws(JsonException)
    ensures exchange.Response? && !IsSuccessStatusCode(exchange.statusCode) ==>
              ReportsFailure(r, Some(exchange.statusCode))
    ensures exchange.RequestException? ==> ReportsFailure(r, exchange.code)
    ensures exchange.Canceled? ==> r == Throws(OperationCanceledException)
  {
    match exchange
    case Canceled => Throws(OperationCanceledException)
    case RequestException(m, code) =>
      FailWith("Exception", " creating " + item.name + "; Message=\"" + m + "\".", code)
    case Response(status, content) =>
      if IsSuccessStatusCode(status) then
        match content
        case Malformed => Throws(JsonException)
        case NullJson => FailWith("Error", " deserializing Item \"" + item.name + "\"", Some(status))
        case Json(dto) =>
          match ToItemFields(dto)
          case Throws(e) => Throws(e)
          case Ok(created) => Success(created, Some(status))
      else FailWith("Error", " creating Item \"" + item.name + "\"", Some(status))
  }

  /** PutItemAsync: the response body is not read; a 2xx response gives the
      caller's own item back unchanged. */
  function PutItem<B>(item: ItemFields, exchange: Exchange<B>): (r: Outcome<ApiResult<ItemFields>>)
    ensures r.Ok? ==> r.value.Valid()
    ensures r != Throws(ArgumentException(FailureMessageParam))
    ensures exchange.Response? && IsSuccessStatusCode(exchange.statusCode) ==>
              SucceededWith(r, item, Some(exchange.statusCode))
    ensures exchange.Response? && !IsSuccessStatusCode(exchange.statusCode) ==>
              ReportsFailure(r, Some(exchange.statusCode))
    ensures exchange.RequestException? ==> ReportsFailure(r, exchange.code)
    ensures exchange.Canceled? ==> r == Throws(OperationCanceledException)
  {
    match exchange
    case Canceled => Throws(OperationCanceledException)
    case RequestException(m, code) =>
      FailWith("Exception", " updating " + item.name + " at at items/" + GuidText(item.id)
               + ", Message=\"" + m + "\".", code)
    case Response(status, _) =>
      if IsSuccessStatusCode(status) then Success(item, Some(status))
      else FailWith("Error", " Putting Item \"" + item.name + "\" at items/" + GuidText(item.id), Some(status))
  }

  /** DeleteItemAsync: the response body is not read; a 2xx response gives
      the caller's own item back unchanged. */
  function DeleteItem<B>(item: ItemFields, exchange: Exchange<B>): (r: Outcome<ApiResult<ItemFields>>)
    ensures r.Ok? ==> r.value.Valid()
    ensures r != Throws(ArgumentException(FailureMessageParam))
    ensures exchange.Response? && IsSuccessStatusCode(exchange.statusCode) ==>
              SucceededWith(r, item, Some(exchange.statusCode))
    ensures exchange.Response? && !IsSuccessStatusCode(exchange.statusCode) ==>
              ReportsFailure(r, Some(exchange.statusCode))
    ensures exchange.RequestException? ==> ReportsFailure(r, exchange.code)
    ensures exchange.Canceled? ==> r == Throws(OperationCanceledException)
  {
    match exchange
    case Canceled => Throws(OperationCanceledException)
    case RequestException(m, code) =>
      FailWith("Exception", " deleting Item \"" + item.name + "\" with Id " + GuidText(item.id)
               + "); Message=\"" + m + "\".", code)
    case Response(status, _) =>
      if IsSuccessStatusCode(status) then Success(item, Some(status))
      else FailWith("Error", " deleting Item \"" + item.name + "\" (" + GuidText(item.id) + ")", Some(status))
  }
}
