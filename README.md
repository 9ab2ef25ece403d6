# BlazorPatchDemo client safe-result layer, in Dafny

This project models the client-side safe-result layer of BlazorPatchDemo, a
Blazor CRUD demo for items, together with the Item value rules that layer
carries:

- `Result`: a Success, or a Fail carrying a non-blank failure message.
  `Combine` is a left-to-right, short-circuiting "and" over Results.
- `Result<T>`: a Result whose Success carries a value.
- `ApiResult<T>`: a `Result<T>` with an optional HTTP status code that must
  agree with the tag. A Fail takes no code below 400; a Success takes no code
  of 400 or more.
- `Item`: an entity with a fixed Id and CreatedDate and settable Name,
  Description and Price. Its constructor checks the bounds, but the setters
  do not re-check them.
- The Item/DTO conversions. On the way back to an Item, the price is
  truncated toward zero and the result goes through the validating
  constructor.
- `SafeItemClient`: how GET, POST, PUT and DELETE turn an HTTP exchange into
  an `ApiResult`.

A C# exception is modelled as a value: `Runtime.Outcome<T>` is `Ok(value)` or
`Throws(exception)`. Every error path of the code is therefore a result that
the contracts can state.

Files, one module each (the corrected client has a module of its own):

| file | module | models |
|---|---|---|
| runtime.dfy | `Runtime` | null, exceptions, `string.IsNullOrWhiteSpace`, `Math.Truncate`, `Guid.ToString()` |
| result.dfy | `Results` | Client/Infra/Result.cs |
| result_of_t.dfy | `ValueResults` | the `Result<T>` base of ApiResult |
| api_result.dfy | `ApiResults` | Client/Infra/ApiResult.cs |
| item.dfy | `Entities` | Shared/Entities/Item.cs |
| dtos.dfy | `Dtos` | the records of Shared/Dtos |
| extensions.dfy | `Extensions` | Shared/Extensions.cs |
| safe_item_client.dfy | `SafeItemClient` | Client/Infra/SafeItemClient.cs, as written |
| fixed_safe_item_client.dfy | `FixedSafeItemClient` | the same, with the defect under Findings corrected |

Result, `Result<T>` and ApiResult are immutable objects, so they are
modelled as datatypes whose fields mirror the private fields of the classes.
The base is held inside the derived type. A message of `None` stands for
null, which means Success. Item's setters change the object in place, so
Item is a class:

- `id` and `createdDate` are `const`, because they are init-only in C#.
- `name`, `description` and `price` are plain fields that any caller may
  assign. This is exactly what the unchecked public setters allow.

The validating constructor is `Item.New`, which returns an `Outcome<Item>`.
Its specification is the pure function `MakeItem`.

The client is modelled as pure functions of an `Exchange`. An `Exchange` is
one of:

- a response, with its status code and what JSON reading makes of its body:
  the literal `null`, a value (for GET, a list whose elements may
  themselves be `null`), or unreadable text;
- an `HttpRequestException`, with its message and optional status code;
- a cancellation.

Where the code's documentation comments and the code disagree, the model
follows the code:

- `ApiResult.Fail` stores a null status code unchanged (ApiResult.cs:25).
  Its documentation (ApiResult.cs:47-48) says a null code becomes
  `HttpStatusCode.Unused`. That sentinel is 306, so substituting it would
  make every Fail without a status code throw. `UnusedCodeRejectedByFail` proves this.
- `ApiResult.Success` with a code of 400 or more throws `ArgumentException`
  (ApiResult.cs:31-34). The documentation says `InvalidOperationException`.
- `Result.Fail` with a blank message throws `ArgumentException`
  (Result.cs:36). The documentation (Result.cs:76) says
  `ArgumentNullException`.

SafeItemClient's four operations catch only `HttpRequestException`
(SafeItemClient.cs:67, :122, :156, :194). Several other exceptions escape
to the caller instead of becoming a failed result:

- a cancellation or a timeout (`OperationCanceledException`);
- a `JsonException` from an unreadable body;
- a `NullReferenceException` from a `null` element of a received list;
- an `ArgumentException` from `ToItem` or from ApiResult's guard.

SafeItemClient has only GET, POST, PUT and DELETE; there is no PATCH request.

## Model

| member | source | states |
|---|---|---|
| `Results.Result.IsFailure` | Client/Infra/Result.cs:54 | a failure is exactly a Result carrying a message; its complement is stated by `Results.Result.IsSuccess` |
| `Results.Result.IsSuccess` | Client/Infra/Result.cs:54-62 | IsSuccess holds exactly when IsFailure does not, for every Result |
| `Results.Result.FailureMessage` | Client/Infra/Result.cs:68-69 | defined exactly on a failure; on a Success it throws InvalidOperationException; on a valid Result the message read is never blank |
| `Results.Fail` | Client/Infra/Result.cs:34-38 | throws ArgumentException(failureMessage) iff the message is null, empty or whitespace-only; otherwise gives a valid failure whose FailureMessage is the message |
| `Results.Success` | Client/Infra/Result.cs:43-46 | a valid Success, on which FailureMessage throws |
| `Results.Combine` | Client/Infra/Result.cs:94-103 | returns the first failing element in argument order, itself; a new Success when all (or none) succeed; a failure only if some element fails; valid inputs give a valid result |
| `Results.CombineReportsFirstFailure` | Client/Infra/Result.cs:96-100 | Combine(Success, Success, Fail(x), Success) reports x |
| ValueResults.Result.Value | Client/Infra/ApiResult.cs:11 | the Value of the generic Result (Result`1.cs, lines 42-44): on a valid Result of T, Value is defined exactly on a Success; otherwise it throws InvalidOperationException |
| ValueResults.Fail | Client/Infra/ApiResult.cs:18 | the generic Result's Fail (Result`1.cs, lines 24 and 52), which ApiResult's base(message) reaches. It throws iff the message is blank; otherwise a valid failure whose Value throws |
| ValueResults.Success | Client/Infra/ApiResult.cs:29 | the generic Result's Success (Result`1.cs, lines 33-36 and 60), which ApiResult's base(value) reaches. It gives a valid Success whose Value is the given value |
| `ApiResults.ApiResult.StatusCode` | Client/Infra/ApiResult.cs:68 | readable whatever the tag; on a valid ApiResult a failure's code is null or at least 400, and a success's is null or below 400 |
| `ApiResults.Fail` | Client/Infra/ApiResult.cs:18-26 | a blank message throws from the base first; then a code below 400 throws ArgumentException(statusCode); otherwise a valid failure with that message and exactly that code, null staying null |
| `ApiResults.Success` | Client/Infra/ApiResult.cs:29-37 | throws ArgumentException(statusCode) iff the code is 400 or more; otherwise a valid success with that value and code |
| `ApiResults.UnusedCodeRejectedByFail` | Client/Infra/ApiResult.cs:47-53 | Fail with HttpStatusCode.Unused (306) throws, while Fail with null succeeds, so the code cannot perform the substitution the doc describes |
| `Runtime.Truncate` | Shared/Extensions.cs:38 | Math.Truncate: a whole number, between 0 and x, less than 1 away from x |
| `Runtime.TruncateIntegral` | Shared/Extensions.cs:37-38 | truncation leaves a whole price unchanged |
| `Runtime.GuidText` | Client/Infra/SafeItemClient.cs:154 | the text of an item Id that the PUT and DELETE messages interpolate: 36 characters, dashes at 8, 13, 18 and 23, and with the dashes removed the Id's 32 hexadecimal digits |
| `Runtime.HexInjective` | Client/Infra/SafeItemClient.cs:154 | numbers below 16^width with equal `width`-digit hexadecimal texts are equal |
| `Runtime.GuidTextInjective` | Client/Infra/SafeItemClient.cs:154 | two Ids with the same text are the same Id, so the message names the item unambiguously |
| `Entities.MakeItem` | Shared/Entities/Item.cs:61-80 | succeeds iff name is at most 64, description at most 512 and price in [0, 1000], holding exactly the arguments (names shorter than 2 accepted); the checks run in the order name, description, price and the first violation decides the exception |
| `Entities.DefaultsInBounds` | Shared/Entities/Item.cs:41-45 | the defaults (empty strings, price 0) pass the constructor's checks |
| `Entities.Item.WithDefaults` | Shared/Entities/Item.cs:41-45 | Item(id, createdDate): empty name and description, price 0, the given id and date |
| `Entities.Item.constructor` | Shared/Entities/Item.cs:75-79 | the assignments after the checks: the item holds exactly the arguments |
| `Entities.Item.New` | Shared/Entities/Item.cs:61-80 | a fresh item whose properties are the arguments, or the exception MakeItem gives |
| `Entities.Item.Clone` | Shared/Entities/Item.cs:86 | succeeds iff the current values are in bounds, giving a fresh item with equal properties; otherwise the constructor's exception |
| `Entities.OversizedNameBreaksClone` | Shared/Entities/Item.cs:23 | a name set past 64 characters through the setter is accepted, and the next Clone throws ArgumentException for Name |
| `Extensions.ToItemDto` | Shared/Extensions.cs:15-16 | copies all five properties; its property is stated by `Extensions.ItemDtoRoundTrip` |
| `Extensions.ToItemForUpdateDto` | Shared/Extensions.cs:21-22 | copies name, description and price; its property is stated by `Extensions.MutableFieldRecords` |
| `Extensions.ToItemForCreateDto` | Shared/Extensions.cs:27-28 | copies name, description and price; its properties are stated by `Extensions.ItemForCreateDtoRoundTrip` and `Extensions.MutableFieldRecords` |
| `Extensions.TruncatedPriceInRange` | Shared/Entities/Item.cs:67-73 | the truncated price passes the price check iff the price lies strictly between -1 and 1001 |
| `Extensions.ToItemFields` | Shared/Extensions.cs:37-38 | dto.ToItem() succeeds iff name fits, description fits and price is in (-1, 1001); it copies id, name, description and date and truncates the price; the exceptions follow the constructor's order |
| `Extensions.ToItemFieldsFromCreate` | Shared/Extensions.cs:46-47 | the same for an ItemForCreateDto, with the supplied id and date |
| `Extensions.ToItem` | Shared/Extensions.cs:37-38 | a fresh Item holding what ToItemFields gives, or its exception |
| `Extensions.ToItemFromCreate` | Shared/Extensions.cs:46-47 | a fresh Item holding what ToItemFieldsFromCreate gives, or its exception |
| `Extensions.ItemDtoRoundTrip` | Shared/Extensions.cs:15-16 | ToItem(ToItemDto(i)) never throws for an in-bounds item and gives its properties with the price truncated; unchanged when the price is whole |
| `Extensions.ItemForCreateDtoRoundTrip` | Shared/Extensions.cs:27-28 | ToItemForCreateDto(i).ToItem(i.Id, i.CreatedDate) never throws for an in-bounds item and gives its properties with the price truncated; unchanged when the price is whole |
| `Extensions.MutableFieldRecords` | Shared/Extensions.cs:21-28 | two items give equal update (or create) records iff they agree on name, description and price |
| `SafeItemClient.FailWith` | Client/Infra/SafeItemClient.cs:65 | every Fail message of the client starts with a literal word, so the blank-message check never fires; the result is a failure with the given code, or the guard's exception for a code below 400 |
| `SafeItemClient.ElementToItem` | Shared/Extensions.cs:38 | dto.ToItem() on one list element: a null element throws NullReferenceException; any other converts iff ToItemFields does, with its result |
| `SafeItemClient.ToItems` | Client/Infra/SafeItemClient.cs:57 | all elements converted in order, with the same length, iff none is null and each converts; otherwise the exception of the first element that is null or that the constructor rejects |
| `SafeItemClient.GetItems` | Client/Infra/SafeItemClient.cs:34-73 | a 2xx list gives Success of the converted items (a null element makes NullReferenceException escape) with the code, or ToItem's exception escapes; a 2xx null body throws ArgumentException(statusCode); unreadable JSON throws; a non-2xx code gives a failure with that code, or throws below 400; a request exception gives a failure with its code (possibly null); a cancellation escapes; the message check never fires; every result is valid |
| `SafeItemClient.PostItem` | Client/Infra/SafeItemClient.cs:89-128 | as GetItems, except that a 2xx body gives Success of the server's item (the body through ToItem), not the argument |
| `SafeItemClient.PutItem` | Client/Infra/SafeItemClient.cs:138-163 | 2xx gives Success of the caller's own item with the code; non-2xx a failure with the code, or a throw below 400; a request exception a failure with its code; a cancellation escapes |
| `SafeItemClient.DeleteItem` | Client/Infra/SafeItemClient.cs:178-202 | as PutItem, for DELETE |
| `FixedSafeItemClient.FailureCode` | Client/Infra/SafeItemClient.cs:53 | the code a corrected failure carries: the given code when it is 400 or more, null otherwise |
| `FixedSafeItemClient.GetItemsFixed` | Client/Infra/SafeItemClient.cs:47-53 | corrected GET: throws only on cancellation, unreadable JSON, a null list element or a DTO the constructor rejects; a 2xx null body is a failure without a code |
| `FixedSafeItemClient.PostItemFixed` | Client/Infra/SafeItemClient.cs:113-115 | corrected POST: the same, for a single item |
| `FixedSafeItemClient.PutItemFixed` | Client/Infra/SafeItemClient.cs:152-154 | corrected PUT: throws only on cancellation |
| `FixedSafeItemClient.DeleteItemFixed` | Client/Infra/SafeItemClient.cs:190-192 | corrected DELETE: throws only on cancellation |
| `FixedSafeItemClient.FixChangesOnlyRejectedCalls` | Client/Infra/SafeItemClient.cs:63-65 | the correction changes only calls on which the code as written throws the status-code ArgumentException; everything else, messages included, is the same |
| `FixedSafeItemClient.RejectedStatusCodes` | Client/Infra/SafeItemClient.cs:52-53 | a 2xx null body (GET, POST) and a 304 response (PUT, DELETE) throw as written, and give failures once corrected |

## Findings

| source | as written | input that shows it | evidently intended | confidence | as-written member | corrected member |
|---|---|---|---|---|---|---|
| Client/Infra/SafeItemClient.cs:52-53 | a 2xx response whose body reads as null calls `Fail(..., response.StatusCode)` with a 2xx code, and ApiResult's guard throws ArgumentException (the same at :115 for POST) | `GetItems(Response(200, NullJson))`, `PostItem(i, Response(201, NullJson))` | a failed ApiResult reporting the unreadable body | high (not executed) | `SafeItemClient.GetItems`, `SafeItemClient.PostItem`, `FixedSafeItemClient.RejectedStatusCodes` | `FixedSafeItemClient.GetItemsFixed`, `FixedSafeItemClient.PostItemFixed` |
| Client/Infra/SafeItemClient.cs:63-65 | a non-2xx response is passed to `Fail` with its code; for 1xx and 3xx codes the guard throws instead (the same at :120, :154, :192) | `PutItem(i, Response(304, c))`, `DeleteItem(i, Response(304, c))` | a failed ApiResult for every non-success response | medium (not executed; HttpClient follows most redirects itself) | `SafeItemClient.PutItem`, `SafeItemClient.DeleteItem`, `FixedSafeItemClient.RejectedStatusCodes` | `FixedSafeItemClient.PutItemFixed`, `FixedSafeItemClient.DeleteItemFixed`, `FixedSafeItemClient.FixChangesOnlyRejectedCalls` |

The corrected versions pass a code to `Fail` only when it is 400 or more, and
pass null otherwise. They make the same change in the request-exception
branches.

## Left out

- The HTTP transport, JSON (de)serialisation, async/await, the
  CancellationToken and logging in SafeItemClient. They are replaced by
  the `Exchange` value. Request URIs, headers and the bodies sent are not
  modelled.
- `AsCreateItemDto` and `AsUpdateItemDto` (SafeItemClient.cs:93, :140) are
  not part of this model. The messages that use the DTO's name use the
  item's name, on the assumption that these conversions copy it.
- Object identity in the client. Its operations take and return
  `ItemFields` snapshots rather than `Item` objects. That PUT and DELETE
  return the very same object, and that GET and POST return new ones, is
  shown only as value equality.
- Object identity in `Results.Combine`. "Returns the same failing instance"
  is value equality on the immutable Result.
- Decimal's range and 28-29 digit precision. The price is an unbounded
  exact `real`.
- String lengths count Unicode scalar values. C#'s `Length` counts UTF-16
  code units, so the two differ for characters outside the Basic
  Multilingual Plane.
- A null name or description passed to the Item constructor. C# would
  throw NullReferenceException on `.Length`; these parameters are
  non-nullable in the source. JSON reading does not enforce that annotation,
  though. A GET or POST body whose item has a null or missing name or
  description (SafeItemClient.cs:45, :98) reaches the constructor through
  `ToItem`. The NullReferenceException that follows escapes the `catch`, and
  this path is left out too: DTO strings are never null in the model.
- Setting `Id` or `CreatedDate` in an object initializer. In the model they
  are fixed by the constructor.
- The status-code range check of HttpResponseMessage (0 to 999). A code is
  any `int`.
- `SafeItemClient.GetItems`: does not state the failure message text in its
  contract (the text is in the body); the contract states only that the
  message is never blank.
- `SafeItemClient.PostItem`: does not state the failure message text in its
  contract; only that the message is never blank.
- `SafeItemClient.PutItem`: does not state the failure message text in its
  contract; only that the message is never blank.
- `SafeItemClient.DeleteItem`: does not state the failure message text in
  its contract; only that the message is never blank.
- The server (controllers, MongoDB repository and settings), both
  `Program.cs` files, `StatusService` and the DTO validation attributes.
  They are hosting, storage and UI wiring outside this layer.
