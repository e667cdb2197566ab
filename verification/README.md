# queue-processor in Dafny

A model of the consumption-and-dispatch side of the queue-processor service, plus the HTTP
plumbing it shares with the publish side. The service lists the subscriptions of a
publish/subscribe broker. It routes each subscription to a notification handler chosen by the
deployment environment. The handler decodes every message into a notification record and
posts the record to a delivery endpoint with Basic authentication. It then acknowledges the
message if delivery succeeded and negatively acknowledges it otherwise.

The HTTP side is modelled as well:
- the Basic-Auth gate;
- the validation-message builder;
- the panic-recovery filter that shapes error responses;
- the white-space trimming pipe;
- the comma-separated id parser.

Everything is a pure function over immutable datatypes.
- JSON documents are the `Json` datatype, with objects as maps.
- A message or response body is either a parsed document or malformed bytes.
- Go strings are Dafny strings. Where the source works on bytes (the Base64 credentials, the
  first byte of a field name), an explicit UTF-8 encoder (`Bytes.Utf8`) is used.
- The network is a parameter, `HttpUtils.Net`. So are `http.NewRequest`, query encoding, the
  environment variable, the request path and the stack trace.
- The broker's subscription iterator is the sequence of what its successive `Next` calls
  return.
- A subscription's receive loop is the finite sequence of messages it delivers, plus the
  error it ends with.

Modules, one per source file (plus library stand-ins):
- `Wrappers`, `Text`, `Decimal`, `Bytes`, `Base64`, `Json` are the parts of Go's standard
  library the core relies on:
  - `strings.Split`, `Join`, `TrimSpace`;
  - `strconv.Atoi`, `Itoa`;
  - UTF-8;
  - `base64.StdEncoding`.
- `Types`, `Enum`, `NotificationDto` hold the records, constants and the outgoing JSON shape.
- `Broker` is the subscription adapter.
- `NotificationHandler` holds the message decoder and the ack/nack callback.
- `SubscriptionStrategy` is the routing table.
- `SubscriptionService` is the listening loop.
- `HttpUtils` and `HttpService` are the request builder, response handling and the delivery
  call.
- `BasicAuth`, `Validation`, `Exceptions`, `TrimPipe` and `IdList` are the HTTP-side helpers.

Behaviour of the code worth noting:
- An envelope that is the JSON literal `null` is reported as "field not found", not as an
  envelope decode error. This is because Go unmarshals `null` into an empty map.
- `"data": null` is not "field not found". It decodes to the zero record and fails the
  required-field check.
- The handler's `Handle` returns only when the broker's receive call returns, and returns
  that call's error. It does not return as soon as the callback is registered.

## Model

| member | source | states |
|---|---|---|
| Broker.NewSubscriptionAdapter | core/infra/adapter/pubsub_adapter.go:61-67 | the adapter reports the wrapped subscription's id and delivers that subscription's messages and receive error |
| Broker.Receive | core/infra/adapter/pubsub_adapter.go:69-71 | the callback is applied to every delivered message, in order, one disposition each, and the receive error is passed through |
| NotificationDto.RecordToJson | core/application/subscription/dto/create_notification_dto.go:21-28 | the outgoing record always has userId, userName, channel, recipient and payload, and has subject exactly when the subject is non-empty |
| NotificationHandler.NewNotificationHandler | core/domain/strategy/handlers/notification_handler.go:21-26 | the handler carries the configuration it was built with |
| NotificationHandler.ExtractDataField | core/domain/strategy/handlers/notification_handler.go:60-70 | success exactly when the body is a JSON object with a `data` member, whose value is returned; `null` or an object without `data` is "field not found"; anything else is an envelope error |
| NotificationHandler.DecodeRecord | core/domain/strategy/handlers/notification_handler.go:73-76 | `null` decodes to the zero record; an object decodes exactly when each known field has the right JSON type; the scalars come from those fields and the payload stays raw; any other value is a data decode error |
| NotificationHandler.CoerceString | core/domain/strategy/handlers/notification_handler.go:105-111 | the result is the string stored under that key when the raw payload is an object holding a string there, and "" otherwise (missing member, other type, or a raw payload that is not an object) |
| NotificationHandler.CoerceMap | core/domain/strategy/handlers/notification_handler.go:96-99 | the result is the members of the object stored under that key when there is one, and nil otherwise |
| NotificationHandler.ParseTypedPayload | core/domain/strategy/handlers/notification_handler.go:86-103 | the payload's shape always matches the exact channel name (`EMAIL` an e-mail payload, `SMS` and `WHATSAPP` a message payload, `PUSH_NOTIFICATION` a push payload, anything else raw); every typed field holds the raw payload's member of that name as a string (the `data` map as an object), or its zero value when the member is missing or mistyped; a raw payload is the input unchanged |
| NotificationHandler.ParseNotificationData | core/domain/strategy/handlers/notification_handler.go:72-84 | a well-typed object succeeds exactly when userId is non-zero and channel and recipient are non-empty, otherwise "required fields missing"; an ill-typed one is a data decode error; a success is a valid record whose payload is the typed one |
| NotificationHandler.ParseNotificationMessage | core/domain/strategy/handlers/notification_handler.go:44-58 | envelope errors pass through unchanged; a malformed body is an envelope error; once the data member is extracted, the result is exactly its decoding (success or data-phase error); a success is a valid record |
| NotificationHandler.OnMessage | core/domain/strategy/handlers/notification_handler.go:30-41 | a record is delivered exactly when the message decodes; the message is acknowledged exactly when it decodes and delivery returns no error, and negatively acknowledged otherwise |
| NotificationHandler.Handle | core/domain/strategy/handlers/notification_handler.go:28-42 | one disposition per delivered message, Ack exactly when that message decodes and its delivery succeeds; the receive error is returned unchanged |
| NotificationHandler.CoerceEncodedPayload | core/domain/strategy/handlers/notification_handler.go:86-111 | encoding a channel-matching payload and parsing it back gives the payload (round trip), except an all-empty push payload |
| NotificationHandler.DecodeEncodedRecord | core/domain/strategy/handlers/notification_handler.go:44-84 | a valid record wrapped in an envelope's `data` member decodes back to itself |
| NotificationHandler.EmailPayloadKeepsHtml | core/domain/strategy/handlers/notification_handler.go:88-91 | any e-mail payload object with a string `html` keeps it, whatever other members it has, and a missing or non-string `plainText` becomes "" |
| NotificationHandler.PartialEmailPayload | core/domain/strategy/handlers/notification_handler.go:88-91 | an e-mail payload with only `html` decodes with an empty plain-text part, without failing |
| NotificationHandler.LowerCaseChannelKeepsRawPayload | core/domain/strategy/handlers/notification_handler_test.go:30 | the test's message, whose channel is lower-case `email`, decodes with its payload left raw |
| SubscriptionStrategy.NewSubscriptionHandlerStrategy | core/domain/strategy/subscription_strategy.go:14-23 | production routes only the production subscription, `hml` only the staging one, any other environment none; every handler carries the configuration |
| SubscriptionStrategy.GetHandler | core/domain/strategy/subscription_strategy.go:25-30 | a handler is found exactly when the id is a key of the table, and it is that entry |
| SubscriptionStrategy.RoutingByEnvironment | core/domain/strategy/subscription_strategy.go:14-30 | an id has a handler exactly when it is the subscription of the environment (`prod` or `hml`), and that handler carries the configuration |
| SubscriptionService.Listen | core/application/subscription/subscription_service.go:29-54 | only routed subscriptions are handled; an iterator error returned is one the iterator produced; the processing error comes only after a handled subscription; with no routes nothing is handled |
| SubscriptionService.ListenCharacterization | core/application/subscription/subscription_service.go:32-53 | against a reference definition: up to the first stopping item (done, iterator error, failing handler) exactly the routed subscriptions are handled in order; the error is none for done or end, the iterator's own error unchanged, or the fixed processing error |
| SubscriptionService.ListenStopsAt | core/application/subscription/subscription_service.go:34-51 | nothing after a stopping item affects the result |
| SubscriptionService.ListenEmpty | core/application/subscription/subscription_service.go:35-37 | an iterator that is done at once gives no error and handles nothing |
| SubscriptionService.ListenNotifications | core/application/subscription/subscription_service.go:20-54 | as wired with the environment's routing table, only subscriptions the table routes are handled |
| SubscriptionService.UnknownEnvironmentHandlesNothing | core/domain/strategy/subscription_strategy.go:14-23 | outside `prod` and `hml` the listener handles nothing and never reports a processing error |
| HttpUtils.CanonicalHeaderKey | core/infra/utils/functions/http_utils.go:76-81 | `Header.Set` key canonicalisation: the same letters up to case, the first letter and each letter after `-` upper-cased and the rest lower-cased for a valid token, and a non-token unchanged |
| HttpUtils.CanonicalHeaderKeyIdempotent | core/infra/utils/functions/http_utils.go:76-81 | canonicalising twice is canonicalising once |
| HttpUtils.SetHeaders | core/infra/utils/functions/http_utils.go:76-78 | the header set gains exactly the canonical keys supplied; other headers are untouched; a key no other supplied key collides with gets its value |
| HttpUtils.BuildHeaders | core/infra/utils/functions/http_utils.go:76-81 | the headers are the canonical supplied keys plus Content-Type when there is data; Content-Type defaults to JSON unless supplied and is never empty; each non-colliding supplied value is kept |
| HttpUtils.BuildHeadersOrderIndependent | core/infra/utils/functions/http_utils.go:76-78 | when no two supplied keys collide after canonicalisation, the map's visiting order does not change the headers |
| HttpUtils.HeaderValue | core/infra/utils/functions/http_utils.go:76-81 | a supplied key no other key collides with ends up with its value, except an empty Content-Type sent with data, which becomes the JSON type |
| HttpUtils.SingleHeaderWithData | core/infra/utils/functions/http_utils.go:76-81 | one canonical header with a body gives exactly that header and the JSON content type |
| HttpUtils.BuildUrl | core/infra/utils/functions/http_utils.go:85-99 | with no parameters the URL is returned untouched; otherwise it is the query encoder's result, including its error |
| HttpUtils.BuildRequest | core/infra/utils/functions/http_utils.go:54-83 | succeeds exactly when the URL and `NewRequest` succeed; a body is attached exactly when there is data and the method is POST, PUT or PATCH; the context defaults to background; the headers are `BuildHeaders` |
| HttpUtils.ReturnError | core/infra/utils/functions/http_utils.go:144-152 | never a value; an error exactly when errors are shown, carrying the status and the message, with `: cause` appended when there is a cause |
| HttpUtils.ParseHttpError | core/infra/utils/functions/http_utils.go:129-142 | the error keeps the response status; its message is the body's string `message` when non-empty, else the fixed unknown-error text |
| HttpUtils.HandleResponse | core/infra/utils/functions/http_utils.go:109-127 | a value exactly when the status is below 400 and the body is empty or JSON, with an empty body giving null; an error never accompanies a value, and always replaces a missing one when errors are shown; a status of 400 or more with a readable body gives the parsed HTTP error; an unreadable body gives the read-response error with the read error as cause, and a body below 400 that is not JSON the decode-JSON error with the decoder's error as cause, both with status 500 |
| HttpUtils.Send | core/infra/utils/functions/http_utils.go:37-50 | a value exactly when the request is built, the round trip succeeds and the response succeeds; with errors shown, an error exactly when there is no value; otherwise never an error; a request that cannot be built gives the create-request error, a failed round trip the execute-request error (both status 500), and an answer is handled by `HandleResponse` |
| HttpUtils.SendClientError | core/infra/utils/functions/http_utils.go:37-50 | a 4xx answer whose body has a `message` gives no value and an exception with that message and the answer's status, as the 404 "not found" case expects |
| HttpUtils.SendDecodedBody | core/infra/utils/functions/http_utils.go:37-50 | a 2xx answer with a JSON body gives that decoded body and no error |
| HttpUtils.CreateBasicAuthHeader | core/infra/utils/functions/http_utils.go:154-160 | a single Authorization header, `Basic ` followed by a space-free token that decodes to the UTF-8 of `username:password` |
| HttpUtils.ErrorTextCarriesStatus | core/infra/utils/functions/http_utils.go:33-35 | the error text is `status `, the decimal status, `: ` and the message, and the decimal part reads back as the status |
| HttpService.BuildRequestConfig | core/infra/http_service/http_service.go:38-48 | every argument lands in the configuration field of the same name |
| HttpService.NotificationConfig | core/infra/http_service/http_service.go:27-33 | the delivery call is a POST of the record to `<base>/notification`, without parameters or context, with the Basic-Auth header only and errors shown |
| HttpService.SendNotification | core/infra/http_service/http_service.go:27-36 | delivery fails exactly when the request cannot be built, the round trip fails, or the endpoint does not answer below 400 with an empty or JSON body; the error is exactly the one `Send` returns |
| HttpService.NotificationRejected | core/infra/http_service/http_service.go:27-36 | a delivery the endpoint rejects with a 4xx answer carrying a `message` reports that message and the answer's status |
| HttpService.DeliveryRequest | core/infra/http_service/http_service.go:28-33 | the request the endpoint receives: POST, the URL, the record as body, and exactly the Authorization and JSON Content-Type headers |
| IdList.ParseItems | core/infra/utils/functions/parse_ids.go:15-21 | succeeds exactly when every item parses, giving their values in order; otherwise the error of the first item that fails |
| IdList.ParseIds | core/infra/utils/functions/parse_ids.go:8-23 | blank input is the empty list; otherwise success exactly when every comma-separated item parses, with one value per item in order; on failure the error is that of the first item that does not parse |
| IdList.BlankItemFails | core/infra/utils/functions/parse_ids.go:13-19 | an empty or blank item (as in `1,,2` or `1,`) makes non-blank input fail |
| IdList.PaddedItem | core/infra/utils/functions/parse_ids.go:16 | white space around an item does not change how it parses |
| IdList.ItoaItem | core/infra/utils/functions/parse_ids.go:16 | a decimal spelling of a 64-bit integer is a comma-free item that parses back to its value |
| IdList.ParseJoinedIds | core/infra/utils/functions/parse_ids.go:8-23 | round trip: 64-bit integers written in decimal and joined by commas parse back to the same list |
| BasicAuth.Authenticate | core/application/auth/basic_auth.go:26-48 | each error exactly characterised: required when the header is empty; invalid when it is not `Basic <token>`; decode error when the token is not Base64; success exactly when the token decodes to `username:password` and neither contains a colon; otherwise invalid credentials |
| BasicAuth.HeaderParts | core/application/auth/basic_auth.go:32-35 | splitting the header at spaces gives `Basic` and one more part exactly when the header is `Basic ` and a space-free token, and that part is the token |
| BasicAuth.CredentialParts | core/application/auth/basic_auth.go:42-45 | the decoded bytes split at `:` into exactly the two expected parts when they are the UTF-8 of `username:password` and neither contains a colon |
| BasicAuth.Middleware | core/application/auth/basic_auth.go:12-24 | `/` always proceeds; any other path proceeds exactly when authentication succeeds; an abort is status 400 with exactly statusCode and the error's message |
| BasicAuth.CreatedHeaderAuthenticates | core/application/auth/basic_auth.go:26-48 | round trip with the header builder: the header built for colon-free credentials is accepted for them |
| BasicAuth.ColonNeverAuthenticates | core/application/auth/basic_auth.go:42-45 | credentials containing a colon are never accepted |
| BasicAuth.AcceptedHeaderShape | core/application/auth/basic_auth.go:26-48 | an accepted header is `Basic ` followed by a token that decodes to the UTF-8 of `username:password` |
| Validation.LowerRune | core/infra/validation/validation_messages.go:39 | an upper-case letter moves to its lower case; any other character is unchanged; the result is never upper-case |
| Validation.ToCamelLower | core/infra/validation/validation_messages.go:35-40 | corrected version: same length, the first character lower-cased and the rest unchanged |
| Validation.ToCamelLowerIdempotent | core/infra/validation/validation_messages.go:35-40 | lower-casing the first character twice is doing it once |
| Validation.ToCamelLowerBytes | core/infra/validation/validation_messages.go:35-40 | as written, on bytes: an ASCII first byte is lower-cased (as `LowerRune` does) with the rest kept; a non-ASCII first byte becomes the replacement character EF BF BD with the rest kept |
| Validation.ToCamelLowerBytesAgrees | core/infra/validation/validation_messages.go:39 | for text starting with an ASCII character, the byte version and the corrected version agree |
| Validation.ToCamelLowerBytesMangles | core/infra/validation/validation_messages.go:39 | counterexample: `É` gives EF BF BD 89 instead of `é` (C3 A9), and the byte version is not idempotent |
| Validation.Segments | core/infra/validation/validation_messages.go:24-28 | the struct name is dropped when the namespace has several segments, and a namespace without a dot is its own single segment |
| Validation.CamelToDotNotation | core/infra/validation/validation_messages.go:23-33 | splitting the path at its dots gives the kept segments, each with its first character lower-cased by the corrected `ToCamelLower` (see Findings for the byte-level original); a dot-free namespace is just lower-cased |
| Validation.FieldPathStart | core/infra/validation/validation_messages.go:23-33 | a field path never starts with an upper-case letter |
| Validation.ThreeSegmentPath | core/infra/validation/validation_messages.go:23-33 | `A.B.C` is reported as lower-cased `b.c` |
| Validation.LastWins | core/infra/validation/validation_messages.go:10-19 | a map written in a loop has one key per distinct element key; each value comes from an element with that key; the last element with a key decides its value |
| Validation.ValidationMessages | core/infra/validation/validation_messages.go:9-21 | one entry per distinct field path, each holding the registered message for `<path>.<tag>` or the default; the last error on a path wins |
| Validation.SingleError | core/infra/validation/validation_messages.go:9-21 | one error gives exactly one entry: its path and its message |
| Validation.CreateInputErrorsNeverMatch | core/application/publish/dto/input.go:8-11 | with the publish input's messages every field gets the default message, since no lookup key starts with `M` or `D` |
| Validation.MissingTopicGetsDefault | core/application/publish/dto/input.go:8-11 | as written: a missing `Meta.Topic` is reported under `meta.topic` with the default message |
| Validation.MissingTopicGetsRegisteredMessage | core/application/publish/dto/input.go:8-11 | corrected keys: the same error is reported with the topic's registered message |
| Validation.ValidationErrorText | core/domain/structs/validation_message_error.go:7-12 | the error text is the first message, or the fixed validation text when there is none |
| Exceptions.FirstWith | core/infra/exceptions/all_exception_filters.go:57-71 | the errors.As search: the index of the first layer of the chain that has the capability, or the chain's length |
| Exceptions.FirstIsUnique | core/infra/exceptions/all_exception_filters.go:57-71 | the first matching layer is unique, and with no match the search runs off the end |
| Exceptions.Respond | core/infra/exceptions/all_exception_filters.go:73-86 | the body has statusCode, message and path with the given values, `errors` exactly when there are details, and `stack` exactly outside production |
| Exceptions.ErrorResponse | core/infra/exceptions/all_exception_filters.go:37-54 | the first status-coding layer gives the status and message; with none the status is 500 and the message is the error's text; `errors` exactly when the first details layer gives details, and then holding exactly those details; `stack` exactly outside production, holding the stack trace |
| Exceptions.HandleRecoveredError | core/infra/exceptions/all_exception_filters.go:32-55 | a recovered value that is not an error gives 500, the default message and no errors; an error gives its error response; outside production `stack` holds the stack trace |
| Exceptions.AllExceptionFilter | core/infra/exceptions/all_exception_filters.go:20-30 | a response is written exactly when there was a panic, with `stack` exactly when the environment is not `prod`; the response is `HandleRecoveredError`'s for the recovered value |
| Exceptions.WrappedStatusCoder | core/infra/exceptions/all_exception_filters.go:43-45 | a status-coding error wrapped in a plain one still decides the status and the message |
| Exceptions.WrappedDetailsReported | core/infra/exceptions/all_exception_filters.go:65-71 | details of a wrapped error reach the body's `errors` unchanged |
| Exceptions.NilDetailsShadow | core/infra/exceptions/all_exception_filters.go:65-71 | a top-level `GetDetails` returning nil hides details deeper in the chain |
| TrimPipe.TrimField | core/infra/utils/pipe/trim_pipe.go:11-14 | a settable string field is trimmed, and every other field is unchanged |
| TrimPipe.Pipe | core/infra/utils/pipe/trim_pipe.go:8-16 | same fields in the same order; each settable string becomes a trimmed slice with only white space cut on either side; others unchanged |
| TrimPipe.PipeIdempotent | core/infra/utils/pipe/trim_pipe.go:8-16 | trimming twice is trimming once |
| Text.TrimSpaceIdempotent | core/infra/utils/pipe/trim_pipe.go:13 | `strings.TrimSpace` is idempotent |
| Text.TrimSpaceUnique | core/infra/utils/pipe/trim_pipe.go:13 | against a reference description: cutting any white-space prefix and suffix that leave a trimmed middle gives exactly what `strings.TrimSpace` gives |
| Text.TrimSpaceEmpty | core/infra/utils/functions/parse_ids.go:9-11 | a string trims to empty exactly when it is all white space |
| Text.JoinSplit | core/infra/validation/validation_messages.go:25-32 | joining a split at the same separator gives back the input |
| Base64.DecodeEncode | core/infra/utils/functions/http_utils.go:155-156 | standard Base64 decoding inverts encoding |

## Left out

- JSON details are left out: case-insensitive key matching in `encoding/json`, duplicate
  keys and key order. Objects are maps keyed by exact name.
- NotificationDto.RecordToJson passes a raw payload's numbers through unchanged. Go decodes
  the generic payload's numbers as `float64` and writes them back, so an integer beyond 2^53
  loses precision (9007199254740993 goes out as 9007199254740992). Floating point is not
  modelled; the numbers the core itself reads are 64-bit integers.
- The text of JSON error messages is left out. Errors are named by kind.
- Typed JSON decoding into any `T` other than `any` is left out. The core only ever decodes
  into a generic document.
- `json.Marshal` failures are left out. The values marshalled are plain records that always
  encode.
- Concurrency is left out: concurrent callbacks, cancellation through the context, and the
  blocking of the receive loop. The model is sequential, and each message's decision is a
  pure function of that message.
- Exceptions.HandleRecoveredError: errors whose `Unwrap` returns several errors are not
  modelled; the chain is a single list. Only a nil interface from `GetDetails` is
  `GetDetails(None)`; a typed nil such as a nil slice is `GetDetails(Some(JNull))` and is
  written as `"errors": null`.
- The Pub/Sub client library is left out: connection, topic handles, publishing and the
  publish service. The broker is the `Broker` adapter over given data.
- Logging is left out. It has no effect on results.
- `url.Parse`, query encoding and `http.NewRequestWithContext` are parameters of
  `HttpUtils.Net`, as is the round trip.
- HttpUtils.ParseHttpError matches the `message` key exactly. The case-insensitive field
  match of `encoding/json` is not modelled.
- SubscriptionService.Listen treats running off the end of the item sequence as `Done`.
  A real iterator always ends with a sentinel or an error.
- Validation.LowerRune is the corrected lower-casing. It covers ASCII and the Latin-1
  capitals U+00C0..U+00DE; other letters are left unchanged. The source lower-cases only an
  ASCII first byte and turns a non-ASCII first byte into U+FFFD (see Findings).
- Validation.CamelToDotNotation builds paths with the corrected character-level
  `ToCamelLower`. For a segment whose first letter is not ASCII the source writes EF BF BD
  followed by the letter's continuation bytes instead (see Findings); the byte-level
  behaviour is `ToCamelLowerBytes`, which the paths do not use.
- Validation.ValidationMessages inherits the corrected paths of `CamelToDotNotation`, so its
  keys differ from the source's for a field whose name starts with a non-ASCII letter.
- Status codes outside 100..999 are left out. `net/http` panics on them.
- Reflection panics in the trimming pipe are left out. A non-pointer value makes
  `reflect.Value.Elem` panic.
- The gin response helpers and router glue are left out.
- The request's full path and the stack trace are parameters of `Exceptions`.
- The environment variable read by the exception filter is a parameter.

## Findings

| source | as written | input that shows it | evidently intended | confidence | as-written member | corrected member |
|---|---|---|---|---|---|---|
| core/infra/validation/validation_messages.go:39 | lower-cases the first byte of a segment, so a non-ASCII first letter becomes U+FFFD followed by a stray continuation byte | a struct field named `É…` (UTF-8 C3 89) | lower-case the first character: `é` (C3 A9) | medium; not executed | Validation.ToCamelLowerBytesMangles | Validation.ToCamelLowerIdempotent |
| core/application/publish/dto/input.go:8-11 | registers the publish input's messages under capitalised keys (`Meta.Topic.required`), while lookup keys are built from lower-cased paths (`meta.topic.required`) | a missing topic: namespace `InputDto.Meta.Topic`, tag `required` | the registered message "O tópico é obrigatório." | high; not executed | Validation.MissingTopicGetsDefault | Validation.MissingTopicGetsRegisteredMessage |
