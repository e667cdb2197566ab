/** The generic HTTP helper: building a request from a configuration, sending it, and
    classifying the response into a decoded value or an `HttpException`.

    The standard library's side of a call is a parameter (`Net`): encoding query
    parameters into a URL, `http.NewRequestWithContext`'s own validation of the method and
    URL, and the round trip of `client.Do`. A response body is what `io.ReadAll` produced,
    and the decoded value is `encoding/json`'s generic value (`T = any`). */
module HttpUtils {
  import opened Wrappers
  import opened Json
  import opened Text
  import opened Decimal
  import opened Bytes
  import Base64

  const MethodPost: string := "POST"
  const MethodPut: string := "PUT"
  const MethodPatch: string := "PATCH"

  const StatusInternalServerError: int := 500
  /** Responses from this status on are failures. */
  const StatusBadRequest: int := 400

  const ContentTypeKey: string := "Content-Type"
  const JsonContentType: string := "application/json"
  const AuthorizationKey: string := "Authorization"
  const BasicScheme: string := "Basic "

  const CreateRequestFailed: string := "Erro ao criar requisição"
  const ExecuteRequestFailed: string := "Erro ao executar requisição"
  const ReadResponseFailed: string := "Erro ao ler resposta"
  const DecodeJsonFailed: string := "Erro ao decodificar JSON"
  const UnknownError: string := "Erro desconhecido"

  /** A `context.Context`: the background context, or one the caller supplied. */
  datatype Context = Background | Ctx(handle: nat)

  /** `RequestConfig`. `data` None is Go's nil; `ctx` None is a nil context. */
  datatype RequestConfig = RequestConfig(
    httpMethod: string,
    url: string,
    data: Option<Json>,
    params: map<string, string>,
    headers: map<string, string>,
    ctx: Option<Context>,
    showError: bool)

  /** `HttpException`, the error every failure is reported as. */
  datatype HttpException = HttpException(message: string, status: int)
  {
    /** `Error()`: the status in decimal, then the message. */
    function Error(): (s: string)
      ensures |s| > |"status "| && s[..|"status "|] == "status "
    {
      "status " + Itoa(status) + ": " + message
    }
  }

  /** The request handed to the client; `body` is the JSON value whose encoding is sent. */
  datatype Request = Request(
    httpMethod: string,
    url: string,
    ctx: Context,
    body: Option<Json>,
    headers: map<string, string>)

  /** A body `io.ReadAll` read: empty, or non-empty bytes that parse or do not. */
  datatype ReadBody = NoContent | Content(doc: Body)

  /** A response; `body` is Err with the error text when reading it failed. */
  datatype Response = Response(status: int, body: Result<ReadBody, string>)

  /** The standard library's side of a call. `encodeQuery` parses a URL and merges the
      parameters into its query; `newRequest` is the error `http.NewRequestWithContext`
      reports for a method and URL, if any; `roundTrip` is `client.Do`. */
  datatype Net = Net(
    encodeQuery: (string, map<string, string>) -> Result<string, string>,
    newRequest: (string, string) -> Option<string>,
    roundTrip: Request -> Result<Response, string>)

  /** `Send`'s two results: the decoded value (None for a nil pointer) and the error. */
  datatype SendResult = SendResult(value: Option<Json>, err: Option<HttpException>)

  /** POST, PUT and PATCH carry a body; no other method does. */
  predicate AllowsBody(httpMethod: string)
  {
    httpMethod == MethodPost || httpMethod == MethodPut || httpMethod == MethodPatch
  }

  /** A character allowed in a header field name (a token character of RFC 7230). */
  predicate IsTokenChar(c: char)
  {
    || 'a' <= c <= 'z' || 'A' <= c <= 'Z' || '0' <= c <= '9'
    || c == '!' || c == '#' || c == '$' || c == '%' || c == '&' || c == '\'' || c == '*'
    || c == '+' || c == '-' || c == '.' || c == '^' || c == '_' || c == '`' || c == '|' || c == '~'
  }

  predicate IsToken(s: string)
  {
    forall i :: 0 <= i < |s| ==> IsTokenChar(s[i])
  }

  /** Whether canonical case puts the character at `i` in upper case: the first one when
      `upper` holds, and every one that follows a hyphen. */
  predicate UpperAt(s: string, upper: bool, i: int)
    requires 0 <= i < |s|
  {
    if i == 0 then upper else s[i - 1] == '-'
  }

  /** Upper-cases the first letter and every letter after a hyphen, lower-cases the rest. */
  function CanonicalFrom(s: string, upper: bool): (r: string)
    ensures |r| == |s|
    ensures forall i :: 0 <= i < |s| ==>
              r[i] == (if UpperAt(s, upper, i) then ToUpperAscii(s[i]) else ToLowerAscii(s[i]))
  {
    if |s| == 0 then ""
    else
      var c := if upper then ToUpperAscii(s[0]) else ToLowerAscii(s[0]);
      var rest := CanonicalFrom(s[1..], c == '-');
      assert forall i :: 1 <= i < |s| ==> UpperAt(s[1..], c == '-', i - 1) == UpperAt(s, upper, i);
      [c] + rest
  }

  /** `textproto.CanonicalMIMEHeaderKey`, which `Header.Set` and `Header.Get` apply: a key
      made only of token characters is put in canonical case; any other key is kept as is. */
  function CanonicalHeaderKey(k: string): (r: string)
    ensures |r| == |k|
    ensures forall i :: 0 <= i < |k| ==> ToLowerAscii(r[i]) == ToLowerAscii(k[i])
    ensures IsToken(k) ==> forall i :: 0 <= i < |k| ==>
              r[i] == (if UpperAt(k, true, i) then ToUpperAscii(k[i]) else ToLowerAscii(k[i]))
    ensures !IsToken(k) ==> r == k
  {
    if IsToken(k) then
      CanonicalSameLetters(k);
      CanonicalFrom(k, true)
    else k
  }

  /** Canonical case changes only the case of letters. */
  lemma CanonicalSameLetters(k: string)
    ensures forall i :: 0 <= i < |k| ==> ToLowerAscii(CanonicalFrom(k, true)[i]) == ToLowerAscii(k[i])
  {
    var r := CanonicalFrom(k, true);
    forall i | 0 <= i < |k|
      ensures ToLowerAscii(r[i]) == ToLowerAscii(k[i])
    {
      CaseFold(k[i]);
    }
  }

  /** Canonicalising a canonical key changes nothing. */
  lemma CanonicalHeaderKeyIdempotent(k: string)
    ensures CanonicalHeaderKey(CanonicalHeaderKey(k)) == CanonicalHeaderKey(k)
  {
    var r := CanonicalHeaderKey(k);
    if IsToken(k) {
      assert IsToken(r);
      forall i | 0 <= i < |r|
        ensures CanonicalHeaderKey(r)[i] == r[i]
      {
        if i > 0 {
          assert r[i - 1] == '-' <==> k[i - 1] == '-';
        }
      }
    }
  }

  /** A key already in canonical case. */
  lemma CanonicalKeyUnchanged(k: string)
    requires IsToken(k)
    requires forall i :: 0 <= i < |k| ==>
               k[i] == (if UpperAt(k, true, i) then ToUpperAscii(k[i]) else ToLowerAscii(k[i]))
    ensures CanonicalHeaderKey(k) == k
  {
  }

  /** `Authorization` is already in canonical case. */
  lemma AuthorizationIsCanonical()
    ensures CanonicalHeaderKey(AuthorizationKey) == AuthorizationKey
  {
    var k := AuthorizationKey;
    assert IsToken(k);
    forall i | 0 <= i < |k|
      ensures k[i] == (if UpperAt(k, true, i) then ToUpperAscii(k[i]) else ToLowerAscii(k[i]))
    {
    }
    CanonicalKeyUnchanged(k);
  }

  /** The canonical forms of a set of keys. */
  function CanonicalKeys(keys: set<string>): set<string>
  {
    set k | k in keys :: CanonicalHeaderKey(k)
  }

  /** No other key of `m` has the same canonical form as `k`. */
  predicate OnlyKeyFor(m: map<string, string>, k: string)
  {
    forall k' :: k' in m && CanonicalHeaderKey(k') == CanonicalHeaderKey(k) ==> k' == k
  }

  /** `order` lists the keys of `m`, each once: one order in which Go's `range` may visit it. */
  ghost predicate Enumerates(order: seq<string>, m: map<string, string>)
  {
    && (forall k :: k in m <==> k in order)
    && (forall i, j :: 0 <= i < j < |order| ==> order[i] != order[j])
  }

  /** `Header.Set` for each supplied key in `order`: a later key overwrites an earlier one
      with the same canonical form. */
  function SetHeaders(h: map<string, string>, supplied: map<string, string>, order: seq<string>): (r: map<string, string>)
    requires forall k :: k in order ==> k in supplied
    ensures r.Keys == h.Keys + CanonicalKeys(set k | k in order)
    ensures forall c :: c in h && c !in CanonicalKeys(set k | k in order) ==> r[c] == h[c]
    ensures forall k :: k in order && OnlyKeyFor(supplied, k) ==> r[CanonicalHeaderKey(k)] == supplied[k]
    decreases |order|
  {
    if |order| == 0 then h
    else
      var k := order[0];
      var r := SetHeaders(h[CanonicalHeaderKey(k) := supplied[k]], supplied, order[1..]);
      SetHeadersStep(h, supplied, order, r);
      r
  }

  /** The keys of a non-empty order: its head and the keys of its tail. */
  lemma OrderKeys(order: seq<string>)
    requires |order| > 0
    ensures CanonicalKeys(set k | k in order) == {CanonicalHeaderKey(order[0])} + CanonicalKeys(set k | k in order[1..])
  {
    assert (set k | k in order) == {order[0]} + (set k | k in order[1..]);
  }

  /** Setting the head first and then the tail describes the whole order. */
  lemma SetHeadersStep(h: map<string, string>, supplied: map<string, string>, order: seq<string>, r: map<string, string>)
    requires |order| > 0 && forall k :: k in order ==> k in supplied
    requires var h' := h[CanonicalHeaderKey(order[0]) := supplied[order[0]]];
             && r.Keys == h'.Keys + CanonicalKeys(set k | k in order[1..])
             && (forall c :: c in h' && c !in CanonicalKeys(set k | k in order[1..]) ==> r[c] == h'[c])
             && (forall k :: k in order[1..] && OnlyKeyFor(supplied, k) ==> r[CanonicalHeaderKey(k)] == supplied[k])
    ensures r.Keys == h.Keys + CanonicalKeys(set k | k in order)
    ensures forall c :: c in h && c !in CanonicalKeys(set k | k in order) ==> r[c] == h[c]
    ensures forall k :: k in order && OnlyKeyFor(supplied, k) ==> r[CanonicalHeaderKey(k)] == supplied[k]
  {
    var k0 := order[0];
    var h' := h[CanonicalHeaderKey(k0) := supplied[k0]];
    var rest := CanonicalKeys(set k | k in order[1..]);
    OrderKeys(order);
    forall k | k in order && OnlyKeyFor(supplied, k)
      ensures r[CanonicalHeaderKey(k)] == supplied[k]
    {
      if k !in order[1..] {
        forall k' | k' in order[1..]
          ensures CanonicalHeaderKey(k') != CanonicalHeaderKey(k)
        {
          assert k' in supplied;
        }
      }
    }
  }

  /** `Header.Get` of `Content-Type`. */
  function ContentType(h: map<string, string>): string
  {
    if ContentTypeKey in h then h[ContentTypeKey] else ""
  }

  /** The headers `buildRequest` sets: the supplied ones, in the order Go visits them, and
      then `Content-Type: application/json` when there is data and no non-empty
      `Content-Type` came with it. */
  function BuildHeaders(supplied: map<string, string>, order: seq<string>, hasData: bool): (r: map<string, string>)
    requires Enumerates(order, supplied)
    ensures r.Keys == CanonicalKeys(supplied.Keys) + (if hasData then {ContentTypeKey} else {})
    ensures hasData ==> r[ContentTypeKey] != ""
    ensures hasData && ContentTypeKey !in CanonicalKeys(supplied.Keys) ==> r[ContentTypeKey] == JsonContentType
    ensures forall k :: k in supplied && OnlyKeyFor(supplied, k) && supplied[k] != "" ==>
              r[CanonicalHeaderKey(k)] == supplied[k]
    ensures forall k :: k in supplied && OnlyKeyFor(supplied, k) && CanonicalHeaderKey(k) != ContentTypeKey ==>
              r[CanonicalHeaderKey(k)] == supplied[k]
  {
    assert (set k | k in order) == supplied.Keys;
    var h := SetHeaders(map[], supplied, order);
    if hasData && ContentType(h) == "" then h[ContentTypeKey := JsonContentType] else h
  }

  /** One canonical header other than `Content-Type`, sent with data. */
  lemma SingleHeaderWithData(k: string, v: string)
    requires CanonicalHeaderKey(k) == k && k != ContentTypeKey
    ensures Enumerates([k], map[k := v])
    ensures BuildHeaders(map[k := v], [k], true) == map[k := v, ContentTypeKey := JsonContentType]
  {
    var supplied := map[k := v];
    assert CanonicalKeys(supplied.Keys) == {k};
    assert OnlyKeyFor(supplied, k);
  }

  /** With no two supplied keys sharing a canonical form, the headers do not depend on the
      order in which Go's map iteration visits them. */
  lemma BuildHeadersOrderIndependent(supplied: map<string, string>, o1: seq<string>, o2: seq<string>, hasData: bool)
    requires Enumerates(o1, supplied) && Enumerates(o2, supplied)
    requires forall k :: k in supplied ==> OnlyKeyFor(supplied, k)
    ensures BuildHeaders(supplied, o1, hasData) == BuildHeaders(supplied, o2, hasData)
  {
    var r1, r2 := BuildHeaders(supplied, o1, hasData), BuildHeaders(supplied, o2, hasData);
    assert r1.Keys == r2.Keys;
    forall c | c in r1
      ensures r1[c] == r2[c]
    {
      if c in CanonicalKeys(supplied.Keys) {
        var k :| k in supplied && CanonicalHeaderKey(k) == c;
        HeaderValue(supplied, o1, hasData, k);
        HeaderValue(supplied, o2, hasData, k);
      }
    }
  }

  /** The header a supplied key that no other key collides with ends up with: its value,
      unless it is an empty `Content-Type` sent with data, which is defaulted. */
  lemma HeaderValue(supplied: map<string, string>, order: seq<string>, hasData: bool, k: string)
    requires Enumerates(order, supplied) && k in supplied && OnlyKeyFor(supplied, k)
    ensures BuildHeaders(supplied, order, hasData)[CanonicalHeaderKey(k)]
            == if CanonicalHeaderKey(k) == ContentTypeKey && hasData && supplied[k] == "" then JsonContentType
               else supplied[k]
  {
    assert k in order;
    var h := SetHeaders(map[], supplied, order);
    assert h[CanonicalHeaderKey(k)] == supplied[k];
  }

  /** `buildURLWithParams`: with no parameters the URL is used as given. */
  function BuildUrl(url: string, params: map<string, string>, net: Net): (r: Result<string, string>)
    ensures |params| == 0 ==> r == Ok(url)
    ensures |params| > 0 ==> r == net.encodeQuery(url, params)
  {
    if |params| == 0 then Ok(url) else net.encodeQuery(url, params)
  }

  /** `buildRequest`. `order` is the order Go's `range` visits the supplied headers in. */
  function BuildRequest(cfg: RequestConfig, order: seq<string>, net: Net): (r: Result<Request, string>)
    requires Enumerates(order, cfg.headers)
    ensures r.Ok? <==> BuildUrl(cfg.url, cfg.params, net).Ok?
                       && net.newRequest(cfg.httpMethod, BuildUrl(cfg.url, cfg.params, net).value).None?
    ensures r.Ok? ==> r.value.httpMethod == cfg.httpMethod && r.value.url == BuildUrl(cfg.url, cfg.params, net).value
    ensures r.Ok? ==> (r.value.body.Some? <==> cfg.data.Some? && AllowsBody(cfg.httpMethod))
    ensures r.Ok? && r.value.body.Some? ==> r.value.body == cfg.data
    ensures r.Ok? ==> r.value.ctx == (if cfg.ctx.Some? then cfg.ctx.value else Background)
    ensures r.Ok? ==> r.value.headers == BuildHeaders(cfg.headers, order, cfg.data.Some?)
  {
    var u :- BuildUrl(cfg.url, cfg.params, net);
    var body := if cfg.data.Some? && AllowsBody(cfg.httpMethod) then cfg.data else None;
    var ctx := if cfg.ctx.None? then Background else cfg.ctx.value;
    var failure := net.newRequest(cfg.httpMethod, u);
    if failure.Some? then Err(failure.value)
    else Ok(Request(cfg.httpMethod, u, ctx, body, BuildHeaders(cfg.headers, order, cfg.data.Some?)))
  }

  /** `returnError`: nothing at all when errors are hidden, otherwise an `HttpException`
      whose message is `msg`, followed by the cause when the cause has text. */
  function ReturnError(showError: bool, msg: string, cause: string, status: int): (r: SendResult)
    ensures r.value.None?
    ensures !showError <==> r.err.None?
    ensures showError ==> r.err.value.status == status
    ensures showError ==> |msg| <= |r.err.value.message| && r.err.value.message[..|msg|] == msg
    ensures showError && cause == "" ==> r.err.value.message == msg
    ensures showError && cause != "" ==> r.err.value.message[|msg|..] == ": " + cause
  {
    if !showError then SendResult(None, None)
    else if cause != "" then SendResult(None, Some(HttpException(msg + ": " + cause, status)))
    else SendResult(None, Some(HttpException(msg, status)))
  }

  /** The `message` member of an error body, or "" when the body is empty, does not parse,
      or has no string `message`. */
  function ApiMessage(b: ReadBody): string
  {
    if b.Content? && b.doc.Parsed? then StringMember(b.doc.value, "message") else ""
  }

  /** `parseHttpError`: the exception carries the response status and the body's message,
      or "Erro desconhecido" when the body gives none. */
  function ParseHttpError(b: ReadBody, status: int): (e: HttpException)
    ensures e.status == status
    ensures e.message != ""
    ensures ApiMessage(b) != "" ==> e.message == ApiMessage(b)
    ensures ApiMessage(b) == "" ==> e.message == UnknownError
  {
    var msg := ApiMessage(b);
    HttpException(if msg == "" then UnknownError else msg, status)
  }

  /** A response `handleResponse` turns into a value: read, below 400, and empty or JSON. */
  predicate Succeeds(resp: Response)
  {
    && resp.body.Ok?
    && resp.status < StatusBadRequest
    && !(resp.body.value.Content? && resp.body.value.doc.Malformed?)
  }

  /** `handleResponse` with `T = any`. */
  function HandleResponse(resp: Response, showError: bool): (r: SendResult)
    ensures r.value.Some? <==> Succeeds(resp)
    ensures r.value.Some? ==> r.err.None?
    ensures !showError ==> r.err.None?
    ensures showError && !Succeeds(resp) ==> r.err.Some?
    ensures Succeeds(resp) && resp.body.value.NoContent? ==> r.value == Some(JNull)
    ensures Succeeds(resp) && resp.body.value.Content? ==> r.value == Some(resp.body.value.doc.value)
    ensures showError && resp.body.Ok? && resp.status >= StatusBadRequest ==>
              r.err == Some(ParseHttpError(resp.body.value, resp.status))
    ensures r.err.Some? && r.err.value.status != resp.status ==> r.err.value.status == StatusInternalServerError
    ensures resp.body.Err? ==>
              r == ReturnError(showError, ReadResponseFailed, resp.body.error, StatusInternalServerError)
    ensures resp.body.Ok? && resp.status < StatusBadRequest && resp.body.value.Content? && resp.body.value.doc.Malformed? ==>
              r == ReturnError(showError, DecodeJsonFailed, resp.body.value.doc.reason, StatusInternalServerError)
  {
    match resp.body
    case Err(reason) => ReturnError(showError, ReadResponseFailed, reason, StatusInternalServerError)
    case Ok(b) =>
      if resp.status >= StatusBadRequest then
        if !showError then SendResult(None, None)
        else SendResult(None, Some(ParseHttpError(b, resp.status)))
      else
        match b
        case NoContent => SendResult(Some(JNull), None)
        case Content(Parsed(v)) => SendResult(Some(v), None)
        case Content(Malformed(reason)) => ReturnError(showError, DecodeJsonFailed, reason, StatusInternalServerError)
  }

  /** `Send`: build the request, perform it, classify the response. */
  function Send(cfg: RequestConfig, order: seq<string>, net: Net): (r: SendResult)
    requires Enumerates(order, cfg.headers)
    ensures r.value.Some? <==> BuildRequest(cfg, order, net).Ok?
                               && net.roundTrip(BuildRequest(cfg, order, net).value).Ok?
                               && Succeeds(net.roundTrip(BuildRequest(cfg, order, net).value).value)
    ensures !cfg.showError ==> r.err.None?
    ensures cfg.showError ==> (r.value.None? <==> r.err.Some?)
    ensures BuildRequest(cfg, order, net).Err? ==>
              r == ReturnError(cfg.showError, CreateRequestFailed, BuildRequest(cfg, order, net).error,
                               StatusInternalServerError)
    ensures BuildRequest(cfg, order, net).Ok? && net.roundTrip(BuildRequest(cfg, order, net).value).Err? ==>
              r == ReturnError(cfg.showError, ExecuteRequestFailed,
                               net.roundTrip(BuildRequest(cfg, order, net).value).error, StatusInternalServerError)
    ensures BuildRequest(cfg, order, net).Ok? && net.roundTrip(BuildRequest(cfg, order, net).value).Ok? ==>
              r == HandleResponse(net.roundTrip(BuildRequest(cfg, order, net).value).value, cfg.showError)
  {
    match BuildRequest(cfg, order, net)
    case Err(e) => ReturnError(cfg.showError, CreateRequestFailed, e, StatusInternalServerError)
    case Ok(req) =>
      match net.roundTrip(req)
      case Err(e) => ReturnError(cfg.showError, ExecuteRequestFailed, e, StatusInternalServerError)
      case Ok(resp) => HandleResponse(resp, cfg.showError)
  }

  /** A 4xx answer whose body carries a `message` gives no value and an exception with that
      message and the answer's status, when errors are shown. */
  lemma SendClientError(cfg: RequestConfig, order: seq<string>, net: Net, status: int, message: string)
    requires Enumerates(order, cfg.headers) && cfg.showError
    requires 400 <= status < 500 && message != ""
    requires BuildRequest(cfg, order, net).Ok?
    requires net.roundTrip(BuildRequest(cfg, order, net).value)
             == Ok(Response(status, Ok(Content(Parsed(JObject(map["message" := JString(message)]))))))
    ensures Send(cfg, order, net) == SendResult(None, Some(HttpException(message, status)))
  {
  }

  /** A 2xx answer with a JSON body gives the decoded body and no error. */
  lemma SendDecodedBody(cfg: RequestConfig, order: seq<string>, net: Net, status: int, doc: Json)
    requires Enumerates(order, cfg.headers)
    requires 200 <= status < 300
    requires BuildRequest(cfg, order, net).Ok?
    requires net.roundTrip(BuildRequest(cfg, order, net).value) == Ok(Response(status, Ok(Content(Parsed(doc)))))
    ensures Send(cfg, order, net) == SendResult(Some(doc), None)
  {
  }

  /** `CreateBasicAuthHeader` (section 2 of RFC 7617): one `Authorization` entry whose
      token decodes back to the UTF-8 bytes of `username:password`. */
  function CreateBasicAuthHeader(username: string, password: string): (h: map<string, string>)
    ensures h.Keys == {AuthorizationKey}
    ensures |h[AuthorizationKey]| >= |BasicScheme| && h[AuthorizationKey][..|BasicScheme|] == BasicScheme
    ensures Base64.DecodeString(h[AuthorizationKey][|BasicScheme|..]) == Some(Utf8(username + ":" + password))
    ensures ' ' !in h[AuthorizationKey][|BasicScheme|..]
  {
    var token := Base64.Encode(Utf8(username + ":" + password));
    Base64.DecodeEncode(Utf8(username + ":" + password));
    assert (BasicScheme + token)[|BasicScheme|..] == token;
    map[AuthorizationKey := BasicScheme + token]
  }

  /** The status can be read back from an exception's text. */
  lemma ErrorTextCarriesStatus(e: HttpException)
    requires InInt64(e.status)
    ensures exists digits :: e.Error() == "status " + digits + ": " + e.message && Atoi(digits) == Ok(e.status)
  {
    AtoiItoa(e.status);
    assert e.Error() == "status " + Itoa(e.status) + ": " + e.message;
  }
}
