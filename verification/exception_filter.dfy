/** The panic filter: a panic raised while serving a request is turned into a JSON error
    response. An error value that carries a status code sets the status and the message;
    any other error keeps status 500 with its own text; a panic value that is not an error
    gets status 500 and a fixed apology. Details an error provides are reported under
    `errors`, and outside production the stack trace is attached. */
module Exceptions {
  import opened Wrappers
  import opened Json

  const InternalServerError: int := 500
  const DefaultMessage: string :=
    "Ops! Aconteceu algo de errado do nosso lado. Por favor, entre em contato com o suporte."

  /** What a layer of an error chain may provide besides its text: nothing, or the
      `GetDetails` method, whose result is `None` for a nil interface and `Some` for any
      other value (a nil slice or map included, which encodes as `null`). */
  datatype DetailsMethod = NoDetailsMethod | GetDetails(result: Option<Json>)

  /** One error in an unwrap chain: its `Error()` text, its `StatusCode()` when it has that
      method, and its `GetDetails` behaviour. */
  datatype ErrorLayer = ErrorLayer(text: string, statusCode: Option<int>, details: DetailsMethod)

  /** An error value: the panicked error itself followed by what successive `Unwrap`
      calls return. */
  datatype ErrorValue = ErrorValue(top: ErrorLayer, wrapped: seq<ErrorLayer>)
  {
    function Chain(): (c: seq<ErrorLayer>)
      ensures |c| >= 1 && c[0] == top
    {
      [top] + wrapped
    }
  }

  /** A recovered panic value: not an `error`, or an error. */
  datatype Panic = NonError | Failure(err: ErrorValue)

  datatype Response = Response(status: int, body: map<string, Json>)

  /** `errors.As`: the position of the first layer that has the method `has` asks for, or
      the chain's length when none has it. */
  function FirstWith(chain: seq<ErrorLayer>, has: ErrorLayer -> bool): (k: nat)
    ensures k <= |chain|
    ensures forall i :: 0 <= i < k ==> !has(chain[i])
    ensures k < |chain| ==> has(chain[k])
    decreases |chain|
  {
    if |chain| == 0 then 0
    else if has(chain[0]) then 0
    else 1 + FirstWith(chain[1..], has)
  }

  predicate IsStatusCoder(l: ErrorLayer)
  {
    l.statusCode.Some?
  }

  predicate HasDetails(l: ErrorLayer)
  {
    l.details.GetDetails?
  }

  /** `respond`: the body always holds the status, the message and the route, `errors`
      exactly when there are details, and `stack` exactly outside production; the HTTP
      status is the body's. */
  function Respond(status: int, message: string, details: Option<Json>, isProd: bool,
                   path: string, stack: string): (r: Response)
    ensures r.status == status
    ensures r.body.Keys <= {"statusCode", "message", "path", "errors", "stack"}
    ensures "statusCode" in r.body && "message" in r.body && "path" in r.body
    ensures "errors" in r.body <==> details.Some?
    ensures "stack" in r.body <==> !isProd
    ensures r.body["statusCode"] == JInt(status) && r.body["message"] == JString(message)
    ensures r.body["path"] == JString(path)
    ensures details.Some? ==> r.body["errors"] == details.value
    ensures !isProd ==> r.body["stack"] == JString(stack)
  {
    var body := map["statusCode" := JInt(status), "message" := JString(message), "path" := JString(path)];
    var body := if details.Some? then body["errors" := details.value] else body;
    var body := if !isProd then body["stack" := JString(stack)] else body;
    Response(status, body)
  }

  /** Layer `i` is the first that has the method `has` asks for. */
  ghost predicate FirstAt(chain: seq<ErrorLayer>, has: ErrorLayer -> bool, i: int)
  {
    0 <= i < |chain| && has(chain[i]) && forall j :: 0 <= j < i ==> !has(chain[j])
  }

  /** The first layer with a `GetDetails` method returns a non-nil value. */
  ghost predicate DetailsGiven(chain: seq<ErrorLayer>)
  {
    exists i :: FirstAt(chain, HasDetails, i) && chain[i].details.result.Some?
  }

  /** The response for a panic with an error value. */
  function ErrorResponse(err: ErrorValue, isProd: bool, path: string, stack: string): (r: Response)
    ensures "statusCode" in r.body && "message" in r.body && "path" in r.body
    ensures r.body["statusCode"] == JInt(r.status) && r.body["path"] == JString(path)
    ensures forall i :: FirstAt(err.Chain(), IsStatusCoder, i) ==>
              r.status == err.Chain()[i].statusCode.value && r.body["message"] == JString(err.Chain()[i].text)
    ensures (forall l :: l in err.Chain() ==> !IsStatusCoder(l)) ==>
              r.status == InternalServerError && r.body["message"] == JString(err.top.text)
    ensures "errors" in r.body <==> DetailsGiven(err.Chain())
    ensures forall i :: FirstAt(err.Chain(), HasDetails, i) && err.Chain()[i].details.result.Some? ==>
              r.body["errors"] == err.Chain()[i].details.result.value
    ensures "stack" in r.body <==> !isProd
    ensures !isProd ==> r.body["stack"] == JString(stack)
  {
    var chain := err.Chain();
    var s := FirstWith(chain, IsStatusCoder);
    var d := FirstWith(chain, HasDetails);
    var status := if s < |chain| then chain[s].statusCode.value else InternalServerError;
    var message := if s < |chain| then chain[s].text else err.top.text;
    var details := if d < |chain| then chain[d].details.result else None;
    FirstIsUnique(chain, IsStatusCoder);
    FirstIsUnique(chain, HasDetails);
    assert d < |chain| ==> FirstAt(chain, HasDetails, d);
    Respond(status, message, details, isProd, path, stack)
  }

  /** `handleRecoveredError`, with the route pattern and the stack trace as parameters. */
  function HandleRecoveredError(p: Panic, isProd: bool, path: string, stack: string): (r: Response)
    ensures "statusCode" in r.body && "message" in r.body && "path" in r.body
    ensures r.body["statusCode"] == JInt(r.status) && r.body["path"] == JString(path)
    ensures p.NonError? ==>
              r.status == InternalServerError && r.body["message"] == JString(DefaultMessage) && "errors" !in r.body
    ensures p.Failure? ==> r == ErrorResponse(p.err, isProd, path, stack)
    ensures "stack" in r.body <==> !isProd
    ensures !isProd ==> r.body["stack"] == JString(stack)
  {
    match p
    case NonError => Respond(InternalServerError, DefaultMessage, None, isProd, path, stack)
    case Failure(err) => ErrorResponse(err, isProd, path, stack)
  }

  /** Any position that has the method while no earlier one does is the one `FirstWith`
      finds. */
  lemma FirstIsUnique(chain: seq<ErrorLayer>, has: ErrorLayer -> bool)
    ensures forall i :: FirstAt(chain, has, i) ==> i == FirstWith(chain, has)
    ensures (forall l :: l in chain ==> !has(l)) ==> FirstWith(chain, has) == |chain|
  {
    var k := FirstWith(chain, has);
    if k < |chain| {
      assert chain[k] in chain;
    }
  }

  /** `AllExceptionFilter`: nothing happens unless the request panicked with a non-nil
      value; production is the environment named exactly `prod`. */
  function AllExceptionFilter(env: string, recovered: Option<Panic>, path: string, stack: string): (r: Option<Response>)
    ensures r.Some? <==> recovered.Some?
    ensures r.Some? ==> ("stack" in r.value.body <==> env != "prod")
    ensures r.Some? ==> r.value == HandleRecoveredError(recovered.value, env == "prod", path, stack)
  {
    match recovered
    case None => None
    case Some(p) => Some(HandleRecoveredError(p, env == "prod", path, stack))
  }

  /** A status-carrying error wrapped in a plain one decides both the status and the
      message: the wrapper's own text is not used. */
  lemma WrappedStatusCoder(outer: string, inner: string, code: int, isProd: bool, path: string, stack: string)
    ensures var e := ErrorValue(ErrorLayer(outer, None, NoDetailsMethod), [ErrorLayer(inner, Some(code), NoDetailsMethod)]);
            var r := HandleRecoveredError(Failure(e), isProd, path, stack);
            r.status == code && r.body["message"] == JString(inner) && "errors" !in r.body
  {
    var e := ErrorValue(ErrorLayer(outer, None, NoDetailsMethod), [ErrorLayer(inner, Some(code), NoDetailsMethod)]);
    assert !IsStatusCoder(e.Chain()[0]) && IsStatusCoder(e.Chain()[1]);
    assert !HasDetails(e.Chain()[0]) && !HasDetails(e.Chain()[1]);
  }

  /** Details an error provides reach the body unchanged, even when wrapped: a plain error
      around one whose `GetDetails` returns `d` reports `d` under `errors`. */
  lemma WrappedDetailsReported(outer: string, inner: string, d: Json, isProd: bool, path: string, stack: string)
    ensures var e := ErrorValue(ErrorLayer(outer, None, NoDetailsMethod), [ErrorLayer(inner, None, GetDetails(Some(d)))]);
            var r := HandleRecoveredError(Failure(e), isProd, path, stack);
            "errors" in r.body && r.body["errors"] == d
  {
    var e := ErrorValue(ErrorLayer(outer, None, NoDetailsMethod), [ErrorLayer(inner, None, GetDetails(Some(d)))]);
    assert FirstAt(e.Chain(), HasDetails, 1);
  }

  /** The first layer with a `GetDetails` method decides alone: when it returns nil, details
      further down the chain are not looked for. */
  lemma NilDetailsShadow(text: string, inner: ErrorLayer, isProd: bool, path: string, stack: string)
    ensures var e := ErrorValue(ErrorLayer(text, None, GetDetails(None)), [inner]);
            "errors" !in HandleRecoveredError(Failure(e), isProd, path, stack).body
  {
    var e := ErrorValue(ErrorLayer(text, None, GetDetails(None)), [inner]);
    assert HasDetails(e.Chain()[0]);
  }
}
