/** The delivery client: posts a decoded notification to the notification endpoint with
    Basic authentication, reporting every failure as an error. */
module HttpService {
  import opened Wrappers
  import opened Json
  import opened Types
  import opened NotificationDto
  import opened HttpUtils

  const NotificationPath: string := "/notification"

  /** `BuildRequestConfig`: every argument lands in the field of the same name. */
  function BuildRequestConfig(
    httpMethod: string,
    url: string,
    data: Option<Json>,
    params: map<string, string>,
    ctx: Option<Context>,
    headers: map<string, string>,
    showError: bool): (c: RequestConfig)
    ensures c.httpMethod == httpMethod && c.url == url && c.data == data && c.params == params
    ensures c.ctx == ctx && c.headers == headers && c.showError == showError
  {
    RequestConfig(httpMethod, url, data, params, headers, ctx, showError)
  }

  /** The configuration `SendNotification` sends: a POST of the record to the endpoint, no
      query parameters, no context, the Basic-Auth header, and errors shown. */
  function NotificationConfig(rec: NotificationRecord, cfg: Config): (c: RequestConfig)
    ensures c.httpMethod == MethodPost && AllowsBody(c.httpMethod)
    ensures c.url == cfg.notificationUrl + NotificationPath
    ensures c.data == Some(RecordToJson(rec))
    ensures |c.params| == 0 && c.ctx.None? && c.showError
    ensures c.headers == CreateBasicAuthHeader(cfg.username, cfg.password)
    ensures Enumerates([AuthorizationKey], c.headers)
  {
    BuildRequestConfig(MethodPost, cfg.notificationUrl + NotificationPath, Some(RecordToJson(rec)), map[], None,
                       CreateBasicAuthHeader(cfg.username, cfg.password), true)
  }

  /** `SendNotification`: the error of the delivery call, None exactly when the request was
      built and performed and the endpoint answered below 400 with an empty or JSON body.
      The single-entry header map has only one visiting order. */
  function SendNotification(rec: NotificationRecord, cfg: Config, net: Net): (err: Option<HttpException>)
    ensures err.None? <==>
              var c := NotificationConfig(rec, cfg);
              && BuildRequest(c, [AuthorizationKey], net).Ok?
              && net.roundTrip(BuildRequest(c, [AuthorizationKey], net).value).Ok?
              && Succeeds(net.roundTrip(BuildRequest(c, [AuthorizationKey], net).value).value)
    ensures err == Send(NotificationConfig(rec, cfg), [AuthorizationKey], net).err
  {
    Send(NotificationConfig(rec, cfg), [AuthorizationKey], net).err
  }

  /** A delivery the endpoint rejects with a 4xx answer carrying a `message` reports that
      message and the answer's status. */
  lemma NotificationRejected(rec: NotificationRecord, cfg: Config, net: Net, status: int, message: string)
    requires 400 <= status < 500 && message != ""
    requires BuildRequest(NotificationConfig(rec, cfg), [AuthorizationKey], net).Ok?
    requires net.roundTrip(BuildRequest(NotificationConfig(rec, cfg), [AuthorizationKey], net).value)
             == Ok(Response(status, Ok(Content(Parsed(JObject(map["message" := JString(message)]))))))
    ensures SendNotification(rec, cfg, net) == Some(HttpException(message, status))
  {
    SendClientError(NotificationConfig(rec, cfg), [AuthorizationKey], net, status, message);
  }

  /** The request the endpoint receives: a POST to `<base>/notification` whose body is the
      record and whose headers are exactly the Basic credentials and the JSON content type. */
  lemma DeliveryRequest(rec: NotificationRecord, cfg: Config, net: Net)
    requires net.newRequest(MethodPost, cfg.notificationUrl + NotificationPath).None?
    ensures BuildRequest(NotificationConfig(rec, cfg), [AuthorizationKey], net)
            == Ok(Request(MethodPost, cfg.notificationUrl + NotificationPath, Background, Some(RecordToJson(rec)),
                          map[AuthorizationKey := CreateBasicAuthHeader(cfg.username, cfg.password)[AuthorizationKey],
                              ContentTypeKey := JsonContentType]))
  {
    var c := NotificationConfig(rec, cfg);
    AuthorizationIsCanonical();
    assert |AuthorizationKey| != |ContentTypeKey|;
    SingleHeaderWithData(AuthorizationKey, c.headers[AuthorizationKey]);
    assert c.headers == map[AuthorizationKey := c.headers[AuthorizationKey]];
  }
}
