/** The notification handler: decodes each broker message into a notification record in
    phases (envelope, `data` member, record, required fields, typed payload), delivers the
    record, and acknowledges the message exactly when both succeed. */
module NotificationHandler {
  import opened Wrappers
  import opened Json
  import opened Decimal
  import opened Enum
  import opened Types
  import opened NotificationDto
  import opened Broker
  import opened HttpUtils
  import opened HttpService

  /** The phase a message failed in. The handler only logs and nacks, so the text that
      `encoding/json` appends to the first and third is not kept. */
  datatype DecodeError =
    | EnvelopeDecodeError
    | DataFieldNotFound
    | DataDecodeError
    | RequiredFieldsMissing
  {
    function Message(): string
    {
      match this
      case EnvelopeDecodeError => "erro ao decodificar envelope"
      case DataFieldNotFound => "campo 'data' não encontrado na mensagem"
      case DataDecodeError => "erro ao decodificar dados"
      case RequiredFieldsMissing => "dados obrigatórios ausentes"
    }
  }

  /** `extractDataField`: the envelope must be a JSON object (or `null`, which decodes into
      an empty map), and its `data` member is passed on untouched. */
  function ExtractDataField(raw: Body): (r: Result<Json, DecodeError>)
    ensures r.Ok? <==> raw.Parsed? && raw.value.JObject? && "data" in raw.value.fields
    ensures r.Ok? ==> r.value == raw.value.fields["data"]
    ensures r == Err(DataFieldNotFound) <==>
              raw.Parsed? && (raw.value.JNull? || (raw.value.JObject? && "data" !in raw.value.fields))
    ensures r.Err? ==> r.error == EnvelopeDecodeError || r.error == DataFieldNotFound
  {
    match raw
    case Malformed(_) => Err(EnvelopeDecodeError)
    case Parsed(v) =>
      match v
      case JNull => Err(DataFieldNotFound)
      case JObject(fields) => if "data" in fields then Ok(fields["data"]) else Err(DataFieldNotFound)
      case _ => Err(EnvelopeDecodeError)
  }

  /** The member `key` of an object, with an absent member read as `null`. */
  function Member(f: map<string, Json>, key: string): Json
  {
    if key in f then f[key] else JNull
  }

  /** A member a string field accepts. */
  predicate StringOrNull(j: Json)
  {
    j.JNull? || j.JString?
  }

  /** A member an `int64` field accepts: an integer literal in range. */
  predicate Int64OrNull(j: Json)
  {
    j.JNull? || (j.JInt? && InInt64(j.i))
  }

  /** An object whose members all fit the record's field types. */
  predicate WellTyped(f: map<string, Json>)
  {
    && Int64OrNull(Member(f, "userId"))
    && StringOrNull(Member(f, "userName"))
    && StringOrNull(Member(f, "channel"))
    && StringOrNull(Member(f, "subject"))
    && StringOrNull(Member(f, "recipient"))
  }

  /** The string the member gives a string field: its text, or "" for `null`. */
  predicate StringFrom(j: Json, s: string)
  {
    j == JString(s) || (j.JNull? && s == "")
  }

  /** The number the member gives an integer field: its value, or 0 for `null`. */
  predicate IntFrom(j: Json, i: int)
  {
    j == JInt(i) || (j.JNull? && i == 0)
  }

  /** The record's scalar fields are the ones the object's members give. */
  predicate ScalarsFrom(f: map<string, Json>, rec: NotificationRecord)
  {
    && IntFrom(Member(f, "userId"), rec.userId)
    && StringFrom(Member(f, "userName"), rec.userName)
    && StringFrom(Member(f, "channel"), rec.channel)
    && StringFrom(Member(f, "subject"), rec.subject)
    && StringFrom(Member(f, "recipient"), rec.recipient)
  }

  function StringField(f: map<string, Json>, key: string): Option<string>
  {
    match Member(f, key)
    case JNull => Some("")
    case JString(s) => Some(s)
    case _ => None
  }

  function Int64Field(f: map<string, Json>, key: string): Option<int>
  {
    match Member(f, key)
    case JNull => Some(0)
    case JInt(i) => if InInt64(i) then Some(i) else None
    case _ => None
  }

  /** `json.Unmarshal` of the `data` member into `CreateNotificationDto`: `null` leaves the
      zero record; an object fills each field from its member, and a member of the wrong
      type fails the whole decode; anything else fails. The payload is kept as the generic
      value, `null` when absent. */
  function DecodeRecord(data: Json): (r: Result<NotificationRecord, DecodeError>)
    ensures r.Ok? ==> InInt64(r.value.userId) && r.value.payload.Raw?
    ensures data.JNull? ==> r == Ok(NotificationRecord(0, "", "", "", "", Raw(JNull)))
    ensures data.JObject? ==> (r.Ok? <==> WellTyped(data.fields))
    ensures data.JObject? && r.Ok? ==>
              ScalarsFrom(data.fields, r.value) && r.value.payload == Raw(Member(data.fields, "payload"))
    ensures !data.JObject? && !data.JNull? ==> r == Err(DataDecodeError)
  {
    match data
    case JNull => Ok(NotificationRecord(0, "", "", "", "", Raw(JNull)))
    case JObject(f) =>
      var userId, userName, channel, subject, recipient :=
        Int64Field(f, "userId"), StringField(f, "userName"), StringField(f, "channel"),
        StringField(f, "subject"), StringField(f, "recipient");
      if userId.Some? && userName.Some? && channel.Some? && subject.Some? && recipient.Some? then
        Ok(NotificationRecord(userId.value, userName.value, channel.value, subject.value, recipient.value,
                              Raw(Member(f, "payload"))))
      else Err(DataDecodeError)
    case _ => Err(DataDecodeError)
  }

  /** What a typed payload's string field holds after re-decoding: the member `key` of the
      raw payload when it is a string, and "" when the raw payload is not an object or the
      member is missing or of another type. */
  predicate StringCoerced(raw: Json, key: string, s: string)
  {
    if raw.JObject? && key in raw.fields && raw.fields[key].JString? then s == raw.fields[key].s
    else s == ""
  }

  /** What a typed payload's map field holds after re-decoding: the member's members when it
      is an object, and nil otherwise. */
  predicate MapCoerced(raw: Json, key: string, m: Option<map<string, Json>>)
  {
    if raw.JObject? && key in raw.fields && raw.fields[key].JObject? then m == Some(raw.fields[key].fields)
    else m.None?
  }

  /** The members of the raw payload a typed payload's string field takes: the string, or
      "" when the member is absent or not a string (the decode error is discarded). */
  function CoerceString(raw: Json, key: string): (s: string)
    ensures s != "" ==> raw.JObject? && key in raw.fields && raw.fields[key] == JString(s)
    ensures StringCoerced(raw, key, s)
  {
    StringMember(raw, key)
  }

  /** The push payload's `data` map: an object member, or nil for anything else. */
  function CoerceMap(raw: Json, key: string): (m: Option<map<string, Json>>)
    ensures m.Some? ==> raw.JObject? && key in raw.fields && raw.fields[key] == JObject(m.value)
    ensures MapCoerced(raw, key, m)
  {
    if raw.JObject? && key in raw.fields && raw.fields[key].JObject? then Some(raw.fields[key].fields) else None
  }

  /** `parseTypedPayload`: the channel, matched exactly, picks the typed shape, and the raw
      value is re-decoded into it with missing or mistyped fields left at their zero values;
      a channel with no typed shape keeps the raw value. */
  function ParseTypedPayload(channel: string, raw: Json): (p: Payload)
    ensures PayloadMatchesChannel(channel, p)
    ensures p.Raw? ==> p.value == raw
    ensures p.Email? ==> StringCoerced(raw, "html", p.html) && StringCoerced(raw, "plainText", p.plainText)
    ensures p.Message? ==> StringCoerced(raw, "message", p.message)
    ensures p.Push? ==> && StringCoerced(raw, "deviceToken", p.deviceToken)
                        && StringCoerced(raw, "title", p.title)
                        && StringCoerced(raw, "body", p.body)
                        && MapCoerced(raw, "data", p.data)
  {
    if channel == EmailChannel then
      Email(CoerceString(raw, "html"), CoerceString(raw, "plainText"))
    else if channel == SmsChannel || channel == WhatsappChannel then
      Message(CoerceString(raw, "message"))
    else if channel == PushNotificationChannel then
      Push(CoerceString(raw, "deviceToken"), CoerceString(raw, "title"), CoerceString(raw, "body"),
           CoerceMap(raw, "data"))
    else Raw(raw)
  }

  /** `parseNotificationData`: decode, then require a user id, a channel and a recipient,
      then type the payload. A record that misses a required field is never returned. */
  function ParseNotificationData(data: Json): (r: Result<NotificationRecord, DecodeError>)
    ensures r.Ok? ==> ValidRecord(r.value)
    ensures r.Ok? ==> data.JObject? && ScalarsFrom(data.fields, r.value)
    ensures r.Ok? ==> r.value.payload == ParseTypedPayload(r.value.channel, Member(data.fields, "payload"))
    ensures data.JObject? && WellTyped(data.fields) ==>
              (r.Ok? <==> && Member(data.fields, "userId").JInt? && Member(data.fields, "userId").i != 0
                          && Member(data.fields, "channel").JString? && Member(data.fields, "channel").s != ""
                          && Member(data.fields, "recipient").JString? && Member(data.fields, "recipient").s != "")
    ensures data.JObject? && WellTyped(data.fields) && r.Err? ==> r.error == RequiredFieldsMissing
    ensures data.JObject? && !WellTyped(data.fields) ==> r == Err(DataDecodeError)
    ensures data.JNull? ==> r == Err(RequiredFieldsMissing)
    ensures !data.JObject? && !data.JNull? ==> r == Err(DataDecodeError)
  {
    match DecodeRecord(data)
    case Err(e) => Err(e)
    case Ok(dto) =>
      if dto.userId == 0 || dto.channel == "" || dto.recipient == "" then Err(RequiredFieldsMissing)
      else Ok(dto.(payload := ParseTypedPayload(dto.channel, dto.payload.value)))
  }

  /** `parseNotificationMessage`: the two phases in sequence, the first failure winning. */
  function ParseNotificationMessage(body: Body): (r: Result<NotificationRecord, DecodeError>)
    ensures r.Ok? ==> ValidRecord(r.value)
    ensures r.Ok? ==> ExtractDataField(body).Ok? && ParseNotificationData(ExtractDataField(body).value) == r
    ensures ExtractDataField(body).Err? ==> r == Err(ExtractDataField(body).error)
    ensures ExtractDataField(body).Ok? ==> r == ParseNotificationData(ExtractDataField(body).value)
    ensures body.Malformed? ==> r == Err(EnvelopeDecodeError)
  {
    var data :- ExtractDataField(body);
    ParseNotificationData(data)
  }

  /** `NotificationHandler`: the configuration its deliveries use. */
  datatype NotificationHandler = NotificationHandler(config: Config)

  function NewNotificationHandler(cfg: Config): (h: NotificationHandler)
    ensures h.config == cfg
  {
    NotificationHandler(cfg)
  }

  /** What the callback did with one message: the record it delivered, if it got that far,
      and the one terminal action it took. */
  datatype CallbackOutcome = CallbackOutcome(delivered: Option<NotificationRecord>, disposition: Disposition)

  /** The callback `Handle` registers: a message that does not decode is nacked without a
      delivery attempt; a decoded one is delivered, and acked exactly when delivery reports
      no error. */
  function OnMessage(h: NotificationHandler, body: Body, net: Net): (o: CallbackOutcome)
    ensures o.delivered.None? <==> ParseNotificationMessage(body).Err?
    ensures o.delivered.Some? ==> o.delivered.value == ParseNotificationMessage(body).value
    ensures o.disposition == Ack <==>
              o.delivered.Some? && SendNotification(o.delivered.value, h.config, net).None?
  {
    match ParseNotificationMessage(body)
    case Err(_) => CallbackOutcome(None, Nack)
    case Ok(rec) =>
      if SendNotification(rec, h.config, net).Some? then CallbackOutcome(Some(rec), Nack)
      else CallbackOutcome(Some(rec), Ack)
  }

  /** `Handle`: one `Receive` on the subscription with the callback above; its result is
      `Receive`'s error. */
  function Handle(h: NotificationHandler, sub: SubscriptionAdapter, net: Net): (r: ReceiveOutcome)
    ensures r.err == sub.sub.receiveError
    ensures |r.dispositions| == |sub.sub.messages|
    ensures forall i :: 0 <= i < |r.dispositions| ==>
              (r.dispositions[i] == Ack <==>
                 && ParseNotificationMessage(sub.sub.messages[i]).Ok?
                 && SendNotification(ParseNotificationMessage(sub.sub.messages[i]).value, h.config, net).None?)
  {
    Receive(sub, (b: Body) => OnMessage(h, b, net).disposition)
  }

  /** A push payload whose `data` map is present but empty; the encoder drops it, so it
      comes back as nil. */
  predicate EmptyPushData(p: Payload)
  {
    p.Push? && p.data.Some? && |p.data.value| == 0
  }

  /** Typing the encoding of a payload of the channel's shape gives the payload back. */
  lemma CoerceEncodedPayload(channel: string, p: Payload)
    requires PayloadMatchesChannel(channel, p) && !EmptyPushData(p)
    ensures ParseTypedPayload(channel, PayloadToJson(p)) == p
  {
    var j := PayloadToJson(p);
    match p
    case Email(html, plainText) =>
      assert CoerceString(j, "html") == html && CoerceString(j, "plainText") == plainText;
    case Message(message) =>
      assert CoerceString(j, "message") == message;
    case Push(deviceToken, title, body, data) =>
      assert CoerceString(j, "deviceToken") == deviceToken;
      assert CoerceString(j, "title") == title;
      assert CoerceString(j, "body") == body;
      assert CoerceMap(j, "data") == data;
    case Raw(value) =>
  }

  /** Decoding the encoding of a valid record gives the record back: what the producer
      publishes is what the consumer delivers. */
  lemma DecodeEncodedRecord(rec: NotificationRecord)
    requires ValidRecord(rec) && !EmptyPushData(rec.payload)
    ensures ParseNotificationMessage(Parsed(JObject(map["data" := RecordToJson(rec)]))) == Ok(rec)
  {
    var f := RecordToJson(rec).fields;
    assert Member(f, "userId") == JInt(rec.userId);
    assert Member(f, "userName") == JString(rec.userName);
    assert Member(f, "channel") == JString(rec.channel);
    assert Member(f, "recipient") == JString(rec.recipient);
    assert Member(f, "payload") == PayloadToJson(rec.payload);
    assert StringFrom(Member(f, "subject"), rec.subject);
    CoerceEncodedPayload(rec.channel, rec.payload);
    var dto := DecodeRecord(RecordToJson(rec));
    assert dto == Ok(rec.(payload := Raw(PayloadToJson(rec.payload))));
  }

  /** The payload typing does not fail on a partial payload: missing members become "". */
  lemma PartialEmailPayload()
    ensures ParseTypedPayload(EmailChannel, JObject(map["html" := JString("x")])) == Email("x", "")
  {
    var raw := JObject(map["html" := JString("x")]);
    assert "plainText" !in raw.fields;
  }

  /** Any e-mail payload object keeps its `html` string, whatever other members it has, and
      a `plainText` member that is missing or not a string becomes "". */
  lemma EmailPayloadKeepsHtml(fields: map<string, Json>, html: string)
    requires "html" in fields && fields["html"] == JString(html)
    requires "plainText" !in fields || !fields["plainText"].JString?
    ensures ParseTypedPayload(EmailChannel, JObject(fields)) == Email(html, "")
  {
  }

  /** Channel matching is case-sensitive: a message on channel "email" decodes, and its
      payload is kept as the raw value. */
  lemma LowerCaseChannelKeepsRawPayload()
    ensures ParseNotificationMessage(Parsed(JObject(map["data" := JObject(map[
              "userId" := JInt(1), "channel" := JString("email"), "recipient" := JString("foo@bar.com"),
              "payload" := JObject(map["sub" := JString("ok")])])])))
            == Ok(NotificationRecord(1, "", "email", "", "foo@bar.com", Raw(JObject(map["sub" := JString("ok")]))))
  {
    var f := map["userId" := JInt(1), "channel" := JString("email"), "recipient" := JString("foo@bar.com"),
                 "payload" := JObject(map["sub" := JString("ok")])];
    assert "email" != EmailChannel;
    assert Member(f, "userName") == JNull && Member(f, "subject") == JNull;
    assert WellTyped(f);
  }
}
