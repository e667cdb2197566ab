/** The notification record carried by broker messages and forwarded to the delivery
    endpoint, and how `encoding/json` writes it. */
module NotificationDto {
  import opened Wrappers
  import opened Json
  import opened Enum
  import opened Decimal

  /** The payload, whose shape the channel selects. `Raw` is the generic decoded value kept
      for a channel the decoder does not know. `Push.data` is None for Go's nil map. */
  datatype Payload =
    | Email(html: string, plainText: string)
    | Message(message: string)
    | Push(deviceToken: string, title: string, body: string, data: Option<map<string, Json>>)
    | Raw(value: Json)

  /** `CreateNotificationDto`. `userId` is Go's `int64`. */
  datatype NotificationRecord = NotificationRecord(
    userId: int,
    userName: string,
    channel: string,
    subject: string,
    recipient: string,
    payload: Payload)

  /** The payload variant a channel selects: exact, case-sensitive channel names. */
  predicate PayloadMatchesChannel(channel: string, p: Payload)
  {
    if channel == EmailChannel then p.Email?
    else if channel == SmsChannel || channel == WhatsappChannel then p.Message?
    else if channel == PushNotificationChannel then p.Push?
    else p.Raw?
  }

  /** What every successfully decoded record satisfies: a non-zero 64-bit user id, a
      channel, a recipient, and the payload variant its channel selects. */
  predicate ValidRecord(r: NotificationRecord)
  {
    && r.userId != 0
    && InInt64(r.userId)
    && r.channel != ""
    && r.recipient != ""
    && PayloadMatchesChannel(r.channel, r.payload)
  }

  /** `json.Marshal` of a payload: the struct tags name the members, `omitempty` drops a nil
      or empty push `data` map, and a generic value is written as it is. */
  function PayloadToJson(p: Payload): Json
  {
    match p
    case Email(html, plainText) => JObject(map["html" := JString(html), "plainText" := JString(plainText)])
    case Message(message) => JObject(map["message" := JString(message)])
    case Push(deviceToken, title, body, data) =>
      var base := map["deviceToken" := JString(deviceToken), "title" := JString(title), "body" := JString(body)];
      if data.Some? && |data.value| > 0 then JObject(base["data" := JObject(data.value)]) else JObject(base)
    case Raw(value) => value
  }

  /** `json.Marshal` of a record, the body of the delivery request; `subject` is omitted
      when empty. */
  function RecordToJson(r: NotificationRecord): (j: Json)
    ensures j.JObject?
    ensures j.fields.Keys == {"userId", "userName", "channel", "recipient", "payload"}
                             + (if r.subject != "" then {"subject"} else {})
  {
    var base := map[
      "userId" := JInt(r.userId),
      "userName" := JString(r.userName),
      "channel" := JString(r.channel),
      "recipient" := JString(r.recipient),
      "payload" := PayloadToJson(r.payload)];
    if r.subject != "" then JObject(base["subject" := JString(r.subject)]) else JObject(base)
  }
}
