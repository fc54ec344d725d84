/**
 * The replies of the gateway's route handlers. Each handler awaits one
 * upstream call and answers `res.status(code).json({ response: payload })`;
 * here the awaited call is an `Outcome` given as a parameter, and the
 * answer is the returned `Reply`: a closed case analysis of that outcome.
 */
module Gateway {
  import opened Wrappers
  import opened JsString
  import opened SmsText

  /** How an awaited upstream call ended: it resolved with an HTTP status
      and a parsed body, or it threw (rejected). Which statuses the HTTP
      client resolves and which it rejects is the client's policy and is
      left open. */
  datatype Outcome<B> = Resolved(status: int, body: B) | Thrown

  /** The value sent under `response`: a JSON value passed through, or a
      message string. */
  datatype Payload<B> = Body(json: B) | Message(text: string)

  /** `res.status(status).json({ response: response })` */
  datatype Reply<B> = Reply(status: int, response: Payload<B>)

  /** The bundled `./data` module (`whole`) and its `coins` field. */
  datatype Dataset<B> = Dataset(whole: B, coins: B)

  const AnErrorOccurred := "An error occurred"
  const ServerErrorDefault := "An error occurred on the server"

  /** `GET /coins/:no/:pageNumber`: always status 200; the upstream body on
      a 200, the whole bundled module on another resolved status, and its
      `coins` field when the call throws. */
  function CoinsReply<B>(data: Dataset<B>, upstream: Outcome<B>): (r: Reply<B>)
    ensures r.status == 200
    ensures upstream.Resolved? && upstream.status == 200 ==> r.response == Body(upstream.body)
    ensures upstream.Resolved? && upstream.status != 200 ==> r.response == Body(data.whole)
    ensures upstream.Thrown? ==> r.response == Body(data.coins)
  {
    match upstream
    case Resolved(status, body) =>
      if status == 200 then Reply(200, Body(body)) else Reply(200, Body(data.whole))
    case Thrown => Reply(200, Body(data.coins))
  }

  /** The listing never reports a failure: whatever the upstream does, the
      reply is a 200 carrying JSON, and anything but a 200 from upstream is
      answered from the bundled data. */
  lemma CoinsNeverFails<B>(data: Dataset<B>, upstream: Outcome<B>)
    ensures CoinsReply(data, upstream).status == 200
    ensures CoinsReply(data, upstream).response.Body?
    ensures !(upstream.Resolved? && upstream.status == 200) ==>
      CoinsReply(data, upstream).response.json in {data.whole, data.coins}
  {
  }

  /** `GET /singlecoin/:id`, `GET /coin/:id` and `GET /coinmarketchart/:id/:range`:
      the upstream body on a 200, status 300 on another resolved status,
      status 500 when the call throws. */
  function MarketReply<B>(upstream: Outcome<B>): (r: Reply<B>)
    ensures upstream.Resolved? && upstream.status == 200 ==> r == Reply(200, Body(upstream.body))
    ensures upstream.Resolved? && upstream.status != 200 ==> r == Reply(300, Message(AnErrorOccurred))
    ensures upstream.Thrown? ==> r == Reply(500, Message(AnErrorOccurred))
  {
    match upstream
    case Resolved(status, body) =>
      if status == 200 then Reply(200, Body(body)) else Reply(300, Message(AnErrorOccurred))
    case Thrown => Reply(500, Message(AnErrorOccurred))
  }

  /** The status of a market reply tells the three upstream outcomes apart,
      and only a 200 carries upstream data. */
  lemma MarketStatusTellsOutcome<B>(upstream: Outcome<B>)
    ensures MarketReply(upstream).status == 200 <==> upstream.Resolved? && upstream.status == 200
    ensures MarketReply(upstream).status == 300 <==> upstream.Resolved? && upstream.status != 200
    ensures MarketReply(upstream).status == 500 <==> upstream.Thrown?
    ensures MarketReply(upstream).response.Body? <==> MarketReply(upstream).status == 200
  {
  }

  /** A request-body field as Express hands it over: absent, `null`, a
      string, or another JSON value. For another value, `shown` is the text
      JavaScript's ToString gives it, or `None` where ToString throws (an
      object whose `toString` and `valueOf` give no primitive). */
  datatype JsValue = Undefined | Null | Str(s: string) | Other(shown: Option<string>)

  /** The template literal `${v}`: its text, or `None` where it throws. */
  function Interpolate(v: JsValue): (r: Option<string>)
    ensures v.Str? ==> r == Some(v.s)
    ensures v.Undefined? ==> r == Some("undefined")
    ensures v.Null? ==> r == Some("null")
    ensures r.None? <==> v.Other? && v.shown.None?
  {
    match v
    case Undefined => Some("undefined")
    case Null => Some("null")
    case Str(s) => Some(s)
    case Other(shown) => shown
  }

  /** The JSON body posted to the Mailjet SMS endpoint. */
  datatype MailjetSms = MailjetSms(Text: string, To: string, From: string)

  const MailjetUrl := "https://api.mailjet.com/v4/sms-send"

  /** An `axios.post(url, data, ...)` call: where the message goes and what
      it says. */
  datatype MailjetPost = MailjetPost(url: string, data: MailjetSms)

  /** What `/send-sms` does: the post it makes to Mailjet, if it gets that
      far, and its reply. */
  datatype SmsExchange<B> = SmsExchange(posted: Option<MailjetPost>, reply: Reply<B>)

  /** The handler gets as far as posting: `sms` is a string, so it has a
      `trim` method, and the phone and sender both interpolate. */
  predicate Posts(sms: JsValue, phone: JsValue, from: JsValue) {
    sms.Str? && Interpolate(phone).Some? && Interpolate(from).Some?
  }

  /** `POST /send-sms` with body fields `sms`, `phone` and `from`. Only a
      string `sms` has a `trim` method; any other value throws before a
      payload exists, and so does a phone or sender whose `${...}` throws.
      Otherwise the normalised text is posted with the phone and sender as
      text; once the post resolves the reply is 200, and if it throws the
      reply is 500. Every reply carries the same message. */
  function SendSms<B>(sms: JsValue, phone: JsValue, from: JsValue, post: Outcome<B>): (x: SmsExchange<B>)
    ensures x.posted.Some? <==> Posts(sms, phone, from)
    ensures Posts(sms, phone, from) ==>
      x.posted == Some(MailjetPost(MailjetUrl,
        MailjetSms(Normalise(sms.s), Interpolate(phone).value, Interpolate(from).value)))
    ensures x.reply.status == (if Posts(sms, phone, from) && post.Resolved? then 200 else 500)
    ensures x.reply.response == Message(AnErrorOccurred)
  {
    match (sms, Interpolate(phone), Interpolate(from))
    case (Str(text), Some(to), Some(sender)) =>
      var payload := MailjetPost(MailjetUrl, MailjetSms(Normalise(text), to, sender));
      if post.Resolved? then SmsExchange(Some(payload), Reply(200, Message(AnErrorOccurred)))
      else SmsExchange(Some(payload), Reply(500, Message(AnErrorOccurred)))
    case _ => SmsExchange(None, Reply(500, Message(AnErrorOccurred)))
  }

  /** The reply to `/send-sms` does not depend on what the provider
      answered, only on whether the post resolved. */
  lemma SmsReplyIgnoresProvider<B>(sms: JsValue, phone: JsValue, from: JsValue, p1: Outcome<B>, p2: Outcome<B>)
    requires p1.Resolved? == p2.Resolved?
    ensures SendSms(sms, phone, from, p1) == SendSms(sms, phone, from, p2)
  {
  }

  /** The text posted to the provider is the message without white-space
      margins or blank lines, with every visible character kept in order,
      and it is already normalised. */
  lemma PostedTextIsNormal<B>(text: string, phone: JsValue, from: JsValue, post: Outcome<B>)
    requires Interpolate(phone).Some? && Interpolate(from).Some?
    ensures SendSms(Str(text), phone, from, post).posted.Some?
    ensures var t := SendSms(Str(text), phone, from, post).posted.value.data.Text;
      NoEdgeSpace(t) && NoBlankLines(t) && Visible(t) == Visible(text) && Normalise(t) == t
  {
    NormaliseShape(text);
    NormaliseKeepsVisible(text);
    NormaliseIdempotent(text);
  }

  /** The error-handling middleware: status 300, with the error's message,
      or a default text when the message is missing or empty. */
  function ErrorReply<B>(message: Option<string>): (r: Reply<B>)
    ensures r.status == 300
    ensures message.Some? && message.value != "" ==> r.response == Message(message.value)
    ensures message.None? || message.value == "" ==> r.response == Message(ServerErrorDefault)
  {
    var text := if message.Some? && message.value != "" then message.value else ServerErrorDefault;
    Reply(300, Message(text))
  }

  /** The middleware never answers with an empty message. */
  lemma ErrorReplyNeverEmpty<B>(message: Option<string>)
    ensures ErrorReply<B>(message).response.Message?
    ensures ErrorReply<B>(message).response.text != ""
  {
  }
}
