// Provider routing and response reading of core/notifications/sms_gateway.py.
// The HTTP request to Africa's Talking and the Twilio client call are outside
// the model: their answers arrive as parameters.

module SmsGateway {
  import opened Common
  import opened Json

  /** What a sender returns: the 'success' dict or the failure dict. */
  datatype GatewayResult =
    | Delivered(messageId: Value, provider: string)
    | NotDelivered(errorMessage: Value, errorCode: string)

  datatype Provider = AfricasTalking | Twilio | Console

  /** The SMS_PROVIDER setting, 'console' when unset. */
  function Route(setting: Option<string>): (r: Provider)
    ensures setting == Some("africas-talking") <==> r == AfricasTalking
    ensures setting == Some("twilio") <==> r == Twilio
  {
    if setting == Some("africas-talking") then AfricasTalking
    else if setting == Some("twilio") then Twilio
    else Console
  }

  /** send_console: it logs the message and always succeeds. */
  function SendConsole(logId: nat): (r: GatewayResult)
    ensures r == Delivered(JStr("console-" + NatToString(logId)), "console")
  {
    Delivered(JStr("console-" + NatToString(logId)), "console")
  }

  /** The recipient in Kenyan form: '+' numbers as they are, a leading 0 replaced by +254, anything else prefixed. */
  function AtPhone(phone: string): (r: string)
    ensures StartsWith(r, "+")
    ensures StartsWith(phone, "+") ==> r == phone
    ensures !StartsWith(phone, "+") && StartsWith(phone, "0") ==> r == "+254" + LStrip(phone, '0')
    ensures !StartsWith(phone, "+") && !StartsWith(phone, "0") ==> r == "+254" + phone
  {
    if StartsWith(phone, "+") then phone
    else if StartsWith(phone, "0") then "+254" + LStrip(phone, '0')
    else "+254" + phone
  }

  /** A local number loses its zero for +254. */
  lemma AtPhoneLeadingZero(rest: string)
    requires rest != [] && rest[0] != '0'
    ensures AtPhone("0" + rest) == "+254" + rest
  {
    var p := "0" + rest;
    assert !StartsWith(p, "+") by { assert p[0] != '+'; }
    assert StartsWith(p, "0") by { assert p[..1] == "0"; }
    assert p[1..] == rest;
  }

  lemma AtPhoneLocal()
    ensures AtPhone("0712345678") == "+254712345678"
  {
    AtPhoneLeadingZero("712345678");
    assert "0" + "712345678" == "0712345678";
  }

  /** A number already carrying 254 without '+' gets the code a second time. */
  lemma AtPhoneDoubled()
    ensures AtPhone("254712345678") == "+254254712345678"
  {
    assert !StartsWith("254712345678", "+") by { assert "254712345678"[0] != '+'; }
    assert !StartsWith("254712345678", "0") by { assert "254712345678"[0] != '0'; }
  }

  /** The HTTP answer from Africa's Talking: its status, its decoded body (or the decoder's error) and its text. */
  datatype AtResponse = AtResponse(statusCode: int, body: Result<Value, string>, text: string)

  /** recipients[0] on a truthy value: a list gives its first element; other values raise. */
  function FirstOf(v: Value): (r: Result<Value, string>)
    requires Truthy(v)
    ensures v.JList? ==> r == Ok(v.items[0])
  {
    match v
    case JList(items) => Ok(items[0])
    case JStr(s) => Ok(JStr([s[0]]))
    case JObj(_) => Err("0")
    case _ => Err("'" + TypeName(v) + "' object is not subscriptable")
  }

  /** The first recipient entry of a decoded 200 answer, or the exception reading it raises. */
  function FirstRecipient(data: Value): Result<Option<Value>, string>
  {
    match Get(data, "SMSMessageData", JObj(map[]))
    case Err(e) => Err(e)
    case Ok(smd) =>
      match Get(smd, "Recipients", JList([]))
      case Err(e) => Err(e)
      case Ok(recipients) =>
        if !Truthy(recipients) then Ok(None)
        else
          match FirstOf(recipients)
          case Err(e) => Err(e)
          case Ok(first) => Ok(Some(first))
  }

  /** The body of send_africas_talking after the request: how the answer is read. */
  function ReadAtResponse(resp: AtResponse): (r: GatewayResult)
    ensures resp.statusCode != 200 ==> r.NotDelivered? && r.errorCode == "HTTP_ERROR"
    ensures r.Delivered? ==> r.provider == "africas-talking"
  {
    if resp.statusCode != 200 then
      NotDelivered(JStr("HTTP " + IntToString(resp.statusCode) + ": " + resp.text), "HTTP_ERROR")
    else
      match resp.body
      case Err(e) => NotDelivered(JStr(e), "EXCEPTION")
      case Ok(data) =>
        match FirstRecipient(data)
        case Err(e) => NotDelivered(JStr(e), "EXCEPTION")
        case Ok(None) => NotDelivered(JStr("No recipients in response"), "EMPTY_RECIPIENTS")
        case Ok(Some(first)) =>
          if !first.JObj? then NotDelivered(JStr("'" + TypeName(first) + "' object has no attribute 'get'"), "EXCEPTION")
          else
            var code := Get(first, "statusCode", JNull).value;
            if code == JInt(101) then Delivered(Get(first, "messageId", JStr("")).value, "africas-talking")
            else NotDelivered(Get(first, "errorMessage", JStr("Unknown API error")).value,
                              PyStr(Get(first, "statusCode", JStr("UNKNOWN")).value))
  }

  /** A 200 answer in the documented shape: its first recipient decides, with status 101 the only success. */
  lemma AtRecipientDecides(recipients: seq<Value>, statusCode: Value, text: string)
    requires |recipients| > 0 && recipients[0].JObj?
    requires "statusCode" in recipients[0].fields && recipients[0].fields["statusCode"] == statusCode
    ensures var resp := AtResponse(200, Ok(JObj(map["SMSMessageData" := JObj(map["Recipients" := JList(recipients)])])), text);
      var r := ReadAtResponse(resp);
      (r.Delivered? <==> statusCode == JInt(101)) &&
      (r.NotDelivered? ==> r.errorCode == PyStr(statusCode))
  {
    var data := JObj(map["SMSMessageData" := JObj(map["Recipients" := JList(recipients)])]);
    assert FirstRecipient(data) == Ok(Some(recipients[0]));
  }

  /** A 200 answer with no recipients is refused as EMPTY_RECIPIENTS. */
  lemma AtEmptyRecipients(text: string)
    ensures ReadAtResponse(AtResponse(200, Ok(JObj(map["SMSMessageData" := JObj(map["Recipients" := JList([])])])), text)) ==
      NotDelivered(JStr("No recipients in response"), "EMPTY_RECIPIENTS")
    ensures ReadAtResponse(AtResponse(200, Ok(JObj(map[])), text)) ==
      NotDelivered(JStr("No recipients in response"), "EMPTY_RECIPIENTS")
  {
    assert FirstRecipient(JObj(map["SMSMessageData" := JObj(map["Recipients" := JList([])])])) == Ok(None);
    assert FirstRecipient(JObj(map[])) == Ok(None);
  }

  /** send_africas_talking: without both credentials it hands over to the console sender. */
  function SendAfricasTalking(apiKey: Option<string>, username: Option<string>, logId: nat, resp: AtResponse): (r: GatewayResult)
    ensures apiKey.None? || apiKey == Some("") || username.None? || username == Some("") ==> r == SendConsole(logId)
    ensures apiKey.Some? && apiKey != Some("") && username.Some? && username != Some("") ==> r == ReadAtResponse(resp)
  {
    if apiKey.None? || apiKey == Some("") || username.None? || username == Some("") then SendConsole(logId)
    else ReadAtResponse(resp)
  }

  /** What the Twilio client did: library missing, a created message, or a raised error. */
  datatype TwilioOutcome = TwilioMissing | TwilioCreated(sid: string) | TwilioRaised(message: string)

  /** send_twilio: a missing library or any missing credential hands over to the console sender. */
  function SendTwilio(accountSid: Option<string>, authToken: Option<string>, fromNumber: Option<string>,
                      logId: nat, outcome: TwilioOutcome): (r: GatewayResult)
    ensures outcome.TwilioMissing? ==> r == SendConsole(logId)
    ensures accountSid.None? || authToken.None? || fromNumber.None? ==> r == SendConsole(logId)
    ensures r.NotDelivered? ==> r.errorCode == "TWILIO_ERROR"
  {
    if outcome.TwilioMissing? then SendConsole(logId)
    else if accountSid.None? || accountSid == Some("") || authToken.None? || authToken == Some("") ||
            fromNumber.None? || fromNumber == Some("") then SendConsole(logId)
    else
      match outcome
      case TwilioCreated(sid) => Delivered(JStr(sid), "twilio")
      case TwilioRaised(m) => NotDelivered(JStr(m), "TWILIO_ERROR")
  }

  /** The gateway's settings and the providers' answers for one send. */
  datatype GatewayWorld = GatewayWorld(
    provider: Option<string>,
    atApiKey: Option<string>,
    atUsername: Option<string>,
    atResponse: AtResponse,
    twilioSid: Option<string>,
    twilioToken: Option<string>,
    twilioFrom: Option<string>,
    twilio: TwilioOutcome)

  /** SMSGateway.send */
  function Send(w: GatewayWorld, logId: nat): (r: GatewayResult)
    ensures Route(w.provider) == Console ==> r == SendConsole(logId)
    ensures Route(w.provider) == AfricasTalking ==> r == SendAfricasTalking(w.atApiKey, w.atUsername, logId, w.atResponse)
    ensures Route(w.provider) == Twilio ==> r == SendTwilio(w.twilioSid, w.twilioToken, w.twilioFrom, logId, w.twilio)
  {
    match Route(w.provider)
    case AfricasTalking => SendAfricasTalking(w.atApiKey, w.atUsername, logId, w.atResponse)
    case Twilio => SendTwilio(w.twilioSid, w.twilioToken, w.twilioFrom, logId, w.twilio)
    case Console => SendConsole(logId)
  }

  /** Without a setting, or with an unknown one, every send succeeds on the console. */
  lemma UnconfiguredAlwaysDelivers(w: GatewayWorld, logId: nat)
    requires w.provider.None? || (w.provider.value != "africas-talking" && w.provider.value != "twilio")
    ensures Send(w, logId).Delivered?
    ensures Send(w, logId).messageId == JStr("console-" + NatToString(logId))
  {
  }
}
