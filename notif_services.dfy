// The decisions of core/notifications/services.py: whether a recipient wants an
// event, which channels to use, the logs dispatching creates, and how a
// provider's answer updates a log. Template rendering always falls back to the
// notification's own title and message, because the lookup it starts with
// names `models`, which the file never imports, and the error is caught.

module NotifServices {
  import opened Common
  import opened Json
  import opened NotifModels
  import opened SmsGateway

  /** A NotificationPreference row: channel flags, the SMS number, one flag per event and the quiet window. */
  datatype Preference = Preference(
    smsEnabled: bool,
    emailEnabled: bool,
    phoneNumber: string,
    invoiceIssued: bool,
    paymentReceived: bool,
    arrearsWarning: bool,
    arrearsCritical: bool,
    paymentReminder: bool,
    examResults: bool,
    attendanceAlert: bool,
    quietStart: Option<int>,
    quietEnd: Option<int>)

  /** The flag of one of the seven known event types. */
  function EventFlag(p: Preference, eventType: string): Option<bool>
  {
    if eventType == "invoice_issued" then Some(p.invoiceIssued)
    else if eventType == "payment_received" then Some(p.paymentReceived)
    else if eventType == "arrears_warning" then Some(p.arrearsWarning)
    else if eventType == "arrears_critical" then Some(p.arrearsCritical)
    else if eventType == "payment_reminder" then Some(p.paymentReminder)
    else if eventType == "exam_results" then Some(p.examResults)
    else if eventType == "attendance_alert" then Some(p.attendanceAlert)
    else None
  }

  const KnownEvents: seq<string> := ["invoice_issued", "payment_received", "arrears_warning", "arrears_critical",
                                     "payment_reminder", "exam_results", "attendance_alert"]

  /** NotificationService.should_notify at the time of day `now`; `pref` is the recipient's row, None when there is none. */
  function ShouldNotify(pref: Option<Preference>, eventType: string, now: int): (r: bool)
    ensures pref.None? ==> r
    ensures pref.Some? && IsInQuietHours(pref.value.quietStart, pref.value.quietEnd, now) ==> !r
    ensures pref.Some? && !IsInQuietHours(pref.value.quietStart, pref.value.quietEnd, now) ==>
      r == (if EventFlag(pref.value, eventType).Some? then EventFlag(pref.value, eventType).value else true)
  {
    if pref.None? then true
    else if IsInQuietHours(pref.value.quietStart, pref.value.quietEnd, now) then false
    else match EventFlag(pref.value, eventType)
      case Some(flag) => flag
      case None => true
  }

  /** Exactly the seven known types have a flag of their own; every other type is always wanted outside quiet hours. */
  lemma EventFlagKnownTypes(p: Preference, eventType: string, now: int)
    ensures EventFlag(p, eventType).Some? <==> eventType in KnownEvents
    ensures eventType !in KnownEvents && !IsInQuietHours(p.quietStart, p.quietEnd, now) ==> ShouldNotify(Some(p), eventType, now)
  {
  }

  /** NotificationService.get_channels */
  function GetChannels(pref: Option<Preference>): (r: seq<string>)
    ensures pref.None? ==> r == ["email"]
    ensures pref.Some? ==> ("sms" in r <==> pref.value.smsEnabled) && ("email" in r <==> pref.value.emailEnabled)
    ensures pref.Some? ==> |r| <= 2 && (|r| == 2 ==> r == ["sms", "email"])
  {
    if pref.None? then ["email"]
    else
      var withSms := if pref.value.smsEnabled then ["sms"] else [];
      if pref.value.emailEnabled then withSms + ["email"] else withSms
  }

  /** The parts of a Notification the senders read; the recipient's email comes from the user. */
  datatype NotificationRow = NotificationRow(id: nat, title: string, message: string, recipientEmail: string)

  /** The SMS_PROVIDER setting as send_sms reads it: 'africas-talking' when unset. */
  function LogProvider(setting: Option<string>): string
  {
    if setting.Some? then setting.value else "africas-talking"
  }

  /** SMSService.send_sms: the queued log it creates, if any. */
  function SendSms(pref: Option<Preference>, n: NotificationRow, providerSetting: Option<string>, logId: nat, now: int): (r: Option<SmsRecord>)
    ensures r.Some? <==> pref.Some? && pref.value.phoneNumber != ""
    ensures r.Some? ==>
      r.value.id == logId && r.value.phoneNumber == pref.value.phoneNumber &&
      r.value.message == n.message && r.value.delivery == NewDelivery() && r.value.createdAt == now
  {
    if pref.None? || pref.value.phoneNumber == "" then None
    else Some(SmsRecord(logId, pref.value.phoneNumber, n.message, LogProvider(providerSetting), now, NewDelivery(), ""))
  }

  /** EmailService.send_email: the queued log it creates, if any. */
  function SendEmail(n: NotificationRow, logId: nat, now: int): (r: Option<EmailRecord>)
    ensures r.Some? <==> n.recipientEmail != ""
    ensures r.Some? ==>
      r.value.id == logId && r.value.recipientEmail == n.recipientEmail &&
      r.value.subject == n.title && r.value.messageHtml == n.message && r.value.delivery == NewDelivery()
  {
    if n.recipientEmail == "" then None
    else Some(EmailRecord(logId, n.recipientEmail, n.title, n.message, now, NewDelivery()))
  }

  /** The 'sms' and 'email' entries of dispatch_notification's result: the id of the log created, or None. */
  datatype DispatchResults = DispatchResults(sms: Option<nat>, email: Option<nat>)

  /** The log tables and the results after dispatching over some channels. */
  datatype Outboxes = Outboxes(sms: seq<SmsRecord>, email: seq<EmailRecord>, results: DispatchResults)

  /** One channel of the loop; log ids are positions in their table. */
  function DispatchOne(o: Outboxes, pref: Option<Preference>, n: NotificationRow, providerSetting: Option<string>,
                       now: int, channel: string): Outboxes
  {
    if channel == "sms" then
      match SendSms(pref, n, providerSetting, |o.sms|, now)
      case None => o.(results := o.results.(sms := None))
      case Some(log) => Outboxes(o.sms + [log], o.email, o.results.(sms := Some(log.id)))
    else if channel == "email" then
      match SendEmail(n, |o.email|, now)
      case None => o.(results := o.results.(email := None))
      case Some(log) => Outboxes(o.sms, o.email + [log], o.results.(email := Some(log.id)))
    else o
  }

  /** The loop over channels, from left to right. */
  function Dispatch(o: Outboxes, pref: Option<Preference>, n: NotificationRow, providerSetting: Option<string>,
                    now: int, channels: seq<string>): Outboxes
    decreases |channels|
  {
    if channels == [] then o
    else DispatchOne(Dispatch(o, pref, n, providerSetting, now, channels[..|channels| - 1]),
                     pref, n, providerSetting, now, channels[|channels| - 1])
  }

  /** Logs are only ever added, and only for channels that were asked for. */
  lemma {:induction false} DispatchOnlyRequested(o: Outboxes, pref: Option<Preference>, n: NotificationRow,
                                                 providerSetting: Option<string>, now: int, channels: seq<string>)
    ensures var d := Dispatch(o, pref, n, providerSetting, now, channels);
      o.sms <= d.sms && o.email <= d.email &&
      ("sms" !in channels ==> d.sms == o.sms && d.results.sms == o.results.sms) &&
      ("email" !in channels ==> d.email == o.email && d.results.email == o.results.email) &&
      (d.results.sms.Some? && d.results.sms != o.results.sms ==> d.results.sms.value < |d.sms|) &&
      (d.results.email.Some? && d.results.email != o.results.email ==> d.results.email.value < |d.email|)
    decreases |channels|
  {
    if channels != [] {
      var init := channels[..|channels| - 1];
      assert forall c :: c in init ==> c in channels;
      DispatchOnlyRequested(o, pref, n, providerSetting, now, init);
    }
  }

  /**
   * Dispatching over get_channels' answer, passed explicitly, for a recipient
   * without preferences creates exactly one email log when they have an address.
   */
  lemma DefaultChannelIsEmail(o: Outboxes, n: NotificationRow, providerSetting: Option<string>, now: int)
    requires n.recipientEmail != ""
    ensures var d := Dispatch(o, None, n, providerSetting, now, GetChannels(None));
      d.sms == o.sms && |d.email| == |o.email| + 1 && d.results.email == Some(|o.email|)
  {
    assert ["email"][..0] == [];
  }

  /** The AttributeError of the lookup `NotificationService.get_channels`. */
  const NoGetChannels: string := "type object 'NotificationService' has no attribute 'get_channels'"

  /** The log tables dispatch_notification writes into. */
  class Outbox {
    var sms: seq<SmsRecord>
    var email: seq<EmailRecord>

    constructor ()
      ensures sms == [] && email == []
    {
      sms, email := [], [];
    }

    /**
     * NotificationService.dispatch_notification. Without `channels` it asks
     * `NotificationService.get_channels`, a name that by then denotes the class
     * redefined further down the file, which has no such attribute.
     */
    method DispatchNotification(pref: Option<Preference>, n: NotificationRow, providerSetting: Option<string>,
                                now: int, channels: Option<seq<string>>) returns (r: Result<DispatchResults, string>)
      modifies this
      ensures channels.None? ==> r == Err(NoGetChannels) && sms == old(sms) && email == old(email)
      ensures channels.Some? ==>
                r.Ok? &&
                Outboxes(sms, email, r.value) == Dispatch(Outboxes(old(sms), old(email), DispatchResults(None, None)), pref, n, providerSetting, now, channels.value)
    {
      if channels.None? {
        return Err(NoGetChannels);
      }
      var cs := channels.value;
      ghost var start := Outboxes(sms, email, DispatchResults(None, None));
      var results := DispatchResults(None, None);
      var i := 0;
      while i < |cs|
        invariant 0 <= i <= |cs|
        invariant Outboxes(sms, email, results) == Dispatch(start, pref, n, providerSetting, now, cs[..i])
      {
        assert cs[..i + 1][..i] == cs[..i];
        var channel := cs[i];
        if channel == "sms" {
          var log := SendSms(pref, n, providerSetting, |sms|, now);
          if log.Some? {
            sms := sms + [log.value];
            results := results.(sms := Some(log.value.id));
          } else {
            results := results.(sms := None);
          }
        } else if channel == "email" {
          var log := SendEmail(n, |email|, now);
          if log.Some? {
            email := email + [log.value];
            results := results.(email := Some(log.value.id));
          } else {
            results := results.(email := None);
          }
        }
        i := i + 1;
      }
      assert cs[..|cs|] == cs;
      r := Ok(results);
    }
  }

  // ---------------------------------------------------------------------------
  // send_via_provider

  /** The text stored as provider_message_id: nothing for a falsy id. */
  function MessageIdText(v: Value): string
  {
    if Truthy(v) then PyStr(v) else ""
  }

  /**
   * The IntegrityError SQLite raises when a NULL is saved into SMSLog's
   * error_message, a text column that is not nullable.
   */
  const NullErrorMessageRefused: string := "NOT NULL constraint failed: notifications_sms_log.error_message"

  /**
   * SMSService.send_via_provider on a log and the gateway's answer. A refusal
   * whose message is a JSON null makes the save in mark_as_failed(None, code)
   * raise, after the log has already spent an attempt in memory; the handler
   * then marks it failed again with the error's text and no code. The text
   * column stores str() of any other message.
   */
  function SmsDelivery(r: SmsRecord, result: GatewayResult, now: int): (s: SmsRecord)
    ensures result.Delivered? ==> s.delivery.status == Sent && s.delivery.attemptCount == r.delivery.attemptCount
    ensures result.NotDelivered? && !result.errorMessage.JNull? ==>
      s.delivery.status == Failed && s.delivery.attemptCount == r.delivery.attemptCount + 1 &&
      s.delivery.errorMessage == PyStr(result.errorMessage) && s.errorCode == result.errorCode
    ensures result.NotDelivered? && result.errorMessage.JNull? ==>
      s.delivery.status == Failed && s.delivery.attemptCount == r.delivery.attemptCount + 2 &&
      s.delivery.errorMessage == NullErrorMessageRefused && s.errorCode == ""
    ensures s.id == r.id && s.createdAt == r.createdAt && s.phoneNumber == r.phoneNumber
  {
    match result
    case Delivered(id, _) => SmsSent(r, MessageIdText(id), now)
    case NotDelivered(msg, code) =>
      if msg.JNull? then SmsFailed(SmsFailed(r, "", code), NullErrorMessageRefused, "")
      else SmsFailed(r, PyStr(msg), code)
  }

  /** A fresh log that fails once may be retried; one that is delivered may not. */
  lemma FirstFailureRetryable(r: SmsRecord, result: GatewayResult, now: int)
    requires r.delivery == NewDelivery()
    ensures CanRetry(SmsDelivery(r, result, now).delivery) <==> result.NotDelivered?
  {
  }

  method SmsSendViaProvider(log: SmsLog, result: GatewayResult, now: int)
    modifies log
    ensures log.Record() == SmsDelivery(old(log.Record()), result, now)
  {
    match result {
      case Delivered(id, _) => log.MarkAsSent(MessageIdText(id), now);
      case NotDelivered(msg, code) =>
        if msg.JNull? {
          // The first call's values never reach the table: its save raises.
          log.MarkAsFailed("", code);
          log.MarkAsFailed(NullErrorMessageRefused, "");
        } else {
          log.MarkAsFailed(PyStr(msg), code);
        }
    }
  }

  /** What Django's send_mail did: the number of messages sent, or the exception's text. */
  datatype MailOutcome = MailCount(count: int) | MailRaised(message: string)

  /** The dict EmailService.send_via_provider returns. */
  datatype SendReply = SendReply(success: bool, errorMessage: Option<string>)

  /** EmailService.send_via_provider on a log and send_mail's outcome. */
  function EmailDelivery(r: EmailRecord, outcome: MailOutcome, now: int): (res: (EmailRecord, SendReply))
    ensures res.1.success <==> outcome.MailCount? && outcome.count > 0
    ensures res.1.success ==> res.0.delivery.status == Sent && res.0.delivery.attemptCount == r.delivery.attemptCount
    ensures !res.1.success ==> res.0.delivery.status == Failed && res.0.delivery.attemptCount == r.delivery.attemptCount + 1
    ensures outcome.MailCount? && outcome.count <= 0 ==>
      res.0.delivery.errorMessage == "Django send_mail returned 0" && res.1.errorMessage == Some("Send failed")
    ensures outcome.MailRaised? ==> res.0.delivery.errorMessage == outcome.message && res.1.errorMessage == Some(outcome.message)
  {
    match outcome
    case MailCount(n) =>
      if n > 0 then (EmailSent(r, "", now), SendReply(true, None))
      else (EmailFailed(r, "Django send_mail returned 0"), SendReply(false, Some("Send failed")))
    case MailRaised(m) => (EmailFailed(r, m), SendReply(false, Some(m)))
  }

  method EmailSendViaProvider(log: EmailLog, outcome: MailOutcome, now: int) returns (reply: SendReply)
    modifies log
    ensures (log.Record(), reply) == EmailDelivery(old(log.Record()), outcome, now)
  {
    match outcome {
      case MailCount(n) =>
        if n > 0 {
          log.MarkAsSent("", now);
          reply := SendReply(true, None);
        } else {
          log.MarkAsFailed("Django send_mail returned 0");
          reply := SendReply(false, Some("Send failed"));
        }
      case MailRaised(m) =>
        log.MarkAsFailed(m);
        reply := SendReply(false, Some(m));
    }
  }
}
