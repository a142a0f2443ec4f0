// The state-keeping parts of core/notifications/models.py: the quiet-hours
// window of a NotificationPreference, a Notification's read flag, and the
// delivery state of SMSLog and EmailLog rows with their retry budget.
// Times of day are microseconds since midnight, the resolution of Python's
// `datetime.time`, so 07:00:30 lies after a window ending at 07:00; instants
// are seconds.

module NotifModels {
  import opened Common

  // ---------------------------------------------------------------------------
  // NotificationPreference.is_in_quiet_hours

  /**
   * No window when either bound is unset; a window that does not cross
   * midnight is inclusive at both ends; one that does covers from the start to
   * midnight and from midnight to the end.
   */
  function IsInQuietHours(start: Option<int>, end: Option<int>, now: int): (r: bool)
    ensures start.None? || end.None? ==> !r
    ensures start.Some? && end.Some? && start.value <= end.value ==> (r <==> start.value <= now <= end.value)
    ensures start.Some? && end.Some? && start.value > end.value ==> (r <==> now >= start.value || now <= end.value)
  {
    if start.None? || end.None? then false
    else if start.value <= end.value then start.value <= now <= end.value
    else now >= start.value || now <= end.value
  }

  /** A window over midnight is the complement of the daytime gap between its bounds. */
  lemma QuietHoursOverMidnight(start: int, end: int, now: int)
    requires start > end
    ensures IsInQuietHours(Some(start), Some(end), now) <==> !(end < now < start)
  {
  }

  /** Both bounds of a window belong to it. */
  lemma QuietHoursBoundsIncluded(start: int, end: int)
    ensures IsInQuietHours(Some(start), Some(end), start)
    ensures IsInQuietHours(Some(start), Some(end), end)
  {
  }

  // ---------------------------------------------------------------------------
  // Notification.mark_as_read

  class Notification {
    var isRead: bool
    var readAt: Option<int>

    constructor ()
      ensures !isRead && readAt.None?
    {
      isRead, readAt := false, None;
    }

    /** The first call records the time; later calls change nothing. */
    method MarkAsRead(now: int)
      modifies this
      ensures isRead
      ensures old(isRead) ==> readAt == old(readAt)
      ensures !old(isRead) ==> readAt == Some(now)
    {
      if !isRead {
        isRead := true;
        readAt := Some(now);
      }
    }
  }

  // ---------------------------------------------------------------------------
  // SMSLog and EmailLog delivery state

  datatype LogStatus = Queued | Sent | Delivered | Failed | Bounced

  /** The delivery fields both log tables share. */
  datatype Delivery = Delivery(
    status: LogStatus,
    attemptCount: int,
    maxRetries: int,
    providerMessageId: string,
    errorMessage: string,
    sentAt: Option<int>)

  /** A freshly created log: queued, no attempts, three retries allowed. */
  function NewDelivery(): Delivery
  {
    Delivery(Queued, 0, 3, "", "", None)
  }

  predicate CanRetry(d: Delivery)
  {
    d.status == Failed && d.attemptCount < d.maxRetries
  }

  /** mark_as_sent: the provider id is only overwritten by a non-empty one. */
  function MarkedSent(d: Delivery, providerMessageId: string, now: int): (r: Delivery)
    ensures r.status == Sent && r.sentAt == Some(now)
    ensures r.attemptCount == d.attemptCount && r.maxRetries == d.maxRetries && r.errorMessage == d.errorMessage
    ensures r.providerMessageId == if providerMessageId == "" then d.providerMessageId else providerMessageId
  {
    d.(status := Sent, sentAt := Some(now),
       providerMessageId := if providerMessageId != "" then providerMessageId else d.providerMessageId)
  }

  /** mark_as_failed: one more attempt and the error kept. */
  function MarkedFailed(d: Delivery, errorMessage: string): (r: Delivery)
    ensures r.status == Failed && r.errorMessage == errorMessage
    ensures r.attemptCount == d.attemptCount + 1
    ensures r.maxRetries == d.maxRetries && r.providerMessageId == d.providerMessageId && r.sentAt == d.sentAt
  {
    d.(status := Failed, errorMessage := errorMessage, attemptCount := d.attemptCount + 1)
  }

  /** `k` failures in a row. */
  function FailedTimes(d: Delivery, k: nat, errorMessage: string): Delivery
    decreases k
  {
    if k == 0 then d else MarkedFailed(FailedTimes(d, k - 1, errorMessage), errorMessage)
  }

  /**
   * The retry budget: after k >= 1 failures of a fresh log the log may be
   * retried exactly while k is below max_retries, so a fresh log is retried at
   * most max_retries - 1 times after its first failure.
   */
  lemma {:induction false} RetryBudget(k: nat, errorMessage: string)
    requires k >= 1
    ensures FailedTimes(NewDelivery(), k, errorMessage).attemptCount == k
    ensures CanRetry(FailedTimes(NewDelivery(), k, errorMessage)) <==> k < 3
    decreases k
  {
    if k > 1 {
      RetryBudget(k - 1, errorMessage);
    }
  }

  /** A sent log is never retried, and sending does not spend an attempt. */
  lemma SentIsFinal(d: Delivery, providerMessageId: string, now: int)
    ensures !CanRetry(MarkedSent(d, providerMessageId, now))
    ensures MarkedSent(d, providerMessageId, now).attemptCount == d.attemptCount
  {
  }

  /** A row of SMSLog as a value. */
  datatype SmsRecord = SmsRecord(id: nat, phoneNumber: string, message: string, provider: string,
                                 createdAt: int, delivery: Delivery, errorCode: string)

  /** A row of EmailLog as a value. */
  datatype EmailRecord = EmailRecord(id: nat, recipientEmail: string, subject: string, messageHtml: string,
                                     createdAt: int, delivery: Delivery)

  /** SMSLog.mark_as_failed also keeps the provider's error code. */
  function SmsFailed(r: SmsRecord, errorMessage: string, errorCode: string): (s: SmsRecord)
    ensures s.delivery == MarkedFailed(r.delivery, errorMessage) && s.errorCode == errorCode
    ensures s.id == r.id && s.phoneNumber == r.phoneNumber && s.message == r.message && s.createdAt == r.createdAt
  {
    r.(delivery := MarkedFailed(r.delivery, errorMessage), errorCode := errorCode)
  }

  function SmsSent(r: SmsRecord, providerMessageId: string, now: int): (s: SmsRecord)
    ensures s.delivery == MarkedSent(r.delivery, providerMessageId, now) && s.errorCode == r.errorCode
    ensures s.id == r.id && s.phoneNumber == r.phoneNumber && s.message == r.message && s.createdAt == r.createdAt
  {
    r.(delivery := MarkedSent(r.delivery, providerMessageId, now))
  }

  class SmsLog {
    var id: nat
    var phoneNumber: string
    var message: string
    var provider: string
    var createdAt: int
    var status: LogStatus
    var attemptCount: int
    var maxRetries: int
    var providerMessageId: string
    var errorMessage: string
    var errorCode: string
    var sentAt: Option<int>

    function Record(): SmsRecord
      reads this
    {
      SmsRecord(id, phoneNumber, message, provider, createdAt,
                Delivery(status, attemptCount, maxRetries, providerMessageId, errorMessage, sentAt), errorCode)
    }

    constructor (id: nat, phoneNumber: string, message: string, provider: string, createdAt: int)
      ensures Record() == SmsRecord(id, phoneNumber, message, provider, createdAt, NewDelivery(), "")
    {
      this.id, this.phoneNumber, this.message, this.provider, this.createdAt := id, phoneNumber, message, provider, createdAt;
      status, attemptCount, maxRetries := Queued, 0, 3;
      providerMessageId, errorMessage, errorCode, sentAt := "", "", "", None;
    }

    function CanRetryNow(): (r: bool)
      reads this
      ensures r == CanRetry(Record().delivery)
    {
      status == Failed && attemptCount < maxRetries
    }

    method MarkAsSent(providerMessageId: string, now: int)
      modifies this
      ensures Record() == SmsSent(old(Record()), providerMessageId, now)
    {
      status := Sent;
      sentAt := Some(now);
      if providerMessageId != "" {
        this.providerMessageId := providerMessageId;
      }
    }

    method MarkAsFailed(errorMessage: string, errorCode: string)
      modifies this
      ensures Record() == SmsFailed(old(Record()), errorMessage, errorCode)
    {
      status := Failed;
      this.errorMessage := errorMessage;
      this.errorCode := errorCode;
      attemptCount := attemptCount + 1;
    }
  }

  function EmailFailed(r: EmailRecord, errorMessage: string): (s: EmailRecord)
    ensures s.delivery == MarkedFailed(r.delivery, errorMessage)
    ensures s.id == r.id && s.recipientEmail == r.recipientEmail && s.createdAt == r.createdAt
  {
    r.(delivery := MarkedFailed(r.delivery, errorMessage))
  }

  function EmailSent(r: EmailRecord, providerMessageId: string, now: int): (s: EmailRecord)
    ensures s.delivery == MarkedSent(r.delivery, providerMessageId, now)
    ensures s.id == r.id && s.recipientEmail == r.recipientEmail && s.createdAt == r.createdAt
  {
    r.(delivery := MarkedSent(r.delivery, providerMessageId, now))
  }

  class EmailLog {
    var id: nat
    var recipientEmail: string
    var subject: string
    var messageHtml: string
    var createdAt: int
    var status: LogStatus
    var attemptCount: int
    var maxRetries: int
    var providerMessageId: string
    var errorMessage: string
    var sentAt: Option<int>

    function Record(): EmailRecord
      reads this
    {
      EmailRecord(id, recipientEmail, subject, messageHtml, createdAt,
                  Delivery(status, attemptCount, maxRetries, providerMessageId, errorMessage, sentAt))
    }

    constructor (id: nat, recipientEmail: string, subject: string, messageHtml: string, createdAt: int)
      ensures Record() == EmailRecord(id, recipientEmail, subject, messageHtml, createdAt, NewDelivery())
    {
      this.id, this.recipientEmail, this.subject, this.messageHtml, this.createdAt := id, recipientEmail, subject, messageHtml, createdAt;
      status, attemptCount, maxRetries := Queued, 0, 3;
      providerMessageId, errorMessage, sentAt := "", "", None;
    }

    function CanRetryNow(): (r: bool)
      reads this
      ensures r == CanRetry(Record().delivery)
    {
      status == Failed && attemptCount < maxRetries
    }

    method MarkAsSent(providerMessageId: string, now: int)
      modifies this
      ensures Record() == EmailSent(old(Record()), providerMessageId, now)
    {
      status := Sent;
      sentAt := Some(now);
      if providerMessageId != "" {
        this.providerMessageId := providerMessageId;
      }
    }

    method MarkAsFailed(errorMessage: string)
      modifies this
      ensures Record() == EmailFailed(old(Record()), errorMessage)
    {
      status := Failed;
      this.errorMessage := errorMessage;
      attemptCount := attemptCount + 1;
    }
  }
}
