// The post-save receivers of core/fees/signals.py. Each receiver decides
// whether a notification is due and which event it is; the notification call
// itself then fails, because the NotificationService the receivers import is
// the later class of the same name, which has no create_notification. The
// failure is caught and logged, so a receiver always returns normally.

module FeeSignals {
  import opened Common
  import opened FeeServices

  /** The text of the AttributeError every notifying receiver ends in. */
  const MissingCreate: string := "type object 'NotificationService' has no attribute 'create_notification'"

  /** How a receiver ends: nothing to send, no recipient, or the logged failure of the notification it meant to send. */
  datatype NoticeOutcome = NoNotice | NoRecipient | NoticeFailed(eventType: string, error: string)

  /** invoice_created_notify: only a newly created invoice that is not cancelled. */
  function InvoiceNotice(created: bool, inv: Invoice, hasUser: bool): (r: NoticeOutcome)
    ensures r.NoticeFailed? <==> created && inv.status != Cancelled && hasUser
    ensures r.NoticeFailed? ==> r == NoticeFailed("invoice_issued", MissingCreate)
    ensures !created || inv.status == Cancelled ==> r == NoNotice
  {
    if created && inv.status != Cancelled then
      if !hasUser then NoRecipient else NoticeFailed("invoice_issued", MissingCreate)
    else NoNotice
  }

  /** payment_recorded_notify: only a newly created completed payment. */
  function PaymentNotice(created: bool, p: FeePayment, hasUser: bool): (r: NoticeOutcome)
    ensures r.NoticeFailed? <==> created && p.status == PaymentCompleted && hasUser
    ensures r.NoticeFailed? ==> r == NoticeFailed("payment_received", MissingCreate)
    ensures !created || p.status != PaymentCompleted ==> r == NoNotice
  {
    if created && p.status == PaymentCompleted then
      if !hasUser then NoRecipient else NoticeFailed("payment_received", MissingCreate)
    else NoNotice
  }

  /** The arrears event by days outstanding: critical from 60 days, a warning from 30, nothing below. */
  function ArrearsEvent(days: int): (r: Option<string>)
    ensures days >= 60 ==> r == Some("arrears_critical")
    ensures 30 <= days < 60 ==> r == Some("arrears_warning")
    ensures days < 30 ==> r == None
  {
    if days >= 60 then Some("arrears_critical")
    else if days >= 30 then Some("arrears_warning")
    else None
  }

  /** arrears_updated_notify, on every save of an arrears row. */
  function ArrearsNotice(row: Arrears, hasUser: bool): (r: NoticeOutcome)
    ensures row.isResolved ==> r == NoNotice
    ensures r.NoticeFailed? <==> !row.isResolved && hasUser && row.daysOutstanding >= 30
    ensures r.NoticeFailed? ==> r.eventType == ArrearsEvent(row.daysOutstanding).value && r.error == MissingCreate
  {
    if row.isResolved then NoNotice
    else if !hasUser then NoRecipient
    else
      match ArrearsEvent(row.daysOutstanding)
      case None => NoNotice
      case Some(e) => NoticeFailed(e, MissingCreate)
  }

  /** The two events are exclusive: no row is both critical and a warning. */
  lemma ArrearsEventsExclusive(days: int)
    ensures ArrearsEvent(days) != Some("arrears_critical") || ArrearsEvent(days) != Some("arrears_warning")
    ensures ArrearsEvent(days).Some? <==> days >= 30
  {
  }

  /**
   * The row an arrears recompute writes for a student with overdue invoices is
   * unresolved, so its save reaches the classification: from 30 days overdue
   * the receiver attempts a notice and logs the failure.
   */
  lemma RecomputedRowNotice(dir: Directory, b: Books, studentId: nat, today: int, now: int)
    requires AnyOverdue(b.invoices, studentId, today)
    ensures var once := ArrearsStep(dir, b, studentId, today, now).books;
      var days := today - EarliestDue(b.invoices, studentId, today).value;
      exists k :: 0 <= k < |once.arrears| && once.arrears[k].studentId == studentId &&
        once.arrears[k].daysOutstanding == days &&
        ArrearsNotice(once.arrears[k], true) == (if days >= 30 then NoticeFailed(ArrearsEvent(days).value, MissingCreate) else NoNotice)
  {
    var k := ArrearsStepOverdueRow(dir, b, studentId, today, now);
    var once := ArrearsStep(dir, b, studentId, today, now).books;
    assert once.arrears[k].studentId == studentId;
  }
}
