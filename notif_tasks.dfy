// The periodic jobs of core/notifications/tasks.py: the SMS and email batch
// senders with their tallies and retry delays, the log cleanup, and the
// reminder and arrears selections. Celery's scheduling is outside the model;
// a retry request is recorded as the countdown it asks for.
//
// Two behaviours of the jobs as written are kept. self.retry raises Celery's
// Retry exception inside the per-log try block, whose `except Exception`
// catches it and counts the log as failed a second time (see the Findings of
// the README: TallyAsWritten against Tally). And every notification the
// reminder and arrears jobs try to create stops at should_notify, which the
// second NotificationService class of services.py no longer has.

module NotifTasks {
  import opened Common
  import opened Json
  import opened FeeServices
  import opened FeeSignals
  import opened NotifModels
  import opened NotifServices
  import opened SmsGateway

  const Day: int := 86400

  // ---------------------------------------------------------------------------
  // Batch selection

  /** The positions of the queued logs, in table order. */
  function QueuedPositions(statuses: seq<LogStatus>): (r: seq<nat>)
    ensures forall j :: 0 <= j < |r| ==> r[j] < |statuses| && statuses[r[j]] == Queued
    ensures forall i, j :: 0 <= i < j < |r| ==> r[i] < r[j]
    ensures forall p :: 0 <= p < |statuses| && statuses[p] == Queued ==> p in r
    decreases |statuses|
  {
    if statuses == [] then []
    else
      var n := |statuses| - 1;
      QueuedPositions(statuses[..n]) + (if statuses[n] == Queued then [n] else [])
  }

  /** `filter(status='queued').order_by('created_at')[:100]` over a table kept in creation order. */
  function PendingBatch(statuses: seq<LogStatus>): (r: seq<nat>)
    ensures |r| <= 100
    ensures forall j :: 0 <= j < |r| ==> r[j] < |statuses| && statuses[r[j]] == Queued
    ensures forall i, j :: 0 <= i < j < |r| ==> r[i] < r[j]
  {
    Take(QueuedPositions(statuses), 100)
  }

  /** Oldest first: a queued log left out of a batch is newer than every log in it. */
  lemma PendingBatchOldestFirst(statuses: seq<LogStatus>, p: nat)
    requires p < |statuses| && statuses[p] == Queued && p !in PendingBatch(statuses)
    ensures |PendingBatch(statuses)| == 100
    ensures forall j :: 0 <= j < 100 ==> PendingBatch(statuses)[j] < p
  {
    var q := QueuedPositions(statuses);
    var k :| 0 <= k < |q| && q[k] == p;
    assert k >= 100;
  }

  function SmsStatuses(logs: seq<SmsRecord>): (r: seq<LogStatus>)
    ensures |r| == |logs| && forall i :: 0 <= i < |logs| ==> r[i] == logs[i].delivery.status
  {
    seq(|logs|, i requires 0 <= i < |logs| => logs[i].delivery.status)
  }

  function EmailStatuses(logs: seq<EmailRecord>): (r: seq<LogStatus>)
    ensures |r| == |logs| && forall i :: 0 <= i < |logs| ==> r[i] == logs[i].delivery.status
  {
    seq(|logs|, i requires 0 <= i < |logs| => logs[i].delivery.status)
  }

  // ---------------------------------------------------------------------------
  // Batch sending

  /** What one pass of the loop body learnt: delivered or not, and the countdown of the retry it asked for. */
  datatype LogOutcome = LogOutcome(delivered: bool, retryDelay: Option<int>)

  /** The outcome read off a log after sending, with `unit` seconds per attempt of delay. */
  function OutcomeOf(d: Delivery, unit: int): (r: LogOutcome)
    ensures r.delivered <==> d.status == Sent
    ensures r.retryDelay.Some? <==> !r.delivered && CanRetry(d)
    ensures r.retryDelay.Some? ==> r.retryDelay.value == unit * (d.attemptCount + 1)
  {
    if d.status == Sent then LogOutcome(true, None)
    else if CanRetry(d) then LogOutcome(false, Some(unit * (d.attemptCount + 1)))
    else LogOutcome(false, None)
  }

  /** The loop over a batch: each listed row is sent and its outcome recorded. */
  function BatchRun<R>(rows: seq<R>, batch: seq<nat>, step: R -> R, outcome: R -> LogOutcome): (res: (seq<R>, seq<LogOutcome>))
    requires forall j :: 0 <= j < |batch| ==> batch[j] < |rows|
    ensures |res.0| == |rows| && |res.1| == |batch|
    decreases |batch|
  {
    if batch == [] then (rows, [])
    else
      var prev := BatchRun(rows, batch[..|batch| - 1], step, outcome);
      var u := step(prev.0[batch[|batch| - 1]]);
      (prev.0[batch[|batch| - 1] := u], prev.1 + [outcome(u)])
  }

  /** One more pass of the loop, from the rows and outcomes so far. */
  lemma BatchRunNext<R>(rows: seq<R>, batch: seq<nat>, j: nat, step: R -> R, outcome: R -> LogOutcome,
                        cur: seq<R>, outs: seq<LogOutcome>)
    requires forall k :: 0 <= k < |batch| ==> batch[k] < |rows|
    requires j < |batch| && (cur, outs) == BatchRun(rows, batch[..j], step, outcome)
    ensures batch[j] < |cur|
    ensures BatchRun(rows, batch[..j + 1], step, outcome) ==
      (cur[batch[j] := step(cur[batch[j]])], outs + [outcome(step(cur[batch[j]]))])
  {
    assert batch[..j + 1][..j] == batch[..j];
  }

  /** The loop's counters after one more outcome. */
  lemma TallySnoc(outcomes: seq<LogOutcome>, o: LogOutcome)
    ensures Tally(outcomes + [o]) == if o.delivered then (Tally(outcomes).0 + 1, Tally(outcomes).1) else (Tally(outcomes).0, Tally(outcomes).1 + 1)
  {
    assert (outcomes + [o])[..|outcomes|] == outcomes;
    assert (outcomes + [o])[|outcomes|] == o;
  }

  /** The retry countdowns after one more outcome. */
  lemma RetryDelaysSnoc(outcomes: seq<LogOutcome>, o: LogOutcome)
    ensures RetryDelays(outcomes + [o]) == RetryDelays(outcomes) + (if !o.delivered && o.retryDelay.Some? then [o.retryDelay.value] else [])
  {
    assert (outcomes + [o])[..|outcomes|] == outcomes;
  }

  /** Each row of a batch of distinct positions is sent once, from its old value; every other row is untouched. */
  lemma {:induction false} BatchRunAt<R>(rows: seq<R>, batch: seq<nat>, step: R -> R, outcome: R -> LogOutcome, p: nat)
    requires forall j :: 0 <= j < |batch| ==> batch[j] < |rows|
    requires forall i, j :: 0 <= i < j < |batch| ==> batch[i] != batch[j]
    requires p < |rows|
    ensures BatchRun(rows, batch, step, outcome).0[p] == if p in batch then step(rows[p]) else rows[p]
    ensures forall j :: 0 <= j < |batch| ==> BatchRun(rows, batch, step, outcome).1[j] == outcome(step(rows[batch[j]]))
    decreases |batch|
  {
    if batch != [] {
      var init := batch[..|batch| - 1];
      var last := batch[|batch| - 1];
      BatchRunAt(rows, init, step, outcome, p);
      BatchRunAt(rows, init, step, outcome, last);
      assert last !in init;
      assert forall q :: q in batch <==> q in init || q == last;
      forall j | 0 <= j < |init|
        ensures BatchRun(rows, init, step, outcome).1[j] == outcome(step(rows[init[j]]))
      {
        BatchRunAt(rows, init, step, outcome, init[j]);
      }
    }
  }

  /** The tally the intended loop keeps: one count per log. */
  function Tally(outcomes: seq<LogOutcome>): (r: (nat, nat))
    ensures r.0 + r.1 == |outcomes|
    decreases |outcomes|
  {
    if outcomes == [] then (0, 0)
    else
      var prev := Tally(outcomes[..|outcomes| - 1]);
      if outcomes[|outcomes| - 1].delivered then (prev.0 + 1, prev.1) else (prev.0, prev.1 + 1)
  }

  /** The tally both jobs keep as written: a failure that asks for a retry is counted as failed twice. */
  function TallyAsWritten(outcomes: seq<LogOutcome>): (r: (nat, nat))
    decreases |outcomes|
  {
    if outcomes == [] then (0, 0)
    else
      var prev := TallyAsWritten(outcomes[..|outcomes| - 1]);
      var last := outcomes[|outcomes| - 1];
      if last.delivered then (prev.0 + 1, prev.1)
      else if last.retryDelay.Some? then (prev.0, prev.1 + 2)
      else (prev.0, prev.1 + 1)
  }

  /** The countdowns of the retries the batch asked for, in order. */
  function RetryDelays(outcomes: seq<LogOutcome>): (r: seq<int>)
    ensures |r| <= |outcomes|
    decreases |outcomes|
  {
    if outcomes == [] then []
    else
      var last := outcomes[|outcomes| - 1];
      RetryDelays(outcomes[..|outcomes| - 1]) + (if !last.delivered && last.retryDelay.Some? then [last.retryDelay.value] else [])
  }

  /** The tally as written over-reports the failures by exactly the number of retries asked for. */
  lemma {:induction false} TallyAsWrittenOvercounts(outcomes: seq<LogOutcome>)
    ensures TallyAsWritten(outcomes).0 == Tally(outcomes).0
    ensures TallyAsWritten(outcomes).1 == Tally(outcomes).1 + |RetryDelays(outcomes)|
    decreases |outcomes|
  {
    if outcomes != [] {
      TallyAsWrittenOvercounts(outcomes[..|outcomes| - 1]);
    }
  }

  /**
   * One queued SMS that the provider refuses: reported as two failures out of
   * one log. The retry comes after 120 seconds, or after 180 when the refusal
   * carries a null message and so spends two attempts.
   */
  lemma SmsTallyDoubleCounts(r: SmsRecord, errorMessage: Value, errorCode: string, now: int)
    requires r.delivery == NewDelivery()
    ensures var o := OutcomeOf(SmsDelivery(r, NotDelivered(errorMessage, errorCode), now).delivery, 60);
      TallyAsWritten([o]) == (0, 2) && Tally([o]) == (0, 1) && RetryDelays([o]) == [if errorMessage.JNull? then 180 else 120]
  {
    var o := OutcomeOf(SmsDelivery(r, NotDelivered(errorMessage, errorCode), now).delivery, 60);
    assert [o][..0] == [];
  }

  /** One queued email whose send_mail raises: reported as two failures out of one log. */
  lemma EmailTallyDoubleCounts(r: EmailRecord, message: string, now: int)
    requires r.delivery == NewDelivery()
    ensures var o := OutcomeOf(EmailDelivery(r, MailRaised(message), now).0.delivery, 120);
      TallyAsWritten([o]) == (0, 2) && Tally([o]) == (0, 1) && RetryDelays([o]) == [240]
  {
    var o := OutcomeOf(EmailDelivery(r, MailRaised(message), now).0.delivery, 120);
    assert [o][..0] == [];
  }

  /**
   * The loop both senders share: each position of the batch in turn is sent
   * and saved, delivered or failed is counted, and the countdown of each retry
   * asked for is kept.
   */
  method RunBatch<R>(rows: seq<R>, batch: seq<nat>, step: R -> R, outcome: R -> LogOutcome)
    returns (after: seq<R>, sent: nat, failed: nat, retries: seq<int>)
    requires forall j :: 0 <= j < |batch| ==> batch[j] < |rows|
    ensures var run := BatchRun(rows, batch, step, outcome);
      after == run.0 && (sent, failed) == Tally(run.1) && retries == RetryDelays(run.1)
  {
    after := rows;
    ghost var outcomes: seq<LogOutcome> := [];
    sent, failed, retries := 0, 0, [];
    var j := 0;
    while j < |batch|
      invariant 0 <= j <= |batch|
      invariant (after, outcomes) == BatchRun(rows, batch[..j], step, outcome)
      invariant sent == Tally(outcomes).0 && failed == Tally(outcomes).1 && retries == RetryDelays(outcomes)
    {
      BatchRunNext(rows, batch, j, step, outcome, after, outcomes);
      var p := batch[j];
      var updated := step(after[p]);
      after := after[p := updated];
      var o := outcome(updated);
      TallySnoc(outcomes, o);
      RetryDelaysSnoc(outcomes, o);
      outcomes := outcomes + [o];
      if o.delivered {
        sent := sent + 1;
      } else {
        failed := failed + 1;
        if o.retryDelay.Some? {
          retries := retries + [o.retryDelay.value];
        }
      }
      j := j + 1;
    }
    assert batch[..|batch|] == batch;
  }

  function SmsStep(send: SmsRecord -> GatewayResult, now: int): SmsRecord -> SmsRecord
  {
    r => SmsDelivery(r, send(r), now)
  }

  function SmsOutcome(): SmsRecord -> LogOutcome
  {
    (r: SmsRecord) => OutcomeOf(r.delivery, 60)
  }

  /** send_pending_sms on the SMS table; `send` is the gateway's answer for each log. */
  method SendPendingSms(box: Outbox, send: SmsRecord -> GatewayResult, now: int) returns (sent: nat, failed: nat, retries: seq<int>)
    modifies box`sms
    ensures var run := BatchRun(old(box.sms), PendingBatch(SmsStatuses(old(box.sms))), SmsStep(send, now), SmsOutcome());
      box.sms == run.0 && (sent, failed) == Tally(run.1) && retries == RetryDelays(run.1)
  {
    var batch := PendingBatch(SmsStatuses(box.sms));
    var rows;
    rows, sent, failed, retries := RunBatch(box.sms, batch, SmsStep(send, now), SmsOutcome());
    box.sms := rows;
  }

  function EmailStep(send: EmailRecord -> MailOutcome, now: int): EmailRecord -> EmailRecord
  {
    r => EmailDelivery(r, send(r), now).0
  }

  function EmailOutcome(): EmailRecord -> LogOutcome
  {
    (r: EmailRecord) => OutcomeOf(r.delivery, 120)
  }

  /** send_pending_emails on the email table; `send` is send_mail's outcome for each log. */
  method SendPendingEmails(box: Outbox, send: EmailRecord -> MailOutcome, now: int) returns (sent: nat, failed: nat, retries: seq<int>)
    modifies box`email
    ensures var run := BatchRun(old(box.email), PendingBatch(EmailStatuses(old(box.email))), EmailStep(send, now), EmailOutcome());
      box.email == run.0 && (sent, failed) == Tally(run.1) && retries == RetryDelays(run.1)
  {
    var batch := PendingBatch(EmailStatuses(box.email));
    var rows;
    rows, sent, failed, retries := RunBatch(box.email, batch, EmailStep(send, now), EmailOutcome());
    box.email := rows;
  }

  /**
   * The SMS batch: every queued log of the batch is sent once and counted once,
   * other logs are untouched, and a retry is asked for with a countdown of 60
   * seconds per attempt made.
   */
  lemma SmsBatchFacts(logs: seq<SmsRecord>, send: SmsRecord -> GatewayResult, now: int, p: nat)
    requires p < |logs|
    ensures var batch := PendingBatch(SmsStatuses(logs));
      var run := BatchRun(logs, batch, SmsStep(send, now), SmsOutcome());
      Tally(run.1).0 + Tally(run.1).1 == |batch| &&
      run.0[p] == (if p in batch then SmsDelivery(logs[p], send(logs[p]), now) else logs[p]) &&
      (p in batch ==> logs[p].delivery.status == Queued)
  {
    var batch := PendingBatch(SmsStatuses(logs));
    BatchRunAt(logs, batch, SmsStep(send, now), SmsOutcome(), p);
  }

  /** The same for emails, with 120 seconds per attempt. */
  lemma EmailBatchFacts(logs: seq<EmailRecord>, send: EmailRecord -> MailOutcome, now: int, p: nat)
    requires p < |logs|
    ensures var batch := PendingBatch(EmailStatuses(logs));
      var run := BatchRun(logs, batch, EmailStep(send, now), EmailOutcome());
      Tally(run.1).0 + Tally(run.1).1 == |batch| &&
      run.0[p] == (if p in batch then EmailDelivery(logs[p], send(logs[p]), now).0 else logs[p]) &&
      (p in batch ==> logs[p].delivery.status == Queued)
  {
    var batch := PendingBatch(EmailStatuses(logs));
    BatchRunAt(logs, batch, EmailStep(send, now), EmailOutcome(), p);
  }

  /** The table holds the logs in the order they were created. */
  predicate SmsCreationOrdered(logs: seq<SmsRecord>)
  {
    forall i, j :: 0 <= i < j < |logs| ==> logs[i].createdAt <= logs[j].createdAt
  }

  /** `order_by('created_at')[:100]`: a queued SMS left out of a full batch was created no earlier than any log in it. */
  lemma SmsBatchOldestFirst(logs: seq<SmsRecord>, p: nat)
    requires SmsCreationOrdered(logs)
    requires p < |logs| && logs[p].delivery.status == Queued && p !in PendingBatch(SmsStatuses(logs))
    ensures |PendingBatch(SmsStatuses(logs))| == 100
    ensures forall j :: 0 <= j < 100 ==> logs[PendingBatch(SmsStatuses(logs))[j]].createdAt <= logs[p].createdAt
  {
    PendingBatchOldestFirst(SmsStatuses(logs), p);
  }

  // ---------------------------------------------------------------------------
  // cleanup_old_notifications

  /** The rows created at or after the cutoff: what `created_at__lt=cutoff` deletion keeps. */
  function KeptSince<R>(rows: seq<R>, createdAt: R -> int, cutoff: int): (r: seq<R>)
    ensures |r| <= |rows|
    ensures forall x :: x in r ==> x in rows && createdAt(x) >= cutoff
    ensures forall i :: 0 <= i < |rows| && createdAt(rows[i]) >= cutoff ==> rows[i] in r
    decreases |rows|
  {
    if rows == [] then []
    else
      var rest := KeptSince(rows[..|rows| - 1], createdAt, cutoff);
      var last := rows[|rows| - 1];
      assert forall x :: x in rows[..|rows| - 1] ==> x in rows;
      if createdAt(last) >= cutoff then rest + [last] else rest
  }

  /** The cleanup's result: the kept tables and the two deletion counts. */
  datatype Cleanup = Cleanup(sms: seq<SmsRecord>, email: seq<EmailRecord>, smsDeleted: nat, emailDeleted: nat)

  /** cleanup_old_notifications: logs older than 90 days go; the counts are the rows removed. */
  function CleanupOld(sms: seq<SmsRecord>, email: seq<EmailRecord>, now: int): (r: Cleanup)
    ensures r.smsDeleted == |sms| - |r.sms| && r.emailDeleted == |email| - |r.email|
    ensures forall x :: x in r.sms ==> x in sms && x.createdAt >= now - 90 * Day
    ensures forall x :: x in r.email ==> x in email && x.createdAt >= now - 90 * Day
    ensures forall i :: 0 <= i < |sms| && sms[i].createdAt >= now - 90 * Day ==> sms[i] in r.sms
    ensures forall i :: 0 <= i < |email| && email[i].createdAt >= now - 90 * Day ==> email[i] in r.email
  {
    var cutoff := now - 90 * Day;
    var keptSms := KeptSince(sms, (x: SmsRecord) => x.createdAt, cutoff);
    var keptEmail := KeptSince(email, (x: EmailRecord) => x.createdAt, cutoff);
    Cleanup(keptSms, keptEmail, |sms| - |keptSms|, |email| - |keptEmail|)
  }

  /** A log exactly 90 days old survives; one a second older does not. */
  lemma CleanupBoundary(r: SmsRecord, now: int)
    ensures r.createdAt == now - 90 * Day ==> CleanupOld([r], [], now).smsDeleted == 0
    ensures r.createdAt == now - 90 * Day - 1 ==> CleanupOld([r], [], now).smsDeleted == 1
  {
    if r.createdAt == now - 90 * Day - 1 {
      assert r !in CleanupOld([r], [], now).sms;
    }
  }

  // ---------------------------------------------------------------------------
  // Reminders and arrears

  /** The invoices the reminder job selects: due in exactly 7 days, issued or partial, with money owed. */
  predicate DueForReminder(inv: Invoice, today: int)
  {
    inv.dueDate == Some(today + 7) && (inv.status == Issued || inv.status == Partial) && inv.balance > 0
  }

  function ReminderInvoices(invoices: seq<Invoice>, today: int): (r: seq<Invoice>)
    ensures forall x :: x in r ==> x in invoices && DueForReminder(x, today)
    ensures forall i :: 0 <= i < |invoices| && DueForReminder(invoices[i], today) ==> invoices[i] in r
    decreases |invoices|
  {
    if invoices == [] then []
    else
      var rest := ReminderInvoices(invoices[..|invoices| - 1], today);
      var last := invoices[|invoices| - 1];
      assert forall x :: x in invoices[..|invoices| - 1] ==> x in invoices;
      if DueForReminder(last, today) then rest + [last] else rest
  }

  /** The AttributeError each reminder attempt ends in, as logged. */
  function ReminderError(inv: Invoice): string
  {
    "Error sending reminder for invoice " + NatToString(inv.id) + ": type object 'NotificationService' has no attribute 'should_notify'"
  }

  /** send_payment_reminder_notifications: every selected invoice is tried, none is counted as sent. */
  method SendPaymentReminders(invoices: seq<Invoice>, today: int) returns (sent: nat, logged: seq<string>)
    ensures sent == 0
    ensures |logged| == |ReminderInvoices(invoices, today)|
    ensures forall j :: 0 <= j < |logged| ==> logged[j] == ReminderError(ReminderInvoices(invoices, today)[j])
  {
    var due := ReminderInvoices(invoices, today);
    sent, logged := 0, [];
    var j := 0;
    while j < |due|
      invariant 0 <= j <= |due| && sent == 0 && |logged| == j
      invariant forall k :: 0 <= k < j ==> logged[k] == ReminderError(due[k])
    {
      // should_notify is not an attribute of the NotificationService in scope; the except branch logs it
      logged := logged + [ReminderError(due[j])];
      j := j + 1;
    }
  }

  predicate CriticalArrears(a: Arrears) { !a.isResolved && a.daysOutstanding >= 60 }

  predicate WarningArrears(a: Arrears) { !a.isResolved && 30 <= a.daysOutstanding < 60 }

  function CountWhere(rows: seq<Arrears>, critical: bool): (n: nat)
    ensures n <= |rows|
    decreases |rows|
  {
    if rows == [] then 0
    else
      var last := rows[|rows| - 1];
      CountWhere(rows[..|rows| - 1], critical) +
        (if (critical && CriticalArrears(last)) || (!critical && WarningArrears(last)) then 1 else 0)
  }

  /** The counts send_arrears_notifications returns: {'critical': …, 'warning': …}. */
  function ArrearsJobCounts(rows: seq<Arrears>): (r: (nat, nat))
    ensures r.0 + r.1 <= |rows|
  {
    CriticalWarningDisjoint(rows);
    (CountWhere(rows, true), CountWhere(rows, false))
  }

  /** No row is selected by both queries, so the two counts never exceed the rows. */
  lemma {:induction false} CriticalWarningDisjoint(rows: seq<Arrears>)
    ensures CountWhere(rows, true) + CountWhere(rows, false) <= |rows|
    decreases |rows|
  {
    if rows != [] {
      CriticalWarningDisjoint(rows[..|rows| - 1]);
    }
  }

  /** The job's two selections agree with the receiver's classification of unresolved rows. */
  lemma ArrearsJobMatchesReceiver(a: Arrears)
    ensures CriticalArrears(a) <==> !a.isResolved && ArrearsEvent(a.daysOutstanding) == Some("arrears_critical")
    ensures WarningArrears(a) <==> !a.isResolved && ArrearsEvent(a.daysOutstanding) == Some("arrears_warning")
    ensures !(CriticalArrears(a) && WarningArrears(a))
  {
  }
}
