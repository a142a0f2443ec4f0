# A verified model of a school-management system's fee engine and its satellites

This project models, in Dafny, the business rules of a multi-tenant school-management
web application: fee invoicing and M-Pesa payment reconciliation, arrears tracking,
notifications, attendance, tenant isolation, and the browser's offline client.

The centre is the fee engine of `core/fees/services.py`:
- invoice generation from fee structures and per-student overrides;
- payment recording;
- arrears recomputation;
- matching of M-Pesa payments to invoices.

Its tables (invoices, payments, arrears rows, M-Pesa transactions) are fields of a
`FeeLedger` class. Each engine operation is a method on it, proved to leave the state
that a pure step function gives, and the lemmas are stated about those functions.

Around the engine, one module per source file models:
- the fee endpoints and serializers, signals, STK push and callback handling;
- the notification models, services, tasks and SMS gateway;
- the attendance engine and records, the conflict rule, and the tenant permissions;
- the login ladder and the username migration;
- the browser's IndexedDB store, sync queue, marking screen, router and form validator.

Conventions:
- Money is integer cents. Calendar dates are day numbers, times of day are microseconds
  since midnight, and instants are abstract integers. The clock is always a parameter.
- Row identifiers are the positions of the rows in their tables. "Newest" means last created.
- Answers from code outside the model arrive as parameters: password checks, provider
  HTTP responses, server replies to the sync queue, generated ids.
- Python's decoded JSON and JavaScript's values are modelled explicitly: truthiness,
  `||`, strict equality, `parseInt`, the UTF-16 `length` of a string, `dict.get`, `int()`,
  `str()` and `repr()`. See `json.dfy` and
  `js_value.dfy`.

Where a documented behaviour and the code differ, the model follows the code:
- Generated invoices get no due date.
- The M-Pesa callback applies a payment without the balance check that `record_payment`
  makes, so an invoice can be overpaid (`FeeServices.CallbackCanOverpay`).
- A class filter makes `generate_invoices_for_term` fail at once: it names `models`,
  which `services.py` never imports.
- `NotificationService` is redefined later in `core/notifications/services.py`. So the
  signal receivers and the reminder and arrears tasks fail inside their logged `except`,
  and `dispatch_notification` without a channel list raises AttributeError before it
  writes anything.
- A fee structure assigned to a class always fails: the student filter names a
  `student_class` field that the Student of `core/users/models.py:56-78` does not declare.
  The student dashboard's fees page reads the same missing field, so it always answers
  500 (`StudentViews.AsWrittenFeesFail`).
- The webhook hands MerchantRequestID and TransRef on without `str()`. A JSON null
  there reaches the transaction insert as NULL, which fails, so the receipt is answered
  'Received' and nothing is recorded (`FeeViews.NullTransRefUnrecorded`).
- The `Invoice` model is not part of this model. `FeeServices.Saved` takes its `save()`
  to recompute the balance and to mark a zero-balance invoice paid.

## Step functions and the lemmas about them

A function that only computes a source function's result carries no contract of its own.
Its row in the table below is the lemma or method that states what the result means:
- `FeeServices.Generate` (`core/fees/services.py:21-113`): `GenerateFacts`, `GenerateIdempotent`, `GenerateKeepsWellFormed`, `GenerateWithClassFilterFails`, `ClassStructuresFail`.
- `FeeServices.ArrearsStep` (`core/fees/services.py:196-264`): `ArrearsStepSound`.
- `FeeServices.FindMatchingInvoice` (`core/fees/services.py:297-346`): `FindMatchingInvoiceSpec`.
- `FeeServices.ProcessCallback` (`core/fees/services.py:349-434`): `CallbackMatched`, `CallbackIdempotent`, `CallbackNullReferenceRefused`, `CallbackCanOverpay`, `CallbackWindowMatch`, `CallbackKeepsWellFormed`.
- `NotifServices.Dispatch` (`core/notifications/services.py:91-102`): `DispatchOnlyRequested`.
- `SyncJs.SyncItem` (`frontend/scripts/sync.js:121-153`): `UnknownActionFails`, `KnownActionOutcome`.
- `SyncJs.HandleConflict` (`frontend/scripts/sync.js:207-219`): `HandleConflictWinner`.
- `Router.FilePath` and `Router.Navigate` (`frontend/scripts/router.js:24-28`): `NavigateLoadsAView`, `UnknownRouteFallsBack`.
- `StudentViews.Grade` (`core/dashboard/student_views.py:309-320`): `GradeBands`, `GradeMonotone`.
- `AppJs.MatchEmail` (`static/js/app.js:181-182`): `MatchEmailIff`, `MatchEmailSound`, `MatchEmailComplete`.
- `AppJs.ValidateInput` (`static/js/app.js:170-205`): `ValidIffAcceptable`, `RequiredFailsFirst`, `BadEmailFails`, `ShortPasswordFails`, `AstralPasswordPasses`, `MinLengthNumeric`, `MinLengthNaN`.
- The permission predicates of `TenantPermissions` (`backend/core/tenant_permissions.py:15-139`): `UnauthenticatedDenied`, `SuperuserPasses`, `OrdinaryUserClasses`, `TeacherIsMember`.
- `UsernameMigration.Fix` (`core/users/migrations/0003_fix_empty_usernames.py:16-26`): `FixAll`, `RepairedUsername`.
- The as-written halves of "## Findings": `NotifTasks.TallyAsWritten` (`SmsTallyDoubleCounts`, `EmailTallyDoubleCounts`, `TallyAsWrittenOvercounts`), `DbJs.UnsyncedAsWritten` (`UnsyncedAsWrittenFails`), `AttendanceJs.FindSessionAsWritten` (`SavedSessionNeverFound`), `Router.FilePathAsWritten` (`InheritedRouteIsNoView`, `AsWrittenAgrees`).

## Model

| member | source | states |
|---|---|---|
| FeeServices.Saved | core/fees/services.py:157-166 | the saved invoice's balance is its total minus what is paid and it reads paid at a zero balance; total, paid amount, student, term, due date and creator are kept |
| FeeServices.ApplyPayment | core/fees/services.py:157-166 | the amount is added to amount_paid and the balance recomputed; at zero the invoice is paid; for a valid payment on a balanced invoice the new balance is in [0, old balance), paid at zero and partial above |
| FeeServices.StructuresFor | core/fees/services.py:42-44 | exactly the fee structures of the term, and of the school when one is given |
| FeeServices.EligibleStudents | core/fees/services.py:54-58 | exactly the active students of the structure's school |
| FeeServices.Fault | core/fees/services.py:60-62 | a class-assigned structure raises the FieldError of the undeclared `student_class` whatever `faults` says; any other structure raises exactly when `faults` names it, with that message |
| FeeServices.OverrideFor | core/fees/services.py:77-81 | the override found is one for this student, term and structure, and none is found only when no override applies |
| FeeServices.GenStudentsFacts | core/fees/services.py:64-98 | the student loop only appends fresh issued invoices of the term with nothing paid, each for a listed student and for the structure's amount, the override's amount, or 0 when the override waives the fee; it counts each one as created, counts every listed student once as created or skipped, keeps one invoice per student and term, and leaves every listed student with an invoice for the term |
| FeeServices.GenStudentsCounts | core/fees/services.py:66-73 | over distinct students, skipped grows by exactly the number of them that already had an invoice for the term, and created by the rest |
| FeeServices.GenStructureFacts | core/fees/services.py:51-105 | one structure appends only fresh invoices, each to one of its eligible students for the structure's amount, the override's amount or 0 when waived, and none when it fails; it counts them, counts each eligible student once as created or skipped (none when it fails), adds its error exactly when its database work fails, and otherwise leaves every eligible student invoiced |
| FeeServices.EligibleAscending | core/fees/services.py:53-62 | the eligible students come in ascending id order, so none is listed twice |
| FeeServices.GenStructureCounts | core/fees/services.py:51-98 | a structure that does not fail skips exactly its eligible students already invoiced for the term when it starts and creates one invoice for each of the others; a failing one counts nothing |
| FeeServices.GenStructuresShape | core/fees/services.py:51-105 | over all structures the table only grows by fresh invoices, each issued by a structure that did not fail to one of its eligible students for the amount the structure and the student's override give; created counts them, created plus skipped is the eligible students summed over the structures that did not fail, and one invoice per student and term is kept |
| FeeServices.GenStructuresErrors | core/fees/services.py:100-105 | the errors are exactly the failing structures' errors, in order |
| FeeServices.GenStructureErrors | core/fees/services.py:100-105 | one structure adds exactly its own error when it fails and nothing otherwise |
| FeeServices.GenStudentsErrors | core/fees/services.py:64-98 | the student loop records no error |
| FeeServices.GenStructuresCovers | core/fees/services.py:51-98 | afterwards every eligible student of every structure that did not fail has an invoice for the term |
| FeeServices.GenStudentsNoop | core/fees/services.py:66-73 | when every listed student already has an invoice for the term, nothing is created and the table is unchanged |
| FeeServices.GenStructuresNoop | core/fees/services.py:66-73 | when every eligible student is already invoiced, nothing is created and the table is unchanged |
| FeeServices.GenerateFacts | core/fees/services.py:21-113 | without a class filter: only fresh invoices are appended, each by a structure of the term and school that did not fail, to one of its eligible students, for the structure's amount, the override's amount, or 0 when waived; created counts them, created plus skipped is the eligible students summed over the structures that did not fail, the errors are the failing structures', uniqueness per student and term is kept, and every eligible student is covered |
| FeeServices.GenerateIdempotent | core/fees/services.py:66-73 | running generation a second time for the same term creates nothing, leaves the table as the first run left it, and skips every eligible student of every structure that did not fail |
| FeeServices.ClassStructuresFail | core/fees/services.py:54-105 | every class-assigned structure of the run records the `student_class` FieldError, and every invoice the run appends was issued by a structure without a class |
| FeeServices.GenerateWithClassFilterFails | core/fees/services.py:45-48 | with a class filter the run writes nothing and reports one general error naming the undefined `models` |
| FeeServices.GenerateKeepsWellFormed | core/fees/services.py:21-113 | generation keeps the books well formed: every invoice's amount_paid is the sum of its payments, and ids and links stay valid |
| FeeServices.ArrearsRow | core/fees/services.py:170-173 | the row found is the one for this student and school, and none is found only when no row has that key |
| FeeServices.RecordPaymentStep | core/fees/services.py:120-189 | the payment is refused exactly when the amount is not positive or exceeds the balance, and then nothing changes; otherwise one completed payment is appended, its id is returned, the invoice gets the payment, transactions are untouched, no arrears row is added, the student's row for their school is resolved at now exactly when it exists and the new balance is 0, and every other row is unchanged |
| FeeServices.ResolveOnPayment | core/fees/services.py:169-179 | the rows keep their number; the first row of (student, school) becomes resolved at now when the balance is 0, and every other row is unchanged |
| FeeServices.PaymentKeepsAccounting | core/fees/services.py:147-158 | appending a payment while adding its amount to the invoice keeps amount_paid equal to the sum of the invoice's payments |
| FeeServices.ResolveOnPaymentKeepsKeys | core/fees/services.py:169-179 | the arrears update after a payment keeps the rows, their keys and their uniqueness |
| FeeServices.RecordPaymentKeepsWellFormed | core/fees/services.py:120-189 | record_payment keeps the books well formed, and never leaves an invoice overpaid if none was |
| FeeServices.PaidInvoiceRefusesPayment | core/fees/services.py:137-166 | paying an invoice's whole balance marks it paid, and every further payment to it is refused |
| FeeServices.OverdueSum | core/fees/services.py:210-218 | the sum of the overdue balances is never negative, positive when something is overdue and zero otherwise |
| FeeServices.EarliestDue | core/fees/services.py:219-220 | a due date exists exactly when something is overdue; it is in the past, is the due date of an overdue invoice, and no overdue invoice is due earlier |
| FeeServices.MarkOverdue | core/fees/services.py:243-244 | exactly the overdue invoices become overdue and every other invoice is unchanged |
| FeeServices.MarkOverdueKeepsOverdue | core/fees/services.py:210-215 | marking invoices overdue does not change which invoices are overdue |
| FeeServices.ArrearsStepRow | core/fees/services.py:222-240 | the student's arrears row is where it was, or a new last row when there was none and something is overdue |
| FeeServices.ArrearsStepSound | core/fees/services.py:196-264 | the row exists exactly when it did or something is overdue; when something is overdue it holds the positive overdue sum, at least one day outstanding and is unresolved; otherwise any row is resolved; open overdue invoices read overdue; created is 1 exactly when there was no row and something is overdue, updated is 1 exactly when the row existed and something is overdue or it was open, never both, the table grows by created rows, and (0, 0) leaves the books unchanged |
| FeeServices.ArrearsStepOverdueRow | core/fees/services.py:217-244 | with something overdue the invoices become MarkOverdue's and the row holds the overdue sum, the oldest due date's age and is unresolved |
| FeeServices.MarkOverdueStable | core/fees/services.py:243-244 | marking overdue twice is marking once, and it changes neither what is overdue nor its sum nor its oldest due date |
| FeeServices.ArrearsStepIdempotentOverdue | core/fees/services.py:217-244 | with something overdue, a second recomputation on the same day changes nothing |
| FeeServices.OverdueRowSettled | core/fees/services.py:222-244 | a row already holding the current sum and age, with invoices already marked, is left as it is |
| FeeServices.ArrearsStepOnRow | core/fees/services.py:222-231 | with something overdue and an existing row, only that row's total, days and resolved flag and the invoices' statuses change |
| FeeServices.ArrearsStepIdempotentClear | core/fees/services.py:246-259 | with nothing overdue, a second recomputation changes nothing |
| FeeServices.ArrearsStepIdempotent | core/fees/services.py:196-264 | update_arrears_for_student run twice with the same clock leaves the books as one run does |
| FeeServices.ArrearsStepKeepsWellFormed | core/fees/services.py:196-264 | recomputing a student's arrears keeps the books well formed and one row per student and school |
| FeeServices.StudentsWithInvoices | core/fees/services.py:278-280 | exactly the students that have at least one invoice |
| FeeServices.ArrearsAllKeepsWellFormed | core/fees/services.py:282-285 | recomputing the arrears of a sequence of students keeps the books well formed |
| FeeServices.NormalisePhone | core/fees/services.py:309-314 | the normalised number is never empty and starts with 0 |
| FeeServices.NormalisePhoneIdempotent | core/fees/services.py:309-314 | normalising a normalised number changes nothing |
| FeeServices.NormalisePlusCountryCode | core/fees/services.py:309-314 | +254712345678 becomes 0712345678 |
| FeeServices.NormaliseCountryCode | core/fees/services.py:310-311 | 254712345678 becomes 0712345678 |
| FeeServices.NormaliseLocal | core/fees/services.py:313-314 | 0712345678 is left as it is |
| FeeServices.NormaliseBare | core/fees/services.py:313-314 | 712345678 becomes 0712345678 |
| FeeServices.AccountByPhone | core/fees/services.py:319 | the first user whose phone contains the number, ignoring case, and none only when no user's phone contains it |
| FeeServices.StudentOfUser | core/fees/services.py:321-322 | the student linked to the user, and none only when no student is |
| FeeServices.FirstExact | core/fees/services.py:324-328 | the first open invoice of the student whose balance equals the amount, and none only when there is no such invoice |
| FeeServices.NewestInWindow | core/fees/services.py:334-339 | the last-created open invoice of the student whose balance is within 100 of the amount, and none only when there is no such invoice |
| FeeServices.FindMatchingInvoiceSpec | core/fees/services.py:297-346 | a match is an open invoice of the phone's student within the window; when an exact balance exists the match has it; no match with a known payer means no invoice is in the window |
| FeeServices.CallbackIdempotent | core/fees/services.py:365-372 | after a callback with reference text, a second callback with the same transaction id changes nothing and reports an error; a callback whose reference text is null reports the NOT NULL error and records nothing, so it leaves the id free |
| FeeServices.ReceiveIdempotent | core/fees/services.py:365-372 | a callback keeps the number of invoices, and with reference text it leaves the transaction id recorded |
| FeeServices.CallbackNullReferenceRefused | core/fees/services.py:365-372 | a receipt whose reference text is null fails the NOT NULL insert: the service reports that error and writes no transaction, payment or invoice change |
| FeeServices.CallbackKeepsWellFormed | core/fees/services.py:349-434 | the callback keeps the books well formed: payments accounted, transaction ids unique, links valid |
| FeeServices.SettleKeepsWellFormed | core/fees/services.py:377-413 | settling a new receipt, matched or not, keeps the books well formed |
| FeeServices.ExamplePayer | core/fees/services.py:309-322 | every number that normalises to the example student's phone resolves to that student |
| FeeServices.ExamplePayerInternational | core/fees/services.py:309-322 | 254712345678 resolves to the example student |
| FeeServices.ExamplePayerLocal | core/fees/services.py:309-322 | 0712345678 resolves to the example student |
| FeeServices.ExampleAccount | core/fees/services.py:319 | the example user is found by its local number |
| FeeServices.CallbackMatched | core/fees/services.py:375-413 | a new receipt whose payer matches invoice k is settled against invoice k |
| FeeServices.CallbackCanOverpay | core/fees/services.py:334-408 | a 5,050 shilling payment on a 5,000 shilling invoice is processed, leaves the balance at -50 shillings and marks it partial |
| FeeServices.ExampleOverpayMatch | core/fees/services.py:324-341 | with no exact match, the 5,050 shilling payment finds the 5,000 shilling invoice in the window |
| FeeServices.CallbackWindowMatch | core/fees/services.py:334-408 | a 4,950 shilling payment on a 5,000 shilling invoice is processed and leaves 50 shillings, partial |
| FeeServices.ExampleWindowMatch | core/fees/services.py:324-341 | with no exact match, the 4,950 shilling payment finds the invoice in the window |
| FeeServices.FeeLedger.constructor | core/fees/services.py:17-19 | the ledger starts valid with the given directory and empty books |
| FeeServices.FeeLedger.GenerateInvoicesForTerm | core/fees/services.py:21-113 | the invoice table and the returned counts and errors are those of Generate on the old table, and the ledger stays valid |
| FeeServices.FeeLedger.InvoiceStudents | core/fees/services.py:64-98 | the loop over one structure's students leaves the table and counts of GenStudents |
| FeeServices.FeeLedger.RecordPayment | core/fees/services.py:120-189 | the new books and the result are RecordPaymentStep's on the old books, and the ledger stays valid |
| FeeServices.FeeLedger.UpdateArrearsForStudent | core/fees/services.py:196-264 | the new books and counts are ArrearsStep's on the old books, and the ledger stays valid |
| FeeServices.FeeLedger.ApplyArrears | core/fees/services.py:222-259 | the row update or creation leaves the books and counts of ArrearsOn |
| FeeServices.FeeLedger.SumOverdue | core/fees/services.py:218 | the loop's total is OverdueSum of the invoices |
| FeeServices.FeeLedger.MarkInvoicesOverdue | core/fees/services.py:243-244 | the invoices become MarkOverdue of the old invoices |
| FeeServices.FeeLedger.UpdateAllArrears | core/fees/services.py:267-290 | the new books and totals are those of recomputing every student with invoices in turn, and the ledger stays valid |
| FeeServices.FeeLedger.VisitStudent | core/fees/services.py:282-285 | one turn of the loop: what is left to do from the new state equals what was left from the old |
| FeeServices.FeeLedger.ProcessMpesaCallback | core/fees/services.py:349-434 | the new books and the reported result are ProcessCallback's on the old books, and the ledger stays valid |
| FeeServices.FeeLedger.ReceiveCallback | core/fees/services.py:363-388 | a missing transaction id or reference text, or a repeated transaction id, changes nothing; otherwise the receipt is settled; the books and result are ReceiveStep's |
| FeeServices.FeeLedger.SettleCallback | core/fees/services.py:377-426 | the books and result are SettleStep's: an unmatched row, or the payment, the invoice update and the processed row |
| FeeViews.ItemMap | core/fees/views_api.py:427 | the Name→Value comprehension succeeds on any list of well-formed items |
| FeeViews.ItemMapLastWins | core/fees/views_api.py:427 | in the comprehension's dict a name maps to the Value of its last item, and a name no item carries keeps what it had |
| FeeViews.DecimalCentsIsDecimalOfStr | core/fees/views_api.py:430 | the amount in cents is Decimal read from str() of the value: an int n is n·100 cents, a string is read by the Decimal grammar, and None, True, False, lists and dicts are a syntax error |
| FeeViews.ReadRequest | core/fees/views_api.py:422-449 | on a dict the key tests of ReadPayload; on a list, 500 with the list-index TypeError exactly when it holds the text "Body" or "Result"; on a string, the str-index TypeError exactly when it contains either, and otherwise an unknown format; on null, a boolean or a number, the "is not iterable" TypeError |
| FeeViews.NonObjectBodies | core/fees/views_api.py:415-472 | a body that is not a JSON object changes nothing: lists and strings are answered 500 or 'Invalid webhook format' by what they hold, null, booleans and numbers 500 |
| FeeViews.HandleWebhook | core/fees/views_api.py:408-472 | on any JSON body: 200 'Received' exactly for a readable payment, whose callback is run whatever it reports, with the body as raw data; 'Payment failed' and 'Invalid webhook format' are answered 400 and an exception's text 500, all with ResultCode 1 and no change to the books |
| FeeViews.StkPayloadFields | core/fees/views_api.py:422-432 | a successful STK callback whose Amount Decimal reads as `cents` hands on the receipt number, those cents (0 when absent), str() of the phone ('' when absent; a list or dict as its repr()) and the merchant request id as the CharField stores it ('' when absent, None for a JSON null, any other value as its str()), each from the last item of that name |
| FeeViews.LookupIsItemOr | core/fees/views_api.py:427-432 | details.get on the comprehension's dict is the last item of that name, or the default |
| FeeViews.StkFailureAnswered | core/fees/views_api.py:425-437 | any ResultCode other than 0 is answered 'Payment failed' with ResultCode 1, and the books are unchanged |
| FeeViews.BodyShadowsResult | core/fees/views_api.py:422-439 | with a Body key the Result key is never looked at |
| FeeViews.ResultPayloadFields | core/fees/views_api.py:439-444 | a C2B Result payload whose TransAmount, an int or a decimal string, Decimal reads as `cents` hands on TransactionID, those cents (0 when absent), str() of MSISDN (a list or dict as its repr()) and TransRef as the CharField stores it ('' when absent, None for a JSON null, any other value as its str()) |
| FeeViews.ResultAmountRefused | core/fees/views_api.py:439-472 | a TransAmount Decimal cannot read, or one finer than a cent, is answered 500 with ResultCode 1 and the error's text, and the books are unchanged |
| FeeViews.ResultDecimalAmountReceived | core/fees/views_api.py:439-465 | a TransAmount written with two decimal places, as "100.50", is handed to the callback as exactly its cents and answered 200 'Received' |
| FeeViews.NullTransRefUnrecorded | core/fees/views_api.py:439-465 | a C2B payload whose TransRef is null, with a readable amount, is answered 200 'Received' and changes nothing, because the insert of the transaction fails |
| FeeViews.UnknownPayloadRefused | core/fees/views_api.py:445-449 | a payload with neither Body nor Result is answered 'Invalid webhook format' and changes nothing |
| FeeViews.WebhookRedeliveryHarmless | core/fees/views_api.py:451-465 | a second delivery of an accepted receipt is still answered 'Received' and changes nothing |
| FeeViews.MpesaWebhookHandler | core/fees/views_api.py:408-472 | the ledger's new books and the reply are HandleWebhook's on the old books, a null reference text included, and the ledger stays valid |
| FeeViews.MarkPaidKeepsAmounts | core/fees/views_api.py:177-185 | mark_paid sets the status to paid and keeps amount_paid, balance and total and the books' invariants; an invoice outside the user's school is a 404 and changes nothing |
| FeeViews.MarkPaid | core/fees/views_api.py:177-185 | the ledger's new books and the result are MarkPaidStep's, and the ledger stays valid |
| FeeViews.ResolveEffect | core/fees/views_api.py:285-304 | resolve marks the row resolved at now and touches no invoice, payment or transaction; a resolved row is a 404 unless show_resolved is true |
| FeeViews.Resolve | core/fees/views_api.py:296-304 | the ledger's new arrears and the result are ResolveStep's, and the ledger stays valid |
| FeeViews.Outstanding | core/fees/views_api.py:285-294 | exactly the unresolved rows of the user's school |
| FeeViews.RangesPartition | core/fees/views_api.py:326-343 | every day count falls in exactly one of the ranges 0-30, 31-60, 61-90 and 90+ |
| FeeViews.RangesCoverRows | core/fees/views_api.py:326-343 | the four range counts add up to the number of rows |
| FeeViews.StatsBucketsPartition | core/fees/views_api.py:312-345 | the four range counts add up to the number of students in arrears, and show_resolved does not change the figures |
| FeeViews.OutstandingIgnoresShowResolved | core/fees/views_api.py:315-317 | the unresolved rows counted are the same whatever show_resolved says |
| FeeViews.RetryMatchEffect | core/fees/views_api.py:366-403 | a retry that matches is record_payment for the whole amount plus the processed link, and every other answer changes nothing |
| FeeViews.RetryMatchUnreachableWithSchool | core/fees/views_api.py:357-374 | a user bound to a school only reaches linked transactions, never unmatched ones, so the retry is refused or not found and changes nothing |
| FeeViews.RetryMatchReachableWithoutSchool | core/fees/views_api.py:357-403 | a user without a school reaches an unmatched transaction, which then finds no invoice |
| FeeViews.RetryMatchKeepsWellFormed | core/fees/views_api.py:366-403 | a retry keeps the books well formed |
| FeeViews.RetryMatch | core/fees/views_api.py:366-403 | the ledger's new books and the reply are RetryMatchStep's, and the ledger stays valid |
| FeeViews.RetryLinkOn | core/fees/views_api.py:381-398 | the matched path leaves the books and reply of RetryLink |
| FeeViews.BatchCreateCounts | core/fees/views_api.py:82-88 | one structure is created per valid item, in order with consecutive ids, one error entry is kept per invalid item, and no errors exactly when every item is valid |
| FeeViews.BatchCreateStatus | core/fees/views_api.py:90-94 | 201 exactly when every item was valid, and total_created counts the created structures |
| FeeViews.BatchCreate | core/fees/views_api.py:76-94 | the loop leaves the structures and the reply of BatchCreateRun, and the ledger stays valid |
| FeeSerializers.OverrideType | core/fees/serializers.py:47-50 | WAIVED exactly when the override has no amount, DISCOUNTED otherwise |
| FeeSerializers.OverrideTypeMatchesCharge | core/fees/serializers.py:47-50 | the type shown agrees with what generation charges: nothing when waived, the override's amount otherwise |
| FeeSerializers.IsResolvedDisplay | core/fees/serializers.py:131-132 | 'Resolved' exactly when the row is resolved, 'Outstanding' otherwise |
| FeeSerializers.ResolvedRowDisplay | core/fees/serializers.py:131-132 | a row returned by the resolve action displays as Resolved |
| FeeSerializers.ValidateGeneration | core/fees/serializers.py:153-166 | valid exactly when both the term and the school exist, and then the data carries both |
| FeeSerializers.GenerationErrorOrder | core/fees/serializers.py:154-162 | a missing term is the error reported whatever the school; a missing school is reported only for a known term |
| FeeSerializers.PaymentFieldErrors | core/fees/serializers.py:173-179 | an amount error exactly when the amount is not positive, a method error exactly when the method is not one of mpesa, bank, cash, check, and no other keys |
| FeeSerializers.ValidatePayment | core/fees/serializers.py:169-193 | valid exactly when the amount is positive, the method allowed, the invoice exists and the amount is at most its balance; the invoice is attached; with clean fields an unknown invoice is 'Invoice not found' |
| FeeSerializers.PaymentBoundary | core/fees/serializers.py:187-190 | an amount equal to the balance is accepted and one cent more is refused with the balance in the message |
| FeeSerializers.ValidatedPaymentIsRecorded | core/fees/serializers.py:176-193 | a request the serializer accepts passes record_payment's own checks |
| FeeSerializers.WebhookFieldErrors | core/fees/serializers.py:198-199 | a field error for Result or Body exactly when it is present and not a dict; the error is 'This field may not be null.' exactly when the field is null |
| FeeSerializers.ValidateWebhook | core/fees/serializers.py:196-205 | valid exactly when both fields are dicts where present and at least one is a non-empty dict; the validated data holds exactly the declared fields Result and Body that were sent, with their values; otherwise the field errors when there are any, and else the non-field error |
| FeeSerializers.AcceptedWebhookHasKnownFormat | core/fees/serializers.py:201-205 | data the serializer accepts is never answered as an unknown format by the webhook handler |
| Json.Get | core/fees/views_api.py:440-444 | `.get(key, default)` on a dict is the key's value or the default; on any other value it raises the AttributeError text |
| Json.Strip | backend/core/tenant_permissions.py:148 | str.strip(): what is left starts and ends with a character that is not white space |
| Json.StripAround | backend/core/tenant_permissions.py:148 | white space added around unspaced text is stripped back to that text |
| Json.PyInt | backend/core/tenant_permissions.py:148 | int(): an int is itself, a string converts exactly when it is an integer literal (blanks around, optional sign, digits with single underscores between them), None, lists and dicts raise |
| Json.LiteralAfterStrip | backend/core/tenant_permissions.py:148 | int() accepts a string exactly when it accepts the string stripped, and reads the same value |
| Json.PyIntIgnoresBlanks | core/payments/views.py:96 | int() reads a number the same with or without white space around it, as in " 5" and "5\n" |
| Json.PyIntGrouped | core/payments/views.py:96 | int() reads two digit runs joined by one underscore, as "1_000", as the digits run together |
| Json.PyIntRefusesDoubleUnderscore | core/payments/views.py:96 | a doubled underscore between digits raises |
| Json.PyIntRefusesInnerBlank | core/payments/views.py:96 | a blank between digits raises |
| Json.PyIntRefusesLeadingUnderscore | core/payments/views.py:96 | a leading underscore raises |
| Json.PyIntRefusesTrailingUnderscore | core/payments/views.py:96 | a trailing underscore raises |
| Json.PyIntOfRenderedInt | backend/core/tenant_permissions.py:148 | int(str(n)) is n for every integer n |
| Json.CentsOf | core/fees/views_api.py:430 | a finite decimal c·10^e is c·10^(e+2) cents when e is at least -2, and otherwise a whole number of cents exactly when 10^(-2-e) divides c; Infinity and NaN have no cents |
| Json.TextCents | core/fees/views_api.py:430 | a syntax error exactly when Decimal's grammar refuses the text once its surrounding white space is stripped and then every underscore dropped; cents exactly when the number read is a whole number of cents, and then those cents |
| Json.ParseRenderedInt | core/fees/views_api.py:430 | Decimal(str(n)) is n with exponent 0 for every integer n |
| Json.ParseDecimalIgnoresBlanks | core/fees/views_api.py:442 | Decimal reads a number the same with or without white space around it |
| Json.AmountTextRoundTrip | core/fees/views_api.py:442 | an amount written with two decimal places, as "100.50" or "-3.07", reads back as exactly its cents |
| Json.SubCentAmountRefused | core/fees/views_api.py:442 | a third decimal place other than zero is a fraction of a cent and is refused |
| Json.ExponentAmount | core/fees/views_api.py:442 | digits with an exponent, as "1e3", read as the digits' value times ten to the exponent, in cents |
| Json.AmountIgnoresBlanks | core/fees/views_api.py:442 | blanks around an amount, as in " 5 ", do not change the cents |
| Json.IntCents | core/fees/views_api.py:430 | Decimal(str(n)) of an int n is n·100 cents |
| Json.WordRefused | core/fees/views_api.py:430 | a capitalised word that names neither Infinity nor NaN is a syntax error |
| Json.UnderscoreBeforeBlankRefused | core/fees/views_api.py:430 | Decimal("_ 5") is a syntax error: the blank after the underscore is not stripped, because underscores are dropped only after the strip |
| Json.UnderscoreBlankDropped | core/fees/views_api.py:430 | dropping the underscores of "_ 5" leaves " 5", the text Decimal would have read had underscores gone first |
| Json.PyRepr | core/fees/views_api.py:430-431 | repr() of a list is bracketed, of a dict braced, of a string its quoted, escaped form, and of None, a bool or an int its str() |
| Json.StrRepr | backend/api/auth.py:150-156 | repr() of a string starts and ends with the same quote, a single or a double one |
| Json.PyStr | core/fees/views_api.py:430-431 | str() of a string is the string itself and of any other value its repr() |
| Json.PlainStrRepr | backend/api/auth.py:150-156 | a string of printable ASCII without quote or backslash has repr() that string in single quotes |
| Json.ListOfOneStr | core/payments/views.py:108-116 | str() of a list holding one plain string is that string quoted in brackets, as "['ABC']", never the empty string |
| Json.NonNumberRefused | core/fees/views_api.py:430 | str() of None, True, False, a list or a dict (the last two written as their bracketed or braced repr()) is refused as a syntax error |
| Json.UnsignedLiteral | backend/core/tenant_permissions.py:148 | int() of unspaced text without a sign is the value of its grouped digits, and raises when they are not grouped digits |
| Json.PyGreater | backend/sync/conflicts.py:13 | Python's `>`: two numbers (bool among them) always compare, two strings compare in code-point order, and None against anything raises |
| JsValue.ParseInt | frontend/scripts/attendance-controller.js:286 | parseInt always gives a number or NaN |
| JsValue.ParseIntSkipsSpace | frontend/scripts/attendance-controller.js:286 | leading white space does not change what parseInt reads |
| JsValue.ParseDigits | frontend/scripts/attendance-controller.js:286 | a run of decimal digits, with or without a minus sign in front, parses to its value |
| JsValue.ParseIntOfRendered | frontend/scripts/attendance-controller.js:298 | parseInt reads back the number String(n) renders, so numeric ids survive a trip through DOM attributes and object keys |
| JsValue.ParseIntOfNonNumeric | frontend/scripts/attendance-controller.js:286 | text that starts with neither a digit, a sign nor white space is NaN |
| JsValue.JsLength | static/js/app.js:189-197 | a string's `length` in UTF-16 code units lies between its number of characters and twice that |
| JsValue.JsLengthBasic | static/js/app.js:189-197 | text of characters up to U+FFFF has `length` equal to its number of characters |
| JsValue.JsLengthAstral | static/js/app.js:189-197 | text of characters above U+FFFF has `length` twice its number of characters |
| FeeSignals.InvoiceNotice | core/fees/signals.py:23-55 | a notice is attempted exactly for a newly created, non-cancelled invoice whose student has a user, and it ends in the logged missing-attribute failure; otherwise nothing is sent |
| FeeSignals.PaymentNotice | core/fees/signals.py:58-89 | a notice is attempted exactly for a newly created completed payment whose student has a user, and it ends in the logged failure; otherwise nothing is sent |
| FeeSignals.ArrearsEvent | core/fees/signals.py:107-122 | 60 days or more is arrears_critical, 30 to 59 is arrears_warning, and below 30 there is no event |
| FeeSignals.ArrearsNotice | core/fees/signals.py:92-138 | a resolved row sends nothing; a notice is attempted exactly for an unresolved row with a user and at least 30 days outstanding, with the event of its days, and ends in the logged failure |
| FeeSignals.ArrearsEventsExclusive | core/fees/signals.py:108-122 | no row is both critical and a warning, and a row has an event exactly when it is at least 30 days outstanding |
| FeeSignals.RecomputedRowNotice | core/fees/signals.py:100-122 | the arrears row an update writes for a student with overdue invoices is unresolved, carries the days since the earliest due date, and its save attempts a notice exactly from 30 days |
| MpesaIntegration.StkPhone | core/payments/mpesa_integration.py:85-87 | the phone always starts with 254; one that already does is kept as it is, any other loses its leading zeros and gets 254 in front |
| MpesaIntegration.TransactionDesc | core/payments/mpesa_integration.py:108 | the description is cut to its first 60 characters: a prefix of length min(60, its length) |
| MpesaIntegration.BuildStkPayload | core/payments/mpesa_integration.py:79-109 | without a token, or with an empty one, the reply is the access-token error; otherwise the payload has the normalised phone as PartyA and PhoneNumber, the short code as BusinessShortCode and PartyB, str() of the reference and the cut description |
| MpesaIntegration.StkPhoneIdempotent | core/payments/mpesa_integration.py:86-87 | normalising a phone twice gives what normalising once did |
| MpesaIntegration.StkPhoneLocal | core/payments/mpesa_integration.py:86-87 | 0712345678 becomes 254712345678 |
| MpesaIntegration.StkPhoneInternational | core/payments/mpesa_integration.py:86-87 | 254712345678 is kept |
| MpesaIntegration.StkPhonePlus | core/payments/mpesa_integration.py:86-87 | +254712345678 does not start with 254, so it becomes 254+254712345678 |
| MpesaIntegration.FillOne | core/payments/mpesa_integration.py:219-221 | one item is taken exactly when it is a dict whose Name is hashable, and then its Value is stored under its Name |
| MpesaIntegration.Fill | core/payments/mpesa_integration.py:217-221 | the loop finishes exactly when every item is a dict with a hashable Name |
| MpesaIntegration.FillLastWins | core/payments/mpesa_integration.py:218-221 | after the loop each name holds the Value of the last item with that name, and names no item has keep what was there |
| MpesaIntegration.ParseCallback | core/payments/mpesa_integration.py:192-243 | a success has ResultCode equal to 0, and a declined payment has a ResultCode that is not 0 |
| MpesaIntegration.MissingResultCodeDeclines | core/payments/mpesa_integration.py:204-236 | a callback without Body, or without ResultCode, reads as None and is declined with the default message |
| MpesaIntegration.DeclineCarriesDescription | core/payments/mpesa_integration.py:231-236 | a non-zero ResultCode with a non-empty ResultDesc is declined with that description |
| MpesaIntegration.SuccessCarriesMetadata | core/payments/mpesa_integration.py:212-230 | a successful callback carries the checkout and merchant request ids and, under every name, the Value of the last metadata item with that name |
| MpesaIntegration.ParseCallbackRun | core/payments/mpesa_integration.py:192-243 | the method with the item loop returns exactly what the callback reading defines |
| PaymentsViews.AccountInvoice | core/payments/views.py:91-106 | an invoice id is read only when AccountReference or, failing it, Account is truthy, and only when int() accepts it (blanks around, optional sign, single underscores between digits) |
| PaymentsViews.CompleteSelected | core/payments/views.py:97-103 | the table keeps its length; each payment the query selects is completed with the receipt and the raw callback, every other payment is unchanged |
| PaymentsViews.CallbackReplyFollowsParse | core/payments/views.py:66-137 | the reply is 0 Accepted exactly for a parsed success, matched or not; anything else is 1 and writes nothing, with the decline message, or the error text for a body that is not JSON or a failed parse |
| PaymentsViews.InvoiceReferenceCompletes | core/payments/views.py:93-103 | when the account reference names an invoice with mpesa payments, exactly those payments are completed with the receipt and the callback |
| PaymentsViews.ReferenceFallbackGuard | core/payments/views.py:108-116 | the search by receipt inside the reference runs only when the invoice lookup updated nothing and the receipt is truthy, and then looks, case-insensitively, for str() of the receipt (a list or dict as its repr()); otherwise the table is what the invoice lookup left |
| PaymentsViews.CompletedKeepsSelection | core/payments/views.py:98-102 | completing a payment leaves the fields both queries read alone, and completing it again changes nothing |
| PaymentsViews.CompleteSelectedTwice | core/payments/views.py:97-103 | running the same completion loop twice leaves the table as once did |
| PaymentsViews.CallbackRedeliveryHarmless | core/payments/views.py:61-124 | the same successful callback delivered twice leaves the payments table as one delivery did |
| PaymentsViews.SettleMatchedTwice | core/payments/views.py:91-116 | settling the same callback's payments a second time changes nothing, whichever of the two lookups it used |
| PaymentsViews.FallbackStaysUnselected | core/payments/views.py:109-116 | when no payment belongs to the invoice, completing by receipt does not make one, and a second pass by receipt changes nothing |
| PaymentsViews.CompleteSelectedKeepsWellFormed | core/payments/views.py:98-102 | completing payments changes neither the invoice nor the amount of any payment, so the fee books stay well formed |
| PaymentsViews.CallbackStepKeepsWellFormed | core/payments/views.py:61-137 | a callback, whatever it holds, leaves the fee books well formed |
| PaymentsViews.SettleMatchedKeepsWellFormed | core/payments/views.py:91-116 | the writes of a successful callback leave the fee books well formed |
| PaymentsViews.CompleteMatching | core/payments/views.py:97-103 | the loop completes exactly the selected payments, and reports an update exactly when one was selected |
| PaymentsViews.MpesaCallback | core/payments/views.py:61-137 | the new payments table and the reply are those of the callback decision on the old table, and the fee ledger stays valid |
| PaymentsViews.ContainerReceiptSearch | core/payments/views.py:108-116 | a receipt that is a list or a dict is searched for as its repr(), so when the invoice lookup found nothing, a payment whose reference lacks the opening bracket or brace is left untouched |
| PaymentsViews.SettlePayments | core/payments/views.py:91-116 | the payments table afterwards is the invoice lookup's writes, or the receipt lookup's when the first updated nothing |
| NotifModels.IsInQuietHours | core/notifications/models.py:69-80 | with times of day to the microsecond, so that 07:00:30 is outside a window ending at 07:00: never quiet when either bound is unset; a window that does not cross midnight holds exactly the times between its bounds, both included; one that does holds the times from the start or up to the end |
| NotifModels.QuietHoursOverMidnight | core/notifications/models.py:78-80 | a window that crosses midnight holds exactly the times not strictly between its end and its start |
| NotifModels.QuietHoursBoundsIncluded | core/notifications/models.py:75-80 | both bounds of a window are quiet times, whichever way it runs |
| NotifModels.Notification.constructor | core/notifications/models.py:83-150 | a new notification is unread and has no read time |
| NotifModels.Notification.MarkAsRead | core/notifications/models.py:161-165 | afterwards the notification is read; the first call records the time, later calls keep the first time |
| NotifModels.MarkedSent | core/notifications/models.py:222-228 | the log is sent at the given time with its attempts unchanged; the provider id is replaced only by a non-empty one |
| NotifModels.MarkedFailed | core/notifications/models.py:305-310 | the log is failed with the error kept and exactly one more attempt; provider id and sent time are unchanged |
| NotifModels.RetryBudget | core/notifications/models.py:218-220 | after k >= 1 failures of a fresh log it has made k attempts, and it may be retried exactly while k is below the default max_retries of 3 |
| NotifModels.SentIsFinal | core/notifications/models.py:218-228 | a sent log can never be retried, and marking it sent spends no attempt |
| NotifModels.SmsFailed | core/notifications/models.py:230-236 | an SMS marked failed has the failed delivery fields and keeps the provider's error code; its identity, phone, message and creation time are unchanged |
| NotifModels.SmsSent | core/notifications/models.py:222-228 | an SMS marked sent has the sent delivery fields; its error code and identity are unchanged |
| NotifModels.SmsLog.constructor | core/notifications/models.py:168-205 | a new SMS log is queued with no attempts, three retries allowed and no error code |
| NotifModels.SmsLog.CanRetryNow | core/notifications/models.py:218-220 | the log can be retried exactly when its delivery state allows it: failed, with attempts below max_retries |
| NotifModels.SmsLog.MarkAsSent | core/notifications/models.py:222-228 | the log's new state is its old state marked sent |
| NotifModels.SmsLog.MarkAsFailed | core/notifications/models.py:230-236 | the log's new state is its old state marked failed, with the error message and code |
| NotifModels.EmailFailed | core/notifications/models.py:305-310 | an e-mail marked failed has the failed delivery fields and keeps its identity, address and creation time |
| NotifModels.EmailSent | core/notifications/models.py:297-303 | an e-mail marked sent has the sent delivery fields and keeps its identity, address and creation time |
| NotifModels.EmailLog.constructor | core/notifications/models.py:239-268 | a new e-mail log is queued with no attempts and three retries allowed |
| NotifModels.EmailLog.CanRetryNow | core/notifications/models.py:293-295 | the log can be retried exactly when it is failed with attempts below max_retries |
| NotifModels.EmailLog.MarkAsSent | core/notifications/models.py:297-303 | the log's new state is its old state marked sent |
| NotifModels.EmailLog.MarkAsFailed | core/notifications/models.py:305-310 | the log's new state is its old state marked failed, with the error message |
| NotifServices.ShouldNotify | core/notifications/services.py:46-69 | a recipient without preferences is always notified; in quiet hours never; otherwise by the event's own flag, and an unknown event type is wanted |
| NotifServices.EventFlagKnownTypes | core/notifications/services.py:56-66 | exactly the seven listed event types have a flag of their own, and any other type is wanted outside quiet hours |
| NotifServices.GetChannels | core/notifications/services.py:72-83 | without preferences the channels are ['email']; with them, sms is listed exactly when enabled, email likewise, and sms comes first |
| NotifServices.SendSms | core/notifications/services.py:109-150 | an SMS log is created exactly when the recipient has preferences with a phone number; it is queued and fresh, with that number and the notification's own message |
| NotifServices.SendEmail | core/notifications/services.py:185-219 | an e-mail log is created exactly when the recipient has an address; it is queued and fresh, with the notification's title and message |
| NotifServices.DispatchOnlyRequested | core/notifications/services.py:91-102 | dispatching only appends logs, and only for channels that were asked for; a channel not asked for keeps its log table and result, and a new result names a log in its table |
| NotifServices.DefaultChannelIsEmail | core/notifications/services.py:82-100 | dispatching over get_channels' answer passed explicitly, a recipient without preferences and with an address gets exactly one new e-mail log and no SMS |
| NotifServices.Outbox.constructor | core/notifications/services.py:94 | the log tables start empty |
| NotifServices.Outbox.DispatchNotification | core/notifications/services.py:86-102 | without channels, the AttributeError of `NotificationService.get_channels` and no new log; with channels, the new log tables and the results are those of the channel loop over them |
| NotifServices.SmsDelivery | core/notifications/services.py:153-178 | a delivered answer marks the log sent without spending an attempt; a refusal marks it failed with one more attempt, str() of the provider's message and its error code, except that a null message spends two attempts and leaves the not-null IntegrityError's text and no code; the log's identity is kept |
| NotifServices.FirstFailureRetryable | core/notifications/services.py:163-170 | a fresh log that fails once can be retried, and one that is delivered cannot |
| NotifServices.SmsSendViaProvider | core/notifications/services.py:153-178 | the log's new state is the gateway answer applied to its old state, through mark_as_failed twice for a null message |
| NotifServices.EmailDelivery | core/notifications/services.py:222-245 | success exactly when send_mail reports a positive count, and then the log is sent with attempts unchanged; otherwise it is failed with one more attempt, 'Django send_mail returned 0' or the raised error as its message |
| NotifServices.EmailSendViaProvider | core/notifications/services.py:222-245 | the log's new state and the reply are those of the mail outcome applied to the old state |
| NotifTasks.QueuedPositions | core/notifications/tasks.py:15 | exactly the positions of the queued logs, in increasing order |
| NotifTasks.PendingBatch | core/notifications/tasks.py:15 | at most 100 positions, each of a queued log, in increasing order |
| NotifTasks.PendingBatchOldestFirst | core/notifications/tasks.py:15 | a queued log left out of the batch means the batch is full and every log in it comes earlier in creation order |
| NotifTasks.SmsStatuses | core/notifications/tasks.py:15 | one status per SMS log, each that log's status |
| NotifTasks.EmailStatuses | core/notifications/tasks.py:47 | one status per e-mail log, each that log's status |
| NotifTasks.OutcomeOf | core/notifications/tasks.py:23-30 | a log counts as delivered exactly when it is sent; a retry is asked for exactly when it failed and can be retried, with a countdown of the unit times one more than the attempts made |
| NotifTasks.BatchRun | core/notifications/tasks.py:20-33 | the table keeps its length and there is one outcome per log of the batch |
| NotifTasks.BatchRunNext | core/notifications/tasks.py:20-33 | one more pass of the loop sends the next log of the batch from the table as the earlier passes left it, and appends its outcome |
| NotifTasks.TallySnoc | core/notifications/tasks.py:23-26 | one more outcome adds one to sent when delivered, and one to failed otherwise |
| NotifTasks.RetryDelaysSnoc | core/notifications/tasks.py:29-30 | one more outcome adds its countdown exactly when it failed and asked for a retry |
| NotifTasks.BatchRunAt | core/notifications/tasks.py:20-33 | with distinct positions, each log of the batch is sent once from its old value and its outcome read after the send; every other log is untouched |
| NotifTasks.Tally | core/notifications/tasks.py:17-26 | the corrected counters: sent plus failed is the number of logs tried |
| NotifTasks.RetryDelays | core/notifications/tasks.py:29-30 | there are never more retry requests than logs tried |
| NotifTasks.TallyAsWrittenOvercounts | core/notifications/tasks.py:20-33 | the counters as written agree with the corrected tally on sent and exceed it on failed by exactly the number of retries asked for |
| NotifTasks.EmailTallyDoubleCounts | core/notifications/tasks.py:52-65 | one fresh e-mail whose send_mail raises is counted as two failures as written, against one in the corrected tally, and asks for a retry in 240 seconds |
| NotifTasks.SmsTallyDoubleCounts | core/notifications/tasks.py:20-33 | one fresh SMS that the provider refuses is counted as two failures as written, against one in the corrected tally, and asks for a retry in 120 seconds, or in 180 when the refusal's message is null |
| NotifTasks.RunBatch | core/notifications/tasks.py:17-36 | the loop leaves the table the batch run gives, its counters are the tally of the outcomes and its retry list their countdowns |
| NotifTasks.SendPendingSms | core/notifications/tasks.py:11-36 | the corrected send_pending_sms: the SMS table afterwards is the batch run over the oldest 100 queued logs; the counts are the corrected tally of that run (one per log, see Findings) and the retry countdowns are those the run asks for |
| NotifTasks.SendPendingEmails | core/notifications/tasks.py:43-68 | the corrected send_pending_emails: the e-mail table afterwards is the batch run over the oldest 100 queued logs; the counts are the corrected tally of that run (one per log, see Findings) and the retry countdowns are those the run asks for |
| NotifTasks.SmsBatchFacts | core/notifications/tasks.py:15-33 | every log of the batch is queued, sent once and counted once; every other log is untouched |
| NotifTasks.EmailBatchFacts | core/notifications/tasks.py:47-65 | every log of the batch is queued, sent once and counted once; every other log is untouched |
| NotifTasks.SmsBatchOldestFirst | core/notifications/tasks.py:15 | with the table in creation order, a queued SMS left out means a full batch of logs created no later than it |
| NotifTasks.KeptSince | core/notifications/tasks.py:85-89 | the rows kept are exactly the rows created at or after the cutoff |
| NotifTasks.CleanupOld | core/notifications/tasks.py:76-92 | exactly the logs older than 90 days are removed from each table, and the counts returned are the rows removed |
| NotifTasks.CleanupBoundary | core/notifications/tasks.py:82-85 | a log exactly 90 days old survives; one a second older is deleted |
| NotifTasks.ReminderInvoices | core/notifications/tasks.py:108-114 | exactly the invoices due in 7 days, issued or partial, with a positive balance |
| NotifTasks.SendPaymentReminders | core/notifications/tasks.py:100-143 | every selected invoice is tried and ends in the logged error, so the count sent is 0 |
| NotifTasks.CountWhere | core/notifications/tasks.py:158-191 | a selection never counts more rows than there are |
| NotifTasks.ArrearsJobCounts | core/notifications/tasks.py:216 | the critical and warning counts together never exceed the rows |
| NotifTasks.CriticalWarningDisjoint | core/notifications/tasks.py:158-191 | no row is counted by both selections |
| NotifTasks.ArrearsJobMatchesReceiver | core/notifications/tasks.py:158-191 | the job's critical and warning selections are exactly the receiver's classification of unresolved rows, and no row is both |
| SmsGateway.Route | core/notifications/sms_gateway.py:16-24 | 'africas-talking' and 'twilio' pick their senders, and exactly those settings do; anything else, or no setting, is the console |
| SmsGateway.SendConsole | core/notifications/sms_gateway.py:27-48 | the console sender always succeeds, with message id console-<log id> and provider console |
| SmsGateway.AtPhone | core/notifications/sms_gateway.py:77-80 | the recipient always starts with '+': a '+' number is kept, a number starting with 0 loses its leading zeros for +254, any other gets +254 in front |
| SmsGateway.AtPhoneLeadingZero | core/notifications/sms_gateway.py:80 | a local number 0<rest> becomes +254<rest> |
| SmsGateway.AtPhoneLocal | core/notifications/sms_gateway.py:80 | 0712345678 becomes +254712345678 |
| SmsGateway.AtPhoneDoubled | core/notifications/sms_gateway.py:78-80 | 254712345678 has no '+', so it becomes +254254712345678 |
| SmsGateway.FirstOf | core/notifications/sms_gateway.py:106 | recipients[0] of a non-empty list is its first element |
| SmsGateway.ReadAtResponse | core/notifications/sms_gateway.py:101-135 | a status other than 200 is an HTTP_ERROR failure, and a success is always reported for the africas-talking provider |
| SmsGateway.AtRecipientDecides | core/notifications/sms_gateway.py:103-122 | in a 200 answer the first recipient decides: status 101 is exactly the success, and a failure carries str() of the status code |
| SmsGateway.AtEmptyRecipients | core/notifications/sms_gateway.py:103-128 | a 200 answer with an empty or missing recipient list is the EMPTY_RECIPIENTS failure |
| SmsGateway.SendAfricasTalking | core/notifications/sms_gateway.py:63-71 | without a non-empty API key and username it is the console send; with both, the answer is read as above |
| SmsGateway.SendTwilio | core/notifications/sms_gateway.py:158-191 | a missing library or any missing credential is the console send, and a failure is always TWILIO_ERROR |
| SmsGateway.Send | core/notifications/sms_gateway.py:14-24 | the configured provider's sender is used, the console for any other setting |
| SmsGateway.UnconfiguredAlwaysDelivers | core/notifications/sms_gateway.py:16-24 | without a known provider setting every send succeeds on the console, with the console message id |
| AttendanceModels.ClosedRow | backend/attendance/models.py:47-51 | a closed session has status closed and the closing time; its key and its sync fields are unchanged |
| AttendanceModels.SyncedRow | backend/attendance/models.py:53-58 | a synced session has status synced, the synced flag and the sync time; its key and closing time are unchanged |
| AttendanceModels.ClosingSyncedSession | backend/attendance/models.py:47-58 | closing does not look at the status: a synced session closed later has status closed again while keeping its synced flag |
| AttendanceModels.AttendanceSession.constructor | backend/attendance/models.py:10-35 | a new session is open, not synced, and has no closing or sync time |
| AttendanceModels.AttendanceSession.MarkClosed | backend/attendance/models.py:47-51 | the session's new row is its old row closed at the given time |
| AttendanceModels.AttendanceSession.MarkSynced | backend/attendance/models.py:53-58 | the session's new row is its old row synced at the given time |
| AttendanceModels.CountStatus | backend/attendance/models.py:60-65 | a status count never exceeds the number of records |
| AttendanceModels.CountStatusPartition | backend/attendance/models.py:95-100 | when every record has one of the four status choices, the four counts add up to the number of records |
| AttendanceModels.AttendancePercentage | backend/attendance/models.py:67-73 | 0 for a session without records; otherwise between 0 and 100, and exactly 100 when every record has the status |
| AttendanceModels.Share | backend/attendance/models.py:69-73 | the share is 0 without records, lies between 0 and 1, and is 1 exactly when every record has the status |
| AttendanceModels.PercentagesOfTwo | backend/attendance/models.py:67-73 | in a session whose every record is P or A, the two percentages add up to 100 |
| AttendanceModels.CountTwo | backend/attendance/models.py:60-65 | when every record is P or A, the P and A counts add up to the number of records |
| AttendanceModels.NoneCounted | backend/attendance/models.py:60-65 | a status no record has counts 0 |
| AttendanceModels.RecordSynced | backend/attendance/models.py:129-133 | a synced record has the synced flag and the sync time; its session, student, status and remarks are unchanged |
| AttendanceModels.Attendance.constructor | backend/attendance/models.py:88-116 | a new record carries its marking, is not synced, and is marked and updated at the given time |
| AttendanceModels.Attendance.MarkSynced | backend/attendance/models.py:129-133 | the record's new row is its old row synced at the given time |
| AttendanceModels.CleanError | backend/attendance/models.py:135-140 | a record is valid exactly when its session is not synced and not dated after today; a synced session is refused first, a future date second |
| AttendanceModels.CoversDateBounds | backend/attendance/models.py:168-170 | both ends of the range are covered when it is not reversed; a reversed range covers nothing; a date outside it is never covered |
| AttendanceServices.FindSession | backend/attendance/services.py:17-21 | the index found holds a session with the key; none is found only when no session has it |
| AttendanceServices.CreateSessionStep | backend/attendance/services.py:15-28 | the session returned has the key (klass.school, klass, date, subject); created holds exactly when no session had the key; an existing session leaves the table unchanged, and a new one is appended open, with the given term and teacher |
| AttendanceServices.CreateSessionIdempotent | backend/attendance/services.py:17-28 | get_or_create keeps the session keys unique, and a second call with any term and teacher finds the first call's session, creates nothing and changes nothing |
| AttendanceServices.FindSessionFirst | backend/attendance/services.py:17-21 | among unique keys, the session with the key is the one the lookup finds |
| AttendanceServices.FindRecord | backend/attendance/services.py:36-38 | the index found holds a row for (session, student); none is found only when there is no such row |
| AttendanceServices.Upsert | backend/attendance/services.py:36-46 | created holds exactly when the pair had no row; an existing row takes the status, remarks and marker and becomes unsynced; otherwise one unsynced row with them is appended |
| AttendanceServices.UpsertFacts | backend/attendance/services.py:36-46 | after the upsert the (session, student) pair still has at most one row, the pair's row carries the new status and is unsynced, and every other row is as before |
| AttendanceServices.UpsertKeepsSessions | backend/attendance/services.py:36-46 | an upsert into a known session keeps one row per pair and every row in a known session |
| AttendanceServices.FindRecordFirst | backend/attendance/services.py:36-38 | with one row per pair, the row holding the pair is the one the lookup finds |
| AttendanceServices.BulkUpsert | backend/attendance/services.py:65-84 | created + updated is the number of items, and the table grows by exactly the created count |
| AttendanceServices.BulkUpsertSnoc | backend/attendance/services.py:68-82 | one more item is one more upsert, counted as created or as updated |
| AttendanceServices.BulkUpsertKeepsUnique | backend/attendance/services.py:68-78 | the bulk loop keeps one row per (session, student) |
| AttendanceServices.BulkLastItemWins | backend/attendance/services.py:68-78 | after the loop the last item's student has a row, with the last item's status |
| AttendanceServices.AttendanceDb.constructor | backend/attendance/models.py:37 | empty tables satisfy both unique_together constraints |
| AttendanceServices.AttendanceDb.CreateSession | backend/attendance/services.py:15-28 | the tables keep their constraints, and the new session table, the session and the created flag are those of the get-or-create step |
| AttendanceServices.AttendanceDb.MarkAttendance | backend/attendance/services.py:31-46 | a synced session gives the error "Cannot modify synced session" and leaves the rows unchanged; otherwise the rows are those of the upsert and the result is its created flag; the constraints hold afterwards |
| AttendanceServices.AttendanceDb.BulkMarkAttendance | backend/attendance/services.py:55-84 | the rows and the (created, updated) counts are those of the bulk loop, with no check of the session's status, and the constraints hold afterwards |
| AttendanceServices.AttendanceDb.MarkItem | backend/attendance/services.py:69-82 | one item's upsert, with one more created or updated |
| AttendanceServices.AttendanceDb.MarkRecordsSynced | backend/attendance/services.py:358-363 | the rows whose ids are listed become synced at the given time and every other row is unchanged |
| AttendanceServices.SyncedRecords | backend/attendance/services.py:360-363 | the same number of rows; a listed row is marked synced, any other is as it was |
| AttendanceServices.InSessions | backend/attendance/services.py:139-141 | exactly the rows whose session passes the filter, and only rows of the table |
| AttendanceServices.StudentRows | backend/attendance/services.py:112-114 | only the student's rows |
| AttendanceServices.AttendanceRate | backend/attendance/services.py:96-123 | 0 when the student has no records in scope; otherwise the share of P, within 0 to 100 as a percentage and within 0 to 1 as a fraction |
| AttendanceServices.ClassSummary | backend/attendance/services.py:158-188 | with no records every counter and the present rate are 0, and the present rate is always within 0 to 100 |
| AttendanceServices.SummaryCountsPartition | backend/attendance/services.py:174-186 | present + absent + late + excused never exceeds total_records, and equals it when every status is P, A, L or E |
| AttendanceServices.FourAtMost | backend/attendance/services.py:183-186 | the four status counts of a list of statuses add up to at most its length |
| AttendanceServices.WithStatusOn | backend/attendance/services.py:126-155 | exactly the rows of klass's sessions on that day with the asked status, listed newest first |
| AttendanceServices.NewestHasAll | backend/attendance/models.py:119 | listing rows by `-marked_at` loses none of them |
| AttendanceServices.NewestFilteredCount | backend/attendance/models.py:119 | listing rows by `-marked_at` keeps the number of rows with each status |
| AttendanceServices.Filtered | backend/attendance/services.py:140-143 | exactly the rows with the asked status, as many as the status count |
| AttendanceServices.AbsenteesMatchSummary | backend/attendance/services.py:126-186 | get_absentees and get_late_arrivals return as many rows as the day's summary, taken without a term, counts absent and late |
| AttendanceServices.InSessionsSameFilter | backend/attendance/services.py:139-172 | two session filters that agree on every session select the same rows |
| AttendanceServices.EntryIndex | backend/attendance/services.py:214 | the entry found is the student's; none is found only when no entry is the student's |
| AttendanceServices.RowsOf | backend/attendance/services.py:212-227 | a student has at most as many rows as there are |
| AttendanceServices.CountedFacts | backend/attendance/services.py:227-235 | counting a record adds one to total_sessions, and one to the four counters exactly when its status is P, A, L or E |
| AttendanceServices.RowsOfSnoc | backend/attendance/services.py:212-227 | a student's rows after one more record |
| AttendanceServices.ReportCountsStudents | backend/attendance/services.py:211-225 | the grouping has no two entries for the same student, and a student has an entry exactly when they have records in scope |
| AttendanceServices.ReportCountsTotals | backend/attendance/services.py:211-235 | each entry's total_sessions is its student's number of records, the four counters never exceed it and add up to it when every status is P, A, L or E, and the rate is still 0 |
| AttendanceServices.TalliedCounts | backend/attendance/services.py:212-235 | one more record keeps every entry's counts those of its student's records |
| AttendanceServices.RateOf | backend/attendance/services.py:238-240 | only the rate changes, and it is within 0 to 100 for an entry with records |
| AttendanceServices.ReportFacts | backend/attendance/services.py:191-242 | the report has one line per student with records in range and none for anyone else; each line counts its student's records and has a rate within 0 to 100; the records are read newest first, as Attendance's ordering lists them |
| AttendanceServices.SameStudentsSameIndex | backend/attendance/services.py:238-242 | the rate pass keeps each student's position in the report |
| AttendanceServices.GenerateAttendanceReport | backend/attendance/services.py:191-242 | the grouping loop and the rate loop build exactly the report |
| AttendanceServices.GroupRecords | backend/attendance/services.py:209-235 | the grouping loop over the records yields exactly the per-student counts, one entry per student in the order of their first record read |
| AttendanceServices.RateEntries | backend/attendance/services.py:237-240 | the rate loop keeps every entry in place and sets each one's rate from its counts |
| AttendanceServices.Unsynced | backend/attendance/services.py:267-269 | exactly the unsynced rows of the school's sessions, or of all sessions when no school is given |
| AttendanceServices.PendingSyncCount | backend/attendance/services.py:258-270 | the pending count never exceeds the number of rows |
| AttendanceServices.UnsyncedAtMost | backend/attendance/services.py:267-270 | the unsynced rows are at most all rows |
| AttendanceServices.NewestFirst | backend/attendance/models.py:108-119 | the rows in reverse: position i holds the row i places from the end, so the last created comes first |
| AttendanceServices.UnsyncedRecords | backend/attendance/services.py:273-289 | a negative limit is an error; otherwise exactly min(limit, pending count) rows, all unsynced, the last created unsynced rows read newest first |
| AttendanceServices.UnsyncedInOrder | backend/attendance/models.py:108 | filtering rows whose marked_at never decreases keeps that order |
| AttendanceServices.NewestSuffix | backend/attendance/models.py:119 | the last rows of a list in marking order, read backwards, run from newest to oldest and none left out is newer |
| AttendanceServices.UnsyncedRecordsNewest | backend/attendance/services.py:283-289 | with rows in creation order, the result runs newest to oldest and every unsynced row left out was marked no later than any row returned |
| AttendanceJs.SetMarkFacts | frontend/scripts/attendance-controller.js:214-217 | assigning attendanceRecords[key] makes the key hold the new mark, leaves every other key's mark alone and keeps each key once |
| AttendanceJs.LookupNone | frontend/scripts/attendance-controller.js:216 | a key that is not found is held by no property |
| AttendanceJs.LookupAbsent | frontend/scripts/attendance-controller.js:216 | a key held by no property is not found |
| AttendanceJs.MarkedFacts | frontend/scripts/attendance-controller.js:213-217 | markAttendance gives the student the new status with the remarks they had, or '' without any, and changes no other student's mark |
| AttendanceJs.AllPresentFacts | frontend/scripts/attendance-controller.js:234-237 | after markAllPresent every loaded student is marked P, keys stay distinct, and keys of students not loaded keep their marks |
| AttendanceJs.Count | frontend/scripts/attendance-controller.js:249-254 | a status is counted at most once per mark |
| AttendanceJs.CountsSum | frontend/scripts/attendance-controller.js:250-254 | the P, A, L and E tallies and the marks with any other status account for every mark exactly once, and the four tallies alone do when every status is one of them |
| AttendanceJs.SessionIdFor | frontend/scripts/attendance-controller.js:280 | the session id is always truthy: the current session's id when it has one, else session_<classId>_<date>_<stamp> |
| AttendanceJs.StoredRecordKey | frontend/scripts/attendance-controller.js:283-292 | a saved record's key is <sessionId>_<studentId> |
| AttendanceJs.StoredRecordFields | frontend/scripts/attendance-controller.js:283-292 | a saved record is unsynced, has the student id parsed from the key, the mark's status and its remarks |
| AttendanceJs.StoredRecordOrigin | frontend/scripts/attendance-controller.js:283-292 | a saved record names its session and the time it was marked |
| AttendanceJs.StoredRecordPuts | frontend/scripts/attendance-controller.js:283-292 | every put of the loop succeeds, since the record's id is a string |
| AttendanceJs.IdSuffix | frontend/scripts/attendance-controller.js:284 | two record ids of one session are equal only for the same student key |
| AttendanceJs.SavedAllLast | frontend/scripts/attendance-controller.js:282-293 | one more mark is one more successful put |
| AttendanceJs.SavedAllStep | frontend/scripts/attendance-controller.js:282-293 | the loop's j-th put takes the store saved for the first j marks to the one for the first j + 1 |
| AttendanceJs.PutUnderId | frontend/scripts/attendance-controller.js:282-293 | putting another student's record leaves a student's saved record readable |
| AttendanceJs.SavedAllFacts | frontend/scripts/attendance-controller.js:282-293 | after the loop the store stays sorted and each mark's record reads back under its id |
| AttendanceJs.SessionFields | frontend/scripts/attendance-controller.js:296-304 | the saved session has the session id, recordCount the number of marks, classId parsed as a number, the date, status open and synced false |
| AttendanceJs.SessionDataFields | frontend/scripts/attendance-controller.js:296-304 | the object handed to saveSession holds exactly those fields |
| AttendanceJs.SavedSessionNeverFound | frontend/scripts/attendance-controller.js:115 | the lookup as written compares the select's string with the stored number, so it never finds a session saveAttendance stored |
| AttendanceJs.FindSession | frontend/scripts/attendance-controller.js:113-117 | a session found is in the list and has the class id and date; none is found only when no session has them |
| AttendanceJs.SavedSessionFound | frontend/scripts/attendance-controller.js:113-117 | with the class id compared as saveAttendance stores it, the session saved for a class and date is found again |
| AttendanceJs.CsvRowsStep | frontend/scripts/attendance-controller.js:402-406 | the export grows by one student's line per pass |
| AttendanceJs.NewlinesConcat | frontend/scripts/attendance-controller.js:400-406 | line breaks of a concatenation add up |
| AttendanceJs.NoNewlines | frontend/scripts/attendance-controller.js:405 | a text without line breaks has none |
| AttendanceJs.RowNewlines | frontend/scripts/attendance-controller.js:405 | a student's line ends in its only line break when its fields hold none |
| AttendanceJs.HeaderNewlines | frontend/scripts/attendance-controller.js:400 | the header is one line |
| AttendanceJs.RowsNewlines | frontend/scripts/attendance-controller.js:402-406 | the body has one line per loaded student |
| AttendanceJs.CsvLineCount | frontend/scripts/attendance-controller.js:400-406 | the export is one header line and one line per loaded student |
| AttendanceJs.UnmarkedExportsPresent | frontend/scripts/attendance-controller.js:403-405 | a student without a mark is exported as Present with empty remarks |
| AttendanceJs.AttendanceController.constructor | frontend/scripts/attendance-controller.js:8-16 | a new controller has no marks, no current session and no students |
| AttendanceJs.AttendanceController.UpdateCounts | frontend/scripts/attendance-controller.js:249-260 | the loop's tallies are the P, A and L counts of the marks, shown with the number of loaded students |
| AttendanceJs.AttendanceController.MarkAttendance | frontend/scripts/attendance-controller.js:213-232 | the marks become those of markAttendance, keys stay distinct, the session and students are unchanged, and the fresh tallies are shown |
| AttendanceJs.AttendanceController.MarkAllPresent | frontend/scripts/attendance-controller.js:234-240 | the marks become those of marking each loaded student P in turn, and the success message is shown |
| AttendanceJs.AttendanceController.ResetForm | frontend/scripts/attendance-controller.js:242-247 | no marks and no current session remain, and the tallies shown are zero with the number of students |
| AttendanceJs.AttendanceController.SaveRecords | frontend/scripts/attendance-controller.js:282-293 | only the attendanceRecords store changes, to the store with one put per mark in order |
| AttendanceJs.AttendanceController.SaveNth | frontend/scripts/attendance-controller.js:283-292 | the loop's j-th pass adds the j-th mark's record |
| AttendanceJs.AttendanceController.SaveEntry | frontend/scripts/attendance-controller.js:283-292 | a put that fails changes nothing, and one that succeeds changes only the attendanceRecords store |
| AttendanceJs.AttendanceController.SaveAttendance | frontend/scripts/attendance-controller.js:262-325 | a missing class or date, or a missing school, shows its message and writes and queues nothing; otherwise one record per mark is saved, then the session; a failing session put shows the error and queues nothing, else one attendance_batch item is queued and the success message names whether it is online |
| AttendanceJs.AttendanceController.SaveSessionAndQueue | frontend/scripts/attendance-controller.js:296-320 | the session put, then the queued batch, with the same error and success outcomes |
| AttendanceJs.AttendanceController.ExportAsCsv | frontend/scripts/attendance-controller.js:391-414 | a missing class or date gives the warning; otherwise the file attendance_<class>_<date>.csv holds the header and one line per loaded student |
| AuthApi.FirstSchool | backend/api/auth.py:49-55 | the lookup used for get(code=…) here and for get(id=…) at lines 150-156: a school found is in the table and is selected; none is found only when no school is selected |
| AuthApi.LoginStep | backend/api/auth.py:39-95 | a missing or falsy field is 400; a refusal leaves every user unchanged; an acceptance needs credentials, names the school whose code is str() of the given code (a list or dict as its repr()), and binds the authenticated user, who had no school or this one, to it |
| AuthApi.UnknownSchoolBeforeCredentials | backend/api/auth.py:49-58 | an unknown school code is 404 whatever the credentials are |
| AuthApi.CredentialsThenBinding | backend/api/auth.py:58-76 | with a known school, no authenticated user is 401, a user bound to another school is 403 and unchanged, and a user without a school is accepted and bound to the login school |
| AuthApi.LoginIdempotent | backend/api/auth.py:73-76 | logging in a second time with the same request gives the same reply and changes nothing more |
| AuthApi.VisibleSchools | backend/api/auth.py:105-110 | a superuser sees every school; a user without a school sees none; otherwise exactly the schools with the user's school id |
| AuthApi.SwitchStep | backend/api/auth.py:137-169 | a user who is neither staff nor superuser gets 403; a falsy school_id gets 400; a school_id the id lookup cannot read as an integer raises, and one naming no school gets 404; a failure changes no user; on success the caller was an administrator, the school is in the table and only the caller's school changes |
| AuthApi.SwitchThenVisible | backend/api/auth.py:158-160 | after a successful switch a non-superuser sees exactly the chosen school, when school ids are unique |
| AuthApi.OnlySchoolWithId | backend/api/auth.py:107-108 | with unique school ids, a non-superuser bound to a school sees exactly that one school |
| AuthApi.NoSchoolWithId | backend/api/auth.py:107-108 | a non-superuser whose school id names no school sees none |
| AuthApi.Accounts.SchoolLogin | backend/api/auth.py:20-95 | the reply and the new users table are those of the login decision on the old table |
| AuthApi.Accounts.SwitchSchool | backend/api/auth.py:128-169 | the reply and the new users table are those of the switch decision on the old table |
| TenantPermissions.IntOf | backend/core/tenant_permissions.py:148 | int() of a request value: an int is itself, and any value int() converts gives the same number; integer literals (blanks around, optional sign, single underscores between digits) convert; a refused text raises 'invalid literal for int() with base 10: ' followed by its repr() cut to 200 characters, another type the TypeError naming it |
| TenantPermissions.SyncObjectPermission | backend/core/tenant_permissions.py:141-154 | superusers pass; a truthy school_id is compared as an int with the user's school, and it raises exactly when int() refuses it; otherwise the object's school decides, and an object without one is denied |
| TenantPermissions.UnauthenticatedDenied | backend/core/tenant_permissions.py:15-18 | no permission class lets an unauthenticated user through |
| TenantPermissions.SuperuserPasses | backend/core/tenant_permissions.py:21-22 | an authenticated superuser passes every class, for every object and any request data |
| TenantPermissions.OrdinaryUserClasses | backend/core/tenant_permissions.py:15-139 | for an authenticated user who is not a superuser: IsTenantMember and TenantSyncPermission ask exactly for a school, IsTeacherOfSchool for a teacher profile and a school, IsAdminOfSchool exactly for staff, TenantFilterPermission for nothing more; an object passes exactly when it has a school field equal to the user's |
| TenantPermissions.TeacherIsMember | backend/core/tenant_permissions.py:46-56 | every user IsTeacherOfSchool admits is also admitted by IsTenantMember, TenantSyncPermission and TenantFilterPermission |
| TenantPermissions.SyncFallsBackToTenantCheck | backend/core/tenant_permissions.py:150-154 | without a truthy school_id the sync object check is the tenant object check |
| TenantPermissions.IntOfRefusedQuoting | backend/core/tenant_permissions.py:148 | a refused printable text without backslashes is shown in single quotes, or in double quotes when it holds a single quote and no double one, and only its first 200 characters of that are kept |
| TenantPermissions.SyncBadSchoolIdRaises | backend/core/tenant_permissions.py:146-148 | a school_id text with no digits and no blanks at its ends, such as "x", raises instead of denying |
| TenantPermissions.Visible | backend/core/tenant_permissions.py:90-107 | a superuser sees every row, a user with a school exactly the rows of that school, a user without one nothing |
| TenantPermissions.VisibleIffObjectPermission | backend/core/tenant_permissions.py:27-37 | for a non-superuser with a school, a row is listed exactly when the object check lets the user open it |
| TenantPermissions.TenantTable.PerformCreate | backend/core/tenant_permissions.py:109-114 | the record is appended with the user's school; a user without one gets an error and the table is unchanged |
| TenantPermissions.TenantTable.PerformUpdate | backend/core/tenant_permissions.py:116-118 | the record is replaced and takes the user's school, whichever it had; no other row changes |
| TenantPermissions.TenantTable.PerformDestroy | backend/core/tenant_permissions.py:120-124 | a non-superuser may delete only a record of their own school, otherwise an error and no change; the other rows are kept in order |
| TenantPermissions.SavedRecordStaysVisible | backend/core/tenant_permissions.py:109-118 | a record a non-superuser with a school creates or updates stays visible to that user |
| Router.HashRoute | frontend/scripts/router.js:25 | hash.slice(1): the hash is its first character followed by the result, and an empty hash gives '' |
| Router.ExplicitPathWins | frontend/scripts/router.js:24-26 | a truthy path is the route, whatever the hash |
| Router.HashOrDashboard | frontend/scripts/router.js:25 | without a path, a hash longer than '#' names the route, and an empty hash or a bare '#' gives '/dashboard' |
| Router.UnknownRouteFallsBack | frontend/scripts/router.js:26 | a route that is not in the table loads the view of '/' |
| Router.KnownRouteLoadsItsView | frontend/scripts/router.js:5-26 | a route in the table loads its own view file |
| Router.RootIsDashboard | frontend/scripts/router.js:5-26 | '/' and '/dashboard' load the same view, which is what a bare URL loads |
| Router.NavigateLoadsAView | frontend/scripts/router.js:24-28 | every navigation hands loadView one of the table's view files |
| Router.InheritedRouteIsNoView | frontend/scripts/router.js:26 | as written, the hash '#constructor' makes the lookup return an inherited function, which is none of the view files, so the fallback to '/' is not taken |
| Router.AsWrittenAgrees | frontend/scripts/router.js:26 | away from inherited property names, the lookup as written and the own-entry lookup give the same file |
| UsernameMigration.FixAll | core/users/migrations/0003_fix_empty_usernames.py:16-26 | the migrated table has the same length, and each user in it is that user after the per-user repair |
| UsernameMigration.NewUsernameNonEmpty | core/users/migrations/0003_fix_empty_usernames.py:17-24 | a repaired username (the e-mail or user_<id>) is never empty |
| UsernameMigration.NoEmptyUsernameAfter | core/users/migrations/0003_fix_empty_usernames.py:10-26 | after the migration no user matches the filter: none has an empty or NULL username |
| UsernameMigration.RepairedUsername | core/users/migrations/0003_fix_empty_usernames.py:17-24 | a selected user with a non-empty e-mail gets it as username, one without gets user_<id>; id and e-mail are unchanged |
| UsernameMigration.OthersUntouched | core/users/migrations/0003_fix_empty_usernames.py:10-12 | users the filter does not select are left as they were, and running the migration a second time changes nothing |
| UsernameMigration.PlaceholdersDistinct | core/users/migrations/0003_fix_empty_usernames.py:24 | two users without e-mail and with different ids get different placeholder usernames |
| UsernameMigration.PlaceholderInjective | core/users/migrations/0003_fix_empty_usernames.py:24 | user_<a> and user_<b> differ when a and b do |
| UsernameMigration.UserTable.FixEmptyUsernames | core/users/migrations/0003_fix_empty_usernames.py:5-26 | the table afterwards is the migrated table, and the count reported is the number of users the filter selects |
| UsernameMigration.UserTable.ReverseFixEmptyUsernames | core/users/migrations/0003_fix_empty_usernames.py:29-31 | the reverse step leaves the table as it was |
| UsernameMigration.SelectedCountOf | core/users/migrations/0003_fix_empty_usernames.py:14 | the count printed at the start is the number of selected users |
| SyncConflicts.ResolveAttendanceConflict | backend/sync/conflicts.py:11-15 | the result is the client or the server record; it succeeds exactly when both are dicts and their marked_at values can be ordered; the client record is returned only when its marked_at is strictly greater |
| SyncConflicts.LastWriteWinsOnText | backend/sync/conflicts.py:13-15 | with ISO text timestamps (as here and in handle_sync_conflict of backend/attendance/services.py) the client wins exactly when its text sorts after the server's, and a tie keeps the server record |
| SyncConflicts.LastWriteWinsOnNumbers | backend/sync/conflicts.py:13-15 | with numeric timestamps a strictly newer client wins; a tie or an older client keeps the server record |
| SyncConflicts.MissingTimestampRaises | backend/sync/conflicts.py:13 | a client record without marked_at gives None, which cannot be compared, so the resolution raises |
| StudentViews.GradeBands | core/dashboard/student_views.py:309-320 | each letter is given for exactly its band of scores: A from 90, B from 80 below 90, C from 70 below 80, D from 60 below 70, F below 60 |
| StudentViews.GradeMonotone | core/dashboard/student_views.py:309-320 | a higher score never gets a lower letter |
| StudentViews.ForClass | core/dashboard/student_views.py:202-204 | on the intended page, the selected invoices are exactly the table's invoices of the student's class; as written the filter never runs (`StudentViews.AsWrittenFeesFail`) |
| StudentViews.Rows | core/dashboard/student_views.py:206-222 | one row per invoice, in order, each the row built from that invoice and the payments |
| StudentViews.StatusIff | core/dashboard/student_views.py:209-220 | a row is paid exactly when its completed payments equal the total, partial when they differ from it and are positive, pending when they differ and are not positive; outstanding is total minus paid |
| StudentViews.PaidCountsCompleted | core/dashboard/student_views.py:209-210 | a payment of another invoice or one that is not completed does not change the paid amount, wherever it is in the table |
| StudentViews.PaidPositive | core/dashboard/student_views.py:209-210 | with positive payment amounts the paid amount is never negative, and it is positive once the invoice has a completed payment |
| StudentViews.OverpaidShowsPartial | core/dashboard/student_views.py:211-220 | an invoice paid beyond its total shows as partial, with a negative outstanding amount |
| StudentViews.OutstandingIsSum | core/dashboard/student_views.py:239-241 | total invoiced minus total paid equals the sum of the rows' outstanding amounts |
| StudentViews.RowsOfClass | core/dashboard/student_views.py:202-222 | on the intended page, every row is the row of some invoice of the student's class; as written no row is built (`StudentViews.AsWrittenFeesFail`) |
| StudentViews.StudentApiFees | core/dashboard/student_views.py:196-254 | a page exactly when the user has a Student and Student declares `student_class`; otherwise 500 with "No Student matches the given query." or with the missing-attribute text |
| StudentViews.AsWrittenFeesFail | core/dashboard/student_views.py:199-204 | with the fields Student declares in core/users/models.py:56-78, every request is answered 500, a student's with "'Student' object has no attribute 'student_class'", and no row is ever returned |
| StudentViews.StudentFees | core/dashboard/student_views.py:196-254 | the intended page, as StudentApiFees builds it once Student has `student_class`: the rows are those of the class's invoices, each belongs to an invoice of the class, and the three totals are the sums over the rows, total_outstanding being the sum of outstanding amounts |
| StudentViews.InvoiceRows | core/dashboard/student_views.py:206-222 | the loop builds exactly one row per invoice, in order |
| AppJs.MatchEmailByIndex | static/js/app.js:181-182 | the e-mail test judges the text by its first '@': no white space, the '@' not first, no second '@', and a '.' after it with text on both sides |
| AppJs.OnlyAt | static/js/app.js:181 | an accepted address has exactly one '@' |
| AppJs.MatchEmailSound | static/js/app.js:181-182 | every text the e-mail test accepts is in the language of /^[^\s@]+@[^\s@]+\.[^\s@]+$/ |
| AppJs.MatchEmailComplete | static/js/app.js:181-182 | every text of the form local@domain.last, with each part non-empty and free of white space and '@', is accepted |
| AppJs.MatchEmailIff | static/js/app.js:181-182 | the e-mail test accepts exactly the language of the pattern |
| AppJs.EmailNeedsOneAt | static/js/app.js:181 | a text with no '@', or with two, never matches |
| AppJs.ToNumber | static/js/app.js:196-197 | the minlength attribute, converted for the comparison, is a number or NaN |
| AppJs.ValidIffAcceptable | static/js/app.js:170-205 | an input is valid exactly when its trimmed value passes every check: required, e-mail pattern, password length, minlength, the lengths counted in UTF-16 code units |
| AppJs.RequiredFailsFirst | static/js/app.js:174-177 | a required input whose value is all white space fails with the required message, whatever else is wrong with it |
| AppJs.BadEmailFails | static/js/app.js:180-186 | a non-empty e-mail value outside the pattern's language fails with the e-mail message |
| AppJs.ShortPasswordFails | static/js/app.js:189-192 | a non-empty password whose trimmed `length`, in UTF-16 code units, is below eight fails with the password message |
| AppJs.AstralPasswordPasses | static/js/app.js:189-192 | a password of four characters above U+FFFF is eight UTF-16 units long and passes |
| AppJs.MinLengthNumeric | static/js/app.js:195-200 | a minlength of decimal digits is compared as a number: the input passes exactly when its trimmed `length`, in UTF-16 code units, reaches it |
| AppJs.MinLengthNaN | static/js/app.js:195-200 | a minlength that is not a number compares false, so it never fails an input |
| AppJs.ValidateForm | static/js/app.js:154-168 | every input gets its verdict, in order; the submit is prevented exactly when some input is not acceptable, and then the danger alert is shown |
| AppJs.ForEachInput | static/js/app.js:158-162 | the loop gives each input's verdict in order, and the flag stays true exactly when every verdict is valid |
| AppJs.EachAllValid | static/js/app.js:155-162 | when a check passes exactly what a predicate accepts, its verdicts are all valid exactly when every input is accepted |
| AppJs.FormVerdicts | static/js/app.js:155-162 | a form's verdicts are all valid exactly when all its inputs are acceptable |
| AppJs.InitialTheme | static/js/app.js:7 | a saved non-empty theme wins; with none saved, or an empty one, the system's preference decides |
| AppJs.ToggleTwice | static/js/app.js:41-46 | toggling changes dark to light and back, so toggling twice restores the theme |
| AppJs.ToggleOtherTheme | static/js/app.js:42 | any other saved theme name toggles to dark, and from then on it alternates with light |
| AppJs.ThemeManager.constructor | static/js/app.js:6-15 | the manager starts with the saved or the system theme, applied to the page and the toggle button |
| AppJs.ThemeManager.ApplyTheme | static/js/app.js:21-31 | the theme is set and the dark-mode class is on exactly for dark; nothing else changes |
| AppJs.ThemeManager.UpdateToggleState | static/js/app.js:48-53 | with a toggle button, its text and pressed state follow the theme; without one nothing changes |
| AppJs.ThemeManager.ToggleTheme | static/js/app.js:41-46 | the theme is switched, saved to storage, and the page and the button follow it |
| AppJs.ThemeManager.SystemThemeChanged | static/js/app.js:55-61 | with no theme saved the page follows the system's new preference; with one saved nothing changes; the button is not refreshed |
| DbJs.KeyOrder | frontend/scripts/db.js:34 | IndexedDB's order on number and string keys is total and asymmetric |
| DbJs.KeyLessTrans | frontend/scripts/db.js:34 | the key order is transitive |
| DbJs.SortedDistinct | frontend/scripts/db.js:34 | a store kept in key order holds each key once (keyPath 'id') |
| DbJs.Find | frontend/scripts/db.js:94-103 | the position found holds the key; none is found only when no record has it |
| DbJs.Insert | frontend/scripts/db.js:68 | inserting adds exactly the new record to the store |
| DbJs.InsertSorted | frontend/scripts/db.js:68 | a record with a valid new key placed in order keeps the store sorted |
| DbJs.PutFacts | frontend/scripts/db.js:87 | store.put keeps the store sorted, get of the key then finds the new record, and every other key finds what it found before |
| DbJs.ReplaceFacts | frontend/scripts/db.js:87 | put over an existing key replaces only that record and keeps the store sorted |
| DbJs.ReplaceSorted | frontend/scripts/db.js:87 | a record replaced by one with the same key keeps the store sorted |
| DbJs.InsertFacts | frontend/scripts/db.js:68 | adding a new key keeps the store sorted, the new record is found, and other keys are unaffected |
| DbJs.InsertFindsNew | frontend/scripts/db.js:68 | the inserted record is found under its key |
| DbJs.InsertKeepsOthers | frontend/scripts/db.js:68 | other keys find what they found before the insert |
| DbJs.SortedFind | frontend/scripts/db.js:98 | in a sorted store a record's key finds that record |
| DbJs.FindAfterReplace | frontend/scripts/db.js:87 | a replacement leaves the lookup of other keys alone |
| DbJs.DeleteFacts | frontend/scripts/db.js:131-140 | store.delete keeps the store sorted, removes exactly the key's record and leaves every other key alone |
| DbJs.AbsentKey | frontend/scripts/db.js:98 | a key Find misses is held by no record |
| DbJs.MissingKey | frontend/scripts/db.js:98 | a key no record holds is missed by Find and get |
| DbJs.RemoveAtSorted | frontend/scripts/db.js:135 | removing one record keeps the store sorted |
| DbJs.RemoveAtMembers | frontend/scripts/db.js:135 | removing a record leaves exactly the records with other keys |
| DbJs.RemoveAtGet | frontend/scripts/db.js:135 | removing a record leaves the lookup of other keys alone |
| DbJs.SameKeySame | frontend/scripts/db.js:34 | in a sorted store two records with the same key are the same record |
| DbJs.CurrentSchool | frontend/scripts/db.js:311-318 | getCurrentSchoolId is the auth manager's school when truthy, else null |
| DbJs.TenantFilter | frontend/scripts/db.js:119-126 | getAllFromStore keeps exactly the records with no (falsy) schoolId or with the current school, and never more than it read |
| DbJs.Added | frontend/scripts/db.js:61-66 | addToStore's record keeps every caller field except id, schoolId and createdAt, which take the caller's value when truthy and otherwise a fresh id, the current school and now |
| DbJs.Updated | frontend/scripts/db.js:81-85 | updateInStore's record keeps every caller field except schoolId, filled in when falsy, and updatedAt, always stamped |
| DbJs.SpreadFields | frontend/scripts/db.js:179-191 | in the spread object the caller's fields win, the defaults fill only fields the caller lacks, and savedAt is always now |
| DbJs.SavedSessionFields | frontend/scripts/db.js:178-194 | the stored session keeps every caller field except the stamps and schoolId; status 'open', synced false, recordCount 0 and a fresh id appear only where the caller has no such field; schoolId is the caller's when truthy, else the current school |
| DbJs.SessionObjectFields | frontend/scripts/db.js:179-191 | saveSession's object before updateInStore: the same defaults, with the caller's schoolId when present |
| DbJs.SessionDefaultsFields | frontend/scripts/db.js:180-188 | the defaults are the caller's id or a fresh one, status or 'open', synced or false, recordCount or 0, schoolId or the current school |
| DbJs.SavedRecordFields | frontend/scripts/db.js:205-219 | the stored record keeps every caller field except the stamps and schoolId; remarks '', synced false and a fresh id appear only where the caller has no such field; schoolId is the caller's when truthy, else the current school |
| DbJs.SavedRecordKeeps | frontend/scripts/db.js:206-216 | any caller field other than savedAt, updatedAt and schoolId is kept as given |
| DbJs.SavedSessionKeeps | frontend/scripts/db.js:179-191 | any caller field other than savedAt, updatedAt and schoolId is kept as given |
| DbJs.RecordObjectFields | frontend/scripts/db.js:206-216 | saveAttendanceRecord's object before updateInStore: the same defaults, with the caller's schoolId when present |
| DbJs.RecordDefaultsFields | frontend/scripts/db.js:207-213 | the defaults are the caller's id or a fresh one, remarks or '', synced or false, schoolId or the current school |
| DbJs.IndexQuery | frontend/scripts/db.js:153-163 | index.getAll fails exactly when the value is not a valid key, and otherwise returns exactly the records whose field holds it |
| DbJs.WithField | frontend/scripts/db.js:158 | exactly the records whose field holds the value |
| DbJs.StudentAttendanceLimit | frontend/scripts/db.js:231-236 | getStudentAttendance returns the last `limit` visible records of the student; a limit of 0 returns them all and a negative one drops that many from the front |
| DbJs.SliceFromEnd | frontend/scripts/db.js:235 | slice(-n) keeps the last n elements for positive n, all for 0, and drops -n from the front for negative n |
| DbJs.UnsyncedAsWrittenFails | frontend/scripts/db.js:238-243 | querying the synced index with false is a DataError, so getUnsyncedRecords always fails |
| DbJs.NotSynced | frontend/scripts/db.js:239 | exactly the records whose synced is false |
| DbJs.Unsynced | frontend/scripts/db.js:238-243 | only unsynced, tenant-visible records of the store: the first `limit` of them |
| DbJs.ForSchool | frontend/scripts/db.js:329-337 | exactly the tenant-visible records whose schoolId is the given school, or the current one when none is given, and nothing when neither is truthy |
| DbJs.WithSchoolId | frontend/scripts/db.js:336 | exactly the records whose schoolId is strictly equal to the school |
| DbJs.ForSchoolDefault | frontend/scripts/db.js:329-337 | without a school id the result is empty; by default it is exactly the current school's records |
| DbJs.ForOtherSchoolEmpty | frontend/scripts/db.js:329-337 | an explicit school other than the current one gets nothing, since the tenant filter has already removed its records |
| DbJs.SyncedCopyFields | frontend/scripts/db.js:249-253 | the copy markRecordsSynced writes keeps its key, is synced and carries the time |
| DbJs.MarkOnePut | frontend/scripts/db.js:247-254 | the put made for a found record is the one-step change of the store |
| DbJs.MarkedSyncedFacts | frontend/scripts/db.js:245-255 | every listed record that exists is synced afterwards and every other record is as it was |
| DbJs.MarkOneStep | frontend/scripts/db.js:246-255 | one more id keeps the rest of the store as it was and syncs that id's record |
| DbJs.DeleteAllFacts | frontend/scripts/db.js:345-347 | deleting keys one after another keeps the store sorted and leaves exactly the records with other keys |
| DbJs.KeysOf | frontend/scripts/db.js:346 | one key per record, in order |
| DbJs.ClearedFacts | frontend/scripts/db.js:339-349 | clearForSchool leaves a sorted store holding exactly the records getForSchool did not return |
| DbJs.DeleteOwnKeys | frontend/scripts/db.js:345-347 | deleting the keys of some of a store's records removes exactly those records |
| DbJs.ValidStoresUpdate | frontend/scripts/db.js:11-14 | replacing one store by a sorted one keeps every store sorted |
| DbJs.UpdateTwice | frontend/scripts/db.js:87 | a later write to a store replaces an earlier one |
| DbJs.IndexedDb.constructor | frontend/scripts/db.js:6-53 | init creates every store empty |
| DbJs.IndexedDb.GetAll | frontend/scripts/db.js:105-129 | a known store answers exactly its tenant-visible records; an unknown one is an error |
| DbJs.IndexedDb.AddToStore | frontend/scripts/db.js:55-73 | an unknown store or a refused add changes nothing and gives the error; otherwise the filled-in record is added and its key returned |
| DbJs.IndexedDb.UpdateInStore | frontend/scripts/db.js:75-92 | an unknown store or a refused put changes nothing; otherwise the stamped record is put and its key returned |
| DbJs.IndexedDb.SaveSession | frontend/scripts/db.js:178-194 | the attendanceSessions store becomes the put of the saved session, or is unchanged when the put fails |
| DbJs.IndexedDb.SaveAttendanceRecord | frontend/scripts/db.js:205-219 | the attendanceRecords store becomes the put of the saved record, or is unchanged when the put fails |
| DbJs.IndexedDb.DeleteFromStore | frontend/scripts/db.js:131-140 | an unknown store is a NotFoundError; a value that is no valid key (a boolean, null) a DataError; otherwise the key is deleted and the result is true, found or not |
| DbJs.IndexedDb.MarkRecordsSynced | frontend/scripts/db.js:245-257 | the count returned is the number of ids given, found or not, and only the attendanceRecords store changes, to its synced form |
| DbJs.IndexedDb.SyncAll | frontend/scripts/db.js:246-255 | the loop over the ids gives the synced store |
| DbJs.IndexedDb.SyncOne | frontend/scripts/db.js:247-254 | a found record is put back synced and a missing one changes nothing |
| DbJs.IndexedDb.ClearForSchool | frontend/scripts/db.js:339-349 | without a school id it throws and changes nothing; an unknown store is an error; otherwise getForSchool's records are deleted, exactly those, and their count returned |
| DbJs.IndexedDb.DeleteKeys | frontend/scripts/db.js:345-347 | the store becomes the store with the keys deleted one after another |
| SyncJs.UnknownActionFails | frontend/scripts/sync.js:134-136 | an action other than the three known ones returns false without a request, a failed attempt |
| SyncJs.KnownActionOutcome | frontend/scripts/sync.js:121-153 | a known action returns true exactly when the response is ok; a failure is thrown exactly when online, with "HTTP <status>" as the message, and returns false while offline |
| SyncJs.RemoveId | frontend/scripts/sync.js:89 | the filter never lengthens the queue |
| SyncJs.BumpId | frontend/scripts/sync.js:93 | bumping a retry count keeps the queue's length |
| SyncJs.RunStep | frontend/scripts/sync.js:84-104 | the loop over j + 1 items is the loop over j items and one more iteration |
| SyncJs.Snapshot | frontend/scripts/sync.js:77-78 | exactly the queued items whose schoolId is strictly equal to the current school |
| SyncJs.Resolved | frontend/scripts/sync.js:84-104 | the queue after a pass never grows |
| SyncJs.RemoveIdConcat | frontend/scripts/sync.js:89 | removing an id distributes over concatenation |
| SyncJs.BumpIdConcat | frontend/scripts/sync.js:93 | bumping an id distributes over concatenation |
| SyncJs.QueueStepConcat | frontend/scripts/sync.js:86-103 | one iteration's change to the queue distributes over concatenation |
| SyncJs.QueueStepAbsent | frontend/scripts/sync.js:86-103 | an iteration for an id the queue does not hold changes nothing |
| SyncJs.SettledIds | frontend/scripts/sync.js:86-103 | attempting items adds no new ids to the queue |
| SyncJs.SettledIgnores | frontend/scripts/sync.js:86-103 | an id not in the queue does not affect what the pass leaves |
| SyncJs.DistinctTail | frontend/scripts/sync.js:268-271 | the rest of a queue with distinct ids has distinct ids and none equal to the first |
| SyncJs.StepSettles | frontend/scripts/sync.js:86-103 | one iteration settles exactly the item it attempts |
| SyncJs.DistinctInit | frontend/scripts/sync.js:84 | the items before the last have distinct ids, none the last's |
| SyncJs.RunSettles | frontend/scripts/sync.js:84-104 | the loop over distinct queued items settles exactly those items |
| SyncJs.SettledNone | frontend/scripts/sync.js:84 | settling nothing leaves the queue as it was |
| SyncJs.SettledResolved | frontend/scripts/sync.js:77-104 | settling exactly the current school's items is the element-by-element rule |
| SyncJs.SnapshotDistinct | frontend/scripts/sync.js:77-78 | the snapshot keeps ids distinct, and holds an item's id exactly when the item is of the current school |
| SyncJs.SameIdSame | frontend/scripts/sync.js:268-271 | in a queue with distinct ids, two items with one id are the same item |
| SyncJs.DistinctCons | frontend/scripts/sync.js:78 | an item with a new id keeps ids distinct |
| SyncJs.SnapshotDistinctIds | frontend/scripts/sync.js:78 | filtering keeps ids distinct |
| SyncJs.PassQueue | frontend/scripts/sync.js:77-104 | the pass's in-memory queue is: other schools' items unchanged, current items dropped or kept with one more retry by their own attempt |
| SyncJs.PassStore | frontend/scripts/sync.js:84-104 | the persisted queue loses exactly the synced items' keys, and the error count is the number of throws and exhausted false results |
| SyncJs.SyncedKeysOf | frontend/scripts/sync.js:87-90 | a key is deleted exactly when an attempted item with that id synced |
| SyncJs.ResolvedKeeps | frontend/scripts/sync.js:86-103 | an item of another school stays; one of the current school that is retried stays with its count bumped |
| SyncJs.ResolvedDrops | frontend/scripts/sync.js:86-97 | an item that synced or used up its retries leaves the queue |
| SyncJs.ResolvedIds | frontend/scripts/sync.js:84-104 | the pass adds no new ids |
| SyncJs.OtherSchoolUntouched | frontend/scripts/sync.js:77-78 | an item of another school is not attempted and stays queued unchanged |
| SyncJs.SyncedLeaves | frontend/scripts/sync.js:86-91 | an item the server accepted leaves the in-memory queue and the persisted store |
| SyncJs.ExhaustedStaysPersisted | frontend/scripts/sync.js:92-98 | a false result reaching maxRetries (3) drops the item from memory while its persisted record stays |
| SyncJs.FateRetried | frontend/scripts/sync.js:92-103 | a throw, or a false result below the limit, keeps the item with one more retry |
| SyncJs.RetriedStaysQueued | frontend/scripts/sync.js:92-103 | a false result below the limit, and any throw whatever the count, keep the item queued with one more retry |
| SyncJs.HandleConflictWinner | frontend/scripts/sync.js:207-219 | the local record wins exactly when both dates parse and the local one is strictly later; ties and unparsable dates keep the server's |
| SyncJs.HandleConflictAgreesWithBackend | frontend/scripts/sync.js:207-219 | on numeric timestamps handleConflict and the backend's resolve_attendance_conflict pick the same record |
| SyncJs.MissingLocalTime | frontend/scripts/sync.js:209-217 | without a local timestamp the browser keeps the server's record, where the backend raises |
| SyncJs.ItemRecord | frontend/scripts/sync.js:42-50 | the persisted change carries the item's id as key, its retry count, status and school |
| SyncJs.NewItem | frontend/scripts/sync.js:40-50 | a new change is pending, with retryCount 0, the current school, the given id, action, data and timestamp |
| SyncJs.QueuedIsAttempted | frontend/scripts/sync.js:40-78 | a change queued while the school stays the same is in the next pass's snapshot, unless the school is an object |
| SyncJs.SyncManager.constructor | frontend/scripts/sync.js:6-15 | a new manager has an empty queue, is not syncing and has no last sync time |
| SyncJs.SyncManager.QueueChange | frontend/scripts/sync.js:40-59 | exactly one new pending item is appended to the queue and added to the persisted store; a failed write leaves the store unchanged |
| SyncJs.SyncManager.SyncOne | frontend/scripts/sync.js:85-103 | one iteration changes the queue and the persisted store as the step says and reports whether the item joins the errors |
| SyncJs.SyncManager.SyncPending | frontend/scripts/sync.js:68-117 | while syncing or with an empty queue nothing changes; otherwise the queue, the persisted store and the notice are the pass's, isSyncing is false and lastSyncTime is now |

## Left out

External code and I/O:
- HTTP and network calls: the M-Pesa token fetch, STK push and status query, the Africa's Talking and Twilio requests, and every `fetch` of the browser scripts. Their answers are parameters.
- The HMAC check of `verify_mpesa_signature` (RFC 2104) and the Base64 STK password (section 4 of RFC 4648): foreign cryptography.
- ORM plumbing: querysets, `transaction.atomic`, and unique constraints beyond those the model keeps as invariants. Each service call is all-or-nothing over in-memory tables.
- Exceptions that only a database fault could raise. One exception path is kept: a fee structure listed in `faults` stands for a structure whose loop body raises an ordinary exception, not a database error, before it creates its first invoice; its message is recorded and generation goes on with the next structure.
- FeeServices.Generate: a structure that raises after creating some of its invoices keeps them, with `created` counting them, in the source (core/fees/services.py:60-105); in the model a failing structure raises before its first invoice.
- FeeServices.Fault: Django's FieldError goes on after its first sentence with "Choices are:" and the names of Student's fields and reverse relations. Those depend on models outside this model, so the recorded message is the first sentence only.
- FeeServices.AccountByPhone: `icontains` folds ASCII letters only, as SQLite's LIKE does when DATABASE_URL is unset. On PostgreSQL (config/settings.py:118-126) it compares UPPER() of both sides, which also folds other letters. The same holds for the receipt search of PaymentsViews.ReferenceFallbackGuard.
- FeeServices.Generate: on PostgreSQL (config/settings.py:118-126) a database error inside the outer `transaction.atomic()` aborts the transaction. The inner `except` records it and the loop goes on, but every later query fails and the whole block rolls back, while `created` still counts the invoices that were lost (core/fees/services.py:50-105). The model has no database errors, so it does not capture this.
- Concurrency and `await` interleavings in the browser scripts. The syncItem timeout and retry timer, `setInterval`, `navigator.onLine` and online/offline events are also left out; sync passes run one at a time.
- Floating point: attendance rates and percentages are stated on integer counts; float CSV sums; `int(amount)` in the STK payload. `StudentViews.Grade` takes its score as a real. `AttendanceModels.PercentagesOfTwo` proves the two percentages sum to exactly 100 over reals, where Python's `(count / total) * 100` in floats can miss it (1 of 3 and 2 of 3 give 99.99999999999999).

Scheduling, templates and UI:
- Celery scheduling. `self.retry` is recorded as the countdown it asks for.
- Template rendering and e-mail bodies. Because of the unimported `models`, rendering always falls back to the notification's own title and message.
- The DOM, showAlert/showError, themes' CSS classes and animations. loadView's fetch and its fallback page are left out, as are Router init.
- The login token generation, `authenticate` itself, logout and current_school in `backend/api/auth.py`.

Operations not modelled as members:
- The attendance service's get_current_term and prepare_for_sync are ORM lookups.
- The attendance service's close_session only calls `AttendanceSession.mark_closed`, which `AttendanceModels` models.
- check_attendance_exceptions is `AttendanceException.covers_date`, which the attendance records model.
- In db.js: getSessions, getSessionAttendance, queryRange, saveClasses, saveStudents, getSize, clearAll, clear and the status getter. They are store plumbing without rules of their own.
- In attendance-controller.js: loadSession's and loadStudents' fetches, syncToServer, closeSession, filterStudents, updateSyncStatus and the remarks input handler. These are I/O or DOM work; the lookup of the saved session is modelled.
- getPendingSyncCount in sync.js.
- `static/js/main.js:172-174` repeats the e-mail pattern modelled for `static/js/app.js`.
- The notification batch's write-back of each log, and the handlers `handle_deleted_record` and `log_conflict`. They do no more than log.

Simplifications:
- JavaScript numbers are integers, and NaN is a value of its own.
- The controller keeps its marks in the order they were first made. `Object.entries` lists integer-like keys in ascending order first, so the order of the saved records may differ from the model's.
- StudentViews.StudentFees: on the intended page the payment history (the last 20 completed payments) is left out, and the invoice rows come in table order rather than newest first. Amounts stay integer cents rather than floats.

The browser's sync script as written:
- `frontend/scripts/sync.js` does not parse. Lines 41, 62, 69, 120, 157, 179, 196, 208, 222, 232, 252, 269, 274, 284 and 295 open methods with Python-style `"""…"""` docstrings, which JavaScript reads as adjacent string literals, a SyntaxError. The file never loads and `window.syncManager` stays undefined, so saveAttendance throws at `attendance-controller.js:307` after the records and the session are stored and before anything is queued, and its catch shows "Error saving attendance". `SyncJs` models the statements of that file as if the docstrings were comments, and `AttendanceJs.SaveAttendance` queues the batch as if the manager existed.

Contracts weaker than the source:
- FeeViews.DecimalCents: an amount finer than a cent (such as "100.505") and Decimal's Infinity and NaN are answered as an exception, a 500 reply with ResultCode 1, because money here is integer cents. Where the source hands such an amount on to the callback service, the rounding of the fees models' decimal fields is not part of this model.
- FeeViews.HandleWebhook: the same holds for the webhook as a whole; every amount that is a whole number of cents, as an int or as a decimal string with blanks, underscores or an exponent, is handed on as in the source. A JSON number with a fraction, such as 100.5, is not modelled: the model's JSON values hold integers only, so FeeViews.DecimalCents never receives one, where the source reads `Decimal(str(100.5))` as 100.5 and hands it on.
- Json.PyInt: int() also accepts decimal digits outside ASCII (such as Arabic-Indic digits), which the model refuses; its digits are '0' to '9'. The same holds for `TenantPermissions.IntOf`, `AuthApi.SwitchStep`, `PaymentsViews.AccountInvoice` and, for Decimal, `Json.TextCents`. From Python 3.11 on, int() also refuses a text of more than 4300 digits, which the model converts.
- AuthApi.Field: a request body that is not a dict (a JSON list or string) reads as having no fields, so the login and switch steps answer 400 where `request.data.get` raises AttributeError and the view fails with a 500.
- NotifServices.SmsDelivery: for a null message the stored text is SQLite's IntegrityError. On PostgreSQL it reads 'null value in column "error_message" ... violates not-null constraint' with a DETAIL line, which the model does not spell out.
- NotifServices.Dispatch: dispatching the same notification twice appends a second SMS or e-mail log for it; the OneToOne fields of `core/notifications/models.py:178` and `:248` would make that second insert raise.
- AppJs.ToNumber: Number()'s hexadecimal, octal and binary forms ("0x10"), exponents ("1e1"), fractions and "Infinity" are read as NaN, since the model's numbers are integers written in decimal.
- AttendanceJs.SaveAttendance: the `await this.syncManager.syncPending()` that runs when online (`attendance-controller.js:316-318`) is not part of the method. It is `SyncJs.SyncManager.SyncPending`, run on its own.
- AttendanceServices.UnsyncedRecords: rows with the same marked_at come in creation order, where the database leaves their order open. The same holds for AttendanceServices.WithStatusOn and for the order of the lines of AttendanceServices.GenerateAttendanceReport, which both read the rows newest first.
- Json.PyRepr: a dict's entries are shown in ascending key order, where Python keeps the order of the JSON text. Characters above U+00FF that Python finds unprintable, and so escapes, are shown as they are; this also holds for the text in TenantPermissions.IntOf's message.
- Json.PyGreater: two lists compare element by element in Python; the model refuses list against list with the TypeError text, so a conflict whose two marked_at values are lists raises in the model and is resolved in the source.
- MpesaIntegration.Fill: Python's dict treats True and 1, and False and 0, as the same key, while the model's map keeps `JBool(true)` and `JInt(1)` apart; items whose names differ only that way fill one entry in the source and two in the model.
- UsernameMigration.UserTable.FixEmptyUsernames: the unique constraint on username is not modelled. In the source, a repaired username that another user already has (an e-mail used as someone's username, or a taken `user_<id>`) makes the save raise and the migration fail; the model stores it.

## Findings

| source | as written | input that shows it | evidently intended | confidence | as-written member | corrected member |
|---|---|---|---|---|---|---|
| core/notifications/tasks.py:20-33 | `self.retry(...)` raises Celery's Retry inside the per-log `try`, whose `except Exception` counts the log as failed a second time | one queued SMS that the provider refuses and that may still be retried: the batch reports 0 sent and 2 failed for 1 log | each log is counted once, so sent + failed is the number of logs | not executed | NotifTasks.TallyAsWritten, NotifTasks.SmsTallyDoubleCounts | NotifTasks.Tally, NotifTasks.TallyAsWrittenOvercounts |
| core/notifications/tasks.py:52-65 | the same `self.retry(...)` inside the e-mail loop's `try` counts a refused e-mail that may be retried as failed twice | one queued e-mail whose send_mail raises: the batch reports 0 sent and 2 failed for 1 log | each log is counted once, so sent + failed is the number of logs | not executed | NotifTasks.TallyAsWritten, NotifTasks.EmailTallyDoubleCounts | NotifTasks.Tally, NotifTasks.TallyAsWrittenOvercounts |
| frontend/scripts/db.js:238-243 | getUnsyncedRecords queries the `synced` index with the key `false`, and a boolean is not a valid IndexedDB key | any store, e.g. one holding an unsynced record: the query is rejected with a DataError | the first `limit` tenant-visible records whose `synced` is false | not executed | DbJs.UnsyncedAsWritten, DbJs.UnsyncedAsWrittenFails | DbJs.Unsynced |
| frontend/scripts/attendance-controller.js:115 | loadSession compares the select's string `classId` with `===` against the number saveAttendance stored through parseInt | a session saved for class "3" on a date: loading class "3" on that date again does not find it | the lookup compares the class id as saveAttendance stores it | not executed | AttendanceJs.FindSessionAsWritten, AttendanceJs.SavedSessionNeverFound | AttendanceJs.FindSession, AttendanceJs.SavedSessionFound |
| core/dashboard/student_views.py:202-204 | student_api_fees reads `student.student_class`, a field the Student of core/users/models.py:56-78 does not declare | any user with a Student: the except answers 500 with "'Student' object has no attribute 'student_class'" and no invoice rows | the page lists the invoices of the student's class with paid, outstanding, status and totals | not executed | StudentViews.StudentApiFees, StudentViews.AsWrittenFeesFail | StudentViews.StudentFees, StudentViews.RowsOfClass |
| frontend/scripts/router.js:26 | `routes[route]` on a plain object also finds inherited properties | the URL hash `#constructor`: loadView receives the Object constructor instead of a view file | only the table's own routes count, and anything else falls back to `routes['/']` | not executed | Router.FilePathAsWritten, Router.InheritedRouteIsNoView | Router.FilePath, Router.NavigateLoadsAView |
