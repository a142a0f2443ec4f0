// The request validators and display fields of core/fees/serializers.py:
// the override type, the arrears display, the batch-generation and payment
// validators, and the webhook validator. Field-level type coercion done by the
// REST framework itself (integer and decimal parsing, digit limits) is not part
// of this model: requests arrive with typed fields.

module FeeSerializers {
  import opened Common
  import opened Json
  import opened FeeServices
  import opened FeeViews

  // ---------------------------------------------------------------------------
  // Display fields

  /** StudentFeeOverrideSerializer.get_override_type */
  function OverrideType(o: FeeOverride): (r: string)
    ensures r == "WAIVED" <==> o.overrideAmount.None?
    ensures r == "WAIVED" || r == "DISCOUNTED"
  {
    if o.overrideAmount.None? then "WAIVED" else "DISCOUNTED"
  }

  /** The type shown for an override agrees with what generation charges: nothing when waived, the override amount otherwise. */
  lemma OverrideTypeMatchesCharge(overrides: seq<FeeOverride>, studentId: nat, termId: nat, fs: FeeStructure)
    requires OverrideFor(overrides, studentId, termId, fs.id).Some?
    ensures var o := OverrideFor(overrides, studentId, termId, fs.id).value;
      (OverrideType(o) == "WAIVED" ==> InvoiceAmount(overrides, studentId, termId, fs) == 0) &&
      (OverrideType(o) == "DISCOUNTED" ==> InvoiceAmount(overrides, studentId, termId, fs) == o.overrideAmount.value)
  {
  }

  /** ArrearsSerializer.get_is_resolved_display */
  function IsResolvedDisplay(row: Arrears): (r: string)
    ensures r == "Resolved" <==> row.isResolved
    ensures r == "Resolved" || r == "Outstanding"
  {
    if row.isResolved then "Resolved" else "Outstanding"
  }

  /** A row returned by the resolve action displays as resolved. */
  lemma ResolvedRowDisplay(b: Books, userSchool: Option<nat>, showResolved: Option<string>, rowIndex: nat,
                           notes: Option<string>, now: int)
    requires ResolveStep(b, userSchool, showResolved, rowIndex, notes, now).result.Some?
    ensures IsResolvedDisplay(ResolveStep(b, userSchool, showResolved, rowIndex, notes, now).result.value) == "Resolved"
  {
  }

  // ---------------------------------------------------------------------------
  // BatchInvoiceGenerationSerializer

  datatype FieldError = FieldError(field: string, message: string)

  datatype BatchGenerationRequest = BatchGenerationRequest(termId: int, schoolId: int, classId: Option<int>)

  /** The validated data: the request's fields plus the term and school that were looked up. */
  datatype ValidatedGeneration = ValidatedGeneration(termId: int, schoolId: int, classId: Option<int>, term: nat, school: nat)

  /** BatchInvoiceGenerationSerializer.validate: the term is looked up first, then the school. */
  function ValidateGeneration(req: BatchGenerationRequest, terms: set<nat>, schools: set<nat>): (r: Result<ValidatedGeneration, FieldError>)
    ensures r.Ok? <==> req.termId >= 0 && req.termId as nat in terms && req.schoolId >= 0 && req.schoolId as nat in schools
    ensures r.Ok? ==> r.value == ValidatedGeneration(req.termId, req.schoolId, req.classId, req.termId as nat, req.schoolId as nat)
  {
    if req.termId < 0 || req.termId as nat !in terms then Err(FieldError("term_id", "Term not found"))
    else if req.schoolId < 0 || req.schoolId as nat !in schools then Err(FieldError("school_id", "School not found"))
    else Ok(ValidatedGeneration(req.termId, req.schoolId, req.classId, req.termId as nat, req.schoolId as nat))
  }

  /** A missing term is the error reported, whatever the school; a missing school is reported only for a known term. */
  lemma GenerationErrorOrder(req: BatchGenerationRequest, terms: set<nat>, schools: set<nat>)
    ensures req.termId < 0 || req.termId as nat !in terms ==>
      ValidateGeneration(req, terms, schools) == Err(FieldError("term_id", "Term not found"))
    ensures req.termId >= 0 && req.termId as nat in terms && (req.schoolId < 0 || req.schoolId as nat !in schools) ==>
      ValidateGeneration(req, terms, schools) == Err(FieldError("school_id", "School not found"))
  {
  }

  // ---------------------------------------------------------------------------
  // RecordPaymentSerializer

  const PaymentMethods: seq<string> := ["mpesa", "bank", "cash", "check"]

  datatype PaymentRequest = PaymentRequest(invoiceId: int, amount: int, paymentMethod: string, reference: Option<string>)

  /** The validated data, with the invoice attached. */
  datatype ValidatedPayment = ValidatedPayment(invoiceId: nat, amount: int, paymentMethod: string, reference: Option<string>, invoice: Invoice)

  /** A Decimal with two places as str() prints it, from cents. */
  function CentsText(cents: int): string
  {
    var m: nat := if cents < 0 then -cents else cents;
    var c := m % 100;
    (if cents < 0 then "-" else "") + NatToString(m / 100) + "." + [('0' as int + c / 10) as char, ('0' as int + c % 10) as char]
  }

  /** The field-level errors: the choice of method and validate_amount, collected together. */
  function PaymentFieldErrors(req: PaymentRequest): (r: map<string, string>)
    ensures "amount" in r <==> req.amount <= 0
    ensures "payment_method" in r <==> req.paymentMethod !in PaymentMethods
    ensures r.Keys <= {"amount", "payment_method"}
  {
    var m1: map<string, string> := if req.amount <= 0 then map["amount" := "Amount must be greater than 0"] else map[];
    if req.paymentMethod in PaymentMethods then m1
    else m1["payment_method" := "\"" + req.paymentMethod + "\" is not a valid choice."]
  }

  /**
   * RecordPaymentSerializer.is_valid: field errors first; validate() only runs
   * on clean fields and looks the invoice up, then compares with its balance.
   */
  function ValidatePayment(req: PaymentRequest, invoices: seq<Invoice>): (r: Result<ValidatedPayment, map<string, string>>)
    ensures r.Ok? <==>
      req.amount > 0 && req.paymentMethod in PaymentMethods &&
      0 <= req.invoiceId < |invoices| && req.amount <= invoices[req.invoiceId].balance
    ensures r.Ok? ==>
      r.value.invoiceId == req.invoiceId && r.value.amount == req.amount && r.value.invoice == invoices[req.invoiceId] &&
      r.value.paymentMethod == req.paymentMethod && r.value.reference == req.reference
    ensures r.Err? && PaymentFieldErrors(req) == map[] && !(0 <= req.invoiceId < |invoices|) ==>
      r.error == map["invoice_id" := "Invoice not found"]
  {
    var fieldErrors := PaymentFieldErrors(req);
    if fieldErrors != map[] then
      assert "amount" in fieldErrors || "payment_method" in fieldErrors;
      Err(fieldErrors)
    else if !(0 <= req.invoiceId < |invoices|) then Err(map["invoice_id" := "Invoice not found"])
    else
      var inv := invoices[req.invoiceId];
      if req.amount > inv.balance then Err(map["amount" := "Payment exceeds balance of " + CentsText(inv.balance)])
      else Ok(ValidatedPayment(req.invoiceId as nat, req.amount, req.paymentMethod, req.reference, inv))
  }

  /** An amount equal to the balance is accepted; one cent more is refused with the balance in the message. */
  lemma PaymentBoundary(invoices: seq<Invoice>, id: nat, pm: string)
    requires id < |invoices| && invoices[id].balance > 0 && pm in PaymentMethods
    ensures ValidatePayment(PaymentRequest(id, invoices[id].balance, pm, None), invoices).Ok?
    ensures ValidatePayment(PaymentRequest(id, invoices[id].balance + 1, pm, None), invoices) ==
      Err(map["amount" := "Payment exceeds balance of " + CentsText(invoices[id].balance)])
  {
    var req := PaymentRequest(id, invoices[id].balance + 1, pm, None);
    assert PaymentFieldErrors(req) == map[];
  }

  /** A request the serializer accepts passes record_payment's own checks, so the view records it. */
  lemma ValidatedPaymentIsRecorded(dir: Directory, b: Books, req: PaymentRequest, user: Option<nat>, now: int)
    requires ValidatePayment(req, b.invoices).Ok?
    ensures var v := ValidatePayment(req, b.invoices).value;
      RecordPaymentStep(dir, b, v.invoiceId, v.amount, v.paymentMethod,
                        if v.reference.Some? then v.reference.value else "", user, now).result.Ok?
  {
  }

  // ---------------------------------------------------------------------------
  // MpesaWebhookSerializer

  /**
   * MpesaWebhookSerializer.is_valid: Result and Body, where present, must be
   * dicts; then at least one of them must be a non-empty dict.
   */
  /** DRF's text for a null given to a field that does not allow null. */
  const NullFieldError: string := "This field may not be null."

  /** The error of a DictField given something other than a dict. */
  function DictFieldError(v: Value): string
  {
    if v.JNull? then NullFieldError
    else "Expected a dictionary of items but got type \"" + TypeName(v) + "\"."
  }

  /** The field-level errors of the two optional dict fields, collected together. */
  function WebhookFieldErrors(data: map<string, Value>): (r: map<string, string>)
    ensures "Result" in r <==> "Result" in data && !data["Result"].JObj?
    ensures "Body" in r <==> "Body" in data && !data["Body"].JObj?
    ensures r.Keys <= {"Result", "Body"}
    ensures forall k :: k in r ==> k in data && (r[k] == NullFieldError <==> data[k].JNull?)
  {
    var m1: map<string, string> := if "Result" in data && !data["Result"].JObj? then map["Result" := DictFieldError(data["Result"])] else map[];
    if "Body" in data && !data["Body"].JObj? then m1["Body" := DictFieldError(data["Body"])] else m1
  }

  /**
   * MpesaWebhookSerializer.is_valid: Result and Body, where present, must be
   * dicts; then validate() demands that at least one of them is a non-empty dict.
   */
  function ValidateWebhook(data: map<string, Value>): (r: Result<map<string, Value>, map<string, string>>)
    ensures r.Ok? <==>
      ("Result" in data ==> data["Result"].JObj?) && ("Body" in data ==> data["Body"].JObj?) &&
      (("Result" in data && Truthy(data["Result"])) || ("Body" in data && Truthy(data["Body"])))
    ensures r.Ok? ==> (forall k :: k in r.value <==> k in data && (k == "Result" || k == "Body")) &&
                      (forall k :: k in r.value ==> r.value[k] == data[k])
    ensures WebhookFieldErrors(data) != map[] ==> r == Err(WebhookFieldErrors(data))
    ensures WebhookFieldErrors(data) == map[] && r.Err? ==> r.error == map["non_field_errors" := "Invalid M-Pesa webhook data"]
  {
    var fieldErrors := WebhookFieldErrors(data);
    if fieldErrors != map[] then
      assert "Result" in fieldErrors || "Body" in fieldErrors;
      Err(fieldErrors)
    else if !("Result" in data && Truthy(data["Result"])) && !("Body" in data && Truthy(data["Body"])) then
      Err(map["non_field_errors" := "Invalid M-Pesa webhook data"])
    else Ok(map k | k in data && (k == "Result" || k == "Body") :: data[k])
  }

  /** Data this validator accepts is never answered as an unknown format by the webhook handler. */
  lemma AcceptedWebhookHasKnownFormat(data: map<string, Value>)
    requires ValidateWebhook(data).Ok?
    ensures ReadPayload(data) != Ok(UnknownFormat)
  {
  }
}
