// The fee endpoints of core/fees/views_api.py that carry rules of their own:
// the M-Pesa webhook's payload parsing, retry_match, mark_paid, the arrears
// queryset, resolve and statistics, and the batch creation of fee structures.
//
// Each endpoint that writes is a method over a FeeLedger, specified by a pure
// step function over the ledger's snapshots; the lemmas are about those
// functions. The requesting user is represented by the school the user is
// bound to: a filter on `school=user.school` with no school matches the rows
// whose school is unset, as the ORM does for a comparison with None.

module FeeViews {
  import opened Common
  import opened Json
  import opened FeeServices

  // ---------------------------------------------------------------------------
  // mpesa_webhook_handler

  /** The JSON answer of the webhook: HTTP status, ResultCode and ResultDesc. */
  datatype WebhookReply = WebhookReply(httpStatus: int, resultCode: int, resultDesc: string)

  /** The arguments handed on to process_mpesa_callback. */
  datatype CallbackArgs = CallbackArgs(transactionId: Option<string>, amount: int, phoneNumber: string, referenceText: Option<string>)

  /** What the payload asks for, when reading it raised nothing. */
  datatype Payload = Callback(args: CallbackArgs) | FailedPayment | UnknownFormat

  /** The text of the TypeError raised by `item['Name']` on a value that is not a dict. */
  function NotSubscriptable(v: Value): string
    requires !v.JObj?
  {
    match v
    case JList(_) => "list indices must be integers or slices, not str"
    case JStr(_) => StrIndexError
    case _ => "'" + TypeName(v) + "' object is not subscriptable"
  }

  /** An item the comprehension `{item['Name']: item['Value'] ...}` accepts. */
  predicate GoodItem(item: Value)
  {
    item.JObj? && "Name" in item.fields && "Value" in item.fields && Hashable(item.fields["Name"])
  }

  /**
   * The dict comprehension over a list of items, left to right: the key is
   * evaluated, then the value, then the pair is inserted, so a later item with
   * the same Name replaces an earlier one.
   */
  function ItemMap(acc: map<Value, Value>, items: seq<Value>): (r: Result<map<Value, Value>, string>)
    ensures (forall i :: 0 <= i < |items| ==> GoodItem(items[i])) ==> r.Ok?
    decreases |items|
  {
    if items == [] then Ok(acc)
    else
      var item := items[0];
      if !item.JObj? then Err(NotSubscriptable(item))
      else if "Name" !in item.fields then Err("'Name'")
      else if "Value" !in item.fields then Err("'Value'")
      else if !Hashable(item.fields["Name"]) then Err("unhashable type: '" + TypeName(item.fields["Name"]) + "'")
      else ItemMap(acc[item.fields["Name"] := item.fields["Value"]], items[1..])
  }

  /** The Value of the last good item named `key`: the reference reading of the comprehension. */
  function LastValue(items: seq<Value>, key: Value): Option<Value>
    decreases |items|
  {
    if items == [] then None
    else
      match LastValue(items[1..], key)
      case Some(v) => Some(v)
      case None =>
        if GoodItem(items[0]) && items[0].fields["Name"] == key then Some(items[0].fields["Value"]) else None
  }

  lemma {:induction false} ItemMapLastWins(acc: map<Value, Value>, items: seq<Value>, key: Value)
    requires forall i :: 0 <= i < |items| ==> GoodItem(items[i])
    ensures ItemMap(acc, items).Ok?
    ensures var m := ItemMap(acc, items).value;
      match LastValue(items, key)
      case Some(v) => key in m && m[key] == v
      case None => (key in m <==> key in acc) && (key in acc ==> m[key] == acc[key])
    decreases |items|
  {
    if items != [] {
      var item := items[0];
      ItemMapLastWins(acc[item.fields["Name"] := item.fields["Value"]], items[1..], key);
    }
  }

  /** `for item in checkout_detail` feeding the comprehension: only a list, or an empty string or dict, gets through. */
  function Details(v: Value): Result<map<Value, Value>, string>
  {
    match v
    case JList(items) => ItemMap(map[], items)
    case JStr(s) => if s == "" then Ok(map[]) else Err(StrIndexError)
    case JObj(fields) => if fields == map[] then Ok(map[]) else Err(StrIndexError)
    case _ => Err("'" + TypeName(v) + "' object is not iterable")
  }

  /** details.get(key, default) */
  function Lookup(m: map<Value, Value>, key: string, default: Value): Value
  {
    if JStr(key) in m then m[JStr(key)] else default
  }

  /**
   * What a CharField makes of a value handed on without str(), as the receipt
   * number and the reference text are: None stays None (NULL), anything else
   * becomes its str().
   */
  function CharFieldText(v: Value): Option<string>
  {
    if v.JNull? then None else Some(PyStr(v))
  }

  /**
   * Decimal(str(v)) in cents. An int is read as whole shillings and a string
   * by the Decimal grammar; str() of anything else is a word or, for a list or
   * a dict, no text at all, which Decimal refuses (DecimalCentsIsDecimalOfStr).
   */
  function DecimalCents(v: Value): Result<int, string>
  {
    match v
    case JInt(i) => Ok(i * 100)
    case JStr(s) => TextCents(s)
    case _ => Err(ConversionSyntax)
  }

  /** DecimalCents is Decimal applied to what str() makes of the value. */
  lemma DecimalCentsIsDecimalOfStr(v: Value)
    ensures DecimalCents(v) == TextCents(PyStr(v))
  {
    match v
    case JInt(i) => IntCents(i);
    case JStr(_) =>
    case _ => NonNumberRefused(v);
  }

  /** The STK branch: `Body.stkCallback`, a zero ResultCode, and the callback metadata items. */
  function ReadBody(body: Value): Result<Payload, string>
  {
    match Get(body, "stkCallback", JObj(map[]))
    case Err(e) => Err(e)
    case Ok(result) =>
      match Get(result, "ResultCode", JNull)
      case Err(e) => Err(e)
      case Ok(code) =>
        if !EqualsZero(code) then Ok(FailedPayment)
        else
          match Get(result, "CallbackMetadata", JObj(map[]))
          case Err(e) => Err(e)
          case Ok(meta) =>
            match Get(meta, "Item", JList([]))
            case Err(e) => Err(e)
            case Ok(item) =>
              match Details(item)
              case Err(e) => Err(e)
              case Ok(d) =>
                match DecimalCents(Lookup(d, "Amount", JInt(0)))
                case Err(e) => Err(e)
                case Ok(amount) =>
                  Ok(Callback(CallbackArgs(CharFieldText(Lookup(d, "MpesaReceiptNumber", JNull)), amount,
                                           PyStr(Lookup(d, "PhoneNumber", JStr(""))),
                                           CharFieldText(Lookup(d, "MerchantRequestID", JStr(""))))))
  }

  /** The C2B branch: the fields of `Result`. */
  function ReadResult(result: Value): Result<Payload, string>
  {
    if !result.JObj? then Err("'" + TypeName(result) + "' object has no attribute 'get'")
    else
      var f := result.fields;
      var receipt := if "TransactionID" in f then f["TransactionID"] else JNull;
      match DecimalCents(if "TransAmount" in f then f["TransAmount"] else JInt(0))
      case Err(e) => Err(e)
      case Ok(amount) =>
        Ok(Callback(CallbackArgs(CharFieldText(receipt), amount,
                                 PyStr(if "MSISDN" in f then f["MSISDN"] else JStr("")),
                                 CharFieldText(if "TransRef" in f then f["TransRef"] else JStr("")))))
  }

  /** Which branch the payload takes: Body first, Result only without Body. Err carries the text of what was raised. */
  function ReadPayload(data: map<string, Value>): Result<Payload, string>
  {
    if "Body" in data then ReadBody(data["Body"])
    else if "Result" in data then ReadResult(data["Result"])
    else Ok(UnknownFormat)
  }

  /** Indexing a list by a string, as `webhook_data['Body']` does on a list. */
  const ListIndexError: string := "list indices must be integers or slices, not str"

  /** Indexing a string by a string, in the words of Python 3.11 and later. */
  const StrIndexError: string := "string indices must be integers, not 'str'"

  /**
   * The shape tests on whatever request.data holds. On a dict `in` looks at
   * the keys; on a list it looks for an element equal to the text, and on a
   * string for a substring, after which the indexing raises; on anything else
   * `in` itself raises.
   */
  function ReadRequest(data: Value): (r: Result<Payload, string>)
    ensures data.JObj? ==> r == ReadPayload(data.fields)
    ensures data.JList? ==>
      if JStr("Body") in data.items || JStr("Result") in data.items then r == Err(ListIndexError) else r == Ok(UnknownFormat)
    ensures data.JStr? ==>
      if Contains(data.s, "Body") || Contains(data.s, "Result") then r == Err(StrIndexError) else r == Ok(UnknownFormat)
    ensures data.JNull? || data.JBool? || data.JInt? ==>
      r == Err("argument of type '" + TypeName(data) + "' is not iterable")
  {
    match data
    case JObj(fields) => ReadPayload(fields)
    case JList(items) =>
      if JStr("Body") in items || JStr("Result") in items then Err(ListIndexError) else Ok(UnknownFormat)
    case JStr(text) =>
      if Contains(text, "Body") || Contains(text, "Result") then Err(StrIndexError) else Ok(UnknownFormat)
    case _ => Err("argument of type '" + TypeName(data) + "' is not iterable")
  }

  /**
   * mpesa_webhook_handler: a readable payment is handed to the callback
   * service and answered as received whatever the service reports; a failed
   * payment, an unknown shape and an exception are answered with ResultCode 1
   * and change nothing.
   */
  function HandleWebhook(dir: Directory, b: Books, data: Value): (r: Step<WebhookReply>)
    ensures r.result.httpStatus == 200 <==> ReadRequest(data).Ok? && ReadRequest(data).value.Callback?
    ensures r.result.httpStatus == 200 ==>
      var a := ReadRequest(data).value.args;
      r.result == WebhookReply(200, 0, "Received") &&
      r.books == ProcessCallback(dir, b, a.transactionId, a.amount, a.phoneNumber, a.referenceText, data).books
    ensures r.result.httpStatus != 200 ==> r.books == b && r.result.resultCode == 1
    ensures ReadRequest(data) == Ok(FailedPayment) ==> r.result == WebhookReply(400, 1, "Payment failed")
    ensures ReadRequest(data) == Ok(UnknownFormat) ==> r.result == WebhookReply(400, 1, "Invalid webhook format")
    ensures ReadRequest(data).Err? ==> r.result == WebhookReply(500, 1, ReadRequest(data).error)
  {
    match ReadRequest(data)
    case Err(e) => Step(b, WebhookReply(500, 1, e))
    case Ok(FailedPayment) => Step(b, WebhookReply(400, 1, "Payment failed"))
    case Ok(UnknownFormat) => Step(b, WebhookReply(400, 1, "Invalid webhook format"))
    case Ok(Callback(a)) =>
      var s := ProcessCallback(dir, b, a.transactionId, a.amount, a.phoneNumber, a.referenceText, data);
      Step(s.books, WebhookReply(200, 0, "Received"))
  }

  /**
   * A body that is not a JSON object never reaches the service: a list
   * holding "Body" or "Result", or a text containing either, is answered 500,
   * any other list or text as an invalid format, and null, a boolean or a
   * number 500.
   */
  lemma NonObjectBodies(dir: Directory, b: Books, data: Value)
    requires !data.JObj?
    ensures var r := HandleWebhook(dir, b, data);
      r.books == b &&
      (data.JList? ==> r.result == if JStr("Body") in data.items || JStr("Result") in data.items
                                   then WebhookReply(500, 1, ListIndexError) else WebhookReply(400, 1, "Invalid webhook format")) &&
      (data.JStr? ==> r.result == if Contains(data.s, "Body") || Contains(data.s, "Result")
                                  then WebhookReply(500, 1, StrIndexError) else WebhookReply(400, 1, "Invalid webhook format")) &&
      (!data.JList? && !data.JStr? ==> r.result.httpStatus == 500)
  {
  }

  /** The STK payload M-Pesa sends for a completed payment, built from its metadata items. */
  function StkPayload(code: Value, items: seq<Value>): map<string, Value>
  {
    map["Body" := JObj(map["stkCallback" := JObj(map["ResultCode" := code, "CallbackMetadata" := JObj(map["Item" := JList(items)])])])]
  }

  /** A value of the item named `key`, or the default of the `.get`. */
  function ItemOr(items: seq<Value>, key: string, default: Value): Value
  {
    match LastValue(items, JStr(key))
    case Some(v) => v
    case None => default
  }

  /**
   * A successful STK callback hands on the receipt number, the amount (0 when
   * absent), the phone number ('' when absent) and the merchant request id
   * ('' when absent), each taken from the last item of that name.
   */
  lemma StkPayloadFields(items: seq<Value>, cents: int)
    requires forall i :: 0 <= i < |items| ==> GoodItem(items[i])
    requires DecimalCents(ItemOr(items, "Amount", JInt(0))) == Ok(cents)
    ensures ReadPayload(StkPayload(JInt(0), items)) ==
      Ok(Callback(CallbackArgs(CharFieldText(ItemOr(items, "MpesaReceiptNumber", JNull)), cents,
                               PyStr(ItemOr(items, "PhoneNumber", JStr(""))),
                               CharFieldText(ItemOr(items, "MerchantRequestID", JStr(""))))))
  {
    var d := ItemMap(map[], items).value;
    assert Details(JList(items)) == Ok(d);
    LookupIsItemOr(items, "Amount", JInt(0));
    LookupIsItemOr(items, "MpesaReceiptNumber", JNull);
    LookupIsItemOr(items, "PhoneNumber", JStr(""));
    LookupIsItemOr(items, "MerchantRequestID", JStr(""));
    var stk := StkPayload(JInt(0), items)["Body"].fields["stkCallback"];
    assert stk.fields["CallbackMetadata"].fields["Item"] == JList(items);
  }

  lemma LookupIsItemOr(items: seq<Value>, key: string, default: Value)
    requires forall i :: 0 <= i < |items| ==> GoodItem(items[i])
    ensures ItemMap(map[], items).Ok?
    ensures Lookup(ItemMap(map[], items).value, key, default) == ItemOr(items, key, default)
  {
    ItemMapLastWins(map[], items, JStr(key));
  }

  /** Any ResultCode other than 0 (or False) is answered as a failed payment and never reaches the service. */
  lemma StkFailureAnswered(dir: Directory, b: Books, code: Value, items: seq<Value>)
    requires !EqualsZero(code)
    ensures HandleWebhook(dir, b, JObj(StkPayload(code, items))) == Step(b, WebhookReply(400, 1, "Payment failed"))
  {
    var body := StkPayload(code, items)["Body"];
    assert Get(body, "stkCallback", JObj(map[])).value.fields["ResultCode"] == code;
  }

  /** With a Body key the Result key is never looked at. */
  lemma BodyShadowsResult(data: map<string, Value>, other: Value)
    requires "Body" in data
    ensures ReadPayload(data["Result" := other]) == ReadPayload(data)
  {
    assert data["Result" := other]["Body"] == data["Body"];
  }

  /** A C2B Result payload hands on TransactionID, TransAmount (0 when absent), MSISDN and TransRef. */
  lemma ResultPayloadFields(fields: map<string, Value>, cents: int)
    requires DecimalCents(if "TransAmount" in fields then fields["TransAmount"] else JInt(0)) == Ok(cents)
    ensures ReadPayload(map["Result" := JObj(fields)]) ==
      Ok(Callback(CallbackArgs(CharFieldText(if "TransactionID" in fields then fields["TransactionID"] else JNull), cents,
                               PyStr(if "MSISDN" in fields then fields["MSISDN"] else JStr("")),
                               CharFieldText(if "TransRef" in fields then fields["TransRef"] else JStr("")))))
  {
  }

  /** A C2B amount Decimal cannot read, or that is no whole number of cents, is answered as an exception and changes nothing. */
  lemma ResultAmountRefused(dir: Directory, b: Books, fields: map<string, Value>)
    requires DecimalCents(if "TransAmount" in fields then fields["TransAmount"] else JInt(0)).Err?
    ensures var e := DecimalCents(if "TransAmount" in fields then fields["TransAmount"] else JInt(0)).error;
      HandleWebhook(dir, b, JObj(map["Result" := JObj(fields)])) == Step(b, WebhookReply(500, 1, e))
  {
  }

  /** A C2B amount written with two decimal places, as in "100.50", is recorded as exactly its cents and answered as received. */
  lemma ResultDecimalAmountReceived(dir: Directory, b: Books, fields: map<string, Value>, cents: int)
    requires "TransAmount" in fields && fields["TransAmount"] == JStr(AmountText(cents))
    ensures var a := CallbackArgs(CharFieldText(if "TransactionID" in fields then fields["TransactionID"] else JNull), cents,
                                  PyStr(if "MSISDN" in fields then fields["MSISDN"] else JStr("")),
                                  CharFieldText(if "TransRef" in fields then fields["TransRef"] else JStr("")));
      HandleWebhook(dir, b, JObj(map["Result" := JObj(fields)])) ==
        Step(ProcessCallback(dir, b, a.transactionId, a.amount, a.phoneNumber, a.referenceText, JObj(map["Result" := JObj(fields)])).books,
             WebhookReply(200, 0, "Received"))
  {
    AmountTextRoundTrip(cents);
    ResultPayloadFields(fields, cents);
  }

  /**
   * A C2B payload whose TransRef is null is answered as received, yet records
   * nothing: the reference reaches the transaction insert as None, which the
   * NOT NULL column refuses, and the service reports that error.
   */
  lemma NullTransRefUnrecorded(dir: Directory, b: Books, fields: map<string, Value>, cents: int)
    requires "TransRef" in fields && fields["TransRef"] == JNull
    requires DecimalCents(if "TransAmount" in fields then fields["TransAmount"] else JInt(0)) == Ok(cents)
    ensures HandleWebhook(dir, b, JObj(map["Result" := JObj(fields)])) == Step(b, WebhookReply(200, 0, "Received"))
  {
    ResultPayloadFields(fields, cents);
  }

  /** A payload that is neither an STK nor a C2B callback is refused as an invalid format. */
  lemma UnknownPayloadRefused(dir: Directory, b: Books, data: map<string, Value>)
    requires "Body" !in data && "Result" !in data
    ensures HandleWebhook(dir, b, JObj(data)) == Step(b, WebhookReply(400, 1, "Invalid webhook format"))
  {
  }

  /** A second delivery of an accepted receipt is still answered as received, and changes nothing. */
  lemma WebhookRedeliveryHarmless(dir: Directory, b: Books, data: Value)
    requires ReadRequest(data).Ok? && ReadRequest(data).value.Callback?
    requires ReadRequest(data).value.args.transactionId.Some?
    ensures var once := HandleWebhook(dir, b, data);
      var twice := HandleWebhook(dir, once.books, data);
      twice.result == WebhookReply(200, 0, "Received") && twice.books == once.books
  {
    var a := ReadRequest(data).value.args;
    CallbackIdempotent(dir, b, a.transactionId.value, a.amount, a.phoneNumber, a.referenceText, data,
                       a.amount, a.phoneNumber, a.referenceText, data);
  }

  method MpesaWebhookHandler(ledger: FeeLedger, data: Value) returns (reply: WebhookReply)
    requires ledger.Valid()
    modifies ledger`invoices, ledger`payments, ledger`transactions
    ensures ledger.Valid()
    ensures Step(ledger.State(), reply) == HandleWebhook(old(ledger.Dir()), old(ledger.State()), data)
  {
    var payload := ReadRequest(data);
    if payload.Err? {
      return WebhookReply(500, 1, payload.error);
    }
    match payload.value
    case FailedPayment =>
      reply := WebhookReply(400, 1, "Payment failed");
    case UnknownFormat =>
      reply := WebhookReply(400, 1, "Invalid webhook format");
    case Callback(a) =>
      var _ := ledger.ProcessMpesaCallback(a.transactionId, a.amount, a.phoneNumber, a.referenceText, data);
      reply := WebhookReply(200, 0, "Received");
  }

  // ---------------------------------------------------------------------------
  // InvoiceViewSet.mark_paid

  /** InvoiceViewSet.get_queryset: invoices of students of the user's school. */
  predicate InvoiceVisible(dir: Directory, inv: Invoice, userSchool: Option<nat>)
  {
    SchoolOf(dir, inv.studentId) == userSchool
  }

  /** mark_paid: the status is set to paid and the invoice saved; None is the 404 of get_object. */
  function MarkPaidStep(dir: Directory, b: Books, userSchool: Option<nat>, invoiceId: nat): Step<Option<Invoice>>
  {
    if invoiceId < |b.invoices| && InvoiceVisible(dir, b.invoices[invoiceId], userSchool) then
      var inv := Saved(b.invoices[invoiceId].(status := Paid));
      Step(b.(invoices := b.invoices[invoiceId := inv]), Some(inv))
    else Step(b, None)
  }

  /** The override touches the status only: the amounts stay as they were, and so do the ledger invariants. */
  lemma MarkPaidKeepsAmounts(dir: Directory, b: Books, userSchool: Option<nat>, invoiceId: nat)
    requires WellFormed(dir, b)
    ensures var r := MarkPaidStep(dir, b, userSchool, invoiceId);
      WellFormed(dir, r.books) &&
      (r.result.Some? ==>
        var old_ := b.invoices[invoiceId];
        r.result.value.status == Paid && r.result.value.amountPaid == old_.amountPaid &&
        r.result.value.balance == old_.balance && r.result.value.totalAmount == old_.totalAmount &&
        r.books.invoices[invoiceId] == r.result.value) &&
      (r.result.None? ==> r.books == b)
  {
  }

  method MarkPaid(ledger: FeeLedger, userSchool: Option<nat>, invoiceId: nat) returns (r: Option<Invoice>)
    requires ledger.Valid()
    modifies ledger`invoices
    ensures ledger.Valid()
    ensures Step(ledger.State(), r) == MarkPaidStep(ledger.Dir(), old(ledger.State()), userSchool, invoiceId)
  {
    MarkPaidKeepsAmounts(ledger.Dir(), ledger.State(), userSchool, invoiceId);
    if invoiceId < |ledger.invoices| && InvoiceVisible(ledger.Dir(), ledger.invoices[invoiceId], userSchool) {
      var inv := Saved(ledger.invoices[invoiceId].(status := Paid));
      ledger.invoices := ledger.invoices[invoiceId := inv];
      r := Some(inv);
    } else {
      r := None;
    }
  }

  // ---------------------------------------------------------------------------
  // ArrearsViewSet

  /** `show_resolved` compared as `.lower() == 'true'`, defaulting to 'false'. */
  predicate ShowResolved(param: Option<string>)
  {
    Lower(if param.Some? then param.value else "false") == "true"
  }

  /** ArrearsViewSet.get_queryset: the rows of the user's school, unresolved ones only unless asked. */
  predicate ArrearsVisible(row: Arrears, userSchool: Option<nat>, showResolved: Option<string>)
  {
    row.schoolId == userSchool && (ShowResolved(showResolved) || !row.isResolved)
  }

  function ResolveStep(b: Books, userSchool: Option<nat>, showResolved: Option<string>, rowIndex: nat,
                       notes: Option<string>, now: int): Step<Option<Arrears>>
  {
    if rowIndex < |b.arrears| && ArrearsVisible(b.arrears[rowIndex], userSchool, showResolved) then
      var row := b.arrears[rowIndex].(isResolved := true, resolvedDate := Some(now),
                                      notes := if notes.Some? then notes.value else "");
      Step(b.(arrears := b.arrears[rowIndex := row]), Some(row))
    else Step(b, None)
  }

  /**
   * resolve marks the row resolved at `now` with the given notes ('' when none
   * are sent) and touches nothing else; a resolved row can only be reached with
   * show_resolved=true, every other request for it is a 404.
   */
  lemma ResolveEffect(dir: Directory, b: Books, userSchool: Option<nat>, showResolved: Option<string>, rowIndex: nat,
                      notes: Option<string>, now: int)
    requires WellFormed(dir, b)
    ensures var r := ResolveStep(b, userSchool, showResolved, rowIndex, notes, now);
      WellFormed(dir, r.books) &&
      r.books.invoices == b.invoices && r.books.payments == b.payments && r.books.transactions == b.transactions &&
      (r.result.Some? ==> r.books.arrears[rowIndex].isResolved && r.books.arrears[rowIndex].resolvedDate == Some(now)) &&
      (rowIndex < |b.arrears| && b.arrears[rowIndex].isResolved && !ShowResolved(showResolved) ==> r.result.None?)
  {
    var r := ResolveStep(b, userSchool, showResolved, rowIndex, notes, now);
    if r.result.Some? {
      var rows := r.books.arrears;
      forall i, j | 0 <= i < j < |rows| ensures rows[i].studentId != rows[j].studentId || rows[i].schoolId != rows[j].schoolId {
        assert rows[i].studentId == b.arrears[i].studentId && rows[i].schoolId == b.arrears[i].schoolId;
        assert rows[j].studentId == b.arrears[j].studentId && rows[j].schoolId == b.arrears[j].schoolId;
      }
    }
  }

  method Resolve(ledger: FeeLedger, userSchool: Option<nat>, showResolved: Option<string>, rowIndex: nat,
                 notes: Option<string>, now: int) returns (r: Option<Arrears>)
    requires ledger.Valid()
    modifies ledger`arrears
    ensures ledger.Valid()
    ensures Step(ledger.State(), r) == ResolveStep(old(ledger.State()), userSchool, showResolved, rowIndex, notes, now)
  {
    ResolveEffect(ledger.Dir(), ledger.State(), userSchool, showResolved, rowIndex, notes, now);
    if rowIndex < |ledger.arrears| && ArrearsVisible(ledger.arrears[rowIndex], userSchool, showResolved) {
      var row := ledger.arrears[rowIndex].(isResolved := true, resolvedDate := Some(now),
                                           notes := if notes.Some? then notes.value else "");
      ledger.arrears := ledger.arrears[rowIndex := row];
      r := Some(row);
    } else {
      r := None;
    }
  }

  /** The rows the statistics count: visible and unresolved. */
  function Outstanding(rows: seq<Arrears>, userSchool: Option<nat>, showResolved: Option<string>): (r: seq<Arrears>)
    ensures forall k :: 0 <= k < |r| ==> r[k] in rows && r[k].schoolId == userSchool && !r[k].isResolved
    ensures forall k :: 0 <= k < |rows| && rows[k].schoolId == userSchool && !rows[k].isResolved ==> rows[k] in r
    decreases |rows|
  {
    if rows == [] then []
    else
      var rest := Outstanding(rows[1..], userSchool, showResolved);
      if ArrearsVisible(rows[0], userSchool, showResolved) && !rows[0].isResolved then [rows[0]] + rest else rest
  }

  /** The four day ranges of the statistics, as the four filters write them. */
  predicate InRange(days: int, bucket: nat)
  {
    if bucket == 0 then days <= 30
    else if bucket == 1 then 30 < days <= 60
    else if bucket == 2 then 60 < days <= 90
    else bucket == 3 && days > 90
  }

  /** Every day count falls in exactly one of the ranges. */
  lemma RangesPartition(days: int)
    ensures exists bucket: nat :: bucket < 4 && InRange(days, bucket)
    ensures forall b1: nat, b2: nat :: InRange(days, b1) && InRange(days, b2) ==> b1 == b2
  {
    if days <= 30 { assert InRange(days, 0); }
    else if days <= 60 { assert InRange(days, 1); }
    else if days <= 90 { assert InRange(days, 2); }
    else { assert InRange(days, 3); }
  }

  function CountInRange(rows: seq<Arrears>, bucket: nat): nat
    decreases |rows|
  {
    if rows == [] then 0
    else CountInRange(rows[..|rows| - 1], bucket) + (if InRange(rows[|rows| - 1].daysOutstanding, bucket) then 1 else 0)
  }

  lemma {:induction false} RangesCoverRows(rows: seq<Arrears>)
    ensures CountInRange(rows, 0) + CountInRange(rows, 1) + CountInRange(rows, 2) + CountInRange(rows, 3) == |rows|
    decreases |rows|
  {
    if rows != [] {
      RangesCoverRows(rows[..|rows| - 1]);
      var d := rows[|rows| - 1].daysOutstanding;
      RangesPartition(d);
    }
  }

  function SumArrears(rows: seq<Arrears>): int
    decreases |rows|
  {
    if rows == [] then 0 else SumArrears(rows[..|rows| - 1]) + rows[|rows| - 1].totalArrears
  }

  function SumDays(rows: seq<Arrears>): int
    decreases |rows|
  {
    if rows == [] then 0 else SumDays(rows[..|rows| - 1]) + rows[|rows| - 1].daysOutstanding
  }

  datatype ArrearsStats = ArrearsStats(
    studentsInArrears: nat, totalArrears: int, averageDays: int,
    upTo30: nat, from31To60: nat, from61To90: nat, over90: nat)

  /** ArrearsViewSet.stats; the average is the database's integer quotient, 0 for no rows. */
  function Stats(rows: seq<Arrears>, userSchool: Option<nat>, showResolved: Option<string>): ArrearsStats
  {
    var o := Outstanding(rows, userSchool, showResolved);
    ArrearsStats(|o|, SumArrears(o), if |o| == 0 then 0 else TruncDiv(SumDays(o), |o|),
                 CountInRange(o, 0), CountInRange(o, 1), CountInRange(o, 2), CountInRange(o, 3))
  }

  /** The four ranges split the students in arrears between them, and show_resolved does not change the figures. */
  lemma StatsBucketsPartition(rows: seq<Arrears>, userSchool: Option<nat>, showResolved: Option<string>, other: Option<string>)
    ensures var s := Stats(rows, userSchool, showResolved);
      s.upTo30 + s.from31To60 + s.from61To90 + s.over90 == s.studentsInArrears
    ensures Stats(rows, userSchool, showResolved) == Stats(rows, userSchool, other)
  {
    RangesCoverRows(Outstanding(rows, userSchool, showResolved));
    OutstandingIgnoresShowResolved(rows, userSchool, showResolved, other);
  }

  lemma {:induction false} OutstandingIgnoresShowResolved(rows: seq<Arrears>, userSchool: Option<nat>, p: Option<string>, q: Option<string>)
    ensures Outstanding(rows, userSchool, p) == Outstanding(rows, userSchool, q)
    decreases |rows|
  {
    if rows != [] {
      OutstandingIgnoresShowResolved(rows[1..], userSchool, p, q);
    }
  }

  // ---------------------------------------------------------------------------
  // MpesaTransactionViewSet.retry_match

  /**
   * MpesaTransactionViewSet.get_queryset filters on the school of the matched
   * invoice's student. Compared with a school it needs a matched invoice;
   * compared with None it also lets through transactions without one.
   */
  predicate TxVisible(dir: Directory, b: Books, userSchool: Option<nat>, tx: MpesaTransaction)
  {
    match tx.matchedInvoice
    case None => userSchool.None?
    case Some(k) => k < |b.invoices| && SchoolOf(dir, b.invoices[k].studentId) == userSchool
  }

  datatype RetryReply =
    | RetryNotFound
    | RetryRefused
    | RetryMatched(invoiceId: nat, paymentId: nat)
    | RetryNoMatch
    | RetryPaymentRaised(rejection: PaymentRejection)

  /**
   * retry_match: only an unmatched transaction is retried; a match goes
   * through record_payment and then links the transaction as processed. A
   * rejection raised by record_payment leaves everything as it was.
   */
  function RetryMatchStep(dir: Directory, b: Books, userSchool: Option<nat>, txIndex: nat, now: int): Step<RetryReply>
  {
    if txIndex >= |b.transactions| || !TxVisible(dir, b, userSchool, b.transactions[txIndex]) then Step(b, RetryNotFound)
    else
      var tx := b.transactions[txIndex];
      if tx.status != TxUnmatched then Step(b, RetryRefused)
      else
        match FindMatchingInvoice(dir, b.invoices, tx.amount, tx.phoneNumber)
        case None => Step(b, RetryNoMatch)
        case Some(k) => RetryLink(dir, b, txIndex, k, now)
  }

  /** The matched path of a retry: record_payment for the whole amount, then the transaction is linked and processed. */
  function RetryLink(dir: Directory, b: Books, txIndex: nat, k: nat, now: int): Step<RetryReply>
    requires txIndex < |b.transactions| && k < |b.invoices|
  {
    var tx := b.transactions[txIndex];
    var p := RecordPaymentStep(dir, b, k, tx.amount, "mpesa", tx.transactionId, None, now);
    match p.result
    case Err(e) => Step(b, RetryPaymentRaised(e))
    case Ok(paymentId) =>
      Step(p.books.(transactions := p.books.transactions[txIndex := tx.(status := TxProcessed, matchedInvoice := Some(k))]),
           RetryMatched(k, paymentId))
  }

  /** What a retry does: a match is record_payment plus the link, every other answer changes nothing. */
  lemma RetryMatchEffect(dir: Directory, b: Books, userSchool: Option<nat>, txIndex: nat, now: int)
    ensures var r := RetryMatchStep(dir, b, userSchool, txIndex, now);
      (!r.result.RetryMatched? ==> r.books == b) &&
      (r.result.RetryMatched? ==>
        var tx := b.transactions[txIndex];
        tx.status == TxUnmatched &&
        r.result.invoiceId < |b.invoices| &&
        FindMatchingInvoice(dir, b.invoices, tx.amount, tx.phoneNumber) == Some(r.result.invoiceId) &&
        var p := RecordPaymentStep(dir, b, r.result.invoiceId, tx.amount, "mpesa", tx.transactionId, None, now);
        p.result == Ok(r.result.paymentId) &&
        r.books == p.books.(transactions := b.transactions[txIndex := tx.(status := TxProcessed, matchedInvoice := Some(r.result.invoiceId))]))
  {
  }

  /**
   * For a user bound to a school the matching path cannot be reached: such a
   * user only sees transactions linked to an invoice, and a linked
   * transaction is never unmatched.
   */
  lemma RetryMatchUnreachableWithSchool(dir: Directory, b: Books, school: nat, txIndex: nat, now: int)
    requires WellFormed(dir, b)
    ensures var r := RetryMatchStep(dir, b, Some(school), txIndex, now);
      (r.result == RetryNotFound || r.result == RetryRefused) && r.books == b
  {
    if txIndex < |b.transactions| && TxVisible(dir, b, Some(school), b.transactions[txIndex]) {
      assert b.transactions[txIndex].matchedInvoice.Some?;
    }
  }

  /** A user without a school does reach the matching path with an unmatched transaction. */
  lemma RetryMatchReachableWithoutSchool()
    ensures var tx := MpesaTransaction("QK3", 100000, "0700000000", "", TxUnmatched, None, JNull);
      var b := Books([], [], [], [tx]);
      RetryMatchStep(Directory([], [], [], []), b, None, 0, 0) == Step(b, RetryNoMatch)
  {
  }

  lemma RetryMatchKeepsWellFormed(dir: Directory, b: Books, userSchool: Option<nat>, txIndex: nat, now: int)
    requires WellFormed(dir, b)
    ensures WellFormed(dir, RetryMatchStep(dir, b, userSchool, txIndex, now).books)
  {
    var r := RetryMatchStep(dir, b, userSchool, txIndex, now);
    if r.result.RetryMatched? {
      var tx := b.transactions[txIndex];
      var k := r.result.invoiceId;
      RecordPaymentKeepsWellFormed(dir, b, k, tx.amount, "mpesa", tx.transactionId, None, now);
      var p := RecordPaymentStep(dir, b, k, tx.amount, "mpesa", tx.transactionId, None, now);
      var txs := r.books.transactions;
      assert |p.books.invoices| == |b.invoices|;
      forall i, j | 0 <= i < j < |txs| ensures txs[i].transactionId != txs[j].transactionId {
        assert txs[i].transactionId == b.transactions[i].transactionId;
        assert txs[j].transactionId == b.transactions[j].transactionId;
      }
      forall i | 0 <= i < |txs|
        ensures txs[i].matchedInvoice.Some? ==> txs[i].matchedInvoice.value < |r.books.invoices|
        ensures txs[i].status == TxUnmatched ==> txs[i].matchedInvoice.None?
      {
        if i != txIndex {
          assert txs[i] == b.transactions[i];
        }
      }
    }
  }

  method RetryMatch(ledger: FeeLedger, userSchool: Option<nat>, txIndex: nat, now: int) returns (r: RetryReply)
    requires ledger.Valid()
    modifies ledger`invoices, ledger`payments, ledger`arrears, ledger`transactions
    ensures ledger.Valid()
    ensures Step(ledger.State(), r) == RetryMatchStep(old(ledger.Dir()), old(ledger.State()), userSchool, txIndex, now)
  {
    var dir := ledger.Dir();
    ghost var b := ledger.State();
    RetryMatchKeepsWellFormed(dir, b, userSchool, txIndex, now);
    if txIndex >= |ledger.transactions| || !TxVisible(dir, ledger.State(), userSchool, ledger.transactions[txIndex]) {
      return RetryNotFound;
    }
    var tx := ledger.transactions[txIndex];
    if tx.status != TxUnmatched {
      return RetryRefused;
    }
    var found := FindMatchingInvoice(dir, ledger.invoices, tx.amount, tx.phoneNumber);
    if found.None? {
      return RetryNoMatch;
    }
    r := RetryLinkOn(ledger, txIndex, found.value, now);
  }

  /** The matched path of RetryMatch on the stored records. */
  method RetryLinkOn(ledger: FeeLedger, txIndex: nat, k: nat, now: int) returns (r: RetryReply)
    requires ledger.Valid() && txIndex < |ledger.transactions| && k < |ledger.invoices|
    requires WellFormed(ledger.Dir(), RetryLink(ledger.Dir(), ledger.State(), txIndex, k, now).books)
    modifies ledger`invoices, ledger`payments, ledger`arrears, ledger`transactions
    ensures ledger.Valid()
    ensures Step(ledger.State(), r) == RetryLink(old(ledger.Dir()), old(ledger.State()), txIndex, k, now)
  {
    ghost var dir := ledger.Dir();
    ghost var b := ledger.State();
    var tx := ledger.transactions[txIndex];
    var paid := ledger.RecordPayment(k, tx.amount, "mpesa", tx.transactionId, None, now);
    if paid.Err? {
      return RetryPaymentRaised(paid.error);
    }
    ghost var p := RecordPaymentStep(dir, b, k, tx.amount, "mpesa", tx.transactionId, None, now);
    assert ledger.State() == p.books;
    ledger.transactions := ledger.transactions[txIndex := tx.(status := TxProcessed, matchedInvoice := Some(k))];
    r := RetryMatched(k, paid.value);
  }

  // ---------------------------------------------------------------------------
  // FeeStructureViewSet.batch_create

  /** A fee structure as the serializer saves it, before it has an id. */
  datatype StructureDraft = StructureDraft(schoolId: nat, termId: nat, classAssigned: Option<nat>, amount: int)

  datatype BatchRun = BatchRun(structures: seq<FeeStructure>, created: seq<FeeStructure>, errors: seq<Value>)

  /**
   * The loop of batch_create over the serializer outcomes of the items: a
   * valid item is saved with the next id and listed as created, an invalid
   * one contributes its errors.
   */
  function BatchCreateRun(structures: seq<FeeStructure>, items: seq<Result<StructureDraft, Value>>): BatchRun
    decreases |items|
  {
    if items == [] then BatchRun(structures, [], [])
    else
      var prev := BatchCreateRun(structures, items[..|items| - 1]);
      match items[|items| - 1]
      case Ok(d) =>
        var fs := FeeStructure(|prev.structures|, d.schoolId, d.termId, d.classAssigned, d.amount);
        BatchRun(prev.structures + [fs], prev.created + [fs], prev.errors)
      case Err(e) => prev.(errors := prev.errors + [e])
  }

  function ValidCount(items: seq<Result<StructureDraft, Value>>): nat
    decreases |items|
  {
    if items == [] then 0 else ValidCount(items[..|items| - 1]) + (if items[|items| - 1].Ok? then 1 else 0)
  }

  /**
   * One structure is created per valid item, in order and with consecutive
   * ids, one error entry is kept per invalid item, and there are no errors
   * exactly when every item is valid.
   */
  lemma {:induction false} BatchCreateCounts(structures: seq<FeeStructure>, items: seq<Result<StructureDraft, Value>>)
    ensures var r := BatchCreateRun(structures, items);
      r.structures == structures + r.created &&
      |r.created| == ValidCount(items) && |r.errors| == |items| - ValidCount(items) &&
      (forall k :: 0 <= k < |r.created| ==> r.created[k].id == |structures| + k) &&
      (r.errors == [] <==> forall k :: 0 <= k < |items| ==> items[k].Ok?)
    decreases |items|
  {
    if items != [] {
      var init := items[..|items| - 1];
      BatchCreateCounts(structures, init);
      assert forall k :: 0 <= k < |init| ==> init[k] == items[k];
    }
  }

  datatype BatchReply = BatchReply(httpStatus: int, created: seq<FeeStructure>, errors: seq<Value>, totalCreated: nat)

  function BatchReplyOf(r: BatchRun): BatchReply
  {
    BatchReply(if r.errors == [] then 201 else 400, r.created, r.errors, |r.created|)
  }

  /** 201 exactly when no item had errors, and total_created counts the created items. */
  lemma BatchCreateStatus(structures: seq<FeeStructure>, items: seq<Result<StructureDraft, Value>>)
    ensures var reply := BatchReplyOf(BatchCreateRun(structures, items));
      (reply.httpStatus == 201 <==> forall k :: 0 <= k < |items| ==> items[k].Ok?) &&
      reply.totalCreated == ValidCount(items)
  {
    BatchCreateCounts(structures, items);
  }

  method BatchCreate(ledger: FeeLedger, items: seq<Result<StructureDraft, Value>>) returns (reply: BatchReply)
    requires ledger.Valid()
    modifies ledger`structures
    ensures ledger.Valid()
    ensures var r := BatchCreateRun(old(ledger.structures), items);
      ledger.structures == r.structures && reply == BatchReplyOf(r)
  {
    ghost var start := ledger.structures;
    var created: seq<FeeStructure> := [];
    var errors: seq<Value> := [];
    var i := 0;
    while i < |items|
      invariant 0 <= i <= |items|
      invariant BatchRun(ledger.structures, created, errors) == BatchCreateRun(start, items[..i])
      invariant ledger.Valid()
    {
      assert items[..i + 1][..i] == items[..i];
      if items[i].Ok? {
        var d := items[i].value;
        var fs := FeeStructure(|ledger.structures|, d.schoolId, d.termId, d.classAssigned, d.amount);
        ledger.structures := ledger.structures + [fs];
        created := created + [fs];
      } else {
        errors := errors + [items[i].error];
      }
      i := i + 1;
    }
    assert items[..|items|] == items;
    reply := BatchReply(if errors == [] then 201 else 400, created, errors, |created|);
  }
}
