// The request building and callback reading of core/payments/mpesa_integration.py
// (MpesaGateway). The token fetch, the HTTP calls, the clock and the Base64
// password are outside the model: the token and the timestamp arrive as
// parameters and the password is not part of the payload built here.

module MpesaIntegration {
  import opened Common
  import opened Json

  // ---------------------------------------------------------------------------
  // initiate_stk_push: the payload

  /** A phone that does not start with 254 gets 254 in front of it, after its leading zeros are dropped. */
  function StkPhone(phone: string): (r: string)
    ensures StartsWith(r, "254")
    ensures StartsWith(phone, "254") ==> r == phone
    ensures !StartsWith(phone, "254") ==> r == "254" + LStrip(phone, '0')
  {
    if StartsWith(phone, "254") then phone else "254" + LStrip(phone, '0')
  }

  /** The description cut to its first 60 characters. */
  function TransactionDesc(description: string): (r: string)
    ensures |r| == Min(60, |description|)
    ensures r == description[..|r|]
  {
    Take(description, 60)
  }

  /** The fields of the STK push request this model builds (the password is left out). */
  datatype StkPayload = StkPayload(
    businessShortCode: string,
    timestamp: string,
    transactionType: string,
    amount: int,
    partyA: string,
    partyB: string,
    phoneNumber: string,
    callbackUrl: Option<string>,
    accountReference: string,
    transactionDesc: string)

  /**
   * initiate_stk_push up to the request: no token, or an empty one, gives the error reply, else
   * the payload carries the normalised phone as both payer and phone number.
   */
  function BuildStkPayload(token: Option<string>, shortCode: string, callbackUrl: Option<string>, phone: string,
                           amount: int, accountReference: Value, description: string, timestamp: string): (r: Result<StkPayload, string>)
    ensures r.Err? <==> token.None? || token == Some("")
    ensures r.Err? ==> r.error == "Could not get access token"
    ensures r.Ok? ==>
      r.value.partyA == r.value.phoneNumber && StartsWith(r.value.phoneNumber, "254") &&
      r.value.partyB == r.value.businessShortCode == shortCode &&
      |r.value.transactionDesc| == Min(60, |description|) && r.value.transactionDesc == description[..Min(60, |description|)] &&
      r.value.accountReference == PyStr(accountReference) && r.value.amount == amount
  {
    if token.None? || token.value == "" then Err("Could not get access token")
    else
      var p := StkPhone(phone);
      Ok(StkPayload(shortCode, timestamp, "CustomerPayBillOnline", amount, p, shortCode, p, callbackUrl,
                    PyStr(accountReference), TransactionDesc(description)))
  }

  /** Normalising twice changes nothing. */
  lemma StkPhoneIdempotent(phone: string)
    ensures StkPhone(StkPhone(phone)) == StkPhone(phone)
  {
  }

  /** A local number loses its zero and gains the country code. */
  lemma StkPhoneLocal()
    ensures StkPhone("0712345678") == "254712345678"
  {
    var p := "0712345678";
    assert p[..3] == "071";
    assert p[0] == '0' && p[1..] == "712345678";
    assert LStrip("712345678", '0') == "712345678";
  }

  /** A number that already has the country code is kept. */
  lemma StkPhoneInternational()
    ensures StkPhone("254712345678") == "254712345678"
  {
    assert "254712345678"[..3] == "254";
  }

  /** An international number written with '+' gets a second country code. */
  lemma StkPhonePlus()
    ensures StkPhone("+254712345678") == "254+254712345678"
  {
    var p := "+254712345678";
    assert p[..3] == "+25";
    assert p[0] == '+';
    assert LStrip(p, '0') == p;
  }

  // ---------------------------------------------------------------------------
  // process_callback

  /** What process_callback returns: success with the parsed metadata, a declined payment, or a caught exception. */
  datatype CallbackOutcome =
    | Succeeded(resultCode: Value, checkoutRequestId: Value, merchantRequestId: Value, transactionData: map<Value, Value>)
    | Declined(resultCode: Value, message: Value)
    | Errored(error: string)

  /** The 'message' entry of the returned dict. */
  function OutcomeMessage(o: CallbackOutcome): Value
  {
    match o
    case Succeeded(_, _, _, _) => JStr("Payment successful")
    case Declined(_, m) => m
    case Errored(_) => JStr("Error processing callback")
  }

  /** `for item in v`: the elements a value yields when iterated. */
  function Iterated(v: Value): (r: Result<seq<Value>, string>)
    ensures v.JList? ==> r == Ok(v.items)
  {
    match v
    case JList(items) => Ok(items)
    case JStr(s) => Ok(seq(|s|, i requires 0 <= i < |s| => JStr([s[i]])))
    // a dict yields its keys, all of them strings, so only an empty one gets past the first .get
    case JObj(fields) => if fields == map[] then Ok([]) else Err("'str' object has no attribute 'get'")
    case _ => Err("'" + TypeName(v) + "' object is not iterable")
  }

  /** An item the loop body takes without raising. */
  predicate GoodItem(item: Value)
  {
    item.JObj? && Hashable(if "Name" in item.fields then item.fields["Name"] else JNull)
  }

  /** The item's Name (None when missing). */
  function ItemName(item: Value): Value
    requires item.JObj?
  {
    if "Name" in item.fields then item.fields["Name"] else JNull
  }

  /** The item's Value (None when missing). */
  function ItemValue(item: Value): Value
    requires item.JObj?
  {
    if "Value" in item.fields then item.fields["Value"] else JNull
  }

  /** One pass of the loop body: the name and value are read with .get, then stored under the name. */
  function FillOne(data: map<Value, Value>, item: Value): (r: Result<map<Value, Value>, string>)
    ensures r.Ok? <==> GoodItem(item)
    ensures r.Ok? ==> r.value == data[ItemName(item) := ItemValue(item)]
  {
    if !item.JObj? then Err("'" + TypeName(item) + "' object has no attribute 'get'")
    else if !Hashable(ItemName(item)) then Err("unhashable type: '" + TypeName(ItemName(item)) + "'")
    else Ok(data[ItemName(item) := ItemValue(item)])
  }

  /** The rest of the loop from `data` on, item by item; the first raising item ends it. */
  function Fill(data: map<Value, Value>, items: seq<Value>): (r: Result<map<Value, Value>, string>)
    ensures (forall i :: 0 <= i < |items| ==> GoodItem(items[i])) <==> r.Ok?
    decreases |items|
  {
    if items == [] then Ok(data)
    else
      match FillOne(data, items[0])
      case Err(e) => Err(e)
      case Ok(next) =>
        var r := Fill(next, items[1..]);
        assert forall i :: 1 <= i < |items| ==> items[i] == items[1..][i - 1];
        r
  }

  /** The Value of the last item named `key`: the reading of transaction_data the loop promises. */
  function LastNamed(items: seq<Value>, key: Value): Option<Value>
    decreases |items|
  {
    if items == [] then None
    else
      match LastNamed(items[1..], key)
      case Some(v) => Some(v)
      case None => if items[0].JObj? && ItemName(items[0]) == key then Some(ItemValue(items[0])) else None
  }

  /** A later item with the same Name overwrites an earlier one; names never seen keep what was there. */
  lemma {:induction false} FillLastWins(data: map<Value, Value>, items: seq<Value>, key: Value)
    requires forall i :: 0 <= i < |items| ==> GoodItem(items[i])
    ensures Fill(data, items).Ok?
    ensures var m := Fill(data, items).value;
      match LastNamed(items, key)
      case Some(v) => key in m && m[key] == v
      case None => (key in m <==> key in data) && (key in data ==> m[key] == data[key])
    decreases |items|
  {
    if items != [] {
      assert GoodItem(items[0]);
      FillLastWins(data[ItemName(items[0]) := ItemValue(items[0])], items[1..], key);
    }
  }

  /** callback_data.get('Body', {}).get('stkCallback', {}) */
  function StkCallback(data: Value): Result<Value, string>
  {
    match Get(data, "Body", JObj(map[]))
    case Err(e) => Err(e)
    case Ok(body) => Get(body, "stkCallback", JObj(map[]))
  }

  /** The success branch: the metadata's Item list, read into transaction_data. */
  function MetadataItems(stk: Value): Result<seq<Value>, string>
  {
    match Get(stk, "CallbackMetadata", JObj(map[]))
    case Err(e) => Err(e)
    case Ok(meta) =>
      match Get(meta, "Item", JList([]))
      case Err(e) => Err(e)
      case Ok(list) => Iterated(list)
  }

  /** MpesaGateway.process_callback */
  function ParseCallback(data: Value): (r: CallbackOutcome)
    ensures r.Succeeded? ==> EqualsZero(r.resultCode)
    ensures r.Declined? ==> !EqualsZero(r.resultCode)
  {
    match StkCallback(data)
    case Err(e) => Errored(e)
    case Ok(stk) =>
      if !stk.JObj? then Errored("'" + TypeName(stk) + "' object has no attribute 'get'")
      else
        var code := Get(stk, "ResultCode", JNull).value;
        var desc := Get(stk, "ResultDesc", JStr("")).value;
        var checkout := Get(stk, "CheckoutRequestID", JNull).value;
        var merchant := Get(stk, "MerchantRequestID", JNull).value;
        if !EqualsZero(code) then Declined(code, if Truthy(desc) then desc else JStr("Payment failed or was cancelled"))
        else
          match MetadataItems(stk)
          case Err(e) => Errored(e)
          case Ok(items) =>
            match Fill(map[], items)
            case Err(e) => Errored(e)
            case Ok(td) => Succeeded(code, checkout, merchant, td)
  }

  /** A callback object with the given stkCallback fields. */
  function StkBody(stk: map<string, Value>): Value
  {
    JObj(map["Body" := JObj(map["stkCallback" := JObj(stk)])])
  }

  /** A missing Body, or a missing ResultCode, reads as None and so as a declined payment with the default message. */
  lemma MissingResultCodeDeclines(data: map<string, Value>)
    requires "Body" !in data
    ensures ParseCallback(JObj(data)) == Declined(JNull, JStr("Payment failed or was cancelled"))
    ensures ParseCallback(StkBody(map[])) == Declined(JNull, JStr("Payment failed or was cancelled"))
  {
    assert StkCallback(JObj(data)) == Ok(JObj(map[]));
    assert StkCallback(StkBody(map[])) == Ok(JObj(map[]));
  }

  /** A declined callback carries its ResultDesc when that is non-empty. */
  lemma DeclineCarriesDescription(code: int, desc: string)
    requires code != 0 && desc != ""
    ensures ParseCallback(StkBody(map["ResultCode" := JInt(code), "ResultDesc" := JStr(desc)])) ==
      Declined(JInt(code), JStr(desc))
  {
    var stk := map["ResultCode" := JInt(code), "ResultDesc" := JStr(desc)];
    assert StkCallback(StkBody(stk)) == Ok(JObj(stk));
  }

  /**
   * A successful callback whose items are all dicts with hashable names carries
   * the request ids and, under every name, the Value of the last item with
   * that name.
   */
  lemma SuccessCarriesMetadata(checkout: Value, merchant: Value, items: seq<Value>, key: Value)
    requires forall i :: 0 <= i < |items| ==> GoodItem(items[i])
    ensures var stk := map["ResultCode" := JInt(0), "CheckoutRequestID" := checkout, "MerchantRequestID" := merchant,
                           "CallbackMetadata" := JObj(map["Item" := JList(items)])];
      var r := ParseCallback(StkBody(stk));
      r.Succeeded? && r.checkoutRequestId == checkout && r.merchantRequestId == merchant &&
      (LastNamed(items, key).Some? ==> key in r.transactionData && r.transactionData[key] == LastNamed(items, key).value) &&
      (LastNamed(items, key).None? ==> key !in r.transactionData)
  {
    var stk := map["ResultCode" := JInt(0), "CheckoutRequestID" := checkout, "MerchantRequestID" := merchant,
                   "CallbackMetadata" := JObj(map["Item" := JList(items)])];
    assert StkCallback(StkBody(stk)) == Ok(JObj(stk));
    assert MetadataItems(JObj(stk)) == Ok(items);
    FillLastWins(map[], items, key);
  }

  /** process_callback with its loop: the items are read one by one into transaction_data. */
  method ParseCallbackRun(data: Value) returns (r: CallbackOutcome)
    ensures r == ParseCallback(data)
  {
    var stkR := StkCallback(data);
    if stkR.Err? {
      return Errored(stkR.error);
    }
    var stk := stkR.value;
    if !stk.JObj? {
      return Errored("'" + TypeName(stk) + "' object has no attribute 'get'");
    }
    var code := Get(stk, "ResultCode", JNull).value;
    var desc := Get(stk, "ResultDesc", JStr("")).value;
    var checkout := Get(stk, "CheckoutRequestID", JNull).value;
    var merchant := Get(stk, "MerchantRequestID", JNull).value;
    if !EqualsZero(code) {
      return Declined(code, if Truthy(desc) then desc else JStr("Payment failed or was cancelled"));
    }
    var itemsR := MetadataItems(stk);
    if itemsR.Err? {
      return Errored(itemsR.error);
    }
    var items := itemsR.value;
    var td: map<Value, Value> := map[];
    var i := 0;
    while i < |items|
      invariant 0 <= i <= |items|
      invariant Fill(td, items[i..]) == Fill(map[], items)
    {
      var step := FillOne(td, items[i]);
      if step.Err? {
        assert Fill(td, items[i..]) == Err(step.error);
        return Errored(step.error);
      }
      assert items[i..][1..] == items[i + 1..];
      td := step.value;
      i := i + 1;
    }
    return Succeeded(code, checkout, merchant, td);
  }
}
