// The M-Pesa callback view of core/payments/views.py: the parsed callback is
// matched to FeePayment rows, first by the invoice named in AccountReference,
// then by the receipt number inside the payment reference, and every matched
// row is marked completed with the receipt and the raw callback attached.

module PaymentsViews {
  import opened Common
  import opened Json
  import opened FeeServices
  import opened MpesaIntegration

  /** The JSON reply of mpesa_callback. */
  datatype CallbackReply = CallbackReply(resultCode: int, resultDesc: Value)

  /** transaction_data.get(key) */
  function TxField(td: map<Value, Value>, key: string): Value
  {
    if JStr(key) in td then td[JStr(key)] else JNull
  }

  /** AccountReference, else Account, as an invoice id when int() accepts it. */
  function AccountInvoice(td: map<Value, Value>): (r: Option<int>)
    ensures r.Some? ==> Truthy(TxField(td, "AccountReference")) || Truthy(TxField(td, "Account"))
  {
    var ref := if Truthy(TxField(td, "AccountReference")) then TxField(td, "AccountReference") else TxField(td, "Account");
    if Truthy(ref) then PyInt(ref) else None
  }

  /** The two queries the view runs over the payments table. */
  datatype Selector = ByInvoice(invoiceId: int) | ByReference(receipt: string)

  predicate Selects(sel: Selector, p: FeePayment)
  {
    match sel
    case ByInvoice(id) => p.invoiceId as int == id && p.paymentMethod == "mpesa"
    case ByReference(receipt) => IContains(p.reference, receipt)
  }

  /** The fields the loop sets on each matched payment. */
  function Completed(p: FeePayment, receipt: Value, raw: Value): FeePayment
  {
    p.(mpesaTransactionId := receipt, callbackJson := raw, status := PaymentCompleted)
  }

  /** Every payment the selector picks, completed; the others as they were. */
  function CompleteSelected(payments: seq<FeePayment>, sel: Selector, receipt: Value, raw: Value): (r: seq<FeePayment>)
    ensures |r| == |payments|
    ensures forall k :: 0 <= k < |payments| ==>
      r[k] == if Selects(sel, payments[k]) then Completed(payments[k], receipt, raw) else payments[k]
  {
    seq(|payments|, k requires 0 <= k < |payments| =>
      if Selects(sel, payments[k]) then Completed(payments[k], receipt, raw) else payments[k])
  }

  predicate AnySelected(payments: seq<FeePayment>, sel: Selector)
  {
    exists k :: 0 <= k < |payments| && Selects(sel, payments[k])
  }

  /**
   * mpesa_callback on the decoded body (None when the body is not JSON): the
   * new payments table and the reply.
   */
  function MpesaCallbackStep(payments: seq<FeePayment>, body: Option<Value>): (seq<FeePayment>, CallbackReply)
  {
    if body.None? then (payments, CallbackReply(1, JStr("Error processing callback")))
    else
      var raw := body.value;
      match ParseCallback(raw)
      case Succeeded(_, _, _, td) =>
        (SettleMatched(payments, AccountInvoice(td), TxField(td, "MpesaReceiptNumber"), raw), CallbackReply(0, JStr("Accepted")))
      case Declined(_, message) => (payments, CallbackReply(1, message))
      case Errored(_) => (payments, CallbackReply(1, JStr("Error processing callback")))
  }

  /** The writes of a successful callback: the invoice's payments, else those with the receipt as reference. */
  function SettleMatched(payments: seq<FeePayment>, inv: Option<int>, receipt: Value, raw: Value): seq<FeePayment>
  {
    var byInvoiceHit := inv.Some? && AnySelected(payments, ByInvoice(inv.value));
    var ps1 := if inv.Some? then CompleteSelected(payments, ByInvoice(inv.value), receipt, raw) else payments;
    if !byInvoiceHit && Truthy(receipt) then CompleteSelected(ps1, ByReference(PyStr(receipt)), receipt, raw) else ps1
  }

  /** Every parsed success answers 0 'Accepted', matched or not; anything else answers 1 and writes nothing. */
  lemma CallbackReplyFollowsParse(payments: seq<FeePayment>, body: Option<Value>)
    ensures var (ps, reply) := MpesaCallbackStep(payments, body);
      (reply.resultCode == 0 <==> body.Some? && ParseCallback(body.value).Succeeded?) &&
      (reply.resultCode == 0 ==> reply.resultDesc == JStr("Accepted")) &&
      (reply.resultCode != 0 ==> ps == payments && reply.resultCode == 1) &&
      (body.Some? && ParseCallback(body.value).Declined? ==> reply.resultDesc == ParseCallback(body.value).message) &&
      (body.None? || ParseCallback(body.value).Errored? ==> reply.resultDesc == JStr("Error processing callback"))
  {
  }

  /**
   * When the account reference names an invoice that has mpesa payments, each
   * of them, and nothing else, is completed with the receipt and the callback.
   */
  lemma InvoiceReferenceCompletes(payments: seq<FeePayment>, raw: Value, id: int)
    requires ParseCallback(raw).Succeeded?
    requires AccountInvoice(ParseCallback(raw).transactionData) == Some(id)
    requires AnySelected(payments, ByInvoice(id))
    ensures var ps := MpesaCallbackStep(payments, Some(raw)).0;
      var receipt := TxField(ParseCallback(raw).transactionData, "MpesaReceiptNumber");
      |ps| == |payments| &&
      forall k :: 0 <= k < |payments| ==>
        ps[k] == if payments[k].invoiceId as int == id && payments[k].paymentMethod == "mpesa"
                 then Completed(payments[k], receipt, raw) else payments[k]
  {
  }

  /** The reference search runs only when the invoice lookup updated nothing and a receipt is present. */
  lemma ReferenceFallbackGuard(payments: seq<FeePayment>, raw: Value)
    requires ParseCallback(raw).Succeeded?
    ensures var td := ParseCallback(raw).transactionData;
      var receipt := TxField(td, "MpesaReceiptNumber");
      var inv := AccountInvoice(td);
      var ps := MpesaCallbackStep(payments, Some(raw)).0;
      (inv.None? && !Truthy(receipt) ==> ps == payments) &&
      (inv.None? && Truthy(receipt) ==> ps == CompleteSelected(payments, ByReference(PyStr(receipt)), receipt, raw))
  {
  }

  /**
   * A list or dict receipt is searched for as its str(), which opens with a
   * bracket or a brace; so when the invoice lookup finds nothing, every
   * payment whose reference holds no such character is left as it was.
   */
  lemma ContainerReceiptSearch(payments: seq<FeePayment>, raw: Value)
    requires ParseCallback(raw).Succeeded?
    requires AccountInvoice(ParseCallback(raw).transactionData).None?
    requires var receipt := TxField(ParseCallback(raw).transactionData, "MpesaReceiptNumber");
      receipt.JList? || receipt.JObj?
    ensures var receipt := TxField(ParseCallback(raw).transactionData, "MpesaReceiptNumber");
      var ps := MpesaCallbackStep(payments, Some(raw)).0;
      var open := if receipt.JList? then '[' else '{';
      |ps| == |payments| &&
      forall k :: 0 <= k < |payments| && open !in payments[k].reference ==> ps[k] == payments[k]
  {
    var receipt := TxField(ParseCallback(raw).transactionData, "MpesaReceiptNumber");
    var open := if receipt.JList? then '[' else '{';
    var text := PyStr(receipt);
    var ps := MpesaCallbackStep(payments, Some(raw)).0;
    assert text[0] == open;
    ReferenceFallbackGuard(payments, raw);
    if Truthy(receipt) {
      assert ps == CompleteSelected(payments, ByReference(text), receipt, raw);
      forall k | 0 <= k < |payments| && open !in payments[k].reference
        ensures ps[k] == payments[k]
      {
        OpeningAbsent(payments[k].reference, text);
      }
    } else {
      assert ps == payments;
    }
  }

  /** A reference without the first character of the searched text, a character that is no letter, does not contain the text in any case. */
  lemma OpeningAbsent(reference: string, text: string)
    requires text != [] && !('A' <= text[0] <= 'Z') && !('a' <= text[0] <= 'z') && text[0] !in reference
    ensures !IContains(reference, text)
  {
    assert Lower(text)[0] == text[0];
    assert text[0] !in Lower(reference) by {
      forall i | 0 <= i < |reference| ensures Lower(reference)[i] != text[0] {
        assert reference[i] in reference;
      }
    }
    if IContains(reference, text) {
      ContainsFirst(Lower(reference), Lower(text));
    }
  }

  /** Selection reads only the invoice, the method and the reference, which completion leaves alone. */
  lemma CompletedKeepsSelection(p: FeePayment, receipt: Value, raw: Value, sel: Selector)
    ensures Selects(sel, Completed(p, receipt, raw)) == Selects(sel, p)
    ensures Completed(Completed(p, receipt, raw), receipt, raw) == Completed(p, receipt, raw)
  {
  }

  lemma CompleteSelectedTwice(payments: seq<FeePayment>, sel: Selector, receipt: Value, raw: Value)
    ensures CompleteSelected(CompleteSelected(payments, sel, receipt, raw), sel, receipt, raw) ==
      CompleteSelected(payments, sel, receipt, raw)
  {
    var once := CompleteSelected(payments, sel, receipt, raw);
    var twice := CompleteSelected(once, sel, receipt, raw);
    forall k | 0 <= k < |payments| ensures twice[k] == once[k] {
      CompletedKeepsSelection(payments[k], receipt, raw, sel);
    }
  }

  /** The same callback delivered twice leaves the table as one delivery did. */
  lemma CallbackRedeliveryHarmless(payments: seq<FeePayment>, raw: Value)
    requires ParseCallback(raw).Succeeded?
    ensures var once := MpesaCallbackStep(payments, Some(raw)).0;
      MpesaCallbackStep(once, Some(raw)).0 == once
  {
    var td := ParseCallback(raw).transactionData;
    SettleMatchedTwice(payments, AccountInvoice(td), TxField(td, "MpesaReceiptNumber"), raw);
  }

  /** Settling the same callback's payments a second time changes nothing. */
  lemma SettleMatchedTwice(payments: seq<FeePayment>, inv: Option<int>, receipt: Value, raw: Value)
    ensures var once := SettleMatched(payments, inv, receipt, raw);
      SettleMatched(once, inv, receipt, raw) == once
  {
    if inv.Some? {
      var sel := ByInvoice(inv.value);
      var ps1 := CompleteSelected(payments, sel, receipt, raw);
      CompleteSelectedTwice(payments, sel, receipt, raw);
      if AnySelected(payments, sel) {
        var k :| 0 <= k < |payments| && Selects(sel, payments[k]);
        CompletedKeepsSelection(payments[k], receipt, raw, sel);
        assert Selects(sel, ps1[k]);
      } else {
        assert ps1 == payments;
        if Truthy(receipt) {
          FallbackStaysUnselected(payments, sel, receipt, raw);
        }
      }
    } else if Truthy(receipt) {
      CompleteSelectedTwice(payments, ByReference(PyStr(receipt)), receipt, raw);
    }
  }

  /** When no payment is the invoice's, completing by receipt picks none of them either, and a second pass by receipt changes nothing. */
  lemma FallbackStaysUnselected(payments: seq<FeePayment>, sel: Selector, receipt: Value, raw: Value)
    requires !AnySelected(payments, sel)
    ensures var ps2 := CompleteSelected(payments, ByReference(PyStr(receipt)), receipt, raw);
      !AnySelected(ps2, sel) && CompleteSelected(ps2, sel, receipt, raw) == ps2 &&
      CompleteSelected(ps2, ByReference(PyStr(receipt)), receipt, raw) == ps2
  {
    CompleteSelectedTwice(payments, ByReference(PyStr(receipt)), receipt, raw);
    var ps2 := CompleteSelected(payments, ByReference(PyStr(receipt)), receipt, raw);
    forall k | 0 <= k < |ps2| ensures !Selects(sel, ps2[k]) {
      CompletedKeepsSelection(payments[k], receipt, raw, sel);
    }
    assert CompleteSelected(ps2, sel, receipt, raw) == ps2;
  }

  /** Completing payments touches neither invoices nor amounts, so the books stay well formed. */
  lemma CompleteSelectedKeepsWellFormed(dir: Directory, b: Books, sel: Selector, receipt: Value, raw: Value)
    requires WellFormed(dir, b)
    ensures WellFormed(dir, b.(payments := CompleteSelected(b.payments, sel, receipt, raw)))
  {
    SameAmountsKeepWellFormed(dir, b, CompleteSelected(b.payments, sel, receipt, raw));
  }

  lemma CallbackStepKeepsWellFormed(dir: Directory, b: Books, body: Option<Value>)
    requires WellFormed(dir, b)
    ensures WellFormed(dir, b.(payments := MpesaCallbackStep(b.payments, body).0))
  {
    if body.Some? && ParseCallback(body.value).Succeeded? {
      var td := ParseCallback(body.value).transactionData;
      SettleMatchedKeepsWellFormed(dir, b, AccountInvoice(td), TxField(td, "MpesaReceiptNumber"), body.value);
    }
  }

  lemma SettleMatchedKeepsWellFormed(dir: Directory, b: Books, inv: Option<int>, receipt: Value, raw: Value)
    requires WellFormed(dir, b)
    ensures WellFormed(dir, b.(payments := SettleMatched(b.payments, inv, receipt, raw)))
  {
    var b1 := b;
    if inv.Some? {
      CompleteSelectedKeepsWellFormed(dir, b, ByInvoice(inv.value), receipt, raw);
      b1 := b.(payments := CompleteSelected(b.payments, ByInvoice(inv.value), receipt, raw));
    }
    if Truthy(receipt) {
      CompleteSelectedKeepsWellFormed(dir, b1, ByReference(PyStr(receipt)), receipt, raw);
    }
  }

  /** One `for p in payments` loop: each selected payment is completed and saved. */
  method CompleteMatching(ledger: FeeLedger, sel: Selector, receipt: Value, raw: Value) returns (updated: bool)
    modifies ledger`payments
    ensures ledger.payments == CompleteSelected(old(ledger.payments), sel, receipt, raw)
    ensures updated <==> AnySelected(old(ledger.payments), sel)
  {
    ghost var start := ledger.payments;
    updated := false;
    var k := 0;
    while k < |ledger.payments|
      invariant 0 <= k <= |ledger.payments| == |start|
      invariant forall j :: 0 <= j < k ==>
        ledger.payments[j] == if Selects(sel, start[j]) then Completed(start[j], receipt, raw) else start[j]
      invariant forall j :: k <= j < |start| ==> ledger.payments[j] == start[j]
      invariant updated <==> exists j :: 0 <= j < k && Selects(sel, start[j])
    {
      var p := ledger.payments[k];
      if Selects(sel, p) {
        ledger.payments := ledger.payments[k := Completed(p, receipt, raw)];
        updated := true;
      }
      k := k + 1;
    }
  }

  /** payments.views.mpesa_callback */
  method MpesaCallback(ledger: FeeLedger, body: Option<Value>) returns (reply: CallbackReply)
    requires ledger.Valid()
    modifies ledger`payments
    ensures ledger.Valid()
    ensures (ledger.payments, reply) == MpesaCallbackStep(old(ledger.payments), body)
  {
    CallbackStepKeepsWellFormed(ledger.Dir(), ledger.State(), body);
    if body.None? {
      reply := CallbackReply(1, JStr("Error processing callback"));
    } else {
      var raw := body.value;
      var result := ParseCallbackRun(raw);
      match result {
        case Succeeded(_, _, _, td) =>
          SettlePayments(ledger, AccountInvoice(td), TxField(td, "MpesaReceiptNumber"), raw);
          reply := CallbackReply(0, JStr("Accepted"));
        case Declined(_, message) =>
          reply := CallbackReply(1, message);
        case Errored(_) =>
          reply := CallbackReply(1, JStr("Error processing callback"));
      }
    }
    assert ledger.payments == MpesaCallbackStep(old(ledger.payments), body).0;
    assert ledger.State() == old(ledger.State()).(payments := ledger.payments);
    assert ledger.Dir() == old(ledger.Dir());
  }

  /** The success branch of mpesa_callback: by invoice first, by receipt only when that updated nothing. */
  method SettlePayments(ledger: FeeLedger, inv: Option<int>, receipt: Value, raw: Value)
    modifies ledger`payments
    ensures ledger.payments == SettleMatched(old(ledger.payments), inv, receipt, raw)
  {
    var updated := false;
    if inv.Some? {
      updated := CompleteMatching(ledger, ByInvoice(inv.value), receipt, raw);
    }
    if !updated && Truthy(receipt) {
      var hit := CompleteMatching(ledger, ByReference(PyStr(receipt)), receipt, raw);
    }
  }
}
