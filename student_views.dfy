// The student dashboard's letter grade and its fees page. As written, the
// fees page reads `student.student_class`, a field the Student model does not
// declare, so it always answers 500 (StudentApiFees). The page it evidently
// means to build is modelled too: one row per invoice of the student's class
// with what completed payments have paid, what is outstanding and a status,
// and the totals over the rows (StudentFees). Amounts are integer cents.

module StudentViews {
  import opened Common

  // ---------------------------------------------------------------------------
  // calculate_grade

  /** calculate_grade(score): A from 90, B from 80, C from 70, D from 60, else F. */
  function Grade(score: real): string
  {
    if score >= 90.0 then "A"
    else if score >= 80.0 then "B"
    else if score >= 70.0 then "C"
    else if score >= 60.0 then "D"
    else "F"
  }

  /** The order of the letters, F lowest. */
  function Rank(grade: string): nat
  {
    if grade == "A" then 4 else if grade == "B" then 3 else if grade == "C" then 2 else if grade == "D" then 1 else 0
  }

  /** Each letter is exactly its band of scores. */
  lemma GradeBands(score: real)
    ensures Grade(score) == "A" <==> score >= 90.0
    ensures Grade(score) == "B" <==> 80.0 <= score < 90.0
    ensures Grade(score) == "C" <==> 70.0 <= score < 80.0
    ensures Grade(score) == "D" <==> 60.0 <= score < 70.0
    ensures Grade(score) == "F" <==> score < 60.0
  {
  }

  /** A higher score never gets a worse grade. */
  lemma GradeMonotone(a: real, b: real)
    requires a <= b
    ensures Rank(Grade(a)) <= Rank(Grade(b))
  {
  }

  // ---------------------------------------------------------------------------
  // student_api_fees

  datatype Invoice = Invoice(id: nat, studentClass: nat, description: string, totalCents: int, dueDate: Option<string>, createdAt: string)

  datatype FeePayment = FeePayment(invoice: nat, status: string, amountCents: int)

  /** One entry of invoices_data. */
  datatype InvoiceRow = InvoiceRow(id: nat, description: string, totalCents: int, paidCents: int, outstandingCents: int,
                                   dueDate: Option<string>, status: string, createdAt: string)

  /** Invoice.objects.filter(student_class=...), in the table's order. */
  function ForClass(invoices: seq<Invoice>, cls: nat): (r: seq<Invoice>)
    ensures forall x :: x in r <==> x in invoices && x.studentClass == cls
    decreases |invoices|
  {
    if invoices == [] then []
    else
      var rest := ForClass(invoices[..|invoices| - 1], cls);
      var last := invoices[|invoices| - 1];
      assert invoices == invoices[..|invoices| - 1] + [last];
      if last.studentClass == cls then rest + [last] else rest
  }

  /** The Sum of the completed payments of an invoice, 0 when there are none. */
  function PaidFor(payments: seq<FeePayment>, id: nat): int
    decreases |payments|
  {
    if payments == [] then 0
    else
      var p := payments[|payments| - 1];
      PaidFor(payments[..|payments| - 1], id) + (if p.invoice == id && p.status == "completed" then p.amountCents else 0)
  }

  /** 'paid' when nothing is outstanding, else 'partial' when something is paid, else 'pending'. */
  function Status(outstanding: int, paid: int): string
  {
    if outstanding == 0 then "paid" else if paid > 0 then "partial" else "pending"
  }

  /** The row the loop appends for one invoice. */
  function Row(inv: Invoice, payments: seq<FeePayment>): InvoiceRow
  {
    var paid := PaidFor(payments, inv.id);
    var outstanding := inv.totalCents - paid;
    InvoiceRow(inv.id, inv.description, inv.totalCents, paid, outstanding, inv.dueDate, Status(outstanding, paid), inv.createdAt)
  }

  function Rows(invoices: seq<Invoice>, payments: seq<FeePayment>): (r: seq<InvoiceRow>)
    ensures |r| == |invoices|
    ensures forall i :: 0 <= i < |invoices| ==> r[i] == Row(invoices[i], payments)
    decreases |invoices|
  {
    if invoices == [] then []
    else Rows(invoices[..|invoices| - 1], payments) + [Row(invoices[|invoices| - 1], payments)]
  }

  function TotalInvoiced(rows: seq<InvoiceRow>): int
    decreases |rows|
  {
    if rows == [] then 0 else TotalInvoiced(rows[..|rows| - 1]) + rows[|rows| - 1].totalCents
  }

  function TotalPaid(rows: seq<InvoiceRow>): int
    decreases |rows|
  {
    if rows == [] then 0 else TotalPaid(rows[..|rows| - 1]) + rows[|rows| - 1].paidCents
  }

  function TotalOutstandingOfRows(rows: seq<InvoiceRow>): int
    decreases |rows|
  {
    if rows == [] then 0 else TotalOutstandingOfRows(rows[..|rows| - 1]) + rows[|rows| - 1].outstandingCents
  }

  /** A row's status: paid exactly when the completed payments cover the total, partial when some but not that, else pending. */
  lemma StatusIff(inv: Invoice, payments: seq<FeePayment>)
    ensures var r := Row(inv, payments);
      (r.status == "paid" <==> r.paidCents == inv.totalCents) &&
      (r.status == "partial" <==> r.paidCents != inv.totalCents && r.paidCents > 0) &&
      (r.status == "pending" <==> r.paidCents != inv.totalCents && r.paidCents <= 0) &&
      r.outstandingCents == inv.totalCents - r.paidCents
  {
  }

  /** Only completed payments of the invoice count towards what is paid. */
  lemma {:induction false} PaidCountsCompleted(payments: seq<FeePayment>, p: FeePayment, id: nat)
    requires p.invoice != id || p.status != "completed"
    ensures PaidFor(payments + [p], id) == PaidFor(payments, id)
    ensures PaidFor([p] + payments, id) == PaidFor(payments, id)
    decreases |payments|
  {
    assert (payments + [p])[..|payments|] == payments;
    if payments != [] {
      var init := payments[..|payments| - 1];
      assert ([p] + payments)[..|payments|] == [p] + init;
      PaidCountsCompleted(init, p, id);
    } else {
      assert [p] + payments == [p];
      assert ([p])[..0] == [];
    }
  }

  /** With positive payment amounts, what is paid is never negative, and an invoice with a completed payment has a positive paid amount, so it is not pending. */
  lemma {:induction false} PaidPositive(payments: seq<FeePayment>, id: nat)
    requires forall i :: 0 <= i < |payments| ==> payments[i].amountCents > 0
    ensures PaidFor(payments, id) >= 0
    ensures (exists i :: 0 <= i < |payments| && payments[i].invoice == id && payments[i].status == "completed") ==>
      PaidFor(payments, id) > 0
    decreases |payments|
  {
    if payments != [] {
      var init := payments[..|payments| - 1];
      assert forall i :: 0 <= i < |init| ==> init[i] == payments[i];
      PaidPositive(init, id);
      if exists i :: 0 <= i < |payments| && payments[i].invoice == id && payments[i].status == "completed" {
        var i :| 0 <= i < |payments| && payments[i].invoice == id && payments[i].status == "completed";
        if i < |init| {
          assert init[i] == payments[i];
        }
      }
    }
  }

  /** An overpaid invoice, which the callback path can produce, shows as partial. */
  lemma OverpaidShowsPartial(inv: Invoice, payments: seq<FeePayment>)
    requires PaidFor(payments, inv.id) > inv.totalCents && PaidFor(payments, inv.id) > 0
    ensures Row(inv, payments).status == "partial" && Row(inv, payments).outstandingCents < 0
  {
  }

  /** total_outstanding, computed as invoiced minus paid, is the sum of the rows' outstanding amounts. */
  lemma {:induction false} OutstandingIsSum(rows: seq<InvoiceRow>)
    requires forall i :: 0 <= i < |rows| ==> rows[i].outstandingCents == rows[i].totalCents - rows[i].paidCents
    ensures TotalInvoiced(rows) - TotalPaid(rows) == TotalOutstandingOfRows(rows)
    decreases |rows|
  {
    if rows != [] {
      var init := rows[..|rows| - 1];
      assert forall i :: 0 <= i < |init| ==> init[i] == rows[i];
      OutstandingIsSum(init);
    }
  }

  /** The fields the Student model declares, with the implicit primary key. */
  const StudentModelFields: set<string> :=
    {"id", "user", "school", "registration_number", "date_of_birth", "grade", "enrollment_date", "is_active"}

  /** The message of get_object_or_404 for a user without a Student. */
  const NoStudent: string := "No Student matches the given query."

  /** The message of reading a field the model does not declare. */
  function NoAttribute(name: string): string
  {
    "'Student' object has no attribute '" + name + "'"
  }

  /** What student_api_fees answers: the page, or the except's 500 with the error's text. */
  datatype FeesAnswer =
    | FeesPage(rows: seq<InvoiceRow>, totalInvoiced: int, totalPaid: int, totalOutstanding: int)
    | FeesFailed(status: int, error: string)

  /** The page built from the invoices of class `cls`. */
  function PageOf(invoices: seq<Invoice>, payments: seq<FeePayment>, cls: nat): FeesAnswer
  {
    var rows := Rows(ForClass(invoices, cls), payments);
    FeesPage(rows, TotalInvoiced(rows), TotalPaid(rows), TotalInvoiced(rows) - TotalPaid(rows))
  }

  /**
   * student_api_fees given the fields the Student model declares: `student`
   * is None when the user has no Student, and otherwise the class that
   * `student.student_class` would read. Both exceptions are caught by the
   * view's except and answered 500 with their text.
   */
  function StudentApiFees(fields: set<string>, student: Option<nat>, invoices: seq<Invoice>, payments: seq<FeePayment>): (r: FeesAnswer)
    ensures r.FeesPage? <==> student.Some? && "student_class" in fields
    ensures r.FeesFailed? ==> r.status == 500
    ensures student.None? ==> r.error == NoStudent
    ensures student.Some? && "student_class" !in fields ==> r.error == NoAttribute("student_class")
    ensures r.FeesPage? ==> r == PageOf(invoices, payments, student.value)
  {
    match student
    case None => FeesFailed(500, NoStudent)
    case Some(cls) =>
      if "student_class" !in fields then FeesFailed(500, NoAttribute("student_class"))
      else PageOf(invoices, payments, cls)
  }

  /**
   * As written, no student ever sees a fees page: with the Student model's
   * own fields every request is answered 500, a student's with the missing
   * attribute, whatever the invoices and payments.
   */
  lemma AsWrittenFeesFail(student: Option<nat>, invoices: seq<Invoice>, payments: seq<FeePayment>)
    ensures var r := StudentApiFees(StudentModelFields, student, invoices, payments);
      r.FeesFailed? && r.status == 500 &&
      r.error == (if student.Some? then "'Student' object has no attribute 'student_class'" else NoStudent)
  {
    assert "student_class" !in StudentModelFields;
  }

  /** Every row belongs to an invoice of the class. */
  lemma RowsOfClass(invoices: seq<Invoice>, payments: seq<FeePayment>, cls: nat)
    ensures forall r :: r in Rows(ForClass(invoices, cls), payments) ==>
      exists inv :: inv in invoices && inv.studentClass == cls && r == Row(inv, payments)
  {
    var mine := ForClass(invoices, cls);
    var rows := Rows(mine, payments);
    forall r | r in rows ensures exists inv :: inv in invoices && inv.studentClass == cls && r == Row(inv, payments) {
      var i :| 0 <= i < |rows| && rows[i] == r;
      assert mine[i] in mine;
    }
  }

  /**
   * The fees page student_api_fees evidently means to build, as it would run
   * with a `student_class` field on Student: the rows of the class's
   * invoices, in order, and the summary totals; total_outstanding is invoiced
   * minus paid.
   */
  method StudentFees(invoices: seq<Invoice>, payments: seq<FeePayment>, cls: nat)
    returns (rows: seq<InvoiceRow>, totalInvoiced: int, totalPaid: int, totalOutstanding: int)
    ensures FeesPage(rows, totalInvoiced, totalPaid, totalOutstanding) ==
            StudentApiFees(StudentModelFields + {"student_class"}, Some(cls), invoices, payments)
    ensures rows == Rows(ForClass(invoices, cls), payments)
    ensures forall r :: r in rows ==> exists inv :: inv in invoices && inv.studentClass == cls && r == Row(inv, payments)
    ensures totalInvoiced == TotalInvoiced(rows) && totalPaid == TotalPaid(rows)
    ensures totalOutstanding == TotalOutstandingOfRows(rows)
  {
    var mine := ForClass(invoices, cls);
    rows := InvoiceRows(mine, payments);
    RowsOfClass(invoices, payments, cls);
    totalInvoiced := TotalInvoiced(rows);
    totalPaid := TotalPaid(rows);
    totalOutstanding := totalInvoiced - totalPaid;
    OutstandingIsSum(rows);
  }

  /** The loop over the class's invoices: one row each, in order. */
  method InvoiceRows(mine: seq<Invoice>, payments: seq<FeePayment>) returns (rows: seq<InvoiceRow>)
    ensures rows == Rows(mine, payments)
  {
    rows := [];
    var j := 0;
    while j < |mine|
      invariant 0 <= j <= |mine|
      invariant rows == Rows(mine[..j], payments)
    {
      assert mine[..j + 1][..j] == mine[..j];
      var inv := mine[j];
      var paid := PaidFor(payments, inv.id);
      var outstanding := inv.totalCents - paid;
      rows := rows + [InvoiceRow(inv.id, inv.description, inv.totalCents, paid, outstanding, inv.dueDate,
                                 if outstanding == 0 then "paid" else if paid > 0 then "partial" else "pending", inv.createdAt)];
      j := j + 1;
    }
    assert mine[..j] == mine;
  }
}
