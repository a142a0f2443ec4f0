// The fee engine of core/fees/services.py: invoice generation from fee
// structures, payment recording, arrears recomputation, and matching of M-Pesa
// payments to invoices.
//
// The tables live in a FeeLedger object whose fields the operations reassign.
// Each operation is specified by a pure function over two value snapshots:
// Directory, the tables the engine only reads, and Books, the tables it writes.
// The lemmas are stated about those functions.
//
// Money is integer cents, calendar dates are day numbers, and timestamps are
// abstract integers. Row identifiers are the positions of the rows in their
// tables.

module FeeServices {
  import opened Common
  import opened Json

  /** The window of the fallback match: 100 shillings either side, in cents. */
  const MatchToleranceCents: int := 10000

  datatype InvoiceStatus = Draft | Issued | Partial | Paid | Overdue | Cancelled

  datatype Invoice = Invoice(
    id: nat,
    studentId: nat,
    termId: nat,
    totalAmount: int,
    amountPaid: int,
    balance: int,
    status: InvoiceStatus,
    dueDate: Option<int>,
    createdBy: Option<nat>)

  datatype FeeStructure = FeeStructure(
    id: nat, schoolId: nat, termId: nat, classAssigned: Option<nat>, amount: int)

  /** A per-student override; an absent amount means the fee is waived. */
  datatype FeeOverride = FeeOverride(
    studentId: nat, termId: nat, feeStructureId: nat, overrideAmount: Option<int>)

  /** The Student fields generation reads; core/users/models.py declares no class field. */
  datatype Student = Student(
    id: nat, userId: nat, schoolId: Option<nat>, isActive: bool)

  /** The part of a user account that matching looks at. */
  datatype Account = Account(id: nat, phone: Option<string>)

  datatype PaymentStatus = PaymentPending | PaymentCompleted | PaymentFailed

  datatype FeePayment = FeePayment(
    id: nat,
    invoiceId: nat,
    amount: int,
    paymentMethod: string,
    reference: string,
    status: PaymentStatus,
    mpesaTransactionId: Value,
    callbackJson: Value,
    recordedBy: Option<nat>)

  datatype Arrears = Arrears(
    studentId: nat,
    schoolId: Option<nat>,
    totalArrears: int,
    daysOutstanding: int,
    isResolved: bool,
    resolvedDate: Option<int>,
    notes: string)

  datatype TxStatus = TxPending | TxMatched | TxUnmatched | TxProcessed

  datatype MpesaTransaction = MpesaTransaction(
    transactionId: string,
    amount: int,
    phoneNumber: string,
    referenceText: string,
    status: TxStatus,
    matchedInvoice: Option<nat>,
    raw: Value)

  /** The tables the engine reads and never writes. */
  datatype Directory = Directory(
    structures: seq<FeeStructure>,
    overrides: seq<FeeOverride>,
    students: seq<Student>,
    accounts: seq<Account>)

  /** The tables the engine writes. */
  datatype Books = Books(
    invoices: seq<Invoice>,
    payments: seq<FeePayment>,
    arrears: seq<Arrears>,
    transactions: seq<MpesaTransaction>)

  /** The outcome of an operation: the new tables and what the caller receives. */
  datatype Step<R> = Step(books: Books, result: R)

  // ---------------------------------------------------------------------------
  // Table invariants

  predicate Balanced(inv: Invoice)
  {
    inv.amountPaid + inv.balance == inv.totalAmount
  }

  /** The sum of the payment amounts recorded against one invoice. */
  function PaidInto(payments: seq<FeePayment>, invoiceId: nat): int
    decreases |payments|
  {
    if payments == [] then 0
    else
      var last := payments[|payments| - 1];
      PaidInto(payments[..|payments| - 1], invoiceId) + (if last.invoiceId == invoiceId then last.amount else 0)
  }

  predicate StudentsIndexed(students: seq<Student>)
  {
    forall k :: 0 <= k < |students| ==> students[k].id == k
  }

  predicate AccountsIndexed(accounts: seq<Account>)
  {
    forall k :: 0 <= k < |accounts| ==> accounts[k].id == k
  }

  predicate InvoicesIndexed(invoices: seq<Invoice>, studentCount: nat)
  {
    forall k :: 0 <= k < |invoices| ==>
      invoices[k].id == k && invoices[k].studentId < studentCount && Balanced(invoices[k])
  }

  /** Every invoice's amount_paid is the sum of the payments recorded against it. */
  predicate PaymentsAccounted(invoices: seq<Invoice>, payments: seq<FeePayment>)
  {
    forall k :: 0 <= k < |invoices| ==> invoices[k].amountPaid == PaidInto(payments, k)
  }

  predicate PaymentsIndexed(payments: seq<FeePayment>, invoiceCount: nat)
  {
    forall k :: 0 <= k < |payments| ==> payments[k].id == k && payments[k].invoiceId < invoiceCount
  }

  /** One arrears row per (student, school). */
  predicate ArrearsKeysUnique(rows: seq<Arrears>)
  {
    forall i, j :: 0 <= i < j < |rows| ==>
      rows[i].studentId != rows[j].studentId || rows[i].schoolId != rows[j].schoolId
  }

  /** The M-Pesa receipt number identifies a transaction record. */
  predicate TxIdsUnique(txs: seq<MpesaTransaction>)
  {
    forall i, j :: 0 <= i < j < |txs| ==> txs[i].transactionId != txs[j].transactionId
  }

  /** Links point at invoices, and an unmatched transaction links to none. */
  predicate TxLinksValid(txs: seq<MpesaTransaction>, invoiceCount: nat)
  {
    forall k :: 0 <= k < |txs| ==>
      (txs[k].matchedInvoice.Some? ==> txs[k].matchedInvoice.value < invoiceCount) &&
      (txs[k].status == TxUnmatched ==> txs[k].matchedInvoice.None?)
  }

  predicate WellFormed(dir: Directory, b: Books)
  {
    StudentsIndexed(dir.students) && AccountsIndexed(dir.accounts) &&
    InvoicesIndexed(b.invoices, |dir.students|) &&
    PaymentsAccounted(b.invoices, b.payments) &&
    PaymentsIndexed(b.payments, |b.invoices|) &&
    ArrearsKeysUnique(b.arrears) &&
    TxIdsUnique(b.transactions) &&
    TxLinksValid(b.transactions, |b.invoices|)
  }

  lemma {:induction false} PaidIntoAppend(ps: seq<FeePayment>, p: FeePayment, k: nat)
    ensures PaidInto(ps + [p], k) == PaidInto(ps, k) + (if p.invoiceId == k then p.amount else 0)
  {
    assert (ps + [p])[..|ps|] == ps;
  }

  /** An invoice no payment points at has nothing paid into it. */
  lemma {:induction false} PaidIntoUnreferenced(ps: seq<FeePayment>, k: nat)
    requires forall j :: 0 <= j < |ps| ==> ps[j].invoiceId != k
    ensures PaidInto(ps, k) == 0
    decreases |ps|
  {
    if ps != [] {
      PaidIntoUnreferenced(ps[..|ps| - 1], k);
    }
  }

  /** Rewriting fields other than the invoice and the amount leaves the sums alone. */
  lemma {:induction false} PaidIntoSameAmounts(ps: seq<FeePayment>, qs: seq<FeePayment>, k: nat)
    requires |ps| == |qs|
    requires forall j :: 0 <= j < |ps| ==> ps[j].invoiceId == qs[j].invoiceId && ps[j].amount == qs[j].amount
    ensures PaidInto(ps, k) == PaidInto(qs, k)
    decreases |ps|
  {
    if ps != [] {
      PaidIntoSameAmounts(ps[..|ps| - 1], qs[..|qs| - 1], k);
    }
  }

  /** Payments rewritten without touching their ids, invoices or amounts keep the books well formed. */
  lemma SameAmountsKeepWellFormed(dir: Directory, b: Books, ps: seq<FeePayment>)
    requires WellFormed(dir, b) && |ps| == |b.payments|
    requires forall j :: 0 <= j < |ps| ==> ps[j].id == b.payments[j].id && ps[j].invoiceId == b.payments[j].invoiceId && ps[j].amount == b.payments[j].amount
    ensures WellFormed(dir, b.(payments := ps))
  {
    forall k | 0 <= k < |b.invoices| ensures b.invoices[k].amountPaid == PaidInto(ps, k) {
      PaidIntoSameAmounts(b.payments, ps, k);
    }
  }

  // ---------------------------------------------------------------------------
  // Invoice persistence

  /**
   * Invoice.save(): the balance is recomputed from the total and the amount
   * paid, and an invoice with nothing left to pay reads as paid.
   */
  function Saved(inv: Invoice): (r: Invoice)
    ensures Balanced(r)
    ensures r.totalAmount == inv.totalAmount && r.amountPaid == inv.amountPaid
    ensures r.id == inv.id && r.studentId == inv.studentId && r.termId == inv.termId
    ensures r.dueDate == inv.dueDate && r.createdBy == inv.createdBy
  {
    var balance := inv.totalAmount - inv.amountPaid;
    inv.(balance := balance, status := if balance == 0 then Paid else inv.status)
  }

  /**
   * The invoice update shared by record_payment and process_mpesa_callback:
   * the amount is added to amount_paid, the balance recomputed, and the status
   * becomes paid at zero and partial below the total.
   */
  function ApplyPayment(inv: Invoice, amount: int): (r: Invoice)
    ensures Balanced(r)
    ensures r.amountPaid == inv.amountPaid + amount && r.totalAmount == inv.totalAmount
    ensures r.id == inv.id && r.studentId == inv.studentId && r.termId == inv.termId && r.dueDate == inv.dueDate
    ensures r.balance == 0 ==> r.status == Paid
    ensures Balanced(inv) && inv.amountPaid >= 0 && 0 < amount <= inv.balance ==>
      0 <= r.balance < inv.balance && (r.balance == 0 ==> r.status == Paid) && (r.balance > 0 ==> r.status == Partial)
  {
    var paid := inv.amountPaid + amount;
    var balance := inv.totalAmount - paid;
    var status := if balance == 0 then Paid else if balance < inv.totalAmount then Partial else inv.status;
    Saved(inv.(amountPaid := paid, balance := balance, status := status))
  }

  // ---------------------------------------------------------------------------
  // InvoiceGenerationService.generate_invoices_for_term

  datatype GenError = StructureError(feeStructureId: nat, message: string) | GeneralError(message: string)

  /** The invoice table as the run leaves it, and the run's summary. */
  datatype GenRun = GenRun(invoices: seq<Invoice>, created: nat, skipped: nat, errors: seq<GenError>)

  /** The class filter names `models`, which services.py never imports. */
  const ModelsNameError: string := "name 'models' is not defined"

  predicate InScope(fs: FeeStructure, termId: nat, school: Option<nat>)
  {
    fs.termId == termId && (school.Some? ==> fs.schoolId == school.value)
  }

  function StructuresFor(structures: seq<FeeStructure>, termId: nat, school: Option<nat>): (r: seq<FeeStructure>)
    ensures forall fs :: fs in r <==> fs in structures && InScope(fs, termId, school)
    decreases |structures|
  {
    if structures == [] then []
    else
      (if InScope(structures[0], termId, school) then [structures[0]] else []) + StructuresFor(structures[1..], termId, school)
  }

  /**
   * Active students of the structure's school. The further filter on
   * `student_class` for a class-assigned structure never returns: see Fault.
   */
  predicate Eligible(s: Student, fs: FeeStructure)
  {
    s.schoolId == Some(fs.schoolId) && s.isActive
  }

  function EligibleStudents(students: seq<Student>, fs: FeeStructure): (r: seq<Student>)
    ensures forall s :: s in r <==> s in students && Eligible(s, fs)
    decreases |students|
  {
    if students == [] then []
    else
      (if Eligible(students[0], fs) then [students[0]] else []) + EligibleStudents(students[1..], fs)
  }

  predicate HasInvoice(invoices: seq<Invoice>, studentId: nat, termId: nat)
  {
    exists k :: 0 <= k < |invoices| && invoices[k].studentId == studentId && invoices[k].termId == termId
  }

  predicate OverrideApplies(o: FeeOverride, studentId: nat, termId: nat, feeStructureId: nat)
  {
    o.studentId == studentId && o.termId == termId && o.feeStructureId == feeStructureId
  }

  /** The first override for (student, term, structure). */
  function OverrideFor(overrides: seq<FeeOverride>, studentId: nat, termId: nat, feeStructureId: nat): (r: Option<FeeOverride>)
    ensures r.Some? ==> r.value in overrides && OverrideApplies(r.value, studentId, termId, feeStructureId)
    ensures r.None? ==> forall o :: o in overrides ==> !OverrideApplies(o, studentId, termId, feeStructureId)
    decreases |overrides|
  {
    if overrides == [] then None
    else if OverrideApplies(overrides[0], studentId, termId, feeStructureId) then Some(overrides[0])
    else OverrideFor(overrides[1..], studentId, termId, feeStructureId)
  }

  /** The structure's amount, zero when waived, or the override's amount. */
  function InvoiceAmount(overrides: seq<FeeOverride>, studentId: nat, termId: nat, fs: FeeStructure): int
  {
    match OverrideFor(overrides, studentId, termId, fs.id)
    case None => fs.amount
    case Some(o) => if o.overrideAmount.None? then 0 else o.overrideAmount.value
  }

  /** Invoice.objects.create: issued, nothing paid, no due date, then saved. */
  function NewInvoice(id: nat, studentId: nat, termId: nat, amount: int, user: Option<nat>): Invoice
  {
    Saved(Invoice(id, studentId, termId, amount, 0, amount, Issued, None, user))
  }

  function GenStudent(run: GenRun, dir: Directory, termId: nat, fs: FeeStructure, user: Option<nat>, s: Student): GenRun
  {
    if HasInvoice(run.invoices, s.id, termId) then run.(skipped := run.skipped + 1)
    else
      var amount := InvoiceAmount(dir.overrides, s.id, termId, fs);
      run.(invoices := run.invoices + [NewInvoice(|run.invoices|, s.id, termId, amount, user)],
           created := run.created + 1)
  }

  function GenStudents(run: GenRun, dir: Directory, termId: nat, fs: FeeStructure, user: Option<nat>, studs: seq<Student>): GenRun
    decreases |studs|
  {
    if studs == [] then run
    else GenStudents(GenStudent(run, dir, termId, fs, user, studs[0]), dir, termId, fs, user, studs[1..])
  }

  /**
   * The first words of the FieldError that `students.filter(student_class=...)`
   * raises: Student has no field of that name.
   */
  const StudentClassFieldError: string := "Cannot resolve keyword 'student_class' into field."

  /**
   * The exception one structure's loop body raises, if any. A class-assigned
   * structure always raises the FieldError, before any student is looked at;
   * any other structure raises exactly when `faults` names it.
   */
  function Fault(fs: FeeStructure, faults: map<nat, string>): (r: Option<string>)
    ensures fs.classAssigned.Some? ==> r == Some(StudentClassFieldError)
    ensures fs.classAssigned.None? ==> (r.Some? <==> fs.id in faults) && (r.Some? ==> r.value == faults[fs.id])
  {
    if fs.classAssigned.Some? then Some(StudentClassFieldError)
    else if fs.id in faults then Some(faults[fs.id])
    else None
  }

  /**
   * One fee structure. A structure with a Fault records its message and the
   * run goes on with the next structure. A structure listed in `faults` stands
   * for one whose loop body raises an ordinary exception, not a database
   * error, before it creates its first invoice.
   */
  function GenStructure(run: GenRun, dir: Directory, termId: nat, faults: map<nat, string>, user: Option<nat>, fs: FeeStructure): GenRun
  {
    if Fault(fs, faults).Some? then run.(errors := run.errors + [StructureError(fs.id, Fault(fs, faults).value)])
    else GenStudents(run, dir, termId, fs, user, EligibleStudents(dir.students, fs))
  }

  function GenStructures(run: GenRun, dir: Directory, termId: nat, faults: map<nat, string>, user: Option<nat>, fss: seq<FeeStructure>): GenRun
    decreases |fss|
  {
    if fss == [] then run
    else GenStructures(GenStructure(run, dir, termId, faults, user, fss[0]), dir, termId, faults, user, fss[1..])
  }

  /** generate_invoices_for_term over the given invoice table. */
  function Generate(dir: Directory, invoices: seq<Invoice>, termId: nat, school: Option<nat>,
                    classFilter: Option<nat>, faults: map<nat, string>, user: Option<nat>): GenRun
  {
    if classFilter.Some? then GenRun(invoices, 0, 0, [GeneralError(ModelsNameError)])
    else GenStructures(GenRun(invoices, 0, 0, []), dir, termId, faults, user, StructuresFor(dir.structures, termId, school))
  }

  /** What an invoice created by the run looks like. */
  predicate FreshInvoice(inv: Invoice, k: nat, studentCount: nat, termId: nat, user: Option<nat>)
  {
    inv.id == k && inv.studentId < studentCount && inv.termId == termId &&
    inv.amountPaid == 0 && inv.balance == inv.totalAmount && inv.dueDate.None? &&
    inv.createdBy == user && inv.status == (if inv.totalAmount == 0 then Paid else Issued)
  }

  /** `b` is `a` followed by invoices the run created. */
  predicate Extends(a: seq<Invoice>, b: seq<Invoice>, studentCount: nat, termId: nat, user: Option<nat>)
  {
    |a| <= |b| && b[..|a|] == a &&
    forall k :: |a| <= k < |b| ==> FreshInvoice(b[k], k, studentCount, termId, user)
  }

  /** Invoice k is the one structure `fs` issues to one of `studs`, for the amount its overrides give. */
  predicate IssuedTo(inv: Invoice, k: nat, dir: Directory, termId: nat, user: Option<nat>, fs: FeeStructure, studs: seq<Student>)
  {
    exists s :: s in studs && inv == NewInvoice(k, s.id, termId, InvoiceAmount(dir.overrides, s.id, termId, fs), user)
  }

  /**
   * Every invoice of `b` past `a` was issued by one of `fss` that did not fail,
   * to one of that structure's eligible students.
   */
  predicate FromStructures(a: seq<Invoice>, b: seq<Invoice>, dir: Directory, termId: nat, faults: map<nat, string>,
                           user: Option<nat>, fss: seq<FeeStructure>)
  {
    forall k :: |a| <= k < |b| ==>
      exists i :: 0 <= i < |fss| && Fault(fss[i], faults).None? &&
        IssuedTo(b[k], k, dir, termId, user, fss[i], EligibleStudents(dir.students, fss[i]))
  }

  lemma ExtendsTrans(a: seq<Invoice>, b: seq<Invoice>, c: seq<Invoice>, n: nat, t: nat, user: Option<nat>)
    requires Extends(a, b, n, t, user) && Extends(b, c, n, t, user)
    ensures Extends(a, c, n, t, user)
  {
    assert c[..|a|] == c[..|b|][..|a|];
  }

  lemma HasInvoiceKept(a: seq<Invoice>, b: seq<Invoice>, studentId: nat, termId: nat)
    requires |a| <= |b| && b[..|a|] == a
    requires HasInvoice(a, studentId, termId)
    ensures HasInvoice(b, studentId, termId)
  {
    var k :| 0 <= k < |a| && a[k].studentId == studentId && a[k].termId == termId;
    assert b[k] == a[k];
  }

  /** No two invoices of a term belong to the same student. */
  predicate UniqueForTerm(invoices: seq<Invoice>, termId: nat)
  {
    forall i, j :: 0 <= i < j < |invoices| && invoices[i].termId == termId && invoices[j].termId == termId ==>
      invoices[i].studentId != invoices[j].studentId
  }

  /** Every eligible student of every structure that did not fail has an invoice for the term. */
  predicate Covered(invoices: seq<Invoice>, dir: Directory, termId: nat, faults: map<nat, string>, fss: seq<FeeStructure>)
  {
    forall i, s :: 0 <= i < |fss| && Fault(fss[i], faults).None? && s in dir.students && Eligible(s, fss[i]) ==>
      HasInvoice(invoices, s.id, termId)
  }

  /** The structure errors of a run: one per structure in `faults`, in order. */
  function FaultErrors(fss: seq<FeeStructure>, faults: map<nat, string>): seq<GenError>
    decreases |fss|
  {
    if fss == [] then []
    else
      (if Fault(fss[0], faults).Some? then [StructureError(fss[0].id, Fault(fss[0], faults).value)] else []) + FaultErrors(fss[1..], faults)
  }

  /** The eligible students counted once per structure that did not fail. */
  function EligibleTotal(students: seq<Student>, fss: seq<FeeStructure>, faults: map<nat, string>): nat
    decreases |fss|
  {
    if fss == [] then 0
    else
      (if Fault(fss[0], faults).Some? then 0 else |EligibleStudents(students, fss[0])|) + EligibleTotal(students, fss[1..], faults)
  }

  /** How many of `studs` already have an invoice for the term. */
  function CountInvoiced(invoices: seq<Invoice>, studs: seq<Student>, termId: nat): (r: nat)
    ensures r <= |studs|
    decreases |studs|
  {
    if studs == [] then 0
    else (if HasInvoice(invoices, studs[0].id, termId) then 1 else 0) + CountInvoiced(invoices, studs[1..], termId)
  }

  /** Student ids increase along the sequence, as rows read in key order do. */
  predicate IdsAscending(studs: seq<Student>)
  {
    forall i, j :: 0 <= i < j < |studs| ==> studs[i].id < studs[j].id
  }

  lemma IdsAscendingTail(studs: seq<Student>)
    requires IdsAscending(studs) && studs != []
    ensures IdsAscending(studs[1..])
  {
    var tail := studs[1..];
    forall i, j | 0 <= i < j < |tail| ensures tail[i].id < tail[j].id {
      assert tail[i] == studs[i + 1] && tail[j] == studs[j + 1];
    }
  }

  /** Filtering keeps the ids ascending, so the eligible students are distinct. */
  lemma {:induction false} EligibleAscending(students: seq<Student>, fs: FeeStructure)
    requires IdsAscending(students)
    ensures IdsAscending(EligibleStudents(students, fs))
    decreases |students|
  {
    if students != [] {
      var tail := students[1..];
      IdsAscendingTail(students);
      EligibleAscending(tail, fs);
      if Eligible(students[0], fs) {
        var r := EligibleStudents(students, fs);
        var rest := EligibleStudents(tail, fs);
        assert r == [students[0]] + rest;
        forall i, j | 0 <= i < j < |r| ensures r[i].id < r[j].id {
          assert r[j] == rest[j - 1];
          if i == 0 {
            assert r[j] in rest;
            var k :| 0 <= k < |tail| && tail[k] == r[j];
            assert tail[k] == students[k + 1];
          } else {
            assert r[i] == rest[i - 1];
          }
        }
      }
    }
  }

  lemma HasInvoiceAppend(invoices: seq<Invoice>, inv: Invoice, studentId: nat, termId: nat)
    requires studentId != inv.studentId
    ensures HasInvoice(invoices + [inv], studentId, termId) == HasInvoice(invoices, studentId, termId)
  {
    var n := invoices + [inv];
    if HasInvoice(n, studentId, termId) {
      var k :| 0 <= k < |n| && n[k].studentId == studentId && n[k].termId == termId;
      assert k < |invoices| && n[k] == invoices[k];
    }
    if HasInvoice(invoices, studentId, termId) {
      var k :| 0 <= k < |invoices| && invoices[k].studentId == studentId && invoices[k].termId == termId;
      assert n[k] == invoices[k];
    }
  }

  lemma {:induction false} CountInvoicedAppend(invoices: seq<Invoice>, inv: Invoice, studs: seq<Student>, termId: nat)
    requires forall k :: 0 <= k < |studs| ==> studs[k].id != inv.studentId
    ensures CountInvoiced(invoices + [inv], studs, termId) == CountInvoiced(invoices, studs, termId)
    decreases |studs|
  {
    if studs != [] {
      HasInvoiceAppend(invoices, inv, studs[0].id, termId);
      CountInvoicedAppend(invoices, inv, studs[1..], termId);
    }
  }

  /**
   * Over distinct students, the loop skips exactly those that already had an
   * invoice for the term when it started, and creates one for each of the rest.
   */
  lemma {:induction false} GenStudentsCounts(run: GenRun, dir: Directory, t: nat, fs: FeeStructure, user: Option<nat>, studs: seq<Student>)
    requires IdsAscending(studs)
    ensures var r := GenStudents(run, dir, t, fs, user, studs);
      r.skipped == run.skipped + CountInvoiced(run.invoices, studs, t) &&
      r.created == run.created + (|studs| - CountInvoiced(run.invoices, studs, t))
    decreases |studs|
  {
    if studs != [] {
      var s := studs[0];
      var tail := studs[1..];
      var next := GenStudent(run, dir, t, fs, user, s);
      IdsAscendingTail(studs);
      GenStudentsCounts(next, dir, t, fs, user, tail);
      if !HasInvoice(run.invoices, s.id, t) {
        var inv := NewInvoice(|run.invoices|, s.id, t, InvoiceAmount(dir.overrides, s.id, t, fs), user);
        assert next.invoices == run.invoices + [inv];
        forall k | 0 <= k < |tail| ensures tail[k].id != inv.studentId {
          assert tail[k] == studs[k + 1];
        }
        CountInvoicedAppend(run.invoices, inv, tail, t);
      }
    }
  }

  /**
   * A structure that did not fail skips exactly its eligible students that
   * already had an invoice for the term and invoices the others; a failing
   * structure counts nothing.
   */
  lemma GenStructureCounts(run: GenRun, dir: Directory, t: nat, faults: map<nat, string>, user: Option<nat>, fs: FeeStructure)
    requires StudentsIndexed(dir.students)
    ensures var r := GenStructure(run, dir, t, faults, user, fs);
      var studs := EligibleStudents(dir.students, fs);
      if Fault(fs, faults).Some? then r.skipped == run.skipped && r.created == run.created
      else r.skipped == run.skipped + CountInvoiced(run.invoices, studs, t) &&
           r.created == run.created + (|studs| - CountInvoiced(run.invoices, studs, t))
  {
    if Fault(fs, faults).None? {
      assert IdsAscending(dir.students);
      EligibleAscending(dir.students, fs);
      GenStudentsCounts(run, dir, t, fs, user, EligibleStudents(dir.students, fs));
    }
  }

  lemma {:induction false} GenStudentsFacts(run: GenRun, dir: Directory, t: nat, fs: FeeStructure, user: Option<nat>, studs: seq<Student>)
    requires forall s :: s in studs ==> s.id < |dir.students|
    ensures var r := GenStudents(run, dir, t, fs, user, studs);
      Extends(run.invoices, r.invoices, |dir.students|, t, user) &&
      r.created == run.created + (|r.invoices| - |run.invoices|) &&
      r.created + r.skipped == run.created + run.skipped + |studs| &&
      r.errors == run.errors &&
      (UniqueForTerm(run.invoices, t) ==> UniqueForTerm(r.invoices, t)) &&
      (forall s :: s in studs ==> HasInvoice(r.invoices, s.id, t)) &&
      (forall k :: |run.invoices| <= k < |r.invoices| ==> IssuedTo(r.invoices[k], k, dir, t, user, fs, studs))
    decreases |studs|
  {
    var r := GenStudents(run, dir, t, fs, user, studs);
    GenStudentsIssued(run, dir, t, fs, user, studs);
    if studs == [] {
      assert run.invoices[..|run.invoices|] == run.invoices;
    } else {
      var s := studs[0];
      var next := GenStudent(run, dir, t, fs, user, s);
      assert Extends(run.invoices, next.invoices, |dir.students|, t, user) by {
        if !HasInvoice(run.invoices, s.id, t) {
          assert next.invoices[..|run.invoices|] == run.invoices;
        } else {
          assert next.invoices[..|run.invoices|] == run.invoices;
        }
      }
      assert HasInvoice(next.invoices, s.id, t) by {
        if !HasInvoice(run.invoices, s.id, t) {
          var k := |run.invoices|;
          assert next.invoices[k].studentId == s.id && next.invoices[k].termId == t;
        }
      }
      assert UniqueForTerm(run.invoices, t) ==> UniqueForTerm(next.invoices, t) by {
        if UniqueForTerm(run.invoices, t) && !HasInvoice(run.invoices, s.id, t) {
          var n := next.invoices;
          forall i, j | 0 <= i < j < |n| && n[i].termId == t && n[j].termId == t
            ensures n[i].studentId != n[j].studentId
          {
            if j == |run.invoices| {
              assert n[i] == run.invoices[i];
            } else {
              assert n[i] == run.invoices[i] && n[j] == run.invoices[j];
            }
          }
        }
      }
      GenStudentsFacts(next, dir, t, fs, user, studs[1..]);
      ExtendsTrans(run.invoices, next.invoices, r.invoices, |dir.students|, t, user);
      HasInvoiceKept(next.invoices, r.invoices, s.id, t);
      forall s' | s' in studs ensures HasInvoice(r.invoices, s'.id, t) {
        if s' != s {
          assert s' in studs[1..];
        }
      }
    }
  }

  /** The loop appends, for a student of `studs`, the invoice its structure and overrides give. */
  lemma {:induction false} GenStudentsIssued(run: GenRun, dir: Directory, t: nat, fs: FeeStructure, user: Option<nat>, studs: seq<Student>)
    ensures var r := GenStudents(run, dir, t, fs, user, studs);
      |run.invoices| <= |r.invoices| && r.invoices[..|run.invoices|] == run.invoices &&
      forall k :: |run.invoices| <= k < |r.invoices| ==> IssuedTo(r.invoices[k], k, dir, t, user, fs, studs)
    decreases |studs|
  {
    var r := GenStudents(run, dir, t, fs, user, studs);
    if studs == [] {
      assert run.invoices[..|run.invoices|] == run.invoices;
    } else {
      var s := studs[0];
      var next := GenStudent(run, dir, t, fs, user, s);
      GenStudentsIssued(next, dir, t, fs, user, studs[1..]);
      assert next.invoices[..|run.invoices|] == run.invoices;
      assert r.invoices[..|run.invoices|] == r.invoices[..|next.invoices|][..|run.invoices|];
      forall k | |run.invoices| <= k < |r.invoices| ensures IssuedTo(r.invoices[k], k, dir, t, user, fs, studs) {
        if k < |next.invoices| {
          assert r.invoices[k] == next.invoices[k];
          assert s in studs && next.invoices[k] == NewInvoice(k, s.id, t, InvoiceAmount(dir.overrides, s.id, t, fs), user);
        } else {
          var w :| w in studs[1..] && r.invoices[k] == NewInvoice(k, w.id, t, InvoiceAmount(dir.overrides, w.id, t, fs), user);
          assert w in studs;
        }
      }
    }
  }

  /** The run appends only invoices issued by its structures that did not fail. */
  lemma {:induction false} GenStructuresIssued(run: GenRun, dir: Directory, t: nat, faults: map<nat, string>, user: Option<nat>, fss: seq<FeeStructure>)
    ensures var r := GenStructures(run, dir, t, faults, user, fss);
      |run.invoices| <= |r.invoices| && r.invoices[..|run.invoices|] == run.invoices &&
      FromStructures(run.invoices, r.invoices, dir, t, faults, user, fss)
    decreases |fss|
  {
    var r := GenStructures(run, dir, t, faults, user, fss);
    if fss == [] {
      assert run.invoices[..|run.invoices|] == run.invoices;
    } else {
      var fs := fss[0];
      var next := GenStructure(run, dir, t, faults, user, fs);
      if Fault(fs, faults).None? {
        GenStudentsIssued(run, dir, t, fs, user, EligibleStudents(dir.students, fs));
      } else {
        assert next.invoices == run.invoices;
        assert next.invoices[..|run.invoices|] == run.invoices;
      }
      GenStructuresIssued(next, dir, t, faults, user, fss[1..]);
      assert r.invoices[..|run.invoices|] == r.invoices[..|next.invoices|][..|run.invoices|];
      forall k | |run.invoices| <= k < |r.invoices|
        ensures exists i :: 0 <= i < |fss| && Fault(fss[i], faults).None? &&
                            IssuedTo(r.invoices[k], k, dir, t, user, fss[i], EligibleStudents(dir.students, fss[i]))
      {
        if k < |next.invoices| {
          assert Fault(fs, faults).None?;
          assert r.invoices[k] == next.invoices[k];
          assert Fault(fss[0], faults).None? && IssuedTo(r.invoices[k], k, dir, t, user, fss[0], EligibleStudents(dir.students, fss[0]));
        } else {
          var i :| 0 <= i < |fss[1..]| && Fault(fss[1..][i], faults).None? &&
            IssuedTo(r.invoices[k], k, dir, t, user, fss[1..][i], EligibleStudents(dir.students, fss[1..][i]));
          assert fss[1..][i] == fss[i + 1];
        }
      }
      assert FromStructures(run.invoices, r.invoices, dir, t, faults, user, fss);
    }
  }

  lemma StudentsIndexedIds(dir: Directory, fs: FeeStructure)
    requires StudentsIndexed(dir.students)
    ensures forall s :: s in EligibleStudents(dir.students, fs) ==> s.id < |dir.students|
  {
    forall s | s in EligibleStudents(dir.students, fs) ensures s.id < |dir.students| {
      var k :| 0 <= k < |dir.students| && dir.students[k] == s;
    }
  }

  lemma GenStructureFacts(run: GenRun, dir: Directory, t: nat, faults: map<nat, string>, user: Option<nat>, fs: FeeStructure)
    requires StudentsIndexed(dir.students)
    ensures var r := GenStructure(run, dir, t, faults, user, fs);
      Extends(run.invoices, r.invoices, |dir.students|, t, user) &&
      r.created == run.created + (|r.invoices| - |run.invoices|) &&
      r.created + r.skipped == run.created + run.skipped + EligibleTotal(dir.students, [fs], faults) &&
      r.errors == run.errors + FaultErrors([fs], faults) &&
      (UniqueForTerm(run.invoices, t) ==> UniqueForTerm(r.invoices, t)) &&
      (Fault(fs, faults).None? ==> forall s :: s in dir.students && Eligible(s, fs) ==> HasInvoice(r.invoices, s.id, t)) &&
      (forall k :: |run.invoices| <= k < |r.invoices| ==>
        Fault(fs, faults).None? && IssuedTo(r.invoices[k], k, dir, t, user, fs, EligibleStudents(dir.students, fs)))
  {
    var r := GenStructure(run, dir, t, faults, user, fs);
    assert FaultErrors([fs], faults) == (if Fault(fs, faults).Some? then [StructureError(fs.id, Fault(fs, faults).value)] else []) by {
      assert [fs][1..] == [];
    }
    assert EligibleTotal(dir.students, [fs], faults) == (if Fault(fs, faults).Some? then 0 else |EligibleStudents(dir.students, fs)|) by {
      assert [fs][1..] == [];
    }
    if Fault(fs, faults).Some? {
      assert r.invoices[..|run.invoices|] == run.invoices;
    } else {
      StudentsIndexedIds(dir, fs);
      GenStudentsFacts(run, dir, t, fs, user, EligibleStudents(dir.students, fs));
    }
  }

  lemma {:induction false} GenStructuresShape(run: GenRun, dir: Directory, t: nat, faults: map<nat, string>, user: Option<nat>, fss: seq<FeeStructure>)
    requires StudentsIndexed(dir.students)
    ensures var r := GenStructures(run, dir, t, faults, user, fss);
      Extends(run.invoices, r.invoices, |dir.students|, t, user) &&
      r.created == run.created + (|r.invoices| - |run.invoices|) &&
      r.created + r.skipped == run.created + run.skipped + EligibleTotal(dir.students, fss, faults) &&
      (UniqueForTerm(run.invoices, t) ==> UniqueForTerm(r.invoices, t)) &&
      FromStructures(run.invoices, r.invoices, dir, t, faults, user, fss)
    decreases |fss|
  {
    var r := GenStructures(run, dir, t, faults, user, fss);
    GenStructuresIssued(run, dir, t, faults, user, fss);
    if fss == [] {
      assert run.invoices[..|run.invoices|] == run.invoices;
    } else {
      var next := GenStructure(run, dir, t, faults, user, fss[0]);
      assert r == GenStructures(next, dir, t, faults, user, fss[1..]);
      GenStructureFacts(run, dir, t, faults, user, fss[0]);
      GenStructuresShape(next, dir, t, faults, user, fss[1..]);
      ExtendsTrans(run.invoices, next.invoices, r.invoices, |dir.students|, t, user);
      assert EligibleTotal(dir.students, [fss[0]], faults) + EligibleTotal(dir.students, fss[1..], faults) ==
        EligibleTotal(dir.students, fss, faults) by {
        assert [fss[0]][1..] == [];
      }
    }
  }

  /** The errors of a run are those of the structures with a fault, in order. */
  lemma {:induction false} GenStructuresErrors(run: GenRun, dir: Directory, t: nat, faults: map<nat, string>, user: Option<nat>, fss: seq<FeeStructure>)
    ensures GenStructures(run, dir, t, faults, user, fss).errors == run.errors + FaultErrors(fss, faults)
    decreases |fss|
  {
    if fss != [] {
      var next := GenStructure(run, dir, t, faults, user, fss[0]);
      var own := if Fault(fss[0], faults).Some? then [StructureError(fss[0].id, Fault(fss[0], faults).value)] else [];
      calc {
        GenStructures(run, dir, t, faults, user, fss).errors;
        GenStructures(next, dir, t, faults, user, fss[1..]).errors;
        { GenStructuresErrors(next, dir, t, faults, user, fss[1..]); }
        next.errors + FaultErrors(fss[1..], faults);
        { GenStructureErrors(run, dir, t, faults, user, fss[0]); }
        (run.errors + own) + FaultErrors(fss[1..], faults);
        run.errors + (own + FaultErrors(fss[1..], faults));
      }
    }
  }

  /** One structure adds its fault, if it has one, and no other error. */
  lemma GenStructureErrors(run: GenRun, dir: Directory, t: nat, faults: map<nat, string>, user: Option<nat>, fs: FeeStructure)
    ensures GenStructure(run, dir, t, faults, user, fs).errors ==
      run.errors + (if Fault(fs, faults).Some? then [StructureError(fs.id, Fault(fs, faults).value)] else [])
  {
    if Fault(fs, faults).None? {
      GenStudentsErrors(run, dir, t, fs, user, EligibleStudents(dir.students, fs));
    }
  }

  /** Creating invoices for students records no error. */
  lemma {:induction false} GenStudentsErrors(run: GenRun, dir: Directory, t: nat, fs: FeeStructure, user: Option<nat>, studs: seq<Student>)
    ensures GenStudents(run, dir, t, fs, user, studs).errors == run.errors
    decreases |studs|
  {
    if studs != [] {
      GenStudentsErrors(GenStudent(run, dir, t, fs, user, studs[0]), dir, t, fs, user, studs[1..]);
    }
  }

  lemma {:induction false} GenStructuresCovers(run: GenRun, dir: Directory, t: nat, faults: map<nat, string>, user: Option<nat>, fss: seq<FeeStructure>)
    requires StudentsIndexed(dir.students)
    ensures Covered(GenStructures(run, dir, t, faults, user, fss).invoices, dir, t, faults, fss)
    decreases |fss|
  {
    var r := GenStructures(run, dir, t, faults, user, fss);
    if fss != [] {
      var next := GenStructure(run, dir, t, faults, user, fss[0]);
      GenStructureFacts(run, dir, t, faults, user, fss[0]);
      GenStructuresShape(next, dir, t, faults, user, fss[1..]);
      GenStructuresCovers(next, dir, t, faults, user, fss[1..]);
      forall i, s | 0 <= i < |fss| && Fault(fss[i], faults).None? && s in dir.students && Eligible(s, fss[i])
        ensures HasInvoice(r.invoices, s.id, t)
      {
        if i == 0 {
          HasInvoiceKept(next.invoices, r.invoices, s.id, t);
        } else {
          assert fss[1..][i - 1] == fss[i];
        }
      }
    }
  }

  lemma {:induction false} GenStudentsNoop(run: GenRun, dir: Directory, t: nat, fs: FeeStructure, user: Option<nat>, studs: seq<Student>)
    requires forall s :: s in studs ==> HasInvoice(run.invoices, s.id, t)
    ensures GenStudents(run, dir, t, fs, user, studs).invoices == run.invoices
    ensures GenStudents(run, dir, t, fs, user, studs).created == run.created
    decreases |studs|
  {
    if studs != [] {
      GenStudentsNoop(GenStudent(run, dir, t, fs, user, studs[0]), dir, t, fs, user, studs[1..]);
    }
  }

  lemma {:induction false} GenStructuresNoop(run: GenRun, dir: Directory, t: nat, faults: map<nat, string>, user: Option<nat>, fss: seq<FeeStructure>)
    requires Covered(run.invoices, dir, t, faults, fss)
    ensures GenStructures(run, dir, t, faults, user, fss).invoices == run.invoices
    ensures GenStructures(run, dir, t, faults, user, fss).created == run.created
    decreases |fss|
  {
    if fss != [] {
      var fs := fss[0];
      var next := GenStructure(run, dir, t, faults, user, fs);
      if Fault(fs, faults).None? {
        GenStudentsNoop(run, dir, t, fs, user, EligibleStudents(dir.students, fs));
      }
      forall i, s | 0 <= i < |fss[1..]| && Fault(fss[1..][i], faults).None? && s in dir.students && Eligible(s, fss[1..][i])
        ensures HasInvoice(next.invoices, s.id, t)
      {
        assert fss[1..][i] == fss[i + 1];
      }
      GenStructuresNoop(next, dir, t, faults, user, fss[1..]);
    }
  }

  /**
   * The run only appends invoices, each issued with nothing paid and no due
   * date, by a structure that did not fail, to one of its eligible students,
   * for the structure's amount, the override's, or zero when waived; it counts
   * exactly what it appends, reports one error per failing structure, never
   * gives a student a second invoice for the term, and leaves every eligible
   * student of every structure that did not fail invoiced.
   */
  lemma GenerateFacts(dir: Directory, invoices: seq<Invoice>, t: nat, school: Option<nat>, faults: map<nat, string>, user: Option<nat>)
    requires StudentsIndexed(dir.students)
    ensures var fss := StructuresFor(dir.structures, t, school);
      var r := Generate(dir, invoices, t, school, None, faults, user);
      Extends(invoices, r.invoices, |dir.students|, t, user) &&
      r.created == |r.invoices| - |invoices| &&
      r.created + r.skipped == EligibleTotal(dir.students, fss, faults) &&
      r.errors == FaultErrors(fss, faults) &&
      (UniqueForTerm(invoices, t) ==> UniqueForTerm(r.invoices, t)) &&
      Covered(r.invoices, dir, t, faults, fss) &&
      FromStructures(invoices, r.invoices, dir, t, faults, user, fss)
  {
    GenStructuresShape(GenRun(invoices, 0, 0, []), dir, t, faults, user, StructuresFor(dir.structures, t, school));
    GenStructuresErrors(GenRun(invoices, 0, 0, []), dir, t, faults, user, StructuresFor(dir.structures, t, school));
    GenStructuresCovers(GenRun(invoices, 0, 0, []), dir, t, faults, user, StructuresFor(dir.structures, t, school));
    GenStructuresIssued(GenRun(invoices, 0, 0, []), dir, t, faults, user, StructuresFor(dir.structures, t, school));
  }

  /**
   * Running generation again for the same term creates nothing, changes
   * nothing, and skips every eligible student of every structure that did not
   * fail.
   */
  lemma GenerateIdempotent(dir: Directory, invoices: seq<Invoice>, t: nat, school: Option<nat>, faults: map<nat, string>, user: Option<nat>)
    requires StudentsIndexed(dir.students)
    ensures var once := Generate(dir, invoices, t, school, None, faults, user);
      var twice := Generate(dir, once.invoices, t, school, None, faults, user);
      twice.created == 0 && twice.invoices == once.invoices &&
      twice.skipped == EligibleTotal(dir.students, StructuresFor(dir.structures, t, school), faults)
  {
    var fss := StructuresFor(dir.structures, t, school);
    GenerateFacts(dir, invoices, t, school, faults, user);
    var once := Generate(dir, invoices, t, school, None, faults, user);
    GenStructuresNoop(GenRun(once.invoices, 0, 0, []), dir, t, faults, user, fss);
    GenStructuresShape(GenRun(once.invoices, 0, 0, []), dir, t, faults, user, fss);
  }

  /**
   * A fee structure assigned to a class never invoices anyone: every one in
   * scope records the FieldError, and every invoice of the run comes from a
   * structure with no class.
   */
  lemma ClassStructuresFail(dir: Directory, invoices: seq<Invoice>, t: nat, school: Option<nat>, faults: map<nat, string>, user: Option<nat>)
    requires StudentsIndexed(dir.students)
    ensures var fss := StructuresFor(dir.structures, t, school);
      var r := Generate(dir, invoices, t, school, None, faults, user);
      (forall fs :: fs in fss && fs.classAssigned.Some? ==> StructureError(fs.id, StudentClassFieldError) in r.errors) &&
      (forall k :: |invoices| <= k < |r.invoices| ==>
        exists i :: 0 <= i < |fss| && fss[i].classAssigned.None? &&
          IssuedTo(r.invoices[k], k, dir, t, user, fss[i], EligibleStudents(dir.students, fss[i])))
  {
    var fss := StructuresFor(dir.structures, t, school);
    GenerateFacts(dir, invoices, t, school, faults, user);
    forall fs | fs in fss && fs.classAssigned.Some?
      ensures StructureError(fs.id, StudentClassFieldError) in FaultErrors(fss, faults)
    {
      FaultErrorsHas(fss, faults, fs);
    }
  }

  lemma {:induction false} FaultErrorsHas(fss: seq<FeeStructure>, faults: map<nat, string>, fs: FeeStructure)
    requires fs in fss && Fault(fs, faults).Some?
    ensures StructureError(fs.id, Fault(fs, faults).value) in FaultErrors(fss, faults)
    decreases |fss|
  {
    if fss[0] != fs {
      FaultErrorsHas(fss[1..], faults, fs);
    }
  }

  /** Asking for one class fails on the unimported name before anything is written. */
  lemma GenerateWithClassFilterFails(dir: Directory, invoices: seq<Invoice>, t: nat, school: Option<nat>, klass: nat, faults: map<nat, string>, user: Option<nat>)
    ensures Generate(dir, invoices, t, school, Some(klass), faults, user) == GenRun(invoices, 0, 0, [GeneralError(ModelsNameError)])
  {
  }

  /** Generation keeps the ledger invariants. */
  lemma GenerateKeepsWellFormed(dir: Directory, b: Books, t: nat, school: Option<nat>, classFilter: Option<nat>, faults: map<nat, string>, user: Option<nat>)
    requires WellFormed(dir, b)
    ensures WellFormed(dir, b.(invoices := Generate(dir, b.invoices, t, school, classFilter, faults, user).invoices))
  {
    if classFilter.None? {
      GenerateFacts(dir, b.invoices, t, school, faults, user);
      var r := Generate(dir, b.invoices, t, school, None, faults, user);
      forall k | 0 <= k < |r.invoices| ensures r.invoices[k].amountPaid == PaidInto(b.payments, k) {
        if k < |b.invoices| {
          assert r.invoices[k] == b.invoices[k];
        } else {
          PaidIntoUnreferenced(b.payments, k);
        }
      }
    }
  }

  // ---------------------------------------------------------------------------
  // PaymentService.record_payment

  datatype PaymentRejection = NonPositiveAmount | ExceedsBalance(amount: int, balance: int)

  /** The first arrears row of (student, school). */
  function ArrearsRow(rows: seq<Arrears>, studentId: nat, school: Option<nat>): (r: Option<nat>)
    ensures r.Some? ==> r.value < |rows| && rows[r.value].studentId == studentId && rows[r.value].schoolId == school
    ensures r.None? ==> forall k :: 0 <= k < |rows| ==> rows[k].studentId != studentId || rows[k].schoolId != school
    decreases |rows|
  {
    if rows == [] then None
    else if rows[0].studentId == studentId && rows[0].schoolId == school then Some(0)
    else match ArrearsRow(rows[1..], studentId, school)
      case None => None
      case Some(k) => Some(k + 1)
  }

  function SchoolOf(dir: Directory, studentId: nat): Option<nat>
  {
    if studentId < |dir.students| then dir.students[studentId].schoolId else None
  }

  /** A payment that clears the invoice resolves the student's arrears row, if there is one. */
  function ResolveOnPayment(rows: seq<Arrears>, studentId: nat, school: Option<nat>, balance: int, now: int): (r: seq<Arrears>)
    ensures |r| == |rows|
    ensures forall k :: 0 <= k < |rows| ==>
      r[k] == if ArrearsRow(rows, studentId, school) == Some(k) && balance == 0
              then rows[k].(isResolved := true, resolvedDate := Some(now))
              else rows[k]
  {
    match ArrearsRow(rows, studentId, school)
    case None => rows
    case Some(k) => if balance == 0 then rows[k := rows[k].(isResolved := true, resolvedDate := Some(now))] else rows
  }

  function RecordPaymentStep(dir: Directory, b: Books, invoiceId: nat, amount: int, paymentMethod: string,
                         reference: string, user: Option<nat>, now: int): (r: Step<Result<nat, PaymentRejection>>)
    requires invoiceId < |b.invoices|
    ensures r.result.Err? <==> amount <= 0 || amount > b.invoices[invoiceId].balance
    ensures r.result.Err? ==> r.books == b
    ensures r.result.Ok? ==>
      r.result.value == |b.payments| &&
      r.books.payments == b.payments + [FeePayment(|b.payments|, invoiceId, amount, paymentMethod, reference, PaymentCompleted, JNull, JNull, user)] &&
      r.books.invoices == b.invoices[invoiceId := ApplyPayment(b.invoices[invoiceId], amount)] &&
      r.books.transactions == b.transactions
    ensures r.result.Ok? ==>
      var studentId := b.invoices[invoiceId].studentId;
      var row := ArrearsRow(b.arrears, studentId, SchoolOf(dir, studentId));
      |r.books.arrears| == |b.arrears| &&
      forall k :: 0 <= k < |b.arrears| ==>
        r.books.arrears[k] ==
          if row == Some(k) && r.books.invoices[invoiceId].balance == 0
          then b.arrears[k].(isResolved := true, resolvedDate := Some(now))
          else b.arrears[k]
  {
    var inv := b.invoices[invoiceId];
    if amount <= 0 then Step(b, Err(NonPositiveAmount))
    else if amount > inv.balance then Step(b, Err(ExceedsBalance(amount, inv.balance)))
    else
      var payment := FeePayment(|b.payments|, invoiceId, amount, paymentMethod, reference, PaymentCompleted, JNull, JNull, user);
      var updated := ApplyPayment(inv, amount);
      Step(b.(payments := b.payments + [payment],
              invoices := b.invoices[invoiceId := updated],
              arrears := ResolveOnPayment(b.arrears, inv.studentId, SchoolOf(dir, inv.studentId), updated.balance, now)),
           Ok(|b.payments|))
  }

  /** No invoice owes a negative balance. */
  predicate NoOverpayment(invoices: seq<Invoice>)
  {
    forall k :: 0 <= k < |invoices| ==> invoices[k].balance >= 0
  }

  /** Adding one payment row and updating its invoice keeps the payment accounting. */
  lemma PaymentKeepsAccounting(b: Books, invoiceId: nat, p: FeePayment, updated: Invoice)
    requires PaymentsAccounted(b.invoices, b.payments)
    requires invoiceId < |b.invoices| && p.invoiceId == invoiceId
    requires updated.amountPaid == b.invoices[invoiceId].amountPaid + p.amount
    ensures PaymentsAccounted(b.invoices[invoiceId := updated], b.payments + [p])
  {
    var invs := b.invoices[invoiceId := updated];
    forall k | 0 <= k < |invs| ensures invs[k].amountPaid == PaidInto(b.payments + [p], k) {
      PaidIntoAppend(b.payments, p, k);
    }
  }

  lemma ResolveOnPaymentKeepsKeys(rows: seq<Arrears>, studentId: nat, school: Option<nat>, balance: int, now: int)
    requires ArrearsKeysUnique(rows)
    ensures var r := ResolveOnPayment(rows, studentId, school, balance, now);
      ArrearsKeysUnique(r) && |r| == |rows| &&
      forall k :: 0 <= k < |r| ==> r[k].studentId == rows[k].studentId && r[k].schoolId == rows[k].schoolId
  {
  }

  /** record_payment keeps the ledger invariants and, on an accepted payment, never lets a balance go negative. */
  lemma RecordPaymentKeepsWellFormed(dir: Directory, b: Books, invoiceId: nat, amount: int, paymentMethod: string,
                                     reference: string, user: Option<nat>, now: int)
    requires WellFormed(dir, b) && invoiceId < |b.invoices|
    ensures var r := RecordPaymentStep(dir, b, invoiceId, amount, paymentMethod, reference, user, now);
      WellFormed(dir, r.books) && (NoOverpayment(b.invoices) ==> NoOverpayment(r.books.invoices))
  {
    var r := RecordPaymentStep(dir, b, invoiceId, amount, paymentMethod, reference, user, now);
    if r.result.Ok? {
      var inv := b.invoices[invoiceId];
      var p := FeePayment(|b.payments|, invoiceId, amount, paymentMethod, reference, PaymentCompleted, JNull, JNull, user);
      PaymentKeepsAccounting(b, invoiceId, p, ApplyPayment(inv, amount));
      ResolveOnPaymentKeepsKeys(b.arrears, inv.studentId, SchoolOf(dir, inv.studentId), ApplyPayment(inv, amount).balance, now);
    }
  }

  /** Once an invoice is fully paid, every further payment is refused. */
  lemma PaidInvoiceRefusesPayment(dir: Directory, b: Books, invoiceId: nat, amount: int, paymentMethod: string,
                                  reference: string, user: Option<nat>, now: int, amount2: int)
    requires invoiceId < |b.invoices| && Balanced(b.invoices[invoiceId])
    requires amount == b.invoices[invoiceId].balance
    ensures var r := RecordPaymentStep(dir, b, invoiceId, amount, paymentMethod, reference, user, now);
      r.result.Ok? ==>
        r.books.invoices[invoiceId].status == Paid &&
        RecordPaymentStep(dir, r.books, invoiceId, amount2, paymentMethod, reference, user, now).result.Err?
  {
  }

  // ---------------------------------------------------------------------------
  // ArrearsService.update_arrears_for_student / update_all_arrears

  predicate OpenStatus(s: InvoiceStatus)
  {
    s == Issued || s == Partial || s == Overdue
  }

  /** The filter of update_arrears_for_student: unpaid, open, and due before today. */
  predicate IsOverdue(inv: Invoice, studentId: nat, today: int)
  {
    inv.studentId == studentId && inv.balance > 0 && OpenStatus(inv.status) &&
    inv.dueDate.Some? && inv.dueDate.value < today
  }

  predicate AnyOverdue(invoices: seq<Invoice>, studentId: nat, today: int)
  {
    exists k :: 0 <= k < |invoices| && IsOverdue(invoices[k], studentId, today)
  }

  /** The sum of the overdue balances. */
  function OverdueSum(invoices: seq<Invoice>, studentId: nat, today: int): (r: int)
    ensures r >= 0
    ensures AnyOverdue(invoices, studentId, today) ==> r > 0
    ensures !AnyOverdue(invoices, studentId, today) ==> r == 0
    decreases |invoices|
  {
    if invoices == [] then 0
    else
      var rest := OverdueSum(invoices[1..], studentId, today);
      assert AnyOverdue(invoices, studentId, today) && !IsOverdue(invoices[0], studentId, today) ==> AnyOverdue(invoices[1..], studentId, today) by {
        if AnyOverdue(invoices, studentId, today) && !IsOverdue(invoices[0], studentId, today) {
          var k :| 0 <= k < |invoices| && IsOverdue(invoices[k], studentId, today);
          assert invoices[1..][k - 1] == invoices[k];
        }
      }
      assert !AnyOverdue(invoices, studentId, today) ==> !IsOverdue(invoices[0], studentId, today) && !AnyOverdue(invoices[1..], studentId, today) by {
        if AnyOverdue(invoices[1..], studentId, today) {
          var k :| 0 <= k < |invoices[1..]| && IsOverdue(invoices[1..][k], studentId, today);
          assert invoices[k + 1] == invoices[1..][k];
        }
      }
      (if IsOverdue(invoices[0], studentId, today) then invoices[0].balance else 0) + rest
  }

  /** The earliest due date among the overdue invoices. */
  function EarliestDue(invoices: seq<Invoice>, studentId: nat, today: int): (r: Option<int>)
    ensures r.Some? <==> AnyOverdue(invoices, studentId, today)
    ensures r.Some? ==> r.value < today
    ensures r.Some? ==> exists k :: 0 <= k < |invoices| && IsOverdue(invoices[k], studentId, today) && invoices[k].dueDate == r
    ensures r.Some? ==> forall k :: 0 <= k < |invoices| && IsOverdue(invoices[k], studentId, today) ==> r.value <= invoices[k].dueDate.value
    decreases |invoices|
  {
    if invoices == [] then None
    else
      var rest := EarliestDue(invoices[1..], studentId, today);
      forall k | 1 <= k < |invoices| ensures invoices[k] == invoices[1..][k - 1] { }
      assert AnyOverdue(invoices[1..], studentId, today) ==> AnyOverdue(invoices, studentId, today) by {
        if AnyOverdue(invoices[1..], studentId, today) {
          var k :| 0 <= k < |invoices[1..]| && IsOverdue(invoices[1..][k], studentId, today);
          assert invoices[k + 1] == invoices[1..][k];
        }
      }
      if !IsOverdue(invoices[0], studentId, today) then
        (if rest.Some? then Some(rest.value) else None)
      else if rest.Some? && rest.value < invoices[0].dueDate.value then rest
      else invoices[0].dueDate
  }

  /** Open invoices that are overdue move to overdue; nothing else changes. */
  function MarkOverdue(invoices: seq<Invoice>, studentId: nat, today: int): (r: seq<Invoice>)
    ensures |r| == |invoices|
    ensures forall k :: 0 <= k < |r| ==> r[k] == (if IsOverdue(invoices[k], studentId, today) then invoices[k].(status := Overdue) else invoices[k])
  {
    seq(|invoices|, k requires 0 <= k < |invoices| =>
      if IsOverdue(invoices[k], studentId, today) then invoices[k].(status := Overdue) else invoices[k])
  }

  /** The created/updated counts of one recomputation. */
  datatype ArrearsCounts = ArrearsCounts(created: nat, updated: nat)

  /** update_arrears_for_student for the student with the given id. */
  function ArrearsStep(dir: Directory, b: Books, studentId: nat, today: int, now: int): Step<ArrearsCounts>
  {
    var school := SchoolOf(dir, studentId);
    ArrearsOn(b, studentId, school, ArrearsRow(b.arrears, studentId, school), EarliestDue(b.invoices, studentId, today), today, now)
  }

  /**
   * The same step once the student's school, arrears row and earliest overdue
   * due date are known: overdue invoices open or refresh the row, none
   * resolves an open one.
   */
  function ArrearsOn(b: Books, studentId: nat, school: Option<nat>, row: Option<nat>, due: Option<int>, today: int, now: int): Step<ArrearsCounts>
    requires row.Some? ==> row.value < |b.arrears|
  {
    match due
    case Some(due) =>
      var total := OverdueSum(b.invoices, studentId, today);
      var days := today - due;
      var invoices := MarkOverdue(b.invoices, studentId, today);
      (match row
       case Some(k) =>
         Step(b.(arrears := b.arrears[k := b.arrears[k].(totalArrears := total, daysOutstanding := days, isResolved := false)],
                 invoices := invoices), ArrearsCounts(0, 1))
       case None =>
         Step(b.(arrears := b.arrears + [Arrears(studentId, school, total, days, false, None, "")],
                 invoices := invoices), ArrearsCounts(1, 0)))
    case None =>
      match row
      case Some(k) =>
        if !b.arrears[k].isResolved then
          Step(b.(arrears := b.arrears[k := b.arrears[k].(isResolved := true, resolvedDate := Some(now))]), ArrearsCounts(0, 1))
        else Step(b, ArrearsCounts(0, 0))
      case None => Step(b, ArrearsCounts(0, 0))
  }

  lemma MarkOverdueKeepsOverdue(invoices: seq<Invoice>, studentId: nat, today: int)
    ensures var m := MarkOverdue(invoices, studentId, today);
      forall k :: 0 <= k < |m| ==> (IsOverdue(m[k], studentId, today) <==> IsOverdue(invoices[k], studentId, today))
  {
  }

  lemma {:induction false} OverdueSumSame(a: seq<Invoice>, c: seq<Invoice>, studentId: nat, today: int)
    requires |a| == |c|
    requires forall k :: 0 <= k < |a| ==> (IsOverdue(a[k], studentId, today) <==> IsOverdue(c[k], studentId, today))
    requires forall k :: 0 <= k < |a| ==> a[k].balance == c[k].balance
    ensures OverdueSum(a, studentId, today) == OverdueSum(c, studentId, today)
    decreases |a|
  {
    if a != [] {
      OverdueSumSame(a[1..], c[1..], studentId, today);
    }
  }

  lemma {:induction false} EarliestDueSame(a: seq<Invoice>, c: seq<Invoice>, studentId: nat, today: int)
    requires |a| == |c|
    requires forall k :: 0 <= k < |a| ==> (IsOverdue(a[k], studentId, today) <==> IsOverdue(c[k], studentId, today))
    requires forall k :: 0 <= k < |a| ==> a[k].dueDate == c[k].dueDate
    ensures EarliestDue(a, studentId, today) == EarliestDue(c, studentId, today)
    decreases |a|
  {
    if a != [] {
      EarliestDueSame(a[1..], c[1..], studentId, today);
    }
  }

  lemma {:induction false} ArrearsRowSameKeys(a: seq<Arrears>, c: seq<Arrears>, studentId: nat, school: Option<nat>)
    requires |a| == |c|
    requires forall k :: 0 <= k < |a| ==> a[k].studentId == c[k].studentId && a[k].schoolId == c[k].schoolId
    ensures ArrearsRow(a, studentId, school) == ArrearsRow(c, studentId, school)
    decreases |a|
  {
    if a != [] {
      ArrearsRowSameKeys(a[1..], c[1..], studentId, school);
    }
  }

  lemma {:induction false} ArrearsRowAppend(a: seq<Arrears>, row: Arrears, studentId: nat, school: Option<nat>)
    requires ArrearsRow(a, studentId, school).None?
    requires row.studentId == studentId && row.schoolId == school
    ensures ArrearsRow(a + [row], studentId, school) == Some(|a|)
    decreases |a|
  {
    if a != [] {
      assert (a + [row])[1..] == a[1..] + [row];
      ArrearsRowAppend(a[1..], row, studentId, school);
    }
  }

  /** Where the student's row sits after recomputation. */
  lemma ArrearsStepRow(dir: Directory, b: Books, studentId: nat, today: int, now: int)
    ensures var school := SchoolOf(dir, studentId);
      var r := ArrearsStep(dir, b, studentId, today, now);
      var old_row := ArrearsRow(b.arrears, studentId, school);
      ArrearsRow(r.books.arrears, studentId, school) ==
        (if old_row.None? && AnyOverdue(b.invoices, studentId, today) then Some(|b.arrears|) else old_row)
  {
    var school := SchoolOf(dir, studentId);
    var r := ArrearsStep(dir, b, studentId, today, now);
    var old_row := ArrearsRow(b.arrears, studentId, school);
    if old_row.None? && AnyOverdue(b.invoices, studentId, today) {
      ArrearsRowAppend(b.arrears, Arrears(studentId, school, OverdueSum(b.invoices, studentId, today),
        today - EarliestDue(b.invoices, studentId, today).value, false, None, ""), studentId, school);
    } else {
      ArrearsRowSameKeys(b.arrears, r.books.arrears, studentId, school);
    }
  }

  /**
   * After recomputation the student's row exists exactly when it existed before
   * or something is overdue. When something is overdue, the row is outstanding
   * with the exact sum of the overdue balances, which is positive, and the age
   * of the oldest one, at least a day. When nothing is overdue, the row is resolved.
   * Every open overdue invoice now reads overdue.
   */
  lemma ArrearsStepSound(dir: Directory, b: Books, studentId: nat, today: int, now: int)
    ensures var school := SchoolOf(dir, studentId);
      var r := ArrearsStep(dir, b, studentId, today, now);
      var row := ArrearsRow(r.books.arrears, studentId, school);
      (row.Some? <==> ArrearsRow(b.arrears, studentId, school).Some? || AnyOverdue(b.invoices, studentId, today)) &&
      (AnyOverdue(b.invoices, studentId, today) ==>
         row.Some? &&
         r.books.arrears[row.value].totalArrears == OverdueSum(b.invoices, studentId, today) > 0 &&
         r.books.arrears[row.value].daysOutstanding >= 1 &&
         !r.books.arrears[row.value].isResolved) &&
      (!AnyOverdue(b.invoices, studentId, today) && row.Some? ==> r.books.arrears[row.value].isResolved) &&
      (forall k :: 0 <= k < |r.books.invoices| && IsOverdue(r.books.invoices[k], studentId, today) ==>
         r.books.invoices[k].status == Overdue)
    ensures var school := SchoolOf(dir, studentId);
      var before := ArrearsRow(b.arrears, studentId, school);
      var r := ArrearsStep(dir, b, studentId, today, now);
      (r.result.created == 1 <==> before.None? && AnyOverdue(b.invoices, studentId, today)) &&
      (r.result.updated == 1 <==>
         before.Some? && (AnyOverdue(b.invoices, studentId, today) || !b.arrears[before.value].isResolved)) &&
      r.result.created + r.result.updated <= 1 &&
      |r.books.arrears| == |b.arrears| + r.result.created &&
      (r.result == ArrearsCounts(0, 0) ==> r.books == b)
  {
    ArrearsStepRow(dir, b, studentId, today, now);
  }

  /** The row an overdue recomputation writes, and where it sits. */
  lemma ArrearsStepOverdueRow(dir: Directory, b: Books, studentId: nat, today: int, now: int) returns (k: nat)
    requires AnyOverdue(b.invoices, studentId, today)
    ensures var once := ArrearsStep(dir, b, studentId, today, now).books;
      once.invoices == MarkOverdue(b.invoices, studentId, today) &&
      ArrearsRow(once.arrears, studentId, SchoolOf(dir, studentId)) == Some(k) &&
      once.arrears[k].totalArrears == OverdueSum(b.invoices, studentId, today) &&
      once.arrears[k].daysOutstanding == today - EarliestDue(b.invoices, studentId, today).value &&
      !once.arrears[k].isResolved
  {
    var school := SchoolOf(dir, studentId);
    var once := ArrearsStep(dir, b, studentId, today, now).books;
    var total := OverdueSum(b.invoices, studentId, today);
    var due := EarliestDue(b.invoices, studentId, today);
    ArrearsStepRow(dir, b, studentId, today, now);
    if ArrearsRow(b.arrears, studentId, school).Some? {
      k := ArrearsRow(b.arrears, studentId, school).value;
      assert once.arrears[k] == b.arrears[k].(totalArrears := total, daysOutstanding := today - due.value, isResolved := false);
    } else {
      k := |b.arrears|;
      assert once.arrears[k] == Arrears(studentId, school, total, today - due.value, false, None, "");
    }
  }

  /** Marking overdue is a fixed point that keeps the overdue set, sum and earliest date. */
  lemma MarkOverdueStable(invoices: seq<Invoice>, studentId: nat, today: int)
    ensures var m := MarkOverdue(invoices, studentId, today);
      MarkOverdue(m, studentId, today) == m &&
      AnyOverdue(m, studentId, today) == AnyOverdue(invoices, studentId, today) &&
      OverdueSum(m, studentId, today) == OverdueSum(invoices, studentId, today) &&
      EarliestDue(m, studentId, today) == EarliestDue(invoices, studentId, today)
  {
    var m := MarkOverdue(invoices, studentId, today);
    MarkOverdueKeepsOverdue(invoices, studentId, today);
    OverdueSumSame(invoices, m, studentId, today);
    EarliestDueSame(invoices, m, studentId, today);
  }

  lemma ArrearsStepIdempotentOverdue(dir: Directory, b: Books, studentId: nat, today: int, now: int)
    requires AnyOverdue(b.invoices, studentId, today)
    ensures var once := ArrearsStep(dir, b, studentId, today, now).books;
      ArrearsStep(dir, once, studentId, today, now).books == once
  {
    var once := ArrearsStep(dir, b, studentId, today, now).books;
    var k := ArrearsStepOverdueRow(dir, b, studentId, today, now);
    MarkOverdueStable(b.invoices, studentId, today);
    OverdueRowSettled(dir, once, studentId, today, now, k);
  }

  /** Books whose overdue invoices are marked and whose row for the student is up to date are left alone. */
  lemma OverdueRowSettled(dir: Directory, b: Books, studentId: nat, today: int, now: int, k: nat)
    requires AnyOverdue(b.invoices, studentId, today)
    requires ArrearsRow(b.arrears, studentId, SchoolOf(dir, studentId)) == Some(k)
    requires MarkOverdue(b.invoices, studentId, today) == b.invoices
    requires k < |b.arrears| && !b.arrears[k].isResolved
    requires b.arrears[k].totalArrears == OverdueSum(b.invoices, studentId, today)
    requires b.arrears[k].daysOutstanding == today - EarliestDue(b.invoices, studentId, today).value
    ensures ArrearsStep(dir, b, studentId, today, now).books == b
  {
    ArrearsStepOnRow(dir, b, studentId, today, now, k);
    var row := b.arrears[k];
    assert row.(totalArrears := row.totalArrears, daysOutstanding := row.daysOutstanding, isResolved := false) == row;
    assert b.arrears[k := row] == b.arrears;
  }

  /** Recomputing with something overdue and the student's row at k rewrites that row and marks the invoices. */
  lemma ArrearsStepOnRow(dir: Directory, b: Books, studentId: nat, today: int, now: int, k: nat)
    requires AnyOverdue(b.invoices, studentId, today)
    requires ArrearsRow(b.arrears, studentId, SchoolOf(dir, studentId)) == Some(k)
    ensures k < |b.arrears|
    ensures ArrearsStep(dir, b, studentId, today, now).books ==
      b.(arrears := b.arrears[k := b.arrears[k].(totalArrears := OverdueSum(b.invoices, studentId, today),
                                                 daysOutstanding := today - EarliestDue(b.invoices, studentId, today).value,
                                                 isResolved := false)],
         invoices := MarkOverdue(b.invoices, studentId, today))
  {
    var due := EarliestDue(b.invoices, studentId, today);
    assert due.Some?;
    var row := b.arrears[k].(totalArrears := OverdueSum(b.invoices, studentId, today), daysOutstanding := today - due.value, isResolved := false);
    assert ArrearsStep(dir, b, studentId, today, now).books == b.(arrears := b.arrears[k := row], invoices := MarkOverdue(b.invoices, studentId, today));
  }

  lemma ArrearsStepIdempotentClear(dir: Directory, b: Books, studentId: nat, today: int, now: int)
    requires !AnyOverdue(b.invoices, studentId, today)
    ensures var once := ArrearsStep(dir, b, studentId, today, now).books;
      ArrearsStep(dir, once, studentId, today, now).books == once
  {
    ArrearsStepRow(dir, b, studentId, today, now);
  }

  /** Recomputing twice on the same day leaves the tables as recomputing once does. */
  lemma ArrearsStepIdempotent(dir: Directory, b: Books, studentId: nat, today: int, now: int)
    ensures var once := ArrearsStep(dir, b, studentId, today, now).books;
      ArrearsStep(dir, once, studentId, today, now).books == once
  {
    if AnyOverdue(b.invoices, studentId, today) {
      ArrearsStepIdempotentOverdue(dir, b, studentId, today, now);
    } else {
      ArrearsStepIdempotentClear(dir, b, studentId, today, now);
    }
  }

  /** Recomputation keeps the ledger invariants. */
  lemma ArrearsStepKeepsWellFormed(dir: Directory, b: Books, studentId: nat, today: int, now: int)
    requires WellFormed(dir, b)
    ensures WellFormed(dir, ArrearsStep(dir, b, studentId, today, now).books)
  {
    var school := SchoolOf(dir, studentId);
    var r := ArrearsStep(dir, b, studentId, today, now).books;
    if ArrearsRow(b.arrears, studentId, school).None? && AnyOverdue(b.invoices, studentId, today) {
      var rows := r.arrears;
      forall i, j | 0 <= i < j < |rows| ensures rows[i].studentId != rows[j].studentId || rows[i].schoolId != rows[j].schoolId {
        if j == |b.arrears| {
          assert rows[i] == b.arrears[i];
        } else {
          assert rows[i] == b.arrears[i] && rows[j] == b.arrears[j];
        }
      }
    }
  }

  /** The students update_all_arrears visits: those with at least one invoice, in table order. */
  function StudentsWithInvoices(students: seq<Student>, invoices: seq<Invoice>): (r: seq<nat>)
    ensures forall id :: id in r <==> exists s :: s in students && s.id == id && exists k :: 0 <= k < |invoices| && invoices[k].studentId == id
    decreases |students|
  {
    if students == [] then []
    else
      (if exists k :: 0 <= k < |invoices| && invoices[k].studentId == students[0].id then [students[0].id] else []) +
      StudentsWithInvoices(students[1..], invoices)
  }

  /** update_arrears_for_student for each listed student in turn, the counts summed. */
  function ArrearsAll(dir: Directory, b: Books, ids: seq<nat>, today: int, now: int, acc: ArrearsCounts): Step<ArrearsCounts>
  {
    RunSteps((bb: Books, id: nat) => ArrearsStep(dir, bb, id, today, now), b, ids, acc)
  }

  /** A per-student step applied to each id in turn, the counts summed. */
  function RunSteps(step: (Books, nat) -> Step<ArrearsCounts>, b: Books, ids: seq<nat>, acc: ArrearsCounts): Step<ArrearsCounts>
    decreases |ids|
  {
    if ids == [] then Step(b, acc)
    else
      var s := step(b, ids[0]);
      RunSteps(step, s.books, ids[1..], ArrearsCounts(acc.created + s.result.created, acc.updated + s.result.updated))
  }

  /** The first student's recomputation, then the rest. */
  lemma ArrearsAllCons(dir: Directory, b: Books, ids: seq<nat>, today: int, now: int, acc: ArrearsCounts)
    requires ids != []
    ensures var s := ArrearsStep(dir, b, ids[0], today, now);
      ArrearsAll(dir, b, ids, today, now, acc) ==
      ArrearsAll(dir, s.books, ids[1..], today, now, ArrearsCounts(acc.created + s.result.created, acc.updated + s.result.updated))
  {
    var step := (bb: Books, id: nat) => ArrearsStep(dir, bb, id, today, now);
    RunStepsCons(step, b, ids, acc);
    assert step(b, ids[0]) == ArrearsStep(dir, b, ids[0], today, now);
  }

  /** Once the first student's step has left `after` with counts `res`, the rest of the run finishes the whole. */
  lemma ArrearsAllAfter(dir: Directory, before: Books, after: Books, ids: seq<nat>, today: int, now: int,
                        acc: ArrearsCounts, res: ArrearsCounts)
    requires ids != [] && Step(after, res) == ArrearsStep(dir, before, ids[0], today, now)
    ensures ArrearsAll(dir, after, ids[1..], today, now, ArrearsCounts(acc.created + res.created, acc.updated + res.updated)) ==
      ArrearsAll(dir, before, ids, today, now, acc)
  {
    ArrearsAllCons(dir, before, ids, today, now, acc);
  }

  /** A run of steps is its first step, then the run of the rest. */
  lemma RunStepsCons(step: (Books, nat) -> Step<ArrearsCounts>, b: Books, ids: seq<nat>, acc: ArrearsCounts)
    requires ids != []
    ensures var s := step(b, ids[0]);
      RunSteps(step, b, ids, acc) == RunSteps(step, s.books, ids[1..], ArrearsCounts(acc.created + s.result.created, acc.updated + s.result.updated))
  {
  }

  /** A property every step keeps holds after any run of steps. */
  lemma {:induction false} RunStepsKeep(step: (Books, nat) -> Step<ArrearsCounts>, ok: Books -> bool, b: Books, ids: seq<nat>, acc: ArrearsCounts)
    requires ok(b)
    requires forall bb: Books, id: nat :: ok(bb) ==> ok(step(bb, id).books)
    ensures ok(RunSteps(step, b, ids, acc).books)
    decreases |ids|
  {
    if ids != [] {
      var s := step(b, ids[0]);
      RunStepsKeep(step, ok, s.books, ids[1..], ArrearsCounts(acc.created + s.result.created, acc.updated + s.result.updated));
    }
  }

  lemma ArrearsAllKeepsWellFormed(dir: Directory, b: Books, ids: seq<nat>, today: int, now: int, acc: ArrearsCounts)
    requires WellFormed(dir, b)
    ensures WellFormed(dir, ArrearsAll(dir, b, ids, today, now, acc).books)
  {
    var step := (bb: Books, id: nat) => ArrearsStep(dir, bb, id, today, now);
    forall bb: Books, id: nat | WellFormed(dir, bb) ensures WellFormed(dir, step(bb, id).books) {
      ArrearsStepKeepsWellFormed(dir, bb, id, today, now);
    }
    RunStepsKeep(step, (bb: Books) => WellFormed(dir, bb), b, ids, acc);
  }

  // ---------------------------------------------------------------------------
  // MpesaService.find_matching_invoice

  /** Strip '+', drop one leading country code 254, and make sure of a leading 0. */
  function NormalisePhone(phone: string): (r: string)
    ensures |r| > 0 && r[0] == '0'
  {
    var p := LStrip(phone, '+');
    var local := if StartsWith(p, "254") then p[3..] else p;
    if StartsWith(local, "0") then local else "0" + local
  }

  lemma NormalisePhoneIdempotent(phone: string)
    ensures NormalisePhone(NormalisePhone(phone)) == NormalisePhone(phone)
  {
    var r := NormalisePhone(phone);
    assert LStrip(r, '+') == r;
    assert !StartsWith(r, "254");
    assert StartsWith(r, "0");
  }

  /** "+254712345678" loses the '+' and the country code and gains the leading 0. */
  lemma NormalisePlusCountryCode()
    ensures NormalisePhone("+254712345678") == "0712345678"
  {
    assert "+254712345678"[1..] == "254712345678";
    assert LStrip("+254712345678", '+') == LStrip("254712345678", '+');
    NormaliseCountryCode();
  }

  /** "254712345678" loses the country code and gains the leading 0. */
  lemma NormaliseCountryCode()
    ensures NormalisePhone("254712345678") == "0712345678"
  {
    assert LStrip("254712345678", '+') == "254712345678";
  }

  /** A local number with its leading 0 is left as it is. */
  lemma NormaliseLocal()
    ensures NormalisePhone("0712345678") == "0712345678"
  {
    assert LStrip("0712345678", '+') == "0712345678";
  }

  /** A bare nine-digit number gains the leading 0. */
  lemma NormaliseBare()
    ensures NormalisePhone("712345678") == "0712345678"
  {
    assert LStrip("712345678", '+') == "712345678";
  }

  /** The first account whose phone contains the normalised number, case-insensitively. */
  function AccountByPhone(accounts: seq<Account>, phone: string): (r: Option<nat>)
    ensures r.Some? ==> r.value < |accounts| && accounts[r.value].phone.Some? && IContains(accounts[r.value].phone.value, phone)
    ensures r.Some? ==> forall k :: 0 <= k < r.value ==> accounts[k].phone.None? || !IContains(accounts[k].phone.value, phone)
    ensures r.None? ==> forall k :: 0 <= k < |accounts| ==> accounts[k].phone.None? || !IContains(accounts[k].phone.value, phone)
    decreases |accounts|
  {
    if accounts == [] then None
    else if accounts[0].phone.Some? && IContains(accounts[0].phone.value, phone) then Some(0)
    else match AccountByPhone(accounts[1..], phone)
      case None => None
      case Some(k) => Some(k + 1)
  }

  /** The student profile of a user. */
  function StudentOfUser(students: seq<Student>, userId: nat): (r: Option<nat>)
    ensures r.Some? ==> r.value < |students| && students[r.value].userId == userId
    ensures r.None? ==> forall k :: 0 <= k < |students| ==> students[k].userId != userId
    decreases |students|
  {
    if students == [] then None
    else if students[0].userId == userId then Some(0)
    else match StudentOfUser(students[1..], userId)
      case None => None
      case Some(k) => Some(k + 1)
  }

  /** The student who paid from this number: the student of the first user whose phone matches. */
  function Payer(dir: Directory, phoneNumber: string): Option<nat>
  {
    match AccountByPhone(dir.accounts, NormalisePhone(phoneNumber))
    case None => None
    case Some(a) =>
      match StudentOfUser(dir.students, dir.accounts[a].id)
      case None => None
      case Some(s) => Some(dir.students[s].id)
  }

  predicate ExactCandidate(inv: Invoice, studentId: nat, amount: int)
  {
    inv.studentId == studentId && inv.balance == amount && OpenStatus(inv.status)
  }

  predicate WindowCandidate(inv: Invoice, studentId: nat, amount: int)
  {
    inv.studentId == studentId && OpenStatus(inv.status) &&
    amount - MatchToleranceCents <= inv.balance <= amount + MatchToleranceCents
  }

  function FirstExact(invoices: seq<Invoice>, studentId: nat, amount: int): (r: Option<nat>)
    ensures r.Some? ==> r.value < |invoices| && ExactCandidate(invoices[r.value], studentId, amount)
    ensures r.Some? ==> forall k :: 0 <= k < r.value ==> !ExactCandidate(invoices[k], studentId, amount)
    ensures r.None? ==> forall k :: 0 <= k < |invoices| ==> !ExactCandidate(invoices[k], studentId, amount)
    decreases |invoices|
  {
    if invoices == [] then None
    else if ExactCandidate(invoices[0], studentId, amount) then Some(0)
    else match FirstExact(invoices[1..], studentId, amount)
      case None => None
      case Some(k) => Some(k + 1)
  }

  /** The most recently created candidate within the window: tables are kept in creation order. */
  function NewestInWindow(invoices: seq<Invoice>, studentId: nat, amount: int): (r: Option<nat>)
    ensures r.Some? ==> r.value < |invoices| && WindowCandidate(invoices[r.value], studentId, amount)
    ensures r.Some? ==> forall k :: r.value < k < |invoices| ==> !WindowCandidate(invoices[k], studentId, amount)
    ensures r.None? ==> forall k :: 0 <= k < |invoices| ==> !WindowCandidate(invoices[k], studentId, amount)
    decreases |invoices|
  {
    if invoices == [] then None
    else if WindowCandidate(invoices[|invoices| - 1], studentId, amount) then Some(|invoices| - 1)
    else NewestInWindow(invoices[..|invoices| - 1], studentId, amount)
  }

  /**
   * find_matching_invoice: an open invoice of the paying student whose balance
   * equals the amount, the first such one; failing that, the newest open one
   * within the window; failing that, none.
   */
  function FindMatchingInvoice(dir: Directory, invoices: seq<Invoice>, amount: int, phoneNumber: string): (r: Option<nat>)
    ensures r.Some? ==> r.value < |invoices|
  {
    match Payer(dir, phoneNumber)
    case None => None
    case Some(sid) =>
      match FirstExact(invoices, sid, amount)
      case Some(k) => Some(k)
      case None => NewestInWindow(invoices, sid, amount)
  }

  /**
   * The invoice found belongs to the payer and is within the window; when an
   * exact match exists the one found is exact; none is found only when no
   * invoice of the payer is within the window.
   */
  lemma FindMatchingInvoiceSpec(dir: Directory, invoices: seq<Invoice>, amount: int, phoneNumber: string)
    ensures var r := FindMatchingInvoice(dir, invoices, amount, phoneNumber);
      r.Some? ==> Payer(dir, phoneNumber).Some? && WindowCandidate(invoices[r.value], Payer(dir, phoneNumber).value, amount)
    ensures var r := FindMatchingInvoice(dir, invoices, amount, phoneNumber);
      r.Some? && (exists k :: 0 <= k < |invoices| && ExactCandidate(invoices[k], Payer(dir, phoneNumber).value, amount)) ==>
      invoices[r.value].balance == amount
    ensures var r := FindMatchingInvoice(dir, invoices, amount, phoneNumber);
      r.None? && Payer(dir, phoneNumber).Some? ==>
      forall k :: 0 <= k < |invoices| ==> !WindowCandidate(invoices[k], Payer(dir, phoneNumber).value, amount)
  {
    match Payer(dir, phoneNumber)
    case None =>
    case Some(sid) =>
      match FirstExact(invoices, sid, amount)
      case Some(k) =>
      case None =>
  }

  // ---------------------------------------------------------------------------
  // MpesaService.process_mpesa_callback

  datatype CallbackResult =
    | CallbackProcessed(invoiceId: nat, paymentId: nat, transactionId: string)
    | CallbackUnmatched(transactionId: string)
    | CallbackError(message: string)

  predicate KnownTransaction(txs: seq<MpesaTransaction>, transactionId: string)
  {
    exists k :: 0 <= k < |txs| && txs[k].transactionId == transactionId
  }

  /**
   * process_mpesa_callback. The transaction record is written first; a missing
   * receipt number or reference text, or an already recorded receipt number,
   * makes that insert fail, which the service reports as an error. The matched
   * invoice takes the payment whatever its balance.
   */
  function ProcessCallback(dir: Directory, b: Books, transactionId: Option<string>, amount: int,
                           phoneNumber: string, referenceText: Option<string>, raw: Value): Step<CallbackResult>
  {
    ReceiveStep(b, transactionId, amount, phoneNumber, referenceText, raw, FindMatchingInvoice(dir, b.invoices, amount, phoneNumber))
  }

  /** The IntegrityError texts of the transaction_id column: null, and already taken. */
  const MissingTransactionId := "NOT NULL constraint failed: fees_mpesatransaction.transaction_id"
  const DuplicateTransactionId := "UNIQUE constraint failed: fees_mpesatransaction.transaction_id"

  /** The IntegrityError text of a null reference_text: the column is a CharField without null=True. */
  const MissingReferenceText := "NOT NULL constraint failed: fees_mpesatransaction.reference_text"

  /**
   * The callback with the invoice the matcher picks given: the match reads
   * only the invoices, which the pending transaction row leaves alone, so it
   * is the same before and after that insert. The NOT NULL checks of the row
   * come before the unique check of its receipt number.
   */
  function ReceiveStep(b: Books, transactionId: Option<string>, amount: int, phoneNumber: string,
                       referenceText: Option<string>, raw: Value, found: Option<nat>): Step<CallbackResult>
    requires found.Some? ==> found.value < |b.invoices|
  {
    if transactionId.None? then Step(b, CallbackError(MissingTransactionId))
    else if referenceText.None? then Step(b, CallbackError(MissingReferenceText))
    else if KnownTransaction(b.transactions, transactionId.value) then Step(b, CallbackError(DuplicateTransactionId))
    else SettleStep(b, transactionId.value, amount, phoneNumber, referenceText.value, raw, found)
  }

  /** An accepted receipt: unmatched without an invoice, else the payment, the invoice update and the processed row. */
  function SettleStep(b: Books, id: string, amount: int, phoneNumber: string, referenceText: string, raw: Value,
                      found: Option<nat>): Step<CallbackResult>
    requires found.Some? ==> found.value < |b.invoices|
  {
    match found
    case None =>
      Step(b.(transactions := b.transactions + [MpesaTransaction(id, amount, phoneNumber, referenceText, TxUnmatched, None, raw)]),
           CallbackUnmatched(id))
    case Some(k) =>
      var payment := FeePayment(|b.payments|, k, amount, "mpesa", id, PaymentCompleted, JNull, JNull, None);
      Step(b.(payments := b.payments + [payment],
              invoices := b.invoices[k := ApplyPayment(b.invoices[k], amount)],
              transactions := b.transactions + [MpesaTransaction(id, amount, phoneNumber, referenceText, TxProcessed, Some(k), raw)]),
           CallbackProcessed(k, |b.payments|, id))
  }

  /**
   * A receipt number is recorded at most once: after a delivery with reference
   * text, a second delivery changes nothing and reports an error. A delivery
   * without reference text records nothing, so it leaves the number free.
   */
  lemma CallbackIdempotent(dir: Directory, b: Books, id: string, amount: int, phone: string, ref: Option<string>, raw: Value,
                           amount2: int, phone2: string, ref2: Option<string>, raw2: Value)
    ensures var once := ProcessCallback(dir, b, Some(id), amount, phone, ref, raw);
      var twice := ProcessCallback(dir, once.books, Some(id), amount2, phone2, ref2, raw2);
      (ref.Some? ==> twice.books == once.books && twice.result.CallbackError?) &&
      (ref.None? ==> once == Step(b, CallbackError(MissingReferenceText)))
  {
    var found := FindMatchingInvoice(dir, b.invoices, amount, phone);
    var once := ReceiveStep(b, Some(id), amount, phone, ref, raw, found);
    ReceiveIdempotent(b, id, amount, phone, ref, raw, found);
    var found2 := FindMatchingInvoice(dir, once.books.invoices, amount2, phone2);
    var twice := ReceiveStep(once.books, Some(id), amount2, phone2, ref2, raw2, found2);
    if ref.Some? {
      assert twice.books == once.books;
    }
  }

  /** The step behind CallbackIdempotent: after one delivery the receipt number is known, or nothing was written. */
  lemma ReceiveIdempotent(b: Books, id: string, amount: int, phone: string, ref: Option<string>, raw: Value, found: Option<nat>)
    requires found.Some? ==> found.value < |b.invoices|
    ensures var once := ReceiveStep(b, Some(id), amount, phone, ref, raw, found);
      |once.books.invoices| == |b.invoices| &&
      (ref.Some? ==> KnownTransaction(once.books.transactions, id))
  {
    var once := ReceiveStep(b, Some(id), amount, phone, ref, raw, found);
    if ref.Some? && !KnownTransaction(b.transactions, id) {
      var n := |b.transactions|;
      assert once.books.transactions[n].transactionId == id;
    }
  }

  /** A receipt whose reference text is null fails the insert: no transaction row, no payment, no invoice change. */
  lemma CallbackNullReferenceRefused(dir: Directory, b: Books, id: string, amount: int, phone: string, raw: Value)
    ensures ProcessCallback(dir, b, Some(id), amount, phone, None, raw) == Step(b, CallbackError(MissingReferenceText))
  {
  }

  /** The callback keeps the ledger invariants; the payment accounting included. */
  lemma CallbackKeepsWellFormed(dir: Directory, b: Books, transactionId: Option<string>, amount: int,
                                phone: string, ref: Option<string>, raw: Value)
    requires WellFormed(dir, b)
    ensures WellFormed(dir, ProcessCallback(dir, b, transactionId, amount, phone, ref, raw).books)
  {
    if transactionId.Some? && ref.Some? && !KnownTransaction(b.transactions, transactionId.value) {
      SettleKeepsWellFormed(dir, b, transactionId.value, amount, phone, ref.value, raw, FindMatchingInvoice(dir, b.invoices, amount, phone));
    }
  }

  /** Settling a new receipt keeps the ledger invariants, whichever invoice, if any, it is matched to. */
  lemma SettleKeepsWellFormed(dir: Directory, b: Books, id: string, amount: int, phone: string, ref: string, raw: Value,
                              found: Option<nat>)
    requires WellFormed(dir, b) && !KnownTransaction(b.transactions, id)
    requires found.Some? ==> found.value < |b.invoices|
    ensures WellFormed(dir, SettleStep(b, id, amount, phone, ref, raw, found).books)
  {
    var r := SettleStep(b, id, amount, phone, ref, raw, found);
    var txs := r.books.transactions;
    forall i, j | 0 <= i < j < |txs| ensures txs[i].transactionId != txs[j].transactionId {
      if j == |b.transactions| {
        assert txs[i] == b.transactions[i];
      } else {
        assert txs[i] == b.transactions[i] && txs[j] == b.transactions[j];
      }
    }
    if found.Some? {
      var k := found.value;
      var p := FeePayment(|b.payments|, k, amount, "mpesa", id, PaymentCompleted, JNull, JNull, None);
      PaymentKeepsAccounting(b, k, p, ApplyPayment(b.invoices[k], amount));
    }
  }

  /** The directory of the two examples below: one student whose account's phone is 0712345678. */
  function ExampleDirectory(): Directory
  {
    Directory([], [], [Student(0, 0, Some(1), true)], [Account(0, Some("0712345678"))])
  }

  function ExampleBooks(): Books
  {
    Books([Invoice(0, 0, 1, 500000, 0, 500000, Issued, Some(10), None)], [], [], [])
  }

  lemma IContainsItself(s: string)
    ensures IContains(s, s)
  {
    var x := Lower(s);
    assert x[..|x|] == x;
  }

  lemma ExampleAccount()
    ensures AccountByPhone(ExampleDirectory().accounts, "0712345678") == Some(0)
  {
    IContainsItself("0712345678");
  }

  /** The payer is found through the account whose phone holds the normalised number. */
  lemma ExamplePayer(phone: string)
    requires NormalisePhone(phone) == "0712345678"
    ensures Payer(ExampleDirectory(), phone) == Some(0)
  {
    ExampleAccount();
    var dir := ExampleDirectory();
    assert dir.accounts[0].id == 0;
    assert StudentOfUser(dir.students, 0) == Some(0);
  }

  lemma ExamplePayerInternational()
    ensures Payer(ExampleDirectory(), "254712345678") == Some(0)
  {
    NormaliseCountryCode();
    ExamplePayer("254712345678");
  }

  lemma ExamplePayerLocal()
    ensures Payer(ExampleDirectory(), "0712345678") == Some(0)
  {
    NormaliseLocal();
    ExamplePayer("0712345678");
  }

  /**
   * Unlike record_payment, the callback applies a payment above the balance:
   * a 5,050 shilling payment falls in the window of a 5,000 shilling invoice and
   * leaves it owing -50 shillings, marked partial.
   */
  lemma CallbackCanOverpay()
    ensures var r := ProcessCallback(ExampleDirectory(), ExampleBooks(), Some("QK1"), 505000, "254712345678", Some(""), JNull);
      r.result == CallbackProcessed(0, 0, "QK1") && r.books.invoices[0].balance == -5000 &&
      r.books.invoices[0].status == Partial && !NoOverpayment(r.books.invoices)
  {
    ExampleOverpayMatch();
    assert !KnownTransaction(ExampleBooks().transactions, "QK1");
    CallbackMatched(ExampleDirectory(), ExampleBooks(), "QK1", 505000, "254712345678", "", JNull, 0);
  }

  /** A new receipt whose payer the matcher ties to invoice k settles against that invoice. */
  lemma CallbackMatched(dir: Directory, b: Books, id: string, amount: int, phone: string, ref: string, raw: Value, k: nat)
    requires FindMatchingInvoice(dir, b.invoices, amount, phone) == Some(k) && !KnownTransaction(b.transactions, id)
    ensures k < |b.invoices|
    ensures ProcessCallback(dir, b, Some(id), amount, phone, Some(ref), raw) == SettleStep(b, id, amount, phone, ref, raw, Some(k))
  {
  }

  /** With no exact match, the 5,050 shilling payment from the international number finds the invoice in the window. */
  lemma ExampleOverpayMatch()
    ensures FindMatchingInvoice(ExampleDirectory(), ExampleBooks().invoices, 505000, "254712345678") == Some(0)
  {
    var b := ExampleBooks();
    ExamplePayerInternational();
    assert FirstExact(b.invoices, 0, 505000) == None;
    assert NewestInWindow(b.invoices, 0, 505000) == Some(0);
  }

  /** A payment of 4,950 shillings against a 5,000 shilling balance is matched in the window and leaves 50. */
  lemma CallbackWindowMatch()
    ensures var r := ProcessCallback(ExampleDirectory(), ExampleBooks(), Some("QK2"), 495000, "0712345678", Some(""), JNull);
      r.result == CallbackProcessed(0, 0, "QK2") && r.books.invoices[0].balance == 5000 &&
      r.books.invoices[0].status == Partial
  {
    ExampleWindowMatch();
    assert !KnownTransaction(ExampleBooks().transactions, "QK2");
    CallbackMatched(ExampleDirectory(), ExampleBooks(), "QK2", 495000, "0712345678", "", JNull, 0);
  }

  /** With no exact match, the 4,950 shilling payment from the local number finds the invoice in the window. */
  lemma ExampleWindowMatch()
    ensures FindMatchingInvoice(ExampleDirectory(), ExampleBooks().invoices, 495000, "0712345678") == Some(0)
  {
    var b := ExampleBooks();
    ExamplePayerLocal();
    assert FirstExact(b.invoices, 0, 495000) == None;
    assert NewestInWindow(b.invoices, 0, 495000) == Some(0);
  }

  lemma GenStructuresUnfold(run: GenRun, dir: Directory, t: nat, faults: map<nat, string>, user: Option<nat>, fss: seq<FeeStructure>, i: nat)
    requires i < |fss|
    ensures GenStructures(run, dir, t, faults, user, fss[i..]) ==
            GenStructures(GenStructure(run, dir, t, faults, user, fss[i]), dir, t, faults, user, fss[i + 1..])
  {
    assert fss[i..][1..] == fss[i + 1..];
  }

  lemma GenStudentsUnfold(run: GenRun, dir: Directory, t: nat, fs: FeeStructure, user: Option<nat>, studs: seq<Student>, j: nat)
    requires j < |studs|
    ensures GenStudents(run, dir, t, fs, user, studs[j..]) ==
            GenStudents(GenStudent(run, dir, t, fs, user, studs[j]), dir, t, fs, user, studs[j + 1..])
  {
    assert studs[j..][1..] == studs[j + 1..];
  }

  // ---------------------------------------------------------------------------
  // The ledger object

  class FeeLedger {
    var structures: seq<FeeStructure>
    var overrides: seq<FeeOverride>
    var students: seq<Student>
    var accounts: seq<Account>
    var invoices: seq<Invoice>
    var payments: seq<FeePayment>
    var arrears: seq<Arrears>
    var transactions: seq<MpesaTransaction>

    function Dir(): Directory
      reads this`structures, this`overrides, this`students, this`accounts
    {
      Directory(structures, overrides, students, accounts)
    }

    function State(): Books
      reads this`invoices, this`payments, this`arrears, this`transactions
    {
      Books(invoices, payments, arrears, transactions)
    }

    ghost predicate Valid()
      reads this
    {
      WellFormed(Dir(), State())
    }

    constructor (structures: seq<FeeStructure>, overrides: seq<FeeOverride>, students: seq<Student>, accounts: seq<Account>)
      requires StudentsIndexed(students) && AccountsIndexed(accounts)
      ensures Valid()
      ensures Dir() == Directory(structures, overrides, students, accounts)
      ensures State() == Books([], [], [], [])
    {
      this.structures := structures;
      this.overrides := overrides;
      this.students := students;
      this.accounts := accounts;
      invoices, payments, arrears, transactions := [], [], [], [];
    }

    /** InvoiceGenerationService.generate_invoices_for_term */
    method GenerateInvoicesForTerm(termId: nat, school: Option<nat>, classFilter: Option<nat>,
                                   faults: map<nat, string>, user: Option<nat>)
      returns (created: nat, skipped: nat, errors: seq<GenError>)
      requires Valid()
      modifies this`invoices
      ensures Valid()
      ensures GenRun(invoices, created, skipped, errors) == Generate(Dir(), old(invoices), termId, school, classFilter, faults, user)
    {
      var dir := Directory(structures, overrides, students, accounts);
      GenerateKeepsWellFormed(dir, State(), termId, school, classFilter, faults, user);
      if classFilter.Some? {
        return 0, 0, [GeneralError(ModelsNameError)];
      }
      var fss := StructuresFor(structures, termId, school);
      ghost var target := Generate(dir, invoices, termId, school, classFilter, faults, user);
      created, skipped, errors := 0, 0, [];
      var i := 0;
      while i < |fss|
        invariant 0 <= i <= |fss|
        invariant Dir() == dir
        invariant GenStructures(GenRun(invoices, created, skipped, errors), dir, termId, faults, user, fss[i..]) == target
      {
        var fs := fss[i];
        GenStructuresUnfold(GenRun(invoices, created, skipped, errors), dir, termId, faults, user, fss, i);
        if Fault(fs, faults).Some? {
          errors := errors + [StructureError(fs.id, Fault(fs, faults).value)];
        } else {
          created, skipped := InvoiceStudents(termId, fs, user, created, skipped, errors);
        }
        i := i + 1;
      }
      assert fss[i..] == [];
    }

    /** The inner loop of generation: the students one structure applies to. */
    method InvoiceStudents(termId: nat, fs: FeeStructure, user: Option<nat>, created0: nat, skipped0: nat, errors: seq<GenError>)
      returns (created: nat, skipped: nat)
      modifies this`invoices
      ensures GenRun(invoices, created, skipped, errors) ==
              GenStudents(GenRun(old(invoices), created0, skipped0, errors), Dir(), termId, fs, user, EligibleStudents(students, fs))
    {
      var dir := Directory(structures, overrides, students, accounts);
      var studs := EligibleStudents(students, fs);
      ghost var target := GenStudents(GenRun(invoices, created0, skipped0, errors), dir, termId, fs, user, studs);
      created, skipped := created0, skipped0;
      var j := 0;
      while j < |studs|
        invariant 0 <= j <= |studs|
        invariant GenStudents(GenRun(invoices, created, skipped, errors), dir, termId, fs, user, studs[j..]) == target
      {
        var s := studs[j];
        ghost var run := GenRun(invoices, created, skipped, errors);
        ghost var next := GenStudent(run, dir, termId, fs, user, s);
        GenStudentsUnfold(run, dir, termId, fs, user, studs, j);
        if HasInvoice(invoices, s.id, termId) {
          skipped := skipped + 1;
        } else {
          var amount := InvoiceAmount(overrides, s.id, termId, fs);
          invoices := invoices + [NewInvoice(|invoices|, s.id, termId, amount, user)];
          created := created + 1;
        }
        assert GenRun(invoices, created, skipped, errors) == next;
        j := j + 1;
      }
      assert studs[j..] == [];
    }

    /** PaymentService.record_payment */
    method RecordPayment(invoiceId: nat, amount: int, paymentMethod: string, reference: string, user: Option<nat>, now: int)
      returns (r: Result<nat, PaymentRejection>)
      requires Valid() && invoiceId < |invoices|
      modifies this`invoices, this`payments, this`arrears
      ensures Valid()
      ensures Step(State(), r) == RecordPaymentStep(Dir(), old(State()), invoiceId, amount, paymentMethod, reference, user, now)
    {
      RecordPaymentKeepsWellFormed(Dir(), State(), invoiceId, amount, paymentMethod, reference, user, now);
      var inv := invoices[invoiceId];
      if amount <= 0 {
        return Err(NonPositiveAmount);
      }
      if amount > inv.balance {
        return Err(ExceedsBalance(amount, inv.balance));
      }
      var paymentId := |payments|;
      payments := payments + [FeePayment(paymentId, invoiceId, amount, paymentMethod, reference, PaymentCompleted, JNull, JNull, user)];
      var updated := ApplyPayment(inv, amount);
      invoices := invoices[invoiceId := updated];
      var row := ArrearsRow(arrears, inv.studentId, SchoolOf(Dir(), inv.studentId));
      if row.Some? && updated.balance == 0 {
        arrears := arrears[row.value := arrears[row.value].(isResolved := true, resolvedDate := Some(now))];
      }
      r := Ok(paymentId);
    }

    /** ArrearsService.update_arrears_for_student */
    method UpdateArrearsForStudent(studentId: nat, today: int, now: int) returns (counts: ArrearsCounts)
      requires Valid()
      modifies this`invoices, this`arrears
      ensures Valid()
      ensures Step(State(), counts) == ArrearsStep(Dir(), old(State()), studentId, today, now)
    {
      ArrearsStepKeepsWellFormed(Dir(), State(), studentId, today, now);
      var school := SchoolOf(Dir(), studentId);
      var row := ArrearsRow(arrears, studentId, school);
      var due := EarliestDue(invoices, studentId, today);
      counts := ApplyArrears(studentId, school, row, due, today, now);
    }

    /** The writes of update_arrears_for_student once its lookups are done. */
    method ApplyArrears(studentId: nat, school: Option<nat>, row: Option<nat>, due: Option<int>, today: int, now: int)
      returns (counts: ArrearsCounts)
      requires row.Some? ==> row.value < |arrears|
      modifies this`invoices, this`arrears
      ensures Step(State(), counts) == ArrearsOn(old(State()), studentId, school, row, due, today, now)
    {
      ghost var spec := ArrearsOn(State(), studentId, school, row, due, today, now);
      if due.Some? {
        var total := SumOverdue(studentId, today);
        var days := today - due.value;
        if row.Some? {
          arrears := arrears[row.value := arrears[row.value].(totalArrears := total, daysOutstanding := days, isResolved := false)];
          counts := ArrearsCounts(0, 1);
        } else {
          arrears := arrears + [Arrears(studentId, school, total, days, false, None, "")];
          counts := ArrearsCounts(1, 0);
        }
        MarkInvoicesOverdue(studentId, today);
      } else {
        counts := ArrearsCounts(0, 0);
        if row.Some? && !arrears[row.value].isResolved {
          arrears := arrears[row.value := arrears[row.value].(isResolved := true, resolvedDate := Some(now))];
          counts := ArrearsCounts(0, 1);
        }
      }
    }

    /** sum(inv.balance for inv in overdue_invoices) */
    method SumOverdue(studentId: nat, today: int) returns (total: int)
      ensures total == OverdueSum(invoices, studentId, today)
    {
      total := 0;
      var k := |invoices|;
      assert invoices[..k] == invoices;
      while k > 0
        invariant 0 <= k <= |invoices|
        invariant total + OverdueSum(invoices[..k], studentId, today) == OverdueSum(invoices, studentId, today)
      {
        assert invoices[..k] == invoices[..k - 1] + [invoices[k - 1]];
        OverdueSumSnoc(invoices[..k - 1], invoices[k - 1], studentId, today);
        if IsOverdue(invoices[k - 1], studentId, today) {
          total := total + invoices[k - 1].balance;
        }
        k := k - 1;
      }
      assert invoices[..0] == [];
    }

    /** The two bulk updates that move the overdue issued and partial invoices to overdue. */
    method MarkInvoicesOverdue(studentId: nat, today: int)
      modifies this`invoices
      ensures invoices == MarkOverdue(old(invoices), studentId, today)
    {
      var j := 0;
      while j < |invoices|
        invariant 0 <= j <= |invoices| == |old(invoices)|
        invariant forall m :: 0 <= m < j ==> invoices[m] == MarkOverdue(old(invoices), studentId, today)[m]
        invariant forall m :: j <= m < |invoices| ==> invoices[m] == old(invoices)[m]
      {
        if IsOverdue(invoices[j], studentId, today) {
          invoices := invoices[j := invoices[j].(status := Overdue)];
        }
        j := j + 1;
      }
    }

    /** ArrearsService.update_all_arrears */
    method UpdateAllArrears(today: int, now: int) returns (counts: ArrearsCounts)
      requires Valid()
      modifies this`invoices, this`arrears
      ensures Valid()
      ensures Step(State(), counts) == ArrearsAll(Dir(), old(State()), StudentsWithInvoices(students, old(invoices)), today, now, ArrearsCounts(0, 0))
    {
      var ids := StudentsWithInvoices(students, invoices);
      ghost var target := ArrearsAll(Dir(), State(), ids, today, now, ArrearsCounts(0, 0));
      counts := ArrearsCounts(0, 0);
      var i := 0;
      while i < |ids|
        invariant 0 <= i <= |ids|
        invariant Valid()
        invariant ArrearsAll(Dir(), State(), ids[i..], today, now, counts) == target
      {
        assert ids[i..][1..] == ids[i + 1..];
        counts := VisitStudent(ids[i..], today, now, counts);
        i := i + 1;
      }
    }

    /** One turn of update_all_arrears' loop: the first student left is recomputed and the counts summed. */
    method VisitStudent(rest: seq<nat>, today: int, now: int, acc: ArrearsCounts) returns (counts: ArrearsCounts)
      requires Valid() && rest != []
      modifies this`invoices, this`arrears
      ensures Valid()
      ensures ArrearsAll(Dir(), State(), rest[1..], today, now, counts) == ArrearsAll(Dir(), old(State()), rest, today, now, acc)
    {
      var res := UpdateArrearsForStudent(rest[0], today, now);
      ArrearsAllAfter(Dir(), old(State()), State(), rest, today, now, acc, res);
      counts := ArrearsCounts(acc.created + res.created, acc.updated + res.updated);
    }

    /** MpesaService.process_mpesa_callback */
    method ProcessMpesaCallback(transactionId: Option<string>, amount: int, phoneNumber: string,
                                referenceText: Option<string>, raw: Value) returns (r: CallbackResult)
      requires Valid()
      modifies this`invoices, this`payments, this`transactions
      ensures Valid()
      ensures Step(State(), r) == ProcessCallback(Dir(), old(State()), transactionId, amount, phoneNumber, referenceText, raw)
    {
      var found := FindMatchingInvoice(Dir(), invoices, amount, phoneNumber);
      r := ReceiveCallback(transactionId, amount, phoneNumber, referenceText, raw, found);
    }

    /** process_mpesa_callback with the matching invoice already looked up. */
    method ReceiveCallback(transactionId: Option<string>, amount: int, phoneNumber: string,
                           referenceText: Option<string>, raw: Value, found: Option<nat>) returns (r: CallbackResult)
      requires Valid()
      requires found.Some? ==> found.value < |invoices|
      modifies this`invoices, this`payments, this`transactions
      ensures Valid()
      ensures Step(State(), r) == ReceiveStep(old(State()), transactionId, amount, phoneNumber, referenceText, raw, found)
    {
      if transactionId.None? {
        return CallbackError(MissingTransactionId);
      }
      if referenceText.None? {
        return CallbackError(MissingReferenceText);
      }
      if KnownTransaction(transactions, transactionId.value) {
        return CallbackError(DuplicateTransactionId);
      }
      r := SettleCallback(transactionId.value, amount, phoneNumber, referenceText.value, raw, found);
    }

    /**
     * The part of process_mpesa_callback after the receipt is accepted: the
     * transaction row is written as pending, then marked unmatched, or, with
     * the matched invoice, the payment is written, the invoice updated and the
     * row marked processed.
     */
    method SettleCallback(id: string, amount: int, phoneNumber: string, referenceText: string, raw: Value,
                          found: Option<nat>) returns (r: CallbackResult)
      requires Valid() && !KnownTransaction(transactions, id)
      requires found.Some? ==> found.value < |invoices|
      modifies this`invoices, this`payments, this`transactions
      ensures Valid()
      ensures Step(State(), r) == SettleStep(old(State()), id, amount, phoneNumber, referenceText, raw, found)
    {
      SettleKeepsWellFormed(Dir(), State(), id, amount, phoneNumber, referenceText, raw, found);
      var txIndex := |transactions|;
      transactions := transactions + [MpesaTransaction(id, amount, phoneNumber, referenceText, TxPending, None, raw)];
      if found.None? {
        transactions := transactions[txIndex := transactions[txIndex].(status := TxUnmatched)];
        return CallbackUnmatched(id);
      }
      var k := found.value;
      var paymentId := |payments|;
      payments := payments + [FeePayment(paymentId, k, amount, "mpesa", id, PaymentCompleted, JNull, JNull, None)];
      invoices := invoices[k := ApplyPayment(invoices[k], amount)];
      transactions := transactions[txIndex := transactions[txIndex].(status := TxProcessed, matchedInvoice := Some(k))];
      r := CallbackProcessed(k, paymentId, id);
    }
  }

  lemma {:induction false} OverdueSumSnoc(invoices: seq<Invoice>, inv: Invoice, studentId: nat, today: int)
    ensures OverdueSum(invoices + [inv], studentId, today) ==
            OverdueSum(invoices, studentId, today) + (if IsOverdue(inv, studentId, today) then inv.balance else 0)
    decreases |invoices|
  {
    if invoices == [] {
      assert [inv][1..] == [];
    } else {
      assert (invoices + [inv])[1..] == invoices[1..] + [inv];
      OverdueSumSnoc(invoices[1..], inv, studentId, today);
    }
  }
}
