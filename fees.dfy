/** The financial screen of the web client: per-student fee statistics,
    the summary cards (fee income, expenses, salaries, net profit), the
    payroll table's allowance and deduction totals, and the required-field
    guards of its submission handlers. */
module FeeLedger {
  import opened Js
  import opened Seqs

  datatype Payment = Payment(studentId: Id, amount: Option<real>)
  datatype FeeItem = FeeItem(amount: Option<real>)
  /** A fee structure applies to every class when it has no class id. */
  datatype FeeStructure = FeeStructure(classId: Option<Id>, feeItems: Option<seq<FeeItem>>)

  datatype FeeStats = FeeStats(totalExpected: real, totalPaid: real, balance: real, fullyPaid: bool)

  const NoStats := FeeStats(0.0, 0.0, 0.0, false)

  function PaymentAmount(p: Payment): real { OrZero(p.amount) }
  function ItemAmount(i: FeeItem): real { OrZero(i.amount) }

  function ItemsOf(s: FeeStructure): seq<FeeItem> {
    if s.feeItems.Some? then s.feeItems.value else []
  }

  /** Everything the student has paid: the amounts of all payments carrying
      the student's id, whatever their term. */
  function PaidBy(payments: seq<Payment>, studentId: Id): real {
    Sum(Filter(payments, ByStudent(studentId)), PaymentAmount)
  }

  /** `p => p.student_id === studentId`. */
  function ByStudent(studentId: Id): Payment -> bool {
    (p: Payment) => p.studentId == studentId
  }

  function Applies(s: FeeStructure, classId: Option<Id>): bool {
    s.classId.None? || s.classId == classId
  }

  /** `structures.flatMap(s => (s.fee_items || []).filter(...))`. */
  function ApplicableItems(structures: seq<FeeStructure>, classId: Option<Id>): seq<FeeItem> {
    if structures == [] then []
    else (if Applies(structures[0], classId) then ItemsOf(structures[0]) else [])
         + ApplicableItems(structures[1..], classId)
  }

  function ExpectedFor(structures: seq<FeeStructure>, classId: Option<Id>): real {
    Sum(ApplicableItems(structures, classId), ItemAmount)
  }

  /** `calculateStudentFeeStats` with the student's class id passed in. Not
      an array / no student id gives the all-zero record. */
  function StudentFeeStats(studentId: Option<Id>, classId: Option<Id>,
                           payments: Option<seq<Payment>>, structures: Option<seq<FeeStructure>>): FeeStats
  {
    if studentId.None? || payments.None? || structures.None? then NoStats
    else
      var paid := PaidBy(payments.value, studentId.value);
      var expected := ExpectedFor(structures.value, classId);
      FeeStats(expected, paid, expected - paid, expected - paid <= 0.0)
  }

  /** The status badge of the ledger table. */
  function StatusLabel(s: FeeStats): string {
    if s.fullyPaid then "Paid" else "Pending"
  }

  lemma {:induction false} ApplicableItemsAppend(structures: seq<FeeStructure>, s: FeeStructure, classId: Option<Id>)
    ensures ApplicableItems(structures + [s], classId)
            == ApplicableItems(structures, classId) + (if Applies(s, classId) then ItemsOf(s) else [])
  {
    if structures == [] {
      assert [] + [s] == [s];
    } else {
      assert (structures + [s])[1..] == structures[1..] + [s];
      ApplicableItemsAppend(structures[1..], s, classId);
    }
  }

  /** A structure without a class id is charged to every student; one with a
      class id only to the students of that class: adding it raises their
      expected total by its items and leaves everyone else's as it was. */
  lemma ExpectedForNewStructure(structures: seq<FeeStructure>, s: FeeStructure, classId: Option<Id>)
    ensures s.classId.None? || s.classId == classId ==>
      ExpectedFor(structures + [s], classId) == ExpectedFor(structures, classId) + Sum(ItemsOf(s), ItemAmount)
    ensures s.classId.Some? && s.classId != classId ==>
      ExpectedFor(structures + [s], classId) == ExpectedFor(structures, classId)
  {
    ApplicableItemsAppend(structures, s, classId);
    SumConcat(ApplicableItems(structures, classId), if Applies(s, classId) then ItemsOf(s) else [], ItemAmount);
    assert ApplicableItems(structures, classId) + [] == ApplicableItems(structures, classId);
  }

  /** A new payment by the student lowers the balance by exactly its amount
      (balances are derived from the payments, with nothing cached), and a
      payment by another student changes nothing. */
  lemma {:induction false} PaymentReflected(studentId: Id, classId: Option<Id>, payments: seq<Payment>,
                                            structures: seq<FeeStructure>, p: Payment)
    ensures var before := StudentFeeStats(Some(studentId), classId, Some(payments), Some(structures));
            var after := StudentFeeStats(Some(studentId), classId, Some(payments + [p]), Some(structures));
            if p.studentId == studentId
            then after.totalPaid == before.totalPaid + PaymentAmount(p)
                 && after.balance == before.balance - PaymentAmount(p)
            else after == before
  {
    var mine := ByStudent(studentId);
    FilterConcat(payments, [p], mine);
    SumConcat(Filter(payments, mine), Filter([p], mine), PaymentAmount);
    assert Filter([p], mine) == (if mine(p) then [p] else []);
    assert Sum([p], PaymentAmount) == PaymentAmount(p) by {
      assert [p][..0] == [];
    }
  }

  /** Two payments of 1000 by the same student both count. */
  lemma TwoPaymentsBothCount(studentId: Id, classId: Option<Id>, payments: seq<Payment>, structures: seq<FeeStructure>)
    ensures var p := Payment(studentId, Some(1000.0));
            StudentFeeStats(Some(studentId), classId, Some(payments + [p] + [p]), Some(structures)).balance
            == StudentFeeStats(Some(studentId), classId, Some(payments), Some(structures)).balance - 2000.0
  {
    var p := Payment(studentId, Some(1000.0));
    PaymentReflected(studentId, classId, payments, structures, p);
    PaymentReflected(studentId, classId, payments + [p], structures, p);
  }

  /** Expected 15000; two payments of 5000 leave 5000 pending, and a third of
      6000 overpays to a balance of -1000, shown as "Paid". */
  lemma LedgerExample(studentId: Id)
    ensures var structures := [FeeStructure(None, Some([FeeItem(Some(15000.0))]))];
            var p5 := Payment(studentId, Some(5000.0));
            var p6 := Payment(studentId, Some(6000.0));
            var s2 := StudentFeeStats(Some(studentId), None, Some([p5, p5]), Some(structures));
            var s3 := StudentFeeStats(Some(studentId), None, Some([p5, p5, p6]), Some(structures));
            s2.balance == 5000.0 && StatusLabel(s2) == "Pending" &&
            s3.balance == -1000.0 && StatusLabel(s3) == "Paid"
  {
    var structures := [FeeStructure(None, Some([FeeItem(Some(15000.0))]))];
    var p5 := Payment(studentId, Some(5000.0));
    var p6 := Payment(studentId, Some(6000.0));
    assert ApplicableItems(structures, None) == [FeeItem(Some(15000.0))];
    assert ExpectedFor(structures, None) == 15000.0 by {
      assert [FeeItem(Some(15000.0))][..0] == [];
    }
    var s0 := StudentFeeStats(Some(studentId), None, Some([]), Some(structures));
    assert s0.balance == 15000.0;
    PaymentReflected(studentId, None, [], structures, p5);
    assert [] + [p5] == [p5];
    var s1 := StudentFeeStats(Some(studentId), None, Some([p5]), Some(structures));
    assert s1.balance == 10000.0;
    PaymentReflected(studentId, None, [p5], structures, p5);
    assert [p5] + [p5] == [p5, p5];
    var s2 := StudentFeeStats(Some(studentId), None, Some([p5, p5]), Some(structures));
    assert s2.balance == 5000.0;
    PaymentReflected(studentId, None, [p5, p5], structures, p6);
    assert [p5, p5] + [p6] == [p5, p5, p6];
  }

  // ---------------------------------------------------------------------
  // The code as written compares with `student.class_id`, but no `student`
  // is in scope of `calculateStudentFeeStats`.

  datatype Evaluation = Computed(stats: FeeStats) | ReferenceError

  /** The filter callback only touches `student` for a structure with a
      class id that has at least one fee item. */
  predicate HasClassSpecificItems(structures: seq<FeeStructure>) {
    exists i :: 0 <= i < |structures| && structures[i].classId.Some? && ItemsOf(structures[i]) != []
  }

  /** `calculateStudentFeeStats` as written. */
  function StudentFeeStatsAsWritten(studentId: Option<Id>, payments: Option<seq<Payment>>,
                                    structures: Option<seq<FeeStructure>>): Evaluation
  {
    if studentId.None? || payments.None? || structures.None? then Computed(NoStats)
    else if HasClassSpecificItems(structures.value) then ReferenceError
    else Computed(StudentFeeStats(studentId, None, payments, structures))
  }

  lemma {:induction false} ApplicableWithoutClassItems(structures: seq<FeeStructure>, c1: Option<Id>, c2: Option<Id>)
    requires !HasClassSpecificItems(structures)
    ensures ApplicableItems(structures, c1) == ApplicableItems(structures, c2)
  {
    if structures != [] {
      assert !HasClassSpecificItems(structures[1..]) by {
        forall i | 0 <= i < |structures[1..]|
          ensures !(structures[1..][i].classId.Some? && ItemsOf(structures[1..][i]) != [])
        {
          assert structures[1..][i] == structures[i + 1];
        }
      }
      ApplicableWithoutClassItems(structures[1..], c1, c2);
      assert structures[0].classId.Some? ==> ItemsOf(structures[0]) == [];
    }
  }

  /** Where the code as written computes anything, it agrees with the
      corrected statistics for a student of any class. */
  lemma StudentFeeStatsAsWrittenAgrees(studentId: Option<Id>, classId: Option<Id>,
                                       payments: Option<seq<Payment>>, structures: Option<seq<FeeStructure>>)
    requires StudentFeeStatsAsWritten(studentId, payments, structures).Computed?
    ensures StudentFeeStatsAsWritten(studentId, payments, structures).stats
            == StudentFeeStats(studentId, classId, payments, structures)
  {
    if studentId.Some? && payments.Some? && structures.Some? {
      ApplicableWithoutClassItems(structures.value, None, classId);
    }
  }

  /** A class-specific fee of 5000 makes the code as written fail, where the
      corrected statistics charge it to a student of that class. */
  lemma StudentFeeStatsAsWrittenFails(studentId: Id)
    ensures var structures := [FeeStructure(Some(3), Some([FeeItem(Some(5000.0))]))];
            StudentFeeStatsAsWritten(Some(studentId), Some([]), Some(structures)) == ReferenceError &&
            StudentFeeStats(Some(studentId), Some(3), Some([]), Some(structures)).totalExpected == 5000.0
  {
    var structures := [FeeStructure(Some(3), Some([FeeItem(Some(5000.0))]))];
    assert structures[0].classId.Some? && ItemsOf(structures[0]) != [];
    assert ApplicableItems(structures, Some(3)) == [FeeItem(Some(5000.0))];
    assert [FeeItem(Some(5000.0))][..0] == [];
  }

  // ---------------------------------------------------------------------
  // Summary cards

  datatype Expense = Expense(amount: Option<real>)
  datatype SalaryPayment = SalaryPayment(amount: Option<real>)

  function ExpenseAmount(e: Expense): real { OrZero(e.amount) }
  function SalaryAmount(s: SalaryPayment): real { OrZero(s.amount) }

  datatype Summary = Summary(totalFeeIncome: real, totalExpenses: real, totalSalaries: real)

  function FinancialSummary(payments: seq<Payment>, expenses: seq<Expense>, salaries: seq<SalaryPayment>): Summary {
    Summary(Sum(payments, PaymentAmount), Sum(expenses, ExpenseAmount), Sum(salaries, SalaryAmount))
  }

  function NetProfit(s: Summary): real {
    s.totalFeeIncome - s.totalExpenses - s.totalSalaries
  }

  /** Net profit moves by exactly the amount of each new record: up for a fee
      payment, down for an expense or a salary payment. */
  lemma NetProfitMoves(payments: seq<Payment>, expenses: seq<Expense>, salaries: seq<SalaryPayment>,
                       p: Payment, e: Expense, s: SalaryPayment)
    ensures var base := NetProfit(FinancialSummary(payments, expenses, salaries));
      && NetProfit(FinancialSummary(payments + [p], expenses, salaries)) == base + PaymentAmount(p)
      && NetProfit(FinancialSummary(payments, expenses + [e], salaries)) == base - ExpenseAmount(e)
      && NetProfit(FinancialSummary(payments, expenses, salaries + [s])) == base - SalaryAmount(s)
  {
    assert (payments + [p])[..|payments + [p]| - 1] == payments;
    assert (expenses + [e])[..|expenses + [e]| - 1] == expenses;
    assert (salaries + [s])[..|salaries + [s]| - 1] == salaries;
  }

  /** `reduce` sums split along any test: what passes plus what fails. */
  lemma {:induction false} SumPartition<T>(xs: seq<T>, p: T -> bool, q: T -> bool, f: T -> real)
    requires forall x :: q(x) == !p(x)
    ensures Sum(xs, f) == Sum(Filter(xs, p), f) + Sum(Filter(xs, q), f)
  {
    if xs != [] {
      SumPartition(xs[1..], p, q, f);
      assert xs == [xs[0]] + xs[1..];
      SumConcat([xs[0]], xs[1..], f);
      assert Sum([xs[0]], f) == f(xs[0]) by {
        assert [xs[0]][..0] == [];
      }
      var hp := if p(xs[0]) then [xs[0]] else [];
      var hq := if q(xs[0]) then [xs[0]] else [];
      SumConcat(hp, Filter(xs[1..], p), f);
      SumConcat(hq, Filter(xs[1..], q), f);
      assert Sum([], f) == 0.0;
    }
  }

  /** What the ledger table shows as paid: one row per listed student, each
      row's `totalPaid` being that student's payments. */
  function LedgerPaid(payments: seq<Payment>, ids: seq<Id>): real {
    if ids == [] then 0.0 else PaidBy(payments, ids[0]) + LedgerPaid(payments, ids[1..])
  }

  /** Payments of students the ledger does not list. */
  function Unlisted(ids: seq<Id>): Payment -> bool {
    (p: Payment) => p.studentId !in ids
  }

  function NotByStudent(studentId: Id): Payment -> bool {
    (p: Payment) => p.studentId != studentId
  }

  lemma {:induction false} LedgerSplit(payments: seq<Payment>, ids: seq<Id>)
    requires forall i, j :: 0 <= i < j < |ids| ==> ids[i] != ids[j]
    ensures Sum(payments, PaymentAmount) == LedgerPaid(payments, ids) + Sum(Filter(payments, Unlisted(ids)), PaymentAmount)
  {
    if ids == [] {
      FilterAll(payments, Unlisted(ids));
    } else {
      var id, rest := ids[0], ids[1..];
      LedgerSplit(payments, rest);
      var u := Filter(payments, Unlisted(rest));
      SumPartition(u, ByStudent(id), NotByStudent(id), PaymentAmount);
      FilterFilter(payments, Unlisted(rest), ByStudent(id), ByStudent(id));
      assert forall x: Id :: x in ids <==> x == id || x in rest by {
        assert ids == [id] + rest;
      }
      FilterFilter(payments, Unlisted(rest), NotByStudent(id), Unlisted(ids));
    }
  }

  /** The fee income card counts every payment of the school: what the
      ledger rows of its listed students show as paid, plus the payments of
      students the ledger does not list; with payments of no negative
      amount it is never negative. */
  lemma IncomeIsAllPayments(payments: seq<Payment>, ids: seq<Id>)
    requires forall i, j :: 0 <= i < j < |ids| ==> ids[i] != ids[j]
    ensures FinancialSummary(payments, [], []).totalFeeIncome
            == LedgerPaid(payments, ids) + Sum(Filter(payments, Unlisted(ids)), PaymentAmount)
    ensures (forall i :: 0 <= i < |payments| ==> payments[i].amount.None? || payments[i].amount.value >= 0.0)
            ==> FinancialSummary(payments, [], []).totalFeeIncome >= 0.0
  {
    LedgerSplit(payments, ids);
    if forall i :: 0 <= i < |payments| ==> payments[i].amount.None? || payments[i].amount.value >= 0.0 {
      assert forall q :: q in payments ==> PaymentAmount(q) >= 0.0;
      SumNonNegative(payments, PaymentAmount);
    }
  }

  // ---------------------------------------------------------------------
  // Payroll table

  datatype PayrollRecord = PayrollRecord(
    basicSalary: Option<real>,
    houseAllowance: Option<real>, medicalAllowance: Option<real>,
    transportAllowance: Option<real>, otherAllowance: Option<real>,
    nhifDeduction: Option<real>, nssfDeduction: Option<real>,
    payeDeduction: Option<real>, otherDeductions: Option<real>,
    netSalary: Option<real>)

  /** One row of the payroll table: the net salary column shows the stored
      value; nothing recomputes it. */
  datatype PayrollRow = PayrollRow(basicSalary: Option<real>, allowances: real, deductions: real, netSalary: Option<real>)

  function Allowances(r: PayrollRecord): real {
    OrZero(r.houseAllowance) + OrZero(r.medicalAllowance) + OrZero(r.transportAllowance) + OrZero(r.otherAllowance)
  }

  function Deductions(r: PayrollRecord): real {
    OrZero(r.nhifDeduction) + OrZero(r.nssfDeduction) + OrZero(r.payeDeduction) + OrZero(r.otherDeductions)
  }

  function PayrollRowOf(r: PayrollRecord): PayrollRow {
    PayrollRow(r.basicSalary, Allowances(r), Deductions(r), r.netSalary)
  }

  /** The row's totals are the four allowances and the four deductions with
      missing values as 0, and its net salary is the stored one, whether or
      not it equals basic + allowances - deductions. */
  lemma PayrollRowSpec(r: PayrollRecord)
    ensures PayrollRowOf(r).netSalary == r.netSalary
    ensures PayrollRowOf(r).allowances
            == OrZero(r.houseAllowance) + OrZero(r.medicalAllowance) + OrZero(r.transportAllowance) + OrZero(r.otherAllowance)
    ensures PayrollRowOf(r).deductions
            == OrZero(r.nhifDeduction) + OrZero(r.nssfDeduction) + OrZero(r.payeDeduction) + OrZero(r.otherDeductions)
    ensures (forall x :: x in [r.houseAllowance, r.medicalAllowance, r.transportAllowance, r.otherAllowance]
               ==> x.None? || x.value >= 0.0) ==> PayrollRowOf(r).allowances >= 0.0
    ensures r.houseAllowance.None? && r.medicalAllowance.None? && r.transportAllowance.None? && r.otherAllowance.None?
            ==> PayrollRowOf(r).allowances == 0.0
    ensures r.nhifDeduction.None? && r.nssfDeduction.None? && r.payeDeduction.None? && r.otherDeductions.None?
            ==> PayrollRowOf(r).deductions == 0.0
  {
    assert r.houseAllowance in [r.houseAllowance, r.medicalAllowance, r.transportAllowance, r.otherAllowance];
    assert r.medicalAllowance in [r.houseAllowance, r.medicalAllowance, r.transportAllowance, r.otherAllowance];
    assert r.transportAllowance in [r.houseAllowance, r.medicalAllowance, r.transportAllowance, r.otherAllowance];
    assert r.otherAllowance in [r.houseAllowance, r.medicalAllowance, r.transportAllowance, r.otherAllowance];
  }

  /** basic 30000, house 5000, medical 2000, NHIF 500, NSSF 200, PAYE 3000:
      7000 of allowances, 3700 of deductions, and a stored net of 0 shown as 0. */
  lemma PayrollExample()
    ensures var r := PayrollRecord(Some(30000.0), Some(5000.0), Some(2000.0), None, None,
                                   Some(500.0), Some(200.0), Some(3000.0), None, Some(0.0));
            PayrollRowOf(r) == PayrollRow(Some(30000.0), 7000.0, 3700.0, Some(0.0))
  {
  }

  // ---------------------------------------------------------------------
  // Submission guards: each handler shows "Please fill all required fields"
  // (or "Please select report period") and posts nothing unless the listed
  // form fields are non-empty strings.

  datatype FeePaymentForm = FeePaymentForm(
    studentId: string, feeItemId: string, termId: string, amount: string,
    paymentDate: string, paymentMethod: string, transactionCode: string)

  datatype PaymentRequest = PaymentRequest(form: FeePaymentForm, schoolId: string, receivedBy: string, status: string)
  datatype ReceiptRequest = ReceiptRequest(
    schoolId: string, studentId: string, amount: string, paymentDate: string,
    paymentMethod: string, receivedBy: string, transactionReference: string, notes: string)

  /** The two independent requests `handleFeePayment` sends, in order, or the
      error toast. */
  datatype FeePaymentOutcome = Blocked(message: string) | Posts(payment: PaymentRequest, receipt: ReceiptRequest)

  function HandleFeePayment(f: FeePaymentForm, schoolId: string, userId: string): FeePaymentOutcome {
    if f.studentId == "" || f.amount == "" || f.paymentDate == "" then Blocked("Please fill all required fields")
    else Posts(
      PaymentRequest(f, schoolId, userId, "completed"),
      ReceiptRequest(schoolId, f.studentId, f.amount, f.paymentDate, f.paymentMethod, userId, f.transactionCode,
                     if f.feeItemId != "" then "Payment for specific fee item" else "Payment for general fees"))
  }

  /** A payment is blocked exactly when the student, the amount or the date is
      empty; otherwise the receipt repeats the payment's student, amount, date
      and method. The amount is a string and its sign is never checked. */
  lemma HandleFeePaymentSpec(f: FeePaymentForm, schoolId: string, userId: string)
    ensures HandleFeePayment(f, schoolId, userId).Blocked? <==> f.studentId == "" || f.amount == "" || f.paymentDate == ""
    ensures var r := HandleFeePayment(f, schoolId, userId);
            r.Posts? ==> r.payment.status == "completed" && r.receipt.studentId == r.payment.form.studentId
                         && r.receipt.amount == r.payment.form.amount && r.receipt.paymentDate == r.payment.form.paymentDate
                         && r.receipt.paymentMethod == r.payment.form.paymentMethod
  {
  }

  lemma NegativeAmountAccepted()
    ensures HandleFeePayment(FeePaymentForm("12", "", "", "-500", "2024-05-01", "MPesa", ""), "1", "9").Posts?
  {
  }

  datatype ExpenseForm = ExpenseForm(categoryId: string, amount: string, expenseDate: string, description: string,
                                     paymentMethod: string, referenceNumber: string)
  datatype PayrollForm = PayrollForm(staffId: string, basicSalary: string, allowancesAndDeductions: seq<string>,
                                     bankName: string, bankAccount: string, paymentMethod: string)
  datatype BudgetForm = BudgetForm(academicYearId: string, termId: string, name: string, totalAmount: string, description: string)
  datatype ReportPeriod = ReportPeriod(start: string, end: string)

  predicate ExpenseAccepted(f: ExpenseForm) { f.categoryId != "" && f.amount != "" && f.expenseDate != "" }
  predicate PayrollAccepted(f: PayrollForm) { f.staffId != "" && f.basicSalary != "" }
  predicate BudgetAccepted(f: BudgetForm) { f.academicYearId != "" && f.name != "" && f.totalAmount != "" }
  predicate ReportAccepted(p: ReportPeriod) { p.start != "" && p.end != "" }

  /** The other guards look only at their required fields: changing any
      other field of a form never changes the decision. */
  lemma GuardsIgnoreOptionalFields(e: ExpenseForm, p: PayrollForm, b: BudgetForm,
                                   description: string, payMethod: string, reference: string,
                                   others: seq<string>, term: string)
    ensures ExpenseAccepted(e) == ExpenseAccepted(e.(description := description, paymentMethod := payMethod, referenceNumber := reference))
    ensures PayrollAccepted(p) == PayrollAccepted(p.(allowancesAndDeductions := others, bankName := reference, bankAccount := reference))
    ensures BudgetAccepted(b) == BudgetAccepted(b.(termId := term, description := description))
  {
  }
}
