/** The student list screen: the fee-status badge of each row, the search
    box, and the two handlers that change the list held in the component's
    state (delete after a successful request, add a locally built record). */
module StudentList {
  import opened Js
  import opened Seqs

  /** An amount as the JSON gives it: a number, `null`, or absent. In the
      `reduce` sum `null` adds 0 while an absent amount makes the sum NaN. */
  datatype JsonNumber = Number(value: real) | Null | Undefined

  /** One entry of a student's `fee_items`. */
  datatype StudentFeeItem = StudentFeeItem(amountExpected: JsonNumber, amountPaid: JsonNumber)

  datatype Student = Student(
    userId: nat, admissionNumber: string, firstName: string, lastName: string,
    email: string, classId: string, className: string,
    parentName: Option<string>, parentEmail: Option<string>, parentPhone: Option<string>,
    isActive: bool, feeItems: Option<seq<StudentFeeItem>>)

  /** What one item adds to `sum + x`: its number, or 0 for `null`. */
  function AddedBy(f: StudentFeeItem -> JsonNumber): StudentFeeItem -> real {
    (it: StudentFeeItem) => if f(it).Number? then f(it).value else 0.0
  }

  /** No item has the amount absent. */
  predicate Defined(items: seq<StudentFeeItem>, f: StudentFeeItem -> JsonNumber) {
    forall i :: 0 <= i < |items| ==> !f(items[i]).Undefined?
  }

  /** `items?.reduce((sum, item) => sum + f(item), 0) || 0`: 0 without
      items, 0 when some amount is absent (NaN is falsy), otherwise the sum
      with `null` amounts adding nothing. */
  function ItemTotal(items: Option<seq<StudentFeeItem>>, f: StudentFeeItem -> JsonNumber): real {
    if items.None? then 0.0
    else if !Defined(items.value, f) then 0.0
    else Sum(items.value, AddedBy(f))
  }

  function Expected(it: StudentFeeItem): JsonNumber { it.amountExpected }
  function Paid(it: StudentFeeItem): JsonNumber { it.amountPaid }

  /** The badge: "Paid", or "Ksh <due> Due" in yellow when something was
      paid, or in red when nothing was. */
  datatype FeeStatus = FullyPaid | PartlyPaid(due: real) | Unpaid(due: real)

  function FeeStatusOf(s: Student): FeeStatus {
    var expected := ItemTotal(s.feeItems, Expected);
    var paid := ItemTotal(s.feeItems, Paid);
    if paid >= expected then FullyPaid
    else if paid > 0.0 then PartlyPaid(expected - paid)
    else Unpaid(expected)
  }

  function BadgeClass(f: FeeStatus): string {
    match f
    case FullyPaid => "bg-green-100 text-green-800"
    case PartlyPaid(_) => "bg-yellow-100 text-yellow-800"
    case Unpaid(_) => "bg-red-100 text-red-800"
  }

  /** The badge over every student: "Paid" exactly when the paid total
      covers the expected one; a due amount of expected - paid, strictly
      positive, exactly when something but not all was paid; otherwise the
      whole expected total is due. */
  lemma FeeStatusClassification(s: Student)
    ensures var e := ItemTotal(s.feeItems, Expected);
            var p := ItemTotal(s.feeItems, Paid);
      && (FeeStatusOf(s) == FullyPaid <==> p >= e)
      && (FeeStatusOf(s).PartlyPaid? <==> 0.0 < p < e)
      && (FeeStatusOf(s).PartlyPaid? ==> FeeStatusOf(s).due == e - p && e - p > 0.0)
      && (FeeStatusOf(s).Unpaid? <==> p <= 0.0 && p < e)
      && (FeeStatusOf(s).Unpaid? ==> FeeStatusOf(s).due == e)
  {
  }

  /** With every amount given, the total over two lists of items is the sum
      of their totals. */
  lemma ItemTotalConcat(a: seq<StudentFeeItem>, b: seq<StudentFeeItem>, f: StudentFeeItem -> JsonNumber)
    requires Defined(a, f) && Defined(b, f)
    ensures ItemTotal(Some(a + b), f) == ItemTotal(Some(a), f) + ItemTotal(Some(b), f)
  {
    assert Defined(a + b, f) by {
      forall i | 0 <= i < |a + b| ensures !f((a + b)[i]).Undefined? {
        if i >= |a| {
          assert (a + b)[i] == b[i - |a|];
        }
      }
    }
    SumConcat(a, b, AddedBy(f));
  }

  /** A sum is what comes before index `k`, the element at `k`, and what
      comes after it. */
  lemma SumAround(xs: seq<StudentFeeItem>, k: nat, g: StudentFeeItem -> real)
    requires k < |xs|
    ensures Sum(xs, g) == Sum(xs[..k], g) + g(xs[k]) + Sum(xs[k + 1..], g)
  {
    assert xs == xs[..k] + [xs[k]] + xs[k + 1..];
    SumConcat(xs[..k] + [xs[k]], xs[k + 1..], g);
    SumConcat(xs[..k], [xs[k]], g);
    assert [xs[k]][..0] == [];
  }

  /** Recording a larger paid amount on one item, with every amount given,
      raises the paid total by the difference and leaves the expected total
      as it was, so a student shown as paid stays paid. */
  lemma PayingMoreKeepsPaid(s: Student, k: nat, b: real)
    requires s.feeItems.Some? && k < |s.feeItems.value|
    requires Defined(s.feeItems.value, Expected) && Defined(s.feeItems.value, Paid)
    requires b >= AddedBy(Paid)(s.feeItems.value[k])
    ensures var items := s.feeItems.value;
            var raised := s.(feeItems := Some(items[k := items[k].(amountPaid := Number(b))]));
      && ItemTotal(raised.feeItems, Paid) == ItemTotal(s.feeItems, Paid) + (b - AddedBy(Paid)(items[k]))
      && ItemTotal(raised.feeItems, Expected) == ItemTotal(s.feeItems, Expected)
      && (FeeStatusOf(s) == FullyPaid ==> FeeStatusOf(raised) == FullyPaid)
  {
    var items := s.feeItems.value;
    var items' := items[k := items[k].(amountPaid := Number(b))];
    assert items'[..k] == items[..k] && items'[k + 1..] == items[k + 1..];
    assert Defined(items', Paid) && Defined(items', Expected) by {
      forall i | 0 <= i < |items'| ensures !Paid(items'[i]).Undefined? && !Expected(items'[i]).Undefined? {
        if i != k {
          assert items'[i] == items[i];
        }
      }
    }
    SumAround(items, k, AddedBy(Paid));
    SumAround(items', k, AddedBy(Paid));
    SumAround(items, k, AddedBy(Expected));
    SumAround(items', k, AddedBy(Expected));
  }

  /** A student without fee items owes nothing and shows as paid. */
  lemma NoFeeItemsIsPaid(s: Student)
    requires s.feeItems.None? || s.feeItems == Some([])
    ensures FeeStatusOf(s) == FullyPaid && BadgeClass(FeeStatusOf(s)) == "bg-green-100 text-green-800"
  {
  }

  /** A single item with an absent paid amount: the paid total collapses to
      0, so the whole expected amount is shown as due. */
  lemma MissingAmountCountsAsZero()
    ensures var it := StudentFeeItem(Number(8000.0), Undefined);
            var s := Student(1, "A1", "Amina", "Otieno", "", "", "", None, None, None, true, Some([it]));
            FeeStatusOf(s) == Unpaid(8000.0)
  {
    var it := StudentFeeItem(Number(8000.0), Undefined);
    assert Paid([it][0]).Undefined?;
    assert [it][..0] == [];
  }

  /** A `null` paid amount only drops that item: with 2000 paid on a second
      item, 8000 of the 10000 expected is shown as due. */
  lemma NullAmountAddsNothing()
    ensures var a := StudentFeeItem(Number(8000.0), Null);
            var b := StudentFeeItem(Number(2000.0), Number(2000.0));
            var s := Student(1, "A1", "Amina", "Otieno", "", "", "", None, None, None, true, Some([a, b]));
            FeeStatusOf(s) == PartlyPaid(8000.0)
  {
    var a := StudentFeeItem(Number(8000.0), Null);
    var b := StudentFeeItem(Number(2000.0), Number(2000.0));
    assert [a, b][..1] == [a] && [a][..0] == [];
    assert Defined([a, b], Paid) && Defined([a, b], Expected);
    assert Sum([a, b], AddedBy(Paid)) == Sum([a], AddedBy(Paid)) + 2000.0;
    assert Sum([a], AddedBy(Paid)) == 0.0;
    assert Sum([a, b], AddedBy(Expected)) == Sum([a], AddedBy(Expected)) + 2000.0;
    assert Sum([a], AddedBy(Expected)) == 8000.0;
  }

  // ---------------------------------------------------------------------
  // Search

  /** Case-insensitive substring test on admission number, first, last and
      parent name; case-sensitive test of the raw term on the parent phone.
      Missing or empty parent fields never match. */
  predicate MatchesSearch(s: Student, term: string) {
    var q := ToLower(term);
    || Includes(ToLower(s.admissionNumber), q)
    || Includes(ToLower(s.firstName), q)
    || Includes(ToLower(s.lastName), q)
    || (Filled(s.parentName) && Includes(ToLower(s.parentName.value), q))
    || (Filled(s.parentPhone) && Includes(s.parentPhone.value, term))
  }

  function FilteredStudents(students: seq<Student>, term: string): seq<Student> {
    Filter(students, (s: Student) => MatchesSearch(s, term))
  }

  /** The filtered list keeps exactly the matching students, in their
      original order, and an empty search keeps everyone. */
  lemma FilteredStudentsSpec(students: seq<Student>, term: string)
    ensures IsSubsequence(FilteredStudents(students, term), students)
    ensures forall s :: s in FilteredStudents(students, term) <==> s in students && MatchesSearch(s, term)
    ensures term == "" ==> FilteredStudents(students, term) == students
  {
    FilterIsSubsequence(students, (s: Student) => MatchesSearch(s, term));
    FilterMembers(students, (s: Student) => MatchesSearch(s, term));
    if term == "" {
      forall s | s in students ensures MatchesSearch(s, term) {
        IncludesEmpty(ToLower(s.admissionNumber));
      }
      FilterAll(students, (s: Student) => MatchesSearch(s, term));
    }
  }

  /** Upper and lower case in the search term only matter through the
      parent phone: for a student without one, lowering the term changes
      nothing. */
  lemma SearchIgnoresCase(s: Student, term: string)
    requires !Filled(s.parentPhone)
    ensures MatchesSearch(s, term) == MatchesSearch(s, ToLower(term))
  {
    ToLowerIdempotent(term);
  }

  // ---------------------------------------------------------------------
  // The list in the component's state

  datatype NewStudentForm = NewStudentForm(
    firstName: string, lastName: string, admissionNumber: string, email: string,
    classId: string, parentName: string, parentEmail: string, parentPhone: string)

  const EmptyForm := NewStudentForm("", "", "", "", "", "", "", "")

  /** The record `handleAddStudent` builds from the form: the given id, the
      form's fields, class 'Form 1', active and with no fee items. */
  function MockStudent(form: NewStudentForm, id: nat): (s: Student)
    ensures s.isActive && s.feeItems == Some([]) && s.userId == id && s.className == "Form 1"
    ensures s.firstName == form.firstName && s.lastName == form.lastName
            && s.admissionNumber == form.admissionNumber && s.parentPhone == Some(form.parentPhone)
  {
    Student(id, form.admissionNumber, form.firstName, form.lastName, form.email, form.classId, "Form 1",
            Some(form.parentName), Some(form.parentEmail), Some(form.parentPhone), true, Some([]))
  }

  function WithoutUser(students: seq<Student>, userId: nat): seq<Student> {
    Filter(students, (s: Student) => s.userId != userId)
  }

  /** Deleting a user id removes every entry with that id and nothing else,
      keeping the survivors in order. */
  lemma WithoutUserSpec(students: seq<Student>, userId: nat)
    ensures IsSubsequence(WithoutUser(students, userId), students)
    ensures forall s :: s in WithoutUser(students, userId) <==> s in students && s.userId != userId
    ensures (forall s :: s in students ==> s.userId != userId) ==> WithoutUser(students, userId) == students
    ensures forall s: Student :: s.userId != userId ==> multiset(WithoutUser(students, userId))[s] == multiset(students)[s]
  {
    FilterIsSubsequence(students, (s: Student) => s.userId != userId);
    FilterMembers(students, (s: Student) => s.userId != userId);
    FilterMultiset(students, (s: Student) => s.userId != userId);
    if forall s :: s in students ==> s.userId != userId {
      FilterAll(students, (s: Student) => s.userId != userId);
    }
  }

  class StudentRoster {
    var students: seq<Student>
    var selected: Option<Student>
    var newStudent: NewStudentForm

    constructor(initial: seq<Student>)
      ensures students == initial && selected == None && newStudent == EmptyForm
    {
      students := initial;
      selected := None;
      newStudent := EmptyForm;
    }

    /** `openViewModal`, `openEditModal`, `openDeleteModal`: select the
        student the row's button belongs to; the modal flags are not part of
        this model. */
    method Select(s: Student)
      modifies this
      ensures selected == Some(s)
      ensures students == old(students) && newStudent == old(newStudent)
    {
      selected := Some(s);
    }

    /** Selecting a student and confirming the delete removes exactly that
        user's entries when the server answers ok. */
    method SelectThenDelete(s: Student, ok: bool)
      modifies this
      ensures ok ==> students == WithoutUser(old(students), s.userId)
      ensures !ok ==> students == old(students)
      ensures selected == None && newStudent == old(newStudent)
    {
      Select(s);
      Delete(ok);
    }

    /** `handleDelete`: nothing without a selection; otherwise the list loses
        the selected user's entries when the server answered ok, and the
        selection is cleared either way. */
    method Delete(ok: bool)
      modifies this
      ensures old(selected).None? ==> students == old(students) && selected == None
      ensures old(selected).Some? ==> selected == None
      ensures old(selected).Some? && ok ==> students == WithoutUser(old(students), old(selected).value.userId)
      ensures old(selected).Some? && !ok ==> students == old(students)
      ensures newStudent == old(newStudent)
    {
      if selected.None? {
        return;
      }
      if ok {
        students := WithoutUser(students, selected.value.userId);
      }
      selected := None;
    }

    /** `handleAddStudent`: appends the record built from the form with the
        given id, then clears the form. */
    method Add(id: nat)
      modifies this
      ensures students == old(students) + [MockStudent(old(newStudent), id)]
      ensures |students| == |old(students)| + 1 && students[..|old(students)|] == old(students)
      ensures newStudent == EmptyForm && selected == old(selected)
    {
      students := students + [MockStudent(newStudent, id)];
      newStudent := EmptyForm;
    }
  }
}
