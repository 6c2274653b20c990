/** The analytics dashboard of the web client: monthly exam performance,
    the attendance pie, monthly fee collection, per-class averages, the
    school summary (overall score, top class) and the two predictive
    counts (students at risk, overloaded teachers). */
module Analytics {
  import opened Js
  import opened Seqs
  import opened Grouping

  /** An exam result joined with its student's class. `month` is the short
      month name the browser derives from `exam_date`. */
  datatype ExamResult = ExamResult(month: string, classId: Option<Id>, className: Option<string>, marks: Option<real>)
  /** A fee payment; `month` is derived from `payment_date` the same way. */
  datatype FeePayment = FeePayment(month: string, amount: Option<real>)
  datatype AttendanceRecord = AttendanceRecord(studentId: Id, morningStatus: string, afternoonStatus: string)
  datatype StudentRecord = StudentRecord(id: Id)
  datatype TeacherRecord = TeacherRecord(subjectsSpecialization: Option<string>)

  /** `Array.isArray(x) ? x : []`. */
  function AsList<T>(x: Option<seq<T>>): seq<T> {
    if x.Some? then x.value else []
  }

  /** `count ? Math.round(total / count) : 0`. */
  function Average(total: real, count: nat): int {
    if count > 0 then Round(total / count as real) else 0
  }

  lemma AverageBounds(total: real, count: nat)
    requires 0.0 <= total <= 100.0 * count as real
    ensures 0 <= Average(total, count) <= 100
  {
    if count > 0 {
      assert total / count as real <= 100.0;
      RoundBounds(total / count as real, 0, 100);
    }
  }

  /** A total of values in [0, 100] lies between 0 and 100 times the count. */
  lemma {:induction false} KeyTotalBounds<T, K>(xs: seq<T>, key: T -> Option<K>, value: T -> real, k: K)
    requires forall x :: x in xs ==> 0.0 <= value(x) <= 100.0
    ensures 0.0 <= KeyTotal(xs, key, value, k) <= 100.0 * KeyCount(xs, key, k) as real
    decreases |xs|
  {
    if xs != [] {
      assert forall x :: x in xs[..|xs| - 1] ==> x in xs;
      KeyTotalBounds(xs[..|xs| - 1], key, value, k);
    }
  }

  // ---------------------------------------------------------------------
  // Student performance by month

  function ResultMonth(r: ExamResult): Option<string> { Some(r.month) }
  function ResultMarks(r: ExamResult): real { OrZero(r.marks) }
  function NoLabel(r: ExamResult): string { "" }

  datatype MonthScore = MonthScore(name: string, performance: int)

  function MonthScoreOf(rs: seq<ExamResult>, m: string): MonthScore {
    MonthScore(m, Average(KeyTotal(rs, ResultMonth, ResultMarks, m), KeyCount(rs, ResultMonth, m)))
  }

  /** One entry per month in order of first appearance, holding the rounded
      mean mark of that month's results. */
  function MonthlyPerformance(rs: seq<ExamResult>): seq<MonthScore> {
    Map(KeysInOrder(rs, ResultMonth), (m: string) => MonthScoreOf(rs, m))
  }

  /** `getStudentPerformanceData`. */
  method StudentPerformance(examResults: Option<seq<ExamResult>>) returns (r: seq<MonthScore>)
    ensures r == MonthlyPerformance(AsList(examResults))
  {
    var rs := AsList(examResults);
    if |rs| == 0 {
      return [];
    }
    var order, buckets := GroupBy(rs, ResultMonth, NoLabel, ResultMarks);
    r := Map(order, (m: string) => if m in buckets then MonthScore(m, Average(buckets[m].total, buckets[m].count)) else MonthScore(m, 0));
    forall i | 0 <= i < |r| ensures r[i] == MonthScoreOf(rs, order[i]) {
    }
  }

  /** Each month of the results appears once, and with marks in [0, 100]
      every month's performance is in [0, 100]. */
  lemma MonthlyPerformanceSpec(rs: seq<ExamResult>)
    ensures NoDuplicates(KeysInOrder(rs, ResultMonth))
    ensures forall m :: m in KeysInOrder(rs, ResultMonth) <==> exists i :: 0 <= i < |rs| && rs[i].month == m
    ensures (forall r :: r in rs ==> r.marks.None? || 0.0 <= r.marks.value <= 100.0) ==>
            forall e :: e in MonthlyPerformance(rs) ==> 0 <= e.performance <= 100
  {
    KeysInOrderSpec(rs, ResultMonth);
    forall m ensures HasKey(rs, ResultMonth, m) <==> exists i :: 0 <= i < |rs| && rs[i].month == m {
      if exists i :: 0 <= i < |rs| && rs[i].month == m {
        var i :| 0 <= i < |rs| && rs[i].month == m;
        assert ResultMonth(rs[i]) == Some(m);
      }
    }
    if forall r :: r in rs ==> r.marks.None? || 0.0 <= r.marks.value <= 100.0 {
      forall e | e in MonthlyPerformance(rs) ensures 0 <= e.performance <= 100 {
        var i :| 0 <= i < |MonthlyPerformance(rs)| && MonthlyPerformance(rs)[i] == e;
        var m := KeysInOrder(rs, ResultMonth)[i];
        KeyTotalBounds(rs, ResultMonth, ResultMarks, m);
        AverageBounds(KeyTotal(rs, ResultMonth, ResultMarks, m), KeyCount(rs, ResultMonth, m));
      }
    }
  }

  // ---------------------------------------------------------------------
  // Attendance pie

  datatype PieSlice = PieSlice(name: string, value: int)

  predicate FullyPresent(a: AttendanceRecord) {
    a.morningStatus == "Present" && a.afternoonStatus == "Present"
  }

  predicate NotFullyPresent(a: AttendanceRecord) {
    a.morningStatus != "Present" || a.afternoonStatus != "Present"
  }

  function Percent(part: nat, whole: nat): int
    requires whole > 0
  {
    Round(part as real / whole as real * 100.0)
  }

  /** `getAttendanceRateData`. */
  function AttendancePie(attendanceData: Option<seq<AttendanceRecord>>): seq<PieSlice> {
    var a := AsList(attendanceData);
    if |a| == 0 then [PieSlice("No Data", 100)]
    else
      var present := Count(a, FullyPresent);
      [PieSlice("Present", Percent(present, |a|)), PieSlice("Absent", Percent(|a| - present, |a|))]
  }

  lemma QuotientOf(y: real, n: real, q: real)
    requires n > 0.0 && q * n == y
    ensures y / n == q
  {
    var d := y / n - q;
    assert d * n == 0.0;
  }

  /** No records give the single "No Data" slice of 100. Otherwise the two
      slices are the rounded shares of fully present records and of records
      with a session not 'Present'; each lies in [0, 100], and because both
      are rounded up at one half they add up to 100 or, when the shares end
      in exactly .5, to 101. */
  lemma AttendancePieSpec(attendanceData: Option<seq<AttendanceRecord>>)
    ensures var a := AsList(attendanceData);
            var pie := AttendancePie(attendanceData);
      && (|a| == 0 ==> pie == [PieSlice("No Data", 100)])
      && (|a| > 0 ==>
            && |pie| == 2 && pie[0].name == "Present" && pie[1].name == "Absent"
            && pie[0].value == Percent(Count(a, FullyPresent), |a|)
            && pie[1].value == Percent(Count(a, NotFullyPresent), |a|)
            && 0 <= pie[0].value <= 100 && 0 <= pie[1].value <= 100
            && 100 <= pie[0].value + pie[1].value <= 101)
  {
    var a := AsList(attendanceData);
    if |a| > 0 {
      CountComplement(a, FullyPresent, NotFullyPresent);
      PercentComplement(Count(a, FullyPresent), |a|);
    }
  }

  /** The rounded shares of a part and of the rest each lie in [0, 100] and
      add up to 100 or 101. */
  lemma PercentComplement(part: nat, whole: nat)
    requires 0 < whole && part <= whole
    ensures 0 <= Percent(part, whole) <= 100 && 0 <= Percent(whole - part, whole) <= 100
    ensures 100 <= Percent(part, whole) + Percent(whole - part, whole) <= 101
  {
    var n := whole as real;
    var q := part as real / n;
    var x := q * 100.0;
    assert (whole - part) as real / n * 100.0 == 100.0 - x by {
      assert q * n == part as real;
      QuotientOf((whole - part) as real, n, 1.0 - q);
    }
    assert 0.0 <= q <= 1.0 by {
      assert part as real <= n;
    }
    RoundBounds(x, 0, 100);
    RoundBounds(100.0 - x, 0, 100);
  }

  /** One fully present record out of eight: 12.5 % and 87.5 % round to 13
      and 88, so the pie adds up to 101. */
  lemma AttendancePieExample()
    ensures var here := AttendanceRecord(1, "Present", "Present");
            var away := AttendanceRecord(1, "Present", "Absent");
            AttendancePie(Some([here, away, away, away, away, away, away, away]))
            == [PieSlice("Present", 13), PieSlice("Absent", 88)]
  {
    var here := AttendanceRecord(1, "Present", "Present");
    var away := AttendanceRecord(1, "Present", "Absent");
    var a := [here, away, away, away, away, away, away, away];
    assert Count(a, FullyPresent) == 1 by {
      assert Count([here], FullyPresent) == 1 by {
        assert [here][..0] == [];
      }
      CountSnoc([here], away, FullyPresent);
      assert [here] + [away] == [here, away];
      CountSnoc([here, away], away, FullyPresent);
      assert [here, away] + [away] == [here, away, away];
      CountSnoc([here, away, away], away, FullyPresent);
      assert [here, away, away] + [away] == [here, away, away, away];
      CountSnoc([here, away, away, away], away, FullyPresent);
      assert [here, away, away, away] + [away] == [here, away, away, away, away];
      CountSnoc([here, away, away, away, away], away, FullyPresent);
      assert [here, away, away, away, away] + [away] == [here, away, away, away, away, away];
      CountSnoc([here, away, away, away, away, away], away, FullyPresent);
      assert [here, away, away, away, away, away] + [away] == [here, away, away, away, away, away, away];
      CountSnoc([here, away, away, away, away, away, away], away, FullyPresent);
      assert [here, away, away, away, away, away, away] + [away] == a;
    }
    assert Round(1.0 / 8.0 * 100.0) == 13;
    assert Round(7.0 / 8.0 * 100.0) == 88;
  }

  lemma CountSnoc<T>(xs: seq<T>, x: T, p: T -> bool)
    ensures Count(xs + [x], p) == Count(xs, p) + (if p(x) then 1 else 0)
  {
    assert (xs + [x])[..|xs + [x]| - 1] == xs;
  }

  // ---------------------------------------------------------------------
  // Fee collection by month

  function PaymentMonth(p: FeePayment): Option<string> { Some(p.month) }
  function PaymentValue(p: FeePayment): real { OrZero(p.amount) }
  function NoPaymentLabel(p: FeePayment): string { "" }

  datatype MonthFees = MonthFees(name: string, fees: real)

  function FeesOf(e: MonthFees): real { e.fees }

  lemma {:induction false} SumOfMap<U, V>(ks: seq<U>, f: U -> V, g: V -> real, h: U -> real)
    requires forall k :: k in ks ==> h(k) == g(f(k))
    ensures Sum(Map(ks, f), g) == Sum(ks, h)
    decreases |ks|
  {
    if ks != [] {
      var p := ks[..|ks| - 1];
      assert Map(ks, f)[..|ks| - 1] == Map(p, f);
      assert forall k :: k in p ==> k in ks;
      SumOfMap(p, f, g, h);
    }
  }

  function MonthFeesOf(fs: seq<FeePayment>, m: string): MonthFees {
    MonthFees(m, KeyTotal(fs, PaymentMonth, PaymentValue, m))
  }

  /** One entry per month in order of first appearance, holding that
      month's total. */
  function MonthlyFees(fs: seq<FeePayment>): seq<MonthFees> {
    Map(KeysInOrder(fs, PaymentMonth), MonthFeesFor(fs))
  }

  function MonthFeesFor(fs: seq<FeePayment>): string -> MonthFees {
    (m: string) => MonthFeesOf(fs, m)
  }

  /** The monthly entries account for every payment: their fees add up to
      the sum of all amounts, and no month appears twice. */
  lemma MonthlyFeesTotal(fs: seq<FeePayment>)
    ensures Sum(MonthlyFees(fs), FeesOf) == Sum(fs, PaymentValue)
    ensures NoDuplicates(KeysInOrder(fs, PaymentMonth))
  {
    var ks := KeysInOrder(fs, PaymentMonth);
    SumOfMap(ks, MonthFeesFor(fs), FeesOf, KeyTotals(fs, PaymentMonth, PaymentValue));
    GroupTotalsSum(fs, PaymentMonth, PaymentValue);
    SumCongruent(fs, KeyedValue(PaymentMonth, PaymentValue), PaymentValue);
    KeysInOrderSpec(fs, PaymentMonth);
  }

  /** `getFeeCollectionData`. */
  method FeeCollection(feeData: Option<seq<FeePayment>>) returns (r: seq<MonthFees>)
    ensures r == MonthlyFees(AsList(feeData))
  {
    var fs := AsList(feeData);
    if |fs| == 0 {
      return [];
    }
    var order, buckets := GroupBy(fs, PaymentMonth, NoPaymentLabel, PaymentValue);
    r := Map(order, (m: string) => if m in buckets then MonthFees(m, buckets[m].total) else MonthFees(m, 0.0));
    forall i | 0 <= i < |r| ensures r[i] == MonthFeesFor(fs)(order[i]) {
    }
  }

  // ---------------------------------------------------------------------
  // Class performance

  function ResultClass(r: ExamResult): Option<nat> {
    if r.classId.Some? then Some(r.classId.value as nat) else None
  }

  /** `result.student?.class?.name || \`Class ${classId}\``. */
  function ResultClassName(r: ExamResult): string {
    if r.classId.Some? then OrElse(r.className, "Class " + NatToString(r.classId.value)) else ""
  }

  datatype ClassScore = ClassScore(className: string, averageScore: int)

  function ClassScoreOf(rs: seq<ExamResult>, c: nat): ClassScore {
    ClassScore(FirstLabel(rs, ResultClass, ResultClassName, c),
               Average(KeyTotal(rs, ResultClass, ResultMarks, c), KeyCount(rs, ResultClass, c)))
  }

  /** The class ids in the order `Object.values` lists them: ascending, since
      they are integer-like keys. */
  function ClassOrder(rs: seq<ExamResult>): seq<nat> {
    SortAscending(KeysInOrder(rs, ResultClass))
  }

  function ClassAverages(rs: seq<ExamResult>): seq<ClassScore> {
    Map(ClassOrder(rs), (c: nat) => ClassScoreOf(rs, c))
  }

  /** `getClassPerformanceData`; only the length of the student list is
      read. Nothing for no results or no students; otherwise one entry per
      class id, named after its first result, with the rounded mean mark. */
  method ClassPerformance(examResults: Option<seq<ExamResult>>, studentCount: nat) returns (r: seq<ClassScore>)
    ensures r == if AsList(examResults) == [] || studentCount == 0 then [] else ClassAverages(AsList(examResults))
  {
    var rs := AsList(examResults);
    if |rs| == 0 || studentCount == 0 {
      return [];
    }
    var order, buckets := GroupBy(rs, ResultClass, ResultClassName, ResultMarks);
    var ids := SortAscending(order);
    r := Map(ids, (c: nat) => if c in buckets then ClassScore(buckets[c].name, Average(buckets[c].total, buckets[c].count))
                              else ClassScore("", 0));
    SortAscendingSpec(order);
    forall i | 0 <= i < |ids| ensures ids[i] in buckets {
      assert ids[i] in multiset(ids);
    }
    forall i | 0 <= i < |r| ensures r[i] == ClassScoreOf(rs, ids[i]) {
    }
  }

  /** The entries come in ascending class id, one for each class id some
      result carries (results without a class are skipped), and with marks
      in [0, 100] every average is in [0, 100]. */
  lemma ClassPerformanceSpec(rs: seq<ExamResult>)
    ensures Ascending(ClassOrder(rs))
    ensures forall c :: c in ClassOrder(rs) <==> exists i :: 0 <= i < |rs| && ResultClass(rs[i]) == Some(c)
    ensures (forall r :: r in rs ==> r.marks.None? || 0.0 <= r.marks.value <= 100.0) ==>
            forall c :: 0 <= ClassScoreOf(rs, c).averageScore <= 100
  {
    SortAscendingSpec(KeysInOrder(rs, ResultClass));
    KeysInOrderSpec(rs, ResultClass);
    forall c ensures c in ClassOrder(rs) <==> c in KeysInOrder(rs, ResultClass) {
      assert c in ClassOrder(rs) <==> c in multiset(ClassOrder(rs));
    }
    if forall r :: r in rs ==> r.marks.None? || 0.0 <= r.marks.value <= 100.0 {
      forall c ensures 0 <= ClassScoreOf(rs, c).averageScore <= 100 {
        KeyTotalBounds(rs, ResultClass, ResultMarks, c);
        AverageBounds(KeyTotal(rs, ResultClass, ResultMarks, c), KeyCount(rs, ResultClass, c));
      }
    }
  }

  // ---------------------------------------------------------------------
  // School performance

  /** `classPerformance.reduce((max, cls) => cls.averageScore >
      (max?.averageScore || 0) ? cls : max, null)`. */
  function TopClass(cs: seq<ClassScore>): Option<ClassScore> {
    if cs == [] then None
    else
      var best := TopClass(cs[..|cs| - 1]);
      var c := cs[|cs| - 1];
      if c.averageScore > (if best.Some? then best.value.averageScore else 0) then Some(c) else best
  }

  /** `cs[i]` has a positive score no entry beats, and every entry before it
      scores strictly less. */
  predicate IsTopAt(cs: seq<ClassScore>, i: int) {
    && 0 <= i < |cs|
    && cs[i].averageScore > 0
    && (forall j :: 0 <= j < |cs| ==> cs[j].averageScore <= cs[i].averageScore)
    && (forall j :: 0 <= j < i ==> cs[j].averageScore < cs[i].averageScore)
  }

  /** The fold finds nothing exactly when no class scores above 0, and
      otherwise the first class with the highest score. */
  lemma {:induction false} TopClassSpec(cs: seq<ClassScore>)
    ensures TopClass(cs).None? <==> forall j :: 0 <= j < |cs| ==> cs[j].averageScore <= 0
    ensures TopClass(cs).Some? ==> exists i :: IsTopAt(cs, i) && TopClass(cs) == Some(cs[i])
    decreases |cs|
  {
    if cs != [] {
      var p := cs[..|cs| - 1];
      var c := cs[|cs| - 1];
      TopClassSpec(p);
      assert forall j :: 0 <= j < |p| ==> cs[j] == p[j];
      var best := TopClass(p);
      if best.None? {
        if c.averageScore > 0 {
          assert IsTopAt(cs, |cs| - 1);
        }
      } else {
        var i :| IsTopAt(p, i) && best == Some(p[i]);
        if c.averageScore > best.value.averageScore {
          assert IsTopAt(cs, |cs| - 1);
        } else {
          assert IsTopAt(cs, i);
        }
      }
    }
  }

  datatype SchoolPerformance = SchoolPerformance(overallScore: int, topClass: string, topClassScore: int)

  function ScoreOf(c: ClassScore): real { c.averageScore as real }

  /** `getSchoolPerformanceData` applied to the class performance list. */
  function SchoolPerformanceOf(cs: seq<ClassScore>): SchoolPerformance {
    var top := TopClass(cs);
    SchoolPerformance(
      if |cs| > 0 then Round(Sum(cs, ScoreOf) / |cs| as real) else 0,
      if top.Some? && top.value.className != "" then top.value.className else "N/A",
      if top.Some? then top.value.averageScore else 0)
  }

  lemma {:induction false} SumAtMost<T>(xs: seq<T>, f: T -> real, hi: real)
    requires forall x :: x in xs ==> f(x) <= hi
    ensures Sum(xs, f) <= hi * |xs| as real
    decreases |xs|
  {
    if xs != [] {
      assert forall x :: x in xs[..|xs| - 1] ==> x in xs;
      SumAtMost(xs[..|xs| - 1], f, hi);
    }
  }

  /** No class above 0 gives 'N/A' with score 0; otherwise the top score is
      the highest class average. With averages in [0, 100] the overall
      score, the rounded mean of the averages (0 for no classes), is in
      [0, 100]. */
  lemma SchoolPerformanceSpec(cs: seq<ClassScore>)
    ensures var s := SchoolPerformanceOf(cs);
      && ((forall j :: 0 <= j < |cs| ==> cs[j].averageScore <= 0) ==> s.topClass == "N/A" && s.topClassScore == 0)
      && (forall j :: 0 <= j < |cs| ==> cs[j].averageScore <= s.topClassScore)
      && (cs == [] ==> s.overallScore == 0)
      && ((forall c :: c in cs ==> 0 <= c.averageScore <= 100) ==> 0 <= s.overallScore <= 100)
  {
    TopClassSpec(cs);
    if TopClass(cs).Some? {
      var i :| IsTopAt(cs, i) && TopClass(cs) == Some(cs[i]);
    }
    if |cs| > 0 && forall c :: c in cs ==> 0 <= c.averageScore <= 100 {
      SumNonNegative(cs, ScoreOf);
      SumAtMost(cs, ScoreOf, 100.0);
      var n := |cs| as real;
      assert Sum(cs, ScoreOf) / n <= 100.0;
      RoundBounds(Sum(cs, ScoreOf) / n, 0, 100);
    }
  }

  /** Equal averages: the class listed first keeps the title. */
  lemma TopClassTie()
    ensures SchoolPerformanceOf([ClassScore("Form 1", 70), ClassScore("Form 2", 70)])
            == SchoolPerformance(70, "Form 1", 70)
  {
    var cs := [ClassScore("Form 1", 70), ClassScore("Form 2", 70)];
    assert cs[..1] == [ClassScore("Form 1", 70)];
    assert cs[..1][..0] == [];
    assert TopClass(cs[..1]) == Some(ClassScore("Form 1", 70));
    assert Sum(cs[..1], ScoreOf) == 70.0;
    assert Sum(cs, ScoreOf) == 140.0;
    assert Round(140.0 / 2.0) == 70;
  }

  // ---------------------------------------------------------------------
  // Predictive insights

  function AttendanceOf(attendance: seq<AttendanceRecord>, studentId: Id): seq<AttendanceRecord> {
    Filter(attendance, (a: AttendanceRecord) => a.studentId == studentId)
  }

  /** A student with attendance records of whom more than a fifth has a
      session not marked 'Present'. */
  predicate AtRisk(attendance: seq<AttendanceRecord>, studentId: Id) {
    var mine := AttendanceOf(attendance, studentId);
    |mine| > 0 && Count(mine, NotFullyPresent) as real / |mine| as real > 0.2
  }

  lemma DivThreshold(a: real, n: real, t: real)
    requires n > 0.0
    ensures a / n > t <==> a > t * n
  {
    var q := a / n;
    assert q * n == a;
    if q > t {
      assert (q - t) * n > 0.0;
    } else {
      assert (t - q) * n >= 0.0;
    }
  }

  /** The 0.2 threshold in whole numbers: five times the absences exceed the
      number of records; a student without records is never at risk. */
  lemma AtRiskIff(attendance: seq<AttendanceRecord>, studentId: Id)
    ensures var mine := AttendanceOf(attendance, studentId);
            AtRisk(attendance, studentId) <==> |mine| > 0 && 5 * Count(mine, NotFullyPresent) > |mine|
  {
    var mine := AttendanceOf(attendance, studentId);
    if |mine| > 0 {
      var a := Count(mine, NotFullyPresent) as real;
      var n := |mine| as real;
      DivThreshold(a, n, 0.2);
    }
  }

  /** `spec ? spec.split(',').length * 5 : 0`. */
  function TeacherLessons(t: TeacherRecord): nat {
    if Filled(t.subjectsSpecialization) then SplitCount(t.subjectsSpecialization.value, ',') * 5 else 0
  }

  predicate Overloaded(t: TeacherRecord) { TeacherLessons(t) > 30 }

  /** Overloaded means seven or more comma-separated entries; a missing or
      empty specialization, or one without a comma, never is. */
  lemma OverloadedIff(t: TeacherRecord)
    ensures Overloaded(t) <==> Filled(t.subjectsSpecialization) && SplitCount(t.subjectsSpecialization.value, ',') >= 7
    ensures Filled(t.subjectsSpecialization) && ',' !in t.subjectsSpecialization.value ==> !Overloaded(t)
  {
  }

  function AtRiskIn(attendance: seq<AttendanceRecord>): StudentRecord -> bool {
    (s: StudentRecord) => AtRisk(attendance, s.id)
  }

  datatype Insights = Insights(atRiskStudents: nat, overloadedTeachers: nat)

  /** `getPredictiveInsights`. */
  function PredictiveInsights(studentData: Option<seq<StudentRecord>>, attendanceData: Option<seq<AttendanceRecord>>,
                              teacherData: Option<seq<TeacherRecord>>): Insights
  {
    var att := AsList(attendanceData);
    Insights(|Filter(AsList(studentData), AtRiskIn(att))|,
             |Filter(AsList(teacherData), Overloaded)|)
  }

  /** The counts are the students at risk and the overloaded teachers, so
      neither exceeds its list, and without attendance nobody is at risk. */
  lemma PredictiveInsightsSpec(studentData: Option<seq<StudentRecord>>, attendanceData: Option<seq<AttendanceRecord>>,
                               teacherData: Option<seq<TeacherRecord>>)
    ensures var r := PredictiveInsights(studentData, attendanceData, teacherData);
      && r.atRiskStudents <= |AsList(studentData)| && r.overloadedTeachers <= |AsList(teacherData)|
      && (AsList(attendanceData) == [] ==> r.atRiskStudents == 0)
      && ((forall t :: t in AsList(teacherData) ==> !Overloaded(t)) ==> r.overloadedTeachers == 0)
  {
    var att := AsList(attendanceData);
    var students := AsList(studentData);
    if att == [] {
      FilterNone(students, AtRiskIn(att));
    }
    if forall t :: t in AsList(teacherData) ==> !Overloaded(t) {
      FilterNone(AsList(teacherData), Overloaded);
    }
  }
}
