/** The `/api/dashboard/stats` endpoint of the backend: it resolves the
    current and the comparison term, compares this term's figures with the
    comparison term's as signed percentage trends, and reports the current
    term's attendance rate. The SQL queries are inputs (`Db`). */
module DashboardStats {
  import opened Js

  /** A row of the `terms` table; dates are day numbers. */
  datatype Term = Term(id: Id, isCurrent: bool, startDate: int)

  /** One `attendance` row: whether each of the day's two sessions was 'Present'. */
  datatype Attendance = Attendance(morningPresent: bool, afternoonPresent: bool)

  /** What the endpoint's queries return for one school. */
  datatype Db = Db(
    terms: seq<Term>,
    // COUNT(*) of students in classes of the term's academic year
    studentCount: Id -> nat,
    // COUNT(*) of active teachers (no term in the query)
    activeTeachers: nat,
    // SUM(balance) of the term's student_fees rows; NULL when there are none
    feeBalanceSum: Id -> Option<real>,
    // the school's attendance rows dated within the term
    attendance: Id -> seq<Attendance>)

  datatype Stats = Stats(
    totalStudents: nat, studentTrend: string,
    totalTeachers: nat, teacherTrend: string,
    totalFeeBalance: real, feeTrend: string,
    attendanceRate: string)

  /** The endpoint's JSON replies with their HTTP status. */
  datatype Response =
    | Ok(stats: Stats)                 // 200
    | BadRequest(error: string)        // 400
    | NotFound(error: string)          // 404
    | ServerError(error: string)       // 500

  // ---------------------------------------------------------------------
  // Period resolution

  /** `SELECT id FROM terms WHERE <p> ORDER BY start_date DESC LIMIT 1`.
      SQL leaves the choice among rows sharing the latest start date open;
      here the first such row in table order is taken. */
  function Latest(ts: seq<Term>, p: Term -> bool): (r: Option<Term>)
    ensures r.None? <==> forall i :: 0 <= i < |ts| ==> !p(ts[i])
    ensures r.Some? ==> r.value in ts && p(r.value)
    ensures r.Some? ==> forall i :: 0 <= i < |ts| && p(ts[i]) ==> ts[i].startDate <= r.value.startDate
  {
    if ts == [] then None
    else
      var rest := Latest(ts[1..], p);
      assert forall i :: 1 <= i < |ts| ==> ts[i] == ts[1..][i - 1];
      if p(ts[0]) && (rest.None? || rest.value.startDate <= ts[0].startDate) then Some(ts[0])
      else rest
  }

  /** The term flagged `is_current` with the latest start date. */
  function CurrentTerm(ts: seq<Term>): Option<Term> {
    Latest(ts, (t: Term) => t.isCurrent)
  }

  /** The term with the latest start date among all terms with another id;
      nothing requires it to start before the current term. */
  function PreviousTerm(ts: seq<Term>, current: Term): Option<Term> {
    Latest(ts, (t: Term) => t.id != current.id)
  }

  /** The previous term is null exactly when every term shares the current
      term's id, and otherwise it is a latest-starting term with another id. */
  lemma PreviousTermSpec(ts: seq<Term>, current: Term)
    ensures PreviousTerm(ts, current).None? <==> forall i :: 0 <= i < |ts| ==> ts[i].id == current.id
    ensures PreviousTerm(ts, current).Some? ==>
      var p := PreviousTerm(ts, current).value;
      p in ts && p.id != current.id &&
      forall i :: 0 <= i < |ts| && ts[i].id != current.id ==> ts[i].startDate <= p.startDate
  {
  }

  /** The "previous" term can start after the current one. */
  lemma PreviousTermMayBeLater()
    ensures var ts := [Term(1, true, 100), Term(2, false, 200)];
            CurrentTerm(ts) == Some(Term(1, true, 100)) &&
            PreviousTerm(ts, Term(1, true, 100)) == Some(Term(2, false, 200))
  {
  }

  // ---------------------------------------------------------------------
  // Trends

  /** The template string before the sign is added: the percentage change to
      one decimal, or the literal "0%" when there is no positive base. */
  function RawTrend(cur: real, prev: real): string {
    if prev > 0.0 then ToFixed1((cur - prev) / prev * 100.0) + "%" else "0%"
  }

  /** `t.startsWith('-') ? t : '+' + t`. */
  function Signed(t: string): string {
    if StartsWith(t, "-") then t else "+" + t
  }

  function Trend(cur: real, prev: real): string {
    Signed(RawTrend(cur, prev))
  }

  /** The first character of the unsigned template: '-' for a fall from a
      positive base, otherwise a digit. */
  lemma RawTrendHead(cur: real, prev: real)
    ensures |RawTrend(cur, prev)| >= 1
    ensures RawTrend(cur, prev)[0] == '-' <==> prev > 0.0 && cur < prev
  {
    if prev > 0.0 {
      var x := (cur - prev) / prev * 100.0;
      assert x < 0.0 <==> cur < prev by {
        assert (cur - prev) / prev < 0.0 <==> cur - prev < 0.0;
      }
      ToFixed1Sign(x);
      assert RawTrend(cur, prev)[0] == ToFixed1(x)[0];
    }
  }

  /** Every trend carries an explicit sign, and it is '-' exactly when the
      figure fell from a positive base. */
  lemma TrendSign(cur: real, prev: real)
    ensures StartsWith(Trend(cur, prev), "+") || StartsWith(Trend(cur, prev), "-")
    ensures StartsWith(Trend(cur, prev), "-") <==> prev > 0.0 && cur < prev
    ensures StartsWith(Trend(cur, prev), "+") <==> !(prev > 0.0 && cur < prev)
  {
    var raw := RawTrend(cur, prev);
    RawTrendHead(cur, prev);
    StartsWithChar(raw, '-');
    var t := Trend(cur, prev);
    assert t[0] == '-' || t[0] == '+';
    StartsWithChar(t, '-');
    StartsWithChar(t, '+');
  }

  /** With no positive base the trend is "+0%", never "0%". */
  lemma TrendWithoutBase(cur: real, prev: real)
    requires prev <= 0.0
    ensures Trend(cur, prev) == "+0%"
  {
    StartsWithChar("0%", '-');
  }

  /** A figure compared with itself: "+0.0%" from a positive base, else "+0%". */
  lemma TrendOfSelf(c: nat)
    ensures Trend(c as real, c as real) == if c > 0 then "+0.0%" else "+0%"
  {
    if c > 0 {
      assert (c as real - c as real) / c as real * 100.0 == 0.0;
      ToFixed1Nat(0);
      assert RawTrend(c as real, c as real) == "0.0%";
      StartsWithChar("0.0%", '-');
    } else {
      TrendWithoutBase(0.0, 0.0);
    }
  }

  /** 110 students this term against 100 in the comparison term. */
  lemma TrendExample()
    ensures Trend(110.0, 100.0) == "+10.0%"
  {
    assert (110.0 - 100.0) / 100.0 * 100.0 == 10.0;
    ToFixed1Nat(10);
    assert NatToString(10) == "10";
    StartsWithChar("10.0%", '-');
  }

  // ---------------------------------------------------------------------
  // Attendance

  function MorningPresent(a: Attendance): bool { a.morningPresent }
  function AfternoonPresent(a: Attendance): bool { a.afternoonPresent }

  /** Present sessions over all sessions (two per recorded day) in percent,
      0 when no day is recorded. */
  function AttendanceRate(rows: seq<Attendance>): real {
    if |rows| > 0 then
      (Count(rows, MorningPresent) + Count(rows, AfternoonPresent)) as real / (|rows| * 2) as real * 100.0
    else 0.0
  }

  lemma RatioAtMostOne(a: real, b: real)
    requires 0.0 <= a <= b && b > 0.0
    ensures 0.0 <= a / b <= 1.0
  {
    assert a / b * b == a;
  }

  lemma AttendanceRateBounds(rows: seq<Attendance>)
    ensures 0.0 <= AttendanceRate(rows) <= 100.0
  {
    if |rows| > 0 {
      var present := Count(rows, MorningPresent) + Count(rows, AfternoonPresent);
      var slots := |rows| * 2;
      assert present <= slots;
      RatioAtMostOne(present as real, slots as real);
    }
  }

  /** A day with only one session present counts as half a day. */
  lemma AttendanceHalfDay()
    ensures AttendanceRate([Attendance(true, false)]) == 50.0
  {
    var rows := [Attendance(true, false)];
    assert rows[..0] == [];
    assert Count(rows, MorningPresent) == 1;
    assert Count(rows, AfternoonPresent) == 0;
  }

  // ---------------------------------------------------------------------
  // The endpoint

  /** The reply once both terms are resolved and the comparison figures are known. */
  function BuildStats(db: Db, current: Term, prevStudents: nat, prevFeeBalance: real): Stats {
    var students := db.studentCount(current.id);
    var teachers := db.activeTeachers;
    var fee := OrZero(db.feeBalanceSum(current.id));
    Stats(
      students, Trend(students as real, prevStudents as real),
      // the "previous" teacher count is the same query as the current one
      teachers, Trend(teachers as real, teachers as real),
      fee, Trend(fee, prevFeeBalance),
      ToFixed1(AttendanceRate(db.attendance(current.id))))
  }

  /** The endpoint as written. Without a previous term the fee placeholder
      `[{ total: 0 }]` is indexed as `[0][0].total`, which reads `.total` of
      undefined and lands in the catch block. */
  function GetStatsAsWritten(schoolId: string, db: Db): Response {
    if schoolId == "" then BadRequest("School ID is required")
    else match CurrentTerm(db.terms)
      case None => NotFound("No active term found")
      case Some(current) =>
        match PreviousTerm(db.terms, current)
        case None => ServerError("Server error")
        case Some(prev) =>
          Ok(BuildStats(db, current, db.studentCount(prev.id), OrZero(db.feeBalanceSum(prev.id))))
  }

  /** The endpoint with the fee placeholder read like the student one: a
      missing previous term contributes 0 to both comparisons. */
  function GetStats(schoolId: string, db: Db): Response {
    if schoolId == "" then BadRequest("School ID is required")
    else match CurrentTerm(db.terms)
      case None => NotFound("No active term found")
      case Some(current) =>
        match PreviousTerm(db.terms, current)
        case None => Ok(BuildStats(db, current, 0, 0.0))
        case Some(prev) =>
          Ok(BuildStats(db, current, db.studentCount(prev.id), OrZero(db.feeBalanceSum(prev.id))))
  }

  /** Which reply the endpoint gives: 400 without a school, 404 without a
      current term, and otherwise statistics whose trends are all signed,
      whose teacher trend compares the count with itself, and whose
      attendance rate lies between 0 and 100. */
  lemma {:induction false} StatsOutcome(schoolId: string, db: Db)
    ensures GetStats(schoolId, db).BadRequest? <==> schoolId == ""
    ensures GetStats(schoolId, db).NotFound? <==>
      schoolId != "" && forall i :: 0 <= i < |db.terms| ==> !db.terms[i].isCurrent
    ensures !GetStats(schoolId, db).ServerError?
    ensures GetStats(schoolId, db).Ok? ==>
      var s := GetStats(schoolId, db).stats;
      && (StartsWith(s.studentTrend, "+") || StartsWith(s.studentTrend, "-"))
      && (StartsWith(s.feeTrend, "+") || StartsWith(s.feeTrend, "-"))
      && s.teacherTrend == (if s.totalTeachers > 0 then "+0.0%" else "+0%")
  {
    if schoolId != "" && CurrentTerm(db.terms).Some? {
      var current := CurrentTerm(db.terms).value;
      var s := GetStats(schoolId, db).stats;
      var prevStudents, prevFee :=
        if PreviousTerm(db.terms, current).Some?
        then db.studentCount(PreviousTerm(db.terms, current).value.id)
        else 0,
        if PreviousTerm(db.terms, current).Some?
        then OrZero(db.feeBalanceSum(PreviousTerm(db.terms, current).value.id))
        else 0.0;
      assert s == BuildStats(db, current, prevStudents, prevFee);
      TrendSign(s.totalStudents as real, prevStudents as real);
      TrendSign(s.totalFeeBalance, prevFee);
      TrendOfSelf(s.totalTeachers);
    }
  }

  /** Without a previous term both comparisons read "+0%". */
  lemma StatsWithoutPreviousTerm(schoolId: string, db: Db)
    requires schoolId != "" && CurrentTerm(db.terms).Some?
    requires PreviousTerm(db.terms, CurrentTerm(db.terms).value).None?
    ensures GetStats(schoolId, db).Ok?
    ensures GetStats(schoolId, db).stats.studentTrend == "+0%"
    ensures GetStats(schoolId, db).stats.feeTrend == "+0%"
  {
    var current := CurrentTerm(db.terms).value;
    TrendWithoutBase(db.studentCount(current.id) as real, 0.0);
    TrendWithoutBase(OrZero(db.feeBalanceSum(current.id)), 0.0);
  }

  /** The endpoint as written fails with 500 for every school that has a
      current term but no other term, where the corrected endpoint answers. */
  lemma StatsAsWrittenFailsWithoutPreviousTerm(schoolId: string, db: Db)
    requires schoolId != "" && CurrentTerm(db.terms).Some?
    requires PreviousTerm(db.terms, CurrentTerm(db.terms).value).None?
    ensures GetStatsAsWritten(schoolId, db) == ServerError("Server error")
    ensures GetStats(schoolId, db).Ok?
  {
  }

  /** A school whose only term is the current one is such a school. */
  lemma {:induction false} OnlyCurrentTermHasNoPrevious(db: Db)
    requires db.terms == [Term(1, true, 0)]
    ensures CurrentTerm(db.terms) == Some(Term(1, true, 0))
    ensures PreviousTerm(db.terms, Term(1, true, 0)) == None
    ensures GetStatsAsWritten("7", db) == ServerError("Server error")
  {
    assert CurrentTerm(db.terms) == Some(Term(1, true, 0));
    assert PreviousTerm(db.terms, Term(1, true, 0)) == None;
    StatsAsWrittenFailsWithoutPreviousTerm("7", db);
  }

  /** Whenever a previous term exists the two versions agree. */
  lemma StatsAsWrittenAgrees(schoolId: string, db: Db)
    requires CurrentTerm(db.terms).Some? ==> PreviousTerm(db.terms, CurrentTerm(db.terms).value).Some?
    ensures GetStatsAsWritten(schoolId, db) == GetStats(schoolId, db)
  {
  }

  /** The attendance figure of a reply is the rendered rate of the current
      term's rows, which lies between 0 and 100. */
  lemma StatsAttendance(schoolId: string, db: Db)
    requires GetStats(schoolId, db).Ok?
    ensures var current := CurrentTerm(db.terms).value;
            GetStats(schoolId, db).stats.attendanceRate == ToFixed1(AttendanceRate(db.attendance(current.id)))
            && 0.0 <= AttendanceRate(db.attendance(current.id)) <= 100.0
  {
    AttendanceRateBounds(db.attendance(CurrentTerm(db.terms).value.id));
  }
}
