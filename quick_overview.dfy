/** The overview dashboard: the recent-payments table built from the
    payments endpoint, the four statistic cards built from the
    `/api/dashboard/stats` reply with their trend colours, and the page's
    session handling, where a 403 from the statistics request logs the user
    out. */
module QuickOverview {
  import opened Js
  import opened Seqs
  import DashboardStats

  // ---------------------------------------------------------------------
  // Recent payments

  /** A JSON string field that may also be `null` or absent: a template
      literal renders the two as "null" and "undefined". */
  datatype JsonText = Given(value: string) | Null | Undefined

  /** A user joined to a payment row. */
  datatype Person = Person(firstName: Option<string>, lastName: JsonText)

  /** The `student` joined to a payment. */
  datatype StudentRef = StudentRef(user: Option<Person>, admissionNumber: Option<string>)

  /** One element of the payments endpoint's reply; amounts and dates are
      passed through untouched. */
  datatype Payment = Payment(
    id: Id, amount: string, paymentDate: string, paymentMethod: string,
    student: Option<StudentRef>, receivedByUser: Option<Person>)

  /** One row of the table. */
  datatype PaymentRow = PaymentRow(
    id: Id, studentName: string, admissionNumber: string, amount: string,
    paymentDate: string, paymentMethod: string, status: string, receivedBy: string)

  /** `${x}` of a string field that may be `null` or absent. */
  function Interpolated(s: JsonText): string {
    match s
    case Given(v) => v
    case Null => "null"
    case Undefined => "undefined"
  }

  /** `p?.first_name ? `${p.first_name} ${p.last_name}` : fallback`. */
  function FullNameOr(p: Option<Person>, fallback: string): string {
    if p.Some? && Filled(p.value.firstName)
    then p.value.firstName.value + " " + Interpolated(p.value.lastName)
    else fallback
  }

  /** `payment.student?.user`. */
  function StudentUser(p: Payment): Option<Person> {
    if p.student.Some? then p.student.value.user else None
  }

  /** `payment.student?.admission_number`. */
  function Admission(p: Payment): Option<string> {
    if p.student.Some? then p.student.value.admissionNumber else None
  }

  /** Whether the row can show a person's name: `first_name` is truthy. */
  predicate Named(p: Option<Person>) {
    p.Some? && Filled(p.value.firstName)
  }

  function TransformPayment(p: Payment): PaymentRow {
    PaymentRow(
      p.id,
      FullNameOr(StudentUser(p), "Unknown Student"),
      OrElse(Admission(p), "N/A"),
      p.amount, p.paymentDate, p.paymentMethod,
      "completed",
      FullNameOr(p.receivedByUser, "System"))
  }

  /** `paymentsRes.data.map(payment => ({ ... }))`. */
  function TransformPayments(ps: seq<Payment>): seq<PaymentRow> {
    Map(ps, TransformPayment)
  }

  /** One row per payment in the same order: identity, amount, date and
      method are copied; the status is always "completed"; the student's
      name is "first last" when a first name is present and "Unknown
      Student" otherwise; the admission number falls back to "N/A"; the
      receiving user falls back to "System". */
  lemma TransformPaymentsSpec(ps: seq<Payment>)
    ensures |TransformPayments(ps)| == |ps|
    ensures forall i :: 0 <= i < |ps| ==>
      var p, r := ps[i], TransformPayments(ps)[i];
      && r.id == p.id && r.amount == p.amount
      && r.paymentDate == p.paymentDate && r.paymentMethod == p.paymentMethod
      && r.status == "completed"
      && (Named(StudentUser(p)) ==>
            r.studentName == StudentUser(p).value.firstName.value + " " + Interpolated(StudentUser(p).value.lastName))
      && (!Named(StudentUser(p)) ==> r.studentName == "Unknown Student")
      && (Filled(Admission(p)) ==> r.admissionNumber == Admission(p).value)
      && (!Filled(Admission(p)) ==> r.admissionNumber == "N/A")
      && (Named(p.receivedByUser) ==>
            r.receivedBy == p.receivedByUser.value.firstName.value + " " + Interpolated(p.receivedByUser.value.lastName))
      && (!Named(p.receivedByUser) ==> r.receivedBy == "System")
  {
  }

  /** A name with a `null` or an absent last name is rendered with the
      literal word in its place. */
  lemma MissingLastNameRendered(first: string, fallback: string)
    requires first != ""
    ensures FullNameOr(Some(Person(Some(first), Null)), fallback) == first + " null"
    ensures FullNameOr(Some(Person(Some(first), Undefined)), fallback) == first + " undefined"
  {
  }

  /** No cell of the name and admission columns is ever blank. */
  lemma TransformPaymentsNonBlank(ps: seq<Payment>)
    ensures forall i :: 0 <= i < |ps| ==>
      var r := TransformPayments(ps)[i];
      r.studentName != "" && r.admissionNumber != "" && r.receivedBy != ""
  {
  }

  function PaymentId(p: Payment): Id { p.id }
  function RowId(r: PaymentRow): Id { r.id }

  /** The table lists exactly the payments' ids, in the reply's order. */
  lemma TransformKeepsIds(ps: seq<Payment>)
    ensures Map(TransformPayments(ps), RowId) == Map(ps, PaymentId)
  {
    var rows := TransformPayments(ps);
    assert |Map(rows, RowId)| == |Map(ps, PaymentId)|;
    forall i | 0 <= i < |ps| ensures Map(rows, RowId)[i] == Map(ps, PaymentId)[i] {
      assert rows[i] == TransformPayment(ps[i]);
    }
  }

  /** Mapping a reply that arrives in two parts gives the two tables one
      after the other. */
  lemma {:induction false} TransformPaymentsConcat(xs: seq<Payment>, ys: seq<Payment>)
    ensures TransformPayments(xs + ys) == TransformPayments(xs) + TransformPayments(ys)
  {
    var l, r := TransformPayments(xs + ys), TransformPayments(xs) + TransformPayments(ys);
    assert |l| == |r|;
    forall i | 0 <= i < |l| ensures l[i] == r[i] {
      if i < |xs| {
        assert (xs + ys)[i] == xs[i];
      } else {
        assert (xs + ys)[i] == ys[i - |xs|];
      }
    }
  }

  // ---------------------------------------------------------------------
  // What the recent-payments endpoint of the backend sends: the student as
  // `{ admission_number, name }` and the recorder as a plain `received_by`
  // string, with none of the fields the page reads.

  /** One row of the payments query joined to the student's and the
      recorder's user. */
  datatype RecentPaymentRow = RecentPaymentRow(
    id: Id, amount: string, paymentDate: string, paymentMethod: string, admissionNumber: string,
    studentFirstName: string, studentLastName: string, receivedByFirstName: string, receivedByLastName: string)

  /** The element of the reply as the page reads it: `student.user` and
      `received_by_user` are absent, only the admission number is found. */
  function ServedPayment(r: RecentPaymentRow): Payment {
    Payment(r.id, r.amount, r.paymentDate, r.paymentMethod, Some(StudentRef(None, Some(r.admissionNumber))), None)
  }

  /** As written, every payment from the endpoint is shown as paid by
      "Unknown Student" and received by "System". */
  lemma AsWrittenHidesNames(r: RecentPaymentRow)
    ensures TransformPayment(ServedPayment(r)).studentName == "Unknown Student"
    ensures TransformPayment(ServedPayment(r)).receivedBy == "System"
    ensures TransformPayment(ServedPayment(r)).admissionNumber == OrElse(Some(r.admissionNumber), "N/A")
  {
  }

  /** The row the page evidently means to show, read from the fields the
      endpoint does send: `student.name` and `received_by`. */
  function ServedPaymentRow(r: RecentPaymentRow): PaymentRow {
    PaymentRow(
      r.id, r.studentFirstName + " " + r.studentLastName, OrElse(Some(r.admissionNumber), "N/A"),
      r.amount, r.paymentDate, r.paymentMethod, "completed",
      r.receivedByFirstName + " " + r.receivedByLastName)
  }

  /** Reading the endpoint's fields gives the names of the student and the
      recorder, and the same row the page's own transformation gives for a
      payment that carries the users it expects. */
  lemma ServedPaymentRowShowsNames(r: RecentPaymentRow)
    requires r.studentFirstName != "" && r.receivedByFirstName != ""
    ensures ServedPaymentRow(r).studentName == r.studentFirstName + " " + r.studentLastName
    ensures ServedPaymentRow(r).receivedBy == r.receivedByFirstName + " " + r.receivedByLastName
    ensures var expected := Payment(
              r.id, r.amount, r.paymentDate, r.paymentMethod,
              Some(StudentRef(Some(Person(Some(r.studentFirstName), Given(r.studentLastName))), Some(r.admissionNumber))),
              Some(Person(Some(r.receivedByFirstName), Given(r.receivedByLastName))));
            ServedPaymentRow(r) == TransformPayment(expected)
  {
  }

  // ---------------------------------------------------------------------
  // Statistic cards

  const Green := "text-green-300"
  const Red := "text-red-300"

  /** `trend?.startsWith('+') ? 'text-green-300' : 'text-red-300'`. */
  function TrendColor(trend: string): string {
    if StartsWith(trend, "+") then Green else Red
  }

  /** Green exactly for a trend whose first character is '+'; a trend
      starting with anything else, or an empty one, is red. */
  lemma TrendColorSpec(trend: string)
    ensures TrendColor(trend) == Green <==> |trend| >= 1 && trend[0] == '+'
    ensures TrendColor(trend) == Red <==> !(|trend| >= 1 && trend[0] == '+')
  {
    StartsWithChar(trend, '+');
  }

  /** On the endpoint's signed trends the colour is red exactly when the
      figure fell from a positive base. */
  lemma TrendColorOfTrend(cur: real, prev: real)
    ensures TrendColor(DashboardStats.Trend(cur, prev)) == if prev > 0.0 && cur < prev then Red else Green
  {
    DashboardStats.TrendSign(cur, prev);
  }

  /** A card's main figure: a count, or text built around a number. */
  datatype CardValue = Count(n: nat) | Text(s: string)

  /** A statistic card without its icon. */
  datatype Card = Card(
    title: string, value: CardValue, color: string,
    trend: Option<string>, trendColor: Option<string>, progress: Option<string>,
    description: string)

  const CardTitles := ["Total Students", "Active Teachers", "Fee Balance", "Attendance Rate"]

  function Title(c: Card): string { c.title }

  /** The card of a trend figure: the trend and its colour. */
  function TrendCard(title: string, value: CardValue, color: string, trend: string, description: string): Card {
    Card(title, value, color, Some(trend), Some(TrendColor(trend)), None, description)
  }

  /** `KSh ${fee.toLocaleString() || '0'}`; `format` stands for the
      locale's number formatting. */
  function FeeText(fee: real, format: real -> string): string {
    "KSh " + OrElse(Some(format(fee)), "0")
  }

  /** `processedStats`: nothing before statistics arrive, then the four
      cards in the page's order. */
  function ProcessedStats(stats: Option<DashboardStats.Stats>, format: real -> string): seq<Card> {
    if stats.None? then []
    else
      var s := stats.value;
      [ TrendCard("Total Students", Count(s.totalStudents), "bg-blue-500", s.studentTrend, "Compared to last term"),
        TrendCard("Active Teachers", Count(s.totalTeachers), "bg-green-500", s.teacherTrend, "Compared to last term"),
        TrendCard("Fee Balance", Text(FeeText(s.totalFeeBalance, format)), "bg-yellow-500", s.feeTrend, "Outstanding balance"),
        Card("Attendance Rate", Text(s.attendanceRate + "%"), "bg-purple-500", None, None, Some(s.attendanceRate),
             "Current term average") ]
  }

  /** No cards without statistics; with statistics four, titled in order,
      the first three carrying their trend and its colour and the last one a
      progress bar for the attendance rate. The fee card always shows "KSh "
      followed by some figure. */
  lemma ProcessedStatsSpec(stats: Option<DashboardStats.Stats>, format: real -> string)
    ensures ProcessedStats(stats, format) == [] <==> stats.None?
    ensures stats.Some? ==>
      var cs, s := ProcessedStats(stats, format), stats.value;
      && |cs| == 4 && Map(cs, Title) == CardTitles
      && cs[0].value == Count(s.totalStudents) && cs[0].trend == Some(s.studentTrend)
      && cs[1].value == Count(s.totalTeachers) && cs[1].trend == Some(s.teacherTrend)
      && cs[2].trend == Some(s.feeTrend)
      && (forall i :: 0 <= i < 3 ==> cs[i].trend.Some? && cs[i].trendColor == Some(TrendColor(cs[i].trend.value))
                                     && cs[i].progress == None)
      && cs[3].trend == None && cs[3].trendColor == None && cs[3].progress == Some(s.attendanceRate)
      && cs[3].value == Text(s.attendanceRate + "%")
      && cs[2].value.Text? && |cs[2].value.s| > 4 && cs[2].value.s[..4] == "KSh "
  {
    if stats.Some? {
      var cs := ProcessedStats(stats, format);
      assert Map(cs, Title) == CardTitles;
    }
  }

  /** On any statistics the endpoint returns, the teacher card is green
      (its trend compares the count with itself) and each trend card is red
      exactly when its trend is negative. */
  lemma EndpointCards(schoolId: string, db: DashboardStats.Db, format: real -> string)
    requires DashboardStats.GetStats(schoolId, db).Ok?
    ensures var cs := ProcessedStats(Some(DashboardStats.GetStats(schoolId, db).stats), format);
      && |cs| == 4
      && cs[1].trendColor == Some(Green)
      && forall i :: 0 <= i < 3 ==> (cs[i].trendColor == Some(Red) <==> StartsWith(cs[i].trend.value, "-"))
  {
    var s := DashboardStats.GetStats(schoolId, db).stats;
    DashboardStats.StatsOutcome(schoolId, db);
    StartsWithChar(s.studentTrend, '+');
    StartsWithChar(s.studentTrend, '-');
    StartsWithChar(s.feeTrend, '+');
    StartsWithChar(s.feeTrend, '-');
    StartsWithChar(s.teacherTrend, '+');
    StartsWithChar(s.teacherTrend, '-');
  }

  // ---------------------------------------------------------------------
  // The page

  /** An element of the activities reply, shown as it arrives. */
  datatype Activity = Activity(kind: string, description: string, createdAt: string)

  /** How the statistics request ended: the endpoint answered, the token
      check in front of it refused with 403 and a plain-text body, or no
      response arrived. */
  datatype StatsReply =
    | Answered(response: DashboardStats.Response)
    | Forbidden
    | NoResponse(message: string)

  predicate Succeeded(reply: StatsReply) {
    reply.Answered? && reply.response.Ok?
  }

  /** The status code of an endpoint reply. */
  function StatusOf(r: DashboardStats.Response): nat {
    match r
    case Ok(_) => 200
    case BadRequest(_) => 400
    case NotFound(_) => 404
    case ServerError(_) => 500
  }

  /** The message of the error a failed request raises. */
  function RequestFailed(status: nat): string {
    "Request failed with status code " + NatToString(status)
  }

  /** `err.response?.data?.error || err.message || 'Failed to load dashboard data'`
      for a statistics request that did not succeed. */
  function FetchError(reply: StatsReply): string {
    match reply
    case Answered(r) =>
      if r.Ok? then "" else OrElse(Some(r.error), RequestFailed(StatusOf(r)))
    case Forbidden => RequestFailed(403)
    case NoResponse(m) => OrElse(Some(m), "Failed to load dashboard data")
  }

  /** What the page renders. */
  datatype Screen = LoginScreen | Spinner | ErrorScreen(message: string) | DashboardScreen

  const TokenKey := "token"
  const SchoolKey := "schoolId"

  /** The sign-in form of the page; `role` starts as "admin". */
  datatype LoginForm = LoginForm(username: string, password: string, role: string)

  /** `handleLoginChange`: `{ ...loginForm, [name]: value }` for its three
      inputs; other names leave the form as it is. */
  function ChangeLoginField(f: LoginForm, name: string, value: string): (r: LoginForm)
    ensures name == "username" ==> r == f.(username := value)
    ensures name == "password" ==> r == f.(password := value)
    ensures name == "role" ==> r == f.(role := value)
    ensures name !in {"username", "password", "role"} ==> r == f
  {
    match name
    case "username" => f.(username := value)
    case "password" => f.(password := value)
    case "role" => f.(role := value)
    case _ => f
  }

  /** What the login request gives back. */
  datatype LoginReply = Granted(token: string, schoolId: string) | Refused(message: Option<string>)

  class OverviewPage {
    var storage: map<string, string>   // localStorage
    var authorization: Option<string>  // axios' default Authorization header
    var location: string               // where the window was sent, "" if nowhere
    var loginForm: LoginForm
    var stats: Option<DashboardStats.Stats>
    var recentPayments: seq<PaymentRow>
    var recentActivities: seq<Activity>
    var loading: bool
    var error: Option<string>

    /** `localStorage.getItem(key)` is truthy. */
    predicate Has(key: string)
      reads this
    {
      key in storage && storage[key] != ""
    }

    /** `isAuthenticated = !!localStorage.getItem('token')`. */
    predicate IsAuthenticated()
      reads this
    {
      Has(TokenKey)
    }

    /** Both the token and the school are stored. */
    predicate SignedIn()
      reads this
    {
      Has(TokenKey) && Has(SchoolKey)
    }

    /** The branch the render takes: the sign-in form without a token, then
        the spinner while loading, then the error, then the dashboard. */
    function CurrentScreen(): (r: Screen)
      reads this
      ensures r == LoginScreen <==> !IsAuthenticated()
      ensures r == Spinner <==> IsAuthenticated() && loading
      ensures r.ErrorScreen? <==> IsAuthenticated() && !loading && Filled(error)
    {
      if !IsAuthenticated() then LoginScreen
      else if loading then Spinner
      else if Filled(error) then ErrorScreen(error.value)
      else DashboardScreen
    }

    /** The page as first rendered over the given storage, with the header
        set from a stored token. */
    constructor(saved: map<string, string>)
      ensures storage == saved && location == ""
      ensures authorization == (if Has(TokenKey) then Some("Bearer " + saved[TokenKey]) else None)
      ensures loginForm == LoginForm("", "", "admin")
      ensures stats == None && recentPayments == [] && recentActivities == []
      ensures loading && error == None
    {
      storage := saved;
      location := "";
      authorization := if TokenKey in saved && saved[TokenKey] != "" then Some("Bearer " + saved[TokenKey]) else None;
      loginForm := LoginForm("", "", "admin");
      stats := None;
      recentPayments := [];
      recentActivities := [];
      loading := true;
      error := None;
    }

    method ChangeLogin(name: string, value: string)
      modifies this
      ensures loginForm == ChangeLoginField(old(loginForm), name, value)
      ensures storage == old(storage) && authorization == old(authorization) && location == old(location)
      ensures stats == old(stats) && recentPayments == old(recentPayments)
      ensures recentActivities == old(recentActivities) && loading == old(loading) && error == old(error)
    {
      loginForm := ChangeLoginField(loginForm, name, value);
    }

    /** `handleLogin`: a granted login stores the token and the school and
        sets the header; a refused one shows the server's message or the
        generic one. */
    method HandleLogin(reply: LoginReply)
      modifies this
      ensures reply.Granted? ==>
        && storage == old(storage)[TokenKey := reply.token][SchoolKey := reply.schoolId]
        && authorization == Some("Bearer " + reply.token)
        && error == old(error)
      ensures reply.Refused? ==>
        && storage == old(storage) && authorization == old(authorization)
        && error == Some(OrElse(reply.message, "Login failed. Please check your credentials."))
      ensures location == old(location) && loginForm == old(loginForm)
      ensures stats == old(stats) && recentPayments == old(recentPayments)
      ensures recentActivities == old(recentActivities) && loading == old(loading)
    {
      match reply
      case Granted(token, schoolId) =>
        storage := storage[TokenKey := token][SchoolKey := schoolId];
        authorization := Some("Bearer " + token);
      case Refused(message) =>
        error := Some(OrElse(message, "Login failed. Please check your credentials."));
    }

    /** `handleLogout`: the token and the school leave storage, the header
        is dropped and the window goes to the login page. */
    method Logout()
      modifies this
      ensures storage == old(storage) - {TokenKey, SchoolKey}
      ensures !IsAuthenticated() && !Has(SchoolKey)
      ensures authorization == None && location == "/login"
      ensures loginForm == old(loginForm) && stats == old(stats) && recentPayments == old(recentPayments)
      ensures recentActivities == old(recentActivities) && loading == old(loading) && error == old(error)
    {
      storage := storage - {TokenKey, SchoolKey};
      authorization := None;
      location := "/login";
    }

    /** `fetchAllData`. Without a stored token and school it stops with
        "Authentication required". A successful statistics request stores
        the statistics, the transformed payments and the activities, where a
        failed payments or activities request counts as an empty list. A
        failed statistics request shows its error, and a 403 also logs the
        user out. Loading ends in every case. */
    method FetchAllData(reply: StatsReply, payments: Option<seq<Payment>>, activities: Option<seq<Activity>>)
      modifies this
      ensures !loading && loginForm == old(loginForm)
      ensures !old(SignedIn()) ==> error == Some("Authentication required")
      ensures old(SignedIn()) && Succeeded(reply) ==>
        && error == None && stats == Some(reply.response.stats)
        && recentPayments == TransformPayments(if payments.Some? then payments.value else [])
        && recentActivities == (if activities.Some? then activities.value else [])
      ensures old(SignedIn()) && !Succeeded(reply) ==> error == Some(FetchError(reply))
      ensures !(old(SignedIn()) && Succeeded(reply)) ==>
        stats == old(stats) && recentPayments == old(recentPayments) && recentActivities == old(recentActivities)
      ensures old(SignedIn()) && reply.Forbidden? ==>
        storage == old(storage) - {TokenKey, SchoolKey} && authorization == None && location == "/login"
      ensures !(old(SignedIn()) && reply.Forbidden?) ==>
        storage == old(storage) && authorization == old(authorization) && location == old(location)
      ensures loginForm == old(loginForm)
    {
      loading := true;
      error := None;
      if !SignedIn() {
        error := Some("Authentication required");
      } else if Succeeded(reply) {
        stats := Some(reply.response.stats);
        recentPayments := TransformPayments(if payments.Some? then payments.value else []);
        recentActivities := if activities.Some? then activities.value else [];
      } else {
        error := Some(FetchError(reply));
        if reply.Forbidden? {
          Logout();
        }
      }
      loading := false;
    }

    /** The mount effect: data is fetched only when both the token and the
        school are stored. With a token but no school nothing is fetched, so
        the page keeps showing the spinner. */
    method Mount(reply: StatsReply, payments: Option<seq<Payment>>, activities: Option<seq<Activity>>)
      modifies this
      ensures old(Has(TokenKey) && !Has(SchoolKey) && loading) ==> CurrentScreen() == Spinner
      ensures !old(SignedIn()) ==> unchanged(this)
      ensures old(SignedIn()) ==> !loading && loginForm == old(loginForm)
      ensures old(SignedIn()) && Succeeded(reply) ==>
        && error == None && stats == Some(reply.response.stats)
        && recentPayments == TransformPayments(if payments.Some? then payments.value else [])
        && recentActivities == (if activities.Some? then activities.value else [])
      ensures old(SignedIn()) && !Succeeded(reply) ==>
        && error == Some(FetchError(reply))
        && stats == old(stats) && recentPayments == old(recentPayments) && recentActivities == old(recentActivities)
      ensures old(SignedIn()) && reply.Forbidden? ==>
        && storage == old(storage) - {TokenKey, SchoolKey} && authorization == None && location == "/login"
        && CurrentScreen() == LoginScreen
      ensures old(SignedIn()) && !reply.Forbidden? ==>
        storage == old(storage) && authorization == old(authorization) && location == old(location)
    {
      if SignedIn() {
        FetchAllData(reply, payments, activities);
      }
    }
  }

  /** A failed statistics request always leaves a message to show: the
      endpoint's own error text, the request's failure message, or the
      fallback. */
  lemma FetchErrorSpec(reply: StatsReply)
    requires !Succeeded(reply)
    ensures FetchError(reply) != ""
    ensures reply.Answered? ==>
      FetchError(reply) == OrElse(Some(reply.response.error), RequestFailed(StatusOf(reply.response)))
    ensures reply.Forbidden? ==> FetchError(reply) == RequestFailed(403)
  {
  }

  /** The endpoint's "No active term found" reaches the page as its error
      text, and only a 403 logs the user out: the endpoint itself never
      answers 403. */
  lemma EndpointErrorShown(schoolId: string, db: DashboardStats.Db)
    requires !DashboardStats.GetStats(schoolId, db).Ok?
    ensures FetchError(Answered(DashboardStats.GetStats(schoolId, db))) == DashboardStats.GetStats(schoolId, db).error
    ensures StatusOf(DashboardStats.GetStats(schoolId, db)) != 403
  {
  }
}
