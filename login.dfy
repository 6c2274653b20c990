/** The login form: its state record, the role tabs that reset it, the
    ordered checks of `validateForm` with the e-mail pattern
    `/^\S+@\S+\.\S+$/`, and the route each role is sent to after a
    successful login. */
module Login {
  import opened Js

  datatype LoginForm = LoginForm(identifier: string, password: string, role: string)

  /** The form when the page opens: a student login with empty fields. */
  const InitialForm := LoginForm("", "", "student")

  /** `handleChange`: `{ ...formData, [name]: value }` for the form's three
      inputs; any other name leaves the three fields as they were. */
  function ChangeField(f: LoginForm, name: string, value: string): (r: LoginForm)
    ensures name == "identifier" ==> r == f.(identifier := value)
    ensures name == "password" ==> r == f.(password := value)
    ensures name == "role" ==> r == f.(role := value)
    ensures name !in {"identifier", "password", "role"} ==> r == f
  {
    match name
    case "identifier" => f.(identifier := value)
    case "password" => f.(password := value)
    case "role" => f.(role := value)
    case _ => f
  }

  /** `handleRoleChange`: switching tabs sets the role and clears what was
      typed, so nothing typed for one role is submitted for another. */
  function RoleChange(f: LoginForm, role: string): (r: LoginForm)
    ensures r.role == role && r.identifier == "" && r.password == ""
    ensures r == InitialForm.(role := role)
  {
    LoginForm("", "", role)
  }

  // ---------------------------------------------------------------------
  // The e-mail pattern

  /** Every character is in `\S`. */
  predicate NoWhitespace(s: string) {
    forall k :: 0 <= k < |s| ==> !IsWhitespace(s[k])
  }

  /** `/^\S+@\S+\.\S+$/.test(s)`: the whole string is a non-empty run of
      non-space characters, an '@', another such run, a '.', and a third
      run. */
  ghost predicate EmailPattern(s: string) {
    exists i, j :: 0 < i && i + 1 < j && j + 1 < |s| && s[i] == '@' && s[j] == '.'
      && NoWhitespace(s[..i]) && NoWhitespace(s[i + 1..j]) && NoWhitespace(s[j + 1..])
  }

  /** The index of the first `c` in `s` at or after `from`. */
  function FindFrom(s: string, c: char, from: nat): (r: Option<nat>)
    decreases |s| - from
    ensures r.Some? ==> from <= r.value < |s| && s[r.value] == c
    ensures r.Some? ==> forall k :: from <= k < r.value ==> s[k] != c
    ensures r.None? ==> forall k :: from <= k < |s| ==> s[k] != c
  {
    if from >= |s| then None
    else if s[from] == c then Some(from)
    else FindFrom(s, c, from + 1)
  }

  /** A single left-to-right reading of the pattern: no whitespace, the
      first '@' after the first character, and a '.' at least two places
      after it that is not the last character. */
  predicate EmailShaped(s: string) {
    && NoWhitespace(s)
    && var at := FindFrom(s, '@', 1);
    && at.Some?
    && var dot := FindFrom(s, '.', at.value + 2);
    && dot.Some? && dot.value + 1 < |s|
  }

  /** A string the scan accepts matches the pattern. */
  lemma EmailShapedMatches(s: string)
    requires EmailShaped(s)
    ensures EmailPattern(s)
  {
    var i := FindFrom(s, '@', 1).value;
    var j := FindFrom(s, '.', i + 2).value;
    assert NoWhitespace(s[..i]) && NoWhitespace(s[i + 1..j]) && NoWhitespace(s[j + 1..]);
  }

  /** The three runs of a match, with the '@' and the '.', cover the string,
      so it has no whitespace anywhere. */
  lemma MatchHasNoWhitespace(s: string, i: nat, j: nat)
    requires 0 < i && i + 1 < j && j + 1 < |s| && s[i] == '@' && s[j] == '.'
    requires NoWhitespace(s[..i]) && NoWhitespace(s[i + 1..j]) && NoWhitespace(s[j + 1..])
    ensures NoWhitespace(s)
  {
    forall k | 0 <= k < |s| ensures !IsWhitespace(s[k]) {
      if k < i {
        assert s[k] == s[..i][k];
      } else if i < k < j {
        assert s[k] == s[i + 1..j][k - i - 1];
      } else if j < k {
        assert s[k] == s[j + 1..][k - j - 1];
      }
    }
  }

  /** A string the pattern matches passes the scan: the first '@' comes no
      later than the matched one, and a '.' follows it early enough. */
  lemma MatchIsEmailShaped(s: string)
    requires EmailPattern(s)
    ensures EmailShaped(s)
  {
    var i, j :| 0 < i && i + 1 < j && j + 1 < |s| && s[i] == '@' && s[j] == '.'
      && NoWhitespace(s[..i]) && NoWhitespace(s[i + 1..j]) && NoWhitespace(s[j + 1..]);
    MatchHasNoWhitespace(s, i, j);
    var at := FindFrom(s, '@', 1);
    assert at.Some? && at.value <= i;
    var dot := FindFrom(s, '.', at.value + 2);
    assert dot.Some? && dot.value <= j;
  }

  /** The scan accepts exactly the strings the regular expression matches. */
  lemma EmailShapedIff(s: string)
    ensures EmailShaped(s) <==> EmailPattern(s)
  {
    if EmailShaped(s) {
      EmailShapedMatches(s);
    }
    if EmailPattern(s) {
      MatchIsEmailShaped(s);
    }
  }

  /** An address without a '.' or with a space somewhere never matches:
      "user@mail" and "a b@c.d" are both refused. */
  lemma NonMatches(s: string, k: nat)
    requires (k < |s| && IsWhitespace(s[k])) || (forall m :: 0 <= m < |s| ==> s[m] != '.')
    ensures !EmailPattern(s)
  {
    if EmailPattern(s) {
      var i, j :| 0 < i && i + 1 < j && j + 1 < |s| && s[i] == '@' && s[j] == '.'
        && NoWhitespace(s[..i]) && NoWhitespace(s[i + 1..j]) && NoWhitespace(s[j + 1..]);
      MatchHasNoWhitespace(s, i, j);
    }
  }

  // ---------------------------------------------------------------------
  // Validation

  const StudentRole := "student"

  /** The toast of the first failing check of `validateForm`, or None when
      the form may be sent. */
  function ValidateForm(f: LoginForm): (r: Option<string>)
    ensures r.None? <==>
      f.identifier != "" && f.password != "" && (f.role != StudentRole ==> EmailPattern(f.identifier))
    ensures f.identifier == "" ==>
      r == Some(if f.role == StudentRole then "Admission number is required" else "Email is required")
    ensures f.identifier != "" && f.password == "" ==> r == Some("Password is required")
    ensures f.identifier != "" && f.password != "" && r.Some? ==>
      f.role != StudentRole && !EmailPattern(f.identifier) && r == Some("Please enter a valid email address")
  {
    EmailShapedIff(f.identifier);
    if f.identifier == "" then
      Some(if f.role == StudentRole then "Admission number is required" else "Email is required")
    else if f.password == "" then Some("Password is required")
    else if f.role != StudentRole && !EmailShaped(f.identifier) then Some("Please enter a valid email address")
    else None
  }

  /** A student's identifier is an admission number and is never checked
      for shape: any non-empty one with a password passes. */
  lemma StudentIdentifierNotChecked(f: LoginForm)
    requires f.role == StudentRole && f.identifier != "" && f.password != ""
    ensures ValidateForm(f) == None
  {
  }

  /** A fresh tab never validates: the cleared identifier is reported first,
      with the message for that role. */
  lemma RoleChangeThenSubmit(f: LoginForm, role: string)
    ensures ValidateForm(RoleChange(f, role)).Some?
    ensures ValidateForm(RoleChange(f, role)) ==
      Some(if role == StudentRole then "Admission number is required" else "Email is required")
  {
  }

  // ---------------------------------------------------------------------
  // After the server's answer

  /** `navigate(...)` in the role switch. */
  function RouteFor(role: string): string {
    match role
    case "admin" => "/admin"
    case "teacher" => "/teacher/dashboard"
    case "student" => "/student/dashboard"
    case _ => "/"
  }

  /** The three known roles get three different dashboards, and every other
      role goes to the landing page. */
  lemma RouteForSpec(role: string)
    ensures RouteFor(role) != "/" <==> role in {"admin", "teacher", "student"}
    ensures role == "admin" ==> RouteFor(role) == "/admin"
    ensures role == "teacher" ==> RouteFor(role) == "/teacher/dashboard"
    ensures role == "student" ==> RouteFor(role) == "/student/dashboard"
  {
  }

  /** What the login request gives back: a token, or an error whose body
      may carry a message. */
  datatype AuthReply = Authenticated(token: string) | Rejected(message: Option<string>)

  /** How a submit ends: stopped by validation, a failed login with its
      toast, or a stored token and a route. */
  datatype SubmitOutcome = Invalid(toast: string) | LoginFailed(toast: string) | LoggedIn(token: string, route: string)

  /** `handleSubmit`: validation first, then the request; a rejected login
      shows the server's message or the generic one. */
  function Submit(f: LoginForm, reply: AuthReply): (r: SubmitOutcome)
    ensures ValidateForm(f).Some? <==> r.Invalid?
    ensures r.Invalid? ==> r.toast == ValidateForm(f).value
    ensures r.LoggedIn? <==> ValidateForm(f).None? && reply.Authenticated?
    ensures r.LoggedIn? ==> r.token == reply.token && r.route == RouteFor(f.role)
    ensures r.LoginFailed? ==> r.toast == OrElse(reply.message, "Login failed. Please try again.")
  {
    var v := ValidateForm(f);
    if v.Some? then Invalid(v.value)
    else match reply
      case Authenticated(token) => LoggedIn(token, RouteFor(f.role))
      case Rejected(message) => LoginFailed(OrElse(message, "Login failed. Please try again."))
  }
}
