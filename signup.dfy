/** The school registration form: `validateStep1`, which collects an error
    for every missing required field at once, and the submit handler that
    only calls the registration service for a valid form. */
module Signup {
  import opened Js

  datatype SchoolData = SchoolData(
    name: string, code: string, motto: string, schoolType: string, category: string,
    address: string, county: string, subCounty: string, ward: string, phone: string,
    email: string, website: string, principalName: string, principalPhone: string)

  datatype AdminData = AdminData(
    username: string, password: string, confirmPassword: string, email: string,
    phone: string, firstName: string, lastName: string, gender: string, idNumber: string)

  /** The properties `validateStep1` can set on its error object. */
  datatype ErrorKey =
    | SchoolName | SchoolCode | Address | County | Phone
    | Username | Password | ConfirmPassword | Email | FirstName | LastName | IdNumber

  /** The property name of each key. */
  function KeyName(k: ErrorKey): string {
    match k
    case SchoolName => "schoolName"
    case SchoolCode => "schoolCode"
    case Address => "address"
    case County => "county"
    case Phone => "phone"
    case Username => "username"
    case Password => "password"
    case ConfirmPassword => "confirmPassword"
    case Email => "email"
    case FirstName => "first_name"
    case LastName => "last_name"
    case IdNumber => "id_number"
  }

  /** The error object: one optional message per property, absent until
      its check fails. */
  datatype Errors = Errors(
    schoolName: Option<string>, schoolCode: Option<string>, address: Option<string>,
    county: Option<string>, phone: Option<string>, username: Option<string>,
    password: Option<string>, confirmPassword: Option<string>, email: Option<string>,
    firstName: Option<string>, lastName: Option<string>, idNumber: Option<string>)

  /** `{}`. */
  const NoErrors := Errors(None, None, None, None, None, None, None, None, None, None, None, None)

  /** `newErrors[KeyName(k)]`. */
  function ErrorAt(e: Errors, k: ErrorKey): Option<string> {
    match k
    case SchoolName => e.schoolName
    case SchoolCode => e.schoolCode
    case Address => e.address
    case County => e.county
    case Phone => e.phone
    case Username => e.username
    case Password => e.password
    case ConfirmPassword => e.confirmPassword
    case Email => e.email
    case FirstName => e.firstName
    case LastName => e.lastName
    case IdNumber => e.idNumber
  }

  /** `Object.keys(e).length === 0`. */
  predicate NoKeys(e: Errors) {
    forall k :: ErrorAt(e, k).None?
  }

  lemma NoKeysIff(e: Errors)
    ensures NoKeys(e) <==> e == NoErrors
  {
    if NoKeys(e) {
      assert ErrorAt(e, SchoolName).None? && ErrorAt(e, SchoolCode).None? && ErrorAt(e, Address).None?;
      assert ErrorAt(e, County).None? && ErrorAt(e, Phone).None? && ErrorAt(e, Username).None?;
      assert ErrorAt(e, Password).None? && ErrorAt(e, ConfirmPassword).None? && ErrorAt(e, Email).None?;
      assert ErrorAt(e, FirstName).None? && ErrorAt(e, LastName).None? && ErrorAt(e, IdNumber).None?;
    }
  }

  /** When the check behind each error key fails. */
  predicate Fails(k: ErrorKey, s: SchoolData, a: AdminData) {
    match k
    case SchoolName => s.name == ""
    case SchoolCode => s.code == ""
    case Address => s.address == ""
    case County => s.county == ""
    case Phone => s.phone == ""
    case Username => a.username == ""
    case Password => a.password == ""
    case ConfirmPassword => a.password != a.confirmPassword
    case Email => a.email == ""
    case FirstName => a.firstName == ""
    case LastName => a.lastName == ""
    case IdNumber => a.idNumber == ""
  }

  function Message(k: ErrorKey): string {
    match k
    case SchoolName => "School name is required"
    case SchoolCode => "School code is required"
    case Address => "Address is required"
    case County => "County is required"
    case Phone => "Phone number is required"
    case Username => "Username is required"
    case Password => "Password is required"
    case ConfirmPassword => "Passwords must match"
    case Email => "Email is required"
    case FirstName => "First name is required"
    case LastName => "Last name is required"
    case IdNumber => "ID number is required"
  }

  /** A key's entry: its message exactly when its check fails. */
  function Entry(k: ErrorKey, s: SchoolData, a: AdminData): Option<string> {
    if Fails(k, s, a) then Some(Message(k)) else None
  }

  /** The errors of step 1: every failing check's message, all of them
      together, and nothing for a check that passes. */
  function StepOneErrors(s: SchoolData, a: AdminData): (e: Errors)
    ensures forall k :: ErrorAt(e, k) == Entry(k, s, a)
  {
    Errors(Entry(SchoolName, s, a), Entry(SchoolCode, s, a), Entry(Address, s, a), Entry(County, s, a),
      Entry(Phone, s, a), Entry(Username, s, a), Entry(Password, s, a), Entry(ConfirmPassword, s, a),
      Entry(Email, s, a), Entry(FirstName, s, a), Entry(LastName, s, a), Entry(IdNumber, s, a))
  }

  /** The form passes iff every required field is filled and the passwords
      agree. */
  predicate StepOneValid(s: SchoolData, a: AdminData) {
    && s.name != "" && s.code != "" && s.address != "" && s.county != "" && s.phone != ""
    && a.username != "" && a.password != "" && a.password == a.confirmPassword
    && a.email != "" && a.firstName != "" && a.lastName != "" && a.idNumber != ""
  }

  /** No error is set exactly when the form is valid. */
  lemma StepOneErrorsEmptyIff(s: SchoolData, a: AdminData)
    ensures NoKeys(StepOneErrors(s, a)) <==> StepOneValid(s, a)
  {
    var e := StepOneErrors(s, a);
    if NoKeys(e) {
      assert !Fails(SchoolName, s, a) && !Fails(SchoolCode, s, a) && !Fails(Address, s, a);
      assert !Fails(County, s, a) && !Fails(Phone, s, a) && !Fails(Username, s, a);
      assert !Fails(Password, s, a) && !Fails(ConfirmPassword, s, a) && !Fails(Email, s, a);
      assert !Fails(FirstName, s, a) && !Fails(LastName, s, a) && !Fails(IdNumber, s, a);
    } else {
      var k :| ErrorAt(e, k).Some?;
      assert Entry(k, s, a).Some?;
    }
  }

  /** The confirm-password error is there iff the two passwords differ,
      whatever else is missing. */
  lemma ConfirmPasswordError(s: SchoolData, a: AdminData)
    ensures StepOneErrors(s, a).confirmPassword.Some? <==> a.password != a.confirmPassword
  {
    assert ErrorAt(StepOneErrors(s, a), ConfirmPassword) == StepOneErrors(s, a).confirmPassword;
  }

  /** Errors are collected rather than cut short at the first: a form
      missing the school name, the code, the username and the ID number
      gets all four errors. */
  lemma AllMissingReported(s: SchoolData, a: AdminData)
    requires s.name == "" && s.code == "" && a.username == "" && a.idNumber == ""
    ensures var e := StepOneErrors(s, a);
      e.schoolName == Some(Message(SchoolName)) && e.schoolCode == Some(Message(SchoolCode))
      && e.username == Some(Message(Username)) && e.idNumber == Some(Message(IdNumber))
  {
    var e := StepOneErrors(s, a);
    assert ErrorAt(e, SchoolName) == e.schoolName && ErrorAt(e, SchoolCode) == e.schoolCode;
    assert ErrorAt(e, Username) == e.username && ErrorAt(e, IdNumber) == e.idNumber;
  }

  /** Motto, sub-county, ward, school e-mail, website, type, category,
      principal, admin phone and gender play no part in validation. */
  lemma UncheckedFieldsIgnored(s: SchoolData, a: AdminData, s2: SchoolData, a2: AdminData)
    requires s2 == s.(motto := s2.motto, subCounty := s2.subCounty, ward := s2.ward, email := s2.email,
                      website := s2.website, schoolType := s2.schoolType, category := s2.category,
                      principalName := s2.principalName, principalPhone := s2.principalPhone)
    requires a2 == a.(phone := a2.phone, gender := a2.gender)
    ensures StepOneErrors(s, a) == StepOneErrors(s2, a2)
  {
    assert forall k :: Fails(k, s, a) == Fails(k, s2, a2);
  }

  // ---------------------------------------------------------------------
  // The registration call

  /** What the registration request comes back with: it throws, or answers
      with `success`. */
  datatype CallResult = Threw | Answered(success: bool)

  /** The call as the file is written: `registerSchoolAndAdmin` is neither
      declared nor imported in Signup.jsx, so evaluating it throws a
      ReferenceError whatever the server would have said. This only binds
      the call; the property is `AsWrittenStaysOnStepOne`. */
  function RegisterAsWritten(server: CallResult): (r: CallResult)
    ensures r == Threw
  {
    Threw
  }

  /** The call as intended: the server's answer. This only binds the call;
      the property is `RegisterReachesStepTwo`. */
  function Register(server: CallResult): (r: CallResult)
    ensures r == server
  {
    server
  }

  /** The wizard step after a submit whose registration call gave `call`. */
  function StepAfter(step: int, valid: bool, call: CallResult): int {
    if valid && call == Answered(true) then 2 else step
  }

  /** As written, a submit never leaves step 1, even for a valid form the
      server accepts. */
  lemma AsWrittenStaysOnStepOne(s: SchoolData, a: AdminData, server: CallResult)
    ensures StepAfter(1, NoKeys(StepOneErrors(s, a)), RegisterAsWritten(server)) == 1
  {
  }

  /** With the call bound, a valid form the server accepts moves to step 2,
      and nothing else does. */
  lemma RegisterReachesStepTwo(s: SchoolData, a: AdminData, server: CallResult)
    ensures StepAfter(1, NoKeys(StepOneErrors(s, a)), Register(server)) == 2
      <==> StepOneValid(s, a) && server == Answered(true)
  {
    StepOneErrorsEmptyIff(s, a);
  }

  class Registration {
    var step: int
    var school: SchoolData
    var admin: AdminData
    var errors: Errors
    var isSubmitting: bool

    constructor(s: SchoolData, a: AdminData)
      ensures step == 1 && school == s && admin == a && errors == NoErrors && !isSubmitting
    {
      step := 1;
      school := s;
      admin := a;
      errors := NoErrors;
      isSubmitting := false;
    }

    /** The statements of `validateStep1` come in three groups, in source
        order: the school checks, the admin account checks and the admin's
        details; each group is a method of its own to keep its proof small.
        The school checks start the new error object. */
    method CheckSchoolFields() returns (e: Errors)
      ensures e == NoErrors.(schoolName := Entry(SchoolName, school, admin),
        schoolCode := Entry(SchoolCode, school, admin), address := Entry(Address, school, admin),
        county := Entry(County, school, admin), phone := Entry(Phone, school, admin))
    {
      var s := school;
      e := NoErrors;
      if s.name == "" { e := e.(schoolName := Some("School name is required")); }
      if s.code == "" { e := e.(schoolCode := Some("School code is required")); }
      if s.address == "" { e := e.(address := Some("Address is required")); }
      if s.county == "" { e := e.(county := Some("County is required")); }
      if s.phone == "" { e := e.(phone := Some("Phone number is required")); }
    }

    /** The admin account checks, adding to `e0`. */
    method CheckAdminAccount(e0: Errors) returns (e: Errors)
      requires e0.username.None? && e0.password.None? && e0.confirmPassword.None?
      ensures e == e0.(username := Entry(Username, school, admin), password := Entry(Password, school, admin),
        confirmPassword := Entry(ConfirmPassword, school, admin))
    {
      var a := admin;
      e := e0;
      if a.username == "" { e := e.(username := Some("Username is required")); }
      if a.password == "" { e := e.(password := Some("Password is required")); }
      if a.password != a.confirmPassword { e := e.(confirmPassword := Some("Passwords must match")); }
    }

    /** The admin's personal details checks, adding to `e0`. */
    method CheckAdminDetails(e0: Errors) returns (e: Errors)
      requires e0.email.None? && e0.firstName.None? && e0.lastName.None? && e0.idNumber.None?
      ensures e == e0.(email := Entry(Email, school, admin), firstName := Entry(FirstName, school, admin),
        lastName := Entry(LastName, school, admin), idNumber := Entry(IdNumber, school, admin))
    {
      var a := admin;
      e := e0;
      if a.email == "" { e := e.(email := Some("Email is required")); }
      if a.firstName == "" { e := e.(firstName := Some("First name is required")); }
      if a.lastName == "" { e := e.(lastName := Some("Last name is required")); }
      if a.idNumber == "" { e := e.(idNumber := Some("ID number is required")); }
    }

    /** `validateStep1`: builds the error object check by check, stores it
        and reports whether it stayed empty. */
    method ValidateStepOne() returns (ok: bool)
      modifies this
      ensures errors == StepOneErrors(school, admin)
      ensures ok <==> NoKeys(errors)
      ensures step == old(step) && school == old(school) && admin == old(admin)
      ensures isSubmitting == old(isSubmitting)
    {
      var e := CheckSchoolFields();
      e := CheckAdminAccount(e);
      e := CheckAdminDetails(e);
      errors := e;
      NoKeysIff(e);
      ok := e == NoErrors;
    }

    /** `handleSubmit` with the registration call bound: an invalid form
        returns before any call; otherwise the call is made and a successful
        answer moves the wizard to step 2. */
    method HandleSubmit(server: CallResult) returns (called: bool)
      modifies this
      ensures errors == StepOneErrors(old(school), old(admin))
      ensures called <==> StepOneValid(old(school), old(admin))
      ensures step == StepAfter(old(step), called, Register(server))
      ensures called ==> !isSubmitting
      ensures !called ==> isSubmitting == old(isSubmitting)
      ensures school == old(school) && admin == old(admin)
    {
      var ok := ValidateStepOne();
      StepOneErrorsEmptyIff(school, admin);
      if !ok {
        return false;
      }
      called := true;
      isSubmitting := true;
      var response := Register(server);
      if response == Answered(true) {
        step := 2;
      }
      isSubmitting := false;
    }
  }
}
