/** The school settings screen: the class and subject lists kept in the
    component's state and changed by the add / update / delete handlers once
    the server has answered, the routing of form inputs to the record being
    edited or the new one, and the mapping of the loaded school and settings
    rows onto the two settings forms with their fallbacks. */
module SchoolSettings {
  import opened Js
  import opened Seqs

  // ---------------------------------------------------------------------
  // Records

  /** The editable part of a class: the `newClass` form and, with an id, a
      class of the list. */
  datatype ClassFields = ClassFields(name: string, stream: string, classTeacherId: string)
  datatype SchoolClass = SchoolClass(id: Id, fields: ClassFields)

  datatype SubjectFields = SubjectFields(name: string, code: string, category: string, isExaminable: bool)
  datatype Subject = Subject(id: Id, fields: SubjectFields)

  const EmptyClass := ClassFields("", "", "")
  const EmptySubject := SubjectFields("", "", "Compulsory", true)

  function ClassId(c: SchoolClass): Id { c.id }
  function SubjectId(s: Subject): Id { s.id }

  /** `!c.name || !c.stream` negated: the guard of both class handlers. */
  predicate ClassComplete(c: ClassFields) { c.name != "" && c.stream != "" }

  /** The guard of both subject handlers. */
  predicate SubjectComplete(s: SubjectFields) { s.name != "" && s.code != "" }

  // ---------------------------------------------------------------------
  // List updates, shared by classes and subjects

  function ReplaceIfSame<T>(idOf: T -> Id, updated: T): T -> T {
    (x: T) => if idOf(x) == idOf(updated) then updated else x
  }

  /** `xs.map(x => x.id === updated.id ? updated : x)`. */
  function ReplaceById<T>(xs: seq<T>, idOf: T -> Id, updated: T): seq<T> {
    Map(xs, ReplaceIfSame(idOf, updated))
  }

  /** An update keeps the length and every id, puts the edited record at
      each index holding its id and leaves every other entry as it was; a
      list without that id is unchanged. */
  lemma ReplaceByIdSpec<T>(xs: seq<T>, idOf: T -> Id, updated: T)
    ensures var r := ReplaceById(xs, idOf, updated);
      && |r| == |xs|
      && (forall i :: 0 <= i < |xs| ==> idOf(r[i]) == idOf(xs[i]))
      && (forall i :: 0 <= i < |xs| && idOf(xs[i]) == idOf(updated) ==> r[i] == updated)
      && (forall i :: 0 <= i < |xs| && idOf(xs[i]) != idOf(updated) ==> r[i] == xs[i])
      && ((forall i :: 0 <= i < |xs| ==> idOf(xs[i]) != idOf(updated)) ==> r == xs)
  {
    var r := ReplaceById(xs, idOf, updated);
    assert forall i :: 0 <= i < |xs| ==> r[i] == ReplaceIfSame(idOf, updated)(xs[i]);
  }

  function OtherId<T>(idOf: T -> Id, id: Id): T -> bool {
    (x: T) => idOf(x) != id
  }

  /** `xs.filter(x => x.id !== id)`. */
  function WithoutId<T>(xs: seq<T>, idOf: T -> Id, id: Id): seq<T> {
    Filter(xs, OtherId(idOf, id))
  }

  /** A delete keeps exactly the entries whose id differs, in their order;
      a list without that id is unchanged. */
  lemma WithoutIdSpec<T>(xs: seq<T>, idOf: T -> Id, id: Id)
    ensures IsSubsequence(WithoutId(xs, idOf, id), xs)
    ensures forall x :: x in WithoutId(xs, idOf, id) <==> x in xs && idOf(x) != id
    ensures (forall i :: 0 <= i < |xs| ==> idOf(xs[i]) != id) ==> WithoutId(xs, idOf, id) == xs
  {
    FilterIsSubsequence(xs, OtherId(idOf, id));
    FilterMembers(xs, OtherId(idOf, id));
    if forall i :: 0 <= i < |xs| ==> idOf(xs[i]) != id {
      FilterKeepsAll(xs, OtherId(idOf, id));
    }
  }

  // ---------------------------------------------------------------------
  // Form inputs

  datatype InputValue = Text(text: string) | Checked(on: bool)

  /** `type === 'checkbox' ? checked : value`. */
  function InputValueOf(kind: string, value: string, checked: bool): (v: InputValue)
    ensures v.Checked? <==> kind == "checkbox"
    ensures v.Checked? ==> v.on == checked
    ensures v.Text? ==> v.text == value
  {
    if kind == "checkbox" then Checked(checked) else Text(value)
  }

  /** `{ ...c, [name]: value }` on a class form. */
  function SetClassField(c: ClassFields, name: string, value: string): (r: ClassFields)
    ensures name == "name" ==> r == c.(name := value)
    ensures name == "stream" ==> r == c.(stream := value)
    ensures name == "class_teacher_id" ==> r == c.(classTeacherId := value)
    ensures name !in {"name", "stream", "class_teacher_id"} ==> r == c
  {
    match name
    case "name" => c.(name := value)
    case "stream" => c.(stream := value)
    case "class_teacher_id" => c.(classTeacherId := value)
    case _ => c
  }

  /** `{ ...s, [name]: inputValue }` on a subject form: text for the three
      text inputs, the checkbox state for `is_examinable`. */
  function SetSubjectField(s: SubjectFields, name: string, v: InputValue): (r: SubjectFields)
    ensures name == "name" && v.Text? ==> r == s.(name := v.text)
    ensures name == "code" && v.Text? ==> r == s.(code := v.text)
    ensures name == "category" && v.Text? ==> r == s.(category := v.text)
    ensures name == "is_examinable" && v.Checked? ==> r == s.(isExaminable := v.on)
    ensures name !in {"name", "code", "category", "is_examinable"} ==> r == s
  {
    match (name, v)
    case ("name", Text(t)) => s.(name := t)
    case ("code", Text(t)) => s.(code := t)
    case ("category", Text(t)) => s.(category := t)
    case ("is_examinable", Checked(b)) => s.(isExaminable := b)
    case _ => s
  }

  // ---------------------------------------------------------------------
  // The component's class and subject state

  class SettingsLists {
    var classes: seq<SchoolClass>
    var subjects: seq<Subject>
    var newClass: ClassFields
    var newSubject: SubjectFields
    var editingClass: Option<SchoolClass>
    var editingSubject: Option<Subject>

    /** The state once the school's classes and subjects are loaded. */
    constructor(loadedClasses: seq<SchoolClass>, loadedSubjects: seq<Subject>)
      ensures classes == loadedClasses && subjects == loadedSubjects
      ensures newClass == EmptyClass && newSubject == EmptySubject
      ensures editingClass == None && editingSubject == None
    {
      classes := loadedClasses;
      subjects := loadedSubjects;
      newClass := EmptyClass;
      newSubject := EmptySubject;
      editingClass := None;
      editingSubject := None;
    }

    /** `handleClassInputChange`: the input goes to the class being edited
        when there is one, and to the new-class form otherwise. */
    method ChangeClassInput(name: string, value: string)
      modifies this
      ensures old(editingClass).Some? ==>
        editingClass == Some(old(editingClass).value.(fields := SetClassField(old(editingClass).value.fields, name, value)))
        && newClass == old(newClass)
      ensures old(editingClass).None? ==> newClass == SetClassField(old(newClass), name, value) && editingClass == None
      ensures classes == old(classes) && subjects == old(subjects)
      ensures newSubject == old(newSubject) && editingSubject == old(editingSubject)
    {
      if editingClass.Some? {
        var c := editingClass.value;
        editingClass := Some(c.(fields := SetClassField(c.fields, name, value)));
      } else {
        newClass := SetClassField(newClass, name, value);
      }
    }

    /** `handleSubjectInputChange`, with the checkbox rule for the value. */
    method ChangeSubjectInput(name: string, kind: string, value: string, checked: bool)
      modifies this
      ensures var v := InputValueOf(kind, value, checked);
        && (old(editingSubject).Some? ==>
              editingSubject == Some(old(editingSubject).value.(fields := SetSubjectField(old(editingSubject).value.fields, name, v)))
              && newSubject == old(newSubject))
        && (old(editingSubject).None? ==> newSubject == SetSubjectField(old(newSubject), name, v) && editingSubject == None)
      ensures classes == old(classes) && subjects == old(subjects)
      ensures newClass == old(newClass) && editingClass == old(editingClass)
    {
      var v := InputValueOf(kind, value, checked);
      if editingSubject.Some? {
        var s := editingSubject.value;
        editingSubject := Some(s.(fields := SetSubjectField(s.fields, name, v)));
      } else {
        newSubject := SetSubjectField(newSubject, name, v);
      }
    }

    /** `handleAddClass`: an incomplete form changes nothing; otherwise,
        once the server answered with the stored `record`, it is appended
        and the form is cleared. A failed request keeps list and form. */
    method AddClass(record: SchoolClass, ok: bool)
      modifies this
      ensures ClassComplete(old(newClass)) && ok ==>
        classes == old(classes) + [record] && newClass == EmptyClass
      ensures !(ClassComplete(old(newClass)) && ok) ==> classes == old(classes) && newClass == old(newClass)
      ensures subjects == old(subjects) && newSubject == old(newSubject)
      ensures editingClass == old(editingClass) && editingSubject == old(editingSubject)
    {
      if !ClassComplete(newClass) {
        return;
      }
      if ok {
        classes := classes + [record];
        newClass := EmptyClass;
      }
    }

    /** `handleUpdateClass`: without a complete class under edit nothing
        changes; otherwise a successful request replaces the entries with
        its id by the edited class and closes the editor. */
    method UpdateClass(ok: bool)
      modifies this
      ensures old(editingClass).Some? && ClassComplete(old(editingClass).value.fields) && ok ==>
        classes == ReplaceById(old(classes), ClassId, old(editingClass).value) && editingClass == None
      ensures !(old(editingClass).Some? && ClassComplete(old(editingClass).value.fields) && ok) ==>
        classes == old(classes) && editingClass == old(editingClass)
      ensures subjects == old(subjects) && newClass == old(newClass)
      ensures newSubject == old(newSubject) && editingSubject == old(editingSubject)
    {
      if editingClass.None? || !ClassComplete(editingClass.value.fields) {
        return;
      }
      if ok {
        classes := ReplaceById(classes, ClassId, editingClass.value);
        editingClass := None;
      }
    }

    /** `handleDeleteClass`: no guard; a successful request drops every
        class with the id. */
    method DeleteClass(id: Id, ok: bool)
      modifies this
      ensures ok ==> classes == WithoutId(old(classes), ClassId, id)
      ensures !ok ==> classes == old(classes)
      ensures subjects == old(subjects) && newClass == old(newClass) && newSubject == old(newSubject)
      ensures editingClass == old(editingClass) && editingSubject == old(editingSubject)
    {
      if ok {
        classes := WithoutId(classes, ClassId, id);
      }
    }

    /** `handleAddSubject`: as for classes, with name and code required; the
        form is reset to an examinable compulsory subject. */
    method AddSubject(record: Subject, ok: bool)
      modifies this
      ensures SubjectComplete(old(newSubject)) && ok ==>
        subjects == old(subjects) + [record] && newSubject == EmptySubject
      ensures !(SubjectComplete(old(newSubject)) && ok) ==> subjects == old(subjects) && newSubject == old(newSubject)
      ensures classes == old(classes) && newClass == old(newClass)
      ensures editingClass == old(editingClass) && editingSubject == old(editingSubject)
    {
      if !SubjectComplete(newSubject) {
        return;
      }
      if ok {
        subjects := subjects + [record];
        newSubject := EmptySubject;
      }
    }

    /** `handleUpdateSubject`. */
    method UpdateSubject(ok: bool)
      modifies this
      ensures old(editingSubject).Some? && SubjectComplete(old(editingSubject).value.fields) && ok ==>
        subjects == ReplaceById(old(subjects), SubjectId, old(editingSubject).value) && editingSubject == None
      ensures !(old(editingSubject).Some? && SubjectComplete(old(editingSubject).value.fields) && ok) ==>
        subjects == old(subjects) && editingSubject == old(editingSubject)
      ensures classes == old(classes) && newClass == old(newClass)
      ensures newSubject == old(newSubject) && editingClass == old(editingClass)
    {
      if editingSubject.None? || !SubjectComplete(editingSubject.value.fields) {
        return;
      }
      if ok {
        subjects := ReplaceById(subjects, SubjectId, editingSubject.value);
        editingSubject := None;
      }
    }

    /** `handleDeleteSubject`. */
    method DeleteSubject(id: Id, ok: bool)
      modifies this
      ensures ok ==> subjects == WithoutId(old(subjects), SubjectId, id)
      ensures !ok ==> subjects == old(subjects)
      ensures classes == old(classes) && newClass == old(newClass) && newSubject == old(newSubject)
      ensures editingClass == old(editingClass) && editingSubject == old(editingSubject)
    {
      if ok {
        subjects := WithoutId(subjects, SubjectId, id);
      }
    }
  }

  /** Editing a class and saving it changes only that class: the list keeps
      its length and ids, and the other classes are untouched. */
  lemma UpdateClassKeepsOthers(classes: seq<SchoolClass>, edited: SchoolClass, i: nat)
    requires i < |classes| && classes[i].id != edited.id
    ensures |ReplaceById(classes, ClassId, edited)| == |classes|
    ensures ReplaceById(classes, ClassId, edited)[i] == classes[i]
  {
    ReplaceByIdSpec(classes, ClassId, edited);
  }

  // ---------------------------------------------------------------------
  // Loading the settings forms

  /** A row of the `schools` table as the API returns it; absent or null
      columns are None. */
  datatype SchoolRecord = SchoolRecord(
    name: Option<string>, code: Option<string>, motto: Option<string>,
    schoolType: Option<string>, category: Option<string>, address: Option<string>,
    county: Option<string>, subCounty: Option<string>, ward: Option<string>,
    phone: Option<string>, email: Option<string>, website: Option<string>,
    principalName: Option<string>, principalPhone: Option<string>)

  datatype SchoolInfo = SchoolInfo(
    name: string, code: string, motto: string, schoolType: string, category: string,
    address: string, county: string, subCounty: string, ward: string, phone: string,
    email: string, website: string, principalName: string, principalPhone: string)

  const NoSchool := SchoolRecord(None, None, None, None, None, None, None, None, None, None, None, None, None, None)

  /** The form's state before anything is loaded. */
  const InitialSchoolInfo := SchoolInfo("", "", "", "National", "Mixed", "", "", "", "", "", "", "", "", "")

  /** `response.data.school?.[0] || {}`. */
  function FirstSchool(school: Option<seq<SchoolRecord>>): SchoolRecord {
    if school.Some? && |school.value| > 0 then school.value[0] else NoSchool
  }

  /** The `schoolInfo` form built from the first school row: every column
      `|| ''`, the type `|| 'National'` and the category `|| 'Mixed'`. */
  function LoadSchoolInfo(school: Option<seq<SchoolRecord>>): SchoolInfo {
    var s := FirstSchool(school);
    SchoolInfo(
      OrElse(s.name, ""), OrElse(s.code, ""), OrElse(s.motto, ""),
      OrElse(s.schoolType, "National"), OrElse(s.category, "Mixed"),
      OrElse(s.address, ""), OrElse(s.county, ""), OrElse(s.subCounty, ""),
      OrElse(s.ward, ""), OrElse(s.phone, ""), OrElse(s.email, ""),
      OrElse(s.website, ""), OrElse(s.principalName, ""), OrElse(s.principalPhone, ""))
  }

  /** The row the server stores when the form is saved. */
  function SavedSchool(f: SchoolInfo): SchoolRecord {
    SchoolRecord(
      Some(f.name), Some(f.code), Some(f.motto), Some(f.schoolType), Some(f.category),
      Some(f.address), Some(f.county), Some(f.subCounty), Some(f.ward), Some(f.phone),
      Some(f.email), Some(f.website), Some(f.principalName), Some(f.principalPhone))
  }

  /** Without a school row the form loads exactly as it was initialised. */
  lemma NoSchoolLoadsInitialForm(school: Option<seq<SchoolRecord>>)
    requires school.None? || school == Some([])
    ensures LoadSchoolInfo(school) == InitialSchoolInfo
  {
  }

  /** Saving the form and loading it again gives the form back, except that
      an emptied type or category comes back as 'National' / 'Mixed'; a
      second round trip changes nothing. */
  lemma SchoolInfoRoundTrip(f: SchoolInfo, rest: seq<SchoolRecord>)
    ensures var g := LoadSchoolInfo(Some([SavedSchool(f)] + rest));
      && g == f.(schoolType := if f.schoolType == "" then "National" else f.schoolType,
                 category := if f.category == "" then "Mixed" else f.category)
      && LoadSchoolInfo(Some([SavedSchool(g)])) == g
  {
  }

  /** The `settings` row; dates come as ISO date-times, the percentages and
      the penalty as decimal strings. */
  datatype SettingsRecord = SettingsRecord(
    academicYearStart: Option<string>, academicYearEnd: Option<string>, currentTerm: Option<string>,
    termStartDate: Option<string>, termEndDate: Option<string>,
    examPercentage: Option<string>, catPercentage: Option<string>,
    feesPaymentDeadline: Option<string>, lateFeePenalty: Option<string>)

  datatype AcademicSettings = AcademicSettings(
    academicYearStart: string, academicYearEnd: string, currentTerm: string,
    termStartDate: string, termEndDate: string,
    examPercentage: real, catPercentage: real,
    feesPaymentDeadline: string, lateFeePenalty: real)

  const NoSettings := SettingsRecord(None, None, None, None, None, None, None, None, None)

  const InitialAcademicSettings := AcademicSettings("", "", "Term 1", "", "", 70.0, 30.0, "", 0.0)

  /** `s.split('T')[0]`: everything before the first 'T'. */
  function BeforeT(s: string): string {
    if s == [] || s[0] == 'T' then [] else [s[0]] + BeforeT(s[1..])
  }

  /** The prefix before the first 'T' is a prefix of the string without a
      'T', and it is either the whole string or followed by a 'T' — which
      pins it down uniquely. */
  lemma {:induction false} BeforeTSpec(s: string)
    ensures var p := BeforeT(s);
      && p <= s
      && (forall i :: 0 <= i < |p| ==> p[i] != 'T')
      && (p == s || s[|p|] == 'T')
  {
    if s != [] && s[0] != 'T' {
      BeforeTSpec(s[1..]);
    }
  }

  /** A value of the form "yyyy-mm-ddT..." loads as its date part. */
  lemma {:induction false} BeforeTOfDateTime(date: string, time: string)
    requires forall i :: 0 <= i < |date| ==> date[i] != 'T'
    ensures BeforeT(date + "T" + time) == date
  {
    var s := date + "T" + time;
    if date == [] {
      assert s[0] == 'T';
    } else {
      assert s[0] == date[0] && s[1..] == date[1..] + "T" + time;
      BeforeTOfDateTime(date[1..], time);
    }
  }

  /** `setting?.split('T')[0] || ''`. */
  function DateSetting(v: Option<string>): (r: string)
    ensures v.None? ==> r == ""
    ensures v.Some? ==> r == BeforeT(v.value)
  {
    if v.Some? then BeforeT(v.value) else ""
  }

  /** `parseFloat(setting) || d`; `parse` is `parseFloat`, None for NaN.
      A missing, unparsable or zero setting loads as the default. */
  function NumberOrDefault(v: Option<string>, parse: string -> Option<real>, d: real): real {
    if v.Some? && parse(v.value).Some? && parse(v.value).value != 0.0 then parse(v.value).value else d
  }

  /** The loaded number is the stored one when that parses to a non-zero
      value and the default otherwise; with a non-zero default it is never
      zero. */
  lemma NumberOrDefaultSpec(v: Option<string>, parse: string -> Option<real>, d: real)
    ensures var r := NumberOrDefault(v, parse, d);
      && (v.Some? && parse(v.value).Some? && parse(v.value).value != 0.0 ==> r == parse(v.value).value)
      && (v.None? || parse(v.value).None? || parse(v.value) == Some(0.0) ==> r == d)
      && (d != 0.0 ==> r != 0.0)
  {
  }

  function LoadAcademicSettings(settings: Option<SettingsRecord>, parse: string -> Option<real>): AcademicSettings {
    var s := if settings.Some? then settings.value else NoSettings;
      AcademicSettings(
        DateSetting(s.academicYearStart), DateSetting(s.academicYearEnd),
        OrElse(s.currentTerm, "Term 1"),
        DateSetting(s.termStartDate), DateSetting(s.termEndDate),
        NumberOrDefault(s.examPercentage, parse, 70.0),
        NumberOrDefault(s.catPercentage, parse, 30.0),
        DateSetting(s.feesPaymentDeadline),
        NumberOrDefault(s.lateFeePenalty, parse, 0.0))
  }

  /** Loaded settings never show a zero exam or CAT percentage, the term is
      never blank, and without a settings row the form is exactly its
      initial state. */
  lemma LoadAcademicSettingsSpec(settings: Option<SettingsRecord>, parse: string -> Option<real>)
    ensures var a := LoadAcademicSettings(settings, parse);
      && a.examPercentage != 0.0 && a.catPercentage != 0.0 && a.currentTerm != ""
      && (forall i :: 0 <= i < |a.termStartDate| ==> a.termStartDate[i] != 'T')
      && (settings.None? ==> a == InitialAcademicSettings)
  {
    var s := if settings.Some? then settings.value else NoSettings;
    NumberOrDefaultSpec(s.examPercentage, parse, 70.0);
    NumberOrDefaultSpec(s.catPercentage, parse, 30.0);
    if s.termStartDate.Some? {
      BeforeTSpec(s.termStartDate.value);
    }
  }

  /** A stored exam percentage of "0.00" that parses to 0 loads as 70. */
  lemma ZeroPercentageLoadsDefault(s: SettingsRecord, parse: string -> Option<real>)
    requires s.examPercentage.Some? && parse(s.examPercentage.value) == Some(0.0)
    ensures LoadAcademicSettings(Some(s), parse).examPercentage == 70.0
  {
  }
}
