/** The teacher management screen: the list of teachers in the component's
    state, changed by save (update or create), delete and class-teacher
    assignment once the server has accepted the request; the search box and
    the pager over the filtered list. */
module TeachersManagement {
  import opened Js
  import opened Seqs

  datatype TeacherUser = TeacherUser(firstName: Option<string>, lastName: Option<string>, email: Option<string>)

  /** A class id as the page holds it: a number in the records the server
      sent, or the string that the assignment `<select>` yields as
      `e.target.value`. `===` compares the kind as well as the value, so
      `Num(3)` and `Str("3")` are different. */
  datatype ClassRef = Num(n: nat) | Str(s: string)

  /** `String(ref)`: the text the id is written as. */
  function ClassText(c: ClassRef): string {
    match c
    case Num(n) => NatToString(n)
    case Str(s) => s
  }

  /** Two references name the same class when they read the same. */
  predicate SameClass(a: ClassRef, b: ClassRef) {
    ClassText(a) == ClassText(b)
  }

  predicate HoldsClass(t: Teacher, classId: ClassRef) {
    t.classTeacherFor.Some? && SameClass(t.classTeacherFor.value, classId)
  }

  datatype Teacher = Teacher(
    id: Id, tscNumber: Option<string>, user: Option<TeacherUser>,
    isClassTeacher: bool, classTeacherFor: Option<ClassRef>)

  /** `{ id, name }` of the school's classes, as loaded. */
  datatype SchoolClass = SchoolClass(id: nat, name: string)

  /** The `<option>` for a class: its value is the id as text. */
  function OptionValue(c: SchoolClass): ClassRef {
    Str(NatToString(c.id))
  }

  /** Equal text means equal number: the rendering of ids is one to one. */
  lemma NatToStringInjective(a: nat, b: nat)
    requires NatToString(a) == NatToString(b)
    ensures a == b
  {
    NatToStringRoundTrip(a);
    NatToStringRoundTrip(b);
  }

  /** References of the same kind name the same class only when they are
      `===`. */
  lemma SameKindSameClass(a: ClassRef, b: ClassRef)
    requires a.Num? == b.Num?
    ensures SameClass(a, b) <==> a == b
  {
    if a.Num? && SameClass(a, b) {
      NatToStringInjective(a.n, b.n);
    }
  }

  /** The `userDetails` part of the form. */
  datatype UserDetails = UserDetails(firstName: string, lastName: string, email: string, phone: string)

  const TeachersPerPage: nat := 6

  // ---------------------------------------------------------------------
  // List updates

  /** The entry after assigning `classId` to `teacherId`, as written: the
      previous holder is found with `t.class_teacher_for === classId`. */
  function ReassignedAsWritten(t: Teacher, teacherId: Id, classId: ClassRef): Teacher {
    if t.id == teacherId then t.(isClassTeacher := true, classTeacherFor := Some(classId))
    else if t.classTeacherFor == Some(classId) then t.(isClassTeacher := false, classTeacherFor := None)
    else t
  }

  function AsWrittenStep(teacherId: Id, classId: ClassRef): Teacher -> Teacher {
    (t: Teacher) => ReassignedAsWritten(t, teacherId, classId)
  }

  function AssignClassTeacherAsWritten(ts: seq<Teacher>, teacherId: Id, classId: ClassRef): seq<Teacher> {
    Map(ts, AsWrittenStep(teacherId, classId))
  }

  /** A teacher loaded as class teacher of class 3 keeps it when the select
      assigns "3" to another teacher: afterwards both hold class 3. */
  lemma AssignAsWrittenKeepsOldHolder()
    ensures var t1 := Teacher(1, None, None, true, Some(Num(3)));
            var t2 := Teacher(2, None, None, false, None);
            var r := AssignClassTeacherAsWritten([t1, t2], 2, Str("3"));
            r == [t1, t2.(isClassTeacher := true, classTeacherFor := Some(Str("3")))]
            && HoldsClass(r[0], Str("3")) && HoldsClass(r[1], Str("3"))
  {
    var t1 := Teacher(1, None, None, true, Some(Num(3)));
    var r := AssignClassTeacherAsWritten([t1, Teacher(2, None, None, false, None)], 2, Str("3"));
    assert r[0] == ReassignedAsWritten(t1, 2, Str("3"));
    assert NatToString(3) == "3";
  }

  /** The entry after assigning `classId` to `teacherId`, comparing the
      previous holder's class by its id rather than by its JavaScript type. */
  function Reassigned(t: Teacher, teacherId: Id, classId: ClassRef): Teacher {
    if t.id == teacherId then t.(isClassTeacher := true, classTeacherFor := Some(classId))
    else if HoldsClass(t, classId) then t.(isClassTeacher := false, classTeacherFor := None)
    else t
  }

  function AssignStep(teacherId: Id, classId: ClassRef): Teacher -> Teacher {
    (t: Teacher) => Reassigned(t, teacherId, classId)
  }

  function AssignClassTeacher(ts: seq<Teacher>, teacherId: Id, classId: ClassRef): seq<Teacher> {
    Map(ts, AssignStep(teacherId, classId))
  }

  /** Assignment keeps the length; the target becomes class teacher of the
      class, a previous holder of the class is reset to none, everyone else
      is unchanged; afterwards the class belongs to the target's entries
      and to nobody else. */
  lemma AssignClassTeacherSpec(ts: seq<Teacher>, teacherId: Id, classId: ClassRef)
    ensures var r := AssignClassTeacher(ts, teacherId, classId);
      && |r| == |ts|
      && (forall i :: 0 <= i < |ts| && ts[i].id == teacherId ==>
            r[i] == ts[i].(isClassTeacher := true, classTeacherFor := Some(classId)))
      && (forall i :: 0 <= i < |ts| && ts[i].id != teacherId && HoldsClass(ts[i], classId) ==>
            r[i] == ts[i].(isClassTeacher := false, classTeacherFor := None))
      && (forall i :: 0 <= i < |ts| && ts[i].id != teacherId && !HoldsClass(ts[i], classId) ==>
            r[i] == ts[i])
      && (forall i :: 0 <= i < |r| ==> (HoldsClass(r[i], classId) <==> r[i].id == teacherId))
  {
  }

  /** Where every stored class id has the kind of the assigned one, the code
      as written already does the corrected assignment. */
  lemma AssignAsWrittenAgrees(ts: seq<Teacher>, teacherId: Id, classId: ClassRef)
    requires forall i :: 0 <= i < |ts| && ts[i].classTeacherFor.Some? ==> ts[i].classTeacherFor.value.Num? == classId.Num?
    ensures AssignClassTeacherAsWritten(ts, teacherId, classId) == AssignClassTeacher(ts, teacherId, classId)
  {
    forall i | 0 <= i < |ts|
      ensures ReassignedAsWritten(ts[i], teacherId, classId) == Reassigned(ts[i], teacherId, classId)
    {
      if ts[i].classTeacherFor.Some? {
        SameKindSameClass(ts[i].classTeacherFor.value, classId);
      }
    }
  }

  /** `classes.find(c => c.id === ref)?.name || `Class ${ref}``: the label of
      a class teacher's class. */
  function ClassLabel(classes: seq<SchoolClass>, ref: ClassRef): string {
    if classes == [] then "Class " + ClassText(ref)
    else if Num(classes[0].id) == ref then (if classes[0].name != "" then classes[0].name else "Class " + ClassText(ref))
    else ClassLabel(classes[1..], ref)
  }

  /** A numeric id finds the first class with that id and shows its name. */
  lemma {:induction false} ClassLabelOfNumber(classes: seq<SchoolClass>, k: nat)
    requires k < |classes| && classes[k].name != ""
    requires forall j :: 0 <= j < k ==> classes[j].id != classes[k].id
    ensures ClassLabel(classes, Num(classes[k].id)) == classes[k].name
  {
    if k > 0 {
      assert classes[1..][k - 1] == classes[k];
      ClassLabelOfNumber(classes[1..], k - 1);
    }
  }

  /** A class assigned through the select is stored as text; it matches no
      class and is shown as "Class <id>". */
  lemma {:induction false} ClassLabelOfText(classes: seq<SchoolClass>, s: string)
    ensures ClassLabel(classes, Str(s)) == "Class " + s
  {
    if classes != [] {
      ClassLabelOfText(classes[1..], s);
    }
  }

  function ReplaceById(ts: seq<Teacher>, id: Id, updated: Teacher): seq<Teacher> {
    Map(ts, (t: Teacher) => if t.id == id then updated else t)
  }

  /** An update keeps the length, replaces each entry with the edited id by
      the server's record, and leaves every other entry as it was. */
  lemma ReplaceByIdSpec(ts: seq<Teacher>, id: Id, updated: Teacher)
    ensures var r := ReplaceById(ts, id, updated);
      && |r| == |ts|
      && (forall i :: 0 <= i < |ts| ==> r[i] == if ts[i].id == id then updated else ts[i])
      && ((forall i :: 0 <= i < |ts| ==> ts[i].id != id) ==> r == ts)
  {
  }

  function WithoutTeacher(ts: seq<Teacher>, id: Id): seq<Teacher> {
    Filter(ts, (t: Teacher) => t.id != id)
  }

  /** A delete removes exactly the entries with the id, keeping the others
      in order. */
  lemma WithoutTeacherSpec(ts: seq<Teacher>, id: Id)
    ensures IsSubsequence(WithoutTeacher(ts, id), ts)
    ensures forall t :: t in WithoutTeacher(ts, id) <==> t in ts && t.id != id
    ensures forall t: Teacher :: t.id != id ==> multiset(WithoutTeacher(ts, id))[t] == multiset(ts)[t]
  {
    FilterIsSubsequence(ts, (t: Teacher) => t.id != id);
    FilterMembers(ts, (t: Teacher) => t.id != id);
    FilterMultiset(ts, (t: Teacher) => t.id != id);
  }

  /** `handleTeacherFormSubmit`'s guard. */
  predicate FormAccepted(u: UserDetails) {
    u.firstName != "" && u.lastName != "" && u.email != ""
  }

  class TeacherRoster {
    var teachers: seq<Teacher>
    var currentPage: nat

    ghost predicate Valid()
      reads this
    {
      currentPage >= 1
    }

    constructor(initial: seq<Teacher>)
      ensures Valid() && teachers == initial && currentPage == 1
    {
      teachers := initial;
      currentPage := 1;
    }

    /** Save: after the guard, an update when the form carries an id and a
        create otherwise; the list only changes once the server answered. */
    method Submit(u: UserDetails, formId: Option<Id>, response: Teacher, ok: bool)
      requires Valid()
      modifies this
      ensures Valid() && currentPage == old(currentPage)
      ensures !FormAccepted(u) || !ok ==> teachers == old(teachers)
      ensures FormAccepted(u) && ok && formId.Some? ==> teachers == ReplaceById(old(teachers), formId.value, response)
      ensures FormAccepted(u) && ok && formId.None? ==> teachers == old(teachers) + [response]
    {
      if !FormAccepted(u) {
        return;
      }
      if ok {
        if formId.Some? {
          teachers := ReplaceById(teachers, formId.value, response);
        } else {
          teachers := teachers + [response];
        }
      }
    }

    /** Delete, after the confirmation dialog and the server's answer. */
    method Delete(id: Id, confirmed: bool, ok: bool)
      requires Valid()
      modifies this
      ensures Valid() && currentPage == old(currentPage)
      ensures confirmed && ok ==> teachers == WithoutTeacher(old(teachers), id)
      ensures !(confirmed && ok) ==> teachers == old(teachers)
    {
      if confirmed && ok {
        teachers := WithoutTeacher(teachers, id);
      }
    }

    /** `handleAssignClassTeacher`, once the server accepted the request. */
    method AssignClass(teacherId: Id, classId: ClassRef, ok: bool)
      requires Valid()
      modifies this
      ensures Valid() && currentPage == old(currentPage)
      ensures ok ==> teachers == AssignClassTeacher(old(teachers), teacherId, classId)
      ensures !ok ==> teachers == old(teachers)
    {
      if ok {
        teachers := AssignClassTeacher(teachers, teacherId, classId);
      }
    }

    /** The "previous" button, disabled on page 1. */
    method PreviousPage()
      requires Valid()
      modifies this
      ensures Valid() && teachers == old(teachers)
      ensures currentPage == if old(currentPage) == 1 then 1 else old(currentPage) - 1
    {
      if currentPage != 1 {
        currentPage := currentPage - 1;
      }
    }

    /** The "next" button, disabled only on the last page of the filtered
        list of `shown` teachers. */
    method NextPage(shown: nat)
      requires Valid()
      modifies this
      ensures Valid() && teachers == old(teachers)
      ensures currentPage == if old(currentPage) == TotalPages(shown, TeachersPerPage) then old(currentPage) else old(currentPage) + 1
    {
      if currentPage != TotalPages(shown, TeachersPerPage) {
        currentPage := currentPage + 1;
      }
    }
  }

  // ---------------------------------------------------------------------
  // Search and pages

  /** `` `${first || ''} ${last || ''}`.toLowerCase() ``. */
  function FullName(t: Teacher): string {
    var u := if t.user.Some? then t.user.value else TeacherUser(None, None, None);
    ToLower(OrElse(u.firstName, "") + " " + OrElse(u.lastName, ""))
  }

  predicate MatchesQuery(t: Teacher, query: string) {
    var q := ToLower(query);
    Includes(FullName(t), q) || Includes(ToLower(OrElse(t.tscNumber, "")), q)
  }

  function FilteredTeachers(teachers: Option<seq<Teacher>>, query: string): seq<Teacher> {
    Filter(if teachers.Some? then teachers.value else [], (t: Teacher) => MatchesQuery(t, query))
  }

  /** The search keeps exactly the matching teachers in their order, and an
      empty query keeps everyone. */
  lemma FilteredTeachersSpec(ts: seq<Teacher>, query: string)
    ensures IsSubsequence(FilteredTeachers(Some(ts), query), ts)
    ensures forall t :: t in FilteredTeachers(Some(ts), query) <==> t in ts && MatchesQuery(t, query)
    ensures query == "" ==> FilteredTeachers(Some(ts), query) == ts
  {
    FilterIsSubsequence(ts, (t: Teacher) => MatchesQuery(t, query));
    FilterMembers(ts, (t: Teacher) => MatchesQuery(t, query));
    if query == "" {
      forall t | t in ts ensures MatchesQuery(t, query) {
        IncludesEmpty(FullName(t));
      }
      FilterAll(ts, (t: Teacher) => MatchesQuery(t, query));
    }
  }

  /** Searching for a teacher's full name, in any letter case, finds them. */
  lemma FullNameFindsTeacher(t: Teacher, first: string, last: string)
    requires t.user.Some? && t.user.value.firstName == Some(first) && t.user.value.lastName == Some(last)
    ensures MatchesQuery(t, first + " " + last)
  {
    var q := ToLower(first + " " + last);
    assert FullName(t) == q;
    assert OccursAt(FullName(t), q, 0);
    IncludesIff(FullName(t), q);
  }

  function CurrentTeachers(filtered: seq<Teacher>, currentPage: nat): seq<Teacher>
    requires currentPage >= 1
  {
    Page(filtered, currentPage, TeachersPerPage)
  }

  /** The pager is shown for more than six teachers. */
  predicate PagerShown(filtered: seq<Teacher>) { |filtered| > TeachersPerPage }

  /** A page holds at most six teachers, pages beyond the last are empty,
      and the pages 1..ceil(n/6) laid end to end are the filtered list. */
  lemma CurrentTeachersSpec(filtered: seq<Teacher>, currentPage: nat)
    requires currentPage >= 1
    ensures |CurrentTeachers(filtered, currentPage)| <= 6
    ensures currentPage > TotalPages(|filtered|, TeachersPerPage) ==> CurrentTeachers(filtered, currentPage) == []
    ensures Pages(filtered, TotalPages(|filtered|, TeachersPerPage), TeachersPerPage) == filtered
    ensures PagerShown(filtered) <==> TotalPages(|filtered|, TeachersPerPage) >= 2
  {
    PageSize(filtered, currentPage, TeachersPerPage);
    PagesPartition(filtered, TeachersPerPage);
    CeilFacts(|filtered|, TeachersPerPage);
  }
}
