/** The CSV bulk upload of students: header normalisation, the validation
    loop that splits the parsed rows into rows with errors and rows ready
    for the database, the submit guard and the preview pager. CSV parsing
    itself, date validity and number parsing are parameters. */
module BulkUpload {
  import opened Js
  import opened Seqs

  // ---------------------------------------------------------------------
  // Headers

  predicate NotSpace(c: char) { c != ' ' }

  predicate IsKeyChar(c: char) { 'a' <= c <= 'z' || '0' <= c <= '9' }

  /** `transformHeader`: lower-case, drop the spaces, drop everything
      outside [a-z0-9]. */
  function TransformHeader(header: string): string {
    Filter(Filter(ToLower(header), NotSpace), IsKeyChar)
  }

  /** A normalised header consists of [a-z0-9] only, and normalising it
      again changes nothing. */
  lemma TransformHeaderSpec(header: string)
    ensures forall i :: 0 <= i < |TransformHeader(header)| ==> IsKeyChar(TransformHeader(header)[i])
    ensures TransformHeader(TransformHeader(header)) == TransformHeader(header)
  {
    var r := TransformHeader(header);
    FilterMembers(Filter(ToLower(header), NotSpace), IsKeyChar);
    assert forall c :: c in r ==> IsKeyChar(c);
    forall i | 0 <= i < |r| ensures ToLower(r)[i] == r[i] {
      assert r[i] in r;
    }
    assert ToLower(r) == r;
    FilterAll(r, NotSpace);
    FilterAll(r, IsKeyChar);
  }

  /** Dropping position `k` of a string whose other characters are all key
      characters leaves key characters only. */
  lemma DropOneKeyChars(l: string, k: nat)
    requires k < |l|
    requires forall i :: 0 <= i < |l| && i != k ==> IsKeyChar(l[i])
    ensures var m := l[..k] + l[k + 1..]; forall i :: 0 <= i < |m| ==> IsKeyChar(m[i])
  {
    var m := l[..k] + l[k + 1..];
    forall i | 0 <= i < |m| ensures IsKeyChar(m[i]) {
      if i < k {
        assert m[i] == l[i];
      } else {
        assert m[i] == l[i + 1];
      }
    }
  }

  /** A header of key characters, in either case, with a single space at
      `k` normalises to its lower-case letters without the space. */
  lemma TransformHeaderOneSpace(header: string, k: nat)
    requires k < |header| && header[k] == ' '
    requires forall i :: 0 <= i < |header| && i != k ==> IsKeyChar(LowerChar(header[i]))
    ensures TransformHeader(header) == ToLower(header)[..k] + ToLower(header)[k + 1..]
  {
    var l := ToLower(header);
    var m := l[..k] + l[k + 1..];
    assert forall i :: 0 <= i < |l| && i != k ==> IsKeyChar(l[i]);
    FilterDropsOne(l, NotSpace, k);
    DropOneKeyChars(l, k);
    FilterKeepsAll(m, IsKeyChar);
  }

  // ---------------------------------------------------------------------
  // Schema and rows

  datatype Field = Field(key: string, caption: string)

  /** The required fields, in the order their errors are reported, and the
      key the marks check and the marks column are read from. */
  datatype Schema = Schema(fields: seq<Field>, marksKey: string)

  const MarksLabel := "KCPE Marks"

  function FieldsWithMarksKey(marksKey: string): seq<Field> {
    [ Field("admissionnumber", "Admission Number"), Field("firstname", "First Name"),
      Field("lastname", "Last Name"), Field("gender", "Gender"),
      Field("dateofbirth", "Date of Birth"), Field("parentname", "Parent Name"),
      Field("parentcontact", "Parent Contact"), Field("kcpeindex", "KCPE Index"),
      Field(marksKey, MarksLabel), Field("enrollmentdate", "Enrollment Date") ]
  }

  /** The table as written: the marks key has a doubled 'e'. */
  const AsWrittenSchema := Schema(FieldsWithMarksKey("kcpeemarks"), "kcpeemarks")

  /** The table with the key the marks label normalises to. */
  const CorrectedSchema := Schema(FieldsWithMarksKey("kcpemarks"), "kcpemarks")

  /** A parsed CSV row: normalised header to cell text. */
  type Row = map<string, string>

  function Cell(row: Row, k: string): string {
    if k in row then row[k] else ""
  }

  /** `row[k]` is truthy: present and not the empty string. */
  predicate Present(row: Row, k: string) { Cell(row, k) != "" }

  /** `new Date(s)` validity, `toISOString().split('T')[0]`, `parseFloat`
      returning a number, and its value. */
  datatype Parsers = Parsers(validDate: string -> bool, isoDate: string -> string,
                             numeric: string -> bool, number: string -> real)

  const MissingPrefix := "Missing "
  const GenderError := "Gender must be 'male' or 'female'"
  const BirthDateError := "Invalid date format for Date of Birth (use YYYY-MM-DD)"
  const EnrollmentDateError := "Invalid date format for Enrollment Date (use YYYY-MM-DD)"
  const MarksError := "KCPE marks must be a number"

  function MissingError(f: Field): string { MissingPrefix + f.caption }

  function IsMissing(row: Row): Field -> bool {
    (f: Field) => !Present(row, f.key)
  }

  /** The errors of the `requiredFields` loop: one "Missing <label>" per
      required field that is absent or empty, in the order of the fields. */
  function MissingErrors(row: Row, fs: seq<Field>): seq<string> {
    if fs == [] then []
    else MissingErrors(row, fs[..|fs| - 1])
         + (if Present(row, fs[|fs| - 1].key) then [] else [MissingError(fs[|fs| - 1])])
  }

  /** The format checks, each only for a cell that is present. */
  function FormatErrors(row: Row, schema: Schema, p: Parsers): seq<string> {
    var gender := ToLower(Cell(row, "gender"));
    (if Present(row, "gender") && gender != "male" && gender != "female" then [GenderError] else [])
    + (if Present(row, "dateofbirth") && !p.validDate(Cell(row, "dateofbirth")) then [BirthDateError] else [])
    + (if Present(row, "enrollmentdate") && !p.validDate(Cell(row, "enrollmentdate")) then [EnrollmentDateError] else [])
    + (if Present(row, schema.marksKey) && !p.numeric(Cell(row, schema.marksKey)) then [MarksError] else [])
  }

  function RowErrors(row: Row, schema: Schema, p: Parsers): seq<string> {
    MissingErrors(row, schema.fields) + FormatErrors(row, schema, p)
  }

  /** The missing-field errors are the labels of the missing fields, in
      field order. */
  lemma {:induction false} MissingErrorsSpec(row: Row, fs: seq<Field>)
    ensures MissingErrors(row, fs) == Map(Filter(fs, IsMissing(row)), MissingError)
    decreases |fs|
  {
    if fs != [] {
      var q, f := fs[..|fs| - 1], fs[|fs| - 1];
      MissingErrorsSpec(row, q);
      assert fs == q + [f];
      FilterConcat(q, [f], IsMissing(row));
      var tail := if IsMissing(row)(f) then [f] else [];
      assert Filter([f], IsMissing(row)) == tail by {
        assert [f][1..] == [];
      }
      MapConcat(Filter(q, IsMissing(row)), tail, MissingError);
    }
  }

  lemma MapConcat<T, U>(xs: seq<T>, ys: seq<T>, f: T -> U)
    ensures Map(xs + ys, f) == Map(xs, f) + Map(ys, f)
  {
  }

  /** No missing-field error exactly when every required field is present. */
  lemma {:induction false} MissingErrorsNone(row: Row, fs: seq<Field>)
    ensures MissingErrors(row, fs) == [] <==> forall i :: 0 <= i < |fs| ==> Present(row, fs[i].key)
    decreases |fs|
  {
    if fs != [] {
      var q := fs[..|fs| - 1];
      MissingErrorsNone(row, q);
      assert forall i :: 0 <= i < |q| ==> q[i] == fs[i];
    }
  }

  /** A required field that is absent or empty is reported. */
  lemma {:induction false} MissingErrorReported(row: Row, fs: seq<Field>, i: nat)
    requires i < |fs| && !Present(row, fs[i].key)
    ensures MissingError(fs[i]) in MissingErrors(row, fs)
    decreases |fs|
  {
    var q := fs[..|fs| - 1];
    if i < |q| {
      assert q[i] == fs[i];
      MissingErrorReported(row, q, i);
    }
  }

  /** The required cells copied into `validatedRow`, in field order. */
  function PresentCells(row: Row, fs: seq<Field>): map<string, string> {
    if fs == [] then map[]
    else
      var m := PresentCells(row, fs[..|fs| - 1]);
      var k := fs[|fs| - 1].key;
      if Present(row, k) then m[k := Cell(row, k)] else m
  }

  predicate HasKey(fs: seq<Field>, k: string) {
    exists i :: 0 <= i < |fs| && fs[i].key == k
  }

  /** The copied record holds exactly the present required cells, with
      their text. */
  lemma {:induction false} PresentCellsSpec(row: Row, fs: seq<Field>)
    ensures forall k :: k in PresentCells(row, fs) <==> HasKey(fs, k) && Present(row, k)
    ensures forall k :: k in PresentCells(row, fs) ==> PresentCells(row, fs)[k] == Cell(row, k)
    decreases |fs|
  {
    if fs != [] {
      var q := fs[..|fs| - 1];
      PresentCellsSpec(row, q);
      forall k ensures HasKey(fs, k) <==> HasKey(q, k) || fs[|fs| - 1].key == k {
        if HasKey(fs, k) {
          var i :| 0 <= i < |fs| && fs[i].key == k;
          if i < |q| {
            assert q[i] == fs[i];
          }
        }
        if HasKey(q, k) {
          var i :| 0 <= i < |q| && q[i].key == k;
          assert fs[i] == q[i];
        }
      }
    }
  }

  datatype ErrorRow = ErrorRow(cells: Row, errors: seq<string>, row: nat)

  datatype StudentRow = StudentRow(
    raw: map<string, string>,
    admissionNumber: string, firstName: string, lastName: string, gender: string,
    dateOfBirth: string, parentName: string, parentPhone: string,
    kcpeIndex: string, kcpeMarks: real, enrollmentDate: string)

  /** The database record of a row without errors. */
  function Formatted(row: Row, schema: Schema, p: Parsers): StudentRow {
    StudentRow(PresentCells(row, schema.fields),
               Cell(row, "admissionnumber"), Cell(row, "firstname"), Cell(row, "lastname"),
               ToLower(Cell(row, "gender")), p.isoDate(Cell(row, "dateofbirth")),
               Cell(row, "parentname"), Cell(row, "parentcontact"), Cell(row, "kcpeindex"),
               p.number(Cell(row, schema.marksKey)), p.isoDate(Cell(row, "enrollmentdate")))
  }

  /** A record is only built from a row that passed every check, so its
      gender is 'male' or 'female'. */
  lemma FormattedGender(row: Row, schema: Schema, p: Parsers)
    requires schema.fields == FieldsWithMarksKey(schema.marksKey)
    requires RowErrors(row, schema, p) == []
    ensures Formatted(row, schema, p).gender == "male" || Formatted(row, schema, p).gender == "female"
  {
    MissingErrorsNone(row, schema.fields);
    assert schema.fields[3].key == "gender";
  }

  /** The checks and the formatting of one row, as functions of the row. */
  function Checks(schema: Schema, p: Parsers): Row -> seq<string> {
    (row: Row) => RowErrors(row, schema, p)
  }

  function Formats(schema: Schema, p: Parsers): Row -> StudentRow {
    (row: Row) => Formatted(row, schema, p)
  }

  /** The error list after the rows `rows`: the rows `check` finds errors
      in, with those errors and their 1-based number. */
  function ErrorRows(rows: seq<Row>, check: Row -> seq<string>): seq<ErrorRow> {
    if rows == [] then []
    else
      var row := rows[|rows| - 1];
      ErrorRows(rows[..|rows| - 1], check)
      + (if check(row) != [] then [ErrorRow(row, check(row), |rows|)] else [])
  }

  /** The validated list after the rows `rows`. */
  function ValidRows(rows: seq<Row>, check: Row -> seq<string>, format: Row -> StudentRow): seq<StudentRow> {
    if rows == [] then []
    else
      var row := rows[|rows| - 1];
      ValidRows(rows[..|rows| - 1], check, format)
      + (if check(row) == [] then [format(row)] else [])
  }

  // ---------------------------------------------------------------------
  // The validation loops

  /** The `requiredFields.forEach` loop. */
  method CheckRequired(row: Row, fs: seq<Field>) returns (errors: seq<string>, validated: map<string, string>)
    ensures errors == MissingErrors(row, fs)
    ensures validated == PresentCells(row, fs)
  {
    errors := [];
    validated := map[];
    var i := 0;
    while i < |fs|
      invariant 0 <= i <= |fs|
      invariant errors == MissingErrors(row, fs[..i])
      invariant validated == PresentCells(row, fs[..i])
    {
      assert fs[..i + 1][..i] == fs[..i];
      var f := fs[i];
      if !Present(row, f.key) {
        errors := errors + [MissingError(f)];
      } else {
        validated := validated[f.key := Cell(row, f.key)];
      }
      i := i + 1;
    }
    assert fs[..|fs|] == fs;
  }

  /** The four format checks of one row. */
  method CheckFormats(row: Row, schema: Schema, p: Parsers) returns (errors: seq<string>)
    ensures errors == FormatErrors(row, schema, p)
  {
    errors := [];
    var gender := ToLower(Cell(row, "gender"));
    if Present(row, "gender") && gender != "male" && gender != "female" {
      errors := errors + [GenderError];
    }
    if Present(row, "dateofbirth") && !p.validDate(Cell(row, "dateofbirth")) {
      errors := errors + [BirthDateError];
    }
    if Present(row, "enrollmentdate") && !p.validDate(Cell(row, "enrollmentdate")) {
      errors := errors + [EnrollmentDateError];
    }
    if Present(row, schema.marksKey) && !p.numeric(Cell(row, schema.marksKey)) {
      errors := errors + [MarksError];
    }
  }

  /** The checks of one row: the required fields, then the format checks. */
  method ValidateRow(row: Row, schema: Schema, p: Parsers) returns (errors: seq<string>, validated: map<string, string>)
    ensures errors == RowErrors(row, schema, p)
    ensures validated == PresentCells(row, schema.fields)
  {
    errors, validated := CheckRequired(row, schema.fields);
    var formatErrors := CheckFormats(row, schema, p);
    errors := errors + formatErrors;
  }

  /** `results.data.forEach(...)`: each row goes to the error list, tagged
      with its 1-based number, or formatted to the validated list. */
  method ValidateRows(rows: seq<Row>, schema: Schema, p: Parsers) returns (errorRows: seq<ErrorRow>, validRows: seq<StudentRow>)
    ensures errorRows == ErrorRows(rows, Checks(schema, p))
    ensures validRows == ValidRows(rows, Checks(schema, p), Formats(schema, p))
  {
    errorRows := [];
    validRows := [];
    var i := 0;
    while i < |rows|
      invariant 0 <= i <= |rows|
      invariant errorRows == ErrorRows(rows[..i], Checks(schema, p))
      invariant validRows == ValidRows(rows[..i], Checks(schema, p), Formats(schema, p))
    {
      assert rows[..i + 1][..i] == rows[..i];
      var errors, validated := ValidateRow(rows[i], schema, p);
      if |errors| > 0 {
        errorRows := errorRows + [ErrorRow(rows[i], errors, i + 1)];
      } else {
        validRows := validRows + [Formatted(rows[i], schema, p)];
      }
      i := i + 1;
    }
    assert rows[..|rows|] == rows;
  }

  // ---------------------------------------------------------------------
  // What the two lists hold

  /** Every row lands in exactly one list. */
  lemma {:induction false} PartitionSizes(rows: seq<Row>, check: Row -> seq<string>, format: Row -> StudentRow)
    ensures |ErrorRows(rows, check)| + |ValidRows(rows, check, format)| == |rows|
    decreases |rows|
  {
    if rows != [] {
      PartitionSizes(rows[..|rows| - 1], check, format);
    }
  }

  /** The error list's entries: the row with that number, its own errors,
      which are not empty, and numbers that increase through the list. */
  predicate SoundErrorRows(rows: seq<Row>, check: Row -> seq<string>, es: seq<ErrorRow>) {
    && (forall j :: 0 <= j < |es| ==>
          1 <= es[j].row <= |rows| && es[j].cells == rows[es[j].row - 1]
          && es[j].errors == check(rows[es[j].row - 1]) && es[j].errors != [])
    && (forall j, k :: 0 <= j < k < |es| ==> es[j].row < es[k].row)
  }

  lemma {:induction false} ErrorRowsSound(rows: seq<Row>, check: Row -> seq<string>)
    ensures SoundErrorRows(rows, check, ErrorRows(rows, check))
    ensures forall j :: 0 <= j < |ErrorRows(rows, check)| ==> ErrorRows(rows, check)[j].row <= |rows|
    decreases |rows|
  {
    if rows != [] {
      var q := rows[..|rows| - 1];
      ErrorRowsSound(q, check);
      var es, eq := ErrorRows(rows, check), ErrorRows(q, check);
      assert es[..|eq|] == eq;
      assert forall j :: 0 <= j < |eq| ==> es[j] == eq[j];
      assert forall i :: 0 <= i < |q| ==> rows[i] == q[i];
    }
  }

  /** Some entry of the error list carries the row number `n`. */
  predicate Listed(es: seq<ErrorRow>, n: nat) {
    exists j :: 0 <= j < |es| && es[j].row == n
  }

  /** Every row with an error has an entry in the error list. */
  lemma {:induction false} ErrorRowsComplete(rows: seq<Row>, check: Row -> seq<string>)
    ensures forall i :: 0 <= i < |rows| && check(rows[i]) != [] ==>
              Listed(ErrorRows(rows, check), i + 1)
  {
    forall i | 0 <= i < |rows| && check(rows[i]) != []
      ensures Listed(ErrorRows(rows, check), i + 1)
    {
      ErrorRowListed(rows, check, i);
    }
  }

  lemma {:induction false} ErrorRowListed(rows: seq<Row>, check: Row -> seq<string>, i: nat)
    requires i < |rows| && check(rows[i]) != []
    ensures Listed(ErrorRows(rows, check), i + 1)
    decreases |rows|
  {
    var q := rows[..|rows| - 1];
    var es, eq := ErrorRows(rows, check), ErrorRows(q, check);
    var last := rows[|rows| - 1];
    assert es == eq + (if check(last) != [] then [ErrorRow(last, check(last), |rows|)] else []);
    if i < |q| {
      assert rows[i] == q[i];
      ErrorRowListed(q, check, i);
      var j :| 0 <= j < |eq| && eq[j].row == i + 1;
      assert es[j] == eq[j];
    } else {
      assert es[|es| - 1].row == i + 1;
    }
  }

  /** `v` is the formatted form of an input row without errors. */
  predicate FormattedFrom(rows: seq<Row>, check: Row -> seq<string>, format: Row -> StudentRow, v: StudentRow) {
    exists i :: 0 <= i < |rows| && check(rows[i]) == [] && v == format(rows[i])
  }

  /** Each validated record is the formatted form of an input row without
      errors. */
  lemma {:induction false} ValidRowsSound(rows: seq<Row>, check: Row -> seq<string>, format: Row -> StudentRow)
    ensures forall j :: 0 <= j < |ValidRows(rows, check, format)| ==>
              FormattedFrom(rows, check, format, ValidRows(rows, check, format)[j])
  {
    forall j | 0 <= j < |ValidRows(rows, check, format)|
      ensures FormattedFrom(rows, check, format, ValidRows(rows, check, format)[j])
    {
      ValidRowFrom(rows, check, format, j);
    }
  }

  /** The test `validRows` is built with: the row has no errors. */
  function Clean(check: Row -> seq<string>): Row -> bool {
    (row: Row) => check(row) == []
  }

  /** The validated list is exactly the error-free rows, each formatted,
      in input order. */
  lemma {:induction false} ValidRowsAreFilteredRows(rows: seq<Row>, check: Row -> seq<string>, format: Row -> StudentRow)
    ensures ValidRows(rows, check, format) == Map(Filter(rows, Clean(check)), format)
    decreases |rows|
  {
    if rows != [] {
      var q, last := rows[..|rows| - 1], rows[|rows| - 1];
      assert rows == q + [last];
      ValidRowsAreFilteredRows(q, check, format);
      FilterConcat(q, [last], Clean(check));
      var tail := if check(last) == [] then [last] else [];
      assert Filter([last], Clean(check)) == tail by {
        assert [last][1..] == [];
      }
      MapConcat(Filter(q, Clean(check)), tail, format);
    }
  }

  lemma {:induction false} ValidRowFrom(rows: seq<Row>, check: Row -> seq<string>, format: Row -> StudentRow, j: nat)
    requires j < |ValidRows(rows, check, format)|
    ensures FormattedFrom(rows, check, format, ValidRows(rows, check, format)[j])
    decreases |rows|
  {
    var q := rows[..|rows| - 1];
    var vs, vq := ValidRows(rows, check, format), ValidRows(q, check, format);
    var last := rows[|rows| - 1];
    assert vs == vq + (if check(last) == [] then [format(last)] else []);
    if j < |vq| {
      ValidRowFrom(q, check, format, j);
      var i :| 0 <= i < |q| && check(q[i]) == [] && vq[j] == format(q[i]);
      assert rows[i] == q[i] && vs[j] == vq[j];
    } else {
      assert vs[j] == format(last) && check(last) == [];
    }
  }

  // ---------------------------------------------------------------------
  // Submit and preview

  /** `handleSubmit` goes ahead only without errors and with rows to send. */
  predicate CanSubmit(errorCount: nat, previewCount: nat) {
    errorCount == 0 && previewCount > 0
  }

  /** After validation, an upload may be submitted exactly when the file had
      rows and none of them had an error. */
  lemma CanSubmitAfterValidation(rows: seq<Row>, check: Row -> seq<string>, format: Row -> StudentRow)
    ensures CanSubmit(|ErrorRows(rows, check)|, |ValidRows(rows, check, format)|)
            <==> |rows| > 0 && forall i :: 0 <= i < |rows| ==> check(rows[i]) == []
  {
    PartitionSizes(rows, check, format);
    ErrorRowsSound(rows, check);
    ErrorRowsComplete(rows, check);
  }

  const RowsPerPage: nat := 10

  /** A preview page holds at most ten rows, the pages the pager offers
      give back the whole list, and an empty list has no pages. */
  lemma PreviewPages(preview: seq<StudentRow>, currentPage: nat)
    requires currentPage >= 1
    ensures |Page(preview, currentPage, RowsPerPage)| <= 10
    ensures Pages(preview, TotalPages(|preview|, RowsPerPage), RowsPerPage) == preview
    ensures preview == [] <==> TotalPages(|preview|, RowsPerPage) == 0
  {
    PageSize(preview, currentPage, RowsPerPage);
    PagesPartition(preview, RowsPerPage);
    CeilFacts(|preview|, RowsPerPage);
  }

  // ---------------------------------------------------------------------
  // The marks key

  lemma MarksLabelNormalises(caption: string)
    requires caption == "KCPE Marks"
    ensures TransformHeader(caption) == "kcpemarks"
  {
    assert caption[0] == 'K' && caption[1] == 'C' && caption[2] == 'P' && caption[3] == 'E' && caption[4] == ' ';
    assert caption[5] == 'M' && caption[6] == 'a' && caption[7] == 'r' && caption[8] == 'k' && caption[9] == 's';
    TransformHeaderOneSpace(caption, 4);
  }

  /** A marks column headed by its own label is read under the corrected
      key and never under the key written in the table. */
  lemma MarksLabelKey()
    ensures TransformHeader(MarksLabel) == CorrectedSchema.marksKey
    ensures TransformHeader(MarksLabel) != AsWrittenSchema.marksKey
  {
    MarksLabelNormalises(MarksLabel);
  }

  /** With the table as written, rows without a 'kcpeemarks' cell (every
      row of a CSV whose marks column is headed "KCPE Marks") are all
      reported as missing their marks, nothing is validated and the
      upload can never be submitted. */
  lemma AsWrittenRejectsEveryRow(rows: seq<Row>, p: Parsers)
    requires forall i :: 0 <= i < |rows| ==> AsWrittenSchema.marksKey !in rows[i]
    ensures forall i :: 0 <= i < |rows| ==>
              MissingError(Field(AsWrittenSchema.marksKey, MarksLabel)) in RowErrors(rows[i], AsWrittenSchema, p)
    ensures ValidRows(rows, Checks(AsWrittenSchema, p), Formats(AsWrittenSchema, p)) == []
    ensures |ErrorRows(rows, Checks(AsWrittenSchema, p))| == |rows|
    ensures !CanSubmit(|ErrorRows(rows, Checks(AsWrittenSchema, p))|,
                       |ValidRows(rows, Checks(AsWrittenSchema, p), Formats(AsWrittenSchema, p))|)
  {
    var fs := AsWrittenSchema.fields;
    assert fs[8] == Field(AsWrittenSchema.marksKey, MarksLabel);
    forall i | 0 <= i < |rows|
      ensures MissingError(fs[8]) in RowErrors(rows[i], AsWrittenSchema, p)
    {
      MissingErrorReported(rows[i], fs, 8);
    }
    NothingValid(rows, Checks(AsWrittenSchema, p), Formats(AsWrittenSchema, p));
    PartitionSizes(rows, Checks(AsWrittenSchema, p), Formats(AsWrittenSchema, p));
  }

  /** When every row has an error, nothing is validated. */
  lemma {:induction false} NothingValid(rows: seq<Row>, check: Row -> seq<string>, format: Row -> StudentRow)
    requires forall i :: 0 <= i < |rows| ==> check(rows[i]) != []
    ensures ValidRows(rows, check, format) == []
    decreases |rows|
  {
    if rows != [] {
      var q := rows[..|rows| - 1];
      assert forall i :: 0 <= i < |q| ==> q[i] == rows[i];
      NothingValid(q, check, format);
    }
  }

  /** With the corrected table, a row that fills every required field with
      well-formed values is validated. */
  lemma CorrectedAcceptsCompleteRow(row: Row, p: Parsers)
    requires forall i :: 0 <= i < |CorrectedSchema.fields| ==> Present(row, CorrectedSchema.fields[i].key)
    requires ToLower(Cell(row, "gender")) == "male" || ToLower(Cell(row, "gender")) == "female"
    requires p.validDate(Cell(row, "dateofbirth")) && p.validDate(Cell(row, "enrollmentdate"))
    requires p.numeric(Cell(row, CorrectedSchema.marksKey))
    ensures RowErrors(row, CorrectedSchema, p) == []
    ensures ValidRows([row], Checks(CorrectedSchema, p), Formats(CorrectedSchema, p)) == [Formatted(row, CorrectedSchema, p)]
    ensures ErrorRows([row], Checks(CorrectedSchema, p)) == []
  {
    MissingErrorsNone(row, CorrectedSchema.fields);
    assert [row][..0] == [];
  }
}
