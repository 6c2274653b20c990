# EduSync school management: a verified model of its core

EduSync is a school administration web application. It has a React client
and an Express/MySQL backend. This project models its computational core in
Dafny and proves properties of that model. The core consists of:

- the dashboard statistics endpoint of the backend (`backend/index.js`): term
  resolution, the signed percentage trends, fee-balance defaulting and the
  attendance rate;
- the fee ledger of the finance screen: per-student fee statistics, the
  financial summary and net profit, payroll row totals, and the
  required-field guards of the forms;
- the student list: the fee-status badge, the search filter, and the delete
  and add list updates;
- the analytics dashboard: the monthly performance and fee charts, the
  attendance pie, class and school performance, and the predictive
  insights;
- teacher management: class-teacher assignment, the create, update and
  delete list updates, search and pagination;
- the CSV bulk upload of students: header normalisation, per-row
  validation, the submit guard and preview pagination;
- school settings: class and subject list updates and their guards, and
  loading the school and academic settings forms;
- the sign-up wizard's first-step validation and submit;
- the login form's validation, including the e-mail regular expression,
  and the per-role redirect;
- the overview dashboard: the recent-payments table, the statistics cards
  with their trend colours, and its session handling (a 403 logs out).

The files and modules of the project:

| file | module | models |
|---|---|---|
| `js.dfy` | `Js` | JavaScript value semantics the code relies on: `||` defaults, ASCII `toLowerCase`, `startsWith`/`includes`, `Math.round`, `toFixed(1)`, `split().length` |
| `seqs.dfy` | `Seqs` | `filter`, `map` and `slice`, and page arithmetic |
| `grouping.dfy` | `Grouping` | the `reduce` grouping loop shared by the analytics charts, and the ascending order in which `Object.values` lists integer keys |
| `dashboard.dfy` | `DashboardStats` | `/api/dashboard/stats` |
| `fees.dfy` | `FeeLedger` | `FeePaymentSystem.jsx` |
| `students.dfy` | `StudentList` | `StudentList.jsx` |
| `analytics.dfy` | `Analytics` | `SmartAnalyticsDashboard.jsx` |
| `teachers.dfy` | `TeachersManagement` | `TeachersManagement.jsx` |
| `bulk_upload.dfy` | `BulkUpload` | `BulkUpload.jsx` |
| `school_settings.dfy` | `SchoolSettings` | `SchoolSettings.jsx` |
| `signup.dfy` | `Signup` | `Signup.jsx` |
| `login.dfy` | `Login` | `Login.jsx` |
| `quick_overview.dfy` | `QuickOverview` | `QuickOverview.jsx` |

Modelling choices:

- Pure computations become functions.
- Components whose handlers update lists in place become classes whose
  fields are the React state. Examples are `TeacherRoster`, `StudentRoster`,
  `SettingsLists`, `Registration` and `OverviewPage`.
- A method's `ensures` states the whole new state in terms of the
  specification functions, and lemmas state what those functions mean.
- Loops in the source are `while` loops with invariants. These are the
  analytics grouping and the upload's row and field loops.
- Server replies, query results and library calls are parameters.
- Record ids are positive naturals, so "no id" is `None`.
- A teacher's class id is a `ClassRef`, either a number as loaded or the string an `<option>` yields, because `===` tells them apart.
- A student fee item's amounts are a `JsonNumber`: a number, `null` (adds 0 to a sum) or absent (makes the sum NaN).
- Where a finding below corrects the code, the list methods use the corrected definition: `TeacherRoster.AssignClass` applies `AssignClassTeacher`, and `Registration.HandleSubmit` calls `Register`, not `RegisterAsWritten`.

## Model

| member | source | states |
|---|---|---|
| `Js.OrZero` | backend/index.js:272-273 | `x \|\| 0`: an absent number counts as 0, a present one as itself |
| `Js.OrElse` | sync_app/src/components/QuickOverview.jsx:103 | `s \|\| d`: the result is either the default or a non-empty given string, and a non-empty given string is always kept |
| `Js.ToLower` | sync_app/src/components/StudentList.jsx:184-189 | lowering keeps the length and lowers each character |
| `Js.ToLowerAppend` | sync_app/src/components/TeachersManagement.jsx:230 | lowering distributes over concatenation |
| `Js.ToLowerIdempotent` | sync_app/src/components/BulkUpload.jsx:50 | lowering twice is lowering once |
| `Js.IncludesIff` | sync_app/src/components/StudentList.jsx:186-190 | `s.includes(sub)` holds exactly when `sub` occurs at some offset of `s` |
| `Js.IncludesEmpty` | sync_app/src/components/TeachersManagement.jsx:232-233 | every string includes the empty string |
| `Js.SplitCount` | sync_app/src/components/SmartAnalyticsDashboard.jsx:199-201 | `split(',').length` is at least 1, and exactly 1 when there is no separator |
| `Js.RoundBounds` | sync_app/src/components/SmartAnalyticsDashboard.jsx:83 | rounding a value between two integers stays between them |
| `Js.ToFixed1` | backend/index.js:261 | `toFixed(1)` renders at least three characters |
| `Js.ToFixed1Sign` | backend/index.js:261 | the rendering starts with '-' exactly for negative values, and with a digit otherwise |
| `Js.ToFixed1Nat` | backend/index.js:268 | an integer renders as its digits followed by ".0" |
| `Js.SumConcat` | sync_app/src/components/FeePaymentSystem.jsx:217 | a `reduce` sum over two lists is the sum of the two sums |
| `Js.SumNonNegative` | sync_app/src/components/FeePaymentSystem.jsx:414 | a sum of non-negative terms is non-negative |
| `Js.Count` | sync_app/src/components/SmartAnalyticsDashboard.jsx:92-94 | a filtered count never exceeds the list length |
| `Js.CountComplement` | sync_app/src/components/SmartAnalyticsDashboard.jsx:92-96 | the counts of a test and of its negation add up to the length |
| `Seqs.Filter` | sync_app/src/components/StudentList.jsx:183 | `filter` never lengthens a list |
| `Seqs.FilterMembers` | sync_app/src/components/StudentList.jsx:78 | a filter keeps exactly the elements that pass its test |
| `Seqs.FilterIsSubsequence` | sync_app/src/components/TeachersManagement.jsx:171 | a filter keeps its survivors in their original order |
| `Seqs.FilterAll` | sync_app/src/components/StudentList.jsx:183-192 | a filter whose test always holds returns the list unchanged |
| `Seqs.FilterNone` | sync_app/src/components/SmartAnalyticsDashboard.jsx:187-196 | a filter whose test never holds returns nothing |
| `Seqs.FilterConcat` | sync_app/src/components/SmartAnalyticsDashboard.jsx:187 | filtering distributes over concatenation |
| `Seqs.FilterMultiset` | sync_app/src/components/TeachersManagement.jsx:171 | a filter keeps every occurrence of an element that passes its test and none of one that fails |
| `Seqs.FilterFilter` | sync_app/src/components/FeePaymentSystem.jsx:407-415 | two filters in a row are one filter whose test is both tests |
| `Seqs.FilterDropsOne` | sync_app/src/components/TeachersManagement.jsx:171 | a filter that rejects exactly one element removes just that one |
| `Seqs.Map` | sync_app/src/components/QuickOverview.jsx:98 | `map` keeps the length and applies the callback at every index |
| `Seqs.Slice` | sync_app/src/components/TeachersManagement.jsx:239-242 | `slice` clamps both bounds to the length, so a slice is never longer than the list |
| `Seqs.CeilFacts` | sync_app/src/components/TeachersManagement.jsx:414 | `Math.ceil(n / k)` pages of `k` cover the list, and one page fewer does not |
| `Seqs.PageSize` | sync_app/src/components/BulkUpload.jsx:170-172 | a page holds at most `perPage` items; a page in 1..TotalPages is non-empty and every later page is empty |
| `Seqs.PagesPrefix` | sync_app/src/components/BulkUpload.jsx:170-173 | pages 1..m laid end to end are the list's first `m * perPage` items |
| `Seqs.PagesPartition` | sync_app/src/components/BulkUpload.jsx:170-173 | pages 1..TotalPages laid end to end give the whole list back |
| `Grouping.KeysInOrderSpec` | sync_app/src/components/SmartAnalyticsDashboard.jsx:64-81 | the keys of the accumulator appear once each and are exactly the keys some record carries |
| `Grouping.BucketStep` | sync_app/src/components/SmartAnalyticsDashboard.jsx:69-74 | one more record adds its value and one to its key's bucket; a new key takes the record's label; other buckets are unchanged |
| `Grouping.GroupBy` | sync_app/src/components/SmartAnalyticsDashboard.jsx:137-156 | the `reduce` loop returns, for each key in order of first appearance, its first label, its total and its count |
| `Grouping.SumBump` | sync_app/src/components/SmartAnalyticsDashboard.jsx:150 | adding to the term of one key that occurs once adds that amount to the sum |
| `Grouping.GroupTotalsSum` | sync_app/src/components/SmartAnalyticsDashboard.jsx:109-123 | the group totals partition the total of all records that have a key |
| `Grouping.InsertSpec` | sync_app/src/components/SmartAnalyticsDashboard.jsx:158 | inserting into an ascending list keeps it ascending and adds exactly that element |
| `Grouping.SortAscendingSpec` | sync_app/src/components/SmartAnalyticsDashboard.jsx:158 | `Object.values` over integer keys lists the keys in ascending order, as a permutation of the input keys |
| `DashboardStats.Latest` | backend/index.js:154-173 | `ORDER BY start_date DESC LIMIT 1`: the result passes the filter and no passing row starts later; None exactly when no row passes |
| `DashboardStats.PreviousTermSpec` | backend/index.js:168-175 | the previous term is null exactly when every term has the current id; otherwise it is a latest-starting term with another id |
| `DashboardStats.PreviousTermMayBeLater` | backend/index.js:168-173 | the "previous" term can start after the current one |
| `DashboardStats.RawTrendHead` | backend/index.js:260-262 | the unsigned trend begins with '-' exactly when the figure fell from a positive base |
| `DashboardStats.TrendSign` | backend/index.js:286-290 | every trend starts with '+' or '-', and with '-' exactly when the figure fell from a positive base |
| `DashboardStats.TrendWithoutBase` | backend/index.js:260-262 | with no positive base the trend is "+0%", never "0%" |
| `DashboardStats.TrendOfSelf` | backend/index.js:264-269 | a count compared with itself gives "+0.0%" when positive and "+0%" when zero |
| `DashboardStats.TrendExample` | backend/index.js:258-262 | 110 students against 100 gives "+10.0%" |
| `DashboardStats.AttendanceRateBounds` | backend/index.js:279-282 | the attendance rate is between 0 and 100 |
| `DashboardStats.AttendanceHalfDay` | backend/index.js:280-281 | a day with one session present counts as half a day |
| `DashboardStats.StatsOutcome` | backend/index.js:145-298 | 400 exactly without a school id and 404 exactly without a current term; never 500 in the corrected endpoint; student and fee trends are signed, and the teacher trend is "+0.0%" or "+0%" |
| `DashboardStats.StatsWithoutPreviousTerm` | backend/index.js:199-237 | without a previous term the endpoint answers, with student and fee trends "+0%" |
| `DashboardStats.StatsAsWrittenFailsWithoutPreviousTerm` | backend/index.js:233-273 | as written, every school with a current term and no other term gets a 500, where the corrected endpoint answers |
| `DashboardStats.OnlyCurrentTermHasNoPrevious` | backend/index.js:161-176 | a school whose only term is the current one has no previous term, so the endpoint as written answers 500 |
| `DashboardStats.StatsAsWrittenAgrees` | backend/index.js:233-276 | when a previous term exists, the endpoint as written and the corrected one agree |
| `DashboardStats.StatsAttendance` | backend/index.js:279-291 | the reply's attendance figure is the rendered current-term rate, and that rate lies in [0, 100] |
| `FeeLedger.PaymentReflected` | sync_app/src/components/FeePaymentSystem.jsx:407-415 | a new payment by the student lowers the balance by exactly its amount; one by another student changes nothing |
| `FeeLedger.TwoPaymentsBothCount` | sync_app/src/components/FeePaymentSystem.jsx:407-408 | two payments of 1000 by the same student both count |
| `FeeLedger.LedgerExample` | sync_app/src/components/FeePaymentSystem.jsx:402-422 | 15000 expected: 2 x 5000 leaves 5000 pending; another 6000 overpays to a balance of -1000 shown as "Paid" |
| `FeeLedger.ApplicableWithoutClassItems` | sync_app/src/components/FeePaymentSystem.jsx:410-412 | without class-specific structures, every class is charged the same items |
| `FeeLedger.StudentFeeStatsAsWrittenAgrees` | sync_app/src/components/FeePaymentSystem.jsx:402-422 | where the code as written computes a result, it equals the corrected statistics for a student of any class |
| `FeeLedger.StudentFeeStatsAsWrittenFails` | sync_app/src/components/FeePaymentSystem.jsx:411 | a class-specific fee makes the code as written throw, where the corrected statistics charge it to that class |
| `FeeLedger.ExpectedForNewStructure` | sync_app/src/components/FeePaymentSystem.jsx:410-414 | a structure without a class id adds its items to every student's expected total; one with a class id adds them only for students of that class and leaves the others' totals unchanged |
| `FeeLedger.NetProfitMoves` | sync_app/src/components/FeePaymentSystem.jsx:216-223 | net profit rises by a new payment's amount and falls by a new expense or salary payment |
| `FeeLedger.IncomeIsAllPayments` | sync_app/src/components/FeePaymentSystem.jsx:217 | for any list of distinct listed students, fee income is the sum of their ledger rows' paid totals plus the payments of students the ledger does not list; with no negative amounts it is never negative |
| `FeeLedger.PayrollRowSpec` | sync_app/src/components/FeePaymentSystem.jsx:1005-1022 | the allowances column is the sum of the four allowances and the deductions column the sum of the four deductions, missing values counting 0; each is 0 when its four are all missing and allowances are non-negative when theirs are; the net salary shown is the stored one |
| `FeeLedger.PayrollExample` | sync_app/src/components/FeePaymentSystem.jsx:1005-1022 | allowances 7000 and deductions 3700 on a concrete record, even with a stored net of 0 |
| `FeeLedger.HandleFeePaymentSpec` | sync_app/src/components/FeePaymentSystem.jsx:226-250 | blocked exactly when student, amount or date is empty; otherwise a payment then a receipt with the same student, amount, date and method |
| `FeeLedger.NegativeAmountAccepted` | sync_app/src/components/FeePaymentSystem.jsx:228 | an amount of "-500" passes the guard |
| `FeeLedger.GuardsIgnoreOptionalFields` | sync_app/src/components/FeePaymentSystem.jsx:276-379 | the expense, payroll, budget and report guards depend on their required fields only |
| `StudentList.FeeStatusClassification` | sync_app/src/components/StudentList.jsx:158-180 | for every student: "Paid" exactly when paid >= expected; a strictly positive due of expected - paid exactly when 0 < paid < expected; otherwise the whole expected total is due |
| `StudentList.NoFeeItemsIsPaid` | sync_app/src/components/StudentList.jsx:159-164 | a student without fee items shows as paid with the green badge |
| `StudentList.ItemTotalConcat` | sync_app/src/components/StudentList.jsx:159-160 | when no amount is absent, the total over two lists of items is the sum of their two totals |
| `StudentList.PayingMoreKeepsPaid` | sync_app/src/components/StudentList.jsx:158-180 | raising one item's paid amount when no amount is absent raises the paid total by the difference and leaves the expected total, so a "Paid" badge stays "Paid" |
| `StudentList.MissingAmountCountsAsZero` | sync_app/src/components/StudentList.jsx:160 | one item whose paid amount is absent makes the sum NaN and the paid total 0, so all of the expected amount is due |
| `StudentList.NullAmountAddsNothing` | sync_app/src/components/StudentList.jsx:159-160 | a `null` paid amount adds nothing but keeps the other items' payments: 8000 of 10000 is due after 2000 paid on another item |
| `StudentList.FilteredStudentsSpec` | sync_app/src/components/StudentList.jsx:183-192 | the search keeps exactly the matching students in order, and an empty search keeps everyone |
| `StudentList.SearchIgnoresCase` | sync_app/src/components/StudentList.jsx:184-190 | for a student without a parent phone, lowering the search term changes nothing |
| `StudentList.MockStudent` | sync_app/src/components/StudentList.jsx:120-126 | the added record has the given id, the form's fields, class "Form 1", is active, and has no fee items |
| `StudentList.WithoutUserSpec` | sync_app/src/components/StudentList.jsx:78 | deleting a user id removes every entry with that id, keeps the others in order, and keeps every other entry as many times as it occurred |
| `StudentList.StudentRoster.constructor` | sync_app/src/components/StudentList.jsx:65-91 | the roster starts with the loaded list, no selection and an empty form |
| `StudentList.StudentRoster.Select` | sync_app/src/components/StudentList.jsx:195-208 | the row's student becomes the selection; the list and the form are unchanged |
| `StudentList.StudentRoster.SelectThenDelete` | sync_app/src/components/StudentList.jsx:65-91 | opening the delete modal on a student and confirming removes exactly that user's entries on an ok answer, nothing otherwise, and clears the selection |
| `StudentList.StudentRoster.Delete` | sync_app/src/components/StudentList.jsx:65-91 | nothing without a selection; an ok answer removes the selected user's entries; the selection is cleared either way |
| `StudentList.StudentRoster.Add` | sync_app/src/components/StudentList.jsx:112-146 | appends the record built from the form, keeps every earlier entry, and clears the form |
| `TeachersManagement.AssignClassTeacherSpec` | sync_app/src/components/TeachersManagement.jsx:205-225 | with the previous holder found by class id rather than by JavaScript type: the length is kept; the target becomes class teacher of the class; the previous holder is reset; nobody else changes; afterwards exactly the target's entries hold the class |
| `TeachersManagement.AssignAsWrittenKeepsOldHolder` | sync_app/src/components/TeachersManagement.jsx:214-216 | as written, a teacher loaded with numeric class 3 keeps it when the select assigns the string "3" to another teacher, so both hold class 3 |
| `TeachersManagement.AssignAsWrittenAgrees` | sync_app/src/components/TeachersManagement.jsx:214-216 | when every stored class id has the kind of the assigned one, the code as written gives the corrected assignment |
| `TeachersManagement.SameKindSameClass` | sync_app/src/components/TeachersManagement.jsx:215 | two class ids of the same kind name the same class exactly when they are `===` |
| `TeachersManagement.ClassLabelOfNumber` | sync_app/src/components/TeachersManagement.jsx:363-365 | a numeric class id shows the name of the first class with that id |
| `TeachersManagement.ClassLabelOfText` | sync_app/src/components/TeachersManagement.jsx:363-365 | a class id stored as text, as the select assigns it, matches no class and shows as "Class <id>" |
| `TeachersManagement.ReplaceByIdSpec` | sync_app/src/components/TeachersManagement.jsx:122-124 | an update keeps the length, puts the server's record at every index with the id, and leaves every other entry as it was |
| `TeachersManagement.WithoutTeacherSpec` | sync_app/src/components/TeachersManagement.jsx:171 | a delete removes exactly the entries with the id, keeps the others in order, and keeps every other entry as many times as it occurred |
| `TeachersManagement.TeacherRoster.constructor` | sync_app/src/components/TeachersManagement.jsx:59 | the roster starts on page 1 with the loaded list |
| `TeachersManagement.TeacherRoster.Submit` | sync_app/src/components/TeachersManagement.jsx:104-164 | a rejected form or failed request keeps the list; otherwise the form's id selects an update by id, and no id an append |
| `TeachersManagement.TeacherRoster.Delete` | sync_app/src/components/TeachersManagement.jsx:167-178 | after confirmation and an ok answer the id's entries are removed; otherwise nothing changes |
| `TeachersManagement.TeacherRoster.AssignClass` | sync_app/src/components/TeachersManagement.jsx:205-225 | an ok answer applies the class-teacher assignment; a failure keeps the list |
| `TeachersManagement.TeacherRoster.PreviousPage` | sync_app/src/components/TeachersManagement.jsx:406-412 | moves one page back, and stays put on page 1 |
| `TeachersManagement.TeacherRoster.NextPage` | sync_app/src/components/TeachersManagement.jsx:416-424 | moves one page on, and stays put on the last page |
| `TeachersManagement.FilteredTeachersSpec` | sync_app/src/components/TeachersManagement.jsx:228-234 | the search keeps exactly the matching teachers in order, and an empty query keeps everyone |
| `TeachersManagement.FullNameFindsTeacher` | sync_app/src/components/TeachersManagement.jsx:229-232 | for any teacher with a user whose first and last names are set, whatever the e-mail, searching for "first last" in any letter case finds them |
| `TeachersManagement.CurrentTeachersSpec` | sync_app/src/components/TeachersManagement.jsx:237-242 | a page holds at most six teachers; pages beyond the last are empty; the pages laid end to end are the filtered list; the pager shows exactly when there are two or more pages |
| `BulkUpload.TransformHeaderSpec` | sync_app/src/components/BulkUpload.jsx:48-53 | a normalised header holds only [a-z0-9], and normalising it again changes nothing |
| `BulkUpload.TransformHeaderOneSpace` | sync_app/src/components/BulkUpload.jsx:48-53 | a header of letters and digits with one space normalises to its lower-case letters without the space |
| `BulkUpload.MissingErrorsSpec` | sync_app/src/components/BulkUpload.jsx:63-69 | the missing-field errors are "Missing " plus the labels of the missing fields, in field order |
| `BulkUpload.MissingErrorsNone` | sync_app/src/components/BulkUpload.jsx:63-69 | no missing-field error exactly when every required field is filled |
| `BulkUpload.MissingErrorReported` | sync_app/src/components/BulkUpload.jsx:64-65 | an absent or empty required field is reported |
| `BulkUpload.PresentCellsSpec` | sync_app/src/components/BulkUpload.jsx:66-67 | the copied record holds exactly the filled required cells with their text |
| `BulkUpload.FormattedGender` | sync_app/src/components/BulkUpload.jsx:72-74 | a record is built only from a row that passed every check, so its gender is "male" or "female" |
| `BulkUpload.CheckRequired` | sync_app/src/components/BulkUpload.jsx:63-69 | the field loop yields the missing-field errors and the copied cells |
| `BulkUpload.CheckFormats` | sync_app/src/components/BulkUpload.jsx:72-86 | the four format checks yield their errors in source order |
| `BulkUpload.ValidateRow` | sync_app/src/components/BulkUpload.jsx:59-86 | one row's errors are the missing-field errors followed by the format errors |
| `BulkUpload.ValidateRows` | sync_app/src/components/BulkUpload.jsx:58-109 | each row goes either to the error list, tagged with its 1-based number, or formatted to the validated list |
| `BulkUpload.PartitionSizes` | sync_app/src/components/BulkUpload.jsx:88-108 | every row lands in exactly one of the two lists |
| `BulkUpload.ErrorRowsSound` | sync_app/src/components/BulkUpload.jsx:88-93 | each error entry holds the row with its 1-based number and that row's own non-empty errors, in increasing row order |
| `BulkUpload.ErrorRowsComplete` | sync_app/src/components/BulkUpload.jsx:88-93 | every row with an error has an entry in the error list |
| `BulkUpload.ValidRowsAreFilteredRows` | sync_app/src/components/BulkUpload.jsx:94-107 | the validated list is exactly the error-free rows, each formatted, in input order, with no row repeated or skipped |
| `BulkUpload.ValidRowsSound` | sync_app/src/components/BulkUpload.jsx:94-107 | each validated record is the formatted form of an input row without errors |
| `BulkUpload.CanSubmitAfterValidation` | sync_app/src/components/BulkUpload.jsx:125 | after validation, submit is possible exactly when the file had rows and none had an error |
| `BulkUpload.PreviewPages` | sync_app/src/components/BulkUpload.jsx:170-173 | a preview page holds at most ten rows; the offered pages give back the whole list; an empty list has no pages |
| `BulkUpload.MarksLabelNormalises` | sync_app/src/components/BulkUpload.jsx:31 | the header "KCPE Marks" normalises to "kcpemarks" |
| `BulkUpload.MarksLabelKey` | sync_app/src/components/BulkUpload.jsx:31 | a marks column headed by its own label matches the corrected key and never the key as written |
| `BulkUpload.AsWrittenRejectsEveryRow` | sync_app/src/components/BulkUpload.jsx:31 | with the table as written, every row lacking a "kcpeemarks" cell is reported, nothing is validated, and the upload can never be submitted |
| `BulkUpload.NothingValid` | sync_app/src/components/BulkUpload.jsx:88-108 | when every row has an error, nothing is validated |
| `BulkUpload.CorrectedAcceptsCompleteRow` | sync_app/src/components/BulkUpload.jsx:22-108 | with the corrected table, a row filling every required field with well-formed values is validated |
| `SchoolSettings.ReplaceByIdSpec` | sync_app/src/components/SchoolSettings.jsx:227-229 | an update keeps length and ids, puts the edited record at every index with its id, and leaves the rest; without that id the list is unchanged |
| `SchoolSettings.WithoutIdSpec` | sync_app/src/components/SchoolSettings.jsx:249-251 | a delete keeps exactly the entries with another id, in order; without that id the list is unchanged |
| `SchoolSettings.InputValueOf` | sync_app/src/components/SchoolSettings.jsx:176 | a checkbox contributes its checked state, every other input its text |
| `SchoolSettings.SetClassField` | sync_app/src/components/SchoolSettings.jsx:165-172 | a class input sets exactly its own field; other names change nothing |
| `SchoolSettings.SetSubjectField` | sync_app/src/components/SchoolSettings.jsx:174-183 | a subject input sets exactly its own field; the examinable flag takes the checkbox state |
| `SchoolSettings.SettingsLists.constructor` | sync_app/src/components/SchoolSettings.jsx:25-52 | the loaded lists with empty forms and nothing under edit |
| `SchoolSettings.SettingsLists.ChangeClassInput` | sync_app/src/components/SchoolSettings.jsx:165-172 | the input goes to the class under edit when there is one, and to the new-class form otherwise |
| `SchoolSettings.SettingsLists.ChangeSubjectInput` | sync_app/src/components/SchoolSettings.jsx:174-183 | the same for subjects, with the checkbox rule |
| `SchoolSettings.SettingsLists.AddClass` | sync_app/src/components/SchoolSettings.jsx:185-213 | an incomplete form changes nothing; an ok answer appends the stored class and clears the form; a failure keeps list and form |
| `SchoolSettings.SettingsLists.UpdateClass` | sync_app/src/components/SchoolSettings.jsx:215-240 | without a complete class under edit nothing changes; an ok answer replaces the entries with its id and closes the editor |
| `SchoolSettings.SettingsLists.DeleteClass` | sync_app/src/components/SchoolSettings.jsx:242-258 | no guard; an ok answer drops every class with the id |
| `SchoolSettings.SettingsLists.AddSubject` | sync_app/src/components/SchoolSettings.jsx:261-292 | as for classes, with name and code required; the form resets to an examinable compulsory subject |
| `SchoolSettings.SettingsLists.UpdateSubject` | sync_app/src/components/SchoolSettings.jsx:296-321 | as for classes, with name and code required |
| `SchoolSettings.SettingsLists.DeleteSubject` | sync_app/src/components/SchoolSettings.jsx:323-340 | an ok answer drops every subject with the id |
| `SchoolSettings.UpdateClassKeepsOthers` | sync_app/src/components/SchoolSettings.jsx:227-229 | saving an edited class keeps the length and ids, and leaves every other class untouched |
| `SchoolSettings.NoSchoolLoadsInitialForm` | sync_app/src/components/SchoolSettings.jsx:111-127 | without a school row the form loads exactly as initialised |
| `SchoolSettings.SchoolInfoRoundTrip` | sync_app/src/components/SchoolSettings.jsx:112-127 | saving then loading gives the form back, except that an empty type or category returns as "National"/"Mixed"; a second round trip changes nothing |
| `SchoolSettings.BeforeTSpec` | sync_app/src/components/SchoolSettings.jsx:133-134 | `split('T')[0]` is the prefix with no 'T' that is the whole string or is followed by 'T' |
| `SchoolSettings.BeforeTOfDateTime` | sync_app/src/components/SchoolSettings.jsx:133-134 | "yyyy-mm-ddT..." loads as its date part |
| `SchoolSettings.DateSetting` | sync_app/src/components/SchoolSettings.jsx:133-134 | a missing date loads as "", a present one as its part before the first 'T' |
| `SchoolSettings.NumberOrDefaultSpec` | sync_app/src/components/SchoolSettings.jsx:135-137 | the stored number if it parses to non-zero, the default otherwise; never zero with a non-zero default |
| `SchoolSettings.LoadAcademicSettingsSpec` | sync_app/src/components/SchoolSettings.jsx:128-138 | loaded settings never show a zero exam or CAT percentage or a blank term; without a row the form is its initial state |
| `SchoolSettings.ZeroPercentageLoadsDefault` | sync_app/src/components/SchoolSettings.jsx:135 | a stored exam percentage of 0 loads as 70 |
| `Signup.NoKeysIff` | sync_app/src/components/Signup.jsx:69 | `Object.keys(e).length === 0` exactly when the error object is empty |
| `Signup.StepOneErrors` | sync_app/src/components/Signup.jsx:49-67 | each key holds its message exactly when its check fails, all failing checks together |
| `Signup.StepOneErrorsEmptyIff` | sync_app/src/components/Signup.jsx:49-70 | no error is set exactly when the twelve required checks pass |
| `Signup.ConfirmPasswordError` | sync_app/src/components/Signup.jsx:62 | the confirm-password error is there exactly when the passwords differ |
| `Signup.AllMissingReported` | sync_app/src/components/Signup.jsx:53-66 | errors are collected, not cut short: four missing fields give four errors |
| `Signup.UncheckedFieldsIgnored` | sync_app/src/components/Signup.jsx:49-70 | the fields outside the twelve checks play no part in validation |
| `Signup.RegisterAsWritten` | sync_app/src/components/Signup.jsx:79 | the undeclared call always throws, whatever the server would say; it only binds the call, and `AsWrittenStaysOnStepOne` carries the property |
| `Signup.Register` | sync_app/src/components/Signup.jsx:79-82 | the bound call passes the server's answer on; it only binds the call, and `RegisterReachesStepTwo` carries the property |
| `Signup.AsWrittenStaysOnStepOne` | sync_app/src/components/Signup.jsx:72-88 | as written, a submit never leaves step 1 |
| `Signup.RegisterReachesStepTwo` | sync_app/src/components/Signup.jsx:72-88 | with the call bound, step 2 is reached exactly for a valid form the server accepts |
| `Signup.Registration.constructor` | sync_app/src/components/Signup.jsx:6-36 | the wizard starts on step 1 with no errors and not submitting |
| `Signup.Registration.CheckSchoolFields` | sync_app/src/components/Signup.jsx:53-57 | the five school checks fill their keys |
| `Signup.Registration.CheckAdminAccount` | sync_app/src/components/Signup.jsx:60-62 | the username, password and confirm checks fill their keys and keep the others |
| `Signup.Registration.CheckAdminDetails` | sync_app/src/components/Signup.jsx:63-66 | the e-mail, name and ID checks fill their keys and keep the others |
| `Signup.Registration.ValidateStepOne` | sync_app/src/components/Signup.jsx:49-70 | stores the step-1 errors, and returns true exactly when there are none |
| `Signup.Registration.HandleSubmit` | sync_app/src/components/Signup.jsx:72-88 | with the call bound (finding at Signup.jsx:79): the call is made exactly for a valid form; the step follows the server's answer; submitting ends false |
| `Login.ChangeField` | sync_app/src/components/Login.jsx:16-19 | an input sets exactly its own field; other names change nothing |
| `Login.RoleChange` | sync_app/src/components/Login.jsx:21-28 | switching role clears identifier and password |
| `Login.FindFrom` | sync_app/src/components/Login.jsx:46 | finds the first occurrence at or after an offset, or reports that there is none |
| `Login.EmailShapedMatches` | sync_app/src/components/Login.jsx:46 | a string the scan accepts matches `/^\S+@\S+\.\S+$/` |
| `Login.MatchHasNoWhitespace` | sync_app/src/components/Login.jsx:46 | a match contains no whitespace |
| `Login.MatchIsEmailShaped` | sync_app/src/components/Login.jsx:46 | a string the regular expression matches passes the scan |
| `Login.EmailShapedIff` | sync_app/src/components/Login.jsx:46 | the scan accepts exactly the strings the regular expression matches |
| `Login.NonMatches` | sync_app/src/components/Login.jsx:46 | a string with a space, or with no '.', never matches |
| `Login.ValidateForm` | sync_app/src/components/Login.jsx:30-52 | None exactly when identifier and password are set and a non-student identifier matches the pattern; otherwise the first failing check's message |
| `Login.StudentIdentifierNotChecked` | sync_app/src/components/Login.jsx:41-49 | a student's admission number is never checked for shape |
| `Login.RoleChangeThenSubmit` | sync_app/src/components/Login.jsx:21-36 | right after a role switch, validation reports the missing identifier for that role |
| `Login.RouteForSpec` | sync_app/src/components/Login.jsx:82-94 | each known role goes to its own dashboard; any other role goes to "/" |
| `Login.Submit` | sync_app/src/components/Login.jsx:54-102 | invalid exactly when validation fails; logged in exactly for a valid form and a token; otherwise the server's or the fallback message |
| `QuickOverview.TransformPaymentsSpec` | sync_app/src/components/QuickOverview.jsx:98-110 | one row per payment, in order, with copied fields, status "completed", and the name, admission number and receiver fallbacks |
| `QuickOverview.MissingLastNameRendered` | sync_app/src/components/QuickOverview.jsx:100-110 | a `null` last name is shown as "null" and an absent one as "undefined" after the first name |
| `QuickOverview.TransformPaymentsNonBlank` | sync_app/src/components/QuickOverview.jsx:100-110 | no student name, admission number or receiver cell is blank |
| `QuickOverview.TransformKeepsIds` | sync_app/src/components/QuickOverview.jsx:98-99 | the table's ids are the payments' ids, in order |
| `QuickOverview.TransformPaymentsConcat` | sync_app/src/components/QuickOverview.jsx:98-110 | transforming two lists joined is joining their transforms |
| `QuickOverview.AsWrittenHidesNames` | sync_app/src/components/QuickOverview.jsx:98-110 | every payment as the backend sends it shows "Unknown Student" and "System", with only its admission number read |
| `QuickOverview.ServedPaymentRowShowsNames` | sync_app/src/components/QuickOverview.jsx:98-110 | reading `student.name` and `received_by` gives the student's and the recorder's names: the row the page's transformation gives for a payment carrying the users it expects |
| `QuickOverview.TrendColorSpec` | sync_app/src/components/QuickOverview.jsx:157 | green exactly when the trend's first character is '+', red otherwise |
| `QuickOverview.TrendColorOfTrend` | sync_app/src/components/QuickOverview.jsx:157-175 | on the endpoint's trends, red exactly when the figure fell from a positive base |
| `QuickOverview.ProcessedStatsSpec` | sync_app/src/components/QuickOverview.jsx:150-186 | no cards without stats; otherwise four cards in a fixed order, with their values, trends and colours, and the attendance progress bar |
| `QuickOverview.EndpointCards` | sync_app/src/components/QuickOverview.jsx:150-186 | on the endpoint's statistics the teacher card is always green, and a trend card is red exactly when its trend is negative |
| `QuickOverview.ChangeLoginField` | sync_app/src/components/QuickOverview.jsx:31-36 | an input sets exactly its own field; other names change nothing |
| `QuickOverview.OverviewPage.CurrentScreen` | sync_app/src/components/QuickOverview.jsx:189-290 | the sign-in form exactly without a token, then the spinner while loading, then the error screen |
| `QuickOverview.OverviewPage.constructor` | sync_app/src/components/QuickOverview.jsx:11-28 | initial state over the stored values, with the header set from a stored token |
| `QuickOverview.OverviewPage.ChangeLogin` | sync_app/src/components/QuickOverview.jsx:31-36 | updates the sign-in form and nothing else |
| `QuickOverview.OverviewPage.HandleLogin` | sync_app/src/components/QuickOverview.jsx:39-63 | a granted login stores token and school id and sets the header; a refused one shows the server's or the fallback message |
| `QuickOverview.OverviewPage.Logout` | sync_app/src/components/QuickOverview.jsx:66-72 | removes exactly the token and the school id, drops the header, and goes to "/login" |
| `QuickOverview.OverviewPage.FetchAllData` | sync_app/src/components/QuickOverview.jsx:75-128 | "Authentication required" without credentials; on success stores stats, transformed payments and activities; on failure shows the error and logs out exactly on a 403; loading ends |
| `QuickOverview.OverviewPage.Mount` | sync_app/src/components/QuickOverview.jsx:131-139 | not signed in: nothing changes, and a token without a school id keeps the spinner; signed in: the whole new state of FetchAllData, for success, failure and a 403 |
| `QuickOverview.FetchErrorSpec` | sync_app/src/components/QuickOverview.jsx:116 | a failed request always yields a non-empty message: the body's error or the request's own message |
| `QuickOverview.EndpointErrorShown` | sync_app/src/components/QuickOverview.jsx:116-124 | the endpoint's own error text is shown, and the endpoint never answers 403 itself |
| `Analytics.AverageBounds` | sync_app/src/components/SmartAnalyticsDashboard.jsx:83 | `count ? Math.round(total / count) : 0` lies in [0, 100] for marks in [0, 100] |
| `Analytics.KeyTotalBounds` | sync_app/src/components/SmartAnalyticsDashboard.jsx:73 | a key's total of values in [0, 100] lies in [0, 100 x its count] |
| `Analytics.StudentPerformance` | sync_app/src/components/SmartAnalyticsDashboard.jsx:60-85 | the grouping loop yields the monthly performance series |
| `Analytics.MonthlyPerformanceSpec` | sync_app/src/components/SmartAnalyticsDashboard.jsx:60-85 | each month appears once, and each month's performance is in [0, 100] for marks in [0, 100] |
| `Analytics.AttendancePieSpec` | sync_app/src/components/SmartAnalyticsDashboard.jsx:88-102 | no records give one "No Data" slice of 100; otherwise Present and Absent shares, each in [0, 100], adding to 100 or 101 |
| `Analytics.PercentComplement` | sync_app/src/components/SmartAnalyticsDashboard.jsx:99-100 | a rounded share and the rounded rest each lie in [0, 100] and add up to 100 or 101 |
| `Analytics.AttendancePieExample` | sync_app/src/components/SmartAnalyticsDashboard.jsx:99-100 | one present record of eight gives 13 and 88 |
| `Analytics.MonthlyFeesTotal` | sync_app/src/components/SmartAnalyticsDashboard.jsx:105-129 | no month appears twice, and the monthly fees add up to the total of all payments |
| `Analytics.FeeCollection` | sync_app/src/components/SmartAnalyticsDashboard.jsx:105-129 | the grouping loop yields the monthly fee series |
| `Analytics.ClassPerformance` | sync_app/src/components/SmartAnalyticsDashboard.jsx:132-162 | nothing without results or students; otherwise one entry per class id, named after its first result, with the rounded mean mark |
| `Analytics.ClassPerformanceSpec` | sync_app/src/components/SmartAnalyticsDashboard.jsx:137-161 | the entries come in ascending class id, one per class id some result carries; results without a class are skipped; averages lie in [0, 100] |
| `Analytics.TopClassSpec` | sync_app/src/components/SmartAnalyticsDashboard.jsx:167-168 | the fold finds nothing exactly when no class scores above 0; otherwise the first class with the highest score |
| `Analytics.SchoolPerformanceSpec` | sync_app/src/components/SmartAnalyticsDashboard.jsx:165-179 | "N/A" and 0 when no class scores above 0; otherwise the highest average; the overall score lies in [0, 100] |
| `Analytics.TopClassTie` | sync_app/src/components/SmartAnalyticsDashboard.jsx:167-168 | on equal averages the class listed first keeps the title |
| `Analytics.AtRiskIff` | sync_app/src/components/SmartAnalyticsDashboard.jsx:187-196 | at risk exactly when five times the absences exceed the records; never without records |
| `Analytics.OverloadedIff` | sync_app/src/components/SmartAnalyticsDashboard.jsx:198-203 | overloaded exactly with seven or more comma-separated entries; never without a specialization |
| `Analytics.PredictiveInsightsSpec` | sync_app/src/components/SmartAnalyticsDashboard.jsx:182-209 | the counts are of at-risk students and overloaded teachers, bounded by their lists; nobody is at risk without attendance |

## Left out

- HTTP, MySQL and Express plumbing. Query results are the `Db` record. Server answers are parameters: `ok` flags, `CallResult`, `AuthReply`, `StatsReply`, and the stored records.
- The payment-then-receipt writes of the fee form. They are two independent requests with no transaction, so only their order and contents are modelled.
- JWT signing and verification, `authenticateToken` and the private route. Only the 403 that the token check answers is modelled, as `QuickOverview.StatsReply.Forbidden`.
- `Promise.all` concurrency. The sub-queries and requests are taken one after the other.
- JavaScript floating point. Sums, quotients, `Math.round` and `toFixed(1)` are computed on exact reals. `Math.round` rounds ties up, towards +infinity, so -2.5 becomes -2. `toFixed(1)` rounds ties away from zero.
- MySQL column types. The pool in `backend/db.js` is created without `decimalNumbers`, so mysql2 hands `SUM(...)` and DECIMAL columns to JavaScript as strings. The model assumes every numeric column and amount arrives as a number. That hides string concatenation: `morning_present + afternoon_present` at `backend/index.js:281`, `totalFeeBalance` sent as a string, and `sum + (p?.amount || 0)` in the fee summaries.
- `DashboardStats.AttendanceRateBounds`: the rate is proved to be at most 100 only for numeric attendance counts. With string counts the concatenated sum can give a rate above 100.
- `toLocaleString`. It is the `format` parameter for amounts and the `month` field for month names.
- `toLowerCase` on non-ASCII letters. Only A-Z are lowered.
- `new Date(...)` validity, `toISOString`, `parseFloat` and `Papa.parse`. They are the `Parsers` parameter of the upload; the CSV text itself is not parsed.
- `Math.random()` for the id of an added student. The id is a parameter.
- Dynamic `[name]` keys on form objects. Forms are typed records, so an unknown input name leaves the record unchanged, where JavaScript would add a new key.
- Toasts, modals, icons, spinners, and CSS classes other than the badge and trend colours that the contracts mention.
- `window.location.reload()` after a successful login in the overview. The reload itself is not modelled.
- The overview's activity list is stored as received, and its icon mapping is left out.
- `BulkUpload.MarksLabelNormalises`: only the marks column's label is proved to normalise to its key. `BulkUpload.TransformHeaderOneSpace` covers every one-space label, but "Date of Birth" has two spaces and is not covered.
- `Signup.Registration.ValidateStepOne` splits `validateStep1`'s twelve checks into three helper methods, the school checks, the admin account and the admin details, to keep each proof small. The checks run in source order and give the same result.
- The sign-up wizard's step 2, `SchoolProfileSetup`, is not part of this model.
- Where the names, comments or labels on screen suggest more than the code does, the model follows the code:
  - the "previous" term is not required to start before the current one;
  - the teacher trend compares the active-teacher count with itself;
  - fee income sums every payment of the school, with no filter by term;
  - the ledger badge is only "Paid" or "Pending";
  - the payroll table shows the stored net salary rather than recomputing it.

## Findings

| source | as written | input that shows it | evidently intended | confidence | as-written member | corrected member |
|---|---|---|---|---|---|---|
| backend/index.js:237 | Without a previous term, the fee placeholder `Promise.resolve([{ total: 0 }])` is read as `[0][0].total`. This reads `.total` of undefined, so the endpoint answers 500. | a school whose only term is the current one | a missing previous term counts as 0, like the student placeholder at line 207 | not executed | `DashboardStats.StatsAsWrittenFailsWithoutPreviousTerm` | `DashboardStats.StatsWithoutPreviousTerm` |
| sync_app/src/components/FeePaymentSystem.jsx:411 | The filter callback reads `student.class_id`, but nothing named `student` is in scope in `calculateStudentFeeStats`. | any fee structure with a class id and at least one item | the callback compares with the class of the student whose statistics are computed | not executed | `FeeLedger.StudentFeeStatsAsWrittenFails` | `FeeLedger.ExpectedForNewStructure` |
| sync_app/src/components/BulkUpload.jsx:31 | The marks column's key is `kcpeemarks`, but the header "KCPE Marks" normalises to `kcpemarks`. Every row is then "Missing KCPE Marks". | a CSV with the header row of the required-field labels and one complete row | key `kcpemarks`, which the header normalises to | not executed | `BulkUpload.AsWrittenRejectsEveryRow` | `BulkUpload.CorrectedAcceptsCompleteRow` |
| sync_app/src/components/Signup.jsx:79 | `registerSchoolAndAdmin` is neither declared nor imported. The call throws a ReferenceError that the catch swallows, so step 2 is never reached. | a valid first step that the server would accept | the registration call's answer decides whether step 2 is reached | not executed | `Signup.AsWrittenStaysOnStepOne` | `Signup.RegisterReachesStepTwo` |
| sync_app/src/components/TeachersManagement.jsx:215 | The previous class teacher is found with `t.class_teacher_for === classId`. `classId` is the select's `e.target.value`, a string, while loaded teachers hold numeric class ids, so the comparison is always false for them. | teacher 1 loaded with `class_teacher_for: 3`; assign "3" to teacher 2 | the previous holder of the class is reset, whatever the type of its stored id | not executed | `TeachersManagement.AssignAsWrittenKeepsOldHolder` | `TeachersManagement.AssignClassTeacherSpec` |
| sync_app/src/components/QuickOverview.jsx:100 | The table reads `payment.student?.user?.first_name` and `payment.received_by_user`, but `/api/fee-payments/recent` (`backend/index.js:334-343`) sends `student.name` and a plain `received_by` string. | any payment returned by the endpoint | the row shows the student's and the recorder's names | not executed | `QuickOverview.AsWrittenHidesNames` | `QuickOverview.ServedPaymentRowShowsNames` |
