# School attendance tracker: scan ledger, dashboard figures and roster import

This project models the attendance logic of a small school tracker written in
React/TypeScript, and proves properties of the model in Dafny. The model has
three parts.

- **Scan ledger** (`App.tsx`). `SchoolApp` holds the school profile and the
  `students`, `teachers`, `classes` and `attendance` sequences.
  - A scanned id is looked up among the students first, then among the
    teachers.
  - A scan is rejected when no one has the id, or when the log already has a
    record for that person on that date.
  - Otherwise the scan is classified PRESENT or LATE against the school's
    start time, and exactly one record is appended.
  - `Ledger.Scan` states what one scan does as a function. `HandleScan` is
    proved against it.
  - "At most one record per person and date" is preserved.
  - The add and delete handlers append to their list or filter it by id.
- **Dashboard figures** (`components/Dashboard.tsx`).
  - Today's STUDENT records give the present and late id sets.
  - Those sets give the present, late and absent student lists, the
    unclamped absent count and the "Present Today" headline.
  - `GetChartData` builds the seven-day chart in a loop, oldest day first.
    Each bar counts records, not people, and its absent value is clamped at
    zero against the current roster size, taken as at least 1.
- **Roster import** (`components/StudentList.tsx`).
  - The CSV bulk import splits the text into lines, splits each line on
    commas, trims the fields and skips short lines.
  - A class is matched in two steps: first by grade and section, then by
    grade alone.
  - Grade and section get their defaults, and the accepted rows are added
    one by one through `SchoolApp.AddStudent`.
  - The manual add form has a guard and its own defaults.
  - The ID-card reader uses a class-match predicate, which is modelled too.

The records of `types.ts` are datatypes in `types.dfy`. A status is one of
exactly `Present | Late`, and a record's kind is one of exactly
`StudentKind | TeacherKind`. An optional property is an `Option`.

The TypeScript built-ins the code relies on are modelled in two modules:
- `lists.dfy`: `filter`, `find`, `some`, and `new Set(xs.map(f))`.
- `text.dfy`: `split`, `trim`, and `Number` on decimal text.

Time and identity are parameters:
- the date key of today and of each chart day;
- the time of day in milliseconds after local midnight;
- the record and student ids;
- `Date.now()` timestamps;
- avatar URLs.

## Behaviour worth knowing

- **No start time.** When the profile has no start time, or an empty one,
  every scan is PRESENT. Nothing falls back to "08:00" at that point.
  "08:00" appears in three places: the start time of the demo profile used
  when nothing is stored (`App.tsx:18`), which does classify scans; the
  default value of the setup form (`components/SchoolSetup.tsx:16`); and the
  text the dashboard shows when no start time is set
  (`components/Dashboard.tsx:132`).
- **Malformed start time.** Suppose the hours or the minutes of a start time
  are not a number, or the time has no `:`. Then the cutoff is NaN, the
  comparison is false, and the scan is PRESENT
  (`Classifier.NoMinutesIsPresent` when there is no `:`,
  `Classifier.NonNumberPieceIsPresent` when a piece holds a character that
  no decimal numeral has, as in "ab:cd").
- **Date key.** The key of today comes from `toISOString()`, so it is the UTC
  date, not the device-local date. The model takes the key as a parameter.
- **Repeat scan.** A rejected repeat scan reports the person the id resolved
  to (`AlreadyMarked(person)`, with `Resolve`'s result as `Ledger.Scan`
  states), not the record already in the log.
- **Section fallback in the import.** Suppose no class has both the typed
  grade and the typed section, or no section was typed. Then the row takes
  the section of the first class with that grade, and the typed section is
  dropped (`StudentList.ParsedSection`).

## Model

| member | source | states |
|---|---|---|
| Ledger.Resolve | App.tsx:70-73 | the id resolves to nobody exactly when no student and no teacher has it; a resolved person carries that id and the name of a student (or, failing one, a teacher) with that id, and is a student exactly when some student has the id, even if a teacher has it too |
| Ledger.Scan | App.tsx:68-123 | an unknown id leaves the log as it is; a scan is rejected as a repeat exactly when a known person already has a record for today, of any type, and the rejection reports the person the id resolves to; otherwise exactly one record is appended at the end, carrying the scanned id, today's date, STUDENT when a student has the id (else TEACHER) and the classifier's status; at most one record per person and date is preserved |
| Ledger.AppendKeepsOnePerPersonPerDay | App.tsx:79-106 | appending a record for a person and date the log does not yet hold keeps the log free of two records for one person and date |
| Ledger.SecondScanSameDayRejected | App.tsx:79-82 | after an accepted scan, every later scan of the same id on the same date is rejected and leaves the log unchanged, whatever its time and whatever records were appended in between |
| Ledger.AlreadyPresent | App.tsx:79 | whether the log has a record of this person for this date, of any type; used by `Scan`, whose contract says a scan is rejected exactly when this holds, and `SecondScanSameDayRejected` |
| Ledger.SchoolApp.constructor | App.tsx:13-57 | the state after the first load finds nothing stored: the demo school with start time "08:00", the three demo classes c1/10/A, c2/11/Science, c3/12/Commerce, and no students, teachers or records |
| Ledger.SchoolApp.HandleScan | App.tsx:68-123 | the outcome and the new log are those of `Scan` on the current roster, profile and log; students, teachers, classes and profile are untouched; the one-record-per-person-and-day invariant is preserved |
| Ledger.SchoolApp.SaveSchool | App.tsx:127-130 | the profile is replaced by the saved one |
| Ledger.SchoolApp.AddStudent | App.tsx:132-136 | the student is appended at the end of the roster, nothing else changes |
| Ledger.SchoolApp.AddTeacher | App.tsx:138-142 | the teacher is appended at the end of the staff list, nothing else changes |
| Ledger.SchoolApp.AddClass | App.tsx:144-146 | the class is appended at the end of the class list, nothing else changes |
| Ledger.SchoolApp.DeleteStudent | App.tsx:199 | the roster becomes the roster without the students with that id; the attendance log is untouched |
| Ledger.SchoolApp.DeleteTeacher | App.tsx:208 | the staff list becomes the list without the teachers with that id; the attendance log is untouched |
| Ledger.SchoolApp.DeleteClass | App.tsx:217 | the class list becomes the list without the classes with that id; students and attendance are untouched |
| Lists.RemoveKeySpec | App.tsx:199 | removing by id leaves no element with that id, keeps the survivors in their original order and keeps each other element exactly as often as before |
| Lists.Find | App.tsx:70-71 | `find` gives nothing exactly when no element matches; otherwise it gives an element of the list that matches, with no matching element before it |
| Lists.Filter | components/Dashboard.tsx:21 | `filter` keeps exactly the elements that satisfy the predicate, never more than the input; `FilterAppend`, `FilterMultiplicity`, `FilterIsSublist` and `RemoveKeySpec` state order and multiplicity |
| Lists.Keys | components/Dashboard.tsx:26 | `new Set(xs.map(key))` holds the key of every element and nothing else |
| Lists.Any | App.tsx:79 | `some`: whether an element satisfies the predicate; `Ledger.Scan` states what a scan does when it holds for the person and day |
| Classifier.LateIffAfterStart | App.tsx:85-96 | with an "HH:mm" start time, a scan is LATE exactly when it is strictly after HH:mm:00.000; a scan at the cutoff is PRESENT |
| Classifier.ClassifyStatus | App.tsx:84-96 | PRESENT unless a truthy start time parses and the scan is strictly after it; its facts are the contracts of `LateIffAfterStart`, `NoStartTimeIsPresent`, `NoMinutesIsPresent`, `NonNumberPieceIsPresent` and `EightOClockBoundary` |
| Classifier.CutoffMs | App.tsx:89-91 | the `setHours` instant of the first two `:`-pieces of the start time, or NaN; `CutoffOfHHmm` and `FormatThenCutoff` state its value on "HH:mm" times; `NoMinutesIsPresent` (no `:`) and `NonNumberPieceIsPresent` (a piece that is not a number) state its NaN cases |
| Classifier.StartTime | App.tsx:87 | the start time when the profile exists and its start time is present and non-empty; `NoStartTimeIsPresent` states what its absence means |
| Classifier.NoStartTimeIsPresent | App.tsx:85-87 | without a profile, or with the start time missing or empty, every scan is PRESENT |
| Classifier.NoMinutesIsPresent | App.tsx:89-91 | a start time without `:` has no minutes, so the cutoff is NaN and every scan is PRESENT |
| Classifier.NonNumberPieceIsPresent | App.tsx:89-93 | a start time whose hours or minutes piece holds a character that is not white space, a digit, a sign or '.' makes `Number` NaN, so the cutoff is NaN and every scan is PRESENT |
| Classifier.EightOClockBoundary | App.tsx:85-96 | with start time "08:00", a scan at 08:00:00.000 is PRESENT and a scan at 08:00:00.001 is LATE |
| Classifier.CutoffOfHHmm | App.tsx:89-91 | an "HH:mm" start time splits into its two fields, and `Number` gives the cutoff HH·3600000 + mm·60000 ms, a point inside the day |
| Classifier.FormatThenCutoff | types.ts:14 | every time of day written as "HH:mm" is a well-formed start time, and it reads back as that same time of day |
| Text.JsIntegerOfDigits | App.tsx:89 | `Number` of a non-empty run of decimal digits is its decimal value |
| Text.JsIntegerNaN | App.tsx:89 | text holding a character that is not white space, a digit, a sign or '.' converts to NaN |
| Text.JsInteger | App.tsx:89 | `Number` on decimal text, NaN as nothing; `JsIntegerOfDigits` states its value on digit strings |
| Text.Trim | components/StudentList.tsx:122 | `trim`, never longer than its input; `TrimSpec` and `TrimIdempotent` state what it keeps |
| Text.Split | components/StudentList.tsx:115-119 | `split` on one character gives at least one piece; `JoinSplit` and `SplitJoin` make it the inverse of joining |
| Text.TrimSpec | components/StudentList.tsx:122 | `trim` gives the slice of the field that lies after all leading white space and before all trailing white space, and that slice neither starts nor ends with white space |
| Text.TrimIdempotent | components/StudentList.tsx:122 | trimming a trimmed field changes nothing |
| Text.JoinSplit | components/StudentList.tsx:115-119 | joining the pieces of a `split` with the separator gives back the text |
| Text.SplitJoin | components/StudentList.tsx:115-119 | splitting a join of separator-free pieces gives back the pieces |
| Dashboard.OtherRecordsDoNotCount | components/Dashboard.tsx:21 | a record of another date, or a TEACHER record, changes none of today's figures: records, id sets, the three lists, the absent count |
| Dashboard.TodaysRecords | components/Dashboard.tsx:21 | today's STUDENT records; `OtherRecordsDoNotCount` states that no other record counts |
| Dashboard.PresentIds | components/Dashboard.tsx:23-26 | the ids of today's PRESENT student records; `IdHasRecord`, `IdsAfterAppend` and `NoRecordNoStatus` characterise it |
| Dashboard.LateIds | components/Dashboard.tsx:24-27 | the ids of today's LATE student records; characterised by the same lemmas as `PresentIds` |
| Dashboard.AttendedIds | components/Dashboard.tsx:28 | present ids together with late ids; `HeadlineCountsAttended` relates its size to the headline |
| Dashboard.PresentStudents | components/Dashboard.tsx:30 | the roster filtered by present ids; `StudentListsAreSublists` and `StudentListsCoverRosterOnce` state its properties |
| Dashboard.LateStudents | components/Dashboard.tsx:31 | the roster filtered by late ids; same lemmas as `PresentStudents` |
| Dashboard.AbsentStudents | components/Dashboard.tsx:32 | the roster without attended ids; `StudentListsAreSublists` and `AbsentDisjointFromAttended` state its properties |
| Dashboard.AbsentCount | components/Dashboard.tsx:34 | roster size minus attended ids, unclamped; `AbsentCountMatchesList` and `AbsentCountCanBeNegative` state when it matches the list and when it goes negative |
| Dashboard.PresentTodayCount | components/Dashboard.tsx:167 | the headline, present ids plus late ids; `HeadlineCountsAttended` states that it counts the distinct attended ids |
| Dashboard.NonStudentScanDoesNotCount | components/Dashboard.tsx:21 | a scan of an id no student has, accepted or not, leaves today's present and late ids and the absent count as they were |
| Dashboard.AcceptedStudentScanCounts | components/Dashboard.tsx:21-27 | after an accepted scan of a student, the student is among today's present ids exactly when the scan was classified PRESENT, and among the late ids exactly when it was LATE |
| Dashboard.IdHasRecord | components/Dashboard.tsx:21-27 | every id in today's present or late set has a STUDENT record of today with that status in the log |
| Dashboard.IdsAfterAppend | components/Dashboard.tsx:21-27 | appending a STUDENT record of today adds its person to the id set of its own status and to no other |
| Dashboard.NoRecordNoStatus | components/Dashboard.tsx:21-27 | a person without a record for today is in neither id set |
| Dashboard.PresentLateDisjoint | components/Dashboard.tsx:26-27 | while the log holds one record per person and day, no id is both present and late |
| Dashboard.StudentListsCoverRosterOnce | components/Dashboard.tsx:26-32 | while the log holds one record per person and day, the present, late and absent lists together hold every student of the roster exactly once |
| Dashboard.StudentListsAreSublists | components/Dashboard.tsx:28-32 | the three lists are order-preserving sublists of the roster, and a student is absent exactly when their id is in neither the present nor the late set |
| Dashboard.AbsentDisjointFromAttended | components/Dashboard.tsx:28-32 | an absent student is in neither the present nor the late list |
| Dashboard.HeadlineCountsAttended | components/Dashboard.tsx:167 | while the log holds one record per person and day, the headline (present ids plus late ids) is the number of distinct attended ids |
| Dashboard.AbsentCountMatchesList | components/Dashboard.tsx:28-34 | with distinct student ids and every attended id on the roster, the absent count is the length of the absent list, and headline plus absent count is the roster size |
| Dashboard.AbsentCountCanBeNegative | components/Dashboard.tsx:34 | the absent count is not clamped: an empty roster with one PRESENT record of today gives -1 |
| Dashboard.GetChartData | components/Dashboard.tsx:37-68 | the chart has exactly seven bars; bar k is the bar of the day 6 − k days back, so the oldest day comes first and today last |
| Dashboard.StudentCount | components/Dashboard.tsx:39 | `students.length` or else 1: exactly the roster size, or 1 for an empty roster |
| Dashboard.DayEntry | components/Dashboard.tsx:47-58 | one bar: the STUDENT records of the date (the same filter as `TodaysRecords`) by status, and the clamped absent value; `DayEntryBounds`, `TodaysBarMatchesStats` and `ChartCountsRecords` state its properties |
| Dashboard.DayEntryBounds | components/Dashboard.tsx:39-58 | a bar's present, late and absent values are never negative; present plus late is the number of STUDENT records of that date; when those records reach the student count (the roster size, at least 1) the absent value is 0, and otherwise the three add up to the student count |
| Dashboard.TodaysBarMatchesStats | components/Dashboard.tsx:48-50 | while the log holds one record per person and day, today's bar shows exactly as many present and late as there are present and late ids |
| Dashboard.ChartCountsRecords | components/Dashboard.tsx:48-50 | a bar counts records, not people: two PRESENT records of one student on one day make 2 present for one present id |
| StudentList.OcrMatchClass | components/StudentList.tsx:69 | the ID-card reader's class is on the list, has the grade and, when a section is given, the section; it finds nothing exactly when no class has both |
| StudentList.ResolveClass | components/StudentList.tsx:125 | nothing is found exactly when no class has the grade; when some class has grade and given section, the first such class is chosen; otherwise the first class with the grade |
| StudentList.FirstGradeMatch | components/StudentList.tsx:125 | when no class has both the grade and the typed section, or no section was typed, the import resolves the first class with the grade |
| StudentList.OcrMatchAgreesWithImport | components/StudentList.tsx:69-125 | whenever the ID-card reader finds a class, the import resolves the same one |
| StudentList.ParseLine | components/StudentList.tsx:119-141 | a line gives a row exactly when it has at least three comma-separated fields and its trimmed name and roll number are both non-empty; the row carries the trimmed name and roll number, and its grade is always "Class " followed by the trimmed typed grade |
| StudentList.ParsedSection | components/StudentList.tsx:125-133 | when a class has the typed grade and the typed section, the row gets the typed section; when no class has the grade, it gets the typed section, or "A" when none was typed; when some class has the grade but none has both, or no section was typed, it gets the section of the first class with the grade |
| StudentList.FourFieldLineParses | components/StudentList.tsx:119-132 | a line written as four comma-free fields with non-empty name and roll number gives a row with those fields trimmed and the grade prefixed with "Class " |
| StudentList.ExtraFieldsIgnored | components/StudentList.tsx:122 | fields after the fourth do not change what a line gives |
| StudentList.BulkRowsWellFormed | components/StudentList.tsx:118-145 | every imported row has a non-empty, already trimmed name and roll number and a grade starting with "Class " |
| StudentList.BulkRows | components/StudentList.tsx:118-145 | no more rows than lines are imported |
| StudentList.EmptyTextImportsNothing | components/StudentList.tsx:113-115 | the early return for an empty text makes no difference to the roster: an empty text would split into a single empty line, and that line gives no row |
| StudentList.BulkStudent | components/StudentList.tsx:128-141 | the student of one imported row; `BulkStudents` states its fields |
| StudentList.BulkStudents | components/StudentList.tsx:128-141 | one student per accepted row, in order; the k-th takes the row's name, roll number, grade and section, the k-th id and timestamp and the avatar made from its name, and its parent name, parent contact, birth date, blood group and address are empty |
| StudentList.ManualStudent | components/StudentList.tsx:87-105 | the new student keeps the form's name and roll number, and its parent name, parent contact, birth date, blood group and address; the grade is "Unknown" exactly when no class has the selected id, and then the section is the one the ID-card reader left; otherwise grade and section are "Class " plus that class's grade and its section; an uploaded picture wins over the placeholder avatar |
| StudentList.FormComplete | components/StudentList.tsx:85 | the guard of the manual add: name, roll number and selected class all non-empty; `HandleManualAdd` states that nothing changes without it |
| StudentList.StudentListView.constructor | components/StudentList.tsx:15-33 | the screen starts on the list with an empty form and an empty import text |
| StudentList.StudentListView.HandleManualAdd | components/StudentList.tsx:84-110 | without name, roll number and class, nothing changes; otherwise exactly the form's student is appended to the roster, the form is reset and the list is shown |
| StudentList.StudentListView.HandleBulkAdd | components/StudentList.tsx:112-152 | an empty text adds nothing; otherwise the students of the accepted lines are appended to the roster in line order, their number is returned, and text and view change only when at least one was added |
| StudentList.ImportLines | components/StudentList.tsx:118-146 | the roster grows by exactly the students of the accepted lines, in order, the k-th with the k-th id and timestamp, and the count returned is the number of accepted lines |
| StudentList.ImportLine | components/StudentList.tsx:119-143 | one line of the import: an accepted line appends exactly the student of its row with the next id and timestamp, and another line leaves the roster alone; the count grows with the accepted rows |

## Left out

- Persistence. Loading from and saving to `localStorage` (`App.tsx:42-66`) is browser I/O. State is held in memory, and the constructor is the first load with nothing stored.
- Interface effects:
  - scan messages and their two-second timer;
  - navigation after saving the profile;
  - the ID card opened after an add;
  - view tabs;
  - all rendering.
- Other parts of the repository:
  - `components/ICard.tsx`: drawing and download;
  - `services/geminiService.ts`: network calls;
  - the QR scanner component.
- The ID-card reader and AI fill-in flows of the roster screen (`components/StudentList.tsx:49-82`, `167-178`). Only the class-match predicate at line 69 is modelled (`StudentList.OcrMatchClass`). The form fields those flows set are not.
- The non-empty guards of `components/TeacherList.tsx:23`, `components/SchoolSetup.tsx:19` and `components/ClassManager.tsx:16`. These form components are not part of this model. The `App.tsx` add handlers accept any record, as in the code.
- React batching. Each handler runs on the state left by the previous one. Two scans delivered before a re-render, both checking the same stale `attendance`, are not modelled.
- Calendar computation. These are parameters:
  - the date key of today (the UTC ISO date) and of each chart day;
  - weekday labels;
  - `setDate` rollover and daylight-saving changes;
  - the time of day.
- `crypto.randomUUID()`, `Date.now()` and avatar URL building with `encodeURIComponent`. These are opaque parameters.
- Text.JsInteger: covers `Number` on decimal text only. Optional white space, an optional sign, digits, and an optional fraction truncated by `setHours`. `Infinity`, and the exponent, hexadecimal, binary and octal forms, are treated as NaN, although JavaScript reads them as numbers. For `Infinity` the cutoff comes out NaN either way, because `setHours` turns it into NaN. `Text.JsIntegerNaN` and `Classifier.NonNumberPieceIsPresent` hold of this decimal conversion; JavaScript would give a number for a piece such as "0x8" or "1e1".
- Classifier.CutoffMs: the cutoff is an unbounded integer. JavaScript turns a time value beyond ±8.64·10^15 ms into NaN (so PRESENT), and it rounds numbers with more than 53 significant bits. Neither is modelled.
