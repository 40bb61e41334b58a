/**
 * The student roster screen: the CSV bulk import, the manual add form, and
 * the class matching they and the ID-card reader share. New students reach
 * the application state through `SchoolApp.AddStudent`. Ids
 * (`crypto.randomUUID()`), timestamps (`Date.now()`) and avatar URLs are
 * parameters.
 */
module StudentList {
  import opened Optional
  import opened Lists
  import opened Text
  import opened Types
  import opened Ledger

  // ---------------------------------------------------------------- class matching

  /** `c.grade === grade && (section ? c.section === section : true)`; an empty section is not given. */
  function MatchesClass(grade: string, section: string): ClassSection -> bool
  {
    (c: ClassSection) => c.grade == grade && (section != "" ==> c.section == section)
  }

  function GradeIs(grade: string): ClassSection -> bool
  {
    (c: ClassSection) => c.grade == grade
  }

  /** The class the ID-card reader selects for a grade and an optional section: the first that matches both. */
  function OcrMatchClass(classes: seq<ClassSection>, grade: string, section: string): (r: Option<ClassSection>)
    ensures r.Some? ==> r.value in classes && r.value.grade == grade && (section != "" ==> r.value.section == section)
    ensures r.None? <==> forall k :: 0 <= k < |classes| ==>
                           classes[k].grade != grade || (section != "" && classes[k].section != section)
  {
    Find(classes, MatchesClass(grade, section))
  }

  /**
   * The class of an imported line: the first class with the grade and, when
   * a section is given, the section; failing that, the first class with the
   * grade.
   */
  function ResolveClass(classes: seq<ClassSection>, grade: string, section: string): (r: Option<ClassSection>)
    ensures r.None? <==> forall k :: 0 <= k < |classes| ==> classes[k].grade != grade
    ensures r.Some? ==> r.value in classes && r.value.grade == grade
    ensures OcrMatchClass(classes, grade, section).Some? ==>
              r.Some? && (section != "" ==> r.value.section == section)
              && exists i :: 0 <= i < |classes| && classes[i] == r.value
                             && forall j :: 0 <= j < i ==> !MatchesClass(grade, section)(classes[j])
    ensures OcrMatchClass(classes, grade, section).None? && r.Some? ==>
              exists i :: 0 <= i < |classes| && classes[i] == r.value
                          && forall j :: 0 <= j < i ==> classes[j].grade != grade
  {
    var exact := Find(classes, MatchesClass(grade, section));
    if exact.Some? then exact else Find(classes, GradeIs(grade))
  }

  /** The ID-card reader and the import agree whenever the reader finds a class. */
  lemma OcrMatchAgreesWithImport(classes: seq<ClassSection>, grade: string, section: string)
    requires OcrMatchClass(classes, grade, section).Some?
    ensures ResolveClass(classes, grade, section) == OcrMatchClass(classes, grade, section)
  {
  }

  // ---------------------------------------------------------------- bulk import

  /** One accepted CSV line, before an id, a timestamp and an avatar are attached. */
  datatype BulkRow = BulkRow(name: string, rollNumber: string, grade: string, section: string)

  /**
   * One line `Name, RollNo, Grade, Section?`: fewer than three comma-separated
   * fields give nothing; fields are trimmed and those after the fourth
   * ignored; an empty name or roll number gives nothing. The grade is the
   * resolved class's grade, else the typed one; the section is the resolved
   * class's section, else the typed one, else "A".
   */
  function ParseLine(line: string, classes: seq<ClassSection>): (r: Option<BulkRow>)
    ensures var parts := Split(line, ',');
            r.Some? <==> |parts| >= 3 && Trim(parts[0]) != "" && Trim(parts[1]) != ""
    ensures var parts := Split(line, ',');
            r.Some? ==> r.value.name == Trim(parts[0]) && r.value.rollNumber == Trim(parts[1])
                        && r.value.grade == "Class " + Trim(parts[2])
  {
    var parts := Split(line, ',');
    if |parts| < 3 then None
    else
      var name, roll, grade := Trim(parts[0]), Trim(parts[1]), Trim(parts[2]);
      var section := if |parts| >= 4 then Trim(parts[3]) else "";
      var cls := ResolveClass(classes, grade, section);
      if name == "" || roll == "" then None
      else
        Some(BulkRow(name, roll,
                     if cls.Some? then "Class " + cls.value.grade else "Class " + grade,
                     if cls.Some? then cls.value.section else if section != "" then section else "A"))
  }

  /** The section an accepted line gets: the one typed when a class has it, "A" when nothing was typed and no class matches. */
  lemma ParsedSection(line: string, classes: seq<ClassSection>)
    requires ParseLine(line, classes).Some?
    ensures var parts := Split(line, ',');
            var grade := Trim(parts[2]);
            var section := if |parts| >= 4 then Trim(parts[3]) else "";
            var s := ParseLine(line, classes).value.section;
            ((section != "" && exists k :: 0 <= k < |classes| && classes[k].grade == grade && classes[k].section == section)
             ==> s == section)
            && ((forall k :: 0 <= k < |classes| ==> classes[k].grade != grade) ==> s == if section != "" then section else "A")
            && (forall i :: 0 <= i < |classes| && classes[i].grade == grade
                            && (forall j :: 0 <= j < i ==> classes[j].grade != grade)
                            && (section == "" || forall k :: 0 <= k < |classes| ==> !(classes[k].grade == grade && classes[k].section == section))
                            ==> s == classes[i].section)
  {
    var parts := Split(line, ',');
    var grade := Trim(parts[2]);
    var section := if |parts| >= 4 then Trim(parts[3]) else "";
    if section != "" && exists k :: 0 <= k < |classes| && classes[k].grade == grade && classes[k].section == section {
      var k :| 0 <= k < |classes| && classes[k].grade == grade && classes[k].section == section;
      assert MatchesClass(grade, section)(classes[k]);
    }
    forall i | 0 <= i < |classes| && classes[i].grade == grade
               && (forall j :: 0 <= j < i ==> classes[j].grade != grade)
               && (section == "" || forall k :: 0 <= k < |classes| ==> !(classes[k].grade == grade && classes[k].section == section))
      ensures ParseLine(line, classes).value.section == classes[i].section
    {
      FirstGradeMatch(classes, grade, section, i);
    }
  }

  /**
   * With no class that has both the grade and the typed section, or no
   * section typed, a line takes the first class with the grade.
   */
  lemma FirstGradeMatch(classes: seq<ClassSection>, grade: string, section: string, i: nat)
    requires i < |classes| && classes[i].grade == grade
    requires forall j :: 0 <= j < i ==> classes[j].grade != grade
    requires section == "" || forall k :: 0 <= k < |classes| ==> !(classes[k].grade == grade && classes[k].section == section)
    ensures ResolveClass(classes, grade, section) == Some(classes[i])
  {
    if section == "" {
      assert FindIndex(classes, MatchesClass(grade, section)) == i;
    } else {
      assert FindIndex(classes, MatchesClass(grade, section)) == -1;
      assert FindIndex(classes, GradeIs(grade)) == i;
    }
  }

  /** A line of four comma-free fields: the name and roll number come back trimmed, the grade prefixed. */
  lemma FourFieldLineParses(name: string, roll: string, grade: string, section: string, classes: seq<ClassSection>)
    requires ',' !in name && ',' !in roll && ',' !in grade && ',' !in section
    requires Trim(name) != "" && Trim(roll) != ""
    ensures var r := ParseLine(Join([name, roll, grade, section], ','), classes);
            r.Some? && r.value.name == Trim(name) && r.value.rollNumber == Trim(roll)
            && r.value.grade == "Class " + Trim(grade)
  {
    SplitJoin([name, roll, grade, section], ',');
  }

  /** Fields after the fourth do not change what a line gives. */
  lemma ExtraFieldsIgnored(fields: seq<string>, classes: seq<ClassSection>)
    requires |fields| >= 4
    requires forall k :: 0 <= k < |fields| ==> ',' !in fields[k]
    ensures ParseLine(Join(fields, ','), classes) == ParseLine(Join(fields[..4], ','), classes)
  {
    SplitJoin(fields, ',');
    SplitJoin(fields[..4], ',');
    SameFirstFourFields(Join(fields, ','), Join(fields[..4], ','), classes);
  }

  /** Two lines with at least four fields that agree on the first four give the same result. */
  lemma SameFirstFourFields(a: string, b: string, classes: seq<ClassSection>)
    requires |Split(a, ',')| >= 4 && |Split(b, ',')| >= 4
    requires Split(a, ',')[..4] == Split(b, ',')[..4]
    ensures ParseLine(a, classes) == ParseLine(b, classes)
  {
    var pa, pb := Split(a, ','), Split(b, ',');
    assert pa[0] == pb[0] && pa[1] == pb[1] && pa[2] == pb[2] && pa[3] == pb[3] by {
      assert pa[..4][0] == pa[0] && pa[..4][1] == pa[1] && pa[..4][2] == pa[2] && pa[..4][3] == pa[3];
    }
  }

  /** The rows of the accepted lines, in order. */
  function BulkRows(lines: seq<string>, classes: seq<ClassSection>): (rows: seq<BulkRow>)
    ensures |rows| <= |lines|
  {
    if lines == [] then []
    else
      var init := BulkRows(lines[..|lines| - 1], classes);
      match ParseLine(lines[|lines| - 1], classes)
      case Some(row) => init + [row]
      case None => init
  }

  /** What makes an imported row: a non-empty, already trimmed name and roll number and a "Class " grade. */
  predicate WellFormedRow(row: BulkRow)
  {
    row.name != "" && Trim(row.name) == row.name && row.rollNumber != "" && Trim(row.rollNumber) == row.rollNumber
    && |row.grade| >= 6 && row.grade[..6] == "Class "
  }

  /** Every accepted line gives a well-formed row. */
  lemma ParsedRowWellFormed(line: string, classes: seq<ClassSection>)
    requires ParseLine(line, classes).Some?
    ensures WellFormedRow(ParseLine(line, classes).value)
  {
    var parts := Split(line, ',');
    TrimIdempotent(parts[0]);
    TrimIdempotent(parts[1]);
    assert ("Class " + Trim(parts[2]))[..6] == "Class ";
  }

  /** Every imported row is well formed. */
  lemma {:induction false} BulkRowsWellFormed(lines: seq<string>, classes: seq<ClassSection>)
    ensures forall k :: 0 <= k < |BulkRows(lines, classes)| ==> WellFormedRow(BulkRows(lines, classes)[k])
  {
    if lines != [] {
      var init := lines[..|lines| - 1];
      BulkRowsWellFormed(init, classes);
      var line := lines[|lines| - 1];
      if ParseLine(line, classes).Some? {
        ParsedRowWellFormed(line, classes);
      }
    }
  }

  /** An empty text has no line to import. */
  lemma EmptyTextImportsNothing(classes: seq<ClassSection>)
    ensures BulkRows(Split("", '\n'), classes) == []
  {
    assert Split("", '\n') == [""];
    assert Split("", ',') == [""];
    assert BulkRows([""], classes) == BulkRows([], classes);
  }

  /** The student made from an imported row: parent, birth date, blood group and address empty. */
  function BulkStudent(row: BulkRow, id: string, createdAt: int, avatarUrl: string): Student
  {
    Student(id, row.name, row.rollNumber, row.grade, row.section, "", "", "", "", "", avatarUrl, createdAt)
  }

  /** The students of the rows; the `k`th takes the `k`th id and timestamp, and an avatar made from its name. */
  function BulkStudents(rows: seq<BulkRow>, uuid: nat -> string, stamp: nat -> int, avatar: string -> string): (r: seq<Student>)
    ensures |r| == |rows|
    ensures forall k :: 0 <= k < |rows| ==>
              r[k].name == rows[k].name && r[k].rollNumber == rows[k].rollNumber
              && r[k].grade == rows[k].grade && r[k].section == rows[k].section
              && r[k].id == uuid(k) && r[k].createdAt == stamp(k) && r[k].avatarUrl == avatar(rows[k].name)
    ensures forall k :: 0 <= k < |rows| ==>
              r[k].parentName == "" && r[k].parentContact == "" && r[k].dob == ""
              && r[k].bloodGroup == "" && r[k].address == ""
  {
    var r := seq(|rows|, k requires 0 <= k < |rows| => BulkStudent(rows[k], uuid(k), stamp(k), avatar(rows[k].name)));
    assert forall k :: 0 <= k < |rows| ==> r[k] == BulkStudent(rows[k], uuid(k), stamp(k), avatar(rows[k].name));
    r
  }

  /** Reading one more line adds its row, if it has one, after the rows so far. */
  lemma BulkRowsStep(lines: seq<string>, i: nat, classes: seq<ClassSection>)
    requires i < |lines|
    ensures var parsed := ParseLine(lines[i], classes);
            BulkRows(lines[..i + 1], classes) == BulkRows(lines[..i], classes) + (if parsed.Some? then [parsed.value] else [])
  {
    assert lines[..i + 1][..i] == lines[..i];
  }

  /** One more row adds one student, with the next id and timestamp. */
  lemma BulkStudentsSnoc(rows: seq<BulkRow>, row: BulkRow, uuid: nat -> string, stamp: nat -> int, avatar: string -> string)
    ensures BulkStudents(rows + [row], uuid, stamp, avatar)
            == BulkStudents(rows, uuid, stamp, avatar) + [BulkStudent(row, uuid(|rows|), stamp(|rows|), avatar(row.name))]
  {
  }

  /** Reading one more line: an accepted line adds one row and the student made from it with the next id and timestamp. */
  lemma ImportStep(lines: seq<string>, i: nat, classes: seq<ClassSection>,
                   uuid: nat -> string, stamp: nat -> int, avatar: string -> string)
    requires i < |lines|
    ensures var before := BulkRows(lines[..i], classes);
            var parsed := ParseLine(lines[i], classes);
            parsed.None? ==> BulkRows(lines[..i + 1], classes) == before
    ensures var before := BulkRows(lines[..i], classes);
            var parsed := ParseLine(lines[i], classes);
            parsed.Some? ==>
              |BulkRows(lines[..i + 1], classes)| == |before| + 1
              && BulkStudents(BulkRows(lines[..i + 1], classes), uuid, stamp, avatar)
                 == BulkStudents(before, uuid, stamp, avatar)
                    + [BulkStudent(parsed.value, uuid(|before|), stamp(|before|), avatar(parsed.value.name))]
  {
    BulkRowsStep(lines, i, classes);
    var parsed := ParseLine(lines[i], classes);
    if parsed.Some? {
      BulkStudentsSnoc(BulkRows(lines[..i], classes), parsed.value, uuid, stamp, avatar);
    }
  }

  // ---------------------------------------------------------------- manual add

  /** The single-add form's fields. */
  datatype Form = Form(
    name: string,
    rollNumber: string,
    selectedClassId: string,
    sectionOverride: string,
    parentName: string,
    parentContact: string,
    dob: string,
    bloodGroup: string,
    address: string,
    avatarBase64: string)

  /** The form after `resetForm`. */
  const EmptyForm: Form := Form("", "", "", "", "", "", "", "", "", "")

  function ClassWithId(id: string): ClassSection -> bool
  {
    (c: ClassSection) => c.id == id
  }

  /**
   * The student the form describes: the selected class gives "Class <grade>"
   * and its section; a class id no longer on the list gives "Unknown" and the
   * section the ID-card reader left; an uploaded picture wins over the
   * placeholder avatar; the parent, birth date, blood group and address
   * fields are copied from the form.
   */
  function ManualStudent(form: Form, classes: seq<ClassSection>, id: string, createdAt: int, placeholder: string -> string): (s: Student)
    ensures s.name == form.name && s.rollNumber == form.rollNumber && s.id == id && s.createdAt == createdAt
    ensures s.grade == "Unknown" <==> forall k :: 0 <= k < |classes| ==> classes[k].id != form.selectedClassId
    ensures s.grade == "Unknown" ==> s.section == form.sectionOverride
    ensures s.grade != "Unknown" ==>
              exists k :: 0 <= k < |classes| && classes[k].id == form.selectedClassId
                          && s.grade == "Class " + classes[k].grade && s.section == classes[k].section
    ensures s.avatarUrl == if form.avatarBase64 != "" then form.avatarBase64 else placeholder(form.name)
    ensures s.parentName == form.parentName && s.parentContact == form.parentContact && s.dob == form.dob
            && s.bloodGroup == form.bloodGroup && s.address == form.address
  {
    var cls := Find(classes, ClassWithId(form.selectedClassId));
    assert cls.Some? ==> ("Class " + cls.value.grade)[0] == 'C' != 'U' == "Unknown"[0];
    Student(id, form.name, form.rollNumber,
            if cls.Some? then "Class " + cls.value.grade else "Unknown",
            if cls.Some? then cls.value.section else form.sectionOverride,
            form.parentName, form.parentContact, form.dob, form.bloodGroup, form.address,
            if form.avatarBase64 != "" then form.avatarBase64 else placeholder(form.name),
            createdAt)
  }

  /** The three fields the manual add requires. */
  predicate FormComplete(form: Form)
  {
    form.name != "" && form.rollNumber != "" && form.selectedClassId != ""
  }

  // ---------------------------------------------------------------- the screen

  datatype ViewMode = ListMode | SingleAddMode | BulkAddMode

  /** The roster screen's own state; the roster itself lives in the application state. */
  class StudentListView {
    var viewMode: ViewMode
    var form: Form
    var bulkText: string

    constructor ()
      ensures viewMode == ListMode && form == EmptyForm && bulkText == ""
    {
      viewMode := ListMode;
      form := EmptyForm;
      bulkText := "";
    }

    /**
     * `handleManualAdd`: nothing happens unless name, roll number and class
     * are filled in; otherwise the student is added, the form reset and the
     * list shown.
     */
    method HandleManualAdd(app: SchoolApp, id: string, now: int, placeholder: string -> string)
      modifies this`form, this`viewMode, app`students
      ensures !FormComplete(old(form)) ==>
                form == old(form) && viewMode == old(viewMode) && app.students == old(app.students)
      ensures FormComplete(old(form)) ==>
                app.students == old(app.students) + [ManualStudent(old(form), app.classes, id, now, placeholder)]
                && form == EmptyForm && viewMode == ListMode
    {
      if !FormComplete(form) {
        return;
      }
      var student := ManualStudent(form, app.classes, id, now, placeholder);
      app.AddStudent(student);
      form := EmptyForm;
      viewMode := ListMode;
    }

    /**
     * `handleBulkAdd`: an empty text does nothing; otherwise every accepted
     * line adds one student, in order, and only when at least one was added
     * is the text cleared and the list shown.
     */
    method HandleBulkAdd(app: SchoolApp, uuid: nat -> string, stamp: nat -> int, avatar: string -> string)
      returns (addedCount: nat)
      modifies this`bulkText, this`viewMode, app`students
      ensures old(bulkText) == "" ==> addedCount == 0 && app.students == old(app.students)
      ensures old(bulkText) != "" ==>
                var rows := BulkRows(Split(old(bulkText), '\n'), app.classes);
                addedCount == |rows| && app.students == old(app.students) + BulkStudents(rows, uuid, stamp, avatar)
      ensures addedCount > 0 ==> bulkText == "" && viewMode == ListMode
      ensures addedCount == 0 ==> bulkText == old(bulkText) && viewMode == old(viewMode)
    {
      if bulkText == "" {
        return 0;
      }
      addedCount := ImportLines(app, Split(bulkText, '\n'), uuid, stamp, avatar);
      if addedCount > 0 {
        bulkText := "";
        viewMode := ListMode;
      }
    }
  }

  /**
   * The `forEach` over the lines of a bulk import: each accepted line adds
   * its student through `SchoolApp.AddStudent`, and the count of added
   * students is returned.
   */
  method ImportLines(app: SchoolApp, lines: seq<string>, uuid: nat -> string, stamp: nat -> int, avatar: string -> string)
    returns (addedCount: nat)
    modifies app`students
    ensures addedCount == |BulkRows(lines, app.classes)|
    ensures app.students == old(app.students) + BulkStudents(BulkRows(lines, app.classes), uuid, stamp, avatar)
  {
    addedCount := 0;
    var classes := app.classes;
    ghost var start := app.students;
    var i := 0;
    while i < |lines|
      invariant 0 <= i <= |lines|
      invariant addedCount == |BulkRows(lines[..i], classes)|
      invariant app.students == start + BulkStudents(BulkRows(lines[..i], classes), uuid, stamp, avatar)
    {
      addedCount := ImportLine(app, lines, i, classes, addedCount, uuid, stamp, avatar, start);
      i := i + 1;
    }
    assert lines[..|lines|] == lines;
  }

  /**
   * The body of that `forEach` for line `i`: an accepted line adds the
   * student made from its row, with the id and timestamp of the next index.
   */
  method ImportLine(app: SchoolApp, lines: seq<string>, i: nat, classes: seq<ClassSection>, count: nat,
                    uuid: nat -> string, stamp: nat -> int, avatar: string -> string, ghost start: seq<Student>)
    returns (newCount: nat)
    requires i < |lines|
    requires count == |BulkRows(lines[..i], classes)|
    requires app.students == start + BulkStudents(BulkRows(lines[..i], classes), uuid, stamp, avatar)
    modifies app`students
    ensures newCount == |BulkRows(lines[..i + 1], classes)|
    ensures app.students == start + BulkStudents(BulkRows(lines[..i + 1], classes), uuid, stamp, avatar)
  {
    ImportStep(lines, i, classes, uuid, stamp, avatar);
    newCount := count;
    var parsed := ParseLine(lines[i], classes);
    if parsed.Some? {
      var student := BulkStudent(parsed.value, uuid(count), stamp(count), avatar(parsed.value.name));
      AppendAssoc(start, BulkStudents(BulkRows(lines[..i], classes), uuid, stamp, avatar), [student]);
      app.AddStudent(student);
      newCount := count + 1;
    }
  }
}
