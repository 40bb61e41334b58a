/**
 * The application state of App.tsx and its handlers: scan ingestion into the
 * attendance log, and adding and deleting students, teachers and classes.
 * The date key of "today", the local time of day, the record id
 * (`crypto.randomUUID()`) and the timestamp (`Date.now()`) are parameters.
 */
module Ledger {
  import opened Optional
  import opened Lists
  import opened Types
  import opened Classifier

  /** A scanned id resolved to a person of the roster (`student || teacher` and its type). */
  datatype Person = Person(id: string, name: string, kind: PersonKind)

  /** What a scan did; the toast text of each case is left to the interface. */
  datatype ScanOutcome =
    | UnknownCard                       // no student and no teacher has this id
    | AlreadyMarked(person: Person)     // a record for this person and today exists
    | Marked(record: AttendanceRecord)  // the record appended to the log

  datatype ScanResult = ScanResult(outcome: ScanOutcome, log: seq<AttendanceRecord>)

  predicate HasStudent(students: seq<Student>, id: string)
  {
    exists k :: 0 <= k < |students| && students[k].id == id
  }

  predicate HasTeacher(teachers: seq<Teacher>, id: string)
  {
    exists k :: 0 <= k < |teachers| && teachers[k].id == id
  }

  function StudentWithId(id: string): Student -> bool
  {
    (s: Student) => s.id == id
  }

  function TeacherWithId(id: string): Teacher -> bool
  {
    (t: Teacher) => t.id == id
  }

  /** Look the id up among the students first, then among the teachers. */
  function Resolve(students: seq<Student>, teachers: seq<Teacher>, data: string): (r: Option<Person>)
    ensures r.None? <==> !HasStudent(students, data) && !HasTeacher(teachers, data)
    ensures r.Some? ==> r.value.id == data
    ensures r.Some? ==> (r.value.kind == StudentKind <==> HasStudent(students, data))
    ensures r.Some? && r.value.kind == StudentKind ==>
              exists k :: 0 <= k < |students| && students[k].id == data && students[k].name == r.value.name
    ensures r.Some? && r.value.kind == TeacherKind ==>
              exists k :: 0 <= k < |teachers| && teachers[k].id == data && teachers[k].name == r.value.name
  {
    var student := Find(students, StudentWithId(data));
    var teacher := Find(teachers, TeacherWithId(data));
    if student.Some? then Some(Person(student.value.id, student.value.name, StudentKind))
    else if teacher.Some? then Some(Person(teacher.value.id, teacher.value.name, TeacherKind))
    else None
  }

  function SamePersonAndDay(personId: string, date: string): AttendanceRecord -> bool
  {
    (r: AttendanceRecord) => r.personId == personId && r.date == date
  }

  /** `attendance.some(r => r.personId === id && r.date === today)`, whatever the record's type. */
  predicate AlreadyPresent(log: seq<AttendanceRecord>, personId: string, date: string)
  {
    Any(log, SamePersonAndDay(personId, date))
  }

  /** The log holds at most one record per person and date. */
  predicate OnePerPersonPerDay(log: seq<AttendanceRecord>)
  {
    forall i, j :: 0 <= i < j < |log| ==> !(log[i].personId == log[j].personId && log[i].date == log[j].date)
  }

  /** Appending a record for a person and date the log does not hold yet keeps the log duplicate-free. */
  lemma AppendKeepsOnePerPersonPerDay(log: seq<AttendanceRecord>, rec: AttendanceRecord)
    requires OnePerPersonPerDay(log)
    requires !AlreadyPresent(log, rec.personId, rec.date)
    ensures OnePerPersonPerDay(log + [rec])
  {
    var log' := log + [rec];
    forall i, j | 0 <= i < j < |log'|
      ensures !(log'[i].personId == log'[j].personId && log'[i].date == log'[j].date)
    {
      if j == |log| {
        assert !SamePersonAndDay(rec.personId, rec.date)(log[i]);
      }
    }
  }

  /**
   * One scan of `data`, as `handleScan` performs it on the log: unknown ids
   * and repeated scans on the same date leave the log alone; otherwise one
   * record is appended, typed STUDENT when a student has the id (even if a
   * teacher has it too), and classified against the start time.
   */
  function Scan(students: seq<Student>, teachers: seq<Teacher>, details: Option<SchoolDetails>,
                log: seq<AttendanceRecord>, data: string, today: string, nowMs: int,
                recordId: string, timestamp: int): (r: ScanResult)
    ensures !HasStudent(students, data) && !HasTeacher(teachers, data) ==> r == ScanResult(UnknownCard, log)
    ensures r.outcome.AlreadyMarked? <==>
              (HasStudent(students, data) || HasTeacher(teachers, data)) && AlreadyPresent(log, data, today)
    ensures r.outcome.Marked? <==>
              (HasStudent(students, data) || HasTeacher(teachers, data)) && !AlreadyPresent(log, data, today)
    ensures r.outcome.AlreadyMarked? ==> Some(r.outcome.person) == Resolve(students, teachers, data)
    ensures !r.outcome.Marked? ==> r.log == log
    ensures r.outcome.Marked? ==>
              r.log == log + [r.outcome.record]
              && r.outcome.record == AttendanceRecord(
                   recordId, data, if HasStudent(students, data) then StudentKind else TeacherKind,
                   ClassifyStatus(details, nowMs), timestamp, today)
    ensures OnePerPersonPerDay(log) ==> OnePerPersonPerDay(r.log)
  {
    match Resolve(students, teachers, data)
    case None => ScanResult(UnknownCard, log)
    case Some(person) =>
      if AlreadyPresent(log, person.id, today) then ScanResult(AlreadyMarked(person), log)
      else
        var rec := AttendanceRecord(recordId, person.id, person.kind, ClassifyStatus(details, nowMs), timestamp, today);
        if OnePerPersonPerDay(log) then AppendKeepsOnePerPersonPerDay(log, rec); ScanResult(Marked(rec), log + [rec])
        else ScanResult(Marked(rec), log + [rec])
  }

  /**
   * Once a scan of `data` is accepted, every later scan of it on the same
   * date is rejected and changes nothing, whatever records were appended in
   * between.
   */
  lemma SecondScanSameDayRejected(students: seq<Student>, teachers: seq<Teacher>, details: Option<SchoolDetails>,
                                  log: seq<AttendanceRecord>, data: string, today: string,
                                  nowMs: int, recordId: string, timestamp: int,
                                  between: seq<AttendanceRecord>,
                                  laterMs: int, laterId: string, laterTimestamp: int)
    requires Scan(students, teachers, details, log, data, today, nowMs, recordId, timestamp).outcome.Marked?
    ensures var first := Scan(students, teachers, details, log, data, today, nowMs, recordId, timestamp);
            var second := Scan(students, teachers, details, first.log + between, data, today, laterMs, laterId, laterTimestamp);
            second.outcome.AlreadyMarked? && second.log == first.log + between
  {
    var first := Scan(students, teachers, details, log, data, today, nowMs, recordId, timestamp);
    var current := first.log + between;
    assert current[|log|] == first.log[|log|];
    assert SamePersonAndDay(data, today)(current[|log|]);
  }

  function StudentId(s: Student): string { s.id }

  function TeacherId(t: Teacher): string { t.id }

  function ClassId(c: ClassSection): string { c.id }

  /** The profile the first load falls back to when nothing is stored. */
  const MockSchool: SchoolDetails :=
    SchoolDetails("Riverdale High", "123 Riverdale Ln, New York", None, Some("1998"), Some("08:00"))

  /** The classes the app starts with. */
  const MockClasses: seq<ClassSection> := [
    ClassSection("c1", "10", "A", None),
    ClassSection("c2", "11", "Science", None),
    ClassSection("c3", "12", "Commerce", None)
  ]

  /** The state App.tsx keeps and its handlers update. */
  class SchoolApp {
    var schoolDetails: Option<SchoolDetails>
    var students: seq<Student>
    var teachers: seq<Teacher>
    var classes: seq<ClassSection>
    var attendance: seq<AttendanceRecord>

    /** The state after the first load finds nothing stored: the demo school and classes, nobody enrolled, no records. */
    constructor ()
      ensures schoolDetails == Some(MockSchool) && classes == MockClasses
      ensures students == [] && teachers == [] && attendance == []
    {
      schoolDetails := Some(MockSchool);
      students := [];
      teachers := [];
      classes := MockClasses;
      attendance := [];
    }

    /** `handleScan`: resolve, reject unknown ids and repeats for today, otherwise append one record. */
    method HandleScan(data: string, today: string, nowMs: int, recordId: string, timestamp: int)
      returns (outcome: ScanOutcome)
      modifies this`attendance
      ensures var r := Scan(students, teachers, schoolDetails, old(attendance), data, today, nowMs, recordId, timestamp);
              outcome == r.outcome && attendance == r.log
      ensures OnePerPersonPerDay(old(attendance)) ==> OnePerPersonPerDay(attendance)
    {
      var person := Resolve(students, teachers, data);
      if person.None? {
        outcome := UnknownCard;
        return;
      }
      var p := person.value;
      if AlreadyPresent(attendance, p.id, today) {
        outcome := AlreadyMarked(p);
        return;
      }
      var status := ClassifyStatus(schoolDetails, nowMs);
      var rec := AttendanceRecord(recordId, p.id, p.kind, status, timestamp, today);
      attendance := attendance + [rec];
      outcome := Marked(rec);
    }

    /** `handleSaveSchool`: the profile is replaced as a whole. */
    method SaveSchool(details: SchoolDetails)
      modifies this`schoolDetails
      ensures schoolDetails == Some(details)
    {
      schoolDetails := Some(details);
    }

    /** `handleAddStudent`: append to the end of the roster. */
    method AddStudent(student: Student)
      modifies this`students
      ensures students == old(students) + [student]
    {
      students := students + [student];
    }

    /** `handleAddTeacher`: append to the end of the staff list. */
    method AddTeacher(teacher: Teacher)
      modifies this`teachers
      ensures teachers == old(teachers) + [teacher]
    {
      teachers := teachers + [teacher];
    }

    /** `handleAddClass`: append to the end of the class list. */
    method AddClass(cls: ClassSection)
      modifies this`classes
      ensures classes == old(classes) + [cls]
    {
      classes := classes + [cls];
    }

    /**
     * `onDeleteStudent`: the students with this id go and every other one
     * stays (see `RemoveKeySpec`); the attendance log keeps the records of
     * the deleted student.
     */
    method DeleteStudent(id: string)
      modifies this`students
      ensures students == RemoveKey(old(students), StudentId, id)
      ensures attendance == old(attendance)
    {
      students := RemoveKey(students, StudentId, id);
    }

    /** `onDeleteTeacher`: as `DeleteStudent`, on the staff list. */
    method DeleteTeacher(id: string)
      modifies this`teachers
      ensures teachers == RemoveKey(old(teachers), TeacherId, id)
      ensures attendance == old(attendance)
    {
      teachers := RemoveKey(teachers, TeacherId, id);
    }

    /** `onDeleteClass`: as `DeleteStudent`, on the class list; students keep their grade and section text. */
    method DeleteClass(id: string)
      modifies this`classes
      ensures classes == RemoveKey(old(classes), ClassId, id)
      ensures students == old(students) && attendance == old(attendance)
    {
      classes := RemoveKey(classes, ClassId, id);
    }
  }
}
