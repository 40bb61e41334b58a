/**
 * The figures the dashboard derives from the attendance log: today's
 * present, late and absent students, the headline count, and the seven-day
 * chart. The date keys and weekday labels of the chart are parameters.
 */
module Dashboard {
  import opened Optional
  import opened Lists
  import opened Types
  import opened Classifier
  import opened Ledger

  function PersonIdOf(r: AttendanceRecord): string { r.personId }

  /** The (person, date) pair a log may hold once. */
  function PersonAndDay(r: AttendanceRecord): (string, string) { (r.personId, r.date) }

  function StudentRecordOn(date: string): AttendanceRecord -> bool
  {
    (r: AttendanceRecord) => r.date == date && r.kind == StudentKind
  }

  function WithStatus(status: Status): AttendanceRecord -> bool
  {
    (r: AttendanceRecord) => r.status == status
  }

  // ---------------------------------------------------------------- today

  /**
   * The STUDENT records of the day `today` (`todaysRecords`; the chart's
   * `daysRecords` is the same filter on each of its dates); teacher records
   * never count.
   */
  function TodaysRecords(attendance: seq<AttendanceRecord>, today: string): seq<AttendanceRecord>
  {
    Filter(attendance, StudentRecordOn(today))
  }

  /** The ids of today's student records with the given status. */
  function IdsWithStatus(attendance: seq<AttendanceRecord>, today: string, status: Status): set<string>
  {
    Keys(Filter(TodaysRecords(attendance, today), WithStatus(status)), PersonIdOf)
  }

  /** `presentIds`: the ids of today's PRESENT student records. */
  function PresentIds(attendance: seq<AttendanceRecord>, today: string): set<string>
  {
    IdsWithStatus(attendance, today, Present)
  }

  /** `lateIds`: the ids of today's LATE student records. */
  function LateIds(attendance: seq<AttendanceRecord>, today: string): set<string>
  {
    IdsWithStatus(attendance, today, Late)
  }

  /** An id with a status today has a record in the log: a STUDENT record of today with that status. */
  lemma IdHasRecord(attendance: seq<AttendanceRecord>, today: string, status: Status, id: string)
    requires id in IdsWithStatus(attendance, today, status)
    ensures exists i :: 0 <= i < |attendance| && attendance[i].personId == id && attendance[i].date == today
                        && attendance[i].kind == StudentKind && attendance[i].status == status
  {
    var f := Filter(TodaysRecords(attendance, today), WithStatus(status));
    var a :| 0 <= a < |f| && f[a].personId == id;
    assert f[a] in f;
    var i :| 0 <= i < |attendance| && attendance[i] == f[a];
  }

  /** Appending a record adds its person to the ids of its own status and to no other. */
  lemma IdsAfterAppend(attendance: seq<AttendanceRecord>, rec: AttendanceRecord, today: string, status: Status)
    requires rec.date == today && rec.kind == StudentKind
    ensures IdsWithStatus(attendance + [rec], today, status)
            == IdsWithStatus(attendance, today, status) + (if rec.status == status then {rec.personId} else {})
  {
    var todays := TodaysRecords(attendance, today);
    FilterAppend(attendance, [rec], StudentRecordOn(today));
    assert Filter([rec], StudentRecordOn(today)) == [rec];
    FilterAppend(todays, [rec], WithStatus(status));
    var tail := Filter([rec], WithStatus(status));
    assert tail == if rec.status == status then [rec] else [];
    KeysAppend(Filter(todays, WithStatus(status)), tail, PersonIdOf);
  }

  /** A person without a record for `today` has no status today. */
  lemma NoRecordNoStatus(attendance: seq<AttendanceRecord>, today: string, status: Status, id: string)
    requires !AlreadyPresent(attendance, id, today)
    ensures id !in IdsWithStatus(attendance, today, status)
  {
    var f := Filter(TodaysRecords(attendance, today), WithStatus(status));
    forall k | 0 <= k < |f|
      ensures f[k].personId != id
    {
      assert f[k] in f;
      var m :| 0 <= m < |attendance| && attendance[m] == f[k];
      assert !SamePersonAndDay(id, today)(attendance[m]);
    }
  }

  /** `allAttendedIds`. */
  function AttendedIds(attendance: seq<AttendanceRecord>, today: string): set<string>
  {
    PresentIds(attendance, today) + LateIds(attendance, today)
  }

  function PresentStudents(students: seq<Student>, attendance: seq<AttendanceRecord>, today: string): seq<Student>
  {
    Filter(students, KeyIn(StudentId, PresentIds(attendance, today)))
  }

  function LateStudents(students: seq<Student>, attendance: seq<AttendanceRecord>, today: string): seq<Student>
  {
    Filter(students, KeyIn(StudentId, LateIds(attendance, today)))
  }

  function AbsentStudents(students: seq<Student>, attendance: seq<AttendanceRecord>, today: string): seq<Student>
  {
    Filter(students, KeyNotIn(StudentId, AttendedIds(attendance, today)))
  }

  /** `absentCount`: roster size minus attended ids, not clamped, so it is negative when deleted students attended. */
  function AbsentCount(students: seq<Student>, attendance: seq<AttendanceRecord>, today: string): int
  {
    |students| - |AttendedIds(attendance, today)|
  }

  /** The "Present Today" headline: present ids plus late ids. */
  function PresentTodayCount(attendance: seq<AttendanceRecord>, today: string): nat
  {
    |PresentIds(attendance, today)| + |LateIds(attendance, today)|
  }

  /** A record of another day, or a teacher's record, changes none of today's figures. */
  lemma OtherRecordsDoNotCount(students: seq<Student>, attendance: seq<AttendanceRecord>,
                               rec: AttendanceRecord, today: string)
    requires rec.date != today || rec.kind == TeacherKind
    ensures TodaysRecords(attendance + [rec], today) == TodaysRecords(attendance, today)
    ensures PresentIds(attendance + [rec], today) == PresentIds(attendance, today)
    ensures LateIds(attendance + [rec], today) == LateIds(attendance, today)
    ensures PresentStudents(students, attendance + [rec], today) == PresentStudents(students, attendance, today)
    ensures LateStudents(students, attendance + [rec], today) == LateStudents(students, attendance, today)
    ensures AbsentStudents(students, attendance + [rec], today) == AbsentStudents(students, attendance, today)
    ensures AbsentCount(students, attendance + [rec], today) == AbsentCount(students, attendance, today)
  {
    FilterAppend(attendance, [rec], StudentRecordOn(today));
    assert Filter([rec], StudentRecordOn(today)) == [];
  }

  /** A scan of an id that is not a student's leaves every figure of today as it was. */
  lemma NonStudentScanDoesNotCount(students: seq<Student>, teachers: seq<Teacher>, details: Option<SchoolDetails>,
                                   log: seq<AttendanceRecord>, data: string, today: string, nowMs: int,
                                   recordId: string, timestamp: int)
    requires !HasStudent(students, data)
    ensures var r := Scan(students, teachers, details, log, data, today, nowMs, recordId, timestamp);
            PresentIds(r.log, today) == PresentIds(log, today)
            && LateIds(r.log, today) == LateIds(log, today)
            && AbsentCount(students, r.log, today) == AbsentCount(students, log, today)
  {
    var r := Scan(students, teachers, details, log, data, today, nowMs, recordId, timestamp);
    if r.outcome.Marked? {
      OtherRecordsDoNotCount(students, log, r.outcome.record, today);
    }
  }

  /** A student whose scan is accepted today is counted as present or as late, as the classifier decided. */
  lemma AcceptedStudentScanCounts(students: seq<Student>, teachers: seq<Teacher>, details: Option<SchoolDetails>,
                                  log: seq<AttendanceRecord>, data: string, today: string, nowMs: int,
                                  recordId: string, timestamp: int)
    requires HasStudent(students, data) && !AlreadyPresent(log, data, today)
    ensures var r := Scan(students, teachers, details, log, data, today, nowMs, recordId, timestamp);
            (data in PresentIds(r.log, today) <==> ClassifyStatus(details, nowMs) == Present)
            && (data in LateIds(r.log, today) <==> ClassifyStatus(details, nowMs) == Late)
  {
    var r := Scan(students, teachers, details, log, data, today, nowMs, recordId, timestamp);
    var rec := r.outcome.record;
    assert r.log == log + [rec] && rec.personId == data && rec.status == ClassifyStatus(details, nowMs);
    IdsAfterAppend(log, rec, today, Present);
    IdsAfterAppend(log, rec, today, Late);
    NoRecordNoStatus(log, today, Present, data);
    NoRecordNoStatus(log, today, Late, data);
  }

  /** Under one record per person and day, nobody is both present and late today. */
  lemma PresentLateDisjoint(attendance: seq<AttendanceRecord>, today: string)
    requires OnePerPersonPerDay(attendance)
    ensures forall id :: id in PresentIds(attendance, today) ==> id !in LateIds(attendance, today)
    ensures PresentIds(attendance, today) * LateIds(attendance, today) == {}
  {
    forall id | id in PresentIds(attendance, today)
      ensures id !in LateIds(attendance, today)
    {
      IdHasRecord(attendance, today, Present, id);
      var i :| 0 <= i < |attendance| && attendance[i].personId == id && attendance[i].date == today
               && attendance[i].status == Present;
      var ls := Filter(TodaysRecords(attendance, today), WithStatus(Late));
      forall k | 0 <= k < |ls|
        ensures ls[k].personId != id
      {
        assert ls[k] in ls;
        var m :| 0 <= m < |attendance| && attendance[m] == ls[k];
        assert attendance[m].status == Late && attendance[m].date == today;
        assert m != i && attendance[m].date == attendance[i].date;
        assert attendance[m].personId != attendance[i].personId;
      }
    }
  }

  /** Every student falls in exactly one of present, late and absent, when nobody is both present and late. */
  lemma StudentListsCoverRosterOnce(students: seq<Student>, attendance: seq<AttendanceRecord>, today: string)
    requires OnePerPersonPerDay(attendance)
    ensures multiset(PresentStudents(students, attendance, today)) + multiset(LateStudents(students, attendance, today))
            + multiset(AbsentStudents(students, attendance, today)) == multiset(students)
    ensures |PresentStudents(students, attendance, today)| + |LateStudents(students, attendance, today)|
            + |AbsentStudents(students, attendance, today)| == |students|
  {
    PresentLateDisjoint(attendance, today);
    var present, late := PresentIds(attendance, today), LateIds(attendance, today);
    var p := KeyIn(StudentId, present);
    var l := KeyIn(StudentId, late);
    var a := KeyNotIn(StudentId, AttendedIds(attendance, today));
    forall k | 0 <= k < |students|
      ensures p(students[k]) || l(students[k]) || a(students[k])
      ensures !(p(students[k]) && l(students[k])) && !(p(students[k]) && a(students[k])) && !(l(students[k]) && a(students[k]))
    {
      var id := students[k].id;
      assert StudentId(students[k]) == id;
      assert p(students[k]) == (id in present);
      assert l(students[k]) == (id in late);
      assert a(students[k]) == (id !in present && id !in late);
      assert id in present ==> id !in late;
    }
    FilterPartition(students, p, l, a);
  }

  /** The three lists keep the roster's order, and absent means in neither of the id sets. */
  lemma StudentListsAreSublists(students: seq<Student>, attendance: seq<AttendanceRecord>, today: string)
    ensures Sublist(PresentStudents(students, attendance, today), students)
    ensures Sublist(LateStudents(students, attendance, today), students)
    ensures Sublist(AbsentStudents(students, attendance, today), students)
    ensures forall k :: 0 <= k < |students| ==>
              (students[k] in AbsentStudents(students, attendance, today) <==>
                 students[k].id !in PresentIds(attendance, today) && students[k].id !in LateIds(attendance, today))
  {
    FilterIsSublist(students, KeyIn(StudentId, PresentIds(attendance, today)));
    FilterIsSublist(students, KeyIn(StudentId, LateIds(attendance, today)));
    FilterIsSublist(students, KeyNotIn(StudentId, AttendedIds(attendance, today)));
  }

  /** Absent students are neither present nor late. */
  lemma AbsentDisjointFromAttended(students: seq<Student>, attendance: seq<AttendanceRecord>, today: string, s: Student)
    requires s in AbsentStudents(students, attendance, today)
    ensures s !in PresentStudents(students, attendance, today)
    ensures s !in LateStudents(students, attendance, today)
  {
  }

  /** Under one record per person and day the headline counts each attended student once. */
  lemma HeadlineCountsAttended(attendance: seq<AttendanceRecord>, today: string)
    requires OnePerPersonPerDay(attendance)
    ensures PresentTodayCount(attendance, today) == |AttendedIds(attendance, today)|
  {
    PresentLateDisjoint(attendance, today);
  }

  /**
   * With distinct student ids and no attendee outside the roster, the absent
   * count is the length of the absent list, and with the headline it adds up
   * to the roster.
   */
  lemma AbsentCountMatchesList(students: seq<Student>, attendance: seq<AttendanceRecord>, today: string)
    requires DistinctKeys(students, StudentId)
    requires AttendedIds(attendance, today) <= Keys(students, StudentId)
    requires OnePerPersonPerDay(attendance)
    ensures AbsentCount(students, attendance, today) == |AbsentStudents(students, attendance, today)|
    ensures PresentTodayCount(attendance, today) + AbsentCount(students, attendance, today) == |students|
  {
    var attended := AttendedIds(attendance, today);
    FilterComplement(students, KeyIn(StudentId, attended), KeyNotIn(StudentId, attended));
    CountKeyIn(students, StudentId, attended);
    assert attended * Keys(students, StudentId) == attended;
    HeadlineCountsAttended(attendance, today);
  }

  /** A record of a student no longer on the roster makes the absent count negative. */
  lemma AbsentCountCanBeNegative(today: string)
    ensures AbsentCount([], [AttendanceRecord("r1", "gone", StudentKind, Present, 0, today)], today) == -1
  {
    var rec := AttendanceRecord("r1", "gone", StudentKind, Present, 0, today);
    assert TodaysRecords([rec], today) == [rec];
    assert Filter([rec], WithStatus(Present)) == [rec];
    assert Filter([rec], WithStatus(Late)) == [];
  }

  // ---------------------------------------------------------------- chart

  /** One bar of the weekly chart. */
  datatype ChartEntry = ChartEntry(name: string, present: int, late: int, absent: int)

  /** `studentCount`: the roster size, taken as 1 for an empty roster. */
  function StudentCount(students: seq<Student>): (n: nat)
    ensures n >= 1 && n >= |students|
    ensures n == 1 || n == |students|
  {
    if |students| == 0 then 1 else |students|
  }

  /**
   * The bar of one day: present and late count STUDENT records of that date
   * (not distinct persons); absent is the current roster size, taken as 1
   * when the roster is empty, minus both, clamped at 0.
   */
  function DayEntry(students: seq<Student>, attendance: seq<AttendanceRecord>, date: string, name: string): ChartEntry
  {
    var recs := TodaysRecords(attendance, date);
    var p := |Filter(recs, WithStatus(Present))|;
    var l := |Filter(recs, WithStatus(Late))|;
    var studentCount := StudentCount(students);
    ChartEntry(name, p, l, if studentCount - (p + l) > 0 then studentCount - (p + l) else 0)
  }

  /**
   * The bars never go negative; present and late split the day's STUDENT
   * records; the three add up to the roster (at least 1) unless more records
   * than students were made that day.
   */
  lemma DayEntryBounds(students: seq<Student>, attendance: seq<AttendanceRecord>, date: string, name: string)
    ensures var e := DayEntry(students, attendance, date, name);
            e.present >= 0 && e.late >= 0 && e.absent >= 0
            && e.present + e.late == |TodaysRecords(attendance, date)|
            && (e.present + e.late <= StudentCount(students) ==> e.present + e.late + e.absent == StudentCount(students))
            && (e.present + e.late >= StudentCount(students) ==> e.absent == 0)
  {
    FilterComplement(TodaysRecords(attendance, date), WithStatus(Present), WithStatus(Late));
  }

  /**
   * `getChartData`: seven bars, oldest first, for the days 6, 5, ..., 0 days
   * back; `dateKey(i)` and `dayName(i)` are the date key and the weekday
   * label of the day `i` days back.
   */
  method GetChartData(students: seq<Student>, attendance: seq<AttendanceRecord>,
                      dateKey: nat -> string, dayName: nat -> string)
    returns (data: seq<ChartEntry>)
    ensures |data| == 7
    ensures forall k :: 0 <= k < 7 ==> data[k] == DayEntry(students, attendance, dateKey(6 - k), dayName(6 - k))
  {
    data := [];
    var i := 6;
    while i >= 0
      invariant -1 <= i <= 6
      invariant |data| == 6 - i
      invariant forall k :: 0 <= k < |data| ==> data[k] == DayEntry(students, attendance, dateKey(6 - k), dayName(6 - k))
    {
      data := data + [DayEntry(students, attendance, dateKey(i), dayName(i))];
      i := i - 1;
    }
  }

  /** Under one record per person and day, today's bar shows exactly the sizes of today's id sets. */
  lemma TodaysBarMatchesStats(students: seq<Student>, attendance: seq<AttendanceRecord>, today: string, name: string)
    requires OnePerPersonPerDay(attendance)
    ensures DayEntry(students, attendance, today, name).present == |PresentIds(attendance, today)|
    ensures DayEntry(students, attendance, today, name).late == |LateIds(attendance, today)|
  {
    assert DistinctKeys(attendance, PersonAndDay);
    var todays := TodaysRecords(attendance, today);
    FilterKeepsDistinct(attendance, StudentRecordOn(today), PersonAndDay);
    forall st: Status
      ensures |Keys(Filter(todays, WithStatus(st)), PersonIdOf)| == |Filter(todays, WithStatus(st))|
    {
      var f := Filter(todays, WithStatus(st));
      FilterKeepsDistinct(todays, WithStatus(st), PersonAndDay);
      forall i, j | 0 <= i < j < |f|
        ensures f[i].personId != f[j].personId
      {
        assert f[i] in todays && f[j] in todays;
        assert PersonAndDay(f[i]) != PersonAndDay(f[j]);
      }
      KeysOfDistinct(f, PersonIdOf);
    }
  }

  /** Two PRESENT records of one student on one day make a bar of 2 present for one present id. */
  lemma ChartCountsRecords(date: string)
    ensures var rec := AttendanceRecord("r1", "s1", StudentKind, Present, 0, date);
            var log := [rec, rec.(id := "r2")];
            DayEntry([], log, date, "Mon").present == 2 && |PresentIds(log, date)| == 1
  {
    var rec := AttendanceRecord("r1", "s1", StudentKind, Present, 0, date);
    var rec2 := rec.(id := "r2");
    var log := [rec, rec2];
    assert log[1..] == [rec2] && [rec2][1..] == [];
    var onDate, present := StudentRecordOn(date), WithStatus(Present);
    assert onDate(rec) && onDate(rec2) && present(rec) && present(rec2);
    assert Filter([rec2], onDate) == [rec2];
    assert Filter(log, onDate) == [rec] + Filter([rec2], onDate);
    assert TodaysRecords(log, date) == log;
    assert Filter([rec2], present) == [rec2];
    assert Filter(log, present) == [rec] + Filter([rec2], present);
    assert Keys([rec2], PersonIdOf) == {"s1"};
    assert Keys(log, PersonIdOf) == {"s1"};
    assert PresentIds(log, date) == {"s1"};
  }
}
