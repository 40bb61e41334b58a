/**
 * The records the tracker stores. Optional properties of the TypeScript
 * interfaces are `Option`s; `number` timestamps are `int` milliseconds.
 */
module Types {
  import opened Optional

  /** Who an attendance record is about: `'STUDENT' | 'TEACHER'`. */
  datatype PersonKind = StudentKind | TeacherKind

  /** How an arrival was classified: `'PRESENT' | 'LATE'`, nothing else. */
  datatype Status = Present | Late

  /** The school profile; `startSchoolTime` is meant to be "HH:mm" and may be missing. */
  datatype SchoolDetails = SchoolDetails(
    name: string,
    address: string,
    logoUrl: Option<string>,
    establishedYear: Option<string>,
    startSchoolTime: Option<string>)

  /** A class, identified by `id`, such as grade "10" section "A". */
  datatype ClassSection = ClassSection(
    id: string,
    grade: string,
    section: string,
    classTeacherId: Option<string>)

  datatype Teacher = Teacher(
    id: string,
    name: string,
    subject: string,
    contact: string,
    email: string,
    qualification: string,
    avatarUrl: string,
    createdAt: int)

  datatype Student = Student(
    id: string,
    name: string,
    rollNumber: string,
    grade: string,
    section: string,
    parentName: string,
    parentContact: string,
    dob: string,
    bloodGroup: string,
    address: string,
    avatarUrl: string,
    createdAt: int)

  /** One accepted scan. `personId` names a student or a teacher; `date` is a "YYYY-MM-DD" key. */
  datatype AttendanceRecord = AttendanceRecord(
    id: string,
    personId: string,
    kind: PersonKind,
    status: Status,
    timestamp: int,
    date: string)
}
