/**
 * The records kept in the browser store: patients with their documents,
 * appointments and profile history, doctors with their treatment history, and
 * hospital admins with their department statistics.
 */
module Records {
  import opened Validation
  import opened Seqs

  /**
   * A numeric form field: the empty text, or the number the handler reads from
   * the text (with parseInt, parseFloat or Number).
   */
  datatype NumField = Blank | Num(n: Number)

  datatype Document = Document(
    id: string, name: string, uploadDate: string, docType: string,
    description: string, dataUrl: string)

  datatype Status = Pending | Accepted | Rejected

  datatype Appointment = Appointment(
    id: string, hospitalId: string, hospitalName: string, department: string,
    doctorId: string, doctorName: string, date: string, time: string,
    symptoms: string, status: Status, message: string)

  /** The pre-update profile values saved on each profile update. */
  datatype Snapshot = Snapshot(
    gender: string, bmi: NumField, address: string, income: NumField,
    occupation: string, capturedAt: string)

  datatype Patient = Patient(
    username: string, email: string, password: string,
    name: string, gender: string, age: NumField, bmi: NumField, address: string,
    bloodGroup: string, income: NumField, religion: string, occupation: string,
    familyDiseases: string, familyBackgroundDiseases: string,
    documents: seq<Document>, appointments: seq<Appointment>, previousDetails: seq<Snapshot>)

  datatype HistoryEntry = HistoryEntry(date: string, patientsCount: int)

  datatype Doctor = Doctor(
    username: string, password: string, name: string, department: string, hospital: string,
    appointments: seq<Appointment>, treatmentHistory: seq<HistoryEntry>)

  datatype MonthEntry = MonthEntry(month: string, patients: int)
  datatype WeekEntry = WeekEntry(week: string, patients: int)

  datatype DepartmentStats = DepartmentStats(
    name: string, totalPatients: int, monthlyData: seq<MonthEntry>, weeklyData: seq<WeekEntry>)

  datatype Admin = Admin(
    username: string, password: string, hospitalName: string, hospitalLocation: string,
    hospitalLogo: string, departments: seq<DepartmentStats>)

  function UsernameOfDoctor(d: Doctor): string { d.username }
  function UsernameOfAdmin(a: Admin): string { a.username }

  /**
   * `records.some(r => r.username === username)`: the exact, case-sensitive
   * duplicate check of the doctor and the admin registration forms;
   * `usernameOf` reads a record's username.
   */
  function UsernameTaken<T>(records: seq<T>, usernameOf: T -> string, username: string): (r: bool)
    ensures r <==> exists i :: 0 <= i < |records| && usernameOf(records[i]) == username
  {
    Any(records, (x: T) => usernameOf(x) == username)
  }

  /** The keys of the field-to-message error objects the forms build. */
  datatype Field =
    | General | Name | Email | Gender | Age | Bmi | Address | BloodGroup | Income
    | Religion | Occupation | Password | ConfirmPassword | NewPassword | Otp
    | Username | Department | HospitalName | HospitalLocation | AdminUsername | AdminPassword

  /** A form's error object; the form is accepted when it is empty. */
  type Errors = map<Field, string>

  /** `cond ? { ...errs, [field]: message } : errs`. */
  function AddIf(errs: Errors, cond: bool, field: Field, message: string): (r: Errors)
    ensures cond ==> r == errs[field := message]
    ensures !cond ==> r == errs
  {
    if cond then errs[field := message] else errs
  }
}
