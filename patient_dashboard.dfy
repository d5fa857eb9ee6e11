/**
 * The patient dashboard (src/pages/patient/PatientDashboard.jsx): loading the
 * signed-in patient, writing the record back, document upload, appointment
 * booking, profile editing with a capped history, and the catalog filters of
 * the search tab.
 */
module PatientDashboard {
  import opened Wrappers
  import opened Text
  import opened Seqs
  import opened Validation
  import opened Catalog
  import opened Records
  import opened Store
  import opened Accounts

  // ---------------------------------------------------------------- profile form

  datatype ProfileForm = ProfileForm(
    name: string, email: string, gender: string, age: NumField, bmi: NumField,
    address: string, bloodGroup: string, income: NumField, religion: string,
    occupation: string, familyBackgroundDiseases: string)

  /** toProfileForm: the editable view of a record; the email falls back to the username. */
  function ToProfileForm(p: Patient): (f: ProfileForm)
    ensures f.email == (if p.email != "" then p.email else p.username)
    ensures f.familyBackgroundDiseases ==
      (if p.familyBackgroundDiseases != "" then p.familyBackgroundDiseases else p.familyDiseases)
    ensures f.name == p.name && f.gender == p.gender && f.age == p.age && f.bmi == p.bmi
    ensures f.address == p.address && f.bloodGroup == p.bloodGroup && f.income == p.income
    ensures f.religion == p.religion && f.occupation == p.occupation
  {
    ProfileForm(
      p.name, if p.email != "" then p.email else p.username, p.gender, p.age, p.bmi,
      p.address, p.bloodGroup, p.income, p.religion, p.occupation,
      if p.familyBackgroundDiseases != "" then p.familyBackgroundDiseases else p.familyDiseases)
  }

  /** `Number(field)`: an empty field reads as 0. */
  function NumberOf(x: NumField): Number {
    match x
    case Blank => Finite(0.0)
    case Num(n) => n
  }

  const ProfileFields: set<Field> :=
    {Name, Email, Gender, Age, Bmi, Address, BloodGroup, Income, Religion, Occupation}

  /** Whether validateProfile rejects field k of the form. */
  predicate ProfileBroken(f: ProfileForm, k: Field) {
    match k
    case Name => !ValidateName(f.name)
    case Email => !ValidateEmail(f.email)
    case Gender => f.gender == ""
    case Age => !ValidateAge(NumberOf(f.age))
    case Bmi => !ValidateBMI(NumberOf(f.bmi))
    case Address => !ValidateRequired(f.address)
    case BloodGroup => !ValidateRequired(f.bloodGroup)
    case Income => f.income.Blank? || Below(f.income.n, 0.0)
    case Religion => !ValidateRequired(f.religion)
    case Occupation => !ValidateRequired(f.occupation)
    case _ => false
  }

  /** The message validateProfile stores under field k. */
  function ProfileMessage(k: Field): string {
    match k
    case Name => "Name must be between 2 and 100 characters"
    case Email => "Valid email is required"
    case Gender => "Gender is required"
    case Age => "Age must be 1-150"
    case Bmi => "BMI must be 10-60"
    case Address => "Address is required"
    case BloodGroup => "Blood group is required"
    case Income => "Income must be 0 or more"
    case Religion => "Religion is required"
    case _ => "Occupation is required"
  }

  /** validateProfile: one error per broken field rule. */
  function ValidateProfile(f: ProfileForm): (errs: Errors)
    ensures errs.Keys <= ProfileFields
    ensures forall k :: k in errs <==> ProfileBroken(f, k)
    ensures forall k :: k in errs ==> errs[k] == ProfileMessage(k)
  {
    map k | k in ProfileFields && ProfileBroken(f, k) :: ProfileMessage(k)
  }

  /** What the identity and body rules of validateProfile accept; an empty age or BMI reads as 0 and fails. */
  lemma ProfileBodyRules(f: ProfileForm)
    ensures Name in ValidateProfile(f) <==> !(2 <= JsLength(Trim(f.name)) <= 100)
    ensures Email in ValidateProfile(f) <==> !ValidateEmail(f.email)
    ensures Gender in ValidateProfile(f) <==> f.gender == ""
    ensures Age in ValidateProfile(f) <==> !(f.age.Num? && f.age.n.Finite? && 1.0 <= f.age.n.value <= 150.0)
    ensures Bmi in ValidateProfile(f) <==> !(f.bmi.Num? && f.bmi.n.Finite? && 10.0 <= f.bmi.n.value <= 60.0)
  {
    assert ProfileBroken(f, Name) <==> !ValidateName(f.name);
    assert ProfileBroken(f, Age) <==> !ValidateAge(NumberOf(f.age));
    assert ProfileBroken(f, Bmi) <==> !ValidateBMI(NumberOf(f.bmi));
  }

  /** What the text rules of validateProfile accept; unlike registration the blood group must be non-blank. */
  lemma ProfileDetailRules(f: ProfileForm)
    ensures Address in ValidateProfile(f) <==> !ValidateRequired(f.address)
    ensures BloodGroup in ValidateProfile(f) <==> !ValidateRequired(f.bloodGroup)
    ensures Religion in ValidateProfile(f) <==> !ValidateRequired(f.religion)
    ensures Occupation in ValidateProfile(f) <==> !ValidateRequired(f.occupation)
  {
    var errs := ValidateProfile(f);
    assert Address in errs <==> ProfileBroken(f, Address);
    assert BloodGroup in errs <==> ProfileBroken(f, BloodGroup);
    assert Religion in errs <==> ProfileBroken(f, Religion);
    assert Occupation in errs <==> ProfileBroken(f, Occupation);
  }

  /** The income rule of validateProfile: blank, negative or minus-infinite incomes are refused, NaN passes. */
  lemma ProfileIncomeRule(f: ProfileForm)
    ensures Income in ValidateProfile(f) <==>
      f.income.Blank? || (f.income.n.Finite? && f.income.n.value < 0.0) || f.income.n == Infinity(true)
  {
    assert ProfileBroken(f, Income) <==> f.income.Blank? || Below(f.income.n, 0.0);
  }

  // ---------------------------------------------------------------- profile history

  /** The pre-update values handleProfileUpdate saves. */
  function SnapshotOf(p: Patient, capturedAt: string): Snapshot {
    Snapshot(p.gender, p.bmi, p.address, p.income, p.occupation, capturedAt)
  }

  /** `[snapshot, ...history].slice(0, 5)`. */
  function PushSnapshot(history: seq<Snapshot>, s: Snapshot): (r: seq<Snapshot>)
    ensures |r| == Min(|history| + 1, 5)
    ensures r[0] == s
    ensures r[1..] <= history
  {
    Take([s] + history, 5)
  }

  /** The history after pushing each of `snaps` in turn (the last one is the most recent). */
  function PushAll(history: seq<Snapshot>, snaps: seq<Snapshot>): seq<Snapshot> {
    if snaps == [] then history
    else PushSnapshot(PushAll(history, snaps[..|snaps| - 1]), snaps[|snaps| - 1])
  }

  function Reverse<T>(s: seq<T>): (r: seq<T>)
    ensures |r| == |s|
    ensures forall i :: 0 <= i < |s| ==> r[i] == s[|s| - 1 - i]
  {
    if s == [] then [] else [s[|s| - 1]] + Reverse(s[..|s| - 1])
  }

  /** Truncating before prepending does not change what the next truncation keeps. */
  lemma TakeAfterPrepend<T>(x: T, t: seq<T>, n: nat)
    requires n >= 1
    ensures Take([x] + Take(t, n), n) == Take([x] + t, n)
  {
    if |t| > n {
      assert ([x] + t[..n])[..n] == ([x] + t)[..n];
    }
  }

  /**
   * After any sequence of updates to a history of at most 5 entries (every
   * record starts with none), the history holds the most recent snapshots
   * first, followed by the older history, and never more than 5 entries.
   */
  lemma {:induction false} HistoryKeepsMostRecent(history: seq<Snapshot>, snaps: seq<Snapshot>)
    requires |history| <= 5
    ensures PushAll(history, snaps) == Take(Reverse(snaps) + history, 5)
  {
    if snaps != [] {
      var init, last := snaps[..|snaps| - 1], snaps[|snaps| - 1];
      HistoryKeepsMostRecent(history, init);
      TakeAfterPrepend(last, Reverse(init) + history, 5);
      assert Reverse(snaps) == [last] + Reverse(init);
      calc {
        PushAll(history, snaps);
        PushSnapshot(PushAll(history, init), last);
        Take([last] + Take(Reverse(init) + history, 5), 5);
        Take([last] + (Reverse(init) + history), 5);
        { assert [last] + (Reverse(init) + history) == Reverse(snaps) + history; }
        Take(Reverse(snaps) + history, 5);
      }
    }
  }

  /** Five or more updates leave exactly the five latest snapshots, latest first. */
  lemma FiveUpdatesFillHistory(history: seq<Snapshot>, snaps: seq<Snapshot>)
    requires |history| <= 5 && |snaps| >= 5
    ensures PushAll(history, snaps) == Reverse(snaps)[..5]
  {
    HistoryKeepsMostRecent(history, snaps);
    assert (Reverse(snaps) + history)[..5] == Reverse(snaps)[..5];
  }

  /** handleProfileUpdate's new record: the form over the old record, with the pre-update snapshot pushed. */
  function ApplyProfile(p: Patient, f: ProfileForm, capturedAt: string): (r: Patient)
    ensures r.name == f.name && r.email == f.email && r.gender == f.gender
    ensures r.age == f.age && r.bmi == f.bmi && r.address == f.address && r.bloodGroup == f.bloodGroup
    ensures r.income == f.income && r.religion == f.religion && r.occupation == f.occupation
    ensures r.familyDiseases == f.familyBackgroundDiseases && r.familyBackgroundDiseases == f.familyBackgroundDiseases
    ensures r.username == p.username && r.password == p.password
    ensures r.documents == p.documents && r.appointments == p.appointments
    ensures r.previousDetails == PushSnapshot(p.previousDetails, SnapshotOf(p, capturedAt))
  {
    p.(name := f.name, email := f.email, gender := f.gender, age := f.age, bmi := f.bmi,
       address := f.address, bloodGroup := f.bloodGroup, income := f.income,
       religion := f.religion, occupation := f.occupation,
       familyDiseases := f.familyBackgroundDiseases,
       familyBackgroundDiseases := f.familyBackgroundDiseases,
       previousDetails := PushSnapshot(p.previousDetails, SnapshotOf(p, capturedAt)))
  }

  /** After an update with a non-empty email the form shows exactly what was entered. */
  lemma ProfileRoundTrip(p: Patient, f: ProfileForm, capturedAt: string)
    requires f.email != ""
    ensures ToProfileForm(ApplyProfile(p, f, capturedAt)) == f
  {
  }

  /** An accepted profile form has a non-empty email, so saving it round-trips. */
  lemma AcceptedProfileHasEmail(f: ProfileForm)
    requires ValidateProfile(f) == map[]
    ensures f.email != ""
  {
    assert !ProfileBroken(f, Email);
    ValidEmailIsRequired(f.email);
  }

  // ---------------------------------------------------------------- records

  /** The dashboard's initial lookup: the first record answering to `userEmail || currentPatient`. */
  function LoadPatient(ps: seq<Patient>, identifier: Option<string>): (r: Option<Patient>)
    ensures identifier.None? ==> r.None?
    ensures identifier.Some? ==>
      (r.None? <==> forall i :: 0 <= i < |ps| ==> !MatchesIdentifier(ps[i], LowerStr(identifier.value)))
    ensures identifier.Some? && r.Some? ==>
      exists i: nat :: FirstAccount(ps, LowerStr(identifier.value), i) && r.value == ps[i]
  {
    if identifier.None? then None
    else
      var ident := LowerStr(identifier.value);
      FindAccountIsFirst(ps, ident);
      match FindAccount(ps, ident)
      case None => None
      case Some(i) => Some(ps[i])
  }

  /** persistPatient's write: every entry of the current account becomes the updated record. */
  function ReplaceAccount(ps: seq<Patient>, current: Patient, updated: Patient): (r: seq<Patient>)
    ensures |r| == |ps|
    ensures forall i :: 0 <= i < |ps| && SameAccount(ps[i], current) ==> r[i] == updated
    ensures forall i :: 0 <= i < |ps| && !SameAccount(ps[i], current) ==> r[i] == ps[i]
  {
    ReplaceWhere(ps, (p: Patient) => SameAccount(p, current), (p: Patient) => updated)
  }

  /** Writing back the record that is already stored changes nothing. */
  lemma ReplaceWithSameIsIdentity(ps: seq<Patient>, current: Patient)
    requires forall i :: 0 <= i < |ps| && SameAccount(ps[i], current) ==> ps[i] == current
    ensures ReplaceAccount(ps, current, current) == ps
  {
    var r := ReplaceAccount(ps, current, current);
    assert forall i :: 0 <= i < |ps| ==> r[i] == ps[i];
  }

  /** A file the patient picked: its name and the data URL the browser read. */
  datatype SelectedFile = SelectedFile(name: string, dataUrl: string)

  /** The document handleFileUpload builds; the description defaults to 'N/A'. */
  function NewDocument(id: string, file: SelectedFile, uploadDate: string, docType: string, description: string): (d: Document)
    ensures d.name == file.name && d.docType == docType && d.dataUrl == file.dataUrl
    ensures d.description == (if description == "" then "N/A" else description)
  {
    Document(id, file.name, uploadDate, docType, if description != "" then description else "N/A", file.dataUrl)
  }

  datatype AppointmentForm = AppointmentForm(
    hospitalId: string, doctorId: string, date: string, time: string, symptoms: string)

  /** `hospitals.find(h => h.id === id)`. */
  function FindHospital(id: string): (r: Option<Hospital>)
    ensures r.Some? ==> r.value in Hospitals && r.value.id == id
    ensures r.None? <==> forall i :: 0 <= i < |Hospitals| ==> Hospitals[i].id != id
  {
    match FindFirst(Hospitals, (h: Hospital) => h.id == id)
    case None => None
    case Some(i) => Some(Hospitals[i])
  }

  /** `doctors.find(d => d.id === id)` over the catalog. */
  function FindCatalogDoctor(id: string): (r: Option<CatalogDoctor>)
    ensures r.Some? ==> r.value in Doctors && r.value.id == id
    ensures r.None? <==> forall i :: 0 <= i < |Doctors| ==> Doctors[i].id != id
  {
    match FindFirst(Doctors, (d: CatalogDoctor) => d.id == id)
    case None => None
    case Some(i) => Some(Doctors[i])
  }

  /** The appointment handleBookAppointment builds: pending, with no message, names looked up in the catalog. */
  function NewAppointment(id: string, f: AppointmentForm): (a: Appointment)
    ensures a.status == Pending && a.message == ""
    ensures a.hospitalId == f.hospitalId && a.doctorId == f.doctorId
    ensures a.date == f.date && a.time == f.time && a.symptoms == f.symptoms
    ensures FindHospital(f.hospitalId).None? ==> a.hospitalName == ""
    ensures FindHospital(f.hospitalId).Some? ==> a.hospitalName == FindHospital(f.hospitalId).value.name
    ensures FindCatalogDoctor(f.doctorId).None? ==> a.department == "" && a.doctorName == ""
    ensures FindCatalogDoctor(f.doctorId).Some? ==>
      a.department == FindCatalogDoctor(f.doctorId).value.department &&
      a.doctorName == FindCatalogDoctor(f.doctorId).value.name
  {
    var hospital := FindHospital(f.hospitalId);
    var doctor := FindCatalogDoctor(f.doctorId);
    Appointment(
      id, f.hospitalId,
      if hospital.Some? then hospital.value.name else "",
      if doctor.Some? then doctor.value.department else "",
      f.doctorId,
      if doctor.Some? then doctor.value.name else "",
      f.date, f.time, f.symptoms, Pending, "")
  }

  /** Every field of the booking form is filled in. */
  predicate BookingComplete(f: AppointmentForm) {
    f.hospitalId != "" && f.doctorId != "" && f.date != "" && f.time != "" && f.symptoms != ""
  }

  // ---------------------------------------------------------------- catalog search

  /** filteredHospitals' test: the query occurs in the name, location or full address, ignoring case. */
  predicate HospitalMatches(h: Hospital, query: string) {
    var q := LowerStr(query);
    Contains(LowerStr(h.name), q) || Contains(LowerStr(h.location), q) || Contains(LowerStr(h.fullAddress), q)
  }

  /** filteredHospitals: the matching catalog hospitals, in catalog order. */
  function FilteredHospitals(query: string): (r: seq<Hospital>)
    ensures forall i :: 0 <= i < |r| ==> r[i] in Hospitals && HospitalMatches(r[i], query)
    ensures forall i :: 0 <= i < |Hospitals| && HospitalMatches(Hospitals[i], query) ==> Hospitals[i] in r
    ensures SelectsInOrder(r, Hospitals, (h: Hospital) => HospitalMatches(h, query))
  {
    HospitalsMatching(Hospitals, query)
  }

  /** `hs.filter(...)` with filteredHospitals' test: the matching hospitals of hs, in order. */
  function HospitalsMatching(hs: seq<Hospital>, query: string): (r: seq<Hospital>)
    ensures forall i :: 0 <= i < |r| ==> r[i] in hs && HospitalMatches(r[i], query)
    ensures forall i :: 0 <= i < |hs| && HospitalMatches(hs[i], query) ==> hs[i] in r
    ensures SelectsInOrder(r, hs, (h: Hospital) => HospitalMatches(h, query))
  {
    var matches := (h: Hospital) => HospitalMatches(h, query);
    FilterInOrder(hs, matches);
    Filter(hs, matches)
  }

  /** The empty query lists the whole catalog. */
  lemma EmptyQueryListsAll()
    ensures FilteredHospitals("") == Hospitals
  {
    forall i | 0 <= i < |Hospitals| ensures HospitalMatches(Hospitals[i], "") {
      ContainsEmpty(LowerStr(Hospitals[i].name));
    }
    FilterKeepsAll(Hospitals, (h: Hospital) => HospitalMatches(h, ""));
    assert HospitalsMatching(Hospitals, "") == Hospitals;
  }

  /** getDoctorsByHospital: the catalog doctors of the hospital with that id, or none for an unknown id. */
  function DoctorsByHospital(hospitalId: string): (r: seq<CatalogDoctor>)
    ensures FindHospital(hospitalId).None? ==> r == []
    ensures forall i :: 0 <= i < |r| ==> r[i] in Doctors && r[i].hospital == FindHospital(hospitalId).value.name
    ensures FindHospital(hospitalId).Some? ==>
      forall i :: 0 <= i < |Doctors| && Doctors[i].hospital == FindHospital(hospitalId).value.name ==> Doctors[i] in r
    ensures FindHospital(hospitalId).Some? ==>
      SelectsInOrder(r, Doctors, (d: CatalogDoctor) => d.hospital == FindHospital(hospitalId).value.name)
  {
    match FindHospital(hospitalId)
    case None => []
    case Some(h) => DoctorsAt(Doctors, h.name)
  }

  /** `ds.filter(d => d.hospital === name)`: exactly the doctors of that hospital, in order. */
  function DoctorsAt(ds: seq<CatalogDoctor>, name: string): (r: seq<CatalogDoctor>)
    ensures forall i :: 0 <= i < |r| ==> r[i] in ds && r[i].hospital == name
    ensures forall i :: 0 <= i < |ds| && ds[i].hospital == name ==> ds[i] in r
    ensures SelectsInOrder(r, ds, (d: CatalogDoctor) => d.hospital == name)
  {
    var atHospital := (d: CatalogDoctor) => d.hospital == name;
    FilterInOrder(ds, atHospital);
    Filter(ds, atHospital)
  }

  /** Whether the doctors list shows d for the selected hospital id and department (empty = any). */
  predicate DoctorShown(d: CatalogDoctor, hospitalId: string, department: string) {
    && (department == "" || d.department == department)
    && (hospitalId == "" || (FindHospital(hospitalId).Some? && d.hospital == FindHospital(hospitalId).value.name))
  }

  /** The department filter of filteredDoctors: an empty department keeps every doctor. */
  function OfDepartment(base: seq<CatalogDoctor>, department: string): (r: seq<CatalogDoctor>)
    ensures forall i :: 0 <= i < |r| ==> r[i] in base && (department == "" || r[i].department == department)
    ensures forall d :: d in base && (department == "" || d.department == department) ==> d in r
    ensures SelectsInOrder(r, base, (d: CatalogDoctor) => department == "" || d.department == department)
  {
    var byDepartment := (d: CatalogDoctor) => department == "" || d.department == department;
    forall d | d in base && byDepartment(d) ensures d in Filter(base, byDepartment) {
      FilterKeepsMember(base, byDepartment, d);
    }
    FilterInOrder(base, byDepartment);
    Filter(base, byDepartment)
  }

  /** filteredDoctors: exactly the catalog doctors shown for the selection, in catalog order. */
  function FilteredDoctors(hospitalId: string, department: string): (r: seq<CatalogDoctor>)
    ensures forall i :: 0 <= i < |r| ==> r[i] in Doctors && DoctorShown(r[i], hospitalId, department)
    ensures forall i :: 0 <= i < |Doctors| && DoctorShown(Doctors[i], hospitalId, department) ==> Doctors[i] in r
    ensures SelectsInOrder(r, Doctors, (d: CatalogDoctor) => DoctorShown(d, hospitalId, department))
  {
    var base := if hospitalId != "" then DoctorsByHospital(hospitalId) else Doctors;
    ShownInOrder(Doctors, hospitalId, department, base);
    OfDepartment(base, department)
  }

  /**
   * The department filter over the selected hospital's doctors (or over all of
   * ds when no hospital is selected) selects, in order, the doctors shown.
   */
  lemma ShownInOrder(ds: seq<CatalogDoctor>, hospitalId: string, department: string, base: seq<CatalogDoctor>)
    requires hospitalId == "" ==> base == ds
    requires hospitalId != "" && FindHospital(hospitalId).None? ==> base == []
    requires hospitalId != "" && FindHospital(hospitalId).Some? ==> base == DoctorsAt(ds, FindHospital(hospitalId).value.name)
    ensures SelectsInOrder(OfDepartment(base, department), ds, (d: CatalogDoctor) => DoctorShown(d, hospitalId, department))
  {
    var shown := (d: CatalogDoctor) => DoctorShown(d, hospitalId, department);
    var byDepartment := (d: CatalogDoctor) => department == "" || d.department == department;
    if hospitalId == "" {
      SelectsInOrderSameTest(OfDepartment(ds, department), ds, byDepartment, shown);
    } else if FindHospital(hospitalId).None? {
      assert PicksAt([], ds, []);
    } else {
      var name := FindHospital(hospitalId).value.name;
      TwoFiltersInOrder(ds, name, department);
      SelectsInOrderSameTest(OfDepartment(DoctorsAt(ds, name), department), ds,
        (d: CatalogDoctor) => d.hospital == name && byDepartment(d), shown);
    }
  }

  /** The department filter applied to one hospital's doctors selects, in order, by both tests. */
  lemma TwoFiltersInOrder(ds: seq<CatalogDoctor>, name: string, department: string)
    ensures SelectsInOrder(OfDepartment(DoctorsAt(ds, name), department), ds,
      (d: CatalogDoctor) => d.hospital == name && (department == "" || d.department == department))
  {
    SelectsInOrderCompose(OfDepartment(DoctorsAt(ds, name), department), DoctorsAt(ds, name), ds,
      (d: CatalogDoctor) => d.hospital == name, (d: CatalogDoctor) => department == "" || d.department == department);
  }

  /** With nothing selected every catalog doctor is listed. */
  lemma NoSelectionListsAll()
    ensures FilteredDoctors("", "") == Doctors
  {
    FilterKeepsAll(Doctors, (d: CatalogDoctor) => "" == "" || d.department == "");
  }

  // ---------------------------------------------------------------- availability

  datatype Availability = Available(slots: seq<string>) | Unavailable(message: string)

  /** isDoctorAvailable for the weekday name `dayName` (the caller reads it from the clock). */
  function IsDoctorAvailable(d: CatalogDoctor, dayName: string): (r: Availability)
    ensures r.Unavailable? <==> forall i :: 0 <= i < |d.availability| ==> d.availability[i].day != dayName
    ensures r.Unavailable? ==> r.message == "Not available today"
    ensures r.Available? ==>
      exists i :: (0 <= i < |d.availability| && d.availability[i].day == dayName &&
                   (forall j :: 0 <= j < i ==> d.availability[j].day != dayName) && r.slots == d.availability[i].slots)
  {
    match FindFirst(d.availability, (s: DaySlots) => s.day == dayName)
    case None => Unavailable("Not available today")
    case Some(i) => Available(d.availability[i].slots)
  }

  /** getAvailableTimeSlots: the slots of the first entry for the weekday, or none. */
  function AvailableTimeSlots(d: CatalogDoctor, dayName: string): (r: seq<string>)
    ensures (forall i :: 0 <= i < |d.availability| ==> d.availability[i].day != dayName) ==> r == []
    ensures forall i ::
      (0 <= i < |d.availability| && d.availability[i].day == dayName &&
       (forall j :: 0 <= j < i ==> d.availability[j].day != dayName)) ==> r == d.availability[i].slots
  {
    match FindFirst(d.availability, (s: DaySlots) => s.day == dayName)
    case None => []
    case Some(i) => d.availability[i].slots
  }

  /** The two availability readers agree: the slot list is the available slots, or empty when unavailable. */
  lemma SlotsAgreeWithAvailability(d: CatalogDoctor, dayName: string)
    ensures IsDoctorAvailable(d, dayName).Unavailable? ==> AvailableTimeSlots(d, dayName) == []
    ensures IsDoctorAvailable(d, dayName).Available? ==>
      AvailableTimeSlots(d, dayName) == IsDoctorAvailable(d, dayName).slots
  {
  }

  /** Every availability entry of the catalog lists at least one slot. */
  lemma CatalogSlotsNonEmpty()
    ensures forall i, j :: 0 <= i < |Doctors| && 0 <= j < |Doctors[i].availability| ==>
      Doctors[i].availability[j].slots != []
  {
  }

  /** For catalog doctors the slot list is empty exactly when the doctor is unavailable that day. */
  lemma CatalogSlotsEmptyIffUnavailable(k: nat, dayName: string)
    requires k < |Doctors|
    ensures AvailableTimeSlots(Doctors[k], dayName) == [] <==> IsDoctorAvailable(Doctors[k], dayName).Unavailable?
  {
    CatalogSlotsNonEmpty();
    SlotsAgreeWithAvailability(Doctors[k], dayName);
  }

  // ---------------------------------------------------------------- the page

  /** The dashboard's React state over the shared store. */
  class DashboardPage {
    const store: Store
    var patientData: Option<Patient>
    var profileForm: Option<ProfileForm>
    var profileErrors: Errors

    /** The load effect: `userEmail`, or the `currentPatient` slot when it is empty, selects the record. */
    constructor Open(store: Store, userEmail: string)
      ensures this.store == store
      ensures patientData == LoadPatient(store.Patients(), if userEmail != "" then Some(userEmail) else store.currentPatient)
      ensures profileForm == (if patientData.Some? then Some(ToProfileForm(patientData.value)) else None)
      ensures profileErrors == map[]
    {
      this.store := store;
      var p := LoadPatient(store.Patients(), if userEmail != "" then Some(userEmail) else store.currentPatient);
      patientData := p;
      profileForm := if p.Some? then Some(ToProfileForm(p.value)) else None;
      profileErrors := map[];
    }

    /** persistPatient: replaces the current account's entries in the store and on screen. */
    method PersistPatient(updated: Patient)
      requires patientData.Some?
      modifies store`patients, this`patientData
      ensures store.patients == Some(ReplaceAccount(old(store.Patients()), old(patientData.value), updated))
      ensures patientData == Some(updated)
    {
      store.patients := Some(ReplaceAccount(store.Patients(), patientData.value, updated));
      patientData := Some(updated);
    }

    /** handleFileUpload once the browser has read the file; `id` and `uploadDate` come from the clock. */
    method FileUpload(file: Option<SelectedFile>, documentType: string, description: string, id: string, uploadDate: string)
      returns (uploaded: bool)
      modifies store`patients, this`patientData
      ensures uploaded <==> file.Some? && old(patientData).Some? && documentType != ""
      ensures !uploaded ==> store.patients == old(store.patients) && patientData == old(patientData)
      ensures uploaded ==>
        var before := old(patientData).value;
        var doc := NewDocument(id, file.value, uploadDate, documentType, description);
        && patientData == Some(before.(documents := before.documents + [doc]))
        && store.patients == Some(ReplaceAccount(old(store.Patients()), before, patientData.value))
    {
      if file.None? || patientData.None? || documentType == "" {
        return false;
      }
      var before := patientData.value;
      var doc := NewDocument(id, file.value, uploadDate, documentType, description);
      PersistPatient(before.(documents := before.documents + [doc]));
      uploaded := true;
    }

    /** handleBookAppointment; `id` comes from the clock. */
    method BookAppointment(f: AppointmentForm, id: string) returns (booked: bool)
      modifies store`patients, this`patientData
      ensures booked <==> old(patientData).Some? && BookingComplete(f)
      ensures !booked ==> store.patients == old(store.patients) && patientData == old(patientData)
      ensures booked ==>
        var before := old(patientData).value;
        && patientData == Some(before.(appointments := before.appointments + [NewAppointment(id, f)]))
        && store.patients == Some(ReplaceAccount(old(store.Patients()), before, patientData.value))
    {
      if patientData.None? || !BookingComplete(f) {
        return false;
      }
      var before := patientData.value;
      PersistPatient(before.(appointments := before.appointments + [NewAppointment(id, f)]));
      booked := true;
    }

    /** The profile inputs' change handlers: the form now holds what was typed. */
    method EditProfile(f: ProfileForm)
      modifies this`profileForm
      ensures profileForm == Some(f)
    {
      profileForm := Some(f);
    }

    /**
     * handleProfileUpdate; `capturedAt` is the clock reading stored in the
     * snapshot. A successful save leaves the form showing what was entered.
     */
    method UpdateProfile(capturedAt: string) returns (saved: bool)
      modifies this`profileErrors, this`patientData, this`profileForm, store`patients
      ensures old(patientData).None? || old(profileForm).None? ==>
        !saved && profileErrors == old(profileErrors) && patientData == old(patientData) &&
        profileForm == old(profileForm) && store.patients == old(store.patients)
      ensures old(patientData).Some? && old(profileForm).Some? ==>
        && profileErrors == ValidateProfile(old(profileForm).value)
        && (saved <==> profileErrors == map[])
      ensures old(patientData).Some? && old(profileForm).Some? && !saved ==>
        patientData == old(patientData) && profileForm == old(profileForm) && store.patients == old(store.patients)
      ensures saved ==>
        var updated := ApplyProfile(old(patientData).value, old(profileForm).value, capturedAt);
        && patientData == Some(updated)
        && store.patients == Some(ReplaceAccount(old(store.Patients()), old(patientData).value, updated))
        && profileForm == old(profileForm)
    {
      if patientData.None? || profileForm.None? {
        return false;
      }
      var f := profileForm.value;
      profileErrors := ValidateProfile(f);
      if profileErrors != map[] {
        return false;
      }
      var updated := ApplyProfile(patientData.value, f, capturedAt);
      PersistPatient(updated);
      AcceptedProfileHasEmail(f);
      ProfileRoundTrip(old(patientData).value, f, capturedAt);
      profileForm := Some(ToProfileForm(updated));
      saved := true;
    }

    /** handleCancelEditProfile: the form goes back to the record and the errors are cleared. */
    method CancelEditProfile()
      modifies this`profileForm, this`profileErrors
      ensures patientData.Some? ==> profileForm == Some(ToProfileForm(patientData.value))
      ensures patientData.None? ==> profileForm == old(profileForm)
      ensures profileErrors == map[]
    {
      if patientData.Some? {
        profileForm := Some(ToProfileForm(patientData.value));
      }
      profileErrors := map[];
    }
  }
}
