/**
 * The hospital admin dashboard (src/pages/admin/AdminDashboard.jsx): loading
 * the admin (or synthesizing demo statistics), registering doctors, the
 * availability form, and the patient total.
 */
module AdminDashboard {
  import opened Wrappers
  import opened Validation
  import opened Catalog
  import opened Records
  import opened Store

  // ---------------------------------------------------------------- the admin on screen

  /** `Math.floor(random * span) + base` for a draw `random` in [0, 1). */
  function RandomInt(random: real, span: nat, base: int): (n: int)
    requires 0.0 <= random < 1.0 && span > 0
    ensures base <= n < base + span
  {
    var x := random * span as real;
    ScaledDrawBelow(random, span as real);
    x.Floor + base
  }

  /** A draw in [0, 1) scaled by a positive span lies in [0, span). */
  lemma ScaledDrawBelow(random: real, span: real)
    requires 0.0 <= random < 1.0 && span > 0.0
    ensures 0.0 <= random * span < span
  {
    assert span - random * span == (1.0 - random) * span;
    assert (1.0 - random) * span > 0.0;
  }

  const Months: seq<string> := ["January", "February", "March", "April", "May", "June"]
  const Weeks: seq<string> := ["Week 1", "Week 2", "Week 3", "Week 4"]

  /** Each draw is a `Math.random()` value. */
  predicate Draws(rnd: seq<real>) {
    forall i :: 0 <= i < |rnd| ==> 0.0 <= rnd[i] < 1.0
  }

  /**
   * One department of the synthesized admin, from its 11 draws in evaluation
   * order: the total, the six months, the four weeks.
   */
  function DefaultDepartment(name: string, rnd: seq<real>): (d: DepartmentStats)
    requires |rnd| == 11 && Draws(rnd)
    ensures d.name == name && 100 <= d.totalPatients <= 599
    ensures |d.monthlyData| == 6 && forall m :: 0 <= m < 6 ==>
      d.monthlyData[m].month == Months[m] && 50 <= d.monthlyData[m].patients <= 149
    ensures |d.weeklyData| == 4 && forall w :: 0 <= w < 4 ==>
      d.weeklyData[w].week == Weeks[w] && 10 <= d.weeklyData[w].patients <= 59
  {
    DepartmentStats(
      name,
      RandomInt(rnd[0], 500, 100),
      seq(6, m requires 0 <= m < 6 => MonthEntry(Months[m], RandomInt(rnd[1 + m], 100, 50))),
      seq(4, w requires 0 <= w < 4 => WeekEntry(Weeks[w], RandomInt(rnd[7 + w], 50, 10))))
  }

  /** The admin shown when no stored admin has the username; it is never written to the store. */
  function DefaultAdmin(username: string, rnd: seq<real>): (a: Admin)
    requires |rnd| == 11 * |Departments| && Draws(rnd)
    ensures a.username == username && a.hospitalName == "City General Hospital"
    ensures a.hospitalLocation == "Downtown, Main Street" && a.hospitalLogo == ""
    ensures |a.departments| == |Departments|
    ensures forall k :: 0 <= k < |Departments| ==>
      && a.departments[k].name == Departments[k]
      && 100 <= a.departments[k].totalPatients <= 599
      && |a.departments[k].monthlyData| == 6 && |a.departments[k].weeklyData| == 4
    ensures forall k :: 0 <= k < |Departments| ==>
      a.departments[k] == DefaultDepartment(Departments[k], rnd[11 * k .. 11 * k + 11])
  {
    Admin(
      username, "", "City General Hospital", "Downtown, Main Street", "",
      seq(|Departments|, k requires 0 <= k < |Departments| =>
        DefaultDepartment(Departments[k], rnd[11 * k .. 11 * k + 11])))
  }

  /** The load effect: the first stored admin with exactly this username, or the synthesized one. */
  function LoadAdmin(admins: seq<Admin>, username: string, rnd: seq<real>): (a: Admin)
    requires |rnd| == 11 * |Departments| && Draws(rnd)
    ensures (forall i :: 0 <= i < |admins| ==> admins[i].username != username) ==> a == DefaultAdmin(username, rnd)
    ensures forall i ::
      (0 <= i < |admins| && admins[i].username == username &&
       (forall j :: 0 <= j < i ==> admins[j].username != username)) ==> a == admins[i]
  {
    match Seqs.FindFirst(admins, (x: Admin) => x.username == username)
    case None => DefaultAdmin(username, rnd)
    case Some(i) => admins[i]
  }

  /** `departments.reduce((sum, d) => sum + d.totalPatients, 0)`. */
  function SumTotals(ds: seq<DepartmentStats>): int {
    if ds == [] then 0 else ds[0].totalPatients + SumTotals(ds[1..])
  }

  /** A sum of department totals each in [lo, hi] lies between |ds|*lo and |ds|*hi. */
  lemma {:induction false} SumTotalsBounds(ds: seq<DepartmentStats>, lo: int, hi: int)
    requires forall k :: 0 <= k < |ds| ==> lo <= ds[k].totalPatients <= hi
    ensures |ds| * lo <= SumTotals(ds) <= |ds| * hi
  {
    if ds != [] {
      SumTotalsBounds(ds[1..], lo, hi);
    }
  }

  /** Department totals that are never negative sum to a non-negative total. */
  lemma {:induction false} SumTotalsNonNegative(ds: seq<DepartmentStats>)
    ensures (forall k :: 0 <= k < |ds| ==> ds[k].totalPatients >= 0) ==> SumTotals(ds) >= 0
  {
    if ds != [] {
      SumTotalsNonNegative(ds[1..]);
    }
  }

  /** The synthesized admin's patient total lies in [800, 4792] (eight departments of 100..599). */
  lemma DefaultAdminTotal(username: string, rnd: seq<real>)
    requires |rnd| == 11 * |Departments| && Draws(rnd)
    ensures 800 <= SumTotals(DefaultAdmin(username, rnd).departments) <= 4792
  {
    SumTotalsBounds(DefaultAdmin(username, rnd).departments, 100, 599);
  }

  // ---------------------------------------------------------------- doctor registration

  datatype DoctorForm = DoctorForm(
    username: string, name: string, department: string, password: string, confirmPassword: string)

  /** validateDoctorForm: one error per broken field rule, all collected together. */
  function ValidateDoctorForm(f: DoctorForm): (errs: Errors)
    ensures errs.Keys <= {Username, Name, Department, Password, ConfirmPassword}
    ensures Username in errs <==> !ValidateUsername(f.username).valid
    ensures Username in errs ==> errs[Username] == ValidateUsername(f.username).message
    ensures Name in errs <==> !ValidateRequired(f.name)
    ensures Name in errs ==> errs[Name] == "Doctor name is required"
    ensures Department in errs <==> f.department == ""
    ensures Department in errs ==> errs[Department] == "Department is required"
    ensures Password in errs <==> !ValidatePassword(f.password).valid
    ensures Password in errs ==> errs[Password] == ValidatePassword(f.password).message
    ensures ConfirmPassword in errs <==> f.password != f.confirmPassword
    ensures ConfirmPassword in errs ==> errs[ConfirmPassword] == "Passwords do not match"
  {
    DoctorErrors(f, ValidateUsername(f.username), ValidateRequired(f.name), ValidatePassword(f.password))
  }

  /** The error object validateDoctorForm builds, given the outcomes of the shared validators. */
  function DoctorErrors(f: DoctorForm, user: Check, named: bool, pw: Check): (errs: Errors)
    ensures errs.Keys <= {Username, Name, Department, Password, ConfirmPassword}
    ensures Username in errs <==> !user.valid
    ensures Username in errs ==> errs[Username] == user.message
    ensures Name in errs <==> !named
    ensures Name in errs ==> errs[Name] == "Doctor name is required"
    ensures Department in errs <==> f.department == ""
    ensures Department in errs ==> errs[Department] == "Department is required"
    ensures Password in errs <==> !pw.valid
    ensures Password in errs ==> errs[Password] == pw.message
    ensures ConfirmPassword in errs <==> f.password != f.confirmPassword
    ensures ConfirmPassword in errs ==> errs[ConfirmPassword] == "Passwords do not match"
  {
    var e := AddIf(map[], !user.valid, Username, user.message);
    var e := AddIf(e, !named, Name, "Doctor name is required");
    var e := AddIf(e, f.department == "", Department, "Department is required");
    var e := AddIf(e, !pw.valid, Password, pw.message);
    AddIf(e, f.password != f.confirmPassword, ConfirmPassword, "Passwords do not match")
  }

  /** `adminData?.hospitalName || 'Unknown Hospital'`. */
  function HospitalOf(admin: Option<Admin>): (h: string)
    ensures h != ""
    ensures admin.Some? && admin.value.hospitalName != "" ==> h == admin.value.hospitalName
    ensures !(admin.Some? && admin.value.hospitalName != "") ==> h == "Unknown Hospital"
  {
    if admin.Some? && admin.value.hospitalName != "" then admin.value.hospitalName else "Unknown Hospital"
  }

  /** The doctor handleRegisterDoctor appends: no appointments and no treatment history yet. */
  function NewDoctor(f: DoctorForm, hospital: string): (d: Doctor)
    ensures d.username == f.username && d.password == f.password && d.name == f.name
    ensures d.department == f.department && d.hospital == hospital
    ensures d.appointments == [] && d.treatmentHistory == []
  {
    Doctor(f.username, f.password, f.name, f.department, hospital, [], [])
  }

  /** No two stored doctors share a username. */
  ghost predicate DoctorUsernamesUnique(ds: seq<Doctor>) {
    forall i, j :: 0 <= i < j < |ds| ==> ds[i].username != ds[j].username
  }

  /** The duplicate check keeps doctor usernames unique. */
  lemma RegisterDoctorKeepsUsernamesUnique(ds: seq<Doctor>, f: DoctorForm, hospital: string)
    requires DoctorUsernamesUnique(ds) && !UsernameTaken(ds, UsernameOfDoctor, f.username)
    ensures DoctorUsernamesUnique(ds + [NewDoctor(f, hospital)])
  {
    var ds' := ds + [NewDoctor(f, hospital)];
    forall i, j | 0 <= i < j < |ds'|
      ensures ds'[i].username != ds'[j].username
    {
      assert ds'[i] == ds[i];
    }
  }

  datatype AvailabilityForm = AvailabilityForm(doctorUsername: string, day: string, timeSlot: string)

  // ---------------------------------------------------------------- the page

  class DashboardPage {
    const store: Store
    var adminData: Option<Admin>
    var errors: Errors

    /** The first render: no admin loaded yet and no errors. */
    constructor(store: Store)
      ensures this.store == store
      ensures adminData.None? && errors == map[]
    {
      this.store := store;
      adminData := None;
      errors := map[];
    }

    /** The load effect for `username`; `rnd` holds the draws for the synthesized statistics. */
    method Load(username: string, rnd: seq<real>)
      requires |rnd| == 11 * |Departments| && Draws(rnd)
      modifies this`adminData
      ensures adminData == Some(LoadAdmin(store.Admins(), username, rnd))
    {
      adminData := Some(LoadAdmin(store.Admins(), username, rnd));
    }

    /** handleRegisterDoctor: appends the new doctor unless the form is invalid or the username is taken. */
    method RegisterDoctor(f: DoctorForm) returns (registered: bool)
      modifies this`errors, store`doctors
      ensures registered <==> ValidateDoctorForm(f) == map[] && !UsernameTaken(old(store.Doctors()), UsernameOfDoctor, f.username)
      ensures ValidateDoctorForm(f) != map[] ==> errors == ValidateDoctorForm(f)
      ensures ValidateDoctorForm(f) == map[] && !registered ==> errors == map[Username := "Username already exists"]
      ensures !registered ==> store.doctors == old(store.doctors)
      ensures registered ==>
        && errors == map[]
        && store.doctors == Some(old(store.Doctors()) + [NewDoctor(f, HospitalOf(adminData))])
    {
      errors := ValidateDoctorForm(f);
      if errors != map[] {
        return false;
      }
      var ds := store.Doctors();
      if UsernameTaken(ds, UsernameOfDoctor, f.username) {
        errors := map[Username := "Username already exists"];
        return false;
      }
      store.doctors := Some(ds + [NewDoctor(f, HospitalOf(adminData))]);
      errors := map[];
      registered := true;
    }

    /** handleSetAvailability: only a confirmation; it writes neither the store nor the page state. */
    method SetAvailability(f: AvailabilityForm) returns (accepted: bool)
      ensures accepted <==> f.doctorUsername != "" && f.day != "" && f.timeSlot != ""
    {
      accepted := f.doctorUsername != "" && f.day != "" && f.timeSlot != "";
    }

    /** totalPatients: the sum of the departments' totals, or 0 before the admin is loaded. */
    function TotalPatients(): (n: int)
      reads this
      ensures adminData.None? ==> n == 0
      ensures adminData.Some? ==> n == SumTotals(adminData.value.departments)
      ensures adminData.Some? &&
        (forall k :: 0 <= k < |adminData.value.departments| ==> adminData.value.departments[k].totalPatients >= 0)
        ==> n >= 0
    {
      if adminData.None? then 0
      else
        SumTotalsNonNegative(adminData.value.departments);
        SumTotals(adminData.value.departments)
    }
  }
}
