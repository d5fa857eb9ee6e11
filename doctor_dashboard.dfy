/**
 * The doctor dashboard (src/pages/doctor/DoctorDashboard.jsx): it loads the
 * doctor (or a fixed demo doctor), joins every patient's appointments into the
 * incoming list, and sums the treatment history. It only reads the store.
 */
module DoctorDashboard {
  import opened Seqs
  import opened Records
  import opened Store

  /** The doctor shown when no stored doctor has the username; it is never written to the store. */
  function DefaultDoctor(username: string): (d: Doctor)
    ensures d.username == username && d.name == "Dr. John Smith"
    ensures d.department == "Cardiology" && d.hospital == "City General Hospital"
    ensures d.appointments == [] && |d.treatmentHistory| == 5
  {
    Doctor(
      username, "", "Dr. John Smith", "Cardiology", "City General Hospital", [],
      [HistoryEntry("2024-12-10", 12), HistoryEntry("2024-12-09", 15), HistoryEntry("2024-12-08", 10),
       HistoryEntry("2024-12-07", 14), HistoryEntry("2024-12-06", 11)])
  }

  /** The load effect: the first stored doctor with exactly this username, or the default one. */
  function LoadDoctor(doctors: seq<Doctor>, username: string): (d: Doctor)
    ensures (forall i :: 0 <= i < |doctors| ==> doctors[i].username != username) ==> d == DefaultDoctor(username)
    ensures forall i ::
      (0 <= i < |doctors| && doctors[i].username == username &&
       (forall j :: 0 <= j < i ==> doctors[j].username != username)) ==> d == doctors[i]
  {
    match FindFirst(doctors, (x: Doctor) => x.username == username)
    case None => DefaultDoctor(username)
    case Some(i) => doctors[i]
  }

  // ---------------------------------------------------------------- incoming appointments

  /** An appointment with its owning patient record attached (`{ ...apt, patientData: p }`). */
  datatype IncomingAppointment = IncomingAppointment(appointment: Appointment, patientData: Patient)

  /** One patient's appointments, each tagged with the patient. */
  function Tagged(p: Patient): (r: seq<IncomingAppointment>)
    ensures |r| == |p.appointments|
    ensures forall i :: 0 <= i < |r| ==> r[i] == IncomingAppointment(p.appointments[i], p)
  {
    seq(|p.appointments|, i requires 0 <= i < |p.appointments| => IncomingAppointment(p.appointments[i], p))
  }

  /** `flatMap` of Tagged: patient order, then appointment order. */
  function FlatTagged(ps: seq<Patient>): seq<IncomingAppointment> {
    if ps == [] then [] else Tagged(ps[0]) + FlatTagged(ps[1..])
  }

  /** The total number of appointments over all patients. */
  function AppointmentCount(ps: seq<Patient>): nat {
    if ps == [] then 0 else |ps[0].appointments| + AppointmentCount(ps[1..])
  }

  predicate HasAppointments(p: Patient) {
    |p.appointments| > 0
  }

  /** The join: patients with appointments, each appointment tagged with its patient. */
  function Incoming(ps: seq<Patient>): seq<IncomingAppointment> {
    FlatTagged(Filter(ps, HasAppointments))
  }

  /** The join distributes over the patient list, so patient order is kept. */
  lemma {:induction false} FlatTaggedAppend(ps: seq<Patient>, qs: seq<Patient>)
    ensures FlatTagged(ps + qs) == FlatTagged(ps) + FlatTagged(qs)
  {
    if ps == [] {
      assert ps + qs == qs;
    } else {
      assert (ps + qs)[0] == ps[0] && (ps + qs)[1..] == ps[1..] + qs;
      FlatTaggedAppend(ps[1..], qs);
    }
  }

  /** Patients without appointments contribute nothing: the filter does not change the join. */
  lemma {:induction false} IncomingIsEveryAppointment(ps: seq<Patient>)
    ensures Incoming(ps) == FlatTagged(ps)
  {
    if ps != [] {
      IncomingIsEveryAppointment(ps[1..]);
      var head := if HasAppointments(ps[0]) then [ps[0]] else [];
      assert Filter(ps, HasAppointments) == head + Filter(ps[1..], HasAppointments);
      FlatTaggedAppend(head, Filter(ps[1..], HasAppointments));
      if HasAppointments(ps[0]) {
        assert FlatTagged([ps[0]]) == Tagged(ps[0]);
      } else {
        assert Tagged(ps[0]) == [];
      }
    }
  }

  /** The join holds exactly one item per appointment. */
  lemma {:induction false} FlatTaggedLength(ps: seq<Patient>)
    ensures |FlatTagged(ps)| == AppointmentCount(ps)
  {
    if ps != [] {
      FlatTaggedLength(ps[1..]);
    }
  }

  /** The patient at position k's appointments occupy one contiguous block of the join, in order. */
  lemma {:induction false} PatientBlock(ps: seq<Patient>, k: nat)
    requires k < |ps|
    ensures FlatTagged(ps) == FlatTagged(ps[..k]) + Tagged(ps[k]) + FlatTagged(ps[k + 1..])
  {
    var rest := [ps[k]] + ps[k + 1..];
    assert ps == ps[..k] + rest;
    FlatTaggedAppend(ps[..k], rest);
    assert rest[0] == ps[k] && rest[1..] == ps[k + 1..];
    assert FlatTagged(rest) == Tagged(ps[k]) + FlatTagged(ps[k + 1..]);
  }

  /** The incoming list truncated to its first five items. */
  function TodaysAppointments(ps: seq<Patient>): (r: seq<IncomingAppointment>)
    ensures |r| == Min(AppointmentCount(ps), 5) && |r| <= 5
    ensures r <= FlatTagged(ps)
  {
    IncomingIsEveryAppointment(ps);
    FlatTaggedLength(ps);
    Take(Incoming(ps), 5)
  }

  // ---------------------------------------------------------------- totals

  /** `history.reduce((sum, r) => sum + r.patientsCount, 0)`. */
  function SumCounts(h: seq<HistoryEntry>): int {
    if h == [] then 0 else h[0].patientsCount + SumCounts(h[1..])
  }

  lemma {:induction false} SumCountsAppend(a: seq<HistoryEntry>, b: seq<HistoryEntry>)
    ensures SumCounts(a + b) == SumCounts(a) + SumCounts(b)
  {
    if a == [] {
      assert a + b == b;
    } else {
      assert (a + b)[0] == a[0] && (a + b)[1..] == a[1..] + b;
      SumCountsAppend(a[1..], b);
    }
  }

  /** totalPatientsThisWeek: the sum over the first seven history entries. */
  function ThisWeek(d: Doctor): int {
    SumCounts(Take(d.treatmentHistory, 7))
  }

  /** The total-patients card: the sum over the whole history. */
  function TotalPatients(d: Doctor): int {
    SumCounts(d.treatmentHistory)
  }

  /** The week's count plus the older entries' count is the total; with at most 7 entries they coincide. */
  lemma ThisWeekAndOlder(d: Doctor)
    ensures ThisWeek(d) + SumCounts(d.treatmentHistory[Min(|d.treatmentHistory|, 7)..]) == TotalPatients(d)
    ensures |d.treatmentHistory| <= 7 ==> ThisWeek(d) == TotalPatients(d)
  {
    var h := d.treatmentHistory;
    var n := Min(|h|, 7);
    assert h == h[..n] + h[n..];
    SumCountsAppend(h[..n], h[n..]);
    assert Take(h, 7) == h[..n];
  }

  /** With no negative counts, the week's count never exceeds the total. */
  lemma {:induction false} ThisWeekAtMostTotal(d: Doctor)
    requires forall i :: 0 <= i < |d.treatmentHistory| ==> d.treatmentHistory[i].patientsCount >= 0
    ensures ThisWeek(d) <= TotalPatients(d)
  {
    ThisWeekAndOlder(d);
    SumCountsNonNegative(d.treatmentHistory[Min(|d.treatmentHistory|, 7)..]);
  }

  lemma {:induction false} SumCountsNonNegative(h: seq<HistoryEntry>)
    requires forall i :: 0 <= i < |h| ==> h[i].patientsCount >= 0
    ensures SumCounts(h) >= 0
  {
    if h != [] {
      SumCountsNonNegative(h[1..]);
    }
  }

  /** The demo doctor's five-day history: 62 patients, all within the week. */
  lemma DefaultDoctorTotals(username: string)
    ensures ThisWeek(DefaultDoctor(username)) == 62 && TotalPatients(DefaultDoctor(username)) == 62
  {
    ThisWeekAndOlder(DefaultDoctor(username));
  }

  // ---------------------------------------------------------------- the page

  /** What the dashboard shows: the doctor, the first five incoming appointments, and the three counters. */
  datatype View = View(doctor: Doctor, todays: seq<IncomingAppointment>, today: nat, thisWeek: int, total: int)

  /** The load effect and the counters; the method has no modifies clause, so it writes nothing. */
  method Open(store: Store, username: string) returns (v: View)
    ensures v.doctor == LoadDoctor(store.Doctors(), username)
    ensures v.todays == TodaysAppointments(store.Patients())
    ensures v.today == Min(AppointmentCount(store.Patients()), 5)
    ensures v.thisWeek == ThisWeek(v.doctor) && v.total == TotalPatients(v.doctor)
  {
    var doctor := LoadDoctor(store.Doctors(), username);
    var todays := TodaysAppointments(store.Patients());
    v := View(doctor, todays, |todays|, ThisWeek(doctor), TotalPatients(doctor));
  }
}
