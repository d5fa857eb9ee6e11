/**
 * The application shell (src/App.jsx): first-run seeding of the three
 * collections from the demo credentials, and logout.
 */
module App {
  import opened Wrappers
  import opened Validation
  import opened Catalog
  import opened Records
  import opened Store

  /** The stored form of a demo patient, as the first run writes it. */
  function SeedPatient(c: PatientCredential): Patient {
    Patient(
      c.username, c.email, c.password,
      if c.username == "patient1" then "John Doe" else "Jane Smith",
      "MALE", Num(Finite(35.0)), Num(Finite(24.5)), "123 Main Street, City",
      "O_POSITIVE", Num(Finite(50000.0)), "Christianity", "Software Engineer",
      "Diabetes", "", [], [], [])
  }

  /** One seeded patient per demo patient credential, with no documents, appointments or history. */
  function SeedPatients(): (r: seq<Patient>)
    ensures |r| == |DemoPatients|
    ensures forall i :: 0 <= i < |r| ==>
      && r[i].username == DemoPatients[i].username
      && r[i].email == DemoPatients[i].email
      && r[i].password == DemoPatients[i].password
      && r[i].documents == [] && r[i].appointments == [] && r[i].previousDetails == []
  {
    seq(|DemoPatients|, i requires 0 <= i < |DemoPatients| => SeedPatient(DemoPatients[i]))
  }

  function SeedDoctor(c: Credential): Doctor {
    Doctor(
      c.username, c.password,
      if c.username == "dr.smith" then "Dr. John Smith" else "Dr. Sarah Wilson",
      "Cardiology", "City General Hospital", [],
      [HistoryEntry("2024-12-10", 12), HistoryEntry("2024-12-09", 15), HistoryEntry("2024-12-08", 10)])
  }

  /** One seeded doctor per demo doctor credential, each with a 3-entry treatment history. */
  function SeedDoctors(): (r: seq<Doctor>)
    ensures |r| == |DemoDoctors|
    ensures forall i :: 0 <= i < |r| ==>
      && r[i].username == DemoDoctors[i].username
      && r[i].password == DemoDoctors[i].password
      && r[i].hospital == "City General Hospital"
      && r[i].appointments == [] && |r[i].treatmentHistory| == 3
  {
    seq(|DemoDoctors|, i requires 0 <= i < |DemoDoctors| => SeedDoctor(DemoDoctors[i]))
  }

  function SeedAdmin(c: Credential): Admin {
    Admin(c.username, c.password, "City General Hospital", "Downtown, Main Street", "", [])
  }

  /** One seeded admin per demo admin credential, with no department statistics. */
  function SeedAdmins(): (r: seq<Admin>)
    ensures |r| == |DemoAdmins|
    ensures forall i :: 0 <= i < |r| ==>
      && r[i].username == DemoAdmins[i].username
      && r[i].password == DemoAdmins[i].password
      && r[i].hospitalName == "City General Hospital"
      && r[i].departments == []
  {
    seq(|DemoAdmins|, i requires 0 <= i < |DemoAdmins| => SeedAdmin(DemoAdmins[i]))
  }

  /** `if (!localStorage.getItem(key)) localStorage.setItem(key, seed)`. */
  function SeedIfAbsent<T>(stored: Option<seq<T>>, seed: seq<T>): Option<seq<T>> {
    if stored.None? then Some(seed) else stored
  }

  /** Seeding a key twice leaves it as seeding it once. */
  lemma SeedIfAbsentIdempotent<T>(stored: Option<seq<T>>, seed: seq<T>)
    ensures SeedIfAbsent(SeedIfAbsent(stored, seed), seed) == SeedIfAbsent(stored, seed)
    ensures stored.Some? ==> SeedIfAbsent(stored, seed) == stored
  {
  }

  /** The first-run effect: each collection is written only when its key is absent. */
  method Initialize(store: Store)
    modifies store`patients, store`doctors, store`admins
    ensures old(store.patients).Some? ==> store.patients == old(store.patients)
    ensures old(store.patients).None? ==> store.patients == Some(SeedPatients())
    ensures old(store.doctors).Some? ==> store.doctors == old(store.doctors)
    ensures old(store.doctors).None? ==> store.doctors == Some(SeedDoctors())
    ensures old(store.admins).Some? ==> store.admins == old(store.admins)
    ensures old(store.admins).None? ==> store.admins == Some(SeedAdmins())
  {
    store.patients := SeedIfAbsent(store.patients, SeedPatients());
    store.doctors := SeedIfAbsent(store.doctors, SeedDoctors());
    store.admins := SeedIfAbsent(store.admins, SeedAdmins());
  }

  /** Running the first-run effect again changes nothing. */
  method InitializeTwice(store: Store)
    modifies store`patients, store`doctors, store`admins
    ensures store.patients == SeedIfAbsent(old(store.patients), SeedPatients())
    ensures store.doctors == SeedIfAbsent(old(store.doctors), SeedDoctors())
    ensures store.admins == SeedIfAbsent(old(store.admins), SeedAdmins())
  {
    Initialize(store);
    Initialize(store);
  }

  /** handleLogout: every session key is removed, whichever role was signed in. */
  method Logout(store: Store)
    modifies store`currentPatient, store`currentDoctor, store`currentAdmin
    ensures store.currentPatient.None? && store.currentDoctor.None? && store.currentAdmin.None?
  {
    store.currentPatient := None;
    store.currentDoctor := None;
    store.currentAdmin := None;
  }
}
