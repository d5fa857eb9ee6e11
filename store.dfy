/**
 * The browser's key-value store as the portal uses it: three collection keys
 * (`patients`, `doctors`, `admins`) holding JSON arrays and three session keys
 * (`currentPatient`, `currentDoctor`, `currentAdmin`) holding an identifier.
 * An absent key is `None`; every handler reads an absent collection as `[]`.
 */
module Store {
  import opened Wrappers
  import opened Records

  class Store {
    var patients: Option<seq<Patient>>
    var doctors: Option<seq<Doctor>>
    var admins: Option<seq<Admin>>
    var currentPatient: Option<string>
    var currentDoctor: Option<string>
    var currentAdmin: Option<string>

    /** A browser profile that has never run the portal. */
    constructor Empty()
      ensures patients.None? && doctors.None? && admins.None?
      ensures currentPatient.None? && currentDoctor.None? && currentAdmin.None?
    {
      patients, doctors, admins := None, None, None;
      currentPatient, currentDoctor, currentAdmin := None, None, None;
    }

    /** `JSON.parse(localStorage.getItem('patients') || '[]')`. */
    function Patients(): seq<Patient>
      reads this
    {
      patients.GetOr([])
    }

    /** `JSON.parse(localStorage.getItem('doctors') || '[]')`. */
    function Doctors(): seq<Doctor>
      reads this
    {
      doctors.GetOr([])
    }

    /** `JSON.parse(localStorage.getItem('admins') || '[]')`. */
    function Admins(): seq<Admin>
      reads this
    {
      admins.GetOr([])
    }
  }
}
