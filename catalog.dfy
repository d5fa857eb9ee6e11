/**
 * The static reference data of the portal (src/utils/dummyData.js): demo
 * credentials, departments, hospitals, catalog doctors with their weekly
 * availability, and the option lists of the forms.
 */
module Catalog {

  datatype PatientCredential = PatientCredential(username: string, email: string, password: string)
  datatype Credential = Credential(username: string, password: string)

  datatype Hospital = Hospital(
    id: string, name: string, location: string, fullAddress: string,
    googleMapsLink: string, departments: seq<string>)

  /** One weekday of a catalog doctor's availability and its time slots. */
  datatype DaySlots = DaySlots(day: string, slots: seq<string>)

  datatype CatalogDoctor = CatalogDoctor(
    id: string, name: string, department: string, availability: seq<DaySlots>, hospital: string)

  const DemoPatients: seq<PatientCredential> := [
    PatientCredential("patient1", "patient1@example.com", "Patient@123"),
    PatientCredential("john.doe", "john.doe@example.com", "John@2024")
  ]

  const DemoDoctors: seq<Credential> := [
    Credential("dr.smith", "Doctor@123"),
    Credential("dr.wilson", "Wilson@2024")
  ]

  const DemoAdmins: seq<Credential> := [
    Credential("admin1", "Admin@123"),
    Credential("hospital.admin", "HospitalAdmin@2024")
  ]

  const Departments: seq<string> := [
    "Cardiology", "Orthopedics", "Neurology", "Pediatrics",
    "General Medicine", "Oncology", "Dermatology", "ENT"
  ]

  const Hospitals: seq<Hospital> := [
    Hospital("1", "City General Hospital", "Downtown, Main Street",
      "123 Main Street, Downtown, City, State 12345, Country",
      "https://www.google.com/maps/search/?api=1&query=City+General+Hospital+Downtown", Departments),
    Hospital("2", "Medicare Center", "North Avenue, Block A",
      "456 North Avenue, Block A, City, State 12346, Country",
      "https://www.google.com/maps/search/?api=1&query=Medicare+Center+North+Avenue", Departments),
    Hospital("3", "Healthcare Plus", "East Side, Medical District",
      "789 Medical District Road, East Side, City, State 12347, Country",
      "https://www.google.com/maps/search/?api=1&query=Healthcare+Plus+East+Side", Departments),
    Hospital("4", "Royal Medical Institute", "West End, Hospital Road",
      "321 Hospital Road, West End, City, State 12348, Country",
      "https://www.google.com/maps/search/?api=1&query=Royal+Medical+Institute+West+End", Departments)
  ]

  const DocumentTypes: seq<string> := [
    "LAB_REPORT", "PRESCRIPTION", "XRAY", "MRI_SCAN", "CT_SCAN", "ULTRASOUND", "ECG", "OTHER"
  ]

  const Doctors: seq<CatalogDoctor> := [
    CatalogDoctor("1", "Dr. John Smith", "Cardiology", [
      DaySlots("Monday", ["09:00 AM - 12:00 PM", "02:00 PM - 05:00 PM"]),
      DaySlots("Wednesday", ["09:00 AM - 12:00 PM", "02:00 PM - 05:00 PM"]),
      DaySlots("Friday", ["09:00 AM - 12:00 PM"])
    ], "City General Hospital"),
    CatalogDoctor("2", "Dr. Sarah Wilson", "Cardiology", [
      DaySlots("Tuesday", ["10:00 AM - 01:00 PM", "03:00 PM - 06:00 PM"]),
      DaySlots("Thursday", ["10:00 AM - 01:00 PM", "03:00 PM - 06:00 PM"])
    ], "City General Hospital"),
    CatalogDoctor("3", "Dr. Michael Brown", "Orthopedics", [
      DaySlots("Monday", ["08:00 AM - 11:00 AM", "01:00 PM - 04:00 PM"]),
      DaySlots("Tuesday", ["08:00 AM - 11:00 AM", "01:00 PM - 04:00 PM"]),
      DaySlots("Thursday", ["08:00 AM - 11:00 AM"])
    ], "Medicare Center"),
    CatalogDoctor("4", "Dr. Emily Davis", "Neurology", [
      DaySlots("Wednesday", ["09:00 AM - 12:00 PM", "02:00 PM - 05:00 PM"]),
      DaySlots("Friday", ["09:00 AM - 12:00 PM", "02:00 PM - 05:00 PM"])
    ], "Healthcare Plus"),
    CatalogDoctor("5", "Dr. James Taylor", "Pediatrics", [
      DaySlots("Monday", ["10:00 AM - 01:00 PM"]),
      DaySlots("Tuesday", ["10:00 AM - 01:00 PM"]),
      DaySlots("Wednesday", ["10:00 AM - 01:00 PM"]),
      DaySlots("Thursday", ["10:00 AM - 01:00 PM"]),
      DaySlots("Friday", ["10:00 AM - 01:00 PM"])
    ], "Royal Medical Institute"),
    CatalogDoctor("6", "Dr. Lisa Anderson", "General Medicine", [
      DaySlots("Monday", ["09:00 AM - 05:00 PM"]),
      DaySlots("Tuesday", ["09:00 AM - 05:00 PM"]),
      DaySlots("Wednesday", ["09:00 AM - 05:00 PM"]),
      DaySlots("Thursday", ["09:00 AM - 05:00 PM"]),
      DaySlots("Friday", ["09:00 AM - 05:00 PM"])
    ], "City General Hospital")
  ]

  const BloodGroups: seq<string> := [
    "A_POSITIVE", "A_NEGATIVE", "B_POSITIVE", "B_NEGATIVE", "AB_POSITIVE", "AB_NEGATIVE", "O_POSITIVE", "O_NEGATIVE"
  ]

  const GenderOptions: seq<string> := ["MALE", "FEMALE", "OTHER"]

  const ReligionOptions: seq<string> := [
    "Christianity", "Islam", "Hinduism", "Buddhism", "Judaism", "Sikhism", "Other", "Prefer not to say"
  ]
}
