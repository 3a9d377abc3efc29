/** The five entities of the blood donation system, the forms they are created
    from, and the clock they are stamped with.

    Time is one integer clock counting minutes (an `Instant`). Calendar dates
    (collection and expiry of a unit, the day of an appointment) are day numbers
    counted from 1970-01-01; a date read as a moment is its midnight, `DayStart`. */
module Records {
  import opened Seqs

  type Instant = int
  type Day = int

  const MinutesPerDay: int := 1440

  function DayStart(d: Day): Instant { d * MinutesPerDay }

  /** The eight ABO/Rh blood types, in the order every per-type view lists them. */
  const BloodTypes: seq<string> := ["A+", "A-", "B+", "B-", "AB+", "AB-", "O+", "O-"]

  /** The statuses a blood unit may be set to after intake. */
  const UnitStatuses: seq<string> := ["available", "reserved", "used", "expired"]

  const DefaultStorage: string := "Default Storage"

  datatype Donor = Donor(
    id: string, name: string, email: string, phone: string, age: int,
    bloodType: string, weight: int, address: string,
    registrationDate: Instant, lastDonation: Option<Instant>, totalDonations: int)

  datatype BloodUnit = BloodUnit(
    id: string, bloodType: string, donorId: Option<string>,
    collectionDate: Day, expiryDate: Day, storageLocation: string,
    status: string, addedDate: Instant)

  datatype AppointmentStatus = Scheduled | Completed | Cancelled

  /** `kind` is the appointment's `type` field (donation, consultation, ...);
      `time` is the minute of the day. */
  datatype Appointment = Appointment(
    id: string, donorId: string, date: Day, time: int, kind: string,
    notes: string, status: AppointmentStatus, createdDate: Instant,
    completedDate: Option<Instant>)

  datatype Recipient = Recipient(
    id: string, name: string, email: string, phone: string, age: int,
    bloodType: string, gender: string, location: string, priority: string,
    medicalId: Option<string>, doctor: Option<string>, address: string,
    medicalNotes: string, registrationDate: Instant, status: string)

  /** `kind` is the location's `type` field (Hospital, Clinic, ...). */
  datatype Location = Location(
    id: string, name: string, kind: string, address: string, city: string,
    state: string, zip: string, phone: string, capacity: int,
    createdDate: Instant, status: string)

  /** What the registration forms deliver. An empty text field is `""`;
      a capacity that does not parse as an integer is `None`. */
  datatype DonorForm = DonorForm(
    name: string, email: string, phone: string, age: int, bloodType: string,
    weight: int, address: string)

  datatype UnitForm = UnitForm(
    bloodType: string, donorId: string, collectionDate: Day, expiryDate: Day,
    storageLocation: string, status: string)

  datatype AppointmentForm = AppointmentForm(
    donorId: string, date: Day, time: int, kind: string, notes: string)

  datatype RecipientForm = RecipientForm(
    name: string, email: string, phone: string, age: int, bloodType: string,
    gender: string, location: string, priority: string, medicalId: string,
    doctor: string, address: string, medicalNotes: string)

  datatype LocationForm = LocationForm(
    name: string, kind: string, address: string, city: string, state: string,
    zip: string, phone: string, capacity: Option<int>)

  /** `value || null`: the empty string becomes no value. */
  function OrNull(s: string): Option<string>
  {
    if s == "" then None else Some(s)
  }

  function NewDonor(f: DonorForm, id: string, now: Instant): Donor
  {
    Donor(id, f.name, f.email, f.phone, f.age, f.bloodType, f.weight, f.address,
          now, None, 0)
  }

  function NewUnit(f: UnitForm, id: string, now: Instant): BloodUnit
  {
    BloodUnit(id, f.bloodType, OrNull(f.donorId), f.collectionDate, f.expiryDate,
              if f.storageLocation == "" then DefaultStorage else f.storageLocation,
              f.status, now)
  }

  function NewAppointment(f: AppointmentForm, id: string, now: Instant): Appointment
  {
    Appointment(id, f.donorId, f.date, f.time, f.kind, f.notes, Scheduled, now, None)
  }

  function NewRecipient(f: RecipientForm, id: string, now: Instant): Recipient
  {
    Recipient(id, f.name, f.email, f.phone, f.age, f.bloodType, f.gender, f.location,
              f.priority, OrNull(f.medicalId), OrNull(f.doctor), f.address,
              f.medicalNotes, now, "active")
  }

  function NewLocation(f: LocationForm, id: string, now: Instant): Location
  {
    Location(id, f.name, f.kind, f.address, f.city, f.state, f.zip, f.phone,
             match f.capacity case Some(c) => c case None => 0,
             now, "active")
  }
}
