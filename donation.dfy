/** The in-memory data layer of the blood donation system: one object owning the
    donors, the blood-unit inventory, the appointments, the recipients and the
    locations, plus the month the calendar shows. Every operation of the forms
    and buttons is a method that validates, then updates the collections in place.

    What the browser supplies is passed in: the form contents, the answers of
    the confirmation and input dialogs, the present moment and a fresh id. */
module Donation {
  import opened Seqs
  import opened Records
  import opened Reports
  import opened Activity
  import Calendar
  import opened Csv
  import opened Export

  /** Why a form was refused. */
  datatype Rejection =
    | AgeOutOfRange            // a donor must be 18 to 65 years old
    | Underweight              // a donor must weigh at least 50 kg
    | DuplicateEmail           // the email is already registered in that collection
    | ExpiryNotAfterCollection // a unit must expire after it was collected
    | SlotAlreadyBooked        // a scheduled appointment has the same date and time
    | InvalidAge               // a recipient must be 0 to 120 years old
    | DuplicateLocation        // a location with this name exists in this city
    | LocationInUse(recipients: nat) // this many recipients are assigned to the location

  /** How an operation ended: it took effect, the user declined the dialog, the
      id is unknown, or a validation refused it. */
  datatype Outcome = Done | Declined | NotFound | Rejected(reason: Rejection)

  function Verdict(rejection: Option<Rejection>): Outcome
  {
    match rejection
    case Some(r) => Rejected(r)
    case None => Done
  }

  // ---- Validation of the registration forms ----

  /** The donor form's checks, in their order: age, then weight, then the email. */
  function DonorRejection(donors: seq<Donor>, f: DonorForm): (r: Option<Rejection>)
    ensures r == None <==>
      18 <= f.age <= 65 && f.weight >= 50 && forall d :: d in donors ==> d.email != f.email
    ensures r == Some(AgeOutOfRange) <==> f.age < 18 || f.age > 65
    ensures r == Some(Underweight) <==> 18 <= f.age <= 65 && f.weight < 50
    ensures r == Some(DuplicateEmail) <==>
      18 <= f.age <= 65 && f.weight >= 50 && exists d :: d in donors && d.email == f.email
  {
    if f.age < 18 || f.age > 65 then Some(AgeOutOfRange)
    else if f.weight < 50 then Some(Underweight)
    else
      match FindFirst(donors, (d: Donor) => d.email == f.email)
      case Some(k) => assert donors[k] in donors; Some(DuplicateEmail)
      case None => None
  }

  /** The recipient form's checks: the age, then the email. */
  function RecipientRejection(recipients: seq<Recipient>, f: RecipientForm): (r: Option<Rejection>)
    ensures r == None <==> 0 <= f.age <= 120 && forall x :: x in recipients ==> x.email != f.email
    ensures r == Some(InvalidAge) <==> f.age < 0 || f.age > 120
    ensures r == Some(DuplicateEmail) <==>
      0 <= f.age <= 120 && exists x :: x in recipients && x.email == f.email
  {
    if f.age < 0 || f.age > 120 then Some(InvalidAge)
    else
      match FindFirst(recipients, (x: Recipient) => x.email == f.email)
      case Some(k) => assert recipients[k] in recipients; Some(DuplicateEmail)
      case None => None
  }

  /** The blood-unit form's check: the expiry date must come strictly after the collection date. */
  function UnitRejection(f: UnitForm): (r: Option<Rejection>)
    ensures r == None <==> f.collectionDate < f.expiryDate
    ensures r == None || r == Some(ExpiryNotAfterCollection)
  {
    if f.expiryDate <= f.collectionDate then Some(ExpiryNotAfterCollection) else None
  }

  /** The location form's check: no location with the same name in the same city. */
  function LocationRejection(locations: seq<Location>, f: LocationForm): (r: Option<Rejection>)
    ensures r == None <==> forall l :: l in locations ==> l.name != f.name || l.city != f.city
    ensures r == None || r == Some(DuplicateLocation)
  {
    match FindFirst(locations, (l: Location) => l.name == f.name && l.city == f.city)
    case Some(k) => assert locations[k] in locations; Some(DuplicateLocation)
    case None => None
  }

  /** The conflict search of the appointment form: only a scheduled appointment
      blocks its slot; completed and cancelled ones never do. */
  function SlotTaken(appointments: seq<Appointment>, date: Day, time: int): (taken: bool)
    ensures taken <==>
      exists a :: a in appointments && a.status == Scheduled && a.date == date && a.time == time
  {
    match FindFirst(appointments, (a: Appointment) => a.date == date && a.time == time && a.status == Scheduled)
    case Some(k) => assert appointments[k] in appointments; true
    case None => false
  }

  // ---- The rules the collections keep ----

  /** Two donors clash when they share an id or an email. */
  predicate DonorClash(a: Donor, b: Donor) { a.id == b.id || a.email == b.email }

  predicate UnitClash(a: BloodUnit, b: BloodUnit) { a.id == b.id }

  predicate AppointmentClash(a: Appointment, b: Appointment) { a.id == b.id }

  predicate RecipientClash(a: Recipient, b: Recipient) { a.id == b.id || a.email == b.email }

  /** Two locations clash when they share an id, or a name within one city. */
  predicate LocationClash(a: Location, b: Location)
  {
    a.id == b.id || (a.name == b.name && a.city == b.city)
  }

  /** Two appointments double-book when both are scheduled for the same date and time. */
  predicate SlotClash(a: Appointment, b: Appointment)
  {
    a.status == Scheduled && b.status == Scheduled && a.date == b.date && a.time == b.time
  }

  /** The whole state of the data layer, as one value. */
  datatype Snapshot = Snapshot(
    donors: seq<Donor>, inventory: seq<BloodUnit>, appointments: seq<Appointment>,
    recipients: seq<Recipient>, locations: seq<Location>, month: int, year: int)

  /** The uniqueness the forms enforce: ids everywhere, emails of donors and of
      recipients, and (name, city) of locations. Data loaded from storage need
      not satisfy it, so each operation is shown to preserve it, not to establish it. */
  ghost predicate Consistent(s: Snapshot)
  {
    && Pairwise(s.donors, DonorClash)
    && Pairwise(s.inventory, UnitClash)
    && Pairwise(s.appointments, AppointmentClash)
    && Pairwise(s.recipients, RecipientClash)
    && Pairwise(s.locations, LocationClash)
  }

  /** No two scheduled appointments share a date and time. */
  ghost predicate NoDoubleBooking(appointments: seq<Appointment>)
  {
    Pairwise(appointments, SlotClash)
  }

  /** Every recipient's location names a stored location. */
  ghost predicate LocationsResolved(recipients: seq<Recipient>, locations: seq<Location>)
  {
    forall r :: r in recipients ==> exists l :: l in locations && l.id == r.location
  }

  // ---- Lookups and the updates of the lifecycle ----

  /** `find` by id, as an index. */
  function AppointmentIndex(appointments: seq<Appointment>, id: string): Option<nat>
  {
    FindFirst(appointments, (a: Appointment) => a.id == id)
  }

  function DonorIndex(donors: seq<Donor>, id: string): Option<nat>
  {
    FindFirst(donors, (d: Donor) => d.id == id)
  }

  function UnitIndex(inventory: seq<BloodUnit>, id: string): Option<nat>
  {
    FindFirst(inventory, (u: BloodUnit) => u.id == id)
  }

  /** A donor after a completed donation. */
  function Credit(d: Donor, now: Instant): Donor
  {
    d.(lastDonation := Some(now), totalDonations := d.totalDonations + 1)
  }

  /** The completion of appointment `id` credits a donor: the appointment
      exists, it is a donation, and its donor exists. */
  predicate Credits(appointments: seq<Appointment>, donors: seq<Donor>, id: string)
  {
    match AppointmentIndex(appointments, id)
    case None => false
    case Some(k) => appointments[k].kind == "donation" && DonorIndex(donors, appointments[k].donorId).Some?
  }

  /** `completeAppointment`: whatever its status, the first appointment with the
      id becomes completed at `now`; a donation also credits its donor. */
  function Completion(appointments: seq<Appointment>, donors: seq<Donor>, id: string, now: Instant)
    : (seq<Appointment>, seq<Donor>)
  {
    match AppointmentIndex(appointments, id)
    case None => (appointments, donors)
    case Some(k) =>
      var a := appointments[k].(status := Completed, completedDate := Some(now));
      var credited :=
        match DonorIndex(donors, a.donorId)
        case Some(j) => if a.kind == "donation" then donors[j := Credit(donors[j], now)] else donors
        case None => donors;
      (appointments[k := a], credited)
  }

  /** `cancelAppointment` after the confirmation: whatever its status, the first
      appointment with the id becomes cancelled. */
  function Cancellation(appointments: seq<Appointment>, id: string): seq<Appointment>
  {
    match AppointmentIndex(appointments, id)
    case None => appointments
    case Some(k) => appointments[k := appointments[k].(status := Cancelled)]
  }

  /** `editAppointment`: with both dialog answers given, the first appointment
      with the id moves to the new date and time; no slot is checked. */
  function Rescheduling(appointments: seq<Appointment>, id: string, date: Option<Day>, time: Option<int>)
    : seq<Appointment>
  {
    match AppointmentIndex(appointments, id)
    case None => appointments
    case Some(k) =>
      if date.Some? && time.Some? then
        appointments[k := appointments[k].(date := date.value, time := time.value)]
      else appointments
  }

  /** The total of the donors' donation counters. */
  function DonationsTotal(donors: seq<Donor>): int
  {
    if donors == [] then 0 else donors[0].totalDonations + DonationsTotal(donors[1..])
  }

  lemma {:induction false} DonationsTotalUpdate(donors: seq<Donor>, j: nat, d: Donor)
    requires j < |donors|
    ensures DonationsTotal(donors[j := d]) ==
      DonationsTotal(donors) - donors[j].totalDonations + d.totalDonations
  {
    if j == 0 {
      assert donors[j := d][1..] == donors[1..];
    } else {
      DonationsTotalUpdate(donors[1..], j - 1, d);
      assert donors[j := d][1..] == donors[1..][j - 1 := d];
    }
  }

  /** Completing an appointment raises the donors' donation total by one exactly
      when it credits a donor, and by nothing otherwise; the only donor that can
      change is the first one with the appointment's donor id, and it changes by
      one donation dated `now`. The appointment itself ends up completed at `now`. */
  lemma CompletionCredits(appointments: seq<Appointment>, donors: seq<Donor>, id: string, now: Instant)
    ensures var (appts, ds) := Completion(appointments, donors, id, now);
      && |appts| == |appointments| && |ds| == |donors|
      && DonationsTotal(ds) == DonationsTotal(donors) + (if Credits(appointments, donors, id) then 1 else 0)
      && (forall i :: 0 <= i < |ds| && ds[i] != donors[i] ==>
            && ds[i] == Credit(donors[i], now)
            && Credits(appointments, donors, id)
            && DonorIndex(donors, appointments[AppointmentIndex(appointments, id).value].donorId) == Some(i))
      && (forall i :: 0 <= i < |appts| && Some(i) != AppointmentIndex(appointments, id) ==>
            appts[i] == appointments[i])
      && (AppointmentIndex(appointments, id).Some? ==>
            var k := AppointmentIndex(appointments, id).value;
            appts[k] == appointments[k].(status := Completed, completedDate := Some(now)))
  {
    match AppointmentIndex(appointments, id)
    case None =>
    case Some(k) =>
      var a := appointments[k];
      match DonorIndex(donors, a.donorId)
      case None =>
      case Some(j) =>
        if a.kind == "donation" {
          DonationsTotalUpdate(donors, j, Credit(donors[j], now));
        }
  }

  /** Completion keeps ids and emails unique, and never creates a double booking. */
  lemma CompletionKeepsRules(appointments: seq<Appointment>, donors: seq<Donor>, id: string, now: Instant)
    ensures var (appts, ds) := Completion(appointments, donors, id, now);
      && (Pairwise(appointments, AppointmentClash) ==> Pairwise(appts, AppointmentClash))
      && (NoDoubleBooking(appointments) ==> NoDoubleBooking(appts))
      && (Pairwise(donors, DonorClash) ==> Pairwise(ds, DonorClash))
  {
    match AppointmentIndex(appointments, id)
    case None =>
    case Some(k) =>
      var a := appointments[k].(status := Completed, completedDate := Some(now));
      if Pairwise(appointments, AppointmentClash) {
        PairwiseUpdate(appointments, k, a, AppointmentClash);
      }
      if NoDoubleBooking(appointments) {
        PairwiseUpdate(appointments, k, a, SlotClash);
      }
      match DonorIndex(donors, a.donorId)
      case None =>
      case Some(j) =>
        if a.kind == "donation" && Pairwise(donors, DonorClash) {
          PairwiseUpdate(donors, j, Credit(donors[j], now), DonorClash);
        }
  }

  /** Cancelling keeps ids unique, never creates a double booking, and frees the
      slot of the cancelled appointment for a new booking. */
  lemma CancellationFreesSlot(appointments: seq<Appointment>, id: string)
    ensures Pairwise(appointments, AppointmentClash) ==>
      Pairwise(Cancellation(appointments, id), AppointmentClash)
    ensures NoDoubleBooking(appointments) ==> NoDoubleBooking(Cancellation(appointments, id))
    ensures NoDoubleBooking(appointments) && AppointmentIndex(appointments, id).Some? ==>
      var a := appointments[AppointmentIndex(appointments, id).value];
      a.status == Scheduled ==> !SlotTaken(Cancellation(appointments, id), a.date, a.time)
  {
    match AppointmentIndex(appointments, id)
    case None =>
    case Some(k) =>
      var a := appointments[k];
      var c := appointments[k := a.(status := Cancelled)];
      if Pairwise(appointments, AppointmentClash) {
        PairwiseUpdate(appointments, k, a.(status := Cancelled), AppointmentClash);
      }
      if NoDoubleBooking(appointments) {
        PairwiseUpdate(appointments, k, a.(status := Cancelled), SlotClash);
      }
      if NoDoubleBooking(appointments) && a.status == Scheduled {
        forall b | b in c ensures !(b.status == Scheduled && b.date == a.date && b.time == a.time) {
          var i :| 0 <= i < |c| && c[i] == b;
          if i != k {
            assert c[i] == appointments[i];
            assert !SlotClash(appointments[i], appointments[k]);
          }
        }
      }
  }

  /** Cancelling never takes a slot, and frees one only by cancelling a scheduled
      appointment: cancelling one that is completed or already cancelled leaves
      every slot as taken or as free as it was. */
  lemma CancellationFreesOnlyScheduled(appointments: seq<Appointment>, id: string, date: Day, time: int)
    ensures SlotTaken(Cancellation(appointments, id), date, time) ==> SlotTaken(appointments, date, time)
    ensures (AppointmentIndex(appointments, id).None?
             || appointments[AppointmentIndex(appointments, id).value].status != Scheduled) ==>
      SlotTaken(Cancellation(appointments, id), date, time) == SlotTaken(appointments, date, time)
  {
    match AppointmentIndex(appointments, id)
    case None =>
    case Some(k) =>
      var a := appointments[k];
      var c := appointments[k := a.(status := Cancelled)];
      if SlotTaken(c, date, time) {
        var b :| b in c && b.status == Scheduled && b.date == date && b.time == time;
        var i :| 0 <= i < |c| && c[i] == b;
        assert i != k && b == appointments[i];
      }
      if a.status != Scheduled && SlotTaken(appointments, date, time) {
        var b :| b in appointments && b.status == Scheduled && b.date == date && b.time == time;
        var i :| 0 <= i < |appointments| && appointments[i] == b;
        assert i != k && c[i] == b;
      }
  }

  /** Rescheduling keeps ids unique, and keeps the schedule free of double
      bookings when no other scheduled appointment holds the new slot. */
  lemma ReschedulingIntoFreeSlot(appointments: seq<Appointment>, id: string, date: Day, time: int)
    requires NoDoubleBooking(appointments)
    requires forall i :: 0 <= i < |appointments| && Some(i) != AppointmentIndex(appointments, id) ==>
      !(appointments[i].status == Scheduled && appointments[i].date == date && appointments[i].time == time)
    ensures NoDoubleBooking(Rescheduling(appointments, id, Some(date), Some(time)))
    ensures Pairwise(appointments, AppointmentClash) ==>
      Pairwise(Rescheduling(appointments, id, Some(date), Some(time)), AppointmentClash)
  {
    match AppointmentIndex(appointments, id)
    case None =>
    case Some(k) =>
      var moved := appointments[k].(date := date, time := time);
      PairwiseUpdate(appointments, k, moved, SlotClash);
      if Pairwise(appointments, AppointmentClash) {
        PairwiseUpdate(appointments, k, moved, AppointmentClash);
      }
  }

  /** Rescheduling changes only a date and a time, so the ids stay unique. */
  lemma ReschedulingKeepsIds(appointments: seq<Appointment>, id: string, date: Option<Day>, time: Option<int>)
    ensures Pairwise(appointments, AppointmentClash) ==>
      Pairwise(Rescheduling(appointments, id, date, time), AppointmentClash)
  {
    match AppointmentIndex(appointments, id)
    case None =>
    case Some(k) =>
      if date.Some? && time.Some? && Pairwise(appointments, AppointmentClash) {
        PairwiseUpdate(appointments, k, appointments[k].(date := date.value, time := time.value), AppointmentClash);
      }
  }

  /** Rescheduling does not re-check the slot: it can move a scheduled appointment
      onto another one's date and time. */
  lemma ReschedulingCanDoubleBook()
    ensures exists appointments: seq<Appointment>, id: string, date: Day, time: int ::
      NoDoubleBooking(appointments)
      && !NoDoubleBooking(Rescheduling(appointments, id, Some(date), Some(time)))
  {
    var nine := Appointment("APT1", "D1", 0, 540, "donation", "", Scheduled, 0, None);
    var ten := Appointment("APT2", "D2", 0, 600, "donation", "", Scheduled, 0, None);
    var appointments := [nine, ten];
    assert NoDoubleBooking(appointments) by {
      forall i, j | 0 <= i < 2 && 0 <= j < 2 && i != j
        ensures !SlotClash(appointments[i], appointments[j])
      {
      }
    }
    assert AppointmentIndex(appointments, "APT2") == Some(1) by {
      assert "APT1"[3] != "APT2"[3];
      assert appointments[0].id != "APT2" && appointments[1].id == "APT2";
    }
    var moved := Rescheduling(appointments, "APT2", Some(0), Some(540));
    assert moved[0] == nine && moved[1] == ten.(time := 540);
    assert SlotClash(moved[0], moved[1]);
  }

  /** `updateBloodUnitStatus`: an unknown id opens no dialog; a cancelled dialog
      or an answer outside the four statuses changes nothing. */
  function StatusUpdate(inventory: seq<BloodUnit>, id: string, answer: Option<string>)
    : (Outcome, seq<BloodUnit>)
  {
    match UnitIndex(inventory, id)
    case None => (NotFound, inventory)
    case Some(k) =>
      if answer.Some? && answer.value in UnitStatuses then
        (Done, inventory[k := inventory[k].(status := answer.value)])
      else (Declined, inventory)
  }

  /** A status update keeps the unit ids unique. */
  lemma StatusUpdateKeepsIds(inventory: seq<BloodUnit>, id: string, answer: Option<string>)
    ensures Pairwise(inventory, UnitClash) ==> Pairwise(StatusUpdate(inventory, id, answer).1, UnitClash)
  {
    match UnitIndex(inventory, id)
    case None =>
    case Some(k) =>
      if answer.Some? && answer.value in UnitStatuses && Pairwise(inventory, UnitClash) {
        PairwiseUpdate(inventory, k, inventory[k].(status := answer.value), UnitClash);
      }
  }

  /** A status update sets the status of the first unit with the id and touches
      no other unit, so it moves at most one unit in or out of the stock:
      setting a status other than `available` never raises a type's stock,
      setting `available` never lowers it, and other types' stock is untouched.
      The unit ids stay unique. */
  lemma StatusUpdateStock(inventory: seq<BloodUnit>, id: string, answer: Option<string>,
                          bloodType: string, now: Instant)
    ensures var (outcome, inv) := StatusUpdate(inventory, id, answer);
      && |inv| == |inventory|
      && (outcome == Done <==> UnitIndex(inventory, id).Some? && answer.Some? && answer.value in UnitStatuses)
      && (outcome == NotFound <==> UnitIndex(inventory, id).None?)
      && (outcome != Done ==> inv == inventory)
      && (outcome == Done ==>
            var k := UnitIndex(inventory, id).value;
            && inv[k] == inventory[k].(status := answer.value)
            && forall i :: 0 <= i < |inv| && i != k ==> inv[i] == inventory[i])
      && (outcome == Done && answer.value != "available" ==>
            AvailableCount(inv, bloodType, now) <= AvailableCount(inventory, bloodType, now))
      && (outcome == Done && answer.value == "available" ==>
            AvailableCount(inv, bloodType, now) >= AvailableCount(inventory, bloodType, now))
      && (outcome == Done && inventory[UnitIndex(inventory, id).value].bloodType != bloodType ==>
            AvailableCount(inv, bloodType, now) == AvailableCount(inventory, bloodType, now))
      && (Pairwise(inventory, UnitClash) ==> Pairwise(inv, UnitClash))
  {
    StatusUpdateKeepsIds(inventory, id, answer);
    match UnitIndex(inventory, id)
    case None =>
    case Some(k) =>
      if answer.Some? && answer.value in UnitStatuses {
        var u := inventory[k].(status := answer.value);
        AvailableCountUpdate(inventory, k, u, bloodType, now);
      }
  }

  // ---- Deletion ----

  /** `filter(d => d.id !== id)`: exactly the donors with that id go, the rest keep their order. */
  function WithoutDonor(donors: seq<Donor>, id: string): (r: seq<Donor>)
    ensures Subseq(r, donors)
    ensures forall d :: d in r <==> d in donors && d.id != id
    ensures forall d :: multiset(r)[d] == if d.id != id then multiset(donors)[d] else 0
    ensures Pairwise(donors, DonorClash) ==> Pairwise(r, DonorClash)
  {
    var keep := (d: Donor) => d.id != id;
    FilterCount(donors, keep);
    FilterIsSubseq(donors, keep);
    PairwiseFilter(donors, keep, DonorClash);
    Filter(donors, keep)
  }

  function WithoutUnit(inventory: seq<BloodUnit>, id: string): (r: seq<BloodUnit>)
    ensures Subseq(r, inventory)
    ensures forall u :: u in r <==> u in inventory && u.id != id
    ensures forall u :: multiset(r)[u] == if u.id != id then multiset(inventory)[u] else 0
    ensures Pairwise(inventory, UnitClash) ==> Pairwise(r, UnitClash)
  {
    var keep := (u: BloodUnit) => u.id != id;
    FilterCount(inventory, keep);
    FilterIsSubseq(inventory, keep);
    PairwiseFilter(inventory, keep, UnitClash);
    Filter(inventory, keep)
  }

  function WithoutRecipient(recipients: seq<Recipient>, id: string): (r: seq<Recipient>)
    ensures Subseq(r, recipients)
    ensures forall x :: x in r <==> x in recipients && x.id != id
    ensures forall x :: multiset(r)[x] == if x.id != id then multiset(recipients)[x] else 0
    ensures Pairwise(recipients, RecipientClash) ==> Pairwise(r, RecipientClash)
  {
    var keep := (x: Recipient) => x.id != id;
    FilterCount(recipients, keep);
    FilterIsSubseq(recipients, keep);
    PairwiseFilter(recipients, keep, RecipientClash);
    Filter(recipients, keep)
  }

  function WithoutLocation(locations: seq<Location>, id: string): (r: seq<Location>)
    ensures Subseq(r, locations)
    ensures forall l :: l in r <==> l in locations && l.id != id
    ensures forall l :: multiset(r)[l] == if l.id != id then multiset(locations)[l] else 0
    ensures Pairwise(locations, LocationClash) ==> Pairwise(r, LocationClash)
  {
    var keep := (l: Location) => l.id != id;
    FilterCount(locations, keep);
    FilterIsSubseq(locations, keep);
    PairwiseFilter(locations, keep, LocationClash);
    Filter(locations, keep)
  }

  /** The number of recipients assigned to location `id`: the guard of `deleteLocation`. */
  function LocationUsers(recipients: seq<Recipient>, id: string): (n: nat)
    ensures n <= |recipients|
    ensures n == 0 <==> forall r :: r in recipients ==> r.location != id
  {
    var users := Filter(recipients, (r: Recipient) => r.location == id);
    assert users != [] ==> users[0] in users;
    |users|
  }

  /** A scheduled appointment with a new id in a free slot keeps ids unique and
      creates no double booking. */
  lemma ScheduleAppend(appointments: seq<Appointment>, a: Appointment)
    requires a.status == Scheduled && !SlotTaken(appointments, a.date, a.time)
    requires forall x :: x in appointments ==> x.id != a.id
    ensures Pairwise(appointments, AppointmentClash) ==> Pairwise(appointments + [a], AppointmentClash)
    ensures NoDoubleBooking(appointments) ==> NoDoubleBooking(appointments + [a])
  {
    forall i | 0 <= i < |appointments|
      ensures !AppointmentClash(a, appointments[i]) && !AppointmentClash(appointments[i], a)
      ensures !SlotClash(a, appointments[i]) && !SlotClash(appointments[i], a)
    {
      assert appointments[i] in appointments;
    }
    if Pairwise(appointments, AppointmentClash) {
      PairwiseAppend(appointments, a, AppointmentClash);
    }
    if NoDoubleBooking(appointments) {
      PairwiseAppend(appointments, a, SlotClash);
    }
  }

  /** A recipient whose id and email are new keeps the recipients unique. */
  lemma UniqueAppend(recipients: seq<Recipient>, r: Recipient)
    requires Pairwise(recipients, RecipientClash)
    requires forall x :: x in recipients ==> x.id != r.id && x.email != r.email
    ensures Pairwise(recipients + [r], RecipientClash)
  {
    forall i | 0 <= i < |recipients|
      ensures !RecipientClash(r, recipients[i]) && !RecipientClash(recipients[i], r)
    {
      assert recipients[i] in recipients;
    }
    PairwiseAppend(recipients, r, RecipientClash);
  }

  /** A recipient whose location exists keeps every location resolved. */
  lemma ResolvedAppend(recipients: seq<Recipient>, locations: seq<Location>, r: Recipient)
    requires LocationsResolved(recipients, locations)
    requires exists l :: l in locations && l.id == r.location
    ensures LocationsResolved(recipients + [r], locations)
  {
    forall x | x in recipients + [r] ensures exists l :: l in locations && l.id == x.location {
      if x != r {
        assert x in recipients;
      }
    }
  }

  /** The guard protects the recipients' references: when every recipient's
      location exists, it still exists after a location nobody uses is deleted. */
  lemma LocationDeleteKeepsReferences(recipients: seq<Recipient>, locations: seq<Location>, id: string)
    requires LocationsResolved(recipients, locations)
    requires LocationUsers(recipients, id) == 0
    ensures LocationsResolved(recipients, WithoutLocation(locations, id))
  {
    var rest := WithoutLocation(locations, id);
    forall r | r in recipients ensures exists l :: l in rest && l.id == r.location {
      var l :| l in locations && l.id == r.location;
      assert l in rest;
    }
  }

  // ---- The re-sorting done by rendering ----

  /** What `renderAppointments` leaves behind: the stored appointments sorted in
      place, soonest first, and nothing else changed. */
  function Listed(s: Snapshot): (r: Snapshot)
    ensures multiset(r.appointments) == multiset(s.appointments)
    ensures SortedBy(r.appointments, AppointmentInstant)
    ensures r.(appointments := s.appointments) == s
  {
    s.(appointments := SortBy(s.appointments, AppointmentInstant))
  }

  /** What `updateDashboard` leaves behind (through `updateRecentActivity`): the
      stored donors and recipients sorted in place, newest first, and nothing
      else changed. */
  function Refreshed(s: Snapshot): (r: Snapshot)
    ensures multiset(r.donors) == multiset(s.donors)
    ensures multiset(r.recipients) == multiset(s.recipients)
    ensures forall i, j :: 0 <= i < j < |r.donors| ==> r.donors[i].registrationDate >= r.donors[j].registrationDate
    ensures forall i, j :: 0 <= i < j < |r.recipients| ==>
      r.recipients[i].registrationDate >= r.recipients[j].registrationDate
    ensures r.(donors := s.donors, recipients := s.recipients) == s
  {
    s.(donors := NewestDonorsFirst(s.donors), recipients := NewestRecipientsFirst(s.recipients))
  }

  /** Re-sorting keeps every rule: uniqueness, no double booking and resolved
      locations, since it only permutes the lists. */
  lemma ResortingKeepsRules(s: Snapshot)
    ensures Consistent(s) ==> Consistent(Listed(s)) && Consistent(Refreshed(s))
    ensures NoDoubleBooking(s.appointments) ==> NoDoubleBooking(Listed(s).appointments)
    ensures LocationsResolved(s.recipients, s.locations) ==>
      LocationsResolved(Refreshed(s).recipients, Refreshed(s).locations)
  {
    var l, r := Listed(s), Refreshed(s);
    if Consistent(s) {
      PairwisePermutation(s.appointments, l.appointments, AppointmentClash);
      PairwisePermutation(s.donors, r.donors, DonorClash);
      PairwisePermutation(s.recipients, r.recipients, RecipientClash);
    }
    if NoDoubleBooking(s.appointments) {
      PairwisePermutation(s.appointments, l.appointments, SlotClash);
    }
    if LocationsResolved(s.recipients, s.locations) {
      forall x | x in r.recipients ensures exists loc :: loc in r.locations && loc.id == x.location {
        assert x in multiset(r.recipients);
        assert x in s.recipients;
      }
    }
  }

  /** The dashboard's figures, its activity feed and its alerts. */
  datatype Dashboard = Dashboard(
    totalDonors: nat, totalUnits: nat, totalRecipients: nat, totalLocations: nat,
    upcoming: nat, lowStock: nat, activity: seq<Entry>, alerts: seq<Alert>)

  class BloodDonationSystem {
    var donors: seq<Donor>
    var inventory: seq<BloodUnit>
    var appointments: seq<Appointment>
    var recipients: seq<Recipient>
    var locations: seq<Location>
    /** The month the calendar shows, 0 (January) to 11 (December), and its year. */
    var currentMonth: int
    var currentYear: int

    function State(): Snapshot
      reads this
    {
      Snapshot(donors, inventory, appointments, recipients, locations, currentMonth, currentYear)
    }

    ghost predicate Valid()
      reads this
    {
      0 <= currentMonth < 12
    }

    /** The collections as loaded from storage (empty when nothing was stored) and
        the present month; `init` then refreshes the dashboard and lists the
        appointments, which re-sorts donors, recipients and appointments. */
    constructor (storedDonors: seq<Donor>, storedInventory: seq<BloodUnit>,
                 storedAppointments: seq<Appointment>, storedRecipients: seq<Recipient>,
                 storedLocations: seq<Location>, year: int, month: int, now: Instant)
      requires 0 <= month < 12
      ensures State() == Listed(Refreshed(Snapshot(storedDonors, storedInventory, storedAppointments,
                                                   storedRecipients, storedLocations, month, year)))
      ensures Valid()
    {
      donors := storedDonors;
      inventory := storedInventory;
      appointments := storedAppointments;
      recipients := storedRecipients;
      locations := storedLocations;
      currentMonth := month;
      currentYear := year;
      new;
      var dashboard := UpdateDashboard(now);
      RenderAppointments();
    }

    /** `addDonor`: a refused form leaves everything as it was; an accepted one
        appends exactly the new donor, with no donation yet, and the dashboard
        refresh then re-sorts donors and recipients. */
    method AddDonor(f: DonorForm, id: string, now: Instant) returns (outcome: Outcome)
      requires forall d :: d in donors ==> d.id != id
      modifies this
      ensures outcome == Verdict(DonorRejection(old(donors), f))
      ensures State() == if outcome == Done
        then Refreshed(old(State()).(donors := old(donors) + [NewDonor(f, id, now)]))
        else old(State())
      ensures outcome == Done ==> multiset(donors) == multiset(old(donors)) + multiset{NewDonor(f, id, now)}
      ensures old(Consistent(State())) ==> Consistent(State())
    {
      var rejection := DonorRejection(donors, f);
      if rejection.Some? {
        return Rejected(rejection.value);
      }
      var donor := NewDonor(f, id, now);
      if Pairwise(donors, DonorClash) {
        forall i | 0 <= i < |donors| ensures !DonorClash(donor, donors[i]) && !DonorClash(donors[i], donor) {
          assert donors[i] in donors;
        }
        PairwiseAppend(donors, donor, DonorClash);
      }
      ghost var added := State().(donors := donors + [donor]);
      donors := donors + [donor];
      assert State() == added;
      var dashboard := UpdateDashboard(now);
      return Done;
    }

    /** `addBloodUnit`: refused unless the unit expires after its collection; an
        accepted unit is appended, stored in the default place when none is
        given, and the dashboard is refreshed. */
    method AddBloodUnit(f: UnitForm, id: string, now: Instant) returns (outcome: Outcome)
      requires forall u :: u in inventory ==> u.id != id
      modifies this
      ensures outcome == Verdict(UnitRejection(f))
      ensures State() == if outcome == Done
        then Refreshed(old(State()).(inventory := old(inventory) + [NewUnit(f, id, now)]))
        else old(State())
      ensures old(Consistent(State())) ==> Consistent(State())
    {
      var rejection := UnitRejection(f);
      if rejection.Some? {
        return Rejected(rejection.value);
      }
      var unit := NewUnit(f, id, now);
      if Pairwise(inventory, UnitClash) {
        forall i | 0 <= i < |inventory| ensures !UnitClash(unit, inventory[i]) && !UnitClash(inventory[i], unit) {
          assert inventory[i] in inventory;
        }
        PairwiseAppend(inventory, unit, UnitClash);
      }
      ghost var added := State().(inventory := inventory + [unit]);
      inventory := inventory + [unit];
      assert State() == added;
      var dashboard := UpdateDashboard(now);
      return Done;
    }

    /** `addAppointment`: refused exactly when a scheduled appointment holds the
        slot; otherwise a scheduled appointment is appended, the list is
        re-sorted soonest first and the dashboard is refreshed. Booking never
        creates a double booking. */
    method AddAppointment(f: AppointmentForm, id: string, now: Instant) returns (outcome: Outcome)
      requires forall a :: a in appointments ==> a.id != id
      modifies this
      ensures outcome == if SlotTaken(old(appointments), f.date, f.time) then Rejected(SlotAlreadyBooked) else Done
      ensures State() == if outcome == Done
        then Refreshed(Listed(old(State()).(appointments := old(appointments) + [NewAppointment(f, id, now)])))
        else old(State())
      ensures outcome == Done ==>
        multiset(appointments) == multiset(old(appointments)) + multiset{NewAppointment(f, id, now)}
      ensures old(Consistent(State())) ==> Consistent(State())
      ensures old(NoDoubleBooking(appointments)) ==> NoDoubleBooking(appointments)
    {
      if SlotTaken(appointments, f.date, f.time) {
        return Rejected(SlotAlreadyBooked);
      }
      var appointment := NewAppointment(f, id, now);
      ScheduleAppend(appointments, appointment);
      ghost var added := State().(appointments := appointments + [appointment]);
      appointments := appointments + [appointment];
      assert State() == added;
      RenderAppointments();
      assert State() == Listed(added);
      var dashboard := UpdateDashboard(now);
      return Done;
    }

    /** `addRecipient`: refused for an age outside 0 to 120 or a registered email;
        an accepted recipient is appended as active and the dashboard is
        refreshed. A recipient whose location exists keeps every location resolved. */
    method AddRecipient(f: RecipientForm, id: string, now: Instant) returns (outcome: Outcome)
      requires forall r :: r in recipients ==> r.id != id
      modifies this
      ensures outcome == Verdict(RecipientRejection(old(recipients), f))
      ensures State() == if outcome == Done
        then Refreshed(old(State()).(recipients := old(recipients) + [NewRecipient(f, id, now)]))
        else old(State())
      ensures outcome == Done ==>
        multiset(recipients) == multiset(old(recipients)) + multiset{NewRecipient(f, id, now)}
      ensures old(Consistent(State())) ==> Consistent(State())
      ensures old(LocationsResolved(recipients, locations)) && (exists l :: l in locations && l.id == f.location) ==>
        LocationsResolved(recipients, locations)
    {
      var rejection := RecipientRejection(recipients, f);
      if rejection.Some? {
        return Rejected(rejection.value);
      }
      var recipient := NewRecipient(f, id, now);
      if Pairwise(recipients, RecipientClash) {
        UniqueAppend(recipients, recipient);
      }
      if LocationsResolved(recipients, locations) && exists l :: l in locations && l.id == f.location {
        ResolvedAppend(recipients, locations, recipient);
      }
      ghost var added := State().(recipients := recipients + [recipient]);
      recipients := recipients + [recipient];
      assert State() == added;
      var dashboard := UpdateDashboard(now);
      return Done;
    }

    /** `addLocation`: refused when the city already has a location of that name;
        an accepted location is appended as active and the dashboard is refreshed. */
    method AddLocation(f: LocationForm, id: string, now: Instant) returns (outcome: Outcome)
      requires forall l :: l in locations ==> l.id != id
      modifies this
      ensures outcome == Verdict(LocationRejection(old(locations), f))
      ensures State() == if outcome == Done
        then Refreshed(old(State()).(locations := old(locations) + [NewLocation(f, id, now)]))
        else old(State())
      ensures old(Consistent(State())) ==> Consistent(State())
      ensures old(LocationsResolved(recipients, locations)) ==> LocationsResolved(recipients, locations)
    {
      var rejection := LocationRejection(locations, f);
      if rejection.Some? {
        return Rejected(rejection.value);
      }
      var location := NewLocation(f, id, now);
      if Pairwise(locations, LocationClash) {
        forall i | 0 <= i < |locations|
          ensures !LocationClash(location, locations[i]) && !LocationClash(locations[i], location)
        {
          assert locations[i] in locations;
        }
        PairwiseAppend(locations, location, LocationClash);
      }
      if LocationsResolved(recipients, locations) {
        forall r | r in recipients ensures exists l :: l in locations + [location] && l.id == r.location {
          var l :| l in locations && l.id == r.location;
          assert l in locations + [location];
        }
      }
      ghost var added := State().(locations := locations + [location]);
      locations := locations + [location];
      assert State() == added;
      var dashboard := UpdateDashboard(now);
      return Done;
    }

    /** `updateBloodUnitStatus`; `answer` is what the input dialog returned (`None`
        when cancelled). A change refreshes the dashboard. */
    method UpdateBloodUnitStatus(id: string, answer: Option<string>, now: Instant) returns (outcome: Outcome)
      modifies this
      ensures (outcome, inventory) == StatusUpdate(old(inventory), id, answer)
      ensures State() == if outcome == Done then Refreshed(old(State()).(inventory := inventory)) else old(State())
      ensures old(Consistent(State())) ==> Consistent(State())
    {
      var k := UnitIndex(inventory, id);
      if k.None? {
        return NotFound;
      }
      if answer.Some? && answer.value in UnitStatuses {
        StatusUpdateKeepsIds(inventory, id, answer);
        inventory := inventory[k.value := inventory[k.value].(status := answer.value)];
        var dashboard := UpdateDashboard(now);
        return Done;
      }
      return Declined;
    }

    /** `completeAppointment`; `now` stamps the completion and the donor's last
        donation. The appointments are then listed and the dashboard refreshed. */
    method CompleteAppointment(id: string, now: Instant) returns (outcome: Outcome)
      modifies this
      ensures outcome == if AppointmentIndex(old(appointments), id).Some? then Done else NotFound
      ensures var (appts, ds) := Completion(old(appointments), old(donors), id, now);
        State() == if outcome == Done
          then Refreshed(Listed(old(State()).(appointments := appts, donors := ds)))
          else old(State())
      ensures old(Consistent(State())) ==> Consistent(State())
      ensures old(NoDoubleBooking(appointments)) ==> NoDoubleBooking(appointments)
    {
      ghost var before := State();
      var appts, ds := appointments, donors;
      var k := AppointmentIndex(appts, id);
      if k.None? {
        return NotFound;
      }
      var appointment := appts[k.value].(status := Completed, completedDate := Some(now));
      appts := appts[k.value := appointment];
      var j := DonorIndex(ds, appointment.donorId);
      if j.Some? && appointment.kind == "donation" {
        var donor := ds[j.value];
        ds := ds[j.value := donor.(lastDonation := appointment.completedDate,
                                   totalDonations := donor.totalDonations + 1)];
        assert ds[j.value] == Credit(donor, now);
      }
      assert (appts, ds) == Completion(old(appointments), old(donors), id, now);
      CompletionKeepsRules(before.appointments, before.donors, id, now);
      ghost var completed := before.(appointments := appts, donors := ds);
      appointments, donors := appts, ds;
      assert State() == completed;
      RenderAppointments();
      assert State() == Listed(completed);
      var dashboard := UpdateDashboard(now);
      return Done;
    }

    /** `editAppointment`; `newDate` and `newTime` are the two dialog answers
        (`None` when cancelled or left empty). A change re-lists the appointments;
        the dashboard is not refreshed. */
    method EditAppointment(id: string, newDate: Option<Day>, newTime: Option<int>) returns (outcome: Outcome)
      modifies this
      ensures outcome ==
        if AppointmentIndex(old(appointments), id).None? then NotFound
        else if newDate.Some? && newTime.Some? then Done
        else Declined
      ensures State() == if outcome == Done
        then Listed(old(State()).(appointments := Rescheduling(old(appointments), id, newDate, newTime)))
        else old(State())
      ensures old(Consistent(State())) ==> Consistent(State())
    {
      var k := AppointmentIndex(appointments, id);
      if k.None? {
        return NotFound;
      }
      if newDate.Some? && newTime.Some? {
        ReschedulingKeepsIds(appointments, id, newDate, newTime);
        appointments := appointments[k.value := appointments[k.value].(date := newDate.value, time := newTime.value)];
        RenderAppointments();
        return Done;
      }
      return Declined;
    }

    /** `cancelAppointment`; `confirmed` is the answer of the confirmation dialog.
        A cancellation re-lists the appointments and refreshes the dashboard. */
    method CancelAppointment(id: string, confirmed: bool, now: Instant) returns (outcome: Outcome)
      modifies this
      ensures outcome ==
        if !confirmed then Declined
        else if AppointmentIndex(old(appointments), id).None? then NotFound
        else Done
      ensures State() == if outcome == Done
        then Refreshed(Listed(old(State()).(appointments := Cancellation(old(appointments), id))))
        else old(State())
      ensures old(Consistent(State())) ==> Consistent(State())
      ensures old(NoDoubleBooking(appointments)) ==> NoDoubleBooking(appointments)
    {
      if !confirmed {
        return Declined;
      }
      CancellationFreesSlot(appointments, id);
      var k := AppointmentIndex(appointments, id);
      if k.None? {
        return NotFound;
      }
      appointments := appointments[k.value := appointments[k.value].(status := Cancelled)];
      RenderAppointments();
      var dashboard := UpdateDashboard(now);
      return Done;
    }

    /** `deleteDonor`. The donor's appointments and units stay as they are. */
    method DeleteDonor(id: string, confirmed: bool, now: Instant)
      modifies this
      ensures State() == if confirmed
        then Refreshed(old(State()).(donors := WithoutDonor(old(donors), id)))
        else old(State())
      ensures old(Consistent(State())) ==> Consistent(State())
    {
      if confirmed {
        donors := WithoutDonor(donors, id);
        var dashboard := UpdateDashboard(now);
      }
    }

    /** `deleteBloodUnit`. */
    method DeleteBloodUnit(id: string, confirmed: bool, now: Instant)
      modifies this
      ensures State() == if confirmed
        then Refreshed(old(State()).(inventory := WithoutUnit(old(inventory), id)))
        else old(State())
      ensures old(Consistent(State())) ==> Consistent(State())
    {
      if confirmed {
        inventory := WithoutUnit(inventory, id);
        var dashboard := UpdateDashboard(now);
      }
    }

    /** `deleteRecipient`. */
    method DeleteRecipient(id: string, confirmed: bool, now: Instant)
      modifies this
      ensures State() == if confirmed
        then Refreshed(old(State()).(recipients := WithoutRecipient(old(recipients), id)))
        else old(State())
      ensures old(Consistent(State())) ==> Consistent(State())
    {
      if confirmed {
        recipients := WithoutRecipient(recipients, id);
        var dashboard := UpdateDashboard(now);
      }
    }

    /** `deleteLocation`: refused while any recipient is assigned to it. */
    method DeleteLocation(id: string, confirmed: bool, now: Instant) returns (outcome: Outcome)
      modifies this
      ensures outcome ==
        if !confirmed then Declined
        else if LocationUsers(old(recipients), id) > 0 then Rejected(LocationInUse(LocationUsers(old(recipients), id)))
        else Done
      ensures State() == if outcome == Done
        then Refreshed(old(State()).(locations := WithoutLocation(old(locations), id)))
        else old(State())
      ensures old(Consistent(State())) ==> Consistent(State())
      ensures old(LocationsResolved(recipients, locations)) ==> LocationsResolved(recipients, locations)
    {
      if !confirmed {
        return Declined;
      }
      var users := LocationUsers(recipients, id);
      if users > 0 {
        return Rejected(LocationInUse(users));
      }
      if LocationsResolved(recipients, locations) {
        LocationDeleteKeepsReferences(recipients, locations, id);
      }
      ghost var removed := State().(locations := WithoutLocation(locations, id));
      locations := WithoutLocation(locations, id);
      assert State() == removed;
      var dashboard := UpdateDashboard(now);
      return Done;
    }

    /** The "next month" button. */
    method GoToNextMonth()
      requires Valid()
      modifies this
      ensures (currentYear, currentMonth) == Calendar.NextMonth(old(currentYear), old(currentMonth))
      ensures State() == old(State()).(month := currentMonth, year := currentYear)
      ensures Valid()
    {
      currentMonth := currentMonth + 1;
      if currentMonth > 11 {
        currentMonth := 0;
        currentYear := currentYear + 1;
      }
    }

    /** The "previous month" button. */
    method GoToPreviousMonth()
      requires Valid()
      modifies this
      ensures (currentYear, currentMonth) == Calendar.PrevMonth(old(currentYear), old(currentMonth))
      ensures State() == old(State()).(month := currentMonth, year := currentYear)
      ensures Valid()
    {
      currentMonth := currentMonth - 1;
      if currentMonth < 0 {
        currentMonth := 11;
        currentYear := currentYear - 1;
      }
    }

    /** The calendar of the shown month (`updateCalendar`). */
    method ShowCalendar(today: Day) returns (cells: seq<Calendar.Cell>)
      requires Valid()
      ensures |cells| == 42 && Calendar.Weekday(cells[0].day) == 0
      ensures Calendar.FirstOfMonth(currentYear, currentMonth) - 6 <= cells[0].day
                <= Calendar.FirstOfMonth(currentYear, currentMonth)
      ensures forall i :: 0 <= i < 42 ==>
        cells[i] == Calendar.CellFor(currentYear, currentMonth, today, appointments, cells[0].day + i)
      ensures forall d :: 1 <= d <= Calendar.DaysInMonth(currentYear, currentMonth) ==>
        exists i :: 0 <= i < 42 && cells[i].day == Calendar.DaysFromCivil(currentYear, currentMonth, d)
    {
      cells := Calendar.BuildGrid(currentYear, currentMonth, today, appointments);
    }

    /** `renderAppointments` sorts the stored appointments in place, soonest first. */
    method RenderAppointments()
      modifies this
      ensures State() == Listed(old(State()))
      ensures old(Consistent(State())) ==> Consistent(State())
      ensures old(NoDoubleBooking(appointments)) ==> NoDoubleBooking(appointments)
    {
      ResortingKeepsRules(State());
      appointments := SortBy(appointments, AppointmentInstant);
    }

    /** `updateRecentActivity`: sorts the stored donors and recipients in place,
        newest first, and returns the feed. */
    method UpdateRecentActivity() returns (feed: seq<Entry>)
      modifies this
      ensures State() == Refreshed(old(State()))
      ensures feed == Feed(Candidates(donors, appointments, recipients))
      ensures |feed| <= 5
      ensures old(Consistent(State())) ==> Consistent(State())
      ensures old(LocationsResolved(recipients, locations)) ==> LocationsResolved(recipients, locations)
    {
      var after := Refreshed(State());
      ResortingKeepsRules(State());
      donors, recipients := after.donors, after.recipients;
      assert State() == after;
      feed := Feed(Candidates(donors, appointments, recipients));
    }

    /** `updateDashboard` at the moment `now`: the totals, the upcoming
        appointments, the low-stock figure, the feed and the alerts. */
    method UpdateDashboard(now: Instant) returns (dashboard: Dashboard)
      modifies this
      ensures State() == Refreshed(old(State()))
      ensures dashboard == Dashboard(|donors|, |inventory|, |recipients|, |locations|,
        UpcomingCount(appointments, now), LowStockCount(inventory, now),
        Feed(Candidates(donors, appointments, recipients)),
        StockAlerts(inventory, now, BloodTypes) + OverdueAlerts(inventory, now))
      ensures dashboard.lowStock <= 8
      ensures |dashboard.alerts| == dashboard.lowStock + (if OverdueCount(inventory, now) > 0 then 1 else 0)
      ensures old(Consistent(State())) ==> Consistent(State())
      ensures old(LocationsResolved(recipients, locations)) ==> LocationsResolved(recipients, locations)
    {
      var feed := UpdateRecentActivity();
      var alerts := ComputeAlerts(inventory, now);
      AlertsAgreeWithDashboard(inventory, now);
      dashboard := Dashboard(|donors|, |inventory|, |recipients|, |locations|,
        UpcomingCount(appointments, now), LowStockCount(inventory, now), feed, alerts);
    }

    /** `exportData`: the CSV text and its file name, built by `convertToCSV`. */
    method ExportData(kind: string) returns (result: ExportResult)
      ensures result == ExportFile(kind, donors, inventory, appointments, recipients)
    {
      var table := Table(kind, donors, inventory, appointments, recipients);
      if table.None? {
        return UnknownKind;
      }
      var (filename, records) := table.value;
      if |records| == 0 {
        return NoData;
      }
      var csv := ConvertToCsv(records);
      return Exported(filename, csv);
    }
  }
}
