/** The data export: each exportable collection as records whose keys follow the
    order in which the stored objects received them, the choice of collection
    and file name, and the empty-collection guard. Dates, times and timestamps
    are written as the integers the model stores them as. */
module Export {
  import opened Seqs
  import opened Text
  import opened Records
  import opened Csv

  function OptionalText(o: Option<string>): Value
  {
    match o
    case Some(s) => Str(s)
    case None => Null
  }

  function OptionalNumber(o: Option<int>): Value
  {
    match o
    case Some(n) => Num(n)
    case None => Null
  }

  function StatusText(s: AppointmentStatus): string
  {
    match s
    case Scheduled => "scheduled"
    case Completed => "completed"
    case Cancelled => "cancelled"
  }

  const DonorKeys: seq<string> := ["id", "name", "email", "phone", "age", "bloodType", "weight",
    "address", "registrationDate", "lastDonation", "totalDonations"]

  const UnitKeys: seq<string> := ["id", "bloodType", "donorId", "collectionDate", "expiryDate",
    "storageLocation", "status", "addedDate"]

  /** The keys of a new appointment; `completedDate` is added when it is completed. */
  const AppointmentKeys: seq<string> := ["id", "donorId", "date", "time", "type", "notes",
    "status", "createdDate"]

  const RecipientKeys: seq<string> := ["id", "name", "email", "phone", "age", "bloodType",
    "gender", "location", "priority", "medicalId", "doctor", "address", "medicalNotes",
    "registrationDate", "status"]

  /** Zips keys with values into a record. */
  function Pairs(keys: seq<string>, values: seq<Value>): (r: Record)
    requires |keys| == |values|
    ensures Keys(r) == keys
    ensures forall i :: 0 <= i < |r| ==> r[i].1 == values[i]
  {
    seq(|keys|, i requires 0 <= i < |keys| => (keys[i], values[i]))
  }

  function DonorRecord(d: Donor): Record
  {
    Pairs(DonorKeys, [Str(d.id), Str(d.name), Str(d.email), Str(d.phone), Num(d.age),
      Str(d.bloodType), Num(d.weight), Str(d.address), Num(d.registrationDate),
      OptionalNumber(d.lastDonation), Num(d.totalDonations)])
  }

  function UnitRecord(u: BloodUnit): Record
  {
    Pairs(UnitKeys, [Str(u.id), Str(u.bloodType), OptionalText(u.donorId), Num(u.collectionDate),
      Num(u.expiryDate), Str(u.storageLocation), Str(u.status), Num(u.addedDate)])
  }

  /** A completed appointment carries one more key, `completedDate`, at the end. */
  function AppointmentRecord(a: Appointment): Record
  {
    var base := Pairs(AppointmentKeys, [Str(a.id), Str(a.donorId), Num(a.date), Num(a.time),
      Str(a.kind), Str(a.notes), Str(StatusText(a.status)), Num(a.createdDate)]);
    match a.completedDate
    case Some(t) => base + [("completedDate", Num(t))]
    case None => base
  }

  function RecipientRecord(r: Recipient): Record
  {
    Pairs(RecipientKeys, [Str(r.id), Str(r.name), Str(r.email), Str(r.phone), Num(r.age),
      Str(r.bloodType), Str(r.gender), Str(r.location), Str(r.priority),
      OptionalText(r.medicalId), OptionalText(r.doctor), Str(r.address), Str(r.medicalNotes),
      Num(r.registrationDate), Str(r.status)])
  }

  function DonorRecords(donors: seq<Donor>): (rs: seq<Record>)
    ensures |rs| == |donors|
  {
    seq(|donors|, i requires 0 <= i < |donors| => DonorRecord(donors[i]))
  }

  function UnitRecords(units: seq<BloodUnit>): (rs: seq<Record>)
    ensures |rs| == |units|
  {
    seq(|units|, i requires 0 <= i < |units| => UnitRecord(units[i]))
  }

  function AppointmentRecords(appointments: seq<Appointment>): (rs: seq<Record>)
    ensures |rs| == |appointments|
  {
    seq(|appointments|, i requires 0 <= i < |appointments| => AppointmentRecord(appointments[i]))
  }

  function RecipientRecords(recipients: seq<Recipient>): (rs: seq<Record>)
    ensures |rs| == |recipients|
  {
    seq(|recipients|, i requires 0 <= i < |recipients| => RecipientRecord(recipients[i]))
  }

  /** The kinds `exportData` accepts; anything else (locations included) exports nothing. */
  const ExportKinds: seq<string> := ["donors", "inventory", "appointments", "recipients"]

  /** The file name and records of an export kind, or `None` for an unknown kind. */
  function Table(kind: string, donors: seq<Donor>, inventory: seq<BloodUnit>,
                 appointments: seq<Appointment>, recipients: seq<Recipient>): (t: Option<(string, seq<Record>)>)
    ensures t.None? <==> kind !in ExportKinds
    ensures t.Some? ==> t.value.0 == kind + ".csv"
    ensures kind == "donors" ==> t == Some(("donors.csv", DonorRecords(donors)))
    ensures kind == "inventory" ==> t == Some(("inventory.csv", UnitRecords(inventory)))
    ensures kind == "appointments" ==> t == Some(("appointments.csv", AppointmentRecords(appointments)))
    ensures kind == "recipients" ==> t == Some(("recipients.csv", RecipientRecords(recipients)))
  {
    if kind == "donors" then Some(("donors.csv", DonorRecords(donors)))
    else if kind == "inventory" then Some(("inventory.csv", UnitRecords(inventory)))
    else if kind == "appointments" then Some(("appointments.csv", AppointmentRecords(appointments)))
    else if kind == "recipients" then Some(("recipients.csv", RecipientRecords(recipients)))
    else None
  }

  datatype ExportResult = UnknownKind | NoData | Exported(filename: string, csv: string)

  /** `exportData`: an unknown kind exports nothing; a known kind whose collection
      is empty exports nothing either; otherwise the collection's CSV text goes
      to `<kind>.csv`. */
  function ExportFile(kind: string, donors: seq<Donor>, inventory: seq<BloodUnit>,
                      appointments: seq<Appointment>, recipients: seq<Recipient>): (r: ExportResult)
    ensures r.UnknownKind? <==> kind !in ExportKinds
    ensures r.NoData? <==>
      (kind == "donors" && donors == []) || (kind == "inventory" && inventory == [])
      || (kind == "appointments" && appointments == []) || (kind == "recipients" && recipients == [])
    ensures r.Exported? ==> r.filename == kind + ".csv" && r.csv != ""
  {
    match Table(kind, donors, inventory, appointments, recipients)
    case None => UnknownKind
    case Some((filename, records)) =>
      if records == [] then NoData
      else Exported(filename, CsvText(records))
  }

  /** No string field of a donor holds a line break. */
  predicate DonorWithoutLineBreaks(d: Donor)
  {
    forall s :: s in [d.id, d.name, d.email, d.phone, d.bloodType, d.address] ==> '\n' !in s
  }

  lemma DonorKeysText()
    ensures forall i :: 0 <= i < |DonorKeys| ==> '\n' !in DonorKeys[i] && ',' !in DonorKeys[i]
  {
  }

  /** A donor without line breaks gives a record without line breaks. */
  lemma DonorRecordClean(d: Donor)
    requires DonorWithoutLineBreaks(d)
    ensures var r := DonorRecord(d);
      forall i :: 0 <= i < |r| ==> '\n' !in r[i].0 && (r[i].1.Str? ==> '\n' !in r[i].1.s)
  {
    DonorKeysText();
    var r := DonorRecord(d);
    forall i | 0 <= i < |r| ensures '\n' !in r[i].0 && (r[i].1.Str? ==> '\n' !in r[i].1.s) {
      assert r[i].0 == DonorKeys[i];
    }
  }

  /** The donors' export: one header line that splits back into the eleven donor
      keys, then one line per donor, in the stored order. */
  lemma DonorExportLines(donors: seq<Donor>)
    requires donors != []
    requires forall d :: d in donors ==> DonorWithoutLineBreaks(d)
    ensures var lines := Split(CsvText(DonorRecords(donors)), '\n');
      && |lines| == |donors| + 1
      && Split(lines[0], ',') == DonorKeys
      && forall i :: 0 <= i < |donors| ==> lines[i + 1] == RowText(DonorKeys, DonorRecord(donors[i]))
  {
    var data := DonorRecords(donors);
    DonorKeysText();
    forall r: Record, i | r in data && 0 <= i < |r|
      ensures '\n' !in r[i].0 && (r[i].1.Str? ==> '\n' !in r[i].1.s)
    {
      var k :| 0 <= k < |data| && data[k] == r;
      assert donors[k] in donors;
      DonorRecordClean(donors[k]);
    }
    CsvLines(data);
    assert Keys(data[0]) == DonorKeys;
    SplitJoin(DonorKeys, ',');
    forall i | 0 <= i < |donors| ensures data[i] == DonorRecord(donors[i]) {
    }
  }

  /** The appointments' header is the first appointment's keys: it names
      `completedDate` exactly when the first appointment has been completed,
      whatever the other appointments hold. */
  lemma AppointmentHeader(appointments: seq<Appointment>)
    requires appointments != []
    ensures var headers := Keys(AppointmentRecords(appointments)[0]);
      && headers[..8] == AppointmentKeys
      && ("completedDate" in headers <==> appointments[0].completedDate.Some?)
  {
    var a := appointments[0];
    var base := Pairs(AppointmentKeys, [Str(a.id), Str(a.donorId), Num(a.date), Num(a.time),
      Str(a.kind), Str(a.notes), Str(StatusText(a.status)), Num(a.createdDate)]);
    assert "completedDate" !in AppointmentKeys;
    if a.completedDate.Some? {
      assert Keys(base + [("completedDate", Num(a.completedDate.value))]) == AppointmentKeys + ["completedDate"];
    }
  }
}
