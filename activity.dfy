/** The dashboard's recent-activity feed: the newest donors and recipients and
    the soonest scheduled appointments, merged, newest first, at most five. */
module Activity {
  import opened Seqs
  import opened Records

  datatype Event =
    | DonorRegistered(name: string)
    | AppointmentScheduled(donorName: string, kind: string)
    | RecipientRegistered(name: string, priority: string)

  datatype Entry = Entry(event: Event, time: Instant)

  /** The moment an appointment stands for: its day's midnight plus its time of day. */
  function AppointmentInstant(a: Appointment): Instant
  {
    DayStart(a.date) + a.time
  }

  /** `donors.sort((a, b) => b.registrationDate - a.registrationDate)`: newest first. */
  function NewestDonorsFirst(donors: seq<Donor>): (r: seq<Donor>)
    ensures multiset(r) == multiset(donors)
    ensures forall i, j :: 0 <= i < j < |r| ==> r[i].registrationDate >= r[j].registrationDate
  {
    SortBy(donors, (d: Donor) => -d.registrationDate)
  }

  function NewestRecipientsFirst(recipients: seq<Recipient>): (r: seq<Recipient>)
    ensures multiset(r) == multiset(recipients)
    ensures forall i, j :: 0 <= i < j < |r| ==> r[i].registrationDate >= r[j].registrationDate
  {
    SortBy(recipients, (x: Recipient) => -x.registrationDate)
  }

  /** The scheduled appointments, soonest first (a sorted copy; the stored list keeps its order). */
  function SoonestScheduled(appointments: seq<Appointment>): (r: seq<Appointment>)
    ensures forall a :: a in r <==> a in appointments && a.status == Scheduled
    ensures forall i, j :: 0 <= i < j < |r| ==> AppointmentInstant(r[i]) <= AppointmentInstant(r[j])
  {
    var scheduled := Filter(appointments, (a: Appointment) => a.status == Scheduled);
    var r := SortBy(scheduled, AppointmentInstant);
    assert forall a :: a in r <==> a in multiset(r);
    assert forall a :: a in scheduled <==> a in multiset(scheduled);
    r
  }

  /** The sorted copy keeps every scheduled appointment as often as it is stored, and no other. */
  lemma SoonestScheduledCount(appointments: seq<Appointment>)
    ensures forall a :: multiset(SoonestScheduled(appointments))[a] == if a.status == Scheduled
                                                                       then multiset(appointments)[a] else 0
  {
    var p := (a: Appointment) => a.status == Scheduled;
    FilterCount(appointments, p);
    assert SoonestScheduled(appointments) == SortBy(Filter(appointments, p), AppointmentInstant);
  }

  /** The name shown for an appointment's donor: the first donor with that id, or "Unknown". */
  function DonorName(donors: seq<Donor>, id: string): string
  {
    match FindFirst(donors, (d: Donor) => d.id == id)
    case Some(k) => donors[k].name
    case None => "Unknown"
  }

  function DonorEntries(donors: seq<Donor>): (es: seq<Entry>)
    ensures |es| == |donors|
    ensures forall i :: 0 <= i < |es| ==> es[i] == Entry(DonorRegistered(donors[i].name), donors[i].registrationDate)
  {
    seq(|donors|, i requires 0 <= i < |donors| =>
      Entry(DonorRegistered(donors[i].name), donors[i].registrationDate))
  }

  function AppointmentEntries(appointments: seq<Appointment>, donors: seq<Donor>): (es: seq<Entry>)
    ensures |es| == |appointments|
    ensures forall i :: 0 <= i < |es| ==>
      es[i] == Entry(AppointmentScheduled(DonorName(donors, appointments[i].donorId), appointments[i].kind),
                     AppointmentInstant(appointments[i]))
  {
    seq(|appointments|, i requires 0 <= i < |appointments| =>
      Entry(AppointmentScheduled(DonorName(donors, appointments[i].donorId), appointments[i].kind),
            AppointmentInstant(appointments[i])))
  }

  function RecipientEntries(recipients: seq<Recipient>): (es: seq<Entry>)
    ensures |es| == |recipients|
    ensures forall i :: 0 <= i < |es| ==>
      es[i] == Entry(RecipientRegistered(recipients[i].name, recipients[i].priority), recipients[i].registrationDate)
  {
    seq(|recipients|, i requires 0 <= i < |recipients| =>
      Entry(RecipientRegistered(recipients[i].name, recipients[i].priority),
            recipients[i].registrationDate))
  }

  function Min(a: nat, b: nat): nat
  {
    if a < b then a else b
  }

  /** The three runs of candidates, given the scheduled appointments already in order. */
  function Runs(donors: seq<Donor>, scheduled: seq<Appointment>, recipients: seq<Recipient>): (es: seq<Entry>)
    ensures |es| == Min(|donors|, 3) + Min(|scheduled|, 2) + Min(|recipients|, 2)
  {
    DonorEntries(Take(donors, 3))
    + AppointmentEntries(Take(scheduled, 2), donors)
    + RecipientEntries(Take(recipients, 2))
  }

  /** The candidates: the first three donors and the first two recipients of the
      (already re-ordered) stored lists, and the two soonest scheduled appointments;
      fewer when a list is shorter. */
  function Candidates(donors: seq<Donor>, appointments: seq<Appointment>,
                      recipients: seq<Recipient>): (es: seq<Entry>)
    ensures |es| == Min(|donors|, 3) + Min(|SoonestScheduled(appointments)|, 2) + Min(|recipients|, 2)
  {
    Runs(donors, SoonestScheduled(appointments), recipients)
  }

  /** The first run: one entry per donor, for the first three donors. */
  lemma DonorRun(donors: seq<Donor>, scheduled: seq<Appointment>, recipients: seq<Recipient>)
    ensures forall i :: 0 <= i < Min(|donors|, 3) ==>
      Runs(donors, scheduled, recipients)[i] == Entry(DonorRegistered(donors[i].name), donors[i].registrationDate)
  {
    var ds := DonorEntries(Take(donors, 3));
    var rest := AppointmentEntries(Take(scheduled, 2), donors) + RecipientEntries(Take(recipients, 2));
    var es := Runs(donors, scheduled, recipients);
    assert es == ds + rest;
    forall i | 0 <= i < Min(|donors|, 3)
      ensures es[i] == Entry(DonorRegistered(donors[i].name), donors[i].registrationDate)
    {
      var d := donors[i];
      assert Take(donors, 3)[i] == d;
      assert ds[i] == Entry(DonorRegistered(d.name), d.registrationDate);
      assert es[i] == ds[i];
    }
  }

  /** The second run: one entry per appointment, for the first two scheduled ones, named after their donor. */
  lemma AppointmentRun(donors: seq<Donor>, scheduled: seq<Appointment>, recipients: seq<Recipient>)
    ensures forall i :: 0 <= i < Min(|scheduled|, 2) ==>
      Runs(donors, scheduled, recipients)[Min(|donors|, 3) + i]
        == Entry(AppointmentScheduled(DonorName(donors, scheduled[i].donorId), scheduled[i].kind),
                 AppointmentInstant(scheduled[i]))
  {
    var ds := DonorEntries(Take(donors, 3));
    var apts := AppointmentEntries(Take(scheduled, 2), donors);
    var rs := RecipientEntries(Take(recipients, 2));
    var es := Runs(donors, scheduled, recipients);
    assert es == ds + (apts + rs);
    forall i | 0 <= i < Min(|scheduled|, 2)
      ensures es[|ds| + i] == Entry(AppointmentScheduled(DonorName(donors, scheduled[i].donorId), scheduled[i].kind),
                                    AppointmentInstant(scheduled[i]))
    {
      var a := scheduled[i];
      assert Take(scheduled, 2)[i] == a;
      assert apts[i] == Entry(AppointmentScheduled(DonorName(donors, a.donorId), a.kind), AppointmentInstant(a));
      assert (apts + rs)[i] == apts[i];
      assert es[|ds| + i] == (apts + rs)[i];
    }
  }

  /** The third run: one entry per recipient, for the first two recipients. */
  lemma RecipientRun(donors: seq<Donor>, scheduled: seq<Appointment>, recipients: seq<Recipient>)
    ensures forall i :: 0 <= i < Min(|recipients|, 2) ==>
      Runs(donors, scheduled, recipients)[Min(|donors|, 3) + Min(|scheduled|, 2) + i]
        == Entry(RecipientRegistered(recipients[i].name, recipients[i].priority), recipients[i].registrationDate)
  {
    var front := DonorEntries(Take(donors, 3)) + AppointmentEntries(Take(scheduled, 2), donors);
    var rs := RecipientEntries(Take(recipients, 2));
    assert Runs(donors, scheduled, recipients) == front + rs;
    assert |front| == Min(|donors|, 3) + Min(|scheduled|, 2);
    forall i | 0 <= i < Min(|recipients|, 2)
      ensures (front + rs)[|front| + i] == Entry(RecipientRegistered(recipients[i].name, recipients[i].priority),
                                                 recipients[i].registrationDate)
    {
      var r := recipients[i];
      assert Take(recipients, 2)[i] == r;
      assert rs[i] == Entry(RecipientRegistered(r.name, r.priority), r.registrationDate);
      AppendIndex(front, rs, i);
    }
  }

  /** The candidates come in three runs: one entry per donor for the first three
      donors, then one per appointment for the two soonest scheduled ones, named
      after their donor, then one per recipient for the first two recipients. */
  lemma CandidatesLayout(donors: seq<Donor>, appointments: seq<Appointment>, recipients: seq<Recipient>)
    ensures var es := Candidates(donors, appointments, recipients);
      var scheduled := SoonestScheduled(appointments);
      var nd, na := Min(|donors|, 3), Min(|scheduled|, 2);
      && (forall i :: 0 <= i < nd ==>
            es[i] == Entry(DonorRegistered(donors[i].name), donors[i].registrationDate))
      && (forall i :: 0 <= i < na ==>
            es[nd + i] == Entry(AppointmentScheduled(DonorName(donors, scheduled[i].donorId), scheduled[i].kind),
                                AppointmentInstant(scheduled[i])))
      && (forall i :: 0 <= i < Min(|recipients|, 2) ==>
            es[nd + na + i] == Entry(RecipientRegistered(recipients[i].name, recipients[i].priority),
                                     recipients[i].registrationDate))
  {
    var scheduled := SoonestScheduled(appointments);
    DonorRun(donors, scheduled, recipients);
    AppointmentRun(donors, scheduled, recipients);
    RecipientRun(donors, scheduled, recipients);
  }

  /** `activities.sort((a, b) => b.time - a.time).slice(0, 5)`. */
  function Feed(entries: seq<Entry>): seq<Entry>
  {
    Take(SortBy(entries, (e: Entry) => -e.time), 5)
  }

  /** The feed holds the five latest entries, newest first: it has min(5, N)
      entries taken from the candidates, and every candidate left out is no
      later than the last entry shown. */
  lemma FeedIsLatest(entries: seq<Entry>)
    ensures var f := Feed(entries);
      && |f| == (if |entries| < 5 then |entries| else 5)
      && (forall i, j :: 0 <= i < j < |f| ==> f[i].time >= f[j].time)
      && multiset(f) <= multiset(entries)
      && forall e :: e in entries ==> e in f || e.time <= f[|f| - 1].time
  {
    TakeSorted(entries, (e: Entry) => -e.time, 5);
  }

  /** The donors taken into the feed are the newest: a donor left out registered
      no later than the third one shown. */
  lemma NewestDonorsTaken(donors: seq<Donor>)
    ensures var shown := Take(NewestDonorsFirst(donors), 3);
      forall d :: d in donors ==> d in shown || d.registrationDate <= shown[|shown| - 1].registrationDate
  {
    TakeSorted(donors, (d: Donor) => -d.registrationDate, 3);
  }

  /** The recipients taken into the feed are the newest: a recipient left out
      registered no later than the last one shown. */
  lemma NewestRecipientsTaken(recipients: seq<Recipient>)
    ensures var shown := Take(NewestRecipientsFirst(recipients), 2);
      forall r :: r in recipients ==> r in shown || r.registrationDate <= shown[|shown| - 1].registrationDate
  {
    TakeSorted(recipients, (x: Recipient) => -x.registrationDate, 2);
  }

  /** The appointments taken into the feed are the soonest scheduled ones: a
      scheduled appointment left out is no sooner than the last one shown. */
  lemma SoonestAppointmentsTaken(appointments: seq<Appointment>)
    ensures var shown := Take(SoonestScheduled(appointments), 2);
      forall a :: a in appointments && a.status == Scheduled ==>
        a in shown || AppointmentInstant(shown[|shown| - 1]) <= AppointmentInstant(a)
  {
    var scheduled := Filter(appointments, (a: Appointment) => a.status == Scheduled);
    TakeSorted(scheduled, AppointmentInstant, 2);
  }
}
