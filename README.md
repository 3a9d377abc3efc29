# Blood donation system: a verified model of its data layer

The blood donation system is a single-page application whose one class,
`BloodDonationSystem` (`script.js`), keeps five in-memory collections: donors,
blood units (the inventory), appointments, recipients and locations. It also
keeps the month and year the appointment calendar shows. Forms and buttons call
its methods. The methods validate the input, push onto or filter the arrays,
change records in place, and recompute the dashboard, the alerts, the
calendar and the CSV exports.

This project models that data layer in Dafny.

- `donation.dfy`, module `Donation`: the class `BloodDonationSystem`, with
  the five collections and the calendar cursor as fields. It has one method
  per operation. Each method states its whole new state as a function of the
  old one. Like the code, a handler that changes data ends by calling
  `RenderAppointments` and/or `UpdateDashboard`, in the code's order. These
  re-sort the stored lists in place: appointments soonest first
  (`Donation.Listed`), donors and recipients newest first
  (`Donation.Refreshed`). The contracts state the re-sorted lists. Three rules
  are tracked:
  - uniqueness: ids, donor and recipient emails, and a location's (name, city)
    pair. Every method keeps it.
  - no double booking: no two scheduled appointments share a slot. Adding,
    completing and cancelling an appointment keep it, and so does listing.
    Editing one can break it (`Donation.ReschedulingCanDoubleBook`).
  - resolved locations: every recipient's location exists. Deleting or adding
    a location keeps it, and so does adding a recipient whose location exists.
    Adding a recipient checks nothing about its location, so it can break it.

  Each rule is kept only where it holds to begin with.

  The pure validation and transition functions sit beside the class, with
  lemmas about them.
- `records.dfy`, module `Records`: the entities, the form contents, and how a
  form becomes a new record. Examples: a new donor has no donation yet, and a
  unit with no storage place goes to `Default Storage`.
- `filters.dfy`, module `Filters`: the donor and recipient searches.
- `reports.dfy`, module `Reports`: per-type stock, the card levels, the
  low-stock figure, the alerts, upcoming appointments and the blood-type chart.
- `activity.dfy`, module `Activity`: the dashboard's recent-activity feed.
- `calendar.dfy`, module `Calendar`: Gregorian day numbers, weekdays, month
  navigation and the 42-cell month grid.
- `csv.dfy`, module `Csv`, and `export.dfy`, module `Export`: `convertToCSV`
  and `exportData`.
- `seqs.dfy`, module `Seqs`, and `text.dfy`, module `Text`: the array and
  string operations the code relies on: `filter`, `find`, `slice`, a stable
  `sort`, `toLowerCase`, `includes`, `join` and `split`.

Conventions of the model:

- Time is one integer clock in minutes.
- A calendar date is a day number counted from 1970-01-01. It stands for the
  moment of its midnight.
- An appointment's time is its minute of the day.
- Whatever the browser supplies becomes a parameter: form contents, the
  answers to `confirm` and `prompt`, the present moment, and the fresh id that
  `Date.now()` yields. The fresh id comes with the precondition that no record
  already uses it.

The model follows the code as written. Where the code does something one might
not expect, the model does so too and a lemma shows it:

- Completing or cancelling an appointment does not look at its current status.
  A cancelled appointment can be completed, and a completed donation can be
  completed again. Each completion credits the donor once more.
- Rescheduling checks no slot. `Donation.ReschedulingCanDoubleBook` exhibits
  two appointments that end up double-booked.
- Cancelling frees a slot only when the cancelled appointment was scheduled
  (`Donation.CancellationFreesSlot`, `Donation.CancellationFreesOnlyScheduled`).
- Deleting a donor leaves their appointments and blood units in place.

## Model

| member | source | states |
|---|---|---|
| Donation.DonorRejection | script.js:291-306 | the donor form is accepted exactly when the age is 18 to 65, the weight at least 50 and the email unused; otherwise the first failing check, in the order age, weight, email, is the reason |
| Donation.RecipientRejection | script.js:1066-1076 | the recipient form is accepted exactly when the age is 0 to 120 and the email unused; an age error is reported before a duplicate email |
| Donation.UnitRejection | script.js:411-415 | a unit is accepted exactly when its expiry date is strictly after its collection date |
| Donation.LocationRejection | script.js:1193-1197 | a location is refused exactly when one with the same name and city exists |
| Donation.SlotTaken | script.js:529-534 | the conflict search finds a conflict exactly when a scheduled appointment has the same date and time; completed and cancelled ones never block |
| Donation.CompletionCredits | script.js:595-608 | completion turns the first appointment with the id into a completed one dated `now`, whatever its status, and leaves every other appointment as it was; the donors' donation total rises by exactly one when it is a donation whose donor exists, and by nothing otherwise; the only donor that can change is the first one with the appointment's donor id, which gains one donation dated `now` |
| Donation.CompletionKeepsRules | script.js:595-608 | completion keeps appointment ids and donor ids and emails unique and creates no double booking |
| Donation.CancellationFreesSlot | script.js:634-646 | cancellation keeps ids unique, creates no double booking, and leaves the slot of a cancelled scheduled appointment free for booking |
| Donation.CancellationFreesOnlyScheduled | script.js:634-646 | cancelling never takes a slot, and cancelling an appointment that is not scheduled leaves every slot exactly as taken or free as it was |
| Donation.ReschedulingIntoFreeSlot | script.js:617-632 | moving an appointment to a slot no other scheduled appointment holds keeps the schedule free of double bookings and ids unique |
| Donation.ReschedulingCanDoubleBook | script.js:624-627 | the edit does not re-check the slot: some schedule without a double booking gets one after an edit |
| Donation.ReschedulingKeepsIds | script.js:624-627 | an edit changes only a date and a time, so appointment ids stay unique |
| Donation.StatusUpdateStock | script.js:489-501 | the update is done exactly when the unit exists and the answer is one of the four statuses; then the first unit with the id takes the answered status and every other unit stays as it was, and otherwise nothing changes; a non-`available` status never raises a type's stock, `available` never lowers it, other types' stock is untouched, and unit ids stay unique |
| Donation.StatusUpdateKeepsIds | script.js:495 | a status update keeps unit ids unique |
| Donation.WithoutDonor | script.js:384-386 | deleting removes exactly the donors with that id, keeps every copy of the others in order, and keeps ids and emails unique |
| Donation.WithoutUnit | script.js:503-505 | deleting removes exactly the units with that id and keeps every copy of the others in order |
| Donation.WithoutRecipient | script.js:1164-1166 | deleting removes exactly the recipients with that id and keeps every copy of the others in order |
| Donation.WithoutLocation | script.js:1278 | deleting removes exactly the locations with that id and keeps every copy of the others in order |
| Donation.LocationUsers | script.js:1272-1273 | the guard's count is zero exactly when no recipient is assigned to the location |
| Donation.LocationDeleteKeepsReferences | script.js:1269-1279 | when every recipient's location exists, a delete the guard lets through leaves every recipient's location existing |
| Donation.Listed | script.js:562-566 | listing leaves the appointments a permutation of themselves, sorted soonest first, and changes nothing else |
| Donation.Refreshed | script.js:868-902 | the dashboard refresh leaves donors and recipients permutations of themselves, each newest first, and changes nothing else |
| Donation.ResortingKeepsRules | script.js:562-566 | re-sorting keeps uniqueness, the absence of double bookings and resolved locations |
| Donation.BloodDonationSystem.constructor | script.js:4-22 | the collections are the loaded ones and the calendar shows the given month; `init` then refreshes the dashboard and lists the appointments, leaving donors and recipients newest first and appointments soonest first |
| Donation.BloodDonationSystem.AddDonor | script.js:273-316 | a refused form changes nothing; an accepted one adds exactly the new donor, with no donations and no last donation, and the dashboard refresh re-sorts donors and recipients newest first; uniqueness is kept |
| Donation.BloodDonationSystem.AddBloodUnit | script.js:396-426 | a refused unit changes nothing; an accepted one is appended, stored in `Default Storage` when no place is given, and the dashboard refresh re-sorts donors and recipients |
| Donation.BloodDonationSystem.AddAppointment | script.js:514-551 | refused exactly when the slot is taken; otherwise exactly one scheduled appointment is added and the list is re-sorted soonest first, then the dashboard refresh re-sorts donors and recipients; no double booking is ever created |
| Donation.BloodDonationSystem.AddRecipient | script.js:1044-1086 | a refused form changes nothing; an accepted one adds exactly the new active recipient and the dashboard refresh re-sorts donors and recipients; locations stay resolved when the new recipient's location exists |
| Donation.BloodDonationSystem.AddLocation | script.js:1175-1208 | a refused location changes nothing; an accepted one is appended with capacity 0 when none parses, and the dashboard refresh re-sorts donors and recipients; locations stay resolved |
| Donation.BloodDonationSystem.UpdateBloodUnitStatus | script.js:489-501 | the inventory becomes the status update's result; a done update also refreshes the dashboard, and nothing else changes |
| Donation.BloodDonationSystem.CompleteAppointment | script.js:595-615 | an unknown id changes nothing; otherwise appointments and donors become the completion's result, re-sorted by the listing and the dashboard refresh; uniqueness and the absence of double bookings are kept |
| Donation.BloodDonationSystem.EditAppointment | script.js:617-632 | with both answers, the appointment moves to the new date and time and the list is re-sorted soonest first, else nothing changes; uniqueness is kept |
| Donation.BloodDonationSystem.CancelAppointment | script.js:634-646 | nothing changes unless confirmed and found; then the appointment with the id is cancelled, the list re-sorted and the dashboard refreshed; uniqueness and the absence of double bookings are kept |
| Donation.BloodDonationSystem.DeleteDonor | script.js:384-392 | when confirmed, the donors lose exactly those with the id and the dashboard refresh re-sorts donors and recipients; nothing else changes |
| Donation.BloodDonationSystem.DeleteBloodUnit | script.js:503-511 | when confirmed, the inventory loses exactly the units with the id and the dashboard is refreshed |
| Donation.BloodDonationSystem.DeleteRecipient | script.js:1164-1172 | when confirmed, the recipients lose exactly those with the id and the dashboard is refreshed |
| Donation.BloodDonationSystem.DeleteLocation | script.js:1269-1285 | refused, with the number of users, while a recipient is assigned; otherwise the locations lose exactly those with the id and the dashboard is refreshed; recipients' locations stay resolved |
| Donation.BloodDonationSystem.GoToNextMonth | script.js:105-111 | the cursor moves one month forward, wrapping December into January of the next year, and stays in 0 to 11 |
| Donation.BloodDonationSystem.GoToPreviousMonth | script.js:96-102 | the cursor moves one month back, wrapping January into December of the previous year, and stays in 0 to 11 |
| Donation.BloodDonationSystem.ShowCalendar | script.js:658-707 | the shown month's grid has 42 consecutive cells starting on the Sunday on or before the 1st (a Sunday within the six days before it), and contains every day of the month |
| Donation.BloodDonationSystem.RenderAppointments | script.js:553-566 | the stored appointments are reordered in place, soonest first, as a permutation, and nothing else changes; uniqueness and the absence of double bookings are kept |
| Donation.BloodDonationSystem.UpdateRecentActivity | script.js:863-916 | the stored donors and recipients are reordered in place, newest first, nothing else changes, and the feed is the latest of the candidates, at most five |
| Donation.BloodDonationSystem.UpdateDashboard | script.js:746-776 | the figures are the collection sizes, the upcoming count and the low-stock count (at most 8); there is one alert per low type plus one for overdue units; the activity update re-sorts donors and recipients and keeps every rule |
| Donation.BloodDonationSystem.ExportData | script.js:1299-1331 | the export the data layer produces for a kind, built by the CSV loop |
| Filters.FilteredDonors | script.js:348-361 | the result is an order-preserving subsequence that keeps every copy of a matching donor and no other; a donor matches exactly when the search and blood-type filter do; empty filters return every donor |
| Filters.FilteredRecipients | script.js:1124-1141 | the same for recipients, with blood type, priority and location combined by AND, every copy of a match kept |
| Filters.SearchMeaning | script.js:352-356 | the scanning substring test agrees with "the lower-cased term occurs at some position of a lower-cased field" |
| Filters.FilteredDonorsMeaning | script.js:352-360 | a donor is listed exactly when stored, the term occurs in its name, email or blood type (or is empty), and the type filter is empty or equal |
| Filters.FilteredRecipientsMeaning | script.js:1130-1140 | a recipient is listed exactly when stored and all four conditions hold |
| Text.Lower | script.js:349 | lower-casing keeps the length, leaves no upper-case letter and changes only upper-case letters |
| Text.ContainsIff | script.js:354-356 | `includes` finds a needle exactly when it occurs at some position |
| Text.SplitJoin | script.js:1337-1348 | splitting a join returns the parts when no part holds the separator |
| Text.NatToStringRoundTrip | script.js:1345 | the decimal rendering of a number reads back as that number |
| Reports.AvailableCount | script.js:467-472 | a type's stock is at most the inventory size and is zero exactly when no unit of the type is available and unexpired |
| Reports.AvailableCountUpdate | script.js:495 | replacing one unit changes a type's stock only by what the old and the new unit contribute |
| Reports.TypeStats | script.js:465-477 | one card per blood type, in order, with its stock; a card is critical exactly when no unit of its type is usable, low when some are but fewer than five, normal from five |
| Reports.LevelMeaning | script.js:474-476 | a card is critical exactly when no unit is usable, low when some but fewer than five are, normal from five |
| Reports.LowTypes | script.js:761-768 | the low types are the listed types, in order, with fewer than five usable units, each as often as it is listed |
| Reports.LowStockCount | script.js:760-768 | the low-stock figure is at most 8 |
| Reports.OverdueCount | script.js:795 | zero exactly when no unit is past its expiry and unused |
| Reports.ComputeAlerts | script.js:780-798 | the alert loop yields the stock alerts in type order followed by the overdue alert |
| Reports.StockAlertIff | script.js:786-793 | a stock alert for a type with n units is raised exactly when the type is listed, n is its stock and n is below five |
| Reports.StockAlertCount | script.js:786-793 | there are exactly as many stock alerts as low types |
| Reports.AlertsAgreeWithDashboard | script.js:760-793 | the dashboard's low-stock figure equals the number of stock alerts and is at most 8 |
| Reports.UpcomingCount | script.js:753-756 | zero exactly when every appointment is not scheduled or its day began before now |
| Reports.DistributionTotal | script.js:1012-1014 | for distinct types the chart's slices add up to the donors whose type is listed |
| Reports.BloodTypesDistinct | script.js:1006 | the eight blood types listed for the chart are pairwise different, so no donor is counted in two slices |
| Reports.BloodTypeChartTotal | script.js:1006-1014 | the eight slices of the chart add up to at most the number of donors |
| Activity.NewestDonorsFirst | script.js:868-869 | the donors are permuted, newest registration first |
| Activity.NewestRecipientsFirst | script.js:900-901 | the recipients are permuted, newest registration first |
| Activity.SoonestScheduled | script.js:883-885 | exactly the scheduled appointments, soonest first |
| Activity.SoonestScheduledCount | script.js:883-885 | every scheduled appointment appears as often as it is stored, and no other appointment appears |
| Activity.Candidates | script.js:867-912 | the candidates number min(3, donors) + min(2, scheduled) + min(2, recipients) |
| Activity.CandidatesLayout | script.js:867-912 | the candidates are the first three donors' entries, then the two soonest scheduled appointments' entries named after their donors, then the first two recipients' entries |
| Activity.FeedIsLatest | script.js:915-916 | the feed has min(5, N) entries, newest first, drawn from the candidates, and every candidate left out is no later than the last shown |
| Activity.NewestDonorsTaken | script.js:868-870 | a donor left out of the feed's three registered no later than the last one taken |
| Activity.NewestRecipientsTaken | script.js:900-902 | a recipient left out of the feed's two registered no later than the last one taken |
| Activity.SoonestAppointmentsTaken | script.js:883-886 | a scheduled appointment left out of the feed's two is no sooner than the last one taken |
| Calendar.Weekday | script.js:661 | the weekday is 0 (Sunday) to 6 |
| Calendar.Epoch | script.js:658 | day 0 is 1970-01-01, a Thursday |
| Calendar.NextMonth | script.js:105-110 | the month stays in 0 to 11 and the month count advances by one |
| Calendar.PrevMonth | script.js:96-101 | the month stays in 0 to 11 and the month count goes back by one |
| Calendar.NavigationInverse | script.js:96-112 | previous after next, and next after previous, return to the same month |
| Calendar.YearLength | script.js:659 | a year from March has 366 days when the following February has a leap day, else 365 |
| Calendar.MonthsAdjacent | script.js:659 | the day after a month's last day is the first of the next month |
| Calendar.InMonthMeaning | script.js:681 | a day is in the month exactly when it is that month's d-th day for some d from 1 to its length |
| Calendar.ScheduledOn | script.js:693-695 | a cell's count is zero exactly when no scheduled appointment falls on that day |
| Calendar.BuildGrid | script.js:658-707 | 42 consecutive cells starting on the Sunday on or before the first of the month; each cell carries its month flag, today flag and count; every day of the month is in the grid |
| Calendar.OtherMonthCells | script.js:681-683 | a grid day outside the shown month lies in the previous or in the next month |
| Csv.ConvertToCsv | script.js:1333-1349 | empty data gives the empty text; otherwise the loop builds the header line followed by the record lines |
| Csv.QuoteRule | script.js:1342-1343 | a string value is wrapped in quotes exactly when it holds a comma |
| Csv.CsvLines | script.js:1336-1348 | N records without line breaks give N + 1 lines: the first record's keys, then each record's line |
| Csv.RowColumns | script.js:1339-1345 | without commas in values, each line splits back into one field per header, in the header's order |
| Export.Table | script.js:1302-1321 | each of the four kinds selects its collection and `<kind>.csv`; any other kind selects nothing |
| Export.ExportFile | script.js:1299-1331 | an unknown kind, locations included, exports nothing; a known kind with an empty collection exports nothing; otherwise a non-empty CSV goes to `<kind>.csv` |
| Export.DonorExportLines | script.js:1333-1348 | the donors' file has one line per donor after a header that splits back into the eleven donor keys |
| Export.AppointmentHeader | script.js:1336 | the appointments' header lists `completedDate` exactly when the first appointment has been completed |

## Left out

- The page: HTML templates, event wiring, section switching, form toggling,
  select population, messages and the injected style sheet. These have no
  state to model.
- Persistence in `localStorage`. The constructor takes the loaded collections
  as parameters, and saving is not modelled. The saved copy is the in-memory
  order at the moment of the save: the previous re-sort with the new record at
  the end.
- The six-month donation line chart and its bucketing of `"date time"` strings
  by month. This depends on `Date` parsing and `setMonth` overflow.
- The Chart.js drawing of both charts. The doughnut chart's data is modelled,
  in `Reports.TypeDistribution`.
- The dashboard table of the eight most recent donors or units. It is not part
  of this model.
- `downloadCSV`: the Blob, the object URL and the synthetic click.
- `editDonor`, `editRecipient` and `editLocation`. They only fill form inputs
  and change no stored data.
- `Date` semantics: time zones, locale formatting, and the UTC
  `toISOString` date against the local month and today test. Dates are
  abstract day numbers and one clock. "Expired" and "upcoming" compare a
  date's midnight with now.
- `parseInt` yielding `NaN`, which slips past the range checks. Ages, weights
  and capacities are integers, and a capacity that does not parse is `None`.
- A missing `totalDonations` on a stored donor, which the code reads as 0.
  Stored donors always have the field here.
- Unicode case mapping. `Text.Lower` lowers the ASCII letters only.
- JavaScript's sort algorithm. Sorting is modelled by its result, as a stable
  ascending sort.
- `Export.ExportFile`: dates, times and timestamps are exported as integers,
  because the model stores them as integers; the code exports the stored
  ISO strings and "HH:MM" texts.
- `Donation.BloodDonationSystem.EditAppointment`: the answers of the date and
  time dialogs are taken as already parsed; the code stores whatever text is
  entered.
- `Donation.BloodDonationSystem.UpdateRecentActivity`: the feed's messages,
  icons and colours are left out; an entry keeps its kind, names and time.
- Uniqueness, double-booking and resolved locations are preserved where they
  already hold, not guaranteed. Stored data may violate them. Editing an
  appointment can double-book a slot, and adding a recipient does not check
  that the location exists.
