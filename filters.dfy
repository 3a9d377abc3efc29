/** The donor and recipient search: a case-insensitive substring search over
    name, email and blood type, combined by AND with exact-match filters.
    An empty search box or an empty filter matches every record. */
module Filters {
  import opened Seqs
  import opened Text
  import opened Records

  /** The search term (already lower-cased) is empty or occurs in one of the
      lower-cased searchable fields. */
  predicate MatchesSearch(term: string, name: string, email: string, bloodType: string)
  {
    term == "" || Contains(Lower(name), term) || Contains(Lower(email), term)
    || Contains(Lower(bloodType), term)
  }

  /** An exact-match filter: the empty choice ("All") matches everything. */
  predicate MatchesChoice(choice: string, value: string)
  {
    choice == "" || value == choice
  }

  predicate DonorMatches(d: Donor, term: string, bloodType: string)
  {
    MatchesSearch(term, d.name, d.email, d.bloodType) && MatchesChoice(bloodType, d.bloodType)
  }

  /** The donors table: `search` is the raw text of the search box, `bloodType`
      the blood-type filter. */
  function FilteredDonors(donors: seq<Donor>, search: string, bloodType: string): (r: seq<Donor>)
    ensures Subseq(r, donors)
    ensures forall d :: d in r <==> d in donors && DonorMatches(d, Lower(search), bloodType)
    ensures forall d :: multiset(r)[d] == if DonorMatches(d, Lower(search), bloodType) then multiset(donors)[d] else 0
    ensures search == "" && bloodType == "" ==> r == donors
  {
    var term := Lower(search);
    var p := (d: Donor) => DonorMatches(d, term, bloodType);
    FilterIsSubseq(donors, p);
    FilterCount(donors, p);
    if search == "" && bloodType == "" then FilterAll(donors, p); Filter(donors, p)
    else Filter(donors, p)
  }

  predicate RecipientMatches(r: Recipient, term: string, bloodType: string, priority: string,
                             location: string)
  {
    MatchesSearch(term, r.name, r.email, r.bloodType)
    && MatchesChoice(bloodType, r.bloodType)
    && MatchesChoice(priority, r.priority)
    && MatchesChoice(location, r.location)
  }

  /** The recipients table, with its blood-type, priority and location filters. */
  function FilteredRecipients(recipients: seq<Recipient>, search: string, bloodType: string,
                              priority: string, location: string): (r: seq<Recipient>)
    ensures Subseq(r, recipients)
    ensures forall x :: x in r <==>
      x in recipients && RecipientMatches(x, Lower(search), bloodType, priority, location)
    ensures forall x :: multiset(r)[x] == if RecipientMatches(x, Lower(search), bloodType, priority, location)
                                           then multiset(recipients)[x] else 0
    ensures search == "" && bloodType == "" && priority == "" && location == "" ==> r == recipients
  {
    var term := Lower(search);
    var p := (x: Recipient) => RecipientMatches(x, term, bloodType, priority, location);
    FilterIsSubseq(recipients, p);
    FilterCount(recipients, p);
    if search == "" && bloodType == "" && priority == "" && location == "" then
      FilterAll(recipients, p); Filter(recipients, p)
    else Filter(recipients, p)
  }

  /** What the search box accepts, stated without the scanning `Contains`: the
      term is empty or occurs somewhere in a lower-cased field. */
  ghost predicate SearchHit(term: string, name: string, email: string, bloodType: string)
  {
    term == ""
    || (exists i :: OccursAt(Lower(name), term, i))
    || (exists i :: OccursAt(Lower(email), term, i))
    || (exists i :: OccursAt(Lower(bloodType), term, i))
  }

  lemma SearchMeaning(term: string, name: string, email: string, bloodType: string)
    ensures MatchesSearch(term, name, email, bloodType) <==> SearchHit(term, name, email, bloodType)
  {
    ContainsIff(Lower(name), term);
    ContainsIff(Lower(email), term);
    ContainsIff(Lower(bloodType), term);
  }

  /** A donor is listed exactly when it is stored, the lower-cased search text
      occurs in its lower-cased name, email or blood type (or is empty), and the
      blood-type filter is empty or equal to its blood type. */
  lemma FilteredDonorsMeaning(donors: seq<Donor>, search: string, bloodType: string, d: Donor)
    ensures d in FilteredDonors(donors, search, bloodType) <==>
      d in donors && SearchHit(Lower(search), d.name, d.email, d.bloodType)
      && (bloodType == "" || d.bloodType == bloodType)
  {
    SearchMeaning(Lower(search), d.name, d.email, d.bloodType);
  }

  /** The same for recipients, with all four dimensions combined by AND. */
  lemma FilteredRecipientsMeaning(recipients: seq<Recipient>, search: string, bloodType: string,
                                  priority: string, location: string, x: Recipient)
    ensures x in FilteredRecipients(recipients, search, bloodType, priority, location) <==>
      x in recipients && SearchHit(Lower(search), x.name, x.email, x.bloodType)
      && (bloodType == "" || x.bloodType == bloodType)
      && (priority == "" || x.priority == priority)
      && (location == "" || x.location == location)
  {
    SearchMeaning(Lower(search), x.name, x.email, x.bloodType);
  }
}
