/** Aggregation over the inventory and the donor list: the per-type stock of
    usable units and its classification, the dashboard counters, the alerts
    and the donors' blood-type distribution. */
module Reports {
  import opened Seqs
  import opened Records

  /** A unit counts as stock of `bloodType` when it has that type, its status is
      `available`, and its expiry date lies after the present moment. */
  predicate IsAvailable(u: BloodUnit, bloodType: string, now: Instant)
  {
    u.bloodType == bloodType && u.status == "available" && DayStart(u.expiryDate) > now
  }

  /** The number of usable units of one blood type. */
  function AvailableCount(inventory: seq<BloodUnit>, bloodType: string, now: Instant): (n: nat)
    ensures n <= |inventory|
    ensures n == 0 <==> forall u :: u in inventory ==> !IsAvailable(u, bloodType, now)
  {
    var usable := Filter(inventory, u => IsAvailable(u, bloodType, now));
    assert usable != [] ==> usable[0] in usable;
    |usable|
  }

  /** Replacing one unit changes a type's stock by what the old and the new unit contribute. */
  lemma AvailableCountUpdate(inventory: seq<BloodUnit>, k: nat, unit: BloodUnit, bloodType: string, now: Instant)
    requires k < |inventory|
    ensures AvailableCount(inventory[k := unit], bloodType, now)
        + (if IsAvailable(inventory[k], bloodType, now) then 1 else 0)
      == AvailableCount(inventory, bloodType, now) + (if IsAvailable(unit, bloodType, now) then 1 else 0)
  {
    FilterUpdateCount(inventory, k, unit, u => IsAvailable(u, bloodType, now));
  }

  datatype Level = Critical | LowStock | Normal

  /** The class of a blood-type card: no unit is critical, fewer than five is low. */
  function Classify(count: nat): Level
  {
    if count == 0 then Critical else if count < 5 then LowStock else Normal
  }

  /** The level of a type says how many usable units of it exist: none, some but
      fewer than five, or five and more. */
  lemma LevelMeaning(inventory: seq<BloodUnit>, bloodType: string, now: Instant)
    ensures var level := Classify(AvailableCount(inventory, bloodType, now));
      && (level == Critical <==> forall u :: u in inventory ==> !IsAvailable(u, bloodType, now))
      && (level == LowStock <==>
            (exists u :: u in inventory && IsAvailable(u, bloodType, now))
            && AvailableCount(inventory, bloodType, now) < 5)
      && (level == Normal <==> AvailableCount(inventory, bloodType, now) >= 5)
  {
  }

  /** The blood-type cards: one per type, in the order of `BloodTypes`, each with
      the type's stock and a level that reads: critical when no unit of the type
      is usable, low when some but fewer than five are, normal from five on. */
  function TypeStats(inventory: seq<BloodUnit>, now: Instant): (cards: seq<(string, nat, Level)>)
    ensures |cards| == |BloodTypes|
    ensures forall i :: 0 <= i < |cards| ==>
      && cards[i].0 == BloodTypes[i]
      && cards[i].1 == AvailableCount(inventory, BloodTypes[i], now)
      && (cards[i].2 == Critical <==> forall u :: u in inventory ==> !IsAvailable(u, BloodTypes[i], now))
      && (cards[i].2 == LowStock <==>
            (exists u :: u in inventory && IsAvailable(u, BloodTypes[i], now)) && cards[i].1 < 5)
      && (cards[i].2 == Normal <==> cards[i].1 >= 5)
  {
    seq(|BloodTypes|, i requires 0 <= i < |BloodTypes| =>
      var n := AvailableCount(inventory, BloodTypes[i], now); (BloodTypes[i], n, Classify(n)))
  }

  /** The types among `types` with fewer than five usable units. */
  function LowTypes(inventory: seq<BloodUnit>, now: Instant, types: seq<string>): (r: seq<string>)
    ensures Subseq(r, types)
    ensures forall t :: t in r <==> t in types && AvailableCount(inventory, t, now) < 5
    ensures forall t :: multiset(r)[t] == if AvailableCount(inventory, t, now) < 5 then multiset(types)[t] else 0
  {
    var p := (t: string) => AvailableCount(inventory, t, now) < 5;
    FilterIsSubseq(types, p);
    FilterCount(types, p);
    Filter(types, p)
  }

  /** The dashboard's "low stock" figure: how many of the eight types are below five. */
  function LowStockCount(inventory: seq<BloodUnit>, now: Instant): (n: nat)
    ensures n <= |BloodTypes|
  {
    |LowTypes(inventory, now, BloodTypes)|
  }

  /** A unit is overdue when its expiry date is already past and it was not used. */
  predicate IsOverdue(u: BloodUnit, now: Instant)
  {
    DayStart(u.expiryDate) < now && u.status != "used"
  }

  function OverdueCount(inventory: seq<BloodUnit>, now: Instant): (n: nat)
    ensures n <= |inventory|
    ensures n == 0 <==> forall u :: u in inventory ==> !IsOverdue(u, now)
  {
    var overdue := Filter(inventory, u => IsOverdue(u, now));
    assert overdue != [] ==> overdue[0] in overdue;
    |overdue|
  }

  /** An alert of the dashboard: a low (or, with no units, critical) stock of one
      type, or the number of overdue units. */
  datatype Alert = LowStockAlert(bloodType: string, units: nat) | OverdueAlert(units: nat)

  /** The stock alerts raised for `types`, in their order. */
  function StockAlerts(inventory: seq<BloodUnit>, now: Instant, types: seq<string>): seq<Alert>
  {
    if types == [] then []
    else
      var t := types[|types| - 1];
      var n := AvailableCount(inventory, t, now);
      StockAlerts(inventory, now, types[..|types| - 1]) + (if n < 5 then [LowStockAlert(t, n)] else [])
  }

  function OverdueAlerts(inventory: seq<BloodUnit>, now: Instant): seq<Alert>
  {
    var n := OverdueCount(inventory, now);
    if n > 0 then [OverdueAlert(n)] else []
  }

  /** The alerts panel: one alert per type below five units, in the order of
      `BloodTypes`, then one alert counting the overdue units if there are any. */
  method ComputeAlerts(inventory: seq<BloodUnit>, now: Instant) returns (alerts: seq<Alert>)
    ensures alerts == StockAlerts(inventory, now, BloodTypes) + OverdueAlerts(inventory, now)
  {
    alerts := [];
    for i := 0 to |BloodTypes|
      invariant alerts == StockAlerts(inventory, now, BloodTypes[..i])
    {
      var t := BloodTypes[i];
      var available := AvailableCount(inventory, t, now);
      if available == 0 {
        alerts := alerts + [LowStockAlert(t, 0)];
      } else if available < 5 {
        alerts := alerts + [LowStockAlert(t, available)];
      }
      assert BloodTypes[..i + 1][..i] == BloodTypes[..i];
    }
    assert BloodTypes[..|BloodTypes|] == BloodTypes;
    var overdue := OverdueCount(inventory, now);
    if overdue > 0 {
      alerts := alerts + [OverdueAlert(overdue)];
    }
  }

  /** A stock alert for `t` carrying `n` units is raised exactly when `t` is one of
      the listed types, `n` is its usable count, and `n` is below five. */
  lemma {:induction false} StockAlertIff(inventory: seq<BloodUnit>, now: Instant, types: seq<string>,
                                         t: string, n: nat)
    ensures LowStockAlert(t, n) in StockAlerts(inventory, now, types) <==>
      t in types && n == AvailableCount(inventory, t, now) && n < 5
  {
    if types != [] {
      var init := types[..|types| - 1];
      StockAlertIff(inventory, now, init, t, n);
      assert types == init + [types[|types| - 1]];
    }
  }

  /** There are as many stock alerts as types below five units. */
  lemma {:induction false} StockAlertCount(inventory: seq<BloodUnit>, now: Instant, types: seq<string>)
    ensures |StockAlerts(inventory, now, types)| == |LowTypes(inventory, now, types)|
  {
    if types != [] {
      var init, last := types[..|types| - 1], types[|types| - 1];
      StockAlertCount(inventory, now, init);
      assert types == init + [last];
      FilterAppend(init, [last], (t: string) => AvailableCount(inventory, t, now) < 5);
    }
  }

  /** The dashboard's low-stock figure equals the number of stock alerts, and is at most eight. */
  lemma AlertsAgreeWithDashboard(inventory: seq<BloodUnit>, now: Instant)
    ensures |StockAlerts(inventory, now, BloodTypes)| == LowStockCount(inventory, now) <= 8
  {
    StockAlertCount(inventory, now, BloodTypes);
  }

  /** The dashboard's "upcoming appointments": scheduled ones whose day has not begun yet. */
  function UpcomingCount(appointments: seq<Appointment>, now: Instant): (n: nat)
    ensures n <= |appointments|
    ensures n == 0 <==> forall a :: a in appointments ==>
      a.status != Scheduled || DayStart(a.date) < now
  {
    var upcoming := Filter(appointments, (a: Appointment) => a.status == Scheduled && DayStart(a.date) >= now);
    assert upcoming != [] ==> upcoming[0] in upcoming;
    |upcoming|
  }

  /** The number of donors of blood type `t`. */
  function CountType(donors: seq<Donor>, t: string): nat
  {
    if donors == [] then 0
    else (if donors[0].bloodType == t then 1 else 0) + CountType(donors[1..], t)
  }

  /** The number of donors whose blood type is one of `types`. */
  function CountIn(donors: seq<Donor>, types: seq<string>): (n: nat)
    ensures n <= |donors|
  {
    if donors == [] then 0
    else (if donors[0].bloodType in types then 1 else 0) + CountIn(donors[1..], types)
  }

  /** The doughnut chart's data: the number of donors of each type, in the order of `types`. */
  function TypeDistribution(donors: seq<Donor>, types: seq<string>): (r: seq<nat>)
    ensures |r| == |types|
  {
    if types == [] then [] else [CountType(donors, types[0])] + TypeDistribution(donors, types[1..])
  }

  function Sum(s: seq<nat>): nat
  {
    if s == [] then 0 else s[0] + Sum(s[1..])
  }

  predicate Distinct(types: seq<string>)
  {
    forall i, j :: 0 <= i < j < |types| ==> types[i] != types[j]
  }

  lemma {:induction false} CountInCons(donors: seq<Donor>, types: seq<string>)
    requires types != [] && types[0] !in types[1..]
    ensures CountIn(donors, types) == CountType(donors, types[0]) + CountIn(donors, types[1..])
  {
    if donors != [] {
      CountInCons(donors[1..], types);
      var b := donors[0].bloodType;
      assert b in types <==> b == types[0] || b in types[1..];
    }
  }

  /** Each donor whose type is listed falls in exactly one slice of the chart:
      the slices add up to the number of such donors. */
  lemma {:induction false} DistributionTotal(donors: seq<Donor>, types: seq<string>)
    requires Distinct(types)
    ensures Sum(TypeDistribution(donors, types)) == CountIn(donors, types)
  {
    if types == [] {
      CountInEmpty(donors, types);
    } else {
      DistributionTotal(donors, types[1..]);
      CountInCons(donors, types);
    }
  }

  lemma {:induction false} CountInEmpty(donors: seq<Donor>, types: seq<string>)
    requires types == []
    ensures CountIn(donors, types) == 0
  {
    if donors != [] {
      CountInEmpty(donors[1..], types);
    }
  }

  /** The position of a canonical type in `BloodTypes`, read off its letters and sign. */
  function TypeIndex(t: string): int
  {
    if |t| < 2 then -1
    else
      var letters := if t[0] == 'A' && t[1] == 'B' then 4 else if t[0] == 'A' then 0
                     else if t[0] == 'B' then 2 else 6;
      letters + (if t[|t| - 1] == '-' then 1 else 0)
  }

  /** The eight canonical types are pairwise different. */
  lemma BloodTypesDistinct()
    ensures Distinct(BloodTypes)
  {
    assert forall i :: 0 <= i < |BloodTypes| ==> TypeIndex(BloodTypes[i]) == i by {
      assert TypeIndex(BloodTypes[0]) == 0 && TypeIndex(BloodTypes[1]) == 1;
      assert TypeIndex(BloodTypes[2]) == 2 && TypeIndex(BloodTypes[3]) == 3;
      assert TypeIndex(BloodTypes[4]) == 4 && TypeIndex(BloodTypes[5]) == 5;
      assert TypeIndex(BloodTypes[6]) == 6 && TypeIndex(BloodTypes[7]) == 7;
    }
  }

  /** For the eight canonical types: the chart never shows more donors than exist. */
  lemma BloodTypeChartTotal(donors: seq<Donor>)
    ensures Sum(TypeDistribution(donors, BloodTypes)) == CountIn(donors, BloodTypes) <= |donors|
  {
    BloodTypesDistinct();
    DistributionTotal(donors, BloodTypes);
  }
}
