/** The Dashboard page: the shop and occupancy counts, the money collected
    and still due over both collections, and the few most recent records of
    the selected tab. */
module Dashboard {
  import opened Types
  import opened Seqs

  // ---------------------------------------------------------------------
  // Shops

  predicate IsOccupied(s: Shop)
  {
    s.status == Occupied
  }

  /** `shops.filter(s => s.status === 'Occupied').length` */
  function OccupiedShops(shops: seq<Shop>): (n: nat)
    ensures n <= |shops|
  {
    |Filter(shops, (s: Shop) => IsOccupied(s))|
  }

  /** Every shop counts as occupied exactly when every shop is occupied. */
  lemma FullOccupancy(shops: seq<Shop>)
    ensures OccupiedShops(shops) == |shops| <==> forall i :: 0 <= i < |shops| ==> shops[i].status == Occupied
  {
    FilterFull(shops, (s: Shop) => IsOccupied(s));
  }

  /** No shop counts as occupied exactly when none is. */
  lemma NoOccupancy(shops: seq<Shop>)
    ensures OccupiedShops(shops) == 0 <==> forall i :: 0 <= i < |shops| ==> shops[i].status != Occupied
  {
    var kept := Filter(shops, (s: Shop) => IsOccupied(s));
    if |kept| != 0 {
      assert kept[0] in kept;
    }
    if exists i :: 0 <= i < |shops| && shops[i].status == Occupied {
      var i :| 0 <= i < |shops| && shops[i].status == Occupied;
      assert shops[i] in kept;
    }
  }

  /** `totalShops > 0 ? Math.round((occupiedShops / totalShops) * 100) : 0`,
      with the quotient taken exactly: the nearest whole percentage, a
      half rounded up. */
  function OccupancyPercent(shops: seq<Shop>): (p: nat)
    ensures p <= 100
    ensures |shops| == 0 ==> p == 0
    ensures |shops| > 0 ==>
              2 * p * |shops| - |shops| <= 200 * OccupiedShops(shops) < 2 * p * |shops| + |shops|
  {
    var total := |shops|;
    if total == 0 then 0
    else
      var occupied := OccupiedShops(shops);
      RoundedPercent(occupied, total);
      (200 * occupied + total) / (2 * total)
  }

  /** `(200 * part + total) / (2 * total)` is the percentage `part` is of
      `total`, rounded to the nearest whole number with halves up. */
  lemma RoundedPercent(part: nat, total: nat)
    requires 0 < total && part <= total
    ensures var p := (200 * part + total) / (2 * total);
            0 <= p <= 100 && 2 * p * total - total <= 200 * part < 2 * p * total + total
  {
    var d := 2 * total;
    var n := 200 * part + total;
    QuotientBounds(n, d);
    var p := n / d;
    assert p * d == 2 * p * total by {
      assert p * d == p * (2 * total);
    }
    QuotientCap(n, d, 101);
  }

  lemma QuotientBounds(n: int, d: int)
    requires d > 0
    ensures (n / d) * d <= n < (n / d) * d + d
  {
    assert n == (n / d) * d + n % d;
  }

  /** A quotient below `c` when the dividend is below `c` divisors. */
  lemma QuotientCap(n: nat, d: int, c: nat)
    requires 0 < d && n < c * d
    ensures n / d < c
  {
    QuotientBounds(n, d);
  }

  // ---------------------------------------------------------------------
  // Money

  function CollectedOf(r: BillingRecord): int { r.Collected() }

  function DueOf(r: BillingRecord): int { r.Due() }

  function BalanceOf(r: BillingRecord): int { r.Balance() }

  /** `rentRecords.reduce(...(curr.collected || 0)...) + maintenanceCollections.reduce(...)`:
      never negative while no record's collected sum is. */
  function TotalRevenue(rent: seq<BillingRecord>, maintenance: seq<BillingRecord>): (t: int)
    ensures ((forall i :: 0 <= i < |rent| ==> rent[i].Collected() >= 0)
             && (forall i :: 0 <= i < |maintenance| ==> maintenance[i].Collected() >= 0))
            ==> t >= 0
  {
    SumNonNegative(rent, CollectedOf);
    SumNonNegative(maintenance, CollectedOf);
    Sum(rent, CollectedOf) + Sum(maintenance, CollectedOf)
  }

  /** `pendingRent + pendingMaintMoney`: every record's `(amount || 0) -
      (collected || 0)`, an overpaid record counting negative. The pending
      dues are what was billed less the revenue. */
  function PendingDues(rent: seq<BillingRecord>, maintenance: seq<BillingRecord>): (p: int)
    ensures p == Sum(rent, DueOf) + Sum(maintenance, DueOf) - TotalRevenue(rent, maintenance)
  {
    SumDifference(rent, DueOf, CollectedOf, BalanceOf);
    SumDifference(maintenance, DueOf, CollectedOf, BalanceOf);
    Sum(rent, BalanceOf) + Sum(maintenance, BalanceOf)
  }

  /** While no record is overpaid, nothing negative is pending. */
  lemma PendingNonNegative(rent: seq<BillingRecord>, maintenance: seq<BillingRecord>)
    requires forall i :: 0 <= i < |rent| ==> rent[i].Collected() <= rent[i].Due()
    requires forall i :: 0 <= i < |maintenance| ==> maintenance[i].Collected() <= maintenance[i].Due()
    ensures PendingDues(rent, maintenance) >= 0
  {
    SumNonNegative(rent, BalanceOf);
    SumNonNegative(maintenance, BalanceOf);
  }

  /** The pending total is not clamped at zero: one overpaid record makes
      it negative. */
  lemma PendingNotClamped(r: BillingRecord)
    requires r.Collected() > r.Due()
    ensures PendingDues([r], []) < 0
  {
    assert Sum([r], BalanceOf) == BalanceOf(r) + Sum([], BalanceOf);
  }

  // ---------------------------------------------------------------------
  // Recent records

  datatype Tab = RentTab | MaintenanceTab

  /** `activeTab === 'rent' ? rentRecords.slice(0, 5) : maintenanceCollections.slice(0, 5)` */
  function DisplayedRecords(tab: Tab, rent: seq<BillingRecord>, maintenance: seq<BillingRecord>)
    : (shown: seq<BillingRecord>)
    ensures var chosen := if tab == RentTab then rent else maintenance;
            |shown| == (if |chosen| < 5 then |chosen| else 5) && shown == chosen[..|shown|]
  {
    Take(if tab == RentTab then rent else maintenance, 5)
  }
}
