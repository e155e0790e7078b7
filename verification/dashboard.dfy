/** The dashboard statistics: for a given month, the rent collected in it, the
    property and tenant counts, the tenants who moved in during it and the tenants
    with no payment in it. Each statistic is one SQL query over the tables; the
    month is a parameter instead of a read of the clock. */
module DashboardStats {
  import opened Wrappers
  import opened Dates
  import opened ListOps
  import opened Schema

  datatype Stats = Stats(
    totalRent: int,
    totalProperties: int,
    occupiedProperties: int,
    totalTenants: int,
    newTenants: int,
    pendingPayments: int)

  function Amount(p: Payment): int { p.amount }

  /** `WHERE date_paid >= start AND date_paid <= end` (and `BETWEEN start AND end`). */
  function PaidBetween(start: Date, end: Date): Payment -> bool
  {
    (p: Payment) => InRange(p.datePaid, start, end)
  }

  /** `WHERE move_in >= start AND move_in <= end`. */
  function MovedInBetween(start: Date, end: Date): Tenant -> bool
  {
    (t: Tenant) => InRange(t.moveIn, start, end)
  }

  /** `WHERE status = 'occupied'`. */
  function IsOccupied(p: Property): bool
  {
    p.status == Occupied
  }

  /** `SUM(amount)` over the selected payments: SQL's sum of no rows is NULL. */
  function SqlSum(ps: seq<Payment>): (r: Option<int>)
    ensures r.None? <==> ps == []
    ensures r.Some? ==> r.value == Sum(ps, Amount)
  {
    if ps == [] then None else Some(Sum(ps, Amount))
  }

  /** `COALESCE(x, 0)`. */
  function CoalesceZero(x: Option<int>): (n: int)
    ensures x.None? ==> n == 0
    ensures x.Some? ==> n == x.value
  {
    x.GetOr(0)
  }

  /** `Number(rows[0]?.field ?? 0)`: a missing first row or a NULL field reads as 0. */
  function FirstOrZero(rows: seq<Option<int>>): (n: int)
    ensures rows == [] || rows[0].None? ==> n == 0
    ensures rows != [] && rows[0].Some? ==> n == rows[0].value
  {
    if rows == [] then 0 else rows[0].GetOr(0)
  }

  /** The sub-select of the pending-payments query: the tenant ids of the payments
      dated in the range. */
  function PaidTenantIds(pays: seq<Payment>, start: Date, end: Date): (ids: set<int>)
    ensures forall p :: p in pays && InRange(p.datePaid, start, end) ==> p.tenantId in ids
    ensures forall id :: id in ids ==>
              exists p :: p in pays && InRange(p.datePaid, start, end) && p.tenantId == id
  {
    set p | p in pays && InRange(p.datePaid, start, end) :: p.tenantId
  }

  /** `WHERE id NOT IN (ids)`, with the ids assumed non-null. */
  function NotIn(ids: set<int>): Tenant -> bool
  {
    (t: Tenant) => t.id !in ids
  }

  function IsIn(ids: set<int>): Tenant -> bool
  {
    (t: Tenant) => t.id in ids
  }

  /** The tenants the pending-payments query counts. */
  function PendingTenants(ts: seq<Tenant>, pays: seq<Payment>, start: Date, end: Date): (r: seq<Tenant>)
    ensures |r| <= |ts|
    ensures forall i :: 0 <= i < |r| ==> r[i] in ts && r[i].id !in PaidTenantIds(pays, start, end)
    ensures forall i :: 0 <= i < |ts| && ts[i].id !in PaidTenantIds(pays, start, end) ==> ts[i] in r
  {
    Filter(ts, NotIn(PaidTenantIds(pays, start, end)))
  }

  /** The six statistics for month `m` of year `y`, each query's single result row
      read back through `Number(... ?? 0)`. */
  function Dashboard(ts: seq<Tenant>, props: seq<Property>, pays: seq<Payment>, y: int, m: int): (s: Stats)
    requires 1 <= m <= 12
    ensures s.totalProperties == |props| && s.totalTenants == |ts|
    ensures 0 <= s.occupiedProperties <= s.totalProperties
    ensures 0 <= s.newTenants <= s.totalTenants
    ensures 0 <= s.pendingPayments <= s.totalTenants
  {
    var range := MonthRange(y, m);
    var start := range.0;
    var end := range.1;
    Stats(
      totalRent := FirstOrZero([Some(CoalesceZero(SqlSum(Filter(pays, PaidBetween(start, end)))))]),
      totalProperties := FirstOrZero([Some(|props|)]),
      occupiedProperties := FirstOrZero([Some(Count(props, IsOccupied))]),
      totalTenants := FirstOrZero([Some(|ts|)]),
      newTenants := FirstOrZero([Some(Count(ts, MovedInBetween(start, end)))]),
      pendingPayments := FirstOrZero([Some(Count(ts, NotIn(PaidTenantIds(pays, start, end))))]))
  }

  // ------------------------------------------------------------------ properties

  /** A payment's amount when it is dated in month (y, m), else 0. */
  function AmountInMonth(y: int, m: int): Payment -> int
  {
    (p: Payment) => if p.datePaid.year == y && p.datePaid.month == m then p.amount else 0
  }

  predicate PaymentDatesValid(pays: seq<Payment>)
  {
    forall i :: 0 <= i < |pays| ==> ValidDate(pays[i].datePaid)
  }

  /** The rent collected is the sum of the amounts of the payments dated in the month,
      from its first to its last day inclusive. */
  lemma TotalRentIsMonthSum(ts: seq<Tenant>, props: seq<Property>, pays: seq<Payment>, y: int, m: int)
    requires 1 <= m <= 12 && PaymentDatesValid(pays)
    ensures Dashboard(ts, props, pays, y, m).totalRent == Sum(pays, AmountInMonth(y, m))
  {
    var range := MonthRange(y, m);
    var sel := Filter(pays, PaidBetween(range.0, range.1));
    SumFilter(pays, PaidBetween(range.0, range.1), Amount, AmountInMonth(y, m));
    if sel == [] {
      assert Sum(sel, Amount) == 0;
    }
  }

  /** With no payment in the month the rent collected is 0, not NULL. */
  lemma TotalRentZeroWithoutPayments(ts: seq<Tenant>, props: seq<Property>, pays: seq<Payment>, y: int, m: int)
    requires 1 <= m <= 12
    requires forall i :: 0 <= i < |pays| ==> !(pays[i].datePaid.year == y && pays[i].datePaid.month == m)
    ensures Dashboard(ts, props, pays, y, m).totalRent == 0
  {
  }

  /** With non-negative amounts the rent collected is non-negative. */
  lemma TotalRentNonNegative(ts: seq<Tenant>, props: seq<Property>, pays: seq<Payment>, y: int, m: int)
    requires 1 <= m <= 12
    requires forall i :: 0 <= i < |pays| ==> pays[i].amount >= 0
    ensures Dashboard(ts, props, pays, y, m).totalRent >= 0
  {
    var range := MonthRange(y, m);
    var sel := Filter(pays, PaidBetween(range.0, range.1));
    forall i | 0 <= i < |sel| ensures Amount(sel[i]) >= 0 {
      var j :| 0 <= j < |pays| && pays[j] == sel[i];
    }
    SumNonNegative(sel, Amount);
  }

  /** A tenant moved in during the month (y, m). */
  function MovedInMonth(y: int, m: int): Tenant -> bool
  {
    (t: Tenant) => t.moveIn.year == y && t.moveIn.month == m
  }

  predicate MoveInDatesValid(ts: seq<Tenant>)
  {
    forall i :: 0 <= i < |ts| ==> ValidDate(ts[i].moveIn)
  }

  /** `newTenants` counts the tenants whose move-in date lies in the month. */
  lemma NewTenantsInMonth(ts: seq<Tenant>, props: seq<Property>, pays: seq<Payment>, y: int, m: int)
    requires 1 <= m <= 12 && MoveInDatesValid(ts)
    ensures Dashboard(ts, props, pays, y, m).newTenants == Count(ts, MovedInMonth(y, m))
  {
    var range := MonthRange(y, m);
    CountAgree(ts, MovedInBetween(range.0, range.1), MovedInMonth(y, m));
  }

  /** `occupiedProperties` counts exactly the properties whose status is occupied. */
  lemma OccupiedIsFilter(ts: seq<Tenant>, props: seq<Property>, pays: seq<Payment>, y: int, m: int)
    requires 1 <= m <= 12
    ensures Dashboard(ts, props, pays, y, m).occupiedProperties == |Filter(props, IsOccupied)|
    ensures forall p :: p in Filter(props, IsOccupied) ==> p in props && p.status == Occupied
  {
    CountIsFilterLength(props, IsOccupied);
  }

  /** `pendingPayments` counts exactly the tenants with no payment in the month: a
      tenant with a payment in the range is never pending, one without always is. */
  lemma PendingAreUnpaid(ts: seq<Tenant>, props: seq<Property>, pays: seq<Payment>, y: int, m: int)
    requires 1 <= m <= 12
    ensures var range := MonthRange(y, m);
            var pending := PendingTenants(ts, pays, range.0, range.1);
            Dashboard(ts, props, pays, y, m).pendingPayments == |pending|
            && (forall t :: t in pending ==>
                  (t in ts && forall p :: p in pays && InRange(p.datePaid, range.0, range.1) ==> p.tenantId != t.id))
            && (forall t ::
                  (t in ts && forall p :: p in pays && InRange(p.datePaid, range.0, range.1) ==> p.tenantId != t.id)
                  ==> t in pending)
  {
    var range := MonthRange(y, m);
    var ids := PaidTenantIds(pays, range.0, range.1);
    CountIsFilterLength(ts, NotIn(ids));
    var pending := PendingTenants(ts, pays, range.0, range.1);
    forall t | t in ts && (forall p :: p in pays && InRange(p.datePaid, range.0, range.1) ==> p.tenantId != t.id)
      ensures t in pending
    {
      var i :| 0 <= i < |ts| && ts[i] == t;
      assert NotIn(ids)(ts[i]);
    }
  }

  /** The pending tenants and the tenants with a payment in the month together make up
      all tenants. */
  lemma PendingPlusPaying(ts: seq<Tenant>, props: seq<Property>, pays: seq<Payment>, y: int, m: int)
    requires 1 <= m <= 12
    ensures var range := MonthRange(y, m);
            Dashboard(ts, props, pays, y, m).pendingPayments
              + Count(ts, IsIn(PaidTenantIds(pays, range.0, range.1)))
            == Dashboard(ts, props, pays, y, m).totalTenants
  {
    var range := MonthRange(y, m);
    var ids := PaidTenantIds(pays, range.0, range.1);
    CountSplit(ts, NotIn(ids), IsIn(ids));
  }
}
