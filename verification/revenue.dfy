/** Revenue by property: every payment joined to its tenant and on to the tenant's
    properties (both joins are left joins), the joined rows grouped by property name
    with their amounts summed, and each group reported under its name, or under
    "Unknown" when the name is NULL. */
module RevenueByProperty {
  import opened Wrappers
  import opened ListOps
  import opened Schema
  import opened Aggregate

  datatype RevenueRow = RevenueRow(propertyName: string, totalRevenue: int)

  /** A joined row: the property name (NULL when a join found nothing) and the amount. */
  type JoinRow = Entry<Option<string>>

  /** `ON payments.tenant_id = tenants.id`. */
  function HasId(id: int): Tenant -> bool
  {
    (t: Tenant) => t.id == id
  }

  /** `ON tenants.id = properties.tenant_id`. */
  function LinkedTo(id: int): Property -> bool
  {
    (p: Property) => p.tenantId == Some(id)
  }

  /** One joined row per linked property, each carrying the payment's whole amount. */
  function PropertyRows(linked: seq<Property>, amount: int): (r: seq<JoinRow>)
    ensures |r| == |linked|
    ensures forall i :: 0 <= i < |r| ==> r[i] == Entry(Some(linked[i].name), amount)
  {
    if linked == [] then []
    else [Entry(Some(linked[0].name), amount)] + PropertyRows(linked[1..], amount)
  }

  /** The second left join for one joined tenant: a row per property linked to it, or a
      single row with a NULL name when there is none. */
  function TenantRows(t: Tenant, amount: int, props: seq<Property>): (r: seq<JoinRow>)
    ensures |r| >= 1
  {
    var linked := Filter(props, LinkedTo(t.id));
    if linked == [] then [Entry(None, amount)] else PropertyRows(linked, amount)
  }

  function TenantsRows(matched: seq<Tenant>, amount: int, props: seq<Property>): (r: seq<JoinRow>)
    ensures |r| >= |matched|
  {
    if matched == [] then []
    else TenantRows(matched[0], amount, props) + TenantsRows(matched[1..], amount, props)
  }

  /** Both left joins for one payment: a payment whose tenant is missing still yields
      one row, with a NULL name. */
  function PaymentRows(p: Payment, ts: seq<Tenant>, props: seq<Property>): (r: seq<JoinRow>)
    ensures |r| >= 1
  {
    var matched := Filter(ts, HasId(p.tenantId));
    if matched == [] then [Entry(None, p.amount)] else TenantsRows(matched, p.amount, props)
  }

  /** `FROM payments LEFT JOIN tenants ... LEFT JOIN properties ...`. */
  function JoinRows(pays: seq<Payment>, ts: seq<Tenant>, props: seq<Property>): (r: seq<JoinRow>)
    ensures |r| >= |pays|
  {
    if pays == [] then [] else PaymentRows(pays[0], ts, props) + JoinRows(pays[1..], ts, props)
  }

  /** `r.propertyName ?? "Unknown"`. */
  function NameOrUnknown(k: Option<string>): string
  {
    if k.Some? then k.value else "Unknown"
  }

  /** The `map` over the grouped rows. The sum of a group is never NULL (a group has at
      least one row and amounts are NOT NULL), so `totalRevenue ?? 0` keeps it. */
  function Normalize(groups: seq<JoinRow>): (r: seq<RevenueRow>)
    ensures |r| == |groups|
    ensures forall i :: 0 <= i < |r| ==>
              r[i] == RevenueRow(NameOrUnknown(groups[i].key), groups[i].amount)
  {
    if groups == [] then []
    else [RevenueRow(NameOrUnknown(groups[0].key), groups[0].amount)] + Normalize(groups[1..])
  }

  /** The grouped query, groups in the order their names first occur (SQL leaves the
      order of an unordered `GROUP BY` open). */
  function RevenueGroups(pays: seq<Payment>, ts: seq<Tenant>, props: seq<Property>): seq<JoinRow>
  {
    GroupByKey(JoinRows(pays, ts, props))
  }

  function Revenue(pays: seq<Payment>, ts: seq<Tenant>, props: seq<Property>): (r: seq<RevenueRow>)
    ensures Sum(r, RowRevenue) == Total(JoinRows(pays, ts, props))
    ensures r == [] <==> pays == []
  {
    var rows := JoinRows(pays, ts, props);
    GroupByKeyCorrect(rows);
    NormalizeKeepsTotal(GroupByKey(rows));
    assert rows != [] ==> rows[0].key in Keys(rows);
    assert GroupByKey(rows) != [] ==> GroupByKey(rows)[0].key in Keys(GroupByKey(rows));
    Normalize(RevenueGroups(pays, ts, props))
  }

  // ------------------------------------------------------------------ properties

  /** One row per distinct property name reached by the joins (NULL reported as
      "Unknown"), each carrying the sum of the amounts joined to that name. */
  lemma RevenueRowsAreGroups(pays: seq<Payment>, ts: seq<Tenant>, props: seq<Property>)
    ensures var groups := RevenueGroups(pays, ts, props);
            var rows := Revenue(pays, ts, props);
            DistinctKeys(groups)
            && Keys(groups) == Keys(JoinRows(pays, ts, props))
            && |rows| == |groups|
            && forall i :: 0 <= i < |rows| ==>
                 rows[i].propertyName == NameOrUnknown(groups[i].key)
                 && rows[i].totalRevenue == SumFor(JoinRows(pays, ts, props), groups[i].key)
  {
    GroupByKeyCorrect(JoinRows(pays, ts, props));
  }

  /** Tenant ids are a primary key, and no tenant is linked to two properties. */
  predicate UniqueLinks(ts: seq<Tenant>, props: seq<Property>)
  {
    DistinctBy(ts, TenantKey)
    && forall i, j :: 0 <= i < j < |props| && props[i].tenantId.Some? ==> props[i].tenantId != props[j].tenantId
  }

  /** The name of the property the payment's tenant is linked to, or NULL. */
  function LinkedName(p: Payment, ts: seq<Tenant>, props: seq<Property>): Option<string>
  {
    var matched := Filter(ts, HasId(p.tenantId));
    if matched == [] then None
    else
      var linked := Filter(props, LinkedTo(matched[0].id));
      if linked == [] then None else Some(linked[0].name)
  }

  /** With unique links each payment yields exactly one joined row. */
  lemma PaymentRowsUnique(p: Payment, ts: seq<Tenant>, props: seq<Property>)
    requires UniqueLinks(ts, props)
    ensures PaymentRows(p, ts, props) == [Entry(LinkedName(p, ts, props), p.amount)]
  {
    var matched := Filter(ts, HasId(p.tenantId));
    AtMostOneKept(ts, HasId(p.tenantId));
    if matched != [] {
      var t := matched[0];
      AtMostOneKept(props, LinkedTo(t.id));
      assert matched[1..] == [];
      assert TenantsRows(matched, p.amount, props) == TenantRows(t, p.amount, props) + [];
    }
  }

  /** A payment's amount when the joins take it to the given name, else 0. */
  function AmountUnder(k: Option<string>, ts: seq<Tenant>, props: seq<Property>): Payment -> int
  {
    (p: Payment) => if LinkedName(p, ts, props) == k then p.amount else 0
  }

  function Amount(p: Payment): int { p.amount }

  lemma {:induction false} JoinRowsUnique(pays: seq<Payment>, ts: seq<Tenant>, props: seq<Property>)
    requires UniqueLinks(ts, props)
    ensures Total(JoinRows(pays, ts, props)) == Sum(pays, Amount)
    ensures forall k :: SumFor(JoinRows(pays, ts, props), k) == Sum(pays, AmountUnder(k, ts, props))
  {
    if pays != [] {
      JoinRowsUnique(pays[1..], ts, props);
      var head := PaymentRows(pays[0], ts, props);
      var tail := JoinRows(pays[1..], ts, props);
      PaymentRowsUnique(pays[0], ts, props);
      TotalAppend(head, tail);
      assert head[1..] == [];
      forall k ensures SumFor(JoinRows(pays, ts, props), k) == Sum(pays, AmountUnder(k, ts, props)) {
        SumForAppend(head, tail, k);
      }
    }
  }

  /** With unique links a row's revenue is the sum of the payments whose tenant is
      linked to a property of that name ("Unknown": to none). */
  lemma RevenueIsLinkedSum(pays: seq<Payment>, ts: seq<Tenant>, props: seq<Property>)
    requires UniqueLinks(ts, props)
    ensures var groups := RevenueGroups(pays, ts, props);
            var rows := Revenue(pays, ts, props);
            forall i :: 0 <= i < |rows| ==>
              rows[i].totalRevenue == Sum(pays, AmountUnder(groups[i].key, ts, props))
  {
    RevenueRowsAreGroups(pays, ts, props);
    JoinRowsUnique(pays, ts, props);
  }

  function RowRevenue(r: RevenueRow): int { r.totalRevenue }

  lemma {:induction false} NormalizeKeepsTotal(groups: seq<JoinRow>)
    ensures Sum(Normalize(groups), RowRevenue) == Total(groups)
  {
    if groups != [] {
      NormalizeKeepsTotal(groups[1..]);
      assert Normalize(groups)[1..] == Normalize(groups[1..]);
    }
  }

  /** With unique links the rows' revenues add up to the sum of all payments. */
  lemma RevenueAddsUp(pays: seq<Payment>, ts: seq<Tenant>, props: seq<Property>)
    requires UniqueLinks(ts, props)
    ensures Sum(Revenue(pays, ts, props), RowRevenue) == Sum(pays, Amount)
  {
    GroupByKeyCorrect(JoinRows(pays, ts, props));
    NormalizeKeepsTotal(RevenueGroups(pays, ts, props));
    JoinRowsUnique(pays, ts, props);
  }

  /** A payment by a tenant linked to several properties is counted once under each
      of them: its joined rows carry its whole amount once per linked property. */
  lemma PaymentCountedPerProperty(p: Payment, t: Tenant, ts: seq<Tenant>, props: seq<Property>)
    requires DistinctBy(ts, TenantKey) && t in ts && t.id == p.tenantId
    ensures var linked := Filter(props, LinkedTo(t.id));
            linked != [] ==> PaymentRows(p, ts, props) == PropertyRows(linked, p.amount)
                             && Total(PaymentRows(p, ts, props)) == |linked| * p.amount
  {
    var matched := Filter(ts, HasId(p.tenantId));
    AtMostOneKept(ts, HasId(p.tenantId));
    var linked := Filter(props, LinkedTo(t.id));
    assert matched != [];
    var i :| 0 <= i < |ts| && ts[i] == matched[0];
    var j :| 0 <= j < |ts| && ts[j] == t;
    assert matched[0] == t;
    assert matched[1..] == [];
    assert TenantsRows(matched, p.amount, props) == TenantRows(t, p.amount, props) + [];
    PropertyRowsTotal(linked, p.amount);
  }

  lemma {:induction false} PropertyRowsTotal(linked: seq<Property>, amount: int)
    ensures Total(PropertyRows(linked, amount)) == |linked| * amount
  {
    if linked != [] {
      PropertyRowsTotal(linked[1..], amount);
      assert PropertyRows(linked, amount)[1..] == PropertyRows(linked[1..], amount);
    }
  }

  /** A property literally named "Unknown" and the NULL group are two rows reported
      under the same name: here tenant 1 rents the property "Unknown" and tenant 2,
      who pays too, rents no property. */
  lemma UnknownNameCollides()
    ensures var t1 := Tenant(1, "A", "1", "a@b", 100, "active", Dates.Date(2025, 1, 1), Dates.Date(2025, 12, 31), None, 0);
            var t2 := Tenant(2, "B", "2", "b@c", 100, "active", Dates.Date(2025, 1, 1), Dates.Date(2025, 12, 31), None, 0);
            var home := Property(1, "Unknown", "Main St", 100, Occupied, Some(1), None, 0, 0);
            var pays := [Payment(1, 1, 5, Dates.Date(2025, 1, 3)), Payment(2, 2, 7, Dates.Date(2025, 1, 4))];
            Revenue(pays, [t1, t2], [home]) == [RevenueRow("Unknown", 5), RevenueRow("Unknown", 7)]
  {
    var t1 := Tenant(1, "A", "1", "a@b", 100, "active", Dates.Date(2025, 1, 1), Dates.Date(2025, 12, 31), None, 0);
    var t2 := Tenant(2, "B", "2", "b@c", 100, "active", Dates.Date(2025, 1, 1), Dates.Date(2025, 12, 31), None, 0);
    var home := Property(1, "Unknown", "Main St", 100, Occupied, Some(1), None, 0, 0);
    var pays := [Payment(1, 1, 5, Dates.Date(2025, 1, 3)), Payment(2, 2, 7, Dates.Date(2025, 1, 4))];
    var rows := [Entry(Some("Unknown"), 5), Entry(None, 7)];
    CollisionJoin(t1, t2, home, pays);
    GroupTwoDistinct(rows[0], rows[1]);
    assert Normalize(rows)[0] == RevenueRow("Unknown", 5) && Normalize(rows)[1] == RevenueRow("Unknown", 7);
  }

  lemma CollisionJoin(t1: Tenant, t2: Tenant, home: Property, pays: seq<Payment>)
    requires t1 == Tenant(1, "A", "1", "a@b", 100, "active", Dates.Date(2025, 1, 1), Dates.Date(2025, 12, 31), None, 0)
    requires t2 == Tenant(2, "B", "2", "b@c", 100, "active", Dates.Date(2025, 1, 1), Dates.Date(2025, 12, 31), None, 0)
    requires home == Property(1, "Unknown", "Main St", 100, Occupied, Some(1), None, 0, 0)
    requires pays == [Payment(1, 1, 5, Dates.Date(2025, 1, 3)), Payment(2, 2, 7, Dates.Date(2025, 1, 4))]
    ensures JoinRows(pays, [t1, t2], [home]) == [Entry(Some("Unknown"), 5), Entry(None, 7)]
  {
    var ts := [t1, t2];
    var p1, p2 := pays[0], pays[1];
    assert [t2][1..] == [] && ts[1..] == [t2];
    assert Filter([t2], HasId(1)) == [];
    assert Filter(ts, HasId(1)) == [t1];
    assert Filter([t2], HasId(2)) == [t2];
    assert Filter(ts, HasId(2)) == [t2];
    assert Filter([home], LinkedTo(1)) == [home];
    assert Filter([home], LinkedTo(2)) == [];
    assert TenantRows(t1, 5, [home]) == [Entry(Some("Unknown"), 5)];
    assert TenantRows(t2, 7, [home]) == [Entry(None, 7)];
    assert [t1][1..] == [];
    assert TenantsRows([t1], 5, [home]) == TenantRows(t1, 5, [home]) + TenantsRows([], 5, [home]);
    assert TenantsRows([t2], 7, [home]) == TenantRows(t2, 7, [home]) + TenantsRows([], 7, [home]);
    assert PaymentRows(p1, ts, [home]) == [Entry(Some("Unknown"), 5)];
    assert PaymentRows(p2, ts, [home]) == [Entry(None, 7)];
    assert pays[1..] == [p2] && [p2][1..] == [];
    assert JoinRows([p2], ts, [home]) == [Entry(None, 7)] + JoinRows([], ts, [home]);
  }

}
