/** The relational schema: the property-status enum with its default, the tenants and
    properties tables with serial ids, the payments table, and the foreign-key policy
    (`properties.tenant_id ... on delete set null`), as a store holding the tables. */
module Schema {
  import opened Wrappers
  import opened Dates
  import opened ListOps

  /** The `property_status` enum. */
  datatype PropertyStatus = Available | Occupied | UnderMaintenance

  function StatusLabel(s: PropertyStatus): string
  {
    match s
    case Available => "available"
    case Occupied => "occupied"
    case UnderMaintenance => "under_maintenance"
  }

  /** The database's reading of a text value as a `property_status`: only the three
      labels are accepted. */
  function ParseStatus(text: string): (r: Option<PropertyStatus>)
    ensures r.Some? <==> text == "available" || text == "occupied" || text == "under_maintenance"
    ensures r.Some? ==> StatusLabel(r.value) == text
  {
    if text == "available" then Some(Available)
    else if text == "occupied" then Some(Occupied)
    else if text == "under_maintenance" then Some(UnderMaintenance)
    else None
  }

  /** The column default of `properties.status`. */
  const DefaultStatus: PropertyStatus := Available

  /** A timestamp, as read from the clock at insert time. */
  type Timestamp = int

  /** A row of `tenants`: every column except `notes` is NOT NULL. */
  datatype Tenant = Tenant(
    id: int, fullName: string, phone: string, email: string, rent: int, status: string,
    moveIn: Date, moveOut: Date, notes: Option<string>, createdAt: Timestamp)

  /** A row of `properties`: `tenantId` and `notes` are the nullable columns. */
  datatype Property = Property(
    id: int, name: string, address: string, rentAmount: int, status: PropertyStatus,
    tenantId: Option<int>, notes: Option<string>, createdAt: Timestamp, updatedAt: Timestamp)

  /** A row of `payments` (the columns the handlers and reports use). */
  datatype Payment = Payment(id: int, tenantId: int, amount: int, datePaid: Date)

  function TenantKey(t: Tenant): int { t.id }
  function PropertyKey(p: Property): int { p.id }
  function PaymentKey(p: Payment): int { p.id }

  /** The varchar length limits of `tenants`. */
  predicate TenantFits(fullName: string, phone: string, email: string, status: string)
  {
    |fullName| <= 255 && |phone| <= 50 && |email| <= 255 && |status| <= 50
  }

  function TenantIds(ts: seq<Tenant>): set<int>
  {
    set t | t in ts :: t.id
  }

  /** Every key is a value the serial counter has already handed out. */
  predicate KeysBelow<T>(s: seq<T>, key: T -> int, next: int)
  {
    forall i :: 0 <= i < |s| ==> 1 <= key(s[i]) < next
  }

  lemma KeysBelowRaise<T>(s: seq<T>, key: T -> int, next: int, next': int)
    requires KeysBelow(s, key, next) && next <= next'
    ensures KeysBelow(s, key, next')
  {
  }

  lemma KeysBelowAppend<T>(s: seq<T>, key: T -> int, next: int, x: T)
    requires KeysBelow(s, key, next) && DistinctBy(s, key) && key(x) == next && 1 <= next
    ensures KeysBelow(s + [x], key, next + 1) && DistinctBy(s + [x], key)
  {
    assert forall i :: 0 <= i < |s| ==> (s + [x])[i] == s[i];
  }

  lemma KeysBelowFilter<T>(s: seq<T>, keep: T -> bool, key: T -> int, next: int)
    requires KeysBelow(s, key, next) && DistinctBy(s, key)
    ensures KeysBelow(Filter(s, keep), key, next) && DistinctBy(Filter(s, keep), key)
  {
    FilterDistinct(s, keep, key);
  }

  /** `ON DELETE SET NULL`: every property that referenced the tenant loses the link. */
  function DetachTenant(ps: seq<Property>, tenantId: int): (r: seq<Property>)
    ensures |r| == |ps|
    ensures forall i :: 0 <= i < |ps| ==>
      r[i].tenantId == if ps[i].tenantId == Some(tenantId) then None else ps[i].tenantId
    ensures forall i :: 0 <= i < |ps| ==> r[i] == ps[i].(tenantId := r[i].tenantId)
  {
    if ps == [] then []
    else
      var p := ps[0];
      [if p.tenantId == Some(tenantId) then p.(tenantId := None) else p]
        + DetachTenant(ps[1..], tenantId)
  }

  function RemoveTenant(ts: seq<Tenant>, id: int): seq<Tenant>
  {
    Filter(ts, (t: Tenant) => t.id != id)
  }

  function RemoveProperty(ps: seq<Property>, id: int): seq<Property>
  {
    Filter(ps, (p: Property) => p.id != id)
  }

  function RemovePaymentsOf(ps: seq<Payment>, tenantId: int): seq<Payment>
  {
    Filter(ps, (p: Payment) => p.tenantId != tenantId)
  }

  /** The integrity the database maintains over its three tables and serials. */
  ghost predicate Consistent(tenants: seq<Tenant>, properties: seq<Property>, payments: seq<Payment>,
                             tenantSerial: int, propertySerial: int, paymentSerial: int)
  {
    && 1 <= tenantSerial && 1 <= propertySerial && 1 <= paymentSerial
    && KeysBelow(tenants, TenantKey, tenantSerial) && DistinctBy(tenants, TenantKey)
    && KeysBelow(properties, PropertyKey, propertySerial) && DistinctBy(properties, PropertyKey)
    && KeysBelow(payments, PaymentKey, paymentSerial) && DistinctBy(payments, PaymentKey)
    && (forall i :: 0 <= i < |properties| && properties[i].tenantId.Some? ==>
          properties[i].tenantId.value in TenantIds(tenants))
    && (forall i :: 0 <= i < |payments| ==> payments[i].tenantId in TenantIds(tenants))
  }

  /** Deleting a tenant with the set-null and cascade rules keeps the tables consistent. */
  lemma DeleteTenantConsistent(tenants: seq<Tenant>, properties: seq<Property>, payments: seq<Payment>,
                               ts: int, ps: int, pays: int, id: int)
    requires Consistent(tenants, properties, payments, ts, ps, pays)
    ensures Consistent(RemoveTenant(tenants, id), DetachTenant(properties, id),
                       RemovePaymentsOf(payments, id), ts, ps, pays)
  {
    KeysBelowFilter(tenants, (t: Tenant) => t.id != id, TenantKey, ts);
    KeysBelowFilter(payments, (p: Payment) => p.tenantId != id, PaymentKey, pays);
    SurvivingTenants(tenants, id);
    var props := DetachTenant(properties, id);
    assert forall i :: 0 <= i < |props| ==> props[i].id == properties[i].id;
    var pms := RemovePaymentsOf(payments, id);
    assert forall i :: 0 <= i < |pms| ==> pms[i] in payments && pms[i].tenantId != id;
  }

  /** The database: three tables and the serial counter behind each primary key. */
  class Store {
    var tenants: seq<Tenant>
    var properties: seq<Property>
    var payments: seq<Payment>
    var tenantSerial: int
    var propertySerial: int
    var paymentSerial: int

    /** Primary keys are distinct values already drawn from their serial, and every
        foreign key names an existing tenant. */
    ghost predicate Valid()
      reads this
    {
      Consistent(tenants, properties, payments, tenantSerial, propertySerial, paymentSerial)
    }

    constructor ()
      ensures Valid()
      ensures tenants == [] && properties == [] && payments == []
      ensures tenantSerial == 1 && propertySerial == 1 && paymentSerial == 1
    {
      tenants, properties, payments := [], [], [];
      tenantSerial, propertySerial, paymentSerial := 1, 1, 1;
    }

    /** `INSERT INTO tenants ... RETURNING *`. The id is drawn from the serial before
        the row is checked, so a rejected row still consumes a value. */
    method InsertTenant(fullName: string, phone: string, email: string, rent: int,
                        status: string, moveIn: Date, moveOut: Date, notes: Option<string>,
                        now: Timestamp)
      returns (r: Option<Tenant>)
      requires Valid()
      modifies this
      ensures Valid()
      ensures tenantSerial == old(tenantSerial) + 1
      ensures r.Some? <==> TenantFits(fullName, phone, email, status)
      ensures r.Some? ==> r.value.id == old(tenantSerial) && r.value.id !in TenantIds(old(tenants))
      ensures r.Some? ==> r.value == Tenant(old(tenantSerial), fullName, phone, email, rent,
                                            status, moveIn, moveOut, notes, now)
      ensures tenants == if r.Some? then old(tenants) + [r.value] else old(tenants)
      ensures properties == old(properties) && payments == old(payments)
      ensures propertySerial == old(propertySerial) && paymentSerial == old(paymentSerial)
    {
      var id := tenantSerial;
      tenantSerial := tenantSerial + 1;
      KeysBelowRaise(tenants, TenantKey, id, tenantSerial);
      if !TenantFits(fullName, phone, email, status) {
        return None;
      }
      var row := Tenant(id, fullName, phone, email, rent, status, moveIn, moveOut, notes, now);
      assert id !in TenantIds(tenants);
      KeysBelowAppend(tenants, TenantKey, id, row);
      tenants := tenants + [row];
      assert TenantIds(tenants) == TenantIds(old(tenants)) + {id};
      r := Some(row);
    }

    /** `INSERT INTO properties ... RETURNING *`: an omitted status takes the column
        default, and a tenant id that names no tenant violates the foreign key. */
    method InsertProperty(name: string, address: string, rentAmount: int,
                          status: Option<PropertyStatus>, tenantId: Option<int>,
                          notes: Option<string>, now: Timestamp)
      returns (r: Option<Property>)
      requires Valid()
      modifies this
      ensures Valid()
      ensures propertySerial == old(propertySerial) + 1
      ensures r.Some? <==> (tenantId.None? || tenantId.value in TenantIds(old(tenants)))
      ensures r.Some? ==> r.value.id == old(propertySerial)
      ensures r.Some? ==> forall i :: 0 <= i < |old(properties)| ==> old(properties)[i].id != r.value.id
      ensures r.Some? ==> r.value == Property(old(propertySerial), name, address, rentAmount,
                                              status.GetOr(DefaultStatus), tenantId, notes, now, now)
      ensures properties == if r.Some? then old(properties) + [r.value] else old(properties)
      ensures tenants == old(tenants) && payments == old(payments)
      ensures tenantSerial == old(tenantSerial) && paymentSerial == old(paymentSerial)
    {
      var id := propertySerial;
      propertySerial := propertySerial + 1;
      KeysBelowRaise(properties, PropertyKey, id, propertySerial);
      if tenantId.Some? && tenantId.value !in TenantIds(tenants) {
        return None;
      }
      var row := Property(id, name, address, rentAmount, status.GetOr(DefaultStatus),
                          tenantId, notes, now, now);
      KeysBelowAppend(properties, PropertyKey, id, row);
      properties := properties + [row];
      r := Some(row);
    }

    /** `INSERT INTO payments ... RETURNING *`: an omitted date takes the column
        default, today's date; the tenant must exist. */
    method InsertPayment(tenantId: int, amount: int, datePaid: Option<Date>, today: Date)
      returns (r: Option<Payment>)
      requires Valid()
      modifies this
      ensures Valid()
      ensures paymentSerial == old(paymentSerial) + 1
      ensures r.Some? <==> tenantId in TenantIds(old(tenants))
      ensures r.Some? ==> forall i :: 0 <= i < |old(payments)| ==> old(payments)[i].id != r.value.id
      ensures r.Some? ==> r.value == Payment(old(paymentSerial), tenantId, amount, datePaid.GetOr(today))
      ensures payments == if r.Some? then old(payments) + [r.value] else old(payments)
      ensures tenants == old(tenants) && properties == old(properties)
      ensures tenantSerial == old(tenantSerial) && propertySerial == old(propertySerial)
    {
      var id := paymentSerial;
      paymentSerial := paymentSerial + 1;
      KeysBelowRaise(payments, PaymentKey, id, paymentSerial);
      if tenantId !in TenantIds(tenants) {
        return None;
      }
      var row := Payment(id, tenantId, amount, datePaid.GetOr(today));
      KeysBelowAppend(payments, PaymentKey, id, row);
      payments := payments + [row];
      r := Some(row);
    }

    /** `DELETE FROM properties WHERE id = ...`: removes that row only. */
    method DeleteProperty(id: int)
      requires Valid()
      modifies this
      ensures Valid()
      ensures properties == RemoveProperty(old(properties), id)
      ensures tenants == old(tenants) && payments == old(payments)
      ensures tenantSerial == old(tenantSerial) && propertySerial == old(propertySerial)
      ensures paymentSerial == old(paymentSerial)
    {
      KeysBelowFilter(properties, (p: Property) => p.id != id, PropertyKey, propertySerial);
      properties := RemoveProperty(properties, id);
    }

    /** `DELETE FROM tenants WHERE id = ...`: the properties that referenced the tenant
        keep their rows with `tenant_id` set to NULL; the tenant's payments go with it. */
    method DeleteTenant(id: int)
      requires Valid()
      modifies this
      ensures Valid()
      ensures tenants == RemoveTenant(old(tenants), id)
      ensures properties == DetachTenant(old(properties), id)
      ensures payments == RemovePaymentsOf(old(payments), id)
      ensures tenantSerial == old(tenantSerial) && propertySerial == old(propertySerial)
      ensures paymentSerial == old(paymentSerial)
    {
      DeleteTenantConsistent(tenants, properties, payments,
                             tenantSerial, propertySerial, paymentSerial, id);
      tenants := RemoveTenant(tenants, id);
      properties := DetachTenant(properties, id);
      payments := RemovePaymentsOf(payments, id);
    }
  }

  /** The tenants that survive a delete are all the others. */
  lemma SurvivingTenants(ts: seq<Tenant>, id: int)
    ensures TenantIds(RemoveTenant(ts, id)) == TenantIds(ts) - {id}
  {
    var r := RemoveTenant(ts, id);
    forall k | k in TenantIds(ts) && k != id
      ensures k in TenantIds(r)
    {
      var m :| 0 <= m < |ts| && ts[m].id == k;
      assert ts[m] in r;
    }
  }

  /** After a tenant is deleted, no property refers to it and no property row is lost. */
  lemma DeleteTenantLeavesNoReference(ps: seq<Property>, id: int)
    ensures forall p :: p in DetachTenant(ps, id) ==> p.tenantId != Some(id)
    ensures |DetachTenant(ps, id)| == |ps|
  {
  }
}
