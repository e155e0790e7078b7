/** The properties endpoint: GET lists every property with its tenant's name, POST
    validates and defaults a request body and inserts the property, DELETE removes a
    property by id. */
module PropertiesRoute {
  import opened Wrappers
  import opened Js
  import opened ListOps
  import opened Schema
  import opened Request

  // ------------------------------------------------------------------ GET

  /** A row of the listing: the property's columns and the joined tenant's name. */
  datatype Listing = Listing(property: Property, tenantName: Option<string>)

  function HasId(id: int): Tenant -> bool
  {
    (t: Tenant) => t.id == id
  }

  /** The tenants a property's `tenant_id` matches. */
  function TenantsOf(p: Property, ts: seq<Tenant>): (r: seq<Tenant>)
    ensures forall i :: 0 <= i < |r| ==> r[i] in ts && Some(r[i].id) == p.tenantId
  {
    if p.tenantId.None? then [] else Filter(ts, HasId(p.tenantId.value))
  }

  function NamedRows(p: Property, matched: seq<Tenant>): (r: seq<Listing>)
    ensures |r| == |matched|
    ensures forall i :: 0 <= i < |r| ==> r[i] == Listing(p, Some(matched[i].fullName))
  {
    if matched == [] then [] else [Listing(p, Some(matched[0].fullName))] + NamedRows(p, matched[1..])
  }

  /** A listed name is the name of a tenant whose id is the property's `tenant_id`. */
  predicate NameFromTenant(l: Listing, ts: seq<Tenant>)
  {
    l.tenantName.Some? ==>
      exists t :: t in ts && Some(t.id) == l.property.tenantId && t.fullName == l.tenantName.value
  }

  /** The rows one property contributes to the left join: one per matching tenant, or
      one with a NULL name when none matches. */
  function JoinOne(p: Property, ts: seq<Tenant>): (r: seq<Listing>)
    ensures |r| >= 1
    ensures forall i :: 0 <= i < |r| ==> r[i].property == p && NameFromTenant(r[i], ts)
  {
    var matched := TenantsOf(p, ts);
    if matched == [] then [Listing(p, None)] else NamedRows(p, matched)
  }

  /** `FROM properties LEFT JOIN tenants ON properties.tenant_id = tenants.id`. */
  function ListProperties(props: seq<Property>, ts: seq<Tenant>): (r: seq<Listing>)
    ensures |r| >= |props|
    ensures forall i :: 0 <= i < |r| ==> r[i].property in props && NameFromTenant(r[i], ts)
  {
    if props == [] then []
    else
      var first, rest := JoinOne(props[0], ts), ListProperties(props[1..], ts);
      assert forall i :: 0 <= i < |rest| ==> rest[i].property in props;
      first + rest
  }

  /** The name of the tenant with the property's `tenant_id`, or NULL. */
  function TenantNameOf(p: Property, ts: seq<Tenant>): Option<string>
  {
    var matched := TenantsOf(p, ts);
    if matched == [] then None else Some(matched[0].fullName)
  }

  /** Since tenant ids are unique, the listing has every property exactly once, with
      the name of its tenant or NULL when no tenant matches (rows are taken in table
      order here; the query itself fixes no order). */
  lemma {:induction false} ListingOnePerProperty(props: seq<Property>, ts: seq<Tenant>)
    requires DistinctBy(ts, TenantKey)
    ensures var rows := ListProperties(props, ts);
            |rows| == |props|
            && forall i :: 0 <= i < |rows| ==> rows[i] == Listing(props[i], TenantNameOf(props[i], ts))
  {
    if props != [] {
      ListingOnePerProperty(props[1..], ts);
      var p := props[0];
      ListingOfOne(p, ts);
      var rest := ListProperties(props[1..], ts);
      assert ListProperties(props, ts) == [Listing(p, TenantNameOf(p, ts))] + rest;
      assert forall i :: 1 <= i < |props| ==> props[1..][i - 1] == props[i];
    }
  }

  /** With unique tenant ids one property yields one row. */
  lemma ListingOfOne(p: Property, ts: seq<Tenant>)
    requires DistinctBy(ts, TenantKey)
    ensures JoinOne(p, ts) == [Listing(p, TenantNameOf(p, ts))]
  {
    if p.tenantId.Some? {
      AtMostOneKept(ts, HasId(p.tenantId.value));
    }
  }

  /** A listed tenant name is the name of a tenant whose id is the property's
      `tenant_id`. */
  lemma TenantNameMatches(p: Property, ts: seq<Tenant>)
    ensures TenantNameOf(p, ts).Some? <==> p.tenantId.Some? && exists t :: t in ts && t.id == p.tenantId.value
    ensures TenantNameOf(p, ts).Some? ==>
              exists t :: t in ts && t.id == p.tenantId.value && t.fullName == TenantNameOf(p, ts).value
  {
    if p.tenantId.Some? && exists t :: t in ts && t.id == p.tenantId.value {
      var t :| t in ts && t.id == p.tenantId.value;
      var i :| 0 <= i < |ts| && ts[i] == t;
      assert HasId(p.tenantId.value)(ts[i]);
    }
  }

  // ------------------------------------------------------------------ POST

  /** The values POST passes to the insert. `status` stays absent when the body has
      none, so that the column default applies. */
  datatype PropertyValues = PropertyValues(
    name: JsValue, address: JsValue, rentAmount: JsValue, status: Option<JsValue>,
    tenantId: JsValue, notes: JsValue)

  const NameAddressRequired := "Name and address are required"

  /** The validation and defaulting of a POST body. */
  function PostValues(body: Record): (r: Checked<PropertyValues>)
    ensures r.Rejected? <==> !FieldTruthy(body, "name") || !FieldTruthy(body, "address")
    ensures r.Rejected? ==> r.message == NameAddressRequired
    ensures r.Accepted? ==> r.value.name == body["name"] && r.value.address == body["address"]
    ensures r.Accepted? ==> r.value.status == Field(body, "status")
  {
    if !FieldTruthy(body, "name") || !FieldTruthy(body, "address") then Rejected(NameAddressRequired)
    else Accepted(PropertyValues(
      name := body["name"],
      address := body["address"],
      rentAmount := Coalesce(body, ["rentAmount", "rent_amount"], Num(0)),
      status := Field(body, "status"),
      tenantId := Coalesce(body, ["tenantId", "tenant_id"], Null),
      notes := Coalesce(body, ["notes"], Str(""))))
  }

  /** `rentAmount` is the camel-case field when it is present and not null, a present
      0 included; else the snake-case one; else 0. */
  lemma RentAmountDefaulting(body: Record)
    requires PostValues(body).Accepted?
    ensures var v := PostValues(body).value.rentAmount;
            (!Nullish(body, "rentAmount") ==> v == body["rentAmount"])
            && (Nullish(body, "rentAmount") && !Nullish(body, "rent_amount") ==> v == body["rent_amount"])
            && (Nullish(body, "rentAmount") && Nullish(body, "rent_amount") ==> v == Num(0))
  {
    var keys := ["rentAmount", "rent_amount"];
    assert keys[0] == "rentAmount" && keys[1] == "rent_amount";
  }

  /** `tenantId` is the camel-case field, else the snake-case one, else null; `notes`
      is the field, else "". */
  lemma TenantIdAndNotesDefaulting(body: Record)
    requires PostValues(body).Accepted?
    ensures var v := PostValues(body).value;
            (!Nullish(body, "tenantId") ==> v.tenantId == body["tenantId"])
            && (Nullish(body, "tenantId") && !Nullish(body, "tenant_id") ==> v.tenantId == body["tenant_id"])
            && (Nullish(body, "tenantId") && Nullish(body, "tenant_id") ==> v.tenantId == Null)
            && (!Nullish(body, "notes") ==> v.notes == body["notes"])
            && (Nullish(body, "notes") ==> v.notes == Str(""))
  {
    var keys := ["tenantId", "tenant_id"];
    assert keys[0] == "tenantId" && keys[1] == "tenant_id";
    assert ["notes"][0] == "notes";
  }

  /** The columns of the new row, as the database reads the values: `None` when a
      value does not fit its column's type. */
  datatype PropertyColumns = PropertyColumns(
    name: string, address: string, rentAmount: int, status: Option<PropertyStatus>,
    tenantId: Option<int>, notes: Option<string>)

  /** The rent as the `numeric(10, 2)` column reads it. */
  function AsRent(v: JsValue): (r: Option<int>)
    ensures r.Some? <==> AsInt(v).Some? && FitsNumeric10x2(AsInt(v).value)
    ensures r.Some? ==> r == AsInt(v)
  {
    match AsInt(v) case Some(n) => if FitsNumeric10x2(n) then Some(n) else None case None => None
  }

  /** The tenant id as the nullable `integer` column reads it. */
  function AsTenantId(v: JsValue): (r: Option<Option<int>>)
    ensures v == Null ==> r == Some(None)
    ensures v != Null ==> (r.Some? <==> AsInt(v).Some? && FitsInteger(AsInt(v).value))
    ensures v != Null && r.Some? ==> r.value == AsInt(v)
  {
    if v == Null then Some(None)
    else match AsInt(v) case Some(n) => if FitsInteger(n) then Some(Some(n)) else None case None => None
  }

  function Columns(v: PropertyValues): (r: Option<PropertyColumns>)
    ensures r.Some? <==> AsText(v.name).Some? && AsText(v.address).Some? && AsRent(v.rentAmount).Some?
                         && (v.status.None? || AsStatus(v.status.value).Some?)
                         && AsTenantId(v.tenantId).Some? && AsOptionalText(v.notes).Some?
    ensures r.Some? ==> r.value.name == AsText(v.name).value && r.value.address == AsText(v.address).value
    ensures r.Some? ==> r.value.rentAmount == AsRent(v.rentAmount).value && r.value.tenantId == AsTenantId(v.tenantId).value
    ensures r.Some? ==> r.value.status == (if v.status.None? then None else AsStatus(v.status.value))
    ensures r.Some? ==> r.value.notes == AsOptionalText(v.notes).value
  {
    var name, address, rent := AsText(v.name), AsText(v.address), AsRent(v.rentAmount);
    var status := if v.status.None? then Some(None)
                  else match AsStatus(v.status.value) case Some(s) => Some(Some(s)) case None => None;
    var tenantId, notes := AsTenantId(v.tenantId), AsOptionalText(v.notes);
    if name.Some? && address.Some? && rent.Some? && status.Some? && tenantId.Some? && notes.Some? then
      Some(PropertyColumns(name.value, address.value, rent.value, status.value, tenantId.value, notes.value))
    else None
  }

  const AddFailed := "Failed to add property"

  /** The row the insert returns, when the foreign key holds. */
  function NewProperty(c: PropertyColumns, id: int, now: Timestamp): Property
  {
    Property(id, c.name, c.address, c.rentAmount, c.status.GetOr(DefaultStatus), c.tenantId, c.notes, now, now)
  }

  /** The answer of POST /api/properties_ for a body, given the tenants and the next
      serial id: a 400 when the name or address is missing or empty; a 500 when a value
      does not fit its column or the tenant id names no tenant; else the new row. */
  function PostResponse(tenants: seq<Tenant>, serial: int, body: Record, now: Timestamp): (r: Response<Property>)
    ensures r.BadRequest? <==> PostValues(body).Rejected?
    ensures r.BadRequest? ==> r.message == NameAddressRequired
    ensures r.ServerError? ==> r.message == AddFailed
    ensures r.Ok? <==> PostValues(body).Accepted? && Columns(PostValues(body).value).Some?
                       && (Columns(PostValues(body).value).value.tenantId.None?
                           || Columns(PostValues(body).value).value.tenantId.value in TenantIds(tenants))
    ensures r.Ok? ==> var c := Columns(PostValues(body).value).value;
                      r.body.id == serial && r.body.name == c.name && r.body.address == c.address
                      && r.body.rentAmount == c.rentAmount && r.body.tenantId == c.tenantId
                      && r.body.status == c.status.GetOr(DefaultStatus) && r.body.notes == c.notes
                      && r.body.createdAt == now && r.body.updatedAt == now
  {
    match PostValues(body)
    case Rejected(message) => BadRequest(message)
    case Accepted(v) =>
      match Columns(v)
      case None => ServerError(AddFailed)
      case Some(c) =>
        if c.tenantId.None? || c.tenantId.value in TenantIds(tenants) then Ok(NewProperty(c, serial, now))
        else ServerError(AddFailed)
  }

  /** The inserted row's notes are the body's `notes` read as text, and "" when the
      body has none. */
  lemma NotesRecorded(tenants: seq<Tenant>, serial: int, body: Record, now: Timestamp)
    requires PostResponse(tenants, serial, body, now).Ok?
    ensures var row := PostResponse(tenants, serial, body, now).body;
            (Nullish(body, "notes") ==> row.notes == Some(""))
            && (!Nullish(body, "notes") ==> row.notes == AsText(body["notes"]))
  {
    TenantIdAndNotesDefaulting(body);
  }

  /** POST /api/properties_: answers as `PostResponse` does; a successful insert
      appends the new row, and an insert that reaches the database uses up a serial id
      even when the foreign key refuses it. */
  method Post(store: Store, body: Record, now: Timestamp) returns (resp: Response<Property>)
    requires store.Valid()
    modifies store
    ensures store.Valid()
    ensures resp == PostResponse(old(store.tenants), old(store.propertySerial), body, now)
    ensures PostValues(body).Rejected? ==> unchanged(store)
    ensures resp.Ok? ==> store.properties == old(store.properties) + [resp.body]
    ensures !resp.Ok? ==> store.properties == old(store.properties)
    ensures store.tenants == old(store.tenants) && store.payments == old(store.payments)
    ensures store.propertySerial == old(store.propertySerial)
              + (if PostValues(body).Accepted? && Columns(PostValues(body).value).Some? then 1 else 0)
    ensures store.tenantSerial == old(store.tenantSerial) && store.paymentSerial == old(store.paymentSerial)
  {
    var checked := PostValues(body);
    if checked.Rejected? {
      return BadRequest(checked.message);
    }
    var columns := Columns(checked.value);
    if columns.None? {
      return ServerError(AddFailed);
    }
    var c := columns.value;
    var row := store.InsertProperty(c.name, c.address, c.rentAmount, c.status, c.tenantId, c.notes, now);
    if row.None? {
      return ServerError(AddFailed);
    }
    resp := Ok(row.value);
  }

  // ------------------------------------------------------------------ DELETE

  const IdRequired := "Property ID is required"
  const DeleteFailed := "Failed to delete property"

  /** The validation of a DELETE body: `id` must be truthy. */
  function DeleteId(body: Record): (r: Checked<JsValue>)
    ensures r.Rejected? <==> !FieldTruthy(body, "id")
    ensures r.Rejected? ==> r.message == IdRequired
    ensures r.Accepted? ==> r.value == body["id"] && Truthy(r.value)
  {
    if !FieldTruthy(body, "id") then Rejected(IdRequired) else Accepted(body["id"])
  }

  /** The id as the `integer` key column reads it. */
  function AsKey(v: JsValue): (r: Option<int>)
    ensures r.Some? <==> AsInt(v).Some? && FitsInteger(AsInt(v).value)
    ensures r.Some? ==> r == AsInt(v)
  {
    match AsInt(v) case Some(n) => if FitsInteger(n) then Some(n) else None case None => None
  }

  /** DELETE /api/properties_: a 400 without a truthy id; a 500 when the id does not
      read as an `integer`; otherwise success, having removed the rows with that id
      and nothing else, whether or not such a row existed. */
  method Delete(store: Store, body: Record) returns (resp: Response<bool>)
    requires store.Valid()
    modifies store
    ensures store.Valid()
    ensures DeleteId(body).Rejected? ==> resp == BadRequest(IdRequired) && unchanged(store)
    ensures resp.Ok? <==> DeleteId(body).Accepted? && AsKey(body["id"]).Some?
    ensures resp.Ok? ==> resp.body && store.properties == RemoveProperty(old(store.properties), AsKey(body["id"]).value)
    ensures !resp.Ok? ==> store.properties == old(store.properties)
    ensures resp.ServerError? ==> resp.message == DeleteFailed
    ensures store.tenants == old(store.tenants) && store.payments == old(store.payments)
    ensures store.tenantSerial == old(store.tenantSerial) && store.propertySerial == old(store.propertySerial)
    ensures store.paymentSerial == old(store.paymentSerial)
  {
    var checked := DeleteId(body);
    if checked.Rejected? {
      return BadRequest(checked.message);
    }
    var id := AsKey(checked.value);
    if id.None? {
      return ServerError(DeleteFailed);
    }
    store.DeleteProperty(id.value);
    resp := Ok(true);
  }

  /** Deleting by id removes exactly the rows with that id and keeps the others in
      order. */
  lemma DeleteRemovesOnlyThatId(props: seq<Property>, id: int)
    ensures forall p :: p in RemoveProperty(props, id) <==> p in props && p.id != id
    ensures DistinctBy(props, PropertyKey) && (exists p :: p in props && p.id == id) ==>
              |RemoveProperty(props, id)| == |props| - 1
  {
    var keep := (p: Property) => p.id != id;
    forall p | p in props && p.id != id ensures p in RemoveProperty(props, id) {
      var i :| 0 <= i < |props| && props[i] == p;
      assert keep(props[i]);
    }
    if DistinctBy(props, PropertyKey) && exists p :: p in props && p.id == id {
      var p :| p in props && p.id == id;
      var i :| 0 <= i < |props| && props[i] == p;
      RemoveOne(props, id, i);
    }
  }

  lemma {:induction false} RemoveOne(props: seq<Property>, id: int, i: nat)
    requires DistinctBy(props, PropertyKey) && i < |props| && props[i].id == id
    ensures |RemoveProperty(props, id)| == |props| - 1
  {
    var keep := (p: Property) => p.id != id;
    var tail := props[1..];
    assert forall k :: 0 <= k < |tail| ==> tail[k] == props[k + 1];
    assert DistinctBy(tail, PropertyKey);
    if i == 0 {
      FilterKeepsAll(tail, keep);
    } else {
      RemoveOne(tail, id, i - 1);
    }
  }
}
