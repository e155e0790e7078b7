/** The properties table on the client: the tolerant normalisation of a row received
    from the API, the payload built from the add and edit forms, and the table state
    the add, edit, delete and record-payment handlers update. */
module PropertiesTable {
  import opened Wrappers
  import opened Js
  import opened ListOps
  import PropertiesRoute
  import PaymentsRoute
  import Schema
  import Request
  import opened Text
  import opened Dates

  /** An entry of the tenant list the table fetches. */
  datatype TenantRow = TenantRow(id: JsValue, fullName: JsValue)

  /** A table row. The fields hold whatever the API or the form supplied. */
  datatype PropertyRow = PropertyRow(
    id: JsValue, name: JsValue, address: JsValue, rentAmount: JsValue, status: JsValue,
    tenantName: JsValue, tenantId: JsValue, notes: JsValue, createdAt: JsValue,
    updatedAt: JsValue, paymentStatus: JsValue)

  function IdIs(id: JsValue): TenantRow -> bool
  {
    (t: TenantRow) => StrictEquals(t.id, id)
  }

  /** `tenantsList.find((t) => t.id === tenantId)?.fullName`, `None` for `undefined`. */
  function ListedName(list: seq<TenantRow>, tenantId: JsValue): (r: Option<JsValue>)
    ensures r.None? <==> forall j :: 0 <= j < |list| ==> !StrictEquals(list[j].id, tenantId)
    ensures r.Some? ==> exists i :: 0 <= i < |list| && StrictEquals(list[i].id, tenantId)
                          && r.value == list[i].fullName
                          && forall j :: 0 <= j < i ==> !StrictEquals(list[j].id, tenantId)
  {
    match Find(list, IdIs(tenantId))
    case None => None
    case Some(t) => Some(t.fullName)
  }

  /** `x ?? fallback` for a value that may be `undefined`. */
  function OrElse(x: Option<JsValue>, fallback: JsValue): (v: JsValue)
    ensures x.None? || x.value == Null ==> v == fallback
    ensures x.Some? && x.value != Null ==> v == x.value
  {
    if x.Some? && x.value != Null then x.value else fallback
  }

  /** `normalizeProperty(raw, tenantsList)`. `list` is `None` when the tenant list is
      not an array. */
  function Normalize(raw: Record, list: Option<seq<TenantRow>>): (r: PropertyRow)
    ensures r.id != Null && r.name != Null && r.address != Null && r.status != Null
    ensures r.tenantName != Null && r.notes != Null && r.createdAt != Null
    ensures r.updatedAt != Null && r.paymentStatus != Null
    ensures r.rentAmount.Num?
    ensures Number(Coalesce(raw, ["rentAmount", "rent_amount", "rent"], Num(0))).NaN? ==> r.rentAmount == Num(0)
    ensures list.Some? ==> r.tenantName == OrElse(ListedName(list.value, r.tenantId), Str(""))
    ensures list.None? ==> r.tenantName == Coalesce(raw, ["tenantName", "tenant_name", "tenant"], Str(""))
  {
    var tenantId := Coalesce(raw, ["tenantId", "tenant_id"], Null);
    PropertyRow(
      id := Coalesce(raw, ["id", "ID"], Num(0)),
      name := Coalesce(raw, ["name", "title"], Str("")),
      address := Coalesce(raw, ["address", "addr"], Str("")),
      rentAmount := Num(NumberOrZero(Coalesce(raw, ["rentAmount", "rent_amount", "rent"], Num(0)))),
      status := Coalesce(raw, ["status", "state"], Str("available")),
      tenantName :=
        if list.Some? then OrElse(ListedName(list.value, tenantId), Str(""))
        else Coalesce(raw, ["tenantName", "tenant_name", "tenant"], Str("")),
      tenantId := tenantId,
      notes := Coalesce(raw, ["notes", "note"], Str("")),
      createdAt := Coalesce(raw, ["createdAt", "created_at", "created"], Str("")),
      updatedAt := Coalesce(raw, ["updatedAt", "updated_at", "updated"], Str("")),
      paymentStatus := Coalesce(raw, ["paymentStatus", "payment_status"], Str("unpaid")))
  }

  /** A row as a plain object, under the field names the row type declares. */
  function ToRecord(row: PropertyRow): (r: Record)
    ensures r.Keys == {"id", "name", "address", "rentAmount", "status", "tenantName", "tenantId",
                       "notes", "createdAt", "updatedAt", "paymentStatus"}
  {
    map["id" := row.id, "name" := row.name, "address" := row.address,
        "rentAmount" := row.rentAmount, "status" := row.status, "tenantName" := row.tenantName,
        "tenantId" := row.tenantId, "notes" := row.notes, "createdAt" := row.createdAt,
        "updatedAt" := row.updatedAt, "paymentStatus" := row.paymentStatus]
  }

  /** Normalising a normalised row with the same tenant list changes nothing. */
  lemma NormalizeIdempotent(raw: Record, list: Option<seq<TenantRow>>)
    ensures Normalize(ToRecord(Normalize(raw, list)), list) == Normalize(raw, list)
  {
    var r := Normalize(raw, list);
    var rec := ToRecord(r);
    ToRecordFields(r);
    NormalizeReadsBack(rec, r, list);
  }

  lemma ToRecordFields(r: PropertyRow)
    ensures var rec := ToRecord(r);
            rec["id"] == r.id && rec["name"] == r.name && rec["address"] == r.address
            && rec["rentAmount"] == r.rentAmount && rec["status"] == r.status
            && rec["tenantName"] == r.tenantName && rec["tenantId"] == r.tenantId && rec["notes"] == r.notes
            && rec["createdAt"] == r.createdAt && rec["updatedAt"] == r.updatedAt
            && rec["paymentStatus"] == r.paymentStatus && "tenant_id" !in rec
  {
  }

  /** A record that carries a normalised row's values under the row's own field
      names, and no `tenant_id`, normalises to that row. */
  lemma NormalizeReadsBack(rec: Record, r: PropertyRow, list: Option<seq<TenantRow>>)
    requires r.id != Null && r.name != Null && r.address != Null && r.rentAmount.Num? && r.status != Null
    requires r.tenantName != Null && r.notes != Null && r.createdAt != Null && r.updatedAt != Null
    requires r.paymentStatus != Null
    requires list.Some? ==> r.tenantName == OrElse(ListedName(list.value, r.tenantId), Str(""))
    requires "id" in rec && rec["id"] == r.id && "name" in rec && rec["name"] == r.name
    requires "address" in rec && rec["address"] == r.address && "rentAmount" in rec && rec["rentAmount"] == r.rentAmount
    requires "status" in rec && rec["status"] == r.status && "tenantName" in rec && rec["tenantName"] == r.tenantName
    requires "tenantId" in rec && rec["tenantId"] == r.tenantId && "tenant_id" !in rec
    requires "notes" in rec && rec["notes"] == r.notes && "createdAt" in rec && rec["createdAt"] == r.createdAt
    requires "updatedAt" in rec && rec["updatedAt"] == r.updatedAt
    requires "paymentStatus" in rec && rec["paymentStatus"] == r.paymentStatus
    ensures Normalize(rec, list) == r
  {
    CoalescePair(rec, "tenantId", "tenant_id", Null);
  }

  /** `rentAmount` is 0 whenever the chosen alternative converts to NaN or to 0, and
      that number otherwise. */
  lemma RentAmountCoercion(raw: Record, list: Option<seq<TenantRow>>)
    ensures var v := Number(Coalesce(raw, ["rentAmount", "rent_amount", "rent"], Num(0)));
            Normalize(raw, list).rentAmount == (if v.Num? then v else Num(0))
  {
  }

  /** Each field of a normalised row is its first alternative that is neither null
      nor undefined, in the order the row lists them, else its default: 0 for the id,
      "" for the texts, "available" for the status, null for the tenant id, "unpaid"
      for the payment status. */
  lemma NormalizeFallbacks(raw: Record, list: Option<seq<TenantRow>>)
    ensures var r := Normalize(raw, list);
            r.id == (if !Nullish(raw, "id") then raw["id"] else if !Nullish(raw, "ID") then raw["ID"] else Num(0))
            && r.name == (if !Nullish(raw, "name") then raw["name"]
                          else if !Nullish(raw, "title") then raw["title"] else Str(""))
            && r.address == (if !Nullish(raw, "address") then raw["address"]
                             else if !Nullish(raw, "addr") then raw["addr"] else Str(""))
            && r.status == (if !Nullish(raw, "status") then raw["status"]
                            else if !Nullish(raw, "state") then raw["state"] else Str("available"))
            && r.tenantId == (if !Nullish(raw, "tenantId") then raw["tenantId"]
                              else if !Nullish(raw, "tenant_id") then raw["tenant_id"] else Null)
            && r.notes == (if !Nullish(raw, "notes") then raw["notes"]
                           else if !Nullish(raw, "note") then raw["note"] else Str(""))
            && r.paymentStatus == (if !Nullish(raw, "paymentStatus") then raw["paymentStatus"]
                                   else if !Nullish(raw, "payment_status") then raw["payment_status"]
                                   else Str("unpaid"))
    ensures var r := Normalize(raw, list);
            r.createdAt == (if !Nullish(raw, "createdAt") then raw["createdAt"]
                            else if !Nullish(raw, "created_at") then raw["created_at"]
                            else if !Nullish(raw, "created") then raw["created"] else Str(""))
            && r.updatedAt == (if !Nullish(raw, "updatedAt") then raw["updatedAt"]
                               else if !Nullish(raw, "updated_at") then raw["updated_at"]
                               else if !Nullish(raw, "updated") then raw["updated"] else Str(""))
    ensures list.None? ==>
              Normalize(raw, list).tenantName
                == (if !Nullish(raw, "tenantName") then raw["tenantName"]
                    else if !Nullish(raw, "tenant_name") then raw["tenant_name"]
                    else if !Nullish(raw, "tenant") then raw["tenant"] else Str(""))
    ensures Normalize(raw, list).rentAmount
              == (var v := Number(if !Nullish(raw, "rentAmount") then raw["rentAmount"]
                                  else if !Nullish(raw, "rent_amount") then raw["rent_amount"]
                                  else if !Nullish(raw, "rent") then raw["rent"] else Num(0));
                  if v.Num? then v else Num(0))
  {
    CoalesceTwo(raw, "id", "ID", Num(0));
    CoalesceTwo(raw, "name", "title", Str(""));
    CoalesceTwo(raw, "address", "addr", Str(""));
    CoalesceTwo(raw, "status", "state", Str("available"));
    CoalesceTwo(raw, "tenantId", "tenant_id", Null);
    CoalesceTwo(raw, "notes", "note", Str(""));
    CoalesceTwo(raw, "paymentStatus", "payment_status", Str("unpaid"));
    CoalesceThree(raw, "createdAt", "created_at", "created", Str(""));
    CoalesceThree(raw, "updatedAt", "updated_at", "updated", Str(""));
    CoalesceThree(raw, "tenantName", "tenant_name", "tenant", Str(""));
    CoalesceThree(raw, "rentAmount", "rent_amount", "rent", Num(0));
    RentAmountCoercion(raw, list);
  }

  // ------------------------------------------------------------------ form payload

  /** The object `buildPayloadFromForm` returns. The snake-case duplicates the
      backend reads are added when it is sent. */
  datatype Payload = Payload(
    name: string, address: string, rentAmount: JsValue, status: string, tenantId: JsValue, notes: string)

  /** `String(fd.get(key) ?? fallback)`. */
  function FormText(fd: FormData, key: string, fallback: string): string
  {
    if key in fd then fd[key] else fallback
  }

  /** `buildPayloadFromForm(fd)`. */
  function BuildPayload(fd: FormData): (p: Payload)
    ensures p.rentAmount.Num? || p.rentAmount.NaN?
    ensures p.tenantId == Null <==> "tenant_id" !in fd || fd["tenant_id"] == []
    ensures p.tenantId != Null ==> p.tenantId == Number(Str(fd["tenant_id"]))
    ensures ("status" !in fd ==> p.status == "available") && ("status" in fd ==> p.status == fd["status"])
    ensures "rent_amount" !in fd ==> p.rentAmount == Num(0)
  {
    Payload(
      name := FormText(fd, "name", ""),
      address := FormText(fd, "address", ""),
      rentAmount := if "rent_amount" in fd then Number(Str(fd["rent_amount"])) else Num(0),
      status := FormText(fd, "status", "available"),
      tenantId := if "tenant_id" in fd && fd["tenant_id"] != [] then Number(Str(fd["tenant_id"])) else Null,
      notes := FormText(fd, "notes", ""))
  }

  /** `JSON.stringify` of a number: NaN is written as `null`. */
  function Json(v: JsValue): (r: JsValue)
    ensures r != NaN
    ensures v != NaN ==> r == v
  {
    if v.NaN? then Null else v
  }

  /** The JSON body sent with the payload: both spellings of the tenant id and of the
      rent are the same value. */
  function PayloadBody(p: Payload): (body: Record)
    ensures body.Keys == {"name", "address", "rentAmount", "status", "tenantId", "notes", "tenant_id", "rent_amount"}
    ensures body["tenantId"] == body["tenant_id"] && body["rentAmount"] == body["rent_amount"]
    ensures body["name"] == Str(p.name) && body["address"] == Str(p.address)
  {
    map["name" := Str(p.name), "address" := Str(p.address), "rentAmount" := Json(p.rentAmount),
        "status" := Str(p.status), "tenantId" := Json(p.tenantId), "notes" := Str(p.notes),
        "tenant_id" := Json(p.tenantId), "rent_amount" := Json(p.rentAmount)]
  }

  /** The add form's body passes the endpoint's validation exactly when the name and
      the address are filled in; the endpoint then reads the form's rent (0 when it is
      not a number, sent as `null`), its tenant id and its status. */
  lemma AddBodyValidation(fd: FormData)
    ensures var body := PayloadBody(BuildPayload(fd));
            var checked := PropertiesRoute.PostValues(body);
            (checked.Accepted? <==> FormText(fd, "name", "") != [] && FormText(fd, "address", "") != [])
            && (checked.Accepted? ==>
                  checked.value.rentAmount == (if BuildPayload(fd).rentAmount.NaN? then Num(0) else BuildPayload(fd).rentAmount)
                  && checked.value.tenantId == Json(BuildPayload(fd).tenantId)
                  && checked.value.status == Some(Str(BuildPayload(fd).status)))
  {
    var p := BuildPayload(fd);
    PayloadBodyFields(p);
    PayloadValidation(PayloadBody(p), p);
  }

  lemma PayloadBodyFields(p: Payload)
    ensures var body := PayloadBody(p);
            body["status"] == Str(p.status) && body["rentAmount"] == Json(p.rentAmount)
            && body["tenantId"] == Json(p.tenantId)
  {
  }

  /** How the endpoint reads a body that carries a payload. */
  lemma PayloadValidation(body: Record, p: Payload)
    requires "name" in body && body["name"] == Str(p.name) && "address" in body && body["address"] == Str(p.address)
    requires "status" in body && body["status"] == Str(p.status)
    requires p.rentAmount.Num? || p.rentAmount.NaN?
    requires "rentAmount" in body && body["rentAmount"] == Json(p.rentAmount)
    requires "rent_amount" in body && body["rent_amount"] == body["rentAmount"]
    requires "tenantId" in body && body["tenantId"] == Json(p.tenantId)
    requires "tenant_id" in body && body["tenant_id"] == body["tenantId"]
    ensures var checked := PropertiesRoute.PostValues(body);
            (checked.Accepted? <==> p.name != [] && p.address != [])
            && (checked.Accepted? ==>
                  checked.value.rentAmount == (if p.rentAmount.NaN? then Num(0) else p.rentAmount)
                  && checked.value.tenantId == Json(p.tenantId)
                  && checked.value.status == Some(Str(p.status)))
  {
    CoalescePair(body, "rentAmount", "rent_amount", Num(0));
    CoalescePair(body, "tenantId", "tenant_id", Null);
  }

  // ------------------------------------------------------------------ record payment

  /** The body `recordPaymentForTenant` posts: the first day of the selected month. */
  function PaymentBody(tenantId: JsValue, amount: int, month: string): (r: Record)
    ensures r.Keys == {"tenantId", "amount", "datePaid"}
    ensures FieldTruthy(r, "datePaid") && r["tenantId"] == tenantId && r["amount"] == Num(amount)
  {
    map["tenantId" := tenantId, "amount" := Num(amount), "datePaid" := Str(month + "-01")]
  }

  /** Payments are only posted for a truthy tenant id, and such a body passes the
      payments endpoint's validation with its date. */
  lemma PaymentBodyAccepted(tenantId: JsValue, amount: int, month: string)
    requires Truthy(tenantId)
    ensures var checked := PaymentsRoute.PostValues(PaymentBody(tenantId, amount, month));
            checked.Accepted? && checked.value.datePaid == Some(Str(month + "-01"))
  {
    assert month + "-01" != [];
  }

  /** For a selected month `YYYY-MM` and an existing tenant's id, the endpoint records
      the payment on the first day of that month. */
  lemma PaymentRecordedOnFirstDay(tenants: seq<Schema.Tenant>, serial: int, today: Date,
                                  tenantId: int, amount: int, y: int, m: int)
    requires tenantId in Schema.TenantIds(tenants) && tenantId != 0 && Request.FitsInteger(tenantId)
    requires 0 <= y <= 9999 && 1 <= m <= 12
    ensures var body := PaymentBody(Num(tenantId), amount, MonthLabel(y, m));
            PaymentsRoute.PostResponse(tenants, serial, body, today) == Request.Ok(Schema.Payment(serial, tenantId, amount, Date(y, m, 1)))
  {
    var d := Date(y, m, 1);
    assert PadDigits(1, 2) == "01";
    assert FormatIso(d) == MonthLabel(y, m) + "-01";
    var body := PaymentBody(Num(tenantId), amount, MonthLabel(y, m));
    assert body["tenantId"] == Num(tenantId) && body["amount"] == Num(amount) && body["datePaid"] == Str(FormatIso(d));
    PaymentsRoute.BodyAccepted(tenants, serial, today, body, tenantId, amount, d);
  }

  /** The in-memory fallback: the rows of that tenant are marked paid. */
  function MarkPaid(rows: seq<PropertyRow>, tenantId: JsValue): (r: seq<PropertyRow>)
    ensures |r| == |rows|
    ensures forall i :: 0 <= i < |rows| ==>
              r[i] == if StrictEquals(rows[i].tenantId, tenantId) then rows[i].(paymentStatus := Str("paid")) else rows[i]
  {
    if rows == [] then []
    else
      var row := rows[0];
      [if StrictEquals(row.tenantId, tenantId) then row.(paymentStatus := Str("paid")) else row]
        + MarkPaid(rows[1..], tenantId)
  }

  function NormalizeAll(raws: seq<Record>, list: Option<seq<TenantRow>>): (r: seq<PropertyRow>)
    ensures |r| == |raws|
    ensures forall i :: 0 <= i < |raws| ==> r[i] == Normalize(raws[i], list)
  {
    seq(|raws|, i requires 0 <= i < |raws| => Normalize(raws[i], list))
  }

  // ------------------------------------------------------------------ edit

  /** The row an edit submits: the edited row overwritten by the payload's fields,
      with the tenant's name looked up in the list (`null` when absent). */
  function EditedRow(editing: PropertyRow, p: Payload, list: seq<TenantRow>): (r: PropertyRow)
    ensures r.id == editing.id && r.createdAt == editing.createdAt && r.updatedAt == editing.updatedAt
    ensures r.paymentStatus == editing.paymentStatus
    ensures r.name == Str(p.name) && r.address == Str(p.address) && r.rentAmount == p.rentAmount
    ensures r.status == Str(p.status) && r.tenantId == p.tenantId && r.notes == Str(p.notes)
    ensures r.tenantName == OrElse(ListedName(list, p.tenantId), Null)
  {
    editing.(name := Str(p.name), address := Str(p.address), rentAmount := p.rentAmount,
             status := Str(p.status), tenantId := p.tenantId, notes := Str(p.notes),
             tenantName := OrElse(ListedName(list, p.tenantId), Null))
  }

  function HasRowId(id: JsValue): PropertyRow -> bool
  {
    (r: PropertyRow) => StrictEquals(r.id, id)
  }

  function NotRowId(id: JsValue): PropertyRow -> bool
  {
    (r: PropertyRow) => !StrictEquals(r.id, id)
  }

  function NotIn(ids: set<JsValue>): PropertyRow -> bool
  {
    (r: PropertyRow) => r.id !in ids
  }

  // ------------------------------------------------------------------ the table

  class Table {
    var tableData: seq<PropertyRow>
    /** `None` when the fetched tenant list is not an array. */
    var tenantsList: Option<seq<TenantRow>>
    var editingItem: Option<PropertyRow>
    var isEditOpen: bool

    constructor ()
      ensures tableData == [] && tenantsList == Some([]) && editingItem.None? && !isEditOpen
    {
      tableData, tenantsList, editingItem, isEditOpen := [], Some([]), None, false;
    }

    /** The properties fetch: an array answer replaces the rows with their
        normalisations; any other answer, or a failed fetch, leaves them. */
    method Load(raws: Option<seq<Record>>)
      modifies this
      ensures raws.None? ==> tableData == old(tableData)
      ensures raws.Some? ==> tableData == NormalizeAll(raws.value, tenantsList)
      ensures tenantsList == old(tenantsList) && editingItem == old(editingItem) && isEditOpen == old(isEditOpen)
    {
      if raws.Some? {
        tableData := NormalizeAll(raws.value, tenantsList);
      }
    }

    /** The tenants fetch: whatever JSON arrives is kept, an array or not; a failed
        fetch leaves an empty list. */
    method LoadTenants(answer: Option<Option<seq<TenantRow>>>)
      modifies this
      ensures answer.None? ==> tenantsList == Some([])
      ensures answer.Some? ==> tenantsList == answer.value
      ensures tableData == old(tableData) && editingItem == old(editingItem) && isEditOpen == old(isEditOpen)
    {
      tenantsList := if answer.Some? then answer.value else Some([]);
    }

    /** The edit event: a falsy id is ignored; otherwise the first row whose id is
        `Number(id)` is opened for editing, and nothing happens when there is none. */
    method OpenEdit(id: JsValue)
      modifies this
      ensures !Truthy(id) || FindIndex(tableData, HasRowId(Number(id))) < 0 ==>
                editingItem == old(editingItem) && isEditOpen == old(isEditOpen)
      ensures Truthy(id) && FindIndex(tableData, HasRowId(Number(id))) >= 0 ==>
                editingItem == Some(tableData[FindIndex(tableData, HasRowId(Number(id)))]) && isEditOpen
      ensures tableData == old(tableData) && tenantsList == old(tenantsList)
    {
      if Truthy(id) {
        var i := FindIndex(tableData, HasRowId(Number(id)));
        if i >= 0 {
          editingItem := Some(tableData[i]);
          isEditOpen := true;
        }
      }
    }

    /** `recordPaymentForTenant`: with a falsy tenant id, when the payment is refused
        or when a request throws, nothing changes; otherwise the table is reloaded
        from the refetched list, or, when that is not an array, the tenant's rows are
        marked paid. */
    method RecordPayment(tenantId: JsValue, postOk: bool, thrown: bool, refetched: Option<seq<Record>>)
      modifies this
      ensures !Truthy(tenantId) || !postOk || thrown ==> tableData == old(tableData)
      ensures Truthy(tenantId) && postOk && !thrown && refetched.Some? ==> tableData == NormalizeAll(refetched.value, tenantsList)
      ensures Truthy(tenantId) && postOk && !thrown && refetched.None? ==> tableData == MarkPaid(old(tableData), tenantId)
      ensures tenantsList == old(tenantsList) && editingItem == old(editingItem) && isEditOpen == old(isEditOpen)
    {
      if !Truthy(tenantId) || !postOk || thrown {
        return;
      }
      if refetched.Some? {
        tableData := NormalizeAll(refetched.value, tenantsList);
      } else {
        tableData := MarkPaid(tableData, tenantId);
      }
    }

    /** `handleAddProperty`: when the endpoint answers with the new row, it is
        normalised and put first; otherwise nothing changes. */
    method AddProperty(response: Option<Record>)
      modifies this
      ensures response.None? ==> tableData == old(tableData)
      ensures response.Some? ==> tableData == [Normalize(response.value, tenantsList)] + old(tableData)
      ensures tenantsList == old(tenantsList) && editingItem == old(editingItem) && isEditOpen == old(isEditOpen)
    {
      if response.Some? {
        tableData := [Normalize(response.value, tenantsList)] + tableData;
      }
    }

    /** `handleDeleteSelected`: the selected ids are removed once every request has
        been answered, whatever the answers; only a request that throws aborts. */
    method DeleteSelected(selected: seq<JsValue>, thrown: bool)
      modifies this
      ensures selected == [] || thrown ==> tableData == old(tableData)
      ensures selected != [] && !thrown ==> tableData == Filter(old(tableData), NotIn(set i | 0 <= i < |selected| :: selected[i]))
      ensures tenantsList == old(tenantsList) && editingItem == old(editingItem) && isEditOpen == old(isEditOpen)
    {
      if selected == [] || thrown {
        return;
      }
      var ids := set i | 0 <= i < |selected| :: selected[i];
      tableData := Filter(tableData, NotIn(ids));
    }

    /** `handleDeleteSingle`: the row goes only when the endpoint answers ok. */
    method DeleteSingle(id: JsValue, ok: bool)
      modifies this
      ensures !ok ==> tableData == old(tableData)
      ensures ok ==> tableData == Filter(old(tableData), NotRowId(id))
      ensures tenantsList == old(tenantsList) && editingItem == old(editingItem) && isEditOpen == old(isEditOpen)
    {
      if ok {
        tableData := Filter(tableData, NotRowId(id));
      }
    }

    /** `handleEditSubmit`: without a row being edited, without a tenant array, or when
        the request throws, nothing changes; otherwise, whatever the endpoint
        answers, the row with the edited id is replaced and the dialog closes. */
    method EditSubmit(fd: FormData, thrown: bool)
      modifies this
      ensures old(editingItem).None? || old(tenantsList).None? || thrown ==>
                tableData == old(tableData) && editingItem == old(editingItem) && isEditOpen == old(isEditOpen)
      ensures old(editingItem).Some? && old(tenantsList).Some? && !thrown ==>
                var updated := EditedRow(old(editingItem).value, BuildPayload(fd), old(tenantsList).value);
                tableData == ReplaceWhere(old(tableData), HasRowId(updated.id), updated)
                && editingItem.None? && !isEditOpen
      ensures tenantsList == old(tenantsList)
    {
      if editingItem.None? || tenantsList.None? || thrown {
        return;
      }
      var updated := EditedRow(editingItem.value, BuildPayload(fd), tenantsList.value);
      tableData := ReplaceWhere(tableData, HasRowId(updated.id), updated);
      isEditOpen := false;
      editingItem := None;
    }
  }

  // ------------------------------------------------------------------ properties

  /** Deleting the selection keeps exactly the rows whose id was not selected, in
      their order. */
  lemma DeleteSelectedKeepsOthers(rows: seq<PropertyRow>, selected: seq<JsValue>)
    ensures var ids := set i | 0 <= i < |selected| :: selected[i];
            var kept := Filter(rows, NotIn(ids));
            (forall r :: r in kept <==> r in rows && r.id !in ids)
            && (forall r :: r in rows && r.id in ids ==> r !in kept)
  {
    var ids := set i | 0 <= i < |selected| :: selected[i];
    forall r | r in rows && r.id !in ids ensures r in Filter(rows, NotIn(ids)) {
      var i :| 0 <= i < |rows| && rows[i] == r;
      assert NotIn(ids)(rows[i]);
    }
  }

  /** The fallback leaves every field but `paymentStatus` alone, and touches only the
      rows of that tenant. */
  lemma MarkPaidOnlyPaymentStatus(rows: seq<PropertyRow>, tenantId: JsValue)
    ensures var r := MarkPaid(rows, tenantId);
            forall i :: 0 <= i < |rows| ==>
              r[i].(paymentStatus := rows[i].paymentStatus) == rows[i]
              && (r[i] != rows[i] ==> StrictEquals(rows[i].tenantId, tenantId) && r[i].paymentStatus == Str("paid"))
  {
  }

  /** An edit replaces at most the rows with the edited id and leaves the others. */
  lemma EditReplacesOnlyThatId(rows: seq<PropertyRow>, updated: PropertyRow)
    ensures var r := ReplaceWhere(rows, HasRowId(updated.id), updated);
            |r| == |rows|
            && forall i :: 0 <= i < |rows| ==>
                 (StrictEquals(rows[i].id, updated.id) ==> r[i] == updated)
                 && (!StrictEquals(rows[i].id, updated.id) ==> r[i] == rows[i])
  {
  }
}
