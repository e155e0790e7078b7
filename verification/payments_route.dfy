/** The payments endpoint: POST validates a request body and records a payment,
    leaving the date to the column default when the body gives none. */
module PaymentsRoute {
  import opened Wrappers
  import opened Js
  import opened Dates
  import opened Schema
  import opened Request

  /** The values POST passes to the insert; `datePaid` only when it is truthy. */
  datatype PaymentValues = PaymentValues(tenantId: JsValue, amount: JsValue, datePaid: Option<JsValue>)

  const TenantAndAmountRequired := "tenantId and amount are required"

  /** The validation of a POST body: a falsy `tenantId` (absent, null, 0, "") or an
      absent `amount` is a 400; an `amount` of 0 or null passes. */
  function PostValues(body: Record): (r: Checked<PaymentValues>)
    ensures r.Rejected? <==> !FieldTruthy(body, "tenantId") || "amount" !in body
    ensures r.Rejected? ==> r.message == TenantAndAmountRequired
    ensures r.Accepted? ==> r.value.tenantId == body["tenantId"] && r.value.amount == body["amount"]
    ensures r.Accepted? ==> (r.value.datePaid.Some? <==> FieldTruthy(body, "datePaid"))
    ensures r.Accepted? && r.value.datePaid.Some? ==> r.value.datePaid.value == body["datePaid"]
  {
    if !FieldTruthy(body, "tenantId") || "amount" !in body then Rejected(TenantAndAmountRequired)
    else Accepted(PaymentValues(
      body["tenantId"], body["amount"],
      if FieldTruthy(body, "datePaid") then Some(body["datePaid"]) else None))
  }

  /** A value bound to the `date_paid` column: a `YYYY-MM-DD` string. */
  function AsDate(v: JsValue): (r: Option<Date>)
    ensures r.Some? ==> v.Str? && ParseIso(v.s) == r && ValidDate(r.value)
  {
    if v.Str? then ParseIso(v.s) else None
  }

  /** The columns of the new row, as the database reads the values: the tenant id is
      an `integer`; the date is `None` when the column default applies. */
  datatype PaymentColumns = PaymentColumns(tenantId: int, amount: int, datePaid: Option<Date>)

  function Columns(v: PaymentValues): (r: Option<PaymentColumns>)
    ensures r.Some? <==> AsInt(v.tenantId).Some? && FitsInteger(AsInt(v.tenantId).value) && AsInt(v.amount).Some?
                         && (v.datePaid.None? || AsDate(v.datePaid.value).Some?)
    ensures r.Some? ==> r.value.tenantId == AsInt(v.tenantId).value && r.value.amount == AsInt(v.amount).value
    ensures r.Some? ==> (r.value.datePaid.None? <==> v.datePaid.None?)
    ensures r.Some? && v.datePaid.Some? ==> r.value.datePaid == AsDate(v.datePaid.value)
  {
    var tenantId, amount := AsInt(v.tenantId), AsInt(v.amount);
    var date := if v.datePaid.None? then Some(None)
                else match AsDate(v.datePaid.value) case Some(d) => Some(Some(d)) case None => None;
    if tenantId.Some? && FitsInteger(tenantId.value) && amount.Some? && date.Some? then
      Some(PaymentColumns(tenantId.value, amount.value, date.value))
    else None
  }

  const CreateFailed := "Failed to create payment"

  /** The answer of POST /api/payments for a body, given the tenants, the next serial
      id and today's date: a 400 when validation fails; a 500 when a value does not fit
      its column (a null amount included) or the tenant does not exist; else the single
      inserted row. */
  function PostResponse(tenants: seq<Tenant>, serial: int, body: Record, today: Date): (r: Response<Payment>)
    ensures r.BadRequest? <==> PostValues(body).Rejected?
    ensures r.BadRequest? ==> r.message == TenantAndAmountRequired
    ensures r.ServerError? ==> r.message == CreateFailed
    ensures r.Ok? <==> PostValues(body).Accepted? && Columns(PostValues(body).value).Some?
                       && Columns(PostValues(body).value).value.tenantId in TenantIds(tenants)
    ensures r.Ok? ==> var c := Columns(PostValues(body).value).value;
                      r.body.id == serial && r.body.tenantId == c.tenantId && r.body.amount == c.amount
                      && r.body.datePaid == (if c.datePaid.Some? then c.datePaid.value else today)
  {
    match PostValues(body)
    case Rejected(message) => BadRequest(message)
    case Accepted(v) =>
      match Columns(v)
      case None => ServerError(CreateFailed)
      case Some(c) =>
        if c.tenantId in TenantIds(tenants) then Ok(Payment(serial, c.tenantId, c.amount, c.datePaid.GetOr(today)))
        else ServerError(CreateFailed)
  }

  /** POST /api/payments: answers as `PostResponse` does; a successful insert appends
      the returned row, and an insert that reaches the database uses up a serial id. */
  method Post(store: Store, body: Record, today: Date) returns (resp: Response<Payment>)
    requires store.Valid()
    modifies store
    ensures store.Valid()
    ensures resp == PostResponse(old(store.tenants), old(store.paymentSerial), body, today)
    ensures PostValues(body).Rejected? ==> unchanged(store)
    ensures resp.Ok? ==> store.payments == old(store.payments) + [resp.body]
    ensures !resp.Ok? ==> store.payments == old(store.payments)
    ensures store.tenants == old(store.tenants) && store.properties == old(store.properties)
    ensures store.paymentSerial == old(store.paymentSerial)
              + (if PostValues(body).Accepted? && Columns(PostValues(body).value).Some? then 1 else 0)
    ensures store.tenantSerial == old(store.tenantSerial) && store.propertySerial == old(store.propertySerial)
  {
    var checked := PostValues(body);
    if checked.Rejected? {
      return BadRequest(checked.message);
    }
    var columns := Columns(checked.value);
    if columns.None? {
      return ServerError(CreateFailed);
    }
    var c := columns.value;
    var row := store.InsertPayment(c.tenantId, c.amount, c.datePaid, today);
    if row.None? {
      return ServerError(CreateFailed);
    }
    resp := Ok(row.value);
  }

  /** A body with an existing tenant's id, an integer amount and a valid date is
      answered with exactly that payment, under the next serial id; `Post` appends
      that row to the payments. */
  lemma WellFormedBodyAccepted(tenants: seq<Tenant>, serial: int, tenantId: int, amount: int, d: Date, today: Date)
    requires tenantId in TenantIds(tenants) && tenantId != 0 && FitsInteger(tenantId)
    requires ValidDate(d) && FourDigitYear(d)
    ensures var body := map["tenantId" := Num(tenantId), "amount" := Num(amount), "datePaid" := Str(FormatIso(d))];
            PostResponse(tenants, serial, body, today) == Ok(Payment(serial, tenantId, amount, d))
  {
    var body := map["tenantId" := Num(tenantId), "amount" := Num(amount), "datePaid" := Str(FormatIso(d))];
    assert body["tenantId"] == Num(tenantId) && body["amount"] == Num(amount) && body["datePaid"] == Str(FormatIso(d));
    BodyAccepted(tenants, serial, today, body, tenantId, amount, d);
  }

  /** Any body holding those three fields, whatever else it holds, passes validation,
      reads into exactly those columns, and records that payment when the tenant
      exists; when it does not, the answer is a 500. */
  lemma BodyAccepted(tenants: seq<Tenant>, serial: int, today: Date,
                     body: Record, tenantId: int, amount: int, d: Date)
    requires tenantId != 0 && FitsInteger(tenantId) && ValidDate(d) && FourDigitYear(d)
    requires "tenantId" in body && body["tenantId"] == Num(tenantId)
    requires "amount" in body && body["amount"] == Num(amount)
    requires "datePaid" in body && body["datePaid"] == Str(FormatIso(d))
    ensures PostValues(body).Accepted?
    ensures Columns(PostValues(body).value) == Some(PaymentColumns(tenantId, amount, Some(d)))
    ensures tenantId in TenantIds(tenants) ==> PostResponse(tenants, serial, body, today) == Ok(Payment(serial, tenantId, amount, d))
    ensures tenantId !in TenantIds(tenants) ==> PostResponse(tenants, serial, body, today) == ServerError(CreateFailed)
  {
    IsoRoundTrip(d);
  }
}
