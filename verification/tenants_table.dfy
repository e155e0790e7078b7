/** The tenants table on the client: the payloads built by the add and edit forms,
    and the table state the add, save, delete and bulk-delete handlers update. */
module TenantsTable {
  import opened Wrappers
  import opened Text
  import opened Js
  import opened Dates
  import opened ListOps

  /** A tenant as the API returns it. `status`, `moveIn`, `moveOut` and `notes`
      may come back `null`, which `None` stands for. */
  datatype TenantRecord = TenantRecord(
    id: int, fullName: string, phone: string, email: string, rent: int,
    status: Option<string>, moveIn: Option<string>, moveOut: Option<string>,
    createdAt: string, notes: Option<string>)

  /** The JSON body of a create or an update. */
  datatype TenantPayload = TenantPayload(
    fullName: string, email: string, phone: string, rent: JsValue, status: string,
    moveIn: string, moveOut: string, notes: string)

  /** `String(fd.get(key) ?? "")`. */
  function FormText(fd: FormData, key: string): string
  {
    if key in fd then fd[key] else ""
  }

  /** The add form's payload: name, email and phone trimmed, rent converted with
      `Number(...)` (0 when the field is absent), and status always `"active"`. */
  function AddPayload(fd: FormData): (p: TenantPayload)
    ensures p.fullName == Trim(FormText(fd, "fullName")) && p.email == Trim(FormText(fd, "email"))
    ensures p.phone == Trim(FormText(fd, "phone"))
    ensures p.status == "active"
    ensures "rent" in fd ==> p.rent == Number(Str(fd["rent"]))
    ensures "rent" !in fd ==> p.rent == Num(0)
    ensures p.moveIn == FormText(fd, "moveIn") && p.moveOut == FormText(fd, "moveOut")
    ensures p.notes == FormText(fd, "notes")
  {
    TenantPayload(
      fullName := Trim(FormText(fd, "fullName")),
      email := Trim(FormText(fd, "email")),
      phone := Trim(FormText(fd, "phone")),
      rent := if "rent" in fd then Number(Str(fd["rent"])) else Num(0),
      status := "active",
      moveIn := FormText(fd, "moveIn"),
      moveOut := FormText(fd, "moveOut"),
      notes := FormText(fd, "notes"))
  }

  /** The edit form's fields, as text inputs hold them. */
  datatype EditForm = EditForm(
    fullName: string, email: string, phone: string, rent: string,
    moveIn: string, moveOut: string, notes: string)

  /** `s?.slice(0, 10) ?? ""`. */
  function FirstTen(s: Option<string>): (r: string)
    ensures |r| <= 10
    ensures s.Some? ==> r == s.value[..if |s.value| < 10 then |s.value| else 10]
    ensures s.None? ==> r == ""
  {
    match s
    case None => ""
    case Some(t) => if |t| < 10 then t else t[..10]
  }

  /** The edit form's initial state, taken from the tenant being edited. */
  function EditFormFor(t: TenantRecord): (f: EditForm)
    ensures f.fullName == t.fullName && f.email == t.email && f.phone == t.phone
    ensures Number(Str(f.rent)) == Num(t.rent)
    ensures f.moveIn == FirstTen(t.moveIn) && f.moveOut == FirstTen(t.moveOut)
    ensures f.notes == t.notes.GetOr("")
  {
    NumberOfIntToString(t.rent);
    EditForm(t.fullName, t.email, t.phone, IntToString(t.rent),
             FirstTen(t.moveIn), FirstTen(t.moveOut), t.notes.GetOr(""))
  }

  /** The edit form's payload: name, email and phone trimmed, rent as
      `Number(rent) || 0`, and the tenant's own status, `"active"` when it has none. */
  function EditPayload(t: TenantRecord, f: EditForm): (p: TenantPayload)
    ensures p.fullName == Trim(f.fullName) && p.email == Trim(f.email) && p.phone == Trim(f.phone)
    ensures p.rent.Num? && (Number(Str(f.rent)).NaN? ==> p.rent == Num(0))
    ensures Number(Str(f.rent)).Num? ==> p.rent == Number(Str(f.rent))
    ensures p.status == t.status.GetOr("active")
    ensures p.moveIn == f.moveIn && p.moveOut == f.moveOut && p.notes == f.notes
  {
    TenantPayload(
      fullName := Trim(f.fullName),
      email := Trim(f.email),
      phone := Trim(f.phone),
      rent := Num(NumberOrZero(Str(f.rent))),
      status := t.status.GetOr("active"),
      moveIn := f.moveIn,
      moveOut := f.moveOut,
      notes := f.notes)
  }

  /** Saving the edit form untouched sends the tenant's own rent and status, its
      trimmed name, email and phone, and its dates cut to their first ten
      characters. */
  lemma UntouchedEditKeepsTenant(t: TenantRecord)
    ensures var p := EditPayload(t, EditFormFor(t));
            p.rent == Num(t.rent) && p.status == t.status.GetOr("active")
            && p.fullName == Trim(t.fullName) && p.email == Trim(t.email) && p.phone == Trim(t.phone)
            && p.moveIn == FirstTen(t.moveIn) && p.moveOut == FirstTen(t.moveOut)
            && p.notes == t.notes.GetOr("")
  {
  }

  /** A stored move-in timestamp `YYYY-MM-DDT...` starts the edit form with its date. */
  lemma FirstTenOfTimestamp(d: Date, rest: string)
    requires ValidDate(d) && FourDigitYear(d)
    ensures FirstTen(Some(FormatIso(d) + rest)) == FormatIso(d)
  {
    var s := FormatIso(d) + rest;
    assert s[..10] == FormatIso(d);
  }

  /** Filling the edit form with the values of a payload it produced and submitting
      again sends the same payload. */
  lemma EditPayloadIdempotent(t: TenantRecord, f: EditForm)
    ensures var p := EditPayload(t, f);
            var again := EditPayload(t, EditForm(p.fullName, p.email, p.phone, IntToString(p.rent.n), p.moveIn, p.moveOut, p.notes));
            again == p
  {
    var p := EditPayload(t, f);
    TrimIdempotent(f.fullName);
    TrimIdempotent(f.email);
    TrimIdempotent(f.phone);
    NumberOfIntToString(p.rent.n);
  }

  // ------------------------------------------------------------------ the table

  function SameId(id: int): TenantRecord -> bool
  {
    (t: TenantRecord) => t.id == id
  }

  function OtherId(id: int): TenantRecord -> bool
  {
    (t: TenantRecord) => t.id != id
  }

  function NotListed(ids: seq<int>): TenantRecord -> bool
  {
    (t: TenantRecord) => t.id !in ids
  }

  /** The ids whose DELETE answered ok, in selection order. */
  function Succeeded(ids: seq<int>, oks: seq<bool>): (r: seq<int>)
    requires |oks| == |ids|
    ensures forall x :: x in r <==> exists i :: 0 <= i < |ids| && ids[i] == x && oks[i]
  {
    if ids == [] then []
    else
      var rest := Succeeded(ids[1..], oks[1..]);
      assert forall i :: 1 <= i < |ids| ==> ids[1..][i - 1] == ids[i] && oks[1..][i - 1] == oks[i];
      (if oks[0] then [ids[0]] else []) + rest
  }

  class Table {
    var tableData: seq<TenantRecord>
    var isAddOpen: bool
    var editTenant: Option<TenantRecord>

    constructor ()
      ensures tableData == [] && !isAddOpen && editTenant.None?
    {
      tableData, isAddOpen, editTenant := [], false, None;
    }

    /** `onAdded`: the created tenant the endpoint returns is put first and the
        dialog closes; a refused create changes nothing. */
    method Added(created: Option<TenantRecord>)
      modifies this
      ensures created.None? ==> tableData == old(tableData) && isAddOpen == old(isAddOpen)
      ensures created.Some? ==> tableData == [created.value] + old(tableData) && !isAddOpen
      ensures |tableData| == |old(tableData)| + (if created.Some? then 1 else 0)
      ensures editTenant == old(editTenant)
    {
      if created.Some? {
        tableData := [created.value] + tableData;
        isAddOpen := false;
      }
    }

    /** `onSaved`: the tenant the endpoint returns replaces the rows with its id and
        the edit dialog closes; a refused update changes nothing. */
    method Saved(updated: Option<TenantRecord>)
      modifies this
      ensures updated.None? ==> tableData == old(tableData) && editTenant == old(editTenant)
      ensures updated.Some? ==> tableData == ReplaceWhere(old(tableData), SameId(updated.value.id), updated.value)
                                && editTenant.None?
      ensures isAddOpen == old(isAddOpen)
    {
      if updated.Some? {
        tableData := ReplaceWhere(tableData, SameId(updated.value.id), updated.value);
        editTenant := None;
      }
    }

    /** The row menu's delete: the tenant goes only when the endpoint answers ok. */
    method DeleteSingle(id: int, ok: bool)
      modifies this
      ensures !ok ==> tableData == old(tableData)
      ensures ok ==> tableData == Filter(old(tableData), OtherId(id))
      ensures isAddOpen == old(isAddOpen) && editTenant == old(editTenant)
    {
      if ok {
        tableData := Filter(tableData, OtherId(id));
      }
    }

    /** The bulk delete: `oks[i]` is whether the DELETE of `ids[i]` answered ok;
        exactly the ids that succeeded are removed. */
    method BulkDelete(ids: seq<int>, oks: seq<bool>)
      requires |oks| == |ids|
      modifies this
      ensures tableData == Filter(old(tableData), NotListed(Succeeded(ids, oks)))
      ensures isAddOpen == old(isAddOpen) && editTenant == old(editTenant)
    {
      tableData := Filter(tableData, NotListed(Succeeded(ids, oks)));
    }
  }

  // ------------------------------------------------------------------ properties

  /** After a bulk delete, a tenant remains exactly when no DELETE of its id answered
      ok: failed ids stay and unselected rows stay. */
  lemma BulkDeleteRemovesExactlySucceeded(rows: seq<TenantRecord>, ids: seq<int>, oks: seq<bool>)
    requires |oks| == |ids|
    ensures var kept := Filter(rows, NotListed(Succeeded(ids, oks)));
            forall t :: t in kept <==> t in rows && !exists i :: 0 <= i < |ids| && ids[i] == t.id && oks[i]
  {
    var succeeded := Succeeded(ids, oks);
    forall t | t in rows && t.id !in succeeded ensures t in Filter(rows, NotListed(succeeded)) {
      var k :| 0 <= k < |rows| && rows[k] == t;
      assert NotListed(succeeded)(rows[k]);
    }
  }

  /** When every DELETE fails the table is unchanged. */
  lemma AllFailedKeepsTable(rows: seq<TenantRecord>, ids: seq<int>, oks: seq<bool>)
    requires |oks| == |ids| && forall i :: 0 <= i < |oks| ==> !oks[i]
    ensures Filter(rows, NotListed(Succeeded(ids, oks))) == rows
  {
    FilterKeepsAll(rows, NotListed(Succeeded(ids, oks)));
  }

  /** A single delete keeps every other tenant, in order. */
  lemma DeleteSingleKeepsOthers(rows: seq<TenantRecord>, id: int)
    ensures var kept := Filter(rows, OtherId(id));
            forall t :: t in kept <==> t in rows && t.id != id
  {
    forall t | t in rows && t.id != id ensures t in Filter(rows, OtherId(id)) {
      var k :| 0 <= k < |rows| && rows[k] == t;
      assert OtherId(id)(rows[k]);
    }
  }

  /** Saving replaces exactly the rows with the updated id. */
  lemma SavedReplacesOnlyThatId(rows: seq<TenantRecord>, updated: TenantRecord)
    ensures var r := ReplaceWhere(rows, SameId(updated.id), updated);
            |r| == |rows|
            && forall i :: 0 <= i < |rows| ==>
                 (rows[i].id == updated.id ==> r[i] == updated) && (rows[i].id != updated.id ==> r[i] == rows[i])
  {
  }
}
