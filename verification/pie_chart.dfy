/** The revenue pie chart: the rows of the revenue report become chart slices with a
    type, a total and one of five colours in turn; the first slice starts selected. */
module PieChart {
  import opened Wrappers
  import opened Text
  import opened Js
  import opened ListOps
  import RevenueByProperty

  /** A slice: the property, its revenue and its fill colour. */
  datatype Slice = Slice(kind: JsValue, total: JsValue, fill: string)

  /** The colour slot of the `i`-th slice, cycling through the five chart colours. */
  function ColourSlot(i: nat): (k: int)
    ensures 1 <= k <= 5
  {
    i % 5 + 1
  }

  /** Slices five apart share a colour, and consecutive ones do not. */
  lemma ColourCycles(i: nat)
    ensures ColourSlot(i + 5) == ColourSlot(i) && ColourSlot(i + 1) != ColourSlot(i)
  {
    var q, r := i / 5, i % 5;
    assert i == 5 * q + r;
    assert i + 5 == 5 * (q + 1) + r;
    if r < 4 {
      assert i + 1 == 5 * q + (r + 1);
    } else {
      assert i + 1 == 5 * (q + 1) + 0;
    }
  }

  function Fill(i: nat): string
  {
    "var(--chart-" + IntToString(ColourSlot(i)) + ")"
  }

  /** One slice of the `i`-th API row. */
  function ToSlice(item: Record, i: nat): (s: Slice)
    ensures s.kind == (if Nullish(item, "propertyName") then Str("Unknown") else item["propertyName"])
    ensures s.total == Number(Coalesce(item, ["totalRevenue", "total_revenue"], Num(0)))
    ensures s.fill == Fill(i)
  {
    var name := ["propertyName"];
    assert name[0] == "propertyName" && name[1..] == [];
    Slice(Coalesce(item, name, Str("Unknown")),
          Number(Coalesce(item, ["totalRevenue", "total_revenue"], Num(0))),
          Fill(i))
  }

  /** `(data || []).map(...)`: `None` stands for a `null` answer. */
  function ChartData(data: Option<seq<Record>>): (r: seq<Slice>)
    ensures data.None? ==> r == []
    ensures data.Some? ==> |r| == |data.value|
    ensures data.Some? ==> forall i :: 0 <= i < |r| ==> r[i] == ToSlice(data.value[i], i)
  {
    if data.None? then [] else seq(|data.value|, i requires 0 <= i < |data.value| => ToSlice(data.value[i], i))
  }

  /** `formatted[0]?.type ?? null`. */
  function InitialActiveType(slices: seq<Slice>): (t: JsValue)
    ensures slices == [] ==> t == Null
    ensures slices != [] && slices[0].kind != Null ==> t == slices[0].kind
  {
    if slices == [] || slices[0].kind == Null then Null else slices[0].kind
  }

  function KindIs(active: JsValue): Slice -> bool
  {
    (s: Slice) => StrictEquals(s.kind, active)
  }

  /** `chartData.findIndex((i) => i.type === activeType)`. */
  function ActiveIndex(slices: seq<Slice>, active: JsValue): (k: int)
    ensures -1 <= k < |slices|
    ensures k >= 0 ==> StrictEquals(slices[k].kind, active)
    ensures k >= 0 ==> forall j :: 0 <= j < k ==> !StrictEquals(slices[j].kind, active)
    ensures k == -1 <==> forall j :: 0 <= j < |slices| ==> !StrictEquals(slices[j].kind, active)
  {
    FindIndex(slices, KindIs(active))
  }

  /** A JSON value: never NaN. */
  predicate JsonRecord(item: Record)
  {
    forall k :: k in item ==> item[k] != NaN
  }

  /** Once the data arrives, the first slice is the one highlighted; with no data
      nothing is. */
  lemma FirstSliceActive(data: Option<seq<Record>>)
    requires data.Some? ==> forall i :: 0 <= i < |data.value| ==> JsonRecord(data.value[i])
    ensures var slices := ChartData(data);
            ActiveIndex(slices, InitialActiveType(slices)) == (if slices == [] then -1 else 0)
  {
    var slices := ChartData(data);
    if slices != [] {
      var item := data.value[0];
      assert "propertyName" in item ==> item["propertyName"] != NaN;
    }
  }

  /** The revenue report's rows as the endpoint sends them. */
  function RevenueJson(r: RevenueByProperty.RevenueRow): Record
  {
    map["propertyName" := Str(r.propertyName), "totalRevenue" := Num(r.totalRevenue)]
  }

  function RevenueJsonAll(rows: seq<RevenueByProperty.RevenueRow>): (r: seq<Record>)
    ensures |r| == |rows|
    ensures forall i :: 0 <= i < |rows| ==> r[i] == RevenueJson(rows[i])
  {
    if rows == [] then [] else [RevenueJson(rows[0])] + RevenueJsonAll(rows[1..])
  }

  /** The slice of one report row is that row's name and revenue. */
  lemma SliceOfRevenueRow(r: RevenueByProperty.RevenueRow, i: nat)
    ensures ToSlice(RevenueJson(r), i) == Slice(Str(r.propertyName), Num(r.totalRevenue), Fill(i))
  {
    var item := RevenueJson(r);
    assert item["propertyName"] == Str(r.propertyName) && item["totalRevenue"] == Num(r.totalRevenue);
    CoalesceFirst(item, ["totalRevenue", "total_revenue"], Num(0));
  }

  /** The slices of the revenue report are its rows' names and revenues, in order. */
  lemma SlicesOfRevenue(rows: seq<RevenueByProperty.RevenueRow>)
    ensures var slices := ChartData(Some(RevenueJsonAll(rows)));
            |slices| == |rows|
            && forall i :: 0 <= i < |rows| ==> slices[i] == Slice(Str(rows[i].propertyName), Num(rows[i].totalRevenue), Fill(i))
  {
    forall i | 0 <= i < |rows| {
      SliceOfRevenueRow(rows[i], i);
    }
  }
}
