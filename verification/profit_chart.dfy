/** The profit line chart: reading the theme's colour variables (with fallbacks),
    and the plotted series, four fixed months followed by the profit report, with
    its total. */
module ProfitChart {
  import opened Wrappers
  import opened Text
  import opened Js
  import opened ListOps
  import Schema
  import Profit

  // ------------------------------------------------------------------ colour values

  /** The length of the run of digits starting at `i`. */
  function DigitRun(s: string, i: nat): (n: nat)
    requires i <= |s|
    ensures i + n <= |s|
    decreases |s| - i
  {
    if i < |s| && IsDigit(s[i]) then 1 + DigitRun(s, i + 1) else 0
  }

  /** The length of the run of space characters starting at `i`. */
  function SpaceRun(s: string, i: nat): (n: nat)
    requires i <= |s|
    ensures i + n <= |s|
    decreases |s| - i
  {
    if i < |s| && IsSpace(s[i]) then 1 + SpaceRun(s, i + 1) else 0
  }

  /** The pattern `\d+\s+\d+%?\s+\d+%?` matches at position `i`. Digits and spaces
      are disjoint classes and `%` is neither, so taking each run whole is the only
      way the pattern can match: a run of digits, then the rest from its end. */
  predicate MatchAt(s: string, i: nat): (b: bool)
    requires i <= |s|
    ensures b ==> i + 5 <= |s| && IsDigit(s[i])
  {
    DigitRun(s, i) > 0 && AfterFirstNumber(s, i + DigitRun(s, i))
  }

  /** `\s+\d+%?\s+\d+%?` at `j`. */
  predicate AfterFirstNumber(s: string, j: nat): (b: bool)
    requires j <= |s|
    ensures b ==> j + 4 <= |s|
  {
    SpaceRun(s, j) > 0 && SecondNumber(s, j + SpaceRun(s, j))
  }

  /** `\d+%?\s+\d+%?` at `k`. */
  predicate SecondNumber(s: string, k: nat): (b: bool)
    requires k <= |s|
    ensures b ==> k + 3 <= |s|
  {
    DigitRun(s, k) > 0 && AfterSecondNumber(s, k + DigitRun(s, k))
  }

  /** `%?\s+\d` at `l` (the last number's further digits and `%` need not be there). */
  predicate AfterSecondNumber(s: string, l: nat): (b: bool)
    requires l <= |s|
    ensures b ==> l + 2 <= |s|
  {
    var l' := if l < |s| && s[l] == '%' then l + 1 else l;
    SpaceRun(s, l') > 0 && l' + SpaceRun(s, l') < |s| && IsDigit(s[l' + SpaceRun(s, l')])
  }

  /** `/\d+\s+\d+%?\s+\d+%?/.test(s)`: the pattern matches at some position. */
  predicate HasColourTriple(s: string): (b: bool)
    ensures b ==> 5 <= |s| && exists i :: 0 <= i < |s| && IsDigit(s[i])
  {
    exists i :: 0 <= i < |s| && MatchAt(s, i)
  }

  /** Already a CSS colour: starts with `#`, `rgb` or `hsl`. */
  predicate ColourFunction(v: string)
  {
    StartsWith(v, "#") || StartsWith(v, "rgb") || StartsWith(v, "hsl")
  }

  /** `normalizeCssVarValue`: empty stays empty; a value starting with `#`, `rgb` or
      `hsl` is kept trimmed; a bare space-separated triple is wrapped in `hsl(...)`;
      anything else is kept trimmed. */
  function NormalizeCssVarValue(value: string): (r: string)
    ensures value == [] ==> r == []
    ensures value != [] && ColourFunction(Trim(value)) ==> r == Trim(value)
    ensures value != [] && !ColourFunction(Trim(value)) && HasColourTriple(Trim(value)) ==> r == "hsl(" + Trim(value) + ")"
    ensures value != [] && !ColourFunction(Trim(value)) && !HasColourTriple(Trim(value)) ==> r == Trim(value)
  {
    if value == [] then []
    else
      var v := Trim(value);
      if ColourFunction(v) then v
      else if HasColourTriple(v) then "hsl(" + v + ")"
      else v
  }

  /** Normalising a normalised value changes nothing. */
  lemma NormalizeIdempotent(value: string)
    ensures NormalizeCssVarValue(NormalizeCssVarValue(value)) == NormalizeCssVarValue(value)
  {
    if value != [] {
      var v := Trim(value);
      TrimIdempotent(value);
      if !ColourFunction(v) && HasColourTriple(v) {
        WrappedIsSettled(v);
      } else {
        TrimmedIsSettled(v);
      }
    }
  }

  /** A trimmed value that is not a bare triple, or is already a colour, is kept. */
  lemma TrimmedIsSettled(v: string)
    requires Trim(v) == v && (ColourFunction(v) || !HasColourTriple(v))
    ensures NormalizeCssVarValue(v) == v
  {
  }

  /** A wrapped triple is a colour and is kept. */
  lemma WrappedIsSettled(v: string)
    ensures NormalizeCssVarValue("hsl(" + v + ")") == "hsl(" + v + ")"
  {
    WrappedShape(v, "hsl(" + v + ")");
    ColourIsSettled("hsl(" + v + ")");
  }

  lemma WrappedShape(v: string, w: string)
    requires w == "hsl(" + v + ")"
    ensures ColourFunction(w) && !IsSpace(w[|w| - 1])
  {
    assert w[..3] == "hsl" && w[|w| - 1] == ')';
  }

  /** `normalizeCssVarValue(raw) || fallback`. */
  function Resolve(raw: string, fallback: string): (r: string)
    ensures NormalizeCssVarValue(raw) != [] ==> r == NormalizeCssVarValue(raw)
    ensures NormalizeCssVarValue(raw) == [] ==> r == fallback
  {
    var n := NormalizeCssVarValue(raw);
    if n == [] then fallback else n
  }

  const DefaultStroke := "hsl(220 90% 50%)"
  const DefaultBackground := "#ffffff"

  /** The resolved stroke and background are never empty, and are values the
      normalisation leaves alone. */
  lemma ResolvedColoursSettled(rawChart: string, rawBg: string)
    ensures Resolve(rawChart, DefaultStroke) != [] && Resolve(rawBg, DefaultBackground) != []
    ensures NormalizeCssVarValue(Resolve(rawChart, DefaultStroke)) == Resolve(rawChart, DefaultStroke)
    ensures NormalizeCssVarValue(Resolve(rawBg, DefaultBackground)) == Resolve(rawBg, DefaultBackground)
  {
    StrokeSettled();
    BackgroundSettled();
    ResolveSettled(rawChart, DefaultStroke);
    ResolveSettled(rawBg, DefaultBackground);
  }

  /** A non-empty settled fallback makes the resolved value settled. */
  lemma ResolveSettled(raw: string, fallback: string)
    requires fallback != [] && NormalizeCssVarValue(fallback) == fallback
    ensures Resolve(raw, fallback) != [] && NormalizeCssVarValue(Resolve(raw, fallback)) == Resolve(raw, fallback)
  {
    NormalizeIdempotent(raw);
  }

  lemma StrokeSettled()
    ensures NormalizeCssVarValue(DefaultStroke) == DefaultStroke
  {
    var s := DefaultStroke;
    assert s[..3] == "hsl" && s[|s| - 1] == ')';
    ColourIsSettled(s);
  }

  lemma BackgroundSettled()
    ensures NormalizeCssVarValue(DefaultBackground) == DefaultBackground
  {
    var b := DefaultBackground;
    assert b[..1] == "#" && b[|b| - 1] == 'f';
    ColourIsSettled(b);
  }

  /** A colour value with no trailing space is kept as it is. */
  lemma ColourIsSettled(w: string)
    requires ColourFunction(w) && !IsSpace(w[|w| - 1])
    ensures NormalizeCssVarValue(w) == w
  {
    assert !IsSpace(w[0]);
    TrimOfTrimmed(w);
    TrimmedIsSettled(w);
  }

  /** A value that holds a bare triple such as `220 90% 50%` (digits, a space,
      digits with an optional `%`, a space, digits) is recognised wherever it sits. */
  lemma TripleRecognised(pre: string, x: string, y: string, z: string, pct: bool, post: string)
    requires x != [] && y != [] && z != [] && AllDigits(x) && AllDigits(y) && AllDigits(z)
    ensures HasColourTriple(pre + (x + (" " + (y + ((if pct then "%" else "") + (" " + (z + post)))))))
  {
    var p := if pct then "%" else "";
    var t4 := " " + (z + post);
    var t3 := p + t4;
    var t2 := y + t3;
    var t1 := " " + t2;
    var t := x + t1;
    var s := pre + t;
    var i := |pre|;
    assert forall k :: i <= k < i + |x| ==> s[k] == x[k - i];
    assert s[i + |x|] == ' ';
    var k := i + |x| + 1;
    assert forall q :: k <= q < k + |y| ==> s[q] == y[q - k];
    var l := k + |y|;
    assert pct ==> s[l] == '%';
    assert !pct ==> s[l] == ' ';
    var l' := if pct then l + 1 else l;
    assert s[l'] == ' ' && s[l' + 1] == z[0];
    MatchAtParts(s, i, |x|, |y|, pct);
  }

  /** The pattern matches at `i` when digits, one space, digits, an optional `%`,
      one space and a digit follow one another there. */
  lemma MatchAtParts(s: string, i: nat, a: nat, c: nat, pct: bool)
    requires a > 0 && c > 0
    requires i + a + 1 + c + (if pct then 1 else 0) + 1 < |s|
    requires forall k :: i <= k < i + a ==> IsDigit(s[k])
    requires s[i + a] == ' '
    requires forall k :: i + a + 1 <= k < i + a + 1 + c ==> IsDigit(s[k])
    requires pct ==> s[i + a + 1 + c] == '%'
    requires s[i + a + 1 + c + (if pct then 1 else 0)] == ' '
    requires IsDigit(s[i + a + 1 + c + (if pct then 1 else 0) + 1])
    ensures HasColourTriple(s)
  {
    var j, k := i + a, i + a + 1;
    RunOfDigits(s, i, a);
    OneSpace(s, j);
    assert !IsDigit(s[k + c]);
    RunOfDigits(s, k, c);
    TailAt(s, k + c, pct);
    assert SecondNumber(s, k);
    assert AfterFirstNumber(s, j);
    assert MatchAt(s, i);
  }

  /** An optional `%`, one space and a digit at `l` complete the pattern. */
  lemma TailAt(s: string, l: nat, pct: bool)
    requires l + (if pct then 1 else 0) + 1 < |s|
    requires pct ==> s[l] == '%'
    requires s[l + (if pct then 1 else 0)] == ' '
    requires IsDigit(s[l + (if pct then 1 else 0) + 1])
    ensures AfterSecondNumber(s, l)
  {
    OneSpace(s, l + (if pct then 1 else 0));
  }

  /** Digits from `i` to `i + n` followed by a non-digit are a run of length `n`. */
  lemma {:induction false} RunOfDigits(s: string, i: nat, n: nat)
    requires i + n < |s|
    requires forall k :: i <= k < i + n ==> IsDigit(s[k])
    requires !IsDigit(s[i + n])
    ensures DigitRun(s, i) == n
    decreases n
  {
    if n > 0 {
      RunOfDigits(s, i + 1, n - 1);
    }
  }

  lemma OneSpace(s: string, j: nat)
    requires j + 1 < |s| && s[j] == ' ' && IsDigit(s[j + 1])
    ensures SpaceRun(s, j) == 1
  {
    assert !IsSpace(s[j + 1]);
  }

  // ------------------------------------------------------------------ the series

  /** A plotted point; `month` is `None` when the row has none. */
  datatype Point = Point(month: Option<JsValue>, profit: JsValue)

  const MockBeforeThisMonth: seq<Point> := [
    Point(Some(Str("2024-07")), Num(2600)),
    Point(Some(Str("2024-08")), Num(3100)),
    Point(Some(Str("2024-09")), Num(20900)),
    Point(Some(Str("2024-10")), Num(3400))
  ]

  /** `{ month: item.month, profit: Number(item.total) }`. */
  function ToPoint(item: Record): (p: Point)
    ensures p.month == Field(item, "month")
    ensures p.profit == NumberOf(Field(item, "total"))
  {
    Point(Field(item, "month"), NumberOf(Field(item, "total")))
  }

  function Points(data: seq<Record>): (r: seq<Point>)
    ensures |r| == |data|
    ensures forall i :: 0 <= i < |data| ==> r[i] == ToPoint(data[i])
  {
    if data == [] then [] else [ToPoint(data[0])] + Points(data[1..])
  }

  /** `[...mockBeforeThisMonth, ...formatted]`. */
  function ChartData(data: seq<Record>): (r: seq<Point>)
    ensures |r| == 4 + |data|
    ensures r[..4] == MockBeforeThisMonth
    ensures forall i :: 0 <= i < |data| ==> r[4 + i] == ToPoint(data[i])
  {
    MockBeforeThisMonth + Points(data)
  }

  predicate Numeric(points: seq<Point>)
  {
    forall i :: 0 <= i < |points| ==> points[i].profit.Num? || points[i].profit.NaN?
  }

  function ProfitOf(p: Point): int
  {
    if p.profit.Num? then p.profit.n else 0
  }

  /** `points.reduce((sum, d) => sum + d.profit, acc)`. */
  function Reduce(acc: JsValue, points: seq<Point>): (r: JsValue)
    requires acc.Num? || acc.NaN?
    requires Numeric(points)
    ensures r.Num? || r.NaN?
    decreases |points|
    ensures r.NaN? <==> acc.NaN? || exists i :: 0 <= i < |points| && points[i].profit.NaN?
    ensures r.Num? ==> r.n == acc.n + Sum(points, ProfitOf)
  {
    if points == [] then acc
    else
      var rest := Reduce(Add(acc, points[0].profit), points[1..]);
      assert forall i :: 1 <= i < |points| ==> points[1..][i - 1] == points[i];
      rest
  }

  /** `totalProfit`. */
  function TotalProfit(points: seq<Point>): (r: JsValue)
    requires Numeric(points)
    ensures r.NaN? <==> exists i :: 0 <= i < |points| && points[i].profit.NaN?
    ensures r.Num? ==> r.n == Sum(points, ProfitOf)
  {
    Reduce(Num(0), points)
  }

  /** The four fixed months add 30000 to whatever the report contributes. */
  lemma TotalIncludesMock(data: seq<Record>)
    ensures Numeric(ChartData(data))
    ensures var total := TotalProfit(ChartData(data));
            (total.NaN? <==> exists i :: 0 <= i < |data| && NumberOf(Field(data[i], "total")).NaN?)
            && (total.Num? ==> total.n == 30000 + Sum(Points(data), ProfitOf))
  {
    var mock, pts := MockBeforeThisMonth, Points(data);
    assert ChartData(data) == mock + pts;
    MockSum();
    TotalWithFront(mock, pts);
    assert (exists j :: 0 <= j < |pts| && pts[j].profit.NaN?)
       <==> exists j :: 0 <= j < |data| && NumberOf(Field(data[j], "total")).NaN?;
  }

  /** Numbers in front of a series add their sum to its total and no NaN. */
  lemma TotalWithFront(front: seq<Point>, pts: seq<Point>)
    requires forall i :: 0 <= i < |front| ==> front[i].profit.Num?
    requires Numeric(pts)
    ensures Numeric(front + pts)
    ensures var total := TotalProfit(front + pts);
            (total.NaN? <==> exists j :: 0 <= j < |pts| && pts[j].profit.NaN?)
            && (total.Num? ==> total.n == Sum(front, ProfitOf) + Sum(pts, ProfitOf))
  {
    NaNOnlyInReport(front, pts);
    SumAppend(front, pts, ProfitOf);
  }

  /** The fixed months are numbers adding up to 30000. */
  lemma MockSum()
    ensures forall i :: 0 <= i < |MockBeforeThisMonth| ==> MockBeforeThisMonth[i].profit.Num?
    ensures Sum(MockBeforeThisMonth, ProfitOf) == 30000
  {
    var m := MockBeforeThisMonth;
    assert m[1..][1..][1..][1..] == [];
  }

  /** Numbers in front of a series add no NaN to it. */
  lemma NaNOnlyInReport(front: seq<Point>, pts: seq<Point>)
    requires forall i :: 0 <= i < |front| ==> front[i].profit.Num?
    ensures (exists i :: 0 <= i < |front + pts| && (front + pts)[i].profit.NaN?)
            <==> exists j :: 0 <= j < |pts| && pts[j].profit.NaN?
  {
    var all := front + pts;
    forall j | 0 <= j < |pts| && pts[j].profit.NaN?
      ensures all[|front| + j].profit.NaN?
    {
    }
  }

  // ------------------------------------------------------------------ the report

  function ProfitJson(r: Profit.ProfitRow): Record
  {
    map["month" := Str(r.month), "total" := Num(r.total)]
  }

  function ProfitJsonAll(rows: seq<Profit.ProfitRow>): (r: seq<Record>)
    ensures |r| == |rows|
    ensures forall i :: 0 <= i < |rows| ==> r[i] == ProfitJson(rows[i])
  {
    if rows == [] then [] else [ProfitJson(rows[0])] + ProfitJsonAll(rows[1..])
  }

  lemma {:induction false} PointsOfReport(rows: seq<Profit.ProfitRow>)
    ensures Sum(Points(ProfitJsonAll(rows)), ProfitOf) == Sum(rows, Profit.RowTotal)
    ensures forall i :: 0 <= i < |rows| ==> Points(ProfitJsonAll(rows))[i] == Point(Some(Str(rows[i].month)), Num(rows[i].total))
  {
    if rows != [] {
      PointsOfReport(rows[1..]);
      assert ProfitJsonAll(rows)[1..] == ProfitJsonAll(rows[1..]);
      assert Points(ProfitJsonAll(rows))[1..] == Points(ProfitJsonAll(rows[1..]));
    }
  }

  /** Plotting the profit report: the chart's total is the four fixed months plus
      the sum of every payment. */
  lemma TotalOfProfitReport(pays: seq<Schema.Payment>)
    requires Profit.Labelled(pays)
    ensures var data := ProfitJsonAll(Profit.ProfitByMonth(pays));
            Numeric(ChartData(data)) && TotalProfit(ChartData(data)) == Num(30000 + Sum(pays, Profit.Amount))
  {
    var rows := Profit.ProfitByMonth(pays);
    var data := ProfitJsonAll(rows);
    TotalIncludesMock(data);
    PointsOfReport(rows);
    Profit.ProfitAddsUp(pays);
  }
}
