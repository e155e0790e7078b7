/** Profit by month: the payments grouped by the `YYYY-MM` label of their payment
    date, ordered by that label, each month with the sum of its amounts. No month
    limit is applied: every payment falls in some row. */
module Profit {
  import opened Text
  import opened Dates
  import opened ListOps
  import opened Schema
  import opened Aggregate

  datatype ProfitRow = ProfitRow(month: string, total: int)

  /** The payment dates are valid and have four-digit years, so that they have a label. */
  predicate Labelled(pays: seq<Payment>)
  {
    forall i :: 0 <= i < |pays| ==> ValidDate(pays[i].datePaid) && FourDigitYear(pays[i].datePaid)
  }

  function PaymentMonth(p: Payment): int
  {
    MonthIndex(p.datePaid.year, p.datePaid.month)
  }

  /** `TO_CHAR(date_paid, 'YYYY-MM')` of a payment. */
  function PaymentLabel(p: Payment): string
    requires ValidDate(p.datePaid) && FourDigitYear(p.datePaid)
  {
    MonthLabel(p.datePaid.year, p.datePaid.month)
  }

  /** The (month, amount) rows the grouping works on. */
  function MonthEntries(pays: seq<Payment>): (r: seq<Entry<int>>)
    ensures |r| == |pays|
    ensures forall i :: 0 <= i < |r| ==> r[i] == Entry(PaymentMonth(pays[i]), pays[i].amount)
  {
    if pays == [] then [] else [Entry(PaymentMonth(pays[0]), pays[0].amount)] + MonthEntries(pays[1..])
  }

  /** The month a month number stands for. */
  function MonthOf(k: int): (r: (int, int))
    ensures 1 <= r.1 <= 12 && MonthIndex(r.0, r.1) == k
    ensures LabelledMonth(k) ==> 0 <= r.0 <= 9999
  {
    (k / 12, k % 12 + 1)
  }

  /** Month numbers of four-digit years. */
  predicate LabelledMonth(k: int)
  {
    0 <= k < 10000 * 12
  }

  /** The `YYYY-MM` label of a month number. */
  function KeyLabel(k: int): string
    requires LabelledMonth(k)
  {
    MonthLabel(MonthOf(k).0, MonthOf(k).1)
  }

  /** A payment's month number carries the payment's label. */
  lemma KeyLabelOfPayment(p: Payment)
    requires ValidDate(p.datePaid) && FourDigitYear(p.datePaid)
    ensures LabelledMonth(PaymentMonth(p)) && KeyLabel(PaymentMonth(p)) == PaymentLabel(p)
  {
    var k := PaymentMonth(p);
    MonthIndexOrder(p.datePaid.year, p.datePaid.month, MonthOf(k).0, MonthOf(k).1);
  }

  /** Labels tell month numbers apart and sort them. */
  lemma KeyLabelOrder(k1: int, k2: int)
    requires LabelledMonth(k1) && LabelledMonth(k2)
    ensures LexLess(KeyLabel(k1), KeyLabel(k2)) <==> k1 < k2
    ensures KeyLabel(k1) == KeyLabel(k2) <==> k1 == k2
  {
    var a, b := MonthOf(k1), MonthOf(k2);
    MonthLabelOrder(a.0, a.1, b.0, b.1);
    if KeyLabel(k1) == KeyLabel(k2) {
      MonthLabelInjective(a.0, a.1, b.0, b.1);
    }
  }

  function LabelRows(groups: seq<Entry<int>>): (r: seq<ProfitRow>)
    requires forall i :: 0 <= i < |groups| ==> LabelledMonth(groups[i].key)
    ensures |r| == |groups|
    ensures forall i :: 0 <= i < |r| ==> r[i] == ProfitRow(KeyLabel(groups[i].key), groups[i].amount)
  {
    if groups == [] then []
    else [ProfitRow(KeyLabel(groups[0].key), groups[0].amount)] + LabelRows(groups[1..])
  }

  function MonthGroups(pays: seq<Payment>): seq<Entry<int>>
  {
    GroupByKeyAscending(MonthEntries(pays))
  }

  /** Every group's month is the month of some payment, and has a label. */
  lemma GroupsComeFromPayments(pays: seq<Payment>)
    requires Labelled(pays)
    ensures var groups := MonthGroups(pays);
            forall i :: 0 <= i < |groups| ==>
              LabelledMonth(groups[i].key) && exists j :: 0 <= j < |pays| && groups[i].key == PaymentMonth(pays[j])
  {
    var entries := MonthEntries(pays);
    var groups := MonthGroups(pays);
    GroupByKeyAscendingCorrect(entries);
    forall i | 0 <= i < |groups|
      ensures LabelledMonth(groups[i].key) && exists j :: 0 <= j < |pays| && groups[i].key == PaymentMonth(pays[j])
    {
      assert groups[i].key in Keys(entries);
      var j :| 0 <= j < |entries| && entries[j].key == groups[i].key;
      KeyLabelOfPayment(pays[j]);
    }
  }

  /** Every payment's month has a group. */
  lemma PaymentsHaveGroups(pays: seq<Payment>)
    ensures var groups := MonthGroups(pays);
            forall j :: 0 <= j < |pays| ==> exists i :: 0 <= i < |groups| && groups[i].key == PaymentMonth(pays[j])
  {
    var entries := MonthEntries(pays);
    var groups := MonthGroups(pays);
    GroupByKeyAscendingCorrect(entries);
    forall j | 0 <= j < |pays| ensures exists i :: 0 <= i < |groups| && groups[i].key == PaymentMonth(pays[j]) {
      assert entries[j].key in Keys(entries);
    }
  }

  /** The profit query: `GROUP BY` and `ORDER BY` the month label, `SUM(amount)`. */
  function ProfitByMonth(pays: seq<Payment>): (r: seq<ProfitRow>)
    requires Labelled(pays)
    ensures r == [] <==> pays == []
  {
    var entries := MonthEntries(pays);
    GroupByKeyAscendingCorrect(entries);
    assert entries != [] ==> entries[0].key in Keys(entries);
    assert MonthGroups(pays) != [] ==> MonthGroups(pays)[0].key in Keys(MonthGroups(pays));
    GroupsComeFromPayments(pays);
    LabelRows(MonthGroups(pays))
  }

  // ------------------------------------------------------------------ properties

  /** The label of every row is the label of some payment. */
  lemma ProfitMonthsFromPayments(pays: seq<Payment>)
    requires Labelled(pays)
    ensures var rows := ProfitByMonth(pays);
            forall i :: 0 <= i < |rows| ==> exists j :: 0 <= j < |pays| && rows[i].month == PaymentLabel(pays[j])
  {
    var groups := MonthGroups(pays);
    var rows := ProfitByMonth(pays);
    GroupsComeFromPayments(pays);
    forall i | 0 <= i < |rows| ensures exists j :: 0 <= j < |pays| && rows[i].month == PaymentLabel(pays[j]) {
      var j :| 0 <= j < |pays| && groups[i].key == PaymentMonth(pays[j]);
      KeyLabelOfPayment(pays[j]);
    }
  }

  /** The label of every payment is the label of some row. */
  lemma PaymentMonthsInProfit(pays: seq<Payment>)
    requires Labelled(pays)
    ensures var rows := ProfitByMonth(pays);
            forall j :: 0 <= j < |pays| ==> exists i :: 0 <= i < |rows| && rows[i].month == PaymentLabel(pays[j])
  {
    var rows := ProfitByMonth(pays);
    forall j | 0 <= j < |pays| ensures exists i :: 0 <= i < |rows| && rows[i].month == PaymentLabel(pays[j]) {
      PaymentHasRow(pays, j);
    }
  }

  lemma PaymentHasRow(pays: seq<Payment>, j: int)
    requires Labelled(pays) && 0 <= j < |pays|
    ensures exists i :: 0 <= i < |ProfitByMonth(pays)| && ProfitByMonth(pays)[i].month == PaymentLabel(pays[j])
  {
    var groups := MonthGroups(pays);
    var rows := ProfitByMonth(pays);
    PaymentsHaveGroups(pays);
    var i :| 0 <= i < |groups| && groups[i].key == PaymentMonth(pays[j]);
    KeyLabelOfPayment(pays[j]);
    assert rows[i].month == PaymentLabel(pays[j]);
  }

  /** The rows are in strictly ascending label order, so no month appears twice. */
  lemma ProfitAscending(pays: seq<Payment>)
    requires Labelled(pays)
    ensures var rows := ProfitByMonth(pays);
            forall i, j :: 0 <= i < j < |rows| ==> LexLess(rows[i].month, rows[j].month) && rows[i].month != rows[j].month
  {
    var groups := MonthGroups(pays);
    var rows := ProfitByMonth(pays);
    GroupsComeFromPayments(pays);
    GroupByKeyAscendingCorrect(MonthEntries(pays));
    forall i, j | 0 <= i < j < |rows| ensures LexLess(rows[i].month, rows[j].month) && rows[i].month != rows[j].month {
      KeyLabelOrder(groups[i].key, groups[j].key);
    }
  }

  /** A payment's amount when it is dated in the month with the given label, else 0. */
  function AmountInLabel(month: string): Payment -> int
  {
    (p: Payment) => if ValidDate(p.datePaid) && FourDigitYear(p.datePaid) && PaymentLabel(p) == month then p.amount else 0
  }

  function AmountInMonth(k: int): Payment -> int
  {
    (p: Payment) => if PaymentMonth(p) == k then p.amount else 0
  }

  lemma {:induction false} MonthEntriesSumFor(pays: seq<Payment>, k: int)
    ensures SumFor(MonthEntries(pays), k) == Sum(pays, AmountInMonth(k))
  {
    if pays != [] {
      MonthEntriesSumFor(pays[1..], k);
      assert MonthEntries(pays)[1..] == MonthEntries(pays[1..]);
    }
  }

  /** Each row's total is the sum of the amounts of the payments dated in its month. */
  lemma ProfitTotals(pays: seq<Payment>)
    requires Labelled(pays)
    ensures var rows := ProfitByMonth(pays);
            forall i :: 0 <= i < |rows| ==> rows[i].total == Sum(pays, AmountInLabel(rows[i].month))
  {
    var groups := MonthGroups(pays);
    var rows := ProfitByMonth(pays);
    GroupsComeFromPayments(pays);
    GroupByKeyAscendingCorrect(MonthEntries(pays));
    forall i | 0 <= i < |rows| ensures rows[i].total == Sum(pays, AmountInLabel(rows[i].month)) {
      var k := groups[i].key;
      MonthEntriesSumFor(pays, k);
      forall j | 0 <= j < |pays| ensures AmountInMonth(k)(pays[j]) == AmountInLabel(rows[i].month)(pays[j]) {
        KeyLabelOfPayment(pays[j]);
        KeyLabelOrder(PaymentMonth(pays[j]), k);
      }
      SumAgree(pays, AmountInMonth(k), AmountInLabel(rows[i].month));
    }
  }

  function RowTotal(r: ProfitRow): int { r.total }
  function Amount(p: Payment): int { p.amount }

  lemma {:induction false} LabelRowsTotal(groups: seq<Entry<int>>)
    requires forall i :: 0 <= i < |groups| ==> LabelledMonth(groups[i].key)
    ensures Sum(LabelRows(groups), RowTotal) == Total(groups)
  {
    if groups != [] {
      LabelRowsTotal(groups[1..]);
      assert LabelRows(groups)[1..] == LabelRows(groups[1..]);
    }
  }

  lemma {:induction false} MonthEntriesTotal(pays: seq<Payment>)
    ensures Total(MonthEntries(pays)) == Sum(pays, Amount)
  {
    if pays != [] {
      MonthEntriesTotal(pays[1..]);
      assert MonthEntries(pays)[1..] == MonthEntries(pays[1..]);
    }
  }

  /** With no month limit, the row totals add up to the sum of all payments. */
  lemma ProfitAddsUp(pays: seq<Payment>)
    requires Labelled(pays)
    ensures Sum(ProfitByMonth(pays), RowTotal) == Sum(pays, Amount)
  {
    GroupsComeFromPayments(pays);
    GroupByKeyAscendingCorrect(MonthEntries(pays));
    LabelRowsTotal(MonthGroups(pays));
    MonthEntriesTotal(pays);
  }
}
