/** SQL `GROUP BY key ... SUM(amount)` over a list of (key, amount) rows: once in the
    order keys are first met (no `ORDER BY`), once in ascending key order
    (`ORDER BY key`). Both are proved to produce one row per distinct key whose total
    is the sum of that key's amounts. */
module Aggregate {

  datatype Entry<K> = Entry(key: K, amount: int)

  /** The sum of the amounts of the rows with key `k`. */
  function SumFor<K(==,!new)>(rows: seq<Entry<K>>, k: K): int
  {
    if rows == [] then 0
    else (if rows[0].key == k then rows[0].amount else 0) + SumFor(rows[1..], k)
  }

  /** The sum of all amounts. */
  function Total<K(!new)>(rows: seq<Entry<K>>): int
  {
    if rows == [] then 0 else rows[0].amount + Total(rows[1..])
  }

  function Keys<K(!new)>(rows: seq<Entry<K>>): set<K>
  {
    set i | 0 <= i < |rows| :: rows[i].key
  }

  predicate DistinctKeys<K(==,!new)>(rows: seq<Entry<K>>)
  {
    forall i, j :: 0 <= i < j < |rows| ==> rows[i].key != rows[j].key
  }

  predicate StrictlyAscending(rows: seq<Entry<int>>)
  {
    forall i, j :: 0 <= i < j < |rows| ==> rows[i].key < rows[j].key
  }

  lemma KeysCons<K(!new)>(rows: seq<Entry<K>>)
    requires rows != []
    ensures Keys(rows) == {rows[0].key} + Keys(rows[1..])
  {
    forall k | k in Keys(rows) ensures k in {rows[0].key} + Keys(rows[1..]) {
      var i :| 0 <= i < |rows| && rows[i].key == k;
      if i > 0 { assert rows[1..][i - 1] == rows[i]; }
    }
    forall k | k in Keys(rows[1..]) ensures k in Keys(rows) {
      var i :| 0 <= i < |rows[1..]| && rows[1..][i].key == k;
      assert rows[i + 1] == rows[1..][i];
    }
  }

  lemma {:induction false} SumForAppend<K(!new)>(a: seq<Entry<K>>, b: seq<Entry<K>>, k: K)
    ensures SumFor(a + b, k) == SumFor(a, k) + SumFor(b, k)
  {
    if a == [] {
      assert a + b == b;
    } else {
      assert (a + b)[1..] == a[1..] + b;
      SumForAppend(a[1..], b, k);
    }
  }

  lemma {:induction false} TotalAppend<K(!new)>(a: seq<Entry<K>>, b: seq<Entry<K>>)
    ensures Total(a + b) == Total(a) + Total(b)
  {
    if a == [] {
      assert a + b == b;
    } else {
      assert (a + b)[1..] == a[1..] + b;
      TotalAppend(a[1..], b);
    }
  }

  /** In a list with distinct keys, the total for a key is its one row's amount. */
  lemma {:induction false} SumForDistinct<K(!new)>(rows: seq<Entry<K>>, i: nat)
    requires DistinctKeys(rows) && i < |rows|
    ensures SumFor(rows, rows[i].key) == rows[i].amount
  {
    var k := rows[i].key;
    if i == 0 {
      SumForAbsent(rows[1..], k);
    } else {
      SumForDistinct(rows[1..], i - 1);
    }
  }

  lemma {:induction false} SumForAbsent<K(!new)>(rows: seq<Entry<K>>, k: K)
    requires forall i :: 0 <= i < |rows| ==> rows[i].key != k
    ensures SumFor(rows, k) == 0
  {
    if rows != [] {
      SumForAbsent(rows[1..], k);
    }
  }

  // ------------------------------------------------------------ first-seen order

  /** Adds one row to the groups: into the group with its key, else as a new last group. */
  function AddFirstSeen<K(==)>(groups: seq<Entry<K>>, e: Entry<K>): (r: seq<Entry<K>>)
    ensures r != []
  {
    if groups == [] then [e]
    else if groups[0].key == e.key then [Entry(e.key, groups[0].amount + e.amount)] + groups[1..]
    else [groups[0]] + AddFirstSeen(groups[1..], e)
  }

  lemma {:induction false} AddFirstSeenSums<K(!new)>(groups: seq<Entry<K>>, e: Entry<K>)
    ensures Keys(AddFirstSeen(groups, e)) == Keys(groups) + {e.key}
    ensures Total(AddFirstSeen(groups, e)) == Total(groups) + e.amount
    ensures forall k :: SumFor(AddFirstSeen(groups, e), k) == SumFor(groups, k) + (if k == e.key then e.amount else 0)
  {
    var r := AddFirstSeen(groups, e);
    KeysCons(r);
    if groups == [] {
      assert r[1..] == [];
    } else {
      KeysCons(groups);
      if groups[0].key == e.key {
        assert r[1..] == groups[1..];
      } else {
        AddFirstSeenSums(groups[1..], e);
        assert r[1..] == AddFirstSeen(groups[1..], e);
      }
    }
  }

  lemma {:induction false} AddFirstSeenDistinct<K(!new)>(groups: seq<Entry<K>>, e: Entry<K>)
    requires DistinctKeys(groups)
    ensures DistinctKeys(AddFirstSeen(groups, e))
  {
    if groups != [] {
      var r := AddFirstSeen(groups, e);
      var rest := r[1..];
      assert forall i :: 1 <= i < |groups| ==> groups[i] == groups[1..][i - 1];
      KeysCons(groups);
      assert groups[0].key !in Keys(groups[1..]);
      if groups[0].key == e.key {
        assert rest == groups[1..];
      } else {
        AddFirstSeenDistinct(groups[1..], e);
        AddFirstSeenSums(groups[1..], e);
        assert rest == AddFirstSeen(groups[1..], e);
      }
      assert r[0].key == groups[0].key;
      forall i, j | 0 <= i < j < |r| ensures r[i].key != r[j].key {
        assert r[j] == rest[j - 1];
        if i == 0 {
          assert rest[j - 1].key in Keys(rest);
        } else {
          assert r[i] == rest[i - 1];
        }
      }
    }
  }

  /** Folds the rows, left to right, into groups. */
  function GroupFrom<K(==)>(groups: seq<Entry<K>>, rows: seq<Entry<K>>): seq<Entry<K>>
    decreases rows
  {
    if rows == [] then groups else GroupFrom(AddFirstSeen(groups, rows[0]), rows[1..])
  }

  lemma {:induction false} GroupFromSums<K(!new)>(groups: seq<Entry<K>>, rows: seq<Entry<K>>)
    ensures Keys(GroupFrom(groups, rows)) == Keys(groups) + Keys(rows)
    ensures Total(GroupFrom(groups, rows)) == Total(groups) + Total(rows)
    ensures forall k :: SumFor(GroupFrom(groups, rows), k) == SumFor(groups, k) + SumFor(rows, k)
    ensures DistinctKeys(groups) ==> DistinctKeys(GroupFrom(groups, rows))
    decreases rows
  {
    if rows == [] {
      assert Keys(rows) == {};
    } else {
      KeysCons(rows);
      AddFirstSeenSums(groups, rows[0]);
      if DistinctKeys(groups) {
        AddFirstSeenDistinct(groups, rows[0]);
      }
      GroupFromSums(AddFirstSeen(groups, rows[0]), rows[1..]);
    }
  }

  /** `GROUP BY key` with `SUM(amount)`, groups in the order their keys first occur. */
  function GroupByKey<K(==)>(rows: seq<Entry<K>>): (r: seq<Entry<K>>)
  {
    GroupFrom([], rows)
  }

  /** Two rows with different keys are two groups, in order. */
  lemma GroupTwoDistinct<K>(a: Entry<K>, b: Entry<K>)
    requires a.key != b.key
    ensures GroupByKey([a, b]) == [a, b]
  {
    var empty: seq<Entry<K>> := [];
    var g1 := AddFirstSeen(empty, a);
    assert g1 == [a] && g1[1..] == empty;
    var g2 := AddFirstSeen(g1, b);
    assert g2 == [a] + AddFirstSeen(empty, b) == [a, b];
    assert [a, b][1..] == [b] && [b][1..] == [];
    assert GroupFrom(empty, [a, b]) == GroupFrom(g1, [b]) == GroupFrom(g2, []);
  }

  /** One group per distinct key, each holding the sum of that key's amounts. */
  lemma GroupByKeyCorrect<K(!new)>(rows: seq<Entry<K>>)
    ensures DistinctKeys(GroupByKey(rows))
    ensures Keys(GroupByKey(rows)) == Keys(rows)
    ensures forall i :: 0 <= i < |GroupByKey(rows)| ==>
              GroupByKey(rows)[i].amount == SumFor(rows, GroupByKey(rows)[i].key)
    ensures Total(GroupByKey(rows)) == Total(rows)
  {
    var empty: seq<Entry<K>> := [];
    assert Keys(empty) == {};
    GroupFromSums(empty, rows);
    var r := GroupByKey(rows);
    forall i | 0 <= i < |r| ensures r[i].amount == SumFor(rows, r[i].key) {
      SumForDistinct(r, i);
    }
  }

  // ------------------------------------------------------------ ascending order

  /** Adds one row to groups kept in ascending key order. */
  function AddSorted(groups: seq<Entry<int>>, e: Entry<int>): (r: seq<Entry<int>>)
    ensures r != []
    ensures groups != [] ==> r[0].key == (if e.key < groups[0].key then e.key else groups[0].key)
  {
    if groups == [] then [e]
    else if e.key < groups[0].key then [e] + groups
    else if e.key == groups[0].key then [Entry(e.key, groups[0].amount + e.amount)] + groups[1..]
    else [groups[0]] + AddSorted(groups[1..], e)
  }

  lemma {:induction false} AddSortedSums(groups: seq<Entry<int>>, e: Entry<int>)
    ensures Keys(AddSorted(groups, e)) == Keys(groups) + {e.key}
    ensures Total(AddSorted(groups, e)) == Total(groups) + e.amount
    ensures forall k :: SumFor(AddSorted(groups, e), k) == SumFor(groups, k) + (if k == e.key then e.amount else 0)
  {
    var r := AddSorted(groups, e);
    KeysCons(r);
    if groups == [] {
      assert r[1..] == [];
    } else {
      KeysCons(groups);
      if e.key < groups[0].key {
        assert r[1..] == groups;
      } else if e.key == groups[0].key {
        assert r[1..] == groups[1..];
      } else {
        AddSortedSums(groups[1..], e);
        assert r[1..] == AddSorted(groups[1..], e);
      }
    }
  }

  /** A sequence headed by `g` is strictly ascending exactly when its tail is and every
      key of the tail is above `g`'s. */
  lemma AscendingCons(g: Entry<int>, rest: seq<Entry<int>>)
    ensures StrictlyAscending([g] + rest) <==>
              StrictlyAscending(rest) && forall k :: k in Keys(rest) ==> g.key < k
  {
    if StrictlyAscending(rest) && forall k :: k in Keys(rest) ==> g.key < k {
      AscendingConsIntro(g, rest);
    }
    if StrictlyAscending([g] + rest) {
      AscendingConsElim(g, rest);
    }
  }

  lemma AscendingConsIntro(g: Entry<int>, rest: seq<Entry<int>>)
    requires StrictlyAscending(rest) && forall k :: k in Keys(rest) ==> g.key < k
    ensures StrictlyAscending([g] + rest)
  {
    var r := [g] + rest;
    forall i, j | 0 <= i < j < |r| ensures r[i].key < r[j].key {
      assert r[j] == rest[j - 1] && rest[j - 1].key in Keys(rest);
      if i > 0 {
        assert r[i] == rest[i - 1];
      }
    }
  }

  lemma AscendingConsElim(g: Entry<int>, rest: seq<Entry<int>>)
    requires StrictlyAscending([g] + rest)
    ensures StrictlyAscending(rest) && forall k :: k in Keys(rest) ==> g.key < k
  {
    var r := [g] + rest;
    forall i, j | 0 <= i < j < |rest| ensures rest[i].key < rest[j].key {
      assert rest[i] == r[i + 1] && rest[j] == r[j + 1];
    }
    forall k | k in Keys(rest) ensures g.key < k {
      var m :| 0 <= m < |rest| && rest[m].key == k;
      assert r[0] == g && r[m + 1] == rest[m];
    }
  }

  lemma {:induction false} AddSortedAscending(groups: seq<Entry<int>>, e: Entry<int>)
    requires StrictlyAscending(groups)
    ensures StrictlyAscending(AddSorted(groups, e))
  {
    if groups != [] {
      var g := groups[0];
      var tail := groups[1..];
      assert groups == [g] + tail;
      AscendingCons(g, tail);
      if e.key < g.key {
        AscendingCons(e, groups);
        KeysCons(groups);
      } else if e.key == g.key {
        AscendingCons(Entry(e.key, g.amount + e.amount), tail);
      } else {
        AddSortedAscending(tail, e);
        AddSortedSums(tail, e);
        AscendingCons(g, AddSorted(tail, e));
      }
    }
  }

  function GroupSortedFrom(groups: seq<Entry<int>>, rows: seq<Entry<int>>): seq<Entry<int>>
    decreases rows
  {
    if rows == [] then groups else GroupSortedFrom(AddSorted(groups, rows[0]), rows[1..])
  }

  lemma {:induction false} GroupSortedFromSums(groups: seq<Entry<int>>, rows: seq<Entry<int>>)
    ensures Keys(GroupSortedFrom(groups, rows)) == Keys(groups) + Keys(rows)
    ensures Total(GroupSortedFrom(groups, rows)) == Total(groups) + Total(rows)
    ensures forall k :: SumFor(GroupSortedFrom(groups, rows), k) == SumFor(groups, k) + SumFor(rows, k)
    ensures StrictlyAscending(groups) ==> StrictlyAscending(GroupSortedFrom(groups, rows))
    decreases rows
  {
    if rows == [] {
      assert Keys(rows) == {};
    } else {
      KeysCons(rows);
      AddSortedSums(groups, rows[0]);
      if StrictlyAscending(groups) {
        AddSortedAscending(groups, rows[0]);
      }
      GroupSortedFromSums(AddSorted(groups, rows[0]), rows[1..]);
    }
  }

  /** `GROUP BY key ORDER BY key` with `SUM(amount)`. */
  function GroupByKeyAscending(rows: seq<Entry<int>>): seq<Entry<int>>
  {
    GroupSortedFrom([], rows)
  }

  /** One group per distinct key, in strictly ascending key order, each holding the
      sum of that key's amounts. */
  lemma GroupByKeyAscendingCorrect(rows: seq<Entry<int>>)
    ensures StrictlyAscending(GroupByKeyAscending(rows))
    ensures DistinctKeys(GroupByKeyAscending(rows))
    ensures Keys(GroupByKeyAscending(rows)) == Keys(rows)
    ensures forall i :: 0 <= i < |GroupByKeyAscending(rows)| ==>
              GroupByKeyAscending(rows)[i].amount == SumFor(rows, GroupByKeyAscending(rows)[i].key)
    ensures Total(GroupByKeyAscending(rows)) == Total(rows)
  {
    var empty: seq<Entry<int>> := [];
    assert Keys(empty) == {};
    GroupSortedFromSums(empty, rows);
    var r := GroupByKeyAscending(rows);
    forall i | 0 <= i < |r| ensures r[i].amount == SumFor(rows, r[i].key) {
      SumForDistinct(r, i);
    }
  }
}
