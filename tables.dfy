/**
 * The data tables as covid_stats.py holds them once numpy has loaded the CSV
 * files: rows of numbers, the month in column 0 and the day in column 1.
 * This module also models the two scans the program runs over a table before
 * it looks at a date: numpy's `np.where(table == month)[0]`, and the filter
 * that keeps the hits whose month and day columns both equal the query.
 */
module Tables {

  /** One record of a table: its numeric columns, left to right. */
  type Row = seq<int>

  /** A loaded table: its rows, in file order. */
  type Table = seq<Row>

  const MONTH_COL: nat := 0
  const DAY_COL: nat := 1

  /** Every row of `t` has at least `n` columns. */
  predicate Wide(t: Table, n: nat) {
    forall i :: 0 <= i < |t| ==> n <= |t[i]|
  }

  /** Every entry of `hits` is a row index of `t`. */
  predicate ValidHits(t: Table, hits: seq<nat>) {
    forall k :: 0 <= k < |hits| ==> hits[k] < |t|
  }

  predicate NonDecreasing(s: seq<nat>) {
    forall i, j :: 0 <= i < j < |s| ==> s[i] <= s[j]
  }

  predicate StrictlyIncreasing(s: seq<nat>) {
    forall i, j :: 0 <= i < j < |s| ==> s[i] < s[j]
  }

  /** The row carries the queried date in its month and day columns. */
  predicate OnDate(row: Row, month: int, day: int)
    requires DAY_COL < |row|
  {
    row[MONTH_COL] == month && row[DAY_COL] == day
  }

  /** The rows of `t` at the given indexes, in the order given. */
  function RowsAt(t: Table, idx: seq<nat>): (rows: seq<Row>)
    requires ValidHits(t, idx)
    ensures |rows| == |idx|
    ensures forall k :: 0 <= k < |idx| ==> rows[k] == t[idx[k]]
  {
    seq(|idx|, k requires 0 <= k < |idx| => t[idx[k]])
  }

  lemma RowsAtAppend(t: Table, idx: seq<nat>, x: nat)
    requires ValidHits(t, idx) && x < |t|
    ensures ValidHits(t, idx + [x]) && RowsAt(t, idx + [x]) == RowsAt(t, idx) + [t[x]]
  {
  }

  /** The number of cells of `row` that equal `v`. */
  function CellHits(row: Row, v: int): (n: nat)
    ensures n <= |row|
    ensures n > 0 <==> v in row
  {
    if row == [] then 0
    else
      assert v in row <==> row[0] == v || v in row[1..] by {
        assert row == [row[0]] + row[1..];
      }
      (if row[0] == v then 1 else 0) + CellHits(row[1..], v)
  }

  /** `n` copies of the row index `i`. */
  function Repeat(i: nat, n: nat): (r: seq<nat>)
    ensures |r| == n
    ensures forall k :: 0 <= k < n ==> r[k] == i
  {
    if n == 0 then [] else [i] + Repeat(i, n - 1)
  }

  /** The row part of `np.where(t == v)` restricted to rows `i..`: numpy scans
      the array in row-major order, so row `x` is reported once for every one
      of its cells equal to `v`, and all of a row's reports are adjacent. */
  function WhereFrom(t: Table, v: int, i: nat): (r: seq<nat>)
    decreases |t| - i
    ensures forall k :: 0 <= k < |r| ==> i <= r[k] < |t| && v in t[r[k]]
    ensures NonDecreasing(r)
  {
    if i >= |t| then []
    else
      var rest := WhereFrom(t, v, i + 1);
      Repeat(i, CellHits(t[i], v)) + rest
  }

  /** `np.where(t == v)[0]`: the row index of every cell equal to `v`. */
  function WhereRows(t: Table, v: int): (r: seq<nat>)
    ensures ValidHits(t, r)
    ensures NonDecreasing(r)
  {
    WhereFrom(t, v, 0)
  }

  lemma {:induction false} RepeatCount(i: nat, n: nat, x: nat)
    ensures multiset(Repeat(i, n))[x] == if x == i then n else 0
  {
    if n > 0 {
      RepeatCount(i, n - 1, x);
      assert multiset(Repeat(i, n)) == multiset{i} + multiset(Repeat(i, n - 1));
    }
  }

  lemma {:induction false} WhereFromCount(t: Table, v: int, i: nat, x: nat)
    decreases |t| - i
    ensures multiset(WhereFrom(t, v, i))[x] == if i <= x < |t| then CellHits(t[x], v) else 0
  {
    if i < |t| {
      var rep, rest := Repeat(i, CellHits(t[i], v)), WhereFrom(t, v, i + 1);
      WhereFromCount(t, v, i + 1, x);
      RepeatCount(i, CellHits(t[i], v), x);
      assert WhereFrom(t, v, i) == rep + rest;
      assert multiset(rep + rest) == multiset(rep) + multiset(rest);
    }
  }

  /** numpy reports row `x` exactly as many times as `x` has cells equal to `v`;
      in particular a row is reported at all iff one of its cells equals `v`. */
  lemma WhereRowsCount(t: Table, v: int, x: nat)
    ensures multiset(WhereRows(t, v))[x] == if x < |t| then CellHits(t[x], v) else 0
    ensures x in WhereRows(t, v) <==> x < |t| && v in t[x]
  {
    WhereFromCount(t, v, 0, x);
  }

  /** Lines 289-292 (and 414-416 for the case table): keep the hits whose
      month and day columns equal the query, in the order numpy gave them. */
  function DateHits(t: Table, hits: seq<nat>, month: int, day: int): (r: seq<nat>)
    requires Wide(t, DAY_COL + 1) && ValidHits(t, hits)
    ensures |r| <= |hits|
    ensures ValidHits(t, r)
  {
    if hits == [] then []
    else
      var n := |hits| - 1;
      DateHits(t, hits[..n], month, day) + (if OnDate(t[hits[n]], month, day) then [hits[n]] else [])
  }

  /** The filter keeps exactly the hits on the date. */
  lemma {:induction false} DateHitsMembers(t: Table, hits: seq<nat>, month: int, day: int)
    requires Wide(t, DAY_COL + 1) && ValidHits(t, hits)
    ensures forall x :: x in DateHits(t, hits, month, day) <==> x in hits && x < |t| && OnDate(t[x], month, day)
  {
    if hits != [] {
      var n := |hits| - 1;
      DateHitsMembers(t, hits[..n], month, day);
      assert hits == hits[..n] + [hits[n]];
    }
  }

  /** On non-decreasing hits the kept hits stay non-decreasing. */
  lemma {:induction false} DateHitsOrdered(t: Table, hits: seq<nat>, month: int, day: int)
    requires Wide(t, DAY_COL + 1) && ValidHits(t, hits) && NonDecreasing(hits)
    ensures NonDecreasing(DateHits(t, hits, month, day))
  {
    if hits != [] {
      var n := |hits| - 1;
      var front := hits[..n];
      DateHitsOrdered(t, front, month, day);
      DateHitsMembers(t, front, month, day);
      var prev := DateHits(t, front, month, day);
      if OnDate(t[hits[n]], month, day) {
        var r := prev + [hits[n]];
        forall i, j | 0 <= i < j < |r|
          ensures r[i] <= r[j]
        {
          if j == |prev| {
            assert r[i] in front;
          }
        }
      }
    }
  }

  /** The date filter run on numpy's hits finds every row on the date and
      nothing else: the `np.where` pre-selection by month never loses a row,
      because a row on the date has the month in its month column. */
  lemma DateHitsOfWhere(t: Table, month: int, day: int)
    requires Wide(t, DAY_COL + 1)
    ensures forall x: nat ::
              x in DateHits(t, WhereRows(t, month), month, day) <==> (x < |t| && OnDate(t[x], month, day))
  {
    DateHitsMembers(t, WhereRows(t, month), month, day);
    forall x: nat | x < |t| && OnDate(t[x], month, day)
      ensures x in WhereRows(t, month)
    {
      WhereRowsCount(t, month, x);
    }
  }

  /** Filtering one more hit appends it when it is on the date. */
  lemma DateHitsStep(t: Table, hits: seq<nat>, k: nat, month: int, day: int)
    requires Wide(t, DAY_COL + 1) && ValidHits(t, hits) && k < |hits|
    ensures ValidHits(t, hits[..k]) && ValidHits(t, hits[..k + 1])
    ensures DateHits(t, hits[..k + 1], month, day)
         == DateHits(t, hits[..k], month, day) + (if OnDate(t[hits[k]], month, day) then [hits[k]] else [])
  {
    assert hits[..k + 1][..k] == hits[..k];
  }

  /** Lines 289-292 (and 414-416): walk the hits and collect those on the
      date, with their rows. */
  method FilterOnDate(t: Table, filteredRows: seq<nat>, month: int, day: int)
    returns (tempData: seq<Row>, tempIndexes: seq<nat>)
    requires Wide(t, DAY_COL + 1) && ValidHits(t, filteredRows)
    ensures tempIndexes == DateHits(t, filteredRows, month, day)
    ensures tempData == RowsAt(t, tempIndexes)
  {
    tempData, tempIndexes := [], [];
    for k := 0 to |filteredRows|
      invariant ValidHits(t, filteredRows[..k])
      invariant tempIndexes == DateHits(t, filteredRows[..k], month, day)
      invariant tempData == RowsAt(t, tempIndexes)
    {
      var row := filteredRows[k];
      DateHitsStep(t, filteredRows, k, month, day);
      if t[row][MONTH_COL] == month && t[row][DAY_COL] == day {
        RowsAtAppend(t, tempIndexes, row);
        tempData := tempData + [t[row]];
        tempIndexes := tempIndexes + [row];
      }
    }
    assert filteredRows[..|filteredRows|] == filteredRows;
  }

  /** Lines 284-292 (population table) and 410-416 (case table): ask numpy
      for the rows holding the month in any column, then collect those whose
      month and day columns equal the query, with their row indexes. */
  method CollectDateHits(t: Table, month: int, day: int) returns (tempData: seq<Row>, tempIndexes: seq<nat>)
    requires Wide(t, DAY_COL + 1)
    ensures tempIndexes == DateHits(t, WhereRows(t, month), month, day)
    ensures ValidHits(t, tempIndexes) && tempData == RowsAt(t, tempIndexes)
  {
    var filteredRows := WhereRows(t, month);
    tempData, tempIndexes := FilterOnDate(t, filteredRows, month, day);
  }
}
