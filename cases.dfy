/**
 * Covid case statistics for the chosen date (covid_stats.py:408-439).
 *
 * The case table has one row per recorded case: month, day, the number of the
 * zone the case belongs to, and one more column. The program finds the rows
 * on the date the same way it finds population rows, turns their indexes into
 * a set (so a row numpy reported twice is counted once, while two different
 * rows with the same content are both counted), records each case on its
 * zone's HealthZone, and reports the zone with the most cases.
 */
module Cases {
  import opened Tables
  import opened Sequences
  import opened HealthZones

  /** The zone column of the case table. */
  const CASE_ZONE_COL: nat := 2

  /** `zone_objs[int(case[2])]` succeeds: the zone number is a valid Python
      list index for the five zones, counting from the end when negative. */
  predicate ZoneInRange(row: Row) {
    CASE_ZONE_COL < |row| && -(ZONE_COUNT as int) <= row[CASE_ZONE_COL] < ZONE_COUNT as int
  }

  predicate ZonesInRange(rows: seq<Row>) {
    forall k :: 0 <= k < |rows| ==> ZoneInRange(rows[k])
  }

  /** Every case row on the date names a zone the program can index. */
  predicate CaseDataUsable(t: Table, month: int, day: int) {
    && Wide(t, CASE_ZONE_COL + 1)
    && forall x :: 0 <= x < |t| && OnDate(t[x], month, day) ==> ZoneInRange(t[x])
  }

  /** The zone object a case row updates: Python's list index, which wraps a
      negative zone number around from the end of the list. */
  function ZoneOf(row: Row): (z: nat)
    requires ZoneInRange(row)
    ensures z < ZONE_COUNT
    ensures (z - row[CASE_ZONE_COL]) % ZONE_COUNT as int == 0
  {
    if row[CASE_ZONE_COL] < 0 then row[CASE_ZONE_COL] + ZONE_COUNT else row[CASE_ZONE_COL]
  }

  /** The number of case rows that update zone `z`. */
  function CountZone(rows: seq<Row>, z: int): (n: nat)
    requires ZonesInRange(rows)
    ensures n <= |rows|
  {
    if rows == [] then 0
    else
      var n := |rows| - 1;
      CountZone(rows[..n], z) + (if ZoneOf(rows[n]) == z then 1 else 0)
  }

  /** The number of case rows that update a zone below `k`. */
  function CountBelow(rows: seq<Row>, k: int): nat
    requires ZonesInRange(rows)
  {
    if rows == [] then 0
    else
      var n := |rows| - 1;
      CountBelow(rows[..n], k) + (if ZoneOf(rows[n]) < k then 1 else 0)
  }

  /** `case_count_list` after the tally of zones that started at 0. */
  function CaseCounts(rows: seq<Row>): (counts: seq<int>)
    requires ZonesInRange(rows)
    ensures |counts| == ZONE_COUNT
  {
    seq(ZONE_COUNT, z requires 0 <= z < ZONE_COUNT => CountZone(rows, z))
  }

  lemma {:induction false} CountBelowStep(rows: seq<Row>, k: int)
    requires ZonesInRange(rows)
    ensures CountBelow(rows, k + 1) == CountBelow(rows, k) + CountZone(rows, k)
  {
    if rows != [] {
      CountBelowStep(rows[..|rows| - 1], k);
    }
  }

  lemma {:induction false} CountBelowAll(rows: seq<Row>)
    requires ZonesInRange(rows)
    ensures CountBelow(rows, ZONE_COUNT) == |rows|
  {
    if rows != [] {
      CountBelowAll(rows[..|rows| - 1]);
    }
  }

  lemma {:induction false} CaseCountsPrefix(rows: seq<Row>, k: nat)
    requires ZonesInRange(rows) && k <= ZONE_COUNT
    ensures SumInt(CaseCounts(rows)[..k]) == CountBelow(rows, k)
  {
    if k == 0 {
      CountBelowZero(rows);
    } else {
      CaseCountsPrefix(rows, k - 1);
      CountBelowStep(rows, k - 1);
      assert CaseCounts(rows)[..k][..k - 1] == CaseCounts(rows)[..k - 1];
    }
  }

  lemma {:induction false} CountBelowZero(rows: seq<Row>)
    requires ZonesInRange(rows)
    ensures CountBelow(rows, 0) == 0
  {
    if rows != [] {
      CountBelowZero(rows[..|rows| - 1]);
    }
  }

  /** Every case is recorded on exactly one zone: the zone counts add up to
      the number of cases, `len(ab_covid_data)`. */
  lemma {:induction false} CaseCountsSum(rows: seq<Row>)
    requires ZonesInRange(rows)
    ensures SumInt(CaseCounts(rows)) == |rows|
  {
    CaseCountsPrefix(rows, ZONE_COUNT);
    CountBelowAll(rows);
    assert CaseCounts(rows)[..ZONE_COUNT] == CaseCounts(rows);
  }

  /** The row indexes of the table that are on the date. */
  function CaseSet(t: Table, month: int, day: int): set<nat>
    requires Wide(t, DAY_COL + 1)
  {
    set x: nat | x < |t| && OnDate(t[x], month, day)
  }

  /** The number of rows of the table on the date, counted row by row. */
  function CountOnDate(t: Table, month: int, day: int): nat
    requires Wide(t, DAY_COL + 1)
  {
    if t == [] then 0
    else
      var n := |t| - 1;
      CountOnDate(t[..n], month, day) + (if OnDate(t[n], month, day) then 1 else 0)
  }

  /** One index per row on the date: the set has as many elements as there
      are rows on the date, identical rows included. */
  lemma {:induction false} CaseSetSize(t: Table, month: int, day: int)
    requires Wide(t, DAY_COL + 1)
    ensures |CaseSet(t, month, day)| == CountOnDate(t, month, day)
  {
    if t != [] {
      var n := |t| - 1;
      CaseSetSize(t[..n], month, day);
      var front := CaseSet(t[..n], month, day);
      if OnDate(t[n], month, day) {
        assert CaseSet(t, month, day) == front + {n};
      } else {
        assert CaseSet(t, month, day) == front;
      }
    }
  }

  /** Two different rows on the date with the same content are two cases:
      both indexes are in the set, so both rows are listed. */
  lemma IdenticalRowsCountTwice(t: Table, month: int, day: int, i: nat, j: nat)
    requires Wide(t, DAY_COL + 1)
    requires i < j < |t| && t[i] == t[j] && OnDate(t[i], month, day)
    ensures i in CaseSet(t, month, day) && j in CaseSet(t, month, day)
    ensures CountOnDate(t, month, day) >= 2
  {
    CaseSetSize(t, month, day);
    assert {i, j} <= CaseSet(t, month, day);
    assert |{i, j}| == 2;
    SubsetSize({i, j}, CaseSet(t, month, day));
  }

  lemma SubsetSize(a: set<nat>, b: set<nat>)
    requires a <= b
    ensures |a| <= |b|
  {
    assert b == a + (b - a);
  }

  /** The indexes of the cases on the date in zone `z`. */
  function ZoneCaseSet(t: Table, month: int, day: int, z: int): set<nat>
    requires CaseDataUsable(t, month, day)
  {
    set x: nat | x < |t| && OnDate(t[x], month, day) && ZoneOf(t[x]) == z
  }

  /** The case rows of `s`, each naming a zone the program can index. */
  predicate ZoneHits(t: Table, s: seq<nat>) {
    forall k :: 0 <= k < |s| ==> s[k] < |t| && ZoneInRange(t[s[k]])
  }

  lemma ZoneHitsRows(t: Table, s: seq<nat>)
    requires ZoneHits(t, s)
    ensures ValidHits(t, s) && ZonesInRange(RowsAt(t, s))
  {
  }

  /** The set of the indexes of `s` whose rows update zone `z`. */
  function ZoneIndexes(t: Table, s: seq<nat>, z: int): set<nat>
    requires ZoneHits(t, s)
  {
    set x | x in s && ZoneOf(t[x]) == z
  }

  lemma {:induction false} CountZoneOfDistinct(t: Table, s: seq<nat>, z: int)
    requires ZoneHits(t, s) && Distinct(s)
    ensures ValidHits(t, s) && ZonesInRange(RowsAt(t, s))
    ensures CountZone(RowsAt(t, s), z) == |ZoneIndexes(t, s, z)|
  {
    ZoneHitsRows(t, s);
    if s != [] {
      var n := |s| - 1;
      var front := s[..n];
      var last := s[n];
      CountZoneOfDistinct(t, front, z);
      var rows := RowsAt(t, s);
      assert rows[..n] == RowsAt(t, front);
      assert CountZone(rows, z) == CountZone(RowsAt(t, front), z) + (if ZoneOf(t[last]) == z then 1 else 0);
      assert last !in front;
      assert s == front + [last];
      if ZoneOf(t[last]) == z {
        assert ZoneIndexes(t, s, z) == ZoneIndexes(t, front, z) + {last};
      } else {
        assert ZoneIndexes(t, s, z) == ZoneIndexes(t, front, z);
      }
    }
  }

  /** The tally does not depend on the order Python's set hands out the
      indexes: any duplicate-free listing of the rows on the date gives every
      zone the number of cases on the date in that zone. */
  lemma CaseCountsAreZoneSets(t: Table, month: int, day: int, s: seq<nat>)
    requires CaseDataUsable(t, month, day) && Distinct(s)
    requires forall x: nat :: x in s <==> x < |t| && OnDate(t[x], month, day)
    ensures ZoneHits(t, s) && ZonesInRange(RowsAt(t, s))
    ensures forall z :: 0 <= z < ZONE_COUNT ==> CaseCounts(RowsAt(t, s))[z] == |ZoneCaseSet(t, month, day, z)|
  {
    assert ZoneHits(t, s) by {
      forall k | 0 <= k < |s|
        ensures s[k] < |t| && ZoneInRange(t[s[k]])
      {
        assert s[k] in s;
      }
    }
    forall z | 0 <= z < ZONE_COUNT
      ensures CaseCounts(RowsAt(t, s))[z] == |ZoneCaseSet(t, month, day, z)|
    {
      CountZoneOfDistinct(t, s, z);
      assert ZoneIndexes(t, s, z) == ZoneCaseSet(t, month, day, z);
    }
  }

  /** Lines 423-425: list the rows of a set of indexes in the order the set
      hands them out, which Python leaves to the set (the choice below is free). */
  method ListSetRows(t: Table, indexes: set<nat>) returns (caseIndexes: seq<nat>, caseRows: seq<Row>)
    requires forall x :: x in indexes ==> x < |t|
    ensures Distinct(caseIndexes) && |caseIndexes| == |indexes|
    ensures forall x :: x in caseIndexes <==> x in indexes
    ensures ValidHits(t, caseIndexes) && caseRows == RowsAt(t, caseIndexes)
  {
    caseIndexes, caseRows := [], [];
    var remaining := indexes;
    while remaining != {}
      invariant remaining <= indexes
      invariant forall x :: x in caseIndexes <==> x in indexes && x !in remaining
      invariant |caseIndexes| + |remaining| == |indexes|
      invariant Distinct(caseIndexes)
      invariant ValidHits(t, caseIndexes) && caseRows == RowsAt(t, caseIndexes)
      decreases |remaining|
    {
      var index :| index in remaining;
      RowsAtAppend(t, caseIndexes, index);
      caseRows := caseRows + [t[index]];
      caseIndexes := caseIndexes + [index];
      remaining := remaining - {index};
    }
  }

  /** Lines 410-426: the indexes numpy reports for the month, filtered to the
      date and collected into a set, then the set's rows. Each row on the date
      is listed exactly once, however often numpy reported it. */
  method CollectCaseRows(covidCases: Table, month: int, day: int)
    returns (caseIndexes: seq<nat>, caseRows: seq<Row>)
    requires Wide(covidCases, DAY_COL + 1)
    ensures Distinct(caseIndexes)
    ensures forall x: nat :: x in caseIndexes <==> x < |covidCases| && OnDate(covidCases[x], month, day)
    ensures |caseIndexes| == CountOnDate(covidCases, month, day)
    ensures ValidHits(covidCases, caseIndexes) && caseRows == RowsAt(covidCases, caseIndexes)
  {
    var _, tempCIndexes := CollectDateHits(covidCases, month, day);
    var covidIndexes := set h | h in tempCIndexes;
    DateHitsOfWhere(covidCases, month, day);
    assert covidIndexes == CaseSet(covidCases, month, day);
    CaseSetSize(covidCases, month, day);
    caseIndexes, caseRows := ListSetRows(covidCases, covidIndexes);
  }

  /** Lines 431-433: each case row adds one case to the zone it names. Each
      zone's count rises by its number of cases; nothing else changes. */
  method TallyCases(caseRows: seq<Row>, zoneObjs: seq<HealthZone>)
    requires |zoneObjs| == ZONE_COUNT && Distinct(zoneObjs)
    requires ZonesInRange(caseRows)
    modifies zoneObjs
    ensures forall z :: 0 <= z < ZONE_COUNT ==>
              && zoneObjs[z].caseNum == old(zoneObjs[z].caseNum) + CountZone(caseRows, z)
              && zoneObjs[z].zoneNum == old(zoneObjs[z].zoneNum)
              && zoneObjs[z].zoneName == old(zoneObjs[z].zoneName)
              && zoneObjs[z].population == old(zoneObjs[z].population)
              && zoneObjs[z].dose1Rate == old(zoneObjs[z].dose1Rate)
              && zoneObjs[z].dose2Rate == old(zoneObjs[z].dose2Rate)
  {
    for i := 0 to |caseRows|
      invariant forall z :: 0 <= z < ZONE_COUNT ==>
                  && zoneObjs[z].caseNum == old(zoneObjs[z].caseNum) + CountZone(caseRows[..i], z)
                  && zoneObjs[z].zoneNum == old(zoneObjs[z].zoneNum)
                  && zoneObjs[z].zoneName == old(zoneObjs[z].zoneName)
                  && zoneObjs[z].population == old(zoneObjs[z].population)
                  && zoneObjs[z].dose1Rate == old(zoneObjs[z].dose1Rate)
                  && zoneObjs[z].dose2Rate == old(zoneObjs[z].dose2Rate)
    {
      assert caseRows[..i + 1][..i] == caseRows[..i];
      var caseZone := ZoneOf(caseRows[i]);
      zoneObjs[caseZone].AddCase();
    }
    assert caseRows[..|caseRows|] == caseRows;
  }

  /** Line 436: `case_count_list`, each zone's `get_case_num()` in zone order. */
  method ReadCaseCounts(zoneObjs: seq<HealthZone>) returns (counts: seq<int>)
    requires |zoneObjs| == ZONE_COUNT
    ensures |counts| == ZONE_COUNT
    ensures forall z :: 0 <= z < ZONE_COUNT ==> counts[z] == zoneObjs[z].caseNum
  {
    counts := seq(ZONE_COUNT, z requires 0 <= z < ZONE_COUNT reads zoneObjs => zoneObjs[z].GetCaseNum());
  }

  /** The case figures for the date. */
  datatype CaseReport = CaseReport(
    caseIndexes: seq<nat>,
    caseRows: seq<Row>,
    caseCounts: seq<int>,
    maxCaseZone: nat)

  /** Lines 408-439 on zone objects that have no cases yet: the cases on the
      date, each zone's count, and `case_count_list.index(max_count)`, the
      first zone with the most cases. */
  method CaseStats(covidCases: Table, month: int, day: int, zoneObjs: seq<HealthZone>)
    returns (report: CaseReport)
    requires CaseDataUsable(covidCases, month, day)
    requires |zoneObjs| == ZONE_COUNT && Distinct(zoneObjs)
    requires forall z :: 0 <= z < ZONE_COUNT ==> zoneObjs[z].caseNum == 0
    modifies zoneObjs
    ensures Distinct(report.caseIndexes)
    ensures forall x: nat :: x in report.caseIndexes <==> x < |covidCases| && OnDate(covidCases[x], month, day)
    ensures |report.caseRows| == |report.caseIndexes| == CountOnDate(covidCases, month, day)
    ensures ValidHits(covidCases, report.caseIndexes) && report.caseRows == RowsAt(covidCases, report.caseIndexes)
    ensures ZonesInRange(report.caseRows) && report.caseCounts == CaseCounts(report.caseRows)
    ensures forall z :: 0 <= z < ZONE_COUNT ==>
              && report.caseCounts[z] == |ZoneCaseSet(covidCases, month, day, z)|
              && zoneObjs[z].caseNum == report.caseCounts[z]
    ensures forall z :: 0 <= z < ZONE_COUNT ==>
              && zoneObjs[z].zoneNum == old(zoneObjs[z].zoneNum)
              && zoneObjs[z].zoneName == old(zoneObjs[z].zoneName)
              && zoneObjs[z].population == old(zoneObjs[z].population)
              && zoneObjs[z].dose1Rate == old(zoneObjs[z].dose1Rate)
              && zoneObjs[z].dose2Rate == old(zoneObjs[z].dose2Rate)
    ensures report.maxCaseZone == ArgMaxInt(report.caseCounts)
  {
    var caseIndexes, caseRows := CollectCaseRows(covidCases, month, day);
    CaseCountsAreZoneSets(covidCases, month, day, caseIndexes);
    TallyCases(caseRows, zoneObjs);
    var caseCountList := ReadCaseCounts(zoneObjs);
    assert caseCountList == CaseCounts(caseRows);
    var maxCount := MaxInt(caseCountList);
    var maxCaseZone := IndexOf(caseCountList, maxCount);
    report := CaseReport(caseIndexes, caseRows, caseCountList, maxCaseZone);
  }
}
